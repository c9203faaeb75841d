/**
 * The violation-status panel (src/callbacks/compliance_callbacks/compliance_violation_status.py):
 * the filtered cases counted by one of six views (disposition, first
 * violation, violation group, first rule, first fee, number of reports),
 * the summary figures, the view toggle and the two modals.
 */
module ComplianceViolationStatus {
  import opened Common
  import opened ComplianceData

  // ---------------------------------------------------------------------
  // What each view counts

  /** The first element of a list cell, or `fallback` for a non-list, an empty list or a null first element. */
  function FirstOr(cell: ListCell, fallback: string): string
  {
    if cell.Some? && |cell.value| > 0 && cell.value[0].Some? then cell.value[0].value else fallback
  }

  /** `get_first_violation`. */
  function FirstViolation(c: Case): string
  {
    FirstOr(c.violations, "No Violation")
  }

  /** `get_first_rule`. */
  function FirstRule(c: Case): string
  {
    FirstOr(c.rules, "No Rule")
  }

  /** The named groups of `categorize_violation`, checked in this order. */
  const ViolationGroups: seq<(seq<string>, string)> := [
    (["Citation", "Combined Citation", "Citation: Unresolved"], "Active Citations"),
    (["Citation - Dismissed by review panel", "Corrected", "Corrected Prior to Review"], "Citation Outcomes"),
    (["Disciplinary Complaint", "Disciplinary Complaint Dismissed", "Disciplinary Complaint Upheld"], "Disciplinary Actions"),
    (["Investigation Created", "Escalated", "Warning"], "Investigations"),
    (["Call", "Chat", "Left Voicemail"], "Communication"),
    (["AOR/MLS Referral", "Transferred to OM/DB", "Modification", "Violation Override"], "Administrative"),
    (["No Violation", "Unable to Verify", "Duplicate", "Aged Report", "Withdrawn"], "Resolution/Closure"),
    (["Null", ""], "Data Issues")]

  /** The first group listing `v`, or "Other". */
  function GroupIn(groups: seq<(seq<string>, string)>, v: string): string
  {
    if |groups| == 0 then "Other"
    else if v in groups[0].0 then groups[0].1
    else GroupIn(groups[1..], v)
  }

  /**
   * `categorize_violation` on a first violation. The code's list for
   * "Data Issues" also names None, which cannot reach it: a null first
   * element has already become "No Violation".
   */
  function CategorizeViolation(v: string): string
  {
    GroupIn(ViolationGroups, v)
  }

  /** No violation name is listed in two groups. */
  lemma ViolationGroupsDisjoint()
    ensures forall i, j, v :: 0 <= i < j < |ViolationGroups| && v in ViolationGroups[i].0 ==> v !in ViolationGroups[j].0
  {
  }

  /** A listed name falls into its group, and a name in no list into "Other". */
  lemma {:induction false} GroupInSpec(groups: seq<(seq<string>, string)>, v: string, k: nat)
    requires k < |groups| && v in groups[k].0
    requires forall i :: 0 <= i < k ==> v !in groups[i].0
    ensures GroupIn(groups, v) == groups[k].1
  {
    if k > 0 {
      GroupInSpec(groups[1..], v, k - 1);
    }
  }

  lemma {:induction false} GroupInOther(groups: seq<(seq<string>, string)>, v: string)
    requires forall i :: 0 <= i < |groups| ==> v !in groups[i].0
    ensures GroupIn(groups, v) == "Other"
  {
    if |groups| > 0 {
      GroupInOther(groups[1..], v);
    }
  }

  /** Each of the eight lists maps to its group; a name in none of them is "Other". */
  lemma CategorizeViolationSpec(v: string, k: nat)
    requires k < |ViolationGroups|
    ensures v in ViolationGroups[k].0 ==> CategorizeViolation(v) == ViolationGroups[k].1
    ensures (forall i :: 0 <= i < |ViolationGroups| ==> v !in ViolationGroups[i].0) ==> CategorizeViolation(v) == "Other"
  {
    if v in ViolationGroups[k].0 {
      ViolationGroupsDisjoint();
      GroupInSpec(ViolationGroups, v, k);
    }
    if forall i :: 0 <= i < |ViolationGroups| ==> v !in ViolationGroups[i].0 {
      GroupInOther(ViolationGroups, v);
    }
  }

  function ViolationGroupOf(c: Case): string
  {
    CategorizeViolation(FirstViolation(c))
  }

  /** A case without violations is a "Resolution/Closure" case. */
  lemma NoViolationGroup(c: Case)
    requires c.violations.None? || c.violations == Some([])
    ensures ViolationGroupOf(c) == "Resolution/Closure"
  {
    CategorizeViolationSpec("No Violation", 6);
  }

  // ---------------------------------------------------------------------
  // Fee labels

  /** `str(fee).replace('.', '').replace('0', '').strip()` is non-empty: the fee text has a digit other than zero or other text. */
  predicate MeaningfulFee(fee: string)
  {
    Strip(Replace(Replace(fee, ".", ""), "0", "")) != ""
  }

  /** The label of a case without a meaningful fee. */
  const NoFee: string := "No Fee"

  /** A meaningful fee gets a "$" unless it has one; any other fee is "No Fee". */
  function FeeLabel(fee: string): string
  {
    if MeaningfulFee(fee) then (if StartsWith(fee, "$") then fee else "$" + fee) else NoFee
  }

  /**
   * `get_first_fee` as written: a null first element is replaced by the text
   * "No Fee" before the test, and that text, being meaningful, is labelled
   * "$No Fee".
   */
  function FirstFeeLabelAsWritten(c: Case): string
  {
    if c.fees.Some? && |c.fees.value| > 0 then
      FeeLabel(if c.fees.value[0].Some? then c.fees.value[0].value else NoFee)
    else NoFee
  }

  /** `get_first_fee` as intended: a null first element is "No Fee". */
  function FirstFeeLabel(c: Case): string
  {
    if c.fees.Some? && |c.fees.value| > 0 && c.fees.value[0].Some? then FeeLabel(c.fees.value[0].value)
    else NoFee
  }

  /** The two agree except on a null first fee. */
  lemma FirstFeeLabelsAgree(c: Case)
    requires !(c.fees.Some? && |c.fees.value| > 0 && c.fees.value[0].None?)
    ensures FirstFeeLabelAsWritten(c) == FirstFeeLabel(c)
  {
  }

  /** A fee text with a character that is not whitespace, "." or "0" is meaningful. */
  lemma MeaningfulWith(fee: string, i: nat)
    requires i < |fee| && fee[i] !in Whitespace && fee[i] != '.' && fee[i] != '0'
    ensures MeaningfulFee(fee)
  {
    var d := fee[i];
    var s := Replace(Replace(fee, ".", ""), "0", "");
    ReplaceCharKeeps(fee, '.', "", d);
    ReplaceCharKeeps(Replace(fee, ".", ""), '0', "", d);
    assert d in s;
    StripEmptyIffBlank(s);
  }

  /** The fallback text is labelled as a fee. */
  lemma NoFeeLabel()
    ensures FeeLabel(NoFee) == "$" + NoFee
  {
    MeaningfulWith(NoFee, 0);
    assert !StartsWith(NoFee, "$") by {
      assert NoFee[0] == 'N';
    }
  }

  /** A case whose first fee is null: as written it is counted under "$No Fee", as intended under "No Fee". */
  lemma NullFeeLabelledAsWritten(c: Case)
    requires c.fees == Some([None])
    ensures FirstFeeLabelAsWritten(c) == "$" + NoFee
    ensures FirstFeeLabel(c) == NoFee
  {
    assert FirstFeeLabelAsWritten(c) == FeeLabel(NoFee);
    NoFeeLabel();
  }

  /** A fee label is "No Fee" or starts with "$". */
  lemma FeeLabelShape(fee: string)
    ensures FeeLabel(fee) == NoFee || StartsWith(FeeLabel(fee), "$")
  {
  }

  // ---------------------------------------------------------------------
  // Report-count labels

  /** `get_report_count_label` on the number of report ids. */
  function ReportLabel(n: nat): string
  {
    if n == 0 then "No Reports"
    else if n >= 10 then "10+ Reports"
    else NatToString(n) + " Report" + (if n != 1 then "s" else "")
  }

  function ReportLabelOf(c: Case): string
  {
    ReportLabel(c.numReportIds)
  }

  /**
   * `extract_report_number`: "No Reports" is 0, any other label the
   * integer before its first space with "+" removed. The code compares the
   * two-digit zero-filled texts, which for numbers below 100 order as the
   * numbers do.
   */
  function ReportNumber(text: string): Option<int>
  {
    if text == "No Reports" then Some(0)
    else ParseInt(Replace(Split(text, " ")[0], "+", ""))
  }

  /** The sort key of a counted label; every label the panel makes reads back (`ReportLabelNumber`). */
  function ByReportNumber(e: (string, nat)): int
  {
    var n := ReportNumber(e.0);
    if n.Some? then n.value else 0
  }

  /** A word free of spaces followed by a space is the first piece of the split. */
  lemma FirstWordOf(w: string, rest: string)
    requires ' ' !in w && |rest| > 0 && rest[0] == ' '
    ensures Split(w + rest, " ")[0] == w
  {
    var s := w + rest;
    forall j | 0 <= j < |w| ensures !OccursAt(s, " ", j) {
      assert s[j..j + 1][0] == w[j];
    }
    assert s[|w|..|w| + 1] == " ";
    FindFromFirst(s, " ", 0, |w|);
  }

  /** Removing every "+" from a text without one changes nothing, and a trailing one goes. */
  lemma {:induction false} ReplacePlus(w: string)
    requires '+' !in w
    ensures Replace(w, "+", "") == w
    ensures Replace(w + "+", "+", "") == w
  {
    if |w| > 0 {
      assert w[1..] + "+" == (w + "+")[1..];
      ReplacePlus(w[1..]);
    } else {
      assert Replace("+", "+", "") == "" + Replace("", "+", "");
    }
  }

  lemma TenPlusNumber()
    ensures ReportNumber("10+ Reports") == Some(10)
  {
    var text := "10+ Reports";
    assert text != "No Reports" by {
      assert text[0] == '1' && "No Reports"[0] == 'N';
    }
    assert text == "10+" + " Reports";
    FirstWordOf("10+", " Reports");
    assert "10+" == "10" + "+";
    ReplacePlus("10");
    assert Replace(Split(text, " ")[0], "+", "") == "10";
    ParseDigits("10");
    assert DigitsValue("10") == 10 by {
      assert "10"[..1] == "1" && "1"[..0] == "";
    }
  }

  lemma DigitNumber(n: nat, rest: string)
    requires 0 < n < 10 && |rest| > 0 && rest[0] == ' '
    ensures ReportNumber([DigitChar(n)] + rest) == Some(n)
  {
    var w := [DigitChar(n)];
    assert (w + rest)[0] != 'N';
    assert w + rest != "No Reports" by {
      assert "No Reports"[0] == 'N';
    }
    FirstWordOf(w, rest);
    ReplacePlus(w);
    ParseDigits(w);
  }

  /** Every label reads back as its number of reports, capped at 10. */
  lemma ReportLabelNumber(n: nat)
    ensures ReportNumber(ReportLabel(n)) == Some(if n >= 10 then 10 else n)
  {
    if n >= 10 {
      TenPlusNumber();
    } else if n > 0 {
      var rest := " Report" + (if n != 1 then "s" else "");
      assert rest[0] == ' ';
      assert ReportLabel(n) == [DigitChar(n)] + rest;
      DigitNumber(n, rest);
    }
  }

  /** Different report numbers below 10 get different labels: the labels read back apart. */
  lemma ReportLabelsDistinct(a: nat, b: nat)
    requires a < 10 && b <= 10 && a != b
    ensures ReportLabel(a) != ReportLabel(b)
  {
    ReportLabelNumber(a);
    ReportLabelNumber(b);
  }

  // ---------------------------------------------------------------------
  // Preparing a view

  function DispositionOf(c: Case): Option<string> { c.disposition }

  /** The six view names, in the toggle's button order. */
  const Views: seq<string> := ["disposition", "violation", "violation_grouped", "rules", "citation_fees", "report_count"]

  /**
   * The category each case falls in under `view`, `fee` labelling the fee
   * view; None for a view the code has no branch for (its `status_counts`
   * is then unbound and the callback raises). `value_counts()` on
   * Disposition skips nulls, so that view has one category per case with a
   * disposition.
   */
  function CategoriesWith(cases: seq<Case>, view: string, fee: Case -> string): Option<seq<string>>
  {
    if view == "disposition" then Some(Somes(Map(cases, DispositionOf)))
    else if view == "violation" then Some(Map(cases, FirstViolation))
    else if view == "violation_grouped" then Some(Map(cases, ViolationGroupOf))
    else if view == "rules" then Some(Map(cases, FirstRule))
    else if view == "citation_fees" then Some(Map(cases, fee))
    else if view == "report_count" then Some(Map(cases, ReportLabelOf))
    else None
  }

  /** The summary figures of a non-empty frame. */
  datatype StatusSummary = StatusSummary(totalCases: nat, openCases: nat, closedCases: nat, uniqueCategories: nat)

  predicate ClosedDisposition(c: Case) { c.disposition == Some("Closed") }

  /** `Disposition != 'Closed'`: a null disposition counts as open. */
  predicate OpenDisposition(c: Case) { c.disposition != Some("Closed") }

  /** The counted categories before the final sort; the report view is first put in report-number order. */
  function CountsOf(cats: seq<string>, view: string): seq<(string, nat)>
  {
    if view == "report_count" then SortBy(ValueCounts(cats), ByReportNumber) else ValueCounts(cats)
  }

  /**
   * `prepare_violation_status_data` with the fee labeller `fee`: an empty
   * frame gives no counts and no summary; an unknown view raises (None);
   * otherwise the category counts sorted by count, largest first, and the
   * summary.
   */
  function PrepareWith(cases: seq<Case>, view: string, fee: Case -> string): Option<(seq<(string, nat)>, Option<StatusSummary>)>
  {
    if |cases| == 0 then Some(([], None))
    else
      var cats := CategoriesWith(cases, view, fee);
      if cats.None? then None
      else
        var counts := CountsOf(cats.value, view);
        var summary := StatusSummary(|cases|, |Filter(cases, OpenDisposition)|, |Filter(cases, ClosedDisposition)|, |counts|);
        Some((SortBy(counts, ByCountDescending), Some(summary)))
  }

  /** The panel's data preparation as written. */
  function PrepareViolationStatusAsWritten(cases: seq<Case>, view: string): Option<(seq<(string, nat)>, Option<StatusSummary>)>
  {
    PrepareWith(cases, view, FirstFeeLabelAsWritten)
  }

  /** The panel's data preparation with the intended fee labels. */
  function PrepareViolationStatus(cases: seq<Case>, view: string): Option<(seq<(string, nat)>, Option<StatusSummary>)>
  {
    PrepareWith(cases, view, FirstFeeLabel)
  }

  /** A case with a null first fee: the fee view counts it under "$No Fee" as written and "No Fee" as intended. */
  lemma NullFeeCategory(c: Case)
    requires c.fees == Some([None])
    ensures PrepareViolationStatusAsWritten([c], "citation_fees") == Some(([("$" + NoFee, 1)], Some(OneCaseSummary(c))))
    ensures PrepareViolationStatus([c], "citation_fees") == Some(([(NoFee, 1)], Some(OneCaseSummary(c))))
  {
    NullFeeLabelledAsWritten(c);
    FeeViewOne(c, "citation_fees", FirstFeeLabelAsWritten);
    FeeViewOne(c, "citation_fees", FirstFeeLabel);
  }

  /** The summary of a frame holding the one case `c`. */
  function OneCaseSummary(c: Case): StatusSummary
  {
    StatusSummary(1, if OpenDisposition(c) then 1 else 0, if ClosedDisposition(c) then 1 else 0, 1)
  }

  /** The fee view of a one-case frame counts that case's fee label once. */
  lemma FeeViewOne(c: Case, view: string, fee: Case -> string)
    requires view == "citation_fees"
    ensures PrepareWith([c], view, fee) == Some(([(fee(c), 1)], Some(OneCaseSummary(c))))
  {
    assert |view| == 13;
    assert view != "disposition" && view != "violation" && view != "violation_grouped" && view != "rules";
    assert Map([c], fee) == [fee(c)];
    assert CategoriesWith([c], view, fee) == Some([fee(c)]);
    ValueCountsOne(fee(c));
    assert CountsOf([fee(c)], view) == [(fee(c), 1)];
    var p: (string, nat) := (fee(c), 1);
    SortOne(p, ByCountDescending);
    assert Filter([c], OpenDisposition) == (if OpenDisposition(c) then [c] else []);
    assert Filter([c], ClosedDisposition) == (if ClosedDisposition(c) then [c] else []);
  }

  lemma SortOne<T>(x: T, key: T -> int)
    ensures SortBy([x], key) == [x]
  {
    var r := SortBy([x], key);
    assert r[0] in multiset(r);
  }

  lemma ValueCountsOne(x: string)
    ensures ValueCounts([x]) == [(x, 1)]
  {
    assert Distinct([x]) == [x];
  }

  lemma KnownViewCategories(cases: seq<Case>, view: string, fee: Case -> string)
    ensures CategoriesWith(cases, view, fee).Some? <==> view in Views
  {
  }

  /**
   * On a non-empty frame: the view answers exactly when it is one of the
   * six; open and closed cases add up to the total; every category is
   * counted once with its number of cases; counts never increase along the
   * table; and the counts add up to the number of cases (with a
   * disposition, for the disposition view).
   */
  lemma PrepareSpec(cases: seq<Case>, view: string, fee: Case -> string)
    requires |cases| > 0
    ensures PrepareWith(cases, view, fee).Some? <==> view in Views
    ensures view in Views ==>
      var cats := CategoriesWith(cases, view, fee).value;
      var (counts, summary) := PrepareWith(cases, view, fee).value;
      summary.Some? && summary.value.totalCases == |cases| &&
      summary.value.openCases + summary.value.closedCases == |cases| &&
      summary.value.uniqueCategories == |counts| &&
      (forall e :: e in counts ==> e.0 in cats && e.1 == Count(cats, e.0)) &&
      (forall x :: x in cats ==> (x, Count(cats, x)) in counts) &&
      SortedBy(counts, ByCountDescending) &&
      Sum(Map(counts, CountOf)) == |cats|
  {
    KnownViewCategories(cases, view, fee);
    if view in Views {
      var cats := CategoriesWith(cases, view, fee).value;
      var counts := CountsOf(cats, view);
      OpenClosedPartition(cases);
      CountsOfSpec(cats, view);
      var sorted := SortBy(counts, ByCountDescending);
      SumMapSort(counts, ByCountDescending, CountOf);
      forall e | e in sorted ensures e.0 in cats && e.1 == Count(cats, e.0) {
        assert e in multiset(counts);
      }
      forall x | x in cats ensures (x, Count(cats, x)) in sorted {
        assert (x, Count(cats, x)) in multiset(counts);
      }
    }
  }

  /** Counting loses nothing, whatever the order. */
  lemma CountsOfSpec(cats: seq<string>, view: string)
    ensures var counts := CountsOf(cats, view);
      (forall e :: e in counts ==> e.0 in cats && e.1 == Count(cats, e.0)) &&
      (forall x :: x in cats ==> (x, Count(cats, x)) in counts) &&
      Sum(Map(counts, CountOf)) == |cats|
  {
    var vc := ValueCounts(cats);
    ValueCountsTotal(cats);
    forall e | e in vc ensures e.0 in cats && e.1 == Count(cats, e.0) {
      ValueCountsEntry(cats, e);
    }
    forall x | x in cats ensures (x, Count(cats, x)) in vc {
      ValueCountsCover(cats, x);
    }
    if view == "report_count" {
      var counts := SortBy(vc, ByReportNumber);
      SumMapSort(vc, ByReportNumber, CountOf);
      forall e | e in counts ensures e in vc {
        assert e in multiset(vc);
      }
      forall x | x in cats ensures (x, Count(cats, x)) in counts {
        assert (x, Count(cats, x)) in multiset(counts);
      }
    }
  }

  /** Every case is open or closed by its disposition, and not both. */
  lemma {:induction false} OpenClosedPartition(cases: seq<Case>)
    ensures |Filter(cases, OpenDisposition)| + |Filter(cases, ClosedDisposition)| == |cases|
  {
    if |cases| > 0 {
      OpenClosedPartition(cases[1..]);
    }
  }

  /** Outside the disposition view every case is counted; the disposition view counts the cases that have one. */
  lemma CategoriesCover(cases: seq<Case>, view: string, fee: Case -> string)
    requires view in Views
    ensures view != "disposition" ==> |CategoriesWith(cases, view, fee).value| == |cases|
    ensures view == "disposition" ==> |CategoriesWith(cases, view, fee).value| == |Filter(cases, (c: Case) => c.disposition.Some?)|
  {
    if view == "disposition" {
      SomesMapCount(cases);
    }
  }

  lemma {:induction false} SomesMapCount(cases: seq<Case>)
    ensures |Somes(Map(cases, DispositionOf))| == |Filter(cases, (c: Case) => c.disposition.Some?)|
  {
    if |cases| > 0 {
      SomesMapCount(cases[1..]);
      assert Map(cases, DispositionOf) == [cases[0].disposition] + Map(cases[1..], DispositionOf);
    }
  }

  // ---------------------------------------------------------------------
  // The callbacks

  /** What the chart and insights show. */
  datatype StatusPanel =
    | NoBaseData                                                        // "Violation Analysis - No Data"
    | StatusError                                                       // "Violation Analysis - Error"
    | StatusChart(counts: seq<(string, nat)>, summary: Option<StatusSummary>)

  /**
   * `update_violation_status_chart` with the fee labeller `fee`: nothing
   * fetched, or the filter or the preparation raising, or the prepared
   * counts (empty counts draw the "No violation data available" chart).
   */
  function UpdateWith(base: seq<Case>, st: Store, view: string, fee: Case -> string): StatusPanel
  {
    if |base| == 0 then NoBaseData
    else
      match ApplyComplianceFilters(base, st)
      case None => StatusError
      case Some(filtered) =>
        match PrepareWith(filtered, view, fee)
        case None => StatusError
        case Some((counts, summary)) => StatusChart(counts, summary)
  }

  /** The callback as written, with the fee labels as written. */
  function UpdateViolationStatus(base: seq<Case>, st: Store, view: string): StatusPanel
  {
    UpdateWith(base, st, view, FirstFeeLabelAsWritten)
  }

  /** The callback with the intended fee labels. */
  function UpdateViolationStatusIntended(base: seq<Case>, st: Store, view: string): StatusPanel
  {
    UpdateWith(base, st, view, FirstFeeLabel)
  }

  /**
   * With data and a readable store, the chart shows the filtered frame's
   * counts for a known view and fails for any other, whichever fee labels
   * are used.
   */
  lemma UpdateViolationStatusSpec(base: seq<Case>, st: Store, view: string, fee: Case -> string)
    requires |base| > 0 && ApplyComplianceFilters(base, st).Some?
    ensures var filtered := ApplyComplianceFilters(base, st).value;
      (|filtered| == 0 ==> UpdateWith(base, st, view, fee) == StatusChart([], None)) &&
      (|filtered| > 0 ==>
        (UpdateWith(base, st, view, fee).StatusChart? <==> view in Views))
  {
    var filtered := ApplyComplianceFilters(base, st).value;
    if |filtered| > 0 {
      KnownViewCategories(filtered, view, fee);
    }
  }

  /** Outside the fee view the callback as written and the intended one agree. */
  lemma UpdateViolationStatusAgrees(base: seq<Case>, st: Store, view: string)
    requires view != "citation_fees"
    ensures UpdateViolationStatus(base, st, view) == UpdateViolationStatusIntended(base, st, view)
  {
    if |base| > 0 && ApplyComplianceFilters(base, st).Some? {
      var filtered := ApplyComplianceFilters(base, st).value;
      assert CategoriesWith(filtered, view, FirstFeeLabelAsWritten) == CategoriesWith(filtered, view, FirstFeeLabel);
    }
  }

  const ViewButtons: seq<string> := [
    "violation-disposition-view-btn", "violation-types-view-btn", "violation-categories-view-btn",
    "violation-rules-view-btn", "violation-fees-view-btn", "violation-reports-view-btn"]

  /** The position of the button that fired; the disposition button's for no trigger or an unknown one. */
  function ViewIndex(trigger: Option<string>): (k: nat)
    ensures k < 6
  {
    if trigger.None? then 0
    else if trigger.value == ViewButtons[1] then 1
    else if trigger.value == ViewButtons[2] then 2
    else if trigger.value == ViewButtons[3] then 3
    else if trigger.value == ViewButtons[4] then 4
    else if trigger.value == ViewButtons[5] then 5
    else 0
  }

  /** `toggle_violation_status_view`: the view and the six buttons' active flags. */
  function ToggleView(trigger: Option<string>): (r: (string, seq<bool>))
  {
    var k := ViewIndex(trigger);
    (Views[k], seq(6, i => i == k))
  }

  /** Exactly one button is active, the one of the view chosen; each button selects its own view; the default is "disposition". */
  lemma ToggleViewSpec(trigger: Option<string>, k: nat)
    requires k < 6
    ensures var (view, active) := ToggleView(trigger);
      |active| == 6 && view in Views &&
      (forall i :: 0 <= i < 6 ==> (active[i] <==> Views[i] == view)) &&
      (trigger == Some(ViewButtons[k]) ==> view == Views[k]) &&
      (trigger !in Map(ViewButtons, (b: string) => Some(b)) ==> view == "disposition")
  {
    var m := Map(ViewButtons, (b: string) => Some(b));
    if trigger !in m {
      forall i | 0 <= i < 6 ensures trigger != Some(ViewButtons[i]) {
        assert m[i] == Some(ViewButtons[i]);
      }
    }
  }

  /** What the details modal's content becomes. */
  datatype DetailsContent = KeepContent | DetailsTable(counts: seq<(string, nat)>) | DetailsError

  /**
   * `toggle_violation_details_modal`: a click opens a closed modal with the
   * breakdown of the current view (an error panel when preparing it
   * raises) and closes an open one, leaving the content; no click updates
   * nothing (None).
   */
  function DetailsModal(clicks: nat, isOpen: bool, base: seq<Case>, st: Store, view: string): (Option<bool>, DetailsContent)
  {
    if clicks == 0 then (None, KeepContent)
    else if isOpen then (Some(false), KeepContent)
    else
      match ApplyComplianceFilters(base, st)
      case None => (Some(true), DetailsError)
      case Some(filtered) =>
        match PrepareViolationStatusAsWritten(filtered, view)
        case None => (Some(true), DetailsError)
        case Some((counts, _)) => (Some(true), DetailsTable(counts))
  }

  /** A click flips the modal, and opening always shows some content. */
  lemma DetailsModalSpec(clicks: nat, isOpen: bool, base: seq<Case>, st: Store, view: string)
    ensures var (open, content) := DetailsModal(clicks, isOpen, base, st, view);
      (clicks == 0 <==> open.None?) &&
      (clicks > 0 ==> open == Some(!isOpen)) &&
      (open == Some(true) <==> !content.KeepContent?)
  {
  }

  /** `close_violation_details_modal`: the close button shuts an open modal; otherwise nothing changes. */
  function CloseDetails(clicks: nat, isOpen: bool): (r: Option<bool>)
    ensures r.Some? <==> clicks > 0 && isOpen
    ensures r.Some? ==> !r.value
  {
    if clicks > 0 && isOpen then Some(false) else None
  }

  /** `toggle_violation_status_chart_modal`: a click on the chart wrapper opens a closed modal; nothing else updates. */
  function ChartModal(trigger: Option<string>, clicks: nat, isOpen: bool): (r: Option<bool>)
    ensures r.Some? <==> trigger == Some("compliance-violation-status-chart-wrapper") && clicks > 0 && !isOpen
    ensures r.Some? ==> r.value
  {
    if trigger == Some("compliance-violation-status-chart-wrapper") && clicks > 0 && !isOpen then Some(true) else None
  }
}
