/**
 * The outstanding-issues panel of the Compliance page: the chart colours,
 * the priority indicators and row classes of the details table, the
 * insights with their guarded percentages, and the view and modal toggles.
 * The category counts and summary come from `PrepareOutstanding`.
 */
module ComplianceOutstandingIssues {
  import opened Common
  import opened ComplianceData

  // ---------------------------------------------------------------------
  // Priority indicators and row classes of the details table

  const Alarm: string := "\U{1F6A8}"
  const Caution: string := "\U{26A0}\U{FE0F}"
  const Clipboard: string := "\U{1F4CB}"
  const Memo: string := "\U{1F4DD}"
  const Query: string := "\U{2753}"
  const Tick: string := "\U{2705}"
  const Person: string := "\U{1F464}"

  /** The priority of a category row: a mark and a word. */
  datatype Priority = Immediate | Urgent | Standard | Routine | ToReview | Stale | Aging | Recent | Fresh | NeedsAssignment | Assigned | ViolationReview

  function Mark(p: Priority): (m: string)
    ensures m in Marks
  {
    match p
    case Immediate => Alarm
    case Stale => Alarm
    case NeedsAssignment => Alarm
    case Urgent => Caution
    case Aging => Caution
    case Standard => Clipboard
    case Recent => Clipboard
    case ViolationReview => Clipboard
    case Routine => Memo
    case ToReview => Query
    case Fresh => Tick
    case Assigned => Person
  }

  function Word(p: Priority): string
  {
    match p
    case Immediate => " Immediate"
    case Urgent => " Urgent"
    case Standard => " Standard"
    case Routine => " Routine"
    case ToReview => " Review"
    case Stale => " Stale"
    case Aging => " Aging"
    case Recent => " Recent"
    case Fresh => " Fresh"
    case NeedsAssignment => " Needs Assignment"
    case Assigned => " Assigned"
    case ViolationReview => " Review"
  }

  /** The indicator text shown in the table. */
  function Indicator(p: Priority): string
  {
    Mark(p) + Word(p)
  }

  /** The priority of one category in one view; every view and category has one. */
  function PriorityOf(view: string, category: string): Priority
  {
    if view == "severity" then
      if category == "CRITICAL" then Immediate
      else if category == "HIGH" then Urgent
      else if category == "MEDIUM" then Standard
      else if category == "LOW" then Routine
      else ToReview
    else if view == "age" then
      if Contains(category, ">90 days") then Stale
      else if Contains(category, "31-90 days") then Aging
      else if Contains(category, "8-30 days") then Recent
      else Fresh
    else if view == "assignment" then
      if Contains(category, UnassignedLabel) then NeedsAssignment else Assigned
    else ViolationReview
  }

  function PriorityIndicator(view: string, category: string): string
  {
    Indicator(PriorityOf(view, category))
  }

  /** The loop building `priority_indicators`: one indicator per category row, in row order. */
  method PriorityIndicators(view: string, counts: seq<(string, nat)>) returns (r: seq<string>)
    ensures |r| == |counts|
    ensures forall i :: 0 <= i < |counts| ==> r[i] == PriorityIndicator(view, counts[i].0)
  {
    r := [];
    var i := 0;
    while i < |counts|
      invariant 0 <= i <= |counts|
      invariant |r| == i
      invariant forall k :: 0 <= k < i ==> r[k] == PriorityIndicator(view, counts[k].0)
    {
      r := r + [PriorityIndicator(view, counts[i].0)];
      i := i + 1;
    }
  }

  /** A row's class: danger for an alarm, warning for a caution, otherwise info for the first three rows. */
  function RowClass(indicator: string, i: nat): string
  {
    if Contains(indicator, Alarm) then "table-danger"
    else if Contains(indicator, Caution) then "table-warning"
    else if i < 3 then "table-info"
    else ""
  }

  /** Every character of a contained string occurs in the containing one. */
  lemma ContainedChars(s: string, sub: string, j: nat)
    requires Contains(s, sub) && j < |sub|
    ensures sub[j] in s
  {
    var i :| 0 <= i <= |s| - |sub| && OccursAt(s, sub, i);
    assert s[i + j] == sub[j];
  }

  lemma ContainsPrefix(p: string, rest: string)
    ensures Contains(p + rest, p)
  {
    assert OccursAt(p + rest, p, 0);
  }

  /** No contained string starts with a character the containing one lacks. */
  lemma NotContained(s: string, sub: string)
    requires |sub| > 0 && sub[0] !in s
    ensures !Contains(s, sub)
  {
    if Contains(s, sub) {
      ContainedChars(s, sub, 0);
    }
  }

  const Marks: seq<string> := [Alarm, Caution, Clipboard, Memo, Query, Tick, Person]

  /** An indicator is one of the marks followed by plain text: it holds the alarm or the caution exactly when that is its mark. */
  lemma MarkOf(mark: string, word: string)
    requires mark in Marks
    requires forall k :: 0 <= k < |word| ==> word[k] < 128 as char
    ensures Contains(mark + word, Alarm) <==> mark == Alarm
    ensures Contains(mark + word, Caution) <==> mark == Caution
  {
    var t := mark + word;
    if mark == Alarm {
      ContainsPrefix(Alarm, word);
    } else {
      assert Alarm[0] !in t;
      NotContained(t, Alarm);
    }
    if mark == Caution {
      ContainsPrefix(Caution, word);
    } else {
      assert Caution[0] !in t;
      NotContained(t, Caution);
    }
  }

  /** The words are plain text. */
  lemma WordPlain(p: Priority)
    ensures forall k :: 0 <= k < |Word(p)| ==> Word(p)[k] < 128 as char
  {
  }

  /**
   * The row class per view: in the severity view CRITICAL rows are danger
   * and HIGH rows warning; in the age view stale rows are danger and aging
   * rows warning; in the assignment view unassigned rows are danger; other
   * rows are info among the first three and plain after.
   */
  lemma RowClassByView(view: string, category: string, i: nat)
    ensures var c := RowClass(PriorityIndicator(view, category), i);
      var plain := if i < 3 then "table-info" else "";
      (view == "severity" ==>
        c == (if category == "CRITICAL" then "table-danger" else if category == "HIGH" then "table-warning" else plain)) &&
      (view == "age" ==>
        c == (if Contains(category, ">90 days") then "table-danger" else if Contains(category, "31-90 days") then "table-warning" else plain)) &&
      (view == "assignment" ==>
        c == (if Contains(category, UnassignedLabel) then "table-danger" else plain)) &&
      (view !in ["severity", "age", "assignment"] ==> c == plain)
  {
    var p := PriorityOf(view, category);
    WordPlain(p);
    MarkOf(Mark(p), Word(p));
  }

  /** Over the age buckets the stale bucket is the alarm, the aging one the caution, the younger ones neither. */
  lemma AgeBucketIndicator(days: int)
    ensures PriorityOf("age", AgeBucket(days)) == (if days > 90 then Stale else if days > 30 then Aging else if days > 7 then Recent else Fresh)
  {
    if days > 90 {
      StaleBucket();
    } else if days > 30 {
      AgingBucket();
    } else if days > 7 {
      RecentBucket();
    } else {
      FreshBucket();
    }
  }

  lemma StaleBucket()
    ensures PriorityOf("age", AgeOrder[3]) == Stale
  {
    assert AgeOrder[3] == ">90 days" + " (Stale)";
    ContainsPrefix(">90 days", " (Stale)");
  }

  lemma AgingBucket()
    ensures PriorityOf("age", AgeOrder[2]) == Aging
  {
    var b := AgeOrder[2];
    assert b == "31-90 days" + " (Aging)";
    NotContained(b, ">90 days");
    ContainsPrefix("31-90 days", " (Aging)");
  }

  lemma RecentBucket()
    ensures PriorityOf("age", AgeOrder[1]) == Recent
  {
    var b := AgeOrder[1];
    assert b == "8-30 days" + " (Recent)";
    NotContained(b, ">90 days");
    if Contains(b, "31-90 days") { ContainedChars(b, "31-90 days", 3); }
    ContainsPrefix("8-30 days", " (Recent)");
  }

  lemma FreshBucket()
    ensures PriorityOf("age", AgeOrder[0]) == Fresh
  {
    var b := AgeOrder[0];
    NotContained(b, ">90 days");
    NotContained(b, "31-90 days");
    NotContained(b, "8-30 days");
  }

  // ---------------------------------------------------------------------
  // Chart

  /** A bar colour: a fixed hex colour, or the k-th colour of the qualitative palette. */
  datatype Colour = Hex(code: string) | PaletteColour(k: nat)

  /** The qualitative palette of the violation view holds twelve colours. */
  const PaletteSize: nat := 12

  const Grey: string := "#7f8c8d"

  function SeverityColour(category: string): string
  {
    if category == "CRITICAL" then "#e74c3c"
    else if category == "HIGH" then "#f39c12"
    else if category == "MEDIUM" then "#3498db"
    else if category == "LOW" then "#27ae60"
    else if category == "DATA_ISSUE" then "#95a5a6"
    else Grey
  }

  function AgeColour(category: string): string
  {
    if category == AgeOrder[0] then "#27ae60"
    else if category == AgeOrder[1] then "#f39c12"
    else if category == AgeOrder[2] then "#e67e22"
    else if category == AgeOrder[3] then "#c0392b"
    else Grey
  }

  function AssignmentColour(category: string): string
  {
    if Contains(category, UnassignedLabel) then "#e74c3c" else "#3498db"
  }

  function Palette(n: nat): (r: seq<Colour>)
    ensures |r| == n
    ensures forall k :: 0 <= k < n ==> r[k] == PaletteColour(k)
  {
    if n == 0 then [] else Palette(n - 1) + [PaletteColour(n - 1)]
  }

  /** The colour of each bar in category order; the violation view takes the palette's first colours, at most twelve. */
  function BarColours(view: string, counts: seq<(string, nat)>): (r: seq<Colour>)
  {
    if view == "severity" then Map(counts, (e: (string, nat)) => Hex(SeverityColour(e.0)))
    else if view == "age" then Map(counts, (e: (string, nat)) => Hex(AgeColour(e.0)))
    else if view == "assignment" then Map(counts, (e: (string, nat)) => Hex(AssignmentColour(e.0)))
    else Palette(if |counts| < PaletteSize then |counts| else PaletteSize)
  }

  /** Every category of the three named views has its own colour; past twelve violation types the palette runs out. */
  lemma BarColoursSpec(view: string, counts: seq<(string, nat)>)
    ensures view in ["severity", "age", "assignment"] ==> |BarColours(view, counts)| == |counts|
    ensures view !in ["severity", "age", "assignment"] ==>
      |BarColours(view, counts)| == (if |counts| <= PaletteSize then |counts| else PaletteSize)
    ensures view == "assignment" ==> forall i :: 0 <= i < |counts| ==>
      (BarColours(view, counts)[i] == Hex("#e74c3c") <==> Contains(counts[i].0, UnassignedLabel))
  {
  }

  function Reverse<T>(xs: seq<T>): (r: seq<T>)
    ensures |r| == |xs|
    ensures forall i :: 0 <= i < |xs| ==> r[i] == xs[|xs| - 1 - i]
  {
    if |xs| == 0 then [] else Reverse(xs[1..]) + [xs[0]]
  }

  datatype OutstandingChart =
    | AllClearChart
    | BarChart(bars: seq<(string, nat)>, colours: seq<Colour>, title: string, total: nat)

  function ViewTitle(view: string): string
  {
    if view == "severity" then "Outstanding Issues by Severity Level"
    else if view == "age" then "Outstanding Issues by Age"
    else if view == "assignment" then "Outstanding Issues by Assignment Status"
    else if view == "violation" then "Outstanding Issues by Violation Type"
    else "Outstanding Issues"
  }

  function OutstandingOf(s: Summary): nat
  {
    if s.Stats? then s.outstanding else 0
  }

  /** `create_outstanding_issues_chart`: all clear without categories, else the bars bottom-up, the most important at the top. */
  function OutstandingChartOf(counts: seq<(string, nat)>, summary: Summary, view: string): OutstandingChart
  {
    if |counts| == 0 then AllClearChart
    else BarChart(Reverse(counts), Reverse(BarColours(view, counts)), ViewTitle(view), OutstandingOf(summary))
  }

  // ---------------------------------------------------------------------
  // Insights

  datatype Insight =
    | AllClear
    | OutstandingSummary(outstanding: nat, total: nat, percentage: real)
    | CriticalIssues(cases: nat)
    | UnassignedCases(cases: nat, percentage: real)
    | StaleCases(cases: nat, percentage: real)
    | TopSeverity(category: string, cases: nat, percentage: real)
    | AssignmentPriority(cases: nat)

  /** A share in percent, zero when there is nothing to divide by. */
  function Percentage(part: nat, whole: nat): (p: real)
    ensures part <= whole ==> 0.0 <= p <= 100.0
    ensures whole > 0 ==> (p == 100.0 <==> part == whole)
  {
    if whole > 0 then
      ShareBounds(part, whole);
      (part as real) * 100.0 / (whole as real)
    else 0.0
  }

  lemma ShareBounds(part: nat, whole: nat)
    requires whole > 0
    ensures part <= whole ==> (part as real) * 100.0 / (whole as real) <= 100.0
    ensures (part as real) * 100.0 / (whole as real) >= 0.0
    ensures (part as real) * 100.0 / (whole as real) == 100.0 <==> part == whole
  {
    var q := (part as real) * 100.0 / (whole as real);
    assert q * (whole as real) == (part as real) * 100.0;
    if part <= whole {
      assert (part as real) * 100.0 <= (whole as real) * 100.0;
    }
  }

  /** The summary's figures, zero where the summary has none (`summary_stats.get(key, 0)`). */
  function Figures(s: Summary): Summary
  {
    if s.Stats? then s else Stats(0, 0, 0, 0, 0, 0, 0)
  }

  /** The view-specific note about the top category. */
  function TopCategoryNote(top: (string, nat), outstanding: nat, view: string): seq<Insight>
  {
    if view == "severity" then [TopSeverity(top.0, top.1, Percentage(top.1, outstanding))]
    else if view == "assignment" && Contains(top.0, "Unassigned") then [AssignmentPriority(top.1)]
    else []
  }

  /** `generate_outstanding_issues_insights`. */
  function OutstandingInsights(counts: seq<(string, nat)>, summary: Summary, view: string): seq<Insight>
  {
    if |counts| == 0 then [AllClear]
    else
      var f := Figures(summary);
      [OutstandingSummary(f.outstanding, f.total, Percentage(f.outstanding, f.total))] +
      (if f.critical > 0 then [CriticalIssues(f.critical)] else []) +
      (if f.unassigned > 0 then [UnassignedCases(f.unassigned, Percentage(f.unassigned, f.outstanding))] else []) +
      (if f.stale > 0 then [StaleCases(f.stale, Percentage(f.stale, f.outstanding))] else []) +
      TopCategoryNote(counts[0], f.outstanding, view)
  }

  /** An insight's percentage, where it carries one, lies between 0 and 100. */
  predicate Scaled(x: Insight)
  {
    match x
    case OutstandingSummary(_, _, p) => 0.0 <= p <= 100.0
    case UnassignedCases(_, p) => 0.0 <= p <= 100.0
    case StaleCases(_, p) => 0.0 <= p <= 100.0
    case TopSeverity(_, _, p) => 0.0 <= p <= 100.0
    case _ => true
  }

  /** A count of a list of counts is at most their sum. */
  lemma {:induction false} CountBelowSum(counts: seq<(string, nat)>, i: nat)
    requires i < |counts|
    ensures counts[i].1 <= Sum(Map(counts, CountOf))
  {
    var m := Map(counts, CountOf);
    assert m == [counts[0].1] + Map(counts[1..], CountOf);
    SumNonNegative(Map(counts[1..], CountOf));
    if i > 0 {
      CountBelowSum(counts[1..], i - 1);
    }
  }

  /** The view's counts add up to the outstanding cases, whatever the known view. */
  lemma ViewTotal(out: seq<Classified>, view: string)
    requires OutstandingView(out, view).Some?
    ensures Sum(Map(OutstandingView(out, view).value, CountOf)) == |out|
  {
    KnownViewsAnswer(out, view);
    if view == "severity" {
      SeverityViewTotal(out);
    } else if view == "age" {
      AgeViewTotal(out);
    } else {
      SortedViewsTotal(out);
    }
  }

  /** The insights' percentages lie between 0 and 100 when no part exceeds its whole. */
  lemma InsightsScaled(counts: seq<(string, nat)>, summary: Summary, view: string)
    requires var f := Figures(summary);
      f.outstanding <= f.total && f.unassigned <= f.outstanding && f.stale <= f.outstanding &&
      (|counts| > 0 ==> counts[0].1 <= f.outstanding)
    ensures forall x :: x in OutstandingInsights(counts, summary, view) ==> Scaled(x)
  {
  }

  /**
   * With the prepared counts, every percentage the insights show lies
   * between 0 and 100: the unassigned, stale and top-category shares are
   * guarded against an empty denominator and never exceed the whole.
   */
  lemma OutstandingInsightsScaled(rows: seq<Case>, view: string, now: int)
    requires PrepareOutstanding(rows, view, now).Some?
    ensures var (counts, summary) := PrepareOutstanding(rows, view, now).value;
      forall x :: x in OutstandingInsights(counts, summary, view) ==> Scaled(x)
  {
    var (counts, summary) := PrepareOutstanding(rows, view, now).value;
    var out := OutstandingCases(rows, now);
    if |rows| > 0 && |out| > 0 {
      PrepareOutstandingStats(rows, view, now);
      SummaryBounds(|rows|, out);
      ViewTotal(out, view);
      if |counts| > 0 {
        CountBelowSum(counts, 0);
      }
    } else if |rows| > 0 {
      PrepareOutstandingEmpty(rows, view, now);
    }
    InsightsScaled(counts, summary, view);
  }

  /** Without outstanding cases the insights say all clear; otherwise they open with the outstanding summary. */
  lemma OutstandingInsightsShape(rows: seq<Case>, view: string, now: int)
    requires PrepareOutstanding(rows, view, now).Some?
    ensures var (counts, summary) := PrepareOutstanding(rows, view, now).value;
      var ins := OutstandingInsights(counts, summary, view);
      (|OutstandingCases(rows, now)| == 0 ==> ins == [AllClear]) &&
      (|OutstandingCases(rows, now)| > 0 ==> ins[0] == OutstandingSummary(|OutstandingCases(rows, now)|, |rows|, Percentage(|OutstandingCases(rows, now)|, |rows|)))
  {
    var out := OutstandingCases(rows, now);
    if |rows| > 0 && |out| > 0 {
      PrepareOutstandingStats(rows, view, now);
      ViewTotal(out, view);
    }
  }

  // ---------------------------------------------------------------------
  // View and modal toggles

  datatype ViewState = ViewState(view: string, severity: bool, age: bool, assignment: bool, violation: bool)

  /** `toggle_outstanding_issues_view`: each button selects its view; no trigger or another one gives severity. */
  function ToggleView(trigger: Option<string>): ViewState
  {
    if trigger == Some("outstanding-age-view-btn") then ViewState("age", false, true, false, false)
    else if trigger == Some("outstanding-assignment-view-btn") then ViewState("assignment", false, false, true, false)
    else if trigger == Some("outstanding-violation-view-btn") then ViewState("violation", false, false, false, true)
    else ViewState("severity", true, false, false, false)
  }

  /** Exactly one button is active, the one of the chosen view, and the chosen view is one the data step knows. */
  lemma ToggleViewSpec(trigger: Option<string>)
    ensures var s := ToggleView(trigger);
      (if s.severity then 1 else 0) + (if s.age then 1 else 0) + (if s.assignment then 1 else 0) + (if s.violation then 1 else 0) == 1 &&
      (s.severity <==> s.view == "severity") && (s.age <==> s.view == "age") &&
      (s.assignment <==> s.view == "assignment") && (s.violation <==> s.view == "violation") &&
      KnownView(s.view)
    ensures ToggleView(None).view == "severity"
  {
  }

  datatype ModalUpdate = NoUpdate | OpenModal | CloseModal

  /** `toggle_outstanding_issues_details_modal`: a click opens a closed modal and closes an open one; no click changes nothing. */
  function DetailsModal(clicks: nat, isOpen: bool): (r: ModalUpdate)
    ensures clicks > 0 ==> (r == OpenModal <==> !isOpen) && (r == CloseModal <==> isOpen)
    ensures clicks == 0 ==> r == NoUpdate
  {
    if clicks > 0 then (if !isOpen then OpenModal else CloseModal) else NoUpdate
  }

  /** `close_outstanding_details_modal`: the close button closes an open modal only. */
  function CloseDetails(clicks: nat, isOpen: bool): (r: Option<bool>)
    ensures r.Some? <==> clicks > 0 && isOpen
    ensures r.Some? ==> !r.value
  {
    if clicks > 0 && isOpen then Some(false) else None
  }

  /** `toggle_outstanding_issues_chart_modal`: only a click on the chart wrapper opens a closed modal. */
  function ChartModal(trigger: Option<string>, clicks: nat, isOpen: bool): (r: Option<bool>)
    ensures r.Some? <==> trigger == Some("compliance-outstanding-issues-chart-wrapper") && clicks > 0 && !isOpen
    ensures r.Some? ==> r.value
  {
    if trigger == Some("compliance-outstanding-issues-chart-wrapper") && clicks > 0 && !isOpen then Some(true) else None
  }

  // ---------------------------------------------------------------------
  // The main callback

  datatype OutstandingPanel = NoComplianceData | OutstandingError | OutstandingShown(chart: OutstandingChart, insights: seq<Insight>)

  /**
   * `update_outstanding_issues_chart`: no data for an empty fetched frame;
   * the error panel when the filter or the data step raises; otherwise the
   * chart and the insights of the view.
   */
  function UpdateOutstandingIssues(base: seq<Case>, st: Store, view: string, now: int): OutstandingPanel
  {
    if |base| == 0 then NoComplianceData
    else
      match ApplyComplianceFilters(base, st)
      case None => OutstandingError
      case Some(filtered) =>
        match PrepareOutstanding(filtered, view, now)
        case None => OutstandingError
        case Some((counts, summary)) => OutstandingShown(OutstandingChartOf(counts, summary, view), OutstandingInsights(counts, summary, view))
  }

  /**
   * Once filtered, the panel is an error exactly when some case is
   * outstanding and the view is unknown; with nothing outstanding it is
   * all clear; otherwise the bars add up to the outstanding cases, as the
   * title's total does.
   */
  lemma UpdateOutstandingIssuesSpec(base: seq<Case>, st: Store, view: string, now: int)
    requires |base| > 0 && ApplyComplianceFilters(base, st).Some?
    ensures var filtered := ApplyComplianceFilters(base, st).value;
      var out := OutstandingCases(filtered, now);
      var panel := UpdateOutstandingIssues(base, st, view, now);
      (panel == OutstandingError <==> |filtered| > 0 && |out| > 0 && !KnownView(view)) &&
      (|out| == 0 ==> panel == OutstandingShown(AllClearChart, [AllClear])) &&
      (|out| > 0 && KnownView(view) ==>
        panel.OutstandingShown? && panel.chart.BarChart? && Sum(Map(panel.chart.bars, CountOf)) == |out| == panel.chart.total)
  {
    var filtered := ApplyComplianceFilters(base, st).value;
    var out := OutstandingCases(filtered, now);
    PrepareOutstandingFails(filtered, view, now);
    if |filtered| > 0 && |out| > 0 && KnownView(view) {
      PrepareOutstandingStats(filtered, view, now);
      KnownViewsAnswer(out, view);
      ViewTotal(out, view);
      SumReverse(PrepareOutstanding(filtered, view, now).value.0);
    } else if |out| == 0 {
      PrepareOutstandingEmpty(filtered, view, now);
    }
  }

  /** Reversing the bars keeps their total. */
  lemma {:induction false} SumReverse(counts: seq<(string, nat)>)
    ensures Sum(Map(Reverse(counts), CountOf)) == Sum(Map(counts, CountOf))
  {
    if |counts| > 0 {
      SumReverse(counts[1..]);
      assert Reverse(counts) == Reverse(counts[1..]) + [counts[0]];
      MapAppend(Reverse(counts[1..]), [counts[0]], CountOf);
      SumAppend(Map(Reverse(counts[1..]), CountOf), Map([counts[0]], CountOf));
      assert Map(counts, CountOf) == [CountOf(counts[0])] + Map(counts[1..], CountOf);
    }
  }
}
