/**
 * The assignee-workload panel: its own store reader (quotes stripped, no
 * placeholder mapping), its dataset filter, the assignee display name, the
 * three status buckets, the escalation test, the per-assignee tallies, the
 * top-N cut, the label width, the category quick-select and the modal toggle.
 */
module WorkflowAssigneeWorkload {
  import opened Common
  import opened WorkflowData
  import opened WorkflowFilters
  import opened WorkflowSummaryCards

  // ---------------------------------------------------------------------
  // Reading the store

  /** One token with its quotes stripped; unlike the summary cards, "'-'" reads as "-". */
  function Unquote(item: string): string
  {
    StripChars(item, QuoteChars)
  }

  /** One store entry: split on ", ", tokens empty once unquoted dropped, the rest unquoted. */
  function UnquotedList(text: string): (r: seq<string>)
    ensures forall x :: x in r ==> x != ""
  {
    var kept := Filter(Split(text, ListSep), KeepsToken);
    UnquotedKept(kept);
    Map(kept, Unquote)
  }

  lemma UnquotedKept(kept: seq<string>)
    requires forall i :: 0 <= i < |kept| ==> KeepsToken(kept[i])
    ensures forall x :: x in Map(kept, Unquote) ==> x != ""
  {
    var r := Map(kept, Unquote);
    assert forall i :: 0 <= i < |r| ==> r[i] == Unquote(kept[i]);
  }

  /** The list this panel reads for one dropdown; a missing key reads as "". */
  function WorkloadSelectionFor(st: Store, d: Dimension): Selection
  {
    Some(UnquotedList(TextOr(st, StoreKey(d))))
  }

  function WorkloadReaderOf(st: Store): Dimension -> Selection
  {
    d => WorkloadSelectionFor(st, d)
  }

  function WorkloadSelections(st: Store): Selections
  {
    SelectionsFrom(WorkloadReaderOf(st))
  }

  lemma UnquoteQuoted(x: string)
    requires Storable(x)
    ensures KeepsToken(Quote(x)) && Unquote(Quote(x)) == x
  {
    var q := Quote(x);
    assert q == ['\''] + x + ['\''];
    StripWrapped(x, '\'', QuoteChars);
  }

  /**
   * The store round trip for this reader: a non-empty list of storable items,
   * quoted and joined, reads back as exactly those items, "-" included.
   */
  lemma UnquotedRoundTrip(xs: seq<string>)
    requires |xs| > 0 && forall x :: x in xs ==> Storable(x)
    ensures UnquotedList(Join(Map(xs, Quote), ListSep)) == xs
  {
    var quoted := Map(xs, Quote);
    var text := Join(quoted, ListSep);
    QuotedItemsSplit(xs);
    QuotedItemsKept(xs);
    UnquoteAll(xs, quoted);
    ReadKept(text, quoted);
  }

  lemma UnquoteAll(xs: seq<string>, quoted: seq<string>)
    requires quoted == Map(xs, Quote) && forall x :: x in xs ==> Storable(x)
    ensures Map(quoted, Unquote) == xs
  {
    var read := Map(quoted, Unquote);
    forall i | 0 <= i < |xs| ensures read[i] == xs[i] {
      UnquoteQuoted(xs[i]);
    }
  }

  lemma ReadKept(text: string, pieces: seq<string>)
    requires Split(text, ListSep) == pieces && Filter(pieces, KeepsToken) == pieces
    ensures UnquotedList(text) == Map(pieces, Unquote)
  {
  }

  /** The stored placeholder: this reader keeps "-" where the summary cards read "". */
  lemma PlaceholderKept()
    ensures UnquotedList("'-'") == ["-"]
    ensures ParseList("'-'") == [""]
  {
    assert Quote("-") == "'-'";
    assert Storable("-") by {
      assert !OccursAt("-", ListSep, 0);
    }
    UnquotedRoundTrip(["-"]);
    assert Join(Map(["-"], Quote), ListSep) == "'-'";
    ParseQuotedList(Some(["-"]));
    assert QuotedList(Some(["-"])) == "'-'";
  }

  // ---------------------------------------------------------------------
  // The dataset filter

  /**
   * The memberships `apply_assignee_workload_filters` applies, in its order.
   * Each is guarded by the presence of its column; the panel's query selects
   * no CaseReason column, so the Reasons test is always skipped and only
   * nine memberships remain.
   */
  const WorkloadFilterOrder: seq<Dimension> :=
    [AorDim, CaseTypeDim, StatusDim, PriorityDim, OriginDim, ProductDim, FeatureDim, ModuleDim, IssueDim]

  /** Rows without CreatedOn are dropped; the range applies only when both store dates exist. */
  function WorkloadDateTest(st: Store): WorkItem -> bool
  {
    var from, to := DateOf(st, "Day_From"), DateOf(st, "Day_To");
    if from.Some? && to.Some? then
      (w: WorkItem) => CreatedWithin(w, DayStart(from.value), DayStart(to.value))
    else
      (w: WorkItem) => w.createdOn.Some?
  }

  /**
   * `apply_assignee_workload_filters`: an empty table is returned as is; a
   * missing store fails on its first lookup (`None`), otherwise the date
   * test and then the nine memberships of WorkloadFilterOrder.
   */
  function WorkloadFilter(items: seq<WorkItem>, stored: Option<Store>): Option<seq<WorkItem>>
  {
    WorkloadFilterBy(items, stored, WorkloadFilterOrder)
  }

  /** The same filter over a given list of memberships. */
  function WorkloadFilterBy(items: seq<WorkItem>, stored: Option<Store>, dims: seq<Dimension>): Option<seq<WorkItem>>
  {
    if |items| == 0 then Some(items)
    else if stored.None? then None
    else
      var st := stored.value;
      Some(NarrowAll(Filter(items, WorkloadDateTest(st)), ItemCell, WorkloadSelections(st), dims))
  }

  /** The filter keeps, in order, exactly the dated items inside the range that every active selection admits. */
  lemma WorkloadFilterSpec(items: seq<WorkItem>, st: Store)
    requires |items| > 0
    ensures WorkloadFilter(items, Some(st)) ==
      Some(Filter(items, (w: WorkItem) => WorkloadDateTest(st)(w) && MatchesAll(w, ItemCell, WorkloadSelections(st), WorkloadFilterOrder)))
    ensures WorkloadFilter(items, None) == None
  {
    NarrowAfterFilter(items, WorkloadDateTest(st),
      (w: WorkItem) => WorkloadDateTest(st)(w) && MatchesAll(w, ItemCell, WorkloadSelections(st), WorkloadFilterOrder),
      ItemCell, WorkloadSelections(st), WorkloadFilterOrder);
  }

  /**
   * Whatever the Reasons entry of the store holds, the filter gives the same
   * rows: the CaseReason column is never fetched, so its guard never fires.
   */
  lemma ReasonsIgnored(items: seq<WorkItem>, st: Store, reasons: string)
    ensures WorkloadFilter(items, Some(st)) ==
      WorkloadFilter(items, Some(Store(st.dates, st.text[StoreKey(ReasonDim) := reasons])))
  {
    var st2 := Store(st.dates, st.text[StoreKey(ReasonDim) := reasons]);
    forall d | d != ReasonDim ensures WorkloadSelectionFor(st, d) == WorkloadSelectionFor(st2, d) {
      OtherKeyUnchanged(st, reasons, d);
    }
    SelectionsAgreeExceptReasons(st, st2);
    ReasonsIgnoredBy(items, st, st2, WorkloadFilterOrder);
  }

  lemma ReasonsIgnoredBy(items: seq<WorkItem>, st: Store, st2: Store, dims: seq<Dimension>)
    requires ReasonDim !in dims
    requires st2.dates == st.dates
    requires forall d :: d != ReasonDim ==> SelectionFor(WorkloadSelections(st), d) == SelectionFor(WorkloadSelections(st2), d)
    ensures WorkloadFilterBy(items, Some(st), dims) == WorkloadFilterBy(items, Some(st2), dims)
  {
    if |items| > 0 {
      var test := WorkloadDateTest(st);
      assert test == WorkloadDateTest(st2) by {
        DateTestOfDates(st, st2);
      }
      var s1, s2 := WorkloadSelections(st), WorkloadSelections(st2);
      NarrowAllAgreeExcept(Filter(items, test), ItemCell, s1, s2, dims, ReasonDim);
      assert WorkloadFilterBy(items, Some(st), dims) == Some(NarrowAll(Filter(items, test), ItemCell, s1, dims));
      assert WorkloadFilterBy(items, Some(st2), dims) == Some(NarrowAll(Filter(items, test), ItemCell, s2, dims));
    }
  }

  lemma SelectionsAgreeExceptReasons(st: Store, st2: Store)
    requires forall d :: d != ReasonDim ==> WorkloadSelectionFor(st, d) == WorkloadSelectionFor(st2, d)
    ensures forall d :: d != ReasonDim ==> SelectionFor(WorkloadSelections(st), d) == SelectionFor(WorkloadSelections(st2), d)
  {
  }

  lemma DateTestOfDates(st: Store, st2: Store)
    requires st.dates == st2.dates
    ensures WorkloadDateTest(st) == WorkloadDateTest(st2)
  {
    assert DateOf(st, "Day_From") == DateOf(st2, "Day_From");
    assert DateOf(st, "Day_To") == DateOf(st2, "Day_To");
  }

  lemma OtherKeyUnchanged(st: Store, reasons: string, d: Dimension)
    requires d != ReasonDim
    ensures WorkloadSelectionFor(st, d) ==
      WorkloadSelectionFor(Store(st.dates, st.text[StoreKey(ReasonDim) := reasons]), d)
  {
    StoreKeyInverse(d);
    StoreKeyInverse(ReasonDim);
  }

  /**
   * Choosing "Unspecified" (stored as "'-'") for a filtered dropdown drops
   * every row whose cell is blank, since the reader keeps "-" and compares
   * it as is.
   */
  lemma UnspecifiedDropsBlank(items: seq<WorkItem>, st: Store, d: Dimension, w: WorkItem)
    requires d in WorkloadFilterOrder
    requires |items| > 0 && StoreKey(d) in st.text && st.text[StoreKey(d)] == "'-'"
    requires ItemCell(w, d) == Some("")
    ensures w !in WorkloadFilter(items, Some(st)).value
  {
    var s := WorkloadSelections(st);
    assert !MatchesAll(w, ItemCell, s, WorkloadFilterOrder) by {
      PlaceholderSelection(st, d);
      BlankNotAdmitted(SelectionFor(s, d), ItemCell(w, d));
      MissesDimension(w, s, d);
    }
    var keep := (w: WorkItem) => WorkloadDateTest(st)(w) && MatchesAll(w, ItemCell, s, WorkloadFilterOrder);
    WorkloadFilterSpec(items, st);
    DroppedBy(items, WorkloadFilter(items, Some(st)).value, keep, w);
  }

  lemma BlankNotAdmitted(sel: Selection, cell: Option<string>)
    requires sel == Some(["-"]) && cell == Some("")
    ensures !Admits(sel, cell)
  {
  }

  lemma PlaceholderSelection(st: Store, d: Dimension)
    requires StoreKey(d) in st.text && st.text[StoreKey(d)] == "'-'"
    ensures SelectionFor(WorkloadSelections(st), d) == Some(["-"])
  {
    PlaceholderKept();
    assert WorkloadReaderOf(st)(d) == Some(["-"]);
  }

  lemma MissesDimension(w: WorkItem, s: Selections, d: Dimension)
    requires !Admits(SelectionFor(s, d), ItemCell(w, d))
    requires d in WorkloadFilterOrder
    ensures !MatchesAll(w, ItemCell, s, WorkloadFilterOrder)
  {
    var i :| 0 <= i < |WorkloadFilterOrder| && WorkloadFilterOrder[i] == d;
  }

  // ---------------------------------------------------------------------
  // Assignee names

  const UnassignedLabel: string := "Unassigned"

  /** `str(a).split('@')[0]` with '.', '_', '\r' and '\n' each replaced by a space. */
  function CleanAssignee(a: string): string
  {
    var local := Split(a, "@")[0];
    Replace(Replace(Replace(Replace(local, ".", " "), "_", " "), "\r", " "), "\n", " ")
  }

  /** `format_assignee_name`: null, empty or "unassigned" in any case is "Unassigned"; otherwise the titleized local part. */
  function FormatAssigneeName(a: Option<string>, titleize: string -> string): string
  {
    if a.None? || a.value == "" || Lower(a.value) == "unassigned" then UnassignedLabel
    else titleize(CleanAssignee(a.value))
  }

  /** The part before the first separator holds no separator. */
  lemma SplitHeadFree(s: string, c: char)
    ensures c !in Split(s, [c])[0]
  {
    match FindFrom(s, [c], 0)
    case None =>
      forall j | 0 <= j < |s| ensures s[j] != c {
        assert !OccursAt(s, [c], j);
      }
    case Some(i) =>
      forall j | 0 <= j < i ensures s[j] != c {
        assert !OccursAt(s, [c], j);
      }
  }

  /**
   * The text handed to titleize carries no domain and none of the replaced
   * separators: no '@', '.', '_', '\r' or '\n'.
   */
  lemma CleanAssigneeFree(a: string)
    ensures var c := CleanAssignee(a);
      '@' !in c && '.' !in c && '_' !in c && '\r' !in c && '\n' !in c
  {
    var local := Split(a, "@")[0];
    SplitHeadFree(a, '@');
    var s1 := Replace(local, ".", " ");
    var s2 := Replace(s1, "_", " ");
    var s3 := Replace(s2, "\r", " ");
    var s4 := Replace(s3, "\n", " ");
    ReplaceRemovesChar(local, '.', " ");
    ReplaceCharKeeps(local, '.', " ", '@');
    ReplaceRemovesChar(s1, '_', " ");
    ReplaceCharKeeps(s1, '_', " ", '@');
    ReplaceCharKeeps(s1, '_', " ", '.');
    ReplaceRemovesChar(s2, '\r', " ");
    ReplaceCharKeeps(s2, '\r', " ", '@');
    ReplaceCharKeeps(s2, '\r', " ", '.');
    ReplaceCharKeeps(s2, '\r', " ", '_');
    ReplaceRemovesChar(s3, '\n', " ");
    ReplaceCharKeeps(s3, '\n', " ", '@');
    ReplaceCharKeeps(s3, '\n', " ", '.');
    ReplaceCharKeeps(s3, '\n', " ", '_');
    ReplaceCharKeeps(s3, '\n', " ", '\r');
  }

  /**
   * The display name: "Unassigned" for the blank cases, otherwise the
   * titleized form of a text free of the domain and separators; two
   * addresses with the same local part share a display name and so a bar.
   */
  lemma AssigneeNameSpec(a: Option<string>, b: string, titleize: string -> string)
    ensures a.None? || (a.Some? && a.value == "") || (a.Some? && Lower(a.value) == "unassigned") ==>
      FormatAssigneeName(a, titleize) == UnassignedLabel
    ensures a.Some? && a.value != "" && Lower(a.value) != "unassigned" ==>
      exists c :: FormatAssigneeName(a, titleize) == titleize(c) && '@' !in c && '.' !in c && '_' !in c
    ensures (a.Some? && a.value != "" && Lower(a.value) != "unassigned" && b != "" && Lower(b) != "unassigned" &&
             Split(a.value, "@")[0] == Split(b, "@")[0]) ==>
      FormatAssigneeName(a, titleize) == FormatAssigneeName(Some(b), titleize)
  {
    if a.Some? {
      CleanAssigneeFree(a.value);
    }
  }

  // ---------------------------------------------------------------------
  // Status buckets and escalation

  datatype Bucket = Closed | Active | NonActionable

  const ClosedStatuses: set<string> :=
    {"Closed", "First Call Closed", "Self-Fix", "Resolved", "Escalation Resolved", "Done", "Canceled", "Escalation Canceled"}
  const ActiveStatuses: set<string> :=
    {"Not Started", "In Progress", "Open", "Scheduled", "Escalated", "Pending", "Pending Verification", "Existing Escalation"}
  const NonActionableStatuses: set<string> := {"On Hold", "Insufficient Details"}

  /** `categorize_status`: null is Non-Actionable; the stripped status is looked up; unknown statuses are Active. */
  function CategorizeStatus(status: Option<string>): Bucket
  {
    if status.None? then NonActionable
    else
      var s := Strip(status.value);
      if s in ClosedStatuses then Closed
      else if s in ActiveStatuses then Active
      else if s in NonActionableStatuses then NonActionable
      else Active
  }

  /** The three status sets are pairwise disjoint. */
  lemma StatusSetsDisjoint()
    ensures ClosedStatuses * ActiveStatuses == {}
    ensures ClosedStatuses * NonActionableStatuses == {}
    ensures ActiveStatuses * NonActionableStatuses == {}
  {
    assert forall s :: s in ClosedStatuses ==> s !in ActiveStatuses && s !in NonActionableStatuses;
    assert forall s :: s in ActiveStatuses ==> s !in NonActionableStatuses;
  }

  /**
   * Every status lands in exactly one bucket: Closed iff its stripped form is
   * a closed status, Non-Actionable iff it is null or a blocked status,
   * Active for everything else.
   */
  lemma CategorizeStatusSpec(status: Option<string>)
    ensures CategorizeStatus(status) == Closed <==> status.Some? && Strip(status.value) in ClosedStatuses
    ensures CategorizeStatus(status) == NonActionable <==> status.None? || Strip(status.value) in NonActionableStatuses
    ensures CategorizeStatus(status) == Active <==>
      status.Some? && Strip(status.value) !in ClosedStatuses && Strip(status.value) !in NonActionableStatuses
  {
    StatusSetsDisjoint();
  }

  const EscalationFlags: set<string> := {"1", "True", "true"}
  const EscalationStatuses: set<string> := {"Escalated", "Existing Escalation", "Escalation Resolved", "Escalation Canceled"}

  /** `str(cell).strip()`; a null cell prints as "nan". */
  function CellText(v: Option<string>): string
  {
    if v.None? then "nan" else Strip(v.value)
  }

  /** `is_escalated_ticket`: the flag reads 1/True/true, or the status is one of the four escalation statuses. */
  predicate IsEscalatedTicket(w: WorkItem)
  {
    CellText(w.isEscalated) in EscalationFlags || CellText(w.status) in EscalationStatuses
  }

  /** A ticket escalated by its status is Closed or Active, never Non-Actionable. */
  lemma EscalatedByStatusBucket(w: WorkItem)
    requires CellText(w.status) in EscalationStatuses
    ensures CategorizeStatus(w.status) != NonActionable
    ensures CategorizeStatus(w.status) == Closed <==> CellText(w.status) in {"Escalation Resolved", "Escalation Canceled"}
  {
    assert Strip("nan") == "nan" by {
      StripCharsNoop("nan", Whitespace);
    }
    assert w.status.Some?;
    CategorizeStatusSpec(w.status);
  }

  /** A null flag and a null status never make a ticket escalated. */
  lemma NullCellsNotEscalated(w: WorkItem)
    requires w.isEscalated.None? && w.status.None?
    ensures !IsEscalatedTicket(w)
  {
  }

  // ---------------------------------------------------------------------
  // Per-assignee tallies

  /** One ticket as the grouping sees it. */
  datatype Prepared = Prepared(assignee: string, bucket: Bucket, escalated: bool)

  function PrepareItem(titleize: string -> string): WorkItem -> Prepared
  {
    (w: WorkItem) => Prepared(FormatAssigneeName(w.assignedTo, titleize), CategorizeStatus(w.status), IsEscalatedTicket(w))
  }

  function AssigneeOf(p: Prepared): string { p.assignee }

  function InBucket(b: Bucket): Prepared -> bool
  {
    (p: Prepared) => p.bucket == b
  }

  /** One row of the grouped table. */
  datatype Tally = Tally(assignee: string, total: nat, escalated: nat, closed: nat, active: nat, nonActionable: nat)

  /** The number of tickets in each bucket. */
  function BucketCount(rows: seq<Prepared>, b: Bucket): nat
  {
    |Filter(rows, InBucket(b))|
  }

  /** The row of one assignee: their ticket count, escalated count and the three bucket counts. */
  function TallyOf(rows: seq<Prepared>, name: string): Tally
  {
    var mine := Where(rows, AssigneeOf, name);
    Tally(name, |mine|, |Filter(mine, (p: Prepared) => p.escalated)|,
          BucketCount(mine, Closed), BucketCount(mine, Active), BucketCount(mine, NonActionable))
  }

  /** Closed + Active + Non-Actionable counts every ticket exactly once. */
  lemma {:induction false} BucketsPartition(rows: seq<Prepared>)
    ensures BucketCount(rows, Closed) + BucketCount(rows, Active) + BucketCount(rows, NonActionable) == |rows|
  {
    if |rows| > 0 {
      BucketsPartition(rows[1..]);
      assert rows == [rows[0]] + rows[1..];
    }
  }

  /** Every assignee's three bucket counts add up to their ticket count; escalated tickets are among them. */
  lemma TallyBucketsSum(rows: seq<Prepared>, name: string)
    ensures var t := TallyOf(rows, name);
      t.closed + t.active + t.nonActionable == t.total && t.escalated <= t.total
  {
    BucketsPartition(Where(rows, AssigneeOf, name));
  }

  /** The grouped table: one row per distinct display name, in ascending name order. */
  function Tallies(rows: seq<Prepared>): (r: seq<Tally>)
    ensures |r| == |SortedUnique(Map(rows, AssigneeOf))|
    ensures forall i :: 0 <= i < |r| ==> r[i] == TallyOf(rows, SortedUnique(Map(rows, AssigneeOf))[i])
  {
    Map(SortedUnique(Map(rows, AssigneeOf)), (name: string) => TallyOf(rows, name))
  }

  function TotalOf(t: Tally): int { t.total }

  /** Descending by ticket count. */
  function ByLoad(t: Tally): int { -(t.total as int) }

  /** The assignee-count dropdown: a number of rows or "all". */
  datatype TopCount = All | Top(n: nat)

  /** Sorted by total tickets, most first, then cut to the chosen count. */
  function Ranked(rows: seq<Prepared>, top: TopCount): seq<Tally>
  {
    var sorted := SortBy(Tallies(rows), ByLoad);
    if top.Top? then Head(sorted, top.n) else sorted
  }

  /**
   * The top-N cut: at most N rows ("all" keeps every assignee), in
   * non-increasing order of load, and every assignee shown carries at least
   * as many tickets as every assignee left out.
   */
  lemma RankedSpec(rows: seq<Prepared>, top: TopCount)
    ensures var n := |SortedUnique(Map(rows, AssigneeOf))|;
      |Ranked(rows, top)| == (if top.Top? && top.n < n then top.n else n)
    ensures forall i, j :: 0 <= i < j < |Ranked(rows, top)| ==> Ranked(rows, top)[i].total >= Ranked(rows, top)[j].total
    ensures forall t, u :: t in Ranked(rows, top) && u in Tallies(rows) && u !in Ranked(rows, top) ==> t.total >= u.total
    ensures forall t :: t in Ranked(rows, top) ==> t in Tallies(rows)
  {
    var all := Tallies(rows);
    var sorted := SortBy(all, ByLoad);
    var shown := Ranked(rows, top);
    assert shown <= sorted;
    forall i, j | 0 <= i < j < |shown| ensures shown[i].total >= shown[j].total {
      assert ByLoad(sorted[i]) <= ByLoad(sorted[j]);
    }
    forall t | t in shown ensures t in all {
      assert t in multiset(sorted);
    }
    forall t, u | t in shown && u in all && u !in shown ensures t.total >= u.total {
      assert u in multiset(sorted);
      var i :| 0 <= i < |shown| && shown[i] == t;
      var j :| 0 <= j < |sorted| && sorted[j] == u;
      assert ByLoad(sorted[i]) <= ByLoad(sorted[j]);
    }
  }

  /** The summary: totals per bucket, the number of assignees and the unassigned count. */
  datatype WorkloadSummary = WorkloadSummary(
    totalAssignees: nat, displayed: nat, totalTickets: nat,
    closed: nat, active: nat, nonActionable: nat, unassigned: nat)

  function Summarize(rows: seq<Prepared>, top: TopCount): WorkloadSummary
  {
    WorkloadSummary(|SortedUnique(Map(rows, AssigneeOf))|, |Ranked(rows, top)|, |rows|,
      BucketCount(rows, Closed), BucketCount(rows, Active), BucketCount(rows, NonActionable),
      |Where(rows, AssigneeOf, UnassignedLabel)|)
  }

  /**
   * The summary adds up: the three bucket totals make the ticket total, the
   * unassigned tickets are among them, and no more assignees are displayed
   * than exist.
   */
  lemma SummaryAddsUp(rows: seq<Prepared>, top: TopCount)
    ensures var s := Summarize(rows, top);
      s.closed + s.active + s.nonActionable == s.totalTickets &&
      s.unassigned <= s.totalTickets && s.displayed <= s.totalAssignees
  {
    BucketsPartition(rows);
    RankedSpec(rows, top);
  }

  /** The dropdown's value: missing means the top 10. */
  function TopCountOf(v: Option<TopCount>): TopCount
  {
    if v.None? then Top(10) else v.value
  }

  // ---------------------------------------------------------------------
  // Labels, categories, insights and the modal

  /** Label width: 10 characters beyond 25 assignees, 12 beyond 15, 15 otherwise. */
  function LabelWidth(count: nat): (w: nat)
  {
    if count > 25 then 10 else if count > 15 then 12 else 15
  }

  /** A name longer than the width is cut to the width plus "..."; shorter ones are kept. */
  function ShortLabel(name: string, width: nat): string
  {
    if |name| > width then name[..width] + "..." else name
  }

  /** More assignees never widen the labels, and a label never exceeds its width plus the ellipsis. */
  lemma LabelWidthSpec(m: nat, n: nat, name: string)
    ensures m <= n ==> LabelWidth(n) <= LabelWidth(m)
    ensures LabelWidth(n) in {10, 12, 15}
    ensures |ShortLabel(name, LabelWidth(n))| <= LabelWidth(n) + 3
    ensures |name| <= LabelWidth(n) ==> ShortLabel(name, LabelWidth(n)) == name
    ensures |name| > LabelWidth(n) ==>
      |ShortLabel(name, LabelWidth(n))| == LabelWidth(n) + 3 && StartsWith(name, ShortLabel(name, LabelWidth(n))[..LabelWidth(n)])
  {
  }

  const AllCategories: seq<string> := ["Closed", "Active", "Non-Actionable", "Total"]

  /** `handle_category_quick_select`: all, closed-only, or the two open buckets; any other trigger shows all. */
  function QuickSelect(trigger: string): seq<string>
  {
    if trigger == "btn-cat-all" then AllCategories
    else if trigger == "btn-cat-closed" then ["Closed"]
    else if trigger == "btn-cat-open" then ["Active", "Non-Actionable"]
    else AllCategories
  }

  /** A missing or empty category choice shows all four. */
  function ShownCategories(selected: Option<seq<string>>): seq<string>
  {
    if selected.None? || |selected.value| == 0 then AllCategories else selected.value
  }

  /** The second insight line: open items, active focus, or the top performer. */
  datatype FocusInsight = OpenItems(open: nat) | ActiveFocus(active: nat) | TopPerformer

  function FocusFor(selected: seq<string>, s: WorkloadSummary): FocusInsight
  {
    if "Active" in selected && "Non-Actionable" in selected && "Closed" !in selected then OpenItems(s.active + s.nonActionable)
    else if "Active" in selected && |selected| == 2 && "Total" in selected then ActiveFocus(s.active)
    else TopPerformer
  }

  /**
   * The quick-select buttons and the insights agree: "open" shows exactly the
   * two open buckets and reports their combined count as open items; "closed"
   * and "all" fall back to the top performer; the two button subsets are
   * disjoint and both lie within the full set.
   */
  lemma QuickSelectSpec(s: WorkloadSummary, other: string)
    requires other !in {"btn-cat-all", "btn-cat-closed", "btn-cat-open"}
    ensures FocusFor(QuickSelect("btn-cat-open"), s) == OpenItems(s.active + s.nonActionable)
    ensures FocusFor(QuickSelect("btn-cat-closed"), s) == TopPerformer
    ensures FocusFor(QuickSelect("btn-cat-all"), s) == TopPerformer
    ensures QuickSelect(other) == QuickSelect("btn-cat-all") == ShownCategories(None)
    ensures forall c :: c in QuickSelect("btn-cat-open") ==> c !in QuickSelect("btn-cat-closed") && c in AllCategories
  {
  }

  /** The balance note: more than 5 times (3 times) the lightest load, counted as at least 1, is significant (moderate). */
  function BalanceNote(maxLoad: nat, minLoad: nat): string
  {
    var floor := if minLoad > 1 then minLoad else 1;
    if maxLoad > 5 * floor then "significant imbalance detected"
    else if maxLoad > 3 * floor then "moderate imbalance detected"
    else "relatively balanced distribution"
  }

  /** Equal loads are balanced, and a heavier top load never reads as better balanced. */
  lemma BalanceNoteMonotone(a: nat, b: nat, minLoad: nat)
    requires a <= b
    ensures BalanceNote(a, minLoad) == "significant imbalance detected" ==> BalanceNote(b, minLoad) == "significant imbalance detected"
    ensures BalanceNote(a, minLoad) != "relatively balanced distribution" ==> BalanceNote(b, minLoad) != "relatively balanced distribution"
    ensures minLoad >= 1 ==> BalanceNote(minLoad, minLoad) == "relatively balanced distribution"
  {
  }

  /** `toggle_assignee_workload_modal`: the chart wrapper opens a closed modal, the close button closes it, anything else keeps it. */
  function ModalOpen(trigger: Option<string>, wrapperClicks: nat, isOpen: bool): bool
  {
    if trigger == Some("workflow-assignee-workload-chart-wrapper") && wrapperClicks > 0 && !isOpen then true
    else if trigger == Some("workflow-assignee-workload-modal-close") then false
    else isOpen
  }

  /** The close button always closes; the wrapper never closes an open modal; other triggers change nothing. */
  lemma ModalOpenSpec(trigger: Option<string>, clicks: nat, isOpen: bool)
    ensures trigger == Some("workflow-assignee-workload-modal-close") ==> !ModalOpen(trigger, clicks, isOpen)
    ensures trigger == Some("workflow-assignee-workload-chart-wrapper") ==> ModalOpen(trigger, clicks, isOpen) == (isOpen || clicks > 0)
    ensures trigger !in {Some("workflow-assignee-workload-chart-wrapper"), Some("workflow-assignee-workload-modal-close")} ==>
      ModalOpen(trigger, clicks, isOpen) == isOpen
  {
  }
}
