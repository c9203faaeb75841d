/**
 * The resolution-times panel: its own dataset filter (items must have both
 * timestamps; only four memberships apply; the duration summary follows the
 * surviving items), the left merge with the duration summary, the
 * analysable population, the resolution-time buckets, the category labels
 * of its charts and the small state machine behind its view buttons.
 */
module WorkflowResolutionTimes {
  import opened Common
  import opened WorkflowData
  import opened WorkflowFilters
  import opened WorkflowSummaryCards

  // ---------------------------------------------------------------------
  // The dataset filter

  /** The four memberships this panel applies, in its order; origins are read but never applied. */
  const ResolutionDims: seq<Dimension> := [AorDim, CaseTypeDim, ProductDim, PriorityDim]

  predicate HasBothDates(w: WorkItem)
  {
    w.createdOn.Some? && w.closedOn.Some?
  }

  /** Both timestamps present and, once a range is known, CreatedOn inside it (bounds are midnights). */
  predicate InRange(w: WorkItem, range: Option<(int, int)>)
  {
    HasBothDates(w) && (range.None? || CreatedWithin(w, DayStart(range.value.0), DayStart(range.value.1)))
  }

  /** The duration rows of the given items; all rows unless both sides have rows. */
  function FollowItems(durations: seq<DurationRow>, kept: seq<WorkItem>): (r: seq<DurationRow>)
    ensures |r| <= |durations|
    ensures forall d :: d in r ==> d in durations
    ensures |durations| == 0 || |kept| == 0 ==> r == durations
  {
    if |durations| > 0 && |kept| > 0 then
      var ids := Map(kept, (w: WorkItem) => w.id);
      Filter(durations, (d: DurationRow) => d.workItemId in ids)
    else durations
  }

  /** `apply_resolution_times_filters` once the range and the selections are read. */
  function ResolutionFilter(items: seq<WorkItem>, durations: seq<DurationRow>, range: Option<(int, int)>, sel: Selections)
    : (r: (seq<WorkItem>, seq<DurationRow>))
    ensures |items| == 0 ==> r == (items, durations)
    ensures |r.0| <= |items|
    ensures forall w :: w in r.0 ==> w in items && InRange(w, range)
    ensures forall d :: d in r.1 ==> d in durations
  {
    if |items| == 0 then (items, durations)
    else
      var kept := NarrowAll(Filter(items, (w: WorkItem) => InRange(w, range)), ItemCell, sel, ResolutionDims);
      NarrowAllIsConjunction(Filter(items, (w: WorkItem) => InRange(w, range)), ItemCell, sel, ResolutionDims);
      (kept, FollowItems(durations, kept))
  }

  /** The filter as written: the range is looked up under StartDate/EndDate. */
  function ApplyResolutionFiltersAsWritten(items: seq<WorkItem>, durations: seq<DurationRow>, stored: Option<Store>)
    : (seq<WorkItem>, seq<DurationRow>)
  {
    var st := StoreOf(stored);
    ResolutionFilter(items, durations, StoreRange(st, "StartDate", "EndDate"), StoredSelections(st))
  }

  /** The filter as intended: the range is read from the keys the filter panel writes. */
  function ApplyResolutionFilters(items: seq<WorkItem>, durations: seq<DurationRow>, stored: Option<Store>)
    : (seq<WorkItem>, seq<DurationRow>)
  {
    var st := StoreOf(stored);
    ResolutionFilter(items, durations, StoreRange(st, "Day_From", "Day_To"), StoredSelections(st))
  }

  /** The kept items are, in order, exactly those in range that the four memberships admit. */
  lemma ResolutionFilterSpec(items: seq<WorkItem>, durations: seq<DurationRow>, range: Option<(int, int)>, sel: Selections)
    ensures ResolutionFilter(items, durations, range, sel).0 ==
      Filter(items, (w: WorkItem) => InRange(w, range) && MatchesAll(w, ItemCell, sel, ResolutionDims))
  {
    NarrowAfterFilter(items, (w: WorkItem) => InRange(w, range),
                      (w: WorkItem) => InRange(w, range) && MatchesAll(w, ItemCell, sel, ResolutionDims),
                      ItemCell, sel, ResolutionDims);
  }

  /** With rows on both sides, a duration row survives exactly when its work item does. */
  lemma DurationsFollowKeptItems(items: seq<WorkItem>, durations: seq<DurationRow>, range: Option<(int, int)>, sel: Selections)
    requires |durations| > 0 && |ResolutionFilter(items, durations, range, sel).0| > 0
    ensures forall d :: d in ResolutionFilter(items, durations, range, sel).1 <==>
      d in durations && exists w :: w in ResolutionFilter(items, durations, range, sel).0 && w.id == d.workItemId
  {
    var kept := ResolutionFilter(items, durations, range, sel).0;
    var ids := Map(kept, (w: WorkItem) => w.id);
    assert ResolutionFilter(items, durations, range, sel).1 == Filter(durations, (d: DurationRow) => d.workItemId in ids);
    forall d: DurationRow ensures d.workItemId in ids <==> exists w :: w in kept && w.id == d.workItemId {
      if d.workItemId in ids {
        var i :| 0 <= i < |ids| && ids[i] == d.workItemId;
        assert kept[i] in kept && kept[i].id == d.workItemId;
      }
      if exists w :: w in kept && w.id == d.workItemId {
        var w :| w in kept && w.id == d.workItemId;
        var i :| 0 <= i < |kept| && kept[i] == w;
        assert ids[i] == d.workItemId;
      }
    }
  }

  /** Only the AOR, case-type, product and priority selections matter; origins, statuses and the rest are ignored. */
  lemma ResolutionReadsFourSelections(items: seq<WorkItem>, durations: seq<DurationRow>, range: Option<(int, int)>, s1: Selections, s2: Selections)
    requires s1.aor == s2.aor && s1.caseTypes == s2.caseTypes && s1.products == s2.products && s1.priority == s2.priority
    ensures ResolutionFilter(items, durations, range, s1) == ResolutionFilter(items, durations, range, s2)
  {
    forall i | 0 <= i < |ResolutionDims| ensures SelectionFor(s1, ResolutionDims[i]) == SelectionFor(s2, ResolutionDims[i]) {
      assert ResolutionDims[i] in {AorDim, CaseTypeDim, ProductDim, PriorityDim};
    }
    NarrowAllAgree(Filter(items, (w: WorkItem) => InRange(w, range)), ItemCell, s1, s2, ResolutionDims);
  }

  /**
   * For any store the filter panel writes, the filter as written never applies
   * a date range, while the intended one applies the panel's range.
   */
  lemma PanelRangeIgnoredAsWritten(items: seq<WorkItem>, durations: seq<DurationRow>,
                                   start: Option<int>, end: Option<int>, today: int, s: Selections)
    ensures var st := FilterDataQuery(start, end, today, s);
      ApplyResolutionFiltersAsWritten(items, durations, Some(st)) ==
        ResolutionFilter(items, durations, None, StoredSelections(st))
    ensures var st := FilterDataQuery(start, end, today, s);
      ApplyResolutionFilters(items, durations, Some(st)) ==
        ResolutionFilter(items, durations,
          Some((if start.Some? then start.value else StartPlaceholderDay, if end.Some? then end.value else today)),
          StoredSelections(st))
  {
    PanelRangeKeys(start, end, today, s);
  }

  /** Every item the filter keeps under a known range was created inside it. */
  lemma KeptItemsInsideRange(items: seq<WorkItem>, durations: seq<DurationRow>, from: int, to: int, sel: Selections)
    ensures forall w :: w in ResolutionFilter(items, durations, Some((from, to)), sel).0 ==>
      w.createdOn.Some? && DayStart(from) <= w.createdOn.value <= DayStart(to)
  {
    var kept := ResolutionFilter(items, durations, Some((from, to)), sel).0;
    forall w | w in kept ensures w.createdOn.Some? && DayStart(from) <= w.createdOn.value <= DayStart(to) {
      assert InRange(w, Some((from, to)));
    }
  }

  /** Every item the intended filter keeps from a panel store was created inside the panel's range. */
  lemma KeptItemsInsidePanelRange(items: seq<WorkItem>, durations: seq<DurationRow>, from: int, to: int, today: int, s: Selections)
    ensures forall w :: w in ApplyResolutionFilters(items, durations, Some(FilterDataQuery(Some(from), Some(to), today, s))).0 ==>
      w.createdOn.Some? && DayStart(from) <= w.createdOn.value <= DayStart(to)
  {
    var st := FilterDataQuery(Some(from), Some(to), today, s);
    PanelRangeIgnoredAsWritten(items, durations, Some(from), Some(to), today, s);
    KeptItemsInsideRange(items, durations, from, to, StoredSelections(st));
  }

  /** A ticket created on the first day of 1970, with the panel set to days 1 to 2. */
  const EarlyTicket: WorkItem :=
    WorkItem(7, None, None, None, None, None, None, None, None, None, None, Some(0), Some(10), None, None, None)

  /** An unfiltered panel store reads back as empty lists, which impose nothing. */
  lemma UnfilteredPanelReadsEmpty(start: Option<int>, end: Option<int>, today: int, d: Dimension)
    ensures SelectionFor(StoredSelections(FilterDataQuery(start, end, today, NoSelections)), d) == Some([])
  {
    assert SelectionFor(NoSelections, d) == None;
    UnsetReadsEmpty(start, end, today, NoSelections, d);
  }

  /** A dimension with no selection is stored as an empty list and read back as one. */
  lemma UnsetReadsEmpty(start: Option<int>, end: Option<int>, today: int, s: Selections, d: Dimension)
    requires SelectionFor(s, d) == None
    ensures SelectionFor(StoredSelections(FilterDataQuery(start, end, today, s)), d) == Some([])
  {
    var st := FilterDataQuery(start, end, today, s);
    StoredSelectionsRoundTrip(start, end, today, s, d);
    assert "Day_From" in st.dates;
    ParsedSelectionFor(st, d);
  }

  lemma UnfilteredPanelAdmits(start: Option<int>, end: Option<int>, today: int, w: WorkItem)
    ensures MatchesAll(w, ItemCell, StoredSelections(FilterDataQuery(start, end, today, NoSelections)), ResolutionDims)
  {
    var sel := StoredSelections(FilterDataQuery(start, end, today, NoSelections));
    forall i | 0 <= i < |ResolutionDims| ensures Admits(SelectionFor(sel, ResolutionDims[i]), ItemCell(w, ResolutionDims[i])) {
      UnfilteredPanelReadsEmpty(start, end, today, ResolutionDims[i]);
    }
  }

  /** A single item that the test admits is kept. */
  lemma SingleItemKept(w: WorkItem, range: Option<(int, int)>, sel: Selections)
    requires InRange(w, range) && MatchesAll(w, ItemCell, sel, ResolutionDims)
    ensures ResolutionFilter([w], [], range, sel).0 == [w]
  {
    ResolutionFilterSpec([w], [], range, sel);
    assert [w][1..] == [];
  }

  /** The counterexample, as written: with an unfiltered panel set to days 1 to 2, a ticket from day 0 is kept. */
  lemma EarlyTicketKeptAsWritten()
    ensures ApplyResolutionFiltersAsWritten([EarlyTicket], [], Some(FilterDataQuery(Some(1), Some(2), 3, NoSelections))).0 == [EarlyTicket]
  {
    var sel := StoredSelections(FilterDataQuery(Some(1), Some(2), 3, NoSelections));
    PanelRangeIgnoredAsWritten([EarlyTicket], [], Some(1), Some(2), 3, NoSelections);
    UnfilteredPanelAdmits(Some(1), Some(2), 3, EarlyTicket);
    SingleItemKept(EarlyTicket, None, sel);
  }

  /** Whatever the selections, a range of days 1 to 2 drops that ticket. */
  lemma EarlyTicketOutsideRange(sel: Selections)
    ensures ResolutionFilter([EarlyTicket], [], Some((1, 2)), sel).0 == []
  {
    ResolutionFilterSpec([EarlyTicket], [], Some((1, 2)), sel);
    assert !InRange(EarlyTicket, Some((1, 2)));
    assert [EarlyTicket][1..] == [];
  }

  /** The same store with the intended keys drops that ticket. */
  lemma EarlyTicketDropped()
    ensures ApplyResolutionFilters([EarlyTicket], [], Some(FilterDataQuery(Some(1), Some(2), 3, NoSelections))).0 == []
  {
    var st := FilterDataQuery(Some(1), Some(2), 3, NoSelections);
    PanelRangeIgnoredAsWritten([EarlyTicket], [], Some(1), Some(2), 3, NoSelections);
    EarlyTicketOutsideRange(StoredSelections(st));
  }

  // ---------------------------------------------------------------------
  // Merging with the duration summary

  /** A work item with one duration row matching its id, or none (a left merge). */
  datatype Merged = Merged(item: WorkItem, duration: Option<DurationRow>)

  function Matching(w: WorkItem, durations: seq<DurationRow>): seq<DurationRow>
  {
    Filter(durations, (d: DurationRow) => d.workItemId == w.id)
  }

  /** One item's rows of the merge: one per matching duration row, or a single row without one. */
  function MergeItem(w: WorkItem, durations: seq<DurationRow>): (r: seq<Merged>)
    ensures |r| == if |Matching(w, durations)| == 0 then 1 else |Matching(w, durations)|
    ensures forall m :: m in r ==> m.item == w
    ensures forall m :: m in r ==> (m.duration.None? <==> |Matching(w, durations)| == 0)
    ensures forall m :: m in r && m.duration.Some? ==> m.duration.value in durations && m.duration.value.workItemId == w.id
  {
    var ms := Matching(w, durations);
    if |ms| == 0 then [Merged(w, None)] else Map(ms, (d: DurationRow) => Merged(w, Some(d)))
  }

  /** `merge(..., on='WorkItemId', how='left')`: every item kept, in order, each paired with its matching rows. */
  function LeftMerge(items: seq<WorkItem>, durations: seq<DurationRow>): (r: seq<Merged>)
    ensures |r| >= |items|
    ensures forall m :: m in r ==> m.item in items
    ensures forall m :: m in r && m.duration.Some? ==> m.duration.value in durations && m.duration.value.workItemId == m.item.id
    ensures forall w :: w in items ==> exists m :: m in r && m.item == w
    decreases |items|
  {
    if |items| == 0 then []
    else
      var head := MergeItem(items[0], durations);
      var rest := LeftMerge(items[1..], durations);
      assert head[0] in head;
      assert forall w :: w in items ==> w == items[0] || w in items[1..];
      head + rest
  }

  /** A test that at most one element passes keeps at most one element. */
  lemma {:induction false} FilterAtMostOne<T(!new)>(xs: seq<T>, p: T -> bool)
    requires forall i, j :: 0 <= i < |xs| && 0 <= j < |xs| && p(xs[i]) && p(xs[j]) ==> i == j
    ensures |Filter(xs, p)| <= 1
  {
    if |xs| > 0 {
      var tail := xs[1..];
      forall i, j | 0 <= i < |tail| && 0 <= j < |tail| && p(tail[i]) && p(tail[j]) ensures i == j {
        assert tail[i] == xs[i + 1] && tail[j] == xs[j + 1];
      }
      FilterAtMostOne(tail, p);
      if p(xs[0]) {
        forall x | x in tail ensures !p(x) {
          var k :| 0 <= k < |tail| && tail[k] == x;
          assert xs[k + 1] == x;
        }
        FilterNone(tail, p);
      }
    }
  }

  /** When duration rows have distinct ids, the merge has exactly one row per item: total_tickets is the item count. */
  lemma {:induction false} LeftMergeOnePerItem(items: seq<WorkItem>, durations: seq<DurationRow>)
    requires forall i, j :: 0 <= i < |durations| && 0 <= j < |durations| && durations[i].workItemId == durations[j].workItemId ==> i == j
    ensures |LeftMerge(items, durations)| == |items|
    decreases |items|
  {
    if |items| > 0 {
      FilterAtMostOne(durations, (d: DurationRow) => d.workItemId == items[0].id);
      LeftMergeOnePerItem(items[1..], durations);
    }
  }

  /** The minutes the work-item query computes: ClosedOn minus CreatedOn when both exist. */
  function ItemMinutes(w: WorkItem): Option<int>
  {
    if HasBothDates(w) then Some(w.closedOn.value - w.createdOn.value) else None
  }

  /** OpenToClosed_Min, falling back to the work item's own minutes. */
  function ResolutionTime(m: Merged): Option<int>
  {
    if m.duration.Some? && m.duration.value.openToClosed.Some? then m.duration.value.openToClosed else ItemMinutes(m.item)
  }

  /** A resolution time known, positive and below one year (525600 minutes). */
  predicate Analyzable(m: Merged)
  {
    ResolutionTime(m).Some? && 0 < ResolutionTime(m).value < 525600
  }

  /** An item that passed the filter always has a resolution time. */
  lemma FilteredItemsHaveTimes(items: seq<WorkItem>, durations: seq<DurationRow>)
    requires forall w :: w in items ==> HasBothDates(w)
    ensures forall m :: m in LeftMerge(items, durations) ==> ResolutionTime(m).Some?
  {
  }

  /** The prepared data: nothing when either frame is empty, else the merge and its analysable part. */
  datatype Prepared = NoResolutionData | Prepared(merged: seq<Merged>, analyzable: seq<Merged>)

  function PrepareResolutionTimes(items: seq<WorkItem>, durations: seq<DurationRow>): (r: Prepared)
    ensures r.NoResolutionData? <==> |items| == 0 || |durations| == 0
    ensures r.Prepared? ==> |r.merged| >= |items| && |r.analyzable| <= |r.merged|
    ensures r.Prepared? ==> forall m :: m in r.analyzable ==>
      m in r.merged && ResolutionTime(m).Some? && 0 < ResolutionTime(m).value < 525600
    ensures r.Prepared? ==> forall m :: m in r.merged && Analyzable(m) ==> m in r.analyzable
  {
    if |items| == 0 || |durations| == 0 then NoResolutionData
    else
      var merged := LeftMerge(items, durations);
      Prepared(merged, Filter(merged, Analyzable))
  }

  /** The escalation flag is the string '1'. */
  predicate EscalatedRow(m: Merged)
  {
    m.item.isEscalated == Some("1")
  }

  /** The escalation flag is the string '0'. */
  predicate NotEscalatedRow(m: Merged)
  {
    m.item.isEscalated == Some("0")
  }

  /**
   * Escalated ("1") and non-escalated ("0") counts when both groups are
   * present; otherwise none escalated and every ticket non-escalated.
   */
  function EscalationCounts(rows: seq<Merged>): (r: (nat, nat))
    ensures var e, n := |Positions(rows, EscalatedRow)|, |Positions(rows, NotEscalatedRow)|;
      if e > 0 && n > 0 then r == (e, n) else r == (0, |rows|)
    ensures r.0 + r.1 <= |rows|
  {
    var esc := Filter(rows, EscalatedRow);
    var non := Filter(rows, NotEscalatedRow);
    DisjointFilters(rows, EscalatedRow, NotEscalatedRow);
    FilterCountsPositions(rows, EscalatedRow);
    FilterCountsPositions(rows, NotEscalatedRow);
    if |esc| > 0 && |non| > 0 then (|esc|, |non|) else (0, |rows|)
  }

  // ---------------------------------------------------------------------
  // Buckets

  /** The upper bounds (inclusive, in minutes) of the buckets below "7+ days". */
  const BucketBounds: seq<int> := [15, 60, 240, 1440, 10080]

  /** The bucket labels, shortest first. */
  const BucketLabels: seq<string> := ["≤15 min", "15-60 min", "1-4 hours", "4-24 hours", "1-7 days", "7+ days"]

  /** `categorize_resolution_time`. */
  function CategorizeResolutionTime(minutes: Option<int>): (r: string)
    ensures r == "Invalid" <==> minutes.None? || minutes.value <= 0
    ensures r == "Invalid" || r in BucketLabels
  {
    if minutes.None? || minutes.value <= 0 then "Invalid"
    else if minutes.value <= 15 then "≤15 min"
    else if minutes.value <= 60 then "15-60 min"
    else if minutes.value <= 240 then "1-4 hours"
    else if minutes.value <= 1440 then "4-24 hours"
    else if minutes.value <= 10080 then "1-7 days"
    else "7+ days"
  }

  /** How many bounds lie below `m`: the index of its bucket. */
  function BoundsBelow(bounds: seq<int>, m: int): (n: nat)
    ensures n <= |bounds|
  {
    if |bounds| == 0 then 0 else (if bounds[0] < m then 1 else 0) + BoundsBelow(bounds[1..], m)
  }

  lemma {:induction false} BoundsBelowMonotone(bounds: seq<int>, a: int, b: int)
    requires a <= b
    ensures BoundsBelow(bounds, a) <= BoundsBelow(bounds, b)
  {
    if |bounds| > 0 { BoundsBelowMonotone(bounds[1..], a, b); }
  }

  /** The categoriser agrees with the reference definition: a positive time goes to the bucket indexed by the bounds below it. */
  lemma CategorizeByBounds(m: int)
    requires m > 0
    ensures BoundsBelow(BucketBounds, m) < |BucketLabels|
    ensures CategorizeResolutionTime(Some(m)) == BucketLabels[BoundsBelow(BucketBounds, m)]
  {
    var b1 := BucketBounds[1..];
    var b2 := b1[1..];
    var b3 := b2[1..];
    var b4 := b3[1..];
    assert b4 == [10080] && b4[1..] == [];
    assert BoundsBelow(b4, m) == (if 10080 < m then 1 else 0);
    assert BoundsBelow(b3, m) == (if 1440 < m then 1 else 0) + BoundsBelow(b4, m);
    assert BoundsBelow(b2, m) == (if 240 < m then 1 else 0) + BoundsBelow(b3, m);
    assert BoundsBelow(b1, m) == (if 60 < m then 1 else 0) + BoundsBelow(b2, m);
    assert BoundsBelow(BucketBounds, m) == (if 15 < m then 1 else 0) + BoundsBelow(b1, m);
  }

  /** The position of a name among the buckets; "Invalid" comes first. */
  function LabelRank(name: string): int
  {
    if name == "Invalid" then -1
    else if name == "≤15 min" then 0
    else if name == "15-60 min" then 1
    else if name == "1-4 hours" then 2
    else if name == "4-24 hours" then 3
    else if name == "1-7 days" then 4
    else 5
  }

  /** Longer resolution times never land in an earlier bucket. */
  lemma CategorizeMonotone(a: int, b: int)
    requires a <= b
    ensures LabelRank(CategorizeResolutionTime(Some(a))) <= LabelRank(CategorizeResolutionTime(Some(b)))
  {
    if a > 0 {
      CategorizeByBounds(a);
      CategorizeByBounds(b);
      BoundsBelowMonotone(BucketBounds, a, b);
      var i, j := BoundsBelow(BucketBounds, a), BoundsBelow(BucketBounds, b);
      assert LabelRank(BucketLabels[i]) == i && LabelRank(BucketLabels[j]) == j;
    }
  }

  function Category(m: Merged): string
  {
    CategorizeResolutionTime(ResolutionTime(m))
  }

  /** `groupby('ResolutionCategory').size().sort_index()`: each present bucket in name order with its count. */
  function Distribution(rows: seq<Merged>): (r: seq<(string, nat)>)
    ensures forall e :: e in r ==> e.1 > 0 && e.1 == Count(Map(rows, Category), e.0)
  {
    var cats := Map(rows, Category);
    Map(SortedUnique(cats), (c: string) => (c, Count(cats, c)))
  }

  /** The bucket name of a distribution entry. */
  function BucketName(e: (string, nat)): string
  {
    e.0
  }

  /** The distribution's buckets are distinct, ascending, never "Invalid" for analysable rows, and their counts add up to the row count. */
  lemma DistributionCoversRows(rows: seq<Merged>)
    ensures StrictlyAscending(Map(Distribution(rows), BucketName))
    ensures SumCounts(Map(Distribution(rows), BucketName), Map(rows, Category)) == |rows|
    ensures (forall m :: m in rows ==> Analyzable(m)) ==> forall e :: e in Distribution(rows) ==> e.0 != "Invalid"
  {
    var cats := Map(rows, Category);
    var keys := SortedUnique(cats);
    DistributionBuckets(rows);
    AscendingDistinct(keys);
    GroupCountsSum(keys, cats);
    if forall m :: m in rows ==> Analyzable(m) {
      forall e | e in Distribution(rows) ensures e.0 != "Invalid" {
        var k := DistributionEntryRow(rows, e);
        assert rows[k] in rows;
      }
    }
  }

  /** The buckets listed are the distinct categories of the rows, sorted. */
  lemma DistributionBuckets(rows: seq<Merged>)
    ensures Map(Distribution(rows), BucketName) == SortedUnique(Map(rows, Category))
  {
    var keys := SortedUnique(Map(rows, Category));
    var names := Map(Distribution(rows), BucketName);
    assert |names| == |keys|;
    forall i | 0 <= i < |keys| ensures names[i] == keys[i] {
    }
  }

  /** Every listed bucket is the category of some row. */
  lemma DistributionEntryRow(rows: seq<Merged>, e: (string, nat)) returns (k: nat)
    requires e in Distribution(rows)
    ensures k < |rows| && Category(rows[k]) == e.0
  {
    var cats := Map(rows, Category);
    var keys := SortedUnique(cats);
    var i :| 0 <= i < |Distribution(rows)| && Distribution(rows)[i] == e;
    assert e.0 == keys[i] && keys[i] in cats;
    var j :| 0 <= j < |rows| && cats[j] == e.0;
    k := j;
  }

  // ---------------------------------------------------------------------
  // Chart labels

  /** Null, empty and "nan" dimension cells become "Unspecified". */
  function UnspecifiedFill(cell: Option<string>): (r: string)
    ensures r != ""
    ensures cell.Some? && cell.value != "" && cell.value != "nan" ==> r == cell.value
  {
    if cell.None? || cell.value == "" || cell.value == "nan" then "Unspecified" else cell.value
  }

  /** `create_display_label`: case types through their names, AORs raw, other values titleized without "N/A". */
  function DisplayLabel(raw: string, dim: Dimension, caseTypeNames: map<string, string>, titleize: string -> string): (r: string)
    ensures raw == "" || raw == "nan" || raw == "Unspecified" ==> r == "Unspecified"
    ensures dim != CaseTypeDim && raw != "" ==> r != ""
    ensures dim == AorDim && raw != "" && raw != "nan" ==> r == raw
  {
    if raw == "" || raw == "nan" || raw == "Unspecified" then "Unspecified"
    else match dim
      case CaseTypeDim => if raw in caseTypeNames then caseTypeNames[raw] else titleize(raw)
      case AorDim => raw
      case _ =>
        var t := Strip(Replace(titleize(raw), "N/A", ""));
        if t != "" then t else raw
  }

  /** Labels past 20 characters keep their first 20 and gain "..."; "Unspecified" is never cut. */
  function TruncateLabel(name: string): (r: string)
    ensures |r| <= 23
    ensures name == "Unspecified" || |name| <= 20 ==> r == name
    ensures |name| > 20 ==> |r| == 23 && r[..20] == name[..20] && r[20..] == "..."
  {
    if name == "Unspecified" then name
    else if |name| > 20 then name[..20] + "..." else name
  }

  /** Truncating twice is truncating once. */
  lemma TruncateIdempotent(name: string)
    ensures TruncateLabel(TruncateLabel(name)) == TruncateLabel(name)
  {
    var r := TruncateLabel(name);
    if |name| > 20 {
      assert r != "Unspecified" by { assert |r| == 23; }
      assert r[..20] + "..." == r by { assert r == r[..20] + r[20..]; }
    }
  }

  /** A category's chart name: filled, relabelled, then truncated; never empty, at most 23 characters. */
  function CategoryLabel(cell: Option<string>, dim: Dimension, caseTypeNames: map<string, string>, titleize: string -> string): (r: string)
    ensures |r| <= 23
    ensures dim != CaseTypeDim ==> r != ""
    ensures cell.None? ==> r == "Unspecified"
  {
    TruncateLabel(DisplayLabel(UnspecifiedFill(cell), dim, caseTypeNames, titleize))
  }

  // ---------------------------------------------------------------------
  // View state

  const BarButton := "workflow-resolution-bar-btn"
  const BoxButton := "workflow-resolution-box-btn"
  const StatsButton := "workflow-resolution-stats-btn"
  const DistButton := "workflow-resolution-dist-btn"

  predicate KnownView(v: string)
  {
    v == "bar" || v == "box" || v == "stats" || v == "dist"
  }

  /** `update_view_state`: a view button sets its view; any other trigger keeps the state, "box" when there is none. */
  function NextViewState(trigger: Option<string>, current: Option<string>): (r: string)
    ensures trigger == Some(BarButton) ==> r == "bar"
    ensures trigger == Some(BoxButton) ==> r == "box"
    ensures trigger == Some(StatsButton) ==> r == "stats"
    ensures trigger == Some(DistButton) ==> r == "dist"
  {
    var state := if current.None? then "box" else current.value;
    if trigger == Some(BarButton) then "bar"
    else if trigger == Some(BoxButton) then "box"
    else if trigger == Some(StatsButton) then "stats"
    else if trigger == Some(DistButton) then "dist"
    else state
  }

  /** The state is always one of the four views once it starts as one (or starts empty). */
  lemma ViewStateStaysKnown(trigger: Option<string>, current: Option<string>)
    requires current.None? || KnownView(current.value)
    ensures KnownView(NextViewState(trigger, current))
  {
  }

  /** A trigger that is not a view button leaves a stored state alone. */
  lemma OtherTriggerKeepsState(trigger: Option<string>, current: string)
    requires trigger !in {Some(BarButton), Some(BoxButton), Some(StatsButton), Some(DistButton)}
    ensures NextViewState(trigger, Some(current)) == current
  {
  }

  /** Replaying the same trigger changes nothing. */
  lemma ViewStateIdempotent(trigger: Option<string>, current: Option<string>)
    ensures NextViewState(trigger, Some(NextViewState(trigger, current))) == NextViewState(trigger, current)
  {
  }

  /** The active flags of the bar, box, statistics and distribution buttons. */
  datatype ButtonStates = ButtonStates(bar: bool, box: bool, stats: bool, dist: bool)

  function ActiveCount(b: ButtonStates): nat
  {
    (if b.bar then 1 else 0) + (if b.box then 1 else 0) + (if b.stats then 1 else 0) + (if b.dist then 1 else 0)
  }

  /** `update_button_states`: exactly one button is active, bar unless the state names another view. */
  function UpdateButtonStates(view: Option<string>): (b: ButtonStates)
    ensures ActiveCount(b) == 1
    ensures view.Some? && KnownView(view.value) ==>
      (b.bar <==> view.value == "bar") && (b.box <==> view.value == "box") &&
      (b.stats <==> view.value == "stats") && (b.dist <==> view.value == "dist")
    ensures view.None? || !KnownView(view.value) ==> b.bar
  {
    if view == Some("box") then ButtonStates(false, true, false, false)
    else if view == Some("stats") then ButtonStates(false, false, true, false)
    else if view == Some("dist") then ButtonStates(false, false, false, true)
    else ButtonStates(true, false, false, false)
  }

  function DimensionSelectorVisible(view: Option<string>): bool
  {
    view == Some("bar") || view == Some("box")
  }

  function PopulationSelectorVisible(view: Option<string>): bool
  {
    view == Some("stats") || view == Some("dist")
  }

  /**
   * The two selectors are never shown together; for a known view exactly one
   * is shown, and the dimension selector goes with the bar and box buttons.
   */
  lemma SelectorsFollowView(view: Option<string>)
    ensures !(DimensionSelectorVisible(view) && PopulationSelectorVisible(view))
    ensures view.Some? && KnownView(view.value) ==> DimensionSelectorVisible(view) || PopulationSelectorVisible(view)
    ensures view.Some? && KnownView(view.value) ==>
      (DimensionSelectorVisible(view) <==> UpdateButtonStates(view).bar || UpdateButtonStates(view).box)
  {
  }

  /** `value or default`: a falsy (missing or empty) choice gives the default. */
  function OrDefault(choice: Option<string>, default: string): (r: string)
    ensures choice.Some? && choice.value != "" ==> r == choice.value
    ensures choice.None? || choice.value == "" ==> r == default
  {
    if choice.Some? && choice.value != "" then choice.value else default
  }

  /** The population defaults to "all", the display to "top"; storing a stored value again changes nothing. */
  lemma StoredChoicesSettle(population: Option<string>, display: Option<string>)
    ensures OrDefault(population, "all") != "" && OrDefault(display, "top") != ""
    ensures OrDefault(Some(OrDefault(population, "all")), "all") == OrDefault(population, "all")
    ensures OrDefault(Some(OrDefault(display, "top")), "top") == OrDefault(display, "top")
  {
  }
}
