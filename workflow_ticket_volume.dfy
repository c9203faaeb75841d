/**
 * The ticket-volume panel: its dataset filter, the created/closed time
 * series with its running balance of active tickets, the trend direction of
 * its insight text and the granularity buttons.
 *
 * Days are whole days since 1970-01-01 (a Thursday); timestamps are minutes.
 * Calendar months are a parameter `monthStart` (the first day of the month
 * holding a day), since the model does not reimplement the calendar.
 */
module WorkflowTicketVolume {
  import opened Common
  import opened WorkflowData
  import opened WorkflowFilters
  import opened WorkflowSummaryCards

  // ---------------------------------------------------------------------
  // The dataset filter

  /** CreatedOn present and ClosedOn not before it (a null ClosedOn compares false), within the range once there is one. */
  predicate VolumeTest(w: WorkItem, range: Option<(int, int)>)
  {
    w.createdOn.Some? && w.closedOn.Some? && w.closedOn.value >= w.createdOn.value &&
    (range.None? || CreatedWithin(w, DayStart(range.value.0), DayStart(range.value.1)))
  }

  /** `apply_ticket_volume_filters` once the range and the selections are read. */
  function VolumeFilter(items: seq<WorkItem>, range: Option<(int, int)>, sel: Selections): (r: seq<WorkItem>)
    ensures |r| <= |items|
    ensures forall w :: w in r ==> w in items && VolumeTest(w, range)
  {
    if |items| == 0 then items
    else
      NarrowAllIsConjunction(Filter(items, (w: WorkItem) => VolumeTest(w, range)), ItemCell, sel, ItemFilterOrder);
      NarrowAll(Filter(items, (w: WorkItem) => VolumeTest(w, range)), ItemCell, sel, ItemFilterOrder)
  }

  /** As written: the range is looked up under StartDate/EndDate. */
  function ApplyTicketVolumeFiltersAsWritten(items: seq<WorkItem>, stored: Option<Store>): (r: seq<WorkItem>)
    ensures var st := StoreOf(stored);
      forall w :: w in r <==> w in items && VolumeTest(w, StoreRange(st, "StartDate", "EndDate")) && MatchesAll(w, ItemCell, StoredSelections(st), ItemFilterOrder)
  {
    var st := StoreOf(stored);
    VolumeFilterSpec(items, StoreRange(st, "StartDate", "EndDate"), StoredSelections(st));
    VolumeFilter(items, StoreRange(st, "StartDate", "EndDate"), StoredSelections(st))
  }

  /** As intended: the range is read from the keys the filter panel writes. */
  function ApplyTicketVolumeFilters(items: seq<WorkItem>, stored: Option<Store>): (r: seq<WorkItem>)
    ensures var st := StoreOf(stored);
      forall w :: w in r <==> w in items && VolumeTest(w, StoreRange(st, "Day_From", "Day_To")) && MatchesAll(w, ItemCell, StoredSelections(st), ItemFilterOrder)
  {
    var st := StoreOf(stored);
    VolumeFilterSpec(items, StoreRange(st, "Day_From", "Day_To"), StoredSelections(st));
    VolumeFilter(items, StoreRange(st, "Day_From", "Day_To"), StoredSelections(st))
  }

  /** The filter keeps, in order, exactly the items passing the date tests that all ten selections admit. */
  lemma VolumeFilterSpec(items: seq<WorkItem>, range: Option<(int, int)>, sel: Selections)
    ensures VolumeFilter(items, range, sel) ==
      Filter(items, (w: WorkItem) => VolumeTest(w, range) && MatchesAll(w, ItemCell, sel, ItemFilterOrder))
  {
    NarrowAfterFilter(items, (w: WorkItem) => VolumeTest(w, range),
                      (w: WorkItem) => VolumeTest(w, range) && MatchesAll(w, ItemCell, sel, ItemFilterOrder),
                      ItemCell, sel, ItemFilterOrder);
  }

  /** On a store the filter panel wrote, the filter as written applies no range and the intended one the panel's. */
  lemma VolumePanelRange(items: seq<WorkItem>, start: Option<int>, end: Option<int>, today: int, s: Selections)
    ensures var st := FilterDataQuery(start, end, today, s);
      ApplyTicketVolumeFiltersAsWritten(items, Some(st)) == VolumeFilter(items, None, StoredSelections(st))
    ensures var st := FilterDataQuery(start, end, today, s);
      ApplyTicketVolumeFilters(items, Some(st)) ==
        VolumeFilter(items, Some((if start.Some? then start.value else StartPlaceholderDay, if end.Some? then end.value else today)),
                     StoredSelections(st))
  {
    PanelRangeKeys(start, end, today, s);
  }

  // ---------------------------------------------------------------------
  // Periods

  datatype Granularity = Daily | Weekly | Monthly

  /** A period's label: a date, "Week of" a date, or a month (here: the month's first day). */
  datatype TimeLabel = DateLabel(day: int) | WeekOfLabel(day: int) | MonthLabel(first: int)

  datatype Period = Period(name: TimeLabel, sortKey: int)

  function DayOf(minute: int): int
  {
    minute / 1440
  }

  /** The Monday starting a day's week (`to_period('W')` weeks end on Sunday). */
  function WeekStart(day: int): (r: int)
    ensures r <= day < r + 7
    ensures (r + 3) % 7 == 0
  {
    day - (day + 3) % 7
  }

  /** Two days share a week exactly when they share a week start. */
  lemma SameWeek(a: int, b: int)
    requires WeekStart(a) <= b < WeekStart(a) + 7
    ensures WeekStart(b) == WeekStart(a)
  {
    var s := WeekStart(a);
    assert (s + 3) % 7 == 0;
    assert (b + 3) % 7 == b - s by {
      assert b + 3 == (s + 3) + (b - s);
      assert 0 <= b - s < 7;
    }
  }

  /** The period columns as written: the weekly label is the creation date itself, the sort key its week. */
  function PeriodAsWritten(g: Granularity, monthStart: int -> int, minute: int): Period
  {
    var d := DayOf(minute);
    match g
    case Daily => Period(DateLabel(d), d)
    case Weekly => Period(WeekOfLabel(d), WeekStart(d))
    case Monthly => Period(MonthLabel(monthStart(d)), monthStart(d))
  }

  /** The period columns as intended: a weekly label names the week's Monday. */
  function PeriodOf(g: Granularity, monthStart: int -> int, minute: int): Period
  {
    var d := DayOf(minute);
    match g
    case Daily => Period(DateLabel(d), d)
    case Weekly => Period(WeekOfLabel(WeekStart(d)), WeekStart(d))
    case Monthly => Period(MonthLabel(monthStart(d)), monthStart(d))
  }

  /** Intended weekly labels are equal exactly for tickets of the same week; as written, only for the same day. */
  lemma WeeklyLabels(monthStart: int -> int, a: int, b: int)
    ensures PeriodOf(Weekly, monthStart, a).name == PeriodOf(Weekly, monthStart, b).name <==>
      WeekStart(DayOf(a)) == WeekStart(DayOf(b))
    ensures PeriodAsWritten(Weekly, monthStart, a).name == PeriodAsWritten(Weekly, monthStart, b).name <==>
      DayOf(a) == DayOf(b)
  {
  }

  /** Thursday and Friday of the first week: one week, but two weekly periods as written. */
  lemma WeekSplitAsWritten(monthStart: int -> int)
    ensures WeekStart(DayOf(0)) == WeekStart(DayOf(1440))
    ensures PeriodAsWritten(Weekly, monthStart, 0).name != PeriodAsWritten(Weekly, monthStart, 1440).name
    ensures PeriodOf(Weekly, monthStart, 0).name == PeriodOf(Weekly, monthStart, 1440).name
  {
    assert DayOf(0) == 0 && DayOf(1440) == 1;
    assert WeekStart(0) == -3 && WeekStart(1) == -3;
  }

  // ---------------------------------------------------------------------
  // The time series

  /** The periods of the non-null timestamps a column selects, in row order. */
  function PeriodsOf(items: seq<WorkItem>, stamp: WorkItem -> Option<int>, pf: int -> Period): (r: seq<Period>)
    ensures r == Map(Somes(Map(items, stamp)), pf)
    ensures |r| <= |items|
    ensures (forall w :: w in items ==> stamp(w).Some?) ==> |r| == |items|
    decreases |items|
  {
    if |items| == 0 then []
    else
      var rest := PeriodsOf(items[1..], stamp, pf);
      assert forall w :: w in items[1..] ==> w in items;
      assert Map(items, stamp) == [stamp(items[0])] + Map(items[1..], stamp);
      assert Map(items, stamp)[1..] == Map(items[1..], stamp);
      var head := if stamp(items[0]).Some? then [stamp(items[0]).value] else [];
      assert Somes(Map(items, stamp)) == head + Somes(Map(items[1..], stamp));
      MapAppend(head, Somes(Map(items[1..], stamp)), pf);
      (if stamp(items[0]).Some? then [pf(stamp(items[0]).value)] else []) + rest
  }

  function Labels(ps: seq<Period>): seq<TimeLabel>
  {
    Map(ps, (p: Period) => p.name)
  }

  /** The sort key of the first period with the label (`'SortKey': 'first'`). */
  function FirstKey(ps: seq<Period>, l: TimeLabel): int
  {
    if |ps| == 0 then 0 else if ps[0].name == l then ps[0].sortKey else FirstKey(ps[1..], l)
  }

  datatype VolumeRow = VolumeRow(name: TimeLabel, sortKey: int, created: nat, closed: nat)

  /** One period of the outer merge: the created and closed counts, 0 where a side has none. */
  function RowFor(l: TimeLabel, created: seq<Period>, closed: seq<Period>): (r: VolumeRow)
    ensures r.name == l
    ensures r.created == Count(Labels(created), l) && r.closed == Count(Labels(closed), l)
  {
    var c := Count(Labels(created), l);
    VolumeRow(l, if c > 0 then FirstKey(created, l) else FirstKey(closed, l), c, Count(Labels(closed), l))
  }

  function Created(r: VolumeRow): int { r.created }
  function Closed(r: VolumeRow): int { r.closed }
  function SortKeyOf(r: VolumeRow): int { r.sortKey }
  function NetChange(r: VolumeRow): int { r.created - r.closed }

  /** The created and closed periods of a frame. */
  function CreatedPeriods(items: seq<WorkItem>, pf: int -> Period): seq<Period>
  {
    PeriodsOf(items, (w: WorkItem) => w.createdOn, pf)
  }

  function ClosedPeriods(items: seq<WorkItem>, pf: int -> Period): seq<Period>
  {
    PeriodsOf(items, (w: WorkItem) => w.closedOn, pf)
  }

  /** Every label of either side, once each. */
  function AllLabels(items: seq<WorkItem>, pf: int -> Period): seq<TimeLabel>
  {
    Distinct(Labels(CreatedPeriods(items, pf)) + Labels(ClosedPeriods(items, pf)))
  }

  /** `prepare_ticket_volume_time_series` without the balance: the merged periods ordered by sort key. */
  function VolumeSeries(items: seq<WorkItem>, pf: int -> Period): (r: seq<VolumeRow>)
    ensures SortedBy(r, SortKeyOf)
  {
    var created := CreatedPeriods(items, pf);
    var closed := ClosedPeriods(items, pf);
    SortBy(Map(AllLabels(items, pf), (l: TimeLabel) => RowFor(l, created, closed)), SortKeyOf)
  }

  /** Every row of the series is the merged row of a label some time falls in. */
  lemma SeriesRowsFromLabels(items: seq<WorkItem>, pf: int -> Period, i: nat)
    requires i < |VolumeSeries(items, pf)|
    ensures var r := VolumeSeries(items, pf);
      var created, closed := CreatedPeriods(items, pf), ClosedPeriods(items, pf);
      r[i] == RowFor(r[i].name, created, closed) &&
      (r[i].name in Labels(created) || r[i].name in Labels(closed))
  {
    var r := VolumeSeries(items, pf);
    var created, closed := CreatedPeriods(items, pf), ClosedPeriods(items, pf);
    var keys := AllLabels(items, pf);
    var rows := Map(keys, (l: TimeLabel) => RowFor(l, created, closed));
    assert r[i] in multiset(rows) by {
      assert r[i] in multiset(r);
    }
    var k :| 0 <= k < |rows| && rows[k] == r[i];
    assert keys[k] in Labels(created) + Labels(closed);
  }

  /**
   * The series has one row per label that some creation or closing time
   * falls in, no label twice, and each row carries that label's created
   * and closed counts.
   */
  lemma VolumeSeriesRows(items: seq<WorkItem>, pf: int -> Period)
    ensures var r := VolumeSeries(items, pf);
      var created, closed := CreatedPeriods(items, pf), ClosedPeriods(items, pf);
      (forall i :: 0 <= i < |r| ==>
        (r[i].name in Labels(created) || r[i].name in Labels(closed)) &&
        r[i].created == Count(Labels(created), r[i].name) && r[i].closed == Count(Labels(closed), r[i].name)) &&
      (forall l :: l in Labels(created) || l in Labels(closed) ==> exists i :: 0 <= i < |r| && r[i].name == l) &&
      (forall i, j :: 0 <= i < j < |r| ==> r[i].name != r[j].name)
  {
    var r := VolumeSeries(items, pf);
    forall i | 0 <= i < |r|
      ensures var created, closed := CreatedPeriods(items, pf), ClosedPeriods(items, pf);
        (r[i].name in Labels(created) || r[i].name in Labels(closed)) &&
        r[i].created == Count(Labels(created), r[i].name) && r[i].closed == Count(Labels(closed), r[i].name)
    {
      SeriesRowsFromLabels(items, pf, i);
    }
    forall l | l in Labels(CreatedPeriods(items, pf)) || l in Labels(ClosedPeriods(items, pf))
      ensures exists i :: 0 <= i < |r| && r[i].name == l
    {
      LabelCovered(items, pf, l);
    }
    SeriesNamesDistinct(items, pf);
  }

  /** A label some time falls in has a row. */
  lemma LabelCovered(items: seq<WorkItem>, pf: int -> Period, l: TimeLabel)
    requires l in Labels(CreatedPeriods(items, pf)) || l in Labels(ClosedPeriods(items, pf))
    ensures var r := VolumeSeries(items, pf);
      exists i :: 0 <= i < |r| && r[i].name == l
  {
    var created, closed := CreatedPeriods(items, pf), ClosedPeriods(items, pf);
    var r := VolumeSeries(items, pf);
    var keys := AllLabels(items, pf);
    var rows := Map(keys, (l: TimeLabel) => RowFor(l, created, closed));
    assert l in Labels(created) + Labels(closed);
    var k :| 0 <= k < |keys| && keys[k] == l;
    assert rows[k] in multiset(r) by {
      assert rows[k] in multiset(rows);
    }
    var i :| 0 <= i < |r| && r[i] == rows[k];
  }

  /** No label has two rows. */
  lemma SeriesNamesDistinct(items: seq<WorkItem>, pf: int -> Period)
    ensures var r := VolumeSeries(items, pf);
      forall i, j :: 0 <= i < j < |r| ==> r[i].name != r[j].name
  {
    var r := VolumeSeries(items, pf);
    var keys := AllLabels(items, pf);
    var rows := Map(keys, (l: TimeLabel) => RowFor(l, CreatedPeriods(items, pf), ClosedPeriods(items, pf)));
    assert NoDuplicates(rows) by {
      forall i, j | 0 <= i < j < |rows| ensures rows[i] != rows[j] {
        assert rows[i].name == keys[i] && rows[j].name == keys[j];
      }
    }
    PermutationNoDuplicates(rows, r);
    forall i, j | 0 <= i < j < |r| ensures r[i].name != r[j].name {
      SeriesRowsFromLabels(items, pf, i);
      SeriesRowsFromLabels(items, pf, j);
      assert r[i] != r[j];
    }
  }

  /** Over a list of distinct labels the per-label counts add up to the group sizes. */
  lemma {:induction false} CountsOverLabels(keys: seq<TimeLabel>, created: seq<Period>, closed: seq<Period>)
    ensures Sum(Map(Map(keys, (l: TimeLabel) => RowFor(l, created, closed)), Created)) == SumCounts(keys, Labels(created))
    ensures Sum(Map(Map(keys, (l: TimeLabel) => RowFor(l, created, closed)), Closed)) == SumCounts(keys, Labels(closed))
  {
    if |keys| > 0 {
      CountsOverLabels(keys[1..], created, closed);
      var rows := Map(keys, (l: TimeLabel) => RowFor(l, created, closed));
      assert rows[1..] == Map(keys[1..], (l: TimeLabel) => RowFor(l, created, closed));
      assert Map(rows, Created)[1..] == Map(rows[1..], Created);
      assert Map(rows, Closed)[1..] == Map(rows[1..], Closed);
    }
  }

  /** Every ticket with a creation time is counted once in TicketsCreated, and every closed one once in TicketsClosed. */
  lemma SeriesTotals(items: seq<WorkItem>, pf: int -> Period)
    ensures Sum(Map(VolumeSeries(items, pf), Created)) == |CreatedPeriods(items, pf)|
    ensures Sum(Map(VolumeSeries(items, pf), Closed)) == |ClosedPeriods(items, pf)|
  {
    var created := CreatedPeriods(items, pf);
    var closed := ClosedPeriods(items, pf);
    var keys := AllLabels(items, pf);
    var rows := Map(keys, (l: TimeLabel) => RowFor(l, created, closed));
    SumMapSort(rows, SortKeyOf, Created);
    SumMapSort(rows, SortKeyOf, Closed);
    CountsOverLabels(keys, created, closed);
    GroupCountsSum(keys, Labels(created));
    GroupCountsSum(keys, Labels(closed));
  }

  /** For the filtered frame (every ticket created and closed) the created and the closed totals are both the ticket count. */
  lemma FilteredSeriesTotals(items: seq<WorkItem>, range: Option<(int, int)>, sel: Selections, pf: int -> Period)
    ensures var f := VolumeFilter(items, range, sel);
      Sum(Map(VolumeSeries(f, pf), Created)) == |f| && Sum(Map(VolumeSeries(f, pf), Closed)) == |f|
  {
    var f := VolumeFilter(items, range, sel);
    SeriesTotals(f, pf);
  }

  // ---------------------------------------------------------------------
  // The running balance

  /** `ActiveTickets[i]`: the cumulative net change up to period i, clipped at zero afterwards. */
  function ActiveAt(rows: seq<VolumeRow>, i: nat): nat
    requires i < |rows|
  {
    Max0(Sum(Map(rows[..i + 1], NetChange)))
  }

  /** The cumulative sum followed by `clip(lower=0)`. */
  method RunningBalance(rows: seq<VolumeRow>) returns (active: seq<nat>)
    ensures |active| == |rows|
    ensures forall i :: 0 <= i < |rows| ==> active[i] == ActiveAt(rows, i)
  {
    active := [];
    var total := 0;
    var i := 0;
    while i < |rows|
      invariant 0 <= i <= |rows|
      invariant |active| == i
      invariant total == Sum(Map(rows[..i], NetChange))
      invariant forall k :: 0 <= k < i ==> active[k] == ActiveAt(rows, k)
    {
      SumOfMapLast(rows[..i + 1], NetChange);
      assert rows[..i + 1][..i] == rows[..i];
      total := total + NetChange(rows[i]);
      active := active + [Max0(total)];
      i := i + 1;
    }
  }

  /** Clipping once at the end is not clipping each step: a closing surplus is carried forward. */
  lemma ClipAfterSum()
    ensures var rows := [VolumeRow(DateLabel(0), 0, 0, 1), VolumeRow(DateLabel(1), 1, 1, 0)];
      ActiveAt(rows, 0) == 0 && ActiveAt(rows, 1) == 0 && Max0(Max0(0 - 1) + 1) == 1
  {
    var rows := [VolumeRow(DateLabel(0), 0, 0, 1), VolumeRow(DateLabel(1), 1, 1, 0)];
    assert rows[..1] == [rows[0]] && rows[..2] == rows;
    assert Map(rows[..1], NetChange) == [-1];
    assert Map(rows, NetChange) == [-1, 1];
    assert Sum([-1]) == -1;
    assert Sum([-1, 1]) == -1 + Sum([1]);
  }

  // ---------------------------------------------------------------------
  // Trend direction

  /** The trend over at least two periods: the mean of the last min(3, n) against the first min(3, n), with a 5% band. */
  function TrendDirection(created: seq<int>): (r: Option<string>)
    ensures r.None? <==> |created| <= 1
    ensures r.Some? ==> r.value in {"increasing", "decreasing", "stable"}
  {
    if |created| <= 1 then None
    else
      var k := if |created| < 3 then |created| else 3;
      var recent := Sum(created[|created| - k..]);
      var earlier := Sum(created[..k]);
      if earlier > 0 then
        if 20 * (recent - earlier) > earlier then Some("increasing")
        else if 20 * (recent - earlier) < -earlier then Some("decreasing")
        else Some("stable")
      else Some("stable")
  }

  /**
   * The integer test is the source's percentage test: with window sums R
   * (recent) and E (earlier) over the same window, `(R/k - E/k) / (E/k) * 100 > 5`
   * holds exactly when `100 * (R - E) > 5 * E`; a zero earlier mean is stable.
   */
  lemma TrendIsPercentChange(created: seq<int>)
    requires |created| > 1
    ensures var k := if |created| < 3 then |created| else 3;
      var recent := Sum(created[|created| - k..]);
      var earlier := Sum(created[..k]);
      (earlier <= 0 ==> TrendDirection(created) == Some("stable")) &&
      (earlier > 0 ==>
        (TrendDirection(created) == Some("increasing") <==> 100 * (recent - earlier) > 5 * earlier) &&
        (TrendDirection(created) == Some("decreasing") <==> 100 * (recent - earlier) < -5 * earlier))
  {
  }

  /** A flat series is stable. */
  lemma {:induction false} FlatSeriesStable(n: nat, c: int)
    requires n > 1
    ensures TrendDirection(seq(n, i => c)) == Some("stable")
  {
    var xs := seq(n, i => c);
    var k := if n < 3 then n else 3;
    assert xs[n - k..] == xs[..k];
  }

  // ---------------------------------------------------------------------
  // Granularity

  const DailyButton := "workflow-volume-daily-btn"
  const WeeklyButton := "workflow-volume-weekly-btn"
  const MonthlyButton := "workflow-volume-monthly-btn"

  /** The chart's granularity for a trigger: daily and monthly select themselves, anything else weekly. */
  function GranularityFor(trigger: Option<string>): Granularity
  {
    if trigger == Some(DailyButton) then Daily
    else if trigger == Some(MonthlyButton) then Monthly
    else Weekly
  }

  datatype GranularityButtons = GranularityButtons(daily: bool, weekly: bool, monthly: bool)

  /** The buttons' active flags showing a granularity. */
  function ButtonsShowing(g: Granularity): GranularityButtons
  {
    GranularityButtons(g == Daily, g == Weekly, g == Monthly)
  }

  /** `update_volume_granularity_buttons`: exactly one active, the one the chart mapping picks. */
  function UpdateGranularityButtons(trigger: Option<string>): (b: GranularityButtons)
    ensures (if b.daily then 1 else 0) + (if b.weekly then 1 else 0) + (if b.monthly then 1 else 0) == 1
    ensures b == ButtonsShowing(GranularityFor(trigger))
  {
    if trigger.None? then GranularityButtons(false, true, false)
    else if trigger.value == DailyButton then GranularityButtons(true, false, false)
    else if trigger.value == MonthlyButton then GranularityButtons(false, false, true)
    else GranularityButtons(false, true, false)
  }

  /** What reaches the panel: a button click or a new filter store. */
  datatype VolumeEvent = ButtonClick(id: string) | StoreChange

  /** The buttons after a run of events: weekly at first, changed only by clicks. */
  function ButtonsAfter(events: seq<VolumeEvent>): GranularityButtons
  {
    if |events| == 0 then ButtonsShowing(Weekly)
    else
      var last := events[|events| - 1];
      if last.ButtonClick? then UpdateGranularityButtons(Some(last.id)) else ButtonsAfter(events[..|events| - 1])
  }

  /** As written, the chart reads its granularity from the last trigger only, so a store change means weekly. */
  function ChartGranularityAsWritten(events: seq<VolumeEvent>): Granularity
  {
    if |events| == 0 then Weekly
    else
      var last := events[|events| - 1];
      if last.ButtonClick? then GranularityFor(Some(last.id)) else Weekly
  }

  /** As intended, the chart keeps the granularity of the last click. */
  function ChartGranularity(events: seq<VolumeEvent>): Granularity
  {
    if |events| == 0 then Weekly
    else
      var last := events[|events| - 1];
      if last.ButtonClick? then GranularityFor(Some(last.id)) else ChartGranularity(events[..|events| - 1])
  }

  /** The intended chart always uses the granularity of the active button. */
  lemma {:induction false} ChartMatchesButtons(events: seq<VolumeEvent>)
    ensures ButtonsAfter(events) == ButtonsShowing(ChartGranularity(events))
  {
    if |events| > 0 && events[|events| - 1].StoreChange? {
      ChartMatchesButtons(events[..|events| - 1]);
    }
  }

  /** Daily clicked, then a filter changed: the daily button stays active while the chart as written turns weekly. */
  lemma DailyLostOnFilterChange()
    ensures ButtonsAfter([ButtonClick(DailyButton), StoreChange]).daily
    ensures ChartGranularityAsWritten([ButtonClick(DailyButton), StoreChange]) == Weekly
    ensures ChartGranularity([ButtonClick(DailyButton), StoreChange]) == Daily
  {
    var evs := [ButtonClick(DailyButton), StoreChange];
    assert evs[..1] == [ButtonClick(DailyButton)];
    assert evs[..1][..0] == [];
  }
}
