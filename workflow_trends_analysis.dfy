/**
 * The trends panel for case reasons and issues: the period label of each
 * ticket, the reason or issue it is counted under, the ranked item list, the
 * (period, item) counts behind the line chart, the top/bottom selection with
 * its dropdown sync, and the recent-trend insight.
 *
 * Its dataset filter is the source-analysis panel's, line for line, so the
 * model reuses `SourceFilter`. The date dimension is a function from a day
 * (minutes since 1970 divided by 1440) to that day's calendar numbers.
 */
module WorkflowTrendsAnalysis {
  import opened Common
  import opened WorkflowData
  import opened WorkflowSourceAnalysis

  // ---------------------------------------------------------------------
  // Period labels

  /** The calendar numbers the date dimension holds for one day. */
  datatype DateRow = DateRow(week: nat, month: nat, quarter: nat, year: int)

  /** A day of a four-digit year, as the date dimension records it. */
  predicate CalendarDay(d: DateRow)
  {
    1000 <= d.year <= 9999 && 1 <= d.month <= 12 && 1 <= d.quarter <= 4 && 1 <= d.week <= 53
  }

  /** `Period` by granularity: "YYYY-Qn", "YYYY", "YYYY-Wnn", and "YYYY-MM" for "month" and anything else. */
  function PeriodOf(granularity: string, d: DateRow): string
  {
    if granularity == "month" then MonthLabel(d.year, d.month)
    else if granularity == "quarter" then QuarterLabel(d.year, d.quarter)
    else if granularity == "year" then IntToString(d.year)
    else if granularity == "week" then WeekLabel(d.year, d.week)
    else MonthLabel(d.year, d.month)
  }

  predicate Monthly(granularity: string)
  {
    granularity != "quarter" && granularity != "year" && granularity != "week"
  }

  /** Monthly periods name a (year, month) pair, and sort as strings in calendar order. */
  lemma MonthlyPeriods(granularity: string, d1: DateRow, d2: DateRow)
    requires Monthly(granularity) && CalendarDay(d1) && CalendarDay(d2)
    ensures PeriodOf(granularity, d1) == PeriodOf(granularity, d2) <==> d1.year == d2.year && d1.month == d2.month
    ensures StrLess(PeriodOf(granularity, d1), PeriodOf(granularity, d2)) <==>
      d1.year < d2.year || (d1.year == d2.year && d1.month < d2.month)
  {
    MonthLabelInjective(d1.year, d1.month, d2.year, d2.month);
    MonthLabelOrder(d1.year, d1.month, d2.year, d2.month);
  }

  /** Quarterly periods name a (year, quarter) pair, and sort as strings in calendar order. */
  lemma QuarterlyPeriods(d1: DateRow, d2: DateRow)
    requires CalendarDay(d1) && CalendarDay(d2)
    ensures PeriodOf("quarter", d1) == PeriodOf("quarter", d2) <==> d1.year == d2.year && d1.quarter == d2.quarter
    ensures StrLess(PeriodOf("quarter", d1), PeriodOf("quarter", d2)) <==>
      d1.year < d2.year || (d1.year == d2.year && d1.quarter < d2.quarter)
  {
    QuarterLabelInjective(d1.year, d1.quarter, d2.year, d2.quarter);
    QuarterLabelOrder(d1.year, d1.quarter, d2.year, d2.quarter);
  }

  /** Yearly periods name the year, and sort as strings in calendar order. */
  lemma YearlyPeriods(d1: DateRow, d2: DateRow)
    requires CalendarDay(d1) && CalendarDay(d2)
    ensures PeriodOf("year", d1) == PeriodOf("year", d2) <==> d1.year == d2.year
    ensures StrLess(PeriodOf("year", d1), PeriodOf("year", d2)) <==> d1.year < d2.year
  {
    if PeriodOf("year", d1) == PeriodOf("year", d2) {
      IntToStringInjective(d1.year, d2.year);
    }
    YearLabelOrder(d1.year, d2.year);
  }

  // ---------------------------------------------------------------------
  // The counted rows

  /** The column a view counts: CaseReason for "case_reason", Issue for any other view. */
  function ItemOf(view: string, w: WorkItem): Option<string>
  {
    if view == "case_reason" then w.caseReason else w.issue
  }

  /** A row is counted when it is dated and its item is neither null nor "". */
  predicate Counted(view: string, w: WorkItem)
  {
    w.createdOn.Some? && ItemOf(view, w).Some? && ItemOf(view, w).value != ""
  }

  /** One counted row: its period and its item. */
  datatype Entry = Entry(period: string, item: string)

  /** `CreatedOn.dt.date`, the key of the date dimension. */
  function CreatedDay(w: WorkItem): int
  {
    if w.createdOn.Some? then w.createdOn.value / 1440 else 0
  }

  function EntryOf(view: string, granularity: string, dim: int -> DateRow, w: WorkItem): Entry
  {
    Entry(PeriodOf(granularity, dim(CreatedDay(w))), if ItemOf(view, w).Some? then ItemOf(view, w).value else "")
  }

  /** The merge with the date dimension, the Period column and the null/"" item filter. */
  function Entries(items: seq<WorkItem>, view: string, granularity: string, dim: int -> DateRow): seq<Entry>
  {
    Map(Filter(items, (w: WorkItem) => Counted(view, w)), (w: WorkItem) => EntryOf(view, granularity, dim, w))
  }

  /**
   * One entry per counted row, in row order: the entries are exactly the
   * counted rows' (period, item) pairs, and no item is empty.
   */
  lemma EntriesSpec(items: seq<WorkItem>, view: string, granularity: string, dim: int -> DateRow)
    ensures var es := Entries(items, view, granularity, dim);
      |es| == |Filter(items, (w: WorkItem) => Counted(view, w))| &&
      (forall e :: e in es <==> exists w :: w in items && Counted(view, w) && EntryOf(view, granularity, dim, w) == e) &&
      (forall e :: e in es ==> e.item != "")
  {
    var kept := Filter(items, (w: WorkItem) => Counted(view, w));
    var es := Entries(items, view, granularity, dim);
    forall e | e in es
      ensures exists w :: w in items && Counted(view, w) && EntryOf(view, granularity, dim, w) == e
    {
      var i :| 0 <= i < |es| && es[i] == e;
      assert kept[i] in kept;
    }
    forall w | w in items && Counted(view, w)
      ensures EntryOf(view, granularity, dim, w) in es
    {
      var i :| 0 <= i < |kept| && kept[i] == w;
      assert es[i] == EntryOf(view, granularity, dim, w);
    }
  }

  // ---------------------------------------------------------------------
  // Ranked items (`value_counts().index`)

  function ItemName(e: Entry): string
  {
    e.item
  }

  /** The sort key of `value_counts`: more occurrences first. */
  function ByFrequency(names: seq<string>): string -> int
  {
    (x: string) => 0 - Count(names, x)
  }

  /** The distinct items, most frequent first. */
  function RankedItems(es: seq<Entry>): seq<string>
  {
    var names := Map(es, ItemName);
    SortBy(Distinct(names), ByFrequency(names))
  }

  /** An item occurs in the item column exactly when some entry carries it. */
  lemma ItemNames(es: seq<Entry>, x: string)
    ensures x in Map(es, ItemName) <==> exists e :: e in es && e.item == x
  {
    var names := Map(es, ItemName);
    if x in names {
      var i :| 0 <= i < |names| && names[i] == x;
      assert es[i] in es && es[i].item == x;
    }
    if e :| e in es && e.item == x {
      var i :| 0 <= i < |es| && es[i] == e;
      assert names[i] == x;
    }
  }

  /** Each item that occurs is listed once, and an item is never listed before a more frequent one. */
  lemma RankedItemsSpec(es: seq<Entry>)
    ensures var r, names := RankedItems(es), Map(es, ItemName);
      NoDuplicates(r) &&
      (forall x :: x in r <==> exists e :: e in es && e.item == x) &&
      (forall i, j :: 0 <= i < j < |r| ==> Count(names, r[i]) >= Count(names, r[j]))
  {
    var names := Map(es, ItemName);
    var d := Distinct(names);
    var r := RankedItems(es);
    PermutationNoDuplicates(d, r);
    forall x ensures x in r <==> exists e :: e in es && e.item == x {
      assert x in r <==> x in multiset(d);
      ItemNames(es, x);
    }
    forall i, j | 0 <= i < j < |r| ensures Count(names, r[i]) >= Count(names, r[j]) {
      assert ByFrequency(names)(r[i]) <= ByFrequency(names)(r[j]);
    }
  }

  // ---------------------------------------------------------------------
  // The chart frame (`groupby(['Period', col]).size()` sorted by Period, then Count descending)

  datatype ChartRow = ChartRow(period: string, item: string, count: nat)

  function PeriodName(e: Entry): string
  {
    e.period
  }

  /** The distinct periods, ascending. */
  function Periods(es: seq<Entry>): seq<string>
  {
    SortedUnique(Map(es, PeriodName))
  }

  /** The group of one (period, item) pair and its size. */
  function GroupRow(es: seq<Entry>, e: Entry): ChartRow
  {
    ChartRow(e.period, e.item, Count(es, e))
  }

  /** One group row per key, in key order. */
  function GroupRows(keys: seq<Entry>, es: seq<Entry>): (r: seq<ChartRow>)
    ensures |r| == |keys|
    ensures forall i :: 0 <= i < |keys| ==> r[i] == GroupRow(es, keys[i])
  {
    if |keys| == 0 then [] else [GroupRow(es, keys[0])] + GroupRows(keys[1..], es)
  }

  function PeriodRank(periods: seq<string>, p: string): nat
  {
    if p in periods then IndexOf(periods, p) else 0
  }

  /** A single integer key that orders by period rank, then by count descending. */
  function ChartKey(periods: seq<string>, n: nat): ChartRow -> int
  {
    (r: ChartRow) => Scaled(PeriodRank(periods, r.period), n + 1) - r.count
  }

  function ChartRows(es: seq<Entry>): seq<ChartRow>
  {
    SortBy(GroupRows(Distinct(es), es), ChartKey(Periods(es), |es|))
  }

  function RowCount(r: ChartRow): int
  {
    r.count
  }

  /** A chart row is a row of the unsorted groups. */
  lemma ChartRowGroup(es: seq<Entry>, r: ChartRow) returns (k: nat)
    requires r in ChartRows(es)
    ensures k < |Distinct(es)| && r == GroupRow(es, Distinct(es)[k])
  {
    var groups := GroupRows(Distinct(es), es);
    assert r in multiset(ChartRows(es));
    assert r in multiset(groups);
    k :| 0 <= k < |groups| && groups[k] == r;
  }

  /** Every chart row is a (period, item) pair that occurs, carrying its number of occurrences. */
  lemma ChartRowCounts(es: seq<Entry>, r: ChartRow)
    requires r in ChartRows(es)
    ensures Entry(r.period, r.item) in es && r.count == Count(es, Entry(r.period, r.item)) && 1 <= r.count <= |es|
  {
    var k := ChartRowGroup(es, r);
    var e := Distinct(es)[k];
    assert e in Distinct(es);
    assert Entry(r.period, r.item) == e;
  }

  /** Every (period, item) pair that occurs has its chart row. */
  lemma ChartCoversEntries(es: seq<Entry>, e: Entry)
    requires e in es
    ensures GroupRow(es, e) in ChartRows(es)
  {
    var d := Distinct(es);
    var groups := GroupRows(d, es);
    var i :| 0 <= i < |d| && d[i] == e;
    SortByKeeps(groups, ChartKey(Periods(es), |es|), i);
  }

  /** Group rows of repeat-free keys repeat no (period, item) pair. */
  lemma GroupRowsDistinct(keys: seq<Entry>, es: seq<Entry>)
    requires NoDuplicates(keys)
    ensures NoDuplicates(GroupRows(keys, es))
  {
    var g := GroupRows(keys, es);
    forall a, b | 0 <= a < b < |g| ensures g[a] != g[b] {
      assert keys[a] != keys[b];
    }
  }

  /** No (period, item) pair has two rows. */
  lemma ChartPairsDistinct(es: seq<Entry>, i: nat, j: nat)
    requires i < j < |ChartRows(es)|
    ensures var c := ChartRows(es); c[i].period != c[j].period || c[i].item != c[j].item
  {
    var c := ChartRows(es);
    GroupRowsDistinct(Distinct(es), es);
    PermutationNoDuplicates(GroupRows(Distinct(es), es), c);
    ChartRowCounts(es, c[i]);
    ChartRowCounts(es, c[j]);
  }

  /** The group sizes of a list of pairs add up to their summed occurrence counts. */
  lemma {:induction false} GroupRowsSum(keys: seq<Entry>, es: seq<Entry>)
    ensures Sum(Map(GroupRows(keys, es), RowCount)) == SumCounts(keys, es)
  {
    if |keys| > 0 {
      GroupRowsSum(keys[1..], es);
      var rows := GroupRows(keys, es);
      assert rows[1..] == GroupRows(keys[1..], es);
      assert Map(rows, RowCount)[1..] == Map(rows[1..], RowCount);
    }
  }

  /** Grouping loses no row: the counts add up to the number of counted rows. */
  lemma ChartTotal(es: seq<Entry>)
    ensures Sum(Map(ChartRows(es), RowCount)) == |es|
  {
    var d := Distinct(es);
    SumMapSort(GroupRows(d, es), ChartKey(Periods(es), |es|), RowCount);
    GroupRowsSum(d, es);
    GroupCountsSum(d, es);
  }

  /** The chart is empty exactly when no row was counted. */
  lemma ChartEmpty(es: seq<Entry>)
    ensures |ChartRows(es)| == 0 <==> |es| == 0
  {
    if |es| > 0 {
      ChartCoversEntries(es, es[0]);
    }
  }

  /** Rows ordered by the chart key are ordered by period rank first and count descending second. */
  lemma RankKeyOrder(periods: seq<string>, n: nat, a: ChartRow, b: ChartRow)
    requires 1 <= a.count <= n && 1 <= b.count <= n
    requires ChartKey(periods, n)(a) <= ChartKey(periods, n)(b)
    ensures var ra, rb := PeriodRank(periods, a.period), PeriodRank(periods, b.period);
      ra < rb || (ra == rb && a.count >= b.count)
  {
    ScaledGap(PeriodRank(periods, a.period), PeriodRank(periods, b.period), n + 1);
  }

  /** The period of an occurring pair is listed, at its rank. */
  lemma PeriodListed(es: seq<Entry>, p: string, x: string)
    requires Entry(p, x) in es
    ensures p in Periods(es) && Periods(es)[PeriodRank(Periods(es), p)] == p
  {
    var k :| 0 <= k < |es| && es[k] == Entry(p, x);
    assert Map(es, PeriodName)[k] == p;
  }

  /** The chart is sorted by period rank, then by count descending. */
  lemma ChartRanksOrdered(es: seq<Entry>, i: nat, j: nat)
    requires i < j < |ChartRows(es)|
    ensures var c, periods := ChartRows(es), Periods(es);
      var ri, rj := PeriodRank(periods, c[i].period), PeriodRank(periods, c[j].period);
      ri < rj || (ri == rj && c[i].count >= c[j].count)
  {
    var c, periods := ChartRows(es), Periods(es);
    assert ChartKey(periods, |es|)(c[i]) <= ChartKey(periods, |es|)(c[j]);
    ChartRowCounts(es, c[i]);
    ChartRowCounts(es, c[j]);
    RankKeyOrder(periods, |es|, c[i], c[j]);
  }

  /** Along the chart, periods ascend, and within a period the counts never increase. */
  lemma ChartOrdered(es: seq<Entry>, i: nat, j: nat)
    requires i < j < |ChartRows(es)|
    ensures var c := ChartRows(es);
      StrLess(c[i].period, c[j].period) || (c[i].period == c[j].period && c[i].count >= c[j].count)
  {
    var c, periods := ChartRows(es), Periods(es);
    ChartRanksOrdered(es, i, j);
    ChartRowCounts(es, c[i]);
    ChartRowCounts(es, c[j]);
    PeriodListed(es, c[i].period, c[i].item);
    PeriodListed(es, c[j].period, c[j].item);
    var ri, rj := PeriodRank(periods, c[i].period), PeriodRank(periods, c[j].period);
    if ri < rj {
      AscendingPairs(periods, ri, rj);
    }
  }

  // ---------------------------------------------------------------------
  // Top/bottom selection and the dropdown sync

  /** Which input fired the callback. */
  datatype Trigger = TopDropdown | BottomDropdown | OtherInput

  /** Only one of the top/bottom dropdowns is active: firing one with a number resets the other to "all". */
  function SyncCounts(trigger: Trigger, top: string, bottom: string): (r: (string, string))
  {
    if trigger == TopDropdown && top != "all" then (top, "all")
    else if trigger == BottomDropdown && bottom != "all" then ("all", bottom)
    else (top, bottom)
  }

  /**
   * The dropdown that fired keeps its value; after either fires, at least one
   * of the two reads "all"; any other trigger changes nothing; syncing again
   * changes nothing.
   */
  lemma SyncCountsSpec(trigger: Trigger, top: string, bottom: string)
    ensures var r := SyncCounts(trigger, top, bottom);
      (trigger == TopDropdown ==> r.0 == top) && (trigger == BottomDropdown ==> r.1 == bottom) &&
      (trigger != OtherInput ==> r.0 == "all" || r.1 == "all") &&
      (trigger == OtherInput ==> r == (top, bottom)) &&
      SyncCounts(trigger, r.0, r.1) == r
  {
  }

  /** `None if s == "all" else int(s)`, with 0 standing for None (both are falsy); None when `int` raises. */
  function Limit(s: string): Option<int>
  {
    if s == "all" then Some(0) else ParseInt(s)
  }

  /** `unique_items[:top_n]` if top_n, elif bottom_n `unique_items[-bottom_n:]`, else all. */
  function SelectItems(all: seq<string>, topN: int, bottomN: int): (r: seq<string>)
  {
    if topN != 0 then SliceTo(all, topN)
    else if bottomN != 0 then SliceLast(all, bottomN)
    else all
  }

  /**
   * The selection is a run of the ranked list, so every selected item is
   * ranked; a positive top count takes the first items, otherwise a positive
   * bottom count the last ones, and with neither every item is kept.
   */
  lemma SelectItemsSpec(all: seq<string>, topN: int, bottomN: int)
    ensures var r := SelectItems(all, topN, bottomN);
      (exists i, j :: 0 <= i <= j <= |all| && r == all[i..j]) &&
      (forall x :: x in r ==> x in all) &&
      (topN > 0 ==> r == Head(all, topN)) &&
      (topN == 0 && bottomN > 0 ==> r == Tail(all, bottomN)) &&
      (topN == 0 && bottomN == 0 ==> r == all)
  {
    var r := SelectItems(all, topN, bottomN);
    if topN != 0 {
      assert r == all[0..|r|];
    } else if bottomN != 0 {
      var k :| 0 <= k <= |all| && r == all[k..];
      assert r == all[k..|all|];
    } else {
      assert r == all[0..|all|];
    }
  }

  // ---------------------------------------------------------------------
  // The recent-trend insight

  datatype Trend = Rising | Falling | Stable

  /** Comparing an item's counts in the last two periods. */
  function TrendOf(prev: int, recent: int): (t: Trend)
    ensures t == Rising <==> recent > prev
    ensures t == Falling <==> recent < prev
    ensures t == Stable <==> recent == prev
  {
    if recent > prev then Rising else if recent < prev then Falling else Stable
  }

  /** An item's count in one period of the chart (`recent_counts.get(item, 0)`). */
  function CountIn(chart: seq<ChartRow>, p: string, x: string): int
  {
    Sum(Map(Filter(chart, (r: ChartRow) => r.period == p && r.item == x), RowCount))
  }

  /** An item's total over the chart (`groupby(col)['Count'].sum()`). */
  function ItemTotal(chart: seq<ChartRow>, x: string): int
  {
    Sum(Map(Filter(chart, (r: ChartRow) => r.item == x), RowCount))
  }

  function RowItem(r: ChartRow): string
  {
    r.item
  }

  function RowPeriod(r: ChartRow): string
  {
    r.period
  }

  /** The three items with the largest totals. */
  function TopItems(chart: seq<ChartRow>): (r: seq<string>)
    ensures |r| <= 3
  {
    Head(SortBy(Distinct(Map(chart, RowItem)), ByTotal(chart)), 3)
  }

  function ByTotal(chart: seq<ChartRow>): string -> int
  {
    (x: string) => -ItemTotal(chart, x)
  }

  /**
   * The top items occur in the chart, once each, and no item of the chart
   * left out has a larger total than one listed.
   */
  lemma TopItemsSpec(chart: seq<ChartRow>, x: string, y: string)
    requires x in TopItems(chart) && y in Map(chart, RowItem) && y !in TopItems(chart)
    ensures x in Map(chart, RowItem)
    ensures NoDuplicates(TopItems(chart))
    ensures ItemTotal(chart, x) >= ItemTotal(chart, y)
  {
    HeadOfSorted(Distinct(Map(chart, RowItem)), ByTotal(chart), 3, x, y);
  }

  /** Of a repeat-free list sorted by key, the first `n` hold no repeat and no key above one left out. */
  lemma HeadOfSorted<T>(xs: seq<T>, key: T -> int, n: nat, x: T, y: T)
    requires NoDuplicates(xs)
    requires x in Head(SortBy(xs, key), n) && y in xs && y !in Head(SortBy(xs, key), n)
    ensures x in xs && NoDuplicates(Head(SortBy(xs, key), n)) && key(x) <= key(y)
  {
    var s := SortBy(xs, key);
    var top := Head(s, n);
    PermutationNoDuplicates(xs, s);
    assert x in multiset(s);
    var i :| 0 <= i < |top| && top[i] == x;
    assert y in multiset(xs);
    var j :| 0 <= j < |s| && s[j] == y;
    assert j >= |top|;
    assert key(s[i]) <= key(s[j]);
  }

  datatype Change = Change(item: string, trend: Trend, prev: int, recent: int)

  /** Each item's counts in the two periods compared, and the resulting trend. */
  function Changes(xs: seq<string>, chart: seq<ChartRow>, prevPeriod: string, recentPeriod: string): (r: seq<Change>)
    ensures |r| == |xs|
    ensures forall i :: 0 <= i < |xs| ==>
      r[i].item == xs[i] && r[i].prev == CountIn(chart, prevPeriod, xs[i]) &&
      r[i].recent == CountIn(chart, recentPeriod, xs[i]) && r[i].trend == TrendOf(r[i].prev, r[i].recent)
  {
    if |xs| == 0 then []
    else
      var prev, recent := CountIn(chart, prevPeriod, xs[0]), CountIn(chart, recentPeriod, xs[0]);
      [Change(xs[0], TrendOf(prev, recent), prev, recent)] + Changes(xs[1..], chart, prevPeriod, recentPeriod)
  }

  /** The distinct periods of the chart, ascending. */
  function ChartPeriods(chart: seq<ChartRow>): seq<string>
  {
    SortedUnique(Map(chart, RowPeriod))
  }

  /** None ("not enough data") with fewer than two periods; otherwise one change per top item between the last two periods. */
  function RecentTrend(chart: seq<ChartRow>): (r: Option<seq<Change>>)
    ensures r.None? <==> |ChartPeriods(chart)| < 2
  {
    var periods := ChartPeriods(chart);
    if |periods| < 2 then None
    else Some(Changes(TopItems(chart), chart, periods[|periods| - 2], periods[|periods| - 1]))
  }

  /** In an ascending list, every value other than the last two sorts before both. */
  lemma LastTwoLatest(periods: seq<string>, p: string)
    requires StrictlyAscending(periods) && |periods| >= 2
    requires p in periods && p != periods[|periods| - 1] && p != periods[|periods| - 2]
    ensures StrLess(p, periods[|periods| - 2]) && StrLess(periods[|periods| - 2], periods[|periods| - 1])
  {
    var n := |periods|;
    AscendingPairs(periods, n - 2, n - 1);
    var m :| 0 <= m < n && periods[m] == p;
    AscendingPairs(periods, m, n - 2);
  }

  /** Every row's period is among the chart's periods. */
  lemma RowPeriodListed(chart: seq<ChartRow>, r: ChartRow)
    requires r in chart
    ensures r.period in ChartPeriods(chart)
  {
    var k :| 0 <= k < |chart| && chart[k] == r;
    assert Map(chart, RowPeriod)[k] == r.period;
  }

  /**
   * The two periods compared are the latest two: the later is above the
   * earlier, and every other period of the chart sorts before both; each
   * change is one of the top items, with its counts in those two periods.
   */
  lemma RecentTrendPeriods(chart: seq<ChartRow>)
    requires |ChartPeriods(chart)| >= 2
    ensures var periods := ChartPeriods(chart);
      var recentPeriod, prevPeriod := periods[|periods| - 1], periods[|periods| - 2];
      StrLess(prevPeriod, recentPeriod) &&
      (forall r :: r in chart && r.period != recentPeriod && r.period != prevPeriod ==> StrLess(r.period, prevPeriod)) &&
      (forall c :: c in RecentTrend(chart).value ==>
        (c.item in TopItems(chart) && c.prev == CountIn(chart, prevPeriod, c.item) &&
         c.recent == CountIn(chart, recentPeriod, c.item)))
  {
    var periods := ChartPeriods(chart);
    var n := |periods|;
    AscendingPairs(periods, n - 2, n - 1);
    forall r | r in chart && r.period != periods[n - 1] && r.period != periods[n - 2]
      ensures StrLess(r.period, periods[n - 2])
    {
      RowPeriodListed(chart, r);
      LastTwoLatest(periods, r.period);
    }
    var top := TopItems(chart);
    var cs := RecentTrend(chart).value;
    forall c | c in cs
      ensures c.item in top && c.prev == CountIn(chart, periods[n - 2], c.item) && c.recent == CountIn(chart, periods[n - 1], c.item)
    {
      var i :| 0 <= i < |cs| && cs[i] == c;
      assert top[i] in top;
    }
  }

  // ---------------------------------------------------------------------
  // The chart callback

  /** Dash outputs: the chart rows drawn, the insight and the two dropdown values; or a raised exception. */
  datatype Outcome =
    | Raised
    | Shown(chart: seq<ChartRow>, trend: Option<seq<Change>>, top: string, bottom: string)

  /** The chart rows of the selected items. */
  function SelectedChart(chart: seq<ChartRow>, selected: seq<string>): seq<ChartRow>
  {
    Filter(chart, (r: ChartRow) => r.item in selected)
  }

  /**
   * The callback's body after the dropdown sync, as written: `selected_items`
   * is only bound inside the non-empty branch, so an empty chart frame
   * raises when the figure is built; a count that `int` cannot read raises.
   */
  function ChartPanelAsWritten(es: seq<Entry>, top: string, bottom: string): Outcome
  {
    var chart := ChartRows(es);
    if |chart| == 0 then Raised
    else if Limit(top).None? || Limit(bottom).None? then Raised
    else
      var shown := SelectedChart(chart, SelectItems(RankedItems(es), Limit(top).value, Limit(bottom).value));
      Shown(shown, RecentTrend(shown), top, bottom)
  }

  /** The same with the empty case answered by the "no data" chart and insight, as the chart builder intends. */
  function ChartPanel(es: seq<Entry>, top: string, bottom: string): Outcome
  {
    if |ChartRows(es)| == 0 then Shown([], None, top, bottom)
    else ChartPanelAsWritten(es, top, bottom)
  }

  /** `update_trends_case_reasons_issues_chart` as written: sync the dropdowns, filter, count, draw. */
  function TrendsPanelAsWritten(items: seq<WorkItem>, stored: Option<Store>, view: string, granularity: string,
                                dim: int -> DateRow, trigger: Trigger, top: string, bottom: string): Outcome
  {
    var counts := SyncCounts(trigger, top, bottom);
    ChartPanelAsWritten(Entries(SourceFilter(items, stored), view, granularity, dim), counts.0, counts.1)
  }

  /** The callback with the intended empty case. */
  function TrendsPanel(items: seq<WorkItem>, stored: Option<Store>, view: string, granularity: string,
                       dim: int -> DateRow, trigger: Trigger, top: string, bottom: string): Outcome
  {
    var counts := SyncCounts(trigger, top, bottom);
    ChartPanel(Entries(SourceFilter(items, stored), view, granularity, dim), counts.0, counts.1)
  }

  /** As written, a filter that leaves no counted row makes the callback raise. */
  lemma NoRowsRaisesAsWritten(items: seq<WorkItem>, stored: Option<Store>, view: string, granularity: string,
                              dim: int -> DateRow, trigger: Trigger, top: string, bottom: string)
    requires Filter(SourceFilter(items, stored), (w: WorkItem) => Counted(view, w)) == []
    ensures TrendsPanelAsWritten(items, stored, view, granularity, dim, trigger, top, bottom) == Raised
  {
    ChartEmpty(Entries(SourceFilter(items, stored), view, granularity, dim));
  }

  /** An empty ticket table is one such input. */
  lemma EmptyTableRaisesAsWritten(stored: Option<Store>, view: string, granularity: string, dim: int -> DateRow)
    ensures TrendsPanelAsWritten([], stored, view, granularity, dim, OtherInput, "all", "all") == Raised
  {
    NoRowsRaisesAsWritten([], stored, view, granularity, dim, OtherInput, "all", "all");
  }

  /**
   * The intended panel never raises on dropdown values "all" or numbers;
   * with no counted row it shows the empty chart and no trend, and
   * otherwise exactly the rows of the selected items.
   */
  lemma ChartPanelSpec(es: seq<Entry>, top: string, bottom: string)
    requires Limit(top).Some? && Limit(bottom).Some?
    ensures var out := ChartPanel(es, top, bottom);
      out.Shown? && out.top == top && out.bottom == bottom &&
      (|es| > 0 ==> out.chart == SelectedChart(ChartRows(es),
          SelectItems(RankedItems(es), Limit(top).value, Limit(bottom).value))) &&
      (|es| == 0 ==> out.chart == [] && out.trend.None?)
  {
    ChartEmpty(es);
  }

  /** The intended callback returns the synced dropdown values with the panel of the filtered rows. */
  lemma TrendsPanelSpec(items: seq<WorkItem>, stored: Option<Store>, view: string, granularity: string,
                        dim: int -> DateRow, trigger: Trigger, top: string, bottom: string)
    requires Limit(top).Some? && Limit(bottom).Some?
    ensures var out := TrendsPanel(items, stored, view, granularity, dim, trigger, top, bottom);
      var counts := SyncCounts(trigger, top, bottom);
      out.Shown? && out.top == counts.0 && out.bottom == counts.1
  {
    var counts := SyncCounts(trigger, top, bottom);
    assert counts.0 == top || counts.0 == "all";
    assert counts.1 == bottom || counts.1 == "all";
    ChartPanelSpec(Entries(SourceFilter(items, stored), view, granularity, dim), counts.0, counts.1);
  }
}
