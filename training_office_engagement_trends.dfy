/**
 * The office engagement trends chart, its insights and the callback that
 * ties the panel together.
 */
module OfficeEngagementTrends {
  import opened Common
  import opened TrainingData
  import opened GroupedCells
  import opened TrainingOfficeEngagement
  import opened OfficeEngagementSeries

  // ---------------------------------------------------------------------
  // The trend chart (`create_engagement_trend_chart`)

  /**
   * The column the lines are drawn by: the AOR at the AOR level, otherwise
   * the office label where the series carries one, else the office code.
   */
  function ChartGroup(g: Grouping): Point -> string
  {
    (p: Point) =>
      if g == AorLevel then p.code
      else match p.officeLabel
        case Some(shown) => shown
        case None => p.code
  }

  function ValueOfPoint(p: Point): real
  {
    p.value
  }

  /** The largest value (`max()`). */
  function Largest(xs: seq<real>): (r: real)
    requires |xs| > 0
    ensures r in xs
    ensures forall x :: x in xs ==> x <= r
  {
    if |xs| == 1 then xs[0]
    else
      var rest := Largest(xs[1..]);
      assert forall x :: x in xs ==> x == xs[0] || x in xs[1..];
      if xs[0] >= rest then xs[0] else rest
  }

  datatype Chart =
    | NoDataChart
    | TrendChart(title: string, yTitle: string, lines: seq<string>, points: seq<Point>,
                 average: Option<real>, target: Option<real>)

  const ChartTitlePrefix: string := "Training Engagement Trends: "

  /** The dashed average line: asked for, and more than one point. */
  function AverageLine(values: seq<real>, benchmarks: string): Option<real>
  {
    if (benchmarks == "average" || benchmarks == "both") && |values| > 1 then Some(Mean(values)) else None
  }

  /** The dotted target line at 80% of the largest value. */
  function TargetLine(values: seq<real>, benchmarks: string): Option<real>
  {
    if (benchmarks == "target" || benchmarks == "both") && |values| > 0 then Some(Largest(values) * 0.8) else None
  }

  /** One line per group in order of appearance, with the benchmark lines asked for. */
  function ChartOf(series: Series, g: Grouping, benchmarks: string): Chart
  {
    if series.NoSeries? || |series.points| == 0 then NoDataChart
    else
      var values := Map(series.points, ValueOfPoint);
      TrendChart(ChartTitlePrefix + series.metricName, series.metricName,
        Distinct(Map(series.points, ChartGroup(g))), series.points,
        AverageLine(values, benchmarks), TargetLine(values, benchmarks))
  }

  /**
   * An empty series draws the placeholder; otherwise every group has
   * exactly one line, the average line lies between the smallest and the
   * largest value, and the target line is 80% of the largest value.
   */
  lemma ChartSpec(series: Series, g: Grouping, benchmarks: string)
    ensures var c := ChartOf(series, g, benchmarks);
      (c.NoDataChart? <==> series.NoSeries? || |series.points| == 0)
      && (c.TrendChart? ==>
        c.title == ChartTitlePrefix + series.metricName
        && NoDuplicates(c.lines)
        && (forall p :: p in series.points ==> ChartGroup(g)(p) in c.lines)
        && (forall x :: x in c.lines ==> exists p :: p in series.points && ChartGroup(g)(p) == x)
        && (c.average.Some? <==> (benchmarks == "average" || benchmarks == "both") && |series.points| > 1)
        && (c.target.Some? <==> benchmarks == "target" || benchmarks == "both")
        && (c.average.Some? ==> exists k :: 0 <= k < |series.points| && series.points[k].value <= c.average.value)
        && (c.average.Some? ==> forall p :: p in series.points ==> c.average.value <= Largest(Map(series.points, ValueOfPoint)))
        && (c.target.Some? ==> c.target.value == Largest(Map(series.points, ValueOfPoint)) * 0.8))
  {
    var c := ChartOf(series, g, benchmarks);
    if c.TrendChart? {
      var values := Map(series.points, ValueOfPoint);
      forall p | p in series.points ensures ChartGroup(g)(p) in c.lines {
        MapMember(series.points, ChartGroup(g), p);
      }
      forall x | x in c.lines ensures exists p :: p in series.points && ChartGroup(g)(p) == x {
        var i :| 0 <= i < |series.points| && Map(series.points, ChartGroup(g))[i] == x;
        assert series.points[i] in series.points;
      }
      if c.average.Some? {
        var k := SomeAtMostMean(values);
        assert series.points[k].value <= c.average.value;
        assert forall i :: 0 <= i < |values| ==> values[i] <= Largest(values) by {
          forall i | 0 <= i < |values| ensures values[i] <= Largest(values) {
            assert values[i] in values;
          }
        }
        MeanAtMost(values, Largest(values));
      }
    }
  }

  // ---------------------------------------------------------------------
  // The insights (`generate_engagement_insights`)

  datatype Insight =
    | Overview(entities: nat, entityType: string, average: real, metric: string)
    | CurrentPerformance(entities: nat, entityType: string, average: real, metric: string)
    | TopPerformer(name: string, value: real, metric: string)
    | FastestGrowing(name: string, growth: real)

  /** No series gives the "insufficient data" message; otherwise the insights, possibly none. */
  datatype InsightsView = NoInsights | Insights(items: seq<Insight>)

  function EntityType(g: Grouping): string
  {
    if g == AorLevel then "AOR" else "Office"
  }

  function InGroup(g: Grouping, x: string): Point -> bool
  {
    (p: Point) => ChartGroup(g)(p) == x
  }

  /** The values of one group's points. */
  function GroupValues(points: seq<Point>, g: Grouping, x: string): seq<real>
  {
    Map(Filter(points, InGroup(g, x)), ValueOfPoint)
  }

  function GroupEntry(g: Grouping): Point -> Entry
  {
    (p: Point) => Entry(ChartGroup(g)(p), "", p.value)
  }

  /** `groupby(group)['MetricValue'].mean()`: one mean per group, ascending by group. */
  function GroupMeans(points: seq<Point>, g: Grouping): seq<Entry>
  {
    GroupBy(Map(points, GroupEntry(g)), Averaged)
  }

  /** `idxmax()`: the position of the first largest value. */
  function FirstLargestAt(xs: seq<real>): (i: nat)
    requires |xs| > 0
    ensures i < |xs|
    ensures forall k :: 0 <= k < |xs| ==> xs[k] <= xs[i]
    ensures forall k :: 0 <= k < i ==> xs[k] < xs[i]
  {
    if |xs| == 1 then 0
    else
      var j := FirstLargestAt(xs[1..]);
      if xs[0] >= xs[1 + j] then 0 else 1 + j
  }

  function PeriodOf(p: Point): string
  {
    p.period
  }

  /** `sort_values('TimeLabel')`: rows compared by period. */
  function PeriodLe(p: Point, q: Point): bool
  {
    !StrLess(q.period, p.period)
  }

  lemma PeriodLeTotal()
    ensures TotalPreorder(PeriodLe)
  {
    forall a: Point, b: Point ensures PeriodLe(a, b) || PeriodLe(b, a) {
      if StrLess(b.period, a.period) {
        StrLessAsymmetric(b.period, a.period);
      }
    }
    forall a: Point, b: Point, c: Point | PeriodLe(a, b) && PeriodLe(b, c) ensures PeriodLe(a, c) {
      if a.period != b.period && b.period != c.period {
        StrLessTotal(a.period, b.period);
        StrLessTotal(b.period, c.period);
        StrLessTransitive(a.period, b.period, c.period);
        StrLessAsymmetric(a.period, c.period);
      }
    }
  }

  /** One group's points in period order. */
  function EntityRows(points: seq<Point>, g: Grouping, x: string): (r: seq<Point>)
    ensures multiset(r) == multiset(Filter(points, InGroup(g, x)))
    ensures SortedWith(r, PeriodLe)
  {
    PeriodLeTotal();
    SortWith(Filter(points, InGroup(g, x)), PeriodLe)
  }

  datatype Trend = Trend(entity: string, growth: real, latest: real)

  /** Growth from the first to the last value, as a percentage of the first. */
  function Growth(first: real, last: real): real
    requires first > 0.0
  {
    (last - first) / first * 100.0
  }

  /** A group's trend: more than one point and a positive first value. */
  function TrendOf(points: seq<Point>, g: Grouping, x: string): Option<Trend>
  {
    var rows := EntityRows(points, g, x);
    if |rows| > 1 && rows[0].value > 0.0 then Some(Trend(x, Growth(rows[0].value, rows[|rows| - 1].value), rows[|rows| - 1].value))
    else None
  }

  /** The trends of these groups, in their order. */
  function TrendsOf(entities: seq<string>, points: seq<Point>, g: Grouping): seq<Trend>
  {
    if |entities| == 0 then []
    else
      var rest := TrendsOf(entities[..|entities| - 1], points, g);
      match TrendOf(points, g, entities[|entities| - 1])
        case Some(t) => rest + [t]
        case None => rest
  }

  lemma TrendsStep(entities: seq<string>, i: nat, points: seq<Point>, g: Grouping)
    requires i < |entities|
    ensures TrendsOf(entities[..i + 1], points, g) == match TrendOf(points, g, entities[i])
      case Some(t) => TrendsOf(entities[..i], points, g) + [t]
      case None => TrendsOf(entities[..i], points, g)
  {
    assert entities[..i + 1][..i] == entities[..i];
  }

  /**
   * The loop over the groups (`unique()`, in order of appearance),
   * collecting the trends of those that have one.
   */
  method Trends(entities: seq<string>, points: seq<Point>, g: Grouping) returns (trends: seq<Trend>)
    ensures trends == TrendsOf(entities, points, g)
  {
    trends := [];
    var i := 0;
    while i < |entities|
      invariant 0 <= i <= |entities|
      invariant trends == TrendsOf(entities[..i], points, g)
    {
      var x := entities[i];
      var rows := EntityRows(points, g, x);
      TrendsStep(entities, i, points, g);
      if |rows| > 1 {
        var first, last := rows[0].value, rows[|rows| - 1].value;
        if first > 0.0 {
          trends := trends + [Trend(x, Growth(first, last), last)];
        }
      }
      i := i + 1;
    }
    assert entities[..i] == entities;
  }

  function GrowthOf(t: Trend): real
  {
    t.growth
  }

  /**
   * One message when the series is empty; otherwise, over several periods,
   * the overview, the top performer and the fastest grower (nothing when no
   * group has a trend), and over one period the current performance and the
   * top performer.
   */
  /** The group with the highest mean, the first of them in group order (`idxmax()`). */
  function TopOf(points: seq<Point>, g: Grouping): Entry
    requires |points| > 0
  {
    var means := GroupMeans(points, g);
    GroupByNonEmpty(Map(points, GroupEntry(g)), Averaged);
    means[FirstLargestAt(Map(means, ValueOfEntry))]
  }

  /** The first trend with the highest growth (`idxmax()`). */
  function FastestOf(trends: seq<Trend>): Trend
    requires |trends| > 0
  {
    trends[FirstLargestAt(Map(trends, GrowthOf))]
  }

  /**
   * The items: over several periods the overview, the top performer and the
   * fastest grower, or none when no group has a trend; over one period the
   * current performance and the top performer.
   */
  function Items(entities: nat, entityType: string, average: real, metric: string, top: Entry,
                 several: bool, trends: seq<Trend>): seq<Insight>
  {
    var leader := TopPerformer(top.major, top.value, metric);
    if several then
      if |trends| == 0 then []
      else
        var fastest := FastestOf(trends);
        [Overview(entities, entityType, average, metric), leader, FastestGrowing(fastest.entity, fastest.growth)]
    else
      [CurrentPerformance(entities, entityType, average, metric), leader]
  }

  function InsightsOf(series: Series, g: Grouping): InsightsView
  {
    if series.NoSeries? || |series.points| == 0 then NoInsights
    else
      var points := series.points;
      var entities := Distinct(Map(points, ChartGroup(g)));
      Insights(Items(|entities|, EntityType(g), Mean(Map(points, ValueOfPoint)), Lower(series.metricName),
        TopOf(points, g), |Distinct(Map(points, PeriodOf))| > 1, TrendsOf(entities, points, g)))
  }

  /**
   * Two items over one period, three over several, none when no group has
   * a trend; the top performer second and the fastest grower third.
   */
  lemma ItemsShape(entities: nat, entityType: string, average: real, metric: string, top: Entry,
                   several: bool, trends: seq<Trend>)
    ensures var items := Items(entities, entityType, average, metric, top, several, trends);
      (|items| == 0 <==> several && |trends| == 0)
      && (|items| > 0 ==> |items| == (if several then 3 else 2) && items[1] == TopPerformer(top.major, top.value, metric))
      && (|items| == 3 ==> |trends| > 0 && items[2] == FastestGrowing(FastestOf(trends).entity, FastestOf(trends).growth))
  {
  }

  /** The mean of one group's values, which the grouping holds as its row. */
  lemma GroupMeanRow(points: seq<Point>, g: Grouping, k: nat)
    requires k < |GroupMeans(points, g)|
    ensures var e := GroupMeans(points, g)[k];
      e.minor == "" && |GroupValues(points, g, e.major)| > 0 && e.value == Mean(GroupValues(points, g, e.major))
  {
    var es := Map(points, GroupEntry(g));
    var e := GroupMeans(points, g)[k];
    GroupByCell(es, Averaged, k);
    var from := GroupBySource(es, Averaged, k);
    var j :| 0 <= j < |points| && es[j] == from;
    FilterAfterMap(points, GroupEntry(g), AtKeys(e.major, e.minor), ValueOfEntry, InGroup(g, e.major), ValueOfPoint);
  }

  /**
   * Every group's mean is at most the top performer's, and a group before
   * it in group order has a smaller one.
   */
  lemma GroupMeanAtMostTop(points: seq<Point>, g: Grouping, p: Point)
    requires p in points
    ensures var x := ChartGroup(g)(p);
      var top := TopOf(points, g);
      |GroupValues(points, g, x)| > 0 && Mean(GroupValues(points, g, x)) <= top.value
      && (StrLess(x, top.major) ==> Mean(GroupValues(points, g, x)) < top.value)
  {
    var es := Map(points, GroupEntry(g));
    var means := GroupMeans(points, g);
    GroupByNonEmpty(es, Averaged);
    var values := Map(means, ValueOfEntry);
    var i := FirstLargestAt(values);
    MapMember(points, GroupEntry(g), p);
    var k := GroupByRow(es, Averaged, GroupEntry(g)(p));
    GroupMeanRow(points, g, k);
    GroupMeanRow(points, g, i);
    assert values[k] <= values[i];
    var x := ChartGroup(g)(p);
    if StrLess(x, means[i].major) {
      if k > i {
        GroupBySpec(es, Averaged);
        KeysAscendingPairs(means, i, k);
        StrLessIrreflexive(x);
        StrLessAsymmetric(x, means[i].major);
        assert false;
      }
      StrLessIrreflexive(x);
      assert k != i;
      assert values[k] < values[i];
    }
  }

  /**
   * The top performer is a group of the series holding its mean, and no
   * group has a higher mean.
   */
  lemma TopPerformerSpec(points: seq<Point>, g: Grouping)
    requires |points| > 0
    ensures var top := TopOf(points, g);
      top.major in Map(points, ChartGroup(g))
      && |GroupValues(points, g, top.major)| > 0 && top.value == Mean(GroupValues(points, g, top.major))
      && forall p :: p in points ==>
        |GroupValues(points, g, ChartGroup(g)(p))| > 0 && Mean(GroupValues(points, g, ChartGroup(g)(p))) <= top.value
  {
    var es := Map(points, GroupEntry(g));
    GroupByNonEmpty(es, Averaged);
    var i := FirstLargestAt(Map(GroupMeans(points, g), ValueOfEntry));
    GroupMeanRow(points, g, i);
    var from := GroupBySource(es, Averaged, i);
    var j :| 0 <= j < |points| && es[j] == from;
    assert Map(points, ChartGroup(g))[j] == from.major;
    forall p | p in points
      ensures |GroupValues(points, g, ChartGroup(g)(p))| > 0 && Mean(GroupValues(points, g, ChartGroup(g)(p))) <= TopOf(points, g).value
    {
      GroupMeanAtMostTop(points, g, p);
    }
  }

  /** The fastest grower's growth is the highest, and every earlier trend's is lower. */
  lemma FastestSpec(trends: seq<Trend>)
    requires |trends| > 0
    ensures FastestOf(trends) in trends
    ensures forall t :: t in trends ==> t.growth <= FastestOf(trends).growth
  {
    var i := FirstLargestAt(Map(trends, GrowthOf));
    forall t | t in trends ensures t.growth <= FastestOf(trends).growth {
      var k :| 0 <= k < |trends| && trends[k] == t;
      assert Map(trends, GrowthOf)[k] <= Map(trends, GrowthOf)[i];
    }
  }

  /**
   * A trend's group has more than one point and a positive first value, and
   * its growth runs from its first point to its last in period order.
   */
  predicate TrendSound(points: seq<Point>, g: Grouping, t: Trend)
  {
    var rows := EntityRows(points, g, t.entity);
    |rows| > 1 && rows[0].value > 0.0
    && t.growth == Growth(rows[0].value, rows[|rows| - 1].value) && t.latest == rows[|rows| - 1].value
  }

  lemma TrendOfSound(points: seq<Point>, g: Grouping, x: string)
    ensures TrendOf(points, g, x).Some? ==>
      TrendOf(points, g, x).value.entity == x && TrendSound(points, g, TrendOf(points, g, x).value)
  {
  }

  /** Each trend belongs to one of the groups and is sound. */
  lemma {:induction false} TrendsSpec(entities: seq<string>, points: seq<Point>, g: Grouping)
    ensures forall t :: t in TrendsOf(entities, points, g) ==> t.entity in entities && TrendSound(points, g, t)
  {
    if |entities| > 0 {
      var init := entities[..|entities| - 1];
      var x := entities[|entities| - 1];
      TrendsSpec(init, points, g);
      TrendOfSound(points, g, x);
      assert forall y :: y in init ==> y in entities;
    }
  }

  /** Growth is positive exactly when the last value is above the first, and negative when below. */
  lemma GrowthSign(first: real, last: real)
    requires first > 0.0
    ensures Growth(first, last) > 0.0 <==> last > first
    ensures Growth(first, last) < 0.0 <==> last < first
  {
    var q := (last - first) / first;
    assert q * first == last - first;
  }

  /** The parts the insights are made of. */
  lemma InsightsParts(series: Series, g: Grouping)
    requires series.Series? && |series.points| > 0
    ensures var points := series.points;
      var entities := Distinct(Map(points, ChartGroup(g)));
      InsightsOf(series, g) == Insights(Items(|entities|, EntityType(g), Mean(Map(points, ValueOfPoint)),
        Lower(series.metricName), TopOf(points, g), |Distinct(Map(points, PeriodOf))| > 1, TrendsOf(entities, points, g)))
  {
  }

  /**
   * The second insight names a group of the series with the highest mean,
   * and quotes that mean.
   */
  lemma InsightsLeader(series: Series, g: Grouping)
    requires InsightsOf(series, g).Insights? && |InsightsOf(series, g).items| > 1
    ensures var points, leader := series.points, InsightsOf(series, g).items[1];
      leader.TopPerformer? && leader.name in Map(points, ChartGroup(g))
      && |GroupValues(points, g, leader.name)| > 0 && leader.value == Mean(GroupValues(points, g, leader.name))
      && forall p :: p in points ==>
        |GroupValues(points, g, ChartGroup(g)(p))| > 0 && Mean(GroupValues(points, g, ChartGroup(g)(p))) <= leader.value
  {
    var points := series.points;
    var entities := Distinct(Map(points, ChartGroup(g)));
    InsightsParts(series, g);
    ItemsShape(|entities|, EntityType(g), Mean(Map(points, ValueOfPoint)), Lower(series.metricName),
      TopOf(points, g), |Distinct(Map(points, PeriodOf))| > 1, TrendsOf(entities, points, g));
    TopPerformerSpec(points, g);
  }

  /** The third insight names a group with a trend, quoting the highest growth of all trends. */
  lemma InsightsFastest(series: Series, g: Grouping)
    requires InsightsOf(series, g).Insights? && |InsightsOf(series, g).items| == 3
    ensures var points, fastest := series.points, InsightsOf(series, g).items[2];
      var trends := TrendsOf(Distinct(Map(points, ChartGroup(g))), points, g);
      fastest.FastestGrowing?
      && (exists t :: t in trends && t.entity == fastest.name && t.growth == fastest.growth && TrendSound(points, g, t))
      && forall t :: t in trends ==> t.growth <= fastest.growth
  {
    var points := series.points;
    var entities := Distinct(Map(points, ChartGroup(g)));
    var trends := TrendsOf(entities, points, g);
    InsightsParts(series, g);
    ItemsShape(|entities|, EntityType(g), Mean(Map(points, ValueOfPoint)), Lower(series.metricName),
      TopOf(points, g), |Distinct(Map(points, PeriodOf))| > 1, trends);
    FastestSpec(trends);
    TrendsSpec(entities, points, g);
  }

  // ---------------------------------------------------------------------
  // `update_office_engagement_trends`

  datatype Panel = Panel(chart: Chart, insights: InsightsView)

  /** Draw the chart and write the insights from the same series. */
  function PanelFrom(series: Series, g: Grouping, benchmarks: string): Panel
  {
    Panel(ChartOf(series, g, benchmarks), InsightsOf(series, g))
  }

  /** Prepare the filtered data with the corrected preparation, then draw it. */
  function PanelOf(f: Filtered, level: string, granularity: string, key: string, benchmarks: string): Panel
  {
    PanelFrom(Prepare(f, level, granularity, key), GroupingOf(level), benchmarks)
  }

  /**
   * The callback as written: the filters read the store with the quote-only
   * reader, and the preparation blanks the ranked attendance-rate series.
   */
  function UpdatePanel(b: Base, stored: Option<Store>, level: string, granularity: string, key: string,
                       benchmarks: string, coerce: string -> Option<DateTime>): Panel
  {
    PanelFrom(PrepareAsWritten(ApplyFilters(b, stored, QuoteOnly, coerce), level, granularity, key), GroupingOf(level), benchmarks)
  }

  /** The callback as evidently intended: the corrected preparation, for either reader. */
  function UpdatePanelIntended(b: Base, stored: Option<Store>, r: ListReader, level: string, granularity: string, key: string,
                               benchmarks: string, coerce: string -> Option<DateTime>): Panel
  {
    PanelOf(ApplyFilters(b, stored, r, coerce), level, granularity, key, benchmarks)
  }

  /**
   * For a series that is never empty when present, the chart and the
   * insights are empty together, and the top performer has a line.
   */
  lemma PanelAgrees(series: Series, g: Grouping, benchmarks: string)
    requires series.Series? ==> |series.points| > 0
    ensures ChartOf(series, g, benchmarks).NoDataChart? <==> series.NoSeries?
    ensures InsightsOf(series, g).NoInsights? <==> series.NoSeries?
    ensures InsightsOf(series, g).Insights? && |InsightsOf(series, g).items| > 1 ==>
      ChartOf(series, g, benchmarks).TrendChart? && InsightsOf(series, g).items[1].TopPerformer?
      && InsightsOf(series, g).items[1].name in ChartOf(series, g, benchmarks).lines
  {
    if InsightsOf(series, g).Insights? && |InsightsOf(series, g).items| > 1 {
      InsightsLeader(series, g);
    }
  }

  lemma PanelOfConsistent(f: Filtered, level: string, granularity: string, key: string, benchmarks: string)
    ensures var r := PanelOf(f, level, granularity, key, benchmarks);
      (r.chart.NoDataChart? <==> r.insights.NoInsights?)
      && (r.chart.NoDataChart? <==> |f.attendance| == 0 || (!FromAttendance(MetricOf(key)) && |f.members| == 0))
      && (r.insights.Insights? && |r.insights.items| > 1 ==>
        r.chart.TrendChart? && r.insights.items[1].TopPerformer? && r.insights.items[1].name in r.chart.lines)
  {
    PrepareDrawn(f, level, granularity, key);
    PanelAgrees(Prepare(f, level, granularity, key), GroupingOf(level), benchmarks);
  }

  /**
   * The intended callback's chart and insights are empty together, exactly
   * when the filters leave no attendance or a member metric finds no
   * members; the top performer the insights name has a line in the chart.
   */
  lemma UpdatePanelIntendedConsistent(b: Base, stored: Option<Store>, r: ListReader, level: string, granularity: string,
                                      key: string, benchmarks: string, coerce: string -> Option<DateTime>)
    ensures var f := ApplyFilters(b, stored, r, coerce);
      var v := UpdatePanelIntended(b, stored, r, level, granularity, key, benchmarks, coerce);
      (v.chart.NoDataChart? <==> v.insights.NoInsights?)
      && (v.chart.NoDataChart? <==> |f.attendance| == 0 || (!FromAttendance(MetricOf(key)) && |f.members| == 0))
      && (v.insights.Insights? && |v.insights.items| > 1 ==>
        v.chart.TrendChart? && v.insights.items[1].TopPerformer? && v.insights.items[1].name in v.chart.lines)
  {
    PanelOfConsistent(ApplyFilters(b, stored, r, coerce), level, granularity, key, benchmarks);
  }

  /**
   * The callback as written: the chart and the insights are empty together,
   * exactly when the filters leave no attendance, a member metric finds no
   * members, or the offices are ranked by attendance rate; the top
   * performer the insights name has a line in the chart.
   */
  lemma UpdatePanelConsistent(b: Base, stored: Option<Store>, level: string, granularity: string, key: string,
                              benchmarks: string, coerce: string -> Option<DateTime>)
    ensures var f := ApplyFilters(b, stored, QuoteOnly, coerce);
      var v := UpdatePanel(b, stored, level, granularity, key, benchmarks, coerce);
      (v.chart.NoDataChart? <==> v.insights.NoInsights?)
      && (v.chart.NoDataChart? <==> (|f.attendance| == 0 || (!FromAttendance(MetricOf(key)) && |f.members| == 0)
            || (|f.members| > 0 && MetricOf(key) == AttendanceRate && (level == "top10" || level == "bottom10"))))
      && (v.insights.Insights? && |v.insights.items| > 1 ==>
        v.chart.TrendChart? && v.insights.items[1].TopPerformer? && v.insights.items[1].name in v.chart.lines)
  {
    var f := ApplyFilters(b, stored, QuoteOnly, coerce);
    assert UpdatePanel(b, stored, level, granularity, key, benchmarks, coerce)
        == PanelFrom(PrepareAsWritten(f, level, granularity, key), GroupingOf(level), benchmarks);
    PreparedAsWrittenConsistent(f, level, granularity, key, benchmarks);
  }

  lemma PreparedAsWrittenConsistent(f: Filtered, level: string, granularity: string, key: string, benchmarks: string)
    ensures var v := PanelFrom(PrepareAsWritten(f, level, granularity, key), GroupingOf(level), benchmarks);
      (v.chart.NoDataChart? <==> v.insights.NoInsights?)
      && (v.chart.NoDataChart? <==> (|f.attendance| == 0 || (!FromAttendance(MetricOf(key)) && |f.members| == 0)
            || (|f.members| > 0 && MetricOf(key) == AttendanceRate && (level == "top10" || level == "bottom10"))))
      && (v.insights.Insights? && |v.insights.items| > 1 ==>
        v.chart.TrendChart? && v.insights.items[1].TopPerformer? && v.insights.items[1].name in v.chart.lines)
  {
    PrepareAsWrittenDrawn(f, level, granularity, key);
    PanelAgrees(PrepareAsWritten(f, level, granularity, key), GroupingOf(level), benchmarks);
  }

  /** Outside the ranked attendance-rate views, the callback as written shows what the intended one shows. */
  lemma UpdatePanelAgrees(b: Base, stored: Option<Store>, level: string, granularity: string, key: string,
                          benchmarks: string, coerce: string -> Option<DateTime>)
    requires !(MetricOf(key) == AttendanceRate && (level == "top10" || level == "bottom10"))
    ensures UpdatePanel(b, stored, level, granularity, key, benchmarks, coerce)
         == UpdatePanelIntended(b, stored, QuoteOnly, level, granularity, key, benchmarks, coerce)
  {
    assert !Ranks(GroupingOf(level)) || MetricOf(key) != AttendanceRate;
  }
}
