/**
 * The violation-trends panel of the Compliance page: the two-year window,
 * the chart's categories (first violations folded into the ten most
 * frequent, rule families by prefix, final severities), the moving-average
 * window, the 30-day growth classification and the insight list with its
 * padding to three entries.
 */
module ComplianceViolationTrends {
  import opened Common
  import opened ComplianceData
  import ComplianceViolationStatus

  // ---------------------------------------------------------------------
  // The analysed window

  /** Cases older than this many days are left out of charts and insights. */
  const TrendDays: int := 730

  predicate Dated(c: Case)
  {
    c.createdOn.Some?
  }

  /** `df['CreatedOn'] >= from` on a parsed date column. */
  function CreatedSince(from: int): Case -> bool
  {
    (c: Case) => c.createdOn.Some? && c.createdOn.value >= from
  }

  /** `from <= CreatedOn < until`. */
  function CreatedBetween(from: int, until: int): Case -> bool
  {
    (c: Case) => c.createdOn.Some? && from <= c.createdOn.value < until
  }

  /** Drop cases without a creation date, then keep the last two years. */
  function RecentCases(cases: seq<Case>, now: int): (r: seq<Case>)
    ensures forall c :: c in r <==> c in cases && c.createdOn.Some? && c.createdOn.value >= now - TrendDays * DaySeconds
  {
    Filter(Filter(cases, Dated), CreatedSince(now - TrendDays * DaySeconds))
  }

  // ---------------------------------------------------------------------
  // First violations folded into the ten most frequent

  /** `get_first_violation`: "Other" for a non-list, an empty list or a null first element. */
  function FirstViolationOrOther(c: Case): string
  {
    ComplianceViolationStatus.FirstOr(c.violations, "Other")
  }

  /** `value_counts().head(10).index`: the ten most frequent first violations, most frequent first. */
  function TopViolations(firsts: seq<string>): seq<string>
  {
    Map(Head(ValueCounts(firsts), 10), KeyOf)
  }

  /** A first violation outside the top ten becomes "Other". */
  function FoldedInto(top: seq<string>): string -> string
  {
    x => if x in top then x else "Other"
  }

  function ViolationCategories(cases: seq<Case>): seq<string>
  {
    var firsts := Map(cases, FirstViolationOrOther);
    Map(firsts, FoldedInto(TopViolations(firsts)))
  }

  /** The kept values are at most ten occurring ones, each with its number of occurrences. */
  lemma TopViolationsKept(firsts: seq<string>, i: nat)
    requires i < |TopViolations(firsts)|
    ensures |TopViolations(firsts)| <= 10
    ensures ValueCounts(firsts)[i] == (TopViolations(firsts)[i], Count(firsts, TopViolations(firsts)[i]))
    ensures TopViolations(firsts)[i] in firsts
  {
    var r := ValueCounts(firsts);
    assert Head(r, 10)[i] == r[i];
    ValueCountsEntry(firsts, r[i]);
  }

  /** The position of an occurring value among the counts. */
  lemma CountsIndex(firsts: seq<string>, x: string) returns (j: nat)
    requires x in firsts
    ensures j < |ValueCounts(firsts)| && ValueCounts(firsts)[j] == (x, Count(firsts, x))
  {
    ValueCountsCover(firsts, x);
    j :| 0 <= j < |ValueCounts(firsts)| && ValueCounts(firsts)[j] == (x, Count(firsts, x));
  }

  /** A value left out occurs no more often than any kept one. */
  lemma TopViolationsBeatRest(firsts: seq<string>, t: string, x: string)
    requires t in TopViolations(firsts) && x in firsts && x !in TopViolations(firsts)
    ensures Count(firsts, x) <= Count(firsts, t)
  {
    var top := TopViolations(firsts);
    var i :| 0 <= i < |top| && top[i] == t;
    TopViolationsKept(firsts, i);
    var j := CountsIndex(firsts, x);
    ValueCountsOrdered(firsts, i, j);
  }

  /** With ten distinct values or fewer, nothing is left out. */
  lemma FewViolationsAllKept(firsts: seq<string>, x: string)
    requires |ValueCounts(firsts)| <= 10 && x in firsts
    ensures x in TopViolations(firsts)
  {
    var j := CountsIndex(firsts, x);
    assert TopViolations(firsts)[j] == ValueCounts(firsts)[j].0;
  }

  /** Mapping by a function that sends only `t` to `t` keeps the number of `t`s. */
  lemma {:induction false} CountMapped(xs: seq<string>, f: string -> string, t: string)
    requires forall y :: f(y) == t <==> y == t
    ensures Count(Map(xs, f), t) == Count(xs, t)
  {
    if |xs| > 0 {
      CountMapped(xs[1..], f, t);
      assert Map(xs, f)[1..] == Map(xs[1..], f);
    }
  }

  /**
   * One category per case; every category is a top-ten violation or
   * "Other"; and a top-ten violation keeps exactly its number of cases.
   */
  lemma ViolationCategoriesSpec(cases: seq<Case>, t: string)
    ensures |ViolationCategories(cases)| == |cases|
    ensures forall x :: x in ViolationCategories(cases) ==> x in TopViolations(Map(cases, FirstViolationOrOther)) || x == "Other"
    ensures t in TopViolations(Map(cases, FirstViolationOrOther)) && t != "Other" ==>
      Count(ViolationCategories(cases), t) == Count(Map(cases, FirstViolationOrOther), t)
  {
    var firsts := Map(cases, FirstViolationOrOther);
    FoldedValues(firsts, TopViolations(firsts));
    if t in TopViolations(firsts) && t != "Other" {
      CountMapped(firsts, FoldedInto(TopViolations(firsts)), t);
    }
  }

  lemma FoldedValues(firsts: seq<string>, top: seq<string>)
    ensures forall x :: x in Map(firsts, FoldedInto(top)) ==> x in top || x == "Other"
  {
    var cats := Map(firsts, FoldedInto(top));
    forall x | x in cats ensures x in top || x == "Other" {
      var i :| 0 <= i < |cats| && cats[i] == x;
      assert x == FoldedInto(top)(firsts[i]);
    }
  }

  // ---------------------------------------------------------------------
  // Rule families

  /** The first rule number of a list cell; a null first element reads as "". */
  function FirstRuleText(cell: ListCell): string
    requires cell.Some? && |cell.value| > 0
  {
    if cell.value[0].Some? then cell.value[0].value else ""
  }

  /** The chart's `categorize_rule`: nine families by prefix; a missing or empty first rule is "Other". */
  function ChartRuleCategory(cell: ListCell): string
  {
    if cell.None? || |cell.value| == 0 then "Other"
    else
      var rule := FirstRuleText(cell);
      if rule == "" then "Other"
      else if StartsWith(rule, "7.") then "7.x - Listing Rules"
      else if StartsWith(rule, "12.") then "12.x - MLS Usage Rules"
      else if StartsWith(rule, "11.") then "11.x - Media Rules"
      else if StartsWith(rule, "8.") then "8.x - Documentation Rules"
      else if StartsWith(rule, "9.") then "9.x - Showing Rules"
      else if StartsWith(rule, "13.") then "13.x - Lockbox Rules"
      else if StartsWith(rule, "14.") then "14.x - Information Rules"
      else if StartsWith(rule, "4.") || StartsWith(rule, "5.") then "4-5.x - Participation Rules"
      else if StartsWith(rule, "10.") then "10.x - Coming Soon Rules"
      else "Other Rules"
  }

  /** The insights' `categorize_rule`: only the first seven families; an empty first rule falls through to "Other Rules". */
  function InsightRuleCategory(cell: ListCell): string
  {
    if cell.None? || |cell.value| == 0 then "Other"
    else
      var rule := FirstRuleText(cell);
      if StartsWith(rule, "7.") then "7.x - Listing Rules"
      else if StartsWith(rule, "12.") then "12.x - MLS Usage Rules"
      else if StartsWith(rule, "11.") then "11.x - Media Rules"
      else if StartsWith(rule, "8.") then "8.x - Documentation Rules"
      else if StartsWith(rule, "9.") then "9.x - Showing Rules"
      else if StartsWith(rule, "13.") then "13.x - Lockbox Rules"
      else if StartsWith(rule, "14.") then "14.x - Information Rules"
      else "Other Rules"
  }

  /** The chart's extra families and the chart's "Other" for a listed but empty rule. */
  predicate InsightsDiffer(cell: ListCell)
  {
    cell.Some? && |cell.value| > 0 &&
    var rule := FirstRuleText(cell);
    rule == "" || (!StartsWith(rule, "7.") && !StartsWith(rule, "12.") && !StartsWith(rule, "11.") && !StartsWith(rule, "8.") &&
      !StartsWith(rule, "9.") && !StartsWith(rule, "13.") && !StartsWith(rule, "14.") &&
      (StartsWith(rule, "4.") || StartsWith(rule, "5.") || StartsWith(rule, "10.")))
  }

  /**
   * The two variants agree except on an empty first rule and on the
   * participation and coming-soon families, which the insights count as
   * "Other Rules".
   */
  lemma RuleCategoryVariants(cell: ListCell)
    ensures !InsightsDiffer(cell) ==> InsightRuleCategory(cell) == ChartRuleCategory(cell)
    ensures InsightsDiffer(cell) ==> InsightRuleCategory(cell) == "Other Rules" && ChartRuleCategory(cell) != "Other Rules"
  {
    if cell.Some? && |cell.value| > 0 && FirstRuleText(cell) == "" {
      EmptyStartsWithNothing("7.");
      EmptyStartsWithNothing("12.");
      EmptyStartsWithNothing("11.");
      EmptyStartsWithNothing("8.");
      EmptyStartsWithNothing("9.");
      EmptyStartsWithNothing("13.");
      EmptyStartsWithNothing("14.");
    }
  }

  lemma EmptyStartsWithNothing(p: string)
    requires |p| > 0
    ensures !StartsWith("", p)
  {
  }

  /** A rule number starting with a digit and "." other than 7, 8 or 9 starts none of the first seven prefixes. */
  lemma SingleDigitPrefix(rule: string, d: char)
    requires |rule| >= 2 && rule[0] == d && rule[1] == '.' && d != '7' && d != '8' && d != '9' && d != '1'
    ensures !StartsWith(rule, "7.") && !StartsWith(rule, "12.") && !StartsWith(rule, "11.") && !StartsWith(rule, "8.")
    ensures !StartsWith(rule, "9.") && !StartsWith(rule, "13.") && !StartsWith(rule, "14.")
  {
    assert rule[..2][0] == d;
    assert rule[..2][1] == '.';
    if |rule| >= 3 {
      assert rule[..3][1] == '.';
    }
  }

  /** Rules 4.x and 5.x are participation rules on the chart and "Other Rules" in the insights. */
  lemma ParticipationRule(cell: ListCell, rule: string)
    requires cell.Some? && |cell.value| > 0 && cell.value[0] == Some(rule)
    requires |rule| >= 2 && (rule[0] == '4' || rule[0] == '5') && rule[1] == '.'
    ensures ChartRuleCategory(cell) == "4-5.x - Participation Rules"
    ensures InsightRuleCategory(cell) == "Other Rules"
  {
    SingleDigitPrefix(rule, rule[0]);
    assert rule != "";
    assert StartsWith(rule, [rule[0], '.']) by {
      assert rule[..2] == [rule[0], '.'];
    }
  }

  // ---------------------------------------------------------------------
  // Moving-average window and growth

  /** `window_size.get(period, 3)`. */
  function MovingAverageWindow(period: string): (w: nat)
    ensures 2 <= w <= 7
  {
    if period == "daily" then 7
    else if period == "weekly" then 4
    else if period == "monthly" then 3
    else if period == "quarterly" then 2
    else 3
  }

  /** The trend line is drawn only when there are at least as many periods as the window. */
  predicate TrendLineShown(periods: nat, period: string)
  {
    periods >= MovingAverageWindow(period)
  }

  /** A single period never gets a trend line; seven or more always do. */
  lemma TrendLineShownSpec(periods: nat, period: string)
    ensures periods < 2 ==> !TrendLineShown(periods, period)
    ensures periods >= 7 ==> TrendLineShown(periods, period)
  {
  }

  datatype Growth = TrendingUp(pct: real) | TrendingDown(pct: real) | StableTrend(pct: real)

  /**
   * The growth of the last 30 days over the 30 before, in percent: above 5
   * is up, below -5 is down (shown as its absolute value), else stable; no
   * verdict when the earlier window is empty.
   */
  function GrowthOf(recent: nat, previous: nat): (g: Option<Growth>)
    ensures g.None? <==> previous == 0
  {
    if previous == 0 then None
    else
      var growth := (recent as real - previous as real) / previous as real * 100.0;
      if growth > 5.0 then Some(TrendingUp(growth))
      else if growth < -5.0 then Some(TrendingDown(-growth))
      else Some(StableTrend(growth))
  }

  /** Up exactly when the recent window exceeds the earlier one by more than 5%, down when it falls short by more than 5%. */
  lemma GrowthThresholds(recent: nat, previous: nat)
    requires previous > 0
    ensures GrowthOf(recent, previous).value.TrendingUp? <==> 20 * recent > 21 * previous
    ensures GrowthOf(recent, previous).value.TrendingDown? <==> 20 * recent < 19 * previous
    ensures GrowthOf(recent, previous).value.StableTrend? <==> 19 * previous <= 20 * recent <= 21 * previous
  {
    var p := previous as real;
    var d := recent as real - p;
    var q := d / p;
    assert (recent as real - previous as real) / previous as real * 100.0 == q * 100.0;
    QuotientAbove(d, p, 0.05);
    QuotientBelow(d, p, -0.05);
  }

  lemma QuotientAbove(a: real, p: real, c: real)
    requires p > 0.0
    ensures a / p > c <==> a > c * p
  {
    var q := a / p;
    assert q * p == a;
    if q > c {
      assert q * p > c * p;
    }
    if a > c * p {
      assert q * p > c * p;
    }
  }

  lemma QuotientBelow(a: real, p: real, c: real)
    requires p > 0.0
    ensures a / p < c <==> a < c * p
  {
    var q := a / p;
    assert q * p == a;
    if q < c {
      assert q * p < c * p;
    }
    if a < c * p {
      assert q * p < c * p;
    }
  }

  function NoCase(c: Case): bool
  {
    false
  }

  /** The two 30-day windows split the last 60 days. */
  lemma GrowthWindows(rows: seq<Case>, now: int)
    ensures |Filter(rows, CreatedSince(now - 30 * DaySeconds))| + |Filter(rows, CreatedBetween(now - 60 * DaySeconds, now - 30 * DaySeconds))|
      == |Filter(rows, CreatedSince(now - 60 * DaySeconds))|
  {
    FilterInclusionExclusion(rows, CreatedSince(now - 30 * DaySeconds), CreatedBetween(now - 60 * DaySeconds, now - 30 * DaySeconds),
      CreatedSince(now - 60 * DaySeconds), NoCase);
    FilterNone(rows, NoCase);
  }

  // ---------------------------------------------------------------------
  // Insights

  datatype Insight =
    | NoData
    | DateIssue
    | InsufficientData
    | MostCommonViolation(violation: string, cases: nat, total: nat)
    | Trend(growth: Growth)
    | ViolationDiversity(types: nat, topFive: int, total: nat)
    | FocusedIssues(types: nat)
    | MostProblematicRule(category: string, cases: nat, total: nat)
    | RuleCategorySpread(categories: nat)
    | ListingCompliance(cases: nat, total: nat)
    | MlsCompliance(cases: nat, total: nat)
    | MediaCompliance(cases: nat, total: nat)
    | CategoryAnalysis(period: string, categories: nat)
    | VolumeOverview(total: nat)
    | HighVolume(recent: nat, total: nat)
    | LowVolume(recent: nat, total: nat)
    | NormalVolume(recent: nat)
    | PeakActivity(cases: nat)
    | CriticalCases(cases: nat, total: nat)
    | NoCriticalIssues
    | HighPriority(cases: nat, total: nat)
    | ManageableLoad
    | StandardCases(cases: nat, total: nat)
    | AnalysisReady(period: string, metric: string)
    | DataCoverage(cases: nat)
    | InteractiveChart
    | TimePeriod(period: string)
    | MetricFocus(metric: string)

  /** The 30-day growth insight, when the earlier window has cases. */
  function GrowthInsight(rows: seq<Case>, now: int): seq<Insight>
  {
    var recent := |Filter(rows, CreatedSince(now - 30 * DaySeconds))|;
    var previous := |Filter(rows, CreatedBetween(now - 60 * DaySeconds, now - 30 * DaySeconds))|;
    match GrowthOf(recent, previous)
    case None => []
    case Some(g) => [Trend(g)]
  }

  /** Most common first violation, growth, then diversity (five types or more) or focus. */
  function ViolationTypeInsights(rows: seq<Case>, now: int): seq<Insight>
  {
    var firsts := Map(rows, FirstViolationOrOther);
    var vc := ValueCounts(firsts);
    if |vc| == 0 then []
    else
      [MostCommonViolation(vc[0].0, vc[0].1, |rows|)] + GrowthInsight(rows, now) +
      [if |vc| >= 5 then ViolationDiversity(|vc|, Sum(Map(Head(vc, 5), CountOf)), |rows|) else FocusedIssues(|vc|)]
  }

  function InsightRuleOf(c: Case): string
  {
    InsightRuleCategory(c.rules)
  }

  /** Most problematic family, the number of families, then listing, MLS or media compliance, whichever comes first. */
  function RuleInsights(rows: seq<Case>, period: string): seq<Insight>
  {
    var cats := Map(rows, InsightRuleOf);
    var rc := ValueCounts(cats);
    if |rc| == 0 then []
    else
      var n := |rows|;
      [MostProblematicRule(rc[0].0, rc[0].1, n), RuleCategorySpread(|rc|),
       if "7.x - Listing Rules" in cats then ListingCompliance(Count(cats, "7.x - Listing Rules"), n)
       else if "12.x - MLS Usage Rules" in cats then MlsCompliance(Count(cats, "12.x - MLS Usage Rules"), n)
       else if "11.x - Media Rules" in cats then MediaCompliance(Count(cats, "11.x - Media Rules"), n)
       else CategoryAnalysis(period, |rc|)]
  }

  /** `CreatedOn.dt.date` as a day number. */
  function DayOf(c: Case): int
  {
    if c.createdOn.Some? then c.createdOn.value / DaySeconds else 0
  }

  /** The last 30 days against the two-year monthly average (cases / 24): above 1.2 times is high, below 0.8 times low. */
  function VolumeVerdict(recent: nat, total: nat): Insight
  {
    var monthlyAvg := total as real / 24.0;
    if recent as real > monthlyAvg * 1.2 then HighVolume(recent, total)
    else if (recent as real) < monthlyAvg * 0.8 then LowVolume(recent, total)
    else NormalVolume(recent)
  }

  /** High volume means more than one twentieth of the two years' cases in the last 30 days; low, fewer than one thirtieth. */
  lemma VolumeThresholds(recent: nat, total: nat)
    ensures VolumeVerdict(recent, total).HighVolume? <==> 20 * recent > total
    ensures VolumeVerdict(recent, total).LowVolume? <==> 30 * recent < total
  {
  }

  /** Overview, the last 30 days' verdict, and the busiest day's count. */
  function VolumeInsights(rows: seq<Case>, now: int): seq<Insight>
  {
    var recent := |Filter(rows, CreatedSince(now - 30 * DaySeconds))|;
    var daily := ValueCounts(Map(rows, DayOf));
    [VolumeOverview(|rows|), VolumeVerdict(recent, |rows|)] + (if |daily| > 0 then [PeakActivity(daily[0].1)] else [])
  }

  function FinalOf(k: Classified): Severity
  {
    k.final
  }

  /** Critical and high-priority counts (or their all-clear), then medium and low cases when there are any. */
  function SeverityInsights(rows: seq<Case>, now: int): seq<Insight>
  {
    var finals := Map(ClassifyCases(rows, now), FinalOf);
    var n := |rows|;
    var critical := Count(finals, Critical);
    var high := Count(finals, High);
    var standard := Count(finals, Medium) + Count(finals, Low);
    [if critical > 0 then CriticalCases(critical, n) else NoCriticalIssues,
     if high > 0 then HighPriority(high, n) else ManageableLoad] +
    (if standard > 0 then [StandardCases(standard, n)] else [])
  }

  /** The insights of the metric before padding; an unknown metric has none. */
  function MetricInsights(rows: seq<Case>, period: string, metric: string, now: int): seq<Insight>
  {
    if metric == "violation_types" then ViolationTypeInsights(rows, now)
    else if metric == "rule_categories" then RuleInsights(rows, period)
    else if metric == "violation_volume" then VolumeInsights(rows, now)
    else if metric == "severity_trends" then SeverityInsights(rows, now)
    else []
  }

  /** `metric.replace('_', ' ')`. */
  function MetricWords(metric: string): string
  {
    Replace(metric, "_", " ")
  }

  /**
   * No insight gives the three defaults; one or two are padded with the
   * time-period and metric-focus notes until there are three.
   */
  function Padded(insights: seq<Insight>, period: string, metric: string, cases: nat): (r: seq<Insight>)
  {
    if |insights| == 0 then [AnalysisReady(period, MetricWords(metric)), DataCoverage(cases), InteractiveChart]
    else if |insights| == 1 then insights + [TimePeriod(period), MetricFocus(MetricWords(metric))]
    else if |insights| == 2 then insights + [MetricFocus(MetricWords(metric))]
    else insights
  }

  /** Padding leaves at least three insights, keeps the ones given in front, and leaves three or more alone. */
  lemma PaddedSpec(insights: seq<Insight>, period: string, metric: string, cases: nat)
    ensures |Padded(insights, period, metric, cases)| >= 3
    ensures |insights| > 0 ==> insights <= Padded(insights, period, metric, cases)
    ensures |insights| >= 3 ==> Padded(insights, period, metric, cases) == insights
    ensures |insights| < 3 ==> |Padded(insights, period, metric, cases)| == 3
  {
  }

  /** The padding loop of `generate_violation_trends_insights`. */
  method PadInsights(insights: seq<Insight>, period: string, metric: string, cases: nat) returns (r: seq<Insight>)
    ensures r == Padded(insights, period, metric, cases)
  {
    r := insights;
    if |r| == 0 {
      r := [AnalysisReady(period, MetricWords(metric)), DataCoverage(cases), InteractiveChart];
    } else if |r| < 3 {
      while |r| < 3
        invariant insights <= r && 1 <= |r| <= 3
        invariant |insights| == 1 && |r| >= 2 ==> r[1] == TimePeriod(period)
        invariant |r| == 3 ==> r[2] == MetricFocus(MetricWords(metric))
        decreases 3 - |r|
      {
        if |r| == 1 {
          r := r + [TimePeriod(period)];
        } else if |r| == 2 {
          r := r + [MetricFocus(MetricWords(metric))];
        }
      }
      assert r == insights + r[|insights|..];
    }
  }

  /**
   * `generate_violation_trends_insights`: a single notice for an empty
   * frame, for no parsable dates and for fewer than two recent cases;
   * otherwise the metric's insights, padded.
   */
  function GenerateInsights(filtered: seq<Case>, period: string, metric: string, now: int): seq<Insight>
  {
    if |filtered| == 0 then [NoData]
    else if |Filter(filtered, Dated)| == 0 then [DateIssue]
    else
      var rows := RecentCases(filtered, now);
      if |rows| < 2 then [InsufficientData]
      else Padded(MetricInsights(rows, period, metric, now), period, metric, |filtered|)
  }

  /** The insight list has one notice or at least three entries, and the notice is given exactly when the data is too thin. */
  lemma GenerateInsightsSpec(filtered: seq<Case>, period: string, metric: string, now: int)
    ensures var r := GenerateInsights(filtered, period, metric, now);
      (|r| == 1 <==> |RecentCases(filtered, now)| < 2) && (|r| != 1 ==> |r| >= 3)
    ensures |filtered| == 0 ==> GenerateInsights(filtered, period, metric, now) == [NoData]
  {
    var rows := RecentCases(filtered, now);
    if |filtered| > 0 && |Filter(filtered, Dated)| == 0 {
      FilterNone(Filter(filtered, Dated), CreatedSince(now - TrendDays * DaySeconds));
    }
    if |filtered| == 0 {
      assert Filter(filtered, Dated) == [];
    }
    if |rows| >= 2 {
      PaddedSpec(MetricInsights(rows, period, metric, now), period, metric, |filtered|);
    }
  }

  /** The violation-type metric gives two or three insights before padding, opening with the most common first violation. */
  lemma ViolationTypeInsightsSpec(rows: seq<Case>, now: int)
    requires |rows| > 0
    ensures var r := ViolationTypeInsights(rows, now);
      2 <= |r| <= 3 && r[0].MostCommonViolation? &&
      var firsts := Map(rows, FirstViolationOrOther);
      r[0].violation in firsts && r[0].cases == Count(firsts, r[0].violation) &&
      forall x :: x in firsts ==> Count(firsts, x) <= r[0].cases
  {
    var firsts := Map(rows, FirstViolationOrOther);
    var vc := ValueCounts(firsts);
    ValueCountsTop(firsts, firsts[0]);
    ValueCountsEntry(firsts, vc[0]);
    forall x | x in firsts ensures Count(firsts, x) <= vc[0].1 {
      ValueCountsTop(firsts, x);
    }
  }

  // ---------------------------------------------------------------------
  // The chart's data

  /** The chart's data: a notice, or counts per (period, category), or the volume per period with its trend line. */
  datatype TrendChart =
    | NoDataChart
    | InvalidDatesChart
    | NoRecentChart
    | CategoryChart(counts: seq<((int, string), nat)>)
    | VolumeChart(volume: seq<(int, nat)>, window: nat, trendLine: bool)

  const Periods: seq<string> := ["daily", "weekly", "monthly", "quarterly"]

  /** The period start of each case; the calendar arithmetic of `to_period(...).start_time` is the parameter `periodStart`. */
  function PeriodsOf(rows: seq<Case>, period: string, periodStart: (string, int) -> int): (r: seq<int>)
    ensures |r| == |rows|
  {
    if |rows| == 0 then []
    else [periodStart(period, if rows[0].createdOn.Some? then rows[0].createdOn.value else 0)] + PeriodsOf(rows[1..], period, periodStart)
  }

  /** Pairs the period of each case with its category. */
  function Zip(periods: seq<int>, cats: seq<string>): (r: seq<(int, string)>)
    requires |periods| == |cats|
    ensures |r| == |periods|
    ensures forall i :: 0 <= i < |r| ==> r[i] == (periods[i], cats[i])
  {
    if |periods| == 0 then [] else [(periods[0], cats[0])] + Zip(periods[1..], cats[1..])
  }

  function ChartRuleOf(c: Case): string
  {
    ChartRuleCategory(c.rules)
  }

  function SeverityNameOf(k: Classified): string
  {
    SeverityName(k.final)
  }

  function PeriodKey(e: (int, nat)): int
  {
    e.0
  }

  /** The category of each case under a chart metric; None for a metric the chart does not know. */
  function ChartCategories(rows: seq<Case>, metric: string, now: int): (r: Option<seq<string>>)
    ensures r.Some? ==> |r.value| == |rows|
  {
    if metric == "violation_types" then Some(ViolationCategories(rows))
    else if metric == "rule_categories" then Some(Map(rows, ChartRuleOf))
    else if metric == "severity_trends" then Some(Map(ClassifyCases(rows, now), SeverityNameOf))
    else None
  }

  /**
   * `create_violation_trends_chart`: notices for no data, no parsable dates
   * and no recent case; otherwise the counts of the metric. An unknown
   * period leaves the frame without its Period column and an unknown metric
   * leaves the figure unbound: both raise (None).
   */
  function TrendChartOf(filtered: seq<Case>, period: string, metric: string, now: int, periodStart: (string, int) -> int): Option<TrendChart>
  {
    if |filtered| == 0 then Some(NoDataChart)
    else if |Filter(filtered, Dated)| == 0 then Some(InvalidDatesChart)
    else
      var rows := RecentCases(filtered, now);
      if |rows| == 0 then Some(NoRecentChart)
      else if period !in Periods then None
      else
        var periods := PeriodsOf(rows, period, periodStart);
        if metric == "violation_volume" then
          var volume := SortBy(ValueCounts(periods), PeriodKey);
          Some(VolumeChart(volume, MovingAverageWindow(period), TrendLineShown(|volume|, period)))
        else
          match ChartCategories(rows, metric, now)
          case None => None
          case Some(cats) => Some(CategoryChart(ValueCounts(Zip(periods, cats))))
  }

  /**
   * Every plotted count is the number of recent cases in its (period,
   * category) cell, each cell appears once, and the counts add up to the
   * number of recent cases; the volume bars add up the same way.
   */
  lemma TrendChartTotals(filtered: seq<Case>, period: string, metric: string, now: int, periodStart: (string, int) -> int)
    ensures var ch := TrendChartOf(filtered, period, metric, now, periodStart);
      ch.Some? && ch.value.CategoryChart? ==>
        Sum(Map(ch.value.counts, CountOf)) == |RecentCases(filtered, now)| &&
        NoDuplicates(Map(ch.value.counts, KeyOf))
    ensures var ch := TrendChartOf(filtered, period, metric, now, periodStart);
      ch.Some? && ch.value.VolumeChart? ==>
        Sum(Map(ch.value.volume, CountOf)) == |RecentCases(filtered, now)| && ch.value.trendLine == (|ch.value.volume| >= ch.value.window)
  {
    var ch := TrendChartOf(filtered, period, metric, now, periodStart);
    if ch.Some? && (ch.value.CategoryChart? || ch.value.VolumeChart?) {
      var rows := RecentCases(filtered, now);
      var periods := PeriodsOf(rows, period, periodStart);
      if metric == "violation_volume" {
        assert ch.value.volume == SortBy(ValueCounts(periods), PeriodKey);
        VolumeTotal(periods);
      } else {
        var cats := ChartCategories(rows, metric, now).value;
        assert ch.value.counts == ValueCounts(Zip(periods, cats));
        CellsTotal(Zip(periods, cats));
      }
    }
  }

  lemma VolumeTotal(periods: seq<int>)
    ensures Sum(Map(SortBy(ValueCounts(periods), PeriodKey), CountOf)) == |periods|
  {
    ValueCountsTotal(periods);
    SumMapSort(ValueCounts(periods), PeriodKey, CountOf);
  }

  lemma CellsTotal(cells: seq<(int, string)>)
    ensures Sum(Map(ValueCounts(cells), CountOf)) == |cells|
    ensures NoDuplicates(Map(ValueCounts(cells), KeyOf))
  {
    ValueCountsTotal(cells);
    ValueCountsKeys(cells);
  }

  /** An unknown metric or period with recent cases makes the chart raise. */
  lemma UnknownChoicesRaise(filtered: seq<Case>, period: string, metric: string, now: int, periodStart: (string, int) -> int)
    requires |RecentCases(filtered, now)| > 0
    requires period !in Periods || metric !in ["violation_types", "rule_categories", "violation_volume", "severity_trends"]
    ensures TrendChartOf(filtered, period, metric, now, periodStart).None?
  {
    var rows := RecentCases(filtered, now);
    assert rows[0] in filtered;
    assert rows[0] in Filter(filtered, Dated);
  }

  // ---------------------------------------------------------------------
  // Callbacks

  datatype TrendsPanel = NoComplianceData | TrendsError | TrendsShown(chart: TrendChart, insights: seq<Insight>)

  /** `value or default`: a missing or empty dropdown value takes the default. */
  function OrDefault(value: Option<string>, default: string): string
  {
    if value.None? || value.value == "" then default else value.value
  }

  /**
   * `update_violation_trends_chart`: no data when the fetched frame is
   * empty; an error when the filter or the chart raises; otherwise the
   * chart and insights for the period (default "monthly") and metric
   * (default "violation_types").
   */
  function UpdateViolationTrends(base: seq<Case>, st: Store, period: Option<string>, metric: Option<string>, now: int, periodStart: (string, int) -> int): TrendsPanel
  {
    if |base| == 0 then NoComplianceData
    else
      match ApplyComplianceFilters(base, st)
      case None => TrendsError
      case Some(filtered) =>
        var p := OrDefault(period, "monthly");
        var m := OrDefault(metric, "violation_types");
        match TrendChartOf(filtered, p, m, now, periodStart)
        case None => TrendsError
        case Some(chart) => TrendsShown(chart, GenerateInsights(filtered, p, m, now))
  }

  /** The default choices always give a chart. */
  lemma DefaultChoicesChart(filtered: seq<Case>, now: int, periodStart: (string, int) -> int)
    ensures TrendChartOf(filtered, "monthly", "violation_types", now, periodStart).Some?
  {
    assert "monthly" in Periods;
    var rows := RecentCases(filtered, now);
    assert ChartCategories(rows, "violation_types", now).Some?;
  }

  /** Missing dropdown values show the monthly violation-type chart and its insights; a filter that raises shows the error. */
  lemma UpdateViolationTrendsSpec(base: seq<Case>, st: Store, now: int, periodStart: (string, int) -> int)
    ensures |base| > 0 && ApplyComplianceFilters(base, st).None? ==> UpdateViolationTrends(base, st, None, None, now, periodStart) == TrendsError
    ensures |base| > 0 && ApplyComplianceFilters(base, st).Some? ==>
      var filtered := ApplyComplianceFilters(base, st).value;
      var ch := TrendChartOf(filtered, "monthly", "violation_types", now, periodStart);
      ch.Some? && UpdateViolationTrends(base, st, None, None, now, periodStart) == TrendsShown(ch.value, GenerateInsights(filtered, "monthly", "violation_types", now))
  {
    if |base| > 0 && ApplyComplianceFilters(base, st).Some? {
      DefaultChoicesChart(ApplyComplianceFilters(base, st).value, now, periodStart);
    }
  }

  /** `toggle_violation_trends_chart_modal`: a click on the wrapper opens a closed modal that has a figure; nothing else updates. */
  function TrendsChartModal(clicks: nat, isOpen: bool, hasFigure: bool): (r: Option<bool>)
    ensures r.Some? <==> clicks > 0 && !isOpen && hasFigure
    ensures r.Some? ==> r.value
  {
    if clicks > 0 && !isOpen && hasFigure then Some(true) else None
  }
}
