/**
 * The series the office engagement trends panel draws: the filtered
 * attendance summed per period and group, or the members' means per AOR and
 * office under one "Overall" period, optionally cut to the ten best or worst
 * offices.
 */
module OfficeEngagementSeries {
  import opened Common
  import opened TrainingData
  import opened GroupedCells
  import opened TrainingOfficeEngagement

  // ---------------------------------------------------------------------
  // Dropdown choices

  /** Whether the office level keeps every office, the ten best or the ten worst. */
  datatype Rank = Unranked | TopTen | BottomTen

  /**
   * "aor" groups by AOR; "office" by the "AOR-OFFICE" label; any other value
   * by the bare office code, with "top10" and "bottom10" also ranking.
   */
  datatype Grouping = AorLevel | LabelLevel | CodeLevel(rank: Rank)

  function GroupingOf(level: string): (g: Grouping)
    ensures g == AorLevel <==> level == "aor"
    ensures g == LabelLevel <==> level == "office"
    ensures g == CodeLevel(TopTen) <==> level == "top10"
    ensures g == CodeLevel(BottomTen) <==> level == "bottom10"
  {
    if level == "aor" then AorLevel
    else if level == "office" then LabelLevel
    else if level == "top10" then CodeLevel(TopTen)
    else if level == "bottom10" then CodeLevel(BottomTen)
    else CodeLevel(Unranked)
  }

  /** `GroupLevel`: "AOR" for the AOR level, "Office" otherwise. */
  function GroupLevel(g: Grouping): string
  {
    if g == AorLevel then "AOR" else "Office"
  }

  /** Any metric key other than the first three reads as the attendance rate. */
  datatype Metric = TotalAttendances | UniqueMembers | ClassesPerMember | AttendanceRate

  function MetricOf(key: string): (m: Metric)
    ensures m == TotalAttendances <==> key == "total_attendances"
    ensures m == UniqueMembers <==> key == "unique_members"
    ensures m == ClassesPerMember <==> key == "classes_per_member"
  {
    if key == "total_attendances" then TotalAttendances
    else if key == "unique_members" then UniqueMembers
    else if key == "classes_per_member" then ClassesPerMember
    else AttendanceRate
  }

  function MetricName(m: Metric): string
  {
    match m
    case TotalAttendances => "Total Attendances"
    case UniqueMembers => "Unique Members Trained"
    case ClassesPerMember => "Classes per Member"
    case AttendanceRate => "Average Attendance Rate (%)"
  }

  /** The two metrics read from the attendance statistics; the others come from the members. */
  predicate FromAttendance(m: Metric)
  {
    m == TotalAttendances || m == UniqueMembers
  }

  // ---------------------------------------------------------------------
  // Office labels

  /** `f"{AorShortName}-{MemberOffice}"`. */
  function OfficeLabel(aor: string, office: string): string
  {
    aor + "-" + office
  }

  /**
   * For AOR names without a dash the label names one AOR and one office:
   * two labels are equal exactly when both parts are.
   */
  lemma OfficeLabelInjective(a1: string, o1: string, a2: string, o2: string)
    requires '-' !in a1 && '-' !in a2
    ensures OfficeLabel(a1, o1) == OfficeLabel(a2, o2) <==> a1 == a2 && o1 == o2
  {
    if OfficeLabel(a1, o1) == OfficeLabel(a2, o2) {
      var l := OfficeLabel(a1, o1);
      DashAfterPrefix(a1, o1);
      DashAfterPrefix(a2, o2);
      assert a1 == a2;
      assert l[|a1| + 1..] == o1 && l[|a2| + 1..] == o2;
    }
  }

  /** The first dash of a label stands right after a dash-free AOR. */
  lemma DashAfterPrefix(a: string, o: string)
    requires '-' !in a
    ensures var l := OfficeLabel(a, o); l[|a|] == '-' && l[..|a|] == a && (forall i :: 0 <= i < |a| ==> l[i] != '-')
  {
    var l := OfficeLabel(a, o);
    assert l[..|a|] == a;
    forall i | 0 <= i < |a| ensures l[i] != '-' {
      assert l[i] == a[i];
    }
  }

  // ---------------------------------------------------------------------
  // `prepare_time_series_data`

  /**
   * One row of the time series: its `TimeLabel`, its group column (`code`),
   * the "AOR-OFFICE" label when the frame carries an `OfficeLabel` column
   * beside it, and `MetricValue`.
   */
  datatype Point = Point(period: string, code: string, officeLabel: Option<string>, value: real)

  datatype Series = NoSeries | Series(points: seq<Point>, metricName: string, groupLevel: string)

  /** The group column an attendance row falls under. */
  function StatGroup(g: Grouping, a: AttendanceStat): string
  {
    match g
    case AorLevel => a.aor
    case LabelLevel => OfficeLabel(a.aor, a.office)
    case CodeLevel(_) => a.office
  }

  function StatValue(m: Metric, a: AttendanceStat): real
  {
    if m == TotalAttendances then a.totalAttendances as real else a.membersAttended as real
  }

  /** An attendance row keyed by its period and group, carrying the summed column. */
  function StatEntry(granularity: string, g: Grouping, m: Metric): Timed<AttendanceStat> -> Entry
  {
    (s: Timed<AttendanceStat>) => Entry(TimeLabel(granularity, s.start), StatGroup(g, s.row), StatValue(m, s.row))
  }

  function PointOf(e: Entry): Point
  {
    Point(e.major, e.minor, None, e.value)
  }

  /** `groupby(['TimeLabel', group]).agg('sum')` over the attendance. */
  function AttendancePoints(rows: seq<Timed<AttendanceStat>>, granularity: string, g: Grouping, m: Metric): seq<Point>
  {
    Map(GroupBy(Map(rows, StatEntry(granularity, g, m)), Summed), PointOf)
  }

  function MemberValue(m: Metric, x: Member): real
  {
    if m == ClassesPerMember then x.sessionsAttended else x.attendanceRate
  }

  function MemberEntry(m: Metric): Member -> Entry
  {
    (x: Member) => Entry(x.aor, x.office, MemberValue(m, x))
  }

  /** `groupby(['AorShortName', 'OfficeCode']).agg('mean')`: one mean per AOR and office. */
  function MemberSummary(members: seq<Member>, m: Metric): seq<Entry>
  {
    GroupBy(Map(members, MemberEntry(m)), Averaged)
  }

  /** The attendance rate is shown as a percentage. */
  function Scaled(m: Metric, v: real): real
  {
    if m == AttendanceRate then v * 100.0 else v
  }

  /** An office mean moved under the single period "Overall", keyed by its AOR. */
  function OverallByAor(e: Entry): Entry
  {
    Entry("Overall", e.major, e.value)
  }

  function AorPoint(m: Metric): Entry -> Point
  {
    (e: Entry) => Point("Overall", e.minor, None, Scaled(m, e.value))
  }

  /**
   * An office mean as a point: keyed by its label at the office level and
   * by its office code otherwise, the label column kept beside it.
   */
  function OfficePoint(g: Grouping, m: Metric): Entry -> Point
  {
    (e: Entry) =>
      var shown := OfficeLabel(e.major, e.minor);
      Point("Overall", if g == LabelLevel then shown else e.minor, Some(shown), Scaled(m, e.value))
  }

  /**
   * The member metrics have no time: one "Overall" period, holding at the
   * AOR level the mean of each AOR's office means, and otherwise each
   * office's mean.
   */
  function MemberPoints(members: seq<Member>, g: Grouping, m: Metric): seq<Point>
  {
    var summary := MemberSummary(members, m);
    if g == AorLevel then Map(GroupBy(Map(summary, OverallByAor), Averaged), AorPoint(m))
    else Map(summary, OfficePoint(g, m))
  }

  // ---------------------------------------------------------------------
  // The ten best or worst offices

  function CodeEntry(p: Point): Entry
  {
    Entry(p.code, "", p.value)
  }

  /** `groupby(group).agg('sum')`: one total per group, ascending by group. */
  function Totals(points: seq<Point>): seq<Entry>
  {
    GroupBy(Map(points, CodeEntry), Summed)
  }

  /** A group's total: the sum of its points' values. */
  function GroupTotal(points: seq<Point>, code: string): real
  {
    Combine(Summed, CellValues(Map(points, CodeEntry), code, ""))
  }

  function ValueAtLeast(a: Entry, b: Entry): bool
  {
    a.value >= b.value
  }

  function ValueAtMost(a: Entry, b: Entry): bool
  {
    a.value <= b.value
  }

  lemma ValueOrders()
    ensures TotalPreorder(ValueAtLeast) && TotalPreorder(ValueAtMost)
  {
  }

  /** The order `sort_values('MetricValue', ascending=...)` puts the totals in. */
  function RankOrder(rank: Rank): (Entry, Entry) -> bool
  {
    if rank == BottomTen then ValueAtMost else ValueAtLeast
  }

  function CodeIn(codes: seq<string>): Point -> bool
  {
    (p: Point) => p.code in codes
  }

  /** `sort_values('MetricValue', ascending=(rank == bottom10))` of the totals, ties kept in group order. */
  function RankedTotals(points: seq<Point>, rank: Rank): (r: seq<Entry>)
    ensures SortedWith(r, RankOrder(rank)) && multiset(r) == multiset(Totals(points))
  {
    ValueOrders();
    SortWith(Totals(points), RankOrder(rank))
  }

  /** `head(10)` of the sorted totals: the groups kept. */
  function ChosenGroups(points: seq<Point>, rank: Rank): seq<string>
  {
    Map(Head(RankedTotals(points, rank), 10), MajorOf)
  }

  /** The points of the chosen groups, in their order. */
  function RankedPoints(points: seq<Point>, rank: Rank): seq<Point>
  {
    Filter(points, CodeIn(ChosenGroups(points, rank)))
  }

  /** A group present among the points. */
  predicate HasCode(points: seq<Point>, code: string)
  {
    exists p :: p in points && p.code == code
  }

  /** Each total is its group's sum, and every group present has one. */
  lemma TotalsMeaning(points: seq<Point>)
    ensures forall e :: e in Totals(points) ==> e.value == GroupTotal(points, e.major) && HasCode(points, e.major)
    ensures forall code :: HasCode(points, code) ==> exists e :: e in Totals(points) && e.major == code
  {
    var t := Totals(points);
    forall e | e in t ensures e.value == GroupTotal(points, e.major) && HasCode(points, e.major) {
      var k :| 0 <= k < |t| && t[k] == e;
      TotalAt(points, k);
    }
    forall code | HasCode(points, code) ensures exists e :: e in t && e.major == code {
      var p :| p in points && p.code == code;
      var k := TotalFor(points, p);
      assert t[k] in t;
    }
  }

  lemma TotalAt(points: seq<Point>, k: nat)
    requires k < |Totals(points)|
    ensures var e := Totals(points)[k]; e.value == GroupTotal(points, e.major) && HasCode(points, e.major)
  {
    var es := Map(points, CodeEntry);
    var e := Totals(points)[k];
    GroupBySpec(es, Summed);
    var cell := Filter(es, AtKeys(e.major, e.minor));
    assert |cell| > 0;
    var x := cell[0];
    assert x in es && x.major == e.major && x.minor == e.minor;
    var i :| 0 <= i < |es| && es[i] == x;
    assert x == CodeEntry(points[i]);
    assert e.minor == "";
    assert points[i] in points;
  }

  lemma TotalFor(points: seq<Point>, p: Point) returns (k: nat)
    requires p in points
    ensures k < |Totals(points)| && Totals(points)[k].major == p.code
  {
    var es := Map(points, CodeEntry);
    var t := Totals(points);
    MapMember(points, CodeEntry, p);
    GroupBySpec(es, Summed);
    assert HasKeys(t, p.code, "");
    k :| 0 <= k < |t| && t[k].major == p.code && t[k].minor == "";
  }

  /**
   * The ten best (or worst) groups by total: at most ten, each present, and
   * none left out has a higher (or lower) total than one kept; the points
   * kept are exactly those of the chosen groups.
   */
  lemma RankedSpec(points: seq<Point>, rank: Rank)
    requires rank != Unranked
    ensures var chosen := ChosenGroups(points, rank);
      |chosen| <= 10
      && (forall c :: c in chosen ==> HasCode(points, c))
      && (forall p :: p in RankedPoints(points, rank) <==> p in points && p.code in chosen)
      && (forall c, d :: c in chosen && HasCode(points, d) && d !in chosen ==> RankedBefore(rank, GroupTotal(points, c), GroupTotal(points, d)))
  {
    var chosen := ChosenGroups(points, rank);
    TotalsMeaning(points);
    forall c | c in chosen ensures HasCode(points, c) {
      ChosenPresent(points, rank, c);
    }
    forall c, d | c in chosen && HasCode(points, d) && d !in chosen
      ensures RankedBefore(rank, GroupTotal(points, c), GroupTotal(points, d))
    {
      ChosenOutranks(points, rank, c, d);
    }
  }

  /** Totals `a` and `b` are in the order the rank asks for. */
  predicate RankedBefore(rank: Rank, a: real, b: real)
  {
    if rank == BottomTen then a <= b else a >= b
  }

  lemma ChosenPresent(points: seq<Point>, rank: Rank, c: string)
    requires c in ChosenGroups(points, rank)
    ensures HasCode(points, c)
  {
    var i :| 0 <= i < |ChosenGroups(points, rank)| && ChosenGroups(points, rank)[i] == c;
    ChosenTotal(points, rank, i);
  }

  lemma ChosenOutranks(points: seq<Point>, rank: Rank, c: string, d: string)
    requires c in ChosenGroups(points, rank) && HasCode(points, d) && d !in ChosenGroups(points, rank)
    ensures RankedBefore(rank, GroupTotal(points, c), GroupTotal(points, d))
  {
    var i :| 0 <= i < |ChosenGroups(points, rank)| && ChosenGroups(points, rank)[i] == c;
    ChosenTotal(points, rank, i);
    var e := TotalOf(points, rank, d);
    HeadOutranks(RankedTotals(points, rank), RankOrder(rank), i, e);
  }

  /** The group in the `i`-th place of the ranking, with its total. */
  lemma ChosenTotal(points: seq<Point>, rank: Rank, i: nat)
    requires i < |ChosenGroups(points, rank)|
    ensures var sorted := RankedTotals(points, rank);
      i < |Head(sorted, 10)| && sorted[i].major == ChosenGroups(points, rank)[i]
      && sorted[i].value == GroupTotal(points, sorted[i].major) && HasCode(points, sorted[i].major)
  {
    var t := Totals(points);
    var sorted := RankedTotals(points, rank);
    assert sorted[i] in multiset(t);
    var k :| 0 <= k < |t| && t[k] == sorted[i];
    TotalAt(points, k);
  }

  /** The total entry of a group present, found in the ranking. */
  lemma TotalOf(points: seq<Point>, rank: Rank, d: string) returns (e: Entry)
    requires HasCode(points, d)
    ensures e in RankedTotals(points, rank) && e.major == d && e.value == GroupTotal(points, d)
  {
    var t := Totals(points);
    var p :| p in points && p.code == d;
    var k := TotalFor(points, p);
    TotalAt(points, k);
    e := t[k];
    assert e in multiset(RankedTotals(points, rank));
  }

  /** An entry outside the first ten of a sorted list comes after each of them. */
  lemma HeadOutranks(sorted: seq<Entry>, order: (Entry, Entry) -> bool, i: nat, e: Entry)
    requires SortedWith(sorted, order)
    requires i < |Head(sorted, 10)| && e in sorted && e.major !in Map(Head(sorted, 10), MajorOf)
    ensures order(sorted[i], e)
  {
    var head := Head(sorted, 10);
    var j :| 0 <= j < |sorted| && sorted[j] == e;
    if j < |head| {
      assert false;
    }
  }

  // ---------------------------------------------------------------------
  // The prepared series

  /** The series before any ranking; None where the source returns an empty frame (no members). */
  function SeriesPoints(f: Filtered, g: Grouping, granularity: string, m: Metric): Option<seq<Point>>
  {
    if FromAttendance(m) then Some(AttendancePoints(f.attendance, granularity, g, m))
    else if |f.members| == 0 then None
    else Some(MemberPoints(f.members, g, m))
  }

  predicate Ranks(g: Grouping)
  {
    g.CodeLevel? && g.rank != Unranked
  }

  /**
   * No attendance gives an empty frame whatever the metric; otherwise the
   * series, cut to the ten best or worst groups where asked, with its
   * metric name and level.
   */
  function PrepareWith(f: Filtered, g: Grouping, granularity: string, m: Metric): Series
  {
    if |f.attendance| == 0 then NoSeries
    else match SeriesPoints(f, g, granularity, m)
      case None => NoSeries
      case Some(points) =>
        Series(if Ranks(g) then RankedPoints(points, g.rank) else points, MetricName(m), GroupLevel(g))
  }

  function Prepare(f: Filtered, level: string, granularity: string, key: string): Series
  {
    PrepareWith(f, GroupingOf(level), granularity, MetricOf(key))
  }

  /**
   * As written, the attendance-rate branch never renames `OfficeCode` to
   * `MemberOffice`, so ranking its offices groups by a missing column and
   * the error path returns an empty frame.
   */
  function PrepareAsWrittenWith(f: Filtered, g: Grouping, granularity: string, m: Metric): Series
  {
    if |f.attendance| > 0 && |f.members| > 0 && m == AttendanceRate && Ranks(g) then NoSeries
    else PrepareWith(f, g, granularity, m)
  }

  function PrepareAsWritten(f: Filtered, level: string, granularity: string, key: string): Series
  {
    PrepareAsWrittenWith(f, GroupingOf(level), granularity, MetricOf(key))
  }

  lemma MemberPointsNonEmpty(members: seq<Member>, g: Grouping, m: Metric)
    requires |members| > 0
    ensures |MemberPoints(members, g, m)| > 0
  {
    GroupByNonEmpty(Map(members, MemberEntry(m)), Averaged);
    if g == AorLevel {
      GroupByNonEmpty(Map(MemberSummary(members, m), OverallByAor), Averaged);
    }
  }

  /** The ranking keeps the points of its first group, so a non-empty series stays non-empty. */
  lemma RankedNonEmpty(points: seq<Point>, rank: Rank)
    requires |points| > 0 && rank != Unranked
    ensures |RankedPoints(points, rank)| > 0
  {
    var e := TotalOf(points, rank, points[0].code);
    var sorted := RankedTotals(points, rank);
    assert |sorted| > 0;
    ChosenTotal(points, rank, 0);
    var c := ChosenGroups(points, rank)[0];
    assert HasCode(points, c);
    var p :| p in points && p.code == c;
    assert p in RankedPoints(points, rank);
  }

  lemma RankedRateBlankWith(f: Filtered, g: Grouping, granularity: string)
    requires |f.attendance| > 0 && |f.members| > 0 && Ranks(g)
    ensures PrepareAsWrittenWith(f, g, granularity, AttendanceRate) == NoSeries
    ensures PrepareWith(f, g, granularity, AttendanceRate).Series?
    ensures |PrepareWith(f, g, granularity, AttendanceRate).points| > 0
  {
    PrepareWithDrawn(f, g, granularity, AttendanceRate);
  }

  /**
   * With attendance and members present, ranking the offices by attendance
   * rate blanks the panel as written, while the corrected preparation
   * draws the offices.
   */
  lemma RankedRateBlankAsWritten(f: Filtered, level: string, granularity: string, key: string)
    requires |f.attendance| > 0 && |f.members| > 0
    requires (level == "top10" || level == "bottom10") && MetricOf(key) == AttendanceRate
    ensures PrepareAsWritten(f, level, granularity, key) == NoSeries
    ensures Prepare(f, level, granularity, key).Series? && |Prepare(f, level, granularity, key).points| > 0
  {
    var g := GroupingOf(level);
    assert Ranks(g);
    RankedRateBlankWith(f, g, granularity);
  }

  // ---------------------------------------------------------------------
  // What the series holds

  /** An attendance row falls in the cell of this period and group. */
  function InCell(granularity: string, g: Grouping, period: string, code: string): Timed<AttendanceStat> -> bool
  {
    (s: Timed<AttendanceStat>) => TimeLabel(granularity, s.start) == period && StatGroup(g, s.row) == code
  }

  function StatOf(m: Metric): Timed<AttendanceStat> -> real
  {
    (s: Timed<AttendanceStat>) => StatValue(m, s.row)
  }

  /** Points ordered by period, then by group, each key once. */
  predicate PointsAscending(points: seq<Point>)
  {
    forall i :: 0 <= i < |points| - 1 ==>
      StrLess(points[i].period, points[i + 1].period)
      || (points[i].period == points[i + 1].period && StrLess(points[i].code, points[i + 1].code))
  }

  predicate HasPoint(points: seq<Point>, period: string, code: string)
  {
    exists k :: 0 <= k < |points| && points[k].period == period && points[k].code == code
  }

  lemma AttendancePointsAscending(rows: seq<Timed<AttendanceStat>>, granularity: string, g: Grouping, m: Metric)
    ensures PointsAscending(AttendancePoints(rows, granularity, g, m))
  {
    var r := GroupBy(Map(rows, StatEntry(granularity, g, m)), Summed);
    GroupBySpec(Map(rows, StatEntry(granularity, g, m)), Summed);
    var ps := AttendancePoints(rows, granularity, g, m);
    forall i | 0 <= i < |ps| - 1
      ensures StrLess(ps[i].period, ps[i + 1].period)
        || (ps[i].period == ps[i + 1].period && StrLess(ps[i].code, ps[i + 1].code))
    {
      assert KeyLess(r[i], r[i + 1]);
    }
  }

  lemma AttendanceRowPoint(rows: seq<Timed<AttendanceStat>>, granularity: string, g: Grouping, m: Metric, s: Timed<AttendanceStat>)
    requires s in rows
    ensures HasPoint(AttendancePoints(rows, granularity, g, m), TimeLabel(granularity, s.start), StatGroup(g, s.row))
  {
    var es := Map(rows, StatEntry(granularity, g, m));
    MapMember(rows, StatEntry(granularity, g, m), s);
    var k := GroupByRow(es, Summed, StatEntry(granularity, g, m)(s));
    assert AttendancePoints(rows, granularity, g, m)[k] == PointOf(GroupBy(es, Summed)[k]);
  }

  lemma AttendancePointAt(rows: seq<Timed<AttendanceStat>>, granularity: string, g: Grouping, m: Metric, k: nat)
    requires k < |AttendancePoints(rows, granularity, g, m)|
    ensures var p := AttendancePoints(rows, granularity, g, m)[k];
      var cell := Filter(rows, InCell(granularity, g, p.period, p.code));
      p.officeLabel == None && |cell| > 0 && p.value == RealSum(Map(cell, StatOf(m)))
  {
    var es := Map(rows, StatEntry(granularity, g, m));
    var e := GroupBy(es, Summed)[k];
    GroupByCell(es, Summed, k);
    FilterAfterMap(rows, StatEntry(granularity, g, m), AtKeys(e.major, e.minor), ValueOfEntry,
      InCell(granularity, g, e.major, e.minor), StatOf(m));
    assert AttendancePoints(rows, granularity, g, m)[k] == PointOf(e);
  }

  /**
   * The attendance series has one point per period and group met in the
   * rows, in that order, each the sum of the metric over its rows.
   */
  lemma AttendancePointsSpec(rows: seq<Timed<AttendanceStat>>, granularity: string, g: Grouping, m: Metric)
    ensures PointsAscending(AttendancePoints(rows, granularity, g, m))
    ensures forall s :: s in rows ==>
      HasPoint(AttendancePoints(rows, granularity, g, m), TimeLabel(granularity, s.start), StatGroup(g, s.row))
    ensures forall k :: 0 <= k < |AttendancePoints(rows, granularity, g, m)| ==>
      var p := AttendancePoints(rows, granularity, g, m)[k];
      var cell := Filter(rows, InCell(granularity, g, p.period, p.code));
      p.officeLabel == None && |cell| > 0 && p.value == RealSum(Map(cell, StatOf(m)))
  {
    AttendancePointsAscending(rows, granularity, g, m);
    forall s | s in rows
      ensures HasPoint(AttendancePoints(rows, granularity, g, m), TimeLabel(granularity, s.start), StatGroup(g, s.row))
    {
      AttendanceRowPoint(rows, granularity, g, m, s);
    }
    forall k | 0 <= k < |AttendancePoints(rows, granularity, g, m)|
      ensures var p := AttendancePoints(rows, granularity, g, m)[k];
        var cell := Filter(rows, InCell(granularity, g, p.period, p.code));
        p.officeLabel == None && |cell| > 0 && p.value == RealSum(Map(cell, StatOf(m)))
    {
      AttendancePointAt(rows, granularity, g, m, k);
    }
  }

  /** The members of one AOR and office. */
  function AtOffice(aor: string, office: string): Member -> bool
  {
    (x: Member) => x.aor == aor && x.office == office
  }

  function MemberValueOf(m: Metric): Member -> real
  {
    (x: Member) => MemberValue(m, x)
  }

  predicate HasLabel(points: seq<Point>, shown: string)
  {
    exists k :: 0 <= k < |points| && points[k].officeLabel == Some(shown)
  }

  /** A point below the AOR level stands for this AOR and office and holds the mean of its members. */
  predicate OfficeMean(members: seq<Member>, g: Grouping, m: Metric, p: Point, aor: string, office: string)
  {
    var cell := Filter(members, AtOffice(aor, office));
    p.period == "Overall" && p.officeLabel == Some(OfficeLabel(aor, office))
    && p.code == (if g == LabelLevel then OfficeLabel(aor, office) else office)
    && |cell| > 0 && p.value == Scaled(m, Mean(Map(cell, MemberValueOf(m))))
  }

  ghost predicate MeanOfSomeOffice(members: seq<Member>, g: Grouping, m: Metric, p: Point)
  {
    exists aor, office :: OfficeMean(members, g, m, p, aor, office)
  }

  lemma MemberRowPoint(members: seq<Member>, g: Grouping, m: Metric, x: Member)
    requires g != AorLevel && x in members
    ensures HasLabel(MemberPoints(members, g, m), OfficeLabel(x.aor, x.office))
  {
    MapMember(members, MemberEntry(m), x);
    var k := GroupByRow(Map(members, MemberEntry(m)), Averaged, MemberEntry(m)(x));
    assert MemberPoints(members, g, m)[k] == OfficePoint(g, m)(MemberSummary(members, m)[k]);
  }

  lemma OfficePointAt(members: seq<Member>, g: Grouping, m: Metric, k: nat) returns (aor: string, office: string)
    requires g != AorLevel && k < |MemberPoints(members, g, m)|
    ensures OfficeMean(members, g, m, MemberPoints(members, g, m)[k], aor, office)
  {
    var e := MemberSummary(members, m)[k];
    aor, office := e.major, e.minor;
    GroupByCell(Map(members, MemberEntry(m)), Averaged, k);
    FilterAfterMap(members, MemberEntry(m), AtKeys(aor, office), ValueOfEntry, AtOffice(aor, office), MemberValueOf(m));
    assert MemberPoints(members, g, m)[k] == OfficePoint(g, m)(e);
  }

  /**
   * Below the AOR level, one "Overall" point per AOR and office met among
   * the members, labelled with both, holding the mean of its members'
   * values (as a percentage for the attendance rate).
   */
  lemma OfficePointsSpec(members: seq<Member>, g: Grouping, m: Metric)
    requires g != AorLevel
    ensures forall x :: x in members ==> HasLabel(MemberPoints(members, g, m), OfficeLabel(x.aor, x.office))
    ensures forall k :: 0 <= k < |MemberPoints(members, g, m)| ==>
      MeanOfSomeOffice(members, g, m, MemberPoints(members, g, m)[k])
  {
    forall x | x in members ensures HasLabel(MemberPoints(members, g, m), OfficeLabel(x.aor, x.office)) {
      MemberRowPoint(members, g, m, x);
    }
    forall k | 0 <= k < |MemberPoints(members, g, m)|
      ensures MeanOfSomeOffice(members, g, m, MemberPoints(members, g, m)[k])
    {
      var aor, office := OfficePointAt(members, g, m, k);
      assert OfficeMean(members, g, m, MemberPoints(members, g, m)[k], aor, office);
    }
  }

  /** The office means of one AOR. */
  function AorOffices(members: seq<Member>, m: Metric, aor: string): seq<Entry>
  {
    Filter(MemberSummary(members, m), AtMajor(aor))
  }

  lemma OverallEntry(summary: seq<Entry>, e: Entry)
    requires e in Map(summary, OverallByAor)
    ensures e.major == "Overall"
  {
    var i :| 0 <= i < |Map(summary, OverallByAor)| && Map(summary, OverallByAor)[i] == e;
  }

  lemma AorPointsAscending(members: seq<Member>, m: Metric)
    ensures forall i :: 0 <= i < |MemberPoints(members, AorLevel, m)| - 1 ==>
      StrLess(MemberPoints(members, AorLevel, m)[i].code, MemberPoints(members, AorLevel, m)[i + 1].code)
  {
    var summary := MemberSummary(members, m);
    var es := Map(summary, OverallByAor);
    var r := GroupBy(es, Averaged);
    var ps := MemberPoints(members, AorLevel, m);
    forall i | 0 <= i < |ps| - 1 ensures StrLess(ps[i].code, ps[i + 1].code) {
      var a := GroupBySource(es, Averaged, i);
      var b := GroupBySource(es, Averaged, i + 1);
      OverallEntry(summary, a);
      OverallEntry(summary, b);
      GroupByStep(es, Averaged, i);
      StrLessIrreflexive(r[i].major);
      assert ps[i] == AorPoint(m)(r[i]) && ps[i + 1] == AorPoint(m)(r[i + 1]);
    }
  }

  lemma AorRowPoint(members: seq<Member>, m: Metric, x: Member)
    requires x in members
    ensures HasPoint(MemberPoints(members, AorLevel, m), "Overall", x.aor)
  {
    var summary := MemberSummary(members, m);
    MapMember(members, MemberEntry(m), x);
    var j := GroupByRow(Map(members, MemberEntry(m)), Averaged, MemberEntry(m)(x));
    MapMember(summary, OverallByAor, summary[j]);
    var k := GroupByRow(Map(summary, OverallByAor), Averaged, OverallByAor(summary[j]));
    assert MemberPoints(members, AorLevel, m)[k] == AorPoint(m)(GroupBy(Map(summary, OverallByAor), Averaged)[k]);
  }

  lemma AorPointAt(members: seq<Member>, m: Metric, k: nat)
    requires k < |MemberPoints(members, AorLevel, m)|
    ensures var p := MemberPoints(members, AorLevel, m)[k];
      var offices := AorOffices(members, m, p.code);
      p.period == "Overall" && |offices| > 0 && p.value == Scaled(m, Mean(Map(offices, ValueOfEntry)))
  {
    var summary := MemberSummary(members, m);
    var es := Map(summary, OverallByAor);
    var e := GroupBy(es, Averaged)[k];
    GroupByCell(es, Averaged, k);
    FilterAfterMap(summary, OverallByAor, AtKeys(e.major, e.minor), ValueOfEntry, AtMajor(e.minor), ValueOfEntry);
    assert MemberPoints(members, AorLevel, m)[k] == AorPoint(m)(e);
  }

  /**
   * At the AOR level, one "Overall" point per AOR met among the members,
   * ascending, holding the mean of that AOR's office means.
   */
  lemma AorPointsSpec(members: seq<Member>, m: Metric)
    ensures forall i :: 0 <= i < |MemberPoints(members, AorLevel, m)| - 1 ==>
      StrLess(MemberPoints(members, AorLevel, m)[i].code, MemberPoints(members, AorLevel, m)[i + 1].code)
    ensures forall x :: x in members ==> HasPoint(MemberPoints(members, AorLevel, m), "Overall", x.aor)
    ensures forall k :: 0 <= k < |MemberPoints(members, AorLevel, m)| ==>
      var p := MemberPoints(members, AorLevel, m)[k];
      var offices := AorOffices(members, m, p.code);
      p.period == "Overall" && |offices| > 0 && p.value == Scaled(m, Mean(Map(offices, ValueOfEntry)))
  {
    AorPointsAscending(members, m);
    forall x | x in members ensures HasPoint(MemberPoints(members, AorLevel, m), "Overall", x.aor) {
      AorRowPoint(members, m, x);
    }
    forall k | 0 <= k < |MemberPoints(members, AorLevel, m)|
      ensures var p := MemberPoints(members, AorLevel, m)[k];
        var offices := AorOffices(members, m, p.code);
        p.period == "Overall" && |offices| > 0 && p.value == Scaled(m, Mean(Map(offices, ValueOfEntry)))
    {
      AorPointAt(members, m, k);
    }
  }

  /** Attendance rows always give points. */
  lemma AttendancePointsNonEmpty(rows: seq<Timed<AttendanceStat>>, granularity: string, g: Grouping, m: Metric)
    requires |rows| > 0
    ensures |AttendancePoints(rows, granularity, g, m)| > 0
  {
    GroupByNonEmpty(Map(rows, StatEntry(granularity, g, m)), Averaged);
    GroupByNonEmpty(Map(rows, StatEntry(granularity, g, m)), Summed);
  }

  lemma SeriesPointsDrawn(f: Filtered, g: Grouping, granularity: string, m: Metric)
    requires |f.attendance| > 0
    ensures SeriesPoints(f, g, granularity, m).None? <==> !FromAttendance(m) && |f.members| == 0
    ensures SeriesPoints(f, g, granularity, m).Some? ==> |SeriesPoints(f, g, granularity, m).value| > 0
  {
    if FromAttendance(m) {
      AttendancePointsNonEmpty(f.attendance, granularity, g, m);
    } else if |f.members| > 0 {
      MemberPointsNonEmpty(f.members, g, m);
    }
  }

  lemma PrepareWithDrawn(f: Filtered, g: Grouping, granularity: string, m: Metric)
    ensures PrepareWith(f, g, granularity, m).NoSeries? <==> |f.attendance| == 0 || (!FromAttendance(m) && |f.members| == 0)
    ensures PrepareWith(f, g, granularity, m).Series? ==> |PrepareWith(f, g, granularity, m).points| > 0
  {
    if |f.attendance| > 0 {
      SeriesPointsDrawn(f, g, granularity, m);
      var points := SeriesPoints(f, g, granularity, m);
      if points.Some? && Ranks(g) {
        RankedNonEmpty(points.value, g.rank);
      }
    }
  }

  /**
   * The preparation gives no series exactly when no attendance is left, or
   * a member metric finds no members; a series it gives is never empty.
   */
  lemma PrepareDrawn(f: Filtered, level: string, granularity: string, key: string)
    ensures Prepare(f, level, granularity, key).NoSeries? <==>
      |f.attendance| == 0 || (!FromAttendance(MetricOf(key)) && |f.members| == 0)
    ensures Prepare(f, level, granularity, key).Series? ==> |Prepare(f, level, granularity, key).points| > 0
  {
    PrepareWithDrawn(f, GroupingOf(level), granularity, MetricOf(key));
  }

  /**
   * The preparation as written is empty exactly when the corrected one is,
   * or when a ranked view asks for the attendance rate of offices that
   * have members.
   */
  lemma PrepareAsWrittenDrawn(f: Filtered, level: string, granularity: string, key: string)
    ensures PrepareAsWritten(f, level, granularity, key).NoSeries? <==>
      |f.attendance| == 0 || (!FromAttendance(MetricOf(key)) && |f.members| == 0)
      || (|f.members| > 0 && MetricOf(key) == AttendanceRate && (level == "top10" || level == "bottom10"))
    ensures PrepareAsWritten(f, level, granularity, key).Series? ==> |PrepareAsWritten(f, level, granularity, key).points| > 0
  {
    var g := GroupingOf(level);
    assert Ranks(g) <==> level == "top10" || level == "bottom10";
    PrepareWithDrawn(f, g, granularity, MetricOf(key));
  }
}
