/**
 * The Training "top engaged members" panel: active members and attendance
 * statistics are narrowed by the filter store (members by office only,
 * attendance by dates through the end of the last day and by every list),
 * members are kept to the offices the dated attendance shows, and the
 * members with the highest sessions, hours or topics are drawn as bars.
 */
module TrainingEngagedMembers {
  import opened Common
  import opened TrainingData

  // ---------------------------------------------------------------------
  // The query results

  /** A row of the active-members query; the numeric cells may be null. */
  datatype Member = Member(
    id: string, name: string, office: Option<string>,
    registered: Option<int>, attended: Option<int>, missed: Option<int>, rate: Option<real>)

  /** A row of the attendance statistics query, with its raw start time. */
  datatype AttendanceRow = AttendanceRow(
    classId: Option<string>, startTime: string, topicId: Option<string>, locationId: Option<string>,
    instructorId: Option<string>, aor: Option<string>, office: Option<string>, totalAttendances: int)

  // ---------------------------------------------------------------------
  // `apply_member_filters` and `apply_attendance_filters`

  /** `if not query_selections`: no store, or an empty one. */
  predicate NoSelections(stored: Option<Store>)
  {
    stored.None? || (|stored.value.dates| == 0 && |stored.value.text| == 0)
  }

  /** `if text and text.strip()`, then the cleaned, non-empty tokens. */
  function ListOf(st: Store, key: string): (r: seq<string>)
    ensures forall t :: t in r ==> |t| > 0
    ensures |Strip(TextOr(st, key))| == 0 ==> r == []
  {
    var text := TextOr(st, key);
    if |Strip(text)| > 0 then CleanTokens(text) else []
  }

  function MemberOfficeIn(offices: seq<string>): Member -> bool
  {
    (x: Member) => Listed(offices, x.office)
  }

  /** The members: left whole without selections, otherwise narrowed by the Offices list alone. */
  function FilterMembers(members: seq<Member>, stored: Option<Store>): seq<Member>
  {
    if NoSelections(stored) then members
    else Filter(members, MemberOfficeIn(ListOf(stored.value, "Offices")))
  }

  /**
   * A member is kept exactly when there are no selections, or no Offices
   * list, or its office is listed.
   */
  lemma MembersKept(members: seq<Member>, stored: Option<Store>, x: Member)
    ensures x in FilterMembers(members, stored) <==>
      x in members && (NoSelections(stored) || Listed(ListOf(stored.value, "Offices"), x.office))
  {
  }

  /**
   * `start_dt <= t <= end_dt` with `start_dt` the midnight opening the first
   * day and `end_dt` the last microsecond of the last day; times are kept to
   * the second, so the test is `t` before the midnight closing the last day.
   */
  predicate InDayRange(t: DateTime, w: (int, int))
  {
    w.0 * 86400 <= Instant(t) < (w.1 + 1) * 86400
  }

  /** A start time is in the range exactly when its day lies between the two stored days, whatever its hour. */
  lemma InDayRangeDays(t: DateTime, w: (int, int))
    requires ValidTime(t)
    ensures InDayRange(t, w) <==> w.0 <= CivilDay(t) <= w.1
  {
    var d, s := CivilDay(t), SecondOfDay(t);
    assert Instant(t) == d * 86400 + s;
    assert 0 <= s < 86400;
    if d > w.1 {
      assert (w.1 + 1) * 86400 <= d * 86400;
    }
    if d < w.0 {
      assert d * 86400 + 86400 <= w.0 * 86400;
    }
  }

  /** `pd.to_datetime(StartTime, errors='coerce')`, then the range test; a start that does not parse fails it. */
  function InDays(w: (int, int), coerce: string -> Option<DateTime>): AttendanceRow -> bool
  {
    (a: AttendanceRow) => var t := coerce(a.startTime); t.Some? && InDayRange(t.value, w)
  }

  function AorIn(aors: seq<string>): AttendanceRow -> bool
  {
    (a: AttendanceRow) => Listed(aors, a.aor)
  }

  function OfficeIn(offices: seq<string>): AttendanceRow -> bool
  {
    (a: AttendanceRow) => Listed(offices, a.office)
  }

  function TopicIn(topics: seq<string>): AttendanceRow -> bool
  {
    (a: AttendanceRow) => Listed(topics, a.topicId)
  }

  function InstructorIn(instructors: seq<string>): AttendanceRow -> bool
  {
    (a: AttendanceRow) => Listed(instructors, a.instructorId)
  }

  function LocationIn(locations: seq<string>): AttendanceRow -> bool
  {
    (a: AttendanceRow) => Listed(locations, a.locationId)
  }

  function ClassIn(classes: seq<string>): AttendanceRow -> bool
  {
    (a: AttendanceRow) => Listed(classes, a.classId)
  }

  /** The lists the attendance filter reads, in the order it applies them. */
  datatype Lists = Lists(aors: seq<string>, offices: seq<string>, topics: seq<string>,
                         instructors: seq<string>, locations: seq<string>, classes: seq<string>)

  function ListsOf(st: Store): Lists
  {
    Lists(ListOf(st, "AORs"), ListOf(st, "Offices"), ListOf(st, "Topics"),
          ListOf(st, "Instructors"), ListOf(st, "Locations"), ListOf(st, "Classes"))
  }

  /** The dates when both days are stored, then AORs, offices, topics, instructors, locations and classes. */
  function FiltersWith(rows: seq<AttendanceRow>, window: Option<(int, int)>, t: Lists,
                       coerce: string -> Option<DateTime>): seq<AttendanceRow>
  {
    var dated := if window.Some? then Filter(rows, InDays(window.value, coerce)) else rows;
    var byAor := Filter(dated, AorIn(t.aors));
    var byOffice := Filter(byAor, OfficeIn(t.offices));
    var byTopic := Filter(byOffice, TopicIn(t.topics));
    var byInstructor := Filter(byTopic, InstructorIn(t.instructors));
    var byLocation := Filter(byInstructor, LocationIn(t.locations));
    Filter(byLocation, ClassIn(t.classes))
  }

  function FilterAttendance(rows: seq<AttendanceRow>, stored: Option<Store>,
                            coerce: string -> Option<DateTime>): seq<AttendanceRow>
  {
    if NoSelections(stored) then rows
    else FiltersWith(rows, StoredWindow(stored.value), ListsOf(stored.value), coerce)
  }

  /** A row passes every test the filter applies. */
  predicate Admitted(a: AttendanceRow, window: Option<(int, int)>, t: Lists, coerce: string -> Option<DateTime>)
  {
    (window.Some? ==> InDays(window.value, coerce)(a))
    && Listed(t.aors, a.aor) && Listed(t.offices, a.office) && Listed(t.topics, a.topicId)
    && Listed(t.instructors, a.instructorId) && Listed(t.locations, a.locationId) && Listed(t.classes, a.classId)
  }

  lemma RowKept(rows: seq<AttendanceRow>, window: Option<(int, int)>, t: Lists,
                coerce: string -> Option<DateTime>, a: AttendanceRow)
    ensures a in FiltersWith(rows, window, t, coerce) <==> a in rows && Admitted(a, window, t, coerce)
  {
  }

  /**
   * A row is kept exactly when there are no selections, or it passes the
   * day range (when both days are stored) and every list.
   */
  lemma AttendanceKept(rows: seq<AttendanceRow>, stored: Option<Store>,
                       coerce: string -> Option<DateTime>, a: AttendanceRow)
    ensures a in FilterAttendance(rows, stored, coerce) <==>
      a in rows && (NoSelections(stored) || Admitted(a, StoredWindow(stored.value), ListsOf(stored.value), coerce))
  {
    if !NoSelections(stored) {
      RowKept(rows, StoredWindow(stored.value), ListsOf(stored.value), coerce, a);
    }
  }

  // ---------------------------------------------------------------------
  // Members kept to the offices of the dated attendance

  function OfficeOfRow(a: AttendanceRow): Option<string>
  {
    a.office
  }

  /** `set(MemberOffice.dropna().unique())`. */
  function ActiveOffices(rows: seq<AttendanceRow>): (r: seq<string>)
    ensures forall o :: o in r <==> exists a :: a in rows && a.office == Some(o)
  {
    Distinct(Somes(Map(rows, OfficeOfRow)))
  }

  /** `'Day_From' in query_selections or 'Day_To' in query_selections`: either key stored, whatever its value. */
  predicate DateKeyStored(stored: Option<Store>)
  {
    stored.Some? && ("Day_From" in stored.value.dates || "Day_To" in stored.value.dates)
  }

  function OfficeAmong(offices: seq<string>): Member -> bool
  {
    (x: Member) => x.office.Some? && x.office.value in offices
  }

  /**
   * With some attendance left and a date key stored, members are kept to
   * the offices that attendance shows, unless it shows none.
   */
  function RestrictToActive(members: seq<Member>, attendance: seq<AttendanceRow>, stored: Option<Store>): seq<Member>
  {
    if |attendance| > 0 && DateKeyStored(stored) then
      var active := ActiveOffices(attendance);
      if |active| > 0 then Filter(members, OfficeAmong(active)) else members
    else members
  }

  /**
   * The restriction drops exactly the members whose office no attendance row
   * shows, and only when it applies.
   */
  lemma RestrictSpec(members: seq<Member>, attendance: seq<AttendanceRow>, stored: Option<Store>, x: Member)
    ensures var applies := |attendance| > 0 && DateKeyStored(stored) && |ActiveOffices(attendance)| > 0;
      x in RestrictToActive(members, attendance, stored) <==>
        x in members && (applies ==> exists a :: a in attendance && a.office.Some? && a.office == x.office)
  {
  }

  // ---------------------------------------------------------------------
  // `calculate_top_members`

  /** `fillna(0)` on a nullable count. */
  function CountOrZero(c: Option<int>): int
  {
    if c.Some? then c.value else 0
  }

  function RateOrZero(c: Option<real>): real
  {
    if c.Some? then c.value else 0.0
  }

  /** `int(x)` truncates toward zero. */
  function Truncated(n: int, d: nat): int
    requires d > 0
  {
    if n >= 0 then n / d else -((-n) / d)
  }

  /** `max(1, int(attended / 2))`. */
  function TopicsCompleted(attended: int): (r: int)
  {
    var half := Truncated(attended, 2);
    if half > 1 then half else 1
  }

  /** At least one topic, and otherwise half the sessions attended, rounded down. */
  lemma TopicsCompletedSpec(attended: int)
    ensures TopicsCompleted(attended) >= 1
    ensures attended >= 2 ==> 2 * TopicsCompleted(attended) <= attended < 2 * TopicsCompleted(attended) + 2
    ensures attended < 4 ==> TopicsCompleted(attended) == 1
  {
  }

  /** The metric the dropdown selects; any other key reads as sessions attended. */
  datatype Metric = SessionsAttended | TrainingHours | TopicsCount

  function MetricOf(key: string): (m: Metric)
    ensures m == TrainingHours <==> key == "training_hours"
    ensures m == TopicsCount <==> key == "topics_completed"
  {
    if key == "sessions_attended" then SessionsAttended
    else if key == "training_hours" then TrainingHours
    else if key == "topics_completed" then TopicsCount
    else SessionsAttended
  }

  /** The columns `calculate_top_members` adds to a member. */
  datatype Calc = Calc(member: Member, registered: int, attended: int, rate: real, missed: int,
                       hours: real, topics: int, value: real, suffix: string)

  /** A member with its nulls filled, its estimated hours and topics, and the selected metric. */
  function CalcOf(m: Metric): Member -> Calc
  {
    (x: Member) =>
      var attended := CountOrZero(x.attended);
      var hours := attended as real * 1.0;
      var topics := TopicsCompleted(attended);
      var value := match m
        case SessionsAttended => attended as real
        case TrainingHours => hours
        case TopicsCount => topics as real;
      Calc(x, CountOrZero(x.registered), attended, RateOrZero(x.rate), CountOrZero(x.missed), hours, topics, value,
           if m == TrainingHours then " hrs" else "")
  }

  /** `sort_values('metric_value', ascending=False)`. */
  function ValueDescending(a: Calc, b: Calc): bool
  {
    a.value >= b.value
  }

  lemma ValueDescendingPreorder()
    ensures TotalPreorder(ValueDescending)
  {
  }

  /** `head(n)`: the first `n` rows, or for a negative `n` all but the last `-n`. */
  function PyHead<T>(xs: seq<T>, n: int): (r: seq<T>)
    ensures r <= xs
    ensures n >= 0 ==> |r| == if n < |xs| then n else |xs|
    ensures n < 0 ==> |r| == if |xs| + n > 0 then |xs| + n else 0
  {
    if n >= 0 then Head(xs, n)
    else if |xs| + n > 0 then xs[..|xs| + n]
    else []
  }

  function Ranked(members: seq<Member>, m: Metric): (r: seq<Calc>)
    ensures SortedWith(r, ValueDescending)
    ensures multiset(r) == multiset(Map(members, CalcOf(m)))
  {
    ValueDescendingPreorder();
    SortWith(Map(members, CalcOf(m)), ValueDescending)
  }

  /** The members with the highest metric, at most `count` of them. */
  function TopMembers(members: seq<Member>, key: string, count: int): seq<Calc>
  {
    PyHead(Ranked(members, MetricOf(key)), count)
  }

  /** A prefix of the ranking keeps its descending order. */
  lemma TopDescending(sorted: seq<Calc>, top: seq<Calc>)
    requires SortedWith(sorted, ValueDescending) && top <= sorted
    ensures forall i, j :: 0 <= i < j < |top| ==> top[i].value >= top[j].value
  {
    forall i, j | 0 <= i < j < |top| ensures top[i].value >= top[j].value {
      assert top[i] == sorted[i] && top[j] == sorted[j];
      assert ValueDescending(sorted[i], sorted[j]);
    }
  }

  /** A row of the ranking is a member's row, computed from that member. */
  lemma TopDrawn(members: seq<Member>, m: Metric, sorted: seq<Calc>, top: seq<Calc>)
    requires multiset(sorted) == multiset(Map(members, CalcOf(m))) && top <= sorted
    ensures forall c :: c in top ==> c.member in members && c == CalcOf(m)(c.member)
  {
    var all := Map(members, CalcOf(m));
    forall c | c in top ensures c.member in members && c == CalcOf(m)(c.member) {
      assert c in sorted;
      assert c in multiset(sorted);
      assert c in all;
      var i :| 0 <= i < |all| && all[i] == c;
    }
  }

  /** No row left out of a prefix of the ranking outranks one kept. */
  lemma TopOutranks(all: seq<Calc>, sorted: seq<Calc>, top: seq<Calc>)
    requires SortedWith(sorted, ValueDescending) && multiset(sorted) == multiset(all) && top <= sorted
    ensures forall c, e :: c in top && e in all && e !in top ==> c.value >= e.value
  {
    forall c, e | c in top && e in all && e !in top ensures c.value >= e.value {
      assert e in multiset(all);
      assert e in sorted;
      var i, k := PrefixPositions(sorted, top, c, e);
      assert ValueDescending(sorted[i], sorted[k]);
    }
  }

  /**
   * The top members are members' rows, at most `count` of them (all of them
   * when there are fewer), in descending order of the metric, and no member
   * left out has a higher value than one kept.
   */
  lemma TopMembersSpec(members: seq<Member>, key: string, count: int)
    ensures var top := TopMembers(members, key, count);
      (count >= 0 ==> |top| == if count < |members| then count else |members|)
      && (forall i, j :: 0 <= i < j < |top| ==> top[i].value >= top[j].value)
      && (forall c :: c in top ==> c.member in members && c == CalcOf(MetricOf(key))(c.member))
      && (forall c, e :: c in top && e in Map(members, CalcOf(MetricOf(key))) && e !in top ==> c.value >= e.value)
  {
    var m := MetricOf(key);
    var sorted := Ranked(members, m);
    var top := PyHead(sorted, count);
    assert |sorted| == |Map(members, CalcOf(m))| by {
      assert |multiset(sorted)| == |multiset(Map(members, CalcOf(m)))|;
    }
    TopDescending(sorted, top);
    TopDrawn(members, m, sorted, top);
    TopOutranks(Map(members, CalcOf(m)), sorted, top);
  }

  /** Hours are the sessions attended, and the topics at least one. */
  lemma CalcSpec(m: Metric, x: Member)
    ensures var c := CalcOf(m)(x);
      c.attended == (if x.attended.Some? then x.attended.value else 0)
      && c.hours == c.attended as real && c.topics >= 1
      && c.value == (if m == TrainingHours then c.hours else if m == TopicsCount then c.topics as real else c.attended as real)
      && (c.suffix == " hrs" <==> m == TrainingHours)
  {
    TopicsCompletedSpec(CountOrZero(x.attended));
  }

  // ---------------------------------------------------------------------
  // `create_members_chart`

  const NameLimit: nat := 15

  /** Names longer than 15 characters keep their first 15 and gain "...". */
  function DisplayName(name: string): string
  {
    if |name| > NameLimit then name[..NameLimit] + "..." else name
  }

  /** A shown name is at most 18 characters, starts the full name, and is the full name when that fits. */
  lemma DisplayNameSpec(name: string)
    ensures |DisplayName(name)| <= NameLimit + 3
    ensures |name| <= NameLimit ==> DisplayName(name) == name
    ensures |name| > NameLimit ==> DisplayName(name)[..NameLimit] == name[..NameLimit] && |DisplayName(name)| == NameLimit + 3
  {
  }

  /** `f"{x}"` of a nullable office cell: a null prints as "None". */
  function OfficeText(c: Option<string>): string
  {
    if c.Some? then c.value else "None"
  }

  /** The details a bar's hover shows. */
  datatype Hover = Hover(name: string, office: string, attended: int, registered: int, rate: real, missed: int, hours: real)

  function HoverOf(c: Calc): Hover
  {
    Hover(c.member.name, OfficeText(c.member.office), c.attended, c.registered, c.rate, c.missed, c.hours)
  }

  /** The loop over the top members appending one hover text each. */
  method HoverTexts(top: seq<Calc>) returns (hovers: seq<Hover>)
    ensures |hovers| == |top|
    ensures forall i :: 0 <= i < |top| ==> hovers[i].name == top[i].member.name && hovers[i].hours == top[i].hours
    ensures hovers == Map(top, HoverOf)
  {
    hovers := [];
    var i := 0;
    while i < |top|
      invariant 0 <= i <= |top|
      invariant hovers == Map(top[..i], HoverOf)
    {
      var c := top[i];
      hovers := hovers + [HoverOf(c)];
      MapAppend(top[..i], [c], HoverOf);
      assert top[..i + 1] == top[..i] + [c];
      i := i + 1;
    }
    assert top[..i] == top;
  }

  /** The chart's title and axis label for a metric key; an unknown key reads as sessions attended. */
  function TitleOf(key: string): (string, string)
  {
    if key == "training_hours" then ("Top Members by Training Hours", "Estimated Training Hours")
    else if key == "topics_completed" then ("Top Members by Topics Completed", "Estimated Topics Completed")
    else ("Top Members by Sessions Attended", "Sessions Attended")
  }

  datatype Chart =
    | EmptyChart(title: string, message: string)
    | Bars(title: string, yTitle: string, names: seq<string>, values: seq<real>, suffixes: seq<string>, hovers: seq<Hover>)

  function NameOf(c: Calc): string
  {
    DisplayName(c.member.name)
  }

  function ValueOf(c: Calc): real
  {
    c.value
  }

  function SuffixOf(c: Calc): string
  {
    c.suffix
  }

  /** One bar per top member, in order, titled by the metric and the count asked for. */
  function ChartOf(top: seq<Calc>, key: string, count: int): Chart
  {
    if |top| == 0 then EmptyChart("No Data", "No member data available")
    else
      var info := TitleOf(key);
      Bars(info.0 + " (Top " + IntToString(count) + ")", info.1,
           Map(top, NameOf), Map(top, ValueOf), Map(top, SuffixOf), Map(top, HoverOf))
  }

  // ---------------------------------------------------------------------
  // `update_engaged_members_chart`

  /** `engagement_metric or 'sessions_attended'`. */
  function MetricKeyOr(key: Option<string>): (r: string)
    ensures key.Some? && key.value != "" ==> r == key.value
    ensures key.None? || key.value == "" ==> r == "sessions_attended"
  {
    if key.Some? && key.value != "" then key.value else "sessions_attended"
  }

  /** `top_count or 20`. */
  function CountOr(count: Option<int>): (r: int)
    ensures count.Some? && count.value != 0 ==> r == count.value
    ensures count.None? || count.value == 0 ==> r == 20
  {
    if count.Some? && count.value != 0 then count.value else 20
  }

  function UpdateChart(members: seq<Member>, attendance: seq<AttendanceRow>, stored: Option<Store>,
                       key: Option<string>, count: Option<int>, coerce: string -> Option<DateTime>): Chart
  {
    var metric, n := MetricKeyOr(key), CountOr(count);
    if |members| == 0 then EmptyChart("No Member Data", "No member engagement data found")
    else
      var kept := FilterMembers(members, stored);
      if |kept| == 0 then EmptyChart("No Data After Filtering", "No members match the selected filters")
      else
        var active := RestrictToActive(kept, FilterAttendance(attendance, stored, coerce), stored);
        var top := TopMembers(active, metric, n);
        if |top| == 0 then EmptyChart("No Engagement Data", "Unable to calculate engagement metrics")
        else ChartOf(top, metric, n)
  }

  /**
   * A drawn chart has one bar per top member of the restricted members, at
   * most the count asked for (20 by default), named by the shortened names
   * and ordered by descending value.
   */
  lemma UpdateChartSpec(members: seq<Member>, attendance: seq<AttendanceRow>, stored: Option<Store>,
                        key: Option<string>, count: Option<int>, coerce: string -> Option<DateTime>)
    ensures var r := UpdateChart(members, attendance, stored, key, count, coerce);
      (|members| == 0 ==> r == EmptyChart("No Member Data", "No member engagement data found"))
      && (r.Bars? ==>
        var n := CountOr(count);
        |r.names| == |r.values| == |r.hovers| > 0
        && (n >= 0 ==> |r.values| <= n)
        && (forall i, j :: 0 <= i < j < |r.values| ==> r.values[i] >= r.values[j])
        && (forall i :: 0 <= i < |r.names| ==> |r.names[i]| <= NameLimit + 3))
  {
    var r := UpdateChart(members, attendance, stored, key, count, coerce);
    if r.Bars? {
      var metric, n := MetricKeyOr(key), CountOr(count);
      var kept := FilterMembers(members, stored);
      var active := RestrictToActive(kept, FilterAttendance(attendance, stored, coerce), stored);
      var top := TopMembers(active, metric, n);
      TopMembersSpec(active, metric, n);
      forall i | 0 <= i < |r.names| ensures |r.names[i]| <= NameLimit + 3 {
        DisplayNameSpec(top[i].member.name);
      }
    }
  }
}
