/**
 * The Training "office engagement trends" panel, its data: attendance
 * statistics and active-member engagement, and how the filter store narrows
 * them. The series lives in OfficeEngagementSeries, the chart, the insights
 * and the callback in OfficeEngagementTrends.
 */
module TrainingOfficeEngagement {
  import opened Common
  import opened TrainingData

  // ---------------------------------------------------------------------
  // The query results

  /**
   * One `Fact_AttendanceStats` row. The query keeps rows with an office, an
   * AOR and a start time; the class id and topic name it also selects are
   * never read. Ids are read as their text.
   */
  datatype AttendanceStat = AttendanceStat(aor: string, office: string, topicId: Option<string>,
                                           locationId: Option<string>, instructorId: Option<string>,
                                           membersAttended: int, totalAttendances: int, startTime: string)

  /** One active `Fact_MemberEngagement` row, with its office and AOR guaranteed by the query. */
  datatype Member = Member(aor: string, office: string, sessionsAttended: real, attendanceRate: real)

  datatype Base = Base(attendance: seq<AttendanceStat>, members: seq<Member>)

  /** What the preparation reads back from the filters. */
  datatype Filtered = Filtered(attendance: seq<Timed<AttendanceStat>>, members: seq<Member>)

  // ---------------------------------------------------------------------
  // The selections

  function StatStart(a: AttendanceStat): string
  {
    a.startTime
  }

  function StatAorIn(aors: seq<string>): Timed<AttendanceStat> -> bool
  {
    (s: Timed<AttendanceStat>) => s.row.aor in aors
  }

  function MemberAorIn(aors: seq<string>): Member -> bool
  {
    (m: Member) => m.aor in aors
  }

  /** The office selection compares the attendance row's own office, with no AOR mapping. */
  function StatOfficeIn(offices: seq<string>): Timed<AttendanceStat> -> bool
  {
    (s: Timed<AttendanceStat>) => s.row.office in offices
  }

  function MemberOfficeIn(offices: seq<string>): Member -> bool
  {
    (m: Member) => m.office in offices
  }

  /** `TrainingTopicId.astype(str).isin(topics)`: a null id reads "nan". */
  function TopicIdIn(topics: seq<string>): Timed<AttendanceStat> -> bool
  {
    (s: Timed<AttendanceStat>) => IdText(s.row.topicId) in topics
  }

  function InstructorIdIn(ids: seq<string>): Timed<AttendanceStat> -> bool
  {
    (s: Timed<AttendanceStat>) => IdText(s.row.instructorId) in ids
  }

  function LocationIdIn(ids: seq<string>): Timed<AttendanceStat> -> bool
  {
    (s: Timed<AttendanceStat>) => IdText(s.row.locationId) in ids
  }

  /** The AOR and office selections narrow both tables. */
  function AorStep(f: Filtered, aors: seq<string>): Filtered
  {
    if |aors| == 0 then f
    else Filtered(Filter(f.attendance, StatAorIn(aors)), Filter(f.members, MemberAorIn(aors)))
  }

  function OfficeStep(f: Filtered, offices: seq<string>): Filtered
  {
    if |offices| == 0 then f
    else Filtered(Filter(f.attendance, StatOfficeIn(offices)), Filter(f.members, MemberOfficeIn(offices)))
  }

  /**
   * A topic, instructor or location selection narrows the attendance only.
   * The source also asks that the column exist, which it does for every
   * non-empty table the query returns, and an empty table stays empty.
   */
  function AttendanceStep(f: Filtered, tokens: seq<string>, keep: Timed<AttendanceStat> -> bool): Filtered
  {
    if |tokens| == 0 then f else f.(attendance := Filter(f.attendance, keep))
  }

  // ---------------------------------------------------------------------
  // `apply_office_engagement_filters`

  /** The filter chain for a given window and given selections. */
  function FiltersWith(b: Base, window: Option<(int, int)>, t: PanelLists, coerce: string -> Option<DateTime>): Filtered
  {
    var dated := Filtered(Dated(b.attendance, StatStart, window, coerce), b.members);
    var placed := OfficeStep(AorStep(dated, t.aors), t.offices);
    var byTopic := AttendanceStep(placed, t.topics, TopicIdIn(t.topics));
    var byInstructor := AttendanceStep(byTopic, t.instructors, InstructorIdIn(t.instructors));
    AttendanceStep(byInstructor, t.locations, LocationIdIn(t.locations))
  }

  /** A missing store reads as no selection and no dates. */
  function ApplyFilters(b: Base, stored: Option<Store>, r: ListReader, coerce: string -> Option<DateTime>): Filtered
  {
    var st := StoreOrEmpty(stored);
    FiltersWith(b, StoredWindow(st), PanelListsOf(st, r), coerce)
  }

  /** What the five selections ask of an attendance row. */
  predicate StatAdmitted(a: AttendanceStat, t: PanelLists)
  {
    (|t.aors| > 0 ==> a.aor in t.aors)
    && (|t.offices| > 0 ==> a.office in t.offices)
    && (|t.topics| > 0 ==> IdText(a.topicId) in t.topics)
    && (|t.instructors| > 0 ==> IdText(a.instructorId) in t.instructors)
    && (|t.locations| > 0 ==> IdText(a.locationId) in t.locations)
  }

  /** What the selections ask of a member row: only its AOR and its office. */
  predicate MemberAdmitted(m: Member, t: PanelLists)
  {
    (|t.aors| > 0 ==> m.aor in t.aors) && (|t.offices| > 0 ==> m.office in t.offices)
  }

  lemma StatRowKept(b: Base, w: Option<(int, int)>, t: PanelLists, coerce: string -> Option<DateTime>, s: Timed<AttendanceStat>)
    ensures s in FiltersWith(b, w, t, coerce).attendance <==>
      s.row in b.attendance && ParseCustomDatetime(Some(s.row.startTime), coerce) == Some(s.start)
      && (w.Some? ==> InWindow(s.start, w.value)) && StatAdmitted(s.row, t)
  {
    var f0 := Filtered(Dated(b.attendance, StatStart, w, coerce), b.members);
    var f1 := AorStep(f0, t.aors);
    var f2 := OfficeStep(f1, t.offices);
    var f3 := AttendanceStep(f2, t.topics, TopicIdIn(t.topics));
    var f4 := AttendanceStep(f3, t.instructors, InstructorIdIn(t.instructors));
    var f5 := AttendanceStep(f4, t.locations, LocationIdIn(t.locations));
    assert s in f0.attendance <==> (s.row in b.attendance && ParseCustomDatetime(Some(s.row.startTime), coerce) == Some(s.start)
      && (w.Some? ==> InWindow(s.start, w.value)));
    assert s in f1.attendance <==> s in f0.attendance && (|t.aors| > 0 ==> s.row.aor in t.aors);
    assert s in f2.attendance <==> s in f1.attendance && (|t.offices| > 0 ==> s.row.office in t.offices);
    assert s in f3.attendance <==> s in f2.attendance && (|t.topics| > 0 ==> IdText(s.row.topicId) in t.topics);
    assert s in f4.attendance <==> s in f3.attendance && (|t.instructors| > 0 ==> IdText(s.row.instructorId) in t.instructors);
    assert s in f5.attendance <==> s in f4.attendance && (|t.locations| > 0 ==> IdText(s.row.locationId) in t.locations);
  }

  /**
   * An attendance row is kept exactly when it comes from the query, its
   * start time parses and lies in the stored window, and it meets all five
   * selections.
   */
  lemma AttendanceKept(b: Base, stored: Option<Store>, r: ListReader, coerce: string -> Option<DateTime>, s: Timed<AttendanceStat>)
    ensures var st := StoreOrEmpty(stored); var w := StoredWindow(st);
      s in ApplyFilters(b, stored, r, coerce).attendance <==>
        s.row in b.attendance && ParseCustomDatetime(Some(s.row.startTime), coerce) == Some(s.start)
        && (w.Some? ==> InWindow(s.start, w.value)) && StatAdmitted(s.row, PanelListsOf(st, r))
  {
    var st := StoreOrEmpty(stored);
    StatRowKept(b, StoredWindow(st), PanelListsOf(st, r), coerce, s);
  }

  /**
   * A member row is kept exactly when its AOR and office are selected (or
   * nothing is): the dates, topics, instructors and locations leave the
   * members alone, in their query order.
   */
  lemma MembersKept(b: Base, stored: Option<Store>, r: ListReader, coerce: string -> Option<DateTime>, m: Member)
    ensures m in ApplyFilters(b, stored, r, coerce).members <==> m in b.members && MemberAdmitted(m, PanelListsOf(StoreOrEmpty(stored), r))
  {
    var st := StoreOrEmpty(stored);
    MemberRowKept(b, StoredWindow(st), PanelListsOf(st, r), coerce, m);
  }

  lemma MemberRowKept(b: Base, w: Option<(int, int)>, t: PanelLists, coerce: string -> Option<DateTime>, m: Member)
    ensures m in FiltersWith(b, w, t, coerce).members <==> m in b.members && MemberAdmitted(m, t)
  {
    var f0 := Filtered(Dated(b.attendance, StatStart, w, coerce), b.members);
    var f1 := AorStep(f0, t.aors);
    var f2 := OfficeStep(f1, t.offices);
    assert m in f1.members <==> m in b.members && (|t.aors| > 0 ==> m.aor in t.aors);
    assert m in f2.members <==> m in f1.members && (|t.offices| > 0 ==> m.office in t.offices);
    assert FiltersWith(b, w, t, coerce).members == f2.members;
  }
}
