/**
 * The Training "session scheduling trends" panel: the scheduled classes are
 * narrowed by the filter store, labelled with their month, quarter or year,
 * counted as distinct classes per period and group, and drawn as one trend
 * line per group with up to three insights.
 */
module TrainingSessionScheduling {
  import opened Common
  import opened TrainingData

  // ---------------------------------------------------------------------
  // The query results

  /**
   * One `Fact_TrainingClasses` row. The query keeps only rows with a start
   * time and an AOR; the other nullable cells are Option. Ids are read as
   * their text.
   */
  datatype TrainingClass = TrainingClass(classId: string, startTime: string, aor: string,
                                         instructorId: Option<string>, instructorName: Option<string>,
                                         locationId: Option<string>)

  datatype Base = Base(classes: seq<TrainingClass>, topics: seq<TopicAssignment>, aorOffices: seq<AorOffice>)

  /** A class with its parsed start time (`ParsedStartTime`). */
  type Session = Timed<TrainingClass>

  /** What the preparation reads back: the narrowed classes and topic assignments. */
  datatype Scheduled = Scheduled(sessions: seq<Session>, topics: seq<TopicAssignment>)

  // ---------------------------------------------------------------------
  // Start times and the date window

  function ClassStart(c: TrainingClass): string
  {
    c.startTime
  }

  // ---------------------------------------------------------------------
  // The selections

  function AorIn(aors: seq<string>): Session -> bool
  {
    (s: Session) => s.row.aor in aors
  }

  /**
   * Classes keep the selected AORs; topic assignments keep the ids the
   * selected AORs map to, and stay whole when none of them maps.
   */
  function AorStep(f: Scheduled, aorOffices: seq<AorOffice>, aors: seq<string>): Scheduled
  {
    if |aors| == 0 then f
    else Scheduled(Filter(f.sessions, AorIn(aors)), NarrowTopicsByAor(f.topics, aorOffices, aors))
  }

  /** Applied only when offices are selected, the mapping is non-empty and some selected office maps. */
  function OfficeStep(f: Scheduled, aorOffices: seq<AorOffice>, offices: seq<string>): Scheduled
  {
    if |offices| > 0 && |aorOffices| > 0 && |OfficeAors(aorOffices, offices)| > 0 then
      Scheduled(Filter(f.sessions, AorIn(OfficeAors(aorOffices, offices))), f.topics)
    else f
  }

  function ClassIn(classIds: seq<string>): Session -> bool
  {
    (s: Session) => s.row.classId in classIds
  }

  /**
   * Skipped when no topic is selected or no topic assignment is left;
   * otherwise assignments keep the selected topics and classes keep the
   * ones those assignments name.
   */
  function TopicStep(f: Scheduled, topics: seq<string>): Scheduled
  {
    if |topics| > 0 && |f.topics| > 0 then
      var kept := Filter(f.topics, TopicIn(topics));
      Scheduled(Filter(f.sessions, ClassIn(ClassIdsOf(kept))), kept)
    else f
  }

  /** A class survives the topic step exactly when an assignment of a selected topic names it. */
  lemma TopicStepSpec(f: Scheduled, topics: seq<string>, s: Session)
    requires |topics| > 0 && |f.topics| > 0
    ensures s in TopicStep(f, topics).sessions <==>
      s in f.sessions && exists t :: t in f.topics && t.topicId in topics && s.row.classId == t.classId
    ensures forall t :: t in TopicStep(f, topics).topics <==> t in f.topics && t.topicId in topics
  {
    var kept := Filter(f.topics, TopicIn(topics));
    if exists t :: t in f.topics && t.topicId in topics && s.row.classId == t.classId {
      var t :| t in f.topics && t.topicId in topics && s.row.classId == t.classId;
      assert t in kept;
    }
  }

  function SessionInstructorIn(instructors: seq<string>): Session -> bool
  {
    (s: Session) => IdText(s.row.instructorId) in instructors
  }

  function TopicInstructorIn(instructors: seq<string>): TopicAssignment -> bool
  {
    (t: TopicAssignment) => IdText(t.instructorId) in instructors
  }

  /** The instructor selection narrows classes and topic assignments alike. */
  function InstructorStep(f: Scheduled, instructors: seq<string>): Scheduled
  {
    if |instructors| == 0 then f
    else Scheduled(Filter(f.sessions, SessionInstructorIn(instructors)), Filter(f.topics, TopicInstructorIn(instructors)))
  }

  function LocationIn(locations: seq<string>): Session -> bool
  {
    (s: Session) => IdText(s.row.locationId) in locations
  }

  function LocationStep(f: Scheduled, locations: seq<string>): Scheduled
  {
    if |locations| == 0 then f else Scheduled(Filter(f.sessions, LocationIn(locations)), f.topics)
  }

  // ---------------------------------------------------------------------
  // `apply_scheduling_filters`

  /** The AOR, office and topic steps, run on the dated classes. */
  function Narrowed(b: Base, t: PanelLists, window: Option<(int, int)>, coerce: string -> Option<DateTime>): Scheduled
  {
    var dated := Scheduled(Dated(b.classes, ClassStart, window, coerce), b.topics);
    TopicStep(OfficeStep(AorStep(dated, b.aorOffices, t.aors), b.aorOffices, t.offices), t.topics)
  }

  function ApplyFilters(b: Base, stored: Option<Store>, r: ListReader, coerce: string -> Option<DateTime>): Scheduled
  {
    var st := StoreOrEmpty(stored);
    FiltersWith(b, PanelListsOf(st, r), StoredWindow(st), coerce)
  }

  /** The filter chain for given selections and a given window. */
  function FiltersWith(b: Base, t: PanelLists, window: Option<(int, int)>, coerce: string -> Option<DateTime>): Scheduled
  {
    LocationStep(InstructorStep(Narrowed(b, t, window, coerce), t.instructors), t.locations)
  }

  /** What the date window and the AOR, instructor and location selections ask of a class, read off the class alone. */
  predicate SessionKept(s: Session, t: PanelLists, window: Option<(int, int)>, coerce: string -> Option<DateTime>)
  {
    ParseCustomDatetime(Some(s.row.startTime), coerce) == Some(s.start)
    && (window.Some? ==> InWindow(s.start, window.value))
    && (|t.aors| > 0 ==> s.row.aor in t.aors)
    && (|t.instructors| > 0 ==> IdText(s.row.instructorId) in t.instructors)
    && (|t.locations| > 0 ==> IdText(s.row.locationId) in t.locations)
  }

  /** The topic assignments the topic step reads: those the AOR selection leaves. */
  function TopicsLeft(b: Base, aors: seq<string>): seq<TopicAssignment>
  {
    if |aors| == 0 then b.topics else NarrowTopicsByAor(b.topics, b.aorOffices, aors)
  }

  /** The office selection, when it applies, asks for a class of an AOR the selected offices map to. */
  predicate OfficeAdmits(s: Session, b: Base, t: PanelLists)
  {
    |t.offices| > 0 && |b.aorOffices| > 0 && |OfficeAors(b.aorOffices, t.offices)| > 0 ==>
      s.row.aor in OfficeAors(b.aorOffices, t.offices)
  }

  /** The topic selection, when assignments are left, asks for a class an assignment of a selected topic names. */
  predicate TopicAdmits(s: Session, b: Base, t: PanelLists)
  {
    var left := TopicsLeft(b, t.aors);
    |t.topics| > 0 && |left| > 0 ==> exists ta :: ta in left && ta.topicId in t.topics && s.row.classId == ta.classId
  }

  /**
   * A class is kept exactly when it comes from the query, its start time
   * parses and lies in the stored window, and it meets the AOR, office,
   * topic, instructor and location selections as read by the reader.
   */
  lemma KeptSessions(b: Base, stored: Option<Store>, r: ListReader, coerce: string -> Option<DateTime>, s: Session)
    ensures var st := StoreOrEmpty(stored); var t := PanelListsOf(st, r); var w := StoredWindow(st);
      s in ApplyFilters(b, stored, r, coerce).sessions <==>
        s.row in b.classes && SessionKept(s, t, w, coerce) && OfficeAdmits(s, b, t) && TopicAdmits(s, b, t)
  {
    var st := StoreOrEmpty(stored);
    SessionFiltered(b, PanelListsOf(st, r), StoredWindow(st), coerce, s);
  }

  lemma SessionFiltered(b: Base, t: PanelLists, w: Option<(int, int)>, coerce: string -> Option<DateTime>, s: Session)
    ensures s in FiltersWith(b, t, w, coerce).sessions <==>
      s.row in b.classes && SessionKept(s, t, w, coerce) && OfficeAdmits(s, b, t) && TopicAdmits(s, b, t)
  {
    var f0 := Scheduled(Dated(b.classes, ClassStart, w, coerce), b.topics);
    var f1 := AorStep(f0, b.aorOffices, t.aors);
    var f2 := OfficeStep(f1, b.aorOffices, t.offices);
    var f3 := TopicStep(f2, t.topics);
    var f4 := InstructorStep(f3, t.instructors);
    DatedMember(b.classes, w, coerce, s);
    AorStepMember(f0, b.aorOffices, t.aors, s);
    OfficeStepMember(f1, b, t, s);
    assert f2.topics == TopicsLeft(b, t.aors);
    TopicStepMember(f2, b, t, s);
    IdStepsMember(f3, t, s);
  }

  lemma DatedMember(rows: seq<TrainingClass>, w: Option<(int, int)>, coerce: string -> Option<DateTime>, s: Session)
    ensures s in Dated(rows, ClassStart, w, coerce) <==>
      (s.row in rows && ParseCustomDatetime(Some(s.row.startTime), coerce) == Some(s.start) && (w.Some? ==> InWindow(s.start, w.value)))
  {
  }

  lemma AorStepMember(f: Scheduled, aorOffices: seq<AorOffice>, aors: seq<string>, s: Session)
    ensures s in AorStep(f, aorOffices, aors).sessions <==> s in f.sessions && (|aors| > 0 ==> s.row.aor in aors)
  {
  }

  lemma OfficeStepMember(f: Scheduled, b: Base, t: PanelLists, s: Session)
    ensures s in OfficeStep(f, b.aorOffices, t.offices).sessions <==> s in f.sessions && OfficeAdmits(s, b, t)
    ensures OfficeStep(f, b.aorOffices, t.offices).topics == f.topics
  {
  }

  lemma TopicStepMember(f: Scheduled, b: Base, t: PanelLists, s: Session)
    requires f.topics == TopicsLeft(b, t.aors)
    ensures s in TopicStep(f, t.topics).sessions <==> s in f.sessions && TopicAdmits(s, b, t)
  {
    if |t.topics| > 0 && |f.topics| > 0 {
      TopicStepSpec(f, t.topics, s);
    }
  }

  lemma IdStepsMember(f: Scheduled, t: PanelLists, s: Session)
    ensures s in LocationStep(InstructorStep(f, t.instructors), t.locations).sessions <==> (s in f.sessions
      && (|t.instructors| > 0 ==> IdText(s.row.instructorId) in t.instructors)
      && (|t.locations| > 0 ==> IdText(s.row.locationId) in t.locations))
  {
  }

  /** The AOR step keeps only assignments it was given. */
  lemma AorStepTopicsWithin(f: Scheduled, aorOffices: seq<AorOffice>, aors: seq<string>)
    ensures forall t :: t in AorStep(f, aorOffices, aors).topics ==> t in f.topics
  {
  }

  /**
   * With topics selected and assignments left after the AOR step, each class
   * returned is one that some assignment of a selected topic names.
   */
  lemma KeptSessionsHaveTopic(b: Base, stored: Option<Store>, r: ListReader, coerce: string -> Option<DateTime>, s: Session)
    requires s in ApplyFilters(b, stored, r, coerce).sessions
    requires var t := PanelListsOf(StoreOrEmpty(stored), r); |t.topics| > 0 && |TopicsLeft(b, t.aors)| > 0
    ensures exists ta :: ta in b.topics && ta.topicId in PanelListsOf(StoreOrEmpty(stored), r).topics && s.row.classId == ta.classId
  {
    var st := StoreOrEmpty(stored);
    HasTopicWith(b, PanelListsOf(st, r), StoredWindow(st), coerce, s);
  }

  lemma HasTopicWith(b: Base, t: PanelLists, w: Option<(int, int)>, coerce: string -> Option<DateTime>, s: Session)
    requires s in FiltersWith(b, t, w, coerce).sessions
    requires |t.topics| > 0 && |TopicsLeft(b, t.aors)| > 0
    ensures exists ta :: ta in b.topics && ta.topicId in t.topics && s.row.classId == ta.classId
  {
    SessionFiltered(b, t, w, coerce, s);
    var ta :| ta in TopicsLeft(b, t.aors) && ta.topicId in t.topics && s.row.classId == ta.classId;
    TopicsLeftWithin(b, t.aors);
    assert ta in b.topics;
  }

  /** The AOR step keeps only assignments the query returned. */
  lemma TopicsLeftWithin(b: Base, aors: seq<string>)
    ensures forall ta :: ta in TopicsLeft(b, aors) ==> ta in b.topics
  {
  }

  /**
   * A topic assignment is returned exactly when the AOR selection leaves it,
   * the topic selection (when it applies) names its topic, and an
   * instructor selection names its instructor.
   */
  lemma KeptTopics(b: Base, stored: Option<Store>, r: ListReader, coerce: string -> Option<DateTime>, ta: TopicAssignment)
    ensures var t := PanelListsOf(StoreOrEmpty(stored), r); var left := TopicsLeft(b, t.aors);
      ta in ApplyFilters(b, stored, r, coerce).topics <==>
        ta in left && (|t.topics| > 0 && |left| > 0 ==> ta.topicId in t.topics)
        && (|t.instructors| > 0 ==> IdText(ta.instructorId) in t.instructors)
    ensures ta in ApplyFilters(b, stored, r, coerce).topics ==> ta in b.topics
  {
    var st := StoreOrEmpty(stored);
    TopicFiltered(b, PanelListsOf(st, r), StoredWindow(st), coerce, ta);
  }

  lemma TopicFiltered(b: Base, t: PanelLists, w: Option<(int, int)>, coerce: string -> Option<DateTime>, ta: TopicAssignment)
    ensures var left := TopicsLeft(b, t.aors);
      ta in FiltersWith(b, t, w, coerce).topics <==>
        ta in left && (|t.topics| > 0 && |left| > 0 ==> ta.topicId in t.topics)
        && (|t.instructors| > 0 ==> IdText(ta.instructorId) in t.instructors)
    ensures ta in FiltersWith(b, t, w, coerce).topics ==> ta in b.topics
  {
    var f0 := Scheduled(Dated(b.classes, ClassStart, w, coerce), b.topics);
    var f1 := AorStep(f0, b.aorOffices, t.aors);
    var f2 := OfficeStep(f1, b.aorOffices, t.offices);
    var f3 := TopicStep(f2, t.topics);
    var f4 := InstructorStep(f3, t.instructors);
    assert f2.topics == f1.topics == TopicsLeft(b, t.aors);
    assert ta in f3.topics <==> ta in f2.topics && (|t.topics| > 0 && |f2.topics| > 0 ==> ta.topicId in t.topics);
    assert ta in f4.topics <==> ta in f3.topics && (|t.instructors| > 0 ==> IdText(ta.instructorId) in t.instructors);
    assert FiltersWith(b, t, w, coerce).topics == f4.topics;
    AorStepTopicsWithin(f0, b.aorOffices, t.aors);
  }

  // ---------------------------------------------------------------------
  // Grouping by trend type

  datatype Trend = AllSessions | ByAor | ByTopic(topics: seq<TopicAssignment>) | ByInstructor

  /** "by_topic" without topic assignments, "all" and any unknown value fall back to one group of all sessions. */
  function TrendOf(trendType: string, topics: seq<TopicAssignment>): (r: Trend)
    ensures r.AllSessions? <==> trendType != "by_aor" && trendType != "by_instructor" && (trendType == "by_topic" ==> |topics| == 0)
    ensures r.ByTopic? ==> r.topics == topics
  {
    if trendType == "by_aor" then ByAor
    else if trendType == "by_topic" then (if |topics| > 0 then ByTopic(topics) else AllSessions)
    else if trendType == "by_instructor" then ByInstructor
    else AllSessions
  }

  const AllSessionsName: string := "All Sessions"

  /** A class counted under a time period and a group name. */
  datatype Tag = Tag(period: string, group: string, classId: string)

  /**
   * The left merge of one class with the assignments: one tag per assignment
   * of that class with a topic name; an unmatched class, or a null name, is
   * dropped by the grouping.
   */
  function TopicTags(period: string, classId: string, topics: seq<TopicAssignment>): (r: seq<Tag>)
    ensures forall g :: g in r ==> g.period == period && g.classId == classId
    ensures forall name :: Tag(period, name, classId) in r <==> exists t :: t in topics && t.classId == classId && t.topicName == Some(name)
  {
    if |topics| == 0 then []
    else
      var t := topics[0];
      var rest := TopicTags(period, classId, topics[1..]);
      assert forall x :: x in topics <==> x == t || x in topics[1..];
      if t.classId == classId && t.topicName.Some? then [Tag(period, t.topicName.value, classId)] + rest else rest
  }

  /** The tags one class contributes under a trend. */
  function TagsOf(tr: Trend, aggregation: string, s: Session): seq<Tag>
  {
    var period := TimeLabel(aggregation, s.start);
    match tr
    case AllSessions => [Tag(period, AllSessionsName, s.row.classId)]
    case ByAor => [Tag(period, s.row.aor, s.row.classId)]
    case ByTopic(topics) => TopicTags(period, s.row.classId, topics)
    case ByInstructor => if s.row.instructorName.Some? then [Tag(period, s.row.instructorName.value, s.row.classId)] else []
  }

  predicate Tagged(tr: Trend, aggregation: string, ss: seq<Session>, g: Tag)
  {
    exists s :: s in ss && g in TagsOf(tr, aggregation, s)
  }

  function Tags(tr: Trend, aggregation: string, ss: seq<Session>): (r: seq<Tag>)
    ensures forall g :: g in r <==> Tagged(tr, aggregation, ss, g)
  {
    if |ss| == 0 then []
    else
      var rest := Tags(tr, aggregation, ss[1..]);
      assert forall x :: x in ss <==> x == ss[0] || x in ss[1..];
      TagsOf(tr, aggregation, ss[0]) + rest
  }

  /** The group names a trend counts a class under. */
  predicate CountedUnder(tr: Trend, s: Session, group: string)
  {
    match tr
    case AllSessions => group == AllSessionsName
    case ByAor => group == s.row.aor
    case ByTopic(topics) => exists t :: t in topics && t.classId == s.row.classId && t.topicName == Some(group)
    case ByInstructor => s.row.instructorName == Some(group)
  }

  /**
   * What a trend counts a class under: every trend type labels a class with
   * its period; all sessions share one group, an AOR trend uses the class's
   * AOR, an instructor trend its instructor's name when there is one, and a
   * topic trend the names of the topics assigned to it.
   */
  lemma TagsMeaning(tr: Trend, aggregation: string, ss: seq<Session>, g: Tag)
    ensures Tagged(tr, aggregation, ss, g) <==>
      exists s :: s in ss && g.period == TimeLabel(aggregation, s.start) && g.classId == s.row.classId && CountedUnder(tr, s, g.group)
  {
    if Tagged(tr, aggregation, ss, g) {
      var s :| s in ss && g in TagsOf(tr, aggregation, s);
      if tr.ByTopic? {
        assert g == Tag(TimeLabel(aggregation, s.start), g.group, s.row.classId);
      }
    }
    if exists s :: s in ss && g.period == TimeLabel(aggregation, s.start) && g.classId == s.row.classId && CountedUnder(tr, s, g.group) {
      var s :| s in ss && g.period == TimeLabel(aggregation, s.start) && g.classId == s.row.classId && CountedUnder(tr, s, g.group);
      assert g in TagsOf(tr, aggregation, s);
    }
  }

  // ---------------------------------------------------------------------
  // `groupby([...]).agg({'TrainingClassId': 'nunique'})`

  /** One row of the time series: a period, a group and its number of distinct classes (`SessionCount`). */
  datatype Point = Point(period: string, group: string, sessions: nat)

  function PeriodOfTag(g: Tag): string
  {
    g.period
  }

  function GroupOfTag(g: Tag): string
  {
    g.group
  }

  function ClassOfTag(g: Tag): string
  {
    g.classId
  }

  function AtPeriod(period: string): Tag -> bool
  {
    (g: Tag) => g.period == period
  }

  function AtCell(period: string, group: string): Tag -> bool
  {
    (g: Tag) => g.period == period && g.group == group
  }

  /** The distinct class ids tagged with one period and group. */
  function ClassesAt(tags: seq<Tag>, period: string, group: string): (r: seq<string>)
    ensures NoDuplicates(r)
    ensures forall c :: c in r <==> Tag(period, group, c) in tags
  {
    var cell := Filter(tags, AtCell(period, group));
    var ids := Map(cell, ClassOfTag);
    forall c | c in ids ensures Tag(period, group, c) in tags {
      var i :| 0 <= i < |ids| && ids[i] == c;
      assert cell[i] in cell;
    }
    forall c | Tag(period, group, c) in tags ensures c in ids {
      assert Tag(period, group, c) in cell;
      var i :| 0 <= i < |cell| && cell[i] == Tag(period, group, c);
      assert ids[i] == c;
    }
    Distinct(ids)
  }

  /** The set of class ids tagged with one period and group. */
  ghost function ClassSet(tags: seq<Tag>, period: string, group: string): set<string>
  {
    set g | g in tags && g.period == period && g.group == group :: g.classId
  }

  /** The count is the number of distinct class ids: a class listed twice in one cell counts once. */
  lemma SessionCountIsDistinctClasses(tags: seq<Tag>, period: string, group: string)
    ensures |ClassesAt(tags, period, group)| == |ClassSet(tags, period, group)|
  {
    var r := ClassesAt(tags, period, group);
    DistinctCard(r);
    forall c | c in ClassSet(tags, period, group) ensures c in r {
      var g :| g in tags && g.period == period && g.group == group && g.classId == c;
      assert g == Tag(period, group, c);
    }
    assert (set c | c in r) == ClassSet(tags, period, group);
  }

  /** The periods present, in ascending order (the group keys are sorted). */
  function Periods(tags: seq<Tag>): (r: seq<string>)
    ensures StrictlyAscending(r)
    ensures forall p :: p in r <==> exists g :: g in tags && g.period == p
  {
    var ps := Map(tags, PeriodOfTag);
    forall p | p in ps ensures exists g :: g in tags && g.period == p {
      var i :| 0 <= i < |ps| && ps[i] == p;
      assert tags[i] in tags;
    }
    forall g | g in tags ensures g.period in ps {
      var i :| 0 <= i < |tags| && tags[i] == g;
      assert ps[i] == g.period;
    }
    SortedUnique(ps)
  }

  /** The groups present in one period, in ascending order. */
  function GroupsAt(tags: seq<Tag>, period: string): (r: seq<string>)
    ensures StrictlyAscending(r)
    ensures forall x :: x in r <==> exists g :: g in tags && g.period == period && g.group == x
  {
    var cell := Filter(tags, AtPeriod(period));
    var gs := Map(cell, GroupOfTag);
    forall x | x in gs ensures exists g :: g in tags && g.period == period && g.group == x {
      var i :| 0 <= i < |gs| && gs[i] == x;
      assert cell[i] in cell;
    }
    forall g | g in tags && g.period == period ensures g.group in gs {
      assert g in cell;
      var i :| 0 <= i < |cell| && cell[i] == g;
      assert gs[i] == g.group;
    }
    SortedUnique(gs)
  }

  function PointsAt(tags: seq<Tag>, period: string, groups: seq<string>): (r: seq<Point>)
    ensures |r| == |groups|
    ensures forall k :: 0 <= k < |r| ==> r[k] == Point(period, groups[k], |ClassesAt(tags, period, groups[k])|)
  {
    if |groups| == 0 then []
    else [Point(period, groups[0], |ClassesAt(tags, period, groups[0])|)] + PointsAt(tags, period, groups[1..])
  }

  /** Rows in (period, group) order: period first, then group, each as Python compares strings. */
  predicate PointLess(p: Point, q: Point)
  {
    StrLess(p.period, q.period) || (p.period == q.period && StrLess(p.group, q.group))
  }

  predicate PointsAscending(ps: seq<Point>)
  {
    forall i :: 0 <= i < |ps| - 1 ==> PointLess(ps[i], ps[i + 1])
  }

  /** A row of the series is a cell some tag falls in. */
  predicate Occupied(tags: seq<Tag>, p: Point)
  {
    p.group in GroupsAt(tags, p.period) && p.sessions == |ClassesAt(tags, p.period, p.group)|
  }

  /** Within one period, rows follow their ascending groups. */
  lemma PointsAtAscending(tags: seq<Tag>, period: string, groups: seq<string>)
    requires StrictlyAscending(groups)
    ensures PointsAscending(PointsAt(tags, period, groups))
  {
  }

  /** A period's rows followed by rows of later periods stay in order. */
  lemma JoinAscending(head: seq<Point>, rest: seq<Point>, periods: seq<string>)
    requires |periods| > 0 && StrictlyAscending(periods)
    requires PointsAscending(head) && PointsAscending(rest)
    requires forall k :: 0 <= k < |head| ==> head[k].period == periods[0]
    requires forall k :: 0 <= k < |rest| ==> rest[k].period in periods[1..]
    ensures PointsAscending(head + rest)
  {
    var r := head + rest;
    if |head| > 0 && |rest| > 0 {
      var j :| 0 <= j < |periods[1..]| && periods[1..][j] == rest[0].period;
      AscendingPairs(periods, 0, j + 1);
      assert r[|head| - 1] == head[|head| - 1] && r[|head|] == rest[0];
    }
    forall k | 0 <= k < |r| - 1 ensures PointLess(r[k], r[k + 1]) {
      if k + 1 < |head| {
        assert r[k] == head[k] && r[k + 1] == head[k + 1];
      } else if k >= |head| {
        assert r[k] == rest[k - |head|] && r[k + 1] == rest[k + 1 - |head|];
      }
    }
  }

  function PointsOver(tags: seq<Tag>, periods: seq<string>): (r: seq<Point>)
    requires StrictlyAscending(periods)
    ensures PointsAscending(r)
    ensures forall k :: 0 <= k < |r| ==> r[k].period in periods
  {
    if |periods| == 0 then []
    else
      var groups := GroupsAt(tags, periods[0]);
      var head := PointsAt(tags, periods[0], groups);
      var rest := PointsOver(tags, periods[1..]);
      PointsAtAscending(tags, periods[0], groups);
      JoinAscending(head, rest, periods);
      head + rest
  }

  /** Every row names a group present in its period and counts that cell's classes. */
  lemma {:induction false} PointsOverOccupied(tags: seq<Tag>, periods: seq<string>)
    requires StrictlyAscending(periods)
    ensures forall k :: 0 <= k < |PointsOver(tags, periods)| ==> Occupied(tags, PointsOver(tags, periods)[k])
  {
    if |periods| > 0 {
      var groups := GroupsAt(tags, periods[0]);
      var head := PointsAt(tags, periods[0], groups);
      var rest := PointsOver(tags, periods[1..]);
      PointsOverOccupied(tags, periods[1..]);
      var r := head + rest;
      assert PointsOver(tags, periods) == r;
      forall k | 0 <= k < |r| ensures Occupied(tags, r[k]) {
        if k < |head| {
          assert r[k] == head[k];
          assert groups[k] in groups;
        } else {
          assert r[k] == rest[k - |head|];
        }
      }
    }
  }

  /** The rows of the series, in the order `groupby` returns them. */
  function Points(tags: seq<Tag>): seq<Point>
  {
    PointsOver(tags, Periods(tags))
  }

  predicate HasPoint(ps: seq<Point>, period: string, group: string)
  {
    exists k :: 0 <= k < |ps| && ps[k].period == period && ps[k].group == group
  }

  lemma PointsAtCover(tags: seq<Tag>, period: string, groups: seq<string>, group: string)
    requires group in groups
    ensures HasPoint(PointsAt(tags, period, groups), period, group)
  {
    var k :| 0 <= k < |groups| && groups[k] == group;
    assert PointsAt(tags, period, groups)[k].group == group;
  }

  lemma HasPointAppend(head: seq<Point>, rest: seq<Point>, period: string, group: string)
    requires HasPoint(head, period, group) || HasPoint(rest, period, group)
    ensures HasPoint(head + rest, period, group)
  {
    if HasPoint(head, period, group) {
      var k :| 0 <= k < |head| && head[k].period == period && head[k].group == group;
      assert (head + rest)[k] == head[k];
    } else {
      var k :| 0 <= k < |rest| && rest[k].period == period && rest[k].group == group;
      assert (head + rest)[|head| + k] == rest[k];
    }
  }

  lemma {:induction false} PointsOverCover(tags: seq<Tag>, periods: seq<string>, g: Tag)
    requires StrictlyAscending(periods)
    requires g in tags && g.period in periods
    ensures HasPoint(PointsOver(tags, periods), g.period, g.group)
  {
    var groups := GroupsAt(tags, periods[0]);
    var head := PointsAt(tags, periods[0], groups);
    var rest := PointsOver(tags, periods[1..]);
    assert PointsOver(tags, periods) == head + rest;
    if g.period == periods[0] {
      assert g.group in groups;
      PointsAtCover(tags, periods[0], groups, g.group);
    } else {
      assert g.period in periods[1..];
      PointsOverCover(tags, periods[1..], g);
    }
    HasPointAppend(head, rest, g.period, g.group);
  }

  /**
   * The series has one row per (period, group) that holds a class, in
   * ascending (period, group) order, and each row counts the distinct
   * classes in its cell, at least one.
   */
  lemma PointsSpec(tags: seq<Tag>)
    ensures PointsAscending(Points(tags))
    ensures forall g :: g in tags ==> HasPoint(Points(tags), g.period, g.group)
    ensures forall k :: 0 <= k < |Points(tags)| ==>
      Points(tags)[k].sessions == |ClassSet(tags, Points(tags)[k].period, Points(tags)[k].group)| && Points(tags)[k].sessions > 0
  {
    var r := Points(tags);
    PointsOverOccupied(tags, Periods(tags));
    forall g | g in tags ensures HasPoint(r, g.period, g.group) {
      PointsOverCover(tags, Periods(tags), g);
    }
    forall k | 0 <= k < |r| ensures r[k].sessions == |ClassSet(tags, r[k].period, r[k].group)| && r[k].sessions > 0 {
      var p := r[k];
      assert Occupied(tags, p);
      SessionCountIsDistinctClasses(tags, p.period, p.group);
      var g :| g in tags && g.period == p.period && g.group == p.group;
      assert g == Tag(p.period, p.group, g.classId);
      assert g.classId in ClassesAt(tags, p.period, p.group);
    }
  }

  // ---------------------------------------------------------------------
  // `prepare_scheduling_time_series_data`

  /** No class gives an empty series; otherwise the classes are tagged under the trend and counted per cell. */
  function Prepare(f: Scheduled, aggregation: string, trendType: string): seq<Point>
  {
    if |f.sessions| == 0 then [] else Points(Tags(TrendOf(trendType, f.topics), aggregation, f.sessions))
  }

  /** The distinct classes of one period counted under one group. */
  ghost function SessionClasses(ss: seq<Session>, tr: Trend, aggregation: string, period: string, group: string): set<string>
  {
    set s | s in ss && TimeLabel(aggregation, s.start) == period && CountedUnder(tr, s, group) :: s.row.classId
  }

  lemma ClassSetOfTags(ss: seq<Session>, tr: Trend, aggregation: string, period: string, group: string)
    ensures ClassSet(Tags(tr, aggregation, ss), period, group) == SessionClasses(ss, tr, aggregation, period, group)
  {
    var tags := Tags(tr, aggregation, ss);
    forall c | c in ClassSet(tags, period, group) ensures c in SessionClasses(ss, tr, aggregation, period, group) {
      var g :| g in tags && g.period == period && g.group == group && g.classId == c;
      TagsMeaning(tr, aggregation, ss, g);
    }
    forall c | c in SessionClasses(ss, tr, aggregation, period, group) ensures c in ClassSet(tags, period, group) {
      var s :| s in ss && TimeLabel(aggregation, s.start) == period && CountedUnder(tr, s, group) && s.row.classId == c;
      TagsMeaning(tr, aggregation, ss, Tag(period, group, c));
    }
  }

  /**
   * The series, read off the narrowed classes: rows in ascending (period,
   * group) order; each row's count is the number of distinct classes of
   * that period counted under that group, at least one; and every class has
   * a row for its period under each group it is counted under.
   */
  lemma PrepareSpec(f: Scheduled, aggregation: string, trendType: string)
    ensures var ps := Prepare(f, aggregation, trendType); var tr := TrendOf(trendType, f.topics);
      PointsAscending(ps)
      && (forall k :: 0 <= k < |ps| ==> ps[k].sessions == |SessionClasses(f.sessions, tr, aggregation, ps[k].period, ps[k].group)| > 0)
      && (forall s, group :: s in f.sessions && CountedUnder(tr, s, group) ==> HasPoint(ps, TimeLabel(aggregation, s.start), group))
  {
    var tr := TrendOf(trendType, f.topics);
    var tags := Tags(tr, aggregation, f.sessions);
    var ps := Prepare(f, aggregation, trendType);
    if |f.sessions| > 0 {
      PointsSpec(tags);
      forall k | 0 <= k < |ps| ensures ps[k].sessions == |SessionClasses(f.sessions, tr, aggregation, ps[k].period, ps[k].group)| {
        ClassSetOfTags(f.sessions, tr, aggregation, ps[k].period, ps[k].group);
      }
      forall s, group | s in f.sessions && CountedUnder(tr, s, group) ensures HasPoint(ps, TimeLabel(aggregation, s.start), group) {
        var g := Tag(TimeLabel(aggregation, s.start), group, s.row.classId);
        TagsMeaning(tr, aggregation, f.sessions, g);
      }
    }
  }

  /** An unknown trend type, "all", and "by_topic" without assignments all give the single "All Sessions" group. */
  lemma FallbackIsAllSessions(f: Scheduled, aggregation: string, trendType: string, k: nat)
    requires trendType != "by_aor" && trendType != "by_instructor" && (trendType == "by_topic" ==> |f.topics| == 0)
    requires k < |Prepare(f, aggregation, trendType)|
    ensures Prepare(f, aggregation, trendType)[k].group == AllSessionsName
  {
    var tr := TrendOf(trendType, f.topics);
    var tags := Tags(tr, aggregation, f.sessions);
    var p := Prepare(f, aggregation, trendType)[k];
    PointsOverOccupied(tags, Periods(tags));
    var g :| g in tags && g.period == p.period && g.group == p.group;
    TagsMeaning(tr, aggregation, f.sessions, g);
  }

  // ---------------------------------------------------------------------
  // The trend chart

  const MetricName: string := "Sessions Scheduled"

  /** The title names the trend type asked for, even when the data fell back to all sessions. */
  function ChartTitle(trendType: string): string
  {
    var title := "Training Session Scheduling Trends: " + MetricName;
    if trendType == "by_aor" then title + " (By AOR)"
    else if trendType == "by_topic" then title + " (By Topic)"
    else if trendType == "by_instructor" then title + " (By Instructor)"
    else title
  }

  function PeriodOfPoint(p: Point): string
  {
    p.period
  }

  function GroupOfPoint(p: Point): string
  {
    p.group
  }

  function SessionsOfPoint(p: Point): int
  {
    p.sessions
  }

  /** `sort_values('TimeLabel')`: compare rows by period. */
  function PeriodLe(): (Point, Point) -> bool
  {
    (p: Point, q: Point) => !StrLess(q.period, p.period)
  }

  lemma PeriodLeTotal()
    ensures TotalPreorder(PeriodLe())
  {
    var le := PeriodLe();
    forall a: Point, b: Point ensures le(a, b) || le(b, a) {
      if StrLess(b.period, a.period) {
        StrLessAsymmetric(b.period, a.period);
      }
    }
    forall a: Point, b: Point, c: Point | le(a, b) && le(b, c) ensures le(a, c) {
      if a.period != b.period && b.period != c.period {
        StrLessTotal(a.period, b.period);
        StrLessTotal(b.period, c.period);
        StrLessTransitive(a.period, b.period, c.period);
        StrLessAsymmetric(a.period, c.period);
      }
    }
  }

  /** One trend line: a group's periods and counts. */
  datatype Line = Line(group: string, periods: seq<string>, sessions: seq<int>)

  /** A group's rows (`time_series_data[GroupName == group]`) sorted by period. */
  function LineRows(ps: seq<Point>, group: string): (r: seq<Point>)
    ensures SortedWith(r, PeriodLe())
    ensures multiset(r) == multiset(Where(ps, GroupOfPoint, group))
  {
    PeriodLeTotal();
    SortWith(Where(ps, GroupOfPoint, group), PeriodLe())
  }

  function LineOf(ps: seq<Point>, group: string): (l: Line)
    ensures l.group == group && |l.periods| == |l.sessions|
  {
    var rows := LineRows(ps, group);
    Line(group, Map(rows, PeriodOfPoint), Map(rows, SessionsOfPoint))
  }

  /** Along a line the periods never decrease. */
  lemma LinePeriodsAscending(ps: seq<Point>, group: string)
    ensures var l := LineOf(ps, group); forall i, j :: 0 <= i < j < |l.periods| ==> !StrLess(l.periods[j], l.periods[i])
  {
    var rows := LineRows(ps, group);
    forall i, j | 0 <= i < j < |rows| ensures !StrLess(rows[j].period, rows[i].period) {
      assert PeriodLe()(rows[i], rows[j]);
    }
  }

  /** A line holds exactly its group's rows: as many, and each one a row of that group. */
  lemma LineHoldsGroupRows(ps: seq<Point>, group: string)
    ensures var l := LineOf(ps, group);
      |l.periods| == |Where(ps, GroupOfPoint, group)|
      && forall i :: 0 <= i < |l.periods| ==> Point(l.periods[i], group, l.sessions[i] as nat) in ps
  {
    var rows := LineRows(ps, group);
    var l := LineOf(ps, group);
    assert |rows| == |multiset(rows)| == |Where(ps, GroupOfPoint, group)|;
    forall i | 0 <= i < |rows| ensures Point(l.periods[i], group, l.sessions[i] as nat) in ps {
      assert rows[i] in multiset(Where(ps, GroupOfPoint, group));
      assert rows[i] in Where(ps, GroupOfPoint, group);
      assert rows[i] == Point(l.periods[i], group, l.sessions[i] as nat);
    }
  }

  function LineFor(ps: seq<Point>): string -> Line
  {
    (g: string) => LineOf(ps, g)
  }

  /** `sum / count` of the counts. */
  function MeanOf(ps: seq<Point>): real
    requires |ps| > 0
  {
    (Sum(Map(ps, SessionsOfPoint)) as real) / (|ps| as real)
  }

  datatype Chart = NoChartData | TrendChart(title: string, lines: seq<Line>, average: Option<real>)

  function GroupOfLine(l: Line): string
  {
    l.group
  }

  /** One line per group in order of first appearance (`unique()`), and a dashed average once there are two rows. */
  function TrendChartOf(ps: seq<Point>, trendType: string): (r: Chart)
    ensures r.NoChartData? <==> |ps| == 0
    ensures r.TrendChart? ==> r.title == ChartTitle(trendType) && (r.average.Some? <==> |ps| > 1)
  {
    if |ps| == 0 then NoChartData
    else
      var groups := Distinct(Map(ps, GroupOfPoint));
      TrendChart(ChartTitle(trendType), Map(groups, LineFor(ps)), if |ps| > 1 then Some(MeanOf(ps)) else None)
  }

  /** Each group present gets exactly one line, and each line is its group's rows sorted by period. */
  lemma ChartLines(ps: seq<Point>, trendType: string)
    requires |ps| > 0
    ensures var lines := TrendChartOf(ps, trendType).lines;
      (forall i :: 0 <= i < |lines| ==> lines[i] == LineOf(ps, lines[i].group))
      && (forall i, j :: 0 <= i < j < |lines| ==> lines[i].group != lines[j].group)
      && Map(lines, GroupOfLine) == Distinct(Map(ps, GroupOfPoint))
  {
    var groups := Distinct(Map(ps, GroupOfPoint));
    var lines := Map(groups, LineFor(ps));
    assert TrendChartOf(ps, trendType).lines == lines;
    forall i | 0 <= i < |lines| ensures lines[i] == LineOf(ps, groups[i]) && lines[i].group == groups[i] {
    }
    assert Map(lines, GroupOfLine) == groups;
  }

  // ---------------------------------------------------------------------
  // The insights

  datatype Direction = Upward | Downward | Stable

  datatype Insight =
    | TopEntity(entity: string, name: string, sessions: int)
    | TotalSessions(total: int, periods: nat)
    | AverageRate(perRow: real)
    | RecentTrend(direction: Direction)

  datatype InsightsView = NoInsights | Insights(items: seq<Insight>)

  function EntityWord(trendType: string): string
  {
    if trendType == "by_aor" then "AOR"
    else if trendType == "by_topic" then "Topic"
    else if trendType == "by_instructor" then "Instructor"
    else "Entity"
  }

  /** The distinct periods in ascending order (`sort_values('TimeLabel')['TimeLabel'].unique()`). */
  function PeriodsOf(ps: seq<Point>): (r: seq<string>)
    ensures StrictlyAscending(r)
    ensures forall x :: x in r <==> x in Map(ps, PeriodOfPoint)
  {
    SortedUnique(Map(ps, PeriodOfPoint))
  }

  /** The group keys in ascending order (`groupby('GroupName')`). */
  function GroupKeys(ps: seq<Point>): (r: seq<string>)
    ensures StrictlyAscending(r)
    ensures forall x :: x in r <==> x in Map(ps, GroupOfPoint)
  {
    SortedUnique(Map(ps, GroupOfPoint))
  }

  function GroupTotal(ps: seq<Point>, group: string): int
  {
    GroupSum(ps, GroupOfPoint, SessionsOfPoint, group)
  }

  function TotalFor(ps: seq<Point>): string -> int
  {
    (g: string) => GroupTotal(ps, g)
  }

  /** Index of the first largest total. */
  function FirstMaxAt(xs: seq<int>): (i: nat)
    requires |xs| > 0
    ensures i < |xs|
    ensures forall j :: 0 <= j < |xs| ==> xs[j] <= xs[i]
    ensures forall j :: 0 <= j < i ==> xs[j] < xs[i]
  {
    if |xs| == 1 then 0
    else
      var n := |xs| - 1;
      var i := FirstMaxAt(xs[..n]);
      assert forall j :: 0 <= j < n ==> xs[..n][j] == xs[j];
      if xs[n] > xs[i] then n else i
  }

  /**
   * The top group: the largest total after `sort_values(ascending=False)`;
   * among equal totals the model takes the first in name order.
   */
  function TopGroup(ps: seq<Point>): (g: string)
    requires |ps| > 0
    ensures g in GroupKeys(ps)
    ensures forall x :: x in GroupKeys(ps) ==> GroupTotal(ps, x) <= GroupTotal(ps, g)
  {
    var keys := GroupKeys(ps);
    assert Map(ps, GroupOfPoint)[0] in keys;
    var totals := Map(keys, TotalFor(ps));
    var i := FirstMaxAt(totals);
    forall x | x in keys ensures GroupTotal(ps, x) <= GroupTotal(ps, keys[i]) {
      var j :| 0 <= j < |keys| && keys[j] == x;
      assert totals[j] == GroupTotal(ps, x);
    }
    keys[i]
  }

  /** No group's total exceeds the top group's. */
  lemma TopGroupIsLargest(ps: seq<Point>, p: Point)
    requires p in ps
    ensures GroupTotal(ps, p.group) <= GroupTotal(ps, TopGroup(ps))
    ensures exists q :: q in ps && q.group == TopGroup(ps)
  {
    var k :| 0 <= k < |ps| && ps[k] == p;
    assert Map(ps, GroupOfPoint)[k] == p.group;
    var g := TopGroup(ps);
    var j :| 0 <= j < |ps| && Map(ps, GroupOfPoint)[j] == g;
    assert ps[j] in ps;
  }

  /** The rows of the last three periods. */
  function PeriodIn(periods: seq<string>): Point -> bool
  {
    (p: Point) => p.period in periods
  }

  function RecentRows(ps: seq<Point>): seq<Point>
  {
    Filter(ps, PeriodIn(Tail(PeriodsOf(ps), 3)))
  }

  /** Above 1.1 times the overall mean is upward, below 0.9 times downward, anything between stable. */
  function DirectionOf(recent: real, overall: real): Direction
  {
    if recent > overall * 1.1 then Upward
    else if recent < overall * 0.9 then Downward
    else Stable
  }

  /** The trend insight, only with more than one period and at least two recent rows. */
  function TrendInsight(ps: seq<Point>): seq<Insight>
  {
    if |PeriodsOf(ps)| > 1 then
      var recent := RecentRows(ps);
      if |recent| >= 2 then [RecentTrend(DirectionOf(MeanOf(recent), MeanOf(ps)))] else []
    else []
  }

  /** "all" reports the total and the number of periods; any other trend type the top group. */
  function FirstInsight(ps: seq<Point>, trendType: string): Insight
    requires |ps| > 0
  {
    if trendType != "all" then TopEntity(EntityWord(trendType), TopGroup(ps), GroupTotal(ps, TopGroup(ps)))
    else TotalSessions(Sum(Map(ps, SessionsOfPoint)), |PeriodsOf(ps)|)
  }

  /** The first insight, then the average, then the recent trend. */
  function SchedulingInsights(ps: seq<Point>, trendType: string): (r: InsightsView)
    ensures r.NoInsights? <==> |ps| == 0
    ensures r.Insights? ==> 2 <= |r.items| <= 3
  {
    if |ps| == 0 then NoInsights
    else Insights([FirstInsight(ps, trendType), AverageRate(MeanOf(ps))] + TrendInsight(ps))
  }

  /** Two distinct values in a sequence make it at least two long. */
  lemma TwoDistinctMembers<T>(xs: seq<T>, a: T, b: T)
    requires a in xs && b in xs && a != b
    ensures |xs| >= 2
  {
  }

  /**
   * With two periods or more there are always two recent rows, so the
   * `len(recent_data) >= 2` guard never suppresses the trend insight.
   */
  lemma RecentRowsAtLeastTwo(ps: seq<Point>)
    requires |PeriodsOf(ps)| > 1
    ensures |RecentRows(ps)| >= 2
  {
    var periods := PeriodsOf(ps);
    var recent := Tail(periods, 3);
    var n := |recent|;
    assert n >= 2;
    var a, b := recent[n - 2], recent[n - 1];
    assert a == periods[|periods| - 2] && b == periods[|periods| - 1];
    AscendingPairs(periods, |periods| - 2, |periods| - 1);
    StrLessIrreflexive(a);
    assert a in Map(ps, PeriodOfPoint) && b in Map(ps, PeriodOfPoint);
    var i :| 0 <= i < |ps| && Map(ps, PeriodOfPoint)[i] == a;
    var j :| 0 <= j < |ps| && Map(ps, PeriodOfPoint)[j] == b;
    assert ps[i] in RecentRows(ps) && ps[j] in RecentRows(ps);
    TwoDistinctMembers(RecentRows(ps), ps[i], ps[j]);
  }

  /** Comparing with a positive factor. */
  lemma ScaleCompare(x: real, y: real, m: real)
    requires m > 0.0
    ensures x > y <==> x * m > y * m
    ensures x < y <==> x * m < y * m
  {
  }

  /**
   * The thresholds without division: with `rs` sessions over `rn` recent
   * rows and `ts` over `tn` rows in all, the trend is upward exactly when
   * 10·rs·tn > 11·ts·rn and downward exactly when 10·rs·tn < 9·ts·rn.
   */
  lemma DirectionCross(rs: int, rn: int, ts: int, tn: int)
    requires rn > 0 && tn > 0 && ts >= 0
    ensures var d := DirectionOf((rs as real) / (rn as real), (ts as real) / (tn as real));
      (d == Upward <==> 10 * rs * tn > 11 * ts * rn) && (d == Downward <==> 10 * rs * tn < 9 * ts * rn)
  {
    var a := (rs as real) / (rn as real);
    var b := (ts as real) / (tn as real);
    var m := (rn as real) * (tn as real);
    assert a * (rn as real) == rs as real;
    assert b * (tn as real) == ts as real;
    assert a * m == (rs * tn) as real;
    assert b * 1.1 * m == 1.1 * ((ts * rn) as real);
    assert b * 0.9 * m == 0.9 * ((ts * rn) as real);
    ScaleCompare(a, b * 1.1, m);
    ScaleCompare(a, b * 0.9, m);
  }

  /**
   * The first insight names a top group whose total no other group exceeds
   * for every trend type but "all", and otherwise the total and the number
   * of periods.
   */
  lemma FirstInsightContent(ps: seq<Point>, trendType: string)
    requires |ps| > 0
    ensures var first := FirstInsight(ps, trendType);
      (first.TopEntity? <==> trendType != "all")
      && (first.TopEntity? ==> (first.entity == EntityWord(trendType)
            && (exists p :: p in ps && p.group == first.name)
            && forall p :: p in ps ==> GroupTotal(ps, p.group) <= first.sessions))
      && (first.TotalSessions? ==> first.total == Sum(Map(ps, SessionsOfPoint)) && first.periods == |PeriodsOf(ps)|)
  {
    if trendType != "all" {
      TopGroupIsLargest(ps, ps[0]);
      forall p | p in ps ensures GroupTotal(ps, p.group) <= GroupTotal(ps, TopGroup(ps)) {
        TopGroupIsLargest(ps, p);
      }
    }
  }

  /** The recent-trend insight appears exactly when there are two periods or more. */
  lemma InsightsContent(ps: seq<Point>, trendType: string)
    requires |ps| > 0
    ensures var items := SchedulingInsights(ps, trendType).items;
      items[0] == FirstInsight(ps, trendType) && items[1] == AverageRate(MeanOf(ps))
      && (|items| == 3 <==> |PeriodsOf(ps)| > 1)
  {
    var tail := TrendInsight(ps);
    assert SchedulingInsights(ps, trendType).items == [FirstInsight(ps, trendType), AverageRate(MeanOf(ps))] + tail;
    if |PeriodsOf(ps)| > 1 {
      RecentRowsAtLeastTwo(ps);
      assert |tail| == 1;
    } else {
      assert tail == [];
    }
  }

  /**
   * With two periods or more, the trend compares the recent rows with all
   * rows: upward exactly when 10·recent total·rows > 11·total·recent rows,
   * downward exactly when 10·recent total·rows < 9·total·recent rows.
   */
  lemma RecentTrendThresholds(ps: seq<Point>)
    requires |PeriodsOf(ps)| > 1
    ensures var recent := RecentRows(ps);
      var rs, ts := Sum(Map(recent, SessionsOfPoint)), Sum(Map(ps, SessionsOfPoint));
      |TrendInsight(ps)| == 1 && TrendInsight(ps)[0].RecentTrend?
      && (TrendInsight(ps)[0].direction == Upward <==> 10 * rs * |ps| > 11 * ts * |recent|)
      && (TrendInsight(ps)[0].direction == Downward <==> 10 * rs * |ps| < 9 * ts * |recent|)
  {
    RecentRowsAtLeastTwo(ps);
    var xs := Map(ps, SessionsOfPoint);
    forall x | x in xs ensures x >= 0 {
      var i :| 0 <= i < |xs| && xs[i] == x;
    }
    SumNonNegative(xs);
    assert |ps| > 0;
    var recent := RecentRows(ps);
    DirectionCross(Sum(Map(recent, SessionsOfPoint)), |recent|, Sum(xs), |ps|);
  }

  // ---------------------------------------------------------------------
  // `update_session_scheduling_trends`

  datatype SchedulingView = SchedulingView(chart: Chart, insights: InsightsView)

  /** The callback reads the store with the quote-only reader, as written. */
  function UpdateScheduling(b: Base, stored: Option<Store>, aggregation: string, trendType: string,
                            coerce: string -> Option<DateTime>): SchedulingView
  {
    var ps := Prepare(ApplyFilters(b, stored, QuoteOnly, coerce), aggregation, trendType);
    SchedulingView(TrendChartOf(ps, trendType), SchedulingInsights(ps, trendType))
  }

  /** The chart and the insights agree on whether there is data, and no class left means neither has any. */
  lemma UpdateSchedulingConsistent(b: Base, stored: Option<Store>, aggregation: string, trendType: string,
                                   coerce: string -> Option<DateTime>)
    ensures var v := UpdateScheduling(b, stored, aggregation, trendType, coerce);
      (v.chart.NoChartData? <==> v.insights.NoInsights?)
      && (|ApplyFilters(b, stored, QuoteOnly, coerce).sessions| == 0 ==> v.chart.NoChartData?)
  {
  }
}
