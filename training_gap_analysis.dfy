/**
 * The Training "registration vs attendance" panel: the attendance facts are
 * narrowed by the filter store, grouped by class, topic, instructor,
 * location or AOR, counted into registrations, attendances and no-shows,
 * sorted, and drawn as a grouped bar chart, an overall-rate gauge and three
 * insights.
 */
module TrainingGapAnalysis {
  import opened Common
  import opened TrainingData

  // ---------------------------------------------------------------------
  // The query results

  /** One `Fact_ClassAttendance` row; a null cell is None. Ids are read as their text. */
  datatype Attendance = Attendance(
    attendanceId: Option<string>, classId: Option<string>, className: Option<string>,
    startTime: Option<string>, aor: Option<string>,
    locationId: Option<string>, locationName: Option<string>,
    instructorId: Option<string>, instructorName: Option<string>,
    wasPresent: Option<string>)

  datatype Base = Base(attendance: seq<Attendance>, topics: seq<TopicAssignment>, aorOffices: seq<AorOffice>)

  /** What the preparation reads back: the narrowed attendance and topic assignments. */
  datatype Filtered = Filtered(attendance: seq<Attendance>, topics: seq<TopicAssignment>)

  // ---------------------------------------------------------------------
  // Start times and the date window

  function HasStart(coerce: string -> Option<DateTime>): Attendance -> bool
  {
    (a: Attendance) => ParseCustomDatetime(a.startTime, coerce).Some?
  }

  function StartsWithin(coerce: string -> Option<DateTime>, w: (int, int)): Attendance -> bool
  {
    (a: Attendance) => ParseCustomDatetime(a.startTime, coerce).Some? && InWindow(ParseCustomDatetime(a.startTime, coerce).value, w)
  }

  /** Rows whose start time does not parse are dropped; the window applies only when both days are stored. */
  function Dated(rows: seq<Attendance>, window: Option<(int, int)>, coerce: string -> Option<DateTime>): seq<Attendance>
  {
    var parsed := Filter(rows, HasStart(coerce));
    if window.Some? then Filter(parsed, StartsWithin(coerce, window.value)) else parsed
  }

  // ---------------------------------------------------------------------
  // The AOR selection, and the AorShortName -> AorID map

  function AorIn(aors: seq<string>): Attendance -> bool
  {
    (a: Attendance) => a.aor.Some? && a.aor.value in aors
  }

  /**
   * Attendance keeps the selected AORs; topic assignments keep the ids the
   * selected AORs map to, and stay whole when none of them maps.
   */
  function AorStep(f: Filtered, aorOffices: seq<AorOffice>, aors: seq<string>): Filtered
  {
    if |aors| == 0 then f
    else Filtered(Filter(f.attendance, AorIn(aors)), NarrowTopicsByAor(f.topics, aorOffices, aors))
  }

  // ---------------------------------------------------------------------
  // The office selection, through the AORs it maps to

  /** Applied only when offices are selected, the mapping is non-empty and some selected office maps. */
  function OfficeStep(f: Filtered, aorOffices: seq<AorOffice>, offices: seq<string>): Filtered
  {
    if |offices| > 0 && |aorOffices| > 0 && |OfficeAors(aorOffices, offices)| > 0 then
      Filtered(Filter(f.attendance, AorIn(OfficeAors(aorOffices, offices))), f.topics)
    else f
  }

  // ---------------------------------------------------------------------
  // The topic selection

  function ClassIn(classIds: seq<string>): Attendance -> bool
  {
    (a: Attendance) => a.classId.Some? && a.classId.value in classIds
  }

  /**
   * Skipped when no topic is selected or no topic assignment is left;
   * otherwise assignments keep the selected topics and attendance keeps the
   * classes those assignments name.
   */
  function TopicStep(f: Filtered, topics: seq<string>): Filtered
  {
    if |topics| > 0 && |f.topics| > 0 then
      var kept := Filter(f.topics, TopicIn(topics));
      Filtered(Filter(f.attendance, ClassIn(ClassIdsOf(kept))), kept)
    else f
  }

  /** A row survives the topic step exactly when an assignment of a selected topic names its class. */
  lemma TopicStepSpec(f: Filtered, topics: seq<string>, a: Attendance)
    requires |topics| > 0 && |f.topics| > 0
    ensures a in TopicStep(f, topics).attendance <==>
      a in f.attendance && exists t :: t in f.topics && t.topicId in topics && a.classId == Some(t.classId)
    ensures forall t :: t in TopicStep(f, topics).topics <==> t in f.topics && t.topicId in topics
  {
    var kept := Filter(f.topics, TopicIn(topics));
    if exists t :: t in f.topics && t.topicId in topics && a.classId == Some(t.classId) {
      var t :| t in f.topics && t.topicId in topics && a.classId == Some(t.classId);
      assert t in kept;
    }
  }


  // ---------------------------------------------------------------------
  // Instructor and location selections, compared as text

  function InstructorIn(instructors: seq<string>): Attendance -> bool
  {
    (a: Attendance) => IdText(a.instructorId) in instructors
  }

  function LocationIn(locations: seq<string>): Attendance -> bool
  {
    (a: Attendance) => IdText(a.locationId) in locations
  }

  function IdStep(f: Filtered, instructors: seq<string>, locations: seq<string>): Filtered
  {
    var byInstructor := if |instructors| > 0 then Filter(f.attendance, InstructorIn(instructors)) else f.attendance;
    var byLocation := if |locations| > 0 then Filter(byInstructor, LocationIn(locations)) else byInstructor;
    Filtered(byLocation, f.topics)
  }

  // ---------------------------------------------------------------------
  // `apply_gap_analysis_filters`

  /** The AOR, office and topic steps, run on the dated rows. */
  function Narrowed(b: Base, t: PanelLists, window: Option<(int, int)>, coerce: string -> Option<DateTime>): Filtered
  {
    var dated := Filtered(Dated(b.attendance, window, coerce), b.topics);
    TopicStep(OfficeStep(AorStep(dated, b.aorOffices, t.aors), b.aorOffices, t.offices), t.topics)
  }

  function ApplyFilters(b: Base, stored: Option<Store>, r: ListReader, coerce: string -> Option<DateTime>): Filtered
  {
    var st := StoreOrEmpty(stored);
    FiltersWith(b, PanelListsOf(st, r), StoredWindow(st), coerce)
  }

  /** The filter chain for given selections and a given window. */
  function FiltersWith(b: Base, t: PanelLists, window: Option<(int, int)>, coerce: string -> Option<DateTime>): Filtered
  {
    IdStep(Narrowed(b, t, window, coerce), t.instructors, t.locations)
  }

  /** What the date window and the AOR, instructor and location selections ask of a row, read off the row alone. */
  predicate RowKept(a: Attendance, t: PanelLists, window: Option<(int, int)>, coerce: string -> Option<DateTime>)
  {
    ParseCustomDatetime(a.startTime, coerce).Some?
    && (window.Some? ==> InWindow(ParseCustomDatetime(a.startTime, coerce).value, window.value))
    && Listed(t.aors, a.aor)
    && (|t.instructors| > 0 ==> IdText(a.instructorId) in t.instructors)
    && (|t.locations| > 0 ==> IdText(a.locationId) in t.locations)
  }

  /** The topic assignments the topic step reads: those the AOR selection leaves. */
  function TopicsLeft(b: Base, aors: seq<string>): seq<TopicAssignment>
  {
    if |aors| == 0 then b.topics else NarrowTopicsByAor(b.topics, b.aorOffices, aors)
  }

  /** The office selection, when it applies, asks for a row of an AOR the selected offices map to. */
  predicate OfficeAdmits(a: Attendance, b: Base, t: PanelLists)
  {
    |t.offices| > 0 && |b.aorOffices| > 0 && |OfficeAors(b.aorOffices, t.offices)| > 0 ==>
      a.aor.Some? && a.aor.value in OfficeAors(b.aorOffices, t.offices)
  }

  /** The topic selection, when assignments are left, asks for a class an assignment of a selected topic names. */
  predicate TopicAdmits(a: Attendance, b: Base, t: PanelLists)
  {
    var left := TopicsLeft(b, t.aors);
    |t.topics| > 0 && |left| > 0 ==> exists ta :: ta in left && ta.topicId in t.topics && a.classId == Some(ta.classId)
  }

  /**
   * A row is kept exactly when it comes from the query, its start time
   * parses and lies in the stored window, and it meets the AOR, office,
   * topic, instructor and location selections as read by the reader.
   */
  lemma KeptRows(b: Base, stored: Option<Store>, r: ListReader, coerce: string -> Option<DateTime>, a: Attendance)
    ensures var st := StoreOrEmpty(stored); var t := PanelListsOf(st, r); var w := StoredWindow(st);
      a in ApplyFilters(b, stored, r, coerce).attendance <==>
        a in b.attendance && RowKept(a, t, w, coerce) && OfficeAdmits(a, b, t) && TopicAdmits(a, b, t)
  {
    var st := StoreOrEmpty(stored);
    RowFiltered(b, PanelListsOf(st, r), StoredWindow(st), coerce, a);
  }

  lemma RowFiltered(b: Base, t: PanelLists, w: Option<(int, int)>, coerce: string -> Option<DateTime>, a: Attendance)
    ensures a in FiltersWith(b, t, w, coerce).attendance <==>
      a in b.attendance && RowKept(a, t, w, coerce) && OfficeAdmits(a, b, t) && TopicAdmits(a, b, t)
  {
    var f0 := Filtered(Dated(b.attendance, w, coerce), b.topics);
    var f1 := AorStep(f0, b.aorOffices, t.aors);
    var f2 := OfficeStep(f1, b.aorOffices, t.offices);
    var f3 := TopicStep(f2, t.topics);
    DatedMember(b.attendance, w, coerce, a);
    AorStepMember(f0, b.aorOffices, t.aors, a);
    OfficeStepMember(f1, b, t, a);
    assert f2.topics == TopicsLeft(b, t.aors);
    TopicStepMember(f2, b, t, a);
    IdStepMember(f3, t, a);
  }

  lemma DatedMember(rows: seq<Attendance>, w: Option<(int, int)>, coerce: string -> Option<DateTime>, a: Attendance)
    ensures var parsed := ParseCustomDatetime(a.startTime, coerce);
      a in Dated(rows, w, coerce) <==> a in rows && parsed.Some? && (w.Some? ==> InWindow(parsed.value, w.value))
  {
  }

  lemma AorStepMember(f: Filtered, aorOffices: seq<AorOffice>, aors: seq<string>, a: Attendance)
    ensures a in AorStep(f, aorOffices, aors).attendance <==> a in f.attendance && Listed(aors, a.aor)
  {
  }

  lemma OfficeStepMember(f: Filtered, b: Base, t: PanelLists, a: Attendance)
    ensures a in OfficeStep(f, b.aorOffices, t.offices).attendance <==> a in f.attendance && OfficeAdmits(a, b, t)
    ensures OfficeStep(f, b.aorOffices, t.offices).topics == f.topics
  {
  }

  lemma TopicStepMember(f: Filtered, b: Base, t: PanelLists, a: Attendance)
    requires f.topics == TopicsLeft(b, t.aors)
    ensures a in TopicStep(f, t.topics).attendance <==> a in f.attendance && TopicAdmits(a, b, t)
  {
    if |t.topics| > 0 && |f.topics| > 0 {
      TopicStepSpec(f, t.topics, a);
    }
  }

  lemma IdStepMember(f: Filtered, t: PanelLists, a: Attendance)
    ensures a in IdStep(f, t.instructors, t.locations).attendance <==> (a in f.attendance
      && (|t.instructors| > 0 ==> IdText(a.instructorId) in t.instructors)
      && (|t.locations| > 0 ==> IdText(a.locationId) in t.locations))
  {
  }

  /**
   * With topics selected and assignments left after the AOR step, each row
   * returned belongs to a class that some assignment of a selected topic names.
   */
  lemma KeptRowsHaveTopic(b: Base, stored: Option<Store>, r: ListReader, coerce: string -> Option<DateTime>, a: Attendance)
    requires a in ApplyFilters(b, stored, r, coerce).attendance
    requires var t := PanelListsOf(StoreOrEmpty(stored), r); |t.topics| > 0 && |TopicsLeft(b, t.aors)| > 0
    ensures exists ta :: ta in b.topics && ta.topicId in PanelListsOf(StoreOrEmpty(stored), r).topics && a.classId == Some(ta.classId)
  {
    var st := StoreOrEmpty(stored);
    HasTopicWith(b, PanelListsOf(st, r), StoredWindow(st), coerce, a);
  }

  lemma HasTopicWith(b: Base, t: PanelLists, w: Option<(int, int)>, coerce: string -> Option<DateTime>, a: Attendance)
    requires a in FiltersWith(b, t, w, coerce).attendance
    requires |t.topics| > 0 && |TopicsLeft(b, t.aors)| > 0
    ensures exists ta :: ta in b.topics && ta.topicId in t.topics && a.classId == Some(ta.classId)
  {
    RowFiltered(b, t, w, coerce, a);
    var ta :| ta in TopicsLeft(b, t.aors) && ta.topicId in t.topics && a.classId == Some(ta.classId);
    TopicsLeftWithin(b, t.aors);
    assert ta in b.topics;
  }

  /** The AOR step keeps only assignments the query returned. */
  lemma TopicsLeftWithin(b: Base, aors: seq<string>)
    ensures forall ta :: ta in TopicsLeft(b, aors) ==> ta in b.topics
  {
  }

  lemma AorStepTopicsWithin(f: Filtered, aorOffices: seq<AorOffice>, aors: seq<string>)
    ensures forall t :: t in AorStep(f, aorOffices, aors).topics ==> t in f.topics
  {
  }

  /** When no selected AOR maps to a truthy id, the AOR step leaves the topic assignments whole. */
  lemma UnmappedAorsKeepTopics(f: Filtered, aorOffices: seq<AorOffice>, aors: seq<string>)
    requires forall a :: a in aors ==> !Truthy(AorIdLookup(aorOffices, a))
    ensures AorStep(f, aorOffices, aors).topics == f.topics
  {
    NoTruthyNoIds(aorOffices, aors);
  }

  // ---------------------------------------------------------------------
  // Grouping

  datatype Level = ClassLevel | TopicLevel | InstructorLevel | LocationLevel | AorLevel

  /** The `analysis_level` branches; any other value groups as the class level does. */
  function LevelOf(level: string): (r: Level)
    ensures r == TopicLevel <==> level == "topic"
    ensures r == InstructorLevel <==> level == "instructor"
    ensures r == LocationLevel <==> level == "location"
    ensures r == AorLevel <==> level == "aor"
    ensures r == ClassLevel <==> level !in {"topic", "instructor", "location", "aor"}
  {
    if level == "topic" then TopicLevel
    else if level == "instructor" then InstructorLevel
    else if level == "location" then LocationLevel
    else if level == "aor" then AorLevel
    else ClassLevel
  }

  /** How rows become keys: the topic level needs the assignments it merges. */
  datatype Grouping = ByClass | ByTopic(topics: seq<TopicAssignment>) | ByInstructor | ByLocation | ByAor

  /** The topic level merges topic names only when assignments are left; without them it groups by class. */
  function GroupingOf(level: string, topics: seq<TopicAssignment>): Grouping
  {
    match LevelOf(level)
    case ClassLevel => ByClass
    case TopicLevel => if |topics| > 0 then ByTopic(topics) else ByClass
    case InstructorLevel => ByInstructor
    case LocationLevel => ByLocation
    case AorLevel => ByAor
  }

  /** A group key: (TrainingClassId, ClassName) at the class level, one column's value otherwise; `name` is the category name. */
  datatype GroupKey = Pair(id: string, name: string) | Single(name: string)

  /** A row under its group key. */
  datatype Entry = Entry(key: GroupKey, row: Attendance)

  /** One key of one cell; `groupby` drops a row whose key cell is null. */
  function SingleKey(a: Attendance, cell: Option<string>): seq<Entry>
  {
    if cell.Some? then [Entry(Single(cell.value), a)] else []
  }

  /**
   * The left merge on TrainingClassId: one row per assignment of the row's
   * class, carrying that assignment's topic name; a row of no assigned
   * class, or an assignment without a name, leaves a null topic that the
   * grouping drops.
   */
  function TopicEntries(a: Attendance, topics: seq<TopicAssignment>): (r: seq<Entry>)
    ensures |r| <= |topics|
    ensures forall e :: e in r ==> e.row == a && e.key.Single?
  {
    if |topics| == 0 then []
    else
      var t := topics[0];
      var here := if a.classId == Some(t.classId) && t.topicName.Some? then [Entry(Single(t.topicName.value), a)] else [];
      here + TopicEntries(a, topics[1..])
  }

  function EntriesOf(g: Grouping, a: Attendance): (r: seq<Entry>)
    ensures forall e :: e in r ==> e.row == a
  {
    match g
    case ByClass => if a.classId.Some? && a.className.Some? then [Entry(Pair(a.classId.value, a.className.value), a)] else []
    case ByTopic(topics) => TopicEntries(a, topics)
    case ByInstructor => SingleKey(a, a.instructorName)
    case ByLocation => SingleKey(a, a.locationName)
    case ByAor => SingleKey(a, a.aor)
  }

  function Entries(g: Grouping, rows: seq<Attendance>): (r: seq<Entry>)
    ensures forall e :: e in r ==> e.row in rows
  {
    if |rows| == 0 then []
    else
      var rest := Entries(g, rows[1..]);
      assert forall e :: e in rest ==> e.row in rows;
      EntriesOf(g, rows[0]) + rest
  }

  /** Every grouping but the topic merge gives each row at most one entry. */
  lemma {:induction false} EntriesAtMostRows(g: Grouping, rows: seq<Attendance>)
    requires !g.ByTopic?
    ensures |Entries(g, rows)| <= |rows|
  {
    if |rows| > 0 {
      EntriesAtMostRows(g, rows[1..]);
    }
  }

  // ---------------------------------------------------------------------
  // Counting

  /** `'AttendanceID': 'count'`: the key's rows with a non-null AttendanceID. */
  function Registered(es: seq<Entry>, k: GroupKey): nat
  {
    if |es| == 0 then 0
    else (if es[0].key == k && es[0].row.attendanceId.Some? then 1 else 0) + Registered(es[1..], k)
  }

  /** `(WasPresent == 'True').sum()`. */
  function Present(es: seq<Entry>, k: GroupKey): nat
  {
    if |es| == 0 then 0
    else (if es[0].key == k && es[0].row.wasPresent == Some("True") then 1 else 0) + Present(es[1..], k)
  }

  /** When every row was registered, no key counts more attendances than registrations. */
  lemma {:induction false} PresentWithinRegistered(es: seq<Entry>, k: GroupKey)
    requires forall e :: e in es ==> e.row.attendanceId.Some?
    ensures Present(es, k) <= Registered(es, k)
  {
    if |es| > 0 {
      assert es[0] in es;
      assert forall e :: e in es[1..] ==> e in es;
      PresentWithinRegistered(es[1..], k);
    }
  }

  /** A key of no row counts nothing. */
  lemma {:induction false} AbsentKeyCountsNothing(es: seq<Entry>, k: GroupKey)
    requires forall e :: e in es ==> e.key != k
    ensures Registered(es, k) == 0 && Present(es, k) == 0
  {
    if |es| > 0 {
      assert es[0] in es;
      assert forall e :: e in es[1..] ==> e in es;
      AbsentKeyCountsNothing(es[1..], k);
    }
  }

  /** One row of the prepared table; `name` is the CategoryName column. */
  datatype Category = Category(key: GroupKey, name: string, registrations: nat, attendances: nat)

  function KeyOfEntry(e: Entry): GroupKey
  {
    e.key
  }

  function CategoryFor(es: seq<Entry>, k: GroupKey): Category
  {
    Category(k, k.name, Registered(es, k), Present(es, k))
  }

  function CategoriesOf(es: seq<Entry>, keys: seq<GroupKey>): (r: seq<Category>)
    ensures |r| == |keys|
    ensures forall i :: 0 <= i < |r| ==> r[i].key == keys[i]
    ensures forall i :: 0 <= i < |r| ==> r[i] == CategoryFor(es, keys[i])
  {
    if |keys| == 0 then [] else [CategoryFor(es, keys[0])] + CategoriesOf(es, keys[1..])
  }

  /** Some entry carries the key. */
  predicate HasEntry(es: seq<Entry>, k: GroupKey)
  {
    exists e :: e in es && e.key == k
  }

  /** `groupby(key).agg(...)`: one category per distinct key of the entries, each with its two counts. */
  function Categories(es: seq<Entry>): (r: seq<Category>)
    ensures forall i, j :: 0 <= i < j < |r| ==> r[i].key != r[j].key
    ensures forall e :: e in es ==> exists i :: 0 <= i < |r| && r[i].key == e.key
    ensures forall i :: 0 <= i < |r| ==> HasEntry(es, r[i].key)
    ensures forall i :: 0 <= i < |r| ==> r[i] == CategoryFor(es, r[i].key)
  {
    var keys := Distinct(Map(es, KeyOfEntry));
    KeysOfEntries(es, keys);
    var r := CategoriesOf(es, keys);
    CategoriesFacts(es, keys, r);
    r
  }

  lemma CategoriesFacts(es: seq<Entry>, keys: seq<GroupKey>, r: seq<Category>)
    requires NoDuplicates(keys)
    requires forall e :: e in es ==> e.key in keys
    requires forall k :: k in keys ==> exists e :: e in es && e.key == k
    requires |r| == |keys| && forall i :: 0 <= i < |r| ==> r[i] == CategoryFor(es, keys[i])
    ensures forall i, j :: 0 <= i < j < |r| ==> r[i].key != r[j].key
    ensures forall e :: e in es ==> exists i :: 0 <= i < |r| && r[i].key == e.key
    ensures forall i :: 0 <= i < |r| ==> HasEntry(es, r[i].key)
    ensures forall i :: 0 <= i < |r| ==> r[i] == CategoryFor(es, r[i].key)
  {
    forall i | 0 <= i < |r| ensures r[i].key == keys[i] {
      assert CategoryFor(es, keys[i]).key == keys[i];
    }
    forall i | 0 <= i < |r| ensures HasEntry(es, r[i].key) {
      assert keys[i] in keys;
    }
    forall e | e in es ensures exists i :: 0 <= i < |r| && r[i].key == e.key {
      var i :| 0 <= i < |keys| && keys[i] == e.key;
      assert r[i].key == e.key;
    }
  }

  /** The distinct keys are exactly the keys the entries carry. */
  lemma KeysOfEntries(es: seq<Entry>, keys: seq<GroupKey>)
    requires keys == Distinct(Map(es, KeyOfEntry))
    ensures forall e :: e in es ==> e.key in keys
    ensures forall k :: k in keys ==> exists e :: e in es && e.key == k
  {
    var ks := Map(es, KeyOfEntry);
    forall e | e in es ensures e.key in keys {
      var n :| 0 <= n < |es| && es[n] == e;
      assert ks[n] == e.key;
    }
    forall k | k in keys ensures exists e :: e in es && e.key == k {
      var n :| 0 <= n < |ks| && ks[n] == k;
      assert es[n] in es;
    }
  }

  // ---------------------------------------------------------------------
  // Rates

  /** A float column after `fillna(0)`: finite, or an infinity from a division by zero registrations. */
  datatype Rate = Finite(value: real) | PosInf | NegInf

  predicate RateLe(x: Rate, y: Rate)
  {
    x.NegInf? || y.PosInf? || (x.Finite? && y.Finite? && x.value <= y.value)
  }

  function NoShows(c: Category): int
  {
    c.registrations - c.attendances
  }

  /** `Attendances / Registrations * 100`, with 0/0 filled to 0. */
  function AttendanceRate(c: Category): (r: Rate)
    ensures r.PosInf? <==> c.registrations == 0 && c.attendances > 0
    ensures !r.NegInf?
    ensures r.Finite? ==> 0.0 <= r.value
    ensures c.attendances <= c.registrations ==> r.Finite? && r.value <= 100.0
  {
    if c.registrations > 0 then
      var q := (c.attendances as real) / (c.registrations as real);
      assert q * (c.registrations as real) == c.attendances as real;
      assert c.attendances <= c.registrations ==> q <= 1.0;
      Finite(q * 100.0)
    else if c.attendances == 0 then Finite(0.0)
    else PosInf
  }

  /** `NoShows / Registrations * 100`, with 0/0 filled to 0. */
  function GapPercent(c: Category): (r: Rate)
    ensures r.NegInf? <==> c.registrations == 0 && c.attendances > 0
    ensures !r.PosInf?
    ensures r.Finite? ==> r.value <= 100.0
    ensures c.attendances <= c.registrations ==> r.Finite? && 0.0 <= r.value
  {
    if c.registrations > 0 then
      var q := (NoShows(c) as real) / (c.registrations as real);
      assert q * (c.registrations as real) == NoShows(c) as real;
      assert q <= 1.0;
      assert c.attendances <= c.registrations ==> 0.0 <= q;
      Finite(q * 100.0)
    else if c.attendances == 0 then Finite(0.0)
    else NegInf
  }

  /** With registrations, the gap and the attendance rate add up to 100. */
  lemma RatesComplement(c: Category)
    requires c.registrations > 0
    ensures GapPercent(c).value == 100.0 - AttendanceRate(c).value
  {
    var reg := c.registrations as real;
    var q := (c.attendances as real) / reg;
    var g := (NoShows(c) as real) / reg;
    assert q * reg == c.attendances as real;
    assert g * reg == (c.registrations - c.attendances) as real;
    var x := g - (1.0 - q);
    assert x * reg == g * reg - reg + q * reg;
    assert x * reg == 0.0;
    assert x == 0.0;
  }

  // ---------------------------------------------------------------------
  // Sorting

  datatype SortMode = GapDescending | GapAscending | RegistrationsDescending | AttendancesDescending

  /** The `sort_by` branches; any other value sorts by gap, largest first. */
  function ModeOf(sortBy: string): (r: SortMode)
    ensures r == GapAscending <==> sortBy == "gap_percent_asc"
    ensures r == RegistrationsDescending <==> sortBy == "registrations_desc"
    ensures r == AttendancesDescending <==> sortBy == "attendances_desc"
    ensures r == GapDescending <==> sortBy !in {"gap_percent_asc", "registrations_desc", "attendances_desc"}
  {
    if sortBy == "gap_percent_desc" then GapDescending
    else if sortBy == "gap_percent_asc" then GapAscending
    else if sortBy == "registrations_desc" then RegistrationsDescending
    else if sortBy == "attendances_desc" then AttendancesDescending
    else GapDescending
  }

  /** "May come before" for each mode. */
  function Order(m: SortMode): (Category, Category) -> bool
  {
    match m
    case GapDescending => (x: Category, y: Category) => RateLe(GapPercent(y), GapPercent(x))
    case GapAscending => (x: Category, y: Category) => RateLe(GapPercent(x), GapPercent(y))
    case RegistrationsDescending => (x: Category, y: Category) => y.registrations <= x.registrations
    case AttendancesDescending => (x: Category, y: Category) => y.attendances <= x.attendances
  }

  lemma OrderTotal(m: SortMode)
    ensures TotalPreorder(Order(m))
  {
  }

  /** `sort_values`: the same categories, ordered by the mode's column. */
  function SortCategories(m: SortMode, cs: seq<Category>): (r: seq<Category>)
    ensures |r| == |cs| && multiset(r) == multiset(cs)
    ensures SortedWith(r, Order(m))
  {
    OrderTotal(m);
    SortWith(cs, Order(m))
  }

  // ---------------------------------------------------------------------
  // `prepare_gap_analysis_data`

  function PrepareGap(f: Filtered, level: string, sortBy: string): seq<Category>
  {
    if |f.attendance| == 0 then []
    else SortCategories(ModeOf(sortBy), Categories(Entries(GroupingOf(level, f.topics), f.attendance)))
  }

  /** The unsorted categories PrepareGap orders. */
  function Grouped(f: Filtered, level: string): seq<Category>
  {
    Categories(Entries(GroupingOf(level, f.topics), f.attendance))
  }

  lemma PrepareGapSorts(f: Filtered, level: string, sortBy: string)
    requires |f.attendance| > 0
    ensures var r := PrepareGap(f, level, sortBy);
      multiset(r) == multiset(Grouped(f, level)) && SortedWith(r, Order(ModeOf(sortBy)))
  {
  }

  /** Per category, NoShows never goes negative when every row has an AttendanceID. */
  lemma NoShowsNonNegative(f: Filtered, level: string, sortBy: string)
    requires forall a :: a in f.attendance ==> a.attendanceId.Some?
    ensures forall c :: c in PrepareGap(f, level, sortBy) ==> 0 <= NoShows(c)
  {
    var es := Entries(GroupingOf(level, f.topics), f.attendance);
    assert forall e :: e in es ==> e.row.attendanceId.Some?;
    forall c | c in PrepareGap(f, level, sortBy) ensures 0 <= NoShows(c) {
      PreparedFromGrouped(f, level, sortBy, c);
      var cs := Categories(es);
      var i :| 0 <= i < |cs| && cs[i] == c;
      assert c == CategoryFor(es, c.key);
      PresentWithinRegistered(es, c.key);
    }
  }

  /** The topic level with no assignments left groups exactly as the class level. */
  lemma TopicFallsBackToClass(f: Filtered, sortBy: string)
    requires |f.topics| == 0
    ensures PrepareGap(f, "topic", sortBy) == PrepareGap(f, "class", sortBy)
  {
    assert GroupingOf("topic", f.topics) == ByClass;
    assert GroupingOf("class", f.topics) == ByClass;
  }

  /** An unknown level groups as the class level. */
  lemma UnknownLevelIsClass(f: Filtered, level: string, sortBy: string)
    requires level !in {"class", "topic", "instructor", "location", "aor"}
    ensures PrepareGap(f, level, sortBy) == PrepareGap(f, "class", sortBy)
  {
    assert GroupingOf(level, f.topics) == ByClass;
    assert GroupingOf("class", f.topics) == ByClass;
  }

  /** Sorting only reorders: a prepared category is one of the grouped ones. */
  lemma PreparedFromGrouped(f: Filtered, level: string, sortBy: string, c: Category)
    requires c in PrepareGap(f, level, sortBy)
    ensures c in Grouped(f, level)
  {
    assert c in multiset(PrepareGap(f, level, sortBy));
  }

  /** At the instructor level every category name is an instructor name some kept row carries. */
  lemma CategoryNamesFromRows(f: Filtered, level: string, sortBy: string, c: Category)
    requires c in PrepareGap(f, level, sortBy)
    requires LevelOf(level) == InstructorLevel
    ensures exists a :: a in f.attendance && a.instructorName == Some(c.name)
  {
    PreparedFromGrouped(f, level, sortBy, c);
    var es := Entries(ByInstructor, f.attendance);
    var cs := Categories(es);
    assert cs == Grouped(f, level);
    var i :| 0 <= i < |cs| && cs[i] == c;
    var e :| e in es && e.key == c.key;
    EntryOfInstructor(f.attendance, e);
  }

  lemma {:induction false} EntryOfInstructor(rows: seq<Attendance>, e: Entry)
    requires e in Entries(ByInstructor, rows)
    ensures e.row.instructorName == Some(e.key.name)
  {
    if |rows| > 0 {
      if e !in EntriesOf(ByInstructor, rows[0]) {
        EntryOfInstructor(rows[1..], e);
      }
    }
  }

  // ---------------------------------------------------------------------
  // The comparison chart

  /** `level_labels.get(analysis_level, 'Category')`. */
  function LevelLabel(level: string): string
  {
    if level == "class" then "Training Classes"
    else if level == "topic" then "Topics"
    else if level == "instructor" then "Instructors"
    else if level == "location" then "Locations"
    else if level == "aor" then "AORs"
    else "Category"
  }

  function NameOf(c: Category): string
  {
    c.name
  }

  function RegistrationsOf(c: Category): int
  {
    c.registrations
  }

  function AttendancesOf(c: Category): int
  {
    c.attendances
  }

  datatype Chart =
    | NoChartData
    | Bars(title: string, names: seq<string>, registrations: seq<int>, attendances: seq<int>, noShows: seq<int>)

  const ChartLimit := 15

  /** The first 15 categories as three bar series. */
  function ComparisonChart(cs: seq<Category>, level: string): (r: Chart)
    ensures r.NoChartData? <==> |cs| == 0
    ensures r.Bars? ==> |r.names| == |r.registrations| == |r.attendances| == |r.noShows|
    ensures r.Bars? ==> |r.names| == if |cs| < ChartLimit then |cs| else ChartLimit
    ensures r.Bars? ==> forall i :: 0 <= i < |r.names| ==>
      r.names[i] == cs[i].name && r.registrations[i] == cs[i].registrations && r.attendances[i] == cs[i].attendances
    ensures r.Bars? ==> forall i :: 0 <= i < |r.noShows| ==> r.noShows[i] == r.registrations[i] - r.attendances[i]
  {
    if |cs| == 0 then NoChartData
    else
      var shown := Head(cs, ChartLimit);
      assert forall i :: 0 <= i < |shown| ==> shown[i] == cs[i];
      Bars("Registration vs Attendance by " + LevelLabel(level),
           Map(shown, NameOf), Map(shown, RegistrationsOf), Map(shown, AttendancesOf), Map(shown, NoShows))
  }

  // ---------------------------------------------------------------------
  // The gauge

  function TotalRegistrations(cs: seq<Category>): nat
  {
    if |cs| == 0 then 0 else cs[0].registrations + TotalRegistrations(cs[1..])
  }

  function TotalAttendances(cs: seq<Category>): nat
  {
    if |cs| == 0 then 0 else cs[0].attendances + TotalAttendances(cs[1..])
  }

  /** Sum of attendances over sum of registrations, times 100; 0 without registrations. */
  function OverallRate(cs: seq<Category>): (r: real)
    ensures 0.0 <= r
    ensures TotalRegistrations(cs) == 0 ==> r == 0.0
  {
    var reg := TotalRegistrations(cs);
    if reg > 0 then (TotalAttendances(cs) as real) / (reg as real) * 100.0 else 0.0
  }

  datatype GaugeColour = Green | Orange | Red

  function Hex(g: GaugeColour): string
  {
    match g
    case Green => "#2ecc71"
    case Orange => "#f39c12"
    case Red => "#e74c3c"
  }

  function ColourOf(rate: real): GaugeColour
  {
    if rate >= 85.0 then Green else if rate >= 70.0 then Orange else Red
  }

  datatype Gauge = Gauge(rate: real, colour: GaugeColour)

  function GaugeOf(cs: seq<Category>): Gauge
  {
    Gauge(OverallRate(cs), ColourOf(OverallRate(cs)))
  }

  /** `a / r * 100 >= p` is `100 * a >= p * r` for positive `r`. */
  lemma ScaledAtLeast(a: nat, r: nat, p: nat)
    requires r > 0
    ensures (a as real) / (r as real) * 100.0 >= p as real <==> 100 * a >= p * r
  {
    var q := (a as real) / (r as real);
    assert q * (r as real) == a as real;
    if q * 100.0 >= p as real {
      assert q * 100.0 * (r as real) >= (p as real) * (r as real);
    } else {
      assert q * 100.0 * (r as real) < (p as real) * (r as real);
    }
  }

  /** Green from 85 %, orange from 70 %, red below, and red with no registrations. */
  lemma GaugeThresholds(cs: seq<Category>)
    ensures var reg, att := TotalRegistrations(cs), TotalAttendances(cs);
      (GaugeOf(cs).colour == Green <==> reg > 0 && 100 * att >= 85 * reg)
      && (GaugeOf(cs).colour == Orange <==> reg > 0 && 70 * reg <= 100 * att < 85 * reg)
      && (GaugeOf(cs).colour == Red <==> reg == 0 || 100 * att < 70 * reg)
  {
    var reg, att := TotalRegistrations(cs), TotalAttendances(cs);
    if reg > 0 {
      ScaledAtLeast(att, reg, 85);
      ScaledAtLeast(att, reg, 70);
    }
  }

  // ---------------------------------------------------------------------
  // The insights

  /** Index of the first largest rate (`idxmax`). */
  function FirstMaxAt(rs: seq<Rate>): (i: nat)
    requires |rs| > 0
    ensures i < |rs|
    ensures forall j :: 0 <= j < |rs| ==> RateLe(rs[j], rs[i])
    ensures forall j :: 0 <= j < i ==> !RateLe(rs[i], rs[j])
  {
    if |rs| == 1 then 0
    else
      var n := |rs| - 1;
      var i := FirstMaxAt(rs[..n]);
      assert forall j :: 0 <= j < n ==> rs[..n][j] == rs[j];
      if !RateLe(rs[n], rs[i]) then n else i
  }

  /** "Highest Gap" as written: the first row of the table, in whatever order the user sorted it. */
  function HighestGapAsWritten(cs: seq<Category>): (c: Category)
    requires |cs| > 0
    ensures c in cs
  {
    cs[0]
  }

  /** "Highest Gap" as the label promises: the first category with the largest gap. */
  function HighestGapRow(cs: seq<Category>): (c: Category)
    requires |cs| > 0
    ensures c in cs
    ensures forall x :: x in cs ==> RateLe(GapPercent(x), GapPercent(c))
  {
    var gaps := Map(cs, GapPercent);
    var i := FirstMaxAt(gaps);
    forall x | x in cs ensures RateLe(GapPercent(x), GapPercent(cs[i])) {
      var j :| 0 <= j < |cs| && cs[j] == x;
      assert gaps[j] == GapPercent(x);
    }
    cs[i]
  }

  /** Sorted by gap, largest first, the two agree: the first row is the corrected one. */
  lemma HighestGapAgreesWhenGapDescending(f: Filtered, level: string, sortBy: string)
    requires ModeOf(sortBy) == GapDescending
    requires |PrepareGap(f, level, sortBy)| > 0
    ensures HighestGapRow(PrepareGap(f, level, sortBy)) == HighestGapAsWritten(PrepareGap(f, level, sortBy))
  {
    var cs := PrepareGap(f, level, sortBy);
    var gaps := Map(cs, GapPercent);
    var i := FirstMaxAt(gaps);
  }

  /**
   * Sorted by gap, smallest first, the row read as written has the smallest
   * gap: as soon as two gaps differ it is not the highest.
   */
  lemma HighestGapAsWrittenMisses(f: Filtered, level: string, i: nat, j: nat)
    requires var cs := PrepareGap(f, level, "gap_percent_asc");
      i < |cs| && j < |cs| && !RateLe(GapPercent(cs[j]), GapPercent(cs[i]))
    ensures var cs := PrepareGap(f, level, "gap_percent_asc");
      !RateLe(GapPercent(HighestGapRow(cs)), GapPercent(HighestGapAsWritten(cs)))
  {
    var cs := PrepareGap(f, level, "gap_percent_asc");
    assert ModeOf("gap_percent_asc") == GapAscending;
    var top := HighestGapRow(cs);
    assert RateLe(GapPercent(cs[j]), GapPercent(top));
    if i > 0 {
      assert Order(GapAscending)(cs[0], cs[i]);
    }
  }

  /** `AttendanceRate >= 90`; an infinite rate counts. */
  predicate Excellent(c: Category)
  {
    match AttendanceRate(c)
    case Finite(v) => v >= 90.0
    case PosInf => true
    case NegInf => false
  }

  /** `gap_data.loc[gap_data['AttendanceRate'].idxmax()]`. */
  function BestRow(cs: seq<Category>): (c: Category)
    requires |cs| > 0
    ensures c in cs
    ensures forall x :: x in cs ==> RateLe(AttendanceRate(x), AttendanceRate(c))
  {
    var rates := Map(cs, AttendanceRate);
    var i := FirstMaxAt(rates);
    forall x | x in cs ensures RateLe(AttendanceRate(x), AttendanceRate(cs[i])) {
      var j :| 0 <= j < |cs| && cs[j] == x;
      assert rates[j] == AttendanceRate(x);
    }
    cs[i]
  }

  datatype Insight =
    | OverallAttendance(percent: real, attended: nat, registered: nat)
    | HighestGap(name: string, gap: Rate, entity: string)
    | Excellence(count: nat, total: nat, level: string)
    | BestPerformer(name: string, rate: Rate)
    | AverageGap(gap: Rate)

  datatype InsightsView = NoInsights | Insights(items: seq<Insight>)

  /** `level_labels.get(analysis_level, "Entity").lower()`: the level itself, or "entity". */
  function EntityWord(level: string): (r: string)
    ensures level in {"class", "topic", "instructor", "location", "aor"} ==> r == level
  {
    if level in {"class", "topic", "instructor", "location", "aor"} then level else "entity"
  }

  /** The third insight: excellence when several categories exist and one reaches 90 %, else the best one; one category gives its gap. */
  function ThirdInsight(cs: seq<Category>, level: string): Insight
    requires |cs| > 0
  {
    if |cs| > 1 then
      var excellent := |Filter(cs, Excellent)|;
      if excellent > 0 then Excellence(excellent, |cs|, level)
      else BestPerformer(BestRow(cs).name, AttendanceRate(BestRow(cs)))
    else AverageGap(GapPercent(cs[0]))
  }

  /** The three insights, the second naming `worst` as the highest gap. */
  function InsightsNaming(cs: seq<Category>, level: string, worst: Category): (r: InsightsView)
    requires |cs| > 0
    ensures r.Insights? && |r.items| == 3
  {
    Insights([OverallAttendance(OverallRate(cs), TotalAttendances(cs), TotalRegistrations(cs)),
              HighestGap(worst.name, GapPercent(worst), EntityWord(level)),
              ThirdInsight(cs, level)])
  }

  /** The insights as the label promises, naming the category with the largest gap. */
  function GapInsights(cs: seq<Category>, level: string): (r: InsightsView)
    ensures r.NoInsights? <==> |cs| == 0
    ensures r.Insights? ==> |r.items| == 3
  {
    if |cs| == 0 then NoInsights else InsightsNaming(cs, level, HighestGapRow(cs))
  }

  /** The insights as written, naming the first row of the sorted table as the highest gap. */
  function GapInsightsAsWritten(cs: seq<Category>, level: string): (r: InsightsView)
    ensures r.NoInsights? <==> |cs| == 0
    ensures r.Insights? ==> |r.items| == 3 && r.items[1] == HighestGap(cs[0].name, GapPercent(cs[0]), EntityWord(level))
  {
    if |cs| == 0 then NoInsights else InsightsNaming(cs, level, HighestGapAsWritten(cs))
  }

  /**
   * The two differ in the second insight alone, and on a table sorted by
   * gap, largest first, not even there.
   */
  lemma GapInsightsAgree(f: Filtered, level: string, sortBy: string)
    ensures var cs := PrepareGap(f, level, sortBy);
      var w, c := GapInsightsAsWritten(cs, level), GapInsights(cs, level);
      (w.Insights? <==> c.Insights?) && (w.Insights? ==> w.items[0] == c.items[0] && w.items[2] == c.items[2])
      && (ModeOf(sortBy) == GapDescending ==> w == c)
  {
    var cs := PrepareGap(f, level, sortBy);
    if ModeOf(sortBy) == GapDescending && |cs| > 0 {
      HighestGapAgreesWhenGapDescending(f, level, sortBy);
    }
  }

  /** The insights name the largest gap and, without an excellent category, the largest attendance rate. */
  lemma InsightsContent(cs: seq<Category>, level: string)
    requires |cs| > 0
    ensures var items := GapInsights(cs, level).items;
      items[1].HighestGap? && (forall c :: c in cs ==> RateLe(GapPercent(c), items[1].gap))
      && (items[2].Excellence? <==> |cs| > 1 && exists c :: c in cs && Excellent(c))
      && (items[2].Excellence? ==> 0 < items[2].count <= items[2].total == |cs|)
      && (items[2].BestPerformer? ==> forall c :: c in cs ==> RateLe(AttendanceRate(c), items[2].rate) && !Excellent(c))
      && (items[2].AverageGap? <==> |cs| == 1)
  {
    var items := GapInsights(cs, level).items;
    if |cs| > 1 {
      var kept := Filter(cs, Excellent);
      if exists c :: c in cs && Excellent(c) {
        var c :| c in cs && Excellent(c);
        assert c in kept;
      }
      if |kept| > 0 {
        assert kept[0] in kept;
      }
    }
  }

  // ---------------------------------------------------------------------
  // `update_gap_analysis`

  datatype GapView = GapView(chart: Chart, gauge: Gauge, insights: InsightsView)

  /** The callback as written: the quote-only reader, and the first row of the sorted table as the highest gap. */
  function UpdateGap(b: Base, stored: Option<Store>, level: string, sortBy: string,
                     coerce: string -> Option<DateTime>): GapView
  {
    var cs := PrepareGap(ApplyFilters(b, stored, QuoteOnly, coerce), level, sortBy);
    GapView(ComparisonChart(cs, level), GaugeOf(cs), GapInsightsAsWritten(cs, level))
  }

  /** The callback as evidently intended: the largest gap named, for either reader. */
  function UpdateGapIntended(b: Base, stored: Option<Store>, r: ListReader, level: string, sortBy: string,
                             coerce: string -> Option<DateTime>): GapView
  {
    var cs := PrepareGap(ApplyFilters(b, stored, r, coerce), level, sortBy);
    GapView(ComparisonChart(cs, level), GaugeOf(cs), GapInsights(cs, level))
  }

  /**
   * The three outputs agree on whether there is data, and with none the
   * gauge reads 0 in red; the callback as written differs from the intended
   * one only in the insights, and not at all on a table sorted by gap,
   * largest first.
   */
  lemma UpdateGapConsistent(b: Base, stored: Option<Store>, level: string, sortBy: string,
                            coerce: string -> Option<DateTime>)
    ensures var v := UpdateGap(b, stored, level, sortBy, coerce);
      (v.chart.NoChartData? <==> v.insights.NoInsights?)
      && (v.chart.NoChartData? ==> v.gauge == Gauge(0.0, Red))
    ensures var v, u := UpdateGap(b, stored, level, sortBy, coerce), UpdateGapIntended(b, stored, QuoteOnly, level, sortBy, coerce);
      v.chart == u.chart && v.gauge == u.gauge && (ModeOf(sortBy) == GapDescending ==> v == u)
  {
    var cs := PrepareGap(ApplyFilters(b, stored, QuoteOnly, coerce), level, sortBy);
    if |cs| == 0 {
      assert TotalRegistrations(cs) == 0;
    }
    GapInsightsAgree(ApplyFilters(b, stored, QuoteOnly, coerce), level, sortBy);
  }

  /** The intended callback's outputs agree on whether there is data, for either reader. */
  lemma UpdateGapIntendedConsistent(b: Base, stored: Option<Store>, r: ListReader, level: string, sortBy: string,
                                    coerce: string -> Option<DateTime>)
    ensures var v := UpdateGapIntended(b, stored, r, level, sortBy, coerce);
      (v.chart.NoChartData? <==> v.insights.NoInsights?)
      && (v.chart.NoChartData? ==> v.gauge == Gauge(0.0, Red))
  {
    var cs := PrepareGap(ApplyFilters(b, stored, r, coerce), level, sortBy);
    if |cs| == 0 {
      assert TotalRegistrations(cs) == 0;
    }
  }
}
