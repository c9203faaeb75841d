/**
 * The training filter panel: the AOR list, then the cascade in which the
 * office, topic, instructor, location and class option lists are derived
 * from the current selections through the request and attendance fact
 * tables, the clear button, and the store writer. Identifiers are compared
 * as strings; a failed query is a missing table.
 */
module TrainingFilters {
  import opened Common

  datatype AorRow = AorRow(aorId: Option<string>, name: Option<string>, shortName: Option<string>)
  datatype OfficeRow = OfficeRow(aor: Option<string>, officeCode: Option<string>)
  datatype TopicRow = TopicRow(topicId: Option<string>, topicName: Option<string>)
  datatype NamedRow = NamedRow(id: Option<string>, name: Option<string>)
  datatype ClassRow = ClassRow(
    topicId: Option<string>, topicName: Option<string>,
    classId: Option<string>, className: Option<string>,
    aor: Option<string>, startTime: string,
    instructorId: Option<string>, instructorName: Option<string>,
    locationId: Option<string>, locationName: Option<string>)
  /** A row of Fact_RequestStats, reduced to the columns the cascade reads. */
  datatype RequestStat = RequestStat(topicId: Option<string>, aor: Option<string>, office: Option<string>)
  /** A row of Fact_AttendanceStats, reduced to the columns the cascade reads. */
  datatype AttendanceStat = AttendanceStat(
    classId: Option<string>, topicId: Option<string>, locationId: Option<string>,
    instructorId: Option<string>, aor: Option<string>, office: Option<string>)

  /** The tables the cascade queries. */
  datatype Tables = Tables(
    aors: seq<AorRow>, offices: seq<OfficeRow>, topics: seq<TopicRow>,
    instructors: seq<NamedRow>, locations: seq<NamedRow>, classes: seq<ClassRow>,
    requests: seq<RequestStat>, attendance: seq<AttendanceStat>)

  /** One dropdown's options and placeholder text. */
  datatype Panel = Panel(options: seq<DropOption>, placeholder: string)

  /** `f"{x}"` / `str(x)` of a cell: a null cell prints as "None". */
  function Shown(c: Option<string>): string
  {
    if c.Some? then c.value else "None"
  }

  /** The space-padded list of selected values in an "All … " caption, or a single space. */
  function SelectionLabel(sel: Selection): (r: string)
    ensures !IsActive(sel) ==> r == " "
    ensures IsActive(sel) ==> |r| >= 2 && r[0] == ' ' && r[|r| - 1] == ' '
  {
    if IsActive(sel) then " " + Join(sel.value, ",") + " " else " "
  }

  /** An active caption lists the selected values: split at the commas, its inside gives them back. */
  lemma SelectionLabelLists(sel: Selection)
    requires IsActive(sel) && forall i :: 0 <= i < |sel.value| ==> Separable(sel.value[i], ",")
    ensures var r := SelectionLabel(sel);
      |r| >= 2 && Split(r[1..|r| - 1], ",") == sel.value
  {
    var r := SelectionLabel(sel);
    assert r[1..|r| - 1] == Join(sel.value, ",");
    SplitJoin(sel.value, ",");
  }

  // Column accessors, as function values for NarrowBy.
  function RequestAor(q: RequestStat): Option<string> { q.aor }
  function RequestOffice(q: RequestStat): Option<string> { q.office }
  function AttAor(a: AttendanceStat): Option<string> { a.aor }
  function AttOffice(a: AttendanceStat): Option<string> { a.office }
  function AttTopic(a: AttendanceStat): Option<string> { a.topicId }
  function AttInstructor(a: AttendanceStat): Option<string> { a.instructorId }
  function AttLocation(a: AttendanceStat): Option<string> { a.locationId }
  function OfficeAor(o: OfficeRow): Option<string> { o.aor }
  function ClassAor(c: ClassRow): Option<string> { c.aor }
  function ClassInstructor(c: ClassRow): Option<string> { c.instructorId }
  function ClassLocation(c: ClassRow): Option<string> { c.locationId }
  function ClassTopic(c: ClassRow): Option<string> { c.topicId }
  function TopicIdOf(t: TopicRow): Option<string> { t.topicId }

  // ---------------------------------------------------------------------
  // AORs

  function HasShortName(r: AorRow): bool { r.shortName.Some? }

  function AorEntry(r: AorRow): DropOption
  {
    DropOption(Shown(r.shortName) + " - " + Shown(r.name), Shown(r.shortName))
  }

  /** "All Aors", then one entry per AOR row with a short name, in table order. */
  function AorOptions(rows: seq<AorRow>): (r: seq<DropOption>)
    ensures |r| >= 1 && r[0] == DropOption("All Aors", AllSentinel)
    ensures r[1..] == Map(Filter(rows, HasShortName), AorEntry)
  {
    [DropOption("All Aors", AllSentinel)] + Map(Filter(rows, HasShortName), AorEntry)
  }

  /** An AOR is offered under its short name exactly when some row carries that short name. */
  lemma AorOptionsCover(rows: seq<AorRow>, v: string)
    ensures (exists o :: o in AorOptions(rows)[1..] && o.value == v) <==>
      (exists r :: r in rows && r.shortName == Some(v))
  {
    var opts := AorOptions(rows)[1..];
    if exists o :: o in opts && o.value == v {
      var o :| o in opts && o.value == v;
      MapFilterMember(rows, HasShortName, AorEntry, o);
    }
    if exists r :: r in rows && r.shortName == Some(v) {
      var r :| r in rows && r.shortName == Some(v);
      MapFilterMember(rows, HasShortName, AorEntry, AorEntry(r));
    }
  }

  /** 2020-01-01 as a day number (days since 1970-01-01), the default start date. */
  const StartPlaceholderDay: int := 18262

  /** `populate_initial_filters`: the date placeholders and the AOR panel, or an error panel when the query fails. */
  function InitialFilters(loaded: Option<seq<AorRow>>, today: int): (r: (int, int, Panel))
    ensures r.0 == StartPlaceholderDay && r.1 == today
    ensures loaded.None? ==> r.2 == Panel([], "Error loading AORs")
    ensures loaded.Some? ==> r.2 == Panel(AorOptions(loaded.value), "Select AORs...")
  {
    (StartPlaceholderDay, today,
     if loaded.None? then Panel([], "Error loading AORs") else Panel(AorOptions(loaded.value), "Select AORs..."))
  }

  // ---------------------------------------------------------------------
  // Offices

  function HasOfficeCode(o: OfficeRow): bool { o.officeCode.Some? }

  function OfficeEntry(o: OfficeRow): DropOption
  {
    DropOption(Shown(o.aor) + " - " + Shown(o.officeCode), Shown(o.officeCode))
  }

  /** Office options: the "All … Offices" entry, then the offices of the selected AORs in table order. */
  function OfficeOptions(offices: seq<OfficeRow>, aors: Selection): (r: seq<DropOption>)
    ensures |r| >= 1 && r[0] == DropOption("All" + SelectionLabel(aors) + "Offices", AllSentinel)
  {
    [DropOption("All" + SelectionLabel(aors) + "Offices", AllSentinel)] +
      Map(Filter(NarrowBy(offices, aors, OfficeAor), HasOfficeCode), OfficeEntry)
  }

  /** The offices offered are exactly the coded offices of the selected AORs, or all coded offices when no AOR is selected. */
  lemma OfficeOptionsSpec(offices: seq<OfficeRow>, aors: Selection, o: DropOption)
    ensures o in OfficeOptions(offices, aors)[1..] <==>
      exists r :: r in offices && r.officeCode.Some? && Admits(aors, r.aor) && OfficeEntry(r) == o
  {
    var narrowed := NarrowBy(offices, aors, OfficeAor);
    assert OfficeOptions(offices, aors)[1..] == Map(Filter(narrowed, HasOfficeCode), OfficeEntry);
    MapFilterMember(narrowed, HasOfficeCode, OfficeEntry, o);
  }

  /** With no AOR selected every coded office is listed, in table order. */
  lemma OfficesUnnarrowed(offices: seq<OfficeRow>, aors: Selection)
    requires !IsActive(aors)
    ensures OfficeOptions(offices, aors) ==
      [DropOption("All Offices", AllSentinel)] + Map(Filter(offices, HasOfficeCode), OfficeEntry)
  {
    assert "All" + " " + "Offices" == "All Offices";
  }

  /** `populate_office_filter`. */
  function OfficePanel(loaded: Option<Tables>, aors: Selection): (p: Panel)
    ensures loaded.None? ==> p == Panel([], "Error loading Offices")
    ensures loaded.Some? ==> p == Panel(OfficeOptions(loaded.value.offices, aors), "Select Offices...")
  {
    if loaded.None? then Panel([], "Error loading Offices")
    else Panel(OfficeOptions(loaded.value.offices, aors), "Select Offices...")
  }

  // ---------------------------------------------------------------------
  // Topics

  /** The topic ids still reachable: the union over narrowed request stats and narrowed attendance stats. */
  function ReachableTopics(t: Tables, aors: Selection, offices: Selection): set<Option<string>>
  {
    var reqs := NarrowBy(NarrowBy(t.requests, aors, RequestAor), offices, RequestOffice);
    var att := NarrowBy(NarrowBy(t.attendance, aors, AttAor), offices, AttOffice);
    (set q | q in reqs :: q.topicId) + (set a | a in att :: a.topicId)
  }

  /** A topic id is reachable when some request or attendance row of the selected AORs and offices carries it. */
  lemma ReachableTopicsSpec(t: Tables, aors: Selection, offices: Selection, id: Option<string>)
    ensures id in ReachableTopics(t, aors, offices) <==>
      (exists q :: q in t.requests && Admits(aors, q.aor) && Admits(offices, q.office) && q.topicId == id) ||
      (exists a :: a in t.attendance && Admits(aors, a.aor) && Admits(offices, a.office) && a.topicId == id)
  {
  }

  function HasTopicName(r: TopicRow): bool { r.topicName.Some? }

  function TopicEntry(r: TopicRow): DropOption
  {
    DropOption(Shown(r.topicName), Shown(r.topicId))
  }

  function InReachableTopics(ids: set<Option<string>>): TopicRow -> bool
  {
    (r: TopicRow) => r.topicId in ids
  }

  /** The topic rows kept: narrowed to the reachable ids only when an AOR or office is selected. */
  function KeptTopics(t: Tables, aors: Selection, offices: Selection): seq<TopicRow>
  {
    if IsActive(aors) || IsActive(offices) then Filter(t.topics, InReachableTopics(ReachableTopics(t, aors, offices)))
    else t.topics
  }

  function TopicOptions(t: Tables, aors: Selection, offices: Selection): (r: seq<DropOption>)
    ensures |r| >= 1 && r[0] == DropOption("All Topics", AllSentinel)
  {
    [DropOption("All Topics", AllSentinel)] + Map(Filter(KeptTopics(t, aors, offices), HasTopicName), TopicEntry)
  }

  /** A named topic is offered exactly when it is reachable from the selected AORs and offices, or when neither is selected. */
  lemma TopicOptionsSpec(t: Tables, aors: Selection, offices: Selection, o: DropOption)
    ensures o in TopicOptions(t, aors, offices)[1..] <==>
      exists r :: r in t.topics && r.topicName.Some? && TopicEntry(r) == o &&
        (IsActive(aors) || IsActive(offices) ==> r.topicId in ReachableTopics(t, aors, offices))
  {
    var kept := KeptTopics(t, aors, offices);
    assert TopicOptions(t, aors, offices)[1..] == Map(Filter(kept, HasTopicName), TopicEntry);
    MapFilterMember(kept, HasTopicName, TopicEntry, o);
  }

  /** `populate_topics_filter`. */
  function TopicPanel(loaded: Option<Tables>, aors: Selection, offices: Selection): (p: Panel)
    ensures loaded.None? ==> p == Panel([], "Error loading Topics")
    ensures loaded.Some? ==> p == Panel(TopicOptions(loaded.value, aors, offices), "Select Topics...")
  {
    if loaded.None? then Panel([], "Error loading Topics")
    else Panel(TopicOptions(loaded.value, aors, offices), "Select Topics...")
  }

  // ---------------------------------------------------------------------
  // Instructors

  /** The instructor ids in the attendance stats of the selected AORs and offices. */
  function ReachableInstructors(t: Tables, aors: Selection, offices: Selection): set<Option<string>>
  {
    var att := NarrowBy(NarrowBy(t.attendance, aors, AttAor), offices, AttOffice);
    set a | a in att :: a.instructorId
  }

  function HasName(r: NamedRow): bool { r.name.Some? }

  function NamedEntry(r: NamedRow): DropOption
  {
    DropOption(Shown(r.name), Shown(r.id))
  }

  function InIds(ids: set<Option<string>>): NamedRow -> bool
  {
    (r: NamedRow) => r.id in ids
  }

  function InstructorOptions(t: Tables, aors: Selection, offices: Selection): (r: seq<DropOption>)
    ensures |r| >= 1 && r[0] == DropOption("All Instructors", AllSentinel)
  {
    var kept := if IsActive(aors) || IsActive(offices) then Filter(t.instructors, InIds(ReachableInstructors(t, aors, offices)))
      else t.instructors;
    [DropOption("All Instructors", AllSentinel)] + Map(Filter(kept, HasName), NamedEntry)
  }

  /** A named instructor is offered exactly when some attendance row of the selected AORs and offices names them, or when neither is selected. */
  lemma InstructorOptionsSpec(t: Tables, aors: Selection, offices: Selection, o: DropOption)
    ensures o in InstructorOptions(t, aors, offices)[1..] <==>
      exists r :: r in t.instructors && r.name.Some? && NamedEntry(r) == o &&
        (IsActive(aors) || IsActive(offices) ==>
          exists a :: a in t.attendance && Admits(aors, a.aor) && Admits(offices, a.office) && a.instructorId == r.id)
  {
    var kept := if IsActive(aors) || IsActive(offices) then Filter(t.instructors, InIds(ReachableInstructors(t, aors, offices)))
      else t.instructors;
    assert InstructorOptions(t, aors, offices)[1..] == Map(Filter(kept, HasName), NamedEntry);
    MapFilterMember(kept, HasName, NamedEntry, o);
  }

  /** The request stats play no part in the instructor list. */
  lemma InstructorsIgnoreRequests(t: Tables, requests: seq<RequestStat>, aors: Selection, offices: Selection)
    ensures InstructorOptions(t.(requests := requests), aors, offices) == InstructorOptions(t, aors, offices)
  {
    assert ReachableInstructors(t.(requests := requests), aors, offices) == ReachableInstructors(t, aors, offices);
  }

  /** `populate_instructor_filter`. */
  function InstructorPanel(loaded: Option<Tables>, aors: Selection, offices: Selection): (p: Panel)
    ensures loaded.None? ==> p == Panel([], "Error loading Instructors")
    ensures loaded.Some? ==> p == Panel(InstructorOptions(loaded.value, aors, offices), "Select Instructors...")
  {
    if loaded.None? then Panel([], "Error loading Instructors")
    else Panel(InstructorOptions(loaded.value, aors, offices), "Select Instructors...")
  }

  // ---------------------------------------------------------------------
  // Locations

  /** The attendance stats narrowed by AOR, office, topic and instructor, in that order. */
  function LocationAttendance(t: Tables, aors: Selection, offices: Selection, topics: Selection, instructors: Selection): seq<AttendanceStat>
  {
    NarrowBy(NarrowBy(NarrowBy(NarrowBy(t.attendance, aors, AttAor), offices, AttOffice), topics, AttTopic), instructors, AttInstructor)
  }

  /** Some selection among the four the location list depends on narrows the data. */
  predicate LocationFiltered(aors: Selection, offices: Selection, topics: Selection, instructors: Selection)
  {
    IsActive(aors) || IsActive(offices) || IsActive(topics) || IsActive(instructors)
  }

  /** The location rows left by the attendance step, when it applies. */
  function LocationsKept(t: Tables, aors: Selection, offices: Selection, topics: Selection, instructors: Selection): seq<NamedRow>
  {
    if LocationFiltered(aors, offices, topics, instructors)
    then Filter(t.locations, InIds(set a | a in LocationAttendance(t, aors, offices, topics, instructors) :: a.locationId))
    else t.locations
  }

  function LocationOptions(t: Tables, aors: Selection, offices: Selection, topics: Selection, instructors: Selection): (r: seq<DropOption>)
    ensures |r| >= 1 && r[0] == DropOption("All Locations", AllSentinel)
  {
    [DropOption("All Locations", AllSentinel)] + Map(Filter(LocationsKept(t, aors, offices, topics, instructors), HasName), NamedEntry)
  }

  /** A named location is offered exactly when an attendance row passing all four selections took place there, or when none is active. */
  lemma LocationOptionsSpec(t: Tables, aors: Selection, offices: Selection, topics: Selection, instructors: Selection, o: DropOption)
    ensures o in LocationOptions(t, aors, offices, topics, instructors)[1..] <==>
      exists r :: r in t.locations && r.name.Some? && NamedEntry(r) == o &&
        (LocationFiltered(aors, offices, topics, instructors) ==>
          exists a :: a in t.attendance && Admits(aors, a.aor) && Admits(offices, a.office) &&
            Admits(topics, a.topicId) && Admits(instructors, a.instructorId) && a.locationId == r.id)
  {
    var kept := LocationsKept(t, aors, offices, topics, instructors);
    assert LocationOptions(t, aors, offices, topics, instructors)[1..] == Map(Filter(kept, HasName), NamedEntry);
    MapFilterMember(kept, HasName, NamedEntry, o);
    forall r ensures r in kept <==> r in t.locations && (LocationFiltered(aors, offices, topics, instructors) ==>
          exists a :: a in t.attendance && Admits(aors, a.aor) && Admits(offices, a.office) &&
            Admits(topics, a.topicId) && Admits(instructors, a.instructorId) && a.locationId == r.id)
    {
      LocationKept(t, aors, offices, topics, instructors, r);
    }
  }

  /** A location row survives the attendance step iff some attendance row passing all four selections took place there. */
  lemma LocationKept(t: Tables, aors: Selection, offices: Selection, topics: Selection, instructors: Selection, r: NamedRow)
    ensures r in LocationsKept(t, aors, offices, topics, instructors) <==> (r in t.locations &&
      (LocationFiltered(aors, offices, topics, instructors) ==>
        exists a :: a in t.attendance && Admits(aors, a.aor) && Admits(offices, a.office) &&
          Admits(topics, a.topicId) && Admits(instructors, a.instructorId) && a.locationId == r.id))
  {
    var att := LocationAttendance(t, aors, offices, topics, instructors);
    assert forall a :: a in att <==> (a in t.attendance && Admits(aors, a.aor) && Admits(offices, a.office) &&
      Admits(topics, a.topicId) && Admits(instructors, a.instructorId));
  }

  /** `populate_location_filter`. */
  function LocationPanel(loaded: Option<Tables>, aors: Selection, offices: Selection, topics: Selection, instructors: Selection): (p: Panel)
    ensures loaded.None? ==> p == Panel([], "Error loading Locations")
    ensures loaded.Some? ==> p == Panel(LocationOptions(loaded.value, aors, offices, topics, instructors), "Select Locations...")
  {
    if loaded.None? then Panel([], "Error loading Locations")
    else Panel(LocationOptions(loaded.value, aors, offices, topics, instructors), "Select Locations...")
  }

  // ---------------------------------------------------------------------
  // Classes

  /** The four selections that route the class list through the attendance stats. */
  predicate ClassFiltered(aors: Selection, offices: Selection, instructors: Selection, locations: Selection)
  {
    IsActive(aors) || IsActive(offices) || IsActive(instructors) || IsActive(locations)
  }

  /** The attendance stats narrowed by AOR, office, instructor and location. */
  function ClassAttendance(t: Tables, aors: Selection, offices: Selection, instructors: Selection, locations: Selection): seq<AttendanceStat>
  {
    NarrowBy(NarrowBy(NarrowBy(NarrowBy(t.attendance, aors, AttAor), offices, AttOffice), instructors, AttInstructor), locations, AttLocation)
  }

  function InClassIds(ids: set<Option<string>>): ClassRow -> bool
  {
    (c: ClassRow) => c.classId in ids
  }

  /** The class rows left after the attendance step (when it applies) and the direct topic filter. */
  function KeptClasses(t: Tables, aors: Selection, offices: Selection, instructors: Selection, locations: Selection, topics: Selection): seq<ClassRow>
  {
    NarrowBy(ClassesRouted(t, aors, offices, instructors, locations), topics, ClassTopic)
  }

  /** The class rows left by the attendance step, when it applies. */
  function ClassesRouted(t: Tables, aors: Selection, offices: Selection, instructors: Selection, locations: Selection): seq<ClassRow>
  {
    if ClassFiltered(aors, offices, instructors, locations) then
      var narrowed := NarrowBy(NarrowBy(NarrowBy(t.classes, aors, ClassAor), instructors, ClassInstructor), locations, ClassLocation);
      Filter(narrowed, InClassIds(set a | a in ClassAttendance(t, aors, offices, instructors, locations) :: a.classId))
    else t.classes
  }

  /** A class row survives exactly when it passes the topic selection and, when the attendance step applies, the AOR, instructor and location selections and has a matching attendance row. */
  lemma KeptClassesSpec(t: Tables, aors: Selection, offices: Selection, instructors: Selection, locations: Selection, topics: Selection, c: ClassRow)
    ensures c in KeptClasses(t, aors, offices, instructors, locations, topics) <==>
      c in t.classes && Admits(topics, c.topicId) &&
      (ClassFiltered(aors, offices, instructors, locations) ==>
        Admits(aors, c.aor) && Admits(instructors, c.instructorId) && Admits(locations, c.locationId) &&
        exists a :: a in t.attendance && Admits(aors, a.aor) && Admits(offices, a.office) &&
          Admits(instructors, a.instructorId) && Admits(locations, a.locationId) && a.classId == c.classId)
  {
    ClassRouted(t, aors, offices, instructors, locations, c);
  }

  lemma ClassRouted(t: Tables, aors: Selection, offices: Selection, instructors: Selection, locations: Selection, c: ClassRow)
    ensures c in ClassesRouted(t, aors, offices, instructors, locations) <==> (c in t.classes &&
      (ClassFiltered(aors, offices, instructors, locations) ==>
        Admits(aors, c.aor) && Admits(instructors, c.instructorId) && Admits(locations, c.locationId) &&
        exists a :: a in t.attendance && Admits(aors, a.aor) && Admits(offices, a.office) &&
          Admits(instructors, a.instructorId) && Admits(locations, a.locationId) && a.classId == c.classId))
  {
    var att := ClassAttendance(t, aors, offices, instructors, locations);
    assert forall a :: a in att <==> (a in t.attendance && Admits(aors, a.aor) && Admits(offices, a.office) &&
      Admits(instructors, a.instructorId) && Admits(locations, a.locationId));
  }

  /** `','.join(names)` over a column's unique values: a null among them makes the join raise. */
  function JoinNames(names: seq<Option<string>>): (r: Option<string>)
    ensures r.None? <==> None in names
  {
    if None in names then None else Some(Join(Somes(names), ","))
  }

  function ClassInstructorName(c: ClassRow): Option<string> { c.instructorName }
  function ClassLocationName(c: ClassRow): Option<string> { c.locationName }
  function TopicCaption(r: TopicRow): string { Shown(r.topicName) }

  /** The names of the selected topics, in table order. */
  function SelectedTopicNames(t: Tables, topics: Selection): seq<string>
  {
    Map(NarrowBy(t.topics, topics, TopicIdOf), TopicCaption)
  }

  /** The selected topics' names, space-padded, or a single space when no topic is selected. */
  function TopicsCaption(t: Tables, topics: Selection): (r: string)
    ensures !IsActive(topics) ==> r == " "
    ensures IsActive(topics) ==> |r| >= 2 && r[0] == ' ' && r[|r| - 1] == ' '
  {
    if IsActive(topics) then " " + Join(SelectedTopicNames(t, topics), ",") + " " else " "
  }

  /**
   * An active topics caption names exactly the topics whose id is selected:
   * split at the commas, its inside gives their names in table order.
   */
  lemma TopicsCaptionNames(t: Tables, topics: Selection, n: string)
    requires IsActive(topics)
    ensures n in SelectedTopicNames(t, topics) <==> exists row :: row in t.topics && Admits(topics, row.topicId) && TopicCaption(row) == n
    ensures var r := TopicsCaption(t, topics); var names := SelectedTopicNames(t, topics);
      |names| > 0 && (forall i :: 0 <= i < |names| ==> Separable(names[i], ",")) ==> Split(r[1..|r| - 1], ",") == names
  {
    MapFilterMember(t.topics, Admitted(topics, TopicIdOf), TopicCaption, n);
    var r := TopicsCaption(t, topics);
    var names := SelectedTopicNames(t, topics);
    assert r[1..|r| - 1] == Join(names, ",");
    if |names| > 0 && forall i :: 0 <= i < |names| ==> Separable(names[i], ",") {
      SplitJoin(names, ",");
    }
  }

  /** The instructor names of the kept classes taught by a selected instructor, each once. */
  function InstructorNames(kept: seq<ClassRow>, instructors: Selection): seq<Option<string>>
  {
    Distinct(Map(NarrowBy(kept, instructors, ClassInstructor), ClassInstructorName))
  }

  /** The location names of the kept classes held at a selected location, each once. */
  function LocationNames(kept: seq<ClassRow>, locations: Selection): seq<Option<string>>
  {
    Distinct(Map(NarrowBy(kept, locations, ClassLocation), ClassLocationName))
  }

  /** The "All … Classes" caption: the selected topics' names, then " For " AORs, " By " instructors and " At " locations; None when a name join raises. */
  function AllClassesLabel(t: Tables, kept: seq<ClassRow>, aors: Selection, instructors: Selection, locations: Selection, topics: Selection): (r: Option<string>)
    ensures !IsActive(instructors) && !IsActive(locations) ==>
      var base := "All" + TopicsCaption(t, topics) + "Classes";
      r == Some(if IsActive(aors) then base + " For " + Join(aors.value, ",") else base)
    ensures r.None? <==> (IsActive(instructors) && None in InstructorNames(kept, instructors)) ||
                         (IsActive(locations) && None in LocationNames(kept, locations))
  {
    var label0 := "All" + TopicsCaption(t, topics) + "Classes";
    var label1 := if IsActive(aors) then label0 + " For " + Join(aors.value, ",") else label0;
    var byNames := JoinNames(InstructorNames(kept, instructors));
    var atNames := JoinNames(LocationNames(kept, locations));
    if IsActive(instructors) && byNames.None? then None
    else
      var label2 := if IsActive(instructors) then label1 + " By " + byNames.value else label1;
      if IsActive(locations) && atNames.None? then None
      else Some(if IsActive(locations) then label2 + " At " + atNames.value else label2)
  }

  /**
   * Each active selection appends its part to the caption without it: the
   * instructors " By " their names, then the locations " At " theirs.
   */
  lemma AllClassesLabelParts(t: Tables, kept: seq<ClassRow>, aors: Selection, instructors: Selection, locations: Selection, topics: Selection)
    ensures var r := AllClassesLabel(t, kept, aors, instructors, locations, topics);
      IsActive(instructors) && !IsActive(locations) && r.Some? ==>
        r.value == AllClassesLabel(t, kept, aors, None, None, topics).value + " By " + Join(Somes(InstructorNames(kept, instructors)), ",")
    ensures var r := AllClassesLabel(t, kept, aors, instructors, locations, topics);
      IsActive(locations) && r.Some? ==>
        AllClassesLabel(t, kept, aors, instructors, None, topics).Some? &&
        r.value == AllClassesLabel(t, kept, aors, instructors, None, topics).value + " At " + Join(Somes(LocationNames(kept, locations)), ",")
  {
    var r := AllClassesLabel(t, kept, aors, instructors, locations, topics);
    if r.Some? {
      var label0 := "All" + TopicsCaption(t, topics) + "Classes";
      var label1 := if IsActive(aors) then label0 + " For " + Join(aors.value, ",") else label0;
      assert AllClassesLabel(t, kept, aors, None, None, topics) == Some(label1);
      var byNames := JoinNames(InstructorNames(kept, instructors));
      assert IsActive(instructors) ==> byNames == Some(Join(Somes(InstructorNames(kept, instructors)), ","));
      var label2 := if IsActive(instructors) then label1 + " By " + byNames.value else label1;
      assert AllClassesLabel(t, kept, aors, instructors, None, topics) == Some(label2);
      var atNames := JoinNames(LocationNames(kept, locations));
      assert IsActive(locations) ==> atNames == Some(Join(Somes(LocationNames(kept, locations)), ","));
      assert r == Some(if IsActive(locations) then label2 + " At " + atNames.value else label2);
    }
  }

  function HasClassName(c: ClassRow): bool { c.className.Some? }

  function ClassEntry(c: ClassRow): DropOption
  {
    DropOption(Shown(c.className) + ": " + c.startTime, Shown(c.classId))
  }

  /** The class options: None when building the caption raises; an empty list, without "All", when no class is left. */
  function ClassOptions(t: Tables, aors: Selection, offices: Selection, instructors: Selection, locations: Selection, topics: Selection): (r: Option<seq<DropOption>>)
    ensures r.Some? && |KeptClasses(t, aors, offices, instructors, locations, topics)| == 0 ==> r.value == []
    ensures r.Some? && |KeptClasses(t, aors, offices, instructors, locations, topics)| > 0 ==>
      |r.value| >= 1 && r.value[0].value == AllSentinel &&
      r.value[1..] == Map(Filter(KeptClasses(t, aors, offices, instructors, locations, topics), HasClassName), ClassEntry)
  {
    var kept := KeptClasses(t, aors, offices, instructors, locations, topics);
    var caption := AllClassesLabel(t, kept, aors, instructors, locations, topics);
    if caption.None? then None
    else if |kept| > 0 then Some([DropOption(caption.value, AllSentinel)] + Map(Filter(kept, HasClassName), ClassEntry))
    else Some([])
  }

  /** A class is offered exactly when it is named and survives the cascade. */
  lemma ClassOptionsSpec(t: Tables, aors: Selection, offices: Selection, instructors: Selection, locations: Selection, topics: Selection, o: DropOption)
    requires ClassOptions(t, aors, offices, instructors, locations, topics).Some?
    ensures var opts := ClassOptions(t, aors, offices, instructors, locations, topics).value;
      |opts| > 0 && o in opts[1..] <==>
        exists c :: c in KeptClasses(t, aors, offices, instructors, locations, topics) && c.className.Some? && ClassEntry(c) == o
  {
    var kept := KeptClasses(t, aors, offices, instructors, locations, topics);
    MapFilterMember(kept, HasClassName, ClassEntry, o);
  }

  /** With no instructor or location selected the caption never raises. */
  lemma ClassCaptionTotal(t: Tables, aors: Selection, offices: Selection, instructors: Selection, locations: Selection, topics: Selection)
    requires !IsActive(instructors) && !IsActive(locations)
    ensures ClassOptions(t, aors, offices, instructors, locations, topics).Some?
  {
  }

  /** `populate_class_filter`: a failed query or a raising caption gives the error panel; no class left gives "No classes available". */
  function ClassPanel(loaded: Option<Tables>, aors: Selection, offices: Selection, instructors: Selection, locations: Selection, topics: Selection): (p: Panel)
    ensures (loaded.None? || ClassOptions(loaded.value, aors, offices, instructors, locations, topics).None?) ==>
      p == Panel([], "Error loading Classes")
    ensures loaded.Some? && ClassOptions(loaded.value, aors, offices, instructors, locations, topics).Some? ==>
      p.options == ClassOptions(loaded.value, aors, offices, instructors, locations, topics).value &&
      p.placeholder == (if |p.options| > 0 then "Select Classes..." else "No classes available")
  {
    if loaded.None? then Panel([], "Error loading Classes")
    else
      var opts := ClassOptions(loaded.value, aors, offices, instructors, locations, topics);
      if opts.None? then Panel([], "Error loading Classes")
      else Panel(opts.value, if |opts.value| > 0 then "Select Classes..." else "No classes available")
  }

  /** A null instructor name among the selected instructor's classes makes the caption raise, and the panel shows the error. */
  lemma NullInstructorNameErrors(startTime: string)
    ensures var c := ClassRow(Some("t"), Some("Topic"), Some("c1"), Some("Class"), Some("A"), startTime,
                              Some("i1"), None, Some("l1"), Some("Hall"));
      var t := Tables([], [], [], [], [], [c], [], [AttendanceStat(Some("c1"), Some("t"), Some("l1"), Some("i1"), Some("A"), Some("O"))]);
      ClassPanel(Some(t), None, None, Some(["i1"]), None, None) == Panel([], "Error loading Classes")
  {
    var c := ClassRow(Some("t"), Some("Topic"), Some("c1"), Some("Class"), Some("A"), startTime,
                      Some("i1"), None, Some("l1"), Some("Hall"));
    var a := AttendanceStat(Some("c1"), Some("t"), Some("l1"), Some("i1"), Some("A"), Some("O"));
    var t := Tables([], [], [], [], [], [c], [], [a]);
    var ins: Selection := Some(["i1"]);
    assert IsActive(ins);
    assert a in ClassAttendance(t, None, None, ins, None);
    assert c in KeptClasses(t, None, None, ins, None, None);
    var kept := KeptClasses(t, None, None, ins, None, None);
    assert kept == [c];
    var names := Map(NarrowBy(kept, ins, ClassInstructor), ClassInstructorName);
    assert NarrowBy(kept, ins, ClassInstructor) == [c];
    assert None in Distinct(names) by { assert names[0] == None; }
  }

  // ---------------------------------------------------------------------
  // Clearing and the store writer

  /** One value per dropdown, in panel order. */
  datatype Selections = Selections(
    aors: Selection, offices: Selection, topics: Selection,
    instructors: Selection, locations: Selection, classes: Selection)

  /** `clear_all_filters`: the default dates and every dropdown emptied. */
  function ClearAllFilters(today: int): (r: (int, int, Selections))
    ensures r.0 == StartPlaceholderDay && r.1 == today
    ensures !IsActive(r.2.aors) && !IsActive(r.2.offices) && !IsActive(r.2.topics)
    ensures !IsActive(r.2.instructors) && !IsActive(r.2.locations) && !IsActive(r.2.classes)
    ensures r.2.aors == Some([]) && r.2 == Selections(Some([]), Some([]), Some([]), Some([]), Some([]), Some([]))
  {
    (StartPlaceholderDay, today, Selections(Some([]), Some([]), Some([]), Some([]), Some([]), Some([])))
  }

  /** `filter_data_query`: the two dates (defaulted) and each selection as a quoted list or "". */
  function FilterDataQuery(start: Option<int>, end: Option<int>, today: int, s: Selections): (st: Store)
    ensures st.dates == map["Day_From" := (if start.Some? then start.value else StartPlaceholderDay),
                            "Day_To" := (if end.Some? then end.value else today)]
    ensures st.text.Keys == {"AORs", "Offices", "Topics", "Instructors", "Locations", "Classes"}
  {
    Store(
      map["Day_From" := (if start.Some? then start.value else StartPlaceholderDay),
          "Day_To" := (if end.Some? then end.value else today)],
      map["AORs" := QuotedList(s.aors), "Offices" := QuotedList(s.offices), "Topics" := QuotedList(s.topics),
          "Instructors" := QuotedList(s.instructors), "Locations" := QuotedList(s.locations),
          "Classes" := QuotedList(s.classes)])
  }

  /** Each dropdown is written under its own key: its quoted list when active, "" otherwise. */
  lemma FilterDataQueryEntries(start: Option<int>, end: Option<int>, today: int, s: Selections)
    ensures var st := FilterDataQuery(start, end, today, s);
      st.text["AORs"] == QuotedList(s.aors) && st.text["Offices"] == QuotedList(s.offices) &&
      st.text["Topics"] == QuotedList(s.topics) && st.text["Instructors"] == QuotedList(s.instructors) &&
      st.text["Locations"] == QuotedList(s.locations) && st.text["Classes"] == QuotedList(s.classes)
  {
  }

  /** After clearing, the store holds the default range and no selection text. */
  lemma ClearedStore(today: int)
    ensures var c := ClearAllFilters(today);
      var st := FilterDataQuery(Some(c.0), Some(c.1), today, c.2);
      st.dates["Day_From"] == StartPlaceholderDay && st.dates["Day_To"] == today &&
      forall k :: k in st.text ==> st.text[k] == ""
  {
  }
}
