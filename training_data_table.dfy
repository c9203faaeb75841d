/**
 * The Training data-table panel: the filter it applies to its five base
 * tables (member engagement, class attendance, instructor performance,
 * office participation and the AOR/office map), the four reports it builds
 * by keeping and renaming the columns that exist, the table it shows, and
 * the CSV, Excel and PDF exports of the same report.
 */
module TrainingDataTable {
  import opened Common
  import opened Frames
  import opened TrainingData

  /** The result of the five base queries; a query that returned nothing is an empty frame. */
  datatype Base = Base(members: Frame, attendance: Frame, instructors: Frame, offices: Frame, aorOffices: Frame)

  /** The frames after filtering, by the key the report reads them under. */
  datatype Filtered = Filtered(members: Frame, attendance: Frame, instructors: Frame, offices: Frame)

  /** The three selections the table reads from the store. */
  datatype Tokens = Tokens(aors: seq<string>, offices: seq<string>, instructors: seq<string>)

  /** Each list split on "," and read by the reader, empty pieces dropped. */
  function TokensOf(st: Store, r: ListReader): Tokens
  {
    Tokens(ReadTokens(r, TextOr(st, "AORs")), ReadTokens(r, TextOr(st, "Offices")), ReadTokens(r, TextOr(st, "Instructors")))
  }

  /** The text of a row's cell, the value `isin` compares; a non-text or missing cell matches no token. */
  function TextAt(columns: seq<string>, row: seq<Cell>, c: string): Option<string>
  {
    TextOf(Get(columns, row, c))
  }

  // ---------------------------------------------------------------------
  // Offices mapped to AORs

  /** One mapping row, when its office code is among the selected offices. */
  function OfficeSelected(columns: seq<string>, offices: seq<string>): seq<Cell> -> bool
  {
    (row: seq<Cell>) => Listed(offices, TextAt(columns, row, "OfficeCode"))
  }

  function AorOfRow(columns: seq<string>): seq<Cell> -> Option<string>
  {
    (row: seq<Cell>) => TextAt(columns, row, "AorShortName")
  }

  /**
   * `aor_offices.loc[OfficeCode.isin(offices), 'AorShortName'].unique()`,
   * computed only when offices are selected and the map is not empty. A null
   * AOR is kept as a value of its own, as `unique` keeps it.
   */
  function OfficeAors(map_: Frame, offices: seq<string>): (r: seq<Option<string>>)
    ensures NoDuplicates(r)
    ensures |offices| == 0 || IsEmpty(map_) ==> r == []
  {
    if |offices| == 0 || IsEmpty(map_) then []
    else Distinct(Map(Filter(map_.rows, OfficeSelected(map_.columns, offices)), AorOfRow(map_.columns)))
  }

  /** An AOR is derived exactly when some mapping row of a selected office carries it. */
  lemma OfficeAorsSpec(map_: Frame, offices: seq<string>, a: Option<string>)
    requires |offices| > 0 && !IsEmpty(map_)
    ensures a in OfficeAors(map_, offices) <==>
      exists row :: row in map_.rows && TextAt(map_.columns, row, "OfficeCode").Some? &&
        TextAt(map_.columns, row, "OfficeCode").value in offices && TextAt(map_.columns, row, "AorShortName") == a
  {
    MapFilterMember(map_.rows, OfficeSelected(map_.columns, offices), AorOfRow(map_.columns), a);
  }

  /** `isin(office_aors)` once the list is non-empty: values compare as they are, a null with a null. */
  predicate Among(values: seq<Option<string>>, cell: Option<string>)
  {
    |values| == 0 || cell in values
  }

  // ---------------------------------------------------------------------
  // The row tests

  function ListedAt(columns: seq<string>, c: string, tokens: seq<string>): seq<Cell> -> bool
  {
    (row: seq<Cell>) => Listed(tokens, TextAt(columns, row, c))
  }

  function AmongAt(columns: seq<string>, c: string, values: seq<Option<string>>): seq<Cell> -> bool
  {
    (row: seq<Cell>) => Among(values, TextAt(columns, row, c))
  }

  /** A member row passes the AOR list, the AORs of the selected offices, and the office list. */
  predicate MemberKept(columns: seq<string>, t: Tokens, officeAors: seq<Option<string>>, row: seq<Cell>)
  {
    Listed(t.aors, TextAt(columns, row, "AorShortName"))
    && Among(officeAors, TextAt(columns, row, "AorShortName"))
    && Listed(t.offices, TextAt(columns, row, "OfficeCode"))
  }

  function MemberTest(columns: seq<string>, t: Tokens, officeAors: seq<Option<string>>): seq<Cell> -> bool
  {
    (row: seq<Cell>) => MemberKept(columns, t, officeAors, row)
  }

  /** The member table: unchanged when empty, else narrowed by AOR, office-derived AOR, then office code. */
  function FilterMembers(f: Frame, t: Tokens, officeAors: seq<Option<string>>): Frame
  {
    if IsEmpty(f) then f
    else
      var byAor := Filter(f.rows, ListedAt(f.columns, "AorShortName", t.aors));
      var byOfficeAor := Filter(byAor, AmongAt(f.columns, "AorShortName", officeAors));
      Frame(f.columns, Filter(byOfficeAor, ListedAt(f.columns, "OfficeCode", t.offices)))
  }

  /** The three narrowing steps keep, in order, exactly the rows that pass all three tests. */
  lemma FilterMembersSpec(f: Frame, t: Tokens, officeAors: seq<Option<string>>)
    ensures FilterMembers(f, t, officeAors).columns == f.columns
    ensures !IsEmpty(f) ==> FilterMembers(f, t, officeAors).rows == Filter(f.rows, MemberTest(f.columns, t, officeAors))
  {
    if !IsEmpty(f) {
      var p := ListedAt(f.columns, "AorShortName", t.aors);
      var q := AmongAt(f.columns, "AorShortName", officeAors);
      var o := ListedAt(f.columns, "OfficeCode", t.offices);
      var pq := (row: seq<Cell>) => p(row) && q(row);
      FilterThen(f.rows, p, q, pq);
      FilterThen(f.rows, pq, o, MemberTest(f.columns, t, officeAors));
    }
  }

  /** The parsed StartTime of an attendance row: a text cell through `parse_custom_datetime`, anything else missing. */
  function StartOf(columns: seq<string>, row: seq<Cell>, coerce: string -> Option<DateTime>): Option<DateTime>
  {
    var c := Get(columns, row, "StartTime");
    if c.Text? then ParseCustomDatetime(Some(c.text), coerce) else None
  }

  function HasStart(columns: seq<string>, coerce: string -> Option<DateTime>): seq<Cell> -> bool
  {
    (row: seq<Cell>) => StartOf(columns, row, coerce).Some?
  }

  function StartsWithin(columns: seq<string>, coerce: string -> Option<DateTime>, w: (int, int)): seq<Cell> -> bool
  {
    (row: seq<Cell>) => StartOf(columns, row, coerce).Some? && InWindow(StartOf(columns, row, coerce).value, w)
  }

  /** `dropna(subset=['ParsedStartTime'])`, then the date window when both bounds are stored. */
  function Dated(columns: seq<string>, rows: seq<seq<Cell>>, window: Option<(int, int)>,
                 coerce: string -> Option<DateTime>): seq<seq<Cell>>
  {
    var parsed := Filter(rows, HasStart(columns, coerce));
    if window.Some? then Filter(parsed, StartsWithin(columns, coerce, window.value)) else parsed
  }

  /** An attendance row passes the AOR list, the AORs of the selected offices, and the instructor list. */
  predicate AttendanceListed(columns: seq<string>, t: Tokens, officeAors: seq<Option<string>>, row: seq<Cell>)
  {
    Listed(t.aors, TextAt(columns, row, "AorShortName"))
    && Among(officeAors, TextAt(columns, row, "AorShortName"))
    && Listed(t.instructors, TextAt(columns, row, "InstructorName"))
  }

  /** With a StartTime column, the row's start time is also parsed and, when a window is stored, inside it. */
  predicate AttendanceKept(columns: seq<string>, t: Tokens, officeAors: seq<Option<string>>, window: Option<(int, int)>,
                           coerce: string -> Option<DateTime>, row: seq<Cell>)
  {
    ("StartTime" in columns ==>
       StartOf(columns, row, coerce).Some? && (window.Some? ==> InWindow(StartOf(columns, row, coerce).value, window.value)))
    && AttendanceListed(columns, t, officeAors, row)
  }

  function ListedTest(columns: seq<string>, t: Tokens, officeAors: seq<Option<string>>): seq<Cell> -> bool
  {
    (row: seq<Cell>) => AttendanceListed(columns, t, officeAors, row)
  }

  function AttendanceTest(columns: seq<string>, t: Tokens, officeAors: seq<Option<string>>, window: Option<(int, int)>,
                          coerce: string -> Option<DateTime>): seq<Cell> -> bool
  {
    (row: seq<Cell>) => AttendanceKept(columns, t, officeAors, window, coerce, row)
  }

  /** The attendance table: unchanged when empty; else dated when it has a StartTime column, then narrowed by AOR, office-derived AOR and instructor. */
  function FilterAttendance(f: Frame, t: Tokens, officeAors: seq<Option<string>>, window: Option<(int, int)>,
                            coerce: string -> Option<DateTime>): Frame
  {
    if IsEmpty(f) then f
    else
      var rows := if "StartTime" in f.columns then Dated(f.columns, f.rows, window, coerce) else f.rows;
      var byAor := Filter(rows, ListedAt(f.columns, "AorShortName", t.aors));
      var byOfficeAor := Filter(byAor, AmongAt(f.columns, "AorShortName", officeAors));
      Frame(f.columns, Filter(byOfficeAor, ListedAt(f.columns, "InstructorName", t.instructors)))
  }

  /** The three list steps are one filter by their conjunction. */
  lemma ListSteps(columns: seq<string>, rows: seq<seq<Cell>>, t: Tokens, officeAors: seq<Option<string>>)
    ensures Filter(Filter(Filter(rows, ListedAt(columns, "AorShortName", t.aors)), AmongAt(columns, "AorShortName", officeAors)),
                   ListedAt(columns, "InstructorName", t.instructors)) == Filter(rows, ListedTest(columns, t, officeAors))
  {
    var p := ListedAt(columns, "AorShortName", t.aors);
    var q := AmongAt(columns, "AorShortName", officeAors);
    var o := ListedAt(columns, "InstructorName", t.instructors);
    var pq := (row: seq<Cell>) => p(row) && q(row);
    FilterThen(rows, p, q, pq);
    FilterThen(rows, pq, o, ListedTest(columns, t, officeAors));
  }

  /** Dropping unparsable start times and then applying the window is one filter. */
  lemma DatedSpec(columns: seq<string>, rows: seq<seq<Cell>>, window: Option<(int, int)>, coerce: string -> Option<DateTime>)
    ensures Dated(columns, rows, window, coerce) ==
      Filter(rows, (row: seq<Cell>) => StartOf(columns, row, coerce).Some? &&
                                       (window.Some? ==> InWindow(StartOf(columns, row, coerce).value, window.value)))
  {
    var dated := (row: seq<Cell>) => StartOf(columns, row, coerce).Some? &&
                                     (window.Some? ==> InWindow(StartOf(columns, row, coerce).value, window.value));
    if window.Some? {
      FilterThen(rows, HasStart(columns, coerce), StartsWithin(columns, coerce, window.value), dated);
    } else {
      FilterExt(rows, HasStart(columns, coerce), dated);
    }
  }

  /**
   * The attendance steps keep, in order, exactly the rows whose start time
   * parses and lies in the stored window (when the frame has StartTime) and
   * that pass the three lists.
   */
  lemma FilterAttendanceSpec(f: Frame, t: Tokens, officeAors: seq<Option<string>>, window: Option<(int, int)>,
                             coerce: string -> Option<DateTime>)
    ensures FilterAttendance(f, t, officeAors, window, coerce).columns == f.columns
    ensures !IsEmpty(f) ==>
      FilterAttendance(f, t, officeAors, window, coerce).rows == Filter(f.rows, AttendanceTest(f.columns, t, officeAors, window, coerce))
  {
    if !IsEmpty(f) {
      var rows := if "StartTime" in f.columns then Dated(f.columns, f.rows, window, coerce) else f.rows;
      ListSteps(f.columns, rows, t, officeAors);
      var listed := ListedTest(f.columns, t, officeAors);
      var kept := AttendanceTest(f.columns, t, officeAors, window, coerce);
      if "StartTime" in f.columns {
        var dated := (row: seq<Cell>) => StartOf(f.columns, row, coerce).Some? &&
                                         (window.Some? ==> InWindow(StartOf(f.columns, row, coerce).value, window.value));
        DatedSpec(f.columns, f.rows, window, coerce);
        FilterThen(f.rows, dated, listed, kept);
      } else {
        FilterExt(f.rows, listed, kept);
      }
    }
  }

  /** The office-participation table: unchanged when empty, else narrowed by AOR and office-derived AOR. */
  function FilterOffices(f: Frame, t: Tokens, officeAors: seq<Option<string>>): (r: Frame)
    ensures r.columns == f.columns
    ensures IsEmpty(f) ==> r == f
    ensures forall row :: row in r.rows <==>
      row in f.rows && (!IsEmpty(f) ==> Listed(t.aors, TextAt(f.columns, row, "AorShortName")) &&
                                        Among(officeAors, TextAt(f.columns, row, "AorShortName")))
  {
    if IsEmpty(f) then f
    else
      var byAor := Filter(f.rows, ListedAt(f.columns, "AorShortName", t.aors));
      Frame(f.columns, Filter(byAor, AmongAt(f.columns, "AorShortName", officeAors)))
  }

  /**
   * `apply_data_table_filters`: the store's lists and window applied to the
   * member, attendance and office tables; the instructor table is passed on
   * unfiltered.
   */
  function ApplyFilters(b: Base, stored: Option<Store>, r: ListReader, coerce: string -> Option<DateTime>): Filtered
  {
    var st := StoreOrEmpty(stored);
    var t := TokensOf(st, r);
    var officeAors := OfficeAors(b.aorOffices, t.offices);
    Filtered(FilterMembers(b.members, t, officeAors),
             FilterAttendance(b.attendance, t, officeAors, StoredWindow(st), coerce),
             b.instructors,
             FilterOffices(b.offices, t, officeAors))
  }

  /**
   * Every filtered table keeps its header; each is the rows of its base table
   * that pass its tests, in order; the instructor table is never narrowed.
   */
  lemma ApplyFiltersSpec(b: Base, stored: Option<Store>, r: ListReader, coerce: string -> Option<DateTime>)
    ensures var st := StoreOrEmpty(stored);
      var t := TokensOf(st, r);
      var oa := OfficeAors(b.aorOffices, t.offices);
      var v := ApplyFilters(b, stored, r, coerce);
      v.instructors == b.instructors &&
      v.members.columns == b.members.columns && v.attendance.columns == b.attendance.columns &&
      (!IsEmpty(b.members) ==> v.members.rows == Filter(b.members.rows, MemberTest(b.members.columns, t, oa))) &&
      (!IsEmpty(b.attendance) ==>
         v.attendance.rows == Filter(b.attendance.rows, AttendanceTest(b.attendance.columns, t, oa, StoredWindow(st), coerce)))
  {
    var st := StoreOrEmpty(stored);
    var t := TokensOf(st, r);
    var oa := OfficeAors(b.aorOffices, t.offices);
    FilterMembersSpec(b.members, t, oa);
    FilterAttendanceSpec(b.attendance, t, oa, StoredWindow(st), coerce);
  }

  /** No lists and no derived AORs leave the member table whole. */
  lemma MembersWithoutLists(f: Frame)
    ensures FilterMembers(f, Tokens([], [], []), []) == f
  {
    FilterMembersSpec(f, Tokens([], [], []), []);
    if !IsEmpty(f) {
      FilterAll(f.rows, MemberTest(f.columns, Tokens([], [], []), []));
    }
  }

  /** No lists and no derived AORs leave the office table whole. */
  lemma OfficesWithoutLists(f: Frame)
    ensures FilterOffices(f, Tokens([], [], []), []) == f
  {
    if !IsEmpty(f) {
      FilterAll(f.rows, ListedAt(f.columns, "AorShortName", []));
      FilterAll(f.rows, AmongAt(f.columns, "AorShortName", []));
    }
  }

  /** With no lists in the store, the member and office tables come through whole. */
  lemma NoListsKeepMembers(b: Base, stored: Option<Store>, r: ListReader, coerce: string -> Option<DateTime>)
    requires TokensOf(StoreOrEmpty(stored), r) == Tokens([], [], [])
    ensures ApplyFilters(b, stored, r, coerce).members == b.members
    ensures ApplyFilters(b, stored, r, coerce).offices == b.offices
  {
    assert OfficeAors(b.aorOffices, []) == [];
    MembersWithoutLists(b.members);
    OfficesWithoutLists(b.offices);
  }

  /** A missing store and an empty one filter alike, and "" reads as no tokens. */
  lemma MissingStoreReadsEmpty(r: ListReader)
    ensures TokensOf(StoreOrEmpty(None), r) == Tokens([], [], [])
    ensures StoredWindow(StoreOrEmpty(None)).None?
  {
    assert TextOr(NoStore, "AORs") == "" && TextOr(NoStore, "Offices") == "" && TextOr(NoStore, "Instructors") == "";
    EmptyTextNoTokens();
  }

  /**
   * A kept attendance row with a StartTime column parsed to a time inside
   * the stored window: between the two stored days, and at midnight if on
   * the last one.
   */
  lemma KeptSessionsInWindow(b: Base, stored: Option<Store>, r: ListReader, coerce: string -> Option<DateTime>, row: seq<Cell>)
    requires !IsEmpty(b.attendance) && "StartTime" in b.attendance.columns
    requires StoredWindow(StoreOrEmpty(stored)).Some?
    requires row in ApplyFilters(b, stored, r, coerce).attendance.rows
    ensures var t := StartOf(b.attendance.columns, row, coerce);
      var w := StoredWindow(StoreOrEmpty(stored)).value;
      t.Some? && (ValidTime(t.value) ==>
        w.0 <= CivilDay(t.value) <= w.1 && (CivilDay(t.value) == w.1 ==> SecondOfDay(t.value) == 0))
  {
    ApplyFiltersSpec(b, stored, r, coerce);
    var t := StartOf(b.attendance.columns, row, coerce);
    if t.Some? && ValidTime(t.value) {
      InWindowDays(t.value, StoredWindow(StoreOrEmpty(stored)).value);
    }
  }

  // ---------------------------------------------------------------------
  // Reports (`prepare_data_table_report`)

  datatype ReportKind = MemberSummary | ClassDetails | InstructorDetails | OfficeSummary

  function KindOf(reportType: string): Option<ReportKind>
  {
    if reportType == "member_summary" then Some(MemberSummary)
    else if reportType == "class_details" then Some(ClassDetails)
    else if reportType == "instructor_details" then Some(InstructorDetails)
    else if reportType == "office_summary" then Some(OfficeSummary)
    else None
  }

  /** The table each report reads. */
  function SourceOf(f: Filtered, k: ReportKind): Frame
  {
    match k
    case MemberSummary => f.members
    case ClassDetails => f.attendance
    case InstructorDetails => f.instructors
    case OfficeSummary => f.offices
  }

  /** The required columns of each report, in order, each with its display name. */
  function Columns(k: ReportKind): seq<(string, string)>
  {
    match k
    case MemberSummary =>
      [("MemberName", "Member Name"), ("OfficeCode", "Office"), ("AorShortName", "AOR"), ("MemberType", "Member Type"),
       ("TotalSessionsRegistered", "Registered"), ("TotalSessionsAttended", "Attended"), ("MissedSessions", "Missed"),
       ("AttendanceRate", "Attendance %"), ("LastRegisteredOn", "Last Registration")]
    case ClassDetails =>
      [("ClassName", "Class Name"), ("StartTime", "Start Time"), ("PresentationType", "Type"), ("AorShortName", "AOR"),
       ("LocationName", "Location"), ("InstructorName", "Instructor"), ("MemberName", "Member Name"),
       ("WasPresent", "Attended"), ("RegisteredOn", "Registered On"), ("AttendeeEmail", "Email")]
    case InstructorDetails =>
      [("InstructorName", "Instructor Name"), ("Role", "Role"), ("Title", "Title"), ("InstructorEmail", "Email"),
       ("Phone", "Phone"), ("TotalSessions", "Total Sessions"), ("TotalAttendeesPresent", "Total Attendees"),
       ("UniqueAttendees", "Unique Attendees"), ("AverageAttendanceRate", "Avg Attendance %"),
       ("LastSessionCreatedOn", "Last Session Created"), ("InstructorStatus", "Status")]
    case OfficeSummary =>
      [("AorShortName", "AOR"), ("MemberOffice", "Office"), ("ClassesOffered", "Classes Offered"),
       ("TotalMembersAttended", "Members Attended"), ("TotalAttendances", "Total Attendances"),
       ("UniqueInstructors", "Instructors"), ("UniqueLocations", "Locations"), ("AvgMembersPerClass", "Avg Members/Class")]
  }

  /** The instructor rename mapping, which also names four columns the report never requires. */
  const InstructorNames: map<string, string> := map[
    "InstructorName" := "Instructor Name", "Role" := "Role", "Title" := "Title", "InstructorEmail" := "Email",
    "Phone" := "Phone", "InstructorStatus" := "Status", "TotalSessions" := "Total Sessions",
    "TotalAttendeesPresent" := "Total Attendees", "UniqueAttendees" := "Unique Attendees",
    "AverageAttendanceRate" := "Avg Attendance %", "LastSessionCreatedOn" := "Last Session Created",
    "LastSessionModifiedOn" := "Last Session Modified", "Color" := "Color", "PhotoURL" := "Photo URL",
    "SurveyURL" := "Survey URL"]

  /** A fallback column renamed when the mapping names it, else kept as is. */
  function FallbackPair(c: string): (string, string)
  {
    (c, if c in InstructorNames then InstructorNames[c] else c)
  }

  /** `available_columns[:10]`, each renamed through the instructor mapping. */
  function Fallback(columns: seq<string>): (r: seq<(string, string)>)
    ensures |r| == |Head(columns, 10)|
  {
    Map(Head(columns, 10), FallbackPair)
  }

  /** One report from its source table: empty source or no usable column gives an empty frame. */
  function ReportFrom(k: ReportKind, df: Frame): Frame
  {
    if IsEmpty(df) then EmptyFrame
    else
      var kept := Present(Columns(k), df.columns);
      if |kept| > 0 then Project(df, kept)
      else if k == InstructorDetails then Project(df, Fallback(df.columns))
      else EmptyFrame
  }

  /** `prepare_data_table_report`: an unknown report type gives an empty frame. */
  function PrepareReport(f: Filtered, reportType: string): Frame
  {
    match KindOf(reportType)
    case None => EmptyFrame
    case Some(k) => ReportFrom(k, SourceOf(f, k))
  }

  /** Some required column exists in the frame. */
  predicate HasRequired(k: ReportKind, columns: seq<string>)
  {
    exists p :: p in Columns(k) && p.0 in columns
  }

  lemma PresentNonEmpty(k: ReportKind, columns: seq<string>)
    ensures |Present(Columns(k), columns)| > 0 <==> HasRequired(k, columns)
  {
    var kept := Present(Columns(k), columns);
    if HasRequired(k, columns) {
      var p :| p in Columns(k) && p.0 in columns;
      assert p in kept;
    }
    if |kept| > 0 {
      assert kept[0] in kept;
    }
  }

  /**
   * A report is non-empty exactly when its source table is non-empty and
   * has a required column; the instructor report needs only a non-empty
   * source.
   */
  lemma ReportEmptyIff(k: ReportKind, df: Frame)
    ensures !IsEmpty(ReportFrom(k, df)) <==>
      !IsEmpty(df) && (HasRequired(k, df.columns) || k == InstructorDetails)
  {
    if !IsEmpty(df) {
      PresentNonEmpty(k, df.columns);
      var kept := Present(Columns(k), df.columns);
      if |kept| == 0 && k == InstructorDetails {
        assert |Head(df.columns, 10)| > 0;
      }
    }
  }

  /**
   * A report from a source with required columns: one row per source row,
   * the present required columns in report order under their display names,
   * each carrying its source column's cells.
   */
  lemma ReportColumns(k: ReportKind, df: Frame)
    requires !IsEmpty(df) && HasRequired(k, df.columns)
    ensures var r := ReportFrom(k, df);
      var kept := Present(Columns(k), df.columns);
      |r.rows| == |df.rows| && WellFormed(r) && r.columns == Map(kept, NewName) &&
      (forall p :: p in Columns(k) && p.0 in df.columns ==> p.1 in r.columns) &&
      (forall i, j :: 0 <= i < |r.rows| && 0 <= j < |kept| ==> r.rows[i][j] == Get(df.columns, df.rows[i], kept[j].0))
  {
    PresentNonEmpty(k, df.columns);
    SelectRenameSpec(df, Columns(k));
  }

  /**
   * An instructor table with none of the required columns: its first ten
   * columns (all of them if fewer), renamed where the mapping names them,
   * one row per source row.
   */
  lemma InstructorFallback(df: Frame)
    requires !IsEmpty(df) && !HasRequired(InstructorDetails, df.columns)
    ensures var r := ReportFrom(InstructorDetails, df);
      |r.columns| == (if |df.columns| < 10 then |df.columns| else 10) && |r.rows| == |df.rows| &&
      forall j :: 0 <= j < |r.columns| ==>
        r.columns[j] == (if df.columns[j] in InstructorNames then InstructorNames[df.columns[j]] else df.columns[j]) &&
        forall i :: 0 <= i < |r.rows| ==> r.rows[i][j] == Get(df.columns, df.rows[i], df.columns[j])
  {
    PresentNonEmpty(InstructorDetails, df.columns);
    var kept := Fallback(df.columns);
    assert forall j :: 0 <= j < |kept| ==> kept[j] == FallbackPair(df.columns[j]);
  }

  /** An unknown report type, or a known one whose source is empty, gives the empty frame. */
  lemma PrepareReportEdges(f: Filtered, reportType: string)
    ensures KindOf(reportType).None? ==> PrepareReport(f, reportType) == EmptyFrame
    ensures KindOf(reportType).Some? && IsEmpty(SourceOf(f, KindOf(reportType).value)) ==> PrepareReport(f, reportType) == EmptyFrame
  {
  }

  // ---------------------------------------------------------------------
  // The table and the exports

  /** The report every output of the panel is built from; the store is read with the quote-only reader, as written. */
  function ReportOf(b: Base, stored: Option<Store>, reportType: string, coerce: string -> Option<DateTime>): Frame
  {
    PrepareReport(ApplyFilters(b, stored, QuoteOnly, coerce), reportType)
  }

  /** How the table formats a column: one decimal, thousands separators, or as text. */
  datatype ColumnFormat = OneDecimal | Thousands | AsText

  const DecimalColumns: set<string> := {"Attendance %", "Avg Attendance %", "Avg Members/Class"}
  const CountColumns: set<string> := {"Registered", "Attended", "Missed", "Total Sessions", "Total Attendees",
    "Unique Attendees", "Classes Offered", "Members Attended", "Total Attendances", "Instructors", "Locations"}

  function FormatOf(name: string): (r: ColumnFormat)
    ensures r == OneDecimal <==> name in DecimalColumns
    ensures r == Thousands <==> name !in DecimalColumns && name in CountColumns
  {
    if name in DecimalColumns then OneDecimal else if name in CountColumns then Thousands else AsText
  }

  datatype TableView =
    | NoTableData                       // "No data available for the selected filters and report type."
    | TableShown(columns: seq<string>, formats: seq<ColumnFormat>, rows: seq<seq<Cell>>, pageSize: int, records: nat)

  /** `update_training_data_table`: the message for an empty report, else the report paged by `pageSize`. */
  function UpdateTable(b: Base, stored: Option<Store>, reportType: string, pageSize: int,
                       coerce: string -> Option<DateTime>): (v: TableView)
    ensures v.TableShown? ==> |v.formats| == |v.columns| && v.records == |v.rows| > 0
    ensures v.TableShown? ==> forall j :: 0 <= j < |v.columns| ==> v.formats[j] == FormatOf(v.columns[j])
  {
    var r := ReportOf(b, stored, reportType, coerce);
    if IsEmpty(r) then NoTableData
    else TableShown(r.columns, Map(r.columns, FormatOf), r.rows, pageSize, |r.rows|)
  }

  /** The table appears exactly when the report has rows and columns, and shows that report. */
  lemma UpdateTableShowsReport(b: Base, stored: Option<Store>, reportType: string, pageSize: int,
                               coerce: string -> Option<DateTime>)
    ensures var r := ReportOf(b, stored, reportType, coerce);
      var v := UpdateTable(b, stored, reportType, pageSize, coerce);
      (v == NoTableData <==> IsEmpty(r)) && (v.TableShown? ==> v.columns == r.columns && v.rows == r.rows)
    ensures KindOf(reportType).None? ==> UpdateTable(b, stored, reportType, pageSize, coerce) == NoTableData
  {
  }

  /** A file handed to the browser. */
  datatype Download = Download(filename: string, report: Frame)

  /** "training_<type>_<stamp><ext>". */
  function ExportName(reportType: string, stamp: string, ext: string): string
  {
    "training_" + reportType + "_" + stamp + ext
  }

  /** `export_csv` and `export_excel`: no update without a click or for an empty report, else the report under its file name. */
  function Export(clicks: Option<int>, b: Base, stored: Option<Store>, reportType: string, stamp: string, ext: string,
                  coerce: string -> Option<DateTime>): (d: Option<Download>)
    ensures clicks.None? || clicks == Some(0) ==> d.None?
    ensures d.Some? ==> !IsEmpty(d.value.report) && d.value.filename == ExportName(reportType, stamp, ext)
  {
    if clicks.None? || clicks.value == 0 then None
    else
      var r := ReportOf(b, stored, reportType, coerce);
      if IsEmpty(r) then None else Some(Download(ExportName(reportType, stamp, ext), r))
  }

  /** An export carries exactly the report the table shows. */
  lemma ExportMatchesTable(clicks: int, b: Base, stored: Option<Store>, reportType: string, stamp: string, ext: string,
                           pageSize: int, coerce: string -> Option<DateTime>)
    requires clicks != 0
    ensures var d := Export(Some(clicks), b, stored, reportType, stamp, ext, coerce);
      var v := UpdateTable(b, stored, reportType, pageSize, coerce);
      (d.None? <==> v == NoTableData) && (d.Some? ==> d.value.report.columns == v.columns && d.value.report.rows == v.rows)
  {
    var r := ReportOf(b, stored, reportType, coerce);
    assert Export(Some(clicks), b, stored, reportType, stamp, ext, coerce) ==
      (if IsEmpty(r) then None else Some(Download(ExportName(reportType, stamp, ext), r)));
    assert UpdateTable(b, stored, reportType, pageSize, coerce) ==
      (if IsEmpty(r) then NoTableData else TableShown(r.columns, Map(r.columns, FormatOf), r.rows, pageSize, |r.rows|));
  }

  const PdfRowLimit: nat := 100

  /** The PDF layout: orientation, the data rows printed, and whether the truncation footer is added. */
  datatype PdfLayout = PdfLayout(landscape: bool, rows: seq<seq<Cell>>, footer: bool)

  /** Landscape above six columns; at most the first hundred rows; the footer exactly when rows were left out. */
  function PdfLayoutOf(r: Frame): (l: PdfLayout)
    ensures l.landscape <==> |r.columns| > 6
    ensures |l.rows| <= PdfRowLimit && l.rows <= r.rows
    ensures l.footer <==> |l.rows| < |r.rows|
  {
    PdfLayout(|r.columns| > 6, Head(r.rows, PdfRowLimit), |r.rows| > PdfRowLimit)
  }
}
