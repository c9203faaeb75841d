/**
 * The Training "instructor performance" panel: the instructor, attendance
 * and class queries are narrowed by the filter store, one row per
 * instructor gets five figures (classes conducted, attendance rate, unique
 * students, average class size, sessions per month), the selected one
 * becomes the metric the rows are ranked by, and the top twenty are charted
 * beside three insights.
 */
module TrainingInstructorPerformance {
  import opened Common
  import opened TrainingData

  // ---------------------------------------------------------------------
  // The query results

  /** One `Fact_InstructorPerformance` row (active, not deleted); null cells are None. */
  datatype Instructor = Instructor(id: Option<string>, name: Option<string>, totalSessions: Option<real>,
                                   uniqueAttendees: Option<real>, averageAttendanceRate: Option<real>)

  /**
   * One `Fact_ClassAttendance` row. The query keeps rows with an instructor
   * id, an instructor name and a start time; ids are read as their text.
   */
  datatype Attendance = Attendance(classId: Option<string>, startTime: string, aor: Option<string>,
                                   locationId: Option<string>, instructorId: string, instructorName: string,
                                   memberId: Option<string>, wasPresent: Option<string>, email: Option<string>)

  /** One `Fact_TrainingClasses` row, with the same three cells guaranteed. */
  datatype TrainingClass = TrainingClass(classId: Option<string>, startTime: string, aor: Option<string>,
                                         instructorId: string, locationId: Option<string>)

  datatype Base = Base(instructors: seq<Instructor>, attendance: seq<Attendance>, classes: seq<TrainingClass>,
                       aorOffices: seq<AorOffice>)

  /** What the preparation reads back from the filters. */
  datatype Filtered = Filtered(instructors: seq<Instructor>, attendance: seq<Timed<Attendance>>,
                               classes: seq<Timed<TrainingClass>>)

  // ---------------------------------------------------------------------
  // Start times and the date window

  function AttendanceStart(a: Attendance): string
  {
    a.startTime
  }

  function ClassStart(c: TrainingClass): string
  {
    c.startTime
  }

  // ---------------------------------------------------------------------
  // The selections

  /** `AorShortName.isin(aors)`: a null AOR never matches. */
  function AttendanceAorIn(aors: seq<string>): Timed<Attendance> -> bool
  {
    (s: Timed<Attendance>) => s.row.aor.Some? && s.row.aor.value in aors
  }

  function ClassAorIn(aors: seq<string>): Timed<TrainingClass> -> bool
  {
    (s: Timed<TrainingClass>) => s.row.aor.Some? && s.row.aor.value in aors
  }

  /** `InstructorID.astype(str).isin(ids)`: a null id reads "nan". */
  function InstructorIdIn(ids: seq<string>): Instructor -> bool
  {
    (i: Instructor) => IdText(i.id) in ids
  }

  function AttendanceInstructorIn(ids: seq<string>): Timed<Attendance> -> bool
  {
    (s: Timed<Attendance>) => s.row.instructorId in ids
  }

  function ClassInstructorIn(ids: seq<string>): Timed<TrainingClass> -> bool
  {
    (s: Timed<TrainingClass>) => s.row.instructorId in ids
  }

  function AttendanceLocationIn(ids: seq<string>): Timed<Attendance> -> bool
  {
    (s: Timed<Attendance>) => IdText(s.row.locationId) in ids
  }

  function ClassLocationIn(ids: seq<string>): Timed<TrainingClass> -> bool
  {
    (s: Timed<TrainingClass>) => IdText(s.row.locationId) in ids
  }

  /** The AOR selection narrows attendance and classes; the instructor table has no AOR. */
  function AorStep(f: Filtered, aors: seq<string>): Filtered
  {
    if |aors| == 0 then f
    else f.(attendance := Filter(f.attendance, AttendanceAorIn(aors)), classes := Filter(f.classes, ClassAorIn(aors)))
  }

  /**
   * The AORs the office selection stands for: None, and the step skipped,
   * when no office is selected, the mapping is empty or no selected office
   * maps to an AOR.
   */
  function OfficeScope(aorOffices: seq<AorOffice>, offices: seq<string>): Option<seq<string>>
  {
    if |offices| > 0 && |aorOffices| > 0 && |OfficeAors(aorOffices, offices)| > 0 then Some(OfficeAors(aorOffices, offices))
    else None
  }

  function OfficeStep(f: Filtered, aorOffices: seq<AorOffice>, offices: seq<string>): Filtered
  {
    match OfficeScope(aorOffices, offices)
    case None => f
    case Some(aors) =>
      f.(attendance := Filter(f.attendance, AttendanceAorIn(aors)), classes := Filter(f.classes, ClassAorIn(aors)))
  }

  /** The instructor selection narrows all three tables, each compared as text. */
  function InstructorStep(f: Filtered, ids: seq<string>): Filtered
  {
    if |ids| == 0 then f
    else Filtered(Filter(f.instructors, InstructorIdIn(ids)), Filter(f.attendance, AttendanceInstructorIn(ids)),
                  Filter(f.classes, ClassInstructorIn(ids)))
  }

  function LocationStep(f: Filtered, ids: seq<string>): Filtered
  {
    if |ids| == 0 then f
    else f.(attendance := Filter(f.attendance, AttendanceLocationIn(ids)), classes := Filter(f.classes, ClassLocationIn(ids)))
  }

  // ---------------------------------------------------------------------
  // `apply_instructor_performance_filters`

  /** Both dated tables, before any selection. */
  function DatedBase(b: Base, window: Option<(int, int)>, coerce: string -> Option<DateTime>): Filtered
  {
    Filtered(b.instructors, Dated(b.attendance, AttendanceStart, window, coerce), Dated(b.classes, ClassStart, window, coerce))
  }

  /** The date window is read once and applied to attendance and classes alike. */
  function ApplyFilters(b: Base, stored: Option<Store>, r: ListReader, coerce: string -> Option<DateTime>): Filtered
  {
    var st := StoreOrEmpty(stored);
    FiltersWith(b, StoredWindow(st), PanelListsOf(st, r), coerce)
  }

  /** The filter chain for a given window and given selections: AOR, office, instructor, location. */
  function FiltersWith(b: Base, window: Option<(int, int)>, t: PanelLists, coerce: string -> Option<DateTime>): Filtered
  {
    var aorStep := AorStep(DatedBase(b, window, coerce), t.aors);
    LocationStep(InstructorStep(OfficeStep(aorStep, b.aorOffices, t.offices), t.instructors), t.locations)
  }

  /**
   * The filters as written read the stored days inside the attendance
   * block, so with no attendance rows at all and some class rows the class
   * block names a variable never assigned and the filter raises (None).
   */
  function ApplyFiltersAsWritten(b: Base, stored: Option<Store>, r: ListReader, coerce: string -> Option<DateTime>): Option<Filtered>
  {
    if |b.attendance| == 0 && |b.classes| > 0 then None else Some(ApplyFilters(b, stored, r, coerce))
  }

  /** What the AOR, office, instructor and location selections ask of a detailed row. */
  predicate Admitted(aor: Option<string>, instructor: string, location: string, t: PanelLists, scope: Option<seq<string>>)
  {
    (|t.aors| > 0 ==> aor.Some? && aor.value in t.aors)
    && (scope.Some? ==> aor.Some? && aor.value in scope.value)
    && (|t.instructors| > 0 ==> instructor in t.instructors)
    && (|t.locations| > 0 ==> location in t.locations)
  }

  /** Instructor rows are narrowed by the instructor selection alone, on the text of their id. */
  lemma InstructorsKept(b: Base, stored: Option<Store>, r: ListReader, coerce: string -> Option<DateTime>, i: Instructor)
    ensures var ids := PanelListsOf(StoreOrEmpty(stored), r).instructors;
      i in ApplyFilters(b, stored, r, coerce).instructors <==> i in b.instructors && (|ids| > 0 ==> IdText(i.id) in ids)
  {
    var st := StoreOrEmpty(stored);
    InstructorRowKept(b, StoredWindow(st), PanelListsOf(st, r), coerce, i);
  }

  lemma InstructorRowKept(b: Base, w: Option<(int, int)>, t: PanelLists, coerce: string -> Option<DateTime>, i: Instructor)
    ensures i in FiltersWith(b, w, t, coerce).instructors <==> i in b.instructors && (|t.instructors| > 0 ==> IdText(i.id) in t.instructors)
  {
    var f2 := OfficeStep(AorStep(DatedBase(b, w, coerce), t.aors), b.aorOffices, t.offices);
    assert f2.instructors == b.instructors;
    assert FiltersWith(b, w, t, coerce).instructors == InstructorStep(f2, t.instructors).instructors;
  }

  /**
   * An attendance row is kept exactly when it comes from the query, its start
   * time parses, lies in the stored window, and the row meets every selection.
   */
  lemma AttendanceKept(b: Base, stored: Option<Store>, r: ListReader, coerce: string -> Option<DateTime>, s: Timed<Attendance>)
    ensures var st := StoreOrEmpty(stored); var t := PanelListsOf(st, r); var w := StoredWindow(st);
      s in ApplyFilters(b, stored, r, coerce).attendance <==>
        s.row in b.attendance && ParseCustomDatetime(Some(s.row.startTime), coerce) == Some(s.start)
        && (w.Some? ==> InWindow(s.start, w.value))
        && Admitted(s.row.aor, s.row.instructorId, IdText(s.row.locationId), t, OfficeScope(b.aorOffices, t.offices))
  {
    var st := StoreOrEmpty(stored);
    AttendanceRowKept(b, StoredWindow(st), PanelListsOf(st, r), coerce, s);
  }

  lemma AttendanceRowKept(b: Base, w: Option<(int, int)>, t: PanelLists, coerce: string -> Option<DateTime>, s: Timed<Attendance>)
    ensures s in FiltersWith(b, w, t, coerce).attendance <==>
        s.row in b.attendance && ParseCustomDatetime(Some(s.row.startTime), coerce) == Some(s.start)
        && (w.Some? ==> InWindow(s.start, w.value))
        && Admitted(s.row.aor, s.row.instructorId, IdText(s.row.locationId), t, OfficeScope(b.aorOffices, t.offices))
  {
    var f0 := DatedBase(b, w, coerce);
    var f1 := AorStep(f0, t.aors);
    var f2 := OfficeStep(f1, b.aorOffices, t.offices);
    var f3 := InstructorStep(f2, t.instructors);
    var f4 := LocationStep(f3, t.locations);
    assert s in f0.attendance <==> (s.row in b.attendance && ParseCustomDatetime(Some(s.row.startTime), coerce) == Some(s.start)
      && (w.Some? ==> InWindow(s.start, w.value)));
    assert s in f1.attendance <==> s in f0.attendance && (|t.aors| > 0 ==> s.row.aor.Some? && s.row.aor.value in t.aors);
    var scope := OfficeScope(b.aorOffices, t.offices);
    assert s in f2.attendance <==> s in f1.attendance && (scope.Some? ==> s.row.aor.Some? && s.row.aor.value in scope.value);
    assert s in f3.attendance <==> s in f2.attendance && (|t.instructors| > 0 ==> s.row.instructorId in t.instructors);
    assert s in f4.attendance <==> s in f3.attendance && (|t.locations| > 0 ==> IdText(s.row.locationId) in t.locations);
  }

  /** The same holds for class rows: they are narrowed exactly as attendance rows are. */
  lemma ClassesKept(b: Base, stored: Option<Store>, r: ListReader, coerce: string -> Option<DateTime>, s: Timed<TrainingClass>)
    ensures var st := StoreOrEmpty(stored); var t := PanelListsOf(st, r); var w := StoredWindow(st);
      s in ApplyFilters(b, stored, r, coerce).classes <==>
        s.row in b.classes && ParseCustomDatetime(Some(s.row.startTime), coerce) == Some(s.start)
        && (w.Some? ==> InWindow(s.start, w.value))
        && Admitted(s.row.aor, s.row.instructorId, IdText(s.row.locationId), t, OfficeScope(b.aorOffices, t.offices))
  {
    var st := StoreOrEmpty(stored);
    ClassRowKept(b, StoredWindow(st), PanelListsOf(st, r), coerce, s);
  }

  lemma ClassRowKept(b: Base, w: Option<(int, int)>, t: PanelLists, coerce: string -> Option<DateTime>, s: Timed<TrainingClass>)
    ensures s in FiltersWith(b, w, t, coerce).classes <==>
        s.row in b.classes && ParseCustomDatetime(Some(s.row.startTime), coerce) == Some(s.start)
        && (w.Some? ==> InWindow(s.start, w.value))
        && Admitted(s.row.aor, s.row.instructorId, IdText(s.row.locationId), t, OfficeScope(b.aorOffices, t.offices))
  {
    var f0 := DatedBase(b, w, coerce);
    var f1 := AorStep(f0, t.aors);
    var f2 := OfficeStep(f1, b.aorOffices, t.offices);
    var f3 := InstructorStep(f2, t.instructors);
    var f4 := LocationStep(f3, t.locations);
    assert s in f0.classes <==> (s.row in b.classes && ParseCustomDatetime(Some(s.row.startTime), coerce) == Some(s.start)
      && (w.Some? ==> InWindow(s.start, w.value)));
    assert s in f1.classes <==> s in f0.classes && (|t.aors| > 0 ==> s.row.aor.Some? && s.row.aor.value in t.aors);
    var scope := OfficeScope(b.aorOffices, t.offices);
    assert s in f2.classes <==> s in f1.classes && (scope.Some? ==> s.row.aor.Some? && s.row.aor.value in scope.value);
    assert s in f3.classes <==> s in f2.classes && (|t.instructors| > 0 ==> s.row.instructorId in t.instructors);
    assert s in f4.classes <==> s in f3.classes && (|t.locations| > 0 ==> IdText(s.row.locationId) in t.locations);
  }

  /**
   * When the selected offices map to no AOR the office selection has no
   * effect: the result is the one for the same store with no offices.
   */
  lemma UnmappedOfficesIgnored(b: Base, st: Store, r: ListReader, coerce: string -> Option<DateTime>)
    requires |OfficeAors(b.aorOffices, PanelListsOf(st, r).offices)| == 0
    ensures ApplyFilters(b, Some(st), r, coerce) == ApplyFilters(b, Some(st.(text := st.text["Offices" := ""])), r, coerce)
  {
    var st' := st.(text := st.text["Offices" := ""]);
    OfficeEntryOnly(st, r, "");
    EmptyTextNoTokens();
    assert StoredWindow(st') == StoredWindow(st);
    UnmappedOfficesSkipped(b, StoredWindow(st), PanelListsOf(st, r), coerce);
  }

  lemma UnmappedOfficesSkipped(b: Base, w: Option<(int, int)>, t: PanelLists, coerce: string -> Option<DateTime>)
    requires |OfficeAors(b.aorOffices, t.offices)| == 0
    ensures FiltersWith(b, w, t, coerce) == FiltersWith(b, w, t.(offices := []), coerce)
  {
    var f1 := AorStep(DatedBase(b, w, coerce), t.aors);
    assert OfficeStep(f1, b.aorOffices, t.offices) == f1;
    assert OfficeStep(f1, b.aorOffices, []) == f1;
  }

  /** Rewriting the Offices entry leaves the other four lists as they were. */
  lemma OfficeEntryOnly(st: Store, r: ListReader, text: string)
    ensures var t, t' := PanelListsOf(st, r), PanelListsOf(st.(text := st.text["Offices" := text]), r);
      t' == t.(offices := ReadTokens(r, text))
  {
    var st' := st.(text := st.text["Offices" := text]);
    assert TextOr(st', "AORs") == TextOr(st, "AORs");
    assert TextOr(st', "Topics") == TextOr(st, "Topics");
    assert TextOr(st', "Instructors") == TextOr(st, "Instructors");
    assert TextOr(st', "Locations") == TextOr(st, "Locations");
    assert TextOr(st', "Offices") == text;
  }

  /** With no store, nothing but the parse of the start times narrows the rows. */
  lemma NoStoreNoSelections(r: ListReader)
    ensures PanelListsOf(StoreOrEmpty(None), r) == PanelLists([], [], [], [], [])
    ensures StoredWindow(StoreOrEmpty(None)).None?
  {
    NoStoreNoLists(r);
  }

  /**
   * With no attendance rows and a class that parses, the filters as written
   * raise, while the corrected filters keep that class.
   */
  lemma NoAttendanceRaisesAsWritten(b: Base, r: ListReader, coerce: string -> Option<DateTime>, c: TrainingClass, t: DateTime)
    requires |b.attendance| == 0 && c in b.classes
    requires ParseCustomDatetime(Some(c.startTime), coerce) == Some(t)
    ensures ApplyFiltersAsWritten(b, None, r, coerce).None?
    ensures Timed(c, t) in ApplyFilters(b, None, r, coerce).classes
  {
    NoStoreNoSelections(r);
    ClassesKept(b, None, r, coerce, Timed(c, t));
  }

  // ---------------------------------------------------------------------
  // Per-instructor figures from the detailed rows

  /** `nunique()`: the number of distinct non-null values. */
  function Nunique(cells: seq<Option<string>>): nat
  {
    |Distinct(Somes(cells))|
  }

  /** The merge key: a row belongs to an instructor row whose id is its id; a null id matches no row. */
  function AttendedWith(id: Option<string>): Timed<Attendance> -> bool
  {
    (s: Timed<Attendance>) => Some(s.row.instructorId) == id
  }

  function HeldBy(id: Option<string>): Timed<TrainingClass> -> bool
  {
    (s: Timed<TrainingClass>) => Some(s.row.instructorId) == id
  }

  function ClassOfAttendance(s: Timed<Attendance>): Option<string>
  {
    s.row.classId
  }

  function MemberOfAttendance(s: Timed<Attendance>): Option<string>
  {
    s.row.memberId
  }

  function ClassOfClass(s: Timed<TrainingClass>): Option<string>
  {
    s.row.classId
  }

  function WasPresent(s: Timed<Attendance>): bool
  {
    s.row.wasPresent == Some("True")
  }

  function Registered(s: Timed<Attendance>): bool
  {
    s.row.email.Some?
  }

  /**
   * `AttendeesPresent / TotalRegistrations * 100`, with present rows
   * counted on "True" and registrations on a non-null e-mail; no
   * registrations give 0.
   */
  function CalculatedRate(rows: seq<Timed<Attendance>>): (r: real)
    ensures r >= 0.0
    ensures |Filter(rows, WasPresent)| <= |Filter(rows, Registered)| ==> r <= 100.0
  {
    var present, registered := |Filter(rows, WasPresent)|, |Filter(rows, Registered)|;
    if registered == 0 then 0.0
    else
      var q := present as real / registered as real;
      assert present <= registered ==> q <= 1.0;
      q * 100.0
  }

  function InClass(c: string): Timed<Attendance> -> bool
  {
    (s: Timed<Attendance>) => s.row.classId == Some(c)
  }

  /** The distinct members of one class. */
  function SizeOfClass(rows: seq<Timed<Attendance>>, c: string): nat
  {
    Nunique(Map(Filter(rows, InClass(c)), MemberOfAttendance))
  }

  /** Each distinct class's size, in class order. */
  function Sizes(rows: seq<Timed<Attendance>>, cs: seq<string>): (r: seq<int>)
    ensures |r| == |cs|
    ensures forall i :: 0 <= i < |cs| ==> r[i] == SizeOfClass(rows, cs[i])
  {
    if |cs| == 0 then [] else [SizeOfClass(rows, cs[0])] + Sizes(rows, cs[1..])
  }

  /** A class holds no more distinct members than the instructor teaches overall. */
  lemma SizeOfClassWithin(rows: seq<Timed<Attendance>>, c: string)
    ensures SizeOfClass(rows, c) <= Nunique(Map(rows, MemberOfAttendance))
  {
    var sub := Filter(rows, InClass(c));
    var xs := Distinct(Somes(Map(sub, MemberOfAttendance)));
    var all := Map(rows, MemberOfAttendance);
    forall x | x in xs ensures x in Distinct(Somes(all)) {
      MapFilterMember(rows, InClass(c), MemberOfAttendance, Some(x));
      var r :| r in rows && InClass(c)(r) && MemberOfAttendance(r) == Some(x);
      MapMember(rows, MemberOfAttendance, r);
    }
    DistinctWithin(xs, Distinct(Somes(all)));
  }

  /** A sum of values each at most `k` is at most `|xs| * k`. */
  lemma {:induction false} SumAtMost(xs: seq<int>, k: int)
    requires forall i :: 0 <= i < |xs| ==> xs[i] <= k
    ensures Sum(xs) <= |xs| * k
  {
    if |xs| > 0 {
      var m := |xs| - 1;
      assert forall i :: 0 <= i < |xs[1..]| ==> xs[1..][i] == xs[i + 1];
      SumAtMost(xs[1..], k);
      assert |xs| * k == k + m * k;
    }
  }

  /** A quotient of a total bounded by `n * k` is at most `k`. */
  lemma QuotientWithin(total: real, n: real, k: real)
    requires n > 0.0 && total <= n * k
    ensures total / n <= k
  {
    var q := total / n;
    assert q * n == total;
    if q > k {
      assert q * n > k * n;
    }
  }

  lemma MeanOfCountsWithin(total: int, n: nat, k: nat)
    requires n > 0 && 0 <= total <= n * k
    ensures 0.0 <= total as real / n as real <= k as real
  {
    assert (n * k) as real == n as real * k as real;
    QuotientWithin(total as real, n as real, k as real);
  }

  /**
   * `AverageClassSize`: the mean, over the instructor's distinct classes, of
   * each class's distinct members; none when no class id is present (then 0).
   * It never exceeds the instructor's unique students.
   */
  function MeanClassSize(rows: seq<Timed<Attendance>>): (r: real)
    ensures 0.0 <= r <= Nunique(Map(rows, MemberOfAttendance)) as real
  {
    var cs := Distinct(Somes(Map(rows, ClassOfAttendance)));
    if |cs| == 0 then 0.0
    else
      var n, k := |cs|, Nunique(Map(rows, MemberOfAttendance));
      var sizes := Sizes(rows, cs);
      forall i | 0 <= i < n ensures sizes[i] <= k {
        SizeOfClassWithin(rows, cs[i]);
      }
      SumAtMost(sizes, k);
      SumNonNegative(sizes);
      MeanOfCountsWithin(Sum(sizes), n, k);
      Sum(sizes) as real / n as real
  }

  function InstantOf(s: Timed<TrainingClass>): int
  {
    Instant(s.start)
  }

  /** The first session's instant: one of the sessions', and none earlier. */
  function Earliest(rows: seq<Timed<TrainingClass>>): (m: int)
    requires |rows| > 0
    ensures forall s :: s in rows ==> m <= InstantOf(s)
    ensures exists s :: s in rows && m == InstantOf(s)
  {
    if |rows| == 1 then assert rows[0] in rows; InstantOf(rows[0])
    else
      var rest := Earliest(rows[1..]);
      assert forall s :: s in rows ==> s == rows[0] || s in rows[1..];
      assert forall s :: s in rows[1..] ==> s in rows;
      assert rows[0] in rows;
      if InstantOf(rows[0]) <= rest then InstantOf(rows[0]) else rest
  }

  /** The last session's instant: one of the sessions', and none later. */
  function Latest(rows: seq<Timed<TrainingClass>>): (m: int)
    requires |rows| > 0
    ensures forall s :: s in rows ==> InstantOf(s) <= m
    ensures exists s :: s in rows && m == InstantOf(s)
  {
    if |rows| == 1 then assert rows[0] in rows; InstantOf(rows[0])
    else
      var rest := Latest(rows[1..]);
      assert forall s :: s in rows ==> s == rows[0] || s in rows[1..];
      assert forall s :: s in rows[1..] ==> s in rows;
      assert rows[0] in rows;
      if InstantOf(rows[0]) >= rest then InstantOf(rows[0]) else rest
  }

  /** `(LastSession - FirstSession).dt.days`: whole days between the first and the last session. */
  function SpanDays(rows: seq<Timed<TrainingClass>>): nat
    requires |rows| > 0
  {
    assert rows[0] in rows;
    (Latest(rows) - Earliest(rows)) / 86400
  }

  /** `max(1, days / 30.44)`: at least one month. */
  function MonthsActive(days: nat): (m: real)
    ensures m >= 1.0
    ensures m == 1.0 <==> days <= 30
  {
    var x := days as real / 30.44;
    if x < 1.0 then 1.0 else x
  }

  /** Spreading `n` over at least one month gives at most `n`, and exactly `n` over one month. */
  lemma PerMonthWithin(n: real, m: real)
    requires n >= 0.0 && m >= 1.0
    ensures 0.0 <= n / m <= n
    ensures m == 1.0 ==> n / m == n
  {
    assert n / m * m == n;
    assert n <= n * m;
  }

  /**
   * `SessionsPerMonth`: distinct classes over months active; 0 for an
   * instructor with no class rows. It never exceeds the distinct classes,
   * and equals them when every session falls within 30 days.
   */
  function SessionsPerMonth(rows: seq<Timed<TrainingClass>>): (r: real)
    ensures 0.0 <= r <= Nunique(Map(rows, ClassOfClass)) as real
    ensures |rows| > 0 && SpanDays(rows) <= 30 ==> r == Nunique(Map(rows, ClassOfClass)) as real
  {
    if |rows| == 0 then 0.0
    else
      var n := Nunique(Map(rows, ClassOfClass)) as real;
      var m := MonthsActive(SpanDays(rows));
      PerMonthWithin(n, m);
      n / m
  }

  // ---------------------------------------------------------------------
  // `prepare_instructor_performance_data`

  /** The five `Final*` columns of one instructor row, nulls filled with 0. */
  datatype Performer = Performer(name: Option<string>, classes: real, rate: real, students: real,
                                 classSize: real, perMonth: real)

  function OrZero(x: Option<real>): real
  {
    if x.Some? then x.value else 0.0
  }

  /**
   * With the instructor table present, its own totals give classes, rate and
   * students; class size and sessions per month come from the merged
   * detailed rows.
   */
  function FromTable(i: Instructor, f: Filtered): Performer
  {
    Performer(i.name, OrZero(i.totalSessions), OrZero(i.averageAttendanceRate), OrZero(i.uniqueAttendees),
              MeanClassSize(Filter(f.attendance, AttendedWith(i.id))), SessionsPerMonth(Filter(f.classes, HeldBy(i.id))))
  }

  /** Without it, every figure comes from the instructor's attendance rows. */
  function FromAttendance(pair: (string, string), f: Filtered): Performer
  {
    var rows := Filter(f.attendance, AttendedWith(Some(pair.0)));
    Performer(Some(pair.1), Nunique(Map(rows, ClassOfAttendance)) as real, CalculatedRate(rows),
              Nunique(Map(rows, MemberOfAttendance)) as real, MeanClassSize(rows),
              SessionsPerMonth(Filter(f.classes, HeldBy(Some(pair.0)))))
  }

  function TableRow(f: Filtered): Instructor -> Performer
  {
    (i: Instructor) => FromTable(i, f)
  }

  function AttendanceRow(f: Filtered): ((string, string)) -> Performer
  {
    (pair: (string, string)) => FromAttendance(pair, f)
  }

  function TablePerformers(table: seq<Instructor>, f: Filtered): (r: seq<Performer>)
    ensures |r| == |table|
    ensures forall k :: 0 <= k < |table| ==> r[k] == FromTable(table[k], f)
  {
    Map(table, TableRow(f))
  }

  function AttendancePerformers(pairs: seq<(string, string)>, f: Filtered): (r: seq<Performer>)
    ensures |r| == |pairs|
    ensures forall k :: 0 <= k < |pairs| ==> r[k] == FromAttendance(pairs[k], f)
  {
    Map(pairs, AttendanceRow(f))
  }

  function IdAndName(s: Timed<Attendance>): (string, string)
  {
    (s.row.instructorId, s.row.instructorName)
  }

  /** `groupby(['InstructorId', 'InstructorName']).first()`: each id and name pair once. */
  function Pairs(rows: seq<Timed<Attendance>>): (r: seq<(string, string)>)
    ensures NoDuplicates(r)
    ensures forall p :: p in r <==> exists s :: s in rows && IdAndName(s) == p
  {
    var all := Map(rows, IdAndName);
    forall p | p in all ensures exists s :: s in rows && IdAndName(s) == p {
      var i :| 0 <= i < |all| && all[i] == p;
      assert rows[i] in rows;
    }
    forall s | s in rows ensures IdAndName(s) in all {
      var i :| 0 <= i < |rows| && rows[i] == s;
      assert all[i] == IdAndName(s);
    }
    Distinct(all)
  }

  /** The instructors ranked: the table's rows when it has any, else one per id and name attending. */
  function Roster(f: Filtered): seq<Performer>
  {
    if |f.instructors| > 0 then TablePerformers(f.instructors, f) else AttendancePerformers(Pairs(f.attendance), f)
  }

  /** The metric dropdown's five keys. */
  datatype Measure = RateOfAttendance | StudentsTaught | SizeOfClasses | ClassesHeld | MonthlySessions

  /** The measure a dropdown key names, if it names one. */
  function KnownMeasure(key: string): (m: Option<Measure>)
    ensures m == Some(RateOfAttendance) <==> key == "attendance_rate"
    ensures m == Some(StudentsTaught) <==> key == "total_students"
    ensures m == Some(SizeOfClasses) <==> key == "avg_class_size"
    ensures m == Some(ClassesHeld) <==> key == "classes_conducted"
    ensures m == Some(MonthlySessions) <==> key == "sessions_per_month"
  {
    if key == "attendance_rate" then Some(RateOfAttendance)
    else if key == "total_students" then Some(StudentsTaught)
    else if key == "avg_class_size" then Some(SizeOfClasses)
    else if key == "classes_conducted" then Some(ClassesHeld)
    else if key == "sessions_per_month" then Some(MonthlySessions)
    else None
  }

  /** The column the preparation ranks by: an unknown key falls back to the attendance rate. */
  function MeasureOf(key: string): (m: Measure)
    ensures m == StudentsTaught <==> key == "total_students"
    ensures m == SizeOfClasses <==> key == "avg_class_size"
    ensures m == ClassesHeld <==> key == "classes_conducted"
    ensures m == MonthlySessions <==> key == "sessions_per_month"
    ensures m == RateOfAttendance <==>
      key != "total_students" && key != "avg_class_size" && key != "classes_conducted" && key != "sessions_per_month"
  {
    match KnownMeasure(key)
    case None => RateOfAttendance
    case Some(m) => m
  }

  function MetricName(m: Measure): string
  {
    match m
    case RateOfAttendance => "Attendance Rate (%)"
    case StudentsTaught => "Total Students Taught"
    case SizeOfClasses => "Average Class Size"
    case ClassesHeld => "Classes Conducted"
    case MonthlySessions => "Sessions per Month"
  }

  /** `MetricValue`: the `Final*` column the measure names. */
  function MetricValue(p: Performer, m: Measure): real
  {
    match m
    case RateOfAttendance => p.rate
    case StudentsTaught => p.students
    case SizeOfClasses => p.classSize
    case ClassesHeld => p.classes
    case MonthlySessions => p.perMonth
  }

  /** What the chart and the insights read of a prepared row. */
  datatype Ranked = Ranked(name: Option<string>, classes: real, value: real)

  function RankBy(m: Measure): Performer -> Ranked
  {
    (p: Performer) => Ranked(p.name, p.classes, MetricValue(p, m))
  }

  /** `sort_values('MetricValue', ascending=False)`. */
  function Descending(a: Ranked, b: Ranked): bool
  {
    a.value >= b.value
  }

  lemma DescendingPreorder()
    ensures TotalPreorder(Descending)
  {
  }

  /** The prepared frame: ranked rows (none for an empty frame) and the metric's display name. */
  datatype Prepared = Prepared(rows: seq<Ranked>, metricName: string)

  const NoRows: Prepared := Prepared([], "")

  /** Empty when both the instructor table and the attendance are empty. */
  function Prepare(f: Filtered, key: string): Prepared
  {
    if |f.instructors| == 0 && |f.attendance| == 0 then NoRows
    else
      var m := MeasureOf(key);
      DescendingPreorder();
      Prepared(SortWith(Map(Roster(f), RankBy(m)), Descending), MetricName(m))
  }

  /**
   * The preparation as written: the fallbacks `.get('AverageClassSize', 0)`
   * and `.get('SessionsPerMonth', 0)` hand back the number 0, whose
   * `.fillna` raises whenever no attendance or no class row is left, so the
   * error path returns an empty frame.
   */
  function PrepareAsWritten(f: Filtered, key: string): Prepared
  {
    if |f.attendance| == 0 || |f.classes| == 0 then NoRows else Prepare(f, key)
  }

  /**
   * One row per instructor of the table, or, without the table, one per id
   * and name attending; each row named by its instructor.
   */
  lemma RosterOf(f: Filtered)
    ensures |f.instructors| > 0 ==> (|Roster(f)| == |f.instructors|
      && forall k :: 0 <= k < |f.instructors| ==> Roster(f)[k].name == f.instructors[k].name)
    ensures |f.instructors| == 0 ==> (|Roster(f)| == |Pairs(f.attendance)|
      && forall k :: 0 <= k < |Roster(f)| ==> Roster(f)[k].name == Some(Pairs(f.attendance)[k].1))
    ensures |f.instructors| == 0 && |f.attendance| > 0 ==> |Roster(f)| > 0
  {
    if |f.instructors| == 0 && |f.attendance| > 0 {
      assert IdAndName(f.attendance[0]) in Pairs(f.attendance) by {
        assert f.attendance[0] in f.attendance;
      }
    }
  }

  /**
   * The prepared rows are the roster, each valued by the selected `Final*`
   * column, ordered by that value from highest to lowest; the frame is
   * empty only when both the table and the attendance are.
   */
  lemma PrepareSpec(f: Filtered, key: string)
    ensures var p := Prepare(f, key);
      (p.rows == [] <==> |f.instructors| == 0 && |f.attendance| == 0)
      && (p.rows != [] ==>
        |p.rows| == |Roster(f)| && multiset(p.rows) == multiset(Map(Roster(f), RankBy(MeasureOf(key))))
        && p.metricName == MetricName(MeasureOf(key))
        && forall i, j :: 0 <= i < j < |p.rows| ==> p.rows[i].value >= p.rows[j].value)
  {
    RosterOf(f);
    DescendingPreorder();
  }

  /** Each prepared row's value is the one column the metric key selects. */
  lemma PreparedValues(f: Filtered, key: string, r: Ranked)
    requires r in Prepare(f, key).rows
    ensures exists p :: p in Roster(f) && r == Ranked(p.name, p.classes, MetricValue(p, MeasureOf(key)))
  {
    PrepareSpec(f, key);
    var ranked := Map(Roster(f), RankBy(MeasureOf(key)));
    assert r in multiset(ranked);
    var k :| 0 <= k < |ranked| && ranked[k] == r;
    assert Roster(f)[k] in Roster(f);
  }

  /**
   * With instructor rows but no attendance left, the preparation as written
   * returns an empty frame while the corrected one ranks every instructor.
   */
  lemma PrepareAsWrittenDropsRows(f: Filtered, key: string)
    requires |f.instructors| > 0 && |f.attendance| == 0
    ensures PrepareAsWritten(f, key).rows == []
    ensures |Prepare(f, key).rows| == |f.instructors|
  {
    PrepareSpec(f, key);
    RosterOf(f);
  }

  // ---------------------------------------------------------------------
  // `create_instructor_performance_chart`

  datatype ChartKind = Bars | HorizontalBars | Scatter | NoTrace

  /** "bar", "horizontal_bar" and "scatter" draw a trace; any other type draws none. */
  function KindOf(chartType: string): ChartKind
  {
    if chartType == "bar" then Bars
    else if chartType == "horizontal_bar" then HorizontalBars
    else if chartType == "scatter" then Scatter
    else NoTrace
  }

  /**
   * A figure: its title, the kind of trace, the names and values drawn (and,
   * for a scatter, the classes conducted on the x axis), the dashed average
   * line, and the height.
   */
  datatype Chart = NoData
                 | Figure(title: string, kind: ChartKind, names: seq<Option<string>>, values: seq<real>,
                          classes: seq<real>, average: Option<real>, height: int)

  const ChartTitlePrefix: string := "Instructor Performance Analysis: "
  const MaxBars: nat := 20

  function NameOf(r: Ranked): Option<string>
  {
    r.name
  }

  function ValueOf(r: Ranked): real
  {
    r.value
  }

  function ClassesOf(r: Ranked): real
  {
    r.classes
  }

  function HeightFor(kind: ChartKind, shown: nat): int
  {
    if kind == HorizontalBars && shown * 30 > 500 then shown * 30 else 500
  }

  /** The top twenty rows are drawn; the average line is added to bar charts of more than one instructor. */
  function ChartOf(p: Prepared, chartType: string): Chart
  {
    if |p.rows| == 0 then NoData
    else
      var kind := KindOf(chartType);
      var shown := Head(p.rows, MaxBars);
      var drawn := if kind == NoTrace then [] else shown;
      var average := if (kind == Bars || kind == HorizontalBars) && |shown| > 1 then Some(Mean(Map(shown, ValueOf))) else None;
      Figure(ChartTitlePrefix + p.metricName, kind, Map(drawn, NameOf), Map(drawn, ValueOf),
             if kind == Scatter then Map(drawn, ClassesOf) else [], average, HeightFor(kind, |shown|))
  }

  /** Rows in metric order, highest first. */
  predicate Ranking(rows: seq<Ranked>)
  {
    forall i, j :: 0 <= i < j < |rows| ==> rows[i].value >= rows[j].value
  }

  /**
   * A figure exactly when there are rows, titled by the metric: a trace
   * draws the first twenty rows in order (at most twenty), and no trace
   * draws nothing.
   */
  lemma ChartDraws(p: Prepared, chartType: string)
    ensures var c := ChartOf(p, chartType);
      (c.NoData? <==> p.rows == [])
      && (c.Figure? ==>
        c.title == ChartTitlePrefix + p.metricName && c.kind == KindOf(chartType)
        && |c.names| == |c.values| == (if c.kind == NoTrace then 0 else Min(|p.rows|, MaxBars))
        && forall i :: 0 <= i < |c.values| ==> c.values[i] == p.rows[i].value && c.names[i] == p.rows[i].name)
  {
  }

  /** On ranked rows every drawn value is at least every value left out. */
  lemma ChartDrawsTop(p: Prepared, chartType: string)
    requires Ranking(p.rows)
    ensures var c := ChartOf(p, chartType);
      c.Figure? ==> forall i, j :: 0 <= i < |c.values| && |c.values| <= j < |p.rows| ==> c.values[i] >= p.rows[j].value
  {
    ChartDraws(p, chartType);
  }

  /**
   * Bar charts of more than one instructor carry the average line, and on
   * ranked rows it lies between the lowest and the highest bar drawn.
   */
  lemma ChartAverage(p: Prepared, chartType: string)
    requires Ranking(p.rows)
    ensures var c := ChartOf(p, chartType);
      c.Figure? ==>
        (c.average.Some? <==> (c.kind == Bars || c.kind == HorizontalBars) && |p.rows| > 1)
        && (c.average.Some? ==> p.rows[Min(|p.rows|, MaxBars) - 1].value <= c.average.value <= p.rows[0].value)
  {
    var c := ChartOf(p, chartType);
    if c.Figure? && c.average.Some? {
      var shown := Head(p.rows, MaxBars);
      var vs := Map(shown, ValueOf);
      assert c.average.value == Mean(vs);
      forall i | 0 <= i < |vs| ensures shown[|shown| - 1].value <= vs[i] <= shown[0].value {
        assert shown[i] == p.rows[i];
      }
      MeanAtLeast(vs, shown[|shown| - 1].value);
      MeanAtMost(vs, shown[0].value);
    }
  }

  function Min(a: int, b: int): int
  {
    if a < b then a else b
  }

  // ---------------------------------------------------------------------
  // `generate_instructor_performance_insights`

  datatype Insight =
    | TopPerformer(name: Option<string>, value: real, metric: string)
    | Excellence(count: nat, total: nat)
    | HighPerformers(count: nat, quartile: real)
    | AverageAttendance(average: real)
    | HighImpact(count: nat, total: nat)
    | TotalReach(sum: real)
    | OptimalSize(count: nat, total: nat)
    | AverageSize(average: real)
    | Experienced(count: nat, total: nat)
    | TotalActivity(sum: real)
    | HighlyActive(count: nat, total: nat)
    | ActivityDistribution(count: nat, median: real)
    | AverageActivity(average: real)
    | Overview(total: nat)
    | AveragePerformance(average: real, metric: string)

  datatype InsightsView = NoInsights | Insights(items: seq<Insight>)

  function AtLeast(t: real): real -> bool
  {
    (v: real) => v >= t
  }

  function Between(lo: real, hi: real): real -> bool
  {
    (v: real) => lo <= v <= hi
  }

  /** The number of values meeting a test (`len(df[mask])`). */
  function CountWhere(xs: seq<real>, p: real -> bool): (n: nat)
    ensures n <= |xs|
  {
    |Filter(xs, p)|
  }

  function RealLe(a: real, b: real): bool
  {
    a <= b
  }

  lemma RealLePreorder()
    ensures TotalPreorder(RealLe)
  {
  }

  /** The values in ascending order. */
  function Ascending(xs: seq<real>): (s: seq<real>)
    ensures |s| == |xs| && multiset(s) == multiset(xs)
    ensures forall i, j :: 0 <= i < j < |s| ==> s[i] <= s[j]
  {
    RealLePreorder();
    var s := SortWith(xs, RealLe);
    assert forall i, j :: 0 <= i < j < |s| ==> RealLe(s[i], s[j]);
    s
  }

  /**
   * Where `quantile(num / den)` falls among `m + 1` sorted values: the lower
   * neighbour's index and the fraction of the way to the next one.
   */
  function QuantilePosition(num: nat, den: nat, m: nat): (r: (nat, real))
    requires 0 < den && num <= den
    ensures r.0 <= m && 0.0 <= r.1 < 1.0
  {
    PositionWithin(num, den, m);
    FractionBelowOne((num * m) % den, den);
    ((num * m) / den, ((num * m) % den) as real / den as real)
  }

  /**
   * `quantile(num / den)` with linear interpolation between the two
   * neighbouring order statistics; the median is `Quantile(xs, 1, 2)`.
   */
  function Quantile(xs: seq<real>, num: nat, den: nat): real
    requires |xs| > 0 && 0 < den && num <= den
  {
    var s := Ascending(xs);
    var (lo, frac) := QuantilePosition(num, den, |xs| - 1);
    if lo + 1 < |s| then Interpolate(s[lo], s[lo + 1], frac) else s[lo]
  }

  /** The point `frac` of the way from `a` to `b`. */
  function Interpolate(a: real, b: real, frac: real): real
  {
    a + frac * (b - a)
  }

  /** The interpolation position `num * m / den` stays within `m`. */
  lemma PositionWithin(num: nat, den: nat, m: nat)
    requires 0 < den && num <= den
    ensures num * m / den <= m
  {
    var h := num * m;
    assert h <= den * m;
    assert den * (h / den) <= h;
  }

  lemma FractionBelowOne(r: nat, den: nat)
    requires r < den
    ensures 0.0 <= r as real / den as real < 1.0
  {
  }

  lemma InterpolateAtMost(a: real, b: real, frac: real)
    requires a <= b && 0.0 <= frac < 1.0
    ensures Interpolate(a, b, frac) <= b
  {
    var d := b - a;
    ScaledAtMost(frac, d);
    assert Interpolate(a, b, frac) == a + frac * d;
  }

  lemma ScaledAtMost(frac: real, d: real)
    requires 0.0 <= frac < 1.0 && d >= 0.0
    ensures frac * d <= d
  {
  }

  /** A quantile is at most one of the sorted values. */
  lemma QuantileBelowSorted(xs: seq<real>, num: nat, den: nat) returns (top: nat)
    requires |xs| > 0 && 0 < den && num <= den
    ensures top < |xs| && Quantile(xs, num, den) <= Ascending(xs)[top]
  {
    var s := Ascending(xs);
    var at := QuantilePosition(num, den, |xs| - 1);
    var lo, frac := at.0, at.1;
    if lo + 1 < |s| {
      assert s[lo] <= s[lo + 1];
      InterpolateAtMost(s[lo], s[lo + 1], frac);
      top := lo + 1;
    } else {
      top := lo;
    }
  }

  /** Some value reaches any quantile, so the count of values at or above it is never zero. */
  lemma QuantileReached(xs: seq<real>, num: nat, den: nat)
    requires |xs| > 0 && 0 < den && num <= den
    ensures CountWhere(xs, AtLeast(Quantile(xs, num, den))) >= 1
  {
    var s := Ascending(xs);
    var top := QuantileBelowSorted(xs, num, den);
    var q := Quantile(xs, num, den);
    assert s[top] in multiset(s);
    assert s[top] in xs;
    assert s[top] in Filter(xs, AtLeast(q));
  }

  /** The metric-specific insights, chosen by the dropdown key itself: an unknown key gets an overview. */
  function MetricInsights(known: Option<Measure>, xs: seq<real>, metric: string): seq<Insight>
    requires |xs| > 0
  {
    var n := |xs|;
    match known
    case Some(RateOfAttendance) =>
      [Excellence(CountWhere(xs, AtLeast(90.0)), n),
       if n > 1 then HighPerformers(CountWhere(xs, AtLeast(Quantile(xs, 3, 4))), Quantile(xs, 3, 4))
       else AverageAttendance(Mean(xs))]
    case Some(StudentsTaught) => [HighImpact(CountWhere(xs, AtLeast(100.0)), n), TotalReach(RealSum(xs))]
    case Some(SizeOfClasses) => [OptimalSize(CountWhere(xs, Between(8.0, 15.0)), n), AverageSize(Mean(xs))]
    case Some(ClassesHeld) => [Experienced(CountWhere(xs, AtLeast(20.0)), n), TotalActivity(RealSum(xs))]
    case Some(MonthlySessions) =>
      [HighlyActive(CountWhere(xs, AtLeast(4.0)), n),
       if n > 1 then ActivityDistribution(CountWhere(xs, AtLeast(Quantile(xs, 1, 2))), Quantile(xs, 1, 2))
       else AverageActivity(Mean(xs))]
    case None => [Overview(n), AveragePerformance(Mean(xs), metric)]
  }

  /** The top performer first, then the metric's two insights, cut to three. */
  function InsightsOf(p: Prepared, key: string): InsightsView
  {
    if |p.rows| == 0 then NoInsights
    else
      var xs := Map(p.rows, ValueOf);
      var metric := Lower(p.metricName);
      var items := [TopPerformer(p.rows[0].name, p.rows[0].value, metric)] + MetricInsights(KnownMeasure(key), xs, metric);
      Insights(Head(items, 3))
  }

  /** A counted insight counts no more instructors than there are, and a quantile one counts at least one. */
  predicate CountSound(i: Insight, n: nat)
  {
    match i
    case Excellence(c, t) => c <= t == n
    case HighImpact(c, t) => c <= t == n
    case OptimalSize(c, t) => c <= t == n
    case Experienced(c, t) => c <= t == n
    case HighlyActive(c, t) => c <= t == n
    case HighPerformers(c, _) => 1 <= c <= n
    case ActivityDistribution(c, _) => 1 <= c <= n
    case Overview(t) => t == n
    case _ => true
  }

  lemma MetricInsightsSound(known: Option<Measure>, xs: seq<real>, metric: string)
    requires |xs| > 0
    ensures |MetricInsights(known, xs, metric)| == 2
    ensures forall i :: i in MetricInsights(known, xs, metric) ==> CountSound(i, |xs|)
  {
    var n := |xs|;
    match known
    case Some(RateOfAttendance) =>
      if n > 1 {
        QuantileReached(xs, 3, 4);
        assert CountSound(HighPerformers(CountWhere(xs, AtLeast(Quantile(xs, 3, 4))), Quantile(xs, 3, 4)), n);
      }
    case Some(MonthlySessions) =>
      if n > 1 {
        QuantileReached(xs, 1, 2);
        assert CountSound(ActivityDistribution(CountWhere(xs, AtLeast(Quantile(xs, 1, 2))), Quantile(xs, 1, 2)), n);
      }
    case _ =>
  }

  /**
   * On ranked rows there are always exactly three insights, the first naming
   * the first row, whose value no instructor exceeds, and every count is
   * sound.
   */
  lemma InsightsSpec(p: Prepared, key: string)
    requires Ranking(p.rows)
    ensures var v := InsightsOf(p, key);
      (v.NoInsights? <==> p.rows == [])
      && (v.Insights? ==>
        |v.items| == 3
        && v.items[0] == TopPerformer(p.rows[0].name, p.rows[0].value, Lower(p.metricName))
        && (forall r :: r in p.rows ==> r.value <= v.items[0].value)
        && forall i :: i in v.items ==> CountSound(i, |p.rows|))
  {
    if |p.rows| > 0 {
      var xs := Map(p.rows, ValueOf);
      var metric := Lower(p.metricName);
      MetricInsightsSound(KnownMeasure(key), xs, metric);
      var items := [TopPerformer(p.rows[0].name, p.rows[0].value, metric)] + MetricInsights(KnownMeasure(key), xs, metric);
      assert Head(items, 3) == items;
      forall r | r in p.rows ensures r.value <= p.rows[0].value {
        var j :| 0 <= j < |p.rows| && p.rows[j] == r;
        if j > 0 { assert p.rows[0].value >= p.rows[j].value; }
      }
    }
  }

  // ---------------------------------------------------------------------
  // `update_instructor_performance_analysis`

  /** What the callback shows: a chart and its insights, or the error chart and message when a step raises. */
  datatype Panel = Panel(chart: Chart, insights: InsightsView) | ErrorPanel

  function PanelOf(p: Prepared, key: string, chartType: string): Panel
  {
    Panel(ChartOf(p, chartType), InsightsOf(p, key))
  }

  /**
   * The callback as written: the filters read the store with the quote-only
   * reader and may raise, and the preparation empties the frame whenever
   * no attendance or no class row is left.
   */
  function UpdatePanel(b: Base, stored: Option<Store>, key: string, chartType: string,
                       coerce: string -> Option<DateTime>): Panel
  {
    match ApplyFiltersAsWritten(b, stored, QuoteOnly, coerce)
    case None => ErrorPanel
    case Some(f) => PanelOf(PrepareAsWritten(f, key), key, chartType)
  }

  /** The callback as evidently intended: the corrected filters and the corrected preparation. */
  function UpdatePanelIntended(b: Base, stored: Option<Store>, r: ListReader, key: string, chartType: string,
                               coerce: string -> Option<DateTime>): Panel
  {
    PanelOf(Prepare(ApplyFilters(b, stored, r, coerce), key), key, chartType)
  }

  /**
   * A drawn panel whose chart and insights agree: both are empty together,
   * and a drawn chart's first bar is the instructor the first insight
   * names, at the value it quotes.
   */
  predicate Agrees(v: Panel)
  {
    v.Panel? ==>
      (v.chart.NoData? <==> v.insights.NoInsights?)
      && (v.chart.Figure? && v.chart.kind != NoTrace ==>
        v.insights.Insights? && |v.insights.items| > 0 && v.insights.items[0].TopPerformer?
        && |v.chart.names| > 0 && |v.chart.values| > 0 && v.chart.names[0] == v.insights.items[0].name
        && v.chart.values[0] == v.insights.items[0].value)
  }

  /** On ranked rows the chart and the insights agree. */
  lemma PanelConsistent(p: Prepared, key: string, chartType: string)
    requires Ranking(p.rows)
    ensures PanelOf(p, key, chartType).Panel? && Agrees(PanelOf(p, key, chartType))
  {
    ChartDraws(p, chartType);
    InsightsSpec(p, key);
  }

  /** The panel drawn from the preparation as written agrees, and is empty without attendance or classes. */
  lemma PreparedAsWrittenConsistent(f: Filtered, key: string, chartType: string)
    ensures Agrees(PanelOf(PrepareAsWritten(f, key), key, chartType))
    ensures |f.attendance| == 0 || |f.classes| == 0 ==> PanelOf(PrepareAsWritten(f, key), key, chartType) == Panel(NoData, NoInsights)
  {
    PrepareSpec(f, key);
    PanelConsistent(PrepareAsWritten(f, key), key, chartType);
  }

  /**
   * The callback as written shows the error chart exactly when the query
   * returned class rows but no attendance; otherwise its chart and insights
   * agree, and they are empty whenever no attendance or no class row
   * survives the filters.
   */
  lemma UpdatePanelConsistent(b: Base, stored: Option<Store>, key: string, chartType: string,
                              coerce: string -> Option<DateTime>)
    ensures UpdatePanel(b, stored, key, chartType, coerce).ErrorPanel? <==> |b.attendance| == 0 && |b.classes| > 0
    ensures Agrees(UpdatePanel(b, stored, key, chartType, coerce))
    ensures var f := ApplyFilters(b, stored, QuoteOnly, coerce);
      !(|b.attendance| == 0 && |b.classes| > 0) && (|f.attendance| == 0 || |f.classes| == 0) ==>
        UpdatePanel(b, stored, key, chartType, coerce) == Panel(NoData, NoInsights)
  {
    var f := ApplyFilters(b, stored, QuoteOnly, coerce);
    if !(|b.attendance| == 0 && |b.classes| > 0) {
      assert UpdatePanel(b, stored, key, chartType, coerce) == PanelOf(PrepareAsWritten(f, key), key, chartType);
      PreparedAsWrittenConsistent(f, key, chartType);
    }
  }

  /**
   * Where no step raises and rows of both kinds survive, the callback as
   * written shows what the intended one shows for the quote-only reader.
   */
  lemma UpdatePanelAgrees(b: Base, stored: Option<Store>, key: string, chartType: string,
                          coerce: string -> Option<DateTime>)
    requires var f := ApplyFilters(b, stored, QuoteOnly, coerce); |f.attendance| > 0 && |f.classes| > 0
    ensures UpdatePanel(b, stored, key, chartType, coerce) == UpdatePanelIntended(b, stored, QuoteOnly, key, chartType, coerce)
  {
    var f := ApplyFilters(b, stored, QuoteOnly, coerce);
    assert |b.attendance| > 0 by {
      AttendanceKept(b, stored, QuoteOnly, coerce, f.attendance[0]);
    }
  }

  /** The intended callback always draws, and its chart and insights agree, for either reader. */
  lemma UpdatePanelIntendedConsistent(b: Base, stored: Option<Store>, r: ListReader, key: string, chartType: string,
                                      coerce: string -> Option<DateTime>)
    ensures UpdatePanelIntended(b, stored, r, key, chartType, coerce).Panel?
    ensures Agrees(UpdatePanelIntended(b, stored, r, key, chartType, coerce))
  {
    var f := ApplyFilters(b, stored, r, coerce);
    assert UpdatePanelIntended(b, stored, r, key, chartType, coerce) == PanelOf(Prepare(f, key), key, chartType);
    PrepareSpec(f, key);
    PanelConsistent(Prepare(f, key), key, chartType);
  }
}
