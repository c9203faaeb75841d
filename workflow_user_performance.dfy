/**
 * The user-performance panel: per-assignee ticket counts, average resolution
 * hours, notes and tasks written, and the top-performer ranking.
 *
 * Its dataset filter is the source-analysis panel's, line for line (CreatedOn
 * required, CreatedOn from Day_From and ClosedOn up to Day_To, then the ten
 * memberships in the same order), so the model reuses `SourceFilter`. The
 * duration summary is joined with the resolution-times panel's left merge.
 */
module WorkflowUserPerformance {
  import opened Common
  import opened WorkflowData
  import opened WorkflowSummaryCards
  import opened WorkflowResolutionTimes
  import opened WorkflowSourceAnalysis

  /** A row of the workflow history: who changed which field of which item. */
  datatype HistoryRow = HistoryRow(workItemId: int, changedBy: Option<string>, changedField: Option<string>)

  /** A user's average resolution, in hundredths of an hour; None is pandas' NaN. */
  datatype AvgRow = AvgRow(user: string, hours: Option<int>)

  datatype Performer = Performer(user: string, tickets: nat, hours: Option<int>)

  /** The frame `prepare_user_performance_data` returns for each chart type; NoData is the empty frame. */
  datatype UserData =
    | TicketsHandled(tickets: seq<(string, nat)>)
    | AvgResolution(averages: seq<AvgRow>)
    | NotesTasks(notes: seq<(string, nat)>)
    | TopPerformers(performers: seq<Performer>)
    | NoData

  // ---------------------------------------------------------------------
  // tickets_handled

  function AssignedTo(w: WorkItem): Option<string>
  {
    w.assignedTo
  }

  /** The AssignedTo values `groupby('AssignedTo')` groups, null ones dropped. */
  function Assignees(items: seq<WorkItem>): seq<string>
  {
    Somes(Map(items, AssignedTo))
  }

  /** Items that have an assignee. */
  function AssignedCount(items: seq<WorkItem>): nat
  {
    if |items| == 0 then 0 else (if items[0].assignedTo.Some? then 1 else 0) + AssignedCount(items[1..])
  }

  lemma {:induction false} AssigneesLength(items: seq<WorkItem>)
    ensures |Assignees(items)| == AssignedCount(items)
  {
    if |items| > 0 {
      assert Map(items, AssignedTo)[1..] == Map(items[1..], AssignedTo);
      AssigneesLength(items[1..]);
    }
  }

  /**
   * tickets_handled: one row per assignee with the number of its items, most
   * tickets first; the counts add up to the number of items with an assignee.
   */
  lemma TicketsHandledSpec(items: seq<WorkItem>)
    ensures var counts := ValueCounts(Assignees(items));
      (forall e :: e in counts ==> Some(e.0) in Map(items, AssignedTo) && e.1 == Count(Assignees(items), e.0)) &&
      (forall w :: w in items && w.assignedTo.Some? ==> (w.assignedTo.value, Count(Assignees(items), w.assignedTo.value)) in counts) &&
      (forall i, j :: 0 <= i < j < |counts| ==> counts[i].1 >= counts[j].1) &&
      Sum(Map(counts, CountOf)) == AssignedCount(items)
  {
    var xs := Assignees(items);
    var counts := ValueCounts(xs);
    forall e | e in counts ensures Some(e.0) in Map(items, AssignedTo) && e.1 == Count(xs, e.0) {
      ValueCountsEntry(xs, e);
    }
    forall w | w in items && w.assignedTo.Some?
      ensures (w.assignedTo.value, Count(xs, w.assignedTo.value)) in counts
    {
      var i :| 0 <= i < |items| && items[i] == w;
      assert Map(items, AssignedTo)[i] == w.assignedTo;
      ValueCountsCover(xs, w.assignedTo.value);
    }
    forall i, j | 0 <= i < j < |counts| ensures counts[i].1 >= counts[j].1 {
      ValueCountsOrdered(xs, i, j);
    }
    ValueCountsTotal(xs);
    AssigneesLength(items);
  }

  // ---------------------------------------------------------------------
  // notes_tasks

  predicate NoteOrTask(h: HistoryRow)
  {
    h.changedField == Some("Note") || h.changedField == Some("Task")
  }

  /**
   * The ChangedBy values of the history rows kept by
   * `ChangedBy.isin(AssignedTo) & ChangedField.isin(['Note', 'Task'])`;
   * `groupby('ChangedBy')` drops a null one.
   */
  function NoteTaskAuthors(history: seq<HistoryRow>, assignees: seq<string>): seq<string>
  {
    if |history| == 0 then []
    else
      var h := history[0];
      (if h.changedBy.Some? && h.changedBy.value in assignees && NoteOrTask(h) then [h.changedBy.value] else [])
      + NoteTaskAuthors(history[1..], assignees)
  }

  /** The notes and tasks a user wrote, read row by row. */
  function NotesBy(history: seq<HistoryRow>, u: string): nat
  {
    if |history| == 0 then 0
    else (if history[0].changedBy == Some(u) && NoteOrTask(history[0]) then 1 else 0) + NotesBy(history[1..], u)
  }

  /** A user is counted once per note or task it wrote when it is an assignee, and never otherwise. */
  lemma {:induction false} NoteTaskAuthorsCount(history: seq<HistoryRow>, assignees: seq<string>, u: string)
    ensures Count(NoteTaskAuthors(history, assignees), u) == if u in assignees then NotesBy(history, u) else 0
  {
    if |history| > 0 {
      var h := history[0];
      var first := if h.changedBy.Some? && h.changedBy.value in assignees && NoteOrTask(h) then [h.changedBy.value] else [];
      CountAppend(first, NoteTaskAuthors(history[1..], assignees), u);
      NoteTaskAuthorsCount(history[1..], assignees, u);
    }
  }

  /**
   * notes_tasks: one row per assignee of a filtered item that wrote a note or
   * a task, with how many it wrote, most first; nobody else is listed.
   */
  lemma NotesTasksSpec(items: seq<WorkItem>, history: seq<HistoryRow>)
    ensures var counts := ValueCounts(NoteTaskAuthors(history, Assignees(items)));
      (forall e :: e in counts ==> Some(e.0) in Map(items, AssignedTo) && e.1 == NotesBy(history, e.0) && e.1 >= 1) &&
      (forall u :: u in Assignees(items) && NotesBy(history, u) > 0 ==> (u, NotesBy(history, u)) in counts) &&
      (forall i, j :: 0 <= i < j < |counts| ==> counts[i].1 >= counts[j].1)
  {
    var a := Assignees(items);
    var xs := NoteTaskAuthors(history, a);
    var counts := ValueCounts(xs);
    forall e | e in counts ensures Some(e.0) in Map(items, AssignedTo) && e.1 == NotesBy(history, e.0) && e.1 >= 1 {
      ValueCountsEntry(xs, e);
      NoteTaskAuthorsCount(history, a, e.0);
    }
    forall u | u in a && NotesBy(history, u) > 0 ensures (u, NotesBy(history, u)) in counts {
      NoteTaskAuthorsCount(history, a, u);
      ValueCountsCover(xs, u);
    }
    forall i, j | 0 <= i < j < |counts| ensures counts[i].1 >= counts[j].1 {
      ValueCountsOrdered(xs, i, j);
    }
  }

  // ---------------------------------------------------------------------
  // avg_resolution

  /** The OpenToClosed_Min values of a user's rows of the merge; `mean()` skips nulls. */
  function UserMinutes(merged: seq<Merged>, u: string): seq<int>
  {
    if |merged| == 0 then []
    else
      var m := merged[0];
      (if m.item.assignedTo == Some(u) && m.duration.Some? && m.duration.value.openToClosed.Some?
       then [m.duration.value.openToClosed.value] else [])
      + UserMinutes(merged[1..], u)
  }

  /**
   * A user's average: NaN without any minutes, else the mean of the minutes
   * over 60 rounded to two decimals, which `meanHours` supplies.
   */
  function UserHours(merged: seq<Merged>, u: string, meanHours: seq<int> -> int): (r: Option<int>)
    ensures r.None? <==> |UserMinutes(merged, u)| == 0
  {
    var ms := UserMinutes(merged, u);
    if |ms| == 0 then None else Some(meanHours(ms))
  }

  function AvgRows(users: seq<string>, merged: seq<Merged>, meanHours: seq<int> -> int): (r: seq<AvgRow>)
    ensures |r| == |users|
    ensures forall i :: 0 <= i < |users| ==> r[i] == AvgRow(users[i], UserHours(merged, users[i], meanHours))
  {
    if |users| == 0 then [] else [AvgRow(users[0], UserHours(merged, users[0], meanHours))] + AvgRows(users[1..], merged, meanHours)
  }

  function HoursOf(r: AvgRow): Option<int>
  {
    r.hours
  }

  /** `sort_values('AvgResolutionHours')`: ascending, NaN last. */
  function ByHours(present: seq<int>): AvgRow -> int
  {
    (r: AvgRow) => NaLastRank(present, r.hours)
  }

  function AvgResolutionRows(items: seq<WorkItem>, durations: seq<DurationRow>, meanHours: seq<int> -> int): seq<AvgRow>
  {
    var rows := AvgRows(Distinct(Assignees(items)), LeftMerge(items, durations), meanHours);
    SortBy(rows, ByHours(Somes(Map(rows, HoursOf))))
  }

  /** Sorting the per-user rows keeps one row per listed user, with its average, and no other. */
  lemma SortedAvgRows(users: seq<string>, merged: seq<Merged>, meanHours: seq<int> -> int, key: AvgRow -> int)
    ensures var rows := SortBy(AvgRows(users, merged, meanHours), key);
      (forall r :: r in rows ==> r.user in users && r.hours == UserHours(merged, r.user, meanHours)) &&
      (forall u :: u in users ==> exists r :: r in rows && r.user == u)
  {
    var unsorted := AvgRows(users, merged, meanHours);
    var rows := SortBy(unsorted, key);
    forall r | r in rows ensures r.user in users && r.hours == UserHours(merged, r.user, meanHours) {
      assert r in multiset(rows);
      var k :| 0 <= k < |unsorted| && unsorted[k] == r;
    }
    forall u | u in users ensures exists r :: r in rows && r.user == u {
      var k :| 0 <= k < |users| && users[k] == u;
      SortByKeeps(unsorted, key, k);
    }
  }

  /** Users listed once stay listed once after sorting. */
  lemma SortedAvgRowsDistinct(users: seq<string>, merged: seq<Merged>, meanHours: seq<int> -> int, key: AvgRow -> int)
    requires NoDuplicates(users)
    ensures var rows := SortBy(AvgRows(users, merged, meanHours), key);
      forall i, j :: 0 <= i < j < |rows| ==> rows[i].user != rows[j].user
  {
    var unsorted := AvgRows(users, merged, meanHours);
    var rows := SortBy(unsorted, key);
    assert NoDuplicates(unsorted) by {
      forall a, b | 0 <= a < b < |unsorted| ensures unsorted[a] != unsorted[b] {
        assert unsorted[a].user == users[a] && unsorted[b].user == users[b];
      }
    }
    PermutationNoDuplicates(unsorted, rows);
    SortedAvgRows(users, merged, meanHours, key);
    forall i, j | 0 <= i < j < |rows| ensures rows[i].user != rows[j].user {
      assert rows[i] in rows && rows[j] in rows;
    }
  }

  /**
   * avg_resolution lists every assignee of the filtered items once, and
   * nobody else, with its average.
   */
  lemma AvgResolutionUsers(items: seq<WorkItem>, durations: seq<DurationRow>, meanHours: seq<int> -> int)
    ensures var rows := AvgResolutionRows(items, durations, meanHours);
      (forall r :: r in rows ==> r.user in Assignees(items) && r.hours == UserHours(LeftMerge(items, durations), r.user, meanHours)) &&
      (forall u :: u in Assignees(items) ==> exists r :: r in rows && r.user == u) &&
      (forall i, j :: 0 <= i < j < |rows| ==> rows[i].user != rows[j].user)
  {
    var users, merged := Distinct(Assignees(items)), LeftMerge(items, durations);
    var key := ByHours(Somes(Map(AvgRows(users, merged, meanHours), HoursOf)));
    assert AvgResolutionRows(items, durations, meanHours) == SortBy(AvgRows(users, merged, meanHours), key);
    SortedAvgRows(users, merged, meanHours, key);
    SortedAvgRowsDistinct(users, merged, meanHours, key);
  }

  /** avg_resolution is ascending in the average, the users without one (NaN) last. */
  lemma AvgResolutionOrdered(items: seq<WorkItem>, durations: seq<DurationRow>, meanHours: seq<int> -> int)
    ensures var rows := AvgResolutionRows(items, durations, meanHours);
      forall i, j :: 0 <= i < j < |rows| ==>
        (rows[i].hours.None? ==> rows[j].hours.None?) &&
        (rows[i].hours.Some? && rows[j].hours.Some? ==> rows[i].hours.value <= rows[j].hours.value)
  {
    var unsorted := AvgRows(Distinct(Assignees(items)), LeftMerge(items, durations), meanHours);
    var present := Somes(Map(unsorted, HoursOf));
    var rows := SortBy(unsorted, ByHours(present));
    forall i, j | 0 <= i < j < |rows|
      ensures (rows[i].hours.None? ==> rows[j].hours.None?) &&
              (rows[i].hours.Some? && rows[j].hours.Some? ==> rows[i].hours.value <= rows[j].hours.value)
    {
      assert rows[i] in multiset(unsorted) && rows[j] in multiset(unsorted);
      HoursPresent(unsorted, rows[i]);
      HoursPresent(unsorted, rows[j]);
      assert ByHours(present)(rows[i]) <= ByHours(present)(rows[j]);
      NaLastRankOrder(present, rows[i].hours, rows[j].hours);
    }
  }

  /** A listed row's average is among the averages present. */
  lemma HoursPresent(rows: seq<AvgRow>, r: AvgRow)
    requires r in rows
    ensures r.hours.Some? ==> r.hours.value in Somes(Map(rows, HoursOf))
  {
    var i :| 0 <= i < |rows| && rows[i] == r;
    assert Map(rows, HoursOf)[i] == r.hours;
  }

  // ---------------------------------------------------------------------
  // top_performers

  /** The tickets frame merged with the averages: one row per assignee. */
  function PerformerRows(users: seq<string>, assignees: seq<string>, merged: seq<Merged>, meanHours: seq<int> -> int): (r: seq<Performer>)
    ensures |r| == |users|
    ensures forall i :: 0 <= i < |users| ==>
      r[i] == Performer(users[i], Count(assignees, users[i]), UserHours(merged, users[i], meanHours))
  {
    if |users| == 0 then []
    else [Performer(users[0], Count(assignees, users[0]), UserHours(merged, users[0], meanHours))]
         + PerformerRows(users[1..], assignees, merged, meanHours)
  }

  function PerformerHours(p: Performer): Option<int>
  {
    p.hours
  }

  /**
   * `sort_values(['TicketsHandled', 'AvgResolutionHours'], ascending=[False, True])`:
   * tickets descending (no count exceeds `n`, the number of assigned items), then the average ascending, NaN last.
   */
  function ByTicketsThenHours(present: seq<int>, n: nat): Performer -> int
  {
    (p: Performer) => LexKey(Max0(n - p.tickets), NaLastRank(present, p.hours), |SortedUniqueInts(present)| + 1)
  }

  function TopPerformerRows(items: seq<WorkItem>, durations: seq<DurationRow>, meanHours: seq<int> -> int): seq<Performer>
  {
    var rows := PerformerRows(Distinct(Assignees(items)), Assignees(items), LeftMerge(items, durations), meanHours);
    SortBy(rows, ByTicketsThenHours(Somes(Map(rows, PerformerHours)), |Assignees(items)|))
  }

  /** Sorting the performer rows keeps one row per listed user, with its tickets and average, and no other. */
  lemma SortedPerformers(users: seq<string>, assignees: seq<string>, merged: seq<Merged>, meanHours: seq<int> -> int, key: Performer -> int)
    ensures var rows := SortBy(PerformerRows(users, assignees, merged, meanHours), key);
      (forall r :: r in rows ==> r.user in users && r.tickets == Count(assignees, r.user) && r.hours == UserHours(merged, r.user, meanHours)) &&
      (forall u :: u in users ==> exists r :: r in rows && r.user == u)
  {
    var unsorted := PerformerRows(users, assignees, merged, meanHours);
    var rows := SortBy(unsorted, key);
    forall r | r in rows ensures r.user in users && r.tickets == Count(assignees, r.user) && r.hours == UserHours(merged, r.user, meanHours) {
      assert r in multiset(rows);
      var k :| 0 <= k < |unsorted| && unsorted[k] == r;
    }
    forall u | u in users ensures exists r :: r in rows && r.user == u {
      var k :| 0 <= k < |users| && users[k] == u;
      SortByKeeps(unsorted, key, k);
    }
  }

  /** Users listed once stay listed once after sorting. */
  lemma SortedPerformersDistinct(users: seq<string>, assignees: seq<string>, merged: seq<Merged>, meanHours: seq<int> -> int, key: Performer -> int)
    requires NoDuplicates(users)
    ensures var rows := SortBy(PerformerRows(users, assignees, merged, meanHours), key);
      forall i, j :: 0 <= i < j < |rows| ==> rows[i].user != rows[j].user
  {
    var unsorted := PerformerRows(users, assignees, merged, meanHours);
    var rows := SortBy(unsorted, key);
    assert NoDuplicates(unsorted) by {
      forall a, b | 0 <= a < b < |unsorted| ensures unsorted[a] != unsorted[b] {
        assert unsorted[a].user == users[a] && unsorted[b].user == users[b];
      }
    }
    PermutationNoDuplicates(unsorted, rows);
    SortedPerformers(users, assignees, merged, meanHours, key);
    forall i, j | 0 <= i < j < |rows| ensures rows[i].user != rows[j].user {
      assert rows[i] in rows && rows[j] in rows;
    }
  }

  /**
   * top_performers lists every assignee once, and nobody else, with its
   * number of tickets and its average.
   */
  lemma TopPerformersUsers(items: seq<WorkItem>, durations: seq<DurationRow>, meanHours: seq<int> -> int)
    ensures var rows := TopPerformerRows(items, durations, meanHours);
      (forall r :: r in rows ==> r.user in Assignees(items) && r.tickets == Count(Assignees(items), r.user) &&
                                 r.hours == UserHours(LeftMerge(items, durations), r.user, meanHours)) &&
      (forall u :: u in Assignees(items) ==> exists r :: r in rows && r.user == u) &&
      (forall i, j :: 0 <= i < j < |rows| ==> rows[i].user != rows[j].user)
  {
    var users, merged := Distinct(Assignees(items)), LeftMerge(items, durations);
    var unsorted := PerformerRows(users, Assignees(items), merged, meanHours);
    var key := ByTicketsThenHours(Somes(Map(unsorted, PerformerHours)), |Assignees(items)|);
    assert TopPerformerRows(items, durations, meanHours) == SortBy(unsorted, key);
    SortedPerformers(users, Assignees(items), merged, meanHours, key);
    SortedPerformersDistinct(users, Assignees(items), merged, meanHours, key);
  }

  /** Row `a` may come before row `b`: more tickets, or as many and the smaller average, NaN last. */
  predicate RanksBefore(a: Performer, b: Performer)
  {
    a.tickets > b.tickets ||
    (a.tickets == b.tickets && (a.hours.None? ==> b.hours.None?) &&
     (a.hours.Some? && b.hours.Some? ==> a.hours.value <= b.hours.value))
  }

  predicate InPerformerOrder(rows: seq<Performer>)
  {
    forall i, j :: 0 <= i < j < |rows| ==> RanksBefore(rows[i], rows[j])
  }

  /** Two rows in key order: more tickets first, and on equal tickets the smaller average, NaN last. */
  lemma PerformerKeyOrder(present: seq<int>, n: nat, a: Performer, b: Performer)
    requires a.tickets <= n && b.tickets <= n
    requires a.hours.Some? ==> a.hours.value in present
    requires b.hours.Some? ==> b.hours.value in present
    requires ByTicketsThenHours(present, n)(a) <= ByTicketsThenHours(present, n)(b)
    ensures RanksBefore(a, b)
  {
    var width := |SortedUniqueInts(present)| + 1;
    LexKeyOrder(Max0(n - a.tickets), NaLastRank(present, a.hours), Max0(n - b.tickets), NaLastRank(present, b.hours), width);
    if a.tickets == b.tickets {
      NaLastRankOrder(present, a.hours, b.hours);
    }
  }

  /** A listed row's average is among the averages present. */
  lemma PerformerHoursPresent(rows: seq<Performer>, r: Performer)
    requires r in rows
    ensures r.hours.Some? ==> r.hours.value in Somes(Map(rows, PerformerHours))
  {
    var i :| 0 <= i < |rows| && rows[i] == r;
    assert Map(rows, PerformerHours)[i] == r.hours;
  }

  /** Two rows of the sorted performer rows, in (tickets descending, average ascending) order. */
  lemma SortedPerformerPair(unsorted: seq<Performer>, assignees: seq<string>, rows: seq<Performer>, i: nat, j: nat)
    requires forall r :: r in unsorted ==> r.tickets == Count(assignees, r.user)
    requires rows == SortBy(unsorted, ByTicketsThenHours(Somes(Map(unsorted, PerformerHours)), |assignees|))
    requires i < j < |rows|
    ensures RanksBefore(rows[i], rows[j])
  {
    var present := Somes(Map(unsorted, PerformerHours));
    assert rows[i] in multiset(unsorted) && rows[j] in multiset(unsorted);
    PerformerHoursPresent(unsorted, rows[i]);
    PerformerHoursPresent(unsorted, rows[j]);
    PerformerKeyOrder(present, |assignees|, rows[i], rows[j]);
  }

  /** Sorted by the two-column key, the rows are in (tickets descending, average ascending) order. */
  lemma SortedPerformersOrdered(users: seq<string>, assignees: seq<string>, merged: seq<Merged>, meanHours: seq<int> -> int)
    ensures var unsorted := PerformerRows(users, assignees, merged, meanHours);
      var rows := SortBy(unsorted, ByTicketsThenHours(Somes(Map(unsorted, PerformerHours)), |assignees|));
      InPerformerOrder(rows)
  {
    var unsorted := PerformerRows(users, assignees, merged, meanHours);
    var rows := SortBy(unsorted, ByTicketsThenHours(Somes(Map(unsorted, PerformerHours)), |assignees|));
    forall r | r in unsorted ensures r.tickets == Count(assignees, r.user) {
      var k :| 0 <= k < |unsorted| && unsorted[k] == r;
    }
    forall i, j | 0 <= i < j < |rows| ensures RanksBefore(rows[i], rows[j]) {
      SortedPerformerPair(unsorted, assignees, rows, i, j);
    }
  }

  /**
   * top_performers is ordered by tickets descending and, among equal
   * tickets, by average ascending with NaN last.
   */
  lemma TopPerformersOrdered(items: seq<WorkItem>, durations: seq<DurationRow>, meanHours: seq<int> -> int)
    ensures var rows := TopPerformerRows(items, durations, meanHours);
      InPerformerOrder(rows)
  {
    var users, merged := Distinct(Assignees(items)), LeftMerge(items, durations);
    var unsorted := PerformerRows(users, Assignees(items), merged, meanHours);
    assert TopPerformerRows(items, durations, meanHours) ==
      SortBy(unsorted, ByTicketsThenHours(Somes(Map(unsorted, PerformerHours)), |Assignees(items)|));
    SortedPerformersOrdered(users, Assignees(items), merged, meanHours);
  }

  // ---------------------------------------------------------------------
  // The dispatcher

  /** `prepare_user_performance_data`: the frame for the chosen chart type, an empty frame for any other. */
  function PrepareUserPerformance(items: seq<WorkItem>, durations: seq<DurationRow>, history: seq<HistoryRow>,
                                  chartType: string, meanHours: seq<int> -> int): UserData
  {
    if chartType == "tickets_handled" then TicketsHandled(ValueCounts(Assignees(items)))
    else if chartType == "avg_resolution" then AvgResolution(AvgResolutionRows(items, durations, meanHours))
    else if chartType == "notes_tasks" then NotesTasks(ValueCounts(NoteTaskAuthors(history, Assignees(items))))
    else if chartType == "top_performers" then TopPerformers(TopPerformerRows(items, durations, meanHours))
    else NoData
  }

  /**
   * An unknown chart type gives the empty frame; every frame only names
   * users that are assignees of the items it was given.
   */
  lemma UserPerformanceSpec(items: seq<WorkItem>, durations: seq<DurationRow>, history: seq<HistoryRow>,
                            chartType: string, meanHours: seq<int> -> int)
    ensures var r := PrepareUserPerformance(items, durations, history, chartType, meanHours);
      (r.NoData? <==> chartType !in ["tickets_handled", "avg_resolution", "notes_tasks", "top_performers"]) &&
      (r.TicketsHandled? ==> forall e :: e in r.tickets ==> Some(e.0) in Map(items, AssignedTo)) &&
      (r.NotesTasks? ==> forall e :: e in r.notes ==> Some(e.0) in Map(items, AssignedTo)) &&
      (r.AvgResolution? ==> forall a :: a in r.averages ==> a.user in Assignees(items)) &&
      (r.TopPerformers? ==> forall p :: p in r.performers ==> p.user in Assignees(items))
  {
    if chartType == "tickets_handled" {
      TicketsHandledSpec(items);
    } else if chartType == "avg_resolution" {
      AvgResolutionUsers(items, durations, meanHours);
    } else if chartType == "notes_tasks" {
      NotesTasksSpec(items, history);
    } else if chartType == "top_performers" {
      TopPerformersUsers(items, durations, meanHours);
    }
  }
}
