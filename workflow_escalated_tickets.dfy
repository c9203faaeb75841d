/**
 * The escalated-tickets panel: its dataset filter (each date bound on its
 * own, comma-split lists), the escalation category of a ticket, the
 * day/hour/minute duration text, the current and assignee views, the
 * summary counts, the duration bins, the category quick-select and the
 * modal toggle.
 */
module WorkflowEscalatedTickets {
  import opened Common
  import opened WorkflowData
  import opened WorkflowFilters
  import WorkflowSummaryCards
  import WorkflowAssigneeWorkload
  import CD = ComplianceData
  import CC = ComplianceCallbacks

  // ---------------------------------------------------------------------
  // Reading the store

  /** The list for one dropdown as written: the entry stripped, split on ",", each piece stripped, blanks dropped; quotes stay. */
  function CommaValuesAsWritten(text: string): seq<string>
  {
    Map(Filter(Split(Strip(text), ","), Filled), Strip)
  }

  /** The list for one dropdown as the store encoding means it: each piece also loses its quotes. */
  function CommaValues(text: string): seq<string>
  {
    Map(Filter(Split(Strip(text), ","), Filled), CD.StoreToken)
  }

  /** A piece that is not blank once stripped. */
  predicate Filled(v: string)
  {
    Strip(v) != ""
  }

  /** The dropdowns this panel filters on, in its order; the case-reason dropdown is not among them. */
  const EscalatedFilterOrder: seq<Dimension> :=
    [AorDim, CaseTypeDim, StatusDim, PriorityDim, OriginDim, ProductDim, FeatureDim, ModuleDim, IssueDim]

  /** A non-empty list admits the rows whose cell is one of its values; an empty list admits every row. */
  predicate Listed(vals: seq<string>, cell: Option<string>)
  {
    |vals| == 0 || (cell.Some? && cell.value in vals)
  }

  /** Each date bound applies on its own; a row without CreatedOn fails any bound that applies. */
  predicate InDates(st: Store, w: WorkItem)
  {
    (DateOf(st, "Day_From").Some? ==> w.createdOn.Some? && w.createdOn.value >= DayStart(DateOf(st, "Day_From").value)) &&
    (DateOf(st, "Day_To").Some? ==> w.createdOn.Some? && w.createdOn.value <= DayStart(DateOf(st, "Day_To").value))
  }

  /** The chain of list filters for the given dropdowns, with the given list reader. */
  function NarrowListed(rows: seq<WorkItem>, st: Store, read: string -> seq<string>, dims: seq<Dimension>): seq<WorkItem>
    decreases |dims|
  {
    if |dims| == 0 then rows
    else
      var vals := read(TextOr(st, StoreKey(dims[0])));
      var d := dims[0];
      NarrowListed(Filter(rows, (w: WorkItem) => Listed(vals, ItemCell(w, d))), st, read, dims[1..])
  }

  predicate ListedAll(st: Store, read: string -> seq<string>, dims: seq<Dimension>, w: WorkItem)
  {
    forall i :: 0 <= i < |dims| ==> Listed(read(TextOr(st, StoreKey(dims[i]))), ItemCell(w, dims[i]))
  }

  /** The chain keeps exactly the rows every listed dropdown admits, in order. */
  lemma {:induction false} NarrowListedSpec(rows: seq<WorkItem>, st: Store, read: string -> seq<string>, dims: seq<Dimension>)
    ensures NarrowListed(rows, st, read, dims) == Filter(rows, (w: WorkItem) => ListedAll(st, read, dims, w))
    decreases |dims|
  {
    var all := (w: WorkItem) => ListedAll(st, read, dims, w);
    if |dims| == 0 {
      FilterAll(rows, all);
    } else {
      var d := dims[0];
      var vals := read(TextOr(st, StoreKey(d)));
      var first := (w: WorkItem) => Listed(vals, ItemCell(w, d));
      var rest := (w: WorkItem) => ListedAll(st, read, dims[1..], w);
      NarrowListedSpec(Filter(rows, first), st, read, dims[1..]);
      forall w | w in rows ensures all(w) == (first(w) && rest(w)) {
        if first(w) && rest(w) {
          forall i | 0 <= i < |dims| ensures Listed(read(TextOr(st, StoreKey(dims[i]))), ItemCell(w, dims[i])) {
            if i > 0 { assert dims[i] == dims[1..][i - 1]; }
          }
        }
        if all(w) {
          assert Listed(read(TextOr(st, StoreKey(dims[0]))), ItemCell(w, dims[0]));
          forall i | 0 <= i < |dims[1..]| ensures Listed(read(TextOr(st, StoreKey(dims[1..][i]))), ItemCell(w, dims[1..][i])) {
            assert dims[1..][i] == dims[i + 1];
          }
        }
      }
      FilterThen(rows, first, rest, all);
    }
  }

  /** `apply_escalated_tickets_filters` with a list reader: a missing store is empty; dates, then the nine lists. */
  function EscalatedFilterWith(items: seq<WorkItem>, stored: Option<Store>, read: string -> seq<string>): seq<WorkItem>
  {
    var st := if stored.Some? then stored.value else Store(map[], map[]);
    NarrowListed(Filter(items, (w: WorkItem) => InDates(st, w)), st, read, EscalatedFilterOrder)
  }

  function EscalatedFilterAsWritten(items: seq<WorkItem>, stored: Option<Store>): seq<WorkItem>
  {
    EscalatedFilterWith(items, stored, CommaValuesAsWritten)
  }

  function EscalatedFilter(items: seq<WorkItem>, stored: Option<Store>): seq<WorkItem>
  {
    EscalatedFilterWith(items, stored, CommaValues)
  }

  /** The filter keeps, in order, exactly the rows inside both applicable date bounds that every non-empty list admits. */
  lemma EscalatedFilterSpec(items: seq<WorkItem>, st: Store, read: string -> seq<string>)
    ensures EscalatedFilterWith(items, Some(st), read) ==
      Filter(items, (w: WorkItem) => InDates(st, w) && ListedAll(st, read, EscalatedFilterOrder, w))
  {
    DatesThenLists(items, st, read, EscalatedFilterOrder);
  }

  /** A missing store reads as an empty one: no date bound and no list applies. */
  lemma MissingStoreIsEmpty(items: seq<WorkItem>, read: string -> seq<string>)
    ensures EscalatedFilterWith(items, None, read) == EscalatedFilterWith(items, Some(Store(map[], map[])), read)
    ensures forall w :: InDates(Store(map[], map[]), w)
  {
  }

  lemma DatesThenLists(items: seq<WorkItem>, st: Store, read: string -> seq<string>, dims: seq<Dimension>)
    ensures NarrowListed(Filter(items, (w: WorkItem) => InDates(st, w)), st, read, dims) ==
      Filter(items, (w: WorkItem) => InDates(st, w) && ListedAll(st, read, dims, w))
  {
    var dates := (w: WorkItem) => InDates(st, w);
    var lists := (w: WorkItem) => ListedAll(st, read, dims, w);
    NarrowListedSpec(Filter(items, dates), st, read, dims);
    FilterThen(items, dates, lists, (w: WorkItem) => InDates(st, w) && ListedAll(st, read, dims, w));
  }

  /** A quoted entry written by the panel, stripped, needs no more stripping. */
  lemma QuotedListStripped(xs: seq<string>)
    requires IsActive(Some(xs)) && forall x :: x in xs ==> CC.Quotable(x)
    ensures Strip(QuotedList(Some(xs))) == QuotedList(Some(xs))
  {
    var qs := Map(xs, Quote);
    var text := Join(qs, ", ");
    JoinEnds(qs);
    LStripKeeps(text, Whitespace);
    RStripKeeps(text, Whitespace);
  }

  /** A ", "-joined list of quoted items starts and ends with a quote. */
  lemma {:induction false} JoinEnds(qs: seq<string>)
    requires |qs| > 0 && forall i :: 0 <= i < |qs| ==> |qs[i]| > 0 && qs[i][0] == '\'' && qs[i][|qs[i]| - 1] == '\''
    ensures var t := Join(qs, ", "); |t| > 0 && t[0] == '\'' && t[|t| - 1] == '\''
  {
    if |qs| > 1 {
      JoinEnds(qs[1..]);
    }
  }

  /** The pieces of a written entry after the first split, stripped, are the quoted items. */
  lemma SplitPiecesQuoted(xs: seq<string>)
    requires IsActive(Some(xs)) && forall x :: x in xs ==> CC.Quotable(x)
    ensures Split(Strip(QuotedList(Some(xs))), ",") == Spaced(Map(xs, Quote))
  {
    QuotedListStripped(xs);
    CC.QuotesCommaFree(xs);
    CC.SplitSpaced(Map(xs, Quote));
    forall i | 0 <= i < |xs| ensures |Map(xs, Quote)[i]| > 0 && Map(xs, Quote)[i][0] == '\'' && Map(xs, Quote)[i][|Map(xs, Quote)[i]| - 1] == '\'' {
    }
  }

  lemma SpacedQuoteStripped(xs: seq<string>, i: nat)
    requires i < |xs|
    ensures Strip(Spaced(Map(xs, Quote))[i]) == Quote(xs[i])
  {
    var qs := Map(xs, Quote);
    assert qs[i] == Quote(xs[i]);
    StripQuotedPiece(xs[i], Spaced(qs)[i]);
  }

  /** A quoted piece, with or without the one leading space the split leaves, strips to the quoted piece. */
  lemma StripQuotedPiece(x: string, piece: string)
    requires piece == Quote(x) || piece == " " + Quote(x)
    ensures Strip(piece) == Quote(x)
  {
    var q := Quote(x);
    assert q == ['\''] + x + ['\''];
    LStripKeeps(q, Whitespace);
    RStripKeeps(q, Whitespace);
    if piece != q {
      assert piece[1..] == q;
    }
  }

  /** Reading pieces that are all filled maps each of them. */
  lemma ReadPieces(text: string, pieces: seq<string>, f: string -> string, want: seq<string>)
    requires Split(Strip(text), ",") == pieces && |want| == |pieces|
    requires forall i :: 0 <= i < |pieces| ==> Filled(pieces[i]) && f(pieces[i]) == want[i]
    ensures Map(Filter(Split(Strip(text), ","), Filled), f) == want
  {
    forall x | x in pieces ensures Filled(x) {
      var i :| 0 <= i < |pieces| && pieces[i] == x;
    }
    FilterAll(pieces, Filled);
  }

  /**
   * As written the reader keeps the quotes: a selection the panel stored
   * reads back as the quoted items, so no unquoted cell can match.
   */
  lemma AsWrittenKeepsQuotes(xs: seq<string>)
    requires IsActive(Some(xs)) && forall x :: x in xs ==> CC.Quotable(x)
    ensures CommaValuesAsWritten(QuotedList(Some(xs))) == Map(xs, Quote)
  {
    var qs := Map(xs, Quote);
    var pieces := Spaced(qs);
    SplitPiecesQuoted(xs);
    forall i | 0 <= i < |pieces| ensures Filled(pieces[i]) && Strip(pieces[i]) == qs[i] {
      SpacedQuoteStripped(xs, i);
    }
    ReadPieces(QuotedList(Some(xs)), pieces, Strip, qs);
  }

  /** With the quotes removed as well, a stored selection reads back item for item. */
  lemma CommaValuesRoundTrip(xs: seq<string>)
    requires IsActive(Some(xs)) && forall x :: x in xs ==> CC.Quotable(x)
    ensures CommaValues(QuotedList(Some(xs))) == xs
  {
    var pieces := Spaced(Map(xs, Quote));
    SplitPiecesQuoted(xs);
    forall i | 0 <= i < |pieces| ensures Filled(pieces[i]) && CD.StoreToken(pieces[i]) == xs[i] {
      SpacedQuoteStripped(xs, i);
      assert xs[i] in xs;
      CC.TokenOfQuoted(xs[i]);
      assert Quote(xs[i]) != "";
    }
    ReadPieces(QuotedList(Some(xs)), pieces, CD.StoreToken, xs);
  }

  /**
   * The consequence as written: once any filtered dropdown holds a
   * selection, a ticket whose cell does not start with a quote is dropped,
   * whatever its value, so every real ticket disappears from the panel.
   */
  lemma ActiveSelectionDropsAll(items: seq<WorkItem>, start: Option<int>, end: Option<int>, today: int, s: Selections, d: Dimension, w: WorkItem)
    requires d in EscalatedFilterOrder && IsActive(SelectionFor(s, d))
    requires forall x :: x in SelectionFor(s, d).value ==> CC.Quotable(x)
    requires ItemCell(w, d).Some? ==> |ItemCell(w, d).value| == 0 || ItemCell(w, d).value[0] != '\''
    ensures w !in EscalatedFilterAsWritten(items, Some(FilterDataQuery(start, end, today, s)))
  {
    FilterDataQueryText(start, end, today, s, d);
    QuotedEntryDrops(items, FilterDataQuery(start, end, today, s), SelectionFor(s, d).value, d, w);
  }

  /** A store whose entry for a filtered dropdown is a quoted list drops, as written, every ticket whose cell is not quoted. */
  lemma QuotedEntryDrops(items: seq<WorkItem>, st: Store, xs: seq<string>, d: Dimension, w: WorkItem)
    requires d in EscalatedFilterOrder && IsActive(Some(xs)) && forall x :: x in xs ==> CC.Quotable(x)
    requires TextOr(st, StoreKey(d)) == QuotedList(Some(xs))
    requires ItemCell(w, d).Some? ==> |ItemCell(w, d).value| == 0 || ItemCell(w, d).value[0] != '\''
    ensures w !in EscalatedFilterAsWritten(items, Some(st))
  {
    QuotedEntryUnlisted(st, xs, d, w);
    UnlistedDropped(items, st, CommaValuesAsWritten, w);
  }

  lemma QuotedEntryUnlisted(st: Store, xs: seq<string>, d: Dimension, w: WorkItem)
    requires d in EscalatedFilterOrder && IsActive(Some(xs)) && forall x :: x in xs ==> CC.Quotable(x)
    requires TextOr(st, StoreKey(d)) == QuotedList(Some(xs))
    requires ItemCell(w, d).Some? ==> |ItemCell(w, d).value| == 0 || ItemCell(w, d).value[0] != '\''
    ensures !ListedAll(st, CommaValuesAsWritten, EscalatedFilterOrder, w)
  {
    AsWrittenKeepsQuotes(xs);
    QuotedNotListed(xs, ItemCell(w, d));
    MissesListed(st, CommaValuesAsWritten, w, d);
  }

  /** A ticket some listed dropdown rejects is not in the panel's frame. */
  lemma UnlistedDropped(items: seq<WorkItem>, st: Store, read: string -> seq<string>, w: WorkItem)
    requires !ListedAll(st, read, EscalatedFilterOrder, w)
    ensures w !in EscalatedFilterWith(items, Some(st), read)
  {
    EscalatedFilterSpec(items, st, read);
    DroppedBy(items, EscalatedFilterWith(items, Some(st), read),
      (w: WorkItem) => InDates(st, w) && ListedAll(st, read, EscalatedFilterOrder, w), w);
  }

  /** A non-empty list of quoted items admits no cell that does not start with a quote. */
  lemma QuotedNotListed(xs: seq<string>, cell: Option<string>)
    requires |xs| > 0
    requires cell.Some? ==> |cell.value| == 0 || cell.value[0] != '\''
    ensures !Listed(Map(xs, Quote), cell)
  {
    forall i | 0 <= i < |xs| ensures cell.Some? ==> Map(xs, Quote)[i] != cell.value {
      assert Quote(xs[i])[0] == '\'';
    }
  }

  /** One listed dropdown that rejects the row makes the whole chain reject it. */
  lemma MissesListed(st: Store, read: string -> seq<string>, w: WorkItem, d: Dimension)
    requires d in EscalatedFilterOrder && !Listed(read(TextOr(st, StoreKey(d))), ItemCell(w, d))
    ensures !ListedAll(st, read, EscalatedFilterOrder, w)
  {
    var i :| 0 <= i < |EscalatedFilterOrder| && EscalatedFilterOrder[i] == d;
  }

  /** With the quotes removed, a stored selection admits exactly the tickets whose cell is one of the chosen items. */
  lemma StoredSelectionListed(start: Option<int>, end: Option<int>, today: int, s: Selections, d: Dimension, cell: Option<string>)
    requires IsActive(SelectionFor(s, d)) && forall x :: x in SelectionFor(s, d).value ==> CC.Quotable(x)
    ensures var st := FilterDataQuery(start, end, today, s);
      Listed(CommaValues(TextOr(st, StoreKey(d))), cell) <==> cell.Some? && cell.value in SelectionFor(s, d).value
  {
    FilterDataQueryText(start, end, today, s, d);
    CommaValuesRoundTrip(SelectionFor(s, d).value);
  }

  // ---------------------------------------------------------------------
  // Escalation categories

  datatype EscalationCategory = CurrentEscalated | RecentlyResolved | LongDuration | OtherEscalated

  const OpenEscalationStatuses: set<string> := {"Escalated", "Existing Escalation"}
  const ClosedEscalationStatuses: set<string> := {"Escalation Resolved", "Escalation Canceled"}

  predicate Flagged(w: WorkItem)
  {
    WorkflowAssigneeWorkload.CellText(w.isEscalated) in WorkflowAssigneeWorkload.EscalationFlags
  }

  /** Whole days (floored) from escalation to closing, or to `now` while open. */
  function DaysEscalated(w: WorkItem, now: int): int
    requires w.escalatedOn.Some?
  {
    var end := if w.closedOn.Some? then w.closedOn.value else now;
    (end - w.escalatedOn.value) / 1440
  }

  /** `categorize_escalation_status`, its four tests in order; `now` is the clock reading in minutes. */
  function Categorize(w: WorkItem, now: int): EscalationCategory
  {
    var status := WorkflowAssigneeWorkload.CellText(w.status);
    if Flagged(w) && w.closedOn.None? && status in OpenEscalationStatuses then CurrentEscalated
    else if w.closedOn.Some? && status in ClosedEscalationStatuses then RecentlyResolved
    else if Flagged(w) && w.escalatedOn.Some? then
      (if DaysEscalated(w, now) > 7 then LongDuration else CurrentEscalated)
    else OtherEscalated
  }

  /**
   * The categories characterised: recently resolved iff closed with a
   * resolved or canceled escalation status; long duration only for flagged
   * tickets escalated more than 7 whole days; current only for flagged
   * tickets; everything else is other.
   */
  lemma CategorizeSpec(w: WorkItem, now: int)
    ensures Categorize(w, now) == RecentlyResolved <==>
      w.closedOn.Some? && WorkflowAssigneeWorkload.CellText(w.status) in ClosedEscalationStatuses
    ensures Categorize(w, now) == LongDuration ==>
      Flagged(w) && w.escalatedOn.Some? && DaysEscalated(w, now) > 7
    ensures Categorize(w, now) == CurrentEscalated ==> Flagged(w)
    ensures Categorize(w, now) == OtherEscalated <==>
      !(w.closedOn.Some? && WorkflowAssigneeWorkload.CellText(w.status) in ClosedEscalationStatuses) &&
      !(Flagged(w) && (w.escalatedOn.Some? || (w.closedOn.None? && WorkflowAssigneeWorkload.CellText(w.status) in OpenEscalationStatuses)))
  {
  }

  /** A ticket still open only moves from current to long duration as time passes, never back. */
  lemma LongDurationStays(w: WorkItem, now1: int, now2: int)
    requires now1 <= now2 && Categorize(w, now1) == LongDuration
    ensures Categorize(w, now2) == LongDuration
  {
    if w.closedOn.None? {
      var e := w.escalatedOn.value;
      assert (now1 - e) / 1440 <= (now2 - e) / 1440 by {
        DivMonotone(now1 - e, now2 - e);
      }
    }
  }

  lemma DivMonotone(a: int, b: int)
    requires a <= b
    ensures a / 1440 <= b / 1440
  {
  }

  /** The period dropdown: a number of days back from now, or everything. */
  datatype Period = AllTime | LastDays(days: nat)

  /** `CreatedOn >= now - days`; a ticket without CreatedOn fails the comparison. */
  function InPeriod(p: Period, now: int): WorkItem -> bool
  {
    (w: WorkItem) => p.AllTime? || (w.createdOn.Some? && w.createdOn.value >= now - p.days * 1440)
  }

  /**
   * "all" keeps every ticket; a day count keeps exactly the tickets created
   * since that many days ago, and a longer period keeps every ticket a
   * shorter one keeps.
   */
  lemma PeriodWidens(w: WorkItem, now: int, d1: nat, d2: nat)
    requires d1 <= d2
    ensures InPeriod(AllTime, now)(w)
    ensures InPeriod(LastDays(d1), now)(w) <==> w.createdOn.Some? && w.createdOn.value >= now - d1 * 1440
    ensures InPeriod(LastDays(d1), now)(w) ==> InPeriod(LastDays(d2), now)(w)
  {
    assert d1 * 1440 <= d2 * 1440;
  }

  // ---------------------------------------------------------------------
  // Durations

  /** This panel's `format_duration`: "0h" for null or zero; days and hours past a day, hours and minutes past an hour, else minutes. */
  function EscalationDuration(minutes: Option<int>): string
  {
    if minutes.None? || minutes.value == 0 then "0h"
    else
      var m := minutes.value;
      var hours := TruncDiv(m, 60);
      var rem := m % 60;
      var days := TruncDiv(hours, 24);
      if days > 0 then IntToString(days) + "d " + IntToString(hours % 24) + "h"
      else if hours > 0 then IntToString(hours) + "h " + IntToString(rem) + "m"
      else IntToString(rem) + "m"
  }

  /**
   * Against the summary cards' format: below an hour both print the
   * minutes; below a day both print hours and minutes unless the minutes are
   * zero, where this panel still prints "0m".
   */
  lemma DurationAgreesBelowDay(m: nat)
    requires 0 < m < 1440
    ensures m < 60 ==> EscalationDuration(Some(m)) == WorkflowSummaryCards.FormatDuration(m)
    ensures 60 <= m && m % 60 != 0 ==> EscalationDuration(Some(m)) == WorkflowSummaryCards.FormatDuration(m)
    ensures 60 <= m && m % 60 == 0 ==>
      EscalationDuration(Some(m)) == WorkflowSummaryCards.FormatDuration(m) + " 0m"
  {
    assert TruncDiv(m, 60) == m / 60;
    assert TruncDiv(m / 60, 24) == 0;
  }

  /** Past a day the minutes are dropped: two durations in the same whole hour print the same text. */
  lemma DaysHideMinutes(m1: nat, m2: nat)
    requires m1 >= 1440 && m2 >= 1440 && m1 / 60 == m2 / 60
    ensures EscalationDuration(Some(m1)) == EscalationDuration(Some(m2))
    ensures TruncDiv(TruncDiv(m1, 60), 24) > 0
  {
    assert TruncDiv(m1, 60) == m1 / 60 && TruncDiv(m2, 60) == m2 / 60;
    assert m1 / 60 >= 24;
  }

  /** `pd.cut` on the duration with right-closed bins (0,60], (60,480], (480,1440], (1440,10080], (10080,inf). */
  datatype DurationBin = UnderHour | HourToEight | EightToDay | DayToWeek | OverWeek

  /** A zero, negative or missing duration (filled with 0) falls in no bin and leaves the duration view. */
  function BinOf(minutes: Option<int>): Option<DurationBin>
  {
    var m := if minutes.Some? then minutes.value else 0;
    if m <= 0 then None
    else if m <= 60 then Some(UnderHour)
    else if m <= 480 then Some(HourToEight)
    else if m <= 1440 then Some(EightToDay)
    else if m <= 10080 then Some(DayToWeek)
    else Some(OverWeek)
  }

  function BinRank(b: DurationBin): nat
  {
    match b
    case UnderHour => 0
    case HourToEight => 1
    case EightToDay => 2
    case DayToWeek => 3
    case OverWeek => 4
  }

  /** Every positive duration has a bin, only those do, and longer durations never fall in earlier bins. */
  lemma BinOfMonotone(a: int, b: int)
    requires a <= b
    ensures BinOf(Some(a)).Some? <==> a > 0
    ensures BinOf(None).None?
    ensures a > 0 ==> BinRank(BinOf(Some(a)).value) <= BinRank(BinOf(Some(b)).value)
  {
  }

  // ---------------------------------------------------------------------
  // Views and summary

  /** A ticket with its category, as the views see it. */
  datatype Categorized = Categorized(item: WorkItem, assignee: string, category: EscalationCategory)

  function CategorizeAll(items: seq<WorkItem>, now: int, titleize: string -> string): seq<Categorized>
  {
    Map(items, (w: WorkItem) => Categorized(w, WorkflowAssigneeWorkload.FormatAssigneeName(w.assignedTo, titleize), Categorize(w, now)))
  }

  function EscalatedAt(c: Categorized): int
  {
    if c.item.escalatedOn.Some? then c.item.escalatedOn.value else 0
  }

  predicate IsCurrent(c: Categorized) { c.category == CurrentEscalated }
  predicate IsDated(c: Categorized) { c.item.escalatedOn.Some? }
  predicate IsUndated(c: Categorized) { c.item.escalatedOn.None? }

  /** The current tickets with an escalation time, oldest escalation first, followed by the undated ones. */
  function CurrentOrder(rows: seq<Categorized>): seq<Categorized>
  {
    var current := Filter(rows, IsCurrent);
    SortBy(Filter(current, IsDated), EscalatedAt) + Filter(current, IsUndated)
  }

  /** The current view: the first 20 of that order. */
  function CurrentView(rows: seq<Categorized>): seq<Categorized>
  {
    Head(CurrentOrder(rows), 20)
  }

  /** The order holds exactly the current tickets. */
  lemma CurrentOrderMembers(rows: seq<Categorized>)
    ensures forall c :: c in CurrentOrder(rows) <==> c in rows && IsCurrent(c)
  {
    var current := Filter(rows, IsCurrent);
    var dated := Filter(current, IsDated);
    var sorted := SortBy(dated, EscalatedAt);
    assert forall c :: c in sorted <==> c in multiset(dated);
  }

  /** In the order every dated ticket precedes every undated one, and the dated ones go by escalation time. */
  lemma CurrentOrderSorted(rows: seq<Categorized>)
    ensures forall i, j :: 0 <= i < j < |CurrentOrder(rows)| && IsDated(CurrentOrder(rows)[j]) ==>
      IsDated(CurrentOrder(rows)[i]) && EscalatedAt(CurrentOrder(rows)[i]) <= EscalatedAt(CurrentOrder(rows)[j])
  {
    var current := Filter(rows, IsCurrent);
    var dated := Filter(current, IsDated);
    var undated := Filter(current, IsUndated);
    var sorted := SortBy(dated, EscalatedAt);
    DatedThenUndated(sorted, undated, dated);
  }

  lemma DatedThenUndated(sorted: seq<Categorized>, undated: seq<Categorized>, dated: seq<Categorized>)
    requires multiset(sorted) == multiset(dated) && SortedBy(sorted, EscalatedAt)
    requires forall c :: c in dated ==> IsDated(c)
    requires forall c :: c in undated ==> !IsDated(c)
    ensures forall i, j :: 0 <= i < j < |sorted + undated| && IsDated((sorted + undated)[j]) ==>
      IsDated((sorted + undated)[i]) && EscalatedAt((sorted + undated)[i]) <= EscalatedAt((sorted + undated)[j])
  {
    var all := sorted + undated;
    forall k | 0 <= k < |sorted| ensures all[k] == sorted[k] && IsDated(all[k]) {
      assert sorted[k] in multiset(dated);
    }
    forall k | |sorted| <= k < |all| ensures !IsDated(all[k]) {
      assert all[k] == undated[k - |sorted|];
    }
  }

  /** The current view holds at most 20 tickets, all of them current. */
  lemma CurrentViewMembers(rows: seq<Categorized>)
    ensures |CurrentView(rows)| <= 20
    ensures forall c :: c in CurrentView(rows) ==> c in rows && c.category == CurrentEscalated
  {
    var all := CurrentOrder(rows);
    CurrentOrderMembers(rows);
    assert all == CurrentView(rows) + all[|CurrentView(rows)|..];
  }

  /** Within the current view, dated tickets come first and in escalation order. */
  lemma CurrentViewOrdered(rows: seq<Categorized>)
    ensures forall i, j :: 0 <= i < j < |CurrentView(rows)| && CurrentView(rows)[j].item.escalatedOn.Some? ==>
      CurrentView(rows)[i].item.escalatedOn.Some? && EscalatedAt(CurrentView(rows)[i]) <= EscalatedAt(CurrentView(rows)[j])
  {
    var all := CurrentOrder(rows);
    var view := CurrentView(rows);
    CurrentOrderSorted(rows);
    forall i, j | 0 <= i < j < |view| && IsDated(view[j])
      ensures IsDated(view[i]) && EscalatedAt(view[i]) <= EscalatedAt(view[j])
    {
      assert view[i] == all[i] && view[j] == all[j];
    }
  }

  /** Every dated ticket shown was escalated no later than every dated current ticket left out. */
  lemma CurrentViewOldestFirst(rows: seq<Categorized>)
    ensures forall c, e :: (c in CurrentView(rows) && c.item.escalatedOn.Some? && e in rows && e.category == CurrentEscalated &&
                            e.item.escalatedOn.Some? && e !in CurrentView(rows)) ==> EscalatedAt(c) <= EscalatedAt(e)
  {
    var all := CurrentOrder(rows);
    var view := CurrentView(rows);
    forall c, e | c in view && IsDated(c) && e in rows && IsCurrent(e) && IsDated(e) && e !in view
      ensures EscalatedAt(c) <= EscalatedAt(e)
    {
      CurrentOrderMembers(rows);
      var i, k := PrefixPositions(all, view, c, e);
      CurrentOrderSorted(rows);
    }
  }

  /** One row of the assignee view: the per-category counts and their sum. */
  datatype EscalationTally = EscalationTally(assignee: string, current: nat, resolved: nat, long: nat, other: nat, total: nat)

  function InCategory(k: EscalationCategory): Categorized -> bool
  {
    (c: Categorized) => c.category == k
  }

  function EscalationTallyOf(rows: seq<Categorized>, name: string): EscalationTally
  {
    var mine := Filter(rows, (c: Categorized) => c.assignee == name);
    var cur, res := |Filter(mine, InCategory(CurrentEscalated))|, |Filter(mine, InCategory(RecentlyResolved))|;
    var lng, oth := |Filter(mine, InCategory(LongDuration))|, |Filter(mine, InCategory(OtherEscalated))|;
    EscalationTally(name, cur, res, lng, oth, cur + res + lng + oth)
  }

  /** The four category counts partition the rows. */
  lemma {:induction false} CategoriesPartition(rows: seq<Categorized>)
    ensures |Filter(rows, InCategory(CurrentEscalated))| + |Filter(rows, InCategory(RecentlyResolved))| +
      |Filter(rows, InCategory(LongDuration))| + |Filter(rows, InCategory(OtherEscalated))| == |rows|
  {
    if |rows| > 0 {
      CategoriesPartition(rows[1..]);
    }
  }

  /** An assignee's row total, the sum across categories, is that assignee's number of tickets. */
  lemma TallyTotalIsTicketCount(rows: seq<Categorized>, name: string)
    ensures EscalationTallyOf(rows, name).total == |Filter(rows, (c: Categorized) => c.assignee == name)|
  {
    CategoriesPartition(Filter(rows, (c: Categorized) => c.assignee == name));
  }

  function EscalationTallyTotal(t: EscalationTally): int { -(t.total as int) }

  function AssigneeOfRow(c: Categorized): string { c.assignee }

  /** The assignee view: one row per display name, most escalations first, at most 15. */
  function AssigneeView(rows: seq<Categorized>): seq<EscalationTally>
  {
    var names := SortedUnique(Map(rows, AssigneeOfRow));
    Head(SortBy(Map(names, (n: string) => EscalationTallyOf(rows, n)), EscalationTallyTotal), 15)
  }

  /** The assignee view lists at most 15 assignees, by total in non-increasing order. */
  lemma AssigneeViewSpec(rows: seq<Categorized>)
    ensures |AssigneeView(rows)| <= 15
    ensures forall i, j :: 0 <= i < j < |AssigneeView(rows)| ==> AssigneeView(rows)[i].total >= AssigneeView(rows)[j].total
  {
    var names := SortedUnique(Map(rows, AssigneeOfRow));
    var sorted := SortBy(Map(names, (n: string) => EscalationTallyOf(rows, n)), EscalationTallyTotal);
    var view := AssigneeView(rows);
    assert view <= sorted;
    forall i, j | 0 <= i < j < |view| ensures view[i].total >= view[j].total {
      assert EscalationTallyTotal(sorted[i]) <= EscalationTallyTotal(sorted[j]);
    }
  }

  /** The summary counts of `prepare_escalated_tickets_data`. */
  datatype EscalationSummary = EscalationSummary(total: nat, current: nat, resolved: nat, long: nat, critical: nat, rate: nat)

  const CriticalPriorities: set<string> := {"Critical", "High", "Urgent"}

  function Summarize(rows: seq<Categorized>): EscalationSummary
  {
    EscalationSummary(|rows|, |Filter(rows, InCategory(CurrentEscalated))|, |Filter(rows, InCategory(RecentlyResolved))|,
      |Filter(rows, InCategory(LongDuration))|,
      |Filter(rows, (c: Categorized) => c.item.priority.Some? && c.item.priority.value in CriticalPriorities)|,
      if |rows| > 0 then 100 else 0)
  }

  /**
   * The summary: the rate compares the frame with itself, so it is 100 for
   * any ticket and 0 for none; the three category counts together never
   * exceed the total.
   */
  lemma SummarySpec(rows: seq<Categorized>)
    ensures Summarize(rows).rate == (if |rows| > 0 then 100 else 0)
    ensures var s := Summarize(rows); s.current + s.resolved + s.long <= s.total && s.critical <= s.total
  {
    CategoriesPartition(rows);
  }

  // ---------------------------------------------------------------------
  // Controls

  const DefaultCategories: seq<string> := ["current_escalated", "recently_resolved"]

  /** `handle_escalated_quick_select`. */
  function QuickSelect(trigger: string): seq<string>
  {
    if trigger == "btn-escalated-active" then ["current_escalated"]
    else if trigger == "btn-escalated-critical" then ["current_escalated", "long_duration"]
    else if trigger == "btn-escalated-all" then ["current_escalated", "recently_resolved", "long_duration", "all"]
    else DefaultCategories
  }

  /** A missing or empty category choice falls back to the two default categories. */
  function ShownCategories(selected: Option<seq<string>>): seq<string>
  {
    if selected.None? || |selected.value| == 0 then DefaultCategories else selected.value
  }

  /** Each quick-select button widens the previous one: active within critical within all; an unknown trigger gives the default. */
  lemma QuickSelectNested(other: string)
    requires other !in {"btn-escalated-active", "btn-escalated-critical", "btn-escalated-all"}
    ensures forall c :: c in QuickSelect("btn-escalated-active") ==> c in QuickSelect("btn-escalated-critical")
    ensures forall c :: c in QuickSelect("btn-escalated-critical") ==> c in QuickSelect("btn-escalated-all")
    ensures QuickSelect(other) == ShownCategories(None) == ShownCategories(Some([]))
  {
  }

  /** `toggle_escalated_tickets_modal`: a click on a chart point opens, the close button closes, anything else keeps. */
  function ModalOpen(trigger: string, clicked: bool, isOpen: bool): bool
  {
    if trigger == "workflow-escalated-tickets-chart" && clicked then true
    else if trigger == "workflow-escalated-tickets-modal-close" then false
    else isOpen
  }

  lemma ModalOpenSpec(trigger: string, clicked: bool, isOpen: bool)
    ensures trigger == "workflow-escalated-tickets-modal-close" ==> !ModalOpen(trigger, clicked, isOpen)
    ensures trigger == "workflow-escalated-tickets-chart" ==> ModalOpen(trigger, clicked, isOpen) == (clicked || isOpen)
    ensures trigger !in {"workflow-escalated-tickets-chart", "workflow-escalated-tickets-modal-close"} ==>
      ModalOpen(trigger, clicked, isOpen) == isOpen
  {
  }
}
