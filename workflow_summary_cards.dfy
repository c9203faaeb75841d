/**
 * The workflow summary cards: the store reader shared with the filter panel,
 * the dataset filter the cards apply, the duration formatter, the open and
 * escalated tests, the resolution-time collection loop and the six card values.
 */
module WorkflowSummaryCards {
  import opened Common
  import opened WorkflowData
  import opened WorkflowFilters

  // ---------------------------------------------------------------------
  // Reading the store

  const QuoteChars: set<char> := {'\''}
  const ListSep: string := ", "

  /** One token of a stored list: the quoted placeholder reads as "", any other token loses its surrounding quotes. */
  function ReadToken(item: string): string
  {
    if item != "'-'" then StripChars(item, QuoteChars) else ""
  }

  function KeepsToken(item: string): bool
  {
    StripChars(item, QuoteChars) != ""
  }

  /** One store entry as a list: split on ", ", tokens that are empty once unquoted dropped, the rest read. */
  function ParseList(text: string): seq<string>
  {
    Map(Filter(Split(text, ListSep), KeepsToken), ReadToken)
  }

  /** What `parse_filter_selections` hands to the dataset filter; missing entries are `None`. */
  datatype Parsed = Parsed(sel: Selections, start: Option<int>, end: Option<int>)

  const NothingParsed: Parsed := Parsed(NoSelections, None, None)

  /** The list stored under one dropdown's key; a missing key reads as "". */
  function ParsedFor(st: Store, d: Dimension): Selection
  {
    Some(ParseList(TextOr(st, StoreKey(d))))
  }

  /** An empty or missing store parses to no filters; otherwise every list key and both dates. */
  function ParseFilterSelections(stored: Option<Store>): (p: Parsed)
    ensures stored.None? ==> p == NothingParsed
    ensures stored.Some? && (stored.value.dates != map[] || stored.value.text != map[]) ==>
      p.start == DateOf(stored.value, "Day_From") && p.end == DateOf(stored.value, "Day_To")
  {
    if stored.None? || (stored.value.dates == map[] && stored.value.text == map[]) then NothingParsed
    else Parsed(StoredSelections(stored.value), DateOf(stored.value, "Day_From"), DateOf(stored.value, "Day_To"))
  }

  /** Reads one dropdown's list from a fixed store. */
  function ReaderOf(st: Store): Dimension -> Selection
  {
    d => ParsedFor(st, d)
  }

  /** Every dropdown's list read from the store. */
  function StoredSelections(st: Store): Selections
  {
    SelectionsFrom(ReaderOf(st))
  }

  /** A non-empty store gives every dropdown the list stored under its own key. */
  lemma ParsedSelectionFor(st: Store, d: Dimension)
    requires st.dates != map[] || st.text != map[]
    ensures SelectionFor(ParseFilterSelections(Some(st)).sel, d) == ParsedFor(st, d)
    ensures SelectionFor(StoredSelections(st), d) == ParsedFor(st, d)
  {
    assert ReaderOf(st)(d) == ParsedFor(st, d);
  }

  /** The items the store encoding carries faithfully: non-empty, not quote-delimited, free of ", ". */
  predicate Storable(x: string)
  {
    |x| > 0 && x[0] != '\'' && x[|x| - 1] != '\'' && !Contains(x, ListSep)
  }

  lemma QuoteSeparable(x: string)
    requires Storable(x)
    ensures Separable(Quote(x), ListSep)
  {
    var q := Quote(x);
    var w := q + ListSep;
    forall j | 0 <= j < |q| ensures !OccursAt(w, ListSep, j) {
      if j == 0 || j == |q| - 1 {
        assert w[j] == '\'';
      } else if j == |q| - 2 {
        assert w[j + 1] == '\'';
      } else {
        assert !OccursAt(x, ListSep, j - 1);
        assert x[j - 1] != ',' || x[j] != ' ';
        assert w[j] == x[j - 1] && w[j + 1] == x[j];
      }
    }
  }

  lemma ReadQuoted(x: string)
    requires Storable(x)
    ensures KeepsToken(Quote(x)) && ReadToken(Quote(x)) == Decode(x)
  {
    var q := Quote(x);
    assert q == ['\''] + x + ['\''];
    StripWrapped(x, '\'', QuoteChars);
    assert StripChars(q, QuoteChars) == x;
    if x != "-" {
      assert q[1..|q| - 1] == x;
      assert "'-'"[1..2] == "-";
      assert q != "'-'";
    }
  }

  /**
   * The store round trip: writing a selection with the panel's encoding and
   * reading it back gives its items with the placeholder "-" turned into "",
   * and an inactive selection reads back as the empty list.
   */
  lemma ParseQuotedList(sel: Selection)
    requires sel.Some? ==> forall x :: x in sel.value ==> Storable(x)
    ensures ParseList(QuotedList(sel)) == if IsActive(sel) then Map(sel.value, Decode) else []
  {
    if IsActive(sel) {
      ParseJoinedQuotes(sel.value);
    } else {
      ParseEmptyList();
    }
  }

  /** The empty entry reads as the empty list. */
  lemma ParseEmptyList()
    ensures ParseList("") == []
  {
    assert FindFrom("", ListSep, 0) == None;
    assert Split("", ListSep) == [""];
    assert !KeepsToken("");
    assert Filter([""], KeepsToken) == [];
  }

  /** A non-empty list of storable items, quoted and joined, reads back decoded. */
  lemma ParseJoinedQuotes(xs: seq<string>)
    requires |xs| > 0 && forall x :: x in xs ==> Storable(x)
    ensures ParseList(Join(Map(xs, Quote), ListSep)) == Map(xs, Decode)
  {
    var quoted := Map(xs, Quote);
    QuotedItemsSplit(xs);
    QuotedItemsKept(xs);
    QuotedItemsRead(xs);
    assert ParseList(Join(quoted, ListSep)) == Map(Filter(quoted, KeepsToken), ReadToken);
  }

  lemma QuotedItemsSplit(xs: seq<string>)
    requires |xs| > 0 && forall x :: x in xs ==> Storable(x)
    ensures Split(Join(Map(xs, Quote), ListSep), ListSep) == Map(xs, Quote)
  {
    var quoted := Map(xs, Quote);
    forall i | 0 <= i < |quoted| ensures Separable(quoted[i], ListSep) {
      QuoteSeparable(xs[i]);
    }
    SplitJoin(quoted, ListSep);
  }

  lemma QuotedItemsKept(xs: seq<string>)
    requires forall x :: x in xs ==> Storable(x)
    ensures Filter(Map(xs, Quote), KeepsToken) == Map(xs, Quote)
  {
    var quoted := Map(xs, Quote);
    forall q | q in quoted ensures KeepsToken(q) {
      var i :| 0 <= i < |quoted| && quoted[i] == q;
      ReadQuoted(xs[i]);
    }
    FilterAll(quoted, KeepsToken);
  }

  lemma QuotedItemsRead(xs: seq<string>)
    requires forall x :: x in xs ==> Storable(x)
    ensures Map(Map(xs, Quote), ReadToken) == Map(xs, Decode)
  {
    var read := Map(Map(xs, Quote), ReadToken);
    forall i | 0 <= i < |xs| ensures read[i] == Decode(xs[i]) {
      ReadQuoted(xs[i]);
    }
  }

  /** Reading back "-" as "" never produces the sentinel, so an active selection stays active. */
  lemma DecodedActive(xs: seq<string>)
    requires IsActive(Some(xs))
    ensures IsActive(Some(Map(xs, Decode)))
  {
    var ys := Map(xs, Decode);
    forall i | 0 <= i < |ys| ensures ys[i] != AllSentinel {
      assert xs[i] in xs;
    }
  }

  /**
   * What the panel writes, the cards read: both dates (defaulted), and for
   * every dropdown the chosen items with "-" read as "", or the empty list
   * when nothing was chosen.
   */
  lemma StoredSelectionsRoundTrip(start: Option<int>, end: Option<int>, today: int, s: Selections, d: Dimension)
    requires SelectionFor(s, d).Some? ==> forall x :: x in SelectionFor(s, d).value ==> Storable(x)
    ensures var p := ParseFilterSelections(Some(FilterDataQuery(start, end, today, s)));
      p.start == Some(if start.Some? then start.value else StartPlaceholderDay) &&
      p.end == Some(if end.Some? then end.value else today) &&
      SelectionFor(p.sel, d) == Some(if IsActive(SelectionFor(s, d)) then Map(SelectionFor(s, d).value, Decode) else [])
  {
    var st := FilterDataQuery(start, end, today, s);
    var text := QuotedList(SelectionFor(s, d));
    FilterDataQueryText(start, end, today, s, d);
    ParseQuotedList(SelectionFor(s, d));
    ReadStoreEntry(st, d, if start.Some? then start.value else StartPlaceholderDay, if end.Some? then end.value else today, text);
  }

  /** A store holding both dates and a text entry for a dropdown reads back those dates and that entry's list. */
  lemma ReadStoreEntry(st: Store, d: Dimension, from: int, to: int, text: string)
    requires "Day_From" in st.dates && st.dates["Day_From"] == from
    requires "Day_To" in st.dates && st.dates["Day_To"] == to
    requires StoreKey(d) in st.text && st.text[StoreKey(d)] == text
    ensures var p := ParseFilterSelections(Some(st));
      p.start == Some(from) && p.end == Some(to) && SelectionFor(p.sel, d) == Some(ParseList(text))
  {
    ParsedSelectionFor(st, d);
  }

  /**
   * End to end: after the round trip a dropdown admits a cell exactly when
   * the cell's value is one of the chosen items read back, and admits every
   * cell when nothing was chosen.
   */
  lemma StoredSelectionAdmits(start: Option<int>, end: Option<int>, today: int, s: Selections, d: Dimension, cell: Option<string>)
    requires SelectionFor(s, d).Some? ==> forall x :: x in SelectionFor(s, d).value ==> Storable(x)
    ensures var p := ParseFilterSelections(Some(FilterDataQuery(start, end, today, s)));
      Admits(SelectionFor(p.sel, d), cell) <==>
        (IsActive(SelectionFor(s, d)) ==> cell.Some? && cell.value in Map(SelectionFor(s, d).value, Decode))
  {
    StoredSelectionsRoundTrip(start, end, today, s, d);
    if IsActive(SelectionFor(s, d)) {
      DecodedActive(SelectionFor(s, d).value);
    }
  }

  // ---------------------------------------------------------------------
  // The dataset filter

  /** The date condition: CreatedOn within [start, end] once both bounds exist, no condition otherwise. */
  function DateTest(p: Parsed): WorkItem -> bool
  {
    if p.start.Some? && p.end.Some? then
      (w: WorkItem) => CreatedWithin(w, DayStart(p.start.value), DayStart(p.end.value))
    else
      (w: WorkItem) => true
  }

  /** The summary cards' `apply_filters_to_dataset`: an empty frame unchanged, the date range when both bounds exist, then the ten memberships. */
  function SummaryFilter(items: seq<WorkItem>, p: Parsed): seq<WorkItem>
  {
    if |items| == 0 then items
    else NarrowAll(Filter(items, DateTest(p)), ItemCell, p.sel, ItemFilterOrder)
  }

  /** The filter keeps, in order, exactly the items inside the date range that every active selection admits. */
  lemma SummaryFilterSpec(items: seq<WorkItem>, p: Parsed)
    ensures SummaryFilter(items, p) ==
      Filter(items, (w: WorkItem) => DateTest(p)(w) && MatchesAll(w, ItemCell, p.sel, ItemFilterOrder))
  {
    NarrowAfterFilter(items, DateTest(p), (w: WorkItem) => DateTest(p)(w) && MatchesAll(w, ItemCell, p.sel, ItemFilterOrder),
                      ItemCell, p.sel, ItemFilterOrder);
  }

  // ---------------------------------------------------------------------
  // Durations

  /** `format_duration` on a whole number of minutes: "0h" for zero, else hours (truncated) and the remainder. */
  function FormatDuration(minutes: int): string
  {
    if minutes == 0 then "0h"
    else
      var hours := TruncDiv(minutes, 60);
      var remaining := minutes % 60;
      if hours == 0 then IntToString(remaining) + "m"
      else if remaining == 0 then IntToString(hours) + "h"
      else (IntToString(hours) + "h") + " " + (IntToString(remaining) + "m")
  }

  /** Reads one word "<n>h" or "<n>m" as minutes. */
  function ReadWord(w: string): Option<int>
  {
    if |w| == 0 then None
    else
      var n := ParseInt(w[..|w| - 1]);
      if n.None? then None
      else if w[|w| - 1] == 'h' then Some(n.value * 60)
      else if w[|w| - 1] == 'm' then Some(n.value)
      else None
  }

  /** Reads a duration string: "Hh", "Mm" or "Hh Mm". */
  function ReadDuration(s: string): Option<int>
  {
    var parts := Split(s, " ");
    if |parts| == 1 then ReadWord(s)
    else if |parts| == 2 && |parts[0]| > 0 && parts[0][|parts[0]| - 1] == 'h' then
      (match (ReadWord(parts[0]), ReadWord(parts[1]))
       case (Some(h), Some(m)) => Some(h + m)
       case _ => None)
    else None
  }

  /** A string that splits into one word reads as that word. */
  lemma ReadOneWord(s: string)
    requires Split(s, " ") == [s]
    ensures ReadDuration(s) == ReadWord(s)
  {
  }

  /** A string that splits into an hours word and a minutes word reads as their sum. */
  lemma ReadTwoWords(s: string, a: string, b: string)
    requires Split(s, " ") == [a, b] && |a| > 0 && a[|a| - 1] == 'h' && ReadWord(a).Some? && ReadWord(b).Some?
    ensures ReadDuration(s) == Some(ReadWord(a).value + ReadWord(b).value)
  {
  }

  lemma SplitSingle(s: string)
    requires ' ' !in s
    ensures Split(s, " ") == [s]
  {
    CharFreeSeparable(s, ' ');
    SplitJoin([s], " ");
  }

  /** A number followed by one unit letter reads back as its minutes. */
  lemma ReadUnit(n: nat, unit: char)
    requires unit == 'h' || unit == 'm'
    ensures var w := NatToString(n) + [unit];
      ' ' !in w && |w| > 0 && w[|w| - 1] == unit && ReadWord(w) == Some(if unit == 'h' then n * 60 else n)
  {
    var w := NatToString(n) + [unit];
    assert forall i :: 0 <= i < |NatToString(n)| ==> NatToString(n)[i] != ' ';
    assert w[..|w| - 1] == IntToString(n);
    ParseIntOfIntToString(n);
  }

  /** The single-unit forms "Hh" and "Mm" read back as their minutes. */
  lemma ReadSingleUnit(n: nat, unit: char)
    requires unit == 'h' || unit == 'm'
    ensures ReadDuration(NatToString(n) + [unit]) == Some(if unit == 'h' then n * 60 else n)
  {
    ReadUnit(n, unit);
    SplitSingle(NatToString(n) + [unit]);
    ReadOneWord(NatToString(n) + [unit]);
  }

  /** Two space-free words joined by one space split back apart. */
  lemma SplitPair(a: string, b: string)
    requires ' ' !in a && ' ' !in b
    ensures Split(a + " " + b, " ") == [a, b]
  {
    CharFreeSeparable(a, ' ');
    CharFreeSeparable(b, ' ');
    SplitJoin([a, b], " ");
    assert [a, b][1..] == [b];
  }

  /** The two-unit form "Hh Mm" reads back as H * 60 + M. */
  lemma ReadBothUnits(h: nat, m: nat)
    ensures ReadDuration((NatToString(h) + "h") + " " + (NatToString(m) + "m")) == Some(h * 60 + m)
  {
    var a, b := NatToString(h) + "h", NatToString(m) + "m";
    ReadBothWords(h, m, a, b);
  }

  lemma ReadBothWords(h: nat, m: nat, a: string, b: string)
    requires a == NatToString(h) + "h" && b == NatToString(m) + "m"
    ensures ReadDuration(a + " " + b) == Some(h * 60 + m)
  {
    assert ' ' !in a && |a| > 0 && a[|a| - 1] == 'h' && ReadWord(a) == Some(h * 60) by { ReadUnit(h, 'h'); }
    assert ' ' !in b && ReadWord(b) == Some(m) by { ReadUnit(m, 'm'); }
    ReadHoursAndMinutes(a, b, h * 60, m, h * 60 + m);
  }

  /** An hours word and a minutes word, both free of spaces, read back as their sum once joined by a space. */
  lemma ReadHoursAndMinutes(a: string, b: string, hm: int, m: int, total: int)
    requires ' ' !in a && ' ' !in b && |a| > 0 && a[|a| - 1] == 'h'
    requires ReadWord(a) == Some(hm) && ReadWord(b) == Some(m) && total == hm + m
    ensures ReadDuration(a + " " + b) == Some(total)
  {
    SplitPair(a, b);
    ReadTwoWords(a + " " + b, a, b);
  }

  /** The formatted duration of a non-negative number of minutes reads back as that number. */
  lemma FormatDurationReadsBack(minutes: nat)
    ensures ReadDuration(FormatDuration(minutes)) == Some(minutes)
  {
    if minutes == 0 || minutes / 60 == 0 || minutes % 60 == 0 {
      SingleUnitReadsBack(minutes);
    } else {
      assert FormatDuration(minutes) == (NatToString(minutes / 60) + "h") + " " + (NatToString(minutes % 60) + "m");
      ReadBothUnits(minutes / 60, minutes % 60);
    }
  }

  lemma SingleUnitReadsBack(minutes: nat)
    requires minutes == 0 || minutes / 60 == 0 || minutes % 60 == 0
    ensures ReadDuration(FormatDuration(minutes)) == Some(minutes)
  {
    if minutes == 0 {
      assert FormatDuration(0) == "0h";
      assert NatToString(0) + ['h'] == "0h";
      ReadSingleUnit(0, 'h');
    } else if minutes / 60 == 0 {
      MinutesOnlyReadsBack(minutes);
    } else {
      HoursOnlyReadsBack(minutes);
    }
  }

  /** Under an hour the duration is written in minutes alone. */
  lemma MinutesOnlyReadsBack(minutes: nat)
    requires 0 < minutes < 60
    ensures ReadDuration(FormatDuration(minutes)) == Some(minutes)
  {
    var text := NatToString(minutes) + ['m'];
    assert TruncDiv(minutes, 60) == 0 && minutes % 60 == minutes;
    assert FormatDuration(minutes) == text;
    ReadSingleUnit(minutes, 'm');
  }

  /** A whole number of hours is written in hours alone. */
  lemma HoursOnlyReadsBack(minutes: nat)
    requires minutes >= 60 && minutes % 60 == 0
    ensures ReadDuration(FormatDuration(minutes)) == Some(minutes)
  {
    var h: nat := minutes / 60;
    var text := NatToString(h) + ['h'];
    assert TruncDiv(minutes, 60) == h && h != 0;
    assert FormatDuration(minutes) == text;
    ReadSingleUnit(h, 'h');
  }

  // ---------------------------------------------------------------------
  // The cards

  const OpenStatuses: seq<string> :=
    ["Open", "In Progress", "On Hold", "Pending Verification", "Scheduled", "Not Started", "Pending"]

  /** Open: a status in the open list, or no ClosedOn. */
  predicate IsOpenTicket(w: WorkItem)
  {
    (w.status.Some? && w.status.value in OpenStatuses) || w.closedOn.None?
  }

  /** Escalated: the flag is the string '1'. */
  predicate IsEscalatedTicket(w: WorkItem)
  {
    w.isEscalated == Some("1")
  }

  /** Closed this month: a ClosedOn at or after the first of the current month (same time of day as now). */
  predicate ClosedSince(w: WorkItem, monthStart: int)
  {
    w.closedOn.Some? && w.closedOn.value >= monthStart
  }

  function ClosedSinceOf(monthStart: int): WorkItem -> bool
  {
    w => ClosedSince(w, monthStart)
  }

  /** A row of the duration summary. */
  datatype DurationRow = DurationRow(workItemId: int, openToClosed: Option<int>, openToResolved: Option<int>)

  /** OpenToClosed_Min, else OpenToResolved_Min, else nothing. */
  function PreferredMinutes(d: DurationRow): Option<int>
  {
    if d.openToClosed.Some? then d.openToClosed else d.openToResolved
  }

  /** The resolution minutes of the rows that have any, in row order. */
  function ResolutionMinutes(rows: seq<DurationRow>): (r: seq<int>)
    ensures |r| <= |rows|
    ensures forall v :: v in r ==> exists d :: d in rows && PreferredMinutes(d) == Some(v)
    ensures (forall d :: d in rows ==> PreferredMinutes(d).Some?) ==> |r| == |rows|
    decreases |rows|
  {
    if |rows| == 0 then []
    else
      var init := rows[..|rows| - 1];
      var last := rows[|rows| - 1];
      assert forall d :: d in init ==> d in rows;
      ResolutionMinutes(init) + (if PreferredMinutes(last).Some? then [PreferredMinutes(last).value] else [])
  }

  /** The loop over the matching duration rows that collects resolution times. */
  method CollectResolutionTimes(rows: seq<DurationRow>) returns (times: seq<int>)
    ensures times == ResolutionMinutes(rows)
  {
    times := [];
    var i := 0;
    while i < |rows|
      invariant 0 <= i <= |rows|
      invariant times == ResolutionMinutes(rows[..i])
    {
      var d := rows[i];
      assert rows[..i + 1][..i] == rows[..i];
      if d.openToClosed.Some? {
        times := times + [d.openToClosed.value];
      } else if d.openToResolved.Some? {
        times := times + [d.openToResolved.value];
      }
      i := i + 1;
    }
    assert rows[..i] == rows;
  }

  /**
   * `format_duration(sum(times) / len(times))` on the exact mean `total / count`
   * (0 for no times): "0h" when the mean is zero; otherwise `int(mean / 60)`
   * hours, truncated, and `int(mean % 60)` minutes, where Python's `%` is
   * the floored remainder, so the minutes are the floored mean modulo 60.
   */
  function FormatMean(total: int, count: nat): string
  {
    if count == 0 || total == 0 then "0h"
    else
      var hours := TruncDiv(total, 60 * count);
      var remaining := (total / count) % 60;
      if hours == 0 then IntToString(remaining) + "m"
      else if remaining == 0 then IntToString(hours) + "h"
      else (IntToString(hours) + "h") + " " + (IntToString(remaining) + "m")
  }

  /** Dividing by `c` and then by 60 is dividing by `60 * c`. */
  lemma DivDiv(t: nat, c: nat)
    requires c > 0
    ensures t / (60 * c) == (t / c) / 60
  {
    var q, r := t / c, t % c;
    var a, b := q / 60, q % 60;
    assert q * c == (60 * a + b) * c;
    MulLarge(c, 59 - b);
    DivUnique(t, 60 * c, a, b * c + r);
  }

  /** A positive factor times a positive integer is at least the factor, and likewise below zero. */
  lemma {:induction false} MulLarge(d: int, k: int)
    requires d > 0
    ensures k >= 0 ==> d * k >= 0
    ensures k >= 1 ==> d * k >= d
    ensures k <= -1 ==> d * k <= -d
    decreases if k < 0 then -k else k
  {
    if k > 1 {
      MulLarge(d, k - 1);
      assert d * k == d * (k - 1) + d;
    } else if k < -1 {
      MulLarge(d, k + 1);
      assert d * k == d * (k + 1) - d;
    }
  }

  /** Division has one quotient: `t == d * a + e` with `0 <= e < d` makes `a` the quotient. */
  lemma DivUnique(t: int, d: int, a: int, e: int)
    requires d > 0 && t == d * a + e && 0 <= e < d
    ensures t / d == a
  {
    var q, r := t / d, t % d;
    assert d * (q - a) == e - r;
    MulLarge(d, q - a);
  }

  /**
   * A positive mean keeps the whole minutes of its floor: it formats as
   * the floored mean does, except that a mean under one minute shows
   * "0m", not "0h".
   */
  lemma FormatMeanFloor(total: nat, count: nat)
    requires count > 0 && total > 0
    ensures FormatMean(total, count) == if total / count == 0 then "0m" else FormatDuration(total / count)
    ensures ReadDuration(FormatMean(total, count)) == Some(total / count)
  {
    DivDiv(total, count);
    var m := total / count;
    assert TruncDiv(total, 60 * count) == TruncDiv(m, 60);
    if m == 0 {
      assert FormatMean(total, count) == NatToString(0) + ['m'];
      ReadSingleUnit(0, 'm');
    } else {
      FormatDurationReadsBack(m);
    }
  }

  /** Half a minute on average: the card shows "0m", where formatting the floored mean would give "0h". */
  lemma HalfMinuteShowsMinutes()
    ensures FormatMean(Sum([0, 1]), 2) == "0m"
    ensures FormatDuration(0) == "0h"
  {
    assert Sum([0, 1]) == 1 by { assert [0, 1][1..] == [1]; }
    assert TruncDiv(1, 120) == 0 && (1 / 2) % 60 == 0;
    assert IntToString(0) == "0";
  }

  /**
   * The average-resolution card: the resolution times of the duration rows
   * of the filtered items only, formatted from their exact mean; "0h" when
   * either side is empty.
   */
  function AverageResolution(filtered: seq<WorkItem>, durations: seq<DurationRow>): string
  {
    var ids := Map(filtered, (w: WorkItem) => w.id);
    if |durations| == 0 || |ids| == 0 then "0h"
    else
      var times := ResolutionMinutes(Filter(durations, (d: DurationRow) => d.workItemId in ids));
      FormatMean(Sum(times), |times|)
  }

  /** The times the card averages: those of the duration rows whose item survived the filter. */
  function CardTimes(filtered: seq<WorkItem>, durations: seq<DurationRow>): seq<int>
  {
    ResolutionMinutes(Filter(durations, (d: DurationRow) => d.workItemId in Map(filtered, (w: WorkItem) => w.id)))
  }

  /**
   * The card shows "0h" exactly when there is nothing to average or the
   * times sum to zero; otherwise, for non-negative times, it reads back as
   * their floored mean.
   */
  lemma AverageResolutionSpec(filtered: seq<WorkItem>, durations: seq<DurationRow>)
    requires forall t :: t in CardTimes(filtered, durations) ==> t >= 0
    ensures var times := CardTimes(filtered, durations);
      (|durations| == 0 || |filtered| == 0 || |times| == 0 || Sum(times) == 0 ==>
         AverageResolution(filtered, durations) == "0h") &&
      (|durations| > 0 && |filtered| > 0 && |times| > 0 && Sum(times) > 0 ==>
         ReadDuration(AverageResolution(filtered, durations)) == Some(Sum(times) / |times|))
  {
    var times := CardTimes(filtered, durations);
    SumNonNegative(times);
    if |durations| > 0 && |filtered| > 0 && |times| > 0 && Sum(times) > 0 {
      FormatMeanFloor(Sum(times), |times|);
    }
  }

  /** The five counted metrics of a filtered frame. */
  datatype Metrics = Metrics(total: nat, open: nat, escalated: nat, closedThisMonth: nat, assignees: nat)

  /** The distinct assignees a frame names (`AssignedTo.nunique()`, which skips nulls). */
  function AssigneeSet(filtered: seq<WorkItem>): set<string>
  {
    set w | w in filtered && w.assignedTo.Some? :: w.assignedTo.value
  }

  /**
   * The five metrics: the frame's length, and the number of positions whose
   * ticket is open, escalated and closed this month, and the number of
   * distinct assignees.
   */
  function ComputeMetrics(filtered: seq<WorkItem>, monthStart: int): (m: Metrics)
    ensures m.total == |filtered|
    ensures m.open == |Positions(filtered, IsOpenTicket)|
    ensures m.escalated == |Positions(filtered, IsEscalatedTicket)|
    ensures m.closedThisMonth == |Positions(filtered, ClosedSinceOf(monthStart))|
    ensures m.assignees == |AssigneeSet(filtered)|
    ensures m.open <= m.total && m.escalated <= m.total && m.closedThisMonth <= m.total && m.assignees <= m.total
  {
    var names := Somes(Map(filtered, (w: WorkItem) => w.assignedTo));
    var assignees := Distinct(names);
    var open := Filter(filtered, IsOpenTicket);
    var escalated := Filter(filtered, IsEscalatedTicket);
    var closed := Filter(filtered, ClosedSinceOf(monthStart));
    FilterCountsPositions(filtered, IsOpenTicket);
    FilterCountsPositions(filtered, IsEscalatedTicket);
    FilterCountsPositions(filtered, ClosedSinceOf(monthStart));
    DistinctCount(names);
    assert (set x | x in names) == AssigneeSet(filtered) by {
      forall v ensures v in names <==> v in AssigneeSet(filtered) {
        if v in AssigneeSet(filtered) {
          var w :| w in filtered && w.assignedTo == Some(v);
          var i :| 0 <= i < |filtered| && filtered[i] == w;
          assert Map(filtered, (w: WorkItem) => w.assignedTo)[i] == Some(v);
        }
      }
    }
    Metrics(|filtered|, |open|, |escalated|, |closed|, |assignees|)
  }

  /** Counted open and closed this month: the ticket has a ClosedOn this month but an open status. */
  predicate OpenYetClosed(w: WorkItem, monthStart: int)
  {
    IsOpenTicket(w) && ClosedSince(w, monthStart)
  }

  /**
   * The open and closed-this-month cards together count every ticket at
   * most once, except the tickets with an open status and a ClosedOn this
   * month, which both count; with no open status among the tickets, the
   * two cards never exceed the total.
   */
  lemma ClosedNotOpen(filtered: seq<WorkItem>, monthStart: int)
    ensures var m := ComputeMetrics(filtered, monthStart);
      m.open + m.closedThisMonth <= |filtered| + |Positions(filtered, (w: WorkItem) => OpenYetClosed(w, monthStart))|
    ensures (forall w :: w in filtered ==> w.status.Some? && w.status.value !in OpenStatuses) ==>
      ComputeMetrics(filtered, monthStart).open + ComputeMetrics(filtered, monthStart).closedThisMonth <= |filtered|
  {
    var closed := ClosedSinceOf(monthStart);
    var either := (w: WorkItem) => IsOpenTicket(w) || ClosedSince(w, monthStart);
    var both := (w: WorkItem) => OpenYetClosed(w, monthStart);
    FilterInclusionExclusion(filtered, IsOpenTicket, closed, either, both);
    FilterCountsPositions(filtered, IsOpenTicket);
    FilterCountsPositions(filtered, closed);
    FilterCountsPositions(filtered, both);
    assert |Positions(filtered, closed)| == ComputeMetrics(filtered, monthStart).closedThisMonth;
    if forall w :: w in filtered ==> w.status.Some? && w.status.value !in OpenStatuses {
      FilterNone(filtered, both);
    }
  }

  /** A ticket whose status is "Open" but that was closed this month is counted by both cards. */
  lemma OpenTicketClosedThisMonth(w: WorkItem, monthStart: int)
    requires w.status == Some("Open") && w.closedOn == Some(monthStart)
    ensures var m := ComputeMetrics([w], monthStart);
      m.total == 1 && m.open == 1 && m.closedThisMonth == 1
  {
    assert Positions([w], IsOpenTicket) == {0};
    assert Positions([w], ClosedSinceOf(monthStart)) == {0};
  }

  const DefaultValues: seq<string> := ["0", "0", "0", "0h", "0", "0"]

  /**
   * The card values. `base` is the fetched pair of frames (None when the
   * fetch raised); no work items, no rows after filtering, or a failed fetch
   * all give the defaults.
   */
  function SummaryCards(base: Option<(seq<WorkItem>, seq<DurationRow>)>, stored: Option<Store>, monthStart: int): (r: seq<string>)
    ensures |r| == 6
    ensures base.None? || |base.value.0| == 0 ==> r == DefaultValues
    ensures base.Some? && |SummaryFilter(base.value.0, ParseFilterSelections(stored))| == 0 ==> r == DefaultValues
  {
    if base.None? || |base.value.0| == 0 then DefaultValues
    else
      var filtered := SummaryFilter(base.value.0, ParseFilterSelections(stored));
      if |filtered| == 0 then DefaultValues
      else
        var m := ComputeMetrics(filtered, monthStart);
        [Grouped(m.total), Grouped(m.open), Grouped(m.escalated),
         AverageResolution(filtered, base.value.1), Grouped(m.closedThisMonth), Grouped(m.assignees)]
  }

  /** With data, the first card shows the number of filtered items with thousands separators, which read back as that number. */
  lemma TotalCardShowsCount(base: Option<(seq<WorkItem>, seq<DurationRow>)>, stored: Option<Store>, monthStart: int)
    requires base.Some? && |SummaryFilter(base.value.0, ParseFilterSelections(stored))| > 0
    ensures Filter(SummaryCards(base, stored, monthStart)[0], NotComma) ==
      NatToString(|SummaryFilter(base.value.0, ParseFilterSelections(stored))|)
  {
    GroupedDigits(|SummaryFilter(base.value.0, ParseFilterSelections(stored))|);
  }

  /**
   * With data, the open, escalated, closed-this-month and assignee cards
   * show, with thousands separators, the corresponding metric of the
   * filtered tickets (whose meaning `ComputeMetrics` states: open status or
   * no ClosedOn, flagged '1', closed since the month began, distinct named
   * assignees); the fourth card is their average resolution.
   */
  lemma CardsShowCounts(base: Option<(seq<WorkItem>, seq<DurationRow>)>, stored: Option<Store>, monthStart: int)
    requires base.Some? && |SummaryFilter(base.value.0, ParseFilterSelections(stored))| > 0
    ensures var f := SummaryFilter(base.value.0, ParseFilterSelections(stored));
      var m := ComputeMetrics(f, monthStart);
      var r := SummaryCards(base, stored, monthStart);
      r[1] == Grouped(m.open) && r[2] == Grouped(m.escalated) && r[3] == AverageResolution(f, base.value.1) &&
      r[4] == Grouped(m.closedThisMonth) && r[5] == Grouped(m.assignees)
  {
    SummaryCardsValues(base, stored, monthStart);
  }

  lemma SummaryCardsValues(base: Option<(seq<WorkItem>, seq<DurationRow>)>, stored: Option<Store>, monthStart: int)
    requires base.Some? && |SummaryFilter(base.value.0, ParseFilterSelections(stored))| > 0
    ensures var f := SummaryFilter(base.value.0, ParseFilterSelections(stored));
      var m := ComputeMetrics(f, monthStart);
      SummaryCards(base, stored, monthStart) ==
        [Grouped(m.total), Grouped(m.open), Grouped(m.escalated), AverageResolution(f, base.value.1),
         Grouped(m.closedThisMonth), Grouped(m.assignees)]
  {
  }

  /** A count card reads back, separators dropped, as its count. */
  lemma CountCardReadsBack(n: nat)
    ensures Filter(Grouped(n), NotComma) == NatToString(n)
  {
    GroupedDigits(n);
  }
}
