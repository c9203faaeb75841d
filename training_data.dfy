/**
 * Pieces every Training panel callback repeats: reading the filter store's
 * quoted lists back into tokens, the "Feb-04-25@6 PM" start-time parser,
 * the date-range test on parsed start times, and the period labels of the
 * time-series charts.
 */
module TrainingData {
  import opened Common

  // ---------------------------------------------------------------------
  // Reading a store entry back into tokens

  const Quotes: set<char> := {'\'', '"'}

  function Unquoted(x: string): string
  {
    StripChars(x, Quotes)
  }

  function Cleaned(x: string): string
  {
    StripChars(Strip(x), Quotes)
  }

  function NonEmpty(x: string): bool
  {
    |x| > 0
  }

  /**
   * The parser the gap-analysis, scheduling, instructor, office and data-table
   * callbacks write out: split on "," and strip quote characters only.
   */
  function QuoteTokens(text: string): (r: seq<string>)
    ensures forall t :: t in r ==> |t| > 0
  {
    Filter(Map(Split(text, ","), Unquoted), NonEmpty)
  }

  /** The engaged-members parser: split on ",", strip whitespace, then quote characters, drop empties. */
  function CleanTokens(text: string): (r: seq<string>)
    ensures forall t :: t in r ==> |t| > 0
  {
    Filter(Map(Split(text, ","), Cleaned), NonEmpty)
  }

  /** The items the store carries faithfully: non-empty, comma-free, not delimited by a space or a quote. */
  predicate Carried(x: string)
  {
    |x| > 0 && ',' !in x && x[0] !in Whitespace + Quotes && x[|x| - 1] !in Whitespace + Quotes
  }

  lemma CleanedCarried(x: string)
    requires Carried(x)
    ensures Cleaned(Quote(x)) == x && Cleaned(LeadSpace(Quote(x))) == x
  {
    var q := Quote(x);
    assert q == ['\''] + x + ['\''];
    assert Strip(q) == q by {
      LStripKeeps(q, Whitespace);
      RStripKeeps(q, Whitespace);
    }
    assert Strip(LeadSpace(q)) == q by {
      assert LeadSpace(q)[1..] == q;
      LStripKeeps(q, Whitespace);
      RStripKeeps(q, Whitespace);
    }
    StripWrapped(x, '\'', Quotes);
  }

  /** Splitting `", ".join` of comma-free items on "," gives the items, each after the first led by a space. */
  lemma SplitSpacedItems(xs: seq<string>)
    requires |xs| > 0 && forall i :: 0 <= i < |xs| ==> ',' !in xs[i]
    ensures Split(Join(xs, ", "), ",") == Spaced(xs)
  {
    JoinSpaced(xs);
    var sp := Spaced(xs);
    forall i | 0 <= i < |sp| ensures Separable(sp[i], ",") {
      assert ',' !in sp[i] by {
        if i > 0 { assert sp[i] == " " + xs[i]; }
      }
      CharFreeSeparable(sp[i], ',');
    }
    SplitJoin(sp, ",");
  }

  lemma QuotedPieces(sel: Selection)
    requires IsActive(sel) && forall x :: x in sel.value ==> Carried(x)
    ensures Split(QuotedList(sel), ",") == Spaced(Map(sel.value, Quote))
  {
    var qs := Map(sel.value, Quote);
    forall i | 0 <= i < |qs| ensures ',' !in qs[i] {
      assert sel.value[i] in sel.value;
      assert qs[i] == ['\''] + sel.value[i] + ['\''];
    }
    SplitSpacedItems(qs);
  }

  /** The whitespace-stripping parser reads an active selection of carried items back item for item. */
  lemma CleanRoundTrip(sel: Selection)
    requires IsActive(sel) && forall x :: x in sel.value ==> Carried(x)
    ensures CleanTokens(QuotedList(sel)) == sel.value
  {
    var xs := sel.value;
    var pieces := Spaced(Map(xs, Quote));
    QuotedPieces(sel);
    var cleaned := Map(pieces, Cleaned);
    forall i | 0 <= i < |xs| ensures cleaned[i] == xs[i] {
      assert xs[i] in xs;
      CleanedCarried(xs[i]);
      if i == 0 {
        assert pieces[i] == Quote(xs[i]);
      } else {
        assert pieces[i] == LeadSpace(Quote(xs[i]));
      }
    }
    assert cleaned == xs;
    FilterAll(xs, NonEmpty);
  }

  lemma UnquotedPiece(x: string)
    requires Carried(x)
    ensures Unquoted(Quote(x)) == x && Unquoted(LeadSpace(Quote(x))) == " '" + x
  {
    UnquotedFirst(x);
    UnquotedLater(x);
  }

  lemma UnquotedFirst(x: string)
    requires Carried(x)
    ensures Unquoted(Quote(x)) == x
  {
    assert Quote(x) == ['\''] + x + ['\''];
    StripWrapped(x, '\'', Quotes);
  }

  lemma UnquotedLater(x: string)
    requires Carried(x)
    ensures Unquoted(LeadSpace(Quote(x))) == " '" + x
  {
    var body := " '" + x;
    assert LeadSpace(Quote(x)) == body + ['\''];
    assert body[0] == ' ' && body[|body| - 1] == x[|x| - 1];
    StripTrailing(body, '\'', Quotes);
  }

  /** `strip(chars)` removes one trailing `c` in `chars` from a string that is otherwise trimmed. */
  lemma StripTrailing(body: string, c: char, chars: set<char>)
    requires c in chars && |body| > 0 && body[0] !in chars && body[|body| - 1] !in chars
    ensures StripChars(body + [c], chars) == body
  {
    var p := body + [c];
    assert p[0] == body[0];
    LStripKeeps(p, chars);
    assert p[..|p| - 1] == body;
    RStripKeeps(body, chars);
  }

  /**
   * The quote-only parser keeps the space `", ".join` puts before every item
   * after the first, together with that item's opening quote.
   */
  lemma QuoteTokensKeepSpace(sel: Selection)
    requires IsActive(sel) && forall x :: x in sel.value ==> Carried(x)
    ensures |QuoteTokens(QuotedList(sel))| == |sel.value|
    ensures QuoteTokens(QuotedList(sel))[0] == sel.value[0]
    ensures forall i :: 0 < i < |sel.value| ==> QuoteTokens(QuotedList(sel))[i] == " '" + sel.value[i]
  {
    var xs := sel.value;
    var pieces := Spaced(Map(xs, Quote));
    QuotedPieces(sel);
    var unq := Map(pieces, Unquoted);
    forall i | 0 <= i < |xs| ensures |unq[i]| > 0 && unq[i] == (if i == 0 then xs[i] else " '" + xs[i]) {
      assert xs[i] in xs;
      UnquotedPiece(xs[i]);
      if i == 0 {
        assert pieces[i] == Quote(xs[i]);
      } else {
        assert pieces[i] == LeadSpace(Quote(xs[i]));
      }
    }
    FilterAll(unq, NonEmpty);
  }

  /** Multi-selections reach the quote-only filters as: the first item, then items that match no carried value. */
  lemma LaterSelectionsNeverMatch(sel: Selection, i: nat, cell: string)
    requires IsActive(sel) && forall x :: x in sel.value ==> Carried(x)
    requires 0 < i < |sel.value| && Carried(cell)
    ensures i < |QuoteTokens(QuotedList(sel))|
    ensures QuoteTokens(QuotedList(sel))[i] != cell
  {
    QuoteTokensKeepSpace(sel);
    assert QuoteTokens(QuotedList(sel))[i][0] == ' ';
  }

  /** Selecting offices "A" and "B" reads back as "A" and " 'B". */
  lemma TwoOfficesAsWritten()
    ensures QuoteTokens(QuotedList(Some(["A", "B"]))) == ["A", " 'B"]
  {
    assert Carried("A") && Carried("B");
    TwoItemsAsWritten("A", "B");
    assert " '" + "B" == " 'B";
  }

  lemma TwoItemsAsWritten(a: string, b: string)
    requires Carried(a) && Carried(b) && a != AllSentinel && b != AllSentinel
    ensures QuoteTokens(QuotedList(Some([a, b]))) == [a, " '" + b]
  {
    var sel: Selection := Some([a, b]);
    assert sel.value[0] == a && sel.value[1] == b;
    QuoteTokensKeepSpace(sel);
  }

  /** An absent or empty store entry reads as no tokens. */
  lemma EmptyTextNoTokens()
    ensures QuoteTokens("") == []
    ensures CleanTokens("") == []
  {
    assert Split("", ",") == [""];
    assert Map([""], Unquoted) == [Unquoted("")];
    assert Map([""], Cleaned) == [Cleaned("")];
  }

  const NoStore: Store := Store(map[], map[])

  /** `if not query_selections: query_selections = {}`. */
  function StoreOrEmpty(stored: Option<Store>): Store
  {
    if stored.Some? then stored.value else NoStore
  }

  /** `astype(str)` of a nullable id column: the id's text, and "nan" for a null. */
  function IdText(id: Option<string>): string
  {
    if id.Some? then id.value else "nan"
  }

  /** `column.isin(tokens)` on a nullable cell: an empty token list is not applied. */
  predicate Listed(tokens: seq<string>, cell: Option<string>)
  {
    |tokens| == 0 || (cell.Some? && cell.value in tokens)
  }

  // ---------------------------------------------------------------------
  // The topic-assignment and AOR-office queries several panels narrow alike

  /** One `Fact_TopicAssignments` row: the query keeps only rows with a class and a topic. `aorId` None is NaN. */
  datatype TopicAssignment = TopicAssignment(classId: string, topicId: string, topicName: Option<string>, aorId: Option<int>,
                                             instructorId: Option<string>)

  /** One `Dim_Aors` row: the query keeps only rows with an AOR and an office. `aorId` None is NaN. */
  datatype AorOffice = AorOffice(aor: string, office: string, aorId: Option<int>)

  /**
   * `set_index('AorShortName')['AorID'].to_dict().get(aor)`: absent gives
   * None; for an AOR listed twice the later row wins.
   */
  function AorIdLookup(aorOffices: seq<AorOffice>, aor: string): (r: Option<Option<int>>)
    ensures r.None? <==> forall i :: 0 <= i < |aorOffices| ==> aorOffices[i].aor != aor
    ensures r.Some? ==> exists i :: 0 <= i < |aorOffices| && aorOffices[i].aor == aor && aorOffices[i].aorId == r.value
                                   && forall j :: i < j < |aorOffices| ==> aorOffices[j].aor != aor
  {
    if |aorOffices| == 0 then None
    else
      var later := AorIdLookup(aorOffices[1..], aor);
      if later.Some? then
        var i :| 1 <= i + 1 < |aorOffices| && aorOffices[1..][i].aor == aor && aorOffices[1..][i].aorId == later.value
                 && forall j :: i < j < |aorOffices| - 1 ==> aorOffices[1..][j].aor != aor;
        assert aorOffices[i + 1] == aorOffices[1..][i];
        later
      else if aorOffices[0].aor == aor then Some(aorOffices[0].aorId)
      else None
  }

  /** Python truth of a looked-up id: a missing key and the id 0 are false, NaN is true. */
  predicate Truthy(v: Option<Option<int>>)
  {
    v.Some? && v.value != Some(0)
  }

  /** `[mapping.get(aor) for aor in aor_list if mapping.get(aor)]`. */
  function AorIds(aorOffices: seq<AorOffice>, aors: seq<string>): (r: seq<Option<int>>)
    ensures forall v :: v in r <==> exists a :: a in aors && Truthy(AorIdLookup(aorOffices, a)) && AorIdLookup(aorOffices, a).value == v
  {
    if |aors| == 0 then []
    else
      var l := AorIdLookup(aorOffices, aors[0]);
      var rest := AorIds(aorOffices, aors[1..]);
      var r := if Truthy(l) then [l.value] + rest else rest;
      assert forall v :: v in r <==> (Truthy(l) && l.value == v) || v in rest;
      assert forall a :: a in aors[1..] ==> a in aors;
      forall v | v in r
        ensures exists a :: a in aors && Truthy(AorIdLookup(aorOffices, a)) && AorIdLookup(aorOffices, a).value == v
      {
        if Truthy(l) && l.value == v {
          assert aors[0] in aors;
        } else {
          var a :| a in aors[1..] && Truthy(AorIdLookup(aorOffices, a)) && AorIdLookup(aorOffices, a).value == v;
          assert a in aors;
        }
      }
      forall v | exists a :: a in aors && Truthy(AorIdLookup(aorOffices, a)) && AorIdLookup(aorOffices, a).value == v
        ensures v in r
      {
        var a :| a in aors && Truthy(AorIdLookup(aorOffices, a)) && AorIdLookup(aorOffices, a).value == v;
        if a != aors[0] {
          assert a in aors[1..];
        }
      }
      r
  }

  /** `isin(aor_ids)`: a NaN id matches a NaN in the list. */
  function AorIdIn(ids: seq<Option<int>>): TopicAssignment -> bool
  {
    (t: TopicAssignment) => t.aorId in ids
  }

  function OfficeIn(offices: seq<string>): AorOffice -> bool
  {
    (m: AorOffice) => m.office in offices
  }

  function AorOfMapping(m: AorOffice): string
  {
    m.aor
  }

  /** The distinct AORs of the mapping rows whose office is selected. */
  function OfficeAors(aorOffices: seq<AorOffice>, offices: seq<string>): (r: seq<string>)
    ensures NoDuplicates(r)
    ensures forall a :: a in r <==> exists m :: m in aorOffices && m.office in offices && m.aor == a
  {
    var rows := Filter(aorOffices, OfficeIn(offices));
    var aors := Map(rows, AorOfMapping);
    assert forall a :: a in aors <==> exists m :: m in rows && m.aor == a by {
      forall a | a in aors ensures exists m :: m in rows && m.aor == a {
        var i :| 0 <= i < |aors| && aors[i] == a;
        assert rows[i] in rows;
      }
      forall a | exists m :: m in rows && m.aor == a ensures a in aors {
        var m :| m in rows && m.aor == a;
        var i :| 0 <= i < |rows| && rows[i] == m;
        assert aors[i] == a;
      }
    }
    Distinct(aors)
  }

  function TopicIn(topics: seq<string>): TopicAssignment -> bool
  {
    (t: TopicAssignment) => t.topicId in topics
  }

  function ClassOfTopic(t: TopicAssignment): string
  {
    t.classId
  }

  /**
   * How a panel reads one stored list back. The gap-analysis, scheduling,
   * instructor, office and data-table callbacks strip quote characters only
   * (`QuoteOnly`, `item.strip("'\"")`); the engaged-members callback strips
   * whitespace first (`Trimmed`, `item.strip().strip("'\"")`), which is
   * what the others evidently intend.
   */
  datatype ListReader = QuoteOnly | Trimmed

  function ReadTokens(r: ListReader, text: string): (toks: seq<string>)
    ensures forall t :: t in toks ==> |t| > 0
  {
    match r
    case QuoteOnly => QuoteTokens(text)
    case Trimmed => CleanTokens(text)
  }

  /** The five lists the chart panels read from the store, each split on "," and read by the panel's reader. */
  datatype PanelLists = PanelLists(aors: seq<string>, offices: seq<string>, topics: seq<string>,
                                   instructors: seq<string>, locations: seq<string>)

  function PanelListsOf(st: Store, r: ListReader): PanelLists
  {
    PanelLists(ReadTokens(r, TextOr(st, "AORs")), ReadTokens(r, TextOr(st, "Offices")), ReadTokens(r, TextOr(st, "Topics")),
               ReadTokens(r, TextOr(st, "Instructors")), ReadTokens(r, TextOr(st, "Locations")))
  }

  /** A stored office selection reads back as itself under the trimming reader; the quote-only reader
      the chart panels use turns every office after the first into a different string. */
  lemma PanelListsRoundTrip(st: Store, sel: Selection)
    requires IsActive(sel) && |sel.value| >= 2 && forall x :: x in sel.value ==> Carried(x)
    requires TextOr(st, "Offices") == QuotedList(sel)
    ensures PanelListsOf(st, Trimmed).offices == sel.value
    ensures PanelListsOf(st, QuoteOnly).offices != sel.value
  {
    ReadersOnList(sel);
  }

  lemma ReadersOnList(sel: Selection)
    requires IsActive(sel) && |sel.value| >= 2 && forall x :: x in sel.value ==> Carried(x)
    ensures ReadTokens(Trimmed, QuotedList(sel)) == sel.value
    ensures ReadTokens(QuoteOnly, QuotedList(sel)) != sel.value
  {
    CleanRoundTrip(sel);
    QuoteTokensKeepSpace(sel);
    var q := QuoteTokens(QuotedList(sel));
    assert q[1] == " '" + sel.value[1];
    assert |q[1]| == |sel.value[1]| + 2;
  }

  /** A store without entries reads as no lists, under either reader. */
  lemma NoStoreNoLists(r: ListReader)
    ensures PanelListsOf(NoStore, r) == PanelLists([], [], [], [], [])
  {
    EmptyTextNoTokens();
  }

  /**
   * Topic assignments under an AOR selection: narrowed to the ids the
   * selected AORs map to; left whole when there are none, or when no
   * selected AOR maps to a truthy id.
   */
  function NarrowTopicsByAor(topics: seq<TopicAssignment>, aorOffices: seq<AorOffice>, aors: seq<string>): (r: seq<TopicAssignment>)
    ensures |AorIds(aorOffices, aors)| == 0 ==> r == topics
    ensures |AorIds(aorOffices, aors)| > 0 ==> forall t :: t in r <==> (t in topics
      && exists a :: a in aors && Truthy(AorIdLookup(aorOffices, a)) && AorIdLookup(aorOffices, a).value == t.aorId)
  {
    var ids := AorIds(aorOffices, aors);
    if |topics| > 0 && |ids| > 0 then
      var r := Filter(topics, AorIdIn(ids));
      assert forall t :: t in r <==> t in topics && t.aorId in ids;
      r
    else topics
  }

  /** `topics['TrainingClassId'].unique()`: the classes the assignments name. */
  function ClassIdsOf(topics: seq<TopicAssignment>): (r: seq<string>)
    ensures NoDuplicates(r)
    ensures forall c :: c in r <==> exists t :: t in topics && t.classId == c
  {
    var ids := Map(topics, ClassOfTopic);
    forall c | c in ids ensures exists t :: t in topics && t.classId == c {
      var i :| 0 <= i < |ids| && ids[i] == c;
      assert topics[i] in topics;
    }
    forall t | t in topics ensures t.classId in ids {
      var i :| 0 <= i < |topics| && topics[i] == t;
      assert ids[i] == t.classId;
    }
    Distinct(ids)
  }

  lemma {:induction false} NoTruthyNoIds(aorOffices: seq<AorOffice>, aors: seq<string>)
    requires forall a :: a in aors ==> !Truthy(AorIdLookup(aorOffices, a))
    ensures AorIds(aorOffices, aors) == []
  {
    if |aors| > 0 {
      assert aors[0] in aors;
      assert forall a :: a in aors[1..] ==> a in aors;
      NoTruthyNoIds(aorOffices, aors[1..]);
    }
  }

  // ---------------------------------------------------------------------
  // Calendar

  /** A parsed start time: civil date and time of day to the second. */
  datatype DateTime = DateTime(year: int, month: int, day: int, hour: int, minute: int, second: int)

  function SecondOfDay(t: DateTime): int
  {
    t.hour * 3600 + t.minute * 60 + t.second
  }

  predicate ValidTime(t: DateTime)
  {
    0 <= t.hour < 24 && 0 <= t.minute < 60 && 0 <= t.second < 60
  }

  predicate IsLeap(y: int)
  {
    y % 4 == 0 && (y % 100 != 0 || y % 400 == 0)
  }

  function DaysIn(y: int, m: int): int
  {
    if m == 2 then (if IsLeap(y) then 29 else 28)
    else if m == 4 || m == 6 || m == 9 || m == 11 then 30
    else 31
  }

  predicate ValidDate(y: int, m: int, d: int)
  {
    1 <= m <= 12 && 1 <= d <= DaysIn(y, m)
  }

  /** Days from 1970-01-01 to a civil date of the proleptic Gregorian calendar, the epoch the store's dates use. */
  function DaysFromCivil(y: int, m: int, d: int): int
  {
    var y1 := if m <= 2 then y - 1 else y;
    var era := y1 / 400;
    var yoe := y1 - era * 400;
    var mp := (m + 9) % 12;
    var doy := (153 * mp + 2) / 5 + d - 1;
    var doe := yoe * 365 + yoe / 4 - yoe / 100 + doy;
    era * 146097 + doe - 719468
  }

  /** Seconds from the epoch. */
  function Instant(t: DateTime): int
  {
    DaysFromCivil(t.year, t.month, t.day) * 86400 + SecondOfDay(t)
  }

  /** Lexicographic `(y, m, d, s) >= (y0, m0, d0, s0)`. */
  predicate NotEarlier(t: DateTime, y0: int, m0: int, d0: int, s0: int)
  {
    t.year > y0 || (t.year == y0 && (t.month > m0 || (t.month == m0 && (t.day > d0 || (t.day == d0 && SecondOfDay(t) >= s0)))))
  }

  /** Lexicographic `(y, m, d, s) <= (y0, m0, d0, s0)`. */
  predicate NotLater(t: DateTime, y0: int, m0: int, d0: int, s0: int)
  {
    t.year < y0 || (t.year == y0 && (t.month < m0 || (t.month == m0 && (t.day < d0 || (t.day == d0 && SecondOfDay(t) <= s0)))))
  }

  /** Between 1677-09-21 00:12:44 and 2262-04-11 23:47:16, the span a pandas Timestamp covers at whole seconds. */
  predicate Representable(t: DateTime)
  {
    ValidDate(t.year, t.month, t.day) && ValidTime(t)
    && NotEarlier(t, 1677, 9, 21, 764) && NotLater(t, 2262, 4, 11, 85636)
  }

  // ---------------------------------------------------------------------
  // The date window of the filter store

  /** The day a start time falls on, counted as the store counts its days. */
  function CivilDay(t: DateTime): int
  {
    DaysFromCivil(t.year, t.month, t.day)
  }

  /** `if start_date and end_date`: the stored Day_From and Day_To, only when both are present. */
  function StoredWindow(st: Store): (w: Option<(int, int)>)
    ensures w.Some? <==> "Day_From" in st.dates && "Day_To" in st.dates
    ensures w.Some? ==> w.value.0 == st.dates["Day_From"] && w.value.1 == st.dates["Day_To"]
  {
    match (DateOf(st, "Day_From"), DateOf(st, "Day_To"))
    case (Some(a), Some(b)) => Some((a, b))
    case _ => None
  }

  /** `start_dt <= t <= end_dt`, each bound being `pd.to_datetime` of a stored day, that is its midnight. */
  predicate InWindow(t: DateTime, w: (int, int))
  {
    w.0 * 86400 <= Instant(t) <= w.1 * 86400
  }

  /**
   * A start time is inside the window exactly when its day lies between the
   * two stored days and, on the last day, it is midnight: a session later on
   * the end day is outside.
   */
  lemma InWindowDays(t: DateTime, w: (int, int))
    requires ValidTime(t)
    ensures InWindow(t, w) <==> w.0 <= CivilDay(t) <= w.1 && (CivilDay(t) == w.1 ==> SecondOfDay(t) == 0)
  {
    var d, s := CivilDay(t), SecondOfDay(t);
    assert Instant(t) == d * 86400 + s;
    assert 0 <= s < 86400;
  }

  // ---------------------------------------------------------------------
  // Parsed rows

  /** A row with its parsed start time (`ParsedStartTime`). */
  datatype Timed<T> = Timed(row: T, start: DateTime)

  /** `parse_custom_datetime` on every start time, then `dropna`: the rows that parse, in order. */
  function Parsed<T(==,!new)>(rows: seq<T>, startOf: T -> string, coerce: string -> Option<DateTime>): (r: seq<Timed<T>>)
    ensures |r| <= |rows|
    ensures forall s :: s in r <==> s.row in rows && ParseCustomDatetime(Some(startOf(s.row)), coerce) == Some(s.start)
  {
    if |rows| == 0 then []
    else
      var p := ParseCustomDatetime(Some(startOf(rows[0])), coerce);
      var rest := Parsed(rows[1..], startOf, coerce);
      assert forall x :: x in rows <==> x == rows[0] || x in rows[1..];
      if p.Some? then [Timed(rows[0], p.value)] + rest else rest
  }

  function WithinWindow<T>(w: (int, int)): Timed<T> -> bool
  {
    (s: Timed<T>) => InWindow(s.start, w)
  }

  /** The window applies only when both days are stored. */
  function Dated<T(==,!new)>(rows: seq<T>, startOf: T -> string, window: Option<(int, int)>,
                              coerce: string -> Option<DateTime>): seq<Timed<T>>
  {
    var parsed := Parsed(rows, startOf, coerce);
    if window.Some? then Filter(parsed, WithinWindow(window.value)) else parsed
  }

  // ---------------------------------------------------------------------
  // `parse_custom_datetime`

  /** The three lower-case letters of a month's English abbreviation. */
  function MonthLetters(m: int): (r: (char, char, char))
    requires 1 <= m <= 12
  {
    if m == 1 then ('j', 'a', 'n') else if m == 2 then ('f', 'e', 'b') else if m == 3 then ('m', 'a', 'r')
    else if m == 4 then ('a', 'p', 'r') else if m == 5 then ('m', 'a', 'y') else if m == 6 then ('j', 'u', 'n')
    else if m == 7 then ('j', 'u', 'l') else if m == 8 then ('a', 'u', 'g') else if m == 9 then ('s', 'e', 'p')
    else if m == 10 then ('o', 'c', 't') else if m == 11 then ('n', 'o', 'v') else ('d', 'e', 'c')
  }

  /** The month whose abbreviation is these three lower-case letters, if any. */
  function MonthCode(l: (char, char, char)): (r: Option<int>)
    ensures r.Some? ==> 1 <= r.value <= 12 && MonthLetters(r.value) == l
  {
    if l == ('j', 'a', 'n') then Some(1) else if l == ('f', 'e', 'b') then Some(2) else if l == ('m', 'a', 'r') then Some(3)
    else if l == ('a', 'p', 'r') then Some(4) else if l == ('m', 'a', 'y') then Some(5) else if l == ('j', 'u', 'n') then Some(6)
    else if l == ('j', 'u', 'l') then Some(7) else if l == ('a', 'u', 'g') then Some(8) else if l == ('s', 'e', 'p') then Some(9)
    else if l == ('o', 'c', 't') then Some(10) else if l == ('n', 'o', 'v') then Some(11) else if l == ('d', 'e', 'c') then Some(12)
    else None
  }

  /** `%b`: an English month abbreviation in any letter case. */
  function MonthOf(s: string): (r: Option<int>)
    ensures r.Some? ==> |s| == 3 && 1 <= r.value <= 12 && MonthLetters(r.value) == (LowerChar(s[0]), LowerChar(s[1]), LowerChar(s[2]))
  {
    if |s| == 3 then MonthCode((LowerChar(s[0]), LowerChar(s[1]), LowerChar(s[2]))) else None
  }

  /** `%d`: one digit from 1 to 9, or two digits from 01 to 31. */
  function DayOf(s: string): (r: Option<int>)
    ensures r.Some? ==> 1 <= r.value <= 31
  {
    assert |s| == 1 && '1' <= s[0] <= '9' ==> DigitsValue(s) == DigitsValue(s[..0]) * 10 + (s[0] as int - '0' as int);
    if |s| == 1 && '1' <= s[0] <= '9' then Some(DigitsValue(s))
    else if |s| == 2 && IsDigit(s[0]) && IsDigit(s[1]) && 1 <= DigitsValue(s) <= 31 then Some(DigitsValue(s))
    else None
  }

  /** `%I`: one digit from 1 to 9, or two digits from 01 to 12. */
  function HourOf(s: string): (r: Option<int>)
    ensures r.Some? ==> 1 <= r.value <= 12
  {
    assert |s| == 1 && '1' <= s[0] <= '9' ==> DigitsValue(s) == DigitsValue(s[..0]) * 10 + (s[0] as int - '0' as int);
    if |s| == 1 && '1' <= s[0] <= '9' then Some(DigitsValue(s))
    else if |s| == 2 && IsDigit(s[0]) && IsDigit(s[1]) && 1 <= DigitsValue(s) <= 12 then Some(DigitsValue(s))
    else None
  }

  /** `%I %p` to a 24-hour clock: 12 AM is midnight, 12 PM is noon. */
  function Hour24(h12: int, pm: bool): (h: int)
    requires 1 <= h12 <= 12
    ensures 0 <= h < 24
    ensures (h < 12) <==> !pm
  {
    if h12 == 12 then (if pm then 12 else 0) else if pm then h12 + 12 else h12
  }

  /** Python's `int(s)` on the forms a year field takes: surrounding whitespace, an optional sign, decimal digits. */
  function PyInt(s: string): (r: Option<int>)
  {
    var t := Strip(s);
    if |t| > 1 && t[0] == '+' then (if t[1] == '-' then None else ParseInt(t[1..]))
    else ParseInt(t)
  }

  /**
   * `pd.to_datetime(f"{month} {day} {year} {time}", format='%b %d %Y %I %p')`,
   * matched field by field: `%Y` takes exactly four digits, the time is an
   * hour and an AM/PM marker, the day must exist in that month, and the
   * result must fit a Timestamp; anything else raises.
   */
  function Strptime(monthText: string, dayText: string, year: int, timeText: string): (r: Option<DateTime>)
    ensures r.Some? ==> Representable(r.value)
  {
    if !(1000 <= year <= 9999) then None
    else
      match MonthOf(monthText)
      case None => None
      case Some(m) =>
        match DayOf(dayText)
        case None => None
        case Some(d) =>
          match ClockOf(timeText)
          case None => None
          case Some(h) => Assemble(year, m, d, h)
  }

  /** The moment of those fields, when a Timestamp can hold it. */
  function Assemble(year: int, m: int, d: int, h: int): (r: Option<DateTime>)
    ensures r.Some? ==> Representable(r.value)
  {
    var t := DateTime(year, m, d, h, 0, 0);
    if Representable(t) then Some(t) else None
  }

  /** `%I %p`: an hour of one or two digits, one space, then "AM" or "PM" in any letter case; the hour of the day named. */
  function ClockOf(timeText: string): (r: Option<int>)
    ensures r.Some? ==> 0 <= r.value < 24
  {
    var n := |timeText|;
    if n < 4 || timeText[n - 3] != ' ' then None
    else
      var a, m := LowerChar(timeText[n - 2]), LowerChar(timeText[n - 1]);
      match HourOf(timeText[..n - 3])
      case None => None
      case Some(h12) => if m == 'm' && (a == 'a' || a == 'p') then Some(Hour24(h12, a == 'p')) else None
  }

  /**
   * `parse_custom_datetime`: "Mon-DD-YY@H AM/PM" with a two-digit year read
   * as 20YY; a text without "@", or whose date part is not three "-"
   * pieces, goes to the generic parser `coerce`; a null or empty cell and
   * every failure give None.
   */
  function ParseCustomDatetime(cell: Option<string>, coerce: string -> Option<DateTime>): (r: Option<DateTime>)
    ensures cell.None? || cell == Some("") ==> r.None?
    ensures cell.Some? && '@' !in cell.value && cell.value != "" ==> r == coerce(cell.value)
  {
    if cell.None? || cell.value == "" then None
    else if '@' !in cell.value then coerce(cell.value)
    else ParseAtForm(cell.value, coerce)
  }

  /** The "@" branch: exactly two sides, else the unpacking raises; a date side not in three "-" pieces goes to `coerce`. */
  function ParseAtForm(s: string, coerce: string -> Option<DateTime>): (r: Option<DateTime>)
    ensures |Split(s, "@")| != 2 ==> r.None?
  {
    var parts := Split(s, "@");
    if |parts| != 2 then None
    else
      var comps := Split(parts[0], "-");
      if |comps| != 3 then coerce(s)
      else ParseFields(comps[0], comps[1], comps[2], Strip(parts[1]))
  }

  /** A two-character year field is prefixed with "20" before `int()`. */
  function ParseFields(monthText: string, dayText: string, yearText: string, timeText: string): (r: Option<DateTime>)
    ensures r.Some? ==> Representable(r.value)
  {
    match PyInt(if |yearText| == 2 then "20" + yearText else yearText)
    case None => None
    case Some(year) => Strptime(monthText, dayText, year, timeText)
  }

  /** The month abbreviation as the data writes it: "Jan", "Feb", ... */
  function Abbrev(m: int): (r: string)
    requires 1 <= m <= 12
  {
    var l := MonthLetters(m);
    [UpperChar(l.0), l.1, l.2]
  }

  /** The 12-hour clock reading of an hour of the day. */
  function Hour12(h: int): (r: int)
    requires 0 <= h < 24
    ensures 1 <= r <= 12
  {
    if h % 12 == 0 then 12 else h % 12
  }

  function Marker(h: int): string
  {
    if h < 12 then "AM" else "PM"
  }

  /** "6 PM": the twelve-hour clock reading and its marker. */
  function ClockText(h: int): string
    requires 0 <= h < 24
  {
    HourDigits(Hour12(h)) + " " + Marker(h)
  }

  /** `str(k)` for a clock hour. */
  function HourDigits(k: int): (r: string)
    requires 1 <= k <= 12
    ensures forall i :: 0 <= i < |r| ==> IsDigit(r[i])
  {
    if k < 10 then [DigitChar(k)] else ['1', DigitChar(k - 10)]
  }

  /** "Feb-04-25": abbreviation, zero-padded day, two-digit year. */
  function DateText(t: DateTime): string
    requires 1 <= t.month <= 12 && 1 <= t.day <= 31 && 2000 <= t.year <= 2099
  {
    Abbrev(t.month) + "-" + Pad2(t.day) + "-" + Pad2(t.year - 2000)
  }

  /** The start-time text the training tables hold, for a time on the hour in 2000-2099. */
  function CustomText(t: DateTime): string
    requires ValidDate(t.year, t.month, t.day) && 2000 <= t.year <= 2099
    requires 0 <= t.hour < 24
  {
    DateText(t) + "@" + ClockText(t.hour)
  }

  /** The month table is read back from its abbreviations. */
  lemma MonthCodeOf(m: int)
    requires 1 <= m <= 12
    ensures MonthCode(MonthLetters(m)) == Some(m)
  {
  }

  lemma AbbrevRead(m: int)
    requires 1 <= m <= 12
    ensures MonthOf(Abbrev(m)) == Some(m)
    ensures '@' !in Abbrev(m) && '-' !in Abbrev(m)
  {
    var l := MonthLetters(m);
    assert 'a' <= l.0 <= 'z' && 'a' <= l.1 <= 'z' && 'a' <= l.2 <= 'z';
    var a := Abbrev(m);
    assert LowerChar(a[0]) == l.0 && LowerChar(a[1]) == l.1 && LowerChar(a[2]) == l.2;
    MonthCodeOf(m);
  }

  /** `c` splits `x + c + y` into its two sides when neither holds it. */
  lemma SplitAround(x: string, y: string, c: char)
    requires c !in x && c !in y
    ensures Split(x + [c] + y, [c]) == [x, y]
  {
    CharFreeSeparable(x, c);
    CharFreeSeparable(y, c);
    assert Join([x, y], [c]) == x + [c] + y;
    SplitJoin([x, y], [c]);
  }

  /** "-" splits the date text into month, day and year. */
  lemma DateTextSplit(t: DateTime)
    requires 1 <= t.month <= 12 && 1 <= t.day <= 31 && 2000 <= t.year <= 2099
    ensures Split(DateText(t), "-") == [Abbrev(t.month), Pad2(t.day), Pad2(t.year - 2000)]
    ensures '@' !in DateText(t)
  {
    var a, d, y := Abbrev(t.month), Pad2(t.day), Pad2(t.year - 2000);
    AbbrevRead(t.month);
    assert '-' !in d && '-' !in y && '@' !in d && '@' !in y;
    CharFreeSeparable(a, '-');
    CharFreeSeparable(d, '-');
    CharFreeSeparable(y, '-');
    var xs := [a, d, y];
    assert Join(xs[1..], "-") == d + "-" + y by {
      assert xs[1..] == [d, y];
      assert Join([d, y][1..], "-") == y;
    }
    assert Join(xs, "-") == DateText(t);
    SplitJoin(xs, "-");
  }

  lemma DayRead(d: int)
    requires 1 <= d <= 31
    ensures DayOf(Pad2(d)) == Some(d)
  {
    Pad2Value(d);
  }

  /** A two-digit year field is read as 20YY. */
  lemma CenturyYear(yy: nat)
    requires yy < 100
    ensures PyInt("20" + Pad2(yy)) == Some(2000 + yy)
  {
    var s := "20" + Pad2(yy);
    assert s[0] == '2' && s[3] == Pad2(yy)[1];
    StripCharsNoop(s, Whitespace);
    assert forall i :: 0 <= i < |s| ==> IsDigit(s[i]);
    ParseDigits(s);
    DigitValue(yy / 10);
    DigitValue(yy % 10);
    assert s[..3][..2] == "20";
    assert "20"[..1] == "2";
    assert "2"[..0] == [];
    assert DigitsValue("20") == 20;
    assert DigitsValue(s[..3]) == 200 + yy / 10;
  }

  /** The hour as the twelve-hour clock writes it is read back. */
  lemma HourRead(h12: int)
    requires 1 <= h12 <= 12
    ensures HourOf(HourDigits(h12)) == Some(h12)
    ensures ' ' !in HourDigits(h12) && '@' !in HourDigits(h12)
  {
    var s := HourDigits(h12);
    if h12 < 10 {
      DigitValue(h12);
      assert s == [DigitChar(h12)] && s[..0] == [];
      assert DigitsValue(s) == DigitsValue(s[..0]) * 10 + (s[0] as int - '0' as int);
      assert '1' <= s[0] <= '9';
    } else {
      DigitValue(h12 - 10);
      assert s == ['1', DigitChar(h12 - 10)];
      assert s[..1] == ['1'];
      assert s[..1][..0] == [];
      assert DigitsValue(s[..1]) == 1;
      assert DigitsValue(s) == DigitsValue(s[..1]) * 10 + (s[1] as int - '0' as int);
      assert IsDigit(s[0]) && IsDigit(s[1]);
    }
  }

  lemma ClockRead(h: int)
    requires 0 <= h < 24
    ensures ClockOf(ClockText(h)) == Some(h)
    ensures Strip(ClockText(h)) == ClockText(h)
    ensures '@' !in ClockText(h)
  {
    var k := Hour12(h);
    HourRead(k);
    ClockOfParts(HourDigits(k), Marker(h), k, h >= 12);
    Hour12Back(h);
    ClockStripped(h);
  }

  /** The twelve-hour reading and its marker give the hour back. */
  lemma Hour12Back(h: int)
    requires 0 <= h < 24
    ensures Hour24(Hour12(h), h >= 12) == h
  {
  }

  lemma ClockOfParts(digits: string, marker: string, k: int, pm: bool)
    requires 1 <= k <= 12 && |digits| > 0 && HourOf(digits) == Some(k) && ' ' !in digits && '@' !in digits
    requires marker == if pm then "PM" else "AM"
    ensures ClockOf(digits + " " + marker) == Some(Hour24(k, pm))
    ensures '@' !in digits + " " + marker
  {
    var text := digits + " " + marker;
    var n := |text|;
    assert n == |digits| + 3 && text[n - 3] == ' ';
    assert text[..n - 3] == digits;
    assert text[n - 2] == marker[0] && text[n - 1] == marker[1];
  }

  lemma ClockStripped(h: int)
    requires 0 <= h < 24
    ensures Strip(ClockText(h)) == ClockText(h)
  {
    var text := ClockText(h);
    assert text[0] == HourDigits(Hour12(h))[0] && text[|text| - 1] == 'M';
    StripCharsNoop(text, Whitespace);
  }

  lemma FieldsRead(t: DateTime)
    requires ValidDate(t.year, t.month, t.day) && 2000 <= t.year <= 2099
    requires 0 <= t.hour < 24 && t.minute == 0 && t.second == 0
    ensures ParseFields(Abbrev(t.month), Pad2(t.day), Pad2(t.year - 2000), ClockText(t.hour)) == Some(t)
  {
    ShortYearRead(Abbrev(t.month), Pad2(t.day), t.year - 2000, ClockText(t.hour));
    StrptimeRead(t, t.hour);
  }

  /** A two-digit year is read in the 2000s, whatever the other fields hold. */
  lemma ShortYearRead(monthText: string, dayText: string, yy: nat, timeText: string)
    requires yy < 100
    ensures ParseFields(monthText, dayText, Pad2(yy), timeText) == Strptime(monthText, dayText, 2000 + yy, timeText)
  {
    CenturyYear(yy);
  }

  lemma StrptimeRead(t: DateTime, h: int)
    requires ValidDate(t.year, t.month, t.day) && 2000 <= t.year <= 2099
    requires 0 <= h < 24 && t.hour == h && t.minute == 0 && t.second == 0
    ensures Strptime(Abbrev(t.month), Pad2(t.day), t.year, ClockText(h)) == Some(t)
  {
    assert MonthOf(Abbrev(t.month)) == Some(t.month) by { AbbrevRead(t.month); }
    assert DayOf(Pad2(t.day)) == Some(t.day) by { DayRead(t.day); }
    assert ClockOf(ClockText(h)) == Some(h) by { ClockRead(h); }
    StrptimeFields(Abbrev(t.month), Pad2(t.day), t.year, ClockText(h), t.month, t.day, h);
    assert Assemble(t.year, t.month, t.day, h) == Some(t) by {
      assert Representable(t);
    }
  }

  /** `strptime` on fields that each read as intended assembles them. */
  lemma StrptimeFields(monthText: string, dayText: string, year: int, timeText: string, m: int, d: int, h: int)
    requires 1000 <= year <= 9999
    requires MonthOf(monthText) == Some(m) && DayOf(dayText) == Some(d) && ClockOf(timeText) == Some(h)
    ensures Strptime(monthText, dayText, year, timeText) == Assemble(year, m, d, h)
  {
  }

  /**
   * Round trip of the custom format: the text the training tables store for
   * a start time on the hour in 2000-2099 parses back to that time, whatever
   * the generic parser would do.
   */
  lemma CustomRoundTrip(t: DateTime, coerce: string -> Option<DateTime>)
    requires ValidDate(t.year, t.month, t.day) && 2000 <= t.year <= 2099
    requires 0 <= t.hour < 24 && t.minute == 0 && t.second == 0
    ensures ParseCustomDatetime(Some(CustomText(t)), coerce) == Some(t)
  {
    var text, date, clock := CustomText(t), DateText(t), ClockText(t.hour);
    var m, d, y := Abbrev(t.month), Pad2(t.day), Pad2(t.year - 2000);
    PiecesRead(t, text, date, clock, m, d, y);
    ParseChain(text, date, clock, m, d, y, t, coerce);
  }

  /** Each piece of the custom text of `t` reads back as the parser expects. */
  lemma PiecesRead(t: DateTime, text: string, date: string, clock: string, m: string, d: string, y: string)
    requires ValidDate(t.year, t.month, t.day) && 2000 <= t.year <= 2099
    requires 0 <= t.hour < 24 && t.minute == 0 && t.second == 0
    requires text == CustomText(t) && date == DateText(t) && clock == ClockText(t.hour)
    requires m == Abbrev(t.month) && d == Pad2(t.day) && y == Pad2(t.year - 2000)
    ensures '@' in text && Split(text, "@") == [date, clock]
    ensures Split(date, "-") == [m, d, y] && Strip(clock) == clock
    ensures ParseFields(m, d, y, clock) == Some(t)
  {
    CustomTextSplit(t);
    DateTextSplit(t);
    ClockStripped(t.hour);
    FieldsRead(t);
  }

  /** "@" splits the custom text into its date side and its clock side. */
  lemma CustomTextSplit(t: DateTime)
    requires ValidDate(t.year, t.month, t.day) && 2000 <= t.year <= 2099
    requires 0 <= t.hour < 24
    ensures '@' in CustomText(t)
    ensures Split(CustomText(t), "@") == [DateText(t), ClockText(t.hour)]
  {
    assert CustomText(t) == DateText(t) + ['@'] + ClockText(t.hour);
    assert '@' !in DateText(t) by { DateTextSplit(t); }
    assert '@' !in ClockText(t.hour) by { ClockRead(t.hour); }
    SplitAtSign(DateText(t), ClockText(t.hour));
  }

  lemma SplitAtSign(date: string, clock: string)
    requires '@' !in date && '@' !in clock
    ensures '@' in date + ['@'] + clock
    ensures Split(date + ['@'] + clock, "@") == [date, clock]
  {
    assert (date + ['@'] + clock)[|date|] == '@';
    SplitAround(date, clock, '@');
  }

  /** The parser's steps on a text whose pieces each read as intended. */
  lemma ParseChain(s: string, date: string, clock: string, m: string, d: string, y: string, t: DateTime, coerce: string -> Option<DateTime>)
    requires '@' in s && Split(s, "@") == [date, clock]
    requires Split(date, "-") == [m, d, y] && Strip(clock) == clock
    requires ParseFields(m, d, y, clock) == Some(t)
    ensures ParseCustomDatetime(Some(s), coerce) == Some(t)
  {
    AtFormDelegates(s, coerce);
    AtFormFields(s, date, clock, coerce);
  }

  lemma AtFormDelegates(s: string, coerce: string -> Option<DateTime>)
    requires '@' in s
    ensures ParseCustomDatetime(Some(s), coerce) == ParseAtForm(s, coerce)
  {
  }

  lemma AtFormFields(s: string, date: string, clock: string, coerce: string -> Option<DateTime>)
    requires Split(s, "@") == [date, clock] && |Split(date, "-")| == 3
    ensures ParseAtForm(s, coerce) == ParseFields(Split(date, "-")[0], Split(date, "-")[1], Split(date, "-")[2], Strip(clock))
  {
  }

  // ---------------------------------------------------------------------
  // Time labels

  /** `dt.quarter`. */
  function QuarterOf(month: int): int
  {
    (month - 1) / 3 + 1
  }

  /** "monthly" gives "YYYY-MM", "quarterly" "YYYY-Qn", and any other value the year. */
  function TimeLabel(aggregation: string, t: DateTime): string
  {
    if aggregation == "monthly" then MonthLabel(t.year, t.month)
    else if aggregation == "quarterly" then QuarterLabel(t.year, QuarterOf(t.month))
    else IntToString(t.year)
  }

  /** The period a start time falls in, as a number that grows with time. */
  function PeriodIndex(aggregation: string, t: DateTime): int
  {
    if aggregation == "monthly" then t.year * 12 + t.month
    else if aggregation == "quarterly" then t.year * 4 + QuarterOf(t.month)
    else t.year
  }

  /**
   * For start times a timestamp can hold, labels are equal exactly for one
   * period and compare as strings in calendar order, so sorting by the
   * label is sorting by time.
   */
  lemma TimeLabelOrder(aggregation: string, t1: DateTime, t2: DateTime)
    requires Representable(t1) && Representable(t2)
    ensures TimeLabel(aggregation, t1) == TimeLabel(aggregation, t2) <==> PeriodIndex(aggregation, t1) == PeriodIndex(aggregation, t2)
    ensures StrLess(TimeLabel(aggregation, t1), TimeLabel(aggregation, t2)) <==> PeriodIndex(aggregation, t1) < PeriodIndex(aggregation, t2)
  {
    var y1, y2 := t1.year, t2.year;
    if aggregation == "monthly" {
      MonthLabelInjective(y1, t1.month, y2, t2.month);
      MonthLabelOrder(y1, t1.month, y2, t2.month);
    } else if aggregation == "quarterly" {
      var q1, q2 := QuarterOf(t1.month), QuarterOf(t2.month);
      assert 1 <= q1 <= 4 && 1 <= q2 <= 4;
      QuarterLabelInjective(y1, q1, y2, q2);
      QuarterLabelOrder(y1, q1, y2, q2);
    } else {
      YearLabelOrder(y1, y2);
      if IntToString(y1) == IntToString(y2) {
        IntToStringInjective(y1, y2);
      }
    }
  }
}
