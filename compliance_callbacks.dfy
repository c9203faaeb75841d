/**
 * The compliance filter panel's callbacks (src/callbacks/compliance_callbacks/compliance_filters.py):
 * the initial, change and clear callbacks, and the store writer whose output
 * `apply_compliance_filters` reads back.
 */
module ComplianceCallbacks {
  import opened Common
  import opened ComplianceData
  import opened ComplianceFilters

  // ---------------------------------------------------------------------
  // Callbacks

  /** Where a dropdown sits in the panel. */
  function PanelIndex(f: Field): (k: nat)
    ensures k < |PanelOrder| && PanelOrder[k] == f
  {
    match f
    case ScalarField(DispositionColumn) => 0
    case ScalarField(AssignedUserColumn) => 1
    case ListField(ViolationNameColumn) => 2
    case ListField(RuleNumberColumn) => 3
    case ListField(RuleTitleColumn) => 4
    case ListField(CitationFeeColumn) => 5
    case ListField(FineTypeColumn) => 6
    case ReportsField => 7
  }

  /** The dropdowns a change callback refreshes: all but the one that fired, in panel order. */
  function Others(trigger: Field): seq<Field>
  {
    var k := PanelIndex(trigger);
    PanelOrder[..k] + PanelOrder[k + 1..]
  }

  lemma PanelOrderDistinct()
    ensures NoDuplicates(PanelOrder)
  {
  }

  /** Removing position `k` from a duplicate-free list removes exactly that element. */
  lemma RemoveAt<T>(xs: seq<T>, k: nat)
    requires NoDuplicates(xs) && k < |xs|
    ensures forall x :: x in xs[..k] + xs[k + 1..] <==> x in xs && x != xs[k]
    ensures NoDuplicates(xs[..k] + xs[k + 1..])
  {
    var ys := xs[..k] + xs[k + 1..];
    forall x | x in ys ensures x in xs && x != xs[k] {
      var i :| 0 <= i < |ys| && ys[i] == x;
      if i < k { assert ys[i] == xs[i]; } else { assert ys[i] == xs[i + 1]; }
    }
    forall x | x in xs && x != xs[k] ensures x in ys {
      var i :| 0 <= i < |xs| && xs[i] == x;
      if i < k { assert ys[i] == xs[i]; } else { assert ys[i - 1] == xs[i]; }
    }
    forall i, j | 0 <= i < j < |ys| ensures ys[i] != ys[j] {
      var i' := if i < k then i else i + 1;
      var j' := if j < k then j else j + 1;
      assert ys[i] == xs[i'] && ys[j] == xs[j'];
    }
  }

  /** A change callback refreshes exactly seven dropdowns: every one except the trigger, each once. */
  lemma OthersSpec(trigger: Field)
    ensures |Others(trigger)| == 7
    ensures forall f :: f in Others(trigger) <==> f != trigger
    ensures NoDuplicates(Others(trigger))
  {
    var k := PanelIndex(trigger);
    PanelOrderDistinct();
    RemoveAt(PanelOrder, k);
    assert |Others(trigger)| == |PanelOrder| - 1;
    forall f ensures f in Others(trigger) <==> f != trigger {
      PanelOrderComplete(f);
    }
  }

  /** The list one dropdown receives: regenerated from the cross-filtered frame, empty when loading or filtering raised. */
  function Refreshed(loaded: Option<seq<AttrRow>>, s: Selections, f: Field, fmt: Formatting): seq<DropOption>
  {
    if loaded.None? then []
    else
      match ApplyFilters(loaded.value, s)
      case None => []
      case Some(out) => OptionsFor(out, f, fmt)
  }

  /** A change callback: the seven other dropdowns' lists, all computed from all eight current selections. */
  function OnChange(loaded: Option<seq<AttrRow>>, trigger: Field, s: Selections, fmt: Formatting): seq<seq<DropOption>>
  {
    Map(Others(trigger), (f: Field) => Refreshed(loaded, s, f, fmt))
  }

  /**
   * No precedence: whichever dropdown fires, the list shown for any other
   * dropdown is the same and is generated from the frame narrowed by every
   * current selection.
   */
  lemma NoPrecedence(loaded: Option<seq<AttrRow>>, t1: Field, t2: Field, s: Selections, fmt: Formatting, i: nat, j: nat)
    requires i < |Others(t1)| && j < |Others(t2)| && Others(t1)[i] == Others(t2)[j]
    ensures OnChange(loaded, t1, s, fmt)[i] == OnChange(loaded, t2, s, fmt)[j]
    ensures loaded.Some? && ApplyFilters(loaded.value, s).Some? ==>
      OnChange(loaded, t1, s, fmt)[i] == OptionsFor(ApplyFilters(loaded.value, s).value, Others(t1)[i], fmt)
  {
  }

  /** Any exception in a change callback gives seven empty lists; without one, every list starts with "All". */
  lemma OnChangeOutcomes(loaded: Option<seq<AttrRow>>, trigger: Field, s: Selections, fmt: Formatting)
    ensures var out := OnChange(loaded, trigger, s, fmt);
      |out| == 7 &&
      ((loaded.None? || ApplyFilters(loaded.value, s).None?) ==> forall i :: 0 <= i < 7 ==> out[i] == []) &&
      ((loaded.Some? && ApplyFilters(loaded.value, s).Some?) ==>
        forall i :: 0 <= i < 7 ==> |out[i]| > 0 && out[i][0].value == AllSentinel)
  {
  }

  // ---------------------------------------------------------------------
  // The callbacks as written: a list column whose lists hold a null beside
  // another element makes `sorted` raise, and the whole callback falls back.

  /** One dropdown's list as written, None where generating it raises. */
  function OptionsAsWritten(rows: seq<AttrRow>, f: Field, fmt: Formatting): (r: Option<seq<DropOption>>)
    ensures r.Some? ==> r.value == OptionsFor(rows, f, fmt)
  {
    match f
    case ListField(col) => ListOptionsAsWritten(rows, col, fmt)
    case _ => Some(OptionsFor(rows, f, fmt))
  }

  /**
   * The lists of several dropdowns generated one after the other inside one
   * `try`: the first that raises aborts the rest, so the lists come back only
   * when none of them raises.
   */
  function AllOptionsAsWritten(rows: seq<AttrRow>, fs: seq<Field>, fmt: Formatting): (r: Option<seq<seq<DropOption>>>)
    ensures r.Some? ==> |r.value| == |fs| && forall i :: 0 <= i < |fs| ==> r.value[i] == OptionsFor(rows, fs[i], fmt)
    ensures r.None? <==> exists i :: 0 <= i < |fs| && OptionsAsWritten(rows, fs[i], fmt).None?
  {
    if exists i :: 0 <= i < |fs| && OptionsAsWritten(rows, fs[i], fmt).None? then None
    else Some(Map(fs, (f: Field) => OptionsFor(rows, f, fmt)))
  }

  /** The seven empty lists a failed change callback returns. */
  const NoLists: seq<seq<DropOption>> := [[], [], [], [], [], [], []]

  /** A change callback as written: any raise, in loading, filtering or generating a list, gives seven empty lists. */
  function OnChangeAsWritten(loaded: Option<seq<AttrRow>>, trigger: Field, s: Selections, fmt: Formatting): seq<seq<DropOption>>
  {
    if loaded.None? then NoLists
    else
      match ApplyFilters(loaded.value, s)
      case None => NoLists
      case Some(out) =>
        match AllOptionsAsWritten(out, Others(trigger), fmt)
        case None => NoLists
        case Some(lists) => lists
  }

  /**
   * The change callback as written agrees with the intended one unless
   * generating a list raises, and then shows seven empty lists.
   */
  lemma OnChangeAsWrittenSpec(loaded: Option<seq<AttrRow>>, trigger: Field, s: Selections, fmt: Formatting)
    ensures var out := OnChangeAsWritten(loaded, trigger, s, fmt);
      if loaded.Some? && ApplyFilters(loaded.value, s).Some? &&
         AllOptionsAsWritten(ApplyFilters(loaded.value, s).value, Others(trigger), fmt).Some?
      then out == OnChange(loaded, trigger, s, fmt)
      else out == NoLists
  {
    OthersSpec(trigger);
  }

  /**
   * One violation list `[null, "Late Listing"]` and nothing selected: the
   * Disposition change callback as written empties all seven lists, while
   * the intended one offers "Late Listing" among the violation names.
   */
  lemma NullElementEmptiesLists(fmt: Formatting)
    ensures var rows := [AttrRow(None, None, Some([None, Some("Late Listing")]), None, None, None, None, 0)];
      var s := ClearAll(0).2;
      OnChangeAsWritten(Some(rows), ScalarField(DispositionColumn), s, fmt) == NoLists &&
      OnChange(Some(rows), ScalarField(DispositionColumn), s, fmt)[1][1..] == [DropOption("Late Listing", "Late Listing")]
  {
    var rows := [AttrRow(None, None, Some([None, Some("Late Listing")]), None, None, None, None, 0)];
    var s := ClearAll(0).2;
    ClearedKeepsAll(rows, 0);
    NullElementRaises(fmt);
    var others := Others(ScalarField(DispositionColumn));
    assert others[1] == ListField(ViolationNameColumn);
    assert OptionsAsWritten(rows, others[1], fmt).None?;
  }

  /** One dropdown's initial state: its options and its placeholder text. */
  datatype Panel = Panel(options: seq<DropOption>, placeholder: string)

  function ReadyPlaceholder(f: Field): string
  {
    match f
    case ScalarField(DispositionColumn) => "Select Disposition..."
    case ScalarField(AssignedUserColumn) => "Select Agent..."
    case ListField(ViolationNameColumn) => "Select Violation Names..."
    case ListField(RuleNumberColumn) => "Select Rule Numbers..."
    case ListField(RuleTitleColumn) => "Search Rule Title..."
    case ListField(CitationFeeColumn) => "Select Citation Fee..."
    case ListField(FineTypeColumn) => "Select Fine Type..."
    case ReportsField => "Select Number of Reports..."
  }

  function ErrorPlaceholder(f: Field): string
  {
    match f
    case ScalarField(DispositionColumn) => "Error loading Disposition"
    case ScalarField(AssignedUserColumn) => "Error loading Assigned Agents"
    case ListField(ViolationNameColumn) => "Error loading Violation Names"
    case ListField(RuleNumberColumn) => "Error loading Rule Numbers"
    case ListField(RuleTitleColumn) => "Error loading Rule Titles"
    case ListField(CitationFeeColumn) => "Error loading Citation Fees"
    case ListField(FineTypeColumn) => "Error loading Fine Types"
    case ReportsField => "Error loading Number of Reports"
  }

  /** `populate_initial_filters`: every list from the full frame, or on failure no list and an error placeholder. */
  function InitialPanels(loaded: Option<seq<AttrRow>>, fmt: Formatting): (r: seq<Panel>)
    ensures |r| == 8
    ensures forall i :: 0 <= i < 8 ==>
      if loaded.Some? then r[i] == Panel(OptionsFor(loaded.value, PanelOrder[i], fmt), ReadyPlaceholder(PanelOrder[i]))
      else r[i] == Panel([], ErrorPlaceholder(PanelOrder[i]))
  {
    if loaded.None? then Map(PanelOrder, (f: Field) => Panel([], ErrorPlaceholder(f)))
    else Map(PanelOrder, (f: Field) => Panel(OptionsFor(loaded.value, f, fmt), ReadyPlaceholder(f)))
  }

  /** `populate_initial_filters` as written: a list that raises gives every dropdown the error state. */
  function InitialPanelsAsWritten(loaded: Option<seq<AttrRow>>, fmt: Formatting): seq<Panel>
  {
    if loaded.None? then InitialPanels(None, fmt)
    else
      match AllOptionsAsWritten(loaded.value, PanelOrder, fmt)
      case None => InitialPanels(None, fmt)
      case Some(_) => InitialPanels(loaded, fmt)
  }

  /** The initial callback as written agrees with the intended one unless a list raises, and then shows only error placeholders. */
  lemma InitialAsWrittenSpec(loaded: Option<seq<AttrRow>>, fmt: Formatting)
    ensures var r := InitialPanelsAsWritten(loaded, fmt);
      |r| == 8 &&
      if loaded.Some? && AllOptionsAsWritten(loaded.value, PanelOrder, fmt).Some?
      then r == InitialPanels(loaded, fmt)
      else forall i :: 0 <= i < 8 ==> r[i] == Panel([], ErrorPlaceholder(PanelOrder[i]))
  {
  }

  /** A list that raises while the panel loads puts every dropdown in the error state. */
  lemma RaiseErrorsInitial(rows: seq<AttrRow>, fmt: Formatting, i: nat)
    requires i < 8 && OptionsAsWritten(rows, PanelOrder[i], fmt).None?
    ensures InitialPanelsAsWritten(Some(rows), fmt) == InitialPanels(None, fmt)
  {
  }

  /** The same null element makes the initial callback as written show "Error loading Violation Names". */
  lemma NullElementErrorsInitial(fmt: Formatting)
    ensures var rows := [AttrRow(None, None, Some([None, Some("Late Listing")]), None, None, None, None, 0)];
      InitialPanelsAsWritten(Some(rows), fmt)[2] == Panel([], "Error loading Violation Names") &&
      InitialPanels(Some(rows), fmt)[2].options[1..] == [DropOption("Late Listing", "Late Listing")]
  {
    var rows := [AttrRow(None, None, Some([None, Some("Late Listing")]), None, None, None, None, 0)];
    NullElementRaises(fmt);
    assert PanelOrder[2] == ListField(ViolationNameColumn);
    assert OptionsAsWritten(rows, PanelOrder[2], fmt).None?;
    RaiseErrorsInitial(rows, fmt, 2);
    assert InitialPanels(Some(rows), fmt)[2].options == OptionsFor(rows, PanelOrder[2], fmt);
  }

  /** 2020-01-01 as a day number (days since 1970-01-01), the default start date. */
  const StartPlaceholderDay: int := 18262

  /** `clear_all_filters`: the default date range and every dropdown emptied. */
  function ClearAll(today: int): (int, int, Selections)
  {
    (StartPlaceholderDay, today, Selections(Some([]), Some([]), Some([]), Some([]), Some([]), Some([]), Some([]), Some([])))
  }

  /** After clearing, no selection narrows the attribute frame. */
  lemma ClearedKeepsAll(rows: seq<AttrRow>, today: int)
    ensures ApplyFilters(rows, ClearAll(today).2) == Some(rows)
  {
    var s := ClearAll(today).2;
    assert SelectedCounts(s.reports) == Some([]);
    var ns := Narrowings(s, []);
    assert forall k :: 0 <= k < |ns| ==> ns[k] == KeepAll;
    KeepAllChain(rows, ns);
  }

  /** Steps that keep everything leave the frame as it is. */
  lemma {:induction false} KeepAllChain(rows: seq<AttrRow>, ns: seq<Narrowing>)
    requires forall k :: 0 <= k < |ns| ==> ns[k] == KeepAll
    ensures NarrowAll(rows, ns) == Some(rows)
    decreases |ns|
  {
    if |ns| > 0 {
      assert !exists r :: r in rows && Raises(ns[0], r);
      FilterAll(rows, KeepsOf(KeepAll));
      assert Narrow(rows, ns[0]) == Some(rows);
      KeepAllChain(rows, ns[1..]);
    }
  }

  // ---------------------------------------------------------------------
  // The store writer (`filter_data_query`)

  /** The store key each dropdown is written under. */
  function StoreKey(f: Field): string
  {
    match f
    case ScalarField(DispositionColumn) => "Disposition"
    case ScalarField(AssignedUserColumn) => "AssignedUser"
    case ListField(ViolationNameColumn) => "ViolationName"
    case ListField(RuleNumberColumn) => "RuleNumber"
    case ListField(RuleTitleColumn) => "RuleTitle"
    case ListField(CitationFeeColumn) => "CitationFee"
    case ListField(FineTypeColumn) => "FineType"
    case ReportsField => "NumReports"
  }

  /** `", ".join(f"{num}" for num in sel)` when the selection is active, else "": the one unquoted entry. */
  function PlainList(sel: Selection): string
  {
    if IsActive(sel) then Join(sel.value, ", ") else ""
  }

  /** The text written for one dropdown: quoted items for all but the report counts. */
  function EntryText(f: Field, sel: Selection): string
  {
    if f == ReportsField then PlainList(sel) else QuotedList(sel)
  }

  /** `filter_data_query`: the two dates (defaulted) and one entry per dropdown. */
  function FilterDataQuery(start: Option<int>, end: Option<int>, today: int, s: Selections): (st: Store)
    ensures st.dates.Keys == {"Day_From", "Day_To"}
    ensures st.dates["Day_From"] == (if start.Some? then start.value else StartPlaceholderDay)
    ensures st.dates["Day_To"] == (if end.Some? then end.value else today)
  {
    Store(
      map["Day_From" := (if start.Some? then start.value else StartPlaceholderDay),
          "Day_To" := (if end.Some? then end.value else today)],
      map["Disposition" := QuotedList(s.disposition),
          "AssignedUser" := QuotedList(s.agent),
          "ViolationName" := QuotedList(s.violations),
          "RuleNumber" := QuotedList(s.rules),
          "RuleTitle" := QuotedList(s.titles),
          "CitationFee" := QuotedList(s.fees),
          "FineType" := QuotedList(s.fineTypes),
          "NumReports" := PlainList(s.reports)])
  }

  /**
   * Every dropdown is written under its own key: as single-quoted items for
   * all but the report counts, which are joined unquoted, and as "" when
   * the selection imposes nothing.
   */
  lemma FilterDataQueryText(start: Option<int>, end: Option<int>, today: int, s: Selections, f: Field)
    ensures var st := FilterDataQuery(start, end, today, s);
      StoreKey(f) in st.text && st.text[StoreKey(f)] == EntryText(f, SelectionFor(s, f)) &&
      (!IsActive(SelectionFor(s, f)) ==> st.text[StoreKey(f)] == "")
  {
    var st := FilterDataQuery(start, end, today, s);
    match f
    case ScalarField(DispositionColumn) =>
    case ScalarField(AssignedUserColumn) =>
    case ListField(ViolationNameColumn) =>
    case ListField(RuleNumberColumn) =>
    case ListField(RuleTitleColumn) =>
    case ListField(CitationFeeColumn) =>
    case ListField(FineTypeColumn) =>
    case ReportsField =>
  }

  // ---------------------------------------------------------------------
  // Reading the store back (`apply_compliance_filters`)

  /** The items the quoted encoding carries faithfully: free of commas, not quote-delimited. */
  predicate Quotable(x: string)
  {
    ',' !in x && (|x| > 0 ==> x[0] != '\'' && x[|x| - 1] != '\'')
  }

  /** The items the unquoted encoding carries faithfully: free of commas, not whitespace-delimited. */
  predicate Plain(x: string)
  {
    ',' !in x && (|x| > 0 ==> x[0] !in Whitespace && x[|x| - 1] !in Whitespace)
  }

  lemma TokenOfQuoted(x: string)
    requires Quotable(x)
    ensures StoreToken(Quote(x)) == x && StoreToken(LeadSpace(Quote(x))) == x
  {
    var q := Quote(x);
    assert q == ['\''] + x + ['\''];
    assert Strip(q) == q by {
      LStripKeeps(q, Whitespace);
      RStripKeeps(q, Whitespace);
    }
    assert Strip(LeadSpace(q)) == q by {
      assert LeadSpace(q)[1..] == q;
      LStripKeeps(q, Whitespace);
      RStripKeeps(q, Whitespace);
    }
    StripWrapped(x, '\'', {'\''});
  }

  lemma StripPlain(x: string)
    requires Plain(x)
    ensures Strip(x) == x && Strip(LeadSpace(x)) == x
  {
    StripCharsNoop(x, Whitespace);
    var y := LeadSpace(x);
    assert y[1..] == x;
    if |x| > 0 {
      LStripKeeps(x, Whitespace);
      RStripKeeps(x, Whitespace);
    }
  }

  /** Splitting the spaced pieces of comma-free items on "," gives the pieces back. */
  lemma SplitSpaced(xs: seq<string>)
    requires |xs| > 0 && forall i :: 0 <= i < |xs| ==> ',' !in xs[i]
    ensures Split(Join(xs, ", "), ",") == Spaced(xs)
  {
    JoinSpaced(xs);
    var sp := Spaced(xs);
    forall i | 0 <= i < |sp| ensures Separable(sp[i], ",") {
      assert ',' !in sp[i] by {
        if i > 0 { assert sp[i] == " " + xs[i]; }
      }
      CharFreeSeparable(sp[i], ',');
    }
    SplitJoin(sp, ",");
  }

  /** The quoted store round trip: `apply_compliance_filters` reads an active selection of quotable items back item for item. */
  lemma QuotedRoundTrip(sel: Selection)
    requires IsActive(sel) && forall x :: x in sel.value ==> Quotable(x)
    ensures StoreTokens(QuotedList(sel)) == sel.value
  {
    var qs := Map(sel.value, Quote);
    QuotesCommaFree(sel.value);
    SplitSpaced(qs);
    var toks := StoreTokens(QuotedList(sel));
    forall i | 0 <= i < |sel.value| ensures toks[i] == sel.value[i] {
      assert sel.value[i] in sel.value;
      SpacedQuoteToken(sel.value, i);
    }
  }

  lemma QuotesCommaFree(xs: seq<string>)
    requires forall x :: x in xs ==> Quotable(x)
    ensures forall i :: 0 <= i < |xs| ==> ',' !in Map(xs, Quote)[i]
  {
    forall i | 0 <= i < |xs| ensures ',' !in Map(xs, Quote)[i] {
      assert xs[i] in xs;
      assert Map(xs, Quote)[i] == ['\''] + xs[i] + ['\''];
    }
  }

  lemma SpacedQuoteToken(xs: seq<string>, i: nat)
    requires i < |xs| && Quotable(xs[i])
    ensures StoreToken(Spaced(Map(xs, Quote))[i]) == xs[i]
  {
    TokenOfQuoted(xs[i]);
    var sp := Spaced(Map(xs, Quote));
    if i == 0 {
      assert sp[i] == Quote(xs[i]);
    } else {
      assert sp[i] == LeadSpace(Quote(xs[i]));
    }
  }

  /** The unquoted round trip: the report entry reads back as the integers of the selected values. */
  lemma PlainRoundTrip(sel: Selection)
    requires IsActive(sel) && forall x :: x in sel.value ==> Plain(x)
    ensures ReportTokens(PlainList(sel)) == IntsOf(sel.value)
  {
    var xs := sel.value;
    forall i | 0 <= i < |xs| ensures ',' !in xs[i] {
      assert xs[i] in xs;
    }
    SplitSpaced(xs);
    var stripped := Map(Split(PlainList(sel), ","), Strip);
    forall i | 0 <= i < |xs| ensures stripped[i] == xs[i] {
      assert xs[i] in xs;
      StripPlain(xs[i]);
    }
    assert stripped == xs;
  }

  /** A comma inside a quoted item splits it: a title "Late, Incomplete" is read back as two tokens. */
  lemma CommaSplitsItem()
    ensures StoreTokens(QuotedList(Some(["Late, Incomplete"]))) == ["Late", "Incomplete"]
  {
    QuotedCommaItem();
    TokensOfTwo("'Late", " Incomplete'");
    FirstPieceToken();
    SecondPieceToken();
  }

  lemma TokensOfTwo(x: string, y: string)
    requires ',' !in x && ',' !in y
    ensures StoreTokens(x + "," + y) == [StoreToken(x), StoreToken(y)]
  {
    SplitTwoPieces(x, y);
  }

  lemma QuotedCommaItem()
    ensures QuotedList(Some(["Late, Incomplete"])) == "'Late" + "," + " Incomplete'"
  {
    var item := "Late, Incomplete";
    assert item == "Late" + "," + " Incomplete";
    QuotedSingle(item);
    QuoteAroundComma("Late", " Incomplete");
  }

  /** A single active item is written as that item quoted. */
  lemma QuotedSingle(x: string)
    requires x != AllSentinel
    ensures QuotedList(Some([x])) == Quote(x)
  {
    assert Map([x], Quote) == [Quote(x)];
  }

  lemma QuoteAroundComma(x: string, y: string)
    ensures Quote(x + "," + y) == ("'" + x) + "," + (y + "'")
  {
  }

  lemma SplitTwoPieces(x: string, y: string)
    requires ',' !in x && ',' !in y
    ensures Split(x + "," + y, ",") == [x, y]
  {
    var pieces := [x, y];
    assert Join(pieces, ",") == x + "," + y by {
      assert pieces[1..] == [y];
    }
    CharFreeSeparable(x, ',');
    CharFreeSeparable(y, ',');
    SplitJoin(pieces, ",");
  }

  lemma FirstPieceToken()
    ensures StoreToken("'Late") == "Late"
  {
    LStripKeeps("'Late", Whitespace);
    RStripKeeps("'Late", Whitespace);
    assert "'Late"[1..] == "Late";
    LStripKeeps("Late", {'\''});
    RStripKeeps("Late", {'\''});
  }

  lemma SecondPieceToken()
    ensures StoreToken(" Incomplete'") == "Incomplete"
  {
    assert " Incomplete'"[1..] == "Incomplete'";
    LStripKeeps("Incomplete'", Whitespace);
    RStripKeeps("Incomplete'", Whitespace);
    LStripKeeps("Incomplete'", {'\''});
    assert "Incomplete'"[..10] == "Incomplete";
    RStripKeeps("Incomplete", {'\''});
  }

  /** Report option values are plain, so the store carries them faithfully. */
  lemma ReportValuesPlain(n: int)
    ensures Plain(IntToString(n)) && ParseInt(IntToString(n)) == Some(n)
  {
    ParseIntOfIntToString(n);
    var t := IntToString(n);
    if n < 0 {
      assert t == "-" + NatToString(-n);
    }
  }

  // ---------------------------------------------------------------------
  // Store and panel agree

  /** Every item of the selection survives the quoted encoding. */
  predicate QuotableSel(sel: Selection)
  {
    sel.Some? ==> forall x :: x in sel.value ==> Quotable(x)
  }

  /** Every item of the selection survives the unquoted encoding and is not empty. */
  predicate PlainSel(sel: Selection)
  {
    sel.Some? ==> forall x :: x in sel.value ==> Plain(x) && |x| > 0
  }

  /** Selections the store carries faithfully. */
  predicate Encodable(s: Selections)
  {
    QuotableSel(s.disposition) && QuotableSel(s.agent) && QuotableSel(s.violations) &&
    QuotableSel(s.rules) && QuotableSel(s.titles) && QuotableSel(s.fees) &&
    QuotableSel(s.fineTypes) && PlainSel(s.reports)
  }

  /** A joined list is at least as long as its first item. */
  lemma JoinCoversHead(xs: seq<string>, sep: string)
    requires |xs| > 0
    ensures |Join(xs, sep)| >= |xs[0]|
  {
  }

  /** The quoted entry is written non-empty exactly for an active selection. */
  lemma QuotedListEmpty(sel: Selection)
    ensures QuotedList(sel) == "" <==> !IsActive(sel)
  {
    if IsActive(sel) {
      var qs := Map(sel.value, Quote);
      JoinCoversHead(qs, ", ");
    }
  }

  /** The report entry is written non-empty exactly for an active selection of non-empty items. */
  lemma PlainListEmpty(sel: Selection)
    requires PlainSel(sel)
    ensures PlainList(sel) == "" <==> !IsActive(sel)
  {
    if IsActive(sel) {
      assert sel.value[0] in sel.value;
      JoinCoversHead(sel.value, ", ");
    }
  }

  /** The report counts read from the entry are the ones the panel parses from its selection. */
  lemma ReportCountsAgree(st: Store, key: string, sel: Selection)
    requires key in st.text && st.text[key] == PlainList(sel) && PlainSel(sel)
    ensures EntryReportCounts(st, key) == SelectedCounts(sel)
    ensures TextOr(st, key) != "" <==> IsActive(sel)
  {
    PlainListEmpty(sel);
    if IsActive(sel) {
      PlainRoundTrip(sel);
    }
  }

  /** The attributes of a case the panel's cross-filter looks at. */
  function AttrsOf(c: Case): AttrRow
  {
    AttrRow(c.assignedUser, c.disposition, c.violations, c.rules, c.titles, c.fees, c.fineTypes, c.numReportIds)
  }

  /** The case was created within the stored days (from midnight of the first to midnight of the last). */
  predicate CreatedWithin(c: Case, from: int, to: int)
  {
    c.createdOn.Some? && from * DaySeconds <= c.createdOn.value <= to * DaySeconds
  }

  /** A store holding, under each entry key of `ks`, the text written for the matching selection. */
  predicate Written(st: Store, s: Selections, ks: EntryKeys)
  {
    ks.disposition in st.text && st.text[ks.disposition] == QuotedList(s.disposition) &&
    ks.assignedUser in st.text && st.text[ks.assignedUser] == QuotedList(s.agent) &&
    ks.violationName in st.text && st.text[ks.violationName] == QuotedList(s.violations) &&
    ks.ruleNumber in st.text && st.text[ks.ruleNumber] == QuotedList(s.rules) &&
    ks.ruleTitle in st.text && st.text[ks.ruleTitle] == QuotedList(s.titles) &&
    ks.citationFee in st.text && st.text[ks.citationFee] == QuotedList(s.fees) &&
    ks.fineType in st.text && st.text[ks.fineType] == QuotedList(s.fineTypes) &&
    ks.numReports in st.text && st.text[ks.numReports] == PlainList(s.reports)
  }

  /** `filter_data_query` writes every selection under the key `apply_compliance_filters` reads. */
  lemma QueryWritten(start: Option<int>, end: Option<int>, today: int, s: Selections)
    ensures Written(FilterDataQuery(start, end, today, s), s, StoreKeys)
  {
    FilterDataQueryText(start, end, today, s, ScalarField(DispositionColumn));
    FilterDataQueryText(start, end, today, s, ScalarField(AssignedUserColumn));
    FilterDataQueryText(start, end, today, s, ListField(ViolationNameColumn));
    FilterDataQueryText(start, end, today, s, ListField(RuleNumberColumn));
    FilterDataQueryText(start, end, today, s, ListField(RuleTitleColumn));
    FilterDataQueryText(start, end, today, s, ListField(CitationFeeColumn));
    FilterDataQueryText(start, end, today, s, ListField(FineTypeColumn));
    FilterDataQueryText(start, end, today, s, ReportsField);
  }

  /** What the reader recovers from one entry: nothing for an inactive selection, else its items. */
  predicate ReadBack(st: Store, key: string, sel: Selection)
  {
    (TextOr(st, key) == "" <==> !IsActive(sel)) &&
    (IsActive(sel) ==> StoreTokens(TextOr(st, key)) == sel.value)
  }

  /** The reader recovers every selection, and the report counts as the panel parses them. */
  predicate ReadsBack(st: Store, s: Selections, ks: EntryKeys)
  {
    EntriesReadBack(st, s, ks) && EntryReportCounts(st, ks.numReports) == SelectedCounts(s.reports)
  }

  /** Every entry reads back as its selection, the report-count entry as to whether it is set. */
  predicate EntriesReadBack(st: Store, s: Selections, ks: EntryKeys)
  {
    ReadBack(st, ks.disposition, s.disposition) && ReadBack(st, ks.assignedUser, s.agent) &&
    ReadBack(st, ks.violationName, s.violations) && ReadBack(st, ks.ruleNumber, s.rules) &&
    ReadBack(st, ks.ruleTitle, s.titles) && ReadBack(st, ks.citationFee, s.fees) &&
    ReadBack(st, ks.fineType, s.fineTypes) &&
    (TextOr(st, ks.numReports) != "" <==> IsActive(s.reports))
  }

  lemma QuotedReadBack(st: Store, key: string, sel: Selection)
    requires key in st.text && st.text[key] == QuotedList(sel) && QuotableSel(sel)
    ensures ReadBack(st, key, sel)
  {
    QuotedListEmpty(sel);
    if IsActive(sel) {
      QuotedRoundTrip(sel);
    }
  }

  /** A written store of encodable selections reads back as those selections. */
  lemma WrittenReadsBack(st: Store, s: Selections, ks: EntryKeys)
    requires Written(st, s, ks) && Encodable(s)
    ensures ReadsBack(st, s, ks)
  {
    QuotedReadBack(st, ks.disposition, s.disposition);
    QuotedReadBack(st, ks.assignedUser, s.agent);
    QuotedReadBack(st, ks.violationName, s.violations);
    QuotedReadBack(st, ks.ruleNumber, s.rules);
    QuotedReadBack(st, ks.ruleTitle, s.titles);
    QuotedReadBack(st, ks.citationFee, s.fees);
    QuotedReadBack(st, ks.fineType, s.fineTypes);
    ReportCountsAgree(st, ks.numReports, s.reports);
  }

  lemma ScalarReadAgrees(st: Store, key: string, col: ScalarColumn, sel: Selection, c: Case)
    requires ReadBack(st, key, sel)
    ensures ScalarEntryMet(c, st, key, col) == Admits(sel, ScalarCell(c, col))
  {
  }

  lemma ListReadAgrees(st: Store, key: string, col: ListColumn, sel: Selection, c: Case)
    requires ReadBack(st, key, sel)
    ensures ListEntryMet(c, st, key, col) == ListAdmits(sel, ListCellOf(c, col))
  {
  }

  /** The two scalar entries and the report-count entry select what the matching selections admit. */
  lemma ScalarsReadAgree(st: Store, s: Selections, c: Case, ks: EntryKeys, nums: seq<int>)
    requires ReadBack(st, ks.disposition, s.disposition) && ReadBack(st, ks.assignedUser, s.agent)
    requires TextOr(st, ks.numReports) != "" <==> IsActive(s.reports)
    ensures (ScalarEntryMet(c, st, ks.disposition, DispositionColumn) &&
             ScalarEntryMet(c, st, ks.assignedUser, AssignedUserColumn) &&
             ReportEntryMet(c, st, ks.numReports, nums)) ==
            (Admits(s.disposition, c.disposition) && Admits(s.agent, c.assignedUser) &&
             (IsActive(s.reports) ==> (c.numReportIds as int) in nums))
  {
    ScalarReadAgrees(st, ks.disposition, DispositionColumn, s.disposition, c);
    ScalarReadAgrees(st, ks.assignedUser, AssignedUserColumn, s.agent, c);
  }

  /** The violation and rule-number entries select what the matching selections admit. */
  lemma FirstListsReadAgree(st: Store, s: Selections, c: Case, ks: EntryKeys)
    requires ReadBack(st, ks.violationName, s.violations) && ReadBack(st, ks.ruleNumber, s.rules)
    ensures (ListEntryMet(c, st, ks.violationName, ViolationNameColumn) &&
             ListEntryMet(c, st, ks.ruleNumber, RuleNumberColumn)) ==
            (ListAdmits(s.violations, c.violations) && ListAdmits(s.rules, c.rules))
  {
    ListReadAgrees(st, ks.violationName, ViolationNameColumn, s.violations, c);
    ListReadAgrees(st, ks.ruleNumber, RuleNumberColumn, s.rules, c);
  }

  /** The rule-title and fee entries select what the matching selections admit. */
  lemma LastListsReadAgree(st: Store, s: Selections, c: Case, ks: EntryKeys)
    requires ReadBack(st, ks.ruleTitle, s.titles) && ReadBack(st, ks.citationFee, s.fees)
    ensures (ListEntryMet(c, st, ks.ruleTitle, RuleTitleColumn) &&
             ListEntryMet(c, st, ks.citationFee, CitationFeeColumn)) ==
            (ListAdmits(s.titles, c.titles) && ListAdmits(s.fees, c.fees))
  {
    assert ListCellOf(c, RuleTitleColumn) == c.titles && ListCellOf(c, CitationFeeColumn) == c.fees;
    ListReadAgrees(st, ks.ruleTitle, RuleTitleColumn, s.titles, c);
    ListReadAgrees(st, ks.citationFee, CitationFeeColumn, s.fees, c);
  }

  /** The fine-type entry selects what the matching selection admits. */
  lemma FineListReadAgrees(st: Store, s: Selections, c: Case, ks: EntryKeys)
    requires ReadBack(st, ks.fineType, s.fineTypes)
    ensures ListEntryMet(c, st, ks.fineType, FineTypeColumn) == ListAdmits(s.fineTypes, c.fineTypes)
  {
    assert ListCellOf(c, FineTypeColumn) == c.fineTypes;
    ListReadAgrees(st, ks.fineType, FineTypeColumn, s.fineTypes, c);
  }

  /** Entry by entry, a store that reads back selects what the selections admit. */
  lemma ReadsBackMatchesPanel(st: Store, s: Selections, c: Case, ks: EntryKeys, nums: seq<int>)
    requires EntriesReadBack(st, s, ks)
    ensures PassesStore(c, st, nums, ks) <==> DatesMet(c, st, ks) && PassesSelections(AttrsOf(c), s, nums)
  {
    var scalars := ScalarEntryMet(c, st, ks.disposition, DispositionColumn) &&
      ScalarEntryMet(c, st, ks.assignedUser, AssignedUserColumn) &&
      ReportEntryMet(c, st, ks.numReports, nums);
    var firstLists := ListEntryMet(c, st, ks.violationName, ViolationNameColumn) &&
      ListEntryMet(c, st, ks.ruleNumber, RuleNumberColumn);
    var lastLists := ListEntryMet(c, st, ks.ruleTitle, RuleTitleColumn) &&
      ListEntryMet(c, st, ks.citationFee, CitationFeeColumn);
    var fines := ListEntryMet(c, st, ks.fineType, FineTypeColumn);
    assert scalars == (Admits(s.disposition, c.disposition) && Admits(s.agent, c.assignedUser) &&
      (IsActive(s.reports) ==> (c.numReportIds as int) in nums)) by {
      ScalarsReadAgree(st, s, c, ks, nums);
    }
    assert firstLists == (ListAdmits(s.violations, c.violations) && ListAdmits(s.rules, c.rules)) by {
      FirstListsReadAgree(st, s, c, ks);
    }
    assert lastLists == (ListAdmits(s.titles, c.titles) && ListAdmits(s.fees, c.fees)) by {
      LastListsReadAgree(st, s, c, ks);
    }
    assert fines == ListAdmits(s.fineTypes, c.fineTypes) by {
      FineListReadAgrees(st, s, c, ks);
    }
    assert PassesStore(c, st, nums, ks) == (DatesMet(c, st, ks) && scalars && firstLists && lastLists && fines);
  }

  /**
   * The store the panel writes selects, case by case, exactly what the
   * panel's own cross-filter keeps, within the date range, and both read
   * the report counts alike.
   */
  lemma StoreMatchesPanel(start: Option<int>, end: Option<int>, today: int, s: Selections, c: Case)
    requires Encodable(s)
    ensures var st := FilterDataQuery(start, end, today, s);
      StoreReportCounts(st) == SelectedCounts(s.reports) &&
      (SelectedCounts(s.reports).Some? ==>
        (PassesStore(c, st, SelectedCounts(s.reports).value, StoreKeys) <==>
          CreatedWithin(c, st.dates["Day_From"], st.dates["Day_To"]) &&
          PassesSelections(AttrsOf(c), s, SelectedCounts(s.reports).value)))
  {
    var st := FilterDataQuery(start, end, today, s);
    QueryWritten(start, end, today, s);
    WrittenReadsBack(st, s, StoreKeys);
    if SelectedCounts(s.reports).Some? {
      ReadsBackMatchesPanel(st, s, c, StoreKeys, SelectedCounts(s.reports).value);
    }
  }

  /**
   * End to end: over a non-empty case table, filtering by the store the
   * panel writes fails exactly when the panel's report counts do not parse,
   * and otherwise keeps exactly the cases created in the range that the
   * panel's own selections admit.
   */
  lemma PanelStoreFilters(rows: seq<Case>, start: Option<int>, end: Option<int>, today: int, s: Selections, c: Case)
    requires Encodable(s) && |rows| > 0
    ensures var st := FilterDataQuery(start, end, today, s);
      var out := ApplyComplianceFilters(rows, st);
      (out.None? <==> SelectedCounts(s.reports).None?) &&
      (out.Some? ==>
        (c in out.value <==>
          (c in rows && CreatedWithin(c, st.dates["Day_From"], st.dates["Day_To"]) &&
           PassesSelections(AttrsOf(c), s, SelectedCounts(s.reports).value))))
  {
    var st := FilterDataQuery(start, end, today, s);
    ComplianceFilterSpec(rows, st, c);
    StoreMatchesPanel(start, end, today, s, c);
  }
}
