/**
 * The compliance data-table panel: the display parsing of list columns, the
 * count of list elements, the narrowing of the event tables to the filtered
 * cases, the seven report layouts, the table callback, and the parts of the
 * CSV, Excel and PDF exports that decide what is written (the sheet name,
 * the PDF page layout and row cut, and the escaping of PDF cell text).
 *
 * Dates stay the case frame's whole seconds; their `strftime` text is not
 * modelled. Which fee texts count is modelled; the value `float()` reads from
 * an accepted text comes from a parameter `amount` (in cents, None when
 * `float()` raises), and sums are exact sums of cents.
 */
module ComplianceDataTable {
  import opened Common
  import opened ComplianceData
  import T = Frames

  // ---------------------------------------------------------------------
  // `parse_list_field`

  /** A cell as `parse_list_field` sees it: missing (None or NaN), a string, a number, or a list. */
  datatype Value = Missing | Scalar(text: string) | Numeric(n: int) | Items(items: seq<Option<string>>)

  /** A parsed list column: a list, or nothing. */
  function ListValue(cell: ListCell): Value
  {
    if cell.Some? then Items(cell.value) else Missing
  }

  /**
   * `parse_list_field`: the first list element that is neither None nor blank,
   * a string stripped when it is not blank, a non-zero number as text, and
   * otherwise the default.
   */
  function ParseListField(v: Value, default: string): (r: string)
    ensures r == default || Strip(r) != ""
  {
    match v
    case Missing => default
    case Items(xs) =>
      var first := FirstNonBlank(xs);
      FirstNonBlankSpec(xs);
      if first.Some? then StripEmptyIffBlankNot(first.value); first.value else default
    case Scalar(s) =>
      if Strip(s) != "" then StripTwice(s); Strip(s) else default
    case Numeric(n) =>
      if n != 0 then NumberNotBlank(n); IntToString(n) else default
  }

  lemma StripEmptyIffBlankNot(s: string)
    requires Strip(s) != "" || !IsBlank(s)
    ensures Strip(s) != ""
  {
    StripEmptyIffBlank(s);
  }

  /** A stripped non-blank string stays non-blank when stripped again. */
  lemma StripTwice(s: string)
    requires Strip(s) != ""
    ensures Strip(Strip(s)) != ""
  {
    StripEmptyIffBlank(s);
    StripEmptyIffBlank(Strip(s));
  }

  /** `str(n)` starts with a digit or a minus sign, so it is never blank. */
  lemma NumberNotBlank(n: int)
    ensures Strip(IntToString(n)) != ""
  {
    var s := IntToString(n);
    assert s[0] == '-' || '0' <= s[0] <= '9';
    assert !IsBlank(s) by {
      assert s[0] !in Whitespace;
    }
    StripEmptyIffBlank(s);
  }

  /**
   * On a list, the result is the first element that is not blank, every
   * element before it being blank, and the default when every element is
   * blank; a missing value gives the default.
   */
  lemma ParseListFieldSpec(v: Value, default: string)
    ensures v.Missing? ==> ParseListField(v, default) == default
    ensures v.Items? && (forall i :: 0 <= i < |v.items| ==> BlankCell(v.items[i])) ==>
      ParseListField(v, default) == default
    ensures v.Items? && (exists i :: 0 <= i < |v.items| && !BlankCell(v.items[i])) ==>
      exists i :: 0 <= i < |v.items| && v.items[i] == Some(ParseListField(v, default)) &&
        !BlankCell(v.items[i]) && forall j :: 0 <= j < i ==> BlankCell(v.items[j])
  {
    if v.Items? {
      FirstNonBlankSpec(v.items);
    }
  }

  // ---------------------------------------------------------------------
  // `safe_list_aggregation`

  /** What one cell adds: nothing for None, a list's length, and one for any other value. */
  function ValueSize(v: Value): nat
  {
    match v
    case Missing => 0
    case Items(xs) => |xs|
    case _ => 1
  }

  /** The count `safe_list_aggregation` accumulates over a column. */
  function TotalSize(vs: seq<Value>): nat
  {
    if |vs| == 0 then 0 else TotalSize(vs[..|vs| - 1]) + ValueSize(vs[|vs| - 1])
  }

  /** The loop of `safe_list_aggregation`. */
  method SafeListAggregation(vs: seq<Value>) returns (total: nat)
    ensures total == TotalSize(vs)
  {
    total := 0;
    var i := 0;
    while i < |vs|
      invariant 0 <= i <= |vs|
      invariant total == TotalSize(vs[..i])
    {
      assert vs[..i + 1][..i] == vs[..i];
      if vs[i].Items? {
        total := total + |vs[i].items|;
      } else if !vs[i].Missing? {
        total := total + 1;
      }
      i := i + 1;
    }
    assert vs[..i] == vs;
  }

  /** The count over two columns put together is the sum of their counts. */
  lemma {:induction false} TotalSizeAppend(us: seq<Value>, vs: seq<Value>)
    ensures TotalSize(us + vs) == TotalSize(us) + TotalSize(vs)
    decreases |vs|
  {
    if |vs| > 0 {
      assert (us + vs)[..|us + vs| - 1] == us + vs[..|vs| - 1];
      TotalSizeAppend(us, vs[..|vs| - 1]);
    } else {
      assert us + vs == us;
    }
  }

  /** The count is zero exactly when every cell is None or an empty list. */
  lemma {:induction false} TotalSizeZero(vs: seq<Value>)
    ensures TotalSize(vs) == 0 <==> forall i :: 0 <= i < |vs| ==> ValueSize(vs[i]) == 0
    decreases |vs|
  {
    if |vs| > 0 {
      TotalSizeZero(vs[..|vs| - 1]);
      assert forall i :: 0 <= i < |vs| - 1 ==> vs[..|vs| - 1][i] == vs[i];
    }
  }

  /** Over list cells the count is the number of list elements, which is at least the number of non-empty lists. */
  lemma {:induction false} TotalSizeOfLists(cells: seq<ListCell>)
    ensures TotalSize(Map(cells, ListValue)) >= |Filter(cells, NonEmptyList)|
    decreases |cells|
  {
    if |cells| > 0 {
      var init := cells[..|cells| - 1];
      var last := cells[|cells| - 1];
      assert cells == init + [last];
      assert Map(cells, ListValue)[..|cells| - 1] == Map(init, ListValue);
      TotalSizeOfLists(init);
      FilterAppend(init, [last], NonEmptyList);
      assert TotalSize(Map(cells, ListValue)) == TotalSize(Map(init, ListValue)) + ValueSize(ListValue(last));
      assert |Filter([last], NonEmptyList)| <= ValueSize(ListValue(last));
    }
  }

  function NonEmptyList(cell: ListCell): bool
  {
    cell.Some? && |cell.value| > 0
  }

  // ---------------------------------------------------------------------
  // The PDF export's cell escaping

  /** The five replacements, `&` first. */
  function EscapePdf(s: string): string
  {
    Replace(Replace(Replace(Replace(Replace(s, "&", "&amp;"), "<", "&lt;"), ">", "&gt;"), "\"", "&quot;"), "'", "&#39;")
  }

  /** The escape of one character. */
  function EntityOf(c: char): string
  {
    if c == '&' then "&amp;"
    else if c == '<' then "&lt;"
    else if c == '>' then "&gt;"
    else if c == '"' then "&quot;"
    else if c == '\'' then "&#39;"
    else [c]
  }

  /** Escaping character by character. */
  function EscapeEach(s: string): string
  {
    if |s| == 0 then "" else EntityOf(s[0]) + EscapeEach(s[1..])
  }

  /** Replacing a single character distributes over concatenation. */
  lemma {:induction false} ReplaceCharAppend(a: string, b: string, c: char, rep: string)
    ensures Replace(a + b, [c], rep) == Replace(a, [c], rep) + Replace(b, [c], rep)
    decreases |a|
  {
    if |a| > 0 {
      assert (a + b)[1..] == a[1..] + b;
      assert (a + b)[..1] == a[..1];
      ReplaceCharAppend(a[1..], b, c, rep);
    } else {
      assert a + b == b;
    }
  }

  /** A string without the character is left alone. */
  lemma {:induction false} ReplaceCharAbsent(s: string, c: char, rep: string)
    requires c !in s
    ensures Replace(s, [c], rep) == s
    decreases |s|
  {
    if |s| > 0 {
      ReplaceCharAbsent(s[1..], c, rep);
    }
  }

  lemma ReplaceOneChar(x: char, c: char, rep: string)
    ensures Replace([x], [c], rep) == if x == c then rep else [x]
  {
    assert [x][1..] == [];
  }

  /** The five replacements of one character give its entity. */
  lemma EscapeOne(x: char)
    ensures EscapePdf([x]) == EntityOf(x)
  {
    ReplaceOneChar(x, '&', "&amp;");
    var s1 := Replace([x], "&", "&amp;");
    if x == '&' {
      ReplaceCharAbsent(s1, '<', "&lt;");
      ReplaceCharAbsent(s1, '>', "&gt;");
      ReplaceCharAbsent(s1, '"', "&quot;");
      ReplaceCharAbsent(s1, '\'', "&#39;");
    } else {
      ReplaceOneChar(x, '<', "&lt;");
      var s2 := Replace(s1, "<", "&lt;");
      if x == '<' {
        ReplaceCharAbsent(s2, '>', "&gt;");
        ReplaceCharAbsent(s2, '"', "&quot;");
        ReplaceCharAbsent(s2, '\'', "&#39;");
      } else {
        ReplaceOneChar(x, '>', "&gt;");
        var s3 := Replace(s2, ">", "&gt;");
        if x == '>' {
          ReplaceCharAbsent(s3, '"', "&quot;");
          ReplaceCharAbsent(s3, '\'', "&#39;");
        } else {
          ReplaceOneChar(x, '"', "&quot;");
          var s4 := Replace(s3, "\"", "&quot;");
          if x == '"' {
            ReplaceCharAbsent(s4, '\'', "&#39;");
          } else {
            ReplaceOneChar(x, '\'', "&#39;");
          }
        }
      }
    }
  }

  /** The escape of a concatenation is the concatenation of the escapes. */
  lemma EscapeAppend(a: string, b: string)
    ensures EscapePdf(a + b) == EscapePdf(a) + EscapePdf(b)
  {
    ReplaceCharAppend(a, b, '&', "&amp;");
    var a1, b1 := Replace(a, "&", "&amp;"), Replace(b, "&", "&amp;");
    ReplaceCharAppend(a1, b1, '<', "&lt;");
    var a2, b2 := Replace(a1, "<", "&lt;"), Replace(b1, "<", "&lt;");
    ReplaceCharAppend(a2, b2, '>', "&gt;");
    var a3, b3 := Replace(a2, ">", "&gt;"), Replace(b2, ">", "&gt;");
    ReplaceCharAppend(a3, b3, '"', "&quot;");
    var a4, b4 := Replace(a3, "\"", "&quot;"), Replace(b3, "\"", "&quot;");
    ReplaceCharAppend(a4, b4, '\'', "&#39;");
  }

  /** Because `&` is replaced first, the chain escapes each character exactly once. */
  lemma {:induction false} EscapeIsEach(s: string)
    ensures EscapePdf(s) == EscapeEach(s)
    decreases |s|
  {
    if |s| > 0 {
      assert s == [s[0]] + s[1..];
      EscapeAppend([s[0]], s[1..]);
      EscapeOne(s[0]);
      EscapeIsEach(s[1..]);
    } else {
      assert Replace(s, "&", "&amp;") == s;
    }
  }

  /** The character and length of the entity `s` starts with, if any. */
  function EntityAt(s: string): Option<(char, nat)>
  {
    if |s| == 0 || s[0] != '&' then None
    else if StartsWith(s, "&amp;") then Some(('&', 5))
    else if StartsWith(s, "&lt;") then Some(('<', 4))
    else if StartsWith(s, "&gt;") then Some(('>', 4))
    else if StartsWith(s, "&quot;") then Some(('"', 6))
    else if StartsWith(s, "&#39;") then Some(('\'', 5))
    else None
  }

  /** Reading the five entities back. */
  function Unescape(s: string): string
    decreases |s|
  {
    if |s| == 0 then ""
    else
      var e := EntityAt(s);
      if e.Some? && 0 < e.value.1 <= |s| then [e.value.0] + Unescape(s[e.value.1..])
      else [s[0]] + Unescape(s[1..])
  }

  /** An escaped character is recognised as its own entity, and a plain one as none. */
  lemma EntityAtEntity(x: char, rest: string)
    ensures EntityAt(EntityOf(x) + rest) ==
      if EntityOf(x) == [x] then None else Some((x, |EntityOf(x)|))
  {
    var s := EntityOf(x) + rest;
    if x == '&' {
      assert s[..5] == "&amp;";
    } else if x == '<' {
      assert s[..4] == "&lt;" && s[1] == 'l';
    } else if x == '>' {
      assert s[..4] == "&gt;" && s[1] == 'g';
    } else if x == '"' {
      assert s[..6] == "&quot;" && s[1] == 'q';
    } else if x == '\'' {
      assert s[..5] == "&#39;" && s[1] == '#';
    } else {
      assert s[0] == x;
    }
  }

  lemma UnescapeEntity(x: char, rest: string)
    ensures Unescape(EntityOf(x) + rest) == [x] + Unescape(rest)
  {
    var s := EntityOf(x) + rest;
    EntityAtEntity(x, rest);
    assert s[|EntityOf(x)|..] == rest;
  }

  /**
   * PDF escaping loses nothing, so no text is escaped twice: reading the
   * entities back gives the text, and the escaped text holds none of
   * `<`, `>`, `"` and `'`.
   */
  lemma EscapeRoundTrip(s: string)
    ensures Unescape(EscapePdf(s)) == s
    ensures forall c :: c in EscapePdf(s) ==> c != '<' && c != '>' && c != '"' && c != '\''
  {
    EscapeIsEach(s);
    UnescapeEach(s);
    EscapeEachPlain(s);
  }

  lemma {:induction false} UnescapeEach(s: string)
    ensures Unescape(EscapeEach(s)) == s
    decreases |s|
  {
    if |s| > 0 {
      UnescapeEach(s[1..]);
      UnescapeEntity(s[0], EscapeEach(s[1..]));
      assert s == [s[0]] + s[1..];
    }
  }

  lemma {:induction false} EscapeEachPlain(s: string)
    ensures forall c :: c in EscapeEach(s) ==> c != '<' && c != '>' && c != '"' && c != '\''
    decreases |s|
  {
    if |s| > 0 {
      EscapeEachPlain(s[1..]);
      var e, rest := EntityOf(s[0]), EscapeEach(s[1..]);
      assert forall c :: c in e ==> c != '<' && c != '>' && c != '"' && c != '\'';
      assert forall c :: c in e + rest ==> c in e || c in rest;
    }
  }

  /** The text of a PDF cell: stripped, then escaped. */
  function PdfCellText(value: string): string
  {
    EscapePdf(Strip(value))
  }

  // ---------------------------------------------------------------------
  // The Excel sheet name

  /** `str.title()` on ASCII: a letter is upper-cased after a non-letter and lower-cased after a letter. */
  function TitleCase(s: string, afterLetter: bool): (r: string)
    ensures |r| == |s|
    ensures forall i :: 0 <= i < |s| ==> (r[i] == s[i] || (IsLetter(s[i]) && IsLetter(r[i])))
    decreases |s|
  {
    if |s| == 0 then ""
    else
      var c := if afterLetter then LowerChar(s[0]) else UpperChar(s[0]);
      [c] + TitleCase(s[1..], IsLetter(s[0]))
  }

  predicate IsLetter(c: char)
  {
    'a' <= c <= 'z' || 'A' <= c <= 'Z'
  }

  /** `report_type.replace('_', ' ').title()`, also the report title of the table summary. */
  function ReportTitle(reportType: string): string
  {
    TitleCase(Replace(reportType, "_", " "), false)
  }

  /** `[:31]`: Excel's limit on sheet names. */
  function SheetName(reportType: string): string
  {
    Head(ReportTitle(reportType), 31)
  }

  /** The sheet name fits Excel's 31 characters, starts the report title and has no underscore. */
  lemma SheetNameSpec(reportType: string)
    ensures |SheetName(reportType)| <= 31
    ensures SheetName(reportType) <= ReportTitle(reportType)
    ensures |ReportTitle(reportType)| <= 31 ==> SheetName(reportType) == ReportTitle(reportType)
    ensures '_' !in SheetName(reportType)
  {
    var spaced := Replace(reportType, "_", " ");
    ReplaceRemovesChar(reportType, '_', " ");
    var title := ReportTitle(reportType);
    forall i | 0 <= i < |title| ensures title[i] != '_' {
      assert spaced[i] in spaced;
    }
  }

  // ---------------------------------------------------------------------
  // The dataset filter (`apply_compliance_data_table_filters`)

  /** The base tables: the merged cases, the event history and the case flow with lifecycle stages. */
  datatype Tables = Tables(cases: seq<Case>, events: T.Frame, flow: T.Frame)

  const CaseIdColumn: string := "CaseID"

  function CaseIdOf(c: Case): int
  {
    c.id
  }

  /** `data['CaseID'].isin(case_ids)`: only a number equal to a case id matches. */
  function HasCaseIn(columns: seq<string>, ids: seq<int>): seq<T.Cell> -> bool
  {
    row => T.Get(columns, row, CaseIdColumn).Number? && T.Get(columns, row, CaseIdColumn).n in ids
  }

  /** An event table cut to the filtered cases; left as it is without a CaseID column or without cases. */
  function Narrowed(f: T.Frame, cases: seq<Case>): T.Frame
  {
    if |cases| == 0 || CaseIdColumn !in f.columns then f
    else T.Frame(f.columns, Filter(f.rows, HasCaseIn(f.columns, Map(cases, CaseIdOf))))
  }

  /**
   * The case frame goes through the shared compliance filter (None when a
   * report count is not an integer); the two event tables are then cut to
   * the surviving cases.
   */
  function FilterTables(base: Tables, st: Store): Option<Tables>
  {
    var cases := ApplyComplianceFilters(base.cases, st);
    if cases.None? then None
    else Some(Tables(cases.value, Narrowed(base.events, cases.value), Narrowed(base.flow, cases.value)))
  }

  /**
   * An event row is kept exactly when its CaseID is the id of a surviving
   * case, in the original order; a table without a CaseID column, or any
   * table when no case survives, is kept whole.
   */
  lemma NarrowedSpec(f: T.Frame, cases: seq<Case>)
    ensures Narrowed(f, cases).columns == f.columns
    ensures |cases| == 0 || CaseIdColumn !in f.columns ==> Narrowed(f, cases) == f
    ensures |cases| > 0 && CaseIdColumn in f.columns ==>
      Narrowed(f, cases).rows == Filter(f.rows, HasCaseIn(f.columns, Map(cases, CaseIdOf))) &&
      forall row :: row in Narrowed(f, cases).rows <==>
        row in f.rows && T.Get(f.columns, row, CaseIdColumn).Number? &&
        exists c :: c in cases && c.id == T.Get(f.columns, row, CaseIdColumn).n
  {
    if |cases| > 0 && CaseIdColumn in f.columns {
      var ids := Map(cases, CaseIdOf);
      forall row ensures row in Narrowed(f, cases).rows <==>
        row in f.rows && T.Get(f.columns, row, CaseIdColumn).Number? &&
        exists c :: c in cases && c.id == T.Get(f.columns, row, CaseIdColumn).n
      {
        var cell := T.Get(f.columns, row, CaseIdColumn);
        if cell.Number? && cell.n in ids {
          var k :| 0 <= k < |ids| && ids[k] == cell.n;
          assert cases[k] in cases;
        }
        if cell.Number? && exists c :: c in cases && c.id == cell.n {
          var c :| c in cases && c.id == cell.n;
          var k :| 0 <= k < |cases| && cases[k] == c;
          assert ids[k] == cell.n;
        }
      }
    }
  }

  /** The filtered tables hold the cases the compliance filter keeps, and each event table is narrowed to them. */
  lemma FilterTablesSpec(base: Tables, st: Store)
    ensures FilterTables(base, st).None? <==> ApplyComplianceFilters(base.cases, st).None?
    ensures FilterTables(base, st).Some? ==>
      var t := FilterTables(base, st).value;
      t.cases == ApplyComplianceFilters(base.cases, st).value &&
      t.events == Narrowed(base.events, t.cases) && t.flow == Narrowed(base.flow, t.cases) &&
      (|base.cases| == 0 ==> t == base)
  {
  }

  // ---------------------------------------------------------------------
  // Money text

  /** `f"${x:,.2f}"` (grouped) or `f"${x:.2f}"` for an amount in cents. */
  function MoneyText(cents: int, grouped: bool): string
  {
    var a := if cents < 0 then -cents else cents;
    "$" + (if cents < 0 then "-" else "") + (if grouped then Grouped(a / 100) else NatToString(a / 100)) + "." + Pad2(a % 100)
  }

  /** `format_currency_list`: the total when it is positive, else "$0.00". */
  function CurrencyList(cents: int): string
  {
    if cents > 0 then MoneyText(cents, true) else "$0.00"
  }

  // ---------------------------------------------------------------------
  // List elements and fee sums

  /** The elements of a list column: `[]` for a cell that holds no list. */
  function Elements(cell: ListCell): seq<Option<string>>
  {
    if cell.Some? then cell.value else []
  }

  /** Python truthiness of a list element: present and not the empty string. */
  predicate Truthy(e: Option<string>)
  {
    e.Some? && e.value != ""
  }

  /** `xs[i] if i < len(xs) and xs[i] else fallback`. */
  function Entry(xs: seq<Option<string>>, i: nat, fallback: string): string
  {
    if i < |xs| && Truthy(xs[i]) then xs[i].value else fallback
  }

  /** The text `float()` reads: the fee without `$` and `,`. */
  function FeeText(fee: string): string
  {
    Replace(Replace(fee, "$", ""), ",", "")
  }

  /** The guard on one fee: truthy, and only digits once `$`, `,`, `.` and `-` are dropped (`isdigit`). */
  predicate FeeAccepted(fee: Option<string>)
  {
    Truthy(fee) &&
    var bare := Replace(Replace(FeeText(fee.value), ".", ""), "-", "");
    |bare| > 0 && AllDigits(bare)
  }

  /** What one fee adds to a total: its amount when the guard and `float()` accept it, else nothing. */
  function FeeValue(fee: Option<string>, amount: string -> Option<int>): int
  {
    if FeeAccepted(fee) && amount(FeeText(fee.value)).Some? then amount(FeeText(fee.value)).value else 0
  }

  /** The inner loop shared by `format_currency_list`, `safe_fee_aggregation` and financial_summary. */
  function FeeSum(fees: seq<Option<string>>, amount: string -> Option<int>): int
  {
    if |fees| == 0 then 0 else FeeSum(fees[..|fees| - 1], amount) + FeeValue(fees[|fees| - 1], amount)
  }

  /** A fee list's total is the sum of its parts; a rejected fee adds nothing. */
  lemma {:induction false} FeeSumAppend(xs: seq<Option<string>>, ys: seq<Option<string>>, amount: string -> Option<int>)
    ensures FeeSum(xs + ys, amount) == FeeSum(xs, amount) + FeeSum(ys, amount)
    ensures FeeSum([], amount) == 0
    ensures forall f :: !FeeAccepted(f) ==> FeeSum([f], amount) == 0
    decreases |ys|
  {
    if |ys| == 0 {
      assert xs + ys == xs;
    } else {
      var init := ys[..|ys| - 1];
      FeeSumAppend(xs, init, amount);
      assert (xs + ys)[..|xs + ys| - 1] == xs + init;
    }
    assert forall f: Option<string> :: [f][..0] == [];
  }

  /** A list whose accepted fees all read as non-negative amounts has a non-negative total. */
  lemma {:induction false} FeeSumNonNegative(fees: seq<Option<string>>, amount: string -> Option<int>)
    requires forall f :: f in fees && FeeAccepted(f) && amount(FeeText(f.value)).Some? ==> amount(FeeText(f.value)).value >= 0
    ensures FeeSum(fees, amount) >= 0
    decreases |fees|
  {
    if |fees| > 0 {
      FeeSumNonNegative(fees[..|fees| - 1], amount);
      assert fees[|fees| - 1] in fees;
    }
  }

  /** `safe_fee_aggregation` over a column: the fees of every list added together. */
  function ColumnFees(cells: seq<ListCell>, amount: string -> Option<int>): int
  {
    if |cells| == 0 then 0 else ColumnFees(cells[..|cells| - 1], amount) + FeeSum(Elements(cells[|cells| - 1]), amount)
  }

  /** The two loops of `safe_fee_aggregation`. */
  method SafeFeeAggregation(cells: seq<ListCell>, amount: string -> Option<int>) returns (total: int)
    ensures total == ColumnFees(cells, amount)
  {
    total := 0;
    var k := 0;
    while k < |cells|
      invariant 0 <= k <= |cells|
      invariant total == ColumnFees(cells[..k], amount)
    {
      var fees := Elements(cells[k]);
      var i := 0;
      var listTotal := 0;
      while i < |fees|
        invariant 0 <= i <= |fees|
        invariant listTotal == FeeSum(fees[..i], amount)
      {
        assert fees[..i + 1][..i] == fees[..i];
        listTotal := listTotal + FeeValue(fees[i], amount);
        i := i + 1;
      }
      assert fees[..i] == fees;
      assert cells[..k + 1][..k] == cells[..k];
      total := total + listTotal;
      k := k + 1;
    }
    assert cells[..k] == cells;
  }

  // ---------------------------------------------------------------------
  // case_summary

  /** One row of the case summary: the case's own columns and the first entries of its lists. */
  datatype SummaryRow = SummaryRow(
    caseNumber: Option<string>, memberName: Option<string>, assignedUser: Option<string>,
    status: Option<string>, disposition: Option<string>, primaryViolation: string, ruleNumber: string,
    violationCategory: Option<string>, citationFee: string, createdOn: Option<int>, closedOn: Option<int>)

  function SummaryOf(c: Case, amount: string -> Option<int>): SummaryRow
  {
    SummaryRow(c.caseNumber, c.memberName, c.assignedUser, c.status, c.disposition,
               ParseListField(ListValue(c.violations), "N/A"), ParseListField(ListValue(c.rules), "N/A"),
               c.violationCategory, CurrencyList(FeeSum(Elements(c.fees), amount)), c.createdOn, c.closedOn)
  }

  function CaseSummary(cases: seq<Case>, amount: string -> Option<int>): seq<SummaryRow>
  {
    Map(cases, c => SummaryOf(c, amount))
  }

  /**
   * One row per filtered case, in order; its primary violation and rule number
   * are the first non-blank entries of its lists, or "N/A".
   */
  lemma CaseSummarySpec(cases: seq<Case>, amount: string -> Option<int>, i: nat)
    requires i < |cases|
    ensures |CaseSummary(cases, amount)| == |cases|
    ensures var r := CaseSummary(cases, amount)[i];
      r.caseNumber == cases[i].caseNumber &&
      (cases[i].violations.None? ==> r.primaryViolation == "N/A") &&
      (cases[i].violations.Some? && FirstNonBlank(cases[i].violations.value).Some? ==>
         Some(r.primaryViolation) == FirstNonBlank(cases[i].violations.value)) &&
      (r.primaryViolation == "N/A" || Strip(r.primaryViolation) != "") &&
      (cases[i].rules.Some? && FirstNonBlank(cases[i].rules.value).Some? ==>
         Some(r.ruleNumber) == FirstNonBlank(cases[i].rules.value))
  {
  }

  // ---------------------------------------------------------------------
  // violation_details

  datatype DetailRow = DetailRow(
    caseNumber: Option<string>, memberName: Option<string>, violation: string, ruleNumber: string,
    ruleTitle: string, citationFee: string, violationCategory: Option<string>,
    detailedRuleCategory: Option<string>, status: Option<string>, createdOn: Option<int>)

  /** `max(len(violations), len(rule_numbers), len(rule_titles), len(citation_fees), 1)`. */
  function RowCount(c: Case): nat
  {
    var v, r, t, f := |Elements(c.violations)|, |Elements(c.rules)|, |Elements(c.titles)|, |Elements(c.fees)|;
    var m1 := if v > r then v else r;
    var m2 := if t > f then t else f;
    var m := if m1 > m2 then m1 else m2;
    if m > 1 then m else 1
  }

  /** The `i`-th expanded row of a case: the lists paired by position. */
  function DetailAt(c: Case, i: nat): DetailRow
  {
    DetailRow(c.caseNumber, c.memberName,
              Entry(Elements(c.violations), i, "N/A"), Entry(Elements(c.rules), i, "N/A"),
              Entry(Elements(c.titles), i, "N/A"), Entry(Elements(c.fees), i, "$0.00"),
              c.violationCategory, c.detailedRuleCategory, c.status, c.createdOn)
  }

  /** The rows one case expands into. */
  function CaseDetails(c: Case): (rows: seq<DetailRow>)
    ensures |rows| == RowCount(c)
    ensures forall i :: 0 <= i < |rows| ==> rows[i] == DetailAt(c, i)
  {
    seq(RowCount(c), i requires 0 <= i => DetailAt(c, i))
  }

  /** The expanded rows of every case, case after case. */
  function ViolationDetails(cases: seq<Case>): seq<DetailRow>
  {
    if |cases| == 0 then [] else ViolationDetails(cases[..|cases| - 1]) + CaseDetails(cases[|cases| - 1])
  }

  /** The loops of the violation_details report, appending to `expanded_rows`. */
  method ExpandViolations(cases: seq<Case>) returns (rows: seq<DetailRow>)
    ensures rows == ViolationDetails(cases)
  {
    rows := [];
    var k := 0;
    while k < |cases|
      invariant 0 <= k <= |cases|
      invariant rows == ViolationDetails(cases[..k])
    {
      var c := cases[k];
      var n := RowCount(c);
      var i := 0;
      while i < n
        invariant 0 <= i <= n
        invariant rows == ViolationDetails(cases[..k]) + CaseDetails(c)[..i]
      {
        assert CaseDetails(c)[..i + 1] == CaseDetails(c)[..i] + [DetailAt(c, i)];
        rows := rows + [DetailAt(c, i)];
        i := i + 1;
      }
      assert CaseDetails(c)[..n] == CaseDetails(c);
      assert cases[..k + 1][..k] == cases[..k];
      k := k + 1;
    }
    assert cases[..k] == cases;
  }

  /** The number of expanded rows of the first cases. */
  function TotalRows(cases: seq<Case>): nat
  {
    if |cases| == 0 then 0 else TotalRows(cases[..|cases| - 1]) + RowCount(cases[|cases| - 1])
  }

  /**
   * Case `k`'s rows sit together, after the rows of the cases before it, the
   * `i`-th of them pairing the `i`-th entries of its four lists; every case
   * gives at least one row.
   */
  lemma {:induction false} ViolationDetailsLayout(cases: seq<Case>, k: nat, i: nat)
    requires k < |cases| && i < RowCount(cases[k])
    ensures |ViolationDetails(cases)| == TotalRows(cases) >= |cases|
    ensures TotalRows(cases[..k]) + i < |ViolationDetails(cases)|
    ensures ViolationDetails(cases)[TotalRows(cases[..k]) + i] == DetailAt(cases[k], i)
  {
    var pre := cases[..k + 1];
    assert pre[..k] == cases[..k] && pre[k] == cases[k];
    assert ViolationDetails(pre) == ViolationDetails(cases[..k]) + CaseDetails(cases[k]);
    DetailsLength(cases[..k]);
    DetailsLength(cases);
    DetailsPrefix(cases, k + 1);
    assert ViolationDetails(pre)[TotalRows(cases[..k]) + i] == DetailAt(cases[k], i);
  }

  lemma {:induction false} DetailsPrefix(cases: seq<Case>, n: nat)
    requires n <= |cases|
    ensures ViolationDetails(cases[..n]) <= ViolationDetails(cases)
    decreases |cases|
  {
    if n < |cases| {
      var init := cases[..|cases| - 1];
      DetailsPrefix(init, n);
      assert init[..n] == cases[..n];
    } else {
      assert cases[..n] == cases;
    }
  }

  lemma {:induction false} DetailsLength(cases: seq<Case>)
    ensures |ViolationDetails(cases)| == TotalRows(cases) >= |cases|
    decreases |cases|
  {
    if |cases| > 0 {
      DetailsLength(cases[..|cases| - 1]);
    }
  }

  /**
   * A case's rows number as many as its longest list (one when all are empty);
   * each truthy entry of each list is shown at its own position, and a shown
   * violation is either such an entry or "N/A".
   */
  lemma CaseDetailsCover(c: Case)
    ensures |CaseDetails(c)| >= 1
    ensures |CaseDetails(c)| >= |Elements(c.violations)| && |CaseDetails(c)| >= |Elements(c.rules)|
    ensures |CaseDetails(c)| >= |Elements(c.titles)| && |CaseDetails(c)| >= |Elements(c.fees)|
    ensures |CaseDetails(c)| == 1 || |CaseDetails(c)| in {|Elements(c.violations)|, |Elements(c.rules)|, |Elements(c.titles)|, |Elements(c.fees)|}
    ensures forall i :: 0 <= i < |Elements(c.violations)| && Truthy(Elements(c.violations)[i]) ==>
      CaseDetails(c)[i].violation == Elements(c.violations)[i].value
    ensures forall i :: 0 <= i < |Elements(c.fees)| && Truthy(Elements(c.fees)[i]) ==>
      CaseDetails(c)[i].citationFee == Elements(c.fees)[i].value
    ensures forall r :: r in CaseDetails(c) ==>
      r.violation == "N/A" || Some(r.violation) in Elements(c.violations)
  {
  }

  // ---------------------------------------------------------------------
  // rule_violations

  datatype RuleRow = RuleRow(
    ruleNumber: string, ruleTitle: Option<string>, caseNumber: Option<string>, memberName: Option<string>,
    detailedRuleCategory: Option<string>, status: Option<string>, createdOn: Option<int>)

  /** The row of the `i`-th rule number: the title at the same index, or "N/A" past the titles' end. */
  function RuleAt(c: Case, i: nat): RuleRow
    requires i < |Elements(c.rules)| && Elements(c.rules)[i].Some?
  {
    var titles := Elements(c.titles);
    RuleRow(Elements(c.rules)[i].value, if i < |titles| then titles[i] else Some("N/A"),
            c.caseNumber, c.memberName, c.detailedRuleCategory, c.status, c.createdOn)
  }

  /** The rows of the first `n` rule numbers of a case: one per truthy number. */
  function CaseRules(c: Case, n: nat): seq<RuleRow>
    requires n <= |Elements(c.rules)|
  {
    if n == 0 then []
    else CaseRules(c, n - 1) + (if Truthy(Elements(c.rules)[n - 1]) then [RuleAt(c, n - 1)] else [])
  }

  function AllRules(c: Case): seq<RuleRow>
  {
    CaseRules(c, |Elements(c.rules)|)
  }

  /** The unsorted `rule_rows`, case after case. */
  function RuleRows(cases: seq<Case>): seq<RuleRow>
  {
    if |cases| == 0 then [] else RuleRows(cases[..|cases| - 1]) + AllRules(cases[|cases| - 1])
  }

  /** The loops of the rule_violations report, appending to `rule_rows`. */
  method ExpandRules(cases: seq<Case>) returns (rows: seq<RuleRow>)
    ensures rows == RuleRows(cases)
  {
    rows := [];
    var k := 0;
    while k < |cases|
      invariant 0 <= k <= |cases|
      invariant rows == RuleRows(cases[..k])
    {
      var c := cases[k];
      var numbers := Elements(c.rules);
      var i := 0;
      while i < |numbers|
        invariant 0 <= i <= |numbers|
        invariant rows == RuleRows(cases[..k]) + CaseRules(c, i)
      {
        if numbers[i].Some? && numbers[i].value != "" {
          rows := rows + [RuleAt(c, i)];
        }
        i := i + 1;
      }
      assert cases[..k + 1][..k] == cases[..k];
      k := k + 1;
    }
    assert cases[..k] == cases;
  }

  /** A case's rule rows are exactly its truthy rule numbers, each with the title at its index. */
  lemma {:induction false} CaseRulesSpec(c: Case, n: nat)
    requires n <= |Elements(c.rules)|
    ensures forall r :: r in CaseRules(c, n) ==>
      exists i :: 0 <= i < n && Truthy(Elements(c.rules)[i]) && r == RuleAt(c, i)
    ensures forall i :: 0 <= i < n && Truthy(Elements(c.rules)[i]) ==> RuleAt(c, i) in CaseRules(c, n)
    ensures forall r :: r in CaseRules(c, n) ==> r.ruleNumber != ""
    decreases n
  {
    if n > 0 {
      CaseRulesSpec(c, n - 1);
    }
  }

  /** The calendar day of a timestamp: the `%Y-%m-%d` text the report sorts on. */
  function DayOf(createdOn: Option<int>): Option<int>
  {
    if createdOn.Some? then Some(createdOn.value / DaySeconds) else None
  }

  function RuleDay(r: RuleRow): Option<int>
  {
    DayOf(r.createdOn)
  }

  function RuleNumberOf(r: RuleRow): string
  {
    r.ruleNumber
  }

  /**
   * `sort_values(['Rule Number', 'Created Date'])` on text: rule numbers in
   * string order, then dates ascending, "N/A" (no date) last.
   */
  function ByRuleThenDay(numbers: seq<string>, days: seq<int>): RuleRow -> int
  {
    (r: RuleRow) => LexKey(StrRank(numbers, r.ruleNumber), NaLastRank(days, RuleDay(r)), |SortedUniqueInts(days)| + 1)
  }

  function RuleViolations(cases: seq<Case>): seq<RuleRow>
  {
    var rows := RuleRows(cases);
    SortBy(rows, ByRuleThenDay(Map(rows, RuleNumberOf), Somes(Map(rows, RuleDay))))
  }

  /** Row `a` may precede row `b`: a smaller rule number, or the same one and an earlier or equal day, no day last. */
  predicate RuleBefore(a: RuleRow, b: RuleRow)
  {
    StrLess(a.ruleNumber, b.ruleNumber) ||
    (a.ruleNumber == b.ruleNumber && (RuleDay(a).None? ==> RuleDay(b).None?) &&
     (RuleDay(a).Some? && RuleDay(b).Some? ==> RuleDay(a).value <= RuleDay(b).value))
  }

  predicate InRuleOrder(rows: seq<RuleRow>)
  {
    forall i, j :: 0 <= i < j < |rows| ==> RuleBefore(rows[i], rows[j])
  }

  lemma RuleKeyOrder(numbers: seq<string>, days: seq<int>, a: RuleRow, b: RuleRow)
    requires a.ruleNumber in numbers && b.ruleNumber in numbers
    requires RuleDay(a).Some? ==> RuleDay(a).value in days
    requires RuleDay(b).Some? ==> RuleDay(b).value in days
    requires ByRuleThenDay(numbers, days)(a) <= ByRuleThenDay(numbers, days)(b)
    ensures RuleBefore(a, b)
  {
    var width := |SortedUniqueInts(days)| + 1;
    LexKeyOrder(StrRank(numbers, a.ruleNumber), NaLastRank(days, RuleDay(a)),
                StrRank(numbers, b.ruleNumber), NaLastRank(days, RuleDay(b)), width);
    StrRankOrder(numbers, a.ruleNumber, b.ruleNumber);
    if a.ruleNumber == b.ruleNumber {
      NaLastRankOrder(days, RuleDay(a), RuleDay(b));
    }
  }

  lemma RulePresent(rows: seq<RuleRow>, r: RuleRow)
    requires r in rows
    ensures r.ruleNumber in Map(rows, RuleNumberOf)
    ensures RuleDay(r).Some? ==> RuleDay(r).value in Somes(Map(rows, RuleDay))
  {
    var i :| 0 <= i < |rows| && rows[i] == r;
    assert Map(rows, RuleNumberOf)[i] == r.ruleNumber;
    assert Map(rows, RuleDay)[i] == RuleDay(r);
  }

  lemma SortedRulePair(unsorted: seq<RuleRow>, rows: seq<RuleRow>, i: nat, j: nat)
    requires rows == SortBy(unsorted, ByRuleThenDay(Map(unsorted, RuleNumberOf), Somes(Map(unsorted, RuleDay))))
    requires i < j < |rows|
    ensures RuleBefore(rows[i], rows[j])
  {
    assert rows[i] in multiset(unsorted) && rows[j] in multiset(unsorted);
    RulePresent(unsorted, rows[i]);
    RulePresent(unsorted, rows[j]);
    RuleKeyOrder(Map(unsorted, RuleNumberOf), Somes(Map(unsorted, RuleDay)), rows[i], rows[j]);
  }

  /**
   * rule_violations holds exactly the expanded rule rows, ordered by rule
   * number and then by day, rows without a date last.
   */
  lemma RuleViolationsSpec(cases: seq<Case>)
    ensures multiset(RuleViolations(cases)) == multiset(RuleRows(cases))
    ensures InRuleOrder(RuleViolations(cases))
  {
    var unsorted := RuleRows(cases);
    var rows := RuleViolations(cases);
    forall i, j | 0 <= i < j < |rows| ensures RuleBefore(rows[i], rows[j]) {
      SortedRulePair(unsorted, rows, i, j);
    }
  }

  /** Every truthy rule number of every filtered case has its row in the report, and only those. */
  lemma {:induction false} RuleRowsCover(cases: seq<Case>)
    ensures forall r :: r in RuleRows(cases) ==> exists c :: c in cases && r in AllRules(c)
    ensures forall c, i :: c in cases && 0 <= i < |Elements(c.rules)| && Truthy(Elements(c.rules)[i]) ==>
      RuleAt(c, i) in RuleRows(cases)
    decreases |cases|
  {
    if |cases| > 0 {
      var init, last := cases[..|cases| - 1], cases[|cases| - 1];
      RuleRowsCover(init);
      CaseRulesSpec(last, |Elements(last.rules)|);
      assert forall c :: c in cases <==> c in init || c == last;
      forall c, i | c in cases && 0 <= i < |Elements(c.rules)| && Truthy(Elements(c.rules)[i])
        ensures RuleAt(c, i) in RuleRows(cases)
      {
        if c in init {
          assert RuleAt(c, i) in RuleRows(init);
        } else {
          CaseRulesSpec(c, |Elements(c.rules)|);
        }
      }
    }
  }

  // ---------------------------------------------------------------------
  // member_violations and office_violations (`groupby(...).agg(...)`)

  function MemberKey(c: Case): Option<string>
  {
    c.memberName
  }

  function OfficeKey(c: Case): Option<string>
  {
    c.assignedUser
  }

  /** The cases of one group; `groupby` leaves out the cases whose key is null. */
  function GroupOf(cases: seq<Case>, key: Case -> Option<string>, k: string): seq<Case>
  {
    Filter(cases, c => key(c) == Some(k))
  }

  /** The group keys in `groupby`'s ascending order. */
  function GroupKeys(cases: seq<Case>, key: Case -> Option<string>): seq<string>
  {
    SortedUnique(Somes(Map(cases, key)))
  }

  function IsClosed(c: Case): bool
  {
    c.status == Some("Closed")
  }

  function ViolationsOf(c: Case): Value
  {
    ListValue(c.violations)
  }

  function FeesOf(c: Case): ListCell
  {
    c.fees
  }

  function CreatedOf(c: Case): Option<int>
  {
    c.createdOn
  }

  function ClosedOf(c: Case): Option<int>
  {
    c.closedOn
  }

  /** `.min()` over dates, skipping the missing ones; None when none is present. */
  function Earliest(xs: seq<Option<int>>): (r: Option<int>)
    ensures r.Some? <==> exists x :: x in xs && x.Some?
    ensures r.Some? ==> r in xs && forall x :: x in xs && x.Some? ==> r.value <= x.value
  {
    if |xs| == 0 then None
    else
      var rest := Earliest(xs[..|xs| - 1]);
      var last := xs[|xs| - 1];
      assert forall x :: x in xs <==> x in xs[..|xs| - 1] || x == last;
      if last.None? then rest
      else if rest.Some? && rest.value <= last.value then rest
      else last
  }

  /** `.max()` over dates, skipping the missing ones. */
  function Latest(xs: seq<Option<int>>): (r: Option<int>)
    ensures r.Some? <==> exists x :: x in xs && x.Some?
    ensures r.Some? ==> r in xs && forall x :: x in xs && x.Some? ==> r.value >= x.value
  {
    if |xs| == 0 then None
    else
      var rest := Latest(xs[..|xs| - 1]);
      var last := xs[|xs| - 1];
      assert forall x :: x in xs <==> x in xs[..|xs| - 1] || x == last;
      if last.None? then rest
      else if rest.Some? && rest.value >= last.value then rest
      else last
  }

  datatype MemberRow = MemberRow(
    memberName: string, totalCases: nat, totalViolations: nat, totalFees: string,
    closedCases: nat, firstCase: Option<int>, lastClosed: Option<int>)

  datatype OfficeRow = OfficeRow(
    office: string, totalCases: nat, uniqueMembers: nat, totalViolations: nat,
    closedCases: nat, totalFees: string)

  /** One member's aggregate row. */
  function MemberRowOf(cases: seq<Case>, k: string, amount: string -> Option<int>): (r: MemberRow)
    ensures r.memberName == k
  {
    var g := GroupOf(cases, MemberKey, k);
    MemberRow(k, |g|, TotalSize(Map(g, ViolationsOf)), MoneyText(ColumnFees(Map(g, FeesOf), amount), true),
              |Filter(g, IsClosed)|, Earliest(Map(g, CreatedOf)), Latest(Map(g, ClosedOf)))
  }

  /** One office's aggregate row; `nunique` counts the distinct non-null member names. */
  function OfficeRowOf(cases: seq<Case>, k: string, amount: string -> Option<int>): (r: OfficeRow)
    ensures r.office == k
  {
    var g := GroupOf(cases, OfficeKey, k);
    OfficeRow(k, |g|, |Distinct(Somes(Map(g, MemberKey)))|, TotalSize(Map(g, ViolationsOf)),
              |Filter(g, IsClosed)|, MoneyText(ColumnFees(Map(g, FeesOf), amount), true))
  }

  function MemberRowFn(cases: seq<Case>, amount: string -> Option<int>): string -> MemberRow
  {
    k => MemberRowOf(cases, k, amount)
  }

  function OfficeRowFn(cases: seq<Case>, amount: string -> Option<int>): string -> OfficeRow
  {
    k => OfficeRowOf(cases, k, amount)
  }

  function MemberNameOf(r: MemberRow): string
  {
    r.memberName
  }

  function OfficeOf(r: OfficeRow): string
  {
    r.office
  }

  function MostViolations(r: MemberRow): int
  {
    0 - r.totalViolations
  }

  function MostCases(r: OfficeRow): int
  {
    0 - r.totalCases
  }

  /** `sort_values('Total Violations', ascending=False)` over the member groups. */
  function MemberViolations(cases: seq<Case>, amount: string -> Option<int>): seq<MemberRow>
  {
    SortBy(Map(GroupKeys(cases, MemberKey), MemberRowFn(cases, amount)), MostViolations)
  }

  /** `sort_values('Total Cases', ascending=False)` over the office groups. */
  function OfficeViolations(cases: seq<Case>, amount: string -> Option<int>): seq<OfficeRow>
  {
    SortBy(Map(GroupKeys(cases, OfficeKey), OfficeRowFn(cases, amount)), MostCases)
  }

  /** A group holds at least one case, and its closed cases and distinct members are among its cases. */
  lemma GroupBounds(cases: seq<Case>, key: Case -> Option<string>, k: string)
    requires k in GroupKeys(cases, key)
    ensures |GroupOf(cases, key, k)| >= 1
    ensures |Filter(GroupOf(cases, key, k), IsClosed)| <= |GroupOf(cases, key, k)|
    ensures |Distinct(Somes(Map(GroupOf(cases, key, k), MemberKey)))| <= |GroupOf(cases, key, k)|
  {
    assert Some(k) in Map(cases, key);
    var i :| 0 <= i < |cases| && Map(cases, key)[i] == Some(k);
    assert cases[i] in GroupOf(cases, key, k);
  }

  /**
   * What a member row says about its group: the group's cases, at least one,
   * all of that member; their list elements; their closed cases; the earliest
   * creation and the latest closing date among them.
   */
  predicate MemberRowFacts(cases: seq<Case>, r: MemberRow)
  {
    var g := GroupOf(cases, MemberKey, r.memberName);
    r.totalCases == |g| >= 1 && r.closedCases <= r.totalCases &&
    r.totalViolations == TotalSize(Map(g, ViolationsOf)) &&
    (forall c :: c in g ==> c.memberName == Some(r.memberName)) &&
    (r.firstCase.Some? ==> forall c :: c in g && c.createdOn.Some? ==> r.firstCase.value <= c.createdOn.value) &&
    (r.lastClosed.Some? ==> forall c :: c in g && c.closedOn.Some? ==> r.lastClosed.value >= c.closedOn.value)
  }

  lemma MemberRowSpec(cases: seq<Case>, k: string, amount: string -> Option<int>)
    requires k in GroupKeys(cases, MemberKey)
    ensures MemberRowFacts(cases, MemberRowOf(cases, k, amount))
  {
    var g := GroupOf(cases, MemberKey, k);
    GroupBounds(cases, MemberKey, k);
    EarliestOfGroup(g);
    LatestOfGroup(g);
  }

  lemma EarliestOfGroup(g: seq<Case>)
    ensures var e := Earliest(Map(g, CreatedOf));
      forall c :: c in g && c.createdOn.Some? ==> e.Some? && e.value <= c.createdOn.value
  {
    var xs := Map(g, CreatedOf);
    forall c | c in g && c.createdOn.Some? ensures c.createdOn in xs {
      var i :| 0 <= i < |g| && g[i] == c;
      assert xs[i] == c.createdOn;
    }
  }

  lemma LatestOfGroup(g: seq<Case>)
    ensures var e := Latest(Map(g, ClosedOf));
      forall c :: c in g && c.closedOn.Some? ==> e.Some? && e.value >= c.closedOn.value
  {
    var xs := Map(g, ClosedOf);
    forall c | c in g && c.closedOn.Some? ensures c.closedOn in xs {
      var i :| 0 <= i < |g| && g[i] == c;
      assert xs[i] == c.closedOn;
    }
  }

  /** A key is a group key exactly when some case carries it. */
  lemma GroupKeysSpec(cases: seq<Case>, key: Case -> Option<string>, k: string)
    ensures k in GroupKeys(cases, key) <==> exists c :: c in cases && key(c) == Some(k)
  {
    if k in GroupKeys(cases, key) {
      var i :| 0 <= i < |cases| && Map(cases, key)[i] == Some(k);
      assert cases[i] in cases;
    }
    if exists c :: c in cases && key(c) == Some(k) {
      var c :| c in cases && key(c) == Some(k);
      var i :| 0 <= i < |cases| && cases[i] == c;
      assert Map(cases, key)[i] == Some(k);
    }
  }

  /** A sorted row is the row of its own key. */
  lemma SortedRowOfKey<R>(keys: seq<string>, rowOf: string -> R, name: R -> string, key: R -> int, r: R)
    requires forall k :: k in keys ==> name(rowOf(k)) == k
    requires r in SortBy(Map(keys, rowOf), key)
    ensures name(r) in keys && r == rowOf(name(r))
  {
    var unsorted := Map(keys, rowOf);
    assert r in multiset(unsorted);
    var a :| 0 <= a < |unsorted| && unsorted[a] == r;
    assert keys[a] in keys;
  }

  /** Every key's row survives the sort. */
  lemma KeyRowSorted<R>(keys: seq<string>, rowOf: string -> R, key: R -> int, k: string)
    requires k in keys
    ensures rowOf(k) in SortBy(Map(keys, rowOf), key)
  {
    var unsorted := Map(keys, rowOf);
    var a :| 0 <= a < |keys| && keys[a] == k;
    assert unsorted[a] in multiset(SortBy(unsorted, key));
  }

  /** The member rows come in non-increasing order of total violations, one row per member name. */
  lemma MemberViolationsOrder(cases: seq<Case>, amount: string -> Option<int>)
    ensures var rows := MemberViolations(cases, amount);
      (forall i, j :: 0 <= i < j < |rows| ==> rows[i].totalViolations >= rows[j].totalViolations) &&
      (forall i, j :: 0 <= i < j < |rows| ==> rows[i].memberName != rows[j].memberName)
  {
    var keys := GroupKeys(cases, MemberKey);
    var rowOf := MemberRowFn(cases, amount);
    var rows := MemberViolations(cases, amount);
    AscendingDistinct(keys);
    ReorderedKeysDistinct(keys, Map(keys, rowOf), rows, MemberNameOf);
    forall i, j | 0 <= i < j < |rows| ensures rows[i].totalViolations >= rows[j].totalViolations {
      assert MostViolations(rows[i]) <= MostViolations(rows[j]);
    }
  }

  /**
   * Every case with a member name has the row of that member name (and by
   * `MemberRowFacts` every row's member name is that of at least one case).
   */
  lemma MemberViolationsNames(cases: seq<Case>, amount: string -> Option<int>)
    ensures forall c :: c in cases && c.memberName.Some? ==>
      exists r :: r in MemberViolations(cases, amount) && r.memberName == c.memberName.value
  {
    var keys := GroupKeys(cases, MemberKey);
    var rowOf := MemberRowFn(cases, amount);
    forall c | c in cases && c.memberName.Some?
      ensures exists r :: r in MemberViolations(cases, amount) && r.memberName == c.memberName.value
    {
      var k := c.memberName.value;
      GroupKeysSpec(cases, MemberKey, k);
      KeyRowSorted(keys, rowOf, MostViolations, k);
      assert rowOf(k).memberName == k;
    }
  }


  /** Each member row aggregates the cases of its member name. */
  lemma MemberViolationsFacts(cases: seq<Case>, amount: string -> Option<int>)
    ensures forall r :: r in MemberViolations(cases, amount) ==> MemberRowFacts(cases, r)
  {
    var keys := GroupKeys(cases, MemberKey);
    var rowOf := MemberRowFn(cases, amount);
    forall r | r in MemberViolations(cases, amount) ensures MemberRowFacts(cases, r) {
      SortedRowOfKey(keys, rowOf, MemberNameOf, MostViolations, r);
      MemberRowSpec(cases, r.memberName, amount);
    }
  }



  /**
   * What an office row says about its group: the group's cases, at least
   * one, all of that office; no more distinct members or closed cases than
   * cases; their list elements.
   */
  predicate OfficeRowFacts(cases: seq<Case>, r: OfficeRow)
  {
    var g := GroupOf(cases, OfficeKey, r.office);
    r.totalCases == |g| >= 1 && r.closedCases <= r.totalCases && r.uniqueMembers <= r.totalCases &&
    r.totalViolations == TotalSize(Map(g, ViolationsOf)) &&
    (forall c :: c in g ==> c.assignedUser == Some(r.office))
  }

  lemma OfficeRowSpec(cases: seq<Case>, k: string, amount: string -> Option<int>)
    requires k in GroupKeys(cases, OfficeKey)
    ensures OfficeRowFacts(cases, OfficeRowOf(cases, k, amount))
  {
    GroupBounds(cases, OfficeKey, k);
  }

  /** The office rows come in non-increasing order of total cases, one row per assigned user. */
  lemma OfficeViolationsOrder(cases: seq<Case>, amount: string -> Option<int>)
    ensures var rows := OfficeViolations(cases, amount);
      (forall i, j :: 0 <= i < j < |rows| ==> rows[i].totalCases >= rows[j].totalCases) &&
      (forall i, j :: 0 <= i < j < |rows| ==> rows[i].office != rows[j].office)
  {
    var keys := GroupKeys(cases, OfficeKey);
    var rowOf := OfficeRowFn(cases, amount);
    var rows := OfficeViolations(cases, amount);
    AscendingDistinct(keys);
    ReorderedKeysDistinct(keys, Map(keys, rowOf), rows, OfficeOf);
    forall i, j | 0 <= i < j < |rows| ensures rows[i].totalCases >= rows[j].totalCases {
      assert MostCases(rows[i]) <= MostCases(rows[j]);
    }
  }

  /**
   * Every case with a assigned user has the row of that assigned user (and by
   * `OfficeRowFacts` every row's assigned user is that of at least one case).
   */
  lemma OfficeViolationsNames(cases: seq<Case>, amount: string -> Option<int>)
    ensures forall c :: c in cases && c.assignedUser.Some? ==>
      exists r :: r in OfficeViolations(cases, amount) && r.office == c.assignedUser.value
  {
    var keys := GroupKeys(cases, OfficeKey);
    var rowOf := OfficeRowFn(cases, amount);
    forall c | c in cases && c.assignedUser.Some?
      ensures exists r :: r in OfficeViolations(cases, amount) && r.office == c.assignedUser.value
    {
      var k := c.assignedUser.value;
      GroupKeysSpec(cases, OfficeKey, k);
      KeyRowSorted(keys, rowOf, MostCases, k);
      assert rowOf(k).office == k;
    }
  }


  /** Each office row aggregates the cases of its assigned user. */
  lemma OfficeViolationsFacts(cases: seq<Case>, amount: string -> Option<int>)
    ensures forall r :: r in OfficeViolations(cases, amount) ==> OfficeRowFacts(cases, r)
  {
    var keys := GroupKeys(cases, OfficeKey);
    var rowOf := OfficeRowFn(cases, amount);
    forall r | r in OfficeViolations(cases, amount) ensures OfficeRowFacts(cases, r) {
      SortedRowOfKey(keys, rowOf, OfficeOf, MostCases, r);
      OfficeRowSpec(cases, r.office, amount);
    }
  }



  /** Rows built one per distinct key keep their keys distinct through any reordering. */
  lemma ReorderedKeysDistinct<R>(keys: seq<string>, unsorted: seq<R>, rows: seq<R>, name: R -> string)
    requires NoDuplicates(keys) && |unsorted| == |keys|
    requires forall i :: 0 <= i < |keys| ==> name(unsorted[i]) == keys[i]
    requires multiset(rows) == multiset(unsorted)
    ensures forall i, j :: 0 <= i < j < |rows| ==> name(rows[i]) != name(rows[j])
  {
    assert NoDuplicates(unsorted) by {
      forall i, j | 0 <= i < j < |unsorted| ensures unsorted[i] != unsorted[j] {
        assert name(unsorted[i]) != name(unsorted[j]);
      }
    }
    PermutationNoDuplicates(unsorted, rows);
    forall i, j | 0 <= i < j < |rows| ensures name(rows[i]) != name(rows[j]) {
      assert rows[i] in multiset(unsorted) && rows[j] in multiset(unsorted);
      var a :| 0 <= a < |unsorted| && unsorted[a] == rows[i];
      var b :| 0 <= b < |unsorted| && unsorted[b] == rows[j];
      if a != b {
        assert keys[a] != keys[b];
      }
    }
  }

  // ---------------------------------------------------------------------
  // financial_summary

  datatype FinancialRow = FinancialRow(
    caseNumber: Option<string>, memberName: Option<string>, cents: int, citationFee: string,
    fineType: string, status: Option<string>, disposition: Option<string>, createdOn: Option<int>)

  /** One case's row: its accepted fees summed and shown as `f"${total_fee:.2f}"`, its first fine type or "Standard". */
  function FinancialOf(c: Case, amount: string -> Option<int>): FinancialRow
  {
    var cents := FeeSum(Elements(c.fees), amount);
    FinancialRow(c.caseNumber, c.memberName, cents, MoneyText(cents, false),
                 Entry(Elements(c.fineTypes), 0, "Standard"), c.status, c.disposition, c.createdOn)
  }

  function FinancialRows(cases: seq<Case>, amount: string -> Option<int>): (r: seq<FinancialRow>)
    ensures |r| == |cases|
    ensures forall i :: 0 <= i < |cases| ==> r[i] == FinancialOf(cases[i], amount)
  {
    if |cases| == 0 then [] else [FinancialOf(cases[0], amount)] + FinancialRows(cases[1..], amount)
  }

  function FeeTextOf(r: FinancialRow): string
  {
    r.citationFee
  }

  /** `sort_values('Citation Fee', ascending=False)` on the formatted text: descending string order. */
  function ByFeeTextDescending(texts: seq<string>): FinancialRow -> int
  {
    (r: FinancialRow) => 0 - StrRank(texts, r.citationFee)
  }

  /** financial_summary as written: the rows ordered by their fee text. */
  function FinancialSummaryAsWritten(cases: seq<Case>, amount: string -> Option<int>): seq<FinancialRow>
  {
    var rows := FinancialRows(cases, amount);
    SortBy(rows, ByFeeTextDescending(Map(rows, FeeTextOf)))
  }

  function LargestFeeFirst(r: FinancialRow): int
  {
    0 - r.cents
  }

  /** financial_summary ordered by the amount, largest first, as the descending sort means. */
  function FinancialSummary(cases: seq<Case>, amount: string -> Option<int>): seq<FinancialRow>
  {
    SortBy(FinancialRows(cases, amount), LargestFeeFirst)
  }

  /**
   * One row per filtered case, whatever the order: each case's accepted fees
   * summed, the text showing that sum, the first fine type when it is truthy
   * and "Standard" otherwise.
   */
  lemma FinancialRowsSpec(cases: seq<Case>, amount: string -> Option<int>, i: nat)
    requires i < |cases|
    ensures var r := FinancialRows(cases, amount)[i];
      r.caseNumber == cases[i].caseNumber &&
      r.cents == FeeSum(Elements(cases[i].fees), amount) &&
      r.citationFee == MoneyText(r.cents, false) &&
      (|Elements(cases[i].fineTypes)| > 0 && Truthy(Elements(cases[i].fineTypes)[0]) ==> Some(r.fineType) == Elements(cases[i].fineTypes)[0]) &&
      (|Elements(cases[i].fineTypes)| == 0 || !Truthy(Elements(cases[i].fineTypes)[0]) ==> r.fineType == "Standard")
    ensures multiset(FinancialSummary(cases, amount)) == multiset(FinancialRows(cases, amount))
    ensures multiset(FinancialSummaryAsWritten(cases, amount)) == multiset(FinancialRows(cases, amount))
  {
  }

  /** The corrected report lists the cases from the largest total fee down. */
  lemma FinancialSummaryOrder(cases: seq<Case>, amount: string -> Option<int>)
    ensures var rows := FinancialSummary(cases, amount);
      forall i, j :: 0 <= i < j < |rows| ==> rows[i].cents >= rows[j].cents
  {
    var rows := FinancialSummary(cases, amount);
    forall i, j | 0 <= i < j < |rows| ensures rows[i].cents >= rows[j].cents {
      assert LargestFeeFirst(rows[i]) <= LargestFeeFirst(rows[j]);
    }
  }

  /** As written, the rows are ordered by their fee text, not by amount. */
  lemma FinancialAsWrittenOrder(cases: seq<Case>, amount: string -> Option<int>)
    ensures var rows := FinancialSummaryAsWritten(cases, amount);
      forall i, j :: 0 <= i < j < |rows| ==> !StrLess(rows[i].citationFee, rows[j].citationFee)
  {
    var unsorted := FinancialRows(cases, amount);
    var texts := Map(unsorted, FeeTextOf);
    var rows := FinancialSummaryAsWritten(cases, amount);
    assert rows == SortBy(unsorted, ByFeeTextDescending(texts));
    forall i, j | 0 <= i < j < |rows| ensures !StrLess(rows[i].citationFee, rows[j].citationFee) {
      var a, b := rows[i], rows[j];
      assert ByFeeTextDescending(texts)(a) <= ByFeeTextDescending(texts)(b);
      FeeTextPresent(unsorted, a);
      FeeTextPresent(unsorted, b);
      StrRankOrder(texts, b.citationFee, a.citationFee);
      if b.citationFee == a.citationFee {
        StrLessIrreflexive(a.citationFee);
      } else {
        StrLessAsymmetric(b.citationFee, a.citationFee);
      }
    }
  }

  lemma FeeTextPresent(rows: seq<FinancialRow>, r: FinancialRow)
    requires r in multiset(rows)
    ensures r.citationFee in Map(rows, FeeTextOf)
  {
    var i :| 0 <= i < |rows| && rows[i] == r;
    assert Map(rows, FeeTextOf)[i] == r.citationFee;
  }

  /** "$100.00" sorts before "$9.00" as text. */
  lemma HundredBeforeNineAsText()
    ensures MoneyText(10000, false) == "$" + NatToString(100) + ".00"
    ensures MoneyText(900, false) == "$9.00"
    ensures StrLess(MoneyText(10000, false), MoneyText(900, false))
  {
    assert NatToString(100) == NatToString(10) + ['0'];
    assert NatToString(10) == ['1', '0'];
    assert Pad2(0) == "00";
    assert NatToString(9) == "9";
    var h, n := MoneyText(10000, false), MoneyText(900, false);
    assert h == "$100.00" && n == "$9.00";
    assert h[0] == n[0] && h[1] == '1' && n[1] == '9';
    assert StrLess(h[1..], n[1..]);
  }

  /**
   * The descending sort as written puts a case whose fees total $9.00 ahead
   * of one whose fees total $100.00, because "$9.00" is the larger text; the
   * corrected report puts the $100.00 case first.
   */
  lemma FinancialNineBeforeHundred(cases: seq<Case>, amount: string -> Option<int>, i: nat, j: nat)
    requires i < |FinancialSummaryAsWritten(cases, amount)| && j < |FinancialSummaryAsWritten(cases, amount)|
    requires FinancialSummaryAsWritten(cases, amount)[i].cents == 900
    requires FinancialSummaryAsWritten(cases, amount)[j].cents == 10000
    ensures i < j
  {
    var rows := FinancialSummaryAsWritten(cases, amount);
    FinancialRowTexts(cases, amount);
    HundredBeforeNineAsText();
    FinancialAsWrittenOrder(cases, amount);
  }

  lemma FinancialRowTexts(cases: seq<Case>, amount: string -> Option<int>)
    ensures forall r :: r in FinancialSummaryAsWritten(cases, amount) ==> r.citationFee == MoneyText(r.cents, false)
  {
    var unsorted := FinancialRows(cases, amount);
    forall r | r in FinancialSummaryAsWritten(cases, amount) ensures r.citationFee == MoneyText(r.cents, false) {
      assert r in multiset(unsorted);
      var i :| 0 <= i < |unsorted| && unsorted[i] == r;
    }
  }

  /** The corrected report puts the $100.00 case ahead of the $9.00 case. */
  lemma FinancialHundredBeforeNine(cases: seq<Case>, amount: string -> Option<int>, i: nat, j: nat)
    requires i < |FinancialSummary(cases, amount)| && j < |FinancialSummary(cases, amount)|
    requires FinancialSummary(cases, amount)[i].cents == 900
    requires FinancialSummary(cases, amount)[j].cents == 10000
    ensures j < i
  {
    FinancialSummaryOrder(cases, amount);
  }

  // ---------------------------------------------------------------------
  // activity_log

  /** The case-flow columns the log keeps, and their display names. */
  const ActivityColumns: seq<(string, string)> := [
    ("CaseNumber", "Case Number"), ("ActionDate", "Activity Date"), ("EventSummary", "Activity Summary"),
    ("LifecycleStage", "Activity Type"), ("MemberName", "Member Name"), ("AssignedUser", "Assigned User"),
    ("Status", "Case Status")]

  const ActivityDate: string := "Activity Date"

  /** `pd.to_datetime(..., errors='coerce')` on one cell: a stamp in minutes, or null (NaT). */
  function DateCell(c: T.Cell, parse: T.Cell -> Option<int>): T.Cell
  {
    var m := parse(c);
    if m.Some? then T.Stamp(m.value) else T.Null
  }

  function WithDate(row: seq<T.Cell>, j: nat, parse: T.Cell -> Option<int>): seq<T.Cell>
  {
    if j < |row| then row[j := DateCell(row[j], parse)] else row
  }

  function DatedRows(rows: seq<seq<T.Cell>>, j: nat, parse: T.Cell -> Option<int>): (r: seq<seq<T.Cell>>)
    ensures |r| == |rows|
    ensures forall i :: 0 <= i < |rows| ==> r[i] == WithDate(rows[i], j, parse)
  {
    if |rows| == 0 then [] else [WithDate(rows[0], j, parse)] + DatedRows(rows[1..], j, parse)
  }

  /** A row's date negated, so that ascending ranks put the newest first; None without a date. */
  function NegatedMinute(j: nat): seq<T.Cell> -> Option<int>
  {
    (row: seq<T.Cell>) => if j < |row| && row[j].Stamp? then Some(0 - row[j].minutes) else None
  }

  /** `sort_values('Activity Date', ascending=False)`: newest first, rows without a date last. */
  function NewestFirst(rows: seq<seq<T.Cell>>, j: nat): seq<T.Cell> -> int
  {
    (row: seq<T.Cell>) => NaLastRank(Somes(Map(rows, NegatedMinute(j))), NegatedMinute(j)(row))
  }

  /** The columns kept and renamed, the dates parsed, the rows newest first. */
  function ActivityLog(flow: T.Frame, parse: T.Cell -> Option<int>): T.Frame
  {
    var f := T.SelectRename(flow, ActivityColumns);
    if ActivityDate !in f.columns then f
    else
      var j := IndexOf(f.columns, ActivityDate);
      var rows := DatedRows(f.rows, j, parse);
      T.Frame(f.columns, SortBy(rows, NewestFirst(rows, j)))
  }

  /** Row `a` may precede row `b`: when `b` has a date, `a` has one too and it is no earlier. */
  predicate NoOlderThan(a: seq<T.Cell>, b: seq<T.Cell>, j: nat)
  {
    j < |b| && b[j].Stamp? ==> j < |a| && a[j].Stamp? && a[j].minutes >= b[j].minutes
  }

  lemma NegatedMinutePresent(rows: seq<seq<T.Cell>>, j: nat, row: seq<T.Cell>)
    requires row in multiset(rows)
    ensures NegatedMinute(j)(row).Some? ==> NegatedMinute(j)(row).value in Somes(Map(rows, NegatedMinute(j)))
  {
    var i :| 0 <= i < |rows| && rows[i] == row;
    assert Map(rows, NegatedMinute(j))[i] == NegatedMinute(j)(row);
  }

  lemma NewestFirstPair(rows: seq<seq<T.Cell>>, j: nat, sorted: seq<seq<T.Cell>>, a: nat, b: nat)
    requires sorted == SortBy(rows, NewestFirst(rows, j))
    requires a < b < |sorted|
    ensures NoOlderThan(sorted[a], sorted[b], j)
  {
    var key := NewestFirst(rows, j);
    assert key(sorted[a]) <= key(sorted[b]);
    assert sorted[a] in multiset(rows) && sorted[b] in multiset(rows);
    NegatedMinutePresent(rows, j, sorted[a]);
    NegatedMinutePresent(rows, j, sorted[b]);
    NaLastRankOrder(Somes(Map(rows, NegatedMinute(j))), NegatedMinute(j)(sorted[a]), NegatedMinute(j)(sorted[b]));
  }

  /**
   * The log keeps the renamed columns of the case-flow table and every row;
   * with an activity date column, each row's date is the parsed one (null
   * when it does not parse) and the rows run newest first, undated rows last.
   */
  lemma ActivityLogSpec(flow: T.Frame, parse: T.Cell -> Option<int>)
    ensures var log, f := ActivityLog(flow, parse), T.SelectRename(flow, ActivityColumns);
      log.columns == f.columns && |log.rows| == |flow.rows| &&
      (ActivityDate !in f.columns ==> log == f) &&
      (ActivityDate in f.columns ==>
        var j := IndexOf(f.columns, ActivityDate);
        multiset(log.rows) == multiset(DatedRows(f.rows, j, parse)) &&
        forall a, b :: 0 <= a < b < |log.rows| ==> NoOlderThan(log.rows[a], log.rows[b], j))
  {
    T.SelectRenameSpec(flow, ActivityColumns);
    var f := T.SelectRename(flow, ActivityColumns);
    if ActivityDate in f.columns {
      var j := IndexOf(f.columns, ActivityDate);
      var rows := DatedRows(f.rows, j, parse);
      var sorted := SortBy(rows, NewestFirst(rows, j));
      forall a, b | 0 <= a < b < |sorted| ensures NoOlderThan(sorted[a], sorted[b], j) {
        NewestFirstPair(rows, j, sorted, a, b);
      }
    }
  }

  /** The date shown is the parse of the source ActionDate cell, or null. */
  lemma ActivityDateCell(flow: T.Frame, parse: T.Cell -> Option<int>, i: nat)
    requires "ActionDate" in flow.columns && i < |flow.rows|
    ensures var f := T.SelectRename(flow, ActivityColumns);
      ActivityDate in f.columns &&
      var j := IndexOf(f.columns, ActivityDate);
      DatedRows(f.rows, j, parse)[i] == WithDate(f.rows[i], j, parse) &&
      T.Get(f.columns, f.rows[i], ActivityDate) == T.Get(flow.columns, flow.rows[i], "ActionDate")
  {
    assert ActivityColumns[1] == ("ActionDate", ActivityDate);
    T.RenamedCell(flow, ActivityColumns, "ActionDate", ActivityDate, i);
  }

  // ---------------------------------------------------------------------
  // The report dispatch (`prepare_compliance_data_table_report`)

  datatype Report =
    | CaseSummaryReport(summary: seq<SummaryRow>)
    | DetailsReport(details: seq<DetailRow>)
    | MembersReport(members: seq<MemberRow>)
    | OfficesReport(offices: seq<OfficeRow>)
    | RulesReport(rules: seq<RuleRow>)
    | FinancialReport(financial: seq<FinancialRow>)
    | ActivityReport(activity: T.Frame)
    | NoReport

  /** The report types built from the case frame. */
  const CaseReports: set<string> := {"case_summary", "violation_details", "member_violations",
                                     "office_violations", "rule_violations", "financial_summary"}

  /**
   * One report per type, as written: an empty source frame gives no report,
   * and so does an unknown type; the financial summary is ordered by its
   * fee text.
   */
  function PrepareReport(t: Tables, reportType: string, amount: string -> Option<int>, parse: T.Cell -> Option<int>): Report
  {
    if reportType == "activity_log" then
      (if T.IsEmpty(t.flow) then NoReport else ActivityReport(ActivityLog(t.flow, parse)))
    else if reportType !in CaseReports || |t.cases| == 0 then NoReport
    else if reportType == "case_summary" then CaseSummaryReport(CaseSummary(t.cases, amount))
    else if reportType == "violation_details" then DetailsReport(ViolationDetails(t.cases))
    else if reportType == "member_violations" then MembersReport(MemberViolations(t.cases, amount))
    else if reportType == "office_violations" then OfficesReport(OfficeViolations(t.cases, amount))
    else if reportType == "rule_violations" then RulesReport(RuleViolations(t.cases))
    else FinancialReport(FinancialSummaryAsWritten(t.cases, amount))
  }

  /** The reports as evidently intended: the financial summary ordered by amount, largest first. */
  function PrepareReportIntended(t: Tables, reportType: string, amount: string -> Option<int>, parse: T.Cell -> Option<int>): Report
  {
    if reportType == "financial_summary" && |t.cases| > 0 then FinancialReport(FinancialSummary(t.cases, amount))
    else PrepareReport(t, reportType, amount, parse)
  }

  function ReportRows(r: Report): nat
  {
    match r
    case CaseSummaryReport(rows) => |rows|
    case DetailsReport(rows) => |rows|
    case MembersReport(rows) => |rows|
    case OfficesReport(rows) => |rows|
    case RulesReport(rows) => |rows|
    case FinancialReport(rows) => |rows|
    case ActivityReport(f) => |f.rows|
    case NoReport => 0
  }

  /** The number of columns each report shows. */
  function ReportColumns(r: Report): nat
  {
    match r
    case CaseSummaryReport(_) => 11
    case DetailsReport(_) => 10
    case MembersReport(_) => 8
    case OfficesReport(_) => 7
    case RulesReport(_) => 7
    case FinancialReport(_) => 7
    case ActivityReport(f) => |f.columns|
    case NoReport => 0
  }

  /** `DataFrame.empty`: no rows or no columns. */
  predicate IsEmptyReport(r: Report)
  {
    ReportRows(r) == 0 || ReportColumns(r) == 0
  }

  /** An unknown type gives no report, and a case report over no cases is empty. */
  lemma PrepareReportEdges(t: Tables, reportType: string, amount: string -> Option<int>, parse: T.Cell -> Option<int>)
    ensures reportType !in CaseReports && reportType != "activity_log" ==> PrepareReport(t, reportType, amount, parse) == NoReport
    ensures reportType in CaseReports && |t.cases| == 0 ==> PrepareReport(t, reportType, amount, parse) == NoReport
    ensures reportType == "activity_log" && T.IsEmpty(t.flow) ==> PrepareReport(t, reportType, amount, parse) == NoReport
  {
  }

  /** case_summary shows one row per filtered case. */
  lemma CaseSummaryReportRows(t: Tables, amount: string -> Option<int>, parse: T.Cell -> Option<int>)
    requires |t.cases| > 0
    ensures PrepareReport(t, "case_summary", amount, parse) == CaseSummaryReport(CaseSummary(t.cases, amount))
    ensures ReportRows(PrepareReport(t, "case_summary", amount, parse)) == |t.cases|
  {
  }

  /**
   * financial_summary shows one row per filtered case, as written and as
   * intended: the two reports hold the same rows, in different orders.
   */
  lemma FinancialReportRows(t: Tables, amount: string -> Option<int>, parse: T.Cell -> Option<int>)
    requires |t.cases| > 0
    ensures PrepareReport(t, "financial_summary", amount, parse) == FinancialReport(FinancialSummaryAsWritten(t.cases, amount))
    ensures PrepareReportIntended(t, "financial_summary", amount, parse) == FinancialReport(FinancialSummary(t.cases, amount))
    ensures ReportRows(PrepareReport(t, "financial_summary", amount, parse)) == |t.cases|
    ensures ReportRows(PrepareReportIntended(t, "financial_summary", amount, parse)) == |t.cases|
    ensures multiset(FinancialSummaryAsWritten(t.cases, amount)) == multiset(FinancialSummary(t.cases, amount))
  {
    FinancialDispatch(t, amount, parse);
    FinancialSummariesAgree(t.cases, amount);
  }

  lemma FinancialSummariesAgree(cases: seq<Case>, amount: string -> Option<int>)
    requires |cases| > 0
    ensures multiset(FinancialSummaryAsWritten(cases, amount)) == multiset(FinancialSummary(cases, amount))
    ensures |FinancialSummaryAsWritten(cases, amount)| == |FinancialSummary(cases, amount)| == |cases|
  {
    FinancialRowsSpec(cases, amount, 0);
    assert |multiset(FinancialRows(cases, amount))| == |cases|;
  }

  /** The intended reports differ from the ones as written only in the order of the financial summary. */
  lemma PrepareReportAgrees(t: Tables, reportType: string, amount: string -> Option<int>, parse: T.Cell -> Option<int>)
    ensures reportType != "financial_summary" ==> PrepareReportIntended(t, reportType, amount, parse) == PrepareReport(t, reportType, amount, parse)
    ensures ReportRows(PrepareReportIntended(t, reportType, amount, parse)) == ReportRows(PrepareReport(t, reportType, amount, parse))
    ensures ReportColumns(PrepareReportIntended(t, reportType, amount, parse)) == ReportColumns(PrepareReport(t, reportType, amount, parse))
  {
    if reportType == "financial_summary" && |t.cases| > 0 {
      FinancialReportRows(t, amount, parse);
    } else {
      assert PrepareReportIntended(t, reportType, amount, parse) == PrepareReport(t, reportType, amount, parse);
    }
  }

  lemma FinancialDispatch(t: Tables, amount: string -> Option<int>, parse: T.Cell -> Option<int>)
    requires |t.cases| > 0
    ensures PrepareReport(t, "financial_summary", amount, parse) == FinancialReport(FinancialSummaryAsWritten(t.cases, amount))
  {
    var k := "financial_summary";
    assert k[0] == 'f';
    assert k != "activity_log" && k != "case_summary" && k != "violation_details" by {
      assert "activity_log"[0] == 'a' && "case_summary"[0] == 'c' && "violation_details"[0] == 'v';
    }
    assert k != "member_violations" && k != "office_violations" && k != "rule_violations" by {
      assert "member_violations"[0] == 'm' && "office_violations"[0] == 'o' && "rule_violations"[0] == 'r';
    }
    assert k in CaseReports;
  }

  /** violation_details shows at least one row per filtered case. */
  lemma DetailsReportRows(t: Tables, amount: string -> Option<int>, parse: T.Cell -> Option<int>)
    requires |t.cases| > 0
    ensures PrepareReport(t, "violation_details", amount, parse) == DetailsReport(ViolationDetails(t.cases))
    ensures ReportRows(PrepareReport(t, "violation_details", amount, parse)) >= |t.cases|
  {
    DetailsLength(t.cases);
  }

  /** The activity log shows one row per case-flow row. */
  lemma ActivityReportRows(t: Tables, amount: string -> Option<int>, parse: T.Cell -> Option<int>)
    requires !T.IsEmpty(t.flow)
    ensures PrepareReport(t, "activity_log", amount, parse) == ActivityReport(ActivityLog(t.flow, parse))
    ensures ReportRows(PrepareReport(t, "activity_log", amount, parse)) == |t.flow.rows|
  {
    ActivityLogSpec(t.flow, parse);
  }

  // ---------------------------------------------------------------------
  // The table callback (`update_compliance_data_table`)

  /** What the table container shows. */
  datatype TableView =
    | NoComplianceData          // "No compliance data available ..."
    | NoReportData              // "No data available for the selected filters and report type."
    | TableError                // "Error loading data table: ..."
    | TableShown(records: nat, columns: nat, title: string)

  /**
   * Base data missing: the first message; the compliance filter raising: the
   * error text; an empty report: the second message; otherwise the table
   * with its record count and report title.
   */
  function UpdateTable(base: Option<Tables>, st: Store, reportType: string,
                       amount: string -> Option<int>, parse: T.Cell -> Option<int>): TableView
  {
    if base.None? then NoComplianceData
    else
      var t := FilterTables(base.value, st);
      if t.None? then TableError
      else
        ReportView(PrepareReport(t.value, reportType, amount, parse), reportType)
  }

  /** A prepared report on screen: the no-data message when it is empty, else the table. */
  function ReportView(r: Report, reportType: string): TableView
  {
    if IsEmptyReport(r) then NoReportData else TableShown(ReportRows(r), ReportColumns(r), ReportTitle(reportType))
  }

  /** The two messages that come before any report is prepared. */
  lemma UpdateTableMessages(base: Option<Tables>, st: Store, reportType: string,
                            amount: string -> Option<int>, parse: T.Cell -> Option<int>)
    ensures UpdateTable(base, st, reportType, amount, parse) == NoComplianceData <==> base.None?
    ensures UpdateTable(base, st, reportType, amount, parse) == TableError <==>
      base.Some? && ApplyComplianceFilters(base.value.cases, st).None?
  {
    if base.Some? {
      FilterTablesSpec(base.value, st);
    }
  }

  /**
   * The table is shown exactly when the prepared report has rows and
   * columns, with its record count and report title.
   */
  lemma UpdateTableShown(t: Tables, st: Store, reportType: string,
                         amount: string -> Option<int>, parse: T.Cell -> Option<int>)
    requires FilterTables(t, st).Some?
    ensures var v := UpdateTable(Some(t), st, reportType, amount, parse);
      var r := PrepareReport(FilterTables(t, st).value, reportType, amount, parse);
      (v.TableShown? <==> !IsEmptyReport(r)) &&
      (v.TableShown? ==> v.records == ReportRows(r) > 0 && v.columns == ReportColumns(r) > 0 && v.title == ReportTitle(reportType))
  {
    var r := PrepareReport(FilterTables(t, st).value, reportType, amount, parse);
    assert UpdateTable(Some(t), st, reportType, amount, parse) == ReportView(r, reportType);
  }

  /** An unknown report type gets the no-data message. */
  lemma UnknownReportNoData(t: Tables, st: Store, reportType: string,
                            amount: string -> Option<int>, parse: T.Cell -> Option<int>)
    requires FilterTables(t, st).Some? && reportType !in CaseReports && reportType != "activity_log"
    ensures UpdateTable(Some(t), st, reportType, amount, parse) == NoReportData
  {
    var ft := FilterTables(t, st).value;
    UnknownReportNone(ft, reportType, amount, parse);
    assert UpdateTable(Some(t), st, reportType, amount, parse) == ReportView(PrepareReport(ft, reportType, amount, parse), reportType);
  }

  lemma UnknownReportNone(ft: Tables, reportType: string, amount: string -> Option<int>, parse: T.Cell -> Option<int>)
    requires reportType !in CaseReports && reportType != "activity_log"
    ensures PrepareReport(ft, reportType, amount, parse) == NoReport
    ensures ReportView(PrepareReport(ft, reportType, amount, parse), reportType) == NoReportData
  {
    PrepareReportEdges(ft, reportType, amount, parse);
  }

  /** The column types of the table: the rate as a decimal, the counts grouped, any date column as a date. */
  datatype ColumnType = RateColumn | CountColumn | DateColumn | TextColumn

  function ColumnTypeOf(name: string): (k: ColumnType)
    ensures k == DateColumn ==> Contains(name, "Date")
    ensures k == TextColumn ==> !Contains(name, "Date")
  {
    if name == "Resolution Rate %" then RateColumn
    else if name in {"Total Cases", "Total Violations", "Closed Cases", "Unique Members"} then CountColumn
    else if Contains(name, "Date") then DateColumn
    else TextColumn
  }

  /** The reports whose Status column is coloured by closed or open. */
  predicate StatusColoured(reportType: string)
  {
    reportType in {"case_summary", "violation_details", "financial_summary"}
  }

  // ---------------------------------------------------------------------
  // The exports

  datatype ExportFormat = Csv | Excel | Pdf

  /** The page layout of the PDF: landscape past six columns, at most 100 rows, a note when rows were left out. */
  datatype PdfLayout = PdfLayout(landscape: bool, shownRows: nat, truncationNote: bool)

  const MaxPdfRows: nat := 100

  datatype Download =
    | NoUpdate
    | CsvFile(fileName: string, report: Report)
    | ExcelFile(fileName: string, sheet: string, report: Report)
    | PdfFile(fileName: string, layout: PdfLayout)

  function PdfLayoutOf(r: Report): PdfLayout
  {
    PdfLayout(ReportColumns(r) > 6, if ReportRows(r) < MaxPdfRows then ReportRows(r) else MaxPdfRows, ReportRows(r) > MaxPdfRows)
  }

  /** `f"compliance_{report_type}_{timestamp}{extension}"`; the timestamp is the clock's. */
  function ExportName(reportType: string, stamp: string, extension: string): string
  {
    "compliance_" + reportType + "_" + stamp + extension
  }

  /**
   * The three export callbacks: nothing without a click, and nothing when
   * the filter raises or the report is empty; otherwise the file of the
   * report.
   */
  function Export(format: ExportFormat, nClicks: Option<int>, base: Option<Tables>, st: Store, reportType: string,
                  stamp: string, amount: string -> Option<int>, parse: T.Cell -> Option<int>): Download
  {
    if nClicks.None? || nClicks.value == 0 || base.None? then NoUpdate
    else
      var t := FilterTables(base.value, st);
      if t.None? then NoUpdate
      else
        var r := PrepareReport(t.value, reportType, amount, parse);
        if IsEmptyReport(r) then NoUpdate
        else match format
          case Csv => CsvFile(ExportName(reportType, stamp, ".csv"), r)
          case Excel => ExcelFile(ExportName(reportType, stamp, ".xlsx"), SheetName(reportType), r)
          case Pdf => PdfFile(ExportName(reportType, stamp, ".pdf"), PdfLayoutOf(r))
  }

  /**
   * A file is sent exactly when the button was clicked and the table would
   * show the report; the PDF is landscape exactly past six columns, shows
   * the first rows up to 100 and carries the note exactly when rows were
   * left out.
   */
  lemma ExportSpec(format: ExportFormat, nClicks: Option<int>, base: Option<Tables>, st: Store, reportType: string,
                   stamp: string, amount: string -> Option<int>, parse: T.Cell -> Option<int>)
    ensures var d := Export(format, nClicks, base, st, reportType, stamp, amount, parse);
      var v := UpdateTable(base, st, reportType, amount, parse);
      (d != NoUpdate <==> nClicks.Some? && nClicks.value != 0 && v.TableShown?) &&
      (d.PdfFile? ==>
         (v.TableShown? &&
          (d.layout.landscape <==> v.columns > 6) &&
          d.layout.shownRows <= MaxPdfRows && d.layout.shownRows <= v.records &&
          (v.records <= MaxPdfRows ==> d.layout.shownRows == v.records) &&
          (d.layout.truncationNote <==> d.layout.shownRows < v.records))) &&
      (d.ExcelFile? ==> d.sheet == SheetName(reportType) && |d.sheet| <= 31)
  {
    if format == Excel {
      SheetNameSpec(reportType);
    }
  }
}
