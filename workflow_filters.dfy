/**
 * The workflow filter panel: the attribute dimension with its derived AOR
 * names, the conjunctive dataset filter every change callback shares, the
 * dropdown option lists (a leading "All" entry, then the distinct values with
 * the "-" placeholder standing for the empty string), and the store writer.
 */
module WorkflowFilters {
  import opened Common
  import opened WorkflowData

  /** A row of the work-item attribute dimension; `aorName` is the derived display name. */
  datatype AttrRow = AttrRow(
    aor: Option<string>,
    aorName: string,
    caseTypeCode: Option<string>,
    caseTypeName: Option<string>,
    status: Option<string>,
    priority: Option<string>,
    caseOrigin: Option<string>,
    caseReason: Option<string>,
    product: Option<string>,
    feature: Option<string>,
    moduleName: Option<string>,
    issue: Option<string>)

  /** The attribute column each dimension filters on. */
  function AttrCell(r: AttrRow, d: Dimension): Option<string>
  {
    match d
    case AorDim => r.aor
    case CaseTypeDim => r.caseTypeCode
    case StatusDim => r.status
    case PriorityDim => r.priority
    case OriginDim => r.caseOrigin
    case ReasonDim => r.caseReason
    case ProductDim => r.product
    case FeatureDim => r.feature
    case ModuleDim => r.moduleName
    case IssueDim => r.issue
  }

  /** The panel order of the ten dropdowns, which is also the filter order. */
  const PanelOrder: seq<Dimension> :=
    [AorDim, CaseTypeDim, StatusDim, PriorityDim, OriginDim, ReasonDim, ProductDim, FeatureDim, ModuleDim, IssueDim]

  // ---------------------------------------------------------------------
  // AOR display names

  /** A row of the AOR dimension: short code and (uncleaned) full name. */
  datatype AorEntry = AorEntry(shortName: Option<string>, name: Option<string>)

  const Unspecified: string := "Unspecified"

  /** The cleaned name of an entry; a null name stays null. */
  function CleanName(e: AorEntry, clean: string -> string): Option<string>
  {
    if e.name.Some? then Some(clean(e.name.value)) else None
  }

  /** `dict(zip(AorShortName, AorName))`: later entries override earlier ones. */
  function ZipMapping(entries: seq<AorEntry>, clean: string -> string): map<Option<string>, Option<string>>
  {
    if |entries| == 0 then map[]
    else
      var last := entries[|entries| - 1];
      ZipMapping(entries[..|entries| - 1], clean)[last.shortName := CleanName(last, clean)]
  }

  /** The mapping with the empty code and the null code both sent to "Unspecified". */
  function AorMapping(entries: seq<AorEntry>, clean: string -> string): map<Option<string>, Option<string>>
  {
    ZipMapping(entries, clean)[Some("") := Some(Unspecified)][None := Some(Unspecified)]
  }

  /** `Aor.map(mapping).fillna('Unspecified')` for one cell. */
  function AorNameOf(m: map<Option<string>, Option<string>>, aor: Option<string>): string
  {
    if aor in m && m[aor].Some? then m[aor].value else Unspecified
  }

  /** Attach the derived AorName to raw attribute rows. */
  function WithAorNames(rows: seq<AttrRow>, entries: seq<AorEntry>, clean: string -> string): (r: seq<AttrRow>)
    ensures |r| == |rows|
    ensures forall i :: 0 <= i < |rows| ==>
      r[i] == rows[i].(aorName := AorNameOf(AorMapping(entries, clean), rows[i].aor))
  {
    var m := AorMapping(entries, clean);
    Map(rows, (row: AttrRow) => row.(aorName := AorNameOf(m, row.aor)))
  }

  /** A code is in the zipped mapping exactly when some entry has it. */
  lemma {:induction false} ZipMappingDomain(entries: seq<AorEntry>, clean: string -> string, code: Option<string>)
    ensures code !in ZipMapping(entries, clean) <==> forall i :: 0 <= i < |entries| ==> entries[i].shortName != code
  {
    if |entries| > 0 {
      var init := entries[..|entries| - 1];
      ZipMappingDomain(init, clean, code);
      assert forall i :: 0 <= i < |init| ==> init[i] == entries[i];
    }
  }

  /** The code of entry `k`, when no later entry repeats it, maps to entry `k`'s name. */
  lemma {:induction false} ZipMappingAt(entries: seq<AorEntry>, clean: string -> string, code: Option<string>, k: nat)
    requires k < |entries| && entries[k].shortName == code
    requires forall j :: k < j < |entries| ==> entries[j].shortName != code
    ensures code in ZipMapping(entries, clean) && ZipMapping(entries, clean)[code] == CleanName(entries[k], clean)
  {
    if k < |entries| - 1 {
      var init := entries[..|entries| - 1];
      assert init[k] == entries[k];
      ZipMappingAt(init, clean, code, k);
    }
  }

  /** The zipped mapping holds exactly the codes of the entries, each bound to its last entry's name. */
  lemma ZipMappingLast(entries: seq<AorEntry>, clean: string -> string, code: Option<string>)
    ensures code !in ZipMapping(entries, clean) <==> forall i :: 0 <= i < |entries| ==> entries[i].shortName != code
    ensures forall k :: (0 <= k < |entries| && entries[k].shortName == code &&
                         (forall j :: k < j < |entries| ==> entries[j].shortName != code)) ==>
        code in ZipMapping(entries, clean) && ZipMapping(entries, clean)[code] == CleanName(entries[k], clean)
  {
    ZipMappingDomain(entries, clean, code);
    forall k | 0 <= k < |entries| && entries[k].shortName == code && (forall j :: k < j < |entries| ==> entries[j].shortName != code)
      ensures code in ZipMapping(entries, clean) && ZipMapping(entries, clean)[code] == CleanName(entries[k], clean)
    {
      ZipMappingAt(entries, clean, code, k);
    }
  }

  /**
   * AOR naming: an empty, null or unmapped code is "Unspecified"; a mapped code
   * takes its last entry's cleaned name, or "Unspecified" when that name is null.
   */
  lemma AorNameCases(entries: seq<AorEntry>, clean: string -> string, aor: Option<string>)
    ensures aor.None? || aor == Some("") ==> AorNameOf(AorMapping(entries, clean), aor) == Unspecified
    ensures (forall i :: 0 <= i < |entries| ==> entries[i].shortName != aor) ==>
      AorNameOf(AorMapping(entries, clean), aor) == Unspecified
    ensures aor.Some? && aor != Some("") ==>
      forall k :: (0 <= k < |entries| && entries[k].shortName == aor &&
                   (forall j :: k < j < |entries| ==> entries[j].shortName != aor)) ==>
          AorNameOf(AorMapping(entries, clean), aor) ==
            (if entries[k].name.Some? then clean(entries[k].name.value) else Unspecified)
  {
    ZipMappingLast(entries, clean, aor);
  }

  // ---------------------------------------------------------------------
  // The dataset filter

  /** Dropdown values stand for column values; the placeholder "-" stands for the empty string. */
  function Decode(v: string): string
  {
    if v == "-" then "" else v
  }

  /** The option value shown for a column value. */
  function Encode(v: string): string
  {
    if v == "" then "-" else v
  }

  lemma DecodeEncode(v: string)
    requires v != "-"
    ensures Decode(Encode(v)) == v
  {
  }

  /**
   * `apply_filters_to_dataset` as written: every active selection is matched
   * literally against its column, in panel order.
   */
  function ApplyFiltersAsWritten(rows: seq<AttrRow>, s: Selections): seq<AttrRow>
  {
    NarrowAll(rows, AttrCell, s, PanelOrder)
  }

  function DecodeSelection(sel: Selection): (r: Selection)
  {
    if sel.None? then None else Some(Map(sel.value, Decode))
  }

  /** Reading the placeholder back never changes whether a selection is active. */
  lemma DecodeKeepsActivity(sel: Selection)
    ensures IsActive(DecodeSelection(sel)) <==> IsActive(sel)
  {
    if sel.Some? {
      var r := DecodeSelection(sel).value;
      if AllSentinel in sel.value {
        var i :| 0 <= i < |sel.value| && sel.value[i] == AllSentinel;
        assert r[i] == AllSentinel;
      }
    }
  }

  function DecodeSelections(s: Selections): Selections
  {
    Selections(DecodeSelection(s.aor), DecodeSelection(s.caseTypes), DecodeSelection(s.status),
      DecodeSelection(s.priority), DecodeSelection(s.origins), DecodeSelection(s.reasons),
      DecodeSelection(s.products), DecodeSelection(s.features), DecodeSelection(s.modules),
      DecodeSelection(s.issues))
  }

  lemma SelectionForDecoded(s: Selections, d: Dimension)
    ensures SelectionFor(DecodeSelections(s), d) == DecodeSelection(SelectionFor(s, d))
  {
  }

  /** The dataset filter with the placeholder read back as the empty string before matching. */
  function ApplyFilters(rows: seq<AttrRow>, s: Selections): seq<AttrRow>
  {
    ApplyFiltersAsWritten(rows, DecodeSelections(s))
  }

  /**
   * The dataset filter returns exactly the rows every active selection admits
   * (after reading the placeholder back), in their original order.
   */
  lemma ApplyFiltersSpec(rows: seq<AttrRow>, s: Selections)
    ensures ApplyFilters(rows, s) == Filter(rows, (r: AttrRow) => MatchesAll(r, AttrCell, DecodeSelections(s), PanelOrder))
    ensures forall r :: r in ApplyFilters(rows, s) <==>
      r in rows && forall i :: 0 <= i < |PanelOrder| ==> Admits(SelectionFor(DecodeSelections(s), PanelOrder[i]), AttrCell(r, PanelOrder[i]))
  {
    NarrowAllIsConjunction(rows, AttrCell, DecodeSelections(s), PanelOrder);
  }

  /**
   * As written, picking the "Unspecified" entry (value "-") of a dropdown keeps
   * no row at all, although the entry was generated from rows whose cell is "".
   */
  lemma PlaceholderSelectsNothing(rows: seq<AttrRow>, d: Dimension)
    requires forall r :: r in rows ==> AttrCell(r, d) != Some("-")
    ensures ApplyFiltersAsWritten(rows, SingleSelection(d, "-")) == []
  {
    var s := SingleSelection(d, "-");
    var k := DimIndex(d);
    assert SelectionFor(s, PanelOrder[k]) == Some(["-"]);
    NarrowAllEmpty(rows, AttrCell, s, PanelOrder, k);
  }

  /** Position of a dimension in the panel order. */
  function DimIndex(d: Dimension): (i: nat)
    ensures i < |PanelOrder| && PanelOrder[i] == d
  {
    match d
    case AorDim => 0
    case CaseTypeDim => 1
    case StatusDim => 2
    case PriorityDim => 3
    case OriginDim => 4
    case ReasonDim => 5
    case ProductDim => 6
    case FeatureDim => 7
    case ModuleDim => 8
    case IssueDim => 9
  }

  /** Only dropdown `d` holds a value, namely `[v]`. */
  function SingleSelection(d: Dimension, v: string): (s: Selections)
    ensures SelectionFor(s, d) == Some([v])
    ensures forall e :: e != d ==> SelectionFor(s, e) == None
  {
    match d
    case AorDim => NoSelections.(aor := Some([v]))
    case CaseTypeDim => NoSelections.(caseTypes := Some([v]))
    case StatusDim => NoSelections.(status := Some([v]))
    case PriorityDim => NoSelections.(priority := Some([v]))
    case OriginDim => NoSelections.(origins := Some([v]))
    case ReasonDim => NoSelections.(reasons := Some([v]))
    case ProductDim => NoSelections.(products := Some([v]))
    case FeatureDim => NoSelections.(features := Some([v]))
    case ModuleDim => NoSelections.(modules := Some([v]))
    case IssueDim => NoSelections.(issues := Some([v]))
  }

  /**
   * With the placeholder read back, picking the entry generated for a row's
   * value keeps that row.
   */
  lemma SelectedOptionKeepsRow(rows: seq<AttrRow>, r: AttrRow, d: Dimension, v: string)
    requires r in rows && AttrCell(r, d) == Some(v) && v != "-"
    ensures r in ApplyFilters(rows, SingleSelection(d, OptionValue(d, v)))
  {
    var s := SingleSelection(d, OptionValue(d, v));
    ApplyFiltersSpec(rows, s);
    forall i | 0 <= i < |PanelOrder|
      ensures Admits(SelectionFor(DecodeSelections(s), PanelOrder[i]), AttrCell(r, PanelOrder[i]))
    {
      SingleSelectionAdmits(r, d, v, PanelOrder[i]);
    }
  }

  /** One dimension of the single-value selection built from a row's own value admits that row. */
  lemma SingleSelectionAdmits(r: AttrRow, d: Dimension, v: string, e: Dimension)
    requires AttrCell(r, d) == Some(v) && v != "-"
    ensures Admits(SelectionFor(DecodeSelections(SingleSelection(d, OptionValue(d, v))), e), AttrCell(r, e))
  {
    var s := SingleSelection(d, OptionValue(d, v));
    SelectionForDecoded(s, e);
    if e == d {
      DecodeOptionValue(d, v);
    }
  }

  /** A generated option value reads back as the column value it came from. */
  lemma DecodeOptionValue(d: Dimension, v: string)
    requires v != "-"
    ensures DecodeSelection(Some([OptionValue(d, v)])) == Some([v])
  {
    assert Decode(OptionValue(d, v)) == v;
    assert Map([OptionValue(d, v)], Decode) == [v];
  }

  // ---------------------------------------------------------------------
  // Dropdown options

  /** The option value generated for a column value of a dimension: case types use the code itself, all other dropdowns the placeholder for "". */
  function OptionValue(d: Dimension, v: string): string
  {
    if d == CaseTypeDim then v else Encode(v)
  }

  /** Distinct (CaseTypeCode, CaseTypeName) pairs with both present, in first-occurrence order. */
  function CaseTypePairs(rows: seq<AttrRow>): seq<(string, string)>
  {
    Distinct(Somes(Map(rows, CaseTypePair)))
  }

  function CaseTypePair(r: AttrRow): Option<(string, string)>
  {
    if r.caseTypeCode.Some? && r.caseTypeName.Some? then Some((r.caseTypeCode.value, r.caseTypeName.value)) else None
  }

  /** Case-type options: "All Case Types", then one entry per distinct (code, name) pair, labelled by name. */
  function CaseTypeOptions(rows: seq<AttrRow>): seq<DropOption>
  {
    [DropOption("All Case Types", AllSentinel)] + Map(CaseTypePairs(rows), (p: (string, string)) => DropOption(p.1, p.0))
  }

  /** Each entry after the first comes from a row with that code and name. */
  lemma CaseTypeOptionFromRow(rows: seq<AttrRow>, i: nat)
    requires 1 <= i < |CaseTypeOptions(rows)|
    ensures exists r :: r in rows && r.caseTypeCode == Some(CaseTypeOptions(rows)[i].value) &&
                        r.caseTypeName == Some(CaseTypeOptions(rows)[i].caption)
  {
    var cells := Map(rows, CaseTypePair);
    var ps := CaseTypePairs(rows);
    var p := ps[i - 1];
    assert CaseTypeOptions(rows)[i] == DropOption(p.1, p.0);
    assert Some(p) in cells;
    var j :| 0 <= j < |cells| && cells[j] == Some(p);
    assert rows[j] in rows;
  }

  /** Each row with a code and a name has its entry. */
  lemma CaseTypeRowHasOption(rows: seq<AttrRow>, r: AttrRow)
    requires r in rows && r.caseTypeCode.Some? && r.caseTypeName.Some?
    ensures DropOption(r.caseTypeName.value, r.caseTypeCode.value) in CaseTypeOptions(rows)[1..]
  {
    var cells := Map(rows, CaseTypePair);
    var ps := CaseTypePairs(rows);
    var opts := CaseTypeOptions(rows);
    var j :| 0 <= j < |rows| && rows[j] == r;
    assert cells[j] == Some((r.caseTypeCode.value, r.caseTypeName.value));
    var k :| 0 <= k < |ps| && ps[k] == cells[j].value;
    assert opts[1..][k] == DropOption(ps[k].1, ps[k].0);
  }

  /** Every case-type entry after the first is a (name, code) pair of some row, every such pair has an entry, and no entry repeats. */
  lemma CaseTypeOptionsCover(rows: seq<AttrRow>)
    ensures CaseTypeOptions(rows)[0] == DropOption("All Case Types", "All")
    ensures forall i :: 1 <= i < |CaseTypeOptions(rows)| ==>
      exists r :: r in rows && r.caseTypeCode == Some(CaseTypeOptions(rows)[i].value) &&
        r.caseTypeName == Some(CaseTypeOptions(rows)[i].caption)
    ensures forall r :: r in rows && r.caseTypeCode.Some? && r.caseTypeName.Some? ==>
      DropOption(r.caseTypeName.value, r.caseTypeCode.value) in CaseTypeOptions(rows)[1..]
    ensures NoDuplicates(CaseTypeOptions(rows)[1..])
  {
    var ps := CaseTypePairs(rows);
    var opts := CaseTypeOptions(rows);
    forall i | 1 <= i < |opts|
      ensures exists r :: r in rows && r.caseTypeCode == Some(opts[i].value) && r.caseTypeName == Some(opts[i].caption)
    {
      CaseTypeOptionFromRow(rows, i);
    }
    forall r | r in rows && r.caseTypeCode.Some? && r.caseTypeName.Some?
      ensures DropOption(r.caseTypeName.value, r.caseTypeCode.value) in opts[1..]
    {
      CaseTypeRowHasOption(rows, r);
    }
    forall i, j | 0 <= i < j < |opts[1..]| ensures opts[1..][i] != opts[1..][j] {
      assert opts[1..][i] == DropOption(ps[i].1, ps[i].0) && opts[1..][j] == DropOption(ps[j].1, ps[j].0);
      assert ps[i] != ps[j];
    }
  }

  function AorPair(r: AttrRow): Option<(string, string)>
  {
    if r.aor.Some? then Some((r.aor.value, r.aorName)) else None
  }

  /** Distinct (Aor, AorName) pairs with the code present, in first-occurrence order. */
  function AorPairs(rows: seq<AttrRow>): seq<(string, string)>
  {
    Distinct(Somes(Map(rows, AorPair)))
  }

  /** The entry for one AOR: an empty code named "Unspecified" becomes the placeholder entry, anything else "code - name". */
  function AorOption(aor: string, name: string): DropOption
  {
    if aor == "" && name == Unspecified then DropOption(Unspecified, "-")
    else DropOption(aor + " - " + name, aor)
  }

  function AorOptions(rows: seq<AttrRow>): seq<DropOption>
  {
    [DropOption("All AORs", AllSentinel)] + Map(AorPairs(rows), (p: (string, string)) => AorOption(p.0, p.1))
  }

  /** The AOR option loop: one appended entry per distinct (Aor, AorName) pair. */
  method BuildAorOptions(rows: seq<AttrRow>) returns (options: seq<DropOption>)
    ensures options == AorOptions(rows)
  {
    var pairs := AorPairs(rows);
    options := [DropOption("All AORs", AllSentinel)];
    var i := 0;
    while i < |pairs|
      invariant 0 <= i <= |pairs|
      invariant |options| == i + 1 && options[0] == DropOption("All AORs", AllSentinel)
      invariant forall k :: 0 <= k < i ==> options[k + 1] == AorOption(pairs[k].0, pairs[k].1)
    {
      options := options + [AorOption(pairs[i].0, pairs[i].1)];
      i := i + 1;
    }
  }

  /** An entry generated from some row that carries an AOR code. */
  predicate FromAorRow(rows: seq<AttrRow>, o: DropOption)
  {
    exists r :: r in rows && r.aor.Some? && o == AorOption(r.aor.value, r.aorName)
  }

  /** Every AOR entry after "All" comes from a row that carries that code. */
  lemma AorOptionsSound(rows: seq<AttrRow>)
    ensures AorOptions(rows)[0].value == AllSentinel
    ensures forall i :: 1 <= i < |AorOptions(rows)| ==> FromAorRow(rows, AorOptions(rows)[i])
  {
    var cells := Map(rows, AorPair);
    var ps := AorPairs(rows);
    var opts := AorOptions(rows);
    forall i | 1 <= i < |opts|
      ensures FromAorRow(rows, opts[i])
    {
      var p := ps[i - 1];
      assert Some(p) in cells;
      var j :| 0 <= j < |cells| && cells[j] == Some(p);
      assert rows[j] in rows;
      assert opts[i] == AorOption(p.0, p.1);
    }
  }

  /** Every row with a code present is offered as an AOR entry after "All". */
  lemma AorOptionsComplete(rows: seq<AttrRow>)
    ensures AorOptions(rows)[0].value == AllSentinel
    ensures forall r :: r in rows && r.aor.Some? ==>
      exists i :: 1 <= i < |AorOptions(rows)| && AorOptions(rows)[i] == AorOption(r.aor.value, r.aorName)
  {
    var cells := Map(rows, AorPair);
    var ps := AorPairs(rows);
    var opts := AorOptions(rows);
    forall r | r in rows && r.aor.Some?
      ensures exists i :: 1 <= i < |opts| && opts[i] == AorOption(r.aor.value, r.aorName)
    {
      var j :| 0 <= j < |rows| && rows[j] == r;
      assert cells[j] == Some((r.aor.value, r.aorName));
      var k :| 0 <= k < |ps| && ps[k] == cells[j].value;
      assert opts[k + 1] == AorOption(ps[k].0, ps[k].1);
    }
  }

  /** The AOR entries read back: every value after "All" decodes to a code present in the rows, and every present code is offered. */
  lemma AorOptionsCover(rows: seq<AttrRow>)
    ensures AorOptions(rows)[0].value == AllSentinel
    ensures forall i :: 1 <= i < |AorOptions(rows)| ==> FromAorRow(rows, AorOptions(rows)[i])
    ensures forall r :: r in rows && r.aor.Some? ==>
      exists i :: 1 <= i < |AorOptions(rows)| && AorOptions(rows)[i] == AorOption(r.aor.value, r.aorName)
  {
    AorOptionsSound(rows);
    AorOptionsComplete(rows);
  }

  /** The placeholder entry reads back as the empty code it was generated from; every other AOR entry carries its code. */
  lemma AorOptionDecodes(aor: string, name: string)
    requires aor != "-"
    ensures Decode(AorOption(aor, name).value) == aor
  {
  }

  /** The column name passed for a dimension, from which the "All ..." label is made. */
  function ColumnName(d: Dimension): string
  {
    match d
    case AorDim => "Aor"
    case CaseTypeDim => "CaseType"
    case StatusDim => "Status"
    case PriorityDim => "Priority"
    case OriginDim => "CaseOrigin"
    case ReasonDim => "CaseReason"
    case ProductDim => "Product"
    case FeatureDim => "Feature"
    case ModuleDim => "Module"
    case IssueDim => "Issue"
  }

  /** The non-null values of a column, in row order (`df[col].dropna()`). */
  function ColumnValues(rows: seq<AttrRow>, d: Dimension): seq<string>
  {
    Somes(Map(rows, (row: AttrRow) => AttrCell(row, d)))
  }

  /** The column values are exactly the values of non-null cells. */
  lemma ColumnValuesSpec(rows: seq<AttrRow>, d: Dimension)
    ensures forall v :: v in ColumnValues(rows, d) <==> exists row :: row in rows && AttrCell(row, d) == Some(v)
  {
    var cells := Map(rows, (row: AttrRow) => AttrCell(row, d));
    forall v ensures Some(v) in cells <==> exists row :: row in rows && AttrCell(row, d) == Some(v) {
      if Some(v) in cells {
        var j :| 0 <= j < |cells| && cells[j] == Some(v);
        assert rows[j] in rows;
      }
      if exists row :: row in rows && AttrCell(row, d) == Some(v) {
        var row :| row in rows && AttrCell(row, d) == Some(v);
        var j :| 0 <= j < |rows| && rows[j] == row;
        assert cells[j] == Some(v);
      }
    }
  }

  /** The entry for one regular value: "" is the "Unspecified" placeholder entry; otherwise the titleized value with "N/A" removed, stripped. */
  function RegularOption(v: string, titleize: string -> string): DropOption
  {
    if v == "" then DropOption(Unspecified, "-")
    else DropOption(Strip(Replace(titleize(v), "N/A", "")), v)
  }

  function RegularHeader(d: Dimension, titleize: string -> string, pluralize: string -> string): DropOption
  {
    DropOption("All " + pluralize(titleize(ColumnName(d))), AllSentinel)
  }

  /** The entry maker for regular values under a fixed titleizer. */
  function RegularEntry(titleize: string -> string): string -> DropOption
  {
    v => RegularOption(v, titleize)
  }

  function RegularOptions(rows: seq<AttrRow>, d: Dimension, titleize: string -> string, pluralize: string -> string): seq<DropOption>
  {
    [RegularHeader(d, titleize, pluralize)] + Map(SortedUnique(ColumnValues(rows, d)), RegularEntry(titleize))
  }

  /** The regular option loop over `sorted(df[col].dropna().unique())`. */
  method BuildRegularOptions(rows: seq<AttrRow>, d: Dimension, titleize: string -> string, pluralize: string -> string)
    returns (options: seq<DropOption>)
    ensures options == RegularOptions(rows, d, titleize, pluralize)
  {
    var values := SortedUnique(ColumnValues(rows, d));
    options := [RegularHeader(d, titleize, pluralize)];
    var i := 0;
    while i < |values|
      invariant 0 <= i <= |values|
      invariant |options| == i + 1 && options[0] == RegularHeader(d, titleize, pluralize)
      invariant forall k :: 0 <= k < i ==> options[k + 1] == RegularOption(values[k], titleize)
    {
      options := options + [RegularOption(values[i], titleize)];
      i := i + 1;
    }
    assert options[1..] == Map(values, RegularEntry(titleize));
  }

  /**
   * Regular entries after "All" read back, in strictly ascending order, to
   * exactly the distinct non-null values of the column, provided no value
   * is the placeholder itself.
   */
  lemma RegularOptionsCover(rows: seq<AttrRow>, d: Dimension, titleize: string -> string, pluralize: string -> string)
    requires forall r :: r in rows ==> AttrCell(r, d) != Some("-")
    ensures RegularOptions(rows, d, titleize, pluralize)[0].value == AllSentinel
    ensures var decoded := Map(RegularOptions(rows, d, titleize, pluralize)[1..], (o: DropOption) => Decode(o.value));
      StrictlyAscending(decoded) &&
      forall v :: v in decoded <==> exists r :: r in rows && AttrCell(r, d) == Some(v)
  {
    var values := SortedUnique(ColumnValues(rows, d));
    var opts := RegularOptions(rows, d, titleize, pluralize);
    var decoded := Map(opts[1..], (o: DropOption) => Decode(o.value));
    ColumnValuesSpec(rows, d);
    assert |decoded| == |values|;
    forall i | 0 <= i < |values| ensures decoded[i] == values[i] {
      assert opts[1..][i] == RegularOption(values[i], titleize);
      assert values[i] in ColumnValues(rows, d);
    }
    assert decoded == values;
  }

  /** The option list generated for one dropdown from a filtered frame. */
  function OptionsFor(rows: seq<AttrRow>, d: Dimension, titleize: string -> string, pluralize: string -> string): (r: seq<DropOption>)
    ensures |r| > 0 && r[0].value == AllSentinel
  {
    match d
    case AorDim => AorOptions(rows)
    case CaseTypeDim => CaseTypeOptions(rows)
    case _ => RegularOptions(rows, d, titleize, pluralize)
  }

  // ---------------------------------------------------------------------
  // Callbacks

  /** The dropdowns a change callback refreshes: all but the one that fired, in panel order. */
  function Others(trigger: Dimension): (r: seq<Dimension>)
    ensures |r| == 9
  {
    match trigger
    case AorDim => [CaseTypeDim, StatusDim, PriorityDim, OriginDim, ReasonDim, ProductDim, FeatureDim, ModuleDim, IssueDim]
    case CaseTypeDim => [AorDim, StatusDim, PriorityDim, OriginDim, ReasonDim, ProductDim, FeatureDim, ModuleDim, IssueDim]
    case StatusDim => [AorDim, CaseTypeDim, PriorityDim, OriginDim, ReasonDim, ProductDim, FeatureDim, ModuleDim, IssueDim]
    case PriorityDim => [AorDim, CaseTypeDim, StatusDim, OriginDim, ReasonDim, ProductDim, FeatureDim, ModuleDim, IssueDim]
    case OriginDim => [AorDim, CaseTypeDim, StatusDim, PriorityDim, ReasonDim, ProductDim, FeatureDim, ModuleDim, IssueDim]
    case ReasonDim => [AorDim, CaseTypeDim, StatusDim, PriorityDim, OriginDim, ProductDim, FeatureDim, ModuleDim, IssueDim]
    case ProductDim => [AorDim, CaseTypeDim, StatusDim, PriorityDim, OriginDim, ReasonDim, FeatureDim, ModuleDim, IssueDim]
    case FeatureDim => [AorDim, CaseTypeDim, StatusDim, PriorityDim, OriginDim, ReasonDim, ProductDim, ModuleDim, IssueDim]
    case ModuleDim => [AorDim, CaseTypeDim, StatusDim, PriorityDim, OriginDim, ReasonDim, ProductDim, FeatureDim, IssueDim]
    case IssueDim => [AorDim, CaseTypeDim, StatusDim, PriorityDim, OriginDim, ReasonDim, ProductDim, FeatureDim, ModuleDim]
  }

  /** A change callback refreshes exactly nine dropdowns: every one except the trigger. */
  lemma OthersSpec(trigger: Dimension)
    ensures |Others(trigger)| == 9
    ensures forall d :: d in Others(trigger) <==> d != trigger
    ensures NoDuplicates(Others(trigger))
  {
    OthersMembers(trigger);
    OthersDistinct(trigger);
  }

  lemma OthersMembers(trigger: Dimension)
    ensures forall d :: d in Others(trigger) <==> d != trigger
  {
  }

  lemma OthersDistinct(trigger: Dimension)
    ensures NoDuplicates(Others(trigger))
  {
  }

  /**
   * A change callback: the attribute frame (None when loading failed) is
   * narrowed by all ten current selections and the nine other option lists
   * are regenerated; a failure gives nine empty lists.
   */
  function OnChange(loaded: Option<seq<AttrRow>>, trigger: Dimension, s: Selections,
                    titleize: string -> string, pluralize: string -> string): seq<seq<DropOption>>
  {
    Map(Others(trigger), (d: Dimension) => Refreshed(loaded, s, d, titleize, pluralize))
  }

  /** The list one dropdown receives from any change callback. */
  function Refreshed(loaded: Option<seq<AttrRow>>, s: Selections, d: Dimension,
                     titleize: string -> string, pluralize: string -> string): seq<DropOption>
  {
    if loaded.None? then [] else OptionsFor(ApplyFilters(loaded.value, s), d, titleize, pluralize)
  }

  /**
   * No precedence: whichever dropdown fires, the list shown for any other
   * dropdown is the same, computed from all ten current selections.
   */
  lemma NoPrecedence(loaded: Option<seq<AttrRow>>, t1: Dimension, t2: Dimension, s: Selections,
                     titleize: string -> string, pluralize: string -> string, i: nat, j: nat)
    requires i < |Others(t1)| && j < |Others(t2)| && Others(t1)[i] == Others(t2)[j]
    ensures OnChange(loaded, t1, s, titleize, pluralize)[i] == OnChange(loaded, t2, s, titleize, pluralize)[j]
    ensures loaded.Some? ==>
      OnChange(loaded, t1, s, titleize, pluralize)[i] == OptionsFor(ApplyFilters(loaded.value, s), Others(t1)[i], titleize, pluralize)
  {
  }

  /** A failed load gives nine empty option lists. */
  lemma OnChangeFailure(trigger: Dimension, s: Selections, titleize: string -> string, pluralize: string -> string)
    ensures var out := OnChange(None, trigger, s, titleize, pluralize);
      |out| == 9 && forall i :: 0 <= i < 9 ==> out[i] == []
  {
  }

  /** One dropdown's initial state: options and placeholder text. */
  datatype Panel = Panel(options: seq<DropOption>, placeholder: string)

  /** The noun each placeholder names, in panel order. */
  function PanelNoun(d: Dimension): string
  {
    match d
    case AorDim => "AORs"
    case CaseTypeDim => "Case Types"
    case StatusDim => "Statuses"
    case PriorityDim => "Priorities"
    case OriginDim => "Case Origins"
    case ReasonDim => "Case Reasons"
    case ProductDim => "Products"
    case FeatureDim => "Features"
    case ModuleDim => "Modules"
    case IssueDim => "Issues"
  }

  /** Initial population from the full dimension: every list, or on failure no list and an error placeholder. */
  function InitialPanels(loaded: Option<seq<AttrRow>>, titleize: string -> string, pluralize: string -> string): (r: seq<Panel>)
    ensures |r| == 10
    ensures forall i :: 0 <= i < 10 ==>
      if loaded.Some? then r[i] == Panel(OptionsFor(loaded.value, PanelOrder[i], titleize, pluralize), "Select " + PanelNoun(PanelOrder[i]) + "...")
      else r[i] == Panel([], "Error loading " + PanelNoun(PanelOrder[i]))
  {
    if loaded.None? then Map(PanelOrder, (d: Dimension) => Panel([], "Error loading " + PanelNoun(d)))
    else Map(PanelOrder, (d: Dimension) => Panel(OptionsFor(loaded.value, d, titleize, pluralize), "Select " + PanelNoun(d) + "..."))
  }

  // ---------------------------------------------------------------------
  // The store writer

  /** 2020-01-01 as a day number (days since 1970-01-01), the default start date. */
  const StartPlaceholderDay: int := 18262

  /** The store key each dropdown is written under. */
  function StoreKey(d: Dimension): string
  {
    match d
    case AorDim => "AOR"
    case CaseTypeDim => "CaseTypes"
    case StatusDim => "Status"
    case PriorityDim => "Priority"
    case OriginDim => "Origins"
    case ReasonDim => "Reasons"
    case ProductDim => "Products"
    case FeatureDim => "Features"
    case ModuleDim => "Modules"
    case IssueDim => "Issues"
  }

  /** The dropdown a store key belongs to, if any: the inverse of StoreKey. */
  function KeyDimension(k: string): (r: Option<Dimension>)
    ensures r.Some? ==> StoreKey(r.value) == k
  {
    if k == "AOR" then Some(AorDim)
    else if k == "CaseTypes" then Some(CaseTypeDim)
    else if k == "Status" then Some(StatusDim)
    else if k == "Priority" then Some(PriorityDim)
    else if k == "Origins" then Some(OriginDim)
    else if k == "Reasons" then Some(ReasonDim)
    else if k == "Products" then Some(ProductDim)
    else if k == "Features" then Some(FeatureDim)
    else if k == "Modules" then Some(ModuleDim)
    else if k == "Issues" then Some(IssueDim)
    else None
  }

  /** Every dropdown is written under a key of its own. */
  lemma StoreKeyInverse(d: Dimension)
    ensures KeyDimension(StoreKey(d)) == Some(d)
  {
    match d
    case AorDim =>
    case CaseTypeDim => assert StoreKey(d) != "AOR";
    case StatusDim => assert StoreKey(d)[0] == 'S';
    case PriorityDim => assert StoreKey(d)[0] == 'P';
    case OriginDim => assert StoreKey(d)[0] == 'O';
    case ReasonDim => assert StoreKey(d)[0] == 'R';
    case ProductDim => assert StoreKey(d)[0] == 'P' && StoreKey(d)[1] == 'r';
    case FeatureDim => assert StoreKey(d)[0] == 'F';
    case ModuleDim => assert StoreKey(d)[0] == 'M';
    case IssueDim => assert StoreKey(d)[0] == 'I';
  }

  /** No two dropdowns share a store key. */
  lemma StoreKeyInjective()
    ensures forall d, e :: StoreKey(d) == StoreKey(e) ==> d == e
  {
    forall d, e | StoreKey(d) == StoreKey(e) ensures d == e {
      StoreKeyInverse(d);
      StoreKeyInverse(e);
    }
  }

  /** `filter_data_query`: the two dates (defaulted) and each selection as a quoted list or "". */
  function FilterDataQuery(start: Option<int>, end: Option<int>, today: int, s: Selections): (st: Store)
    ensures "Day_From" in st.dates && st.dates["Day_From"] == (if start.Some? then start.value else StartPlaceholderDay)
    ensures "Day_To" in st.dates && st.dates["Day_To"] == (if end.Some? then end.value else today)
    ensures forall k :: k in st.dates ==> k == "Day_From" || k == "Day_To"
  {
    Store(
      map["Day_From" := (if start.Some? then start.value else StartPlaceholderDay),
          "Day_To" := (if end.Some? then end.value else today)],
      TextEntries(s))
  }

  /** The text half of the store: each dropdown's quoted list under its own key. */
  function TextEntries(s: Selections): map<string, string>
  {
    StoreKeyInjective();
    map d | d in PanelOrder :: StoreKey(d) := QuotedList(SelectionFor(s, d))
  }

  /** Each dropdown is written under its own key as its quoted list, or "" when it imposes nothing. */
  lemma FilterDataQueryText(start: Option<int>, end: Option<int>, today: int, s: Selections, d: Dimension)
    ensures var st := FilterDataQuery(start, end, today, s);
      StoreKey(d) in st.text && st.text[StoreKey(d)] == QuotedList(SelectionFor(s, d)) &&
      (!IsActive(SelectionFor(s, d)) ==> st.text[StoreKey(d)] == "")
  {
    StoreKeyInjective();
    assert d in PanelOrder by { match d case _ => }
  }

  /** A missing store reads as an empty one. */
  function StoreOf(stored: Option<Store>): Store
  {
    if stored.Some? then stored.value else Store(map[], map[])
  }

  /** The date range a reader finds under two keys: present only when both are. */
  function StoreRange(st: Store, fromKey: string, toKey: string): (r: Option<(int, int)>)
    ensures r.Some? <==> fromKey in st.dates && toKey in st.dates
  {
    if fromKey in st.dates && toKey in st.dates then Some((st.dates[fromKey], st.dates[toKey])) else None
  }

  /** The panel writes its range under Day_From/Day_To, so a reader looking under StartDate/EndDate finds none. */
  lemma PanelRangeKeys(start: Option<int>, end: Option<int>, today: int, s: Selections)
    ensures StoreRange(FilterDataQuery(start, end, today, s), "Day_From", "Day_To") ==
      Some((if start.Some? then start.value else StartPlaceholderDay, if end.Some? then end.value else today))
    ensures StoreRange(FilterDataQuery(start, end, today, s), "StartDate", "EndDate") == None
  {
    var st := FilterDataQuery(start, end, today, s);
    assert "StartDate" !in st.dates by {
      assert "StartDate" != "Day_From" && "StartDate" != "Day_To";
    }
  }

  /** Clearing resets both dates to their defaults and every dropdown to the empty selection. */
  function ClearAllFilters(today: int): (r: (int, int, Selections))
    ensures r.0 == StartPlaceholderDay && r.1 == today
    ensures forall d :: SelectionFor(r.2, d) == Some([]) && !IsActive(SelectionFor(r.2, d))
  {
    (StartPlaceholderDay, today,
     Selections(Some([]), Some([]), Some([]), Some([]), Some([]), Some([]), Some([]), Some([]), Some([]), Some([])))
  }
}
