/**
 * The compliance filter panel (src/callbacks/compliance_callbacks/compliance_filters.py):
 * the attribute frame the eight dropdowns are built from, the cross-filter
 * that narrows it by all current selections, the option list generated for
 * each dropdown.
 */
module ComplianceFilters {
  import opened Common
  import opened ComplianceData

  // ---------------------------------------------------------------------
  // The attribute frame

  /** A row of the attribute query with its JSON list columns decoded; `reportIds` is None for a SQL NULL. */
  datatype RawAttrRow = RawAttrRow(
    assignedUser: Option<string>,
    disposition: Option<string>,
    violations: ListCell,
    rules: ListCell,
    titles: ListCell,
    fees: ListCell,
    fineTypes: ListCell,
    reportIds: Option<seq<string>>)

  /** A row of the attribute frame the panel works on: ReportIds replaced by its length. */
  datatype AttrRow = AttrRow(
    assignedUser: Option<string>,
    disposition: Option<string>,
    violations: ListCell,
    rules: ListCell,
    titles: ListCell,
    fees: ListCell,
    fineTypes: ListCell,
    numReportIds: nat)

  /** `NumReportIds = ReportIds.apply(len)` with a null list read as `[]`, after which ReportIds is dropped. */
  function WithReportCount(raw: RawAttrRow): (r: AttrRow)
    ensures raw.reportIds.None? ==> r.numReportIds == 0
    ensures raw.reportIds.Some? ==> r.numReportIds == |raw.reportIds.value|
    ensures r.assignedUser == raw.assignedUser && r.disposition == raw.disposition
    ensures r.violations == raw.violations && r.rules == raw.rules && r.titles == raw.titles
    ensures r.fees == raw.fees && r.fineTypes == raw.fineTypes
  {
    AttrRow(raw.assignedUser, raw.disposition, raw.violations, raw.rules, raw.titles,
            raw.fees, raw.fineTypes, NumReports(raw.reportIds))
  }

  function Attributes(raw: seq<RawAttrRow>): seq<AttrRow>
  {
    Map(raw, WithReportCount)
  }

  function AttrScalar(r: AttrRow, col: ScalarColumn): Option<string>
  {
    match col
    case DispositionColumn => r.disposition
    case AssignedUserColumn => r.assignedUser
  }

  function AttrList(r: AttrRow, col: ListColumn): ListCell
  {
    match col
    case ViolationNameColumn => r.violations
    case RuleNumberColumn => r.rules
    case RuleTitleColumn => r.titles
    case CitationFeeColumn => r.fees
    case FineTypeColumn => r.fineTypes
  }

  /** The eight dropdowns of the panel. */
  datatype Field = ScalarField(scalar: ScalarColumn) | ListField(list: ListColumn) | ReportsField

  const PanelOrder: seq<Field> := [
    ScalarField(DispositionColumn), ScalarField(AssignedUserColumn),
    ListField(ViolationNameColumn), ListField(RuleNumberColumn), ListField(RuleTitleColumn),
    ListField(CitationFeeColumn), ListField(FineTypeColumn), ReportsField]

  lemma PanelOrderComplete(f: Field)
    ensures f in PanelOrder
  {
    match f
    case ScalarField(DispositionColumn) =>
    case ScalarField(AssignedUserColumn) =>
    case ListField(ViolationNameColumn) =>
    case ListField(RuleNumberColumn) =>
    case ListField(RuleTitleColumn) =>
    case ListField(CitationFeeColumn) =>
    case ListField(FineTypeColumn) =>
    case ReportsField =>
  }

  /** The current value of every dropdown. */
  datatype Selections = Selections(
    disposition: Selection, agent: Selection, violations: Selection, rules: Selection,
    titles: Selection, fees: Selection, fineTypes: Selection, reports: Selection)

  function SelectionFor(s: Selections, f: Field): Selection
  {
    match f
    case ScalarField(DispositionColumn) => s.disposition
    case ScalarField(AssignedUserColumn) => s.agent
    case ListField(ViolationNameColumn) => s.violations
    case ListField(RuleNumberColumn) => s.rules
    case ListField(RuleTitleColumn) => s.titles
    case ListField(CitationFeeColumn) => s.fees
    case ListField(FineTypeColumn) => s.fineTypes
    case ReportsField => s.reports
  }

  // ---------------------------------------------------------------------
  // The cross-filter (`apply_filters_to_dataset`)

  /** One narrowing step of the cross-filter; a skipped selection contributes `KeepAll`. */
  datatype Narrowing =
    | ByScalar(scalar: ScalarColumn, values: seq<string>)
    | ByList(list: ListColumn, values: seq<string>)
    | ByReports(counts: seq<int>)
    | KeepAll

  /**
   * Whether a row survives a step: `isin` on a scalar (a null matches
   * nothing), `any(item in values for item in x)` on a list, integer
   * membership on the report count.
   */
  predicate Keeps(n: Narrowing, r: AttrRow)
  {
    match n
    case ByScalar(col, vs) => CellIn(AttrScalar(r, col), vs)
    case ByList(col, vs) => AnyListed(AttrList(r, col), vs)
    case ByReports(ns) => (r.numReportIds as int) in ns
    case KeepAll => true
  }

  /** A list step raises on a row whose cell is not a list (iterating over None). */
  predicate Raises(n: Narrowing, r: AttrRow)
  {
    n.ByList? && AttrList(r, n.list).None?
  }

  function KeepsOf(n: Narrowing): AttrRow -> bool
  {
    r => Keeps(n, r)
  }

  /** One step, `df = df[mask]`: None when computing the mask raises on some row. */
  function Narrow(rows: seq<AttrRow>, n: Narrowing): Option<seq<AttrRow>>
  {
    if exists r :: r in rows && Raises(n, r) then None else Some(Filter(rows, KeepsOf(n)))
  }

  /** The steps one after the other; the first exception ends the chain. */
  function NarrowAll(rows: seq<AttrRow>, ns: seq<Narrowing>): Option<seq<AttrRow>>
    decreases |ns|
  {
    if |ns| == 0 then Some(rows)
    else
      match Narrow(rows, ns[0])
      case None => None
      case Some(rest) => NarrowAll(rest, ns[1..])
  }

  /** The row survives the first `k` steps. */
  predicate KeepsFirst(ns: seq<Narrowing>, k: nat, r: AttrRow)
    requires k <= |ns|
  {
    forall j :: 0 <= j < k ==> Keeps(ns[j], r)
  }

  function KeepsAllOf(ns: seq<Narrowing>): AttrRow -> bool
  {
    r => KeepsFirst(ns, |ns|, r)
  }

  /** Some step raises on a row that survived all the steps before it. */
  predicate RaisesSomewhere(rows: seq<AttrRow>, ns: seq<Narrowing>)
  {
    exists k, r :: 0 <= k < |ns| && r in rows && KeepsFirst(ns, k, r) && Raises(ns[k], r)
  }

  /**
   * The chain keeps, in order, exactly the rows that survive every step, and
   * it raises exactly when some step meets a non-list cell on a row that is
   * still in the frame at that step.
   */
  lemma {:induction false} NarrowAllSpec(rows: seq<AttrRow>, ns: seq<Narrowing>)
    ensures NarrowAll(rows, ns).None? <==> RaisesSomewhere(rows, ns)
    ensures NarrowAll(rows, ns).Some? ==> NarrowAll(rows, ns).value == Filter(rows, KeepsAllOf(ns))
    decreases |ns|
  {
    if |ns| == 0 {
      FilterAll(rows, KeepsAllOf(ns));
    } else {
      var tail := ns[1..];
      var step := Narrow(rows, ns[0]);
      if step.None? {
        var r :| r in rows && Raises(ns[0], r);
        assert KeepsFirst(ns, 0, r);
      } else {
        var rest := step.value;
        NarrowAllSpec(rest, tail);
        forall r | r in rows
          ensures KeepsAllOf(ns)(r) == (KeepsOf(ns[0])(r) && KeepsAllOf(tail)(r))
        {
          ShiftKeeps(ns, |tail|, r);
        }
        if NarrowAll(rest, tail).Some? {
          FilterThen(rows, KeepsOf(ns[0]), KeepsAllOf(tail), KeepsAllOf(ns));
        }
        RaisesShift(rows, ns);
      }
    }
  }

  /** Surviving the first `k + 1` steps is surviving the first and then `k` of the rest. */
  lemma ShiftKeeps(ns: seq<Narrowing>, k: nat, r: AttrRow)
    requires 0 < |ns| && k < |ns|
    ensures KeepsFirst(ns, k + 1, r) == (Keeps(ns[0], r) && KeepsFirst(ns[1..], k, r))
  {
    assert forall j :: 0 <= j < k ==> ns[1..][j] == ns[j + 1];
    if Keeps(ns[0], r) && KeepsFirst(ns[1..], k, r) {
      forall j | 0 <= j < k + 1 ensures Keeps(ns[j], r) {
        if j > 0 { assert ns[j] == ns[1..][j - 1]; }
      }
    }
  }

  /** When no row raises on the first step, raising somewhere is raising somewhere after it on the survivors. */
  lemma RaisesShift(rows: seq<AttrRow>, ns: seq<Narrowing>)
    requires 0 < |ns| && Narrow(rows, ns[0]).Some?
    ensures RaisesSomewhere(rows, ns) <==> RaisesSomewhere(Filter(rows, KeepsOf(ns[0])), ns[1..])
  {
    var rest := Filter(rows, KeepsOf(ns[0]));
    var tail := ns[1..];
    if RaisesSomewhere(rows, ns) {
      var k, r :| 0 <= k < |ns| && r in rows && KeepsFirst(ns, k, r) && Raises(ns[k], r);
      assert k != 0;
      ShiftKeeps(ns, k - 1, r);
      assert r in rest;
      assert tail[k - 1] == ns[k];
    }
    if RaisesSomewhere(rest, tail) {
      var k, r :| 0 <= k < |tail| && r in rest && KeepsFirst(tail, k, r) && Raises(tail[k], r);
      ShiftKeeps(ns, k, r);
      assert ns[k + 1] == tail[k];
      assert KeepsFirst(ns, k + 1, r) && Raises(ns[k + 1], r);
    }
  }

  function ScalarStep(sel: Selection, col: ScalarColumn): Narrowing
  {
    if IsActive(sel) then ByScalar(col, sel.value) else KeepAll
  }

  function ListStep(sel: Selection, col: ListColumn): Narrowing
  {
    if IsActive(sel) then ByList(col, sel.value) else KeepAll
  }

  /** `[int(x) for x in selected_num_reports]` for an active selection; None when a value is not an integer. */
  function SelectedCounts(sel: Selection): Option<seq<int>>
  {
    if IsActive(sel) then IntsOf(sel.value) else Some([])
  }

  /** The eight steps in the order the source applies them. */
  function Narrowings(s: Selections, counts: seq<int>): (ns: seq<Narrowing>)
    ensures |ns| == 8
  {
    [ScalarStep(s.disposition, DispositionColumn),
     ScalarStep(s.agent, AssignedUserColumn),
     ListStep(s.violations, ViolationNameColumn),
     ListStep(s.rules, RuleNumberColumn),
     ListStep(s.titles, RuleTitleColumn),
     ListStep(s.fees, CitationFeeColumn),
     ListStep(s.fineTypes, FineTypeColumn),
     if IsActive(s.reports) then ByReports(counts) else KeepAll]
  }

  /**
   * `apply_filters_to_dataset`; None stands for an exception. The report
   * conversion comes last in the source, so it raises exactly when no
   * earlier step has; either way the caller sees an exception.
   */
  function ApplyFilters(rows: seq<AttrRow>, s: Selections): Option<seq<AttrRow>>
  {
    var counts := SelectedCounts(s.reports);
    if counts.None? then None else NarrowAll(rows, Narrowings(s, counts.value))
  }

  /** A list selection that is active admits a cell exactly when the cell is a list with a selected element. */
  predicate ListAdmits(sel: Selection, cell: ListCell)
  {
    !IsActive(sel) || AnyListed(cell, sel.value)
  }

  /** What a row must meet to survive the cross-filter, selection by selection. */
  predicate PassesSelections(r: AttrRow, s: Selections, counts: seq<int>)
  {
    Admits(s.disposition, r.disposition) &&
    Admits(s.agent, r.assignedUser) &&
    ListAdmits(s.violations, r.violations) &&
    ListAdmits(s.rules, r.rules) &&
    ListAdmits(s.titles, r.titles) &&
    ListAdmits(s.fees, r.fees) &&
    ListAdmits(s.fineTypes, r.fineTypes) &&
    (IsActive(s.reports) ==> (r.numReportIds as int) in counts)
  }

  function PassesOf(s: Selections, counts: seq<int>): AttrRow -> bool
  {
    r => PassesSelections(r, s, counts)
  }

  lemma StepsMeanSelections(r: AttrRow, s: Selections, counts: seq<int>)
    ensures KeepsAllOf(Narrowings(s, counts))(r) == PassesSelections(r, s, counts)
  {
    var ns := Narrowings(s, counts);
    assert KeepsFirst(ns, 8, r) == (Keeps(ns[0], r) && Keeps(ns[1], r) && Keeps(ns[2], r) && Keeps(ns[3], r) &&
      Keeps(ns[4], r) && Keeps(ns[5], r) && Keeps(ns[6], r) && Keeps(ns[7], r));
  }

  /**
   * The cross-filter: when it succeeds it keeps, in order, exactly the rows
   * that every active selection admits; a report value that is not an
   * integer always raises; and a frame whose list cells are all lists never
   * raises otherwise.
   */
  lemma ApplyFiltersSpec(rows: seq<AttrRow>, s: Selections)
    ensures SelectedCounts(s.reports).None? ==> ApplyFilters(rows, s).None?
    ensures ApplyFilters(rows, s).Some? ==>
      SelectedCounts(s.reports).Some? &&
      ApplyFilters(rows, s).value == Filter(rows, PassesOf(s, SelectedCounts(s.reports).value))
    ensures SelectedCounts(s.reports).Some? && (forall r, col :: r in rows ==> AttrList(r, col).Some?) ==>
      ApplyFilters(rows, s).Some?
  {
    var counts := SelectedCounts(s.reports);
    if counts.Some? {
      var ns := Narrowings(s, counts.value);
      NarrowAllSpec(rows, ns);
      forall r | r in rows ensures KeepsAllOf(ns)(r) == PassesOf(s, counts.value)(r) {
        StepsMeanSelections(r, s, counts.value);
      }
      FilterExt(rows, KeepsAllOf(ns), PassesOf(s, counts.value));
      if forall r, col :: r in rows ==> AttrList(r, col).Some? {
        assert !RaisesSomewhere(rows, ns);
      }
    }
  }

  /** A null list cell under an active list selection makes the cross-filter raise. */
  lemma NonListCellRaises()
    ensures ApplyFilters([AttrRow(None, None, None, None, None, None, None, 0)],
      Selections(None, None, Some(["Late Listing"]), None, None, None, None, None)).None?
  {
    var r := AttrRow(None, None, None, None, None, None, None, 0);
    var s := Selections(None, None, Some(["Late Listing"]), None, None, None, None, None);
    assert SelectedCounts(s.reports) == Some([]);
    var ns := Narrowings(s, []);
    assert ns[0] == KeepAll && ns[1] == KeepAll;
    assert Narrow([r], KeepAll) == Some([r]) by { FilterAll([r], KeepsOf(KeepAll)); }
    assert Narrow([r], ns[2]).None? by { assert Raises(ns[2], r); }
    assert ns[1..][0] == KeepAll && ns[1..][1..] == ns[2..] && ns[2..][0] == ns[2];
  }

  // ---------------------------------------------------------------------
  // Option lists (`generate_dropdown_options`)

  /** The text helpers the source imports or formats with: `titleize`, `pluralize`, `float(...)` and `f"{v:,.2f}"`. */
  datatype Formatting = Formatting(
    titleize: string -> string,
    pluralize: string -> string,
    readFloat: string -> Option<real>,
    money: real -> string)

  /** The column name each dropdown's options are generated for. */
  function ColumnName(f: Field): string
  {
    match f
    case ScalarField(DispositionColumn) => "Disposition"
    case ScalarField(AssignedUserColumn) => "AssignedUser"
    case ListField(ViolationNameColumn) => "ViolationName"
    case ListField(RuleNumberColumn) => "RuleNumber"
    case ListField(RuleTitleColumn) => "RuleTitle"
    case ListField(CitationFeeColumn) => "CitationFee"
    case ListField(FineTypeColumn) => "FineType"
    case ReportsField => "NumReportIds"
  }

  /** The column name with the source's five replacements applied, before `titleize` and `pluralize`. */
  function PrefixSource(name: string): string
  {
    Replace(Replace(Replace(Replace(Replace(name, "NumReport", "Report count"), "Assigned", ""), "User", "Agent"), "Ids", ""), "Type", "")
  }

  /** The leading entry every list gets. */
  function Header(f: Field, fmt: Formatting): DropOption
  {
    DropOption("All " + fmt.pluralize(fmt.titleize(PrefixSource(ColumnName(f)))), AllSentinel)
  }

  function ItemsOf(cell: ListCell): seq<Option<string>>
  {
    if cell.Some? then cell.value else []
  }

  /** Every element of every list-valued cell of a column, row by row; cells that are not lists add nothing. */
  function ListElements(rows: seq<AttrRow>, col: ListColumn): seq<Option<string>>
    decreases |rows|
  {
    if |rows| == 0 then [] else ListElements(rows[..|rows| - 1], col) + ItemsOf(AttrList(rows[|rows| - 1], col))
  }

  lemma {:induction false} ListElementsSpec(rows: seq<AttrRow>, col: ListColumn)
    ensures forall x :: x in ListElements(rows, col) <==> exists r :: r in rows && x in ItemsOf(AttrList(r, col))
    decreases |rows|
  {
    if |rows| > 0 {
      var init := rows[..|rows| - 1];
      ListElementsSpec(init, col);
      assert rows == init + [rows[|rows| - 1]];
      assert forall r :: r in rows <==> r in init || r == rows[|rows| - 1];
    }
  }

  /** `str(value).strip() != ""`. */
  predicate NotBlank(v: string)
  {
    !IsBlank(v)
  }

  /** The values a list dropdown offers: the non-null elements, deduplicated and sorted, blank ones skipped. */
  function ListValues(rows: seq<AttrRow>, col: ListColumn): seq<string>
  {
    Filter(SortedUnique(Somes(ListElements(rows, col))), NotBlank)
  }

  /** A CitationFee label: "No Fee" for zero, a currency figure for any other number, the raw text when it is not a number. */
  function FeeLabel(v: string, fmt: Formatting): string
  {
    match fmt.readFloat(v)
    case None => v
    case Some(x) => if x == 0.0 then "No Fee" else "$" + fmt.money(x)
  }

  /** A RuleNumber label: "Rule - " before a value that starts with a digit. */
  function RuleNumberLabel(v: string): string
  {
    if |v| > 0 && IsDigit(v[0]) then "Rule - " + v else v
  }

  /** A RuleTitle label: titles longer than 100 characters are cut to 97 and marked "...". */
  function RuleTitleLabel(v: string): string
  {
    if |v| <= 100 then v else v[..97] + "..."
  }

  function ListLabel(col: ListColumn, v: string, fmt: Formatting): string
  {
    match col
    case CitationFeeColumn => FeeLabel(v, fmt)
    case RuleNumberColumn => RuleNumberLabel(v)
    case RuleTitleColumn => RuleTitleLabel(v)
    case FineTypeColumn => fmt.titleize(v)
    case ViolationNameColumn => v
  }

  function ListEntry(col: ListColumn, fmt: Formatting): string -> DropOption
  {
    v => DropOption(ListLabel(col, v, fmt), v)
  }

  /**
   * A list dropdown's options with null elements skipped, as the source's
   * `pd.notnull` test intends; the model's callbacks use this definition.
   */
  function ListOptions(rows: seq<AttrRow>, col: ListColumn, fmt: Formatting): seq<DropOption>
  {
    [Header(ListField(col), fmt)] + Map(ListValues(rows, col), ListEntry(col, fmt))
  }

  /**
   * The list branch as written: `sorted(unique_values)` runs before the null
   * test, and Python cannot order None against a string, so a null element
   * next to any other element raises (None).
   */
  function ListOptionsAsWritten(rows: seq<AttrRow>, col: ListColumn, fmt: Formatting): Option<seq<DropOption>>
  {
    var elems := ListElements(rows, col);
    if None in elems && |Somes(elems)| > 0 then None else Some(ListOptions(rows, col, fmt))
  }

  /** Without null elements the code as written gives the intended list. */
  lemma AsWrittenWithoutNulls(rows: seq<AttrRow>, col: ListColumn, fmt: Formatting)
    requires forall r :: r in rows ==> None !in ItemsOf(AttrList(r, col))
    ensures ListOptionsAsWritten(rows, col, fmt) == Some(ListOptions(rows, col, fmt))
  {
    ListElementsSpec(rows, col);
  }

  /** One violation list `[null, "Late Listing"]` makes the list branch as written raise, while the intended list offers "Late Listing". */
  lemma NullElementRaises(fmt: Formatting)
    ensures var rows := [AttrRow(None, None, Some([None, Some("Late Listing")]), None, None, None, None, 0)];
      ListOptionsAsWritten(rows, ViolationNameColumn, fmt).None? &&
      ListOptions(rows, ViolationNameColumn, fmt)[1..] == [DropOption("Late Listing", "Late Listing")]
  {
    var rows := [AttrRow(None, None, Some([None, Some("Late Listing")]), None, None, None, None, 0)];
    var elems := ListElements(rows, ViolationNameColumn);
    assert rows[..0] == [];
    assert elems == [None, Some("Late Listing")];
    assert Somes(elems) == ["Late Listing"];
    var sorted := SortedUnique(["Late Listing"]);
    assert sorted == ["Late Listing"] by {
      assert ["Late Listing"][..0] == [];
    }
    assert NotBlank("Late Listing") by { assert "Late Listing"[0] !in Whitespace; }
    assert Filter(sorted, NotBlank) == ["Late Listing"];
  }

  /** The values a scalar dropdown offers: `sorted(df[col].dropna().unique())`, blank ones skipped. */
  function ScalarCells(rows: seq<AttrRow>, col: ScalarColumn): seq<Option<string>>
  {
    Map(rows, (r: AttrRow) => AttrScalar(r, col))
  }

  function ScalarValues(rows: seq<AttrRow>, col: ScalarColumn): seq<string>
  {
    Filter(SortedUnique(Somes(ScalarCells(rows, col))), NotBlank)
  }

  /** A scalar label: the titleized value with "N/A" removed, stripped. */
  function ScalarLabel(v: string, fmt: Formatting): string
  {
    Strip(Replace(fmt.titleize(v), "N/A", ""))
  }

  function ScalarEntry(fmt: Formatting): string -> DropOption
  {
    v => DropOption(ScalarLabel(v, fmt), v)
  }

  function ScalarOptions(rows: seq<AttrRow>, col: ScalarColumn, fmt: Formatting): seq<DropOption>
  {
    [Header(ScalarField(col), fmt)] + Map(ScalarValues(rows, col), ScalarEntry(fmt))
  }

  /** The report counts offered: the distinct NumReportIds values in ascending order. */
  function ReportValues(rows: seq<AttrRow>): seq<int>
  {
    SortedUniqueInts(Map(rows, (r: AttrRow) => r.numReportIds as int))
  }

  /** `f"{v} Report{'s' if int(v) != 1 else ''}"` on `v = str(n)`, whose `int` is `n` again. */
  function ReportLabel(n: int): string
  {
    IntToString(n) + " Report" + (if n != 1 then "s" else "")
  }

  function ReportOption(n: int): DropOption
  {
    DropOption(ReportLabel(n), IntToString(n))
  }

  function ReportOptions(rows: seq<AttrRow>, fmt: Formatting): seq<DropOption>
  {
    [Header(ReportsField, fmt)] + Map(ReportValues(rows), ReportOption)
  }

  /** The option list generated for one dropdown. */
  function OptionsFor(rows: seq<AttrRow>, f: Field, fmt: Formatting): (r: seq<DropOption>)
    ensures |r| > 0 && r[0] == Header(f, fmt) && r[0].value == AllSentinel
  {
    match f
    case ScalarField(col) => ScalarOptions(rows, col, fmt)
    case ListField(col) => ListOptions(rows, col, fmt)
    case ReportsField => ReportOptions(rows, fmt)
  }

  function OptionValue(o: DropOption): string
  {
    o.value
  }

  /**
   * List options after "All" offer, in strictly ascending order, exactly the
   * non-blank values that occur as an element of some row's list.
   */
  lemma ListOptionsSpec(rows: seq<AttrRow>, col: ListColumn, fmt: Formatting)
    ensures var values := Map(ListOptions(rows, col, fmt)[1..], OptionValue);
      StrictlyAscending(values) &&
      forall v :: v in values <==> NotBlank(v) && exists r :: r in rows && Some(v) in ItemsOf(AttrList(r, col))
  {
    var vs := ListValues(rows, col);
    var values := Map(ListOptions(rows, col, fmt)[1..], OptionValue);
    assert values == vs;
    ListElementsSpec(rows, col);
    FilterAscending(SortedUnique(Somes(ListElements(rows, col))), NotBlank);
  }

  /** Scalar options after "All" offer, in strictly ascending order, exactly the non-blank values of non-null cells. */
  lemma ScalarOptionsSpec(rows: seq<AttrRow>, col: ScalarColumn, fmt: Formatting)
    ensures var values := Map(ScalarOptions(rows, col, fmt)[1..], OptionValue);
      StrictlyAscending(values) &&
      forall v :: v in values <==> NotBlank(v) && exists r :: r in rows && AttrScalar(r, col) == Some(v)
  {
    var cells := ScalarCells(rows, col);
    var values := Map(ScalarOptions(rows, col, fmt)[1..], OptionValue);
    assert values == ScalarValues(rows, col);
    FilterAscending(SortedUnique(Somes(cells)), NotBlank);
    forall v ensures Some(v) in cells <==> exists r :: r in rows && AttrScalar(r, col) == Some(v) {
      if Some(v) in cells {
        var j :| 0 <= j < |cells| && cells[j] == Some(v);
        assert rows[j] in rows;
      }
      if exists r :: r in rows && AttrScalar(r, col) == Some(v) {
        var r :| r in rows && AttrScalar(r, col) == Some(v);
        var j :| 0 <= j < |rows| && rows[j] == r;
        assert cells[j] == Some(v);
      }
    }
  }

  /** Report options after "All" carry, in ascending order, exactly the report counts of the rows, each written as its decimal string. */
  lemma ReportOptionsSpec(rows: seq<AttrRow>, fmt: Formatting)
    ensures var opts := ReportOptions(rows, fmt)[1..];
      |opts| == |ReportValues(rows)| &&
      IntsAscending(ReportValues(rows)) &&
      (forall i :: 0 <= i < |opts| ==> ParseInt(opts[i].value) == Some(ReportValues(rows)[i])) &&
      forall n :: n in ReportValues(rows) <==> exists r :: r in rows && r.numReportIds as int == n
  {
    var opts := ReportOptions(rows, fmt)[1..];
    var counts := Map(rows, (r: AttrRow) => r.numReportIds as int);
    forall i | 0 <= i < |opts| ensures ParseInt(opts[i].value) == Some(ReportValues(rows)[i]) {
      assert opts[i] == ReportOption(ReportValues(rows)[i]);
      ParseIntOfIntToString(ReportValues(rows)[i]);
    }
    forall n ensures n in counts <==> exists r :: r in rows && r.numReportIds as int == n {
      if n in counts {
        var j :| 0 <= j < |counts| && counts[j] == n;
        assert rows[j] in rows;
      }
      if exists r :: r in rows && r.numReportIds as int == n {
        var r :| r in rows && r.numReportIds as int == n;
        var j :| 0 <= j < |rows| && rows[j] == r;
        assert counts[j] == n;
      }
    }
  }

  /** Filtering keeps an ascending list ascending. */
  lemma {:induction false} FilterAscending(xs: seq<string>, p: string -> bool)
    requires StrictlyAscending(xs)
    ensures StrictlyAscending(Filter(xs, p))
  {
    if |xs| > 1 {
      var rest := xs[1..];
      assert StrictlyAscending(rest) by {
        forall i | 0 <= i < |rest| - 1 ensures StrLess(rest[i], rest[i + 1]) {
          assert rest[i] == xs[i + 1] && rest[i + 1] == xs[i + 2];
        }
      }
      FilterAscending(rest, p);
      var fr := Filter(rest, p);
      if p(xs[0]) && |fr| > 0 {
        assert fr[0] in rest;
        var j :| 0 <= j < |rest| && rest[j] == fr[0];
        AscendingPairs(xs, 0, j + 1);
        assert Filter(xs, p) == [xs[0]] + fr;
      }
    }
  }

  /** RuleTitle labels never exceed 100 characters, a title of at most 100 is shown whole, and a longer one by its first 97 characters. */
  lemma RuleTitleLabelBound(v: string)
    ensures |RuleTitleLabel(v)| <= 100
    ensures RuleTitleLabel(v) == v <==> |v| <= 100
    ensures |v| > 100 ==> StartsWith(RuleTitleLabel(v), v[..97]) && EndsWith(RuleTitleLabel(v), "...")
  {
    if |v| > 100 {
      var l := RuleTitleLabel(v);
      assert |l| == 100;
      assert l[..97] == v[..97];
      assert l[97..] == "...";
    }
  }

  /** A RuleNumber label is "Rule - " before the value iff the value starts with a digit, and the value itself otherwise. */
  lemma RuleNumberLabelIff(v: string)
    requires |v| > 0
    ensures RuleNumberLabel(v) == "Rule - " + v <==> IsDigit(v[0])
    ensures !IsDigit(v[0]) ==> RuleNumberLabel(v) == v
  {
  }

  /** A count of one reads "1 Report"; any other count reads as its number and "Reports". */
  lemma ReportLabelForms(n: int)
    ensures ReportLabel(1) == "1 Report"
    ensures n != 1 ==> ReportLabel(n) == IntToString(n) + " Reports"
    ensures StartsWith(ReportLabel(n), IntToString(n))
  {
    assert NatToString(1) == "1";
    var l := ReportLabel(n);
    assert l[..|IntToString(n)|] == IntToString(n);
  }

  /** Every list label of a value that reads as a number: "No Fee" for zero, a "$" figure otherwise; other values are shown as they are. */
  lemma FeeLabelCases(v: string, fmt: Formatting)
    ensures fmt.readFloat(v) == Some(0.0) ==> FeeLabel(v, fmt) == "No Fee"
    ensures fmt.readFloat(v).Some? && fmt.readFloat(v).value != 0.0 ==> StartsWith(FeeLabel(v, fmt), "$")
    ensures fmt.readFloat(v).None? ==> FeeLabel(v, fmt) == v
  {
  }

  // ---------------------------------------------------------------------
  // The loops of `generate_dropdown_options`

  /** `for item_list in df[col]: if isinstance(item_list, list): unique_values.update(item_list)`, as a sequence. */
  method CollectElements(rows: seq<AttrRow>, col: ListColumn) returns (elems: seq<Option<string>>)
    ensures elems == ListElements(rows, col)
  {
    elems := [];
    var i := 0;
    while i < |rows|
      invariant 0 <= i <= |rows|
      invariant elems == ListElements(rows[..i], col)
    {
      var cell := AttrList(rows[i], col);
      if cell.Some? {
        elems := elems + cell.value;
      }
      assert rows[..i + 1][..i] == rows[..i];
      i := i + 1;
    }
    assert rows[..i] == rows;
  }

  /** The entries of the non-blank values, built from the back as the loop appends them. */
  function KeptEntries(values: seq<string>, entry: string -> DropOption): seq<DropOption>
    decreases |values|
  {
    if |values| == 0 then []
    else
      var last := values[|values| - 1];
      KeptEntries(values[..|values| - 1], entry) + (if NotBlank(last) then [entry(last)] else [])
  }

  lemma {:induction false} KeptEntriesSpec(values: seq<string>, entry: string -> DropOption)
    ensures KeptEntries(values, entry) == Map(Filter(values, NotBlank), entry)
    decreases |values|
  {
    if |values| > 0 {
      var i := |values| - 1;
      KeptEntriesSpec(values[..i], entry);
      EntriesSnoc(values, i, entry);
      assert values[..i + 1] == values;
    }
  }

  lemma EntriesSnoc(values: seq<string>, i: nat, entry: string -> DropOption)
    requires i < |values|
    ensures Map(Filter(values[..i + 1], NotBlank), entry) ==
      Map(Filter(values[..i], NotBlank), entry) + (if NotBlank(values[i]) then [entry(values[i])] else [])
  {
    assert values[..i + 1] == values[..i] + [values[i]];
    FilterAppend(values[..i], [values[i]], NotBlank);
    MapAppend(Filter(values[..i], NotBlank), Filter([values[i]], NotBlank), entry);
  }

  /** The option loop: one appended entry per non-blank value, in order. */
  method AppendEntries(header: DropOption, values: seq<string>, entry: string -> DropOption)
    returns (options: seq<DropOption>)
    ensures options == [header] + Map(Filter(values, NotBlank), entry)
  {
    var entries: seq<DropOption> := [];
    var i := 0;
    while i < |values|
      invariant 0 <= i <= |values|
      invariant entries == KeptEntries(values[..i], entry)
    {
      assert values[..i + 1][..i] == values[..i];
      if NotBlank(values[i]) {
        entries := entries + [entry(values[i])];
      }
      i := i + 1;
    }
    assert values[..i] == values;
    KeptEntriesSpec(values, entry);
    options := [header] + entries;
  }

  method BuildListOptions(rows: seq<AttrRow>, col: ListColumn, fmt: Formatting) returns (options: seq<DropOption>)
    ensures options == ListOptions(rows, col, fmt)
  {
    var elems := CollectElements(rows, col);
    options := AppendEntries(Header(ListField(col), fmt), SortedUnique(Somes(elems)), ListEntry(col, fmt));
  }

  method BuildScalarOptions(rows: seq<AttrRow>, col: ScalarColumn, fmt: Formatting) returns (options: seq<DropOption>)
    ensures options == ScalarOptions(rows, col, fmt)
  {
    options := AppendEntries(Header(ScalarField(col), fmt), SortedUnique(Somes(ScalarCells(rows, col))), ScalarEntry(fmt));
  }

  /** The NumReportIds loop: one entry per distinct count, ascending. */
  method BuildReportOptions(rows: seq<AttrRow>, fmt: Formatting) returns (options: seq<DropOption>)
    ensures options == ReportOptions(rows, fmt)
  {
    var values := ReportValues(rows);
    var entries: seq<DropOption> := [];
    var i := 0;
    while i < |values|
      invariant 0 <= i <= |values|
      invariant |entries| == i
      invariant forall k :: 0 <= k < i ==> entries[k] == ReportOption(values[k])
    {
      entries := entries + [ReportOption(values[i])];
      i := i + 1;
    }
    assert entries == Map(values, ReportOption);
    options := [Header(ReportsField, fmt)] + entries;
  }

  /** `generate_dropdown_options` for one dropdown. */
  method GenerateOptions(rows: seq<AttrRow>, f: Field, fmt: Formatting) returns (options: seq<DropOption>)
    ensures options == OptionsFor(rows, f, fmt)
  {
    match f
    case ListField(col) => options := BuildListOptions(rows, col, fmt);
    case ScalarField(col) => options := BuildScalarOptions(rows, col, fmt);
    case ReportsField => options := BuildReportOptions(rows, fmt);
  }

  /**
   * Any offered list value is a working selection: choosing it alone keeps
   * exactly the rows whose list contains it, and at least one row.
   */
  lemma OfferedListValueSelects(rows: seq<AttrRow>, col: ListColumn, v: string)
    requires v in ListValues(rows, col) && v != AllSentinel
    requires forall r, c :: r in rows ==> AttrList(r, c).Some?
    ensures var s := OnlySelected(ListField(col), v);
      ApplyFilters(rows, s).Some? &&
      (forall r :: r in ApplyFilters(rows, s).value <==> r in rows && Some(v) in ItemsOf(AttrList(r, col))) &&
      |ApplyFilters(rows, s).value| > 0
  {
    var s := OnlySelected(ListField(col), v);
    ApplyFiltersSpec(rows, s);
    ListElementsSpec(rows, col);
    assert Some(v) in ListElements(rows, col);
    var out := ApplyFilters(rows, s).value;
    forall r | r in rows ensures PassesSelections(r, s, []) <==> Some(v) in ItemsOf(AttrList(r, col)) {
      OnlySelectedAdmits(r, col, v);
      ListedOne(AttrList(r, col), v);
    }
    var w :| w in rows && Some(v) in ItemsOf(AttrList(w, col));
    assert w in out;
  }

  lemma OnlySelectedAdmits(r: AttrRow, col: ListColumn, v: string)
    requires AttrList(r, col).Some? && v != AllSentinel
    ensures PassesSelections(r, OnlySelected(ListField(col), v), []) <==> AnyListed(AttrList(r, col), [v])
  {
    match col
    case ViolationNameColumn =>
    case RuleNumberColumn =>
    case RuleTitleColumn =>
    case CitationFeeColumn =>
    case FineTypeColumn =>
  }

  /** A list cell names `v` exactly when one of its elements is `v`. */
  lemma ListedOne(cell: ListCell, v: string)
    requires cell.Some?
    ensures AnyListed(cell, [v]) <==> Some(v) in ItemsOf(cell)
  {
    var items := ItemsOf(cell);
    if Some(v) in items {
      var i :| 0 <= i < |items| && items[i] == Some(v);
      assert CellIn(items[i], [v]);
    }
  }

  /** The selections with one dropdown set to one value and every other untouched. */
  function OnlySelected(f: Field, v: string): Selections
  {
    var none := Selections(None, None, None, None, None, None, None, None);
    match f
    case ScalarField(DispositionColumn) => none.(disposition := Some([v]))
    case ScalarField(AssignedUserColumn) => none.(agent := Some([v]))
    case ListField(ViolationNameColumn) => none.(violations := Some([v]))
    case ListField(RuleNumberColumn) => none.(rules := Some([v]))
    case ListField(RuleTitleColumn) => none.(titles := Some([v]))
    case ListField(CitationFeeColumn) => none.(fees := Some([v]))
    case ListField(FineTypeColumn) => none.(fineTypes := Some([v]))
    case ReportsField => none.(reports := Some([v]))
  }
}
