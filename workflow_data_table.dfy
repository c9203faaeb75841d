/**
 * The workflow data-table panel: the column-guarded dataset filter over the
 * raw work-item frame (`SELECT *`), and the five reports it composes from the
 * work items and the assignment and escalation duration tables by selecting
 * and renaming columns and by left merges.
 *
 * A frame is a header and rows of cells aligned with it; the tables are read
 * with `SELECT *`, so the model keeps the columns generic.
 */
module WorkflowDataTable {
  import opened Common
  import opened Frames
  import opened WorkflowData
  import opened WorkflowSummaryCards

  // ---------------------------------------------------------------------
  // The dataset filter (`apply_workflow_data_table_filters`)

  /** The work-item column each dropdown filters on. */
  function ColumnOf(d: Dimension): string
  {
    match d
    case AorDim => "AorShortName"
    case CaseTypeDim => "WorkItemDefinitionShortCode"
    case StatusDim => "WorkItemStatus"
    case PriorityDim => "Priority"
    case OriginDim => "CaseOrigin"
    case ReasonDim => "CaseReason"
    case ProductDim => "Product"
    case FeatureDim => "Feature"
    case ModuleDim => "Module"
    case IssueDim => "Issue"
  }

  /** The order of the ten membership steps in this filter. */
  const DataTableOrder: seq<Dimension> :=
    [AorDim, CaseTypeDim, StatusDim, PriorityDim, OriginDim, ReasonDim, ProductDim, FeatureDim, ModuleDim, IssueDim]

  /** A selection whose column the frame lacks is skipped, as if inactive. */
  function GuardedSelections(s: Selections, columns: seq<string>): Selections
  {
    SelectionsFrom((d: Dimension) => if ColumnOf(d) in columns then SelectionFor(s, d) else None)
  }

  function RowCell(columns: seq<string>): (seq<Cell>, Dimension) -> Option<string>
  {
    (row: seq<Cell>, d: Dimension) => TextOf(Get(columns, row, ColumnOf(d)))
  }

  /**
   * `pd.to_datetime(errors='coerce')`: null is NaT and a timestamp is itself;
   * reading a text or a number is left to `parse`.
   */
  function ToStamp(c: Cell, parse: Cell -> Option<int>): Option<int>
  {
    match c
    case Null => None
    case Stamp(m) => Some(m)
    case _ => parse(c)
  }

  /** The CreatedOn step: unreadable dates dropped, readable ones stored as timestamps, then the range `[from, to]`. */
  function Dated(columns: seq<string>, rows: seq<seq<Cell>>, range: Option<(int, int)>, parse: Cell -> Option<int>): (r: seq<seq<Cell>>)
    requires "CreatedOn" in columns
    ensures |r| <= |rows|
    ensures forall row :: row in r ==> Get(columns, row, "CreatedOn").Stamp? && InRange(Get(columns, row, "CreatedOn").minutes, range)
  {
    if |rows| == 0 then []
    else
      var row := rows[0];
      var i := IndexOf(columns, "CreatedOn");
      var m := ToStamp(Get(columns, row, "CreatedOn"), parse);
      var rest := Dated(columns, rows[1..], range, parse);
      if m.None? || i >= |row| || !InRange(m.value, range) then rest
      else [row[i := Stamp(m.value)]] + rest
  }

  /** The CreatedOn step keeps a row exactly when its date reads, the row has the column, and the date is in range. */
  predicate DateKept(columns: seq<string>, range: Option<(int, int)>, parse: Cell -> Option<int>, row: seq<Cell>)
  {
    var m := ToStamp(Get(columns, row, "CreatedOn"), parse);
    "CreatedOn" in columns && m.Some? && IndexOf(columns, "CreatedOn") < |row| && InRange(m.value, range)
  }

  function DateKeep(columns: seq<string>, range: Option<(int, int)>, parse: Cell -> Option<int>): seq<Cell> -> bool
  {
    (row: seq<Cell>) => DateKept(columns, range, parse, row)
  }

  /** A row with its readable CreatedOn cell replaced by the timestamp. */
  function Stamped(columns: seq<string>, parse: Cell -> Option<int>, row: seq<Cell>): seq<Cell>
  {
    var m := ToStamp(Get(columns, row, "CreatedOn"), parse);
    if "CreatedOn" in columns && m.Some? && IndexOf(columns, "CreatedOn") < |row|
    then row[IndexOf(columns, "CreatedOn") := Stamp(m.value)] else row
  }

  function StampOf(columns: seq<string>, parse: Cell -> Option<int>): seq<Cell> -> seq<Cell>
  {
    (row: seq<Cell>) => Stamped(columns, parse, row)
  }

  /**
   * The CreatedOn step keeps, in order, exactly the rows whose date reads and
   * falls in the range, each with its date stored as a timestamp.
   */
  lemma {:induction false} DatedSpec(columns: seq<string>, rows: seq<seq<Cell>>, range: Option<(int, int)>, parse: Cell -> Option<int>)
    requires "CreatedOn" in columns
    ensures Dated(columns, rows, range, parse) == Map(Filter(rows, DateKeep(columns, range, parse)), StampOf(columns, parse))
    ensures forall o :: o in Dated(columns, rows, range, parse) <==>
      exists row :: row in rows && DateKept(columns, range, parse, row) && Stamped(columns, parse, row) == o
  {
    if |rows| > 0 {
      DatedSpec(columns, rows[1..], range, parse);
    }
    forall o ensures o in Dated(columns, rows, range, parse) <==>
      exists row :: row in rows && DateKept(columns, range, parse, row) && Stamped(columns, parse, row) == o
    {
      MapFilterMember(rows, DateKeep(columns, range, parse), StampOf(columns, parse), o);
    }
  }

  predicate InRange(m: int, range: Option<(int, int)>)
  {
    range.None? || range.value.0 <= m <= range.value.1
  }

  /** The range of the stored Day_From and Day_To, as midnights; none unless both are stored. */
  function StoredRange(st: Store): Option<(int, int)>
  {
    var from, to := DateOf(st, "Day_From"), DateOf(st, "Day_To");
    if from.Some? && to.Some? then Some((DayStart(from.value), DayStart(to.value))) else None
  }

  /** The steps after the emptiness test, given the stored selections and range. */
  function FilterFrame(items: Frame, sel: Selections, range: Option<(int, int)>, parse: Cell -> Option<int>): Frame
  {
    var rows := if "CreatedOn" in items.columns then Dated(items.columns, items.rows, range, parse) else items.rows;
    Frame(items.columns, NarrowAll(rows, RowCell(items.columns), GuardedSelections(sel, items.columns), DataTableOrder))
  }

  /**
   * The filter: an empty frame is returned as is; a missing store makes
   * `query_selections.get` raise (None); then CreatedOn when the frame has it,
   * then the ten memberships, each only when its column exists.
   */
  function DataTableFilter(items: Frame, stored: Option<Store>, parse: Cell -> Option<int>): Option<Frame>
  {
    if IsEmpty(items) then Some(items)
    else if stored.None? then None
    else Some(FilterFrame(items, StoredSelections(stored.value), StoredRange(stored.value), parse))
  }

  /** A row passes the membership steps when every dropdown whose column exists admits its cell. */
  predicate AdmittedRow(columns: seq<string>, s: Selections, row: seq<Cell>)
  {
    forall d :: ColumnOf(d) in columns ==> Admits(SelectionFor(s, d), TextOf(Get(columns, row, ColumnOf(d))))
  }

  /** The position of a dropdown's step in this filter. */
  function StepOf(d: Dimension): (k: nat)
    ensures k < |DataTableOrder| && DataTableOrder[k] == d
  {
    match d
    case AorDim => 0
    case CaseTypeDim => 1
    case StatusDim => 2
    case PriorityDim => 3
    case OriginDim => 4
    case ReasonDim => 5
    case ProductDim => 6
    case FeatureDim => 7
    case ModuleDim => 8
    case IssueDim => 9
  }

  /** A row passes all ten guarded steps exactly when it is admitted. */
  lemma GuardedMatch(columns: seq<string>, s: Selections, row: seq<Cell>)
    ensures MatchesAll(row, RowCell(columns), GuardedSelections(s, columns), DataTableOrder) == AdmittedRow(columns, s, row)
  {
    var g := GuardedSelections(s, columns);
    if MatchesAll(row, RowCell(columns), g, DataTableOrder) {
      forall d | ColumnOf(d) in columns ensures Admits(SelectionFor(s, d), TextOf(Get(columns, row, ColumnOf(d)))) {
        var k := StepOf(d);
        assert Admits(SelectionFor(g, DataTableOrder[k]), RowCell(columns)(row, DataTableOrder[k]));
      }
    }
  }

  /**
   * The membership steps keep, in order, exactly the rows that every dropdown
   * whose column the frame has admits; a dropdown whose column is missing
   * imposes nothing.
   */
  lemma MembershipSteps(columns: seq<string>, rows: seq<seq<Cell>>, s: Selections)
    ensures NarrowAll(rows, RowCell(columns), GuardedSelections(s, columns), DataTableOrder) ==
      Filter(rows, (row: seq<Cell>) => AdmittedRow(columns, s, row))
  {
    var g := GuardedSelections(s, columns);
    NarrowAllIsConjunction(rows, RowCell(columns), g, DataTableOrder);
    forall row: seq<Cell>
      ensures MatchesAll(row, RowCell(columns), g, DataTableOrder) == AdmittedRow(columns, s, row)
    {
      GuardedMatch(columns, s, row);
    }
    FilterExt(rows, (row: seq<Cell>) => MatchesAll(row, RowCell(columns), g, DataTableOrder),
              (row: seq<Cell>) => AdmittedRow(columns, s, row));
  }

  /**
   * The steps keep the header; without a CreatedOn column they keep exactly
   * the admitted rows in order; with one, exactly the admitted rows among
   * those the CreatedOn step keeps and stamps, each with a timestamp inside
   * the range; every kept row is admitted.
   */
  lemma FilterFrameSpec(items: Frame, sel: Selections, range: Option<(int, int)>, parse: Cell -> Option<int>)
    ensures var r := FilterFrame(items, sel, range, parse);
      r.columns == items.columns && |r.rows| <= |items.rows| &&
      ("CreatedOn" !in items.columns ==> r.rows == Filter(items.rows, (row: seq<Cell>) => AdmittedRow(items.columns, sel, row))) &&
      ("CreatedOn" in items.columns ==>
         r.rows == Filter(Map(Filter(items.rows, DateKeep(items.columns, range, parse)), StampOf(items.columns, parse)),
                          (row: seq<Cell>) => AdmittedRow(items.columns, sel, row)) &&
         forall row :: row in r.rows ==>
           Get(items.columns, row, "CreatedOn").Stamp? && InRange(Get(items.columns, row, "CreatedOn").minutes, range)) &&
      (forall row :: row in r.rows ==> AdmittedRow(items.columns, sel, row))
  {
    var rows := if "CreatedOn" in items.columns then Dated(items.columns, items.rows, range, parse) else items.rows;
    MembershipSteps(items.columns, rows, sel);
    if "CreatedOn" in items.columns {
      DatedSpec(items.columns, items.rows, range, parse);
    }
  }

  /** An empty frame passes through untouched, and a missing store raises only for a non-empty one. */
  lemma DataTableFilterEdges(items: Frame, stored: Option<Store>, parse: Cell -> Option<int>)
    ensures IsEmpty(items) ==> DataTableFilter(items, stored, parse) == Some(items)
    ensures DataTableFilter(items, stored, parse).None? <==> !IsEmpty(items) && stored.None?
  {
  }

  // ---------------------------------------------------------------------
  // Left merges (`pd.merge(durations, items, on='WorkItemId', how='left', suffixes=...)`)

  const Key := "WorkItemId"

  /** A non-key column the other table also has gets the suffix. */
  function Suffixed(c: string, other: seq<string>, suffix: string): string
  {
    if c != Key && c in other then c + suffix else c
  }

  /** The left columns, key included, suffixed where they clash. */
  function LeftNames(cols: seq<string>, other: seq<string>, suffix: string): (r: seq<string>)
    ensures |r| == |cols|
    ensures forall j :: 0 <= j < |cols| ==> r[j] == Suffixed(cols[j], other, suffix)
  {
    if |cols| == 0 then [] else [Suffixed(cols[0], other, suffix)] + LeftNames(cols[1..], other, suffix)
  }

  /** The right columns without the key, suffixed where they clash. */
  function RightNames(cols: seq<string>, other: seq<string>, suffix: string): (r: seq<string>)
    ensures forall c :: c in r ==> exists d :: d in cols && d != Key && c == Suffixed(d, other, suffix)
    ensures forall d :: d in cols && d != Key ==> Suffixed(d, other, suffix) in r
  {
    if |cols| == 0 then []
    else (if cols[0] == Key then [] else [Suffixed(cols[0], other, suffix)]) + RightNames(cols[1..], other, suffix)
  }

  /** A right row's cells without the key cells, aligned with `RightNames`. */
  function RightCells(cols: seq<string>, row: seq<Cell>): seq<Cell>
  {
    if |cols| == 0 || |row| == 0 then []
    else (if cols[0] == Key then [] else [row[0]]) + RightCells(cols[1..], row[1..])
  }

  function Nulls(n: nat): (r: seq<Cell>)
    ensures |r| == n && forall c :: c in r ==> c == Null
  {
    if n == 0 then [] else [Null] + Nulls(n - 1)
  }

  /** A merged row begins with the cells of the left row it came from. */
  predicate StartsWithRow(m: seq<Cell>, l: seq<Cell>)
  {
    |m| >= |l| && m[..|l|] == l
  }

  /** One left row's part of the merge: one row per matching right row, in right order, or one padded with nulls. */
  function MergeRow(lc: seq<string>, l: seq<Cell>, rc: seq<string>, rrows: seq<seq<Cell>>): (r: seq<seq<Cell>>)
    ensures |r| >= 1
    ensures forall m :: m in r ==> StartsWithRow(m, l)
  {
    var matches := Filter(rrows, (x: seq<Cell>) => Get(rc, x, Key) == Get(lc, l, Key));
    if |matches| == 0 then [l + Nulls(|RightNames(rc, lc, "")|)]
    else MatchRows(l, rc, matches)
  }

  function MatchRows(l: seq<Cell>, rc: seq<string>, matches: seq<seq<Cell>>): (r: seq<seq<Cell>>)
    ensures |r| == |matches|
    ensures forall m :: m in r ==> StartsWithRow(m, l)
  {
    if |matches| == 0 then []
    else
      var m := l + RightCells(rc, matches[0]);
      assert m[..|l|] == l;
      assert StartsWithRow(m, l);
      [m] + MatchRows(l, rc, matches[1..])
  }

  function MergeRows(lc: seq<string>, lrows: seq<seq<Cell>>, rc: seq<string>, rrows: seq<seq<Cell>>): (r: seq<seq<Cell>>)
    ensures |r| >= |lrows|
  {
    if |lrows| == 0 then [] else MergeRow(lc, lrows[0], rc, rrows) + MergeRows(lc, lrows[1..], rc, rrows)
  }

  /** The merge; a table without the key column makes pandas raise a KeyError (None). */
  function LeftMergeOn(left: Frame, right: Frame, leftSuffix: string, rightSuffix: string): Option<Frame>
  {
    if Key !in left.columns || Key !in right.columns then None
    else Some(Frame(LeftNames(left.columns, right.columns, leftSuffix) + RightNames(right.columns, left.columns, rightSuffix),
                    MergeRows(left.columns, left.rows, right.columns, right.rows)))
  }

  /** The rows' key cells are all different. */
  predicate UniqueKeyRows(rc: seq<string>, rrows: seq<seq<Cell>>)
  {
    forall i, j :: 0 <= i < |rrows| && 0 <= j < |rrows| && Get(rc, rrows[i], Key) == Get(rc, rrows[j], Key) ==> i == j
  }

  predicate UniqueKeys(f: Frame)
  {
    UniqueKeyRows(f.columns, f.rows)
  }

  /** At most one right row matches a left row when the right keys are unique. */
  lemma {:induction false} UniqueMatch(rc: seq<string>, rrows: seq<seq<Cell>>, k: Cell)
    requires UniqueKeyRows(rc, rrows)
    ensures |Filter(rrows, (x: seq<Cell>) => Get(rc, x, Key) == k)| <= 1
  {
    if |rrows| > 0 {
      var tail := rrows[1..];
      forall i, j | 0 <= i < |tail| && 0 <= j < |tail| && Get(rc, tail[i], Key) == Get(rc, tail[j], Key) ensures i == j {
        assert tail[i] == rrows[i + 1] && tail[j] == rrows[j + 1];
      }
      UniqueMatch(rc, tail, k);
      if Get(rc, rrows[0], Key) == k {
        forall x | x in tail ensures Get(rc, x, Key) != k {
          var t :| 0 <= t < |tail| && tail[t] == x;
          assert rrows[t + 1] == x;
        }
        FilterNone(tail, (x: seq<Cell>) => Get(rc, x, Key) == k);
      }
    }
  }

  /** Every merged row starts with one of the left rows, and none is lost. */
  lemma {:induction false} MergeKeepsLeftRows(lc: seq<string>, lrows: seq<seq<Cell>>, rc: seq<string>, rrows: seq<seq<Cell>>)
    ensures var r := MergeRows(lc, lrows, rc, rrows);
      |r| >= |lrows| && forall m :: m in r ==> exists l :: l in lrows && StartsWithRow(m, l)
  {
    if |lrows| > 0 {
      var head := MergeRow(lc, lrows[0], rc, rrows);
      var rest := MergeRows(lc, lrows[1..], rc, rrows);
      MergeKeepsLeftRows(lc, lrows[1..], rc, rrows);
      assert lrows[0] in lrows;
      assert forall l :: l in lrows[1..] ==> l in lrows;
    }
  }

  /**
   * When the right keys are unique the merge has exactly one row per left
   * row, the i-th starting with the i-th left row.
   */
  lemma {:induction false} MergeOneToOne(lc: seq<string>, lrows: seq<seq<Cell>>, rc: seq<string>, rrows: seq<seq<Cell>>)
    requires UniqueKeyRows(rc, rrows)
    ensures var r := MergeRows(lc, lrows, rc, rrows);
      |r| == |lrows| && forall i :: 0 <= i < |lrows| ==> StartsWithRow(r[i], lrows[i])
  {
    if |lrows| > 0 {
      var head := MergeRow(lc, lrows[0], rc, rrows);
      var rest := MergeRows(lc, lrows[1..], rc, rrows);
      MergeOneToOne(lc, lrows[1..], rc, rrows);
      SingleMergeRow(lc, lrows[0], rc, rrows);
      assert head[0] in head;
      var r := head + rest;
      forall i | 0 <= i < |lrows| ensures StartsWithRow(r[i], lrows[i]) {
        if i > 0 {
          assert r[i] == rest[i - 1] && lrows[i] == lrows[1..][i - 1];
        }
      }
    }
  }

  /** With unique right keys a left row has exactly one merged row. */
  lemma SingleMergeRow(lc: seq<string>, l: seq<Cell>, rc: seq<string>, rrows: seq<seq<Cell>>)
    requires UniqueKeyRows(rc, rrows)
    ensures |MergeRow(lc, l, rc, rrows)| == 1
  {
    UniqueMatch(rc, rrows, Get(lc, l, Key));
  }

  /** A column name without either suffix at its end. */
  predicate Unsuffixed(c: string, leftSuffix: string, rightSuffix: string)
  {
    !EndsWith(c, leftSuffix) && !EndsWith(c, rightSuffix)
  }

  /**
   * A non-key column both tables have survives only under its suffixed
   * names: a mapping entry for its plain name then selects nothing.
   */
  lemma ClashingColumnSuffixed(left: Frame, right: Frame, leftSuffix: string, rightSuffix: string, c: string)
    requires LeftMergeOn(left, right, leftSuffix, rightSuffix).Some?
    requires c != Key && c in left.columns && c in right.columns
    requires forall d :: d in left.columns + right.columns ==> Unsuffixed(d, leftSuffix, rightSuffix)
    ensures var cols := LeftMergeOn(left, right, leftSuffix, rightSuffix).value.columns;
      c + leftSuffix in cols && c + rightSuffix in cols && c !in cols
  {
    var ln := LeftNames(left.columns, right.columns, leftSuffix);
    var rn := RightNames(right.columns, left.columns, rightSuffix);
    var i :| 0 <= i < |left.columns| && left.columns[i] == c;
    assert ln[i] == c + leftSuffix;
    assert Unsuffixed(c, leftSuffix, rightSuffix);
    forall j | 0 <= j < |ln| ensures ln[j] != c {
      assert left.columns[j] in left.columns + right.columns;
      SuffixEnds(left.columns[j], leftSuffix);
    }
    forall x | x in rn ensures x != c {
      var d :| d in right.columns && d != Key && x == Suffixed(d, left.columns, rightSuffix);
      assert d in left.columns + right.columns;
      SuffixEnds(d, rightSuffix);
    }
  }

  lemma SuffixEnds(d: string, suffix: string)
    ensures EndsWith(d + suffix, suffix)
  {
    assert (d + suffix)[|d + suffix| - |suffix|..] == suffix;
  }

  // ---------------------------------------------------------------------
  // The reports (`prepare_workflow_data_table_report`)

  const TicketSummaryColumns: seq<(string, string)> := [
    ("WorkItemId", "Ticket ID"), ("Title", "Title"), ("CreatedOn", "Created On"), ("ClosedOn", "Closed On"),
    ("WorkItemStatus", "Status"), ("WorkItemDefinitionShortCode", "Type"), ("AorShortName", "AOR"),
    ("CaseOrigin", "Origin"), ("CaseReason", "Reason"), ("Feature", "Feature"), ("Issue", "Issue"),
    ("Module", "Module"), ("Priority", "Priority"), ("Product", "Product"), ("AssignedTo", "Assigned To"),
    ("IsEscalated", "Escalated"), ("EscalationOwner", "Escalation Owner")]

  const ResolutionColumns: seq<(string, string)> := [
    ("WorkItemId", "Ticket ID"), ("Title", "Title"), ("ResolutionSummary", "Resolution"), ("ClosedOn", "Closed On"),
    ("AssignedTo", "Assigned To"), ("WorkItemStatus", "Status"), ("Priority", "Priority"), ("Product", "Product")]

  const AssignmentColumns: seq<(string, string)> := [
    ("WorkItemId", "Ticket ID"), ("AssignedFrom", "Assigned From"), ("AssignedTo", "Assigned To"),
    ("FromUserId", "From User"), ("ToUserId", "To User"), ("DurationHours", "Assignment Duration (hrs)"),
    ("Title", "Title"), ("CreatedOn", "Created On"), ("ClosedOn", "Closed On"), ("WorkItemStatus", "Status"),
    ("Priority", "Priority"), ("Product", "Product")]

  const EscalationColumns: seq<(string, string)> := [
    ("WorkItemId", "Ticket ID"), ("AssignedFrom", "Escalation From"), ("AssignedTo", "Escalation To"),
    ("FromUserId", "Escalated By"), ("ToUserId", "Escalation Owner"), ("DurationHours", "Escalation Duration (hrs)"),
    ("Title", "Title"), ("CreatedOn", "Created On"), ("ClosedOn", "Closed On"), ("WorkItemStatus", "Status"),
    ("Priority", "Priority"), ("Product", "Product")]

  const ProductImpactColumns: seq<(string, string)> := [
    ("Product", "Product"), ("WorkItemId", "Ticket ID"), ("Title", "Title"), ("CreatedOn", "Created On"),
    ("ClosedOn", "Closed On"), ("WorkItemStatus", "Status"), ("Priority", "Priority"), ("Module", "Module"),
    ("Feature", "Feature"), ("Issue", "Issue")]

  /** `df_items[df_items['ClosedOn'].notnull()]`. */
  function ClosedRows(f: Frame): seq<seq<Cell>>
  {
    Filter(f.rows, (row: seq<Cell>) => Get(f.columns, row, "ClosedOn") != Null)
  }

  /** A duration report: the empty frame unless both tables are non-empty, else the merge's selected columns. */
  function DurationReport(durations: Frame, items: Frame, suffix: string, mapping: seq<(string, string)>): Option<Frame>
  {
    if IsEmpty(durations) || IsEmpty(items) then Some(EmptyFrame)
    else
      match LeftMergeOn(durations, items, suffix, "_item")
      case None => None
      case Some(merged) => Some(SelectRename(merged, mapping))
  }

  /** The report for a report type over the filtered work items; None is an exception (a missing ClosedOn or key column). */
  function Report(f: Frame, assignments: Frame, escalations: Frame, reportType: string): Option<Frame>
  {
    if reportType == "ticket_summary" then Some(SelectRename(f, TicketSummaryColumns))
    else if reportType == "resolution_details" then
      if "ClosedOn" in f.columns then Some(SelectRename(Frame(f.columns, ClosedRows(f)), ResolutionColumns)) else None
    else if reportType == "user_performance" then DurationReport(assignments, f, "_assign", AssignmentColumns)
    else if reportType == "escalation_history" then DurationReport(escalations, f, "_escal", EscalationColumns)
    else if reportType == "product_impact" then Some(SelectRename(f, ProductImpactColumns))
    else Some(EmptyFrame)
  }

  /** `prepare_workflow_data_table_report`: the dataset filter, then the report; None when either raises. */
  function PrepareReport(items: Frame, assignments: Frame, escalations: Frame, stored: Option<Store>,
                         reportType: string, parse: Cell -> Option<int>): Option<Frame>
  {
    match DataTableFilter(items, stored, parse)
    case None => None
    case Some(f) => Report(f, assignments, escalations, reportType)
  }

  /** Only the ClosedOn entry of the resolution mapping is renamed to Closed On. */
  lemma ClosedOnEntry()
    ensures ("ClosedOn", "Closed On") in ResolutionColumns
    ensures forall p :: p in ResolutionColumns && p.1 == "Closed On" ==> p.0 == "ClosedOn"
  {
    assert ResolutionColumns[3] == ("ClosedOn", "Closed On");
  }

  /** resolution_details keeps exactly the filtered items with a ClosedOn, and its Closed On column is never null. */
  lemma ResolutionDetailsSpec(f: Frame)
    requires "ClosedOn" in f.columns
    ensures var r := SelectRename(Frame(f.columns, ClosedRows(f)), ResolutionColumns);
      |r.rows| == |ClosedRows(f)| &&
      (forall row :: row in ClosedRows(f) ==> row in f.rows) &&
      forall i :: 0 <= i < |r.rows| ==> "Closed On" in r.columns && Get(r.columns, r.rows[i], "Closed On") != Null
  {
    var g := Frame(f.columns, ClosedRows(f));
    var r := SelectRename(g, ResolutionColumns);
    ClosedOnEntry();
    forall i | 0 <= i < |r.rows| ensures "Closed On" in r.columns && Get(r.columns, r.rows[i], "Closed On") != Null {
      RenamedCell(g, ResolutionColumns, "ClosedOn", "Closed On", i);
      assert g.rows[i] in ClosedRows(f);
    }
  }

  /**
   * A duration report is empty when either table is; otherwise, with the key
   * in both, every duration row is kept by the left merge (one row each when
   * work-item ids are unique) before the columns are selected.
   */
  lemma DurationReportSpec(durations: Frame, items: Frame, suffix: string, mapping: seq<(string, string)>)
    ensures IsEmpty(durations) || IsEmpty(items) ==> DurationReport(durations, items, suffix, mapping) == Some(EmptyFrame)
    ensures !IsEmpty(durations) && !IsEmpty(items) ==>
      (DurationReport(durations, items, suffix, mapping).None? <==> Key !in durations.columns || Key !in items.columns)
    ensures !IsEmpty(durations) && !IsEmpty(items) && DurationReport(durations, items, suffix, mapping).Some? ==>
      |DurationReport(durations, items, suffix, mapping).value.rows| >= |durations.rows| &&
      (UniqueKeys(items) ==> |DurationReport(durations, items, suffix, mapping).value.rows| == |durations.rows|)
  {
    if !IsEmpty(durations) && !IsEmpty(items) && Key in durations.columns && Key in items.columns {
      var merged := LeftMergeOn(durations, items, suffix, "_item").value;
      MergeKeepsLeftRows(durations.columns, durations.rows, items.columns, items.rows);
      SelectRenameSpec(merged, mapping);
      if UniqueKeys(items) {
        MergeOneToOne(durations.columns, durations.rows, items.columns, items.rows);
      }
    }
  }

  /** An unknown report type gives the empty frame. */
  lemma UnknownReportEmpty(f: Frame, assignments: Frame, escalations: Frame, reportType: string)
    requires reportType != "ticket_summary" && reportType != "resolution_details" && reportType != "user_performance"
    requires reportType != "escalation_history" && reportType != "product_impact"
    ensures Report(f, assignments, escalations, reportType) == Some(EmptyFrame)
  {
  }

  /** ticket_summary and product_impact list every filtered work item. */
  lemma ItemReportsKeepRows(f: Frame, assignments: Frame, escalations: Frame)
    ensures Report(f, assignments, escalations, "ticket_summary").Some?
    ensures |Report(f, assignments, escalations, "ticket_summary").value.rows| == |f.rows|
    ensures Report(f, assignments, escalations, "product_impact").Some?
    ensures |Report(f, assignments, escalations, "product_impact").value.rows| == |f.rows|
  {
  }

  // ---------------------------------------------------------------------
  // The table callback (`update_workflow_data_table`)

  datatype TableView = ErrorView | NoDataView | TableShown(table: Frame, records: nat)

  /** An exception shows the error text, an empty report the no-data text, anything else the table and its record count. */
  function UpdateTable(report: Option<Frame>): (v: TableView)
    ensures v.ErrorView? <==> report.None?
    ensures v.NoDataView? <==> report.Some? && IsEmpty(report.value)
    ensures v.TableShown? ==> v.records == |report.value.rows| && v.records > 0
  {
    if report.None? then ErrorView
    else if IsEmpty(report.value) then NoDataView
    else TableShown(report.value, |report.value.rows|)
  }

  // ---------------------------------------------------------------------
  // The exports (`export_workflow_csv`, `export_workflow_excel`, `export_workflow_pdf`)

  /** A file handed to the browser: its name and the report it holds. */
  datatype Download = Download(filename: string, report: Frame)

  /** `workflow_{report_type}_{timestamp}` with the extension; the timestamp is a parameter. */
  function ExportName(reportType: string, stamp: string, ext: string): string
  {
    "workflow_" + reportType + "_" + stamp + ext
  }

  /**
   * Every export: no update without a click, when preparing the report
   * raises, or for an empty report; else the report under its file name.
   */
  function Export(clicks: Option<int>, report: Option<Frame>, reportType: string, stamp: string, ext: string): (d: Option<Download>)
    ensures clicks.None? || clicks == Some(0) ==> d.None?
    ensures d.Some? ==> report.Some? && !IsEmpty(d.value.report) && d.value.filename == ExportName(reportType, stamp, ext)
  {
    if clicks.None? || clicks.value == 0 then None
    else if report.None? || IsEmpty(report.value) then None
    else Some(Download(ExportName(reportType, stamp, ext), report.value))
  }

  /** After a click, an export carries exactly the table the panel shows, and nothing when the panel shows none. */
  lemma ExportMatchesTable(clicks: int, report: Option<Frame>, reportType: string, stamp: string, ext: string)
    requires clicks != 0
    ensures var d, v := Export(Some(clicks), report, reportType, stamp, ext), UpdateTable(report);
      (d.None? <==> !v.TableShown?) && (d.Some? ==> d.value.report == v.table)
  {
  }

  const PdfRowLimit: nat := 100

  /** The PDF layout: orientation, the data rows printed, and whether the truncation footer is added. */
  datatype PdfLayout = PdfLayout(landscape: bool, rows: seq<seq<Cell>>, footer: bool)

  /** Landscape above six columns; at most the first hundred rows; the footer exactly when rows were left out. */
  function PdfLayoutOf(r: Frame): (l: PdfLayout)
    ensures l.landscape <==> |r.columns| > 6
    ensures |l.rows| <= PdfRowLimit && l.rows <= r.rows
    ensures l.footer <==> |l.rows| < |r.rows|
  {
    PdfLayout(|r.columns| > 6, Head(r.rows, PdfRowLimit), |r.rows| > PdfRowLimit)
  }
}
