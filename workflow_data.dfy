/**
 * The workflow dashboard's shared vocabulary: the ten categorical filter
 * dimensions, the selection record every callback receives, the work-item
 * fact row, and conjunctive narrowing of a table by a list of dimensions
 * (the chains of `df = df[df[col].isin(sel)]` in every workflow callback).
 */
module WorkflowData {
  import opened Common

  /** The ten dropdowns of the workflow filter panel. */
  datatype Dimension =
    | AorDim | CaseTypeDim | StatusDim | PriorityDim | OriginDim
    | ReasonDim | ProductDim | FeatureDim | ModuleDim | IssueDim

  /** The ten dropdown values, in the order the panel lists them. */
  datatype Selections = Selections(
    aor: Selection, caseTypes: Selection, status: Selection, priority: Selection,
    origins: Selection, reasons: Selection, products: Selection, features: Selection,
    modules: Selection, issues: Selection)

  const NoSelections: Selections :=
    Selections(None, None, None, None, None, None, None, None, None, None)

  function SelectionFor(s: Selections, d: Dimension): Selection
  {
    match d
    case AorDim => s.aor
    case CaseTypeDim => s.caseTypes
    case StatusDim => s.status
    case PriorityDim => s.priority
    case OriginDim => s.origins
    case ReasonDim => s.reasons
    case ProductDim => s.products
    case FeatureDim => s.features
    case ModuleDim => s.modules
    case IssueDim => s.issues
  }

  /** The selections that give each dropdown the value `f` assigns it. */
  function SelectionsFrom(f: Dimension -> Selection): (s: Selections)
    ensures forall d :: SelectionFor(s, d) == f(d)
  {
    Selections(f(AorDim), f(CaseTypeDim), f(StatusDim), f(PriorityDim), f(OriginDim),
               f(ReasonDim), f(ProductDim), f(FeatureDim), f(ModuleDim), f(IssueDim))
  }

  /**
   * A row of the work-item fact table. Timestamps are whole minutes since
   * 1970-01-01 00:00; `None` is a null cell.
   */
  datatype WorkItem = WorkItem(
    id: int,
    aorShortName: Option<string>,
    caseTypeCode: Option<string>,
    status: Option<string>,
    priority: Option<string>,
    caseOrigin: Option<string>,
    caseReason: Option<string>,
    product: Option<string>,
    feature: Option<string>,
    moduleName: Option<string>,
    issue: Option<string>,
    createdOn: Option<int>,
    closedOn: Option<int>,
    escalatedOn: Option<int>,
    isEscalated: Option<string>,
    assignedTo: Option<string>)

  /** The work-item column each dimension filters on (AorShortName, WorkItemDefinitionShortCode, WorkItemStatus, ...). */
  function ItemCell(w: WorkItem, d: Dimension): Option<string>
  {
    match d
    case AorDim => w.aorShortName
    case CaseTypeDim => w.caseTypeCode
    case StatusDim => w.status
    case PriorityDim => w.priority
    case OriginDim => w.caseOrigin
    case ReasonDim => w.caseReason
    case ProductDim => w.product
    case FeatureDim => w.feature
    case ModuleDim => w.moduleName
    case IssueDim => w.issue
  }

  /** Every dimension in the list admits the row's cell. */
  predicate MatchesAll<R>(row: R, cell: (R, Dimension) -> Option<string>, s: Selections, dims: seq<Dimension>)
  {
    forall i :: 0 <= i < |dims| ==> Admits(SelectionFor(s, dims[i]), cell(row, dims[i]))
  }

  /** One `if active: df = df[df[col].isin(sel)]` step. */
  function Narrow<R(!new)>(rows: seq<R>, cell: (R, Dimension) -> Option<string>, s: Selections, d: Dimension): seq<R>
  {
    var sel := SelectionFor(s, d);
    if IsActive(sel) then Filter(rows, (r: R) => cell(r, d).Some? && cell(r, d).value in sel.value)
    else rows
  }

  /** The chain of narrowing steps, in the order the callback writes them. */
  function NarrowAll<R(!new)>(rows: seq<R>, cell: (R, Dimension) -> Option<string>, s: Selections, dims: seq<Dimension>): seq<R>
    decreases |dims|
  {
    if |dims| == 0 then rows else NarrowAll(Narrow(rows, cell, s, dims[0]), cell, s, dims[1..])
  }

  lemma NarrowIsFilter<R(!new)>(rows: seq<R>, cell: (R, Dimension) -> Option<string>, s: Selections, d: Dimension)
    ensures Narrow(rows, cell, s, d) == Filter(rows, (r: R) => Admits(SelectionFor(s, d), cell(r, d)))
  {
    var sel := SelectionFor(s, d);
    if IsActive(sel) {
      forall r | r in rows
        ensures (cell(r, d).Some? && cell(r, d).value in sel.value) == Admits(SelectionFor(s, d), cell(r, d))
      {
      }
      FilterExt(rows, (r: R) => cell(r, d).Some? && cell(r, d).value in sel.value,
                (r: R) => Admits(SelectionFor(s, d), cell(r, d)));
    } else {
      forall r | r in rows ensures Admits(SelectionFor(s, d), cell(r, d)) {
      }
      FilterAll(rows, (r: R) => Admits(SelectionFor(s, d), cell(r, d)));
    }
  }

  /**
   * The chain of narrowing steps keeps exactly the rows that every listed
   * dimension admits, in their original order; inactive selections impose nothing.
   */
  lemma {:induction false} NarrowAllIsConjunction<R(!new)>(rows: seq<R>, cell: (R, Dimension) -> Option<string>, s: Selections, dims: seq<Dimension>)
    ensures NarrowAll(rows, cell, s, dims) == Filter(rows, (r: R) => MatchesAll(r, cell, s, dims))
    decreases |dims|
  {
    if |dims| == 0 {
      FilterAll(rows, (r: R) => MatchesAll(r, cell, s, dims));
    } else {
      var d, rest := dims[0], dims[1..];
      var p := (r: R) => Admits(SelectionFor(s, d), cell(r, d));
      var q := (r: R) => MatchesAll(r, cell, s, rest);
      NarrowIsFilter(rows, cell, s, d);
      NarrowAllIsConjunction(Narrow(rows, cell, s, d), cell, s, rest);
      FilterFilter(rows, p, q);
      forall r | r in rows ensures (p(r) && q(r)) == MatchesAll(r, cell, s, dims) {
        if p(r) && q(r) {
          forall i | 0 <= i < |dims| ensures Admits(SelectionFor(s, dims[i]), cell(r, dims[i])) {
            if i > 0 { assert dims[i] == rest[i - 1]; }
          }
        }
        if MatchesAll(r, cell, s, dims) {
          assert Admits(SelectionFor(s, dims[0]), cell(r, dims[0]));
          forall i | 0 <= i < |rest| ensures Admits(SelectionFor(s, rest[i]), cell(r, rest[i])) {
            assert rest[i] == dims[i + 1];
          }
        }
      }
      FilterExt(rows, (r: R) => p(r) && q(r), (r: R) => MatchesAll(r, cell, s, dims));
    }
  }

  /** A row test applied before the chain combines with it into one conjunctive filter `both`. */
  lemma NarrowAfterFilter<R(!new)>(rows: seq<R>, keep: R -> bool, both: R -> bool,
                                   cell: (R, Dimension) -> Option<string>, s: Selections, dims: seq<Dimension>)
    requires forall r :: r in rows ==> both(r) == (keep(r) && MatchesAll(r, cell, s, dims))
    ensures NarrowAll(Filter(rows, keep), cell, s, dims) == Filter(rows, both)
  {
    var q := (r: R) => MatchesAll(r, cell, s, dims);
    NarrowAllIsConjunction(Filter(rows, keep), cell, s, dims);
    FilterFilter(rows, keep, q);
    FilterExt(rows, (r: R) => keep(r) && q(r), both);
  }

  /** When one listed dimension admits no row, the whole chain keeps nothing. */
  lemma NarrowAllEmpty<R(!new)>(rows: seq<R>, cell: (R, Dimension) -> Option<string>, s: Selections, dims: seq<Dimension>, k: nat)
    requires k < |dims|
    requires forall r :: r in rows ==> !Admits(SelectionFor(s, dims[k]), cell(r, dims[k]))
    ensures NarrowAll(rows, cell, s, dims) == []
  {
    NarrowAllIsConjunction(rows, cell, s, dims);
    forall r | r in rows ensures !MatchesAll(r, cell, s, dims) {
      assert !Admits(SelectionFor(s, dims[k]), cell(r, dims[k]));
    }
    FilterNone(rows, (r: R) => MatchesAll(r, cell, s, dims));
  }

  /** The chain reads only the selections of the dimensions it lists. */
  lemma {:induction false} NarrowAllAgree<R(!new)>(rows: seq<R>, cell: (R, Dimension) -> Option<string>, s1: Selections, s2: Selections, dims: seq<Dimension>)
    requires forall i :: 0 <= i < |dims| ==> SelectionFor(s1, dims[i]) == SelectionFor(s2, dims[i])
    ensures NarrowAll(rows, cell, s1, dims) == NarrowAll(rows, cell, s2, dims)
    decreases |dims|
  {
    if |dims| > 0 {
      assert SelectionFor(s1, dims[0]) == SelectionFor(s2, dims[0]);
      assert Narrow(rows, cell, s1, dims[0]) == Narrow(rows, cell, s2, dims[0]);
      forall i | 0 <= i < |dims[1..]| ensures SelectionFor(s1, dims[1..][i]) == SelectionFor(s2, dims[1..][i]) {
        assert dims[1..][i] == dims[i + 1];
      }
      NarrowAllAgree(Narrow(rows, cell, s1, dims[0]), cell, s1, s2, dims[1..]);
    }
  }

  /** A chain that does not list a dimension ignores its selection. */
  lemma NarrowAllAgreeExcept<R(!new)>(rows: seq<R>, cell: (R, Dimension) -> Option<string>, s1: Selections, s2: Selections, dims: seq<Dimension>, e: Dimension)
    requires e !in dims
    requires forall d :: d != e ==> SelectionFor(s1, d) == SelectionFor(s2, d)
    ensures NarrowAll(rows, cell, s1, dims) == NarrowAll(rows, cell, s2, dims)
  {
    NarrowAllAgree(rows, cell, s1, s2, dims);
  }

  /** The ten membership filters in the order most workflow callbacks apply them. */
  const ItemFilterOrder: seq<Dimension> :=
    [AorDim, CaseTypeDim, ProductDim, ModuleDim, FeatureDim, IssueDim, OriginDim, ReasonDim, StatusDim, PriorityDim]

  /** A store date (a day number) read by `pd.to_datetime` is midnight of that day, in minutes. */
  function DayStart(day: int): int
  {
    day * 1440
  }

  /** `CreatedOn >= start and CreatedOn <= end`; a null CreatedOn compares false. */
  predicate CreatedWithin(w: WorkItem, start: int, end: int)
  {
    w.createdOn.Some? && start <= w.createdOn.value <= end
  }
}
