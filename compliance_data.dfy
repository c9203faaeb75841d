/**
 * The compliance dashboard's shared data layer (src/utils/compliance_data.py):
 * the merged case row, the process-wide cache of the merged case frame, the
 * store-driven case filter every compliance callback applies, the severity
 * classifier and the outstanding-issues summary.
 *
 * Timestamps are whole seconds since 1970-01-01 00:00; the panel store holds
 * dates as whole days, read as midnight of that day.
 */
module ComplianceData {
  import opened Common

  /** A list-valued cell after `json.loads`: None when the cell holds no list; an element may be JSON null. */
  type ListCell = Option<seq<Option<string>>>

  /** A row of the merged case frame (Fact_CaseDetails with its list columns parsed). */
  datatype Case = Case(
    id: int,
    disposition: Option<string>,
    status: Option<string>,
    assignedUser: Option<string>,
    violations: ListCell,
    rules: ListCell,
    titles: ListCell,
    fees: ListCell,
    fineTypes: ListCell,
    numReportIds: nat,
    numCaseEvents: nat,
    createdOn: Option<int>,
    closedOn: Option<int>,
    caseNumber: Option<string>,
    memberName: Option<string>,
    violationCategory: Option<string>,
    detailedRuleCategory: Option<string>)

  const DaySeconds: int := 86400

  /** `ReportIds.apply(lambda x: json.loads(x) if pd.notna(x) else [])` followed by `len`. */
  function NumReports(reportIds: Option<seq<string>>): (n: nat)
    ensures reportIds.None? ==> n == 0
    ensures reportIds.Some? ==> n == |reportIds.value|
  {
    if reportIds.None? then 0 else |reportIds.value|
  }

  // ---------------------------------------------------------------------
  // The cache of the merged frame (`get_compliance_base_data`)

  /** `_cache_duration_minutes * 60`. */
  const CacheSeconds: int := 60 * 60

  /** `timedelta(seconds=elapsed).seconds`: the seconds part left after whole days, always in [0, 86400). */
  function SecondsComponent(elapsed: int): (s: int)
    ensures 0 <= s < DaySeconds
    ensures (elapsed - s) % DaySeconds == 0
  {
    elapsed % DaySeconds
  }

  /** The freshness test as written: the seconds component of the cache's age is under an hour. */
  predicate FreshAsWritten(stamp: int, now: int)
  {
    SecondsComponent(now - stamp) < CacheSeconds
  }

  /** The freshness test the cache duration describes: the cache is less than an hour old. */
  predicate Fresh(stamp: int, now: int)
  {
    now - stamp < CacheSeconds
  }

  /** A cache written a day and ten seconds ago passes the written test. */
  lemma DayOldCacheLooksFresh()
    ensures FreshAsWritten(0, DaySeconds + 10)
    ensures !Fresh(0, DaySeconds + 10)
  {
  }

  /** The two tests agree on every age from zero up to a day. */
  lemma FreshWithinDay(stamp: int, now: int)
    requires 0 <= now - stamp < DaySeconds
    ensures FreshAsWritten(stamp, now) <==> Fresh(stamp, now)
  {
  }

  /**
   * The module-level cache: `cached` is `_compliance_data_cache.get('merged_df')`,
   * `stamp` is `_cache_timestamp`, `memo` is what `lru_cache(maxsize=1)` holds
   * for the argument-less function.
   */
  datatype CacheState = CacheState(cached: Option<seq<Case>>, stamp: Option<int>, memo: Option<seq<Case>>)

  const EmptyCache: CacheState := CacheState(None, None, None)

  /** The cache answers without fetching: a timestamp, a frame, and a fresh age. */
  predicate Hit(st: CacheState, now: int)
  {
    st.stamp.Some? && st.cached.Some? && Fresh(st.stamp.value, now)
  }

  /**
   * One run of the function body: a hit returns the cached frame; otherwise
   * `fetched` (the merged frame, or None when a query or parse raised) is
   * stored with the current time, or the empty frame is returned and the
   * cache left as it was.
   */
  function LoadStep(st: CacheState, now: int, fetched: Option<seq<Case>>): (res: (CacheState, seq<Case>))
    ensures res.0.memo == st.memo
  {
    if Hit(st, now) then (st, st.cached.value)
    else if fetched.Some? then (st.(cached := fetched, stamp := Some(now)), fetched.value)
    else (st, [])
  }

  /** The body as written, with the seconds-component age test. */
  function LoadStepAsWritten(st: CacheState, now: int, fetched: Option<seq<Case>>): (res: (CacheState, seq<Case>))
    ensures res.0.memo == st.memo
  {
    if st.stamp.Some? && st.cached.Some? && FreshAsWritten(st.stamp.value, now) then (st, st.cached.value)
    else if fetched.Some? then (st.(cached := fetched, stamp := Some(now)), fetched.value)
    else (st, [])
  }

  /**
   * A frame cached at time 0 is still served as written a day and ten
   * seconds later, where the hour-long test fetches the newer frame.
   */
  lemma DayOldFrameServedAsWritten(frame: seq<Case>, newer: seq<Case>)
    ensures var st := CacheState(Some(frame), Some(0), None);
      LoadStepAsWritten(st, DaySeconds + 10, Some(newer)).1 == frame &&
      LoadStep(st, DaySeconds + 10, Some(newer)).1 == newer
  {
    DayOldCacheLooksFresh();
  }

  /** One call as the callbacks make it: the memo answers once it holds a frame; otherwise the body runs and its result is memoised. */
  function GetStep(st: CacheState, now: int, fetched: Option<seq<Case>>): (res: (CacheState, seq<Case>))
    ensures res.0.memo == Some(res.1)
  {
    if st.memo.Some? then (st, st.memo.value)
    else
      var (next, r) := LoadStep(st, now, fetched);
      (next.(memo := Some(r)), r)
  }

  /** One call as written: the memo first, then the body with the seconds-component test. */
  function GetStepAsWritten(st: CacheState, now: int, fetched: Option<seq<Case>>): (res: (CacheState, seq<Case>))
    ensures res.0.memo == Some(res.1)
  {
    if st.memo.Some? then (st, st.memo.value)
    else
      var (next, r) := LoadStepAsWritten(st, now, fetched);
      (next.(memo := Some(r)), r)
  }

  /**
   * The two bodies, and so the two calls, differ only for a cache more than
   * a day old; a call the memo answers is the same under both.
   */
  lemma StepsAgreeWithinDay(st: CacheState, now: int, fetched: Option<seq<Case>>)
    ensures st.stamp.None? || 0 <= now - st.stamp.value < DaySeconds ==>
      LoadStepAsWritten(st, now, fetched) == LoadStep(st, now, fetched) &&
      GetStepAsWritten(st, now, fetched) == GetStep(st, now, fetched)
    ensures st.memo.Some? ==> GetStepAsWritten(st, now, fetched) == GetStep(st, now, fetched) == (st, st.memo.value)
  {
    if st.stamp.Some? && 0 <= now - st.stamp.value < DaySeconds {
      FreshWithinDay(st.stamp.value, now);
    }
  }

  /** `invalidate_compliance_cache`: empties the dict, clears the timestamp and the memo. */
  function InvalidateStep(st: CacheState): (next: CacheState)
    ensures next == EmptyCache
  {
    CacheState(None, None, None)
  }

  /** A hit never looks at what a fetch would return. */
  lemma HitIgnoresFetch(st: CacheState, now: int, f: Option<seq<Case>>, g: Option<seq<Case>>)
    requires Hit(st, now)
    ensures LoadStep(st, now, f) == LoadStep(st, now, g) == (st, st.cached.value)
  {
  }

  /** A successful fetch is stored; within the hour it is returned again whatever a new fetch would give. */
  lemma FetchedFrameReused(st: CacheState, t: int, u: int, frame: seq<Case>, later: Option<seq<Case>>)
    requires !Hit(st, t) && t <= u < t + CacheSeconds
    ensures var (next, r) := LoadStep(st, t, Some(frame));
      r == frame && LoadStep(next, u, later) == (next, frame)
  {
  }

  /** A failing fetch returns the empty frame and leaves the cache as it was. */
  lemma FailedFetchLeavesCache(st: CacheState, now: int)
    requires !Hit(st, now)
    ensures LoadStep(st, now, None) == (st, [])
  {
  }

  /** Without the memo, a failure is retried: the next successful fetch is returned. */
  lemma FailureRetried(st: CacheState, t: int, u: int, frame: seq<Case>)
    requires !Hit(st, t) && !Hit(st, u)
    ensures var (next, _) := LoadStep(st, t, None);
      LoadStep(next, u, Some(frame)).1 == frame
  {
  }

  /** An hour after the fetch the body fetches again. */
  lemma StaleFrameRefetched(st: CacheState, t: int, u: int, frame: seq<Case>, newer: seq<Case>)
    requires !Hit(st, t) && u >= t + CacheSeconds
    ensures var (next, _) := LoadStep(st, t, Some(frame));
      LoadStep(next, u, Some(newer)) == (next.(cached := Some(newer), stamp := Some(u)), newer)
  {
  }

  /**
   * With the memo, the first result is returned by every later call until
   * invalidation, at any time and whatever a fetch would give: a first
   * failure pins the empty frame, and the hour-long lifetime never applies.
   */
  lemma MemoPinsFirstResult(st: CacheState, t: int, f: Option<seq<Case>>, u: int, g: Option<seq<Case>>)
    ensures var (next, r) := GetStep(st, t, f);
      GetStep(next, u, g) == (next, r)
  {
  }

  /** The failure case of the memo: from an empty cache, a failed first fetch is served from then on. */
  lemma FailureMemoised(t: int, u: int, frame: seq<Case>)
    ensures var (next, r) := GetStep(EmptyCache, t, None);
      r == [] && GetStep(next, u, Some(frame)).1 == []
  {
  }

  /** After invalidation the next call fetches. */
  lemma InvalidateForcesFetch(st: CacheState, now: int, frame: seq<Case>)
    ensures GetStep(InvalidateStep(st), now, Some(frame)).1 == frame
  {
  }

  /** The cache as module state, updated in place by the two entry points. */
  class ComplianceCache {
    var cached: Option<seq<Case>>
    var stamp: Option<int>
    var memo: Option<seq<Case>>

    function State(): CacheState
      reads this
    {
      CacheState(cached, stamp, memo)
    }

    constructor ()
      ensures State() == EmptyCache
    {
      cached, stamp, memo := None, None, None;
    }

    /** The function body without the memo, with the seconds-component test as written. */
    method Load(now: int, fetched: Option<seq<Case>>) returns (r: seq<Case>)
      modifies this
      ensures (State(), r) == LoadStepAsWritten(old(State()), now, fetched)
    {
      if stamp.Some? && cached.Some? && FreshAsWritten(stamp.value, now) {
        r := cached.value;
      } else if fetched.Some? {
        cached := fetched;
        stamp := Some(now);
        r := fetched.value;
      } else {
        r := [];
      }
    }

    /** `get_compliance_base_data()`: the memo first, then the body. */
    method Get(now: int, fetched: Option<seq<Case>>) returns (r: seq<Case>)
      modifies this
      ensures (State(), r) == GetStepAsWritten(old(State()), now, fetched)
    {
      if memo.Some? {
        r := memo.value;
      } else {
        r := Load(now, fetched);
        memo := Some(r);
      }
    }

    /** `invalidate_compliance_cache()`. */
    method Invalidate()
      modifies this
      ensures State() == InvalidateStep(old(State()))
    {
      cached, stamp, memo := None, None, None;
    }
  }

  // ---------------------------------------------------------------------
  // Filtering the merged frame by the panel store (`apply_compliance_filters`)

  /** One token of a stored list: `t.strip().strip("'")`. */
  function StoreToken(t: string): string
  {
    StripChars(Strip(t), {'\''})
  }

  /** `[t.strip().strip("'") for t in text.split(',')]`. */
  function StoreTokens(text: string): seq<string>
  {
    Map(Split(text, ","), StoreToken)
  }

  /** `int(...)` over a list of tokens: None as soon as one is not an integer (the ValueError). */
  function IntsOf(ts: seq<string>): (r: Option<seq<int>>)
    ensures r.Some? <==> forall i :: 0 <= i < |ts| ==> ParseInt(ts[i]).Some?
    ensures r.Some? ==> |r.value| == |ts| && forall i :: 0 <= i < |ts| ==> ParseInt(ts[i]) == Some(r.value[i])
  {
    if |ts| == 0 then Some([])
    else
      var rest := IntsOf(ts[1..]);
      assert forall i :: 1 <= i < |ts| ==> ts[i] == ts[1..][i - 1];
      if ParseInt(ts[0]).Some? && rest.Some? then Some([ParseInt(ts[0]).value] + rest.value) else None
  }

  /** `[int(n.strip()) for n in text.split(',')]`. */
  function ReportTokens(text: string): Option<seq<int>>
  {
    IntsOf(Map(Split(text, ","), Strip))
  }

  /** `cell.isin(values)`: a null cell matches nothing. */
  predicate CellIn(cell: Option<string>, values: seq<string>)
  {
    cell.Some? && cell.value in values
  }

  /** `any(item in values for item in x) if isinstance(x, list) else False`. */
  predicate AnyListed(cell: ListCell, values: seq<string>)
  {
    cell.Some? && exists i :: 0 <= i < |cell.value| && CellIn(cell.value[i], values)
  }

  /** The scalar columns a store entry can select on. */
  datatype ScalarColumn = DispositionColumn | AssignedUserColumn

  /** The list columns a store entry can select on. */
  datatype ListColumn = ViolationNameColumn | RuleNumberColumn | RuleTitleColumn | CitationFeeColumn | FineTypeColumn

  function ScalarCell(c: Case, col: ScalarColumn): Option<string>
  {
    match col
    case DispositionColumn => c.disposition
    case AssignedUserColumn => c.assignedUser
  }

  function ListCellOf(c: Case, col: ListColumn): ListCell
  {
    match col
    case ViolationNameColumn => c.violations
    case RuleNumberColumn => c.rules
    case RuleTitleColumn => c.titles
    case CitationFeeColumn => c.fees
    case FineTypeColumn => c.fineTypes
  }

  /** One boolean mask of `apply_compliance_filters`. */
  datatype Mask =
    | CreatedIn(from: int, to: int)
    | ScalarIn(scalar: ScalarColumn, entry: string)
    | ListedIn(list: ListColumn, entry: string)
    | ReportCountIn(nums: seq<int>)
    | Everything

  /**
   * Whether a case passes a mask. `CreatedOn` is compared with the midnights
   * of the two stored days, and a missing date fails both comparisons.
   */
  predicate Holds(m: Mask, c: Case)
  {
    match m
    case CreatedIn(from, to) => c.createdOn.Some? && from * DaySeconds <= c.createdOn.value <= to * DaySeconds
    case ScalarIn(col, entry) => CellIn(ScalarCell(c, col), StoreTokens(entry))
    case ListedIn(col, entry) => AnyListed(ListCellOf(c, col), StoreTokens(entry))
    case ReportCountIn(nums) => (c.numReportIds as int) in nums
    case Everything => true
  }

  function HoldsOf(m: Mask): Case -> bool
  {
    c => Holds(m, c)
  }

  predicate HoldsAll(ms: seq<Mask>, c: Case)
  {
    forall i :: 0 <= i < |ms| ==> Holds(ms[i], c)
  }

  function HoldsAllOf(ms: seq<Mask>): Case -> bool
  {
    c => HoldsAll(ms, c)
  }

  /** The masks applied one after the other: `df = df[mask]` for each. */
  function ApplyMasks(rows: seq<Case>, ms: seq<Mask>): seq<Case>
    decreases |ms|
  {
    if |ms| == 0 then rows else ApplyMasks(Filter(rows, HoldsOf(ms[0])), ms[1..])
  }

  /** A chain of masks keeps, in order, exactly the cases that pass all of them. */
  lemma {:induction false} ApplyMasksAll(rows: seq<Case>, ms: seq<Mask>)
    ensures ApplyMasks(rows, ms) == Filter(rows, HoldsAllOf(ms))
    decreases |ms|
  {
    if |ms| == 0 {
      FilterAll(rows, HoldsAllOf(ms));
    } else {
      ApplyMasksAll(Filter(rows, HoldsOf(ms[0])), ms[1..]);
      forall c | c in rows ensures HoldsAllOf(ms)(c) == (HoldsOf(ms[0])(c) && HoldsAllOf(ms[1..])(c)) {
        assert forall i :: 1 <= i < |ms| ==> ms[i] == ms[1..][i - 1];
      }
      FilterThen(rows, HoldsOf(ms[0]), HoldsAllOf(ms[1..]), HoldsAllOf(ms));
    }
  }

  /** The store keys `apply_compliance_filters` reads: the two dates and one text entry per selection. */
  datatype EntryKeys = EntryKeys(
    dayFrom: string, dayTo: string,
    disposition: string, assignedUser: string, violationName: string, ruleNumber: string,
    ruleTitle: string, citationFee: string, fineType: string, numReports: string)

  /** The keys the filter panel's store is written and read under. */
  const StoreKeys: EntryKeys := EntryKeys(
    "Day_From", "Day_To",
    "Disposition", "AssignedUser", "ViolationName", "RuleNumber",
    "RuleTitle", "CitationFee", "FineType", "NumReports")

  /** The date range, applied only when both dates are present; otherwise no mask. */
  function DateMask(st: Store, ks: EntryKeys): Mask
  {
    if ks.dayFrom in st.dates && ks.dayTo in st.dates
    then CreatedIn(st.dates[ks.dayFrom], st.dates[ks.dayTo]) else Everything
  }

  /** A mask guarded by a store entry: applied iff the entry under `key` is non-empty. */
  function EntryMask(st: Store, key: string, m: Mask): Mask
  {
    if TextOr(st, key) != "" then m else Everything
  }

  function ScalarMask(st: Store, key: string, col: ScalarColumn): Mask
  {
    EntryMask(st, key, ScalarIn(col, TextOr(st, key)))
  }

  function ListMask(st: Store, key: string, col: ListColumn): Mask
  {
    EntryMask(st, key, ListedIn(col, TextOr(st, key)))
  }

  /**
   * The masks of `apply_compliance_filters`, in the order applied, reading
   * the entries under `ks`. An entry the code skips contributes
   * `Everything`, which keeps every row.
   */
  function ComplianceMasks(st: Store, nums: seq<int>, ks: EntryKeys): seq<Mask>
  {
    [DateMask(st, ks),
     ScalarMask(st, ks.disposition, DispositionColumn),
     ScalarMask(st, ks.assignedUser, AssignedUserColumn),
     ListMask(st, ks.violationName, ViolationNameColumn),
     ListMask(st, ks.ruleNumber, RuleNumberColumn),
     ListMask(st, ks.ruleTitle, RuleTitleColumn),
     ListMask(st, ks.citationFee, CitationFeeColumn),
     ListMask(st, ks.fineType, FineTypeColumn),
     EntryMask(st, ks.numReports, ReportCountIn(nums))]
  }

  /** The report counts an entry selects (none when it is empty), or None when one does not read as an integer. */
  function EntryReportCounts(st: Store, key: string): Option<seq<int>>
  {
    if TextOr(st, key) == "" then Some([]) else ReportTokens(TextOr(st, key))
  }

  /** The report counts the store selects, read from its "NumReports" entry. */
  function StoreReportCounts(st: Store): Option<seq<int>>
  {
    EntryReportCounts(st, StoreKeys.numReports)
  }

  /** `apply_compliance_filters` with the entries read under `ks`. */
  function FilterWithKeys(rows: seq<Case>, st: Store, ks: EntryKeys): Option<seq<Case>>
  {
    if |rows| == 0 then Some(rows)
    else
      var nums := EntryReportCounts(st, ks.numReports);
      if nums.None? then None else Some(ApplyMasks(rows, ComplianceMasks(st, nums.value, ks)))
  }

  /**
   * `apply_compliance_filters`: an empty frame is returned as it is; otherwise
   * the masks are applied one after the other. None stands for the ValueError
   * of a report count that is not an integer.
   */
  function ApplyComplianceFilters(rows: seq<Case>, st: Store): Option<seq<Case>>
  {
    FilterWithKeys(rows, st, StoreKeys)
  }

  /** The date range, when both dates are present. */
  predicate DatesMet(c: Case, st: Store, ks: EntryKeys)
  {
    ks.dayFrom in st.dates && ks.dayTo in st.dates ==>
      c.createdOn.Some? && st.dates[ks.dayFrom] * DaySeconds <= c.createdOn.value <= st.dates[ks.dayTo] * DaySeconds
  }

  /** A non-empty scalar entry: the cell is one of its tokens. */
  predicate ScalarEntryMet(c: Case, st: Store, key: string, col: ScalarColumn)
  {
    TextOr(st, key) != "" ==> CellIn(ScalarCell(c, col), StoreTokens(TextOr(st, key)))
  }

  /** A non-empty list entry: the cell is a list with an element among its tokens. */
  predicate ListEntryMet(c: Case, st: Store, key: string, col: ListColumn)
  {
    TextOr(st, key) != "" ==> AnyListed(ListCellOf(c, col), StoreTokens(TextOr(st, key)))
  }

  /** A non-empty report-count entry: the number of reports is one of the counts it reads as. */
  predicate ReportEntryMet(c: Case, st: Store, key: string, nums: seq<int>)
  {
    TextOr(st, key) != "" ==> (c.numReportIds as int) in nums
  }

  /** What a case must meet to pass `apply_compliance_filters`, entry by entry. */
  predicate PassesStore(c: Case, st: Store, nums: seq<int>, ks: EntryKeys)
  {
    DatesMet(c, st, ks) &&
    ScalarEntryMet(c, st, ks.disposition, DispositionColumn) &&
    ScalarEntryMet(c, st, ks.assignedUser, AssignedUserColumn) &&
    ListEntryMet(c, st, ks.violationName, ViolationNameColumn) &&
    ListEntryMet(c, st, ks.ruleNumber, RuleNumberColumn) &&
    ListEntryMet(c, st, ks.ruleTitle, RuleTitleColumn) &&
    ListEntryMet(c, st, ks.citationFee, CitationFeeColumn) &&
    ListEntryMet(c, st, ks.fineType, FineTypeColumn) &&
    ReportEntryMet(c, st, ks.numReports, nums)
  }

  /** A case passes the masks iff it meets every entry of the store. */
  lemma PassesMasks(c: Case, st: Store, nums: seq<int>, ks: EntryKeys)
    ensures HoldsAll(ComplianceMasks(st, nums, ks), c) <==> PassesStore(c, st, nums, ks)
  {
    var ms := ComplianceMasks(st, nums, ks);
    ScalarMasksMet(c, st, ks);
    ListMasksMet(c, st, ks);
    MoreListMasksMet(c, st, ks);
    assert Holds(ms[8], c) <==> ReportEntryMet(c, st, ks.numReports, nums) by {
      ReportMaskMet(c, st, ks.numReports, nums);
    }
    if PassesStore(c, st, nums, ks) {
      forall i | 0 <= i < |ms| ensures Holds(ms[i], c) {
        assert i in {0, 1, 2, 3, 4, 5, 6, 7, 8};
      }
    }
    if HoldsAll(ms, c) {
      assert Holds(ms[0], c) && Holds(ms[1], c) && Holds(ms[2], c);
      assert Holds(ms[3], c) && Holds(ms[4], c) && Holds(ms[5], c);
      assert Holds(ms[6], c) && Holds(ms[7], c) && Holds(ms[8], c);
    }
  }

  lemma ScalarMasksMet(c: Case, st: Store, ks: EntryKeys)
    ensures Holds(DateMask(st, ks), c) <==> DatesMet(c, st, ks)
    ensures Holds(ScalarMask(st, ks.disposition, DispositionColumn), c) <==> ScalarEntryMet(c, st, ks.disposition, DispositionColumn)
    ensures Holds(ScalarMask(st, ks.assignedUser, AssignedUserColumn), c) <==> ScalarEntryMet(c, st, ks.assignedUser, AssignedUserColumn)
  {
    DateMaskMet(c, st, ks);
    ScalarMaskMet(c, st, ks.disposition, DispositionColumn);
    ScalarMaskMet(c, st, ks.assignedUser, AssignedUserColumn);
  }

  lemma DateMaskMet(c: Case, st: Store, ks: EntryKeys)
    ensures Holds(DateMask(st, ks), c) <==> DatesMet(c, st, ks)
  {
    if ks.dayFrom in st.dates && ks.dayTo in st.dates {
      assert DateMask(st, ks) == CreatedIn(st.dates[ks.dayFrom], st.dates[ks.dayTo]);
    } else {
      assert DateMask(st, ks) == Everything;
    }
  }

  lemma ListMasksMet(c: Case, st: Store, ks: EntryKeys)
    ensures Holds(ListMask(st, ks.violationName, ViolationNameColumn), c) <==> ListEntryMet(c, st, ks.violationName, ViolationNameColumn)
    ensures Holds(ListMask(st, ks.ruleNumber, RuleNumberColumn), c) <==> ListEntryMet(c, st, ks.ruleNumber, RuleNumberColumn)
    ensures Holds(ListMask(st, ks.ruleTitle, RuleTitleColumn), c) <==> ListEntryMet(c, st, ks.ruleTitle, RuleTitleColumn)
  {
    ListMaskMet(c, st, ks.violationName, ViolationNameColumn);
    ListMaskMet(c, st, ks.ruleNumber, RuleNumberColumn);
    ListMaskMet(c, st, ks.ruleTitle, RuleTitleColumn);
  }

  lemma MoreListMasksMet(c: Case, st: Store, ks: EntryKeys)
    ensures Holds(ListMask(st, ks.citationFee, CitationFeeColumn), c) <==> ListEntryMet(c, st, ks.citationFee, CitationFeeColumn)
    ensures Holds(ListMask(st, ks.fineType, FineTypeColumn), c) <==> ListEntryMet(c, st, ks.fineType, FineTypeColumn)
  {
    ListMaskMet(c, st, ks.citationFee, CitationFeeColumn);
    ListMaskMet(c, st, ks.fineType, FineTypeColumn);
  }

  lemma ScalarMaskMet(c: Case, st: Store, key: string, col: ScalarColumn)
    ensures Holds(ScalarMask(st, key, col), c) <==> ScalarEntryMet(c, st, key, col)
  {
    if TextOr(st, key) != "" {
      assert ScalarMask(st, key, col) == ScalarIn(col, TextOr(st, key));
    }
  }

  lemma ReportMaskMet(c: Case, st: Store, key: string, nums: seq<int>)
    ensures Holds(EntryMask(st, key, ReportCountIn(nums)), c) <==> ReportEntryMet(c, st, key, nums)
  {
  }

  lemma ListMaskMet(c: Case, st: Store, key: string, col: ListColumn)
    ensures Holds(ListMask(st, key, col), c) <==> ListEntryMet(c, st, key, col)
  {
    if TextOr(st, key) != "" {
      assert ListMask(st, key, col) == ListedIn(col, TextOr(st, key));
    }
  }

  /** Read under any keys, the filter keeps, in order, exactly the cases that meet every entry. */
  lemma FilterWithKeysSpec(rows: seq<Case>, st: Store, ks: EntryKeys, c: Case)
    ensures FilterWithKeys(rows, st, ks).None? <==> |rows| > 0 && EntryReportCounts(st, ks.numReports).None?
    ensures var r := FilterWithKeys(rows, st, ks);
      r.Some? ==> (c in r.value <==> c in rows && (|rows| > 0 ==> PassesStore(c, st, EntryReportCounts(st, ks.numReports).value, ks)))
  {
    var nums := EntryReportCounts(st, ks.numReports);
    if |rows| > 0 && nums.Some? {
      ApplyMasksAll(rows, ComplianceMasks(st, nums.value, ks));
      PassesMasks(c, st, nums.value, ks);
    }
  }

  /** The filter keeps, in order, exactly the cases that meet every entry, and fails only on a malformed report count. */
  lemma ComplianceFilterSpec(rows: seq<Case>, st: Store, c: Case)
    ensures ApplyComplianceFilters(rows, st).None? <==> |rows| > 0 && StoreReportCounts(st).None?
    ensures var r := ApplyComplianceFilters(rows, st);
      r.Some? ==> (c in r.value <==> c in rows && (|rows| > 0 ==> PassesStore(c, st, StoreReportCounts(st).value, StoreKeys)))
  {
    FilterWithKeysSpec(rows, st, StoreKeys, c);
  }

  /** The filter keeps the surviving cases in their original order. */
  lemma ComplianceFilterOrdered(rows: seq<Case>, st: Store)
    requires ApplyComplianceFilters(rows, st).Some?
    ensures exists p :: ApplyComplianceFilters(rows, st).value == Filter(rows, p)
  {
    if |rows| > 0 {
      var ms := ComplianceMasks(st, StoreReportCounts(st).value, StoreKeys);
      ApplyMasksAll(rows, ms);
      assert ApplyComplianceFilters(rows, st).value == Filter(rows, HoldsAllOf(ms));
    } else {
      FilterAll(rows, c => true);
    }
  }

  /** A store with empty entries and no dates filters nothing. */
  lemma EmptyStoreKeepsAll(rows: seq<Case>, text: map<string, string>)
    requires forall k :: k in text ==> text[k] == ""
    ensures ApplyComplianceFilters(rows, Store(map[], text)) == Some(rows)
  {
    var st := Store(map[], text);
    var ms := ComplianceMasks(st, [], StoreKeys);
    assert StoreReportCounts(st) == Some([]);
    if |rows| > 0 {
      forall c | c in rows ensures HoldsAllOf(ms)(c) {
        EmptyStorePasses(text, c, StoreKeys);
      }
      ApplyMasksAll(rows, ms);
      FilterAll(rows, HoldsAllOf(ms));
    }
  }

  lemma EmptyStorePasses(text: map<string, string>, c: Case, ks: EntryKeys)
    requires forall k :: k in text ==> text[k] == ""
    ensures HoldsAll(ComplianceMasks(Store(map[], text), [], ks), c)
  {
    PassesMasks(c, Store(map[], text), [], ks);
  }

  /** The date range applies only when both dates are present: with one missing, the dates do not matter. */
  lemma DatesNeedBoth(st: Store, nums: seq<int>)
    requires !("Day_From" in st.dates && "Day_To" in st.dates)
    ensures ComplianceMasks(st, nums, StoreKeys) == ComplianceMasks(Store(map[], st.text), nums, StoreKeys)
  {
  }

  /** A list-column entry rejects every case whose cell holds no list. */
  lemma ListFilterRejectsNonList(rows: seq<Case>, st: Store, c: Case)
    requires TextOr(st, "ViolationName") != "" && c.violations.None?
    requires ApplyComplianceFilters(rows, st).Some?
    ensures c !in ApplyComplianceFilters(rows, st).value
  {
    ComplianceFilterSpec(rows, st, c);
    assert !ListEntryMet(c, st, StoreKeys.violationName, ViolationNameColumn);
  }

  // ---------------------------------------------------------------------
  // Severity classification (`classify_case_severity`)

  datatype Severity = Low | Medium | High | Critical | Resolved | DataIssue

  function SeverityName(s: Severity): string
  {
    match s
    case Low => "LOW"
    case Medium => "MEDIUM"
    case High => "HIGH"
    case Critical => "CRITICAL"
    case Resolved => "RESOLVED"
    case DataIssue => "DATA_ISSUE"
  }

  const CriticalViolations: seq<string> :=
    ["Citation", "Citation: Unresolved", "Combined Citation", "Disciplinary Complaint", "Disciplinary Complaint Upheld"]
  const HighViolations: seq<string> := ["Investigation Created", "Escalated", "Warning", "Violation Override"]
  const MediumViolations: seq<string> := ["AOR/MLS Referral", "Transferred to OM/DB", "Modification"]
  const LowViolations: seq<string> := ["Call", "Chat", "Left Voicemail"]
  const ResolvedViolations: seq<string> :=
    ["Corrected", "Corrected Prior to Review", "Citation - Dismissed by review panel",
     "Disciplinary Complaint Dismissed", "No Violation", "Duplicate", "Aged Report", "Unable to Verify", "Withdrawn"]

  /** A list element the classifier skips: null, or blank once stripped. */
  predicate BlankCell(v: Option<string>)
  {
    v.None? || Strip(v.value) == ""
  }

  /** The first element that is neither null nor blank, if any. */
  function FirstNonBlank(vs: seq<Option<string>>): Option<string>
  {
    if |vs| == 0 then None
    else if !BlankCell(vs[0]) then vs[0]
    else FirstNonBlank(vs[1..])
  }

  /** The element found is present and not blank, and every element before it is blank; none is found iff all are blank. */
  lemma {:induction false} FirstNonBlankSpec(vs: seq<Option<string>>)
    ensures FirstNonBlank(vs).None? <==> forall i :: 0 <= i < |vs| ==> BlankCell(vs[i])
    ensures FirstNonBlank(vs).Some? ==> (!BlankCell(FirstNonBlank(vs)) &&
      exists i :: 0 <= i < |vs| && vs[i] == FirstNonBlank(vs) && (forall j :: 0 <= j < i ==> BlankCell(vs[j])))
  {
    if |vs| > 0 && BlankCell(vs[0]) {
      var r := FirstNonBlank(vs[1..]);
      FirstNonBlankSpec(vs[1..]);
      assert forall i :: 1 <= i < |vs| ==> vs[i] == vs[1..][i - 1];
      if r.Some? {
        var i :| 0 <= i < |vs[1..]| && vs[1..][i] == r && forall j :: 0 <= j < i ==> BlankCell(vs[1..][j]);
        assert vs[i + 1] == r && forall j :: 0 <= j < i + 1 ==> BlankCell(vs[j]);
      }
    } else if |vs| > 0 {
      assert vs[0] == FirstNonBlank(vs);
    }
  }

  /** The early-exit loop of `get_base_severity_from_violations` that picks the violation to classify. */
  method FindFirstViolation(vs: seq<Option<string>>) returns (r: Option<string>)
    ensures r == FirstNonBlank(vs)
  {
    var i := 0;
    while i < |vs|
      invariant 0 <= i <= |vs|
      invariant FirstNonBlank(vs[i..]) == FirstNonBlank(vs)
    {
      if vs[i].Some? && Strip(vs[i].value) != "" {
        SkipLeading(vs, i);
        return vs[i];
      }
      SkipLeading(vs, i);
      i := i + 1;
    }
    assert vs[i..] == [];
    return None;
  }

  /** The search restarted at `i` sees `vs[i]` first. */
  lemma SkipLeading(vs: seq<Option<string>>, i: nat)
    requires i < |vs|
    ensures FirstNonBlank(vs[i..]) == (if BlankCell(vs[i]) then FirstNonBlank(vs[i + 1..]) else vs[i])
  {
    assert vs[i..][0] == vs[i];
    assert vs[i..][1..] == vs[i + 1..];
  }

  /**
   * `get_base_severity_from_violations`: the base severity and its reason.
   * No list, or an empty one, reads as resolved; a list of blanks is a data issue.
   */
  function BaseSeverity(cell: ListCell): (Severity, string)
  {
    if cell.None? || |cell.value| == 0 then (Resolved, "No violations")
    else
      match FirstNonBlank(cell.value)
      case None => (DataIssue, "Null violation data")
      case Some(v) =>
        if v in CriticalViolations then (Critical, "Active enforcement: " + v)
        else if v in HighViolations then (High, "Investigation/escalation: " + v)
        else if v in MediumViolations then (Medium, "Administrative action: " + v)
        else if v in LowViolations then (Low, "Communication activity: " + v)
        else if v in ResolvedViolations then (Resolved, "Case resolved: " + v)
        else if v == "Null" then (DataIssue, "Missing violation data")
        else (Medium, "Other violation: " + v)
  }

  /** The reason the classifier gives for a violation of each severity list. */
  datatype SeverityRule = SeverityRule(violations: seq<string>, severity: Severity, prefix: string)

  const SeverityRules: seq<SeverityRule> := [
    SeverityRule(CriticalViolations, Critical, "Active enforcement: "),
    SeverityRule(HighViolations, High, "Investigation/escalation: "),
    SeverityRule(MediumViolations, Medium, "Administrative action: "),
    SeverityRule(LowViolations, Low, "Communication activity: "),
    SeverityRule(ResolvedViolations, Resolved, "Case resolved: ")]

  /** The severity lists do not overlap, so the order of the tests does not matter for a listed violation. */
  lemma SeverityListsDisjoint(v: string)
    ensures v in CriticalViolations ==> v !in HighViolations && v !in MediumViolations && v !in LowViolations && v !in ResolvedViolations
    ensures v in HighViolations ==> v !in MediumViolations && v !in LowViolations && v !in ResolvedViolations
    ensures v in MediumViolations ==> v !in LowViolations && v !in ResolvedViolations
    ensures v in LowViolations ==> v !in ResolvedViolations
    ensures v in ResolvedViolations ==> v != "Null"
  {
  }

  /** A listed violation gets its list's severity, and its reason names the violation after the list's prefix. */
  lemma BaseSeverityByRule(cell: ListCell, k: nat)
    requires k < |SeverityRules|
    requires cell.Some? && FirstNonBlank(cell.value).Some?
    requires FirstNonBlank(cell.value).value in SeverityRules[k].violations
    ensures var v := FirstNonBlank(cell.value).value;
      BaseSeverity(cell) == (SeverityRules[k].severity, SeverityRules[k].prefix + v)
  {
    SeverityListsDisjoint(FirstNonBlank(cell.value).value);
  }

  /** A violation on none of the lists is a data issue when it reads "Null", and otherwise of medium severity. */
  lemma BaseSeverityUnlisted(cell: ListCell)
    requires cell.Some? && FirstNonBlank(cell.value).Some?
    requires forall k :: 0 <= k < |SeverityRules| ==> FirstNonBlank(cell.value).value !in SeverityRules[k].violations
    ensures var v := FirstNonBlank(cell.value).value;
      BaseSeverity(cell) == if v == "Null" then (DataIssue, "Missing violation data") else (Medium, "Other violation: " + v)
  {
    var v := FirstNonBlank(cell.value).value;
    assert v !in SeverityRules[0].violations && v !in SeverityRules[1].violations && v !in SeverityRules[2].violations;
    assert v !in SeverityRules[3].violations && v !in SeverityRules[4].violations;
  }

  /** A cell with no violation to read is resolved when it holds no list (or an empty one), and a data issue when every element is blank. */
  lemma BaseSeverityWithoutViolation(cell: ListCell)
    requires cell.None? || FirstNonBlank(cell.value).None?
    ensures BaseSeverity(cell).0 == (if cell.None? || |cell.value| == 0 then Resolved else DataIssue)
  {
  }

  // Multipliers (`apply_severity_multipliers`)

  /** `severity_levels.get(base, 2)`. */
  function Level(s: Severity): nat
  {
    match s
    case Low => 1
    case Medium => 2
    case High => 3
    case Critical => 4
    case _ => 2
  }

  /** `level_names[level]`. */
  function LevelName(n: nat): (s: Severity)
    requires 1 <= n <= 4
    ensures Level(s) == n && s != Resolved && s != DataIssue
  {
    if n == 1 then Low else if n == 2 then Medium else if n == 3 then High else Critical
  }

  /** An assignee that is null or blank once stripped. */
  predicate Unassigned(user: Option<string>)
  {
    user.None? || Strip(user.value) == ""
  }

  /** `(now - CreatedOn).days`: whole days, rounded down; 0 without a creation time. */
  function DaysOpen(c: Case, now: int): (d: int)
    ensures c.createdOn.Some? ==> d * DaySeconds <= now - c.createdOn.value < (d + 1) * DaySeconds
    ensures c.createdOn.None? ==> d == 0
  {
    if c.createdOn.Some? then (now - c.createdOn.value) / DaySeconds else 0
  }

  /** A case older than ten days is raised a level. */
  predicate AgingCase(c: Case, now: int)
  {
    c.createdOn.Some? && DaysOpen(c, now) > 10
  }

  function RaiseLevel(n: nat): nat
  {
    if n + 1 < 4 then n + 1 else 4
  }

  /** The final severity and the multipliers applied to a base severity. */
  function ApplyMultipliers(base: Severity, c: Case, now: int): (Severity, seq<string>)
  {
    if base == Resolved || base == DataIssue then (base, [])
    else
      var unassigned := Unassigned(c.assignedUser);
      var l1 := if unassigned then RaiseLevel(Level(base)) else Level(base);
      var m1 := if unassigned then ["Unassigned (+1)"] else [];
      var aging := AgingCase(c, now);
      var l2 := if aging then RaiseLevel(l1) else l1;
      var m2 := if aging then m1 + ["Aging " + IntToString(DaysOpen(c, now)) + " days (+1)"] else m1;
      (LevelName(l2), m2)
  }

  /**
   * Each multiplier raises the level by one up to CRITICAL: the final level is
   * the base level plus the number of multipliers, capped at 4, one
   * multiplier for being unassigned and one for being open over ten days.
   */
  lemma MultipliersRaise(base: Severity, c: Case, now: int)
    requires base != Resolved && base != DataIssue
    ensures var (final, ms) := ApplyMultipliers(base, c, now);
      final != Resolved && final != DataIssue &&
      Level(base) <= Level(final) <= 4 &&
      Level(final) == (if Level(base) + |ms| < 4 then Level(base) + |ms| else 4) &&
      |ms| == (if Unassigned(c.assignedUser) then 1 else 0) + (if AgingCase(c, now) then 1 else 0)
  {
  }

  /** Resolved cases and data issues keep their base severity and get no multiplier. */
  lemma MultipliersPassThrough(base: Severity, c: Case, now: int)
    requires base == Resolved || base == DataIssue
    ensures ApplyMultipliers(base, c, now) == (base, [])
  {
  }

  /** `SeverityReason`: the base reason, followed by the multipliers when there are any. */
  function SeverityReason(baseReason: string, ms: seq<string>): (r: string)
    ensures |r| >= |baseReason| && r[..|baseReason|] == baseReason
    ensures |ms| == 0 <==> r == baseReason
  {
    if |ms| > 0 then baseReason + " | Multipliers: " + Join(ms, ", ") else baseReason
  }

  // Outstanding cases (`is_case_outstanding`)

  const ClosedWords: seq<string> := ["closed", "resolved", "complete"]

  /** A non-empty disposition or status that reads closed, resolved or complete in lower case. */
  predicate ClosedMark(v: Option<string>)
  {
    v.Some? && v.value != "" && Lower(v.value) in ClosedWords
  }

  /** The first element of the violation list, when it is one of the resolving violations. */
  predicate ResolvedFirst(cell: ListCell)
  {
    cell.Some? && |cell.value| > 0 && cell.value[0].Some? && cell.value[0].value in ResolvedViolations
  }

  predicate IsOutstanding(c: Case)
  {
    !ClosedMark(c.disposition) && !ClosedMark(c.status) && !ResolvedFirst(c.violations)
  }

  /** A resolving first violation both closes the case and makes its base severity RESOLVED. */
  lemma ResolvedFirstAgrees(c: Case)
    requires ResolvedFirst(c.violations)
    ensures !IsOutstanding(c)
    ensures BaseSeverity(c.violations) == (Resolved, "Case resolved: " + c.violations.value[0].value)
  {
    var vs := c.violations.value;
    var v := vs[0].value;
    ResolvedNotBlank(v);
    assert FirstNonBlank(vs) == vs[0];
    BaseSeverityByRule(c.violations, 4);
  }

  lemma ResolvedNotBlank(v: string)
    requires v in ResolvedViolations
    ensures Strip(v) != ""
  {
    var k :| 0 <= k < |ResolvedViolations| && ResolvedViolations[k] == v;
    assert ResolvedViolations[k][0] != ' ' by {
      if k == 0 { } else if k == 1 { } else if k == 2 { } else if k == 3 { } else if k == 4 { }
      else if k == 5 { } else if k == 6 { } else if k == 7 { } else { }
    }
    assert !IsBlank(v) by { assert v[0] !in Whitespace; }
    StripEmptyIffBlank(v);
  }

  /** A case with no violation list and no closing disposition or status is outstanding although its severity is RESOLVED. */
  lemma NoViolationsOutstanding(c: Case, now: int)
    requires c.violations.None? && !ClosedMark(c.disposition) && !ClosedMark(c.status)
    ensures IsOutstanding(c) && ApplyMultipliers(BaseSeverity(c.violations).0, c, now).0 == Resolved
  {
  }

  /** A classified case: the columns `classify_case_severity` adds. */
  datatype Classified = Classified(
    row: Case,
    base: Severity,
    baseReason: string,
    final: Severity,
    multipliers: seq<string>,
    reason: string,
    outstanding: bool,
    daysOpen: int)

  function Classify(c: Case, now: int): (r: Classified)
    ensures r.row == c && r.outstanding == IsOutstanding(c)
  {
    var (base, baseReason) := BaseSeverity(c.violations);
    var (final, ms) := ApplyMultipliers(base, c, now);
    Classified(c, base, baseReason, final, ms, SeverityReason(baseReason, ms), IsOutstanding(c), DaysOpen(c, now))
  }

  function ClassifyAt(now: int): Case -> Classified
  {
    c => Classify(c, now)
  }

  /** `classify_case_severity`: one classified row per case, in order. */
  function ClassifyCases(rows: seq<Case>, now: int): (r: seq<Classified>)
    ensures |r| == |rows|
    ensures forall i :: 0 <= i < |rows| ==> r[i].row == rows[i] && r[i] == Classify(rows[i], now)
  {
    Map(rows, ClassifyAt(now))
  }

  // ---------------------------------------------------------------------
  // The outstanding-issues summary (`prepare_outstanding_issues_data`)

  /** The severity view's order: CRITICAL to DATA_ISSUE, then the unlisted RESOLVED (sort key 99) last. */
  const SeverityViewOrder: seq<string> := ["CRITICAL", "HIGH", "MEDIUM", "LOW", "DATA_ISSUE", "RESOLVED"]

  function FinalNameOf(k: Classified): string
  {
    SeverityName(k.final)
  }

  /** `categorize_age`. */
  function AgeBucket(days: int): string
  {
    if days <= 7 then "≤7 days (Fresh)"
    else if days <= 30 then "8-30 days (Recent)"
    else if days <= 90 then "31-90 days (Aging)"
    else ">90 days (Stale)"
  }

  const AgeOrder: seq<string> := ["≤7 days (Fresh)", "8-30 days (Recent)", "31-90 days (Aging)", ">90 days (Stale)"]

  function AgeBucketOf(k: Classified): string
  {
    AgeBucket(k.daysOpen)
  }

  /** The position of a bucket in the age order. */
  function AgeRank(bucket: string): nat
  {
    if bucket == AgeOrder[0] then 0 else if bucket == AgeOrder[1] then 1 else if bucket == AgeOrder[2] then 2 else 3
  }

  /** An older case never lands in a younger bucket. */
  lemma AgeBucketMonotone(a: int, b: int)
    requires a <= b
    ensures AgeRank(AgeBucket(a)) <= AgeRank(AgeBucket(b))
  {
  }

  const UnassignedLabel: string := "🚨 Unassigned"

  /** `categorize_assignment`. */
  function AssignmentLabel(k: Classified): string
  {
    if Unassigned(k.row.assignedUser) then UnassignedLabel else "👤 " + Strip(k.row.assignedUser.value)
  }

  /** `get_first_violation`: the first element of the list, or "No Violation". */
  function FirstViolationLabel(k: Classified): string
  {
    var cell := k.row.violations;
    if cell.Some? && |cell.value| > 0 && cell.value[0].Some? then cell.value[0].value else "No Violation"
  }

  /** The unassigned group goes first (`IsUnassigned` descending), then larger groups first. */
  function AssignmentKey(n: nat): ((string, nat)) -> int
  {
    (e: (string, nat)) => (if Contains(e.0, UnassignedLabel) then 0 else n + 1) - e.1
  }

  function CountDescending(e: (string, nat)): int
  {
    -(e.1 as int)
  }

  /** Each distinct category with its count, ordered by `key`. */
  function SortedCounts(cats: seq<string>, key: ((string, nat)) -> int): seq<(string, nat)>
  {
    SortBy(CountedBy(Distinct(cats), cats), key)
  }

  /** The category counts of one view; None for an unknown view (the UnboundLocalError). */
  function OutstandingView(out: seq<Classified>, view: string): Option<seq<(string, nat)>>
  {
    if view == "severity" then Some(CountsInOrder(SeverityViewOrder, Map(out, FinalNameOf)))
    else if view == "age" then Some(CountsInOrder(AgeOrder, Map(out, AgeBucketOf)))
    else if view == "assignment" then Some(SortedCounts(Map(out, AssignmentLabel), AssignmentKey(|out|)))
    else if view == "violation" then Some(SortedCounts(Map(out, FirstViolationLabel), CountDescending))
    else None
  }

  function IsOutstandingRow(k: Classified): bool
  {
    k.outstanding
  }

  function UnassignedRow(k: Classified): bool
  {
    Unassigned(k.row.assignedUser)
  }

  function OpenOver30(k: Classified): bool
  {
    k.daysOpen > 30
  }

  function OpenOver90(k: Classified): bool
  {
    k.daysOpen > 90
  }

  /** The summary dictionary: empty for an empty frame, zero counts when nothing is outstanding. */
  datatype Summary =
    | NoCases
    | NoneOutstanding
    | Stats(total: nat, outstanding: nat, critical: nat, high: nat, unassigned: nat, aging: nat, stale: nat)

  function SummaryOf(total: nat, out: seq<Classified>): Summary
  {
    var names := Map(out, FinalNameOf);
    Stats(total, |out|, Count(names, "CRITICAL"), Count(names, "HIGH"),
      |Filter(out, UnassignedRow)|, |Filter(out, OpenOver30)|, |Filter(out, OpenOver90)|)
  }

  /**
   * `prepare_outstanding_issues_data`: the view's category counts and the
   * summary, over the outstanding cases only. None stands for the error an
   * unknown view raises once some case is outstanding.
   */
  function PrepareOutstanding(rows: seq<Case>, view: string, now: int): Option<(seq<(string, nat)>, Summary)>
  {
    if |rows| == 0 then Some(([], NoCases))
    else
      var out := OutstandingCases(rows, now);
      if |out| == 0 then Some(([], NoneOutstanding))
      else
        var v := OutstandingView(out, view);
        if v.None? then None else Some((v.value, SummaryOf(|rows|, out)))
  }

  predicate KnownView(view: string)
  {
    view in ["severity", "age", "assignment", "violation"]
  }

  /** The outstanding cases of a frame. */
  function OutstandingCases(rows: seq<Case>, now: int): seq<Classified>
  {
    Filter(ClassifyCases(rows, now), IsOutstandingRow)
  }

  /** The result is an error exactly when some case is outstanding and the view is unknown. */
  lemma PrepareOutstandingFails(rows: seq<Case>, view: string, now: int)
    ensures PrepareOutstanding(rows, view, now).None? <==> |rows| > 0 && |OutstandingCases(rows, now)| > 0 && !KnownView(view)
  {
    KnownViewsAnswer(OutstandingCases(rows, now), view);
  }

  lemma KnownViewsAnswer(out: seq<Classified>, view: string)
    ensures OutstandingView(out, view).Some? <==> KnownView(view)
  {
  }

  /**
   * An empty frame gives no counts and an empty summary; a frame with no
   * outstanding case gives no counts and a summary of zeros, whatever its size.
   */
  lemma PrepareOutstandingEmpty(rows: seq<Case>, view: string, now: int)
    ensures PrepareOutstanding(rows, view, now) == Some(([], NoCases)) <==> |rows| == 0
    ensures PrepareOutstanding(rows, view, now) == Some(([], NoneOutstanding)) <==> |rows| > 0 && |OutstandingCases(rows, now)| == 0
  {
  }

  /** Otherwise the summary counts the whole frame and its outstanding cases. */
  lemma PrepareOutstandingStats(rows: seq<Case>, view: string, now: int)
    requires PrepareOutstanding(rows, view, now).Some? && |rows| > 0 && |OutstandingCases(rows, now)| > 0
    ensures var r := PrepareOutstanding(rows, view, now).value;
      r.1 == SummaryOf(|rows|, OutstandingCases(rows, now)) &&
      r.0 == OutstandingView(OutstandingCases(rows, now), view).value &&
      r.1.total == |rows| && r.1.outstanding == |OutstandingCases(rows, now)|
  {
  }

  /** A case is counted iff it is outstanding. */
  lemma OutstandingMembers(rows: seq<Case>, now: int, c: Case)
    ensures (exists k :: k in OutstandingCases(rows, now) && k.row == c) <==> c in rows && IsOutstanding(c)
  {
    var cl := ClassifyCases(rows, now);
    if c in rows && IsOutstanding(c) {
      var i :| 0 <= i < |rows| && rows[i] == c;
      assert cl[i] in cl && cl[i].row == c;
    }
    if exists k :: k in OutstandingCases(rows, now) && k.row == c {
      var k :| k in OutstandingCases(rows, now) && k.row == c;
      ClassifiedRow(rows, now, k);
    }
  }

  /** Every classified row comes from a case of the frame and records whether that case is outstanding. */
  lemma ClassifiedRow(rows: seq<Case>, now: int, k: Classified)
    requires k in ClassifyCases(rows, now)
    ensures k.row in rows && k.outstanding == IsOutstanding(k.row)
  {
    var cl := ClassifyCases(rows, now);
    var i :| 0 <= i < |cl| && cl[i] == k;
    assert rows[i] == k.row;
  }

  lemma AssignmentViewIs(out: seq<Classified>)
    ensures OutstandingView(out, "assignment") == Some(SortedCounts(Map(out, AssignmentLabel), AssignmentKey(|out|)))
  {
  }

  lemma ViolationViewIs(out: seq<Classified>)
    ensures OutstandingView(out, "violation") == Some(SortedCounts(Map(out, FirstViolationLabel), CountDescending))
  {
  }

  /** The summary's counts are nested as their definitions promise. */
  lemma SummaryBounds(total: nat, out: seq<Classified>)
    ensures var s := SummaryOf(total, out);
      s.stale <= s.aging <= s.outstanding &&
      s.critical + s.high <= s.outstanding &&
      s.unassigned <= s.outstanding
  {
    FilterImplies(out, OpenOver90, OpenOver30);
    CountTwo(Map(out, FinalNameOf), "CRITICAL", "HIGH");
  }

  /** The severity view's counts add up to the outstanding cases. */
  lemma SeverityViewTotal(out: seq<Classified>)
    ensures Sum(Map(OutstandingView(out, "severity").value, CountOf)) == |out|
  {
    var names := Map(out, FinalNameOf);
    forall x | x in names ensures x in SeverityViewOrder {
      var i :| 0 <= i < |names| && names[i] == x;
      SeverityNameListed(out[i].final);
    }
    SeverityOrderDistinct();
    CountsInOrderTotal(SeverityViewOrder, names);
  }

  /** The age view's counts add up to the outstanding cases. */
  lemma AgeViewTotal(out: seq<Classified>)
    ensures Sum(Map(OutstandingView(out, "age").value, CountOf)) == |out|
  {
    var ages := Map(out, AgeBucketOf);
    forall x | x in ages ensures x in AgeOrder {
      var i :| 0 <= i < |ages| && ages[i] == x;
      AgeBucketListed(out[i].daysOpen);
    }
    AgeOrderDistinct();
    CountsInOrderTotal(AgeOrder, ages);
  }

  lemma SeverityNameListed(s: Severity)
    ensures SeverityName(s) in SeverityViewOrder
  {
  }

  lemma AgeBucketListed(days: int)
    ensures AgeBucket(days) in AgeOrder
  {
  }

  lemma SeverityOrderDistinct()
    ensures NoDuplicates(SeverityViewOrder)
  {
  }

  lemma AgeOrderDistinct()
    ensures NoDuplicates(AgeOrder)
  {
  }

  /** Sorted category counts add up to the number of categorised cases. */
  lemma SortedCountsTotal(cats: seq<string>, key: ((string, nat)) -> int)
    ensures Sum(Map(SortedCounts(cats, key), CountOf)) == |cats|
  {
    var keys := Distinct(cats);
    SumMapSort(CountedBy(keys, cats), key, CountOf);
    CountedBySum(keys, cats);
    GroupCountsSum(keys, cats);
  }

  /** The assignment and violation views' counts add up to the outstanding cases too. */
  lemma SortedViewsTotal(out: seq<Classified>)
    ensures Sum(Map(OutstandingView(out, "assignment").value, CountOf)) == |out|
    ensures Sum(Map(OutstandingView(out, "violation").value, CountOf)) == |out|
  {
    AssignmentViewIs(out);
    ViolationViewIs(out);
    SortedCountsTotal(Map(out, AssignmentLabel), AssignmentKey(|out|));
    SortedCountsTotal(Map(out, FirstViolationLabel), CountDescending);
  }

  /** The violation view lists larger groups first. */
  lemma ViolationViewDescending(out: seq<Classified>)
    ensures var bars := OutstandingView(out, "violation").value;
      forall i, j :: 0 <= i < j < |bars| ==> bars[i].1 >= bars[j].1
  {
    ViolationViewIs(out);
    var bars := OutstandingView(out, "violation").value;
    assert SortedBy(bars, CountDescending);
    forall i, j | 0 <= i < j < |bars| ensures bars[i].1 >= bars[j].1 {
      assert CountDescending(bars[i]) <= CountDescending(bars[j]);
    }
  }

  /** Unassigned bars come before assignees' bars, and within each kind larger counts come first. */
  predicate UnassignedFirstThenLarger(bars: seq<(string, nat)>)
  {
    forall i, j :: 0 <= i < j < |bars| ==>
      (Contains(bars[j].0, UnassignedLabel) ==> Contains(bars[i].0, UnassignedLabel)) &&
      (Contains(bars[i].0, UnassignedLabel) == Contains(bars[j].0, UnassignedLabel) ==> bars[i].1 >= bars[j].1)
  }

  /** The assignment view lists the unassigned group before every assignee, and groups by descending count. */
  lemma AssignmentViewOrdered(out: seq<Classified>)
    ensures UnassignedFirstThenLarger(OutstandingView(out, "assignment").value)
  {
    var cats := Map(out, AssignmentLabel);
    var pairs := CountedBy(Distinct(cats), cats);
    AssignmentViewIs(out);
    CountsBounded(Distinct(cats), cats);
    AssignmentBarsOrdered(SortBy(pairs, AssignmentKey(|out|)), pairs, |out|);
  }

  lemma CountsBounded(keys: seq<string>, cats: seq<string>)
    ensures forall e :: e in CountedBy(keys, cats) ==> e.1 <= |cats|
  {
  }

  lemma AssignmentBarsOrdered(bars: seq<(string, nat)>, pairs: seq<(string, nat)>, n: nat)
    requires SortedBy(bars, AssignmentKey(n)) && multiset(bars) == multiset(pairs)
    requires forall e :: e in pairs ==> e.1 <= n
    ensures UnassignedFirstThenLarger(bars)
  {
    forall i, j | 0 <= i < j < |bars|
      ensures (Contains(bars[j].0, UnassignedLabel) ==> Contains(bars[i].0, UnassignedLabel)) &&
        (Contains(bars[i].0, UnassignedLabel) == Contains(bars[j].0, UnassignedLabel) ==> bars[i].1 >= bars[j].1)
    {
      assert bars[i] in multiset(pairs) && bars[j] in multiset(pairs);
      KeyOrderPair(bars[i], bars[j], n);
    }
  }

  /** Two bars in assignment-key order: unassigned before assigned, and larger before smaller within each. */
  lemma KeyOrderPair(a: (string, nat), b: (string, nat), n: nat)
    requires a.1 <= n && b.1 <= n
    requires AssignmentKey(n)(a) <= AssignmentKey(n)(b)
    ensures Contains(b.0, UnassignedLabel) ==> Contains(a.0, UnassignedLabel)
    ensures Contains(a.0, UnassignedLabel) == Contains(b.0, UnassignedLabel) ==> a.1 >= b.1
  {
  }

  /** The severity view's CRITICAL and HIGH bars carry the summary's critical and high counts. */
  lemma SeverityViewMatchesSummary(total: nat, out: seq<Classified>)
    ensures var s := SummaryOf(total, out);
      forall e :: e in OutstandingView(out, "severity").value ==>
        (e.0 == "CRITICAL" ==> e.1 == s.critical) && (e.0 == "HIGH" ==> e.1 == s.high)
  {
  }

  /** The assignment view's unassigned bar carries the summary's unassigned count. */
  lemma AssignmentViewMatchesSummary(total: nat, out: seq<Classified>)
    ensures var s := SummaryOf(total, out);
      forall e :: e in OutstandingView(out, "assignment").value && e.0 == UnassignedLabel ==> e.1 == s.unassigned
  {
    var cats := Map(out, AssignmentLabel);
    AssignmentViewIs(out);
    forall k | k in out ensures UnassignedRow(k) == (AssignmentLabel(k) == UnassignedLabel) {
      UnassignedLabelIff(k);
    }
    CountMapFilter(out, AssignmentLabel, UnassignedLabel, UnassignedRow);
    var pairs := CountedBy(Distinct(cats), cats);
    forall e | e in SortBy(pairs, AssignmentKey(|out|)) ensures e.1 == Count(cats, e.0) {
      assert e in multiset(pairs);
    }
  }

  /** Only an unassigned case gets the unassigned label: an assignee's label starts differently. */
  lemma UnassignedLabelIff(k: Classified)
    ensures UnassignedRow(k) == (AssignmentLabel(k) == UnassignedLabel)
  {
    if !UnassignedRow(k) {
      assert AssignmentLabel(k)[0] == '👤' != UnassignedLabel[0];
    }
  }
}
