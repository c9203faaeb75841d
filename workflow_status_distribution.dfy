/**
 * The status-distribution panel: its dataset filter, the per-status counts
 * with each status's category, the grouping of small statuses for the pie
 * chart, and the three insight lines beneath it.
 */
module WorkflowStatusDistribution {
  import opened Common
  import opened WorkflowData
  import opened WorkflowFilters
  import opened WorkflowSummaryCards

  // ---------------------------------------------------------------------
  // The dataset filter

  /** Rows without a CreatedOn are dropped; with a range, CreatedOn must lie inside it. */
  predicate StatusDateTest(w: WorkItem, range: Option<(int, int)>)
  {
    w.createdOn.Some? && (range.None? || CreatedWithin(w, DayStart(range.value.0), DayStart(range.value.1)))
  }

  /** `apply_status_distribution_filters` once the range and the selections are read. */
  function StatusFilter(items: seq<WorkItem>, range: Option<(int, int)>, sel: Selections): (r: seq<WorkItem>)
    ensures |r| <= |items|
    ensures forall w :: w in r ==> w in items && StatusDateTest(w, range)
  {
    if |items| == 0 then items
    else
      NarrowAllIsConjunction(Filter(items, (w: WorkItem) => StatusDateTest(w, range)), ItemCell, sel, ItemFilterOrder);
      NarrowAll(Filter(items, (w: WorkItem) => StatusDateTest(w, range)), ItemCell, sel, ItemFilterOrder)
  }

  /** As written: the range is looked up under StartDate/EndDate. */
  function ApplyStatusFiltersAsWritten(items: seq<WorkItem>, stored: Option<Store>): (r: seq<WorkItem>)
    ensures var st := StoreOf(stored);
      forall w :: w in r <==> w in items && StatusDateTest(w, StoreRange(st, "StartDate", "EndDate")) && MatchesAll(w, ItemCell, StoredSelections(st), ItemFilterOrder)
  {
    var st := StoreOf(stored);
    StatusFilterSpec(items, StoreRange(st, "StartDate", "EndDate"), StoredSelections(st));
    StatusFilter(items, StoreRange(st, "StartDate", "EndDate"), StoredSelections(st))
  }

  /** As intended: the range is read from the keys the filter panel writes. */
  function ApplyStatusFilters(items: seq<WorkItem>, stored: Option<Store>): (r: seq<WorkItem>)
    ensures var st := StoreOf(stored);
      forall w :: w in r <==> w in items && StatusDateTest(w, StoreRange(st, "Day_From", "Day_To")) && MatchesAll(w, ItemCell, StoredSelections(st), ItemFilterOrder)
  {
    var st := StoreOf(stored);
    StatusFilterSpec(items, StoreRange(st, "Day_From", "Day_To"), StoredSelections(st));
    StatusFilter(items, StoreRange(st, "Day_From", "Day_To"), StoredSelections(st))
  }

  /** The filter keeps, in order, exactly the dated items in range that all ten selections admit. */
  lemma StatusFilterSpec(items: seq<WorkItem>, range: Option<(int, int)>, sel: Selections)
    ensures StatusFilter(items, range, sel) ==
      Filter(items, (w: WorkItem) => StatusDateTest(w, range) && MatchesAll(w, ItemCell, sel, ItemFilterOrder))
  {
    NarrowAfterFilter(items, (w: WorkItem) => StatusDateTest(w, range),
                      (w: WorkItem) => StatusDateTest(w, range) && MatchesAll(w, ItemCell, sel, ItemFilterOrder),
                      ItemCell, sel, ItemFilterOrder);
  }

  /** On a store the filter panel wrote, the filter as written applies no range and the intended one the panel's. */
  lemma StatusPanelRange(items: seq<WorkItem>, start: Option<int>, end: Option<int>, today: int, s: Selections)
    ensures var st := FilterDataQuery(start, end, today, s);
      ApplyStatusFiltersAsWritten(items, Some(st)) == StatusFilter(items, None, StoredSelections(st))
    ensures var st := FilterDataQuery(start, end, today, s);
      ApplyStatusFilters(items, Some(st)) ==
        StatusFilter(items, Some((if start.Some? then start.value else StartPlaceholderDay, if end.Some? then end.value else today)),
                     StoredSelections(st))
  {
    PanelRangeKeys(start, end, today, s);
  }

  // ---------------------------------------------------------------------
  // Status categories

  /** A row of the status dimension table: a status name and its item type. */
  datatype StatusDimRow = StatusDimRow(status: Option<string>, item: Option<string>)

  /** A category and the substrings that select it. */
  datatype Rule = Rule(category: string, terms: seq<string>)

  /** The rules applied to a status's item type from the dimension table. */
  const ItemRules: seq<Rule> := [
    Rule("Open", ["open", "new", "created"]),
    Rule("In Progress", ["progress", "working", "active"]),
    Rule("Escalated", ["escalated", "escalation"]),
    Rule("Closed", ["closed", "resolved", "completed"]),
    Rule("On Hold", ["hold", "waiting", "pending"])]

  /** The rules applied to the status name itself when the table does not decide. */
  const NameRules: seq<Rule> := [
    Rule("Open", ["open", "new", "created", "not started"]),
    Rule("In Progress", ["in progress", "working", "assigned", "active"]),
    Rule("Escalated", ["escalated", "escalation"]),
    Rule("Closed", ["closed", "resolved", "completed", "done"]),
    Rule("On Hold", ["hold", "waiting", "pending"]),
    Rule("Cancelled", ["cancelled", "canceled"])]

  /** `any(term in s for term in terms)`. */
  predicate AnyTerm(s: string, terms: seq<string>)
  {
    exists i :: 0 <= i < |terms| && Contains(s, terms[i])
  }

  /** The category of the first rule one of whose terms occurs in `s` (the if/elif chain). */
  function FirstRule(rules: seq<Rule>, s: string): (r: Option<string>)
    ensures r.None? <==> forall i :: 0 <= i < |rules| ==> !AnyTerm(s, rules[i].terms)
    ensures r.Some? ==> exists i :: 0 <= i < |rules| && AnyTerm(s, rules[i].terms) && rules[i].category == r.value &&
                                    forall j :: 0 <= j < i ==> !AnyTerm(s, rules[j].terms)
  {
    if |rules| == 0 then None
    else if AnyTerm(s, rules[0].terms) then Some(rules[0].category)
    else
      var rest := FirstRule(rules[1..], s);
      assert forall i :: 1 <= i < |rules| ==> rules[i] == rules[1..][i - 1];
      rest
  }

  /** A dimension row whose lower-cased status equals the lower-cased name (a null status matches nothing). */
  predicate DimMatches(row: StatusDimRow, lowered: string)
  {
    row.status.Some? && Lower(row.status.value) == lowered
  }

  /** The first dimension row matching a lower-cased status name (`matching_status.iloc[0]`). */
  function FirstDimRow(table: seq<StatusDimRow>, lowered: string): (r: Option<nat>)
    ensures r.Some? ==> r.value < |table| && DimMatches(table[r.value], lowered) &&
                        forall j :: 0 <= j < r.value ==> !DimMatches(table[j], lowered)
    ensures r.None? ==> forall j :: 0 <= j < |table| ==> !DimMatches(table[j], lowered)
  {
    if |table| == 0 then None
    else if DimMatches(table[0], lowered) then Some(0)
    else
      var rest := FirstDimRow(table[1..], lowered);
      assert forall j :: 1 <= j < |table| ==> table[j] == table[1..][j - 1];
      if rest.Some? then Some(rest.value + 1) else None
  }

  /** What the dimension table says of a status: the item type of its first matching row, if that row has one and a rule fires. */
  function TableCategory(table: seq<StatusDimRow>, lowered: string): Option<string>
  {
    var k := FirstDimRow(table, lowered);
    if k.Some? && table[k.value].item.Some? then FirstRule(ItemRules, Lower(table[k.value].item.value)) else None
  }

  /**
   * `categorize_status_enhanced`: a null status is "Unknown"; otherwise the
   * dimension table's verdict, else the first name rule that fires, else "Other".
   */
  function CategorizeStatus(status: Option<string>, table: seq<StatusDimRow>): (r: string)
    ensures status.None? <==> r == "Unknown"
    ensures r == "Other" ==> forall i :: 0 <= i < |NameRules| ==> !AnyTerm(Lower(status.value), NameRules[i].terms)
    ensures r == "Cancelled" ==> status.Some? && AnyTerm(Lower(status.value), ["cancelled", "canceled"])
    ensures r in StatusCategories
  {
    if status.None? then "Unknown"
    else
      var lowered := Lower(status.value);
      var fromTable := TableCategory(table, lowered);
      if fromTable.Some? then ItemRuleCategory(table, lowered); fromTable.value
      else
        var fromName := FirstRule(NameRules, lowered);
        NameRuleCategory(lowered);
        if fromName.Some? then fromName.value else "Other"
  }

  /** Every category a status can be given. */
  const StatusCategories: set<string> := {"Unknown", "Open", "In Progress", "Escalated", "Closed", "On Hold", "Cancelled", "Other"}

  /** The dimension table only yields the five item-type categories. */
  lemma ItemRuleCategory(table: seq<StatusDimRow>, lowered: string)
    ensures var c := TableCategory(table, lowered);
      c.Some? ==> c.value in StatusCategories && c.value != "Cancelled" && c.value != "Other" && c.value != "Unknown"
  {
    var k := FirstDimRow(table, lowered);
    if k.Some? && table[k.value].item.Some? && FirstRule(ItemRules, Lower(table[k.value].item.value)).Some? {
      var i := FiringRule(ItemRules, Lower(table[k.value].item.value));
      ItemCategoryNamed(ItemRules[i].category, i);
    }
  }

  /** The category of the item-type rule at index `i`. */
  lemma ItemCategoryNamed(c: string, i: nat)
    requires i < |ItemRules| && c == ItemRules[i].category
    ensures c in StatusCategories && c != "Cancelled" && c != "Other" && c != "Unknown"
  {
    if i == 0 { assert c == "Open"; }
    else if i == 1 { assert c == "In Progress"; }
    else if i == 2 { assert c == "Escalated"; }
    else if i == 3 { assert c == "Closed"; }
    else { assert c == "On Hold"; }
  }

  /** The name rules only yield their six categories, and "Cancelled" only from its own terms. */
  lemma NameRuleCategory(lowered: string)
    ensures var c := FirstRule(NameRules, lowered);
      c.Some? ==> c.value in StatusCategories && c.value != "Other" && c.value != "Unknown" &&
                  (c.value == "Cancelled" ==> AnyTerm(lowered, ["cancelled", "canceled"]))
  {
    if FirstRule(NameRules, lowered).Some? {
      var i := FiringRule(NameRules, lowered);
      RuleCategoryNamed(NameRules[i].category, i);
      if i == 5 {
        assert NameRules[i] == Rule("Cancelled", ["cancelled", "canceled"]);
      }
    }
  }

  /** The category of the name rule at index `i`. */
  lemma RuleCategoryNamed(c: string, i: nat)
    requires i < |NameRules| && c == NameRules[i].category
    ensures c in StatusCategories && c != "Other" && c != "Unknown" && (c == "Cancelled" <==> i == 5)
  {
    if i == 0 { assert c == "Open"; }
    else if i == 1 { assert c == "In Progress"; }
    else if i == 2 { assert c == "Escalated"; }
    else if i == 3 { assert c == "Closed"; }
    else if i == 4 { assert c == "On Hold"; }
    else { assert c == "Cancelled"; }
  }

  /** The rule whose category `FirstRule` returns. */
  lemma FiringRule(rules: seq<Rule>, s: string) returns (i: nat)
    requires FirstRule(rules, s).Some?
    ensures i < |rules| && AnyTerm(s, rules[i].terms) && rules[i].category == FirstRule(rules, s).value
  {
    i :| i < |rules| && AnyTerm(s, rules[i].terms) && rules[i].category == FirstRule(rules, s).value;
  }

  /** Categories ignore letter case: statuses that lower-case alike get the same category. */
  lemma CategoryIgnoresCase(a: string, b: string, table: seq<StatusDimRow>)
    requires Lower(a) == Lower(b)
    ensures CategorizeStatus(Some(a), table) == CategorizeStatus(Some(b), table)
  {
  }

  /** Without a dimension table the status name alone decides. */
  lemma EmptyTableUsesName(s: string)
    ensures CategorizeStatus(Some(s), []) ==
      (if FirstRule(NameRules, Lower(s)).Some? then FirstRule(NameRules, Lower(s)).value else "Other")
  {
  }

  // ---------------------------------------------------------------------
  // Per-status counts (`prepare_status_distribution_data`)

  /** One row of the prepared table. */
  datatype StatusRow = StatusRow(status: string, count: nat, escalated: nat, category: string)

  function RowCount(r: StatusRow): int { r.count }
  function RowEscalated(r: StatusRow): int { r.escalated }
  function CategoryOf(r: StatusRow): string { r.category }
  /** `sort_values('Count', ascending=False)`: the sort key is the negated count. */
  function CountKey(r: StatusRow): int { -(r.count as int) }

  /** The non-null statuses of the items, in order (what `value_counts` counts). */
  function Statuses(items: seq<WorkItem>): (r: seq<string>)
    ensures |r| <= |items|
  {
    if |items| == 0 then []
    else (if items[0].status.Some? then [items[0].status.value] else []) + Statuses(items[1..])
  }

  predicate IsEscalatedItem(w: WorkItem)
  {
    w.isEscalated == Some("1")
  }

  /** The non-null statuses of the escalated items (`IsEscalated == '1'`). */
  function EscalatedStatuses(items: seq<WorkItem>): (r: seq<string>)
    ensures |r| <= |items|
  {
    if |items| == 0 then []
    else (if items[0].status.Some? && IsEscalatedItem(items[0]) then [items[0].status.value] else []) + EscalatedStatuses(items[1..])
  }

  /** A status's escalated count never exceeds its count. */
  lemma {:induction false} EscalatedWithinCount(items: seq<WorkItem>, s: string)
    ensures Count(EscalatedStatuses(items), s) <= Count(Statuses(items), s)
  {
    if |items| > 0 {
      EscalatedWithinCount(items[1..], s);
      var a := if items[0].status.Some? && IsEscalatedItem(items[0]) then [items[0].status.value] else [];
      var b := if items[0].status.Some? then [items[0].status.value] else [];
      CountAppend(a, EscalatedStatuses(items[1..]), s);
      CountAppend(b, Statuses(items[1..]), s);
    }
  }

  function RowOf(items: seq<WorkItem>, table: seq<StatusDimRow>, s: string): (r: StatusRow)
    ensures r.escalated <= r.count
  {
    EscalatedWithinCount(items, s);
    StatusRow(s, Count(Statuses(items), s), Count(EscalatedStatuses(items), s), CategorizeStatus(Some(s), table))
  }

  function RowsFor(keys: seq<string>, items: seq<WorkItem>, table: seq<StatusDimRow>): (r: seq<StatusRow>)
    ensures |r| == |keys|
    ensures forall i :: 0 <= i < |keys| ==> r[i] == RowOf(items, table, keys[i])
  {
    if |keys| == 0 then [] else [RowOf(items, table, keys[0])] + RowsFor(keys[1..], items, table)
  }

  /**
   * One row per distinct non-null status with its count, escalated count and
   * category, most frequent first.
   */
  function StatusCounts(items: seq<WorkItem>, table: seq<StatusDimRow>): (r: seq<StatusRow>)
    ensures SortedBy(r, CountKey)
    ensures forall x :: x in r ==> x.escalated <= x.count
  {
    var rows := RowsFor(Distinct(Statuses(items)), items, table);
    var r := SortBy(rows, CountKey);
    assert forall x :: x in r ==> x in multiset(rows);
    r
  }

  /** A sequence of rows holds each status at most once. */
  predicate UniqueStatuses(rows: seq<StatusRow>)
  {
    forall i, j :: 0 <= i < j < |rows| ==> rows[i].status != rows[j].status
  }

  /** Sorting keeps the same rows. */
  lemma SortedRowsSame(items: seq<WorkItem>, table: seq<StatusDimRow>)
    ensures forall x :: x in StatusCounts(items, table) <==> x in RowsFor(Distinct(Statuses(items)), items, table)
  {
    var rows := RowsFor(Distinct(Statuses(items)), items, table);
    var r := SortBy(rows, CountKey);
    assert multiset(r) == multiset(rows);
    forall x ensures x in r <==> x in rows {
      assert x in r <==> x in multiset(r);
      assert x in rows <==> x in multiset(rows);
    }
  }

  /** Every row carries its status's number of occurrences and its category. */
  lemma StatusCountsRows(items: seq<WorkItem>, table: seq<StatusDimRow>)
    ensures forall x :: x in StatusCounts(items, table) ==>
      x.count == Count(Statuses(items), x.status) > 0 && x.category == CategorizeStatus(Some(x.status), table)
    ensures forall x :: x in StatusCounts(items, table) ==> x == RowOf(items, table, x.status)
  {
    var keys := Distinct(Statuses(items));
    var rows := RowsFor(keys, items, table);
    SortedRowsSame(items, table);
    forall x | x in rows ensures x.count == Count(Statuses(items), x.status) > 0 && x == RowOf(items, table, x.status) {
      var k :| 0 <= k < |rows| && rows[k] == x;
      assert keys[k] in keys;
    }
  }

  /** Every status of the items has a row, and only they do. */
  lemma StatusCountsCover(items: seq<WorkItem>, table: seq<StatusDimRow>, s: string)
    ensures s in Statuses(items) <==> exists x :: x in StatusCounts(items, table) && x.status == s
  {
    SortedRowsSame(items, table);
    if s in Statuses(items) {
      StatusRowPresent(items, table, s);
    }
    if exists x :: x in StatusCounts(items, table) && x.status == s {
      var x :| x in StatusCounts(items, table) && x.status == s;
      StatusRowKnown(items, table, x);
    }
  }

  lemma StatusRowPresent(items: seq<WorkItem>, table: seq<StatusDimRow>, s: string)
    requires s in Statuses(items)
    ensures RowOf(items, table, s) in RowsFor(Distinct(Statuses(items)), items, table)
  {
    var keys := Distinct(Statuses(items));
    var k :| 0 <= k < |keys| && keys[k] == s;
    assert RowsFor(keys, items, table)[k] == RowOf(items, table, s);
  }

  lemma StatusRowKnown(items: seq<WorkItem>, table: seq<StatusDimRow>, x: StatusRow)
    requires x in RowsFor(Distinct(Statuses(items)), items, table)
    ensures x.status in Statuses(items)
  {
    var keys := Distinct(Statuses(items));
    var rows := RowsFor(keys, items, table);
    var k :| 0 <= k < |rows| && rows[k] == x;
    assert keys[k] in keys;
  }

  /** No status has two rows. */
  lemma StatusCountsUnique(items: seq<WorkItem>, table: seq<StatusDimRow>)
    ensures UniqueStatuses(StatusCounts(items, table))
    ensures |StatusCounts(items, table)| == |Distinct(Statuses(items))|
  {
    var keys := Distinct(Statuses(items));
    var rows := RowsFor(keys, items, table);
    var r := SortBy(rows, CountKey);
    assert NoDuplicates(rows) by {
      forall i, j | 0 <= i < j < |rows| ensures rows[i] != rows[j] {
        assert rows[i].status == keys[i] && rows[j].status == keys[j];
      }
    }
    PermutationNoDuplicates(rows, r);
    StatusCountsRows(items, table);
    forall i, j | 0 <= i < j < |r| ensures r[i].status != r[j].status {
      assert r[i] in r && r[j] in r;
      assert r[i] == RowOf(items, table, r[i].status);
      assert r[j] == RowOf(items, table, r[j].status);
      assert r[i] != r[j];
    }
  }

  /** The counts add up to the number of items with a status: grouping by status loses no ticket. */
  lemma StatusCountsTotal(items: seq<WorkItem>, table: seq<StatusDimRow>)
    ensures Sum(Map(StatusCounts(items, table), RowCount)) == |Statuses(items)|
  {
    var keys := Distinct(Statuses(items));
    var rows := RowsFor(keys, items, table);
    SumMapSort(rows, CountKey, RowCount);
    RowCountsAreCounts(keys, items, table);
    GroupCountsSum(keys, Statuses(items));
  }

  lemma {:induction false} RowCountsAreCounts(keys: seq<string>, items: seq<WorkItem>, table: seq<StatusDimRow>)
    ensures Sum(Map(RowsFor(keys, items, table), RowCount)) == SumCounts(keys, Statuses(items))
  {
    if |keys| > 0 {
      RowCountsAreCounts(keys[1..], items, table);
      var rows := RowsFor(keys, items, table);
      assert rows == [RowOf(items, table, keys[0])] + RowsFor(keys[1..], items, table);
      assert Map(rows, RowCount) == [RowCount(rows[0])] + Map(RowsFor(keys[1..], items, table), RowCount);
    }
  }

  /** The first row holds the most tickets. */
  lemma TopRowIsLargest(rows: seq<StatusRow>)
    requires SortedBy(rows, CountKey)
    ensures forall i :: 0 <= i < |rows| ==> rows[i].count <= rows[0].count
  {
    forall i | 0 < i < |rows| ensures rows[i].count <= rows[0].count {
      assert CountKey(rows[0]) <= CountKey(rows[i]);
    }
  }

  // ---------------------------------------------------------------------
  // Grouping for the pie chart (`group_statuses_intelligently`)

  /** A count's share of the total in tenths of a percent, rounded half up (`(c / total * 100).round(1)`). */
  function PercentTenths(c: int, total: int): int
  {
    if total <= 0 then 0 else (2000 * c + total) / (2 * total)
  }

  /** `cumsum()`: the running totals of a column. */
  function RunningTotals(xs: seq<int>): (r: seq<int>)
    ensures |r| == |xs|
    ensures forall i :: 0 <= i < |xs| ==> r[i] == Sum(xs[..i + 1])
  {
    if |xs| == 0 then []
    else
      var init := xs[..|xs| - 1];
      var r := RunningTotals(init) + [Sum(xs)];
      forall i | 0 <= i < |init| ensures r[i] == Sum(xs[..i + 1]) {
        assert xs[..i + 1] == init[..i + 1];
      }
      assert xs[..|xs|] == xs;
      r
  }

  function Percentages(rows: seq<StatusRow>, total: int): (r: seq<int>)
    ensures |r| == |rows|
    ensures forall i :: 0 <= i < |rows| ==> r[i] == PercentTenths(rows[i].count, total)
  {
    if |rows| == 0 then [] else [PercentTenths(rows[0].count, total)] + Percentages(rows[1..], total)
  }

  predicate AtMost85(p: int) { p <= 850 }

  /** How many running percentages stay at or under 85%. */
  function MajorCount(rows: seq<StatusRow>, total: int): (k: nat)
    ensures k <= |rows|
  {
    |Filter(RunningTotals(Percentages(rows, total)), AtMost85)|
  }

  /** The number of statuses shown individually: the 85% prefix, but at least three (or all) and at most eight. */
  function MajorCutoff(k: nat, n: nat): (r: nat)
    requires k <= n
    ensures r <= n
    ensures n >= 3 ==> 3 <= r <= 8
    ensures n < 3 ==> r == n
    ensures 3 <= k <= 8 ==> r == k
  {
    if k < 3 then (if 3 < n then 3 else n) else if k > 8 then 8 else k
  }

  /** A row's count is never negative, so neither is a column total of counts. */
  lemma {:induction false} SumNonNegative(xs: seq<StatusRow>, f: StatusRow -> int)
    requires forall x :: f(x) >= 0
    ensures Sum(Map(xs, f)) >= 0
  {
    if |xs| > 0 {
      SumNonNegative(xs[1..], f);
      assert Map(xs, f) == [f(xs[0])] + Map(xs[1..], f);
    }
  }

  /** The entry standing for one category's minor statuses: "Other <category> (<n> tickets)". */
  function GroupRow(minor: seq<StatusRow>, cat: string, n: nat): StatusRow
  {
    var esc := GroupSum(minor, CategoryOf, RowEscalated, cat);
    SumNonNegative(Where(minor, CategoryOf, cat), RowEscalated);
    StatusRow("Other " + cat + " (" + Grouped(n) + " tickets)", n, esc, cat)
  }

  /** One entry per category with a positive total, in the order of `keys`. */
  function GroupRows(keys: seq<string>, minor: seq<StatusRow>): (r: seq<StatusRow>)
    ensures |r| <= |keys|
    ensures forall x :: x in r ==> x.category in keys && x.count > 0
  {
    if |keys| == 0 then []
    else
      var n := GroupSum(minor, CategoryOf, RowCount, keys[0]);
      (if n > 0 then [GroupRow(minor, keys[0], n)] else []) + GroupRows(keys[1..], minor)
  }

  /** The statuses shown individually, after sorting by count. */
  function CutoffOf(sorted: seq<StatusRow>): (r: nat)
    ensures r <= |sorted|
  {
    var total := Sum(Map(sorted, RowCount));
    MajorCutoff(MajorCount(sorted, total), |sorted|)
  }

  /**
   * The pie chart's segments: the statuses before the cutoff individually and
   * the rest grouped by category, most tickets first.
   */
  function GroupStatuses(rows: seq<StatusRow>): (r: seq<StatusRow>)
    ensures SortedBy(r, CountKey)
    ensures |r| <= |rows|
  {
    var sorted := SortBy(rows, CountKey);
    var cut := CutoffOf(sorted);
    var minor := sorted[cut..];
    var keys := SortedUnique(Map(minor, CategoryOf));
    var groups := GroupRows(keys, minor);
    KeysWithin(minor);
    SortBy(sorted[..cut] + groups, CountKey)
  }

  /** There are no more categories among the rows than rows. */
  lemma KeysWithin(minor: seq<StatusRow>)
    ensures |SortedUnique(Map(minor, CategoryOf))| <= |minor|
  {
    var keys := SortedUnique(Map(minor, CategoryOf));
    AscendingDistinct(keys);
    DistinctWithin(keys, Map(minor, CategoryOf));
  }

  /** Grouping the categories of two key lists one after the other. */
  lemma {:induction false} GroupRowsAppend(a: seq<string>, b: seq<string>, minor: seq<StatusRow>)
    ensures GroupRows(a + b, minor) == GroupRows(a, minor) + GroupRows(b, minor)
  {
    if |a| == 0 {
      assert a + b == b;
    } else {
      assert (a + b)[0] == a[0] && (a + b)[1..] == a[1..] + b;
      GroupRowsAppend(a[1..], b, minor);
    }
  }

  /**
   * The loop over the grouped categories: each category with a positive
   * total appends its entry to the major statuses.
   */
  method AppendGroups(major: seq<StatusRow>, keys: seq<string>, minor: seq<StatusRow>) returns (grouped: seq<StatusRow>)
    ensures grouped == major + GroupRows(keys, minor)
  {
    grouped := major;
    var i := 0;
    while i < |keys|
      invariant 0 <= i <= |keys|
      invariant grouped == major + GroupRows(keys[..i], minor)
    {
      var n := GroupSum(minor, CategoryOf, RowCount, keys[i]);
      GroupLoopStep(major, keys, i, minor, grouped);
      if n > 0 {
        grouped := grouped + [GroupRow(minor, keys[i], n)];
      }
      i := i + 1;
    }
    assert keys[..i] == keys;
  }

  /** The loop's invariant survives one more key, whether or not its entry is appended. */
  lemma GroupLoopStep(major: seq<StatusRow>, keys: seq<string>, i: nat, minor: seq<StatusRow>, grouped: seq<StatusRow>)
    requires i < |keys| && grouped == major + GroupRows(keys[..i], minor)
    ensures var n := GroupSum(minor, CategoryOf, RowCount, keys[i]);
      (n > 0 ==> grouped + [GroupRow(minor, keys[i], n)] == major + GroupRows(keys[..i + 1], minor)) &&
      (n <= 0 ==> grouped == major + GroupRows(keys[..i + 1], minor))
  {
    var n := GroupSum(minor, CategoryOf, RowCount, keys[i]);
    GroupRowsStep(keys, i, minor);
    if n > 0 {
      AppendAssoc(major, GroupRows(keys[..i], minor), [GroupRow(minor, keys[i], n)]);
    }
  }

  /** One more key adds that category's entry, if its total is positive. */
  lemma GroupRowsStep(keys: seq<string>, i: nat, minor: seq<StatusRow>)
    requires i < |keys|
    ensures var n := GroupSum(minor, CategoryOf, RowCount, keys[i]);
      GroupRows(keys[..i + 1], minor) == if n > 0 then GroupRows(keys[..i], minor) + [GroupRow(minor, keys[i], n)] else GroupRows(keys[..i], minor)
  {
    assert keys[..i + 1] == keys[..i] + [keys[i]];
    GroupRowsAppend(keys[..i], [keys[i]], minor);
    GroupRowsSingle(keys[i], minor);
    assert GroupRows(keys[..i], minor) + [] == GroupRows(keys[..i], minor);
  }

  lemma GroupRowsSingle(k: string, minor: seq<StatusRow>)
    ensures var n := GroupSum(minor, CategoryOf, RowCount, k);
      GroupRows([k], minor) == (if n > 0 then [GroupRow(minor, k, n)] else [])
  {
    assert [k][1..] == [];
  }

  /** `group_statuses_intelligently` step by step: sort, cut, group the rest, append, sort again. */
  method GroupStatusesStepwise(rows: seq<StatusRow>) returns (r: seq<StatusRow>)
    ensures r == GroupStatuses(rows)
  {
    var sorted := SortBy(rows, CountKey);
    var cut := CutoffOf(sorted);
    var minor := sorted[cut..];
    var keys := SortedUnique(Map(minor, CategoryOf));
    var grouped := AppendGroups(sorted[..cut], keys, minor);
    r := SortBy(grouped, CountKey);
  }

  /** The entries for the grouped categories add up to the minor statuses' total. */
  lemma {:induction false} GroupRowsTotal(keys: seq<string>, minor: seq<StatusRow>)
    ensures Sum(Map(GroupRows(keys, minor), RowCount)) == GroupSums(keys, minor, CategoryOf, RowCount)
  {
    if |keys| > 0 {
      GroupRowsTotal(keys[1..], minor);
      var n := GroupSum(minor, CategoryOf, RowCount, keys[0]);
      var head := if n > 0 then [GroupRow(minor, keys[0], n)] else [];
      MapAppend(head, GroupRows(keys[1..], minor), RowCount);
      SumAppend(Map(head, RowCount), Map(GroupRows(keys[1..], minor), RowCount));
      SumNonNegative(Where(minor, CategoryOf, keys[0]), RowCount);
    }
  }

  /** The minor statuses' groups add up to the minor statuses' total. */
  lemma MinorTotal(minor: seq<StatusRow>)
    ensures Sum(Map(GroupRows(SortedUnique(Map(minor, CategoryOf)), minor), RowCount)) == Sum(Map(minor, RowCount))
  {
    var keys := SortedUnique(Map(minor, CategoryOf));
    GroupRowsTotal(keys, minor);
    AscendingDistinct(keys);
    forall x | x in minor ensures CategoryOf(x) in keys {
      var k :| 0 <= k < |minor| && minor[k] == x;
      assert Map(minor, CategoryOf)[k] == CategoryOf(x);
    }
    GroupSumsTotal(keys, minor, CategoryOf, RowCount);
  }

  /** A column total splits at any position. */
  lemma SumMapSplitAt(xs: seq<StatusRow>, k: nat, f: StatusRow -> int)
    requires k <= |xs|
    ensures Sum(Map(xs, f)) == Sum(Map(xs[..k], f)) + Sum(Map(xs[k..], f))
  {
    assert xs == xs[..k] + xs[k..];
    MapAppend(xs[..k], xs[k..], f);
    SumAppend(Map(xs[..k], f), Map(xs[k..], f));
  }

  /** Grouping loses no ticket: the segments add up to the table's total. */
  lemma GroupedTotal(rows: seq<StatusRow>)
    ensures Sum(Map(GroupStatuses(rows), RowCount)) == Sum(Map(rows, RowCount))
  {
    var sorted := SortBy(rows, CountKey);
    var cut := CutoffOf(sorted);
    var minor := sorted[cut..];
    var groups := GroupRows(SortedUnique(Map(minor, CategoryOf)), minor);
    var all := sorted[..cut] + groups;
    SumMapSort(all, CountKey, RowCount);
    assert all[..cut] == sorted[..cut] && all[cut..] == groups;
    SumMapSplitAt(all, cut, RowCount);
    MinorTotal(minor);
    SumMapSplitAt(sorted, cut, RowCount);
    SumMapSort(rows, CountKey, RowCount);
  }

  /** The statuses before the cutoff are shown as they are. */
  lemma MajorStatusesShown(rows: seq<StatusRow>, i: nat)
    requires i < CutoffOf(SortBy(rows, CountKey))
    ensures SortBy(rows, CountKey)[i] in GroupStatuses(rows)
  {
    var sorted := SortBy(rows, CountKey);
    var cut := CutoffOf(sorted);
    var minor := sorted[cut..];
    var groups := GroupRows(SortedUnique(Map(minor, CategoryOf)), minor);
    GroupStatusesUnfold(rows, sorted, cut, groups);
    PrefixKept(sorted, cut, groups, i);
  }

  /** The pie chart's segments, with the intermediate values named. */
  lemma GroupStatusesUnfold(rows: seq<StatusRow>, sorted: seq<StatusRow>, cut: nat, groups: seq<StatusRow>)
    requires sorted == SortBy(rows, CountKey) && cut == CutoffOf(sorted)
    requires groups == GroupRows(SortedUnique(Map(sorted[cut..], CategoryOf)), sorted[cut..])
    ensures GroupStatuses(rows) == SortBy(sorted[..cut] + groups, CountKey)
  {
  }

  /** A row before the cutoff survives the final sort. */
  lemma PrefixKept(sorted: seq<StatusRow>, cut: nat, groups: seq<StatusRow>, i: nat)
    requires i < cut <= |sorted|
    ensures sorted[i] in SortBy(sorted[..cut] + groups, CountKey)
  {
    var all := sorted[..cut] + groups;
    assert all[i] == sorted[i];
    SortByKeeps(all, CountKey, i);
  }

  /** With three statuses or more, between three and eight are shown individually. */
  lemma CutoffBounds(rows: seq<StatusRow>)
    ensures |rows| >= 3 ==> 3 <= CutoffOf(SortBy(rows, CountKey)) <= 8
    ensures |rows| < 3 ==> CutoffOf(SortBy(rows, CountKey)) == |rows|
  {
  }

  // ---------------------------------------------------------------------
  // The three insight lines (`generate_status_distribution_insights`)

  datatype Severity = Low | Moderate | High

  /** The status holding tickets longest, when the transition history names one (over an hour on average). */
  datatype Bottleneck = Bottleneck(status: string, count: nat)

  /** An insight line, by its kind and the numbers it shows. */
  datatype Insight =
    | UnresolvedShare(count: nat, percentTenths: int)
    | AllResolved(total: int)
    | EscalationActivity(count: nat, rateTenths: int, severity: Severity)
    | NoEscalations
    | BottleneckStatus(status: string, count: nat)
    | StatusFocus(status: string, count: nat, percentTenths: int)
    | NoDataHint(line: nat)
    | ErrorHint(line: nat)

  const NoDataInsights: seq<Insight> := [NoDataHint(0), NoDataHint(1), NoDataHint(2)]
  const ErrorInsights: seq<Insight> := [ErrorHint(0), ErrorHint(1), ErrorHint(2)]

  /** The tickets in Closed-category statuses. */
  function ClosedTickets(rows: seq<StatusRow>): int
  {
    Sum(Map(Where(rows, CategoryOf, "Closed"), RowCount))
  }

  /** Every ticket not in a Closed-category status. */
  function UnresolvedTickets(rows: seq<StatusRow>): (r: int)
    ensures r == Sum(Map(WhereNot(rows, CategoryOf, "Closed"), RowCount))
    ensures r >= 0
  {
    SumWhereSplit(rows, CategoryOf, "Closed", RowCount);
    SumNonNegative(WhereNot(rows, CategoryOf, "Closed"), RowCount);
    Sum(Map(rows, RowCount)) - ClosedTickets(rows)
  }

  /** "high" above a 10% escalation rate, "moderate" above 5%, else "low"; a zero total gives a zero rate. */
  function EscalationSeverity(escalated: nat, total: int): Severity
  {
    if total > 0 && 10 * escalated > total then High
    else if total > 0 && 20 * escalated > total then Moderate
    else Low
  }

  /** A quotient by a positive number exceeds a bound exactly when the dividend exceeds the bound times the divisor. */
  lemma QuotientAbove(x: real, t: real, c: real)
    requires t > 0.0
    ensures x / t > c <==> x > c * t
  {
    var q := x / t;
    assert q * t == x;
    if q > c {
      assert (q - c) * t > 0.0;
    }
    if x > c * t {
      assert (q - c) * t == x - c * t;
    }
  }

  /** The severity thresholds are the stated percentages of the rate. */
  lemma SeverityIsRate(escalated: nat, total: int)
    requires total > 0
    ensures EscalationSeverity(escalated, total) == High <==> (escalated as real) * 100.0 / (total as real) > 10.0
    ensures EscalationSeverity(escalated, total) != Low <==> (escalated as real) * 100.0 / (total as real) > 5.0
  {
    QuotientAbove((escalated as real) * 100.0, total as real, 10.0);
    QuotientAbove((escalated as real) * 100.0, total as real, 5.0);
  }

  /** More escalations never lower the severity. */
  lemma SeverityMonotone(a: nat, b: nat, total: int)
    requires a <= b
    ensures EscalationSeverity(a, total) == High ==> EscalationSeverity(b, total) == High
    ensures EscalationSeverity(a, total) != Low ==> EscalationSeverity(b, total) != Low
  {
  }

  /** The first two lines: unresolved tickets, then escalations over the filtered items. */
  function HeadInsights(rows: seq<StatusRow>, items: seq<WorkItem>): (r: seq<Insight>)
    ensures |r| == 2
  {
    var total := Sum(Map(rows, RowCount));
    var unresolved := UnresolvedTickets(rows);
    var escalated := |Filter(items, IsEscalatedItem)|;
    [if unresolved > 0 then UnresolvedShare(unresolved, PercentTenths(unresolved, total)) else AllResolved(total),
     if escalated > 0 then EscalationActivity(escalated, PercentTenths(escalated, total), EscalationSeverity(escalated, total))
     else NoEscalations]
  }

  /**
   * As written: without a bottleneck the fallback tests a pandas row for
   * truth, which raises, and the handler shows the three error lines.
   */
  function StatusInsightsAsWritten(rows: seq<StatusRow>, items: seq<WorkItem>, bottleneck: Option<Bottleneck>): (r: seq<Insight>)
    ensures |r| == 3
  {
    if |rows| == 0 || |items| == 0 then NoDataInsights
    else if bottleneck.None? then ErrorInsights
    else HeadInsights(rows, items) + [BottleneckStatus(bottleneck.value.status, bottleneck.value.count)]
  }

  /** As intended: without a bottleneck the third line names the status holding the most tickets. */
  function StatusInsights(rows: seq<StatusRow>, items: seq<WorkItem>, bottleneck: Option<Bottleneck>): (r: seq<Insight>)
    ensures |r| == 3
    ensures |rows| == 0 || |items| == 0 ==> r == NoDataInsights
    ensures |rows| > 0 && |items| > 0 ==> forall i :: 0 <= i < 3 ==> !r[i].NoDataHint? && !r[i].ErrorHint?
  {
    if |rows| == 0 || |items| == 0 then NoDataInsights
    else
      var third :=
        if bottleneck.Some? then BottleneckStatus(bottleneck.value.status, bottleneck.value.count)
        else StatusFocus(rows[0].status, rows[0].count, PercentTenths(rows[0].count, Sum(Map(rows, RowCount))));
      HeadInsights(rows, items) + [third]
  }

  /** With data but no bottleneck, the insights as written are the error lines; the intended ones name the top status. */
  lemma TopStatusFallbackRaises(rows: seq<StatusRow>, items: seq<WorkItem>)
    requires |rows| > 0 && |items| > 0
    ensures StatusInsightsAsWritten(rows, items, None) == ErrorInsights
    ensures StatusInsights(rows, items, None)[2].StatusFocus? && StatusInsights(rows, items, None)[2].status == rows[0].status
  {
  }

  /** A positive column total over positive counts is empty exactly when nothing is summed. */
  lemma {:induction false} PositiveSumZero(xs: seq<StatusRow>)
    requires forall x :: x in xs ==> x.count > 0
    ensures Sum(Map(xs, RowCount)) == 0 <==> |xs| == 0
  {
    if |xs| > 0 {
      PositiveSumZero(xs[1..]);
      assert Map(xs, RowCount) == [RowCount(xs[0])] + Map(xs[1..], RowCount);
      SumNonNegative(xs[1..], RowCount);
    }
  }

  /** The first line reports everything resolved exactly when every status is in the Closed category. */
  lemma AllResolvedIffAllClosed(rows: seq<StatusRow>, items: seq<WorkItem>)
    requires |rows| > 0 && |items| > 0
    requires forall x :: x in rows ==> x.count > 0
    ensures StatusInsights(rows, items, None)[0].AllResolved? <==> forall x :: x in rows ==> x.category == "Closed"
  {
    var open := WhereNot(rows, CategoryOf, "Closed");
    PositiveSumZero(open);
    if forall x :: x in rows ==> x.category == "Closed" {
      FilterNone(rows, (x: StatusRow) => CategoryOf(x) != "Closed");
    } else {
      var x :| x in rows && x.category != "Closed";
      assert CategoryOf(x) != "Closed";
      assert x in open;
    }
  }

  // ---------------------------------------------------------------------
  // The panel callback

  /** The status rows the chart and the insights are drawn from: none for an empty selection. */
  function PanelRows(filtered: seq<WorkItem>, table: seq<StatusDimRow>): seq<StatusRow>
  {
    if |filtered| == 0 then [] else StatusCounts(filtered, table)
  }

  /**
   * `update_status_distribution_chart` as written: the filter reads
   * StartDate/EndDate, and the insight lines raise without a bottleneck.
   */
  function StatusPanel(items: seq<WorkItem>, stored: Option<Store>, table: seq<StatusDimRow>, bottleneck: Option<Bottleneck>): (r: (seq<StatusRow>, seq<Insight>))
    ensures SortedBy(r.0, CountKey) && |r.1| == 3
    ensures |ApplyStatusFiltersAsWritten(items, stored)| == 0 ==> r.0 == [] && r.1 == NoDataInsights
  {
    var filtered := ApplyStatusFiltersAsWritten(items, stored);
    var rows := PanelRows(filtered, table);
    (GroupStatuses(rows), StatusInsightsAsWritten(rows, filtered, bottleneck))
  }

  /** The callback as intended: the panel's Day_From/Day_To range, and the top status as the fallback line. */
  function StatusPanelIntended(items: seq<WorkItem>, stored: Option<Store>, table: seq<StatusDimRow>, bottleneck: Option<Bottleneck>): (r: (seq<StatusRow>, seq<Insight>))
    ensures SortedBy(r.0, CountKey) && |r.1| == 3
    ensures |ApplyStatusFilters(items, stored)| == 0 ==> r.0 == [] && r.1 == NoDataInsights
  {
    var filtered := ApplyStatusFilters(items, stored);
    var rows := PanelRows(filtered, table);
    (GroupStatuses(rows), StatusInsights(rows, filtered, bottleneck))
  }

  /** The segments drawn from a selection add up to its tickets that have a status. */
  lemma SegmentsCount(filtered: seq<WorkItem>, table: seq<StatusDimRow>)
    ensures Sum(Map(GroupStatuses(PanelRows(filtered, table)), RowCount)) == |Statuses(filtered)|
  {
    GroupedTotal(PanelRows(filtered, table));
    if |filtered| > 0 { StatusCountsTotal(filtered, table); }
  }

  /** The chart's segments add up to the filtered tickets that have a status, as written and as intended. */
  lemma PanelSegmentsCountTickets(items: seq<WorkItem>, stored: Option<Store>, table: seq<StatusDimRow>, bottleneck: Option<Bottleneck>)
    ensures Sum(Map(StatusPanel(items, stored, table, bottleneck).0, RowCount)) == |Statuses(ApplyStatusFiltersAsWritten(items, stored))|
    ensures Sum(Map(StatusPanelIntended(items, stored, table, bottleneck).0, RowCount)) == |Statuses(ApplyStatusFilters(items, stored))|
  {
    SegmentsCount(ApplyStatusFiltersAsWritten(items, stored), table);
    SegmentsCount(ApplyStatusFilters(items, stored), table);
  }

  /**
   * The two callbacks draw the same segments whenever the two filters keep
   * the same items, in particular when the store holds the same range under
   * both pairs of keys; with a bottleneck their lines agree too, and without
   * one the lines as written are the error lines once a ticket has a status.
   */
  lemma StatusPanelAgrees(items: seq<WorkItem>, stored: Option<Store>, table: seq<StatusDimRow>, bottleneck: Option<Bottleneck>)
    ensures var st := StoreOf(stored);
      StoreRange(st, "StartDate", "EndDate") == StoreRange(st, "Day_From", "Day_To") ==>
        ApplyStatusFiltersAsWritten(items, stored) == ApplyStatusFilters(items, stored)
    ensures ApplyStatusFiltersAsWritten(items, stored) == ApplyStatusFilters(items, stored) ==>
      StatusPanel(items, stored, table, bottleneck).0 == StatusPanelIntended(items, stored, table, bottleneck).0
    ensures ApplyStatusFiltersAsWritten(items, stored) == ApplyStatusFilters(items, stored) && bottleneck.Some? ==>
      StatusPanel(items, stored, table, bottleneck).1 == StatusPanelIntended(items, stored, table, bottleneck).1
    ensures bottleneck.None? && |Statuses(ApplyStatusFiltersAsWritten(items, stored))| > 0 ==>
      StatusPanel(items, stored, table, bottleneck).1 == ErrorInsights
  {
    FiltersAgree(items, stored);
    SegmentsAgree(items, stored, table, bottleneck);
    LinesAgree(items, stored, table, bottleneck);
    LinesAsWrittenRaise(items, stored, table, bottleneck);
  }

  /** The same selection draws the same segments. */
  lemma SegmentsAgree(items: seq<WorkItem>, stored: Option<Store>, table: seq<StatusDimRow>, bottleneck: Option<Bottleneck>)
    ensures ApplyStatusFiltersAsWritten(items, stored) == ApplyStatusFilters(items, stored) ==>
      StatusPanel(items, stored, table, bottleneck).0 == StatusPanelIntended(items, stored, table, bottleneck).0
  {
    PanelsOf(items, stored, table, bottleneck);
  }

  /** With a bottleneck, the same selection gives the same lines. */
  lemma LinesAgree(items: seq<WorkItem>, stored: Option<Store>, table: seq<StatusDimRow>, bottleneck: Option<Bottleneck>)
    ensures ApplyStatusFiltersAsWritten(items, stored) == ApplyStatusFilters(items, stored) && bottleneck.Some? ==>
      StatusPanel(items, stored, table, bottleneck).1 == StatusPanelIntended(items, stored, table, bottleneck).1
  {
    var f := ApplyStatusFiltersAsWritten(items, stored);
    PanelsOf(items, stored, table, bottleneck);
    if bottleneck.Some? {
      InsightsAgreeWithBottleneck(PanelRows(f, table), f, bottleneck);
    }
  }

  /** Without a bottleneck, a selection with a status gives the error lines as written. */
  lemma LinesAsWrittenRaise(items: seq<WorkItem>, stored: Option<Store>, table: seq<StatusDimRow>, bottleneck: Option<Bottleneck>)
    ensures bottleneck.None? && |Statuses(ApplyStatusFiltersAsWritten(items, stored))| > 0 ==>
      StatusPanel(items, stored, table, bottleneck).1 == ErrorInsights
  {
    var f := ApplyStatusFiltersAsWritten(items, stored);
    PanelsOf(items, stored, table, bottleneck);
    if bottleneck.None? && |Statuses(f)| > 0 {
      StatusCountsTotal(f, table);
      TopStatusFallbackRaises(PanelRows(f, table), f);
    }
  }

  /** Both callbacks, with their selections and rows named. */
  lemma PanelsOf(items: seq<WorkItem>, stored: Option<Store>, table: seq<StatusDimRow>, bottleneck: Option<Bottleneck>)
    ensures var f := ApplyStatusFiltersAsWritten(items, stored);
      StatusPanel(items, stored, table, bottleneck) == (GroupStatuses(PanelRows(f, table)), StatusInsightsAsWritten(PanelRows(f, table), f, bottleneck))
    ensures var g := ApplyStatusFilters(items, stored);
      StatusPanelIntended(items, stored, table, bottleneck) == (GroupStatuses(PanelRows(g, table)), StatusInsights(PanelRows(g, table), g, bottleneck))
  {
  }

  /** The two filters differ only in the keys their date range is read under. */
  lemma FiltersAgree(items: seq<WorkItem>, stored: Option<Store>)
    ensures var st := StoreOf(stored);
      StoreRange(st, "StartDate", "EndDate") == StoreRange(st, "Day_From", "Day_To") ==>
        ApplyStatusFiltersAsWritten(items, stored) == ApplyStatusFilters(items, stored)
  {
    var st := StoreOf(stored);
    var written := StoreRange(st, "StartDate", "EndDate");
    var panel := StoreRange(st, "Day_From", "Day_To");
    if written == panel {
      calc {
        ApplyStatusFiltersAsWritten(items, stored);
        StatusFilter(items, written, StoredSelections(st));
        StatusFilter(items, panel, StoredSelections(st));
        ApplyStatusFilters(items, stored);
      }
    }
  }

  /** With a bottleneck the lines as written are the intended ones. */
  lemma InsightsAgreeWithBottleneck(rows: seq<StatusRow>, items: seq<WorkItem>, bottleneck: Option<Bottleneck>)
    requires bottleneck.Some?
    ensures StatusInsightsAsWritten(rows, items, bottleneck) == StatusInsights(rows, items, bottleneck)
  {
  }
}
