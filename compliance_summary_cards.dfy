/**
 * The compliance summary cards (src/callbacks/compliance_callbacks/compliance_summary_cards.py):
 * six headline figures of the filtered case frame, shown as text.
 *
 * The merged case frame always carries the Status, CreatedOn, ClosedOn,
 * ViolationName, MemberName and AssignedUser columns, so the code's
 * column-presence tests always pass and are not modelled. The mean
 * resolution time is kept exact (a `real`); its `:.1f` text is the
 * parameter `oneDecimal`.
 */
module ComplianceSummaryCards {
  import opened Common
  import opened ComplianceData

  // ---------------------------------------------------------------------
  // The row tests

  /** `Status != 'Closed'`: a missing status is not 'Closed', so the case counts as open. */
  predicate IsOpenCase(c: Case)
  {
    c.status != Some("Closed")
  }

  /** The cases the mean resolution time is taken over: closed, with both dates. */
  predicate IsResolvedCase(c: Case)
  {
    c.status == Some("Closed") && c.closedOn.Some? && c.createdOn.Some?
  }

  /** `(ClosedOn - CreatedOn).dt.days`: whole days, rounded down (a timedelta's days). */
  function ResolutionDays(c: Case): int
    requires IsResolvedCase(c)
  {
    (c.closedOn.value - c.createdOn.value) / DaySeconds
  }

  /** `any("Citation" in str(item) for item in x) if isinstance(x, list) and x else False`; `str(None)` is "None". */
  predicate CitesCitation(c: Case)
  {
    c.violations.Some? &&
    exists i :: (0 <= i < |c.violations.value| &&
                 c.violations.value[i].Some? && Contains(c.violations.value[i].value, "Citation"))
  }

  function MemberNameOf(c: Case): Option<string> { c.memberName }
  function AssignedUserOf(c: Case): Option<string> { c.assignedUser }

  /** The resolution days of the resolved cases, in row order. */
  function DaysOfResolved(cases: seq<Case>): (r: seq<int>)
    ensures |r| == |Filter(cases, IsResolvedCase)|
  {
    if |cases| == 0 then []
    else if IsResolvedCase(cases[0]) then [ResolutionDays(cases[0])] + DaysOfResolved(cases[1..])
    else DaysOfResolved(cases[1..])
  }

  /** `mean()` of the resolution days, 0 when there are none. */
  function MeanDays(days: seq<int>): real
  {
    if |days| == 0 then 0.0 else (Sum(days) as real) / (|days| as real)
  }

  /** The mean is positive exactly when there are days and their sum is positive. */
  lemma MeanDaysPositive(days: seq<int>)
    ensures MeanDays(days) > 0.0 <==> |days| > 0 && Sum(days) > 0
  {
    if |days| > 0 {
      var s, n := Sum(days) as real, |days| as real;
      assert MeanDays(days) * n == s;
    }
  }

  // ---------------------------------------------------------------------
  // Members with many cases and the busiest agent

  /** `groupby('MemberName').size()` keeps the named members; more than 10 cases make one high-risk. */
  function HighRiskMembers(cases: seq<Case>): nat
  {
    var names := Somes(Map(cases, MemberNameOf));
    |Filter(SortedUnique(names), MoreThanTen(names))|
  }

  /** `member_case_counts > 10`. */
  function MoreThanTen(names: seq<string>): string -> bool
  {
    m => Count(names, m) > 10
  }

  /** Filtering a duplicate-free list of the values keeps one entry per value that passes. */
  lemma FilterDistinctCard(keys: seq<string>, values: seq<string>, p: string -> bool)
    requires NoDuplicates(keys) && forall x :: x in keys <==> x in values
    ensures |Filter(keys, p)| == |set x | x in values && p(x)|
  {
    var kept := Filter(keys, p);
    FilterNoDuplicates(keys, p);
    DistinctCard(kept);
    var a, b := set x | x in kept, set x | x in values && p(x);
    assert a == b;
  }

  /** The distinct names that occur more than ten times. */
  function FrequentNames(names: seq<string>): set<string>
  {
    set m | m in names && Count(names, m) > 10
  }

  /** Over any list of names: one entry per distinct name occurring more than ten times. */
  lemma MoreThanTenCard(names: seq<string>)
    ensures |Filter(SortedUnique(names), MoreThanTen(names))| == |FrequentNames(names)|
  {
    var keys := SortedUnique(names);
    AscendingDistinct(keys);
    FilterDistinctCard(keys, names, MoreThanTen(names));
    var a := set m | m in names && MoreThanTen(names)(m);
    assert a == FrequentNames(names);
  }

  /** The high-risk count is the number of distinct member names that head more than ten cases. */
  lemma HighRiskMembersSpec(cases: seq<Case>)
    ensures HighRiskMembers(cases) == |FrequentNames(Somes(Map(cases, MemberNameOf)))|
  {
    MoreThanTenCard(Somes(Map(cases, MemberNameOf)));
  }

  /** A frame of at most ten cases has no high-risk member. */
  lemma FewCasesNoHighRisk(cases: seq<Case>)
    requires |cases| <= 10
    ensures HighRiskMembers(cases) == 0
  {
    var names := Somes(Map(cases, MemberNameOf));
    HighRiskMembersSpec(cases);
    assert FrequentNames(names) == {} by {
      forall m | m in names ensures Count(names, m) <= 10 { }
    }
  }

  /**
   * `groupby('AssignedUser').size()`, `idxmax()` and `max()` formatted as
   * "name (count)"; "N/A" when no case has an assignee. The groups come
   * sorted by name, and `idxmax` takes the first highest one.
   */
  function TopAgent(cases: seq<Case>): string
  {
    var agents := Somes(Map(cases, AssignedUserOf));
    if |agents| == 0 then "N/A"
    else
      var top := TopValue(agents);
      top + " (" + NatToString(Count(agents, top)) + ")"
  }

  /** No case has an assignee exactly when the agent list is empty, and the card then shows "N/A". */
  lemma TopAgentMissing(cases: seq<Case>)
    ensures var agents := Somes(Map(cases, AssignedUserOf));
      (|agents| == 0 <==> forall c :: c in cases ==> c.assignedUser.None?) &&
      (|agents| == 0 ==> TopAgent(cases) == "N/A")
  {
    var agents := Somes(Map(cases, AssignedUserOf));
    if |agents| > 0 {
      assert Some(agents[0]) in Map(cases, AssignedUserOf);
    }
  }

  /**
   * With an assignee present, the card names an assignee with as many
   * cases as any other, no equally busy assignee sorts before it, and the
   * number in brackets is its case count.
   */
  lemma TopAgentSpec(cases: seq<Case>, other: string)
    requires |Somes(Map(cases, AssignedUserOf))| > 0
    ensures var agents := Somes(Map(cases, AssignedUserOf));
      var a := TopValue(agents);
      a in agents && TopAgent(cases) == a + " (" + NatToString(Count(agents, a)) + ")" &&
      (other in agents ==>
         (Count(agents, other) <= Count(agents, a) &&
          (Count(agents, other) == Count(agents, a) ==> !StrLess(other, a))))
  {
    var agents := Somes(Map(cases, AssignedUserOf));
    TopValueIsMode(agents, agents[0]);
    if other in agents {
      TopValueIsMode(agents, other);
    }
  }

  // ---------------------------------------------------------------------
  // The metrics

  datatype Metrics = Metrics(totalCases: nat, openCases: nat, avgResolutionDays: real,
                             totalCitations: nat, highRiskMembers: nat, topAgent: string)

  /**
   * `calculate_summary_metrics`: an empty frame gives zeros and "N/A";
   * otherwise the frame's length, the numbers of open and citation cases,
   * the mean resolution days of the resolved cases, the high-risk members
   * and the top agent.
   */
  function SummaryMetrics(cases: seq<Case>): (m: Metrics)
    ensures m.totalCases == |cases|
    ensures m.openCases == |Positions(cases, IsOpenCase)|
    ensures m.totalCitations == |Positions(cases, CitesCitation)|
    ensures m.openCases <= m.totalCases && m.totalCitations <= m.totalCases
    ensures m.avgResolutionDays == MeanDays(DaysOfResolved(cases))
    ensures m.highRiskMembers == HighRiskMembers(cases) && m.topAgent == TopAgent(cases)
  {
    FilterCountsPositions(cases, IsOpenCase);
    FilterCountsPositions(cases, CitesCitation);
    if |cases| == 0 then Metrics(0, 0, 0.0, 0, 0, "N/A")
    else
      Metrics(|cases|, |Filter(cases, IsOpenCase)|, MeanDays(DaysOfResolved(cases)),
              |Filter(cases, CitesCitation)|, HighRiskMembers(cases), TopAgent(cases))
  }

  /** The mean resolution time is positive exactly when some resolved case exists and their days sum above zero. */
  lemma AverageResolutionGuard(cases: seq<Case>)
    ensures var days := DaysOfResolved(cases);
      SummaryMetrics(cases).avgResolutionDays > 0.0 <==>
        (|Filter(cases, IsResolvedCase)| > 0 && Sum(days) > 0)
  {
    MeanDaysPositive(DaysOfResolved(cases));
  }

  /** Resolution days are never negative when every resolved case closed no earlier than it was created. */
  lemma {:induction false} ResolutionDaysNonNegative(cases: seq<Case>)
    requires forall c :: c in cases && IsResolvedCase(c) ==> c.closedOn.value >= c.createdOn.value
    ensures forall d :: d in DaysOfResolved(cases) ==> d >= 0
  {
    if |cases| > 0 {
      assert forall c :: c in cases[1..] ==> c in cases;
      ResolutionDaysNonNegative(cases[1..]);
    }
  }

  /** One closed case resolved within the day it was opened: the mean is 0 days, and the card shows "N/A". */
  lemma SameDayResolutionShowsNA(c: Case, oneDecimal: real -> string)
    requires IsResolvedCase(c) && c.closedOn.value == c.createdOn.value + 3600
    ensures SummaryMetrics([c]).avgResolutionDays == 0.0
    ensures AverageCard(SummaryMetrics([c]), oneDecimal) == "N/A"
  {
    assert DaysOfResolved([c]) == [0];
    assert Sum([0]) == 0;
  }

  // ---------------------------------------------------------------------
  // The cards

  /** `f"{avg:.1f}d" if avg > 0 else "N/A"`. */
  function AverageCard(m: Metrics, oneDecimal: real -> string): string
  {
    if m.avgResolutionDays > 0.0 then oneDecimal(m.avgResolutionDays) + "d" else "N/A"
  }

  /** What an empty base frame shows. */
  const EmptyBaseCards: seq<string> := ["0", "0", "0d", "0", "0", "N/A"]

  /** What any exception shows. */
  const ErrorCards: seq<string> := ["Error", "Error", "Error", "Error", "Error", "Error"]

  /** The six card texts of a metrics record. */
  function CardTexts(m: Metrics, oneDecimal: real -> string): seq<string>
  {
    [Grouped(m.totalCases), Grouped(m.openCases), AverageCard(m, oneDecimal),
     Grouped(m.totalCitations), Grouped(m.highRiskMembers), m.topAgent]
  }

  /**
   * `update_summary_cards`: the fetched frame `base` (empty when the fetch
   * failed), filtered by the panel store; a store whose report counts do
   * not read as integers makes the filter raise, and every card shows
   * "Error".
   */
  function UpdateSummaryCards(base: seq<Case>, st: Store, oneDecimal: real -> string): (r: seq<string>)
    ensures |r| == 6
  {
    if |base| == 0 then EmptyBaseCards
    else
      match ApplyComplianceFilters(base, st)
      case None => ErrorCards
      case Some(filtered) => CardTexts(SummaryMetrics(filtered), oneDecimal)
  }

  /**
   * The three outcomes: an empty base shows the fixed defaults, a failing
   * filter shows "Error" six times, and otherwise the cards show the
   * filtered frame's metrics, the counts with thousands separators.
   */
  lemma UpdateSummaryCardsSpec(base: seq<Case>, st: Store, oneDecimal: real -> string)
    ensures |base| == 0 ==> UpdateSummaryCards(base, st, oneDecimal) == EmptyBaseCards
    ensures |base| > 0 && StoreReportCounts(st).None? ==> UpdateSummaryCards(base, st, oneDecimal) == ErrorCards
    ensures |base| > 0 && StoreReportCounts(st).Some? ==>
      ApplyComplianceFilters(base, st).Some? &&
      var m := SummaryMetrics(ApplyComplianceFilters(base, st).value);
      UpdateSummaryCards(base, st, oneDecimal) == CardTexts(m, oneDecimal)
  {
  }

  /** Each count card reads back, separators dropped, as its metric. */
  lemma CountCardsReadBack(m: Metrics, oneDecimal: real -> string)
    ensures var r := CardTexts(m, oneDecimal);
      Filter(r[0], NotComma) == NatToString(m.totalCases) &&
      Filter(r[1], NotComma) == NatToString(m.openCases) &&
      Filter(r[3], NotComma) == NatToString(m.totalCitations) &&
      Filter(r[4], NotComma) == NatToString(m.highRiskMembers)
  {
    GroupedDigits(m.totalCases);
    GroupedDigits(m.openCases);
    GroupedDigits(m.totalCitations);
    GroupedDigits(m.highRiskMembers);
  }

  /** A frame the filter empties shows zero counts, and "N/A" for the average and the top agent. */
  lemma EmptyFrameCards(oneDecimal: real -> string)
    ensures CardTexts(SummaryMetrics([]), oneDecimal) == ["0", "0", "N/A", "0", "0", "N/A"]
  {
    assert Grouped(0) == "0";
  }

  /**
   * An empty base shows "0d" for the average, while a base whose filter
   * keeps nothing shows "N/A" there: the two "nothing to show" paths
   * disagree.
   */
  lemma EmptyPathsDisagree(base: seq<Case>, st: Store, oneDecimal: real -> string)
    requires |base| > 0 && ApplyComplianceFilters(base, st) == Some([])
    ensures UpdateSummaryCards([], st, oneDecimal)[2] == "0d"
    ensures UpdateSummaryCards(base, st, oneDecimal)[2] == "N/A"
  {
    assert UpdateSummaryCards(base, st, oneDecimal) == CardTexts(SummaryMetrics([]), oneDecimal);
    EmptyFrameCards(oneDecimal);
  }
}
