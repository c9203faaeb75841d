/**
 * The compliance agent-performance panel
 * (src/callbacks/compliance_callbacks/compliance_agent_performance.py):
 * per agent, the active caseload, the cases handled, the resolution rate
 * and time, an average case-complexity score and a composite risk score;
 * the team summary, the metric-sorted chart of the top agents, the
 * insights and the chart modal.
 *
 * Timestamps are whole seconds; `now` stands for `pd.Timestamp.now()`.
 * Python floats are Dafny reals (no rounding).
 */
module ComplianceAgentPerformance {
  import opened Common
  import opened ComplianceData

  // ---------------------------------------------------------------------
  // Per-case tests

  /** Still on an agent's desk: not closed, or closed without a disposition or without a closing date. */
  predicate ActiveCase(c: Case)
  {
    c.status != Some("Closed") || c.disposition.None? || c.closedOn.None?
  }

  predicate StatusClosed(c: Case)
  {
    c.status == Some("Closed")
  }

  predicate HasClosedOn(c: Case)
  {
    c.closedOn.Some?
  }

  function AssignedTo(user: string): Case -> bool
  {
    (c: Case) => c.assignedUser == Some(user)
  }

  function UserOf(c: Case): Option<string>
  {
    c.assignedUser
  }

  /** Violations listed on a case; a cell without a list counts none. */
  function ViolationCount(c: Case): nat
  {
    if c.violations.Some? then |c.violations.value| else 0
  }

  /** Violations over a group of cases. */
  function ViolationTotal(cases: seq<Case>): (n: nat)
    ensures |cases| > 0 ==> n == ViolationCount(cases[0]) + ViolationTotal(cases[1..])
  {
    if |cases| == 0 then 0 else ViolationCount(cases[0]) + ViolationTotal(cases[1..])
  }

  /** The assigned users the `groupby('AssignedUser')` keys hold: present users, ascending, each once. */
  function Agents(rows: seq<Case>): (r: seq<string>)
    ensures StrictlyAscending(r)
    ensures forall u :: u in r <==> exists i :: 0 <= i < |rows| && rows[i].assignedUser == Some(u)
  {
    var users := Map(rows, UserOf);
    assert forall u :: Some(u) in users <==> exists i :: 0 <= i < |rows| && rows[i].assignedUser == Some(u) by {
      forall u ensures Some(u) in users <==> exists i :: 0 <= i < |rows| && rows[i].assignedUser == Some(u) {
        if Some(u) in users {
          var i :| 0 <= i < |users| && users[i] == Some(u);
          assert rows[i].assignedUser == Some(u);
        }
        if exists i :: 0 <= i < |rows| && rows[i].assignedUser == Some(u) {
          var i :| 0 <= i < |rows| && rows[i].assignedUser == Some(u);
          assert users[i] == Some(u);
        }
      }
    }
    SortedUnique(Somes(users))
  }

  // ---------------------------------------------------------------------
  // Reals

  function AsReal(d: int): real
  {
    d as real
  }

  // ---------------------------------------------------------------------
  // Resolution rate and time

  /** The closed count the panel trusts: the larger of the Closed statuses and the closing dates. */
  function ClosedCount(cases: seq<Case>): (n: nat)
    ensures n <= |cases|
    ensures n >= |Filter(cases, StatusClosed)| && n >= |Filter(cases, HasClosedOn)|
  {
    var byStatus := |Filter(cases, StatusClosed)|;
    var byDate := |Filter(cases, HasClosedOn)|;
    if byStatus >= byDate then byStatus else byDate
  }

  /** `ClosedCases / TotalCasesHandled * 100`, with the 0/0 case filled with 0. */
  function ResolutionRate(closed: nat, handled: nat): real
  {
    if handled == 0 then 0.0 else closed as real / handled as real * 100.0
  }

  /** A rate of a part of the whole lies in [0, 100] and is 100 exactly when every case is closed. */
  lemma ResolutionRateBounds(closed: nat, handled: nat)
    requires closed <= handled
    ensures 0.0 <= ResolutionRate(closed, handled) <= 100.0
    ensures handled > 0 ==> (ResolutionRate(closed, handled) == 100.0 <==> closed == handled)
    ensures ResolutionRate(closed, handled) == 0.0 <==> closed == 0
  {
    if handled > 0 {
      var q := closed as real / handled as real;
      assert q * handled as real == closed as real;
      if q == 1.0 {
        assert closed == handled;
      }
    }
  }

  /** `(ClosedOn - CreatedOn).dt.days`: whole days, rounded down; missing when either date is. */
  function ResolutionDays(c: Case): (r: Option<int>)
    ensures r.Some? <==> c.closedOn.Some? && c.createdOn.Some?
    ensures r.Some? ==> r.value * DaySeconds <= c.closedOn.value - c.createdOn.value < (r.value + 1) * DaySeconds
  {
    if c.closedOn.Some? && c.createdOn.Some? then Some((c.closedOn.value - c.createdOn.value) / DaySeconds) else None
  }

  /** The days to resolve each Closed case with both dates. */
  function ResolutionSample(cases: seq<Case>): seq<real>
  {
    Map(Somes(Map(Filter(cases, StatusClosed), ResolutionDays)), AsReal)
  }

  /** `AvgResolutionTime`: the mean over the sample, 0 when it is empty (the outer join's fill). */
  function AvgResolutionTime(cases: seq<Case>): real
  {
    var sample := ResolutionSample(cases);
    if |sample| == 0 then 0.0 else Mean(sample)
  }

  /** Cases never closed before they were created give a non-negative average resolution time. */
  lemma AvgResolutionTimeNonNegative(cases: seq<Case>)
    requires forall c :: c in cases && c.closedOn.Some? && c.createdOn.Some? ==> c.createdOn.value <= c.closedOn.value
    ensures AvgResolutionTime(cases) >= 0.0
  {
    var sample := ResolutionSample(cases);
    var days := Somes(Map(Filter(cases, StatusClosed), ResolutionDays));
    if |sample| > 0 {
      forall i | 0 <= i < |sample| ensures 0.0 <= sample[i] {
        assert days[i] in days;
        ResolutionDaysNonNegative(cases, days[i]);
      }
      MeanAtLeast(sample, 0.0);
    }
  }

  lemma ResolutionDaysNonNegative(cases: seq<Case>, d: int)
    requires forall c :: c in cases && c.closedOn.Some? && c.createdOn.Some? ==> c.createdOn.value <= c.closedOn.value
    requires d in Somes(Map(Filter(cases, StatusClosed), ResolutionDays))
    ensures d >= 0
  {
    MapFilterMember(cases, StatusClosed, ResolutionDays, Some(d));
    var c :| c in cases && StatusClosed(c) && ResolutionDays(c) == Some(d);
  }

  // ---------------------------------------------------------------------
  // Case complexity

  function RealMin(a: real, b: real): (r: real)
    ensures r <= a && r <= b && (r == a || r == b)
  {
    if a <= b then a else b
  }

  /** Days a case has been open: to its closing date, or to now while open; 0 without a creation date. */
  function OpenDays(c: Case, now: int): int
  {
    if c.createdOn.None? then 0
    else if c.closedOn.Some? then (c.closedOn.value - c.createdOn.value) / DaySeconds
    else (now - c.createdOn.value) / DaySeconds
  }

  /**
   * One case's complexity: ten per violation, a half per event, five per
   * report and a tenth of the days open capped at 20; the total capped at
   * 100.
   */
  function ComplexityScore(c: Case, now: int): (r: real)
    ensures r <= 100.0
  {
    var raw := ViolationCount(c) as real * 10.0 + c.numCaseEvents as real * 0.5 + c.numReportIds as real * 5.0
      + RealMin(OpenDays(c, now) as real * 0.1, 20.0);
    RealMin(raw, 100.0)
  }

  /** The age term adds at most 20, and a case open no negative number of days scores at least 0. */
  lemma ComplexityScoreBounds(c: Case, now: int)
    ensures ComplexityScore(c, now) <= ViolationCount(c) as real * 10.0 + c.numCaseEvents as real * 0.5 + c.numReportIds as real * 5.0 + 20.0
    ensures OpenDays(c, now) >= 0 ==> ComplexityScore(c, now) >= 0.0
  {
  }

  /** `calculate_complexity_score`'s loop: the scores of a group's cases, in row order. */
  method ComplexityScores(group: seq<Case>, now: int) returns (scores: seq<real>)
    ensures |scores| == |group|
    ensures forall i :: 0 <= i < |group| ==> scores[i] == ComplexityScore(group[i], now) && scores[i] <= 100.0
  {
    scores := [];
    var k := 0;
    while k < |group|
      invariant 0 <= k <= |group|
      invariant |scores| == k
      invariant forall i :: 0 <= i < k ==> scores[i] == ComplexityScore(group[i], now)
    {
      scores := scores + [ComplexityScore(group[k], now)];
      k := k + 1;
    }
  }

  function ScoreAt(now: int): Case -> real
  {
    (c: Case) => ComplexityScore(c, now)
  }

  /** The group's mean complexity score. */
  function AvgComplexity(group: seq<Case>, now: int): real
    requires |group| > 0
  {
    Mean(Map(group, ScoreAt(now)))
  }

  /** The mean score is at most 100, and at least 0 when no case has been open a negative number of days. */
  lemma AvgComplexityBounds(group: seq<Case>, now: int)
    requires |group| > 0
    requires forall c :: c in group ==> OpenDays(c, now) >= 0
    ensures 0.0 <= AvgComplexity(group, now) <= 100.0
  {
    var scores := Map(group, ScoreAt(now));
    forall i | 0 <= i < |scores| ensures 0.0 <= scores[i] <= 100.0 {
      assert group[i] in group;
      ComplexityScoreBounds(group[i], now);
    }
    MeanAtLeast(scores, 0.0);
    MeanAtMost(scores, 100.0);
  }

  // ---------------------------------------------------------------------
  // Per-agent metrics (the outer join of the grouped frames)

  datatype Metrics = Metrics(
    user: string,
    active: nat,
    violations: nat,
    handled: nat,
    closed: nat,
    rate: real,
    avgTime: real,
    complexity: real)

  /** One agent's figures; a figure of an agent missing from a joined frame is filled with 0. */
  function MetricsOf(rows: seq<Case>, now: int, user: string): Metrics
  {
    var cases := Filter(rows, AssignedTo(user));
    var active := Filter(cases, ActiveCase);
    var closed := ClosedCount(cases);
    Metrics(user, |active|, ViolationTotal(active), |cases|, closed,
      ResolutionRate(closed, |cases|), AvgResolutionTime(cases),
      if |cases| == 0 then 0.0 else AvgComplexity(cases, now))
  }

  function MetricsAt(rows: seq<Case>, now: int): string -> Metrics
  {
    (u: string) => MetricsOf(rows, now, u)
  }

  /** The combined metrics, one per grouped user. */
  function AllMetrics(rows: seq<Case>, now: int): seq<Metrics>
  {
    Map(Agents(rows), MetricsAt(rows, now))
  }

  /**
   * Every grouped user handled at least one case (so the risk score's
   * zero-cases branch never fires); the active and closed counts are
   * parts of the handled cases and the rate lies in [0, 100].
   */
  lemma MetricsConsistent(rows: seq<Case>, now: int, user: string)
    requires user in Agents(rows)
    ensures var m := MetricsOf(rows, now, user);
      m.user == user && m.handled > 0 && m.active <= m.handled && m.closed <= m.handled &&
      0.0 <= m.rate <= 100.0 && m.complexity <= 100.0
  {
    var i :| 0 <= i < |rows| && rows[i].assignedUser == Some(user);
    var cases := Filter(rows, AssignedTo(user));
    assert rows[i] in cases;
    ResolutionRateBounds(ClosedCount(cases), |cases|);
    var scores := Map(cases, ScoreAt(now));
    MeanAtMost(scores, 100.0);
  }

  // ---------------------------------------------------------------------
  // Risk score

  type Positive = r: real | r > 0.0 witness 1.0

  /** The normalisers: the largest active count, resolution time and complexity over all agents, 1 when not positive. */
  datatype Scale = Scale(active: Positive, time: Positive, complexity: Positive)

  function MaxOf(xs: seq<real>): (m: real)
    requires |xs| > 0
    ensures m in xs
    ensures forall i :: 0 <= i < |xs| ==> xs[i] <= m
  {
    if |xs| == 1 then xs[0]
    else
      var rest := MaxOf(xs[1..]);
      assert forall i :: 1 <= i < |xs| ==> xs[i] == xs[1..][i - 1];
      if xs[0] >= rest then xs[0] else rest
  }

  /** `s.max() if s.max() > 0 else 1`. */
  function PositiveMax(xs: seq<real>): (m: Positive)
    ensures forall i :: 0 <= i < |xs| ==> xs[i] <= m
    ensures m == 1.0 || m in xs
  {
    if |xs| > 0 && MaxOf(xs) > 0.0 then MaxOf(xs) else 1.0
  }

  function ActiveOf(m: Metrics): real { m.active as real }
  function TimeOf(m: Metrics): real { m.avgTime }
  function ComplexityOf(m: Metrics): real { m.complexity }

  function ScaleOf(ms: seq<Metrics>): Scale
  {
    Scale(PositiveMax(Map(ms, ActiveOf)), PositiveMax(Map(ms, TimeOf)), PositiveMax(Map(ms, ComplexityOf)))
  }

  /** The unclamped weighted sum: workload 40, unresolved share 30, resolution time 20, complexity 10. */
  function RiskSum(m: Metrics, s: Scale): real
  {
    m.active as real / s.active * 40.0 + (100.0 - m.rate) / 100.0 * 30.0
      + m.avgTime / s.time * 20.0 + m.complexity / s.complexity * 10.0
  }

  /** `calculate_risk_score`: 0 for an agent without cases, otherwise the weighted sum capped at 100. */
  function Risk(m: Metrics, s: Scale): (r: real)
    ensures r <= 100.0
    ensures m.handled == 0 ==> r == 0.0
  {
    if m.handled == 0 then 0.0 else RealMin(RiskSum(m, s), 100.0)
  }

  /**
   * Within the scale, each term stays within its weight: the risk is then
   * the weighted sum itself, never clamped, and lies in [0, 100].
   */
  lemma RiskWithinWeights(m: Metrics, s: Scale)
    requires m.handled > 0
    requires m.active as real <= s.active && 0.0 <= m.rate <= 100.0
    requires 0.0 <= m.avgTime <= s.time && 0.0 <= m.complexity <= s.complexity
    ensures Risk(m, s) == RiskSum(m, s)
    ensures 0.0 <= Risk(m, s) <= 100.0
  {
    var a := m.active as real / s.active;
    var t := m.avgTime / s.time;
    var x := m.complexity / s.complexity;
    assert a * s.active == m.active as real;
    assert t * s.time == m.avgTime;
    assert x * s.complexity == m.complexity;
    assert 0.0 <= a <= 1.0;
    assert 0.0 <= t <= 1.0;
    assert 0.0 <= x <= 1.0;
  }

  /** Every grouped agent's figures lie within the scale taken over all of them. */
  lemma WithinScale(rows: seq<Case>, now: int, k: nat)
    requires k < |AllMetrics(rows, now)|
    ensures var ms := AllMetrics(rows, now); var s := ScaleOf(ms);
      ms[k].active as real <= s.active && ms[k].avgTime <= s.time && ms[k].complexity <= s.complexity
  {
    var ms := AllMetrics(rows, now);
    assert Map(ms, ActiveOf)[k] == ActiveOf(ms[k]);
    assert Map(ms, TimeOf)[k] == TimeOf(ms[k]);
    assert Map(ms, ComplexityOf)[k] == ComplexityOf(ms[k]);
  }

  // ---------------------------------------------------------------------
  // Agent names and initials

  /** `str(x).strip()`, or 'Unassigned' when that is empty. */
  function AgentName(user: string): (r: string)
    ensures IsBlank(user) ==> r == "Unassigned"
    ensures !IsBlank(user) ==> r == Strip(user) && !IsBlank(r)
  {
    StripEmptyIffBlank(user);
    var s := Strip(user);
    if s == "" then "Unassigned"
    else
      assert s[0] !in Whitespace by {
        var l := LStrip(user, Whitespace);
        assert s == RStrip(l, Whitespace);
        assert s[0] == l[0];
      }
      s
  }

  /** Position just past the word starting at `i`: the first whitespace at or after `i`, or the end. */
  function WordEnd(s: string, i: nat): (n: nat)
    requires i <= |s|
    ensures i <= n <= |s|
    ensures forall k :: i <= k < n ==> s[k] !in Whitespace
    ensures n < |s| ==> s[n] in Whitespace
    decreases |s| - i
  {
    if i == |s| || s[i] in Whitespace then i else WordEnd(s, i + 1)
  }

  /** `s.split()`: the maximal runs of non-whitespace characters, in order. */
  function Words(s: string): (r: seq<string>)
    ensures forall w :: w in r ==> |w| > 0 && forall k :: 0 <= k < |w| ==> w[k] !in Whitespace
    ensures |r| == 0 <==> IsBlank(s)
    decreases |s|
  {
    if |s| == 0 then []
    else if s[0] in Whitespace then
      assert forall k :: 1 <= k < |s| ==> s[k] == s[1..][k - 1];
      Words(s[1..])
    else
      var n := WordEnd(s, 0);
      [s[..n]] + Words(s[n..])
  }

  /** `get_initials`: 'UA' for Unassigned; the first letters of the first two words, or a single word's first two letters, upper-cased; 'XX' for no words. */
  function Initials(name: string): (r: string)
  {
    if name == "Unassigned" then "UA"
    else
      var words := Words(name);
      if |words| >= 2 then Upper([words[0][0], words[1][0]])
      else if |words| == 1 then Upper(Head(words[0], 2))
      else "XX"
  }

  /**
   * A cleaned agent name always yields one or two initials taken from its
   * words, never the 'XX' fallback for a name without words; each initial
   * is an upper-cased non-whitespace character of the name.
   */
  lemma InitialsOfAgent(user: string)
    ensures var name := AgentName(user); var r := Initials(name);
      1 <= |r| <= 2 &&
      (name != "Unassigned" ==> |Words(name)| > 0 && FromName(r, name))
  {
    var name := AgentName(user);
    if name != "Unassigned" {
      if |Words(name)| >= 2 {
        TwoWordInitials(name);
      } else {
        OneWordInitials(name);
      }
    }
  }

  /** Each character of `r` is an upper-cased non-whitespace character of `name`. */
  predicate FromName(r: string, name: string)
  {
    forall k :: 0 <= k < |r| ==> exists j :: 0 <= j < |name| && name[j] !in Whitespace && r[k] == UpperChar(name[j])
  }

  lemma TwoWordInitials(name: string)
    requires name != "Unassigned" && |Words(name)| >= 2
    ensures |Initials(name)| == 2 && FromName(Initials(name), name)
  {
    var words := Words(name);
    assert words[0] in words && words[1] in words;
    WordCharInName(name, 0, 0);
    WordCharInName(name, 1, 0);
  }

  lemma OneWordInitials(name: string)
    requires name != "Unassigned" && |Words(name)| == 1
    ensures 1 <= |Initials(name)| <= 2 && FromName(Initials(name), name)
  {
    var words := Words(name);
    assert words[0] in words;
    var w := Head(words[0], 2);
    assert Initials(name) == Upper(w);
    forall k | 0 <= k < |w| ensures exists j :: 0 <= j < |name| && name[j] !in Whitespace && Upper(w)[k] == UpperChar(name[j]) {
      WordCharInName(name, 0, k);
    }
  }

  /** Every character of a word is a character of the string it was split from. */
  lemma {:induction false} WordCharInName(s: string, w: nat, k: nat)
    requires w < |Words(s)| && k < |Words(s)[w]|
    ensures exists j :: 0 <= j < |s| && s[j] !in Whitespace && Words(s)[w][k] == s[j]
    decreases |s|
  {
    assert Words(s)[w] in Words(s);
    if s[0] in Whitespace {
      WordCharInName(s[1..], w, k);
      var j :| 0 <= j < |s[1..]| && s[1..][j] !in Whitespace && Words(s[1..])[w][k] == s[1..][j];
      assert s[j + 1] == s[1..][j];
    } else {
      var n := WordEnd(s, 0);
      if w == 0 {
        assert Words(s)[0] == s[..n];
        assert s[k] !in Whitespace;
      } else {
        assert Words(s)[w] == Words(s[n..])[w - 1];
        WordCharInName(s[n..], w - 1, k);
        var j :| 0 <= j < |s[n..]| && s[n..][j] !in Whitespace && Words(s[n..])[w - 1][k] == s[n..][j];
        assert s[n + j] == s[n..][j];
      }
    }
  }

  // ---------------------------------------------------------------------
  // The agent table

  datatype AgentRow = AgentRow(
    agent: string,
    initials: string,
    active: nat,
    violations: nat,
    handled: nat,
    rate: real,
    avgTime: real,
    complexity: real,
    risk: real)

  function RowOf(m: Metrics, s: Scale): AgentRow
  {
    var name := AgentName(m.user);
    AgentRow(name, Initials(name), m.active, m.violations, m.handled, m.rate, m.avgTime, m.complexity, Risk(m, s))
  }

  function RowWith(s: Scale): Metrics -> AgentRow
  {
    (m: Metrics) => RowOf(m, s)
  }

  /** Rows the analysis keeps: a named agent with at least one case. */
  predicate Kept(r: AgentRow)
  {
    r.agent != "Unassigned" && r.handled > 0
  }

  /** `analyze_agent_performance`'s table: every grouped user's row, scored against all of them, then Unassigned dropped. */
  function AnalyzeAgents(rows: seq<Case>, now: int): seq<AgentRow>
  {
    var ms := AllMetrics(rows, now);
    Filter(Map(ms, RowWith(ScaleOf(ms))), Kept)
  }

  /** Each kept row handled a case, its active count is part of that, its rate lies in [0, 100] and its risk is at most 100. */
  lemma AnalyzeAgentsRows(rows: seq<Case>, now: int)
    ensures var table := AnalyzeAgents(rows, now);
      |table| <= |Agents(rows)| &&
      forall r :: r in table ==> r.handled > 0 && r.active <= r.handled && 0.0 <= r.rate <= 100.0 && r.risk <= 100.0
  {
    var ms := AllMetrics(rows, now);
    var s := ScaleOf(ms);
    forall r | r in Filter(Map(ms, RowWith(s)), Kept) ensures r.handled > 0 && r.active <= r.handled && 0.0 <= r.rate <= 100.0 && r.risk <= 100.0 {
      var k := KeptFrom(ms, RowWith(s), Kept, r);
      MetricsConsistent(rows, now, Agents(rows)[k]);
      RowOfFigures(ms[k], s);
    }
  }

  /** A row carries its agent's figures unchanged, with the risk at most 100. */
  lemma RowOfFigures(m: Metrics, s: Scale)
    ensures var r := RowOf(m, s);
      r.active == m.active && r.handled == m.handled && r.rate == m.rate && r.risk == Risk(m, s) && r.risk <= 100.0
  {
  }

  /** A kept element of a mapped sequence comes from some position. */
  lemma KeptFrom<T, U(!new)>(xs: seq<T>, f: T -> U, keep: U -> bool, y: U) returns (k: nat)
    requires y in Filter(Map(xs, f), keep)
    ensures k < |xs| && f(xs[k]) == y
  {
    var ys := Map(xs, f);
    k :| 0 <= k < |ys| && ys[k] == y;
  }

  /** Every row of the table is some grouped user's row, for a user whose cleaned name is not Unassigned. */
  lemma AnalyzeAgentsFrom(rows: seq<Case>, now: int, r: AgentRow)
    requires r in AnalyzeAgents(rows, now)
    ensures exists u :: u in Agents(rows) && AgentName(u) != "Unassigned" && r == RowOf(MetricsOf(rows, now, u), ScaleOf(AllMetrics(rows, now)))
  {
    var ms := AllMetrics(rows, now);
    var s := ScaleOf(ms);
    var k := KeptFrom(ms, RowWith(s), Kept, r);
    var u := Agents(rows)[k];
    var m := MetricsOf(rows, now, u);
    assert ms[k] == m;
    assert r == RowOf(m, s);
    RowOfName(m, s);
    assert m.user == u;
    assert Kept(r);
  }

  /** Every grouped user whose cleaned name is not Unassigned has its row in the table. */
  lemma AnalyzeAgentsHas(rows: seq<Case>, now: int, u: string)
    requires u in Agents(rows) && AgentName(u) != "Unassigned"
    ensures RowOf(MetricsOf(rows, now, u), ScaleOf(AllMetrics(rows, now))) in AnalyzeAgents(rows, now)
  {
    var ms := AllMetrics(rows, now);
    var s := ScaleOf(ms);
    var k :| 0 <= k < |Agents(rows)| && Agents(rows)[k] == u;
    assert ms[k] == MetricsOf(rows, now, u);
    MetricsConsistent(rows, now, u);
    RowOfName(ms[k], s);
    KeptAt(ms, RowWith(s), Kept, k);
  }

  /** A row is named by its agent's cleaned name and handles the agent's cases. */
  lemma RowOfName(m: Metrics, s: Scale)
    ensures RowOf(m, s).agent == AgentName(m.user) && RowOf(m, s).handled == m.handled
  {
  }

  /** A position whose image is kept puts that image in the filtered map. */
  lemma KeptAt<T, U(!new)>(xs: seq<T>, f: T -> U, keep: U -> bool, k: nat)
    requires k < |xs| && keep(f(xs[k]))
    ensures f(xs[k]) in Filter(Map(xs, f), keep)
  {
    assert Map(xs, f)[k] == f(xs[k]);
  }

  /** When no case closes before it was created, every agent's risk is the uncapped weighted sum and lies in [0, 100]. */
  lemma AgentRiskBounds(rows: seq<Case>, now: int, k: nat)
    requires k < |AllMetrics(rows, now)|
    requires forall c :: c in rows && c.closedOn.Some? && c.createdOn.Some? ==> c.createdOn.value <= c.closedOn.value
    requires forall c :: c in rows ==> OpenDays(c, now) >= 0
    ensures var ms := AllMetrics(rows, now);
      0.0 <= Risk(ms[k], ScaleOf(ms)) <= 100.0 && Risk(ms[k], ScaleOf(ms)) == RiskSum(ms[k], ScaleOf(ms))
  {
    var ms := AllMetrics(rows, now);
    var u := Agents(rows)[k];
    var cases := Filter(rows, AssignedTo(u));
    MetricsConsistent(rows, now, u);
    AvgResolutionTimeNonNegative(cases);
    AvgComplexityBounds(cases, now);
    WithinScale(rows, now, k);
    RiskWithinWeights(ms[k], ScaleOf(ms));
  }

  // ---------------------------------------------------------------------
  // Summary statistics

  datatype Summary = Summary(
    totalAgents: nat,
    avgActive: real,
    avgRate: real,
    avgTime: real,
    highPerformers: nat,
    overloaded: nat,
    atRisk: nat,
    totalActive: nat,
    balanced: nat,
    underloaded: nat)

  function RowActive(r: AgentRow): real { r.active as real }
  function RowRate(r: AgentRow): real { r.rate }
  function RowTime(r: AgentRow): real { r.avgTime }

  predicate HighPerformer(r: AgentRow) { r.rate >= 80.0 }
  predicate HighRisk(r: AgentRow) { r.risk >= 60.0 }

  function Overloaded(avg: real): AgentRow -> bool { (r: AgentRow) => r.active as real > avg * 1.5 }
  function Balanced(avg: real): AgentRow -> bool { (r: AgentRow) => avg * 0.7 <= r.active as real <= avg * 1.3 }
  function Underloaded(avg: real): AgentRow -> bool { (r: AgentRow) => r.active as real < avg * 0.7 }

  function ActiveTotal(table: seq<AgentRow>): nat
  {
    if |table| == 0 then 0 else table[0].active + ActiveTotal(table[1..])
  }

  /** `summary_stats` of a non-empty table. */
  function SummaryOf(table: seq<AgentRow>): Summary
    requires |table| > 0
  {
    var avg := Mean(Map(table, RowActive));
    Summary(|table|, avg, Mean(Map(table, RowRate)), Mean(Map(table, RowTime)),
      |Filter(table, HighPerformer)|, |Filter(table, Overloaded(avg))|, |Filter(table, HighRisk)|,
      ActiveTotal(table), |Filter(table, Balanced(avg))|, |Filter(table, Underloaded(avg))|)
  }

  /**
   * The workload classes do not overlap, so balanced, underloaded and
   * overloaded agents are at most the team; and not every agent can be
   * overloaded, since some agent's caseload is at most the mean.
   */
  lemma WorkloadDistribution(table: seq<AgentRow>)
    requires |table| > 0
    ensures var s := SummaryOf(table);
      s.balanced + s.underloaded + s.overloaded <= s.totalAgents &&
      s.overloaded < s.totalAgents && s.highPerformers <= s.totalAgents && s.atRisk <= s.totalAgents
  {
    var avg := Mean(Map(table, RowActive));
    var actives := Map(table, RowActive);
    MeanAtLeast(actives, 0.0);
    var either := (r: AgentRow) => Balanced(avg)(r) || Underloaded(avg)(r);
    var both := (r: AgentRow) => false;
    FilterInclusionExclusion(table, Balanced(avg), Underloaded(avg), either, both);
    FilterNone(table, both);
    DisjointFilters(table, either, Overloaded(avg));
    var k := SomeAtMostMean(actives);
    assert table[k] in table && !Overloaded(avg)(table[k]);
    NotAllFiltered(table, Overloaded(avg), k);
  }

  /** A sequence holding an element the test rejects loses it in the filter. */
  lemma {:induction false} NotAllFiltered<T(!new)>(xs: seq<T>, p: T -> bool, k: nat)
    requires k < |xs| && !p(xs[k])
    ensures |Filter(xs, p)| < |xs|
  {
    if k == 0 {
      assert |Filter(xs[1..], p)| <= |xs[1..]|;
    } else {
      NotAllFiltered(xs[1..], p, k - 1);
    }
  }

  // ---------------------------------------------------------------------
  // Sorting by the selected metric

  predicate KnownMetric(metric: string)
  {
    metric == "count" || metric == "open" || metric == "handled" || metric == "efficiency"
  }

  function ByActiveDescending(r: AgentRow): int { -(r.active as int) }
  function ByHandledDescending(r: AgentRow): int { -(r.handled as int) }

  /** Risk scores never increase along the sequence. */
  predicate RiskDescending(xs: seq<AgentRow>)
  {
    forall i, j :: 0 <= i < j < |xs| ==> xs[j].risk <= xs[i].risk
  }

  lemma RiskBoundRest(x: AgentRow, xs: seq<AgentRow>, rest: seq<AgentRow>)
    requires |xs| > 0 && RiskDescending(xs) && x.risk <= xs[0].risk
    requires multiset(rest) == multiset(xs[1..]) + multiset{x}
    ensures forall j :: 0 <= j < |rest| ==> rest[j].risk <= xs[0].risk
  {
    forall j | 0 <= j < |rest| ensures rest[j].risk <= xs[0].risk {
      assert rest[j] in multiset(rest);
      if rest[j] != x {
        assert rest[j] in multiset(xs[1..]);
        var k :| 0 <= k < |xs[1..]| && xs[1..][k] == rest[j];
        assert xs[k + 1] == rest[j];
      }
    }
  }

  lemma ConsRiskDescending(h: AgentRow, rest: seq<AgentRow>)
    requires RiskDescending(rest)
    requires forall j :: 0 <= j < |rest| ==> rest[j].risk <= h.risk
    ensures RiskDescending([h] + rest)
  {
    var s := [h] + rest;
    forall i, j | 0 <= i < j < |s| ensures s[j].risk <= s[i].risk {
      assert s[j] == rest[j - 1];
      if i > 0 { assert s[i] == rest[i - 1]; }
    }
  }

  function InsertByRisk(x: AgentRow, xs: seq<AgentRow>): (r: seq<AgentRow>)
    requires RiskDescending(xs)
    ensures |r| == |xs| + 1
    ensures RiskDescending(r)
    ensures multiset(r) == multiset(xs) + multiset{x}
  {
    if |xs| == 0 then [x]
    else if x.risk > xs[0].risk then
      ConsRiskDescending(x, xs);
      [x] + xs
    else
      var rest := InsertByRisk(x, xs[1..]);
      assert xs == [xs[0]] + xs[1..];
      RiskBoundRest(x, xs, rest);
      ConsRiskDescending(xs[0], rest);
      [xs[0]] + rest
  }

  /** `sort_values('RiskScore', ascending=False)`: the same rows, highest risk first. */
  function SortByRisk(xs: seq<AgentRow>): (r: seq<AgentRow>)
    ensures |r| == |xs|
    ensures RiskDescending(r)
    ensures multiset(r) == multiset(xs)
  {
    if |xs| == 0 then []
    else
      var init := xs[..|xs| - 1];
      assert xs == init + [xs[|xs| - 1]];
      InsertByRisk(xs[|xs| - 1], SortByRisk(init))
  }

  /** The chart's sort: active cases for 'count' and 'open', cases handled, or risk; any other metric leaves the order. */
  function SortByMetric(table: seq<AgentRow>, metric: string): (r: seq<AgentRow>)
    ensures |r| == |table| && multiset(r) == multiset(table)
  {
    if metric == "count" || metric == "open" then SortBy(table, ByActiveDescending)
    else if metric == "handled" then SortBy(table, ByHandledDescending)
    else if metric == "efficiency" then SortByRisk(table)
    else table
  }

  /** The figure a metric ranks agents by. */
  function MetricValue(r: AgentRow, metric: string): real
  {
    if metric == "handled" then r.handled as real
    else if metric == "efficiency" then r.risk
    else r.active as real
  }

  /** Any of the sorts keeps the table's rows and puts them in descending order of the metric. */
  lemma SortByMetricSpec(table: seq<AgentRow>, metric: string)
    requires KnownMetric(metric)
    ensures var sorted := SortByMetric(table, metric);
      multiset(sorted) == multiset(table) &&
      forall i, j :: 0 <= i < j < |sorted| ==> MetricValue(sorted[j], metric) <= MetricValue(sorted[i], metric)
  {
    var sorted := SortByMetric(table, metric);
    if metric == "count" || metric == "open" {
      forall i, j | 0 <= i < j < |sorted| ensures MetricValue(sorted[j], metric) <= MetricValue(sorted[i], metric) {
        assert ByActiveDescending(sorted[i]) <= ByActiveDescending(sorted[j]);
      }
    } else if metric == "handled" {
      forall i, j | 0 <= i < j < |sorted| ensures MetricValue(sorted[j], metric) <= MetricValue(sorted[i], metric) {
        assert ByHandledDescending(sorted[i]) <= ByHandledDescending(sorted[j]);
      }
    }
  }

  /**
   * `head(top_count)` after the sort shows the leaders: every row of the
   * table is shown or ranks no higher than every shown row.
   */
  lemma TopAgentsLead(table: seq<AgentRow>, metric: string, topCount: nat)
    requires KnownMetric(metric)
    ensures var top := Head(SortByMetric(table, metric), topCount);
      forall r :: r in table ==> r in top || forall t :: t in top ==> MetricValue(r, metric) <= MetricValue(t, metric)
  {
    var sorted := SortByMetric(table, metric);
    var top := Head(sorted, topCount);
    SortByMetricSpec(table, metric);
    forall r | r in table ensures r in top || forall t :: t in top ==> MetricValue(r, metric) <= MetricValue(t, metric) {
      assert r in multiset(sorted);
      var j :| 0 <= j < |sorted| && sorted[j] == r;
      if j >= |top| {
        forall t | t in top ensures MetricValue(r, metric) <= MetricValue(t, metric) {
          var i :| 0 <= i < |top| && top[i] == t;
          assert sorted[i] == t;
        }
      } else {
        assert top[j] == r;
      }
    }
  }

  // ---------------------------------------------------------------------
  // The chart

  const Red: string := "#e74c3c"
  const Amber: string := "#f39c12"
  const Green: string := "#27ae60"

  /** The 'open' view's bar colour: red from 20 active cases, amber from 10, green below. */
  function ActiveColour(active: nat): (c: string)
    ensures c == Red <==> active >= 20
    ensures c == Amber <==> 10 <= active < 20
    ensures c == Green <==> active < 10
  {
    if active >= 20 then Red else if active >= 10 then Amber else Green
  }

  function RowColour(r: AgentRow): string { ActiveColour(r.active) }

  datatype AgentChart =
    | NoAgentChart
    | CaseloadChart(top: seq<AgentRow>)
    | OpenCasesChart(top: seq<AgentRow>, colours: seq<string>)
    | RiskMatrix(top: seq<AgentRow>, riskRange: real, workloadRange: real)
    | HandledChart(top: seq<AgentRow>)

  function RowRisk(r: AgentRow): real { r.risk }

  /** The largest value, 0 for none. */
  function MaxOrZero(xs: seq<real>): real
  {
    if |xs| == 0 then 0.0 else MaxOf(xs)
  }

  /**
   * `create_agent_performance_chart` on the sorted table: the first
   * `top_count` rows as the metric's chart; the risk matrix's axes reach
   * 50 or a tenth past the highest risk, and a tenth past the largest
   * caseload. Any other metric builds no figure (the error path).
   */
  function AgentChartOf(sorted: seq<AgentRow>, metric: string, topCount: nat): (r: Option<AgentChart>)
    ensures r.None? <==> |sorted| > 0 && !KnownMetric(metric)
    ensures r == Some(NoAgentChart) <==> |sorted| == 0
  {
    if |sorted| == 0 then Some(NoAgentChart)
    else
      var top := Head(sorted, topCount);
      if metric == "count" then Some(CaseloadChart(top))
      else if metric == "open" then Some(OpenCasesChart(top, Map(top, RowColour)))
      else if metric == "efficiency" then
        var riskMax := MaxOrZero(Map(top, RowRisk)) * 1.1;
        Some(RiskMatrix(top, if riskMax > 50.0 then riskMax else 50.0, MaxOrZero(Map(top, RowActive)) * 1.1))
      else if metric == "handled" then Some(HandledChart(top))
      else None
  }

  /** On the 'open' view sorted by active cases, the colours go from red through amber to green, never back. */
  lemma OpenColoursOrdered(table: seq<AgentRow>, topCount: nat)
    requires |table| > 0
    ensures var chart := AgentChartOf(SortByMetric(table, "open"), "open", topCount).value;
      chart.OpenCasesChart? && |chart.colours| == |chart.top| &&
      forall i, j :: 0 <= i < j < |chart.colours| ==>
        (chart.colours[j] == Red ==> chart.colours[i] == Red) &&
        (chart.colours[j] == Amber ==> chart.colours[i] != Green)
  {
    var sorted := SortByMetric(table, "open");
    var top := Head(sorted, topCount);
    forall i, j | 0 <= i < j < |top| ensures top[j].active <= top[i].active {
      assert top[i] == sorted[i] && top[j] == sorted[j];
      assert ByActiveDescending(sorted[i]) <= ByActiveDescending(sorted[j]);
    }
  }

  /** The risk matrix's axes cover every shown agent's risk and caseload. */
  lemma RiskMatrixCovers(sorted: seq<AgentRow>, topCount: nat)
    requires |sorted| > 0
    requires forall r :: r in sorted ==> r.risk >= 0.0
    ensures var chart := AgentChartOf(sorted, "efficiency", topCount).value;
      chart.RiskMatrix? && chart.riskRange >= 50.0 &&
      forall r :: r in chart.top ==> r.risk <= chart.riskRange && r.active as real <= chart.workloadRange
  {
    var top := Head(sorted, topCount);
    forall r | r in top ensures r.risk <= MaxOrZero(Map(top, RowRisk)) * 1.1 && r.active as real <= MaxOrZero(Map(top, RowActive)) * 1.1 {
      var i :| 0 <= i < |top| && top[i] == r;
      assert Map(top, RowRisk)[i] == r.risk;
      assert Map(top, RowActive)[i] == r.active as real;
      assert r in sorted;
    }
  }

  // ---------------------------------------------------------------------
  // Insights

  datatype Insight =
    | NoAgentData
    | TeamOverview(agents: nat, avgActive: real, avgRate: real)
    | WorkloadAlert(overloaded: nat, balanced: nat, underloaded: nat)
    | HighestCaseload(agent: string, active: nat)
    | TopPerformer(agent: string, active: nat, rate: real)
    | RiskAlert(agents: nat)
    | Excellence(agents: nat)
    | ResolutionSpeed(days: real)

  /** The metric's note on the sorted table's first row, or on its high-risk agents. */
  function LeaderNote(sorted: seq<AgentRow>, metric: string): seq<Insight>
    requires |sorted| > 0
  {
    if metric == "count" then [HighestCaseload(sorted[0].agent, sorted[0].active)]
    else if metric == "open" then [TopPerformer(sorted[0].agent, sorted[0].active, sorted[0].rate)]
    else if metric == "efficiency" then
      var n := |Filter(sorted, HighRisk)|;
      if n > 0 then [RiskAlert(n)] else []
    else []
  }

  /** `generate_agent_performance_insights`. */
  function AgentInsights(sorted: seq<AgentRow>, s: Summary, metric: string): seq<Insight>
  {
    if |sorted| == 0 then [NoAgentData]
    else
      [TeamOverview(s.totalAgents, s.avgActive, s.avgRate)]
      + (if s.overloaded > 0 then [WorkloadAlert(s.overloaded, s.balanced, s.underloaded)] else [])
      + LeaderNote(sorted, metric)
      + (if s.highPerformers > 0 then [Excellence(s.highPerformers)] else [])
      + (if s.avgTime > 0.0 then [ResolutionSpeed(s.avgTime)] else [])
  }

  /** The insights open with the team overview, and a workload alert appears exactly when some agent is overloaded. */
  lemma AgentInsightsOpen(sorted: seq<AgentRow>, s: Summary, metric: string)
    requires |sorted| > 0
    ensures var ins := AgentInsights(sorted, s, metric);
      ins[0] == TeamOverview(s.totalAgents, s.avgActive, s.avgRate) &&
      ((exists x :: x in ins && x.WorkloadAlert?) <==> s.overloaded > 0)
  {
    var ins := AgentInsights(sorted, s, metric);
    var head := [TeamOverview(s.totalAgents, s.avgActive, s.avgRate)] + (if s.overloaded > 0 then [WorkloadAlert(s.overloaded, s.balanced, s.underloaded)] else []);
    var rest := LeaderNote(sorted, metric) + (if s.highPerformers > 0 then [Excellence(s.highPerformers)] else []) + (if s.avgTime > 0.0 then [ResolutionSpeed(s.avgTime)] else []);
    assert ins == head + rest;
    assert forall x: Insight :: x in rest ==> !x.WorkloadAlert?;
    if s.overloaded > 0 {
      assert ins[1].WorkloadAlert?;
    }
  }

  /** The note follows the team lines: it is the insight just after them. */
  lemma LeaderNoteAt(sorted: seq<AgentRow>, s: Summary, metric: string) returns (at: nat)
    requires |sorted| > 0
    ensures var ins := AgentInsights(sorted, s, metric); var note := LeaderNote(sorted, metric);
      at + |note| <= |ins| && ins[at..at + |note|] == note
  {
    var head := [TeamOverview(s.totalAgents, s.avgActive, s.avgRate)] + (if s.overloaded > 0 then [WorkloadAlert(s.overloaded, s.balanced, s.underloaded)] else []);
    var note := LeaderNote(sorted, metric);
    var tail := (if s.highPerformers > 0 then [Excellence(s.highPerformers)] else []) + (if s.avgTime > 0.0 then [ResolutionSpeed(s.avgTime)] else []);
    assert AgentInsights(sorted, s, metric) == head + note + tail;
    at := |head|;
  }

  /** After the descending sort by active cases, the first row has the largest active count. */
  lemma FirstHasMostActive(table: seq<AgentRow>)
    requires |table| > 0
    ensures var sorted := SortBy(table, ByActiveDescending);
      forall r :: r in table ==> r.active <= sorted[0].active
  {
    var sorted := SortBy(table, ByActiveDescending);
    forall r | r in table ensures r.active <= sorted[0].active {
      assert r in multiset(sorted);
      var j :| 0 <= j < |sorted| && sorted[j] == r;
      if j > 0 {
        assert ByActiveDescending(sorted[0]) <= ByActiveDescending(sorted[j]);
      }
    }
  }

  /** On 'count' the highest caseload named is the largest active count in the table. */
  lemma HighestCaseloadIsMax(table: seq<AgentRow>, s: Summary)
    requires |table| > 0
    ensures var ins := AgentInsights(SortByMetric(table, "count"), s, "count");
      exists x :: x in ins && x.HighestCaseload? && forall r :: r in table ==> r.active <= x.active
  {
    var sorted := SortBy(table, ByActiveDescending);
    assert SortByMetric(table, "count") == sorted;
    var at := LeaderNoteAt(sorted, s, "count");
    var x := HighestCaseload(sorted[0].agent, sorted[0].active);
    assert LeaderNote(sorted, "count") == [x];
    assert AgentInsights(sorted, s, "count")[at] == x;
    FirstHasMostActive(table);
  }

  /** A permutation has an element passing a test exactly when the filter over the other is non-empty. */
  lemma PermutedFilter<T(!new)>(xs: seq<T>, ys: seq<T>, p: T -> bool)
    requires multiset(xs) == multiset(ys)
    ensures |Filter(xs, p)| > 0 <==> exists y :: y in ys && p(y)
  {
    if exists y :: y in ys && p(y) {
      var y :| y in ys && p(y);
      assert y in multiset(xs);
      assert y in Filter(xs, p);
    }
    if |Filter(xs, p)| > 0 {
      var x := Filter(xs, p)[0];
      assert x in multiset(ys);
    }
  }

  /** On 'efficiency' a risk alert appears exactly when some agent's risk is at least 60. */
  lemma RiskAlertIffHighRisk(table: seq<AgentRow>, s: Summary)
    requires |table| > 0
    ensures var ins := AgentInsights(SortByMetric(table, "efficiency"), s, "efficiency");
      (exists x :: x in ins && x.RiskAlert?) <==> exists r :: r in table && r.risk >= 60.0
  {
    var sorted := SortByRisk(table);
    assert SortByMetric(table, "efficiency") == sorted;
    var ins := AgentInsights(sorted, s, "efficiency");
    var head := [TeamOverview(s.totalAgents, s.avgActive, s.avgRate)] + (if s.overloaded > 0 then [WorkloadAlert(s.overloaded, s.balanced, s.underloaded)] else []);
    var note := LeaderNote(sorted, "efficiency");
    var tail := (if s.highPerformers > 0 then [Excellence(s.highPerformers)] else []) + (if s.avgTime > 0.0 then [ResolutionSpeed(s.avgTime)] else []);
    assert ins == head + note + tail;
    assert forall x: Insight :: x in head + tail ==> !x.RiskAlert?;
    assert (exists x :: x in note && x.RiskAlert?) <==> |Filter(sorted, HighRisk)| > 0 by {
      if |Filter(sorted, HighRisk)| > 0 {
        assert note[0].RiskAlert?;
      }
    }
    PermutedFilter(sorted, table, HighRisk);
  }

  // ---------------------------------------------------------------------
  // The main callback and the chart modal

  datatype AgentPanel =
    | NoComplianceData
    | NoAgentPerformance
    | AgentError
    | AgentShown(chart: AgentChart, insights: seq<Insight>)

  /**
   * `update_agent_performance_chart`: no data for an empty fetched frame;
   * the error panel when the filter raises or the metric builds no
   * figure; a no-agents panel when the analysis keeps nobody; otherwise
   * the sorted chart and the insights.
   */
  function UpdateAgentPerformance(base: seq<Case>, st: Store, metric: string, topCount: nat, now: int): AgentPanel
  {
    if |base| == 0 then NoComplianceData
    else
      match ApplyComplianceFilters(base, st)
      case None => AgentError
      case Some(filtered) => AgentPanelOf(AnalyzeAgents(filtered, now), metric, topCount)
  }

  /** The panel for the analysed table: no agents, the metric's chart with the insights, or the error path. */
  function AgentPanelOf(table: seq<AgentRow>, metric: string, topCount: nat): AgentPanel
  {
    if |table| == 0 then NoAgentPerformance
    else
      var sorted := SortByMetric(table, metric);
      match AgentChartOf(sorted, metric, topCount)
      case None => AgentError
      case Some(chart) => AgentShown(chart, AgentInsights(sorted, SummaryOf(table), metric))
  }

  function ChartTop(chart: AgentChart): seq<AgentRow>
  {
    if chart.NoAgentChart? then [] else chart.top
  }

  /**
   * For a known metric the chart shows `top_count` agents (or all), each
   * from the table, leading the rest on the metric.
   */
  lemma ChartShowsLeaders(table: seq<AgentRow>, metric: string, topCount: nat)
    requires |table| > 0 && KnownMetric(metric)
    ensures var chart := AgentChartOf(SortByMetric(table, metric), metric, topCount);
      chart.Some? && !chart.value.NoAgentChart? &&
      |ChartTop(chart.value)| == (if topCount < |table| then topCount else |table|) &&
      (forall t :: t in ChartTop(chart.value) ==> t in table) &&
      (forall r :: r in table ==>
        r in ChartTop(chart.value) || forall t :: t in ChartTop(chart.value) ==> MetricValue(r, metric) <= MetricValue(t, metric))
  {
    var sorted := SortByMetric(table, metric);
    SortByMetricSpec(table, metric);
    TopAgentsLead(table, metric, topCount);
    var top := Head(sorted, topCount);
    assert ChartTop(AgentChartOf(sorted, metric, topCount).value) == top;
    forall t | t in top ensures t in table {
      assert t in multiset(sorted);
    }
  }

  /**
   * No agents exactly when the analysis keeps none; with agents, an error
   * exactly for an unknown metric, and otherwise the chart of the
   * metric-sorted table with its insights.
   */
  lemma AgentPanelSpec(table: seq<AgentRow>, metric: string, topCount: nat)
    ensures var panel := AgentPanelOf(table, metric, topCount);
      (panel == NoAgentPerformance <==> |table| == 0) &&
      (|table| > 0 ==> (panel == AgentError <==> !KnownMetric(metric))) &&
      (|table| > 0 && KnownMetric(metric) ==>
        var sorted := SortByMetric(table, metric);
        panel == AgentShown(AgentChartOf(sorted, metric, topCount).value, AgentInsights(sorted, SummaryOf(table), metric)))
  {
  }

  /** Once the filter succeeds, the callback shows the panel of the analysed filtered cases. */
  lemma UpdateAgentPerformanceSpec(base: seq<Case>, st: Store, metric: string, topCount: nat, now: int)
    requires |base| > 0 && ApplyComplianceFilters(base, st).Some?
    ensures var table := AnalyzeAgents(ApplyComplianceFilters(base, st).value, now);
      var panel := UpdateAgentPerformance(base, st, metric, topCount, now);
      (panel == NoAgentPerformance <==> |table| == 0) &&
      (|table| > 0 ==> (panel == AgentError <==> !KnownMetric(metric)))
  {
    AgentPanelSpec(AnalyzeAgents(ApplyComplianceFilters(base, st).value, now), metric, topCount);
  }

  /** `toggle_agent_performance_chart_modal`: a wrapper click opens a closed modal when there is a figure. */
  function ChartModal(clicks: nat, isOpen: bool, hasFigure: bool): (r: Option<bool>)
    ensures r.Some? <==> clicks > 0 && !isOpen && hasFigure
    ensures r.Some? ==> r.value
  {
    if clicks > 0 && !isOpen && hasFigure then Some(true) else None
  }
}
