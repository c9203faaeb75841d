/**
 * The source-analysis panel: its dataset filter (the date range bounds
 * CreatedOn from below and ClosedOn from above), the case-origin groups,
 * the per-group ticket counts, the top and least groups, and the order of
 * the details table.
 */
module WorkflowSourceAnalysis {
  import opened Common
  import opened WorkflowData
  import opened WorkflowSummaryCards

  // ---------------------------------------------------------------------
  // The dataset filter

  /** Rows without CreatedOn are dropped; with both store dates, CreatedOn from the first day and ClosedOn up to the last. */
  function SourceDateTest(st: Store): WorkItem -> bool
  {
    var from, to := DateOf(st, "Day_From"), DateOf(st, "Day_To");
    if from.Some? && to.Some? then
      (w: WorkItem) => w.createdOn.Some? && w.createdOn.value >= DayStart(from.value) &&
                       w.closedOn.Some? && w.closedOn.value <= DayStart(to.value)
    else
      (w: WorkItem) => w.createdOn.Some?
  }

  /** `apply_source_analysis_filters`: a missing store is empty, an empty table is returned as is; dates, then ten memberships. */
  function SourceFilter(items: seq<WorkItem>, stored: Option<Store>): seq<WorkItem>
  {
    var st := if stored.Some? then stored.value else Store(map[], map[]);
    if |items| == 0 then items
    else NarrowAll(Filter(items, SourceDateTest(st)), ItemCell, StoredSelections(st), ItemFilterOrder)
  }

  /** The filter keeps, in order, exactly the rows passing the date test that every active selection admits. */
  lemma SourceFilterSpec(items: seq<WorkItem>, st: Store)
    ensures SourceFilter(items, Some(st)) ==
      Filter(items, (w: WorkItem) => SourceDateTest(st)(w) && MatchesAll(w, ItemCell, StoredSelections(st), ItemFilterOrder))
  {
    if |items| > 0 {
      NarrowAfterFilter(items, SourceDateTest(st),
        (w: WorkItem) => SourceDateTest(st)(w) && MatchesAll(w, ItemCell, StoredSelections(st), ItemFilterOrder),
        ItemCell, StoredSelections(st), ItemFilterOrder);
    }
  }

  /** Once both dates are stored, a ticket still open (no ClosedOn) never reaches the panel. */
  lemma OpenTicketsDropped(items: seq<WorkItem>, st: Store, w: WorkItem)
    requires DateOf(st, "Day_From").Some? && DateOf(st, "Day_To").Some?
    requires w.closedOn.None?
    ensures w !in SourceFilter(items, Some(st))
  {
    SourceFilterSpec(items, st);
  }

  // ---------------------------------------------------------------------
  // Origin groups

  const EmailOrigins: set<string> :=
    {"support-email", "association-support-email", "email", "compliance-email",
     "training-request-email", "legal-email", "ceo-email"}

  /** `map_case_origin_group`: the lower-cased origin looked up; a non-string is treated as "". */
  function OriginGroup(origin: Option<string>): string
  {
    var o := if origin.Some? then Lower(origin.value) else "";
    if o == "phone-call" then "Phone Call"
    else if o == "chat" then "Chat"
    else if o in EmailOrigins then "Email"
    else if o == "crmls-staff" then "Staff Reported"
    else if o == "voicemail" then "Voicemail"
    else "Others"
  }

  const GroupNames: set<string> := {"Phone Call", "Chat", "Email", "Staff Reported", "Voicemail", "Others"}

  /**
   * The grouping is total over six names and ignores letter case; a missing
   * origin and any origin outside the known lists go to "Others", and an
   * origin is an e-mail exactly when its lower-cased form is one of the seven
   * e-mail origins.
   */
  lemma OriginGroupSpec(origin: Option<string>)
    ensures OriginGroup(origin) in GroupNames
    ensures origin.Some? ==> OriginGroup(origin) == OriginGroup(Some(Lower(origin.value)))
    ensures OriginGroup(origin) == "Email" <==> origin.Some? && Lower(origin.value) in EmailOrigins
    ensures origin.None? ==> OriginGroup(origin) == "Others"
  {
    if origin.Some? {
      LowerIdempotent(origin.value);
    }
  }

  function GroupOf(w: WorkItem): string
  {
    OriginGroup(w.caseOrigin)
  }

  predicate Present(w: WorkItem)
  {
    w.caseOrigin.Some?
  }

  /** `count` on CaseOrigin counts only rows whose origin is present. */
  function HasOrigin(w: WorkItem): int
  {
    if w.caseOrigin.Some? then 1 else 0
  }

  /** One row of the grouped table. */
  datatype GroupCount = GroupCount(group: string, tickets: int)

  /** The origin groups present, ascending as `groupby` orders them, each with its count of present origins. */
  function GroupCounts(rows: seq<WorkItem>): (r: seq<GroupCount>)
    ensures |r| == |SortedUnique(Map(rows, GroupOf))|
  {
    Map(SortedUnique(Map(rows, GroupOf)), (g: string) => GroupCount(g, GroupSum(rows, GroupOf, HasOrigin, g)))
  }

  function TicketsOf(c: GroupCount): int { c.tickets }

  /** The group counts add up to the number of rows with a present CaseOrigin. */
  lemma GroupCountsTotal(rows: seq<WorkItem>)
    ensures Sum(Map(GroupCounts(rows), TicketsOf)) == Sum(Map(rows, HasOrigin))
    ensures Sum(Map(rows, HasOrigin)) == |Filter(rows, Present)|
  {
    var keys := SortedUnique(Map(rows, GroupOf));
    AscendingDistinct(keys);
    forall w | w in rows ensures GroupOf(w) in keys {
      var i :| 0 <= i < |rows| && rows[i] == w;
      assert Map(rows, GroupOf)[i] == GroupOf(w);
    }
    GroupSumsTotal(keys, rows, GroupOf, HasOrigin);
    GroupSumsAsList(keys, rows);
    PresentCount(rows);
  }

  lemma {:induction false} GroupSumsAsList(keys: seq<string>, rows: seq<WorkItem>)
    ensures Sum(Map(Map(keys, (g: string) => GroupCount(g, GroupSum(rows, GroupOf, HasOrigin, g))), TicketsOf)) ==
      GroupSums(keys, rows, GroupOf, HasOrigin)
  {
    if |keys| > 0 {
      GroupSumsAsList(keys[1..], rows);
      var f := (g: string) => GroupCount(g, GroupSum(rows, GroupOf, HasOrigin, g));
      assert Map(keys, f)[1..] == Map(keys[1..], f);
      assert Map(Map(keys, f), TicketsOf)[1..] == Map(Map(keys, f)[1..], TicketsOf);
    }
  }

  lemma {:induction false} PresentCount(rows: seq<WorkItem>)
    ensures Sum(Map(rows, HasOrigin)) == |Filter(rows, Present)|
  {
    if |rows| > 0 {
      PresentCount(rows[1..]);
      assert Map(rows, HasOrigin)[1..] == Map(rows[1..], HasOrigin);
    }
  }

  /** The top group (most tickets) and the least group (fewest), or "N/A" with 0 when nothing is grouped. */
  datatype Extremes = Extremes(top: string, topCount: int, least: string, leastCount: int)

  function Descending(c: GroupCount): int { -c.tickets }

  function GroupExtremes(counts: seq<GroupCount>): Extremes
  {
    if |counts| == 0 then Extremes("N/A", 0, "N/A", 0)
    else
      var desc := SortBy(counts, Descending);
      var asc := SortBy(counts, TicketsOf);
      Extremes(desc[0].group, desc[0].tickets, asc[0].group, asc[0].tickets)
  }

  /** The top group has the largest count of all groups and the least group the smallest; both are listed groups. */
  lemma GroupExtremesSpec(counts: seq<GroupCount>)
    ensures |counts| == 0 ==> GroupExtremes(counts) == Extremes("N/A", 0, "N/A", 0)
    ensures |counts| > 0 ==> var e := GroupExtremes(counts);
      GroupCount(e.top, e.topCount) in counts && GroupCount(e.least, e.leastCount) in counts &&
      forall c :: c in counts ==> e.leastCount <= c.tickets <= e.topCount
  {
    if |counts| > 0 {
      var desc := SortBy(counts, Descending);
      var asc := SortBy(counts, TicketsOf);
      assert desc[0] in multiset(counts);
      assert asc[0] in multiset(counts);
      forall c | c in counts ensures asc[0].tickets <= c.tickets <= desc[0].tickets {
        assert c in multiset(desc);
        assert c in multiset(asc);
        var i :| 0 <= i < |desc| && desc[i] == c;
        var j :| 0 <= j < |asc| && asc[j] == c;
        if i > 0 { assert Descending(desc[0]) <= Descending(desc[i]); }
        if j > 0 { assert TicketsOf(asc[0]) <= TicketsOf(asc[j]); }
      }
    }
  }

  // ---------------------------------------------------------------------
  // The details table

  /** One details row: a present origin with its group, its own count and its group's total. */
  datatype DetailRow = DetailRow(group: string, origin: string, tickets: nat, groupTotal: nat)

  /** The rows of one present origin value. */
  function OriginCount(rows: seq<WorkItem>, o: string): nat
  {
    |Filter(rows, (w: WorkItem) => w.caseOrigin == Some(o))|
  }

  /** The tickets of a group whose origin is present (the sum of that group's detail counts). */
  function GroupTotal(rows: seq<WorkItem>, g: string): nat
  {
    |Filter(Where(rows, GroupOf, g), Present)|
  }

  function PresentOrigins(rows: seq<WorkItem>): seq<string>
  {
    Somes(Map(rows, (w: WorkItem) => w.caseOrigin))
  }

  function DetailOf(rows: seq<WorkItem>, o: string): DetailRow
  {
    DetailRow(OriginGroup(Some(o)), o, OriginCount(rows, o), GroupTotal(rows, OriginGroup(Some(o))))
  }

  /** Group total first, origin count second, both descending; counts never exceed the row count, so one key orders both. */
  function DetailKey(n: nat): DetailRow -> int
  {
    (d: DetailRow) => -(d.groupTotal * (n + 1) + d.tickets)
  }

  /** The details table: one row per present origin, sorted by group total and then origin count, both descending. */
  function Details(rows: seq<WorkItem>): seq<DetailRow>
  {
    SortBy(Map(SortedUnique(PresentOrigins(rows)), (o: string) => DetailOf(rows, o)), DetailKey(|rows|))
  }

  /** A larger combined key means a larger group total, or an equal total and a larger count. */
  lemma LexicographicKey(a: nat, b: nat, c: nat, e: nat, n: nat)
    requires b <= n && e <= n
    requires a * (n + 1) + b >= c * (n + 1) + e
    ensures a > c || (a == c && b >= e)
  {
    if a < c {
      assert c * (n + 1) >= (a + 1) * (n + 1) by {
        assert c >= a + 1;
        MulMonotone(a + 1, c, n + 1);
      }
      assert false;
    }
  }

  lemma MulMonotone(x: nat, y: nat, k: nat)
    requires x <= y
    ensures x * k <= y * k
  {
  }

  lemma DetailBounds(rows: seq<WorkItem>, o: string)
    ensures DetailOf(rows, o).tickets <= |rows| && DetailOf(rows, o).groupTotal <= |rows|
  {
  }

  /** Every details row counts at most the rows there are. */
  lemma DetailsBounded(rows: seq<WorkItem>)
    ensures forall d :: d in Details(rows) ==> d.tickets <= |rows| && d.groupTotal <= |rows|
  {
    var origins := SortedUnique(PresentOrigins(rows));
    var listed := Map(origins, (o: string) => DetailOf(rows, o));
    forall d | d in Details(rows) ensures d.tickets <= |rows| && d.groupTotal <= |rows| {
      assert d in multiset(listed);
      var k :| 0 <= k < |listed| && listed[k] == d;
      DetailBounds(rows, origins[k]);
    }
  }

  /** Two bounded rows in key order are in (group total, count) order. */
  lemma KeyOrdered(d1: DetailRow, d2: DetailRow, n: nat)
    requires d1.tickets <= n && d1.groupTotal <= n && d2.tickets <= n && d2.groupTotal <= n
    requires DetailKey(n)(d1) <= DetailKey(n)(d2)
    ensures d1.groupTotal > d2.groupTotal || (d1.groupTotal == d2.groupTotal && d1.tickets >= d2.tickets)
  {
    LexicographicKey(d1.groupTotal, d1.tickets, d2.groupTotal, d2.tickets, n);
  }

  /**
   * The details are ordered by group total descending, and within equal
   * totals by origin count descending.
   */
  lemma DetailsOrdered(rows: seq<WorkItem>)
    ensures forall i, j :: 0 <= i < j < |Details(rows)| ==>
      Details(rows)[i].groupTotal > Details(rows)[j].groupTotal ||
      (Details(rows)[i].groupTotal == Details(rows)[j].groupTotal && Details(rows)[i].tickets >= Details(rows)[j].tickets)
  {
    var ds := Details(rows);
    DetailsBounded(rows);
    forall i, j | 0 <= i < j < |ds|
      ensures ds[i].groupTotal > ds[j].groupTotal || (ds[i].groupTotal == ds[j].groupTotal && ds[i].tickets >= ds[j].tickets)
    {
      assert ds[i] in ds && ds[j] in ds;
      KeyOrdered(ds[i], ds[j], |rows|);
    }
  }

  /** Each details row's group total is the count of that group in the grouped table. */
  lemma DetailMatchesGroup(rows: seq<WorkItem>, o: string)
    ensures DetailOf(rows, o).groupTotal == Sum(Map(Where(rows, GroupOf, OriginGroup(Some(o))), HasOrigin))
  {
    PresentCount(Where(rows, GroupOf, OriginGroup(Some(o))));
  }

  // ---------------------------------------------------------------------
  // The details modal

  /** `toggle_source_details_modal`: the details button opens, the close button closes, anything else keeps. */
  function DetailsOpen(trigger: Option<string>, openClicks: nat, closeClicks: nat, isOpen: bool): bool
  {
    if trigger == Some("workflow-source-details-btn") && openClicks > 0 then true
    else if trigger == Some("workflow-source-details-close-btn") && closeClicks > 0 then false
    else isOpen
  }

  lemma DetailsOpenSpec(trigger: Option<string>, openClicks: nat, closeClicks: nat, isOpen: bool)
    ensures trigger == Some("workflow-source-details-btn") && openClicks > 0 ==> DetailsOpen(trigger, openClicks, closeClicks, isOpen)
    ensures trigger == Some("workflow-source-details-close-btn") && closeClicks > 0 ==> !DetailsOpen(trigger, openClicks, closeClicks, isOpen)
    ensures trigger !in {Some("workflow-source-details-btn"), Some("workflow-source-details-close-btn")} ==>
      DetailsOpen(trigger, openClicks, closeClicks, isOpen) == isOpen
  {
  }
}
