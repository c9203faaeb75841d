/**
 * The recent-activities panel of the Compliance page: activity-count
 * buckets in their fixed order, the lifecycle-stage icons and row classes,
 * the chart data of the four views, the insights, and the view and modal
 * toggles. The recent events and their summary figures come from
 * `prepare_recent_activities_data`, which is a parameter here.
 */
module ComplianceRecentActivities {
  import opened Common
  import opened ComplianceData

  /** One event of the case history: its case, lifecycle stage and day (`ActionDate.dt.date`). */
  datatype Event = Event(caseNumber: string, stage: string, day: int)

  /** The figures `prepare_recent_activities_data` returns beside the events. */
  datatype ActivitySummary = ActivitySummary(totalActivities: nat, uniqueCases: nat, dailyAverage: real, mostActiveDay: Option<int>, timeframeLabel: string)

  // ---------------------------------------------------------------------
  // Activity-count buckets

  const BucketOrder: seq<string> := ["1 Activity", "2-3 Activities", "4-5 Activities", "6-10 Activities", "10+ Activities"]

  /** The position in `BucketOrder` of the bucket of a count. */
  function BucketIndex(count: nat): (k: nat)
    ensures k < 5
  {
    if count == 1 then 0
    else if count <= 3 then 1
    else if count <= 5 then 2
    else if count <= 10 then 3
    else 4
  }

  /** `categorize_activity_count`. */
  function ActivityBucket(count: nat): string
  {
    BucketOrder[BucketIndex(count)]
  }

  /** The bucket bounds: 1, 2-3, 4-5, 6-10 and more than 10; larger counts never land in an earlier bucket. */
  lemma ActivityBucketSpec(count: nat, other: nat)
    requires count >= 1
    ensures ActivityBucket(count) == "1 Activity" <==> count == 1
    ensures ActivityBucket(count) == "2-3 Activities" <==> 2 <= count <= 3
    ensures ActivityBucket(count) == "4-5 Activities" <==> 4 <= count <= 5
    ensures ActivityBucket(count) == "6-10 Activities" <==> 6 <= count <= 10
    ensures ActivityBucket(count) == "10+ Activities" <==> count > 10
    ensures count <= other ==> BucketIndex(count) <= BucketIndex(other)
  {
    BucketNamesDistinct();
  }

  lemma BucketNamesDistinct()
    ensures NoDuplicates(BucketOrder)
  {
    var b := BucketOrder;
    assert |b[0]| == 10 && |b[1]| == 14 && |b[2]| == 14 && |b[3]| == 15 && |b[4]| == 14;
    assert b[1][0] != b[2][0] && b[1][0] != b[4][0] && b[2][0] != b[4][0];
  }

  /** The bucket position of a case's event count. */
  function BucketOfCount(e: (string, nat)): nat
  {
    BucketIndex(e.1)
  }

  function IndexKey(e: (nat, nat)): int
  {
    e.0
  }

  function BucketName(e: (nat, nat)): (string, nat)
  {
    (if e.0 < |BucketOrder| then BucketOrder[e.0] else "", e.1)
  }

  function CaseOf(e: Event): string
  {
    e.caseNumber
  }

  /** Cases counted per bucket position of their number of events, positions in increasing order. */
  function BucketCounts(events: seq<Event>): seq<(nat, nat)>
  {
    var perCase := ValueCounts(Map(events, CaseOf));
    SortBy(ValueCounts(Map(perCase, BucketOfCount)), IndexKey)
  }

  /** The case-activity view: each bucket named, in the fixed order. */
  function CaseActivityBuckets(events: seq<Event>): seq<(string, nat)>
  {
    Map(BucketCounts(events), BucketName)
  }

  /**
   * Buckets appear in the order 1 to 10+ whatever their sizes, each once,
   * and their case counts add up to the number of distinct cases.
   */
  lemma CaseActivityBucketsSpec(events: seq<Event>)
    ensures var b := BucketCounts(events);
      (forall i, j :: 0 <= i < j < |b| ==> b[i].0 < b[j].0) &&
      (forall i :: 0 <= i < |b| ==> b[i].0 < 5 && CaseActivityBuckets(events)[i] == (BucketOrder[b[i].0], b[i].1)) &&
      Sum(Map(b, CountOf)) == |Distinct(Map(events, CaseOf))|
  {
    var perCase := ValueCounts(Map(events, CaseOf));
    var buckets := Map(perCase, BucketOfCount);
    SortedPositions(buckets);
    ValueCountsTotal(buckets);
    SumMapSort(ValueCounts(buckets), IndexKey, CountOf);
  }

  /** Sorting the counts of positions below 5 by position: increasing positions, all below 5. */
  lemma SortedPositions(buckets: seq<nat>)
    requires forall k :: k in buckets ==> k < 5
    ensures var b := SortBy(ValueCounts(buckets), IndexKey);
      (forall i, j :: 0 <= i < j < |b| ==> b[i].0 < b[j].0) && (forall i :: 0 <= i < |b| ==> b[i].0 < 5)
  {
    var b := SortBy(ValueCounts(buckets), IndexKey);
    forall i | 0 <= i < |b| ensures b[i].0 < 5 {
      SortedEntry(buckets, b, i);
    }
    forall i, j | 0 <= i < j < |b| ensures b[i].0 < b[j].0 {
      assert IndexKey(b[i]) <= IndexKey(b[j]);
      SortedEntries(buckets, b, i, j);
    }
  }

  lemma SortedEntry(buckets: seq<nat>, b: seq<(nat, nat)>, i: nat)
    requires multiset(b) == multiset(ValueCounts(buckets)) && i < |b|
    ensures b[i].0 in buckets && b[i].1 == Count(buckets, b[i].0)
  {
    assert b[i] in multiset(ValueCounts(buckets));
    ValueCountsEntry(buckets, b[i]);
  }

  /** Two entries of a permutation of the counts differ in their value. */
  lemma SortedEntries(buckets: seq<nat>, b: seq<(nat, nat)>, i: nat, j: nat)
    requires multiset(b) == multiset(ValueCounts(buckets)) && i < j < |b|
    ensures b[i].0 != b[j].0
  {
    var vc := ValueCounts(buckets);
    ValueCountsKeys(buckets);
    assert NoDuplicates(vc) by {
      forall a, c | 0 <= a < c < |vc| ensures vc[a] != vc[c] {
        assert Map(vc, KeyOf)[a] != Map(vc, KeyOf)[c];
      }
    }
    PermutationNoDuplicates(vc, b);
    SortedEntry(buckets, b, i);
    SortedEntry(buckets, b, j);
  }

  // ---------------------------------------------------------------------
  // Stage icons and row classes

  const DefaultIcon: string := "\U{1F4CC}"

  /** `get_stage_icon`'s table: 26 lifecycle stages, "Other" among them with the default pin. */
  const StageIcons: map<string, string> := map[
    "Note Update" := "\U{1F4DD}",
    "Case Creation" := "\U{1F195}",
    "Case Update" := "\U{270F}\U{FE0F}",
    "Case Closure" := "\U{2705}",
    "Case Reopening" := "\U{1F504}",
    "Investigation Start" := "\U{1F50D}",
    "Investigation Status Change" := "\U{1F52C}",
    "Review Status Change" := "\U{1F4CB}",
    "Notice Creation" := "\U{1F4E2}",
    "Invoice Creation" := "\U{1F4B0}",
    "Invoice Link" := "\U{1F517}",
    "Invoice Status Change" := "\U{1F4B1}",
    "Payment Invoice Creation" := "\U{1F4B3}",
    "Payment Record Creation" := "\U{1F4B3}",
    "Payment Record Update" := "\U{1F4B3}",
    "Report Association" := "\U{1F4CA}",
    "Report Update" := "\U{1F4C8}",
    "Report Disposition Change" := "\U{2696}\U{FE0F}",
    "Report Reason Change" := "\U{1F4DD}",
    "Assignee Change" := "\U{1F465}",
    "Member Change" := "\U{1F464}",
    "Case Link" := "\U{1F517}",
    "Case Unlink" := "\U{1F513}",
    "Listing Change" := "\U{1F3E0}",
    "Test Stage" := "\U{1F9EA}",
    "Other" := "\U{1F4CC}"]

  /** `icons.get(stage, '📌')`. */
  function StageIcon(stage: string): string
  {
    if stage in StageIcons then StageIcons[stage] else DefaultIcon
  }

  /** A stage gets an icon other than the pin only when it is listed; unlisted stages get the pin. */
  lemma StageIconSpec(stage: string)
    ensures StageIcon(stage) != DefaultIcon ==> stage in StageIcons
    ensures stage !in StageIcons ==> StageIcon(stage) == DefaultIcon
    ensures StageIcon("Other") == DefaultIcon
  {
  }

  /** `stage_colors` of the details table: the row class of each lifecycle stage. */
  const StageRowClasses: map<string, string> := map[
    "Case Creation" := "table-success",
    "Case Closure" := "table-danger",
    "Case Reopening" := "table-warning",
    "Case Update" := "table-primary",
    "Investigation Start" := "table-warning",
    "Investigation Status Change" := "table-warning",
    "Notice Creation" := "table-info",
    "Review Status Change" := "table-info",
    "Invoice Creation" := "table-success",
    "Invoice Link" := "table-success",
    "Invoice Status Change" := "table-success",
    "Payment Invoice Creation" := "table-success",
    "Payment Record Creation" := "table-success",
    "Payment Record Update" := "table-success",
    "Case Link" := "table-primary",
    "Case Unlink" := "table-secondary",
    "Listing Change" := "table-warning",
    "Test Stage" := "table-light",
    "Report Association" := "table-info",
    "Report Update" := "table-info",
    "Report Disposition Change" := "table-info",
    "Report Reason Change" := "table-info",
    "Assignee Change" := "table-secondary",
    "Member Change" := "table-secondary",
    "Note Update" := "table-light"]

  function StageRowClass(stage: string): string
  {
    if stage in StageRowClasses then StageRowClasses[stage] else ""
  }

  /** One row of the details table. */
  datatype DetailRow = DetailRow(caseNumber: string, icon: string, stage: string, rowClass: string)

  function DetailRowOf(e: Event): DetailRow
  {
    DetailRow(e.caseNumber, StageIcon(e.stage), e.stage, StageRowClass(e.stage))
  }

  /** The details table: the first 50 events, each with its stage icon and row class. */
  function DetailRows(events: seq<Event>): (r: seq<DetailRow>)
    ensures |r| <= 50 && |r| <= |events|
    ensures forall i :: 0 <= i < |r| ==> r[i].caseNumber == events[i].caseNumber && r[i].stage == events[i].stage && r[i].icon == StageIcon(events[i].stage) && r[i].rowClass == StageRowClass(events[i].stage)
  {
    Map(Head(events, 50), DetailRowOf)
  }

  // ---------------------------------------------------------------------
  // Chart data

  datatype ActivityChart =
    | NoActivityChart(timeframeLabel: string)
    | DailyChart(daily: seq<(int, nat)>)
    | TypeChart(types: seq<(string, nat)>)
    | VolumeChart(daily: seq<(int, nat)>, trendLine: bool)
    | CaseActivityChart(buckets: seq<(string, nat)>, uniqueCases: nat)

  function DayOf(e: Event): int
  {
    e.day
  }

  function StageOf(e: Event): string
  {
    e.stage
  }

  function DayKey(e: (int, nat)): int
  {
    e.0
  }

  /** Events per day, in date order. */
  function DailyCounts(events: seq<Event>): seq<(int, nat)>
  {
    SortBy(ValueCounts(Map(events, DayOf)), DayKey)
  }

  /**
   * `create_recent_activities_chart`: a notice without events; otherwise
   * the view's counts. An unknown view leaves the figure unbound and
   * raises (None).
   */
  function ActivityChartOf(events: seq<Event>, summary: ActivitySummary, view: string): Option<ActivityChart>
  {
    if |events| == 0 then Some(NoActivityChart(summary.timeframeLabel))
    else if view == "timeline" then Some(DailyChart(DailyCounts(events)))
    else if view == "activity_type" then Some(TypeChart(ValueCounts(Map(events, StageOf))))
    else if view == "volume" then Some(VolumeChart(DailyCounts(events), |DailyCounts(events)| >= 7))
    else if view == "case_activity" then Some(CaseActivityChart(CaseActivityBuckets(events), summary.uniqueCases))
    else None
  }

  const KnownViews: seq<string> := ["timeline", "activity_type", "volume", "case_activity"]

  /** The daily counts are in date order and add up to the number of events. */
  lemma DailyCountsSpec(events: seq<Event>)
    ensures Sum(Map(DailyCounts(events), CountOf)) == |events|
    ensures SortedBy(DailyCounts(events), DayKey)
  {
    var days := Map(events, DayOf);
    ValueCountsTotal(days);
    SumMapSort(ValueCounts(days), DayKey, CountOf);
  }

  /** The chart is missing exactly for an unknown view with events. */
  lemma ActivityChartDefined(events: seq<Event>, summary: ActivitySummary, view: string)
    ensures ActivityChartOf(events, summary, view).None? <==> |events| > 0 && view !in KnownViews
  {
  }

  /** Every chart counts each event once: per day in date order, or per stage. */
  lemma ActivityChartSpec(events: seq<Event>, summary: ActivitySummary, view: string)
    requires ActivityChartOf(events, summary, view).Some?
    ensures var ch := ActivityChartOf(events, summary, view).value;
      ((ch.DailyChart? || ch.VolumeChart?) ==> Sum(Map(ch.daily, CountOf)) == |events| && SortedBy(ch.daily, DayKey)) &&
      (ch.TypeChart? ==> Sum(Map(ch.types, CountOf)) == |events|) &&
      (ch.VolumeChart? ==> (ch.trendLine <==> |ch.daily| >= 7)) &&
      (ch.NoActivityChart? <==> |events| == 0)
  {
    if |events| > 0 {
      if view == "timeline" || view == "volume" {
        DailyCountsSpec(events);
      } else if view == "activity_type" {
        ValueCountsTotal(Map(events, StageOf));
      }
    }
  }

  // ---------------------------------------------------------------------
  // Insights

  datatype Insight =
    | NoRecentActivity(timeframeLabel: string)
    | ActivitySummaryNote(activities: nat, cases: nat, dailyAverage: real)
    | MostCommon(stage: string, activities: nat, total: nat)
    | InvestigationActivity(events: nat, cases: nat)
    | CaseResolutions(closures: nat)
    | NoticeActivity(notices: nat)
    | PeakActivity(day: int, activities: nat)

  function StageIn(stages: seq<string>): Event -> bool
  {
    (e: Event) => e.stage in stages
  }

  /** The stage names the investigation insight looks for, as written: with underscores. */
  const InvestigationStagesAsWritten: seq<string> := ["Investigation_Start", "Investigation_Status_Change"]

  /** The investigation stages as the lifecycle tables name them. */
  const InvestigationStages: seq<string> := ["Investigation Start", "Investigation Status Change"]

  const ClosureStages: seq<string> := ["Case Closure"]
  const NoticeStages: seq<string> := ["Notice Creation"]

  function OnDay(day: int): Event -> bool
  {
    (e: Event) => e.day == day
  }

  /** The most common stage with its count, when there is one. */
  function MostCommonNote(stages: seq<string>, total: nat): seq<Insight>
  {
    var counts := ValueCounts(stages);
    if |counts| > 0 then [MostCommon(counts[0].0, counts[0].1, total)] else []
  }

  /** The investigation, closure, notice and peak-day notes. */
  function StageNotes(events: seq<Event>, summary: ActivitySummary, invStages: seq<string>): (r: seq<Insight>)
    ensures |r| <= 4
  {
    var inv := Filter(events, StageIn(invStages));
    var closures := Filter(events, StageIn(ClosureStages));
    var notices := Filter(events, StageIn(NoticeStages));
    (if |inv| > 0 then [InvestigationActivity(|inv|, |Distinct(Map(inv, CaseOf))|)] else []) +
    (if |closures| > 0 then [CaseResolutions(|closures|)] else []) +
    (if |notices| > 0 then [NoticeActivity(|notices|)] else []) +
    (match summary.mostActiveDay
     case None => []
     case Some(d) => [PeakActivity(d, |Filter(events, OnDay(d))|)])
  }

  /** The insights with the investigation stages `invStages`. */
  function InsightsWith(events: seq<Event>, summary: ActivitySummary, invStages: seq<string>): seq<Insight>
  {
    if |events| == 0 then [NoRecentActivity(summary.timeframeLabel)]
    else
      [ActivitySummaryNote(summary.totalActivities, summary.uniqueCases, summary.dailyAverage)] +
      MostCommonNote(Map(events, StageOf), summary.totalActivities) +
      StageNotes(events, summary, invStages)
  }

  /** `generate_recent_activities_insights` as written. */
  function RecentInsightsAsWritten(events: seq<Event>, summary: ActivitySummary): seq<Insight>
  {
    InsightsWith(events, summary, InvestigationStagesAsWritten)
  }

  /** The insights with the investigation stages spelt as the stage tables spell them; the callbacks below use it. */
  function RecentInsights(events: seq<Event>, summary: ActivitySummary): seq<Insight>
  {
    InsightsWith(events, summary, InvestigationStages)
  }

  /** Every stage the icon table lists. */
  predicate ListedStages(events: seq<Event>)
  {
    forall e :: e in events ==> e.stage in StageIcons
  }

  lemma UnderscoreNamesUnlisted()
    ensures "Investigation_Start" !in StageIcons && "Investigation_Status_Change" !in StageIcons
  {
    var a := "Investigation_Start";
    var b := "Investigation_Status_Change";
    assert a[13] == '_' && b[13] == '_';
    forall k | k in StageIcons ensures k != a && k != b {
      assert k[|k| - 1] != 't' || |k| != |a| || k[13] != '_';
    }
  }

  /** As written, events of listed stages never give the investigation insight. */
  lemma InvestigationNeverReported(events: seq<Event>, summary: ActivitySummary)
    requires ListedStages(events)
    ensures Filter(events, StageIn(InvestigationStagesAsWritten)) == []
  {
    UnderscoreNamesUnlisted();
    FilterNone(events, StageIn(InvestigationStagesAsWritten));
  }

  /** With the stage tables' names, an investigation event is reported with its count. */
  lemma InvestigationReported(events: seq<Event>, summary: ActivitySummary, e: Event)
    requires e in events && e.stage == "Investigation Start"
    ensures var inv := Filter(events, StageIn(InvestigationStages));
      |inv| > 0 && InvestigationActivity(|inv|, |Distinct(Map(inv, CaseOf))|) in RecentInsights(events, summary)
  {
    assert StageIn(InvestigationStages)(e);
  }

  /** With stages, the most common one is named with its count, and no stage occurs more often. */
  lemma MostCommonNoteSpec(stages: seq<string>, total: nat)
    requires |stages| > 0
    ensures var r := MostCommonNote(stages, total);
      |r| == 1 && r[0].MostCommon? && r[0].stage in stages && r[0].activities == Count(stages, r[0].stage) &&
      forall x :: x in stages ==> Count(stages, x) <= r[0].activities
  {
    forall x | x in stages ensures Count(stages, x) <= ValueCounts(stages)[0].1 {
      ValueCountsTop(stages, x);
    }
    ValueCountsTop(stages, stages[0]);
    ValueCountsEntry(stages, ValueCounts(stages)[0]);
  }

  /**
   * One notice for no events; otherwise the summary first, then the most
   * common stage, at most six in all.
   */
  lemma RecentInsightsSpec(events: seq<Event>, summary: ActivitySummary)
    ensures |events| == 0 ==> RecentInsights(events, summary) == [NoRecentActivity(summary.timeframeLabel)]
    ensures |events| > 0 ==> var r := RecentInsights(events, summary);
      2 <= |r| <= 6 && r[0] == ActivitySummaryNote(summary.totalActivities, summary.uniqueCases, summary.dailyAverage) &&
      r[1] == MostCommonNote(Map(events, StageOf), summary.totalActivities)[0]
  {
    if |events| > 0 {
      var mc := MostCommonNote(Map(events, StageOf), summary.totalActivities);
      var rest := StageNotes(events, summary, InvestigationStages);
      MostCommonNoteSpec(Map(events, StageOf), summary.totalActivities);
      assert RecentInsights(events, summary) == [ActivitySummaryNote(summary.totalActivities, summary.uniqueCases, summary.dailyAverage)] + mc + rest;
    }
  }

  // ---------------------------------------------------------------------
  // View and modal toggles

  datatype ViewState = ViewState(view: string, timeline: bool, activityType: bool, volume: bool, caseActivity: bool)

  /** `toggle_recent_activities_view`: each button selects its view; no trigger or another one gives the timeline. */
  function ToggleView(trigger: Option<string>): (r: ViewState)
  {
    if trigger == Some("activities-type-view-btn") then ViewState("activity_type", false, true, false, false)
    else if trigger == Some("activities-volume-view-btn") then ViewState("volume", false, false, true, false)
    else if trigger == Some("activities-case-view-btn") then ViewState("case_activity", false, false, false, true)
    else ViewState("timeline", true, false, false, false)
  }

  /** Exactly one button is active, the one of the chosen view, and no trigger gives the timeline. */
  lemma ToggleViewSpec(trigger: Option<string>)
    ensures var s := ToggleView(trigger);
      (if s.timeline then 1 else 0) + (if s.activityType then 1 else 0) + (if s.volume then 1 else 0) + (if s.caseActivity then 1 else 0) == 1 &&
      (s.timeline <==> s.view == "timeline") && (s.activityType <==> s.view == "activity_type") &&
      (s.volume <==> s.view == "volume") && (s.caseActivity <==> s.view == "case_activity")
    ensures ToggleView(None).view == "timeline"
  {
  }

  datatype ModalUpdate = NoUpdate | OpenModal | CloseModal

  /** `toggle_recent_activities_details_modal`: a click opens a closed modal and closes an open one; no click changes nothing. */
  function DetailsModal(clicks: nat, isOpen: bool): (r: ModalUpdate)
    ensures clicks > 0 ==> (r == OpenModal <==> !isOpen) && (r == CloseModal <==> isOpen)
    ensures clicks == 0 ==> r == NoUpdate
  {
    if clicks > 0 then (if !isOpen then OpenModal else CloseModal) else NoUpdate
  }

  /** `close_activities_details_modal`: the close button closes an open modal only. */
  function CloseDetails(clicks: nat, isOpen: bool): (r: Option<bool>)
    ensures r.Some? <==> clicks > 0 && isOpen
    ensures r.Some? ==> !r.value
  {
    if clicks > 0 && isOpen then Some(false) else None
  }

  /** `toggle_recent_activities_chart_modal`: only a click on the chart wrapper opens a closed modal. */
  function ChartModal(trigger: Option<string>, clicks: nat, isOpen: bool): (r: Option<bool>)
    ensures r.Some? <==> trigger == Some("compliance-recent-activities-chart-wrapper") && clicks > 0 && !isOpen
    ensures r.Some? ==> r.value
  {
    if trigger == Some("compliance-recent-activities-chart-wrapper") && clicks > 0 && !isOpen then Some(true) else None
  }

  // ---------------------------------------------------------------------
  // The main callback

  datatype ActivitiesPanel = NoComplianceData | ActivitiesError | ActivitiesShown(chart: ActivityChart, insights: seq<Insight>)

  /**
   * `update_recent_activities_chart` with the investigation stages
   * `invStages`: no data for an empty fetched frame; the error panel when
   * the filter or the chart raises; otherwise the chart of the view and
   * the insights. The events are prepared for the timeframe, "30d" when
   * none is chosen.
   */
  function UpdateWith(base: seq<Case>, st: Store, view: string, timeframe: Option<string>,
                      prepare: (seq<Case>, string) -> (seq<Event>, ActivitySummary), invStages: seq<string>): ActivitiesPanel
  {
    if |base| == 0 then NoComplianceData
    else
      match ApplyComplianceFilters(base, st)
      case None => ActivitiesError
      case Some(filtered) =>
        var tf := if timeframe.None? || timeframe.value == "" then "30d" else timeframe.value;
        var (events, summary) := prepare(filtered, tf);
        match ActivityChartOf(events, summary, view)
        case None => ActivitiesError
        case Some(chart) => ActivitiesShown(chart, InsightsWith(events, summary, invStages))
  }

  /** The callback as written, with the underscored investigation stages. */
  function UpdateRecentActivities(base: seq<Case>, st: Store, view: string, timeframe: Option<string>,
                                  prepare: (seq<Case>, string) -> (seq<Event>, ActivitySummary)): ActivitiesPanel
  {
    UpdateWith(base, st, view, timeframe, prepare, InvestigationStagesAsWritten)
  }

  /** The callback with the investigation stages spelt as the stage tables spell them. */
  function UpdateRecentActivitiesIntended(base: seq<Case>, st: Store, view: string, timeframe: Option<string>,
                                          prepare: (seq<Case>, string) -> (seq<Event>, ActivitySummary)): ActivitiesPanel
  {
    UpdateWith(base, st, view, timeframe, prepare, InvestigationStages)
  }

  /**
   * With events, an unknown view shows the error panel; a known one shows
   * its chart and the insights with the given investigation stages.
   */
  lemma UpdateRecentActivitiesSpec(base: seq<Case>, st: Store, view: string, timeframe: Option<string>,
                                   prepare: (seq<Case>, string) -> (seq<Event>, ActivitySummary), invStages: seq<string>)
    requires |base| > 0 && ApplyComplianceFilters(base, st).Some?
    ensures var tf := if timeframe.None? || timeframe.value == "" then "30d" else timeframe.value;
      var (events, summary) := prepare(ApplyComplianceFilters(base, st).value, tf);
      var panel := UpdateWith(base, st, view, timeframe, prepare, invStages);
      (|events| > 0 && view !in KnownViews ==> panel == ActivitiesError) &&
      (|events| == 0 || view in KnownViews ==>
        panel.ActivitiesShown? && panel.insights == InsightsWith(events, summary, invStages))
  {
    var tf := if timeframe.None? || timeframe.value == "" then "30d" else timeframe.value;
    var (events, summary) := prepare(ApplyComplianceFilters(base, st).value, tf);
    ActivityChartDefined(events, summary, view);
  }

  /** The panel as written shows the insights as written: no investigation note for events of listed stages. */
  lemma UpdateRecentActivitiesAsWritten(base: seq<Case>, st: Store, view: string, timeframe: Option<string>,
                                        prepare: (seq<Case>, string) -> (seq<Event>, ActivitySummary))
    requires |base| > 0 && ApplyComplianceFilters(base, st).Some?
    ensures var tf := if timeframe.None? || timeframe.value == "" then "30d" else timeframe.value;
      var (events, summary) := prepare(ApplyComplianceFilters(base, st).value, tf);
      var panel := UpdateRecentActivities(base, st, view, timeframe, prepare);
      (|events| == 0 || view in KnownViews ==>
        panel.ActivitiesShown? && panel.insights == RecentInsightsAsWritten(events, summary)) &&
      (ListedStages(events) && panel.ActivitiesShown? ==> forall x :: x in panel.insights ==> !x.InvestigationActivity?)
  {
    var tf := if timeframe.None? || timeframe.value == "" then "30d" else timeframe.value;
    var (events, summary) := prepare(ApplyComplianceFilters(base, st).value, tf);
    UpdateRecentActivitiesSpec(base, st, view, timeframe, prepare, InvestigationStagesAsWritten);
    if ListedStages(events) {
      InvestigationNeverReported(events, summary);
      NoInvestigationNote(events, summary);
    }
  }

  /** Without events the investigation filter selects, the investigation note is absent. */
  lemma NoInvestigationNote(events: seq<Event>, summary: ActivitySummary)
    requires Filter(events, StageIn(InvestigationStagesAsWritten)) == []
    ensures forall x :: x in RecentInsightsAsWritten(events, summary) ==> !x.InvestigationActivity?
  {
    if |events| > 0 {
      var mc := MostCommonNote(Map(events, StageOf), summary.totalActivities);
      var rest := StageNotes(events, summary, InvestigationStagesAsWritten);
      assert forall x :: x in mc ==> x.MostCommon?;
      assert forall x :: x in rest ==> !x.InvestigationActivity?;
      assert RecentInsightsAsWritten(events, summary) == [ActivitySummaryNote(summary.totalActivities, summary.uniqueCases, summary.dailyAverage)] + mc + rest;
    }
  }

  /**
   * The two panels differ only in the investigation note: they agree
   * whenever no event has an investigation stage under either spelling.
   */
  lemma UpdateRecentActivitiesAgrees(base: seq<Case>, st: Store, view: string, timeframe: Option<string>,
                                     prepare: (seq<Case>, string) -> (seq<Event>, ActivitySummary))
    ensures var tf := if timeframe.None? || timeframe.value == "" then "30d" else timeframe.value;
      |base| > 0 && ApplyComplianceFilters(base, st).Some? &&
      Filter(prepare(ApplyComplianceFilters(base, st).value, tf).0, StageIn(InvestigationStages)) ==
      Filter(prepare(ApplyComplianceFilters(base, st).value, tf).0, StageIn(InvestigationStagesAsWritten)) ==> 
        UpdateRecentActivities(base, st, view, timeframe, prepare) == UpdateRecentActivitiesIntended(base, st, view, timeframe, prepare)
    ensures |base| == 0 || ApplyComplianceFilters(base, st).None? ==>
      UpdateRecentActivities(base, st, view, timeframe, prepare) == UpdateRecentActivitiesIntended(base, st, view, timeframe, prepare)
  {
  }
}
