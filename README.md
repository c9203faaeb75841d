# cosmos-insights: a verified model of the dashboard's callback logic

cosmos-insights is a Dash dashboard with three pages: Workflow (support tickets), Compliance
(violation cases) and Training (classes and attendance). Each page has a filter panel. The panel
writes the chosen dropdown values into a string-valued store. A set of panel callbacks then read
that store back, narrow the fetched tables and compute the numbers, labels, view states and
insight lines each chart shows. A configuration object reads the application's flags from the
environment.

This project models that deterministic layer in Dafny and proves properties of it:
- the store protocol: the writers, the readers and their round trips;
- the conjunctive and cascading row filters;
- the dropdown option generators;
- the compliance data cache, modelled as a class with mutable fields;
- the classifiers and bucketers;
- the aggregations, rankings and their count invariants;
- the small view-state machines, the report exports and the text formatters;
- the configuration's defaults and derived flags.

Tables are sequences of datatype records, or, for the report panels, frames: a header and rows of
cells. A nullable cell is an `Option`. A pandas mask is an order-preserving filter, and a
`groupby().size()` is a count over the distinct keys. Dates are integers: day numbers counted from
1970-01-01, or minutes or seconds where the source compares timestamps. The current time is
always a parameter. Library text functions (`titleize`, `pluralize`, the AOR-name regex clean-up),
number parsing and the results of database queries are parameters of the functions that use them.

Where the code as written differs from what it evidently intends (see "## Findings"), the callback
member models the code as written. A companion member composes the corrected pieces: it is named
`…Intended`, or it carries the plain name beside an `…AsWritten` member. Lemmas named `…Agrees` state when the two coincide. The training filters take the store
reader as a parameter: `QuoteOnly` is the reader the chart panels use, `Trimmed` the one the
engaged-members panel uses.

Modules (one per source file, plus shared ones):
- `Common`: Python string and list semantics (split, join, strip, lower, replace, distinct,
  sorted), the selection test shared by every filter, and counting and summing lemmas.
- `WorkflowData`: the work-item record, the ten dropdown dimensions and the conjunctive
  narrowing chain that every workflow panel applies.
- `Workflow*`: one module per file in src/callbacks/workflow_callbacks.
- `ComplianceData`: src/utils/compliance_data.py, the merged case row, the cache class, the
  store-driven case filter and the severity classifier.
- `ComplianceFilters` and `ComplianceCallbacks`: the option generators and the panel callbacks of
  src/callbacks/compliance_callbacks/compliance_filters.py.
- `Compliance*`: one module per other file in src/callbacks/compliance_callbacks.
- `Frames` and `GroupedCells`: data frames as the report panels build them, and the two-key
  grouped aggregation.
- `TrainingData`: what every training callback repeats: the store readers, the start-time parser,
  the date window and the period labels.
- `Training*`: one module per file in src/callbacks/training_callbacks; the office engagement file
  is split into `TrainingOfficeEngagement` (its data), `OfficeEngagementSeries` (the series) and
  `OfficeEngagementTrends` (chart, insights and callback).
- `Settings`: the `AppConfig` object of src/config/settings.py.

## Model

| member | source | states |
|---|---|---|
| Common.SplitJoin | src/callbacks/workflow_callbacks/workflow_filters.py:973-982 | Splitting what was joined gives the items back, for a non-empty list of items that do not contain the separator. |
| Common.NarrowBy | src/callbacks/workflow_callbacks/workflow_source_analysis.py:94-95 | A table narrowed by a selection keeps exactly the rows whose cell the selection admits, and never grows. |
| Common.ValueCountsKeys | src/callbacks/workflow_callbacks/workflow_trends_analysis.py:137 | The counted values are exactly the occurring ones, each listed once. |
| Common.ValueCountsEntry | src/callbacks/workflow_callbacks/workflow_trends_analysis.py:137 | A counted entry is an occurring value with its number of occurrences. |
| Common.ValueCountsOrdered | src/callbacks/workflow_callbacks/workflow_trends_analysis.py:137 | Along the counts the numbers never increase. |
| Common.ValueCountsTotal | src/callbacks/workflow_callbacks/workflow_trends_analysis.py:137 | The counts add up to the number of values: counting loses nothing. |
| Common.ValueCountsTop | src/callbacks/workflow_callbacks/workflow_trends_analysis.py:137 | The first entry carries the largest count of any value. |
| Common.SortedUnique | src/callbacks/workflow_callbacks/workflow_trends_analysis.py:197 | sorted(set(xs)): strictly ascending, and holding exactly the values of xs. |
| Common.GroupCountsSum | src/callbacks/workflow_callbacks/workflow_trends_analysis.py:140 | Grouping by a key and counting loses nothing: over the distinct keys, the group sizes add up to the length. |
| Common.ParseIntOfIntToString | src/callbacks/workflow_callbacks/workflow_trends_analysis.py:272-273 | int(str(i)) == i. |
| Common.LowerIdempotent | src/callbacks/workflow_callbacks/workflow_source_analysis.py:137 | Lower-casing twice is the same as lower-casing once. |
| WorkflowData.NarrowAllIsConjunction | src/callbacks/workflow_callbacks/workflow_filters.py:71-94 | The chain of per-dimension narrowing steps keeps, in their original order, exactly the rows every active selection admits. A selection that is None, empty or holds "All" imposes nothing. |
| WorkflowData.NarrowAllEmpty | src/callbacks/workflow_callbacks/workflow_filters.py:71-94 | When one listed dimension admits no row, the whole chain keeps nothing. |
| WorkflowData.NarrowAllAgree | src/callbacks/workflow_callbacks/workflow_filters.py:71-94 | The chain reads only the selections of the dimensions it lists. |
| WorkflowFilters.WithAorNames | src/callbacks/workflow_callbacks/workflow_filters.py:55-58 | Every attribute row gets the AorName its code maps to, with every other field unchanged. |
| WorkflowFilters.ZipMappingLast | src/callbacks/workflow_callbacks/workflow_filters.py:55 | `dict(zip(...))` holds exactly the codes of the AOR entries, each bound to the cleaned name of its last entry. |
| WorkflowFilters.AorNameCases | src/callbacks/workflow_callbacks/workflow_filters.py:47-58 | An empty, null or unmapped code is named "Unspecified". A mapped code takes its last entry's cleaned name, or "Unspecified" when that name is null. |
| WorkflowFilters.ApplyFiltersSpec | src/callbacks/workflow_callbacks/workflow_filters.py:66-94 | The intended dataset filter keeps exactly the rows every active selection admits, with the placeholder read back as "", in order. |
| WorkflowFilters.PlaceholderSelectsNothing | src/callbacks/workflow_callbacks/workflow_filters.py:73-92 | As written, picking the "Unspecified" entry (value "-") keeps no row, although that entry was generated from rows whose cell is "". |
| WorkflowFilters.SelectedOptionKeepsRow | src/callbacks/workflow_callbacks/workflow_filters.py:96-156 | With the placeholder read back, picking the entry generated for a row's value keeps that row. |
| WorkflowFilters.DecodeKeepsActivity | src/callbacks/workflow_callbacks/workflow_filters.py:118 | Reading "-" back as "" never changes whether a selection is active. |
| WorkflowFilters.CaseTypeOptionsCover | src/callbacks/workflow_callbacks/workflow_filters.py:98-104 | The case-type list starts with "All Case Types"/"All". Each later entry is the (name, code) pair of some row, every such pair is offered, and none repeats. |
| WorkflowFilters.BuildAorOptions | src/callbacks/workflow_callbacks/workflow_filters.py:105-124 | The AOR loop appends one entry per distinct (Aor, AorName) pair after "All AORs", in first-occurrence order. |
| WorkflowFilters.AorOptionsCover | src/callbacks/workflow_callbacks/workflow_filters.py:105-124 | Every AOR entry after "All" is generated from a row's code and name, and every row with a code has an entry. |
| WorkflowFilters.AorOptionDecodes | src/callbacks/workflow_callbacks/workflow_filters.py:115-121 | The placeholder entry reads back as the empty code it stands for; every other entry carries its code. |
| WorkflowFilters.ColumnValuesSpec | src/callbacks/workflow_callbacks/workflow_filters.py:145 | The column values are exactly the values of the non-null cells. |
| WorkflowFilters.BuildRegularOptions | src/callbacks/workflow_callbacks/workflow_filters.py:139-156 | The regular loop appends, after "All <plural>", one entry per distinct sorted value: "" becomes the "-"/"Unspecified" entry, anything else its titleized label with "N/A" removed. |
| WorkflowFilters.RegularOptionsCover | src/callbacks/workflow_callbacks/workflow_filters.py:139-156 | The regular entries after "All" read back, in strictly ascending order, to exactly the distinct non-null values of the column. |
| WorkflowFilters.OptionsFor | src/callbacks/workflow_callbacks/workflow_filters.py:96-156 | Every generated option list starts with an entry whose value is "All". |
| WorkflowFilters.OthersSpec | src/callbacks/workflow_callbacks/workflow_filters.py:276-342 | A change callback refreshes exactly nine dropdowns, each once: every one except the trigger. |
| WorkflowFilters.NoPrecedence | src/callbacks/workflow_callbacks/workflow_filters.py:285-318 | Whichever dropdown fires, the list shown for any other dropdown is the same, computed from all ten current selections. |
| WorkflowFilters.OnChangeFailure | src/callbacks/workflow_callbacks/workflow_filters.py:316-318 | A failed load gives nine empty option lists. |
| WorkflowFilters.InitialPanels | src/callbacks/workflow_callbacks/workflow_filters.py:198-251 | On load every dropdown gets its list from the full dimension and a "Select ..." placeholder. On failure each gets no list and an "Error loading ..." placeholder. |
| WorkflowFilters.FilterDataQuery | src/callbacks/workflow_callbacks/workflow_filters.py:963-985 | The store holds Day_From/Day_To (defaulting to 2020-01-01 and today) and exactly the ten list keys. |
| WorkflowFilters.FilterDataQueryText | src/callbacks/workflow_callbacks/workflow_filters.py:973-982 | Each dropdown is written under its own key as its ", "-joined quoted list, or "" when it imposes nothing. |
| WorkflowFilters.StoreRange | src/callbacks/workflow_callbacks/workflow_summary_cards.py:73-89 | A reader finds a date range only when both of its keys are present. |
| WorkflowFilters.PanelRangeKeys | src/callbacks/workflow_callbacks/workflow_filters.py:971-972 | The panel writes its range under Day_From/Day_To, so a reader looking under StartDate/EndDate finds none. |
| WorkflowFilters.ClearAllFilters | src/callbacks/workflow_callbacks/workflow_filters.py:935-944 | Clearing resets both dates to their defaults and every dropdown to the empty selection, which imposes nothing. |
| WorkflowSummaryCards.ParseFilterSelections | src/callbacks/workflow_callbacks/workflow_summary_cards.py:143-168 | A missing or empty store parses to no filters. Otherwise the dates are read from Day_From/Day_To and every list key is parsed. |
| WorkflowSummaryCards.ParsedSelectionFor | src/callbacks/workflow_callbacks/workflow_summary_cards.py:152-162 | A non-empty store gives every dropdown the list stored under its own key. |
| WorkflowSummaryCards.ParseQuotedList | src/callbacks/workflow_callbacks/workflow_summary_cards.py:153-162 | Round trip: reading back what `filter_data_query` wrote gives the items with "-" turned into "". This holds for non-empty items free of ", " and not quote-delimited. An inactive selection reads back as the empty list. |
| WorkflowSummaryCards.DecodedActive | src/callbacks/workflow_callbacks/workflow_summary_cards.py:153 | Reading "-" back as "" never produces the "All" sentinel, so an active selection stays active. |
| WorkflowSummaryCards.StoredSelectionsRoundTrip | src/callbacks/workflow_callbacks/workflow_filters.py:963-985 | What the panel writes, the cards read: both (defaulted) dates, and per dropdown the chosen items with "-" read as "", or [] when nothing was chosen. |
| WorkflowSummaryCards.StoredSelectionAdmits | src/callbacks/workflow_callbacks/workflow_summary_cards.py:92-139 | End to end, a dropdown admits a cell exactly when the cell's value is one of the chosen items read back; with nothing chosen it admits every cell. |
| WorkflowSummaryCards.SummaryFilterSpec | src/callbacks/workflow_callbacks/workflow_summary_cards.py:68-141 | The cards' filter keeps, in order, exactly the items that are inside the date range (applied only when both bounds exist) and that every active selection admits. |
| WorkflowSummaryCards.FormatDurationReadsBack | src/callbacks/workflow_callbacks/workflow_summary_cards.py:170-183 | "0h" for 0; "Mm" below an hour; "Hh" for whole hours; else "Hh Mm". Every formatted non-negative duration reads back as its minutes, so no two durations share a label. |
| WorkflowSummaryCards.ResolutionMinutes | src/callbacks/workflow_callbacks/workflow_summary_cards.py:266-272 | Each collected value is a row's OpenToClosed_Min, else its OpenToResolved_Min. Rows with neither are skipped, and none is skipped when every row has one. |
| WorkflowSummaryCards.CollectResolutionTimes | src/callbacks/workflow_callbacks/workflow_summary_cards.py:267-272 | The collecting loop produces exactly the preferred minutes of the rows, in row order. |
| WorkflowSummaryCards.ComputeMetrics | src/callbacks/workflow_callbacks/workflow_summary_cards.py:248-288 | The total is the number of filtered items. Open, escalated and closed-this-month are the numbers of items passing each test, and assignees the number of distinct assignee names. None of them exceeds the total. |
| WorkflowSummaryCards.ClosedNotOpen | src/callbacks/workflow_callbacks/workflow_summary_cards.py:252-285 | Open plus closed-this-month exceed the item count by at most the number of items that are both open and closed this month. When every status is outside the open list, no ticket is counted both ways. |
| WorkflowSummaryCards.SummaryCards | src/callbacks/workflow_callbacks/workflow_summary_cards.py:223-244 | A failed fetch, no work items or no rows after filtering all give ["0","0","0","0h","0","0"]. |
| WorkflowSummaryCards.TotalCardShowsCount | src/callbacks/workflow_callbacks/workflow_summary_cards.py:291 | With data, the first card is the filtered count with thousands separators; once the commas are removed it reads as that count. |
| WorkflowResolutionTimes.FollowItems | src/callbacks/workflow_callbacks/workflow_resolution_times.py:148-156 | Duration rows are narrowed to the surviving work items only when both frames have rows; otherwise they pass unchanged. |
| WorkflowResolutionTimes.ResolutionFilter | src/callbacks/workflow_callbacks/workflow_resolution_times.py:86-156 | An empty item frame is returned unchanged. Every kept item is an input item with both CreatedOn and ClosedOn, inside the range when one is known. |
| WorkflowResolutionTimes.ResolutionFilterSpec | src/callbacks/workflow_callbacks/workflow_resolution_times.py:113-147 | The kept items are, in order, exactly those with both dates, in range, and admitted by the four memberships. |
| WorkflowResolutionTimes.DurationsFollowKeptItems | src/callbacks/workflow_callbacks/workflow_resolution_times.py:150-154 | With rows on both sides, a duration row survives exactly when its work item survives. |
| WorkflowResolutionTimes.ResolutionReadsFourSelections | src/callbacks/workflow_callbacks/workflow_resolution_times.py:133-147 | Only the AOR, case-type, product and priority selections matter. Origins, statuses and the other four are parsed but never applied. |
| WorkflowResolutionTimes.PanelRangeIgnoredAsWritten | src/callbacks/workflow_callbacks/workflow_resolution_times.py:110-111 | For any store the panel writes, the filter as written (StartDate/EndDate) never applies a date range. The intended one (Day_From/Day_To) applies the panel's range. |
| WorkflowResolutionTimes.KeptItemsInsidePanelRange | src/callbacks/workflow_callbacks/workflow_resolution_times.py:120-130 | Every item the intended filter keeps from a panel store was created inside the panel's range. |
| WorkflowResolutionTimes.EarlyTicketKeptAsWritten | src/callbacks/workflow_callbacks/workflow_resolution_times.py:110-111 | Counterexample: with an unfiltered panel set to days 1..2, a ticket created on day 0 is still kept. |
| WorkflowResolutionTimes.EarlyTicketDropped | src/callbacks/workflow_callbacks/workflow_resolution_times.py:120-130 | Reading the same store under the panel's keys drops that ticket. |
| WorkflowResolutionTimes.LeftMerge | src/callbacks/workflow_callbacks/workflow_resolution_times.py:169-174 | The left merge keeps every item, in order, with one row per matching duration row, or one unmatched row. |
| WorkflowResolutionTimes.LeftMergeOnePerItem | src/callbacks/workflow_callbacks/workflow_resolution_times.py:169-176 | When duration rows have distinct ids, the merge has exactly one row per item, so total_tickets is the item count. |
| WorkflowResolutionTimes.FilteredItemsHaveTimes | src/callbacks/workflow_callbacks/workflow_resolution_times.py:179 | An item with both dates always has a resolution time: OpenToClosed_Min, else its own ResolutionTimeMinutes. |
| WorkflowResolutionTimes.PrepareResolutionTimes | src/callbacks/workflow_callbacks/workflow_resolution_times.py:164-189 | Either frame empty gives no data. Otherwise the analysable rows are exactly the merged rows with 0 < minutes < 525600, so analysable ≤ total. |
| WorkflowResolutionTimes.EscalationCounts | src/callbacks/workflow_callbacks/workflow_resolution_times.py:251-260 | With both kinds present, the counts are the numbers of escalated ('1') and non-escalated ('0') rows. Otherwise they are 0 and the row count. Together they never exceed the row count. |
| WorkflowResolutionTimes.CategorizeResolutionTime | src/callbacks/workflow_callbacks/workflow_resolution_times.py:215-229 | Total: "Invalid" exactly for missing or non-positive minutes, and otherwise one of the six bucket labels. |
| WorkflowResolutionTimes.CategorizeByBounds | src/callbacks/workflow_callbacks/workflow_resolution_times.py:215-229 | A positive time goes to the bucket indexed by how many of the bounds 15, 60, 240, 1440 and 10080 lie below it. |
| WorkflowResolutionTimes.CategorizeMonotone | src/callbacks/workflow_callbacks/workflow_resolution_times.py:215-229 | Longer resolution times never land in an earlier bucket. |
| WorkflowResolutionTimes.Distribution | src/callbacks/workflow_callbacks/workflow_resolution_times.py:291 | `groupby(...).size().sort_index()` gives each present bucket once, in name order, with its count. |
| WorkflowResolutionTimes.DistributionCoversRows | src/callbacks/workflow_callbacks/workflow_resolution_times.py:291 | The buckets are distinct and ascending, and never "Invalid" for analysable rows. Their counts add up to the row count. |
| WorkflowResolutionTimes.UnspecifiedFill | src/callbacks/workflow_callbacks/workflow_resolution_times.py:203-212 | Null, empty and "nan" dimension cells become "Unspecified"; other values are kept. |
| WorkflowResolutionTimes.DisplayLabel | src/callbacks/workflow_callbacks/workflow_resolution_times.py:463-497 | Case types show their mapped name, else the titleized code. AORs show the raw code. Other values show the titleized label without "N/A", or the raw value when that is blank. |
| WorkflowResolutionTimes.TruncateLabel | src/callbacks/workflow_callbacks/workflow_resolution_times.py:502-509 | Labels longer than 20 characters keep their first 20 and gain "..."; "Unspecified" is never cut. |
| WorkflowResolutionTimes.TruncateIdempotent | src/callbacks/workflow_callbacks/workflow_resolution_times.py:502-509 | Truncating twice is the same as truncating once. |
| WorkflowResolutionTimes.CategoryLabel | src/callbacks/workflow_callbacks/workflow_resolution_times.py:500-509 | A category's chart name is never empty and has at most 23 characters. |
| WorkflowResolutionTimes.NextViewState | src/callbacks/workflow_callbacks/workflow_resolution_times.py:1668-1690 | Each of the four view buttons sets its view. Any other trigger keeps the stored state, or gives "box" when there is none. |
| WorkflowResolutionTimes.ViewStateStaysKnown | src/callbacks/workflow_callbacks/workflow_resolution_times.py:1668-1690 | Starting from no state or a known view, the state is always one of the four views. |
| WorkflowResolutionTimes.OtherTriggerKeepsState | src/callbacks/workflow_callbacks/workflow_resolution_times.py:1689-1690 | A trigger that is not a view button leaves a stored state alone. |
| WorkflowResolutionTimes.ViewStateIdempotent | src/callbacks/workflow_callbacks/workflow_resolution_times.py:1668-1690 | Replaying the same trigger changes nothing. |
| WorkflowResolutionTimes.UpdateButtonStates | src/callbacks/workflow_callbacks/workflow_resolution_times.py:1815-1824 | Exactly one button is active: the named view's, and bar for no state or an unknown one. |
| WorkflowResolutionTimes.SelectorsFollowView | src/callbacks/workflow_callbacks/workflow_resolution_times.py:1831-1848 | The two selectors are never shown together. For a known view exactly one is shown, and the dimension selector goes with the bar and box buttons. |
| WorkflowResolutionTimes.OrDefault | src/callbacks/workflow_callbacks/workflow_resolution_times.py:1697-1708 | `value or default`: a missing or empty choice gives the default, any other choice itself. |
| WorkflowResolutionTimes.StoredChoicesSettle | src/callbacks/workflow_callbacks/workflow_resolution_times.py:1697-1708 | The population defaults to "all" and the display to "top"; storing a stored value again changes nothing. |
| WorkflowTicketVolume.VolumeFilter | src/callbacks/workflow_callbacks/workflow_ticket_volume.py:96-102 | Only items kept, fewer or as many as before, each with a creation time and a closing time not before it, and inside the range when one is read. |
| WorkflowTicketVolume.VolumeFilterSpec | src/callbacks/workflow_callbacks/workflow_ticket_volume.py:96-156 | The filter keeps, in order, exactly the items that pass the date tests and that all ten selections admit. |
| WorkflowTicketVolume.ApplyTicketVolumeFiltersAsWritten | src/callbacks/workflow_callbacks/workflow_ticket_volume.py:94-156 | As written: an item is kept exactly when it passes the date tests for the range stored under StartDate and EndDate and all ten selections admit it. |
| WorkflowTicketVolume.ApplyTicketVolumeFilters | src/callbacks/workflow_callbacks/workflow_ticket_volume.py:94-156 | As intended: an item is kept exactly when it passes the date tests for the range stored under Day_From and Day_To and all ten selections admit it. |
| WorkflowTicketVolume.VolumePanelRange | src/callbacks/workflow_callbacks/workflow_ticket_volume.py:94-95 | On a store the filter panel wrote, the filter as written applies no date range. The intended filter applies the panel's range, with its placeholder start and today's end. |
| WorkflowTicketVolume.WeekStart | src/callbacks/workflow_callbacks/workflow_ticket_volume.py:178-180 | A day's week starts on the Monday at or before it, less than seven days earlier. |
| WorkflowTicketVolume.SameWeek | src/callbacks/workflow_callbacks/workflow_ticket_volume.py:178-180 | Every day within seven days after a week start has that same week start. |
| WorkflowTicketVolume.WeeklyLabels | src/callbacks/workflow_callbacks/workflow_ticket_volume.py:179 | Intended weekly labels are equal exactly when the week starts are equal. As written, the label is the creation date, so labels are equal only for the same day. |
| WorkflowTicketVolume.WeekSplitAsWritten | src/callbacks/workflow_callbacks/workflow_ticket_volume.py:179-180 | Day 0 and day 1 fall in one week but get two different weekly labels as written, and one label as intended. |
| WorkflowTicketVolume.PeriodsOf | src/callbacks/workflow_callbacks/workflow_ticket_volume.py:194 | One period per row that has the timestamp, and one per row when every row has it. |
| WorkflowTicketVolume.RowFor | src/callbacks/workflow_callbacks/workflow_ticket_volume.py:186-225 | A merged period's created and closed counts are the group sizes of its label on each side, with 0 for a side where the label is missing. |
| WorkflowTicketVolume.VolumeSeries | src/callbacks/workflow_callbacks/workflow_ticket_volume.py:222-228 | The merged series is ordered by sort key. |
| WorkflowTicketVolume.VolumeSeriesRows | src/callbacks/workflow_callbacks/workflow_ticket_volume.py:190-228 | The series has one row per label that some creation or closing time falls in, with no label twice. Each row carries that label's created and closed counts. |
| WorkflowTicketVolume.CountsOverLabels | src/callbacks/workflow_callbacks/workflow_ticket_volume.py:186-224 | Over distinct labels, the per-row created and closed counts add up to the group sizes. |
| WorkflowTicketVolume.SeriesTotals | src/callbacks/workflow_callbacks/workflow_ticket_volume.py:186-225 | Every ticket with a creation time is counted once in TicketsCreated, and every ticket with a closing time once in TicketsClosed. |
| WorkflowTicketVolume.FilteredSeriesTotals | src/callbacks/workflow_callbacks/workflow_ticket_volume.py:99-225 | On the filtered frame the created total and the closed total both equal the ticket count. |
| WorkflowTicketVolume.RunningBalance | src/callbacks/workflow_callbacks/workflow_ticket_volume.py:229-233 | ActiveTickets at period i is the cumulative net change up to i, clipped at zero after the sum. |
| WorkflowTicketVolume.ClipAfterSum | src/callbacks/workflow_callbacks/workflow_ticket_volume.py:230-233 | Clipping after the sum differs from clipping at each step: a closing surplus is carried forward. |
| WorkflowTicketVolume.TrendDirection | src/callbacks/workflow_callbacks/workflow_ticket_volume.py:398-409 | No direction for a single period. Otherwise the direction is one of increasing, decreasing or stable. |
| WorkflowTicketVolume.TrendIsPercentChange | src/callbacks/workflow_callbacks/workflow_ticket_volume.py:400-409 | The integer test equals the source's test on the percentage change of the window means, with a 5% band either way, and stable when the earlier mean is zero. |
| WorkflowTicketVolume.FlatSeriesStable | src/callbacks/workflow_callbacks/workflow_ticket_volume.py:400-409 | A constant series is stable. |
| WorkflowTicketVolume.UpdateGranularityButtons | src/callbacks/workflow_callbacks/workflow_ticket_volume.py:447-460 | Exactly one button is active, namely the one for the granularity the chart callback derives from the same trigger. Weekly is the default. |
| WorkflowTicketVolume.ChartMatchesButtons | src/callbacks/workflow_callbacks/workflow_ticket_volume.py:447-490 | With the intended chart granularity, after any run of clicks and store changes the chart follows the active button. |
| WorkflowTicketVolume.DailyLostOnFilterChange | src/callbacks/workflow_callbacks/workflow_ticket_volume.py:478-490 | Clicking daily and then changing a filter leaves the daily button active, while the chart as written turns weekly. |
| WorkflowStatusDistribution.StatusFilter | src/callbacks/workflow_callbacks/workflow_status_distribution.py:99-113 | Only items kept, fewer or as many as before, each with a creation time and inside the range when one is read. |
| WorkflowStatusDistribution.StatusFilterSpec | src/callbacks/workflow_callbacks/workflow_status_distribution.py:99-158 | The filter keeps, in order, exactly the dated items in range that all ten selections admit. |
| WorkflowStatusDistribution.ApplyStatusFiltersAsWritten | src/callbacks/workflow_callbacks/workflow_status_distribution.py:96-158 | As written: an item is kept exactly when it is dated inside the range stored under StartDate and EndDate and all ten selections admit it. |
| WorkflowStatusDistribution.ApplyStatusFilters | src/callbacks/workflow_callbacks/workflow_status_distribution.py:96-158 | As intended: an item is kept exactly when it is dated inside the range stored under Day_From and Day_To and all ten selections admit it. |
| WorkflowStatusDistribution.StatusPanelRange | src/callbacks/workflow_callbacks/workflow_status_distribution.py:96-97 | On a store the filter panel wrote, the filter as written applies no date range, and the intended filter applies the panel's range. |
| WorkflowStatusDistribution.FirstRule | src/callbacks/workflow_callbacks/workflow_status_distribution.py:216-230 | No category exactly when no rule's term occurs in the name. Otherwise the category is that of the first rule with a term that occurs. |
| WorkflowStatusDistribution.FirstDimRow | src/callbacks/workflow_callbacks/workflow_status_distribution.py:199-201 | The first row of the dimension table whose lower-cased Status equals the lower-cased name, and none when no row matches. |
| WorkflowStatusDistribution.CategorizeStatus | src/callbacks/workflow_callbacks/workflow_status_distribution.py:193-230 | A null status gives "Unknown", and only a null status does. "Other" means no name rule fired. "Cancelled" comes only from its own terms. Every result is one of the eight categories. |
| WorkflowStatusDistribution.CategoryIgnoresCase | src/callbacks/workflow_callbacks/workflow_status_distribution.py:199-216 | Statuses that lower-case alike get the same category. |
| WorkflowStatusDistribution.EmptyTableUsesName | src/callbacks/workflow_callbacks/workflow_status_distribution.py:198-230 | Without a dimension table the name rules alone decide. |
| WorkflowStatusDistribution.Statuses | src/callbacks/workflow_callbacks/workflow_status_distribution.py:185 | The non-null statuses that value_counts counts, at most one per item. |
| WorkflowStatusDistribution.EscalatedStatuses | src/callbacks/workflow_callbacks/workflow_status_distribution.py:235 | The statuses of the items whose IsEscalated is '1'. |
| WorkflowStatusDistribution.EscalatedWithinCount | src/callbacks/workflow_callbacks/workflow_status_distribution.py:235-236 | No status has more escalated tickets than tickets. |
| WorkflowStatusDistribution.StatusCounts | src/callbacks/workflow_callbacks/workflow_status_distribution.py:185-275 | The rows are ordered by count, largest first, and no row has more escalated tickets than tickets. |
| WorkflowStatusDistribution.SortedRowsSame | src/callbacks/workflow_callbacks/workflow_status_distribution.py:275 | Sorting keeps exactly the same rows. |
| WorkflowStatusDistribution.StatusCountsRows | src/callbacks/workflow_callbacks/workflow_status_distribution.py:185-236 | Every row carries its status's positive number of occurrences, its escalated count and its category. |
| WorkflowStatusDistribution.StatusCountsCover | src/callbacks/workflow_callbacks/workflow_status_distribution.py:185 | A status has a row exactly when some filtered item has it. |
| WorkflowStatusDistribution.StatusCountsUnique | src/callbacks/workflow_callbacks/workflow_status_distribution.py:185 | No status has two rows, and there is one row per distinct status. |
| WorkflowStatusDistribution.StatusCountsTotal | src/callbacks/workflow_callbacks/workflow_status_distribution.py:185-189 | The counts add up to the number of items with a status, so grouping loses no ticket. |
| WorkflowStatusDistribution.RowCountsAreCounts | src/callbacks/workflow_callbacks/workflow_status_distribution.py:185 | Over any key list, the rows' counts add up to the keys' group sizes. |
| WorkflowStatusDistribution.TopRowIsLargest | src/callbacks/workflow_callbacks/workflow_status_distribution.py:275 | On rows sorted by count, the first row holds the most tickets. |
| WorkflowStatusDistribution.RunningTotals | src/callbacks/workflow_callbacks/workflow_status_distribution.py:434 | Position i of the cumulative sum is the sum of the first i+1 values. |
| WorkflowStatusDistribution.Percentages | src/callbacks/workflow_callbacks/workflow_status_distribution.py:188-189 | Each row's percentage is its share of the total, rounded to one decimal. |
| WorkflowStatusDistribution.MajorCount | src/callbacks/workflow_callbacks/workflow_status_distribution.py:437 | The number of running percentages at or under 85 is at most the number of rows. |
| WorkflowStatusDistribution.MajorCutoff | src/callbacks/workflow_callbacks/workflow_status_distribution.py:437-441 | With three rows or more the cutoff lies between 3 and 8, and it is the 85% count when that count already does. With fewer rows, all rows are shown. |
| WorkflowStatusDistribution.GroupRows | src/callbacks/workflow_callbacks/workflow_status_distribution.py:451-470 | One entry per category with a positive total, each for a listed category. |
| WorkflowStatusDistribution.GroupRowsAppend | src/callbacks/workflow_callbacks/workflow_status_distribution.py:459-470 | Grouping two key lists one after the other is grouping their concatenation. |
| WorkflowStatusDistribution.AppendGroups | src/callbacks/workflow_callbacks/workflow_status_distribution.py:459-470 | The loop over the grouped categories appends to the major statuses exactly the entries of the categories with a positive total. |
| WorkflowStatusDistribution.GroupStatuses | src/callbacks/workflow_callbacks/workflow_status_distribution.py:427-473 | The pie segments are ordered by count, largest first, and there are no more segments than statuses. |
| WorkflowStatusDistribution.GroupStatusesStepwise | src/callbacks/workflow_callbacks/workflow_status_distribution.py:427-473 | The step-by-step sort, cut, group, append and sort computes the pie segments. |
| WorkflowStatusDistribution.GroupRowsTotal | src/callbacks/workflow_callbacks/workflow_status_distribution.py:451-470 | The grouped entries' counts are the categories' sums over the minor statuses. |
| WorkflowStatusDistribution.MinorTotal | src/callbacks/workflow_callbacks/workflow_status_distribution.py:451-470 | The minor statuses' groups add up to the minor statuses' total. |
| WorkflowStatusDistribution.GroupedTotal | src/callbacks/workflow_callbacks/workflow_status_distribution.py:427-473 | Grouping loses no ticket: the segments add up to the table's total. |
| WorkflowStatusDistribution.MajorStatusesShown | src/callbacks/workflow_callbacks/workflow_status_distribution.py:443-448 | Every status before the cutoff is shown as it is. |
| WorkflowStatusDistribution.CutoffBounds | src/callbacks/workflow_callbacks/workflow_status_distribution.py:437-441 | With three statuses or more, between three and eight are shown individually. With fewer, all are shown. |
| WorkflowStatusDistribution.UnresolvedTickets | src/callbacks/workflow_callbacks/workflow_status_distribution.py:634-636 | The unresolved tickets are the counts of the rows outside the Closed category, and never negative. |
| WorkflowStatusDistribution.SeverityIsRate | src/callbacks/workflow_callbacks/workflow_status_distribution.py:640-670 | "high" exactly when the escalation rate exceeds 10%. Not "low" exactly when it exceeds 5%. |
| WorkflowStatusDistribution.SeverityMonotone | src/callbacks/workflow_callbacks/workflow_status_distribution.py:668-670 | More escalations never lower the severity. |
| WorkflowStatusDistribution.HeadInsights | src/callbacks/workflow_callbacks/workflow_status_distribution.py:660-672 | There are always two head lines, on unresolved tickets and on escalations. |
| WorkflowStatusDistribution.StatusInsightsAsWritten | src/callbacks/workflow_callbacks/workflow_status_distribution.py:609-705 | Always three lines. |
| WorkflowStatusDistribution.StatusInsights | src/callbacks/workflow_callbacks/workflow_status_distribution.py:609-705 | Always three lines. With no rows or no items they are the no-data hints. Otherwise none is a hint or an error. |
| WorkflowStatusDistribution.TopStatusFallbackRaises | src/callbacks/workflow_callbacks/workflow_status_distribution.py:678-684 | With data but no bottleneck, the truth test on a pandas row makes the lines as written the error lines. The intended third line names the first row's status. |
| WorkflowStatusDistribution.AllResolvedIffAllClosed | src/callbacks/workflow_callbacks/workflow_status_distribution.py:662-665 | The first line reports everything resolved exactly when every row is in the Closed category. |
| WorkflowStatusDistribution.StatusPanel | src/callbacks/workflow_callbacks/workflow_status_distribution.py:715-748 | The callback as written: the StartDate/EndDate filter, the grouped segments in count order and the three lines of the insights as written; no ticket left gives no segments and the no-data lines. |
| WorkflowStatusDistribution.StatusPanelIntended | src/callbacks/workflow_callbacks/workflow_status_distribution.py:715-748 | The callback as intended, with the panel's Day_From/Day_To range and the top-status fallback line: segments in count order, three lines, the no-data lines when no ticket is left. |
| WorkflowStatusDistribution.PanelSegmentsCountTickets | src/callbacks/workflow_callbacks/workflow_status_distribution.py:715-745 | For the callback as written and the intended one, the chart's segments add up to the tickets with a status that its own filter keeps. |
| WorkflowStatusDistribution.StatusPanelAgrees | src/callbacks/workflow_callbacks/workflow_status_distribution.py:715-748 | The two filters agree when the store holds one range under both pairs of keys; equal filtered items give equal segments, and equal lines with a bottleneck; without one, the lines as written are the error lines once a ticket has a status. |
| WorkflowClassificationAnalysis.CleanLabel | src/callbacks/workflow_callbacks/workflow_classification_analysis.py:198 | The cleaned text holds no "_" and no "-", its ends are not whitespace, and every character other than a space comes from the value. |
| WorkflowClassificationAnalysis.FormatForDisplay | src/callbacks/workflow_callbacks/workflow_classification_analysis.py:194-199 | A null, empty or "Unspecified" value displays as "Unspecified". Any other label is the titleized form of a non-empty cleaned text that has no separator and does not start with whitespace. |
| WorkflowClassificationAnalysis.SeparatorsOnlyUnspecified | src/callbacks/workflow_callbacks/workflow_classification_analysis.py:198-199 | A value made only of underscores, hyphens and whitespace cleans to nothing and displays as "Unspecified". |
| WorkflowClassificationAnalysis.CaseTypeDisplay | src/callbacks/workflow_callbacks/workflow_classification_analysis.py:202-205 | An unspecified code gives "Unspecified". A mapped code gives its mapped name. Any other code gives its formatted text. |
| WorkflowClassificationAnalysis.DisplayRows | src/callbacks/workflow_callbacks/workflow_classification_analysis.py:187-211 | One display row per ticket, in order, built from the filled and formatted columns. |
| Common.FirstMostAt | src/callbacks/workflow_callbacks/workflow_classification_analysis.py:254-256 | The position returned holds a key with the highest count, and no key listed before it has that count. |
| Common.FirstMost | src/callbacks/workflow_callbacks/workflow_classification_analysis.py:254-256 | The key returned is a listed key with the highest count. |
| Common.TopValueIsMode | src/callbacks/workflow_callbacks/workflow_classification_analysis.py:254-256 | `mode().iloc[0]` occurs at least as often as any value, and no equally frequent value sorts before it. |
| WorkflowClassificationAnalysis.Unique | src/callbacks/workflow_callbacks/workflow_classification_analysis.py:250-253 | `nunique()` is at most the number of values, and positive when there is any value. |
| WorkflowClassificationAnalysis.Summarize | src/callbacks/workflow_callbacks/workflow_classification_analysis.py:247-257 | The total is the ticket count, and each unique count is at most the total. |
| WorkflowClassificationAnalysis.DisplayedCount | src/callbacks/workflow_callbacks/workflow_classification_analysis.py:318-329 | The displayed count never exceeds the number of case types, and "all" displays every one. |
| WorkflowClassificationAnalysis.DisplayedCountMatches | src/callbacks/workflow_callbacks/workflow_classification_analysis.py:314-329 | The count reported is the number of case types drawn, which form a prefix of the ranking. For top3, top5 and top10 it is the minimum of the limit and the number of case types. |
| WorkflowClassificationAnalysis.NextClassView | src/callbacks/workflow_callbacks/workflow_classification_analysis.py:754-773 | A view button sets its view. Any other trigger keeps the current state, or "stacked" when there is none. |
| WorkflowClassificationAnalysis.ClassViewStaysKnown | src/callbacks/workflow_callbacks/workflow_classification_analysis.py:754-773 | From no state or a known view, the state stays one of the two views, and repeating a trigger changes nothing more. |
| WorkflowClassificationAnalysis.ClassViewButtons | src/callbacks/workflow_callbacks/workflow_classification_analysis.py:781-789 | Exactly one button is active, and the heatmap button is active exactly when the state is "heatmap". |
| WorkflowClassificationAnalysis.CrossRowSums | src/callbacks/workflow_callbacks/workflow_classification_analysis.py:217-221 | The cells of a case type's crosstab row add up to its "Total" margin. |
| WorkflowClassificationAnalysis.CrossGrandTotal | src/callbacks/workflow_callbacks/workflow_classification_analysis.py:217-221 | The row totals over all case types add up to the number of tickets. |
| WorkflowClassificationAnalysis.CellIsGroupSum | src/callbacks/workflow_callbacks/workflow_classification_analysis.py:217-221 | Each summand of a row total is the crosstab cell it stands for. |
| WorkflowClassificationAnalysis.Ranking | src/callbacks/workflow_callbacks/workflow_classification_analysis.py:314-315 | The ranking is a permutation of the sorted distinct case types, ordered by row total, largest first. |
| WorkflowClassificationAnalysis.RankingCovers | src/callbacks/workflow_callbacks/workflow_classification_analysis.py:314-315 | The ranking lists every case type of the data exactly once, and no other value. |
| WorkflowClassificationAnalysis.ChartFor | src/callbacks/workflow_callbacks/workflow_classification_analysis.py:278-487 | The chart is a heatmap exactly when the view is "heatmap". It draws a prefix of the ranking, reports that prefix's length, and reports the ranking's length as the total. |
| WorkflowClassificationAnalysis.ClassInsights | src/callbacks/workflow_callbacks/workflow_classification_analysis.py:644-745 | Without tickets: the three no-data lines. With tickets: three lines, an overview first and a priority line last. The overview reports the ticket count and omits the "showing" text exactly for "all". |
| WorkflowClassificationAnalysis.OriginInsightSound | src/callbacks/workflow_callbacks/workflow_classification_analysis.py:677-697 | The second line is the origin line. It names a case type with the most tickets, together with its true volume and an origin that its tickets use most. |
| WorkflowClassificationAnalysis.DominantOriginSound | src/callbacks/workflow_callbacks/workflow_classification_analysis.py:689-691 | For a case type of the data, the dominant origin occurs among its tickets, at least as often as any other origin. |
| WorkflowClassificationAnalysis.PriorityInsightSound | src/callbacks/workflow_callbacks/workflow_classification_analysis.py:700-720 | The priority line names a most frequent priority with its count and share of the tickets. It asks for immediate attention exactly when the label contains High, Critical, Urgent or Emergency. |
| WorkflowClassificationAnalysis.ClassificationPanelAsWritten | src/callbacks/workflow_callbacks/workflow_classification_analysis.py:175-176 | When no ticket passes the filter, the empty DataFrame from preparation reaches a truth test that raises, so the panel shows the error chart and the error lines. |
| WorkflowClassificationAnalysis.ClassificationPanel | src/callbacks/workflow_callbacks/workflow_classification_analysis.py:800-837 | The chart is "no data" exactly when no ticket passes the filter, the lines are the no-data lines exactly then, no error is shown, and the chart is a heatmap exactly for a non-empty selection in the heatmap view. |
| WorkflowClassificationAnalysis.EmptySelectionRaises | src/callbacks/workflow_callbacks/workflow_classification_analysis.py:283-284 | With no tickets, the panel as written shows the error state, while the intended panel shows no data. |
| WorkflowClassificationAnalysis.ButtonsMatchChart | src/callbacks/workflow_callbacks/workflow_classification_analysis.py:781-831 | Whenever there is data, the heatmap button is active exactly when the heatmap is drawn. |
| ComplianceData.NumReports | src/utils/compliance_data.py:57-59 | NumReportIds is the length of the parsed ReportIds list, and 0 for a null cell. |
| ComplianceData.SecondsComponent | src/utils/compliance_data.py:26 | `timedelta.seconds` lies in [0, 86400) and differs from the elapsed seconds by whole days. |
| ComplianceData.DayOldCacheLooksFresh | src/utils/compliance_data.py:24-28 | A cache written a day and ten seconds ago passes the test as written and fails the hour-long test. |
| ComplianceData.FreshWithinDay | src/utils/compliance_data.py:24-28 | For ages from zero up to a day the test as written and the hour-long test agree. |
| ComplianceData.LoadStep | src/utils/compliance_data.py:19-116 | One run of the cached body never touches the memo. |
| ComplianceData.LoadStepAsWritten | src/utils/compliance_data.py:19-116 | The body as written, with the seconds-component age test, also never touches the memo. |
| ComplianceData.DayOldFrameServedAsWritten | src/utils/compliance_data.py:24-28 | A frame cached at time 0 is still served as written a day and ten seconds later, where the hour-long test returns the newer frame. |
| ComplianceData.GetStep | src/utils/compliance_data.py:13-14 | A call through `lru_cache(maxsize=1)` leaves the memo holding the frame it returned. |
| ComplianceData.GetStepAsWritten | src/utils/compliance_data.py:13-28 | A call as written, through the memo and the seconds-component test, also leaves the memo holding the frame it returned. |
| ComplianceData.StepsAgreeWithinDay | src/utils/compliance_data.py:13-28 | With no timestamp or an age under a day, the body and the call as written equal the ones with the hour-long test. A call the memo answers returns the memo under both. |
| ComplianceData.InvalidateStep | src/utils/compliance_data.py:118-123 | Invalidation leaves the dict, the timestamp and the memo empty. |
| ComplianceData.HitIgnoresFetch | src/utils/compliance_data.py:24-28 | A fresh cached frame is returned, the state unchanged, whatever a fetch would give. |
| ComplianceData.FetchedFrameReused | src/utils/compliance_data.py:24-112 | A successful fetch is returned and stored; within the hour it is returned again whatever a new fetch would give. |
| ComplianceData.FailedFetchLeavesCache | src/utils/compliance_data.py:114-116 | A failing fetch returns the empty frame and leaves the cache unchanged. |
| ComplianceData.FailureRetried | src/utils/compliance_data.py:114-116 | Without the memo a failure is retried: the next successful fetch is returned. |
| ComplianceData.StaleFrameRefetched | src/utils/compliance_data.py:24-109 | An hour after a fetch the body fetches again and stores the newer frame with the new time. |
| ComplianceData.MemoPinsFirstResult | src/utils/compliance_data.py:13-14 | Once a call has returned, every later call returns the same frame with the state unchanged, at any time and whatever a fetch would give. |
| ComplianceData.FailureMemoised | src/utils/compliance_data.py:13-116 | From an empty cache a failed first fetch pins the empty frame even when a later fetch would succeed. |
| ComplianceData.InvalidateForcesFetch | src/utils/compliance_data.py:118-123 | After invalidation the next call returns what the fetch gives. |
| ComplianceData.ComplianceCache.constructor | src/utils/compliance_data.py:9-11 | The cache starts empty: no frame, no timestamp, no memo. |
| ComplianceData.ComplianceCache.Load | src/utils/compliance_data.py:19-116 | Updates the cache fields and returns exactly as one run of the body as written does, with the seconds-component age test. |
| ComplianceData.ComplianceCache.Get | src/utils/compliance_data.py:13-116 | Answers from the memo when it holds a frame. Otherwise it runs the body as written and memoises its result. |
| ComplianceData.ComplianceCache.Invalidate | src/utils/compliance_data.py:118-123 | Clears the frame, the timestamp and the memo. |
| ComplianceData.IntsOf | src/utils/compliance_data.py:190-191 | The report-count list parses exactly when every token is an integer, and then holds each token's value in order. |
| ComplianceData.ApplyMasksAll | src/utils/compliance_data.py:127-194 | Applying the masks one after another keeps, in order, exactly the cases that pass all of them. |
| ComplianceData.PassesMasks | src/utils/compliance_data.py:135-192 | A case passes the store's masks exactly when it meets every entry of the store. |
| ComplianceData.FilterWithKeysSpec | src/utils/compliance_data.py:127-194 | Read under any report counts, the filter keeps, in order, exactly the cases that meet every entry. |
| ComplianceData.ComplianceFilterSpec | src/utils/compliance_data.py:127-194 | The filter keeps, in order, exactly the cases that meet every entry, and fails only when a report count is not an integer. |
| ComplianceData.ComplianceFilterOrdered | src/utils/compliance_data.py:127-194 | The surviving cases keep their original order. |
| ComplianceData.EmptyStoreKeepsAll | src/utils/compliance_data.py:135-192 | A store with no dates and only empty text entries keeps every case. |
| ComplianceData.DatesNeedBoth | src/utils/compliance_data.py:135-142 | The date range applies only when both dates are present; with one missing, the dates do not matter. |
| ComplianceData.ListFilterRejectsNonList | src/utils/compliance_data.py:155-159 | A ViolationName entry rejects every case whose violation cell holds no list. |
| ComplianceData.FirstNonBlankSpec | src/utils/compliance_data.py:218-222 | The violation found is not blank and every one before it is blank; none is found exactly when all are blank. |
| ComplianceData.FindFirstViolation | src/utils/compliance_data.py:218-222 | The early-exit loop returns the first non-blank violation. |
| ComplianceData.SkipLeading | src/utils/compliance_data.py:218-222 | The search restarted at an index returns the element there when it is not blank, and otherwise the search from the next index. |
| ComplianceData.SeverityListsDisjoint | src/utils/compliance_data.py:228-248 | The five severity lists do not overlap, so the order of the tests does not matter for a listed violation. |
| ComplianceData.BaseSeverityByRule | src/utils/compliance_data.py:228-248 | A listed violation gets its list's severity, and its reason is the list's prefix followed by the violation. |
| ComplianceData.BaseSeverityUnlisted | src/utils/compliance_data.py:251-255 | A violation on no list is a data issue when it reads "Null", and otherwise of medium severity. |
| ComplianceData.BaseSeverityWithoutViolation | src/utils/compliance_data.py:214-225 | A cell with no list, or an empty one, is resolved; a list of blank elements is a data issue. |
| ComplianceData.LevelName | src/utils/compliance_data.py:259-284 | The severity named by a level 1 to 4 has that level and is neither resolved nor a data issue. |
| ComplianceData.DaysOpen | src/utils/compliance_data.py:338-341 | Days open is the whole number of days since creation, rounded down, and 0 without a creation time. |
| ComplianceData.MultipliersRaise | src/utils/compliance_data.py:257-285 | One multiplier for being unassigned and one for more than ten days open; the final level is the base level plus the multipliers, capped at CRITICAL. |
| ComplianceData.MultipliersPassThrough | src/utils/compliance_data.py:262-263 | Resolved cases and data issues keep their base severity and get no multiplier. |
| ComplianceData.SeverityReason | src/utils/compliance_data.py:328-332 | The reason starts with the base reason, and equals it exactly when there is no multiplier. |
| ComplianceData.ResolvedFirstAgrees | src/utils/compliance_data.py:245-306 | A resolving first violation both closes the case and makes its base severity RESOLVED. |
| ComplianceData.NoViolationsOutstanding | src/utils/compliance_data.py:214-309 | A case with no violation list and no closing disposition or status is outstanding although its severity is RESOLVED. |
| ComplianceData.Classify | src/utils/compliance_data.py:312-341 | A classified row carries its case and whether that case is outstanding. |
| ComplianceData.ClassifyCases | src/utils/compliance_data.py:197-343 | One classified row per case, in order. |
| ComplianceData.AgeBucketMonotone | src/utils/compliance_data.py:378-386 | An older case never lands in a younger age bucket. |
| ComplianceData.PrepareOutstandingFails | src/utils/compliance_data.py:346-428 | The preparation fails exactly when some case is outstanding and the view is none of the four. |
| ComplianceData.PrepareOutstandingEmpty | src/utils/compliance_data.py:351-361 | An empty frame gives no counts and an empty summary; a frame with no outstanding case gives no counts and a summary of zeros. |
| ComplianceData.PrepareOutstandingStats | src/utils/compliance_data.py:355-458 | Otherwise the counts are the chosen view of the outstanding cases and the summary counts the whole frame and its outstanding cases. |
| ComplianceData.OutstandingMembers | src/utils/compliance_data.py:358 | A case is counted exactly when it is outstanding. |
| ComplianceData.ClassifiedRow | src/utils/compliance_data.py:312-358 | Every classified row comes from a case of the frame and records whether that case is outstanding. |
| ComplianceData.SummaryBounds | src/utils/compliance_data.py:434-455 | Stale cases are among the aging ones, which are among the outstanding ones; critical plus high and the unassigned cases never exceed the outstanding ones. |
| ComplianceData.SeverityViewTotal | src/utils/compliance_data.py:364-374 | The severity view's counts add up to the outstanding cases. |
| ComplianceData.AgeViewTotal | src/utils/compliance_data.py:376-397 | The age view's counts add up to the outstanding cases. |
| ComplianceData.SortedCountsTotal | src/utils/compliance_data.py:366-374 | Sorted category counts add up to the number of categorised cases. |
| ComplianceData.SortedViewsTotal | src/utils/compliance_data.py:399-427 | The assignment and violation views' counts add up to the outstanding cases too. |
| ComplianceData.ViolationViewDescending | src/utils/compliance_data.py:415-427 | The violation view lists larger groups first. |
| ComplianceData.AssignmentViewOrdered | src/utils/compliance_data.py:399-413 | The assignment view lists the unassigned group before every assignee, and groups by descending count. |
| ComplianceData.KeyOrderPair | src/utils/compliance_data.py:412-413 | Two bars in assignment-key order: unassigned before assigned, and larger before smaller within each. |
| ComplianceData.SeverityViewMatchesSummary | src/utils/compliance_data.py:364-451 | The severity view's CRITICAL and HIGH bars carry the summary's critical and high counts. |
| ComplianceData.AssignmentViewMatchesSummary | src/utils/compliance_data.py:401-452 | The assignment view's unassigned bar carries the summary's unassigned count. |
| ComplianceData.UnassignedLabelIff | src/utils/compliance_data.py:401-412 | Only an unassigned case gets the unassigned label: an assignee's label starts differently. |
| ComplianceFilters.WithReportCount | src/callbacks/compliance_callbacks/compliance_filters.py:59-65 | NumReportIds is the length of the parsed ReportIds list, 0 for a null one; every other attribute is carried over unchanged. |
| ComplianceFilters.PanelOrderComplete | src/callbacks/compliance_callbacks/compliance_filters.py:222-229 | Every dropdown has its place in the panel order. |
| ComplianceFilters.NarrowAllSpec | src/callbacks/compliance_callbacks/compliance_filters.py:69-108 | The chain keeps, in order, exactly the rows that survive every step, and raises exactly when some step meets a non-list cell on a row still in the frame. |
| ComplianceFilters.ShiftKeeps | src/callbacks/compliance_callbacks/compliance_filters.py:69-108 | Surviving the first k + 1 steps is surviving the first step and then k of the rest. |
| ComplianceFilters.RaisesShift | src/callbacks/compliance_callbacks/compliance_filters.py:69-108 | When no row raises on the first step, raising somewhere is raising later on the rows that survived it. |
| ComplianceFilters.Narrowings | src/callbacks/compliance_callbacks/compliance_filters.py:76-105 | The cross-filter has eight steps, one per dropdown. |
| ComplianceFilters.StepsMeanSelections | src/callbacks/compliance_callbacks/compliance_filters.py:76-105 | A row survives the eight steps exactly when every active selection admits it. |
| ComplianceFilters.ApplyFiltersSpec | src/callbacks/compliance_callbacks/compliance_filters.py:69-108 | A report value that is not an integer always raises; on success the filter keeps, in order, exactly the rows every active selection admits; with every list cell present and the report values integers it succeeds. |
| ComplianceFilters.NonListCellRaises | src/callbacks/compliance_callbacks/compliance_filters.py:82-84 | A null violation cell under an active violation selection makes the cross-filter raise. |
| ComplianceFilters.ListElementsSpec | src/callbacks/compliance_callbacks/compliance_filters.py:129-134 | The collected elements are exactly the elements of the rows' list cells. |
| ComplianceFilters.AsWrittenWithoutNulls | src/callbacks/compliance_callbacks/compliance_filters.py:129-158 | Without null elements the list generator as written gives the intended list. |
| ComplianceFilters.NullElementRaises | src/callbacks/compliance_callbacks/compliance_filters.py:136-137 | A violation list holding a null makes the list generator as written raise, while the intended list offers the other value. |
| ComplianceFilters.OptionsFor | src/callbacks/compliance_callbacks/compliance_filters.py:110-176 | Every option list starts with the "All" header for its dropdown. |
| ComplianceFilters.ListOptionsSpec | src/callbacks/compliance_callbacks/compliance_filters.py:129-158 | After "All", list options offer, in strictly ascending order, exactly the non-blank values occurring as an element of some row's list. |
| ComplianceFilters.ScalarOptionsSpec | src/callbacks/compliance_callbacks/compliance_filters.py:159-174 | After "All", scalar options offer, in strictly ascending order, exactly the non-blank values of non-null cells. |
| ComplianceFilters.ReportOptionsSpec | src/callbacks/compliance_callbacks/compliance_filters.py:159-174 | After "All", report options carry, in ascending order, exactly the rows' report counts, each as its decimal string. |
| ComplianceFilters.FilterAscending | src/callbacks/compliance_callbacks/compliance_filters.py:136-137 | Dropping values keeps an ascending list ascending. |
| ComplianceFilters.RuleTitleLabelBound | src/callbacks/compliance_callbacks/compliance_filters.py:151-152 | A RuleTitle label has at most 100 characters: a title of at most 100 is shown whole, a longer one as its first 97 characters and "...". |
| ComplianceFilters.RuleNumberLabelIff | src/callbacks/compliance_callbacks/compliance_filters.py:149-150 | A RuleNumber label is "Rule - " before the value exactly when the value starts with a digit, and the value itself otherwise. |
| ComplianceFilters.ReportLabelForms | src/callbacks/compliance_callbacks/compliance_filters.py:167-169 | A count of one reads "1 Report"; any other count reads as its number and "Reports". |
| ComplianceFilters.FeeLabelCases | src/callbacks/compliance_callbacks/compliance_filters.py:139-148 | A fee that reads as zero is labelled "No Fee", any other number gets a "$" figure, and a value that does not read as a number is shown as it is. |
| ComplianceFilters.CollectElements | src/callbacks/compliance_callbacks/compliance_filters.py:131-134 | The loop over the list cells collects exactly the specified elements. |
| ComplianceFilters.KeptEntriesSpec | src/callbacks/compliance_callbacks/compliance_filters.py:136-158 | The entries kept are one per non-blank value, in order. |
| ComplianceFilters.AppendEntries | src/callbacks/compliance_callbacks/compliance_filters.py:136-158 | The option loop gives the header followed by one entry per non-blank value, in order. |
| ComplianceFilters.BuildListOptions | src/callbacks/compliance_callbacks/compliance_filters.py:129-158 | The list-column loop builds exactly the specified list options. |
| ComplianceFilters.BuildScalarOptions | src/callbacks/compliance_callbacks/compliance_filters.py:159-174 | The scalar-column loop builds exactly the specified scalar options. |
| ComplianceFilters.BuildReportOptions | src/callbacks/compliance_callbacks/compliance_filters.py:159-174 | The NumReportIds loop builds exactly the specified report options. |
| ComplianceFilters.GenerateOptions | src/callbacks/compliance_callbacks/compliance_filters.py:110-176 | `generate_dropdown_options` builds exactly the specified list for any dropdown. |
| ComplianceFilters.OfferedListValueSelects | src/callbacks/compliance_callbacks/compliance_filters.py:82-158 | Any offered list value works as a selection: chosen alone it keeps exactly the rows whose list contains it, and at least one row. |
| ComplianceFilters.OnlySelectedAdmits | src/callbacks/compliance_callbacks/compliance_filters.py:82-100 | A row passes a single-value list selection exactly when its list names that value. |
| ComplianceFilters.ListedOne | src/callbacks/compliance_callbacks/compliance_filters.py:84 | A list cell names a value exactly when one of its elements is that value. |
| ComplianceCallbacks.PanelIndex | src/callbacks/compliance_callbacks/compliance_filters.py:222-229 | Each dropdown's index in the panel order holds that dropdown. |
| ComplianceCallbacks.RemoveAt | src/callbacks/compliance_callbacks/compliance_filters.py:299-306 | Removing one position from a duplicate-free list removes exactly that element. |
| ComplianceCallbacks.OthersSpec | src/callbacks/compliance_callbacks/compliance_filters.py:259-721 | A change callback refreshes exactly seven dropdowns, every one but the trigger, each once. |
| ComplianceCallbacks.NoPrecedence | src/callbacks/compliance_callbacks/compliance_filters.py:279-721 | Whichever dropdown fires, the list shown for any other dropdown is the same, generated from the frame narrowed by every current selection. |
| ComplianceCallbacks.OnChangeOutcomes | src/callbacks/compliance_callbacks/compliance_filters.py:279-315 | A change callback that raises gives seven empty lists; otherwise every list starts with "All". |
| ComplianceCallbacks.OptionsAsWritten | src/callbacks/compliance_callbacks/compliance_filters.py:110-176 | A list generated as written, when it does not raise, is the intended list. |
| ComplianceCallbacks.AllOptionsAsWritten | src/callbacks/compliance_callbacks/compliance_filters.py:299-306 | Several lists generated inside one `try` come back exactly when none raises, each the intended list. |
| ComplianceCallbacks.OnChangeAsWrittenSpec | src/callbacks/compliance_callbacks/compliance_filters.py:279-315 | The change callback as written agrees with the intended one unless generating a list raises, and then shows seven empty lists. |
| ComplianceCallbacks.NullElementEmptiesLists | src/callbacks/compliance_callbacks/compliance_filters.py:279-315 | One violation list holding a null, nothing selected: the Disposition callback as written empties all seven lists, while the intended one offers the other violation. |
| ComplianceCallbacks.InitialPanels | src/callbacks/compliance_callbacks/compliance_filters.py:210-257 | Eight panels, each with the list from the full frame and its ready placeholder, or, when loading fails, no list and its error placeholder. |
| ComplianceCallbacks.InitialAsWrittenSpec | src/callbacks/compliance_callbacks/compliance_filters.py:210-257 | The initial callback as written agrees with the intended one unless a list raises, and then shows only error placeholders. |
| ComplianceCallbacks.RaiseErrorsInitial | src/callbacks/compliance_callbacks/compliance_filters.py:217-257 | Any list that raises while the panel loads puts every dropdown in the error state. |
| ComplianceCallbacks.NullElementErrorsInitial | src/callbacks/compliance_callbacks/compliance_filters.py:224-257 | One violation list holding a null makes the initial callback as written show "Error loading Violation Names". |
| ComplianceCallbacks.ClearedKeepsAll | src/callbacks/compliance_callbacks/compliance_filters.py:739-747 | After clearing, no selection narrows the attribute frame. |
| ComplianceCallbacks.FilterDataQuery | src/callbacks/compliance_callbacks/compliance_filters.py:764-772 | The store holds exactly the two dates, each defaulted to its placeholder when unset. |
| ComplianceCallbacks.FilterDataQueryText | src/callbacks/compliance_callbacks/compliance_filters.py:773-780 | Every dropdown is written under its own key, as "" when its selection imposes nothing. |
| ComplianceCallbacks.SplitSpaced | src/callbacks/compliance_callbacks/compliance_filters.py:773-780 | Splitting the ", "-joined list of comma-free items on "," gives the items, each after the first led by one space. |
| ComplianceCallbacks.QuotedRoundTrip | src/callbacks/compliance_callbacks/compliance_filters.py:773-779 | An active selection of comma-free, quote-free items written quoted reads back item for item. |
| ComplianceCallbacks.PlainRoundTrip | src/callbacks/compliance_callbacks/compliance_filters.py:780 | The report entry reads back as the integers of the selected values. |
| ComplianceCallbacks.CommaSplitsItem | src/callbacks/compliance_callbacks/compliance_filters.py:777 | A title holding a comma is read back as two tokens. |
| ComplianceCallbacks.QuotedSingle | src/callbacks/compliance_callbacks/compliance_filters.py:773-779 | A single active item is written as that item quoted. |
| ComplianceCallbacks.ReportValuesPlain | src/callbacks/compliance_callbacks/compliance_filters.py:169 | A report option value is plain and parses back to its count. |
| ComplianceCallbacks.QuotedListEmpty | src/callbacks/compliance_callbacks/compliance_filters.py:773-779 | A quoted entry is written non-empty exactly for an active selection. |
| ComplianceCallbacks.PlainListEmpty | src/callbacks/compliance_callbacks/compliance_filters.py:780 | The report entry is written non-empty exactly for an active selection of non-empty items. |
| ComplianceCallbacks.ReportCountsAgree | src/callbacks/compliance_callbacks/compliance_filters.py:104 | The report counts read from the store are the ones the panel parses from its selection. |
| ComplianceCallbacks.QueryWritten | src/callbacks/compliance_callbacks/compliance_filters.py:770-781 | The store writer puts every selection under the key the store reader reads. |
| ComplianceCallbacks.WrittenReadsBack | src/callbacks/compliance_callbacks/compliance_filters.py:770-781 | A written store of encodable selections reads back as those selections. |
| ComplianceCallbacks.ScalarsReadAgree | src/callbacks/compliance_callbacks/compliance_filters.py:76-105 | The disposition, agent and report entries admit exactly what the matching selections admit. |
| ComplianceCallbacks.FirstListsReadAgree | src/callbacks/compliance_callbacks/compliance_filters.py:82-88 | The violation and rule-number entries admit exactly what the matching selections admit. |
| ComplianceCallbacks.LastListsReadAgree | src/callbacks/compliance_callbacks/compliance_filters.py:90-96 | The rule-title and fee entries admit exactly what the matching selections admit. |
| ComplianceCallbacks.FineListReadAgrees | src/callbacks/compliance_callbacks/compliance_filters.py:98-100 | The fine-type entry admits exactly what the matching selection admits. |
| ComplianceCallbacks.ReadsBackMatchesPanel | src/utils/compliance_data.py:135-192 | Entry by entry, a store that reads back passes a case exactly when the dates and the selections do. |
| ComplianceCallbacks.StoreMatchesPanel | src/callbacks/compliance_callbacks/compliance_filters.py:764-783 | The store the panel writes passes a case exactly when the case lies in the date range and the panel's own cross-filter admits it, and both read the report counts alike. |
| ComplianceCallbacks.PanelStoreFilters | src/callbacks/compliance_callbacks/compliance_filters.py:764-783 | Over a non-empty case table, filtering by the panel's store fails exactly when the report counts do not parse, and otherwise keeps exactly the cases in range that the panel's selections admit. |
| ComplianceSummaryCards.DaysOfResolved | src/callbacks/compliance_callbacks/compliance_summary_cards.py:32-39 | One resolution-day value per closed case with both dates, none for any other case. |
| ComplianceSummaryCards.MeanDaysPositive | src/callbacks/compliance_callbacks/compliance_summary_cards.py:38-40 | The mean of the resolution days is positive exactly when there is a resolved case and their days sum above zero. |
| ComplianceSummaryCards.HighRiskMembersSpec | src/callbacks/compliance_callbacks/compliance_summary_cards.py:51-55 | The high-risk count is the number of distinct member names that head more than ten cases. |
| ComplianceSummaryCards.MoreThanTenCard | src/callbacks/compliance_callbacks/compliance_summary_cards.py:54-55 | Over any list of names, the count has one entry per distinct name occurring more than ten times. |
| ComplianceSummaryCards.FewCasesNoHighRisk | src/callbacks/compliance_callbacks/compliance_summary_cards.py:51-55 | A frame of at most ten cases has no high-risk member. |
| ComplianceSummaryCards.TopAgentMissing | src/callbacks/compliance_callbacks/compliance_summary_cards.py:57-65 | No case has an assignee exactly when the agent list is empty, and the card then shows "N/A". |
| ComplianceSummaryCards.TopAgentSpec | src/callbacks/compliance_callbacks/compliance_summary_cards.py:59-65 | The top agent is an assignee with as many cases as any other, no equally busy assignee sorts before it, and the text is the name followed by its count in parentheses. |
| ComplianceSummaryCards.SummaryMetrics | src/callbacks/compliance_callbacks/compliance_summary_cards.py:11-74 | An empty frame gives zeros and "N/A". Otherwise: the total is the frame's length; the open and citation counts are the numbers of matching rows and never exceed it; the average is the mean over the resolved cases. |
| ComplianceSummaryCards.AverageResolutionGuard | src/callbacks/compliance_callbacks/compliance_summary_cards.py:143 | The average card shows a number exactly when some resolved case exists and their days sum above zero. |
| ComplianceSummaryCards.ResolutionDaysNonNegative | src/callbacks/compliance_callbacks/compliance_summary_cards.py:39 | Resolution days are never negative when every resolved case closed no earlier than it opened. |
| ComplianceSummaryCards.SameDayResolutionShowsNA | src/callbacks/compliance_callbacks/compliance_summary_cards.py:39-143 | One case closed within the day it opened gives a mean of 0 days, so the card shows "N/A". |
| ComplianceSummaryCards.UpdateSummaryCards | src/callbacks/compliance_callbacks/compliance_summary_cards.py:109-161 | The callback always fills exactly six cards. |
| ComplianceSummaryCards.UpdateSummaryCardsSpec | src/callbacks/compliance_callbacks/compliance_summary_cards.py:126-161 | An empty base shows the fixed defaults. A store the filter cannot read shows "Error" six times. Otherwise the cards are the texts of the filtered frame's metrics. |
| ComplianceSummaryCards.CountCardsReadBack | src/callbacks/compliance_callbacks/compliance_summary_cards.py:137-149 | Each count card, its thousands separators dropped, reads back as its metric. |
| ComplianceSummaryCards.EmptyFrameCards | src/callbacks/compliance_callbacks/compliance_summary_cards.py:13-143 | A frame the filter empties shows zero counts, and "N/A" for the average and the top agent. |
| ComplianceSummaryCards.EmptyPathsDisagree | src/callbacks/compliance_callbacks/compliance_summary_cards.py:126-143 | An empty base shows "0d" for the average, while a base the filter empties shows "N/A". |
| ComplianceViolationStatus.ViolationGroupsDisjoint | src/callbacks/compliance_callbacks/compliance_violation_status.py:45-58 | No violation name is listed in two groups, so the order of the tests does not matter. |
| ComplianceViolationStatus.GroupInSpec | src/callbacks/compliance_callbacks/compliance_violation_status.py:45-62 | A name falls into the first group whose list holds it. |
| ComplianceViolationStatus.CategorizeViolationSpec | src/callbacks/compliance_callbacks/compliance_violation_status.py:38-62 | Each of the eight lists maps to its group, and a name in none of them maps to "Other". |
| ComplianceViolationStatus.NoViolationGroup | src/callbacks/compliance_callbacks/compliance_violation_status.py:39-58 | A case without violations reads as "No Violation" and falls under "Resolution/Closure". |
| ComplianceViolationStatus.FirstFeeLabelsAgree | src/callbacks/compliance_callbacks/compliance_violation_status.py:81-89 | The fee label as written and the corrected one agree on every case except one whose first fee is null. |
| ComplianceViolationStatus.MeaningfulWith | src/callbacks/compliance_callbacks/compliance_violation_status.py:85 | A fee text with a character that is not whitespace, "." or "0" counts as a fee. |
| ComplianceViolationStatus.NoFeeLabel | src/callbacks/compliance_callbacks/compliance_violation_status.py:83-86 | The fallback text "No Fee" itself passes the fee test and is prefixed with "$". |
| ComplianceViolationStatus.NullFeeLabelledAsWritten | src/callbacks/compliance_callbacks/compliance_violation_status.py:83-86 | A case whose first fee is null is labelled "$No Fee" as written and "No Fee" as intended. |
| ComplianceViolationStatus.FeeLabelShape | src/callbacks/compliance_callbacks/compliance_violation_status.py:85-88 | A fee label is "No Fee" or starts with "$". |
| ComplianceViolationStatus.FirstWordOf | src/callbacks/compliance_callbacks/compliance_violation_status.py:113 | A space-free word followed by a space is the first piece of the split on spaces. |
| ComplianceViolationStatus.ReplacePlus | src/callbacks/compliance_callbacks/compliance_violation_status.py:113 | Removing every "+" leaves a text without one unchanged and drops a trailing one. |
| ComplianceViolationStatus.ReportLabelNumber | src/callbacks/compliance_callbacks/compliance_violation_status.py:96-116 | Every report label reads back as its number of reports, capped at 10, so the sort key orders labels by that number. |
| ComplianceViolationStatus.ReportLabelsDistinct | src/callbacks/compliance_callbacks/compliance_violation_status.py:96-102 | Different report numbers below 10 get different labels. |
| ComplianceViolationStatus.NullFeeCategory | src/callbacks/compliance_callbacks/compliance_violation_status.py:79-93 | In the fee view a case with a null first fee is counted under "$No Fee" as written and under "No Fee" as intended. |
| ComplianceViolationStatus.FeeViewOne | src/callbacks/compliance_callbacks/compliance_violation_status.py:79-127 | The fee view of a one-case frame counts that case's fee label once. |
| ComplianceViolationStatus.PrepareSpec | src/callbacks/compliance_callbacks/compliance_violation_status.py:15-129 | On a non-empty frame the view answers exactly when it is one of the six. Then: open and closed cases add up to the total; every category appears once with its count; counts descend; the counts sum to the categorised cases. |
| ComplianceViolationStatus.CountsOfSpec | src/callbacks/compliance_callbacks/compliance_violation_status.py:22-116 | Counting loses nothing: each category appears with its number of occurrences and the counts sum to the input length, in any order. |
| ComplianceViolationStatus.OpenClosedPartition | src/callbacks/compliance_callbacks/compliance_violation_status.py:121-122 | Every case is open or closed by its disposition, and not both. |
| ComplianceViolationStatus.CategoriesCover | src/callbacks/compliance_callbacks/compliance_violation_status.py:20-106 | Outside the disposition view every case is counted; the disposition view counts the cases that have a disposition. |
| ComplianceViolationStatus.UpdateViolationStatusSpec | src/callbacks/compliance_callbacks/compliance_violation_status.py:557-621 | For either fee labeller, a filtered frame that is empty shows the empty chart. A non-empty one shows a chart exactly when the view is known, and the error chart otherwise. |
| ComplianceViolationStatus.UpdateViolationStatusAgrees | src/callbacks/compliance_callbacks/compliance_violation_status.py:79-93 | Outside the fee view, the callback as written and the one with the intended fee labels give the same panel. |
| ComplianceViolationStatus.ViewIndex | src/callbacks/compliance_callbacks/compliance_violation_status.py:489-508 | The fired button's position is one of the six. |
| ComplianceViolationStatus.ToggleViewSpec | src/callbacks/compliance_callbacks/compliance_violation_status.py:487-508 | Exactly one button is active, the one of the chosen view. Each button selects its own view, and no trigger or an unknown one selects "disposition". |
| ComplianceViolationStatus.DetailsModalSpec | src/callbacks/compliance_callbacks/compliance_violation_status.py:521-546 | A click flips the modal and no click changes nothing; opening always brings content. |
| ComplianceViolationStatus.CloseDetails | src/callbacks/compliance_callbacks/compliance_violation_status.py:654-659 | The close button shuts an open modal, and otherwise nothing changes. |
| ComplianceViolationStatus.ChartModal | src/callbacks/compliance_callbacks/compliance_violation_status.py:638-646 | Only a click on the chart wrapper opens the enlarged chart, and only when it is closed. |
| ComplianceViolationTrends.RecentCases | src/callbacks/compliance_callbacks/compliance_violation_trends.py:54-68 | A case is kept exactly when it has a creation date no more than 730 days before now. |
| ComplianceViolationTrends.TopViolationsKept | src/callbacks/compliance_callbacks/compliance_violation_trends.py:99 | At most ten violations are kept; each is an occurring first violation, at its place in the descending value counts with its number of occurrences. |
| ComplianceViolationTrends.TopViolationsBeatRest | src/callbacks/compliance_callbacks/compliance_violation_trends.py:99 | A first violation left out occurs no more often than any kept one. |
| ComplianceViolationTrends.FewViolationsAllKept | src/callbacks/compliance_callbacks/compliance_violation_trends.py:99 | With ten distinct first violations or fewer, none is left out. |
| ComplianceViolationTrends.CountMapped | src/callbacks/compliance_callbacks/compliance_violation_trends.py:100-102 | Folding everything but the kept violations into "Other" keeps the number of cases of each kept violation. |
| ComplianceViolationTrends.ViolationCategoriesSpec | src/callbacks/compliance_callbacks/compliance_violation_trends.py:91-102 | One category per case. Each category is a top-ten violation or "Other", and a top-ten violation keeps exactly its number of cases. |
| ComplianceViolationTrends.RuleCategoryVariants | src/callbacks/compliance_callbacks/compliance_violation_trends.py:146-177 | The chart's and the insights' rule categorisers agree except on an empty first rule and on the participation and coming-soon families, which the insights count as "Other Rules". |
| ComplianceViolationTrends.SingleDigitPrefix | src/callbacks/compliance_callbacks/compliance_violation_trends.py:158-171 | A rule number starting with a digit other than 1, 7, 8 or 9 followed by "." matches none of the first seven rule families. |
| ComplianceViolationTrends.ParticipationRule | src/callbacks/compliance_callbacks/compliance_violation_trends.py:172-173 | Rules 4.x and 5.x are participation rules on the chart and "Other Rules" in the insights. |
| ComplianceViolationTrends.MovingAverageWindow | src/callbacks/compliance_callbacks/compliance_violation_trends.py:230-231 | The moving-average window lies between 2 and 7 periods, 3 for an unknown period. |
| ComplianceViolationTrends.TrendLineShownSpec | src/callbacks/compliance_callbacks/compliance_violation_trends.py:248 | A single period never gets a trend line; seven or more periods always do. |
| ComplianceViolationTrends.GrowthOf | src/callbacks/compliance_callbacks/compliance_violation_trends.py:440-462 | There is a growth verdict exactly when the earlier 30-day window has cases. |
| ComplianceViolationTrends.GrowthThresholds | src/callbacks/compliance_callbacks/compliance_violation_trends.py:441-462 | Trending up exactly when the last 30 days exceed the 30 before by more than 5%; down when they fall short by more than 5%; stable otherwise. |
| ComplianceViolationTrends.GrowthWindows | src/callbacks/compliance_callbacks/compliance_violation_trends.py:434-438 | The two 30-day windows split the cases of the last 60 days between them. |
| ComplianceViolationTrends.VolumeThresholds | src/callbacks/compliance_callbacks/compliance_violation_trends.py:562-593 | High volume means more than one twentieth of the two years' cases in the last 30 days; low volume means fewer than one thirtieth. |
| ComplianceViolationTrends.PaddedSpec | src/callbacks/compliance_callbacks/compliance_violation_trends.py:696-726 | Padding leaves at least three insights. It keeps the given ones in front, fills up to exactly three, and leaves three or more alone. |
| ComplianceViolationTrends.PadInsights | src/callbacks/compliance_callbacks/compliance_violation_trends.py:711-726 | The padding loop computes the padded list. |
| ComplianceViolationTrends.GenerateInsightsSpec | src/callbacks/compliance_callbacks/compliance_violation_trends.py:374-728 | The insights are one notice exactly when fewer than two recent cases remain, and at least three entries otherwise; an empty frame gives the no-data notice. |
| ComplianceViolationTrends.ViolationTypeInsightsSpec | src/callbacks/compliance_callbacks/compliance_violation_trends.py:413-480 | The violation-type metric gives two or three insights before padding. The first names an occurring first violation with its case count, and no violation is more frequent. |
| ComplianceViolationTrends.PeriodsOf | src/callbacks/compliance_callbacks/compliance_violation_trends.py:79-86 | One period start per case. |
| ComplianceViolationTrends.Zip | src/callbacks/compliance_callbacks/compliance_violation_trends.py:103-106 | Each case's period is paired with its category, position by position. |
| ComplianceViolationTrends.ChartCategories | src/callbacks/compliance_callbacks/compliance_violation_trends.py:89-311 | A known metric gives one category per case. |
| ComplianceViolationTrends.TrendChartTotals | src/callbacks/compliance_callbacks/compliance_violation_trends.py:103-311 | Every plotted (period, category) cell appears once and the counts add up to the number of recent cases. The volume bars also add up to it, and the trend line shows exactly when there are at least as many periods as the window. |
| ComplianceViolationTrends.UnknownChoicesRaise | src/callbacks/compliance_callbacks/compliance_violation_trends.py:79-89 | An unknown metric or period makes the chart raise once recent cases exist, because no figure or period column is ever built. |
| ComplianceViolationTrends.DefaultChoicesChart | src/callbacks/compliance_callbacks/compliance_violation_trends.py:757 | The default monthly violation-type choice always gives a chart. |
| ComplianceViolationTrends.UpdateViolationTrendsSpec | src/callbacks/compliance_callbacks/compliance_violation_trends.py:740-764 | Missing dropdown values show the monthly violation-type chart and its insights for the filtered frame, and a filter that raises shows the error. |
| ComplianceViolationTrends.TrendsChartModal | src/callbacks/compliance_callbacks/compliance_violation_trends.py:818-840 | Only a wrapper click opens the modal, and only when the modal is closed and a figure exists. |
| ComplianceRecentActivities.BucketIndex | src/callbacks/compliance_callbacks/compliance_recent_activities.py:186-188 | Every bucket has one of the five places in the bucket order. |
| ComplianceRecentActivities.ActivityBucketSpec | src/callbacks/compliance_callbacks/compliance_recent_activities.py:169-179 | A case with 1, 2-3, 4-5, 6-10 or more than 10 events falls in the matching bucket, and no other count does; a larger count never lands in an earlier bucket. |
| ComplianceRecentActivities.CaseActivityBucketsSpec | src/callbacks/compliance_callbacks/compliance_recent_activities.py:165-188 | Buckets appear in the order 1 to 10+ whatever their sizes, each at most once, and their case counts add up to the number of distinct cases. |
| ComplianceRecentActivities.SortedPositions | src/callbacks/compliance_callbacks/compliance_recent_activities.py:186-188 | Sorting the bucket counts by bucket place gives strictly increasing places, all among the five. |
| ComplianceRecentActivities.SortedEntries | src/callbacks/compliance_callbacks/compliance_recent_activities.py:182-188 | Any reordering of the value counts still lists each bucket once. |
| ComplianceRecentActivities.StageIconSpec | src/callbacks/compliance_callbacks/compliance_recent_activities.py:435-465 | A stage gets an icon other than the pin only when it is listed, and every unlisted stage gets the pin. |
| ComplianceRecentActivities.DetailRows | src/callbacks/compliance_callbacks/compliance_recent_activities.py:314-348 | The details table shows at most the first 50 events, in order, each with its case, its stage, its stage icon and its row class. |
| ComplianceRecentActivities.DailyCountsSpec | src/callbacks/compliance_callbacks/compliance_recent_activities.py:36-126 | The daily counts are in date order and add up to the number of events. |
| ComplianceRecentActivities.ActivityChartDefined | src/callbacks/compliance_callbacks/compliance_recent_activities.py:16-225 | The chart is missing exactly for an unknown view when there are events. |
| ComplianceRecentActivities.ActivityChartSpec | src/callbacks/compliance_callbacks/compliance_recent_activities.py:16-225 | Every chart counts each event once: per day in date order, or per stage. The volume view's trend line shows exactly with seven or more days, and the no-activity chart appears exactly when there are no events. |
| ComplianceRecentActivities.InvestigationNeverReported | src/callbacks/compliance_callbacks/compliance_recent_activities.py:506-509 | As written, the investigation filter selects no event of any listed stage, because it spells the stage names with underscores. |
| ComplianceRecentActivities.InvestigationReported | src/callbacks/compliance_callbacks/compliance_recent_activities.py:506-529 | With the stage names as the stage tables spell them, an investigation event yields the investigation insight with its event and case counts. |
| ComplianceRecentActivities.MostCommonNoteSpec | src/callbacks/compliance_callbacks/compliance_recent_activities.py:493-504 | With events, the most common stage is named with its count, and no stage occurs more often. |
| ComplianceRecentActivities.RecentInsightsSpec | src/callbacks/compliance_callbacks/compliance_recent_activities.py:468-553 | No events give one notice. Otherwise the summary comes first and the most common stage second, with at most six insights in all. |
| ComplianceRecentActivities.ToggleViewSpec | src/callbacks/compliance_callbacks/compliance_recent_activities.py:568-585 | Exactly one button is active, the one of the chosen view, and no trigger selects the timeline. |
| ComplianceRecentActivities.DetailsModal | src/callbacks/compliance_callbacks/compliance_recent_activities.py:599-624 | A click opens a closed modal and closes an open one, and no click changes nothing. |
| ComplianceRecentActivities.CloseDetails | src/callbacks/compliance_callbacks/compliance_recent_activities.py:734-738 | The close button shuts an open modal only. |
| ComplianceRecentActivities.ChartModal | src/callbacks/compliance_callbacks/compliance_recent_activities.py:718-726 | Only a click on the chart wrapper opens the enlarged chart, and only when it is closed. |
| ComplianceRecentActivities.UpdateRecentActivitiesSpec | src/callbacks/compliance_callbacks/compliance_recent_activities.py:636-700 | For either spelling of the investigation stages: with a base frame, events and an unknown view show the error panel. Otherwise the panel shows the chart and the insights of the prepared events, with the timeframe defaulting to "30d". |
| ComplianceRecentActivities.UpdateRecentActivitiesAsWritten | src/callbacks/compliance_callbacks/compliance_recent_activities.py:636-700 | The panel as written shows the insights as written. When every event has a listed stage, none of its insights is the investigation note. |
| ComplianceRecentActivities.NoInvestigationNote | src/callbacks/compliance_callbacks/compliance_recent_activities.py:506-529 | When the investigation filter as written selects no event, the insights as written hold no investigation note. |
| ComplianceRecentActivities.UpdateRecentActivitiesAgrees | src/callbacks/compliance_callbacks/compliance_recent_activities.py:636-700 | The panel as written and the intended one agree when there is no base frame, when the filter raises, and whenever both spellings select the same investigation events. |
| ComplianceOutstandingIssues.PriorityIndicators | src/callbacks/compliance_callbacks/compliance_outstanding_issues.py:175-206 | The loop gives one priority indicator per category row, in row order, each the one its view assigns to that category. |
| ComplianceOutstandingIssues.ContainedChars | src/callbacks/compliance_callbacks/compliance_outstanding_issues.py:212-217 | Every character of a contained string occurs in the containing one. |
| ComplianceOutstandingIssues.NotContained | src/callbacks/compliance_callbacks/compliance_outstanding_issues.py:212-217 | A string that starts with a character the other lacks is not contained in it. |
| ComplianceOutstandingIssues.MarkOf | src/callbacks/compliance_callbacks/compliance_outstanding_issues.py:175-217 | An indicator contains the alarm or the caution mark exactly when that is its leading mark. |
| ComplianceOutstandingIssues.WordPlain | src/callbacks/compliance_callbacks/compliance_outstanding_issues.py:180-204 | The indicator words carry no mark. |
| ComplianceOutstandingIssues.RowClassByView | src/callbacks/compliance_callbacks/compliance_outstanding_issues.py:175-217 | Severity view: CRITICAL rows are danger and HIGH rows warning. Age view: stale rows are danger and aging rows warning. Assignment view: unassigned rows are danger. Any other row is info among the first three and plain after. |
| ComplianceOutstandingIssues.AgeBucketIndicator | src/callbacks/compliance_callbacks/compliance_outstanding_issues.py:189-197 | An age over 90 days is stale, over 30 aging, over 7 recent, and otherwise fresh. |
| ComplianceOutstandingIssues.BarColoursSpec | src/callbacks/compliance_callbacks/compliance_outstanding_issues.py:36-63 | The severity, age and assignment views colour every bar. Only the unassigned bar is red. Other views run out of palette past twelve bars. |
| ComplianceOutstandingIssues.Percentage | src/callbacks/compliance_callbacks/compliance_outstanding_issues.py:361-383 | A share of a whole it does not exceed lies between 0 and 100, and is 100 exactly when the part is the whole. |
| ComplianceOutstandingIssues.CountBelowSum | src/callbacks/compliance_callbacks/compliance_outstanding_issues.py:383 | One count of a list of counts is at most their sum. |
| ComplianceOutstandingIssues.ViewTotal | src/utils/compliance_data.py:346-458 | Whatever the known view, its counts add up to the number of outstanding cases. |
| ComplianceOutstandingIssues.InsightsScaled | src/callbacks/compliance_callbacks/compliance_outstanding_issues.py:323-412 | When no part exceeds its whole, every percentage the insights show lies between 0 and 100. |
| ComplianceOutstandingIssues.OutstandingInsightsScaled | src/callbacks/compliance_callbacks/compliance_outstanding_issues.py:337-390 | With the prepared counts, every percentage the insights show lies between 0 and 100. |
| ComplianceOutstandingIssues.OutstandingInsightsShape | src/callbacks/compliance_callbacks/compliance_outstanding_issues.py:326-345 | Without outstanding cases the insights say all clear; otherwise they open with the outstanding summary and its share. |
| ComplianceOutstandingIssues.ToggleViewSpec | src/callbacks/compliance_callbacks/compliance_outstanding_issues.py:416-433 | Exactly one button is active, the one of the chosen view. The view is always one the data step knows, and no trigger selects "severity". |
| ComplianceOutstandingIssues.DetailsModal | src/callbacks/compliance_callbacks/compliance_outstanding_issues.py:446-480 | A click opens a closed modal and closes an open one, and no click changes nothing. |
| ComplianceOutstandingIssues.CloseDetails | src/callbacks/compliance_callbacks/compliance_outstanding_issues.py:580-585 | The close button shuts an open modal only. |
| ComplianceOutstandingIssues.ChartModal | src/callbacks/compliance_callbacks/compliance_outstanding_issues.py:564-572 | Only a click on the chart wrapper opens the enlarged chart, and only when it is closed. |
| ComplianceOutstandingIssues.UpdateOutstandingIssuesSpec | src/callbacks/compliance_callbacks/compliance_outstanding_issues.py:482-545 | Once filtered, the panel is the error panel exactly when some case is outstanding and the view is unknown. No outstanding case shows all clear. Otherwise the bars add up to the outstanding cases. |
| ComplianceOutstandingIssues.SumReverse | src/callbacks/compliance_callbacks/compliance_outstanding_issues.py:67-72 | Reversing the bars keeps their total. |
| ComplianceAgentPerformance.Agents | src/callbacks/compliance_callbacks/compliance_agent_performance.py:223-235 | The grouped users are exactly the users some case is assigned to, ascending and each once. |
| ComplianceAgentPerformance.ClosedCount | src/callbacks/compliance_callbacks/compliance_agent_performance.py:233-242 | The closed count never exceeds the cases handled, and is at least both the number of "Closed" statuses and the number of closing dates. |
| ComplianceAgentPerformance.ResolutionRateBounds | src/callbacks/compliance_callbacks/compliance_agent_performance.py:244-247 | A resolution rate lies in [0, 100]. It is 100 exactly when every handled case is closed, and 0 exactly when none is. |
| ComplianceAgentPerformance.ResolutionDays | src/callbacks/compliance_callbacks/compliance_agent_performance.py:251-256 | A case has resolution days exactly when both dates are present, and they are the whole days elapsed, rounded down. |
| ComplianceAgentPerformance.AvgResolutionTimeNonNegative | src/callbacks/compliance_callbacks/compliance_agent_performance.py:249-260 | When no case closes before it was created, the average resolution time is never negative. |
| ComplianceAgentPerformance.ComplexityScore | src/callbacks/compliance_callbacks/compliance_agent_performance.py:262-288 | One case's complexity score never exceeds 100. |
| ComplianceAgentPerformance.ComplexityScoreBounds | src/callbacks/compliance_callbacks/compliance_agent_performance.py:278-288 | The age term adds at most 20 to the violations, events and reports terms, and a case open a non-negative number of days scores at least 0. |
| ComplianceAgentPerformance.ComplexityScores | src/callbacks/compliance_callbacks/compliance_agent_performance.py:262-290 | The loop scores each of the group's cases in row order, each score at most 100. |
| ComplianceAgentPerformance.AvgComplexityBounds | src/callbacks/compliance_callbacks/compliance_agent_performance.py:290-292 | The mean complexity of a group lies in [0, 100] when no case has been open a negative number of days. |
| ComplianceAgentPerformance.MetricsConsistent | src/callbacks/compliance_callbacks/compliance_agent_performance.py:223-309 | Every grouped user handled at least one case, so the risk score's zero-cases branch never fires. The active and closed counts are parts of that, the rate lies in [0, 100] and the complexity is at most 100. |
| ComplianceAgentPerformance.PositiveMax | src/callbacks/compliance_callbacks/compliance_agent_performance.py:317-319 | The scale is at least every value and is either one of them or 1. |
| ComplianceAgentPerformance.Risk | src/callbacks/compliance_callbacks/compliance_agent_performance.py:311-326 | A risk score never exceeds 100, and an agent without cases scores 0. |
| ComplianceAgentPerformance.RiskWithinWeights | src/callbacks/compliance_callbacks/compliance_agent_performance.py:311-326 | When the figures lie within the scale, each term stays within its weight, so the cap never applies and the score lies in [0, 100]. |
| ComplianceAgentPerformance.WithinScale | src/callbacks/compliance_callbacks/compliance_agent_performance.py:317-319 | Every grouped agent's active cases, resolution time and complexity lie within the scale taken over all agents. |
| ComplianceAgentPerformance.AgentName | src/callbacks/compliance_callbacks/compliance_agent_performance.py:332-334 | A blank user is named "Unassigned"; otherwise the name is the stripped user, and it is not blank. |
| ComplianceAgentPerformance.WordEnd | src/callbacks/compliance_callbacks/compliance_agent_performance.py:340 | The position found ends the run of non-whitespace characters starting at the given one. |
| ComplianceAgentPerformance.Words | src/callbacks/compliance_callbacks/compliance_agent_performance.py:340 | The words are non-empty runs without whitespace, and there are none exactly for a blank string. |
| ComplianceAgentPerformance.InitialsOfAgent | src/callbacks/compliance_callbacks/compliance_agent_performance.py:337-346 | A cleaned agent name always yields one or two initials taken from its words, never the "XX" fallback. |
| ComplianceAgentPerformance.WordCharInName | src/callbacks/compliance_callbacks/compliance_agent_performance.py:340-344 | Every character of a word is a character of the name it was split from. |
| ComplianceAgentPerformance.AnalyzeAgentsRows | src/callbacks/compliance_callbacks/compliance_agent_performance.py:210-386 | The table has at most one row per grouped user. Each row handled a case, its active count is part of that, its rate lies in [0, 100] and its risk is at most 100. |
| ComplianceAgentPerformance.RowOfFigures | src/callbacks/compliance_callbacks/compliance_agent_performance.py:328-335 | A row carries its agent's figures unchanged, with the risk at most 100. |
| ComplianceAgentPerformance.AnalyzeAgentsFrom | src/callbacks/compliance_callbacks/compliance_agent_performance.py:350-355 | Every row of the table is the row of some grouped user whose cleaned name is not "Unassigned". |
| ComplianceAgentPerformance.AnalyzeAgentsHas | src/callbacks/compliance_callbacks/compliance_agent_performance.py:350-355 | Every grouped user whose cleaned name is not "Unassigned" has its row in the table. |
| ComplianceAgentPerformance.RowOfName | src/callbacks/compliance_callbacks/compliance_agent_performance.py:332-335 | A row is named by its agent's cleaned name and counts the agent's cases. |
| ComplianceAgentPerformance.AgentRiskBounds | src/callbacks/compliance_callbacks/compliance_agent_performance.py:311-326 | When no case closes before it was created or opens in the future, every agent's risk is the uncapped weighted sum and lies in [0, 100]. |
| ComplianceAgentPerformance.WorkloadDistribution | src/callbacks/compliance_callbacks/compliance_agent_performance.py:357-384 | The workload classes do not overlap, so balanced, underloaded and overloaded agents number at most the team. Not every agent can be overloaded, and the high performers and agents at risk are at most the team. |
| ComplianceAgentPerformance.NotAllFiltered | src/callbacks/compliance_callbacks/compliance_agent_performance.py:364 | A list holding an element the test rejects loses it in the filter. |
| ComplianceAgentPerformance.SortByRisk | src/callbacks/compliance_callbacks/compliance_agent_performance.py:579 | The same rows, highest risk first. |
| ComplianceAgentPerformance.SortByMetric | src/callbacks/compliance_callbacks/compliance_agent_performance.py:571-579 | Every sort keeps the table's rows. |
| ComplianceAgentPerformance.SortByMetricSpec | src/callbacks/compliance_callbacks/compliance_agent_performance.py:571-579 | For a known metric the sort keeps the rows and puts them in descending order of that metric. |
| ComplianceAgentPerformance.TopAgentsLead | src/callbacks/compliance_callbacks/compliance_agent_performance.py:571-579 | After the sort, the first top_count rows lead: every row is shown or ranks no higher than every shown row. |
| ComplianceAgentPerformance.ActiveColour | src/callbacks/compliance_callbacks/compliance_agent_performance.py:69-70 | A bar is red from 20 active cases, amber from 10 and green below. |
| ComplianceAgentPerformance.AgentChartOf | src/callbacks/compliance_callbacks/compliance_agent_performance.py:15-207 | The chart is missing exactly for an unknown metric with agents, and is the no-data chart exactly when there are none. |
| ComplianceAgentPerformance.OpenColoursOrdered | src/callbacks/compliance_callbacks/compliance_agent_performance.py:69-70 | On the open-cases view sorted by active cases, the colours go from red through amber to green and never back. |
| ComplianceAgentPerformance.RiskMatrixCovers | src/callbacks/compliance_callbacks/compliance_agent_performance.py:163-164 | The risk matrix's axes reach at least 50 and cover every shown agent's risk and caseload. |
| ComplianceAgentPerformance.AgentInsightsOpen | src/callbacks/compliance_callbacks/compliance_agent_performance.py:404-426 | The insights open with the team overview, and a workload alert appears exactly when some agent is overloaded. |
| ComplianceAgentPerformance.LeaderNoteAt | src/callbacks/compliance_callbacks/compliance_agent_performance.py:428-455 | The metric's leader note comes right after the team lines. |
| ComplianceAgentPerformance.FirstHasMostActive | src/callbacks/compliance_callbacks/compliance_agent_performance.py:573 | After the descending sort by active cases, the first row has the largest active count. |
| ComplianceAgentPerformance.HighestCaseloadIsMax | src/callbacks/compliance_callbacks/compliance_agent_performance.py:429-437 | On the caseload view, the highest caseload named is the largest active count in the table. |
| ComplianceAgentPerformance.PermutedFilter | src/callbacks/compliance_callbacks/compliance_agent_performance.py:447-448 | A reordering has an element passing a test exactly when the filter over the original is non-empty. |
| ComplianceAgentPerformance.RiskAlertIffHighRisk | src/callbacks/compliance_callbacks/compliance_agent_performance.py:446-455 | On the efficiency view a risk alert appears exactly when some agent's risk is at least 60. |
| ComplianceAgentPerformance.ChartShowsLeaders | src/callbacks/compliance_callbacks/compliance_agent_performance.py:571-587 | For a known metric the chart shows top_count agents (or all of them), each from the table, leading the rest on the metric. |
| ComplianceAgentPerformance.AgentPanelSpec | src/callbacks/compliance_callbacks/compliance_agent_performance.py:562-587 | The panel shows no agents exactly when the analysis keeps none. With agents it is an error exactly for an unknown metric, and otherwise the chart and insights of the sorted table. |
| ComplianceAgentPerformance.UpdateAgentPerformanceSpec | src/callbacks/compliance_callbacks/compliance_agent_performance.py:524-613 | Once the filter succeeds, the callback shows the panel of the analysed filtered cases: no agents exactly when the table is empty, and an error exactly for an unknown metric. |
| ComplianceAgentPerformance.ChartModal | src/callbacks/compliance_callbacks/compliance_agent_performance.py:651-658 | Only a wrapper click opens the modal, and only when it is closed and a figure exists. |
| ComplianceDataTable.ParseListField | src/callbacks/compliance_callbacks/compliance_data_table.py:61-119 | The shown value is the default or a non-blank text. |
| ComplianceDataTable.ParseListFieldSpec | src/callbacks/compliance_callbacks/compliance_data_table.py:61-119 | A missing cell and a list of blank entries give the default. Otherwise the result is the first non-blank entry, every entry before it being blank. |
| ComplianceDataTable.StripTwice | src/callbacks/compliance_callbacks/compliance_data_table.py:108-109 | A stripped non-blank string stays non-blank when stripped again. |
| ComplianceDataTable.NumberNotBlank | src/callbacks/compliance_callbacks/compliance_data_table.py:112-113 | The text of a number is never blank. |
| ComplianceDataTable.SafeListAggregation | src/callbacks/compliance_callbacks/compliance_data_table.py:162-184 | The loop's total is the column's element count: list lengths, one per scalar, none for a null. |
| ComplianceDataTable.TotalSizeAppend | src/callbacks/compliance_callbacks/compliance_data_table.py:165-180 | The count over two columns put together is the sum of their counts. |
| ComplianceDataTable.TotalSizeZero | src/callbacks/compliance_callbacks/compliance_data_table.py:165-180 | The count is zero exactly when every cell is null or an empty list. |
| ComplianceDataTable.TotalSizeOfLists | src/callbacks/compliance_callbacks/compliance_data_table.py:165-180 | Over list cells the count is at least the number of non-empty lists. |
| ComplianceDataTable.ReplaceCharAppend | src/callbacks/compliance_callbacks/compliance_data_table.py:1134-1138 | Replacing a single character distributes over concatenation. |
| ComplianceDataTable.ReplaceCharAbsent | src/callbacks/compliance_callbacks/compliance_data_table.py:1134-1138 | A string without the character is left alone. |
| ComplianceDataTable.EscapeOne | src/callbacks/compliance_callbacks/compliance_data_table.py:1134-1138 | The five replacements turn one character into its entity. |
| ComplianceDataTable.EscapeAppend | src/callbacks/compliance_callbacks/compliance_data_table.py:1134-1138 | The escape of a concatenation is the concatenation of the escapes. |
| ComplianceDataTable.EscapeIsEach | src/callbacks/compliance_callbacks/compliance_data_table.py:1134-1138 | Because "&" is replaced first, the chain escapes each character exactly once. |
| ComplianceDataTable.EntityAtEntity | src/callbacks/compliance_callbacks/compliance_data_table.py:1134-1138 | An escaped character reads back as its own entity, and a plain one as none. |
| ComplianceDataTable.EscapeRoundTrip | src/callbacks/compliance_callbacks/compliance_data_table.py:1134-1138 | Reading the entities back gives the text, and the escaped text holds no raw angle bracket or quote. |
| ComplianceDataTable.TitleCase | src/callbacks/compliance_callbacks/compliance_data_table.py:849 | Title-casing keeps the length and changes only letters, into letters. |
| ComplianceDataTable.SheetNameSpec | src/callbacks/compliance_callbacks/compliance_data_table.py:849-870 | The sheet name fits Excel's 31 characters, is a prefix of the report title (the whole title when that fits) and has no underscore. |
| ComplianceDataTable.NarrowedSpec | src/callbacks/compliance_callbacks/compliance_data_table.py:235-243 | An event table keeps its columns. It is narrowed only when cases survive and it has a CaseID column; then it keeps, in order, exactly the rows whose CaseID is a surviving case's id. |
| ComplianceDataTable.FilterTablesSpec | src/callbacks/compliance_callbacks/compliance_data_table.py:219-247 | The filter fails exactly when the compliance filter does. Otherwise the cases are what the compliance filter keeps and each event table is narrowed to them; no cases leave every table alone. |
| ComplianceDataTable.FeeSumAppend | src/callbacks/compliance_callbacks/compliance_data_table.py:546-552 | A fee list's total is the sum of its parts, and a rejected fee adds nothing. |
| ComplianceDataTable.FeeSumNonNegative | src/callbacks/compliance_callbacks/compliance_data_table.py:546-552 | A list whose accepted fees all read as non-negative amounts has a non-negative total. |
| ComplianceDataTable.SafeFeeAggregation | src/callbacks/compliance_callbacks/compliance_data_table.py:186-216 | The two loops total the accepted fees of every list in the column. |
| ComplianceDataTable.CaseSummarySpec | src/callbacks/compliance_callbacks/compliance_data_table.py:255-324 | One row per filtered case, in order. Its primary violation and rule number are the first non-blank entries of its lists; a case without violations shows "N/A". |
| ComplianceDataTable.CaseDetails | src/callbacks/compliance_callbacks/compliance_data_table.py:364-383 | A case expands into as many rows as its longest list, each the entries at that position. |
| ComplianceDataTable.ExpandViolations | src/callbacks/compliance_callbacks/compliance_data_table.py:332-383 | The loops append exactly the violation-details rows. |
| ComplianceDataTable.ViolationDetailsLayout | src/callbacks/compliance_callbacks/compliance_data_table.py:336-383 | There is at least one row per case. A case's rows sit together after the rows of the cases before it, the i-th pairing the i-th entries of its four lists. |
| ComplianceDataTable.CaseDetailsCover | src/callbacks/compliance_callbacks/compliance_data_table.py:364-370 | A case's rows number one, or as many as its longest list. Each truthy violation and fee is shown at its own position, and every violation shown is "N/A" or one of the case's. |
| ComplianceDataTable.ExpandRules | src/callbacks/compliance_callbacks/compliance_data_table.py:477-506 | The loops append exactly the rule rows. |
| ComplianceDataTable.CaseRulesSpec | src/callbacks/compliance_callbacks/compliance_data_table.py:495-506 | A case's rule rows are exactly its truthy rule numbers, each with the title at its index, and none has an empty rule number. |
| ComplianceDataTable.RuleViolationsSpec | src/callbacks/compliance_callbacks/compliance_data_table.py:512-520 | The rule report holds exactly the expanded rule rows, ordered by rule number and then by date. |
| ComplianceDataTable.RuleRowsCover | src/callbacks/compliance_callbacks/compliance_data_table.py:479-506 | Every truthy rule number of every filtered case has its row in the report, and only those. |
| ComplianceDataTable.Earliest | src/callbacks/compliance_callbacks/compliance_data_table.py:419 | The earliest date is present exactly when some date is, and is a present date no later than any other. |
| ComplianceDataTable.Latest | src/callbacks/compliance_callbacks/compliance_data_table.py:420 | The latest date is present exactly when some date is, and is a present date no earlier than any other. |
| ComplianceDataTable.MemberRowOf | src/callbacks/compliance_callbacks/compliance_data_table.py:414-434 | A member row carries its member's name. |
| ComplianceDataTable.OfficeRowOf | src/callbacks/compliance_callbacks/compliance_data_table.py:453-463 | An office row carries its assigned user. |
| ComplianceDataTable.GroupBounds | src/callbacks/compliance_callbacks/compliance_data_table.py:414-459 | A group holds at least one case, and its closed cases and distinct members are among its cases. |
| ComplianceDataTable.GroupKeysSpec | src/callbacks/compliance_callbacks/compliance_data_table.py:414-453 | A key is a group key exactly when some case carries it. |
| ComplianceDataTable.SortedRowOfKey | src/callbacks/compliance_callbacks/compliance_data_table.py:437-465 | A sorted row is the row of its own key. |
| ComplianceDataTable.KeyRowSorted | src/callbacks/compliance_callbacks/compliance_data_table.py:437-465 | Every key's row survives the sort. |
| ComplianceDataTable.MemberViolationsOrder | src/callbacks/compliance_callbacks/compliance_data_table.py:414-437 | The member rows come in non-increasing order of total violations, one row per member name. |
| ComplianceDataTable.MemberViolationsNames | src/callbacks/compliance_callbacks/compliance_data_table.py:414 | Every case with a member name has its member's row. |
| ComplianceDataTable.MemberViolationsFacts | src/callbacks/compliance_callbacks/compliance_data_table.py:414-434 | Each member row aggregates the cases of its member name. |
| ComplianceDataTable.OfficeViolationsOrder | src/callbacks/compliance_callbacks/compliance_data_table.py:453-465 | The office rows come in non-increasing order of total cases, one row per assigned user. |
| ComplianceDataTable.OfficeViolationsNames | src/callbacks/compliance_callbacks/compliance_data_table.py:453 | Every case with an assigned user has that user's row. |
| ComplianceDataTable.OfficeViolationsFacts | src/callbacks/compliance_callbacks/compliance_data_table.py:453-463 | Each office row aggregates the cases of its assigned user. |
| ComplianceDataTable.ReorderedKeysDistinct | src/callbacks/compliance_callbacks/compliance_data_table.py:437-465 | Rows built one per distinct key keep their keys distinct through any reordering. |
| ComplianceDataTable.FinancialRowsSpec | src/callbacks/compliance_callbacks/compliance_data_table.py:530-570 | One row per filtered case, whatever the order. Each row holds the case's accepted fees summed and the text of that sum. The fine type is the first one when it is truthy, and "Standard" otherwise. |
| ComplianceDataTable.FinancialSummaryOrder | src/callbacks/compliance_callbacks/compliance_data_table.py:570 | The corrected report lists the cases from the largest total fee down. |
| ComplianceDataTable.FinancialAsWrittenOrder | src/callbacks/compliance_callbacks/compliance_data_table.py:570 | As written, the rows are in descending order of their fee text, not of the amount. |
| ComplianceDataTable.HundredBeforeNineAsText | src/callbacks/compliance_callbacks/compliance_data_table.py:559-570 | "$100.00" sorts before "$9.00" as text. |
| ComplianceDataTable.FinancialNineBeforeHundred | src/callbacks/compliance_callbacks/compliance_data_table.py:570 | As written, a case whose fees total $9.00 comes ahead of one whose fees total $100.00. |
| ComplianceDataTable.FinancialHundredBeforeNine | src/callbacks/compliance_callbacks/compliance_data_table.py:570 | The corrected report puts the $100.00 case ahead of the $9.00 case. |
| ComplianceDataTable.ActivityLogSpec | src/callbacks/compliance_callbacks/compliance_data_table.py:572-606 | The log keeps the renamed columns and every row of the case-flow table. With an activity date column, each row's date is parsed and the rows are newest first. |
| ComplianceDataTable.ActivityDateCell | src/callbacks/compliance_callbacks/compliance_data_table.py:584-597 | The activity date shown is the parse of the row's ActionDate cell. |
| ComplianceDataTable.PrepareReportEdges | src/callbacks/compliance_callbacks/compliance_data_table.py:250-258 | An unknown report type gives no report, and so do a case report over no cases and an empty case flow. |
| ComplianceDataTable.CaseSummaryReportRows | src/callbacks/compliance_callbacks/compliance_data_table.py:255-324 | The case summary shows one row per filtered case. |
| ComplianceDataTable.FinancialReportRows | src/callbacks/compliance_callbacks/compliance_data_table.py:522-570 | With cases, the financial summary as written and the intended one each show one row per filtered case. The two hold the same rows, in different orders. |
| ComplianceDataTable.PrepareReportAgrees | src/callbacks/compliance_callbacks/compliance_data_table.py:250-570 | The intended report equals the one as written for every report type but the financial summary. For that one too, it has the same number of rows and the same columns. |
| ComplianceDataTable.DetailsReportRows | src/callbacks/compliance_callbacks/compliance_data_table.py:326-403 | The violation details show at least one row per filtered case. |
| ComplianceDataTable.ActivityReportRows | src/callbacks/compliance_callbacks/compliance_data_table.py:572-602 | The activity log shows one row per case-flow row. |
| ComplianceDataTable.UpdateTableMessages | src/callbacks/compliance_callbacks/compliance_data_table.py:625-651 | "No compliance data" shows exactly when there is no base data, and the error exactly when the filter fails. |
| ComplianceDataTable.UpdateTableShown | src/callbacks/compliance_callbacks/compliance_data_table.py:642-759 | The table shows exactly when the prepared report has rows, with its record count, its column count and the report's title. |
| ComplianceDataTable.UnknownReportNoData | src/callbacks/compliance_callbacks/compliance_data_table.py:642-759 | A report type the panel does not know shows the no-data message. |
| ComplianceDataTable.ExportSpec | src/callbacks/compliance_callbacks/compliance_data_table.py:778-1242 | A file is sent exactly when the button was clicked and the table would show the report. The PDF is landscape exactly past six columns, shows at most the first 100 rows and notes exactly when it leaves rows out. The Excel sheet takes the sheet name. |
| Frames.Pick | src/callbacks/compliance_callbacks/compliance_data_table.py:320-321 | A row keeps the cells of the kept source columns, in the kept order. |
| Frames.Project | src/callbacks/compliance_callbacks/compliance_data_table.py:320-321 | The selection keeps every row, takes the new names as its columns, and fills each column with its source column's cells. |
| Frames.SelectRenameSpec | src/callbacks/compliance_callbacks/compliance_data_table.py:319-321 | The report keeps every row and is well formed. Its columns are the new names of the mapping entries whose source column exists, in mapping order, each filled from its source column. |
| Frames.RenamedCell | src/callbacks/compliance_callbacks/compliance_data_table.py:592-593 | A column renamed from one source column, with no other entry renamed to it, carries that column's cells in every row. |
| WorkflowAssigneeWorkload.UnquotedList | src/callbacks/workflow_callbacks/workflow_assignee_workload.py:70-79 | A parsed selection never holds an empty item. |
| WorkflowAssigneeWorkload.UnquotedRoundTrip | src/callbacks/workflow_callbacks/workflow_assignee_workload.py:70-79 | A non-empty list of storable items, quoted and joined with ", ", reads back as exactly those items. |
| WorkflowAssigneeWorkload.PlaceholderKept | src/callbacks/workflow_callbacks/workflow_assignee_workload.py:70-79 | The stored placeholder "'-'" reads as "-" here, where the summary cards read it as "". |
| WorkflowAssigneeWorkload.WorkloadFilterSpec | src/callbacks/workflow_callbacks/workflow_assignee_workload.py:60-117 | A missing store gives no frame. Otherwise the filter keeps, in order, exactly the dated items inside the range that every active selection of the nine dimensions the query has admits; Reasons is not among them. |
| WorkflowAssigneeWorkload.ReasonsIgnored | src/callbacks/workflow_callbacks/workflow_assignee_workload.py:17-36 | Whatever the Reasons entry of the store holds, the filter gives the same result, because the query returns no CaseReason column. |
| WorkflowAssigneeWorkload.UnspecifiedDropsBlank | src/callbacks/workflow_callbacks/workflow_assignee_workload.py:70-115 | Choosing the placeholder for any of the nine filtered dropdowns drops every row whose cell is blank, because this reader keeps "-". |
| WorkflowAssigneeWorkload.SplitHeadFree | src/callbacks/workflow_callbacks/workflow_assignee_workload.py:137 | The part before the first separator holds no separator. |
| WorkflowAssigneeWorkload.CleanAssigneeFree | src/callbacks/workflow_callbacks/workflow_assignee_workload.py:137 | The text handed to titleize carries no domain and none of the replaced separators. |
| WorkflowAssigneeWorkload.AssigneeNameSpec | src/callbacks/workflow_callbacks/workflow_assignee_workload.py:133-138 | Null, empty and "unassigned" in any case read "Unassigned". Any other name is titleized from a text free of "@", "." and "_", and two addresses with the same local part get the same name. |
| WorkflowAssigneeWorkload.StatusSetsDisjoint | src/callbacks/workflow_callbacks/workflow_assignee_workload.py:150-164 | The closed, active and non-actionable status sets are pairwise disjoint. |
| WorkflowAssigneeWorkload.CategorizeStatusSpec | src/callbacks/workflow_callbacks/workflow_assignee_workload.py:143-174 | Every status lands in exactly one bucket. Closed exactly for a closed status; non-actionable exactly for a null or non-actionable one; active for the rest, including unknown statuses. |
| WorkflowAssigneeWorkload.EscalatedByStatusBucket | src/callbacks/workflow_callbacks/workflow_assignee_workload.py:150-187 | A ticket escalated by its status is closed or active, never non-actionable, and closed exactly for the resolved and canceled escalations. |
| WorkflowAssigneeWorkload.NullCellsNotEscalated | src/callbacks/workflow_callbacks/workflow_assignee_workload.py:184-188 | A null flag and a null status never make a ticket escalated. |
| WorkflowAssigneeWorkload.BucketsPartition | src/callbacks/workflow_callbacks/workflow_assignee_workload.py:202-247 | The closed, active and non-actionable counts together count every ticket exactly once. |
| WorkflowAssigneeWorkload.TallyBucketsSum | src/callbacks/workflow_callbacks/workflow_assignee_workload.py:193-230 | Every assignee's three bucket counts add up to their ticket count, and their escalated tickets are among them. |
| WorkflowAssigneeWorkload.Tallies | src/callbacks/workflow_callbacks/workflow_assignee_workload.py:193-202 | One tally per distinct display name, in ascending name order, each the tally of that name. |
| WorkflowAssigneeWorkload.RankedSpec | src/callbacks/workflow_callbacks/workflow_assignee_workload.py:237-241 | At most N rows ("all" keeps every assignee), in non-increasing order of load. Every assignee shown carries at least the load of every one left out. |
| WorkflowAssigneeWorkload.SummaryAddsUp | src/callbacks/workflow_callbacks/workflow_assignee_workload.py:243-262 | The three bucket totals make the ticket total, the unassigned tickets are among them, and no more assignees are displayed than exist. |
| WorkflowAssigneeWorkload.LabelWidthSpec | src/callbacks/workflow_callbacks/workflow_assignee_workload.py:309-316 | More assignees never widen the labels. A long name is cut to its width plus an ellipsis and a short one is kept. |
| WorkflowAssigneeWorkload.QuickSelectSpec | src/callbacks/workflow_callbacks/workflow_assignee_workload.py:567-691 | "open" shows exactly the two open buckets and reports their combined count. "closed" and "all" fall to the top-performer note, and any other trigger selects every category. |
| WorkflowAssigneeWorkload.BalanceNoteMonotone | src/callbacks/workflow_callbacks/workflow_assignee_workload.py:582-592 | Equal loads are balanced, and a heavier top load never reads as better balanced. |
| WorkflowAssigneeWorkload.ModalOpenSpec | src/callbacks/workflow_callbacks/workflow_assignee_workload.py:765-785 | The close button always closes, the wrapper never closes an open modal, and other triggers change nothing. |
| WorkflowEscalatedTickets.NarrowListedSpec | src/callbacks/workflow_callbacks/workflow_escalated_tickets.py:110-168 | The chain of dropdown filters keeps, in order, exactly the rows that every dropdown with a non-empty entry admits. |
| WorkflowEscalatedTickets.EscalatedFilterSpec | src/callbacks/workflow_callbacks/workflow_escalated_tickets.py:85-170 | The filter keeps, in order, exactly the rows inside both applicable Day_From/Day_To bounds that every non-empty dropdown list admits. |
| WorkflowEscalatedTickets.MissingStoreIsEmpty | src/callbacks/workflow_callbacks/workflow_escalated_tickets.py:89-90 | A missing store reads as an empty one: no date bound and no list applies. |
| WorkflowEscalatedTickets.DatesThenLists | src/callbacks/workflow_callbacks/workflow_escalated_tickets.py:98-168 | Filtering by dates and then by lists is the same as one filter by their conjunction. |
| WorkflowEscalatedTickets.QuotedListStripped | src/callbacks/workflow_callbacks/workflow_escalated_tickets.py:110-112 | A quoted entry written by the panel, once stripped, needs no more stripping. |
| WorkflowEscalatedTickets.JoinEnds | src/callbacks/workflow_callbacks/workflow_escalated_tickets.py:110-112 | A ", "-joined list of quoted items starts and ends with a quote. |
| WorkflowEscalatedTickets.SplitPiecesQuoted | src/callbacks/workflow_callbacks/workflow_escalated_tickets.py:112 | Split on commas and stripped, the pieces of a written entry are the quoted items. |
| WorkflowEscalatedTickets.SpacedQuoteStripped | src/callbacks/workflow_callbacks/workflow_escalated_tickets.py:112 | A quoted piece with the leading space that the split leaves strips to the quoted item. |
| WorkflowEscalatedTickets.StripQuotedPiece | src/callbacks/workflow_callbacks/workflow_escalated_tickets.py:112 | A quoted piece, with or without its leading space, strips to the quoted piece. |
| WorkflowEscalatedTickets.ReadPieces | src/callbacks/workflow_callbacks/workflow_escalated_tickets.py:112 | Reading pieces that are all filled maps each of them. |
| WorkflowEscalatedTickets.AsWrittenKeepsQuotes | src/callbacks/workflow_callbacks/workflow_escalated_tickets.py:110-168 | As written, the reader keeps the quotes: a selection stored by the filter panel reads back as the quoted items. |
| WorkflowEscalatedTickets.CommaValuesRoundTrip | src/callbacks/workflow_callbacks/workflow_escalated_tickets.py:110-168 | With the quotes removed too, a stored selection reads back item for item. |
| WorkflowEscalatedTickets.ActiveSelectionDropsAll | src/callbacks/workflow_callbacks/workflow_escalated_tickets.py:110-168 | As written, once a filtered dropdown holds a selection, a ticket whose cell does not start with a quote is dropped. |
| WorkflowEscalatedTickets.QuotedEntryDrops | src/callbacks/workflow_callbacks/workflow_escalated_tickets.py:110-168 | A store whose entry for a filtered dropdown is a quoted list drops, as written, every ticket whose cell is not quoted. |
| WorkflowEscalatedTickets.QuotedEntryUnlisted | src/callbacks/workflow_callbacks/workflow_escalated_tickets.py:110-168 | Such an entry makes the chain of dropdown tests reject the ticket. |
| WorkflowEscalatedTickets.UnlistedDropped | src/callbacks/workflow_callbacks/workflow_escalated_tickets.py:110-168 | A ticket that some listed dropdown rejects is not in the panel's frame. |
| WorkflowEscalatedTickets.QuotedNotListed | src/callbacks/workflow_callbacks/workflow_escalated_tickets.py:112-113 | A non-empty list of quoted items admits no cell that does not start with a quote. |
| WorkflowEscalatedTickets.MissesListed | src/callbacks/workflow_callbacks/workflow_escalated_tickets.py:110-168 | One listed dropdown that rejects the row makes the whole chain reject it. |
| WorkflowEscalatedTickets.StoredSelectionListed | src/callbacks/workflow_callbacks/workflow_escalated_tickets.py:110-168 | With the quotes removed, a stored selection admits exactly the tickets whose cell is one of the chosen items. |
| WorkflowEscalatedTickets.CategorizeSpec | src/callbacks/workflow_callbacks/workflow_escalated_tickets.py:206-233 | Recently resolved exactly when closed with a resolved or canceled escalation status. Long duration only for a flagged ticket escalated more than 7 days. Current only for a flagged ticket. Other exactly when neither of the first two tests applies. |
| WorkflowEscalatedTickets.LongDurationStays | src/callbacks/workflow_callbacks/workflow_escalated_tickets.py:221-230 | As time passes, a ticket still open only moves from current to long duration, never back. |
| WorkflowEscalatedTickets.PeriodWidens | src/callbacks/workflow_callbacks/workflow_escalated_tickets.py:238-240 | "all" keeps every ticket. A day count keeps exactly the tickets created since then, and a longer period keeps every ticket a shorter one keeps. |
| WorkflowEscalatedTickets.DurationAgreesBelowDay | src/callbacks/workflow_callbacks/workflow_escalated_tickets.py:243-258 | Below an hour this format prints the same minutes as the summary cards' format. Below a day it prints the same hours and minutes, except that a whole hour gains " 0m". |
| WorkflowEscalatedTickets.DaysHideMinutes | src/callbacks/workflow_callbacks/workflow_escalated_tickets.py:243-253 | Past a day the minutes are dropped: two durations in the same whole hour print the same text. |
| WorkflowEscalatedTickets.BinOfMonotone | src/callbacks/workflow_callbacks/workflow_escalated_tickets.py:284-289 | Every positive duration has a bin, and only those do. Longer durations never fall in earlier bins. |
| WorkflowEscalatedTickets.CurrentOrderMembers | src/callbacks/workflow_callbacks/workflow_escalated_tickets.py:263-266 | The order holds exactly the current tickets. |
| WorkflowEscalatedTickets.CurrentOrderSorted | src/callbacks/workflow_callbacks/workflow_escalated_tickets.py:266 | In the order every dated ticket precedes every undated one, and the dated ones go by escalation time. |
| WorkflowEscalatedTickets.DatedThenUndated | src/callbacks/workflow_callbacks/workflow_escalated_tickets.py:266 | A sorted dated part followed by the undated part is ordered dated-first, by escalation time. |
| WorkflowEscalatedTickets.CurrentViewMembers | src/callbacks/workflow_callbacks/workflow_escalated_tickets.py:263-269 | The current view holds at most 20 tickets, all of them current. |
| WorkflowEscalatedTickets.CurrentViewOrdered | src/callbacks/workflow_callbacks/workflow_escalated_tickets.py:266-269 | Within the current view, dated tickets come first, in escalation order. |
| WorkflowEscalatedTickets.CurrentViewOldestFirst | src/callbacks/workflow_callbacks/workflow_escalated_tickets.py:266-269 | Every dated ticket shown was escalated no later than every dated current ticket left out. |
| WorkflowEscalatedTickets.CategoriesPartition | src/callbacks/workflow_callbacks/workflow_escalated_tickets.py:206-235 | The four category counts partition the rows. |
| WorkflowEscalatedTickets.TallyTotalIsTicketCount | src/callbacks/workflow_callbacks/workflow_escalated_tickets.py:278-280 | An assignee's total, the sum across categories, is that assignee's number of tickets. |
| WorkflowEscalatedTickets.AssigneeViewSpec | src/callbacks/workflow_callbacks/workflow_escalated_tickets.py:277-282 | The assignee view lists at most 15 assignees, by total in non-increasing order. |
| WorkflowEscalatedTickets.SummarySpec | src/callbacks/workflow_callbacks/workflow_escalated_tickets.py:298-310 | The rate divides the frame's size by itself, so it is 100 for any ticket and 0 for none. The three category counts together, and the critical count, stay within the total. |
| WorkflowEscalatedTickets.QuickSelectNested | src/callbacks/workflow_callbacks/workflow_escalated_tickets.py:634-669 | Each quick-select button widens the one before: active within critical within all. An unknown trigger gives the default categories. |
| WorkflowEscalatedTickets.ModalOpenSpec | src/callbacks/workflow_callbacks/workflow_escalated_tickets.py:720-753 | The close button always closes. A chart click with click data opens the modal; without click data, as for any other trigger, the modal keeps its state. |
| WorkflowSourceAnalysis.SourceFilterSpec | src/callbacks/workflow_callbacks/workflow_source_analysis.py:60-134 | The filter keeps, in order, exactly the rows that pass the date test and that every active selection admits. |
| WorkflowSourceAnalysis.OpenTicketsDropped | src/callbacks/workflow_callbacks/workflow_source_analysis.py:80-88 | Once both dates are stored, a ticket still open (no ClosedOn) never reaches the panel, because the end bound is compared with ClosedOn. |
| WorkflowSourceAnalysis.OriginGroupSpec | src/callbacks/workflow_callbacks/workflow_source_analysis.py:136-152 | The grouping maps into the six group names and ignores letter case. A missing origin goes to "Others", and an origin is "Email" exactly when its lower-case form is one of the seven email origins. |
| WorkflowSourceAnalysis.GroupCounts | src/callbacks/workflow_callbacks/workflow_source_analysis.py:162-165 | The origin groups present, ascending as groupby orders them, each with its count of present origins. |
| WorkflowSourceAnalysis.GroupCountsTotal | src/callbacks/workflow_callbacks/workflow_source_analysis.py:163-180 | The group counts add up to the number of rows with a present CaseOrigin. |
| WorkflowSourceAnalysis.GroupSumsAsList | src/callbacks/workflow_callbacks/workflow_source_analysis.py:163-165 | Summing the listed groups' counts is the sum of the per-group sums. |
| WorkflowSourceAnalysis.PresentCount | src/callbacks/workflow_callbacks/workflow_source_analysis.py:163-165 | Counting present origins row by row gives the number of rows with a present origin. |
| WorkflowSourceAnalysis.GroupExtremesSpec | src/callbacks/workflow_callbacks/workflow_source_analysis.py:176-185 | The top group has the largest count of all groups and the least group the smallest. Both are listed groups. |
| WorkflowSourceAnalysis.LexicographicKey | src/callbacks/workflow_callbacks/workflow_source_analysis.py:404 | A larger combined key means a larger group total, or an equal total and a larger count. |
| WorkflowSourceAnalysis.DetailBounds | src/callbacks/workflow_callbacks/workflow_source_analysis.py:393-402 | A details row counts no more tickets than there are rows, and neither does its group total. |
| WorkflowSourceAnalysis.DetailsBounded | src/callbacks/workflow_callbacks/workflow_source_analysis.py:393-402 | Every details row counts at most the rows there are. |
| WorkflowSourceAnalysis.KeyOrdered | src/callbacks/workflow_callbacks/workflow_source_analysis.py:404 | Two bounded rows in key order are in (group total, count) order. |
| WorkflowSourceAnalysis.DetailsOrdered | src/callbacks/workflow_callbacks/workflow_source_analysis.py:404 | The details are ordered by group total descending, and within equal totals by origin count descending. |
| WorkflowSourceAnalysis.DetailMatchesGroup | src/callbacks/workflow_callbacks/workflow_source_analysis.py:400-402 | Each details row's group total is the count of that group in the grouped table. |
| WorkflowSourceAnalysis.DetailsOpenSpec | src/callbacks/workflow_callbacks/workflow_source_analysis.py:385-424 | The details button with a click opens the modal, and the close button with a click closes it. Any other trigger keeps the modal's state. |
| WorkflowTrendsAnalysis.MonthlyPeriods | src/callbacks/workflow_callbacks/workflow_trends_analysis.py:121-130 | Monthly periods, the default for any unknown granularity, name a (year, month) pair and sort as strings in calendar order. |
| WorkflowTrendsAnalysis.QuarterlyPeriods | src/callbacks/workflow_callbacks/workflow_trends_analysis.py:123-124 | Quarterly periods name a (year, quarter) pair and sort as strings in calendar order. |
| WorkflowTrendsAnalysis.YearlyPeriods | src/callbacks/workflow_callbacks/workflow_trends_analysis.py:125-126 | Yearly periods name the year and sort as strings in calendar order. |
| WorkflowTrendsAnalysis.EntriesSpec | src/callbacks/workflow_callbacks/workflow_trends_analysis.py:109-134 | One entry per counted row, in row order. The entries are exactly the counted rows' (period, item) pairs, and no item is empty. |
| WorkflowTrendsAnalysis.ItemNames | src/callbacks/workflow_callbacks/workflow_trends_analysis.py:133-137 | An item occurs in the item column exactly when some entry carries it. |
| WorkflowTrendsAnalysis.RankedItemsSpec | src/callbacks/workflow_callbacks/workflow_trends_analysis.py:137 | Each item that occurs is listed once, and an item is never listed before a more frequent one. |
| WorkflowTrendsAnalysis.GroupRows | src/callbacks/workflow_callbacks/workflow_trends_analysis.py:140 | One group row per key, in key order. |
| WorkflowTrendsAnalysis.ChartRowGroup | src/callbacks/workflow_callbacks/workflow_trends_analysis.py:140-141 | A chart row is a row of the unsorted groups. |
| WorkflowTrendsAnalysis.ChartRowCounts | src/callbacks/workflow_callbacks/workflow_trends_analysis.py:140 | Every chart row is a (period, item) pair that occurs, carrying its number of occurrences. |
| WorkflowTrendsAnalysis.ChartCoversEntries | src/callbacks/workflow_callbacks/workflow_trends_analysis.py:140 | Every (period, item) pair that occurs has its chart row. |
| WorkflowTrendsAnalysis.GroupRowsDistinct | src/callbacks/workflow_callbacks/workflow_trends_analysis.py:140 | Group rows of repeat-free keys repeat no (period, item) pair. |
| WorkflowTrendsAnalysis.ChartPairsDistinct | src/callbacks/workflow_callbacks/workflow_trends_analysis.py:140 | No (period, item) pair has two rows. |
| WorkflowTrendsAnalysis.GroupRowsSum | src/callbacks/workflow_callbacks/workflow_trends_analysis.py:140 | The group sizes of a list of pairs add up to their summed occurrence counts. |
| WorkflowTrendsAnalysis.ChartTotal | src/callbacks/workflow_callbacks/workflow_trends_analysis.py:140 | Grouping loses no row: the counts add up to the number of counted rows. |
| WorkflowTrendsAnalysis.ChartEmpty | src/callbacks/workflow_callbacks/workflow_trends_analysis.py:140 | The chart is empty exactly when no row was counted. |
| WorkflowTrendsAnalysis.RankKeyOrder | src/callbacks/workflow_callbacks/workflow_trends_analysis.py:141 | Rows ordered by the chart key are ordered by period rank first and count descending second. |
| WorkflowTrendsAnalysis.PeriodListed | src/callbacks/workflow_callbacks/workflow_trends_analysis.py:141 | The period of an occurring pair is listed, at its rank. |
| WorkflowTrendsAnalysis.ChartRanksOrdered | src/callbacks/workflow_callbacks/workflow_trends_analysis.py:141 | The chart is sorted by period rank, then by count descending. |
| WorkflowTrendsAnalysis.ChartOrdered | src/callbacks/workflow_callbacks/workflow_trends_analysis.py:141 | Along the chart, periods ascend, and within a period the counts never increase. |
| WorkflowTrendsAnalysis.SyncCountsSpec | src/callbacks/workflow_callbacks/workflow_trends_analysis.py:257-261 | The dropdown that fired keeps its value, and after either fires at least one of the two reads "all". Any other trigger changes nothing, and syncing again changes nothing. |
| WorkflowTrendsAnalysis.SelectItemsSpec | src/callbacks/workflow_callbacks/workflow_trends_analysis.py:272-279 | The selection is a run of the ranked list. A positive top count takes the first items; otherwise a positive bottom count takes the last ones; otherwise every item is taken. |
| WorkflowTrendsAnalysis.TrendOf | src/callbacks/workflow_callbacks/workflow_trends_analysis.py:206-213 | Rising exactly when the recent count is higher, falling exactly when it is lower, stable exactly when they are equal. |
| WorkflowTrendsAnalysis.TopItemsSpec | src/callbacks/workflow_callbacks/workflow_trends_analysis.py:190-192 | The top items occur in the chart, once each, and no item left out has a larger total than one listed. |
| WorkflowTrendsAnalysis.Changes | src/callbacks/workflow_callbacks/workflow_trends_analysis.py:203-213 | One change per item, carrying that item's counts in the two periods and the trend between them. |
| WorkflowTrendsAnalysis.RecentTrend | src/callbacks/workflow_callbacks/workflow_trends_analysis.py:197-216 | None ("not enough data") with fewer than two periods. Otherwise one change per top item between the last two periods. |
| WorkflowTrendsAnalysis.LastTwoLatest | src/callbacks/workflow_callbacks/workflow_trends_analysis.py:197-200 | In an ascending list, every value other than the last two sorts before both. |
| WorkflowTrendsAnalysis.RowPeriodListed | src/callbacks/workflow_callbacks/workflow_trends_analysis.py:197 | Every row's period is among the chart's periods. |
| WorkflowTrendsAnalysis.RecentTrendPeriods | src/callbacks/workflow_callbacks/workflow_trends_analysis.py:197-213 | The two periods compared are the latest two, and every other period of the chart sorts before both. Each change is one of the top items, with its counts in those two periods. |
| WorkflowTrendsAnalysis.NoRowsRaisesAsWritten | src/callbacks/workflow_callbacks/workflow_trends_analysis.py:262-283 | As written, a filter that leaves no counted row makes the callback raise. |
| WorkflowTrendsAnalysis.EmptyTableRaisesAsWritten | src/callbacks/workflow_callbacks/workflow_trends_analysis.py:262-283 | An empty ticket table is one such input. |
| WorkflowTrendsAnalysis.ChartPanelSpec | src/callbacks/workflow_callbacks/workflow_trends_analysis.py:146-283 | The corrected panel never raises on dropdown values that are "all" or numbers. With no counted row it shows the empty chart and no trend; otherwise it shows exactly the rows of the selected items. |
| WorkflowTrendsAnalysis.TrendsPanelSpec | src/callbacks/workflow_callbacks/workflow_trends_analysis.py:254-284 | The corrected callback returns the synced dropdown values with the panel of the filtered rows. |
| WorkflowProductImpact.ImpactTableSpec | src/callbacks/workflow_callbacks/workflow_product_impact.py:116-123 | The table shows at most top_count rows, a prefix of the full ranking, in non-increasing ticket order. Each row is an occurring (Product, Feature) pair with its number of tickets, and the first row has the largest count of any pair. |
| WorkflowProductImpact.PrepareImpactSpec | src/callbacks/workflow_callbacks/workflow_product_impact.py:108-132 | An empty frame gives no summary. Otherwise the total counts every filtered row, whatever the cut. The top fields are those of the most frequent pair, or "N/A" and 0 when no row has both columns. |
| WorkflowProductImpact.PairsEmpty | src/callbacks/workflow_callbacks/workflow_product_impact.py:116-119 | No row has a pair exactly when no row has both Product and Feature, since groupby drops rows with a null key. |
| WorkflowProductImpact.ChartModal | src/callbacks/workflow_callbacks/workflow_product_impact.py:309-317 | A chart click opens a closed modal. Otherwise nothing is updated. |
| WorkflowProductImpact.ChartModalSpec | src/callbacks/workflow_callbacks/workflow_product_impact.py:309-317 | Only a chart click while the modal is closed opens it, and this callback never closes it. |
| WorkflowUserPerformance.AssigneesLength | src/callbacks/workflow_callbacks/workflow_user_performance.py:113 | The assignee column with nulls dropped has one entry per item that has an assignee. |
| WorkflowUserPerformance.TicketsHandledSpec | src/callbacks/workflow_callbacks/workflow_user_performance.py:112-115 | One row per assignee with its number of items, most tickets first. The counts add up to the number of items with an assignee. |
| WorkflowUserPerformance.NoteTaskAuthorsCount | src/callbacks/workflow_callbacks/workflow_user_performance.py:126 | A user is counted once per note or task it wrote when it is an assignee, and never otherwise. |
| WorkflowUserPerformance.NotesTasksSpec | src/callbacks/workflow_callbacks/workflow_user_performance.py:124-128 | One row for each assignee of a filtered item who wrote a note or a task, with how many they wrote, most first. Nobody else is listed. |
| WorkflowUserPerformance.UserHours | src/callbacks/workflow_callbacks/workflow_user_performance.py:118-120 | A user's average is NaN exactly when none of their items has resolution minutes. |
| WorkflowUserPerformance.AvgRows | src/callbacks/workflow_callbacks/workflow_user_performance.py:119-120 | One row per user, in order, each with that user's average. |
| WorkflowUserPerformance.SortedAvgRows | src/callbacks/workflow_callbacks/workflow_user_performance.py:121 | Sorting the per-user rows keeps one row per listed user, with its average, and no other. |
| WorkflowUserPerformance.SortedAvgRowsDistinct | src/callbacks/workflow_callbacks/workflow_user_performance.py:121 | Users listed once stay listed once after sorting. |
| WorkflowUserPerformance.AvgResolutionUsers | src/callbacks/workflow_callbacks/workflow_user_performance.py:117-122 | avg_resolution lists every assignee of the filtered items once, and nobody else, with its average. |
| WorkflowUserPerformance.AvgResolutionOrdered | src/callbacks/workflow_callbacks/workflow_user_performance.py:121 | avg_resolution is ascending in the average, with the users that have none (NaN) last. |
| WorkflowUserPerformance.HoursPresent | src/callbacks/workflow_callbacks/workflow_user_performance.py:121 | A listed row's average is among the averages present. |
| WorkflowUserPerformance.PerformerRows | src/callbacks/workflow_callbacks/workflow_user_performance.py:131-134 | The tickets frame merged with the averages: one row per assignee. |
| WorkflowUserPerformance.SortedPerformers | src/callbacks/workflow_callbacks/workflow_user_performance.py:135 | Sorting the performer rows keeps one row per listed user, with its tickets and average, and no other. |
| WorkflowUserPerformance.SortedPerformersDistinct | src/callbacks/workflow_callbacks/workflow_user_performance.py:135 | Users listed once stay listed once after sorting. |
| WorkflowUserPerformance.TopPerformersUsers | src/callbacks/workflow_callbacks/workflow_user_performance.py:130-136 | top_performers lists every assignee once, and nobody else, with its number of tickets and its average. |
| WorkflowUserPerformance.PerformerKeyOrder | src/callbacks/workflow_callbacks/workflow_user_performance.py:135 | Two rows in key order have more tickets first, or on equal tickets the smaller average with NaN last. |
| WorkflowUserPerformance.PerformerHoursPresent | src/callbacks/workflow_callbacks/workflow_user_performance.py:135 | A listed row's average is among the averages present. |
| WorkflowUserPerformance.SortedPerformerPair | src/callbacks/workflow_callbacks/workflow_user_performance.py:135 | Two rows of the sorted performer rows are in (tickets descending, average ascending) order. |
| WorkflowUserPerformance.SortedPerformersOrdered | src/callbacks/workflow_callbacks/workflow_user_performance.py:135 | Sorted by the two-column key, the rows are in (tickets descending, average ascending) order. |
| WorkflowUserPerformance.TopPerformersOrdered | src/callbacks/workflow_callbacks/workflow_user_performance.py:135-136 | top_performers is ordered by tickets descending and, among equal tickets, by average ascending with NaN last. |
| WorkflowUserPerformance.UserPerformanceSpec | src/callbacks/workflow_callbacks/workflow_user_performance.py:107-138 | An unknown chart type, and only that, gives the empty frame. Every frame names only users who are assignees of the items it was given. |
| WorkflowDataTable.Dated | src/callbacks/workflow_callbacks/workflow_data_table.py:44-57 | The CreatedOn step never adds rows. Every row it keeps carries a readable CreatedOn timestamp inside the stored range. |
| WorkflowDataTable.DatedSpec | src/callbacks/workflow_callbacks/workflow_data_table.py:44-57 | The CreatedOn step keeps, in order, exactly the rows whose date reads, whose row has the column and whose date lies in the range, each with its date replaced by the timestamp. A row is in the result exactly when it is such a row, stamped. |
| WorkflowDataTable.StepOf | src/callbacks/workflow_callbacks/workflow_data_table.py:59-78 | Every dropdown has a step in this filter's order. |
| WorkflowDataTable.GuardedMatch | src/callbacks/workflow_callbacks/workflow_data_table.py:59-78 | A row passes all ten guarded steps exactly when it is admitted. |
| WorkflowDataTable.MembershipSteps | src/callbacks/workflow_callbacks/workflow_data_table.py:59-78 | The membership steps keep, in order, exactly the rows that every dropdown whose column the frame has admits. A dropdown whose column is missing imposes nothing. |
| WorkflowDataTable.FilterFrameSpec | src/callbacks/workflow_callbacks/workflow_data_table.py:23-80 | The filter keeps the header and never adds rows. Without a CreatedOn column it keeps exactly the admitted rows, in order. With one, it keeps exactly the admitted rows among those the CreatedOn step keeps and stamps, in order, each with a timestamp inside the range. Every kept row is admitted. |
| WorkflowDataTable.DataTableFilterEdges | src/callbacks/workflow_callbacks/workflow_data_table.py:25-29 | An empty frame passes through untouched, and a missing store raises only for a non-empty frame. |
| WorkflowDataTable.LeftNames | src/callbacks/workflow_callbacks/workflow_data_table.py:137-161 | The left columns, key included, each suffixed exactly when the other table also has it. |
| WorkflowDataTable.RightNames | src/callbacks/workflow_callbacks/workflow_data_table.py:137-161 | The right columns other than the key, each suffixed exactly when the other table also has it, and nothing else. |
| WorkflowDataTable.Nulls | src/callbacks/workflow_callbacks/workflow_data_table.py:137-161 | The padding of an unmatched row: n null cells. |
| WorkflowDataTable.MergeRow | src/callbacks/workflow_callbacks/workflow_data_table.py:137-161 | One left row's part of the merge is at least one row, each starting with that left row. |
| WorkflowDataTable.MatchRows | src/callbacks/workflow_callbacks/workflow_data_table.py:137-161 | One merged row per matching right row, each starting with the left row. |
| WorkflowDataTable.MergeRows | src/callbacks/workflow_callbacks/workflow_data_table.py:137-161 | A left merge never has fewer rows than the left table. |
| WorkflowDataTable.UniqueMatch | src/callbacks/workflow_callbacks/workflow_data_table.py:137-161 | At most one right row matches a left row when the right keys are unique. |
| WorkflowDataTable.MergeKeepsLeftRows | src/callbacks/workflow_callbacks/workflow_data_table.py:137-161 | Every merged row starts with one of the left rows, and no left row is lost. |
| WorkflowDataTable.MergeOneToOne | src/callbacks/workflow_callbacks/workflow_data_table.py:137-161 | When the right keys are unique, the merge has exactly one row per left row, the i-th starting with the i-th left row. |
| WorkflowDataTable.SingleMergeRow | src/callbacks/workflow_callbacks/workflow_data_table.py:137-161 | With unique right keys, a left row has exactly one merged row. |
| WorkflowDataTable.ClashingColumnSuffixed | src/callbacks/workflow_callbacks/workflow_data_table.py:137-177 | A non-key column that both tables have survives only under its two suffixed names, so a mapping entry for its plain name selects nothing. |
| WorkflowDataTable.SuffixEnds | src/callbacks/workflow_callbacks/workflow_data_table.py:137-161 | A suffixed name ends with its suffix. |
| WorkflowDataTable.ClosedOnEntry | src/callbacks/workflow_callbacks/workflow_data_table.py:124 | Only the ClosedOn entry of the resolution mapping is renamed to Closed On. |
| WorkflowDataTable.ResolutionDetailsSpec | src/callbacks/workflow_callbacks/workflow_data_table.py:117-132 | resolution_details has one row for each filtered item with a ClosedOn, each drawn from the filtered items, and its Closed On column is never null. |
| WorkflowDataTable.DurationReportSpec | src/callbacks/workflow_callbacks/workflow_data_table.py:134-180 | A duration report is empty when either table is. Otherwise it raises exactly when a table lacks the key; when it does not, the left merge keeps every duration row, with exactly one row each when work-item ids are unique. |
| WorkflowDataTable.UnknownReportEmpty | src/callbacks/workflow_callbacks/workflow_data_table.py:199-200 | An unknown report type gives the empty frame. |
| WorkflowDataTable.ItemReportsKeepRows | src/callbacks/workflow_callbacks/workflow_data_table.py:92-197 | ticket_summary and product_impact list every filtered work item. |
| WorkflowDataTable.UpdateTable | src/callbacks/workflow_callbacks/workflow_data_table.py:212-264 | An exception shows the error text and an empty report the no-data text. Anything else shows the table and its positive record count. |
| WorkflowDataTable.Export | src/callbacks/workflow_callbacks/workflow_data_table.py:275-318 | No update without a click, when preparing the report raises, or for an empty report. Otherwise the report under its workflow_<type>_<timestamp> name. |
| WorkflowDataTable.ExportMatchesTable | src/callbacks/workflow_callbacks/workflow_data_table.py:212-288 | After a click, an export carries exactly the table the panel shows, and nothing when the panel shows none. |
| WorkflowDataTable.PdfLayoutOf | src/callbacks/workflow_callbacks/workflow_data_table.py:346-440 | Landscape exactly above six columns. At most the first hundred rows are printed, and the footer appears exactly when rows were left out. |
| TrainingFilters.SelectionLabel | src/callbacks/training_callbacks/training_filters.py:158-162 | With no active AOR selection the caption inside "All … Offices" is a single space. With one, it starts and ends with a space, at least two characters long. |
| TrainingFilters.SelectionLabelLists | src/callbacks/training_callbacks/training_filters.py:158-162 | An active caption lists the selected AORs: split at the commas, its inside gives back the selected values, for values without commas. |
| TrainingFilters.AorOptions | src/callbacks/training_callbacks/training_filters.py:102-105 | "All Aors" comes first, then one entry per AOR row with a short name, in table order, labelled "short - name". |
| TrainingFilters.AorOptionsCover | src/callbacks/training_callbacks/training_filters.py:102-105 | An AOR is offered under its short name exactly when some row carries that short name. |
| TrainingFilters.InitialFilters | src/callbacks/training_callbacks/training_filters.py:92-124 | The initial panel shows the placeholder dates with the AOR options, or with no options and "Error loading AORs" when the query fails. |
| TrainingFilters.OfficeOptions | src/callbacks/training_callbacks/training_filters.py:158-167 | Office options are the "All … Offices" entry followed by the coded offices of the selected AORs, in table order. |
| TrainingFilters.OfficeOptionsSpec | src/callbacks/training_callbacks/training_filters.py:158-167 | The offices offered are exactly the coded offices of the selected AORs, or every coded office when the AOR selection is inactive. |
| TrainingFilters.OfficesUnnarrowed | src/callbacks/training_callbacks/training_filters.py:158-163 | With no AOR selected every coded office is listed, in table order. |
| TrainingFilters.OfficePanel | src/callbacks/training_callbacks/training_filters.py:149-181 | The office panel shows the options, or an empty list and "Error loading Offices" when the query fails. |
| TrainingFilters.ReachableTopicsSpec | src/callbacks/training_callbacks/training_filters.py:220-238 | A topic id is reachable exactly when some request or attendance row of the selected AORs and offices carries it. |
| TrainingFilters.TopicOptionsSpec | src/callbacks/training_callbacks/training_filters.py:211-249 | A named topic is offered exactly when it is reachable from the selected AORs and offices, or when neither selection is active. |
| TrainingFilters.TopicPanel | src/callbacks/training_callbacks/training_filters.py:211-262 | The topic panel shows the options, or an empty list and "Error loading Topics" when a query fails. |
| TrainingFilters.InstructorOptionsSpec | src/callbacks/training_callbacks/training_filters.py:283-303 | A named instructor is offered exactly when some attendance row of the selected AORs and offices names them, or when neither selection is active. |
| TrainingFilters.InstructorsIgnoreRequests | src/callbacks/training_callbacks/training_filters.py:283-298 | The request statistics play no part in the instructor list. |
| TrainingFilters.InstructorPanel | src/callbacks/training_callbacks/training_filters.py:274-318 | The instructor panel shows the options, or an empty list and the error placeholder when a query fails. |
| TrainingFilters.LocationOptionsSpec | src/callbacks/training_callbacks/training_filters.py:358-386 | A named location is offered exactly when an attendance row passing the AOR, office, topic and instructor selections took place there, or when none of them is active. |
| TrainingFilters.LocationKept | src/callbacks/training_callbacks/training_filters.py:358-383 | A location row survives the attendance step exactly when some attendance row passing all four selections took place there. |
| TrainingFilters.LocationPanel | src/callbacks/training_callbacks/training_filters.py:349-403 | The location panel shows the options, or an empty list and the error placeholder when a query fails. |
| TrainingFilters.KeptClassesSpec | src/callbacks/training_callbacks/training_filters.py:448-474 | A class row survives exactly when it passes the topic selection and, when the attendance step applies, the AOR, instructor and location selections and has an attendance row passing all four. |
| TrainingFilters.JoinNames | src/callbacks/training_callbacks/training_filters.py:486-491 | Joining the unique names raises exactly when one of them is null, and otherwise gives them joined by ",". |
| TrainingFilters.TopicsCaption | src/callbacks/training_callbacks/training_filters.py:470-476 | With no topic selected the caption is a single space; with topics selected it starts and ends with a space. |
| TrainingFilters.TopicsCaptionNames | src/callbacks/training_callbacks/training_filters.py:470-476 | An active topics caption names exactly the topics whose id is selected. Split at the commas, its inside gives their names in table order, when there are some and none holds a comma. |
| TrainingFilters.AllClassesLabel | src/callbacks/training_callbacks/training_filters.py:478-491 | Without instructors or locations selected, the caption is "All", the topics caption and "Classes", followed by " For " and the AORs when AORs are selected. It is absent exactly when an active instructor or location selection meets a null name among the names it joins. |
| TrainingFilters.AllClassesLabelParts | src/callbacks/training_callbacks/training_filters.py:478-491 | An active instructor selection appends " By " and the instructor names to the caption without it. An active location selection appends " At " and the location names to the caption without locations. |
| TrainingFilters.ClassOptions | src/callbacks/training_callbacks/training_filters.py:493-499 | With classes left the options are the caption entry followed by the named classes; with none left the list is empty, without "All". |
| TrainingFilters.ClassOptionsSpec | src/callbacks/training_callbacks/training_filters.py:448-499 | A class is offered exactly when it is named and survives the cascade. |
| TrainingFilters.ClassCaptionTotal | src/callbacks/training_callbacks/training_filters.py:478-491 | With no instructor or location selected the caption never raises. |
| TrainingFilters.ClassPanel | src/callbacks/training_callbacks/training_filters.py:436-516 | A failed query or a raising caption gives the error panel; no class left gives "No classes available"; otherwise "Select Classes...". |
| TrainingFilters.NullInstructorNameErrors | src/callbacks/training_callbacks/training_filters.py:486-516 | A null instructor name among the selected instructor's classes makes the caption raise, and the panel shows the error. |
| TrainingFilters.ClearAllFilters | src/callbacks/training_callbacks/training_filters.py:532-543 | Clearing resets the dates to 2020-01-01 and today, and empties all six dropdowns. |
| TrainingFilters.FilterDataQuery | src/callbacks/training_callbacks/training_filters.py:558-575 | The store holds the two dates, defaulted to 2020-01-01 and today when missing, and each selection as a ", "-joined quoted list, or "" when inactive. |
| TrainingFilters.FilterDataQueryEntries | src/callbacks/training_callbacks/training_filters.py:566-571 | Each dropdown is written under its own key: its quoted list when active, "" otherwise. |
| TrainingFilters.ClearedStore | src/callbacks/training_callbacks/training_filters.py:532-575 | After clearing, the store holds the default range and no selection text. |
| TrainingDataTable.OfficeAors | src/callbacks/training_callbacks/training_data_table.py:206-210 | The AORs of the selected offices are derived only when offices are selected and the mapping is not empty. |
| TrainingDataTable.OfficeAorsSpec | src/callbacks/training_callbacks/training_data_table.py:207-210 | An AOR is derived exactly when some mapping row of a selected office carries it. |
| TrainingDataTable.FilterMembersSpec | src/callbacks/training_callbacks/training_data_table.py:212-222 | The member steps keep, in order, exactly the rows whose AOR is selected, whose AOR is one of the derived AORs, and whose office is selected, each test only when its list is non-empty. |
| TrainingDataTable.ListSteps | src/callbacks/training_callbacks/training_data_table.py:249-254 | The AOR, derived-AOR and instructor steps on attendance are one filter by their conjunction. |
| TrainingDataTable.DatedSpec | src/callbacks/training_callbacks/training_data_table.py:228-247 | Dropping the unparsable start times and then applying the window is one filter. |
| TrainingDataTable.FilterAttendanceSpec | src/callbacks/training_callbacks/training_data_table.py:224-255 | The attendance steps keep, in order, exactly the rows whose start time parses and lies in the stored window (when the frame has StartTime) and that pass the AOR, derived-AOR and instructor lists. |
| TrainingDataTable.FilterOffices | src/callbacks/training_callbacks/training_data_table.py:257-263 | The office-participation table is unchanged when empty, and otherwise narrowed by the AOR and the derived-AOR lists. |
| TrainingDataTable.ApplyFiltersSpec | src/callbacks/training_callbacks/training_data_table.py:174-268 | Under either list reader, every filtered table keeps its header and is the rows of its base table that pass its tests, in order; the instructor table is never narrowed. |
| TrainingDataTable.MembersWithoutLists | src/callbacks/training_callbacks/training_data_table.py:212-222 | No lists and no derived AORs leave the member table whole. |
| TrainingDataTable.OfficesWithoutLists | src/callbacks/training_callbacks/training_data_table.py:257-263 | No lists and no derived AORs leave the office table whole. |
| TrainingDataTable.NoListsKeepMembers | src/callbacks/training_callbacks/training_data_table.py:174-268 | Under either reader, with no lists in the store, the member and office tables come through whole. |
| TrainingDataTable.MissingStoreReadsEmpty | src/callbacks/training_callbacks/training_data_table.py:178-179 | Under either reader, a missing store reads as no tokens and no date window. |
| TrainingDataTable.KeptSessionsInWindow | src/callbacks/training_callbacks/training_data_table.py:228-247 | A kept attendance row parsed to a time between the two stored days, and at midnight if on the last one. |
| TrainingDataTable.Fallback | src/callbacks/training_callbacks/training_data_table.py:368-372 | The instructor fallback takes the first ten columns, each renamed through the instructor mapping. |
| TrainingDataTable.ReportEmptyIff | src/callbacks/training_callbacks/training_data_table.py:272-456 | A report is non-empty exactly when its source table is non-empty and has a required column; the instructor report needs only a non-empty source. |
| TrainingDataTable.ReportColumns | src/callbacks/training_callbacks/training_data_table.py:283-422 | A report has one row per source row and the present required columns in report order under their display names, each carrying its source column's cells. |
| TrainingDataTable.InstructorFallback | src/callbacks/training_callbacks/training_data_table.py:353-374 | An instructor table with none of the required columns gives its first ten columns, renamed where the mapping names them, one row per source row. |
| TrainingDataTable.PrepareReportEdges | src/callbacks/training_callbacks/training_data_table.py:277-280 | An unknown report type, or a known one whose source is empty, gives the empty frame. |
| TrainingDataTable.UpdateTable | src/callbacks/training_callbacks/training_data_table.py:466-570 | An empty report shows the "No data available" message, and any other report is shown paged by the page size. |
| TrainingDataTable.UpdateTableShowsReport | src/callbacks/training_callbacks/training_data_table.py:482-530 | The table appears exactly when the report has rows and columns, and it shows that report. |
| TrainingDataTable.Export | src/callbacks/training_callbacks/training_data_table.py:583-660 | No click or an empty report gives no update; otherwise the report is sent under a file name naming its type. |
| TrainingDataTable.ExportMatchesTable | src/callbacks/training_callbacks/training_data_table.py:583-612 | An export carries exactly the report the table shows. |
| TrainingDataTable.PdfLayoutOf | src/callbacks/training_callbacks/training_data_table.py:1009-1019 | The PDF is landscape above six columns, holds at most the first hundred rows, and has the footer exactly when rows were left out. |
| TrainingData.QuoteTokens | src/callbacks/training_callbacks/training_data_table.py:192-199 | The quote-only parser (split on ",", strip quote characters, drop empties) never yields an empty token. |
| TrainingData.CleanTokens | src/callbacks/training_callbacks/training_engaged_members.py:126-128 | The whitespace-and-quote parser never yields an empty token. |
| TrainingData.ReadTokens | src/callbacks/training_callbacks/training_data_table.py:192-199 | Under either reader, quote-only as the chart panels read or trimming as the engaged-members panel reads, no token is empty. |
| TrainingData.CleanRoundTrip | src/callbacks/training_callbacks/training_filters.py:558-575 | What the panel writes for an active selection of plain items, the whitespace-stripping parser reads back item for item. |
| TrainingData.SplitSpacedItems | src/callbacks/training_callbacks/training_filters.py:562-568 | Splitting the ", "-joined list of comma-free items on "," gives the items, each after the first led by one space. |
| TrainingData.QuoteTokensKeepSpace | src/callbacks/training_callbacks/training_data_table.py:192-199 | The quote-only parser keeps, on every item after the first, the leading space and that item's opening quote. |
| TrainingData.LaterSelectionsNeverMatch | src/callbacks/training_callbacks/training_data_table.py:192-199 | In a multi-selection read by the quote-only parser, every item after the first matches no plain cell value. |
| TrainingData.TwoOfficesAsWritten | src/callbacks/training_callbacks/training_data_table.py:195-196 | Selecting offices "A" and "B" reads back as "A" and " 'B". |
| TrainingData.PanelListsRoundTrip | src/callbacks/training_callbacks/training_filters.py:558-575 | A stored selection of two or more plain offices reads back as itself under the trimming reader, while the quote-only reader the chart panels use reads back a different list. |
| TrainingData.ReadersOnList | src/callbacks/training_callbacks/training_filters.py:558-575 | A list of two or more plain items, as the filter panel writes it, reads back as itself under the trimming reader and as a different list under the quote-only reader. |
| TrainingData.EmptyTextNoTokens | src/callbacks/training_callbacks/training_data_table.py:192-199 | An absent or empty store entry reads as no tokens, under either parser. |
| TrainingData.NoStoreNoLists | src/callbacks/training_callbacks/training_gap_analysis.py:163-175 | A store without entries reads as five empty lists, under either reader. |
| TrainingData.AorIdLookup | src/callbacks/training_callbacks/training_gap_analysis.py:211 | The AOR-to-id dictionary misses exactly the AORs no mapping row names, and otherwise gives the id of such a row. |
| TrainingData.AorIds | src/callbacks/training_callbacks/training_gap_analysis.py:212 | The ids kept are exactly the truthy ids of the selected AORs. |
| TrainingData.OfficeAors | src/callbacks/training_callbacks/training_data_table.py:207-210 | The AORs of the selected offices, each once: exactly the AORs of the mapping rows whose office is selected. |
| TrainingData.NarrowTopicsByAor | src/callbacks/training_callbacks/training_gap_analysis.py:209-214 | With no selected AOR mapping to a truthy id the topic assignments are unchanged; otherwise exactly the assignments whose AorId is one of those ids are kept. |
| TrainingData.ClassIdsOf | src/callbacks/training_callbacks/training_gap_analysis.py:228 | The class ids of the assignments, each once. |
| TrainingData.StoredWindow | src/callbacks/training_callbacks/training_data_table.py:202-237 | A date window exists exactly when both Day_From and Day_To are stored, and it holds those two days. |
| TrainingData.InWindowDays | src/callbacks/training_callbacks/training_data_table.py:237-244 | A start time is inside the window exactly when its day lies between the two stored days and, on the last day, it is midnight: the end bound is the midnight opening the end day. |
| TrainingData.Parsed | src/callbacks/training_callbacks/training_data_table.py:231-235 | The rows kept are exactly those whose start time parses, in order, each carrying its parsed time. |
| TrainingData.MonthOf | src/callbacks/training_callbacks/training_data_table.py:165 | `%b` reads an English month abbreviation in any letter case, and only those. |
| TrainingData.DayOf | src/callbacks/training_callbacks/training_data_table.py:165 | `%d` reads one digit from 1 to 9 or two digits from 01 to 31. |
| TrainingData.HourOf | src/callbacks/training_callbacks/training_data_table.py:165 | `%I` reads one digit from 1 to 9 or two digits from 01 to 12. |
| TrainingData.Hour24 | src/callbacks/training_callbacks/training_data_table.py:165 | `%I %p` gives a 24-hour clock: 12 AM is midnight and 12 PM is noon. |
| TrainingData.Strptime | src/callbacks/training_callbacks/training_data_table.py:165 | The format matches field by field: a four-digit year, an existing day of that month, and an hour with an AM/PM marker. |
| TrainingData.ParseCustomDatetime | src/callbacks/training_callbacks/training_data_table.py:147-171 | A null or empty cell gives None; "Mon-DD-YY@H AM/PM" is read with a two-digit year as 20YY; a text without "@", or whose date part is not three "-" pieces, goes to the generic parser; a failure gives None. |
| TrainingData.ParseAtForm | src/callbacks/training_callbacks/training_data_table.py:156-165 | The "@" text must have exactly two sides, else the unpacking fails and the result is None. |
| TrainingData.ParseFields | src/callbacks/training_callbacks/training_data_table.py:160-161 | A two-character year is prefixed with "20" before it is read as a number. |
| TrainingData.CenturyYear | src/callbacks/training_callbacks/training_data_table.py:161 | A two-digit year field is read as 20YY. |
| TrainingData.HourRead | src/callbacks/training_callbacks/training_data_table.py:165 | An hour written on the twelve-hour clock is read back. |
| TrainingData.Hour12Back | src/callbacks/training_callbacks/training_data_table.py:165 | The twelve-hour reading and its marker give the hour of the day back. |
| TrainingData.ShortYearRead | src/callbacks/training_callbacks/training_data_table.py:161 | A two-digit year is read in the 2000s whatever the other fields hold. |
| TrainingData.StrptimeFields | src/callbacks/training_callbacks/training_data_table.py:165 | Fields that each read as intended assemble into that moment. |
| TrainingData.CustomRoundTrip | src/callbacks/training_callbacks/training_data_table.py:147-171 | The custom text of a start time on the hour in 2000-2099 parses back to that time, whatever the generic parser would do. |
| TrainingData.PiecesRead | src/callbacks/training_callbacks/training_data_table.py:156-164 | Each piece of the custom text of a time reads back as the parser expects. |
| TrainingData.CustomTextSplit | src/callbacks/training_callbacks/training_data_table.py:157 | "@" splits the custom text into its date side and its clock side. |
| TrainingData.DateTextSplit | src/callbacks/training_callbacks/training_data_table.py:158 | "-" splits the date side into month, day and year. |
| TrainingData.ParseChain | src/callbacks/training_callbacks/training_data_table.py:156-165 | On a text whose pieces each read as intended, the parser assembles exactly those fields. |
| TrainingData.TimeLabelOrder | src/callbacks/training_callbacks/training_office_engagement.py:237-247 | For representable start times, two time labels are equal exactly for one period and compare as strings in calendar order, so sorting by label is sorting by time. |
| TrainingGapAnalysis.TopicStepSpec | src/callbacks/training_callbacks/training_gap_analysis.py:224-231 | An attendance row survives the topic step exactly when some assignment of a selected topic names its class; the assignments kept are exactly those of a selected topic. |
| TrainingGapAnalysis.KeptRows | src/callbacks/training_callbacks/training_gap_analysis.py:146-249 | Under either list reader, a row is returned exactly when it comes from the query, its start time parses and lies in the stored window, and it meets the AOR, office, topic, instructor and location selections. The topic test applies only when topics are selected and assignments are left after the AOR step. |
| TrainingGapAnalysis.KeptRowsHaveTopic | src/callbacks/training_callbacks/training_gap_analysis.py:225-230 | Under either reader, with topics selected and assignments left after the AOR step, every returned row belongs to a class that some queried assignment of a selected topic names. |
| TrainingGapAnalysis.TopicsLeftWithin | src/callbacks/training_callbacks/training_gap_analysis.py:206-214 | The assignments the topic step reads are all assignments the query returned. |
| TrainingGapAnalysis.AorStepTopicsWithin | src/callbacks/training_callbacks/training_gap_analysis.py:206-214 | The AOR step keeps only topic assignments it was given. |
| TrainingGapAnalysis.UnmappedAorsKeepTopics | src/callbacks/training_callbacks/training_gap_analysis.py:211-214 | When no selected AOR maps to a truthy AorID, the assignments are left whole. |
| TrainingGapAnalysis.LevelOf | src/callbacks/training_callbacks/training_gap_analysis.py:275-353 | The five `analysis_level` branches, each exactly for its own value; any other value groups as the class level. |
| TrainingGapAnalysis.TopicEntries | src/callbacks/training_callbacks/training_gap_analysis.py:267-272 | The left merge on TrainingClassId gives a row at most one entry per assignment, each carrying that row. |
| TrainingGapAnalysis.EntriesAtMostRows | src/callbacks/training_callbacks/training_gap_analysis.py:275-353 | Every grouping but the topic merge gives each row at most one entry. |
| TrainingGapAnalysis.PresentWithinRegistered | src/callbacks/training_callbacks/training_gap_analysis.py:277-280 | No key counts more attendances (`WasPresent == 'True'`) than registrations (`AttendanceID` count). |
| TrainingGapAnalysis.AbsentKeyCountsNothing | src/callbacks/training_callbacks/training_gap_analysis.py:277-280 | A key no entry carries counts no registration and no attendance. |
| TrainingGapAnalysis.Categories | src/callbacks/training_callbacks/training_gap_analysis.py:277-285 | The groupby gives one category per distinct key: keys pairwise distinct, every entry's key present, every category's key carried by an entry, each with that key's two counts. |
| TrainingGapAnalysis.KeysOfEntries | src/callbacks/training_callbacks/training_gap_analysis.py:277-280 | The distinct keys are exactly the keys the entries carry. |
| TrainingGapAnalysis.AttendanceRate | src/callbacks/training_callbacks/training_gap_analysis.py:357 | The attendance rate is infinite exactly when attendances exist without registrations, never negative, and at most 100 when attendances do not exceed registrations. |
| TrainingGapAnalysis.GapPercent | src/callbacks/training_callbacks/training_gap_analysis.py:356-358 | The gap is minus infinity exactly when attendances exist without registrations, at most 100, and at least 0 when attendances do not exceed registrations. |
| TrainingGapAnalysis.RatesComplement | src/callbacks/training_callbacks/training_gap_analysis.py:356-358 | With registrations, the gap and the attendance rate add up to 100. |
| TrainingGapAnalysis.ModeOf | src/callbacks/training_callbacks/training_gap_analysis.py:364-373 | Each `sort_by` branch is taken exactly for its own value; any other value sorts by gap, largest first. |
| TrainingGapAnalysis.OrderTotal | src/callbacks/training_callbacks/training_gap_analysis.py:364-373 | Every sort order is a total preorder. |
| TrainingGapAnalysis.SortCategories | src/callbacks/training_callbacks/training_gap_analysis.py:364-373 | The sort returns a permutation of the categories ordered by the mode's column. |
| TrainingGapAnalysis.PrepareGapSorts | src/callbacks/training_callbacks/training_gap_analysis.py:252-376 | The prepared table is the grouped table permuted into the order `sort_by` asks for. |
| TrainingGapAnalysis.NoShowsNonNegative | src/callbacks/training_callbacks/training_gap_analysis.py:356 | NoShows is never negative in any category. |
| TrainingGapAnalysis.TopicFallsBackToClass | src/callbacks/training_callbacks/training_gap_analysis.py:298-308 | The topic level without assignments groups exactly as the class level. |
| TrainingGapAnalysis.UnknownLevelIsClass | src/callbacks/training_callbacks/training_gap_analysis.py:343-353 | An unknown level groups exactly as the class level. |
| TrainingGapAnalysis.PreparedFromGrouped | src/callbacks/training_callbacks/training_gap_analysis.py:363-376 | Sorting only reorders: every prepared category is one of the grouped ones. |
| TrainingGapAnalysis.CategoryNamesFromRows | src/callbacks/training_callbacks/training_gap_analysis.py:310-319 | At the instructor level every category name is the instructor name of some kept row. |
| TrainingGapAnalysis.ComparisonChart | src/callbacks/training_callbacks/training_gap_analysis.py:385-493 | No chart exactly for an empty table; otherwise the first 15 categories as three equally long bar series, names and counts taken from the categories in order, no-shows being registrations minus attendances. |
| TrainingGapAnalysis.OverallRate | src/callbacks/training_callbacks/training_gap_analysis.py:523-531 | The overall rate is never negative and is 0 without registrations. |
| TrainingGapAnalysis.ScaledAtLeast | src/callbacks/training_callbacks/training_gap_analysis.py:531-537 | Comparing `attendances / registrations * 100` with a threshold is comparing `100 * attendances` with `threshold * registrations`. |
| TrainingGapAnalysis.GaugeThresholds | src/callbacks/training_callbacks/training_gap_analysis.py:534-539 | Green from 85 %, orange from 70 %, red below, and red with no registrations, stated on the integer totals. |
| TrainingGapAnalysis.FirstMaxAt | src/callbacks/training_callbacks/training_gap_analysis.py:649 | `idxmax`: an index of the largest rate, and no earlier index holds one as large. |
| TrainingGapAnalysis.HighestGapAsWritten | src/callbacks/training_callbacks/training_gap_analysis.py:621-624 | As written, the "Highest Gap" row is the first row of the table, whatever its order. |
| TrainingGapAnalysis.HighestGapRow | src/callbacks/training_callbacks/training_gap_analysis.py:621-637 | The "Highest Gap" row is a category whose gap no other category exceeds. |
| TrainingGapAnalysis.HighestGapAgreesWhenGapDescending | src/callbacks/training_callbacks/training_gap_analysis.py:619-624 | Sorted by gap largest first, the first row is the highest gap, so the reading as written is right there. |
| TrainingGapAnalysis.HighestGapAsWrittenMisses | src/callbacks/training_callbacks/training_gap_analysis.py:619-624 | Sorted by gap smallest first, the row read as written has the smallest gap, so it is not the highest as soon as two gaps differ. |
| TrainingGapAnalysis.BestRow | src/callbacks/training_callbacks/training_gap_analysis.py:649-651 | The best performer is a category whose attendance rate no other category exceeds. |
| TrainingGapAnalysis.EntityWord | src/callbacks/training_callbacks/training_gap_analysis.py:626-633 | The lower-cased level label is the level itself for the five known levels. |
| TrainingGapAnalysis.GapInsights | src/callbacks/training_callbacks/training_gap_analysis.py:596-670 | The intended insights: none exactly for an empty table, otherwise exactly three. |
| TrainingGapAnalysis.GapInsightsAsWritten | src/callbacks/training_callbacks/training_gap_analysis.py:596-670 | As written: none exactly for an empty table, otherwise three, the second naming the first row of the sorted table as the highest gap, with that row's gap. |
| TrainingGapAnalysis.GapInsightsAgree | src/callbacks/training_callbacks/training_gap_analysis.py:616-656 | The insights as written and the intended ones exist together and share their first and third items. On a table sorted by gap, largest first, they are equal. |
| TrainingGapAnalysis.InsightsContent | src/callbacks/training_callbacks/training_gap_analysis.py:616-656 | The intended insights name a category whose gap no other category exceeds. The third item is the excellence count, out of all categories, exactly when there are several categories and one is at 90 % or more. Otherwise, with several categories, it names a best performer whose rate no category exceeds; with one category it gives the average gap. |
| TrainingGapAnalysis.UpdateGapConsistent | src/callbacks/training_callbacks/training_gap_analysis.py:687-711 | The callback as written, with the quote-only reader and the first-row highest gap: the chart, the gauge and the insights agree on whether there is data, and with none the gauge reads 0 in red. Its chart and gauge equal those of the intended callback, and on a table sorted by gap, largest first, so do its insights. |
| TrainingGapAnalysis.UpdateGapIntendedConsistent | src/callbacks/training_callbacks/training_gap_analysis.py:687-711 | The intended callback, under either reader: the chart and the insights agree on whether there is data, and with none the gauge reads 0 in red. |
| TrainingSessionScheduling.TopicStepSpec | src/callbacks/training_callbacks/training_session_scheduling.py:210-215 | A class survives the topic step exactly when some assignment of a selected topic names it; the assignments kept are exactly those of a selected topic. |
| TrainingSessionScheduling.KeptSessions | src/callbacks/training_callbacks/training_session_scheduling.py:132-235 | Under either list reader, a class is returned exactly when it comes from the query, its start time parses and lies in the stored window, and it meets the AOR, office, topic, instructor and location selections. The topic test applies only when topics are selected and assignments are left after the AOR step. |
| TrainingSessionScheduling.AorStepTopicsWithin | src/callbacks/training_callbacks/training_session_scheduling.py:191-199 | The AOR step keeps only assignments it was given. |
| TrainingSessionScheduling.KeptSessionsHaveTopic | src/callbacks/training_callbacks/training_session_scheduling.py:210-215 | Under either reader, with topics selected and assignments left after the AOR step, every returned class is named by some queried assignment of a selected topic. |
| TrainingSessionScheduling.TopicsLeftWithin | src/callbacks/training_callbacks/training_session_scheduling.py:191-199 | The assignments the topic step reads are all assignments the query returned. |
| TrainingSessionScheduling.KeptTopics | src/callbacks/training_callbacks/training_session_scheduling.py:191-223 | Under either reader, an assignment is returned exactly when the AOR step leaves it, the topic selection names its topic (when topics are selected and assignments are left), and an instructor selection names its instructor. Every returned assignment comes from the query. |
| TrainingSessionScheduling.TrendOf | src/callbacks/training_callbacks/training_session_scheduling.py:269-314 | Each `trend_type` branch is taken for its own value; "by_topic" without assignments, "all" and any unknown value fall back to one group of all sessions. |
| TrainingSessionScheduling.TopicTags | src/callbacks/training_callbacks/training_session_scheduling.py:285-294 | The left merge tags a class with its own period and id, under exactly the topic names its assignments carry; an unmatched class or a null name gets no tag. |
| TrainingSessionScheduling.Tags | src/callbacks/training_callbacks/training_session_scheduling.py:256-314 | A (period, group, class) tag is produced exactly when the trend counts that class under that group in that period. |
| TrainingSessionScheduling.TagsMeaning | src/callbacks/training_callbacks/training_session_scheduling.py:256-314 | Every trend labels a class with its period; all sessions share one group, an AOR trend uses the class's AOR, an instructor trend its instructor, a topic trend each assigned topic name. |
| TrainingSessionScheduling.ClassesAt | src/callbacks/training_callbacks/training_session_scheduling.py:271-279 | The class ids of one cell are distinct and are exactly those tagged with that period and group. |
| TrainingSessionScheduling.SessionCountIsDistinctClasses | src/callbacks/training_callbacks/training_session_scheduling.py:271-317 | SessionCount is `nunique`: a class tagged twice in one cell counts once. |
| TrainingSessionScheduling.Periods | src/callbacks/training_callbacks/training_session_scheduling.py:271 | The periods present, strictly ascending, and exactly those some tag carries. |
| TrainingSessionScheduling.GroupsAt | src/callbacks/training_callbacks/training_session_scheduling.py:278 | The groups present in one period, strictly ascending, and exactly those some tag of that period carries. |
| TrainingSessionScheduling.PointsAt | src/callbacks/training_callbacks/training_session_scheduling.py:278-280 | One row per group of a period, in the groups' order, each counting its cell's distinct classes. |
| TrainingSessionScheduling.PointsAtAscending | src/callbacks/training_callbacks/training_session_scheduling.py:278-280 | Within one period, rows follow their ascending groups. |
| TrainingSessionScheduling.PointsOver | src/callbacks/training_callbacks/training_session_scheduling.py:278-280 | Rows over ascending periods are in ascending (period, group) order and carry only those periods. |
| TrainingSessionScheduling.PointsOverOccupied | src/callbacks/training_callbacks/training_session_scheduling.py:278-280 | Every row names a group present in its period and counts that cell's classes. |
| TrainingSessionScheduling.PointsSpec | src/callbacks/training_callbacks/training_session_scheduling.py:269-317 | The series has one row per (period, group) holding a class, in ascending (period, group) order, and each row counts the distinct classes of its cell, at least one. |
| TrainingSessionScheduling.PrepareSpec | src/callbacks/training_callbacks/training_session_scheduling.py:238-325 | Read off the narrowed classes: rows in ascending (period, group) order, each counting the distinct classes of that period under that group, and every tagged cell has its row. |
| TrainingSessionScheduling.FallbackIsAllSessions | src/callbacks/training_callbacks/training_session_scheduling.py:269-314 | An unknown trend type, "all", and "by_topic" without assignments all give the single "All Sessions" group. |
| TrainingSessionScheduling.PeriodLeTotal | src/callbacks/training_callbacks/training_session_scheduling.py:387 | Ordering rows by their period is a total preorder. |
| TrainingSessionScheduling.LineRows | src/callbacks/training_callbacks/training_session_scheduling.py:387 | A line's rows are a permutation of the group's rows, sorted by period. |
| TrainingSessionScheduling.LinePeriodsAscending | src/callbacks/training_callbacks/training_session_scheduling.py:386-399 | Along a line the periods never decrease. |
| TrainingSessionScheduling.LineHoldsGroupRows | src/callbacks/training_callbacks/training_session_scheduling.py:387-393 | A line holds exactly its group's rows: as many, each one a row of that group. |
| TrainingSessionScheduling.TrendChartOf | src/callbacks/training_callbacks/training_session_scheduling.py:339-414 | No chart exactly for an empty series; otherwise the title of the trend type and a dashed average line exactly when there are two rows or more. |
| TrainingSessionScheduling.ChartLines | src/callbacks/training_callbacks/training_session_scheduling.py:382-399 | Each group present gets exactly one line, and each line is its group's rows sorted by period. |
| TrainingSessionScheduling.PeriodsOf | src/callbacks/training_callbacks/training_session_scheduling.py:491-527 | The distinct periods of the series, strictly ascending, exactly those of its rows. |
| TrainingSessionScheduling.GroupKeys | src/callbacks/training_callbacks/training_session_scheduling.py:495 | The distinct group names, strictly ascending, exactly those of the rows. |
| TrainingSessionScheduling.FirstMaxAt | src/callbacks/training_callbacks/training_session_scheduling.py:496-499 | An index of the largest total, with no earlier index as large. |
| TrainingSessionScheduling.TopGroup | src/callbacks/training_callbacks/training_session_scheduling.py:495-501 | The top group is a group of the series whose total no other group exceeds. |
| TrainingSessionScheduling.TopGroupIsLargest | src/callbacks/training_callbacks/training_session_scheduling.py:495-501 | No group's total exceeds the top group's. |
| TrainingSessionScheduling.SchedulingInsights | src/callbacks/training_callbacks/training_session_scheduling.py:481-550 | No insights exactly for an empty series; otherwise two or three. |
| TrainingSessionScheduling.RecentRowsAtLeastTwo | src/callbacks/training_callbacks/training_session_scheduling.py:525-530 | With two periods or more there are always two recent rows, so the `len(recent_data) >= 2` guard never suppresses the trend insight. |
| TrainingSessionScheduling.DirectionCross | src/callbacks/training_callbacks/training_session_scheduling.py:531-539 | Without division: the trend is upward exactly when 10·recent sessions·rows > 11·sessions·recent rows, downward exactly when 10·recent sessions·rows < 9·sessions·recent rows. |
| TrainingSessionScheduling.FirstInsightContent | src/callbacks/training_callbacks/training_session_scheduling.py:494-522 | For every trend type but "all" the first insight names a group whose total no other group exceeds; for "all" it gives the total and the number of periods. |
| TrainingSessionScheduling.InsightsContent | src/callbacks/training_callbacks/training_session_scheduling.py:513-539 | Two insights come first, and the recent-trend insight is added exactly when there are two periods or more. |
| TrainingSessionScheduling.RecentTrendThresholds | src/callbacks/training_callbacks/training_session_scheduling.py:525-539 | With two periods or more the recent rows are compared with all rows: upward above 110 %, downward below 90 %, stable otherwise. |
| TrainingSessionScheduling.UpdateSchedulingConsistent | src/callbacks/training_callbacks/training_session_scheduling.py:566-589 | The callback as written, with the quote-only reader: the chart and the insights agree on whether there is data, and with no class left neither has any. |
| TrainingInstructorPerformance.InstructorsKept | src/callbacks/training_callbacks/training_instructor_performance.py:253-256 | Under either list reader, an instructor row is kept exactly when it comes from the query and, with instructors selected, the text of its id is one of them. |
| TrainingInstructorPerformance.AttendanceKept | src/callbacks/training_callbacks/training_instructor_performance.py:152-271 | Under either list reader, an attendance row is kept exactly when it comes from the query, its start time parses and lies in the stored window, and it meets the AOR, office (through the AOR mapping), instructor and location selections. |
| TrainingInstructorPerformance.ClassesKept | src/callbacks/training_callbacks/training_instructor_performance.py:212-268 | Under either list reader, a class row is kept under exactly the same conditions as an attendance row. |
| TrainingInstructorPerformance.UnmappedOfficesIgnored | src/callbacks/training_callbacks/training_instructor_performance.py:243-249 | Under either reader, when the selected offices map to no AOR the office selection has no effect: the result is that of the same store with no offices. |
| TrainingInstructorPerformance.OfficeEntryOnly | src/callbacks/training_callbacks/training_instructor_performance.py:171-172 | Rewriting the Offices entry of the store changes only the office list, which becomes that text read by the same reader; the other four lists stay as they were. |
| TrainingInstructorPerformance.NoStoreNoSelections | src/callbacks/training_callbacks/training_instructor_performance.py:156-157 | With no store, under either reader, every list is empty and there is no date window, so nothing but the parse of the start times narrows the rows. |
| TrainingInstructorPerformance.NoAttendanceRaisesAsWritten | src/callbacks/training_callbacks/training_instructor_performance.py:184-230 | With no attendance rows and a class whose start time parses, the filters as written raise under either reader, while the corrected filters keep that class. |
| TrainingInstructorPerformance.CalculatedRate | src/callbacks/training_callbacks/training_instructor_performance.py:306-324 | The calculated attendance rate is never negative, and at most 100 when present rows do not outnumber registrations. |
| TrainingInstructorPerformance.Sizes | src/callbacks/training_callbacks/training_instructor_performance.py:327-329 | One size per distinct class of the instructor, in class order, each the number of distinct members of that class. |
| TrainingInstructorPerformance.SizeOfClassWithin | src/callbacks/training_callbacks/training_instructor_performance.py:306-329 | A class holds no more distinct members than the instructor teaches overall. |
| TrainingInstructorPerformance.MeanClassSize | src/callbacks/training_callbacks/training_instructor_performance.py:327-335 | The average class size, the mean of the distinct classes' sizes, lies between 0 and the number of distinct members the instructor teaches. |
| TrainingInstructorPerformance.Earliest | src/callbacks/training_callbacks/training_instructor_performance.py:345-348 | The first session is the instant of one of the sessions, and no session is earlier. |
| TrainingInstructorPerformance.Latest | src/callbacks/training_callbacks/training_instructor_performance.py:345-348 | The last session is the instant of one of the sessions, and no session is later. |
| TrainingInstructorPerformance.MonthsActive | src/callbacks/training_callbacks/training_instructor_performance.py:353-355 | Months active is at least one, and exactly one when the span is at most 30 days. |
| TrainingInstructorPerformance.PerMonthWithin | src/callbacks/training_callbacks/training_instructor_performance.py:357-359 | Spreading a count over at least one month gives at most the count, and exactly the count over one month. |
| TrainingInstructorPerformance.SessionsPerMonth | src/callbacks/training_callbacks/training_instructor_performance.py:341-359 | Sessions per month never exceeds the distinct classes, and equals them when every session falls within 30 days. |
| TrainingInstructorPerformance.Pairs | src/callbacks/training_callbacks/training_instructor_performance.py:296-301 | Each (id, name) pair of the attendance appears exactly once. |
| TrainingInstructorPerformance.KnownMeasure | src/callbacks/training_callbacks/training_instructor_performance.py:378-397 | Each metric key names its own measure, exactly for its own value. |
| TrainingInstructorPerformance.MeasureOf | src/callbacks/training_callbacks/training_instructor_performance.py:378-400 | Each known key ranks by its own column and any other key by the attendance rate. |
| TrainingInstructorPerformance.RosterOf | src/callbacks/training_callbacks/training_instructor_performance.py:287-301 | One row per instructor of the table or, without the table, one per id and name attending, each carrying its instructor's name. |
| TrainingInstructorPerformance.PrepareSpec | src/callbacks/training_callbacks/training_instructor_performance.py:279-410 | The prepared rows are the roster, each valued by the selected Final column, ordered from highest to lowest value; the frame is empty exactly when both the table and the attendance are. |
| TrainingInstructorPerformance.PreparedValues | src/callbacks/training_callbacks/training_instructor_performance.py:369-400 | Each prepared row's value is the one Final column the metric key selects. |
| TrainingInstructorPerformance.PrepareAsWrittenDropsRows | src/callbacks/training_callbacks/training_instructor_performance.py:304-373 | With instructor rows but no attendance left, the preparation as written returns an empty frame while the corrected one ranks every instructor. |
| TrainingInstructorPerformance.ChartDraws | src/callbacks/training_callbacks/training_instructor_performance.py:419-557 | A figure exactly when there are rows, titled by the metric; a trace draws the first twenty rows in order, and no trace draws nothing. |
| TrainingInstructorPerformance.ChartDrawsTop | src/callbacks/training_callbacks/training_instructor_performance.py:407-454 | On ranked rows every drawn value is at least every value left out. |
| TrainingInstructorPerformance.ChartAverage | src/callbacks/training_callbacks/training_instructor_performance.py:518-530 | Bar charts of more than one instructor carry the average line, and on ranked rows it lies between the lowest and the highest bar drawn. |
| TrainingInstructorPerformance.CountWhere | src/callbacks/training_callbacks/training_instructor_performance.py:612-675 | The number of values meeting a test never exceeds the number of values. |
| TrainingInstructorPerformance.Ascending | src/callbacks/training_callbacks/training_instructor_performance.py:619-674 | The values in ascending order, a permutation of the input. |
| TrainingInstructorPerformance.QuantilePosition | src/callbacks/training_callbacks/training_instructor_performance.py:619 | The linear-interpolation position of a quantile lies within the sorted values, its fraction in [0, 1). |
| TrainingInstructorPerformance.QuantileBelowSorted | src/callbacks/training_callbacks/training_instructor_performance.py:619 | A quantile is at most one of the sorted values. |
| TrainingInstructorPerformance.QuantileReached | src/callbacks/training_callbacks/training_instructor_performance.py:619-675 | Some value reaches any quantile, so the count of values at or above it is never zero. |
| TrainingInstructorPerformance.MetricInsightsSound | src/callbacks/training_callbacks/training_instructor_performance.py:610-686 | Every metric branch adds exactly two insights, and every count they quote is between 0 and the number of instructors. |
| TrainingInstructorPerformance.InsightsSpec | src/callbacks/training_callbacks/training_instructor_performance.py:583-701 | On ranked rows there are exactly three insights, the first naming the first row, whose value no instructor exceeds. |
| TrainingInstructorPerformance.UpdatePanelConsistent | src/callbacks/training_callbacks/training_instructor_performance.py:717-745 | The callback as written, with the quote-only reader, the raising filters and the preparation as written, shows the error chart exactly when the query returned classes but no attendance. Otherwise its chart and insights are empty together, and a drawn chart's first bar is the instructor the first insight names, at the value it quotes. The panel is empty whenever no attendance or no class row survives the filters. |
| TrainingInstructorPerformance.PreparedAsWrittenConsistent | src/callbacks/training_callbacks/training_instructor_performance.py:304-373 | The panel drawn from the preparation as written has agreeing chart and insights, and is empty without attendance or without classes. |
| TrainingInstructorPerformance.UpdatePanelAgrees | src/callbacks/training_callbacks/training_instructor_performance.py:717-745 | When attendance and classes both survive the quote-only filters, the callback as written shows exactly what the intended callback shows for that reader. |
| TrainingInstructorPerformance.UpdatePanelIntendedConsistent | src/callbacks/training_callbacks/training_instructor_performance.py:717-745 | The intended callback always draws a panel, under either reader, and its chart and insights agree. |
| GroupedCells.GroupBySpec | src/callbacks/training_callbacks/training_office_engagement.py:265-292 | `groupby([a, b]).agg(...)` gives one row per key pair present, in ascending key order, each holding the sum or the mean of the values of its cell, which is never empty. |
| GroupedCells.GroupByCell | src/callbacks/training_callbacks/training_office_engagement.py:265-267 | Each row of a grouping holds the sum or mean of its own, non-empty cell. |
| GroupedCells.GroupByRow | src/callbacks/training_callbacks/training_office_engagement.py:265-267 | Every entry's key pair has a row in the grouping. |
| GroupedCells.GroupBySource | src/callbacks/training_callbacks/training_office_engagement.py:265-267 | Every row of a grouping comes from an entry with its key pair. |
| GroupedCells.GroupByStep | src/callbacks/training_callbacks/training_office_engagement.py:265-267 | Neighbouring rows of a grouping have strictly ascending key pairs. |
| GroupedCells.GroupByNonEmpty | src/callbacks/training_callbacks/training_office_engagement.py:265-267 | Grouping a non-empty table leaves at least one row. |
| TrainingOfficeEngagement.AttendanceKept | src/callbacks/training_callbacks/training_office_engagement.py:129-216 | Under either list reader, an attendance row is kept exactly when its start time parses, lies in the stored window when both days are stored, and the row meets the AOR, office, topic, instructor and location selections; offices are compared directly, ids as text. |
| TrainingOfficeEngagement.MembersKept | src/callbacks/training_callbacks/training_office_engagement.py:182-195 | Under either list reader, a member row is kept exactly when its AOR and its office are selected or not restricted; dates, topics, instructors and locations never narrow the members. |
| OfficeEngagementSeries.GroupingOf | src/callbacks/training_callbacks/training_office_engagement.py:250-335 | "aor" groups by AOR, "office" by the "AOR-OFFICE" label, and every other level by the office code, "top10" and "bottom10" also ranking. |
| OfficeEngagementSeries.MetricOf | src/callbacks/training_callbacks/training_office_engagement.py:264-307 | The three named metric keys select their metric; any other key reads as the attendance rate. |
| OfficeEngagementSeries.OfficeLabelInjective | src/callbacks/training_callbacks/training_office_engagement.py:257-258 | For AOR names without a dash, two "AOR-OFFICE" labels are equal exactly when both AORs and both offices are. |
| OfficeEngagementSeries.RankedTotals | src/callbacks/training_callbacks/training_office_engagement.py:337-339 | The per-group totals are sorted descending for top10 and ascending for bottom10, keeping the totals themselves. |
| OfficeEngagementSeries.TotalsMeaning | src/callbacks/training_callbacks/training_office_engagement.py:337-339 | Each total is its group's sum over the series, and every group present has one. |
| OfficeEngagementSeries.RankedSpec | src/callbacks/training_callbacks/training_office_engagement.py:335-343 | Ranking keeps at most ten groups, each present in the series; no group left out has a higher total (top10) or a lower one (bottom10) than a group kept; the points kept are exactly those of the chosen groups. |
| OfficeEngagementSeries.RankedNonEmpty | src/callbacks/training_callbacks/training_office_engagement.py:342-343 | The ranking keeps the points of its first group, so a non-empty series stays non-empty. |
| OfficeEngagementSeries.AttendancePointsSpec | src/callbacks/training_callbacks/training_office_engagement.py:264-276 | For the attendance metrics there is one point per time label and group met in the rows, in ascending order, each the sum of TotalAttendances or MembersAttended over its rows. |
| OfficeEngagementSeries.OfficePointsSpec | src/callbacks/training_callbacks/training_office_engagement.py:278-330 | For the member metrics below the AOR level there is one "Overall" point per AOR and office met among the members, labelled with both, holding the mean of its members' values, times 100 for the attendance rate. |
| OfficeEngagementSeries.AorPointsSpec | src/callbacks/training_callbacks/training_office_engagement.py:289-320 | At the AOR level there is one "Overall" point per AOR met among the members, ascending, holding the mean of that AOR's office means. |
| OfficeEngagementSeries.AttendancePointsNonEmpty | src/callbacks/training_callbacks/training_office_engagement.py:264-276 | Attendance rows always give points. |
| OfficeEngagementSeries.PrepareDrawn | src/callbacks/training_callbacks/training_office_engagement.py:218-350 | The corrected preparation gives no series exactly when no attendance is left, or a member metric finds no members; a series it gives is never empty. |
| OfficeEngagementSeries.RankedRateBlankAsWritten | src/callbacks/training_callbacks/training_office_engagement.py:307-354 | With attendance and members present, ranking the offices by attendance rate gives no series as written (the missing rename makes the ranking raise), while the corrected preparation draws the offices. |
| OfficeEngagementSeries.PrepareAsWrittenDrawn | src/callbacks/training_callbacks/training_office_engagement.py:218-354 | The preparation as written gives no series exactly when the corrected one gives none, or when a ranked view asks for the attendance rate of offices with members. A series it gives has points. |
| OfficeEngagementTrends.Largest | src/callbacks/training_callbacks/training_office_engagement.py:410 | `max()` is one of the values and at least every value. |
| OfficeEngagementTrends.ChartSpec | src/callbacks/training_callbacks/training_office_engagement.py:356-416 | An empty series draws the placeholder; otherwise the title names the metric, every group has exactly one line, the average line (with more than one point) lies between the smallest and the largest value, and the target line is 80% of the largest value. |
| OfficeEngagementTrends.FirstLargestAt | src/callbacks/training_callbacks/training_office_engagement.py:487-506 | `idxmax()` is the position of the first largest value: none is larger and every earlier one is smaller. |
| OfficeEngagementTrends.EntityRows | src/callbacks/training_callbacks/training_office_engagement.py:496 | One group's points, sorted by time label, keeping exactly that group's points. |
| OfficeEngagementTrends.Trends | src/callbacks/training_callbacks/training_office_engagement.py:494-502 | The loop over the groups in order of appearance collects exactly the trends the trend definition gives. |
| OfficeEngagementTrends.TrendsSpec | src/callbacks/training_callbacks/training_office_engagement.py:495-502 | Each trend belongs to a group with more than one point and a positive first value, and its growth is the percentage change from the first to the last value. |
| OfficeEngagementTrends.GrowthSign | src/callbacks/training_callbacks/training_office_engagement.py:501 | Growth is positive exactly when the last value is above the first, and negative exactly when below. |
| OfficeEngagementTrends.GroupMeanRow | src/callbacks/training_callbacks/training_office_engagement.py:487-488 | The grouping holds, for each group, the mean of that group's values. |
| OfficeEngagementTrends.GroupMeanAtMostTop | src/callbacks/training_callbacks/training_office_engagement.py:487-488 | Every group's mean is at most the top performer's, and a group before it has a smaller one. |
| OfficeEngagementTrends.TopPerformerSpec | src/callbacks/training_callbacks/training_office_engagement.py:486-488 | The top performer is a group of the series, quoted with its own mean, and no group has a higher mean. |
| OfficeEngagementTrends.FastestSpec | src/callbacks/training_callbacks/training_office_engagement.py:504-506 | The fastest grower has the highest growth, and every earlier trend's growth is lower. |
| OfficeEngagementTrends.ItemsShape | src/callbacks/training_callbacks/training_office_engagement.py:492-519 | Two insights over one period, three over several periods with some trend, none otherwise; the top performer is second and the fastest grower third. |
| OfficeEngagementTrends.InsightsLeader | src/callbacks/training_callbacks/training_office_engagement.py:486-516 | The second insight names a group of the series with the highest mean, and quotes that mean. |
| OfficeEngagementTrends.InsightsFastest | src/callbacks/training_callbacks/training_office_engagement.py:504-511 | The third insight names a group with a trend and quotes the highest growth of all trends. |
| OfficeEngagementTrends.PanelAgrees | src/callbacks/training_callbacks/training_office_engagement.py:554-557 | For a series that is never empty when present, the chart and the insights are empty together, and the top performer has a line. |
| OfficeEngagementTrends.UpdatePanelConsistent | src/callbacks/training_callbacks/training_office_engagement.py:537-560 | The callback as written, with the quote-only reader and the preparation as written: the chart and the insights are empty together. That happens exactly when the filters leave no attendance, a member metric finds no members, or a ranked view asks for the attendance rate of offices with members. The top performer the insights name has a line in the chart. |
| OfficeEngagementTrends.PreparedAsWrittenConsistent | src/callbacks/training_callbacks/training_office_engagement.py:537-560 | The panel drawn from the preparation as written shows the no-data chart exactly when it shows no insights, and exactly under the three conditions above. Its named top performer has a line in the chart. |
| OfficeEngagementTrends.UpdatePanelIntendedConsistent | src/callbacks/training_callbacks/training_office_engagement.py:537-560 | The intended callback, under either reader: the chart and the insights are empty together, exactly when the filters leave no attendance or a member metric finds no members. The named top performer has a line in the chart. |
| OfficeEngagementTrends.UpdatePanelAgrees | src/callbacks/training_callbacks/training_office_engagement.py:537-560 | Outside the ranked attendance-rate views, the callback as written shows exactly what the intended callback shows for the quote-only reader. |
| TrainingEngagedMembers.ListOf | src/callbacks/training_callbacks/training_engaged_members.py:124-128 | A list read from the store has no empty token, and a blank or missing entry gives no list. |
| TrainingEngagedMembers.MembersKept | src/callbacks/training_callbacks/training_engaged_members.py:113-136 | A member is kept, in order, exactly when there is no store or an empty one, or there is no Offices list, or its office is listed; no other selection touches the members. |
| TrainingEngagedMembers.InDayRangeDays | src/callbacks/training_callbacks/training_engaged_members.py:150-164 | A start time passes the date filter exactly when its day lies between Day_From and Day_To, whatever its hour: the end bound is the end of the last day. |
| TrainingEngagedMembers.AttendanceKept | src/callbacks/training_callbacks/training_engaged_members.py:138-234 | An attendance row is kept exactly when there are no selections, or its start time parses and lies in the stored days (when both are stored) and it meets the AOR, office, topic, instructor, location and class lists. |
| TrainingEngagedMembers.ActiveOffices | src/callbacks/training_callbacks/training_engaged_members.py:89 | The active offices are exactly the non-null offices of the filtered attendance. |
| TrainingEngagedMembers.RestrictSpec | src/callbacks/training_callbacks/training_engaged_members.py:84-92 | With filtered attendance left and a date key stored, members are kept exactly when an attendance row shows their office, unless no row has an office; otherwise the members are unchanged. |
| TrainingEngagedMembers.TopicsCompletedSpec | src/callbacks/training_callbacks/training_engaged_members.py:265 | Topics completed are at least 1, and half the sessions attended rounded down once that is above 1. |
| TrainingEngagedMembers.CalcSpec | src/callbacks/training_callbacks/training_engaged_members.py:254-287 | Nulls read as 0, hours equal the sessions attended, topics are at least 1, the metric value is the one the key selects, and only hours carry the " hrs" label. |
| TrainingEngagedMembers.MetricOf | src/callbacks/training_callbacks/training_engaged_members.py:268-279 | Only "training_hours" selects hours and only "topics_completed" selects topics; any other key reads sessions attended. |
| TrainingEngagedMembers.PyHead | src/callbacks/training_callbacks/training_engaged_members.py:283 | `head(n)` is a prefix of the ranking: the first n rows, all of them when there are fewer, and for a negative n all but the last -n. |
| TrainingEngagedMembers.Ranked | src/callbacks/training_callbacks/training_engaged_members.py:282 | The ranking is the members' rows in descending order of the metric, as a permutation. |
| TrainingEngagedMembers.TopMembersSpec | src/callbacks/training_callbacks/training_engaged_members.py:236-290 | The top members are members' own rows, `top_count` of them or all when fewer, in descending order of the metric, and no member left out has a higher value than one kept. |
| TrainingEngagedMembers.DisplayNameSpec | src/callbacks/training_callbacks/training_engaged_members.py:305 | A shown name has at most 18 characters; a longer name keeps its first 15 characters plus "...", and a name of at most 15 characters is shown whole. |
| TrainingEngagedMembers.HoverTexts | src/callbacks/training_callbacks/training_engaged_members.py:308-320 | The loop yields one hover per top member, in order, each with that member's name, office, counts and hours. |
| TrainingEngagedMembers.MetricKeyOr | src/callbacks/training_callbacks/training_engaged_members.py:54 | A missing or empty metric defaults to "sessions_attended". |
| TrainingEngagedMembers.CountOr | src/callbacks/training_callbacks/training_engaged_members.py:55 | A missing or zero count defaults to 20. |
| TrainingEngagedMembers.UpdateChartSpec | src/callbacks/training_callbacks/training_engaged_members.py:46-111 | No members gives the "No Member Data" chart; a drawn chart has one bar per top member, at most the count asked for, in descending order, each name at most 18 characters. |
| Settings.GetEnv | src/config/settings.py:33 | A set variable gives its value and an unset one the default, as `os.getenv(key, default)` does. |
| Settings.BoolEnvCases | src/config/settings.py:41-48 | The lower-cased value "true", "1", "yes" or "on" gives true; "false", "0", "no" or "off" gives false; an unset variable or any other value gives the default. |
| Settings.BoolEnvIgnoresCase | src/config/settings.py:43 | Upper- or lower-casing the value never changes the flag it reads as. |
| Settings.BoolEnvSpellings | src/config/settings.py:43-48 | "YES" and "On" read true, "Off" reads false, and "maybe" gives the default. |
| Settings.FloatEnvCases | src/config/settings.py:50-55 | The threshold is the parsed value, or the default when the variable is unset or does not parse. |
| Settings.LoadConfig | src/config/settings.py:9-39 | The environment name is lower-cased; IS_PRODUCTION holds exactly for "production" and IS_DEVELOPMENT exactly for "development", so never both. |
| Settings.DefaultConfig | src/config/settings.py:9-39 | With no variable set: monitoring on, thresholds 3, 5 and 2 seconds, environment "development", log level "INFO", file logging off. |
| Settings.ProductionAnyCase | src/config/settings.py:33-35 | ENVIRONMENT set to any letter-case spelling of "production" selects production and not development. |
| Settings.GetPerformanceConfig | src/config/settings.py:57-65 | The five entries are exactly the monitoring flag, the three thresholds and the environment name. |

## Left out


- Database access, SQL text and the `get_*_base_data` query functions: their results are the input sequences of the model.
- The thread pool and its completion order, the flask cache, and the timing and logging decorators: they do not change the values the callbacks compute.
- Dash layouts, Plotly figures, HTML builders, the enlarged-chart modals and their toggles that only copy a figure: presentation. The model keeps which chart kind is drawn and what it shows, not how.
- The browser-side `TrainingDataManager` and the other clientside callbacks in src/callbacks/filters.py: they delegate to JavaScript that is not part of this model.
- Library date arithmetic (`pd.to_datetime`, `to_period`, `strftime`, `Timestamp.now()`): dates are integers and "now" is a parameter. The calendar month of a day is a parameter of the ticket-volume series.
- `inflection.titleize`, `pluralize` and the regular expression that cleans AOR names: parameters of the functions that use them.
- Floating-point statistics (means, medians, standard deviations, risk and complexity scores): only their guards and orderings are modelled. Percentages are exact rationals or tenths rounded half up, whereas pandas rounds half to even.
- The order of ties in `sort_values`: the model sorts stably, while pandas' default quicksort leaves the order of equal keys unspecified. Every contract about a sorted result speaks only of the sort key and of the rows kept.
- Exceptions of library code on malformed cells (a non-numeric duration, a non-date string): the model's inputs are typed, so these branches are not reachable. The error branches that well-typed data can reach are modelled.
- WorkflowStatusDistribution.StatusInsights: the bottleneck is an input. The mean-duration merge with the transitions table that produces it is floating-point statistics.
- WorkflowStatusDistribution.StatusInsights: the fallback line "Tickets spread across N statuses" is unreachable, because a non-empty table always has a first row. The model has no such branch.
- WorkflowClassificationAnalysis.ChartFor: a case type or an origin whose display name is the literal "Total" would collide with the crosstab margin that the chart drops. The model assumes no such name.
- WorkflowClassificationAnalysis.ClassInsights: the fallback lines for a crosstab without a "Total" column are unreachable, because `margins=True` always adds one. The model leaves them out.
- WorkflowClassificationAnalysis: the product crosstab, limited to the top ten products, feeds only a chart that is not drawn, so it is not modelled.
- WorkflowTicketVolume: the chart figure and the peak period (`idxmax`) of the insight text. Only the trend direction and the totals are modelled.
- ComplianceCallbacks.QuotedRoundTrip: the round trip holds only for items without commas or quote characters, which the writer does not escape.
- OfficeEngagementSeries: a metric key the panel does not know reads as the attendance rate, as the source's `else` branch does; the `aor_offices` table is loaded but never used.
- TrainingEngagedMembers: the missing-columns branch, the number formatting of the table, null member names and the date coercion are not modelled beyond what the contracts state.
- TrainingEngagedMembers.DisplayNameSpec: states the display name built from the parts, not the converse.
- Common: `Lower`, `Strip` and `IsDigit` are ASCII-only, and `ParseInt` rejects a leading "+", which Python's `int` accepts.
- ComplianceRecentActivities: `prepare_recent_activities_data` is not part of this model; its result is a parameter.
- WorkflowUserPerformance: the mean resolution hours of a user are a parameter (floating point).
- src/callbacks/compliance_callbacks/compliance_incident_analysis.py is not part of this model: it draws a chart and insight text over columns computed elsewhere.
- src/callbacks/training_callbacks/training_summary_cards.py is not part of this model: it only calls browser JavaScript.
- ComplianceViolationTrends: the layout details of the severity-trends chart.
- WorkflowEscalatedTickets: the grouping of the trends and duration views, their number formats, the insight text and the composition of the update callback.
- WorkflowAssigneeWorkload: the update callback has no member of its own, and the insight lines are covered only in part.
- WorkflowSourceAnalysis: the least-used raw-origin insight, the percentages and the chart modal.
- WorkflowTrendsAnalysis: the volatility insight, which uses a standard deviation (floating point).
- WorkflowProductImpact: the insight about the product with the fewest tickets.
- WorkflowDataTable: the formatting of datetime columns and the column widths of the PDF report.

## Findings

| source | as written | input that shows it | evidently intended | confidence | as-written member | corrected member |
|---|---|---|---|---|---|---|
| src/callbacks/workflow_callbacks/workflow_filters.py:71-94 | The options give an empty cell the value "-", but the dataset filter matches the selection literally, so "-" never equals the "" it stands for. | Rows whose origin is "", with the "Unspecified" origin option chosen: no row is kept. | Read "-" back as "" before matching, as the summary-card parser does. | not executed | WorkflowFilters.PlaceholderSelectsNothing | WorkflowFilters.SelectedOptionKeepsRow |
| src/callbacks/workflow_callbacks/workflow_resolution_times.py:110-111 | The date range is looked up under StartDate and EndDate, keys that the filter panel's store never holds. | A panel store for days 1 to 2 and a ticket created on day 0: the ticket is kept. | Read Day_From and Day_To, which the panel writes. | not executed | WorkflowResolutionTimes.EarlyTicketKeptAsWritten | WorkflowResolutionTimes.KeptItemsInsidePanelRange |
| src/callbacks/workflow_callbacks/workflow_ticket_volume.py:94-95 | The same StartDate and EndDate lookup, so the panel's range is never applied. | Any panel store: the as-written filter equals the filter with no range. | Read Day_From and Day_To. | not executed | WorkflowTicketVolume.ApplyTicketVolumeFiltersAsWritten | WorkflowTicketVolume.VolumePanelRange |
| src/callbacks/workflow_callbacks/workflow_ticket_volume.py:179 | The weekly label formats the creation date itself, so grouping by label groups by day, not by week. | Tickets created on Thursday 1970-01-01 and Friday 1970-01-02: two "weekly" periods. | Label a week by its first day, the period's start time. | not executed | WorkflowTicketVolume.WeekSplitAsWritten | WorkflowTicketVolume.WeeklyLabels |
| src/callbacks/workflow_callbacks/workflow_ticket_volume.py:478-488 | The chart takes its granularity from the last trigger only, so a filter change resets it to weekly while the daily or monthly button stays active. | Click daily, then change any filter: the daily button is active and the chart is weekly. | Keep the granularity of the active button. | not executed | WorkflowTicketVolume.DailyLostOnFilterChange | WorkflowTicketVolume.ChartMatchesButtons |
| src/callbacks/workflow_callbacks/workflow_status_distribution.py:96-97 | The same StartDate and EndDate lookup (and in workflow_classification_analysis.py:103-104, whose filter is the same). | Any panel store: the as-written filter equals the filter with no range. | Read Day_From and Day_To. | not executed | WorkflowStatusDistribution.ApplyStatusFiltersAsWritten | WorkflowStatusDistribution.StatusPanelRange |
| src/callbacks/workflow_callbacks/workflow_status_distribution.py:680-681 | Without a bottleneck, `if top_status:` tests a pandas row for truth, which raises, so all three insight lines become the error lines. | Any filtered data with no transition durations over one hour. | Test `top_status is not None` and show the top status. | not executed | WorkflowStatusDistribution.TopStatusFallbackRaises | WorkflowStatusDistribution.StatusInsights |
| src/callbacks/workflow_callbacks/workflow_classification_analysis.py:283-284 | For an empty selection, preparation returns an empty DataFrame, and `not analysis_data` on a DataFrame raises, so the panel shows its error state. | A store whose selections match no ticket. | Show the no-data chart and the no-data lines, which the chart and insight builders already have. | not executed | WorkflowClassificationAnalysis.EmptySelectionRaises | WorkflowClassificationAnalysis.ClassificationPanel |
| src/utils/compliance_data.py:24-28 | The freshness test reads the `.seconds` part of the cache's age, the seconds left over after whole days, so a frame more than a day old can pass the one-hour test. | A frame cached at time 0 and a call 86410 seconds later: the old frame is served. | Compare the whole age with the hour (`total_seconds()`). | not executed | ComplianceData.DayOldFrameServedAsWritten | ComplianceData.StaleFrameRefetched |
| src/callbacks/compliance_callbacks/compliance_filters.py:136-137 | `sorted` runs over the collected list elements before the null test, so one JSON null among strings raises and the generator falls into its error branch. | One case whose violation list is `[null, "Late Listing"]`. | Drop nulls before sorting. | not executed | ComplianceFilters.NullElementRaises | ComplianceFilters.ListOptionsSpec |
| src/callbacks/compliance_callbacks/compliance_violation_status.py:83-86 | A null first fee becomes the text "No Fee", which the formatting step then prefixes with "$". | A case whose fee list is `[null]`: it is counted under "$No Fee". | Label the case "No Fee". | not executed | ComplianceViolationStatus.NullFeeLabelledAsWritten | ComplianceViolationStatus.NullFeeCategory |
| src/callbacks/compliance_callbacks/compliance_recent_activities.py:506-509 | The investigation filter spells the stage names with underscores, which no lifecycle stage uses, so the investigation insight never appears. | Any event of stage "Investigation Start". | Match "Investigation Start" and "Investigation Status Change". | not executed | ComplianceRecentActivities.UpdateRecentActivitiesAsWritten | ComplianceRecentActivities.InvestigationReported |
| src/callbacks/compliance_callbacks/compliance_data_table.py:570 | The financial report is sorted on the formatted fee text, so the order is that of strings, not of amounts. | Two cases whose fees total $9.00 and $100.00: "$9.00" sorts above "$100.00". | Sort on the amount. | not executed | ComplianceDataTable.FinancialNineBeforeHundred | ComplianceDataTable.FinancialHundredBeforeNine |
| src/callbacks/workflow_callbacks/workflow_escalated_tickets.py:110-168 | The store reader strips whitespace but not the quotes the panel writes around each item, so an active selection matches no plain cell. | Select product "A": the stored text is "'A'" and a ticket of product A is dropped. | Strip the quotes too. | not executed | WorkflowEscalatedTickets.ActiveSelectionDropsAll | WorkflowEscalatedTickets.StoredSelectionListed |
| src/callbacks/workflow_callbacks/workflow_trends_analysis.py:262-283 | `selected_items` is bound only inside the non-empty branch, so a filter that leaves no row makes the chart call raise. | An empty ticket table. | Draw the empty chart. | not executed | WorkflowTrendsAnalysis.NoRowsRaisesAsWritten | WorkflowTrendsAnalysis.ChartPanelSpec |
| src/callbacks/training_callbacks/training_data_table.py:192-199 | The store readers of the data-table, gap-analysis, scheduling, instructor and office panels strip quote characters but not whitespace, while the panel joins items with ", ", so every item after the first reads back with a leading space and its opening quote. | Select offices "A" and "B": they read back as "A" and " 'B", and no office B row matches. | Strip whitespace, then quotes, as the engaged-members reader does. | not executed | TrainingData.TwoOfficesAsWritten | TrainingData.PanelListsRoundTrip |
| src/callbacks/training_callbacks/training_gap_analysis.py:621-624 | The "Highest Gap" insight reads the first row whatever the sort order, and with the ascending sort that row has the smallest gap. | Sort "gap_percent_asc" with two categories whose gaps differ. | Take the row with the largest gap. | not executed | TrainingGapAnalysis.HighestGapAsWrittenMisses | TrainingGapAnalysis.HighestGapRow |
| src/callbacks/training_callbacks/training_instructor_performance.py:184-230 | `start_date` is bound only inside the attendance branch, so with no attendance rows the class filter raises. | No attendance rows and one class whose start time parses. | Read the dates before both branches. | not executed | TrainingInstructorPerformance.NoAttendanceRaisesAsWritten | TrainingInstructorPerformance.ClassesKept |
| src/callbacks/training_callbacks/training_instructor_performance.py:304-373 | With no attendance, `get(col, 0)` returns the integer 0, whose missing `fillna` raises, so the panel gets an empty frame. | Instructor rows and no attendance rows. | Fill a column of zeros. | not executed | TrainingInstructorPerformance.PrepareAsWrittenDropsRows | TrainingInstructorPerformance.PrepareSpec |
| src/callbacks/training_callbacks/training_office_engagement.py:307-354 | In the attendance-rate view the top10 and bottom10 levels group by `MemberOffice`, a column the member summary never has, so the ranking raises and the chart gets no series. | Members and attendance present, level "top10", metric attendance rate. | Group by the office label built for that summary. | not executed | OfficeEngagementSeries.RankedRateBlankAsWritten | OfficeEngagementSeries.RankedSpec |
