/**
 * The classification-analysis panel: display labels for case types, origins,
 * priorities and products, the summary of the cross-tabulation, the display
 * limit, the stacked/heatmap view state and the three insight lines.
 *
 * Its dataset filter is the status-distribution panel's, line for line
 * (CreatedOn required, the StartDate/EndDate lookup, the ten selections in
 * the same order), so the model reuses `SD.StatusFilter` and its store readers.
 * `titleize` is a parameter.
 */
module WorkflowClassificationAnalysis {
  import opened Common
  import opened WorkflowData
  import SD = WorkflowStatusDistribution
  import RT = WorkflowResolutionTimes

  // ---------------------------------------------------------------------
  // Display labels (`format_for_display`, `get_case_type_display_name`)

  /** Every character of a stripped string comes from the string. */
  lemma StripKeepsChars(s: string, c: char)
    requires c in Strip(s)
    ensures c in s
  {
    var l := LStrip(s, Whitespace);
    var r := RStrip(l, Whitespace);
    var i :| 0 <= i < |r| && r[i] == c;
    assert r[i] == l[i];
    assert l[i] == s[|s| - |l| + i];
  }

  /** "_" and "-" become spaces, "N/A" is deleted, surrounding whitespace trimmed. */
  function CleanLabel(s: string): (r: string)
    ensures '_' !in r && '-' !in r
    ensures |r| > 0 ==> r[0] !in Whitespace && r[|r| - 1] !in Whitespace
    ensures forall c :: c in r && c != ' ' ==> c in s
  {
    var a := Replace(s, "_", " ");
    var b := Replace(a, "-", " ");
    var n := Replace(b, "N/A", "");
    ReplaceRemovesChar(s, '_', " ");
    ReplaceRemovesChar(a, '-', " ");
    ReplaceCharKeeps(a, '-', " ", '_');
    forall c | c in n ensures c in b { ReplaceChars(b, "N/A", "", c); }
    forall c | c in b && c != ' ' ensures c in s {
      ReplaceChars(a, "-", " ", c);
      ReplaceChars(s, "_", " ", c);
    }
    var r := Strip(n);
    forall c | c in r ensures c in n { StripKeepsChars(n, c); }
    LStripRStrip(n);
    r
  }

  /** The stripped string's ends are not whitespace. */
  lemma LStripRStrip(s: string)
    ensures |Strip(s)| > 0 ==> Strip(s)[0] !in Whitespace && Strip(s)[|Strip(s)| - 1] !in Whitespace
  {
    var l := LStrip(s, Whitespace);
    var r := RStrip(l, Whitespace);
    if |r| > 0 {
      assert r[0] == l[0];
    }
  }

  /** A missing, empty or "Unspecified" value stays "Unspecified". */
  predicate Unspecified(v: Option<string>)
  {
    v.None? || v.value == "" || v.value == "Unspecified"
  }

  /**
   * `format_for_display`: "Unspecified" for an unspecified value or one that
   * cleans to nothing; otherwise the titleized cleaned text.
   */
  function FormatForDisplay(v: Option<string>, titleize: string -> string): (r: string)
    ensures Unspecified(v) ==> r == "Unspecified"
    ensures r != "Unspecified" ==>
      exists f :: r == titleize(f) && f != "" && '_' !in f && '-' !in f && f[0] !in Whitespace
  {
    if Unspecified(v) then "Unspecified"
    else
      var f := CleanLabel(v.value);
      if f == "" then "Unspecified" else titleize(f)
  }

  /** A value made only of underscores, hyphens and whitespace displays as "Unspecified". */
  lemma SeparatorsOnlyUnspecified(s: string, titleize: string -> string)
    requires forall i :: 0 <= i < |s| ==> s[i] == '_' || s[i] == '-' || s[i] in Whitespace
    ensures FormatForDisplay(Some(s), titleize) == "Unspecified"
  {
    if !Unspecified(Some(s)) {
      var a := Replace(s, "_", " ");
      var b := Replace(a, "-", " ");
      var n := Replace(b, "N/A", "");
      ReplaceRemovesChar(s, '_', " ");
      ReplaceRemovesChar(a, '-', " ");
      ReplaceCharKeeps(a, '-', " ", '_');
      forall i | 0 <= i < |n| ensures n[i] in Whitespace {
        var c := n[i];
        ReplaceChars(b, "N/A", "", c);
        ReplaceChars(a, "-", " ", c);
        ReplaceChars(s, "_", " ", c);
      }
      StripEmptyIffBlank(n);
    }
  }

  /** `get_case_type_display_name`: the mapped name when the code is mapped, else the formatted code. */
  function CaseTypeDisplay(code: Option<string>, names: map<string, string>, titleize: string -> string): (r: string)
    ensures Unspecified(code) ==> r == "Unspecified"
    ensures !Unspecified(code) && code.value in names ==> r == names[code.value]
    ensures !Unspecified(code) && code.value !in names ==> r == FormatForDisplay(code, titleize)
  {
    if Unspecified(code) then "Unspecified"
    else if code.value in names then names[code.value]
    else FormatForDisplay(code, titleize)
  }

  /** The display columns of one ticket. */
  datatype ClassRow = ClassRow(caseType: string, origin: string, priority: string, product: string)

  function CaseTypeOf(r: ClassRow): string { r.caseType }
  function OriginOf(r: ClassRow): string { r.origin }
  function PriorityOf(r: ClassRow): string { r.priority }
  function ProductOf(r: ClassRow): string { r.product }

  /** `fillna('Unspecified')` on the four columns, then the display formatting. */
  function DisplayRow(w: WorkItem, names: map<string, string>, titleize: string -> string): ClassRow
  {
    ClassRow(CaseTypeDisplay(w.caseTypeCode, names, titleize), FormatForDisplay(w.caseOrigin, titleize),
             FormatForDisplay(w.priority, titleize), FormatForDisplay(w.product, titleize))
  }

  function DisplayRows(items: seq<WorkItem>, names: map<string, string>, titleize: string -> string): (r: seq<ClassRow>)
    ensures |r| == |items|
    ensures forall i :: 0 <= i < |items| ==> r[i] == DisplayRow(items[i], names, titleize)
  {
    if |items| == 0 then [] else [DisplayRow(items[0], names, titleize)] + DisplayRows(items[1..], names, titleize)
  }

  /** How many distinct values a column holds (`nunique()`). */
  function Unique(xs: seq<string>): (n: nat)
    ensures n == |set x | x in xs|
    ensures n <= |xs|
    ensures |xs| > 0 ==> n > 0
  {
    var keys := SortedUnique(xs);
    AscendingDistinct(keys);
    DistinctWithin(keys, xs);
    DistinctCard(keys);
    assert (set x | x in keys) == (set x | x in xs);
    assert |xs| > 0 ==> xs[0] in keys;
    |keys|
  }

  /** The distinct values a column of the rows takes. */
  function ValuesOf(rows: seq<ClassRow>, f: ClassRow -> string): set<string>
  {
    set r | r in rows :: f(r)
  }

  /** Counting the distinct entries of a mapped column counts the distinct values. */
  lemma UniqueOfColumn(rows: seq<ClassRow>, f: ClassRow -> string)
    ensures Unique(Map(rows, f)) == |ValuesOf(rows, f)|
  {
    var col := Map(rows, f);
    forall v ensures v in col <==> v in ValuesOf(rows, f) {
      if v in ValuesOf(rows, f) {
        var r :| r in rows && f(r) == v;
        var i :| 0 <= i < |rows| && rows[i] == r;
        assert col[i] == v;
      }
    }
    assert (set x | x in col) == ValuesOf(rows, f);
  }

  // ---------------------------------------------------------------------
  // The summary statistics and the display limit

  datatype ClassSummary = ClassSummary(
    totalTickets: nat, uniqueCaseTypes: nat, uniqueOrigins: nat, uniquePriorities: nat,
    uniqueProducts: nat, topCaseType: string, topOrigin: string, topPriority: string)

  function Summarize(rows: seq<ClassRow>): (s: ClassSummary)
    ensures s.totalTickets == |rows|
    ensures s.uniqueCaseTypes == |ValuesOf(rows, CaseTypeOf)| && s.uniqueOrigins == |ValuesOf(rows, OriginOf)|
    ensures s.uniquePriorities == |ValuesOf(rows, PriorityOf)| && s.uniqueProducts == |ValuesOf(rows, ProductOf)|
    ensures s.uniqueCaseTypes <= s.totalTickets && s.uniqueOrigins <= s.totalTickets
    ensures s.uniquePriorities <= s.totalTickets && s.uniqueProducts <= s.totalTickets
  {
    UniqueOfColumn(rows, CaseTypeOf);
    UniqueOfColumn(rows, OriginOf);
    UniqueOfColumn(rows, PriorityOf);
    UniqueOfColumn(rows, ProductOf);
    ClassSummary(|rows|, Unique(Map(rows, CaseTypeOf)), Unique(Map(rows, OriginOf)), Unique(Map(rows, PriorityOf)),
                 Unique(Map(rows, ProductOf)), TopValue(Map(rows, CaseTypeOf)), TopValue(Map(rows, OriginOf)),
                 TopValue(Map(rows, PriorityOf)))
  }

  /** `update_class_display_state`: an empty choice is "top5". */
  function DisplayState(value: Option<string>): string
  {
    RT.OrDefault(value, "top5")
  }

  /** How many case types a display preference shows; "all" and anything unlisted show every one. */
  function DisplayLimit(pref: string): Option<nat>
  {
    if pref == "top3" then Some(3) else if pref == "top5" then Some(5) else if pref == "top10" then Some(10) else None
  }

  /** `displayed_count`. */
  function DisplayedCount(pref: string, total: nat): (r: nat)
    ensures r <= total
    ensures pref == "all" ==> r == total
  {
    var limit := DisplayLimit(pref);
    if limit.Some? then (if limit.value < total then limit.value else total) else total
  }

  /** The case types the chart draws: the first rows of the ranking (`head(n)`), or all. */
  function DisplayedCaseTypes(ranked: seq<string>, pref: string): seq<string>
  {
    var limit := DisplayLimit(pref);
    if limit.Some? then Head(ranked, limit.value) else ranked
  }

  /** The count the chart reports is the number of case types it draws, a prefix of the ranking. */
  lemma DisplayedCountMatches(ranked: seq<string>, pref: string)
    ensures |DisplayedCaseTypes(ranked, pref)| == DisplayedCount(pref, |ranked|)
    ensures DisplayedCaseTypes(ranked, pref) <= ranked
    ensures pref in {"top3", "top5", "top10"} ==> |DisplayedCaseTypes(ranked, pref)| == (if DisplayLimit(pref).value < |ranked| then DisplayLimit(pref).value else |ranked|)
  {
  }

  // ---------------------------------------------------------------------
  // The view state

  const StackedButton := "workflow-class-stacked-btn"
  const HeatmapButton := "workflow-class-heatmap-btn"

  /** `update_classification_view_state`: a view button sets its view; any other trigger keeps the state, "stacked" when there is none. */
  function NextClassView(trigger: Option<string>, current: Option<string>): (r: string)
    ensures trigger == Some(HeatmapButton) ==> r == "heatmap"
    ensures trigger == Some(StackedButton) ==> r == "stacked"
    ensures trigger != Some(HeatmapButton) && trigger != Some(StackedButton) && current.Some? ==> r == current.value
  {
    var state := if current.None? then "stacked" else current.value;
    if trigger == Some(HeatmapButton) then "heatmap"
    else if trigger == Some(StackedButton) then "stacked"
    else state
  }

  /** Starting from no state or one of the two views, the state stays one of the two views, and a repeated trigger changes nothing more. */
  lemma ClassViewStaysKnown(trigger: Option<string>, current: Option<string>)
    requires current.None? || current.value in {"stacked", "heatmap"}
    ensures NextClassView(trigger, current) in {"stacked", "heatmap"}
    ensures NextClassView(trigger, Some(NextClassView(trigger, current))) == NextClassView(trigger, current)
  {
  }

  /** `update_classification_view_buttons`: (stacked active, heatmap active). */
  function ClassViewButtons(view: Option<string>): (r: (bool, bool))
    ensures r.0 != r.1
    ensures r.1 <==> view == Some("heatmap")
  {
    if view == Some("heatmap") then (false, true) else (true, false)
  }

  // ---------------------------------------------------------------------
  // The cross-tabulation and the chart

  /** A value counted once, for counting rows with `Sum`. */
  function One(r: ClassRow): int { 1 }

  lemma {:induction false} SumOnes(xs: seq<ClassRow>)
    ensures Sum(Map(xs, One)) == |xs|
  {
    if |xs| > 0 {
      SumOnes(xs[1..]);
      assert Map(xs, One) == [One(xs[0])] + Map(xs[1..], One);
      SumAppend([One(xs[0])], Map(xs[1..], One));
    }
  }

  /** One cell of `pd.crosstab(case type, col)`: the tickets of that case type with that column value. */
  function CrossCell(rows: seq<ClassRow>, col: ClassRow -> string, caseType: string, v: string): nat
  {
    |Where(Where(rows, CaseTypeOf, caseType), col, v)|
  }

  /** The "Total" margin of a case type's row. */
  function RowTotal(rows: seq<ClassRow>, caseType: string): nat
  {
    |Where(rows, CaseTypeOf, caseType)|
  }

  /** The column values of the cross-tabulation, in the sorted order pandas gives its columns. */
  function ColumnKeys(rows: seq<ClassRow>, col: ClassRow -> string): seq<string>
  {
    SortedUnique(Map(rows, col))
  }

  lemma MapHas(rows: seq<ClassRow>, f: ClassRow -> string, x: ClassRow)
    requires x in rows
    ensures f(x) in Map(rows, f)
  {
    var i :| 0 <= i < |rows| && rows[i] == x;
    assert Map(rows, f)[i] == f(x);
  }

  /** The margins add up: the cells of a case type's row sum to its "Total" entry. */
  lemma {:induction false} CrossRowSums(rows: seq<ClassRow>, col: ClassRow -> string, caseType: string)
    ensures GroupSums(ColumnKeys(rows, col), Where(rows, CaseTypeOf, caseType), col, One) == RowTotal(rows, caseType)
  {
    var keys := ColumnKeys(rows, col);
    var sub := Where(rows, CaseTypeOf, caseType);
    AscendingDistinct(keys);
    forall x | x in sub ensures col(x) in keys { MapHas(rows, col, x); }
    GroupSumsTotal(keys, sub, col, One);
    SumOnes(sub);
  }

  /** The grand total: the row totals over all case types sum to the number of tickets. */
  lemma {:induction false} CrossGrandTotal(rows: seq<ClassRow>)
    ensures GroupSums(ColumnKeys(rows, CaseTypeOf), rows, CaseTypeOf, One) == |rows|
  {
    var keys := ColumnKeys(rows, CaseTypeOf);
    AscendingDistinct(keys);
    forall x | x in rows ensures CaseTypeOf(x) in keys { MapHas(rows, CaseTypeOf, x); }
    GroupSumsTotal(keys, rows, CaseTypeOf, One);
    SumOnes(rows);
  }

  /** A summand of the row sum is the cell it stands for. */
  lemma CellIsGroupSum(rows: seq<ClassRow>, col: ClassRow -> string, caseType: string, v: string)
    ensures GroupSum(Where(rows, CaseTypeOf, caseType), col, One, v) == CrossCell(rows, col, caseType, v)
  {
    SumOnes(Where(Where(rows, CaseTypeOf, caseType), col, v));
  }

  /** The case types ranked by their row totals, largest first (`sum(axis=1).sort_values(ascending=False)`). */
  function Ranking(rows: seq<ClassRow>): (r: seq<string>)
    ensures multiset(r) == multiset(SortedUnique(Map(rows, CaseTypeOf)))
    ensures forall i, j :: 0 <= i < j < |r| ==> Count(Map(rows, CaseTypeOf), r[j]) <= Count(Map(rows, CaseTypeOf), r[i])
  {
    var cts := Map(rows, CaseTypeOf);
    var key := (k: string) => -(Count(cts, k) as int);
    var r := SortBy(SortedUnique(cts), key);
    forall i, j | 0 <= i < j < |r| ensures Count(cts, r[j]) <= Count(cts, r[i]) {
      assert key(r[i]) <= key(r[j]);
    }
    r
  }

  /** The ranking lists every case type of the data exactly once. */
  lemma RankingCovers(rows: seq<ClassRow>)
    ensures NoDuplicates(Ranking(rows))
    ensures forall ct :: ct in Ranking(rows) <==> ct in Map(rows, CaseTypeOf)
  {
    var keys := SortedUnique(Map(rows, CaseTypeOf));
    AscendingDistinct(keys);
    PermutationNoDuplicates(keys, Ranking(rows));
    forall ct ensures ct in Ranking(rows) <==> ct in keys {
      assert ct in Ranking(rows) <==> ct in multiset(Ranking(rows));
    }
  }

  datatype ClassChart =
    | NoDataChart
    | ErrorChart
    | StackedChart(caseTypes: seq<string>, displayed: nat, total: nat)
    | HeatmapChart(caseTypes: seq<string>, displayed: nat, total: nat)

  /** The chart of a non-empty dataset: the top case types of the ranking, in the chosen view. */
  function ChartFor(rows: seq<ClassRow>, view: string, pref: string): (c: ClassChart)
    ensures c.StackedChart? || c.HeatmapChart?
    ensures c.HeatmapChart? <==> view == "heatmap"
    ensures c.displayed == |c.caseTypes| <= c.total == |Ranking(rows)|
    ensures c.caseTypes <= Ranking(rows)
  {
    var ranked := Ranking(rows);
    DisplayedCountMatches(ranked, pref);
    var shown := DisplayedCaseTypes(ranked, pref);
    if view == "heatmap" then HeatmapChart(shown, DisplayedCount(pref, |ranked|), |ranked|)
    else StackedChart(shown, DisplayedCount(pref, |ranked|), |ranked|)
  }

  // ---------------------------------------------------------------------
  // Insights

  datatype ClassInsight =
    | Overview(tickets: nat, caseTypes: nat, topCaseType: string, showing: Option<string>)
    | OriginPattern(caseType: string, volume: nat, origin: string)
    | PriorityDominates(priority: string, volume: nat, percentTenths: int, urgent: bool)
    | ClassNoData(line: nat)
    | ClassError(line: nat)

  const ClassNoDataInsights: seq<ClassInsight> := [ClassNoData(1), ClassNoData(2), ClassNoData(3)]
  const ClassErrorInsights: seq<ClassInsight> := [ClassError(1), ClassError(2), ClassError(3)]

  /** The priorities that call for immediate attention when they occur in the top priority's label. */
  const HighPriorityTerms: seq<string> := ["High", "Critical", "Urgent", "Emergency"]

  /** A priority label calls for immediate attention when it mentions one of the urgent terms. */
  predicate IsUrgent(priority: string)
  {
    exists t :: t in HighPriorityTerms && Contains(priority, t)
  }

  /** `display_labels.get(pref, 'top 10')`. */
  function DisplayText(pref: string): string
  {
    if pref == "top3" then "top 3" else if pref == "top5" then "top 5"
    else if pref == "top10" then "top 10" else if pref == "all" then "all" else "top 10"
  }

  /** The busiest case type's most common origin: the first origin column holding that row's largest cell (`idxmax`). */
  function DominantOrigin(rows: seq<ClassRow>, caseType: string): string
    requires |rows| > 0
  {
    MapHas(rows, OriginOf, rows[0]);
    FirstMost(ColumnKeys(rows, OriginOf), Map(Where(rows, CaseTypeOf, caseType), OriginOf))
  }

  /** `generate_classification_analysis_insights` on prepared data: three lines. */
  function ClassInsights(rows: seq<ClassRow>, pref: string): (r: seq<ClassInsight>)
    ensures |rows| == 0 ==> r == ClassNoDataInsights
    ensures |rows| > 0 ==> |r| == 3 && r[0].Overview? && r[2].PriorityDominates?
    ensures |rows| > 0 ==> r[0].tickets == |rows| && (r[0].showing.None? <==> pref == "all")
  {
    if |rows| == 0 then ClassNoDataInsights
    else [OverviewLine(rows, pref), OriginLine(rows), PriorityLine(rows)]
  }

  /** The overview line: ticket count, distinct case types, the busiest one, and the display choice unless it is "all". */
  function OverviewLine(rows: seq<ClassRow>, pref: string): (i: ClassInsight)
    ensures i.Overview? && i.tickets == |rows| && (i.showing.None? <==> pref == "all")
  {
    var s := Summarize(rows);
    Overview(s.totalTickets, s.uniqueCaseTypes, s.topCaseType, if pref == "all" then None else Some(DisplayText(pref)))
  }

  /** The origin line: the busiest case type, its volume and its dominant origin. */
  function OriginLine(rows: seq<ClassRow>): (i: ClassInsight)
    requires |rows| > 0
    ensures i.OriginPattern?
  {
    var cts := Map(rows, CaseTypeOf);
    var top := TopValue(cts);
    OriginPattern(top, Count(cts, top), DominantOrigin(rows, top))
  }

  /** The priority line: the most frequent priority, its volume and share, and whether it is urgent. */
  function PriorityLine(rows: seq<ClassRow>): (i: ClassInsight)
    requires |rows| > 0
    ensures i.PriorityDominates?
  {
    var prios := Map(rows, PriorityOf);
    var topPriority := TopValue(prios);
    var pc := Count(prios, topPriority);
    PriorityDominates(topPriority, pc, SD.PercentTenths(pc, |rows|),
                      IsUrgent(topPriority))
  }

  /** The origin line names the busiest case type with its true volume, and an origin that case type's tickets use most. */
  lemma OriginInsightSound(rows: seq<ClassRow>, pref: string, o: string)
    requires |rows| > 0
    ensures var ins := ClassInsights(rows, pref)[1];
      ins.OriginPattern? && ins.caseType in Map(rows, CaseTypeOf) && ins.volume == Count(Map(rows, CaseTypeOf), ins.caseType) &&
      (forall ct :: ct in Map(rows, CaseTypeOf) ==> Count(Map(rows, CaseTypeOf), ct) <= ins.volume) &&
      ins.origin in Map(Where(rows, CaseTypeOf, ins.caseType), OriginOf) &&
      Count(Map(Where(rows, CaseTypeOf, ins.caseType), OriginOf), o) <=
        Count(Map(Where(rows, CaseTypeOf, ins.caseType), OriginOf), ins.origin)
  {
    var cts := Map(rows, CaseTypeOf);
    TopCaseTypeSound(rows);
    DominantOriginSound(rows, TopValue(cts), o);
  }

  lemma TopCaseTypeSound(rows: seq<ClassRow>)
    requires |rows| > 0
    ensures TopValue(Map(rows, CaseTypeOf)) in Map(rows, CaseTypeOf)
    ensures forall ct :: ct in Map(rows, CaseTypeOf) ==> Count(Map(rows, CaseTypeOf), ct) <= Count(Map(rows, CaseTypeOf), TopValue(Map(rows, CaseTypeOf)))
  {
    var cts := Map(rows, CaseTypeOf);
    assert cts[0] in cts;
    forall ct | ct in cts ensures Count(cts, ct) <= Count(cts, TopValue(cts)) { TopValueIsMode(cts, ct); }
  }

  /** For a case type of the data, the dominant origin occurs among its tickets and at least as often as any origin. */
  lemma DominantOriginSound(rows: seq<ClassRow>, ct: string, o: string)
    requires |rows| > 0 && ct in Map(rows, CaseTypeOf)
    ensures DominantOrigin(rows, ct) in Map(Where(rows, CaseTypeOf, ct), OriginOf)
    ensures Count(Map(Where(rows, CaseTypeOf, ct), OriginOf), o) <= Count(Map(Where(rows, CaseTypeOf, ct), OriginOf), DominantOrigin(rows, ct))
  {
    var sub := Where(rows, CaseTypeOf, ct);
    var subo := Map(sub, OriginOf);
    var keys := ColumnKeys(rows, OriginOf);
    var x := CaseTypeRow(rows, ct);
    SubOriginIsColumn(rows, ct, x.origin);
    FirstMostBound(keys, subo, x.origin);
    if o in subo {
      SubOriginIsColumn(rows, ct, o);
      FirstMostBound(keys, subo, o);
    }
  }

  /** A row of the data with the given case type. */
  lemma CaseTypeRow(rows: seq<ClassRow>, ct: string) returns (x: ClassRow)
    requires ct in Map(rows, CaseTypeOf)
    ensures x in Where(rows, CaseTypeOf, ct) && x.origin in Map(Where(rows, CaseTypeOf, ct), OriginOf)
  {
    var i :| 0 <= i < |rows| && Map(rows, CaseTypeOf)[i] == ct;
    x := rows[i];
    assert x in Where(rows, CaseTypeOf, ct);
    MapHas(Where(rows, CaseTypeOf, ct), OriginOf, x);
  }

  /** An origin among one case type's tickets is a column of the cross-tabulation. */
  lemma SubOriginIsColumn(rows: seq<ClassRow>, ct: string, o: string)
    requires o in Map(Where(rows, CaseTypeOf, ct), OriginOf)
    ensures o in ColumnKeys(rows, OriginOf)
  {
    var sub := Where(rows, CaseTypeOf, ct);
    var j :| 0 <= j < |sub| && Map(sub, OriginOf)[j] == o;
    assert sub[j] in rows;
    MapHas(rows, OriginOf, sub[j]);
  }

  lemma FirstMostBound(keys: seq<string>, xs: seq<string>, k: string)
    requires k in keys
    ensures Count(xs, k) <= Count(xs, FirstMost(keys, xs))
  {
  }

  /** The priority line names a most frequent priority, its share of the tickets, and flags exactly the urgent labels. */
  lemma PriorityInsightSound(rows: seq<ClassRow>, pref: string, p: string)
    requires |rows| > 0 && p in Map(rows, PriorityOf)
    ensures var ins := ClassInsights(rows, pref)[2];
      ins.priority in Map(rows, PriorityOf) && ins.volume == Count(Map(rows, PriorityOf), ins.priority) &&
      Count(Map(rows, PriorityOf), p) <= ins.volume &&
      ins.percentTenths == SD.PercentTenths(ins.volume, |rows|) &&
      (ins.urgent <==> exists t :: t in HighPriorityTerms && Contains(ins.priority, t))
  {
    TopValueIsMode(Map(rows, PriorityOf), p);
  }

  // ---------------------------------------------------------------------
  // The callback

  /** `prepare_classification_analysis_data` followed by the display columns, for the filtered tickets. */
  function PreparedRows(filtered: seq<WorkItem>, names: map<string, string>, titleize: string -> string): seq<ClassRow>
  {
    DisplayRows(filtered, names, titleize)
  }

  /**
   * `update_classification_analysis_chart` as written: with no matching tickets the empty
   * DataFrame that preparation returns reaches `not analysis_data`, which raises, and the
   * callback shows the error figure and the error lines.
   */
  function ClassificationPanelAsWritten(items: seq<WorkItem>, stored: Option<Store>, view: Option<string>, pref: Option<string>,
                                        names: map<string, string>, titleize: string -> string): (r: (ClassChart, seq<ClassInsight>))
    ensures |SD.ApplyStatusFiltersAsWritten(items, stored)| == 0 ==> r == (ErrorChart, ClassErrorInsights)
  {
    var v := if view.None? then "stacked" else view.value;
    var p := if pref.None? then "top5" else pref.value;
    var rows := PreparedRows(SD.ApplyStatusFiltersAsWritten(items, stored), names, titleize);
    if |rows| == 0 then (ErrorChart, ClassErrorInsights) else (ChartFor(rows, v, p), ClassInsights(rows, p))
  }

  /** As intended: no matching tickets give the chart's own "no data" figure and the three no-data lines. */
  function ClassificationPanel(items: seq<WorkItem>, stored: Option<Store>, view: Option<string>, pref: Option<string>,
                               names: map<string, string>, titleize: string -> string): (r: (ClassChart, seq<ClassInsight>))
    ensures |SD.ApplyStatusFilters(items, stored)| == 0 <==> r.0 == NoDataChart
    ensures r.0 == NoDataChart <==> r.1 == ClassNoDataInsights
    ensures r.0 != ErrorChart && r.1 != ClassErrorInsights
    ensures r.0.HeatmapChart? <==> r.0 != NoDataChart && view == Some("heatmap")
  {
    ClassificationView(SD.ApplyStatusFilters(items, stored), view, pref, names, titleize)
  }

  /** The chart and the lines for the tickets that passed the filter. */
  function ClassificationView(filtered: seq<WorkItem>, view: Option<string>, pref: Option<string>,
                              names: map<string, string>, titleize: string -> string): (r: (ClassChart, seq<ClassInsight>))
    ensures |filtered| == 0 <==> r.0 == NoDataChart
    ensures r.0 == NoDataChart <==> r.1 == ClassNoDataInsights
    ensures r.0 != ErrorChart && r.1 != ClassErrorInsights
    ensures r.0.HeatmapChart? <==> r.0 != NoDataChart && view == Some("heatmap")
  {
    var v := if view.None? then "stacked" else view.value;
    var p := if pref.None? then "top5" else pref.value;
    var rows := PreparedRows(filtered, names, titleize);
    if |rows| == 0 then (NoDataChart, ClassNoDataInsights)
    else
      var ins := ClassInsights(rows, p);
      assert ins[0] != ClassNoDataInsights[0] && ins[0] != ClassErrorInsights[0];
      (ChartFor(rows, v, p), ins)
  }

  /** On tickets none of which match, the panel as written shows the error state where the intended one shows no data. */
  lemma EmptySelectionRaises(stored: Option<Store>, view: Option<string>, pref: Option<string>,
                             names: map<string, string>, titleize: string -> string)
    ensures ClassificationPanelAsWritten([], stored, view, pref, names, titleize) == (ErrorChart, ClassErrorInsights)
    ensures ClassificationPanel([], stored, view, pref, names, titleize) == (NoDataChart, ClassNoDataInsights)
  {
  }

  /** The view shown, the active button and the chart drawn agree. */
  lemma ButtonsMatchChart(items: seq<WorkItem>, stored: Option<Store>, view: Option<string>, pref: Option<string>,
                          names: map<string, string>, titleize: string -> string)
    requires ClassificationPanel(items, stored, view, pref, names, titleize).0 != NoDataChart
    ensures ClassViewButtons(view).1 <==> ClassificationPanel(items, stored, view, pref, names, titleize).0.HeatmapChart?
  {
  }
}
