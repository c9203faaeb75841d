/**
 * The product-impact panel: tickets counted per (Product, Feature) pair,
 * the pairs ranked by ticket count and cut to the chosen number, the summary
 * figures beneath the chart, and the chart-click modal.
 *
 * Its dataset filter is the source-analysis panel's, line for line (CreatedOn
 * required, CreatedOn from Day_From and ClosedOn up to Day_To, then the ten
 * memberships in the same order), so the model reuses `SourceFilter`.
 */
module WorkflowProductImpact {
  import opened Common
  import opened WorkflowData
  import opened WorkflowSourceAnalysis

  // ---------------------------------------------------------------------
  // Counting pairs (`groupby(['Product', 'Feature']).size()`)

  datatype Pair = Pair(product: string, feature: string)

  /** `groupby` drops a row whose Product or Feature is null. */
  function PairOf(w: WorkItem): Option<Pair>
  {
    if w.product.Some? && w.feature.Some? then Some(Pair(w.product.value, w.feature.value)) else None
  }

  /** The grouping keys of the rows that have both columns, in row order. */
  function Pairs(items: seq<WorkItem>): seq<Pair>
  {
    Somes(Map(items, PairOf))
  }

  /** `groupby(['Product', 'Feature']).size().sort_values('TicketCount', ascending=False).head(top_count)`. */
  function ImpactTable(items: seq<WorkItem>, topCount: int): seq<(Pair, nat)>
  {
    SliceTo(ValueCounts(Pairs(items)), topCount)
  }

  /**
   * The table shows at most `top_count` rows, the leading part of the full
   * ranking, in non-increasing ticket order; each row is an occurring pair
   * with its number of tickets, and the first row carries the largest count
   * of any pair.
   */
  lemma ImpactTableSpec(items: seq<WorkItem>, topCount: int)
    ensures var t, all := ImpactTable(items, topCount), ValueCounts(Pairs(items));
      t <= all &&
      (topCount >= 0 ==> |t| <= topCount && (topCount >= |all| ==> t == all)) &&
      (forall e :: e in t ==> e.0 in Pairs(items) && e.1 == Count(Pairs(items), e.0)) &&
      (forall i, j :: 0 <= i < j < |t| ==> t[i].1 >= t[j].1) &&
      (|t| > 0 ==> forall p :: p in Pairs(items) ==> t[0].1 >= Count(Pairs(items), p))
  {
    var pairs := Pairs(items);
    var t, all := ImpactTable(items, topCount), ValueCounts(pairs);
    forall e | e in t ensures e.0 in pairs && e.1 == Count(pairs, e.0) {
      assert e in all;
      ValueCountsEntry(pairs, e);
    }
    forall i, j | 0 <= i < j < |t| ensures t[i].1 >= t[j].1 {
      ValueCountsOrdered(pairs, i, j);
    }
    forall p | |t| > 0 && p in pairs ensures t[0].1 >= Count(pairs, p) {
      ValueCountsTop(pairs, p);
    }
  }

  // ---------------------------------------------------------------------
  // The summary

  datatype Summary = Summary(totalTickets: nat, numProducts: nat, numFeatures: nat,
                             topProduct: string, topFeature: string, topCount: nat)

  function ProductOf(w: WorkItem): Option<string>
  {
    w.product
  }

  function FeatureOf(w: WorkItem): Option<string>
  {
    w.feature
  }

  /** The summary dictionary: counts over all filtered rows, the top fields from the table's first row. */
  function Summarize(items: seq<WorkItem>, table: seq<(Pair, nat)>): Summary
  {
    Summary(|items|,
            |set p | p in Somes(Map(items, ProductOf))|,
            |set f | f in Somes(Map(items, FeatureOf))|,
            if |table| > 0 then table[0].0.product else "N/A",
            if |table| > 0 then table[0].0.feature else "N/A",
            if |table| > 0 then table[0].1 else 0)
  }

  /** `prepare_product_impact_data`: an empty frame gives an empty table and an empty summary (None). */
  function PrepareImpact(items: seq<WorkItem>, topCount: int): (seq<(Pair, nat)>, Option<Summary>)
  {
    if |items| == 0 then ([], None)
    else
      var table := ImpactTable(items, topCount);
      (table, Some(Summarize(items, table)))
  }

  /**
   * The total counts every filtered row whatever the cut; the top fields are
   * the first row's, or "N/A" and 0 when no row has both columns, and the top
   * count is then the largest count of any pair.
   */
  lemma PrepareImpactSpec(items: seq<WorkItem>, topCount: int, otherCount: int)
    ensures var (table, summary) := PrepareImpact(items, topCount);
      (summary.None? <==> |items| == 0) &&
      (summary.Some? ==>
        summary.value.totalTickets == |items| &&
        PrepareImpact(items, otherCount).1.value.totalTickets == summary.value.totalTickets &&
        (|table| == 0 ==> summary.value.topProduct == "N/A" && summary.value.topFeature == "N/A" && summary.value.topCount == 0) &&
        (|table| > 0 ==>
           (Pair(summary.value.topProduct, summary.value.topFeature) in Pairs(items) &&
            summary.value.topCount == Count(Pairs(items), Pair(summary.value.topProduct, summary.value.topFeature)) &&
            forall p :: p in Pairs(items) ==> summary.value.topCount >= Count(Pairs(items), p))))
  {
    if |items| > 0 {
      var table := ImpactTable(items, topCount);
      if |table| > 0 {
        ImpactTableSpec(items, topCount);
        assert table[0] in table;
      }
    }
  }

  /** No row has a pair exactly when no row has both Product and Feature. */
  lemma PairsEmpty(items: seq<WorkItem>)
    ensures Pairs(items) == [] <==> forall w :: w in items ==> w.product.None? || w.feature.None?
  {
    var cells := Map(items, PairOf);
    if Pairs(items) == [] {
      forall w | w in items ensures w.product.None? || w.feature.None? {
        var i :| 0 <= i < |items| && items[i] == w;
        assert cells[i] == PairOf(w) && cells[i] in cells;
      }
    } else {
      var p := Pairs(items)[0];
      assert p in Pairs(items);
      var i :| 0 <= i < |cells| && cells[i] == Some(p);
      assert items[i] in items;
    }
  }

  // ---------------------------------------------------------------------
  // The chart modal

  /** `toggle_product_impact_chart_modal`: a click on the chart opens a closed modal; otherwise nothing is updated (None). */
  function ChartModal(trigger: Option<string>, clicked: bool, isOpen: bool): (r: Option<bool>)
    ensures r.Some? ==> r.value
  {
    if trigger == Some("workflow-product-impact-chart") && clicked && !isOpen then Some(true) else None
  }

  /** The modal is opened exactly by a chart click while closed, and this callback never closes it. */
  lemma ChartModalSpec(trigger: Option<string>, clicked: bool, isOpen: bool)
    ensures ChartModal(trigger, clicked, isOpen) == Some(true) <==>
      (trigger == Some("workflow-product-impact-chart") && clicked && !isOpen)
    ensures ChartModal(trigger, clicked, isOpen) != Some(false)
  {
  }
}
