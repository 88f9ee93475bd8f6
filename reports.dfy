/** The analysis views the dashboard offers and the report each one yields
    on a prepared table. */
module Reports {
  import opened Seqs
  import opened Orders
  import opened Grouping
  import opened Ranking
  import opened Analyses

  datatype Analysis =
    | MonthlySalesTrend
    | TopProductsView
    | UnitPriceDistribution
    | TopStatesView
    | ProfitMarginByChannel
    | TopBottomCustomers
    | CustomerSegmentation
    | CorrelationHeatmap

  /** The views in the order the multi-tab layout shows them. */
  const AllAnalyses: seq<Analysis> := [
    MonthlySalesTrend, TopProductsView, UnitPriceDistribution, TopStatesView,
    ProfitMarginByChannel, TopBottomCustomers, CustomerSegmentation, CorrelationHeatmap]

  /** What a view hands to its chart. */
  datatype Report =
    | MonthlyTrendReport(months: seq<real>)
    | ProductRevenueReport(products: seq<Group>)
    | UnitPriceReport(picked: seq<Group>, points: seq<(string, Option<real>)>)
    | UnitPriceUnavailable
    | StateReport(byRevenue: seq<Group>, byOrders: seq<Group>)
    | ChannelMarginReport(channels: seq<Group>)
    | CustomerReport(top: seq<Group>, bottom: seq<Group>)
    | SegmentReport(segments: seq<Group>)
    | CorrelationReport(numeric: seq<string>)

  /** The columns the correlation matrix is taken over: the four money
      columns, then order_quantity and unit_price where the table has them. */
  function NumericColumns(columns: seq<string>): (numeric: seq<string>)
    ensures |numeric| >= 4 && numeric[..4] == ["revenue", "total_cost", "profit", "profit_margin_pct"]
    ensures |numeric| == 4 + (if "order_quantity" in columns then 1 else 0) + (if "unit_price" in columns then 1 else 0)
    ensures "order_quantity" in numeric <==> "order_quantity" in columns
    ensures "unit_price" in numeric <==> "unit_price" in columns
    ensures "order_quantity" in columns ==> numeric[4] == "order_quantity"
  {
    ["revenue", "total_cost", "profit", "profit_margin_pct"]
      + (if "order_quantity" in columns then ["order_quantity"] else [])
      + (if "unit_price" in columns then ["unit_price"] else [])
  }

  /** The report of `view` on a table with the given columns and rows. The
      unit price view is computed only when order_quantity is a column. */
  function ReportOf(view: Analysis, columns: seq<string>, rows: seq<Row>): (report: Report)
    ensures view == UnitPriceDistribution ==>
              (report.UnitPriceReport? <==> "order_quantity" in columns)
              && (report.UnitPriceUnavailable? <==> "order_quantity" !in columns)
  {
    match view
    case MonthlySalesTrend => MonthlyTrendReport(MonthlyTrend(rows))
    case TopProductsView => ProductRevenueReport(TopProducts(rows))
    case UnitPriceDistribution =>
      if "order_quantity" in columns then
        var picked := PickedProducts(rows);
        UnitPriceReport(picked, PricePoints(MapRows(rows, WithUnitPrice), KeySet(picked)))
      else
        UnitPriceUnavailable
    case TopStatesView =>
      var tops := TopStates(rows);
      StateReport(tops.0, tops.1)
    case ProfitMarginByChannel => ChannelMarginReport(ChannelMargins(rows))
    case TopBottomCustomers =>
      var views := CustomerExtremes(rows);
      CustomerReport(views.0, views.1)
    case CustomerSegmentation => SegmentReport(CustomerSegments(rows))
    case CorrelationHeatmap => CorrelationReport(NumericColumns(columns))
  }

  /** When the view is drawn, each point is a row of a picked product with
      that row's revenue / order_quantity, in table order. */
  lemma UnitPricePoints(columns: seq<string>, rows: seq<Row>)
    requires "order_quantity" in columns
    ensures var report := ReportOf(UnitPriceDistribution, columns, rows);
            var sel := RowsOf(rows, KeySet(report.picked));
            && report.picked == PickedProducts(rows)
            && |report.points| == |sel|
            && forall k :: 0 <= k < |sel| ==> report.points[k] == (sel[k].product, UnitPrice(sel[k]))
  {
    var report := ReportOf(UnitPriceDistribution, columns, rows);
    var products := KeySet(report.picked);
    var priced := MapRows(rows, WithUnitPrice);
    PricedSelection(rows, products);
  }

  /** Pricing the rows then selecting equals selecting then pricing. */
  lemma {:induction false} PricedSelection(rows: seq<Row>, products: set<string>)
    ensures RowsOf(MapRows(rows, WithUnitPrice), products) == MapRows(RowsOf(rows, products), WithUnitPrice)
    decreases |rows|
  {
    if rows != [] {
      var n := |rows| - 1;
      var r := rows[n];
      PricedSelection(rows[..n], products);
      assert rows == rows[..n] + [r];
      var priced := MapRows(rows, WithUnitPrice);
      assert MapRows(rows[..n], WithUnitPrice) == priced[..n];
      assert priced == priced[..n] + [WithUnitPrice(r)];
      FilterSnoc(priced[..n], WithUnitPrice(r), ProductIn(products));
      FilterSnoc(rows[..n], r, ProductIn(products));
      var pre := RowsOf(rows[..n], products);
      if r.product in products {
        assert MapRows(pre + [r], WithUnitPrice) == MapRows(pre, WithUnitPrice) + [WithUnitPrice(r)];
      }
    }
  }

  /** No view reads the month or unit_price cells the sheet brought or an
      earlier view wrote: two tables that agree elsewhere yield the same
      report. */
  lemma ReportOfCore(view: Analysis, columns: seq<string>, a: seq<Row>, b: seq<Row>)
    requires SameCore(a, b)
    ensures ReportOf(view, columns, a) == ReportOf(view, columns, b)
  {
    match view
    case MonthlySalesTrend =>
      var ma := MapRows(a, WithMonth);
      var mb := MapRows(b, WithMonth);
      forall i | 0 <= i < |ma| ensures ma[i].month == mb[i].month && ma[i].revenue == mb[i].revenue {
        assert Core(a[i]) == Core(b[i]);
      }
      MonthlyRevenueCongruent(ma, mb);
    case TopProductsView =>
      GroupByCore(a, b, ProductName);
    case UnitPriceDistribution =>
      GroupByCore(a, b, ProductName);
      var pa := MapRows(a, WithUnitPrice);
      var pb := MapRows(b, WithUnitPrice);
      forall i | 0 <= i < |pa| ensures pa[i].product == pb[i].product && pa[i].unitPrice == pb[i].unitPrice {
        assert Core(a[i]) == Core(b[i]);
      }
      PricePointsCongruent(pa, pb, KeySet(PickedProducts(a)));
    case TopStatesView =>
      GroupByCore(a, b, State);
    case ProfitMarginByChannel =>
      GroupByCore(a, b, Channel);
    case TopBottomCustomers =>
      GroupByCore(a, b, CustomerName);
    case CustomerSegmentation =>
      GroupByCore(a, b, CustomerName);
    case CorrelationHeatmap =>
  }
}
