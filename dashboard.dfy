/** The dashboard session: the sheet is checked for its required columns,
    loaded into a table that is filtered and given its derived columns in
    place, and then each selected analysis is rendered in turn, some of them
    adding a column to the table as they go. */
module Dashboard {
  import opened Seqs
  import opened Orders
  import opened Schema
  import opened Grouping
  import opened Analyses
  import opened Reports

  /** The column list after assigning column `name`: unchanged when it is
      already there, otherwise extended at the end. */
  function WithColumn(columns: seq<string>, name: string): (out: seq<string>)
    ensures name in out
    ensures forall c :: c in out <==> c in columns || c == name
    ensures columns <= out && |out| <= |columns| + 1
    ensures name in columns ==> out == columns
  {
    if name in columns then columns else columns + [name]
  }

  /** The columns after the profit and margin assignments. */
  function PreparedColumns(columns: seq<string>): seq<string>
  {
    WithColumn(WithColumn(columns, "profit"), "profit_margin_pct")
  }

  /** The columns after rendering `view`: the trend adds month, the unit
      price view adds unit_price when it is computed. */
  function ViewColumns(view: Analysis, columns: seq<string>): (out: seq<string>)
    ensures columns <= out
    ensures forall c :: c in out <==>
              || c in columns
              || (c == "month" && view == MonthlySalesTrend)
              || (c == "unit_price" && view == UnitPriceDistribution && "order_quantity" in columns)
  {
    match view
    case MonthlySalesTrend => WithColumn(columns, "month")
    case UnitPriceDistribution =>
      if "order_quantity" in columns then WithColumn(columns, "unit_price") else columns
    case _ => columns
  }

  /** The rows after rendering `view`. */
  function ViewRows(view: Analysis, columns: seq<string>, rows: seq<Row>): (out: seq<Row>)
    ensures SameCore(rows, out)
  {
    var out :=
      match view
      case MonthlySalesTrend => MapRows(rows, WithMonth)
      case UnitPriceDistribution =>
        if "order_quantity" in columns then MapRows(rows, WithUnitPrice) else rows
      case _ => rows;
    assert forall i :: 0 <= i < |rows| ==> Core(out[i]) == Core(rows[i]);
    out
  }

  /** The reports of a run of views over one prepared table, the columns
      growing as the views add theirs. */
  function ReportsOf(views: seq<Analysis>, columns: seq<string>, rows: seq<Row>): (reports: seq<Report>)
    ensures |reports| == |views|
    ensures views != [] ==> reports[0] == ReportOf(views[0], columns, rows)
  {
    if views == [] then []
    else [ReportOf(views[0], columns, rows)] + ReportsOf(views[1..], ViewColumns(views[0], columns), rows)
  }

  /** The columns after a run of views. */
  function ColumnsAfter(views: seq<Analysis>, columns: seq<string>): seq<string>
  {
    if views == [] then columns else ColumnsAfter(views[1..], ViewColumns(views[0], columns))
  }

  /** The rows after a run of views, each view writing its cells in turn. */
  function RowsAfter(views: seq<Analysis>, columns: seq<string>, rows: seq<Row>): (out: seq<Row>)
    ensures SameCore(rows, out)
  {
    if views == [] then rows
    else RowsAfter(views[1..], ViewColumns(views[0], columns), ViewRows(views[0], columns, rows))
  }

  /** After a run, a row's month is the month of its order date when the run
      held the trend, and is as it was otherwise. */
  lemma {:induction false} RowsAfterMonth(views: seq<Analysis>, columns: seq<string>, rows: seq<Row>, i: nat)
    requires i < |rows|
    ensures RowsAfter(views, columns, rows)[i].month
            == if MonthlySalesTrend in views then WithMonth(rows[i]).month else rows[i].month
    decreases |views|
  {
    if views != [] {
      var rows' := ViewRows(views[0], columns, rows);
      assert RowsAfter(views, columns, rows) == RowsAfter(views[1..], ViewColumns(views[0], columns), rows');
      RowsAfterMonth(views[1..], ViewColumns(views[0], columns), rows', i);
      ViewCells(views[0], columns, rows, i);
      InRun(views, MonthlySalesTrend);
    }
  }

  /** After a run, a row's unit_price is revenue / order_quantity when the run
      held the unit price view and the table had order_quantity, and is as it
      was otherwise. */
  lemma {:induction false} RowsAfterUnitPrice(views: seq<Analysis>, columns: seq<string>, rows: seq<Row>, i: nat)
    requires i < |rows|
    ensures RowsAfter(views, columns, rows)[i].unitPrice
            == if UnitPriceDistribution in views && "order_quantity" in columns
               then UnitPrice(rows[i]) else rows[i].unitPrice
    decreases |views|
  {
    if views != [] {
      var columns' := ViewColumns(views[0], columns);
      var rows' := ViewRows(views[0], columns, rows);
      assert RowsAfter(views, columns, rows) == RowsAfter(views[1..], columns', rows');
      RowsAfterUnitPrice(views[1..], columns', rows', i);
      ViewCells(views[0], columns, rows, i);
      assert UnitPrice(rows'[i]) == UnitPrice(rows[i]);
      KeepsQuantityColumn(views[0], columns);
      InRun(views, UnitPriceDistribution);
    }
  }

  lemma InRun(views: seq<Analysis>, view: Analysis)
    requires views != []
    ensures view in views <==> views[0] == view || view in views[1..]
  {
    assert views == [views[0]] + views[1..];
  }

  /** No view adds or removes order_quantity. */
  lemma KeepsQuantityColumn(view: Analysis, columns: seq<string>)
    ensures "order_quantity" in ViewColumns(view, columns) <==> "order_quantity" in columns
  {
  }

  /** The cells one view writes into row i. */
  lemma ViewCells(view: Analysis, columns: seq<string>, rows: seq<Row>, i: nat)
    requires i < |rows|
    ensures var r := ViewRows(view, columns, rows)[i];
            && r.month == (if view == MonthlySalesTrend then WithMonth(rows[i]).month else rows[i].month)
            && r.unitPrice == (if view == UnitPriceDistribution && "order_quantity" in columns
                               then UnitPrice(rows[i]) else rows[i].unitPrice)
            && r.date == rows[i].date && r.quantity == rows[i].quantity && r.revenue == rows[i].revenue
  {
    assert Core(ViewRows(view, columns, rows)[i]) == Core(rows[i]);
  }

  /** A run of views adds month when it holds the trend, unit_price when it
      holds the unit price view and the table has order_quantity, and no
      other column; it removes none. */
  lemma {:induction false} ColumnsAfterRun(views: seq<Analysis>, columns: seq<string>, c: string)
    ensures columns <= ColumnsAfter(views, columns)
    ensures c in ColumnsAfter(views, columns) <==>
              || c in columns
              || (c == "month" && MonthlySalesTrend in views)
              || (c == "unit_price" && UnitPriceDistribution in views && "order_quantity" in columns)
    decreases |views|
  {
    if views != [] {
      var next := ViewColumns(views[0], columns);
      ColumnsAfterRun(views[1..], next, c);
      assert views == [views[0]] + views[1..];
      assert "order_quantity" in next <==> "order_quantity" in columns;
    }
  }

  /** The i-th report of a run is the i-th view on the columns the views
      before it left. */
  lemma {:induction false} ReportsAt(views: seq<Analysis>, columns: seq<string>, rows: seq<Row>, i: nat)
    requires i < |views|
    ensures ReportsOf(views, columns, rows)[i] == ReportOf(views[i], ColumnsAfter(views[..i], columns), rows)
    decreases i
  {
    if i > 0 {
      var next := ViewColumns(views[0], columns);
      ReportsAt(views[1..], next, rows, i - 1);
      assert views[..i][1..] == views[1..][..i - 1];
    }
  }

  /** A heatmap rendered in a run correlates unit_price exactly when the
      sheet had that column, or had order_quantity and the unit price view
      was rendered earlier in the run. */
  lemma HeatmapSeesUnitPrice(views: seq<Analysis>, columns: seq<string>, rows: seq<Row>, i: nat)
    requires i < |views| && views[i] == CorrelationHeatmap
    ensures var report := ReportsOf(views, columns, rows)[i];
            && report.CorrelationReport?
            && ("unit_price" in report.numeric <==>
                  "unit_price" in columns || ("order_quantity" in columns && UnitPriceDistribution in views[..i]))
  {
    ReportsAt(views, columns, rows, i);
    var seen := ColumnsAfter(views[..i], columns);
    assert ReportOf(CorrelationHeatmap, seen, rows) == CorrelationReport(NumericColumns(seen));
    assert "unit_price" != "month";
    ColumnsAfterRun(views[..i], columns, "unit_price");
  }

  /** In the multi-tab layout the heatmap comes last, after the unit price
      view. */
  lemma MultiTabHeatmap(columns: seq<string>, rows: seq<Row>)
    ensures var report := ReportsOf(AllAnalyses, columns, rows)[7];
            && report.CorrelationReport?
            && ("unit_price" in report.numeric <==> "unit_price" in columns || "order_quantity" in columns)
  {
    var views := AllAnalyses;
    assert views[..7][2] == UnitPriceDistribution;
    HeatmapSeesUnitPrice(views, columns, rows, 7);
  }

  /** The table being analysed: its column names and its rows. */
  class DataFrame {
    var columns: seq<string>
    var rows: seq<Row>

    constructor(columns: seq<string>, rows: seq<Row>)
      ensures this.columns == columns && this.rows == rows
    {
      this.columns := columns;
      this.rows := rows;
    }

    /** df = df[mask]: keeps the rows satisfying `p`, in order. */
    method KeepRows(p: Row -> bool)
      modifies this
      ensures rows == Filter(old(rows), p)
      ensures columns == old(columns)
    {
      var all := rows;
      var kept: seq<Row> := [];
      var i := 0;
      while i < |all|
        invariant 0 <= i <= |all|
        invariant kept == Filter(all[..i], p)
        invariant columns == old(columns)
      {
        FilterPrefix(all, i, p);
        if p(all[i]) {
          kept := kept + [all[i]];
        }
        i := i + 1;
      }
      assert all[..|all|] == all;
      rows := kept;
    }

    /** Assigns a derived column cell by cell: row i becomes f(row i). */
    method ApplyToEachRow(f: Row -> Row)
      modifies this
      ensures rows == MapRows(old(rows), f)
      ensures columns == old(columns)
    {
      var i := 0;
      while i < |rows|
        invariant 0 <= i <= |rows| && |rows| == |old(rows)|
        invariant forall j :: 0 <= j < i ==> rows[j] == f(old(rows)[j])
        invariant forall j :: i <= j < |rows| ==> rows[j] == old(rows)[j]
        invariant columns == old(columns)
      {
        rows := rows[i := f(rows[i])];
        i := i + 1;
      }
    }

    /** Drops the rows whose order_date did not parse. */
    method DropUndated()
      modifies this
      ensures rows == Filter(old(rows), Dated) && columns == old(columns)
    {
      KeepRows(Dated);
    }

    /** Keeps the rows whose year is in [lo, hi]. */
    method KeepYears(lo: int, hi: int)
      modifies this
      ensures rows == Filter(old(rows), InYears(lo, hi)) && columns == old(columns)
    {
      KeepRows(InYears(lo, hi));
    }

    method AddProfit()
      modifies this
      ensures rows == MapRows(old(rows), WithProfit)
      ensures columns == WithColumn(old(columns), "profit")
    {
      ApplyToEachRow(WithProfit);
      columns := WithColumn(columns, "profit");
    }

    method AddMargin()
      modifies this
      ensures rows == MapRows(old(rows), WithMargin)
      ensures columns == WithColumn(old(columns), "profit_margin_pct")
    {
      ApplyToEachRow(WithMargin);
      columns := WithColumn(columns, "profit_margin_pct");
    }

    method AddMonth()
      modifies this
      ensures rows == MapRows(old(rows), WithMonth)
      ensures columns == WithColumn(old(columns), "month")
    {
      ApplyToEachRow(WithMonth);
      columns := WithColumn(columns, "month");
    }

    method AddUnitPrice()
      modifies this
      ensures rows == MapRows(old(rows), WithUnitPrice)
      ensures columns == WithColumn(old(columns), "unit_price")
    {
      ApplyToEachRow(WithUnitPrice);
      columns := WithColumn(columns, "unit_price");
    }

    /** Renders one view: the trend assigns the month column first, the
      unit price view assigns unit_price first when order_quantity is a
      column; the report is the view's report on the table as it was. */
    method Analyze(view: Analysis) returns (report: Report)
      modifies this
      ensures report == ReportOf(view, old(columns), old(rows))
      ensures columns == ViewColumns(view, old(columns))
      ensures rows == ViewRows(view, old(columns), old(rows))
    {
      match view
      case MonthlySalesTrend =>
        AddMonth();
        report := MonthlyTrendReport(MonthlyRevenue(rows));
      case UnitPriceDistribution =>
        if "order_quantity" in columns {
          var picked := PickedProducts(rows);
          AddUnitPrice();
          report := UnitPriceReport(picked, PricePoints(rows, KeySet(picked)));
        } else {
          report := UnitPriceUnavailable;
        }
      case CorrelationHeatmap =>
        report := CorrelationReport(NumericColumns(columns));
      case _ =>
        report := ReportOf(view, columns, rows);
    }
  }

  /** The outcome of a session: the sheet is rejected with the required
      columns it lacks, or loaded with its row count and one report per
      rendered view. */
  datatype Outcome =
    | Rejected(missing: seq<string>)
    | Loaded(count: nat, reports: seq<Report>)

  /** Every view is offered in the multi-tab layout, once. */
  lemma EveryViewOffered(view: Analysis)
    ensures view in AllAnalyses
    ensures forall i, j :: 0 <= i < j < |AllAnalyses| ==> AllAnalyses[i] != AllAnalyses[j]
  {
    match view
    case MonthlySalesTrend => assert AllAnalyses[0] == view;
    case TopProductsView => assert AllAnalyses[1] == view;
    case UnitPriceDistribution => assert AllAnalyses[2] == view;
    case TopStatesView => assert AllAnalyses[3] == view;
    case ProfitMarginByChannel => assert AllAnalyses[4] == view;
    case TopBottomCustomers => assert AllAnalyses[5] == view;
    case CustomerSegmentation => assert AllAnalyses[6] == view;
    case CorrelationHeatmap => assert AllAnalyses[7] == view;
  }

  /** The views rendered: the one chosen in single view, else every view,
      each once. */
  function Selection(singleView: bool, chosen: Analysis): (views: seq<Analysis>)
    ensures singleView ==> views == [chosen]
    ensures !singleView ==>
              && |views| == 8
              && (forall v: Analysis :: v in views)
              && (forall i, j :: 0 <= i < j < |views| ==> views[i] != views[j])
  {
    if singleView then [chosen]
    else
      EveryViewOffered(chosen);
      AllViewsOffered();
      AllAnalyses
  }

  lemma AllViewsOffered()
    ensures forall v: Analysis :: v in AllAnalyses
  {
    forall v: Analysis ensures v in AllAnalyses {
      EveryViewOffered(v);
    }
  }

  /** Reads the sheet into a table, drops the undated rows and those outside
      2014..2017, and assigns profit and profit_margin_pct. */
  method Load(columns: seq<string>, rows: seq<Row>) returns (df: DataFrame)
    ensures fresh(df)
    ensures df.rows == Prepare(rows, MinYear, MaxYear)
    ensures df.columns == PreparedColumns(columns)
  {
    df := new DataFrame(columns, rows);
    df.DropUndated();
    df.KeepYears(MinYear, MaxYear);
    df.AddProfit();
    df.AddMargin();
    var kept := Normalize(rows, MinYear, MaxYear);
    assert df.rows == MapRows(MapRows(kept, WithProfit), WithMargin);
    assert df.rows == MapRows(kept, Derive);
  }

  /** Renders the views in turn on one table. Each report is the view's
      report on the prepared rows and the columns the earlier views left;
      the views change only month and unit_price cells. */
  method Render(df: DataFrame, views: seq<Analysis>) returns (reports: seq<Report>)
    modifies df
    ensures reports == ReportsOf(views, old(df.columns), old(df.rows))
    ensures df.columns == ColumnsAfter(views, old(df.columns))
    ensures df.rows == RowsAfter(views, old(df.columns), old(df.rows))
  {
    ghost var rows0 := df.rows;
    ghost var columns0 := df.columns;
    reports := [];
    var i := 0;
    while i < |views|
      invariant 0 <= i <= |views|
      invariant SameCore(rows0, df.rows)
      invariant reports + ReportsOf(views[i..], df.columns, rows0) == ReportsOf(views, columns0, rows0)
      invariant ColumnsAfter(views[i..], df.columns) == ColumnsAfter(views, columns0)
      invariant RowsAfter(views[i..], df.columns, df.rows) == RowsAfter(views, columns0, rows0)
    {
      ghost var columns1 := df.columns;
      ghost var rows1 := df.rows;
      var report := df.Analyze(views[i]);
      RenderStep(views, i, columns0, rows0, reports, columns1, rows1, report, df.columns, df.rows);
      RowsStep(views, i, columns1, rows1);
      reports := reports + [report];
      i := i + 1;
    }
  }

  /** One turn of the render loop: the view's report on the current rows is
      its report on the prepared rows, and the run so far extends by it. */
  lemma RenderStep(views: seq<Analysis>, i: nat, columns0: seq<string>, rows0: seq<Row>,
                   reports: seq<Report>, columns: seq<string>, rows: seq<Row>,
                   report: Report, columns': seq<string>, rows': seq<Row>)
    requires i < |views|
    requires SameCore(rows0, rows)
    requires reports + ReportsOf(views[i..], columns, rows0) == ReportsOf(views, columns0, rows0)
    requires ColumnsAfter(views[i..], columns) == ColumnsAfter(views, columns0)
    requires report == ReportOf(views[i], columns, rows)
    requires columns' == ViewColumns(views[i], columns) && rows' == ViewRows(views[i], columns, rows)
    ensures SameCore(rows0, rows')
    ensures (reports + [report]) + ReportsOf(views[i + 1..], columns', rows0) == ReportsOf(views, columns0, rows0)
    ensures ColumnsAfter(views[i + 1..], columns') == ColumnsAfter(views, columns0)
  {
    ReportOfCore(views[i], columns, rows, rows0);
    RunStep(views, i, columns, rows0);
  }

  /** A run from position i is the view at i followed by the run from i + 1
      on the columns that view left. */
  lemma RunStep(views: seq<Analysis>, i: nat, columns: seq<string>, rows: seq<Row>)
    requires i < |views|
    ensures ReportsOf(views[i..], columns, rows)
            == [ReportOf(views[i], columns, rows)] + ReportsOf(views[i + 1..], ViewColumns(views[i], columns), rows)
    ensures ColumnsAfter(views[i..], columns) == ColumnsAfter(views[i + 1..], ViewColumns(views[i], columns))
  {
    assert views[i..][1..] == views[i + 1..];
  }

  /** A run from position i writes the cells of the view at i, then those of
      the run from i + 1. */
  lemma RowsStep(views: seq<Analysis>, i: nat, columns: seq<string>, rows: seq<Row>)
    requires i < |views|
    ensures RowsAfter(views[i..], columns, rows)
            == RowsAfter(views[i + 1..], ViewColumns(views[i], columns), ViewRows(views[i], columns, rows))
  {
    assert views[i..][1..] == views[i + 1..];
  }

  /** One session over a sheet with the given columns and rows. Nothing is
      processed when a required column is missing; otherwise the count is
      the number of rows with a parsed date in 2014..2017, and the i-th
      report is the i-th selected view on the prepared table, with the
      columns the earlier views left. */
  method RunDashboard(columns: seq<string>, rows: seq<Row>, singleView: bool, chosen: Analysis)
    returns (outcome: Outcome)
    ensures outcome.Rejected? <==> Missing(columns) != []
    ensures outcome.Rejected? ==> outcome.missing == Missing(columns)
    ensures outcome.Loaded? ==>
              && outcome.count == |Normalize(rows, MinYear, MaxYear)|
              && outcome.reports == ReportsOf(Selection(singleView, chosen), PreparedColumns(columns), Prepare(rows, MinYear, MaxYear))
  {
    var missing := Missing(columns);
    if missing != [] {
      return Rejected(missing);
    }
    var df := Load(columns, rows);
    var count := |df.rows|;
    var reports := Render(df, Selection(singleView, chosen));
    return Loaded(count, reports);
  }
}
