# Retail sales dashboard: verified model of the aggregation core

This project models the analytics core of `sales_dashboard.py`, a one-page
sales dashboard over an order sheet. It covers five steps:

- **The required-column check.** The sheet is rejected, and nothing else happens, when any of `order_date`, `customer_name`, `product_name`, `channel`, `state`, `revenue` or `total_cost` is absent.
- **Normalisation.** Rows whose order date did not parse are dropped, then only years 2014 to 2017 are kept. The number of surviving rows is reported.
- **Derived columns.** `profit = revenue - total_cost` and `profit_margin_pct = profit / revenue * 100` are added. The views add `month` and, when `order_quantity` exists, `unit_price = revenue / order_quantity`.
- **The analysis views**, each a group-by with a reduction, a sort and a truncation:
  - the monthly revenue trend, re-indexed to months 1..12;
  - the top 15 products by revenue;
  - the unit prices of the 10 products with the most rows;
  - the top 10 states by revenue and the top 10 by row count;
  - channels by mean margin;
  - the top and bottom 10 customers by revenue;
  - the per-customer segmentation table.
- **The session.** The table (`DataFrame`) is filtered and extended in place. Then the selected views run in turn: one view in single-view mode, all eight in multi-tab mode. Some views add a column as they go.

The files are:

- `seqs.dfy`: the order-preserving filter, the positions it keeps, and head and tail truncation.
- `orders.dfy`: order rows, normalisation, the per-row derived columns, and column sums.
- `schema.dfy`: the required-column check.
- `grouping.dfy`: the group-by as one pass over the rows, with a per-key reference definition (`Summary`) and the proof that the two agree.
- `ranking.dfy`: the descending sort (an insertion sort) and the top-N truncation.
- `analyses.dfy`: the views' aggregates and their properties.
- `reports.dfy`: the report each view yields, and the proof that no view depends on what the earlier views wrote.
- `dashboard.dfy`: the `DataFrame` class and its in-place methods, and the session (`RunDashboard`).

Modelling choices:

- Money is exact (`real`).
- A parsed date is an `Option<Date>`.
- A division with no finite result (margin at zero revenue; unit price at a missing or zero quantity) is `None`. Means are taken over the finite margins only.
- Sorts promise non-increasing order only. Ties are left in no particular order.

## Model

| member | source | states |
|---|---|---|
| Schema.Missing | sales_dashboard.py:20-22 | the missing list holds exactly the required columns absent from the sheet, so it is empty iff all seven are present; it has at most seven entries |
| Schema.MissingInOrder | sales_dashboard.py:21 | the missing list follows the order of the required list: its k-th entry is the required column at the k-th absent position |
| Orders.Normalize | sales_dashboard.py:25-27 | the surviving rows are exactly the rows with a parsed date whose year is in 2014..2017; dropping undated rows then filtering years equals one filter on the year range |
| Orders.NormalizeSelects | sales_dashboard.py:26-31 | the survivors keep their input order, and the reported count is the number of rows with a parsed in-range date |
| Orders.MarginPct | sales_dashboard.py:29 | the margin is finite iff revenue is non-zero, and then margin * revenue = profit * 100 |
| Orders.Derive | sales_dashboard.py:28-29 | profit = revenue - total_cost; margin as above; no other cell of the row changes |
| Orders.UnitPrice | sales_dashboard.py:77 | the unit price is finite iff the quantity is present and non-zero, and then unit price * quantity = revenue |
| Orders.Prepare | sales_dashboard.py:25-29 | row i of the prepared table is the i-th surviving row with its profit and margin derived, so each is in the year range |
| Grouping.MeanMargin | sales_dashboard.py:100 | a group's mean margin exists iff it has a finite margin, and then mean * count of finite margins = their sum |
| Grouping.SummaryOfSelection | sales_dashboard.py:88 | a key's group holds the revenue sum, row count, finite-margin sum and finite-margin count of exactly the rows with that key |
| Grouping.GroupBy | sales_dashboard.py:88 | the single-pass group-by yields one group per distinct key of the table, with distinct keys, each equal to that key's reductions |
| Grouping.GroupTotals | sales_dashboard.py:88 | the group counts add up to the number of rows and the group revenues to the table's revenue |
| Grouping.GroupCount | sales_dashboard.py:122-126 | a group-by has exactly as many groups as the table has distinct keys |
| Grouping.GroupByCore | sales_dashboard.py:61 | tables that differ only in the month and unit_price cells have the same group-by |
| Ranking.SortBy | sales_dashboard.py:100 | the sort yields a permutation of the groups, non-increasing in the metric; a group with no finite mean margin sorts last |
| Ranking.PermutationKeys | sales_dashboard.py:110 | a permutation of the groups has the same key set, and distinct keys stay distinct |
| Ranking.Ranked | sales_dashboard.py:110 | the sorted group-by is still a group-by of the table, is non-increasing, and has one entry per distinct key |
| Ranking.Top | sales_dashboard.py:91 | the top-n list has min(n, #keys) entries with distinct keys, each equal to its key's reductions; it is non-increasing, and every key left out ranks no higher than every key kept |
| Analyses.MonthRevenueIsSelection | sales_dashboard.py:62 | the running monthly sum equals the revenue of the rows selected by that month |
| Analyses.MonthlyRevenue | sales_dashboard.py:62 | there are always twelve entries, and entry i is the revenue of the rows of month i + 1, zero for a month without rows |
| Analyses.MonthlyTotal | sales_dashboard.py:62 | when every row has a month, the twelve entries add up to the revenue of the table |
| Analyses.MonthlyRevenueCongruent | sales_dashboard.py:62 | the monthly sums depend only on the month and revenue columns |
| Analyses.MonthFromDates | sales_dashboard.py:61-62 | once the month is assigned from the order date, the rows of month m carry exactly the revenue of the rows dated in month m |
| Analyses.MonthlyTrend | sales_dashboard.py:61-62 | with the month assigned from the order date, entry i is the revenue of the rows dated in month i + 1 |
| Analyses.MonthlyTrendTotal | sales_dashboard.py:61-62 | on a dated table the trend accounts for all of the revenue |
| Analyses.TopProducts | sales_dashboard.py:71 | at most 15 products, distinct, each with its revenue sum; non-increasing; every product left out has no more revenue than any product shown |
| Analyses.PickedProducts | sales_dashboard.py:78 | at most 10 products, distinct, each with its row count; non-increasing; no product left out has more rows than any product picked |
| Analyses.RowsOf | sales_dashboard.py:79 | df_top holds exactly the rows whose product is among those picked |
| Analyses.RowsOfSelects | sales_dashboard.py:79 | df_top keeps every such row, once each, in table order: its k-th row is the input row at the k-th position holding a picked product |
| Analyses.PricePoints | sales_dashboard.py:79-81 | one (product, unit price) point per row of df_top, in table order |
| Analyses.PricePointsCongruent | sales_dashboard.py:77-79 | the points depend only on the product and unit_price columns |
| Analyses.TopStates | sales_dashboard.py:88-95 | two lists of min(10, #states) distinct states of the table, each entry's revenue and count being those of its state's rows; one is non-increasing in revenue and the other in count; every state left out of a list is bounded by every state in it |
| Analyses.StateCountsTotal | sales_dashboard.py:88 | the state counts add up to the number of rows, the state revenues to the total revenue, with one state entry per distinct state |
| Analyses.ChannelMargins | sales_dashboard.py:100 | one entry per channel with the mean of its rows' finite margins, non-increasing, a channel with no finite margin last |
| Analyses.CustomerExtremes | sales_dashboard.py:110-117 | top is the first min(10, n) entries of the descending customer ranking and bottom the last min(10, n); every customer outside top has no more revenue than any top customer, and every customer outside bottom no less than any bottom customer |
| Analyses.TailOutrankedByRest | sales_dashboard.py:117 | every customer outside the last ten has revenue at least that of each of them |
| Analyses.CustomerListsOverlap | sales_dashboard.py:113-117 | the top and bottom lists share a customer iff there are between 1 and 19 customers |
| Analyses.CustomerSegments | sales_dashboard.py:122-126 | one entry per distinct customer with its revenue sum, mean finite margin and row count; the counts add up to the number of rows |
| Reports.NumericColumns | sales_dashboard.py:139-143 | the correlation columns are the four money columns, then order_quantity and unit_price exactly when the table has them, order_quantity first, and nothing else |
| Reports.ReportOf | sales_dashboard.py:75-85 | the unit price view yields prices iff order_quantity is a column, and an unavailable report otherwise |
| Reports.UnitPricePoints | sales_dashboard.py:76-79 | when drawn, the unit price points are the rows of the picked products, in order, each with revenue / order_quantity |
| Reports.PricedSelection | sales_dashboard.py:77-79 | pricing every row and then selecting the picked products equals selecting first and pricing after |
| Reports.ReportOfCore | sales_dashboard.py:60-126 | no view reads the month or unit_price cells left by an earlier view: tables that agree elsewhere yield the same report |
| Dashboard.WithColumn | sales_dashboard.py:28 | assigning a column leaves the list unchanged when the name is present, and otherwise adds it once at the end, keeping every other name |
| Dashboard.ViewColumns | sales_dashboard.py:61-77 | the trend adds month, the unit price view adds unit_price when order_quantity is a column, and no view adds anything else |
| Dashboard.ViewRows | sales_dashboard.py:61-77 | a view changes only month and unit_price cells |
| Dashboard.ReportsOf | sales_dashboard.py:57-58 | a run yields one report per view, the first being that view's report on the starting columns |
| Dashboard.ColumnsAfterRun | sales_dashboard.py:57-77 | after a run the columns are the starting ones, plus month iff the trend ran, plus unit_price iff the unit price view ran on a table with order_quantity |
| Dashboard.ReportsAt | sales_dashboard.py:57 | the i-th report of a run is the i-th view on the columns the earlier views left |
| Dashboard.HeatmapSeesUnitPrice | sales_dashboard.py:138-143 | the heatmap correlates unit_price iff the sheet had it, or had order_quantity and the unit price view ran earlier |
| Dashboard.MultiTabHeatmap | sales_dashboard.py:37-54 | in multi-tab mode the heatmap correlates unit_price iff the sheet had unit_price or order_quantity |
| Dashboard.Selection | sales_dashboard.py:48-54 | single view renders just the chosen view; otherwise all eight views, each once |
| Dashboard.EveryViewOffered | sales_dashboard.py:37-46 | multi-tab mode offers every view, each once |
| Dashboard.DataFrame.constructor | sales_dashboard.py:17 | the table starts with the sheet's columns and rows |
| Dashboard.DataFrame.KeepRows | sales_dashboard.py:26-27 | the table's rows become those satisfying the mask, in order; the columns are unchanged |
| Dashboard.DataFrame.ApplyToEachRow | sales_dashboard.py:28-29 | each row i of the table becomes f(row i), updated in place |
| Dashboard.DataFrame.DropUndated | sales_dashboard.py:26 | the rows become those with a parsed date |
| Dashboard.DataFrame.KeepYears | sales_dashboard.py:27 | the rows become those whose year is in the range |
| Dashboard.DataFrame.AddProfit | sales_dashboard.py:28 | every row gets its profit and the profit column is present |
| Dashboard.DataFrame.AddMargin | sales_dashboard.py:29 | every row gets its margin and the margin column is present |
| Dashboard.DataFrame.AddMonth | sales_dashboard.py:61 | every row gets the month of its date and the month column is present |
| Dashboard.DataFrame.AddUnitPrice | sales_dashboard.py:77 | every row gets revenue / order_quantity and the unit_price column is present |
| Dashboard.DataFrame.Analyze | sales_dashboard.py:60-148 | the view's report on the table as it was, with the columns and rows the view leaves |
| Dashboard.Load | sales_dashboard.py:17-29 | the loaded table holds the prepared rows and the columns with profit and profit_margin_pct added |
| Dashboard.Render | sales_dashboard.py:57-77 | rendering a run yields that run's reports on the table as it was, leaves the columns the run adds, and leaves exactly the rows the run's views write in turn (RowsAfter) |
| Dashboard.RunStep | sales_dashboard.py:57 | a run from a position is the view there followed by the rest of the run on the columns that view left |
| Dashboard.RowsStep | sales_dashboard.py:57 | the rows a run from a position leaves are those the rest of the run leaves after the view there wrote its cells |
| Dashboard.ViewCells | sales_dashboard.py:61-77 | one view sets a row's month from its order date (the trend) or its unit_price to revenue / order_quantity (the unit price view, when order_quantity is a column), and keeps every other month and unit_price cell and the date, quantity and revenue |
| Dashboard.RowsAfterMonth | sales_dashboard.py:57-61 | after a run, each row's month is the month of its order date when the run held the trend, and is unchanged otherwise |
| Dashboard.RowsAfterUnitPrice | sales_dashboard.py:57-77 | after a run, each row's unit_price is revenue / order_quantity when the run held the unit price view and the table had order_quantity, and is unchanged otherwise |
| Dashboard.RenderStep | sales_dashboard.py:57 | each turn of the render loop extends the reports by the view's report on the prepared rows |
| Dashboard.RunDashboard | sales_dashboard.py:15-58 | the session is rejected, with the missing list, iff a required column is absent; otherwise it reports the number of surviving rows and, for each selected view in turn, its report on the prepared table |

## Left out

- The user interface is not modelled: page setup, file upload, the toggle and select box, headings, and the success, error and info messages. The session takes the toggle and the chosen view as parameters.
- The catch-all exception handler is not modelled, because every modelled step is total.
- Reading the Excel file and parsing dates are not modelled. Rows arrive with the date already parsed, or absent when it did not parse.
- Chart rendering is not modelled (matplotlib, seaborn, plotly, month labels). Each view ends with the data handed to its chart.
- The correlation heatmap computes a floating-point Pearson matrix, which is not modelled. Only the choice of its columns is.
- Floating-point rounding is not modelled, because money is exact.
- Orders.MarginPct: at zero revenue pandas gives NaN (profit zero) or ±infinity (profit non-zero). The model has no value in either case.
- Grouping.MeanMargin: pandas' mean skips NaN but not infinity, so a zero-revenue row with non-zero profit would make its group's mean non-finite (infinite, or NaN when the group also holds an infinity of the other sign). The model leaves every non-finite margin out of the mean.
- Orders.UnitPrice: over a zero quantity pandas gives NaN (zero revenue) or ±infinity (non-zero revenue). The model has no value in either case.
- Ranking.SortBy: pandas' order among equal values is not modelled. Only non-increasing order is claimed.
- Grouping.GroupBy: pandas orders groups by ascending key. The model's groups come in order of first appearance, and no contract depends on that order. It matters only for the unsorted segmentation table and for ties in the sorted views.
- Analyses.TopStates: the order count is pandas' count of non-missing revenue cells. Revenue is never missing in the model, so it is the row count.
- Blank cells are not modelled. pandas reads a blank cell as NaN. Rows with a NaN key are skipped by `groupby` and `value_counts`, and NaN revenue is skipped by `sum` and `count`. In the model every row has a key in each key column and a revenue. So Grouping.GroupTotals, Analyses.StateCountsTotal and Analyses.CustomerSegments, which say the counts add up to the number of rows, describe sheets with no blank key or revenue cell.
- The code emits no warning when no row survives normalisation; it reports 0 orders, and the model follows the code.
