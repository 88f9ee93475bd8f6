/** The analysis views of the dashboard, each a group-by followed by a
    reduction, a sort and a truncation, and the report each view produces. */
module Analyses {
  import opened Seqs
  import opened Orders
  import opened Grouping
  import opened Ranking

  // ----- Monthly sales trend -----

  function InMonth(m: Month): Row -> bool
  {
    (r: Row) => r.month == Some(m)
  }

  /** Revenue of the rows whose month is `m`. */
  function MonthRevenue(rows: seq<Row>, m: Month): real
  {
    if rows == [] then 0.0
    else MonthRevenue(rows[..|rows| - 1], m) + (if rows[|rows| - 1].month == Some(m) then rows[|rows| - 1].revenue else 0.0)
  }

  /** The running sum agrees with summing the selected rows. */
  lemma {:induction false} MonthRevenueIsSelection(rows: seq<Row>, m: Month)
    ensures MonthRevenue(rows, m) == TotalRevenue(Filter(rows, InMonth(m)))
    decreases |rows|
  {
    if rows != [] {
      var n := |rows| - 1;
      MonthRevenueIsSelection(rows[..n], m);
      assert rows == rows[..n] + [rows[n]];
      FilterSnoc(rows[..n], rows[n], InMonth(m));
      if rows[n].month == Some(m) {
        assert InMonth(m)(rows[n]);
        SumsSnoc(Filter(rows[..n], InMonth(m)), rows[n]);
      } else {
        assert !InMonth(m)(rows[n]);
        assert Filter(rows, InMonth(m)) == Filter(rows[..n], InMonth(m));
      }
    }
  }

  /** Revenue per month 1..12, zero for a month without rows (the group-by
      on the month column, re-indexed to the twelve months). Entry i is the
      revenue of the rows whose month is i + 1. */
  function MonthlyRevenue(rows: seq<Row>): (months: seq<real>)
    ensures |months| == 12
    ensures forall i :: 0 <= i < 12 ==> months[i] == TotalRevenue(Filter(rows, InMonth(i + 1)))
  {
    var months := MonthTotals(rows);
    MonthlyBySelection(rows, months);
    months
  }

  function MonthTotals(rows: seq<Row>): seq<real>
  {
    seq(12, i requires 0 <= i < 12 => MonthRevenue(rows, i + 1))
  }

  lemma MonthlyBySelection(rows: seq<Row>, months: seq<real>)
    requires |months| == 12
    requires forall i :: 0 <= i < 12 ==> months[i] == MonthRevenue(rows, i + 1)
    ensures forall i :: 0 <= i < 12 ==> months[i] == TotalRevenue(Filter(rows, InMonth(i + 1)))
  {
    forall i | 0 <= i < 12 ensures months[i] == TotalRevenue(Filter(rows, InMonth(i + 1))) {
      MonthRevenueIsSelection(rows, i + 1);
    }
  }

  function SumReals(s: seq<real>): real
  {
    if s == [] then 0.0 else SumReals(s[..|s| - 1]) + s[|s| - 1]
  }

  lemma {:induction false} SumRealsUpdate(s: seq<real>, j: nat, x: real)
    requires j < |s|
    ensures SumReals(s[j := s[j] + x]) == SumReals(s) + x
    decreases |s|
  {
    var n := |s| - 1;
    if j < n {
      SumRealsUpdate(s[..n], j, x);
      assert s[j := s[j] + x][..n] == s[..n][j := s[..n][j] + x];
    } else {
      assert s[j := s[j] + x][..n] == s[..n];
    }
  }

  lemma {:induction false} SumRealsZero(k: nat)
    ensures SumReals(seq(k, _ => 0.0)) == 0.0
  {
    if k > 0 {
      SumRealsZero(k - 1);
      assert seq(k, _ => 0.0)[..k - 1] == seq(k - 1, _ => 0.0);
    }
  }

  /** When every row has a month, the twelve entries add up to the revenue
      of the whole table. */
  lemma MonthlyTotal(rows: seq<Row>)
    requires forall r :: r in rows ==> r.month.Some?
    ensures SumReals(MonthlyRevenue(rows)) == TotalRevenue(rows)
  {
    MonthTotalsSum(rows);
  }

  lemma {:induction false} MonthTotalsSum(rows: seq<Row>)
    requires forall r :: r in rows ==> r.month.Some?
    ensures SumReals(MonthTotals(rows)) == TotalRevenue(rows)
    decreases |rows|
  {
    if rows == [] {
      assert MonthTotals(rows) == seq(12, _ => 0.0);
      SumRealsZero(12);
    } else {
      var n := |rows| - 1;
      assert rows[n] in rows;
      MonthTotalsSum(rows[..n]);
      var m: int := rows[n].month.value;
      var before := MonthTotals(rows[..n]);
      MonthTotalsSnoc(rows);
      SumRealsUpdate(before, m - 1, rows[n].revenue);
    }
  }

  lemma MonthTotalsSnoc(rows: seq<Row>)
    requires rows != [] && rows[|rows| - 1].month.Some?
    ensures var n := |rows| - 1;
            var m: int := rows[n].month.value;
            var before := MonthTotals(rows[..n]);
            MonthTotals(rows) == before[m - 1 := before[m - 1] + rows[n].revenue]
  {
  }

  lemma {:induction false} MonthRevenueCongruent(a: seq<Row>, b: seq<Row>, m: Month)
    requires |a| == |b|
    requires forall i :: 0 <= i < |a| ==> a[i].month == b[i].month && a[i].revenue == b[i].revenue
    ensures MonthRevenue(a, m) == MonthRevenue(b, m)
    decreases |a|
  {
    if a != [] {
      var n := |a| - 1;
      MonthRevenueCongruent(a[..n], b[..n], m);
    }
  }

  /** The trend reads only the month and revenue columns. */
  lemma MonthlyRevenueCongruent(a: seq<Row>, b: seq<Row>)
    requires |a| == |b|
    requires forall i :: 0 <= i < |a| ==> a[i].month == b[i].month && a[i].revenue == b[i].revenue
    ensures MonthlyRevenue(a) == MonthlyRevenue(b)
  {
    forall i | 0 <= i < 12 ensures MonthlyRevenue(a)[i] == MonthlyRevenue(b)[i] {
      MonthRevenueCongruent(a, b, i + 1);
    }
  }

  /** The rows whose order date falls in month `m`. */
  function DatedIn(m: Month): Row -> bool
  {
    (r: Row) => r.date.Some? && r.date.value.month == m
  }

  /** The monthly trend of the table: the month column is assigned first,
      then revenue is summed per month. */
  function MonthlyTrend(rows: seq<Row>): (months: seq<real>)
    ensures |months| == 12
    ensures forall i :: 0 <= i < 12 ==> months[i] == TotalRevenue(Filter(rows, DatedIn(i + 1)))
  {
    var months := MonthlyRevenue(MapRows(rows, WithMonth));
    assert forall i :: 0 <= i < 12 ==> months[i] == TotalRevenue(Filter(MapRows(rows, WithMonth), InMonth(i + 1)));
    MonthsFromDates(rows);
    months
  }

  /** Once the month is assigned from the order date, the rows of month `m`
      carry the revenue of the rows dated in `m`. */
  lemma MonthsFromDates(rows: seq<Row>)
    ensures forall m: Month ::
              TotalRevenue(Filter(MapRows(rows, WithMonth), InMonth(m))) == TotalRevenue(Filter(rows, DatedIn(m)))
  {
    forall m: Month
      ensures TotalRevenue(Filter(MapRows(rows, WithMonth), InMonth(m))) == TotalRevenue(Filter(rows, DatedIn(m)))
    {
      MonthFromDates(rows, m);
    }
  }

  lemma MonthFromDates(rows: seq<Row>, m: Month)
    ensures TotalRevenue(Filter(MapRows(rows, WithMonth), InMonth(m))) == TotalRevenue(Filter(rows, DatedIn(m)))
  {
    SelectedRevenue(MapRows(rows, WithMonth), rows, InMonth(m), DatedIn(m));
  }

  /** Two tables that select the same positions, with the same revenue at
      each selected position, select the same revenue. */
  lemma {:induction false} SelectedRevenue(a: seq<Row>, b: seq<Row>, p: Row -> bool, q: Row -> bool)
    requires |a| == |b|
    requires forall i :: 0 <= i < |a| ==> p(a[i]) == q(b[i]) && a[i].revenue == b[i].revenue
    ensures TotalRevenue(Filter(a, p)) == TotalRevenue(Filter(b, q))
    decreases |a|
  {
    if a != [] {
      var n := |a| - 1;
      SelectedRevenue(a[..n], b[..n], p, q);
      var fa := Filter(a[..n], p);
      var fb := Filter(b[..n], q);
      if p(a[n]) {
        assert (fa + [a[n]])[..|fa|] == fa;
        assert (fb + [b[n]])[..|fb|] == fb;
      } else {
        assert fa + [] == fa && fb + [] == fb;
      }
    }
  }

  /** On a dated table the twelve months account for all of its revenue. */
  lemma MonthlyTrendTotal(rows: seq<Row>)
    requires forall r :: r in rows ==> r.date.Some?
    ensures SumReals(MonthlyTrend(rows)) == TotalRevenue(rows)
  {
    var withMonth := MapRows(rows, WithMonth);
    forall r | r in withMonth ensures r.month.Some? {
      var i :| 0 <= i < |withMonth| && withMonth[i] == r;
      assert rows[i] in rows;
    }
    MonthlyTotal(withMonth);
    SameRevenue(rows, withMonth);
  }

  lemma {:induction false} SameRevenue(a: seq<Row>, b: seq<Row>)
    requires |a| == |b|
    requires forall i :: 0 <= i < |a| ==> a[i].revenue == b[i].revenue
    ensures TotalRevenue(a) == TotalRevenue(b)
    decreases |a|
  {
    if a != [] {
      SameRevenue(a[..|a| - 1], b[..|b| - 1]);
    }
  }

  // ----- Top products -----

  /** The 15 products with the highest revenue, in descending order. */
  function TopProducts(rows: seq<Row>): (top: seq<Group>)
    ensures |top| == Min(15, |RowKeys(rows, ProductName)|)
    ensures DistinctKeys(top) && Sorted(top, ByRevenue)
    ensures forall g :: g in top ==>
              g.key in RowKeys(rows, ProductName) && g.revenue == TotalRevenue(Select(rows, ProductName, g.key))
    ensures forall g, p :: g in top && p in RowKeys(rows, ProductName) && p !in KeySet(top) ==>
              g.revenue >= TotalRevenue(Select(rows, ProductName, p))
  {
    var top := Top(rows, ProductName, ByRevenue, 15);
    forall g | g in top ensures g.revenue == TotalRevenue(Select(rows, ProductName, g.key)) {
      SummaryOfSelection(rows, ProductName, g.key);
    }
    forall p | p in RowKeys(rows, ProductName) {
      SummaryOfSelection(rows, ProductName, p);
    }
    top
  }

  // ----- Unit price distribution -----

  /** The 10 products with the most rows (value_counts().index[:10]). */
  function PickedProducts(rows: seq<Row>): (picked: seq<Group>)
    ensures |picked| == Min(10, |RowKeys(rows, ProductName)|)
    ensures DistinctKeys(picked) && Sorted(picked, ByOrders)
    ensures forall g :: g in picked ==>
              g.key in RowKeys(rows, ProductName) && g.count == |Select(rows, ProductName, g.key)|
    ensures forall g, p :: g in picked && p in RowKeys(rows, ProductName) && p !in KeySet(picked) ==>
              g.count >= |Select(rows, ProductName, p)|
  {
    var picked := Top(rows, ProductName, ByOrders, 10);
    forall g | g in picked ensures g.count == |Select(rows, ProductName, g.key)| {
      SummaryOfSelection(rows, ProductName, g.key);
    }
    forall p | p in RowKeys(rows, ProductName) {
      SummaryOfSelection(rows, ProductName, p);
    }
    picked
  }

  function ProductIn(products: set<string>): Row -> bool
  {
    (r: Row) => r.product in products
  }

  /** df[df['product_name'].isin(products)]: the rows of the given products,
      in table order. */
  function RowsOf(rows: seq<Row>, products: set<string>): (sel: seq<Row>)
    ensures forall r :: r in sel <==> r in rows && r.product in products
  {
    FilterMembers(rows, ProductIn(products));
    Filter(rows, ProductIn(products))
  }

  /** df_top keeps every row of the picked products, in table order: its
      k-th row is the input row at the k-th position holding such a product. */
  lemma RowsOfSelects(rows: seq<Row>, products: set<string>)
    ensures var sel := RowsOf(rows, products);
            var idx := KeptIndices(rows, ProductIn(products));
            && |sel| == |idx|
            && (forall k :: 0 <= k < |idx| ==> sel[k] == rows[idx[k]])
            && (forall k, l :: 0 <= k < l < |idx| ==> idx[k] < idx[l])
            && (forall i :: 0 <= i < |rows| ==> (i in idx <==> rows[i].product in products))
  {
    var idx := KeptIndices(rows, ProductIn(products));
    forall i | 0 <= i < |rows| && i in idx ensures rows[i].product in products {
      var k :| 0 <= k < |idx| && idx[k] == i;
      assert ProductIn(products)(rows[idx[k]]);
    }
    forall i | 0 <= i < |rows| && rows[i].product in products ensures i in idx {
      assert ProductIn(products)(rows[i]);
    }
  }

  /** The (product, unit price) pairs the box plot draws: one per row of
      the given products, in table order. */
  function PricePoints(rows: seq<Row>, products: set<string>): (points: seq<(string, Option<real>)>)
    ensures var sel := RowsOf(rows, products);
            && |points| == |sel|
            && forall k :: 0 <= k < |sel| ==> points[k] == (sel[k].product, sel[k].unitPrice)
    decreases |rows|
  {
    if rows == [] then []
    else
      var n := |rows| - 1;
      var r := rows[n];
      var pre := PricePoints(rows[..n], products);
      assert rows == rows[..n] + [r];
      FilterSnoc(rows[..n], r, ProductIn(products));
      pre + (if r.product in products then [(r.product, r.unitPrice)] else [])
  }

  /** The plot reads only the product and unit price columns. */
  lemma {:induction false} PricePointsCongruent(a: seq<Row>, b: seq<Row>, products: set<string>)
    requires |a| == |b|
    requires forall i :: 0 <= i < |a| ==> a[i].product == b[i].product && a[i].unitPrice == b[i].unitPrice
    ensures PricePoints(a, products) == PricePoints(b, products)
    decreases |a|
  {
    if a != [] {
      var n := |a| - 1;
      PricePointsCongruent(a[..n], b[..n], products);
    }
  }

  // ----- Top states -----

  /** The 10 states with the highest revenue and the 10 with the most rows,
      two independent rankings of one group-by. */
  function TopStates(rows: seq<Row>): (tops: (seq<Group>, seq<Group>))
    ensures |tops.0| == |tops.1| == Min(10, |RowKeys(rows, State)|)
    ensures DistinctKeys(tops.0) && DistinctKeys(tops.1)
    ensures Sorted(tops.0, ByRevenue) && Sorted(tops.1, ByOrders)
    ensures forall g :: g in tops.0 || g in tops.1 ==>
              && g.key in RowKeys(rows, State)
              && g.revenue == TotalRevenue(Select(rows, State, g.key))
              && g.count == |Select(rows, State, g.key)|
    ensures forall g, s :: g in tops.0 && s in RowKeys(rows, State) && s !in KeySet(tops.0) ==>
              g.revenue >= TotalRevenue(Select(rows, State, s))
    ensures forall g, s :: g in tops.1 && s in RowKeys(rows, State) && s !in KeySet(tops.1) ==>
              g.count >= |Select(rows, State, s)|
  {
    var byRevenue := Top(rows, State, ByRevenue, 10);
    var byOrders := Top(rows, State, ByOrders, 10);
    forall g | g in byRevenue || g in byOrders {
      SummaryOfSelection(rows, State, g.key);
    }
    forall s | s in RowKeys(rows, State) {
      SummaryOfSelection(rows, State, s);
    }
    (byRevenue, byOrders)
  }

  /** The state metrics count every row once. */
  lemma StateCountsTotal(rows: seq<Row>)
    ensures CountTotal(GroupBy(rows, State)) == |rows|
    ensures RevenueTotal(GroupBy(rows, State)) == TotalRevenue(rows)
    ensures |GroupBy(rows, State)| == |RowKeys(rows, State)|
  {
    GroupTotals(rows, State);
    GroupCount(rows, State, GroupBy(rows, State));
  }

  // ----- Profit margin by channel -----

  /** Mean of a row list's finite margins, none when there is none. */
  function MeanOfMargins(sel: seq<Row>): Option<real>
  {
    if MarginCount(sel) == 0 then None else Some(MarginSum(sel) / (MarginCount(sel) as real))
  }

  /** Every channel with the mean of its finite margins, in descending order
      of that mean; a channel with no finite margin comes last. */
  function ChannelMargins(rows: seq<Row>): (channels: seq<Group>)
    ensures |channels| == |RowKeys(rows, Channel)|
    ensures KeySet(channels) == RowKeys(rows, Channel) && DistinctKeys(channels)
    ensures Sorted(channels, ByMeanMargin)
    ensures forall g :: g in channels ==> MeanMargin(g) == MeanOfMargins(Select(rows, Channel, g.key))
  {
    var channels := Ranked(rows, Channel, ByMeanMargin);
    forall g | g in channels ensures MeanMargin(g) == MeanOfMargins(Select(rows, Channel, g.key)) {
      SummaryOfSelection(rows, Channel, g.key);
    }
    channels
  }

  // ----- Top and bottom customers -----

  /** Customers by revenue, descending; the first 10 and the last 10 of that
      one list. */
  function CustomerExtremes(rows: seq<Row>): (views: (seq<Group>, seq<Group>))
    ensures var ranked := Ranked(rows, CustomerName, ByRevenue);
            var n := |RowKeys(rows, CustomerName)|;
            && |views.0| == |views.1| == Min(10, n)
            && views.0 == ranked[..|views.0|]
            && views.1 == ranked[n - |views.1|..]
    ensures forall g, k :: g in views.0 && k in RowKeys(rows, CustomerName) && k !in KeySet(views.0) ==>
              g.revenue >= TotalRevenue(Select(rows, CustomerName, k))
    ensures forall g, k :: g in views.1 && k in RowKeys(rows, CustomerName) && k !in KeySet(views.1) ==>
              g.revenue <= TotalRevenue(Select(rows, CustomerName, k))
  {
    var ranked := Ranked(rows, CustomerName, ByRevenue);
    var top := Head(ranked, 10);
    var bottom := Tail(ranked, 10);
    ExtremesBound(rows, ranked, top, bottom);
    (top, bottom)
  }

  lemma ExtremesBound(rows: seq<Row>, ranked: seq<Group>, top: seq<Group>, bottom: seq<Group>)
    requires Grouped(rows, CustomerName, ranked) && Sorted(ranked, ByRevenue)
    requires top == Head(ranked, 10) && bottom == Tail(ranked, 10)
    ensures forall g, k :: g in top && k in RowKeys(rows, CustomerName) && k !in KeySet(top) ==>
              g.revenue >= TotalRevenue(Select(rows, CustomerName, k))
    ensures forall g, k :: g in bottom && k in RowKeys(rows, CustomerName) && k !in KeySet(bottom) ==>
              g.revenue <= TotalRevenue(Select(rows, CustomerName, k))
  {
    HeadOutranksRest(rows, CustomerName, ByRevenue, ranked, top);
    forall k | k in RowKeys(rows, CustomerName) {
      SummaryOfSelection(rows, CustomerName, k);
    }
    TailOutrankedByRest(rows, ranked, bottom);
  }

  /** Every customer outside the last ten ranks at or above each of them. */
  lemma TailOutrankedByRest(rows: seq<Row>, ranked: seq<Group>, bottom: seq<Group>)
    requires Grouped(rows, CustomerName, ranked) && Sorted(ranked, ByRevenue)
    requires bottom == Tail(ranked, 10)
    ensures forall g, k :: g in bottom && k in RowKeys(rows, CustomerName) && k !in KeySet(bottom) ==>
              g.revenue <= Summary(rows, CustomerName, k).revenue
  {
    var n := |ranked|;
    forall i | n - |bottom| <= i < n ensures ranked[i].key in KeySet(bottom) {
      assert bottom[i - (n - |bottom|)] in bottom;
    }
    forall g, k | g in bottom && k in RowKeys(rows, CustomerName) && k !in KeySet(bottom)
      ensures g.revenue <= Summary(rows, CustomerName, k).revenue
    {
      assert k in KeySet(ranked);
      var j :| 0 <= j < n && ranked[j].key == k;
      assert ranked[j] in ranked;
      var i :| 0 <= i < |bottom| && bottom[i] == g;
      assert g == ranked[n - |bottom| + i];
    }
  }

  /** The two customer lists share a customer exactly when there are
      between one and nineteen customers. */
  lemma CustomerListsOverlap(rows: seq<Row>)
    ensures var views := CustomerExtremes(rows);
            var n := |RowKeys(rows, CustomerName)|;
            KeySet(views.0) * KeySet(views.1) != {} <==> 0 < n < 20
  {
    var ranked := Ranked(rows, CustomerName, ByRevenue);
    if |ranked| < 20 {
      HeadTailShare(ranked);
    } else {
      HeadTailDisjoint(ranked);
    }
  }

  lemma HeadTailShare(ranked: seq<Group>)
    requires |ranked| < 20
    ensures KeySet(Head(ranked, 10)) * KeySet(Tail(ranked, 10)) != {} <==> ranked != []
  {
    var top := Head(ranked, 10);
    var bottom := Tail(ranked, 10);
    var n := |ranked|;
    var m := |top|;
    if n > 0 {
      assert top[n - m] == ranked[n - m] == bottom[0];
      assert top[n - m] in top && bottom[0] in bottom;
      assert ranked[n - m].key in KeySet(top) * KeySet(bottom);
    }
  }

  lemma HeadTailDisjoint(ranked: seq<Group>)
    requires |ranked| >= 20 && DistinctKeys(ranked)
    ensures KeySet(Head(ranked, 10)) * KeySet(Tail(ranked, 10)) == {}
  {
    var top := Head(ranked, 10);
    var bottom := Tail(ranked, 10);
    var n := |ranked|;
    forall k | k in KeySet(top) ensures k !in KeySet(bottom) {
      var i :| 0 <= i < 10 && top[i].key == k;
      forall j | 0 <= j < 10 ensures bottom[j].key != k {
        assert bottom[j] == ranked[n - 10 + j];
        assert top[i] == ranked[i];
      }
    }
  }

  // ----- Customer segmentation -----

  /** One summary per distinct customer: revenue, mean finite margin (see
      MeanMargin) and row count; the counts add up to the number of rows. */
  function CustomerSegments(rows: seq<Row>): (segments: seq<Group>)
    ensures |segments| == |RowKeys(rows, CustomerName)|
    ensures KeySet(segments) == RowKeys(rows, CustomerName) && DistinctKeys(segments)
    ensures CountTotal(segments) == |rows|
    ensures forall g :: g in segments ==>
              && g.revenue == TotalRevenue(Select(rows, CustomerName, g.key))
              && g.count == |Select(rows, CustomerName, g.key)|
              && MeanMargin(g) == MeanOfMargins(Select(rows, CustomerName, g.key))
  {
    var segments := GroupBy(rows, CustomerName);
    GroupTotals(rows, CustomerName);
    GroupCount(rows, CustomerName, segments);
    forall g | g in segments {
      SummaryOfSelection(rows, CustomerName, g.key);
    }
    segments
  }
}
