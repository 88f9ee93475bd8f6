/** Group-by over one key column with the reductions the dashboard takes:
    sum of revenue, row count, and the sum and count of the finite margins
    (from which the mean margin follows). */
module Grouping {
  import opened Seqs
  import opened Orders

  datatype KeyColumn = ProductName | State | Channel | CustomerName

  function KeyOf(r: Row, c: KeyColumn): string
  {
    match c
    case ProductName => r.product
    case State => r.state
    case Channel => r.channel
    case CustomerName => r.customer
  }

  /** One group of a group-by: its key and its reductions. */
  datatype Group = Group(key: string, revenue: real, count: nat, marginSum: real, marginCount: nat)

  /** Mean of the group's finite margins; none when it has no finite margin. */
  function MeanMargin(g: Group): (mean: Option<real>)
    ensures mean.Some? <==> g.marginCount > 0
    ensures mean.Some? ==> mean.value * (g.marginCount as real) == g.marginSum
  {
    if g.marginCount == 0 then None else Some(g.marginSum / (g.marginCount as real))
  }

  // ----- Reference definition: a group is the reduction of its rows -----

  /** Adds one row to a group's reductions. */
  function Absorb(g: Group, r: Row): Group
  {
    Group(g.key, g.revenue + r.revenue, g.count + 1,
          g.marginSum + MarginOrZero(r), g.marginCount + (if r.margin.Some? then 1 else 0))
  }

  /** The reductions of the rows whose key column holds `k`. */
  function Summary(rows: seq<Row>, c: KeyColumn, k: string): Group
    decreases |rows|
  {
    if rows == [] then Group(k, 0.0, 0, 0.0, 0)
    else
      var g := Summary(rows[..|rows| - 1], c, k);
      if KeyOf(rows[|rows| - 1], c) == k then Absorb(g, rows[|rows| - 1]) else g
  }

  lemma SummarySnoc(pre: seq<Row>, r: Row, c: KeyColumn, k: string)
    ensures Summary(pre + [r], c, k)
            == if KeyOf(r, c) == k then Absorb(Summary(pre, c, k), r) else Summary(pre, c, k)
  {
    assert (pre + [r])[..|pre|] == pre;
  }

  function HasKey(c: KeyColumn, k: string): Row -> bool
  {
    r => KeyOf(r, c) == k
  }

  /** The rows whose key column holds `k`, in table order. */
  function Select(rows: seq<Row>, c: KeyColumn, k: string): seq<Row>
  {
    Filter(rows, HasKey(c, k))
  }

  /** A group's reductions are those of the rows selected by its key: the
      revenue sum, the row count, and the sum and count of finite margins. */
  lemma {:induction false} SummaryOfSelection(rows: seq<Row>, c: KeyColumn, k: string)
    ensures var sel := Select(rows, c, k);
            Summary(rows, c, k) == Group(k, TotalRevenue(sel), |sel|, MarginSum(sel), MarginCount(sel))
    decreases |rows|
  {
    if rows != [] {
      var n := |rows| - 1;
      SummaryOfSelection(rows[..n], c, k);
      assert rows == rows[..n] + [rows[n]];
      FilterSnoc(rows[..n], rows[n], HasKey(c, k));
      var sel := Select(rows[..n], c, k);
      if KeyOf(rows[n], c) == k {
        assert Select(rows, c, k) == sel + [rows[n]];
        SumsSnoc(sel, rows[n]);
      } else {
        assert Select(rows, c, k) == sel;
      }
    }
  }

  function RowKeys(rows: seq<Row>, c: KeyColumn): set<string>
  {
    set r | r in rows :: KeyOf(r, c)
  }

  function KeySet(gs: seq<Group>): set<string>
  {
    set g | g in gs :: g.key
  }

  predicate DistinctKeys(gs: seq<Group>)
  {
    forall i, j :: 0 <= i < j < |gs| ==> gs[i].key != gs[j].key
  }

  /** `gs` is a group-by of `rows` on `c`: one group per distinct key of the
      table, each holding that key's reductions. */
  predicate Grouped(rows: seq<Row>, c: KeyColumn, gs: seq<Group>)
  {
    && DistinctKeys(gs)
    && KeySet(gs) == RowKeys(rows, c)
    && forall g :: g in gs ==> g == Summary(rows, c, g.key)
  }

  // ----- The group-by itself: one pass over the rows -----

  /** Position of the group keyed `k`, or |gs| when there is none. */
  function Find(gs: seq<Group>, k: string): (i: nat)
    ensures i <= |gs|
    ensures i < |gs| ==> gs[i].key == k
    ensures i == |gs| ==> k !in KeySet(gs)
  {
    if gs == [] then 0
    else if gs[0].key == k then 0
    else
      assert gs == [gs[0]] + gs[1..];
      1 + Find(gs[1..], k)
  }

  /** Adds one row to the group of its key, opening that group if it is new. */
  function Add(gs: seq<Group>, r: Row, c: KeyColumn): seq<Group>
  {
    var k := KeyOf(r, c);
    var i := Find(gs, k);
    if i < |gs| then gs[i := Absorb(gs[i], r)] else gs + [Absorb(Group(k, 0.0, 0, 0.0, 0), r)]
  }

  /** df.groupby(c) with the reductions above; groups come in order of first
      appearance. */
  function GroupBy(rows: seq<Row>, c: KeyColumn): (gs: seq<Group>)
    ensures Grouped(rows, c, gs)
    decreases |rows|
  {
    if rows == [] then []
    else
      var n := |rows| - 1;
      var gs := GroupBy(rows[..n], c);
      AddGrouped(rows[..n], rows[n], c, gs);
      assert rows[..n] + [rows[n]] == rows;
      Add(gs, rows[n], c)
  }

  lemma {:induction false} AddGrouped(pre: seq<Row>, r: Row, c: KeyColumn, gs: seq<Group>)
    requires Grouped(pre, c, gs)
    ensures Grouped(pre + [r], c, Add(gs, r, c))
  {
    var k := KeyOf(r, c);
    var i := Find(gs, k);
    assert RowKeys(pre + [r], c) == RowKeys(pre, c) + {k};
    if i < |gs| {
      AddToExisting(pre, r, c, gs, i);
    } else {
      AddNewKey(pre, r, c, gs);
    }
  }

  lemma {:induction false} AddToExisting(pre: seq<Row>, r: Row, c: KeyColumn, gs: seq<Group>, i: nat)
    requires Grouped(pre, c, gs)
    requires i < |gs| && gs[i].key == KeyOf(r, c)
    ensures var out := gs[i := Absorb(gs[i], r)];
            && DistinctKeys(out)
            && KeySet(out) == KeySet(gs)
            && forall g :: g in out ==> g == Summary(pre + [r], c, g.key)
  {
    var out := gs[i := Absorb(gs[i], r)];
    assert gs[i] in gs;
    forall g | g in out ensures g == Summary(pre + [r], c, g.key) {
      var j :| 0 <= j < |out| && out[j] == g;
      assert gs[j] in gs;
      SummarySnoc(pre, r, c, g.key);
    }
    forall x | x in KeySet(out) ensures x in KeySet(gs) {
      var j :| 0 <= j < |out| && out[j].key == x;
      assert gs[j] in gs;
    }
    forall x | x in KeySet(gs) ensures x in KeySet(out) {
      var j :| 0 <= j < |gs| && gs[j].key == x;
      assert out[j] in out;
    }
  }

  lemma {:induction false} AddNewKey(pre: seq<Row>, r: Row, c: KeyColumn, gs: seq<Group>)
    requires Grouped(pre, c, gs)
    requires KeyOf(r, c) !in KeySet(gs)
    ensures var out := gs + [Absorb(Group(KeyOf(r, c), 0.0, 0, 0.0, 0), r)];
            && DistinctKeys(out)
            && KeySet(out) == KeySet(gs) + {KeyOf(r, c)}
            && forall g :: g in out ==> g == Summary(pre + [r], c, g.key)
  {
    var k := KeyOf(r, c);
    var out := gs + [Absorb(Group(k, 0.0, 0, 0.0, 0), r)];
    NoRowsNoSummary(pre, c, k);
    SummarySnoc(pre, r, c, k);
    forall g | g in out ensures g == Summary(pre + [r], c, g.key) {
      SummarySnoc(pre, r, c, g.key);
    }
    forall j | 0 <= j < |gs| ensures gs[j].key != k {
      assert gs[j] in gs;
    }
  }

  /** A key that no row holds has empty reductions. */
  lemma {:induction false} NoRowsNoSummary(rows: seq<Row>, c: KeyColumn, k: string)
    requires k !in RowKeys(rows, c)
    ensures Summary(rows, c, k) == Group(k, 0.0, 0, 0.0, 0)
    decreases |rows|
  {
    if rows != [] {
      var n := |rows| - 1;
      assert rows[n] in rows;
      assert RowKeys(rows[..n], c) <= RowKeys(rows, c);
      NoRowsNoSummary(rows[..n], c, k);
    }
  }

  // ----- Totals over the groups -----

  function CountTotal(gs: seq<Group>): nat
  {
    if gs == [] then 0 else CountTotal(gs[..|gs| - 1]) + gs[|gs| - 1].count
  }

  function RevenueTotal(gs: seq<Group>): real
  {
    if gs == [] then 0.0 else RevenueTotal(gs[..|gs| - 1]) + gs[|gs| - 1].revenue
  }

  lemma {:induction false} TotalsUpdate(gs: seq<Group>, i: nat, g: Group)
    requires i < |gs|
    ensures CountTotal(gs[i := g]) == CountTotal(gs) - gs[i].count + g.count
    ensures RevenueTotal(gs[i := g]) == RevenueTotal(gs) - gs[i].revenue + g.revenue
    decreases |gs|
  {
    var n := |gs| - 1;
    if i < n {
      TotalsUpdate(gs[..n], i, g);
      assert gs[i := g][..n] == gs[..n][i := g];
    } else {
      assert gs[i := g][..n] == gs[..n];
    }
  }

  /** Grouping loses no row: the group counts add up to the number of rows
      and the group revenues to the table's revenue. */
  lemma {:induction false} GroupTotals(rows: seq<Row>, c: KeyColumn)
    ensures CountTotal(GroupBy(rows, c)) == |rows|
    ensures RevenueTotal(GroupBy(rows, c)) == TotalRevenue(rows)
    decreases |rows|
  {
    if rows != [] {
      var n := |rows| - 1;
      GroupTotals(rows[..n], c);
      var gs := GroupBy(rows[..n], c);
      var i := Find(gs, KeyOf(rows[n], c));
      if i < |gs| {
        TotalsUpdate(gs, i, Absorb(gs[i], rows[n]));
      } else {
        var g := Absorb(Group(KeyOf(rows[n], c), 0.0, 0, 0.0, 0), rows[n]);
        assert (gs + [g])[..|gs|] == gs;
      }
    }
  }

  /** Groups with distinct keys are as many as their keys. */
  lemma {:induction false} DistinctKeysCard(gs: seq<Group>)
    requires DistinctKeys(gs)
    ensures |KeySet(gs)| == |gs|
    decreases |gs|
  {
    if gs != [] {
      var n := |gs| - 1;
      DistinctKeysCard(gs[..n]);
      assert KeySet(gs) == KeySet(gs[..n]) + {gs[n].key};
      assert gs[n].key !in KeySet(gs[..n]);
    }
  }

  lemma {:induction false} KeySetCard(gs: seq<Group>)
    ensures |KeySet(gs)| <= |gs|
    decreases |gs|
  {
    if gs != [] {
      var n := |gs| - 1;
      KeySetCard(gs[..n]);
      assert KeySet(gs) == KeySet(gs[..n]) + {gs[n].key};
    }
  }

  /** Groups as many as their keys have distinct keys. */
  lemma {:induction false} CardDistinctKeys(gs: seq<Group>)
    requires |KeySet(gs)| == |gs|
    ensures DistinctKeys(gs)
    decreases |gs|
  {
    if gs != [] {
      var n := |gs| - 1;
      var pre := gs[..n];
      assert KeySet(gs) == KeySet(pre) + {gs[n].key};
      KeySetCard(pre);
      assert gs[n].key in KeySet(pre) ==> KeySet(gs) == KeySet(pre);
      CardDistinctKeys(pre);
      forall i, j | 0 <= i < j < |gs| ensures gs[i].key != gs[j].key {
        if j == n {
          assert gs[i] in pre;
        } else {
          assert pre[i] == gs[i] && pre[j] == gs[j];
        }
      }
    }
  }

  /** A group-by has exactly one group per distinct key of the table. */
  lemma GroupCount(rows: seq<Row>, c: KeyColumn, gs: seq<Group>)
    requires Grouped(rows, c, gs)
    ensures |gs| == |RowKeys(rows, c)|
  {
    DistinctKeysCard(gs);
  }

  /** The group-by reads only the key column, revenue and margin, so the
      month and unit_price columns never change it. */
  lemma {:induction false} GroupByCore(a: seq<Row>, b: seq<Row>, c: KeyColumn)
    requires SameCore(a, b)
    ensures GroupBy(a, c) == GroupBy(b, c)
    decreases |a|
  {
    if a != [] {
      var n := |a| - 1;
      assert SameCore(a[..n], b[..n]);
      GroupByCore(a[..n], b[..n], c);
      AddCore(GroupBy(a[..n], c), a[n], b[n], c);
    }
  }

  lemma AddCore(gs: seq<Group>, x: Row, y: Row, c: KeyColumn)
    requires Core(x) == Core(y)
    ensures Add(gs, x, c) == Add(gs, y, c)
  {
    assert KeyOf(x, c) == KeyOf(Core(x), c) == KeyOf(y, c);
    assert x.revenue == Core(x).revenue && x.margin == Core(x).margin;
  }
}
