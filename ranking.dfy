/** Descending sorts of a group-by on one of its reductions, and the top-N
    truncations taken from them (sort_values(ascending=False).head(n) and
    nlargest(n, column)). Ties are left in no particular order: the
    contracts claim only that the order is non-increasing. */
module Ranking {
  import opened Seqs
  import opened Orders
  import opened Grouping

  datatype Metric = ByRevenue | ByOrders | ByMeanMargin

  /** `a` may stand before `b` in a descending sort on metric `m`. A group
      without a finite mean margin sorts after every group that has one, as
      a missing value sorts last. */
  predicate Ranks(a: Group, b: Group, m: Metric)
  {
    match m
    case ByRevenue => a.revenue >= b.revenue
    case ByOrders => a.count >= b.count
    case ByMeanMargin =>
      match MeanMargin(b)
      case None => true
      case Some(y) => MeanMargin(a).Some? && MeanMargin(a).value >= y
  }

  predicate Sorted(gs: seq<Group>, m: Metric)
  {
    forall i, j :: 0 <= i < j < |gs| ==> Ranks(gs[i], gs[j], m)
  }

  lemma RanksTotal(a: Group, b: Group, m: Metric)
    ensures Ranks(a, b, m) || Ranks(b, a, m)
  {
  }

  lemma RanksTransitive(a: Group, b: Group, c: Group, m: Metric)
    requires Ranks(a, b, m) && Ranks(b, c, m)
    ensures Ranks(a, c, m)
  {
  }

  /** Inserts `g` into a descending list, before the first entry it ranks at
      or above. */
  function Insert(g: Group, gs: seq<Group>, m: Metric): (r: seq<Group>)
    ensures multiset(r) == multiset(gs) + multiset{g}
  {
    if gs == [] || Ranks(g, gs[0], m) then
      [g] + gs
    else
      assert gs == [gs[0]] + gs[1..];
      [gs[0]] + Insert(g, gs[1..], m)
  }

  lemma InsertMembers(g: Group, gs: seq<Group>, m: Metric)
    ensures forall x :: x in Insert(g, gs, m) <==> x == g || x in gs
  {
    var r := Insert(g, gs, m);
    forall x ensures x in r <==> x == g || x in gs {
      calc {
        x in r;
        x in multiset(r);
        x in multiset(gs) + multiset{g};
      }
    }
  }

  lemma {:induction false} InsertSorted(g: Group, gs: seq<Group>, m: Metric)
    requires Sorted(gs, m)
    ensures Sorted(Insert(g, gs, m), m)
    decreases |gs|
  {
    if gs == [] {
    } else if Ranks(g, gs[0], m) {
      forall j | 0 < j < |gs| ensures Ranks(g, gs[j], m) {
        RanksTransitive(g, gs[0], gs[j], m);
      }
    } else {
      var h := gs[0];
      var rest := Insert(g, gs[1..], m);
      InsertSorted(g, gs[1..], m);
      InsertMembers(g, gs[1..], m);
      RanksTotal(g, h, m);
      forall x | x in rest ensures Ranks(h, x, m) {
        if x != g {
          var j :| 0 <= j < |gs[1..]| && gs[1..][j] == x;
          assert gs[j + 1] == x;
        }
      }
      var r := [h] + rest;
      forall i, j | 0 <= i < j < |r| ensures Ranks(r[i], r[j], m) {
        if i == 0 {
          assert r[j] == rest[j - 1] && rest[j - 1] in rest;
        } else {
          assert r[i] == rest[i - 1] && r[j] == rest[j - 1];
        }
      }
    }
  }

  /** An insertion sort into descending order: the result is a permutation
      of the input and non-increasing in the metric. */
  function SortBy(gs: seq<Group>, m: Metric): (r: seq<Group>)
    ensures Sorted(r, m)
    ensures multiset(r) == multiset(gs)
  {
    if gs == [] then []
    else
      assert gs == [gs[0]] + gs[1..];
      var sorted := SortBy(gs[1..], m);
      InsertSorted(gs[0], sorted, m);
      Insert(gs[0], sorted, m)
  }

  /** A permutation of a group list has the same keys, and distinct keys
      stay distinct. */
  lemma PermutationKeys(a: seq<Group>, b: seq<Group>)
    requires multiset(a) == multiset(b)
    ensures KeySet(a) == KeySet(b)
    ensures DistinctKeys(a) ==> DistinctKeys(b)
  {
    forall g ensures g in a <==> g in b {
      assert g in a <==> g in multiset(a);
      assert g in b <==> g in multiset(b);
    }
    forall k | k in KeySet(a) ensures k in KeySet(b) {
      var g :| g in a && g.key == k;
    }
    forall k | k in KeySet(b) ensures k in KeySet(a) {
      var g :| g in b && g.key == k;
    }
    assert KeySet(a) == KeySet(b);
    assert |a| == |multiset(a)| == |multiset(b)| == |b|;
    if DistinctKeys(a) {
      DistinctKeysCard(a);
      CardDistinctKeys(b);
    }
  }

  /** The group-by of `rows` on `c`, sorted in descending order of `m`. */
  function Ranked(rows: seq<Row>, c: KeyColumn, m: Metric): (ranked: seq<Group>)
    ensures Grouped(rows, c, ranked)
    ensures Sorted(ranked, m)
    ensures |ranked| == |RowKeys(rows, c)|
  {
    var gs := GroupBy(rows, c);
    var ranked := SortBy(gs, m);
    PermutationKeys(gs, ranked);
    forall g | g in ranked ensures g in gs {
      assert g in multiset(ranked);
    }
    DistinctKeysCard(ranked);
    ranked
  }

  /** The first `n` groups of the ranking: at most `n`, each a distinct key
      of the table with its reductions, non-increasing in `m`, and every key
      left out ranking no higher than any key kept. */
  function Top(rows: seq<Row>, c: KeyColumn, m: Metric, n: nat): (top: seq<Group>)
    ensures |top| == Min(n, |RowKeys(rows, c)|)
    ensures DistinctKeys(top) && Sorted(top, m)
    ensures forall g :: g in top ==> g.key in RowKeys(rows, c) && g == Summary(rows, c, g.key)
    ensures forall g, k :: g in top && k in RowKeys(rows, c) && k !in KeySet(top) ==> Ranks(g, Summary(rows, c, k), m)
  {
    var ranked := Ranked(rows, c, m);
    var top := Head(ranked, n);
    HeadOutranksRest(rows, c, m, ranked, top);
    top
  }

  lemma HeadOutranksRest(rows: seq<Row>, c: KeyColumn, m: Metric, ranked: seq<Group>, top: seq<Group>)
    requires Grouped(rows, c, ranked) && Sorted(ranked, m)
    requires |top| <= |ranked| && top == ranked[..|top|]
    ensures forall g, k :: g in top && k in RowKeys(rows, c) && k !in KeySet(top) ==> Ranks(g, Summary(rows, c, k), m)
  {
    forall i | 0 <= i < |top| ensures ranked[i].key in KeySet(top) {
      assert top[i] in top;
    }
    forall g, k | g in top && k in RowKeys(rows, c) && k !in KeySet(top)
      ensures Ranks(g, Summary(rows, c, k), m)
    {
      var i :| 0 <= i < |top| && top[i] == g;
      assert k in KeySet(ranked);
      var j :| 0 <= j < |ranked| && ranked[j].key == k;
      assert ranked[j] in ranked;
    }
  }
}
