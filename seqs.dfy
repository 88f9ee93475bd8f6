/** Sequence utilities shared by the pipeline: an order-preserving filter,
    the indices it keeps, and the head/tail truncations of a ranking. */
module Seqs {

  function Min(a: int, b: int): int
  {
    if a <= b then a else b
  }

  /** The elements of `s` that satisfy `p`, in their original order
      (a boolean mask applied to a table). */
  function Filter<T(!new)>(s: seq<T>, p: T -> bool): (r: seq<T>)
    ensures |r| <= |s|
    decreases |s|
  {
    if s == [] then []
    else Filter(s[..|s| - 1], p) + (if p(s[|s| - 1]) then [s[|s| - 1]] else [])
  }

  /** The filter keeps exactly the elements that satisfy `p`. */
  lemma {:induction false} FilterMembers<T(!new)>(s: seq<T>, p: T -> bool)
    ensures forall x :: x in Filter(s, p) <==> x in s && p(x)
    decreases |s|
  {
    if s != [] {
      var n := |s| - 1;
      FilterMembers(s[..n], p);
      assert s == s[..n] + [s[n]];
    }
  }

  lemma FilterSnoc<T(!new)>(s: seq<T>, x: T, p: T -> bool)
    ensures Filter(s + [x], p) == Filter(s, p) + (if p(x) then [x] else [])
  {
    assert (s + [x])[..|s|] == s;
  }

  lemma FilterPrefix<T(!new)>(s: seq<T>, i: nat, p: T -> bool)
    requires i < |s|
    ensures Filter(s[..i + 1], p) == Filter(s[..i], p) + (if p(s[i]) then [s[i]] else [])
  {
    assert s[..i + 1] == s[..i] + [s[i]];
    FilterSnoc(s[..i], s[i], p);
  }

  /** The positions of `s` that `Filter(s, p)` keeps: strictly increasing,
      exactly the positions whose element satisfies `p`, and the k-th kept
      element is the one at the k-th position. */
  function KeptIndices<T(!new)>(s: seq<T>, p: T -> bool): (idx: seq<nat>)
    ensures |idx| == |Filter(s, p)|
    ensures forall k :: 0 <= k < |idx| ==> idx[k] < |s| && p(s[idx[k]]) && Filter(s, p)[k] == s[idx[k]]
    ensures forall k, l :: 0 <= k < l < |idx| ==> idx[k] < idx[l]
    ensures forall i :: 0 <= i < |s| && p(s[i]) ==> i in idx
    decreases |s|
  {
    if s == [] then []
    else
      var n := |s| - 1;
      var pre := s[..n];
      var idx := KeptIndices(pre, p);
      var r := idx + (if p(s[n]) then [n] else []);
      KeptIndicesStep(s, p, idx, r);
      r
  }

  lemma KeptIndicesStep<T(!new)>(s: seq<T>, p: T -> bool, idx: seq<nat>, r: seq<nat>)
    requires s != []
    requires |idx| == |Filter(s[..|s| - 1], p)|
    requires forall k :: 0 <= k < |idx| ==> idx[k] < |s| - 1 && p(s[idx[k]]) && Filter(s[..|s| - 1], p)[k] == s[idx[k]]
    requires forall k, l :: 0 <= k < l < |idx| ==> idx[k] < idx[l]
    requires forall i :: 0 <= i < |s| - 1 && p(s[i]) ==> i in idx
    requires r == idx + (if p(s[|s| - 1]) then [|s| - 1] else [])
    ensures |r| == |Filter(s, p)|
    ensures forall k :: 0 <= k < |r| ==> r[k] < |s| && p(s[r[k]]) && Filter(s, p)[k] == s[r[k]]
    ensures forall k, l :: 0 <= k < l < |r| ==> r[k] < r[l]
    ensures forall i :: 0 <= i < |s| && p(s[i]) ==> i in r
  {
    var n := |s| - 1;
    var pre := s[..n];
    assert Filter(s, p) == Filter(pre, p) + (if p(s[n]) then [s[n]] else []);
    forall i | 0 <= i < |s| && p(s[i]) ensures i in r {
      if i < n {
        assert pre[i] == s[i];
        assert i in idx;
      }
    }
  }

  /** Two masks applied one after the other keep what their conjunction keeps. */
  lemma {:induction false} FilterFilter<T(!new)>(s: seq<T>, p: T -> bool, q: T -> bool, pq: T -> bool)
    requires forall x :: pq(x) == (p(x) && q(x))
    ensures Filter(Filter(s, p), q) == Filter(s, pq)
    decreases |s|
  {
    if s != [] {
      var n := |s| - 1;
      var pre := s[..n];
      var x := s[n];
      FilterFilter(pre, p, q, pq);
      assert s == pre + [x];
      FilterSnoc(pre, x, p);
      FilterSnoc(pre, x, pq);
      if p(x) {
        FilterSnoc(Filter(pre, p), x, q);
      } else {
        assert Filter(s, p) == Filter(pre, p);
      }
    }
  }

  /** The first `n` entries, or all of them when there are fewer. */
  function Head<T>(s: seq<T>, n: nat): seq<T>
  {
    s[..Min(n, |s|)]
  }

  /** The last `n` entries, or all of them when there are fewer. */
  function Tail<T>(s: seq<T>, n: nat): seq<T>
  {
    s[|s| - Min(n, |s|)..]
  }
}
