/** Counting: finite sums over one number per thread, different numbers below a bound, subsets. */
module Sums {

  function Sum(a: seq<nat>): nat {
    if a == [] then 0 else Sum(a[..|a| - 1]) + a[|a| - 1]
  }

  /** If every entry but `t` may only shrink, the sum moves by at most the change at `t`. */
  lemma {:induction false} SumMove(a: seq<nat>, b: seq<nat>, t: nat)
    requires |a| == |b| && t < |a|
    requires forall i :: 0 <= i < |a| && i != t ==> b[i] <= a[i]
    ensures Sum(b) + a[t] <= Sum(a) + b[t]
  {
    var n := |a| - 1;
    if t == n {
      SumMonotone(a[..n], b[..n]);
    } else {
      SumMove(a[..n], b[..n], t);
    }
  }

  lemma {:induction false} SumMonotone(a: seq<nat>, b: seq<nat>)
    requires |a| == |b|
    requires forall i :: 0 <= i < |a| ==> b[i] <= a[i]
    ensures Sum(b) <= Sum(a)
  {
    if a != [] {
      SumMonotone(a[..|a| - 1], b[..|a| - 1]);
    }
  }

  /** The exact version: only entry `t` changes. */
  lemma SumUpdate(a: seq<nat>, b: seq<nat>, t: nat)
    requires |a| == |b| && t < |a|
    requires forall i :: 0 <= i < |a| && i != t ==> b[i] == a[i]
    ensures Sum(b) + a[t] == Sum(a) + b[t]
  {
    SumMove(a, b, t);
    SumMove(b, a, t);
  }

  lemma {:induction false} SumAtMost(a: seq<nat>, k: nat)
    requires forall i :: 0 <= i < |a| ==> a[i] <= k
    ensures Sum(a) <= k * |a|
  {
    if a != [] {
      SumAtMost(a[..|a| - 1], k);
    }
  }

  /** As `SumAtMost`, with one entry known to be zero. */
  lemma SumAtMostBut(a: seq<nat>, k: nat, t: nat)
    requires t < |a| && a[t] == 0
    requires forall i :: 0 <= i < |a| ==> a[i] <= k
    ensures Sum(a) <= k * (|a| - 1)
  {
    var b := a[t := k];
    SumMove(b, a, t);
    SumAtMost(b, k);
  }

  lemma {:induction false} SumPair(a: seq<nat>, b: seq<nat>, k: nat)
    requires |a| == |b|
    requires forall i :: 0 <= i < |a| ==> a[i] + b[i] <= k
    ensures Sum(a) + Sum(b) <= k * |a|
  {
    if a != [] {
      SumPair(a[..|a| - 1], b[..|a| - 1], k);
    }
  }

  lemma {:induction false} SumZero(a: seq<nat>)
    requires forall i :: 0 <= i < |a| ==> a[i] == 0
    ensures Sum(a) == 0
  {
    if a != [] {
      SumZero(a[..|a| - 1]);
    }
  }

  lemma {:induction false} SumAtLeast(a: seq<nat>, t: nat)
    requires t < |a|
    ensures a[t] <= Sum(a)
  {
    if t < |a| - 1 {
      SumAtLeast(a[..|a| - 1], t);
    }
  }

  /** Pairwise different numbers below `n`: there are at most `n` of them. */
  lemma {:induction false} DistinctBounded(q: seq<nat>, n: nat)
    requires forall i :: 0 <= i < |q| ==> q[i] < n
    requires forall i, j :: 0 <= i < j < |q| ==> q[i] != q[j]
    ensures |q| <= n
  {
    assert q != [] ==> q[0] < n;
    if n > 0 {
      if i :| 0 <= i < |q| && q[i] == n - 1 {
        DistinctBounded(q[..i] + q[i + 1..], n - 1);
      } else {
        DistinctBounded(q, n - 1);
      }
    }
  }

  lemma {:induction false} SubsetSize<T>(a: set<T>, b: set<T>)
    requires a <= b
    ensures |a| <= |b|
  {
    assert b == a + (b - a);
  }
}
