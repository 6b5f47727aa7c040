/** Permutations of 0..n-1, the index arrays the knapsack solvers sort and
    shuffle by, and sums over the items a list of positions names. */
module Permutations {

  ghost predicate Distinct<T>(s: seq<T>) {
    forall i, j :: 0 <= i < j < |s| ==> s[i] != s[j]
  }

  ghost predicate Below(s: seq<nat>, n: nat) {
    forall i :: 0 <= i < |s| ==> s[i] < n
  }

  ghost predicate IsPermutation(p: seq<nat>, n: nat) {
    |p| == n && Below(p, n) && Distinct(p)
  }

  /** An order to put items in: a permutation of 0..|p|-1. */
  type Order = p: seq<nat> | IsPermutation(p, |p|) witness []

  /** What `keys.argsort()` may return: some order of the positions in which
      the keys do not decrease. Ties may come in any order. */
  ghost predicate IsArgsort(p: seq<nat>, keys: seq<int>) {
    && IsPermutation(p, |keys|)
    && forall i, j :: 0 <= i < j < |p| ==> keys[p[i]] <= keys[p[j]]
  }

  /** numpy's `xs[p]` */
  function Reorder<T>(xs: seq<T>, p: seq<nat>): (r: seq<T>)
    requires forall i :: 0 <= i < |p| ==> p[i] < |xs|
    ensures |r| == |p| && forall i :: 0 <= i < |p| ==> r[i] == xs[p[i]]
  {
    seq(|p|, i requires 0 <= i < |p| => xs[p[i]])
  }

  // ---- sums over positions ----

  /** Sum of the first n entries of xs whose flag is set. */
  function Total(xs: seq<int>, take: seq<bool>, n: nat): int
    requires n <= |xs| && n <= |take|
  {
    if n == 0 then 0 else Total(xs, take, n - 1) + if take[n - 1] then xs[n - 1] else 0
  }

  /** Sum of xs over a list of positions, as the objective and the weight
      check compute it. */
  function SumAt(xs: seq<int>, ids: seq<nat>): int
    requires Below(ids, |xs|)
  {
    if ids == [] then 0 else
      assert Below(ids[..|ids| - 1], |xs|);
      SumAt(xs, ids[..|ids| - 1]) + xs[ids[|ids| - 1]]
  }

  /** The selection a list of positions denotes. */
  function Flags(ids: seq<nat>, n: nat): (take: seq<bool>)
    ensures |take| == n && forall k :: 0 <= k < n ==> (take[k] <==> k in ids)
  {
    seq(n, k => k in ids)
  }

  lemma {:induction false} TotalDependsOnPrefix(xs: seq<int>, take: seq<bool>, ys: seq<int>, other: seq<bool>, n: nat)
    requires n <= |xs| && n <= |take| && n <= |ys| && n <= |other|
    requires forall k :: 0 <= k < n ==> xs[k] == ys[k] && take[k] == other[k]
    ensures Total(xs, take, n) == Total(ys, other, n)
  {
    if n > 0 {
      TotalDependsOnPrefix(xs, take, ys, other, n - 1);
    }
  }

  lemma {:induction false} TotalSetFlag(xs: seq<int>, take: seq<bool>, k: nat, n: nat)
    requires k < n <= |xs| && n <= |take| && !take[k]
    ensures Total(xs, take[k := true], n) == Total(xs, take, n) + xs[k]
  {
    if k == n - 1 {
      TotalDependsOnPrefix(xs, take[k := true], xs, take, n - 1);
    } else {
      TotalSetFlag(xs, take, k, n - 1);
    }
  }

  lemma {:induction false} TotalOfNone(xs: seq<int>, take: seq<bool>, n: nat)
    requires n <= |xs| && n <= |take|
    requires forall k :: 0 <= k < n ==> !take[k]
    ensures Total(xs, take, n) == 0
  {
    if n > 0 {
      TotalOfNone(xs, take, n - 1);
    }
  }

  /** A list without repetition sums to the same as the selection it denotes. */
  lemma {:induction false} SumAtIsTotal(xs: seq<int>, ids: seq<nat>)
    requires Below(ids, |xs|) && Distinct(ids)
    ensures SumAt(xs, ids) == Total(xs, Flags(ids, |xs|), |xs|)
  {
    if ids == [] {
      TotalOfNone(xs, Flags(ids, |xs|), |xs|);
    } else {
      var rest, last := ids[..|ids| - 1], ids[|ids| - 1];
      SumAtIsTotal(xs, rest);
      assert forall k :: k in ids <==> k in rest || k == last by { assert ids == rest + [last]; }
      assert last !in rest;
      assert Flags(ids, |xs|) == Flags(rest, |xs|)[last := true];
      TotalSetFlag(xs, Flags(rest, |xs|), last, |xs|);
    }
  }

  // ---- inverse permutations ----

  /** Where k stands in p. */
  function PositionOf(p: seq<nat>, k: nat): (i: nat)
    requires k in p
    ensures i < |p| && p[i] == k
  {
    if p[0] == k then 0 else 1 + PositionOf(p[1..], k)
  }

  function Elements<T(==,!new)>(s: seq<T>): (r: set<T>)
    ensures forall x :: x in r <==> x in s
  {
    set x | x in s
  }

  function Range(n: nat): (r: set<nat>)
    ensures |r| == n && forall k: nat :: k in r <==> k < n
  {
    if n == 0 then {} else Range(n - 1) + {n - 1}
  }

  lemma {:induction false} DistinctCardinality<T(!new)>(s: seq<T>)
    requires Distinct(s)
    ensures |Elements(s)| == |s|
  {
    if s == [] {
      assert Elements(s) == {};
    } else {
      var rest, last := s[..|s| - 1], s[|s| - 1];
      DistinctCardinality(rest);
      assert s == rest + [last];
      assert Elements(s) == Elements(rest) + {last};
      assert last !in rest;
    }
  }

  lemma SubsetCardinality<T>(a: set<T>, b: set<T>)
    requires a <= b
    ensures |a| <= |b| && (|a| == |b| ==> a == b)
  {
    assert b == a + (b - a);
  }

  lemma PermutationHitsAll(p: seq<nat>, n: nat)
    requires IsPermutation(p, n)
    ensures forall k: nat :: k < n ==> k in p
  {
    DistinctCardinality(p);
    assert Elements(p) <= Range(n);
    SubsetCardinality(Elements(p), Range(n));
    assert forall k: nat :: k < n ==> k in Range(n);
  }

  /** The inverse permutation: what `p.argsort()` must be when p is one. */
  function Inverse(p: seq<nat>): (q: seq<nat>)
    requires IsPermutation(p, |p|)
    ensures |q| == |p| && Below(q, |p|)
    ensures forall k {:trigger p[q[k]]} :: 0 <= k < |p| ==> p[q[k]] == k
    ensures forall k {:trigger q[p[k]]} :: 0 <= k < |p| ==> q[p[k]] == k
  {
    PermutationHitsAll(p, |p|);
    var q := seq(|p|, k requires 0 <= k < |p| => PositionOf(p, k));
    assert forall k :: 0 <= k < |p| ==> p[q[p[k]]] == p[k];
    q
  }

  /** numpy's `p[q]` for two orders. */
  function Compose(p: Order, q: Order): (r: Order)
    requires |p| == |q|
    ensures |r| == |p|
  {
    var r := Reorder(p, q);
    assert forall i, j :: 0 <= i < j < |r| ==> r[i] != r[j] by {
      forall i, j | 0 <= i < j < |r| ensures r[i] != r[j] {
        assert q[i] != q[j];
      }
    }
    r
  }

  /** 0, 1, ..., n-1 */
  function Identity(n: nat): (r: Order)
    ensures |r| == n && forall i :: 0 <= i < n ==> r[i] == i
  {
    seq(n, i => i)
  }

  lemma InverseIsPermutation(p: seq<nat>)
    requires IsPermutation(p, |p|)
    ensures IsPermutation(Inverse(p), |p|)
  {
    var q := Inverse(p);
    forall i, j | 0 <= i < j < |q| ensures q[i] != q[j] {
      assert p[q[i]] == i && p[q[j]] == j;
    }
  }

  lemma {:induction false} IncreasingIsAtLeastIndex(s: seq<int>, k: nat)
    requires k < |s| && s[0] >= 0
    requires forall i, j :: 0 <= i < j < |s| ==> s[i] < s[j]
    ensures s[k] >= k
  {
    if k > 0 {
      IncreasingIsAtLeastIndex(s, k - 1);
    }
  }

  lemma {:induction false} IncreasingIsAtMostIndex(s: seq<int>, k: nat)
    requires k < |s| && s[|s| - 1] < |s|
    requires forall i, j :: 0 <= i < j < |s| ==> s[i] < s[j]
    ensures s[k] <= k
    decreases |s| - k
  {
    if k < |s| - 1 {
      IncreasingIsAtMostIndex(s, k + 1);
    }
  }

  /** Sorting the positions of a permutation by their values leaves one
      answer, its inverse: `idx.argsort()` undoes `xs[idx]`. */
  lemma ArgsortOfPermutationIsInverse(p: seq<nat>, q: seq<nat>)
    requires IsPermutation(p, |p|)
    ensures IsArgsort(q, p) <==> q == Inverse(p)
  {
    if IsArgsort(q, p) {
      var s: seq<int> := Reorder(p, q);
      forall i, j | 0 <= i < j < |s| ensures s[i] < s[j] {
        assert q[i] != q[j];
      }
      forall k | 0 <= k < |p| ensures q[k] == Inverse(p)[k] {
        IncreasingIsAtLeastIndex(s, k);
        IncreasingIsAtMostIndex(s, k);
        assert p[q[k]] == k;
      }
      assert q == Inverse(p);
    } else if q == Inverse(p) {
      InverseIsPermutation(p);
      assert false;
    }
  }

  lemma {:induction false} SumAtOfReorder(xs: seq<int>, take: seq<bool>, p: seq<nat>, n: nat)
    requires n <= |p| && |take| == |xs| && Below(p, |xs|)
    ensures Below(p[..n], |xs|)
    ensures Total(Reorder(xs, p), Reorder(take, p), n)
         == SumAt(seq(|xs|, k requires 0 <= k < |xs| => if take[k] then xs[k] else 0), p[..n])
  {
    if n > 0 {
      SumAtOfReorder(xs, take, p, n - 1);
      assert p[..n][..n - 1] == p[..n - 1];
    }
  }

  lemma {:induction false} TotalOfMasked(xs: seq<int>, take: seq<bool>, all: seq<bool>, n: nat)
    requires n <= |xs| && |take| == |xs| == |all|
    requires forall k :: 0 <= k < |all| ==> all[k]
    ensures Total(seq(|xs|, k requires 0 <= k < |xs| => if take[k] then xs[k] else 0), all, n) == Total(xs, take, n)
  {
    if n > 0 {
      TotalOfMasked(xs, take, all, n - 1);
    }
  }

  /** Reordering items and flags together does not change what is selected. */
  lemma {:induction false} TotalOfReorder(xs: seq<int>, take: seq<bool>, p: seq<nat>)
    requires |take| == |xs| && IsPermutation(p, |xs|)
    ensures Total(Reorder(xs, p), Reorder(take, p), |xs|) == Total(xs, take, |xs|)
  {
    var masked := seq(|xs|, k requires 0 <= k < |xs| => if take[k] then xs[k] else 0);
    SumAtOfReorder(xs, take, p, |xs|);
    assert p[..|xs|] == p;
    SumAtIsTotal(masked, p);
    PermutationHitsAll(p, |xs|);
    TotalOfMasked(xs, take, Flags(p, |xs|), |xs|);
  }
}
