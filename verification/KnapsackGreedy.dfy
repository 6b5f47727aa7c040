/** knapsack/solvers/Heuristic.py, DirectHeuristic.py and RandomHeuristic.py */
module KnapsackGreedy {
  import opened Permutations
  import opened Knapsack

  ghost predicate NonNegative(ws: seq<int>) {
    forall i :: 0 <= i < |ws| ==> ws[i] >= 0
  }

  function Min(ws: seq<int>): (m: int)
    requires |ws| > 0
    ensures m in ws && forall i :: 0 <= i < |ws| ==> m <= ws[i]
  {
    if |ws| == 1 then ws[0] else
      var rest := Min(ws[..|ws| - 1]);
      assert forall i :: 0 <= i < |ws| - 1 ==> ws[..|ws| - 1][i] == ws[i];
      if rest <= ws[|ws| - 1] then rest else ws[|ws| - 1]
  }

  /** The reference: capacity left after taking, in order, every one of the
      first i items that still fits. */
  function Room(ws: seq<int>, capacity: int, i: nat): int
    requires i <= |ws|
  {
    if i == 0 then capacity
    else
      var before := Room(ws, capacity, i - 1);
      if ws[i - 1] <= before then before - ws[i - 1] else before
  }

  /** The items the reference takes. */
  function FullFlags(ws: seq<int>, capacity: int): (take: seq<bool>)
    ensures |take| == |ws|
  {
    seq(|ws|, i requires 0 <= i < |ws| => ws[i] <= Room(ws, capacity, i))
  }

  /** The items the heuristic takes: it also stops once the smallest weight is
      not strictly below the capacity left. */
  function GreedyFlags(ws: seq<int>, capacity: int): (take: seq<bool>)
    requires |ws| > 0
    ensures |take| == |ws|
  {
    seq(|ws|, i requires 0 <= i < |ws| =>
      Min(ws) < Room(ws, capacity, i) && ws[i] <= Room(ws, capacity, i))
  }

  /** No item left out would still fit. */
  ghost predicate IsMaximal(ws: seq<int>, capacity: int, take: seq<bool>)
    requires |take| == |ws|
  {
    forall k :: 0 <= k < |ws| && !take[k] ==> ws[k] > capacity - Total(ws, take, |ws|)
  }

  /** Item k has the smallest weight of all and would fill the capacity left at
      its turn exactly. */
  ghost predicate FillsExactly(ws: seq<int>, capacity: int, k: nat)
    requires k < |ws|
  {
    ws[k] == Min(ws) == Room(ws, capacity, k)
  }

  lemma {:induction false} RoomShrinks(ws: seq<int>, capacity: int, i: nat, j: nat)
    requires i <= j <= |ws| && NonNegative(ws) && capacity >= 0
    ensures 0 <= Room(ws, capacity, j) <= Room(ws, capacity, i)
    decreases j
  {
    if i < j {
      RoomShrinks(ws, capacity, i, j - 1);
    } else if j > 0 {
      RoomShrinks(ws, capacity, j - 1, j - 1);
    }
  }

  lemma {:induction false} FullTotal(ws: seq<int>, capacity: int, n: nat)
    requires n <= |ws|
    ensures Total(ws, FullFlags(ws, capacity), n) == capacity - Room(ws, capacity, n)
  {
    if n > 0 {
      FullTotal(ws, capacity, n - 1);
    }
  }

  /** The heuristic's selection weighs what the reference's does up to the
      point where it stops. */
  lemma {:induction false} GreedyTotal(ws: seq<int>, capacity: int, n: nat) returns (stop: nat)
    requires n <= |ws| && |ws| > 0 && NonNegative(ws) && capacity >= 0
    ensures stop <= n && Total(ws, GreedyFlags(ws, capacity), n) == capacity - Room(ws, capacity, stop)
    ensures forall k :: 0 <= k < stop ==> Min(ws) < Room(ws, capacity, k)
    ensures stop < n ==> Room(ws, capacity, stop) <= Min(ws)
  {
    hide Min;
    if n == 0 {
      stop := 0;
    } else {
      stop := GreedyTotal(ws, capacity, n - 1);
      if stop < n - 1 {
        RoomShrinks(ws, capacity, stop, n - 1);
      } else if Min(ws) < Room(ws, capacity, n - 1) {
        stop := n;
      }
    }
  }

  /** The heuristic's selection fits, and the capacity it leaves is no larger
      than the weight of any item it left out. */
  lemma {:induction false} GreedyFits(ws: seq<int>, capacity: int)
    requires |ws| > 0 && NonNegative(ws) && capacity >= 0
    ensures 0 <= Total(ws, GreedyFlags(ws, capacity), |ws|) <= capacity
    ensures forall k :: 0 <= k < |ws| && !GreedyFlags(ws, capacity)[k]
              ==> capacity - Total(ws, GreedyFlags(ws, capacity), |ws|) <= ws[k]
  {
    var take := GreedyFlags(ws, capacity);
    var stop := GreedyTotal(ws, capacity, |ws|);
    RoomShrinks(ws, capacity, 0, stop);
    TotalIsMonotone(ws, take, 0, |ws|);
    forall k | 0 <= k < |ws| && !take[k] ensures Room(ws, capacity, stop) <= ws[k] {
      if k < stop {
        RoomShrinks(ws, capacity, k, stop);
      }
    }
  }

  /** The early exit is an optimisation except in one family of inputs: the
      heuristic leaves out an item that fits exactly when some item of smallest
      weight would fill the remaining capacity exactly. Otherwise it takes what
      the full scan takes. */
  lemma EarlyExitLosesExactlyTheExactFill(ws: seq<int>, capacity: int)
    requires |ws| > 0 && NonNegative(ws) && capacity >= 0
    ensures IsMaximal(ws, capacity, FullFlags(ws, capacity))
    ensures IsMaximal(ws, capacity, GreedyFlags(ws, capacity))
       <==> !(exists k: nat :: k < |ws| && FillsExactly(ws, capacity, k))
    ensures GreedyFlags(ws, capacity) == FullFlags(ws, capacity)
       <==> !(exists k: nat :: k < |ws| && FillsExactly(ws, capacity, k))
  {
    var full, greedy := FullFlags(ws, capacity), GreedyFlags(ws, capacity);
    FullTotal(ws, capacity, |ws|);
    forall k | 0 <= k < |ws| && !full[k] ensures ws[k] > Room(ws, capacity, |ws|) {
      RoomShrinks(ws, capacity, k, |ws|);
    }
    if k: nat :| k < |ws| && FillsExactly(ws, capacity, k) {
      assert full[k] && !greedy[k];
      var stop := GreedyTotal(ws, capacity, |ws|);
      assert stop <= k;
      RoomShrinks(ws, capacity, stop, k);
      assert ws[k] <= capacity - Total(ws, greedy, |ws|);
    } else {
      forall k | 0 <= k < |ws| ensures full[k] == greedy[k] {
        assert !FillsExactly(ws, capacity, k);
      }
      assert full == greedy;
    }
  }

  /** The smallest such input: one item as heavy as the capacity. */
  lemma EarlyExitExample()
    ensures GreedyFlags([5], 5) == [false] && FullFlags([5], 5) == [true]
    ensures !IsMaximal([5], 5, GreedyFlags([5], 5))
  {
    assert Min([5]) == 5 && Room([5], 5, 0) == 5;
    assert Total([5], [false], 1) == 0 by { assert Total([5], [false], 0) == 0; }
  }

  lemma {:induction false} NothingAfterTheStop(ws: seq<int>, capacity: int, stop: nat, n: nat)
    requires stop <= n <= |ws| && |ws| > 0 && NonNegative(ws) && capacity >= 0
    requires stop < |ws| ==> Room(ws, capacity, stop) <= Min(ws)
    ensures IdsOf(GreedyFlags(ws, capacity), n) == IdsOf(GreedyFlags(ws, capacity), stop)
    decreases n
  {
    hide Room, Min;
    if stop < n {
      RoomShrinks(ws, capacity, stop, n - 1);
      NothingAfterTheStop(ws, capacity, stop, n - 1);
    }
  }

  /** The pass reads off its own choices: it takes an item if that fits into what
      the items taken before it leave, unless this has come down to the smallest
      weight of all. */
  ghost predicate IsScan(ws: seq<int>, capacity: int, take: seq<bool>)
    requires |take| == |ws| > 0
  {
    forall i :: 0 <= i < |ws| ==>
      var left := capacity - Total(ws, take, i);
      take[i] <==> Min(ws) < left && ws[i] <= left
  }

  lemma {:induction false} GreedyScans(ws: seq<int>, capacity: int)
    requires |ws| > 0 && NonNegative(ws) && capacity >= 0
    ensures IsScan(ws, capacity, GreedyFlags(ws, capacity))
  {
    hide Min;
    forall i | 0 <= i < |ws|
      ensures var left := capacity - Total(ws, GreedyFlags(ws, capacity), i);
        GreedyFlags(ws, capacity)[i] <==> Min(ws) < left && ws[i] <= left
    {
      var stop := GreedyTotal(ws, capacity, i);
      RoomShrinks(ws, capacity, stop, i);
    }
  }

  /** What one greedy pass in the order p includes, in the instance's ids. */
  function PassIds(inst: Instance, p: Order): (ids: seq<nat>)
    requires |p| == inst.Size() > 0
    ensures Below(ids, inst.Size()) && Distinct(ids)
  {
    IdsOf(Reorder(GreedyFlags(Reorder(inst.weights, p), inst.capacity), Inverse(p)), inst.Size())
  }

  /** In whatever order a pass runs, its solution passes the weight check, and
      no item it leaves out is lighter than the spare capacity. */
  lemma PassIsFeasible(inst: Instance, p: Order)
    requires inst.Valid() && |p| == inst.Size() > 0
    ensures IsSelection(inst, PassIds(inst, p))
    ensures CheckTotalWeight(inst, PassIds(inst, p)).Silent?
    ensures forall k: nat :: k < inst.Size() && k !in PassIds(inst, p)
              ==> inst.capacity - Weight(inst, PassIds(inst, p)) <= inst.weights[k]
  {
    hide Min, Room;
    var ws := Reorder(inst.weights, p);
    var take := GreedyFlags(ws, inst.capacity);
    var back := Reorder(take, Inverse(p));
    GreedyFits(ws, inst.capacity);
    assert Reorder(back, p) == take;
    TotalOfReorder(inst.weights, back, p);
    SumOfIds(inst.weights, back);
    forall k: nat | k < inst.Size() && k !in PassIds(inst, p)
      ensures inst.capacity - Weight(inst, PassIds(inst, p)) <= inst.weights[k]
    {
      assert !take[Inverse(p)[k]];
    }
  }

  /** The listed ids, in increasing order, are those of the items a scan in the
      order p takes. */
  ghost predicate IsPass(inst: Instance, p: Order, ids: seq<nat>)
    requires |p| == inst.Size() > 0
  {
    && (forall i, j :: 0 <= i < j < |ids| ==> ids[i] < ids[j])
    && (forall id :: id in ids ==> id in p)
    && exists take: seq<bool> :: |take| == |p| && IsScan(Reorder(inst.weights, p), inst.capacity, take)
         && forall i :: 0 <= i < |p| ==> (p[i] in ids <==> take[i])
  }

  lemma {:induction false} IdsAscend(take: seq<bool>, n: nat)
    requires n <= |take|
    ensures forall i, j :: 0 <= i < j < |IdsOf(take, n)| ==> IdsOf(take, n)[i] < IdsOf(take, n)[j]
  {
    if n > 0 {
      IdsAscend(take, n - 1);
      var before := IdsOf(take, n - 1);
      assert forall i :: 0 <= i < |before| ==> before[i] in before;
    }
  }

  lemma {:induction false} PassIsPass(inst: Instance, p: Order)
    requires inst.Valid() && |p| == inst.Size() > 0
    ensures IsPass(inst, p, PassIds(inst, p))
  {
    hide Min, Room, IsScan, GreedyFlags;
    var ws := Reorder(inst.weights, p);
    var take := GreedyFlags(ws, inst.capacity);
    var ids := PassIds(inst, p);
    GreedyScans(ws, inst.capacity);
    IdsAscend(Reorder(take, Inverse(p)), inst.Size());
    forall i | 0 <= i < |p| ensures p[i] in ids <==> take[i] {
      assert Inverse(p)[p[i]] == i;
    }
    forall id | id in ids ensures id in p {
      assert p[Inverse(p)[id]] == id;
    }
  }

  /** The order the items stand in after all the shuffles, each applied to the
      arrays as the one before left them. */
  ghost function AfterShuffles(n: nat, shuffles: seq<Order>): (ids: Order)
    requires forall k :: 0 <= k < |shuffles| ==> |shuffles[k]| == n
    ensures |ids| == n
  {
    if shuffles == [] then Identity(n)
    else Compose(AfterShuffles(n, shuffles[..|shuffles| - 1]), shuffles[|shuffles| - 1])
  }

  /** What each pass of the random heuristic includes: the direct pass, then
      one per shuffle. */
  ghost function Passes(inst: Instance, idx: Order, shuffles: seq<Order>): (passes: seq<seq<nat>>)
    requires inst.Size() > 0 && |idx| == inst.Size()
    requires forall k :: 0 <= k < |shuffles| ==> |shuffles[k]| == inst.Size()
    ensures |passes| == |shuffles| + 1 && passes[0] == PassIds(inst, idx)
  {
    if shuffles == [] then [PassIds(inst, idx)]
    else Passes(inst, idx, shuffles[..|shuffles| - 1]) + [PassIds(inst, AfterShuffles(inst.Size(), shuffles))]
  }

  /** `best` is the first of the candidates than which none has a larger
      objective. */
  ghost predicate IsBestOf(inst: Instance, candidates: seq<seq<nat>>, best: seq<nat>) {
    && Below(best, |inst.values|)
    && (exists k :: 0 <= k < |candidates| && candidates[k] == best && IsFirst(inst, candidates, k))
    && forall i :: 0 <= i < |candidates| ==>
         Below(candidates[i], |inst.values|) && Objective(inst, candidates[i]) <= Objective(inst, best)
  }

  /** The ones before it are worse. */
  ghost predicate IsFirst(inst: Instance, candidates: seq<seq<nat>>, k: nat) {
    && k < |candidates| && Below(candidates[k], |inst.values|)
    && forall i :: 0 <= i < k ==>
         Below(candidates[i], |inst.values|) && Objective(inst, candidates[i]) < Objective(inst, candidates[k])
  }

  lemma KeepTheBetter(inst: Instance, candidates: seq<seq<nat>>, best: seq<nat>, next: seq<nat>)
    requires IsBestOf(inst, candidates, best) && Below(next, |inst.values|)
    ensures IsBestOf(inst, candidates + [next], if Objective(inst, best) < Objective(inst, next) then next else best)
  {
    var more := candidates + [next];
    assert more[|candidates|] == next && forall i :: 0 <= i < |candidates| ==> more[i] == candidates[i];
    hide Objective;
    if Objective(inst, best) < Objective(inst, next) {
      assert IsFirst(inst, more, |candidates|);
    } else {
      var k :| 0 <= k < |candidates| && candidates[k] == best && IsFirst(inst, candidates, k);
      assert more[k] == best && IsFirst(inst, more, k);
    }
  }

  lemma {:induction false} OnePassMore(inst: Instance, idx: Order, shuffles: seq<Order>, k: nat)
    requires inst.Size() > 0 && |idx| == inst.Size() && k < |shuffles|
    requires forall j :: 0 <= j < |shuffles| ==> |shuffles[j]| == inst.Size()
    ensures AfterShuffles(inst.Size(), shuffles[..k + 1])
         == Compose(AfterShuffles(inst.Size(), shuffles[..k]), shuffles[k])
    ensures Passes(inst, idx, shuffles[..k + 1])
         == Passes(inst, idx, shuffles[..k]) + [PassIds(inst, AfterShuffles(inst.Size(), shuffles[..k + 1]))]
  {
    assert shuffles[..k + 1][..k] == shuffles[..k];
  }

  /** The items in their own order, and after each shuffle of the arrays as they
      stand: position i then holds what position `shuffle[i]` held. */
  ghost predicate AreStages(n: nat, shuffles: seq<Order>, stages: seq<Order>) {
    && |stages| == |shuffles| + 1
    && (forall k :: 0 <= k < |stages| ==> |stages[k]| == n)
    && (forall i :: 0 <= i < n ==> stages[0][i] == i)
    && forall k, i :: 0 <= k < |shuffles| && 0 <= i < n && |shuffles[k]| == n ==>
         stages[k + 1][i] == stages[k][shuffles[k][i]]
  }

  /** The first pass is one over the sorted order, each further one over the items
      as they stand after one more shuffle. */
  lemma {:induction false} PassesByShuffle(inst: Instance, idx: Order, shuffles: seq<Order>)
    returns (stages: seq<Order>)
    requires inst.Valid() && inst.Size() > 0 && |idx| == inst.Size()
    requires forall k :: 0 <= k < |shuffles| ==> |shuffles[k]| == inst.Size()
    ensures AreStages(inst.Size(), shuffles, stages)
    ensures stages[|shuffles|] == AfterShuffles(inst.Size(), shuffles)
    ensures IsPass(inst, idx, Passes(inst, idx, shuffles)[0])
    ensures forall k :: 0 < k <= |shuffles| ==> IsPass(inst, stages[k], Passes(inst, idx, shuffles)[k])
  {
    hide IsPass, PassIds;
    PassIsPass(inst, idx);
    if shuffles == [] {
      stages := [Identity(inst.Size())];
    } else {
      var n := |shuffles| - 1;
      var before := PassesByShuffle(inst, idx, shuffles[..n]);
      var ids := AfterShuffles(inst.Size(), shuffles);
      stages := before + [ids];
      PassIsPass(inst, ids);
      assert forall k :: 0 <= k < n ==> shuffles[..n][k] == shuffles[k];
      forall k | 0 < k <= |shuffles| ensures IsPass(inst, stages[k], Passes(inst, idx, shuffles)[k]) {
        if k <= n {
          assert stages[k] == before[k];
        }
      }
    }
  }

  lemma {:induction false} OnlyPass(inst: Instance, idx: Order)
    requires inst.Valid() && |idx| == inst.Size() > 0
    ensures IsBestOf(inst, Passes(inst, idx, []), PassIds(inst, idx))
  {
    assert Passes(inst, idx, []) == [PassIds(inst, idx)];
    assert IsFirst(inst, Passes(inst, idx, []), 0);
  }

  lemma {:induction false} EveryPassIsFeasible(inst: Instance, idx: Order, shuffles: seq<Order>, i: nat)
    requires inst.Valid() && inst.Size() > 0 && |idx| == inst.Size() && i <= |shuffles|
    requires forall k :: 0 <= k < |shuffles| ==> |shuffles[k]| == inst.Size()
    ensures IsSelection(inst, Passes(inst, idx, shuffles)[i])
    ensures CheckTotalWeight(inst, Passes(inst, idx, shuffles)[i]).Silent?
  {
    if i < |shuffles| {
      EveryPassIsFeasible(inst, idx, shuffles[..|shuffles| - 1], i);
    } else {
      PassIsFeasible(inst, if i == 0 then idx else AfterShuffles(inst.Size(), shuffles));
    }
  }

  /** The best of all passes fits and is no worse than the direct heuristic. */
  lemma {:induction false} BestPassIsFeasible(inst: Instance, idx: Order, shuffles: seq<Order>, best: seq<nat>)
    requires inst.Valid() && inst.Size() > 0 && |idx| == inst.Size()
    requires forall k :: 0 <= k < |shuffles| ==> |shuffles[k]| == inst.Size()
    requires IsBestOf(inst, Passes(inst, idx, shuffles), best)
    ensures IsSelection(inst, best) && CheckTotalWeight(inst, best).Silent?
    ensures Objective(inst, best) >= Objective(inst, PassIds(inst, idx))
  {
    var passes := Passes(inst, idx, shuffles);
    var i :| 0 <= i < |passes| && best == passes[i];
    EveryPassIsFeasible(inst, idx, shuffles, i);
    assert passes[0] == PassIds(inst, idx);
  }

  lemma ReorderTwice<T>(xs: seq<T>, p: Order, q: Order)
    requires |xs| == |p| == |q|
    ensures Reorder(Reorder(xs, p), q) == Reorder(xs, Compose(p, q))
  {
  }

  lemma ReorderBack<T>(xs: seq<T>, p: Order)
    requires |p| == |xs|
    ensures Reorder(Reorder(xs, p), Inverse(p)) == xs
  {
  }

  method Marks(ids: seq<nat>, n: nat) returns (marks: seq<bool>)
    requires Below(ids, n)
    ensures marks == Flags(ids, n)
  {
    marks := seq(n, _ => false);
    for i := 0 to |ids|
      invariant |marks| == n
      invariant forall k :: 0 <= k < n ==> (marks[k] <==> k in ids[..i])
    {
      marks := marks[ids[i] := true];
      assert ids[..i + 1] == ids[..i] + [ids[i]];
    }
    assert ids[..|ids|] == ids;
  }

  class Heuristic {
    const inst: Instance
    var weights: seq<int>
    var values: seq<int>
    var included: seq<nat>

    constructor (inst: Instance)
      ensures this.inst == inst && included == []
      ensures weights == inst.weights && values == inst.values
    {
      this.inst := inst;
      weights, values := inst.weights, inst.values;
      included := [];
    }

    /** `Heuristic.solve`: one pass over the items in their current order. */
    method Fill()
      requires |weights| > 0 && NonNegative(weights) && inst.capacity >= 0 && included == []
      modifies this`included
      ensures included == IdsOf(GreedyFlags(weights, inst.capacity), |weights|)
    {
      ghost var take := GreedyFlags(weights, inst.capacity);
      var total := 0;
      var minWeight := Min(weights);
      var i := 0;
      while i < |weights| && minWeight < inst.capacity - total
        invariant i <= |weights|
        invariant total == inst.capacity - Room(weights, inst.capacity, i)
        invariant included == IdsOf(take, i)
      {
        if weights[i] + total <= inst.capacity {
          total := total + weights[i];
          included := included + [i];
        }
        i := i + 1;
      }
      NothingAfterTheStop(weights, inst.capacity, i, |weights|);
    }

    /** Marks the included positions, undoes the order `ids` and keeps the
        chosen ids, as all three heuristics do after a pass. */
    method RestoreOrder(ids: seq<nat>)
      requires |weights| > 0 && IsPermutation(ids, |weights|)
      requires Below(included, |weights|)
      modifies this`included
      ensures included == IdsOf(Reorder(Flags(old(included), |weights|), Inverse(ids)), |weights|)
    {
      var marks := Marks(included, |weights|);
      included := CollectIds(Reorder(marks, Inverse(ids)));
    }

    /** One pass in the order the items now stand in, in the instance's ids. */
    method Pass(ids: Order)
      requires inst.Valid() && |ids| == inst.Size() > 0 && included == []
      requires weights == Reorder(inst.weights, ids)
      modifies this`included
      ensures included == PassIds(inst, ids)
    {
      Fill();
      RestoreOrder(ids);
      ghost var take := GreedyFlags(weights, inst.capacity);
      assert Flags(IdsOf(take, |weights|), |weights|) == take;
    }

    /** `DirectHeuristic.solve`, for any order the value/weight ratios may be
        sorted into. */
    method SolveDirect(idx: Order)
      requires inst.Valid() && |idx| == inst.Size() > 0
      requires weights == inst.weights && values == inst.values && included == []
      modifies this
      ensures included == PassIds(inst, idx) && IsPass(inst, idx, included)
      ensures weights == Reorder(inst.weights, idx) && |values| == inst.Size()
    {
      hide IsPass, PassIds;
      PassIsPass(inst, idx);
      weights, values := Reorder(weights, idx), Reorder(values, idx);
      Pass(idx);
    }

    /** Shuffles the arrays as they stand, and `ids` with them, and runs a pass. */
    method ShuffledPass(ids: Order, shuf: Order) returns (shuffled: Order)
      requires inst.Valid() && |ids| == |shuf| == inst.Size() > 0 && included == []
      requires weights == Reorder(inst.weights, ids) && |values| == inst.Size()
      modifies this
      ensures shuffled == Compose(ids, shuf)
      ensures weights == Reorder(inst.weights, shuffled) && |values| == inst.Size()
      ensures included == PassIds(inst, shuffled)
    {
      ReorderTwice(inst.weights, ids, shuf);
      weights, values, shuffled := Reorder(weights, shuf), Reorder(values, shuf), Compose(ids, shuf);
      Pass(shuffled);
    }

    /** The direct pass, after which the arrays and the solution are reset. */
    method FirstPass(idx: Order) returns (bestRes: seq<nat>)
      requires inst.Valid() && |idx| == inst.Size() > 0
      requires weights == inst.weights && values == inst.values && included == []
      modifies this
      ensures bestRes == PassIds(inst, idx)
      ensures weights == inst.weights && |values| == inst.Size() && included == []
    {
      hide PassIds;
      SolveDirect(idx);
      bestRes := included;
      included := [];
      var idx2 := Inverse(idx);
      weights, values := Reorder(weights, idx2), Reorder(values, idx2);
      ReorderBack(inst.weights, idx);
    }

    /** `RandomHeuristic.solve`: a direct pass, then one pass per shuffle of
        the arrays as they stand; the best of the passes is kept. */
    method SolveRandom(idx: Order, shuffles: seq<Order>)
      requires inst.Valid() && |idx| == inst.Size() > 0
      requires forall k :: 0 <= k < |shuffles| ==> |shuffles[k]| == inst.Size()
      requires weights == inst.weights && values == inst.values && included == []
      modifies this
      ensures IsBestOf(inst, Passes(inst, idx, shuffles), included)
    {
      hide PassIds, IsBestOf;
      var bestRes := FirstPass(idx);
      OnlyPass(inst, idx);
      var ids := Identity(inst.Size());
      assert weights == Reorder(inst.weights, ids);
      assert shuffles[..0] == [];
      for k := 0 to |shuffles|
        invariant included == [] && ids == AfterShuffles(inst.Size(), shuffles[..k])
        invariant weights == Reorder(inst.weights, ids) && |values| == inst.Size()
        invariant IsBestOf(inst, Passes(inst, idx, shuffles[..k]), bestRes) && Below(bestRes, |inst.values|)
      {
        OnePassMore(inst, idx, shuffles, k);
        hide Passes, AfterShuffles, Reorder, Compose, Objective;
        ids := ShuffledPass(ids, shuffles[k]);
        KeepTheBetter(inst, Passes(inst, idx, shuffles[..k]), bestRes, included);
        if Objective(inst, bestRes) < Objective(inst, included) {
          bestRes := included;
        }
        included := [];
      }
      assert shuffles[..|shuffles|] == shuffles;
      included := bestRes;
    }
  }
}
