/** The 0/1 knapsack problem: instances, solutions and the two checks of
    knapsack/core/experiment.py. */
module Knapsack {
  import opened Permutations

  /** Item i has weight weights[i], value values[i] and id i. */
  datatype Instance = Instance(weights: seq<int>, values: seq<int>, capacity: int) {
    function Size(): nat { |weights| }

    /** Weights index the table from its left edge, so the dynamic solver
        needs them non-negative. Values may be any integers. */
    ghost predicate Valid() {
      && |weights| == |values|
      && capacity >= 0
      && forall i :: 0 <= i < |weights| ==> weights[i] >= 0
    }
  }

  /** A solution lists ids, as `solution.data["include"]` does. */
  ghost predicate IsSelection(inst: Instance, included: seq<nat>) {
    Below(included, |inst.weights|) && Distinct(included)
  }

  function Weight(inst: Instance, included: seq<nat>): int
    requires Below(included, |inst.weights|)
  {
    SumAt(inst.weights, included)
  }

  function Objective(inst: Instance, included: seq<nat>): int
    requires Below(included, |inst.values|)
  {
    SumAt(inst.values, included)
  }

  /** `check_total_weight`: None, or the (negative) missing capacity. */
  datatype WeightCheck = Silent | Excess(dif: int)

  function CheckTotalWeight(inst: Instance, included: seq<nat>): (check: WeightCheck)
    requires Below(included, |inst.weights|)
    ensures check.Silent? <==> Weight(inst, included) <= inst.capacity
    ensures check.Excess? ==> Weight(inst, included) + check.dif == inst.capacity
  {
    var dif := inst.capacity - Weight(inst, included);
    if dif < 0 then Excess(dif) else Silent
  }

  /** The reference definition of a solved instance: no repetition-free list of
      ids passes the weight check with a larger objective. */
  ghost predicate IsOptimal(inst: Instance, included: seq<nat>)
    requires inst.Valid()
  {
    && IsSelection(inst, included)
    && CheckTotalWeight(inst, included).Silent?
    && forall other: seq<nat> :: IsSelection(inst, other) && CheckTotalWeight(inst, other).Silent?
                       ==> Objective(inst, other) <= Objective(inst, included)
  }

  /** The ids whose flag is set, in increasing order: the list every solver
      finally appends to `included`. */
  function IdsOf(take: seq<bool>, n: nat): (ids: seq<nat>)
    requires n <= |take|
    ensures Below(ids, n) && Distinct(ids)
    ensures forall k: nat :: k in ids <==> k < n && take[k]
  {
    if n == 0 then []
    else if take[n - 1] then
      var rest := IdsOf(take, n - 1);
      assert forall i :: 0 <= i < |rest| ==> rest[i] in rest;
      rest + [n - 1]
    else IdsOf(take, n - 1)
  }

  /** The loop every solver ends with. */
  method CollectIds(take: seq<bool>) returns (ids: seq<nat>)
    ensures ids == IdsOf(take, |take|)
    ensures forall i, j :: 0 <= i < j < |ids| ==> ids[i] < ids[j]
  {
    ids := [];
    for i := 0 to |take|
      invariant ids == IdsOf(take, i)
      invariant forall j, k :: 0 <= j < k < |ids| ==> ids[j] < ids[k]
    {
      assert forall k :: 0 <= k < |ids| ==> ids[k] in ids;
      if take[i] {
        ids := ids + [i];
      }
    }
  }

  lemma {:induction false} SumOfIds(xs: seq<int>, take: seq<bool>)
    requires |xs| == |take|
    ensures SumAt(xs, IdsOf(take, |take|)) == Total(xs, take, |xs|)
  {
    var ids := IdsOf(take, |take|);
    SumAtIsTotal(xs, ids);
    assert Flags(ids, |xs|) == take;
  }

  lemma {:induction false} TotalIsMonotone(xs: seq<int>, take: seq<bool>, m: nat, n: nat)
    requires m <= n <= |xs| && n <= |take|
    requires forall i :: 0 <= i < |xs| ==> xs[i] >= 0
    ensures 0 <= Total(xs, take, m) <= Total(xs, take, n)
    decreases n
  {
    if n > 0 {
      TotalIsMonotone(xs, take, if m < n then m else n - 1, n - 1);
    }
  }
}

/** knapsack/solvers/DynamicSolver.py */
module KnapsackDynamic {
  import opened Permutations
  import opened Knapsack

  /** `value` is the best total value over all selections of the first i items
      whose weight is at most w. */
  ghost predicate IsBest(ws: seq<int>, vs: seq<int>, i: nat, w: int, value: int)
    requires i <= |ws| && i <= |vs|
  {
    && (exists take: seq<bool> :: |take| == i && Total(ws, take, i) <= w && Total(vs, take, i) == value)
    && (forall take: seq<bool> :: |take| == i && Total(ws, take, i) <= w ==> Total(vs, take, i) <= value)
  }

  /** The recurrence the table is filled by. */
  ghost function Entry(ws: seq<int>, vs: seq<int>, i: nat, w: int): (v: int)
    requires i <= |ws| && i <= |vs|
    ensures v >= 0
    decreases i, 1
  {
    if i == 0 then 0
    else if Keeps(ws, vs, i, w) then Entry(ws, vs, i - 1, w - ws[i - 1]) + vs[i - 1]
    else Entry(ws, vs, i - 1, w)
  }

  lemma {:induction false} EntryStep(ws: seq<int>, vs: seq<int>, i: nat, w: int)
    requires 0 < i <= |ws| && i <= |vs|
    ensures Keeps(ws, vs, i, w) <==>
      ws[i - 1] <= w && Entry(ws, vs, i - 1, w - ws[i - 1]) + vs[i - 1] > Entry(ws, vs, i - 1, w)
    ensures Entry(ws, vs, i, w)
         == if Keeps(ws, vs, i, w) then Entry(ws, vs, i - 1, w - ws[i - 1]) + vs[i - 1] else Entry(ws, vs, i - 1, w)
  {
  }

  ghost predicate Keeps(ws: seq<int>, vs: seq<int>, i: nat, w: int)
    requires 0 < i <= |ws| && i <= |vs|
    decreases i, 0
  {
    ws[i - 1] <= w && Entry(ws, vs, i - 1, w - ws[i - 1]) + vs[i - 1] > Entry(ws, vs, i - 1, w)
  }

  /** The selection the traceback reads off the `keep` table. */
  ghost function Traced(ws: seq<int>, vs: seq<int>, i: nat, w: int): (take: seq<bool>)
    requires i <= |ws| && i <= |vs|
    ensures |take| == i
  {
    if i == 0 then []
    else if Keeps(ws, vs, i, w) then Traced(ws, vs, i - 1, w - ws[i - 1]) + [true]
    else Traced(ws, vs, i - 1, w) + [false]
  }

  lemma {:induction false} EntryIsUpperBound(ws: seq<int>, vs: seq<int>, i: nat, w: int, take: seq<bool>)
    requires i <= |ws| && i <= |vs| && i <= |take|
    requires Total(ws, take, i) <= w && forall k :: 0 <= k < |ws| ==> ws[k] >= 0
    ensures Total(vs, take, i) <= Entry(ws, vs, i, w)
  {
    if i > 0 {
      if take[i - 1] {
        TotalIsMonotone(ws, take, 0, i - 1);
        EntryIsUpperBound(ws, vs, i - 1, w - ws[i - 1], take);
      } else {
        EntryIsUpperBound(ws, vs, i - 1, w, take);
      }
    }
  }

  lemma {:induction false} TracedAttains(ws: seq<int>, vs: seq<int>, i: nat, w: int)
    requires i <= |ws| && i <= |vs| && w >= 0
    ensures Total(ws, Traced(ws, vs, i, w), i) <= w
    ensures Total(vs, Traced(ws, vs, i, w), i) == Entry(ws, vs, i, w)
  {
    if i > 0 {
      var rest := if Keeps(ws, vs, i, w) then w - ws[i - 1] else w;
      TracedAttains(ws, vs, i - 1, rest);
      TotalDependsOnPrefix(ws, Traced(ws, vs, i, w), ws, Traced(ws, vs, i - 1, rest), i - 1);
      TotalDependsOnPrefix(vs, Traced(ws, vs, i, w), vs, Traced(ws, vs, i - 1, rest), i - 1);
    }
  }

  /** Every table entry is the optimum of its subproblem. */
  lemma {:induction false} EntryIsBest(ws: seq<int>, vs: seq<int>, i: nat, w: int)
    requires i <= |ws| && i <= |vs| && w >= 0
    requires forall k :: 0 <= k < |ws| ==> ws[k] >= 0
    ensures IsBest(ws, vs, i, w, Entry(ws, vs, i, w))
  {
    TracedAttains(ws, vs, i, w);
    forall take: seq<bool> | |take| == i && Total(ws, take, i) <= w
      ensures Total(vs, take, i) <= Entry(ws, vs, i, w)
    {
      EntryIsUpperBound(ws, vs, i, w, take);
    }
  }

  /** A selection that is best for the reordered items, put back in the
      instance's numbering, is an optimal solution of the instance. */
  lemma {:induction false} BestReorderedIsOptimal(inst: Instance, p: seq<nat>, chosen: seq<bool>, best: int)
    requires inst.Valid() && IsPermutation(p, inst.Size()) && |chosen| == inst.Size()
    requires IsBest(Reorder(inst.weights, p), Reorder(inst.values, p), inst.Size(), inst.capacity, best)
    requires Total(Reorder(inst.weights, p), chosen, inst.Size()) <= inst.capacity
    requires Total(Reorder(inst.values, p), chosen, inst.Size()) == best
    ensures IsOptimal(inst, IdsOf(Reorder(chosen, Inverse(p)), inst.Size()))
    ensures Objective(inst, IdsOf(Reorder(chosen, Inverse(p)), inst.Size())) == best
  {
    RestoredTotals(inst, p, chosen);
    forall other: seq<nat> | IsSelection(inst, other) && CheckTotalWeight(inst, other).Silent?
      ensures Objective(inst, other) <= best
    {
      ReorderedTotals(inst, p, other);
    }
  }

  lemma {:induction false} RestoredTotals(inst: Instance, p: seq<nat>, chosen: seq<bool>)
    requires inst.Valid() && IsPermutation(p, inst.Size()) && |chosen| == inst.Size()
    ensures var ids := IdsOf(Reorder(chosen, Inverse(p)), inst.Size());
      && IsSelection(inst, ids)
      && Weight(inst, ids) == Total(Reorder(inst.weights, p), chosen, inst.Size())
      && Objective(inst, ids) == Total(Reorder(inst.values, p), chosen, inst.Size())
  {
    var back := Reorder(chosen, Inverse(p));
    RestoredIsChosen(p, chosen);
    hide Distinct, Total, IdsOf;
    TotalOfReorder(inst.weights, back, p);
    TotalOfReorder(inst.values, back, p);
    SumOfIds(inst.weights, back);
    SumOfIds(inst.values, back);
  }

  lemma RestoredIsChosen(p: seq<nat>, chosen: seq<bool>)
    requires IsPermutation(p, |p|) && |chosen| == |p|
    ensures Reorder(Reorder(chosen, Inverse(p)), p) == chosen
  {
  }

  lemma ReorderedTotals(inst: Instance, p: seq<nat>, ids: seq<nat>)
    requires inst.Valid() && IsPermutation(p, inst.Size()) && IsSelection(inst, ids)
    ensures var take := Reorder(Flags(ids, inst.Size()), p);
      && |take| == inst.Size()
      && Weight(inst, ids) == Total(Reorder(inst.weights, p), take, inst.Size())
      && Objective(inst, ids) == Total(Reorder(inst.values, p), take, inst.Size())
  {
    SumAtIsTotal(inst.weights, ids);
    SumAtIsTotal(inst.values, ids);
    TotalOfReorder(inst.weights, Flags(ids, inst.Size()), p);
    TotalOfReorder(inst.values, Flags(ids, inst.Size()), p);
  }

  lemma Regroup(s: seq<bool>, i: nat, b: bool, front: seq<bool>)
    requires i < |s|
    ensures front + s[i := b][i..] == (front + [b]) + s[i + 1..]
  {
  }

  class DynamicSolver {
    const inst: Instance
    var weights: seq<int>
    var values: seq<int>
    var included: seq<nat>

    constructor (inst: Instance)
      ensures this.inst == inst && included == []
    {
      this.inst := inst;
      weights, values := inst.weights, inst.values;
      included := [];
    }

    /** Rows below `i`, and row i up to column `w`, hold the recurrence. */
    ghost predicate Filled(dp: array2<int>, keep: array2<int>, i: nat, w: nat)
      reads this, dp, keep
      requires |weights| == |values|
      requires i < dp.Length0 == keep.Length0 == |weights| + 1 && dp.Length1 == keep.Length1 >= w
    {
      && (forall a, c :: 0 <= a < i && 0 <= c < dp.Length1 ==> dp[a, c] == Entry(weights, values, a, c))
      && (forall c :: 0 <= c < w ==> dp[i, c] == Entry(weights, values, i, c))
      && (forall a, c :: 0 < a < i && 0 <= c < dp.Length1 ==> (keep[a, c] == 1 <==> Keeps(weights, values, a, c)))
      && (i > 0 ==> forall c :: 0 <= c < w ==> (keep[i, c] == 1 <==> Keeps(weights, values, i, c)))
    }

    method FillTables(dp: array2<int>, keep: array2<int>)
      requires |weights| == |values| == inst.Size() && inst.capacity >= 0
      requires forall i :: 0 <= i < |weights| ==> weights[i] >= 0
      requires dp != keep && dp.Length0 == keep.Length0 == inst.Size() + 1
      requires dp.Length1 == keep.Length1 == inst.capacity + 1
      requires forall c :: 0 <= c <= inst.capacity ==> dp[0, c] == 0
      modifies dp, keep
      ensures Filled(dp, keep, inst.Size(), inst.capacity + 1)
    {
      for i := 1 to inst.Size() + 1
        invariant Filled(dp, keep, i - 1, inst.capacity + 1)
      {
        FillRow(dp, keep, i);
      }
    }

    method FillRow(dp: array2<int>, keep: array2<int>, i: nat)
      requires |weights| == |values| == inst.Size() && inst.capacity >= 0
      requires forall i :: 0 <= i < |weights| ==> weights[i] >= 0
      requires dp != keep && dp.Length0 == keep.Length0 == inst.Size() + 1 > i > 0
      requires dp.Length1 == keep.Length1 == inst.capacity + 1
      requires Filled(dp, keep, i - 1, inst.capacity + 1)
      modifies dp, keep
      ensures Filled(dp, keep, i, inst.capacity + 1)
    {
      var weight, value := weights[i - 1], values[i - 1];
      hide Entry, Keeps;
      for w := 0 to inst.capacity + 1
        invariant Filled(dp, keep, i, w)
      {
        EntryStep(weights, values, i, w);
        var without := dp[i - 1, w];
        var with := -1;
        if weight <= w {
          with := dp[i - 1, w - weight] + value;
        }
        if with > without {
          dp[i, w] := with;
          keep[i, w] := 1;
        } else {
          dp[i, w] := without;
          keep[i, w] := 0;
        }
      }
    }

    /** Fills the tables and traces back. Each entry of the table is the optimum
        of its subproblem, for any integer values, so the sentinel -1 never wins;
        the selection fits and its value is the last entry; the branch for a
        negative remaining capacity is never taken. */
    method DynSolver() returns (chosen: seq<bool>, best: int, aborted: bool)
      requires |weights| == |values| == inst.Size() && inst.capacity >= 0
      requires forall i :: 0 <= i < |weights| ==> weights[i] >= 0
      ensures |chosen| == |weights|
      ensures IsBest(weights, values, |weights|, inst.capacity, best)
      ensures Total(weights, chosen, |weights|) <= inst.capacity
      ensures Total(values, chosen, |weights|) == best
      ensures !aborted
    {
      var n, W := inst.Size(), inst.capacity;
      var dp := new int[n + 1, W + 1]((_, _) => 0);
      var keep := new int[n + 1, W + 1]((_, _) => 0);
      FillTables(dp, keep);

      chosen, aborted := TraceBack(dp, keep);
      best := dp[n, W];
      TracedAttains(weights, values, n, W);
      EntryIsBest(weights, values, n, W);
    }

    method TraceBack(dp: array2<int>, keep: array2<int>) returns (chosen: seq<bool>, aborted: bool)
      requires |weights| == |values| == inst.Size() && inst.capacity >= 0
      requires forall i :: 0 <= i < |weights| ==> weights[i] >= 0
      requires dp.Length0 == keep.Length0 == inst.Size() + 1
      requires dp.Length1 == keep.Length1 == inst.capacity + 1
      requires Filled(dp, keep, inst.Size(), inst.capacity + 1)
      ensures chosen == Traced(weights, values, inst.Size(), inst.capacity) && !aborted
    {
      hide Entry;
      var n := inst.Size();
      aborted := false;
      chosen := seq(n, _ => false);
      var room := inst.capacity;
      for i := n downto 0
        invariant 0 <= room <= inst.capacity && |chosen| == n && !aborted
        invariant forall k :: 0 <= k < i ==> !chosen[k]
        invariant Traced(weights, values, n, inst.capacity) == Traced(weights, values, i, room) + chosen[i..]
      {
        ghost var before := chosen;
        if keep[i + 1, room] == 1 {
          chosen := chosen[i := true];
          room := room - weights[i];
          if room < 0 {
            aborted := true;
            break;
          }
        }
        Regroup(before, i, chosen[i], Traced(weights, values, i, room));
      }
      assert chosen == Traced(weights, values, n, inst.capacity);
    }

    /** Sorts by weight, solves, and undoes the sort with the argsort of the
        argsort. Whatever order ties come in, the solution is optimal. */
    method Solve(idx: seq<nat>, idx2: seq<nat>)
      requires inst.Valid() && included == []
      requires IsArgsort(idx, inst.weights) && IsArgsort(idx2, idx)
      modifies this
      ensures IsOptimal(inst, included)
      ensures forall i, j :: 0 <= i < j < |included| ==> included[i] < included[j]
    {
      weights, values := Reorder(inst.weights, idx), Reorder(inst.values, idx);
      var chosen, best, _ := DynSolver();
      ArgsortOfPermutationIsInverse(idx, idx2);
      var ordered := Reorder(chosen, idx2);
      included := CollectIds(ordered);
      BestReorderedIsOptimal(inst, idx, chosen, best);
    }
  }
}
