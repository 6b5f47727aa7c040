/** `post_process` of roadef/solvers/MIPModel.py: stops that deliver or load
    nothing are removed, the rest are timed anew, shifts left without a visit
    are dropped and the others renumbered. */
module RoadefPostProcess {
  import opened Wrappers
  import opened RoadefModel
  import opened RoadefTanks

  predicate IsIdle(stop: Stop) {
    stop.quantity == 0 && stop.location != BASE
  }

  /** The route without its idle stops. */
  function Kept(route: seq<Stop>): (kept: seq<Stop>)
    ensures |kept| <= |route|
  {
    if route == [] then []
    else Kept(route[..|route| - 1]) + if IsIdle(Last(route)) then [] else [Last(route)]
  }

  lemma {:induction false} KeptOfMore(route: seq<Stop>, stop: Stop)
    ensures Kept(route + [stop]) == Kept(route) + if IsIdle(stop) then [] else [stop]
  {
    assert (route + [stop])[..|route|] == route;
  }

  /** The copy has exactly the stops that are at the base or bring something, in
      their order. */
  ghost predicate Picks(route: seq<Stop>, at: seq<nat>, copy: seq<Stop>) {
    && |at| == |copy| && Increasing(at, |route|)
    && (forall m :: 0 <= m < |at| ==> copy[m] == route[at[m]])
    && (forall i :: 0 <= i < |route| ==> (i in at <==> route[i].quantity != 0 || route[i].location == BASE))
  }

  lemma {:induction false} PicksMore(route: seq<Stop>, at: seq<nat>, copy: seq<Stop>, stop: Stop)
    requires Picks(route, at, copy)
    ensures IsIdle(stop) ==> Picks(route + [stop], at, copy)
    ensures !IsIdle(stop) ==> Picks(route + [stop], at + [|route|], copy + [stop])
  {
    IncreasingMore(at, |route|);
    assert forall i :: 0 <= i < |route| ==> (route + [stop])[i] == route[i];
    assert forall m :: 0 <= m < |at| ==> at[m] < |route|;
    hide Increasing;
  }

  lemma {:induction false} KeptPicks(route: seq<Stop>) returns (at: seq<nat>)
    ensures Picks(route, at, Kept(route))
  {
    if route == [] {
      at := [];
    } else {
      var front, last := route[..|route| - 1], Last(route);
      FrontAndLast(route);
      at := KeptPicks(front);
      PicksMore(front, at, Kept(front), last);
      hide Picks;
      if !IsIdle(last) {
        at := at + [|front|];
      }
    }
  }

  lemma {:induction false} KeptArePicked(route: seq<Stop>)
    ensures exists at :: Picks(route, at, Kept(route))
  {
    var at := KeptPicks(route);
  }

  /** The deletion loop, whose index into the copy falls behind by one with each
      stop removed. */
  method RemoveIdle(route: seq<Stop>) returns (copy: seq<Stop>, removed: nat)
    ensures copy == Kept(route) && removed == |route| - |copy|
    ensures exists at :: Picks(route, at, copy)
  {
    hide Picks;
    KeptArePicked(route);
    copy, removed := route, 0;
    ghost var done := Kept([]);
    for idStep := 0 to |route|
      invariant done == Kept(route[..idStep]) && copy == done + route[idStep..]
      invariant removed == idStep - |done|
    {
      var step := route[idStep];
      KeptUpTo(route, idStep);
      hide Kept;
      NextIs(done, route, idStep);
      var newIdStep := idStep - removed;
      if step.quantity == 0 && step.location != BASE {
        copy := copy[..newIdStep] + copy[newIdStep + 1..];
        removed := removed + 1;
      } else {
        done := done + [step];
      }
    }
    assert route[..|route|] == route;
  }

  lemma KeptUpTo(route: seq<Stop>, n: nat)
    requires n < |route|
    ensures Kept(route[..n + 1]) == Kept(route[..n]) + if IsIdle(route[n]) then [] else [route[n]]
  {
    assert route[..n + 1] == route[..n] + [route[n]];
    KeptOfMore(route[..n], route[n]);
  }

  /** What stands at the loop's index, and what remains when it is removed or
      replaced. */
  lemma NextIs<T>(done: seq<T>, route: seq<T>, n: nat)
    requires n < |route|
    ensures var copy := done + route[n..];
      && copy[|done|] == route[n] && copy == done + [route[n]] + route[n + 1..]
      && copy[..|done|] + copy[|done| + 1..] == done + route[n + 1..]
      && forall x :: copy[|done| := x] == done + [x] + route[n + 1..]
  {
    assert route[n..] == [route[n]] + route[n + 1..];
  }

  // ---- new times ----

  function Layover(inst: Instance, driver: nat, stop: Stop): int
    requires driver in inst.drivers
  {
    if stop.layoverBefore then inst.drivers[driver].layoverDuration else 0
  }

  /** A stop timed from the one before it; the base keeps its times. */
  function Retime(inst: Instance, driver: nat, prev: Stop, stop: Stop): Stop
    requires driver in inst.drivers
  {
    if stop.location == BASE then stop else
      var timeFromLast := inst.travel(prev.location, stop.location);
      var arrival := prev.departure + timeFromLast + Layover(inst, driver, stop);
      stop.(arrival := arrival,
            departure := arrival + inst.SetupTime(stop.location),
            cumulatedDriving := prev.cumulatedDriving + timeFromLast)
  }

  function Retimed(inst: Instance, driver: nat, route: seq<Stop>): (r: seq<Stop>)
    requires driver in inst.drivers
    ensures |r| == |route|
  {
    if |route| <= 1 then route else
      var front := Retimed(inst, driver, route[..|route| - 1]);
      front + [Retime(inst, driver, Last(front), Last(route))]
  }

  /** The step before the first is the last one, as index -1 says; a route that
      starts at the base does not ask for it. */
  function StartTimed(inst: Instance, driver: nat, route: seq<Stop>): (r: seq<Stop>)
    requires driver in inst.drivers
    ensures |r| == |route|
  {
    if route == [] || route[0].location == BASE then route
    else route[0 := Retime(inst, driver, Last(route), route[0])]
  }

  /** The route with every stop but the base ones timed anew. */
  function TimedAnew(inst: Instance, driver: nat, route: seq<Stop>): (r: seq<Stop>)
    requires driver in inst.drivers
    ensures |r| == |route|
  {
    Retimed(inst, driver, StartTimed(inst, driver, route))
  }

  /** A stop off the base is reached after the way from the one before and a
      layover, if it has one, and left after its setup; all else stays. */
  ghost predicate TimedAfter(inst: Instance, driver: nat, before: Stop, stop: Stop, timed: Stop)
    requires driver in inst.drivers
  {
    var travelTime := inst.travel(before.location, stop.location);
    var layover := if stop.layoverBefore then inst.drivers[driver].layoverDuration else 0;
    if stop.location == BASE then timed == stop
    else
      && timed.arrival == before.departure + travelTime + layover
      && timed.departure == timed.arrival + inst.SetupTime(stop.location)
      && timed.cumulatedDriving == before.cumulatedDriving + travelTime
      && timed.location == stop.location && timed.quantity == stop.quantity
      && timed.layoverBefore == stop.layoverBefore && timed.drivingBeforeLayover == stop.drivingBeforeLayover
  }

  /** The first stop is timed after the last one, as it was. */
  ghost predicate TimedThrough(inst: Instance, driver: nat, route: seq<Stop>, timed: seq<Stop>)
    requires driver in inst.drivers
  {
    && |timed| == |route| && (route != [] ==> TimedAfter(inst, driver, Last(route), route[0], timed[0]))
    && forall i :: 0 < i < |route| ==> TimedAfter(inst, driver, timed[i - 1], route[i], timed[i])
  }

  lemma {:induction false} TimedAnewIs(inst: Instance, driver: nat, route: seq<Stop>)
    requires driver in inst.drivers
    ensures TimedThrough(inst, driver, route, TimedAnew(inst, driver, route))
  {
    var start := StartTimed(inst, driver, route);
    var timed := Retimed(inst, driver, start);
    hide Retimed;
    if route != [] {
      RetimedAt(inst, driver, start, 0);
    }
    forall i | 0 < i < |route| ensures TimedAfter(inst, driver, timed[i - 1], route[i], timed[i]) {
      RetimedAt(inst, driver, start, i);
    }
  }

  /** The loop over the copy's steps. */
  method RetimeSteps(inst: Instance, driver: nat, route: seq<Stop>) returns (copy: seq<Stop>)
    requires driver in inst.drivers
    ensures copy == TimedAnew(inst, driver, route) && TimedThrough(inst, driver, route, copy)
  {
    TimedAnewIs(inst, driver, route);
    hide TimedThrough;
    copy := route;
    ghost var start := StartTimed(inst, driver, route);
    ghost var timed := Retimed(inst, driver, start);
    for idStep := 0 to |route|
      invariant |copy| == |route| && forall j :: 0 <= j < idStep ==> copy[j] == timed[j]
      invariant forall j :: idStep <= j < |route| ==> copy[j] == route[j]
    {
      RetimedAt(inst, driver, start, idStep);
      hide Retimed;
      var step := copy[idStep];
      if step.location != BASE {
        var before := copy[if idStep == 0 then |copy| - 1 else idStep - 1];
        var timeFromLast := inst.travel(before.location, step.location);
        var layover := if step.layoverBefore then inst.drivers[driver].layoverDuration else 0;
        var arrival := before.departure + timeFromLast + layover;
        var departure := arrival + inst.SetupTime(step.location);
        var cumulated := before.cumulatedDriving + timeFromLast;
        copy := copy[idStep := step.(arrival := arrival, departure := departure, cumulatedDriving := cumulated)];
      }
      assert copy[idStep] == timed[idStep];
    }
    assert copy == timed;
  }

  lemma {:induction false} RetimedOfPrefix(inst: Instance, driver: nat, route: seq<Stop>, n: nat)
    requires driver in inst.drivers && n <= |route|
    ensures Retimed(inst, driver, route[..n]) == Retimed(inst, driver, route)[..n]
    decreases |route|
  {
    if n < |route| {
      if |route| == 1 {
        assert route[..n] == [];
      } else {
        RetimedOfPrefix(inst, driver, route[..|route| - 1], n);
        assert route[..|route| - 1][..n] == route[..n];
      }
    } else {
      assert route[..n] == route;
    }
  }

  /** Each stop is timed from the one before it. */
  lemma {:induction false} RetimedAt(inst: Instance, driver: nat, route: seq<Stop>, i: nat)
    requires driver in inst.drivers && i < |route|
    ensures var timed := Retimed(inst, driver, route);
      timed[i] == if i == 0 then route[0] else Retime(inst, driver, timed[i - 1], route[i])
  {
    RetimedOfPrefix(inst, driver, route, i + 1);
    RetimedOfPrefix(inst, driver, route, i);
    assert route[..i + 1][..i] == route[..i];
  }

  // ---- the whole pass ----

  /** What becomes of one shift; a shift without idle stops is not touched. */
  function Cleaned(inst: Instance, s: Shift): Shift
    requires s.driver in inst.drivers
  {
    var kept := Kept(s.route);
    if |kept| == |s.route| then s else s.(route := TimedAnew(inst, s.driver, kept))
  }

  predicate Stays(s: Shift) {
    |Kept(s.route)| == |s.route| || |Kept(s.route)| > 2
  }

  function PostProcessed(inst: Instance, shifts: seq<Shift>): (r: seq<Shift>)
    requires forall i :: 0 <= i < |shifts| ==> shifts[i].driver in inst.drivers
    ensures |r| <= |shifts|
  {
    if shifts == [] then [] else
      var front := PostProcessed(inst, shifts[..|shifts| - 1]);
      if Stays(Last(shifts)) then front + [Cleaned(inst, Last(shifts)).(id := |front| + 1)] else front
  }

  /** Shifts run from the base to the base, where nothing is loaded. */
  predicate FromBaseToBase(route: seq<Stop>) {
    && |route| >= 2 && route[0].location == BASE && Last(route).location == BASE
    && forall i :: 0 <= i < |route| && route[i].location == BASE ==> route[i].quantity == 0
  }

  /** `set_final_id_shifts`: ids count from 1. */
  method SetFinalIdShifts(shifts: seq<Shift>) returns (result: seq<Shift>)
    ensures |result| == |shifts| && forall k :: 0 <= k < |shifts| ==> result[k] == shifts[k].(id := k + 1)
  {
    result := [];
    var idShift := 1;
    for k := 0 to |shifts|
      invariant idShift == k + 1 && |result| == k
      invariant forall j :: 0 <= j < k ==> result[j] == shifts[j].(id := j + 1)
    {
      result := result + [shifts[k].(id := idShift)];
      idShift := idShift + 1;
    }
  }

  /** One round of the loop over the shifts: what the shift becomes, if it
      stays. */
  method Clean(inst: Instance, shift: Shift) returns (result: Option<Shift>)
    requires shift.driver in inst.drivers
    ensures result == if Stays(shift) then Some(Cleaned(inst, shift)) else None
  {
    var copy, removed := RemoveIdle(shift.route);
    if removed == 0 {
      return Some(shift);
    }
    copy := RetimeSteps(inst, shift.driver, copy);
    result := if |copy| > 2 then Some(shift.(route := copy)) else None;
  }

  predicate HasIdle(route: seq<Stop>) {
    exists i :: 0 <= i < |route| && route[i].quantity == 0 && route[i].location != BASE
  }

  /** A shift that lost a stop stays with more than two. */
  ghost predicate StaysOn(s: Shift) {
    HasIdle(s.route) ==> exists at, kept :: Picks(s.route, at, kept) && |kept| > 2
  }

  /** And then it has the picked stops, timed anew; other shifts stay as they
      are, but for their ids. */
  ghost predicate CleanedTo(inst: Instance, s: Shift, r: Shift)
    requires s.driver in inst.drivers
  {
    && r == s.(id := r.id, route := r.route)
    && (!HasIdle(s.route) ==> r.route == s.route)
    && (HasIdle(s.route) ==>
          exists at, kept :: Picks(s.route, at, kept) && TimedThrough(inst, s.driver, kept, r.route))
  }

  /** The result has the surviving shifts, cleaned, in their order, under the ids
      from 1 on. */
  ghost predicate Replaces(inst: Instance, shifts: seq<Shift>, from: seq<nat>, result: seq<Shift>)
    requires forall i :: 0 <= i < |shifts| ==> shifts[i].driver in inst.drivers
  {
    && |from| == |result| && Increasing(from, |shifts|)
    && (forall k :: 0 <= k < |from| ==> result[k].id == k + 1 && CleanedTo(inst, shifts[from[k]], result[k]))
    && forall i :: 0 <= i < |shifts| ==> (i in from <==> StaysOn(shifts[i]))
  }

  lemma {:induction false} PicksAre(route: seq<Stop>, at: seq<nat>, kept: seq<Stop>)
    requires Picks(route, at, kept)
    ensures kept == Kept(route)
    decreases |route|
  {
    assert at != [] ==> at[0] < |route|;
    if route != [] {
      var front, last := route[..|route| - 1], |route| - 1;
      if IsIdle(route[last]) {
        PicksFront(route, at, kept);
        PicksAre(front, at, kept);
      } else {
        LastIsPicked(route, at, kept);
        PicksAre(front, at[..|at| - 1], kept[..|kept| - 1]);
        FrontAndLast(kept);
      }
    }
  }

  lemma PicksFront(route: seq<Stop>, at: seq<nat>, kept: seq<Stop>)
    requires Picks(route, at, kept) && route != [] && IsIdle(Last(route))
    ensures Picks(route[..|route| - 1], at, kept)
  {
    assert forall m :: 0 <= m < |at| ==> at[m] in at && at[m] < |route| - 1;
  }

  lemma LastIsPicked(route: seq<Stop>, at: seq<nat>, kept: seq<Stop>)
    requires Picks(route, at, kept) && route != [] && !IsIdle(Last(route))
    ensures kept != [] && Last(kept) == Last(route)
    ensures Picks(route[..|route| - 1], at[..|at| - 1], kept[..|kept| - 1])
  {
    var last := |route| - 1;
    assert last in at;
    var m :| 0 <= m < |at| && at[m] == last;
    assert at[|at| - 1] <= last;
    var shorter := at[..m];
    assert forall k :: 0 <= k < |shorter| ==> shorter[k] == at[k] && at[k] < at[m];
    forall i | 0 <= i < last ensures i in at <==> i in shorter {
      if i in at {
        var k :| 0 <= k < |at| && at[k] == i;
        assert k != m && shorter[k] == i;
      }
    }
  }

  lemma {:induction false} HasIdleIff(route: seq<Stop>)
    ensures HasIdle(route) <==> |Kept(route)| < |route|
  {
    if route != [] {
      HasIdleIff(route[..|route| - 1]);
    }
  }

  lemma {:induction false} CleanedIs(inst: Instance, s: Shift, id: nat)
    requires s.driver in inst.drivers
    ensures Stays(s) <==> StaysOn(s)
    ensures CleanedTo(inst, s, Cleaned(inst, s).(id := id))
  {
    HasIdleIff(s.route);
    var at := KeptPicks(s.route);
    forall a, kept | Picks(s.route, a, kept) ensures kept == Kept(s.route) {
      PicksAre(s.route, a, kept);
    }
    TimedAnewIs(inst, s.driver, Kept(s.route));
    hide Kept, HasIdle, Picks, TimedThrough, TimedAnew;
  }

  lemma {:induction false} ReplacesMore(
    inst: Instance, shifts: seq<Shift>, from: seq<nat>, result: seq<Shift>, s: Shift, r: Shift)
    requires s.driver in inst.drivers && forall i :: 0 <= i < |shifts| ==> shifts[i].driver in inst.drivers
    requires Replaces(inst, shifts, from, result) && r.id == |result| + 1 && CleanedTo(inst, s, r)
    ensures if StaysOn(s) then Replaces(inst, shifts + [s], from + [|shifts|], result + [r])
            else Replaces(inst, shifts + [s], from, result)
  {
    IncreasingMore(from, |shifts|);
    hide StaysOn, CleanedTo;
    assert forall i :: 0 <= i < |shifts| ==> (shifts + [s])[i] == shifts[i];
    assert forall m :: 0 <= m < |from| ==> from[m] < |shifts|;
    hide Increasing;
  }

  lemma {:induction false} ProcessedReplaces(inst: Instance, shifts: seq<Shift>) returns (from: seq<nat>)
    requires forall i :: 0 <= i < |shifts| ==> shifts[i].driver in inst.drivers
    ensures Replaces(inst, shifts, from, PostProcessed(inst, shifts))
  {
    if shifts == [] {
      from := [];
    } else {
      var front, last := shifts[..|shifts| - 1], Last(shifts);
      FrontAndLast(shifts);
      from := ProcessedReplaces(inst, front);
      var result := PostProcessed(inst, front);
      CleanedIs(inst, last, |result| + 1);
      ReplacesMore(inst, front, from, result, last, Cleaned(inst, last).(id := |result| + 1));
      hide Stays, Cleaned, StaysOn, Replaces, CleanedTo;
      if Stays(last) {
        from := from + [|front|];
      }
    }
  }

  /** `post_process`: the solution is replaced, and then its tanks are summed up,
      which fails on a delivery outside the arrays. */
  method PostProcess(inst: Instance, shifts: seq<Shift>)
    returns (result: seq<Shift>, tanks: Option<map<nat, seq<int>>>)
    requires inst.Numbered() && inst.Forecasted()
    requires forall i :: 0 <= i < |shifts| ==> shifts[i].driver in inst.drivers
    ensures result == PostProcessed(inst, shifts) && exists from :: Replaces(inst, shifts, from, result)
    ensures tanks.Some? <==> AllIndexed(inst, result)
    ensures tanks.Some? ==> tanks.value.Keys == inst.customers.Keys
    ensures tanks.Some? ==> forall c :: c in tanks.value ==> |tanks.value[c]| == inst.horizon
    ensures tanks.Some? ==> forall c, h :: c in tanks.value && 0 <= h < inst.horizon ==>
      h < |inst.customers[c].forecast| && tanks.value[c][h] == TankAt(inst, LandedShifts(inst, result), c, h)
  {
    result := ReplaceSolution(inst, shifts);
    hide *;
    ghost var from := ProcessedReplaces(inst, shifts);
    tanks := CalculateInventories(inst, result);
  }

  /** The loop of `post_process`, and `set_final_id_shifts` */
  method ReplaceSolution(inst: Instance, shifts: seq<Shift>) returns (result: seq<Shift>)
    requires forall i :: 0 <= i < |shifts| ==> shifts[i].driver in inst.drivers
    ensures result == PostProcessed(inst, shifts)
  {
    hide Stays, Cleaned;
    var newSolution: seq<Shift> := [];
    for i := 0 to |shifts|
      invariant |newSolution| == |PostProcessed(inst, shifts[..i])|
      invariant forall k :: 0 <= k < |newSolution| ==>
        newSolution[k].(id := k + 1) == PostProcessed(inst, shifts[..i])[k]
    {
      ProcessedOfMore(inst, shifts, i);
      hide PostProcessed;
      var cleaned := Clean(inst, shifts[i]);
      if cleaned.Some? {
        newSolution := newSolution + [cleaned.value];
      }
    }
    assert shifts[..|shifts|] == shifts;
    result := SetFinalIdShifts(newSolution);
  }

  lemma {:induction false} ProcessedOfMore(inst: Instance, shifts: seq<Shift>, i: nat)
    requires i < |shifts| && forall j :: 0 <= j < |shifts| ==> shifts[j].driver in inst.drivers
    ensures var front := PostProcessed(inst, shifts[..i]);
      PostProcessed(inst, shifts[..i + 1])
      == if Stays(shifts[i]) then front + [Cleaned(inst, shifts[i]).(id := |front| + 1)] else front
  {
    assert shifts[..i + 1][..i] == shifts[..i];
  }

  lemma {:induction false} KeptStartsAtBase(route: seq<Stop>)
    requires route != [] && route[0].location == BASE
    ensures Kept(route) != [] && Kept(route)[0] == route[0]
  {
    if |route| > 1 {
      KeptStartsAtBase(route[..|route| - 1]);
    } else {
      assert Kept(route[..0]) == [];
    }
  }

  /** A route that starts at the base keeps its start. */
  lemma {:induction false} TimedFromBase(inst: Instance, driver: nat, route: seq<Stop>)
    requires driver in inst.drivers && route != [] && route[0].location == BASE
    ensures TimedAnew(inst, driver, Kept(route)) == Retimed(inst, driver, Kept(route))
  {
    KeptStartsAtBase(route);
  }
}
