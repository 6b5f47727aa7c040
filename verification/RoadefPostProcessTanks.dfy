/** What `post_process` does to the customers' tanks: deliveries only move to
    earlier hours, so no tank is lower, but one may overflow. */
module RoadefPostProcessTanks {
  import opened RoadefModel
  import opened RoadefChecker
  import opened RoadefTanks
  import opened RoadefPostProcess
  import opened RoadefPostProcessSafety
  import opened RoadefPostProcessQuantities

  // ---- new arrivals are no later ----

  /** Stop by stop, a arrives no later than b. */
  ghost predicate ArriveNoLater(a: seq<Stop>, b: seq<Stop>) {
    |a| == |b| && forall i :: 0 <= i < |a| ==> a[i].arrival <= b[i].arrival
  }

  lemma RetimeArrivesNoLater(inst: Instance, driver: nat, a: Stop, prev: Stop, stop: Stop)
    requires driver in inst.drivers && ReachesNoLater(inst, a, prev)
    requires prev.departure + inst.travel(prev.location, stop.location) + Layover(inst, driver, stop) <= stop.arrival
    ensures Retime(inst, driver, a, stop).arrival <= stop.arrival
  {
    assert a.departure + inst.travel(a.location, stop.location)
         <= prev.departure + inst.travel(prev.location, stop.location);
  }

  lemma FirstArrives(inst: Instance, s: Shift)
    requires s.driver in inst.drivers && s.route != [] && s.route[0].location == BASE
    ensures ArriveNoLater(Upto(inst, s, 1).route, Kept(s.route[..1]))
  {
    KeptUpTo(s.route, 0);
    assert s.route[..0] == [];
  }

  lemma NextArrives(inst: Instance, s: Shift, n: nat)
    requires inst.Valid() && OnTime(inst, s) && 0 < n < |s.route| && Upto(inst, s, n).route != []
    requires ReachesNoLater(inst, Last(Upto(inst, s, n).route), s.route[n - 1])
    requires ArriveNoLater(Upto(inst, s, n).route, Kept(s.route[..n]))
    ensures ArriveNoLater(Upto(inst, s, n + 1).route, Kept(s.route[..n + 1]))
  {
    assert s.driver in inst.drivers;
    UptoNext(inst, s, n);
    KeptUpTo(s.route, n);
    StopIsOnTime(inst, s, n);
    var before, stop := Upto(inst, s, n).route, s.route[n];
    var kept := Kept(s.route[..n]);
    hide *;
    if IsIdle(stop) {
      assert before + [] == before && kept + [] == kept;
    } else {
      RetimeArrivesNoLater(inst, s.driver, Last(before), s.route[n - 1], stop);
      ArriveWithMore(before, kept, Retime(inst, s.driver, Last(before), stop), stop);
    }
  }

  lemma ArriveWithMore(a: seq<Stop>, b: seq<Stop>, x: Stop, y: Stop)
    requires ArriveNoLater(a, b) && x.arrival <= y.arrival
    ensures ArriveNoLater(a + [x], b + [y])
  {
  }

  /** What is left of the first n stops is reached no later than before. */
  ghost predicate UptoArrives(inst: Instance, s: Shift, n: nat) {
    s.driver in inst.drivers && 0 < n <= |s.route| && ArriveNoLater(Upto(inst, s, n).route, Kept(s.route[..n]))
  }

  lemma {:induction false} FirstUptoArrives(inst: Instance, s: Shift)
    requires inst.Valid() && OnTime(inst, s) && s.route != [] && s.route[0].location == BASE
    ensures UptoArrives(inst, s, 1)
  {
    hide Instance.Valid, Upto, ArriveNoLater, Kept, TimelineOk, SetupOk;
    FirstArrives(inst, s);
  }

  lemma {:induction false} UptoArrivesStep(inst: Instance, s: Shift, n: nat)
    requires inst.Valid() && inst.Triangle() && OnTime(inst, s) && s.route != [] && s.route[0].location == BASE
    requires 0 < n < |s.route| && UptoArrives(inst, s, n)
    ensures UptoArrives(inst, s, n + 1)
  {
    hide Instance.Valid, Instance.Triangle, OnTime, Upto, ArriveNoLater, Kept, TimelineOk, ReachesNoLater;
    RetimedOnTime(inst, s, n);
    NextArrives(inst, s, n);
  }

  /** With the triangle inequality no stop is reached later than before. */
  lemma {:induction false} RetimedArrivesNoLater(inst: Instance, s: Shift, n: nat)
    requires inst.Valid() && inst.Triangle() && OnTime(inst, s) && 0 < n <= |s.route| && s.route[0].location == BASE
    ensures UptoArrives(inst, s, n)
  {
    hide *;
    if n == 1 {
      FirstUptoArrives(inst, s);
    } else {
      RetimedArrivesNoLater(inst, s, n - 1);
      UptoArrivesStep(inst, s, n - 1);
    }
  }

  lemma CleanedArrivesNoLater(inst: Instance, s: Shift)
    requires inst.Valid() && inst.Triangle() && OnTime(inst, s) && s.route != [] && s.route[0].location == BASE
    ensures ArriveNoLater(Cleaned(inst, s).route, Kept(s.route)) && SameVisits(Cleaned(inst, s).route, Kept(s.route))
  {
    assert s.driver in inst.drivers;
    hide Instance.Triangle, Instance.Valid, OnTime;
    RetimedArrivesNoLater(inst, s, |s.route|);
    assert s.route[..|s.route|] == s.route;
    TimedFromBase(inst, s.driver, s.route);
    RetimedSameVisits(inst, s.driver, Kept(s.route));
    if |Kept(s.route)| == |s.route| {
      KeptIsAll(s.route);
    }
  }

  // ---- what is advanced ----

  /** What the stops `former` bring to customer c that, reached as in `now`, is there
      by the end of hour h and was not before. */
  function AdvancedBy(former: seq<Stop>, now: seq<Stop>, c: nat, h: nat): int
    requires |former| == |now|
  {
    if former == [] then 0
    else
      AdvancedBy(former[..|former| - 1], now[..|now| - 1], c, h)
      + if Last(former).location == c && Last(now).arrival / UNIT <= h < Last(former).arrival / UNIT
        then -Last(former).quantity else 0
  }

  lemma {:induction false} DeliveredAdvances(former: seq<Stop>, now: seq<Stop>, c: nat, h: nat)
    requires SameVisits(now, former) && ArriveNoLater(now, former)
    ensures DeliveredBy(now, c, h) == DeliveredBy(former, c, h) + AdvancedBy(former, now, c, h)
  {
    if former != [] {
      DeliveredAdvances(former[..|former| - 1], now[..|now| - 1], c, h);
      assert SameVisit(Last(now), Last(former)) && Last(now).arrival <= Last(former).arrival;
    }
  }

  lemma {:induction false} KeptDelivers(route: seq<Stop>, c: nat, h: nat)
    ensures DeliveredBy(Kept(route), c, h) == DeliveredBy(route, c, h)
  {
    if route != [] {
      var front, last := route[..|route| - 1], Last(route);
      KeptDelivers(front, c, h);
      FrontAndLast(route);
      KeptOfMore(front, last);
      DeliveredByMore(front, last, c, h);
      DeliveredByMore(Kept(front), last, c, h);
      hide Kept, DeliveredBy;
      assert Kept(front) + [] == Kept(front);
    }
  }

  /** The same over all shifts: on the quantities and hours of the old schedule
      and the hours of the new one. */
  function Advanced(inst: Instance, shifts: seq<Shift>, c: nat, h: nat): int
    requires forall i :: 0 <= i < |shifts| ==> shifts[i].driver in inst.drivers
  {
    if shifts == [] then 0
    else
      Advanced(inst, shifts[..|shifts| - 1], c, h)
      + AdvancedBy(Kept(Last(shifts).route), Cleaned(inst, Last(shifts)).route, c, h)
  }

  /** A shift the new times of which can be compared with the old. */
  ghost predicate Comparable(inst: Instance, s: Shift) {
    OnTime(inst, s) && FromBaseToBase(s.route)
  }

  lemma {:induction false} CleanedDelivers(inst: Instance, s: Shift, c: nat, h: nat)
    requires inst.Valid() && inst.Triangle() && Comparable(inst, s)
    ensures s.driver in inst.drivers
    ensures DeliveredBy(Cleaned(inst, s).route, c, h)
         == DeliveredBy(s.route, c, h) + AdvancedBy(Kept(s.route), Cleaned(inst, s).route, c, h)
  {
    hide Instance.Triangle, Instance.Valid;
    CleanedArrivesNoLater(inst, s);
    KeptDelivers(s.route, c, h);
    DeliveredAdvances(Kept(s.route), Cleaned(inst, s).route, c, h);
  }

  /** A shift is dropped only if it visits nobody. */
  lemma {:induction false} DroppedDelivers(inst: Instance, s: Shift, c: nat, h: nat)
    requires s.driver in inst.drivers && FromBaseToBase(s.route) && !Stays(s) && c != BASE
    ensures DeliveredBy(Cleaned(inst, s).route, c, h) == 0
  {
    DroppedIsBaseTwice(s.route);
    TimedAnewSameVisits(inst, s.driver, Kept(s.route));
    var t := Cleaned(inst, s).route;
    hide Kept, Cleaned, TimedAnew, Stays, FromBaseToBase;
    assert SameVisit(t[0], s.route[0]) && SameVisit(t[1], Last(s.route));
    assert t == [t[0], t[1]] && t[..1] == [t[0]] && t[..1][..0] == [];
    assert DeliveredBy(t[..1], c, h) == 0;
  }

  lemma {:induction false} DeliveredOfMore(shifts: seq<Shift>, x: Shift, c: nat, h: nat)
    ensures Delivered(shifts + [x], c, h) == Delivered(shifts, c, h) + DeliveredBy(x.route, c, h)
  {
    FrontOfMore(shifts, x);
  }

  lemma {:induction false} PostProcessDelivers(inst: Instance, shifts: seq<Shift>, c: nat, h: nat)
    requires inst.Valid() && inst.Triangle() && forall i :: 0 <= i < |shifts| ==> Comparable(inst, shifts[i])
    requires c != BASE
    ensures forall i :: 0 <= i < |shifts| ==> shifts[i].driver in inst.drivers
    ensures Delivered(PostProcessed(inst, shifts), c, h) == Delivered(shifts, c, h) + Advanced(inst, shifts, c, h)
  {
    assert forall i :: 0 <= i < |shifts| ==> Comparable(inst, shifts[i]) && shifts[i].driver in inst.drivers;
    hide Instance.Triangle, Instance.Valid, OnTime;
    if shifts != [] {
      var front, x := shifts[..|shifts| - 1], Last(shifts);
      PostProcessDelivers(inst, front, c, h);
      CleanedDelivers(inst, x, c, h);
      var left := PostProcessed(inst, front);
      DeliveredOfMore(left, Cleaned(inst, x).(id := |left| + 1), c, h);
      if !Stays(x) {
        DroppedDelivers(inst, x, c, h);
      }
    }
  }

  // ---- the tanks ----

  /** After post-processing a tank holds what it held, and what was advanced. */
  lemma {:induction false} PostProcessedTank(inst: Instance, shifts: seq<Shift>, c: nat, h: nat)
    requires inst.Valid() && inst.Triangle() && forall i :: 0 <= i < |shifts| ==> Comparable(inst, shifts[i])
    requires c in inst.customers && h < |inst.customers[c].forecast|
    ensures forall i :: 0 <= i < |shifts| ==> shifts[i].driver in inst.drivers
    ensures TankAt(inst, PostProcessed(inst, shifts), c, h) == TankAt(inst, shifts, c, h) + Advanced(inst, shifts, c, h)
  {
    hide Instance.Triangle;
    PostProcessDelivers(inst, shifts, c, h);
  }

  lemma {:induction false} AdvancedByIsNotNegative(inst: Instance, former: seq<Stop>, now: seq<Stop>, c: nat, h: nat)
    requires |former| == |now| && inst.IsCustomer(c) && forall i :: 0 <= i < |former| ==> RightSign(inst, former[i])
    ensures AdvancedBy(former, now, c, h) >= 0
  {
    if former != [] {
      AdvancedByIsNotNegative(inst, former[..|former| - 1], now[..|now| - 1], c, h);
      assert RightSign(inst, former[|former| - 1]);
    }
  }

  lemma {:induction false} KeptSigns(inst: Instance, s: Shift)
    requires SignsOk(inst, s)
    ensures forall i :: 0 <= i < |Kept(s.route)| ==> RightSign(inst, Kept(s.route)[i])
  {
    KeptIsAmong(s.route);
    hide Kept;
    forall i | 0 <= i < |Kept(s.route)| ensures RightSign(inst, Kept(s.route)[i]) {
      var k :| 0 <= k < |s.route| && s.route[k] == Kept(s.route)[i];
      assert RightSign(inst, s.route[k]);
    }
  }

  lemma {:induction false} AdvancedIsNotNegative(inst: Instance, shifts: seq<Shift>, c: nat, h: nat)
    requires inst.IsCustomer(c)
    requires forall i :: 0 <= i < |shifts| ==> shifts[i].driver in inst.drivers && SignsOk(inst, shifts[i])
    ensures Advanced(inst, shifts, c, h) >= 0
  {
    if shifts != [] {
      var last := Last(shifts);
      AdvancedIsNotNegative(inst, shifts[..|shifts| - 1], c, h);
      KeptSigns(inst, last);
      AdvancedByIsNotNegative(inst, Kept(last.route), Cleaned(inst, last).route, c, h);
    }
  }

  lemma DriversAreKnown(inst: Instance, shifts: seq<Shift>)
    requires forall i :: 0 <= i < |shifts| ==> Processable(inst, shifts[i])
    ensures forall i :: 0 <= i < |shifts| ==> shifts[i].driver in inst.drivers
    ensures forall i :: 0 <= i < |shifts| ==> SignsOk(inst, shifts[i]) && Comparable(inst, shifts[i])
  {
    forall i | 0 <= i < |shifts|
      ensures shifts[i].driver in inst.drivers && SignsOk(inst, shifts[i]) && Comparable(inst, shifts[i])
    {
      assert Processable(inst, shifts[i]);
    }
  }

  /** No tank is lower at any hour after post-processing. */
  lemma {:induction false} NoTankIsLower(inst: Instance, shifts: seq<Shift>, c: nat, h: nat)
    requires inst.Valid() && inst.Triangle() && forall i :: 0 <= i < |shifts| ==> Processable(inst, shifts[i])
    requires c in inst.customers && h < |inst.customers[c].forecast|
    ensures forall i :: 0 <= i < |shifts| ==> shifts[i].driver in inst.drivers
    ensures TankAt(inst, PostProcessed(inst, shifts), c, h) == TankAt(inst, shifts, c, h) + Advanced(inst, shifts, c, h)
    ensures Advanced(inst, shifts, c, h) >= 0
  {
    assert inst.IsCustomer(c);
    DriversAreKnown(inst, shifts);
    hide Instance.Triangle, Instance.Valid, Processable;
    PostProcessedTank(inst, shifts, c, h);
    AdvancedIsNotNegative(inst, shifts, c, h);
  }

  /** A customer that never ran dry does not run dry now. */
  lemma {:induction false} RunOutsGainNothing(inst: Instance, shifts: seq<Shift>, c: nat)
    requires inst.Valid() && inst.Triangle() && forall i :: 0 <= i < |shifts| ==> Processable(inst, shifts[i])
    requires c in inst.customers && inst.ValidCustomer(inst.customers[c]) && TankNeverNegative(inst, shifts, c)
    ensures forall i :: 0 <= i < |shifts| ==> shifts[i].driver in inst.drivers
    ensures TankNeverNegative(inst, PostProcessed(inst, shifts), c)
  {
    NoTankIsLower(inst, shifts, c, 0);
    hide Instance.Triangle, Instance.Valid, Processable, TankAt, PostProcessed, Advanced;
    forall h | 0 <= h < inst.horizon ensures TankAt(inst, PostProcessed(inst, shifts), c, h) >= 0 {
      NoTankIsLower(inst, shifts, c, h);
    }
  }

  /** What is advanced into an hour fits the room the old schedule left there. */
  ghost predicate AdvancesFit(inst: Instance, shifts: seq<Shift>, c: nat)
    requires c in inst.customers && inst.horizon <= |inst.customers[c].forecast|
    requires forall i :: 0 <= i < |shifts| ==> shifts[i].driver in inst.drivers
  {
    forall h {:trigger Advanced(inst, shifts, c, h)} :: 0 <= h < inst.horizon && Advanced(inst, shifts, c, h) > 0 ==>
      Advanced(inst, shifts, c, h) <= inst.customers[c].capacity - TankAt(inst, shifts, c, h)
  }

  /** A tank that never overflowed does not overflow now exactly when what is
      advanced fits. */
  lemma {:induction false} CapacityKeptIff(inst: Instance, shifts: seq<Shift>, c: nat)
    requires inst.Valid() && inst.Triangle() && forall i :: 0 <= i < |shifts| ==> Processable(inst, shifts[i])
    requires c in inst.customers && inst.ValidCustomer(inst.customers[c]) && TankWithinCapacity(inst, shifts, c)
    ensures forall i :: 0 <= i < |shifts| ==> shifts[i].driver in inst.drivers
    ensures TankWithinCapacity(inst, PostProcessed(inst, shifts), c) <==> AdvancesFit(inst, shifts, c)
  {
    NoTankIsLower(inst, shifts, c, 0);
    hide Instance.Triangle, Instance.Valid, Processable, TankAt, PostProcessed, Advanced;
    forall h | 0 <= h < inst.horizon
      ensures TankAt(inst, PostProcessed(inst, shifts), c, h)
           == TankAt(inst, shifts, c, h) + Advanced(inst, shifts, c, h)
      ensures Advanced(inst, shifts, c, h) >= 0
    {
      NoTankIsLower(inst, shifts, c, h);
    }
    if AdvancesFit(inst, shifts, c) {
      forall h | 0 <= h < inst.horizon
        ensures TankAt(inst, PostProcessed(inst, shifts), c, h) <= inst.customers[c].capacity
      {
        assert Advanced(inst, shifts, c, h) >= 0;
      }
    }
  }

  // ---- enough room, seen on the old schedule alone ----

  /** What a route brings to customer c after hour h. */
  function LaterBy(route: seq<Stop>, c: nat, h: nat): int {
    if route == [] then 0
    else
      LaterBy(route[..|route| - 1], c, h)
      + if Last(route).location == c && h < Last(route).arrival / UNIT then -Last(route).quantity else 0
  }

  /** What the shifts with an idle stop bring to customer c after hour h. */
  function LaterOf(shifts: seq<Shift>, c: nat, h: nat): int {
    if shifts == [] then 0
    else
      LaterOf(shifts[..|shifts| - 1], c, h)
      + if |Kept(Last(shifts).route)| < |Last(shifts).route| then LaterBy(Last(shifts).route, c, h) else 0
  }

  lemma {:induction false} LaterByMore(route: seq<Stop>, stop: Stop, c: nat, h: nat)
    ensures LaterBy(route + [stop], c, h)
         == LaterBy(route, c, h) + if stop.location == c && h < stop.arrival / UNIT then -stop.quantity else 0
  {
    FrontOfMore(route, stop);
  }

  lemma {:induction false} KeptLater(route: seq<Stop>, c: nat, h: nat)
    ensures LaterBy(Kept(route), c, h) == LaterBy(route, c, h)
  {
    if route != [] {
      var front, last := route[..|route| - 1], Last(route);
      KeptLater(front, c, h);
      FrontAndLast(route);
      KeptOfMore(front, last);
      LaterByMore(front, last, c, h);
      LaterByMore(Kept(front), last, c, h);
      hide Kept, LaterBy;
      assert Kept(front) + [] == Kept(front);
    }
  }

  /** Only what came later can be advanced. */
  lemma {:induction false} AdvancedByIsLater(inst: Instance, former: seq<Stop>, now: seq<Stop>, c: nat, h: nat)
    requires |former| == |now| && inst.IsCustomer(c) && forall i :: 0 <= i < |former| ==> RightSign(inst, former[i])
    ensures AdvancedBy(former, now, c, h) <= LaterBy(former, c, h)
  {
    if former != [] {
      AdvancedByIsLater(inst, former[..|former| - 1], now[..|now| - 1], c, h);
      assert RightSign(inst, former[|former| - 1]);
    }
  }

  lemma {:induction false} NothingIsAdvanced(route: seq<Stop>, c: nat, h: nat)
    ensures AdvancedBy(route, route, c, h) == 0
  {
    if route != [] {
      NothingIsAdvanced(route[..|route| - 1], c, h);
    }
  }

  lemma {:induction false} CleanedAdvances(inst: Instance, s: Shift, c: nat, h: nat)
    requires s.driver in inst.drivers && inst.IsCustomer(c) && SignsOk(inst, s)
    ensures AdvancedBy(Kept(s.route), Cleaned(inst, s).route, c, h)
         <= if |Kept(s.route)| < |s.route| then LaterBy(s.route, c, h) else 0
  {
    if |Kept(s.route)| == |s.route| {
      KeptIsAll(s.route);
      NothingIsAdvanced(s.route, c, h);
    } else {
      KeptSigns(inst, s);
      AdvancedByIsLater(inst, Kept(s.route), Cleaned(inst, s).route, c, h);
      KeptLater(s.route, c, h);
    }
  }

  lemma {:induction false} AdvancedIsLater(inst: Instance, shifts: seq<Shift>, c: nat, h: nat)
    requires inst.IsCustomer(c)
    requires forall i :: 0 <= i < |shifts| ==> shifts[i].driver in inst.drivers && SignsOk(inst, shifts[i])
    ensures Advanced(inst, shifts, c, h) <= LaterOf(shifts, c, h)
  {
    hide SignsOk, AdvancedBy, LaterBy, Kept, Cleaned;
    if shifts != [] {
      AdvancedIsLater(inst, shifts[..|shifts| - 1], c, h);
      CleanedAdvances(inst, Last(shifts), c, h);
    }
  }

  /** The tank has room at every hour for all that shifts with an idle stop bring
      later. */
  ghost predicate RoomForLater(inst: Instance, shifts: seq<Shift>, c: nat)
    requires c in inst.customers && inst.horizon <= |inst.customers[c].forecast|
  {
    forall h: nat :: h < inst.horizon ==>
      TankAt(inst, shifts, c, h) + LaterOf(shifts, c, h) <= inst.customers[c].capacity
  }

  /** Such a tank does not overflow after post-processing. */
  lemma {:induction false} RoomKeepsCapacity(inst: Instance, shifts: seq<Shift>, c: nat)
    requires inst.Valid() && inst.Triangle() && forall i :: 0 <= i < |shifts| ==> Processable(inst, shifts[i])
    requires c in inst.customers && inst.ValidCustomer(inst.customers[c]) && RoomForLater(inst, shifts, c)
    ensures forall i :: 0 <= i < |shifts| ==> shifts[i].driver in inst.drivers
    ensures TankWithinCapacity(inst, PostProcessed(inst, shifts), c)
  {
    assert inst.IsCustomer(c);
    DriversAreKnown(inst, shifts);
    hide Instance.Triangle, Instance.Valid, Processable, TankAt, PostProcessed, Advanced, LaterOf, SignsOk;
    forall h | 0 <= h < inst.horizon
      ensures TankAt(inst, PostProcessed(inst, shifts), c, h) <= inst.customers[c].capacity
    {
      NoTankIsLower(inst, shifts, c, h);
      AdvancedIsLater(inst, shifts, c, h);
    }
  }

  // ---- the checks of the new schedule ----

  lemma {:induction false} RetimedLeavesLater(inst: Instance, driver: nat, route: seq<Stop>)
    requires inst.Valid() && driver in inst.drivers
    requires forall i :: 0 <= i < |route| ==>
      inst.IsValidLocation(route[i].location) && route[i].arrival <= route[i].departure
    ensures forall i :: 0 <= i < |route| ==>
      Retimed(inst, driver, route)[i].arrival <= Retimed(inst, driver, route)[i].departure
  {
    if |route| > 1 {
      RetimedLeavesLater(inst, driver, route[..|route| - 1]);
      var l := Last(route).location;
      assert l in inst.customers ==> inst.ValidCustomer(inst.customers[l]);
    }
  }

  /** Stops at locations the instance has, none left before it is reached. */
  ghost predicate StopsInOrder(inst: Instance, route: seq<Stop>) {
    forall i :: 0 <= i < |route| ==> inst.IsValidLocation(route[i].location) && route[i].arrival <= route[i].departure
  }

  lemma {:induction false} KeptInOrderToo(inst: Instance, route: seq<Stop>)
    requires StopsInOrder(inst, route)
    ensures StopsInOrder(inst, Kept(route))
  {
    KeptIsAmong(route);
    forall i | 0 <= i < |Kept(route)|
      ensures inst.IsValidLocation(Kept(route)[i].location) && Kept(route)[i].arrival <= Kept(route)[i].departure
    {
      var k :| 0 <= k < |route| && route[k] == Kept(route)[i];
    }
  }

  lemma {:induction false} RetimedInOrder(inst: Instance, driver: nat, route: seq<Stop>)
    requires inst.Valid() && driver in inst.drivers && StopsInOrder(inst, route)
    ensures StopsInOrder(inst, Retimed(inst, driver, route))
  {
    RetimedLeavesLater(inst, driver, route);
    RetimedSameVisits(inst, driver, route);
    var t := Retimed(inst, driver, route);
    hide Retimed, Instance.Valid;
    forall i | 0 <= i < |t| ensures inst.IsValidLocation(t[i].location) {
      assert SameVisit(t[i], route[i]);
    }
  }

  lemma CleanedIsOnTime(inst: Instance, s: Shift)
    requires inst.Valid() && inst.Triangle() && Processable(inst, s)
    ensures s.driver in inst.drivers && OnTime(inst, Cleaned(inst, s))
  {
    hide Instance.Triangle;
    CleanedIsSilent(inst, s);
    assert StopsInOrder(inst, s.route) && inst.drivers[s.driver].layoverDuration >= 0;
    KeptInOrderToo(inst, s.route);
    TimedFromBase(inst, s.driver, s.route);
    RetimedInOrder(inst, s.driver, Kept(s.route));
    assert StopsInOrder(inst, Cleaned(inst, s).route);
    hide Cleaned, Kept, Retimed, TimedAnew, TimelineOk, SetupOk, Processable, Instance.Valid;
  }

  lemma CleanedInHorizon(inst: Instance, s: Shift)
    requires inst.Valid() && inst.Triangle() && Processable(inst, s)
    requires forall j :: 0 <= j < |s.route| ==> InHorizon(inst, s.route[j])
    ensures s.driver in inst.drivers
    ensures forall j :: 0 <= j < |Cleaned(inst, s).route| ==> InHorizon(inst, Cleaned(inst, s).route[j])
  {
    assert OnTime(inst, s) && s.route != [] && s.route[0].location == BASE && s.departureTime >= 0;
    assert s.driver in inst.drivers;
    hide Instance.Triangle, Instance.Valid, Processable, OnTime, Kept;
    CleanedIsOnTime(inst, s);
    CleanedArrivesNoLater(inst, s);
    var t := Cleaned(inst, s);
    assert t.departureTime == s.departureTime;
    hide Cleaned;
    forall j | 0 <= j < |t.route| ensures InHorizon(inst, t.route[j]) {
      StopInHorizon(inst, s, t, j);
    }
  }

  lemma {:induction false} StopInHorizon(inst: Instance, s: Shift, t: Shift, j: nat)
    requires inst.Valid() && OnTime(inst, t) && t.departureTime >= 0 && j < |t.route|
    requires ArriveNoLater(t.route, Kept(s.route)) && SameVisits(t.route, Kept(s.route))
    requires forall k :: 0 <= k < |s.route| ==> InHorizon(inst, s.route[k])
    ensures InHorizon(inst, t.route[j])
  {
    KeptIsAmong(s.route);
    ReachedAfterStart(inst, t, j);
    var kept := Kept(s.route);
    hide Kept, OnTime, Instance.Valid;
    var k :| 0 <= k < |s.route| && s.route[k] == kept[j];
    assert InHorizon(inst, s.route[k]) && SameVisit(t.route[j], kept[j]) && t.route[j].arrival <= kept[j].arrival;
  }

  lemma {:induction false} PostProcessedInHorizon(inst: Instance, shifts: seq<Shift>)
    requires inst.Valid() && inst.Triangle() && forall i :: 0 <= i < |shifts| ==> Processable(inst, shifts[i])
    requires AllInHorizon(inst, shifts)
    ensures forall i :: 0 <= i < |shifts| ==> shifts[i].driver in inst.drivers
    ensures AllInHorizon(inst, PostProcessed(inst, shifts))
  {
    DriversAreKnown(inst, shifts);
    var result := PostProcessed(inst, shifts);
    hide Instance.Triangle, Instance.Valid, Processable, PostProcessed, Cleaned, Stays, InHorizon;
    forall k, j | 0 <= k < |result| && 0 <= j < |result[k].route| ensures InHorizon(inst, result[k].route[j]) {
      ProcessedComesFrom(inst, shifts, k);
      var i :| 0 <= i < |shifts| && Stays(shifts[i]) && result[k] == Cleaned(inst, shifts[i]).(id := k + 1);
      CleanedInHorizon(inst, shifts[i]);
    }
  }

  /** The site check sees no customer overflow. */
  ghost predicate SiteCheckSilent(inst: Instance, shifts: seq<Shift>) {
    && AllIndexed(inst, shifts)
    && forall c :: c in inst.customers && IsLookedAt(inst, c) ==> (
         inst.horizon <= |inst.customers[c].forecast| && TankWithinCapacity(inst, LandedShifts(inst, shifts), c))
  }

  /** A silent site check stays silent exactly when, for the customers it looks
      at, what is advanced fits. */
  lemma {:induction false} SiteCheckStaysSilentIff(inst: Instance, shifts: seq<Shift>)
    requires inst.Valid() && inst.Triangle() && forall i :: 0 <= i < |shifts| ==> Processable(inst, shifts[i])
    requires AllInHorizon(inst, shifts) && SiteCheckSilent(inst, shifts)
    ensures forall i :: 0 <= i < |shifts| ==> shifts[i].driver in inst.drivers
    ensures SiteCheckSilent(inst, PostProcessed(inst, shifts))
       <==> forall c :: c in inst.customers && IsLookedAt(inst, c) ==>
              inst.ValidCustomer(inst.customers[c]) && AdvancesFit(inst, shifts, c)
  {
    PostProcessedInHorizon(inst, shifts);
    var result := PostProcessed(inst, shifts);
    AllLanded(inst, result);
    hide Instance.Triangle, Instance.Valid, Processable, PostProcessed, AdvancesFit, TankWithinCapacity;
    hide LandedShifts, AllIndexed, AllInHorizon;
    forall c | c in inst.customers && IsLookedAt(inst, c)
      ensures inst.ValidCustomer(inst.customers[c])
      ensures TankWithinCapacity(inst, LandedShifts(inst, result), c) <==> AdvancesFit(inst, shifts, c)
    {
      LandedTanks(inst, shifts, c);
      LandedTanks(inst, result, c);
      CapacityKeptIff(inst, shifts, c);
    }
  }
}
