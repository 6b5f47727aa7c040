/** Exactly which runs of the greedy route builder keep quantities right: the
    stock of the trailers, the signs, and the capacity of the tanks. */
module RoadefRoom {
  import opened RoadefModel
  import opened RoadefChecker
  import opened RoadefTanks
  import opened RoadefPlan
  import opened RoadefMoves
  import opened RoadefSafety
  import opened RoadefErased
  import opened RoadefRuns

  // ---- no trailer is overdrawn ----

  ghost predicate NeverOverdrawn(s: Shift) {
    forall n :: 0 <= n <= |s.route| ==> StockAt(s, n) >= 0
  }

  ghost predicate Stocked(p: Plan) {
    && (forall t :: t in p.stock ==> p.stock[t] >= 0)
    && forall i :: 0 <= i < |p.shifts| ==> NeverOverdrawn(p.shifts[i])
  }

  lemma {:induction false} OpenedStocked(inst: Instance, p: Plan, d: nat)
    requires Equipped(inst, p, d) && Stocked(p)
    ensures Stocked(Opened(inst, p, d))
  {
    hide Find;
    var o := Opened(inst, p, d);
    if o != p {
      var s := Last(o.shifts);
      assert StockAt(s, 0) == s.initialQuantity && StockAt(s, 1) == s.initialQuantity;
      assert NeverOverdrawn(s);
      hide NeverOverdrawn;
      assert forall i :: 0 <= i < |p.shifts| ==> o.shifts[i] == p.shifts[i];
    }
  }

  lemma {:induction false} StopStocked(s: Shift, stop: Stop)
    requires NeverOverdrawn(s) && FinalStock(s) + stop.quantity >= 0
    ensures NeverOverdrawn(WithStop(s, stop))
  {
    StockWithStop(s, stop);
    hide StockAt, FinalStock;
  }

  lemma {:induction false} ExtendedStocked(
    inst: Instance, p: Plan, d: nat, stop: Stop, driving: int, place: Place)
    requires Equipped(inst, p, d) && StockFollows(inst, p) && Stocked(p)
    requires IsLastOf(p.shifts, Find(p.shifts, p.shiftId[p.trailerOf[d]]), p.trailerOf[d])
    requires p.stock[p.trailerOf[d]] + stop.quantity >= 0
    ensures Stocked(Extended(p, d, stop, driving, place, p.stock[p.trailerOf[d]] + stop.quantity))
  {
    hide Find, Linked, NeverOverdrawn, WithStop, FinalStock;
    var k := Find(p.shifts, p.shiftId[p.trailerOf[d]]);
    LatestIs(p.shifts, k);
    StopStocked(p.shifts[k], stop);
  }

  lemma {:induction false} VisitedStocked(inst: Instance, p: Plan, d: nat, l: nat, quantity: int)
    requires inst.Valid() && Orderly(inst, p) && Stocked(p) && Equipped(inst, p, d)
    requires p.stock[p.trailerOf[d]] + quantity >= 0
    ensures Stocked(Visited(inst, p, d, l, quantity))
  {
    hide Timely, StockFollows, Stocked, Opened, Extended, IsLastOf, Instance.Valid, Find;
    var o := Opened(inst, p, d);
    OpenedTables(inst, p, d);
    OpenedIsLast(inst, p, d);
    OpenedFollows(inst, p, d);
    OpenedStocked(inst, p, d);
    var stop := NextStop(inst, o, d, l, quantity);
    ExtendedStocked(inst, o, d, stop, stop.cumulatedDriving, Place(l, stop.departure));
  }

  lemma {:induction false} EndedStocked(inst: Instance, p: Plan, d: nat)
    requires Orderly(inst, p) && Stocked(p) && Equipped(inst, p, d)
    ensures Stocked(Ended(inst, p, d))
  {
    hide Timely, StockFollows, Extended, IsLastOf, Find, NeverOverdrawn;
    var t := p.trailerOf[d];
    if Find(p.shifts, p.shiftId[t]) >= 0 {
      OpenIsLast(inst, p, d);
      assert p.stock[t] >= 0;
      var arrival := ArrivalAt(inst, p, d, BASE);
      var stop := Stop(BASE, 0, arrival, arrival, false, 0, p.driving[d] + inst.travel(p.place[t].location, BASE));
      ExtendedStocked(inst, p, d, stop, 0, Place(BASE, arrival + inst.drivers[d].minInterShift));
    }
  }

  /** A delivery takes no more than the trailer holds. */
  lemma {:induction false} MoveKeepsStocked(inst: Instance, p: Plan, m: Move)
    requires inst.Valid() && Orderly(inst, p) && Stocked(p) && Possible(inst, p, m)
    ensures Stocked(Applied(inst, p, m))
  {
    hide Orderly, NeverOverdrawn, Visited, Ended;
    match m
    case Deliver(c, d) => VisitedStocked(inst, p, d, c, -MaxQuantity(inst, p, c, d));
    case Load(s, d) => VisitedStocked(inst, p, d, s, inst.trailers[p.trailerOf[d]].capacity - p.stock[p.trailerOf[d]]);
    case EndShift(d) => EndedStocked(inst, p, d);
    case Pause(_) =>
  }

  lemma {:induction false} RunKeepsStocked(inst: Instance, p: Plan, moves: seq<Move>)
    requires inst.Valid() && Orderly(inst, p) && Stocked(p) && Run(inst, p, moves)
    ensures Stocked(After(inst, p, moves))
    decreases |moves|
  {
    hide Instance.Valid, Orderly, Stocked, Possible, Applied;
    if moves != [] {
      MoveKeepsOrderly(inst, p, moves[0]);
      MoveKeepsStocked(inst, p, moves[0]);
      RunKeepsStocked(inst, Applied(inst, p, moves[0]), moves[1..]);
    }
  }

  /** In turn or not, no trailer's stock is negative at any stop. */
  lemma {:induction false} EveryRunIsStocked(inst: Instance, p: Plan, moves: seq<Move>, i: nat)
    requires inst.Valid() && IsInitial(inst, p) && Run(inst, p, moves) && i < |After(inst, p, moves).shifts|
    ensures StockAtLeast(After(inst, p, moves).shifts[i], 0)
  {
    assert Stocked(p);
    hide Instance.Valid, IsInitial, Orderly, Run, After, StockAt;
    InitialIsOrderly(inst, p);
    RunKeepsStocked(inst, p, moves);
    assert NeverOverdrawn(After(inst, p, moves).shifts[i]);
  }

  // ---- signs, and the stock's upper bound ----

  ghost predicate RoomyRun(inst: Instance, p: Plan, moves: seq<Move>)
    requires Run(inst, p, moves)
    decreases |moves|
  {
    moves == [] || (FindsRoom(inst, p, moves[0]) && RoomyRun(inst, Applied(inst, p, moves[0]), moves[1..]))
  }

  lemma {:induction false} RoomyRunKeepsInv(inst: Instance, p: Plan, moves: seq<Move>)
    requires inst.Valid() && Inv(inst, p) && Run(inst, p, moves) && RoomyRun(inst, p, moves)
    ensures Inv(inst, After(inst, p, moves))
    decreases |moves|
  {
    hide Instance.Valid, Inv, Possible, Applied, FindsRoom;
    if moves != [] {
      RoomyKeepsInv(inst, p, moves[0]);
      RoomyRunKeepsInv(inst, Applied(inst, p, moves[0]), moves[1..]);
    }
  }

  /** Shifts get longer, and more. */
  predicate Grown(before: seq<Shift>, after: seq<Shift>) {
    |before| <= |after| && forall i :: 0 <= i < |before| ==> before[i].route <= after[i].route
  }

  ghost predicate HasWrongSign(inst: Instance, shifts: seq<Shift>) {
    exists i :: 0 <= i < |shifts| && !SignsOk(inst, shifts[i])
  }

  lemma {:induction false} WrongSignStays(inst: Instance, before: seq<Shift>, after: seq<Shift>)
    requires HasWrongSign(inst, before) && Grown(before, after)
    ensures HasWrongSign(inst, after)
  {
    var i :| 0 <= i < |before| && !SignsOk(inst, before[i]);
    var j :| 0 <= j < |before[i].route| && !RightSign(inst, before[i].route[j]);
    assert before[i].route <= after[i].route && after[i].route[j] == before[i].route[j];
  }

  lemma {:induction false} VisitGrows(inst: Instance, p: Plan, d: nat, l: nat, quantity: int) returns (k: nat)
    requires Equipped(inst, p, d)
    ensures var v := Visited(inst, p, d, l, quantity);
      && Grown(p.shifts, v.shifts)
      && k < |v.shifts| && v.shifts[k].route != []
      && Last(v.shifts[k].route).location == l && Last(v.shifts[k].route).quantity == quantity
  {
    hide Find, NextStop;
    var o := Opened(inst, p, d);
    k := Find(o.shifts, p.shiftId[p.trailerOf[d]]);
    assert o.shifts[k].route <= WithStop(o.shifts[k], NextStop(inst, o, d, l, quantity)).route;
    NextStopIs(inst, o, d, l, quantity);
  }

  lemma NextStopIs(inst: Instance, p: Plan, d: nat, l: nat, quantity: int)
    requires Equipped(inst, p, d)
    ensures NextStop(inst, p, d, l, quantity).location == l && NextStop(inst, p, d, l, quantity).quantity == quantity
  {
  }

  lemma {:induction false} MoveGrows(inst: Instance, p: Plan, m: Move)
    requires Possible(inst, p, m)
    ensures Grown(p.shifts, Applied(inst, p, m).shifts)
  {
    hide Find, Visited;
    match m
    case Deliver(c, d) => var k := VisitGrows(inst, p, d, c, -MaxQuantity(inst, p, c, d));
    case Load(s, d) =>
      var k := VisitGrows(inst, p, d, s, inst.trailers[p.trailerOf[d]].capacity - p.stock[p.trailerOf[d]]);
    case EndShift(_) =>
    case Pause(_) =>
  }

  lemma {:induction false} WrongSignLasts(inst: Instance, p: Plan, moves: seq<Move>)
    requires HasWrongSign(inst, p.shifts) && Run(inst, p, moves)
    ensures HasWrongSign(inst, After(inst, p, moves).shifts)
    decreases |moves|
  {
    hide HasWrongSign, Grown, Possible, Applied;
    if moves != [] {
      MoveGrows(inst, p, moves[0]);
      WrongSignStays(inst, p.shifts, Applied(inst, p, moves[0]).shifts);
      WrongSignLasts(inst, Applied(inst, p, moves[0]), moves[1..]);
    }
  }

  /** Where the tank is above its capacity, the delivery takes from it. */
  lemma {:induction false} NoRoomTakesBack(inst: Instance, p: Plan, m: Move)
    requires inst.Valid() && Possible(inst, p, m) && !FindsRoom(inst, p, m)
    ensures HasWrongSign(inst, Applied(inst, p, m).shifts)
  {
    var c, d := m.customer, m.driver;
    LocationIsReal(inst, c);
    assert MaxQuantity(inst, p, c, d) < 0;
    hide Visited, Instance.Valid;
    var k := VisitGrows(inst, p, d, c, -MaxQuantity(inst, p, c, d));
    var s := Applied(inst, p, m).shifts[k];
    assert !RightSign(inst, Last(s.route));
  }

  lemma {:induction false} TightRunTakesBack(inst: Instance, p: Plan, moves: seq<Move>)
    requires inst.Valid() && Run(inst, p, moves) && !RoomyRun(inst, p, moves)
    ensures HasWrongSign(inst, After(inst, p, moves).shifts)
    decreases |moves|
  {
    hide Instance.Valid, HasWrongSign, Possible, Applied, FindsRoom;
    if FindsRoom(inst, p, moves[0]) {
      TightRunTakesBack(inst, Applied(inst, p, moves[0]), moves[1..]);
    } else {
      NoRoomTakesBack(inst, p, moves[0]);
      WrongSignLasts(inst, Applied(inst, p, moves[0]), moves[1..]);
    }
  }

  /** After a run the per-shift and linking checks find nothing exactly when no
      delivery of the run found the tank above its capacity. */
  lemma {:induction false} EveryRunIsSilentIff(inst: Instance, p: Plan, moves: seq<Move>)
    requires inst.Valid() && IsInitial(inst, p) && Run(inst, p, moves)
    ensures Silent(inst, After(inst, p, moves).shifts) <==> RoomyRun(inst, p, moves)
  {
    hide Instance.Valid, IsInitial, Inv, TanksOk, DrivingInv, Linked, SignsOk, Run, After, RoomyRun;
    if RoomyRun(inst, p, moves) {
      InitialIsGood(inst, p);
      RoomyRunKeepsInv(inst, p, moves);
      InvIsSilent(inst, After(inst, p, moves));
    } else {
      TightRunTakesBack(inst, p, moves);
    }
  }

  // ---- the capacity of the tanks ----

  ghost predicate TankHolds(inst: Instance, p: Plan, c: nat)
    requires c in inst.customers
  {
    && c in p.tanks && |p.tanks[c]| == inst.horizon
    && forall h :: 0 <= h < inst.horizon ==> p.tanks[c][h] <= inst.customers[c].capacity
  }

  ghost predicate TanksHold(inst: Instance, p: Plan) {
    forall c :: c in inst.customers ==> TankHolds(inst, p, c)
  }

  /** A delivery fits at every hour from its arrival on. */
  ghost predicate Fits(inst: Instance, p: Plan, m: Move)
    requires Possible(inst, p, m)
  {
    match m
    case Deliver(c, d) => DeliveryFits(inst, p, c, d)
    case _ => true
  }

  ghost predicate FittingRun(inst: Instance, p: Plan, moves: seq<Move>)
    requires Run(inst, p, moves)
    decreases |moves|
  {
    moves == [] || (Fits(inst, p, moves[0]) && FittingRun(inst, Applied(inst, p, moves[0]), moves[1..]))
  }

  /** No customer's recomputed tank is above its capacity, the one that the site
      check skips included. */
  ghost predicate SitesHold(inst: Instance, shifts: seq<Shift>)
    requires inst.Forecasted()
  {
    forall c :: c in inst.customers ==> TankWithinCapacity(inst, shifts, c)
  }

  /** Nor after any move of the run. */
  ghost predicate SitesAlwaysHold(inst: Instance, p: Plan, moves: seq<Move>)
    requires inst.Forecasted() && Run(inst, p, moves)
    decreases |moves|
  {
    && SitesHold(inst, p.shifts)
    && (moves == [] || SitesAlwaysHold(inst, Applied(inst, p, moves[0]), moves[1..]))
  }

  lemma {:induction false} SitesHoldIff(inst: Instance, p: Plan)
    requires inst.Forecasted() && TanksSum(inst, p)
    ensures SitesHold(inst, p.shifts) <==> TanksHold(inst, p)
  {
    hide TankAt;
    forall c | c in inst.customers ensures TankWithinCapacity(inst, p.shifts, c) <==> TankHolds(inst, p, c) {
      assert TankSums(inst, p, c);
    }
  }

  lemma {:induction false} DeliveryFitsTanks(inst: Instance, p: Plan, c: nat, d: nat)
    requires TanksHold(inst, p) && Possible(inst, p, Deliver(c, d))
    ensures TanksHold(inst, CustomerInserted(inst, p, c, d)) <==> DeliveryFits(inst, p, c, d)
  {
    hide Visited, ArrivalAt, MaxQuantity;
    var v := CustomerInserted(inst, p, c, d);
    var hour, quantity := ArrivalAt(inst, p, d, c) / UNIT, MaxQuantity(inst, p, c, d);
    assert v.tanks[c] == Raised(p.tanks[c], hour, quantity);
    forall e | e in inst.customers && e != c ensures TankHolds(inst, v, e) {
      assert TankHolds(inst, p, e);
    }
    assert TankHolds(inst, p, c);
    assert TankHolds(inst, v, c) <==> DeliveryFits(inst, p, c, d) by {
      assert forall h :: 0 <= h < inst.horizon ==>
        v.tanks[c][h] == if h >= hour then p.tanks[c][h] + quantity else p.tanks[c][h];
    }
  }

  lemma {:induction false} MoveFitsIff(inst: Instance, p: Plan, m: Move)
    requires TanksHold(inst, p) && Possible(inst, p, m)
    ensures TanksHold(inst, Applied(inst, p, m)) <==> Fits(inst, p, m)
  {
    hide TankHolds, Find, DeliveryFits;
    match m
    case Deliver(c, d) => DeliveryFitsTanks(inst, p, c, d);
    case Load(s, d) => SameTanks(inst, p, SourceInserted(inst, p, s, d));
    case EndShift(d) => SameTanks(inst, p, Ended(inst, p, d));
    case Pause(duration) => SameTanks(inst, p, Paused(p, duration));
  }

  lemma SameTanks(inst: Instance, p: Plan, v: Plan)
    requires TanksHold(inst, p) && v.tanks == p.tanks
    ensures TanksHold(inst, v)
  {
    forall c | c in inst.customers ensures TankHolds(inst, v, c) {
      assert TankHolds(inst, p, c);
    }
  }

  /** Throughout a run no tank is above its capacity exactly when every delivery
      fits. */
  lemma {:induction false} RunFitsIff(inst: Instance, p: Plan, moves: seq<Move>)
    requires inst.Numbered() && inst.Forecasted() && TanksSum(inst, p) && TanksHold(inst, p) && Run(inst, p, moves)
    ensures SitesAlwaysHold(inst, p, moves) <==> FittingRun(inst, p, moves)
    decreases |moves|
  {
    hide Instance.Numbered, Instance.Forecasted, TanksSum, TanksHold, SitesHold, Possible, Applied, Fits;
    SitesHoldIff(inst, p);
    if moves != [] {
      var v := Applied(inst, p, moves[0]);
      MoveKeepsSums(inst, p, moves[0]);
      MoveFitsIff(inst, p, moves[0]);
      SitesHoldIff(inst, v);
      if TanksHold(inst, v) {
        RunFitsIff(inst, v, moves[1..]);
      }
    }
  }

  lemma {:induction false} EveryRunFitsIff(inst: Instance, p: Plan, moves: seq<Move>)
    requires inst.Valid() && IsInitial(inst, p) && Run(inst, p, moves)
    ensures inst.Forecasted()
    ensures SitesAlwaysHold(inst, p, moves) <==> FittingRun(inst, p, moves)
  {
    assert inst.Forecasted();
    hide IsInitial, Inv, DrivingInv, Run, FittingRun, SitesAlwaysHold, TanksSum;
    InitialIsGood(inst, p);
    InitialSums(inst, p);
    GoodHolds(inst, p);
    RunFitsIff(inst, p, moves);
  }

  lemma GoodHolds(inst: Instance, p: Plan)
    requires Good(inst, p)
    ensures TanksHold(inst, p)
  {
    hide Inv, TankAt;
    forall c | c in inst.customers ensures TankHolds(inst, p, c) {
      assert TankOk(inst, p, c);
    }
  }

  // ---- how the three conditions relate ----

  /** A delivery that fits finds room, so no tank overflows unless it has. */
  lemma {:induction false} FittingIsRoomy(inst: Instance, p: Plan, moves: seq<Move>)
    requires TanksHold(inst, p) && Run(inst, p, moves) && FittingRun(inst, p, moves)
    ensures RoomyRun(inst, p, moves)
    decreases |moves|
  {
    hide TanksHold, Possible, Applied, Fits, FindsRoom;
    if moves != [] {
      HoldingFindsRoom(inst, p, moves[0]);
      MoveFitsIff(inst, p, moves[0]);
      FittingIsRoomy(inst, Applied(inst, p, moves[0]), moves[1..]);
    }
  }

  lemma HoldingFindsRoom(inst: Instance, p: Plan, m: Move)
    requires TanksHold(inst, p) && Possible(inst, p, m)
    ensures FindsRoom(inst, p, m)
  {
    if m.Deliver? {
      assert TankHolds(inst, p, m.customer);
    }
  }

  /** Deliveries in turn fit. */
  lemma {:induction false} InTurnIsFitting(inst: Instance, p: Plan, moves: seq<Move>)
    requires Good(inst, p) && GuardedRun(inst, p, moves)
    ensures FittingRun(inst, p, moves)
    decreases |moves|
  {
    hide Good, Guarded, Possible, Applied, Fits;
    if moves != [] {
      GuardedFits(inst, p, moves[0]);
      MoveKeepsGood(inst, p, moves[0]);
      InTurnIsFitting(inst, Applied(inst, p, moves[0]), moves[1..]);
    }
  }

  lemma GuardedFits(inst: Instance, p: Plan, m: Move)
    requires Good(inst, p) && Guarded(inst, p, m)
    ensures Possible(inst, p, m) && Fits(inst, p, m)
  {
    hide Inv, InTurn;
    if m.Deliver? {
      assert TankOk(inst, p, m.customer);
      InTurnFits(inst, p, m.customer, m.driver);
    }
  }
}
