/** Every move of the greedy route builder keeps its invariant. */
module RoadefMoves {
  import opened RoadefModel
  import opened RoadefChecker
  import opened RoadefPlan

  // ---- opening a shift ----

  lemma NewShiftIsValid(inst: Instance, p: Plan, d: nat, s: Shift)
    requires inst.Valid() && Equipped(inst, p, d) && AtBase(inst, p, d)
    requires s.trailer == p.trailerOf[d] && s.departureTime == p.place[s.trailer].time
    requires s.initialQuantity == p.stock[s.trailer] && s.route == [BaseStop(s.departureTime)]
    ensures ValidShift(inst, s) && FinalStock(s) == s.initialQuantity && End(s) == s.departureTime
  {
    assert StockAt(s, 0) == s.initialQuantity;
    assert StockAt(s, 1) == s.initialQuantity;
  }

  lemma OpenedKeepsOther(inst: Instance, p: Plan, d: nat, s: Shift, e: nat)
    requires Assigned(inst, p) && IdsOk(p) && d in p.trailerOf && e in p.trailerOf && e != d
    requires VehicleOk(inst, p, e) && s.trailer == p.trailerOf[d] && s.id == p.shiftId[s.trailer]
    ensures VehicleOk(inst, p.(shifts := p.shifts + [s]), e)
  {
    hide Find, Latest, Linked, MayFollow, Carried;
    var t := p.trailerOf[e];
    Appended(inst, p.shifts, s, p.shiftId[t], t);
  }

  /** The entry a new shift gets. */
  function NewShift(p: Plan, d: nat): Shift
    requires d in p.trailerOf && p.trailerOf[d] in p.shiftId && p.trailerOf[d] in p.place && p.trailerOf[d] in p.stock
  {
    var t := p.trailerOf[d];
    Shift(p.shiftId[t], d, t, p.place[t].time, p.stock[t], [BaseStop(p.place[t].time)])
  }

  lemma {:induction false} NewShiftKeepsIds(p: Plan, s: Shift)
    requires IdsOk(p) && s.trailer in p.shiftId && s.id == p.shiftId[s.trailer] && Find(p.shifts, s.id) < 0
    ensures IdsOk(p.(shifts := p.shifts + [s]))
  {
    FindFails(p.shifts, s.id);
    hide Find;
  }

  lemma {:induction false} NewShiftKeepsShifts(inst: Instance, p: Plan, d: nat)
    requires ShiftsOk(inst, p) && Equipped(inst, p, d) && AtBase(inst, p, d) && ValidShift(inst, NewShift(p, d))
    ensures ShiftsOk(inst, p.(shifts := p.shifts + [NewShift(p, d)]))
  {
    hide Find, Latest, ValidShift;
    var s := NewShift(p, d);
    var o := p.(shifts := p.shifts + [s]);
    forall i | 0 <= i < |o.shifts| ensures ValidShift(inst, o.shifts[i]) && Owned(o, o.shifts[i]) {
      assert i < |p.shifts| ==> Owned(p, p.shifts[i]);
    }
    assert forall i :: 0 <= i < |o.shifts| ==> o.shifts[i] == if i < |p.shifts| then p.shifts[i] else s;
    hide Rested;
  }

  lemma {:induction false} NewShiftIsOnRoute(inst: Instance, p: Plan, d: nat)
    requires inst.Valid() && Equipped(inst, p, d) && AtBase(inst, p, d)
    requires Equipped(inst, p.(shifts := p.shifts + [NewShift(p, d)]), d)
    ensures OnRoute(inst, p.(shifts := p.shifts + [NewShift(p, d)]), d)
  {
    var s := NewShift(p, d);
    NewShiftIsValid(inst, p, d, s);
    Appended(inst, p.shifts, s, s.id, s.trailer);
    hide Find, Latest, Linked, Carried, ValidShift, StockAt, FinalStock, Instance.Valid, Rested;
  }

  lemma {:induction false} OpenedConsistent(inst: Instance, p: Plan, d: nat)
    requires inst.Valid() && Consistent(inst, p) && d in p.trailerOf && AtBase(inst, p, d)
    ensures Consistent(inst, Opened(inst, p, d)) && OnRoute(inst, Opened(inst, p, d), d)
  {
    hide Find, Latest, Linked, Carried, ValidShift, StockAt, FinalStock, IdsOk, ShiftsOk, OnRoute;
    hide Instance.Valid, Rested;
    var s, o := NewShift(p, d), Opened(inst, p, d);
    assert o == p.(shifts := p.shifts + [s]);
    NewShiftIsValid(inst, p, d, s);
    Appended(inst, p.shifts, s, s.id, s.trailer);
    StillAssigned(inst, p, o);
    NewShiftKeepsIds(p, s);
    NewShiftKeepsShifts(inst, p, d);
    NewShiftIsOnRoute(inst, p, d);
  }

  lemma {:induction false} OpenedKeeps(inst: Instance, p: Plan, d: nat)
    requires inst.Valid() && Inv(inst, p) && d in p.trailerOf
    ensures Consistent(inst, Opened(inst, p, d)) && OthersOk(inst, Opened(inst, p, d), d)
    ensures OnRoute(inst, Opened(inst, p, d), d)
  {
    hide Find, Linked, Latest, ValidShift;
    if Find(p.shifts, p.shiftId[p.trailerOf[d]]) < 0 {
      assert VehicleOk(inst, p, d);
      OpenedConsistent(inst, p, d);
      var o := Opened(inst, p, d);
      forall e | e in p.trailerOf && e != d ensures VehicleOk(inst, o, e) {
        OpenedKeepsOther(inst, p, d, Last(o.shifts), e);
      }
    }
  }

  /** The assignment does not depend on the values of the tables. */
  lemma StillAssigned(inst: Instance, p: Plan, x: Plan)
    requires Assigned(inst, p) && x.trailerOf == p.trailerOf
    requires p.driving.Keys <= x.driving.Keys && p.place.Keys <= x.place.Keys
    requires p.stock.Keys <= x.stock.Keys && p.shiftId.Keys <= x.shiftId.Keys
    ensures Assigned(inst, x)
  {
    forall e | e in p.trailerOf ensures Equipped(inst, x, e) {
      assert Equipped(inst, p, e);
    }
  }

  // ---- one more stop on an open route ----

  lemma StockWithStop(s: Shift, stop: Stop)
    ensures forall n :: 0 <= n <= |s.route| ==> StockAt(WithStop(s, stop), n) == StockAt(s, n)
    ensures StockAt(WithStop(s, stop), |s.route| + 1) == FinalStock(WithStop(s, stop)) == FinalStock(s) + stop.quantity
  {
    forall n | 0 <= n <= |s.route| ensures StockAt(WithStop(s, stop), n) == StockAt(s, n) {
      CarriedOfPrefix(s.route, [stop], n);
    }
    assert StockAt(WithStop(s, stop), |s.route|) == FinalStock(s);
  }

  lemma StopAppended(inst: Instance, s: Shift, stop: Stop)
    requires inst.Valid() && ValidShift(inst, s)
    requires FollowsOn(inst, Last(s.route), stop) && Last(s.route).arrival <= Last(s.route).departure
    requires 0 <= FinalStock(s) + stop.quantity <= inst.trailers[s.trailer].capacity && RightSign(inst, stop)
    ensures ValidShift(inst, WithStop(s, stop))
    ensures FinalStock(WithStop(s, stop)) == FinalStock(s) + stop.quantity && End(WithStop(s, stop)) == stop.arrival
  {
    StopsAppended(inst, s.route, stop);
    StockAppended(s, stop, inst.trailers[s.trailer].capacity);
    EndAppended(inst, s, stop);
    hide StockAt, FinalStock, FollowsOn, RightSign, Instance.Valid, End;
  }

  lemma StockAppended(s: Shift, stop: Stop, capacity: int)
    requires forall n :: 0 <= n <= |s.route| ==> 0 <= StockAt(s, n) <= capacity
    requires 0 <= FinalStock(s) + stop.quantity <= capacity
    ensures forall n :: 0 <= n <= |s.route| + 1 ==> 0 <= StockAt(WithStop(s, stop), n) <= capacity
    ensures FinalStock(WithStop(s, stop)) == FinalStock(s) + stop.quantity
  {
    StockWithStop(s, stop);
    hide StockAt, FinalStock;
  }

  lemma EndAppended(inst: Instance, s: Shift, stop: Stop)
    requires inst.Valid() && s.route != [] && FollowsOn(inst, Last(s.route), stop)
    requires s.departureTime <= End(s) && Last(s.route).arrival <= Last(s.route).departure
    ensures s.departureTime <= End(WithStop(s, stop)) == stop.arrival
  {
    assert stop.arrival >= Last(s.route).departure;
  }

  lemma StopsAppended(inst: Instance, route: seq<Stop>, stop: Stop)
    requires route != [] && FollowsOn(inst, Last(route), stop) && RightSign(inst, stop)
    requires forall i :: 0 < i < |route| ==> FollowsOn(inst, route[i - 1], route[i])
    requires forall i :: 0 <= i < |route| ==> RightSign(inst, route[i])
    ensures var longer := route + [stop];
      && (forall i :: 0 < i < |longer| ==> FollowsOn(inst, longer[i - 1], longer[i]))
      && (forall i :: 0 <= i < |longer| ==> RightSign(inst, longer[i]))
  {
    hide FollowsOn, RightSign;
  }

  lemma ExtendedKeepsOther(inst: Instance, p: Plan, d: nat, x: Plan, e: nat, k: nat, s: Shift)
    requires Assigned(inst, p) && d in p.trailerOf && e in p.trailerOf && e != d && VehicleOk(inst, p, e)
    requires k < |p.shifts| && p.shifts[k].trailer == p.trailerOf[d] == s.trailer && p.shifts[k].id == s.id
    requires x.shifts == p.shifts[k := s] && x.trailerOf == p.trailerOf && x.shiftId == p.shiftId
    requires Assigned(inst, x)
    requires var t := p.trailerOf[e];
      x.place[t] == p.place[t] && x.stock[t] == p.stock[t] && x.driving[e] == p.driving[e]
    ensures VehicleOk(inst, x, e)
  {
    hide Find, Latest, Linked, MayFollow, Carried;
    Replaced(p.shifts, k, s, p.shiftId[p.trailerOf[e]], p.trailerOf[e]);
  }

  /** Replacing a trailer's last shift by a valid one that only ends later. */
  lemma ReplacedConsistent(inst: Instance, p: Plan, k: nat, s: Shift, x: Plan)
    requires Consistent(inst, p) && k < |p.shifts| && ValidShift(inst, s)
    requires s == p.shifts[k].(route := s.route)
    requires forall i :: k < i < |p.shifts| ==> p.shifts[i].trailer != s.trailer
    requires x.shifts == p.shifts[k := s] && x.trailerOf == p.trailerOf
    requires x.shiftId == p.shiftId && x.nextId == p.nextId
    requires Assigned(inst, x)
    ensures Consistent(inst, x)
  {
    hide Find, Latest, Linked, MayFollow, Carried, ValidShift, StockAt;
    ReplacedLinked(inst, p.shifts, k, s);
    assert forall i :: 0 <= i < |x.shifts| ==> x.shifts[i] == if i == k then s else p.shifts[i];
  }

  lemma {:induction false} ExtendedKeeps(
    inst: Instance, p: Plan, d: nat, stop: Stop, driving: int, place: Place, stock: int)
    requires inst.Valid() && Consistent(inst, p) && d in p.trailerOf && OthersOk(inst, p, d) && OnRoute(inst, p, d)
    requires FollowsOn(inst, Last(p.shifts[Find(p.shifts, p.shiftId[p.trailerOf[d]])].route), stop)
    requires 0 <= p.stock[p.trailerOf[d]] + stop.quantity <= inst.trailers[p.trailerOf[d]].capacity
    requires RightSign(inst, stop)
    ensures var x := Extended(p, d, stop, driving, place, stock);
      var k := Find(p.shifts, p.shiftId[p.trailerOf[d]]);
      && Consistent(inst, x) && OthersOk(inst, x, d)
      && Find(x.shifts, x.shiftId[p.trailerOf[d]]) == k
      && x.shifts[k] == WithStop(p.shifts[k], stop)
      && FinalStock(x.shifts[k]) == p.stock[p.trailerOf[d]] + stop.quantity
  {
    hide Find, Latest, Linked, MayFollow, Carried, ValidShift, StockAt, FinalStock;
    var t := p.trailerOf[d];
    var k := Find(p.shifts, p.shiftId[t]);
    var s := WithStop(p.shifts[k], stop);
    var x := Extended(p, d, stop, driving, place, stock);
    StopAppended(inst, p.shifts[k], stop);
    Replaced(p.shifts, k, s, s.id, t);
    StillAssigned(inst, p, x);
    ReplacedConsistent(inst, p, k, s, x);
    forall e | e in p.trailerOf && e != d ensures VehicleOk(inst, x, e) {
      ExtendedKeepsOther(inst, p, d, x, e, k, s);
    }
  }

  // ---- the moves ----

  lemma RouteEndsAt(inst: Instance, p: Plan, d: nat)
    requires Consistent(inst, p) && d in p.trailerOf && OnRoute(inst, p, d)
    ensures Find(p.shifts, p.shiftId[p.trailerOf[d]]) >= 0
    ensures var s := p.shifts[Find(p.shifts, p.shiftId[p.trailerOf[d]])];
      && ValidShift(inst, s) && FinalStock(s) == p.stock[p.trailerOf[d]]
      && 0 <= p.stock[p.trailerOf[d]] <= inst.trailers[p.trailerOf[d]].capacity
  {
    var s := p.shifts[Find(p.shifts, p.shiftId[p.trailerOf[d]])];
    assert FinalStock(s) == StockAt(s, |s.route|);
  }

  lemma OfInv(inst: Instance, p: Plan, d: nat)
    requires Inv(inst, p) && d in p.trailerOf
    ensures Consistent(inst, p) && Equipped(inst, p, d) && OthersOk(inst, p, d) && VehicleOk(inst, p, d)
  {
  }

  lemma ToInv(inst: Instance, p: Plan, d: nat)
    requires Consistent(inst, p) && d in p.trailerOf && OthersOk(inst, p, d)
    requires Equipped(inst, p, d) && VehicleOk(inst, p, d)
    ensures Inv(inst, p)
  {
  }

  lemma ExtendedOnRoute(inst: Instance, p: Plan, d: nat, l: nat, quantity: int)
    requires inst.Valid() && Equipped(inst, p, d) && OnRoute(inst, p, d)
    ensures var stop := NextStop(inst, p, d, l, quantity);
      var x := Extended(p, d, stop, stop.cumulatedDriving, Place(l, stop.departure),
                        p.stock[p.trailerOf[d]] + quantity);
      Equipped(inst, x, d) && OnRoute(inst, x, d)
  {
    hide Latest, Carried, StockAt, FinalStock, ValidShift, Linked;
    var k := Find(p.shifts, p.shiftId[p.trailerOf[d]]);
    var stop := NextStop(inst, p, d, l, quantity);
    Replaced(p.shifts, k, WithStop(p.shifts[k], stop), p.shiftId[p.trailerOf[d]], 0);
    StockWithStop(p.shifts[k], stop);
  }

  lemma {:induction false} OnRouteVisitKeeps(inst: Instance, o: Plan, d: nat, l: nat, quantity: int)
    requires inst.Valid() && Consistent(inst, o) && d in o.trailerOf && OthersOk(inst, o, d) && OnRoute(inst, o, d)
    requires Equipped(inst, o, d) && l != BASE
    requires 0 <= o.stock[o.trailerOf[d]] + quantity <= inst.trailers[o.trailerOf[d]].capacity
    requires (inst.IsSource(l) ==> quantity >= 0) && (inst.IsCustomer(l) ==> quantity <= 0)
    ensures var stop := NextStop(inst, o, d, l, quantity);
      Inv(inst, Extended(o, d, stop, stop.cumulatedDriving, Place(l, stop.departure),
                         o.stock[o.trailerOf[d]] + quantity))
  {
    hide Find, Inv, Consistent, OthersOk;
    var stop := NextStop(inst, o, d, l, quantity);
    var stock := o.stock[o.trailerOf[d]] + quantity;
    ExtendedKeeps(inst, o, d, stop, stop.cumulatedDriving, Place(l, stop.departure), stock);
    ExtendedOnRoute(inst, o, d, l, quantity);
    hide OnRoute, Instance.Valid, Extended, NextStop;
    ToInv(inst, Extended(o, d, stop, stop.cumulatedDriving, Place(l, stop.departure), stock), d);
  }

  /** A visit to a customer or a source keeps the invariant if the trailer can
      give or take the quantity and its sign is right. */
  lemma {:induction false} VisitedKeeps(inst: Instance, p: Plan, d: nat, l: nat, quantity: int)
    requires inst.Valid() && Inv(inst, p) && d in p.trailerOf && l != BASE
    requires 0 <= p.stock[p.trailerOf[d]] + quantity <= inst.trailers[p.trailerOf[d]].capacity
    requires (inst.IsSource(l) ==> quantity >= 0) && (inst.IsCustomer(l) ==> quantity <= 0)
    ensures Inv(inst, Visited(inst, p, d, l, quantity))
  {
    hide Find, Inv, Consistent, OthersOk, OnRoute, Instance.Valid, NextStop, Extended;
    OfInv(inst, p, d);
    OpenedKeeps(inst, p, d);
    OnRouteVisitKeeps(inst, Opened(inst, p, d), d, l, quantity);
  }

  /** A trailer's own last shift is what its next one follows. */
  lemma ClosedRoute(inst: Instance, p: Plan, k: nat)
    requires ShiftsOk(inst, p) && k < |p.shifts|
    requires forall i :: k < i < |p.shifts| ==> p.shifts[i].trailer != p.shifts[k].trailer
    requires p.shifts[k].driver in inst.drivers && inst.drivers[p.shifts[k].driver].minInterShift >= 0
    ensures p.shifts[k].trailer in inst.trailers ==>
              StockAfter(inst, p.shifts, p.shifts[k].trailer) == FinalStock(p.shifts[k])
    ensures forall i, time :: 0 <= i < |p.shifts| && p.shifts[i].trailer == p.shifts[k].trailer ==>
              Rested(inst, p.shifts[k], time) ==> Rested(inst, p.shifts[i], time)
  {
    hide Find, Latest, Linked, MayFollow, Carried, StockAt;
    LatestIs(p.shifts, k);
    forall i, time | 0 <= i < |p.shifts| && p.shifts[i].trailer == p.shifts[k].trailer
                         && Rested(inst, p.shifts[k], time)
      ensures Rested(inst, p.shifts[i], time)
    {
      if i < k {
        assert Rested(inst, p.shifts[i], p.shifts[k].departureTime);
      }
    }
  }

  lemma {:induction false} NewIdKeepsVehicle(inst: Instance, p: Plan, x: Plan, e: nat)
    requires Equipped(inst, p, e) && Equipped(inst, x, e) && VehicleOk(inst, p, e)
    requires x.shifts == p.shifts && x.trailerOf == p.trailerOf && x.place == p.place && x.stock == p.stock
    requires x.driving == p.driving && x.shiftId[p.trailerOf[e]] == p.shiftId[p.trailerOf[e]]
    ensures VehicleOk(inst, x, e)
  {
    hide Find, Latest, Linked, MayFollow, Carried, FinalStock, Rested;
  }

  lemma {:induction false} NewIdIsFresh(p: Plan, x: Plan, t: nat)
    requires IdsOk(p) && x.shifts == p.shifts && x.shiftId == p.shiftId[t := p.nextId] && x.nextId == p.nextId + 1
    ensures IdsOk(x) && Find(x.shifts, p.nextId) < 0
  {
    FindFails(p.shifts, p.nextId);
  }

  lemma {:induction false} SameShiftsOk(inst: Instance, p: Plan, x: Plan)
    requires ShiftsOk(inst, p) && x.shifts == p.shifts && x.trailerOf == p.trailerOf
    ensures ShiftsOk(inst, x)
  {
    hide ValidShift, Rested;
    forall i | 0 <= i < |x.shifts| ensures Owned(x, x.shifts[i]) {
      assert Owned(p, p.shifts[i]);
    }
  }

  lemma {:induction false} NewIdKeeps(inst: Instance, p: Plan, d: nat)
    requires Consistent(inst, p) && d in p.trailerOf && OthersOk(inst, p, d)
    ensures var x := p.(shiftId := p.shiftId[p.trailerOf[d] := p.nextId], nextId := p.nextId + 1);
      Consistent(inst, x) && OthersOk(inst, x, d) && Find(x.shifts, p.nextId) < 0
  {
    hide Find, Linked, ShiftsOk, IdsOk, VehicleOk;
    var x := p.(shiftId := p.shiftId[p.trailerOf[d] := p.nextId], nextId := p.nextId + 1);
    NewIdIsFresh(p, x, p.trailerOf[d]);
    SameShiftsOk(inst, p, x);
    StillAssigned(inst, p, x);
    forall e | e in p.trailerOf && e != d ensures VehicleOk(inst, x, e) {
      assert VehicleOk(inst, p, e) && Equipped(inst, p, e) && Equipped(inst, p, d);
      assert Equipped(inst, x, e);
      NewIdKeepsVehicle(inst, p, x, e);
    }
  }

  /** Ready for a new shift, once the trailer has a new id for it. */
  ghost predicate Waiting(inst: Instance, p: Plan, d: nat)
    requires Equipped(inst, p, d)
  {
    var t := p.trailerOf[d];
    && p.place[t].location == BASE && p.place[t].time >= 0 && p.driving[d] == 0
    && p.stock[t] == StockAfter(inst, p.shifts, t)
    && 0 <= p.stock[t] <= inst.trailers[t].capacity
    && forall i :: 0 <= i < |p.shifts| && p.shifts[i].trailer == t ==> Rested(inst, p.shifts[i], p.place[t].time)
  }

  lemma {:induction false} ExtendedWaiting(inst: Instance, p: Plan, d: nat)
    requires inst.Valid() && Consistent(inst, p) && d in p.trailerOf && OnRoute(inst, p, d)
    requires Consistent(inst, BaseInserted(inst, p, d))
    ensures Waiting(inst, BaseInserted(inst, p, d), d)
  {
    hide Find, Latest, Linked, MayFollow, Carried, ValidShift, StockAt, FinalStock, IdsOk;
    var k := Find(p.shifts, p.shiftId[p.trailerOf[d]]);
    var b := BaseInserted(inst, p, d);
    RouteEndsAt(inst, p, d);
    var stop := Last(b.shifts[k].route);
    StockWithStop(p.shifts[k], stop);
    assert b.shifts[k] == WithStop(p.shifts[k], stop);
    ClosedRoute(inst, b, k);
    assert Rested(inst, b.shifts[k], b.place[p.trailerOf[d]].time);
  }

  lemma {:induction false} BaseFollowsOn(inst: Instance, p: Plan, d: nat, stop: Stop)
    requires inst.Valid() && Equipped(inst, p, d) && OnRoute(inst, p, d)
    requires stop == NextStop(inst, p, d, BASE, 0)
    ensures FollowsOn(inst, Last(p.shifts[Find(p.shifts, p.shiftId[p.trailerOf[d]])].route), stop)
    ensures stop.departure == stop.arrival && RightSign(inst, stop)
  {
    hide Find, FinalStock;
  }

  lemma {:induction false} BaseInsertedKeeps(inst: Instance, p: Plan, d: nat)
    requires inst.Valid() && Consistent(inst, p) && Equipped(inst, p, d) && OthersOk(inst, p, d) && OnRoute(inst, p, d)
    ensures Consistent(inst, BaseInserted(inst, p, d)) && OthersOk(inst, BaseInserted(inst, p, d), d)
  {
    hide Find, Consistent, OthersOk, OnRoute, ValidShift, FinalStock, Instance.Valid, Extended;
    RouteEndsAt(inst, p, d);
    var arrival, stop := ArrivalAt(inst, p, d, BASE), NextStop(inst, p, d, BASE, 0);
    BaseFollowsOn(inst, p, d, stop);
    hide FollowsOn, RightSign;
    ExtendedKeeps(inst, p, d, stop, 0, Place(BASE, arrival + inst.drivers[d].minInterShift), p.stock[p.trailerOf[d]]);
  }

  /** Ending a shift leaves the trailer at the base, ready for the next. */
  lemma {:induction false} EndedKeeps(inst: Instance, p: Plan, d: nat)
    requires inst.Valid() && Inv(inst, p) && d in p.trailerOf
    ensures Inv(inst, Ended(inst, p, d))
    ensures Ended(inst, p, d).place[p.trailerOf[d]].location == BASE
  {
    hide Find, Inv, Consistent, OthersOk, Latest;
    OfInv(inst, p, d);
    if Find(p.shifts, p.shiftId[p.trailerOf[d]]) >= 0 {
      BaseInsertedKeeps(inst, p, d);
      ExtendedWaiting(inst, p, d);
    }
    NewIdKeeps(inst, BaseInserted(inst, p, d), d);
    ToInv(inst, Ended(inst, p, d), d);
  }

  lemma PausedKeeps(inst: Instance, p: Plan, duration: nat)
    requires Inv(inst, p)
    ensures Inv(inst, Paused(p, duration))
  {
    hide Find, Latest, Linked, MayFollow, Carried, ValidShift, StockAt, FinalStock;
    var x := Paused(p, duration);
    StillAssigned(inst, p, x);
    forall d | d in p.trailerOf ensures VehicleOk(inst, x, d) {
      assert VehicleOk(inst, p, d);
    }
  }
}
