/** What the invariant of the greedy route builder means to the checker: the
    tanks it keeps hour by hour are those the checker recomputes, and the
    per-shift and linking checks of the plans it builds stay silent. */
module RoadefSafety {
  import opened Wrappers
  import opened RoadefModel
  import opened RoadefChecker
  import opened RoadefReports
  import opened RoadefTanks
  import opened RoadefPlan
  import opened RoadefMoves

  // ---- deliveries along a run ----

  lemma {:induction false} DeliveredByStop(s: Shift, stop: Stop, c: nat, h: nat)
    ensures DeliveredBy(WithStop(s, stop).route, c, h) == DeliveredBy(s.route, c, h) + Brought(stop, c, h)
  {
    assert WithStop(s, stop).route[..|s.route|] == s.route;
  }

  lemma {:induction false} DeliveredExtended(shifts: seq<Shift>, k: nat, stop: Stop, c: nat, h: nat)
    requires k < |shifts|
    ensures Delivered(shifts[k := WithStop(shifts[k], stop)], c, h) == Delivered(shifts, c, h) + Brought(stop, c, h)
    decreases |shifts|
  {
    hide DeliveredBy;
    var n := |shifts| - 1;
    DeliveredByStop(shifts[k], stop, c, h);
    if k < n {
      assert shifts[k := WithStop(shifts[k], stop)][..n] == shifts[..n][k := WithStop(shifts[k], stop)];
      DeliveredExtended(shifts[..n], k, stop, c, h);
    } else {
      assert shifts[k := WithStop(shifts[k], stop)][..n] == shifts[..n];
    }
  }

  lemma {:induction false} DeliveredOpened(inst: Instance, p: Plan, d: nat, c: nat, h: nat)
    requires Equipped(inst, p, d) && c != BASE
    ensures Delivered(Opened(inst, p, d).shifts, c, h) == Delivered(p.shifts, c, h)
  {
    var o := Opened(inst, p, d);
    if o != p {
      assert o.shifts[..|p.shifts|] == p.shifts;
      var base := Last(o.shifts).route;
      assert base[..0] == [];
      assert DeliveredBy(base, c, h) == 0;
    }
  }

  lemma {:induction false} DeliveredVisited(inst: Instance, p: Plan, d: nat, l: nat, quantity: int, c: nat, h: nat)
    requires Equipped(inst, p, d) && c != BASE
    ensures Delivered(Visited(inst, p, d, l, quantity).shifts, c, h)
         == Delivered(p.shifts, c, h) + Brought(NextStop(inst, p, d, l, quantity), c, h)
  {
    hide Find, Delivered, DeliveredBy;
    var o := Opened(inst, p, d);
    DeliveredOpened(inst, p, d, c, h);
    var k := Find(o.shifts, o.shiftId[o.trailerOf[d]]);
    DeliveredExtended(o.shifts, k, NextStop(inst, o, d, l, quantity), c, h);
  }

  lemma {:induction false} DeliveredEnded(inst: Instance, p: Plan, d: nat, c: nat, h: nat)
    requires Equipped(inst, p, d) && c != BASE
    ensures Delivered(Ended(inst, p, d).shifts, c, h) == Delivered(p.shifts, c, h)
  {
    hide Find, Delivered, DeliveredBy;
    var k := Find(p.shifts, p.shiftId[p.trailerOf[d]]);
    if k >= 0 {
      DeliveredExtended(p.shifts, k, Last(Ended(inst, p, d).shifts[k].route), c, h);
    }
  }

  // ---- nothing arrives after the last refill ----

  /** Every stop at customer c is reached by the given time. */
  ghost predicate ServedBy(shifts: seq<Shift>, c: nat, time: int) {
    forall i :: 0 <= i < |shifts| ==> RouteServedBy(shifts[i].route, c, time)
  }

  ghost predicate RouteServedBy(route: seq<Stop>, c: nat, time: int) {
    forall j :: 0 <= j < |route| && route[j].location == c ==> route[j].arrival <= time
  }

  lemma {:induction false} RouteBringsNothingLater(route: seq<Stop>, c: nat, time: int, h: nat, later: nat)
    requires RouteServedBy(route, c, time) && time / UNIT <= h <= later
    ensures DeliveredBy(route, c, later) == DeliveredBy(route, c, h)
  {
    if route != [] {
      RouteBringsNothingLater(route[..|route| - 1], c, time, h, later);
    }
  }

  lemma {:induction false} NothingArrivesLater(shifts: seq<Shift>, c: nat, time: int, h: nat, later: nat)
    requires ServedBy(shifts, c, time) && time / UNIT <= h <= later
    ensures Delivered(shifts, c, later) == Delivered(shifts, c, h)
  {
    if shifts != [] {
      NothingArrivesLater(shifts[..|shifts| - 1], c, time, h, later);
      RouteBringsNothingLater(Last(shifts).route, c, time, h, later);
    }
  }

  lemma {:induction false} ConsumptionGrows(forecast: seq<int>, m: nat, n: nat)
    requires m <= n <= |forecast| && forall h :: 0 <= h < |forecast| ==> forecast[h] >= 0
    ensures Consumed(forecast, m) <= Consumed(forecast, n)
    decreases n
  {
    if m < n {
      ConsumptionGrows(forecast, m, n - 1);
    }
  }

  /** From the last refill on, a tank only empties. */
  lemma TankOnlyEmpties(inst: Instance, shifts: seq<Shift>, c: nat, time: int, h: nat, later: nat)
    requires inst.Valid() && c in inst.customers && h <= later < inst.horizon
    requires ServedBy(shifts, c, time) && time / UNIT <= h
    ensures TankAt(inst, shifts, c, later) <= TankAt(inst, shifts, c, h)
  {
    NothingArrivesLater(shifts, c, time, h, later);
    ConsumptionGrows(inst.customers[c].forecast, h + 1, later + 1);
  }

  // ---- the tanks the builder keeps ----

  /** The array kept for customer c is what the checker recomputes from the
      shifts built so far. */
  ghost predicate TankSums(inst: Instance, p: Plan, c: nat)
    requires c in inst.customers && inst.horizon <= |inst.customers[c].forecast|
  {
    && c in p.tanks && |p.tanks[c]| == inst.horizon
    && forall h :: 0 <= h < inst.horizon ==> p.tanks[c][h] == TankAt(inst, p.shifts, c, h)
  }

  ghost predicate TanksSum(inst: Instance, p: Plan)
    requires inst.Forecasted()
  {
    forall c :: c in inst.customers ==> TankSums(inst, p, c)
  }

  /** It is that, never above capacity, and c has not been served after its last
      refill. */
  ghost predicate TankOk(inst: Instance, p: Plan, c: nat)
    requires c in inst.customers && inst.horizon <= |inst.customers[c].forecast|
  {
    && TankSums(inst, p, c) && c in p.lastRefill
    && (forall h :: 0 <= h < inst.horizon ==> p.tanks[c][h] <= inst.customers[c].capacity)
    && ServedBy(p.shifts, c, p.lastRefill[c])
  }

  ghost predicate TanksOk(inst: Instance, p: Plan)
    requires inst.Valid()
  {
    forall c :: c in inst.customers ==> TankOk(inst, p, c)
  }

  /** A delivery within the horizon that does not arrive before the customer's
      last refill. The second part is what the slack computation asks for; the
      fallback choice of driver does not check it. */
  ghost predicate InTurn(inst: Instance, p: Plan, c: nat, d: nat)
    requires Equipped(inst, p, d)
  {
    && c in inst.customers && c in p.lastRefill
    && 0 <= ArrivalAt(inst, p, d, c) / UNIT < inst.horizon
    && p.lastRefill[c] <= ArrivalAt(inst, p, d, c)
  }

  lemma ServedAfter(p: Plan, shifts: seq<Shift>, k: nat, stop: Stop, c: nat, time: int, until: int)
    requires k < |shifts| && ServedBy(shifts, c, time) && time <= until
    requires stop.location == c ==> stop.arrival <= until
    ensures ServedBy(shifts[k := WithStop(shifts[k], stop)], c, until)
  {
    var x := shifts[k := WithStop(shifts[k], stop)];
    forall i | 0 <= i < |x| ensures RouteServedBy(x[i].route, c, until) {
      assert RouteServedBy(shifts[i].route, c, time);
    }
  }

  lemma ServedVisited(inst: Instance, p: Plan, d: nat, l: nat, quantity: int, c: nat, time: int, until: int)
    requires Equipped(inst, p, d) && c != BASE && ServedBy(p.shifts, c, time) && time <= until
    requires l == c ==> ArrivalAt(inst, p, d, l) <= until
    ensures ServedBy(Visited(inst, p, d, l, quantity).shifts, c, until)
  {
    hide Find;
    var o := Opened(inst, p, d);
    forall i | 0 <= i < |o.shifts| ensures RouteServedBy(o.shifts[i].route, c, time) {
      assert i < |p.shifts| ==> RouteServedBy(p.shifts[i].route, c, time);
    }
    var k := Find(o.shifts, o.shiftId[o.trailerOf[d]]);
    ServedAfter(o, o.shifts, k, NextStop(inst, o, d, l, quantity), c, time, until);
  }

  /** The quantity a delivery in turn brings is not negative. */
  lemma QuantityIsNotNegative(inst: Instance, p: Plan, c: nat, d: nat)
    requires inst.Valid() && TanksOk(inst, p) && Equipped(inst, p, d) && InTurn(inst, p, c, d)
    requires p.stock[p.trailerOf[d]] >= 0
    ensures TankOk(inst, p, c) && 0 <= MaxQuantity(inst, p, c, d) <= p.stock[p.trailerOf[d]]
  {
    assert TankOk(inst, p, c);
  }

  lemma CustomerKeepsOwnTank(inst: Instance, p: Plan, c: nat, d: nat)
    requires inst.Valid() && TanksOk(inst, p) && Equipped(inst, p, d) && InTurn(inst, p, c, d)
    requires p.stock[p.trailerOf[d]] >= 0 && TankOk(inst, p, c)
    ensures TankOk(inst, CustomerInserted(inst, p, c, d), c)
  {
    hide Find, Delivered, DeliveredBy, TanksOk;
    var v := CustomerInserted(inst, p, c, d);
    var arrival := ArrivalAt(inst, p, d, c);
    var q := MaxQuantity(inst, p, c, d);
    forall h | 0 <= h < inst.horizon
      ensures v.tanks[c][h] == TankAt(inst, v.shifts, c, h) <= inst.customers[c].capacity
    {
      DeliveredVisited(inst, p, d, c, -q, c, h);
      assert p.tanks[c][h] == TankAt(inst, p.shifts, c, h);
      if h >= arrival / UNIT {
        TankOnlyEmpties(inst, p.shifts, c, p.lastRefill[c], arrival / UNIT, h);
      }
    }
    ServedVisited(inst, p, d, c, -q, c, p.lastRefill[c], arrival);
  }

  lemma VisitKeepsOtherTank(inst: Instance, p: Plan, d: nat, l: nat, quantity: int, c: nat, v: Plan)
    requires inst.Valid() && Equipped(inst, p, d) && c in inst.customers && c != l && TankOk(inst, p, c)
    requires v.shifts == Visited(inst, p, d, l, quantity).shifts
    requires c in v.tanks && v.tanks[c] == p.tanks[c] && c in v.lastRefill && v.lastRefill[c] == p.lastRefill[c]
    ensures TankOk(inst, v, c)
  {
    hide Find, Delivered, DeliveredBy;
    forall h | 0 <= h < inst.horizon ensures TankAt(inst, v.shifts, c, h) == TankAt(inst, p.shifts, c, h) {
      DeliveredVisited(inst, p, d, l, quantity, c, h);
    }
    ServedVisited(inst, p, d, l, quantity, c, p.lastRefill[c], p.lastRefill[c]);
  }

  lemma CustomerKeepsTanks(inst: Instance, p: Plan, c: nat, d: nat)
    requires inst.Valid() && TanksOk(inst, p) && Equipped(inst, p, d) && InTurn(inst, p, c, d)
    requires p.stock[p.trailerOf[d]] >= 0
    ensures c in p.tanks && |p.tanks[c]| == inst.horizon
    ensures TanksOk(inst, CustomerInserted(inst, p, c, d))
  {
    hide Find;
    QuantityIsNotNegative(inst, p, c, d);
    var v := CustomerInserted(inst, p, c, d);
    forall e | e in inst.customers ensures TankOk(inst, v, e) {
      if e == c {
        CustomerKeepsOwnTank(inst, p, c, d);
      } else {
        assert TankOk(inst, p, e);
        VisitKeepsOtherTank(inst, p, d, c, -MaxQuantity(inst, p, c, d), e, v);
      }
    }
  }

  lemma SourceKeepsTanks(inst: Instance, p: Plan, s: nat, d: nat)
    requires inst.Valid() && TanksOk(inst, p) && Equipped(inst, p, d) && s in inst.sources
    ensures TanksOk(inst, SourceInserted(inst, p, s, d))
  {
    hide Find;
    var v := SourceInserted(inst, p, s, d);
    forall c | c in inst.customers ensures TankOk(inst, v, c) {
      assert TankOk(inst, p, c);
      VisitKeepsOtherTank(inst, p, d, s,
        inst.trailers[p.trailerOf[d]].capacity - p.stock[p.trailerOf[d]], c, v);
    }
  }

  lemma EndedKeepsTanks(inst: Instance, p: Plan, d: nat)
    requires inst.Valid() && TanksOk(inst, p) && Equipped(inst, p, d)
    ensures TanksOk(inst, Ended(inst, p, d))
  {
    hide Find, Delivered, DeliveredBy;
    var v := Ended(inst, p, d);
    forall c | c in inst.customers ensures TankOk(inst, v, c) {
      assert TankOk(inst, p, c);
      forall h | 0 <= h < inst.horizon ensures TankAt(inst, v.shifts, c, h) == TankAt(inst, p.shifts, c, h) {
        DeliveredEnded(inst, p, d, c, h);
      }
      var k := Find(p.shifts, p.shiftId[p.trailerOf[d]]);
      if k >= 0 {
        ServedAfter(p, p.shifts, k, Last(v.shifts[k].route), c, p.lastRefill[c], p.lastRefill[c]);
      }
    }
  }

  /** What a delivery within the horizon does to its customer's tank, in turn or
      not: what the array then holds is still what is recomputed. */
  lemma DeliveredTank(inst: Instance, p: Plan, c: nat, d: nat, h: nat)
    requires inst.Numbered() && inst.Forecasted() && Equipped(inst, p, d)
    requires c in inst.customers && TankSums(inst, p, c) && h < inst.horizon
    requires 0 <= ArrivalAt(inst, p, d, c) / UNIT < inst.horizon
    ensures h < |inst.customers[c].forecast|
    ensures var v := CustomerInserted(inst, p, c, d);
      && v.tanks[c][h] == TankAt(inst, v.shifts, c, h)
      && v.tanks[c][h] == p.tanks[c][h] + if h >= ArrivalAt(inst, p, d, c) / UNIT then MaxQuantity(inst, p, c, d) else 0
  {
    hide Find, Delivered, DeliveredBy;
    assert inst.IsCustomer(c);
    DeliveredVisited(inst, p, d, c, -MaxQuantity(inst, p, c, d), c, h);
  }

  lemma VisitKeepsOtherSums(inst: Instance, p: Plan, d: nat, l: nat, quantity: int, c: nat, v: Plan)
    requires inst.Numbered() && inst.Forecasted() && Equipped(inst, p, d)
    requires c in inst.customers && c != l && TankSums(inst, p, c)
    requires v.shifts == Visited(inst, p, d, l, quantity).shifts && c in v.tanks && v.tanks[c] == p.tanks[c]
    ensures TankSums(inst, v, c)
  {
    hide Find, Delivered, DeliveredBy;
    assert inst.IsCustomer(c);
    forall h | 0 <= h < inst.horizon ensures TankAt(inst, v.shifts, c, h) == TankAt(inst, p.shifts, c, h) {
      DeliveredVisited(inst, p, d, l, quantity, c, h);
    }
  }

  /** Every delivery within the horizon keeps the arrays what is recomputed. */
  lemma CustomerKeepsSums(inst: Instance, p: Plan, c: nat, d: nat)
    requires inst.Numbered() && inst.Forecasted() && TanksSum(inst, p) && Equipped(inst, p, d)
    requires c in inst.customers && 0 <= ArrivalAt(inst, p, d, c) / UNIT < inst.horizon
    ensures c in p.tanks && |p.tanks[c]| == inst.horizon
    ensures TanksSum(inst, CustomerInserted(inst, p, c, d))
  {
    hide Find, TankAt, Instance.Numbered;
    assert TankSums(inst, p, c);
    var v := CustomerInserted(inst, p, c, d);
    forall e | e in inst.customers ensures TankSums(inst, v, e) {
      assert TankSums(inst, p, e);
      if e == c {
        forall h | 0 <= h < inst.horizon ensures v.tanks[c][h] == TankAt(inst, v.shifts, c, h) {
          DeliveredTank(inst, p, c, d, h);
        }
      } else {
        VisitKeepsOtherSums(inst, p, d, c, -MaxQuantity(inst, p, c, d), e, v);
      }
    }
  }

  lemma SourceKeepsSums(inst: Instance, p: Plan, s: nat, d: nat)
    requires inst.Numbered() && inst.Forecasted() && TanksSum(inst, p) && Equipped(inst, p, d) && s in inst.sources
    ensures TanksSum(inst, SourceInserted(inst, p, s, d))
  {
    hide Find, TankAt;
    var v := SourceInserted(inst, p, s, d);
    forall c | c in inst.customers ensures TankSums(inst, v, c) {
      assert TankSums(inst, p, c);
      assert inst.IsSource(s) && inst.IsCustomer(c);
      VisitKeepsOtherSums(inst, p, d, s, inst.trailers[p.trailerOf[d]].capacity - p.stock[p.trailerOf[d]], c, v);
    }
  }

  lemma EndedKeepsSums(inst: Instance, p: Plan, d: nat)
    requires inst.Numbered() && inst.Forecasted() && TanksSum(inst, p) && Equipped(inst, p, d)
    ensures TanksSum(inst, Ended(inst, p, d))
  {
    hide Find, Delivered, DeliveredBy;
    var v := Ended(inst, p, d);
    forall c | c in inst.customers ensures TankSums(inst, v, c) {
      assert TankSums(inst, p, c) && inst.IsCustomer(c);
      forall h | 0 <= h < inst.horizon ensures TankAt(inst, v.shifts, c, h) == TankAt(inst, p.shifts, c, h) {
        DeliveredEnded(inst, p, d, c, h);
      }
    }
  }

  /** From the arrival on, what is delivered fits every hour of the array. */
  predicate DeliveryFits(inst: Instance, p: Plan, c: nat, d: nat)
    requires Equipped(inst, p, d) && c in inst.customers && c in p.tanks
    requires 0 <= ArrivalAt(inst, p, d, c) / UNIT < |p.tanks[c]|
  {
    forall h :: ArrivalAt(inst, p, d, c) / UNIT <= h < |p.tanks[c]| ==>
      p.tanks[c][h] + MaxQuantity(inst, p, c, d) <= inst.customers[c].capacity
  }

  /** Exactly when a delivery within the horizon keeps the tank within capacity
      at all hours. */
  lemma DeliveryFitsIff(inst: Instance, p: Plan, c: nat, d: nat)
    requires inst.Valid() && Equipped(inst, p, d) && c in inst.customers && TankOk(inst, p, c)
    requires 0 <= ArrivalAt(inst, p, d, c) / UNIT < inst.horizon
    ensures inst.ValidCustomer(inst.customers[c])
    ensures TankWithinCapacity(inst, CustomerInserted(inst, p, c, d).shifts, c) <==> DeliveryFits(inst, p, c, d)
  {
    assert inst.ValidCustomer(inst.customers[c]) && inst.Forecasted();
    var v := CustomerInserted(inst, p, c, d);
    hide Find, TankAt, Instance.Valid, CustomerInserted;
    forall h | 0 <= h < inst.horizon
      ensures TankAt(inst, v.shifts, c, h)
           == p.tanks[c][h] + if h >= ArrivalAt(inst, p, d, c) / UNIT then MaxQuantity(inst, p, c, d) else 0
    {
      DeliveredTank(inst, p, c, d, h);
    }
  }

  /** A trailer that can fill the tank overflows it unless no later hour is
      fuller than the hour of arrival. */
  lemma FillingFitsIff(inst: Instance, p: Plan, c: nat, d: nat)
    requires Equipped(inst, p, d) && c in inst.customers && c in p.tanks
    requires 0 <= ArrivalAt(inst, p, d, c) / UNIT < |p.tanks[c]|
    requires p.stock[p.trailerOf[d]] >= inst.customers[c].capacity - p.tanks[c][ArrivalAt(inst, p, d, c) / UNIT]
    ensures DeliveryFits(inst, p, c, d) <==>
      forall h :: ArrivalAt(inst, p, d, c) / UNIT <= h < |p.tanks[c]| ==>
        p.tanks[c][h] <= p.tanks[c][ArrivalAt(inst, p, d, c) / UNIT]
  {
    hide Find;
    forall h | ArrivalAt(inst, p, d, c) / UNIT <= h < |p.tanks[c]|
      ensures p.tanks[c][h] + MaxQuantity(inst, p, c, d) <= inst.customers[c].capacity
         <==> p.tanks[c][h] <= p.tanks[c][ArrivalAt(inst, p, d, c) / UNIT]
    {
    }
  }

  /** A delivery in turn fits. */
  lemma InTurnFits(inst: Instance, p: Plan, c: nat, d: nat)
    requires inst.Valid() && Equipped(inst, p, d) && InTurn(inst, p, c, d) && TankOk(inst, p, c)
    ensures DeliveryFits(inst, p, c, d)
  {
    var hour := ArrivalAt(inst, p, d, c) / UNIT;
    forall h | hour <= h < inst.horizon ensures p.tanks[c][h] <= p.tanks[c][hour] {
      TankOnlyEmpties(inst, p.shifts, c, p.lastRefill[c], hour, h);
    }
  }

  /** A delivery that comes before a later one has filled the tank: at the hour
      where the tank is full, what it brings overflows. */
  lemma OutOfTurnOverflows(inst: Instance, p: Plan, c: nat, d: nat, full: nat)
    requires inst.Valid() && TanksOk(inst, p) && Equipped(inst, p, d) && c in inst.customers
    requires 0 <= ArrivalAt(inst, p, d, c) / UNIT < full < inst.horizon
    requires TankOk(inst, p, c) && p.tanks[c][full] == inst.customers[c].capacity
    requires MaxQuantity(inst, p, c, d) > 0
    ensures !InTurn(inst, p, c, d)
    ensures CustomerInserted(inst, p, c, d).tanks[c][full] > inst.customers[c].capacity
  {
    var v := CustomerInserted(inst, p, c, d);
    assert v.tanks[c][full] == p.tanks[c][full] + MaxQuantity(inst, p, c, d);
    if InTurn(inst, p, c, d) {
      CustomerKeepsOwnTank(inst, p, c, d);
      assert false;
    }
  }

  // ---- driving time ----

  /** No stop so far took a driver over the limit, and every driver can still
      drive to the base within it. */
  ghost predicate DrivingInv(inst: Instance, p: Plan)
    requires Assigned(inst, p)
  {
    && (forall i :: 0 <= i < |p.shifts| ==> p.shifts[i].driver in inst.drivers && DrivingOk(inst, p.shifts[i]))
    && (forall d :: d in p.trailerOf ==> CanReturn(inst, p, d))
  }

  predicate CanReturn(inst: Instance, p: Plan, d: nat)
    requires Equipped(inst, p, d)
  {
    p.driving[d] + inst.travel(p.place[p.trailerOf[d]].location, BASE) <= inst.drivers[d].maxDriving
  }

  /** The guard of the slack computation and of the source search: driving to l
      leaves time to drive back to the base. */
  predicate WithinDriving(inst: Instance, p: Plan, d: nat, l: nat)
    requires Equipped(inst, p, d)
  {
    p.driving[d] + inst.travel(p.place[p.trailerOf[d]].location, l) + inst.travel(l, BASE) <= inst.drivers[d].maxDriving
  }

  lemma {:induction false} WithStopDrives(inst: Instance, s: Shift, stop: Stop)
    requires s.driver in inst.drivers && DrivingOk(inst, s)
    requires stop.cumulatedDriving <= inst.drivers[s.driver].maxDriving && !stop.layoverBefore
    ensures DrivingOk(inst, WithStop(s, stop))
  {
    var t := WithStop(s, stop);
    forall i | 0 <= i < |t.route| ensures DrivingAt(t, i) <= inst.drivers[s.driver].maxDriving {
      assert i < |s.route| ==> DrivingAt(t, i) == DrivingAt(s, i);
    }
  }

  lemma DrivingExtended(inst: Instance, p: Plan, d: nat, stop: Stop, driving: int, place: Place, stock: int)
    requires Assigned(inst, p) && DrivingInv(inst, p) && d in p.trailerOf
    requires Find(p.shifts, p.shiftId[p.trailerOf[d]]) >= 0
    requires p.shifts[Find(p.shifts, p.shiftId[p.trailerOf[d]])].driver == d
    requires stop.cumulatedDriving <= inst.drivers[d].maxDriving && !stop.layoverBefore
    requires driving + inst.travel(place.location, BASE) <= inst.drivers[d].maxDriving
    ensures Assigned(inst, Extended(p, d, stop, driving, place, stock))
    ensures DrivingInv(inst, Extended(p, d, stop, driving, place, stock))
  {
    hide Find, DrivingOk;
    var x := Extended(p, d, stop, driving, place, stock);
    StillAssigned(inst, p, x);
    WithStopDrives(inst, p.shifts[Find(p.shifts, p.shiftId[p.trailerOf[d]])], stop);
    forall e | e in x.trailerOf ensures CanReturn(inst, x, e) {
      assert CanReturn(inst, p, e);
    }
  }

  /** A trailer's open shift names its driver. */
  ghost predicate DriversMatch(p: Plan) {
    forall d :: d in p.trailerOf && p.trailerOf[d] in p.shiftId ==>
      (var k := Find(p.shifts, p.shiftId[p.trailerOf[d]]); k >= 0 ==> p.shifts[k].driver == d)
  }

  lemma InvDriversMatch(inst: Instance, p: Plan)
    requires Inv(inst, p)
    ensures DriversMatch(p)
  {
    forall d | d in p.trailerOf ensures VehicleOk(inst, p, d) {}
  }

  lemma DrivingOpened(inst: Instance, p: Plan, d: nat)
    requires Assigned(inst, p) && DrivingInv(inst, p) && d in p.trailerOf && DriversMatch(p)
    requires inst.drivers[d].maxDriving >= 0
    ensures var o := Opened(inst, p, d);
      && Assigned(inst, o) && DrivingInv(inst, o)
      && o.shifts[Find(o.shifts, o.shiftId[o.trailerOf[d]])].driver == d
  {
    hide Find, Latest, Linked, MayFollow;
    var o := Opened(inst, p, d);
    StillAssigned(inst, p, o);
    if o != p {
      Appended(inst, p.shifts, Last(o.shifts), p.shiftId[p.trailerOf[d]], 0);
    }
    assert forall i :: 0 <= i < |p.shifts| ==> o.shifts[i] == p.shifts[i];
    forall e | e in p.trailerOf ensures CanReturn(inst, o, e) {
      assert CanReturn(inst, p, e);
    }
  }

  lemma DrivingVisited(inst: Instance, p: Plan, d: nat, l: nat, quantity: int)
    requires Assigned(inst, p) && DrivingInv(inst, p) && d in p.trailerOf && DriversMatch(p)
    requires inst.drivers[d].maxDriving >= 0 && inst.travel(l, BASE) >= 0 && WithinDriving(inst, p, d, l)
    ensures Assigned(inst, Visited(inst, p, d, l, quantity))
    ensures DrivingInv(inst, Visited(inst, p, d, l, quantity))
  {
    hide Find, Assigned, DrivingInv, DriversMatch;
    DrivingOpened(inst, p, d);
    var o := Opened(inst, p, d);
    var stop := NextStop(inst, o, d, l, quantity);
    DrivingExtended(inst, o, d, stop, stop.cumulatedDriving, Place(l, stop.departure),
                        o.stock[p.trailerOf[d]] + quantity);
  }

  lemma DrivingEnded(inst: Instance, p: Plan, d: nat)
    requires Assigned(inst, p) && DrivingInv(inst, p) && d in p.trailerOf && DriversMatch(p)
    requires inst.drivers[d].maxDriving >= 0 && inst.travel(BASE, BASE) == 0
    ensures Assigned(inst, Ended(inst, p, d)) && DrivingInv(inst, Ended(inst, p, d))
  {
    assert CanReturn(inst, p, d);
    hide Find, Assigned, DrivingInv;
    if Find(p.shifts, p.shiftId[p.trailerOf[d]]) >= 0 {
      var arrival := ArrivalAt(inst, p, d, BASE);
      var driven := p.driving[d] + inst.travel(p.place[p.trailerOf[d]].location, BASE);
      DrivingExtended(inst, p, d, Stop(BASE, 0, arrival, arrival, false, 0, driven), 0,
        Place(BASE, arrival + inst.drivers[d].minInterShift), p.stock[p.trailerOf[d]]);
    }
    DrivingRenumbered(inst, BaseInserted(inst, p, d), Ended(inst, p, d));
  }

  lemma DrivingRenumbered(inst: Instance, p: Plan, x: Plan)
    requires Assigned(inst, p) && DrivingInv(inst, p)
    requires x.shifts == p.shifts && x.trailerOf == p.trailerOf && x.driving == p.driving && x.place == p.place
    requires x.stock == p.stock && p.shiftId.Keys <= x.shiftId.Keys
    ensures Assigned(inst, x) && DrivingInv(inst, x)
  {
    StillAssigned(inst, p, x);
    forall e | e in x.trailerOf ensures CanReturn(inst, x, e) {
      assert CanReturn(inst, p, e);
    }
  }

  lemma DrivingPaused(inst: Instance, p: Plan, duration: nat)
    requires Assigned(inst, p) && DrivingInv(inst, p) && Assigned(inst, Paused(p, duration))
    ensures DrivingInv(inst, Paused(p, duration))
  {
    forall d | d in p.trailerOf ensures CanReturn(inst, Paused(p, duration), d) {
      assert CanReturn(inst, p, d);
    }
  }

  // ---- what the checker sees ----

  lemma {:induction false} StopsAreCounted(inst: Instance, s: Shift, n: nat)
    requires ValidShift(inst, s) && n < |s.route|
    ensures s.route[n].cumulatedDriving == Driven(inst, s.route, n)
  {
    if n > 0 {
      StopsAreCounted(inst, s, n - 1);
      assert FollowsOn(inst, s.route[n - 1], s.route[n]);
    }
  }

  /** The driving times the builder stores are those `get_aux_info_shift`
      counts, so the checker's rewriting of them changes nothing. */
  lemma RecountChangesNothing(inst: Instance, s: Shift)
    requires ValidShift(inst, s)
    ensures Recounted(inst, s) == s
  {
    forall i | 0 <= i < |s.route| ensures Recounted(inst, s).route[i] == s.route[i] {
      StopsAreCounted(inst, s, i);
    }
  }

  /** Everything about one shift the checks look at that does not depend on
      quantities. */
  ghost predicate ShiftTimely(inst: Instance, s: Shift) {
    && Known(inst, s) && NoLateLayovers(s)
    && TimelineOk(inst, s) && SetupOk(inst, s) && Compatible(inst, s)
  }

  /** Everything about one shift the checks look at. */
  ghost predicate ShiftSilent(inst: Instance, s: Shift) {
    && ShiftTimely(inst, s) && SignsOk(inst, s)
    && StockAtLeast(s, 0) && StockAtMost(s, inst.trailers[s.trailer].capacity)
  }

  lemma ValidShiftIsSilent(inst: Instance, s: Shift)
    requires inst.Valid() && ValidShift(inst, s)
    requires s.driver in inst.drivers && s.trailer in inst.drivers[s.driver].trailers
    ensures ShiftSilent(inst, s)
  {
    forall i | 0 <= i < |s.route|
      ensures ReachedInTime(inst, s, i) && SetUp(inst, s.route[i]) && !s.route[i].layoverBefore
    {
      if i > 0 {
        assert FollowsOn(inst, s.route[i - 1], s.route[i]);
      }
    }
  }

  lemma {:induction false} LatestComesEarlier(shifts: seq<Shift>, link: Link, key: nat)
    ensures Latest(shifts, link, key).Some? ==>
              exists i :: 0 <= i < |shifts| && shifts[i] == Latest(shifts, link, key).value
                          && KeyOf(link, shifts[i]) == key
  {
    if shifts != [] && KeyOf(link, Last(shifts)) != key {
      LatestComesEarlier(shifts[..|shifts| - 1], link, key);
    }
  }

  /** Drivers rest and trailers do not overlap, in the order of building. */
  ghost predicate RestedInOrder(inst: Instance, p: Plan, link: Link, shifts: seq<Shift>) {
    forall i, j :: 0 <= i < j < |shifts| && KeyOf(link, shifts[i]) == KeyOf(link, shifts[j]) ==>
      shifts[i].driver == shifts[j].driver && Rested(inst, shifts[i], shifts[j].departureTime)
  }

  lemma {:induction false} RestedIsLinked(inst: Instance, p: Plan, link: Link, shifts: seq<Shift>)
    requires link != Stock && RestedInOrder(inst, p, link, shifts)
    requires forall i :: 0 <= i < |shifts| ==>
               shifts[i].driver in inst.drivers && inst.drivers[shifts[i].driver].minInterShift >= 0
    ensures Linked(inst, link, shifts)
  {
    if shifts != [] {
      var front, last := shifts[..|shifts| - 1], Last(shifts);
      RestedIsLinked(inst, p, link, front);
      LatestComesEarlier(front, link, KeyOf(link, last));
      assert shifts[|shifts| - 1] == last;
    }
  }

  /** The plan's schedule passes the timeline, setup, trailer stock, sign,
      compatibility, rest and overlap checks. */
  ghost predicate Silent(inst: Instance, shifts: seq<Shift>) {
    && (forall i :: 0 <= i < |shifts| ==> ShiftSilent(inst, shifts[i]))
    && Linked(inst, Stock, Sorted(shifts))
    && Linked(inst, Rest, Sorted(shifts))
    && Linked(inst, Overlap, Sorted(shifts))
  }

  lemma InvIsInOrder(inst: Instance, p: Plan, link: Link)
    requires inst.Valid() && Inv(inst, p)
    ensures InOrder(link, p.shifts) && RestedInOrder(inst, p, link, p.shifts)
    ensures forall i :: 0 <= i < |p.shifts| ==> p.shifts[i].driver in inst.drivers
  {
    hide Linked, Latest, Find, Carried, StockAt, FinalStock, VehicleOk;
    forall i | 0 <= i < |p.shifts| ensures Equipped(inst, p, p.shifts[i].driver) && ValidShift(inst, p.shifts[i]) {
      assert Owned(p, p.shifts[i]);
    }
    forall i, j | 0 <= i < j < |p.shifts| && KeyOf(link, p.shifts[i]) == KeyOf(link, p.shifts[j])
      ensures p.shifts[i].driver == p.shifts[j].driver && Rested(inst, p.shifts[i], p.shifts[j].departureTime)
      ensures p.shifts[i].departureTime <= p.shifts[j].departureTime
    {
      assert Owned(p, p.shifts[i]) && Owned(p, p.shifts[j]);
      assert ValidShift(inst, p.shifts[i]);
    }
  }

  /** Whatever the builder has done so far, the checker finds nothing in it. */
  lemma {:induction false} InvIsSilent(inst: Instance, p: Plan)
    requires inst.Valid() && Inv(inst, p)
    ensures Silent(inst, p.shifts)
  {
    hide Linked, Latest, Find, Carried, StockAt, FinalStock, VehicleOk, ShiftSilent, ValidShift, InOrder, RestedInOrder;
    forall i | 0 <= i < |p.shifts| ensures ShiftSilent(inst, p.shifts[i]) {
      assert Owned(p, p.shifts[i]);
      assert Equipped(inst, p, p.shifts[i].driver);
      ValidShiftIsSilent(inst, p.shifts[i]);
    }
    InvIsInOrder(inst, p, Stock);
    InvIsInOrder(inst, p, Rest);
    InvIsInOrder(inst, p, Overlap);
    RestedIsLinked(inst, p, Rest, p.shifts);
    RestedIsLinked(inst, p, Overlap, p.shifts);
    SortedLinked(inst, Stock, p.shifts);
    SortedLinked(inst, Rest, p.shifts);
    SortedLinked(inst, Overlap, p.shifts);
  }

  /** The checks of timeline, setup, trailer stock, signs, rest, driving, overlap
      and compatibility, one after another. */
  method CheckSchedule(inst: Instance, shifts: seq<Shift>) returns (silent: Option<bool>)
    requires AllKnown(inst, shifts)
    ensures silent.Some? <==> forall i :: 0 <= i < |shifts| ==> NoLateLayovers(shifts[i])
    ensures silent == Some(true) <==> Silent(inst, shifts) && forall i :: 0 <= i < |shifts| ==>
      DrivingOk(inst, shifts[i])
  {
    hide Linked, Latest, TimelineOk, SetupOk, SignsOk, StockAtLeast, StockAtMost, DrivingOk, NoLateLayovers, Sorted;
    var timeline := CheckTimeline(inst, shifts);
    var setup := CheckSetupTime(inst, shifts);
    var negative := CheckTrailerNegative(inst, shifts);
    var above := CheckTrailerAboveCapacity(inst, shifts);
    var final := CheckFinalInventory(shifts);
    var initial := CheckInitialInventory(inst, shifts);
    var signs := CheckQuantityDelivered(inst, shifts);
    var rest := CheckIntershift(inst, shifts);
    var duration := CheckMaxDuration(inst, shifts);
    if duration.None? {
      return None;
    }
    var overlaps := CheckOverlaps(inst, shifts);
    var compatible := CheckCompatibility(inst, shifts);
    silent := Some(timeline == [] && setup == [] && negative == [] && above == [] && final == [] && initial == []
                   && signs == [] && rest == [] && duration.value == [] && overlaps == [] && compatible == []);
  }
}
