/** The state of the greedy route builder (roadef/solvers/Greedy.py), what each
    of its moves makes of it, and what every move keeps. */
module RoadefPlan {
  import opened Wrappers
  import opened RoadefModel
  import opened RoadefChecker

  /** Where a trailer is and when it may leave from there. */
  datatype Place = Place(location: nat, time: int)

  /** place, stock and shiftId are kept by trailer, driving by driver, tanks and
      lastRefill by customer; shifts in the order the solution got them. */
  datatype Plan = Plan(
    trailerOf: map<nat, nat>,
    place: map<nat, Place>,
    stock: map<nat, int>,
    driving: map<nat, int>,
    shiftId: map<nat, nat>,
    nextId: nat,
    shifts: seq<Shift>,
    tanks: map<nat, seq<int>>,
    lastRefill: map<nat, int>)

  /** The position of the shift with an id; -1 if the solution has none. */
  function Find(shifts: seq<Shift>, id: nat): (k: int)
    ensures -1 <= k < |shifts|
    ensures k >= 0 ==> shifts[k].id == id
  {
    if shifts == [] then -1
    else if Last(shifts).id == id then |shifts| - 1
    else Find(shifts[..|shifts| - 1], id)
  }

  /** Drivers work with one trailer each, one they may drive, and no two with
      the same; the builder's tables know them all. */
  ghost predicate Assigned(inst: Instance, p: Plan) {
    && (forall d :: d in p.trailerOf ==> Equipped(inst, p, d))
    && (forall d, e :: d in p.trailerOf && e in p.trailerOf && p.trailerOf[d] == p.trailerOf[e] ==> d == e)
  }

  predicate Equipped(inst: Instance, p: Plan, d: nat) {
    && d in p.trailerOf && d in inst.drivers && d in p.driving
    && p.trailerOf[d] in inst.drivers[d].trailers
    && p.trailerOf[d] in inst.trailers
    && p.trailerOf[d] in p.place && p.trailerOf[d] in p.stock && p.trailerOf[d] in p.shiftId
  }

  // ---- the moves ----

  function BaseStop(time: int): Stop {
    Stop(BASE, 0, time, time, false, 0, 0)
  }

  /** The shift entry a first step creates. */
  function Opened(inst: Instance, p: Plan, d: nat): (o: Plan)
    requires Equipped(inst, p, d)
    ensures Find(o.shifts, p.shiftId[p.trailerOf[d]]) >= 0 && Equipped(inst, o, d)
  {
    var t := p.trailerOf[d];
    if Find(p.shifts, p.shiftId[t]) >= 0 then p
    else
      var shift := Shift(p.shiftId[t], d, t, p.place[t].time, p.stock[t], [BaseStop(p.place[t].time)]);
      p.(shifts := p.shifts + [shift])
  }

  function ArrivalAt(inst: Instance, p: Plan, d: nat, l: nat): int
    requires Equipped(inst, p, d)
  {
    p.place[p.trailerOf[d]].time + inst.travel(p.place[p.trailerOf[d]].location, l)
  }

  /** The stop driver d makes next, at location l. */
  function NextStop(inst: Instance, p: Plan, d: nat, l: nat, quantity: int): Stop
    requires Equipped(inst, p, d)
  {
    var arrival := ArrivalAt(inst, p, d, l);
    Stop(l, quantity, arrival, arrival + inst.SetupTime(l), false, 0,
         p.driving[d] + inst.travel(p.place[p.trailerOf[d]].location, l))
  }

  function WithStop(s: Shift, stop: Stop): Shift {
    s.(route := s.route + [stop])
  }

  /** The plan with one more stop on driver d's open route, and new values for
      the driver and the trailer. */
  function Extended(p: Plan, d: nat, stop: Stop, driving: int, place: Place, stock: int): Plan
    requires d in p.trailerOf && p.trailerOf[d] in p.shiftId && Find(p.shifts, p.shiftId[p.trailerOf[d]]) >= 0
  {
    var t := p.trailerOf[d];
    var k := Find(p.shifts, p.shiftId[t]);
    p.(shifts := p.shifts[k := WithStop(p.shifts[k], stop)],
       driving := p.driving[d := driving],
       place := p.place[t := place],
       stock := p.stock[t := stock])
  }

  /** Driver d goes to location l and the trailer's stock changes by quantity. */
  function Visited(inst: Instance, p: Plan, d: nat, l: nat, quantity: int): (v: Plan)
    requires Equipped(inst, p, d)
    ensures Equipped(inst, v, d)
  {
    var o := Opened(inst, p, d);
    var stop := NextStop(inst, o, d, l, quantity);
    Extended(o, d, stop, stop.cumulatedDriving, Place(l, stop.departure), o.stock[p.trailerOf[d]] + quantity)
  }

  /** `determine_max_quantity`: the trailer's stock or the room in the tank. */
  function MaxQuantity(inst: Instance, p: Plan, c: nat, d: nat): int
    requires Equipped(inst, p, d) && c in inst.customers && c in p.tanks
    requires 0 <= ArrivalAt(inst, p, d, c) / UNIT < |p.tanks[c]|
  {
    var room := inst.customers[c].capacity - p.tanks[c][ArrivalAt(inst, p, d, c) / UNIT];
    if p.stock[p.trailerOf[d]] <= room then p.stock[p.trailerOf[d]] else room
  }

  /** Every hour from the given one on. */
  function Raised(tank: seq<int>, hour: int, quantity: int): (r: seq<int>)
    ensures |r| == |tank|
  {
    seq(|tank|, h requires 0 <= h < |tank| => if h >= hour then tank[h] + quantity else tank[h])
  }

  function CustomerInserted(inst: Instance, p: Plan, c: nat, d: nat): Plan
    requires Equipped(inst, p, d) && c in inst.customers && c in p.tanks
    requires 0 <= ArrivalAt(inst, p, d, c) / UNIT < |p.tanks[c]|
  {
    var quantity := MaxQuantity(inst, p, c, d);
    var arrival := ArrivalAt(inst, p, d, c);
    Visited(inst, p, d, c, -quantity).(
      lastRefill := p.lastRefill[c := arrival],
      tanks := p.tanks[c := Raised(p.tanks[c], arrival / UNIT, quantity)])
  }

  function SourceInserted(inst: Instance, p: Plan, s: nat, d: nat): Plan
    requires Equipped(inst, p, d)
  {
    Visited(inst, p, d, s, inst.trailers[p.trailerOf[d]].capacity - p.stock[p.trailerOf[d]])
  }

  /** A trailer without an open shift stays where it is. Otherwise it drives to
      the base, where its driver rests before the next shift. */
  function BaseInserted(inst: Instance, p: Plan, d: nat): (v: Plan)
    requires Equipped(inst, p, d)
    ensures Equipped(inst, v, d)
  {
    var t := p.trailerOf[d];
    if Find(p.shifts, p.shiftId[t]) < 0 then p
    else
      var arrival := ArrivalAt(inst, p, d, BASE);
      var stop := Stop(BASE, 0, arrival, arrival, false, 0, p.driving[d] + inst.travel(p.place[t].location, BASE));
      Extended(p, d, stop, 0, Place(BASE, arrival + inst.drivers[d].minInterShift), p.stock[t])
  }

  /** Back to the base, and a new shift id for the next departure. */
  function Ended(inst: Instance, p: Plan, d: nat): Plan
    requires Equipped(inst, p, d)
  {
    BaseInserted(inst, p, d).(shiftId := p.shiftId[p.trailerOf[d] := p.nextId], nextId := p.nextId + 1)
  }

  /** A trailer that waits at the base may leave that much later. */
  function Later(place: Place, waits: bool, duration: int): Place {
    if waits && place.location == BASE then place.(time := place.time + duration) else place
  }

  /** `pause` */
  function Paused(p: Plan, duration: int): Plan {
    p.(place := map t | t in p.place :: Later(p.place[t], t in p.trailerOf.Values, duration))
  }

  // ---- what every move keeps ----

  /** Stop b follows stop a without delay. */
  predicate FollowsOn(inst: Instance, a: Stop, b: Stop) {
    && !b.layoverBefore && b.drivingBeforeLayover == 0
    && b.arrival == a.departure + inst.travel(a.location, b.location)
    && b.departure == b.arrival + inst.SetupTime(b.location)
    && b.cumulatedDriving == a.cumulatedDriving + inst.travel(a.location, b.location)
  }

  ghost predicate ValidShift(inst: Instance, s: Shift) {
    && s.trailer in inst.trailers
    && s.route != [] && s.route[0] == BaseStop(s.departureTime) && s.departureTime <= End(s)
    && (forall i :: 0 < i < |s.route| ==> FollowsOn(inst, s.route[i - 1], s.route[i]))
    && (forall n :: 0 <= n <= |s.route| ==> 0 <= StockAt(s, n) <= inst.trailers[s.trailer].capacity)
    && (forall i :: 0 <= i < |s.route| ==> RightSign(inst, s.route[i]))
  }

  ghost predicate IdsOk(p: Plan) {
    && (forall i :: 0 <= i < |p.shifts| ==> p.shifts[i].id < p.nextId)
    && (forall i, j :: 0 <= i < j < |p.shifts| ==> p.shifts[i].id != p.shifts[j].id)
    && (forall t :: t in p.shiftId ==> p.shiftId[t] < p.nextId)
    && (forall t, u :: t in p.shiftId && u in p.shiftId && p.shiftId[t] == p.shiftId[u] ==> t == u)
    && (forall t, i :: t in p.shiftId && 0 <= i < |p.shifts| && p.shifts[i].id == p.shiftId[t] ==>
      p.shifts[i].trailer == t)
  }

  /** Shifts belong to the assigned pairs, and a driver has rested between two. */
  ghost predicate ShiftsOk(inst: Instance, p: Plan) {
    && (forall i :: 0 <= i < |p.shifts| ==> ValidShift(inst, p.shifts[i]))
    && (forall i :: 0 <= i < |p.shifts| ==> Owned(p, p.shifts[i]))
    && (forall i, j :: 0 <= i < j < |p.shifts| && p.shifts[i].trailer == p.shifts[j].trailer ==>
          Rested(inst, p.shifts[i], p.shifts[j].departureTime))
  }

  predicate Owned(p: Plan, s: Shift) {
    s.driver in p.trailerOf && p.trailerOf[s.driver] == s.trailer
  }

  predicate Rested(inst: Instance, s: Shift, time: int) {
    s.driver in inst.drivers && End(s) + inst.drivers[s.driver].minInterShift <= time
  }

  /** The trailer waits at the base: its current shift has no entry. */
  ghost predicate AtBase(inst: Instance, p: Plan, d: nat)
    requires Equipped(inst, p, d)
  {
    var t := p.trailerOf[d];
    && Find(p.shifts, p.shiftId[t]) < 0
    && p.place[t].location == BASE && p.place[t].time >= 0 && p.driving[d] == 0
    && p.stock[t] == StockAfter(inst, p.shifts, t)
    && 0 <= p.stock[t] <= inst.trailers[t].capacity
    && forall i :: 0 <= i < |p.shifts| && p.shifts[i].trailer == t ==> Rested(inst, p.shifts[i], p.place[t].time)
  }

  /** The trailer's current shift has an entry, the trailer's last, and the
      tables agree with the last stop of its route. */
  ghost predicate OnRoute(inst: Instance, p: Plan, d: nat)
    requires Equipped(inst, p, d)
  {
    var t := p.trailerOf[d];
    var k := Find(p.shifts, p.shiftId[t]);
    && k >= 0 && p.shifts[k].trailer == t && p.shifts[k].driver == d && p.shifts[k].route != []
    && (forall i :: k < i < |p.shifts| ==> p.shifts[i].trailer != t)
    && var last := Last(p.shifts[k].route);
       && p.place[t] == Place(last.location, last.departure) && last.departure >= 0
       && last.arrival <= last.departure
       && p.driving[d] == last.cumulatedDriving
       && p.stock[t] == FinalStock(p.shifts[k])
  }

  /** A trailer is at the base exactly when its current shift has no entry. */
  ghost predicate VehicleOk(inst: Instance, p: Plan, d: nat)
    requires Equipped(inst, p, d)
  {
    AtBase(inst, p, d) || (OnRoute(inst, p, d) && p.place[p.trailerOf[d]].location != BASE)
  }

  /** All but the vehicles. */
  ghost predicate Consistent(inst: Instance, p: Plan) {
    Assigned(inst, p) && IdsOk(p) && ShiftsOk(inst, p) && Linked(inst, Stock, p.shifts)
  }

  ghost predicate OthersOk(inst: Instance, p: Plan, d: nat)
    requires Assigned(inst, p)
  {
    forall e :: e in p.trailerOf && e != d ==> VehicleOk(inst, p, e)
  }

  ghost predicate Inv(inst: Instance, p: Plan) {
    Consistent(inst, p) && forall d :: d in p.trailerOf ==> VehicleOk(inst, p, d)
  }

  // ---- adding to the list of shifts, and replacing the trailer's last ----

  lemma {:induction false} Appended(inst: Instance, shifts: seq<Shift>, s: Shift, id: nat, t: nat)
    ensures Find(shifts + [s], id) == if s.id == id then |shifts| else Find(shifts, id)
    ensures Latest(shifts + [s], Stock, t) == if s.trailer == t then Some(s) else Latest(shifts, Stock, t)
    ensures Linked(inst, Stock, shifts + [s])
       <==> Linked(inst, Stock, shifts) && MayFollow(inst, Stock, Latest(shifts, Stock, s.trailer), s)
  {
    assert (shifts + [s])[..|shifts|] == shifts;
  }

  lemma {:induction false} Replaced(shifts: seq<Shift>, k: nat, s: Shift, id: nat, t: nat)
    requires k < |shifts| && s.id == shifts[k].id && s.trailer == shifts[k].trailer
    ensures Find(shifts[k := s], id) == Find(shifts, id)
    ensures t != s.trailer ==> Latest(shifts[k := s], Stock, t) == Latest(shifts, Stock, t)
    decreases |shifts|
  {
    var n := |shifts| - 1;
    if k < n {
      assert shifts[k := s][..n] == shifts[..n][k := s];
      Replaced(shifts[..n], k, s, id, t);
    } else {
      assert shifts[k := s][..n] == shifts[..n];
    }
  }

  lemma {:induction false} ReplacedLinked(inst: Instance, shifts: seq<Shift>, k: nat, s: Shift)
    requires k < |shifts| && s.id == shifts[k].id && s.trailer == shifts[k].trailer
    requires s.initialQuantity == shifts[k].initialQuantity
    requires forall i :: k < i < |shifts| ==> shifts[i].trailer != s.trailer
    requires Linked(inst, Stock, shifts)
    ensures Linked(inst, Stock, shifts[k := s])
    decreases |shifts|
  {
    var n := |shifts| - 1;
    if k < n {
      assert shifts[k := s][..n] == shifts[..n][k := s];
      ReplacedLinked(inst, shifts[..n], k, s);
      Replaced(shifts[..n], k, s, s.id, shifts[n].trailer);
    } else {
      assert shifts[k := s][..n] == shifts[..n];
    }
  }

  lemma {:induction false} LatestIs(shifts: seq<Shift>, k: nat)
    requires k < |shifts| && forall i :: k < i < |shifts| ==> shifts[i].trailer != shifts[k].trailer
    ensures Latest(shifts, Stock, shifts[k].trailer) == Some(shifts[k])
    decreases |shifts|
  {
    if k < |shifts| - 1 {
      LatestIs(shifts[..|shifts| - 1], k);
    }
  }

  lemma {:induction false} FindFails(shifts: seq<Shift>, id: nat)
    ensures Find(shifts, id) < 0 <==> forall i :: 0 <= i < |shifts| ==> shifts[i].id != id
  {
    if shifts != [] {
      FindFails(shifts[..|shifts| - 1], id);
    }
  }
}
