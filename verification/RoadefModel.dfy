/** Instances and solutions of the ROADEF inventory routing problem
    (roadef/core/instance.py, roadef/core/solution.py). */
module RoadefModel {

  datatype Customer = Customer(capacity: int, initialTank: int, forecast: seq<int>, setupTime: int, callIn: bool)
  datatype Source = Source(setupTime: int)
  datatype Trailer = Trailer(capacity: int, initialQuantity: int)
  datatype Driver = Driver(minInterShift: int, maxDriving: int, layoverDuration: int, trailers: set<nat>)

  const BASE: nat := 0
  const UNIT: nat := 60

  /** `travel` is the time matrix, which has an entry for every pair. */
  datatype Instance = Instance(
    horizon: nat,
    sources: map<nat, Source>,
    customers: map<nat, Customer>,
    trailers: map<nat, Trailer>,
    drivers: map<nat, Driver>,
    travel: (nat, nat) -> int)
  {
    predicate IsSource(l: nat) { 0 < l < 1 + |sources| }

    predicate IsCustomer(l: nat) { l >= 1 + |sources| }

    predicate IsValidLocation(l: nat) { l < 1 + |sources| + |customers| }

    /** `get_location_property(l, "setupTime")`; the base has no setup. */
    function SetupTime(l: nat): int {
      if l in customers then customers[l].setupTime
      else if l in sources then sources[l].setupTime
      else 0
    }

    /** Locations are numbered base, sources, customers. */
    ghost predicate Numbered() {
      && (forall l: nat :: l in sources <==> IsSource(l))
      && (forall l: nat :: l in customers <==> IsCustomer(l) && IsValidLocation(l))
    }

    /** What the schedules below need of the data: non-negative times,
        forecasts and setups; tanks and trailers that start within capacity;
        one forecast for each hour. */
    ghost predicate Valid() {
      && Numbered()
      && horizon >= 1
      && (forall p, q :: travel(p, q) >= 0)
      && travel(BASE, BASE) == 0
      && (forall s :: s in sources ==> sources[s].setupTime >= 0)
      && (forall c :: c in customers ==> ValidCustomer(customers[c]))
      && (forall t :: t in trailers ==> 0 <= trailers[t].initialQuantity <= trailers[t].capacity)
      && (forall d :: d in drivers ==> drivers[d].minInterShift >= 0 && drivers[d].maxDriving >= 0)
    }

    ghost predicate ValidCustomer(c: Customer) {
      && c.initialTank <= c.capacity
      && c.setupTime >= 0
      && |c.forecast| >= horizon
      && forall h :: 0 <= h < |c.forecast| ==> c.forecast[h] >= 0
    }

    /** Every customer has a forecast for each hour. */
    ghost predicate Forecasted() {
      forall c :: c in customers ==> |customers[c].forecast| >= horizon
    }

    ghost predicate Triangle() {
      forall p, q, r :: travel(p, r) <= travel(p, q) + travel(q, r)
    }
  }

  lemma TriangleAt(inst: Instance, p: nat, q: nat, r: nat)
    requires inst.Triangle()
    ensures inst.travel(p, r) <= inst.travel(p, q) + inst.travel(q, r)
  {
  }

  /** Quantities loaded are positive, quantities delivered negative. */
  datatype Stop = Stop(
    location: nat,
    quantity: int,
    arrival: int,
    departure: int,
    layoverBefore: bool,
    drivingBeforeLayover: int,
    cumulatedDriving: int)

  datatype Shift = Shift(
    id: nat,
    driver: nat,
    trailer: nat,
    departureTime: int,
    initialQuantity: int,
    route: seq<Stop>)

  function Last<T>(s: seq<T>): T
    requires s != []
  {
    s[|s| - 1]
  }

  lemma FrontOfMore<T>(s: seq<T>, x: T)
    ensures (s + [x])[..|s|] == s && (s + [x])[..|s + [x]| - 1] == s && Last(s + [x]) == x
  {
  }

  lemma FrontAndLast<T>(s: seq<T>)
    requires s != []
    ensures s == s[..|s| - 1] + [Last(s)]
  {
  }

  /** Sum of the quantities of the first n stops. */
  function Carried(route: seq<Stop>, n: nat): int
    requires n <= |route|
  {
    if n == 0 then 0 else Carried(route, n - 1) + route[n - 1].quantity
  }

  /** Driving time from the first stop to the n-th. */
  function Driven(inst: Instance, route: seq<Stop>, n: nat): int
    requires n < |route|
  {
    if n == 0 then 0
    else Driven(inst, route, n - 1) + inst.travel(route[n - 1].location, route[n].location)
  }

  lemma {:induction false} CarriedOfPrefix(route: seq<Stop>, more: seq<Stop>, n: nat)
    requires n <= |route|
    ensures Carried(route + more, n) == Carried(route, n)
  {
    if n > 0 {
      CarriedOfPrefix(route, more, n - 1);
    }
  }

  /** `final_inventory` of `get_aux_info_shift` */
  function FinalStock(s: Shift): int {
    s.initialQuantity + Carried(s.route, |s.route|)
  }

  /** `arrival_time` of `get_aux_info_shift` */
  function End(s: Shift): int {
    if s.route == [] then 0 else Last(s.route).arrival
  }

  // ---- stock of a customer's tank ----

  function Consumed(forecast: seq<int>, n: nat): int
    requires n <= |forecast|
  {
    if n == 0 then 0 else Consumed(forecast, n - 1) + forecast[n - 1]
  }

  /** What one stop has brought to customer c by the end of hour h. */
  function Brought(stop: Stop, c: nat, h: nat): int {
    if stop.location == c && stop.arrival / UNIT <= h then -stop.quantity else 0
  }

  function DeliveredBy(route: seq<Stop>, c: nat, h: nat): int {
    if route == [] then 0 else DeliveredBy(route[..|route| - 1], c, h) + Brought(Last(route), c, h)
  }

  function Delivered(shifts: seq<Shift>, c: nat, h: nat): int {
    if shifts == [] then 0
    else Delivered(shifts[..|shifts| - 1], c, h) + DeliveredBy(Last(shifts).route, c, h)
  }

  /** The reference: the tank of customer c at hour h holds its initial stock,
      less the consumption of hours 0..h, plus every delivery that has arrived
      by then. */
  function TankAt(inst: Instance, shifts: seq<Shift>, c: nat, h: nat): int
    requires c in inst.customers && h < |inst.customers[c].forecast|
  {
    var customer := inst.customers[c];
    customer.initialTank - Consumed(customer.forecast, h + 1) + Delivered(shifts, c, h)
  }
}
