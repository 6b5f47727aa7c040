/** Customers' tanks over the hours of the horizon
    (`calculate_inventories` and the site checks of roadef/core/experiment.py). */
module RoadefTanks {
  import opened Wrappers
  import opened RoadefModel

  // ---- cumulative sums ----

  /** xs[0] + ... + xs[h] */
  function UpTo(xs: seq<int>, h: nat): int
    requires h < |xs|
  {
    if h == 0 then xs[0] else UpTo(xs, h - 1) + xs[h]
  }

  /** `np.cumsum` */
  function CumSum(xs: seq<int>): (r: seq<int>)
    ensures |r| == |xs| && forall h :: 0 <= h < |xs| ==> r[h] == UpTo(xs, h)
  {
    seq(|xs|, h requires 0 <= h < |xs| => UpTo(xs, h))
  }

  lemma {:induction false} UpToAfterAdd(xs: seq<int>, t: nat, q: int, h: nat)
    requires t < |xs| && h < |xs|
    ensures UpTo(xs[t := xs[t] + q], h) == UpTo(xs, h) + if t <= h then q else 0
  {
    if h > 0 {
      UpToAfterAdd(xs, t, q, h - 1);
    }
  }

  lemma {:induction false} UpToOfZeros(n: nat, h: nat)
    requires h < n
    ensures UpTo(seq(n, _ => 0), h) == 0
  {
    if h > 0 {
      UpToOfZeros(n, h - 1);
    }
  }

  /** A delivery made in time for the arrays: it names a customer and arrives
      within the horizon. */
  predicate InHorizon(inst: Instance, op: Stop) {
    inst.IsCustomer(op.location) ==>
      op.location in inst.customers && op.arrival >= 0 && op.arrival / UNIT < inst.horizon
  }

  ghost predicate AllInHorizon(inst: Instance, shifts: seq<Shift>) {
    forall i, j :: 0 <= i < |shifts| && 0 <= j < |shifts[i].route| ==> InHorizon(inst, shifts[i].route[j])
  }

  // ---- where the quantities land ----

  /** The hour a stop's quantity is added at: an index below 0 counts from the
      end of the array. */
  function HourIndex(inst: Instance, op: Stop): int {
    if op.arrival / UNIT < 0 then op.arrival / UNIT + inst.horizon else op.arrival / UNIT
  }

  /** The array of the stop's customer has that hour. */
  predicate Indexed(inst: Instance, op: Stop) {
    inst.IsCustomer(op.location) ==> op.location in inst.customers && 0 <= HourIndex(inst, op) < inst.horizon
  }

  predicate RouteIndexed(inst: Instance, route: seq<Stop>) {
    forall j :: 0 <= j < |route| ==> Indexed(inst, route[j])
  }

  predicate AllIndexed(inst: Instance, shifts: seq<Shift>) {
    forall i :: 0 <= i < |shifts| ==> RouteIndexed(inst, shifts[i].route)
  }

  /** The stop as if it arrived when its quantity lands. */
  function Landed(inst: Instance, op: Stop): Stop {
    if op.arrival / UNIT < 0 then op.(arrival := op.arrival + UNIT * inst.horizon) else op
  }

  function LandedRoute(inst: Instance, route: seq<Stop>): (r: seq<Stop>)
    ensures |r| == |route| && forall j :: 0 <= j < |route| ==> r[j] == Landed(inst, route[j])
  {
    seq(|route|, j requires 0 <= j < |route| => Landed(inst, route[j]))
  }

  function LandedShifts(inst: Instance, shifts: seq<Shift>): (r: seq<Shift>)
    ensures |r| == |shifts|
    ensures forall i :: 0 <= i < |shifts| ==> r[i] == shifts[i].(route := LandedRoute(inst, shifts[i].route))
  {
    seq(|shifts|, i requires 0 <= i < |shifts| => shifts[i].(route := LandedRoute(inst, shifts[i].route)))
  }

  lemma LandsAtIndex(inst: Instance, op: Stop)
    ensures Landed(inst, op).arrival / UNIT == HourIndex(inst, op)
  {
  }

  /** A delivery has an hour of its customer's array if it arrives at most the
      horizon before or after time 0, and a negative hour is the one as far from
      the end. */
  lemma LandsWithin(inst: Instance, op: Stop)
    requires inst.IsCustomer(op.location)
    ensures Indexed(inst, op) <==>
      op.location in inst.customers && -(inst.horizon as int) <= op.arrival / 60 < inst.horizon
    ensures Indexed(inst, op) ==>
      Landed(inst, op).arrival / 60 == if op.arrival >= 0 then op.arrival / 60 else inst.horizon + op.arrival / 60
    ensures Landed(inst, op) == op.(arrival := Landed(inst, op).arrival)
  {
  }

  lemma AllLanded(inst: Instance, shifts: seq<Shift>)
    requires AllInHorizon(inst, shifts)
    ensures AllIndexed(inst, shifts)
  {
    forall i, j | 0 <= i < |shifts| && 0 <= j < |shifts[i].route| ensures Indexed(inst, shifts[i].route[j]) {
      assert InHorizon(inst, shifts[i].route[j]);
    }
  }

  /** Deliveries within the horizon land where they arrive. */
  lemma {:induction false} InHorizonIsLanded(inst: Instance, shifts: seq<Shift>, c: nat, h: nat)
    requires AllInHorizon(inst, shifts) && inst.IsCustomer(c)
    ensures AllIndexed(inst, shifts)
    ensures Delivered(LandedShifts(inst, shifts), c, h) == Delivered(shifts, c, h)
  {
    AllLanded(inst, shifts);
    LandedDelivers(inst, shifts, c, h);
  }

  lemma {:induction false} LandedRouteDelivers(inst: Instance, route: seq<Stop>, c: nat, h: nat)
    requires inst.IsCustomer(c) && forall j :: 0 <= j < |route| ==> InHorizon(inst, route[j])
    ensures DeliveredBy(LandedRoute(inst, route), c, h) == DeliveredBy(route, c, h)
  {
    if route != [] {
      var front := route[..|route| - 1];
      LandedRouteDelivers(inst, front, c, h);
      assert LandedRoute(inst, route)[..|route| - 1] == LandedRoute(inst, front);
      assert InHorizon(inst, route[|route| - 1]);
    }
  }

  lemma {:induction false} LandedDelivers(inst: Instance, shifts: seq<Shift>, c: nat, h: nat)
    requires AllInHorizon(inst, shifts) && inst.IsCustomer(c)
    ensures Delivered(LandedShifts(inst, shifts), c, h) == Delivered(shifts, c, h)
  {
    if shifts != [] {
      var front, last := shifts[..|shifts| - 1], Last(shifts);
      LandedDelivers(inst, front, c, h);
      assert LandedShifts(inst, shifts)[..|shifts| - 1] == LandedShifts(inst, front);
      assert shifts[|shifts| - 1] == last;
      LandedRouteDelivers(inst, last.route, c, h);
    }
  }

  /** Adding one stop's quantity at its hour accounts for that stop. */
  lemma AddArrival(arrivals: seq<int>, op: Stop, c: nat, h: nat)
    requires h < |arrivals| && op.location == c && 0 <= op.arrival / UNIT < |arrivals|
    ensures UpTo(arrivals[op.arrival / UNIT := arrivals[op.arrival / UNIT] - op.quantity], h)
         == UpTo(arrivals, h) + Brought(op, c, h)
  {
    UpToAfterAdd(arrivals, op.arrival / UNIT, -op.quantity, h);
  }

  /** Hour by hour, an array for each customer that sums up what has landed. */
  ghost predicate SumsUp(inst: Instance, arrivals: map<nat, seq<int>>, landed: seq<Shift>) {
    && arrivals.Keys == inst.customers.Keys
    && (forall c :: c in arrivals ==> |arrivals[c]| == inst.horizon)
    && forall c, h :: c in arrivals && 0 <= h < inst.horizon ==> UpTo(arrivals[c], h) == Delivered(landed, c, h)
  }

  /** Step 3 of `calculate_inventories`: quantities summed per customer and hour.
      A customer without an array, or an hour it does not have, is an error. */
  method CollectArrivals(inst: Instance, shifts: seq<Shift>) returns (arrivals: Option<map<nat, seq<int>>>)
    requires inst.Numbered()
    ensures arrivals.Some? <==> AllIndexed(inst, shifts)
    ensures arrivals.Some? ==> SumsUp(inst, arrivals.value, LandedShifts(inst, shifts))
  {
    var sums: map<nat, seq<int>> := map c | c in inst.customers :: seq(inst.horizon, _ => 0);
    NothingLanded(inst, sums);
    assert LandedShifts(inst, shifts)[..0] == [];
    hide *;
    for i := 0 to |shifts|
      invariant SumsUp(inst, sums, LandedShifts(inst, shifts)[..i])
      invariant AllIndexed(inst, shifts[..i])
    {
      RouteLanded(inst, shifts, i);
      var more := CollectRoute(inst, LandedShifts(inst, shifts)[..i], shifts[i].route, sums);
      if more.None? {
        return None;
      }
      sums := more.value;
    }
    assert shifts[..|shifts|] == shifts && LandedShifts(inst, shifts)[..|shifts|] == LandedShifts(inst, shifts);
    arrivals := Some(sums);
  }

  lemma NothingLanded(inst: Instance, sums: map<nat, seq<int>>)
    requires sums == map c | c in inst.customers :: seq(inst.horizon, _ => 0)
    ensures SumsUp(inst, sums, [])
  {
    forall c, h | c in sums && 0 <= h < inst.horizon ensures UpTo(sums[c], h) == 0 {
      UpToOfZeros(inst.horizon, h);
    }
  }

  lemma RouteLanded(inst: Instance, shifts: seq<Shift>, i: nat)
    requires i < |shifts|
    ensures AllIndexed(inst, shifts[..i + 1]) <==> AllIndexed(inst, shifts[..i]) && RouteIndexed(inst, shifts[i].route)
    ensures AllIndexed(inst, shifts) ==> RouteIndexed(inst, shifts[i].route)
    ensures forall sums: map<nat, seq<int>> {:trigger SumsUp(inst, sums, LandedShifts(inst, shifts)[..i + 1])} ::
      SumsUpTo(inst, sums, LandedShifts(inst, shifts)[..i], LandedRoute(inst, shifts[i].route))
      ==> SumsUp(inst, sums, LandedShifts(inst, shifts)[..i + 1])
  {
    var landed := LandedShifts(inst, shifts);
    assert landed[..i + 1][..i] == landed[..i];
    hide RouteIndexed;
    assert forall j :: 0 <= j <= i ==> shifts[..i + 1][j] == if j < i then shifts[..i][j] else shifts[i];
  }

  method CollectRoute(inst: Instance, ghost before: seq<Shift>, route: seq<Stop>, start: map<nat, seq<int>>)
    returns (arrivals: Option<map<nat, seq<int>>>)
    requires inst.Numbered() && SumsUp(inst, start, before)
    ensures arrivals.Some? <==> RouteIndexed(inst, route)
    ensures arrivals.Some? ==> SumsUpTo(inst, arrivals.value, before, LandedRoute(inst, route))
  {
    var sums: map<nat, seq<int>> := start;
    assert LandedRoute(inst, route)[..0] == [];
    assert SumsUpTo(inst, sums, before, []);
    hide *;
    for j := 0 to |route|
      invariant SumsUpTo(inst, sums, before, LandedRoute(inst, route)[..j])
      invariant RouteIndexed(inst, route[..j])
    {
      StopLanded(inst, route, j);
      var more := CollectStop(inst, before, LandedRoute(inst, route)[..j], route[j], sums);
      if more.None? {
        return None;
      }
      sums := more.value;
    }
    assert route[..|route|] == route && LandedRoute(inst, route)[..|route|] == LandedRoute(inst, route);
    arrivals := Some(sums);
  }

  lemma StopLanded(inst: Instance, route: seq<Stop>, j: nat)
    requires j < |route|
    ensures RouteIndexed(inst, route[..j + 1]) <==> RouteIndexed(inst, route[..j]) && Indexed(inst, route[j])
    ensures RouteIndexed(inst, route) ==> Indexed(inst, route[j])
    ensures LandedRoute(inst, route)[..j + 1] == LandedRoute(inst, route)[..j] + [Landed(inst, route[j])]
  {
    assert forall k :: 0 <= k <= j ==> route[..j + 1][k] == if k < j then route[..j][k] else route[j];
  }

  /** The same with the stops of one more route. */
  ghost predicate SumsUpTo(inst: Instance, arrivals: map<nat, seq<int>>, before: seq<Shift>, route: seq<Stop>) {
    && arrivals.Keys == inst.customers.Keys
    && (forall c :: c in arrivals ==> |arrivals[c]| == inst.horizon)
    && forall c, h :: c in arrivals && 0 <= h < inst.horizon ==>
         UpTo(arrivals[c], h) == Delivered(before, c, h) + DeliveredBy(route, c, h)
  }

  method CollectStop(
    inst: Instance, ghost before: seq<Shift>, ghost landed: seq<Stop>, op: Stop, sums: map<nat, seq<int>>)
    returns (arrivals: Option<map<nat, seq<int>>>)
    requires inst.Numbered() && SumsUpTo(inst, sums, before, landed)
    ensures arrivals.Some? <==> Indexed(inst, op)
    ensures arrivals.Some? ==> SumsUpTo(inst, arrivals.value, before, landed + [Landed(inst, op)])
  {
    ArraysOfSums(inst, sums, before, landed);
    hide SumsUpTo, Landed, Instance.Numbered;
    if !inst.IsCustomer(op.location) {
      SkipLanded(inst, sums, before, landed, op);
      return Some(sums);
    }
    var hour := HourIndex(inst, op);
    if op.location !in sums || hour < 0 || hour >= inst.horizon {
      return None;
    }
    AddLanded(inst, sums, before, landed, op);
    arrivals := Some(sums[op.location := sums[op.location][hour := sums[op.location][hour] - op.quantity]]);
  }

  lemma ArraysOfSums(inst: Instance, sums: map<nat, seq<int>>, before: seq<Shift>, route: seq<Stop>)
    requires SumsUpTo(inst, sums, before, route)
    ensures sums.Keys == inst.customers.Keys && forall c :: c in sums ==> |sums[c]| == inst.horizon
  {
  }

  lemma {:induction false} DeliveredByMore(route: seq<Stop>, op: Stop, c: nat, h: nat)
    ensures DeliveredBy(route + [op], c, h) == DeliveredBy(route, c, h) + Brought(op, c, h)
  {
    FrontOfMore(route, op);
  }

  lemma AddLanded(inst: Instance, sums: map<nat, seq<int>>, before: seq<Shift>, route: seq<Stop>, op: Stop)
    requires SumsUpTo(inst, sums, before, route) && op.location in sums && 0 <= HourIndex(inst, op) < inst.horizon
    ensures var hour, held := HourIndex(inst, op), sums[op.location];
      && |held| == inst.horizon
      && SumsUpTo(inst, sums[op.location := held[hour := held[hour] - op.quantity]], before, route + [Landed(inst, op)])
  {
    hide Delivered, DeliveredBy, UpTo;
    LandsAtIndex(inst, op);
    var hour, held := HourIndex(inst, op), sums[op.location];
    var more := sums[op.location := held[hour := held[hour] - op.quantity]];
    forall c, h | c in more && 0 <= h < inst.horizon
      ensures UpTo(more[c], h) == Delivered(before, c, h) + DeliveredBy(route + [Landed(inst, op)], c, h)
    {
      DeliveredByMore(route, Landed(inst, op), c, h);
      if c == op.location {
        AddArrival(held, Landed(inst, op), op.location, h);
      }
    }
  }

  lemma SkipLanded(inst: Instance, sums: map<nat, seq<int>>, before: seq<Shift>, route: seq<Stop>, op: Stop)
    requires inst.Numbered() && SumsUpTo(inst, sums, before, route) && !inst.IsCustomer(op.location)
    ensures SumsUpTo(inst, sums, before, route + [Landed(inst, op)])
  {
    hide Delivered, DeliveredBy, UpTo;
    forall c, h | c in sums && 0 <= h < inst.horizon
      ensures DeliveredBy(route + [Landed(inst, op)], c, h) == DeliveredBy(route, c, h)
    {
      DeliveredByMore(route, Landed(inst, op), c, h);
    }
  }

  /** What an hour adds to a tank: minus the forecast, the arrivals, and the
      initial stock in the first hour. */
  function HourlyChange(inst: Instance, c: nat, arrivals: seq<int>): (r: seq<int>)
    requires c in inst.customers && |arrivals| == inst.horizon <= |inst.customers[c].forecast|
    ensures |r| == inst.horizon
  {
    var customer := inst.customers[c];
    seq(inst.horizon, h requires 0 <= h < inst.horizon =>
      arrivals[h] - customer.forecast[h] + if h == 0 then customer.initialTank else 0)
  }

  lemma {:induction false} HourlyChangeAccumulates(inst: Instance, c: nat, arrivals: seq<int>, h: nat)
    requires c in inst.customers && h < |arrivals| == inst.horizon <= |inst.customers[c].forecast|
    ensures UpTo(HourlyChange(inst, c, arrivals), h)
         == inst.customers[c].initialTank - Consumed(inst.customers[c].forecast, h + 1) + UpTo(arrivals, h)
  {
    if h > 0 {
      HourlyChangeAccumulates(inst, c, arrivals, h - 1);
    }
  }

  /** `calculate_inventories`: fails on a delivery outside the arrays. */
  method CalculateInventories(inst: Instance, shifts: seq<Shift>) returns (r: Option<map<nat, seq<int>>>)
    requires inst.Numbered() && inst.Forecasted()
    ensures r.Some? <==> AllIndexed(inst, shifts)
    ensures r.Some? ==> r.value.Keys == inst.customers.Keys
    ensures r.Some? ==> forall c :: c in r.value ==> |r.value[c]| == inst.horizon
    ensures r.Some? ==> forall c, h :: c in r.value && 0 <= h < inst.horizon ==>
      h < |inst.customers[c].forecast| && r.value[c][h] == TankAt(inst, LandedShifts(inst, shifts), c, h)
  {
    hide AllIndexed;
    var arrivals := CollectArrivals(inst, shifts);
    if arrivals.None? {
      return None;
    }
    var tanks := map c | c in inst.customers :: CumSum(HourlyChange(inst, c, arrivals.value[c]));
    forall c, h | c in tanks && 0 <= h < inst.horizon
      ensures h < |inst.customers[c].forecast| && tanks[c][h] == TankAt(inst, LandedShifts(inst, shifts), c, h)
    {
      HourlyChangeAccumulates(inst, c, arrivals.value[c], h);
    }
    r := Some(tanks);
  }

  /** Customer c's tank holds no more than its capacity, hour by hour. */
  ghost predicate TankWithinCapacity(inst: Instance, shifts: seq<Shift>, c: nat)
    requires c in inst.customers && inst.horizon <= |inst.customers[c].forecast|
  {
    forall h :: 0 <= h < inst.horizon ==> TankAt(inst, shifts, c, h) <= inst.customers[c].capacity
  }

  /** It never runs dry. */
  ghost predicate TankNeverNegative(inst: Instance, shifts: seq<Shift>, c: nat)
    requires c in inst.customers && inst.horizon <= |inst.customers[c].forecast|
  {
    forall h :: 0 <= h < inst.horizon ==> TankAt(inst, shifts, c, h) >= 0
  }

  /** The customers the site checks look at: the guard `location <= 1 +
      nb_sources` skips the first one along with the base and the sources. */
  predicate IsLookedAt(inst: Instance, c: nat)
    requires c in inst.customers
  {
    c > 1 + |inst.sources| && !inst.customers[c].callIn
  }

  /** The dictionaries the site checks append. */
  datatype SiteViolation =
    | Overflow(location: nat, hour: nat, inventory: int, capacity: int)
    | RunOut(location: nat, hour: nat, inventory: int)

  ghost predicate IsOverflow(inst: Instance, shifts: seq<Shift>, c: nat, h: nat, v: SiteViolation) {
    && c in inst.customers && IsLookedAt(inst, c) && h < inst.horizon <= |inst.customers[c].forecast|
    && TankAt(inst, LandedShifts(inst, shifts), c, h) > inst.customers[c].capacity
    && v == Overflow(c, h, TankAt(inst, LandedShifts(inst, shifts), c, h), inst.customers[c].capacity)
  }

  ghost predicate IsRunOut(inst: Instance, shifts: seq<Shift>, c: nat, h: nat, v: SiteViolation) {
    && c in inst.customers && IsLookedAt(inst, c) && h < inst.horizon <= |inst.customers[c].forecast|
    && TankAt(inst, LandedShifts(inst, shifts), c, h) < 0
    && v == RunOut(c, h, TankAt(inst, LandedShifts(inst, shifts), c, h))
  }

  /** Each location's entries have later and later hours, so none is repeated. */
  ghost predicate HoursAscend(check: seq<SiteViolation>) {
    forall m, n :: 0 <= m < n < |check| && check[m].location == check[n].location ==> check[m].hour < check[n].hour
  }

  lemma HoursAscendMore(check: seq<SiteViolation>, more: seq<SiteViolation>)
    requires HoursAscend(check) && HoursAscend(more)
    requires forall v, w :: v in check && w in more ==> v.location != w.location
    ensures HoursAscend(check + more)
  {
    var all := check + more;
    forall m, n | 0 <= m < n < |all| && all[m].location == all[n].location ensures all[m].hour < all[n].hour {
      assert m < |check| ==> all[m] in check;
      assert n >= |check| ==> all[n] in more;
    }
  }

  /** The inner loop: the hours at which the tank is too full. */
  method CheckTank(c: nat, tank: seq<int>, capacity: int) returns (check: seq<SiteViolation>)
    ensures forall v :: v in check <==>
      exists h :: 0 <= h < |tank| && tank[h] > capacity && v == Overflow(c, h, tank[h], capacity)
    ensures HoursAscend(check)
  {
    check := [];
    for i := 0 to |tank|
      invariant forall v :: v in check <==>
        exists h :: 0 <= h < i && tank[h] > capacity && v == Overflow(c, h, tank[h], capacity)
      invariant HoursAscend(check) && forall v :: v in check ==> v.hour < i
    {
      if tank[i] > capacity {
        check := check + [Overflow(c, i, tank[i], capacity)];
      }
    }
  }

  /** The inner loop: the hours at which the tank is below empty. */
  method CheckTankLevel(c: nat, tank: seq<int>) returns (check: seq<SiteViolation>)
    ensures forall v :: v in check <==> exists h :: 0 <= h < |tank| && tank[h] < 0 && v == RunOut(c, h, tank[h])
    ensures HoursAscend(check)
  {
    check := [];
    for i := 0 to |tank|
      invariant forall v :: v in check <==> exists h :: 0 <= h < i && tank[h] < 0 && v == RunOut(c, h, tank[h])
      invariant HoursAscend(check) && forall v :: v in check ==> v.hour < i
    {
      if tank[i] < 0 {
        check := check + [RunOut(c, i, tank[i])];
      }
    }
  }

  /** `check_site_inventory_exceeds` */
  method CheckSiteExceeds(inst: Instance, shifts: seq<Shift>) returns (check: Option<seq<SiteViolation>>)
    requires inst.Numbered() && inst.Forecasted()
    ensures check.Some? <==> AllIndexed(inst, shifts)
    ensures check.Some? ==>
      (check.value == [] <==>
         forall c :: c in inst.customers && IsLookedAt(inst, c) ==>
           inst.horizon <= |inst.customers[c].forecast| && TankWithinCapacity(inst, LandedShifts(inst, shifts), c))
    ensures check.Some? ==> forall v :: v in check.value <==> exists c, h :: IsOverflow(inst, shifts, c, h, v)
    ensures check.Some? ==> HoursAscend(check.value)
  {
    hide AllIndexed;
    var tanks := CalculateInventories(inst, shifts);
    if tanks.None? {
      return None;
    }
    hide LandedShifts, TankAt, HoursAscend;
    var found: seq<SiteViolation> := [];
    var todo := inst.customers.Keys;
    assert HoursAscend(found) by { NoneAscend(); }
    while todo != {}
      invariant todo <= inst.customers.Keys && HoursAscend(found)
      invariant forall v :: v in found <==> exists c, h :: c !in todo && IsOverflow(inst, shifts, c, h, v)
    {
      var c :| c in todo;
      todo := todo - {c};
      if !inst.IsValidLocation(c) || c <= 1 + |inst.sources| || inst.customers[c].callIn {
        assert forall h, v :: !IsOverflow(inst, shifts, c, h, v);
        hide IsOverflow;
        continue;
      }
      var violations := CheckTank(c, tanks.value[c], inst.customers[c].capacity);
      forall v ensures v in violations <==> exists h :: IsOverflow(inst, shifts, c, h, v) {
        forall h: nat
          ensures IsOverflow(inst, shifts, c, h, v) <==>
            && h < |tanks.value[c]| && tanks.value[c][h] > inst.customers[c].capacity
            && v == Overflow(c, h, tanks.value[c][h], inst.customers[c].capacity)
        {
        }
        if v in violations {
          var h: nat :|
            && h < |tanks.value[c]| && tanks.value[c][h] > inst.customers[c].capacity
            && v == Overflow(c, h, tanks.value[c][h], inst.customers[c].capacity);
          assert IsOverflow(inst, shifts, c, h, v);
        }
      }
      hide IsOverflow;
      hide IsLookedAt;
      HoursAscendMore(found, violations);
      found := found + violations;
    }
    NoOverflowIff(inst, shifts, found);
    check := Some(found);
  }

  lemma NoneAscend()
    ensures HoursAscend([])
  {
  }

  lemma NoOverflowIff(inst: Instance, shifts: seq<Shift>, found: seq<SiteViolation>)
    requires inst.Forecasted()
    requires forall v :: v in found <==> exists c, h :: IsOverflow(inst, shifts, c, h, v)
    ensures found == [] <==>
      forall c :: c in inst.customers && IsLookedAt(inst, c) ==>
        inst.horizon <= |inst.customers[c].forecast| && TankWithinCapacity(inst, LandedShifts(inst, shifts), c)
  {
    hide TankAt, LandedShifts;
    forall c, h | c in inst.customers && IsLookedAt(inst, c) && 0 <= h < inst.horizon
        && TankAt(inst, LandedShifts(inst, shifts), c, h) > inst.customers[c].capacity
      ensures found != []
    {
      var v := Overflow(c, h, TankAt(inst, LandedShifts(inst, shifts), c, h), inst.customers[c].capacity);
      assert IsOverflow(inst, shifts, c, h, v);
      assert v in found;
    }
    assert found != [] ==> found[0] in found;
  }

  /** `check_site_inventory_negative` */
  method CheckSiteNegative(inst: Instance, shifts: seq<Shift>) returns (check: Option<seq<SiteViolation>>)
    requires inst.Numbered() && inst.Forecasted()
    ensures check.Some? <==> AllIndexed(inst, shifts)
    ensures check.Some? ==>
      (check.value == [] <==>
         forall c :: c in inst.customers && IsLookedAt(inst, c) ==>
           inst.horizon <= |inst.customers[c].forecast| && TankNeverNegative(inst, LandedShifts(inst, shifts), c))
    ensures check.Some? ==> forall v :: v in check.value <==> exists c, h :: IsRunOut(inst, shifts, c, h, v)
    ensures check.Some? ==> HoursAscend(check.value)
  {
    hide AllIndexed;
    var tanks := CalculateInventories(inst, shifts);
    if tanks.None? {
      return None;
    }
    hide LandedShifts, TankAt, HoursAscend;
    var found: seq<SiteViolation> := [];
    var todo := inst.customers.Keys;
    assert HoursAscend(found) by { NoneAscend(); }
    while todo != {}
      invariant todo <= inst.customers.Keys && HoursAscend(found)
      invariant forall v :: v in found <==> exists c, h :: c !in todo && IsRunOut(inst, shifts, c, h, v)
    {
      var c :| c in todo;
      todo := todo - {c};
      if !inst.IsValidLocation(c) || c <= 1 + |inst.sources| || inst.customers[c].callIn {
        assert forall h, v :: !IsRunOut(inst, shifts, c, h, v);
        hide IsRunOut;
        continue;
      }
      var violations := CheckTankLevel(c, tanks.value[c]);
      forall v ensures v in violations <==> exists h :: IsRunOut(inst, shifts, c, h, v) {
        forall h: nat
          ensures IsRunOut(inst, shifts, c, h, v) <==>
            h < |tanks.value[c]| && tanks.value[c][h] < 0 && v == RunOut(c, h, tanks.value[c][h])
        {
        }
        if v in violations {
          var h: nat :| h < |tanks.value[c]| && tanks.value[c][h] < 0 && v == RunOut(c, h, tanks.value[c][h]);
          assert IsRunOut(inst, shifts, c, h, v);
        }
      }
      hide IsRunOut;
      hide IsLookedAt;
      HoursAscendMore(found, violations);
      found := found + violations;
    }
    NoRunOutIff(inst, shifts, found);
    check := Some(found);
  }

  lemma NoRunOutIff(inst: Instance, shifts: seq<Shift>, found: seq<SiteViolation>)
    requires inst.Forecasted()
    requires forall v :: v in found <==> exists c, h :: IsRunOut(inst, shifts, c, h, v)
    ensures found == [] <==>
      forall c :: c in inst.customers && IsLookedAt(inst, c) ==>
        inst.horizon <= |inst.customers[c].forecast| && TankNeverNegative(inst, LandedShifts(inst, shifts), c)
  {
    hide TankAt, LandedShifts;
    forall c, h | c in inst.customers && IsLookedAt(inst, c) && 0 <= h < inst.horizon
        && TankAt(inst, LandedShifts(inst, shifts), c, h) < 0
      ensures found != []
    {
      var v := RunOut(c, h, TankAt(inst, LandedShifts(inst, shifts), c, h));
      assert IsRunOut(inst, shifts, c, h, v);
      assert v in found;
    }
    assert found != [] ==> found[0] in found;
  }

  /** Within the horizon the checks see the tanks as the shifts fill them. */
  lemma LandedTanks(inst: Instance, shifts: seq<Shift>, c: nat)
    requires inst.Valid() && AllInHorizon(inst, shifts) && c in inst.customers
    ensures AllIndexed(inst, shifts) && inst.ValidCustomer(inst.customers[c])
    ensures TankWithinCapacity(inst, LandedShifts(inst, shifts), c) <==> TankWithinCapacity(inst, shifts, c)
    ensures TankNeverNegative(inst, LandedShifts(inst, shifts), c) <==> TankNeverNegative(inst, shifts, c)
  {
    AllLanded(inst, shifts);
    hide Delivered, LandedShifts, AllIndexed, AllInHorizon;
    forall h | 0 <= h < inst.horizon
      ensures TankAt(inst, LandedShifts(inst, shifts), c, h) == TankAt(inst, shifts, c, h)
    {
      InHorizonIsLanded(inst, shifts, c, h);
    }
  }
}
