/** The candidate routes of roadef/solvers/RouteLabel.py and the shifts
    `to_solution` of roadef/solvers/MIPModel.py makes of the chosen ones. */
module RoadefLabels {
  import opened Wrappers
  import opened RoadefModel
  import opened RoadefChecker

  datatype Visit = Visit(location: nat, time: int)

  /** Distances between locations, and the dearest trailer and driver. */
  datatype Rates = Rates(distance: (nat, nat) -> int, maxDistCost: int, maxTmpCost: int)

  function Stops(visited: seq<Visit>): (stops: seq<nat>)
    ensures |stops| == |visited| && forall i :: 0 <= i < |visited| ==> stops[i] == visited[i].location
  {
    seq(|visited|, i requires 0 <= i < |visited| => visited[i].location)
  }

  ghost predicate AllValid(inst: Instance, stops: seq<nat>) {
    forall i :: 0 <= i < |stops| ==> inst.IsValidLocation(stops[i])
  }

  // ---- the reference: sums along the route ----

  function DrivenTo(inst: Instance, stops: seq<nat>, n: nat): int
    requires n < |stops|
  {
    if n == 0 then 0 else DrivenTo(inst, stops, n - 1) + inst.travel(stops[n - 1], stops[n])
  }

  function SetUpTo(inst: Instance, stops: seq<nat>, n: nat): int
    requires n < |stops|
  {
    if n == 0 then 0 else SetUpTo(inst, stops, n - 1) + inst.SetupTime(stops[n])
  }

  function DistanceTo(rates: Rates, stops: seq<nat>, n: nat): int
    requires n < |stops|
  {
    if n == 0 then 0 else DistanceTo(rates, stops, n - 1) + rates.distance(stops[n - 1], stops[n])
  }

  /** What driving on to the next stop costs, with the setup there. */
  function StepCost(inst: Instance, rates: Rates, from: nat, to: nat): int {
    (inst.SetupTime(to) + inst.travel(from, to)) * rates.maxTmpCost + rates.distance(from, to) * rates.maxDistCost
  }

  function CostTo(inst: Instance, rates: Rates, stops: seq<nat>, n: nat): int
    requires n < |stops|
  {
    if n == 0 then 0 else CostTo(inst, rates, stops, n - 1) + StepCost(inst, rates, stops[n - 1], stops[n])
  }

  /** The cost of a time on the road and a distance. */
  function CostOf(rates: Rates, time: int, distance: int): int {
    time * rates.maxTmpCost + distance * rates.maxDistCost
  }

  lemma CostOfNext(inst: Instance, rates: Rates, stops: seq<nat>, i: nat)
    requires i + 1 < |stops|
    ensures CostTo(inst, rates, stops, i + 1)
         == CostTo(inst, rates, stops, i) + StepCost(inst, rates, stops[i], stops[i + 1])
  {
  }

  /** The cost of a step as `update_label` adds it up, by kind of location. */
  lemma {:induction false} CostOfStep(inst: Instance, rates: Rates, previous: nat, location: nat)
    requires inst.Numbered() && inst.IsValidLocation(location)
    ensures StepCost(inst, rates, previous, location)
         == (if inst.IsCustomer(location) || inst.IsSource(location)
             then (inst.SetupTime(location) + inst.travel(previous, location)) * rates.maxTmpCost
             else if location == BASE then inst.travel(previous, location) * rates.maxTmpCost else 0)
          + rates.distance(previous, location) * rates.maxDistCost
  {
    if location == BASE {
      assert inst.SetupTime(location) + inst.travel(previous, location) == inst.travel(previous, location);
    }
  }

  lemma Distribute(a: int, b: int, c: int, tmp: int, d: int, e: int, dist: int)
    ensures (a + b + c) * tmp + (d + e) * dist == a * tmp + d * dist + ((b + c) * tmp + e * dist)
  {
  }

  /** The cost is that of the time the route takes and of its distance. */
  lemma {:induction false} CostIsTimeAndDistance(inst: Instance, rates: Rates, stops: seq<nat>, n: nat)
    requires n < |stops|
    ensures CostTo(inst, rates, stops, n)
         == CostOf(rates, DrivenTo(inst, stops, n) + SetUpTo(inst, stops, n), DistanceTo(rates, stops, n))
  {
    if n > 0 {
      CostIsTimeAndDistance(inst, rates, stops, n - 1);
      Distribute(DrivenTo(inst, stops, n - 1) + SetUpTo(inst, stops, n - 1),
                 inst.SetupTime(stops[n]), inst.travel(stops[n - 1], stops[n]), rates.maxTmpCost,
                 DistanceTo(rates, stops, n - 1), rates.distance(stops[n - 1], stops[n]), rates.maxDistCost);
    }
  }

  /** Visit i is timed by the driving and the setups up to it. */
  ghost predicate TimedAt(inst: Instance, stops: seq<nat>, i: nat, time: int) {
    i < |stops| && time == DrivenTo(inst, stops, i) + SetUpTo(inst, stops, i)
  }

  ghost predicate TimedTo(inst: Instance, visited: seq<Visit>, n: nat) {
    n <= |visited| && forall i :: 0 <= i < n ==> TimedAt(inst, Stops(visited), i, visited[i].time)
  }

  lemma {:induction false} TimedFurther(inst: Instance, visited: seq<Visit>, i: nat, time: int)
    requires i < |visited| && TimedTo(inst, visited, i) && TimedAt(inst, Stops(visited), i, time)
    ensures var timed := visited[i := Visit(visited[i].location, time)];
      Stops(timed) == Stops(visited) && TimedTo(inst, timed, i + 1)
  {
    hide TimedAt;
    assert Stops(visited[i := Visit(visited[i].location, time)]) == Stops(visited);
  }

  lemma TimedFirst(inst: Instance, stops: seq<nat>)
    ensures stops != [] ==> TimedAt(inst, stops, 0, 0)
  {
  }

  /** The time of the next visit as `update_label_time` adds it up. */
  lemma {:induction false} TimedNext(inst: Instance, stops: seq<nat>, i: nat, previous: int)
    requires inst.Numbered() && i + 1 < |stops| && inst.IsValidLocation(stops[i + 1])
    requires TimedAt(inst, stops, i, previous)
    ensures var location := stops[i + 1];
      var setupTime := if inst.IsCustomer(location) || inst.IsSource(location) then inst.SetupTime(location) else 0;
      TimedAt(inst, stops, i + 1, previous + inst.travel(stops[i], location) + setupTime)
  {
  }

  ghost predicate IsTimed(inst: Instance, visited: seq<Visit>) {
    TimedTo(inst, visited, |visited|)
  }

  /** Python's `list.insert`: any position, counted from the end if negative. */
  function InsertIndex(length: nat, position: int): (i: nat)
    ensures i <= length
  {
    if position < 0 then if length + position < 0 then 0 else length + position
    else if position > length then length
    else position
  }

  function Inserted<T>(s: seq<T>, x: T, position: int): seq<T> {
    var i := InsertIndex(|s|, position);
    s[..i] + [x] + s[i..]
  }

  /** The location stands at the position, counted from the end if negative, or at
      an end if the position lies beyond it. */
  predicate IsInsertedAt(before: seq<nat>, after: seq<nat>, location: nat, position: int) {
    var n := |before|;
    var i :=
      if position >= n then n else if position >= 0 then position else if position >= -n then n + position else 0;
    |after| == n + 1 && after[i] == location && after[..i] == before[..i] && after[i + 1..] == before[i..]
  }

  lemma InsertedIs(stops: seq<nat>, location: nat, position: int)
    ensures IsInsertedAt(stops, Inserted(stops, location, position), location, position)
  {
  }

  class RouteLabel {
    const inst: Instance
    const rates: Rates
    var visited: seq<Visit>
    var cost: int
    var drivingDuration: int

    /** A new label goes from the base to the base. */
    constructor (inst: Instance, rates: Rates)
      ensures this.inst == inst && this.rates == rates
      ensures visited == [Visit(BASE, 0), Visit(BASE, 0)] && cost == 0 && drivingDuration == 0
    {
      this.inst, this.rates := inst, rates;
      visited, cost, drivingDuration := [Visit(BASE, 0), Visit(BASE, 0)], 0, 0;
    }

    /** `update_label_time` */
    method UpdateLabelTime()
      requires inst.Numbered() && AllValid(inst, Stops(visited))
      modifies this`visited
      ensures Stops(visited) == old(Stops(visited)) && IsTimed(inst, visited)
    {
      hide TimedAt, Instance.Numbered, Instance.SetupTime, Instance.IsCustomer, Instance.IsSource;
      ghost var stops := Stops(visited);
      TimedFirst(inst, stops);
      for i := 0 to |visited|
        invariant Stops(visited) == stops && TimedTo(inst, visited, i)
      {
        var location := visited[i].location;
        if i == 0 {
          TimedFurther(inst, visited, 0, 0);
          visited := visited[i := Visit(location, 0)];
        } else {
          var travelTime := inst.travel(visited[i - 1].location, location);
          var setupTime := 0;
          if inst.IsCustomer(location) || inst.IsSource(location) {
            setupTime := inst.SetupTime(location);
          }
          TimedNext(inst, stops, i - 1, visited[i - 1].time);
          TimedFurther(inst, visited, i, visited[i - 1].time + travelTime + setupTime);
          visited := visited[i := Visit(location, visited[i - 1].time + travelTime + setupTime)];
        }
      }
    }

    /** `update_label` */
    method UpdateLabel()
      requires inst.Numbered() && AllValid(inst, Stops(visited))
      modifies this`cost, this`drivingDuration
      ensures visited == [] ==> cost == 0 && drivingDuration == 0
      ensures visited != [] ==>
        var stops, last := Stops(visited), |visited| - 1;
        drivingDuration == DrivenTo(inst, stops, last) && cost == CostTo(inst, rates, stops, last)
    {
      ghost var stops := Stops(visited);
      cost, drivingDuration := 0, 0;
      for i := 0 to if visited == [] then 0 else |visited| - 1
        invariant visited != [] ==> drivingDuration == DrivenTo(inst, stops, i) && cost == CostTo(inst, rates, stops, i)
        invariant visited == [] ==> cost == 0 && drivingDuration == 0
      {
        var location, previous := visited[i + 1].location, visited[i].location;
        assert location == stops[i + 1] && previous == stops[i];
        CostOfStep(inst, rates, previous, location);
        CostOfNext(inst, rates, stops, i);
        hide Stops, CostTo, StepCost, Instance.Numbered, Instance.SetupTime;
        if inst.IsCustomer(location) || inst.IsSource(location) {
          cost := cost + (inst.SetupTime(location) + inst.travel(previous, location)) * rates.maxTmpCost;
        } else if location == BASE {
          cost := cost + inst.travel(previous, location) * rates.maxTmpCost;
        }
        cost := cost + rates.distance(previous, location) * rates.maxDistCost;
        drivingDuration := drivingDuration + inst.travel(previous, location);
      }
    }

    /** `insert_location`: afterwards the label's cost is that of its last time
        and its distance. */
    method InsertLocation(location: nat, position: int)
      requires inst.Numbered() && AllValid(inst, Stops(visited)) && inst.IsValidLocation(location)
      modifies this
      ensures Stops(visited) == Inserted(old(Stops(visited)), location, position)
      ensures IsInsertedAt(old(Stops(visited)), Stops(visited), location, position)
      ensures IsTimed(inst, visited)
      ensures |visited| > 0 && drivingDuration == DrivenTo(inst, Stops(visited), |visited| - 1)
      ensures cost == CostOf(rates, Last(visited).time, DistanceTo(rates, Stops(visited), |visited| - 1))
    {
      hide AllValid, Stops, Inserted, IsInsertedAt, Instance.Numbered, IsTimed;
      hide CostOf, CostTo, DrivenTo, SetUpTo, DistanceTo;
      InsertedIs(Stops(visited), location, position);
      InsertedStops(inst, visited, location, position);
      visited := Inserted(visited, Visit(location, 0), position);
      UpdateLabelTime();
      UpdateLabel();
      CostIsTimeAndDistance(inst, rates, Stops(visited), |visited| - 1);
      LastIsTimed(inst, visited);
    }
  }

  lemma InsertedStops(inst: Instance, visited: seq<Visit>, location: nat, position: int)
    requires AllValid(inst, Stops(visited)) && inst.IsValidLocation(location)
    ensures var longer := Inserted(visited, Visit(location, 0), position);
      && longer != [] && Stops(longer) == Inserted(Stops(visited), location, position) && AllValid(inst, Stops(longer))
  {
  }

  lemma {:induction false} LastIsTimed(inst: Instance, visited: seq<Visit>)
    requires IsTimed(inst, visited) && visited != []
    ensures Last(visited).time
         == DrivenTo(inst, Stops(visited), |visited| - 1) + SetUpTo(inst, Stops(visited), |visited| - 1)
  {
    assert TimedAt(inst, Stops(visited), |visited| - 1, visited[|visited| - 1].time);
  }

  // ---- inserting a stop ----

  /** Driving on n more stops, from the k-th, is the same wherever they stand. */
  lemma {:induction false} DrivenFromSame(inst: Instance, a: seq<nat>, b: seq<nat>, k: nat, m: nat, n: nat)
    requires k + n < |a| && m + n < |b| && forall i :: k <= i <= k + n ==> a[i] == b[i - k + m]
    ensures DrivenTo(inst, a, k + n) - DrivenTo(inst, a, k) == DrivenTo(inst, b, m + n) - DrivenTo(inst, b, m)
  {
    if n > 0 {
      DrivenFromSame(inst, a, b, k, m, n - 1);
      assert a[k + n] == b[m + n] && a[k + n - 1] == b[m + n - 1];
    }
  }

  lemma {:induction false} InsertedFirst(inst: Instance, stops: seq<nat>, x: nat, longer: seq<nat>)
    requires stops != [] && longer == [x] + stops
    ensures DrivenTo(inst, longer, |stops|) == inst.travel(x, stops[0]) + DrivenTo(inst, stops, |stops| - 1)
  {
    DrivenFromSame(inst, longer, stops, 1, 0, |stops| - 1);
    assert DrivenTo(inst, longer, 1) == inst.travel(x, stops[0]);
  }

  lemma InsertedAt(inst: Instance, stops: seq<nat>, x: nat, i: nat, longer: seq<nat>)
    requires 0 < i <= |stops| && longer == stops[..i] + [x] + stops[i..]
    ensures DrivenTo(inst, longer, i) == DrivenTo(inst, stops, i - 1) + inst.travel(stops[i - 1], x)
    ensures i < |stops| ==>
      DrivenTo(inst, longer, |stops|) - DrivenTo(inst, longer, i)
      == inst.travel(x, stops[i]) - inst.travel(stops[i - 1], stops[i])
         + DrivenTo(inst, stops, |stops| - 1) - DrivenTo(inst, stops, i - 1)
  {
    DrivenFromSame(inst, longer, stops, 0, 0, i - 1);
    assert longer[i] == x && longer[i - 1] == stops[i - 1];
    if i < |stops| {
      DrivenFromSame(inst, longer, stops, i + 1, i, |stops| - 1 - i);
      assert longer[i + 1] == stops[i];
    }
  }

  /** With the triangle inequality another stop never shortens the drive. */
  lemma {:induction false} InsertionDrivesNoLess(inst: Instance, stops: seq<nat>, x: nat, position: int)
    requires inst.Valid() && inst.Triangle() && stops != []
    ensures var longer := Inserted(stops, x, position);
      DrivenTo(inst, longer, |longer| - 1) >= DrivenTo(inst, stops, |stops| - 1)
  {
    var i, longer := InsertIndex(|stops|, position), Inserted(stops, x, position);
    hide DrivenTo, Instance.Triangle;
    if i == 0 {
      InsertedFirst(inst, stops, x, longer);
    } else {
      InsertedAt(inst, stops, x, i, longer);
      if i < |stops| {
        TriangleAt(inst, stops[i - 1], x, stops[i]);
      }
    }
  }

  // ---- from a label to a shift ----

  /** `route` of `to_solution`, started at an hour: the visits are left at their
      times, and reached the setup time earlier. */
  method ToRoute(inst: Instance, visited: seq<Visit>, start: int, quantities: seq<int>) returns (route: seq<Stop>)
    requires inst.Numbered() && AllValid(inst, Stops(visited)) && |quantities| == |visited|
    ensures |route| == |visited|
    ensures forall i :: 0 <= i < |visited| ==> IsStopOf(inst, route[i], visited[i], start)
    ensures forall i :: 0 <= i < |visited| ==>
      route[i].quantity == if visited[i].location == BASE then 0 else quantities[i]
  {
    route := seq(|visited|, i requires 0 <= i < |visited| =>
      Stop(visited[i].location, quantities[i], 0, visited[i].time + UNIT * start, false, 0, 0));
    for s := 0 to |route|
      invariant |route| == |visited|
      invariant forall i :: 0 <= i < s ==>
        && IsStopOf(inst, route[i], visited[i], start)
        && route[i].quantity == if visited[i].location == BASE then 0 else quantities[i]
      invariant forall i :: s <= i < |visited| ==>
        route[i] == Stop(visited[i].location, quantities[i], 0, visited[i].time + UNIT * start, false, 0, 0)
    {
      var step := route[s];
      assert Stops(visited)[s] == step.location;
      if inst.IsCustomer(step.location) || inst.IsSource(step.location) {
        route := route[s := step.(arrival := step.departure - inst.SetupTime(step.location))];
      } else {
        route := route[s := step.(arrival := step.departure, quantity := 0)];
      }
    }
  }

  predicate IsStopOf(inst: Instance, stop: Stop, visit: Visit, start: int) {
    && stop.location == visit.location && !stop.layoverBefore
    && stop.departure == visit.time + UNIT * start
    && stop.arrival == stop.departure - inst.SetupTime(stop.location)
  }

  /** The shift of a timed label that starts at the base passes the timeline and
      setup checks. */
  lemma ConvertedIsOnTime(inst: Instance, visited: seq<Visit>, start: int, s: Shift)
    requires inst.Valid() && visited != [] && visited[0].location == BASE && IsTimed(inst, visited)
    requires |s.route| == |visited| && forall i :: 0 <= i < |visited| ==> IsStopOf(inst, s.route[i], visited[i], start)
    requires s.departureTime == UNIT * start && s.driver in inst.drivers
    ensures TimelineOk(inst, s) && SetupOk(inst, s) && NoLateLayovers(s)
  {
    forall i | 0 <= i < |s.route|
      ensures ReachedInTime(inst, s, i) && SetUp(inst, s.route[i]) && !s.route[i].layoverBefore
    {
      assert IsStopOf(inst, s.route[i], visited[i], start);
      if i > 0 {
        assert IsStopOf(inst, s.route[i - 1], visited[i - 1], start);
      }
    }
  }

  lemma {:induction false} RouteDrivenIsLabels(inst: Instance, visited: seq<Visit>, route: seq<Stop>, n: nat)
    requires n < |visited| == |route| && forall i :: 0 <= i < |visited| ==> route[i].location == visited[i].location
    ensures Driven(inst, route, n) == DrivenTo(inst, Stops(visited), n)
  {
    if n > 0 {
      RouteDrivenIsLabels(inst, visited, route, n - 1);
    }
  }

  lemma {:induction false} DrivenToGrows(inst: Instance, stops: seq<nat>, m: nat, n: nat)
    requires m <= n < |stops| && forall p, q :: inst.travel(p, q) >= 0
    ensures DrivenTo(inst, stops, m) <= DrivenTo(inst, stops, n)
    decreases n
  {
    if m < n {
      DrivenToGrows(inst, stops, m, n - 1);
    }
  }

  /** A label whose driving duration its driver may drive gives a shift that
      passes the driving check, once its driving times are counted. */
  lemma {:induction false} ConvertedDrivesWithin(inst: Instance, visited: seq<Visit>, s: Shift, driving: int)
    requires inst.Valid() && visited != [] && |s.route| == |visited| && s.driver in inst.drivers
    requires forall i :: 0 <= i < |visited| ==> s.route[i].location == visited[i].location && !s.route[i].layoverBefore
    requires driving == DrivenTo(inst, Stops(visited), |visited| - 1)
    ensures DrivingOk(inst, Recounted(inst, s)) <==> driving <= inst.drivers[s.driver].maxDriving
  {
    var counted, max := Recounted(inst, s), inst.drivers[s.driver].maxDriving;
    forall i | 0 <= i < |s.route|
      ensures counted.route[i].cumulatedDriving == DrivenTo(inst, Stops(visited), i) <= driving
    {
      RouteDrivenIsLabels(inst, visited, s.route, i);
      DrivenToGrows(inst, Stops(visited), i, |visited| - 1);
    }
    assert DrivingAt(counted, |visited| - 1) == driving;
  }

  // ---- the k-th visit to a location ----

  /** How often the first n stops are at l. */
  function VisitsBefore(stops: seq<nat>, l: nat, n: nat): nat
    requires n <= |stops|
  {
    if n == 0 then 0 else VisitsBefore(stops, l, n - 1) + if stops[n - 1] == l then 1 else 0
  }

  predicate IsKthVisit(stops: seq<nat>, l: nat, k: int, p: nat) {
    p < |stops| && stops[p] == l && VisitsBefore(stops, l, p) + 1 == k
  }

  lemma {:induction false} VisitsGrow(stops: seq<nat>, l: nat, m: nat, n: nat)
    requires m < n <= |stops| && stops[m] == l
    ensures VisitsBefore(stops, l, m) < VisitsBefore(stops, l, n)
    decreases n
  {
    if m < n - 1 {
      VisitsGrow(stops, l, m, n - 1);
    }
  }

  /** At most one stop is the k-th visit. */
  lemma KthVisitIsOne(stops: seq<nat>, l: nat, k: int, p: nat, q: nat)
    requires IsKthVisit(stops, l, k, p) && IsKthVisit(stops, l, k, q)
    ensures p == q
  {
    if p < q {
      VisitsGrow(stops, l, p, q);
    } else if q < p {
      VisitsGrow(stops, l, q, p);
    }
  }

  /** `k_position`: None unless there are k visits. */
  method KPosition(visited: seq<Visit>, l: nat, k: int) returns (pos: Option<nat>)
    ensures pos.Some? ==> IsKthVisit(Stops(visited), l, k, pos.value)
    ensures pos.None? <==> !(1 <= k <= VisitsBefore(Stops(visited), l, |visited|))
  {
    ghost var stops := Stops(visited);
    var th := 1;
    pos := None;
    for j := 0 to |visited|
      invariant th == VisitsBefore(stops, l, j) + 1
      invariant pos.Some? ==> IsKthVisit(stops, l, k, pos.value)
      invariant pos.None? <==> !(1 <= k < th)
    {
      if visited[j].location == l && th == k {
        pos := Some(j);
      }
      if visited[j].location == l {
        th := th + 1;
      }
    }
  }

  /** The loop of `to_solution` that gives the k-th visit its quantity. */
  method SetQuantity(ghost visited: seq<Visit>, route: seq<Stop>, l: nat, k: int, quantity: int)
    returns (result: seq<Stop>)
    requires |route| == |visited| && forall i :: 0 <= i < |route| ==> route[i].location == visited[i].location
    ensures |result| == |route|
    ensures forall p :: 0 <= p < |route| ==>
      result[p] == if IsKthVisit(Stops(visited), l, k, p) then route[p].(quantity := quantity) else route[p]
  {
    ghost var stops := Stops(visited);
    result := route;
    var th := 1;
    for j := 0 to |route|
      invariant |result| == |route| && th == VisitsBefore(stops, l, j) + 1
      invariant forall p :: 0 <= p < j ==>
        result[p] == if IsKthVisit(stops, l, k, p) then route[p].(quantity := quantity) else route[p]
      invariant forall p :: j <= p < |route| ==> result[p] == route[p]
    {
      var step := route[j];
      if step.location == l && th == k {
        result := result[j := step.(quantity := quantity)];
      }
      if step.location == l {
        th := th + 1;
      }
    }
  }
}
