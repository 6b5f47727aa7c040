/** The lists of violations that the checks of roadef/core/experiment.py return:
    what is in them, in which order, and when they are empty. */
module RoadefReports {
  import opened Wrappers
  import opened RoadefModel
  import opened RoadefChecker

  /** The dictionaries the checks append. */
  datatype Violation =
    | AtStop(shift: nat, location: nat)
    | QuantityAt(shift: nat, location: nat, quantity: int)
    | OverCapacity(shift: nat, location: nat, quantity: int, trailer: nat, capacity: int)
    | WrongStart(shift: nat, initialQuantity: int, lastFinal: int, trailer: nat)
    | WrongFinal(shift: nat, finalInventory: int, calculated: int)
    | ShortRest(shift: nat, lastShift: Option<nat>, driver: nat, duration: int, minimum: int)
    | Overlapping(shift: nat, lastShift: Option<nat>, trailer: nat)
    | Incompatible(shift: nat, trailer: nat, driver: nat)
    | TooLong(shift: nat, driver: nat, duration: int, maximum: int)

  // ---- checks of stops ----

  /** The checks that look at one stop after the other. */
  datatype Rule = Timeline | Setup | Overdrawn | Overfull | Sign

  predicate Breaks(inst: Instance, rule: Rule, s: Shift, k: nat)
    requires k < |s.route|
  {
    match rule
    case Timeline => s.driver in inst.drivers && !ReachedInTime(inst, s, k)
    case Setup => k < |s.route| - 1 && !SetUp(inst, s.route[k])
    case Overdrawn => StockAt(s, k + 1) < 0
    case Overfull => s.trailer in inst.trailers && StockAt(s, k + 1) > inst.trailers[s.trailer].capacity
    case Sign => !RightSign(inst, s.route[k])
  }

  function Report(inst: Instance, rule: Rule, s: Shift, k: nat): Violation
    requires k < |s.route| && Breaks(inst, rule, s, k)
  {
    match rule
    case Timeline => AtStop(s.id, s.route[k].location)
    case Setup => AtStop(s.id, s.route[k].location)
    case Overdrawn => QuantityAt(s.id, s.route[k].location, StockAt(s, k + 1))
    case Overfull =>
      OverCapacity(s.id, s.route[k].location, StockAt(s, k + 1), s.trailer, inst.trailers[s.trailer].capacity)
    case Sign => QuantityAt(s.id, s.route[k].location, s.route[k].quantity)
  }

  /** The reports of the first n stops. */
  function StopReports(inst: Instance, rule: Rule, s: Shift, n: nat): seq<Violation>
    requires n <= |s.route|
  {
    if n == 0 then []
    else
      StopReports(inst, rule, s, n - 1) + if Breaks(inst, rule, s, n - 1) then [Report(inst, rule, s, n - 1)] else []
  }

  function Reports(inst: Instance, rule: Rule, shifts: seq<Shift>): seq<Violation> {
    if shifts == [] then []
    else Reports(inst, rule, shifts[..|shifts| - 1]) + StopReports(inst, rule, Last(shifts), |Last(shifts).route|)
  }

  lemma {:induction false} ReportsOfMore(inst: Instance, rule: Rule, shifts: seq<Shift>, i: nat)
    requires i < |shifts|
    ensures Reports(inst, rule, shifts[..i + 1])
         == Reports(inst, rule, shifts[..i]) + StopReports(inst, rule, shifts[i], |shifts[i].route|)
  {
    FrontOfMore(shifts[..i], shifts[i]);
    assert shifts[..i + 1] == shifts[..i] + [shifts[i]];
  }

  /** A report is of a stop that breaks the rule. */
  ghost predicate IsReport(inst: Instance, rule: Rule, s: Shift, k: nat, v: Violation) {
    k < |s.route| && Breaks(inst, rule, s, k) && v == Report(inst, rule, s, k)
  }

  lemma {:induction false} StopReported(inst: Instance, rule: Rule, s: Shift, n: nat, v: Violation)
    requires n <= |s.route|
    ensures v in StopReports(inst, rule, s, n) <==> exists k: nat :: k < n && IsReport(inst, rule, s, k, v)
  {
    hide Breaks, Report;
    if n > 0 {
      StopReported(inst, rule, s, n - 1, v);
      assert IsReport(inst, rule, s, n - 1, v) <==>
        Breaks(inst, rule, s, n - 1) && v == Report(inst, rule, s, n - 1);
    }
  }

  /** Reported is exactly each stop that breaks the rule. */
  lemma {:induction false} Reported(inst: Instance, rule: Rule, shifts: seq<Shift>, v: Violation)
    ensures v in Reports(inst, rule, shifts) <==> exists s, k :: s in shifts && IsReport(inst, rule, s, k, v)
  {
    if shifts != [] {
      var front, last := shifts[..|shifts| - 1], Last(shifts);
      FrontAndLast(shifts);
      Reported(inst, rule, front, v);
      StopReported(inst, rule, last, |last.route|, v);
      assert forall s :: s in shifts <==> s in front || s == last;
      hide IsReport, StopReports;
    }
  }

  /** A place in a list of shifts: which shift, and which of its stops. */
  datatype Spot = Spot(shift: nat, stop: nat)

  predicate Precedes(a: Spot, b: Spot) {
    a.shift < b.shift || (a.shift == b.shift && a.stop < b.stop)
  }

  ghost predicate IsReportAt(inst: Instance, rule: Rule, shifts: seq<Shift>, spot: Spot, v: Violation) {
    spot.shift < |shifts| && IsReport(inst, rule, shifts[spot.shift], spot.stop, v)
  }

  /** One entry for each stop that breaks the rule, in the order of the list. */
  ghost predicate Lists(inst: Instance, rule: Rule, shifts: seq<Shift>, spots: seq<Spot>, check: seq<Violation>) {
    && |spots| == |check|
    && (forall n :: 0 <= n < |spots| ==> IsReportAt(inst, rule, shifts, spots[n], check[n]))
    && (forall m, n :: 0 <= m < n < |spots| ==> Precedes(spots[m], spots[n]))
    && forall i, k :: 0 <= i < |shifts| && 0 <= k < |shifts[i].route| && Breaks(inst, rule, shifts[i], k) ==>
         Spot(i, k) in spots
  }

  /** The same of the first n stops of one shift. */
  ghost predicate ListsStops(inst: Instance, rule: Rule, s: Shift, n: nat, at: seq<nat>, check: seq<Violation>)
    requires n <= |s.route|
  {
    && |at| == |check| && Increasing(at, n)
    && (forall m :: 0 <= m < |at| ==> IsReport(inst, rule, s, at[m], check[m]))
    && forall k :: 0 <= k < n && Breaks(inst, rule, s, k) ==> k in at
  }

  lemma {:induction false} StopsListed(inst: Instance, rule: Rule, s: Shift, n: nat) returns (at: seq<nat>)
    requires n <= |s.route|
    ensures ListsStops(inst, rule, s, n, at, StopReports(inst, rule, s, n))
  {
    hide Breaks, Report;
    at := [];
    if n > 0 {
      at := StopsListed(inst, rule, s, n - 1);
      IncreasingMore(at, n - 1);
      hide Increasing;
      if Breaks(inst, rule, s, n - 1) {
        at := at + [n - 1];
      }
    }
  }

  lemma {:induction false} AllListed(inst: Instance, rule: Rule, shifts: seq<Shift>) returns (spots: seq<Spot>)
    ensures Lists(inst, rule, shifts, spots, Reports(inst, rule, shifts))
  {
    spots := [];
    if shifts != [] {
      var front, last := shifts[..|shifts| - 1], Last(shifts);
      FrontAndLast(shifts);
      spots := AllListed(inst, rule, front);
      var at := StopsListed(inst, rule, last, |last.route|);
      ListsMore(inst, rule, front, spots, Reports(inst, rule, front), last, at,
                StopReports(inst, rule, last, |last.route|));
      spots := spots + SpotsOf(|front|, at);
      hide Lists, StopReports;
    }
  }

  function SpotsOf(shift: nat, at: seq<nat>): (spots: seq<Spot>)
    ensures |spots| == |at| && forall m :: 0 <= m < |at| ==> spots[m] == Spot(shift, at[m])
  {
    seq(|at|, m requires 0 <= m < |at| => Spot(shift, at[m]))
  }

  lemma {:induction false} ListsMore(
    inst: Instance, rule: Rule, front: seq<Shift>, spots: seq<Spot>, check: seq<Violation>,
    last: Shift, at: seq<nat>, more: seq<Violation>)
    requires Lists(inst, rule, front, spots, check) && ListsStops(inst, rule, last, |last.route|, at, more)
    ensures Lists(inst, rule, front + [last], spots + SpotsOf(|front|, at), check + more)
  {
    hide Breaks, IsReport, SpotsOf;
    var shifts, all := front + [last], spots + SpotsOf(|front|, at);
    assert forall i :: 0 <= i < |front| ==> shifts[i] == front[i];
    forall n | 0 <= n < |all| ensures IsReportAt(inst, rule, shifts, all[n], (check + more)[n]) {
      if n < |spots| {
        assert IsReportAt(inst, rule, front, spots[n], check[n]);
      }
    }
    forall m, n | 0 <= m < n < |all| ensures Precedes(all[m], all[n]) {
      assert m < |spots| ==> IsReportAt(inst, rule, front, spots[m], check[m]);
    }
    forall i, k | 0 <= i < |shifts| && 0 <= k < |shifts[i].route| && Breaks(inst, rule, shifts[i], k)
      ensures Spot(i, k) in all
    {
      if i == |front| {
        assert k in at;
        var m :| 0 <= m < |at| && at[m] == k;
        assert all[|spots| + m] == Spot(i, k);
      } else {
        assert Spot(i, k) in spots;
      }
    }
  }

  lemma {:induction false} NoReports(inst: Instance, rule: Rule, shifts: seq<Shift>)
    ensures Reports(inst, rule, shifts) == [] <==>
      forall i, k :: 0 <= i < |shifts| && 0 <= k < |shifts[i].route| ==> !Breaks(inst, rule, shifts[i], k)
  {
    var spots := AllListed(inst, rule, shifts);
    hide Breaks, Report, Reports;
    assert spots != [] ==> IsReportAt(inst, rule, shifts, spots[0], Reports(inst, rule, shifts)[0]);
  }

  /** The stop is reached before travel and layover allow. */
  ghost predicate IsLate(inst: Instance, shifts: seq<Shift>, s: Shift, k: nat, v: Violation) {
    && s in shifts && s.driver in inst.drivers && k < |s.route| && !ReachedInTime(inst, s, k)
    && v == AtStop(s.id, s.route[k].location)
  }

  lemma {:induction false} TimelineReports(inst: Instance, shifts: seq<Shift>)
    ensures forall v :: v in Reports(inst, Timeline, shifts) <==> exists s, k :: IsLate(inst, shifts, s, k, v)
  {
    hide ReachedInTime;
    forall v ensures v in Reports(inst, Timeline, shifts) <==> exists s, k :: IsLate(inst, shifts, s, k, v) {
      Reported(inst, Timeline, shifts, v);
      hide Reports;
      forall s, k: nat ensures IsLate(inst, shifts, s, k, v) <==> s in shifts && IsReport(inst, Timeline, s, k, v) {}
      hide IsLate, IsReport;
    }
  }

  lemma {:induction false} TimelineSilent(inst: Instance, shifts: seq<Shift>)
    requires AllKnown(inst, shifts)
    ensures Reports(inst, Timeline, shifts) == [] <==> forall i :: 0 <= i < |shifts| ==> TimelineOk(inst, shifts[i])
  {
    hide ReachedInTime;
    NoReports(inst, Timeline, shifts);
    hide Reports;
    forall i | 0 <= i < |shifts|
      ensures TimelineOk(inst, shifts[i])
         <==> forall k :: 0 <= k < |shifts[i].route| ==> !Breaks(inst, Timeline, shifts[i], k)
    {
      assert Known(inst, shifts[i]);
      forall k | 0 <= k < |shifts[i].route|
        ensures !Breaks(inst, Timeline, shifts[i], k) <==> ReachedInTime(inst, shifts[i], k)
      {
      }
    }
  }

  /** `check_c02_timeline` */
  method CheckTimeline(inst: Instance, shifts: seq<Shift>) returns (check: seq<Violation>)
    requires AllKnown(inst, shifts)
    ensures check == [] <==> forall i :: 0 <= i < |shifts| ==> TimelineOk(inst, shifts[i])
    ensures forall v :: v in check <==> exists s, k :: IsLate(inst, shifts, s, k, v)
    ensures exists spots :: Lists(inst, Timeline, shifts, spots, check)
  {
    check := [];
    for i := 0 to |shifts|
      invariant check == Reports(inst, Timeline, shifts[..i])
    {
      ReportsOfMore(inst, Timeline, shifts, i);
      hide Reports, StopReports;
      var stops := LateStops(inst, shifts[i]);
      check := check + stops;
    }
    assert shifts[..|shifts|] == shifts;
    hide *;
    ghost var spots := AllListed(inst, Timeline, shifts);
    TimelineReports(inst, shifts);
    TimelineSilent(inst, shifts);
  }

  /** The inner loop: the stops that are reached too early. */
  method LateStops(inst: Instance, shift: Shift) returns (check: seq<Violation>)
    requires Known(inst, shift)
    ensures check == StopReports(inst, Timeline, shift, |shift.route|)
  {
    check := [];
    var lastPoint, lastDeparture := BASE, shift.departureTime;
    for k := 0 to |shift.route|
      invariant k > 0 ==> lastPoint == shift.route[k - 1].location && lastDeparture == shift.route[k - 1].departure
      invariant k == 0 ==> lastPoint == BASE && lastDeparture == shift.departureTime
      invariant check == StopReports(inst, Timeline, shift, k)
    {
      var op := shift.route[k];
      var travelTime := inst.travel(lastPoint, op.location);
      var layover := if op.layoverBefore then inst.drivers[shift.driver].layoverDuration else 0;
      if op.arrival < lastDeparture + travelTime + layover {
        check := check + [AtStop(shift.id, op.location)];
      }
      lastPoint, lastDeparture := op.location, op.departure;
    }
  }

  /** The stop, not the last one, is left before its setup is over. */
  ghost predicate IsUnset(inst: Instance, shifts: seq<Shift>, s: Shift, k: nat, v: Violation) {
    && s in shifts && k < |s.route| - 1 && !SetUp(inst, s.route[k])
    && v == AtStop(s.id, s.route[k].location)
  }

  lemma {:induction false} SetupReports(inst: Instance, shifts: seq<Shift>)
    ensures forall v :: v in Reports(inst, Setup, shifts) <==> exists s, k :: IsUnset(inst, shifts, s, k, v)
  {
    hide SetUp;
    forall v ensures v in Reports(inst, Setup, shifts) <==> exists s, k :: IsUnset(inst, shifts, s, k, v) {
      Reported(inst, Setup, shifts, v);
      hide Reports;
      forall s, k: nat ensures IsUnset(inst, shifts, s, k, v) <==> s in shifts && IsReport(inst, Setup, s, k, v) {}
      hide IsUnset, IsReport;
    }
  }

  lemma {:induction false} SetupSilent(inst: Instance, shifts: seq<Shift>)
    ensures Reports(inst, Setup, shifts) == [] <==> forall i :: 0 <= i < |shifts| ==> SetupOk(inst, shifts[i])
  {
    hide SetUp;
    NoReports(inst, Setup, shifts);
    hide Reports;
    forall i | 0 <= i < |shifts|
      ensures SetupOk(inst, shifts[i])
         <==> forall k :: 0 <= k < |shifts[i].route| ==> !Breaks(inst, Setup, shifts[i], k)
    {
      forall k | 0 <= k < |shifts[i].route|
        ensures !Breaks(inst, Setup, shifts[i], k) <==> (k == |shifts[i].route| - 1 || SetUp(inst, shifts[i].route[k]))
      {
      }
    }
  }

  /** `check_c03_setup_time` */
  method CheckSetupTime(inst: Instance, shifts: seq<Shift>) returns (check: seq<Violation>)
    ensures check == [] <==> forall i :: 0 <= i < |shifts| ==> SetupOk(inst, shifts[i])
    ensures forall v :: v in check <==> exists s, k :: IsUnset(inst, shifts, s, k, v)
    ensures exists spots :: Lists(inst, Setup, shifts, spots, check)
  {
    check := [];
    for i := 0 to |shifts|
      invariant check == Reports(inst, Setup, shifts[..i])
    {
      ReportsOfMore(inst, Setup, shifts, i);
      hide Reports, StopReports;
      var stops := ShortSetups(inst, shifts[i]);
      check := check + stops;
    }
    assert shifts[..|shifts|] == shifts;
    hide *;
    ghost var spots := AllListed(inst, Setup, shifts);
    SetupReports(inst, shifts);
    SetupSilent(inst, shifts);
  }

  /** The inner loop, over all stops but the last. */
  method ShortSetups(inst: Instance, shift: Shift) returns (check: seq<Violation>)
    ensures check == StopReports(inst, Setup, shift, |shift.route|)
  {
    check := [];
    var route := shift.route;
    for k := 0 to if route == [] then 0 else |route| - 1
      invariant check == StopReports(inst, Setup, shift, k)
    {
      var op := route[k];
      if inst.IsValidLocation(op.location) {
        if op.location > 0 {
          if op.departure < op.arrival + inst.SetupTime(op.location) {
            check := check + [AtStop(shift.id, op.location)];
          }
        }
      }
    }
  }

  /** The trailer holds less than nothing after the stop. */
  ghost predicate IsOverdrawn(inst: Instance, shifts: seq<Shift>, s: Shift, k: nat, v: Violation) {
    && s in shifts && k < |s.route| && StockAt(s, k + 1) < 0
    && v == QuantityAt(s.id, s.route[k].location, StockAt(s, k + 1))
  }

  lemma {:induction false} OverdrawnReports(inst: Instance, shifts: seq<Shift>)
    ensures forall v :: v in Reports(inst, Overdrawn, shifts) <==> exists s, k :: IsOverdrawn(inst, shifts, s, k, v)
  {
    hide StockAt;
    forall v ensures v in Reports(inst, Overdrawn, shifts) <==> exists s, k :: IsOverdrawn(inst, shifts, s, k, v) {
      Reported(inst, Overdrawn, shifts, v);
      hide Reports;
      forall s, k: nat
        ensures IsOverdrawn(inst, shifts, s, k, v) <==> s in shifts && IsReport(inst, Overdrawn, s, k, v)
      {
      }
      hide IsOverdrawn, IsReport;
    }
  }

  lemma {:induction false} OverdrawnSilent(inst: Instance, shifts: seq<Shift>)
    ensures Reports(inst, Overdrawn, shifts) == [] <==> forall i :: 0 <= i < |shifts| ==> StockAtLeast(shifts[i], 0)
  {
    hide StockAt;
    NoReports(inst, Overdrawn, shifts);
    hide Reports;
    forall i | 0 <= i < |shifts|
      ensures StockAtLeast(shifts[i], 0)
         <==> forall k :: 0 <= k < |shifts[i].route| ==> !Breaks(inst, Overdrawn, shifts[i], k)
    {
      if forall k :: 0 <= k < |shifts[i].route| ==> !Breaks(inst, Overdrawn, shifts[i], k) {
        forall n | 0 < n <= |shifts[i].route| ensures 0 <= StockAt(shifts[i], n) {
          assert !Breaks(inst, Overdrawn, shifts[i], n - 1);
        }
      }
    }
  }

  /** `check_c_0607_inventory_trailer_negative` */
  method CheckTrailerNegative(inst: Instance, shifts: seq<Shift>) returns (check: seq<Violation>)
    ensures check == [] <==> forall i :: 0 <= i < |shifts| ==> StockAtLeast(shifts[i], 0)
    ensures forall v :: v in check <==> exists s, k :: IsOverdrawn(inst, shifts, s, k, v)
    ensures exists spots :: Lists(inst, Overdrawn, Sorted(shifts), spots, check)
  {
    var order := Sorted(shifts);
    hide Sorted;
    check := [];
    for i := 0 to |order|
      invariant check == Reports(inst, Overdrawn, order[..i])
    {
      ReportsOfMore(inst, Overdrawn, order, i);
      hide Reports, StopReports;
      var stops := NegativeStops(inst, order[i]);
      check := check + stops;
    }
    assert order[..|order|] == order;
    hide *;
    ghost var spots := AllListed(inst, Overdrawn, order);
    OverdrawnSorted(inst, shifts);
  }

  lemma {:induction false} OverdrawnSorted(inst: Instance, shifts: seq<Shift>)
    ensures var reports := Reports(inst, Overdrawn, Sorted(shifts));
      && (forall v :: v in reports <==> exists s, k :: IsOverdrawn(inst, shifts, s, k, v))
      && (reports == [] <==> forall i :: 0 <= i < |shifts| ==> StockAtLeast(shifts[i], 0))
  {
    SortedSameElements(shifts);
    SameForAll(Sorted(shifts), shifts, (s: Shift) => StockAtLeast(s, 0));
    hide Sorted, StockAt, Reports, StockAtLeast;
    OverdrawnReports(inst, Sorted(shifts));
    OverdrawnSilent(inst, Sorted(shifts));
    assert forall s, k, v :: IsOverdrawn(inst, Sorted(shifts), s, k, v) <==> IsOverdrawn(inst, shifts, s, k, v);
  }

  /** The inner loop: the stops that leave the trailer short. */
  method NegativeStops(inst: Instance, shift: Shift) returns (check: seq<Violation>)
    ensures check == StopReports(inst, Overdrawn, shift, |shift.route|)
  {
    check := [];
    var lastQuantity := shift.initialQuantity;
    for k := 0 to |shift.route|
      invariant lastQuantity == StockAt(shift, k)
      invariant check == StopReports(inst, Overdrawn, shift, k)
    {
      var quantity := lastQuantity + shift.route[k].quantity;
      if quantity < 0 {
        check := check + [QuantityAt(shift.id, shift.route[k].location, quantity)];
      }
      lastQuantity := quantity;
    }
  }

  /** It holds more than it may. */
  ghost predicate IsOverfull(inst: Instance, shifts: seq<Shift>, s: Shift, k: nat, v: Violation) {
    && s in shifts && s.trailer in inst.trailers
    && k < |s.route| && StockAt(s, k + 1) > inst.trailers[s.trailer].capacity
    && v == OverCapacity(s.id, s.route[k].location, StockAt(s, k + 1), s.trailer, inst.trailers[s.trailer].capacity)
  }

  lemma {:induction false} OverfullReports(inst: Instance, shifts: seq<Shift>)
    ensures forall v :: v in Reports(inst, Overfull, shifts) <==> exists s, k :: IsOverfull(inst, shifts, s, k, v)
  {
    hide StockAt;
    forall v ensures v in Reports(inst, Overfull, shifts) <==> exists s, k :: IsOverfull(inst, shifts, s, k, v) {
      Reported(inst, Overfull, shifts, v);
      hide Reports;
      forall s, k: nat
        ensures IsOverfull(inst, shifts, s, k, v) <==> s in shifts && IsReport(inst, Overfull, s, k, v)
      {
      }
      hide IsOverfull, IsReport;
    }
  }

  lemma {:induction false} OverfullSilent(inst: Instance, shifts: seq<Shift>)
    requires AllKnown(inst, shifts)
    ensures Reports(inst, Overfull, shifts) == [] <==> forall i :: 0 <= i < |shifts| ==> WithinCapacity(inst, shifts[i])
  {
    hide StockAt;
    NoReports(inst, Overfull, shifts);
    hide Reports;
    forall i | 0 <= i < |shifts|
      ensures WithinCapacity(inst, shifts[i])
         <==> forall k :: 0 <= k < |shifts[i].route| ==> !Breaks(inst, Overfull, shifts[i], k)
    {
      assert Known(inst, shifts[i]);
      if forall k :: 0 <= k < |shifts[i].route| ==> !Breaks(inst, Overfull, shifts[i], k) {
        forall n | 0 < n <= |shifts[i].route|
          ensures StockAt(shifts[i], n) <= inst.trailers[shifts[i].trailer].capacity
        {
          assert !Breaks(inst, Overfull, shifts[i], n - 1);
        }
      }
    }
  }

  /** `check_c_0607_inventory_trailer_above_capacity` */
  method CheckTrailerAboveCapacity(inst: Instance, shifts: seq<Shift>) returns (check: seq<Violation>)
    requires AllKnown(inst, shifts)
    ensures check == [] <==> forall i :: 0 <= i < |shifts| ==> WithinCapacity(inst, shifts[i])
    ensures forall v :: v in check <==> exists s, k :: IsOverfull(inst, shifts, s, k, v)
    ensures exists spots :: Lists(inst, Overfull, Sorted(shifts), spots, check)
  {
    SortedKnown(inst, shifts);
    var order := Sorted(shifts);
    hide Sorted;
    check := [];
    for i := 0 to |order|
      invariant check == Reports(inst, Overfull, order[..i])
    {
      ReportsOfMore(inst, Overfull, order, i);
      hide Reports, StopReports;
      var stops := FullStops(inst, order[i]);
      check := check + stops;
    }
    assert order[..|order|] == order;
    hide *;
    ghost var spots := AllListed(inst, Overfull, order);
    OverfullSorted(inst, shifts);
  }

  lemma {:induction false} OverfullSorted(inst: Instance, shifts: seq<Shift>)
    requires AllKnown(inst, shifts)
    ensures var reports := Reports(inst, Overfull, Sorted(shifts));
      && (forall v :: v in reports <==> exists s, k :: IsOverfull(inst, shifts, s, k, v))
      && (reports == [] <==> forall i :: 0 <= i < |shifts| ==> WithinCapacity(inst, shifts[i]))
  {
    SortedSameElements(shifts);
    SameForAll(Sorted(shifts), shifts, (s: Shift) => WithinCapacity(inst, s));
    SortedKnown(inst, shifts);
    hide Sorted, StockAt, Reports, WithinCapacity;
    OverfullReports(inst, Sorted(shifts));
    OverfullSilent(inst, Sorted(shifts));
    assert forall s, k, v :: IsOverfull(inst, Sorted(shifts), s, k, v) <==> IsOverfull(inst, shifts, s, k, v);
  }

  /** The inner loop: the stops that leave the trailer too full. */
  method FullStops(inst: Instance, shift: Shift) returns (check: seq<Violation>)
    requires Known(inst, shift)
    ensures check == StopReports(inst, Overfull, shift, |shift.route|)
  {
    check := [];
    var capacity := inst.trailers[shift.trailer].capacity;
    var lastQuantity := shift.initialQuantity;
    for k := 0 to |shift.route|
      invariant lastQuantity == StockAt(shift, k)
      invariant check == StopReports(inst, Overfull, shift, k)
    {
      var quantity := lastQuantity + shift.route[k].quantity;
      if quantity > capacity {
        check := check + [OverCapacity(shift.id, shift.route[k].location, quantity, shift.trailer, capacity)];
      }
      lastQuantity := quantity;
    }
  }

  /** A source takes, or a customer gives. */
  ghost predicate IsWrongSign(inst: Instance, shifts: seq<Shift>, s: Shift, k: nat, v: Violation) {
    && s in shifts && k < |s.route| && !RightSign(inst, s.route[k])
    && v == QuantityAt(s.id, s.route[k].location, s.route[k].quantity)
  }

  lemma {:induction false} SignReports(inst: Instance, shifts: seq<Shift>)
    ensures forall v :: v in Reports(inst, Sign, shifts) <==> exists s, k :: IsWrongSign(inst, shifts, s, k, v)
  {
    hide RightSign;
    forall v ensures v in Reports(inst, Sign, shifts) <==> exists s, k :: IsWrongSign(inst, shifts, s, k, v) {
      Reported(inst, Sign, shifts, v);
      hide Reports;
      forall s, k: nat ensures IsWrongSign(inst, shifts, s, k, v) <==> s in shifts && IsReport(inst, Sign, s, k, v) {}
      hide IsWrongSign, IsReport;
    }
  }

  lemma {:induction false} SignSilent(inst: Instance, shifts: seq<Shift>)
    ensures Reports(inst, Sign, shifts) == [] <==> forall i :: 0 <= i < |shifts| ==> SignsOk(inst, shifts[i])
  {
    hide RightSign;
    NoReports(inst, Sign, shifts);
    hide Reports;
    forall i | 0 <= i < |shifts|
      ensures SignsOk(inst, shifts[i])
         <==> forall k :: 0 <= k < |shifts[i].route| ==> !Breaks(inst, Sign, shifts[i], k)
    {
      forall k | 0 <= k < |shifts[i].route|
        ensures !Breaks(inst, Sign, shifts[i], k) <==> RightSign(inst, shifts[i].route[k])
      {
      }
    }
  }

  /** `check_c_11_quantity_delivered` */
  method CheckQuantityDelivered(inst: Instance, shifts: seq<Shift>) returns (check: seq<Violation>)
    ensures check == [] <==> forall i :: 0 <= i < |shifts| ==> SignsOk(inst, shifts[i])
    ensures forall v :: v in check <==> exists s, k :: IsWrongSign(inst, shifts, s, k, v)
    ensures exists spots :: Lists(inst, Sign, shifts, spots, check)
  {
    check := [];
    for i := 0 to |shifts|
      invariant check == Reports(inst, Sign, shifts[..i])
    {
      ReportsOfMore(inst, Sign, shifts, i);
      hide Reports, StopReports;
      var stops := WrongSigns(inst, shifts[i]);
      check := check + stops;
    }
    assert shifts[..|shifts|] == shifts;
    hide *;
    ghost var spots := AllListed(inst, Sign, shifts);
    SignReports(inst, shifts);
    SignSilent(inst, shifts);
  }

  /** The inner loop, counting stops from 1. */
  method WrongSigns(inst: Instance, shift: Shift) returns (check: seq<Violation>)
    ensures check == StopReports(inst, Sign, shift, |shift.route|)
  {
    check := [];
    for i := 1 to |shift.route| + 1
      invariant check == StopReports(inst, Sign, shift, i - 1)
    {
      var op := shift.route[i - 1];
      if (inst.IsSource(op.location) && op.quantity < 0) || (inst.IsCustomer(op.location) && op.quantity > 0) {
        check := check + [QuantityAt(shift.id, op.location, op.quantity)];
      }
    }
  }

  // ---- checks of shifts ----

  /** The checks that look at one shift after the other, in order of departure:
      initial stock, rest of the driver, overlap on the trailer, compatibility and
      driving time. */
  datatype ShiftRule = Follows(link: Link) | Pairing | Driving

  /** The last driving time of the first n stops that is too long. */
  function LastOver(s: Shift, max: int, n: nat): (over: Option<int>)
    requires n <= |s.route|
  {
    if n == 0 then None
    else if DrivingAt(s, n - 1) > max then Some(DrivingAt(s, n - 1))
    else LastOver(s, max, n - 1)
  }

  /** Whether the shift breaks the rule after the ones before it. */
  predicate ShiftBreaks(inst: Instance, rule: ShiftRule, before: seq<Shift>, s: Shift)
    requires Known(inst, s)
  {
    match rule
    case Follows(link) => !MayFollow(inst, link, Latest(before, link, KeyOf(link, s)), s)
    case Pairing => !Compatible(inst, s)
    case Driving => LastOver(s, inst.drivers[s.driver].maxDriving, |s.route|).Some?
  }

  function ShiftReport(inst: Instance, rule: ShiftRule, before: seq<Shift>, s: Shift): Violation
    requires Known(inst, s) && ShiftBreaks(inst, rule, before, s)
  {
    match rule
    case Follows(Stock) => WrongStart(s.id, s.initialQuantity, StockAfter(inst, before, s.trailer), s.trailer)
    case Follows(Rest) =>
      ShortRest(s.id, LatestId(before, Rest, s.driver), s.driver, s.departureTime - EndAfter(before, Rest, s.driver),
                inst.drivers[s.driver].minInterShift)
    case Follows(Overlap) => Overlapping(s.id, LatestId(before, Overlap, s.trailer), s.trailer)
    case Pairing => Incompatible(s.id, s.trailer, s.driver)
    case Driving =>
      var max := inst.drivers[s.driver].maxDriving;
      TooLong(s.id, s.driver, LastOver(s, max, |s.route|).value, max)
  }

  /** `last_shift_driver.get(driver)` and the like. */
  function LatestId(before: seq<Shift>, link: Link, key: nat): Option<nat> {
    match Latest(before, link, key)
    case None => None
    case Some(shift) => Some(shift.id)
  }

  ghost predicate IsShiftReport(inst: Instance, rule: ShiftRule, before: seq<Shift>, s: Shift, v: Violation) {
    Known(inst, s) && ShiftBreaks(inst, rule, before, s) && v == ShiftReport(inst, rule, before, s)
  }

  function ShiftReports(inst: Instance, rule: ShiftRule, order: seq<Shift>): seq<Violation>
    requires forall s :: s in order ==> Known(inst, s)
  {
    if order == [] then []
    else
      var before, s := order[..|order| - 1], Last(order);
      ShiftReports(inst, rule, before)
      + if ShiftBreaks(inst, rule, before, s) then [ShiftReport(inst, rule, before, s)] else []
  }

  lemma {:induction false} ShiftReportsOfMore(inst: Instance, rule: ShiftRule, order: seq<Shift>, i: nat)
    requires i < |order| && forall s :: s in order ==> Known(inst, s)
    ensures forall s :: s in order[..i + 1] ==> Known(inst, s)
    ensures ShiftReports(inst, rule, order[..i + 1]) == ShiftReports(inst, rule, order[..i])
      + if ShiftBreaks(inst, rule, order[..i], order[i]) then [ShiftReport(inst, rule, order[..i], order[i])] else []
  {
    hide ShiftBreaks, ShiftReport;
    FrontOfMore(order[..i], order[i]);
    assert order[..i + 1] == order[..i] + [order[i]];
  }

  /** One entry for each shift that breaks the rule, in their order. */
  ghost predicate ListsShifts(inst: Instance, rule: ShiftRule, order: seq<Shift>, at: seq<nat>, check: seq<Violation>) {
    && |at| == |check| && Increasing(at, |order|)
    && (forall m :: 0 <= m < |at| ==> IsShiftReport(inst, rule, order[..at[m]], order[at[m]], check[m]))
    && forall i ::
         0 <= i < |order| && Known(inst, order[i]) && ShiftBreaks(inst, rule, order[..i], order[i]) ==> i in at
  }

  lemma {:induction false} ListsShiftsMore(
    inst: Instance, rule: ShiftRule, order: seq<Shift>, at: seq<nat>, check: seq<Violation>, s: Shift)
    requires ListsShifts(inst, rule, order, at, check) && Known(inst, s)
    ensures if ShiftBreaks(inst, rule, order, s)
      then ListsShifts(inst, rule, order + [s], at + [|order|], check + [ShiftReport(inst, rule, order, s)])
      else ListsShifts(inst, rule, order + [s], at, check)
  {
    hide ShiftBreaks, ShiftReport, Known;
    IncreasingMore(at, |order|);
    var more := order + [s];
    assert forall m :: 0 <= m < |at| ==> at[m] < |order|;
    hide Increasing;
    forall i | 0 <= i < |order| ensures more[..i] == order[..i] && more[i] == order[i] {}
    assert more[..|order|] == order && more[|order|] == s;
  }

  lemma NoneListed(inst: Instance, rule: ShiftRule, order: seq<Shift>)
    requires order == []
    ensures ListsShifts(inst, rule, order, [], [])
  {
    hide ShiftBreaks, ShiftReport, Known;
    assert Increasing([], |order|);
  }

  lemma {:induction false} ShiftsListed(inst: Instance, rule: ShiftRule, order: seq<Shift>) returns (at: seq<nat>)
    requires forall s :: s in order ==> Known(inst, s)
    ensures ListsShifts(inst, rule, order, at, ShiftReports(inst, rule, order))
  {
    hide ShiftBreaks, ShiftReport, Known, ListsShifts;
    at := [];
    if order == [] {
      NoneListed(inst, rule, order);
    } else {
      var front, last := order[..|order| - 1], Last(order);
      FrontAndLast(order);
      at := ShiftsListed(inst, rule, front);
      var check := ShiftReports(inst, rule, front);
      ListsShiftsMore(inst, rule, front, at, check, last);
      assert check + [] == check;
      if ShiftBreaks(inst, rule, front, last) {
        at := at + [|front|];
      }
    }
  }

  lemma {:induction false} ShiftReported(inst: Instance, rule: ShiftRule, order: seq<Shift>, v: Violation)
    requires forall s :: s in order ==> Known(inst, s)
    ensures v in ShiftReports(inst, rule, order)
       <==> exists i :: 0 <= i < |order| && IsShiftReport(inst, rule, order[..i], order[i], v)
  {
    var at := ShiftsListed(inst, rule, order);
    var check := ShiftReports(inst, rule, order);
    hide ShiftBreaks, ShiftReport, Known, ShiftReports;
    if v in check {
      var m :| 0 <= m < |check| && check[m] == v;
      assert IsShiftReport(inst, rule, order[..at[m]], order[at[m]], v);
    }
    if i :| 0 <= i < |order| && IsShiftReport(inst, rule, order[..i], order[i], v) {
      assert i in at;
      var m :| 0 <= m < |at| && at[m] == i;
      assert IsShiftReport(inst, rule, order[..i], order[i], check[m]);
    }
  }

  lemma {:induction false} LinkedIffNone(inst: Instance, link: Link, order: seq<Shift>)
    requires forall s :: s in order ==> Known(inst, s)
    ensures Linked(inst, link, order) <==> ShiftReports(inst, Follows(link), order) == []
  {
    hide MayFollow, Latest;
    if order != [] {
      LinkedIffNone(inst, link, order[..|order| - 1]);
    }
  }

  lemma {:induction false} KnownSorted(inst: Instance, shifts: seq<Shift>)
    requires AllKnown(inst, shifts)
    ensures forall s :: s in Sorted(shifts) ==> Known(inst, s)
  {
    SortedKnown(inst, shifts);
    hide Sorted;
  }

  /** The trailer starts with something else than it was left with. */
  ghost predicate IsWrongStart(inst: Instance, order: seq<Shift>, i: nat, v: Violation) {
    && i < |order| && order[i].trailer in inst.trailers
    && order[i].initialQuantity != StockAfter(inst, order[..i], order[i].trailer)
    && v == WrongStart(order[i].id, order[i].initialQuantity,
                       StockAfter(inst, order[..i], order[i].trailer), order[i].trailer)
  }

  /** The shift listed last before with the same key. */
  ghost predicate Precedent(order: seq<Shift>, i: nat, link: Link, prev: Shift) {
    i < |order| && Latest(order[..i], link, KeyOf(link, order[i])) == Some(prev)
  }

  /** The driver has not rested since the shift before; an end at time 0 counts as
      none. */
  ghost predicate IsShortRest(inst: Instance, order: seq<Shift>, i: nat, prev: Shift, v: Violation) {
    && Precedent(order, i, Rest, prev) && order[i].driver in inst.drivers && End(prev) != 0
    && order[i].departureTime - End(prev) < inst.drivers[order[i].driver].minInterShift
    && v == ShortRest(order[i].id, Some(prev.id), order[i].driver, order[i].departureTime - End(prev),
                      inst.drivers[order[i].driver].minInterShift)
  }

  /** The shift starts before the trailer's shift before has ended. */
  ghost predicate IsOverlap(order: seq<Shift>, i: nat, prev: Shift, v: Violation) {
    && Precedent(order, i, Overlap, prev) && End(prev) != 0 && order[i].departureTime < End(prev)
    && v == Overlapping(order[i].id, Some(prev.id), order[i].trailer)
  }

  ghost predicate IsIncompatible(inst: Instance, shifts: seq<Shift>, s: Shift, v: Violation) {
    && s in shifts && s.driver in inst.drivers && s.trailer !in inst.drivers[s.driver].trailers
    && v == Incompatible(s.id, s.trailer, s.driver)
  }

  lemma StartReport(inst: Instance, order: seq<Shift>, i: nat, v: Violation)
    requires i < |order| && Known(inst, order[i])
    ensures IsShiftReport(inst, Follows(Stock), order[..i], order[i], v) <==> IsWrongStart(inst, order, i, v)
  {
    hide Latest, FinalStock;
  }

  lemma RestReport(inst: Instance, order: seq<Shift>, i: nat, v: Violation)
    requires i < |order| && Known(inst, order[i])
    ensures IsShiftReport(inst, Follows(Rest), order[..i], order[i], v) <==>
      exists prev :: IsShortRest(inst, order, i, prev, v)
  {
    hide Latest, End;
    var prev := Latest(order[..i], Rest, order[i].driver);
    if prev.Some? {
      assert Precedent(order, i, Rest, prev.value);
      assert forall p :: Precedent(order, i, Rest, p) ==> p == prev.value;
      assert IsShortRest(inst, order, i, prev.value, v)
        <==> IsShiftReport(inst, Follows(Rest), order[..i], order[i], v);
    }
  }

  lemma OverlapReport(inst: Instance, order: seq<Shift>, i: nat, v: Violation)
    requires i < |order| && Known(inst, order[i])
    ensures IsShiftReport(inst, Follows(Overlap), order[..i], order[i], v) <==>
      exists prev :: IsOverlap(order, i, prev, v)
  {
    hide Latest, End;
    var prev := Latest(order[..i], Overlap, order[i].trailer);
    if prev.Some? {
      assert Precedent(order, i, Overlap, prev.value);
      assert forall p :: Precedent(order, i, Overlap, p) ==> p == prev.value;
      assert IsOverlap(order, i, prev.value, v) <==> IsShiftReport(inst, Follows(Overlap), order[..i], order[i], v);
    }
  }

  lemma {:induction false} StartReports(inst: Instance, order: seq<Shift>)
    requires forall s :: s in order ==> Known(inst, s)
    ensures forall v :: v in ShiftReports(inst, Follows(Stock), order) <==> exists i :: IsWrongStart(inst, order, i, v)
  {
    hide ShiftReports, IsShiftReport, IsWrongStart, Known;
    forall v ensures v in ShiftReports(inst, Follows(Stock), order) <==> exists i :: IsWrongStart(inst, order, i, v) {
      ShiftReported(inst, Follows(Stock), order, v);
      forall i: nat
        ensures IsWrongStart(inst, order, i, v)
           <==> i < |order| && IsShiftReport(inst, Follows(Stock), order[..i], order[i], v)
      {
        if i < |order| {
          StartReport(inst, order, i, v);
        } else {
          NoReportBeyond(inst, order, i, v);
        }
      }
    }
  }

  lemma NoReportBeyond(inst: Instance, order: seq<Shift>, i: nat, v: Violation)
    requires i >= |order|
    ensures !IsWrongStart(inst, order, i, v)
    ensures forall prev :: !IsShortRest(inst, order, i, prev, v) && !IsOverlap(order, i, prev, v)
  {
  }

  lemma {:induction false} RestReports(inst: Instance, order: seq<Shift>)
    requires forall s :: s in order ==> Known(inst, s)
    ensures forall v :: v in ShiftReports(inst, Follows(Rest), order)
                   <==> exists i, prev :: IsShortRest(inst, order, i, prev, v)
  {
    hide ShiftReports, IsShiftReport, IsShortRest, Known;
    forall v ensures v in ShiftReports(inst, Follows(Rest), order)
                <==> exists i, prev :: IsShortRest(inst, order, i, prev, v)
    {
      ShiftReported(inst, Follows(Rest), order, v);
      if v in ShiftReports(inst, Follows(Rest), order) {
        var i :| 0 <= i < |order| && IsShiftReport(inst, Follows(Rest), order[..i], order[i], v);
        RestReport(inst, order, i, v);
      }
      if i: nat, prev :| IsShortRest(inst, order, i, prev, v) {
        if i >= |order| {
          NoReportBeyond(inst, order, i, v);
        }
        RestReport(inst, order, i, v);
      }
    }
  }

  lemma {:induction false} OverlapReports(inst: Instance, order: seq<Shift>)
    requires forall s :: s in order ==> Known(inst, s)
    ensures forall v :: v in ShiftReports(inst, Follows(Overlap), order)
                   <==> exists i, prev :: IsOverlap(order, i, prev, v)
  {
    hide ShiftReports, IsShiftReport, IsOverlap, Known;
    forall v
      ensures v in ShiftReports(inst, Follows(Overlap), order) <==> exists i, prev :: IsOverlap(order, i, prev, v)
    {
      ShiftReported(inst, Follows(Overlap), order, v);
      if v in ShiftReports(inst, Follows(Overlap), order) {
        var i :| 0 <= i < |order| && IsShiftReport(inst, Follows(Overlap), order[..i], order[i], v);
        OverlapReport(inst, order, i, v);
      }
      if i: nat, prev :| IsOverlap(order, i, prev, v) {
        if i >= |order| {
          NoReportBeyond(inst, order, i, v);
        }
        OverlapReport(inst, order, i, v);
      }
    }
  }

  lemma {:induction false} PairingReports(inst: Instance, shifts: seq<Shift>)
    requires AllKnown(inst, shifts)
    ensures forall s :: s in Sorted(shifts) ==> Known(inst, s)
    ensures forall v :: v in ShiftReports(inst, Pairing, Sorted(shifts)) <==>
      exists s :: IsIncompatible(inst, shifts, s, v)
    ensures ShiftReports(inst, Pairing, Sorted(shifts)) == [] <==>
      forall i :: 0 <= i < |shifts| ==> Compatible(inst, shifts[i])
  {
    KnownSorted(inst, shifts);
    SortedSameElements(shifts);
    hide Sorted, ShiftReports, Known;
    var order := Sorted(shifts);
    var check := ShiftReports(inst, Pairing, order);
    forall v ensures v in check <==> exists s :: IsIncompatible(inst, shifts, s, v) {
      ShiftReported(inst, Pairing, order, v);
      forall i | 0 <= i < |order|
        ensures IsShiftReport(inst, Pairing, order[..i], order[i], v) <==> IsIncompatible(inst, shifts, order[i], v)
      {
        assert order[i] in order;
        KnownMeans(inst, order[i]);
      }
      forall s | IsIncompatible(inst, shifts, s, v) ensures exists i :: 0 <= i < |order| && order[i] == s {
        assert s in order;
      }
      hide IsShiftReport, IsIncompatible;
    }
    forall i | 0 <= i < |shifts| && !Compatible(inst, shifts[i]) ensures check != [] {
      var s := shifts[i];
      assert s in order;
      KnownMeans(inst, s);
      var v := Incompatible(s.id, s.trailer, s.driver);
      assert IsIncompatible(inst, shifts, s, v);
      assert v in check;
    }
    assert check != [] ==> check[0] in check;
  }

  lemma KnownMeans(inst: Instance, s: Shift)
    requires Known(inst, s)
    ensures s.driver in inst.drivers && s.trailer in inst.trailers && s.route != []
  {
  }

  lemma StartsWrong(inst: Instance, before: seq<Shift>, s: Shift)
    requires Known(inst, s)
    ensures ShiftBreaks(inst, Follows(Stock), before, s) <==> s.initialQuantity != StockAfter(inst, before, s.trailer)
  {
    hide Latest;
  }

  lemma {:induction false} RestsShort(inst: Instance, order: seq<Shift>, i: nat)
    requires i < |order| && forall s :: s in order ==> Known(inst, s)
    ensures forall s :: s in order[..i + 1] ==> Known(inst, s)
    ensures Known(inst, order[i])
    ensures var s := order[i];
      var duration := s.departureTime - EndAfter(order[..i], Rest, s.driver);
      var minimum := inst.drivers[s.driver].minInterShift;
      ShiftReports(inst, Follows(Rest), order[..i + 1]) == ShiftReports(inst, Follows(Rest), order[..i])
        + if EndAfter(order[..i], Rest, s.driver) != 0 && duration < minimum
          then [ShortRest(s.id, LatestId(order[..i], Rest, s.driver), s.driver, duration, minimum)] else []
  {
    hide ShiftReports, Latest, End;
    ShiftReportsOfMore(inst, Follows(Rest), order, i);
    KnownMeans(inst, order[i]);
  }

  lemma {:induction false} StartsEarly(inst: Instance, order: seq<Shift>, i: nat)
    requires i < |order| && forall s :: s in order ==> Known(inst, s)
    ensures forall s :: s in order[..i + 1] ==> Known(inst, s)
    ensures var s := order[i];
      var end := EndAfter(order[..i], Overlap, s.trailer);
      ShiftReports(inst, Follows(Overlap), order[..i + 1]) == ShiftReports(inst, Follows(Overlap), order[..i])
        + if end != 0 && s.departureTime < end
          then [Overlapping(s.id, LatestId(order[..i], Overlap, s.trailer), s.trailer)] else []
  {
    hide ShiftReports, Latest, End;
    ShiftReportsOfMore(inst, Follows(Overlap), order, i);
  }

  lemma StockAfterMore(inst: Instance, order: seq<Shift>, i: nat)
    requires i < |order|
    ensures forall t :: t in inst.trailers ==>
      StockAfter(inst, order[..i + 1], t)
        == if t == order[i].trailer then FinalStock(order[i]) else StockAfter(inst, order[..i], t)
  {
    hide Latest, Linked;
    assert order[..i + 1] == order[..i] + [order[i]];
    LinkedOfMore(inst, Stock, order[..i], order[i]);
  }

  lemma {:induction false} LatestOfMore(order: seq<Shift>, i: nat, link: Link, key: nat)
    requires i < |order|
    ensures Latest(order[..i + 1], link, key)
         == if key == KeyOf(link, order[i]) then Some(order[i]) else Latest(order[..i], link, key)
  {
    assert order[..i + 1][..i] == order[..i];
  }

  lemma EndAfterMore(inst: Instance, order: seq<Shift>, i: nat, link: Link)
    requires i < |order|
    ensures forall key: nat ::
      EndAfter(order[..i + 1], link, key)
        == if key == KeyOf(link, order[i]) then End(order[i]) else EndAfter(order[..i], link, key)
    ensures forall key: nat ::
      LatestId(order[..i + 1], link, key)
        == if key == KeyOf(link, order[i]) then Some(order[i].id) else LatestId(order[..i], link, key)
  {
    hide Latest, End;
    forall key: nat
      ensures EndAfter(order[..i + 1], link, key)
           == if key == KeyOf(link, order[i]) then End(order[i]) else EndAfter(order[..i], link, key)
    {
      LatestOfMore(order, i, link, key);
    }
    forall key: nat
      ensures LatestId(order[..i + 1], link, key)
           == if key == KeyOf(link, order[i]) then Some(order[i].id) else LatestId(order[..i], link, key)
    {
      LatestOfMore(order, i, link, key);
    }
  }

  /** The loops' tables: where the listed shifts end, and the last one's id. */
  ghost predicate Tracks(
    ends: map<nat, int>, lastShift: map<nat, nat>, keys: set<nat>, link: Link, before: seq<Shift>)
  {
    && ends.Keys == keys && (forall key :: key in keys ==> ends[key] == EndAfter(before, link, key))
    && forall key: nat ::
         LatestId(before, link, key) == if key in lastShift then Some(lastShift[key]) else None
  }

  lemma {:induction false} TracksMore(
    inst: Instance, ends: map<nat, int>, lastShift: map<nat, nat>, keys: set<nat>, link: Link, order: seq<Shift>,
    i: nat)
    requires i < |order| && Tracks(ends, lastShift, keys, link, order[..i]) && KeyOf(link, order[i]) in keys
    ensures var key := KeyOf(link, order[i]);
      Tracks(ends[key := End(order[i])], lastShift[key := order[i].id], keys, link, order[..i + 1])
  {
    EndAfterMore(inst, order, i, link);
    hide EndAfter, LatestId, End, KeyOf;
  }

  lemma TracksNothing(ends: map<nat, int>, keys: set<nat>, link: Link)
    requires ends.Keys == keys && forall key :: key in keys ==> ends[key] == 0
    ensures Tracks(ends, map[], keys, link, [])
  {
  }

  /** `check_c_0607_inventory_trailer_initial_inventory` */
  method CheckInitialInventory(inst: Instance, shifts: seq<Shift>) returns (check: seq<Violation>)
    requires AllKnown(inst, shifts)
    ensures check == [] <==> Linked(inst, Stock, Sorted(shifts))
    ensures forall v :: v in check <==> exists i :: IsWrongStart(inst, Sorted(shifts), i, v)
    ensures exists at :: ListsShifts(inst, Follows(Stock), Sorted(shifts), at, check)
  {
    KnownSorted(inst, shifts);
    hide Sorted;
    var order := Sorted(shifts);
    var lastQuantity := map t | t in inst.trailers :: inst.trailers[t].initialQuantity;
    check := [];
    for i := 0 to |order|
      invariant lastQuantity.Keys == inst.trailers.Keys
      invariant forall t :: t in inst.trailers ==> lastQuantity[t] == StockAfter(inst, order[..i], t)
      invariant forall s :: s in order[..i] ==> Known(inst, s)
      invariant check == ShiftReports(inst, Follows(Stock), order[..i])
    {
      var shift := order[i];
      ShiftReportsOfMore(inst, Follows(Stock), order, i);
      StockAfterMore(inst, order, i);
      StartsWrong(inst, order[..i], shift);
      hide ShiftReports, ShiftBreaks, StockAfter;
      var quantity := RouteTotal(shift);
      if lastQuantity[shift.trailer] != shift.initialQuantity {
        check := check + [WrongStart(shift.id, shift.initialQuantity, lastQuantity[shift.trailer], shift.trailer)];
      }
      lastQuantity := lastQuantity[shift.trailer := quantity];
    }
    assert order[..|order|] == order;
    hide *;
    LinkedIffNone(inst, Stock, order);
    ghost var at := ShiftsListed(inst, Follows(Stock), order);
    StartReports(inst, order);
  }

  /** The inner loop: what the shift leaves on the trailer. */
  method RouteTotal(shift: Shift) returns (quantity: int)
    ensures quantity == FinalStock(shift)
  {
    quantity := shift.initialQuantity;
    for j := 0 to |shift.route|
      invariant quantity == shift.initialQuantity + Carried(shift.route, j)
    {
      quantity := quantity + shift.route[j].quantity;
    }
  }

  /** `check_res_dr_01_intershift` */
  method CheckIntershift(inst: Instance, shifts: seq<Shift>) returns (check: seq<Violation>)
    requires AllKnown(inst, shifts)
    ensures check == [] <==> Linked(inst, Rest, Sorted(shifts))
    ensures forall v :: v in check <==> exists i, prev :: IsShortRest(inst, Sorted(shifts), i, prev, v)
    ensures exists at :: ListsShifts(inst, Follows(Rest), Sorted(shifts), at, check)
  {
    KnownSorted(inst, shifts);
    hide IsShortRest, ListsShifts, Linked, Increasing, Sorted, End, MayFollow, StockAfter, LastOver, Compatible;
    var order := Sorted(shifts);
    var ends := map d | d in inst.drivers :: 0;
    var lastShift: map<nat, nat> := map[];
    check := [];
    TracksNothing(ends, inst.drivers.Keys, Rest);
    for i := 0 to |order|
      invariant Tracks(ends, lastShift, inst.drivers.Keys, Rest, order[..i])
      invariant forall s :: s in order[..i] ==> Known(inst, s)
      invariant check == ShiftReports(inst, Follows(Rest), order[..i])
    {
      var shift := order[i];
      KnownMeans(inst, shift);
      RestsShort(inst, order, i);
      assert ends.Keys == inst.drivers.Keys && ends[shift.driver] == EndAfter(order[..i], Rest, shift.driver);
      TracksMore(inst, ends, lastShift, inst.drivers.Keys, Rest, order, i);
      hide Known, ShiftReports, EndAfter, Tracks;
      var duration, minimum := shift.departureTime - ends[shift.driver], inst.drivers[shift.driver].minInterShift;
      if ends[shift.driver] != 0 && duration < minimum {
        var last := if shift.driver in lastShift then Some(lastShift[shift.driver]) else None;
        check := check + [ShortRest(shift.id, last, shift.driver, duration, minimum)];
      }
      lastShift := lastShift[shift.driver := shift.id];
      ends := ends[shift.driver := End(shift)];
    }
    assert order[..|order|] == order;
    hide *;
    LinkedIffNone(inst, Rest, order);
    ghost var at := ShiftsListed(inst, Follows(Rest), order);
    RestReports(inst, order);
  }

  /** `check_res_tl_01_shift_overlaps` */
  method CheckOverlaps(inst: Instance, shifts: seq<Shift>) returns (check: seq<Violation>)
    requires AllKnown(inst, shifts)
    ensures check == [] <==> Linked(inst, Overlap, Sorted(shifts))
    ensures forall v :: v in check <==> exists i, prev :: IsOverlap(Sorted(shifts), i, prev, v)
    ensures exists at :: ListsShifts(inst, Follows(Overlap), Sorted(shifts), at, check)
  {
    KnownSorted(inst, shifts);
    hide Sorted, End, MayFollow, StockAfter, LastOver, Compatible;
    var order := Sorted(shifts);
    var ends := map t | t in inst.trailers :: 0;
    var lastShift: map<nat, nat> := map[];
    check := [];
    TracksNothing(ends, inst.trailers.Keys, Overlap);
    for i := 0 to |order|
      invariant Tracks(ends, lastShift, inst.trailers.Keys, Overlap, order[..i])
      invariant forall s :: s in order[..i] ==> Known(inst, s)
      invariant check == ShiftReports(inst, Follows(Overlap), order[..i])
    {
      var shift := order[i];
      KnownMeans(inst, shift);
      StartsEarly(inst, order, i);
      assert ends.Keys == inst.trailers.Keys && ends[shift.trailer] == EndAfter(order[..i], Overlap, shift.trailer);
      TracksMore(inst, ends, lastShift, inst.trailers.Keys, Overlap, order, i);
      hide Known, ShiftReports, EndAfter, Tracks;
      if ends[shift.trailer] != 0 && shift.departureTime < ends[shift.trailer] {
        var last := if shift.trailer in lastShift then Some(lastShift[shift.trailer]) else None;
        check := check + [Overlapping(shift.id, last, shift.trailer)];
      }
      lastShift := lastShift[shift.trailer := shift.id];
      ends := ends[shift.trailer := End(shift)];
    }
    assert order[..|order|] == order;
    hide *;
    LinkedIffNone(inst, Overlap, order);
    ghost var at := ShiftsListed(inst, Follows(Overlap), order);
    OverlapReports(inst, order);
  }

  /** `check_res_tl_03_compatibility_dr_tr` */
  method CheckCompatibility(inst: Instance, shifts: seq<Shift>) returns (check: seq<Violation>)
    requires AllKnown(inst, shifts)
    ensures check == [] <==> forall i :: 0 <= i < |shifts| ==> Compatible(inst, shifts[i])
    ensures forall v :: v in check <==> exists s :: IsIncompatible(inst, shifts, s, v)
    ensures exists at :: ListsShifts(inst, Pairing, Sorted(shifts), at, check)
  {
    KnownSorted(inst, shifts);
    hide Sorted;
    var order := Sorted(shifts);
    check := [];
    for i := 0 to |order|
      invariant forall s :: s in order[..i] ==> Known(inst, s)
      invariant check == ShiftReports(inst, Pairing, order[..i])
    {
      ShiftReportsOfMore(inst, Pairing, order, i);
      KnownMeans(inst, order[i]);
      hide ShiftReports, Known;
      if order[i].trailer !in inst.drivers[order[i].driver].trailers {
        check := check + [Incompatible(order[i].id, order[i].trailer, order[i].driver)];
      }
    }
    assert order[..|order|] == order;
    hide *;
    ghost var at := ShiftsListed(inst, Pairing, order);
    PairingReports(inst, shifts);
  }

  /** `aux_check_resources_dr_03`: the last driving time that is too long, if the
      check gets through the stops. */
  method DrivesTooLong(inst: Instance, s: Shift) returns (over: Option<Option<int>>)
    requires Known(inst, s)
    ensures over.Some? <==> NoLateLayovers(s)
    ensures over.Some? ==> over.value == LastOver(s, inst.drivers[s.driver].maxDriving, |s.route|)
  {
    var max := inst.drivers[s.driver].maxDriving;
    var found: Option<int> := None;
    if s.route[0].layoverBefore {
      if s.route[0].drivingBeforeLayover > max {
        found := Some(s.route[0].drivingBeforeLayover);
      }
    } else if s.route[0].cumulatedDriving > max {
      found := Some(s.route[0].cumulatedDriving);
    }
    for k := 1 to |s.route|
      invariant forall j :: 0 < j < k ==> !s.route[j].layoverBefore
      invariant found == LastOver(s, max, k)
    {
      if s.route[k].layoverBefore {
        return None;
      }
      if s.route[k].cumulatedDriving > max {
        found := Some(s.route[k].cumulatedDriving);
      }
    }
    return Some(found);
  }

  /** Stop k is the last of the first n after more driving than that. */
  ghost predicate IsLastAbove(s: Shift, max: int, n: nat, k: nat) {
    && k < n <= |s.route| && DrivingAt(s, k) > max
    && forall j :: k < j < n ==> DrivingAt(s, j) <= max
  }

  lemma {:induction false} LastOverIs(s: Shift, max: int, n: nat)
    requires n <= |s.route|
    ensures LastOver(s, max, n) == None ==> forall k :: 0 <= k < n ==> DrivingAt(s, k) <= max
    ensures LastOver(s, max, n).Some? ==>
      exists k :: IsLastAbove(s, max, n, k) && LastOver(s, max, n).value == DrivingAt(s, k)
  {
    hide DrivingAt;
    if n > 0 {
      LastOverIs(s, max, n - 1);
      if DrivingAt(s, n - 1) > max {
        assert IsLastAbove(s, max, n, n - 1);
      } else if LastOver(s, max, n - 1).Some? {
        var k :| IsLastAbove(s, max, n - 1, k) && LastOver(s, max, n - 1).value == DrivingAt(s, k);
        assert IsLastAbove(s, max, n, k);
      }
    }
  }

  /** Stop k is the last that is driven to too long. */
  ghost predicate IsLastOver(inst: Instance, s: Shift, k: nat) {
    s.driver in inst.drivers && IsLastAbove(s, inst.drivers[s.driver].maxDriving, |s.route|, k)
  }

  ghost predicate IsTooLong(inst: Instance, shifts: seq<Shift>, s: Shift, k: nat, v: Violation) {
    && s in shifts && IsLastOver(inst, s, k)
    && v == TooLong(s.id, s.driver, DrivingAt(s, k), inst.drivers[s.driver].maxDriving)
  }

  lemma {:induction false} DrivingReport(inst: Instance, shifts: seq<Shift>, before: seq<Shift>, s: Shift, v: Violation)
    requires Known(inst, s) && s in shifts
    ensures IsShiftReport(inst, Driving, before, s, v) <==> exists k :: IsTooLong(inst, shifts, s, k, v)
  {
    var max := inst.drivers[s.driver].maxDriving;
    LastOverIs(s, max, |s.route|);
    hide LastOver, DrivingAt;
    if LastOver(s, max, |s.route|).Some? {
      var k :| IsLastAbove(s, max, |s.route|, k) && LastOver(s, max, |s.route|).value == DrivingAt(s, k);
      assert forall l :: IsLastAbove(s, max, |s.route|, l) ==> l == k;
      assert IsTooLong(inst, shifts, s, k, v) <==> IsShiftReport(inst, Driving, before, s, v);
    }
  }

  lemma {:induction false} DrivingOkIff(inst: Instance, s: Shift)
    requires Known(inst, s)
    ensures DrivingOk(inst, s) <==> forall k :: !IsLastOver(inst, s, k)
  {
    var max := inst.drivers[s.driver].maxDriving;
    LastOverIs(s, max, |s.route|);
    hide LastOver, DrivingAt;
    assert forall k :: IsLastOver(inst, s, k) <==> IsLastAbove(s, max, |s.route|, k);
  }

  lemma {:induction false} DrivingReports(inst: Instance, shifts: seq<Shift>)
    requires AllKnown(inst, shifts)
    ensures forall s :: s in Sorted(shifts) ==> Known(inst, s)
    ensures forall v :: v in ShiftReports(inst, Driving, Sorted(shifts)) <==>
      exists s, k :: IsTooLong(inst, shifts, s, k, v)
  {
    KnownSorted(inst, shifts);
    SortedSameElements(shifts);
    hide Sorted, ShiftReports, Known, IsShiftReport;
    var order := Sorted(shifts);
    forall v ensures v in ShiftReports(inst, Driving, order) <==> exists s, k :: IsTooLong(inst, shifts, s, k, v) {
      ShiftReported(inst, Driving, order, v);
      forall i | 0 <= i < |order|
        ensures IsShiftReport(inst, Driving, order[..i], order[i], v)
           <==> exists k :: IsTooLong(inst, shifts, order[i], k, v)
      {
        assert order[i] in order;
        DrivingReport(inst, shifts, order[..i], order[i], v);
      }
      forall s, k: nat | IsTooLong(inst, shifts, s, k, v) ensures exists i :: 0 <= i < |order| && order[i] == s {
        assert s in order;
      }
      hide IsTooLong;
    }
  }

  lemma {:induction false} DrivingSilent(inst: Instance, shifts: seq<Shift>, check: seq<Violation>)
    requires AllKnown(inst, shifts)
    requires forall v :: v in check <==> exists s, k :: IsTooLong(inst, shifts, s, k, v)
    ensures check == [] <==> forall i :: 0 <= i < |shifts| ==> DrivingOk(inst, shifts[i])
  {
    hide DrivingOk, DrivingAt, IsLastOver;
    forall i | 0 <= i < |shifts|
      ensures Known(inst, shifts[i])
      ensures !DrivingOk(inst, shifts[i]) ==> check != []
    {
      var s := shifts[i];
      assert Known(inst, s);
      DrivingOkIff(inst, s);
      if !DrivingOk(inst, s) {
        var k :| IsLastOver(inst, s, k);
        LastOverKnown(inst, s, k);
        var v := TooLong(s.id, s.driver, DrivingAt(s, k), inst.drivers[s.driver].maxDriving);
        assert IsTooLong(inst, shifts, s, k, v);
        assert v in check;
      }
    }
    if check != [] {
      assert check[0] in check;
      var s, k :| IsTooLong(inst, shifts, s, k, check[0]);
      var i :| 0 <= i < |shifts| && shifts[i] == s;
      DrivingOkIff(inst, shifts[i]);
    }
  }

  lemma LastOverKnown(inst: Instance, s: Shift, k: nat)
    requires IsLastOver(inst, s, k)
    ensures s.driver in inst.drivers && k < |s.route|
  {
  }

  /** `check_res_dr_03_max_duration` */
  method CheckMaxDuration(inst: Instance, shifts: seq<Shift>) returns (check: Option<seq<Violation>>)
    requires AllKnown(inst, shifts)
    ensures check.Some? <==> forall i :: 0 <= i < |shifts| ==> NoLateLayovers(shifts[i])
    ensures check.Some? ==> (check.value == [] <==> forall i :: 0 <= i < |shifts| ==> DrivingOk(inst, shifts[i]))
    ensures check.Some? ==> forall v :: v in check.value <==> exists s, k :: IsTooLong(inst, shifts, s, k, v)
    ensures check.Some? ==> exists at :: ListsShifts(inst, Driving, Sorted(shifts), at, check.value)
  {
    KnownSorted(inst, shifts);
    var order := Sorted(shifts);
    SameForAll(order, shifts, (s: Shift) => NoLateLayovers(s));
    hide Sorted, NoLateLayovers, LastOver, DrivingOk;
    var found := [];
    for i := 0 to |order|
      invariant forall j :: 0 <= j < i ==> NoLateLayovers(order[j])
      invariant forall s :: s in order[..i] ==> Known(inst, s)
      invariant found == ShiftReports(inst, Driving, order[..i])
    {
      ShiftReportsOfMore(inst, Driving, order, i);
      KnownMeans(inst, order[i]);
      hide ShiftReports;
      var over := DrivesTooLong(inst, order[i]);
      if over.None? {
        return None;
      }
      if over.value.Some? {
        var max := inst.drivers[order[i].driver].maxDriving;
        found := found + [TooLong(order[i].id, order[i].driver, over.value.value, max)];
      }
    }
    assert order[..|order|] == order;
    check := Some(found);
    hide *;
    ghost var at := ShiftsListed(inst, Driving, order);
    DrivingReports(inst, shifts);
    DrivingSilent(inst, shifts, found);
  }

  /** `check_c_0607_inventory_trailer_final_inventory`: whatever the shifts, it
      compares a sum with itself and reports nothing. */
  method CheckFinalInventory(shifts: seq<Shift>) returns (check: seq<Violation>)
    ensures check == []
  {
    check := [];
    var order := Sorted(shifts);
    for i := 0 to |order|
      invariant check == []
    {
      var shift := order[i];
      var quantity := shift.initialQuantity;
      for k := 0 to |shift.route|
        invariant quantity == shift.initialQuantity + Carried(shift.route, k)
      {
        quantity := quantity + shift.route[k].quantity;
      }
      if FinalStock(shift) != quantity {
        check := check + [WrongFinal(shift.id, FinalStock(shift), quantity)];
      }
    }
  }
}
