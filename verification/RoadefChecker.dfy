/** What the independent checker of roadef/core/experiment.py asks of a schedule:
    the order it visits shifts in, what it asks of stops, shifts and neighbouring
    shifts, and the figures it counts anew. */
module RoadefChecker {
  import opened Wrappers
  import opened RoadefModel

  // ---- the order the checks visit shifts in ----

  /** Insertion after every shift that does not depart later. */
  function Insert(sorted: seq<Shift>, x: Shift): seq<Shift> {
    if sorted == [] || Last(sorted).departureTime <= x.departureTime then sorted + [x]
    else Insert(sorted[..|sorted| - 1], x) + [Last(sorted)]
  }

  /** `sorted(shifts, key=departure_time)`: stable, as Python's sort is. */
  function Sorted(shifts: seq<Shift>): seq<Shift> {
    if shifts == [] then [] else Insert(Sorted(shifts[..|shifts| - 1]), Last(shifts))
  }

  /** Each shift departs no earlier than the one before it. */
  ghost predicate Ascending(shifts: seq<Shift>) {
    |shifts| < 2 ||
    (&& Ascending(shifts[..|shifts| - 1])
     && shifts[|shifts| - 2].departureTime <= Last(shifts).departureTime)
  }

  /** The shifts that depart at time t, in their order. */
  function DepartingAt(shifts: seq<Shift>, t: int): seq<Shift> {
    if shifts == [] then []
    else DepartingAt(shifts[..|shifts| - 1], t) + if Last(shifts).departureTime == t then [Last(shifts)] else []
  }

  lemma {:induction false} InsertFirst(x: Shift)
    ensures Insert([], x) == [] + [x]
  {
  }

  lemma {:induction false} InsertLast(t: seq<Shift>, last: Shift, x: Shift)
    ensures Insert(t + [last], x)
         == if last.departureTime <= x.departureTime then t + [last] + [x] else Insert(t, x) + [last]
  {
    FrontOfMore(t, last);
  }

  lemma {:induction false} SortedOfMore(shifts: seq<Shift>, x: Shift)
    ensures Sorted(shifts + [x]) == Insert(Sorted(shifts), x)
  {
    FrontOfMore(shifts, x);
  }

  lemma {:induction false} AscendingOfMore(t: seq<Shift>, y: Shift)
    ensures Ascending(t + [y]) <==> Ascending(t) && (t == [] || Last(t).departureTime <= y.departureTime)
  {
    FrontOfMore(t, y);
  }

  lemma {:induction false} DepartingOfMore(t: seq<Shift>, y: Shift, time: int)
    ensures DepartingAt(t + [y], time) == DepartingAt(t, time) + if y.departureTime == time then [y] else []
  {
    FrontOfMore(t, y);
  }

  lemma {:induction false} InsertPermutes(sorted: seq<Shift>, x: Shift)
    ensures multiset(Insert(sorted, x)) == multiset(sorted) + multiset{x}
  {
    if sorted != [] {
      var front, last := sorted[..|sorted| - 1], Last(sorted);
      FrontAndLast(sorted);
      InsertPermutes(front, x);
      InsertLast(front, last, x);
      hide Insert;
      assert multiset(front + [last]) == multiset(front) + multiset{last};
    }
  }

  lemma {:induction false} InsertAscends(sorted: seq<Shift>, x: Shift)
    requires Ascending(sorted)
    ensures Ascending(Insert(sorted, x))
    ensures Insert(sorted, x) != []
    ensures Last(Insert(sorted, x)) ==
      if sorted == [] || Last(sorted).departureTime <= x.departureTime then x else Last(sorted)
  {
    if sorted == [] {
      AscendingOfMore([], x);
      assert [] + [x] == [x];
    } else {
      var front, last := sorted[..|sorted| - 1], Last(sorted);
      FrontAndLast(sorted);
      AscendingOfMore(front, last);
      InsertAscends(front, x);
      InsertLast(front, last, x);
      AscendingOfMore(Insert(front, x), last);
      AscendingOfMore(sorted, x);
      hide Insert, Ascending;
    }
  }

  lemma {:induction false} InsertDepartingAt(sorted: seq<Shift>, x: Shift, t: int)
    ensures DepartingAt(Insert(sorted, x), t) == DepartingAt(sorted + [x], t)
  {
    if sorted == [] {
      assert [] + [x] == [x];
    } else {
      var front, last := sorted[..|sorted| - 1], Last(sorted);
      FrontAndLast(sorted);
      InsertDepartingAt(front, x, t);
      InsertLast(front, last, x);
      DepartingOfMore(front, last, t);
      DepartingOfMore(sorted, x, t);
      DepartingOfMore(front, x, t);
      DepartingOfMore(Insert(front, x), last, t);
      hide Insert, DepartingAt;
    }
  }

  /** The sort permutes the shifts and orders them by departure... */
  lemma {:induction false} SortPermutes(shifts: seq<Shift>)
    ensures multiset(Sorted(shifts)) == multiset(shifts)
  {
    if shifts != [] {
      var front, last := shifts[..|shifts| - 1], Last(shifts);
      FrontAndLast(shifts);
      SortPermutes(front);
      InsertPermutes(Sorted(front), last);
      SortedOfMore(front, last);
      hide Sorted;
      assert multiset(front + [last]) == multiset(front) + multiset{last};
    }
  }

  lemma {:induction false} SortAscends(shifts: seq<Shift>)
    ensures Ascending(Sorted(shifts))
  {
    if shifts != [] {
      SortAscends(shifts[..|shifts| - 1]);
      InsertAscends(Sorted(shifts[..|shifts| - 1]), Last(shifts));
    }
  }

  lemma {:induction false} SortedSameElements(shifts: seq<Shift>)
    ensures forall y :: y in Sorted(shifts) <==> y in shifts
    ensures |Sorted(shifts)| == |shifts|
  {
    SortPermutes(shifts);
    assert |multiset(Sorted(shifts))| == |multiset(shifts)|;
    forall y ensures y in Sorted(shifts) <==> y in shifts {
      assert y in Sorted(shifts) <==> y in multiset(Sorted(shifts));
      assert y in shifts <==> y in multiset(shifts);
    }
  }

  /** ...and keeps those that depart together in their order. */
  lemma {:induction false} SortIsStable(shifts: seq<Shift>, t: int)
    ensures DepartingAt(Sorted(shifts), t) == DepartingAt(shifts, t)
  {
    if shifts != [] {
      var front, last := shifts[..|shifts| - 1], Last(shifts);
      FrontAndLast(shifts);
      SortIsStable(front, t);
      InsertDepartingAt(Sorted(front), last, t);
      SortedOfMore(front, last);
      DepartingOfMore(Sorted(front), last, t);
      DepartingOfMore(front, last, t);
      hide Insert, Sorted, DepartingAt;
    }
  }

  // ---- checks that compare a shift with the one before it ----

  /** Initial stock, rest of the driver, overlap on the trailer. */
  datatype Link = Stock | Rest | Overlap

  function KeyOf(link: Link, s: Shift): nat {
    if link.Rest? then s.driver else s.trailer
  }

  /** The last shift of the list with the key. */
  function Latest(shifts: seq<Shift>, link: Link, key: nat): Option<Shift> {
    if shifts == [] then None
    else if KeyOf(link, Last(shifts)) == key then Some(Last(shifts))
    else Latest(shifts[..|shifts| - 1], link, key)
  }

  /** Shift s may follow `prev`, its predecessor with the same key. */
  predicate MayFollow(inst: Instance, link: Link, prev: Option<Shift>, s: Shift) {
    match link
    case Stock =>
      && s.trailer in inst.trailers
      && s.initialQuantity == if prev.Some? then FinalStock(prev.value) else inst.trailers[s.trailer].initialQuantity
    case Rest =>
      && s.driver in inst.drivers
      && (prev.Some? && End(prev.value) != 0 ==>
            s.departureTime - End(prev.value) >= inst.drivers[s.driver].minInterShift)
    case Overlap =>
      prev.Some? && End(prev.value) != 0 ==> s.departureTime >= End(prev.value)
  }

  /** Every shift may follow the one before it with the same key. */
  predicate Linked(inst: Instance, link: Link, shifts: seq<Shift>) {
    shifts == [] ||
    (&& Linked(inst, link, shifts[..|shifts| - 1])
     && MayFollow(inst, link, Latest(shifts[..|shifts| - 1], link, KeyOf(link, Last(shifts))), Last(shifts)))
  }

  /** Shifts with the same key are listed in order of departure. */
  ghost predicate InOrder(link: Link, shifts: seq<Shift>) {
    forall i, j :: 0 <= i < j < |shifts| && KeyOf(link, shifts[i]) == KeyOf(link, shifts[j])
             ==> shifts[i].departureTime <= shifts[j].departureTime
  }

  lemma {:induction false} LinkedOfMore(inst: Instance, link: Link, t: seq<Shift>, x: Shift)
    ensures Linked(inst, link, t + [x]) <==>
      Linked(inst, link, t) && MayFollow(inst, link, Latest(t, link, KeyOf(link, x)), x)
    ensures forall key :: Latest(t + [x], link, key) == if KeyOf(link, x) == key then Some(x) else Latest(t, link, key)
  {
    FrontOfMore(t, x);
  }

  /** No shift with x's key departs later than x. */
  ghost predicate NoneLater(link: Link, t: seq<Shift>, x: Shift) {
    forall y :: y in t && KeyOf(link, y) == KeyOf(link, x) ==> y.departureTime <= x.departureTime
  }

  lemma NoneLaterFront(link: Link, t: seq<Shift>, last: Shift, x: Shift)
    requires NoneLater(link, t + [last], x)
    ensures NoneLater(link, t, x) && (KeyOf(link, last) == KeyOf(link, x) ==> last.departureTime <= x.departureTime)
  {
    assert last in t + [last] && forall y :: y in t ==> y in t + [last];
  }

  lemma {:induction false} InsertLinked(inst: Instance, link: Link, t: seq<Shift>, x: Shift)
    requires NoneLater(link, t, x)
    ensures Linked(inst, link, Insert(t, x))
       <==> Linked(inst, link, t) && MayFollow(inst, link, Latest(t, link, KeyOf(link, x)), x)
    ensures forall key :: Latest(Insert(t, x), link, key)
                       == if key == KeyOf(link, x) then Some(x) else Latest(t, link, key)
  {
    hide MayFollow, NoneLater, Insert, Linked, Latest;
    if t == [] {
      LinkedOfMore(inst, link, t, x);
      InsertFirst(x);
    } else {
      var front, last := t[..|t| - 1], Last(t);
      FrontAndLast(t);
      NoneLaterFront(link, front, last, x);
      InsertLinked(inst, link, front, x);
      InsertLast(front, last, x);
      LinkedOfMore(inst, link, front, last);
      LinkedOfMore(inst, link, t, x);
      LinkedOfMore(inst, link, Insert(front, x), last);
    }
  }

  lemma {:induction false} SortedNoneLater(link: Link, front: seq<Shift>, x: Shift)
    requires InOrder(link, front + [x])
    ensures NoneLater(link, Sorted(front), x)
  {
    SortedSameElements(front);
    forall y | y in Sorted(front) && KeyOf(link, y) == KeyOf(link, x) ensures y.departureTime <= x.departureTime {
      var i :| 0 <= i < |front| && front[i] == y;
      assert (front + [x])[i] == y && (front + [x])[|front|] == x;
    }
  }

  /** Where each key's shifts are listed in order of departure, sorting does
      not change what the linked checks see. */
  lemma {:induction false} SortedLinked(inst: Instance, link: Link, shifts: seq<Shift>)
    requires InOrder(link, shifts)
    ensures Linked(inst, link, Sorted(shifts)) <==> Linked(inst, link, shifts)
    ensures forall key :: Latest(Sorted(shifts), link, key) == Latest(shifts, link, key)
  {
    hide MayFollow, Insert;
    if shifts != [] {
      var front, x := shifts[..|shifts| - 1], Last(shifts);
      FrontAndLast(shifts);
      SortedLinked(inst, link, front);
      SortedNoneLater(link, front, x);
      InsertLinked(inst, link, Sorted(front), x);
      SortedOfMore(front, x);
      LinkedOfMore(inst, link, front, x);
      hide Sorted, Linked, Latest;
    }
  }

  /** The checks index drivers and trailers by the shifts' ids and read the ends
      of the routes. */
  predicate Known(inst: Instance, s: Shift) {
    s.driver in inst.drivers && s.trailer in inst.trailers && s.route != []
  }

  ghost predicate AllKnown(inst: Instance, shifts: seq<Shift>) {
    forall i :: 0 <= i < |shifts| ==> Known(inst, shifts[i])
  }

  lemma {:induction false} SortedKnown(inst: Instance, shifts: seq<Shift>)
    requires AllKnown(inst, shifts)
    ensures AllKnown(inst, Sorted(shifts))
  {
    SortedSameElements(shifts);
    forall i | 0 <= i < |Sorted(shifts)| ensures Known(inst, Sorted(shifts)[i]) {
      assert Sorted(shifts)[i] in shifts;
    }
  }

  /** What the listed shifts leave on a trailer, and when they end. */
  function StockAfter(inst: Instance, shifts: seq<Shift>, trailer: nat): int
    requires trailer in inst.trailers
  {
    match Latest(shifts, Stock, trailer)
    case None => inst.trailers[trailer].initialQuantity
    case Some(p) => FinalStock(p)
  }

  function EndAfter(shifts: seq<Shift>, link: Link, key: nat): int {
    match Latest(shifts, link, key)
    case None => 0
    case Some(p) => End(p)
  }

  // ---- checks of one shift at a time ----

  /** The stop is not reached before the previous departure plus the travel and
      any layover; the shift leaves from the base. */
  predicate ReachedInTime(inst: Instance, s: Shift, i: nat)
    requires i < |s.route| && s.driver in inst.drivers
  {
    var from := if i == 0 then BASE else s.route[i - 1].location;
    var left := if i == 0 then s.departureTime else s.route[i - 1].departure;
    s.route[i].arrival >= left + inst.travel(from, s.route[i].location)
                        + if s.route[i].layoverBefore then inst.drivers[s.driver].layoverDuration else 0
  }

  ghost predicate TimelineOk(inst: Instance, s: Shift)
    requires s.driver in inst.drivers
  {
    forall i :: 0 <= i < |s.route| ==> ReachedInTime(inst, s, i)
  }

  /** Setup is respected at every stop but the last. */
  predicate SetUp(inst: Instance, op: Stop) {
    inst.IsValidLocation(op.location) && op.location > 0 ==> op.departure >= op.arrival + inst.SetupTime(op.location)
  }

  ghost predicate SetupOk(inst: Instance, s: Shift) {
    forall i :: 0 <= i < |s.route| - 1 ==> SetUp(inst, s.route[i])
  }

  /** The trailer's stock after the first n stops. */
  function StockAt(s: Shift, n: nat): int
    requires n <= |s.route|
  {
    s.initialQuantity + Carried(s.route, n)
  }

  /** The trailer's stock after each stop lies between the bounds. */
  ghost predicate StockAtLeast(s: Shift, low: int) {
    forall n :: 0 < n <= |s.route| ==> low <= StockAt(s, n)
  }

  ghost predicate StockAtMost(s: Shift, high: int) {
    forall n :: 0 < n <= |s.route| ==> StockAt(s, n) <= high
  }

  lemma {:induction false} SameForAll(order: seq<Shift>, shifts: seq<Shift>, ok: Shift -> bool)
    requires order == Sorted(shifts)
    ensures (forall i :: 0 <= i < |order| ==> ok(order[i])) <==> (forall i :: 0 <= i < |shifts| ==> ok(shifts[i]))
  {
    SortedSameElements(shifts);
    assert (forall i :: 0 <= i < |order| ==> ok(order[i])) <==> (forall s :: s in order ==> ok(s));
    assert (forall i :: 0 <= i < |shifts| ==> ok(shifts[i])) <==> (forall s :: s in shifts ==> ok(s));
  }

  /** The trailer is never fuller than it may be. */
  ghost predicate WithinCapacity(inst: Instance, s: Shift) {
    s.trailer in inst.trailers && StockAtMost(s, inst.trailers[s.trailer].capacity)
  }

  /** Sources load and customers are delivered to, never the other way round. */
  predicate RightSign(inst: Instance, op: Stop) {
    && (inst.IsSource(op.location) ==> op.quantity >= 0)
    && (inst.IsCustomer(op.location) ==> op.quantity <= 0)
  }

  ghost predicate SignsOk(inst: Instance, s: Shift) {
    forall i :: 0 <= i < |s.route| ==> RightSign(inst, s.route[i])
  }

  /** The driver may drive the trailer. */
  predicate Compatible(inst: Instance, s: Shift) {
    s.driver in inst.drivers && s.trailer in inst.drivers[s.driver].trailers
  }

  /** What the duration check compares at the i-th stop: after a layover before
      the first stop, the driving before it. */
  function DrivingAt(s: Shift, i: nat): int
    requires i < |s.route|
  {
    if i == 0 && s.route[0].layoverBefore then s.route[0].drivingBeforeLayover else s.route[i].cumulatedDriving
  }

  /** The shift drives no longer than its driver may. */
  ghost predicate DrivingOk(inst: Instance, s: Shift)
    requires s.driver in inst.drivers
  {
    forall i :: 0 <= i < |s.route| ==> DrivingAt(s, i) <= inst.drivers[s.driver].maxDriving
  }

  /** Before a later stop a layover makes the duration check fail with an error. */
  predicate NoLateLayovers(s: Shift) {
    forall i :: 0 < i < |s.route| ==> !s.route[i].layoverBefore
  }

  /** The route with each stop's driving time counted anew, as
      `get_aux_info_shift` leaves it. */
  ghost function Recounted(inst: Instance, s: Shift): Shift {
    s.(route := seq(|s.route|, i requires 0 <= i < |s.route| =>
      s.route[i].(cumulatedDriving := Driven(inst, s.route, i))))
  }

  /** Rewrites the driving times of the stops, and returns the last. */
  method Recount(inst: Instance, s: Shift) returns (route: seq<Stop>, driving: int)
    requires s.route != []
    ensures route == Recounted(inst, s).route
    ensures driving == Driven(inst, s.route, |s.route| - 1)
  {
    hide Recounted;
    route, driving := s.route, 0;
    for i := 0 to |s.route| - 1
      invariant driving == Driven(inst, s.route, i)
      invariant |route| == |s.route| && forall j :: 0 <= j < i ==> IsCounted(inst, s, j, route[j])
      invariant forall j :: i <= j < |route| ==> route[j] == s.route[j]
    {
      route := route[i := route[i].(cumulatedDriving := driving)];
      assert IsCounted(inst, s, i, route[i]);
      driving := driving + inst.travel(s.route[i].location, s.route[i + 1].location);
    }
    route := route[|route| - 1 := Last(route).(cumulatedDriving := driving)];
    CountedIsRecounted(inst, s, route);
  }

  ghost predicate IsCounted(inst: Instance, s: Shift, i: nat, stop: Stop)
    requires i < |s.route|
  {
    stop == s.route[i].(cumulatedDriving := Driven(inst, s.route, i))
  }

  lemma CountedIsRecounted(inst: Instance, s: Shift, route: seq<Stop>)
    requires |route| == |s.route| && forall i :: 0 <= i < |route| ==> IsCounted(inst, s, i, route[i])
    ensures route == Recounted(inst, s).route
  {
    hide Driven;
  }

  /** `get_aux_info_shift` on one shift: the shift with its stops recounted, its
      end, final stock, duration and driving time. */
  method GetAuxInfo(inst: Instance, s: Shift)
    returns (counted: Shift, arrivalTime: int, finalInventory: int, duration: int, driving: int)
    requires s.route != []
    ensures counted == Recounted(inst, s)
    ensures arrivalTime == End(s) == s.route[|s.route| - 1].arrival
    ensures finalInventory == FinalStock(s) == s.initialQuantity + Carried(s.route, |s.route|)
    ensures duration == arrivalTime - s.departureTime
    ensures driving == Driven(inst, s.route, |s.route| - 1) == counted.route[|s.route| - 1].cumulatedDriving
  {
    var route;
    route, driving := Recount(inst, s);
    counted := s.(route := route);
    arrivalTime, finalInventory := Last(s.route).arrival, FinalStock(s);
    duration := Last(s.route).arrival - s.departureTime;
  }
}
