/** A plan without its quantities: trailers that keep their initial stock, and
    stops that load and deliver nothing. Times and places do not depend on
    quantities, so a move of the plan is a move of the plan without them. */
module RoadefErased {
  import opened RoadefModel
  import opened RoadefChecker
  import opened RoadefPlan
  import opened RoadefMoves
  import opened RoadefSafety

  // ---- leaving the quantities out ----

  function ErasedStop(stop: Stop): Stop {
    stop.(quantity := 0)
  }

  function ErasedRoute(route: seq<Stop>): (r: seq<Stop>)
    ensures |r| == |route| && forall i :: 0 <= i < |route| ==> r[i] == ErasedStop(route[i])
  {
    seq(|route|, i requires 0 <= i < |route| => ErasedStop(route[i]))
  }

  function StartingStock(inst: Instance, t: nat): int {
    if t in inst.trailers then inst.trailers[t].initialQuantity else 0
  }

  function ErasedShift(inst: Instance, s: Shift): Shift {
    s.(initialQuantity := StartingStock(inst, s.trailer), route := ErasedRoute(s.route))
  }

  function ErasedShifts(inst: Instance, shifts: seq<Shift>): (r: seq<Shift>)
    ensures |r| == |shifts| && forall i :: 0 <= i < |shifts| ==> r[i] == ErasedShift(inst, shifts[i])
  {
    seq(|shifts|, i requires 0 <= i < |shifts| => ErasedShift(inst, shifts[i]))
  }

  function Erased(inst: Instance, p: Plan): Plan {
    p.(shifts := ErasedShifts(inst, p.shifts), stock := map t | t in p.stock :: StartingStock(inst, t))
  }

  // ---- a move commutes with it ----

  lemma {:induction false} FindErased(inst: Instance, shifts: seq<Shift>, id: nat)
    ensures Find(ErasedShifts(inst, shifts), id) == Find(shifts, id)
  {
    if shifts != [] {
      var front := shifts[..|shifts| - 1];
      FindErased(inst, front, id);
      assert ErasedShifts(inst, shifts)[..|shifts| - 1] == ErasedShifts(inst, front);
    }
  }

  lemma {:induction false} ErasedOpened(inst: Instance, p: Plan, d: nat)
    requires Equipped(inst, p, d)
    ensures Equipped(inst, Erased(inst, p), d)
    ensures Erased(inst, Opened(inst, p, d)) == Opened(inst, Erased(inst, p), d)
  {
    var t, e := p.trailerOf[d], Erased(inst, p);
    FindErased(inst, p.shifts, p.shiftId[t]);
    hide Find;
    var o := Opened(inst, p, d);
    if o != p {
      var base := BaseStop(p.place[t].time);
      assert ErasedRoute([base]) == [base];
      assert ErasedShifts(inst, o.shifts) == ErasedShifts(inst, p.shifts) + [ErasedShift(inst, Last(o.shifts))];
    }
  }

  lemma {:induction false} ErasedExtended(
    inst: Instance, p: Plan, d: nat, stop: Stop, driving: int, place: Place, stock: int)
    requires Equipped(inst, p, d) && Find(p.shifts, p.shiftId[p.trailerOf[d]]) >= 0
    ensures Find(ErasedShifts(inst, p.shifts), p.shiftId[p.trailerOf[d]]) >= 0
    ensures Erased(inst, Extended(p, d, stop, driving, place, stock))
         == Extended(Erased(inst, p), d, ErasedStop(stop), driving, place, StartingStock(inst, p.trailerOf[d]))
  {
    var t := p.trailerOf[d];
    FindErased(inst, p.shifts, p.shiftId[t]);
    hide Find;
    var k := Find(p.shifts, p.shiftId[t]);
    var s, x := p.shifts[k], Extended(p, d, stop, driving, place, stock);
    assert ErasedRoute(s.route + [stop]) == ErasedRoute(s.route) + [ErasedStop(stop)];
    assert ErasedShift(inst, WithStop(s, stop)) == WithStop(ErasedShift(inst, s), ErasedStop(stop));
    assert ErasedShifts(inst, x.shifts)
        == ErasedShifts(inst, p.shifts)[k := WithStop(ErasedShift(inst, s), ErasedStop(stop))];
    hide ErasedShifts, WithStop;
    assert Erased(inst, x).stock == Erased(inst, p).stock[t := StartingStock(inst, t)];
  }

  lemma {:induction false} ErasedVisited(inst: Instance, p: Plan, d: nat, l: nat, quantity: int)
    requires Equipped(inst, p, d)
    ensures Equipped(inst, Erased(inst, p), d)
    ensures Erased(inst, Visited(inst, p, d, l, quantity)) == Visited(inst, Erased(inst, p), d, l, 0)
  {
    hide Find, Opened, ErasedShifts;
    ErasedOpened(inst, p, d);
    var o, t := Opened(inst, p, d), p.trailerOf[d];
    OpenedTables(inst, p, d);
    var stop := NextStop(inst, o, d, l, quantity);
    ErasedExtended(inst, o, d, stop, stop.cumulatedDriving, Place(l, stop.departure), o.stock[t] + quantity);
  }

  /** Opening a shift changes none of the tables. */
  lemma {:induction false} OpenedTables(inst: Instance, p: Plan, d: nat)
    requires Equipped(inst, p, d)
    ensures Opened(inst, p, d) == p.(shifts := Opened(inst, p, d).shifts)
  {
    hide Find;
  }

  /** All tables but the stock stay. */
  lemma {:induction false} ErasedTables(inst: Instance, p: Plan, d: nat)
    requires Equipped(inst, p, d)
    ensures var e, t := Erased(inst, p), p.trailerOf[d];
      && e == p.(shifts := e.shifts, stock := e.stock) && Equipped(inst, e, d)
      && e.stock[t] == StartingStock(inst, t)
      && Find(e.shifts, p.shiftId[t]) == Find(p.shifts, p.shiftId[t])
  {
    FindErased(inst, p.shifts, p.shiftId[p.trailerOf[d]]);
    hide Find;
  }

  lemma {:induction false} ErasedBaseInserted(inst: Instance, p: Plan, d: nat)
    requires Equipped(inst, p, d)
    ensures Equipped(inst, Erased(inst, p), d)
    ensures Erased(inst, BaseInserted(inst, p, d)) == BaseInserted(inst, Erased(inst, p), d)
  {
    hide Find, Erased, Extended;
    ErasedTables(inst, p, d);
    var t := p.trailerOf[d];
    if Find(p.shifts, p.shiftId[t]) >= 0 {
      var arrival := ArrivalAt(inst, p, d, BASE);
      var stop := Stop(BASE, 0, arrival, arrival, false, 0, p.driving[d] + inst.travel(p.place[t].location, BASE));
      ErasedExtended(inst, p, d, stop, 0, Place(BASE, arrival + inst.drivers[d].minInterShift), p.stock[t]);
    }
  }

  lemma {:induction false} ErasedEnded(inst: Instance, p: Plan, d: nat)
    requires Equipped(inst, p, d)
    ensures Equipped(inst, Erased(inst, p), d)
    ensures Erased(inst, Ended(inst, p, d)) == Ended(inst, Erased(inst, p), d)
  {
    ErasedBaseInserted(inst, p, d);
    hide BaseInserted, ErasedShifts;
  }

  lemma {:induction false} ErasedPaused(inst: Instance, p: Plan, duration: nat)
    ensures Erased(inst, Paused(p, duration)) == Paused(Erased(inst, p), duration)
  {
  }

  // ---- the invariant of times ----

  /** The builder's invariant, but for what it says of quantities. */
  ghost predicate Timely(inst: Instance, p: Plan) {
    Inv(inst, Erased(inst, p))
  }

  lemma {:induction false} TimelyVisited(inst: Instance, p: Plan, d: nat, l: nat, quantity: int)
    requires inst.Valid() && Timely(inst, p) && Equipped(inst, p, d) && l != BASE
    ensures Timely(inst, Visited(inst, p, d, l, quantity))
  {
    hide Inv, Visited;
    ErasedVisited(inst, p, d, l, quantity);
    VisitedKeeps(inst, Erased(inst, p), d, l, 0);
  }

  lemma {:induction false} TimelyEnded(inst: Instance, p: Plan, d: nat)
    requires inst.Valid() && Timely(inst, p) && Equipped(inst, p, d)
    ensures Timely(inst, Ended(inst, p, d))
  {
    hide Inv, Ended;
    ErasedEnded(inst, p, d);
    EndedKeeps(inst, Erased(inst, p), d);
  }

  lemma {:induction false} TimelyPaused(inst: Instance, p: Plan, duration: nat)
    requires Timely(inst, p)
    ensures Timely(inst, Paused(p, duration))
  {
    hide Inv;
    ErasedPaused(inst, p, duration);
    PausedKeeps(inst, Erased(inst, p), duration);
  }

  lemma {:induction false} TimelyAssigned(inst: Instance, p: Plan)
    requires Timely(inst, p)
    ensures Assigned(inst, p)
  {
    var e := Erased(inst, p);
    forall d | d in p.trailerOf ensures Equipped(inst, p, d) {
      assert Equipped(inst, e, d);
    }
  }

  lemma {:induction false} TimelyEndsAtBase(inst: Instance, p: Plan, d: nat)
    requires inst.Valid() && Timely(inst, p) && Equipped(inst, p, d)
    ensures Ended(inst, p, d).place[p.trailerOf[d]].location == BASE
  {
    hide Inv, Ended;
    ErasedEnded(inst, p, d);
    EndedKeeps(inst, Erased(inst, p), d);
    assert Erased(inst, Ended(inst, p, d)).place == Ended(inst, p, d).place;
  }

  // ---- what it means to the checks ----

  lemma {:induction false} ErasedShiftTimely(inst: Instance, s: Shift)
    requires ShiftTimely(inst, ErasedShift(inst, s))
    ensures ShiftTimely(inst, s)
  {
    var e := ErasedShift(inst, s);
    forall i | 0 <= i < |s.route| ensures ReachedInTime(inst, s, i) {
      assert ReachedInTime(inst, e, i);
    }
    forall i | 0 <= i < |s.route| - 1 ensures SetUp(inst, s.route[i]) {
      assert SetUp(inst, e.route[i]);
    }
    forall i | 0 < i < |s.route| ensures !s.route[i].layoverBefore {
      assert !e.route[i].layoverBefore;
    }
  }

  /** The rest and overlap checks see no quantities. */
  lemma {:induction false} TimelyIsLinked(inst: Instance, p: Plan, link: Link)
    requires inst.Valid() && Timely(inst, p) && link != Stock
    ensures InOrder(link, p.shifts) && Linked(inst, link, p.shifts) && Linked(inst, link, Sorted(p.shifts))
  {
    var e := Erased(inst, p);
    hide Inv, Linked, Sorted, Find;
    InvIsInOrder(inst, e, link);
    forall i | 0 <= i < |p.shifts|
      ensures e.shifts[i].departureTime == p.shifts[i].departureTime
      ensures KeyOf(link, e.shifts[i]) == KeyOf(link, p.shifts[i])
    {
    }
    assert RestedInOrder(inst, p, link, p.shifts);
    RestedIsLinked(inst, p, link, p.shifts);
    SortedLinked(inst, link, p.shifts);
  }

  lemma {:induction false} TimelyShift(inst: Instance, p: Plan, i: nat)
    requires inst.Valid() && Timely(inst, p) && i < |p.shifts|
    ensures ShiftTimely(inst, p.shifts[i])
  {
    hide Inv, Linked, Sorted, ShiftTimely;
    InvIsSilent(inst, Erased(inst, p));
    assert ShiftSilent(inst, Erased(inst, p).shifts[i]);
    ErasedShiftTimely(inst, p.shifts[i]);
  }

  // ---- the stock from one shift to the next ----

  /** A trailer holds what its last shift left, and each shift started so. */
  ghost predicate StockFollows(inst: Instance, p: Plan) {
    && Linked(inst, Stock, p.shifts)
    && forall t :: t in p.stock && t in inst.trailers ==> p.stock[t] == StockAfter(inst, p.shifts, t)
  }

  /** The k-th shift is its trailer's last. */
  ghost predicate IsLastOf(shifts: seq<Shift>, k: int, t: nat) {
    0 <= k < |shifts| && shifts[k].trailer == t && forall i :: k < i < |shifts| ==> shifts[i].trailer != t
  }

  lemma {:induction false} ErasedLastOf(inst: Instance, shifts: seq<Shift>, k: int, t: nat)
    requires IsLastOf(ErasedShifts(inst, shifts), k, t)
    ensures IsLastOf(shifts, k, t)
  {
    var e := ErasedShifts(inst, shifts);
    forall i | k < i < |shifts| ensures shifts[i].trailer != t {
      assert e[i].trailer != t;
    }
  }

  lemma {:induction false} OnRouteIsLast(inst: Instance, p: Plan, d: nat)
    requires Equipped(inst, p, d) && OnRoute(inst, p, d)
    ensures IsLastOf(p.shifts, Find(p.shifts, p.shiftId[p.trailerOf[d]]), p.trailerOf[d])
  {
    hide Find, FinalStock;
  }

  /** An opened shift is its trailer's last. */
  lemma {:induction false} OpenedIsLast(inst: Instance, p: Plan, d: nat)
    requires inst.Valid() && Timely(inst, p) && Equipped(inst, p, d)
    ensures var o := Opened(inst, p, d);
      IsLastOf(o.shifts, Find(o.shifts, p.shiftId[p.trailerOf[d]]), p.trailerOf[d])
  {
    hide Inv, Opened, OnRoute, Find, IsLastOf, Instance.Valid;
    var o, e := Opened(inst, p, d), Erased(inst, p);
    ErasedOpened(inst, p, d);
    OpenedTables(inst, p, d);
    OpenedKeeps(inst, e, d);
    OnRouteIsLast(inst, Erased(inst, o), d);
    FindErased(inst, o.shifts, p.shiftId[p.trailerOf[d]]);
    ErasedLastOf(inst, o.shifts, Find(o.shifts, p.shiftId[p.trailerOf[d]]), p.trailerOf[d]);
  }

  /** So is a shift still open. */
  lemma {:induction false} OpenIsLast(inst: Instance, p: Plan, d: nat)
    requires Timely(inst, p) && Equipped(inst, p, d) && Find(p.shifts, p.shiftId[p.trailerOf[d]]) >= 0
    ensures IsLastOf(p.shifts, Find(p.shifts, p.shiftId[p.trailerOf[d]]), p.trailerOf[d])
  {
    hide Inv, OnRoute, Find, IsLastOf;
    ErasedTables(inst, p, d);
    OfInv(inst, Erased(inst, p), d);
    OnRouteIsLast(inst, Erased(inst, p), d);
    ErasedLastOf(inst, p.shifts, Find(p.shifts, p.shiftId[p.trailerOf[d]]), p.trailerOf[d]);
  }

  lemma {:induction false} NewShiftFollows(inst: Instance, p: Plan, s: Shift, u: nat)
    requires StockFollows(inst, p) && s.trailer in p.stock && s.trailer in inst.trailers
    requires s.initialQuantity == p.stock[s.trailer] && s.route == [BaseStop(s.departureTime)]
    requires u in p.stock && u in inst.trailers
    ensures Linked(inst, Stock, p.shifts + [s])
    ensures p.stock[u] == StockAfter(inst, p.shifts + [s], u)
  {
    hide Linked, Latest;
    Appended(inst, p.shifts, s, s.id, s.trailer);
    Appended(inst, p.shifts, s, s.id, u);
    assert StockAt(s, 0) == s.initialQuantity && StockAt(s, 1) == s.initialQuantity;
    assert FinalStock(s) == StockAt(s, 1);
  }

  lemma {:induction false} OpenedFollows(inst: Instance, p: Plan, d: nat)
    requires Equipped(inst, p, d) && StockFollows(inst, p)
    ensures StockFollows(inst, Opened(inst, p, d))
  {
    hide Find, Linked, StockAfter, FinalStock;
    var o, t := Opened(inst, p, d), p.trailerOf[d];
    if o != p {
      var s := Last(o.shifts);
      assert o.shifts == p.shifts + [s];
      NewShiftFollows(inst, p, s, t);
      forall u | u in o.stock && u in inst.trailers ensures o.stock[u] == StockAfter(inst, o.shifts, u) {
        NewShiftFollows(inst, p, s, u);
      }
    }
  }

  lemma {:induction false} StopFollows(inst: Instance, shifts: seq<Shift>, k: nat, stop: Stop, u: nat)
    requires Linked(inst, Stock, shifts) && k < |shifts| && IsLastOf(shifts, k, shifts[k].trailer)
    requires u in inst.trailers
    ensures var x := shifts[k := WithStop(shifts[k], stop)];
      && Linked(inst, Stock, x)
      && StockAfter(inst, x, u) == StockAfter(inst, shifts, u) + if u == shifts[k].trailer then stop.quantity else 0
  {
    hide Linked, Latest, FinalStock, StockAt;
    var s := WithStop(shifts[k], stop);
    var x := shifts[k := s];
    ReplacedLinked(inst, shifts, k, s);
    StockWithStop(shifts[k], stop);
    LatestIs(shifts, k);
    LatestIs(x, k);
    Replaced(shifts, k, s, s.id, u);
  }

  lemma {:induction false} ExtendedFollows(
    inst: Instance, p: Plan, d: nat, stop: Stop, driving: int, place: Place)
    requires Equipped(inst, p, d) && StockFollows(inst, p)
    requires IsLastOf(p.shifts, Find(p.shifts, p.shiftId[p.trailerOf[d]]), p.trailerOf[d])
    ensures StockFollows(inst, Extended(p, d, stop, driving, place, p.stock[p.trailerOf[d]] + stop.quantity))
  {
    hide Find, Linked, StockAfter, WithStop;
    var t := p.trailerOf[d];
    var k, x := Find(p.shifts, p.shiftId[t]), Extended(p, d, stop, driving, place, p.stock[t] + stop.quantity);
    StopFollows(inst, p.shifts, k, stop, t);
    forall u | u in x.stock && u in inst.trailers ensures x.stock[u] == StockAfter(inst, x.shifts, u) {
      StopFollows(inst, p.shifts, k, stop, u);
    }
  }

  lemma {:induction false} VisitedFollows(inst: Instance, p: Plan, d: nat, l: nat, quantity: int)
    requires inst.Valid() && Timely(inst, p) && Equipped(inst, p, d) && StockFollows(inst, p)
    ensures StockFollows(inst, Visited(inst, p, d, l, quantity))
  {
    hide Timely, StockFollows, Opened, Extended, IsLastOf, Instance.Valid, Find;
    var o := Opened(inst, p, d);
    OpenedTables(inst, p, d);
    OpenedIsLast(inst, p, d);
    OpenedFollows(inst, p, d);
    var stop := NextStop(inst, o, d, l, quantity);
    ExtendedFollows(inst, o, d, stop, stop.cumulatedDriving, Place(l, stop.departure));
  }

  lemma {:induction false} EndedFollows(inst: Instance, p: Plan, d: nat)
    requires Timely(inst, p) && Equipped(inst, p, d) && StockFollows(inst, p)
    ensures StockFollows(inst, Ended(inst, p, d))
  {
    hide Timely, Extended, IsLastOf, Find, Linked, StockAfter;
    var t := p.trailerOf[d];
    if Find(p.shifts, p.shiftId[t]) >= 0 {
      OpenIsLast(inst, p, d);
      var arrival := ArrivalAt(inst, p, d, BASE);
      var stop := Stop(BASE, 0, arrival, arrival, false, 0, p.driving[d] + inst.travel(p.place[t].location, BASE));
      ExtendedFollows(inst, p, d, stop, 0, Place(BASE, arrival + inst.drivers[d].minInterShift));
    }
  }

  lemma {:induction false} StockIsLinked(inst: Instance, p: Plan)
    requires inst.Valid() && Timely(inst, p) && StockFollows(inst, p)
    ensures Linked(inst, Stock, Sorted(p.shifts))
  {
    hide Inv, Linked, Sorted, StockAfter;
    var e := Erased(inst, p);
    InvIsInOrder(inst, e, Stock);
    forall i, j | 0 <= i < j < |p.shifts| && KeyOf(Stock, p.shifts[i]) == KeyOf(Stock, p.shifts[j])
      ensures p.shifts[i].departureTime <= p.shifts[j].departureTime
    {
      assert KeyOf(Stock, e.shifts[i]) == KeyOf(Stock, e.shifts[j]);
    }
    SortedLinked(inst, Stock, p.shifts);
  }

  /** A visit adds the last stop of the trailer's last shift, and the trailer
      holds what that shift leaves it. */
  lemma {:induction false} VisitIsLast(inst: Instance, p: Plan, d: nat, l: nat, quantity: int) returns (k: nat)
    requires inst.Valid() && Timely(inst, p) && Equipped(inst, p, d) && StockFollows(inst, p)
    ensures var v, t := Visited(inst, p, d, l, quantity), p.trailerOf[d];
      && IsLastOf(v.shifts, k, t) && t in v.stock && FinalStock(v.shifts[k]) == v.stock[t]
      && v.shifts[k].route != [] && Last(v.shifts[k].route).location == l
      && Last(v.shifts[k].route).quantity == quantity
  {
    hide Timely, Opened, Find, Linked, FinalStock, Instance.Valid;
    var o, t := Opened(inst, p, d), p.trailerOf[d];
    OpenedTables(inst, p, d);
    OpenedIsLast(inst, p, d);
    VisitedFollows(inst, p, d, l, quantity);
    k := Find(o.shifts, p.shiftId[t]);
    LatestIs(Visited(inst, p, d, l, quantity).shifts, k);
  }

  // ---- the driving times counted again ----

  /** The stored driving times are those counted. */
  ghost predicate IsRecounted(inst: Instance, s: Shift) {
    forall j :: 0 <= j < |s.route| ==> s.route[j].cumulatedDriving == Driven(inst, s.route, j)
  }

  lemma {:induction false} RecountedIff(inst: Instance, s: Shift)
    ensures IsRecounted(inst, s) <==> Recounted(inst, s) == s
  {
    hide Driven;
    var r := Recounted(inst, s);
    assert |r.route| == |s.route| && forall j :: 0 <= j < |s.route| ==>
      r.route[j] == s.route[j].(cumulatedDriving := Driven(inst, s.route, j));
    if IsRecounted(inst, s) {
      assert r.route == s.route;
    }
  }

  lemma {:induction false} ErasedDriven(inst: Instance, route: seq<Stop>, n: nat)
    requires n < |route|
    ensures Driven(inst, ErasedRoute(route), n) == Driven(inst, route, n)
  {
    if n > 0 {
      ErasedDriven(inst, route, n - 1);
    }
  }

  lemma {:induction false} ErasedIsRecounted(inst: Instance, s: Shift)
    requires IsRecounted(inst, ErasedShift(inst, s))
    ensures IsRecounted(inst, s)
  {
    hide Driven;
    forall j | 0 <= j < |s.route| ensures s.route[j].cumulatedDriving == Driven(inst, s.route, j) {
      ErasedDriven(inst, s.route, j);
      assert ErasedShift(inst, s).route[j].cumulatedDriving == s.route[j].cumulatedDriving;
    }
  }

  lemma {:induction false} ErasedIsValid(inst: Instance, p: Plan, i: nat)
    requires Timely(inst, p) && i < |p.shifts|
    ensures ValidShift(inst, ErasedShift(inst, p.shifts[i]))
  {
    hide ValidShift, VehicleOk, Linked, IdsOk, Rested, Owned;
    assert ValidShift(inst, Erased(inst, p).shifts[i]);
  }

  lemma {:induction false} RecountedShift(inst: Instance, p: Plan, i: nat)
    requires inst.Valid() && Timely(inst, p) && i < |p.shifts|
    ensures Recounted(inst, p.shifts[i]) == p.shifts[i]
  {
    hide *;
    var s := p.shifts[i];
    ErasedIsValid(inst, p, i);
    RecountChangesNothing(inst, ErasedShift(inst, s));
    RecountedIff(inst, ErasedShift(inst, s));
    ErasedIsRecounted(inst, s);
    RecountedIff(inst, s);
  }
}
