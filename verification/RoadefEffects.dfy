/** What each move of the greedy route builder does to its tables, said in terms
    of the tables before and after. */
module RoadefEffects {
  import opened RoadefModel
  import opened RoadefPlan
  import opened RoadefSafety
  import opened RoadefRuns

  // ---- the schedule ----

  /** The trailer's open shift got one more stop. If it had none, there is a new
      shift that leaves the base when and with what the trailer did. */
  ghost predicate StopAdded(p: Plan, v: Plan, d: nat, stop: Stop)
    requires d in p.trailerOf && p.trailerOf[d] in p.place && p.trailerOf[d] in p.stock && p.trailerOf[d] in p.shiftId
  {
    var t := p.trailerOf[d];
    var id, time := p.shiftId[t], p.place[t].time;
    || (exists k :: 0 <= k < |p.shifts| && p.shifts[k].id == id
          && v.shifts == p.shifts[k := p.shifts[k].(route := p.shifts[k].route + [stop])])
    || ((forall k :: 0 <= k < |p.shifts| ==> p.shifts[k].id != id)
        && v.shifts == p.shifts
             + [Shift(id, d, t, time, p.stock[t], [Stop(BASE, 0, time, time, false, 0, 0), stop])])
  }

  /** Nothing is said of other drivers and trailers because nothing changes. */
  predicate OnlyFor(p: Plan, v: Plan, d: nat, t: nat) {
    && v.trailerOf == p.trailerOf && v.place.Keys == p.place.Keys
    && v.stock.Keys == p.stock.Keys && v.driving.Keys == p.driving.Keys
    && (forall u :: u in p.place && u != t ==> v.place[u] == p.place[u])
    && (forall u :: u in p.stock && u != t ==> v.stock[u] == p.stock[u])
    && (forall e :: e in p.driving && e != d ==> v.driving[e] == p.driving[e])
  }

  // ---- a visit ----

  /** The driver goes from where the trailer is to location l, and leaves after
      the setup there. */
  ghost predicate Visits(inst: Instance, p: Plan, v: Plan, d: nat, l: nat)
    requires Equipped(inst, p, d)
  {
    var t := p.trailerOf[d];
    var travelTime := inst.travel(p.place[t].location, l);
    var arrival := p.place[t].time + travelTime;
    var departure := arrival + inst.SetupTime(l);
    && OnlyFor(p, v, d, t) && v.shiftId == p.shiftId && v.nextId == p.nextId
    && v.place[t] == Place(l, departure) && v.driving[d] == p.driving[d] + travelTime
    && StopAdded(p, v, d, Stop(l, v.stock[t] - p.stock[t], arrival, departure, false, 0, p.driving[d] + travelTime))
  }

  lemma {:induction false} FindIs(shifts: seq<Shift>, id: nat)
    ensures var k := Find(shifts, id);
      (k >= 0 ==> shifts[k].id == id) && (k < 0 ==> forall i :: 0 <= i < |shifts| ==> shifts[i].id != id)
  {
    FindFails(shifts, id);
  }

  lemma {:induction false} FindAppended(shifts: seq<Shift>, s: Shift)
    ensures Find(shifts + [s], s.id) == |shifts|
  {
    FrontOfMore(shifts, s);
  }

  lemma {:induction false} OpenedThenAdded(inst: Instance, p: Plan, d: nat, stop: Stop, v: Plan)
    requires Equipped(inst, p, d)
    requires var o := Opened(inst, p, d);
      var k := Find(o.shifts, p.shiftId[p.trailerOf[d]]);
      v.shifts == o.shifts[k := WithStop(o.shifts[k], stop)]
    ensures StopAdded(p, v, d, stop)
  {
    var o, id := Opened(inst, p, d), p.shiftId[p.trailerOf[d]];
    FindIs(p.shifts, id);
    hide Instance.Valid;
    if Find(p.shifts, id) < 0 {
      var first := o.shifts[|p.shifts|];
      assert o.shifts == p.shifts + [first];
      FindAppended(p.shifts, first);
      assert WithStop(first, stop).route == [first.route[0], stop];
      hide Find, Opened;
    } else {
      assert o == p;
      hide Find, Opened;
    }
  }

  lemma {:induction false} VisitedVisits(inst: Instance, p: Plan, d: nat, l: nat, quantity: int)
    requires Equipped(inst, p, d)
    ensures var v := Visited(inst, p, d, l, quantity);
      && Visits(inst, p, v, d, l) && v.stock[p.trailerOf[d]] == p.stock[p.trailerOf[d]] + quantity
      && v.tanks == p.tanks && v.lastRefill == p.lastRefill
  {
    hide Find, StopAdded;
    var o := Opened(inst, p, d);
    OpenedThenAdded(inst, p, d, NextStop(inst, o, d, l, quantity), Visited(inst, p, d, l, quantity));
  }

  /** What is said of schedule and tables stays true with other tanks. */
  lemma {:induction false} VisitsWithTanks(inst: Instance, p: Plan, v: Plan, x: Plan, d: nat, l: nat)
    requires Equipped(inst, p, d) && Visits(inst, p, v, d, l)
    requires x == v.(tanks := x.tanks, lastRefill := x.lastRefill)
    ensures Visits(inst, p, x, d, l)
  {
  }

  // ---- a delivery ----

  /** What leaves the trailer is in the tank from the hour of arrival on, and
      either the trailer is empty or the tank is full at that hour. */
  ghost predicate StockMoved(inst: Instance, p: Plan, v: Plan, c: nat, t: nat, hour: nat)
    requires c in inst.customers && c in p.tanks && hour < |p.tanks[c]| && t in p.stock
  {
    && t in v.stock && v.stock[t] >= 0
    && v.tanks.Keys == p.tanks.Keys && (forall e :: e in p.tanks && e != c ==> v.tanks[e] == p.tanks[e])
    && |v.tanks[c]| == |p.tanks[c]|
    && (forall h :: 0 <= h < hour ==> v.tanks[c][h] == p.tanks[c][h])
    && (forall h :: hour <= h < |p.tanks[c]| ==> v.stock[t] + v.tanks[c][h] == p.stock[t] + p.tanks[c][h])
    && v.tanks[c][hour] <= inst.customers[c].capacity
    && (v.stock[t] == 0 || v.tanks[c][hour] == inst.customers[c].capacity)
  }

  ghost predicate Delivers(inst: Instance, p: Plan, v: Plan, c: nat, d: nat)
    requires Possible(inst, p, Deliver(c, d))
  {
    && Visits(inst, p, v, d, c) && StockMoved(inst, p, v, c, p.trailerOf[d], ArrivalAt(inst, p, d, c) / UNIT)
    && v.lastRefill == p.lastRefill[c := ArrivalAt(inst, p, d, c)]
  }

  lemma {:induction false} DeliveryDelivers(inst: Instance, p: Plan, c: nat, d: nat)
    requires Possible(inst, p, Deliver(c, d))
    ensures Delivers(inst, p, CustomerInserted(inst, p, c, d), c, d)
  {
    var v, x := Visited(inst, p, d, c, -MaxQuantity(inst, p, c, d)), CustomerInserted(inst, p, c, d);
    assert x == v.(tanks := x.tanks, lastRefill := x.lastRefill);
    assert x.lastRefill == p.lastRefill[c := ArrivalAt(inst, p, d, c)] by {
      VisitedVisits(inst, p, d, c, -MaxQuantity(inst, p, c, d));
    }
    hide CustomerInserted, Visited, Visits, StockMoved, MaxQuantity, ArrivalAt;
    VisitedVisits(inst, p, d, c, -MaxQuantity(inst, p, c, d));
    VisitsWithTanks(inst, p, v, x, d, c);
    DeliveryMovesStock(inst, p, c, d);
  }

  /** How much is delivered. */
  lemma {:induction false} DeliveryMovesStock(inst: Instance, p: Plan, c: nat, d: nat)
    requires Possible(inst, p, Deliver(c, d))
    ensures StockMoved(inst, p, CustomerInserted(inst, p, c, d), c, p.trailerOf[d], ArrivalAt(inst, p, d, c) / UNIT)
  {
    VisitedVisits(inst, p, d, c, -MaxQuantity(inst, p, c, d));
    hide Visited, Visits, Find, Equipped;
  }

  // ---- a loading ----

  /** The trailer leaves the source full. */
  ghost predicate Loads(inst: Instance, p: Plan, v: Plan, s: nat, d: nat)
    requires Possible(inst, p, Load(s, d))
  {
    && Visits(inst, p, v, d, s) && v.tanks == p.tanks && v.lastRefill == p.lastRefill
    && v.stock[p.trailerOf[d]] == inst.trailers[p.trailerOf[d]].capacity
  }

  lemma {:induction false} LoadingLoads(inst: Instance, p: Plan, s: nat, d: nat)
    requires Possible(inst, p, Load(s, d))
    ensures Loads(inst, p, SourceInserted(inst, p, s, d), s, d)
  {
    hide Visited, Visits, Find;
    VisitedVisits(inst, p, d, s, inst.trailers[p.trailerOf[d]].capacity - p.stock[p.trailerOf[d]]);
  }

  // ---- a return ----

  /** A trailer with an open shift is at the base after the way there and its
      driver's rest; one without stays. */
  ghost predicate Returns(inst: Instance, p: Plan, v: Plan, d: nat)
    requires Equipped(inst, p, d)
  {
    var t := p.trailerOf[d];
    var travelTime := inst.travel(p.place[t].location, BASE);
    var arrival := p.place[t].time + travelTime;
    && OnlyFor(p, v, d, t) && v.stock == p.stock && v.tanks == p.tanks && v.lastRefill == p.lastRefill
    && if forall k :: 0 <= k < |p.shifts| ==> p.shifts[k].id != p.shiftId[t]
       then v.place == p.place && v.driving == p.driving && v.shifts == p.shifts
       else
         && v.place[t] == Place(BASE, arrival + inst.drivers[d].minInterShift) && v.driving[d] == 0
         && StopAdded(p, v, d, Stop(BASE, 0, arrival, arrival, false, 0, p.driving[d] + travelTime))
  }

  lemma {:induction false} ReturnReturns(inst: Instance, p: Plan, d: nat)
    requires Equipped(inst, p, d)
    ensures Returns(inst, p, BaseInserted(inst, p, d), d)
    ensures BaseInserted(inst, p, d).shiftId == p.shiftId && BaseInserted(inst, p, d).nextId == p.nextId
  {
    FindIs(p.shifts, p.shiftId[p.trailerOf[d]]);
    hide Find;
    var v, k := BaseInserted(inst, p, d), Find(p.shifts, p.shiftId[p.trailerOf[d]]);
    if k >= 0 {
      assert v.shifts == p.shifts[k := p.shifts[k].(route := p.shifts[k].route + [Last(v.shifts[k].route)])];
      assert v.stock == p.stock;
    }
  }

  /** And a new id for the trailer's next shift. */
  ghost predicate Ends(inst: Instance, p: Plan, v: Plan, d: nat)
    requires Equipped(inst, p, d)
  {
    Returns(inst, p, v, d) && v.shiftId == p.shiftId[p.trailerOf[d] := p.nextId] && v.nextId == p.nextId + 1
  }

  lemma {:induction false} EndingEnds(inst: Instance, p: Plan, d: nat)
    requires Equipped(inst, p, d)
    ensures Ends(inst, p, Ended(inst, p, d), d)
  {
    ReturnReturns(inst, p, d);
    hide BaseInserted, Find;
    var b, v := BaseInserted(inst, p, d), Ended(inst, p, d);
    assert v == b.(shiftId := v.shiftId, nextId := v.nextId);
  }

  // ---- a pause ----

  /** Exactly the working trailers at the base leave that much later. */
  ghost predicate Waits(p: Plan, v: Plan, duration: int) {
    && v == p.(place := v.place) && v.place.Keys == p.place.Keys
    && (forall d :: d in p.trailerOf && p.trailerOf[d] in p.place && p.place[p.trailerOf[d]].location == BASE ==>
          v.place[p.trailerOf[d]] == Place(BASE, p.place[p.trailerOf[d]].time + duration))
    && (forall t ::
          t in p.place && (p.place[t].location != BASE || forall d :: d in p.trailerOf ==> p.trailerOf[d] != t)
          ==> v.place[t] == p.place[t])
  }

  lemma {:induction false} PauseWaits(p: Plan, duration: int)
    ensures Waits(p, Paused(p, duration), duration)
  {
    var v := Paused(p, duration);
    forall t | t in p.place && (p.place[t].location != BASE || forall d :: d in p.trailerOf ==> p.trailerOf[d] != t)
      ensures v.place[t] == p.place[t]
    {
      if t in p.trailerOf.Values {
        var d :| d in p.trailerOf && p.trailerOf[d] == t;
      }
    }
  }

  // ---- the way home ----

  predicate IsNearestSource(inst: Instance, p: Plan, d: nat, s: nat)
    requires Equipped(inst, p, d)
  {
    var from := p.place[p.trailerOf[d]].location;
    s in inst.sources && forall u :: u in inst.sources ==> inst.travel(from, s) <= inst.travel(from, u)
  }

  /** A trailer that is not full loads at the nearest source if that leaves time
      to return; then the shift ends. */
  ghost predicate GoesHome(inst: Instance, p: Plan, d: nat, made: seq<Move>)
    requires Equipped(inst, p, d)
  {
    if p.stock[p.trailerOf[d]] == inst.trailers[p.trailerOf[d]].capacity then made == [EndShift(d)]
    else exists s :: (IsNearestSource(inst, p, d, s)
      && made == if WithinDriving(inst, p, d, s) then [Load(s, d), EndShift(d)] else [EndShift(d)])
  }

  /** So it is full at the base, or has what it had and the nearest source leaves
      no time to return. */
  ghost predicate IsHome(inst: Instance, p: Plan, v: Plan, d: nat)
    requires Equipped(inst, p, d)
  {
    var t := p.trailerOf[d];
    && t in v.place && v.place[t].location == BASE && t in v.stock
    && (v.stock[t] == inst.trailers[t].capacity
        || (v.stock[t] == p.stock[t] && exists s :: IsNearestSource(inst, p, d, s) && !WithinDriving(inst, p, d, s)))
  }

  /** Nothing has happened to the driver and the trailer. */
  predicate SameFor(p: Plan, q: Plan, d: nat) {
    && q.trailerOf == p.trailerOf && d in p.trailerOf
    && var t := p.trailerOf[d];
       && t in p.place && t in q.place && q.place[t] == p.place[t]
       && t in p.stock && t in q.stock && q.stock[t] == p.stock[t]
       && d in p.driving && d in q.driving && q.driving[d] == p.driving[d]
  }

  lemma {:induction false} GoesHomeSame(inst: Instance, p: Plan, q: Plan, v: Plan, d: nat, made: seq<Move>)
    requires Equipped(inst, p, d) && Equipped(inst, q, d) && SameFor(p, q, d)
    ensures GoesHome(inst, q, d, made) ==> GoesHome(inst, p, d, made)
    ensures IsHome(inst, q, v, d) ==> IsHome(inst, p, v, d)
  {
    forall s ensures IsNearestSource(inst, q, d, s) <==> IsNearestSource(inst, p, d, s) {}
    hide IsNearestSource;
    forall s ensures WithinDriving(inst, q, d, s) <==> WithinDriving(inst, p, d, s) {}
    hide WithinDriving, Equipped;
  }

  predicate IsBy(m: Move, d: nat) {
    !m.Pause? && m.driver == d
  }

  /** The moves of one driver, in order. */
  function MovesOf(moves: seq<Move>, d: nat): seq<Move> {
    if moves == [] then []
    else MovesOf(moves[..|moves| - 1], d) + if IsBy(Last(moves), d) then [Last(moves)] else []
  }

  lemma {:induction false} MovesOfMore(moves: seq<Move>, m: Move, d: nat)
    ensures MovesOf(moves + [m], d) == MovesOf(moves, d) + if IsBy(m, d) then [m] else []
  {
    FrontOfMore(moves, m);
  }

  lemma {:induction false} MovesOfHome(inst: Instance, p: Plan, moves: seq<Move>, made: seq<Move>, d: nat, e: nat)
    requires Equipped(inst, p, d) && GoesHome(inst, p, d, made)
    ensures MovesOf(moves + made, e) == if e == d then MovesOf(moves, e) + made else MovesOf(moves, e)
    ensures forall m :: m in made ==> IsBy(m, d)
  {
    hide MovesOf, IsNearestSource, WithinDriving, Equipped;
    MovesOfMore(moves, EndShift(d), e);
    if |made| == 2 {
      MovesOfMore(moves, made[0], e);
      MovesOfMore(moves + [made[0]], made[1], e);
      assert moves + made == moves + [made[0]] + [made[1]];
      assert made == [made[0]] + [made[1]];
    }
  }

  /** The drivers whose trailers are away. */
  function AwayFromBase(p: Plan): set<nat> {
    set d | d in p.trailerOf && p.trailerOf[d] in p.place && p.place[p.trailerOf[d]].location != BASE
  }

  /** From `start` on, each of the given drivers has gone home once, in some
      order, and no one else has moved. */
  ghost predicate WentHome(inst: Instance, start: Plan, p: Plan, moves: seq<Move>, gone: set<nat>)
    requires Assigned(inst, start)
  {
    && gone <= start.trailerOf.Keys && p.trailerOf == start.trailerOf && p.place.Keys == start.place.Keys
    && OnlyBy(moves, gone)
    && (forall d :: d in start.trailerOf ==> HasGone(inst, start, p, moves, d in gone, d))
  }

  predicate OnlyBy(moves: seq<Move>, drivers: set<nat>) {
    forall m :: m in moves ==> !m.Pause? && m.driver in drivers
  }

  lemma {:induction false} OnlyByMore(moves: seq<Move>, made: seq<Move>, drivers: set<nat>, d: nat)
    requires OnlyBy(moves, drivers) && forall m :: m in made ==> IsBy(m, d)
    ensures OnlyBy(moves + made, drivers + {d})
  {
  }

  ghost predicate HasGone(inst: Instance, start: Plan, p: Plan, moves: seq<Move>, gone: bool, d: nat)
    requires Equipped(inst, start, d)
  {
    if gone then GoesHome(inst, start, d, MovesOf(moves, d)) && IsHome(inst, start, p, d)
    else MovesOf(moves, d) == [] && SameFor(start, p, d)
  }

  lemma {:induction false} NoneHome(inst: Instance, start: Plan)
    requires Assigned(inst, start)
    ensures WentHome(inst, start, start, [], {})
  {
    forall d | d in start.trailerOf ensures HasGone(inst, start, start, [], false, d) {
      assert Equipped(inst, start, d);
    }
  }

  lemma WhereItIs(inst: Instance, start: Plan, p: Plan, moves: seq<Move>, gone: set<nat>, d: nat)
    requires Assigned(inst, start) && WentHome(inst, start, p, moves, gone) && d in start.trailerOf
    ensures d !in gone ==> SameFor(start, p, d)
    ensures p.trailerOf[d] in p.place && p.trailerOf[d] in start.place
    ensures d in gone ==> p.place[p.trailerOf[d]].location == BASE
  {
    assert HasGone(inst, start, p, moves, d in gone, d);
  }

  /** A driver's way home does not touch the others. */
  lemma {:induction false} OthersSame(inst: Instance, start: Plan, p: Plan, v: Plan, d: nat, e: nat)
    requires Assigned(inst, start) && d in start.trailerOf && e in start.trailerOf && e != d
    requires p.trailerOf == start.trailerOf && OnlyFor(p, v, d, p.trailerOf[d])
    ensures SameFor(start, p, e) ==> SameFor(start, v, e)
    ensures IsHome(inst, start, p, e) ==> IsHome(inst, start, v, e)
  {
    hide IsNearestSource, WithinDriving, Equipped;
  }

  lemma {:induction false} OneMoreHome(
    inst: Instance, start: Plan, p: Plan, v: Plan, moves: seq<Move>, made: seq<Move>, gone: set<nat>, d: nat)
    requires Assigned(inst, start) && WentHome(inst, start, p, moves, gone)
    requires d in start.trailerOf && d !in gone && Equipped(inst, p, d)
    requires OnlyFor(p, v, d, p.trailerOf[d]) && GoesHome(inst, p, d, made) && IsHome(inst, p, v, d)
    ensures WentHome(inst, start, v, moves + made, gone + {d})
  {
    assert v.trailerOf == p.trailerOf && v.place.Keys == p.place.Keys;
    hide HasGone, OnlyFor, GoesHome, IsHome, Equipped, OnlyBy, MovesOf;
    forall e | e in start.trailerOf ensures HasGone(inst, start, v, moves + made, e in gone + {d}, e) {
      assert HasGone(inst, start, p, moves, e in gone, e);
      OneMoreGone(inst, start, p, v, moves, made, e in gone, d, e);
    }
    MovesOfHome(inst, p, moves, made, d, d);
    OnlyByMore(moves, made, gone, d);
  }

  lemma {:induction false} OneMoreGone(
    inst: Instance, start: Plan, p: Plan, v: Plan, moves: seq<Move>, made: seq<Move>, gone: bool, d: nat, e: nat)
    requires Assigned(inst, start) && d in start.trailerOf && e in start.trailerOf && (e == d ==> !gone)
    requires p.trailerOf == start.trailerOf && HasGone(inst, start, p, moves, gone, e) && Equipped(inst, p, d)
    requires OnlyFor(p, v, d, p.trailerOf[d]) && GoesHome(inst, p, d, made) && IsHome(inst, p, v, d)
    ensures HasGone(inst, start, v, moves + made, gone || e == d, e)
  {
    hide OnlyFor, GoesHome, IsHome, SameFor, MovesOf, Equipped;
    MovesOfHome(inst, p, moves, made, d, e);
    if e == d {
      GoesHomeSame(inst, start, p, v, d, made);
      assert [] + made == made;
    } else {
      OthersSame(inst, start, p, v, d, e);
    }
  }
}
