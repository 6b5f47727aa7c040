/** Runs of the greedy route builder: any sequence of moves from the initial
    plan that its methods can make, and those whose deliveries are in turn. */
module RoadefRuns {
  import opened Wrappers
  import opened RoadefModel
  import opened RoadefChecker
  import opened RoadefTanks
  import opened RoadefPlan
  import opened RoadefMoves
  import opened RoadefSafety
  import opened RoadefErased

  datatype Move =
    | Deliver(customer: nat, driver: nat)
    | Load(source: nat, driver: nat)
    | EndShift(driver: nat)
    | Pause(duration: nat)

  /** The builder's methods can make the move: a delivery arrives within the
      horizon, and all tables have what it needs. */
  ghost predicate Possible(inst: Instance, p: Plan, m: Move) {
    match m
    case Deliver(c, d) =>
      && Equipped(inst, p, d) && c in inst.customers && c in p.tanks && |p.tanks[c]| == inst.horizon
      && 0 <= ArrivalAt(inst, p, d, c) / UNIT < inst.horizon
    case Load(s, d) => Equipped(inst, p, d) && s in inst.sources
    case EndShift(d) => Equipped(inst, p, d)
    case Pause(_) => true
  }

  /** And a delivery is in turn. */
  ghost predicate Guarded(inst: Instance, p: Plan, m: Move) {
    Possible(inst, p, m) && (m.Deliver? ==> InTurn(inst, p, m.customer, m.driver))
  }

  function Applied(inst: Instance, p: Plan, m: Move): Plan
    requires Possible(inst, p, m)
  {
    match m
    case Deliver(c, d) => CustomerInserted(inst, p, c, d)
    case Load(s, d) => SourceInserted(inst, p, s, d)
    case EndShift(d) => Ended(inst, p, d)
    case Pause(duration) => Paused(p, duration)
  }

  /** The move leaves its driver time to return. */
  ghost predicate Returning(inst: Instance, p: Plan, m: Move)
    requires Possible(inst, p, m)
  {
    match m
    case Deliver(c, d) => WithinDriving(inst, p, d, c)
    case Load(s, d) => WithinDriving(inst, p, d, s)
    case EndShift(_) => true
    case Pause(_) => true
  }

  ghost predicate Good(inst: Instance, p: Plan) {
    inst.Valid() && Inv(inst, p) && TanksOk(inst, p)
  }

  lemma StockInBounds(inst: Instance, p: Plan, d: nat)
    requires inst.Valid() && Inv(inst, p) && d in p.trailerOf
    ensures Equipped(inst, p, d)
    ensures 0 <= p.stock[p.trailerOf[d]] <= inst.trailers[p.trailerOf[d]].capacity
  {
    hide Find, Linked, Latest, ValidShift, IdsOk;
    OfInv(inst, p, d);
    if !AtBase(inst, p, d) {
      RouteEndsAt(inst, p, d);
    }
  }

  lemma LocationIsReal(inst: Instance, l: nat)
    requires inst.Valid()
    ensures l in inst.sources ==> inst.IsSource(l) && !inst.IsCustomer(l) && l != BASE && l !in inst.customers
    ensures l in inst.customers ==> inst.IsCustomer(l) && !inst.IsSource(l) && l != BASE
  {
  }

  lemma {:induction false} InvIgnoresTanks(inst: Instance, p: Plan, x: Plan)
    requires Inv(inst, p) && x == p.(tanks := x.tanks, lastRefill := x.lastRefill)
    ensures Inv(inst, x)
  {
    hide Find, Linked, Latest, ValidShift;
    StillAssigned(inst, p, x);
    forall d | d in x.trailerOf ensures VehicleOk(inst, x, d) {
      assert VehicleOk(inst, p, d);
    }
  }

  /** A delivery finds the tank not above its capacity. */
  ghost predicate FindsRoom(inst: Instance, p: Plan, m: Move)
    requires Possible(inst, p, m)
  {
    match m
    case Deliver(c, d) => p.tanks[c][ArrivalAt(inst, p, d, c) / UNIT] <= inst.customers[c].capacity
    case _ => true
  }

  lemma {:induction false} RoomyKeepsInv(inst: Instance, p: Plan, m: Move)
    requires inst.Valid() && Inv(inst, p) && Possible(inst, p, m) && FindsRoom(inst, p, m)
    ensures Inv(inst, Applied(inst, p, m))
  {
    hide Find, Inv, Visited, Ended;
    match m
    case Deliver(c, d) =>
      StockInBounds(inst, p, d);
      LocationIsReal(inst, c);
      var v := Visited(inst, p, d, c, -MaxQuantity(inst, p, c, d));
      VisitedKeeps(inst, p, d, c, -MaxQuantity(inst, p, c, d));
      InvIgnoresTanks(inst, v, CustomerInserted(inst, p, c, d));
    case Load(s, d) =>
      StockInBounds(inst, p, d);
      LocationIsReal(inst, s);
      VisitedKeeps(inst, p, d, s, inst.trailers[p.trailerOf[d]].capacity - p.stock[p.trailerOf[d]]);
    case EndShift(d) => EndedKeeps(inst, p, d);
    case Pause(duration) => PausedKeeps(inst, p, duration);
  }

  lemma PauseKeepsTanks(inst: Instance, p: Plan, duration: nat)
    requires inst.Valid() && TanksOk(inst, p)
    ensures TanksOk(inst, Paused(p, duration))
  {
    forall c | c in inst.customers ensures TankOk(inst, Paused(p, duration), c) {
      assert TankOk(inst, p, c);
    }
  }

  lemma GuardedFindsRoom(inst: Instance, p: Plan, m: Move)
    requires Good(inst, p) && Guarded(inst, p, m)
    ensures Possible(inst, p, m) && FindsRoom(inst, p, m)
  {
    hide Inv, InTurn;
    if m.Deliver? {
      assert TankOk(inst, p, m.customer);
    }
  }

  lemma {:induction false} MoveKeepsTanks(inst: Instance, p: Plan, m: Move)
    requires Good(inst, p) && Guarded(inst, p, m)
    ensures TanksOk(inst, Applied(inst, p, m))
  {
    hide Find, Inv, TanksOk;
    match m
    case Deliver(c, d) =>
      StockInBounds(inst, p, d);
      CustomerKeepsTanks(inst, p, c, d);
    case Load(s, d) => SourceKeepsTanks(inst, p, s, d);
    case EndShift(d) => EndedKeepsTanks(inst, p, d);
    case Pause(duration) => PauseKeepsTanks(inst, p, duration);
  }

  /** Every guarded move keeps the plan good. */
  lemma {:induction false} MoveKeepsGood(inst: Instance, p: Plan, m: Move)
    requires Good(inst, p) && Guarded(inst, p, m)
    ensures Good(inst, Applied(inst, p, m))
  {
    hide Inv, TanksOk, Guarded, Possible, Applied, FindsRoom;
    GuardedFindsRoom(inst, p, m);
    RoomyKeepsInv(inst, p, m);
    MoveKeepsTanks(inst, p, m);
  }

  lemma {:induction false} DeliverKeepsDriving(inst: Instance, p: Plan, c: nat, d: nat)
    requires inst.Valid() && Assigned(inst, p) && DrivingInv(inst, p) && DriversMatch(p)
    requires Possible(inst, p, Deliver(c, d)) && WithinDriving(inst, p, d, c)
    ensures Assigned(inst, CustomerInserted(inst, p, c, d)) && DrivingInv(inst, CustomerInserted(inst, p, c, d))
  {
    hide Find, DrivingInv, Assigned, DriversMatch;
    DrivingVisited(inst, p, d, c, -MaxQuantity(inst, p, c, d));
    DrivingIgnoresTanks(inst, Visited(inst, p, d, c, -MaxQuantity(inst, p, c, d)), CustomerInserted(inst, p, c, d));
  }

  /** With the driving guard as well, drivers stay within their limits. */
  lemma {:induction false} MoveKeepsDriving(inst: Instance, p: Plan, m: Move)
    requires inst.Valid() && Assigned(inst, p) && DrivingInv(inst, p) && DriversMatch(p)
    requires Possible(inst, p, m) && Returning(inst, p, m)
    ensures Assigned(inst, Applied(inst, p, m)) && DrivingInv(inst, Applied(inst, p, m))
  {
    hide Find, DrivingInv, Assigned, DriversMatch;
    match m
    case Deliver(c, d) => DeliverKeepsDriving(inst, p, c, d);
    case Load(s, d) =>
      DrivingVisited(inst, p, d, s, inst.trailers[p.trailerOf[d]].capacity - p.stock[p.trailerOf[d]]);
    case EndShift(d) => DrivingEnded(inst, p, d);
    case Pause(duration) =>
      StillAssigned(inst, p, Paused(p, duration));
      DrivingPaused(inst, p, duration);
  }

  lemma DrivingIgnoresTanks(inst: Instance, p: Plan, x: Plan)
    requires Assigned(inst, p) && DrivingInv(inst, p) && x == p.(tanks := x.tanks, lastRefill := x.lastRefill)
    ensures Assigned(inst, x) && DrivingInv(inst, x)
  {
    DrivingRenumbered(inst, p, x);
  }

  // ---- what every possible move keeps ----

  /** The builder's invariant, but for the bounds and signs of quantities. */
  ghost predicate Orderly(inst: Instance, p: Plan) {
    Timely(inst, p) && StockFollows(inst, p)
  }

  lemma {:induction false} OrderlyIgnoresTanks(inst: Instance, p: Plan, x: Plan)
    requires Orderly(inst, p) && x == p.(tanks := x.tanks, lastRefill := x.lastRefill)
    ensures Orderly(inst, x)
  {
    hide Inv, Linked, StockAfter;
    InvIgnoresTanks(inst, Erased(inst, p), Erased(inst, x));
  }

  lemma {:induction false} OrderlyVisited(inst: Instance, p: Plan, d: nat, l: nat, quantity: int)
    requires inst.Valid() && Orderly(inst, p) && Equipped(inst, p, d) && l != BASE
    ensures Orderly(inst, Visited(inst, p, d, l, quantity))
  {
    hide Timely, StockFollows;
    TimelyVisited(inst, p, d, l, quantity);
    VisitedFollows(inst, p, d, l, quantity);
  }

  lemma {:induction false} PausedFollows(inst: Instance, p: Plan, duration: nat)
    requires StockFollows(inst, p)
    ensures StockFollows(inst, Paused(p, duration))
  {
    hide Linked, StockAfter;
  }

  lemma {:induction false} MoveKeepsOrderly(inst: Instance, p: Plan, m: Move)
    requires inst.Valid() && Orderly(inst, p) && Possible(inst, p, m)
    ensures Orderly(inst, Applied(inst, p, m))
  {
    hide Instance.Valid, Timely, StockFollows, Visited, Ended;
    match m
    case Deliver(c, d) =>
      LocationIsReal(inst, c);
      var v := Visited(inst, p, d, c, -MaxQuantity(inst, p, c, d));
      OrderlyVisited(inst, p, d, c, -MaxQuantity(inst, p, c, d));
      OrderlyIgnoresTanks(inst, v, CustomerInserted(inst, p, c, d));
    case Load(s, d) =>
      LocationIsReal(inst, s);
      OrderlyVisited(inst, p, d, s, inst.trailers[p.trailerOf[d]].capacity - p.stock[p.trailerOf[d]]);
    case EndShift(d) =>
      TimelyEnded(inst, p, d);
      EndedFollows(inst, p, d);
    case Pause(duration) =>
      TimelyPaused(inst, p, duration);
      PausedFollows(inst, p, duration);
  }

  lemma {:induction false} PausedKeepsSums(inst: Instance, p: Plan, duration: nat)
    requires inst.Forecasted() && TanksSum(inst, p)
    ensures TanksSum(inst, Paused(p, duration))
  {
    forall c | c in inst.customers ensures TankSums(inst, Paused(p, duration), c) {
      assert TankSums(inst, p, c);
    }
  }

  lemma {:induction false} MoveKeepsSums(inst: Instance, p: Plan, m: Move)
    requires inst.Numbered() && inst.Forecasted() && TanksSum(inst, p) && Possible(inst, p, m)
    ensures TanksSum(inst, Applied(inst, p, m))
  {
    hide Instance.Numbered, Instance.Forecasted, TanksSum, CustomerInserted, SourceInserted, Ended, Paused;
    match m
    case Deliver(c, d) => CustomerKeepsSums(inst, p, c, d);
    case Load(s, d) => SourceKeepsSums(inst, p, s, d);
    case EndShift(d) => EndedKeepsSums(inst, p, d);
    case Pause(duration) => PausedKeepsSums(inst, p, duration);
  }

  // ---- runs ----

  ghost predicate Run(inst: Instance, p: Plan, moves: seq<Move>)
    decreases |moves|
  {
    moves == [] || (Possible(inst, p, moves[0]) && Run(inst, Applied(inst, p, moves[0]), moves[1..]))
  }

  ghost function After(inst: Instance, p: Plan, moves: seq<Move>): Plan
    requires Run(inst, p, moves)
    decreases |moves|
  {
    if moves == [] then p else After(inst, Applied(inst, p, moves[0]), moves[1..])
  }

  /** Every delivery of the run is in turn. */
  ghost predicate InTurnRun(inst: Instance, p: Plan, moves: seq<Move>)
    requires Run(inst, p, moves)
    decreases |moves|
  {
    moves == [] || (Guarded(inst, p, moves[0]) && InTurnRun(inst, Applied(inst, p, moves[0]), moves[1..]))
  }

  ghost predicate GuardedRun(inst: Instance, p: Plan, moves: seq<Move>) {
    Run(inst, p, moves) && InTurnRun(inst, p, moves)
  }

  ghost predicate ReturningRun(inst: Instance, p: Plan, moves: seq<Move>)
    requires Run(inst, p, moves)
    decreases |moves|
  {
    moves == [] || (Returning(inst, p, moves[0]) && ReturningRun(inst, Applied(inst, p, moves[0]), moves[1..]))
  }

  lemma {:induction false} RunKeepsOrderly(inst: Instance, p: Plan, moves: seq<Move>)
    requires inst.Valid() && Orderly(inst, p) && Run(inst, p, moves)
    ensures Orderly(inst, After(inst, p, moves))
    decreases |moves|
  {
    hide Instance.Valid, Orderly, Possible, Applied;
    if moves != [] {
      MoveKeepsOrderly(inst, p, moves[0]);
      RunKeepsOrderly(inst, Applied(inst, p, moves[0]), moves[1..]);
    }
  }

  lemma {:induction false} RunKeepsSums(inst: Instance, p: Plan, moves: seq<Move>)
    requires inst.Numbered() && inst.Forecasted() && TanksSum(inst, p) && Run(inst, p, moves)
    ensures TanksSum(inst, After(inst, p, moves))
    decreases |moves|
  {
    hide Instance.Numbered, Instance.Forecasted, TanksSum, Possible, Applied;
    if moves != [] {
      MoveKeepsSums(inst, p, moves[0]);
      RunKeepsSums(inst, Applied(inst, p, moves[0]), moves[1..]);
    }
  }

  lemma {:induction false} RunKeepsGood(inst: Instance, p: Plan, moves: seq<Move>)
    requires Good(inst, p) && GuardedRun(inst, p, moves)
    ensures Good(inst, After(inst, p, moves))
    decreases |moves|
  {
    hide Good, Guarded, Possible, Applied;
    if moves != [] {
      MoveKeepsGood(inst, p, moves[0]);
      RunKeepsGood(inst, Applied(inst, p, moves[0]), moves[1..]);
    }
  }

  lemma {:induction false} TimelyDriversMatch(inst: Instance, p: Plan)
    requires Timely(inst, p)
    ensures DriversMatch(p)
  {
    var e := Erased(inst, p);
    InvDriversMatch(inst, e);
    hide Inv, Find;
    forall d | d in p.trailerOf && p.trailerOf[d] in p.shiftId
      ensures var k := Find(p.shifts, p.shiftId[p.trailerOf[d]]); k >= 0 ==> p.shifts[k].driver == d
    {
      FindErased(inst, p.shifts, p.shiftId[p.trailerOf[d]]);
    }
  }

  lemma {:induction false} RunKeepsDriving(inst: Instance, p: Plan, moves: seq<Move>)
    requires inst.Valid() && Orderly(inst, p) && Assigned(inst, p) && DrivingInv(inst, p)
    requires Run(inst, p, moves) && ReturningRun(inst, p, moves)
    ensures Assigned(inst, After(inst, p, moves)) && DrivingInv(inst, After(inst, p, moves))
    decreases |moves|
  {
    hide Instance.Valid, Timely, StockFollows, Possible, Applied, Assigned, DrivingInv, Returning, DriversMatch;
    if moves != [] {
      TimelyDriversMatch(inst, p);
      MoveKeepsOrderly(inst, p, moves[0]);
      MoveKeepsDriving(inst, p, moves[0]);
      RunKeepsDriving(inst, Applied(inst, p, moves[0]), moves[1..]);
    }
  }

  lemma {:induction false} RunExtended(inst: Instance, p: Plan, moves: seq<Move>, m: Move)
    requires Run(inst, p, moves) && Possible(inst, After(inst, p, moves), m)
    ensures Run(inst, p, moves + [m])
    ensures After(inst, p, moves + [m]) == Applied(inst, After(inst, p, moves), m)
    ensures InTurnRun(inst, p, moves) && Guarded(inst, After(inst, p, moves), m) ==> InTurnRun(inst, p, moves + [m])
    ensures ReturningRun(inst, p, moves) && Returning(inst, After(inst, p, moves), m) ==>
      ReturningRun(inst, p, moves + [m])
    decreases |moves|
  {
    hide Guarded, Possible, Applied, Returning;
    if moves == [] {
      assert [m][1..] == [] && moves + [m] == [m];
    } else {
      RunExtended(inst, Applied(inst, p, moves[0]), moves[1..], m);
      assert (moves + [m])[1..] == moves[1..] + [m];
    }
  }

  lemma {:induction false} RunOfTwo(inst: Instance, p: Plan, first: Move, second: Move)
    requires Guarded(inst, p, first) && Guarded(inst, Applied(inst, p, first), second)
    ensures GuardedRun(inst, p, [first, second])
    ensures After(inst, p, [first, second]) == Applied(inst, Applied(inst, p, first), second)
  {
    assert Possible(inst, p, first) && Possible(inst, Applied(inst, p, first), second);
    hide Guarded, Possible, Applied, Returning;
    RunExtended(inst, p, [], first);
    RunExtended(inst, p, [first], second);
    assert [] + [first] == [first] && [first] + [second] == [first, second];
  }

  /** A plan that guarded moves within the driving limits lead to. */
  ghost predicate Reached(inst: Instance, start: Plan, moves: seq<Move>, p: Plan) {
    && inst.Valid() && Orderly(inst, p)
    && GuardedRun(inst, start, moves) && ReturningRun(inst, start, moves) && p == After(inst, start, moves)
    && (Good(inst, start) ==> Good(inst, p))
  }

  lemma {:induction false} ReachedByMove(inst: Instance, start: Plan, moves: seq<Move>, p: Plan, m: Move)
    requires Reached(inst, start, moves, p) && Guarded(inst, p, m) && Returning(inst, p, m)
    ensures Reached(inst, start, moves + [m], Applied(inst, p, m))
  {
    assert Possible(inst, p, m);
    hide Guarded, Possible, Applied, Returning, Good, Orderly, Instance.Valid;
    RunExtended(inst, start, moves, m);
    MoveKeepsOrderly(inst, p, m);
    if Good(inst, start) {
      MoveKeepsGood(inst, p, m);
    }
  }

  // ---- what the guards of the source code give ----

  datatype Entry = Entry(slack: int, distance: int)

  /** What is noted of driver d and customer c: a positive slack only if the
      driver can be there before the last possible visit, within the driving
      limit and not too soon after the last refill. */
  function EntryOf(inst: Instance, p: Plan, d: nat, c: nat, lastVisit: int, distance: (nat, nat) -> int): Entry
    requires Equipped(inst, p, d) && c in p.lastRefill
  {
    var from := p.place[p.trailerOf[d]].location;
    if from == c then Entry(0, 0)
    else if WithinDriving(inst, p, d, c) && ArrivalAt(inst, p, d, c) >= p.lastRefill[c] + REFILL_INTERVAL
    then Entry(lastVisit - ArrivalAt(inst, p, d, c), distance(from, c))
    else Entry(0, -1)
  }

  lemma {:induction false} ArrivesAfterStart(inst: Instance, p: Plan, d: nat, l: nat)
    requires inst.Valid() && Inv(inst, p) && Equipped(inst, p, d)
    ensures ArrivalAt(inst, p, d, l) >= 0
  {
    assert VehicleOk(inst, p, d);
    hide Inv, Find, FinalStock, StockAfter, Rested;
    assert p.place[p.trailerOf[d]].time >= 0;
  }

  /** Delivering to a customer with positive slack meets every guard. */
  lemma {:induction false} PositiveSlackIsGuarded(
    inst: Instance, p: Plan, d: nat, c: nat, lastVisit: int, distance: (nat, nat) -> int)
    requires Good(inst, p) && d in p.trailerOf && Equipped(inst, p, d) && c in inst.customers && c in p.lastRefill
    requires lastVisit <= UNIT * inst.horizon && EntryOf(inst, p, d, c, lastVisit, distance).slack > 0
    ensures Guarded(inst, p, Deliver(c, d)) && Returning(inst, p, Deliver(c, d))
  {
    assert TankOk(inst, p, c);
    ArrivesAfterStart(inst, p, d, c);
    hide Inv, TanksOk, Instance.Valid, TankAt;
    assert 0 <= ArrivalAt(inst, p, d, c) < UNIT * inst.horizon;
    hide WithinDriving, ArrivalAt;
  }

  /** An hour before the tank first runs dry, counted from the last refill;
      nothing if it does not. */
  ghost predicate IsLastVisit(tank: seq<int>, lastRefill: int, visit: Option<int>) {
    var first := if lastRefill < 0 then 0 else lastRefill / UNIT;
    match visit
    case None => forall h :: first <= h < |tank| ==> tank[h] > 0
    case Some(v) => exists dry :: (first <= dry < |tank| && tank[dry] <= 0
      && (forall h :: first <= h < dry ==> tank[h] > 0)
      && v == if dry == 0 then 0 else UNIT * (dry - 1))
  }

  /** What a positive slack is for: the driver arrives while the tank has not run
      dry since the last refill, and more than an hour before it would. */
  lemma {:induction false} PositiveSlackFindsStock(
    inst: Instance, p: Plan, d: nat, c: nat, lastVisit: int, distance: (nat, nat) -> int, h: nat)
    requires inst.Valid() && Inv(inst, p) && Equipped(inst, p, d) && c in p.lastRefill && c in p.tanks
    requires IsLastVisit(p.tanks[c], p.lastRefill[c], Some(lastVisit))
    requires EntryOf(inst, p, d, c, lastVisit, distance).slack > 0
    requires p.lastRefill[c] / UNIT <= h <= ArrivalAt(inst, p, d, c) / UNIT + 1
    ensures h < |p.tanks[c]| && p.tanks[c][h] > 0
  {
    ArrivesAfterStart(inst, p, d, c);
    hide Inv, Instance.Valid, WithinDriving;
    var first := if p.lastRefill[c] < 0 then 0 else p.lastRefill[c] / UNIT;
    var tank := p.tanks[c];
    var dry :| first <= dry < |tank| && tank[dry] <= 0 && (forall h :: first <= h < dry ==> tank[h] > 0)
      && lastVisit == if dry == 0 then 0 else UNIT * (dry - 1);
    assert lastVisit > ArrivalAt(inst, p, d, c);
  }

  /** What `find_closest_source` found for a customer it answers 1 for: with
      the triangle inequality the trailer may load there, and then deliver. */
  lemma DetourIsWithinDriving(inst: Instance, p: Plan, d: nat, s: nat, c: nat)
    requires inst.Valid() && inst.Triangle() && Equipped(inst, p, d) && s in inst.sources
    requires var from := p.place[p.trailerOf[d]].location;
      p.driving[d] + inst.travel(from, s) + inst.travel(s, c) + inst.travel(c, BASE) <= inst.drivers[d].maxDriving
    ensures WithinDriving(inst, p, d, s)
    ensures WithinDriving(inst, SourceInserted(inst, p, s, d), d, c)
  {
    hide Find;
    assert inst.travel(s, BASE) <= inst.travel(s, c) + inst.travel(c, BASE);
  }

  /** Where the trailer stands after loading, with nothing refilled meanwhile. */
  lemma {:induction false} AfterLoading(inst: Instance, p: Plan, d: nat, s: nat)
    requires Equipped(inst, p, d) && s in inst.sources
    ensures var v, t := SourceInserted(inst, p, s, d), p.trailerOf[d];
      && Equipped(inst, v, d) && v.trailerOf == p.trailerOf && v.lastRefill == p.lastRefill && v.tanks == p.tanks
      && v.place[t] == Place(s, ArrivalAt(inst, p, d, s) + inst.SetupTime(s))
  {
    hide Find;
  }

  /** A detour by a source takes time. */
  lemma {:induction false} DetourArrivesLater(inst: Instance, p: Plan, d: nat, s: nat, c: nat)
    requires inst.Valid() && inst.Triangle() && Equipped(inst, p, d) && s in inst.sources
    ensures Equipped(inst, SourceInserted(inst, p, s, d), d)
    ensures ArrivalAt(inst, SourceInserted(inst, p, s, d), d, c) >= ArrivalAt(inst, p, d, c)
  {
    AfterLoading(inst, p, d, s);
    var from := p.place[p.trailerOf[d]].location;
    TriangleAt(inst, from, s, c);
    assert inst.SetupTime(s) >= 0;
  }

  /** An entry of a later plan that is not negative, of a visit that was and still
      is allowed. */
  lemma {:induction false} LaterEntryIsGuarded(
    inst: Instance, p: Plan, v: Plan, d: nat, c: nat, lastVisit: int, distance: (nat, nat) -> int)
    requires Equipped(inst, p, d) && Equipped(inst, v, d) && c in inst.customers
    requires c in p.lastRefill && v.lastRefill == p.lastRefill && c in v.tanks && |v.tanks[c]| == inst.horizon
    requires lastVisit < UNIT * inst.horizon && EntryOf(inst, p, d, c, lastVisit, distance).slack > 0
    requires 0 <= ArrivalAt(inst, p, d, c) <= ArrivalAt(inst, v, d, c)
    requires v.place[v.trailerOf[d]].location != c && WithinDriving(inst, v, d, c)
    requires EntryOf(inst, v, d, c, lastVisit, distance).slack >= 0
    ensures Guarded(inst, v, Deliver(c, d)) && Returning(inst, v, Deliver(c, d))
  {
    hide WithinDriving, ArrivalAt;
    assert ArrivalAt(inst, v, d, c) <= lastVisit;
  }

  /** After loading on the way the source delivers if the new entry is not
      negative. If the old one was positive, that delivery meets every guard: the
      new entry cannot be the 0 of a visit that is not allowed. */
  lemma {:induction false} DetourThenDelivers(
    inst: Instance, p: Plan, d: nat, s: nat, c: nat, lastVisit: int, distance: (nat, nat) -> int)
    requires Good(inst, p) && inst.Triangle() && Equipped(inst, p, d)
    requires s in inst.sources && c in inst.customers && c in p.lastRefill
    requires lastVisit < UNIT * inst.horizon && EntryOf(inst, p, d, c, lastVisit, distance).slack > 0
    requires var from := p.place[p.trailerOf[d]].location;
      p.driving[d] + inst.travel(from, s) + inst.travel(s, c) + inst.travel(c, BASE) <= inst.drivers[d].maxDriving
    ensures Guarded(inst, p, Load(s, d)) && Returning(inst, p, Load(s, d))
    ensures var v := Applied(inst, p, Load(s, d));
      && Equipped(inst, v, d) && c in v.lastRefill
      && (EntryOf(inst, v, d, c, lastVisit, distance).slack >= 0 ==>
            Guarded(inst, v, Deliver(c, d)) && Returning(inst, v, Deliver(c, d)))
  {
    assert TankOk(inst, p, c);
    hide Instance.Triangle, Instance.Valid, Inv, TanksOk, TankAt, SourceInserted, WithinDriving, ArrivalAt, EntryOf;
    ArrivesAfterStart(inst, p, d, c);
    DetourIsWithinDriving(inst, p, d, s, c);
    DetourArrivesLater(inst, p, d, s, c);
    AfterLoading(inst, p, d, s);
    SourceIsNoCustomer(inst, s, c);
    var v := Applied(inst, p, Load(s, d));
    if EntryOf(inst, v, d, c, lastVisit, distance).slack >= 0 {
      LaterEntryIsGuarded(inst, p, v, d, c, lastVisit, distance);
    }
  }

  lemma {:induction false} SourceIsNoCustomer(inst: Instance, s: nat, c: nat)
    requires inst.Valid() && s in inst.sources && c in inst.customers
    ensures s != c
  {
  }

  // ---- the initial plan ----

  /** Compatible pairs, one driver to a trailer. */
  ghost predicate IsAssignment(inst: Instance, assignment: map<nat, nat>) {
    && (forall d :: d in assignment ==> MayDrive(inst, d, assignment[d]))
    && (forall d, e :: d in assignment && e in assignment && assignment[d] == assignment[e] ==> d == e)
  }

  predicate MayDrive(inst: Instance, d: nat, t: nat) {
    d in inst.drivers && t in inst.drivers[d].trailers && t in inst.trailers
  }

  /** Every trailer has its own shift id, below the next one. */
  ghost predicate FreshIds(inst: Instance, ids: map<nat, nat>, nextId: nat) {
    && ids.Keys == inst.trailers.Keys
    && (forall t :: t in ids ==> ids[t] < nextId)
    && (forall t, u :: t in ids && u in ids && ids[t] == ids[u] ==> t == u)
  }

  const REFILL_INTERVAL: int := 60 * 12

  function PlacesAtStart(inst: Instance): map<nat, Place> {
    map t | t in inst.trailers :: Place(BASE, 0)
  }

  function StockAtStart(inst: Instance): map<nat, int> {
    map t | t in inst.trailers :: inst.trailers[t].initialQuantity
  }

  function DrivingAtStart(inst: Instance): map<nat, int> {
    map d | d in inst.drivers :: 0
  }

  function RefillsAtStart(inst: Instance): map<nat, int> {
    map c | c in inst.customers :: -REFILL_INTERVAL
  }

  /** What `initialize` sets up, and the tanks computed from no shifts. */
  ghost predicate IsInitial(inst: Instance, p: Plan) {
    && IsAssignment(inst, p.trailerOf) && FreshIds(inst, p.shiftId, p.nextId)
    && p.shifts == []
    && p.place == PlacesAtStart(inst) && p.stock == StockAtStart(inst)
    && p.driving == DrivingAtStart(inst) && p.lastRefill == RefillsAtStart(inst)
    && p.tanks.Keys == inst.customers.Keys
    && forall c :: c in inst.customers ==> InitialTank(inst, p, c)
  }

  ghost predicate InitialTank(inst: Instance, p: Plan, c: nat)
    requires c in inst.customers
  {
    && c in p.tanks && |p.tanks[c]| == inst.horizon <= |inst.customers[c].forecast|
    && forall h :: 0 <= h < inst.horizon ==> p.tanks[c][h] == TankAt(inst, [], c, h)
  }

  lemma InitiallyAssigned(inst: Instance, p: Plan)
    requires IsInitial(inst, p)
    ensures Assigned(inst, p)
  {
    hide InitialTank;
    forall d | d in p.trailerOf ensures Equipped(inst, p, d) {
      assert MayDrive(inst, d, p.trailerOf[d]);
    }
  }

  lemma InitialVehicle(inst: Instance, p: Plan, d: nat)
    requires inst.Valid() && IsInitial(inst, p) && Equipped(inst, p, d)
    ensures AtBase(inst, p, d) && CanReturn(inst, p, d)
  {
    hide InitialTank, IsAssignment, FreshIds;
  }

  lemma InitialConsistent(inst: Instance, p: Plan)
    requires IsInitial(inst, p) && Assigned(inst, p)
    ensures Consistent(inst, p)
  {
    hide InitialTank, IsAssignment, ValidShift;
  }

  lemma InitialVehicles(inst: Instance, p: Plan)
    requires inst.Valid() && IsInitial(inst, p) && Assigned(inst, p)
    ensures Inv(inst, p) && DrivingInv(inst, p)
  {
    assert p.shifts == [];
    hide IsInitial, AtBase, CanReturn, Consistent;
    InitialConsistent(inst, p);
    forall d | d in p.trailerOf ensures Equipped(inst, p, d) && AtBase(inst, p, d) && CanReturn(inst, p, d) {
      InitialVehicle(inst, p, d);
    }
  }

  lemma InitialTanks(inst: Instance, p: Plan)
    requires inst.Valid() && IsInitial(inst, p)
    ensures TanksOk(inst, p)
  {
    forall c | c in inst.customers ensures TankOk(inst, p, c) {
      assert InitialTank(inst, p, c);
      assert inst.ValidCustomer(inst.customers[c]);
      forall h | 0 <= h < inst.horizon ensures p.tanks[c][h] <= inst.customers[c].capacity {
        ConsumptionGrows(inst.customers[c].forecast, 0, h + 1);
      }
    }
  }

  lemma InitialIsGood(inst: Instance, p: Plan)
    requires inst.Valid() && IsInitial(inst, p)
    ensures Good(inst, p) && Assigned(inst, p) && DrivingInv(inst, p)
  {
    hide IsInitial, TanksOk, DrivingInv;
    InitiallyAssigned(inst, p);
    InitialVehicles(inst, p);
    InitialTanks(inst, p);
  }

  // ---- deliveries stay within the horizon ----

  lemma StopKeepsHorizon(inst: Instance, shifts: seq<Shift>, k: nat, stop: Stop)
    requires AllInHorizon(inst, shifts) && k < |shifts| && InHorizon(inst, stop)
    ensures AllInHorizon(inst, shifts[k := WithStop(shifts[k], stop)])
  {
    var x := shifts[k := WithStop(shifts[k], stop)];
    forall i, j | 0 <= i < |x| && 0 <= j < |x[i].route| ensures InHorizon(inst, x[i].route[j]) {
      assert j < |shifts[i].route| ==> InHorizon(inst, shifts[i].route[j]);
    }
  }

  lemma OpenedKeepsHorizon(inst: Instance, p: Plan, d: nat)
    requires AllInHorizon(inst, p.shifts) && Equipped(inst, p, d)
    ensures AllInHorizon(inst, Opened(inst, p, d).shifts)
  {
    hide Find;
    var o := Opened(inst, p, d);
    forall i, j | 0 <= i < |o.shifts| && 0 <= j < |o.shifts[i].route| ensures InHorizon(inst, o.shifts[i].route[j]) {
      assert i < |p.shifts| ==> o.shifts[i] == p.shifts[i];
    }
  }

  lemma VisitedKeepsHorizon(inst: Instance, p: Plan, d: nat, l: nat, quantity: int)
    requires AllInHorizon(inst, p.shifts) && Equipped(inst, p, d)
    requires inst.IsCustomer(l) ==> l in inst.customers && 0 <= ArrivalAt(inst, p, d, l) / UNIT < inst.horizon
    ensures AllInHorizon(inst, Visited(inst, p, d, l, quantity).shifts)
  {
    hide Find, AllInHorizon;
    OpenedKeepsHorizon(inst, p, d);
    var o := Opened(inst, p, d);
    StopKeepsHorizon(inst, o.shifts, Find(o.shifts, o.shiftId[o.trailerOf[d]]), NextStop(inst, o, d, l, quantity));
  }

  lemma {:induction false} MoveKeepsHorizon(inst: Instance, p: Plan, m: Move)
    requires inst.Numbered() && AllInHorizon(inst, p.shifts) && Possible(inst, p, m)
    ensures AllInHorizon(inst, Applied(inst, p, m).shifts)
  {
    hide Find, AllInHorizon;
    match m
    case Deliver(c, d) =>
      VisitedKeepsHorizon(inst, p, d, c, -MaxQuantity(inst, p, c, d));
    case Load(s, d) =>
      assert inst.IsSource(s);
      VisitedKeepsHorizon(inst, p, d, s, inst.trailers[p.trailerOf[d]].capacity - p.stock[p.trailerOf[d]]);
    case EndShift(d) =>
      var k := Find(p.shifts, p.shiftId[p.trailerOf[d]]);
      if k >= 0 {
        StopKeepsHorizon(inst, p.shifts, k, Last(Ended(inst, p, d).shifts[k].route));
      }
    case Pause(_) =>
  }

  lemma {:induction false} RunKeepsHorizon(inst: Instance, p: Plan, moves: seq<Move>)
    requires inst.Numbered() && AllInHorizon(inst, p.shifts) && Run(inst, p, moves)
    ensures AllInHorizon(inst, After(inst, p, moves).shifts)
    decreases |moves|
  {
    hide AllInHorizon, Possible, Applied, Instance.Numbered;
    if moves != [] {
      MoveKeepsHorizon(inst, p, moves[0]);
      RunKeepsHorizon(inst, Applied(inst, p, moves[0]), moves[1..]);
    }
  }

  // ---- the main results: all runs ----

  lemma {:induction false} InitialIsErased(inst: Instance, p: Plan)
    requires IsInitial(inst, p)
    ensures Erased(inst, p) == p && StockFollows(inst, p)
  {
    assert p.shifts == [] && p.stock == StockAtStart(inst);
    hide IsInitial;
    assert ErasedShifts(inst, p.shifts) == p.shifts;
  }

  lemma {:induction false} InitialIsOrderly(inst: Instance, p: Plan)
    requires inst.Valid() && IsInitial(inst, p)
    ensures Orderly(inst, p)
  {
    InitialIsGood(inst, p);
    InitialIsErased(inst, p);
    hide IsInitial, Inv, Erased, TanksOk, DrivingInv, StockFollows, Instance.Valid;
  }

  lemma {:induction false} InitialSums(inst: Instance, p: Plan)
    requires inst.Forecasted() && IsInitial(inst, p)
    ensures TanksSum(inst, p)
  {
    forall c | c in inst.customers ensures TankSums(inst, p, c) {
      assert InitialTank(inst, p, c);
    }
  }

  /** Whatever moves the builder has made, in whatever order, in turn or not:
      every shift passes the timeline, setup and compatibility checks and lets the
      duration check through, and every shift starts with the stock, the rest and
      the end of its predecessor that the linking checks ask for. */
  lemma {:induction false} EveryRunIsTimely(inst: Instance, p: Plan, moves: seq<Move>)
    requires inst.Valid() && IsInitial(inst, p) && Run(inst, p, moves)
    ensures var shifts := After(inst, p, moves).shifts;
      && (forall i :: 0 <= i < |shifts| ==> ShiftTimely(inst, shifts[i]))
      && Linked(inst, Stock, Sorted(shifts)) && Linked(inst, Rest, Sorted(shifts))
      && Linked(inst, Overlap, Sorted(shifts))
  {
    hide Instance.Valid, IsInitial, Timely, StockFollows, ShiftTimely, Linked, Sorted;
    InitialIsOrderly(inst, p);
    RunKeepsOrderly(inst, p, moves);
    var after := After(inst, p, moves);
    forall i | 0 <= i < |after.shifts| ensures ShiftTimely(inst, after.shifts[i]) {
      TimelyShift(inst, after, i);
    }
    StockIsLinked(inst, after);
    TimelyIsLinked(inst, after, Rest);
    TimelyIsLinked(inst, after, Overlap);
  }

  lemma {:induction false} EveryRunSums(inst: Instance, p: Plan, moves: seq<Move>)
    requires inst.Numbered() && inst.Forecasted() && IsInitial(inst, p) && Run(inst, p, moves)
    ensures TanksSum(inst, After(inst, p, moves)) && AllInHorizon(inst, After(inst, p, moves).shifts)
  {
    assert AllInHorizon(inst, p.shifts);
    hide Instance.Numbered, IsInitial, TanksSum, AllInHorizon, After, Run;
    InitialSums(inst, p);
    RunKeepsSums(inst, p, moves);
    RunKeepsHorizon(inst, p, moves);
  }

  lemma {:induction false} LandedSums(inst: Instance, p: Plan, c: nat, h: nat)
    requires inst.Numbered() && inst.Forecasted() && TanksSum(inst, p) && AllInHorizon(inst, p.shifts)
    requires c in inst.customers && h < inst.horizon
    ensures h < |inst.customers[c].forecast| && AllIndexed(inst, p.shifts)
    ensures c in p.tanks && |p.tanks[c]| == inst.horizon
    ensures p.tanks[c][h] == TankAt(inst, p.shifts, c, h) == TankAt(inst, LandedShifts(inst, p.shifts), c, h)
  {
    assert TankSums(inst, p, c) && inst.IsCustomer(c);
    hide AllInHorizon, AllIndexed, LandedShifts, Delivered, Instance.Numbered;
    InHorizonIsLanded(inst, p.shifts, c, h);
  }

  /** The tank arrays updated in place are those `calculate_inventories` gives:
      the shifts are ones it can read, and hour by hour the array is what it sums
      up, with no quantity landing elsewhere than where it arrives. If deliveries
      are in turn, no tank is above its capacity. */
  lemma {:induction false} EveryRunKeepsTanks(inst: Instance, p: Plan, moves: seq<Move>, c: nat, h: nat)
    requires inst.Numbered() && inst.Forecasted() && IsInitial(inst, p) && Run(inst, p, moves)
    requires c in inst.customers && h < inst.horizon
    ensures h < |inst.customers[c].forecast| && AllIndexed(inst, After(inst, p, moves).shifts)
    ensures var after := After(inst, p, moves);
      && c in after.tanks && |after.tanks[c]| == inst.horizon
      && after.tanks[c][h] == TankAt(inst, after.shifts, c, h)
      && after.tanks[c][h] == TankAt(inst, LandedShifts(inst, after.shifts), c, h)
      && (inst.Valid() && GuardedRun(inst, p, moves) ==> after.tanks[c][h] <= inst.customers[c].capacity)
  {
    hide *;
    EveryRunSums(inst, p, moves);
    LandedSums(inst, After(inst, p, moves), c, h);
    if inst.Valid() && GuardedRun(inst, p, moves) {
      RunKeepsTank(inst, p, moves, c, h);
    }
  }

  lemma {:induction false} RecomputedTank(inst: Instance, p: Plan, c: nat, tank: seq<int>)
    requires inst.Numbered() && inst.Forecasted() && TanksSum(inst, p) && AllInHorizon(inst, p.shifts)
    requires c in inst.customers && |tank| == inst.horizon <= |inst.customers[c].forecast|
    requires forall h :: 0 <= h < inst.horizon ==> tank[h] == TankAt(inst, LandedShifts(inst, p.shifts), c, h)
    ensures c in p.tanks && tank == p.tanks[c]
  {
    assert TankSums(inst, p, c);
    hide Instance.Numbered, TanksSum, AllInHorizon, LandedShifts, TankAt;
    forall h | 0 <= h < inst.horizon ensures tank[h] == p.tanks[c][h] {
      LandedSums(inst, p, c, h);
    }
  }

  /** So recomputing the tanks after a run changes none of them. */
  method RecalculateAfter(inst: Instance, after: Plan, ghost p: Plan, ghost moves: seq<Move>)
    returns (tanks: Option<map<nat, seq<int>>>)
    requires inst.Numbered() && inst.Forecasted() && IsInitial(inst, p)
    requires Run(inst, p, moves) && after == After(inst, p, moves)
    ensures tanks.Some? && tanks.value.Keys == inst.customers.Keys <= after.tanks.Keys
    ensures forall c :: c in tanks.value ==> tanks.value[c] == after.tanks[c]
  {
    EveryRunSums(inst, p, moves);
    AllLanded(inst, after.shifts);
    tanks := CalculateInventories(inst, after.shifts);
    assert forall c :: c in inst.customers ==> inst.horizon <= |inst.customers[c].forecast|;
    hide *;
    forall c | c in inst.customers ensures c in after.tanks && tanks.value[c] == after.tanks[c] {
      RecomputedTank(inst, after, c, tanks.value[c]);
    }
  }

  /** If every visit leaves time to return, no driver exceeds the driving limit
      at any stop, and the driving times are those the checker counts. */
  lemma {:induction false} EveryReturningRunIsWithinDriving(inst: Instance, p: Plan, moves: seq<Move>, i: nat)
    requires inst.Valid() && IsInitial(inst, p) && Run(inst, p, moves) && ReturningRun(inst, p, moves)
    requires i < |After(inst, p, moves).shifts|
    ensures var s := After(inst, p, moves).shifts[i];
      s.driver in inst.drivers && DrivingOk(inst, s) && Recounted(inst, s) == s
  {
    hide Instance.Valid, IsInitial, DrivingOk, Timely, StockFollows, Recounted;
    InitialIsGood(inst, p);
    InitialIsOrderly(inst, p);
    RunKeepsOrderly(inst, p, moves);
    RunKeepsDriving(inst, p, moves);
    RecountedShift(inst, After(inst, p, moves), i);
  }

  // ---- the main results: runs in turn ----

  /** Where every delivery is in turn, the checker finds nothing else either: the
      stock of the trailers stays within its bounds, and the signs are right. */
  lemma {:induction false} EveryRunIsSilent(inst: Instance, p: Plan, moves: seq<Move>)
    requires inst.Valid() && IsInitial(inst, p) && GuardedRun(inst, p, moves)
    ensures Silent(inst, After(inst, p, moves).shifts)
  {
    hide IsInitial, Silent, Inv, TanksOk;
    InitialIsGood(inst, p);
    RunKeepsGood(inst, p, moves);
    InvIsSilent(inst, After(inst, p, moves));
  }

  /** Hour by hour, the tank array is within capacity. */
  lemma {:induction false} RunKeepsTank(inst: Instance, p: Plan, moves: seq<Move>, c: nat, h: nat)
    requires inst.Valid() && IsInitial(inst, p) && GuardedRun(inst, p, moves)
    requires c in inst.customers && h < inst.horizon
    ensures inst.ValidCustomer(inst.customers[c])
    ensures var after := After(inst, p, moves);
      && c in after.tanks && |after.tanks[c]| == inst.horizon
      && after.tanks[c][h] == TankAt(inst, after.shifts, c, h) <= inst.customers[c].capacity
  {
    hide IsInitial, Inv;
    InitialIsGood(inst, p);
    RunKeepsGood(inst, p, moves);
    assert TankOk(inst, After(inst, p, moves), c);
  }

  /** The shifts are ones the tanks can be recomputed from, and no customer's
      tank exceeds its capacity in what is recomputed: the site check is silent,
      and would be for the customer it skips. */
  lemma {:induction false} EveryRunPassesSiteCheck(inst: Instance, p: Plan, moves: seq<Move>)
    requires inst.Valid() && IsInitial(inst, p) && GuardedRun(inst, p, moves)
    ensures var shifts := After(inst, p, moves).shifts;
      && AllIndexed(inst, shifts)
      && forall c :: c in inst.customers ==> (
           && inst.ValidCustomer(inst.customers[c])
           && TankWithinCapacity(inst, shifts, c) && TankWithinCapacity(inst, LandedShifts(inst, shifts), c))
  {
    assert inst.Numbered() && inst.Forecasted();
    EveryRunSums(inst, p, moves);
    var shifts := After(inst, p, moves).shifts;
    hide After, Run, InTurnRun, IsInitial, AllIndexed, AllInHorizon, TanksSum;
    forall c | c in inst.customers
      ensures inst.ValidCustomer(inst.customers[c])
      ensures TankWithinCapacity(inst, shifts, c) && TankWithinCapacity(inst, LandedShifts(inst, shifts), c)
    {
      LandedTanks(inst, shifts, c);
      forall h | 0 <= h < inst.horizon ensures TankAt(inst, shifts, c, h) <= inst.customers[c].capacity {
        RunKeepsTank(inst, p, moves, c, h);
      }
    }
    AllLanded(inst, shifts);
  }
}
