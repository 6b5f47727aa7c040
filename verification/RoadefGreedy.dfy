/** The greedy route builder itself, roadef/solvers/Greedy.py: a class whose
    methods update its tables in place. */
module RoadefGreedy {
  import opened Wrappers
  import opened RoadefModel
  import opened RoadefTanks
  import opened RoadefPlan
  import opened RoadefSafety
  import opened RoadefErased
  import opened RoadefRuns
  import opened RoadefEffects

  /** What every method keeps, whichever deliveries were made: the schedule is in
      order, and the tanks are what would be recomputed from it. */
  ghost predicate Sound(inst: Instance, p: Plan) {
    inst.Valid() && inst.Forecasted() && Orderly(inst, p) && TanksSum(inst, p)
  }

  lemma {:induction false} StaysSound(inst: Instance, p: Plan, m: Move)
    requires Possible(inst, p, m)
    ensures Sound(inst, p) ==> Sound(inst, Applied(inst, p, m))
  {
    if Sound(inst, p) {
      assert inst.Numbered();
      hide Instance.Valid, Instance.Numbered, Orderly, TanksSum, Possible, Applied;
      MoveKeepsOrderly(inst, p, m);
      MoveKeepsSums(inst, p, m);
    }
  }

  /** Every trailer at the base at time 0 with its initial stock and a shift id from
      1 on; no driving yet; each tank as its customer empties it; and the last
      refills long enough ago for any visit. */
  ghost predicate StartsOut(inst: Instance, p: Plan) {
    && p.shifts == [] && p.nextId == |inst.trailers| + 1
    && TrailersStartOut(inst, p)
    && p.driving.Keys == inst.drivers.Keys && (forall d :: d in inst.drivers ==> p.driving[d] == 0)
    && p.tanks.Keys == p.lastRefill.Keys == inst.customers.Keys
    && forall c :: c in inst.customers ==> p.lastRefill[c] == -12 * 60 && StartsFull(inst, p, c)
  }

  ghost predicate TrailersStartOut(inst: Instance, p: Plan) {
    && p.place.Keys == p.stock.Keys == p.shiftId.Keys == inst.trailers.Keys
    && (forall t :: t in inst.trailers ==>
          && p.place[t] == Place(BASE, 0) && p.stock[t] == inst.trailers[t].initialQuantity
          && 1 <= p.shiftId[t] <= |inst.trailers|)
    && forall t, u :: t in inst.trailers && u in inst.trailers && p.shiftId[t] == p.shiftId[u] ==> t == u
  }

  ghost predicate StartsFull(inst: Instance, p: Plan, c: nat)
    requires c in inst.customers && c in p.tanks
  {
    && |p.tanks[c]| == inst.horizon <= |inst.customers[c].forecast|
    && forall h :: 0 <= h < inst.horizon ==>
         p.tanks[c][h] == inst.customers[c].initialTank - Consumed(inst.customers[c].forecast, h + 1)
  }

  lemma StartsFromTables(inst: Instance, p: Plan)
    requires IsInitial(inst, p) && p.nextId == |inst.trailers| + 1 && forall t :: t in p.shiftId ==> 1 <= p.shiftId[t]
    ensures StartsOut(inst, p)
  {
    hide InitialTank, StartsFull, IsAssignment, FreshIds, TrailersStartOut, Instance.Valid;
    TanksStartFull(inst, p);
    TrailersStartFromTables(inst, p);
  }

  lemma TrailersStartFromTables(inst: Instance, p: Plan)
    requires FreshIds(inst, p.shiftId, |inst.trailers| + 1) && forall t :: t in p.shiftId ==> 1 <= p.shiftId[t]
    requires p.place == PlacesAtStart(inst) && p.stock == StockAtStart(inst)
    ensures TrailersStartOut(inst, p)
  {
    hide Instance.Valid;
  }

  lemma TanksStartFull(inst: Instance, p: Plan)
    requires p.tanks.Keys == inst.customers.Keys
    requires forall c :: c in inst.customers ==> InitialTank(inst, p, c)
    ensures forall c :: c in inst.customers ==> StartsFull(inst, p, c)
  {
    hide *;
    forall c | c in inst.customers ensures StartsFull(inst, p, c) {
      assert InitialTank(inst, p, c);
      TankStartsFull(inst, p, c);
    }
  }

  lemma TankStartsFull(inst: Instance, p: Plan, c: nat)
    requires c in inst.customers && InitialTank(inst, p, c)
    ensures c in p.tanks && StartsFull(inst, p, c)
  {
  }

  class Greedy {
    const inst: Instance
    var trailerOf: map<nat, nat>
    var lastLocation: map<nat, Place>
    var inventoryTrailers: map<nat, int>
    var cumulatedDriving: map<nat, int>
    var currentShift: map<nat, nat>
    var idxShift: nat
    var solutionData: seq<Shift>
    var siteInventories: map<nat, seq<int>>
    var lastRefill: map<nat, int>

    ghost function State(): Plan
      reads this
    {
      Plan(trailerOf, lastLocation, inventoryTrailers, cumulatedDriving, currentShift, idxShift,
           solutionData, siteInventories, lastRefill)
    }

    ghost predicate Valid()
      reads this
    {
      Sound(inst, State())
    }

    /** `__init__` and `initialize`, for an assignment of trailers to drivers
        and from an empty solution. */
    constructor (inst: Instance, assignment: map<nat, nat>)
      requires inst.Valid() && IsAssignment(inst, assignment)
      ensures this.inst == inst && IsInitial(inst, State()) && Valid() && Good(inst, State())
      ensures trailerOf == assignment && StartsOut(inst, State())
    {
      hide TankAt, Good, Orderly, TanksSum, StartsOut, InitialTank;
      hide PlacesAtStart, StockAtStart, DrivingAtStart, RefillsAtStart;
      this.inst := inst;
      var inventories := CalculateInventories(inst, []);
      assert LandedShifts(inst, []) == [];
      var tanks := inventories.value;
      var ids, next := NumberShifts(inst.trailers.Keys, 1);
      trailerOf := assignment;
      lastLocation := PlacesAtStart(inst);
      inventoryTrailers := StockAtStart(inst);
      cumulatedDriving := DrivingAtStart(inst);
      currentShift, idxShift := ids, next;
      solutionData := [];
      siteInventories := tanks;
      lastRefill := RefillsAtStart(inst);
      new;
      TanksAreInitial(inst, State());
      StartsFromTables(inst, State());
      InitialIsGood(inst, State());
      InitialIsOrderly(inst, State());
      InitialSums(inst, State());
    }

    /** The first step of a shift creates its entry, with a stop at the base. */
    method OpenShift(trailer: nat, driver: nat) returns (k: nat)
      requires Equipped(inst, State(), driver) && trailerOf[driver] == trailer
      modifies this`solutionData
      ensures State() == Opened(inst, old(State()), driver)
      ensures k == Find(solutionData, currentShift[trailer])
    {
      var idShift := currentShift[trailer];
      if Find(solutionData, idShift) < 0 {
        var time := lastLocation[trailer].time;
        var base := Stop(BASE, 0, time, time, false, 0, 0);
        solutionData := solutionData + [Shift(idShift, driver, trailer, time, inventoryTrailers[trailer], [base])];
      }
      k := Find(solutionData, idShift);
    }

    /** Appends a step to the open shift and moves the trailer there: what
        `insert_customer_to_route` and `insert_source_to_route` share. */
    method AddStep(trailer: nat, driver: nat, location: nat, quantity: int, setupTime: int)
      requires Equipped(inst, State(), driver) && trailerOf[driver] == trailer && setupTime == inst.SetupTime(location)
      modifies this`solutionData, this`cumulatedDriving, this`lastLocation, this`inventoryTrailers
      ensures State() == Visited(inst, old(State()), driver, location, quantity)
    {
      hide Find, Opened;
      var k := OpenShift(trailer, driver);
      ghost var begun := State();
      var travelTime := inst.travel(lastLocation[trailer].location, location);
      var arrival := travelTime + lastLocation[trailer].time;
      var newStep := Stop(location, quantity, arrival, arrival + setupTime, false, 0,
                          cumulatedDriving[driver] + travelTime);
      assert newStep == NextStop(inst, begun, driver, location, quantity);
      hide Equipped, ArrivalAt, NextStop;
      solutionData := solutionData[k := solutionData[k].(route := solutionData[k].route + [newStep])];
      cumulatedDriving := cumulatedDriving[driver := cumulatedDriving[driver] + travelTime];
      lastLocation := lastLocation[trailer := Place(location, lastLocation[trailer].time + travelTime + setupTime)];
      inventoryTrailers := inventoryTrailers[trailer := inventoryTrailers[trailer] + quantity];
    }

    /** `determine_max_quantity` */
    method DetermineMaxQuantity(trailer: nat, customer: nat, arrival: int) returns (quantity: int)
      requires trailer in inventoryTrailers && customer in inst.customers && customer in siteInventories
      requires 0 <= arrival / UNIT < |siteInventories[customer]|
      ensures quantity <= inventoryTrailers[trailer]
      ensures quantity <= inst.customers[customer].capacity - siteInventories[customer][arrival / UNIT]
      ensures quantity == inventoryTrailers[trailer]
           || quantity == inst.customers[customer].capacity - siteInventories[customer][arrival / UNIT]
    {
      var room := inst.customers[customer].capacity - siteInventories[customer][arrival / UNIT];
      quantity := if inventoryTrailers[trailer] <= room then inventoryTrailers[trailer] else room;
    }

    /** Raises the customer's tank from the given hour to the horizon. */
    method RaiseTank(customer: nat, nextHour: nat, quantity: int)
      requires customer in siteInventories && nextHour <= |siteInventories[customer]| == inst.horizon
      modifies this`siteInventories
      ensures siteInventories ==
        old(siteInventories)[customer := Raised(old(siteInventories)[customer], nextHour, quantity)]
    {
      ghost var before := siteInventories[customer];
      for t := nextHour to inst.horizon
        invariant siteInventories.Keys == old(siteInventories).Keys
        invariant siteInventories == old(siteInventories)[customer := siteInventories[customer]]
        invariant |siteInventories[customer]| == inst.horizon
        invariant forall h :: 0 <= h < inst.horizon ==>
          siteInventories[customer][h] == if nextHour <= h < t then before[h] + quantity else before[h]
      {
        var tank := siteInventories[customer];
        siteInventories := siteInventories[customer := tank[t := tank[t] + quantity]];
      }
      assert siteInventories[customer] == Raised(before, nextHour, quantity);
    }

    /** `insert_customer_to_route` */
    method InsertCustomer(customer: nat, trailer: nat, driver: nat)
      requires Possible(inst, State(), Deliver(customer, driver)) && trailerOf[driver] == trailer
      modifies this
      ensures State() == CustomerInserted(inst, old(State()), customer, driver)
      ensures Delivers(inst, old(State()), State(), customer, driver)
      ensures old(Valid()) ==> Valid()
    {
      hide Sound, Delivers, CustomerInserted, Find;
      ghost var before := State();
      Serve(customer, trailer, driver);
      StaysSound(inst, before, Deliver(customer, driver));
      DeliveryDelivers(inst, before, customer, driver);
    }

    /** Its steps. */
    method Serve(customer: nat, trailer: nat, driver: nat)
      requires Possible(inst, State(), Deliver(customer, driver)) && trailerOf[driver] == trailer
      modifies this
      ensures State() == CustomerInserted(inst, old(State()), customer, driver)
    {
      hide Find, Visited, Raised;
      var arrival := lastLocation[trailer].time + inst.travel(lastLocation[trailer].location, customer);
      var quantity := DetermineMaxQuantity(trailer, customer, arrival);
      AddStep(trailer, driver, customer, -quantity, inst.customers[customer].setupTime);
      lastRefill := lastRefill[customer := arrival];
      RaiseTank(customer, arrival / UNIT, quantity);
    }

    /** `insert_source_to_route` */
    method InsertSource(source: nat, trailer: nat, driver: nat)
      requires Guarded(inst, State(), Load(source, driver)) && trailerOf[driver] == trailer
      modifies this
      ensures State() == SourceInserted(inst, old(State()), source, driver)
      ensures Loads(inst, old(State()), State(), source, driver)
      ensures old(Valid()) ==> Valid()
    {
      hide Find, Visited, Sound;
      ghost var before := State();
      var quantity := inst.trailers[trailer].capacity - inventoryTrailers[trailer];
      AddStep(trailer, driver, source, quantity, inst.SetupTime(source));
      hide SourceInserted, Loads;
      StaysSound(inst, before, Load(source, driver));
      LoadingLoads(inst, before, source, driver);
    }

    /** `insert_base_to_route` */
    method InsertBase(trailer: nat, driver: nat)
      requires Equipped(inst, State(), driver) && trailerOf[driver] == trailer
      modifies this`solutionData, this`cumulatedDriving, this`lastLocation
      ensures State() == BaseInserted(inst, old(State()), driver)
      ensures Returns(inst, old(State()), State(), driver)
    {
      hide Find, Returns;
      ReturnReturns(inst, State(), driver);
      var k := Find(solutionData, currentShift[trailer]);
      if k < 0 {
        return;
      }
      var travelTime := inst.travel(lastLocation[trailer].location, BASE);
      var arrival := travelTime + lastLocation[trailer].time;
      var newStep := Stop(BASE, 0, arrival, arrival, false, 0, cumulatedDriving[driver] + travelTime);
      solutionData := solutionData[k := solutionData[k].(route := solutionData[k].route + [newStep])];
      cumulatedDriving := cumulatedDriving[driver := 0];
      lastLocation := lastLocation[trailer :=
        Place(BASE, lastLocation[trailer].time + (travelTime + inst.drivers[driver].minInterShift))];
      assert inventoryTrailers[trailer := inventoryTrailers[trailer]] == inventoryTrailers;
    }

    /** The base, and the next shift id: how every loop over drivers ends a shift. */
    method CloseShift(trailer: nat, driver: nat)
      requires Guarded(inst, State(), EndShift(driver)) && trailerOf[driver] == trailer
      modifies this
      ensures State() == Ended(inst, old(State()), driver)
      ensures Ends(inst, old(State()), State(), driver)
      ensures old(Valid()) ==> Valid()
    {
      hide Find, BaseInserted, Sound, Returns;
      ghost var before := State();
      InsertBase(trailer, driver);
      currentShift := currentShift[trailer := idxShift];
      idxShift := idxShift + 1;
      hide Ended, Ends;
      StaysSound(inst, before, EndShift(driver));
      EndingEnds(inst, before, driver);
    }

    /** `pause`: the trailers that wait at the base wait longer. */
    method Pause(duration: nat)
      requires Assigned(inst, State())
      modifies this`lastLocation
      ensures State() == Paused(old(State()), duration)
      ensures Waits(old(State()), State(), duration)
      ensures old(Valid()) ==> Valid()
    {
      hide Sound, Assigned, Paused, Waits;
      ghost var before := State();
      LetWait(duration);
      PauseWaits(before, duration);
      StaysSound(inst, before, Move.Pause(duration));
    }

    /** The loop over the drivers. */
    method LetWait(duration: nat)
      requires Assigned(inst, State())
      modifies this`lastLocation
      ensures State() == Paused(old(State()), duration)
    {
      hide Find;
      ghost var before := lastLocation;
      var todo := trailerOf.Keys;
      ghost var done: set<nat> := {};
      while todo != {}
        invariant todo <= trailerOf.Keys && lastLocation.Keys == before.Keys
        invariant done <= trailerOf.Values
        invariant forall d :: d in trailerOf ==> (trailerOf[d] in done <==> d !in todo)
        invariant forall t :: t in before ==> lastLocation[t] == Later(before[t], t in done, duration)
      {
        var driver :| driver in todo;
        assert Equipped(inst, State(), driver);
        var trailer := trailerOf[driver];
        if lastLocation[trailer].location == BASE {
          lastLocation := lastLocation[trailer := Place(BASE, lastLocation[trailer].time + duration)];
        }
        todo := todo - {driver};
        done := done + {trailer};
      }
      assert done == trailerOf.Values;
    }

    /** The time from the trailer to the customer by way of a source, or to the
        source alone. */
    function Detour(trailer: nat, source: nat, customer: Option<nat>): int
      reads this
      requires trailer in lastLocation
    {
      inst.travel(lastLocation[trailer].location, source)
      + if customer.Some? then inst.travel(source, customer.value) else 0
    }

    /** By the way to the customer, if there is one. */
    ghost predicate IsNearest(trailer: nat, source: nat, customer: Option<nat>)
      reads this
      requires trailer in lastLocation
    {
      var from := lastLocation[trailer].location;
      forall s :: s in inst.sources ==>
        match customer
        case None => inst.travel(from, source) <= inst.travel(from, s)
        case Some(c) => inst.travel(from, source) + inst.travel(source, c) <= inst.travel(from, s) + inst.travel(s, c)
    }

    /** There is time for the way by the source, and from its end to the base. */
    predicate DetourFits(trailer: nat, driver: nat, source: nat, customer: Option<nat>)
      reads this
      requires trailer in lastLocation && driver in cumulatedDriving && driver in inst.drivers
    {
      var toSource := cumulatedDriving[driver] + inst.travel(lastLocation[trailer].location, source);
      match customer
      case None => toSource + inst.travel(source, BASE) <= inst.drivers[driver].maxDriving
      case Some(c) => toSource + inst.travel(source, c) + inst.travel(c, BASE) <= inst.drivers[driver].maxDriving
    }

    /** `find_closest_source` */
    method FindClosestSource(trailer: nat, driver: nat, customer: Option<nat>) returns (res: int, source: Option<nat>)
      requires Equipped(inst, State(), driver) && trailerOf[driver] == trailer && inst.sources.Keys != {}
      ensures res == 1 || res == 0 || res == -1
      ensures res == -1 <==> source == None
      ensures source.Some? ==> source.value in inst.sources && IsNearest(trailer, source.value, customer)
      ensures res == 1 ==> DetourFits(trailer, driver, source.value, customer)
      ensures res == 0 ==> customer.Some? && !DetourFits(trailer, driver, source.value, customer)
      ensures res == 0 ==> WithinDriving(inst, State(), driver, source.value)
      ensures res == -1 ==> exists s :: (s in inst.sources && IsNearest(trailer, s, customer)
          && !DetourFits(trailer, driver, s, customer) && !WithinDriving(inst, State(), driver, s))
    {
      var nearest :| nearest in inst.sources;
      var mini := Detour(trailer, nearest, customer);
      var todo := inst.sources.Keys - {nearest};
      while todo != {}
        invariant todo <= inst.sources.Keys && nearest in inst.sources
        invariant mini == Detour(trailer, nearest, customer)
        invariant forall s :: s in inst.sources && s !in todo ==> mini <= Detour(trailer, s, customer)
      {
        var s :| s in todo;
        if Detour(trailer, s, customer) < mini {
          mini, nearest := Detour(trailer, s, customer), s;
        }
        todo := todo - {s};
      }
      var driven, max := cumulatedDriving[driver], inst.drivers[driver].maxDriving;
      if customer.Some? && mini + driven + inst.travel(customer.value, BASE) <= max {
        return 1, Some(nearest);
      }
      if inst.travel(lastLocation[trailer].location, nearest) + driven + inst.travel(nearest, BASE) <= max {
        return if customer.Some? then 0 else 1, Some(nearest);
      }
      return -1, None;
    }

    /** `last_possible_visit`: an hour before the tank first runs dry, counted
        from the last refill; nothing if it does not within the horizon. */
    method LastPossibleVisit(customer: nat) returns (visit: Option<int>)
      requires customer in lastRefill && customer in siteInventories
      requires |siteInventories[customer]| == inst.horizon > 0
      requires lastRefill[customer] / UNIT < inst.horizon
      ensures IsLastVisit(siteInventories[customer], lastRefill[customer], visit)
      ensures visit.Some? ==> visit.value < UNIT * inst.horizon
    {
      var instant := if lastRefill[customer] < 0 then 0 else lastRefill[customer] / UNIT;
      ghost var first := instant;
      while instant < inst.horizon - 1 && siteInventories[customer][instant] > 0
        invariant first <= instant < inst.horizon
        invariant forall h :: first <= h < instant ==> siteInventories[customer][h] > 0
      {
        instant := instant + 1;
      }
      if siteInventories[customer][instant] <= 0 {
        return Some(if instant == 0 then 0 else UNIT * (instant - 1));
      }
      return None;
    }

    /** `compute_slack_and_distances`: an entry for each working driver and
        customer, zeros where nothing is known. */
    method ComputeSlack(lastVisits: map<nat, int>, distance: (nat, nat) -> int)
      returns (slacks: map<nat, map<nat, Entry>>)
      requires Assigned(inst, State())
      requires lastVisits.Keys <= inst.customers.Keys && inst.customers.Keys <= lastRefill.Keys
      ensures slacks.Keys == trailerOf.Keys
      ensures forall d :: d in trailerOf ==> EntriesOf(slacks[d], d, lastVisits, distance)
    {
      hide Find;
      slacks := map[];
      var todo := trailerOf.Keys;
      while todo != {}
        invariant todo <= trailerOf.Keys && slacks.Keys == trailerOf.Keys - todo
        invariant forall d :: d in slacks ==> EntriesOf(slacks[d], d, lastVisits, distance)
      {
        var driver :| driver in todo;
        assert Equipped(inst, State(), driver);
        var entries := DriverEntries(driver, lastVisits, distance);
        slacks := slacks[driver := entries];
        todo := todo - {driver};
      }
    }

    /** How long before the last possible visit the driver arrives, and how far
        it is; -1 for the distance where there is no time to return or the last
        refill is too recent, and zeros where the trailer is already or no visit
        is needed. */
    ghost predicate IsEntry(
      entry: Entry, driver: nat, customer: nat, lastVisit: Option<int>, distance: (nat, nat) -> int)
      reads this
      requires Equipped(inst, State(), driver) && customer in lastRefill
    {
      var from := lastLocation[trailerOf[driver]];
      var there, back := inst.travel(from.location, customer), inst.travel(customer, BASE);
      var tooLong := cumulatedDriving[driver] + there + back > inst.drivers[driver].maxDriving;
      var tooSoon := from.time + there < lastRefill[customer] + 12 * 60;
      if lastVisit.None? || from.location == customer then entry.slack == 0 && entry.distance == 0
      else if tooLong || tooSoon then entry.slack == 0 && entry.distance == -1
      else
        && entry.slack + from.time + there == lastVisit.value
        && entry.distance == distance(from.location, customer)
    }

    /** The entries of one driver. */
    ghost predicate EntriesOf(
      entries: map<nat, Entry>, driver: nat, lastVisits: map<nat, int>, distance: (nat, nat) -> int)
      reads this
      requires Assigned(inst, State()) && driver in trailerOf
      requires lastVisits.Keys <= inst.customers.Keys && inst.customers.Keys <= lastRefill.Keys
    {
      && entries.Keys == inst.customers.Keys
      && forall c :: c in inst.customers ==>
           && (c in lastVisits ==> entries[c] == EntryOf(inst, State(), driver, c, lastVisits[c], distance))
           && IsEntry(entries[c], driver, c, if c in lastVisits then Some(lastVisits[c]) else None, distance)
    }

    method DriverEntries(driver: nat, lastVisits: map<nat, int>, distance: (nat, nat) -> int)
      returns (entries: map<nat, Entry>)
      requires Assigned(inst, State()) && driver in trailerOf
      requires lastVisits.Keys <= inst.customers.Keys && inst.customers.Keys <= lastRefill.Keys
      ensures EntriesOf(entries, driver, lastVisits, distance)
    {
      hide Find;
      assert Equipped(inst, State(), driver);
      entries := map c | c in inst.customers :: Entry(0, 0);
      var trailer := trailerOf[driver];
      var todo := lastVisits.Keys;
      while todo != {}
        invariant todo <= lastVisits.Keys && entries.Keys == inst.customers.Keys
        invariant forall c :: c in inst.customers && (c !in lastVisits || c in todo) ==> entries[c] == Entry(0, 0)
        invariant forall c :: c in lastVisits && c !in todo ==>
          entries[c] == EntryOf(inst, State(), driver, c, lastVisits[c], distance)
      {
        var customer :| customer in todo;
        var from := lastLocation[trailer];
        if from.location != customer {
          var travelTime := inst.travel(from.location, customer);
          var slackTime := lastVisits[customer] - (from.time + travelTime);
          if travelTime + cumulatedDriving[driver] + inst.travel(customer, BASE) <= inst.drivers[driver].maxDriving
             && from.time + travelTime >= lastRefill[customer] + REFILL_INTERVAL {
            entries := entries[customer := Entry(slackTime, distance(from.location, customer))];
          } else {
            entries := entries[customer := Entry(0, -1)];
          }
        }
        todo := todo - {customer};
      }
    }

    /** On the way back, a trailer that is not full loads at the closest source
        if the driver has the time. */
    method LoadOnTheWay(trailer: nat, driver: nat, ghost start: Plan, ghost sofar: seq<Move>)
      returns (ghost made: seq<Move>)
      requires Equipped(inst, State(), driver) && trailerOf[driver] == trailer && inst.sources.Keys != {}
      requires Reached(inst, start, sofar, State())
      modifies this
      ensures Reached(inst, start, sofar + made, State())
      ensures OnlyFor(old(State()), State(), driver, trailer)
      ensures GoesHome(inst, old(State()), driver, made + [EndShift(driver)])
      ensures trailer in inventoryTrailers
      ensures inventoryTrailers[trailer] == inst.trailers[trailer].capacity
        || (inventoryTrailers[trailer] == old(inventoryTrailers)[trailer]
            && exists s :: IsNearestSource(inst, old(State()), driver, s)
                && !WithinDriving(inst, old(State()), driver, s))
    {
      hide Find, Good, Orderly, SourceInserted, Reached;
      made := [];
      ghost var before := State();
      assert sofar + made == sofar;
      if inventoryTrailers[trailer] != inst.trailers[trailer].capacity {
        var res, source := FindClosestSource(trailer, driver, None);
        if res == 1 {
          assert IsNearestSource(inst, before, driver, source.value);
          assert WithinDriving(inst, before, driver, source.value);
          ReachedByMove(inst, start, sofar, State(), Load(source.value, driver));
          made := [Load(source.value, driver)];
          InsertSource(source.value, trailer, driver);
        } else {
          ghost var s :| s in inst.sources && IsNearest(trailer, s, None) && !WithinDriving(inst, State(), driver, s);
          assert IsNearestSource(inst, before, driver, s);
        }
      }
    }

    /** Back to the base, perhaps by way of a source, and the shift is over. */
    method ReturnToBase(trailer: nat, driver: nat, ghost start: Plan, ghost sofar: seq<Move>)
      returns (ghost made: seq<Move>)
      requires Equipped(inst, State(), driver) && trailerOf[driver] == trailer && inst.sources.Keys != {}
      requires Reached(inst, start, sofar, State())
      modifies this
      ensures Reached(inst, start, sofar + made, State())
      ensures OnlyFor(old(State()), State(), driver, trailer)
      ensures GoesHome(inst, old(State()), driver, made) && IsHome(inst, old(State()), State(), driver)
    {
      hide Find, Good, Orderly, Ended, Reached, GoesHome;
      made := LoadOnTheWay(trailer, driver, start, sofar);
      ghost var after := State();
      OfReached(inst, start, sofar + made, State(), driver);
      ReachedByMove(inst, start, sofar + made, State(), EndShift(driver));
      EndsAtBase(inst, start, sofar + made, State(), driver);
      CloseShift(trailer, driver);
      assert sofar + made + [EndShift(driver)] == sofar + (made + [EndShift(driver)]);
      made := made + [EndShift(driver)];
    }

    /** `back_to_base`: by guarded moves within the driving limits, exactly the
        drivers without a positive slack go home. */
    method BackToBase(slacks: map<nat, map<nat, Entry>>) returns (ghost moves: seq<Move>)
      requires Valid() && inst.sources.Keys != {} && trailerOf.Keys <= slacks.Keys
      modifies this
      ensures Reached(inst, old(State()), moves, State()) && Valid()
      ensures Assigned(inst, old(State())) && trailerOf == old(trailerOf)
      ensures lastLocation.Keys == old(lastLocation).Keys
      ensures forall d :: d in trailerOf && !HasPositive(slacks, d) ==>
        trailerOf[d] in lastLocation && lastLocation[trailerOf[d]].location == BASE
      ensures forall d :: d in trailerOf && HasPositive(slacks, d) ==>
        trailerOf[d] in lastLocation && lastLocation[trailerOf[d]] == old(lastLocation)[trailerOf[d]]
      ensures WentHome(inst, old(State()), State(), moves, set d | d in trailerOf && !HasPositive(slacks, d))
    {
      hide Reached, Good, Orderly, Sound, HasPositive, Equipped, Assigned, WentHome;
      ghost var start := State();
      moves := [];
      SoundIsReached(inst, start);
      NoneHome(inst, start);
      var todo := set d | d in trailerOf && !HasPositive(slacks, d);
      ghost var going, gone: set<nat> := todo, {};
      while todo != {}
        invariant todo <= going <= trailerOf.Keys && trailerOf == start.trailerOf && gone == going - todo
        invariant lastLocation.Keys == start.place.Keys
        invariant Reached(inst, start, moves, State())
        invariant WentHome(inst, start, State(), moves, gone)
      {
        var driver :| driver in todo;
        ghost var before, sofar := State(), moves;
        OfReached(inst, start, moves, State(), driver);
        ghost var made := ReturnToBase(trailerOf[driver], driver, start, moves);
        moves := sofar + made;
        OneMoreHome(inst, start, before, State(), sofar, made, gone, driver);
        todo, gone := todo - {driver}, gone + {driver};
      }
      assert gone == going;
      forall d | d in trailerOf
        ensures d in going ==> trailerOf[d] in lastLocation && lastLocation[trailerOf[d]].location == BASE
        ensures d !in going ==> trailerOf[d] in start.place && trailerOf[d] in lastLocation
        ensures d !in going ==> lastLocation[trailerOf[d]] == start.place[trailerOf[d]]
      {
        WhereItIs(inst, start, State(), moves, gone, d);
      }
      ReachedIsSound(inst, start, moves, State());
    }

    /** `all_trailers_back_to_base`: whatever guarded moves came before, the
        schedule is closed by guarded moves within the driving limits: exactly
        the trailers that are not at the base go home. */
    method AllTrailersBackToBase() returns (ghost moves: seq<Move>)
      requires Valid() && inst.sources.Keys != {}
      modifies this
      ensures Reached(inst, old(State()), moves, State()) && Valid()
      ensures Assigned(inst, old(State())) && trailerOf == old(trailerOf)
      ensures forall d :: d in trailerOf ==> trailerOf[d] in lastLocation && lastLocation[trailerOf[d]].location == BASE
      ensures WentHome(inst, old(State()), State(), moves, AwayFromBase(old(State())))
    {
      hide Reached, Good, Orderly, Sound, WentHome;
      ghost var start := State();
      moves := [];
      SoundIsReached(inst, start);
      NoneHome(inst, start);
      var todo := trailerOf.Keys;
      ghost var gone: set<nat> := {};
      while todo != {}
        invariant todo <= trailerOf.Keys && trailerOf == start.trailerOf
        invariant forall d :: d in gone <==>
                    d in trailerOf && d !in todo && start.place[trailerOf[d]].location != BASE
        invariant Reached(inst, start, moves, State())
        invariant WentHome(inst, start, State(), moves, gone)
      {
        var driver :| driver in todo;
        OfReached(inst, start, moves, State(), driver);
        WhereItIs(inst, start, State(), moves, gone, driver);
        var trailer := trailerOf[driver];
        if lastLocation[trailer].location != BASE {
          ghost var before, sofar := State(), moves;
          ghost var made := ReturnToBase(trailer, driver, start, moves);
          moves := sofar + made;
          OneMoreHome(inst, start, before, State(), sofar, made, gone, driver);
          gone := gone + {driver};
        }
        todo := todo - {driver};
      }
      forall d | d in trailerOf ensures trailerOf[d] in lastLocation && lastLocation[trailerOf[d]].location == BASE {
        WhereItIs(inst, start, State(), moves, gone, d);
      }
      assert gone == AwayFromBase(start);
      ReachedIsSound(inst, start, moves, State());
    }
  }

  predicate HasPositive(slacks: map<nat, map<nat, Entry>>, d: nat)
    requires d in slacks
  {
    exists c :: c in slacks[d] && slacks[d][c].slack > 0
  }

  lemma {:induction false} SoundIsReached(inst: Instance, p: Plan)
    requires Sound(inst, p)
    ensures Reached(inst, p, [], p)
    ensures Assigned(inst, p)
  {
    hide Instance.Valid, Timely, StockFollows, Good, TanksSum, Equipped;
    TimelyAssigned(inst, p);
  }

  lemma {:induction false} ReachedIsSound(inst: Instance, start: Plan, moves: seq<Move>, p: Plan)
    requires Sound(inst, start) && Reached(inst, start, moves, p)
    ensures Sound(inst, p)
  {
    assert inst.Numbered();
    hide Instance.Valid, Instance.Numbered, Orderly, Good, TanksSum, Run, After, InTurnRun, ReturningRun;
    RunKeepsSums(inst, start, moves);
  }

  lemma OfReached(inst: Instance, start: Plan, moves: seq<Move>, p: Plan, d: nat)
    requires Reached(inst, start, moves, p) && d in p.trailerOf
    ensures Equipped(inst, p, d) && Assigned(inst, p)
  {
    hide Inv, StockFollows, Good, After, Run;
    TimelyAssigned(inst, p);
  }

  lemma EndsAtBase(inst: Instance, start: Plan, moves: seq<Move>, p: Plan, d: nat)
    requires Equipped(inst, p, d) && Reached(inst, start, moves, p)
    ensures Ended(inst, p, d).place[p.trailerOf[d]].location == BASE
  {
    hide Timely, StockFollows, Good, After, Run;
    TimelyEndsAtBase(inst, p, d);
  }

  lemma TanksAreInitial(inst: Instance, p: Plan)
    requires inst.Valid() && p.tanks.Keys == inst.customers.Keys
    requires forall c :: c in p.tanks ==> |p.tanks[c]| == inst.horizon
    requires forall c, h :: c in p.tanks && 0 <= h < inst.horizon ==> p.tanks[c][h] == TankAt(inst, [], c, h)
    ensures forall c :: c in inst.customers ==> InitialTank(inst, p, c)
  {
  }

  /** `initialize` gives each trailer the next shift id. */
  method NumberShifts(trailers: set<nat>, first: nat) returns (ids: map<nat, nat>, next: nat)
    ensures ids.Keys == trailers && next == first + |trailers|
    ensures forall t :: t in ids ==> first <= ids[t] < next
    ensures forall t, u :: t in ids && u in ids && ids[t] == ids[u] ==> t == u
  {
    ids, next := map[], first;
    var todo := trailers;
    while todo != {}
      invariant todo <= trailers && ids.Keys == trailers - todo && next + |todo| == first + |trailers|
      invariant forall t :: t in ids ==> first <= ids[t] < next
      invariant forall t, u :: t in ids && u in ids && ids[t] == ids[u] ==> t == u
    {
      var t :| t in todo;
      ids := ids[t := next];
      next := next + 1;
      todo := todo - {t};
    }
  }

  /** One pass of `assign_drivers_and_trailers`, whichever free trailer each
      driver gets: no trailer is given twice, a driver is left without one only
      if all of theirs are taken, and the inverse table undoes the assignment. */
  method AssignOnce(inst: Instance) returns (trailerOf: map<nat, nat>, driverOf: map<nat, nat>, acceptable: bool)
    requires forall d :: d in inst.drivers ==> inst.drivers[d].trailers <= inst.trailers.Keys
    ensures IsAssignment(inst, trailerOf) && AreInverse(trailerOf, driverOf)
    ensures forall d :: d in inst.drivers && d !in trailerOf ==> inst.drivers[d].trailers <= driverOf.Keys
    ensures acceptable <==>
      |trailerOf| == if |inst.drivers| <= |inst.trailers| then |inst.drivers| else |inst.trailers|
  {
    trailerOf, driverOf := map[], map[];
    var todo := inst.drivers.Keys;
    while todo != {}
      invariant todo <= inst.drivers.Keys && trailerOf.Keys !! todo && AreInverse(trailerOf, driverOf)
      invariant forall d :: d in trailerOf ==> MayDrive(inst, d, trailerOf[d])
      invariant forall d :: d in inst.drivers && d !in todo && d !in trailerOf ==>
                  inst.drivers[d].trailers <= driverOf.Keys
    {
      var driver :| driver in todo;
      var available := inst.drivers[driver].trailers - driverOf.Keys;
      if available != {} {
        var trailer :| trailer in available;
        trailerOf := trailerOf[driver := trailer];
        driverOf := driverOf[trailer := driver];
      } else {
        assert forall t :: t in inst.drivers[driver].trailers ==> t in driverOf || t in available;
      }
      todo := todo - {driver};
    }
    acceptable := |trailerOf| == if |inst.drivers| <= |inst.trailers| then |inst.drivers| else |inst.trailers|;
  }

  ghost predicate AreInverse(trailerOf: map<nat, nat>, driverOf: map<nat, nat>) {
    && (forall d :: d in trailerOf ==> trailerOf[d] in driverOf && driverOf[trailerOf[d]] == d)
    && (forall t :: t in driverOf ==> driverOf[t] in trailerOf && trailerOf[driverOf[t]] == t)
  }
}
