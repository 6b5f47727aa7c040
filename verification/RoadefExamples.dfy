/** Schedules on which the ROADEF code does less than it is meant to. */
module RoadefExamples {
  import opened Wrappers
  import opened RoadefModel
  import opened RoadefChecker
  import opened RoadefReports
  import opened RoadefTanks
  import opened RoadefPlan
  import opened RoadefSafety
  import opened RoadefErased
  import opened RoadefRuns
  import opened RoadefPostProcess
  import opened RoadefPostProcessSafety
  import opened RoadefPostProcessQuantities
  import opened RoadefPostProcessTanks

  // ---- post-processing fills a tank too early ----

  /** A source, two customers an hour from everywhere, the first one half full,
      the second one full until it uses 5 in the last hour. */
  function TightInstance(): Instance {
    Instance(
      3,
      map[1 := Source(0)],
      map[2 := Customer(10, 5, [0, 0, 0], 0, false), 3 := Customer(10, 10, [0, 0, 5], 0, false)],
      map[0 := Trailer(10, 10)],
      map[0 := Driver(0, 1000, 0, {0})],
      (p: nat, q: nat) => if p == q then 0 else 60)
  }

  /** Nothing for the first, 5 for the second just when it is used. */
  function TightStops(): seq<Stop> {
    [Stop(BASE, 0, 0, 0, false, 0, 0), Stop(2, 0, 60, 60, false, 0, 60),
     Stop(3, -5, 120, 120, false, 0, 120), Stop(BASE, 0, 180, 180, false, 0, 180)]
  }

  function TightShift(): Shift {
    Shift(1, 0, 0, 0, 10, TightStops())
  }

  lemma {:induction false} SizeOf<V>(m: map<nat, V>, keys: set<nat>)
    requires m.Keys == keys
    ensures |m| == |keys|
  {
  }

  lemma {:induction false} TightSizes()
    ensures TightInstance().sources.Keys == {1} && TightInstance().customers.Keys == {2, 3}
    ensures |TightInstance().sources| == 1 && |TightInstance().customers| == 2
  {
    SizeOf(TightInstance().sources, {1});
    SizeOf(TightInstance().customers, {2, 3});
  }

  lemma {:induction false} TightIsNumbered()
    ensures TightInstance().Numbered() && |TightInstance().sources| == 1 && |TightInstance().customers| == 2
  {
    TightSizes();
    hide TightInstance;
    assert forall l :: l in TightInstance().customers <==> l == 2 || l == 3;
    assert forall l :: l in TightInstance().sources <==> l == 1;
  }

  lemma {:induction false} TightCustomersAreValid(c: nat)
    requires c in TightInstance().customers
    ensures TightInstance().ValidCustomer(TightInstance().customers[c])
  {
    TightSizes();
  }

  lemma {:induction false} TightIsValid()
    ensures TightInstance().Valid()
  {
    TightIsNumbered();
    var inst := TightInstance();
    hide Instance.Numbered, Instance.ValidCustomer;
    forall c | c in inst.customers ensures inst.ValidCustomer(inst.customers[c]) {
      TightCustomersAreValid(c);
    }
  }

  lemma {:induction false} TightIsMetric()
    ensures TightInstance().Triangle()
  {
  }

  lemma {:induction false} TightStock(n: nat)
    requires n <= 4
    ensures StockAt(TightShift(), n) == if n >= 3 then 5 else 10
  {
    if n > 0 {
      TightStock(n - 1);
    }
  }

  lemma {:induction false} TightIsOnTime()
    ensures OnTime(TightInstance(), TightShift())
  {
    TightIsNumbered();
    hide Instance.Numbered;
  }

  lemma {:induction false} TightSigns()
    ensures SignsOk(TightInstance(), TightShift())
  {
    TightIsNumbered();
    hide Instance.Numbered;
  }

  lemma {:induction false} AloneIsLinked(inst: Instance, link: Link, s: Shift)
    requires s.driver in inst.drivers && s.trailer in inst.trailers
    requires s.initialQuantity == inst.trailers[s.trailer].initialQuantity
    ensures Linked(inst, link, Sorted([s]))
  {
    assert [s][..0] == [] && Sorted([s]) == [s];
    assert Latest([], link, KeyOf(link, s)).None?;
    assert Linked(inst, link, []);
  }

  /** A first shift that is on time and keeps the stock within bounds passes the
      per-shift and linking checks. */
  lemma {:induction false} AloneIsSilent(inst: Instance, s: Shift)
    requires OnTime(inst, s) && SignsOk(inst, s) && NoLateLayovers(s) && Known(inst, s)
    requires s.trailer in inst.drivers[s.driver].trailers
    requires s.initialQuantity == inst.trailers[s.trailer].initialQuantity
    requires forall n: nat :: n <= |s.route| ==> 0 <= StockAt(s, n) <= inst.trailers[s.trailer].capacity
    ensures ShiftSilent(inst, s) && Silent(inst, [s])
  {
    hide SignsOk, StockAt, TimelineOk, SetupOk, NoLateLayovers, Sorted, Linked;
    assert StockAtLeast(s, 0) && StockAtMost(s, inst.trailers[s.trailer].capacity);
    hide StockAtLeast, StockAtMost;
    AloneIsLinked(inst, Stock, s);
    AloneIsLinked(inst, Rest, s);
    AloneIsLinked(inst, Overlap, s);
  }

  lemma {:induction false} TightIsProcessable()
    ensures Processable(TightInstance(), TightShift())
    ensures Silent(TightInstance(), [TightShift()]) && AllInHorizon(TightInstance(), [TightShift()])
  {
    TightIsOnTime();
    TightSigns();
    TightIsInHorizon();
    hide OnTime, AllInHorizon, SignsOk, StockAt, ShiftSilent, Silent;
    forall n: nat | n <= 4 ensures 0 <= StockAt(TightShift(), n) <= 10 {
      TightStock(n);
    }
    AloneIsSilent(TightInstance(), TightShift());
  }

  lemma {:induction false} TightIsInHorizon()
    ensures AllInHorizon(TightInstance(), [TightShift()])
  {
    TightIsNumbered();
    hide Instance.Numbered;
  }

  lemma {:induction false} DeliveredByThree(r: seq<Stop>, c: nat, h: nat)
    requires |r| == 3
    ensures DeliveredBy(r, c, h) == Brought(r[0], c, h) + Brought(r[1], c, h) + Brought(r[2], c, h)
  {
    DeliveredByMore([], r[0], c, h);
    DeliveredByMore([r[0]], r[1], c, h);
    DeliveredByMore([r[0], r[1]], r[2], c, h);
    assert DeliveredBy([], c, h) == 0;
    hide DeliveredBy;
    assert [] + [r[0]] == [r[0]] && [r[0]] + [r[1]] == [r[0], r[1]] && [r[0], r[1]] + [r[2]] == r;
  }

  lemma {:induction false} DeliveredByFour(r: seq<Stop>, c: nat, h: nat)
    requires |r| == 4
    ensures DeliveredBy(r, c, h)
         == Brought(r[0], c, h) + Brought(r[1], c, h) + Brought(r[2], c, h) + Brought(r[3], c, h)
  {
    DeliveredByThree(r[..3], c, h);
    DeliveredByMore(r[..3], r[3], c, h);
    hide DeliveredBy;
    assert r[..3] + [r[3]] == r;
  }

  lemma {:induction false} TightDelivers(c: nat, h: nat)
    ensures Delivered([TightShift()], c, h) == if c == 3 && h >= 2 then 5 else 0
  {
    DeliveredOfMore([], TightShift(), c, h);
    assert [] + [TightShift()] == [TightShift()];
    DeliveredByFour(TightStops(), c, h);
    hide DeliveredBy;
  }

  /** Before, nobody's tank overflows, and the second customer's is full in every
      hour. */
  lemma TightTanks(c: nat, h: nat)
    requires c in TightInstance().customers && h < 3
    ensures h < |TightInstance().customers[c].forecast|
    ensures TankAt(TightInstance(), [TightShift()], c, h) == if c == 3 then 10 else 5
  {
    TightDelivers(c, h);
    hide Delivered;
    var none, some := [0, 0, 0], [0, 0, 5];
    assert Consumed(none, 1) == 0 && Consumed(none, 2) == 0 && Consumed(none, 3) == 0;
    assert Consumed(some, 1) == 0 && Consumed(some, 2) == 0 && Consumed(some, 3) == 5;
  }

  lemma TightSiteCheck()
    ensures SiteCheckSilent(TightInstance(), [TightShift()])
  {
    var inst, shifts := TightInstance(), [TightShift()];
    TightIsValid();
    TightIsProcessable();
    AllLanded(inst, shifts);
    forall c | c in inst.customers
      ensures inst.ValidCustomer(inst.customers[c]) && TankWithinCapacity(inst, LandedShifts(inst, shifts), c)
    {
      LandedTanks(inst, shifts, c);
      hide TankAt, LandedShifts;
      forall h | 0 <= h < inst.horizon ensures TankAt(inst, shifts, c, h) <= inst.customers[c].capacity {
        TightTanks(c, h);
      }
    }
  }

  lemma TightKept()
    ensures var r := TightStops(); Kept(r) == [r[0], r[2], r[3]]
  {
    var r := TightStops();
    KeptUpTo(r, 0);
    KeptUpTo(r, 1);
    KeptUpTo(r, 2);
    KeptUpTo(r, 3);
    assert r[..0] == [] && r[..4] == r;
    hide Kept;
  }

  lemma TightAdvances()
    ensures TightShift().driver in TightInstance().drivers
    ensures Advanced(TightInstance(), [TightShift()], 3, 1) == 5
  {
    var inst, s := TightInstance(), TightShift();
    var r := s.route;
    TightKept();
    TimedFromBase(inst, 0, r);
    var kept, t := Kept(r), Cleaned(inst, s).route;
    hide Kept;
    RetimedAt(inst, 0, kept, 0);
    RetimedAt(inst, 0, kept, 1);
    RetimedAt(inst, 0, kept, 2);
    assert t[1].arrival == 60 && t[0] == r[0] && t[2] == r[3];
    hide Retimed, TimedAnew, Cleaned;
    assert [s][..0] == [];
    assert kept[..2][..1] == kept[..1] && kept[..1][..0] == [] && t[..2][..1] == t[..1] && t[..1][..0] == [];
    assert AdvancedBy(kept[..1], t[..1], 3, 1) == 0;
    assert AdvancedBy(kept[..2], t[..2], 3, 1) == 5;
    assert AdvancedBy(kept, t, 3, 1) == 5;
  }

  lemma {:induction false} TightDoesNotFit()
    ensures 3 in TightInstance().customers && IsLookedAt(TightInstance(), 3)
    ensures TightInstance().ValidCustomer(TightInstance().customers[3])
    ensures TightShift().driver in TightInstance().drivers
    ensures !AdvancesFit(TightInstance(), [TightShift()], 3)
  {
    TightSizes();
    TightCustomersAreValid(3);
    TightAdvances();
    TightTanks(3, 1);
    hide Advanced, TankAt, Instance.ValidCustomer;
  }

  /** After the first customer is left out, the second is reached an hour early,
      while its tank is still full. */
  lemma {:induction false} AdvancedDeliveryOverflows()
    ensures TightInstance().Valid() && TightInstance().Triangle() && Processable(TightInstance(), TightShift())
    ensures Silent(TightInstance(), [TightShift()]) && SiteCheckSilent(TightInstance(), [TightShift()])
    ensures TightShift().driver in TightInstance().drivers
    ensures !SiteCheckSilent(TightInstance(), PostProcessed(TightInstance(), [TightShift()]))
  {
    hide *;
    TightIsValid();
    TightIsMetric();
    TightIsProcessable();
    TightSiteCheck();
    TightDoesNotFit();
    SiteCheckStaysSilentIff(TightInstance(), [TightShift()]);
  }

  // ---- the site check skips the first customer ----

  /** All the trailer holds to the first customer, who has room for half of it. */
  function SkippedShift(): Shift {
    Shift(1, 0, 0, 0, 10, [Stop(BASE, 0, 0, 0, false, 0, 0), Stop(2, -10, 60, 60, false, 0, 60),
                           Stop(BASE, 0, 120, 120, false, 0, 120)])
  }

  lemma {:induction false} SkippedStock(n: nat)
    requires n <= 3
    ensures StockAt(SkippedShift(), n) == if n >= 2 then 0 else 10
  {
    if n > 0 {
      SkippedStock(n - 1);
    }
  }

  lemma {:induction false} SkippedIsOnTime()
    ensures OnTime(TightInstance(), SkippedShift()) && SignsOk(TightInstance(), SkippedShift())
    ensures AllInHorizon(TightInstance(), [SkippedShift()])
  {
    TightIsNumbered();
    hide Instance.Numbered;
  }

  lemma {:induction false} SkippedIsSilent()
    ensures Silent(TightInstance(), [SkippedShift()])
  {
    SkippedIsOnTime();
    hide OnTime, AllInHorizon, SignsOk, StockAt, ShiftSilent, Silent;
    forall n: nat | n <= 3 ensures 0 <= StockAt(SkippedShift(), n) <= 10 {
      SkippedStock(n);
    }
    AloneIsSilent(TightInstance(), SkippedShift());
  }

  lemma {:induction false} SkippedDelivers(c: nat, h: nat)
    ensures c != BASE ==> Delivered([SkippedShift()], c, h) == if c == 2 && h >= 1 then 10 else 0
  {
    DeliveredOfMore([], SkippedShift(), c, h);
    assert [] + [SkippedShift()] == [SkippedShift()];
    DeliveredByThree(SkippedShift().route, c, h);
    hide DeliveredBy;
  }

  lemma {:induction false} SkippedTanks(c: nat, h: nat)
    requires c in TightInstance().customers && h < 3
    ensures h < |TightInstance().customers[c].forecast|
    ensures TankAt(TightInstance(), [SkippedShift()], c, h) <= (if c == 3 then 10 else 15)
    ensures c == 2 && h == 1 ==> TankAt(TightInstance(), [SkippedShift()], c, h) == 15
  {
    SkippedDelivers(c, h);
    hide Delivered;
    var none, some := [0, 0, 0], [0, 0, 5];
    assert Consumed(none, 1) == 0 && Consumed(none, 2) == 0 && Consumed(none, 3) == 0;
    assert Consumed(some, 1) == 0 && Consumed(some, 2) == 0 && Consumed(some, 3) == 5;
  }

  lemma {:induction false} SkippedSiteCheck()
    ensures SiteCheckSilent(TightInstance(), [SkippedShift()])
  {
    var inst, shifts := TightInstance(), [SkippedShift()];
    TightIsValid();
    TightSizes();
    SkippedIsOnTime();
    AllLanded(inst, shifts);
    hide TankAt, LandedShifts, AllIndexed, AllInHorizon, OnTime, SignsOk, Instance.Valid, Instance.ValidCustomer;
    forall c | c in inst.customers && IsLookedAt(inst, c)
      ensures inst.ValidCustomer(inst.customers[c]) && TankWithinCapacity(inst, LandedShifts(inst, shifts), c)
    {
      assert c == 3;
      LandedTanks(inst, shifts, 3);
      forall h | 0 <= h < inst.horizon ensures TankAt(inst, shifts, 3, h) <= inst.customers[3].capacity {
        SkippedTanks(3, h);
      }
    }
  }

  /** The first customer's tank overflows, and neither the site check nor any
      per-shift or linking one reports anything. */
  lemma {:induction false} SkippedCustomerOverflows()
    ensures TightInstance().Valid() && 2 in TightInstance().customers
    ensures TightInstance().ValidCustomer(TightInstance().customers[2])
    ensures Silent(TightInstance(), [SkippedShift()]) && SiteCheckSilent(TightInstance(), [SkippedShift()])
    ensures AllInHorizon(TightInstance(), [SkippedShift()])
    ensures !TankWithinCapacity(TightInstance(), [SkippedShift()], 2)
  {
    TightIsValid();
    TightSizes();
    TightCustomersAreValid(2);
    SkippedIsOnTime();
    SkippedIsSilent();
    SkippedSiteCheck();
    SkippedTanks(2, 1);
    hide Silent, SiteCheckSilent, AllInHorizon, TankAt, OnTime, SignsOk, Instance.Valid, Instance.ValidCustomer;
  }

  // ---- a delivery goes with its shift ----

  /** Nothing for the second customer, 5 for the first, and no return. */
  function UnreturnedShift(): Shift {
    Shift(1, 0, 0, 0, 10, [Stop(BASE, 0, 0, 0, false, 0, 0), Stop(3, 0, 60, 60, false, 0, 60),
                           Stop(2, -5, 120, 120, false, 0, 120)])
  }

  lemma {:induction false} UnreturnedStock(n: nat)
    requires n <= 3
    ensures StockAt(UnreturnedShift(), n) == if n == 3 then 5 else 10
  {
    if n > 0 {
      UnreturnedStock(n - 1);
    }
  }

  lemma {:induction false} UnreturnedIsOnTime()
    ensures OnTime(TightInstance(), UnreturnedShift()) && SignsOk(TightInstance(), UnreturnedShift())
  {
    TightIsNumbered();
    hide Instance.Numbered;
  }

  lemma {:induction false} UnreturnedKept()
    ensures var r := UnreturnedShift().route; Kept(r) == [r[0], r[2]]
  {
    var r := UnreturnedShift().route;
    KeptUpTo(r, 0);
    KeptUpTo(r, 1);
    KeptUpTo(r, 2);
    assert r[..0] == [] && r[..3] == r;
    hide Kept;
  }

  /** A schedule silent in the per-shift and linking checks that does not end at
      the base: what the first customer got is gone with the shift. */
  lemma {:induction false} DroppedDelivery()
    ensures TightInstance().Valid() && Silent(TightInstance(), [UnreturnedShift()])
    ensures UnreturnedShift().driver in TightInstance().drivers && 2 in TightInstance().customers
    ensures !Survives(TightInstance(), UnreturnedShift(), 2)
  {
    TightIsValid();
    TightSizes();
    UnreturnedIsOnTime();
    UnreturnedKept();
    var s := UnreturnedShift();
    hide OnTime, SignsOk, StockAt, ShiftSilent, Silent, Instance.Valid, Kept, Survives;
    forall n: nat | n <= 3 ensures 0 <= StockAt(s, n) <= 10 {
      UnreturnedStock(n);
    }
    AloneIsSilent(TightInstance(), s);
    QuantitySurvives(TightInstance(), s, 2);
    QuantityOfTwo(s.route[0], s.route[2], 2);
  }

  // ---- a layover on the way ----

  function LayoverShift(): Shift {
    TightShift().(route := TightStops()[1 := Stop(2, 0, 60, 60, true, 0, 60)])
  }

  /** On time with its layover, and the duration check fails. */
  method LateLayoverExample() returns (timeline: seq<Violation>, duration: Option<seq<Violation>>)
    ensures timeline == [] && duration == None
  {
    TightIsNumbered();
    hide Instance.Numbered;
    var inst, s := TightInstance(), LayoverShift();
    assert s.route[1].layoverBefore;
    assert TimelineOk(inst, s);
    timeline := CheckTimeline(inst, [s]);
    duration := CheckMaxDuration(inst, [s]);
    assert [s][0] == s;
  }

  // ---- a delivery out of turn ----

  /** A source and a customer an hour from everywhere, and two trailers. */
  function RaceInstance(): Instance {
    Instance(
      5,
      map[1 := Source(0)],
      map[2 := Customer(10, 10, [5, 0, 0, 0, 0], 0, false)],
      map[0 := Trailer(10, 10), 1 := Trailer(10, 10)],
      map[0 := Driver(0, 1000, 0, {0}), 1 := Driver(0, 1000, 0, {1})],
      (p: nat, q: nat) => if p == q then 0 else 60)
  }

  function RaceStart(): Plan {
    var inst := RaceInstance();
    Plan(map[0 := 0, 1 := 1], PlacesAtStart(inst), StockAtStart(inst), DrivingAtStart(inst), map[0 := 1, 1 := 2], 3, [],
         map[2 := [5, 5, 5, 5, 5]], RefillsAtStart(inst))
  }

  lemma RaceIsNumbered()
    ensures RaceInstance().Numbered() && |RaceInstance().sources| == 1
  {
    SizeOf(RaceInstance().sources, {1});
    SizeOf(RaceInstance().customers, {2});
    assert RaceInstance().sources.Keys == {1} && RaceInstance().customers.Keys == {2};
    hide RaceInstance;
    assert forall l :: l in RaceInstance().customers <==> l == 2;
    assert forall l :: l in RaceInstance().sources <==> l == 1;
  }

  lemma RaceIsValid()
    ensures RaceInstance().Valid()
  {
    RaceIsNumbered();
    hide Instance.Numbered;
    var inst := RaceInstance();
    assert inst.ValidCustomer(inst.customers[2]);
  }

  lemma RaceTankAtStart()
    ensures InitialTank(RaceInstance(), RaceStart(), 2)
  {
    var inst, forecast := RaceInstance(), [5, 0, 0, 0, 0];
    assert Consumed(forecast, 1) == 5 && Consumed(forecast, 2) == 5 && Consumed(forecast, 3) == 5;
    assert Consumed(forecast, 4) == 5 && Consumed(forecast, 5) == 5;
    assert inst.customers[2].forecast == forecast;
  }

  lemma RaceIsAssigned()
    ensures IsAssignment(RaceInstance(), RaceStart().trailerOf)
  {
    var inst, trailerOf: map<nat, nat> := RaceInstance(), map[0 := 0, 1 := 1];
    hide Instance.Numbered, PlacesAtStart, StockAtStart, DrivingAtStart, RefillsAtStart;
    assert RaceStart().trailerOf == trailerOf;
    assert MayDrive(inst, 0, 0) && MayDrive(inst, 1, 1);
  }

  lemma RaceIsFresh()
    ensures FreshIds(RaceInstance(), RaceStart().shiftId, RaceStart().nextId)
  {
    hide PlacesAtStart, StockAtStart, DrivingAtStart, RefillsAtStart;
    assert RaceStart().shiftId == map[0 := 1, 1 := 2] && RaceStart().nextId == 3;
    assert RaceInstance().trailers.Keys == {0, 1};
    hide RaceStart, RaceInstance;
  }

  lemma RaceIsInitial()
    ensures IsInitial(RaceInstance(), RaceStart())
  {
    RaceTankAtStart();
    RaceIsAssigned();
    RaceIsFresh();
    hide InitialTank, IsAssignment, FreshIds;
  }

  /** A visit of one driver leaves the other where it was. */
  lemma OthersStay(inst: Instance, p: Plan, d: nat, l: nat, quantity: int, e: nat)
    requires Equipped(inst, p, d) && Equipped(inst, p, e) && p.trailerOf[d] != p.trailerOf[e]
    ensures var v := Visited(inst, p, d, l, quantity);
      e in v.driving && v.driving[e] == p.driving[e]
    ensures var v, t := Visited(inst, p, d, l, quantity), p.trailerOf[e];
      && v.trailerOf == p.trailerOf && v.tanks == p.tanks && v.lastRefill == p.lastRefill
      && t in v.place && t in v.stock && v.place[t] == p.place[t] && v.stock[t] == p.stock[t] && Equipped(inst, v, e)
    ensures var v, t := Visited(inst, p, d, l, quantity), p.trailerOf[d];
      && v.place[t] == Place(l, ArrivalAt(inst, p, d, l) + inst.SetupTime(l)) && v.stock[t] == p.stock[t] + quantity
  {
    hide Find;
  }

  /** The customer's tank at the start, after a delivery of 5 at hour 2, and after
      another one at hour 1. */
  const EMPTIER: seq<int> := [5, 5, 5, 5, 5]
  const FILLED: seq<int> := [5, 5, 10, 10, 10]
  const OVERFLOWN: seq<int> := [5, 10, 15, 15, 15]

  /** The second driver may be at hour 1 where the first one fills the tank at
      hour 2. */
  predicate Racing(p: Plan, tank: seq<int>) {
    var inst := RaceInstance();
    && Equipped(inst, p, 0) && Equipped(inst, p, 1) && p.trailerOf == map[0 := 0, 1 := 1]
    && p.place[1] == Place(BASE, 0) && p.driving[1] == 0 && p.stock[0] <= 10 && p.stock[1] == 10
    && p.tanks == map[2 := tank] && 2 in p.lastRefill
  }

  lemma {:induction false} RaceStartsAtBase()
    ensures Racing(RaceStart(), EMPTIER)
    ensures var start := RaceStart();
      start.place[0] == Place(BASE, 0) && start.stock[0] == 10 && start.driving[0] == 0 && start.lastRefill[2] <= 0
  {
  }

  /** The first trailer drives an hour to the source, and leaves it full. */
  lemma {:induction false} RaceLoads(q: Plan, tank: seq<int>) returns (p: Plan)
    requires Racing(q, tank) && q.place[0].location != 1
    ensures Guarded(RaceInstance(), q, Load(1, 0)) && p == Applied(RaceInstance(), q, Load(1, 0))
    ensures Racing(p, tank) && p.place[0] == Place(1, q.place[0].time + 60) && p.stock[0] == 10
    ensures p.lastRefill == q.lastRefill
  {
    var inst := RaceInstance();
    OthersStay(inst, q, 0, 1, 10 - q.stock[0], 1);
    AfterLoading(inst, q, 0, 1);
    hide Find, Visited;
    p := Applied(inst, q, Load(1, 0));
  }

  /** The first trailer drives on to the customer, and fills the tank at hour 2. */
  lemma RaceDelivers(q: Plan) returns (p: Plan)
    requires Racing(q, EMPTIER) && q.place[0] == Place(1, 60) && q.stock[0] == 10 && q.lastRefill[2] <= 0
    ensures Guarded(RaceInstance(), q, Deliver(2, 0)) && p == Applied(RaceInstance(), q, Deliver(2, 0))
    ensures Racing(p, FILLED) && p.lastRefill[2] == 120 && p.place[0] == Place(2, 120) && p.stock[0] == 5
  {
    var inst := RaceInstance();
    assert ArrivalAt(inst, q, 0, 2) == 120 && MaxQuantity(inst, q, 2, 0) == 5;
    OthersStay(inst, q, 0, 2, -5, 1);
    hide Find, Visited;
    assert Guarded(inst, q, Deliver(2, 0));
    p := Applied(inst, q, Deliver(2, 0));
    assert Raised(EMPTIER, 2, 5) == FILLED;
    DelivererStays(inst, q, 2, 0);
  }

  /** The second trailer comes straight, at hour 1. */
  lemma {:induction false} RaceOvertakes(q: Plan) returns (p: Plan)
    requires Racing(q, FILLED)
    ensures Possible(RaceInstance(), q, Deliver(2, 1)) && p == Applied(RaceInstance(), q, Deliver(2, 1))
    ensures p.trailerOf == q.trailerOf && p.tanks == map[2 := OVERFLOWN] && Equipped(RaceInstance(), p, 0)
    ensures p.place[0] == q.place[0] && p.stock[0] == q.stock[0]
  {
    var inst := RaceInstance();
    assert ArrivalAt(inst, q, 1, 2) == 60 && MaxQuantity(inst, q, 2, 1) == 5;
    OthersStay(inst, q, 1, 2, -5, 0);
    hide Find, Visited;
    p := Applied(inst, q, Deliver(2, 1));
    assert Raised(FILLED, 1, 5) == OVERFLOWN;
  }

  /** The first trailer is back from the source when the second has been there. */
  predicate Overtaken(q: Plan) {
    && q.trailerOf == map[0 := 0, 1 := 1] && q.tanks == map[2 := OVERFLOWN]
    && Equipped(RaceInstance(), q, 0) && q.place[0] == Place(1, 180) && q.stock[0] == 10
  }

  /** To the first trailer, back from the source, the tank has a negative room. */
  lemma {:induction false} RaceTakesBack(q: Plan)
    requires Overtaken(q)
    ensures Possible(RaceInstance(), q, Deliver(2, 0)) && MaxQuantity(RaceInstance(), q, 2, 0) == -5
    ensures var v := Visited(RaceInstance(), q, 0, 2, 5); 0 in v.stock && v.stock[0] == 15
    ensures Applied(RaceInstance(), q, Deliver(2, 0)).shifts == Visited(RaceInstance(), q, 0, 2, 5).shifts
  {
    var inst := RaceInstance();
    assert ArrivalAt(inst, q, 0, 2) == 240;
    hide Find;
  }

  lemma DelivererStays(inst: Instance, p: Plan, c: nat, d: nat)
    requires Guarded(inst, p, Deliver(c, d))
    ensures Equipped(inst, CustomerInserted(inst, p, c, d), d)
  {
  }

  /** The second trailer comes straight, at hour 1, where the tank has room, and
      what it brings overflows it at hour 2: the guards of a run but for the turn
      are met, and the tank's capacity is not. */
  lemma OutOfTurnReached() returns (p: Plan, moves: seq<Move>)
    ensures RaceInstance().Valid() && IsInitial(RaceInstance(), RaceStart())
    ensures GuardedRun(RaceInstance(), RaceStart(), moves) && p == After(RaceInstance(), RaceStart(), moves)
    ensures Equipped(RaceInstance(), p, 1) && 2 in RaceInstance().customers && TankOk(RaceInstance(), p, 2)
    ensures 0 <= ArrivalAt(RaceInstance(), p, 1, 2) / UNIT < RaceInstance().horizon
    ensures WithinDriving(RaceInstance(), p, 1, 2) && !InTurn(RaceInstance(), p, 2, 1)
    ensures !DeliveryFits(RaceInstance(), p, 2, 1)
    ensures RaceInstance().ValidCustomer(RaceInstance().customers[2])
    ensures !TankWithinCapacity(RaceInstance(), CustomerInserted(RaceInstance(), p, 2, 1).shifts, 2)
  {
    var inst := RaceInstance();
    RaceIsValid();
    RaceIsInitial();
    RaceStartsAtBase();
    var q := RaceLoads(RaceStart(), EMPTIER);
    p := RaceDelivers(q);
    moves := [Load(1, 0), Deliver(2, 0)];
    RunOfTwo(inst, RaceStart(), Load(1, 0), Deliver(2, 0));
    RaceFits(p);
    hide *;
    InitialIsGood(inst, RaceStart());
    RunKeepsGood(inst, RaceStart(), moves);
    GoodTank(inst, p, 2);
    DeliveryFitsIff(inst, p, 2, 1);
  }

  lemma GoodTank(inst: Instance, p: Plan, c: nat)
    requires Good(inst, p) && c in inst.customers
    ensures inst.Valid() && inst.ValidCustomer(inst.customers[c]) && TankOk(inst, p, c)
  {
    hide Inv;
  }

  lemma RaceFits(p: Plan)
    requires Racing(p, FILLED) && p.lastRefill[2] == 120
    ensures Equipped(RaceInstance(), p, 1) && 2 in RaceInstance().customers
    ensures 0 <= ArrivalAt(RaceInstance(), p, 1, 2) / UNIT < RaceInstance().horizon
    ensures 2 in p.tanks && |p.tanks[2]| == RaceInstance().horizon
    ensures WithinDriving(RaceInstance(), p, 1, 2) && !InTurn(RaceInstance(), p, 2, 1)
    ensures !DeliveryFits(RaceInstance(), p, 2, 1)
  {
    var inst := RaceInstance();
    assert ArrivalAt(inst, p, 1, 2) == 60 && MaxQuantity(inst, p, 2, 1) == 5;
    assert p.tanks[2][2] + MaxQuantity(inst, p, 2, 1) > inst.customers[2].capacity;
  }

  lemma {:induction false} OvertakenReached() returns (moves: seq<Move>, q: Plan)
    ensures Run(RaceInstance(), RaceStart(), moves) && q == After(RaceInstance(), RaceStart(), moves)
    ensures Overtaken(q)
  {
    var inst, start := RaceInstance(), RaceStart();
    RaceStartsAtBase();
    var q0 := RaceLoads(start, EMPTIER);
    var q1 := RaceDelivers(q0);
    var q2 := RaceLoads(q1, FILLED);
    q := RaceOvertakes(q2);
    hide *;
    moves := [Load(1, 0), Deliver(2, 0)];
    RunOfTwo(inst, start, Load(1, 0), Deliver(2, 0));
    RunExtended(inst, start, moves, Load(1, 0));
    moves := moves + [Load(1, 0)];
    RunExtended(inst, start, moves, Deliver(2, 1));
    moves := moves + [Deliver(2, 1)];
  }

  lemma {:induction false} TookTooMuch(s: Shift)
    requires s.route != [] && Last(s.route).location == 2 && Last(s.route).quantity == 5 && FinalStock(s) == 15
    ensures !SignsOk(RaceInstance(), s) && !StockAtMost(s, 10)
  {
    RaceIsNumbered();
    assert RaceInstance().IsCustomer(2);
    hide RaceInstance, Instance.Numbered, StockAt;
    assert StockAt(s, |s.route|) == 15;
    assert !RightSign(RaceInstance(), Last(s.route));
  }

  /** On time, but with a wrong sign and more than the trailer holds. */
  ghost predicate TakesTooMuch(inst: Instance, s: Shift) {
    && ShiftTimely(inst, s) && !SignsOk(inst, s)
    && s.trailer in inst.trailers && !StockAtMost(s, inst.trailers[s.trailer].capacity)
  }

  lemma {:induction false} TakenBack(q: Plan) returns (k: nat)
    requires RaceInstance().Valid() && Orderly(RaceInstance(), q) && Overtaken(q)
    requires Possible(RaceInstance(), q, Deliver(2, 0))
    ensures var shifts := Applied(RaceInstance(), q, Deliver(2, 0)).shifts;
      k < |shifts| && TakesTooMuch(RaceInstance(), shifts[k])
  {
    var inst := RaceInstance();
    assert 0 in inst.trailers && inst.trailers[0].capacity == 10;
    RaceTakesBack(q);
    hide Instance.Valid, Timely, StockFollows, Visited, ShiftTimely, SignsOk, StockAtMost, FinalStock;
    hide RaceInstance, Possible, Applied, Equipped;
    MoveKeepsOrderly(inst, q, Deliver(2, 0));
    k := VisitIsLast(inst, q, 0, 2, 5);
    TimelyShift(inst, Applied(inst, q, Deliver(2, 0)), k);
    TookTooMuch(Visited(inst, q, 0, 2, 5).shifts[k]);
  }

  /** Out of turn, quantities go wrong while times do not: after the second
      trailer's delivery at hour 1 the first one, full again and back at hour 4,
      is made to take 5 out of the tank and leaves above its own capacity. */
  lemma {:induction false} OutOfTurnTakesBack() returns (moves: seq<Move>, k: nat)
    ensures RaceInstance().Valid() && IsInitial(RaceInstance(), RaceStart())
    ensures Run(RaceInstance(), RaceStart(), moves)
    ensures var shifts := After(RaceInstance(), RaceStart(), moves).shifts;
      k < |shifts| && TakesTooMuch(RaceInstance(), shifts[k])
  {
    var inst, start := RaceInstance(), RaceStart();
    var q: Plan;
    moves, q := OvertakenReached();
    RaceTakesBack(q);
    hide *;
    RaceIsValid();
    RaceIsInitial();
    InitialIsOrderly(inst, start);
    RunKeepsOrderly(inst, start, moves);
    k := TakenBack(q);
    RunExtended(inst, start, moves, Deliver(2, 0));
    moves := moves + [Deliver(2, 0)];
  }
}
