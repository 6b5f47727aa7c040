/** Through `post_process` a schedule the per-shift and the linking checks find
    nothing in stays so. What happens to the tanks is in RoadefPostProcessTanks. */
module RoadefPostProcessSafety {
  import opened Wrappers
  import opened RoadefModel
  import opened RoadefChecker
  import opened RoadefSafety
  import opened RoadefPostProcess

  // ---- quantities ----

  lemma {:induction false} KeptCarries(route: seq<Stop>)
    ensures Carried(Kept(route), |Kept(route)|) == Carried(route, |route|)
  {
    if route != [] {
      var front := route[..|route| - 1];
      KeptCarries(front);
      assert route == front + [Last(route)];
      CarriedOfPrefix(front, [Last(route)], |front|);
      if IsIdle(Last(route)) {
        assert Kept(route) == Kept(front);
      } else {
        CarriedOfPrefix(Kept(front), [Last(route)], |Kept(front)|);
      }
    }
  }

  /** The stops are the same but for their times. */
  ghost predicate SameVisits(a: seq<Stop>, b: seq<Stop>) {
    |a| == |b| && forall i :: 0 <= i < |a| ==> SameVisit(a[i], b[i])
  }

  predicate SameVisit(a: Stop, b: Stop) {
    a.location == b.location && a.quantity == b.quantity && a.layoverBefore == b.layoverBefore
  }

  lemma {:induction false} RetimedSameVisits(inst: Instance, driver: nat, route: seq<Stop>)
    requires driver in inst.drivers
    ensures SameVisits(Retimed(inst, driver, route), route)
  {
    if |route| > 1 {
      RetimedSameVisits(inst, driver, route[..|route| - 1]);
    }
  }

  lemma TimedAnewSameVisits(inst: Instance, driver: nat, route: seq<Stop>)
    requires driver in inst.drivers
    ensures SameVisits(TimedAnew(inst, driver, route), route)
  {
    var start := StartTimed(inst, driver, route);
    RetimedSameVisits(inst, driver, start);
    hide Retimed;
    forall i | 0 <= i < |route| ensures SameVisit(TimedAnew(inst, driver, route)[i], route[i]) {
      assert SameVisit(Retimed(inst, driver, start)[i], start[i]);
    }
  }

  lemma {:induction false} SameVisitsCarry(a: seq<Stop>, b: seq<Stop>, n: nat)
    requires SameVisits(a, b) && n <= |a|
    ensures Carried(a, n) == Carried(b, n)
  {
    if n > 0 {
      SameVisitsCarry(a, b, n - 1);
      assert SameVisit(a[n - 1], b[n - 1]);
    }
  }

  // ---- where a kept stop stands ----

  /** What is kept of a prefix comes first. */
  lemma {:induction false} KeptOfPrefix(route: seq<Stop>, n: nat)
    requires n <= |route|
    ensures |Kept(route[..n])| <= |Kept(route)| && Kept(route)[..|Kept(route[..n])|] == Kept(route[..n])
    decreases |route|
  {
    if n < |route| {
      var front := route[..|route| - 1];
      KeptOfPrefix(front, n);
      assert front[..n] == route[..n];
    } else {
      assert route[..n] == route;
    }
  }

  lemma {:induction false} CarriedByPrefix(route: seq<Stop>, m: nat)
    requires m <= |route|
    ensures Carried(route[..m], m) == Carried(route, m)
  {
    assert route == route[..m] + route[m..];
    CarriedOfPrefix(route[..m], route[m..], m);
  }

  /** A stop that is kept stands where the stops kept before it put it, with the
      quantity it had, and after it the trailer holds what it held. */
  lemma KeptStock(s: Shift, n: nat)
    requires n < |s.route| && !IsIdle(s.route[n])
    ensures var m := |Kept(s.route[..n + 1])|;
      && 0 < m <= |Kept(s.route)| && Kept(s.route)[m - 1] == s.route[n]
      && StockAt(s.(route := Kept(s.route)), m) == StockAt(s, n + 1)
  {
    var kept := Kept(s.route[..n + 1]);
    KeptUpTo(s.route, n);
    KeptOfPrefix(s.route, n + 1);
    KeptCarries(s.route[..n + 1]);
    CarriedByPrefix(s.route, n + 1);
    CarriedByPrefix(Kept(s.route), |kept|);
  }

  /** Later stops stand later. */
  lemma KeptInOrder(route: seq<Stop>, i: nat, j: nat)
    requires i < j < |route| && !IsIdle(route[j])
    ensures |Kept(route[..i + 1])| < |Kept(route[..j + 1])|
  {
    KeptUpTo(route, j);
    KeptOfPrefix(route[..j], i + 1);
    assert route[..j][..i + 1] == route[..i + 1];
  }

  /** And every kept stop is such a stop. */
  lemma {:induction false} KeptComesFrom(route: seq<Stop>, m: nat) returns (n: nat)
    requires 0 < m <= |Kept(route)|
    ensures n < |route| && !IsIdle(route[n]) && |Kept(route[..n + 1])| == m
  {
    var front := route[..|route| - 1];
    if m <= |Kept(front)| {
      n := KeptComesFrom(front, m);
      assert front[..n + 1] == route[..n + 1];
    } else {
      n := |route| - 1;
      assert route[..n + 1] == route;
    }
  }

  /** So the stock keeps its bounds. */
  lemma KeptBounds(s: Shift, low: int, high: int)
    requires StockAtLeast(s, low) && StockAtMost(s, high)
    ensures StockAtLeast(s.(route := Kept(s.route)), low) && StockAtMost(s.(route := Kept(s.route)), high)
  {
    var kept := s.(route := Kept(s.route));
    forall m: nat | 0 < m <= |kept.route| ensures low <= StockAt(kept, m) <= high {
      var n := KeptComesFrom(s.route, m);
      KeptStock(s, n);
    }
  }

  lemma {:induction false} KeptIsAll(route: seq<Stop>)
    requires |Kept(route)| == |route|
    ensures Kept(route) == route
  {
    if route != [] {
      KeptIsAll(route[..|route| - 1]);
    }
  }

  /** The same of the cleaned shift, new times and all: the stop is the one it
      was, to the same place with the same quantity, and so is the stock. */
  lemma CleanedStock(inst: Instance, s: Shift, n: nat)
    requires s.driver in inst.drivers && n < |s.route| && !IsIdle(s.route[n])
    ensures var m, t := |Kept(s.route[..n + 1])|, Cleaned(inst, s);
      && 0 < m <= |t.route| && SameVisit(t.route[m - 1], s.route[n])
      && StockAt(t, m) == StockAt(s, n + 1)
  {
    var kept, m, t := Kept(s.route), |Kept(s.route[..n + 1])|, Cleaned(inst, s);
    KeptStock(s, n);
    if |kept| == |s.route| {
      KeptIsAll(s.route);
    } else {
      TimedAnewSameVisits(inst, s.driver, kept);
      assert SameVisit(t.route[m - 1], kept[m - 1]);
      SameVisitsCarry(t.route, kept, m);
    }
  }

  lemma {:induction false} KeptIsAmong(route: seq<Stop>)
    ensures forall i :: 0 <= i < |Kept(route)| ==> Kept(route)[i] in route
  {
    if route != [] {
      KeptIsAmong(route[..|route| - 1]);
    }
  }

  // ---- times ----

  /** From a one gets anywhere no later than from b. */
  ghost predicate ReachesNoLater(inst: Instance, a: Stop, b: Stop) {
    forall x {:trigger inst.travel(a.location, x)} ::
      a.departure + inst.travel(a.location, x) <= b.departure + inst.travel(b.location, x)
  }

  /** Skipping a stop loses no time. */
  lemma SkippedNoLater(inst: Instance, a: Stop, prev: Stop, stop: Stop)
    requires inst.Triangle() && ReachesNoLater(inst, a, prev)
    requires prev.departure + inst.travel(prev.location, stop.location) <= stop.arrival <= stop.departure
    ensures ReachesNoLater(inst, a, stop)
  {
    hide Instance.Triangle;
    forall x ensures a.departure + inst.travel(a.location, x) <= stop.departure + inst.travel(stop.location, x) {
      TriangleAt(inst, a.location, stop.location, x);
    }
  }

  /** A stop timed anew is reached in time and left no later than before. */
  lemma RetimedNoLater(inst: Instance, driver: nat, a: Stop, prev: Stop, stop: Stop)
    requires driver in inst.drivers && ReachesNoLater(inst, a, prev)
    requires prev.departure + inst.travel(prev.location, stop.location) + Layover(inst, driver, stop) <= stop.arrival
    ensures var b := Retime(inst, driver, a, stop);
      && a.departure + inst.travel(a.location, stop.location) + Layover(inst, driver, stop) <= b.arrival
      && (stop.location == BASE || stop.arrival + inst.SetupTime(stop.location) <= stop.departure ==>
            ReachesNoLater(inst, b, stop))
  {
    var b := Retime(inst, driver, a, stop);
    assert a.departure + inst.travel(a.location, stop.location)
         <= prev.departure + inst.travel(prev.location, stop.location);
    if stop.location == BASE || stop.arrival + inst.SetupTime(stop.location) <= stop.departure {
      assert b.location == stop.location && b.departure <= stop.departure;
    }
  }

  /** A shift the timeline and setup checks find nothing in, over locations the
      instance has. */
  ghost predicate OnTime(inst: Instance, s: Shift) {
    && s.driver in inst.drivers && inst.drivers[s.driver].layoverDuration >= 0
    && TimelineOk(inst, s) && SetupOk(inst, s)
    && forall i :: 0 <= i < |s.route| ==>
         inst.IsValidLocation(s.route[i].location) && s.route[i].arrival <= s.route[i].departure
  }

  lemma TimelineGrows(inst: Instance, s: Shift, stop: Stop)
    requires s.driver in inst.drivers && s.route != [] && TimelineOk(inst, s)
    requires Last(s.route).departure + inst.travel(Last(s.route).location, stop.location)
         + Layover(inst, s.driver, stop)
          <= stop.arrival
    ensures TimelineOk(inst, s.(route := s.route + [stop]))
  {
    var grown := s.(route := s.route + [stop]);
    forall i | 0 <= i < |grown.route| ensures ReachedInTime(inst, grown, i) {
      if i < |s.route| {
        assert ReachedInTime(inst, s, i);
      }
    }
  }

  lemma StopIsOnTime(inst: Instance, s: Shift, n: nat)
    requires inst.Valid() && OnTime(inst, s) && 0 < n < |s.route|
    ensures s.route[n - 1].departure + inst.travel(s.route[n - 1].location, s.route[n].location)
          + Layover(inst, s.driver, s.route[n]) <= s.route[n].arrival
    ensures Layover(inst, s.driver, s.route[n]) >= 0 && inst.SetupTime(s.route[n].location) >= 0
    ensures n < |s.route| - 1 && s.route[n].location != BASE ==>
      s.route[n].arrival + inst.SetupTime(s.route[n].location) <= s.route[n].departure
  {
    assert ReachedInTime(inst, s, n);
    if n < |s.route| - 1 {
      assert SetUp(inst, s.route[n]);
    }
    var l := s.route[n].location;
    assert l in inst.customers ==> inst.ValidCustomer(inst.customers[l]);
  }

  /** The shift as cleaned up to its n-th stop. */
  function Upto(inst: Instance, s: Shift, n: nat): Shift
    requires s.driver in inst.drivers && n <= |s.route|
  {
    s.(route := Retimed(inst, s.driver, Kept(s.route[..n])))
  }

  lemma UptoNext(inst: Instance, s: Shift, n: nat)
    requires s.driver in inst.drivers && 0 < n < |s.route| && Upto(inst, s, n).route != []
    ensures Upto(inst, s, n + 1).route ==
      Upto(inst, s, n).route
      + if IsIdle(s.route[n]) then [] else [Retime(inst, s.driver, Last(Upto(inst, s, n).route), s.route[n])]
  {
    KeptUpTo(s.route, n);
    var kept := Kept(s.route[..n]);
    if IsIdle(s.route[n]) {
      assert kept + [] == kept;
    } else {
      assert (kept + [s.route[n]])[..|kept|] == kept;
    }
  }

  lemma FirstOnTime(inst: Instance, s: Shift)
    requires OnTime(inst, s) && s.route != [] && s.route[0].location == BASE
    ensures Upto(inst, s, 1).route == [s.route[0]] && TimelineOk(inst, Upto(inst, s, 1))
    ensures ReachesNoLater(inst, Last(Upto(inst, s, 1).route), s.route[0])
  {
    assert s.route[..1] == [] + [s.route[0]];
    KeptOfMore([], s.route[0]);
    assert ReachedInTime(inst, s, 0);
  }

  lemma NextOnTime(inst: Instance, s: Shift, n: nat)
    requires inst.Valid() && inst.Triangle() && OnTime(inst, s) && 0 < n < |s.route|
    requires var before := Upto(inst, s, n);
      before.route != [] && TimelineOk(inst, before) && ReachesNoLater(inst, Last(before.route), s.route[n - 1])
    ensures Upto(inst, s, n + 1).route != [] && TimelineOk(inst, Upto(inst, s, n + 1))
    ensures n + 1 < |s.route| ==> ReachesNoLater(inst, Last(Upto(inst, s, n + 1).route), s.route[n])
  {
    var before, prev, stop := Upto(inst, s, n), s.route[n - 1], s.route[n];
    UptoNext(inst, s, n);
    StopIsOnTime(inst, s, n);
    hide *;
    if IsIdle(stop) {
      assert Upto(inst, s, n + 1) == before;
      if n + 1 < |s.route| {
        IdleIsElsewhere(stop);
        SkippedNoLater(inst, Last(before.route), prev, stop);
      }
    } else {
      RetimedNoLater(inst, s.driver, Last(before.route), prev, stop);
      RetimeKeeps(inst, s.driver, Last(before.route), stop);
      TimelineGrows(inst, before, Retime(inst, s.driver, Last(before.route), stop));
    }
  }

  lemma IdleIsElsewhere(stop: Stop)
    requires IsIdle(stop)
    ensures stop.location != BASE
  {
  }

  /** With the triangle inequality the new times pass the timeline check: no
      stop is left later than before. */
  lemma {:induction false} RetimedOnTime(inst: Instance, s: Shift, n: nat)
    requires inst.Valid() && inst.Triangle() && OnTime(inst, s) && 0 < n <= |s.route| && s.route[0].location == BASE
    ensures Upto(inst, s, n).route != [] && TimelineOk(inst, Upto(inst, s, n))
    ensures n < |s.route| ==> ReachesNoLater(inst, Last(Upto(inst, s, n).route), s.route[n - 1])
  {
    hide TimelineOk, Upto, Instance.Valid, Instance.Triangle, ReachesNoLater;
    if n == 1 {
      FirstOnTime(inst, s);
    } else {
      RetimedOnTime(inst, s, n - 1);
      NextOnTime(inst, s, n - 1);
    }
  }

  lemma RetimeKeeps(inst: Instance, driver: nat, prev: Stop, stop: Stop)
    requires driver in inst.drivers
    ensures SameVisit(Retime(inst, driver, prev, stop), stop)
    ensures Layover(inst, driver, Retime(inst, driver, prev, stop)) == Layover(inst, driver, stop)
  {
  }

  // ---- one shift ----

  lemma {:induction false} RetimedIsSetUp(inst: Instance, driver: nat, route: seq<Stop>)
    requires driver in inst.drivers && (route != [] ==> route[0].location == BASE)
    ensures forall i :: 0 <= i < |route| ==> SetUp(inst, Retimed(inst, driver, route)[i])
  {
    if |route| > 1 {
      RetimedIsSetUp(inst, driver, route[..|route| - 1]);
    }
  }

  /** A shift the post-processing is meant for: silent, on time, from the base
      to the base. */
  ghost predicate Processable(inst: Instance, s: Shift) {
    ShiftSilent(inst, s) && OnTime(inst, s) && FromBaseToBase(s.route) && s.departureTime >= 0
  }

  lemma SameVisitsSilent(inst: Instance, s: Shift, route: seq<Stop>)
    requires Known(inst, s) && SameVisits(route, s.route) && SignsOk(inst, s) && NoLateLayovers(s)
    requires StockAtLeast(s, 0) && StockAtMost(s, inst.trailers[s.trailer].capacity)
    ensures var t := s.(route := route);
      && SignsOk(inst, t) && NoLateLayovers(t)
      && StockAtLeast(t, 0) && StockAtMost(t, inst.trailers[t.trailer].capacity)
  {
    var t := s.(route := route);
    forall i | 0 <= i < |route|
      ensures RightSign(inst, route[i]) && route[i].layoverBefore == s.route[i].layoverBefore
    {
      assert SameVisit(route[i], s.route[i]) && RightSign(inst, s.route[i]);
    }
    forall n: nat | 0 < n <= |route| ensures StockAt(t, n) == StockAt(s, n) {
      SameVisitsCarry(route, s.route, n);
    }
  }

  lemma KeptSilent(inst: Instance, s: Shift)
    requires Known(inst, s) && SignsOk(inst, s) && NoLateLayovers(s)
    requires StockAtLeast(s, 0) && StockAtMost(s, inst.trailers[s.trailer].capacity)
    ensures var t := s.(route := Kept(s.route));
      && SignsOk(inst, t) && NoLateLayovers(t)
      && StockAtLeast(t, 0) && StockAtMost(t, inst.trailers[t.trailer].capacity)
  {
    KeptBounds(s, 0, inst.trailers[s.trailer].capacity);
    forall i | 0 <= i < |Kept(s.route)|
      ensures RightSign(inst, Kept(s.route)[i]) && (i > 0 ==> !Kept(s.route)[i].layoverBefore)
    {
      var n := KeptComesFrom(s.route, i + 1);
      KeptStock(s, n);
      assert RightSign(inst, s.route[n]);
    }
  }

  lemma {:induction false} RetimedPassesTimes(inst: Instance, s: Shift)
    requires inst.Valid() && inst.Triangle() && OnTime(inst, s) && FromBaseToBase(s.route)
    ensures var t := s.(route := Retimed(inst, s.driver, Kept(s.route)));
      t.route != [] && TimelineOk(inst, t) && SetupOk(inst, t)
  {
    hide Instance.Triangle;
    KeptStartsAtBase(s.route);
    RetimedSameVisits(inst, s.driver, Kept(s.route));
    RetimedIsSetUp(inst, s.driver, Kept(s.route));
    assert s.route[..|s.route|] == s.route;
    RetimedOnTime(inst, s, |s.route|);
    hide Instance.Valid, FromBaseToBase, TimelineOk, Kept, Retimed;
  }

  /** Cleaning keeps every check of one shift silent. */
  lemma {:induction false} CleanedIsSilent(inst: Instance, s: Shift)
    requires inst.Valid() && inst.Triangle() && Processable(inst, s)
    ensures ShiftSilent(inst, Cleaned(inst, s))
  {
    hide Instance.Triangle, Instance.Valid;
    if |Kept(s.route)| < |s.route| {
      TimedFromBase(inst, s.driver, s.route);
      KeptSilent(inst, s);
      RetimedPassesTimes(inst, s);
      var kept := s.(route := Kept(s.route));
      RetimedSameVisits(inst, s.driver, kept.route);
      hide SignsOk, NoLateLayovers, StockAtLeast, StockAtMost, SetUp, SetupOk, TimelineOk;
      hide Kept, Retimed, OnTime, SameVisits;
      SameVisitsSilent(inst, kept, Retimed(inst, s.driver, kept.route));
    }
  }

  /** It ends when it did, with the stock it had. */
  lemma CleanedEnds(inst: Instance, s: Shift)
    requires s.driver in inst.drivers && FromBaseToBase(s.route)
    ensures FinalStock(Cleaned(inst, s)) == FinalStock(s) && End(Cleaned(inst, s)) == End(s)
    ensures !Stays(s) ==> FinalStock(s) == s.initialQuantity
  {
    var route := s.route;
    var kept := Kept(route);
    assert kept == Kept(route[..|route| - 1]) + [Last(route)];
    KeptStartsAtBase(route[..|route| - 1]);
    KeptCarries(route);
    TimedFromBase(inst, s.driver, route);
    RetimedSameVisits(inst, s.driver, kept);
    SameVisitsCarry(Retimed(inst, s.driver, kept), kept, |kept|);
    if !Stays(s) {
      assert |kept| == 2 && kept[0] == route[0] && kept[1] == Last(route);
      assert Carried(kept, 2) == Carried(kept, 1) + kept[1].quantity;
      assert Carried(kept, 1) == Carried(kept, 0) + kept[0].quantity;
    }
  }

  // ---- driving ----

  lemma {:induction false} DrivenSame(inst: Instance, a: seq<Stop>, b: seq<Stop>, n: nat)
    requires n < |a| && n < |b| && forall i :: 0 <= i <= n ==> a[i].location == b[i].location
    ensures Driven(inst, a, n) == Driven(inst, b, n)
  {
    if n > 0 {
      DrivenSame(inst, a, b, n - 1);
    }
  }

  /** Leaving stops out never adds driving. */
  lemma {:induction false} KeptDrivesNoMore(inst: Instance, route: seq<Stop>, x: nat)
    requires inst.Triangle() && route != [] && route[0].location == BASE
    ensures Kept(route) != []
    ensures Driven(inst, Kept(route), |Kept(route)| - 1) + inst.travel(Last(Kept(route)).location, x)
         <= Driven(inst, route, |route| - 1) + inst.travel(Last(route).location, x)
  {
    hide Instance.Triangle;
    KeptStartsAtBase(route);
    if |route| == 1 {
      assert Kept(route[..0]) == [];
    } else {
      var front, last := route[..|route| - 1], Last(route);
      DrivenSame(inst, front, route, |front| - 1);
      KeptDrivesNoMore(inst, front, last.location);
      if IsIdle(last) {
        assert Kept(route) == Kept(front);
        TriangleAt(inst, Last(Kept(front)).location, last.location, x);
      } else {
        DrivenSame(inst, Kept(front), Kept(route), |Kept(front)| - 1);
      }
    }
  }

  lemma {:induction false} DrivenGrows(inst: Instance, route: seq<Stop>, m: nat, n: nat)
    requires m <= n < |route| && forall p, q :: inst.travel(p, q) >= 0
    ensures Driven(inst, route, m) <= Driven(inst, route, n)
    decreases n
  {
    if m < n {
      DrivenGrows(inst, route, m, n - 1);
    }
  }

  lemma {:induction false} CleanedDrivesNoMore(inst: Instance, s: Shift)
    requires inst.Valid() && inst.Triangle() && Known(inst, s) && FromBaseToBase(s.route)
    ensures var route := Cleaned(inst, s).route;
      |route| > 0 && Driven(inst, route, |route| - 1) <= Driven(inst, s.route, |s.route| - 1)
  {
    hide Instance.Triangle, Instance.Valid;
    var kept := Kept(s.route);
    if |kept| < |s.route| {
      KeptDrivesNoMore(inst, s.route, BASE);
      assert Last(kept) == Last(s.route);
      TimedFromBase(inst, s.driver, s.route);
      RetimedDrives(inst, s.driver, kept);
      hide Kept, Retimed, Driven, FromBaseToBase;
    }
  }

  lemma {:induction false} RetimedDrives(inst: Instance, driver: nat, route: seq<Stop>)
    requires driver in inst.drivers && route != []
    ensures Driven(inst, Retimed(inst, driver, route), |route| - 1) == Driven(inst, route, |route| - 1)
  {
    RetimedSameVisits(inst, driver, route);
    var t := Retimed(inst, driver, route);
    hide Retimed, Driven;
    forall i | 0 <= i < |t| ensures t[i].location == route[i].location {
      assert SameVisit(t[i], route[i]);
    }
    DrivenSame(inst, t, route, |route| - 1);
  }

  lemma {:induction false} CleanedStarts(inst: Instance, s: Shift)
    requires s.driver in inst.drivers && FromBaseToBase(s.route)
    ensures Cleaned(inst, s).route != [] && Cleaned(inst, s).route[0] == s.route[0]
  {
    KeptStartsAtBase(s.route);
    if |Kept(s.route)| < |s.route| {
      TimedFromBase(inst, s.driver, s.route);
      RetimedAt(inst, s.driver, Kept(s.route), 0);
    }
  }

  lemma {:induction false} CountedAt(inst: Instance, s: Shift, i: nat)
    requires i < |s.route|
    ensures |Recounted(inst, s).route| == |s.route| && Recounted(inst, s).driver == s.driver
    ensures DrivingAt(Recounted(inst, s), i) ==
      if i == 0 && s.route[0].layoverBefore then s.route[0].drivingBeforeLayover else Driven(inst, s.route, i)
  {
  }

  lemma {:induction false} RouteDrivesWithin(inst: Instance, s: Shift, t: Shift)
    requires s.driver in inst.drivers && t.driver == s.driver && s.route != [] && t.route != []
    requires t.route[0] == s.route[0] && (forall p, q :: inst.travel(p, q) >= 0)
    requires Driven(inst, t.route, |t.route| - 1) <= Driven(inst, s.route, |s.route| - 1)
    requires DrivingOk(inst, Recounted(inst, s)) && |s.route| > 1
    ensures DrivingOk(inst, Recounted(inst, t))
  {
    hide Recounted, DrivingAt, Driven;
    CountedAt(inst, s, 0);
    CountedAt(inst, s, |s.route| - 1);
    CountedAt(inst, t, 0);
    forall i | 0 <= i < |t.route| ensures DrivingAt(Recounted(inst, t), i) <= inst.drivers[s.driver].maxDriving {
      CountedAt(inst, t, i);
      DrivenGrows(inst, t.route, i, |t.route| - 1);
    }
  }

  /** Once the driving times are counted anew, the driver still drives no longer
      than allowed. */
  lemma {:induction false} CleanedDrivesWithin(inst: Instance, s: Shift)
    requires inst.Valid() && inst.Triangle() && Known(inst, s) && FromBaseToBase(s.route)
    requires DrivingOk(inst, Recounted(inst, s))
    ensures DrivingOk(inst, Recounted(inst, Cleaned(inst, s)))
  {
    assert (forall p, q :: inst.travel(p, q) >= 0) && Cleaned(inst, s).driver == s.driver && |s.route| > 1;
    hide *;
    CleanedDrivesNoMore(inst, s);
    CleanedStarts(inst, s);
    RouteDrivesWithin(inst, s, Cleaned(inst, s));
  }

  // ---- the checks that link shifts ----

  /** The shifts that stay, cleaned, before they are numbered. */
  function Survivors(inst: Instance, shifts: seq<Shift>): seq<Shift>
    requires forall i :: 0 <= i < |shifts| ==> shifts[i].driver in inst.drivers
  {
    if shifts == [] then [] else
      Survivors(inst, shifts[..|shifts| - 1])
      + if Stays(Last(shifts)) then [Cleaned(inst, Last(shifts)).(id := 0)] else []
  }

  function Unnumbered(shifts: seq<Shift>): (r: seq<Shift>)
    ensures |r| == |shifts|
  {
    if shifts == [] then [] else Unnumbered(shifts[..|shifts| - 1]) + [Last(shifts).(id := 0)]
  }

  lemma {:induction false} SurvivorsAreProcessed(inst: Instance, shifts: seq<Shift>)
    requires forall i :: 0 <= i < |shifts| ==> shifts[i].driver in inst.drivers
    ensures Unnumbered(PostProcessed(inst, shifts)) == Survivors(inst, shifts)
  {
    if shifts != [] {
      SurvivorsAreProcessed(inst, shifts[..|shifts| - 1]);
    }
  }

  lemma {:induction false} UnnumberedInsert(t: seq<Shift>, x: Shift)
    ensures Unnumbered(Insert(t, x)) == Insert(Unnumbered(t), x.(id := 0))
  {
    if t == [] || Last(t).departureTime <= x.departureTime {
      assert (t + [x])[..|t|] == t;
    } else {
      var front := t[..|t| - 1];
      UnnumberedInsert(front, x);
      assert (Insert(front, x) + [Last(t)])[..|Insert(front, x)|] == Insert(front, x);
      assert Unnumbered(t)[..|Unnumbered(t)| - 1] == Unnumbered(front);
    }
  }

  lemma {:induction false} UnnumberedSorted(shifts: seq<Shift>)
    ensures Unnumbered(Sorted(shifts)) == Sorted(Unnumbered(shifts))
  {
    hide Insert;
    if shifts != [] {
      var front := shifts[..|shifts| - 1];
      UnnumberedSorted(front);
      UnnumberedInsert(Sorted(front), Last(shifts));
      var unnumbered := Unnumbered(shifts);
      assert unnumbered[..|unnumbered| - 1] == Unnumbered(front) && Last(unnumbered) == Last(shifts).(id := 0);
    }
  }

  // ---- dropping commutes with sorting ----

  lemma {:induction false} AscendingBelowLast(t: seq<Shift>, i: nat)
    requires Ascending(t) && i < |t|
    ensures t[i].departureTime <= Last(t).departureTime
    decreases |t|
  {
    if i < |t| - 1 {
      AscendingBelowLast(t[..|t| - 1], i);
    }
  }

  lemma {:induction false} SurvivorsDepart(inst: Instance, t: seq<Shift>, time: int)
    requires forall i :: 0 <= i < |t| ==> t[i].driver in inst.drivers && t[i].departureTime <= time
    ensures forall i :: 0 <= i < |Survivors(inst, t)| ==> Survivors(inst, t)[i].departureTime <= time
  {
    if t != [] {
      SurvivorsDepart(inst, t[..|t| - 1], time);
    }
  }

  lemma {:induction false} SurvivorsOfMore(inst: Instance, t: seq<Shift>, x: Shift)
    requires x.driver in inst.drivers && forall i :: 0 <= i < |t| ==> t[i].driver in inst.drivers
    ensures forall i :: 0 <= i < |t + [x]| ==> (t + [x])[i].driver in inst.drivers
    ensures Survivors(inst, t + [x])
         == if Stays(x) then Survivors(inst, t) + [Cleaned(inst, x).(id := 0)] else Survivors(inst, t)
  {
    assert (t + [x])[..|t|] == t;
    assert Survivors(inst, t) + [] == Survivors(inst, t);
  }

  lemma {:induction false} InsertedKnown(inst: Instance, t: seq<Shift>, x: Shift)
    requires x.driver in inst.drivers && forall i :: 0 <= i < |t| ==> t[i].driver in inst.drivers
    ensures forall i :: 0 <= i < |Insert(t, x)| ==> Insert(t, x)[i].driver in inst.drivers
  {
    if t != [] && Last(t).departureTime > x.departureTime {
      InsertedKnown(inst, t[..|t| - 1], x);
    }
  }

  lemma {:induction false} InsertAfter(t: seq<Shift>, x: Shift)
    requires forall i :: 0 <= i < |t| ==> t[i].departureTime <= x.departureTime
    ensures Insert(t, x) == t + [x]
  {
  }

  lemma {:induction false} SurvivorsInsert(inst: Instance, t: seq<Shift>, x: Shift)
    requires Ascending(t) && x.driver in inst.drivers && forall i :: 0 <= i < |t| ==> t[i].driver in inst.drivers
    ensures forall i :: 0 <= i < |Insert(t, x)| ==> Insert(t, x)[i].driver in inst.drivers
    ensures Survivors(inst, Insert(t, x))
         == if Stays(x) then Insert(Survivors(inst, t), Cleaned(inst, x).(id := 0)) else Survivors(inst, t)
  {
    hide Cleaned, Stays, Insert, Survivors, Ascending;
    InsertedKnown(inst, t, x);
    if t == [] || Last(t).departureTime <= x.departureTime {
      SurvivorsAppend(inst, t, x);
    } else {
      var front, last := t[..|t| - 1], Last(t);
      FrontAndLast(t);
      AscendingOfMore(front, last);
      SurvivorsInsert(inst, front, x);
      InsertLast(front, last, x);
      SurvivorsOfMore(inst, Insert(front, x), last);
      SurvivorsOfMore(inst, front, last);
      CleanedDeparts(inst, last);
      CleanedDeparts(inst, x);
      InsertLast(Survivors(inst, front), Cleaned(inst, last).(id := 0), Cleaned(inst, x).(id := 0));
    }
  }

  /** Where x goes to the end. */
  lemma {:induction false} SurvivorsAppend(inst: Instance, t: seq<Shift>, x: Shift)
    requires Ascending(t) && x.driver in inst.drivers && forall i :: 0 <= i < |t| ==> t[i].driver in inst.drivers
    requires t == [] || Last(t).departureTime <= x.departureTime
    ensures Insert(t, x) == t + [x] && forall i :: 0 <= i < |Insert(t, x)| ==> Insert(t, x)[i].driver in inst.drivers
    ensures Survivors(inst, Insert(t, x))
         == if Stays(x) then Insert(Survivors(inst, t), Cleaned(inst, x).(id := 0)) else Survivors(inst, t)
  {
    hide Cleaned, Stays, Insert, Survivors;
    forall i | 0 <= i < |t| ensures t[i].departureTime <= x.departureTime {
      AscendingBelowLast(t, i);
    }
    hide Ascending;
    CleanedDeparts(inst, x);
    SurvivorsOfMore(inst, t, x);
    InsertAfter(t, x);
    SurvivorsDepart(inst, t, x.departureTime);
    InsertAfter(Survivors(inst, t), Cleaned(inst, x).(id := 0));
  }

  lemma CleanedDeparts(inst: Instance, x: Shift)
    requires x.driver in inst.drivers
    ensures Cleaned(inst, x).departureTime == x.departureTime
  {
  }

  lemma {:induction false} SurvivorsSorted(inst: Instance, shifts: seq<Shift>)
    requires forall i :: 0 <= i < |shifts| ==> shifts[i].driver in inst.drivers
    ensures forall i :: 0 <= i < |Sorted(shifts)| ==> Sorted(shifts)[i].driver in inst.drivers
    ensures Survivors(inst, Sorted(shifts)) == Sorted(Survivors(inst, shifts))
  {
    if shifts != [] {
      var front, x := shifts[..|shifts| - 1], Last(shifts);
      assert shifts == front + [x];
      SurvivorsSorted(inst, front);
      SortAscends(front);
      SurvivorsInsert(inst, Sorted(front), x);
      SortedOfMore(front, x);
      SurvivorsOfMore(inst, front, x);
      hide Insert, Cleaned, Stays, Sorted, Survivors;
      SortedOfMore(Survivors(inst, front), Cleaned(inst, x).(id := 0));
    }
  }

  // ---- numbers do not matter to the linked checks ----

  lemma {:induction false} UnnumberedLatest(t: seq<Shift>, link: Link, key: nat)
    ensures Latest(Unnumbered(t), link, key)
         == match Latest(t, link, key) case None => None case Some(p) => Some(p.(id := 0))
  {
    if t != [] {
      UnnumberedLatest(t[..|t| - 1], link, key);
      assert Unnumbered(t)[..|t| - 1] == Unnumbered(t[..|t| - 1]);
    }
  }

  lemma {:induction false} UnnumberedLinked(inst: Instance, link: Link, t: seq<Shift>)
    ensures Linked(inst, link, Unnumbered(t)) <==> Linked(inst, link, t)
  {
    if t != [] {
      var front, last := t[..|t| - 1], Last(t);
      UnnumberedLinked(inst, link, front);
      UnnumberedLatest(front, link, KeyOf(link, last));
      assert Unnumbered(t)[..|t| - 1] == Unnumbered(front);
    }
  }

  // ---- dropping shifts ----

  ghost predicate Droppable(inst: Instance, s: Shift) {
    && s.driver in inst.drivers && s.trailer in inst.trailers && inst.drivers[s.driver].minInterShift >= 0
    && FromBaseToBase(s.route) && 0 <= s.departureTime <= End(s)
  }

  ghost predicate AllDroppable(inst: Instance, t: seq<Shift>) {
    forall i :: 0 <= i < |t| ==> Droppable(inst, t[i])
  }

  lemma CleanedIsLike(inst: Instance, x: Shift)
    requires Droppable(inst, x)
    ensures var c := Cleaned(inst, x).(id := 0);
      && c.driver == x.driver && c.trailer == x.trailer && c.initialQuantity == x.initialQuantity
      && c.departureTime == x.departureTime && FinalStock(c) == FinalStock(x) && End(c) == End(x)
    ensures !Stays(x) ==> FinalStock(x) == x.initialQuantity
    ensures x.driver in inst.drivers && x.trailer in inst.trailers && inst.drivers[x.driver].minInterShift >= 0
    ensures 0 <= x.departureTime <= End(x)
  {
    CleanedEnds(inst, x);
  }

  lemma {:induction false} CleanedMayFollow(inst: Instance, left: seq<Shift>, front: seq<Shift>, x: Shift, c: Shift)
    requires x.trailer in inst.trailers && StockAfter(inst, left, x.trailer) == StockAfter(inst, front, x.trailer)
    requires c.trailer == x.trailer && c.initialQuantity == x.initialQuantity
    requires MayFollow(inst, Stock, Latest(front, Stock, KeyOf(Stock, x)), x)
    ensures MayFollow(inst, Stock, Latest(left, Stock, KeyOf(Stock, c)), c)
  {
    hide Latest, FinalStock;
  }

  /** A dropped shift left the trailer's stock as it was... */
  lemma {:induction false} SurvivorsStockAfter(inst: Instance, t: seq<Shift>)
    requires AllDroppable(inst, t) && Linked(inst, Stock, t)
    ensures forall trailer :: trailer in inst.trailers ==>
      StockAfter(inst, Survivors(inst, t), trailer) == StockAfter(inst, t, trailer)
  {
    if t != [] {
      var front, x := t[..|t| - 1], Last(t);
      assert t == front + [x] && Droppable(inst, x);
      SurvivorsStockAfter(inst, front);
      SurvivorsOfMore(inst, front, x);
      CleanedIsLike(inst, x);
      LinkedOfMore(inst, Stock, front, x);
      LinkedOfMore(inst, Stock, Survivors(inst, front), Cleaned(inst, x).(id := 0));
      hide Linked, Latest, Survivors, Cleaned, Stays, Droppable, FinalStock, End;
    }
  }

  lemma {:induction false} SurvivorsStock(inst: Instance, t: seq<Shift>)
    requires AllDroppable(inst, t) && Linked(inst, Stock, t)
    ensures Linked(inst, Stock, Survivors(inst, t))
  {
    if t != [] {
      var front, x := t[..|t| - 1], Last(t);
      assert t == front + [x] && Droppable(inst, x);
      SurvivorsStock(inst, front);
      SurvivorsOfMore(inst, front, x);
      CleanedIsLike(inst, x);
      LinkedOfMore(inst, Stock, front, x);
      var left, c := Survivors(inst, front), Cleaned(inst, x).(id := 0);
      LinkedOfMore(inst, Stock, left, c);
      SurvivorsStockAfter(inst, front);
      hide *;
      CleanedMayFollow(inst, left, front, x, c);
    }
  }

  /** ...and only kept the next one waiting. */
  lemma {:induction false} SurvivorsEndAfter(inst: Instance, link: Link, t: seq<Shift>)
    requires link != Stock && AllDroppable(inst, t) && Linked(inst, link, t)
    ensures forall key :: 0 <= EndAfter(Survivors(inst, t), link, key) <= EndAfter(t, link, key)
  {
    if t != [] {
      var front, x := t[..|t| - 1], Last(t);
      assert t == front + [x] && Droppable(inst, x);
      SurvivorsEndAfter(inst, link, front);
      SurvivorsOfMore(inst, front, x);
      CleanedIsLike(inst, x);
      LinkedOfMore(inst, link, front, x);
      LinkedOfMore(inst, link, Survivors(inst, front), Cleaned(inst, x).(id := 0));
      hide Linked, Latest, Survivors, Cleaned, Stays, Droppable, FinalStock, End;
    }
  }

  lemma {:induction false} SurvivorsRest(inst: Instance, link: Link, t: seq<Shift>)
    requires link != Stock && AllDroppable(inst, t) && Linked(inst, link, t)
    ensures Linked(inst, link, Survivors(inst, t))
  {
    if t != [] {
      var front, x := t[..|t| - 1], Last(t);
      assert t == front + [x] && Droppable(inst, x);
      SurvivorsRest(inst, link, front);
      SurvivorsEndAfter(inst, link, front);
      SurvivorsOfMore(inst, front, x);
      CleanedIsLike(inst, x);
      LinkedOfMore(inst, link, front, x);
      LinkedOfMore(inst, link, Survivors(inst, front), Cleaned(inst, x).(id := 0));
      hide Linked, Latest, Survivors, Cleaned, Stays, Droppable, FinalStock, End;
      assert 0 <= EndAfter(Survivors(inst, front), link, KeyOf(link, x)) <= EndAfter(front, link, KeyOf(link, x));
    }
  }

  /** Whatever the check, what it allowed it still allows after the pass. */
  lemma {:induction false} ProcessedIsLinked(inst: Instance, link: Link, shifts: seq<Shift>)
    requires AllDroppable(inst, shifts) && Linked(inst, link, Sorted(shifts))
    ensures Linked(inst, link, Sorted(PostProcessed(inst, shifts)))
  {
    SortedDroppable(inst, shifts);
    if link == Stock {
      SurvivorsStock(inst, Sorted(shifts));
    } else {
      SurvivorsRest(inst, link, Sorted(shifts));
    }
    hide Linked;
    var result := PostProcessed(inst, shifts);
    SurvivorsSorted(inst, shifts);
    SurvivorsAreProcessed(inst, shifts);
    UnnumberedSorted(result);
    UnnumberedLinked(inst, link, Sorted(result));
  }

  lemma {:induction false} SortedDroppable(inst: Instance, shifts: seq<Shift>)
    requires AllDroppable(inst, shifts)
    ensures AllDroppable(inst, Sorted(shifts))
  {
    SortedSameElements(shifts);
    forall i | 0 <= i < |Sorted(shifts)| ensures Droppable(inst, Sorted(shifts)[i]) {
      assert Sorted(shifts)[i] in shifts;
    }
  }

  lemma {:induction false} ReachedAfterStart(inst: Instance, s: Shift, n: nat)
    requires inst.Valid() && OnTime(inst, s) && n < |s.route|
    ensures s.departureTime <= s.route[n].arrival
  {
    assert ReachedInTime(inst, s, n);
    if n > 0 {
      ReachedAfterStart(inst, s, n - 1);
    }
  }

  lemma ProcessableIsDroppable(inst: Instance, s: Shift)
    requires inst.Valid() && Processable(inst, s)
    ensures Droppable(inst, s)
  {
    ReachedAfterStart(inst, s, |s.route| - 1);
  }

  // ---- the whole schedule ----

  /** A shift of the result is one of the given, cleaned and numbered by its
      place. */
  ghost predicate ComesFrom(inst: Instance, shifts: seq<Shift>, result: Shift, k: nat)
    requires forall i :: 0 <= i < |shifts| ==> shifts[i].driver in inst.drivers
  {
    exists i :: 0 <= i < |shifts| && Stays(shifts[i]) && result == Cleaned(inst, shifts[i]).(id := k + 1)
  }

  lemma {:induction false} ProcessedComesFrom(inst: Instance, shifts: seq<Shift>, k: nat)
    requires forall i :: 0 <= i < |shifts| ==> shifts[i].driver in inst.drivers
    requires k < |PostProcessed(inst, shifts)|
    ensures ComesFrom(inst, shifts, PostProcessed(inst, shifts)[k], k)
  {
    var front := shifts[..|shifts| - 1];
    hide Cleaned, Stays;
    if k < |PostProcessed(inst, front)| {
      ProcessedComesFrom(inst, front, k);
      var i :| 0 <= i < |front| && Stays(front[i])
        && PostProcessed(inst, front)[k] == Cleaned(inst, front[i]).(id := k + 1);
      assert shifts[i] == front[i];
    } else {
      assert Last(shifts) == shifts[|shifts| - 1];
    }
  }

  lemma NumberIsNotChecked(inst: Instance, s: Shift, id: nat)
    requires ShiftSilent(inst, s)
    ensures ShiftSilent(inst, s.(id := id))
  {
    var t := s.(id := id);
    forall i | 0 <= i < |t.route| ensures ReachedInTime(inst, t, i) {
      assert ReachedInTime(inst, s, i);
    }
    forall n: nat | 0 < n <= |t.route| ensures StockAt(t, n) == StockAt(s, n) {
    }
  }

  lemma {:induction false} ProcessedShiftIsSilent(inst: Instance, shifts: seq<Shift>, k: nat)
    requires inst.Valid() && inst.Triangle()
    requires forall i :: 0 <= i < |shifts| ==> Processable(inst, shifts[i]) && shifts[i].driver in inst.drivers
    requires k < |PostProcessed(inst, shifts)|
    ensures ShiftSilent(inst, PostProcessed(inst, shifts)[k])
  {
    hide ShiftSilent, Processable, Cleaned, Stays, PostProcessed, Instance.Valid, Instance.Triangle;
    ProcessedComesFrom(inst, shifts, k);
    var i :| 0 <= i < |shifts| && Stays(shifts[i])
      && PostProcessed(inst, shifts)[k] == Cleaned(inst, shifts[i]).(id := k + 1);
    CleanedIsSilent(inst, shifts[i]);
    NumberIsNotChecked(inst, Cleaned(inst, shifts[i]), k + 1);
  }

  /** No check of one shift, and none that links a shift with the one before it,
      reports anything new after post-processing. */
  lemma {:induction false} PostProcessKeepsSilent(inst: Instance, shifts: seq<Shift>)
    requires inst.Valid() && inst.Triangle() && Silent(inst, shifts)
    requires forall i :: 0 <= i < |shifts| ==> Processable(inst, shifts[i])
    ensures forall i :: 0 <= i < |shifts| ==> shifts[i].driver in inst.drivers
    ensures Silent(inst, PostProcessed(inst, shifts))
  {
    forall i | 0 <= i < |shifts| ensures Droppable(inst, shifts[i]) && shifts[i].driver in inst.drivers {
      ProcessableIsDroppable(inst, shifts[i]);
    }
    hide ShiftSilent, Linked, Sorted, Processable, PostProcessed, Droppable, Instance.Valid, Instance.Triangle;
    ProcessedIsLinked(inst, Stock, shifts);
    ProcessedIsLinked(inst, Rest, shifts);
    ProcessedIsLinked(inst, Overlap, shifts);
    forall k | 0 <= k < |PostProcessed(inst, shifts)| ensures ShiftSilent(inst, PostProcessed(inst, shifts)[k]) {
      ProcessedShiftIsSilent(inst, shifts, k);
    }
  }

  ghost predicate RecountedOk(inst: Instance, s: Shift) {
    s.driver in inst.drivers && DrivingOk(inst, Recounted(inst, s))
  }

  lemma {:induction false} RenumberedDrives(inst: Instance, s: Shift, id: nat)
    requires RecountedOk(inst, s)
    ensures RecountedOk(inst, s.(id := id))
  {
    hide Driven;
    var t := s.(id := id);
    assert Recounted(inst, t) == Recounted(inst, s).(id := id);
    forall i | 0 <= i < |t.route| ensures DrivingAt(Recounted(inst, t), i) == DrivingAt(Recounted(inst, s), i) {}
  }

  lemma {:induction false} ProcessedDrives(inst: Instance, shifts: seq<Shift>, k: nat)
    requires inst.Valid() && inst.Triangle() && AllKnown(inst, shifts)
    requires forall i :: 0 <= i < |shifts| ==> FromBaseToBase(shifts[i].route) && RecountedOk(inst, shifts[i])
    requires k < |PostProcessed(inst, shifts)|
    ensures RecountedOk(inst, PostProcessed(inst, shifts)[k])
  {
    hide Stays, PostProcessed, Instance.Valid, Instance.Triangle, Recounted, Driven, DrivingOk, FromBaseToBase, Cleaned;
    ProcessedComesFrom(inst, shifts, k);
    var i :| 0 <= i < |shifts| && Stays(shifts[i])
      && PostProcessed(inst, shifts)[k] == Cleaned(inst, shifts[i]).(id := k + 1);
    assert Known(inst, shifts[i]);
    CleanedDrivesWithin(inst, shifts[i]);
    CleanedDriver(inst, shifts[i]);
    RenumberedDrives(inst, Cleaned(inst, shifts[i]), k + 1);
  }

  lemma CleanedDriver(inst: Instance, s: Shift)
    requires s.driver in inst.drivers
    ensures Cleaned(inst, s).driver == s.driver
  {
  }

  /** And no driver drives longer than allowed. */
  lemma {:induction false} PostProcessKeepsDriving(inst: Instance, shifts: seq<Shift>)
    requires inst.Valid() && inst.Triangle() && AllKnown(inst, shifts)
    requires forall i :: 0 <= i < |shifts| ==> FromBaseToBase(shifts[i].route) && RecountedOk(inst, shifts[i])
    ensures forall k :: 0 <= k < |PostProcessed(inst, shifts)| ==> RecountedOk(inst, PostProcessed(inst, shifts)[k])
  {
    assert forall i :: 0 <= i < |shifts| ==> Known(inst, shifts[i]);
    hide *;
    forall k | 0 <= k < |PostProcessed(inst, shifts)| ensures RecountedOk(inst, PostProcessed(inst, shifts)[k]) {
      ProcessedDrives(inst, shifts, k);
    }
  }
}
