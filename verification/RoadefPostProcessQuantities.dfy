/** What `post_process` does to the quantities brought to each location. */
module RoadefPostProcessQuantities {
  import opened RoadefModel
  import opened RoadefPostProcess
  import opened RoadefPostProcessSafety

  /** What a route brings to a location, in all. */
  function QuantityAt(route: seq<Stop>, l: nat): int {
    if route == [] then 0
    else QuantityAt(route[..|route| - 1], l) + if Last(route).location == l then Last(route).quantity else 0
  }

  function QuantityOf(shifts: seq<Shift>, l: nat): int {
    if shifts == [] then 0 else QuantityOf(shifts[..|shifts| - 1], l) + QuantityAt(Last(shifts).route, l)
  }

  lemma {:induction false} SameVisitsQuantity(a: seq<Stop>, b: seq<Stop>, l: nat)
    requires SameVisits(a, b)
    ensures QuantityAt(a, l) == QuantityAt(b, l)
  {
    if a != [] {
      SameVisitsQuantity(a[..|a| - 1], b[..|b| - 1], l);
      assert SameVisit(Last(a), Last(b));
    }
  }

  lemma {:induction false} QuantityOfMore(route: seq<Stop>, stop: Stop, l: nat)
    ensures QuantityAt(route + [stop], l) == QuantityAt(route, l) + if stop.location == l then stop.quantity else 0
  {
    assert (route + [stop])[..|route|] == route;
  }

  lemma {:induction false} KeptQuantity(route: seq<Stop>, l: nat)
    ensures QuantityAt(Kept(route), l) == QuantityAt(route, l)
  {
    if route != [] {
      var front, last := route[..|route| - 1], Last(route);
      KeptQuantity(front, l);
      FrontAndLast(route);
      KeptOfMore(front, last);
      QuantityOfMore(front, last, l);
      QuantityOfMore(Kept(front), last, l);
      hide Kept, QuantityAt;
      assert Kept(front) + [] == Kept(front);
    }
  }

  /** The shifts the pass drops. */
  function Dropped(shifts: seq<Shift>): seq<Shift> {
    if shifts == [] then []
    else Dropped(shifts[..|shifts| - 1]) + if Stays(Last(shifts)) then [] else [Last(shifts)]
  }

  lemma {:induction false} QuantityOfMoreShifts(shifts: seq<Shift>, x: Shift, l: nat)
    ensures QuantityOf(shifts + [x], l) == QuantityOf(shifts, l) + QuantityAt(x.route, l)
  {
    assert (shifts + [x])[..|shifts|] == shifts;
  }

  /** What a location gets from the result is what it got before, less what the
      dropped shifts brought it. */
  lemma {:induction false} PostProcessLosesTheDropped(inst: Instance, shifts: seq<Shift>, l: nat)
    requires forall i :: 0 <= i < |shifts| ==> shifts[i].driver in inst.drivers
    ensures QuantityOf(PostProcessed(inst, shifts), l) == QuantityOf(shifts, l) - QuantityOf(Dropped(shifts), l)
  {
    if shifts != [] {
      var front, x := shifts[..|shifts| - 1], Last(shifts);
      PostProcessLosesTheDropped(inst, front, l);
      var left := PostProcessed(inst, front);
      CleanedQuantity(inst, x, l);
      QuantityOfMoreShifts(left, Cleaned(inst, x).(id := |left| + 1), l);
      QuantityOfMoreShifts(Dropped(front), x, l);
      hide QuantityAt, Cleaned, Stays;
      assert Dropped(front) + [] == Dropped(front);
    }
  }

  /** At most two stops that bring nothing anywhere: each empty, or the two at
      one place and opposite. */
  predicate BringsNothing(stops: seq<Stop>) {
    || (forall i :: 0 <= i < |stops| ==> stops[i].quantity == 0)
    || (|stops| == 2 && stops[0].location == stops[1].location && stops[0].quantity + stops[1].quantity == 0)
  }

  lemma {:induction false} QuantityOfTwo(a: Stop, b: Stop, l: nat)
    ensures QuantityAt([a], l) == if a.location == l then a.quantity else 0
    ensures QuantityAt([a, b], l) == QuantityAt([a], l) + if b.location == l then b.quantity else 0
  {
    QuantityOfMore([], a, l);
    QuantityOfMore([a], b, l);
    assert [] + [a] == [a] && [a] + [b] == [a, b];
  }

  lemma {:induction false} BringsNothingAnywhere(stops: seq<Stop>)
    requires |stops| <= 2
    ensures (forall l: nat :: QuantityAt(stops, l) == 0) <==> BringsNothing(stops)
  {
    if |stops| == 1 {
      assert stops == [stops[0]];
      QuantityOfTwo(stops[0], stops[0], stops[0].location);
      forall l ensures stops[0].quantity == 0 ==> QuantityAt(stops, l) == 0 {
        QuantityOfTwo(stops[0], stops[0], l);
      }
    } else if |stops| == 2 {
      var a, b := stops[0], stops[1];
      assert stops == [a, b];
      QuantityOfTwo(a, b, a.location);
      QuantityOfTwo(a, b, b.location);
      forall l ensures BringsNothing(stops) ==> QuantityAt(stops, l) == 0 {
        QuantityOfTwo(a, b, l);
      }
    }
  }

  /** A shift's quantities survive the pass exactly when it stays, or the at most
      two stops kept of it bring nothing. */
  lemma QuantitiesSurviveIff(inst: Instance, s: Shift)
    requires s.driver in inst.drivers
    ensures (forall l: nat :: Survives(inst, s, l)) <==> Stays(s) || BringsNothing(Kept(s.route))
  {
    if Stays(s) {
      forall l: nat ensures Survives(inst, s, l) {
        QuantitySurvives(inst, s, l);
      }
    } else {
      BringsNothingAnywhere(Kept(s.route));
      if BringsNothing(Kept(s.route)) {
        forall l: nat ensures Survives(inst, s, l) {
          QuantitySurvives(inst, s, l);
        }
      } else {
        var l: nat :| QuantityAt(Kept(s.route), l) != 0;
        QuantitySurvives(inst, s, l);
        hide *;
        assert !Survives(inst, s, l);
      }
    }
  }

  predicate Survives(inst: Instance, s: Shift, l: nat)
    requires s.driver in inst.drivers
  {
    QuantityOf(PostProcessed(inst, [s]), l) == QuantityOf([s], l)
  }

  lemma {:induction false} QuantitySurvives(inst: Instance, s: Shift, l: nat)
    requires s.driver in inst.drivers
    ensures Survives(inst, s, l) <==> Stays(s) || QuantityAt(Kept(s.route), l) == 0
  {
    assert [s][..0] == [] && Dropped([s]) == if Stays(s) then [] else [s];
    PostProcessLosesTheDropped(inst, [s], l);
    QuantityOfMoreShifts([], s, l);
    assert [] + [s] == [s];
    KeptQuantity(s.route, l);
  }

  lemma {:induction false} DroppedIsBaseTwice(route: seq<Stop>)
    requires FromBaseToBase(route) && |Kept(route)| < |route| && |Kept(route)| <= 2
    ensures Kept(route) == [route[0]] + [Last(route)]
  {
    assert Kept(route) == Kept(route[..|route| - 1]) + [Last(route)];
    KeptStartsAtBase(route[..|route| - 1]);
  }

  lemma {:induction false} DroppedBringNothing(shifts: seq<Shift>, l: nat)
    requires forall i :: 0 <= i < |shifts| ==> FromBaseToBase(shifts[i].route)
    ensures QuantityOf(Dropped(shifts), l) == 0
  {
    if shifts != [] {
      var front, x := shifts[..|shifts| - 1], Last(shifts);
      DroppedBringNothing(front, l);
      if Stays(x) {
        assert Dropped(front) + [] == Dropped(front);
      } else {
        QuantityOfMoreShifts(Dropped(front), x, l);
        KeptQuantity(x.route, l);
        DroppedIsBaseTwice(x.route);
        BringsNothingAnywhere(Kept(x.route));
      }
    }
  }

  /** Where shifts go from the base to the base, every location gets the same
      quantity in all. */
  lemma {:induction false} PostProcessKeepsQuantities(inst: Instance, shifts: seq<Shift>, l: nat)
    requires forall i :: 0 <= i < |shifts| ==> shifts[i].driver in inst.drivers && FromBaseToBase(shifts[i].route)
    ensures QuantityOf(PostProcessed(inst, shifts), l) == QuantityOf(shifts, l)
  {
    PostProcessLosesTheDropped(inst, shifts, l);
    DroppedBringNothing(shifts, l);
  }

  lemma {:induction false} CleanedQuantity(inst: Instance, s: Shift, l: nat)
    requires s.driver in inst.drivers
    ensures QuantityAt(Cleaned(inst, s).route, l) == QuantityAt(s.route, l)
  {
    KeptQuantity(s.route, l);
    TimedAnewSameVisits(inst, s.driver, Kept(s.route));
    SameVisitsQuantity(TimedAnew(inst, s.driver, Kept(s.route)), Kept(s.route), l);
  }
}
