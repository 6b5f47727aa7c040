/** From route labels to the final schedule: what `to_solution` makes of the
    labels the solver chose is what `post_process` is meant for. */
module RoadefConverted {
  import opened RoadefModel
  import opened RoadefChecker
  import opened RoadefLabels
  import opened RoadefSafety
  import opened RoadefPostProcess
  import opened RoadefPostProcessSafety
  import opened RoadefPostProcessTanks

  /** A label from the base to the base, timed, and the hour it starts. */
  datatype Label = Label(visited: seq<Visit>, start: nat)

  ghost predicate IsRoundTrip(inst: Instance, chosen: Label) {
    && |chosen.visited| >= 2 && chosen.visited[0].location == BASE
    && chosen.visited[|chosen.visited| - 1].location == BASE
    && IsTimed(inst, chosen.visited) && AllValid(inst, Stops(chosen.visited))
  }

  /** The route is the label's, and nothing happens at the base. */
  ghost predicate IsShiftOf(inst: Instance, s: Shift, chosen: Label) {
    && |s.route| == |chosen.visited| && s.departureTime == UNIT * chosen.start
    && (forall i :: 0 <= i < |s.route| ==> IsStopOf(inst, s.route[i], chosen.visited[i], chosen.start))
    && NothingAtBase(s.route)
  }

  predicate NothingAtBase(route: seq<Stop>) {
    forall i :: 0 <= i < |route| && route[i].location == BASE ==> route[i].quantity == 0
  }

  /** What the solver's constraints give of one shift: a known pair that may
      drive, signs, and a trailer that is never short or too full. */
  ghost predicate IsFeasible(inst: Instance, s: Shift) {
    && Known(inst, s) && inst.drivers[s.driver].layoverDuration >= 0
    && s.trailer in inst.drivers[s.driver].trailers
    && SignsOk(inst, s) && StockAtLeast(s, 0) && StockAtMost(s, inst.trailers[s.trailer].capacity)
  }

  lemma {:induction false} SetupIsNotNegative(inst: Instance, l: nat)
    requires inst.Valid()
    ensures inst.SetupTime(l) >= 0
  {
    assert l in inst.customers ==> inst.ValidCustomer(inst.customers[l]);
  }

  lemma {:induction false} ConvertedStop(inst: Instance, s: Shift, chosen: Label, i: nat)
    requires inst.Valid() && IsRoundTrip(inst, chosen) && IsShiftOf(inst, s, chosen) && i < |s.route|
    ensures s.route[i].location == chosen.visited[i].location && inst.IsValidLocation(s.route[i].location)
    ensures s.route[i].arrival <= s.route[i].departure
  {
    SetupIsNotNegative(inst, s.route[i].location);
    hide Instance.Valid, Instance.SetupTime, IsTimed;
    assert IsStopOf(inst, s.route[i], chosen.visited[i], chosen.start);
    assert Stops(chosen.visited)[i] == chosen.visited[i].location;
  }

  lemma {:induction false} ConvertedReturns(inst: Instance, s: Shift, chosen: Label)
    requires inst.Valid() && IsRoundTrip(inst, chosen) && IsShiftOf(inst, s, chosen)
    ensures FromBaseToBase(s.route)
  {
    hide Instance.Valid, IsTimed, AllValid, IsStopOf, NothingAtBase, FromBaseToBase;
    var last := |s.route| - 1;
    ConvertedStop(inst, s, chosen, 0);
    ConvertedStop(inst, s, chosen, last);
    RunsFromBaseToBase(s.route);
  }

  lemma {:induction false} RunsFromBaseToBase(route: seq<Stop>)
    requires |route| >= 2 && route[0].location == BASE && route[|route| - 1].location == BASE && NothingAtBase(route)
    ensures FromBaseToBase(route)
  {
  }

  lemma {:induction false} ConvertedOnTime(inst: Instance, s: Shift, chosen: Label)
    requires inst.Valid() && IsRoundTrip(inst, chosen) && IsShiftOf(inst, s, chosen)
    requires s.driver in inst.drivers && inst.drivers[s.driver].layoverDuration >= 0
    ensures OnTime(inst, s) && NoLateLayovers(s) && TimelineOk(inst, s) && SetupOk(inst, s)
  {
    ConvertedIsOnTime(inst, chosen.visited, chosen.start, s);
    hide Instance.Valid, IsTimed, IsRoundTrip, IsShiftOf, TimelineOk, SetupOk;
    forall i | 0 <= i < |s.route|
      ensures inst.IsValidLocation(s.route[i].location) && s.route[i].arrival <= s.route[i].departure
    {
      ConvertedStop(inst, s, chosen, i);
    }
  }

  /** The shift of a label is one the post-processing is meant for. */
  lemma {:induction false} ConvertedIsProcessable(inst: Instance, s: Shift, chosen: Label)
    requires inst.Valid() && IsRoundTrip(inst, chosen) && IsShiftOf(inst, s, chosen) && IsFeasible(inst, s)
    ensures Processable(inst, s)
  {
    hide Instance.Valid, SignsOk, StockAtLeast, StockAtMost, TimelineOk, SetupOk, FromBaseToBase, IsRoundTrip, OnTime;
    hide NoLateLayovers, IsStopOf;
    ConvertedReturns(inst, s, chosen);
    ConvertedOnTime(inst, s, chosen);
  }

  /** Shifts of labels, each feasible, with the stock, rest and overlaps right
      from one to the next. */
  ghost predicate IsSolution(inst: Instance, shifts: seq<Shift>, labels: seq<Label>) {
    && |labels| == |shifts|
    && (forall i :: 0 <= i < |shifts| ==>
          IsRoundTrip(inst, labels[i]) && IsShiftOf(inst, shifts[i], labels[i]) && IsFeasible(inst, shifts[i]))
    && Linked(inst, Stock, Sorted(shifts))
    && Linked(inst, Rest, Sorted(shifts)) && Linked(inst, Overlap, Sorted(shifts))
  }

  lemma {:induction false} SolutionIsProcessable(inst: Instance, shifts: seq<Shift>, labels: seq<Label>)
    requires inst.Valid() && IsSolution(inst, shifts, labels)
    ensures forall i :: 0 <= i < |shifts| ==> Processable(inst, shifts[i])
    ensures Silent(inst, shifts)
  {
    hide Instance.Valid, Linked, Sorted, IsRoundTrip, IsShiftOf, IsFeasible, ShiftSilent, OnTime, FromBaseToBase;
    forall i | 0 <= i < |shifts| ensures Processable(inst, shifts[i]) {
      ConvertedIsProcessable(inst, shifts[i], labels[i]);
    }
  }

  /** The final schedule passes the per-shift and linking checks, and no tank is
      lower in it at any hour. */
  lemma {:induction false} FinalScheduleIsSilent(
    inst: Instance, shifts: seq<Shift>, labels: seq<Label>, c: nat, h: nat)
    requires inst.Valid() && inst.Triangle() && IsSolution(inst, shifts, labels)
    requires c in inst.customers && h < |inst.customers[c].forecast|
    ensures forall i :: 0 <= i < |shifts| ==> shifts[i].driver in inst.drivers
    ensures Silent(inst, PostProcessed(inst, shifts))
    ensures TankAt(inst, PostProcessed(inst, shifts), c, h) >= TankAt(inst, shifts, c, h)
  {
    hide *;
    SolutionIsProcessable(inst, shifts, labels);
    PostProcessKeepsSilent(inst, shifts);
    NoTankIsLower(inst, shifts, c, h);
  }
}
