/** The tour of tsp/solvers/cp_model.py, read off the successor map the circuit
    solver chose, against the checks and objective of tsp/core/experiment.py. */
module TspTour {
  import opened Permutations
  import opened Sums

  /** One row of the solution: a position and the node there. */
  datatype Visit = Visit(pos: nat, node: nat)

  /** The arc chosen from n leads to a node. */
  predicate HasArc(next: map<nat, nat>, n: nat) {
    n in next && next[n] in next
  }

  /** Every node leaves by one arc and is entered by one. */
  ghost predicate IsSuccessorMap(next: map<nat, nat>) {
    && (forall n {:trigger HasArc(next, n)} :: n in next ==> HasArc(next, n))
    && (forall m, n {:trigger next[m], next[n]} :: m in next && n in next && next[m] == next[n] ==> m == n)
  }

  predicate StaysIn(next: map<nat, nat>, s: set<nat>, n: nat) {
    n in next && next[n] in s
  }

  ghost predicate IsClosed(next: map<nat, nat>, s: set<nat>) {
    s <= next.Keys && forall n {:trigger StaysIn(next, s, n)} :: n in s ==> StaysIn(next, s, n)
  }

  /** The circuit constraint: no proper subset of the nodes is a tour of its own. */
  ghost predicate NoSubtour(next: map<nat, nat>) {
    forall s :: s != {} && IsClosed(next, s) ==> s == next.Keys
  }

  /** A walk along the chosen arcs that has not met itself yet. */
  ghost predicate IsPath(next: map<nat, nat>, tour: seq<nat>) {
    && tour != [] && Distinct(tour)
    && (forall i :: 0 <= i < |tour| ==> tour[i] in next)
    && (forall i {:trigger next[tour[i]]} :: 0 <= i < |tour| - 1 ==> next[tour[i]] == tour[i + 1])
  }

  /** The walk from its first node, up to the return there. */
  ghost predicate IsOrbit(next: map<nat, nat>, tour: seq<nat>) {
    IsPath(next, tour) && next[tour[|tour| - 1]] == tour[0]
  }

  lemma PathFits(next: map<nat, nat>, tour: seq<nat>)
    requires IsPath(next, tour)
    ensures |tour| <= |next.Keys|
  {
    DistinctCardinality(tour);
    assert Elements(tour) <= next.Keys;
    SubsetCardinality(Elements(tour), next.Keys);
  }

  lemma PathGrows(next: map<nat, nat>, tour: seq<nat>)
    requires IsSuccessorMap(next) && IsPath(next, tour) && next[tour[|tour| - 1]] != tour[0]
    ensures IsPath(next, tour + [next[tour[|tour| - 1]]])
  {
    var last := tour[|tour| - 1];
    assert HasArc(next, last);
    var longer := tour + [next[last]];
    forall i | 0 <= i < |tour| ensures tour[i] != next[last] {
      if i > 0 {
        assert next[tour[i - 1]] == tour[i];
      }
    }
    forall i | 0 <= i < |longer| - 1 ensures next[longer[i]] == longer[i + 1] {
      if i < |tour| - 1 {
        assert next[tour[i]] == tour[i + 1];
      }
    }
  }

  /** The nodes of a route's rows. */
  function NodesAlong(route: seq<Visit>): (nodes: seq<nat>)
    ensures |nodes| == |route| && forall i :: 0 <= i < |route| ==> nodes[i] == route[i].node
  {
    seq(|route|, i requires 0 <= i < |route| => route[i].node)
  }

  /** The extraction loop: it ends for any successor map, with the orbit of the
      node it starts from, positions counted from 0. */
  method ExtractTour(next: map<nat, nat>, first: nat) returns (route: seq<Visit>)
    requires IsSuccessorMap(next) && first in next
    ensures IsOrbit(next, NodesAlong(route)) && NodesAlong(route)[0] == first
    ensures IsRouteOf(route, NodesAlong(route))
  {
    hide Distinct;
    var solution := [first];
    assert IsPath(next, solution) by { OneIsDistinct(first); }
    var current := first;
    while true
      invariant IsPath(next, solution) && solution[0] == first && current == solution[|solution| - 1]
      decreases |next.Keys| - |solution|
    {
      PathFits(next, solution);
      current := next[current];
      if current == first {
        break;
      }
      PathGrows(next, solution);
      solution := solution + [current];
      PathFits(next, solution);
    }
    route := seq(|solution|, i requires 0 <= i < |solution| => Visit(i, solution[i]));
    assert NodesAlong(route) == solution;
  }

  lemma OneIsDistinct(x: nat)
    ensures Distinct([x])
  {
  }

  lemma OrbitIsClosed(next: map<nat, nat>, tour: seq<nat>)
    requires IsOrbit(next, tour)
    ensures IsClosed(next, Elements(tour)) && Elements(tour) != {}
  {
    hide Distinct;
    assert tour[0] in Elements(tour);
    forall n | n in Elements(tour) ensures StaysIn(next, Elements(tour), n) {
      var i :| 0 <= i < |tour| && tour[i] == n;
      assert next[tour[i]] == tour[if i < |tour| - 1 then i + 1 else 0];
    }
  }

  lemma {:induction false} ClosedHoldsTheRest(next: map<nat, nat>, tour: seq<nat>, s: set<nat>, i: nat, j: nat)
    requires IsOrbit(next, tour) && IsClosed(next, s) && i <= j < |tour| && tour[i] in s
    ensures tour[j] in s
    decreases j
  {
    if i < j {
      ClosedHoldsTheRest(next, tour, s, i, j - 1);
      assert StaysIn(next, s, tour[j - 1]);
      assert next[tour[j - 1]] == tour[j];
    }
  }

  lemma ClosedHoldsTheOrbit(next: map<nat, nat>, tour: seq<nat>, s: set<nat>, i: nat)
    requires IsOrbit(next, tour) && IsClosed(next, s) && i < |tour| && tour[i] in s
    ensures Elements(tour) <= s
  {
    ClosedHoldsTheRest(next, tour, s, i, |tour| - 1);
    assert StaysIn(next, s, tour[|tour| - 1]);
    forall j | 0 <= j < |tour| ensures tour[j] in s {
      ClosedHoldsTheRest(next, tour, s, 0, j);
    }
  }

  // ---- the checks ----

  function NodesOf(route: seq<Visit>): set<nat> {
    set i | 0 <= i < |route| :: route[i].node
  }

  function PositionsOf(route: seq<Visit>): set<nat> {
    set i | 0 <= i < |route| :: route[i].pos
  }

  /** `check_missing_nodes`, given the nodes the instance's arcs leave from. */
  function MissingNodes(nodes: set<nat>, route: seq<Visit>): set<nat> {
    nodes - NodesOf(route)
  }

  /** `check_missing_positions` */
  function MissingPositions(nodes: set<nat>, route: seq<Visit>): set<nat> {
    Range(|nodes|) - PositionsOf(route)
  }

  /** What the two checks report. */
  lemma MissingMeans(nodes: set<nat>, route: seq<Visit>)
    ensures forall n :: n in MissingNodes(nodes, route) <==>
      n in nodes && forall i :: 0 <= i < |route| ==> route[i].node != n
    ensures forall p: nat :: p in MissingPositions(nodes, route) <==>
      p < |nodes| && forall i :: 0 <= i < |route| ==> route[i].pos != p
  {
  }

  ghost predicate IsRouteOf(route: seq<Visit>, tour: seq<nat>) {
    |route| == |tour| && forall i :: 0 <= i < |route| ==> route[i] == Visit(i, tour[i])
  }

  lemma {:induction false} RouteShowsTour(route: seq<Visit>, tour: seq<nat>)
    requires IsRouteOf(route, tour)
    ensures NodesOf(route) == Elements(tour) && PositionsOf(route) == Range(|tour|)
  {
    forall i | 0 <= i < |tour| ensures tour[i] in NodesOf(route) && i in PositionsOf(route) {
      assert route[i] == Visit(i, tour[i]);
    }
    forall x | x in NodesOf(route) ensures x in tour {
      var i :| 0 <= i < |route| && route[i].node == x;
      assert tour[i] == x;
    }
  }

  lemma {:induction false} OrbitOfAllIsWholeTour(next: map<nat, nat>, tour: seq<nat>, s: set<nat>)
    requires IsOrbit(next, tour) && Elements(tour) == next.Keys && s != {} && IsClosed(next, s)
    ensures s == next.Keys
  {
    var x :| x in s;
    assert x in Elements(tour);
    var i :| 0 <= i < |tour| && tour[i] == x;
    ClosedHoldsTheOrbit(next, tour, s, i);
  }

  /** No node is missing exactly when the successor map has no subtour: the
      circuit constraint is what makes the extracted tour complete. */
  lemma CompleteIffNoSubtour(next: map<nat, nat>, tour: seq<nat>, route: seq<Visit>)
    requires IsSuccessorMap(next) && IsOrbit(next, tour) && IsRouteOf(route, tour)
    ensures MissingNodes(next.Keys, route) == {} <==> NoSubtour(next)
  {
    RouteShowsTour(route, tour);
    OrbitIsClosed(next, tour);
    hide IsOrbit, IsRouteOf, NodesOf, IsSuccessorMap;
    assert MissingNodes(next.Keys, route) == {} <==> Elements(tour) == next.Keys by {
      assert Elements(tour) <= next.Keys;
    }
    if Elements(tour) == next.Keys {
      forall s | s != {} && IsClosed(next, s) ensures s == next.Keys {
        OrbitOfAllIsWholeTour(next, tour, s);
      }
    }
  }

  /** Without subtours each node is visited once, and the positions are those
      the check expects. */
  lemma TourIsComplete(next: map<nat, nat>, tour: seq<nat>, route: seq<Visit>)
    requires IsSuccessorMap(next) && NoSubtour(next) && IsOrbit(next, tour) && IsRouteOf(route, tour)
    ensures Elements(tour) == NodesOf(route) == next.Keys && |route| == |next|
    ensures MissingNodes(next.Keys, route) == {} && MissingPositions(next.Keys, route) == {}
  {
    CompleteIffNoSubtour(next, tour, route);
    RouteShowsTour(route, tour);
    OrbitIsClosed(next, tour);
    DistinctCardinality(tour);
  }

  // ---- the objective ----

  function InsertByPos(sorted: seq<Visit>, v: Visit): seq<Visit> {
    if sorted == [] || sorted[|sorted| - 1].pos <= v.pos then sorted + [v]
    else InsertByPos(sorted[..|sorted| - 1], v) + [sorted[|sorted| - 1]]
  }

  /** `route.sorted(key=pos)` */
  function SortedByPos(route: seq<Visit>): seq<Visit> {
    if route == [] then [] else InsertByPos(SortedByPos(route[..|route| - 1]), route[|route| - 1])
  }

  lemma {:induction false} AlreadySorted(route: seq<Visit>)
    requires forall i, j :: 0 <= i < j < |route| ==> route[i].pos <= route[j].pos
    ensures SortedByPos(route) == route
  {
    if route != [] {
      AlreadySorted(route[..|route| - 1]);
    }
  }

  lemma {:induction false} RouteIsSorted(route: seq<Visit>, tour: seq<nat>)
    requires IsRouteOf(route, tour)
    ensures SortedByPos(route) == route
  {
    AlreadySorted(route);
  }

  ghost predicate Ascending(route: seq<Visit>) {
    forall i, j :: 0 <= i < j < |route| ==> route[i].pos <= route[j].pos
  }

  /** The rows at a position, in their order. */
  function AtPosition(route: seq<Visit>, pos: nat): seq<Visit> {
    if route == [] then []
    else AtPosition(route[..|route| - 1], pos)
         + if route[|route| - 1].pos == pos then [route[|route| - 1]] else []
  }

  lemma {:induction false} FrontAndLastRow(route: seq<Visit>, last: Visit)
    ensures (route + [last])[..|route + [last]| - 1] == route && (route + [last])[|route + [last]| - 1] == last
  {
  }

  lemma AscendsToLast(front: seq<Visit>, last: Visit)
    requires Ascending(front) && forall x :: x in front ==> x.pos <= last.pos
    ensures Ascending(front + [last])
  {
    assert forall i :: 0 <= i < |front| ==> front[i] in front;
  }

  lemma {:induction false} InsertSorts(sorted: seq<Visit>, v: Visit)
    requires Ascending(sorted)
    ensures Ascending(InsertByPos(sorted, v)) && multiset(InsertByPos(sorted, v)) == multiset(sorted) + multiset{v}
    ensures forall x :: x in InsertByPos(sorted, v) <==> x in sorted || x == v
  {
    if sorted != [] && sorted[|sorted| - 1].pos > v.pos {
      var front, last := sorted[..|sorted| - 1], sorted[|sorted| - 1];
      assert sorted == front + [last];
      InsertSorts(front, v);
      forall x | x in InsertByPos(front, v) ensures x.pos <= last.pos {
        if x in front {
          var i :| 0 <= i < |front| && front[i] == x;
          assert sorted[i] == x;
        }
      }
      AscendsToLast(InsertByPos(front, v), last);
      hide Ascending;
    }
  }

  lemma {:induction false} InsertAtPosition(sorted: seq<Visit>, v: Visit, pos: nat)
    ensures AtPosition(InsertByPos(sorted, v), pos) == AtPosition(sorted, pos) + if v.pos == pos then [v] else []
  {
    FrontAndLastRow(sorted, v);
    if sorted != [] && sorted[|sorted| - 1].pos > v.pos {
      var front, last := sorted[..|sorted| - 1], sorted[|sorted| - 1];
      InsertAtPosition(front, v, pos);
      FrontAndLastRow(InsertByPos(front, v), last);
    }
  }

  /** The sort loses and adds no row, orders by position, and keeps rows of one
      position in their order. */
  lemma {:induction false} SortSorts(route: seq<Visit>)
    ensures Ascending(SortedByPos(route)) && multiset(SortedByPos(route)) == multiset(route)
    ensures forall pos :: AtPosition(SortedByPos(route), pos) == AtPosition(route, pos)
  {
    if route != [] {
      var front, last := route[..|route| - 1], route[|route| - 1];
      assert route == front + [last];
      SortSorts(front);
      InsertSorts(SortedByPos(front), last);
      forall pos ensures AtPosition(SortedByPos(route), pos) == AtPosition(route, pos) {
        InsertAtPosition(SortedByPos(front), last, pos);
      }
    }
  }

  lemma LastInOrder(sorted: seq<Visit>, route: seq<Visit>, tour: seq<nat>)
    requires Ascending(sorted) && multiset(sorted) == multiset(route) && IsRouteOf(route, tour) && route != []
    ensures |sorted| == |route| && sorted[|route| - 1] == route[|route| - 1]
  {
    assert |multiset(sorted)| == |multiset(route)|;
    var n := |route| - 1;
    assert route[n] in multiset(sorted) && sorted[n] in multiset(route);
    var i :| 0 <= i < |sorted| && sorted[i] == route[n];
    var j :| 0 <= j < |route| && route[j] == sorted[n];
  }

  /** Only one listing of a route's rows is in order. */
  lemma {:induction false} OnlyOneOrder(sorted: seq<Visit>, route: seq<Visit>, tour: seq<nat>)
    requires Ascending(sorted) && multiset(sorted) == multiset(route) && IsRouteOf(route, tour)
    ensures sorted == route
    decreases |route|
  {
    if route == [] {
      assert |multiset(sorted)| == |multiset(route)|;
    } else {
      var n := |route| - 1;
      LastInOrder(sorted, route, tour);
      SameFronts(sorted, route, n);
      OnlyOneOrder(sorted[..n], route[..n], tour[..n]);
      assert sorted == sorted[..n] + [sorted[n]] && route == route[..n] + [route[n]];
    }
  }

  lemma SameFronts(a: seq<Visit>, b: seq<Visit>, n: nat)
    requires |a| == |b| == n + 1 && a[n] == b[n] && multiset(a) == multiset(b)
    ensures multiset(a[..n]) == multiset(b[..n])
  {
    assert a == a[..n] + [a[n]] && b == b[..n] + [b[n]];
    assert multiset(a[..n]) == multiset(a) - multiset{a[n]} && multiset(b[..n]) == multiset(b) - multiset{b[n]};
  }

  lemma {:induction false} AnyOrderSorts(rows: seq<Visit>, route: seq<Visit>, tour: seq<nat>)
    requires multiset(rows) == multiset(route) && IsRouteOf(route, tour)
    ensures SortedByPos(rows) == route
  {
    SortSorts(rows);
    OnlyOneOrder(SortedByPos(rows), route, tour);
  }

  /** Weights of the arcs along the first n steps of the route. */
  function Along(route: seq<Visit>, weight: (nat, nat) -> int, n: nat): int
    requires n < |route|
  {
    if n == 0 then 0 else Along(route, weight, n - 1) + weight(route[n - 1].node, route[n].node)
  }

  /** `get_objective` */
  function Objective(route: seq<Visit>, weight: (nat, nat) -> int): int
    requires |SortedByPos(route)| > 0
  {
    var sorted := SortedByPos(route);
    Along(sorted, weight, |sorted| - 1) + weight(sorted[|sorted| - 1].node, sorted[0].node)
  }

  ghost function ArcWeight(next: map<nat, nat>, weight: (nat, nat) -> int): nat -> int {
    (n: nat) => if n in next then weight(n, next[n]) else 0
  }

  /** What the solver minimises: the weights of the arcs chosen from the nodes. */
  ghost function ChosenWeight(next: map<nat, nat>, weight: (nat, nat) -> int, nodes: set<nat>): int {
    SumOver(nodes, ArcWeight(next, weight))
  }

  lemma ChosenWeightWithout(next: map<nat, nat>, weight: (nat, nat) -> int, nodes: set<nat>, n: nat)
    requires n in nodes && n in next
    ensures ChosenWeight(next, weight, nodes) == weight(n, next[n]) + ChosenWeight(next, weight, nodes - {n})
  {
    SumWithout(nodes, ArcWeight(next, weight), n);
  }

  lemma {:induction false} AlongIsChosen(
    next: map<nat, nat>, weight: (nat, nat) -> int, tour: seq<nat>, route: seq<Visit>, n: nat)
    requires IsOrbit(next, tour) && IsRouteOf(route, tour) && n < |tour|
    ensures Elements(tour[..n]) <= next.Keys
    ensures Along(route, weight, n) == ChosenWeight(next, weight, Elements(tour[..n]))
  {
    if n == 0 {
      assert Elements(tour[..0]) == {};
    } else {
      AlongIsChosen(next, weight, tour, route, n - 1);
      OneMoreNode(tour, n - 1);
      ChosenWeightWithout(next, weight, Elements(tour[..n]), tour[n - 1]);
    }
  }

  lemma OneMoreNode(tour: seq<nat>, n: nat)
    requires Distinct(tour) && n < |tour|
    ensures Elements(tour[..n + 1]) - {tour[n]} == Elements(tour[..n])
    ensures tour[n] in Elements(tour[..n + 1])
  {
    assert tour[..n + 1] == tour[..n] + [tour[n]];
    assert tour[n] !in tour[..n];
  }

  lemma {:induction false} WholeTourIsChosen(
    next: map<nat, nat>, weight: (nat, nat) -> int, tour: seq<nat>, route: seq<Visit>)
    requires IsOrbit(next, tour) && IsRouteOf(route, tour) && Elements(tour) == next.Keys
    ensures |route| == |tour| > 0
    ensures Along(route, weight, |route| - 1) + weight(route[|route| - 1].node, route[0].node)
         == ChosenWeight(next, weight, next.Keys)
  {
    var n: nat := |tour| - 1;
    AlongIsChosen(next, weight, tour, route, n);
    OneMoreNode(tour, n);
    LastArc(next, tour, route);
    assert tour[..n + 1] == tour;
    hide *;
    ChosenWeightWithout(next, weight, next.Keys, tour[n]);
  }

  lemma {:induction false} ObjectiveOfSorted(route: seq<Visit>, weight: (nat, nat) -> int)
    requires SortedByPos(route) == route && |route| > 0
    ensures Objective(route, weight)
         == Along(route, weight, |route| - 1) + weight(route[|route| - 1].node, route[0].node)
  {
    hide SortedByPos, Along;
  }

  /** The objective of the extracted route is the weight of the chosen arcs. */
  lemma {:induction false} ObjectiveIsChosenWeight(
    next: map<nat, nat>, weight: (nat, nat) -> int, tour: seq<nat>, route: seq<Visit>)
    requires IsSuccessorMap(next) && NoSubtour(next) && IsOrbit(next, tour) && IsRouteOf(route, tour)
    ensures |SortedByPos(route)| > 0 && Objective(route, weight) == ChosenWeight(next, weight, next.Keys)
  {
    TourIsComplete(next, tour, route);
    RouteIsSorted(route, tour);
    assert IsOrbit(next, tour) && Elements(tour) == next.Keys;
    hide *;
    WholeTourIsChosen(next, weight, tour, route);
    ObjectiveOfSorted(route, weight);
  }

  /** So it is in whatever order the rows are listed. */
  lemma {:induction false} ObjectiveInAnyOrder(
    next: map<nat, nat>, weight: (nat, nat) -> int, tour: seq<nat>, route: seq<Visit>, rows: seq<Visit>)
    requires IsSuccessorMap(next) && NoSubtour(next) && IsOrbit(next, tour) && IsRouteOf(route, tour)
    requires multiset(rows) == multiset(route)
    ensures |SortedByPos(rows)| > 0 && Objective(rows, weight) == ChosenWeight(next, weight, next.Keys)
  {
    hide *;
    ObjectiveIsChosenWeight(next, weight, tour, route);
    AnyOrderSorts(rows, route, tour);
    RouteIsSorted(route, tour);
    SameSortSameObjective(rows, route, weight);
  }

  lemma {:induction false} SameSortSameObjective(rows: seq<Visit>, route: seq<Visit>, weight: (nat, nat) -> int)
    requires SortedByPos(rows) == SortedByPos(route) && |SortedByPos(rows)| > 0
    ensures Objective(rows, weight) == Objective(route, weight)
  {
    hide SortedByPos, Along;
  }

  lemma LastArc(next: map<nat, nat>, tour: seq<nat>, route: seq<Visit>)
    requires IsOrbit(next, tour) && IsRouteOf(route, tour)
    ensures |route| > 0 && |tour| > 0 && route[|route| - 1].node == tour[|tour| - 1]
    ensures tour[|tour| - 1] in next && route[0].node == next[tour[|tour| - 1]]
  {
  }
}
