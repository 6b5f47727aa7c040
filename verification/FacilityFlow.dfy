/** Flow balance in facility_location: the two consistency checks of
    core/experiment.py and the two consistency constraints of
    solvers/PyomoSolver.py. */
module FacilityFlow {
  import opened Sums

  datatype Flow = Flow(origin: nat, destination: nat, product: nat, day: nat, amount: int)

  datatype Network = Network(suppliers: set<nat>, warehouses: set<nat>, clients: set<nat>, level: nat -> int) {
    /** A location is of one kind. */
    ghost predicate Valid() {
      suppliers !! warehouses !! clients
    }
  }

  /** Goods leave suppliers and warehouses, and go to warehouses and clients. */
  predicate GoesForward(net: Network, f: Flow) {
    && (f.origin in net.suppliers || f.origin in net.warehouses)
    && (f.destination in net.warehouses || f.destination in net.clients)
  }

  ghost predicate AllForward(net: Network, flows: seq<Flow>) {
    forall i :: 0 <= i < |flows| ==> GoesForward(net, flows[i])
  }

  // ---- what the checks group and sum ----

  datatype Key = Key(place: nat, day: nat, product: nat)

  predicate Matches(f: Flow, day: nat, product: nat) {
    f.day == day && f.product == product
  }

  /** Total flow of the rows that satisfy a condition. */
  function Total(flows: seq<Flow>, where: Flow -> bool): int {
    if flows == [] then 0
    else Total(flows[..|flows| - 1], where) + if where(flows[|flows| - 1]) then flows[|flows| - 1].amount else 0
  }

  function Out(flows: seq<Flow>, k: Key): int {
    Total(flows, (f: Flow) => f.origin == k.place && Matches(f, k.day, k.product))
  }

  function In(flows: seq<Flow>, k: Key): int {
    Total(flows, (f: Flow) => f.destination == k.place && Matches(f, k.day, k.product))
  }

  function Sent(net: Network, flows: seq<Flow>, day: nat, product: nat): int {
    Total(flows, (f: Flow) => f.origin in net.suppliers && Matches(f, day, product))
  }

  function Received(net: Network, flows: seq<Flow>, day: nat, product: nat): int {
    Total(flows, (f: Flow) => f.destination in net.clients && Matches(f, day, product))
  }

  function Get<K(==)>(m: map<K, int>, k: K): int {
    if k in m then m[k] else 0
  }

  /** `a - b` on a's keys, `a - b` on b's, and only what is not zero. */
  function Differences<K(==)>(a: map<K, int>, b: map<K, int>): map<K, int> {
    var all := (map k | k in a :: a[k] - Get(b, k)) + (map k | k in b :: Get(a, k) - b[k]);
    map k | k in all && all[k] != 0 :: all[k]
  }

  /** `flows.vfilter(destination in warehouses)...to_dict(...).vapply(sum)` */
  function FlowIn(net: Network, flows: seq<Flow>): map<Key, int> {
    var keys := set f | f in flows && f.destination in net.warehouses :: Key(f.destination, f.day, f.product);
    map k | k in keys :: In(flows, k)
  }

  function FlowOut(net: Network, flows: seq<Flow>): map<Key, int> {
    var keys := set f | f in flows && f.origin in net.warehouses :: Key(f.origin, f.day, f.product);
    map k | k in keys :: Out(flows, k)
  }

  /** `check_consistency_warehouses` */
  function CheckWarehouses(net: Network, flows: seq<Flow>): map<Key, int> {
    Differences(FlowOut(net, flows), FlowIn(net, flows))
  }

  function SentByDay(net: Network, flows: seq<Flow>): map<(nat, nat), int> {
    var keys := set f | f in flows && f.origin in net.suppliers :: (f.day, f.product);
    map k | k in keys :: Sent(net, flows, k.0, k.1)
  }

  function ReceivedByDay(net: Network, flows: seq<Flow>): map<(nat, nat), int> {
    var keys := set f | f in flows && f.destination in net.clients :: (f.day, f.product);
    map k | k in keys :: Received(net, flows, k.0, k.1)
  }

  /** `check_consistency_suppliers` */
  function CheckSuppliers(net: Network, flows: seq<Flow>): map<(nat, nat), int> {
    Differences(ReceivedByDay(net, flows), SentByDay(net, flows))
  }

  // ---- a key that no row has sums to nothing ----

  lemma {:induction false} TotalOfNone(flows: seq<Flow>, where: Flow -> bool)
    requires forall f :: f in flows ==> !where(f)
    ensures Total(flows, where) == 0
  {
    if flows != [] {
      TotalOfNone(flows[..|flows| - 1], where);
    }
  }

  lemma GroupedTotals(net: Network, flows: seq<Flow>, k: Key)
    requires k.place in net.warehouses
    ensures Get(FlowOut(net, flows), k) == Out(flows, k) && Get(FlowIn(net, flows), k) == In(flows, k)
  {
    if k !in FlowOut(net, flows) {
      assert forall f :: f in flows && f.origin in net.warehouses ==>
        Key(f.origin, f.day, f.product) in FlowOut(net, flows);
      TotalOfNone(flows, (f: Flow) => f.origin == k.place && Matches(f, k.day, k.product));
    }
    if k !in FlowIn(net, flows) {
      assert forall f :: f in flows && f.destination in net.warehouses ==>
        Key(f.destination, f.day, f.product) in FlowIn(net, flows);
      TotalOfNone(flows, (f: Flow) => f.destination == k.place && Matches(f, k.day, k.product));
    }
  }

  /** The warehouse check reports exactly the warehouses, days and products for
      which what leaves is not what enters, and by how much it is more; so it is
      empty exactly when there are none. */
  lemma WarehousesBalance(net: Network, flows: seq<Flow>)
    ensures forall k: Key :: k in CheckWarehouses(net, flows) <==>
      k.place in net.warehouses && Out(flows, k) != In(flows, k)
    ensures forall k: Key :: k in CheckWarehouses(net, flows) ==>
      CheckWarehouses(net, flows)[k] + In(flows, k) == Out(flows, k)
    ensures CheckWarehouses(net, flows) == map[] <==>
      forall k: Key :: k.place in net.warehouses ==> Out(flows, k) == In(flows, k)
  {
    var check := CheckWarehouses(net, flows);
    forall k: Key | k.place in net.warehouses
      ensures k in check <==> Out(flows, k) != In(flows, k)
      ensures k in check ==> check[k] + In(flows, k) == Out(flows, k)
    {
      GroupedTotals(net, flows, k);
    }
    forall k | k in check ensures k.place in net.warehouses {
      assert k in FlowOut(net, flows) || k in FlowIn(net, flows);
    }
    if check != map[] {
      var k :| k in check;
    }
  }

  /** The same of what clients receive beyond what suppliers send. */
  lemma SuppliersBalance(net: Network, flows: seq<Flow>)
    ensures forall day: nat, product: nat :: (day, product) in CheckSuppliers(net, flows) <==>
      Received(net, flows, day, product) != Sent(net, flows, day, product)
    ensures forall day: nat, product: nat :: (day, product) in CheckSuppliers(net, flows) ==>
      CheckSuppliers(net, flows)[(day, product)] + Sent(net, flows, day, product)
        == Received(net, flows, day, product)
    ensures CheckSuppliers(net, flows) == map[] <==>
      forall day: nat, product: nat :: Received(net, flows, day, product) == Sent(net, flows, day, product)
  {
    var check := CheckSuppliers(net, flows);
    forall day: nat, product: nat
      ensures (day, product) in check <==> Received(net, flows, day, product) != Sent(net, flows, day, product)
      ensures (day, product) in check ==>
        check[(day, product)] + Sent(net, flows, day, product) == Received(net, flows, day, product)
    {
      if (day, product) !in SentByDay(net, flows) {
        assert forall f :: f in flows && f.origin in net.suppliers ==> (f.day, f.product) in SentByDay(net, flows);
        TotalOfNone(flows, (f: Flow) => f.origin in net.suppliers && Matches(f, day, product));
      }
      if (day, product) !in ReceivedByDay(net, flows) {
        assert forall f :: f in flows && f.destination in net.clients ==>
          (f.day, f.product) in ReceivedByDay(net, flows);
        TotalOfNone(flows, (f: Flow) => f.destination in net.clients && Matches(f, day, product));
      }
    }
    if check != map[] {
      var k :| k in check;
      assert (k.0, k.1) in check;
    }
  }

  // ---- conservation ----

  function Surplus(flows: seq<Flow>, day: nat, product: nat): nat -> int {
    (w: nat) => Out(flows, Key(w, day, product)) - In(flows, Key(w, day, product))
  }

  lemma {:induction false} TotalStep(flows: seq<Flow>, where: Flow -> bool, f: Flow)
    ensures Total(flows + [f], where) == Total(flows, where) + if where(f) then f.amount else 0
  {
    assert (flows + [f])[..|flows|] == flows;
  }

  /** What one more row does to the warehouses' surpluses together. */
  lemma SurplusStep(net: Network, flows: seq<Flow>, f: Flow, day: nat, product: nat)
    ensures SumOver(net.warehouses, Surplus(flows + [f], day, product))
         == SumOver(net.warehouses, Surplus(flows, day, product))
          + (if Matches(f, day, product) && f.origin in net.warehouses then f.amount else 0)
          - (if Matches(f, day, product) && f.destination in net.warehouses then f.amount else 0)
  {
    var before, after := Surplus(flows, day, product), Surplus(flows + [f], day, product);
    var amount := if Matches(f, day, product) then f.amount else 0;
    var middle := (w: nat) => before(w) + if w == f.origin then amount else 0;
    forall w: nat ensures after(w) == middle(w) - if w == f.destination then amount else 0 {
      TotalStep(flows, (g: Flow) => g.origin == w && Matches(g, day, product), f);
      TotalStep(flows, (g: Flow) => g.destination == w && Matches(g, day, product), f);
    }
    SumChangedAt(net.warehouses, before, middle, f.origin);
    SumChangedAt(net.warehouses, middle, after, f.destination);
  }

  /** What clients receive is what suppliers send plus what the warehouses give
      out beyond what they take in. */
  lemma {:induction false} Conservation(net: Network, flows: seq<Flow>, day: nat, product: nat)
    requires net.Valid() && AllForward(net, flows)
    ensures Received(net, flows, day, product)
         == Sent(net, flows, day, product) + SumOver(net.warehouses, Surplus(flows, day, product))
  {
    if flows == [] {
      SumOfZeros(net.warehouses, Surplus(flows, day, product));
    } else {
      var front, last := flows[..|flows| - 1], flows[|flows| - 1];
      assert flows == front + [last];
      assert GoesForward(net, last);
      Conservation(net, front, day, product);
      SurplusStep(net, front, last, day, product);
    }
  }

  /** The supplier check is empty exactly when, for each day and product, what
      some warehouses give out too much the others keep. */
  lemma {:induction false} SuppliersBalanceIff(net: Network, flows: seq<Flow>)
    requires net.Valid() && AllForward(net, flows)
    ensures CheckSuppliers(net, flows) == map[] <==>
      forall day: nat, product: nat :: SumOver(net.warehouses, Surplus(flows, day, product)) == 0
  {
    hide CheckSuppliers, Surplus;
    SuppliersBalance(net, flows);
    forall day: nat, product: nat
      ensures SumOver(net.warehouses, Surplus(flows, day, product)) == 0
         <==> Received(net, flows, day, product) == Sent(net, flows, day, product)
    {
      Conservation(net, flows, day, product);
    }
  }

  /** What the warehouse check adds to the supplier check: that no warehouse
      gives out more than it takes in. */
  lemma {:induction false} WarehousesBalanceIff(net: Network, flows: seq<Flow>)
    requires net.Valid() && AllForward(net, flows)
    ensures CheckWarehouses(net, flows) == map[] <==>
      && CheckSuppliers(net, flows) == map[]
      && forall k: Key :: k.place in net.warehouses ==> Out(flows, k) <= In(flows, k)
  {
    hide CheckSuppliers, CheckWarehouses, Network.Valid, AllForward;
    SuppliersBalanceIff(net, flows);
    WarehousesBalance(net, flows);
    if forall k: Key :: k.place in net.warehouses ==> Out(flows, k) <= In(flows, k) {
      forall day: nat, product: nat
        ensures SumOver(net.warehouses, Surplus(flows, day, product)) == 0
           <==> forall w :: w in net.warehouses ==> Surplus(flows, day, product)(w) == 0
      {
        SumOfSameSign(net.warehouses, Surplus(flows, day, product));
      }
      SurplusByKey(net, flows);
    }
  }

  lemma {:induction false} SurplusByKey(net: Network, flows: seq<Flow>)
    ensures (forall k: Key :: k.place in net.warehouses ==> Out(flows, k) == In(flows, k)) <==>
      forall day: nat, product: nat, w: nat :: w in net.warehouses ==> Surplus(flows, day, product)(w) == 0
  {
    forall k: Key | k.place in net.warehouses
      ensures Out(flows, k) - In(flows, k) == Surplus(flows, k.day, k.product)(k.place)
    {
      assert k == Key(k.place, k.day, k.product);
    }
    forall day: nat, product: nat, w: nat | w in net.warehouses
      ensures Surplus(flows, day, product)(w) == Out(flows, Key(w, day, product)) - In(flows, Key(w, day, product)) {}
  }

  /** An empty warehouse check implies an empty supplier-client check. */
  lemma BalancedWarehousesBalanceSuppliers(net: Network, flows: seq<Flow>)
    requires net.Valid() && AllForward(net, flows) && CheckWarehouses(net, flows) == map[]
    ensures CheckSuppliers(net, flows) == map[]
  {
    WarehousesBalanceIff(net, flows);
  }

  lemma TotalOfTwo(f: Flow, g: Flow, where: Flow -> bool)
    ensures Total([f, g], where) == (if where(f) then f.amount else 0) + if where(g) then g.amount else 0
  {
    TotalStep([], where, f);
    TotalStep([f], where, g);
    assert [] + [f] == [f] && [f] + [g] == [f, g];
  }

  ghost predicate OnlySuppliersBalance(net: Network, flows: seq<Flow>) {
    && net.Valid() && AllForward(net, flows)
    && CheckSuppliers(net, flows) == map[] && CheckWarehouses(net, flows) != map[]
  }

  lemma UnevenTotals(net: Network, f: Flow, g: Flow)
    requires net == Network({1}, {2, 3}, {4}, net.level) && f == Flow(1, 2, 0, 0, 5) && g == Flow(3, 4, 0, 0, 5)
    ensures forall day: nat, product: nat :: Received(net, [f, g], day, product) == Sent(net, [f, g], day, product)
    ensures Out([f, g], Key(2, 0, 0)) == 0 && In([f, g], Key(2, 0, 0)) == 5
    ensures net.Valid() && AllForward(net, [f, g]) && 2 in net.warehouses
  {
    hide Total;
    forall day: nat, product: nat ensures Received(net, [f, g], day, product) == Sent(net, [f, g], day, product) {
      TotalOfTwo(f, g, (x: Flow) => x.origin in net.suppliers && Matches(x, day, product));
      TotalOfTwo(f, g, (x: Flow) => x.destination in net.clients && Matches(x, day, product));
    }
    TotalOfTwo(f, g, (x: Flow) => x.origin == Key(2, 0, 0).place && Matches(x, Key(2, 0, 0).day, Key(2, 0, 0).product));
    TotalOfTwo(f, g, (x: Flow) =>
      x.destination == Key(2, 0, 0).place && Matches(x, Key(2, 0, 0).day, Key(2, 0, 0).product));
  }

  lemma UnevenWarehouse(net: Network, flows: seq<Flow>, k: Key)
    requires net.Valid() && AllForward(net, flows) && k.place in net.warehouses && Out(flows, k) != In(flows, k)
    requires forall day: nat, product: nat :: Received(net, flows, day, product) == Sent(net, flows, day, product)
    ensures OnlySuppliersBalance(net, flows)
  {
    hide Received, Sent, Out, In, Network.Valid, AllForward, CheckSuppliers, CheckWarehouses;
    SuppliersBalance(net, flows);
    WarehousesBalance(net, flows);
  }

  /** The converse fails: what one warehouse keeps another may give out. */
  lemma BalancedSuppliersAreNotEnough()
    returns (net: Network, flows: seq<Flow>)
    ensures OnlySuppliersBalance(net, flows)
  {
    hide *;
    var f, g := Flow(1, 2, 0, 0, 5), Flow(3, 4, 0, 0, 5);
    net, flows := Network({1}, {2, 3}, {4}, _ => 0), [f, g];
    UnevenTotals(net, f, g);
    UnevenWarehouse(net, flows, Key(2, 0, 0));
  }

  // ---- the constraints ----

  /** `vFlow` for one product and day. */
  type Plan = (nat, nat) -> int

  /** Flow from w to v counted only where v's level is higher. */
  function Upward(net: Network, flow: Plan): Plan {
    (w: nat, v: nat) => if net.level(w) < net.level(v) then flow(w, v) else 0
  }

  /** `c1_2_consistency_warehouses` at warehouse w */
  ghost predicate WarehouseConstraint(net: Network, flow: Plan, w: nat) {
    ColumnSum(net.suppliers, flow, w) + ColumnSum(net.warehouses, Upward(net, flow), w)
    == RowSum(net.warehouses, Upward(net, flow), w) + RowSum(net.clients, flow, w)
  }

  /** `c1_1_consistency_suppliers` */
  ghost predicate SupplierConstraint(net: Network, flow: Plan) {
    SumOver(net.suppliers, (s: nat) => RowSum(net.warehouses, flow, s))
    == SumOver(net.warehouses, (w: nat) => RowSum(net.clients, flow, w))
  }

  /** The constraint on suppliers follows from those on the warehouses: each
      upward flow is counted once where it leaves and once where it enters. */
  lemma WarehouseConstraintsImplySuppliers(net: Network, flow: Plan)
    requires forall w :: w in net.warehouses ==> WarehouseConstraint(net, flow, w)
    ensures SupplierConstraint(net, flow)
  {
    var up := Upward(net, flow);
    var fromSuppliers := (w: nat) => ColumnSum(net.suppliers, flow, w);
    var fromBelow := (w: nat) => ColumnSum(net.warehouses, up, w);
    var toAbove := (w: nat) => RowSum(net.warehouses, up, w);
    var toClients := (w: nat) => RowSum(net.clients, flow, w);
    SumExchanged(net.suppliers, net.warehouses, flow);
    SumExchanged(net.warehouses, net.warehouses, up);
    SumOfSums(net.warehouses, fromSuppliers, fromBelow);
    SumOfSums(net.warehouses, toAbove, toClients);
    SumSame(net.warehouses, (w: nat) => fromSuppliers(w) + fromBelow(w), (w: nat) => toAbove(w) + toClients(w));
    assert SumOver(net.warehouses, fromBelow) == SumOver(net.warehouses, toAbove);
    assert SumOver(net.suppliers, (s: nat) => RowSum(net.warehouses, flow, s))
         == SumOver(net.warehouses, fromSuppliers);
  }
}
