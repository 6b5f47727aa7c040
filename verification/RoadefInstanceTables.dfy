/** The tables an instance is written to and read back from
    (roadef/core/instance.py, roadef/core/tools.py). */
module RoadefInstanceTables {
  import opened Wrappers

  datatype Window = Window(start: int, end: int)
  datatype Order = Order(earliestTime: int, latestTime: int, flexibility: int, quantity: int)

  /** What a customer's, source's or driver's own table holds besides its id. */
  datatype CustomerPlain = CustomerPlain(setupTime: int, capacity: int, initialTank: int, callIn: int)
  datatype SourcePlain = SourcePlain(setupTime: int)
  datatype DriverPlain = DriverPlain(maxDriving: int, minInterShift: int, timeCost: int)

  datatype Customer = Customer(
    id: nat, plain: CustomerPlain, windows: seq<Window>, orders: seq<Order>, forecast: seq<int>, trailers: seq<nat>)
  datatype Source = Source(id: nat, plain: SourcePlain, trailers: seq<nat>)
  datatype Driver = Driver(id: nat, plain: DriverPlain, windows: seq<Window>, trailers: seq<nat>)

  /** A row of a table that lists values by id, or by a pair of locations. */
  datatype Row<K, T> = Row(id: K, value: T)

  datatype Trailer = Trailer(capacity: int, initialQuantity: int, distanceCost: int)
  datatype Leg = Leg(time: int, distance: int)
  datatype Point = Point(location: nat, x: int, y: int)

  /** An instance made from a file has no coordinates. */
  datatype Data = Data(
    unit: int,
    horizon: nat,
    base: nat,
    coordinates: Option<seq<Point>>,
    trailers: seq<Row<nat, Trailer>>,
    matrices: seq<Row<(nat, nat), Leg>>,
    customers: seq<Customer>,
    sources: seq<Source>,
    drivers: seq<Driver>)

  datatype Forecast = Forecast(time: nat, quantity: int)

  datatype Tables = Tables(
    unit: int,
    horizon: nat,
    bases: seq<nat>,
    coordinates: Option<seq<Point>>,
    trailers: seq<Row<nat, Trailer>>,
    matrices: seq<Row<(nat, nat), Leg>>,
    customers: seq<Row<nat, CustomerPlain>>,
    sources: seq<Row<nat, SourcePlain>>,
    drivers: seq<Row<nat, DriverPlain>>,
    customersTimeWindows: seq<Row<nat, Window>>,
    orders: seq<Row<nat, Order>>,
    forecasts: seq<Row<nat, Forecast>>,
    allowedTrailers: seq<Row<nat, nat>>,
    driversTimeWindows: seq<Row<nat, Window>>,
    driversTrailers: seq<Row<nat, nat>>)

  // ---- writing ----

  /** The rows of one entity. */
  function RowsFor<T>(id: nat, values: seq<T>): (rows: seq<Row<nat, T>>)
    ensures |rows| == |values| && forall i :: 0 <= i < |rows| ==> rows[i] == Row(id, values[i])
  {
    seq(|values|, i requires 0 <= i < |values| => Row(id, values[i]))
  }

  /** The rows of entities 0..n-1, in order. */
  function Flatten<E, T>(entities: seq<E>, id: E -> nat, values: E -> seq<T>, n: nat): seq<Row<nat, T>>
    requires n <= |entities|
  {
    if n == 0 then []
    else Flatten(entities, id, values, n - 1) + RowsFor(id(entities[n - 1]), values(entities[n - 1]))
  }

  function Table<E, T>(entities: seq<E>, id: E -> nat, plain: E -> T): (rows: seq<Row<nat, T>>)
    ensures |rows| == |entities|
    ensures forall i :: 0 <= i < |rows| ==> rows[i] == Row(id(entities[i]), plain(entities[i]))
  {
    seq(|entities|, i requires 0 <= i < |entities| => Row(id(entities[i]), plain(entities[i])))
  }

  /** The positive entries of the first n of a forecast. */
  function Sparse(forecast: seq<int>, n: nat): seq<Forecast>
    requires n <= |forecast|
  {
    if n == 0 then []
    else Sparse(forecast, n - 1) + if forecast[n - 1] > 0 then [Forecast(n - 1, forecast[n - 1])] else []
  }

  const CUSTOMER_ID: Customer -> nat := (c: Customer) => c.id
  const SOURCE_ID: Source -> nat := (s: Source) => s.id
  const DRIVER_ID: Driver -> nat := (d: Driver) => d.id
  const CUSTOMER_TRAILERS: Customer -> seq<nat> := (c: Customer) => c.trailers
  const SOURCE_TRAILERS: Source -> seq<nat> := (s: Source) => s.trailers
  const CUSTOMER_WINDOWS: Customer -> seq<Window> := (c: Customer) => c.windows
  const CUSTOMER_ORDERS: Customer -> seq<Order> := (c: Customer) => c.orders
  const DRIVER_WINDOWS: Driver -> seq<Window> := (d: Driver) => d.windows
  const DRIVER_TRAILERS: Driver -> seq<nat> := (d: Driver) => d.trailers
  const SPARSE_FORECAST: Customer -> seq<Forecast> := (c: Customer) => Sparse(c.forecast, |c.forecast|)

  const CUSTOMER_PLAIN: Customer -> CustomerPlain := (c: Customer) => c.plain
  const SOURCE_PLAIN: Source -> SourcePlain := (s: Source) => s.plain
  const DRIVER_PLAIN: Driver -> DriverPlain := (d: Driver) => d.plain

  function Listed<E, T>(entities: seq<E>, id: E -> nat, values: E -> seq<T>): seq<Row<nat, T>> {
    Flatten(entities, id, values, |entities|)
  }

  /** `get("coordinates", [])` */
  function OrNone(coordinates: Option<seq<Point>>): seq<Point> {
    match coordinates
    case None => []
    case Some(points) => points
  }

  /** `to_dict`: the allowed trailers of sources and customers share a table. */
  function ToDict(data: Data): Tables {
    Tables(
      data.unit,
      data.horizon,
      [data.base],
      Some(OrNone(data.coordinates)),
      data.trailers,
      data.matrices,
      Table(data.customers, CUSTOMER_ID, CUSTOMER_PLAIN),
      Table(data.sources, SOURCE_ID, SOURCE_PLAIN),
      Table(data.drivers, DRIVER_ID, DRIVER_PLAIN),
      Listed(data.customers, CUSTOMER_ID, CUSTOMER_WINDOWS),
      Listed(data.customers, CUSTOMER_ID, CUSTOMER_ORDERS),
      Listed(data.customers, CUSTOMER_ID, SPARSE_FORECAST),
      Listed(data.sources, SOURCE_ID, SOURCE_TRAILERS) + Listed(data.customers, CUSTOMER_ID, CUSTOMER_TRAILERS),
      Listed(data.drivers, DRIVER_ID, DRIVER_WINDOWS),
      Listed(data.drivers, DRIVER_ID, DRIVER_TRAILERS))
  }

  /** A row of a table of lists is one of an entity's values. */
  ghost predicate IsValueOf<T>(row: Row<nat, T>, id: nat, values: seq<T>) {
    row.id == id && row.value in values
  }

  lemma {:induction false} FlattenHas<E(!new), T>(
    entities: seq<E>, id: E -> nat, values: E -> seq<T>, n: nat, row: Row<nat, T>)
    requires n <= |entities|
    ensures row in Flatten(entities, id, values, n)
       <==> exists i :: 0 <= i < n && IsValueOf(row, id(entities[i]), values(entities[i]))
  {
    if n > 0 {
      var own := RowsFor(id(entities[n - 1]), values(entities[n - 1]));
      FlattenHas(entities, id, values, n - 1, row);
      assert row in own <==> IsValueOf(row, id(entities[n - 1]), values(entities[n - 1])) by {
        if IsValueOf(row, id(entities[n - 1]), values(entities[n - 1])) {
          var k :| 0 <= k < |own| && values(entities[n - 1])[k] == row.value;
          assert own[k] == row;
        }
      }
    }
  }

  lemma {:induction false} ListedHas<E(!new), T>(entities: seq<E>, id: E -> nat, values: E -> seq<T>, row: Row<nat, T>)
    ensures row in Listed(entities, id, values)
       <==> exists e :: e in entities && IsValueOf(row, id(e), values(e))
  {
    FlattenHas(entities, id, values, |entities|, row);
    hide Flatten, IsValueOf;
    assert forall e :: e in entities <==> exists i :: 0 <= i < |entities| && entities[i] == e;
  }

  lemma {:induction false} SparseHas(forecast: seq<int>, n: nat, f: Forecast)
    requires n <= |forecast|
    ensures f in Sparse(forecast, n) <==> f.time < n && forecast[f.time] == f.quantity > 0
  {
    if n > 0 {
      SparseHas(forecast, n - 1, f);
    }
  }

  /** What is in the tables of lists. */
  ghost predicate HasLists(data: Data, t: Tables) {
    && (forall row :: row in t.customersTimeWindows <==>
          exists c :: c in data.customers && IsValueOf(row, c.id, c.windows))
    && (forall row :: row in t.orders <==> exists c :: c in data.customers && IsValueOf(row, c.id, c.orders))
    && (forall row :: row in t.forecasts <==> exists c :: c in data.customers && IsForecastOf(row, c))
    && (forall row :: row in t.allowedTrailers <==>
          || (exists s :: s in data.sources && IsValueOf(row, s.id, s.trailers))
          || (exists c :: c in data.customers && IsValueOf(row, c.id, c.trailers)))
    && (forall row :: row in t.driversTimeWindows <==>
          exists d :: d in data.drivers && IsValueOf(row, d.id, d.windows))
    && (forall row :: row in t.driversTrailers <==> exists d :: d in data.drivers && IsValueOf(row, d.id, d.trailers))
  }

  /** The row of a positive entry of the customer's forecast. */
  ghost predicate IsForecastOf(row: Row<nat, Forecast>, c: Customer) {
    && row.id == c.id && row.value.time < |c.forecast|
    && c.forecast[row.value.time] == row.value.quantity > 0
  }

  lemma {:induction false} ForecastsHave(customers: seq<Customer>, row: Row<nat, Forecast>)
    ensures row in Listed(customers, CUSTOMER_ID, SPARSE_FORECAST)
       <==> exists c :: c in customers && IsForecastOf(row, c)
  {
    ListedHas(customers, CUSTOMER_ID, SPARSE_FORECAST, row);
    forall c ensures IsValueOf(row, CUSTOMER_ID(c), SPARSE_FORECAST(c)) <==> IsForecastOf(row, c) {
      SparseHas(c.forecast, |c.forecast|, row.value);
    }
    hide Listed, IsValueOf, IsForecastOf;
  }

  /** Every value is in its table, under its entity's id, and nothing else is. */
  lemma {:induction false} TablesHaveLists(data: Data)
    ensures HasLists(data, ToDict(data))
  {
    hide Listed, IsValueOf, IsForecastOf;
    forall row { ListedHas(data.customers, CUSTOMER_ID, CUSTOMER_WINDOWS, row); }
    forall row { ListedHas(data.customers, CUSTOMER_ID, CUSTOMER_ORDERS, row); }
    forall row { ForecastsHave(data.customers, row); }
    forall row { ListedHas(data.sources, SOURCE_ID, SOURCE_TRAILERS, row); }
    forall row { ListedHas(data.customers, CUSTOMER_ID, CUSTOMER_TRAILERS, row); }
    forall row { ListedHas(data.drivers, DRIVER_ID, DRIVER_WINDOWS, row); }
    forall row { ListedHas(data.drivers, DRIVER_ID, DRIVER_TRAILERS, row); }
  }

  /** The other tables have one row for each entity, in order. */
  lemma {:induction false} TablesHaveEntities(data: Data)
    ensures var t := ToDict(data);
      && t.unit == data.unit && t.horizon == data.horizon && t.bases == [data.base]
      && t.trailers == data.trailers && t.matrices == data.matrices
      && |t.customers| == |data.customers| && |t.sources| == |data.sources| && |t.drivers| == |data.drivers|
      && (forall i :: 0 <= i < |t.customers| ==> t.customers[i] == Row(data.customers[i].id, data.customers[i].plain))
      && (forall i :: 0 <= i < |t.sources| ==> t.sources[i] == Row(data.sources[i].id, data.sources[i].plain))
      && (forall i :: 0 <= i < |t.drivers| ==> t.drivers[i] == Row(data.drivers[i].id, data.drivers[i].plain))
      && t.coordinates == Some(match data.coordinates case None => [] case Some(points) => points)
  {
  }

  // ---- reading ----

  datatype ReadError = UnknownCustomer(id: nat) | NoBase

  /** Assigning to a key of a dictionary keeps the place of the key. */
  function Put<K(==), T>(rows: seq<Row<K, T>>, row: Row<K, T>): seq<Row<K, T>> {
    if rows == [] then [row]
    else if rows[0].id == row.id then [row] + rows[1..]
    else [rows[0]] + Put(rows[1..], row)
  }

  /** `_index`, and the dictionary of matrices: rows by key. */
  function Indexed<K(==), T>(rows: seq<Row<K, T>>): seq<Row<K, T>> {
    if rows == [] then [] else Put(Indexed(rows[..|rows| - 1]), rows[|rows| - 1])
  }

  ghost predicate DistinctRows<K(!new), T(!new)>(rows: seq<Row<K, T>>) {
    forall i, j :: 0 <= i < j < |rows| ==> rows[i].id != rows[j].id
  }

  ghost predicate NoneHas<K(!new), T(!new)>(rows: seq<Row<K, T>>, id: K) {
    forall j :: 0 <= j < |rows| ==> rows[j].id != id
  }

  lemma {:induction false} DistinctOfMore<K(!new), T(!new)>(first: Row<K, T>, rest: seq<Row<K, T>>)
    ensures DistinctRows([first] + rest) <==> NoneHas(rest, first.id) && DistinctRows(rest)
  {
    var rows := [first] + rest;
    forall j | 0 <= j < |rest| ensures rows[j + 1] == rest[j] {}
    if DistinctRows(rows) {
      forall j | 0 <= j < |rest| ensures rest[j].id != first.id {
        assert rows[0].id != rows[j + 1].id;
      }
      forall i, j | 0 <= i < j < |rest| ensures rest[i].id != rest[j].id {
        assert rows[i + 1].id != rows[j + 1].id;
      }
    }
  }

  lemma {:induction false} PutNew<K(!new), T(!new)>(rows: seq<Row<K, T>>, row: Row<K, T>)
    requires NoneHas(rows, row.id)
    ensures Put(rows, row) == rows + [row]
  {
    if rows != [] {
      var rest := rows[1..];
      forall j | 0 <= j < |rest| ensures rest[j].id != row.id {
        assert rows[j + 1] == rest[j];
      }
      PutNew(rest, row);
      assert rows[0].id != row.id;
      assert rows == [rows[0]] + rest;
    }
  }

  lemma {:induction false} PutAvoids<K(!new), T(!new)>(rows: seq<Row<K, T>>, row: Row<K, T>, id: K)
    requires NoneHas(rows, id) && row.id != id
    ensures NoneHas(Put(rows, row), id)
  {
    if rows != [] && rows[0].id != row.id {
      var rest := rows[1..];
      forall j | 0 <= j < |rest| ensures rest[j].id != id {
        assert rows[j + 1] == rest[j];
      }
      PutAvoids(rest, row, id);
      assert rows[0].id != id;
    }
  }

  lemma {:induction false} PutKeepsDistinct<K(!new), T(!new)>(rows: seq<Row<K, T>>, row: Row<K, T>)
    requires DistinctRows(rows)
    ensures DistinctRows(Put(rows, row))
  {
    if rows != [] {
      var first, rest := rows[0], rows[1..];
      assert rows == [first] + rest;
      DistinctOfMore(first, rest);
      hide DistinctRows;
      if first.id == row.id {
        DistinctOfMore(row, rest);
      } else {
        PutKeepsDistinct(rest, row);
        PutAvoids(rest, row, first.id);
        DistinctOfMore(first, Put(rest, row));
      }
    }
  }

  /** What a key gives. */
  function Lookup<K(==), T>(rows: seq<Row<K, T>>, id: K): Option<T> {
    if rows == [] then None
    else if rows[|rows| - 1].id == id then Some(rows[|rows| - 1].value)
    else Lookup(rows[..|rows| - 1], id)
  }

  lemma {:induction false} LookupOfMore<K, T>(first: Row<K, T>, rest: seq<Row<K, T>>, id: K)
    ensures Lookup([first] + rest, id) ==
      if Lookup(rest, id).Some? then Lookup(rest, id) else if first.id == id then Some(first.value) else None
  {
    if rest != [] {
      LookupOfMore(first, rest[..|rest| - 1], id);
      assert ([first] + rest)[..|rest|] == [first] + rest[..|rest| - 1];
    }
  }

  lemma {:induction false} LookupOfNone<K(!new), T(!new)>(rows: seq<Row<K, T>>, id: K)
    requires NoneHas(rows, id)
    ensures Lookup(rows, id) == None
  {
    if rows != [] {
      LookupOfNone(rows[..|rows| - 1], id);
    }
  }

  lemma {:induction false} PutLookup<K(!new), T(!new)>(rows: seq<Row<K, T>>, row: Row<K, T>, id: K)
    requires DistinctRows(rows)
    ensures Lookup(Put(rows, row), id) == if row.id == id then Some(row.value) else Lookup(rows, id)
  {
    if rows != [] {
      var first, rest := rows[0], rows[1..];
      assert rows == [first] + rest;
      DistinctOfMore(first, rest);
      LookupOfMore(first, rest, id);
      if first.id == row.id {
        LookupOfMore(row, rest, id);
        LookupOfNone(rest, row.id);
      } else {
        PutLookup(rest, row, id);
        LookupOfMore(first, Put(rest, row), id);
        LookupOfNone(rest, first.id);
      }
    }
  }

  /** Each key is there once, with its last row's value; rows with distinct keys
      stay as they are. */
  lemma {:induction false} IndexedIsDictionary<K(!new), T(!new)>(rows: seq<Row<K, T>>)
    ensures DistinctRows(Indexed(rows))
    ensures forall id :: Lookup(Indexed(rows), id) == Lookup(rows, id)
    ensures DistinctRows(rows) ==> Indexed(rows) == rows
  {
    if rows != [] {
      var front, last := rows[..|rows| - 1], rows[|rows| - 1];
      IndexedIsDictionary(front);
      PutKeepsDistinct(Indexed(front), last);
      forall id ensures Lookup(Indexed(rows), id) == Lookup(rows, id) {
        PutLookup(Indexed(front), last, id);
      }
      if DistinctRows(rows) {
        forall j | 0 <= j < |front| ensures front[j].id != last.id {
          assert rows[j].id != rows[|rows| - 1].id;
        }
        PutNew(front, last);
      }
    }
  }

  /** `index_list` and `assign_list_prop`: the values of the rows with an id,
      none if there is no row. */
  function Group<T>(rows: seq<Row<nat, T>>, id: nat): seq<T> {
    if rows == [] then []
    else Group(rows[..|rows| - 1], id)
         + if rows[|rows| - 1].id == id then [rows[|rows| - 1].value] else []
  }

  /** The values are those of exactly the rows with the id, in their order. */
  ghost predicate Gathers<T>(rows: seq<Row<nat, T>>, id: nat, at: seq<nat>, values: seq<T>) {
    && |at| == |values| && Increasing(at, |rows|)
    && (forall m :: 0 <= m < |at| ==> rows[at[m]] == Row(id, values[m]))
    && forall i :: 0 <= i < |rows| && rows[i].id == id ==> i in at
  }

  lemma {:induction false} GathersMore<T>(
    rows: seq<Row<nat, T>>, id: nat, at: seq<nat>, values: seq<T>, row: Row<nat, T>)
    requires Gathers(rows, id, at, values)
    ensures if row.id == id then Gathers(rows + [row], id, at + [|rows|], values + [row.value])
            else Gathers(rows + [row], id, at, values)
  {
    var more := rows + [row];
    IncreasingMore(at, |rows|);
    assert forall m :: 0 <= m < |at| ==> at[m] < |rows|;
    hide Increasing;
    assert forall i :: 0 <= i < |rows| ==> more[i] == rows[i];
    assert more[|rows|] == row;
  }

  lemma {:induction false} GroupGathers<T>(rows: seq<Row<nat, T>>, id: nat) returns (at: seq<nat>)
    ensures Gathers(rows, id, at, Group(rows, id))
  {
    at := [];
    if rows != [] {
      var front, last := rows[..|rows| - 1], rows[|rows| - 1];
      at := GroupGathers(front, id);
      GathersMore(front, id, at, Group(front, id), last);
      assert rows == front + [last] && Group(front, id) + [] == Group(front, id);
      hide Gathers;
      if last.id == id {
        at := at + [|front|];
      }
    }
  }

  lemma {:induction false} GroupIsGathered<T>(rows: seq<Row<nat, T>>, id: nat)
    ensures exists at :: Gathers(rows, id, at, Group(rows, id))
  {
    var at := GroupGathers(rows, id);
  }

  /** The quantities of the positive rows of a customer at a time. */
  function QuantityAt(rows: seq<Row<nat, Forecast>>, id: nat, time: nat): int {
    if rows == [] then 0
    else
      var last := rows[|rows| - 1];
      QuantityAt(rows[..|rows| - 1], id, time)
      + if last.id == id && last.value.time == time && last.value.quantity > 0 then last.value.quantity else 0
  }

  /** Every positive row is of a customer the table has. */
  ghost predicate ForecastsKnown(rows: seq<Row<nat, Forecast>>, ids: set<nat>) {
    forall i :: 0 <= i < |rows| && rows[i].value.quantity > 0 ==> rows[i].id in ids
  }

  /** The forecast loop of `get_customers`: zeros for each hour of the horizon,
      to which the rows add. Rows past the horizon are skipped; a row of an
      unknown customer is a key error. */
  method ReadForecasts(ids: set<nat>, rows: seq<Row<nat, Forecast>>, horizon: nat)
    returns (r: Result<map<nat, seq<int>>, nat>)
    ensures r.Success? <==> ForecastsKnown(rows, ids)
    ensures r.Failure? ==> r.error !in ids
    ensures r.Success? ==> r.value.Keys == ids
    ensures r.Success? ==> forall id :: id in ids ==> IsForecast(r.value[id], rows, id, horizon)
  {
    var forecasts := map id | id in ids :: seq(horizon, _ => 0);
    for k := 0 to |rows|
      invariant forecasts.Keys == ids
      invariant forall id :: id in ids ==> IsForecast(forecasts[id], rows[..k], id, horizon)
      invariant ForecastsKnown(rows[..k], ids)
    {
      assert rows[..k + 1][..k] == rows[..k];
      var row := rows[k];
      if row.value.quantity > 0 {
        if row.id !in ids {
          return Failure(row.id);
        }
        var time := row.value.time;
        if time < |forecasts[row.id]| {
          forecasts := forecasts[row.id := forecasts[row.id][time := forecasts[row.id][time] + row.value.quantity]];
        }
      }
    }
    assert rows[..|rows|] == rows;
    r := Success(forecasts);
  }

  ghost predicate IsForecast(forecast: seq<int>, rows: seq<Row<nat, Forecast>>, id: nat, horizon: nat) {
    |forecast| == horizon && forall h :: 0 <= h < horizon ==> forecast[h] == QuantityAt(rows, id, h)
  }

  /** Each entity has its own row's values and, in order, those of the rows with
      its id in the other tables. */
  ghost predicate Holds(data: Data, tables: Tables) {
    && (forall i :: 0 <= i < |data.customers| ==> HoldsCustomer(data.customers[i], tables))
    && (forall i :: 0 <= i < |data.sources| ==> HoldsSource(data.sources[i], tables))
    && (forall i :: 0 <= i < |data.drivers| ==> HoldsDriver(data.drivers[i], tables))
    && var customers, sources, drivers := Indexed(tables.customers), Indexed(tables.sources), Indexed(tables.drivers);
       && |data.customers| == |customers| && |data.sources| == |sources| && |data.drivers| == |drivers|
       && (forall i :: 0 <= i < |customers| ==> customers[i] == Row(data.customers[i].id, data.customers[i].plain))
       && (forall i :: 0 <= i < |sources| ==> sources[i] == Row(data.sources[i].id, data.sources[i].plain))
       && (forall i :: 0 <= i < |drivers| ==> drivers[i] == Row(data.drivers[i].id, data.drivers[i].plain))
  }

  ghost predicate HoldsCustomer(c: Customer, tables: Tables) {
    && (exists at :: Gathers(tables.customersTimeWindows, c.id, at, c.windows))
    && (exists at :: Gathers(tables.orders, c.id, at, c.orders))
    && (exists at :: Gathers(tables.allowedTrailers, c.id, at, c.trailers))
    && IsForecast(c.forecast, tables.forecasts, c.id, tables.horizon)
  }

  ghost predicate HoldsSource(s: Source, tables: Tables) {
    exists at :: Gathers(tables.allowedTrailers, s.id, at, s.trailers)
  }

  ghost predicate HoldsDriver(d: Driver, tables: Tables) {
    && (exists at :: Gathers(tables.driversTimeWindows, d.id, at, d.windows))
    && (exists at :: Gathers(tables.driversTrailers, d.id, at, d.trailers))
  }

  lemma {:induction false} ReadHolds(data: Data, tables: Tables)
    requires IsReadFrom(data, tables)
    ensures Holds(data, tables)
  {
    hide Group, Gathers, Indexed, IsForecast;
    forall i | 0 <= i < |data.customers|
      ensures HoldsCustomer(data.customers[i], tables)
      ensures Indexed(tables.customers)[i] == Row(data.customers[i].id, data.customers[i].plain)
    {
      var row := Indexed(tables.customers)[i];
      assert IsCustomerFrom(data.customers[i], tables, row);
      GroupIsGathered(tables.customersTimeWindows, row.id);
      GroupIsGathered(tables.orders, row.id);
      GroupIsGathered(tables.allowedTrailers, row.id);
    }
    forall i | 0 <= i < |data.sources| ensures HoldsSource(data.sources[i], tables) {
      GroupIsGathered(tables.allowedTrailers, Indexed(tables.sources)[i].id);
    }
    forall i | 0 <= i < |data.drivers| ensures HoldsDriver(data.drivers[i], tables) {
      GroupIsGathered(tables.driversTimeWindows, Indexed(tables.drivers)[i].id);
      GroupIsGathered(tables.driversTrailers, Indexed(tables.drivers)[i].id);
    }
  }

  /** `from_dict`: a positive forecast of an unknown customer is a key error, and
      no base at all an index error. */
  method FromDict(tables: Tables) returns (r: Result<Data, ReadError>)
    ensures r.Success? <==>
      ForecastsKnown(tables.forecasts, Ids(Indexed(tables.customers))) && tables.bases != []
    ensures r.Success? ==> IsReadFrom(r.value, tables) && Holds(r.value, tables)
    ensures r == Failure(NoBase) ==> tables.bases == []
    ensures r.Failure? && r.error.UnknownCustomer? ==> r.error.id !in Ids(Indexed(tables.customers))
  {
    var customerRows, sourceRows := Indexed(tables.customers), Indexed(tables.sources);
    var driverRows := Indexed(tables.drivers);
    var forecasts := ReadForecasts(Ids(customerRows), tables.forecasts, tables.horizon);
    if forecasts.Failure? {
      return Failure(UnknownCustomer(forecasts.error));
    }
    if tables.bases == [] {
      return Failure(NoBase);
    }
    var customers := seq(|customerRows|, i requires 0 <= i < |customerRows| =>
      CustomerFrom(tables, customerRows[i], forecasts.value[customerRows[i].id]));
    r := Success(Data(
      tables.unit, tables.horizon, tables.bases[0], Some(OrNone(tables.coordinates)),
      Indexed(tables.trailers), Indexed(tables.matrices), customers,
      seq(|sourceRows|, i requires 0 <= i < |sourceRows| => SourceFrom(tables, sourceRows[i])),
      seq(|driverRows|, i requires 0 <= i < |driverRows| => DriverFrom(tables, driverRows[i]))));
    hide Indexed, Holds;
    ReadHolds(r.value, tables);
  }

  function Ids<T>(rows: seq<Row<nat, T>>): set<nat> {
    set i | 0 <= i < |rows| :: rows[i].id
  }

  function CustomerFrom(tables: Tables, row: Row<nat, CustomerPlain>, forecast: seq<int>): Customer {
    Customer(row.id, row.value, Group(tables.customersTimeWindows, row.id), Group(tables.orders, row.id), forecast,
             Group(tables.allowedTrailers, row.id))
  }

  ghost predicate IsCustomerFrom(c: Customer, tables: Tables, row: Row<nat, CustomerPlain>) {
    c == CustomerFrom(tables, row, c.forecast) && IsForecast(c.forecast, tables.forecasts, row.id, tables.horizon)
  }

  function SourceFrom(tables: Tables, row: Row<nat, SourcePlain>): Source {
    Source(row.id, row.value, Group(tables.allowedTrailers, row.id))
  }

  function DriverFrom(tables: Tables, row: Row<nat, DriverPlain>): Driver {
    Driver(row.id, row.value, Group(tables.driversTimeWindows, row.id), Group(tables.driversTrailers, row.id))
  }

  ghost predicate IsReadFrom(data: Data, tables: Tables) {
    var customers, sources, drivers := Indexed(tables.customers), Indexed(tables.sources), Indexed(tables.drivers);
    && data.unit == tables.unit && data.horizon == tables.horizon && tables.bases != [] && data.base == tables.bases[0]
    && data.coordinates == Some(OrNone(tables.coordinates))
    && data.trailers == Indexed(tables.trailers) && data.matrices == Indexed(tables.matrices)
    && |data.customers| == |customers| && |data.sources| == |sources| && |data.drivers| == |drivers|
    && (forall i :: 0 <= i < |customers| ==> IsCustomerFrom(data.customers[i], tables, customers[i]))
    && (forall i :: 0 <= i < |sources| ==> data.sources[i] == SourceFrom(tables, sources[i]))
    && (forall i :: 0 <= i < |drivers| ==> data.drivers[i] == DriverFrom(tables, drivers[i]))
  }

  // ---- grouping what was flattened ----

  ghost predicate DistinctIds<E>(entities: seq<E>, id: E -> nat) {
    forall i, j :: 0 <= i < j < |entities| ==> id(entities[i]) != id(entities[j])
  }

  lemma {:induction false} GroupOfConcat<T>(a: seq<Row<nat, T>>, b: seq<Row<nat, T>>, id: nat)
    ensures Group(a + b, id) == Group(a, id) + Group(b, id)
  {
    if b == [] {
      assert a + b == a;
    } else {
      GroupOfConcat(a, b[..|b| - 1], id);
      assert (a + b)[..|a + b| - 1] == a + b[..|b| - 1];
    }
  }

  lemma {:induction false} GroupOfRowsFor<T>(owner: nat, values: seq<T>, id: nat)
    ensures Group(RowsFor(owner, values), id) == if owner == id then values else []
  {
    if values != [] {
      GroupOfRowsFor(owner, values[..|values| - 1], id);
      assert RowsFor(owner, values)[..|values| - 1] == RowsFor(owner, values[..|values| - 1]);
    }
  }

  lemma {:induction false} GroupOfMore<E, T>(entities: seq<E>, id: E -> nat, values: E -> seq<T>, n: nat, x: nat)
    requires 0 < n <= |entities|
    ensures Group(Flatten(entities, id, values, n), x)
         == Group(Flatten(entities, id, values, n - 1), x)
          + if id(entities[n - 1]) == x then values(entities[n - 1]) else []
  {
    var front, more := Flatten(entities, id, values, n - 1), RowsFor(id(entities[n - 1]), values(entities[n - 1]));
    assert Flatten(entities, id, values, n) == front + more;
    hide *;
    GroupOfRowsFor(id(entities[n - 1]), values(entities[n - 1]), x);
    GroupOfConcat(front, more, x);
  }

  lemma {:induction false} GroupOfNone<E, T>(entities: seq<E>, id: E -> nat, values: E -> seq<T>, n: nat, x: nat)
    requires n <= |entities| && forall j :: 0 <= j < n ==> id(entities[j]) != x
    ensures Group(Flatten(entities, id, values, n), x) == []
  {
    if n > 0 {
      hide *;
      GroupOfNone(entities, id, values, n - 1, x);
      GroupOfMore(entities, id, values, n, x);
    }
  }

  /** Each entity gets its own values back, in order. */
  lemma {:induction false} GroupOfFlattened<E, T>(entities: seq<E>, id: E -> nat, values: E -> seq<T>, n: nat, i: nat)
    requires i < n <= |entities| && DistinctIds(entities, id)
    ensures Group(Flatten(entities, id, values, n), id(entities[i])) == values(entities[i])
    decreases n
  {
    hide Group, Flatten, RowsFor;
    var x := id(entities[i]);
    GroupOfMore(entities, id, values, n, x);
    if i < n - 1 {
      GroupOfFlattened(entities, id, values, n - 1, i);
      assert id(entities[n - 1]) != x;
    } else {
      GroupOfNone(entities, id, values, n - 1, x);
    }
  }

  // ---- forecasts ----

  lemma {:induction false} QuantityOfConcat(a: seq<Row<nat, Forecast>>, b: seq<Row<nat, Forecast>>, id: nat, time: nat)
    ensures QuantityAt(a + b, id, time) == QuantityAt(a, id, time) + QuantityAt(b, id, time)
  {
    if b == [] {
      assert a + b == a;
    } else {
      QuantityOfConcat(a, b[..|b| - 1], id, time);
      assert (a + b)[..|a + b| - 1] == a + b[..|b| - 1];
    }
  }

  lemma {:induction false} QuantityOfOne(owner: nat, f: Forecast, id: nat, time: nat)
    ensures QuantityAt([], id, time) == 0
    ensures QuantityAt([Row(owner, f)], id, time)
         == if owner == id && f.time == time && f.quantity > 0 then f.quantity else 0
  {
    var rows := [Row(owner, f)];
    assert rows[..0] == [];
  }

  lemma {:induction false} QuantityOfSparse(owner: nat, forecast: seq<int>, n: nat, id: nat, time: nat)
    requires n <= |forecast|
    ensures QuantityAt(RowsFor(owner, Sparse(forecast, n)), id, time)
         == if owner == id && time < n && forecast[time] > 0 then forecast[time] else 0
  {
    hide QuantityAt;
    if n == 0 {
      assert RowsFor(owner, Sparse(forecast, 0)) == [];
      QuantityOfOne(owner, Forecast(0, 0), id, time);
    } else {
      var f, before := Forecast(n - 1, forecast[n - 1]), RowsFor(owner, Sparse(forecast, n - 1));
      QuantityOfSparse(owner, forecast, n - 1, id, time);
      QuantityOfOne(owner, f, id, time);
      QuantityOfConcat(before, [Row(owner, f)], id, time);
      assert RowsFor(owner, Sparse(forecast, n)) == before + if f.quantity > 0 then [Row(owner, f)] else [];
      assert before + [] == before;
    }
  }

  lemma {:induction false} QuantityOfCustomers(customers: seq<Customer>, n: nat, i: nat, time: nat)
    requires n <= |customers| && i < |customers| && DistinctIds(customers, CUSTOMER_ID)
    ensures QuantityAt(Flatten(customers, CUSTOMER_ID, SPARSE_FORECAST, n), customers[i].id, time)
         == if i < n && time < |customers[i].forecast| && customers[i].forecast[time] > 0
            then customers[i].forecast[time] else 0
  {
    if n > 0 {
      QuantityOfCustomers(customers, n - 1, i, time);
      var last := customers[n - 1];
      QuantityOfSparse(last.id, last.forecast, |last.forecast|, customers[i].id, time);
      QuantityOfConcat(Flatten(customers, CUSTOMER_ID, SPARSE_FORECAST, n - 1),
                       RowsFor(last.id, Sparse(last.forecast, |last.forecast|)), customers[i].id, time);
      assert CUSTOMER_ID(last) == last.id && CUSTOMER_ID(customers[i]) == customers[i].id;
      assert i != n - 1 ==> CUSTOMER_ID(last) != CUSTOMER_ID(customers[i]);
    }
  }

  /** A dense forecast: an entry for each hour, none negative. */
  ghost predicate IsDense(forecast: seq<int>, horizon: nat) {
    |forecast| == horizon && forall h :: 0 <= h < horizon ==> forecast[h] >= 0
  }

  /** The forecast read back is the one written exactly when that is dense. */
  lemma ForecastRoundTrip(data: Data, i: nat, back: seq<int>)
    requires i < |data.customers| && DistinctIds(data.customers, CUSTOMER_ID)
    requires IsForecast(back, ToDict(data).forecasts, data.customers[i].id, data.horizon)
    ensures back == data.customers[i].forecast <==> IsDense(data.customers[i].forecast, data.horizon)
  {
    var forecast := data.customers[i].forecast;
    forall h | 0 <= h < data.horizon
      ensures back[h] == if h < |forecast| && forecast[h] > 0 then forecast[h] else 0
    {
      QuantityOfCustomers(data.customers, |data.customers|, i, h);
    }
  }

  lemma {:induction false} WrittenForecastsAreKnown(customers: seq<Customer>, n: nat, ids: set<nat>)
    requires n <= |customers| && forall i :: 0 <= i < n ==> customers[i].id in ids
    ensures ForecastsKnown(Flatten(customers, CUSTOMER_ID, SPARSE_FORECAST, n), ids)
  {
    if n > 0 {
      WrittenForecastsAreKnown(customers, n - 1, ids);
      assert CUSTOMER_ID(customers[n - 1]) == customers[n - 1].id;
    }
  }

  // ---- the round trip ----

  /** A source and a customer with one id would share the trailers' rows. */
  predicate TrailersApart(s: Source, c: Customer) {
    s.id == c.id ==> s.trailers == [] && c.trailers == []
  }

  ghost predicate Writable(data: Data) {
    && data.coordinates.Some?
    && (forall i :: 0 <= i < |data.customers| ==> IsDense(data.customers[i].forecast, data.horizon))
    && forall s, c :: s in data.sources && c in data.customers ==> TrailersApart(s, c)
  }

  ghost predicate Keyed(data: Data) {
    && DistinctIds(data.customers, CUSTOMER_ID) && DistinctIds(data.sources, SOURCE_ID)
    && DistinctIds(data.drivers, DRIVER_ID) && DistinctRows(data.trailers) && DistinctRows(data.matrices)
  }

  /** Written tables have one row for each key. */
  lemma {:induction false} WrittenIsIndexed(data: Data)
    requires Keyed(data)
    ensures var t := ToDict(data);
      && Indexed(t.customers) == t.customers && Indexed(t.sources) == t.sources && Indexed(t.drivers) == t.drivers
      && Indexed(t.trailers) == t.trailers && Indexed(t.matrices) == t.matrices
  {
    var t := ToDict(data);
    IndexedIsDictionary(t.customers);
    IndexedIsDictionary(t.sources);
    IndexedIsDictionary(t.drivers);
    IndexedIsDictionary(t.trailers);
    IndexedIsDictionary(t.matrices);
  }

  ghost predicate NoSourceTrailers(data: Data, id: nat) {
    forall s :: s in data.sources && s.id == id ==> s.trailers == []
  }

  ghost predicate NoCustomerTrailers(data: Data, id: nat) {
    forall c :: c in data.customers && c.id == id ==> c.trailers == []
  }

  lemma WritableParts(data: Data)
    ensures Writable(data) <==>
      && data.coordinates.Some?
      && (forall i :: 0 <= i < |data.customers| ==>
            IsDense(data.customers[i].forecast, data.horizon) && NoSourceTrailers(data, data.customers[i].id))
      && (forall i :: 0 <= i < |data.sources| ==> NoCustomerTrailers(data, data.sources[i].id))
  {
    hide IsDense;
    if Writable(data) {
      forall i, s | 0 <= i < |data.customers| && s in data.sources && s.id == data.customers[i].id
        ensures s.trailers == []
      {
        assert TrailersApart(s, data.customers[i]);
      }
      forall i, c | 0 <= i < |data.sources| && c in data.customers && c.id == data.sources[i].id
        ensures c.trailers == []
      {
        assert TrailersApart(data.sources[i], c);
      }
    }
  }

  /** The shared table gives a customer its own trailers after those of a source
      with its id. */
  lemma CustomerTrailersBack(data: Data, i: nat)
    requires Keyed(data) && i < |data.customers|
    ensures Group(ToDict(data).allowedTrailers, data.customers[i].id) == data.customers[i].trailers
       <==> NoSourceTrailers(data, data.customers[i].id)
  {
    var id := data.customers[i].id;
    var ofSources := Group(Listed(data.sources, SOURCE_ID, SOURCE_TRAILERS), id);
    GroupOfConcat(Listed(data.sources, SOURCE_ID, SOURCE_TRAILERS),
                  Listed(data.customers, CUSTOMER_ID, CUSTOMER_TRAILERS), id);
    GroupOfFlattened(data.customers, CUSTOMER_ID, CUSTOMER_TRAILERS, |data.customers|, i);
    assert Group(ToDict(data).allowedTrailers, id) == ofSources + data.customers[i].trailers;
    forall s | s in data.sources && s.id == id ensures ofSources == s.trailers {
      var k :| 0 <= k < |data.sources| && data.sources[k] == s;
      GroupOfFlattened(data.sources, SOURCE_ID, SOURCE_TRAILERS, |data.sources|, k);
    }
    if !exists s :: s in data.sources && s.id == id {
      forall k | 0 <= k < |data.sources| ensures SOURCE_ID(data.sources[k]) != id {
        assert data.sources[k] in data.sources;
      }
      GroupOfNone(data.sources, SOURCE_ID, SOURCE_TRAILERS, |data.sources|, id);
    }
    assert |ofSources + data.customers[i].trailers| == |ofSources| + |data.customers[i].trailers|;
  }

  lemma SourceTrailersBack(data: Data, i: nat)
    requires Keyed(data) && i < |data.sources|
    ensures Group(ToDict(data).allowedTrailers, data.sources[i].id) == data.sources[i].trailers
       <==> NoCustomerTrailers(data, data.sources[i].id)
  {
    var id := data.sources[i].id;
    var ofCustomers := Group(Listed(data.customers, CUSTOMER_ID, CUSTOMER_TRAILERS), id);
    GroupOfConcat(Listed(data.sources, SOURCE_ID, SOURCE_TRAILERS),
                  Listed(data.customers, CUSTOMER_ID, CUSTOMER_TRAILERS), id);
    GroupOfFlattened(data.sources, SOURCE_ID, SOURCE_TRAILERS, |data.sources|, i);
    assert Group(ToDict(data).allowedTrailers, id) == data.sources[i].trailers + ofCustomers;
    forall c | c in data.customers && c.id == id ensures ofCustomers == c.trailers {
      var k :| 0 <= k < |data.customers| && data.customers[k] == c;
      GroupOfFlattened(data.customers, CUSTOMER_ID, CUSTOMER_TRAILERS, |data.customers|, k);
    }
    if !exists c :: c in data.customers && c.id == id {
      forall k | 0 <= k < |data.customers| ensures CUSTOMER_ID(data.customers[k]) != id {
        assert data.customers[k] in data.customers;
      }
      GroupOfNone(data.customers, CUSTOMER_ID, CUSTOMER_TRAILERS, |data.customers|, id);
    }
    assert |data.sources[i].trailers + ofCustomers| == |data.sources[i].trailers| + |ofCustomers|;
  }

  lemma CustomerBack(data: Data, i: nat, back: Customer)
    requires Keyed(data) && i < |data.customers| && IsCustomerFrom(back, ToDict(data), ToDict(data).customers[i])
    ensures back == data.customers[i] <==>
      IsDense(data.customers[i].forecast, data.horizon) && NoSourceTrailers(data, data.customers[i].id)
  {
    ForecastRoundTrip(data, i, back.forecast);
    CustomerTrailersBack(data, i);
    GroupOfFlattened(data.customers, CUSTOMER_ID, CUSTOMER_WINDOWS, |data.customers|, i);
    GroupOfFlattened(data.customers, CUSTOMER_ID, CUSTOMER_ORDERS, |data.customers|, i);
  }

  lemma {:induction false} SourceBack(data: Data, i: nat)
    requires Keyed(data) && i < |data.sources|
    ensures SourceFrom(ToDict(data), ToDict(data).sources[i]) == data.sources[i]
       <==> NoCustomerTrailers(data, data.sources[i].id)
  {
    SourceTrailersBack(data, i);
    hide Keyed, NoCustomerTrailers, Group;
  }

  lemma DriverBack(data: Data, i: nat)
    requires Keyed(data) && i < |data.drivers|
    ensures DriverFrom(ToDict(data), ToDict(data).drivers[i]) == data.drivers[i]
  {
    GroupOfFlattened(data.drivers, DRIVER_ID, DRIVER_WINDOWS, |data.drivers|, i);
    GroupOfFlattened(data.drivers, DRIVER_ID, DRIVER_TRAILERS, |data.drivers|, i);
  }

  lemma {:induction false} CustomersBack(data: Data, back: Data)
    requires Keyed(data) && IsReadFrom(back, ToDict(data))
    ensures back.customers == data.customers <==> forall i :: 0 <= i < |data.customers| ==>
      IsDense(data.customers[i].forecast, data.horizon) && NoSourceTrailers(data, data.customers[i].id)
  {
    WrittenIsIndexed(data);
    hide Keyed, IsDense, NoSourceTrailers, Indexed, IsCustomerFrom, SourceFrom, DriverFrom;
    forall i | 0 <= i < |data.customers|
      ensures back.customers[i] == data.customers[i] <==>
        IsDense(data.customers[i].forecast, data.horizon) && NoSourceTrailers(data, data.customers[i].id)
    {
      CustomerBack(data, i, back.customers[i]);
    }
  }

  lemma {:induction false} SourcesBack(data: Data, back: Data)
    requires Keyed(data) && IsReadFrom(back, ToDict(data))
    ensures back.sources == data.sources <==>
      forall i :: 0 <= i < |data.sources| ==> NoCustomerTrailers(data, data.sources[i].id)
  {
    WrittenIsIndexed(data);
    hide Keyed, NoCustomerTrailers, Indexed, IsCustomerFrom, SourceFrom, DriverFrom;
    forall i | 0 <= i < |data.sources|
      ensures back.sources[i] == data.sources[i] <==> NoCustomerTrailers(data, data.sources[i].id)
    {
      SourceBack(data, i);
    }
  }

  lemma {:induction false} DriversBack(data: Data, back: Data)
    requires Keyed(data) && IsReadFrom(back, ToDict(data))
    ensures back.drivers == data.drivers
  {
    WrittenIsIndexed(data);
    hide Keyed, Indexed, IsCustomerFrom, SourceFrom, DriverFrom;
    forall i | 0 <= i < |data.drivers| ensures back.drivers[i] == data.drivers[i] {
      DriverBack(data, i);
    }
  }

  /** What is read back is what was written exactly when there are coordinates,
      every forecast is dense, and no source shares its id with a customer unless
      neither lists a trailer. */
  lemma ReadBackIsWritten(data: Data, back: Data)
    requires Keyed(data) && IsReadFrom(back, ToDict(data))
    ensures back == data <==> Writable(data)
  {
    WritableParts(data);
    WrittenIsIndexed(data);
    CustomersBack(data, back);
    SourcesBack(data, back);
    DriversBack(data, back);
    hide Writable, IsDense, NoSourceTrailers, NoCustomerTrailers, Keyed, Indexed;
    hide IsCustomerFrom, CustomerFrom, SourceFrom, DriverFrom;
  }

  lemma WrittenIsReadable(data: Data)
    requires Keyed(data)
    ensures ForecastsKnown(ToDict(data).forecasts, Ids(Indexed(ToDict(data).customers))) && ToDict(data).bases != []
  {
    WrittenIsIndexed(data);
    forall i | 0 <= i < |data.customers| ensures data.customers[i].id in Ids(ToDict(data).customers) {
      assert ToDict(data).customers[i].id == data.customers[i].id;
    }
    WrittenForecastsAreKnown(data.customers, |data.customers|, Ids(ToDict(data).customers));
  }

  /** Writing an instance and reading it back always succeeds. */
  method RoundTrip(data: Data) returns (r: Result<Data, ReadError>)
    requires Keyed(data)
    ensures r.Success? && (r.value == data <==> Writable(data))
  {
    hide *;
    WrittenIsReadable(data);
    r := FromDict(ToDict(data));
    ReadBackIsWritten(data, r.value);
  }

  // ---- two instances that are not recovered ----

  function OneCustomer(sources: seq<Source>, forecast: seq<int>, trailers: seq<nat>): Data {
    Data(60, 1, 0, Some([]), [], [], [Customer(1, CustomerPlain(0, 10, 0, 0), [], [], forecast, trailers)], sources, [])
  }

  /** The one entry of the forecast is negative and is not written. */
  lemma {:induction false} NegativeForecastIsLost(back: Data)
    requires IsReadFrom(back, ToDict(OneCustomer([], [-1], [])))
    ensures Keyed(OneCustomer([], [-1], [])) && back != OneCustomer([], [-1], [])
  {
    var data := OneCustomer([], [-1], []);
    hide IsReadFrom, ToDict;
    ReadBackIsWritten(data, back);
    assert data.customers[0].forecast[0] == -1;
  }

  /** A source and a customer with id 1 each list a trailer, and both come back
      with two. */
  lemma {:induction false} SharedIdMixesTrailers(back: Data)
    requires IsReadFrom(back, ToDict(OneCustomer([Source(1, SourcePlain(0), [5])], [0], [6])))
    ensures Keyed(OneCustomer([Source(1, SourcePlain(0), [5])], [0], [6]))
    ensures back != OneCustomer([Source(1, SourcePlain(0), [5])], [0], [6])
  {
    var data := OneCustomer([Source(1, SourcePlain(0), [5])], [0], [6]);
    hide IsReadFrom, ToDict;
    ReadBackIsWritten(data, back);
    assert data.sources[0] in data.sources && data.customers[0] in data.customers;
    assert !TrailersApart(data.sources[0], data.customers[0]);
  }
}
