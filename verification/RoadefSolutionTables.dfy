/** The tables a solution is written to and read back from
    (roadef/core/solution.py). */
module RoadefSolutionTables {
  import opened Wrappers
  import opened RoadefModel

  datatype InfoRow = InfoRow(id: nat, driver: nat, trailer: nat, departureTime: int, initialQuantity: int, nbSteps: nat)
  datatype DetailRow = DetailRow(id: nat, day: int, position: nat, stop: Stop)

  /** The shifts of a solution are keyed by id. */
  ghost predicate DistinctIds(shifts: seq<Shift>) {
    forall i, j :: 0 <= i < j < |shifts| ==> shifts[i].id != shifts[j].id
  }

  const MINUTES_IN_A_DAY: int := 60 * 24

  function InfoOf(s: Shift): InfoRow {
    InfoRow(s.id, s.driver, s.trailer, s.departureTime, s.initialQuantity, |s.route|)
  }

  function DetailsOf(s: Shift): (rows: seq<DetailRow>)
    ensures |rows| == |s.route|
    ensures forall i :: 0 <= i < |rows| ==>
      rows[i] == DetailRow(s.id, s.departureTime / MINUTES_IN_A_DAY, i, s.route[i])
  {
    seq(|s.route|, i requires 0 <= i < |s.route| => DetailRow(s.id, s.departureTime / MINUTES_IN_A_DAY, i, s.route[i]))
  }

  /** `to_dict`: one table of shifts, one of their stops. */
  function Infos(shifts: seq<Shift>): (rows: seq<InfoRow>)
    ensures |rows| == |shifts| && forall i :: 0 <= i < |shifts| ==> rows[i] == InfoOf(shifts[i])
  {
    seq(|shifts|, i requires 0 <= i < |shifts| => InfoOf(shifts[i]))
  }

  function Details(shifts: seq<Shift>): seq<DetailRow> {
    if shifts == [] then [] else Details(shifts[..|shifts| - 1]) + DetailsOf(Last(shifts))
  }

  /** The columns of a shift's row. */
  predicate IsInfoOf(row: InfoRow, s: Shift) {
    && row.id == s.id && row.driver == s.driver && row.trailer == s.trailer
    && row.departureTime == s.departureTime && row.initialQuantity == s.initialQuantity && row.nbSteps == |s.route|
  }

  /** The columns of the row of a shift's j-th stop. */
  predicate IsDetailOf(row: DetailRow, s: Shift, j: nat) {
    j < |s.route| && row.id == s.id && row.day == s.departureTime / (60 * 24) && row.position == j
    && row.stop == s.route[j]
  }

  /** `to_dict`: a row for each shift, and one for each stop, both in order. */
  method ToDict(shifts: seq<Shift>) returns (infos: seq<InfoRow>, details: seq<DetailRow>)
    ensures infos == Infos(shifts) && details == Details(shifts)
    ensures |infos| == |shifts| && forall i :: 0 <= i < |shifts| ==> IsInfoOf(infos[i], shifts[i])
    ensures forall row :: row in details <==> exists i, j :: 0 <= i < |shifts| && IsDetailOf(row, shifts[i], j)
    ensures exists spots :: ListsStops(shifts, spots, details)
  {
    infos, details := Infos(shifts), Details(shifts);
    ghost var spots := DetailsListed(shifts);
    forall row ensures row in details <==> exists i, j :: 0 <= i < |shifts| && IsDetailOf(row, shifts[i], j) {
      DetailsAreTheShifts(shifts, row);
      hide Details;
      forall i | 0 <= i < |shifts|
        ensures row in DetailsOf(shifts[i]) <==> exists j :: IsDetailOf(row, shifts[i], j)
      {
        RowIsDetail(shifts[i], row);
      }
      hide DetailsOf, IsDetailOf;
    }
  }

  lemma RowIsDetail(s: Shift, row: DetailRow)
    ensures row in DetailsOf(s) <==> exists j :: IsDetailOf(row, s, j)
  {
    if j: nat :| IsDetailOf(row, s, j) {
      assert DetailsOf(s)[j] == row;
    }
    if row in DetailsOf(s) {
      var j: nat :| j < |s.route| && DetailsOf(s)[j] == row;
      assert IsDetailOf(row, s, j);
    }
  }

  /** The rows are those of the listed stops: shift by shift, stop by stop, and
      all of them. */
  ghost predicate ListsStops(shifts: seq<Shift>, spots: seq<(nat, nat)>, details: seq<DetailRow>) {
    && |spots| == |details|
    && (forall n :: 0 <= n < |spots| ==>
          spots[n].0 < |shifts| && IsDetailOf(details[n], shifts[spots[n].0], spots[n].1))
    && (forall m, n :: 0 <= m < n < |spots| ==>
          spots[m].0 < spots[n].0 || (spots[m].0 == spots[n].0 && spots[m].1 < spots[n].1))
  }

  lemma {:induction false} DetailsListed(shifts: seq<Shift>) returns (spots: seq<(nat, nat)>)
    ensures ListsStops(shifts, spots, Details(shifts))
  {
    spots := [];
    if shifts != [] {
      var front, last, n := shifts[..|shifts| - 1], Last(shifts), |shifts| - 1;
      var before := DetailsListed(front);
      spots := before + seq(|last.route|, j requires 0 <= j < |last.route| => (n, j));
      assert forall i :: 0 <= i < n ==> shifts[i] == front[i];
      forall k | 0 <= k < |spots|
        ensures spots[k].0 < |shifts| && IsDetailOf(Details(shifts)[k], shifts[spots[k].0], spots[k].1)
      {
        if k >= |before| {
          assert Details(shifts)[k] == DetailsOf(last)[k - |before|];
        }
      }
    }
  }

  // ---- reading ----

  /** A row takes the place of the row with its position, or stands between
      those before and after it: what the dict keyed by position and the sort
      of its values come to. */
  function Place(rows: seq<DetailRow>, row: DetailRow): seq<DetailRow> {
    if rows == [] || Last(rows).position < row.position then rows + [row]
    else if Last(rows).position == row.position then rows[..|rows| - 1] + [row]
    else Place(rows[..|rows| - 1], row) + [Last(rows)]
  }

  /** `details[id]`, by position */
  function RowsOf(details: seq<DetailRow>, id: nat): seq<DetailRow> {
    if details == [] then []
    else if Last(details).id == id then Place(RowsOf(details[..|details| - 1], id), Last(details))
    else RowsOf(details[..|details| - 1], id)
  }

  function RouteOf(rows: seq<DetailRow>): (route: seq<Stop>)
    ensures |route| == |rows| && forall i :: 0 <= i < |rows| ==> route[i] == rows[i].stop
  {
    seq(|rows|, i requires 0 <= i < |rows| => rows[i].stop)
  }

  function ShiftFrom(info: InfoRow, rows: seq<DetailRow>): Shift {
    Shift(info.id, info.driver, info.trailer, info.departureTime, info.initialQuantity, RouteOf(rows))
  }

  /** The shift's own columns, and the stops of its rows. */
  predicate IsReadFrom(s: Shift, info: InfoRow, rows: seq<DetailRow>) {
    && s.id == info.id && s.driver == info.driver && s.trailer == info.trailer
    && s.departureTime == info.departureTime && s.initialQuantity == info.initialQuantity
    && |s.route| == |rows| && forall j :: 0 <= j < |rows| ==> s.route[j] == rows[j].stop
  }

  /** `from_dict`; a shift with no row among the details is a key error. */
  method FromDict(infos: seq<InfoRow>, details: seq<DetailRow>) returns (r: Result<seq<Shift>, nat>)
    requires forall i, j :: 0 <= i < j < |infos| ==> infos[i].id != infos[j].id
    ensures r.Success? <==> forall i :: 0 <= i < |infos| ==> RowsOf(details, infos[i].id) != []
    ensures r.Success? ==> |r.value| == |infos|
    ensures r.Success? ==>
      forall i :: 0 <= i < |infos| ==> r.value[i] == ShiftFrom(infos[i], RowsOf(details, infos[i].id))
    ensures r.Success? ==>
      forall i :: 0 <= i < |infos| ==> IsReadFrom(r.value[i], infos[i], RowsOf(details, infos[i].id))
    ensures r.Failure? ==> RowsOf(details, r.error) == [] && exists i :: 0 <= i < |infos| && infos[i].id == r.error
  {
    var data: seq<Shift> := [];
    for i := 0 to |infos|
      invariant |data| == i
      invariant forall j :: 0 <= j < i ==>
        RowsOf(details, infos[j].id) != [] && data[j] == ShiftFrom(infos[j], RowsOf(details, infos[j].id))
    {
      var rows := RowsOf(details, infos[i].id);
      if rows == [] {
        return Failure(infos[i].id);
      }
      data := data + [ShiftFrom(infos[i], rows)];
    }
    r := Success(data);
  }

  // ---- rows in order of position ----

  ghost predicate ByPosition(rows: seq<DetailRow>) {
    forall i, j :: 0 <= i < j < |rows| ==> rows[i].position < rows[j].position
  }

  /** Rows of the same place are the same row. */
  ghost predicate OnePerPlace(rows: seq<DetailRow>) {
    forall a, b :: a in rows && b in rows && a.id == b.id && a.position == b.position ==> a == b
  }

  lemma {:induction false} OrderOfMore(front: seq<DetailRow>, last: DetailRow)
    ensures ByPosition(front + [last]) <==> ByPosition(front) && forall x :: x in front ==> x.position < last.position
  {
    var rows := front + [last];
    assert forall i :: 0 <= i < |front| ==> rows[i] == front[i];
    if ByPosition(rows) {
      forall x | x in front ensures x.position < last.position {
        var i :| 0 <= i < |front| && front[i] == x;
        assert rows[i].position < rows[|front|].position;
      }
    }
  }

  lemma {:induction false} PlaceKeepsOrder(rows: seq<DetailRow>, row: DetailRow)
    requires ByPosition(rows)
    ensures ByPosition(Place(rows, row))
    ensures forall x :: x in Place(rows, row) <==> x == row || (x in rows && x.position != row.position)
  {
    if rows != [] {
      var front, last := rows[..|rows| - 1], Last(rows);
      assert rows == front + [last];
      OrderOfMore(front, last);
      if last.position < row.position {
        OrderOfMore(rows, row);
      } else if last.position == row.position {
        OrderOfMore(front, row);
      } else {
        PlaceKeepsOrder(front, row);
        OrderOfMore(Place(front, row), last);
      }
      hide ByPosition;
    }
  }

  /** No later row is of the same place. */
  ghost predicate IsLatest(details: seq<DetailRow>, x: DetailRow) {
    exists k :: 0 <= k < |details| && details[k] == x
      && forall l :: k < l < |details| ==> details[l].id != x.id || details[l].position != x.position
  }

  lemma {:induction false} LatestOfMore(front: seq<DetailRow>, last: DetailRow, x: DetailRow)
    ensures IsLatest(front + [last], x) <==>
      x == last || (IsLatest(front, x) && (last.id != x.id || last.position != x.position))
  {
    var details := front + [last];
    assert details[|front|] == last;
    assert forall k :: 0 <= k < |front| ==> details[k] == front[k];
    if IsLatest(details, x) && x != last {
      var k :| 0 <= k < |details| && details[k] == x
        && forall l :: k < l < |details| ==> details[l].id != x.id || details[l].position != x.position;
      assert front[k] == x;
    }
    if IsLatest(front, x) && (last.id != x.id || last.position != x.position) {
      var k :| 0 <= k < |front| && front[k] == x
        && forall l :: k < l < |front| ==> front[l].id != x.id || front[l].position != x.position;
      assert details[k] == x;
    }
  }

  /** Whatever the table, the rows read for a shift are by position, and for each
      position the last row the table has of it. */
  lemma {:induction false} RowsOfAreTheLatest(details: seq<DetailRow>, id: nat)
    ensures ByPosition(RowsOf(details, id))
    ensures forall x :: x in RowsOf(details, id) <==> x.id == id && IsLatest(details, x)
  {
    if details != [] {
      var front, last := details[..|details| - 1], Last(details);
      FrontAndLast(details);
      RowsOfAreTheLatest(front, id);
      forall x ensures IsLatest(details, x) <==>
        x == last || (IsLatest(front, x) && (last.id != x.id || last.position != x.position))
      {
        LatestOfMore(front, last, x);
      }
      hide IsLatest, ByPosition;
      if last.id == id {
        PlaceKeepsOrder(RowsOf(front, id), last);
      }
    }
  }

  /** The rows read for a shift are its rows, by position. */
  lemma {:induction false} RowsOfAreItsRows(details: seq<DetailRow>, id: nat)
    requires OnePerPlace(details)
    ensures ByPosition(RowsOf(details, id))
    ensures forall x :: x in RowsOf(details, id) <==> x in details && x.id == id
  {
    if details != [] {
      var front, last := details[..|details| - 1], Last(details);
      assert details == front + [last];
      assert forall x :: x in details <==> x in front || x == last;
      RowsOfAreItsRows(front, id);
      if last.id == id {
        PlaceKeepsOrder(RowsOf(front, id), last);
      }
    }
  }

  lemma LastIsGreatest(rows: seq<DetailRow>, x: DetailRow)
    requires ByPosition(rows) && x in rows
    ensures x.position <= Last(rows).position && (x.position == Last(rows).position ==> x == Last(rows))
    ensures x != Last(rows) ==> x in rows[..|rows| - 1]
  {
    var i :| 0 <= i < |rows| && rows[i] == x;
    if i < |rows| - 1 {
      assert rows[..|rows| - 1][i] == x;
    }
  }

  lemma HasFirst(rows: seq<DetailRow>)
    ensures rows != [] ==> exists x :: x in rows
  {
    if rows != [] {
      assert rows[0] in rows;
    }
  }

  /** Only one listing of the same rows is in order. */
  lemma {:induction false} OrderIsUnique(a: seq<DetailRow>, b: seq<DetailRow>)
    requires ByPosition(a) && ByPosition(b) && forall x :: x in a <==> x in b
    ensures a == b
  {
    if a == [] || b == [] {
      HasFirst(a);
      HasFirst(b);
    } else {
      var p, q := Last(a), Last(b);
      LastIsGreatest(a, q);
      LastIsGreatest(b, p);
      var c, d := a[..|a| - 1], b[..|b| - 1];
      forall x ensures x in c <==> x in d {
        if x in c {
          LastIsGreatest(b, x);
        }
        if x in d {
          LastIsGreatest(a, x);
        }
      }
      OrderIsUnique(c, d);
      assert a == c + [p] && b == d + [q];
    }
  }

  // ---- the round trip ----

  lemma {:induction false} DetailsAreTheShifts(shifts: seq<Shift>, row: DetailRow)
    ensures row in Details(shifts) <==> exists i :: 0 <= i < |shifts| && row in DetailsOf(shifts[i])
  {
    hide DetailsOf;
    if shifts != [] {
      var front := shifts[..|shifts| - 1];
      DetailsAreTheShifts(front, row);
      if i :| 0 <= i < |front| && row in DetailsOf(front[i]) {
        assert row in DetailsOf(shifts[i]);
      }
      if row in DetailsOf(Last(shifts)) {
        assert row in DetailsOf(shifts[|shifts| - 1]);
      }
    }
  }

  lemma {:induction false} DetailsOfShift(shifts: seq<Shift>, i: nat, row: DetailRow)
    requires DistinctIds(shifts) && i < |shifts|
    ensures row in DetailsOf(shifts[i]) <==> row in Details(shifts) && row.id == shifts[i].id
  {
    DetailsAreTheShifts(shifts, row);
  }

  lemma {:induction false} DetailsOnePerPlace(shifts: seq<Shift>)
    requires DistinctIds(shifts)
    ensures OnePerPlace(Details(shifts))
  {
    forall a, b | a in Details(shifts) && b in Details(shifts) && a.id == b.id && a.position == b.position
      ensures a == b
    {
      DetailsAreTheShifts(shifts, a);
      DetailsAreTheShifts(shifts, b);
    }
  }

  /** The details of a solution in any order. */
  ghost predicate SameRows(a: seq<DetailRow>, b: seq<DetailRow>) {
    forall row :: row in a <==> row in b
  }

  lemma {:induction false} RowsAreRecovered(shifts: seq<Shift>, details: seq<DetailRow>, i: nat)
    requires DistinctIds(shifts) && SameRows(details, Details(shifts)) && i < |shifts|
    ensures RowsOf(details, shifts[i].id) == DetailsOf(shifts[i])
  {
    DetailsOnePerPlace(shifts);
    RowsOfAreItsRows(details, shifts[i].id);
    forall row ensures row in RowsOf(details, shifts[i].id) <==> row in DetailsOf(shifts[i]) {
      DetailsOfShift(shifts, i, row);
    }
    OrderIsUnique(RowsOf(details, shifts[i].id), DetailsOf(shifts[i]));
  }

  /** Writing a solution and reading it back, with the rows of its stops in
      whatever order the table returns them, gives the same solution exactly
      when no shift is empty; otherwise it fails on an empty shift. */
  method RoundTrip(shifts: seq<Shift>, details: seq<DetailRow>) returns (r: Result<seq<Shift>, nat>)
    requires DistinctIds(shifts) && SameRows(details, Details(shifts))
    ensures r == Success(shifts) <==> forall i :: 0 <= i < |shifts| ==> shifts[i].route != []
    ensures r.Success? <==> r == Success(shifts)
    ensures r.Failure? ==> exists i :: 0 <= i < |shifts| && shifts[i].id == r.error && shifts[i].route == []
  {
    var infos, written := ToDict(shifts);
    r := FromDict(infos, details);
    forall i | 0 <= i < |shifts|
      ensures RowsOf(details, shifts[i].id) == DetailsOf(shifts[i])
      ensures ShiftFrom(InfoOf(shifts[i]), DetailsOf(shifts[i])) == shifts[i]
    {
      RowsAreRecovered(shifts, details, i);
      assert RouteOf(DetailsOf(shifts[i])) == shifts[i].route;
    }
    if r.Success? {
      assert r.value == shifts;
    }
  }

  /** One empty shift is written and cannot be read back. */
  method EmptyRouteExample() returns (r: Result<seq<Shift>, nat>)
    ensures r == Failure(1)
  {
    var empty := Shift(1, 0, 0, 0, 0, []);
    assert [empty][0].route == [];
    r := RoundTrip([empty], Details([empty]));
  }
}
