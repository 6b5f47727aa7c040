/** Sums over finite sets of ids. */
module Sums {

  ghost function SumOver(s: set<nat>, f: nat -> int): int {
    if s == {} then 0 else
      var x :| x in s;
      f(x) + SumOver(s - {x}, f)
  }

  /** Any element may be taken out first. */
  lemma {:induction false} SumWithout(s: set<nat>, f: nat -> int, x: nat)
    requires x in s
    ensures SumOver(s, f) == f(x) + SumOver(s - {x}, f)
    decreases s
  {
    var y :| y in s && SumOver(s, f) == f(y) + SumOver(s - {y}, f);
    if y != x {
      SumWithout(s - {y}, f, x);
      SumWithout(s - {x}, f, y);
      assert s - {y} - {x} == s - {x} - {y};
    }
  }

  lemma {:induction false} SumSame(s: set<nat>, f: nat -> int, g: nat -> int)
    requires forall x :: x in s ==> f(x) == g(x)
    ensures SumOver(s, f) == SumOver(s, g)
    decreases s
  {
    if s != {} {
      var x :| x in s;
      SumWithout(s, f, x);
      SumWithout(s, g, x);
      SumSame(s - {x}, f, g);
    }
  }

  lemma {:induction false} SumOfSums(s: set<nat>, f: nat -> int, g: nat -> int)
    ensures SumOver(s, (x: nat) => f(x) + g(x)) == SumOver(s, f) + SumOver(s, g)
    decreases s
  {
    if s != {} {
      var x :| x in s;
      SumWithout(s, f, x);
      SumWithout(s, g, x);
      SumWithout(s, (y: nat) => f(y) + g(y), x);
      SumOfSums(s - {x}, f, g);
    }
  }

  lemma {:induction false} SumOfZeros(s: set<nat>, f: nat -> int)
    requires forall x :: x in s ==> f(x) == 0
    ensures SumOver(s, f) == 0
    decreases s
  {
    if s != {} {
      var x :| x in s;
      SumWithout(s, f, x);
      SumOfZeros(s - {x}, f);
    }
  }

  /** Terms of one sign that sum to nothing are nothing. */
  lemma {:induction false} SumOfSameSign(s: set<nat>, f: nat -> int)
    requires forall x :: x in s ==> f(x) <= 0
    ensures SumOver(s, f) <= 0
    ensures SumOver(s, f) == 0 <==> forall x :: x in s ==> f(x) == 0
    decreases s
  {
    if s != {} {
      var x :| x in s;
      SumWithout(s, f, x);
      SumOfSameSign(s - {x}, f);
    }
  }

  /** Changing f at one point changes the sum by as much, if the point counts. */
  lemma {:induction false} SumChangedAt(s: set<nat>, f: nat -> int, g: nat -> int, x: nat)
    requires forall y :: y in s && y != x ==> g(y) == f(y)
    ensures SumOver(s, g) == SumOver(s, f) + if x in s then g(x) - f(x) else 0
  {
    if x in s {
      SumWithout(s, f, x);
      SumWithout(s, g, x);
      SumSame(s - {x}, f, g);
    } else {
      SumSame(s, f, g);
    }
  }

  ghost function RowSum(t: set<nat>, f: (nat, nat) -> int, x: nat): int {
    SumOver(t, (y: nat) => f(x, y))
  }

  ghost function ColumnSum(s: set<nat>, f: (nat, nat) -> int, y: nat): int {
    SumOver(s, (x: nat) => f(x, y))
  }

  /** A double sum may be taken in either order. */
  lemma {:induction false} SumExchanged(s: set<nat>, t: set<nat>, f: (nat, nat) -> int)
    ensures SumOver(s, (x: nat) => RowSum(t, f, x)) == SumOver(t, (y: nat) => ColumnSum(s, f, y))
    decreases s
  {
    var rows, columns := (x: nat) => RowSum(t, f, x), (y: nat) => ColumnSum(s, f, y);
    if s == {} {
      SumOfZeros(t, columns);
    } else {
      var x :| x in s;
      var rest := s - {x};
      var row, others := (y: nat) => f(x, y), (y: nat) => ColumnSum(rest, f, y);
      SumWithout(s, rows, x);
      SumExchanged(rest, t, f);
      SumOfSums(t, row, others);
      forall y: nat ensures columns(y) == row(y) + others(y) {
        SumWithout(s, (z: nat) => f(z, y), x);
      }
      SumSame(t, columns, (y: nat) => row(y) + others(y));
    }
  }
}
