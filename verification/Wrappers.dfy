module Wrappers {
  datatype Option<+T> = None | Some(value: T)

  datatype Result<+T, +E> = Success(value: T) | Failure(error: E)

  /** Positions below n, each after the one before it. */
  ghost predicate Increasing(at: seq<nat>, n: nat) {
    && (forall m :: 0 <= m < |at| ==> at[m] < n)
    && forall l, m :: 0 <= l < m < |at| ==> at[l] < at[m]
  }

  lemma IncreasingMore(at: seq<nat>, n: nat)
    requires Increasing(at, n)
    ensures Increasing(at, n + 1) && Increasing(at + [n], n + 1) && n !in at
    ensures forall i :: i in at + [n] <==> i in at || i == n
  {
  }
}
