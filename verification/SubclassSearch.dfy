/** The search for all subclasses of a class in cornflow/shared/utils_tables.py. */
module SubclassSearch {
  import opened Wrappers
  import opened Permutations

  /** `c.__subclasses__()` for every class c. */
  type Hierarchy = map<nat, seq<nat>>

  /** A class lists its direct subclasses once each. */
  predicate ListsClasses(h: Hierarchy, c: nat) {
    c in h && (forall i :: 0 <= i < |h[c]| ==> h[c][i] in h)
    && forall i, j :: 0 <= i < j < |h[c]| ==> h[c][i] != h[c][j]
  }

  ghost predicate IsHierarchy(h: Hierarchy) {
    forall c {:trigger ListsClasses(h, c)} :: c in h ==> ListsClasses(h, c)
  }

  predicate IsParent(h: Hierarchy, c: nat, s: nat) {
    c in h && s in h[c]
  }

  /** A chain of one or more subclass steps. */
  ghost predicate IsChain(h: Hierarchy, chain: seq<nat>) {
    |chain| >= 2 && forall i {:trigger chain[i]} :: 0 <= i < |chain| - 1 ==> IsParent(h, chain[i], chain[i + 1])
  }

  ghost predicate Derives(h: Hierarchy, c: nat, s: nat) {
    exists chain :: IsChain(h, chain) && chain[0] == c && chain[|chain| - 1] == s
  }

  lemma DirectDerives(h: Hierarchy, c: nat, s: nat)
    requires IsParent(h, c, s)
    ensures Derives(h, c, s)
  {
    assert IsChain(h, [c, s]);
  }

  lemma StepDerives(h: Hierarchy, c: nat, m: nat, s: nat)
    requires Derives(h, c, m) && IsParent(h, m, s)
    ensures Derives(h, c, s)
  {
    var chain :| IsChain(h, chain) && chain[0] == c && chain[|chain| - 1] == m;
    var longer := chain + [s];
    forall i | 0 <= i < |longer| - 1 ensures IsParent(h, longer[i], longer[i + 1]) {
      if i < |chain| - 1 {
        assert longer[i] == chain[i] && longer[i + 1] == chain[i + 1];
      }
    }
    assert IsChain(h, longer);
  }

  /** A set that holds the direct subclasses and those of its members holds
      every subclass. */
  lemma {:induction false} ClosedHoldsChain(h: Hierarchy, s: set<nat>, chain: seq<nat>, n: nat)
    requires IsChain(h, chain) && 0 < n < |chain|
    requires forall x :: IsParent(h, chain[0], x) ==> x in s
    requires forall c, x :: c in s && IsParent(h, c, x) ==> x in s
    ensures chain[n] in s
  {
    assert IsParent(h, chain[n - 1], chain[n - 1 + 1]);
    if n > 1 {
      ClosedHoldsChain(h, s, chain, n - 1);
    }
  }

  lemma ClosedHoldsAll(h: Hierarchy, s: set<nat>, cls: nat)
    requires forall x :: IsParent(h, cls, x) ==> x in s
    requires forall c, x :: c in s && IsParent(h, c, x) ==> x in s
    ensures forall x :: Derives(h, cls, x) ==> x in s
  {
    forall x | Derives(h, cls, x) ensures x in s {
      var chain :| IsChain(h, chain) && chain[0] == cls && chain[|chain| - 1] == x;
      ClosedHoldsChain(h, s, chain, |chain| - 1);
    }
  }

  /** The breadth-first part: what it collects, and the order of the queue. */
  ghost predicate Searching(
    h: Hierarchy, cls: nat, queue: seq<nat>, visited: set<nat>, found: set<nat>, enqueued: seq<nat>)
  {
    && Distinct(enqueued) && |queue| <= |enqueued|
    && queue == enqueued[|enqueued| - |queue|..]
    && visited == Elements(enqueued) && visited <= h.Keys
    && found == Elements(enqueued[..|enqueued| - |queue|])
    && (forall x :: IsParent(h, cls, x) ==> x in visited)
    && (forall x :: x in visited ==> Derives(h, cls, x))
  }

  /** Appending a class that was not seen keeps the queue free of repetitions. */
  lemma Enqueue(h: Hierarchy, cls: nat, queue: seq<nat>, visited: set<nat>, found: set<nat>, enqueued: seq<nat>, s: nat)
    requires Searching(h, cls, queue, visited, found, enqueued)
    requires s in h && s !in visited && Derives(h, cls, s)
    ensures Searching(h, cls, queue + [s], visited + {s}, found, enqueued + [s])
  {
    hide Derives;
    var longer := enqueued + [s];
    assert longer[|longer| - |queue + [s]|..] == queue + [s];
    assert longer[..|longer| - |queue + [s]|] == enqueued[..|enqueued| - |queue|];
    assert Elements(longer) == Elements(enqueued) + {s};
  }

  lemma Dequeue(h: Hierarchy, cls: nat, queue: seq<nat>, visited: set<nat>, found: set<nat>, enqueued: seq<nat>)
    requires Searching(h, cls, queue, visited, found, enqueued) && queue != []
    ensures Searching(h, cls, queue[1..], visited, found + {queue[0]}, enqueued)
    ensures queue[0] in visited && queue[0] !in found
  {
    hide Derives;
    var n := |enqueued| - |queue|;
    assert enqueued[..n + 1] == enqueued[..n] + [queue[0]];
    assert enqueued[|enqueued| - |queue[1..]|..] == queue[1..];
    assert Elements(enqueued[..n + 1]) == Elements(enqueued[..n]) + {queue[0]};
  }

  lemma StartSearch(h: Hierarchy, cls: nat)
    requires IsHierarchy(h) && cls in h
    ensures Searching(h, cls, h[cls], Elements(h[cls]), {}, h[cls])
  {
    assert ListsClasses(h, cls);
    assert h[cls][..0] == [];
    forall x | x in h[cls] ensures Derives(h, cls, x) && x in h {
      assert IsParent(h, cls, x);
      DirectDerives(h, cls, x);
    }
  }

  datatype Value = NotAClass | AClass(c: nat)

  /** Step one: the given models that are the class or derive from it;
      `issubclass` answers true for the class itself. */
  method FilterModels(models: Option<seq<Value>>, subclasses: set<nat>) returns (filtered: set<nat>)
    ensures models == None ==> filtered == {}
    ensures models.Some? ==> forall c :: c in filtered <==> AClass(c) in models.value && c in subclasses
  {
    filtered := {};
    if models.Some? {
      for i := 0 to |models.value|
        invariant forall c :: c in filtered <==> AClass(c) in models.value[..i] && c in subclasses
      {
        assert models.value[..i + 1] == models.value[..i] + [models.value[i]];
        if models.value[i].AClass? && models.value[i].c in subclasses {
          filtered := filtered + {models.value[i].c};
        }
      }
      assert models.value[..|models.value|] == models.value;
    }
  }

  method Search(h: Hierarchy, cls: nat) returns (found: set<nat>, ghost enqueued: seq<nat>)
    requires IsHierarchy(h) && cls in h
    ensures Distinct(enqueued) && found == Elements(enqueued)
    ensures forall c :: c in found <==> Derives(h, cls, c)
  {
    hide Derives, ListsClasses;
    found := {};
    var queue := h[cls];
    var visited := set x | x in h[cls];
    enqueued := queue;
    StartSearch(h, cls);
    assert visited == Elements(h[cls]);
    while queue != []
      invariant Searching(h, cls, queue, visited, found, enqueued)
      invariant forall c, x :: c in found && IsParent(h, c, x) ==> x in visited
      decreases |h.Keys - found|
    {
      ghost var before := found;
      Dequeue(h, cls, queue, visited, found, enqueued);
      var current := queue[0];
      queue := queue[1..];
      found := found + {current};
      queue, visited, enqueued := EnqueueNew(h, cls, current, queue, visited, found, enqueued);
      assert h.Keys - before == (h.Keys - found) + {current};
    }
    assert enqueued[..|enqueued|] == enqueued;
    ClosedHoldsAll(h, found, cls);
  }

  /** The inner loop: the subclasses of the current class not seen before. */
  method EnqueueNew(h: Hierarchy, ghost cls: nat, current: nat, queue0: seq<nat>, visited0: set<nat>,
                    ghost found: set<nat>, ghost enqueued0: seq<nat>)
    returns (queue: seq<nat>, visited: set<nat>, ghost enqueued: seq<nat>)
    requires IsHierarchy(h) && Searching(h, cls, queue0, visited0, found, enqueued0) && current in visited0
    ensures Searching(h, cls, queue, visited, found, enqueued)
    ensures visited0 <= visited && forall x :: IsParent(h, current, x) ==> x in visited
  {
    hide Derives, Searching;
    queue, visited, enqueued := queue0, visited0, enqueued0;
    CurrentIsClass(h, cls, current, queue0, visited0, found, enqueued0);
    for i := 0 to |h[current]|
      invariant Searching(h, cls, queue, visited, found, enqueued) && visited0 <= visited
      invariant forall j :: 0 <= j < i ==> h[current][j] in visited
    {
      var s := h[current][i];
      if s !in visited {
        assert IsParent(h, current, s);
        StepDerives(h, cls, current, s);
        Enqueue(h, cls, queue, visited, found, enqueued, s);
        visited := visited + {s};
        queue := queue + [s];
        enqueued := enqueued + [s];
      }
    }
  }

  lemma CurrentIsClass(
    h: Hierarchy, cls: nat, current: nat, queue: seq<nat>, visited: set<nat>, found: set<nat>, enqueued: seq<nat>)
    requires IsHierarchy(h) && Searching(h, cls, queue, visited, found, enqueued) && current in visited
    ensures current in h && ListsClasses(h, current) && Derives(h, cls, current)
  {
  }

  /** `all_subclasses`: the classes reached by one or more subclass steps, each
      enqueued once, and the class itself exactly when the models list it. */
  method AllSubclasses(h: Hierarchy, cls: nat, models: Option<seq<Value>>, subclasses: set<nat>)
    returns (result: set<nat>, ghost enqueued: seq<nat>)
    requires IsHierarchy(h) && cls in h
    requires forall c :: c in subclasses <==> c == cls || Derives(h, cls, c)
    ensures forall c :: c in result <==> Derives(h, cls, c) || (c == cls && models.Some? && AClass(cls) in models.value)
    ensures Distinct(enqueued) && forall c :: c in enqueued <==> Derives(h, cls, c)
  {
    hide Derives;
    var filtered := FilterModels(models, subclasses);
    var found;
    found, enqueued := Search(h, cls);
    result := filtered + found;
  }
}
