/** cornflow/models/case.py: cases and folders of cases kept as rows with
    materialized paths, against the forest of parent pointers they stand for. */
module CaseTree {
  import opened Wrappers
  import opened CasePaths

  /** A row is a folder when it has no data. */
  datatype Case = Case(path: string, isFolder: bool)

  type Table = map<nat, Case>

  // ---- the forest ----

  type Forest = map<nat, Option<nat>>

  /** The k-th ancestor of a node, the node itself being the 0-th. */
  ghost function AncestorAt(parent: Forest, id: nat, k: nat): Option<nat>
    decreases k
  {
    if id !in parent then None
    else if k == 0 then Some(id)
    else match parent[id]
      case None => None
      case Some(p) => AncestorAt(parent, p, k - 1)
  }

  ghost predicate IsDescendant(parent: Forest, id: nat, a: nat) {
    exists k: nat :: k > 0 && AncestorAt(parent, id, k) == Some(a)
  }

  /** The stored path is that of the parent, then the parent's id. */
  ghost predicate PathFollowsParent(parent: Forest, rows: Table, id: nat)
    requires id in parent && id in rows
  {
    match parent[id]
    case None => rows[id].path == ""
    case Some(p) => p in rows && rows[id].path == ChildPath(rows[p].path, p)
  }

  /** Every stored path is the chain of ancestors of its row. Paths only grow
      towards the leaves, so this leaves no room for a cycle. */
  ghost predicate Represents(parent: Forest, rows: Table) {
    && parent.Keys == rows.Keys
    && forall id {:trigger PathFollowsParent(parent, rows, id)} :: id in rows ==> PathFollowsParent(parent, rows, id)
  }

  lemma {:induction false} StoredPath(parent: Forest, rows: Table, id: nat)
    requires Represents(parent, rows) && id in rows
    ensures Closed(rows[id].path) && NoWildcard(rows[id].path)
    decreases |rows[id].path|
  {
    assert PathFollowsParent(parent, rows, id);
    match parent[id]
    case None =>
    case Some(p) =>
      StoredPath(parent, rows, p);
      StrHasNoWildcard(p);
  }

  /** The paths say which forest they stand for. */
  lemma TableDeterminesForest(parent: Forest, other: Forest, rows: Table)
    requires Represents(parent, rows) && Represents(other, rows)
    ensures parent == other
  {
    forall id | id in rows ensures parent[id] == other[id] {
      assert PathFollowsParent(parent, rows, id) && PathFollowsParent(other, rows, id);
      if parent[id].Some? && other[id].Some? {
        var p, q := parent[id].value, other[id].value;
        StoredPath(parent, rows, p);
        StoredPath(parent, rows, q);
        ChildPathIsInjective(rows[p].path, p, rows[q].path, q);
      }
    }
  }

  /** The forest says what every path must be. */
  lemma {:induction false} ForestDeterminesPath(parent: Forest, rows: Table, other: Table, id: nat)
    requires Represents(parent, rows) && Represents(parent, other) && id in rows
    ensures rows[id].path == other[id].path
    decreases |rows[id].path|
  {
    assert PathFollowsParent(parent, rows, id) && PathFollowsParent(parent, other, id);
    match parent[id]
    case None =>
    case Some(p) => ForestDeterminesPath(parent, rows, other, p);
  }

  // ---- descendants and depth ----

  /** The prefix the `descendants` relationship searches for. */
  function SearchPrefix(rows: Table, id: nat): string
    requires id in rows
  {
    ChildPath(rows[id].path, id)
  }

  /** `self.descendants` */
  function Descendants(rows: Table, id: nat): set<nat>
    requires id in rows
  {
    set d | d in rows && Like(rows[d].path, SearchPrefix(rows, id) + "%")
  }

  lemma {:induction false} DescendantHasPrefix(parent: Forest, rows: Table, d: nat, a: nat, k: nat)
    requires Represents(parent, rows) && d in rows && k > 0
    requires AncestorAt(parent, d, k) == Some(a)
    ensures a in rows && SearchPrefix(rows, a) <= rows[d].path
    decreases k
  {
    assert PathFollowsParent(parent, rows, d);
    var p := parent[d].value;
    if k > 1 {
      DescendantHasPrefix(parent, rows, p, a, k - 1);
      assert rows[p].path <= rows[d].path;
    }
  }

  lemma {:induction false} PrefixIsDescendant(parent: Forest, rows: Table, d: nat, a: nat)
    requires Represents(parent, rows) && d in rows && a in rows
    requires SearchPrefix(rows, a) <= rows[d].path
    ensures IsDescendant(parent, d, a)
    decreases |rows[d].path|
  {
    assert PathFollowsParent(parent, rows, d);
    var p := parent[d].value;
    StoredPath(parent, rows, p);
    StoredPath(parent, rows, a);
    ClosedPrefix(SearchPrefix(rows, a), rows[p].path, p);
    if SearchPrefix(rows, a) == rows[d].path {
      ChildPathIsInjective(rows[a].path, a, rows[p].path, p);
      assert AncestorAt(parent, p, 0) == Some(a);
      assert AncestorAt(parent, d, 1) == Some(a);
    } else {
      PrefixIsDescendant(parent, rows, p, a);
      var k: nat :| k > 0 && AncestorAt(parent, p, k) == Some(a);
      assert AncestorAt(parent, d, k + 1) == Some(a);
    }
  }

  /** The LIKE query selects exactly the proper descendants. */
  lemma QuerySelectsDescendants(parent: Forest, rows: Table, d: nat, a: nat)
    requires Represents(parent, rows) && a in rows
    ensures d in Descendants(rows, a) <==> d in rows && IsDescendant(parent, d, a)
  {
    if d in rows {
      StoredPath(parent, rows, a);
      StrHasNoWildcard(a);
      LikeIsPrefix(rows[d].path, SearchPrefix(rows, a));
      if SearchPrefix(rows, a) <= rows[d].path {
        PrefixIsDescendant(parent, rows, d, a);
      }
      if IsDescendant(parent, d, a) {
        var k: nat :| k > 0 && AncestorAt(parent, d, k) == Some(a);
        DescendantHasPrefix(parent, rows, d, a, k);
      }
    }
  }

  /** `depth` */
  function Depth(rows: Table, id: nat): nat
    requires id in rows
  {
    |Split(rows[id].path)|
  }

  /** The depth is the number of ancestors plus one. */
  lemma {:induction false} DepthCountsAncestors(parent: Forest, rows: Table, id: nat)
    requires Represents(parent, rows) && id in rows
    ensures Depth(rows, id) >= 1
    ensures AncestorAt(parent, id, Depth(rows, id) - 1).Some?
    ensures AncestorAt(parent, id, Depth(rows, id)).None?
    decreases |rows[id].path|
  {
    assert PathFollowsParent(parent, rows, id);
    match parent[id]
    case None =>
      assert AncestorAt(parent, id, 1) == None;
    case Some(p) =>
      DepthCountsAncestors(parent, rows, p);
      SplitOfChild(rows[p].path, p);
      assert Depth(rows, id) == Depth(rows, p) + 1;
  }

  // ---- what the operations do to the table ----

  datatype CaseError = ParentDoesNotExist | ParentIsNotAFolder

  function Created(rows: Table, id: nat, parentId: Option<nat>, isFolder: bool): Table
    requires parentId.Some? ==> parentId.value in rows
  {
    rows[id := Case(PathUnder(rows, parentId), isFolder)]
  }

  function PathUnder(rows: Table, parentId: Option<nat>): string
    requires parentId.Some? ==> parentId.value in rows
  {
    match parentId
    case None => ""
    case Some(p) => ChildPath(rows[p].path, p)
  }

  /** The root's path is empty; below, the path is the parent's, then its id in
      decimal and a slash. */
  ghost predicate IsPathUnder(rows: Table, parentId: Option<nat>, path: string) {
    match parentId
    case None => path == ""
    case Some(p) => p in rows && exists digits :: IsDecimal(digits, p) && path == rows[p].path + digits + "/"
  }

  lemma PathUnderIs(rows: Table, parentId: Option<nat>)
    requires parentId.Some? ==> parentId.value in rows
    ensures IsPathUnder(rows, parentId, PathUnder(rows, parentId))
  {
    if parentId.Some? {
      StrIsDecimal(parentId.value);
    }
  }

  function Drop(s: string, n: nat): string {
    if n <= |s| then s[n..] else ""
  }

  /** The moved row gets the path under its new parent; each of its descendants
      has that path put in the place of the moved row's old one. */
  function Moved(rows: Table, id: nat, newParent: Option<nat>): Table
    requires id in rows && (newParent.Some? ==> newParent.value in rows)
  {
    var newPath := PathUnder(rows, newParent);
    map d | d in rows ::
      if d == id then rows[d].(path := newPath)
      else if d in Descendants(rows, id) then rows[d].(path := newPath + Drop(rows[d].path, |rows[id].path|))
      else rows[d]
  }

  function Deleted(rows: Table, id: nat): Table
    requires id in rows
  {
    rows - Descendants(rows, id) - {id}
  }

  /** `patch`, as far as it makes a folder of a case or gives a folder data. */
  function Patched(rows: Table, id: nat, isFolder: bool): Table
    requires id in rows
  {
    rows[id := rows[id].(isFolder := isFolder)]
  }

  /** Moving makes sense when the new parent lies outside the moved subtree. */
  ghost predicate MoveAllowed(parent: Forest, id: nat, newParent: Option<nat>) {
    newParent.Some? ==> newParent.value != id && !IsDescendant(parent, newParent.value, id)
  }

  // ---- and that it is what the forest calls for ----

  lemma ChildIsDescendant(parent: Forest, d: nat, p: nat, a: nat)
    requires d in parent && p in parent && parent[d] == Some(p)
    ensures IsDescendant(parent, d, a) <==> p == a || IsDescendant(parent, p, a)
  {
    if p == a {
      assert AncestorAt(parent, p, 0) == Some(a);
      assert AncestorAt(parent, d, 1) == Some(a);
    }
    if IsDescendant(parent, p, a) {
      var k: nat :| k > 0 && AncestorAt(parent, p, k) == Some(a);
      assert AncestorAt(parent, d, k + 1) == Some(a);
    }
    if IsDescendant(parent, d, a) {
      var k: nat :| k > 0 && AncestorAt(parent, d, k) == Some(a);
      assert AncestorAt(parent, p, k - 1) == Some(a);
    }
  }

  lemma RootIsNoDescendant(parent: Forest, d: nat, a: nat)
    requires d in parent && parent[d] == None
    ensures !IsDescendant(parent, d, a)
  {
  }

  lemma CreateAddsLeaf(parent: Forest, rows: Table, id: nat, parentId: Option<nat>, isFolder: bool)
    requires Represents(parent, rows) && id !in rows
    requires parentId.Some? ==> parentId.value in rows
    ensures Represents(parent[id := parentId], Created(rows, id, parentId, isFolder))
  {
    var added := Created(rows, id, parentId, isFolder);
    forall d | d in added ensures PathFollowsParent(parent[id := parentId], added, d) {
      assert d != id ==> PathFollowsParent(parent, rows, d);
    }
  }

  /** A row outside the subtree keeps its path, and so does its parent. */
  lemma MovedOutside(parent: Forest, rows: Table, id: nat, newParent: Option<nat>, d: nat)
    requires Represents(parent, rows) && id in rows && (newParent.Some? ==> newParent.value in rows)
    requires d in rows && d != id && !IsDescendant(parent, d, id)
    ensures Moved(rows, id, newParent)[d] == rows[d]
    ensures parent[d].Some? ==> parent[d].value in rows
    ensures parent[d].Some? ==> Moved(rows, id, newParent)[parent[d].value] == rows[parent[d].value]
  {
    assert PathFollowsParent(parent, rows, d);
    QuerySelectsDescendants(parent, rows, d, id);
    if parent[d].Some? {
      ChildIsDescendant(parent, d, parent[d].value, id);
      QuerySelectsDescendants(parent, rows, parent[d].value, id);
    }
  }

  lemma MovedInside(parent: Forest, rows: Table, id: nat, newParent: Option<nat>, d: nat)
    requires Represents(parent, rows) && id in rows && (newParent.Some? ==> newParent.value in rows)
    requires d in rows && d != id && IsDescendant(parent, d, id)
    ensures parent[d].Some? && parent[d].value in rows
    ensures Moved(rows, id, newParent)[d].path
         == ChildPath(Moved(rows, id, newParent)[parent[d].value].path, parent[d].value)
  {
    hide Like, Str, Digit, AncestorAt;
    assert PathFollowsParent(parent, rows, d);
    if parent[d] == None {
      RootIsNoDescendant(parent, d, id);
      assert false;
    }
    var p := parent[d].value;
    var n := |rows[id].path|;
    var newPath := PathUnder(rows, newParent);
    ChildIsDescendant(parent, d, p, id);
    QuerySelectsDescendants(parent, rows, d, id);
    QuerySelectsDescendants(parent, rows, p, id);
    assert rows[id].path <= rows[p].path by {
      if p != id {
        var k: nat :| k > 0 && AncestorAt(parent, p, k) == Some(id);
        DescendantHasPrefix(parent, rows, p, id, k);
      }
    }
    assert rows[d].path[n..] == ChildPath(rows[p].path[n..], p);
    assert newPath + ChildPath(rows[p].path[n..], p) == ChildPath(newPath + rows[p].path[n..], p);
    assert p == id ==> newPath + rows[p].path[n..] == newPath;
  }

  lemma MoveReparents(parent: Forest, rows: Table, id: nat, newParent: Option<nat>)
    requires Represents(parent, rows) && id in rows && (newParent.Some? ==> newParent.value in rows)
    requires MoveAllowed(parent, id, newParent)
    ensures Represents(parent[id := newParent], Moved(rows, id, newParent))
    ensures forall d :: d in rows && d != id && !IsDescendant(parent, d, id)
              ==> Moved(rows, id, newParent)[d] == rows[d]
  {
    hide Like, Str, Digit, AncestorAt;
    var moved := Moved(rows, id, newParent);
    forall d | d in rows && d != id && !IsDescendant(parent, d, id) ensures moved[d] == rows[d] {
      MovedOutside(parent, rows, id, newParent, d);
    }
    forall d | d in moved ensures PathFollowsParent(parent[id := newParent], moved, d) {
      if d == id {
        if newParent.Some? {
          MovedOutside(parent, rows, id, newParent, newParent.value);
        }
      } else if IsDescendant(parent, d, id) {
        MovedInside(parent, rows, id, newParent, d);
      } else {
        assert PathFollowsParent(parent, rows, d);
        MovedOutside(parent, rows, id, newParent, d);
      }
    }
  }

  /** The code does not check the new parent. A move into the moved subtree
      leaves a table that stands for no forest at all. */
  lemma MoveIntoSubtreeBreaksTable(parent: Forest, rows: Table, id: nat, newParent: Option<nat>, other: Forest)
    requires Represents(parent, rows) && id in rows && (newParent.Some? ==> newParent.value in rows)
    requires !MoveAllowed(parent, id, newParent)
    ensures !Represents(other, Moved(rows, id, newParent))
  {
    var moved := Moved(rows, id, newParent);
    if Represents(other, moved) {
      var p := newParent.value;
      assert PathFollowsParent(other, moved, id);
      var q := other[id].value;
      QuerySelectsDescendants(parent, rows, p, id);
      StoredPath(other, moved, q);
      StoredPath(parent, rows, p);
      ChildPathIsInjective(moved[q].path, q, rows[p].path, p);
      assert false;
    }
  }

  /** Exactly when a move keeps the table a forest. */
  lemma MoveKeepsForestIff(parent: Forest, rows: Table, id: nat, newParent: Option<nat>)
    requires Represents(parent, rows) && id in rows && (newParent.Some? ==> newParent.value in rows)
    ensures (exists other :: Represents(other, Moved(rows, id, newParent))) <==> MoveAllowed(parent, id, newParent)
  {
    if MoveAllowed(parent, id, newParent) {
      MoveReparents(parent, rows, id, newParent);
    } else {
      forall other ensures !Represents(other, Moved(rows, id, newParent)) {
        MoveIntoSubtreeBreaksTable(parent, rows, id, newParent, other);
      }
    }
  }

  /** Deleting removes the subtree and nothing else, and what is left is the
      forest without it. */
  lemma DeleteRemovesSubtree(parent: Forest, rows: Table, id: nat)
    requires Represents(parent, rows) && id in rows
    ensures forall d :: d in Deleted(rows, id) <==> d in rows && d != id && !IsDescendant(parent, d, id)
    ensures forall d :: d in Deleted(rows, id) ==> Deleted(rows, id)[d] == rows[d]
    ensures Represents(map d | d in Deleted(rows, id) :: parent[d], Deleted(rows, id))
  {
    var left := Deleted(rows, id);
    forall d ensures d in left <==> d in rows && d != id && !IsDescendant(parent, d, id) {
      QuerySelectsDescendants(parent, rows, d, id);
    }
    var rest := map d | d in left :: parent[d];
    forall d | d in left ensures PathFollowsParent(rest, left, d) {
      assert PathFollowsParent(parent, rows, d);
      if parent[d].Some? {
        ChildIsDescendant(parent, d, parent[d].value, id);
      }
    }
  }

  // ---- cases lie in folders ----

  /** No case with data has children. */
  ghost predicate InFolders(parent: Forest, rows: Table) {
    forall id :: id in parent && parent[id].Some? ==> parent[id].value in rows && rows[parent[id].value].isFolder
  }

  /** What `from_parent_id` asks of a parent, and `move_to` does not. */
  predicate IsFolder(rows: Table, parentId: Option<nat>) {
    parentId.Some? ==> parentId.value in rows && rows[parentId.value].isFolder
  }

  lemma {:induction false} CreateKeepsFoldersIff(
    parent: Forest, rows: Table, id: nat, parentId: Option<nat>, isFolder: bool)
    requires parent.Keys == rows.Keys && InFolders(parent, rows) && id !in rows
    requires parentId.Some? ==> parentId.value in rows
    ensures InFolders(parent[id := parentId], Created(rows, id, parentId, isFolder)) <==> IsFolder(rows, parentId)
  {
    assert parent[id := parentId][id] == parentId;
    forall d | d in parent ensures parent[id := parentId][d] == parent[d] {}
  }

  lemma {:induction false} MoveKeepsFoldersIff(parent: Forest, rows: Table, id: nat, newParent: Option<nat>)
    requires parent.Keys == rows.Keys && InFolders(parent, rows) && id in rows
    requires newParent.Some? ==> newParent.value in rows
    ensures InFolders(parent[id := newParent], Moved(rows, id, newParent)) <==> IsFolder(rows, newParent)
  {
    var moved := Moved(rows, id, newParent);
    assert moved.Keys == rows.Keys && forall d :: d in rows ==> moved[d].isFolder == rows[d].isFolder;
    hide Moved;
    assert parent[id := newParent][id] == newParent;
    forall d | d in parent && d != id ensures parent[id := newParent][d] == parent[d] {}
  }

  /** Somewhere on the way up to an ancestor is one of its children. */
  lemma {:induction false} AncestorHasChild(parent: Forest, d: nat, a: nat, k: nat)
    requires k > 0 && AncestorAt(parent, d, k) == Some(a)
    ensures exists child :: child in parent && parent[child] == Some(a)
    decreases k
  {
    assert d in parent && parent[d].Some?;
    var p := parent[d].value;
    if k == 1 {
      assert AncestorAt(parent, p, 0) == Some(a);
      assert d in parent && parent[d] == Some(a);
    } else {
      AncestorHasChild(parent, p, a, k - 1);
    }
  }

  /** The query is empty exactly for a case without children. */
  lemma {:induction false} NoDescendantsIff(parent: Forest, rows: Table, id: nat)
    requires Represents(parent, rows) && id in rows
    ensures Descendants(rows, id) == {} <==> forall child :: child in parent ==> parent[child] != Some(id)
  {
    hide Descendants;
    forall d | d in parent && parent[d] == Some(id) ensures d in Descendants(rows, id) {
      ChildIsDescendant(parent, d, id, id);
      QuerySelectsDescendants(parent, rows, d, id);
    }
    forall d | d in Descendants(rows, id)
      ensures exists child :: child in parent && parent[child] == Some(id)
    {
      QuerySelectsDescendants(parent, rows, d, id);
      var k: nat :| k > 0 && AncestorAt(parent, d, k) == Some(id);
      AncestorHasChild(parent, d, id, k);
    }
  }

  /** A patch keeps it so exactly when it leaves a folder, or a case without
      descendants. */
  lemma {:induction false} PatchKeepsFoldersIff(parent: Forest, rows: Table, id: nat, isFolder: bool)
    requires Represents(parent, rows) && InFolders(parent, rows) && id in rows
    ensures InFolders(parent, Patched(rows, id, isFolder)) <==> isFolder || Descendants(rows, id) == {}
  {
    hide Represents, Descendants;
    NoDescendantsIff(parent, rows, id);
  }

  /** A patch of the data moves no row. */
  lemma PatchKeepsForest(parent: Forest, rows: Table, id: nat, isFolder: bool)
    requires Represents(parent, rows) && id in rows
    ensures Represents(parent, Patched(rows, id, isFolder))
  {
    var patched := Patched(rows, id, isFolder);
    forall d | d in patched ensures PathFollowsParent(parent, patched, d) {
      assert PathFollowsParent(parent, rows, d);
    }
  }

  lemma {:induction false} DeleteKeepsFolders(parent: Forest, rows: Table, id: nat)
    requires Represents(parent, rows) && InFolders(parent, rows) && id in rows
    ensures InFolders(map d | d in Deleted(rows, id) :: parent[d], Deleted(rows, id))
  {
    DeleteRemovesSubtree(parent, rows, id);
    var rest := map d | d in Deleted(rows, id) :: parent[d];
    forall d | d in rest && rest[d].Some?
      ensures rest[d].value in Deleted(rows, id) && Deleted(rows, id)[rest[d].value].isFolder
    {
      assert PathFollowsParent(rest, Deleted(rows, id), d);
    }
  }

  // ---- the operations ----

  class CaseTable {
    var rows: Table
    ghost var parent: Forest

    ghost predicate Valid()
      reads this
    {
      Represents(parent, rows)
    }

    constructor ()
      ensures Valid() && rows == map[]
    {
      rows, parent := map[], map[];
    }

    /** `from_parent_id` and `__init__`; the database chooses `id`. */
    method FromParentId(id: nat, parentId: Option<nat>, isFolder: bool) returns (r: Result<nat, CaseError>)
      requires Valid() && id !in rows
      modifies this
      ensures Valid()
      ensures match r
        case Failure(ParentDoesNotExist) => parentId.Some? && parentId.value !in old(rows)
        case Failure(ParentIsNotAFolder) =>
          parentId.Some? && parentId.value in old(rows) && !old(rows)[parentId.value].isFolder
        case Success(newId) =>
          && newId == id
          && (parentId.Some? ==> parentId.value in old(rows) && old(rows)[parentId.value].isFolder)
          && rows == Created(old(rows), id, parentId, isFolder)
          && parent == old(parent)[id := parentId]
      ensures r.Success? ==> IsPathUnder(old(rows), parentId, rows[id].path)
      ensures r.Failure? ==> rows == old(rows) && parent == old(parent)
      ensures old(InFolders(parent, rows)) ==> InFolders(parent, rows)
    {
      var path := "";
      if parentId.Some? {
        if parentId.value !in rows {
          return Failure(ParentDoesNotExist);
        }
        var p := rows[parentId.value];
        if !p.isFolder {
          return Failure(ParentIsNotAFolder);
        }
        if p.path == "" {
          path := Str(parentId.value) + [SEPARATOR];
        } else {
          path := p.path + Str(parentId.value) + [SEPARATOR];
        }
      }
      CreateAddsLeaf(parent, rows, id, parentId, isFolder);
      assert path == PathUnder(rows, parentId);
      if InFolders(parent, rows) {
        CreateKeepsFoldersIff(parent, rows, id, parentId, isFolder);
      }
      PathUnderIs(rows, parentId);
      rows, parent := rows[id := Case(path, isFolder)], parent[id := parentId];
      r := Success(id);
    }

    /** `move_to` */
    method MoveTo(id: nat, newParent: Option<nat>)
      requires Valid() && id in rows && (newParent.Some? ==> newParent.value in rows)
      modifies this
      ensures rows == Moved(old(rows), id, newParent) && IsPathUnder(old(rows), newParent, rows[id].path)
      ensures MoveAllowed(old(parent), id, newParent) ==> Valid() && parent == old(parent)[id := newParent]
      ensures !MoveAllowed(old(parent), id, newParent) ==> forall other :: !Represents(other, rows)
      ensures old(InFolders(parent, rows)) ==> (InFolders(parent, rows) <==> IsFolder(old(rows), newParent))
    {
      var newPath := if newParent.None? then "" else
        rows[newParent.value].path + Str(newParent.value) + [SEPARATOR];
      var todo := Descendants(rows, id);
      ghost var before, all := rows, todo;
      QuerySelectsDescendants(parent, rows, id, id);
      OwnPathIsShorter(parent, rows, id);
      while todo != {}
        invariant todo <= all && rows.Keys == before.Keys && parent == old(parent)
        invariant forall d :: d in rows ==>
            rows[d] == if d in all - todo then before[d].(path := newPath + Drop(before[d].path, |before[id].path|))
                       else before[d]
      {
        var n :| n in todo;
        rows := rows[n := rows[n].(path := newPath + Drop(rows[n].path, |rows[id].path|))];
        todo := todo - {n};
      }
      rows := rows[id := rows[id].(path := newPath)];
      assert rows == Moved(before, id, newParent);
      PathUnderIs(before, newParent);
      MoveKeepsForestIff(parent, before, id, newParent);
      if MoveAllowed(parent, id, newParent) {
        MoveReparents(parent, before, id, newParent);
      }
      if InFolders(parent, before) {
        MoveKeepsFoldersIff(parent, before, id, newParent);
      }
      parent := parent[id := newParent];
    }

    /** `patch`; `patched` tells whether the patched data is null, and is None
        when the patch does not apply to the data. */
    method Patch(id: nat, patched: Option<bool>) returns (applied: bool)
      requires Valid() && id in rows
      modifies this
      ensures Valid() && parent == old(parent)
      ensures applied == patched.Some?
      ensures rows.Keys == old(rows).Keys
      ensures forall d :: d in rows ==> rows[d].path == old(rows)[d].path
      ensures forall d :: d in rows && d != id ==> rows[d] == old(rows)[d]
      ensures rows[id].isFolder == if applied then patched.value else old(rows)[id].isFolder
      ensures applied && old(InFolders(parent, rows)) ==>
          (InFolders(parent, rows) <==> patched.value || Descendants(old(rows), id) == {})
    {
      if patched.None? {
        return false;
      }
      PatchKeepsForest(parent, rows, id, patched.value);
      if InFolders(parent, rows) {
        PatchKeepsFoldersIff(parent, rows, id, patched.value);
      }
      rows := rows[id := rows[id].(isFolder := patched.value)];
      return true;
    }

    /** `delete` */
    method Delete(id: nat)
      requires Valid() && id in rows
      modifies this
      ensures Valid()
      ensures forall d :: d in rows <==> d in old(rows) && d != id && !IsDescendant(old(parent), d, id)
      ensures forall d :: d in rows ==> rows[d] == old(rows)[d] && parent[d] == old(parent)[d]
      ensures old(InFolders(parent, rows)) ==> InFolders(parent, rows)
    {
      var todo := Descendants(rows, id);
      ghost var before, all := rows, todo;
      while todo != {}
        invariant todo <= all && parent == old(parent)
        invariant rows == before - (all - todo)
      {
        var n :| n in todo;
        rows := rows - {n};
        todo := todo - {n};
      }
      rows := rows - {id};
      assert rows == Deleted(before, id);
      DeleteRemovesSubtree(parent, before, id);
      if InFolders(parent, before) {
        DeleteKeepsFolders(parent, before, id);
      }
      parent := map d | d in rows :: parent[d];
    }
  }

  lemma OwnPathIsShorter(parent: Forest, rows: Table, id: nat)
    requires Represents(parent, rows) && id in rows
    ensures id !in Descendants(rows, id)
  {
    StoredPath(parent, rows, id);
    StrHasNoWildcard(id);
    LikeIsPrefix(rows[id].path, SearchPrefix(rows, id));
  }

  // ---- every run ----

  datatype Operation =
    | Create(id: nat, parentId: Option<nat>, isFolder: bool)
    | Move(id: nat, newParent: Option<nat>)
    | Patch(id: nat, isFolder: bool)
    | Delete(id: nat)

  function Apply(rows: Table, op: Operation): Table
    requires Callable(rows, op)
  {
    match op
    case Create(id, parentId, isFolder) => Created(rows, id, parentId, isFolder)
    case Move(id, newParent) => Moved(rows, id, newParent)
    case Patch(id, isFolder) => Patched(rows, id, isFolder)
    case Delete(id) => Deleted(rows, id)
  }

  predicate Callable(rows: Table, op: Operation) {
    match op
    case Create(id, parentId, _) => id !in rows && (parentId.Some? ==> parentId.value in rows)
    case Move(id, newParent) => id in rows && (newParent.Some? ==> newParent.value in rows)
    case Patch(id, _) => id in rows
    case Delete(id) => id in rows
  }

  /** One operation, on the table and on the parent pointers alike. Moves into
      the moved subtree are left out. */
  ghost predicate Steps(before: Table, forest: Forest, op: Operation, rows: Table, parent: Forest) {
    && Callable(before, op)
    && rows == Apply(before, op)
    && (op.Create? ==> parent == forest[op.id := op.parentId])
    && (op.Move? ==> MoveAllowed(forest, op.id, op.newParent) && parent == forest[op.id := op.newParent])
    && (op.Patch? ==> parent == forest)
    && (op.Delete? ==> parent == map d | d in forest && d != op.id && !IsDescendant(forest, d, op.id) :: forest[d])
  }

  /** A run from the empty table reaches `rows`, and `parent` on pointers. */
  ghost predicate RunReaches(run: seq<Operation>, rows: Table, parent: Forest)
    decreases |run|, 0
  {
    if run == [] then rows == map[] && parent == map[]
    else RunExtends(run[..|run| - 1], run[|run| - 1], rows, parent)
  }

  ghost predicate RunExtends(run: seq<Operation>, op: Operation, rows: Table, parent: Forest)
    decreases |run|, 1
  {
    exists before, forest :: RunReaches(run, before, forest) && Steps(before, forest, op, rows, parent)
  }

  lemma StepKeepsForest(before: Table, forest: Forest, op: Operation, rows: Table, parent: Forest)
    requires Represents(forest, before) && Steps(before, forest, op, rows, parent)
    ensures Represents(parent, rows)
  {
    match op
    case Create(id, parentId, isFolder) => CreateAddsLeaf(forest, before, id, parentId, isFolder);
    case Move(id, newParent) => MoveReparents(forest, before, id, newParent);
    case Patch(id, isFolder) => PatchKeepsForest(forest, before, id, isFolder);
    case Delete(id) =>
      DeleteRemovesSubtree(forest, before, id);
      assert parent == map d | d in Deleted(before, id) :: forest[d];
  }

  /** After every run the stored paths are those of the forest that the same
      operations build on parent pointers. */
  lemma {:induction false} EveryRunRepresents(run: seq<Operation>, rows: Table, parent: Forest)
    requires RunReaches(run, rows, parent)
    ensures Represents(parent, rows)
    decreases |run|
  {
    if run != [] {
      var prior, op := run[..|run| - 1], run[|run| - 1];
      var before, forest :| RunReaches(prior, before, forest) && Steps(before, forest, op, rows, parent);
      EveryRunRepresents(prior, before, forest);
      StepKeepsForest(before, forest, op, rows, parent);
    }
  }

  // ---- runs and folders ----

  /** A creation or a move that names a folder, or no parent; a patch that
      leaves a folder, or a case without descendants. */
  predicate KeepsFolders(rows: Table, op: Operation)
    requires Callable(rows, op)
  {
    match op
    case Create(_, parentId, _) => IsFolder(rows, parentId)
    case Move(_, newParent) => IsFolder(rows, newParent)
    case Patch(id, isFolder) => isFolder || Descendants(rows, id) == {}
    case Delete(_) => true
  }

  /** A run after each step of which all cases lie in folders. */
  ghost predicate StaysInFolders(run: seq<Operation>, rows: Table, parent: Forest)
    decreases |run|, 0
  {
    if run == [] then RunReaches(run, rows, parent)
    else InFolders(parent, rows) && StaysWith(run[..|run| - 1], run[|run| - 1], rows, parent)
  }

  ghost predicate StaysWith(run: seq<Operation>, op: Operation, rows: Table, parent: Forest)
    decreases |run|, 1
  {
    exists before, forest :: StaysInFolders(run, before, forest) && Steps(before, forest, op, rows, parent)
  }

  /** A run of such operations. */
  ghost predicate AlwaysKeepsFolders(run: seq<Operation>, rows: Table, parent: Forest)
    decreases |run|, 0
  {
    if run == [] then RunReaches(run, rows, parent) else KeepsWith(run[..|run| - 1], run[|run| - 1], rows, parent)
  }

  ghost predicate KeepsWith(run: seq<Operation>, op: Operation, rows: Table, parent: Forest)
    decreases |run|, 1
  {
    exists before, forest ::
      AlwaysKeepsFolders(run, before, forest) && Steps(before, forest, op, rows, parent) && KeepsFolders(before, op)
  }

  lemma {:induction false} StepKeepsFoldersIff(
    before: Table, forest: Forest, op: Operation, rows: Table, parent: Forest)
    requires Represents(forest, before) && InFolders(forest, before) && Steps(before, forest, op, rows, parent)
    ensures InFolders(parent, rows) <==> KeepsFolders(before, op)
  {
    match op
    case Create(id, parentId, isFolder) => CreateKeepsFoldersIff(forest, before, id, parentId, isFolder);
    case Move(id, newParent) => MoveKeepsFoldersIff(forest, before, id, newParent);
    case Patch(id, isFolder) => PatchKeepsFoldersIff(forest, before, id, isFolder);
    case Delete(id) =>
      DeleteRemovesSubtree(forest, before, id);
      DeleteKeepsFolders(forest, before, id);
      assert parent == map d | d in Deleted(before, id) :: forest[d];
  }

  lemma {:induction false} StaysRepresents(run: seq<Operation>, rows: Table, parent: Forest)
    requires StaysInFolders(run, rows, parent)
    ensures Represents(parent, rows) && InFolders(parent, rows)
    decreases |run|
  {
    if run != [] {
      var prior, op := run[..|run| - 1], run[|run| - 1];
      var before, forest :| StaysInFolders(prior, before, forest) && Steps(before, forest, op, rows, parent);
      StaysRepresents(prior, before, forest);
      StepKeepsForest(before, forest, op, rows, parent);
    }
  }

  /** All cases lie in folders throughout a run exactly when every creation and
      every move names one and every patch leaves one where there are cases. */
  lemma {:induction false} RunStaysInFoldersIff(run: seq<Operation>, rows: Table, parent: Forest)
    ensures StaysInFolders(run, rows, parent) <==> AlwaysKeepsFolders(run, rows, parent)
    decreases |run|
  {
    if run != [] {
      var prior, op := run[..|run| - 1], run[|run| - 1];
      hide InFolders, KeepsFolders, Steps;
      forall before, forest
        ensures StaysInFolders(prior, before, forest) <==> AlwaysKeepsFolders(prior, before, forest)
        ensures StaysInFolders(prior, before, forest) && Steps(before, forest, op, rows, parent) ==>
          (InFolders(parent, rows) <==> KeepsFolders(before, op))
      {
        RunStaysInFoldersIff(prior, before, forest);
        if StaysInFolders(prior, before, forest) && Steps(before, forest, op, rows, parent) {
          StaysRepresents(prior, before, forest);
          StepKeepsFoldersIff(before, forest, op, rows, parent);
        }
      }
    }
  }

  // ---- two moves the code lets through ----

  function TwoCases(): Table {
    map[1 := Case("", false), 2 := Case("", true)]
  }

  function TwoRoots(): Forest {
    map[1 := None, 2 := None]
  }

  function TwoCreations(): seq<Operation> {
    [Create(1, None, false), Create(2, None, true)]
  }

  lemma {:induction false} TwoCasesAreReached()
    ensures RunReaches(TwoCreations(), TwoCases(), TwoRoots())
    ensures StaysInFolders(TwoCreations(), TwoCases(), TwoRoots())
  {
    var run := TwoCreations();
    var empty: Table, none: Forest, one: Table, single: Forest :=
      map[], map[], map[1 := Case("", false)], map[1 := None];
    assert run[..1] == [run[0]] && run[..1][..0] == [];
    assert RunReaches([], empty, none) && StaysInFolders([], empty, none);
    assert Steps(empty, none, run[0], one, single);
    assert RunExtends([], run[0], one, single) && StaysWith([], run[0], one, single);
    assert RunReaches([run[0]], one, single) && StaysInFolders([run[0]], one, single);
    assert Steps(one, single, run[1], TwoCases(), TwoRoots());
    assert RunExtends([run[0]], run[1], TwoCases(), TwoRoots()) && StaysWith([run[0]], run[1], TwoCases(), TwoRoots());
  }

  /** A folder may be moved under a case with data. */
  lemma {:induction false} MoveUnderData()
    ensures StaysInFolders(TwoCreations(), TwoCases(), TwoRoots())
    ensures MoveAllowed(TwoRoots(), 2, Some(1))
    ensures !InFolders(TwoRoots()[2 := Some(1)], Moved(TwoCases(), 2, Some(1)))
  {
    TwoCasesAreReached();
    RootIsNoDescendant(TwoRoots(), 1, 2);
    hide Moved;
    MoveKeepsFoldersIff(TwoRoots(), TwoCases(), 2, Some(1));
  }

  /** A folder may be moved under itself, and then the paths fit no forest. */
  lemma {:induction false} MoveUnderItself()
    ensures StaysInFolders(TwoCreations(), TwoCases(), TwoRoots())
    ensures forall other :: !Represents(other, Moved(TwoCases(), 2, Some(2)))
  {
    TwoCasesAreReached();
    hide Moved;
    EveryRunRepresents(TwoCreations(), TwoCases(), TwoRoots());
    MoveKeepsForestIff(TwoRoots(), TwoCases(), 2, Some(2));
  }
}
