/** The trash: soft delete, restore, and permanent deletion row by row. */
module TrashService {
  import opened Text
  import opened Sets
  import opened Sums
  import opened Forest
  import opened Names
  import opened Drive
  import opened Store
  import opened DriveService
  import opened Trash

  // ----- the breadth-first listing -----

  /** The rows exactly `k` levels below `root`. */
  ghost predicate AtLevel(p: Parents, root: Id, k: nat, x: Id) {
    Ancestor(p, x, k) == Some(root)
  }

  /** The rows one to `k` levels below `root`. */
  ghost predicate Within(p: Parents, root: Id, k: nat, x: Id) {
    exists n: nat :: 1 <= n <= k && AtLevel(p, root, n, x)
  }

  lemma WithinNext(p: Parents, root: Id, k: nat, x: Id)
    ensures Within(p, root, k + 1, x) <==> Within(p, root, k, x) || AtLevel(p, root, k + 1, x)
  {
    if Within(p, root, k + 1, x) && !AtLevel(p, root, k + 1, x) {
      var n: nat :| 1 <= n <= k + 1 && AtLevel(p, root, n, x);
      assert 1 <= n <= k && AtLevel(p, root, n, x);
    }
    if Within(p, root, k, x) {
      var n: nat :| 1 <= n <= k && AtLevel(p, root, n, x);
      assert 1 <= n <= k + 1 && AtLevel(p, root, n, x);
    }
  }

  /** On acyclic pointers the levels are disjoint. */
  lemma LevelsDisjoint(p: Parents, root: Id, k: nat, x: Id)
    requires Acyclic(p) && AtLevel(p, root, k + 1, x)
    ensures !Within(p, root, k, x)
  {
    forall n: nat | 1 <= n <= k
      ensures !AtLevel(p, root, n, x)
    {
      AncestorAdd(p, x, n, k + 1 - n);
      NoCycle(p, root, k + 1 - n);
    }
  }

  /** A row `n` levels below has an ancestor on every level between. */
  lemma LevelBetween(p: Parents, root: Id, k: nat, n: nat, x: Id)
    requires 1 <= k <= n && AtLevel(p, root, n, x)
    ensures exists y :: y in p && AtLevel(p, root, k, y)
  {
    AncestorAdd(p, x, n - k, k);
    var y := Ancestor(p, x, n - k).value;
    assert y in p && AtLevel(p, root, k, y);
  }

  /** Below an empty level there is nothing. */
  lemma NothingDeeper(p: Parents, root: Id, k: nat, x: Id)
    requires k >= 1 && forall y :: y in p ==> !AtLevel(p, root, k, y)
    ensures Below(p, root, x) && x != root ==> Within(p, root, k, x)
  {
    if Below(p, root, x) && x != root {
      var n: nat :| Ancestor(p, x, n) == Some(root);
      assert AtLevel(p, root, n, x);
      if n > k {
        LevelBetween(p, root, k, n, x);
      }
    }
  }

  /** `xs` lists the rows below `root` once each, every parent before its children. */
  ghost predicate ListsBelow(items: map<Id, Item>, root: Id, xs: seq<Id>) {
    && NoDup(xs)
    && (forall x :: x in xs <==> x in items && x != root && Below(ItemParents(items), root, x))
    && ParentsEarlier(items, root, xs)
  }

  ghost predicate ParentsEarlier(items: map<Id, Item>, root: Id, xs: seq<Id>) {
    forall i :: 0 <= i < |xs| ==>
      xs[i] in items && items[xs[i]].parent.Some? &&
      (items[xs[i]].parent.value == root || items[xs[i]].parent.value in xs[..i])
  }

  /** After `k` rounds the queue is level `k` and the result is all levels down to it. */
  ghost predicate Searched(items: map<Id, Item>, root: Id, k: nat, queue: seq<Id>, result: seq<Id>) {
    && (forall x :: x in queue <==>
          (k == 0 && x == root) || (k > 0 && x in items && AtLevel(ItemParents(items), root, k, x)))
    && (forall x :: x in result <==> x in items && Within(ItemParents(items), root, k, x))
    && (forall x :: x in queue ==> x == root || x in result)
    && NoDup(result) && ParentsEarlier(items, root, result)
  }

  function Unlisted(items: map<Id, Item>, result: seq<Id>): set<Id> {
    set x | x in items && x !in result
  }

  function ChildrenOf(items: map<Id, Item>, queue: seq<Id>): set<Id> {
    set x | x in items && items[x].parent.Some? && items[x].parent.value in queue
  }

  /** `get_children_recursive`: level by level until a level is empty. */
  method GetChildrenRecursive(items: map<Id, Item>, root: Id) returns (result: seq<Id>)
    requires Acyclic(ItemParents(items))
    ensures ListsBelow(items, root, result)
  {
    hide Acyclic, ChildrenOf, Lists;
    result := [];
    var queue := [root];
    ghost var k: nat := 0;
    while queue != []
      invariant Searched(items, root, k, queue, result)
      invariant queue == [] ==> k >= 1
      decreases Unlisted(items, result), if queue == [] then 0 else 1
    {
      var children := ListRows(ChildrenOf(items, queue));
      SearchLevel(items, root, k, queue, result, children);
      result := result + children;
      queue := children;
      k := k + 1;
    }
    SearchEnds(items, root, k, result);
  }

  lemma SearchLevel(items: map<Id, Item>, root: Id, k: nat, queue: seq<Id>, result: seq<Id>, children: seq<Id>)
    requires Acyclic(ItemParents(items)) && Searched(items, root, k, queue, result)
    requires Lists(children, ChildrenOf(items, queue))
    ensures Searched(items, root, k + 1, children, result + children)
    ensures children != [] ==> Unlisted(items, result + children) < Unlisted(items, result)
    ensures children == [] ==> Unlisted(items, result + children) == Unlisted(items, result)
  {
    hide Acyclic, Within, AtLevel;
    NextLevel(items, root, queue, k, children);
    AppendLevel(items, root, k, result, queue, children);
    if children != [] {
      assert children[0] in children;
      assert children[0] in Unlisted(items, result) && children[0] !in Unlisted(items, result + children);
    } else {
      assert result + children == result;
    }
  }

  lemma SearchEnds(items: map<Id, Item>, root: Id, k: nat, result: seq<Id>)
    requires Acyclic(ItemParents(items)) && Searched(items, root, k, [], result) && k >= 1
    ensures ListsBelow(items, root, result)
  {
    hide Acyclic, Within, AtLevel, Below;
    var p := ItemParents(items);
    forall y | y in p
      ensures !AtLevel(p, root, k, y)
    {
      var queue: seq<Id> := [];
      assert y !in queue;
    }
    forall x | x in items
      ensures Below(p, root, x) && x != root <==> Within(p, root, k, x)
    {
      EndOfLevels(p, root, k, x);
    }
  }

  lemma EndOfLevels(p: Parents, root: Id, k: nat, x: Id)
    requires Acyclic(p) && k >= 1 && forall y :: y in p ==> !AtLevel(p, root, k, y)
    ensures Below(p, root, x) && x != root <==> Within(p, root, k, x)
  {
    NothingDeeper(p, root, k, x);
    if Within(p, root, k, x) {
      var n: nat :| 1 <= n <= k && AtLevel(p, root, n, x);
      NoCycle(p, root, n);
    }
  }

  lemma NextLevel(items: map<Id, Item>, root: Id, queue: seq<Id>, k: nat, children: seq<Id>)
    requires forall x :: x in queue <==>
               (k == 0 && x == root) || (k > 0 && x in items && AtLevel(ItemParents(items), root, k, x))
    requires Lists(children, ChildrenOf(items, queue))
    ensures forall x :: x in children <==> x in items && AtLevel(ItemParents(items), root, k + 1, x)
  {
    var p := ItemParents(items);
    forall x | x in items
      ensures x in children <==> AtLevel(p, root, k + 1, x)
    {
      if AtLevel(p, root, k + 1, x) {
        assert Ancestor(p, p[x].value, k) == Some(root);
        assert p[x].value in queue;
        assert x in ChildrenOf(items, queue);
      }
      if x in children {
        assert x in ChildrenOf(items, queue);
        assert items[x].parent.value in queue && p[x] == items[x].parent;
        assert Ancestor(p, p[x].value, k) == Some(root);
        AncestorStep(p, x, k);
      }
    }
  }

  lemma AppendLevel(items: map<Id, Item>, root: Id, k: nat, result: seq<Id>, queue: seq<Id>, children: seq<Id>)
    requires Acyclic(ItemParents(items))
    requires forall x :: x in result <==> x in items && Within(ItemParents(items), root, k, x)
    requires forall x :: x in queue ==> x == root || x in result
    requires NoDup(result) && ParentsEarlier(items, root, result)
    requires Lists(children, ChildrenOf(items, queue))
    requires forall x :: x in children <==> x in items && AtLevel(ItemParents(items), root, k + 1, x)
    ensures NoDup(result + children) && ParentsEarlier(items, root, result + children)
    ensures forall x :: x in children ==> x !in result
    ensures forall x :: x in result + children <==> x in items && Within(ItemParents(items), root, k + 1, x)
  {
    var p := ItemParents(items);
    hide Acyclic;
    forall x | x in children
      ensures x !in result
    {
      LevelsDisjoint(p, root, k, x);
    }
    forall x | x in items
      ensures x in result + children <==> Within(p, root, k + 1, x)
    {
      WithinNext(p, root, k, x);
    }
    var all := result + children;
    forall i | 0 <= i < |all|
      ensures all[i] in items && items[all[i]].parent.Some?
      ensures items[all[i]].parent.value == root || items[all[i]].parent.value in all[..i]
    {
      if i < |result| {
        assert all[..i] == result[..i];
      } else {
        assert all[i] in children;
        assert all[..i] == result + children[..i - |result|];
      }
    }
  }

  // ----- soft delete and restore -----

  method TrashItem(store: Store, id: Id) returns (error: Option<Error>)
    modifies store`items
    ensures store.Now() == After(old(store.Now()), Drive.TrashItem(old(store.Now()), id))
    ensures error == ErrorOf(Drive.TrashItem(old(store.Now()), id))
  {
    if id !in store.items {
      return Some(NotFound);
    }
    if store.items[id].deleted {
      return Some(InvalidOperation);
    }
    store.items := store.items[id := store.items[id].(deleted := true)];
    error := None;
  }

  /** `restore`: back to its folder or the root, renamed if the name is taken there. */
  method RestoreItem(store: Store, id: Id) returns (error: Option<Error>)
    modifies store`items
    ensures store.Now() == After(old(store.Now()), Drive.RestoreItem(old(store.Now()), id))
    ensures error == ErrorOf(Drive.RestoreItem(old(store.Now()), id))
  {
    hide FreeName, IsFreeName, NamesIn, SplitName;
    if id !in store.items {
      return Some(NotFound);
    }
    var item := store.items[id];
    if !item.deleted {
      return Some(InvalidOperation);
    }
    var parent := item.parent;
    if parent.Some? && !IsLive(store.items, parent.value) {
      parent := None;
    }
    var (stem, ext) := SplitName(item.name);
    var name := ResolveConflict(NamesIn(store.items, parent, None), item.name, stem, ext);
    store.items := store.items[id := item.(deleted := false)];
    if parent != item.parent {
      store.PutItem(id, store.items[id].(parent := parent));
    }
    if name != item.name {
      store.items := store.items[id := store.items[id].(name := name)];
    }
    error := None;
  }

  // ----- permanent deletion -----

  /** `_delete_file_versions` */
  method DeleteFileVersions(store: Store, file: Id) returns (freed: nat, keys: set<Key>)
    modifies store`versions
    ensures store.versions == VersionsOutside(old(store.versions), {file})
    ensures freed == FreedBytes(old(store.versions), {file})
    ensures keys == VersionKeys(VersionsOf(old(store.versions), {file}))
  {
    freed, keys := AddUpVersions(VersionsOf(store.versions, {file}));
    store.versions := VersionsOutside(store.versions, {file});
  }

  lemma VersionKeysTake(rows: map<Id, Version>, v: Id)
    requires v in rows
    ensures VersionKeys(rows) == VersionKeys(rows - {v}) + {rows[v].key}
  {
    forall k | k in VersionKeys(rows)
      ensures k in VersionKeys(rows - {v}) + {rows[v].key}
    {
      var w :| w in rows && rows[w].key == k;
      assert w == v || (w in rows - {v} && (rows - {v})[w].key == k);
    }
    forall k | k in VersionKeys(rows - {v})
      ensures k in VersionKeys(rows)
    {
      var w :| w in rows - {v} && (rows - {v})[w].key == k;
      assert w in rows && rows[w].key == k;
    }
  }

  /** The sizes and storage keys of some version rows. */
  method AddUpVersions(rows: map<Id, Version>) returns (freed: nat, keys: set<Key>)
    ensures freed == Sum(SizesOf(rows)) && keys == VersionKeys(rows)
  {
    freed, keys := 0, {};
    var rest := rows;
    while rest != map[]
      invariant freed + Sum(SizesOf(rest)) == Sum(SizesOf(rows))
      invariant keys + VersionKeys(rest) == VersionKeys(rows)
      decreases |rest|
    {
      var v :| v in rest;
      SumTake(SizesOf(rest), v);
      assert SizesOf(rest - {v}) == SizesOf(rest) - {v};
      VersionKeysTake(rest, v);
      freed := freed + rest[v].size;
      keys := keys + {rest[v].key};
      rest := rest - {v};
    }
  }

  /** `_reclaim_blobs`: blobs that a snapshot still holds are left for garbage collection. */
  method ReclaimBlobs(store: Store, keys: set<Key>)
    modifies store`blobs
    ensures store.blobs == old(store.blobs) - (keys - SnapshotKeys(store.snapshots))
  {
    var todo := keys;
    while todo != {}
      invariant todo <= keys
      invariant store.blobs == old(store.blobs) - ((keys - todo) - SnapshotKeys(store.snapshots))
      decreases todo
    {
      var key :| key in todo;
      if key !in SnapshotKeys(store.snapshots) && key in store.blobs {
        store.blobs := store.blobs - {key};
      }
      todo := todo - {key};
    }
  }

  /** The rows `gone` deleted: what is left, the bytes freed and the candidate blobs. */
  ghost predicate Deleted(items: map<Id, Item>, versions: map<Id, Version>, gone: set<Id>,
                          itemsLeft: map<Id, Item>, versionsLeft: map<Id, Version>, freed: nat, keys: set<Key>) {
    && itemsLeft == items - gone
    && versionsLeft == VersionsOutside(versions, gone)
    && freed == FreedBytes(versions, gone)
    && keys == VersionKeys(VersionsOf(versions, gone))
  }

  lemma NothingDeleted(items: map<Id, Item>, versions: map<Id, Version>)
    ensures Deleted(items, versions, {}, items, versions, 0, {})
  {
    assert VersionsOf(versions, {}) == map[];
    assert VersionsOutside(versions, {}) == versions;
    assert items - {} == items;
  }

  lemma DeletedTwice(items: map<Id, Item>, versions: map<Id, Version>, a: set<Id>, b: set<Id>,
                     items1: map<Id, Item>, versions1: map<Id, Version>, freed1: nat, keys1: set<Key>,
                     items2: map<Id, Item>, versions2: map<Id, Version>, freed2: nat, keys2: set<Key>)
    requires Deleted(items, versions, a, items1, versions1, freed1, keys1)
    requires Deleted(items1, versions1, b, items2, versions2, freed2, keys2)
    requires a !! b
    ensures Deleted(items, versions, a + b, items2, versions2, freed1 + freed2, keys1 + keys2)
  {
    VersionsTwice(versions, a, b);
  }

  /** Delete one row with its versions. */
  method DeleteRow(store: Store, id: Id, isFile: bool) returns (freed: nat, keys: set<Key>)
    requires id in store.items
    requires forall x :: x in store.items && x != id ==> store.items[x].parent != Some(id)
    requires !isFile ==> forall v :: v in store.versions ==> store.versions[v].file != id
    modifies store`items, store`versions
    ensures Deleted(old(store.items), old(store.versions), {id}, store.items, store.versions, freed, keys)
  {
    freed, keys := 0, {};
    if isFile {
      freed, keys := DeleteFileVersions(store, id);
    } else {
      assert VersionsOf(store.versions, {id}) == map[];
      assert VersionsOutside(store.versions, {id}) == store.versions;
    }
    store.HardDelete(id);
  }

  /** Deleting deepest first, the row to go next has no remaining child. */
  lemma NoRemainingChild(items: map<Id, Item>, root: Id, xs: seq<Id>, i: nat, gone: set<Id>)
    requires ListsBelow(items, root, xs) && i < |xs| && Acyclic(ItemParents(items))
    requires gone == SetOf(xs[i + 1..])
    ensures xs[i] in items - gone
    ensures forall x :: x in items - gone ==> items[x].parent != Some(xs[i])
  {
    var p := ItemParents(items);
    var y := xs[i];
    forall x | x in items && items[x].parent == Some(y)
      ensures x in xs[i + 1..]
    {
      BelowChild(p, root, x);
      RootNotBelowItself(p, root, y);
      assert x in xs;
      var j :| 0 <= j < |xs| && xs[j] == x;
      assert y in xs[..j];
      var k :| 0 <= k < j && xs[k] == y;
      assert k == i;
      assert xs[i + 1..][j - i - 1] == x;
    }
  }

  lemma RootNotBelowItself(p: Parents, root: Id, y: Id)
    requires Acyclic(p) && Below(p, root, y) && y != root
    ensures forall x :: x in p && p[x] == Some(y) ==> x != root
  {
    if root in p && p[root] == Some(y) {
      var n: nat :| Ancestor(p, y, n) == Some(root);
      assert Ancestor(p, root, n + 1) == Some(root);
      NoCycle(p, root, n + 1);
    }
  }

  /** `permanent_delete`: versions and rows deepest first, then blobs, then the quota. Every
      row removal respects the foreign keys. */
  method PermanentDelete(store: Store, id: Id) returns (error: Option<Error>)
    requires Inv(store.Now())
    modifies store
    ensures store.Now() == After(old(store.Now()), Trash.PermanentDelete(old(store.Now()), id))
    ensures error == ErrorOf(Trash.PermanentDelete(old(store.Now()), id))
    ensures Inv(store.Now())
  {
    PermanentDeleteInv(store.Now(), id);
    hide Inv, Purge, Subtree;
    if id !in store.items {
      return Some(NotFound);
    }
    if !store.items[id].deleted {
      return Some(InvalidOperation);
    }
    PurgeTree(store, id);
    error := None;
  }

  method PurgeTree(store: Store, id: Id)
    requires Inv(store.Now()) && id in store.items
    modifies store
    ensures store.Now() == Purge(old(store.Now()), Subtree(old(store.items), id))
  {
    hide Inv, Subtree, FreedBytes, VersionKeys, VersionsOf, VersionsOutside, SnapshotKeys;
    var freed, keys := DeleteTree(store, id);
    ReclaimBlobs(store, keys);
    if freed > 0 {
      store.SubtractUsedBytes(freed);
    }
  }

  /** The item and everything below it, deepest first. */
  method DeleteTree(store: Store, id: Id) returns (freed: nat, keys: set<Key>)
    requires Inv(store.Now()) && id in store.items
    modifies store`items, store`versions
    ensures Deleted(old(store.items), old(store.versions), Subtree(old(store.items), id),
                    store.items, store.versions, freed, keys)
  {
    ghost var items, versions := store.items, store.versions;
    ghost var gone: set<Id> := {};
    var item := store.items[id];
    RowsAndVersions(store.Now());
    freed, keys := 0, {};
    if item.kind.Folder? {
      var descendants := GetChildrenRecursive(store.items, id);
      freed, keys := DeleteDescendants(store, id, descendants);
      gone := SetOf(descendants);
      FolderTree(items, id, descendants);
    } else {
      NothingDeleted(items, versions);
      FileTree(store.Now(), id);
    }
    ghost var items1, versions1 := store.items, store.versions;
    ChildrenGone(items, id, gone);
    var f, k := DeleteRow(store, id, item.kind.File?);
    DeletedTwice(items, versions, gone, {id}, items1, versions1, freed, keys, store.items, store.versions, f, k);
    freed, keys := freed + f, keys + k;
  }

  lemma RowsAndVersions(db: Db)
    requires Inv(db)
    ensures Acyclic(ItemParents(db.items))
    ensures forall v :: v in db.versions ==> db.versions[v].file in db.items && db.items[db.versions[v].file].kind.File?
  {
    forall v | v in db.versions
      ensures db.versions[v].file in db.items && db.items[db.versions[v].file].kind.File?
    {
      assert VersionOk(db, db.versions[v]);
    }
  }

  lemma FolderTree(items: map<Id, Item>, id: Id, descendants: seq<Id>)
    requires id in items && ListsBelow(items, id, descendants)
    ensures Subtree(items, id) == SetOf(descendants) + {id} && id !in SetOf(descendants)
  {
    BelowSelf(ItemParents(items), id);
  }

  lemma FileTree(db: Db, id: Id)
    requires Inv(db) && id in db.items && db.items[id].kind.File?
    ensures Subtree(db.items, id) == {id}
  {
    BelowSelf(ItemParents(db.items), id);
    forall x | x in Subtree(db.items, id)
      ensures x == id
    {
      FileHasNothingBelow(db, id, x);
    }
  }

  lemma ChildrenGone(items: map<Id, Item>, id: Id, gone: set<Id>)
    requires id in items && Subtree(items, id) == gone + {id}
    ensures forall x :: x in items - gone && x != id ==> items[x].parent != Some(id)
  {
    BelowSelf(ItemParents(items), id);
    forall x | x in items && items[x].parent == Some(id)
      ensures x in gone + {id}
    {
      BelowChild(ItemParents(items), id, x);
    }
  }

  lemma LeftRows(items: map<Id, Item>, versions: map<Id, Version>, gone: set<Id>, child: Id,
                 items1: map<Id, Item>, versions1: map<Id, Version>, freed: nat, keys: set<Key>)
    requires Deleted(items, versions, gone, items1, versions1, freed, keys)
    requires forall v :: v in versions ==> versions[v].file in items && items[versions[v].file].kind.File?
    requires child in items && child !in gone
    requires forall x :: x in items - gone ==> items[x].parent != Some(child)
    ensures child in items1 && items1[child] == items[child]
    ensures forall x :: x in items1 ==> items1[x].parent != Some(child)
    ensures items[child].kind.Folder? ==> forall v :: v in versions1 ==> versions1[v].file != child
  {
  }

  method DeleteDescendants(store: Store, id: Id, descendants: seq<Id>) returns (freed: nat, keys: set<Key>)
    requires Acyclic(ItemParents(store.items)) && ListsBelow(store.items, id, descendants)
    requires forall v :: v in store.versions ==>
               store.versions[v].file in store.items && store.items[store.versions[v].file].kind.File?
    modifies store`items, store`versions
    ensures Deleted(old(store.items), old(store.versions), SetOf(descendants),
                    store.items, store.versions, freed, keys)
  {
    hide Acyclic, ListsBelow, Deleted;
    ghost var items, versions := store.items, store.versions;
    NothingDeleted(items, versions);
    freed, keys := 0, {};
    var i := |descendants|;
    assert SetOf(descendants[i..]) == {};
    while i > 0
      invariant 0 <= i <= |descendants|
      invariant Deleted(items, versions, SetOf(descendants[i..]), store.items, store.versions, freed, keys)
    {
      i := i - 1;
      var child := descendants[i];
      ghost var gone := SetOf(descendants[i + 1..]);
      ghost var items1, versions1 := store.items, store.versions;
      NoRemainingChild(items, id, descendants, i, gone);
      LeftRows(items, versions, gone, child, items1, versions1, freed, keys);
      var f, k := DeleteRow(store, child, store.items[child].kind.File?);
      DeletedTwice(items, versions, gone, {child}, items1, versions1, freed, keys, store.items, store.versions, f, k);
      freed, keys := freed + f, keys + k;
      assert SetOf(descendants[i..]) == gone + {child};
    }
    assert descendants[0..] == descendants;
  }

  /** `empty_trash`, over the tops in whatever order the query lists them. It succeeds exactly
      when no top comes after one it lies below; then everything under the trash is gone. If not,
      it stops at the first such top, with the `done` tops before it deleted. */
  method EmptyTrash(store: Store) returns (error: Option<Error>, order: seq<Id>, done: nat)
    requires Inv(store.Now())
    modifies store
    ensures Inv(store.Now())
    ensures Lists(order, Tops(old(store.items)))
    ensures error.None? <==>
            forall i, j :: 0 <= i < j < |order| ==> !Below(ItemParents(old(store.items)), order[i], order[j])
    ensures error.None? ==> store.Now() == Purge(old(store.Now()), TrashClosure(old(store.items)))
    ensures done <= |order| && store.Now() == Purge(old(store.Now()), TreesOf(old(store.items), order[..done]))
    ensures error.Some? ==> error.value == NotFound && StopsAt(old(store.items), order, done)
  {
    ghost var db := store.Now();
    var items := store.items;
    order := ListRows(Tops(items));
    hide Purge, Subtree, TreesOf, TrashClosure, Tops, Inv, Lists, Below, Trash.PermanentDelete, ChildClosed;
    hide StopsAt, SeparateUpTo;
    PurgeNothing(db);
    NoTrees(items);
    NoneSeparate(items, order);
    for i := 0 to |order|
      invariant store.Now() == Purge(db, TreesOf(items, order[..i])) && Inv(store.Now())
      invariant SeparateUpTo(items, order, i)
    {
      EmptyStep(db, order, i);
      StopsOrSeparate(items, order, i);
      error := PermanentDelete(store, order[i]);
      done := i;
      if error.Some? {
        StopsMeans(items, order, i);
        return;
      }
    }
    AllSeparate(items, order);
    done := |order|;
    assert order[..|order|] == order;
    TopsCover(db, order);
    error := None;
  }

  /** None of the first `n` tops lies below an earlier one. */
  ghost predicate SeparateUpTo(items: map<Id, Item>, order: seq<Id>, n: nat) {
    n <= |order| && forall j, k :: 0 <= j < k < n ==> !Below(ItemParents(items), order[j], order[k])
  }

  /** The first top that lies below an earlier one. */
  ghost predicate StopsAt(items: map<Id, Item>, order: seq<Id>, n: nat) {
    && n < |order| && SeparateUpTo(items, order, n)
    && exists j :: 0 <= j < n && Below(ItemParents(items), order[j], order[n])
  }

  lemma NoneSeparate(items: map<Id, Item>, order: seq<Id>)
    ensures SeparateUpTo(items, order, 0)
  {
  }

  lemma StopsOrSeparate(items: map<Id, Item>, order: seq<Id>, i: nat)
    requires SeparateUpTo(items, order, i) && i < |order|
    ensures if forall j :: 0 <= j < i ==> !Below(ItemParents(items), order[j], order[i])
            then SeparateUpTo(items, order, i + 1) else StopsAt(items, order, i)
  {
    hide Below;
  }

  lemma StopsMeans(items: map<Id, Item>, order: seq<Id>, i: nat)
    requires StopsAt(items, order, i)
    ensures i < |order| && exists j :: 0 <= j < i && Below(ItemParents(items), order[j], order[i])
  {
    hide Below;
  }

  lemma AllSeparate(items: map<Id, Item>, order: seq<Id>)
    requires SeparateUpTo(items, order, |order|)
    ensures forall j, k :: 0 <= j < k < |order| ==> !Below(ItemParents(items), order[j], order[k])
  {
    hide Below;
  }

  /** The rows come back and the blobs do not. */
  ghost function RolledBack(db: Db, gone: set<Id>): Db {
    db.(blobs := db.blobs - Reclaimed(db.versions, gone, db.snapshots))
  }

  /** The request around it commits only on success: after a failure its session is rolled back,
      but the blobs of the tops deleted so far are no part of the session. */
  method EmptyTrashRequest(store: Store) returns (error: Option<Error>, order: seq<Id>, done: nat)
    requires Inv(store.Now())
    modifies store
    ensures Lists(order, Tops(old(store.items))) && done <= |order|
    ensures error.None? <==>
            forall i, j :: 0 <= i < j < |order| ==> !Below(ItemParents(old(store.items)), order[i], order[j])
    ensures error.None? ==> store.Now() == Purge(old(store.Now()), TrashClosure(old(store.items)))
    ensures error.Some? ==>
              && StopsAt(old(store.items), order, done)
              && store.Now() == RolledBack(old(store.Now()), TreesOf(old(store.items), order[..done]))
  {
    var items, versions, used := store.items, store.versions, store.used;
    hide Inv, Lists, Tops, Below, TreesOf, TrashClosure, StopsAt, Reclaimed;
    error, order, done := EmptyTrash(store);
    if error.Some? {
      store.items, store.versions, store.used := items, versions, used;
    }
  }

  /** The rolled back rows have all their blobs exactly when the deleted tops had no version of
      their own content, that is none whose key no snapshot holds. */
  lemma RolledBackBlobs(db: Db, gone: set<Id>)
    requires Inv(db)
    ensures References(db) <= RolledBack(db, gone).blobs.Keys <==> Reclaimed(db.versions, gone, db.snapshots) == {}
  {
    hide Inv;
    InvHasBlobs(db);
    forall k | k in Reclaimed(db.versions, gone, db.snapshots)
      ensures k in References(db) && k !in RolledBack(db, gone).blobs
    {
      var v :| v in VersionsOf(db.versions, gone) && VersionsOf(db.versions, gone)[v].key == k;
      assert v in db.versions && db.versions[v].key == k;
      assert k in VersionKeys(db.versions);
    }
  }

  lemma NoTrees(items: map<Id, Item>)
    ensures TreesOf(items, []) == {}
  {
  }

  /** Deleting the next top fails when an earlier deletion took it along. */
  lemma EmptyStep(db: Db, order: seq<Id>, i: nat)
    requires Inv(db) && Lists(order, Tops(db.items)) && i < |order|
    ensures var gone := TreesOf(db.items, order[..i]);
            var p := ItemParents(db.items);
            var r := Trash.PermanentDelete(Purge(db, gone), order[i]);
            if forall j :: 0 <= j < i ==> !Below(p, order[j], order[i])
            then r == Done(Purge(db, TreesOf(db.items, order[..i + 1])))
            else r == Failed(NotFound)
  {
    hide Inv, Lists, Tops, Below, Subtree;
    var gone := TreesOf(db.items, order[..i]);
    TopIsTrashed(db.items, order, order[i]);
    TreesOfMembers(db.items, order[..i], order[i]);
    assert forall j :: 0 <= j < i ==> order[..i][j] == order[j];
    assert order[..i + 1][..i] == order[..i];
    hide Purge, TreesOf, ChildClosed;
    PurgeItem(db, gone, order[i]);
    PurgeMore(db, gone, order[i]);
    assert TreesOf(db.items, order[..i + 1]) == gone + Subtree(db.items, order[i]) by {
      TreesSnoc(db.items, order, i);
    }
  }

  lemma TreesSnoc(items: map<Id, Item>, order: seq<Id>, i: nat)
    requires i < |order|
    ensures TreesOf(items, order[..i + 1]) == TreesOf(items, order[..i]) + Subtree(items, order[i])
  {
    assert order[..i + 1][..i] == order[..i];
  }

  lemma PurgeNothing(db: Db)
    requires Inv(db)
    ensures Purge(db, {}) == db
  {
    NothingDeleted(db.items, db.versions);
    assert VersionKeys(map[]) == {};
    assert db.blobs - {} == db.blobs;
  }

  lemma TopIsTrashed(items: map<Id, Item>, order: seq<Id>, x: Id)
    requires Lists(order, Tops(items)) && x in order
    ensures x in items && items[x].deleted
  {
    assert x in Tops(items);
  }

  lemma PurgeItem(db: Db, gone: set<Id>, x: Id)
    requires x in db.items
    ensures x in Purge(db, gone).items <==> x !in gone
    ensures x !in gone ==> Purge(db, gone).items[x] == db.items[x]
  {
  }

  lemma PurgeMore(db: Db, gone: set<Id>, x: Id)
    requires Inv(db) && ChildClosed(db.items, gone)
    ensures Purge(Purge(db, gone), Subtree(Purge(db, gone).items, x)) == Purge(db, gone + Subtree(db.items, x))
  {
    SubtreeOfRest(db.items, gone, x);
    SubtreeChildClosed(db.items, x);
    var more := Subtree(db.items, x) - gone;
    assert gone + more == gone + Subtree(db.items, x);
    PurgeTwice(db, gone, more);
  }

  lemma TopsCover(db: Db, order: seq<Id>)
    requires Inv(db) && Lists(order, Tops(db.items))
    ensures TreesOf(db.items, order) == TrashClosure(db.items)
  {
    TopsCoverTrash(db.items, order);
  }
}
