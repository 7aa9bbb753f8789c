/** Permanent deletion: a trashed item goes with everything below it. */
module Trash {
  import opened Text
  import opened Sums
  import opened Forest
  import opened Drive

  /** The item and everything below it. */
  ghost function Subtree(items: map<Id, Item>, root: Id): set<Id> {
    set x | x in items && Below(ItemParents(items), root, x)
  }

  /** The versions of files in `files`, and the others. */
  function VersionsOf(versions: map<Id, Version>, files: set<Id>): map<Id, Version> {
    map v | v in versions && versions[v].file in files :: versions[v]
  }

  function VersionsOutside(versions: map<Id, Version>, files: set<Id>): map<Id, Version> {
    map v | v in versions && versions[v].file !in files :: versions[v]
  }

  ghost function FreedBytes(versions: map<Id, Version>, files: set<Id>): nat {
    Sum(SizesOf(VersionsOf(versions, files)))
  }

  /** Blobs that go: keys of deleted versions that no snapshot holds. */
  function Reclaimed(versions: map<Id, Version>, files: set<Id>, snapshots: seq<Snapshot>): set<Key> {
    VersionKeys(VersionsOf(versions, files)) - SnapshotKeys(snapshots)
  }

  function Clamped(n: int): nat {
    if n < 0 then 0 else n
  }

  /** The rows `gone` removed with their versions, blobs and bytes. */
  ghost function Purge(db: Db, gone: set<Id>): Db {
    db.(items := db.items - gone,
        versions := VersionsOutside(db.versions, gone),
        blobs := db.blobs - Reclaimed(db.versions, gone, db.snapshots),
        used := Clamped(db.used - FreedBytes(db.versions, gone)))
  }

  ghost function PermanentDelete(db: Db, id: Id): Result {
    if id !in db.items then Failed(NotFound)
    else if !db.items[id].deleted then Failed(InvalidOperation)
    else Done(Purge(db, Subtree(db.items, id)))
  }

  // ----- deletion keeps the invariant -----

  /** A set of rows that contains the children of its members. */
  ghost predicate ChildClosed(items: map<Id, Item>, gone: set<Id>) {
    forall x :: x in items && items[x].parent.Some? && items[x].parent.value in gone ==> x in gone
  }

  lemma SubtreeChildClosed(items: map<Id, Item>, root: Id)
    ensures ChildClosed(items, Subtree(items, root))
  {
    var p := ItemParents(items);
    forall x | x in items && items[x].parent.Some? && items[x].parent.value in Subtree(items, root)
      ensures x in Subtree(items, root)
    {
      BelowChild(p, root, x);
    }
  }

  lemma RemainingForest(items: map<Id, Item>, gone: set<Id>)
    requires IsForest(ItemParents(items)) && ChildClosed(items, gone)
    ensures IsForest(ItemParents(items - gone))
  {
    AcyclicShrink(ItemParents(items), ItemParents(items - gone));
  }

  lemma FreedSplits(versions: map<Id, Version>, files: set<Id>)
    ensures Sum(SizesOf(versions)) == FreedBytes(versions, files) + Sum(SizesOf(VersionsOutside(versions, files)))
  {
    var keys := VersionsOf(versions, files).Keys;
    SumSplit(SizesOf(versions), keys);
    assert (map v | v in SizesOf(versions) && v in keys :: SizesOf(versions)[v]) ==
           SizesOf(VersionsOf(versions, files));
    assert SizesOf(versions) - keys == SizesOf(VersionsOutside(versions, files));
  }

  lemma DroppedKeysAreGone(db: Db, gone: set<Id>, k: Key)
    requires VersionsOk(db) && k in Reclaimed(db.versions, gone, db.snapshots)
    ensures k in db.owners && db.owners[k] in gone
  {
    var v :| v in db.versions && db.versions[v].file in gone && db.versions[v].key == k;
    assert VersionOk(db, db.versions[v]);
  }

  /** Removing rows with all their descendants keeps the invariant, and the clamp at zero of
      the quota is never needed. */
  lemma PurgeInv(db: Db, gone: set<Id>)
    requires Inv(db) && ChildClosed(db.items, gone)
    ensures Inv(Purge(db, gone))
    ensures FreedBytes(db.versions, gone) <= db.used
  {
    hide Sum, Reclaimed, ItemsOk, VersionsOk, SnapshotsOk, ChildClosed, Widens, FreedBytes;
    FreedSplits(db.versions, gone);
    PurgeWidens(db, gone);
    PurgeItems(db, gone);
    PurgeVersions(db, gone);
    DroppedNotInSnapshots(db, gone);
    SnapshotsWiden(db, Purge(db, gone), Reclaimed(db.versions, gone, db.snapshots));
  }

  lemma PurgeItems(db: Db, gone: set<Id>)
    requires ItemsOk(db) && VersionsOk(db) && ChildClosed(db.items, gone)
    ensures ItemsOk(Purge(db, gone))
  {
    RemainingForest(db.items, gone);
    PurgeWidens(db, gone);
    hide IsForest, Reclaimed, RowOk, ChildClosed, Widens, FreedBytes, VersionsOk;
    var t := Purge(db, gone);
    forall x | x in t.items
      ensures ItemOk(t, x, t.items[x])
    {
      assert ItemOk(db, x, db.items[x]);
      KeptKey(db, gone, x);
      ItemWidens(db, t, Reclaimed(db.versions, gone, db.snapshots), x, db.items[x]);
    }
  }

  lemma PurgeVersions(db: Db, gone: set<Id>)
    requires VersionsOk(db)
    ensures VersionsOk(Purge(db, gone))
  {
    hide Reclaimed, FreedBytes;
    var t := Purge(db, gone);
    forall v | v in t.versions
      ensures VersionOk(t, t.versions[v])
    {
      assert VersionOk(db, db.versions[v]);
      if db.versions[v].key in Reclaimed(db.versions, gone, db.snapshots) {
        DroppedKeysAreGone(db, gone, db.versions[v].key);
      }
    }
  }

  lemma PurgeWidens(db: Db, gone: set<Id>)
    ensures Widens(db, Purge(db, gone), Reclaimed(db.versions, gone, db.snapshots))
  {
  }

  lemma DroppedNotInSnapshots(db: Db, gone: set<Id>)
    ensures SnapshotKeys(db.snapshots) !! Reclaimed(db.versions, gone, db.snapshots)
  {
  }

  lemma KeptKey(db: Db, gone: set<Id>, x: Id)
    requires VersionsOk(db) && x in db.items && x !in gone && ItemOk(db, x, db.items[x])
    ensures db.items[x].key.Some? ==> db.items[x].key.value !in Reclaimed(db.versions, gone, db.snapshots)
  {
    if db.items[x].key.Some? && db.items[x].key.value in Reclaimed(db.versions, gone, db.snapshots) {
      DroppedKeysAreGone(db, gone, db.items[x].key.value);
    }
  }

  /** Permanent deletion removes exactly one subtree and keeps the invariant. */
  lemma PermanentDeleteInv(db: Db, id: Id)
    requires Inv(db)
    ensures PermanentDelete(db, id).Done? ==>
              && Inv(PermanentDelete(db, id).db)
              && (forall x :: x in db.items ==>
                    (x in PermanentDelete(db, id).db.items <==> !Below(ItemParents(db.items), id, x)))
              && PermanentDelete(db, id).db.used == db.used - FreedBytes(db.versions, Subtree(db.items, id))
  {
    SubtreeChildClosed(db.items, id);
    PurgeInv(db, Subtree(db.items, id));
  }

  // ----- deleting in several steps -----

  lemma VersionsTwice(versions: map<Id, Version>, a: set<Id>, b: set<Id>)
    requires a !! b
    ensures VersionsOutside(VersionsOutside(versions, a), b) == VersionsOutside(versions, a + b)
    ensures VersionKeys(VersionsOf(versions, a + b)) ==
            VersionKeys(VersionsOf(versions, a)) + VersionKeys(VersionsOf(VersionsOutside(versions, a), b))
    ensures FreedBytes(versions, a + b) == FreedBytes(versions, a) + FreedBytes(VersionsOutside(versions, a), b)
  {
    var rest := VersionsOutside(versions, a);
    var both := VersionsOf(versions, a + b);
    var fromB := VersionsOf(rest, b);
    var keys := VersionsOf(versions, a).Keys;
    SumSplit(SizesOf(both), keys);
    assert (map v | v in SizesOf(both) && v in keys :: SizesOf(both)[v]) == SizesOf(VersionsOf(versions, a));
    assert SizesOf(both) - keys == SizesOf(fromB);
    forall k | k in VersionKeys(both)
      ensures k in VersionKeys(VersionsOf(versions, a)) + VersionKeys(fromB)
    {
      var v :| v in both && both[v].key == k;
      assert v in VersionsOf(versions, a) || v in fromB;
    }
    forall k | k in VersionKeys(fromB)
      ensures k in VersionKeys(both)
    {
      var v :| v in fromB && fromB[v].key == k;
      assert v in both;
    }
    forall k | k in VersionKeys(VersionsOf(versions, a))
      ensures k in VersionKeys(both)
    {
      var v :| v in VersionsOf(versions, a) && versions[v].key == k;
      assert v in both;
    }
  }

  /** Purging two disjoint sets of rows one after the other is purging both. */
  lemma PurgeTwice(db: Db, a: set<Id>, b: set<Id>)
    requires Inv(db) && ChildClosed(db.items, a) && ChildClosed(db.items, a + b) && a !! b
    ensures Purge(Purge(db, a), b) == Purge(db, a + b)
  {
    hide Inv, Sum, ChildClosed, FreedBytes, VersionsOf, VersionsOutside, VersionKeys, SnapshotKeys;
    VersionsTwice(db.versions, a, b);
    PurgeInv(db, a);
    PurgeInv(db, a + b);
    assert db.items - a - b == db.items - (a + b);
    BlobsTwice(db, a, b);
  }

  lemma BlobsTwice(db: Db, a: set<Id>, b: set<Id>)
    requires VersionKeys(VersionsOf(db.versions, a + b)) ==
             VersionKeys(VersionsOf(db.versions, a)) + VersionKeys(VersionsOf(VersionsOutside(db.versions, a), b))
    ensures db.blobs - Reclaimed(db.versions, a, db.snapshots) -
            Reclaimed(VersionsOutside(db.versions, a), b, db.snapshots)
            == db.blobs - Reclaimed(db.versions, a + b, db.snapshots)
  {
    hide VersionsOf, VersionsOutside, VersionKeys, SnapshotKeys;
  }

  /** Above a row outside a child-closed set nothing lies in the set. */
  lemma {:induction false} AncestorOutside(items: map<Id, Item>, gone: set<Id>, x: Id, n: nat)
    requires ChildClosed(items, gone) && x !in gone
    ensures Ancestor(ItemParents(items - gone), x, n) == Ancestor(ItemParents(items), x, n)
    decreases n
  {
    if n > 0 && x in items && items[x].parent.Some? {
      AncestorOutside(items, gone, items[x].parent.value, n - 1);
    }
  }

  /** The subtree of a remaining row is what remains of its subtree. */
  lemma SubtreeOfRest(items: map<Id, Item>, gone: set<Id>, root: Id)
    requires ChildClosed(items, gone)
    ensures Subtree(items - gone, root) == Subtree(items, root) - gone
  {
    var p, q := ItemParents(items), ItemParents(items - gone);
    forall x | x in items - gone
      ensures Below(q, root, x) <==> Below(p, root, x)
    {
      forall n: nat
        ensures Ancestor(q, x, n) == Ancestor(p, x, n)
      {
        AncestorOutside(items, gone, x, n);
      }
    }
  }

  // ----- emptying the trash -----

  function Trashed(items: map<Id, Item>): set<Id> {
    set x | x in items && items[x].deleted
  }

  predicate IsTop(items: map<Id, Item>, x: Id) {
    && x in items && items[x].deleted
    && (items[x].parent.None? || items[x].parent.value !in Trashed(items))
  }

  /** Trashed items whose parent is not itself trashed. */
  function Tops(items: map<Id, Item>): set<Id> {
    set x | x in items && IsTop(items, x)
  }

  /** Everything that is trashed or below something trashed. */
  ghost function TrashClosure(items: map<Id, Item>): set<Id> {
    set x | x in items && UnderTrashed(items, x)
  }

  ghost predicate UnderTrashed(items: map<Id, Item>, x: Id) {
    exists d :: d in Trashed(items) && Below(ItemParents(items), d, x)
  }

  /** The subtrees of the listed rows. */
  ghost function TreesOf(items: map<Id, Item>, roots: seq<Id>): set<Id> {
    if roots == [] then {}
    else TreesOf(items, roots[..|roots| - 1]) + Subtree(items, roots[|roots| - 1])
  }

  lemma {:induction false} TreesOfMembers(items: map<Id, Item>, roots: seq<Id>, x: Id)
    ensures x in TreesOf(items, roots) <==>
            exists i :: 0 <= i < |roots| && x in items && Below(ItemParents(items), roots[i], x)
    ensures ChildClosed(items, TreesOf(items, roots))
  {
    if roots != [] {
      TreesOfMembers(items, roots[..|roots| - 1], x);
      SubtreeChildClosed(items, roots[|roots| - 1]);
    }
  }

  /** Every trashed row is a top or below one. */
  lemma {:induction false} TopAbove(items: map<Id, Item>, rank: map<Id, nat>, x: Id) returns (top: Id)
    requires IsRank(ItemParents(items), rank) && x in Trashed(items)
    ensures IsTop(items, top) && Below(ItemParents(items), top, x)
    decreases rank[x]
  {
    var p := ItemParents(items);
    if IsTop(items, x) {
      BelowSelf(p, x);
      top := x;
    } else {
      top := TopAbove(items, rank, items[x].parent.value);
      BelowChild(p, top, x);
    }
  }

  /** The subtrees of the tops are everything under the trash. */
  lemma TopsCoverTrash(items: map<Id, Item>, order: seq<Id>)
    requires Acyclic(ItemParents(items)) && (forall x :: x in order <==> x in Tops(items))
    ensures TreesOf(items, order) == TrashClosure(items)
  {
    var p := ItemParents(items);
    var rank := RankExists(p);
    forall x | x in items
      ensures x in TreesOf(items, order) <==> UnderTrashed(items, x)
    {
      TreesOfMembers(items, order, x);
      if UnderTrashed(items, x) {
        var d :| d in Trashed(items) && Below(p, d, x);
        var top := TopAbove(items, rank, d);
        BelowTransitive(p, top, d, x);
        assert top in Tops(items);
        var i :| 0 <= i < |order| && order[i] == top;
      }
      if i :| 0 <= i < |order| && Below(p, order[i], x) {
        assert order[i] in Tops(items);
        assert order[i] in Trashed(items);
      }
    }
    TreesInItems(items, order);
  }

  lemma {:induction false} TreesInItems(items: map<Id, Item>, roots: seq<Id>)
    ensures TreesOf(items, roots) <= items.Keys
  {
    if roots != [] {
      TreesInItems(items, roots[..|roots| - 1]);
    }
  }

  /** A trashed item with a trashed ancestor has a trashed parent. */
  ghost predicate TrashContiguous(items: map<Id, Item>) {
    forall d, x :: d in Trashed(items) && x in Trashed(items) && d != x && Below(ItemParents(items), d, x) ==>
      items[x].parent.Some? && items[x].parent.value in Trashed(items)
  }

  /** Exactly then no top lies below another top. */
  lemma ContiguousMeansSeparateTops(items: map<Id, Item>)
    requires Acyclic(ItemParents(items))
    ensures TrashContiguous(items) <==>
            forall a, b :: a in Tops(items) && b in Tops(items) && a != b ==> !Below(ItemParents(items), a, b)
  {
    var p := ItemParents(items);
    if forall a, b :: a in Tops(items) && b in Tops(items) && a != b ==> !Below(p, a, b) {
      var rank := RankExists(p);
      forall d, x | d in Trashed(items) && x in Trashed(items) && d != x && Below(p, d, x)
        ensures items[x].parent.Some? && items[x].parent.value in Trashed(items)
      {
        var top := TopAbove(items, rank, d);
        BelowTransitive(p, top, d, x);
        if top == x {
          BelowAntisymmetric(p, d, x);
        }
        assert top in Tops(items);
      }
    }
  }
}
