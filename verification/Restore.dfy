/** In-place restore of a snapshot: what it leaves, and when it brings the drive back. */
module Restore {
  import opened Text
  import opened Sums
  import opened Forest
  import opened Attachment
  import opened Drive
  import opened Snapshots
  import opened SnapshotService

  // ----- the operation -----

  predicate HasSnapshot(snaps: seq<Snapshot>, id: Id) {
    exists i :: 0 <= i < |snaps| && snaps[i].id == id
  }

  /** The entries of a snapshot, none when it does not exist (any more). */
  function EntriesOf(snaps: seq<Snapshot>, id: Id): map<Id, Entry> {
    if snaps == [] then map[]
    else if snaps[|snaps| - 1].id == id then snaps[|snaps| - 1].entries
    else EntriesOf(snaps[..|snaps| - 1], id)
  }

  /** The selected entries and everything below them. */
  ghost function Reached(entries: map<Id, Entry>, selected: set<Id>): set<Id> {
    set x | x in entries && IsReached(entries, selected, x)
  }

  ghost predicate IsReached(entries: map<Id, Entry>, selected: set<Id>, x: Id) {
    exists s :: s in selected && s in entries && Below(EntryParents(entries), s, x)
  }

  function Only(entries: map<Id, Entry>, keys: set<Id>): map<Id, Entry> {
    map x | x in entries && x in keys :: entries[x]
  }

  /** An entry whose parent is neither restored nor a row comes back at the root. */
  function RestoredParent(items: map<Id, Item>, target: map<Id, Entry>, x: Id): Option<Id>
    requires x in target
  {
    var parent := target[x].parent;
    if parent.Some? && parent.value !in target && parent.value !in items then None else parent
  }

  /** The row an entry is written to; an existing row keeps its type. */
  function RestoredItem(items: map<Id, Item>, target: map<Id, Entry>, x: Id): Item
    requires x in target
  {
    var e := target[x];
    Item(RestoredParent(items, target, x), if x in items then items[x].kind else e.kind,
         e.name, e.size, e.key, e.checksum, false)
  }

  function RestoreRows(items: map<Id, Item>, target: map<Id, Entry>): map<Id, Item> {
    items + map x | x in target :: RestoredItem(items, target, x)
  }

  /** Live items that are not in the snapshot; with a scope, only those placed inside it. */
  predicate IsExtra(items: map<Id, Item>, keep: set<Id>, scope: Option<set<Id>>, x: Id) {
    && IsLive(items, x) && x !in keep
    && (scope.Some? ==> items[x].parent.Some? && items[x].parent.value in scope.value)
  }

  function TrashExtras(items: map<Id, Item>, keep: set<Id>, scope: Option<set<Id>>): map<Id, Item> {
    map x | x in items :: if IsExtra(items, keep, scope, x) then items[x].(deleted := true) else items[x]
  }

  ghost function Target(entries: map<Id, Entry>, selected: Option<set<Id>>): map<Id, Entry> {
    match selected
    case None => entries
    case Some(ids) => Only(entries, Reached(entries, ids))
  }

  ghost function RestoredItems(items: map<Id, Item>, entries: map<Id, Entry>, selected: Option<set<Id>>,
                               exact: bool): map<Id, Item> {
    var target := Target(entries, selected);
    var rows := RestoreRows(items, target);
    if !exact then rows
    else TrashExtras(rows, entries.Keys, if selected.None? then None else Some(target.Keys))
  }

  /** `restore`: a safety snapshot first, whose pruning may already delete the target. */
  ghost function RestoreSnapshot(db: Db, id: Id, safety: Id, selected: Option<set<Id>>, exact: bool): Option<Db> {
    if !HasSnapshot(db.snapshots, id) then None
    else
      var s := CreateSnapshot(db, safety, PreRestore, false);
      Some(s.(items := RestoredItems(s.items, EntriesOf(s.snapshots, id), selected, exact)))
  }

  // ----- parents of the restored rows -----

  lemma ExtrasParents(items: map<Id, Item>, keep: set<Id>, scope: Option<set<Id>>)
    ensures ItemParents(TrashExtras(items, keep, scope)) == ItemParents(items)
  {
  }

  /** The restored rows carry the snapshot's pointers, laid over the others. */
  lemma RestoredAreLaid(items: map<Id, Item>, target: map<Id, Entry>)
    ensures ItemParents(RestoreRows(items, target)) == Laid(ItemParents(items), EntryParents(target))
  {
    var r := ItemParents(RestoreRows(items, target));
    RestoredPointers(items, target);
    hide RestoreRows;
    forall x | x in r
      ensures x in Laid(ItemParents(items), EntryParents(target))
      ensures r[x] == Laid(ItemParents(items), EntryParents(target))[x]
    {
      LaidAt(ItemParents(items), EntryParents(target), x);
    }
  }

  /** Entries come back below one another in a circle: each is attached to a row that has moved,
      since the snapshot, below one that the snapshot places at or below the next. */
  ghost predicate ComesBackInCircle(items: map<Id, Item>, target: map<Id, Entry>) {
    AttachCircle(ItemParents(items), EntryParents(target))
  }

  /** Restoring any selection keeps the drive a forest if and only if the restored entries do not
      come back below one another in a circle. */
  lemma RestoreKeepsForest(items: map<Id, Item>, target: map<Id, Entry>)
    requires IsForest(ItemParents(items)) && Acyclic(EntryParents(target))
    ensures IsForest(ItemParents(RestoreRows(items, target))) <==> !ComesBackInCircle(items, target)
  {
    hide IsForest, Acyclic, RestoreRows, AttachCircle, Laid;
    RestoredAreLaid(items, target);
    LaidIsForest(ItemParents(items), EntryParents(target));
  }

  lemma WholeHasNoCircle(items: map<Id, Item>, entries: map<Id, Entry>)
    requires IsForest(EntryParents(entries))
    ensures !ComesBackInCircle(items, entries)
  {
    ClosedHasNoCircle(ItemParents(items), EntryParents(entries));
  }

  lemma RestoredPointers(items: map<Id, Item>, target: map<Id, Entry>)
    ensures var r := ItemParents(RestoreRows(items, target));
            && r.Keys == items.Keys + target.Keys
            && (forall z :: z in target ==> r[z] == RestoredParent(items, target, z))
            && forall z :: z in items && z !in target ==> r[z] == items[z].parent
  {
  }

  function FolderItem(parent: Option<Id>): Item {
    Item(parent, Folder, "f", 0, None, None, false)
  }

  function FolderEntry(parent: Option<Id>): Entry {
    Entry(parent, Folder, "f", 0, None, None)
  }

  /** Two folders swapped since the snapshot: restoring the inner one alone closes a cycle. */
  lemma SwappedFoldersCycle(a: Id, b: Id)
    requires a != b
    ensures var items := map[a := FolderItem(Some(b)), b := FolderItem(None)];
            var entries := map[a := FolderEntry(None), b := FolderEntry(Some(a))];
            && IsForest(ItemParents(items)) && IsForest(EntryParents(entries))
            && !Acyclic(ItemParents(RestoreRows(items, Target(entries, Some({b})))))
  {
    hide IsForest, Acyclic, Laid, RestoreRows, Target, AttachCircle;
    var items := map[a := FolderItem(Some(b)), b := FolderItem(None)];
    var entries := map[a := FolderEntry(None), b := FolderEntry(Some(a))];
    var p, q := ItemParents(items), EntryParents(entries);
    TwoLevels(b, a);
    TwoLevels(a, b);
    assert p == map[b := None][a := Some(b)] && q == map[a := None][b := Some(a)];
    var target := Target(entries, Some({b}));
    RestoredAreLaid(items, target);
    InnerOnly(entries, a, b);
    SwappedCircle(p, EntryParents(target), a, b);
    CircleIsCyclic(p, EntryParents(target), {b});
  }

  lemma TwoLevels(top: Id, inner: Id)
    requires top != inner
    ensures IsForest(map[top := None][inner := Some(top)])
  {
    EmptyForest();
    ForestInsert(map[], top, None);
    ForestInsert(map[top := None], inner, Some(top));
  }

  /** Selecting the inner of two folders restores that one alone. */
  lemma InnerOnly(entries: map<Id, Entry>, a: Id, b: Id)
    requires a != b && entries == map[a := FolderEntry(None), b := FolderEntry(Some(a))]
    ensures Target(entries, Some({b})) == map[b := FolderEntry(Some(a))]
  {
    var q := EntryParents(entries);
    BelowOrphan(q, b, a);
    BelowSelf(q, b);
    assert IsReached(entries, {b}, b);
    hide Below;
    assert !IsReached(entries, {b}, a);
  }

  lemma SwappedCircle(p: Parents, q: Parents, a: Id, b: Id)
    requires a in p && p[a] == Some(b) && a !in q && b in q && q[b] == Some(a)
    ensures IsCircle(p, q, {b})
  {
    assert Climbs(p, q, b, b, 0);
    assert Climbs(p, q, a, b, 1);
    assert LeadsUp(p, q, a, b);
    BelowSelf(q, b);
    hide LeadsUp, Below;
    assert Attaches(p, q, b, b);
    assert b in {b} && AttachesInto(p, q, b, {b});
  }

  lemma EmptyForest()
    ensures IsForest(map[])
  {
  }

  // ----- restoring keeps the invariant -----

  lemma {:induction false} EntriesAt(snaps: seq<Snapshot>, id: Id)
    requires HasSnapshot(snaps, id)
    ensures exists i :: 0 <= i < |snaps| && snaps[i].id == id && EntriesOf(snaps, id) == snaps[i].entries
  {
    var last := |snaps| - 1;
    if snaps[last].id != id {
      var i :| 0 <= i < |snaps| && snaps[i].id == id;
      assert snaps[..last][i] == snaps[i];
      EntriesAt(snaps[..last], id);
    }
  }

  lemma {:induction false} NoEntries(snaps: seq<Snapshot>, id: Id)
    requires !HasSnapshot(snaps, id)
    ensures EntriesOf(snaps, id) == map[]
  {
    if snaps != [] {
      var init := snaps[..|snaps| - 1];
      forall i | 0 <= i < |init|
        ensures init[i].id != id
      {
        assert snaps[i] == init[i];
      }
      NoEntries(init, id);
    }
  }

  /** Entries are always a forest of fine rows: those of a snapshot, or none. */
  lemma EntriesOk(db: Db, id: Id)
    requires SnapshotsOk(db)
    ensures var e := EntriesOf(db.snapshots, id);
            IsForest(EntryParents(e)) && forall x :: x in e ==> EntryOk(db, x, e[x])
  {
    hide ContentOk;
    if HasSnapshot(db.snapshots, id) {
      EntriesAt(db.snapshots, id);
      var i :| 0 <= i < |db.snapshots| && EntriesOf(db.snapshots, id) == db.snapshots[i].entries;
      assert SnapshotOk(db, db.snapshots[i]);
    } else {
      NoEntries(db.snapshots, id);
      EmptyForest();
      assert EntryParents(map[]) == map[];
    }
  }

  lemma RestoredRowOk(db: Db, target: map<Id, Entry>, x: Id)
    requires ItemsOk(db) && x in target && EntryOk(db, x, target[x])
    ensures ItemOk(db, x, RestoredItem(db.items, target, x))
  {
    if x in db.items {
      assert ItemOk(db, x, db.items[x]);
    }
  }

  /** New item rows that are fine and form a forest, with all file rows still there. */
  lemma ItemsReplaced(db: Db, items: map<Id, Item>)
    requires Inv(db) && IsForest(ItemParents(items))
    requires forall x :: x in items ==> ItemOk(db, x, items[x])
    requires forall x :: x in db.items ==> x in items
    ensures Inv(db.(items := items))
  {
    var t := db.(items := items);
    hide IsForest, ContentOk, SnapshotOk;
    SameWidens(db, t);
    forall x | x in items
      ensures ItemOk(t, x, items[x])
    {
      ItemWidens(db, t, {}, x, items[x]);
    }
    forall v | v in t.versions
      ensures VersionOk(t, t.versions[v])
    {
      assert VersionOk(db, db.versions[v]);
      var file := db.versions[v].file;
      assert ItemOk(db, file, db.items[file]) && ItemOk(db, file, items[file]);
    }
    SnapshotsWiden(db, t, {});
  }

  lemma RestoreItemsInv(db: Db, entries: map<Id, Entry>, selected: Option<set<Id>>, exact: bool)
    requires Inv(db) && IsForest(EntryParents(entries))
    requires forall x :: x in entries ==> EntryOk(db, x, entries[x])
    requires !ComesBackInCircle(db.items, Target(entries, selected))
    ensures Inv(db.(items := RestoredItems(db.items, entries, selected, exact)))
  {
    hide ContentOk, SnapshotsOk, VersionsOk, ComesBackInCircle, Reached;
    var target := Target(entries, selected);
    AcyclicShrink(EntryParents(entries), EntryParents(target));
    RestoreKeepsForest(db.items, target);
    hide IsForest;
    var rows := RestoreRows(db.items, target);
    ExtrasParents(rows, entries.Keys, if selected.None? then None else Some(target.Keys));
    var after := RestoredItems(db.items, entries, selected, exact);
    forall x | x in after
      ensures ItemOk(db, x, after[x])
    {
      if x in target {
        RestoredRowOk(db, target, x);
      } else {
        assert ItemOk(db, x, db.items[x]);
      }
    }
    ItemsReplaced(db, after);
  }

  /** The safety snapshot taken, the selection does not come back in a circle. */
  ghost predicate AttachesSafely(db: Db, id: Id, safety: Id, selected: Option<set<Id>>) {
    var s := CreateSnapshot(db, safety, PreRestore, false);
    !ComesBackInCircle(s.items, Target(EntriesOf(s.snapshots, id), selected))
  }

  /** Restoring a snapshot, whole or in parts without a circle, keeps the drive a forest, the
      foreign keys and the blobs. */
  lemma RestoreInv(db: Db, id: Id, safety: Id, selected: Option<set<Id>>, exact: bool)
    requires Inv(db) && FreshSnapshotId(db, safety) && db.retention >= 1
    requires selected.Some? ==> AttachesSafely(db, id, safety, selected)
    ensures RestoreSnapshot(db, id, safety, selected, exact).Some? ==>
              Inv(RestoreSnapshot(db, id, safety, selected, exact).value)
  {
    hide Inv, RestoredItems, EntriesOf, SnapshotsOk, Prune, ComesBackInCircle, Reached;
    CreateSnapshotInv(db, safety, PreRestore, false);
    var s := CreateSnapshot(db, safety, PreRestore, false);
    SnapshotsOfInv(s);
    EntriesOk(s, id);
    var entries := EntriesOf(s.snapshots, id);
    if selected.None? {
      WholeHasNoCircle(s.items, entries);
    }
    RestoreItemsInv(s, entries, selected, exact);
  }

  lemma SnapshotsOfInv(db: Db)
    requires Inv(db)
    ensures SnapshotsOk(db)
  {
  }

  // ----- the capture / restore round trip -----

  /** One item's identity for change detection. */
  datatype Signature = Signature(id: Id, parent: Option<Id>, name: string, kind: Kind, checksum: string)

  function OrEmpty(checksum: Option<string>): string {
    if checksum.Some? then checksum.value else ""
  }

  function ItemsSignature(items: map<Id, Item>): set<Signature> {
    set x | x in items && !items[x].deleted ::
      Signature(x, items[x].parent, items[x].name, items[x].kind, OrEmpty(items[x].checksum))
  }

  function EntriesSignature(entries: map<Id, Entry>): set<Signature> {
    set x | x in entries ::
      Signature(x, entries[x].parent, entries[x].name, entries[x].kind, OrEmpty(entries[x].checksum))
  }

  /** The target is still there after the safety snapshot's pruning. */
  ghost predicate Survives(db: Db, id: Id, safety: Id) {
    HasSnapshot(CreateSnapshot(db, safety, PreRestore, false).snapshots, id)
  }

  lemma {:induction false} SameEntries(snaps: seq<Snapshot>, id: Id, s: Snapshot)
    requires DistinctIds(snaps) && s in snaps && s.id == id
    ensures HasSnapshot(snaps, id) && EntriesOf(snaps, id) == s.entries
  {
    var last := |snaps| - 1;
    if snaps[last] != s {
      DistinctInit(snaps);
      SameEntries(snaps[..last], id, s);
    }
  }

  /** Pruning deletes snapshots; the entries of those that stay are as they were. */
  lemma PruneKeepsEntries(snaps: seq<Snapshot>, n: int, quota: int, id: Id)
    requires n >= 1 && DistinctIds(snaps) && HasSnapshot(Prune(snaps, n, quota), id)
    ensures HasSnapshot(snaps, id) && EntriesOf(Prune(snaps, n, quota), id) == EntriesOf(snaps, id)
  {
    hide Prune;
    var after := Prune(snaps, n, quota);
    PruneKeepsDistinct(snaps, n, quota);
    var i :| 0 <= i < |after| && after[i].id == id;
    assert after[i] in after && after[i] in snaps;
    SameEntries(after, id, after[i]);
    SameEntries(snaps, id, after[i]);
  }

  lemma {:induction false} EntriesBehind(first: Snapshot, snaps: seq<Snapshot>, id: Id)
    requires first.id != id
    ensures EntriesOf([first] + snaps, id) == EntriesOf(snaps, id)
    ensures HasSnapshot([first] + snaps, id) <==> HasSnapshot(snaps, id)
  {
    var all := [first] + snaps;
    forall i | 0 <= i < |snaps|
      ensures all[i + 1] == snaps[i]
    {
    }
    if snaps == [] {
      assert all[..0] == [];
    } else {
      assert all[..|snaps|] == [first] + snaps[..|snaps| - 1];
      EntriesBehind(first, snaps[..|snaps| - 1], id);
    }
  }

  /** Taking a snapshot leaves the other snapshots' entries as they were. */
  lemma CreateKeepsEntries(db: Db, newId: Id, trigger: Trigger, pinned: bool, id: Id)
    requires Inv(db) && FreshSnapshotId(db, newId) && db.retention >= 1 && id != newId
    requires HasSnapshot(CreateSnapshot(db, newId, trigger, pinned).snapshots, id)
    ensures HasSnapshot(db.snapshots, id)
    ensures EntriesOf(CreateSnapshot(db, newId, trigger, pinned).snapshots, id) == EntriesOf(db.snapshots, id)
  {
    hide Prune, SnapshotOk, Capture, EntriesOf, HasSnapshot;
    var s := NewSnapshot(db, newId, trigger, pinned);
    InvSnapshots(db);
    PruneKeepsEntries([s] + db.snapshots, db.retention, SnapshotQuota(db), id);
    EntriesBehind(s, db.snapshots, id);
  }

  /** A target that survives has the entries it had before. */
  lemma SurvivorUnchanged(db: Db, id: Id, safety: Id)
    requires Inv(db) && FreshSnapshotId(db, safety) && db.retention >= 1
    requires HasSnapshot(db.snapshots, id) && Survives(db, id, safety)
    ensures EntriesOf(CreateSnapshot(db, safety, PreRestore, false).snapshots, id) == EntriesOf(db.snapshots, id)
  {
    hide Prune, Capture, EntriesOf, Inv;
    var i :| 0 <= i < |db.snapshots| && db.snapshots[i].id == id;
    CreateKeepsEntries(db, safety, PreRestore, false, id);
  }

  /** After restoring entries over rows and trashing the rest, the live items are the entries. */
  lemma MirrorCaptures(db: Db, entries: map<Id, Entry>)
    requires Inv(db) && IsForest(EntryParents(entries))
    requires forall x :: x in entries ==> EntryOk(db, x, entries[x])
    ensures var after := RestoredItems(db.items, entries, None, true);
            && Capture(after) == entries
            && ItemsSignature(after) == EntriesSignature(entries)
  {
    hide ItemsOk, IsForest, RowOk, RestoredItem, RestoredItems, Capture, CaptureItem;
    var after := RestoredItems(db.items, entries, None, true);
    MirrorRows(db.items, entries);
    forall x | x in entries
      ensures after[x] == Item(entries[x].parent, entries[x].kind, entries[x].name, entries[x].size,
                               entries[x].key, entries[x].checksum, false)
      ensures CaptureItem(after, x) == entries[x]
    {
      MirrorRow(db, entries, after, x);
    }
    CaptureIs(after, entries);
    SameSignature(after, entries);
  }

  lemma MirrorRows(items: map<Id, Item>, entries: map<Id, Entry>)
    ensures var after := RestoredItems(items, entries, None, true);
            && Live(after) == entries.Keys
            && forall x :: x in entries ==> after[x] == RestoredItem(items, entries, x)
  {
    hide RestoredItem;
    RestoredIsLive(items, entries);
  }

  lemma RestoredIsLive(items: map<Id, Item>, target: map<Id, Entry>)
    ensures forall x :: x in target ==> !RestoredItem(items, target, x).deleted
  {
  }

  lemma MirrorRow(db: Db, entries: map<Id, Entry>, after: map<Id, Item>, x: Id)
    requires ItemsOk(db) && IsForest(EntryParents(entries)) && x in entries && EntryOk(db, x, entries[x])
    requires Live(after) == entries.Keys && x in after && after[x] == RestoredItem(db.items, entries, x)
    ensures after[x] == Item(entries[x].parent, entries[x].kind, entries[x].name, entries[x].size,
                             entries[x].key, entries[x].checksum, false)
    ensures CaptureItem(after, x) == entries[x]
  {
    RestoredEntry(db, entries, x);
    if entries[x].parent.Some? {
      assert EntryParents(entries)[x] == entries[x].parent;
      assert entries[x].parent.value in Live(after);
    }
  }

  lemma CaptureIs(items: map<Id, Item>, entries: map<Id, Entry>)
    requires Live(items) == entries.Keys
    requires forall x :: x in entries ==> x in items && CaptureItem(items, x) == entries[x]
    ensures Capture(items) == entries
  {
  }

  lemma SameSignature(items: map<Id, Item>, entries: map<Id, Entry>)
    requires Live(items) == entries.Keys
    requires forall x :: x in entries ==>
               && items[x].parent == entries[x].parent && items[x].name == entries[x].name
               && items[x].kind == entries[x].kind && items[x].checksum == entries[x].checksum
    ensures ItemsSignature(items) == EntriesSignature(entries)
  {
    forall x | x in entries
      ensures x in items && !items[x].deleted
    {
      assert x in Live(items);
    }
    forall x | x in items && !items[x].deleted
      ensures x in entries
    {
      assert x in Live(items);
    }
  }

  /** The row written for an entry of the invariant carries exactly the entry's fields. */
  lemma RestoredEntry(db: Db, entries: map<Id, Entry>, x: Id)
    requires ItemsOk(db) && Closed(EntryParents(entries)) && x in entries && EntryOk(db, x, entries[x])
    ensures var i := RestoredItem(db.items, entries, x);
            && i == Item(entries[x].parent, entries[x].kind, entries[x].name, entries[x].size,
                         entries[x].key, entries[x].checksum, false)
            && (i.kind.Folder? ==> i.size == 0 && i.key.None? && i.checksum.None?)
  {
    if x in db.items {
      assert ItemOk(db, x, db.items[x]);
    }
    if entries[x].parent.Some? {
      assert EntryParents(entries)[x] == entries[x].parent;
    }
  }

  lemma MirrorOfNothing(items: map<Id, Item>)
    ensures Capture(RestoredItems(items, map[], None, true)) == map[]
  {
    var after := RestoredItems(items, map[], None, true);
    assert RestoreRows(items, map[]) == items;
    assert Live(after) == {};
  }

  /** The whole-scope mirror restore brings the drive back to the snapshot exactly when the
      snapshot survives the pruning that the restore's own safety snapshot triggers (or was
      empty). If it does not survive, everything live is trashed. */
  lemma MirrorRoundTrip(db: Db, id: Id, safety: Id)
    requires Inv(db) && FreshSnapshotId(db, safety) && db.retention >= 1
    requires HasSnapshot(db.snapshots, id)
    ensures var entries := EntriesOf(db.snapshots, id);
            var after := RestoreSnapshot(db, id, safety, None, true).value.items;
            && (Capture(after) == entries <==> Survives(db, id, safety) || entries == map[])
            && (Survives(db, id, safety) ==> ItemsSignature(after) == EntriesSignature(entries))
            && (!Survives(db, id, safety) ==> Capture(after) == map[])
  {
    hide Inv, RestoredItems, EntriesOf, Capture, Prune, SnapshotsOk, ItemsSignature, EntriesSignature;
    CreateSnapshotInv(db, safety, PreRestore, false);
    var s := CreateSnapshot(db, safety, PreRestore, false);
    SnapshotsOfInv(s);
    if Survives(db, id, safety) {
      SurvivorUnchanged(db, id, safety);
      EntriesOk(s, id);
      MirrorCaptures(s, EntriesOf(s.snapshots, id));
    } else {
      NoEntries(s.snapshots, id);
      MirrorOfNothing(s.items);
    }
  }

  /** With `keep_new` the restored drive contains the snapshot and leaves later items alone. */
  lemma KeepNewRoundTrip(db: Db, id: Id, safety: Id)
    requires Inv(db) && FreshSnapshotId(db, safety) && db.retention >= 1
    requires HasSnapshot(db.snapshots, id) && Survives(db, id, safety)
    ensures var entries := EntriesOf(db.snapshots, id);
            var after := RestoreSnapshot(db, id, safety, None, false).value.items;
            && (forall x :: x in entries ==> x in Capture(after) && Capture(after)[x] == entries[x])
            && (forall x :: x in db.items && x !in entries ==> x in after && after[x] == db.items[x])
            && after.Keys == db.items.Keys + entries.Keys
  {
    hide Inv, EntriesOf, Prune, SnapshotsOk;
    CreateSnapshotInv(db, safety, PreRestore, false);
    var s := CreateSnapshot(db, safety, PreRestore, false);
    SnapshotsOfInv(s);
    SurvivorUnchanged(db, id, safety);
    EntriesOk(s, id);
    KeepNewCaptures(s, EntriesOf(s.snapshots, id));
  }

  lemma KeepNewCaptures(db: Db, entries: map<Id, Entry>)
    requires Inv(db) && IsForest(EntryParents(entries))
    requires forall x :: x in entries ==> EntryOk(db, x, entries[x])
    ensures var after := RestoredItems(db.items, entries, None, false);
            && (forall x :: x in entries ==> x in Capture(after) && Capture(after)[x] == entries[x])
            && (forall x :: x in db.items && x !in entries ==> x in after && after[x] == db.items[x])
            && after.Keys == db.items.Keys + entries.Keys
  {
    hide ItemsOk, IsForest, RowOk, RestoredItem, Capture, CaptureItem;
    var after := RestoredItems(db.items, entries, None, false);
    RestoredIsLive(db.items, entries);
    forall x | x in entries
      ensures x in Capture(after) && Capture(after)[x] == entries[x]
    {
      KeepNewRow(db, entries, after, x);
    }
  }

  lemma KeepNewRow(db: Db, entries: map<Id, Entry>, after: map<Id, Item>, x: Id)
    requires ItemsOk(db) && IsForest(EntryParents(entries)) && x in entries && EntryOk(db, x, entries[x])
    requires forall y :: y in entries ==> y in after && after[y] == RestoredItem(db.items, entries, y)
    ensures x in Capture(after) && Capture(after)[x] == entries[x]
  {
    hide ItemsOk, RowOk;
    RestoredEntry(db, entries, x);
    RestoredIsLive(db.items, entries);
    if entries[x].parent.Some? {
      assert EntryParents(entries)[x] == entries[x].parent;
    }
  }

  // ----- when the target survives -----

  /** A pinned or safety snapshot always survives. Any other one survives exactly when the safety
      snapshot does not push it out of the retention window and, unless the quota is off, its
      content fits the quota together with that of the safety snapshot, all newer snapshots and
      all exempt ones. */
  lemma SurvivalCondition(db: Db, i: nat, safety: Id)
    requires Inv(db) && FreshSnapshotId(db, safety) && db.retention >= 1 && i < |db.snapshots|
    ensures var all := [NewSnapshot(db, safety, PreRestore, false)] + db.snapshots;
            Survives(db, db.snapshots[i].id, safety) <==>
              || Exempt(db.snapshots[i])
              || (i + 1 < db.retention &&
                  (SnapshotQuota(db) <= 0 || UsedBytes(DroppedFrom(all, i + 2, safety)) <= SnapshotQuota(db)))
  {
    hide SnapshotOk, Capture, Prune, HasSnapshot, Exempt, UsedBytes, DroppedFrom, Retained;
    var all := [NewSnapshot(db, safety, PreRestore, false)] + db.snapshots;
    InvSnapshots(db);
    PrependDistinct(NewSnapshot(db, safety, PreRestore, false), db.snapshots);
    assert all[i + 1] == db.snapshots[i];
    ExemptSurvives(all, db.retention, SnapshotQuota(db), i + 1);
    RetentionKeeps(all, db.retention, i + 1);
    if SnapshotQuota(db) <= 0 {
      NoQuotaPass(all, db.retention, SnapshotQuota(db));
    } else if !Exempt(db.snapshots[i]) {
      QuotaKeeps(all, db.retention, SnapshotQuota(db), i + 1);
    }
  }

  /** A snapshot that is neither newest nor exempt survives pruning exactly when it is inside the
      retention window and its content, with that of all newer and all exempt snapshots, fits
      the quota. */
  lemma QuotaKeeps(snaps: seq<Snapshot>, n: int, quota: int, i: nat)
    requires DistinctIds(snaps) && n >= 1 && quota > 0 && 0 < i < |snaps| && !Exempt(snaps[i])
    ensures HasSnapshot(Prune(snaps, n, quota), snaps[i].id) <==>
            i < n && UsedBytes(DroppedFrom(snaps, i + 1, snaps[0].id)) <= quota
  {
    hide UsedBytes, FitQuota, Prune, Retained, DroppedFrom, HasSnapshot, Exempt;
    var kept, newest := Retained(snaps, n), snaps[0].id;
    assert snaps[0].id != snaps[i].id;
    RetentionKeeps(snaps, n, i);
    var c := PruneCuts(snaps, n, quota);
    RetainedDistinct(snaps, n);
    if i < n {
      RetainedPrefix(snaps, n, i);
      CutKeeps(kept, c, newest, i);
      SameUsage(snaps, n, i);
      UsedGrowsBelow(kept, i + 1, c, newest);
    } else {
      DroppedDistinct(kept, c, newest);
      FewerSnapshots(DroppedFrom(kept, c, newest), kept, snaps[i].id);
    }
  }

  lemma FewerSnapshots(fewer: seq<Snapshot>, snaps: seq<Snapshot>, id: Id)
    requires forall s :: s in fewer ==> s in snaps
    ensures HasSnapshot(fewer, id) ==> HasSnapshot(snaps, id)
  {
    if HasSnapshot(fewer, id) {
      var i :| 0 <= i < |fewer| && fewer[i].id == id;
      assert fewer[i] in snaps;
      InList(snaps, fewer[i]);
    }
  }

  /** What is not protected stays exactly below the cut. */
  lemma CutKeeps(kept: seq<Snapshot>, c: nat, newest: Id, i: nat)
    requires DistinctIds(kept) && i < |kept| && !Protected(kept[i], newest)
    ensures HasSnapshot(DroppedFrom(kept, c, newest), kept[i].id) <==> i < c
  {
    hide DroppedFrom, Exempt;
    var after := DroppedFrom(kept, c, newest);
    DroppedMembers(kept, c, newest, kept[i]);
    if i < c {
      InList(after, kept[i]);
    }
    if HasSnapshot(after, kept[i].id) {
      var j :| 0 <= j < |after| && after[j].id == kept[i].id;
      DroppedMembers(kept, c, newest, after[j]);
      var k :| 0 <= k < |kept| && kept[k] == after[j] && (k < c || Protected(after[j], newest));
      DistinctAt(kept, i, k);
    }
  }

  /** Retention takes nothing away from what the quota pass weighs for a snapshot in the window. */
  lemma SameUsage(snaps: seq<Snapshot>, n: int, i: nat)
    requires DistinctIds(snaps) && i < |snaps| && i < n
    ensures UsedBytes(DroppedFrom(Retained(snaps, n), i + 1, snaps[0].id)) ==
            UsedBytes(DroppedFrom(snaps, i + 1, snaps[0].id))
  {
    hide UsedBytes, DroppedFrom, Retained, Exempt, DistinctIds;
    var a, b := DroppedFrom(Retained(snaps, n), i + 1, snaps[0].id), DroppedFrom(snaps, i + 1, snaps[0].id);
    forall s
      ensures s in a <==> s in b
    {
      SameWeighed(snaps, n, i, s);
    }
    UsedSame(a, b);
  }

  lemma SameWeighed(snaps: seq<Snapshot>, n: int, i: nat, s: Snapshot)
    requires DistinctIds(snaps) && i < |snaps| && i < n
    ensures s in DroppedFrom(Retained(snaps, n), i + 1, snaps[0].id) <==>
            s in DroppedFrom(snaps, i + 1, snaps[0].id)
  {
    hide DroppedFrom, Retained, Exempt;
    var kept, newest := Retained(snaps, n), snaps[0].id;
    RetainedMembers(snaps, n, s);
    DroppedMembers(kept, i + 1, newest, s);
    DroppedMembers(snaps, i + 1, newest, s);
    if s in DroppedFrom(kept, i + 1, newest) {
      var j :| 0 <= j < |kept| && kept[j] == s && (j < i + 1 || Protected(s, newest));
      if j < i + 1 {
        RetainedPrefix(snaps, n, j);
      }
      var k :| 0 <= k < |snaps| && snaps[k] == s && (k < n || Exempt(s));
    }
    if j :| 0 <= j < |snaps| && snaps[j] == s && (j < i + 1 || Protected(s, newest)) {
      assert j > 0 ==> snaps[0].id != snaps[j].id;
      if j < i + 1 {
        RetainedPrefix(snaps, n, j);
      } else {
        assert s in kept;
      }
    }
  }

  lemma PrependDistinct(first: Snapshot, snaps: seq<Snapshot>)
    requires DistinctIds(snaps) && forall i :: 0 <= i < |snaps| ==> snaps[i].id != first.id
    ensures DistinctIds([first] + snaps)
  {
  }

  lemma NoQuotaPass(snaps: seq<Snapshot>, n: int, quota: int)
    requires quota <= 0
    ensures Prune(snaps, n, quota) == Retained(snaps, n)
  {
  }

  lemma ExemptSurvives(snaps: seq<Snapshot>, n: int, quota: int, i: nat)
    requires n >= 1 && i < |snaps|
    ensures Exempt(snaps[i]) ==> HasSnapshot(Prune(snaps, n, quota), snaps[i].id)
  {
    hide Prune, HasSnapshot;
    if Exempt(snaps[i]) {
      PruneSurvivors(snaps, n, quota);
      InList(Prune(snaps, n, quota), snaps[i]);
    }
  }

  lemma RetentionKeeps(snaps: seq<Snapshot>, n: int, i: nat)
    requires DistinctIds(snaps) && i < |snaps|
    ensures HasSnapshot(Retained(snaps, n), snaps[i].id) <==> Exempt(snaps[i]) || i < n
  {
    hide Retained, Exempt;
    var s := snaps[i];
    var after := Retained(snaps, n);
    RetainedMembers(snaps, n, s);
    if s in after {
      InList(after, s);
      var j :| 0 <= j < |snaps| && snaps[j] == s && (j < n || Exempt(s));
      DistinctAt(snaps, i, j);
    }
    if HasSnapshot(after, s.id) {
      var j :| 0 <= j < |after| && after[j].id == s.id;
      RetainedDistinct(snaps, n);
      assert after[j] in snaps;
      var k :| 0 <= k < |snaps| && snaps[k] == after[j];
      DistinctAt(snaps, i, k);
      assert s in after;
    }
  }

  lemma InList(snaps: seq<Snapshot>, s: Snapshot)
    requires s in snaps
    ensures HasSnapshot(snaps, s.id)
  {
    var i :| 0 <= i < |snaps| && snaps[i] == s;
  }

  lemma DistinctAt(snaps: seq<Snapshot>, i: nat, j: nat)
    requires DistinctIds(snaps) && i < |snaps| && j < |snaps| && snaps[i].id == snaps[j].id
    ensures i == j
  {
  }
}
