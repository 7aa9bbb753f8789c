/** Where storage keys can come from: no operation but an upload makes a key referenced that
    was not referenced before. */
module Keys {
  import opened Text
  import opened Sums
  import opened Forest
  import opened Names
  import opened Drive
  import opened DriveService
  import opened Trash
  import opened Snapshots
  import opened SnapshotService
  import opened Restore
  import opened Runs

  /** What one operation may do to keys, blobs and ids. */
  ghost predicate KeysMove(s: Db, t: Db, restoring: bool) {
    && VersionKeys(t.versions) <= VersionKeys(s.versions)
    && ItemKeys(t.items) <= ItemKeys(s.items) + (if restoring then SnapshotKeys(s.snapshots) else {})
    && SnapshotKeys(t.snapshots) <= SnapshotKeys(s.snapshots) + ItemKeys(s.items)
  }

  /** Blobs are only removed, and only those of file versions. */
  ghost predicate BlobsShrink(s: Db, t: Db) {
    && (forall k :: k in t.blobs ==> k in s.blobs && t.blobs[k] == s.blobs[k])
    && (forall k :: k in s.blobs && k !in VersionKeys(s.versions) ==> k in t.blobs)
    && t.owners == s.owners
  }

  lemma SubsetSnapshots(a: seq<Snapshot>, b: seq<Snapshot>)
    requires forall s :: s in a ==> s in b
    ensures SnapshotKeys(a) <= SnapshotKeys(b)
  {
    forall k | k in SnapshotKeys(a)
      ensures k in SnapshotKeys(b)
    {
      var i :| 0 <= i < |a| && k in EntryKeys(a[i].entries);
      assert a[i] in a;
      var j :| 0 <= j < |b| && b[j] == a[i];
    }
  }

  lemma CaptureKeys(items: map<Id, Item>)
    ensures EntryKeys(Capture(items)) <= ItemKeys(items)
  {
    forall k | k in EntryKeys(Capture(items))
      ensures k in ItemKeys(items)
    {
      var x :| x in Capture(items) && Capture(items)[x].key == Some(k);
      assert items[x].key == Some(k);
    }
  }

  lemma ConsKeys(s: Snapshot, snaps: seq<Snapshot>)
    ensures SnapshotKeys([s] + snaps) == EntryKeys(s.entries) + SnapshotKeys(snaps)
  {
    hide EntryKeys;
    var all := [s] + snaps;
    forall k | k in SnapshotKeys(all)
      ensures k in EntryKeys(s.entries) + SnapshotKeys(snaps)
    {
      var i :| 0 <= i < |all| && k in EntryKeys(all[i].entries);
      if i > 0 {
        assert all[i] == snaps[i - 1];
      }
    }
    forall k | k in SnapshotKeys(snaps)
      ensures k in SnapshotKeys(all)
    {
      var i :| 0 <= i < |snaps| && k in EntryKeys(snaps[i].entries);
      assert all[i + 1] == snaps[i];
    }
    assert all[0] == s;
  }

  lemma PruneKeys(snaps: seq<Snapshot>, n: int, quota: int)
    requires n >= 1 && DistinctIds(snaps)
    ensures SnapshotKeys(Prune(snaps, n, quota)) <= SnapshotKeys(snaps)
  {
    hide Prune, SnapshotKeys;
    PruneKeepsDistinct(snaps, n, quota);
    SubsetSnapshots(Prune(snaps, n, quota), snaps);
  }

  lemma CreateKeys(db: Db, id: Id, trigger: Trigger, pinned: bool)
    requires Good(db) && FreshSnapshotId(db, id)
    ensures var t := CreateSnapshot(db, id, trigger, pinned);
            SnapshotKeys(t.snapshots) <= SnapshotKeys(db.snapshots) + ItemKeys(db.items)
  {
    hide Prune, SnapshotKeys, ItemKeys, Capture, SnapshotOk;
    var s := NewSnapshot(db, id, trigger, pinned);
    InvSnapshots(db);
    PruneKeys([s] + db.snapshots, db.retention, SnapshotQuota(db));
    ConsKeys(s, db.snapshots);
    CaptureKeys(db.items);
  }

  lemma EntriesKeys(snaps: seq<Snapshot>, id: Id)
    ensures EntryKeys(EntriesOf(snaps, id)) <= SnapshotKeys(snaps)
  {
    if HasSnapshot(snaps, id) {
      EntriesAt(snaps, id);
    } else {
      NoEntries(snaps, id);
    }
  }

  lemma RestoredKeys(items: map<Id, Item>, entries: map<Id, Entry>, selected: Option<set<Id>>, exact: bool)
    ensures ItemKeys(RestoredItems(items, entries, selected, exact)) <= ItemKeys(items) + EntryKeys(entries)
  {
    hide Reached;
    var after := RestoredItems(items, entries, selected, exact);
    forall k | k in ItemKeys(after)
      ensures k in ItemKeys(items) + EntryKeys(entries)
    {
      var x :| x in after && after[x].key == Some(k);
      if x in Target(entries, selected) {
        assert x in entries && entries[x].key == Some(k);
      } else {
        assert x in items && items[x].key == Some(k);
      }
    }
  }

  lemma RestoreKeys(db: Db, op: Op)
    requires Good(db) && op.RestoreFrom? && Possible(db, op)
    ensures KeysMove(db, Step(db, op), true)
  {
    hide Inv, SnapshotKeys, EntryKeys, ItemKeys, RestoredItems, EntriesOf, Prune, Capture, AttachesSafely;
    if HasSnapshot(db.snapshots, op.snapshot) {
      var s := CreateSnapshot(db, op.safety, PreRestore, false);
      CreateKeys(db, op.safety, PreRestore, false);
      var entries := EntriesOf(s.snapshots, op.snapshot);
      EntriesKeys(s.snapshots, op.snapshot);
      RestoredKeys(s.items, entries, op.selected, op.exact);
    }
  }

  lemma OneItemKeys(items: map<Id, Item>, id: Id, i: Item)
    requires if id in items then i.key == items[id].key else i.key.None?
    ensures ItemKeys(items[id := i]) <= ItemKeys(items)
  {
  }

  lemma PurgeKeys(db: Db, gone: set<Id>)
    ensures KeysMove(db, Purge(db, gone), false) && BlobsShrink(db, Purge(db, gone))
  {
    hide Sum;
  }

  /** Operations on one row leave versions, snapshots and blobs alone. */
  lemma RowKeys(db: Db, op: Op)
    requires op.NewFolder? || op.SetName? || op.SetPlace? || op.ToTrash? || op.FromTrash?
    requires Possible(db, op)
    requires forall x :: x in db.items ==> x in db.kinds
    ensures KeysMove(db, Step(db, op), false) && BlobsShrink(db, Step(db, op))
    ensures op.NewFolder? || Step(db, op).kinds == db.kinds
    ensures forall x :: x in Step(db, op).kinds ==> x in db.kinds || (op.NewFolder? && x == op.folder)
  {
    hide FreeName, IsFreeName, Below, ValidName, ItemKeys, NamesIn, SplitName, PlaceError, VersionKeys, SnapshotKeys;
    var t := Step(db, op);
    var id := if op.NewFolder? then op.folder else op.item;
    if t != db {
      assert t.items == db.items[id := t.items[id]];
      OneItemKeys(db.items, id, t.items[id]);
    }
  }

  lemma ItemsHaveKinds(db: Db)
    requires Inv(db)
    ensures forall x :: x in db.items ==> x in db.kinds
  {
    forall x | x in db.items
      ensures x in db.kinds
    {
      assert ItemOk(db, x, db.items[x]);
    }
  }

  /** No operation but an upload brings in a key that nothing referenced; only a Time Machine
      restore gives an item a key that no item had. */
  lemma StepKeys(db: Db, op: Op)
    requires Good(db) && Possible(db, op) && !op.UploadFile?
    ensures KeysMove(db, Step(db, op), op.RestoreFrom?) && BlobsShrink(db, Step(db, op))
    ensures forall x :: x in Step(db, op).kinds ==> x in db.kinds || (op.NewFolder? && x == op.folder)
  {
    hide KeysMove, BlobsShrink, Inv, Prune, Capture, Subtree, Purge, RestoredItems, AttachesSafely, FreshSnapshotId,
         EntriesOf;
    ItemsHaveKinds(db);
    match op
    case Erase(item) =>
      SameKeys(db);
      PurgeKeys(db, Subtree(db.items, item));
      PurgeKinds(db, Subtree(db.items, item));
    case TakeSnapshot(snapshot, trigger, pinned) =>
      SameBlobs(db, op);
      CreateKeys(db, snapshot, trigger, pinned);
      SnapshotStep(db, Step(db, op));
    case ChangeSettings(retention, quotaBytes) =>
      SameBlobs(db, op);
      InvSnapshots(db);
      PruneKeys(db.snapshots, Step(db, op).retention, SnapshotQuota(Step(db, op)));
      SnapshotStep(db, Step(db, op));
    case RestoreFrom(_, _, _, _) =>
      SameBlobs(db, op);
      RestoreKeys(db, op);
    case _ => RowKeys(db, op);
  }

  lemma PurgeKinds(db: Db, gone: set<Id>)
    ensures Purge(db, gone).kinds == db.kinds
  {
  }

  lemma SameKeys(db: Db)
    ensures KeysMove(db, db, false) && BlobsShrink(db, db)
  {
  }

  lemma SnapshotStep(s: Db, t: Db)
    requires t.items == s.items && t.versions == s.versions
    requires SnapshotKeys(t.snapshots) <= SnapshotKeys(s.snapshots) + ItemKeys(s.items)
    ensures KeysMove(s, t, false)
  {
  }

  lemma SameBlobs(db: Db, op: Op)
    requires op.TakeSnapshot? || op.ChangeSettings? || op.RestoreFrom?
    ensures BlobsShrink(db, Step(db, op)) && Step(db, op).kinds == db.kinds
  {
    hide Prune, Capture, RestoredItems;
  }

  // ----- what stays -----

  /** Keys held by snapshots that pruning never deletes. */
  function ExemptKeys(snapshots: seq<Snapshot>): set<Key> {
    set i, k | 0 <= i < |snapshots| && Exempt(snapshots[i]) && k in EntryKeys(snapshots[i].entries) :: k
  }

  lemma ExemptAreHeld(snapshots: seq<Snapshot>)
    ensures ExemptKeys(snapshots) <= SnapshotKeys(snapshots)
  {
  }

  lemma ExemptStay(a: seq<Snapshot>, b: seq<Snapshot>)
    requires forall s :: s in a && Exempt(s) ==> s in b
    ensures ExemptKeys(a) <= ExemptKeys(b)
  {
    hide EntryKeys;
    forall k | k in ExemptKeys(a)
      ensures k in ExemptKeys(b)
    {
      var i :| 0 <= i < |a| && Exempt(a[i]) && k in EntryKeys(a[i].entries);
      assert a[i] in b;
      var j :| 0 <= j < |b| && b[j] == a[i];
    }
  }

  /** Pruning neither loses nor invents a key held by an exempt snapshot. */
  lemma PruneKeepsExempt(snaps: seq<Snapshot>, n: int, quota: int)
    requires n >= 1
    ensures ExemptKeys(Prune(snaps, n, quota)) == ExemptKeys(snaps)
  {
    if snaps != [] {
      hide Prune, ExemptKeys;
      PruneSurvivors(snaps, n, quota);
      ExemptStay(snaps, Prune(snaps, n, quota));
      ExemptStay(Prune(snaps, n, quota), snaps);
    }
  }

  lemma ConsExempt(s: Snapshot, snaps: seq<Snapshot>)
    ensures ExemptKeys([s] + snaps) == ExemptKeys(snaps) + if Exempt(s) then EntryKeys(s.entries) else {}
  {
    hide EntryKeys, Exempt;
    var all := [s] + snaps;
    forall k | k in ExemptKeys(all)
      ensures k in ExemptKeys(snaps) + if Exempt(s) then EntryKeys(s.entries) else {}
    {
      var i :| 0 <= i < |all| && Exempt(all[i]) && k in EntryKeys(all[i].entries);
      if i > 0 {
        assert all[i] == snaps[i - 1];
      }
    }
    forall k | k in ExemptKeys(snaps)
      ensures k in ExemptKeys(all)
    {
      var i :| 0 <= i < |snaps| && Exempt(snaps[i]) && k in EntryKeys(snaps[i].entries);
      assert all[i + 1] == snaps[i];
    }
    assert all[0] == s;
  }

  /** Taking a snapshot adds at most the keys of items. */
  lemma CreateExempt(db: Db, id: Id, trigger: Trigger, pinned: bool)
    requires db.retention >= 1
    ensures var t := CreateSnapshot(db, id, trigger, pinned);
            ExemptKeys(db.snapshots) <= ExemptKeys(t.snapshots) <= ExemptKeys(db.snapshots) + ItemKeys(db.items)
  {
    hide Prune, ExemptKeys, ItemKeys, Capture, Exempt;
    var s := NewSnapshot(db, id, trigger, pinned);
    PruneKeepsExempt([s] + db.snapshots, db.retention, SnapshotQuota(db));
    ConsExempt(s, db.snapshots);
    CaptureKeys(db.items);
  }

  /** No operation loses a key that an exempt snapshot holds. */
  lemma StepKeepsExempt(db: Db, op: Op)
    requires Good(db)
    ensures ExemptKeys(db.snapshots) <= ExemptKeys(Step(db, op).snapshots)
  {
    hide Inv, Prune, Capture, RestoredItems, ExemptKeys;
    match op
    case TakeSnapshot(snapshot, trigger, pinned) => CreateExempt(db, snapshot, trigger, pinned);
    case RestoreFrom(snapshot, safety, _, _) => CreateExempt(db, safety, PreRestore, false);
    case ChangeSettings(retention, quotaBytes) =>
      var t := Step(db, op);
      PruneKeepsExempt(db.snapshots, t.retention, SnapshotQuota(t));
    case UploadFile(_, _, _, _, _, _, _, _, _) => UploadKeepsSnapshots(db, op);
    case _ => StepKeepsSnapshots(db, op);
  }

  lemma UploadKeepsSnapshots(db: Db, op: Op)
    requires op.UploadFile?
    ensures Step(db, op).snapshots == db.snapshots
  {
    hide FreeName, IsFreeName, ValidName;
  }

  /** A version goes only together with its file: a key that an item still names keeps the
      version that named it. */
  lemma StepKeepsVersions(db: Db, op: Op, k: Key)
    requires Good(db) && !op.UploadFile? && k in ItemKeys(Step(db, op).items) && k in VersionKeys(db.versions)
    ensures k in VersionKeys(Step(db, op).versions)
  {
    if op.Erase? && Step(db, op) != db {
      hide Subtree, Step;
      EraseIsPurge(db, op.item);
      PurgeKeepsVersions(db, Subtree(db.items, op.item), k);
    } else if Step(db, op) != db {
      OthersKeepVersions(db, op);
    }
  }

  lemma EraseIsPurge(db: Db, item: Id)
    ensures Step(db, Erase(item)) == db || Step(db, Erase(item)) == Purge(db, Subtree(db.items, item))
  {
    hide Purge, Subtree;
  }

  lemma OthersKeepVersions(db: Db, op: Op)
    requires !op.UploadFile? && !op.Erase?
    ensures Step(db, op).versions == db.versions
  {
    hide FreeName, IsFreeName, Below, ValidName, Prune, Capture, RestoredItems;
  }

  lemma PurgeKeepsVersions(db: Db, gone: set<Id>, k: Key)
    requires Inv(db) && k in ItemKeys(db.items - gone) && k in VersionKeys(db.versions)
    ensures k in VersionKeys(Purge(db, gone).versions)
  {
    var x :| x in db.items - gone && (db.items - gone)[x].key == Some(k);
    var v :| v in db.versions && db.versions[v].key == k;
    assert ItemOk(db, x, db.items[x]) && VersionOk(db, db.versions[v]);
    assert v in VersionsOutside(db.versions, gone);
  }
}
