/** The archive of a drive that any run has led to. */
module ArchiveRuns {
  import opened Text
  import opened Sets
  import opened Forest
  import opened Names
  import opened Drive
  import opened DriveService
  import opened Trash
  import opened Snapshots
  import opened SnapshotService
  import opened Restore
  import opened Runs
  import opened Siblings
  import opened Archive

  ghost predicate CleanEntries(entries: map<Id, Entry>) {
    forall x :: x in entries ==> '/' !in entries[x].name
  }

  /** No item and no snapshot entry has a separator in its name. */
  ghost predicate CleanDb(db: Db) {
    CleanNames(db.items) && forall s :: s in db.snapshots ==> CleanEntries(s.entries)
  }

  lemma PutClean(items: map<Id, Item>, id: Id, i: Item)
    requires CleanNames(items) && '/' !in i.name
    ensures CleanNames(items[id := i])
  {
  }

  lemma CaptureClean(items: map<Id, Item>)
    requires CleanNames(items)
    ensures CleanEntries(Capture(items))
  {
  }

  lemma PruneClean(db: Db, snaps: seq<Snapshot>, n: int, quota: int)
    requires n >= 1 && DistinctIds(snaps) && forall s :: s in snaps ==> CleanEntries(s.entries)
    ensures forall s :: s in Prune(snaps, n, quota) ==> CleanEntries(s.entries)
  {
    hide Prune, CleanEntries;
    PruneKeepsDistinct(snaps, n, quota);
  }

  lemma CreateClean(db: Db, id: Id, trigger: Trigger, pinned: bool)
    requires Good(db) && FreshSnapshotId(db, id) && CleanDb(db)
    ensures CleanDb(CreateSnapshot(db, id, trigger, pinned))
  {
    hide Prune, CleanEntries, Capture, SnapshotOk;
    InvSnapshots(db);
    CaptureClean(db.items);
    PruneClean(db, [NewSnapshot(db, id, trigger, pinned)] + db.snapshots, db.retention, SnapshotQuota(db));
  }

  lemma {:induction false} EntriesOfClean(snaps: seq<Snapshot>, id: Id)
    requires forall s :: s in snaps ==> CleanEntries(s.entries)
    ensures CleanEntries(EntriesOf(snaps, id))
  {
    if snaps != [] {
      assert snaps[|snaps| - 1] in snaps;
      EntriesOfClean(snaps[..|snaps| - 1], id);
    }
  }

  lemma RestoredClean(items: map<Id, Item>, entries: map<Id, Entry>, selected: Option<set<Id>>, exact: bool)
    requires CleanNames(items) && CleanEntries(entries)
    ensures CleanNames(RestoredItems(items, entries, selected, exact))
  {
    hide Reached;
  }

  /** Every operation, restores included, keeps separators out of names. */
  lemma StepKeepsClean(db: Db, op: Op)
    requires Good(db) && Possible(db, op) && CleanDb(db)
    ensures CleanDb(Step(db, op))
  {
    hide Inv, FreeName, Below, Subtree, Prune, Capture, Reclaimed, EntriesOf, CleanNames, CleanEntries, RestoredItems,
         NamesIn, AttachesSafely;
    var t := Step(db, op);
    match op
    case NewFolder(folder, _, _) =>
      if t != db { PutClean(db.items, folder, t.items[folder]); }
    case SetName(item, _) =>
      if t != db { PutClean(db.items, item, t.items[item]); }
    case UploadFile(file, _, place, name, _, _, _, _, _) =>
      if t != db {
        var valid := ValidName(name).value;
        FreeNameClean(NamesIn(db.items, place, None), valid, SplitName(valid).0, SplitName(valid).1);
        PutClean(db.items, file, t.items[file]);
      }
    case FromTrash(item) =>
      if t != db {
        NameOf(db.items, item);
        var name := db.items[item].name;
        FreeNameClean(NamesIn(db.items, RestorePlace(db.items, item), None), name, SplitName(name).0,
                      SplitName(name).1);
        PutClean(db.items, item, t.items[item]);
      }
    case SetPlace(item, _) =>
      if t != db { NameOf(db.items, item); PutClean(db.items, item, t.items[item]); }
    case ToTrash(item) =>
      if t != db { NameOf(db.items, item); PutClean(db.items, item, t.items[item]); }
    case Erase(item) => FewerClean(db.items, t.items);
    case TakeSnapshot(snapshot, trigger, pinned) => CreateClean(db, snapshot, trigger, pinned);
    case ChangeSettings(retention, quotaBytes) =>
      InvSnapshots(db);
      PruneClean(db, db.snapshots, t.retention, SnapshotQuota(t));
    case RestoreFrom(snapshot, safety, selected, exact) =>
      if HasSnapshot(db.snapshots, snapshot) {
        CreateClean(db, safety, PreRestore, false);
        var s := CreateSnapshot(db, safety, PreRestore, false);
        EntriesOfClean(s.snapshots, snapshot);
        RestoredClean(s.items, EntriesOf(s.snapshots, snapshot), selected, exact);
      }
  }

  lemma NameOf(items: map<Id, Item>, x: Id)
    requires CleanNames(items) && x in items
    ensures '/' !in items[x].name
  {
  }

  lemma FewerClean(items: map<Id, Item>, fewer: map<Id, Item>)
    requires CleanNames(items) && forall x :: x in fewer ==> x in items && fewer[x] == items[x]
    ensures CleanNames(fewer)
  {
  }

  lemma {:induction false} RunKeepsClean(db: Db, ops: seq<Op>)
    requires Good(db) && CleanDb(db) && PossibleRun(db, ops)
    ensures CleanDb(RunOps(db, ops))
    decreases |ops|
  {
    if ops != [] {
      hide Good, CleanDb, Step, Possible;
      StepInv(db, ops[0]);
      StepKeepsClean(db, ops[0]);
      RunKeepsClean(Step(db, ops[0]), ops[1..]);
    }
  }

  lemma LeavesOf(db: Db)
    requires Inv(db)
    ensures FilesAreLeaves(db.items)
  {
    forall x | x in db.items && db.items[x].parent.Some? && db.items[x].parent.value in db.items
      ensures db.items[db.items[x].parent.value].kind.Folder?
    {
      assert ItemOk(db, x, db.items[x]);
      assert ItemOk(db, db.items[x].parent.value, db.items[db.items[x].parent.value]);
    }
  }

  /** After any run without a Time Machine restore, any selection gives an archive without
      colliding names, and each folder contributes exactly its live stored files. */
  lemma ArchiveAfterRun(quota: int, ops: seq<Op>, v: View, rank: map<Id, nat>, ids: seq<Id>)
    requires PossibleRun(EmptyDrive(quota), ops) && forall op :: op in ops ==> !op.RestoreFrom?
    requires v.items == RunOps(EmptyDrive(quota), ops).items && Ranked(v, rank)
    requires forall x :: x in ids ==> x in v.items
    ensures DistinctPaths(Selected(v, rank, ids))
    ensures forall x, path, f :: x in v.items ==>
              (f in FilesAt(v, rank, x, path) <==> exists y: Id, n: nat :: IsPlaced(v, x, path, f, y, n))
  {
    var db := EmptyDrive(quota);
    EmptyDriveGood(quota);
    RunInv(db, ops);
    RunKeepsClean(db, ops);
    RunKeepsNames(db, ops);
    LeavesOf(RunOps(db, ops));
    hide RunOps, PossibleRun, Inv, FilesAt, Ranked, DistinctNames, FilesAreLeaves, IsPlaced, Selected;
    ArchiveNamesDiffer(v, rank, ids);
    forall x, path, f | x in v.items
      ensures f in FilesAt(v, rank, x, path) <==> exists y: Id, n: nat :: IsPlaced(v, x, path, f, y, n)
    {
      CollectsExactly(v, rank, x, path, f);
    }
  }
}
