/** Whole runs: any sequence of drive, trash and Time Machine operations from an empty drive. */
module Runs {
  import opened Text
  import opened Sums
  import opened Forest
  import opened Names
  import opened Drive
  import opened DriveService
  import opened Trash
  import opened Snapshots
  import opened SnapshotService
  import opened Restore

  datatype Op =
    | NewFolder(folder: Id, place: Option<Id>, name: string)
    | SetName(item: Id, name: string)
    | SetPlace(item: Id, place: Option<Id>)
    | UploadFile(file: Id, version: Id, place: Option<Id>, name: string, declared: nat,
                 key: Key, size: nat, checksum: string, now: nat)
    | ToTrash(item: Id)
    | FromTrash(item: Id)
    | Erase(item: Id)
    | TakeSnapshot(snapshot: Id, trigger: Trigger, pinned: bool)
    | ChangeSettings(retention: int, quotaBytes: Option<int>)
    | RestoreFrom(snapshot: Id, safety: Id, selected: Option<set<Id>>, exact: bool)

  /** New ids and keys are new; a partial restore attaches without closing a cycle. */
  ghost predicate Possible(db: Db, op: Op) {
    match op
    case NewFolder(folder, _, _) => folder !in db.kinds
    case UploadFile(file, version, _, _, _, key, _, _, _) =>
      file !in db.kinds && version !in db.versions && key !in db.owners && key !in db.blobs
    case TakeSnapshot(snapshot, _, _) => FreshSnapshotId(db, snapshot)
    case RestoreFrom(snapshot, safety, selected, _) =>
      && FreshSnapshotId(db, safety)
      && (selected.Some? ==> AttachesSafely(db, snapshot, safety, selected))
    case _ => true
  }

  /** One service call; a call that fails leaves the tables as they were. */
  ghost function Step(db: Db, op: Op): Db {
    match op
    case NewFolder(folder, place, name) => After(db, Drive.CreateFolder(db, folder, place, name))
    case SetName(item, name) => After(db, Drive.Rename(db, item, name))
    case SetPlace(item, place) => After(db, Drive.Move(db, item, place))
    case UploadFile(file, version, place, name, declared, key, size, checksum, now) =>
      After(db, Upload(db, file, version, place, name, declared, key, size, checksum, now))
    case ToTrash(item) => After(db, TrashItem(db, item))
    case FromTrash(item) => After(db, RestoreItem(db, item))
    case Erase(item) => After(db, PermanentDelete(db, item))
    case TakeSnapshot(snapshot, trigger, pinned) => CreateSnapshot(db, snapshot, trigger, pinned)
    case ChangeSettings(retention, quotaBytes) => UpdateSettings(db, retention, quotaBytes)
    case RestoreFrom(snapshot, safety, selected, exact) =>
      match RestoreSnapshot(db, snapshot, safety, selected, exact)
      case Some(t) => t
      case None => db
  }

  ghost predicate Good(db: Db) {
    Inv(db) && db.retention >= 1
  }

  lemma UploadInv(db: Db, op: Op)
    requires Inv(db) && op.UploadFile? && Possible(db, op)
    ensures Inv(Step(db, op))
  {
    hide Inv, FreeName, IsFreeName, ValidName, Sum;
    var spec := Upload(db, op.file, op.version, op.place, op.name, op.declared, op.key, op.size, op.checksum, op.now);
    if spec.Done? {
      WriteBlobInv(db, op.file, op.key, op.size, op.now);
      var (stem, ext) := SplitName(ValidName(op.name).value);
      var free := FreeName(NamesIn(db.items, op.place, None), ValidName(op.name).value, stem, ext);
      CommitUploadInv(WriteBlob(db, op.file, op.key, op.size, op.now), op.file, op.version, op.place, free, op.key,
          op.checksum);
    }
  }

  /** Every operation keeps the invariant. */
  lemma StepInv(db: Db, op: Op)
    requires Good(db) && Possible(db, op)
    ensures Good(Step(db, op))
  {
    hide Inv, AttachesSafely, Prune, Subtree, Purge, Capture, RestoredItems, FreeName, Below;
    match op
    case NewFolder(folder, place, name) => CreateFolderInv(db, folder, place, name);
    case SetName(item, name) => RenameInv(db, item, name);
    case SetPlace(item, place) => MoveInv(db, item, place);
    case UploadFile(_, _, _, _, _, _, _, _, _) => UploadInv(db, op);
    case ToTrash(item) => TrashItemInv(db, item);
    case FromTrash(item) => RestoreItemInv(db, item);
    case Erase(item) => EraseInv(db, item);
    case TakeSnapshot(snapshot, trigger, pinned) => CreateSnapshotInv(db, snapshot, trigger, pinned);
    case ChangeSettings(retention, quotaBytes) => UpdateSettingsInv(db, retention, quotaBytes);
    case RestoreFrom(snapshot, safety, selected, exact) => RestoreInv(db, snapshot, safety, selected, exact);
  }

  lemma EraseInv(db: Db, item: Id)
    requires Good(db)
    ensures Good(After(db, PermanentDelete(db, item)))
  {
    PermanentDeleteInv(db, item);
  }

  // ----- runs -----

  ghost function RunOps(db: Db, ops: seq<Op>): Db
    decreases |ops|
  {
    if ops == [] then db else RunOps(Step(db, ops[0]), ops[1..])
  }

  ghost predicate PossibleRun(db: Db, ops: seq<Op>)
    decreases |ops|
  {
    ops == [] || (Possible(db, ops[0]) && PossibleRun(Step(db, ops[0]), ops[1..]))
  }

  function EmptyDrive(quota: int): Db {
    Db(map[], map[], [], map[], 0, quota, 50, None, map[], map[])
  }

  lemma EmptyDriveGood(quota: int)
    ensures Good(EmptyDrive(quota))
  {
    EmptyForest();
    assert ItemParents(map[]) == map[];
    assert SizesOf(map[]) == map[];
  }

  lemma {:induction false} RunInv(db: Db, ops: seq<Op>)
    requires Good(db) && PossibleRun(db, ops)
    ensures Good(RunOps(db, ops))
    decreases |ops|
  {
    if ops != [] {
      hide Good, Step, Possible;
      StepInv(db, ops[0]);
      RunInv(Step(db, ops[0]), ops[1..]);
    }
  }

  /** In every reachable state the drive is a forest that respects its foreign keys, every
      storage key a row names has its blob, `used_bytes` is the size of the file versions, and
      deleting any item for good never runs into the clamp at zero. */
  lemma ReachableStates(quota: int, ops: seq<Op>)
    requires PossibleRun(EmptyDrive(quota), ops)
    ensures var db := RunOps(EmptyDrive(quota), ops);
            && IsForest(ItemParents(db.items))
            && (forall v :: v in db.versions ==> db.versions[v].file in db.items)
            && References(db) <= db.blobs.Keys
            && db.used == Sum(SizesOf(db.versions))
            && forall x :: FreedBytes(db.versions, Subtree(db.items, x)) <= db.used
  {
    EmptyDriveGood(quota);
    RunInv(EmptyDrive(quota), ops);
    var db := RunOps(EmptyDrive(quota), ops);
    hide RunOps, PossibleRun, Sum, FreedBytes, Subtree, References;
    InvHasBlobs(db);
    forall x
      ensures FreedBytes(db.versions, Subtree(db.items, x)) <= db.used
    {
      SubtreeChildClosed(db.items, x);
      PurgeInv(db, Subtree(db.items, x));
    }
    forall v | v in db.versions
      ensures db.versions[v].file in db.items
    {
      assert VersionOk(db, db.versions[v]);
    }
  }

  // ----- going back in time -----

  /** The operation creates a snapshot with this id. */
  predicate Issues(op: Op, id: Id) {
    (op.TakeSnapshot? && op.snapshot == id) || (op.RestoreFrom? && op.safety == id)
  }

  lemma StepKeepsSnapshots(db: Db, op: Op)
    requires !op.TakeSnapshot? && !op.ChangeSettings? && !op.RestoreFrom?
    ensures Step(db, op).snapshots == db.snapshots
  {
    hide FreeName, IsFreeName, Below, ValidName, Subtree, Reclaimed;
  }

  /** No operation changes what a snapshot holds. */
  lemma StepKeepsEntries(db: Db, op: Op, id: Id)
    requires Good(db) && Possible(db, op) && !Issues(op, id) && HasSnapshot(Step(db, op).snapshots, id)
    ensures HasSnapshot(db.snapshots, id)
    ensures EntriesOf(Step(db, op).snapshots, id) == EntriesOf(db.snapshots, id)
  {
    hide Inv, HasSnapshot, EntriesOf, Prune, Capture, RestoredItems, AttachesSafely;
    match op
    case TakeSnapshot(snapshot, trigger, pinned) => CreateKeepsEntries(db, snapshot, trigger, pinned, id);
    case RestoreFrom(snapshot, safety, selected, exact) =>
      if HasSnapshot(db.snapshots, snapshot) {
        CreateKeepsEntries(db, safety, PreRestore, false, id);
      }
    case ChangeSettings(retention, quotaBytes) =>
      var t := Step(db, op);
      InvSnapshots(db);
      PruneKeepsEntries(db.snapshots, t.retention, SnapshotQuota(t), id);
    case _ => StepKeepsSnapshots(db, op);
  }

  lemma {:induction false} RunKeepsEntries(db: Db, ops: seq<Op>, id: Id)
    requires Good(db) && PossibleRun(db, ops) && HasSnapshot(RunOps(db, ops).snapshots, id)
    requires forall op :: op in ops ==> !Issues(op, id)
    ensures HasSnapshot(db.snapshots, id)
    ensures EntriesOf(RunOps(db, ops).snapshots, id) == EntriesOf(db.snapshots, id)
    decreases |ops|
  {
    if ops != [] {
      hide Good, Step, Possible, HasSnapshot, EntriesOf, Issues;
      assert ops[0] in ops && forall op :: op in ops[1..] ==> op in ops;
      StepInv(db, ops[0]);
      RunKeepsEntries(Step(db, ops[0]), ops[1..], id);
      StepKeepsEntries(db, ops[0], id);
    }
  }

  /** Time travel: capture any reachable drive, run anything, and mirror-restore that capture:
      if it survives up to and including the restore's safety prune, the live items are those
      captured and capturing again gives the same entries. */
  lemma TimeTravel(quota: int, before: seq<Op>, id: Id, trigger: Trigger, pinned: bool, between: seq<Op>, safety: Id)
    requires PossibleRun(EmptyDrive(quota), before)
    requires var db := RunOps(EmptyDrive(quota), before);
             && FreshSnapshotId(db, id)
             && PossibleRun(CreateSnapshot(db, id, trigger, pinned), between)
             && (forall op :: op in between ==> !Issues(op, id))
             && var later := RunOps(CreateSnapshot(db, id, trigger, pinned), between);
             FreshSnapshotId(later, safety) && HasSnapshot(later.snapshots, id) && Survives(later, id, safety)
    ensures var db := RunOps(EmptyDrive(quota), before);
            var later := RunOps(CreateSnapshot(db, id, trigger, pinned), between);
            var after := RestoreSnapshot(later, id, safety, None, true).value.items;
            && Capture(after) == Capture(db.items)
            && ItemsSignature(after) == EntriesSignature(Capture(db.items))
  {
    EmptyDriveGood(quota);
    RunInv(EmptyDrive(quota), before);
    var db := RunOps(EmptyDrive(quota), before);
    var taken := CreateSnapshot(db, id, trigger, pinned);
    var later := RunOps(taken, between);
    hide RunOps, PossibleRun, Inv, Capture, EntriesOf, HasSnapshot, Survives, ItemsSignature, EntriesSignature,
         RestoredItems, Prune;
    CreateSnapshotInv(db, id, trigger, pinned);
    RunInv(taken, between);
    RunKeepsEntries(taken, between, id);
    JustTaken(db, id, trigger, pinned);
    MirrorRoundTrip(later, id, safety);
  }

  /** The snapshot just taken holds the capture. */
  lemma JustTaken(db: Db, id: Id, trigger: Trigger, pinned: bool)
    requires Inv(db) && FreshSnapshotId(db, id) && db.retention >= 1
    ensures EntriesOf(CreateSnapshot(db, id, trigger, pinned).snapshots, id) == Capture(db.items)
  {
    hide Prune, SnapshotOk, Capture, EntriesOf;
    var s := NewSnapshot(db, id, trigger, pinned);
    var all := [s] + db.snapshots;
    InvSnapshots(db);
    PruneSurvivors(all, db.retention, SnapshotQuota(db));
    PruneKeepsDistinct(all, db.retention, SnapshotQuota(db));
    var after := Prune(all, db.retention, SnapshotQuota(db));
    assert after[0] in after;
    SameEntries(after, id, s);
  }
}
