/** What holds of the snapshots at any time of any run. */
module SnapshotRuns {
  import opened Text
  import opened Forest
  import opened Names
  import opened Drive
  import opened Trash
  import opened Snapshots
  import opened SnapshotService
  import opened Restore
  import opened Runs
  import opened SnapshotEffects

  predicate Protects(s: Snapshot) {
    s.pinned || s.trigger == PreRestore
  }

  /** Behind the newest `n` only pinned and safety snapshots are left. */
  predicate InWindow(snaps: seq<Snapshot>, n: int) {
    forall i :: 0 <= i < |snaps| ==> i < n || Protects(snaps[i])
  }

  /** The quota is off, or usage fits, or nothing but the newest could still be given up. */
  ghost predicate InQuota(snaps: seq<Snapshot>, quota: int) {
    quota <= 0 || UsedBytes(snaps) <= quota || forall i :: 0 < i < |snaps| ==> Protects(snaps[i])
  }

  ghost predicate WithinSettings(db: Db) {
    InWindow(db.snapshots, db.retention) && InQuota(db.snapshots, QuotaInForce(db.quota, db.snapshotQuota))
  }

  lemma PruneInWindow(snaps: seq<Snapshot>, n: int, quota: int)
    requires n >= 1
    ensures InWindow(Prune(snaps, n, quota), n)
  {
    hide UsedBytes, Retained, DroppedFrom, FitQuota;
    RetainedWithin(snaps, n);
    if snaps != [] && quota > 0 {
      var c := PruneCuts(snaps, n, quota);
      DroppedWithin(Retained(snaps, n), c, snaps[0].id, n);
    }
  }

  lemma PruneInQuota(snaps: seq<Snapshot>, n: int, quota: int)
    requires n >= 1 && DistinctIds(snaps)
    ensures InQuota(Prune(snaps, n, quota), quota)
  {
    hide UsedBytes, Prune;
    var at := PruneInOrder(snaps, n, quota);
    if snaps != [] {
      PruneMeetsQuota(snaps, n, quota);
      var left := Prune(snaps, n, quota);
      if forall s :: s in left ==> Protected(s, snaps[0].id) {
        forall i | 0 < i < |left|
          ensures Protects(left[i])
        {
          assert left[i] in left && 0 <= at[0] < at[i];
        }
      }
    }
  }

  /** Only taking a snapshot, restoring one and changing settings touch these. */
  lemma StepKeepsSettings(db: Db, op: Op)
    ensures Step(db, op).quota == db.quota
    ensures !op.ChangeSettings? ==>
              Step(db, op).retention == db.retention && Step(db, op).snapshotQuota == db.snapshotQuota
  {
    hide FreeName, IsFreeName, Below, ValidName, Subtree, Reclaimed, Prune, Capture, RestoredItems, EntriesOf;
  }

  lemma PrunedWithin(snaps: seq<Snapshot>, t: Db)
    requires t.retention >= 1 && DistinctIds(snaps)
    requires t.snapshots == Prune(snaps, t.retention, QuotaInForce(t.quota, t.snapshotQuota))
    ensures WithinSettings(t)
  {
    PruneInWindow(snaps, t.retention, QuotaInForce(t.quota, t.snapshotQuota));
    PruneInQuota(snaps, t.retention, QuotaInForce(t.quota, t.snapshotQuota));
    hide *;
  }

  lemma TakenWithin(db: Db, id: Id, trigger: Trigger, pinned: bool)
    requires Good(db) && FreshSnapshotId(db, id)
    ensures WithinSettings(CreateSnapshot(db, id, trigger, pinned))
  {
    InvSnapshots(db);
    TakenIs(db, id, trigger, pinned);
    hide Inv, CreateSnapshot, Prune, Capture, SnapshotOk, WithinSettings;
    var first := Snapshot(id, trigger, pinned || trigger == PreRestore, Capture(db.items));
    assert DistinctIds([first] + db.snapshots);
    PrunedWithin([first] + db.snapshots, CreateSnapshot(db, id, trigger, pinned));
  }

  lemma StepWithin(db: Db, op: Op)
    requires Good(db) && Possible(db, op) && WithinSettings(db)
    ensures WithinSettings(Step(db, op))
  {
    hide Inv, WithinSettings, AttachesSafely, CreateSnapshot, UpdateSettings, RestoredItems, EntriesOf, Prune;
    match op
    case TakeSnapshot(snapshot, trigger, pinned) => TakenWithin(db, snapshot, trigger, pinned);
    case RestoreFrom(snapshot, safety, selected, exact) =>
      TakenWithin(db, safety, PreRestore, false);
      RestoredWithin(db, op);
    case ChangeSettings(retention, quotaBytes) =>
      InvSnapshots(db);
      SettingsAre(db, retention, quotaBytes);
      PrunedWithin(db.snapshots, UpdateSettings(db, retention, quotaBytes));
    case _ =>
      StepKeepsSettings(db, op);
      StepKeepsSnapshots(db, op);
      SameSnapshots(db, Step(db, op));
  }

  lemma SameSnapshots(db: Db, t: Db)
    requires WithinSettings(db) && t.snapshots == db.snapshots && t.retention == db.retention
    requires t.quota == db.quota && t.snapshotQuota == db.snapshotQuota
    ensures WithinSettings(t)
  {
    hide InWindow, InQuota;
  }

  lemma RestoredWithin(db: Db, op: Op)
    requires op.RestoreFrom? && WithinSettings(db)
    requires WithinSettings(CreateSnapshot(db, op.safety, PreRestore, false))
    ensures WithinSettings(Step(db, op))
  {
    hide RestoredItems, EntriesOf, CreateSnapshot, HasSnapshot, InWindow, InQuota;
  }

  /** In every reachable state the snapshots are within the retention and the quota in force. */
  lemma {:induction false} RunWithin(db: Db, ops: seq<Op>)
    requires Good(db) && PossibleRun(db, ops) && WithinSettings(db)
    ensures WithinSettings(RunOps(db, ops))
    decreases |ops|
  {
    if ops != [] {
      hide Good, WithinSettings, Step, Possible;
      StepInv(db, ops[0]);
      StepWithin(db, ops[0]);
      RunWithin(Step(db, ops[0]), ops[1..]);
    }
  }

  lemma AlwaysWithin(quota: int, ops: seq<Op>)
    requires PossibleRun(EmptyDrive(quota), ops)
    ensures WithinSettings(RunOps(EmptyDrive(quota), ops))
  {
    EmptyDriveGood(quota);
    hide Good;
    RunWithin(EmptyDrive(quota), ops);
  }

  /** In force are the settings of the last change, clamped, and without one those of a new drive. */
  lemma {:induction false} SettingsInForce(db: Db, ops: seq<Op>)
    ensures var t := RunOps(db, ops);
            && t.quota == db.quota
            && ((forall i :: 0 <= i < |ops| ==> !ops[i].ChangeSettings?) ==>
                  t.retention == db.retention && t.snapshotQuota == db.snapshotQuota)
            && forall k :: LastChange(ops, k) ==>
                 && t.retention == (if ops[k].retention < 1 then 1 else ops[k].retention)
                 && t.snapshotQuota == match ops[k].quotaBytes
                                       case Some(q) => Some(if q < 0 then 0 else q)
                                       case None => None
    decreases |ops|
  {
    if ops != [] {
      StepKeepsSettings(db, ops[0]);
      hide Step;
      SettingsInForce(Step(db, ops[0]), ops[1..]);
      forall k | LastChange(ops, k)
        ensures k > 0 ==> LastChange(ops[1..], k - 1)
        ensures k == 0 ==> forall i :: 0 <= i < |ops[1..]| ==> !ops[1..][i].ChangeSettings?
      {
      }
      if ops[0].ChangeSettings? {
        ChangeSets(db, ops[0]);
      }
    }
  }

  predicate LastChange(ops: seq<Op>, k: int) {
    0 <= k < |ops| && ops[k].ChangeSettings? && forall i :: k < i < |ops| ==> !ops[i].ChangeSettings?
  }

  lemma ChangeSets(db: Db, op: Op)
    requires op.ChangeSettings?
    ensures Step(db, op).retention == (if op.retention < 1 then 1 else op.retention)
    ensures Step(db, op).snapshotQuota == match op.quotaBytes
                                          case Some(q) => Some(if q < 0 then 0 else q)
                                          case None => None
  {
    SettingsAre(db, op.retention, op.quotaBytes);
    hide UpdateSettings, Prune;
  }
}
