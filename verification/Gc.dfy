/** Blob garbage collection interleaved with uploads and every other operation. */
module Gc {
  import opened Text
  import opened Sums
  import opened Forest
  import opened Drive
  import opened Trash
  import opened Snapshots
  import opened SnapshotService
  import opened Restore
  import opened Runs
  import opened Keys

  /** An upload whose blob is written and whose rows are not committed yet. */
  datatype Pending = Pending(file: Id, written: nat, size: nat)

  /** How far the sweep is: `base` is the clock it fixed first, `seen` the keys it has read. */
  datatype Phase =
    | Idle
    | Fixed(base: nat)
    | SawItems(base: nat, seen: set<Key>)
    | SawVersions(base: nat, seen: set<Key>)
    | Sweeping(base: nat, seen: set<Key>)

  datatype Sys = Sys(db: Db, now: nat, pending: map<Key, Pending>, gc: Phase)

  datatype Event =
    | Tick
    | Call(op: Op)
    | Write(file: Id, key: Key, size: nat)
    | Commit(key: Key, version: Id, place: Option<Id>, name: string, checksum: string)
    | Fail(key: Key)
    | Crash(key: Key)
    | GcFix
    | GcReadItems
    | GcReadVersions
    | GcReadSnapshots
    | GcDelete(key: Key)
    | GcEnd

  /** The blob was last written before the cutoff. */
  predicate Old(db: Db, k: Key, base: nat, grace: nat) {
    k in db.blobs && db.blobs[k].modified + grace < base
  }

  /** When an event can happen at all. */
  ghost predicate CanHappen(s: Sys, e: Event, grace: nat) {
    match e
    case Tick => true
    case Call(op) =>
      && !op.UploadFile? && Possible(s.db, op)
      && (op.NewFolder? ==> forall k :: k in s.pending ==> s.pending[k].file != op.folder)
    case Write(file, key, _) =>
      && file !in s.db.kinds && key !in s.db.owners && key !in s.db.blobs
      && forall k :: k in s.pending ==> s.pending[k].file != file
    case Commit(key, version, place, _, _) =>
      key in s.pending && version !in s.db.versions && IsFolderPlace(s.db.items, place)
    case Fail(key) => key in s.pending
    case Crash(key) => key in s.pending
    case GcFix => s.gc.Idle?
    case GcReadItems => s.gc.Fixed?
    case GcReadVersions => s.gc.SawItems?
    case GcReadSnapshots => s.gc.SawVersions?
    case GcDelete(key) => s.gc.Sweeping? && key !in s.gc.seen && Old(s.db, key, s.gc.base, grace)
    case GcEnd => s.gc.Sweeping?
  }

  /** The sweep under way has read the key, or still will: an exempt snapshot holds it, or before
      the version query a version names it. */
  ghost predicate Covered(s: Sys, k: Key) {
    match s.gc
    case SawItems(_, seen) => k in seen || k in ExemptKeys(s.db.snapshots) || k in VersionKeys(s.db.versions)
    case SawVersions(_, seen) => k in seen || k in ExemptKeys(s.db.snapshots)
    case Sweeping(_, seen) => k in seen
    case _ => true
  }

  /** What the sweep under way counts as old. */
  predicate OldNow(s: Sys, k: Key, grace: nat) {
    !s.gc.Idle? && Old(s.db, k, s.gc.base, grace)
  }

  /** The keys a Time Machine restore puts back on items. */
  ghost function RestoredKeysOf(db: Db, op: Op): set<Key>
    requires op.RestoreFrom?
  {
    if !HasSnapshot(db.snapshots, op.snapshot) then {}
    else
      var taken := CreateSnapshot(db, op.safety, PreRestore, false);
      EntryKeys(Target(EntriesOf(taken.snapshots, op.snapshot), op.selected))
  }

  /** An upload commits while its blob is there and not about to be swept: once the versions are
      read, it is too late for an old blob. A Time Machine restore may run between the three
      reference queries when every old key it puts back is covered. */
  ghost predicate WellTimed(s: Sys, e: Event, grace: nat) {
    match e
    case Commit(key, _, _, _, _) =>
      && key in s.db.blobs
      && (s.gc.SawVersions? || s.gc.Sweeping? ==> OldNow(s, key, grace) ==> key in s.gc.seen)
    case Call(op) =>
      op.RestoreFrom? && (s.gc.SawItems? || s.gc.SawVersions?) ==>
        forall k :: k in RestoredKeysOf(s.db, op) && OldNow(s, k, grace) ==> Covered(s, k)
    case _ => true
  }

  ghost predicate Enabled(s: Sys, e: Event, grace: nat) {
    CanHappen(s, e, grace) && WellTimed(s, e, grace)
  }

  /** The sweep's phase after one of its events. */
  function NextPhase(s: Sys, e: Event): Phase {
    match (e, s.gc)
    case (GcFix, _) => Fixed(s.now)
    case (GcReadItems, Fixed(base)) => SawItems(base, ItemKeys(s.db.items))
    case (GcReadVersions, SawItems(base, seen)) => SawVersions(base, seen + VersionKeys(s.db.versions))
    case (GcReadSnapshots, SawVersions(base, seen)) => Sweeping(base, seen + SnapshotKeys(s.db.snapshots))
    case (GcEnd, _) => Idle
    case _ => s.gc
  }

  /** The rows of an upload, with the size that was streamed: nothing looks for the blob again. */
  function CommitRows(db: Db, p: Pending, version: Id, place: Option<Id>, name: string, key: Key,
                      checksum: string): Db {
    var t := db.(blobs := db.blobs[key := Blob(p.size, p.written)]);
    CommitUpload(t, p.file, version, place, name, key, checksum).(blobs := db.blobs)
  }

  /** What an event that can happen does. */
  ghost function Next(s: Sys, e: Event): Sys {
    match e
    case Tick => s.(now := s.now + 1)
    case Call(op) => s.(db := Step(s.db, op))
    case Write(file, key, size) =>
      s.(db := WriteBlob(s.db, file, key, size, s.now), pending := s.pending[key := Pending(file, s.now, size)])
    case Commit(key, version, place, name, checksum) =>
      if key in s.pending
      then s.(db := CommitRows(s.db, s.pending[key], version, place, name, key, checksum), pending := s.pending - {key})
      else s
    case Fail(key) => s.(db := s.db.(blobs := s.db.blobs - {key}), pending := s.pending - {key})
    case Crash(key) => s.(pending := s.pending - {key})
    case GcDelete(key) => s.(db := s.db.(blobs := s.db.blobs - {key}))
    case _ => s.(gc := NextPhase(s, e))
  }

  // ----- the invariant -----

  /** A pending upload owns its key and its unused file id; inside the window its blob is there. */
  ghost predicate PendingOk(s: Sys, k: Key, grace: nat) {
    k in s.pending ==>
      && s.pending[k].file !in s.db.kinds
      && k in s.db.owners && s.db.owners[k] == s.pending[k].file
      && s.pending[k].written <= s.now
      && (s.now <= s.pending[k].written + grace ==> k in s.db.blobs)
      && (k in s.db.blobs ==> s.db.blobs[k] == Blob(s.pending[k].size, s.pending[k].written))
  }

  ghost predicate PendingsOk(s: Sys, grace: nat) {
    && (forall k :: k in s.pending ==> PendingOk(s, k, grace))
    && forall j, k :: j in s.pending && k in s.pending && s.pending[j].file == s.pending[k].file ==> j == k
  }

  /** Every old key among `keys` has been read. */
  ghost predicate Read(db: Db, keys: set<Key>, seen: set<Key>, base: nat, grace: nat) {
    forall k :: k in keys && Old(db, k, base, grace) ==> k in seen
  }

  /** Every old key of an item is covered; versions are read once their query has run. */
  ghost predicate GcOk(s: Sys, grace: nat) {
    && (!s.gc.Idle? ==> s.gc.base <= s.now)
    && (forall k :: k in ItemKeys(s.db.items) && OldNow(s, k, grace) ==> Covered(s, k))
    && (s.gc.SawVersions? ==> Read(s.db, VersionKeys(s.db.versions), s.gc.seen, s.gc.base, grace))
    && (s.gc.Sweeping? ==> Read(s.db, References(s.db), s.gc.seen, s.gc.base, grace))
  }

  ghost predicate SysInv(s: Sys, grace: nat) {
    Good(s.db) && PendingsOk(s, grace) && GcOk(s, grace)
  }

  // ----- every event keeps it -----

  /** Referenced keys were written for an item that exists or existed. */
  lemma ReferencedOwners(db: Db, k: Key)
    requires Inv(db) && k in References(db)
    ensures k in db.owners && db.owners[k] in db.kinds
  {
    if x :| x in db.items && db.items[x].key == Some(k) {
      assert ItemOk(db, x, db.items[x]);
    } else if v :| v in db.versions && db.versions[v].key == k {
      assert VersionOk(db, db.versions[v]);
      assert ItemOk(db, db.versions[v].file, db.items[db.versions[v].file]);
    } else {
      var i :| 0 <= i < |db.snapshots| && k in EntryKeys(db.snapshots[i].entries);
      var x :| x in db.snapshots[i].entries && db.snapshots[i].entries[x].key == Some(k);
      assert SnapshotOk(db, db.snapshots[i]);
      assert EntryOk(db, x, db.snapshots[i].entries[x]);
    }
  }

  /** A pending key is not referenced yet. */
  lemma PendingUnreferenced(s: Sys, k: Key, grace: nat)
    requires Inv(s.db) && k in s.pending && PendingOk(s, k, grace)
    ensures k !in References(s.db)
  {
    hide Inv, References;
    if k in References(s.db) {
      ReferencedOwners(s.db, k);
    }
  }

  /** Losing a blob that no row names is harmless. */
  lemma DropBlob(db: Db, k: Key)
    requires Good(db) && k !in References(db)
    ensures Good(db.(blobs := db.blobs - {k}))
  {
    var t := db.(blobs := db.blobs - {k});
    assert Widens(db, t, {k});
    hide SnapshotOk, IsForest, Sum;
    forall x | x in t.items
      ensures ItemOk(t, x, t.items[x])
    {
      assert ItemOk(db, x, db.items[x]);
      assert db.items[x].key != Some(k);
      ItemWidens(db, t, {k}, x, db.items[x]);
    }
    forall v | v in t.versions
      ensures VersionOk(t, t.versions[v])
    {
      assert VersionOk(db, db.versions[v]);
      assert db.versions[v].key != k;
    }
    SnapshotsWiden(db, t, {k});
  }

  lemma DroppedBlobKeeps(s: Sys, key: Key, pending: map<Key, Pending>, grace: nat)
    requires SysInv(s, grace) && key !in References(s.db)
    requires || pending == s.pending - {key}
             || (pending == s.pending && (key in pending ==> s.now > pending[key].written + grace))
    ensures SysInv(s.(db := s.db.(blobs := s.db.blobs - {key}), pending := pending), grace)
  {
    hide Inv, References, ItemKeys, VersionKeys;
    var t := s.(db := s.db.(blobs := s.db.blobs - {key}), pending := pending);
    DropBlob(s.db, key);
    SameReferences(s.db, t.db);
    forall k | k in t.pending
      ensures PendingOk(t, k, grace)
    {
      assert PendingOk(s, k, grace);
    }
    ReadShrinks(s, t, grace);
  }

  lemma SameReferences(s: Db, t: Db)
    requires t.items == s.items && t.versions == s.versions && t.snapshots == s.snapshots
    ensures References(t) == References(s)
  {
  }

  /** Fewer blobs, fewer versions and no new keys on items: what had to be covered still is. */
  lemma ReadShrinks(s: Sys, t: Sys, grace: nat)
    requires GcOk(s, grace) && t.gc == s.gc && t.now >= s.now
    requires forall k :: k in t.db.blobs ==> k in s.db.blobs && t.db.blobs[k] == s.db.blobs[k]
    requires VersionKeys(t.db.versions) <= VersionKeys(s.db.versions)
    requires References(t.db) <= References(s.db)
    requires ExemptKeys(s.db.snapshots) <= ExemptKeys(t.db.snapshots)
    requires forall k :: k in ItemKeys(t.db.items) && k in VersionKeys(s.db.versions) ==>
               k in VersionKeys(t.db.versions)
    requires s.gc.SawItems? || s.gc.SawVersions? ==>
               forall k :: k in ItemKeys(t.db.items) && OldNow(s, k, grace) ==> Covered(s, k)
    ensures GcOk(t, grace)
  {
    hide ItemKeys, VersionKeys, SnapshotKeys, ExemptKeys;
  }

  /** A restore puts its keys on items and leaves all others where they were. */
  lemma RestoreCovered(s: Sys, op: Op, grace: nat)
    requires SysInv(s, grace) && op.RestoreFrom? && WellTimed(s, Call(op), grace)
    requires s.gc.SawItems? || s.gc.SawVersions?
    ensures forall k :: k in ItemKeys(Step(s.db, op).items) && OldNow(s, k, grace) ==> Covered(s, k)
  {
    RestoredFrom(s.db, op);
    hide Inv, Step, ItemKeys, RestoredKeysOf, Covered;
  }

  lemma RestoredFrom(db: Db, op: Op)
    requires op.RestoreFrom?
    ensures ItemKeys(Step(db, op).items) <= ItemKeys(db.items) + RestoredKeysOf(db, op)
    ensures RestoredKeysOf(db, op) <= ItemKeys(Step(db, op).items)
  {
    hide Target, Prune, Capture, EntriesOf;
    if HasSnapshot(db.snapshots, op.snapshot) {
      var s := CreateSnapshot(db, op.safety, PreRestore, false);
      LaidKeys(db.items, EntriesOf(s.snapshots, op.snapshot), op.selected, op.exact);
    }
  }

  lemma LaidKeys(items: map<Id, Item>, entries: map<Id, Entry>, selected: Option<set<Id>>, exact: bool)
    ensures var after := RestoredItems(items, entries, selected, exact);
            var back := EntryKeys(Target(entries, selected));
            back <= ItemKeys(after) && ItemKeys(after) <= ItemKeys(items) + back
  {
    hide Target;
    var target := Target(entries, selected);
    var after := RestoredItems(items, entries, selected, exact);
    forall x | x in target
      ensures x in after && after[x].key == target[x].key
    {
    }
    forall k | k in EntryKeys(target)
      ensures k in ItemKeys(after)
    {
      var x :| x in target && target[x].key == Some(k);
      assert after[x].key == Some(k);
    }
    forall k | k in ItemKeys(after)
      ensures k in ItemKeys(items) + EntryKeys(target)
    {
      var x :| x in after && after[x].key == Some(k);
      if x in target {
        assert target[x].key == Some(k);
      } else {
        assert x in items && items[x].key == Some(k);
      }
    }
  }

  lemma CallKeeps(s: Sys, op: Op, grace: nat)
    requires SysInv(s, grace) && Enabled(s, Call(op), grace)
    ensures SysInv(Next(s, Call(op)), grace)
  {
    var t := Next(s, Call(op));
    StepInv(s.db, op);
    StepKeys(s.db, op);
    StepKeepsExempt(s.db, op);
    forall k | k in ItemKeys(t.db.items) && k in VersionKeys(s.db.versions)
      ensures k in VersionKeys(t.db.versions)
    {
      StepKeepsVersions(s.db, op, k);
    }
    CallCovered(s, op, grace);
    hide Inv, Step, Possible, ItemKeys, VersionKeys, SnapshotKeys, ExemptKeys, GcOk, Covered, WellTimed;
    forall k | k in t.pending
      ensures PendingOk(t, k, grace)
    {
      assert PendingOk(s, k, grace);
      PendingUnreferenced(s, k, grace);
    }
    assert References(t.db) <= References(s.db);
    ReadShrinks(s, t, grace);
  }

  lemma CallCovered(s: Sys, op: Op, grace: nat)
    requires SysInv(s, grace) && Enabled(s, Call(op), grace)
    ensures s.gc.SawItems? || s.gc.SawVersions? ==>
              forall k :: k in ItemKeys(Step(s.db, op).items) && OldNow(s, k, grace) ==> Covered(s, k)
  {
    if s.gc.SawItems? || s.gc.SawVersions? {
      if op.RestoreFrom? {
        RestoreCovered(s, op, grace);
      } else {
        StepKeys(s.db, op);
        hide Inv, Step, Possible, ItemKeys, VersionKeys, SnapshotKeys, ExemptKeys, Covered, WellTimed, BlobsShrink;
      }
    }
  }

  lemma WriteKeeps(s: Sys, file: Id, key: Key, size: nat, grace: nat)
    requires SysInv(s, grace) && Enabled(s, Write(file, key, size), grace)
    ensures SysInv(Next(s, Write(file, key, size)), grace)
  {
    hide Inv, ItemKeys, VersionKeys, SnapshotKeys;
    var t := Next(s, Write(file, key, size));
    WriteBlobInv(s.db, file, key, size, s.now);
    forall k | k in t.pending
      ensures PendingOk(t, k, grace)
    {
      assert k != key ==> PendingOk(s, k, grace);
    }
    if !s.gc.Idle? {
      assert forall k :: Old(t.db, k, s.gc.base, grace) ==> Old(s.db, k, s.gc.base, grace);
    }
  }

  lemma CommitKeeps(s: Sys, e: Event, grace: nat)
    requires SysInv(s, grace) && e.Commit? && Enabled(s, e, grace)
    ensures SysInv(Next(s, e), grace)
  {
    hide Inv, ItemKeys, VersionKeys, SnapshotKeys, ExemptKeys;
    var t := Next(s, e);
    var p := s.pending[e.key];
    assert PendingOk(s, e.key, grace);
    CommitIsUpload(s.db, p, e.version, e.place, e.name, e.key, e.checksum);
    CommitUploadInv(s.db, p.file, e.version, e.place, e.name, e.key, e.checksum);
    CommitKeys(s.db, p.file, e.version, e.place, e.name, e.key, e.checksum);
    forall k | k in t.pending
      ensures PendingOk(t, k, grace)
    {
      assert PendingOk(s, k, grace);
    }
    CommitCovered(s, t, e.key, grace);
  }

  lemma CommitIsUpload(db: Db, p: Pending, version: Id, place: Option<Id>, name: string, key: Key, checksum: string)
    requires key in db.blobs && db.blobs[key] == Blob(p.size, p.written)
    ensures CommitRows(db, p, version, place, name, key, checksum) ==
            CommitUpload(db, p.file, version, place, name, key, checksum)
  {
    assert db.blobs[key := db.blobs[key]] == db.blobs;
  }

  lemma CommitCovered(s: Sys, t: Sys, key: Key, grace: nat)
    requires GcOk(s, grace) && t.gc == s.gc && t.now == s.now
    requires t.db.blobs == s.db.blobs && t.db.snapshots == s.db.snapshots
    requires VersionKeys(t.db.versions) == VersionKeys(s.db.versions) + {key}
    requires ItemKeys(t.db.items) <= ItemKeys(s.db.items) + {key}
    requires s.gc.SawVersions? || s.gc.Sweeping? ==> OldNow(s, key, grace) ==> key in s.gc.seen
    ensures GcOk(t, grace)
  {
    hide ItemKeys, VersionKeys, SnapshotKeys, ExemptKeys;
  }

  lemma CommitKeys(db: Db, file: Id, version: Id, place: Option<Id>, name: string, key: Key, checksum: string)
    requires key in db.blobs && file !in db.kinds && version !in db.versions
    ensures var t := CommitUpload(db, file, version, place, name, key, checksum);
            && ItemKeys(t.items) <= ItemKeys(db.items) + {key}
            && VersionKeys(t.versions) == VersionKeys(db.versions) + {key}
            && t.kinds.Keys == db.kinds.Keys + {file}
  {
    var t := CommitUpload(db, file, version, place, name, key, checksum);
    assert forall v :: v in db.versions ==> v in t.versions && t.versions[v] == db.versions[v];
    assert t.versions[version].key == key;
  }

  lemma GcKeeps(s: Sys, e: Event, grace: nat)
    requires SysInv(s, grace) && Enabled(s, e, grace)
    requires e.Tick? || e.Crash? || e.GcFix? || e.GcReadItems? || e.GcReadVersions? || e.GcReadSnapshots? || e.GcEnd?
    ensures SysInv(Next(s, e), grace)
  {
    hide Inv, ItemKeys, VersionKeys, SnapshotKeys, ExemptKeys;
    var t := Next(s, e);
    ExemptAreHeld(s.db.snapshots);
    forall k | k in t.pending
      ensures PendingOk(t, k, grace)
    {
      assert PendingOk(s, k, grace);
    }
  }

  lemma EventKeeps(s: Sys, e: Event, grace: nat)
    requires SysInv(s, grace) && Enabled(s, e, grace)
    ensures SysInv(Next(s, e), grace)
  {
    match e
    case Call(op) => CallKeeps(s, op, grace);
    case Write(file, key, size) => WriteKeeps(s, file, key, size, grace);
    case Commit(_, _, _, _, _) => CommitKeeps(s, e, grace);
    case Fail(key) =>
      assert PendingOk(s, key, grace);
      PendingUnreferenced(s, key, grace);
      DroppedBlobKeeps(s, key, s.pending - {key}, grace);
    case GcDelete(key) =>
      assert key in s.pending ==> PendingOk(s, key, grace);
      DroppedBlobKeeps(s, key, s.pending, grace);
      assert Next(s, e) == s.(db := s.db.(blobs := s.db.blobs - {key}), pending := s.pending);
    case _ => GcKeeps(s, e, grace);
  }

  // ----- whole traces -----

  ghost predicate EnabledTrace(s: Sys, trace: seq<Event>, grace: nat)
    decreases |trace|
  {
    trace == [] || (Enabled(s, trace[0], grace) && EnabledTrace(Next(s, trace[0]), trace[1..], grace))
  }

  ghost function AfterTrace(s: Sys, trace: seq<Event>): Sys
    decreases |trace|
  {
    if trace == [] then s else AfterTrace(Next(s, trace[0]), trace[1..])
  }

  lemma {:induction false} TraceKeeps(s: Sys, trace: seq<Event>, grace: nat)
    requires SysInv(s, grace) && EnabledTrace(s, trace, grace)
    ensures SysInv(AfterTrace(s, trace), grace)
    decreases |trace|
  {
    if trace != [] {
      hide SysInv, Enabled, Next;
      EventKeeps(s, trace[0], grace);
      TraceKeeps(Next(s, trace[0]), trace[1..], grace);
    }
  }

  function Start(quota: int): Sys {
    Sys(EmptyDrive(quota), 0, map[], Idle)
  }

  /** No interleaving of uploads, drive operations and garbage collection loses a blob that an
      item, a file version or a snapshot entry names, and the drive invariant always holds. */
  lemma NoBlobIsLost(quota: int, trace: seq<Event>, grace: nat)
    requires EnabledTrace(Start(quota), trace, grace)
    ensures var s := AfterTrace(Start(quota), trace);
            References(s.db) <= s.db.blobs.Keys && Inv(s.db)
  {
    EmptyDriveGood(quota);
    TraceKeeps(Start(quota), trace, grace);
    hide AfterTrace, EnabledTrace, References, Inv;
    InvHasBlobs(AfterTrace(Start(quota), trace).db);
  }

  /** The sweep's key lemma: while one sweep lasts, a key that was old and unread when it
      started never becomes referenced again. */
  lemma {:induction false} NeverReferencedAgain(s: Sys, trace: seq<Event>, grace: nat, k: Key)
    requires SysInv(s, grace) && EnabledTrace(s, trace, grace)
    requires s.gc.Sweeping? && k !in s.gc.seen && k in s.db.owners
    requires k in s.db.blobs ==> Old(s.db, k, s.gc.base, grace)
    requires forall e :: e in trace ==> !e.GcEnd?
    ensures k !in References(AfterTrace(s, trace).db)
    decreases |trace|
  {
    hide Inv, References, Step, Possible;
    if trace == [] {
      if k in References(s.db) {
        InvHasBlobs(s.db);
      }
    } else {
      assert trace[0] in trace && forall e :: e in trace[1..] ==> e in trace;
      EventKeeps(s, trace[0], grace);
      StaysOld(s, trace[0], grace, k);
      NeverReferencedAgain(Next(s, trace[0]), trace[1..], grace, k);
    }
  }

  /** Blobs are never written again under an issued key. */
  lemma StaysOld(s: Sys, e: Event, grace: nat, k: Key)
    requires SysInv(s, grace) && Enabled(s, e, grace) && !e.GcEnd?
    requires s.gc.Sweeping? && k in s.db.owners
    requires k in s.db.blobs ==> Old(s.db, k, s.gc.base, grace)
    ensures var t := Next(s, e);
            && t.gc == s.gc && k in t.db.owners
            && (k in t.db.blobs ==> Old(t.db, k, t.gc.base, grace))
  {
    hide Inv, Step, Possible, KeysMove;
    if e.Call? {
      StepKeys(s.db, e.op);
    }
  }
}
