/** What the timing of garbage collection is for: exactly which commits and restores may run
    while a sweep is under way. */
module GcTiming {
  import opened Text
  import opened Sums
  import opened Forest
  import opened Drive
  import opened Trash
  import opened Snapshots
  import opened SnapshotService
  import opened Restore
  import opened Runs
  import opened Keys
  import opened Gc

  // ----- building traces -----

  lemma Prepend(s: Sys, e: Event, trace: seq<Event>, grace: nat)
    requires Enabled(s, e, grace) && EnabledTrace(Next(s, e), trace, grace)
    ensures EnabledTrace(s, [e] + trace, grace)
    ensures AfterTrace(s, [e] + trace) == AfterTrace(Next(s, e), trace)
  {
    hide Enabled, Next;
    assert ([e] + trace)[1..] == trace;
  }

  lemma {:induction false} Wait(s: Sys, n: nat, grace: nat) returns (trace: seq<Event>)
    ensures EnabledTrace(s, trace, grace) && AfterTrace(s, trace) == s.(now := s.now + n)
    decreases n
  {
    trace := [];
    if n > 0 {
      trace := Wait(s.(now := s.now + 1), n - 1, grace);
      Prepend(s, Tick, trace, grace);
      trace := [Tick] + trace;
    }
  }

  lemma TickPasses(s: Sys, grace: nat)
    ensures Enabled(s, Tick, grace) && Next(s, Tick) == s.(now := s.now + 1)
  {
  }

  /** Waiting before a trace. */
  lemma {:induction false} WaitThen(s: Sys, n: nat, rest: seq<Event>, grace: nat) returns (trace: seq<Event>)
    requires EnabledTrace(s.(now := s.now + n), rest, grace)
    ensures EnabledTrace(s, trace, grace) && AfterTrace(s, trace) == AfterTrace(s.(now := s.now + n), rest)
    decreases n
  {
    trace := rest;
    if n > 0 {
      hide EnabledTrace, AfterTrace, Enabled, Next;
      TickPasses(s, grace);
      trace := WaitThen(s.(now := s.now + 1), n - 1, rest, grace);
      Prepend(s, Tick, trace, grace);
      trace := [Tick] + trace;
    } else {
      assert s.(now := s.now + 0) == s;
    }
  }

  // ----- exactly which events are harmless -----

  ghost predicate AllBlobs(db: Db) {
    References(db) <= db.blobs.Keys
  }

  /** No well-timed continuation loses a blob that a row names. */
  ghost predicate Harmless(s: Sys, grace: nat) {
    forall trace :: EnabledTrace(s, trace, grace) ==> AllBlobs(AfterTrace(s, trace).db)
  }

  lemma InvIsHarmless(s: Sys, grace: nat)
    requires SysInv(s, grace)
    ensures Harmless(s, grace)
  {
    forall trace | EnabledTrace(s, trace, grace)
      ensures AllBlobs(AfterTrace(s, trace).db)
    {
      TraceKeeps(s, trace, grace);
      hide Inv, References;
      InvHasBlobs(AfterTrace(s, trace).db);
    }
  }

  /** The sweep has passed an old key without reading it, and a row names it. */
  lemma DeleteLoses(s: Sys, k: Key, grace: nat)
    requires s.gc.Sweeping? && k !in s.gc.seen && OldNow(s, k, grace) && k in References(s.db)
    ensures !Harmless(s, grace)
  {
    var t := Next(s, GcDelete(k));
    assert Enabled(s, GcDelete(k), grace);
    SameReferences(s.db, t.db);
    hide References, Enabled, Next;
    Prepend(s, GcDelete(k), [], grace);
    Loses(s, [GcDelete(k)] + [], k, grace);
  }

  lemma Loses(s: Sys, trace: seq<Event>, k: Key, grace: nat)
    requires EnabledTrace(s, trace, grace)
    requires k in References(AfterTrace(s, trace).db) && k !in AfterTrace(s, trace).db.blobs
    ensures !Harmless(s, grace)
  {
    hide References, EnabledTrace, AfterTrace;
    assert !AllBlobs(AfterTrace(s, trace).db);
  }

  /** What is not harmless after an event is not harmless before it. */
  lemma HarmBefore(s: Sys, e: Event, grace: nat)
    requires Enabled(s, e, grace) && !Harmless(Next(s, e), grace)
    ensures !Harmless(s, grace)
  {
    hide Enabled, Next, EnabledTrace, AfterTrace, AllBlobs;
    var trace :| EnabledTrace(Next(s, e), trace, grace) && !AllBlobs(AfterTrace(Next(s, e), trace).db);
    Prepend(s, e, trace, grace);
    assert EnabledTrace(s, [e] + trace, grace) && !AllBlobs(AfterTrace(s, [e] + trace).db);
  }

  /** Items and versions are read, the key was not among them, and no snapshot holds it. */
  lemma SnapshotsMiss(s: Sys, k: Key, grace: nat)
    requires s.gc.SawVersions? && k !in s.gc.seen && k !in SnapshotKeys(s.db.snapshots)
    requires OldNow(s, k, grace) && k in References(s.db)
    ensures !Harmless(s, grace)
  {
    var t := Next(s, GcReadSnapshots);
    hide References, SnapshotKeys, Harmless;
    DeleteLoses(t, k, grace);
    HarmBefore(s, GcReadSnapshots, grace);
  }

  /** Tightening the settings leaves no key of a snapshot but those of exempt ones, when the
      newest is exempt. */
  lemma OnlyExemptLeft(db: Db)
    requires db.snapshots != [] && Exempt(db.snapshots[0])
    ensures var t := Step(db, ChangeSettings(1, Some(0)));
            && t == db.(retention := 1, snapshotQuota := Some(0), snapshots := t.snapshots)
            && SnapshotKeys(t.snapshots) <= ExemptKeys(db.snapshots)
  {
    var t := Step(db, ChangeSettings(1, Some(0)));
    hide Exempt, EntryKeys, Retained;
    forall k | k in SnapshotKeys(t.snapshots)
      ensures k in ExemptKeys(db.snapshots)
    {
      var i :| 0 <= i < |t.snapshots| && k in EntryKeys(t.snapshots[i].entries);
      assert t.snapshots[i] in t.snapshots;
      RetainedMembers(db.snapshots, 1, t.snapshots[i]);
    }
  }

  /** Between the queries, an item names an old key that is not covered, and the newest snapshot
      is exempt: prune the others, and the sweep misses the key. */
  lemma UncoveredLoses(s: Sys, k: Key, grace: nat)
    requires s.gc.SawItems? || s.gc.SawVersions?
    requires k in ItemKeys(s.db.items) && OldNow(s, k, grace) && !Covered(s, k)
    requires s.db.snapshots != [] && Exempt(s.db.snapshots[0])
    ensures !Harmless(s, grace)
  {
    var prune := Call(ChangeSettings(1, Some(0)));
    var t := Next(s, prune);
    OnlyExemptLeft(s.db);
    assert Enabled(s, prune, grace) by { hide Step; }
    assert k in References(t.db);
    hide Step, References, SnapshotKeys, ItemKeys, VersionKeys, ExemptKeys, Enabled, Harmless;
    if s.gc.SawItems? {
      var u := Next(t, GcReadVersions);
      assert Enabled(t, GcReadVersions, grace) by { ReadsAreTimed(t, grace); }
      SnapshotsMiss(u, k, grace);
      HarmBefore(t, GcReadVersions, grace);
    } else {
      SnapshotsMiss(t, k, grace);
    }
    HarmBefore(s, prune, grace);
  }

  lemma ReadsAreTimed(s: Sys, grace: nat)
    requires s.gc.SawItems?
    ensures Enabled(s, GcReadVersions, grace)
  {
  }

  /** What a restore leaves behind of keys: its own snapshot is the newest and holds keys of
      items only. */
  lemma RestoreSnapshots(db: Db, op: Op)
    requires Good(db) && op.RestoreFrom? && HasSnapshot(db.snapshots, op.snapshot)
    ensures var t := Step(db, op);
            && t.snapshots != [] && Exempt(t.snapshots[0])
            && ExemptKeys(t.snapshots) <= ExemptKeys(db.snapshots) + ItemKeys(db.items)
            && t.versions == db.versions && t.blobs == db.blobs
  {
    hide Inv, Prune, Capture, RestoredItems, ExemptKeys, ItemKeys;
    var first := NewSnapshot(db, op.safety, PreRestore, false);
    PruneSurvivors([first] + db.snapshots, db.retention, SnapshotQuota(db));
    CreateExempt(db, op.safety, PreRestore, false);
  }

  lemma RestoreLoses(s: Sys, op: Op, grace: nat)
    requires SysInv(s, grace) && op.RestoreFrom? && CanHappen(s, Call(op), grace)
    requires !WellTimed(s, Call(op), grace)
    ensures !Harmless(Next(s, Call(op)), grace)
  {
    var t := Next(s, Call(op));
    var k :| k in RestoredKeysOf(s.db, op) && OldNow(s, k, grace) && !Covered(s, k);
    assert HasSnapshot(s.db.snapshots, op.snapshot);
    RestoreSnapshots(s.db, op);
    RestoredFrom(s.db, op);
    hide Inv, Step, ItemKeys, VersionKeys, ExemptKeys, Exempt, RestoredKeysOf, Harmless;
    UncoveredLoses(t, k, grace);
  }

  lemma CommitLoses(s: Sys, e: Event, grace: nat)
    requires SysInv(s, grace) && e.Commit? && CanHappen(s, e, grace) && !WellTimed(s, e, grace)
    ensures !Harmless(Next(s, e), grace)
  {
    var t := Next(s, e);
    assert t.db.versions[e.version].key == e.key;
    VersionReferenced(t.db, e.version);
    PendingUnreferenced(s, e.key, grace);
    assert e.key !in SnapshotKeys(s.db.snapshots);
    hide Inv, References, SnapshotKeys, Harmless;
    if e.key !in s.db.blobs {
      Loses(t, [], e.key, grace);
    } else if s.gc.Sweeping? {
      DeleteLoses(t, e.key, grace);
    } else {
      SnapshotsMiss(t, e.key, grace);
    }
  }

  /** The timing is exact: in a state of the protocol, an event that can happen loses no blob in
      any well-timed continuation if and only if it is well-timed itself. */
  lemma HarmlessExactly(s: Sys, e: Event, grace: nat)
    requires SysInv(s, grace) && CanHappen(s, e, grace)
    ensures Harmless(Next(s, e), grace) <==> WellTimed(s, e, grace)
  {
    hide SysInv, CanHappen, Next, Harmless;
    if WellTimed(s, e, grace) {
      EventKeeps(s, e, grace);
      InvIsHarmless(Next(s, e), grace);
    } else if e.Commit? {
      CommitLoses(s, e, grace);
    } else {
      RestoreLoses(s, e.op, grace);
    }
  }

  /** Two simple rules suffice: commit within the grace window, and do not restore between the
      three queries. */
  lemma SimpleRules(s: Sys, e: Event, grace: nat)
    requires SysInv(s, grace) && CanHappen(s, e, grace)
    requires e.Commit? ==> s.now <= s.pending[e.key].written + grace
    requires e.Call? && e.op.RestoreFrom? ==> !s.gc.SawItems? && !s.gc.SawVersions?
    ensures WellTimed(s, e, grace)
  {
    hide Inv, ItemKeys, VersionKeys, SnapshotKeys, ExemptKeys;
    if e.Commit? {
      assert PendingOk(s, e.key, grace);
    }
  }

  /** Restoring a pinned or safety snapshot is harmless at any moment. */
  lemma ExemptRestoreIsTimed(s: Sys, op: Op, i: nat, grace: nat)
    requires SysInv(s, grace) && op.RestoreFrom? && CanHappen(s, Call(op), grace)
    requires i < |s.db.snapshots| && s.db.snapshots[i].id == op.snapshot && Exempt(s.db.snapshots[i])
    ensures WellTimed(s, Call(op), grace)
  {
    var db, snap := s.db, s.db.snapshots[i];
    hide GcOk, PendingsOk, Prune, Capture, SnapshotOk, Exempt, EntryKeys, Reached;
    InvSnapshots(db);
    ExemptSurvives([NewSnapshot(db, op.safety, PreRestore, false)] + db.snapshots, db.retention, SnapshotQuota(db),
                   i + 1);
    SameEntries(db.snapshots, op.snapshot, snap);
    CreateKeepsEntries(db, op.safety, PreRestore, false, op.snapshot);
    TargetKeys(snap.entries, op.selected);
    assert EntryKeys(snap.entries) <= ExemptKeys(db.snapshots);
    hide HasSnapshot, EntriesOf, Target, ExemptKeys, Inv;
    assert RestoredKeysOf(db, op) <= EntryKeys(snap.entries);
  }

  lemma TargetKeys(entries: map<Id, Entry>, selected: Option<set<Id>>)
    ensures EntryKeys(Target(entries, selected)) <= EntryKeys(entries)
  {
    hide Reached;
    forall k | k in EntryKeys(Target(entries, selected))
      ensures k in EntryKeys(entries)
    {
      var x :| x in Target(entries, selected) && Target(entries, selected)[x].key == Some(k);
      assert x in entries && entries[x].key == Some(k);
    }
  }

  // ----- what goes wrong otherwise -----

  /** A state in which `collect_garbage` with a cutoff taken now, after the references were
      read, would delete a blob that a row names. */
  ghost predicate LateCutoffLoses(s: Sys, k: Key, grace: nat) {
    s.gc.Sweeping? && k in References(s.db) && k !in s.gc.seen && Old(s.db, k, s.now, grace)
  }

  ghost predicate Leads(s: Sys, e: Event, t: Sys, grace: nat) {
    CanHappen(s, e, grace) && t == Next(s, e)
  }

  /** With a blob written `grace` ago and not committed, a sweep reads the references, the upload
      commits. */
  lemma CommitAfterRead(s0: Sys, grace: nat, k: Key) returns (s: seq<Sys>, es: seq<Event>)
    requires s0.gc.Idle? && s0.db.items == map[] && s0.db.versions == map[] && s0.db.snapshots == []
    requires k in s0.pending && s0.pending[k].written + grace == s0.now
    requires k in s0.db.blobs && s0.db.blobs[k].modified == s0.pending[k].written
    ensures |s| == 6 && |es| == 5 && s[0] == s0
    ensures forall i :: 0 <= i < 5 ==> Leads(s[i], es[i], s[i + 1], grace) && WellTimed(s[i], es[i], grace)
    ensures s[5].gc == Sweeping(s0.now, {}) && s[5].now == s0.now && k in References(s[5].db)
    ensures k in s[5].db.blobs && s[5].db.blobs[k] == s0.db.blobs[k]
  {
    hide References, Next, CanHappen, WellTimed, Leads;
    var e := Commit(k, Id(1), None, "a", "sum");
    var s1, s2, s3, s4 := ReadNothing(s0, grace);
    var s5 := CommitsNow(s4, k, e, grace);
    s := [s0, s1, s2, s3, s4, s5];
    es := [GcFix, GcReadItems, GcReadVersions, GcReadSnapshots, e];
    NoConstraint(s, es, grace);
    assert WellTimed(s[4], es[4], grace);
    forall i | 0 <= i < 5
      ensures WellTimed(s[i], es[i], grace)
    {
      assert i < 4 ==> !es[i].Commit? && !es[i].Call?;
    }
  }

  lemma NoConstraint(s: seq<Sys>, es: seq<Event>, grace: nat)
    requires |s| == |es| + 1 && forall i :: 0 <= i < |es| ==> Leads(s[i], es[i], s[i + 1], grace)
    ensures forall i :: 0 <= i < |es| ==> CanHappen(s[i], es[i], grace)
    ensures forall i :: 0 <= i < |es| && !es[i].Commit? && !es[i].Call? ==> WellTimed(s[i], es[i], grace)
  {
    hide CanHappen, Next;
    forall i | 0 <= i < |es|
      ensures CanHappen(s[i], es[i], grace)
      ensures !es[i].Commit? && !es[i].Call? ==> WellTimed(s[i], es[i], grace)
    {
      assert Leads(s[i], es[i], s[i + 1], grace);
    }
  }

  lemma WritesFirst(quota: int, k: Key, e: Event, grace: nat) returns (t: Sys)
    requires e == Write(Id(0), k, 1)
    ensures Leads(Start(quota), e, t, grace)
    ensures t == Sys(WriteBlob(EmptyDrive(quota), Id(0), k, 1, 0), 0, map[k := Pending(Id(0), 0, 1)], Idle)
  {
    hide Step, Possible;
    t := Next(Start(quota), e);
  }

  /** A commit at the root of a blob that the sweep does not count as old. */
  lemma CommitsNow(s: Sys, k: Key, e: Event, grace: nat) returns (t: Sys)
    requires e == Commit(k, Id(1), None, "a", "sum")
    requires k in s.pending && k in s.db.blobs && Id(1) !in s.db.versions
    requires s.gc.Sweeping? && s.gc.base <= s.db.blobs[k].modified + grace
    ensures Leads(s, e, t, grace) && CanHappen(s, e, grace) && WellTimed(s, e, grace)
    ensures t.gc == s.gc && t.now == s.now && k in References(t.db)
    ensures k in t.db.blobs && t.db.blobs[k] == s.db.blobs[k]
  {
    hide Step, Possible;
    t := Next(s, e);
    assert t.db.versions[Id(1)].key == k;
    VersionReferenced(t.db, Id(1));
    hide References;
  }

  /** A sweep starts and reads a drive without rows. */
  lemma ReadNothing(s1: Sys, grace: nat) returns (s2: Sys, s3: Sys, s4: Sys, s5: Sys)
    requires s1.gc.Idle? && s1.db.items == map[] && s1.db.versions == map[] && s1.db.snapshots == []
    ensures Leads(s1, GcFix, s2, grace) && Leads(s2, GcReadItems, s3, grace)
    ensures Leads(s3, GcReadVersions, s4, grace) && Leads(s4, GcReadSnapshots, s5, grace)
    ensures s5 == s1.(gc := Sweeping(s1.now, {}))
  {
    hide Step, Possible;
    var none: set<Key> := {};
    assert ItemKeys(s1.db.items) == none && VersionKeys(s1.db.versions) == none;
    assert SnapshotKeys(s1.db.snapshots) == none;
    s2 := s1.(gc := Fixed(s1.now));
    s3 := s1.(gc := SawItems(s1.now, none));
    assert none + VersionKeys(s1.db.versions) == none && none + SnapshotKeys(s1.db.snapshots) == none;
    s4 := s1.(gc := SawVersions(s1.now, none));
    s5 := s1.(gc := Sweeping(s1.now, none));
  }

  lemma VersionReferenced(db: Db, v: Id)
    requires v in db.versions
    ensures db.versions[v].key in References(db)
  {
  }

  lemma {:induction false} Chained(s: seq<Sys>, es: seq<Event>, last: seq<Event>, i: nat, grace: nat)
    returns (trace: seq<Event>)
    requires |s| == |es| + 1 && i <= |es|
    requires forall j :: 0 <= j < |es| ==> Leads(s[j], es[j], s[j + 1], grace) && WellTimed(s[j], es[j], grace)
    requires EnabledTrace(s[|es|], last, grace)
    ensures EnabledTrace(s[i], trace, grace) && AfterTrace(s[i], trace) == AfterTrace(s[|es|], last)
    decreases |es| - i
  {
    trace := last;
    if i < |es| {
      hide CanHappen, Next, WellTimed, EnabledTrace, AfterTrace;
      trace := Chained(s, es, last, i + 1, grace);
      Prepend(s[i], es[i], trace, grace);
      trace := [es[i]] + trace;
    }
  }

  /** The cutoff may not be one tick later than the moment the reads began: an upload whose window
      ends in that moment commits after the reads, and the later cutoff counts its blob as
      old, unread garbage. With the cutoff at that moment no blob is ever lost. */
  lemma LateCutoff(quota: int, grace: nat) returns (trace: seq<Event>, k: Key)
    ensures EnabledTrace(Start(quota), trace, grace)
    ensures var s := AfterTrace(Start(quota), trace);
            LateCutoffLoses(s, k, grace) && s.now == s.gc.base + 1
  {
    k := Key(0);
    var write := Write(Id(0), k, 1);
    var s1 := WritesFirst(quota, k, write, grace);
    hide CanHappen, Next, References, WellTimed, EnabledTrace, AfterTrace;
    var s, es := CommitAfterRead(s1.(now := s1.now + grace), grace, k);
    var last := Wait(s[5], 1, grace);
    trace := Chained(s, es, last, 0, grace);
    trace := WaitThen(s1, grace, trace, grace);
    assert WellTimed(Start(quota), write, grace) by { WritesWellTimed(Start(quota), write, grace); }
    Prepend(Start(quota), write, trace, grace);
    trace := [write] + trace;
  }

  lemma NoEvents(s: Sys, grace: nat)
    ensures EnabledTrace(s, [], grace) && AfterTrace(s, []) == s
  {
  }

  lemma LeadsEnabled(s: Sys, e: Event, t: Sys, grace: nat)
    requires Leads(s, e, t, grace) && WellTimed(s, e, grace)
    ensures Enabled(s, e, grace) && Next(s, e) == t
  {
    hide CanHappen, WellTimed, Next;
  }

  lemma WritesWellTimed(s: Sys, e: Event, grace: nat)
    requires e.Write?
    ensures WellTimed(s, e, grace)
  {
  }

  /** An old pending blob is swept, and its upload commits all the same. */
  lemma SweptThenCommitted(s: Sys, k: Key, grace: nat) returns (t: Sys, u: Sys)
    requires s.gc.Sweeping? && k !in s.gc.seen && OldNow(s, k, grace)
    requires k in s.pending && Id(1) !in s.db.versions
    ensures Leads(s, GcDelete(k), t, grace) && t == s.(db := s.db.(blobs := s.db.blobs - {k}))
    ensures Leads(t, Commit(k, Id(1), None, "a", "sum"), u, grace)
    ensures k in References(u.db) && k !in u.db.blobs
  {
    t := Next(s, GcDelete(k));
    u := Next(t, Commit(k, Id(1), None, "a", "sum"));
    assert u.db.versions[Id(1)].key == k;
    VersionReferenced(u.db, Id(1));
    hide References;
  }

  /** A commit one tick after the window: a sweep that began in that moment has deleted the blob. */
  lemma LateCommit(quota: int, grace: nat) returns (before: seq<Event>, s0: Sys, s1: Sys, k: Key)
    ensures EnabledTrace(Start(quota), before, grace) && AfterTrace(Start(quota), before) == s0
    ensures k in s0.pending && s0.now == s0.pending[k].written + grace + 1
    ensures Leads(s0, Commit(k, Id(1), None, "a", "sum"), s1, grace)
    ensures k in References(s1.db) && k !in s1.db.blobs
  {
    hide CanHappen, Next, References, WellTimed, EnabledTrace, AfterTrace, Leads;
    k := Key(0);
    var write := Write(Id(0), k, 1);
    var start := WritesFirst(quota, k, write, grace);
    var waited := start.(now := grace + 1);
    var s2, s3, s4, s5 := ReadNothing(waited, grace);
    s0, s1 := SweptThenCommitted(s5, k, grace);
    var s, es := [waited, s2, s3, s4, s5, s0], [GcFix, GcReadItems, GcReadVersions, GcReadSnapshots, GcDelete(k)];
    NoConstraint(s, es, grace);
    before := [];
    NoEvents(s0, grace);
    before := Chained(s, es, before, 0, grace);
    before := WaitThen(start, grace + 1, before, grace);
    WritesWellTimed(Start(quota), write, grace);
    LeadsEnabled(Start(quota), write, start, grace);
    Prepend(Start(quota), write, before, grace);
    before := [write] + before;
  }

  /** A deleted file whose content only the snapshot `snap` still holds. */
  function HeldBySnapshot(x: Id, k: Key, snap: Id, quota: int): Db {
    Db(map[], map[], [Snapshot(snap, Manual, false, map[x := Entry(None, File, "a", 1, Some(k), Some("sum"))])],
       map[k := Blob(1, 0)], 0, quota, 50, Some(0), map[x := File], map[k := x])
  }

  /** The drive on the way there: one file, live or trashed, and what was captured of it. */
  function OneFile(x: Id, k: Key, quota: int, trashed: bool, snaps: seq<Snapshot>): Db {
    Db(map[x := Item(None, File, "a", 1, Some(k), Some("sum"), trashed)], map[x := Version(x, k, 1)], snaps,
       map[k := Blob(1, 0)], 1, quota, 50, Some(0), map[x := File], map[k := x])
  }

  function AtRest(db: Db): Sys {
    Sys(db, 0, map[], Idle)
  }

  function TheCapture(x: Id, k: Key, snap: Id): Snapshot {
    Snapshot(snap, Manual, false, map[x := Entry(None, File, "a", 1, Some(k), Some("sum"))])
  }

  lemma SettingsStep(quota: int, grace: nat)
    ensures Leads(Start(quota), Call(ChangeSettings(50, Some(0))),
                  AtRest(EmptyDrive(quota).(snapshotQuota := Some(0))), grace)
  {
  }

  lemma WriteStep(quota: int, x: Id, k: Key, grace: nat) returns (t: Sys)
    ensures t == Sys(WriteBlob(EmptyDrive(quota).(snapshotQuota := Some(0)), x, k, 1, 0), 0,
                     map[k := Pending(x, 0, 1)], Idle)
    ensures Leads(AtRest(EmptyDrive(quota).(snapshotQuota := Some(0))), Write(x, k, 1), t, grace)
  {
    t := Next(AtRest(EmptyDrive(quota).(snapshotQuota := Some(0))), Write(x, k, 1));
  }

  lemma CommitStep(quota: int, x: Id, k: Key, s: Sys, grace: nat)
    requires s == Sys(WriteBlob(EmptyDrive(quota).(snapshotQuota := Some(0)), x, k, 1, 0), 0,
                      map[k := Pending(x, 0, 1)], Idle)
    ensures Leads(s, Commit(k, x, None, "a", "sum"), AtRest(OneFile(x, k, quota, false, [])), grace)
    ensures WellTimed(s, Commit(k, x, None, "a", "sum"), grace)
  {
  }

  lemma CaptureStep(quota: int, x: Id, k: Key, snap: Id, grace: nat)
    ensures Leads(AtRest(OneFile(x, k, quota, false, [])), Call(TakeSnapshot(snap, Manual, false)),
                  AtRest(OneFile(x, k, quota, false, [TheCapture(x, k, snap)])), grace)
  {
    var db := OneFile(x, k, quota, false, []);
    assert Capture(db.items) == TheCapture(x, k, snap).entries;
    hide Capture, Prune;
    var first := NewSnapshot(db, snap, Manual, false);
    assert [first] + db.snapshots == [first];
    PruneOne(first, 50, SnapshotQuota(db));
  }

  lemma TrashStep(quota: int, x: Id, k: Key, snap: Id, grace: nat)
    ensures Leads(AtRest(OneFile(x, k, quota, false, [TheCapture(x, k, snap)])), Call(ToTrash(x)),
                  AtRest(OneFile(x, k, quota, true, [TheCapture(x, k, snap)])), grace)
  {
  }

  lemma EraseStep(quota: int, x: Id, k: Key, snap: Id, grace: nat)
    ensures Leads(AtRest(OneFile(x, k, quota, true, [TheCapture(x, k, snap)])), Call(Erase(x)),
                  AtRest(HeldBySnapshot(x, k, snap, quota)), grace)
  {
    var db := OneFile(x, k, quota, true, [TheCapture(x, k, snap)]);
    assert Ancestor(ItemParents(db.items), x, 0) == Some(x);
    assert Subtree(db.items, x) == {x};
    PurgesTheFile(quota, x, k, snap);
    hide Subtree, Purge, HeldBySnapshot;
  }

  lemma KeysOfOne(x: Id, k: Key)
    ensures VersionKeys(map[x := Version(x, k, 1)]) == {k}
  {
    var m := map[x := Version(x, k, 1)];
    assert x in m && m[x].key == k;
  }

  lemma PurgesTheFile(quota: int, x: Id, k: Key, snap: Id)
    ensures Purge(OneFile(x, k, quota, true, [TheCapture(x, k, snap)]), {x}) == HeldBySnapshot(x, k, snap, quota)
  {
    var db := OneFile(x, k, quota, true, [TheCapture(x, k, snap)]);
    assert VersionsOf(db.versions, {x}) == db.versions;
    assert db.snapshots[0].entries[x].key == Some(k) && k in EntryKeys(db.snapshots[0].entries);
    assert k in SnapshotKeys(db.snapshots);
    KeysOfOne(x, k);
    assert Reclaimed(db.versions, {x}, db.snapshots) == {};
    assert VersionsOutside(db.versions, {x}) == map[];
    assert SizesOf(db.versions) == map[x := 1];
    SumTake(map[x := 1], x);
    assert map[x := 1] - {x} == map[];
    hide Sum, Reclaimed, VersionsOf, VersionsOutside, SizesOf;
  }

  /** Upload a file, take a snapshot, delete the file for good: a run that is well-timed
      throughout. */
  lemma HeldReached(x: Id, k: Key, snap: Id, quota: int, grace: nat) returns (s: seq<Sys>, es: seq<Event>)
    ensures |s| == 7 && |es| == 6 && s[0] == Start(quota)
    ensures forall i :: 0 <= i < 6 ==> Leads(s[i], es[i], s[i + 1], grace) && WellTimed(s[i], es[i], grace)
    ensures s[6] == AtRest(HeldBySnapshot(x, k, snap, quota))
  {
    hide Leads, WellTimed, OneFile, TheCapture, HeldBySnapshot, Drive.WriteBlob;
    var db1 := EmptyDrive(quota).(snapshotQuota := Some(0));
    var shot := [TheCapture(x, k, snap)];
    SettingsStep(quota, grace);
    var s2 := WriteStep(quota, x, k, grace);
    CommitStep(quota, x, k, s2, grace);
    CaptureStep(quota, x, k, snap, grace);
    TrashStep(quota, x, k, snap, grace);
    EraseStep(quota, x, k, snap, grace);
    s := [Start(quota), AtRest(db1), s2, AtRest(OneFile(x, k, quota, false, [])),
          AtRest(OneFile(x, k, quota, false, shot)),
          AtRest(OneFile(x, k, quota, true, shot)), AtRest(HeldBySnapshot(x, k, snap, quota))];
    es := [Call(ChangeSettings(50, Some(0))), Write(x, k, 1), Commit(k, x, None, "a", "sum"),
           Call(TakeSnapshot(snap, Manual, false)), Call(ToTrash(x)), Call(Erase(x))];
    forall i | 0 <= i < 6
      ensures WellTimed(s[i], es[i], grace)
    {
      if i != 2 {
        Unhurried(s[i], es[i], grace);
      }
    }
  }

  lemma Unhurried(s: Sys, e: Event, grace: nat)
    requires !e.Commit? && (e.Call? ==> !e.op.RestoreFrom?)
    ensures WellTimed(s, e, grace)
  {
  }

  /** The three reference queries must not straddle a restore: the key moves from a snapshot
      that has not been read yet to an item that was read too early, the snapshot is pruned,
      and the sweep deletes the blob of a live file. The state before it is reached by a run that
      is well-timed throughout. */
  lemma RestoreDuringRead(x: Id, k: Key, snap: Id, safety: Id, quota: int, grace: nat)
    returns (before: seq<Event>, s0: Sys, s1: Sys, s2: Sys, s3: Sys, s4: Sys, s5: Sys, s6: Sys)
    requires snap != safety
    ensures EnabledTrace(Start(quota), before, grace) && AfterTrace(Start(quota), before) == s0
    ensures Leads(s0, GcReadItems, s1, grace)
    ensures Leads(s1, Call(RestoreFrom(snap, safety, None, false)), s2, grace)
    ensures Leads(s2, Call(ChangeSettings(1, Some(0))), s3, grace)
    ensures Leads(s3, GcReadVersions, s4, grace) && Leads(s4, GcReadSnapshots, s5, grace)
    ensures Leads(s5, GcDelete(k), s6, grace)
    ensures IsLive(s6.db.items, x) && s6.db.items[x].key == Some(k) && k !in s6.db.blobs
  {
    hide Step, CanHappen, Next, WellTimed, EnabledTrace, AfterTrace, HeldBySnapshot;
    var s, es := HeldReached(x, k, snap, quota, grace);
    s0 := s[6].(now := grace + 1, gc := Fixed(grace + 1));
    var idle := s[6].(now := grace + 1);
    before := FixThen(idle, s0, grace);
    before := WaitThen(s[6], grace + 1, before, grace);
    before := Chained(s, es, before, 0, grace);
    s1, s2, s3 := MovedDuringRead(s0, x, k, snap, safety, quota, grace);
    s4, s5, s6 := SweepMisses(s3, k, safety, grace);
  }

  lemma FixThen(s: Sys, t: Sys, grace: nat) returns (trace: seq<Event>)
    requires s.gc.Idle? && t == s.(gc := Fixed(s.now))
    ensures EnabledTrace(s, trace, grace) && AfterTrace(s, trace) == t
  {
    trace := [];
    Prepend(s, GcFix, trace, grace);
    trace := [GcFix] + trace;
  }

  /** The items are read, the snapshot is restored and then pruned. */
  lemma MovedDuringRead(s0: Sys, x: Id, k: Key, snap: Id, safety: Id, quota: int, grace: nat)
    returns (s1: Sys, s2: Sys, s3: Sys)
    requires snap != safety && s0 == Sys(HeldBySnapshot(x, k, snap, quota), grace + 1, map[], Fixed(grace + 1))
    ensures Leads(s0, GcReadItems, s1, grace)
    ensures Leads(s1, Call(RestoreFrom(snap, safety, None, false)), s2, grace)
    ensures Leads(s2, Call(ChangeSettings(1, Some(0))), s3, grace)
    ensures s3.gc == SawItems(grace + 1, {}) && Old(s3.db, k, grace + 1, grace)
    ensures s3.db.versions == map[] && s3.db.snapshots == [Snapshot(safety, PreRestore, true, map[])]
    ensures IsLive(s3.db.items, x) && s3.db.items[x].key == Some(k)
  {
    hide Step, Inv;
    var db := HeldBySnapshot(x, k, snap, quota);
    assert ItemKeys(db.items) == {};
    s1 := s0.(gc := SawItems(grace + 1, {}));
    RestoredFromSnapshot(x, k, snap, safety, quota);
    s2 := s1.(db := Step(db, RestoreFrom(snap, safety, None, false)));
    PrunedAway(s2.db);
    s3 := s2.(db := Step(s2.db, ChangeSettings(1, Some(0))));
  }

  /** The rest of that sweep: versions and snapshots no longer show the key. */
  lemma SweepMisses(s3: Sys, k: Key, safety: Id, grace: nat) returns (s4: Sys, s5: Sys, s6: Sys)
    requires s3.gc == SawItems(grace + 1, {}) && Old(s3.db, k, grace + 1, grace)
    requires s3.db.versions == map[] && s3.db.snapshots == [Snapshot(safety, PreRestore, true, map[])]
    ensures Leads(s3, GcReadVersions, s4, grace) && Leads(s4, GcReadSnapshots, s5, grace)
    ensures Leads(s5, GcDelete(k), s6, grace) && s6.db == s3.db.(blobs := s3.db.blobs - {k})
  {
    hide Step, Possible;
    var none: set<Key> := {};
    assert none + VersionKeys(s3.db.versions) == none && none + SnapshotKeys(s3.db.snapshots) == none;
    s4 := s3.(gc := SawVersions(grace + 1, none));
    s5 := s4.(gc := Sweeping(grace + 1, none));
    s6 := s5.(db := s5.db.(blobs := s5.db.blobs - {k}));
  }

  lemma RestoredFromSnapshot(x: Id, k: Key, snap: Id, safety: Id, quota: int)
    requires snap != safety
    ensures var db := HeldBySnapshot(x, k, snap, quota);
            Step(db, RestoreFrom(snap, safety, None, false)) ==
            db.(items := map[x := Item(None, File, "a", 1, Some(k), Some("sum"), false)],
                snapshots := [Snapshot(safety, PreRestore, true, map[]), db.snapshots[0]])
  {
    var db := HeldBySnapshot(x, k, snap, quota);
    var all := [Snapshot(safety, PreRestore, true, map[]), db.snapshots[0]];
    SafetyTaken(db, safety);
    hide CreateSnapshot;
    LastEntries(all, snap);
    OnlyRestored(x, db.snapshots[0].entries[x]);
    HasSecond(db.snapshots, snap);
  }

  lemma HasSecond(snaps: seq<Snapshot>, id: Id)
    requires snaps != [] && snaps[0].id == id
    ensures HasSnapshot(snaps, id)
  {
  }

  /** The safety snapshot of an empty drive, with nothing to prune. */
  lemma SafetyTaken(db: Db, safety: Id)
    requires db.items == map[] && |db.snapshots| == 1 && db.retention == 50 && db.snapshotQuota == Some(0)
    ensures CreateSnapshot(db, safety, PreRestore, false) ==
            db.(snapshots := [Snapshot(safety, PreRestore, true, map[]), db.snapshots[0]])
  {
    assert Capture(db.items) == map[];
    var all := [Snapshot(safety, PreRestore, true, map[]), db.snapshots[0]];
    assert [NewSnapshot(db, safety, PreRestore, false)] + db.snapshots == all;
    assert WithinRetention(all, 50);
    WithinIsRetained(all, 50);
    hide Retained, Capture;
  }

  lemma LastEntries(snaps: seq<Snapshot>, id: Id)
    requires snaps != [] && snaps[|snaps| - 1].id == id
    ensures EntriesOf(snaps, id) == snaps[|snaps| - 1].entries
  {
  }

  /** Restoring one root file into an empty drive. */
  lemma OnlyRestored(x: Id, e: Entry)
    requires e.parent.None?
    ensures RestoredItems(map[], map[x := e], None, false) ==
            map[x := Item(None, e.kind, e.name, e.size, e.key, e.checksum, false)]
  {
  }

  lemma PrunedAway(db: Db)
    requires |db.snapshots| == 2 && !Exempt(db.snapshots[1])
    ensures Step(db, ChangeSettings(1, Some(0))) ==
            db.(retention := 1, snapshotQuota := Some(0), snapshots := [db.snapshots[0]])
  {
    var all := db.snapshots;
    assert all[..1] == [all[0]];
    RetentionStep(all, 1, 1);
    RetentionStep(all, 0, 1);
    assert all[..2] == all && all[..0] == [];
  }
}
