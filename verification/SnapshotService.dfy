/** Taking, pruning and sizing snapshots, as the service does it. */
module SnapshotService {
  import opened Text
  import opened Sets
  import opened Sums
  import opened Forest
  import opened Drive
  import opened Store
  import opened Snapshots

  // ----- operations on the tables -----

  /** `quota_bytes=None` means half the user's file quota. */
  function SnapshotQuota(db: Db): int {
    match db.snapshotQuota case Some(q) => q case None => db.quota / 2
  }

  ghost function PruneDb(db: Db): Db {
    db.(snapshots := Prune(db.snapshots, db.retention, SnapshotQuota(db)))
  }

  function NewSnapshot(db: Db, id: Id, trigger: Trigger, pinned: bool): Snapshot {
    Snapshot(id, trigger, pinned || trigger.PreRestore?, Capture(db.items))
  }

  ghost function CreateSnapshot(db: Db, id: Id, trigger: Trigger, pinned: bool): Db {
    PruneDb(db.(snapshots := [NewSnapshot(db, id, trigger, pinned)] + db.snapshots))
  }

  function AtLeastOne(n: int): int {
    if n < 1 then 1 else n
  }

  ghost function UpdateSettings(db: Db, retention: int, quota: Option<int>): Db {
    PruneDb(db.(retention := AtLeastOne(retention),
                snapshotQuota := match quota
                                 case None => None
                                 case Some(q) => Some(if q < 0 then 0 else q)))
  }

  // ----- they keep the invariant -----

  ghost predicate DistinctIds(snaps: seq<Snapshot>) {
    forall i, j :: 0 <= i < j < |snaps| ==> snaps[i].id != snaps[j].id
  }

  lemma DistinctAppend(snaps: seq<Snapshot>, last: Snapshot)
    requires DistinctIds(snaps) && forall s :: s in snaps ==> s.id != last.id
    ensures DistinctIds(snaps + [last])
  {
  }

  lemma DistinctInit(snaps: seq<Snapshot>)
    requires snaps != [] && DistinctIds(snaps)
    ensures DistinctIds(snaps[..|snaps| - 1])
    ensures forall s :: s in snaps[..|snaps| - 1] ==> s.id != snaps[|snaps| - 1].id
  {
  }

  lemma {:induction false} RetainedDistinct(snaps: seq<Snapshot>, n: int)
    requires DistinctIds(snaps)
    ensures DistinctIds(Retained(snaps, n))
    ensures forall s :: s in Retained(snaps, n) ==> s in snaps
  {
    if snaps != [] {
      var init := snaps[..|snaps| - 1];
      DistinctInit(snaps);
      RetainedDistinct(init, n);
      DistinctAppend(Retained(init, n), snaps[|init|]);
    }
  }

  lemma {:induction false} DroppedDistinct(snaps: seq<Snapshot>, c: nat, newest: Id)
    requires DistinctIds(snaps)
    ensures DistinctIds(DroppedFrom(snaps, c, newest))
    ensures forall s :: s in DroppedFrom(snaps, c, newest) ==> s in snaps
  {
    if snaps != [] {
      var init := snaps[..|snaps| - 1];
      DistinctInit(snaps);
      DroppedDistinct(init, c, newest);
      DistinctAppend(DroppedFrom(init, c, newest), snaps[|init|]);
    }
  }

  lemma PruneKeepsDistinct(snaps: seq<Snapshot>, n: int, quota: int)
    requires n >= 1 && DistinctIds(snaps)
    ensures DistinctIds(Prune(snaps, n, quota))
    ensures forall s :: s in Prune(snaps, n, quota) ==> s in snaps
  {
    hide UsedBytes, FitQuota;
    RetainedDistinct(snaps, n);
    if snaps != [] && quota > 0 {
      var c := PruneCuts(snaps, n, quota);
      DroppedDistinct(Retained(snaps, n), c, snaps[0].id);
    }
  }

  /** Fewer or reordered snapshots, each fine on its own. */
  lemma SnapshotsReplaced(db: Db, snaps: seq<Snapshot>)
    requires Inv(db) && DistinctIds(snaps)
    requires forall s :: s in snaps ==> SnapshotOk(db, s)
    ensures Inv(db.(snapshots := snaps))
  {
    var t := db.(snapshots := snaps);
    hide SnapshotOk, ContentOk, IsForest;
    forall x | x in t.items
      ensures ItemOk(t, x, t.items[x])
    {
      assert ItemOk(db, x, db.items[x]);
      RowSame(db, t, x, db.items[x]);
    }
    forall v | v in t.versions
      ensures VersionOk(t, t.versions[v])
    {
      assert VersionOk(db, db.versions[v]);
    }
    forall i | 0 <= i < |snaps|
      ensures SnapshotOk(t, snaps[i])
    {
      SameWidens(db, t);
      SnapshotWidens(db, t, {}, snaps[i]);
    }
  }

  lemma RowSame(s: Db, t: Db, x: Id, i: Item)
    requires ItemOk(s, x, i) && t.kinds == s.kinds && t.owners == s.owners && t.blobs == s.blobs
    ensures ItemOk(t, x, i)
  {
    SameWidens(s, t);
    ItemWidens(s, t, {}, x, i);
  }

  lemma InvSnapshots(db: Db)
    requires Inv(db)
    ensures DistinctIds(db.snapshots) && forall s :: s in db.snapshots ==> SnapshotOk(db, s)
  {
  }

  lemma PruneDbInv(db: Db)
    requires Inv(db) && db.retention >= 1
    ensures Inv(PruneDb(db))
  {
    hide Inv, Prune, SnapshotOk;
    InvSnapshots(db);
    PruneKeepsDistinct(db.snapshots, db.retention, SnapshotQuota(db));
    SnapshotsReplaced(db, PruneDb(db).snapshots);
  }

  predicate FreshSnapshotId(db: Db, id: Id) {
    forall i :: 0 <= i < |db.snapshots| ==> db.snapshots[i].id != id
  }

  lemma WithSnapshotInv(db: Db, id: Id, trigger: Trigger, pinned: bool)
    requires Inv(db) && FreshSnapshotId(db, id)
    ensures Inv(db.(snapshots := [NewSnapshot(db, id, trigger, pinned)] + db.snapshots))
  {
    hide SnapshotOk;
    var s := NewSnapshot(db, id, trigger, pinned);
    InvSnapshots(db);
    CaptureOk(db, id, trigger, pinned || trigger.PreRestore?);
    SnapshotsReplaced(db, [s] + db.snapshots);
  }

  lemma CreateSnapshotInv(db: Db, id: Id, trigger: Trigger, pinned: bool)
    requires Inv(db) && FreshSnapshotId(db, id) && db.retention >= 1
    ensures Inv(CreateSnapshot(db, id, trigger, pinned))
  {
    hide Inv, Capture;
    WithSnapshotInv(db, id, trigger, pinned);
    PruneDbInv(db.(snapshots := [NewSnapshot(db, id, trigger, pinned)] + db.snapshots));
  }

  lemma UpdateSettingsInv(db: Db, retention: int, quota: Option<int>)
    requires Inv(db)
    ensures Inv(UpdateSettings(db, retention, quota)) && UpdateSettings(db, retention, quota).retention >= 1
  {
    var t := UpdateSettings(db, retention, quota).(snapshots := db.snapshots);
    hide SnapshotOk;
    InvSnapshots(db);
    SettingsChanged(db, t);
    PruneDbInv(t);
  }

  lemma SettingsChanged(db: Db, t: Db)
    requires Inv(db) && t == db.(retention := t.retention, snapshotQuota := t.snapshotQuota)
    ensures Inv(t)
  {
    hide SnapshotOk, ContentOk, IsForest, Sum;
    forall x | x in t.items
      ensures ItemOk(t, x, t.items[x])
    {
      assert ItemOk(db, x, db.items[x]);
      RowSame(db, t, x, db.items[x]);
    }
    forall v | v in t.versions
      ensures VersionOk(t, t.versions[v])
    {
      assert VersionOk(db, db.versions[v]);
    }
    SameWidens(db, t);
    SnapshotsWiden(db, t, {});
  }

  // ----- the service -----

  method CaptureEntries(items: map<Id, Item>) returns (entries: map<Id, Entry>)
    ensures entries == Capture(items)
  {
    var captured := Live(items);
    var rows := ListRows(captured);
    entries := map[];
    for i := 0 to |rows|
      invariant entries.Keys == SetOf(rows[..i])
      invariant forall x :: x in entries ==> x in items && entries[x] == CaptureItem(items, x)
    {
      assert rows[i] in rows;
      var item := items[rows[i]];
      var isFile := item.kind.File?;
      var parent := if item.parent.Some? && item.parent.value in captured then item.parent else None;
      entries := entries[rows[i] := Entry(parent, item.kind, item.name,
                                          if isFile then item.size else 0,
                                          if isFile then item.key else None,
                                          if isFile then item.checksum else None)];
    }
    assert rows[..|rows|] == rows;
  }

  lemma {:induction false} MaxTake<K>(m: map<K, nat>, k: K)
    requires k in m
    ensures MaxIn(m) == if m[k] > MaxIn(m - {k}) then m[k] else MaxIn(m - {k})
    decreases |m|
  {
    var first :| first in m && MaxIn(m) == if m[first] > MaxIn(m - {first}) then m[first] else MaxIn(m - {first});
    if first != k {
      MaxTake(m - {first}, k);
      MaxTake(m - {k}, first);
      assert m - {first} - {k} == m - {k} - {first};
    }
  }

  method LargestEntry(sizes: map<Id, nat>) returns (n: nat)
    ensures n == MaxIn(sizes)
  {
    n := 0;
    var rest: map<Id, nat> := sizes;
    while rest != map[]
      invariant MaxIn(sizes) == if n > MaxIn(rest) then n else MaxIn(rest)
      decreases |rest|
    {
      var x :| x in rest;
      MaxTake(rest, x);
      if rest[x] > n {
        n := rest[x];
      }
      rest := rest - {x};
    }
  }

  method LargestSize(snaps: seq<Snapshot>, checksum: string) returns (n: nat)
    ensures n == MaxSize(snaps, checksum)
  {
    n := 0;
    for i := 0 to |snaps|
      invariant n == MaxSize(snaps[..i], checksum)
    {
      assert snaps[..i + 1][..i] == snaps[..i];
      var size := LargestEntry(SizesWith(snaps[i].entries, checksum));
      if size > n {
        n := size;
      }
    }
    assert snaps[..|snaps|] == snaps;
  }

  /** `used_snapshot_bytes`: group by checksum, take the largest size, add up. */
  method UsedSnapshotBytes(snaps: seq<Snapshot>) returns (n: nat)
    ensures n == UsedBytes(snaps)
  {
    hide MaxSize, Sum, Checksums;
    ghost var sizes := map c | c in Checksums(snaps) :: MaxSize(snaps, c);
    n := 0;
    var todo := Checksums(snaps);
    ghost var done: map<string, nat> := map[];
    assert Sum(done) == 0 by { SumNothing(); }
    while todo != {}
      invariant todo <= sizes.Keys && done.Keys == sizes.Keys - todo
      invariant forall c :: c in done ==> done[c] == sizes[c]
      invariant n == Sum(done)
      decreases todo
    {
      var checksum :| checksum in todo;
      var size := LargestSize(snaps, checksum);
      SumPut(done, checksum, size);
      done := done[checksum := size];
      n := n + size;
      todo := todo - {checksum};
    }
    assert done == sizes;
  }

  lemma SumNothing()
    ensures Sum<string>(map[]) == 0
  {
  }

  /** `DELETE ... WHERE id = ...`, entries included. */
  function DeleteById(snaps: seq<Snapshot>, id: Id): seq<Snapshot> {
    if snaps == [] then []
    else
      var last := snaps[|snaps| - 1];
      DeleteById(snaps[..|snaps| - 1], id) + if last.id == id then [] else [last]
  }

  lemma {:induction false} DeleteMissing(snaps: seq<Snapshot>, id: Id)
    requires forall s :: s in snaps ==> s.id != id
    ensures DeleteById(snaps, id) == snaps
  {
    if snaps != [] {
      DeleteMissing(snaps[..|snaps| - 1], id);
      assert snaps == snaps[..|snaps| - 1] + [snaps[|snaps| - 1]];
    }
  }

  lemma {:induction false} DeleteOne(snaps: seq<Snapshot>, i: nat)
    requires DistinctIds(snaps) && i < |snaps|
    ensures DeleteById(snaps, snaps[i].id) == Without(snaps, i)
  {
    hide Without, DistinctIds;
    var init, last := snaps[..|snaps| - 1], snaps[|snaps| - 1];
    assert snaps == init + [last];
    DistinctInit(snaps);
    if i == |init| {
      DeleteMissing(init, last.id);
      assert init + [] == init;
      WithoutLast(init, last);
    } else {
      assert init[i] == snaps[i] && init[i] in init;
      DeleteOne(init, i);
      WithoutAppend(init, i, [last]);
    }
  }

  method DeleteSnapshot(store: Store, id: Id)
    modifies store`snapshots
    ensures store.snapshots == DeleteById(old(store.snapshots), id)
  {
    store.snapshots := DeleteById(store.snapshots, id);
  }

  lemma DistinctWithout(snaps: seq<Snapshot>, i: nat)
    requires DistinctIds(snaps) && i < |snaps|
    ensures DistinctIds(Without(snaps, i))
  {
  }

  lemma RetentionStep(snaps: seq<Snapshot>, i: nat, n: int)
    requires i < |snaps|
    ensures Retained(snaps[..i + 1], n) ==
            Retained(snaps[..i], n) + if i < n || Exempt(snaps[i]) then [snaps[i]] else []
  {
    assert snaps[..i + 1][..i] == snaps[..i];
  }

  /** Deleting the snapshot at `snaps[i]` while the retention pass stands there. */
  lemma RetentionDeletes(snaps: seq<Snapshot>, i: nat, n: int)
    requires i < |snaps| && DistinctIds(Retained(snaps[..i], n) + snaps[i..])
    requires !(i < n || Exempt(snaps[i]))
    ensures DeleteById(Retained(snaps[..i], n) + snaps[i..], snaps[i].id) ==
            Retained(snaps[..i + 1], n) + snaps[i + 1..]
    ensures DistinctIds(Retained(snaps[..i + 1], n) + snaps[i + 1..])
  {
    var kept := Retained(snaps[..i], n);
    var now := kept + snaps[i..];
    RetentionStep(snaps, i, n);
    assert now[|kept|] == snaps[i];
    DeleteOne(now, |kept|);
    DistinctWithout(now, |kept|);
    assert now[..|kept|] == kept && now[|kept| + 1..] == snaps[i + 1..];
  }

  method RetentionPass(store: Store) returns (deleted: nat)
    requires DistinctIds(store.snapshots)
    modifies store`snapshots
    ensures store.snapshots == Retained(old(store.snapshots), store.retention)
    ensures DistinctIds(store.snapshots)
    ensures deleted == |old(store.snapshots)| - |store.snapshots|
  {
    hide Retained, DeleteById, DistinctIds, Exempt;
    var snaps := store.snapshots;
    var n := store.retention;
    deleted := 0;
    NothingRetained(n);
    assert [] + snaps[0..] == snaps;
    for i := 0 to |snaps|
      invariant store.snapshots == Retained(snaps[..i], n) + snaps[i..]
      invariant DistinctIds(store.snapshots)
      invariant deleted == |snaps| - |store.snapshots|
    {
      RetentionStep(snaps, i, n);
      if !(i < n || Exempt(snaps[i])) {
        RetentionDeletes(snaps, i, n);
        DeleteSnapshot(store, snaps[i].id);
        deleted := deleted + 1;
      } else {
        assert snaps[i..] == [snaps[i]] + snaps[i + 1..];
      }
    }
    assert snaps[..|snaps|] == snaps && snaps[|snaps|..] == [];
  }

  lemma NothingRetained(n: int)
    ensures Retained([], n) == []
  {
  }

  /** `prune`: retention first, then oldest first over the survivors until usage fits. */
  method PruneSnapshots(store: Store) returns (deleted: nat)
    requires DistinctIds(store.snapshots)
    modifies store`snapshots
    ensures store.Now() == PruneDb(old(store.Now()))
    ensures deleted == |old(store.snapshots)| - |store.snapshots|
  {
    hide UsedBytes, Retained, FitQuota;
    var snaps := store.snapshots;
    deleted := RetentionPass(store);
    var quota: int := match store.snapshotQuota case Some(q) => q case None => store.quota / 2;
    if quota > 0 && snaps != [] {
      var more := DropOverQuota(store, snaps[0].id, quota);
      deleted := deleted + more;
    }
  }

  method DropOverQuota(store: Store, newest: Id, quota: int) returns (deleted: nat)
    requires DistinctIds(store.snapshots)
    modifies store`snapshots
    ensures store.snapshots == FitQuota(old(store.snapshots), |old(store.snapshots)|, newest, quota)
    ensures deleted == |old(store.snapshots)| - |store.snapshots|
  {
    hide UsedBytes;
    var survivors := store.snapshots;
    deleted := 0;
    var i := |survivors|;
    while i > 0
      invariant 0 <= i <= |survivors| && i <= |store.snapshots|
      invariant DistinctIds(store.snapshots) && store.snapshots[..i] == survivors[..i]
      invariant FitQuota(store.snapshots, i, newest, quota) == FitQuota(survivors, |survivors|, newest, quota)
      invariant deleted == |survivors| - |store.snapshots|
    {
      i := i - 1;
      var s := survivors[i];
      assert store.snapshots[..i + 1][i] == s && store.snapshots[i] == s;
      assert store.snapshots[..i] == store.snapshots[..i + 1][..i];
      if !Protected(s, newest) {
        var usage := UsedSnapshotBytes(store.snapshots);
        if usage <= quota {
          break;
        }
        DeleteOne(store.snapshots, i);
        DistinctWithout(store.snapshots, i);
        DeleteSnapshot(store, s.id);
        deleted := deleted + 1;
      }
    }
  }

  /** `create`: capture, insert as the newest snapshot, prune. */
  method Create(store: Store, id: Id, trigger: Trigger, pinned: bool)
    requires Inv(store.Now()) && FreshSnapshotId(store.Now(), id) && store.retention >= 1
    modifies store`snapshots
    ensures store.Now() == CreateSnapshot(old(store.Now()), id, trigger, pinned)
    ensures Inv(store.Now())
  {
    CreateSnapshotInv(store.Now(), id, trigger, pinned);
    WithSnapshotInv(store.Now(), id, trigger, pinned);
    hide Inv, Capture, Prune;
    var entries := CaptureEntries(store.items);
    ghost var db := store.Now();
    store.snapshots := [Snapshot(id, trigger, pinned || trigger.PreRestore?, entries)] + store.snapshots;
    assert store.Now() == db.(snapshots := [NewSnapshot(db, id, trigger, pinned)] + db.snapshots);
    InvSnapshots(store.Now());
    var _ := PruneSnapshots(store);
  }

  /** `update_settings`: clamp, store, prune at once. */
  method ApplySettings(store: Store, retention: int, quotaBytes: Option<int>)
    requires DistinctIds(store.snapshots)
    modifies store
    ensures store.Now() == UpdateSettings(old(store.Now()), retention, quotaBytes)
  {
    hide Prune;
    store.retention := if retention < 1 then 1 else retention;
    if quotaBytes.Some? && quotaBytes.value >= 0 {
      store.snapshotQuota := Some(quotaBytes.value);
    } else if quotaBytes.Some? {
      store.snapshotQuota := Some(0);
    } else {
      store.snapshotQuota := None;
    }
    var _ := PruneSnapshots(store);
  }
}
