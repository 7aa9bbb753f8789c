/** One garbage collection, what deleting a snapshot frees, and when a snapshot is due. */
module Sweep {
  import opened Text
  import opened Sets
  import opened Sums
  import opened Forest
  import opened Drive
  import opened Store
  import opened Snapshots
  import opened SnapshotService
  import opened Restore
  import opened Runs

  // ----- the sweep -----

  /** Blobs no row names, written before the cutoff, and those too new to be sure. */
  function Orphans(db: Db, cutoff: int): set<Key> {
    set k | k in db.blobs && k !in References(db) && db.blobs[k].modified < cutoff
  }

  function Recent(db: Db, cutoff: int): set<Key> {
    set k | k in db.blobs && k !in References(db) && db.blobs[k].modified >= cutoff
  }

  function BlobSizes(blobs: map<Key, Blob>, keys: set<Key>): map<Key, nat> {
    map k | k in blobs && k in keys :: blobs[k].size
  }

  ghost function FreedBy(db: Db, cutoff: int): nat {
    Sum(BlobSizes(db.blobs, Orphans(db, cutoff)))
  }

  method ReferencedStorageKeys(store: Store) returns (keys: set<Key>)
    ensures keys == References(store.Now())
  {
    keys := ItemKeys(store.items);
    keys := keys + VersionKeys(store.versions);
    keys := keys + SnapshotKeys(store.snapshots);
  }

  /** The blobs handled so far have been deleted, counted and skipped as they should be. */
  ghost predicate SweptSoFar(db: Db, cutoff: int, done: set<Key>, blobs: map<Key, Blob>,
                             deleted: nat, freed: nat, skipped: nat) {
    && blobs == db.blobs - Orphans(db, cutoff) * done
    && deleted == |Orphans(db, cutoff) * done|
    && freed == Sum(BlobSizes(db.blobs, Orphans(db, cutoff) * done))
    && skipped == |Recent(db, cutoff) * done|
  }

  lemma SweptNothing(db: Db, cutoff: int)
    ensures SweptSoFar(db, cutoff, {}, db.blobs, 0, 0, 0)
  {
    assert Orphans(db, cutoff) * {} == {} && Recent(db, cutoff) * {} == {};
    assert BlobSizes(db.blobs, {}) == map[];
    assert db.blobs - {} == db.blobs;
  }

  lemma SweepOne(db: Db, cutoff: int, done: set<Key>, k: Key, blobs: map<Key, Blob>,
                 deleted: nat, freed: nat, skipped: nat)
    requires SweptSoFar(db, cutoff, done, blobs, deleted, freed, skipped) && k in db.blobs && k !in done
    ensures k in References(db) ==> SweptSoFar(db, cutoff, done + {k}, blobs, deleted, freed, skipped)
    ensures k !in References(db) && db.blobs[k].modified >= cutoff ==>
              SweptSoFar(db, cutoff, done + {k}, blobs, deleted, freed, skipped + 1)
    ensures k !in References(db) && db.blobs[k].modified < cutoff ==>
              SweptSoFar(db, cutoff, done + {k}, blobs - {k}, deleted + 1, freed + db.blobs[k].size, skipped)
  {
    hide References, SweptSoFar;
    if k in Orphans(db, cutoff) {
      SweepOrphan(db, cutoff, done, k, blobs, deleted, freed, skipped);
    } else {
      SweepOther(db, cutoff, done, k, blobs, deleted, freed, skipped);
    }
  }

  lemma SweepOrphan(db: Db, cutoff: int, done: set<Key>, k: Key, blobs: map<Key, Blob>,
                    deleted: nat, freed: nat, skipped: nat)
    requires SweptSoFar(db, cutoff, done, blobs, deleted, freed, skipped) && k in db.blobs && k !in done
    requires k in Orphans(db, cutoff) && k !in Recent(db, cutoff)
    ensures SweptSoFar(db, cutoff, done + {k}, blobs - {k}, deleted + 1, freed + db.blobs[k].size, skipped)
  {
    hide Orphans, Recent, Sum, BlobSizes;
    var o := Orphans(db, cutoff);
    MeetOne(o, done, k);
    MeetOne(Recent(db, cutoff), done, k);
    OneMoreSize(db.blobs, o * done, k);
    assert db.blobs - (o * done + {k}) == db.blobs - o * done - {k};
  }

  lemma SweepOther(db: Db, cutoff: int, done: set<Key>, k: Key, blobs: map<Key, Blob>,
                   deleted: nat, freed: nat, skipped: nat)
    requires SweptSoFar(db, cutoff, done, blobs, deleted, freed, skipped) && k !in done
    requires k !in Orphans(db, cutoff)
    ensures SweptSoFar(db, cutoff, done + {k}, blobs, deleted, freed,
                       if k in Recent(db, cutoff) then skipped + 1 else skipped)
  {
    hide Orphans, Recent, Sum, BlobSizes;
    MeetOne(Orphans(db, cutoff), done, k);
    MeetOne(Recent(db, cutoff), done, k);
  }

  lemma MeetOne(s: set<Key>, done: set<Key>, k: Key)
    requires k !in done
    ensures s * (done + {k}) == if k in s then s * done + {k} else s * done
    ensures k !in s * done
  {
  }

  lemma OneMoreSize(blobs: map<Key, Blob>, keys: set<Key>, k: Key)
    requires k in blobs && k !in keys
    ensures Sum(BlobSizes(blobs, keys + {k})) == Sum(BlobSizes(blobs, keys)) + blobs[k].size
  {
    SumPut(BlobSizes(blobs, keys), k, blobs[k].size);
    assert BlobSizes(blobs, keys + {k}) == BlobSizes(blobs, keys)[k := blobs[k].size];
  }

  /** The loop over the listing: every stored blob is looked at once. */
  method SweepListing(store: Store, ghost db: Db, referenced: set<Key>, cutoff: int)
    returns (deleted: nat, freed: nat, skipped: nat)
    requires store.blobs == db.blobs && referenced == References(db)
    modifies store`blobs
    ensures SweptSoFar(db, cutoff, db.blobs.Keys, store.blobs, deleted, freed, skipped)
  {
    var blobs := store.blobs;
    var listing := ListRows(blobs.Keys);
    deleted, freed, skipped := 0, 0, 0;
    SweptNothing(db, cutoff);
    ListedAll(listing, blobs.Keys);
    hide *;
    for i := 0 to |listing|
      invariant SweptSoFar(db, cutoff, SetOf(listing[..i]), store.blobs, deleted, freed, skipped)
    {
      var k := listing[i];
      NextListed(listing, i);
      SweepOne(db, cutoff, SetOf(listing[..i]), k, store.blobs, deleted, freed, skipped);
      if k in referenced {
        continue;
      }
      if blobs[k].modified >= cutoff {
        skipped := skipped + 1;
        continue;
      }
      store.blobs := store.blobs - {k};
      deleted := deleted + 1;
      freed := freed + blobs[k].size;
    }
    assert listing[..|listing|] == listing;
  }

  lemma ListedAll(listing: seq<Key>, keys: set<Key>)
    requires Lists(listing, keys)
    ensures NoDup(listing) && SetOf(listing) == keys && SetOf(listing[..0]) == {}
    ensures forall i :: 0 <= i < |listing| ==> listing[i] in keys
  {
    assert forall i :: 0 <= i < |listing| ==> listing[i] in listing;
  }

  /** `collect_garbage`: what is deleted, and the three numbers reported. */
  method CollectGarbage(store: Store, graceMinutes: nat, now: int) returns (deleted: nat, freed: nat, skipped: nat)
    modifies store`blobs
    ensures var db, cutoff := old(store.Now()), now - graceMinutes * 60;
            && store.Now() == db.(blobs := db.blobs - Orphans(db, cutoff))
            && deleted == |Orphans(db, cutoff)| && freed == FreedBy(db, cutoff)
            && skipped == |Recent(db, cutoff)|
  {
    hide SweptSoFar, References, Orphans, Recent, FreedBy;
    ghost var db := store.Now();
    var referenced := ReferencedStorageKeys(store);
    var cutoff := now - graceMinutes * 60;
    deleted, freed, skipped := SweepListing(store, db, referenced, cutoff);
    SweptAll(db, cutoff, store.blobs, deleted, freed, skipped);
  }

  lemma SweptAll(db: Db, cutoff: int, blobs: map<Key, Blob>, deleted: nat, freed: nat, skipped: nat)
    requires SweptSoFar(db, cutoff, db.blobs.Keys, blobs, deleted, freed, skipped)
    ensures blobs == db.blobs - Orphans(db, cutoff)
    ensures deleted == |Orphans(db, cutoff)| && freed == FreedBy(db, cutoff) && skipped == |Recent(db, cutoff)|
  {
    assert Orphans(db, cutoff) * db.blobs.Keys == Orphans(db, cutoff);
    assert Recent(db, cutoff) * db.blobs.Keys == Recent(db, cutoff);
  }

  // ----- what deleting a snapshot frees -----

  /** Keys that only snapshot `i` still holds. */
  function SoleKeys(db: Db, i: nat): set<Key>
    requires i < |db.snapshots|
  {
    EntryKeys(db.snapshots[i].entries) - SnapshotKeys(Without(db.snapshots, i)) -
    ItemKeys(db.items) - VersionKeys(db.versions)
  }

  /** Sizes of the entries with one storage key. */
  function SizesAt(entries: map<Id, Entry>, k: Key): map<Id, nat> {
    map x | x in entries && entries[x].key == Some(k) :: entries[x].size
  }

  /** `reclaimable_bytes_by_snapshot`, for the snapshot at position `i`. */
  ghost function Reclaimable(db: Db, i: nat): nat
    requires i < |db.snapshots|
  {
    Sum(map k | k in SoleKeys(db, i) :: MaxIn(SizesAt(db.snapshots[i].entries, k)))
  }

  lemma {:induction false} MaxConstant(m: map<Id, nat>, n: nat)
    requires m != map[] && forall x :: x in m ==> m[x] == n
    ensures MaxIn(m) == n
    decreases |m|
  {
    var x :| x in m && MaxIn(m) == if m[x] > MaxIn(m - {x}) then m[x] else MaxIn(m - {x});
    if m - {x} != map[] {
      MaxConstant(m - {x}, n);
    } else {
      assert MaxIn(m - {x}) == 0;
    }
  }

  /** An entry's size is the size of its blob. */
  lemma EntrySizeIsBlobSize(db: Db, i: nat, k: Key)
    requires Inv(db) && i < |db.snapshots| && k in EntryKeys(db.snapshots[i].entries)
    ensures k in db.blobs && MaxIn(SizesAt(db.snapshots[i].entries, k)) == db.blobs[k].size
  {
    var entries := db.snapshots[i].entries;
    assert SnapshotOk(db, db.snapshots[i]);
    var x :| x in entries && entries[x].key == Some(k);
    assert EntryOk(db, x, entries[x]);
    assert x in SizesAt(entries, k);
    forall y | y in SizesAt(entries, k)
      ensures SizesAt(entries, k)[y] == db.blobs[k].size
    {
      assert EntryOk(db, y, entries[y]);
    }
    MaxConstant(SizesAt(entries, k), db.blobs[k].size);
  }

  lemma WithoutKeys(snaps: seq<Snapshot>, i: nat)
    requires i < |snaps|
    ensures SnapshotKeys(snaps) == SnapshotKeys(Without(snaps, i)) + EntryKeys(snaps[i].entries)
  {
    hide EntryKeys;
    var rest := Without(snaps, i);
    forall k | k in SnapshotKeys(snaps)
      ensures k in SnapshotKeys(rest) + EntryKeys(snaps[i].entries)
    {
      var j :| 0 <= j < |snaps| && k in EntryKeys(snaps[j].entries);
      if j != i {
        assert rest[if j < i then j else j - 1] == snaps[j];
      }
    }
    forall k | k in SnapshotKeys(rest)
      ensures k in SnapshotKeys(snaps)
    {
      var j :| 0 <= j < |rest| && k in EntryKeys(rest[j].entries);
      assert rest[j] == snaps[if j < i then j else j + 1];
    }
  }

  /** Deleting the snapshot unreferences exactly its sole keys. */
  lemma ReferencesWithout(db: Db, i: nat)
    requires i < |db.snapshots|
    ensures References(db.(snapshots := Without(db.snapshots, i))) == References(db) - SoleKeys(db, i)
    ensures SoleKeys(db, i) <= References(db)
  {
    hide EntryKeys, SnapshotKeys, ItemKeys, VersionKeys;
    WithoutKeys(db.snapshots, i);
  }

  /** The snapshot's sole blobs that are still inside the grace window. */
  function Young(db: Db, i: nat, cutoff: int): set<Key>
    requires i < |db.snapshots|
  {
    set k | k in SoleKeys(db, i) && k in db.blobs && db.blobs[k].modified >= cutoff
  }

  /** Deleting a snapshot and sweeping frees the reported bytes more than sweeping alone, less
      what is still inside the grace window: exactly the reported bytes if and only if the
      snapshot's sole blobs inside the window have no bytes. */
  lemma ReclaimableIsFreed(db: Db, i: nat, cutoff: int)
    requires Inv(db) && i < |db.snapshots|
    ensures var t := db.(snapshots := Without(db.snapshots, i));
            && FreedBy(t, cutoff) + Sum(BlobSizes(db.blobs, Young(db, i, cutoff))) ==
               FreedBy(db, cutoff) + Reclaimable(db, i)
            && (FreedBy(t, cutoff) == FreedBy(db, cutoff) + Reclaimable(db, i) <==>
                forall k :: k in Young(db, i, cutoff) ==> db.blobs[k].size == 0)
  {
    hide Inv, SoleKeys, References, Sum, Reclaimable, Orphans, BlobSizes;
    SoleSizes(db, i);
    OrphansWithout(db, i, cutoff);
    var young := Young(db, i, cutoff);
    var aged := SoleKeys(db, i) - young;
    SizesSplit(db.blobs, Orphans(db, cutoff), aged);
    SizesSplit(db.blobs, young, aged);
    assert young + aged == SoleKeys(db, i);
    NoBytes(BlobSizes(db.blobs, young));
    BlobSizesOf(db.blobs, young);
  }

  lemma BlobSizesOf(blobs: map<Key, Blob>, keys: set<Key>)
    requires keys <= blobs.Keys
    ensures BlobSizes(blobs, keys).Keys == keys
    ensures forall k :: k in keys ==> BlobSizes(blobs, keys)[k] == blobs[k].size
  {
  }

  lemma OrphansWithout(db: Db, i: nat, cutoff: int)
    requires i < |db.snapshots| && SoleKeys(db, i) <= db.blobs.Keys
    ensures Orphans(db.(snapshots := Without(db.snapshots, i)), cutoff) ==
            Orphans(db, cutoff) + (SoleKeys(db, i) - Young(db, i, cutoff))
    ensures Orphans(db, cutoff) !! SoleKeys(db, i)
  {
    ReferencesWithout(db, i);
    hide SoleKeys, References, Without;
  }

  lemma SizesSplit(blobs: map<Key, Blob>, a: set<Key>, b: set<Key>)
    requires a !! b
    ensures Sum(BlobSizes(blobs, a + b)) == Sum(BlobSizes(blobs, a)) + Sum(BlobSizes(blobs, b))
  {
    var both := BlobSizes(blobs, a + b);
    SumSplit(both, a);
    assert (map k | k in both && k in a :: both[k]) == BlobSizes(blobs, a);
    assert both - a == BlobSizes(blobs, b);
  }

  lemma SoleSizes(db: Db, i: nat)
    requires Inv(db) && i < |db.snapshots|
    ensures SoleKeys(db, i) <= db.blobs.Keys
    ensures Reclaimable(db, i) == Sum(BlobSizes(db.blobs, SoleKeys(db, i)))
  {
    hide Inv, SnapshotKeys, ItemKeys, VersionKeys, MaxIn, EntryKeys, Sum;
    forall k | k in SoleKeys(db, i)
      ensures k in db.blobs && MaxIn(SizesAt(db.snapshots[i].entries, k)) == db.blobs[k].size
    {
      EntrySizeIsBlobSize(db, i, k);
    }
    assert (map k | k in SoleKeys(db, i) :: MaxIn(SizesAt(db.snapshots[i].entries, k))) ==
           BlobSizes(db.blobs, SoleKeys(db, i));
  }

  lemma {:induction false} NoBytes(m: map<Key, nat>)
    ensures Sum(m) == 0 <==> forall k :: k in m ==> m[k] == 0
    decreases |m|
  {
    if m != map[] {
      var k :| k in m && Sum(m) == m[k] + Sum(m - {k});
      NoBytes(m - {k});
      assert forall j :: j in m ==> j == k || j in m - {k};
    }
  }

  // ----- scheduled snapshots -----

  /** `run_scheduled_snapshot` creates one. */
  predicate Due(db: Db, enabled: bool, newestInPeriod: bool) {
    && enabled
    && !(db.snapshots != [] && newestInPeriod)
    && Live(db.items) != {}
    && (db.snapshots != [] ==> ItemsSignature(db.items) != EntriesSignature(db.snapshots[0].entries))
  }

  /** No live item sits in a trashed folder. */
  ghost predicate NoOrphans(items: map<Id, Item>) {
    forall x :: x in Live(items) && items[x].parent.Some? ==> items[x].parent.value in Live(items)
  }

  /** The change detection compares parents as they are with parents as captured: it calls a
      drive equal to its own capture exactly when no live item sits in a trashed folder. */
  lemma ChangeDetection(db: Db)
    requires Inv(db)
    ensures ItemsSignature(db.items) == EntriesSignature(Capture(db.items)) <==> NoOrphans(db.items)
  {
    var items := db.items;
    var c := Capture(items);
    forall x | x in Live(items)
      ensures c[x].name == items[x].name && c[x].kind == items[x].kind && c[x].checksum == items[x].checksum
    {
      assert ItemOk(db, x, items[x]);
    }
    hide Inv;
    if NoOrphans(items) {
      SameSignature(items, c);
    }
    if ItemsSignature(items) == EntriesSignature(c) {
      forall x | x in Live(items) && items[x].parent.Some?
        ensures items[x].parent.value in Live(items)
      {
        var s := Signature(x, items[x].parent, items[x].name, items[x].kind, OrEmpty(items[x].checksum));
        assert s in ItemsSignature(items);
        assert s in EntriesSignature(c);
      }
    }
  }

  /** Right after a snapshot the next period makes another one exactly when some live item sits
      in a trashed folder, although the drive has not changed. */
  lemma UnchangedDrive(db: Db, id: Id, trigger: Trigger, pinned: bool)
    requires Good(db) && FreshSnapshotId(db, id)
    ensures Due(CreateSnapshot(db, id, trigger, pinned), true, false) <==> !NoOrphans(db.items)
  {
    hide Inv, Capture, Prune, ItemsSignature, EntriesSignature, NoOrphans, SnapshotOk;
    var all := [NewSnapshot(db, id, trigger, pinned)] + db.snapshots;
    PruneSurvivors(all, db.retention, SnapshotQuota(db));
    ChangeDetection(db);
    if Live(db.items) == {} {
      NoneLive(db.items);
    }
  }

  lemma NoneLive(items: map<Id, Item>)
    requires Live(items) == {}
    ensures NoOrphans(items)
  {
  }

  /** `run_scheduled_snapshot`; `newestInPeriod` says that the newest snapshot was taken since
      the current period began. */
  method RunScheduledSnapshot(store: Store, id: Id, enabled: bool, newestInPeriod: bool) returns (created: bool)
    requires Good(store.Now()) && FreshSnapshotId(store.Now(), id)
    modifies store`snapshots
    ensures created <==> Due(old(store.Now()), enabled, newestInPeriod)
    ensures store.Now() == if created then CreateSnapshot(old(store.Now()), id, Scheduled, false) else old(store.Now())
    ensures Good(store.Now())
  {
    hide Inv, Capture, Prune, ItemsSignature, EntriesSignature, FreshSnapshotId;
    if !enabled {
      return false;
    }
    if store.snapshots != [] && newestInPeriod {
      return false;
    }
    if Live(store.items) == {} {
      return false;
    }
    if store.snapshots != [] {
      if ItemsSignature(store.items) == EntriesSignature(store.snapshots[0].entries) {
        return false;
      }
    }
    Create(store, id, Scheduled, false);
    created := true;
  }
}
