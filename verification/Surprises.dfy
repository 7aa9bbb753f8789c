/** Short runs from an empty drive that show where the service surprises its user. */
module Surprises {
  import opened Text
  import opened Sets
  import opened Forest
  import opened Names
  import opened Drive
  import opened DriveService
  import opened Trash
  import opened TrashService
  import opened Snapshots
  import opened SnapshotService
  import opened Restore
  import opened Runs
  import opened Sweep
  import opened Siblings

  // ----- runs, one operation at a time -----

  /** The run is possible from an empty drive and leads to `db`. */
  ghost predicate LeadsTo(quota: int, ops: seq<Op>, db: Db) {
    PossibleRun(EmptyDrive(quota), ops) && RunOps(EmptyDrive(quota), ops) == db
  }

  lemma {:induction false} RunThen(db: Db, ops: seq<Op>, op: Op)
    ensures RunOps(db, ops + [op]) == Step(RunOps(db, ops), op)
    ensures PossibleRun(db, ops + [op]) <==> PossibleRun(db, ops) && Possible(RunOps(db, ops), op)
    decreases |ops|
  {
    hide Step, Possible;
    if ops == [] {
      assert ([] + [op])[1..] == [];
    } else {
      assert (ops + [op])[1..] == ops[1..] + [op];
      RunThen(Step(db, ops[0]), ops[1..], op);
    }
  }

  lemma LeadsOn(quota: int, ops: seq<Op>, db: Db, op: Op)
    requires LeadsTo(quota, ops, db) && Possible(db, op)
    ensures LeadsTo(quota, ops + [op], Step(db, op))
  {
    hide Step, Possible, RunOps, PossibleRun;
    RunThen(EmptyDrive(quota), ops, op);
  }

  lemma LeadsFromEmpty(quota: int)
    ensures LeadsTo(quota, [], EmptyDrive(quota))
  {
  }

  lemma ReachedIsGood(quota: int, ops: seq<Op>, db: Db)
    requires LeadsTo(quota, ops, db)
    ensures Good(db)
  {
    hide Good, PossibleRun, RunOps;
    EmptyDriveGood(quota);
    RunInv(EmptyDrive(quota), ops);
  }

  function FolderIn(place: Option<Id>, name: string): Item {
    Item(place, Folder, name, 0, None, None, false)
  }

  predicate PlainName(name: string) {
    ValidName(name) == Some(name)
  }

  lemma FolderMade(db: Db, id: Id, place: Option<Id>, name: string)
    requires PlainName(name) && PlaceError(db.items, place).None? && name !in NamesIn(db.items, place, None)
    ensures Step(db, NewFolder(id, place, name)) ==
            db.(items := db.items[id := FolderIn(place, name)], kinds := db.kinds[id := Folder])
  {
  }

  /** A file of `size` bytes under a name that is free. */
  function WithFile(db: Db, file: Id, version: Id, place: Option<Id>, name: string, key: Key, size: nat): Db {
    CommitUpload(WriteBlob(db, file, key, size, 0), file, version, place, name, key, name)
  }

  lemma FileUploaded(db: Db, file: Id, version: Id, place: Option<Id>, name: string, key: Key, size: nat)
    requires PlainName(name) && PlaceError(db.items, place).None? && name !in NamesIn(db.items, place, None)
    requires db.quota - db.used >= size
    ensures Step(db, UploadFile(file, version, place, name, size, key, size, name, 0)) ==
            WithFile(db, file, version, place, name, key, size)
  {
    hide IsFreeName;
  }

  lemma Trashes(db: Db, id: Id)
    requires IsLive(db.items, id)
    ensures Step(db, ToTrash(id)) == db.(items := db.items[id := db.items[id].(deleted := true)])
  {
  }

  lemma PlainNames()
    ensures PlainName("a") && PlainName("b") && PlainName("c")
  {
  }

  // ----- a live file in a trashed folder -----

  /** Make folder "a", upload file "a" into it, trash the folder. */
  function OrphanRun(d: Id, f: Id, v: Id, k: Key): seq<Op> {
    [NewFolder(d, None, "a")] + [UploadFile(f, v, Some(d), "a", 1, k, 1, "a", 0)] + [ToTrash(d)]
  }

  /** The drive after that run. */
  function OrphanDrive(quota: int, d: Id, f: Id, v: Id, k: Key): Db {
    Db(map[d := FolderIn(None, "a").(deleted := true),
           f := Item(Some(d), File, "a", 1, Some(k), Some("a"), false)],
       map[v := Version(f, k, 1)], [], map[k := Blob(1, 0)], 1, quota, 50, None,
       map[d := Folder, f := File], map[k := f])
  }

  lemma OrphanReached(quota: int, d: Id, f: Id, v: Id, k: Key)
    requires quota >= 1 && d != f
    ensures LeadsTo(quota, OrphanRun(d, f, v, k), OrphanDrive(quota, d, f, v, k))
  {
    PlainNames();
    LeadsFromEmpty(quota);
    hide LeadsTo, PlainName, Step;
    var db0 := EmptyDrive(quota);
    FolderMade(db0, d, None, "a");
    LeadsOn(quota, [], db0, NewFolder(d, None, "a"));
    assert [] + [NewFolder(d, None, "a")] == [NewFolder(d, None, "a")];
    var db1 := Step(db0, NewFolder(d, None, "a"));
    var upload := UploadFile(f, v, Some(d), "a", 1, k, 1, "a", 0);
    FileUploaded(db1, f, v, Some(d), "a", k, 1);
    LeadsOn(quota, [NewFolder(d, None, "a")], db1, upload);
    var db2 := Step(db1, upload);
    Trashes(db2, d);
    LeadsOn(quota, [NewFolder(d, None, "a")] + [upload], db2, ToTrash(d));
    assert Step(db2, ToTrash(d)) == OrphanDrive(quota, d, f, v, k);
  }

  /** The file is captured at the root, where another live file may be uploaded under the same
      name: the capture, and so a restore of it, has two siblings of one name. */
  lemma CaptureCollides(quota: int, d: Id, f: Id, g: Id, v: Id, w: Id, k: Key, l: Key)
    requires quota >= 3 && d != f && f != g && d != g && v != w && k != l
    ensures var ops := OrphanRun(d, f, v, k) + [UploadFile(g, w, None, "a", 2, l, 2, "a", 0)];
            var db := WithFile(OrphanDrive(quota, d, f, v, k), g, w, None, "a", l, 2);
            && LeadsTo(quota, ops, db) && Good(db)
            && DistinctNames(db.items) && !DistinctEntryNames(Capture(db.items))
  {
    hide LeadsTo, Good, DistinctNames, DistinctEntryNames, Capture, OrphanRun, WithFile, OrphanDrive;
    SecondReached(quota, d, f, g, v, w, k, l);
    ReachedIsGood(quota, OrphanRun(d, f, v, k) + [UploadFile(g, w, None, "a", 2, l, 2, "a", 0)],
                  WithFile(OrphanDrive(quota, d, f, v, k), g, w, None, "a", l, 2));
    SecondCollides(quota, d, f, g, v, w, k, l);
  }

  lemma SecondCollides(quota: int, d: Id, f: Id, g: Id, v: Id, w: Id, k: Key, l: Key)
    requires d != f && f != g && d != g
    ensures var items := WithFile(OrphanDrive(quota, d, f, v, k), g, w, None, "a", l, 2).items;
            DistinctNames(items) && !DistinctEntryNames(Capture(items))
  {
    hide DistinctNames, DistinctEntryNames, Capture;
    var items := WithFile(OrphanDrive(quota, d, f, v, k), g, w, None, "a", l, 2).items;
    assert items.Keys == {d, f, g};
    Colliding(items, d, f, g);
  }

  lemma SecondReached(quota: int, d: Id, f: Id, g: Id, v: Id, w: Id, k: Key, l: Key)
    requires quota >= 3 && d != f && f != g && d != g && v != w && k != l
    ensures LeadsTo(quota, OrphanRun(d, f, v, k) + [UploadFile(g, w, None, "a", 2, l, 2, "a", 0)],
                    WithFile(OrphanDrive(quota, d, f, v, k), g, w, None, "a", l, 2))
  {
    var db := OrphanDrive(quota, d, f, v, k);
    var op := UploadFile(g, w, None, "a", 2, l, 2, "a", 0);
    PlainNames();
    OrphanReached(quota, d, f, v, k);
    RootIsFree(quota, d, f, g, v, w, k, l);
    hide LeadsTo, OrphanRun, PlainName, Step, NamesIn, OrphanDrive, WithFile, Possible;
    FileUploaded(db, g, w, None, "a", l, 2);
    LeadsOn(quota, OrphanRun(d, f, v, k), db, op);
  }

  lemma RootIsFree(quota: int, d: Id, f: Id, g: Id, v: Id, w: Id, k: Key, l: Key)
    requires quota >= 3 && f != g && d != g && v != w && k != l
    ensures var db := OrphanDrive(quota, d, f, v, k);
            && "a" !in NamesIn(db.items, None, None) && db.quota - db.used >= 2
            && Possible(db, UploadFile(g, w, None, "a", 2, l, 2, "a", 0))
  {
  }

  lemma Colliding(items: map<Id, Item>, d: Id, f: Id, g: Id)
    requires f != g && items.Keys == {d, f, g} && items[d].deleted
    requires IsLive(items, f) && items[f].parent == Some(d)
    requires IsLive(items, g) && items[g].parent == None && items[g].name == items[f].name
    ensures DistinctNames(items) && !DistinctEntryNames(Capture(items))
  {
    var c := Capture(items);
    assert f in Live(items) && g in Live(items);
    assert f in c && g in c && c[f].parent == c[g].parent && c[f].name == c[g].name;
  }

  /** Every period takes another snapshot of that drive, although nothing changes. */
  lemma UnchangedIsDue(quota: int, d: Id, f: Id, v: Id, k: Key, id: Id, trigger: Trigger, pinned: bool)
    requires quota >= 1 && d != f
    ensures var db := OrphanDrive(quota, d, f, v, k);
            && LeadsTo(quota, OrphanRun(d, f, v, k), db) && Good(db)
            && CreateSnapshot(db, id, trigger, pinned).items == db.items
            && Due(CreateSnapshot(db, id, trigger, pinned), true, false)
  {
    var db := OrphanDrive(quota, d, f, v, k);
    OrphanReached(quota, d, f, v, k);
    ReachedIsGood(quota, OrphanRun(d, f, v, k), db);
    hide LeadsTo, Good, Due, Prune;
    UnchangedDrive(db, id, trigger, pinned);
    assert f in Live(db.items) && db.items[f].parent == Some(d);
  }

  // ----- a live folder between two trashed ones -----

  /** Make folder "a" and "b" in it, upload file "c" into that, trash the file and then "a". */
  function NestedRun(a: Id, b: Id, c: Id, v: Id, k: Key): seq<Op> {
    [NewFolder(a, None, "a")] + [NewFolder(b, Some(a), "b")] + [UploadFile(c, v, Some(b), "c", 1, k, 1, "c", 0)] +
    [ToTrash(c)] + [ToTrash(a)]
  }

  function FileIn(place: Id, k: Key): Item {
    Item(Some(place), File, "c", 1, Some(k), Some("c"), false)
  }

  /** The drive with those items, in either state of the trash. */
  function NestedDrive(quota: int, a: Id, b: Id, c: Id, v: Id, k: Key, trashed: bool): Db {
    Db(map[a := FolderIn(None, "a").(deleted := trashed), b := FolderIn(Some(a), "b"),
           c := FileIn(b, k).(deleted := trashed)],
       map[v := Version(c, k, 1)], [], map[k := Blob(1, 0)], 1, quota, 50, None,
       map[a := Folder, b := Folder, c := File], map[k := c])
  }

  lemma NestedMade(quota: int, a: Id, b: Id, c: Id, v: Id, k: Key)
    requires quota >= 1 && a != b && b != c && a != c
    ensures LeadsTo(quota, NestedRun(a, b, c, v, k)[..3], NestedDrive(quota, a, b, c, v, k, false))
  {
    PlainNames();
    LeadsFromEmpty(quota);
    hide LeadsTo, PlainName, Step;
    var upload := UploadFile(c, v, Some(b), "c", 1, k, 1, "c", 0);
    var db0 := EmptyDrive(quota);
    FolderMade(db0, a, None, "a");
    LeadsOn(quota, [], db0, NewFolder(a, None, "a"));
    assert [] + [NewFolder(a, None, "a")] == [NewFolder(a, None, "a")];
    var db1 := Step(db0, NewFolder(a, None, "a"));
    FolderMade(db1, b, Some(a), "b");
    LeadsOn(quota, [NewFolder(a, None, "a")], db1, NewFolder(b, Some(a), "b"));
    var db2 := Step(db1, NewFolder(b, Some(a), "b"));
    FileUploaded(db2, c, v, Some(b), "c", k, 1);
    LeadsOn(quota, [NewFolder(a, None, "a")] + [NewFolder(b, Some(a), "b")], db2, upload);
    assert Step(db2, upload) == NestedDrive(quota, a, b, c, v, k, false);
    assert NestedRun(a, b, c, v, k)[..3] == [NewFolder(a, None, "a")] + [NewFolder(b, Some(a), "b")] + [upload];
  }

  lemma NestedReached(quota: int, a: Id, b: Id, c: Id, v: Id, k: Key)
    requires quota >= 1 && a != b && b != c && a != c
    ensures LeadsTo(quota, NestedRun(a, b, c, v, k), NestedDrive(quota, a, b, c, v, k, true))
  {
    var made, db := NestedRun(a, b, c, v, k)[..3], NestedDrive(quota, a, b, c, v, k, false);
    NestedMade(quota, a, b, c, v, k);
    TrashesTwo(db, c, a);
    assert db.(items := db.items[c := db.items[c].(deleted := true)][a := db.items[a].(deleted := true)]) ==
           NestedDrive(quota, a, b, c, v, k, true);
    assert made + [ToTrash(c)] + [ToTrash(a)] == NestedRun(a, b, c, v, k);
    hide LeadsTo, Step, NestedDrive, EmptyDrive, FolderIn, NestedRun;
    LeadsOn(quota, made, db, ToTrash(c));
    LeadsOn(quota, made + [ToTrash(c)], Step(db, ToTrash(c)), ToTrash(a));
  }

  lemma TrashesTwo(db: Db, x: Id, y: Id)
    requires x != y && IsLive(db.items, x) && IsLive(db.items, y)
    ensures Step(Step(db, ToTrash(x)), ToTrash(y)) ==
            db.(items := db.items[x := db.items[x].(deleted := true)][y := db.items[y].(deleted := true)])
  {
    hide Step;
    Trashes(db, x);
    Trashes(Step(db, ToTrash(x)), y);
  }

  /** Both trashed items are listed as tops, and deleting the folder takes the file along: emptying
      the trash in that order fails, and after the rollback the file's blob is missing. */
  lemma EmptyTrashFails(quota: int, a: Id, b: Id, c: Id, v: Id, k: Key)
    requires quota >= 1 && a != b && b != c && a != c
    ensures var db := NestedDrive(quota, a, b, c, v, k, true);
            && LeadsTo(quota, NestedRun(a, b, c, v, k), db) && Good(db)
            && Lists([a, c], Tops(db.items)) && !TrashContiguous(db.items)
            && Trash.PermanentDelete(db, a).Done?
            && Trash.PermanentDelete(Trash.PermanentDelete(db, a).db, c) == Failed(NotFound)
            && db.items[c].key == Some(k) && k !in RolledBack(db, Subtree(db.items, a)).blobs
  {
    var db := NestedDrive(quota, a, b, c, v, k, true);
    NestedReached(quota, a, b, c, v, k);
    ReachedIsGood(quota, NestedRun(a, b, c, v, k), db);
    hide LeadsTo, Good, NestedRun;
    NestedTops(quota, a, b, c, v, k);
    ReclaimsFile(db, Subtree(db.items, a), v);
    hide Lists, Tops, TrashContiguous, Subtree, Reclaimed;
  }

  lemma NestedTops(quota: int, a: Id, b: Id, c: Id, v: Id, k: Key)
    requires a != b && b != c && a != c
    ensures var items := NestedDrive(quota, a, b, c, v, k, true).items;
            Lists([a, c], Tops(items)) && !TrashContiguous(items) && c in Subtree(items, a)
  {
    var items := NestedDrive(quota, a, b, c, v, k, true).items;
    var p := ItemParents(items);
    assert Ancestor(p, c, 2) == Some(a);
    assert Below(p, a, c);
    assert c in Subtree(items, a);
  }

  lemma ReclaimsFile(db: Db, gone: set<Id>, v: Id)
    requires v in db.versions && db.versions[v].file in gone && db.snapshots == []
    ensures db.versions[v].key in Reclaimed(db.versions, gone, db.snapshots)
  {
    assert v in VersionsOf(db.versions, gone) && VersionsOf(db.versions, gone)[v] == db.versions[v];
  }

  // ----- a snapshot pruned by its own restore -----

  /** Keep one snapshot only, make a folder, take a snapshot. */
  function PrunedRun(a: Id, id: Id): seq<Op> {
    [ChangeSettings(1, None)] + [NewFolder(a, None, "a")] + [TakeSnapshot(id, Manual, false)]
  }

  function PrunedDrive(quota: int, a: Id, id: Id): Db {
    var items := map[a := FolderIn(None, "a")];
    EmptyDrive(quota).(items := items, kinds := map[a := Folder], retention := 1,
                       snapshots := [Snapshot(id, Manual, false, Capture(items))])
  }

  lemma PrunedReached(quota: int, a: Id, id: Id)
    ensures LeadsTo(quota, PrunedRun(a, id), PrunedDrive(quota, a, id))
  {
    PlainNames();
    LeadsFromEmpty(quota);
    hide LeadsTo, PlainName;
    var db0 := EmptyDrive(quota);
    var db1 := db0.(retention := 1);
    assert Step(db0, ChangeSettings(1, None)) == db1;
    LeadsOn(quota, [], db0, ChangeSettings(1, None));
    assert [] + [ChangeSettings(1, None)] == [ChangeSettings(1, None)];
    FolderMade(db1, a, None, "a");
    LeadsOn(quota, [ChangeSettings(1, None)], db1, NewFolder(a, None, "a"));
    var db2 := Step(db1, NewFolder(a, None, "a"));
    OneSnapshot(db2, id);
    LeadsOn(quota, [ChangeSettings(1, None)] + [NewFolder(a, None, "a")], db2, TakeSnapshot(id, Manual, false));
  }

  lemma OneSnapshot(db: Db, id: Id)
    requires db.snapshots == [] && db.retention >= 1
    ensures Step(db, TakeSnapshot(id, Manual, false)) ==
            db.(snapshots := [Snapshot(id, Manual, false, Capture(db.items))])
  {
    hide Capture, Prune;
    var s := NewSnapshot(db, id, Manual, false);
    assert [s] + db.snapshots == [s];
    PruneOne(s, db.retention, SnapshotQuota(db));
  }

  /** Restoring that snapshot as an exact mirror takes a safety snapshot, which prunes it: the
      drive still holds exactly what was captured, and the restore trashes all of it. */
  lemma MirrorTrashesAll(quota: int, a: Id, id: Id, safety: Id)
    requires id != safety
    ensures var db := PrunedDrive(quota, a, id);
            && LeadsTo(quota, PrunedRun(a, id), db) && Good(db)
            && EntriesOf(db.snapshots, id) == Capture(db.items) && a in Capture(db.items)
            && RestoreSnapshot(db, id, safety, None, true).Some?
            && Capture(RestoreSnapshot(db, id, safety, None, true).value.items) == map[]
  {
    var db := PrunedDrive(quota, a, id);
    PrunedReached(quota, a, id);
    ReachedIsGood(quota, PrunedRun(a, id), db);
    hide LeadsTo, Inv, PrunedRun, UsedBytes, DroppedFrom, RestoredItems;
    assert db.snapshots[0].id == id;
    assert HasSnapshot(db.snapshots, id);
    SurvivalCondition(db, 0, safety);
    hide Prune, Survives;
    MirrorRoundTrip(db, id, safety);
  }
}
