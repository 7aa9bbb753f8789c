/** The drive of one user: items, file versions, snapshots and stored blobs, the invariant
    that ties them together, and the drive operations. */
module Drive {
  import opened Text
  import opened Sums
  import opened Forest
  import opened Names

  /** The random part of a storage key. */
  datatype Key = Key(uuid: nat)

  datatype Kind = File | Folder

  datatype Item = Item(parent: Option<Id>, kind: Kind, name: string, size: nat,
                       key: Option<Key>, checksum: Option<string>, deleted: bool)

  datatype Version = Version(file: Id, key: Key, size: nat)

  /** One item as a snapshot saw it. */
  datatype Entry = Entry(parent: Option<Id>, kind: Kind, name: string, size: nat,
                         key: Option<Key>, checksum: Option<string>)

  datatype Trigger = Scheduled | Manual | Assistant | PreRestore

  datatype Snapshot = Snapshot(id: Id, trigger: Trigger, pinned: bool, entries: map<Id, Entry>)

  datatype Blob = Blob(size: nat, modified: nat)

  /** All rows of the user and the blob store. Snapshots are listed newest first. `kinds` and
      `owners` remember every item id and storage key ever issued: a UUID never repeats. */
  datatype Db = Db(items: map<Id, Item>, versions: map<Id, Version>, snapshots: seq<Snapshot>,
                   blobs: map<Key, Blob>, used: nat, quota: int,
                   retention: int, snapshotQuota: Option<nat>,
                   kinds: map<Id, Kind>, owners: map<Key, Id>)

  datatype Error = NotFound | InvalidOperation | NameConflict | QuotaExceeded

  datatype Result = Done(db: Db) | Failed(error: Error)

  // ----- views -----

  function ItemParents(items: map<Id, Item>): Parents {
    map x | x in items :: items[x].parent
  }

  function EntryParents(entries: map<Id, Entry>): Parents {
    map x | x in entries :: entries[x].parent
  }

  function SizesOf(versions: map<Id, Version>): map<Id, nat> {
    map v | v in versions :: versions[v].size
  }

  /** Storage keys that some row still names. */
  function References(db: Db): set<Key> {
    ItemKeys(db.items) + VersionKeys(db.versions) + SnapshotKeys(db.snapshots)
  }

  function ItemKeys(items: map<Id, Item>): set<Key> {
    set x | x in items && items[x].key.Some? :: items[x].key.value
  }

  function VersionKeys(versions: map<Id, Version>): set<Key> {
    set v | v in versions :: versions[v].key
  }

  function EntryKeys(entries: map<Id, Entry>): set<Key> {
    set x | x in entries && entries[x].key.Some? :: entries[x].key.value
  }

  function SnapshotKeys(snapshots: seq<Snapshot>): set<Key> {
    set i, k | 0 <= i < |snapshots| && k in EntryKeys(snapshots[i].entries) :: k
  }

  // ----- the invariant -----

  /** Files have stored content that was written for them, folders have none. */
  ghost predicate ContentOk(db: Db, x: Id, kind: Kind, size: nat, key: Option<Key>, checksum: Option<string>) {
    match kind
    case Folder => key.None? && checksum.None? && size == 0
    case File =>
      && key.Some? && checksum.Some?
      && key.value in db.owners && db.owners[key.value] == x
      && key.value in db.blobs && db.blobs[key.value].size == size
  }

  ghost predicate RowOk(db: Db, x: Id, parent: Option<Id>, kind: Kind, size: nat, key: Option<Key>,
                        checksum: Option<string>) {
    && x in db.kinds && db.kinds[x] == kind
    && (parent.Some? ==> parent.value in db.kinds && db.kinds[parent.value].Folder?)
    && ContentOk(db, x, kind, size, key, checksum)
  }

  ghost predicate ItemOk(db: Db, x: Id, i: Item) {
    RowOk(db, x, i.parent, i.kind, i.size, i.key, i.checksum)
  }

  ghost predicate EntryOk(db: Db, x: Id, e: Entry) {
    RowOk(db, x, e.parent, e.kind, e.size, e.key, e.checksum)
  }

  ghost predicate VersionOk(db: Db, v: Version) {
    && v.file in db.items && db.items[v.file].kind.File?
    && v.key in db.owners && db.owners[v.key] == v.file
    && v.key in db.blobs && db.blobs[v.key].size == v.size
  }

  ghost predicate SnapshotOk(db: Db, s: Snapshot) {
    && IsForest(EntryParents(s.entries))
    && forall x :: x in s.entries ==> EntryOk(db, x, s.entries[x])
  }

  ghost predicate ItemsOk(db: Db) {
    && IsForest(ItemParents(db.items))
    && forall x :: x in db.items ==> ItemOk(db, x, db.items[x])
  }

  ghost predicate VersionsOk(db: Db) {
    forall v :: v in db.versions ==> VersionOk(db, db.versions[v])
  }

  ghost predicate SnapshotsOk(db: Db) {
    && (forall i :: 0 <= i < |db.snapshots| ==> SnapshotOk(db, db.snapshots[i]))
    && forall i, j :: 0 <= i < j < |db.snapshots| ==> db.snapshots[i].id != db.snapshots[j].id
  }

  /** Everything every operation keeps: parents form a forest and respect the foreign keys,
      every storage key a row names has its blob, and `used` is the size of the versions. */
  ghost predicate Inv(db: Db) {
    ItemsOk(db) && VersionsOk(db) && SnapshotsOk(db) && db.used == Sum(SizesOf(db.versions))
  }

  /** No row's storage key has lost its blob. */
  lemma InvHasBlobs(db: Db)
    requires Inv(db)
    ensures References(db) <= db.blobs.Keys
  {
    forall k | k in References(db)
      ensures k in db.blobs
    {
      if x :| x in db.items && db.items[x].key == Some(k) {
        assert ItemOk(db, x, db.items[x]);
      } else if v :| v in db.versions && db.versions[v].key == k {
        assert VersionOk(db, db.versions[v]);
      } else {
        var i :| 0 <= i < |db.snapshots| && k in EntryKeys(db.snapshots[i].entries);
        var x :| x in db.snapshots[i].entries && db.snapshots[i].entries[x].key == Some(k);
        assert SnapshotOk(db, db.snapshots[i]);
        assert EntryOk(db, x, db.snapshots[i].entries[x]);
      }
    }
  }

  // ----- changes that keep the invariant -----

  /** `t` knows all ids and keys of `s`, and has the blobs of `s` except for `dropped`. */
  ghost predicate Widens(s: Db, t: Db, dropped: set<Key>) {
    && (forall x :: x in s.kinds ==> x in t.kinds && t.kinds[x] == s.kinds[x])
    && (forall k :: k in s.owners ==> k in t.owners && t.owners[k] == s.owners[k])
    && (forall k :: k in s.blobs && k !in dropped ==> k in t.blobs && t.blobs[k].size == s.blobs[k].size)
  }

  lemma SameWidens(s: Db, t: Db)
    requires t.kinds == s.kinds && t.owners == s.owners && t.blobs == s.blobs
    ensures Widens(s, t, {})
  {
  }

  lemma ContentWidens(s: Db, t: Db, dropped: set<Key>, x: Id, kind: Kind, size: nat, key: Option<Key>,
                      checksum: Option<string>)
    requires ContentOk(s, x, kind, size, key, checksum) && Widens(s, t, dropped)
    requires key.Some? ==> key.value !in dropped
    ensures ContentOk(t, x, kind, size, key, checksum)
  {
  }

  lemma RowWidens(s: Db, t: Db, dropped: set<Key>, x: Id, parent: Option<Id>, kind: Kind, size: nat,
                  key: Option<Key>, checksum: Option<string>)
    requires RowOk(s, x, parent, kind, size, key, checksum) && Widens(s, t, dropped)
    requires key.Some? ==> key.value !in dropped
    ensures RowOk(t, x, parent, kind, size, key, checksum)
  {
  }

  lemma SnapshotWidens(s: Db, t: Db, dropped: set<Key>, snap: Snapshot)
    requires SnapshotOk(s, snap) && Widens(s, t, dropped) && EntryKeys(snap.entries) !! dropped
    ensures SnapshotOk(t, snap)
  {
    hide RowOk, Widens, IsForest;
    forall x | x in snap.entries
      ensures EntryOk(t, x, snap.entries[x])
    {
      var e := snap.entries[x];
      assert EntryOk(s, x, e);
      assert e.key.Some? ==> e.key.value in EntryKeys(snap.entries);
      RowWidens(s, t, dropped, x, e.parent, e.kind, e.size, e.key, e.checksum);
    }
  }

  lemma SnapshotsWiden(s: Db, t: Db, dropped: set<Key>)
    requires SnapshotsOk(s) && Widens(s, t, dropped)
    requires t.snapshots == s.snapshots && SnapshotKeys(s.snapshots) !! dropped
    ensures SnapshotsOk(t)
  {
    hide SnapshotOk, Widens;
    forall i | 0 <= i < |t.snapshots|
      ensures SnapshotOk(t, t.snapshots[i])
    {
      assert EntryKeys(s.snapshots[i].entries) <= SnapshotKeys(s.snapshots);
      SnapshotWidens(s, t, dropped, s.snapshots[i]);
    }
  }

  /** Item rows that are unchanged stay fine. */
  lemma ItemWidens(s: Db, t: Db, dropped: set<Key>, x: Id, i: Item)
    requires ItemOk(s, x, i) && Widens(s, t, dropped)
    requires i.key.Some? ==> i.key.value !in dropped
    ensures ItemOk(t, x, i)
  {
    RowWidens(s, t, dropped, x, i.parent, i.kind, i.size, i.key, i.checksum);
  }

  // ----- drive operations -----

  /** `name_exists_in_parent`: names of live items in one place, `exclude` left out. */
  function NamesIn(items: map<Id, Item>, parent: Option<Id>, exclude: Option<Id>): set<string> {
    set x | x in items && !items[x].deleted && items[x].parent == parent && exclude != Some(x) :: items[x].name
  }

  predicate IsLive(items: map<Id, Item>, x: Id) {
    x in items && !items[x].deleted
  }

  /** The place an item is put in: the root or a live folder. */
  function PlaceError(items: map<Id, Item>, parent: Option<Id>): Option<Error> {
    if parent.None? then None
    else if !IsLive(items, parent.value) then Some(NotFound)
    else if items[parent.value].kind != Folder then Some(InvalidOperation)
    else None
  }

  /** The root or an existing folder, live or trashed. */
  predicate IsFolderPlace(items: map<Id, Item>, parent: Option<Id>) {
    parent.Some? ==> parent.value in items && items[parent.value].kind.Folder?
  }

  function CreateFolder(db: Db, id: Id, parent: Option<Id>, rawName: string): Result {
    match (ValidName(rawName), PlaceError(db.items, parent))
    case (None, _) => Failed(InvalidOperation)
    case (_, Some(error)) => Failed(error)
    case (Some(name), None) =>
      if name in NamesIn(db.items, parent, None) then Failed(NameConflict)
      else Done(db.(items := db.items[id := Item(parent, Folder, name, 0, None, None, false)],
                    kinds := db.kinds[id := Folder]))
  }

  function Rename(db: Db, id: Id, rawName: string): Result {
    match ValidName(rawName)
    case None => Failed(InvalidOperation)
    case Some(name) =>
      if !IsLive(db.items, id) then Failed(NotFound)
      else if db.items[id].name == name then Done(db)
      else if name in NamesIn(db.items, db.items[id].parent, Some(id)) then Failed(NameConflict)
      else Done(db.(items := db.items[id := db.items[id].(name := name)]))
  }

  ghost function Move(db: Db, id: Id, parent: Option<Id>): Result {
    if !IsLive(db.items, id) then Failed(NotFound)
    else match PlaceError(db.items, parent)
         case Some(error) => Failed(error)
         case None =>
           if parent.Some? && db.items[id].kind.Folder? && Below(ItemParents(db.items), id, parent.value)
           then Failed(InvalidOperation)
           else if db.items[id].name in NamesIn(db.items, parent, Some(id)) then Failed(NameConflict)
           else Done(db.(items := db.items[id := db.items[id].(parent := parent)]))
  }

  /** The blob of an upload is in the store before any row names it. */
  function WriteBlob(db: Db, file: Id, key: Key, size: nat, now: nat): Db {
    db.(blobs := db.blobs[key := Blob(size, now)], owners := db.owners[key := file])
  }

  /** The item and version rows of an uploaded file. */
  function CommitUpload(db: Db, file: Id, version: Id, parent: Option<Id>, name: string, key: Key,
                        checksum: string): Db
    requires key in db.blobs
  {
    var size := db.blobs[key].size;
    db.(items := db.items[file := Item(parent, File, name, size, Some(key), Some(checksum), false)],
        versions := db.versions[version := Version(file, key, size)],
        used := db.used + size,
        kinds := db.kinds[file := File])
  }

  /** `upload_simple` as one step; `declared` is what the quota is checked against. */
  ghost function Upload(db: Db, file: Id, version: Id, parent: Option<Id>, rawName: string, declared: nat,
                        key: Key, size: nat, checksum: string, now: nat): Result {
    match (ValidName(rawName), PlaceError(db.items, parent))
    case (None, _) => Failed(InvalidOperation)
    case (_, Some(error)) => Failed(error)
    case (Some(name), None) =>
      if db.quota - db.used < declared then Failed(QuotaExceeded)
      else
        var (stem, ext) := SplitName(name);
        var free := FreeName(NamesIn(db.items, parent, None), name, stem, ext);
        Done(CommitUpload(WriteBlob(db, file, key, size, now), file, version, parent, free, key, checksum))
  }

  function TrashItem(db: Db, id: Id): Result {
    if id !in db.items then Failed(NotFound)
    else if db.items[id].deleted then Failed(InvalidOperation)
    else Done(db.(items := db.items[id := db.items[id].(deleted := true)]))
  }

  /** Where a trashed item comes back to: its folder if that is live, else the root. */
  function RestorePlace(items: map<Id, Item>, id: Id): Option<Id>
    requires id in items
  {
    var parent := items[id].parent;
    if parent.Some? && !IsLive(items, parent.value) then None else parent
  }

  ghost function RestoreItem(db: Db, id: Id): Result {
    if id !in db.items then Failed(NotFound)
    else if !db.items[id].deleted then Failed(InvalidOperation)
    else
      var place := RestorePlace(db.items, id);
      var (stem, ext) := SplitName(db.items[id].name);
      var name := FreeName(NamesIn(db.items, place, None), db.items[id].name, stem, ext);
      Done(db.(items := db.items[id := db.items[id].(deleted := false, parent := place, name := name)]))
  }

  // ----- the operations keep the invariant -----

  /** Changing one existing row in name, trash mark or place. */
  lemma ItemChanged(db: Db, id: Id, i: Item)
    requires Inv(db) && id in db.items
    requires i.kind == db.items[id].kind && i.size == db.items[id].size
    requires i.key == db.items[id].key && i.checksum == db.items[id].checksum
    requires IsForest(ItemParents(db.items)[id := i.parent])
    requires i.parent.Some? ==> i.parent.value in db.kinds && db.kinds[i.parent.value].Folder?
    ensures Inv(db.(items := db.items[id := i]))
  {
    var t := db.(items := db.items[id := i]);
    SameWidens(db, t);
    ItemsChanged(db, t, id, i);
    hide ItemsOk, SnapshotsOk, VersionOk, Widens, Sum;
    VersionsWiden(db, t, {});
    SnapshotsWiden(db, t, {});
  }

  lemma ItemsChanged(db: Db, t: Db, id: Id, i: Item)
    requires ItemsOk(db) && id in db.items && t.items == db.items[id := i] && Widens(db, t, {})
    requires i.kind == db.items[id].kind && i.size == db.items[id].size
    requires i.key == db.items[id].key && i.checksum == db.items[id].checksum
    requires IsForest(ItemParents(db.items)[id := i.parent])
    requires i.parent.Some? ==> i.parent.value in db.kinds && db.kinds[i.parent.value].Folder?
    ensures ItemsOk(t)
  {
    assert ItemParents(t.items) == ItemParents(db.items)[id := i.parent];
    assert i.parent.Some? ==> i.parent.value in t.kinds && t.kinds[i.parent.value].Folder?;
    hide IsForest, Widens;
    forall x | x in t.items
      ensures ItemOk(t, x, t.items[x])
    {
      assert ItemOk(db, x, db.items[x]);
      hide ItemOk;
      ChangedRow(db, t, x, db.items[x], t.items[x]);
    }
  }

  /** A row with the same content in a known place. */
  lemma ChangedRow(s: Db, t: Db, x: Id, was: Item, i: Item)
    requires ItemOk(s, x, was) && Widens(s, t, {})
    requires i.kind == was.kind && i.size == was.size && i.key == was.key && i.checksum == was.checksum
    requires i.parent == was.parent ||
             (i.parent.Some? ==> i.parent.value in t.kinds && t.kinds[i.parent.value].Folder?)
    ensures ItemOk(t, x, i)
  {
    hide ContentOk;
    ContentWidens(s, t, {}, x, was.kind, was.size, was.key, was.checksum);
  }

  /** Version rows stay fine while their files keep their kind and their blobs stay. */
  lemma VersionsWiden(s: Db, t: Db, dropped: set<Key>)
    requires VersionsOk(s) && Widens(s, t, dropped) && VersionKeys(s.versions) !! dropped
    requires forall x :: x in s.items ==> x in t.items && t.items[x].kind == s.items[x].kind
    ensures forall v :: v in s.versions ==> VersionOk(t, s.versions[v])
    ensures t.versions == s.versions ==> VersionsOk(t)
  {
    forall v | v in s.versions
      ensures VersionOk(t, s.versions[v])
    {
      assert VersionOk(s, s.versions[v]);
      assert s.versions[v].key in VersionKeys(s.versions);
    }
  }

  lemma SamePlace(items: map<Id, Item>, id: Id)
    requires id in items
    ensures ItemParents(items)[id := items[id].parent] == ItemParents(items)
  {
  }

  /** Setting a field other than the place. */
  lemma ItemRelabelled(db: Db, id: Id, i: Item)
    requires Inv(db) && id in db.items && i.parent == db.items[id].parent
    requires i.kind == db.items[id].kind && i.size == db.items[id].size
    requires i.key == db.items[id].key && i.checksum == db.items[id].checksum
    ensures Inv(db.(items := db.items[id := i]))
  {
    SamePlace(db.items, id);
    assert ItemOk(db, id, db.items[id]);
    ItemChanged(db, id, i);
  }

  lemma CreateFolderInv(db: Db, id: Id, parent: Option<Id>, rawName: string)
    requires Inv(db) && id !in db.kinds
    ensures CreateFolder(db, id, parent, rawName).Done? ==> Inv(CreateFolder(db, id, parent, rawName).db)
  {
    if CreateFolder(db, id, parent, rawName).Done? {
      var t := CreateFolder(db, id, parent, rawName).db;
      InsertedRow(db, t, id);
      SnapshotsWiden(db, t, {});
    }
  }

  /** A new item row in a valid place. */
  lemma InsertedRow(db: Db, t: Db, id: Id)
    requires ItemsOk(db) && VersionsOk(db) && id !in db.kinds && Widens(db, t, {})
    requires id in t.items && t.items == db.items[id := t.items[id]]
    requires IsFolderPlace(db.items, t.items[id].parent)
    requires id in t.kinds && t.kinds[id] == t.items[id].kind
    requires ContentOk(t, id, t.items[id].kind, t.items[id].size, t.items[id].key, t.items[id].checksum)
    ensures ItemsOk(t)
    ensures forall v :: v in db.versions ==> VersionOk(t, db.versions[v])
  {
    InsertedItems(db, t, id);
    hide ItemsOk, VersionOk, Widens;
    VersionsWiden(db, t, {});
  }

  lemma InsertedItems(db: Db, t: Db, id: Id)
    requires ItemsOk(db) && id !in db.kinds && Widens(db, t, {})
    requires id in t.items && t.items == db.items[id := t.items[id]]
    requires IsFolderPlace(db.items, t.items[id].parent)
    requires id in t.kinds && t.kinds[id] == t.items[id].kind
    requires ContentOk(t, id, t.items[id].kind, t.items[id].size, t.items[id].key, t.items[id].checksum)
    ensures ItemsOk(t) && id !in db.items
  {
    var parent := t.items[id].parent;
    assert ItemOk(t, id, t.items[id]) by {
      if parent.Some? {
        assert ItemOk(db, parent.value, db.items[parent.value]);
      }
    }
    forall x | x in db.items
      ensures x != id && ItemOk(t, x, db.items[x])
    {
      assert ItemOk(db, x, db.items[x]);
      hide ContentOk, Widens;
      ItemWidens(db, t, {}, x, db.items[x]);
    }
    hide ItemOk, ContentOk, Widens;
    ForestInsert(ItemParents(db.items), id, parent);
    assert ItemParents(t.items) == ItemParents(db.items)[id := parent];
  }

  lemma RenameInv(db: Db, id: Id, rawName: string)
    requires Inv(db)
    ensures Rename(db, id, rawName).Done? ==> Inv(Rename(db, id, rawName).db)
  {
    if ValidName(rawName).Some? && IsLive(db.items, id) {
      ItemRelabelled(db, id, db.items[id].(name := ValidName(rawName).value));
    }
  }

  lemma MoveInv(db: Db, id: Id, parent: Option<Id>)
    requires Inv(db)
    ensures Move(db, id, parent).Done? ==> Inv(Move(db, id, parent).db)
  {
    if Move(db, id, parent).Done? {
      var p := ItemParents(db.items);
      if parent.Some? {
        assert ItemOk(db, parent.value, db.items[parent.value]);
        if db.items[id].kind.File? && Below(p, id, parent.value) {
          FileHasNothingBelow(db, id, parent.value);
        }
      }
      ForestMove(p, id, parent);
      ItemChanged(db, id, db.items[id].(parent := parent));
    }
  }

  /** Only folders have children, so nothing but itself is below a file. */
  lemma FileHasNothingBelow(db: Db, file: Id, x: Id)
    requires ItemsOk(db) && file in db.items && db.items[file].kind.File?
    requires Below(ItemParents(db.items), file, x)
    ensures x == file
  {
    var p := ItemParents(db.items);
    assert ItemOk(db, file, db.items[file]);
    forall y | y in p
      ensures p[y] != Some(file)
    {
      assert ItemOk(db, y, db.items[y]);
    }
    NothingBelowLeaf(p, file, x);
  }

  lemma TrashItemInv(db: Db, id: Id)
    requires Inv(db)
    ensures TrashItem(db, id).Done? ==> Inv(TrashItem(db, id).db)
  {
    if id in db.items {
      ItemRelabelled(db, id, db.items[id].(deleted := true));
    }
  }

  lemma RestoreItemInv(db: Db, id: Id)
    requires Inv(db)
    ensures RestoreItem(db, id).Done? ==> Inv(RestoreItem(db, id).db)
  {
    if RestoreItem(db, id).Done? {
      var p := ItemParents(db.items);
      var i := RestoreItem(db, id).db.items[id];
      assert ItemOk(db, id, db.items[id]);
      if i.parent == db.items[id].parent {
        ItemRelabelled(db, id, i);
      } else {
        ForestMove(p, id, None);
        ItemChanged(db, id, i);
      }
    }
  }

  /** Rows for a blob that is in the store and was issued for this file. */
  lemma CommitUploadInv(db: Db, file: Id, version: Id, parent: Option<Id>, name: string, key: Key, checksum: string)
    requires Inv(db) && file !in db.kinds && version !in db.versions
    requires IsFolderPlace(db.items, parent)
    requires key in db.blobs && key in db.owners && db.owners[key] == file
    ensures Inv(CommitUpload(db, file, version, parent, name, key, checksum))
  {
    hide IsForest, SnapshotsOk, ItemsOk, Sum, RowOk, VersionOk;
    var t := CommitUpload(db, file, version, parent, name, key, checksum);
    CommitWidens(db, file, version, parent, name, key, checksum);
    InsertedRow(db, t, file);
    SnapshotsWiden(db, t, {});
    VersionAdded(db, t, version, db.blobs[key].size);
  }

  lemma CommitWidens(db: Db, file: Id, version: Id, parent: Option<Id>, name: string, key: Key, checksum: string)
    requires file !in db.kinds && key in db.blobs && key in db.owners && db.owners[key] == file
    ensures var t := CommitUpload(db, file, version, parent, name, key, checksum);
            && Widens(db, t, {})
            && ContentOk(t, file, File, db.blobs[key].size, Some(key), Some(checksum))
            && VersionOk(t, t.versions[version])
  {
  }

  lemma VersionAdded(db: Db, t: Db, version: Id, size: nat)
    requires version !in db.versions && version in t.versions && t.versions[version].size == size
    requires t.versions == db.versions[version := t.versions[version]]
    requires db.used == Sum(SizesOf(db.versions)) && t.used == db.used + size
    requires forall v :: v in db.versions ==> VersionOk(t, db.versions[v])
    requires VersionOk(t, t.versions[version])
    ensures VersionsOk(t) && t.used == Sum(SizesOf(t.versions))
  {
    hide Sum, VersionOk;
    SumPut(SizesOf(db.versions), version, size);
    assert SizesOf(t.versions) == SizesOf(db.versions)[version := size];
  }

  lemma WriteBlobInv(db: Db, file: Id, key: Key, size: nat, now: nat)
    requires Inv(db) && key !in db.owners && key !in db.blobs
    ensures Inv(WriteBlob(db, file, key, size, now))
  {
    var t := WriteBlob(db, file, key, size, now);
    assert Widens(db, t, {});
    hide IsForest, Widens, SnapshotsOk, Sum;
    forall x | x in t.items
      ensures ItemOk(t, x, t.items[x])
    {
      assert ItemOk(db, x, db.items[x]);
      ItemWidens(db, t, {}, x, db.items[x]);
    }
    hide RowOk, VersionOk;
    VersionsWiden(db, t, {});
    SnapshotsWiden(db, t, {});
  }
}
