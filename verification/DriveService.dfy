/** Creating, renaming, moving and uploading, as the services do it row by row. */
module DriveService {
  import opened Text
  import opened Sets
  import opened Forest
  import opened Names
  import opened Drive
  import opened Store

  /** The tables after a call: a failed call leaves them as they were. */
  function After(db: Db, r: Result): Db {
    if r.Done? then r.db else db
  }

  function ErrorOf(r: Result): Option<Error> {
    if r.Done? then None else Some(r.error)
  }

  /** `_is_descendant_or_self`: walks up from `target`. It terminates on any pointers, cyclic
      ones included, and decides exactly whether `target` is `candidate` or below it. */
  method IsDescendantOrSelf(items: map<Id, Item>, candidate: Id, target: Id) returns (below: bool)
    ensures below <==> Below(ItemParents(items), candidate, target)
  {
    ghost var p := ItemParents(items);
    var current: Option<Id> := Some(target);
    var seen: set<Id> := {};
    ghost var n: nat := 0;
    while current.Some?
      invariant candidate !in seen && seen <= items.Keys
      invariant target in seen || current == Some(target)
      invariant forall y :: y in seen && p[y].Some? ==> p[y].value in seen || current == p[y]
      invariant current.Some? ==> Ancestor(p, target, n) == current
      decreases items.Keys - seen, if current.Some? then 1 else 0
    {
      if current.value == candidate {
        return true;
      }
      if current.value in seen || current.value !in items {
        break;
      }
      seen := seen + {current.value};
      AncestorStep(p, target, n);
      n := n + 1;
      current := items[current.value].parent;
    }
    ghost var up := if current.Some? then seen + {current.value} else seen;
    if m: nat :| Ancestor(p, target, m) == Some(candidate) {
      ClosedUpwards(p, up, target, m);
    }
    below := false;
  }

  method CreateFolder(store: Store, id: Id, parent: Option<Id>, rawName: string) returns (error: Option<Error>)
    requires id !in store.kinds
    modifies store
    ensures store.Now() == After(old(store.Now()), Drive.CreateFolder(old(store.Now()), id, parent, rawName))
    ensures error == ErrorOf(Drive.CreateFolder(old(store.Now()), id, parent, rawName))
  {
    var name := ValidName(rawName);
    if name.None? {
      return Some(InvalidOperation);
    }
    var place := PlaceError(store.items, parent);
    if place.Some? {
      return place;
    }
    if name.value in NamesIn(store.items, parent, None) {
      return Some(NameConflict);
    }
    store.PutItem(id, Item(parent, Folder, name.value, 0, None, None, false));
    store.kinds := store.kinds[id := Folder];
    error := None;
  }

  method Rename(store: Store, id: Id, rawName: string) returns (error: Option<Error>)
    modifies store
    ensures store.Now() == After(old(store.Now()), Drive.Rename(old(store.Now()), id, rawName))
    ensures error == ErrorOf(Drive.Rename(old(store.Now()), id, rawName))
  {
    var name := ValidName(rawName);
    if name.None? {
      return Some(InvalidOperation);
    }
    if !IsLive(store.items, id) {
      return Some(NotFound);
    }
    var item := store.items[id];
    if item.name == name.value {
      return None;
    }
    if name.value in NamesIn(store.items, item.parent, Some(id)) {
      return Some(NameConflict);
    }
    store.items := store.items[id := item.(name := name.value)];
    error := None;
  }

  method Move(store: Store, id: Id, parent: Option<Id>) returns (error: Option<Error>)
    modifies store
    ensures store.Now() == After(old(store.Now()), Drive.Move(old(store.Now()), id, parent))
    ensures error == ErrorOf(Drive.Move(old(store.Now()), id, parent))
  {
    if !IsLive(store.items, id) {
      return Some(NotFound);
    }
    var item := store.items[id];
    var place := PlaceError(store.items, parent);
    if place.Some? {
      return place;
    }
    if parent.Some? && item.kind.Folder? {
      var below := IsDescendantOrSelf(store.items, id, parent.value);
      if below {
        return Some(InvalidOperation);
      }
    }
    if item.name in NamesIn(store.items, parent, Some(id)) {
      return Some(NameConflict);
    }
    store.PutItem(id, item.(parent := parent));
    error := None;
  }

  /** `upload_simple`: the blob is written before the rows that name it, and removed again when
      writing them fails with `failure`. */
  method UploadSimple(store: Store, file: Id, version: Id, parent: Option<Id>, rawName: string, declared: nat,
                      key: Key, size: nat, checksum: string, now: nat, failure: Option<Error>)
    returns (error: Option<Error>)
    requires file !in store.kinds && key !in store.owners && key !in store.blobs && version !in store.versions
    modifies store
    ensures var db := old(store.Now());
            var spec := Upload(db, file, version, parent, rawName, declared, key, size, checksum, now);
            if spec.Done? && failure.Some? then store.Now() == db.(owners := db.owners[key := file]) && error == failure
            else store.Now() == After(db, spec) && error == ErrorOf(spec)
  {
    var name := ValidName(rawName);
    if name.None? {
      return Some(InvalidOperation);
    }
    var place := PlaceError(store.items, parent);
    if place.Some? {
      return place;
    }
    if store.quota - store.used < declared {
      return Some(QuotaExceeded);
    }
    var (stem, ext) := SplitName(name.value);
    var finalName := ResolveConflict(NamesIn(store.items, parent, None), name.value, stem, ext);
    SaveBlob(store, file, key, size, now);
    if failure.Some? {
      store.blobs := store.blobs - {key};
      assert store.blobs == old(store.blobs);
      return failure;
    }
    CreateFileRows(store, file, version, parent, finalName, key, checksum);
    error := None;
  }

  method SaveBlob(store: Store, file: Id, key: Key, size: nat, now: nat)
    modifies store
    ensures store.Now() == WriteBlob(old(store.Now()), file, key, size, now)
  {
    store.blobs := store.blobs[key := Blob(size, now)];
    store.owners := store.owners[key := file];
  }

  method CreateFileRows(store: Store, file: Id, version: Id, parent: Option<Id>, name: string, key: Key,
                        checksum: string)
    requires key in store.blobs
    requires parent.Some? ==> parent.value in store.items
    modifies store
    ensures store.Now() == CommitUpload(old(store.Now()), file, version, parent, name, key, checksum)
  {
    var size := store.blobs[key].size;
    store.PutItem(file, Item(parent, File, name, size, Some(key), Some(checksum), false));
    store.versions := store.versions[version := Version(file, key, size)];
    store.AddUsedBytes(size);
    store.kinds := store.kinds[file := File];
  }
}
