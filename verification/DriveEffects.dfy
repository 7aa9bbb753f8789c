/** What each drive and trash call does to the rows, and when it fails. */
module DriveEffects {
  import opened Text
  import opened Sums
  import opened Forest
  import opened Names
  import opened Drive
  import opened Trash

  // ----- names -----

  predicate Blank(s: string) {
    forall i :: 0 <= i < |s| ==> IsSpace(s[i])
  }

  lemma {:induction false} LeftStripped(s: string) returns (n: nat)
    ensures n <= |s| && Blank(s[..n]) && s[n..] == StripLeft(s)
    ensures StripLeft(s) != "" ==> !IsSpace(StripLeft(s)[0])
  {
    n := 0;
    if s != [] && IsSpace(s[0]) {
      n := LeftStripped(s[1..]);
      n := n + 1;
      assert s[..n] == [s[0]] + s[1..][..n - 1] && s[n..] == s[1..][n - 1..];
    }
  }

  lemma {:induction false} RightStripped(s: string) returns (n: nat)
    ensures n <= |s| && Blank(s[n..]) && s[..n] == StripRight(s)
    ensures StripRight(s) != "" ==> !IsSpace(StripRight(s)[|StripRight(s)| - 1])
  {
    n := |s|;
    if s != [] && IsSpace(s[|s| - 1]) {
      var init := s[..|s| - 1];
      n := RightStripped(init);
      assert s[n..] == init[n..] + [s[|s| - 1]] && s[..n] == init[..n];
    }
  }

  /** Trimming removes white space from both ends, and all of it. */
  lemma StripIs(s: string) returns (before: string, after: string)
    ensures s == before + Strip(s) + after && Blank(before) && Blank(after)
    ensures Strip(s) != "" ==> !IsSpace(Strip(s)[0]) && !IsSpace(Strip(s)[|Strip(s)| - 1])
  {
    hide Blank, IsSpace, StripLeft, StripRight;
    var m := LeftStripped(s);
    var t := StripLeft(s);
    var n := RightStripped(t);
    before, after := s[..m], t[n..];
    assert s == s[..m] + t && t == t[..n] + t[n..];
    assert n > 0 ==> t[..n][0] == t[0];
  }

  /** A name is good when its trimmed form is not empty, has at most 512 characters and no
      separator or NUL; the trimmed form is what is stored. */
  predicate GoodName(name: string) {
    && 0 < |name| <= 512
    && forall i :: 0 <= i < |name| ==> name[i] != '/' && name[i] != '\\' && name[i] != '\0'
  }

  lemma NameIs(raw: string)
    ensures ValidName(raw) == if GoodName(Strip(raw)) then Some(Strip(raw)) else None
  {
    hide Strip;
    var name := Strip(raw);
    assert '/' in name ==> exists i :: 0 <= i < |name| && name[i] == '/';
  }

  /** The extension starts at the last dot that is not the first character. */
  lemma ExtensionIs(name: string)
    ensures var (stem, ext) := SplitName(name);
            && stem + ext == name
            && (ext == "" <==> name == "" || '.' !in name[1..])
            && (ext != "" ==> stem != "" && ext[0] == '.' && '.' !in ext[1..])
  {
    var i := LastIndexOf(name, '.');
    if i > 0 {
      assert name[1..][i - 1] == '.';
    }
    if i == 0 {
      assert name[1..] == name[i + 1..];
    }
    if i < 0 && name != "" {
      assert forall j :: 1 <= j < |name| ==> name[j] in name;
    }
  }

  /** The conflict counter, in brackets between stem and extension. */
  lemma CounterIs(stem: string, ext: string, n: nat)
    ensures Names.Numbered(stem, ext, n) == stem + " (" + Numeral(n) + ")" + ext
    ensures ParseInt(Numeral(n)) == Some(n as int)
  {
    ParseNumeral(n);
  }

  // ----- places -----

  /** Why nothing can be put there: no such live item, or no folder. */
  function PlaceFault(items: map<Id, Item>, place: Option<Id>): Option<Error> {
    match place
    case None => None
    case Some(p) =>
      if p !in items || items[p].deleted then Some(NotFound)
      else if items[p].kind == File then Some(InvalidOperation)
      else None
  }

  /** A live item other than `except` has the name there. */
  predicate Taken(items: map<Id, Item>, place: Option<Id>, name: string, except: Option<Id>) {
    exists x :: x in items && !items[x].deleted && items[x].parent == place && Some(x) != except &&
                items[x].name == name
  }

  lemma TakenIs(items: map<Id, Item>, place: Option<Id>, except: Option<Id>)
    ensures forall name :: name in NamesIn(items, place, except) <==> Taken(items, place, name, except)
  {
  }

  // ----- creating, renaming, moving -----

  /** Creating a folder: the name must be good, the place a live folder or the root, and the name
      not taken there. It adds one folder and nothing else. */
  lemma CreateFolderIs(db: Db, id: Id, place: Option<Id>, raw: string)
    ensures CreateFolder(db, id, place, raw) ==
            if !GoodName(Strip(raw)) then Failed(InvalidOperation)
            else if PlaceFault(db.items, place).Some? then Failed(PlaceFault(db.items, place).value)
            else if Taken(db.items, place, Strip(raw), None) then Failed(NameConflict)
            else Done(db.(items := db.items[id := Item(place, Folder, Strip(raw), 0, None, None, false)],
                          kinds := db.kinds[id := Folder]))
  {
    NameIs(raw);
    TakenIs(db.items, place, None);
    hide ValidName, Strip, NamesIn;
  }

  /** Renaming changes the name of one live item and nothing else; to its own name it always
      succeeds. */
  lemma RenameIs(db: Db, id: Id, raw: string)
    ensures Rename(db, id, raw) ==
            if !GoodName(Strip(raw)) then Failed(InvalidOperation)
            else if id !in db.items || db.items[id].deleted then Failed(NotFound)
            else if db.items[id].name != Strip(raw) && Taken(db.items, db.items[id].parent, Strip(raw), Some(id))
            then Failed(NameConflict)
            else Done(db.(items := db.items[id := db.items[id].(name := Strip(raw))]))
  {
    NameIs(raw);
    if id in db.items {
      TakenIs(db.items, db.items[id].parent, Some(id));
      assert db.items[id].name == Strip(raw) ==> db.items[id := db.items[id].(name := Strip(raw))] == db.items;
    }
    hide ValidName, Strip, NamesIn;
  }

  /** Moving puts one live item in the place asked for and changes nothing else; a folder cannot go
      into itself or below. */
  lemma MoveIs(db: Db, id: Id, place: Option<Id>)
    ensures Move(db, id, place) ==
            if id !in db.items || db.items[id].deleted then Failed(NotFound)
            else if PlaceFault(db.items, place).Some? then Failed(PlaceFault(db.items, place).value)
            else if db.items[id].kind == Folder && place.Some? && Below(ItemParents(db.items), id, place.value)
            then Failed(InvalidOperation)
            else if Taken(db.items, place, db.items[id].name, Some(id)) then Failed(NameConflict)
            else Done(db.(items := db.items[id := db.items[id].(parent := place)]))
  {
    TakenIs(db.items, place, Some(id));
    hide NamesIn, Below;
  }

  /** The name a file or a restored item gets: its own if free, else with the least free counter. */
  ghost predicate SettlesOn(items: map<Id, Item>, place: Option<Id>, wanted: string, name: string) {
    var (stem, ext) := SplitName(wanted);
    if !Taken(items, place, wanted, None) then name == wanted
    else exists n: nat :: n >= 1 && name == Names.Numbered(stem, ext, n) && !Taken(items, place, name, None) &&
           forall m: nat :: 1 <= m < n ==> Taken(items, place, Names.Numbered(stem, ext, m), None)
  }

  lemma FreeNameIs(items: map<Id, Item>, place: Option<Id>, wanted: string)
    ensures SettlesOn(items, place, wanted,
                      FreeName(NamesIn(items, place, None), wanted, SplitName(wanted).0, SplitName(wanted).1))
  {
    var (stem, ext) := SplitName(wanted);
    var taken := NamesIn(items, place, None);
    var name := FreeName(taken, wanted, stem, ext);
    TakenIs(items, place, None);
    hide FreeName, NamesIn, Names.Numbered, SplitName;
    if wanted in taken {
      var n: nat :| n >= 1 && name == Names.Numbered(stem, ext, n) && Tried(stem, ext, n) <= taken;
      forall m: nat | 1 <= m < n
        ensures Names.Numbered(stem, ext, m) in taken
      {
        assert Names.Numbered(stem, ext, m) in Tried(stem, ext, n);
      }
    }
  }

  /** An upload of `size` bytes, of which `declared` were announced: its blob, a live file with a free
      name in the place asked for, a version of it, and its bytes used. */
  lemma UploadIs(db: Db, file: Id, version: Id, place: Option<Id>, raw: string, declared: nat, key: Key, size: nat,
                 checksum: string, now: nat)
    ensures var r := Upload(db, file, version, place, raw, declared, key, size, checksum, now);
            if !GoodName(Strip(raw)) then r == Failed(InvalidOperation)
            else if PlaceFault(db.items, place).Some? then r == Failed(PlaceFault(db.items, place).value)
            else if db.quota - db.used < declared then r == Failed(QuotaExceeded)
            else
              && r.Done? && file in r.db.items && SettlesOn(db.items, place, Strip(raw), r.db.items[file].name)
              && r.db == db.(items := db.items[file := Item(place, File, r.db.items[file].name, size, Some(key),
                                                            Some(checksum), false)],
                             versions := db.versions[version := Version(file, key, size)],
                             blobs := db.blobs[key := Blob(size, now)], used := db.used + size,
                             kinds := db.kinds[file := File], owners := db.owners[key := file])
  {
    NameIs(raw);
    FreeNameIs(db.items, place, Strip(raw));
    hide ValidName, Strip, NamesIn, FreeName, SettlesOn, SplitName, IsFreeName;
  }

  // ----- the trash -----

  /** Trashing marks one item. */
  lemma TrashItemIs(db: Db, id: Id)
    ensures TrashItem(db, id) ==
            if id !in db.items then Failed(NotFound)
            else if db.items[id].deleted then Failed(InvalidOperation)
            else Done(db.(items := db.items[id := db.items[id].(deleted := true)]))
  {
  }

  /** Bringing an item back unmarks it, in its old place if that is live and at the root otherwise,
      under a name that is free there. */
  lemma RestoreItemIs(db: Db, id: Id)
    ensures var r := RestoreItem(db, id);
            if id !in db.items then r == Failed(NotFound)
            else if !db.items[id].deleted then r == Failed(InvalidOperation)
            else
              var was := db.items[id];
              var place := match was.parent
                           case Some(p) => (if p in db.items && !db.items[p].deleted then Some(p) else None)
                           case None => None;
              && r.Done? && id in r.db.items && SettlesOn(db.items, place, was.name, r.db.items[id].name)
              && r.db == db.(items := db.items[id := Item(place, was.kind, r.db.items[id].name, was.size, was.key,
                                                          was.checksum, false)])
  {
    if id in db.items {
      FreeNameIs(db.items, RestorePlace(db.items, id), db.items[id].name);
    }
    hide NamesIn, FreeName, SettlesOn, SplitName, IsFreeName;
  }

  /** Deleting a trashed item for good removes it and all below it, their versions, the blobs of
      those versions that no snapshot holds, and gives their bytes back. */
  lemma PermanentDeleteIs(db: Db, id: Id)
    requires Inv(db)
    ensures var r := PermanentDelete(db, id);
            if id !in db.items then r == Failed(NotFound)
            else if !db.items[id].deleted then r == Failed(InvalidOperation)
            else r.Done? && Deletes(db, id, r.db)
  {
    if id in db.items && db.items[id].deleted {
      PermanentDeleteInv(db, id);
      PurgedIs(db, id);
      hide Inv, Purge, Subtree, Sum, Below, Deletes;
    }
  }

  lemma PurgedIs(db: Db, id: Id)
    requires Inv(db)
    requires Purge(db, Subtree(db.items, id)).used == db.used - FreedBytes(db.versions, Subtree(db.items, id))
    ensures Deletes(db, id, Purge(db, Subtree(db.items, id)))
  {
    SubtreeIs(db.items, id);
    PurgeRows(db, Subtree(db.items, id));
    hide *;
    DeletesIs(db, id, Subtree(db.items, id), Purge(db, Subtree(db.items, id)));
  }

  lemma DeletesIs(db: Db, id: Id, gone: set<Id>, t: Db)
    requires forall x :: x in gone <==> x in db.items && Below(ItemParents(db.items), id, x)
    requires t.items == db.items - gone
    requires forall v :: v in t.versions <==> v in db.versions && db.versions[v].file !in gone
    requires forall v :: v in t.versions ==> t.versions[v] == db.versions[v]
    requires forall k :: k in t.blobs <==>
                         k in db.blobs && !(k in VersionKeys(db.versions) && k !in VersionKeys(t.versions) &&
                                            k !in SnapshotKeys(db.snapshots))
    requires forall k :: k in t.blobs ==> t.blobs[k] == db.blobs[k]
    requires t.used == db.used - FreedBytes(db.versions, gone)
    requires FreedBytes(db.versions, gone) == Sum(SizesOf(db.versions - t.versions.Keys))
    requires t == db.(items := t.items, versions := t.versions, blobs := t.blobs, used := t.used)
    ensures Deletes(db, id, t)
  {
    hide Sum, Below, SizesOf, VersionKeys, SnapshotKeys, FreedBytes, ItemParents;
  }

  /** `t` is what is left of `s` without `id` and all below it. */
  ghost predicate Deletes(s: Db, id: Id, t: Db) {
    var p := ItemParents(s.items);
    && (forall x :: x in t.items <==> x in s.items && !Below(p, id, x))
    && (forall x :: x in t.items ==> t.items[x] == s.items[x])
    && (forall v :: v in t.versions <==>
          v in s.versions && !(s.versions[v].file in s.items && Below(p, id, s.versions[v].file)))
    && (forall v :: v in t.versions ==> t.versions[v] == s.versions[v])
    && (forall k :: k in t.blobs <==> k in s.blobs && !(k in VersionKeys(s.versions) && k !in VersionKeys(t.versions) &&
                                                        k !in SnapshotKeys(s.snapshots)))
    && (forall k :: k in t.blobs ==> t.blobs[k] == s.blobs[k])
    && t.used == s.used - Sum(SizesOf(s.versions - t.versions.Keys))
    && t == s.(items := t.items, versions := t.versions, blobs := t.blobs, used := t.used)
  }

  lemma SubtreeIs(items: map<Id, Item>, root: Id)
    ensures forall x :: x in Subtree(items, root) <==> x in items && Below(ItemParents(items), root, x)
  {
    hide Below;
  }

  lemma PurgeRows(db: Db, gone: set<Id>)
    requires Inv(db) && gone <= db.items.Keys
    ensures var t := Purge(db, gone);
            && t.items == db.items - gone
            && (forall v :: v in t.versions <==> v in db.versions && db.versions[v].file !in gone)
            && (forall v :: v in t.versions ==> t.versions[v] == db.versions[v])
            && (forall k :: k in t.blobs <==>
                  k in db.blobs && !(k in VersionKeys(db.versions) && k !in VersionKeys(t.versions) &&
                                     k !in SnapshotKeys(db.snapshots)))
            && (forall k :: k in t.blobs ==> t.blobs[k] == db.blobs[k])
            && FreedBytes(db.versions, gone) == Sum(SizesOf(db.versions - t.versions.Keys))
            && t == db.(items := t.items, versions := t.versions, blobs := t.blobs, used := t.used)
  {
    var t := Purge(db, gone);
    forall k
      ensures k in Reclaimed(db.versions, gone, db.snapshots) <==>
              k in VersionKeys(db.versions) && k !in VersionKeys(t.versions) && k !in SnapshotKeys(db.snapshots)
    {
      ReclaimedIs(db, gone, k);
    }
    RowsGone(db.versions, gone);
    hide Sum, SizesOf, Inv, Reclaimed, VersionKeys, SnapshotKeys, VersionsOf, VersionsOutside;
  }

  lemma RowsGone(versions: map<Id, Version>, gone: set<Id>)
    ensures var left := VersionsOutside(versions, gone);
            && (forall v :: v in left <==> v in versions && versions[v].file !in gone)
            && (forall v :: v in left ==> left[v] == versions[v])
            && VersionsOf(versions, gone) == versions - left.Keys
  {
  }

  /** A key belongs to one file: its versions go together. */
  lemma ReclaimedIs(db: Db, gone: set<Id>, k: Key)
    requires Inv(db)
    ensures k in Reclaimed(db.versions, gone, db.snapshots) <==>
            k in VersionKeys(db.versions) && k !in VersionKeys(VersionsOutside(db.versions, gone)) &&
            k !in SnapshotKeys(db.snapshots)
  {
    hide Sum, IsForest, SnapshotOk;
    if v :| v in db.versions && db.versions[v].key == k && db.versions[v].file in gone {
      assert VersionOk(db, db.versions[v]);
      assert v in VersionsOf(db.versions, gone) && VersionsOf(db.versions, gone)[v].key == k;
      forall w | w in VersionsOutside(db.versions, gone)
        ensures VersionsOutside(db.versions, gone)[w].key != k
      {
        assert VersionOk(db, db.versions[w]);
      }
    }
    if v :| v in db.versions && db.versions[v].key == k && db.versions[v].file !in gone {
      assert v in VersionsOutside(db.versions, gone) && VersionsOutside(db.versions, gone)[v].key == k;
      forall w | w in VersionsOf(db.versions, gone)
        ensures VersionsOf(db.versions, gone)[w].key != k
      {
        assert VersionOk(db, db.versions[v]) && VersionOk(db, db.versions[w]);
      }
    }
  }
}
