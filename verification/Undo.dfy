/** What a later call undoes of an earlier one, and exactly when. */
module Undo {
  import opened Text
  import opened Sums
  import opened Forest
  import opened Names
  import opened Drive
  import opened DriveService
  import opened Trash
  import opened Runs
  import opened DriveEffects

  lemma TwoCalls(db: Db, a: Op, b: Op)
    ensures RunOps(db, [a, b]) == Step(Step(db, a), b)
  {
    hide Step;
    assert [a, b][1..] == [b] && [b][1..] == [];
    assert RunOps(Step(Step(db, a), b), []) == Step(Step(db, a), b);
  }

  lemma ThreeCalls(db: Db, a: Op, b: Op, c: Op)
    ensures RunOps(db, [a, b, c]) == Step(Step(Step(db, a), b), c)
  {
    TwoCalls(Step(db, a), b, c);
    assert [a, b, c][1..] == [b, c];
    hide Step;
  }

  /** A call takes effect when it succeeds. */
  lemma Takes(db: Db, op: Op)
    ensures op.SetPlace? ==> Step(db, op) == After(db, Drive.Move(db, op.item, op.place))
    ensures op.SetName? ==> Step(db, op) == After(db, Drive.Rename(db, op.item, op.name))
    ensures op.ToTrash? ==> Step(db, op) == After(db, Drive.TrashItem(db, op.item))
    ensures op.FromTrash? ==> Step(db, op) == After(db, Drive.RestoreItem(db, op.item))
    ensures op.Erase? ==> Step(db, op) == After(db, PermanentDelete(db, op.item))
    ensures op.UploadFile? ==>
              Step(db, op) == After(db, Upload(db, op.file, op.version, op.place, op.name, op.declared, op.key, op.size,
                                               op.checksum, op.now))
  {
    hide Drive.Move, Drive.Rename, Drive.TrashItem, Drive.RestoreItem, PermanentDelete, Upload, After;
  }

  /** A live namesake sits beside the item. */
  predicate HasNamesake(items: map<Id, Item>, x: Id)
    requires x in items
  {
    Taken(items, items[x].parent, items[x].name, Some(x))
  }

  /** The item's own row does not matter to whether it has one. */
  lemma OthersTake(items: map<Id, Item>, x: Id, row: Item, place: Option<Id>, name: string)
    ensures Taken(items[x := row], place, name, Some(x)) <==> Taken(items, place, name, Some(x))
    ensures row.deleted ==> (Taken(items[x := row], place, name, None) <==> Taken(items, place, name, Some(x)))
  {
    var t := items[x := row];
    if y :| y in t && !t[y].deleted && t[y].parent == place && Some(y) != Some(x) && t[y].name == name {
      assert items[y] == t[y];
    }
    if y :| y in items && !items[y].deleted && items[y].parent == place && Some(y) != Some(x) && items[y].name == name {
      assert items[y] == t[y];
    }
  }

  lemma OwnName(items: map<Id, Item>, place: Option<Id>, wanted: string, name: string)
    requires SettlesOn(items, place, wanted, name)
    ensures name == wanted <==> !Taken(items, place, wanted, None)
  {
    hide Taken, SplitName, Names.Numbered;
  }

  // ----- moving back -----

  /** Without passing `x` the way up is the same. */
  lemma {:induction false} SameWayUp(p: Parents, q: Parents, x: Id, y: Id, n: nat)
    requires forall z :: z != x ==> (z in p <==> z in q) && (z in p ==> p[z] == q[z])
    requires Ancestor(q, y, n) == Some(x)
    ensures Below(p, x, y)
    decreases n
  {
    if y == x {
      BelowSelf(p, x);
    } else {
      SameWayUp(p, q, x, q[y].value, n - 1);
      BelowChild(p, x, y);
    }
  }

  /** The old parent of an item that moved is not below it. */
  lemma OldParentIsAbove(items: map<Id, Item>, x: Id, place: Option<Id>, o: Id)
    requires IsForest(ItemParents(items)) && x in items && items[x].parent == Some(o)
    ensures o != x && !Below(ItemParents(items[x := items[x].(parent := place)]), x, o)
  {
    var p, q := ItemParents(items), ItemParents(items[x := items[x].(parent := place)]);
    assert Ancestor(p, x, 1) == Ancestor(p, o, 0) == Some(o);
    NoCycle(p, x, 1);
    if Below(q, x, o) {
      var n: nat :| Ancestor(q, o, n) == Some(x);
      SameWayUp(p, q, x, o, n);
      var m: nat :| Ancestor(p, o, m) == Some(x);
      assert Ancestor(p, x, m + 1) == Some(x);
      NoCycle(p, x, m + 1);
    }
  }

  lemma MoveTo(t: Db, x: Id, place: Option<Id>)
    requires IsLive(t.items, x) && (place.Some? ==> !Below(ItemParents(t.items), x, place.value))
    ensures Step(t, SetPlace(x, place)) ==
            if PlaceFault(t.items, place).None? && !Taken(t.items, place, t.items[x].name, Some(x))
            then t.(items := t.items[x := t.items[x].(parent := place)]) else t
  {
    MoveIs(t, x, place);
    Takes(t, SetPlace(x, place));
    hide Below, Drive.Move, Step, Taken, PlaceFault;
  }

  lemma Moves(db: Db, x: Id, place: Option<Id>)
    requires Drive.Move(db, x, place).Done?
    ensures IsLive(db.items, x)
    ensures Step(db, SetPlace(x, place)) == db.(items := db.items[x := db.items[x].(parent := place)])
    ensures PlaceFault(db.items, place).None? && !Taken(db.items, place, db.items[x].name, Some(x))
  {
    MoveIs(db, x, place);
    Takes(db, SetPlace(x, place));
    hide Below, Drive.Move, Step, Taken, PlaceFault;
  }

  lemma FaultElsewhere(items: map<Id, Item>, x: Id, row: Item, place: Option<Id>)
    requires place != Some(x)
    ensures PlaceFault(items[x := row], place) == PlaceFault(items, place)
  {
  }

  /** Moving back undoes a move exactly when there was none or the old place still takes the item: it
      is a live folder or the root, and no live namesake is there. */
  lemma MovedBack(db: Db, x: Id, place: Option<Id>)
    requires Inv(db) && Drive.Move(db, x, place).Done?
    ensures var home := db.items[x].parent;
            RunOps(db, [SetPlace(x, place), SetPlace(x, home)]) == db <==>
            place == home || (PlaceFault(db.items, home).None? && !HasNamesake(db.items, x))
  {
    var was := db.items[x];
    var t := db.(items := db.items[x := was.(parent := place)]);
    TwoCalls(db, SetPlace(x, place), SetPlace(x, was.parent));
    Moves(db, x, place);
    if was.parent.Some? {
      OldParentIsAbove(db.items, x, place, was.parent.value);
    }
    MoveTo(t, x, was.parent);
    OthersTake(db.items, x, t.items[x], was.parent, was.name);
    FaultElsewhere(db.items, x, t.items[x], was.parent);
    hide Below, Drive.Move, RunOps, Inv, Step, Taken, PlaceFault;
    assert t.items[x := was] == db.items;
    assert place == was.parent ==> t.items == db.items;
  }

  // ----- renaming back -----

  lemma {:induction false} NoSpaceLeft(s: string)
    requires s == "" || !IsSpace(s[0])
    ensures StripLeft(s) == s
  {
  }

  lemma NoSpaceRight(s: string)
    requires s == "" || !IsSpace(s[|s| - 1])
    ensures StripRight(s) == s
  {
  }

  lemma StrippedTwice(s: string)
    ensures Strip(Strip(s)) == Strip(s)
  {
    var before, after := StripIs(s);
    NoSpaceLeft(Strip(s));
    NoSpaceRight(Strip(s));
  }

  /** Renaming back undoes a rename exactly when there was none or the old name is one that can be
      given and no live sibling has taken it. */
  lemma RenamedBack(db: Db, x: Id, raw: string)
    requires Drive.Rename(db, x, raw).Done?
    ensures var name := db.items[x].name;
            RunOps(db, [SetName(x, raw), SetName(x, name)]) == db <==>
            Strip(raw) == name || (GoodName(name) && Strip(name) == name && !HasNamesake(db.items, x))
  {
    var was := db.items[x];
    var t := db.(items := db.items[x := was.(name := Strip(raw))]);
    TwoCalls(db, SetName(x, raw), SetName(x, was.name));
    RenameIs(db, x, raw);
    RenameIs(t, x, was.name);
    StrippedTwice(raw);
    Takes(db, SetName(x, raw));
    Takes(t, SetName(x, was.name));
    OthersTake(db.items, x, t.items[x], was.parent, was.name);
    hide Drive.Rename, RunOps, Strip, Step, Taken, GoodName;
    assert t.items[x := was] == db.items;
    assert t.items[x].name == Strip(raw);
    if Strip(raw) == was.name {
      assert t.items == db.items;
    }
  }

  // ----- back from the trash -----

  lemma BringsBack(t: Db, x: Id)
    requires x in t.items && t.items[x].deleted
    ensures var u := Step(t, FromTrash(x));
            && x in u.items && u == t.(items := t.items[x := u.items[x]])
            && (u.items[x] == t.items[x].(deleted := false) <==>
                (t.items[x].parent.Some? ==> IsLive(t.items, t.items[x].parent.value)) &&
                !Taken(t.items, t.items[x].parent, t.items[x].name, None))
  {
    RestoreItemIs(t, x);
    Takes(t, FromTrash(x));
    hide Drive.RestoreItem, Taken, SettlesOn, Step;
    var home := t.items[x].parent;
    if home.Some? ==> IsLive(t.items, home.value) {
      OwnName(t.items, home, t.items[x].name, Step(t, FromTrash(x)).items[x].name);
    }
  }

  /** Trashing an item and bringing it back changes nothing exactly when its parent is live and no
      live namesake sits beside it. */
  lemma TrashedBack(db: Db, x: Id)
    requires Inv(db) && IsLive(db.items, x)
    ensures var home := db.items[x].parent;
            RunOps(db, [ToTrash(x), FromTrash(x)]) == db <==>
            (home.Some? ==> IsLive(db.items, home.value)) && !HasNamesake(db.items, x)
  {
    var was := db.items[x];
    var t := db.(items := db.items[x := was.(deleted := true)]);
    TwoCalls(db, ToTrash(x), FromTrash(x));
    Trashes(db, x);
    BringsBack(t, x);
    if was.parent.Some? {
      OldParentIsAbove(db.items, x, None, was.parent.value);
    }
    OthersTake(db.items, x, t.items[x], was.parent, was.name);
    hide RunOps, Inv, Below, Step, Taken;
    assert t.items[x := was] == db.items;
  }

  // ----- erased again -----

  lemma NothingUnder(db: Db, x: Id)
    requires Inv(db) && x !in db.kinds
    ensures x !in db.items && forall y :: y in db.items ==> db.items[y].parent != Some(x)
  {
    forall y | y in db.items
      ensures y in db.kinds && db.items[y].parent != Some(x)
    {
      assert ItemOk(db, y, db.items[y]);
    }
  }

  /** Below a new item there is only the item. */
  lemma OnlyItself(p: Parents, x: Id)
    requires forall y :: y in p ==> p[y] != Some(x)
    ensures forall y :: Below(p, x, y) <==> y == x
  {
    forall y
      ensures Below(p, x, y) <==> y == x
    {
      BelowSelf(p, x);
      if Below(p, x, y) {
        NothingBelowLeaf(p, x, y);
      }
    }
  }

  /** `t` is the drive with a new item, the versions `vs` of it and the blobs `bs` of these. */
  ghost predicate Adds(db: Db, x: Id, vs: map<Id, Version>, bs: map<Key, Blob>, t: Db) {
    && x !in db.kinds && x in t.items && t.items[x].parent != Some(x) && t.items == db.items[x := t.items[x]]
    && vs.Keys !! db.versions.Keys && (forall v :: v in vs ==> vs[v].file == x) && t.versions == db.versions + vs
    && bs.Keys !! db.blobs.Keys && bs.Keys !! db.owners.Keys && bs.Keys == VersionKeys(vs) && t.blobs == db.blobs + bs
    && t.snapshots == db.snapshots && t.used == db.used + Sum(SizesOf(vs))
  }

  lemma ErasedItems(db: Db, t: Db, x: Id, vs: map<Id, Version>, bs: map<Key, Blob>, u: Db)
    requires Inv(db) && Adds(db, x, vs, bs, t) && Deletes(t, x, u)
    ensures u.items == db.items && forall y :: Below(ItemParents(t.items), x, y) <==> y == x
  {
    NothingUnder(db, x);
    hide Inv;
    OnlyItself(ItemParents(t.items), x);
    hide Below, Sum, VersionKeys, SnapshotKeys;
    assert forall y :: y in u.items <==> y in db.items;
  }

  lemma ErasedVersions(db: Db, t: Db, x: Id, vs: map<Id, Version>, bs: map<Key, Blob>, u: Db)
    requires Inv(db) && Adds(db, x, vs, bs, t) && Deletes(t, x, u)
    ensures u.versions == db.versions && u.used == db.used
  {
    ErasedItems(db, t, x, vs, bs, u);
    FilesAreItems(db);
    NothingUnder(db, x);
    forall v
      ensures v in u.versions <==> v in t.versions && t.versions[v].file != x
    {
    }
    WithoutNew(db.versions, vs, x, u.versions);
    hide *;
  }

  lemma WithoutNew(before: map<Id, Version>, more: map<Id, Version>, x: Id, left: map<Id, Version>)
    requires before.Keys !! more.Keys
    requires (forall v :: v in before ==> before[v].file != x) && forall v :: v in more ==> more[v].file == x
    requires forall v :: v in left <==> v in before + more && (before + more)[v].file != x
    requires forall v :: v in left ==> left[v] == (before + more)[v]
    ensures left == before && (before + more) - left.Keys == more
  {
    forall v
      ensures v in left <==> v in before
    {
      if v in before {
        assert (before + more)[v] == before[v];
      }
    }
  }

  lemma FilesAreItems(db: Db)
    requires Inv(db)
    ensures forall v :: v in db.versions ==> db.versions[v].file in db.items
  {
    hide ItemsOk, SnapshotsOk, Sum;
    forall v | v in db.versions
      ensures db.versions[v].file in db.items
    {
      assert VersionOk(db, db.versions[v]);
    }
  }

  lemma KeysAreOwned(db: Db)
    requires Inv(db)
    ensures VersionKeys(db.versions) <= db.owners.Keys && SnapshotKeys(db.snapshots) <= db.owners.Keys
  {
    hide Sum, IsForest;
    forall v | v in db.versions
      ensures db.versions[v].key in db.owners
    {
      assert VersionOk(db, db.versions[v]);
    }
    forall i, x | 0 <= i < |db.snapshots| && x in db.snapshots[i].entries && db.snapshots[i].entries[x].key.Some?
      ensures db.snapshots[i].entries[x].key.value in db.owners
    {
      assert SnapshotOk(db, db.snapshots[i]) && EntryOk(db, x, db.snapshots[i].entries[x]);
    }
  }

  /** Deleting the new item leaves the drive as it was. */
  lemma ErasedAgain(db: Db, t: Db, x: Id, vs: map<Id, Version>, bs: map<Key, Blob>, u: Db)
    requires Inv(db) && Adds(db, x, vs, bs, t) && Deletes(t, x, u)
    ensures u == t.(items := db.items, versions := db.versions, blobs := db.blobs, used := db.used)
  {
    ErasedItems(db, t, x, vs, bs, u);
    ErasedVersions(db, t, x, vs, bs, u);
    KeysAreOwned(db);
    forall k
      ensures k in VersionKeys(t.versions) <==> k in VersionKeys(db.versions) || k in VersionKeys(vs)
    {
      KeysOfBoth(db.versions, vs, k);
    }
    OldBlobs(db, VersionKeys(db.versions), VersionKeys(t.versions), SnapshotKeys(db.snapshots), bs, u.blobs);
    hide *;
  }

  lemma OldBlobs(db: Db, before: set<Key>, after: set<Key>, held: set<Key>, bs: map<Key, Blob>, left: map<Key, Blob>)
    requires bs.Keys !! db.blobs.Keys && bs.Keys !! db.owners.Keys
    requires before <= db.owners.Keys && held <= db.owners.Keys
    requires forall k :: k in after <==> k in before || k in bs
    requires forall k :: k in left <==> k in db.blobs + bs && !(k in after && k !in before && k !in held)
    requires forall k :: k in left ==> left[k] == (db.blobs + bs)[k]
    ensures left == db.blobs
  {
    assert forall k :: k in left <==> k in db.blobs;
  }

  lemma KeysOfBoth(a: map<Id, Version>, b: map<Id, Version>, k: Key)
    requires a.Keys !! b.Keys
    ensures k in VersionKeys(a + b) <==> k in VersionKeys(a) || k in VersionKeys(b)
  {
    if v :| v in a && a[v].key == k {
      assert (a + b)[v] == a[v];
    }
    if v :| v in b && b[v].key == k {
      assert (a + b)[v] == b[v];
    }
  }

  lemma Trashes(s: Db, x: Id)
    requires IsLive(s.items, x)
    ensures Step(s, ToTrash(x)) == s.(items := s.items[x := s.items[x].(deleted := true)])
  {
    TrashItemIs(s, x);
    Takes(s, ToTrash(x));
    hide Drive.TrashItem, Step;
  }

  lemma Erases(t: Db, x: Id)
    requires Inv(t) && x in t.items && t.items[x].deleted
    ensures Deletes(t, x, Step(t, Erase(x)))
  {
    PermanentDeleteIs(t, x);
    Takes(t, Erase(x));
    hide PermanentDelete, Deletes, Inv, Step;
  }

  lemma TrashAdds(db: Db, s: Db, x: Id, vs: map<Id, Version>, bs: map<Key, Blob>)
    requires Adds(db, x, vs, bs, s)
    ensures Adds(db, x, vs, bs, s.(items := s.items[x := s.items[x].(deleted := true)]))
  {
    hide Sum, VersionKeys;
    var i := s.items[x].(deleted := true);
    assert s.items[x := i] == db.items[x := i];
  }

  /** A new item that is trashed and erased leaves the drive as it was before. */
  lemma TrashedAndErased(db: Db, s: Db, x: Id, vs: map<Id, Version>, bs: map<Key, Blob>)
    requires Inv(db) && Good(s) && Adds(db, x, vs, bs, s) && IsLive(s.items, x)
    ensures Step(Step(s, ToTrash(x)), Erase(x))
            == s.(items := db.items, versions := db.versions, blobs := db.blobs, used := db.used)
  {
    var t := s.(items := s.items[x := s.items[x].(deleted := true)]);
    Trashes(s, x);
    TrashAdds(db, s, x, vs, bs);
    StepInv(s, ToTrash(x));
    Erases(t, x);
    ErasedAgain(db, t, x, vs, bs, Step(t, Erase(x)));
    hide Inv, Step, Adds, Deletes;
  }

  lemma Creates(db: Db, x: Id, place: Option<Id>, raw: string)
    requires Inv(db) && x !in db.kinds && Drive.CreateFolder(db, x, place, raw).Done?
    ensures var s := Step(db, NewFolder(x, place, raw));
            && Adds(db, x, map[], map[], s) && IsLive(s.items, x)
            && s == db.(items := s.items, kinds := db.kinds[x := Folder])
  {
    CreateFolderIs(db, x, place, raw);
    hide Drive.CreateFolder, Strip, Inv, Taken, Sum, VersionKeys;
    NothingUnder(db, x);
    NoBytes();
  }

  /** A folder that is created, trashed and erased is gone, and only its id is used up. */
  lemma FolderErased(db: Db, x: Id, place: Option<Id>, raw: string)
    requires Good(db) && x !in db.kinds && Drive.CreateFolder(db, x, place, raw).Done?
    ensures RunOps(db, [NewFolder(x, place, raw), ToTrash(x), Erase(x)]) == db.(kinds := db.kinds[x := Folder])
  {
    var s := Step(db, NewFolder(x, place, raw));
    ThreeCalls(db, NewFolder(x, place, raw), ToTrash(x), Erase(x));
    StepInv(db, NewFolder(x, place, raw));
    Creates(db, x, place, raw);
    TrashedAndErased(db, s, x, map[], map[]);
    hide Drive.CreateFolder, Inv, Step, Adds;
  }

  lemma NoBytes()
    ensures Sum(SizesOf(map[])) == 0 && VersionKeys(map[]) == {}
  {
    assert SizesOf(map[]) == map[];
  }

  lemma Uploads(db: Db, op: Op)
    requires Inv(db) && op.UploadFile? && Possible(db, op)
    requires Upload(db, op.file, op.version, op.place, op.name, op.declared, op.key, op.size, op.checksum, op.now).Done?
    ensures var s := Step(db, op);
            && Adds(db, op.file, map[op.version := Version(op.file, op.key, op.size)],
                    map[op.key := Blob(op.size, op.now)], s)
            && IsLive(s.items, op.file)
            && s == db.(items := s.items, versions := s.versions, blobs := s.blobs, used := s.used,
                        kinds := db.kinds[op.file := File], owners := db.owners[op.key := op.file])
  {
    UploadIs(db, op.file, op.version, op.place, op.name, op.declared, op.key, op.size, op.checksum, op.now);
    NothingUnder(db, op.file);
    Takes(db, op);
    var row := Step(db, op).items[op.file];
    hide Upload, Strip, SettlesOn, Taken, Inv, Adds, Step, GoodName;
    assert row.parent != Some(op.file);
    AddsFile(db, op, row);
  }

  lemma AddsFile(db: Db, op: Op, row: Item)
    requires op.UploadFile? && op.file !in db.kinds && op.version !in db.versions
    requires op.key !in db.owners && op.key !in db.blobs && row.parent != Some(op.file)
    ensures Adds(db, op.file, map[op.version := Version(op.file, op.key, op.size)],
                 map[op.key := Blob(op.size, op.now)],
                 db.(items := db.items[op.file := row],
                     versions := db.versions[op.version := Version(op.file, op.key, op.size)],
                     blobs := db.blobs[op.key := Blob(op.size, op.now)], used := db.used + op.size,
                     kinds := db.kinds[op.file := File], owners := db.owners[op.key := op.file]))
  {
    OneVersion(op.version, op.file, op.key, op.size);
    hide Sum, VersionKeys;
  }

  /** A file that is uploaded, trashed and erased is gone with its blob, its version and its bytes; only
      its id and its key are used up. */
  lemma UploadErased(db: Db, op: Op)
    requires Good(db) && op.UploadFile? && Possible(db, op)
    requires Upload(db, op.file, op.version, op.place, op.name, op.declared, op.key, op.size, op.checksum, op.now).Done?
    ensures RunOps(db, [op, ToTrash(op.file), Erase(op.file)])
            == db.(kinds := db.kinds[op.file := File], owners := db.owners[op.key := op.file])
  {
    ThreeCalls(db, op, ToTrash(op.file), Erase(op.file));
    StepInv(db, op);
    Uploads(db, op);
    TrashedAndErased(db, Step(db, op), op.file, map[op.version := Version(op.file, op.key, op.size)],
                     map[op.key := Blob(op.size, op.now)]);
    hide Upload, Inv, Step, Adds, Possible;
  }

  lemma OneVersion(version: Id, file: Id, key: Key, size: nat)
    ensures var vs := map[version := Version(file, key, size)];
            Sum(SizesOf(vs)) == size && VersionKeys(vs) == {key}
  {
    var vs := map[version := Version(file, key, size)];
    SumTake(SizesOf(vs), version);
    assert SizesOf(vs) - {version} == map[];
    assert vs[version].key == key;
  }
}
