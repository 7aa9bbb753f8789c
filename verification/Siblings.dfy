/** Live items in one place have different names, except after a Time Machine restore. */
module Siblings {
  import opened Text
  import opened Forest
  import opened Names
  import opened Drive
  import opened DriveService
  import opened Trash
  import opened Snapshots
  import opened SnapshotService
  import opened Restore
  import opened Runs

  ghost predicate DistinctNames(items: map<Id, Item>) {
    forall x, y ::
      (IsLive(items, x) && IsLive(items, y) && x != y && items[x].parent == items[y].parent) ==>
        items[x].name != items[y].name
  }

  /** Writing one row under a name that is free there. */
  lemma PutKeepsNames(items: map<Id, Item>, id: Id, i: Item)
    requires DistinctNames(items)
    requires i.deleted || i.name !in NamesIn(items, i.parent, Some(id))
    ensures DistinctNames(items[id := i])
  {
    var after := items[id := i];
    forall x | x in items && x != id && IsLive(items, x) && items[x].parent == i.parent && !i.deleted
      ensures items[x].name != i.name
    {
      assert items[x].name in NamesIn(items, i.parent, Some(id));
    }
  }

  lemma NamesExcept(items: map<Id, Item>, parent: Option<Id>, id: Id)
    ensures NamesIn(items, parent, Some(id)) <= NamesIn(items, parent, None)
  {
  }

  /** Renaming, moving, creating, uploading, trashing, bringing back from the trash, deleting
      for good and taking snapshots keep sibling names different. */
  lemma StepKeepsNames(db: Db, op: Op)
    requires DistinctNames(db.items) && Possible(db, op) && !op.RestoreFrom?
    ensures DistinctNames(Step(db, op).items)
  {
    hide DistinctNames, NamesIn, FreeName, ValidName, Below, Subtree, Prune, Capture, SplitName, Reclaimed;
    var items := Step(db, op).items;
    match op
    case NewFolder(folder, place, name) =>
      NamesExcept(db.items, place, folder);
      if items != db.items { PutKeepsNames(db.items, folder, items[folder]); }
    case UploadFile(file, _, place, name, _, _, _, _, _) =>
      NamesExcept(db.items, place, file);
      if items != db.items { PutKeepsNames(db.items, file, items[file]); }
    case SetName(item, name) =>
      if items != db.items { PutKeepsNames(db.items, item, items[item]); }
    case SetPlace(item, place) =>
      if items != db.items { PutKeepsNames(db.items, item, items[item]); }
    case ToTrash(item) =>
      if items != db.items { PutKeepsNames(db.items, item, items[item]); }
    case FromTrash(item) =>
      if items != db.items {
        NamesExcept(db.items, items[item].parent, item);
        PutKeepsNames(db.items, item, items[item]);
      }
    case Erase(item) => FewerKeepNames(db.items, items);
    case _ =>
  }

  lemma FewerKeepNames(items: map<Id, Item>, fewer: map<Id, Item>)
    requires DistinctNames(items) && forall x :: x in fewer ==> x in items && fewer[x] == items[x]
    ensures DistinctNames(fewer)
  {
  }

  /** In every run without a Time Machine restore live siblings have different names. */
  lemma {:induction false} RunKeepsNames(db: Db, ops: seq<Op>)
    requires DistinctNames(db.items) && PossibleRun(db, ops)
    requires forall op :: op in ops ==> !op.RestoreFrom?
    ensures DistinctNames(RunOps(db, ops).items)
    decreases |ops|
  {
    if ops != [] {
      hide DistinctNames, Step, Possible;
      assert ops[0] in ops && forall op :: op in ops[1..] ==> op in ops;
      StepKeepsNames(db, ops[0]);
      RunKeepsNames(Step(db, ops[0]), ops[1..]);
    }
  }

  ghost predicate DistinctEntryNames(entries: map<Id, Entry>) {
    forall x, y ::
      (x in entries && y in entries && x != y && entries[x].parent == entries[y].parent) ==>
        entries[x].name != entries[y].name
  }

  /** After a whole mirror restore sibling names are different exactly when they are in the
      snapshot. */
  lemma MirrorNames(db: Db, entries: map<Id, Entry>)
    requires Inv(db) && IsForest(EntryParents(entries))
    requires forall x :: x in entries ==> EntryOk(db, x, entries[x])
    ensures DistinctNames(RestoredItems(db.items, entries, None, true)) <==> DistinctEntryNames(entries)
  {
    hide Inv, IsForest, EntryOk, RestoredItems;
    MirrorCaptures(db, entries);
    MirrorRows(db.items, entries);
    var after := RestoredItems(db.items, entries, None, true);
    forall x | x in entries
      ensures IsLive(after, x) && after[x].parent == entries[x].parent && after[x].name == entries[x].name
    {
      assert x in Live(after);
      WroteEntry(db.items, entries, x);
    }
    forall x | IsLive(after, x)
      ensures x in entries
    {
      assert x in Live(after);
    }
  }

  lemma WroteEntry(items: map<Id, Item>, entries: map<Id, Entry>, x: Id)
    requires IsForest(EntryParents(entries)) && x in entries
    ensures var i := RestoredItem(items, entries, x);
            i.parent == entries[x].parent && i.name == entries[x].name
  {
    assert EntryParents(entries)[x] == entries[x].parent;
  }

  /** A later item that stays, of the same name and in the same place as a restored one. */
  ghost predicate MeetsLater(items: map<Id, Item>, entries: map<Id, Entry>) {
    exists x, y :: IsLive(items, x) && x !in entries && y in entries &&
                   items[x].parent == entries[y].parent && items[x].name == entries[y].name
  }

  /** After a whole restore that keeps later items, sibling names are different exactly when they
      are in the snapshot and no kept item meets a restored one of its name. */
  lemma KeepNewNames(items: map<Id, Item>, entries: map<Id, Entry>)
    requires DistinctNames(items) && IsForest(EntryParents(entries))
    ensures DistinctNames(RestoredItems(items, entries, None, false)) <==>
            DistinctEntryNames(entries) && !MeetsLater(items, entries)
  {
    hide IsForest, RestoredItems;
    var after := RestoredItems(items, entries, None, false);
    KeepNewRows(items, entries);
    if DistinctNames(after) {
      forall x, y | x in entries && y in entries && x != y && entries[x].parent == entries[y].parent
        ensures entries[x].name != entries[y].name
      {
        assert IsLive(after, x) && IsLive(after, y);
      }
    }
    if MeetsLater(items, entries) {
      var x, y :| IsLive(items, x) && x !in entries && y in entries &&
        items[x].parent == entries[y].parent && items[x].name == entries[y].name;
      assert IsLive(after, x) && IsLive(after, y);
    }
  }

  lemma KeepNewRows(items: map<Id, Item>, entries: map<Id, Entry>)
    requires IsForest(EntryParents(entries))
    ensures var after := RestoredItems(items, entries, None, false);
            && (forall x :: x in after <==> x in items || x in entries)
            && (forall x :: x in items && x !in entries ==> after[x] == items[x])
            && forall x :: x in entries ==>
                 IsLive(after, x) && after[x].parent == entries[x].parent && after[x].name == entries[x].name
  {
    hide IsForest;
    var after := RestoredItems(items, entries, None, false);
    RestoredIsLive(items, entries);
    forall x | x in entries
      ensures IsLive(after, x) && after[x].parent == entries[x].parent && after[x].name == entries[x].name
    {
      WroteEntry(items, entries, x);
    }
  }

  /** What a capture puts at the root: live items there, and those whose folder is not live. */
  predicate AtRoot(items: map<Id, Item>, x: Id) {
    IsLive(items, x) && (items[x].parent.None? || !IsLive(items, items[x].parent.value))
  }

  /** A capture has two siblings of one name exactly when two of those share a name. */
  lemma CaptureNames(items: map<Id, Item>)
    requires DistinctNames(items)
    ensures DistinctEntryNames(Capture(items)) <==>
            forall x, y :: AtRoot(items, x) && AtRoot(items, y) && x != y ==> items[x].name != items[y].name
  {
    var c := Capture(items);
    CapturedAt(items);
    hide Capture, CaptureItem, DistinctNames;
    if DistinctEntryNames(c) {
      forall x, y | AtRoot(items, x) && AtRoot(items, y) && x != y
        ensures items[x].name != items[y].name
      {
        assert x in c && y in c && c[x].parent == c[y].parent;
      }
    }
    if forall x, y :: AtRoot(items, x) && AtRoot(items, y) && x != y ==> items[x].name != items[y].name {
      forall x, y | x in c && y in c && x != y && c[x].parent == c[y].parent
        ensures c[x].name != c[y].name
      {
        if c[x].parent.Some? {
          SamePlaceNames(items, x, y);
        } else {
          assert AtRoot(items, x) && AtRoot(items, y);
        }
      }
    }
  }

  lemma SamePlaceNames(items: map<Id, Item>, x: Id, y: Id)
    requires DistinctNames(items) && IsLive(items, x) && IsLive(items, y) && x != y
    requires items[x].parent == items[y].parent
    ensures items[x].name != items[y].name
  {
  }

  lemma CapturedAt(items: map<Id, Item>)
    ensures forall x :: x in Capture(items) <==> IsLive(items, x)
    ensures forall x :: x in Capture(items) ==>
              && Capture(items)[x].name == items[x].name
              && Capture(items)[x].parent == if AtRoot(items, x) then None else items[x].parent
  {
  }
}
