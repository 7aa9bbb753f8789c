/** What a Time Machine restore does to the rows, whole or in part. */
module RestoreEffects {
  import opened Text
  import opened Forest
  import opened Drive
  import opened Snapshots
  import opened SnapshotService
  import opened Restore

  /** The entry is restored: everything is, or it is selected or below something selected. */
  ghost predicate ComesBack(entries: map<Id, Entry>, selected: Option<set<Id>>, x: Id) {
    x in entries &&
    (selected.Some? ==> exists s :: s in selected.value && s in entries && Below(EntryParents(entries), s, x))
  }

  /** The mirror pass has to trash the item: the restore is exact, the snapshot does not know it,
      and for a part it sits directly in something restored. */
  ghost predicate IsNew(items: map<Id, Item>, entries: map<Id, Entry>, selected: Option<set<Id>>, x: Id) {
    && x in items && x !in entries
    && (selected.Some? ==> items[x].parent.Some? && ComesBack(entries, selected, items[x].parent.value))
  }

  lemma TargetIs(entries: map<Id, Entry>, selected: Option<set<Id>>)
    ensures forall x :: x in Target(entries, selected) <==> ComesBack(entries, selected, x)
    ensures forall x :: x in Target(entries, selected) ==> x in entries && Target(entries, selected)[x] == entries[x]
  {
    hide Below;
  }

  /** The row of something that came back. */
  ghost predicate BackAs(items: map<Id, Item>, entries: map<Id, Entry>, selected: Option<set<Id>>, x: Id, i: Item)
    requires x in entries
  {
    var e := entries[x];
    && !i.deleted && i.name == e.name && i.size == e.size && i.key == e.key && i.checksum == e.checksum
    && i.kind == (if x in items then items[x].kind else e.kind)
    && i.parent == match e.parent
                   case Some(p) => (if ComesBack(entries, selected, p) || p in items then Some(p) else None)
                   case None => None
  }

  /** What comes back is live with the entry's name and content, keeps the kind of a row that is
      there, and goes where the entry says, or to the root when that place neither comes back nor
      is there. Everything else stays as it was, but for the trash mark that an exact restore puts
      on new items. */
  ghost predicate RowIs(items: map<Id, Item>, entries: map<Id, Entry>, selected: Option<set<Id>>, exact: bool,
                        x: Id, row: Item) {
    if ComesBack(entries, selected, x) then BackAs(items, entries, selected, x, row)
    else
      && x in items && row.(deleted := items[x].deleted) == items[x]
      && (row.deleted <==> items[x].deleted || (exact && IsNew(items, entries, selected, x)))
  }

  /** The rows after a restore, each of them. */
  ghost predicate RowsComeBack(items: map<Id, Item>, entries: map<Id, Entry>, selected: Option<set<Id>>, exact: bool,
                               after: map<Id, Item>) {
    && (forall x :: x in after <==> x in items || ComesBack(entries, selected, x))
    && (forall x :: x in after ==> RowIs(items, entries, selected, exact, x, after[x]))
  }

  lemma RowsAfter(items: map<Id, Item>, entries: map<Id, Entry>, selected: Option<set<Id>>, exact: bool)
    ensures RowsComeBack(items, entries, selected, exact, RestoredItems(items, entries, selected, exact))
  {
    var after := RestoredItems(items, entries, selected, exact);
    forall x | x in after
      ensures RowIs(items, entries, selected, exact, x, after[x])
    {
      RowAfter(items, entries, selected, exact, x);
    }
    TargetIs(entries, selected);
    hide Target, ComesBack, RowIs;
  }

  lemma RowAfter(items: map<Id, Item>, entries: map<Id, Entry>, selected: Option<set<Id>>, exact: bool, x: Id)
    requires x in RestoredItems(items, entries, selected, exact)
    ensures RowIs(items, entries, selected, exact, x, RestoredItems(items, entries, selected, exact)[x])
  {
    TargetIs(entries, selected);
    hide Target, ComesBack;
    var target := Target(entries, selected);
    if ComesBack(entries, selected, x) {
      assert RestoreRows(items, target)[x] == RestoredItem(items, target, x);
    }
    if selected.None? {
      WholeIsAll(entries);
    }
  }

  lemma WholeIsAll(entries: map<Id, Entry>)
    ensures forall x :: ComesBack(entries, None, x) <==> x in entries
  {
  }

  /** A restore takes a snapshot of the drive as it is, reads the target's entries from what
      pruning left, and changes rows only. */
  lemma RestoreIs(db: Db, id: Id, safety: Id, selected: Option<set<Id>>, exact: bool)
    ensures RestoreSnapshot(db, id, safety, selected, exact).Some? <==> exists s :: s in db.snapshots && s.id == id
    ensures RestoreSnapshot(db, id, safety, selected, exact).Some? ==>
              var taken := CreateSnapshot(db, safety, PreRestore, false);
              RestoreSnapshot(db, id, safety, selected, exact).value ==
              taken.(items := RestoredItems(db.items, EntriesOf(taken.snapshots, id), selected, exact))
  {
    hide RestoredItems, EntriesOf, Prune, Capture;
    if i :| 0 <= i < |db.snapshots| && db.snapshots[i].id == id {
      assert db.snapshots[i] in db.snapshots;
    }
    if s :| s in db.snapshots && s.id == id {
      InList(db.snapshots, s);
    }
  }

  /** The target's entries are those of the snapshot of that id, none when pruning took it. */
  lemma EntriesAre(snaps: seq<Snapshot>, id: Id)
    requires DistinctIds(snaps)
    ensures forall s :: s in snaps && s.id == id ==> EntriesOf(snaps, id) == s.entries
    ensures (forall s :: s in snaps ==> s.id != id) ==> EntriesOf(snaps, id) == map[]
  {
    forall s | s in snaps && s.id == id
      ensures EntriesOf(snaps, id) == s.entries
    {
      SameEntries(snaps, id, s);
    }
    if forall s :: s in snaps ==> s.id != id {
      NoEntries(snaps, id);
    }
  }

  /** A restore finds its snapshot, takes one of the drive as it is, with the pruning that goes with
      it, and lets the target's entries come back: those it had, if pruning left it, else none. */
  lemma RestoreLeaves(db: Db, id: Id, safety: Id, selected: Option<set<Id>>, exact: bool, target: Snapshot)
    requires DistinctIds(CreateSnapshot(db, safety, PreRestore, false).snapshots)
    requires target in db.snapshots && target.id == id
    ensures var r := RestoreSnapshot(db, id, safety, selected, exact);
            var taken := CreateSnapshot(db, safety, PreRestore, false);
            && r.Some? && r.value == taken.(items := r.value.items)
            && (target in taken.snapshots ==>
                  RowsComeBack(db.items, target.entries, selected, exact, r.value.items))
            && ((forall s :: s in taken.snapshots ==> s.id != id) ==>
                  RowsComeBack(db.items, map[], selected, exact, r.value.items))
  {
    var taken := CreateSnapshot(db, safety, PreRestore, false);
    RestoreIs(db, id, safety, selected, exact);
    EntriesAre(taken.snapshots, id);
    RowsAfter(db.items, target.entries, selected, exact);
    RowsAfter(db.items, map[], selected, exact);
    hide *;
  }

  /** Restoring one folder as an exact mirror leaves a file uploaded to the root alone. */
  lemma OutsideStays(items: map<Id, Item>, entries: map<Id, Entry>, folder: Id, n: Id)
    requires n in items && n !in entries && items[n].parent == None
    ensures n in RestoredItems(items, entries, Some({folder}), true)
    ensures RestoredItems(items, entries, Some({folder}), true)[n] == items[n]
  {
    RowsAfter(items, entries, Some({folder}), true);
    hide RestoredItems;
  }
}
