/** What a garbage collection looks at, and when a scheduled snapshot is due, in terms of rows. */
module SweepEffects {
  import opened Text
  import opened Sums
  import opened Forest
  import opened Drive
  import opened Snapshots
  import opened SnapshotService
  import opened Restore
  import opened Sweep

  /** An item, a file version or a snapshot entry names the key. */
  ghost predicate IsNamed(db: Db, k: Key) {
    || (exists x :: x in db.items && db.items[x].key == Some(k))
    || (exists v :: v in db.versions && db.versions[v].key == k)
    || (exists i, x :: 0 <= i < |db.snapshots| && x in db.snapshots[i].entries &&
                       db.snapshots[i].entries[x].key == Some(k))
  }

  lemma NamedIs(db: Db, k: Key)
    ensures k in References(db) <==> IsNamed(db, k)
  {
    if i, x :| 0 <= i < |db.snapshots| && x in db.snapshots[i].entries && db.snapshots[i].entries[x].key == Some(k) {
      assert k in EntryKeys(db.snapshots[i].entries);
    }
    if x :| x in db.items && db.items[x].key == Some(k) {
      assert k in ItemKeys(db.items);
    }
    if v :| v in db.versions && db.versions[v].key == k {
      assert k in VersionKeys(db.versions);
    }
  }

  /** Swept are the blobs that nothing names and that were written before the cutoff; spared those
      that nothing names and that were not. */
  lemma SweepIs(db: Db, cutoff: int)
    ensures forall k :: k in Orphans(db, cutoff) <==> k in db.blobs && !IsNamed(db, k) && db.blobs[k].modified < cutoff
    ensures forall k :: k in Recent(db, cutoff) <==> k in db.blobs && !IsNamed(db, k) && db.blobs[k].modified >= cutoff
    ensures FreedBy(db, cutoff) == Sum(map k | k in Orphans(db, cutoff) :: db.blobs[k].size)
  {
    hide References, IsNamed;
    forall k
      ensures k in References(db) <==> IsNamed(db, k)
    {
      NamedIs(db, k);
    }
    assert BlobSizes(db.blobs, Orphans(db, cutoff)) == map k | k in Orphans(db, cutoff) :: db.blobs[k].size;
  }

  /** A snapshot's sole keys are those that only its own entries name. */
  lemma SoleIs(db: Db, i: nat, k: Key)
    requires i < |db.snapshots|
    ensures k in SoleKeys(db, i) <==>
            IsNamed(db, k) && !IsNamed(db.(snapshots := db.snapshots[..i] + db.snapshots[i + 1..]), k)
  {
    ReferencesWithout(db, i);
    NamedIs(db, k);
    var t := db.(snapshots := db.snapshots[..i] + db.snapshots[i + 1..]);
    assert t == db.(snapshots := Without(db.snapshots, i));
    NamedIs(t, k);
    hide IsNamed, SoleKeys, References;
  }

  // ----- when a snapshot is due -----

  /** The live items are those of the entries, each in the same place, with the same name, kind and
      content. */
  ghost predicate SameDrive(items: map<Id, Item>, entries: map<Id, Entry>) {
    && (forall x :: x in entries <==> x in items && !items[x].deleted)
    && forall x :: x in entries ==>
         && items[x].parent == entries[x].parent && items[x].name == entries[x].name && items[x].kind == entries[x].kind
         && (items[x].checksum == entries[x].checksum ||
             (items[x].checksum in {None, Some("")} && entries[x].checksum in {None, Some("")}))
  }

  function SignatureOf(x: Id, parent: Option<Id>, name: string, kind: Kind, checksum: Option<string>): Signature {
    Signature(x, parent, name, kind, if checksum.Some? then checksum.value else "")
  }

  lemma SignaturesAre(items: map<Id, Item>, entries: map<Id, Entry>)
    ensures forall s :: s in ItemsSignature(items) <==>
              s.id in items && !items[s.id].deleted &&
              s == SignatureOf(s.id, items[s.id].parent, items[s.id].name, items[s.id].kind, items[s.id].checksum)
    ensures forall s :: s in EntriesSignature(entries) <==>
              s.id in entries &&
              s == SignatureOf(s.id, entries[s.id].parent, entries[s.id].name, entries[s.id].kind,
                               entries[s.id].checksum)
  {
  }

  lemma SameDriveIs(items: map<Id, Item>, entries: map<Id, Entry>)
    ensures ItemsSignature(items) == EntriesSignature(entries) <==> SameDrive(items, entries)
  {
    SignaturesAre(items, entries);
    hide ItemsSignature, EntriesSignature;
    if ItemsSignature(items) == EntriesSignature(entries) {
      forall x | x in items && !items[x].deleted
        ensures x in entries
      {
        assert SignatureOf(x, items[x].parent, items[x].name, items[x].kind, items[x].checksum)
               in ItemsSignature(items);
      }
      forall x | x in entries
        ensures SignatureOf(x, entries[x].parent, entries[x].name, entries[x].kind, entries[x].checksum) in
                ItemsSignature(items)
      {
        assert SignatureOf(x, entries[x].parent, entries[x].name, entries[x].kind, entries[x].checksum) in
               EntriesSignature(entries);
      }
    }
  }

  /** A scheduled snapshot is taken when the schedule is on, none was taken in this period, there is
      a live item, and the drive is not as the newest snapshot has it. */
  lemma DueIs(db: Db, enabled: bool, newestInPeriod: bool)
    ensures Due(db, enabled, newestInPeriod) <==>
            && enabled && (db.snapshots == [] || !newestInPeriod)
            && (exists x :: x in db.items && !db.items[x].deleted)
            && (db.snapshots == [] || !SameDrive(db.items, db.snapshots[0].entries))
  {
    if db.snapshots != [] {
      SameDriveIs(db.items, db.snapshots[0].entries);
    }
    hide ItemsSignature, EntriesSignature, SameDrive;
    if x :| x in db.items && !db.items[x].deleted {
      assert x in Live(db.items);
    }
    if forall x :: x in db.items ==> db.items[x].deleted {
      assert Live(db.items) == {};
    }
  }
}
