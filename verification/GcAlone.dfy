/** The steps of a sweep and of an upload, taken without anything in between, are the whole call. */
module GcAlone {
  import opened Text
  import opened Forest
  import opened Names
  import opened Drive
  import opened DriveService
  import opened Runs
  import opened Gc
  import opened GcTiming
  import opened Sweep

  // ----- sweeping -----

  ghost predicate Lists(ks: seq<Key>, keys: set<Key>) {
    && (forall k :: k in ks <==> k in keys)
    && forall i, j :: 0 <= i < j < |ks| ==> ks[i] != ks[j]
  }

  /** One deletion after the other. */
  function Deletions(ks: seq<Key>): seq<Event> {
    if ks == [] then [] else [GcDelete(ks[0])] + Deletions(ks[1..])
  }

  lemma {:induction false} SweepTheRest(s: Sys, ks: seq<Key>, keys: set<Key>, grace: nat)
    requires s.gc.Sweeping? && Lists(ks, keys)
    requires forall k :: k in keys ==> k !in s.gc.seen && Old(s.db, k, s.gc.base, grace)
    ensures var trace := Deletions(ks) + [GcEnd];
            && EnabledTrace(s, trace, grace)
            && AfterTrace(s, trace) == s.(db := s.db.(blobs := s.db.blobs - keys), gc := Idle)
    decreases |ks|
  {
    var trace := Deletions(ks) + [GcEnd];
    if ks == [] {
      assert trace == [GcEnd] + [] && keys == {};
      assert s.db.blobs - keys == s.db.blobs;
      Ends(s, grace);
      Prepend(s, GcEnd, [], grace);
    } else {
      var k, rest := ks[0], ks[1..];
      var t := s.(db := s.db.(blobs := s.db.blobs - {k}));
      Deletes(s, k, grace);
      forall j
        ensures j in rest <==> j in keys - {k}
      {
        if j in rest {
          var i :| 0 <= i < |rest| && rest[i] == j;
          assert ks[i + 1] == j;
        }
      }
      SweepTheRest(t, rest, keys - {k}, grace);
      assert trace == [GcDelete(k)] + (Deletions(rest) + [GcEnd]);
      hide Enabled, Next, EnabledTrace, AfterTrace;
      Prepend(s, GcDelete(k), Deletions(rest) + [GcEnd], grace);
      assert s.db.blobs - {k} - (keys - {k}) == s.db.blobs - keys;
    }
  }

  lemma Ends(s: Sys, grace: nat)
    requires s.gc.Sweeping?
    ensures Enabled(s, GcEnd, grace) && Next(s, GcEnd) == s.(gc := Idle)
    ensures EnabledTrace(s.(gc := Idle), [], grace) && AfterTrace(s.(gc := Idle), []) == s.(gc := Idle)
  {
  }

  lemma Deletes(s: Sys, k: Key, grace: nat)
    requires s.gc.Sweeping? && k !in s.gc.seen && Old(s.db, k, s.gc.base, grace)
    ensures Enabled(s, GcDelete(k), grace)
    ensures Next(s, GcDelete(k)) == s.(db := s.db.(blobs := s.db.blobs - {k}))
  {
  }

  /** The four steps before the deletions read every reference. */
  lemma Reads(s: Sys, rest: seq<Event>, grace: nat)
    requires s.gc.Idle? && EnabledTrace(s.(gc := Sweeping(s.now, References(s.db))), rest, grace)
    ensures var trace := [GcFix, GcReadItems, GcReadVersions, GcReadSnapshots] + rest;
            && EnabledTrace(s, trace, grace)
            && AfterTrace(s, trace) == AfterTrace(s.(gc := Sweeping(s.now, References(s.db))), rest)
  {
    var a := s.(gc := Fixed(s.now));
    var b := s.(gc := SawItems(s.now, ItemKeys(s.db.items)));
    var c := s.(gc := SawVersions(s.now, ItemKeys(s.db.items) + VersionKeys(s.db.versions)));
    assert Enabled(s, GcFix, grace) && Next(s, GcFix) == a;
    assert Enabled(a, GcReadItems, grace) && Next(a, GcReadItems) == b;
    assert Enabled(b, GcReadVersions, grace) && Next(b, GcReadVersions) == c;
    assert Enabled(c, GcReadSnapshots, grace);
    assert Next(c, GcReadSnapshots) == s.(gc := Sweeping(s.now, References(s.db)));
    hide Enabled, Next, EnabledTrace, AfterTrace, References, ItemKeys, VersionKeys;
    Prepend(c, GcReadSnapshots, rest, grace);
    Prepend(b, GcReadVersions, [GcReadSnapshots] + rest, grace);
    Prepend(a, GcReadItems, [GcReadVersions] + ([GcReadSnapshots] + rest), grace);
    Prepend(s, GcFix, [GcReadItems] + ([GcReadVersions] + ([GcReadSnapshots] + rest)), grace);
    assert [GcFix, GcReadItems, GcReadVersions, GcReadSnapshots] + rest
           == [GcFix] + ([GcReadItems] + ([GcReadVersions] + ([GcReadSnapshots] + rest)));
  }

  /** A sweep that nothing interrupts deletes, in any order, just what `collect_garbage` deletes. */
  lemma SweepUndisturbed(s: Sys, ks: seq<Key>, grace: nat)
    requires s.gc.Idle? && Lists(ks, Orphans(s.db, s.now - grace))
    ensures var trace := [GcFix, GcReadItems, GcReadVersions, GcReadSnapshots] + (Deletions(ks) + [GcEnd]);
            && EnabledTrace(s, trace, grace)
            && AfterTrace(s, trace) == s.(db := s.db.(blobs := s.db.blobs - Orphans(s.db, s.now - grace)))
  {
    var r := s.(gc := Sweeping(s.now, References(s.db)));
    SweepTheRest(r, ks, Orphans(s.db, s.now - grace), grace);
    Reads(s, Deletions(ks) + [GcEnd], grace);
  }

  /** And no other blob can be deleted then. */
  lemma OnlyOrphansGo(s: Sys, k: Key, grace: nat)
    ensures var r := s.(gc := Sweeping(s.now, References(s.db)));
            Enabled(r, GcDelete(k), grace) <==> k in Orphans(s.db, s.now - grace)
  {
    hide References;
  }

  // ----- uploading -----

  ghost predicate CanStart(s: Sys, op: Op) {
    && op.UploadFile? && Possible(s.db, op) && op.now == s.now
    && op.key !in s.pending && forall k :: k in s.pending ==> s.pending[k].file != op.file
  }

  lemma TwoEvents(s: Sys, a: Event, b: Event, grace: nat)
    requires Enabled(s, a, grace) && Enabled(Next(s, a), b, grace)
    ensures EnabledTrace(s, [a, b], grace) && AfterTrace(s, [a, b]) == Next(Next(s, a), b)
  {
    assert EnabledTrace(Next(Next(s, a), b), [], grace) && AfterTrace(Next(Next(s, a), b), []) == Next(Next(s, a), b);
    hide Enabled, Next;
    Prepend(Next(s, a), b, [], grace);
    assert [b] + [] == [b] && [a] + [b] == [a, b];
    Prepend(s, a, [b], grace);
  }

  lemma Writes(s: Sys, file: Id, key: Key, size: nat, grace: nat)
    requires file !in s.db.kinds && key !in s.db.owners && key !in s.db.blobs
    requires forall k :: k in s.pending ==> s.pending[k].file != file
    ensures Enabled(s, Write(file, key, size), grace)
    ensures Next(s, Write(file, key, size)) ==
            s.(db := WriteBlob(s.db, file, key, size, s.now), pending := s.pending[key := Pending(file, s.now, size)])
  {
  }

  /** An upload that succeeds and that nothing interrupts is its blob and then its rows. */
  lemma UploadUndisturbed(s: Sys, op: Op, grace: nat)
    requires CanStart(s, op) && s.gc.Idle?
    requires Upload(s.db, op.file, op.version, op.place, op.name, op.declared, op.key, op.size, op.checksum,
                    op.now).Done?
    ensures var name := Step(s.db, op).items[op.file].name;
            var trace := [Write(op.file, op.key, op.size), Commit(op.key, op.version, op.place, name, op.checksum)];
            EnabledTrace(s, trace, grace) && AfterTrace(s, trace) == s.(db := Step(s.db, op))
  {
    var name := Step(s.db, op).items[op.file].name;
    var t := Next(s, Write(op.file, op.key, op.size));
    Writes(s, op.file, op.key, op.size, grace);
    Uploads(s.db, op, name);
    Commits(t, op.key, op.version, op.place, name, op.checksum, grace);
    assert t.pending - {op.key} == s.pending;
    hide Enabled, Next, Upload, CommitUpload, Step;
    TwoEvents(s, Write(op.file, op.key, op.size), Commit(op.key, op.version, op.place, name, op.checksum), grace);
  }

  lemma Uploads(db: Db, op: Op, name: string)
    requires op.UploadFile? && op.file !in db.kinds
    requires Upload(db, op.file, op.version, op.place, op.name, op.declared, op.key, op.size, op.checksum, op.now).Done?
    requires op.file in Step(db, op).items && name == Step(db, op).items[op.file].name
    ensures Step(db, op) == CommitUpload(WriteBlob(db, op.file, op.key, op.size, op.now), op.file, op.version, op.place,
                                         name, op.key, op.checksum)
    ensures IsFolderPlace(db.items, op.place)
  {
    hide FreeName, IsFreeName, ValidName, SplitName, NamesIn;
  }

  lemma Commits(s: Sys, key: Key, version: Id, place: Option<Id>, name: string, checksum: string, grace: nat)
    requires s.gc.Idle? && key in s.pending && version !in s.db.versions && IsFolderPlace(s.db.items, place)
    requires key in s.db.blobs && s.db.blobs[key] == Blob(s.pending[key].size, s.pending[key].written)
    ensures Enabled(s, Commit(key, version, place, name, checksum), grace)
    ensures Next(s, Commit(key, version, place, name, checksum)) ==
            s.(db := CommitUpload(s.db, s.pending[key].file, version, place, name, key, checksum),
               pending := s.pending - {key})
  {
    assert s.db.blobs[key := s.db.blobs[key]] == s.db.blobs;
  }

  /** One that fails leaves only its key used up. */
  lemma UploadFails(s: Sys, file: Id, key: Key, size: nat, grace: nat)
    requires file !in s.db.kinds && key !in s.db.owners && key !in s.db.blobs && key !in s.pending
    requires forall k :: k in s.pending ==> s.pending[k].file != file
    ensures var trace := [Write(file, key, size), Fail(key)];
            EnabledTrace(s, trace, grace) && AfterTrace(s, trace) == s.(db := s.db.(owners := s.db.owners[key := file]))
  {
    var t := Next(s, Write(file, key, size));
    Writes(s, file, key, size, grace);
    TwoEvents(s, Write(file, key, size), Fail(key), grace);
    hide Enabled, EnabledTrace, AfterTrace;
    assert t.pending - {key} == s.pending && t.db.blobs - {key} == s.db.blobs;
  }
}
