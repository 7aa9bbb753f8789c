/** The chunked upload service, call by call, on the session tables and the blob store. */
module UploadService {
  import opened Text
  import opened Sets
  import opened Sums
  import opened Forest
  import opened Names
  import opened Drive
  import opened DriveService
  import opened Store
  import opened Upload
  import opened UploadLaws

  const BUFFER_SIZE := 65536

  function Why(r: Reply): Option<Refusal> {
    if r.Accepted? then None else Some(r.why)
  }

  /** The named blobs joined in the order listed. */
  function JoinAll(temp: map<ChunkId, Bytes>, keys: seq<ChunkId>): Bytes {
    if keys == [] then [] else JoinAll(temp, keys[..|keys| - 1]) + ChunkData(temp, keys[|keys| - 1])
  }

  function ChunkIds(sid: SessionId, indexes: seq<nat>): seq<ChunkId> {
    seq(|indexes|, i requires 0 <= i < |indexes| => ChunkId(sid, indexes[i]))
  }

  ghost predicate Ascending(xs: seq<nat>) {
    forall i, j :: 0 <= i < j < |xs| ==> xs[i] < xs[j]
  }

  /** An ascending list of exactly the numbers below `n` is 0, 1, ..., n - 1. */
  lemma {:induction false} AscendingIsIdentity(xs: seq<nat>, n: nat)
    requires Ascending(xs) && forall i: nat :: i in xs <==> i < n
    ensures |xs| == n && forall i: nat :: i < n ==> xs[i] == i
    decreases |xs|
  {
    if xs == [] {
      assert 0 !in xs;
    } else {
      assert xs[|xs| - 1] in xs;
      var init := xs[..|xs| - 1];
      LastOfAscending(xs, init, n);
      AscendingIsIdentity(init, n - 1);
      assert forall i: nat :: i < n - 1 ==> xs[i] == init[i];
    }
  }

  lemma LastOfAscending(xs: seq<nat>, init: seq<nat>, n: nat)
    requires n > 0 && Ascending(xs) && (forall i: nat :: i in xs <==> i < n)
    requires xs != [] && init == xs[..|xs| - 1]
    ensures xs[|xs| - 1] == n - 1
    ensures Ascending(init) && forall i: nat :: i in init <==> i < n - 1
  {
    var last := |xs| - 1;
    assert n - 1 in xs && xs[last] in xs;
    assert xs == init + [xs[last]];
    forall i: nat | i in init
      ensures i < n - 1
    {
      var j :| 0 <= j < last && xs[j] == i;
      assert xs[last] < n;
    }
    forall i: nat | i < n - 1
      ensures i in init
    {
      assert i in xs;
    }
  }

  lemma {:induction false} JoinsInOrder(temp: map<ChunkId, Bytes>, sid: SessionId, indexes: seq<nat>, n: nat)
    requires |indexes| == n && forall i: nat :: i < n ==> indexes[i] == i
    ensures JoinAll(temp, ChunkIds(sid, indexes)) == Joined(temp, sid, n)
    decreases n
  {
    if n > 0 {
      var keys := ChunkIds(sid, indexes);
      assert keys[..n - 1] == ChunkIds(sid, indexes[..n - 1]);
      JoinsInOrder(temp, sid, indexes[..n - 1], n - 1);
    }
  }

  class UploadSessions {
    const store: Store
    const limits: Limits
    var sessions: map<SessionId, Session>
    var rows: map<ChunkId, nat>
    var temp: map<ChunkId, Bytes>
    var contents: map<Key, Bytes>
    var flights: map<Flight, Stage>

    constructor (store: Store, limits: Limits)
      ensures this.store == store && this.limits == limits
      ensures Now() == Desk(store.Now(), map[], map[], map[], map[], map[])
    {
      this.store, this.limits := store, limits;
      sessions, rows, temp, contents, flights := map[], map[], map[], map[], map[];
    }

    ghost function Now(): Desk
      reads this, store
    {
      Desk(store.Now(), sessions, rows, temp, contents, flights)
    }

    /** `sum_active_total_size` */
    method SumActiveTotalSize() returns (n: nat)
      ensures n == Reserved(sessions)
    {
      n := 0;
      var rest := ActiveSizes(sessions);
      while rest != map[]
        invariant n + Sum(rest) == Reserved(sessions)
        decreases |rest|
      {
        var s :| s in rest;
        SumTake(rest, s);
        n := n + rest[s];
        rest := rest - {s};
      }
    }

    method CreateSession(sid: SessionId, parent: Option<Id>, rawName: string, totalSize: nat, expires: nat)
      returns (refusal: Option<Refusal>)
      modifies this`sessions
      ensures var r := Upload.CreateSession(old(Now()), sid, parent, rawName, totalSize, expires, limits);
              Now() == Settled(old(Now()), r) && refusal == Why(r)
    {
      var name := ValidName(rawName);
      if name.None? {
        return Some(BadName);
      }
      if totalSize > limits.maxFileSize {
        return Some(TooLarge);
      }
      var place := PlaceError(store.items, parent);
      if place.Some? {
        return Some(BadPlace(place.value));
      }
      var reserved := SumActiveTotalSize();
      if store.quota - store.used < totalSize + reserved {
        return Some(NoSpace);
      }
      CeilDivIs(totalSize, limits.chunkSize);
      var totalChunks := -((0 - totalSize) / limits.chunkSize);
      sessions := sessions[sid := Session(parent, name.value, totalSize, limits.chunkSize, totalChunks,
                                          Pending, expires)];
      refusal := None;
    }

    /** The checks of `upload_chunk`; the request keeps what it saw of the session. */
    method BeginChunk(sid: SessionId, index: int, attempt: nat) returns (refusal: Option<Refusal>)
      modifies this`flights
      ensures refusal == ChunkRefused(old(Now()), sid, index)
      ensures Now() == if refusal.Some? then old(Now())
                       else Upload.BeginChunk(old(Now()), Flight(ChunkId(sid, index), attempt))
    {
      if sid !in sessions {
        return Some(NoSession);
      }
      var session := sessions[sid];
      if Terminal(session.status) {
        return Some(AlreadyTerminal);
      }
      if index < 0 || index >= session.totalChunks {
        return Some(OutOfRange);
      }
      flights := flights[Flight(ChunkId(sid, index), attempt) := Streaming(session.status.Pending?)];
      refusal := None;
    }

    /** `save_stream` has returned: the blob replaces an earlier attempt's. */
    method LandChunk(f: Flight, data: Bytes)
      requires f in flights
      modifies this`temp, this`flights
      ensures Now() == Upload.LandChunk(old(Now()), f, data)
    {
      temp := temp[f.chunk := data];
      flights := flights[f := Landed(flights[f].wasPending, |data|)];
    }

    /** The rest of `upload_chunk`: the row, then the status. */
    method RecordChunk(f: Flight)
      requires f in flights && flights[f].Landed?
      modifies this`rows, this`sessions, this`flights
      ensures Now() == Upload.RecordChunk(old(Now()), f)
    {
      var stage := flights[f];
      flights := flights - {f};
      var sid := f.chunk.session;
      if sid !in sessions {
        return;
      }
      rows := rows[f.chunk := stage.size];
      if stage.wasPending {
        sessions := sessions[sid := sessions[sid].(status := Uploading)];
      }
    }

    /** `upload_chunk` without interruption. */
    method UploadChunk(sid: SessionId, index: int, data: Bytes, attempt: nat) returns (refusal: Option<Refusal>)
      requires index >= 0 ==> Flight(ChunkId(sid, index), attempt) !in flights
      modifies this
      ensures var r := Upload.UploadChunk(old(Now()), sid, index, data);
              Now() == Settled(old(Now()), r) && refusal == Why(r)
    {
      ghost var desk := Now();
      refusal := BeginChunk(sid, index, attempt);
      if refusal.None? {
        UploadIsThreeSteps(desk, sid, index, data, attempt);
        var f := Flight(ChunkId(sid, index), attempt);
        LandChunk(f, data);
        RecordChunk(f);
      }
    }

    /** The foreign key to the target folder, ON DELETE SET NULL, after item rows have gone. */
    method ForgetFolders()
      modifies this`sessions
      ensures Now() == old(Now()).(sessions := Unplaced(old(sessions), store.items))
    {
      var todo := sessions.Keys;
      ghost var before := sessions;
      while todo != {}
        invariant todo <= before.Keys && sessions.Keys == before.Keys
        invariant forall sid :: sid in before ==>
                    sessions[sid] == if sid in todo then before[sid] else UnplacedSession(before[sid], store.items)
        decreases todo
      {
        var sid :| sid in todo;
        var session := sessions[sid];
        if session.parent.Some? && session.parent.value !in store.items {
          sessions := sessions[sid := session.(parent := None)];
        }
        todo := todo - {sid};
      }
    }

    /** `list_chunks`: the indexes of the session's rows, ascending. */
    method ListChunks(sid: SessionId) returns (indexes: seq<nat>)
      requires sid in sessions
      requires forall c :: c in rows && c.session == sid ==> c.index < sessions[sid].totalChunks
      ensures Ascending(indexes) && forall i: nat :: i in indexes <==> ChunkId(sid, i) in rows
    {
      indexes := [];
      for i := 0 to sessions[sid].totalChunks
        invariant Ascending(indexes)
        invariant forall k: nat :: k in indexes <==> k < i && ChunkId(sid, k) in rows
      {
        if ChunkId(sid, i) in rows {
          assert forall k :: 0 <= k < |indexes| ==> indexes[k] in indexes;
          indexes := indexes + [i];
        }
      }
      forall k: nat | ChunkId(sid, k) in rows
        ensures k < sessions[sid].totalChunks
      {
        assert ChunkId(sid, k).session == sid;
      }
    }

    /** How many indexes of the session are not among `present`. */
    method CountMissing(total: nat, present: seq<nat>) returns (missing: nat)
      ensures missing == |set i: nat | i < total && i !in present|
    {
      missing := 0;
      ghost var found: set<nat> := {};
      for i := 0 to total
        invariant found == (set k: nat | k < i && k !in present) && missing == |found|
      {
        if i !in present {
          missing := missing + 1;
          found := found + {i};
        }
      }
    }

    /** `concat`: when every source exists, copies them in order through a fixed-size buffer. */
    method Concat(keys: seq<ChunkId>) returns (merged: Option<Bytes>, written: nat)
      ensures merged.Some? <==> forall k :: k in keys ==> k in temp
      ensures merged.Some? ==> merged.value == JoinAll(temp, keys) && written == |merged.value|
    {
      for i := 0 to |keys|
        invariant forall j :: 0 <= j < i ==> keys[j] in temp
      {
        if keys[i] !in temp {
          return None, 0;
        }
      }
      var out, n := CopyAll(keys);
      merged, written := Some(out), n;
    }

    method CopyAll(keys: seq<ChunkId>) returns (merged: Bytes, written: nat)
      ensures merged == JoinAll(temp, keys) && written == |merged|
    {
      merged, written := [], 0;
      for i := 0 to |keys|
        invariant merged == JoinAll(temp, keys[..i]) && written == |merged|
      {
        var source := ChunkData(temp, keys[i]);
        var position := 0;
        while true
          invariant 0 <= position <= |source|
          invariant merged == JoinAll(temp, keys[..i]) + source[..position] && written == |merged|
          decreases |source| - position
        {
          var end := if position + BUFFER_SIZE < |source| then position + BUFFER_SIZE else |source|;
          var buf := source[position..end];
          if buf == [] {
            break;
          }
          assert source[..end] == source[..position] + buf;
          merged := merged + buf;
          written := written + |buf|;
          position := end;
        }
        assert source[..position] == source;
        assert keys[..i + 1][..i] == keys[..i];
      }
      assert keys[..|keys|] == keys;
    }

    /** `_discard_chunks`: the listed blobs, then the session's rows. */
    method DiscardChunks(sid: SessionId, indexes: seq<nat>)
      requires forall i: nat :: i in indexes <==> ChunkId(sid, i) in rows
      modifies this`temp, this`rows
      ensures temp == old(temp) - Listed(old(rows), sid) && rows == WithoutSession(old(rows), sid)
    {
      ghost var before := temp;
      ListedChunks(rows, sid, indexes);
      if indexes == [] {
        NothingToDiscard(rows, sid);
        return;
      }
      for k := 0 to |indexes|
        invariant rows == old(rows) && temp == before - SetOf(ChunkIds(sid, indexes[..k]))
      {
        temp := temp - {ChunkId(sid, indexes[k])};
        assert ChunkIds(sid, indexes[..k + 1]) == ChunkIds(sid, indexes[..k]) + [ChunkId(sid, indexes[k])];
      }
      assert indexes[..|indexes|] == indexes;
      rows := WithoutSession(rows, sid);
    }

    /** When the rows of the new item cannot be written, the merged blob is removed again. */
    method CompleteSession(sid: SessionId, file: Id, version: Id, key: Key, checksum: string, now: nat,
                           rowsFail: bool) returns (refusal: Option<Refusal>)
      requires DeskInv(Now())
      requires file !in store.kinds && version !in store.versions && key !in store.owners && key !in store.blobs
      requires key !in contents
      modifies this, store
      ensures var r := Upload.CompleteSession(old(Now()), sid, file, version, key, checksum, now);
              if r.Accepted? && rowsFail then Now() == KeyUsed(old(Now()), key, file) && refusal == Some(RowsFailed)
              else Now() == Settled(old(Now()), r) && refusal == Why(r)
    {
      hide Inv, Joined, CeilDiv, FreeName, IsFreeName;
      if sid !in sessions {
        return Some(NoSession);
      }
      var session := sessions[sid];
      if Terminal(session.status) {
        return Some(AlreadyTerminal);
      }
      ghost var desk := Now();
      RowsOfSession(desk, sid);
      var present := ListChunks(sid);
      var missing := CountMissing(session.totalChunks, present);
      MissingCount(desk, sid, present);
      if missing > 0 {
        return Some(Incomplete(missing));
      }
      AscendingIsIdentity(present, session.totalChunks);
      JoinsInOrder(temp, sid, present, session.totalChunks);
      AllListed(desk, sid, present);
      var merged, written := Concat(ChunkIds(sid, present));
      if merged.None? {
        return Some(BlobGone);
      }
      refusal := FinishMerged(desk, sid, present, merged.value, file, version, key, checksum, now, rowsFail);
    }

    method FinishMerged(ghost desk: Desk, sid: SessionId, present: seq<nat>, merged: Bytes, file: Id, version: Id,
                        key: Key, checksum: string, now: nat, rowsFail: bool) returns (refusal: Option<Refusal>)
      requires desk == Now() && DeskInv(desk) && sid in sessions && !Terminal(sessions[sid].status)
      requires MissingChunks(desk, sid) == {} && AllStored(desk, sid)
      requires merged == Joined(temp, sid, sessions[sid].totalChunks)
      requires forall i: nat :: i in present <==> ChunkId(sid, i) in rows
      requires key !in contents && key !in store.blobs
      modifies this, store
      ensures if rowsFail then Now() == KeyUsed(desk, key, file) && refusal == Some(RowsFailed)
              else Now() == Settled(desk, Upload.CompleteSession(desk, sid, file, version, key, checksum, now)) &&
                   refusal.None?
    {
      hide Inv, Joined, CeilDiv, FileCreated, DeskOk, MissingChunks, AllStored, Upload.CompleteSession;
      contents := contents[key := merged];
      SaveBlob(store, file, key, |merged|, now);
      if rowsFail {
        contents := contents - {key};
        store.blobs := store.blobs - {key};
        assert contents == desk.contents && store.blobs == desk.db.blobs;
        return Some(RowsFailed);
      }
      CommitMerged(desk, sid, present, file, version, key, |merged|, checksum, now);
      Committed(desk, sid, file, version, key, checksum, now);
      refusal := None;
    }

    /** The item, then the chunks, then the status. */
    method CommitMerged(ghost desk: Desk, sid: SessionId, present: seq<nat>, file: Id, version: Id, key: Key,
                        size: nat, checksum: string, now: nat)
      requires DeskInv(desk) && sid in desk.sessions
      requires store.Now() == WriteBlob(desk.db, file, key, size, now)
      requires Now() == desk.(db := store.Now(), contents := contents)
      requires forall i: nat :: i in present <==> ChunkId(sid, i) in rows
      modifies this, store
      ensures Now() == SetStatus(Upload.DiscardChunks(
                desk.(db := FileCreated(desk.db, desk.sessions[sid], file, version, key, size, checksum, now),
                      contents := old(contents)), sid), sid, Completed)
    {
      hide Inv, CeilDiv, FileCreated;
      var session := sessions[sid];
      assert SessionOk(desk.db, session);
      hide DeskInv;
      CreateItem(desk.db, session, file, version, key, size, checksum, now);
      DiscardChunks(sid, present);
      sessions := sessions[sid := session.(status := Completed)];
    }

    /** `_create_item`: the name is chosen now, not when the session was opened. */
    method CreateItem(ghost db: Db, session: Session, file: Id, version: Id, key: Key, size: nat, checksum: string,
                      now: nat)
      requires store.Now() == WriteBlob(db, file, key, size, now)
      requires session.parent.Some? ==> session.parent.value in store.items
      modifies store
      ensures store.Now() == FileCreated(db, session, file, version, key, size, checksum, now)
    {
      hide FreeName, IsFreeName;
      var (stem, ext) := SplitName(session.filename);
      var name := ResolveConflict(NamesIn(store.items, session.parent, None), session.filename, stem, ext);
      CreateFileRows(store, file, version, session.parent, name, key, checksum);
    }

    method CancelSession(sid: SessionId) returns (refusal: Option<Refusal>)
      requires DeskOk(Now())
      modifies this
      ensures var r := Upload.CancelSession(old(Now()), sid);
              Now() == Settled(old(Now()), r) && refusal == Why(r)
    {
      if sid !in sessions {
        return Some(NoSession);
      }
      var session := sessions[sid];
      if session.status.Completed? {
        return Some(AlreadyTerminal);
      }
      if session.status.Cancelled? {
        return None;
      }
      RowsOfSession(Now(), sid);
      var indexes := ListChunks(sid);
      DiscardChunks(sid, indexes);
      sessions := sessions[sid := session.(status := Cancelled)];
      refusal := None;
    }

    /** `cleanup_expired`: every active session past its retention goes with its chunks. */
    method CleanupExpired(now: nat) returns (n: nat)
      requires DeskInv(Now())
      modifies this
      ensures Now() == Cleaned(old(Now()), Expired(old(sessions), now)) && n == |Expired(old(sessions), now)|
    {
      hide Inv, CeilDiv;
      ghost var desk := Now();
      var expired := Expired(sessions, now);
      var todo := expired;
      n := |expired|;
      CleanNothing(desk);
      hide DeskInv, Expired, Cleaned;
      while todo != {}
        invariant todo <= expired && expired <= desk.sessions.Keys
        invariant Now() == Cleaned(desk, expired - todo)
        decreases todo
      {
        var sid :| sid in todo;
        CleanUpKeeps(desk, expired - todo);
        CleanOne(desk, expired - todo, sid);
        StillThere(desk, expired - todo, sid);
        CleanSession(sid);
        assert expired - (todo - {sid}) == expired - todo + {sid};
        todo := todo - {sid};
      }
      assert expired - todo == expired;
    }

    /** One expired session with its chunks. */
    method CleanSession(sid: SessionId)
      requires DeskInv(Now()) && sid in sessions
      modifies this
      ensures Now() == old(Now()).(sessions := old(sessions) - {sid}, rows := WithoutSession(old(rows), sid),
                                   temp := old(temp) - Listed(old(rows), sid))
    {
      hide Inv, CeilDiv;
      RowsOfSession(Now(), sid);
      var indexes := ListChunks(sid);
      DiscardChunks(sid, indexes);
      sessions := sessions - {sid};
    }
  }

  lemma Committed(d: Desk, sid: SessionId, file: Id, version: Id, key: Key, checksum: string, now: nat)
    requires sid in d.sessions && !Terminal(d.sessions[sid].status)
    requires MissingChunks(d, sid) == {} && AllStored(d, sid)
    ensures var s := d.sessions[sid];
            var content := Joined(d.temp, sid, s.totalChunks);
            var made := d.(db := FileCreated(d.db, s, file, version, key, |content|, checksum, now),
                           contents := d.contents[key := content]);
            Upload.CompleteSession(d, sid, file, version, key, checksum, now) ==
            Accepted(SetStatus(Upload.DiscardChunks(made, sid), sid, Completed))
  {
    hide Joined, FileCreated;
  }

  lemma StillThere(d: Desk, gone: set<SessionId>, sid: SessionId)
    requires sid in d.sessions && sid !in gone
    ensures sid in Cleaned(d, gone).sessions
  {
  }

  lemma NothingToDiscard(m: map<ChunkId, nat>, sid: SessionId)
    requires forall i: nat :: ChunkId(sid, i) !in m
    ensures WithoutSession(m, sid) == m
  {
    forall c | c in m
      ensures c.session != sid
    {
      assert c == ChunkId(c.session, c.index);
    }
  }

  lemma ListedChunks(rows: map<ChunkId, nat>, sid: SessionId, indexes: seq<nat>)
    requires forall i: nat :: i in indexes <==> ChunkId(sid, i) in rows
    ensures SetOf(ChunkIds(sid, indexes)) == Listed(rows, sid)
  {
    var ids := ChunkIds(sid, indexes);
    forall c
      ensures c in SetOf(ids) <==> c in Listed(rows, sid)
    {
      if c in Listed(rows, sid) {
        assert c == ChunkId(sid, c.index);
        var k :| 0 <= k < |indexes| && indexes[k] == c.index;
        assert ids[k] == c;
      }
      if c in ids {
        var k :| 0 <= k < |indexes| && ids[k] == c;
        assert indexes[k] in indexes;
      }
    }
  }

  /** The drive and the sessions are as before; only the key has been issued. */
  ghost function KeyUsed(d: Desk, key: Key, file: Id): Desk {
    d.(db := d.db.(owners := d.db.owners[key := file]))
  }

  lemma AllListed(d: Desk, sid: SessionId, present: seq<nat>)
    requires sid in d.sessions && |present| == d.sessions[sid].totalChunks
    requires forall i: nat :: i < |present| ==> present[i] == i
    ensures AllStored(d, sid) <==> forall k :: k in ChunkIds(sid, present) ==> k in d.temp
  {
    var ids := ChunkIds(sid, present);
    assert forall i: nat :: i < |present| ==> ids[i] == ChunkId(sid, i) && ids[i] in ids;
  }

  lemma RowsOfSession(d: Desk, sid: SessionId)
    requires DeskOk(d) && sid in d.sessions
    ensures forall c :: c in d.rows && c.session == sid ==> c.index < d.sessions[sid].totalChunks
  {
    forall c | c in d.rows && c.session == sid
      ensures c.index < d.sessions[sid].totalChunks
    {
      assert InRange(d, c);
    }
  }

  lemma MissingCount(d: Desk, sid: SessionId, present: seq<nat>)
    requires DeskOk(d) && sid in d.sessions
    requires forall i: nat :: i in present <==> ChunkId(sid, i) in d.rows
    ensures MissingChunks(d, sid) == (set i: nat | i < d.sessions[sid].totalChunks && i !in present)
    ensures |MissingChunks(d, sid)| == 0 ==> forall i: nat :: i in present <==> i < d.sessions[sid].totalChunks
  {
    RowsOfSession(d, sid);
    if |MissingChunks(d, sid)| == 0 {
      forall i: nat
        ensures i in present <==> i < d.sessions[sid].totalChunks
      {
        assert i !in MissingChunks(d, sid);
        assert ChunkId(sid, i).session == sid;
      }
    }
  }

  lemma CleanNothing(d: Desk)
    ensures Cleaned(d, {}) == d
  {
    assert d.sessions - {} == d.sessions;
    assert WithoutSessions(d.rows, {}) == d.rows;
    assert d.temp - ListedIn(d.rows, {}) == d.temp;
  }

  lemma CleanOne(d: Desk, gone: set<SessionId>, sid: SessionId)
    requires sid !in gone
    ensures var t := Cleaned(d, gone);
            Cleaned(d, gone + {sid}) ==
            t.(sessions := t.sessions - {sid}, rows := WithoutSession(t.rows, sid),
               temp := t.temp - Listed(t.rows, sid))
  {
    var t := Cleaned(d, gone);
    assert d.sessions - (gone + {sid}) == t.sessions - {sid};
    assert WithoutSessions(d.rows, gone + {sid}) == WithoutSession(t.rows, sid);
    assert ListedIn(d.rows, gone + {sid}) == ListedIn(d.rows, gone) + Listed(t.rows, sid);
    assert d.temp - ListedIn(d.rows, gone + {sid}) == t.temp - Listed(t.rows, sid);
  }
}
