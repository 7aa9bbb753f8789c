/** What each upload session call leaves behind, and when it is refused. */
module UploadEffects {
  import opened Text
  import opened Sums
  import opened Forest
  import opened Names
  import opened Drive
  import opened Upload
  import opened DriveEffects

  predicate Active(s: Session) {
    s.status == Pending || s.status == Uploading
  }

  /** The bytes promised are the declared sizes of the active sessions. */
  lemma PromisedIs(sessions: map<SessionId, Session>)
    ensures Reserved(sessions) == Sum(map s | s in sessions && Active(sessions[s]) :: sessions[s].totalSize)
  {
    assert ActiveSizes(sessions) == map s | s in sessions && Active(sessions[s]) :: sessions[s].totalSize;
    hide Sum;
  }

  /** Opening a session: a good name, not too large, a live folder or the root, and room beside what
      is used and promised. It adds a pending session with the least number of chunks. */
  lemma CreateSessionIs(d: Desk, sid: SessionId, place: Option<Id>, raw: string, size: nat, expires: nat,
                        limits: Limits)
    ensures var r := CreateSession(d, sid, place, raw, size, expires, limits);
            if !GoodName(Strip(raw)) then r == Refused(BadName)
            else if size > limits.maxFileSize then r == Refused(TooLarge)
            else if PlaceFault(d.db.items, place).Some? then r == Refused(BadPlace(PlaceFault(d.db.items, place).value))
            else if d.db.used + Reserved(d.sessions) + size > d.db.quota then r == Refused(NoSpace)
            else
              && r.Accepted? && sid in r.desk.sessions
              && var n := r.desk.sessions[sid].totalChunks;
                 && r.desk == d.(sessions := d.sessions[sid := Session(place, Strip(raw), size, limits.chunkSize, n,
                                                                      Pending, expires)])
                 && n * limits.chunkSize >= size && (n == 0 || (n - 1) * limits.chunkSize < size)
  {
    NameIs(raw);
    CeilDivIs(size, limits.chunkSize);
    CeilDivBounds(size, limits.chunkSize);
    hide ValidName, Strip, Reserved, CeilDiv;
  }

  /** Sending a chunk needs an active session and an index below its number of chunks; it stores the
      bytes, records their number and marks the session uploading. */
  lemma UploadChunkIs(d: Desk, sid: SessionId, index: int, data: Bytes)
    ensures UploadChunk(d, sid, index, data) ==
            if sid !in d.sessions then Refused(NoSession)
            else if !Active(d.sessions[sid]) then Refused(AlreadyTerminal)
            else if !(0 <= index < d.sessions[sid].totalChunks) then Refused(OutOfRange)
            else Accepted(d.(temp := d.temp[ChunkId(sid, index) := data], rows := d.rows[ChunkId(sid, index) := |data|],
                             sessions := d.sessions[sid := d.sessions[sid].(status := Uploading)]))
  {
    if sid in d.sessions && d.sessions[sid].status == Uploading {
      assert d.sessions[sid := d.sessions[sid].(status := Uploading)] == d.sessions;
    }
  }

  /** A request that has been checked remembers whether the session was pending; its bytes land in
      the chunk's blob; its row is written if the session is still there, whatever became of it. */
  lemma ChunkStepsAre(d: Desk, f: Flight, data: Bytes, limits: Limits)
    ensures var sid, index := f.chunk.session, f.chunk.index;
            Next(d, Begin(f), limits) ==
            if sid in d.sessions && Active(d.sessions[sid]) && index < d.sessions[sid].totalChunks
            then d.(flights := d.flights[f := Streaming(d.sessions[sid].status == Pending)]) else d
    ensures f in d.flights ==>
              Next(d, Land(f, data), limits) ==
              d.(temp := d.temp[f.chunk := data], flights := d.flights[f := Landed(d.flights[f].wasPending, |data|)])
    ensures f in d.flights && d.flights[f].Landed? ==>
              var sid := f.chunk.session;
              Next(d, Record(f), limits) ==
              if sid !in d.sessions then d.(flights := d.flights - {f})
              else d.(flights := d.flights - {f}, rows := d.rows[f.chunk := d.flights[f].size],
                      sessions := if d.flights[f].wasPending
                                  then d.sessions[sid := d.sessions[sid].(status := Uploading)] else d.sessions)
    ensures f in d.flights ==> f !in Next(d, Drop(f), limits).flights && Next(d, Drop(f), limits).temp == d.temp
  {
  }

  /** `rest` are the rows, or the blobs, without the chunks of one session; a blob goes only with its
      row. */
  ghost predicate Discards(d: Desk, sid: SessionId, t: Desk) {
    && (forall c :: c in t.rows <==> c in d.rows && c.session != sid)
    && (forall c :: c in t.rows ==> t.rows[c] == d.rows[c])
    && (forall c :: c in t.temp <==> c in d.temp && !(c in d.rows && c.session == sid))
    && (forall c :: c in t.temp ==> t.temp[c] == d.temp[c])
  }

  /** Completing needs an active session, a row for every index and a blob for every row. It creates
      the merged file in the session's place under a free name, discards the chunks and marks the
      session completed. */
  lemma CompleteIs(d: Desk, sid: SessionId, file: Id, version: Id, key: Key, checksum: string, now: nat)
    ensures var r := CompleteSession(d, sid, file, version, key, checksum, now);
            if sid !in d.sessions then r == Refused(NoSession)
            else if !Active(d.sessions[sid]) then r == Refused(AlreadyTerminal)
            else
              var s := d.sessions[sid];
              var missing := set i: nat | i < s.totalChunks && ChunkId(sid, i) !in d.rows;
              if missing != {} then r == Refused(Incomplete(|missing|))
              else if exists i: nat :: i < s.totalChunks && ChunkId(sid, i) !in d.temp then r == Refused(BlobGone)
              else r.Accepted? && Completes(d, sid, file, version, key, checksum, now, r.desk)
  {
    hide Joined, FileCreated, FileAdded, Discards;
    if sid in d.sessions && Active(d.sessions[sid]) {
      var s := d.sessions[sid];
      assert MissingChunks(d, sid) == set i: nat | i < s.totalChunks && ChunkId(sid, i) !in d.rows;
      if MissingChunks(d, sid) == {} && AllStored(d, sid) {
        CompletesIt(d, sid, file, version, key, checksum, now);
      }
      hide MissingChunks, Completes;
    }
  }

  lemma CompletesIt(d: Desk, sid: SessionId, file: Id, version: Id, key: Key, checksum: string, now: nat)
    requires sid in d.sessions && Active(d.sessions[sid]) && MissingChunks(d, sid) == {} && AllStored(d, sid)
    ensures var r := CompleteSession(d, sid, file, version, key, checksum, now);
            r.Accepted? && Completes(d, sid, file, version, key, checksum, now, r.desk)
  {
    var s := d.sessions[sid];
    hide Joined, FileCreated, FileAdded, MissingChunks, AllStored, Discards;
    MergedFile(d.db, s, file, version, key, |Joined(d.temp, sid, s.totalChunks)|, checksum, now);
    DiscardIs(d, sid);
    SameDiscard(d, DiscardChunks(d, sid), sid, CompleteSession(d, sid, file, version, key, checksum, now).desk);
  }

  lemma DiscardIs(d: Desk, sid: SessionId)
    ensures Discards(d, sid, DiscardChunks(d, sid))
  {
  }

  lemma SameDiscard(d: Desk, t: Desk, sid: SessionId, u: Desk)
    requires Discards(d, sid, t) && u.rows == t.rows && u.temp == t.temp
    ensures Discards(d, sid, u)
  {
  }

  /** `t` has the merged file. */
  ghost predicate FileAdded(db: Db, s: Session, file: Id, version: Id, key: Key, size: nat, checksum: string, now: nat,
                            t: Db) {
    && file in t.items && SettlesOn(db.items, s.parent, s.filename, t.items[file].name)
    && var row := Item(s.parent, File, t.items[file].name, size, Some(key), Some(checksum), false);
    && t == db.(items := db.items[file := row],
                versions := db.versions[version := Version(file, key, size)],
                blobs := db.blobs[key := Blob(size, now)], used := db.used + size,
                kinds := db.kinds[file := File], owners := db.owners[key := file])
  }

  lemma MergedFile(db: Db, s: Session, file: Id, version: Id, key: Key, size: nat, checksum: string, now: nat)
    ensures FileAdded(db, s, file, version, key, size, checksum, now,
                      FileCreated(db, s, file, version, key, size, checksum, now))
  {
    FreeNameIs(db.items, s.parent, s.filename);
    hide NamesIn, FreeName, SettlesOn, SplitName, IsFreeName;
  }

  ghost predicate Completes(d: Desk, sid: SessionId, file: Id, version: Id, key: Key, checksum: string, now: nat,
                            t: Desk)
    requires sid in d.sessions
  {
    var s := d.sessions[sid];
    var content := Joined(d.temp, sid, s.totalChunks);
    && FileAdded(d.db, s, file, version, key, |content|, checksum, now, t.db)
    && t.contents == d.contents[key := content] && Discards(d, sid, t) && t.flights == d.flights
    && t.sessions == d.sessions[sid := s.(status := Completed)]
  }

  /** The content is the chunks one after the other, in order of their index. */
  lemma ContentIs(temp: map<ChunkId, Bytes>, sid: SessionId, n: nat)
    ensures Joined(temp, sid, 0) == []
    ensures ChunkId(sid, n) in temp ==> Joined(temp, sid, n + 1) == Joined(temp, sid, n) + temp[ChunkId(sid, n)]
  {
  }

  /** Cancelling: a completed session refuses, a cancelled one stays as it is, any other loses its
      chunks. */
  lemma CancelIs(d: Desk, sid: SessionId)
    ensures var r := CancelSession(d, sid);
            if sid !in d.sessions then r == Refused(NoSession)
            else if d.sessions[sid].status == Completed then r == Refused(AlreadyTerminal)
            else if d.sessions[sid].status == Cancelled then r == Accepted(d)
            else
              && r.Accepted? && Discards(d, sid, r.desk)
              && r.desk == d.(rows := r.desk.rows, temp := r.desk.temp,
                              sessions := d.sessions[sid := d.sessions[sid].(status := Cancelled)])
  {
  }

  /** Cleaning up removes the active sessions that expired before now, with their chunks. */
  lemma CleanUpIs(d: Desk, now: nat, limits: Limits)
    ensures var t := Next(d, CleanUp(now), limits);
            && (forall s :: s in t.sessions <==>
                  s in d.sessions && !(Active(d.sessions[s]) && d.sessions[s].expires < now))
            && (forall s :: s in t.sessions ==> t.sessions[s] == d.sessions[s])
            && (forall c :: c in t.rows <==> c in d.rows && !(c.session in d.sessions && c.session !in t.sessions))
            && (forall c :: c in t.rows ==> t.rows[c] == d.rows[c])
            && (forall c :: c in t.temp <==>
                  c in d.temp && !(c in d.rows && c.session in d.sessions && c.session !in t.sessions))
            && (forall c :: c in t.temp ==> t.temp[c] == d.temp[c])
            && t == d.(sessions := t.sessions, rows := t.rows, temp := t.temp)
  {
  }

  /** Sessions whose folder row has gone upload to the root; nothing else about them changes. */
  lemma UnplacedIs(sessions: map<SessionId, Session>, items: map<Id, Item>)
    ensures var after := Unplaced(sessions, items);
            && after.Keys == sessions.Keys
            && forall s :: s in sessions ==>
                 after[s] == match sessions[s].parent
                             case Some(p) => (if p in items then sessions[s] else sessions[s].(parent := None))
                             case None => sessions[s]
  {
  }
}
