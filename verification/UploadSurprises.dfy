/** Short runs from an empty desk that show what uploads do not promise. */
module UploadSurprises {
  import opened Text
  import opened Sums
  import opened Forest
  import opened Names
  import opened Drive
  import opened Runs
  import opened Upload
  import opened UploadLaws

  /** The run is possible from an empty desk and leads to `d`. */
  ghost predicate LeadsTo(quota: int, limits: Limits, events: seq<Event>, d: Desk) {
    PossibleEvents(EmptyDesk(quota), events, limits) && After(EmptyDesk(quota), events, limits) == d
  }

  lemma {:induction false} RunThen(d: Desk, events: seq<Event>, e: Event, limits: Limits)
    ensures After(d, events + [e], limits) == Next(After(d, events, limits), e, limits)
    ensures PossibleEvents(d, events + [e], limits) <==>
            PossibleEvents(d, events, limits) && CanHappen(After(d, events, limits), e)
    decreases |events|
  {
    hide Next, CanHappen;
    if events == [] {
      assert ([] + [e])[1..] == [];
    } else {
      assert (events + [e])[1..] == events[1..] + [e];
      RunThen(Next(d, events[0], limits), events[1..], e, limits);
    }
  }

  lemma LeadsOn(quota: int, limits: Limits, events: seq<Event>, d: Desk, e: Event)
    requires LeadsTo(quota, limits, events, d) && CanHappen(d, e)
    ensures LeadsTo(quota, limits, events + [e], Next(d, e, limits))
  {
    hide Next, CanHappen, After, PossibleEvents;
    RunThen(EmptyDesk(quota), events, e, limits);
  }

  lemma Leading(quota: int, limits: Limits, events: seq<Event>, d: Desk)
    requires LeadsTo(quota, limits, events, d)
    ensures PossibleEvents(EmptyDesk(quota), events, limits) && After(EmptyDesk(quota), events, limits) == d
  {
    hide PossibleEvents, After;
  }

  /** One session for `size` bytes of a file "a" at the root. */
  function OneSession(size: nat, limits: Limits, status: Status): Session {
    CeilDivIs(size, limits.chunkSize);
    Session(None, "a", size, limits.chunkSize, CeilDiv(size, limits.chunkSize), status, 9)
  }

  /** The desk with that session only, in any state of its chunks. */
  function WithSession(quota: int, sid: SessionId, s: Session, rows: map<ChunkId, nat>, temp: map<ChunkId, Bytes>,
                       flights: map<Flight, Stage>): Desk {
    Desk(EmptyDrive(quota), map[sid := s], rows, temp, map[], flights)
  }

  lemma OpensFirst(quota: int, limits: Limits, sid: SessionId, size: nat)
    requires size <= limits.maxFileSize && size <= quota
    ensures LeadsTo(quota, limits, [Open(sid, None, "a", size, 9)],
                    WithSession(quota, sid, OneSession(size, limits, Pending), map[], map[], map[]))
  {
    var none: map<SessionId, Session> := map[];
    assert ActiveSizes(none) == map[];
    assert ValidName("a") == Some("a");
    var e := Open(sid, None, "a", size, 9);
    assert LeadsTo(quota, limits, [], EmptyDesk(quota));
    hide LeadsTo, Sum, CeilDiv, ValidName;
    LeadsOn(quota, limits, [], EmptyDesk(quota), e);
    assert [] + [e] == [e];
  }

  /** A chunk request begins and its bytes arrive. */
  lemma Streams(quota: int, limits: Limits, events: seq<Event>, d: Desk, f: Flight, data: Bytes)
    requires LeadsTo(quota, limits, events, d) && f !in d.flights
    requires ChunkRefused(d, f.chunk.session, f.chunk.index).None?
    ensures LeadsTo(quota, limits, events + [Begin(f)] + [Land(f, data)],
                    LandChunk(BeginChunk(d, f), f, data))
  {
    hide LeadsTo;
    LeadsOn(quota, limits, events, d, Begin(f));
    LeadsOn(quota, limits, events + [Begin(f)], BeginChunk(d, f), Land(f, data));
  }

  // ----- a chunk that is late -----

  /** Open a session of one byte, let its chunk arrive, cancel, record the chunk. */
  function ReviveRun(sid: SessionId): seq<Event> {
    var f := Flight(ChunkId(sid, 0), 0);
    [Open(sid, None, "a", 1, 9)] + [Begin(f)] + [Land(f, [0])] + [Cancel(sid)] + [Record(f)]
  }

  lemma ArrivesFirst(quota: int, limits: Limits, sid: SessionId)
    requires 1 <= limits.maxFileSize && 1 <= quota
    ensures var f := Flight(ChunkId(sid, 0), 0);
            LeadsTo(quota, limits, [Open(sid, None, "a", 1, 9)] + [Begin(f)] + [Land(f, [0])],
                    WithSession(quota, sid, OneSession(1, limits, Pending), map[], map[f.chunk := [0]],
                                map[f := Stage.Landed(true, 1)]))
  {
    var f := Flight(ChunkId(sid, 0), 0);
    OpensFirst(quota, limits, sid, 1);
    OneChunk(limits.chunkSize);
    hide LeadsTo, CeilDiv;
    var d := WithSession(quota, sid, OneSession(1, limits, Pending), map[], map[], map[]);
    Streams(quota, limits, [Open(sid, None, "a", 1, 9)], d, f, [0]);
    assert LandChunk(BeginChunk(d, f), f, [0]).flights == map[f := Stage.Landed(true, 1)];
  }

  /** The session is cancelled and then active again. */
  lemma LateChunkRevived(quota: int, limits: Limits, sid: SessionId)
    requires 1 <= limits.maxFileSize && 1 <= quota
    ensures var events := ReviveRun(sid);
            var empty := EmptyDesk(quota);
            && PossibleEvents(empty, events, limits)
            && After(empty, events[..4], limits).sessions == map[sid := OneSession(1, limits, Cancelled)]
            && After(empty, events, limits).sessions == map[sid := OneSession(1, limits, Uploading)]
  {
    hide Next, CanHappen, OneSession, LeadsTo, PossibleEvents, After, RecordChunk;
    var f := Flight(ChunkId(sid, 0), 0);
    var events := [Open(sid, None, "a", 1, 9)] + [Begin(f)] + [Land(f, [0])];
    var d := WithSession(quota, sid, OneSession(1, limits, Pending), map[], map[f.chunk := [0]],
                         map[f := Stage.Landed(true, 1)]);
    ArrivesFirst(quota, limits, sid);
    Revives(quota, limits, sid);
    var cancelled := Next(d, Cancel(sid), limits);
    LeadsOn(quota, limits, events, d, Cancel(sid));
    LeadsOn(quota, limits, events + [Cancel(sid)], cancelled, Record(f));
    Leading(quota, limits, events + [Cancel(sid)], cancelled);
    Leading(quota, limits, ReviveRun(sid), Next(cancelled, Record(f), limits));
    assert (events + [Cancel(sid)] + [Record(f)])[..4] == events + [Cancel(sid)];
  }

  lemma Revives(quota: int, limits: Limits, sid: SessionId)
    ensures var f := Flight(ChunkId(sid, 0), 0);
            var d := WithSession(quota, sid, OneSession(1, limits, Pending), map[], map[f.chunk := [0]],
                                 map[f := Stage.Landed(true, 1)]);
            var cancelled := Next(d, Cancel(sid), limits);
            && CanHappen(d, Cancel(sid)) && CanHappen(cancelled, Record(f))
            && cancelled.sessions == map[sid := OneSession(1, limits, Cancelled)]
            && Next(cancelled, Record(f), limits).sessions == map[sid := OneSession(1, limits, Uploading)]
  {
    hide CeilDiv;
  }

  /** A session of two one-byte chunks: the first is sent, the second arrives, the session is
      cancelled, the second is recorded. */
  function LeakRun(sid: SessionId): seq<Event> {
    var f, g := Flight(ChunkId(sid, 0), 0), Flight(ChunkId(sid, 1), 0);
    [Open(sid, None, "a", 2, 9)] + [Begin(f)] + [Land(f, [0])] + [Record(f)] + [Begin(g)] + [Land(g, [0])] +
    [Cancel(sid)] + [Record(g)]
  }

  function SmallChunks(): Limits {
    Limits(1, 2)
  }

  lemma FirstSent(quota: int, sid: SessionId)
    requires quota >= 2
    ensures var f := Flight(ChunkId(sid, 0), 0);
            LeadsTo(quota, SmallChunks(), [Open(sid, None, "a", 2, 9)] + [Begin(f)] + [Land(f, [0])] + [Record(f)],
                    WithSession(quota, sid, OneSession(2, SmallChunks(), Uploading), map[f.chunk := 1],
                                map[f.chunk := [0]], map[]))
  {
    var f := Flight(ChunkId(sid, 0), 0);
    var limits := SmallChunks();
    OpensFirst(quota, limits, sid, 2);
    hide LeadsTo;
    var d := WithSession(quota, sid, OneSession(2, limits, Pending), map[], map[], map[]);
    Streams(quota, limits, [Open(sid, None, "a", 2, 9)], d, f, [0]);
    var landed := LandChunk(BeginChunk(d, f), f, [0]);
    LeadsOn(quota, limits, [Open(sid, None, "a", 2, 9)] + [Begin(f)] + [Land(f, [0])], landed, Record(f));
    assert landed.flights - {f} == map[];
  }

  /** The second chunk's row and blob are left behind, for good. */
  lemma LateChunkLeaked(quota: int, sid: SessionId)
    requires quota >= 2
    ensures PossibleEvents(EmptyDesk(quota), LeakRun(sid), SmallChunks())
    ensures LeftBehind(After(EmptyDesk(quota), LeakRun(sid), SmallChunks()), ChunkId(sid, 1))
  {
    var f, g := Flight(ChunkId(sid, 0), 0), Flight(ChunkId(sid, 1), 0);
    var limits := SmallChunks();
    var sent := [Open(sid, None, "a", 2, 9)] + [Begin(f)] + [Land(f, [0])] + [Record(f)];
    var d := WithSession(quota, sid, OneSession(2, limits, Uploading), map[f.chunk := 1], map[f.chunk := [0]], map[]);
    FirstSent(quota, sid);
    var landed := LandChunk(BeginChunk(d, g), g, [0]);
    assert LeadsTo(quota, limits, sent + [Begin(g)] + [Land(g, [0])], landed) by {
      hide LeadsTo;
      Streams(quota, limits, sent, d, g, [0]);
    }
    CancelsThenRecords(quota, limits, sent + [Begin(g)] + [Land(g, [0])], landed, g);
  }

  lemma CancelsThenRecords(quota: int, limits: Limits, events: seq<Event>, d: Desk, g: Flight)
    requires LeadsTo(quota, limits, events, d)
    requires d.flights == map[g := Stage.Landed(false, 1)]
    requires IsActive(d, g.chunk.session) && g.chunk in d.temp && g.chunk !in d.rows
    ensures var run := events + [Cancel(g.chunk.session)] + [Record(g)];
            && PossibleEvents(EmptyDesk(quota), run, limits)
            && LeftBehind(After(EmptyDesk(quota), run, limits), g.chunk)
  {
    var cancel := Cancel(g.chunk.session);
    var cancelled := Next(d, cancel, limits);
    LateChunkLeaks(d, g, [], limits);
    assert RecordChunk(cancelled, g) == Next(cancelled, Record(g), limits);
    assert CanHappen(d, cancel) && CanHappen(cancelled, Record(g));
    hide Next, CanHappen, RecordChunk, LeftBehind, PossibleEvents, IsActive;
    assert LeadsTo(quota, limits, events + [cancel] + [Record(g)], Next(cancelled, Record(g), limits)) by {
      hide LeadsTo;
      LeadsOn(quota, limits, events, d, cancel);
      LeadsOn(quota, limits, events + [cancel], cancelled, Record(g));
    }
  }

  // ----- a chunk that is too large -----

  /** Open a session of one byte, send it two, complete it. */
  function OversellRun(sid: SessionId, item: Id, version: Id, key: Key, checksum: string): seq<Event> {
    var e := SendsTwo(sid);
    [e[0]] + [e[1]] + [e[2]] + [e[3]] + [Finish(sid, item, version, key, checksum, 0)]
  }

  /** Two bytes are stored under a quota of one. */
  lemma LargerChunkOversold(limits: Limits, sid: SessionId, item: Id, version: Id, key: Key, checksum: string)
    requires limits.maxFileSize >= 1
    ensures var run := OversellRun(sid, item, version, key, checksum);
            && PossibleEvents(EmptyDesk(1), run, limits)
            && WithinQuota(EmptyDesk(1)) && !WithinQuota(After(EmptyDesk(1), run, limits))
  {
    hide Inv, Reserved, FileCreated, Next, LeadsTo;
    var e := SendsTwo(sid);
    var finish := Finish(sid, item, version, key, checksum, 0);
    var db := EmptyDrive(1);
    EmptyDriveGood(1);
    LargerChunkOversells(db, sid, item, version, key, checksum, limits);
    OpenedAndSent(db, sid, limits);
    SentFromEmpty(limits, sid);
    var sent := TwoBytesSent(db, sid, limits.chunkSize);
    CanFinish(sid, limits.chunkSize, finish);
    hide Next, CanHappen, WithinQuota, Good, SendsTwo, TwoBytesSent;
    var run := OversellRun(sid, item, version, key, checksum);
    LeadsOn(1, limits, [e[0]] + [e[1]] + [e[2]] + [e[3]], sent, finish);
    Leading(1, limits, run, Next(sent, finish, limits));
  }

  lemma CanFinish(sid: SessionId, chunkSize: Positive, e: Event)
    requires e.Finish?
    ensures CanHappen(TwoBytesSent(EmptyDrive(1), sid, chunkSize), e)
  {
  }

  lemma SentFromEmpty(limits: Limits, sid: SessionId)
    requires limits.maxFileSize >= 1
    ensures var e := SendsTwo(sid);
            LeadsTo(1, limits, [e[0]] + [e[1]] + [e[2]] + [e[3]], TwoBytesSent(EmptyDrive(1), sid, limits.chunkSize))
  {
    var e := SendsTwo(sid);
    var f := Flight(ChunkId(sid, 0), 0);
    OpensFirst(1, limits, sid, 1);
    OneChunk(limits.chunkSize);
    hide LeadsTo, CeilDiv;
    var d := WithSession(1, sid, OneSession(1, limits, Pending), map[], map[], map[]);
    Streams(1, limits, [e[0]], d, f, [0, 0]);
    var landed := LandChunk(BeginChunk(d, f), f, [0, 0]);
    LeadsOn(1, limits, [e[0]] + [e[1]] + [e[2]], landed, e[3]);
    assert landed.flights - {f} == map[];
    assert Next(landed, e[3], limits) == TwoBytesSent(EmptyDrive(1), sid, limits.chunkSize);
  }
}
