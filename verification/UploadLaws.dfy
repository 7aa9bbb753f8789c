/** What chunked uploads promise over whole runs: the file is reassembled, and the quota is
    not oversold. */
module UploadLaws {
  import opened Text
  import opened Sums
  import opened Forest
  import opened Names
  import opened Drive
  import opened DriveService
  import opened Trash
  import opened Snapshots
  import opened Restore
  import opened Runs
  import opened Upload

  // ----- runs -----

  ghost predicate PossibleEvents(d: Desk, events: seq<Event>, limits: Limits)
    decreases |events|
  {
    events == [] || (CanHappen(d, events[0]) && PossibleEvents(Next(d, events[0], limits), events[1..], limits))
  }

  ghost function After(d: Desk, events: seq<Event>, limits: Limits): Desk
    decreases |events|
  {
    if events == [] then d else After(Next(d, events[0], limits), events[1..], limits)
  }

  lemma {:induction false} RunKeeps(d: Desk, events: seq<Event>, limits: Limits)
    requires DeskInv(d) && PossibleEvents(d, events, limits)
    ensures DeskInv(After(d, events, limits))
    decreases |events|
  {
    if events != [] {
      hide DeskInv, CanHappen, Next;
      EventKeeps(d, events[0], limits);
      RunKeeps(Next(d, events[0], limits), events[1..], limits);
    }
  }

  function EmptyDesk(quota: int): Desk {
    Desk(EmptyDrive(quota), map[], map[], map[], map[], map[])
  }

  lemma EmptyDeskOk(quota: int)
    ensures DeskInv(EmptyDesk(quota))
  {
    EmptyDriveGood(quota);
    hide Inv;
  }

  // ----- slicing -----

  function Min(a: nat, b: nat): nat {
    if a <= b then a else b
  }

  /** What a client sends as chunk `i`. */
  function Slice(file: Bytes, c: nat, i: nat): Bytes {
    assert i * c <= (i + 1) * c;
    file[Min(i * c, |file|)..Min((i + 1) * c, |file|)]
  }

  /** The size a client declares for chunk `i` of a file of `total` bytes. */
  function SliceSize(total: nat, c: nat, i: nat): int {
    Min((i + 1) * c, total) - Min(i * c, total)
  }

  /** One more slice extends the part of the file covered so far. */
  lemma SliceExtends(file: Bytes, c: nat, n: nat)
    ensures file[..Min(n * c, |file|)] + Slice(file, c, n) == file[..Min((n + 1) * c, |file|)]
  {
    var a, b := Min(n * c, |file|), Min((n + 1) * c, |file|);
    assert n * c <= (n + 1) * c;
    assert file[..a] + file[a..b] == file[..b];
  }

  /** Slices joined in order give back the file, up to where they reach. */
  lemma {:induction false} SlicesJoin(temp: map<ChunkId, Bytes>, sid: SessionId, file: Bytes, c: nat, n: nat)
    requires forall i: nat :: i < n ==> ChunkId(sid, i) in temp && temp[ChunkId(sid, i)] == Slice(file, c, i)
    ensures Joined(temp, sid, n) == file[..Min(n * c, |file|)]
  {
    hide Slice;
    if n > 0 {
      SlicesJoin(temp, sid, file, c, n - 1);
      SliceExtends(file, c, n - 1);
    }
  }

  lemma {:induction false} SizesJoin(temp: map<ChunkId, Bytes>, sid: SessionId, total: nat, c: nat, n: nat)
    requires forall i: nat :: i < n ==> ChunkId(sid, i) in temp && |temp[ChunkId(sid, i)]| == SliceSize(total, c, i)
    ensures |Joined(temp, sid, n)| == Min(n * c, total)
  {
    if n > 0 {
      SizesJoin(temp, sid, total, c, n - 1);
      assert n - 1 + 1 == n;
    }
  }

  // ----- one session through a run -----

  /** The session as it was opened, whatever its status is now and wherever it uploads to. */
  predicate SameSession(d: Desk, sid: SessionId, s: Session) {
    sid in d.sessions ==> Opened(d.sessions[sid], s)
  }

  predicate Opened(now: Session, s: Session) {
    now.(status := s.status, parent := s.parent) == s
  }

  /** Only slices of `file` are stored for the session. */
  ghost predicate HasSlices(d: Desk, sid: SessionId, file: Bytes, c: nat) {
    forall i: nat :: ChunkId(sid, i) in d.temp ==> d.temp[ChunkId(sid, i)] == Slice(file, c, i)
  }

  /** The client sends slices of `file` for this session; nobody opens a session of its id. */
  ghost predicate SendsSlices(e: Event, sid: SessionId, file: Bytes, c: nat) {
    match e
    case Land(f, data) => f.chunk.session == sid ==> data == Slice(file, c, f.chunk.index)
    case Open(other, _, _, _, _) => other != sid
    case _ => true
  }

  lemma SlicesStep(d: Desk, e: Event, limits: Limits, sid: SessionId, s: Session, file: Bytes, c: nat)
    requires SendsSlices(e, sid, file, c)
    requires SameSession(d, sid, s) && HasSlices(d, sid, file, c)
    ensures SameSession(Next(d, e, limits), sid, s) && HasSlices(Next(d, e, limits), sid, file, c)
  {
    hide Slice, Joined, FileCreated, Reserved, ValidName, Step, CeilDiv;
  }

  lemma {:induction false} SlicesRun(d: Desk, events: seq<Event>, limits: Limits, sid: SessionId, s: Session,
                                     file: Bytes, c: nat)
    requires forall e :: e in events ==> SendsSlices(e, sid, file, c)
    requires SameSession(d, sid, s) && HasSlices(d, sid, file, c)
    ensures SameSession(After(d, events, limits), sid, s) && HasSlices(After(d, events, limits), sid, file, c)
    decreases |events|
  {
    if events != [] {
      hide SameSession, HasSlices, SendsSlices, Next;
      assert events[0] in events && forall e :: e in events[1..] ==> e in events;
      SlicesStep(d, events[0], limits, sid, s, file, c);
      SlicesRun(Next(d, events[0], limits), events[1..], limits, sid, s, file, c);
    }
  }

  /** The whole file is in the slices: also for no bytes and exact multiples. */
  lemma ChunksReach(file: Bytes, c: Positive)
    ensures CeilDiv(|file|, c) >= 0 && Min(CeilDiv(|file|, c) * c, |file|) == |file|
  {
    CeilDivIs(|file|, c);
  }

  /** Reassembly: open a session for a file, let its slices stream in any order, overlapping
      and as often as you like, while anything else happens. When completing succeeds, the
      stored blob, the new item and the bytes charged are exactly the file. */
  lemma Reassembles(d: Desk, sid: SessionId, parent: Option<Id>, rawName: string, file: Bytes, expires: nat,
                    limits: Limits, events: seq<Event>, item: Id, version: Id, key: Key, checksum: string, now: nat)
    requires DeskInv(d) && CanHappen(d, Open(sid, parent, rawName, |file|, expires))
    requires CreateSession(d, sid, parent, rawName, |file|, expires, limits).Accepted?
    requires var ready := CreateSession(d, sid, parent, rawName, |file|, expires, limits).desk;
             PossibleEvents(ready, events, limits)
    requires forall e :: e in events ==> SendsSlices(e, sid, file, limits.chunkSize)
    ensures var ready := CreateSession(d, sid, parent, rawName, |file|, expires, limits).desk;
            var sent := After(ready, events, limits);
            var r := CompleteSession(sent, sid, item, version, key, checksum, now);
            r.Accepted? ==>
              && r.desk.contents[key] == file
              && r.desk.db.blobs[key].size == |file|
              && r.desk.db.items[item].size == |file| && r.desk.db.items[item].key == Some(key)
              && r.desk.db.used == sent.db.used + |file|
  {
    hide Joined, PossibleEvents, After, Slice, ValidName, Reserved, CeilDiv, FreeName, IsFreeName, Inv;
    var e := Open(sid, parent, rawName, |file|, expires);
    var ready := CreateSession(d, sid, parent, rawName, |file|, expires, limits).desk;
    var s := ready.sessions[sid];
    EventKeeps(d, e, limits);
    forall i: nat
      ensures ChunkId(sid, i) !in ready.temp
    {
      assert ChunkId(sid, i).session == sid;
    }
    SlicesRun(ready, events, limits, sid, s, file, limits.chunkSize);
    RunKeeps(ready, events, limits);
    CompletedFile(After(ready, events, limits), sid, s, file, item, version, key, checksum, now);
  }

  /** Completing a session that holds only slices of the file it was opened for. */
  lemma CompletedFile(sent: Desk, sid: SessionId, s: Session, file: Bytes, item: Id, version: Id, key: Key,
                      checksum: string, now: nat)
    requires DeskInv(sent) && s.totalSize == |file|
    requires SameSession(sent, sid, s) && HasSlices(sent, sid, file, s.chunkSize)
    ensures var r := CompleteSession(sent, sid, item, version, key, checksum, now);
            r.Accepted? ==>
              && r.desk.contents[key] == file
              && r.desk.db.blobs[key].size == |file|
              && r.desk.db.items[item].size == |file| && r.desk.db.items[item].key == Some(key)
              && r.desk.db.used == sent.db.used + |file|
  {
    hide Joined, Slice, CeilDiv, FreeName, IsFreeName, Inv;
    if CompleteSession(sent, sid, item, version, key, checksum, now).Accepted? {
      assert SessionOk(sent.db, sent.sessions[sid]);
      ChunksReach(file, s.chunkSize);
      SlicesJoin(sent.temp, sid, file, s.chunkSize, s.totalChunks);
      assert file[..|file|] == file;
    }
  }

  // ----- sessions that have ended -----

  predicate IsActive(d: Desk, sid: SessionId) {
    sid in d.sessions && !Terminal(d.sessions[sid].status)
  }

  /** Every chunk row belongs to an active session. */
  ghost predicate RowsActive(d: Desk) {
    forall c :: c in d.rows ==> IsActive(d, c.session)
  }

  /** An ended session has not become active again. */
  ghost predicate EndsStay(d: Desk, t: Desk) {
    forall sid :: sid in d.sessions && Terminal(d.sessions[sid].status) ==>
      sid in t.sessions && Terminal(t.sessions[sid].status)
  }

  /** A row is not recorded for a session that has ended while its bytes were streaming. */
  predicate OnTime(d: Desk, e: Event) {
    e.Record? ==> e.flight.chunk.session in d.sessions ==> IsActive(d, e.flight.chunk.session)
  }

  lemma OnTimeRecord(d: Desk, e: Event, limits: Limits)
    requires DeskInv(d) && e.Record? && CanHappen(d, e) && RowsActive(d)
    ensures RowsActive(Next(d, e, limits)) && EndsStay(d, Next(d, e, limits)) <==> OnTime(d, e)
  {
    hide DeskInv;
    if !OnTime(d, e) {
      assert e.flight.chunk in Next(d, e, limits).rows;
    }
  }

  lemma OnTimeOther(d: Desk, e: Event, limits: Limits)
    requires !e.Record? && CanHappen(d, e) && RowsActive(d)
    ensures RowsActive(Next(d, e, limits)) && EndsStay(d, Next(d, e, limits))
  {
    hide Joined, FileCreated, Reserved, ValidName, Step, Possible, CeilDiv, MissingChunks, AllStored;
  }

  /** One event keeps rows to active sessions, and ended sessions ended, exactly when it does
      not record a row late. */
  lemma OnTimeStep(d: Desk, e: Event, limits: Limits)
    requires DeskInv(d) && CanHappen(d, e) && RowsActive(d)
    ensures RowsActive(Next(d, e, limits)) && EndsStay(d, Next(d, e, limits)) <==> OnTime(d, e)
  {
    hide DeskInv, CanHappen, Next, RowsActive, EndsStay;
    if e.Record? {
      OnTimeRecord(d, e, limits);
    } else {
      OnTimeOther(d, e, limits);
    }
  }

  ghost predicate RunOnTime(d: Desk, events: seq<Event>, limits: Limits)
    decreases |events|
  {
    events == [] || (OnTime(d, events[0]) && RunOnTime(Next(d, events[0], limits), events[1..], limits))
  }

  /** In every state of the run all rows belong to active sessions, and no session comes back. */
  ghost predicate EndedHaveNoRows(d: Desk, events: seq<Event>, limits: Limits)
    decreases |events|
  {
    && RowsActive(d)
    && (events != [] ==>
          && EndsStay(d, Next(d, events[0], limits))
          && EndedHaveNoRows(Next(d, events[0], limits), events[1..], limits))
  }

  lemma {:induction false} OnTimeRun(d: Desk, events: seq<Event>, limits: Limits)
    requires DeskInv(d) && RowsActive(d) && PossibleEvents(d, events, limits)
    ensures EndedHaveNoRows(d, events, limits) <==> RunOnTime(d, events, limits)
    decreases |events|
  {
    if events != [] {
      hide DeskInv, CanHappen, Next, RowsActive, EndsStay, OnTime;
      var t := Next(d, events[0], limits);
      OnTimeStep(d, events[0], limits);
      EventKeeps(d, events[0], limits);
      if RowsActive(t) {
        OnTimeRun(t, events[1..], limits);
      }
    }
  }

  /** In a run from an empty drive, with chunk requests streaming across everything else, a
      session that has ended or was cleaned up never has a chunk row and never comes back, if
      and only if every row is recorded while its session is active or no longer exists. */
  lemma EndedSessionsHaveNoRows(quota: int, events: seq<Event>, limits: Limits)
    requires PossibleEvents(EmptyDesk(quota), events, limits)
    ensures EndedHaveNoRows(EmptyDesk(quota), events, limits) <==> RunOnTime(EmptyDesk(quota), events, limits)
  {
    EmptyDeskOk(quota);
    hide DeskInv, PossibleEvents, EndedHaveNoRows, RunOnTime;
    OnTimeRun(EmptyDesk(quota), events, limits);
  }

  // ----- blobs that stay behind -----

  /** Every temporary blob belongs to an active session. */
  ghost predicate BlobsActive(d: Desk) {
    forall c :: c in d.temp ==> IsActive(d, c.session)
  }

  /** No stream ends after its session, and whatever ends a session finds the blobs of that
      session listed by rows: no request of it is between its blob and its row. */
  ghost predicate LeavesNoBlob(d: Desk, e: Event, limits: Limits) {
    && (e.Land? ==> IsActive(d, e.flight.chunk.session))
    && forall c :: c in d.temp && IsActive(d, c.session) && !IsActive(Next(d, e, limits), c.session) ==> c in d.rows
  }

  lemma NoBlobOnChunk(d: Desk, e: Event, limits: Limits)
    requires (e.Begin? || e.Land? || e.Record? || e.Drop?) && CanHappen(d, e) && BlobsActive(d)
    ensures BlobsActive(Next(d, e, limits)) <==> LeavesNoBlob(d, e, limits)
  {
    var t := Next(d, e, limits);
    assert forall sid :: IsActive(d, sid) ==> IsActive(t, sid);
    if e.Land? && !IsActive(d, e.flight.chunk.session) {
      assert e.flight.chunk in t.temp;
    }
  }

  lemma NoBlobOnOpen(d: Desk, e: Event, limits: Limits)
    requires (e.Open? || e.Other?) && CanHappen(d, e) && BlobsActive(d)
    ensures BlobsActive(Next(d, e, limits)) && LeavesNoBlob(d, e, limits)
  {
    hide Reserved, ValidName, Step, Possible, CeilDiv, PlaceError;
    assert forall sid :: IsActive(d, sid) ==> IsActive(Next(d, e, limits), sid);
  }

  /** Ending sessions `gone` removes exactly the blobs that rows list for them. */
  lemma NoBlobOnEnd(d: Desk, t: Desk, gone: set<SessionId>)
    requires BlobsActive(d) && t.temp == d.temp - ListedIn(d.rows, gone)
    requires forall sid :: IsActive(t, sid) <==> IsActive(d, sid) && sid !in gone
    ensures BlobsActive(t) <==>
            forall c :: c in d.temp && IsActive(d, c.session) && !IsActive(t, c.session) ==> c in d.rows
  {
    if c :| c in d.temp && IsActive(d, c.session) && !IsActive(t, c.session) && c !in d.rows {
      assert c in t.temp;
    }
  }

  /** The sessions an event ends. */
  ghost function Ends(d: Desk, e: Event, limits: Limits): set<SessionId> {
    match e
    case Cancel(sid) => if Next(d, e, limits) == d then {} else {sid}
    case Finish(sid, _, _, _, _, _) => if Next(d, e, limits) == d then {} else {sid}
    case CleanUp(now) => Expired(d.sessions, now)
    case _ => {}
  }

  lemma EndsAre(d: Desk, e: Event, limits: Limits)
    requires e.Cancel? || e.Finish? || e.CleanUp?
    ensures Next(d, e, limits).temp == d.temp - ListedIn(d.rows, Ends(d, e, limits))
    ensures forall sid :: IsActive(Next(d, e, limits), sid) <==>
                          IsActive(d, sid) && sid !in Ends(d, e, limits)
  {
    hide Joined, FileCreated, MissingChunks, AllStored;
  }

  lemma NoBlobStep(d: Desk, e: Event, limits: Limits)
    requires CanHappen(d, e) && BlobsActive(d)
    ensures BlobsActive(Next(d, e, limits)) <==> LeavesNoBlob(d, e, limits)
  {
    match e
    case Open(_, _, _, _, _) => NoBlobOnOpen(d, e, limits);
    case Other(_) => NoBlobOnOpen(d, e, limits);
    case Begin(_) => NoBlobOnChunk(d, e, limits);
    case Land(_, _) => NoBlobOnChunk(d, e, limits);
    case Record(_) => NoBlobOnChunk(d, e, limits);
    case Drop(_) => NoBlobOnChunk(d, e, limits);
    case _ =>
      hide Next, BlobsActive, IsActive, Ends;
      EndsAre(d, e, limits);
      NoBlobOnEnd(d, Next(d, e, limits), Ends(d, e, limits));
  }

  ghost predicate RunLeavesNoBlob(d: Desk, events: seq<Event>, limits: Limits)
    decreases |events|
  {
    events == [] ||
    (LeavesNoBlob(d, events[0], limits) && RunLeavesNoBlob(Next(d, events[0], limits), events[1..], limits))
  }

  ghost predicate EndedHaveNoBlobs(d: Desk, events: seq<Event>, limits: Limits)
    decreases |events|
  {
    BlobsActive(d) && (events != [] ==> EndedHaveNoBlobs(Next(d, events[0], limits), events[1..], limits))
  }

  /** The same for the temporary blobs, which garbage collection never looks at: none is left
      behind by an ended session if and only if no stream ends after its session, and no session
      ends while one of its chunks is stored but not recorded. */
  lemma {:induction false} EndedSessionsHaveNoBlobs(d: Desk, events: seq<Event>, limits: Limits)
    requires BlobsActive(d) && PossibleEvents(d, events, limits)
    ensures EndedHaveNoBlobs(d, events, limits) <==> RunLeavesNoBlob(d, events, limits)
    decreases |events|
  {
    if events != [] {
      hide CanHappen, Next, BlobsActive, LeavesNoBlob;
      NoBlobStep(d, events[0], limits);
      if BlobsActive(Next(d, events[0], limits)) {
        EndedSessionsHaveNoBlobs(Next(d, events[0], limits), events[1..], limits);
      }
    }
  }

  // ----- when completing succeeds -----

  /** Rows have their blobs, and so do the rows about to be written for active sessions. */
  ghost predicate Backed(d: Desk) {
    && (forall c :: c in d.rows ==> c in d.temp)
    && forall f :: f in d.flights && d.flights[f].Landed? && IsActive(d, f.chunk.session) ==> f.chunk in d.temp
  }

  lemma BackedStep(d: Desk, e: Event, limits: Limits)
    requires CanHappen(d, e) && RowsActive(d) && Backed(d) && OnTime(d, e)
    ensures Backed(Next(d, e, limits))
  {
    hide Joined, FileCreated, Reserved, ValidName, Step, Possible, CeilDiv, MissingChunks, AllStored;
  }

  /** While rows are recorded on time, every row has its blob. */
  lemma {:induction false} BackedRun(d: Desk, events: seq<Event>, limits: Limits)
    requires DeskInv(d) && RowsActive(d) && Backed(d)
    requires PossibleEvents(d, events, limits) && RunOnTime(d, events, limits)
    ensures Backed(After(d, events, limits)) && RowsActive(After(d, events, limits))
    decreases |events|
  {
    if events != [] {
      hide DeskInv, CanHappen, Next, RowsActive, EndsStay, OnTime, Backed;
      OnTimeStep(d, events[0], limits);
      BackedStep(d, events[0], limits);
      EventKeeps(d, events[0], limits);
      BackedRun(Next(d, events[0], limits), events[1..], limits);
    }
  }

  /** A session can be completed exactly when it is active and every chunk was recorded and is
      stored; the stored part goes without saying while rows are recorded on time. A refusal
      leaves the desk as it was, so the gaps can be sent. */
  lemma CompletesExactly(d: Desk, sid: SessionId, item: Id, version: Id, key: Key, checksum: string, now: nat,
                         limits: Limits)
    ensures CompleteSession(d, sid, item, version, key, checksum, now).Accepted? <==>
              && IsActive(d, sid)
              && forall i: nat :: i < d.sessions[sid].totalChunks ==>
                   ChunkId(sid, i) in d.rows && ChunkId(sid, i) in d.temp
    ensures Backed(d) ==>
              (CompleteSession(d, sid, item, version, key, checksum, now).Accepted? <==>
                 && IsActive(d, sid)
                 && forall i: nat :: i < d.sessions[sid].totalChunks ==> ChunkId(sid, i) in d.rows)
    ensures !CompleteSession(d, sid, item, version, key, checksum, now).Accepted? ==>
              Next(d, Finish(sid, item, version, key, checksum, now), limits) == d
  {
    hide Joined, FileCreated;
    if sid in d.sessions {
      var missing := MissingChunks(d, sid);
      if i: nat :| i < d.sessions[sid].totalChunks && ChunkId(sid, i) !in d.rows {
        assert i in missing;
      } else {
        assert missing == {};
      }
    }
  }

  /** Nothing in the run ends the session: no completion, no cancel, no clean-up after expiry. */
  predicate LeavesOpen(e: Event, sid: SessionId, expires: nat) {
    match e
    case Finish(other, _, _, _, _, _) => other != sid
    case Cancel(other) => other != sid
    case CleanUp(now) => now <= expires
    case Open(other, _, _, _, _) => other != sid
    case _ => true
  }

  /** The session is open, the chunks in `sent` have rows, and what has a row has its blob. */
  ghost predicate StillOpen(d: Desk, sid: SessionId, s: Session, sent: set<nat>) {
    && IsActive(d, sid) && Opened(d.sessions[sid], s)
    && (forall i: nat :: i in sent ==> ChunkId(sid, i) in d.rows)
    && (forall i: nat :: ChunkId(sid, i) in d.rows ==> ChunkId(sid, i) in d.temp)
    && forall f :: f in d.flights && d.flights[f].Landed? && f.chunk.session == sid ==> f.chunk in d.temp
  }

  function SentBy(e: Event, sid: SessionId): set<nat> {
    if e.Record? && e.flight.chunk.session == sid then {e.flight.chunk.index} else {}
  }

  function SentIn(events: seq<Event>, sid: SessionId): set<nat> {
    set k, i | 0 <= k < |events| && i in SentBy(events[k], sid) :: i
  }

  lemma OpenOnChunk(d: Desk, e: Event, limits: Limits, sid: SessionId, s: Session, sent: set<nat>)
    requires e.Begin? || e.Land? || e.Record? || e.Drop?
    requires StillOpen(d, sid, s, sent) && CanHappen(d, e)
    ensures StillOpen(Next(d, e, limits), sid, s, sent + SentBy(e, sid))
  {
  }

  lemma OpenOnOther(d: Desk, e: Event, limits: Limits, sid: SessionId, s: Session, sent: set<nat>)
    requires !e.Begin? && !e.Land? && !e.Record? && !e.Drop?
    requires LeavesOpen(e, sid, s.expires) && StillOpen(d, sid, s, sent) && CanHappen(d, e)
    ensures StillOpen(Next(d, e, limits), sid, s, sent + SentBy(e, sid))
  {
    hide Joined, FileCreated, Reserved, ValidName, Step, Possible, CeilDiv, MissingChunks, AllStored;
  }

  lemma OpenStep(d: Desk, e: Event, limits: Limits, sid: SessionId, s: Session, sent: set<nat>)
    requires LeavesOpen(e, sid, s.expires) && StillOpen(d, sid, s, sent) && CanHappen(d, e)
    ensures StillOpen(Next(d, e, limits), sid, s, sent + SentBy(e, sid))
  {
    hide StillOpen, LeavesOpen, Next, SentBy, CanHappen;
    if e.Begin? || e.Land? || e.Record? || e.Drop? {
      OpenOnChunk(d, e, limits, sid, s, sent);
    } else {
      OpenOnOther(d, e, limits, sid, s, sent);
    }
  }

  lemma {:induction false} OpenRun(d: Desk, events: seq<Event>, limits: Limits, sid: SessionId, s: Session,
                                   sent: set<nat>)
    requires forall e :: e in events ==> LeavesOpen(e, sid, s.expires)
    requires StillOpen(d, sid, s, sent) && PossibleEvents(d, events, limits)
    ensures StillOpen(After(d, events, limits), sid, s, sent + SentIn(events, sid))
    decreases |events|
  {
    hide StillOpen, LeavesOpen, Next, SentBy, CanHappen;
    if events == [] {
      assert sent + SentIn(events, sid) == sent;
    } else {
      assert events[0] in events && forall e :: e in events[1..] ==> e in events;
      OpenStep(d, events[0], limits, sid, s, sent);
      OpenRun(Next(d, events[0], limits), events[1..], limits, sid, s, sent + SentBy(events[0], sid));
      SentSplit(events, sid);
      assert sent + SentBy(events[0], sid) + SentIn(events[1..], sid) == sent + SentIn(events, sid);
    }
  }

  lemma SentSplit(events: seq<Event>, sid: SessionId)
    requires events != []
    ensures SentIn(events, sid) == SentBy(events[0], sid) + SentIn(events[1..], sid)
  {
    hide SentBy;
    forall i | i in SentIn(events[1..], sid)
      ensures i in SentIn(events, sid)
    {
      var k :| 0 <= k < |events[1..]| && i in SentBy(events[1..][k], sid);
      assert events[k + 1] == events[1..][k];
    }
    forall i | i in SentIn(events, sid)
      ensures i in SentBy(events[0], sid) + SentIn(events[1..], sid)
    {
      var k :| 0 <= k < |events| && i in SentBy(events[k], sid);
      if k > 0 {
        assert events[1..][k - 1] == events[k];
      }
    }
  }

  /** Liveness: when every index was recorded at least once, in whatever order, and nothing
      ended the session, completing succeeds, also when its folder was deleted meanwhile. */
  lemma AllSentCompletes(d: Desk, sid: SessionId, s: Session, events: seq<Event>, limits: Limits,
                         item: Id, version: Id, key: Key, checksum: string, now: nat)
    requires StillOpen(d, sid, s, {}) && PossibleEvents(d, events, limits)
    requires forall e :: e in events ==> LeavesOpen(e, sid, s.expires)
    requires forall i: nat :: i < s.totalChunks ==> i in SentIn(events, sid)
    ensures CompleteSession(After(d, events, limits), sid, item, version, key, checksum, now).Accepted?
  {
    hide Joined, FileCreated, After, SentIn, PossibleEvents;
    OpenRun(d, events, limits, sid, s, {});
    CompletesExactly(After(d, events, limits), sid, item, version, key, checksum, now, limits);
  }

  /** A session just opened is such a session. */
  lemma JustOpened(d: Desk, e: Event, limits: Limits)
    requires DeskInv(d) && e.Open? && CanHappen(d, e) && Next(d, e, limits) != d
    ensures StillOpen(Next(d, e, limits), e.sid, Next(d, e, limits).sessions[e.sid], {})
  {
    hide Inv, ValidName, Reserved, CeilDiv;
    forall i: nat
      ensures ChunkId(e.sid, i) !in d.rows
    {
      assert ChunkId(e.sid, i).session == e.sid;
    }
  }

  /** When the folder of an active session is deleted for good, the session uploads to the root. */
  lemma FolderDeletedMovesToRoot(d: Desk, sid: SessionId, item: Id, limits: Limits)
    requires sid in d.sessions && d.sessions[sid].parent.Some?
    requires d.sessions[sid].parent.value !in Step(d.db, Erase(item)).items
    ensures Next(d, Other(Erase(item)), limits).sessions[sid] == d.sessions[sid].(parent := None)
  {
    hide Step;
  }

  // ----- quota reservation -----

  /** Chunks have the sizes that were declared. */
  ghost predicate SizesOk(d: Desk) {
    forall c :: c in d.temp && c.session in d.sessions ==>
      |d.temp[c]| == SliceSize(d.sessions[c.session].totalSize, d.sessions[c.session].chunkSize, c.index)
  }

  /** The client declares sizes truthfully, and only chunked sessions upload. */
  predicate Honest(d: Desk, e: Event) {
    match e
    case Land(f, data) =>
      f.chunk.session in d.sessions ==>
        var s := d.sessions[f.chunk.session];
        |data| == SliceSize(s.totalSize, s.chunkSize, f.chunk.index)
    case Other(op) => !op.UploadFile?
    case _ => true
  }

  /** A client that sends the slices of the file it opened the session for is truthful. */
  lemma SlicesAreHonest(d: Desk, e: Event, sid: SessionId, s: Session, file: Bytes)
    requires SameSession(d, sid, s) && s.totalSize == |file| && SendsSlices(e, sid, file, s.chunkSize)
    requires e.Land? && e.flight.chunk.session == sid
    ensures Honest(d, e)
  {
    var i := e.flight.chunk.index;
    assert i * s.chunkSize <= (i + 1) * s.chunkSize;
  }

  ghost predicate WithinQuota(d: Desk) {
    d.db.used + Reserved(d.sessions) <= d.db.quota
  }

  lemma SizesStep(d: Desk, e: Event, limits: Limits)
    requires CanHappen(d, e) && Honest(d, e) && SizesOk(d)
    ensures SizesOk(Next(d, e, limits))
  {
    hide SliceSize, Joined, FileCreated, Reserved, ValidName, Step, CeilDiv, Possible, MissingChunks, AllStored;
  }

  /** A completed session leaves exactly the difference between what was stored and what was
      declared unaccounted for. */
  lemma CompletionAccounts(d: Desk, sid: SessionId, item: Id, version: Id, key: Key, checksum: string, now: nat)
    ensures var r := CompleteSession(d, sid, item, version, key, checksum, now);
            r.Accepted? ==>
              r.desk.db.used + Reserved(r.desk.sessions) ==
              d.db.used + Reserved(d.sessions) +
              |Joined(d.temp, sid, d.sessions[sid].totalChunks)| - d.sessions[sid].totalSize
  {
    hide Joined, FreeName, IsFreeName, Sum;
    var r := CompleteSession(d, sid, item, version, key, checksum, now);
    if r.Accepted? {
      SumTake(ActiveSizes(d.sessions), sid);
      assert ActiveSizes(r.desk.sessions) == ActiveSizes(d.sessions) - {sid};
    }
  }

  lemma HonestContent(d: Desk, sid: SessionId)
    requires DeskInv(d) && SizesOk(d) && sid in d.sessions && AllStored(d, sid)
    ensures |Joined(d.temp, sid, d.sessions[sid].totalChunks)| == d.sessions[sid].totalSize
  {
    hide Joined, SliceSize, Inv, CeilDiv;
    var s := d.sessions[sid];
    assert SessionOk(d.db, s);
    CeilDivIs(s.totalSize, s.chunkSize);
    SizesJoin(d.temp, sid, s.totalSize, s.chunkSize, s.totalChunks);
  }

  lemma StepUsed(db: Db, op: Op)
    requires !op.UploadFile?
    ensures Step(db, op).used <= db.used && Step(db, op).quota == db.quota
  {
    hide FreeName, IsFreeName, ValidName, Below, Prune, Capture, RestoredItems, Subtree, Reclaimed, NamesIn, FreedBytes;
  }

  lemma QuotaOnOpen(d: Desk, e: Event, limits: Limits)
    requires e.Open? && CanHappen(d, e) && WithinQuota(d)
    ensures WithinQuota(Next(d, e, limits))
  {
    hide ValidName, CeilDiv, Sum, PlaceError;
    var t := Next(d, e, limits);
    if t != d {
      SumPut(ActiveSizes(d.sessions), e.sid, e.totalSize);
      assert ActiveSizes(t.sessions) == ActiveSizes(d.sessions)[e.sid := e.totalSize];
    }
  }

  lemma QuotaOnFinish(d: Desk, sid: SessionId, item: Id, version: Id, key: Key, checksum: string, now: nat)
    requires DeskInv(d) && SizesOk(d) && WithinQuota(d)
    ensures WithinQuota(Settled(d, CompleteSession(d, sid, item, version, key, checksum, now)))
  {
    hide Joined, FileCreated, DeskInv, SizesOk, Reserved;
    if CompleteSession(d, sid, item, version, key, checksum, now).Accepted? {
      HonestContent(d, sid);
      CompletionAccounts(d, sid, item, version, key, checksum, now);
      FileCreatedQuota(d.db, d.sessions[sid], item, version, key,
                       |Joined(d.temp, sid, d.sessions[sid].totalChunks)|, checksum, now);
    }
  }

  lemma QuotaOnEnd(d: Desk, e: Event, limits: Limits)
    requires (e.Cancel? || e.CleanUp?) && WithinQuota(d)
    ensures WithinQuota(Next(d, e, limits))
  {
    hide Sum;
    var t := Next(d, e, limits);
    if e.Cancel? && t != d {
      SumMonotone(ActiveSizes(d.sessions), {e.sid});
      assert ActiveSizes(t.sessions) == ActiveSizes(d.sessions) - {e.sid};
    }
    if e.CleanUp? {
      SumMonotone(ActiveSizes(d.sessions), Expired(d.sessions, e.now));
      assert ActiveSizes(t.sessions) == ActiveSizes(d.sessions) - Expired(d.sessions, e.now);
    }
  }

  lemma QuotaOnChunk(d: Desk, e: Event, limits: Limits)
    requires (e.Begin? || e.Land? || e.Record? || e.Drop?) && WithinQuota(d) && OnTime(d, e)
    ensures WithinQuota(Next(d, e, limits))
  {
    hide Sum;
    assert ActiveSizes(Next(d, e, limits).sessions) == ActiveSizes(d.sessions);
  }

  lemma UnplacedSizes(sessions: map<SessionId, Session>, items: map<Id, Item>)
    ensures ActiveSizes(Unplaced(sessions, items)) == ActiveSizes(sessions)
  {
  }

  lemma QuotaOnOther(d: Desk, op: Op, limits: Limits)
    requires WithinQuota(d) && !op.UploadFile?
    ensures WithinQuota(Next(d, Other(op), limits))
  {
    StepUsed(d.db, op);
    UnplacedSizes(d.sessions, Step(d.db, op).items);
    hide Step, ActiveSizes, Unplaced, Sum;
  }

  lemma QuotaStep(d: Desk, e: Event, limits: Limits)
    requires DeskInv(d) && CanHappen(d, e) && Honest(d, e) && OnTime(d, e) && SizesOk(d) && WithinQuota(d)
    ensures WithinQuota(Next(d, e, limits))
  {
    match e
    case Open(_, _, _, _, _) => QuotaOnOpen(d, e, limits);
    case Finish(sid, file, version, key, checksum, now) =>
      QuotaOnFinish(d, sid, file, version, key, checksum, now);
    case Other(op) => QuotaOnOther(d, op, limits);
    case Cancel(_) => QuotaOnEnd(d, e, limits);
    case CleanUp(_) => QuotaOnEnd(d, e, limits);
    case _ => QuotaOnChunk(d, e, limits);
  }

  lemma FileCreatedQuota(db: Db, s: Session, file: Id, version: Id, key: Key, size: nat, checksum: string, now: nat)
    ensures FileCreated(db, s, file, version, key, size, checksum, now).quota == db.quota
  {
    hide FreeName, IsFreeName;
  }

  ghost predicate HonestRun(d: Desk, events: seq<Event>, limits: Limits)
    decreases |events|
  {
    events == [] || (Honest(d, events[0]) && HonestRun(Next(d, events[0], limits), events[1..], limits))
  }

  /** With truthful clients, chunked uploads only, and rows recorded on time, the bytes used and
      the bytes promised to active sessions never exceed the quota, however the sessions
      interleave. */
  lemma {:induction false} QuotaNeverOversold(d: Desk, events: seq<Event>, limits: Limits)
    requires DeskInv(d) && SizesOk(d) && WithinQuota(d)
    requires PossibleEvents(d, events, limits) && HonestRun(d, events, limits) && RunOnTime(d, events, limits)
    ensures WithinQuota(After(d, events, limits))
    decreases |events|
  {
    if events != [] {
      hide DeskInv, CanHappen, Next, SizesOk, WithinQuota, Honest, OnTime;
      EventKeeps(d, events[0], limits);
      SizesStep(d, events[0], limits);
      QuotaStep(d, events[0], limits);
      QuotaNeverOversold(Next(d, events[0], limits), events[1..], limits);
    }
  }

  /** All three conditions are needed. A simple upload checks only its declared size against the
      quota, not the reservations: it leaves the promises kept exactly when there was room for
      both. */
  lemma SimpleUploadOversells(d: Desk, op: Op, limits: Limits)
    requires op.UploadFile? && Step(d.db, op) != d.db
    ensures WithinQuota(Next(d, Other(op), limits)) <==> d.db.used + op.size + Reserved(d.sessions) <= d.db.quota
  {
    UnplacedSizes(d.sessions, Step(d.db, op).items);
    hide FreeName, IsFreeName, ValidName, Sum, ActiveSizes, Unplaced;
  }

  /** A desk with one session of one declared byte, for which two bytes were sent. */
  function TwoBytesSent(db: Db, sid: SessionId, chunkSize: Positive): Desk {
    Desk(db, map[sid := Session(None, "a", 1, chunkSize, 1, Uploading, 9)], map[ChunkId(sid, 0) := 2],
         map[ChunkId(sid, 0) := [0, 0]], map[], map[])
  }

  lemma OneChunk(c: Positive)
    ensures CeilDiv(1, c) == 1
  {
    CeilDivIs(1, c);
    assert 1 * c >= 1;
  }

  /** Open a session of one byte, send it two. */
  function SendsTwo(sid: SessionId): seq<Event> {
    var f := Flight(ChunkId(sid, 0), 0);
    [Open(sid, None, "a", 1, 9), Begin(f), Land(f, [0, 0]), Record(f)]
  }

  lemma OneByteOpened(db: Db, sid: SessionId, limits: Limits)
    requires db.used == 0 && db.quota == 1 && limits.maxFileSize >= 1
    ensures var d0 := Desk(db, map[], map[], map[], map[], map[]);
            && WithinQuota(d0)
            && Next(d0, SendsTwo(sid)[0], limits) ==
               d0.(sessions := map[sid := Session(None, "a", 1, limits.chunkSize, 1, Pending, 9)])
  {
    var none: map<SessionId, Session> := map[];
    assert ActiveSizes(none) == map[];
    assert ValidName("a") == Some("a");
    OneChunk(limits.chunkSize);
    hide Sum, CeilDiv, ValidName;
  }

  lemma OpenedAndSent(db: Db, sid: SessionId, limits: Limits)
    requires db.used == 0 && db.quota == 1 && limits.maxFileSize >= 1
    ensures var d0 := Desk(db, map[], map[], map[], map[], map[]);
            var e := SendsTwo(sid);
            WithinQuota(d0) &&
            Next(Next(Next(Next(d0, e[0], limits), e[1], limits), e[2], limits), e[3], limits) ==
            TwoBytesSent(db, sid, limits.chunkSize)
  {
    hide WithinQuota, CreateSession;
    OneByteOpened(db, sid, limits);
    var e := SendsTwo(sid);
    var f := Flight(ChunkId(sid, 0), 0);
    var d2 := Next(Next(Desk(db, map[], map[], map[], map[], map[]), e[0], limits), e[1], limits);
    assert d2.flights == map[f := Streaming(true)];
    var d3 := Next(d2, e[2], limits);
    assert d3.flights == map[f := Landed(true, 2)];
    assert d3.flights - {f} == map[];
  }

  /** A chunk larger than declared is taken as it is: one session of one byte can store two. */
  lemma LargerChunkOversells(db: Db, sid: SessionId, item: Id, version: Id, key: Key, checksum: string, limits: Limits)
    requires Good(db) && db.used == 0 && db.quota == 1 && limits.maxFileSize >= 1
    requires item !in db.kinds && version !in db.versions && key !in db.owners && key !in db.blobs
    ensures var d0 := Desk(db, map[], map[], map[], map[], map[]);
            var e := SendsTwo(sid);
            var sent := Next(Next(Next(Next(d0, e[0], limits), e[1], limits), e[2], limits), e[3], limits);
            var done := Next(sent, Finish(sid, item, version, key, checksum, 0), limits);
            WithinQuota(d0) && WithinQuota(sent) && !WithinQuota(done)
  {
    OpenedAndSent(db, sid, limits);
    var d2 := TwoBytesSent(db, sid, limits.chunkSize);
    TwoBytesJoined(db, sid, limits.chunkSize);
    CompletionAccounts(d2, sid, item, version, key, checksum, 0);
    FileCreatedQuota(db, d2.sessions[sid], item, version, key, 2, checksum, 0);
    FinishSettles(d2, sid, item, version, key, checksum, limits);
    hide Next, FileCreated, Joined, Reserved, Inv;
    assert CompleteSession(d2, sid, item, version, key, checksum, 0).Accepted?;
  }

  lemma FinishSettles(d: Desk, sid: SessionId, item: Id, version: Id, key: Key, checksum: string, limits: Limits)
    ensures Next(d, Finish(sid, item, version, key, checksum, 0), limits) ==
            Settled(d, CompleteSession(d, sid, item, version, key, checksum, 0))
  {
  }

  lemma TwoBytesJoined(db: Db, sid: SessionId, chunkSize: Positive)
    ensures var d := TwoBytesSent(db, sid, chunkSize);
            && MissingChunks(d, sid) == {} && |Joined(d.temp, sid, 1)| == 2 && Reserved(d.sessions) == 1
  {
    var d := TwoBytesSent(db, sid, chunkSize);
    assert Joined(d.temp, sid, 0) == [];
    assert Joined(d.temp, sid, 1) == [] + d.temp[ChunkId(sid, 0)];
    var none: map<SessionId, nat> := map[];
    SumPut(none, sid, 1);
    assert ActiveSizes(d.sessions) == none[sid := 1];
  }

  // ----- a chunk still streaming when its session ends -----

  /** A cancelled session still has this chunk's row and blob, and no request is under way. */
  ghost predicate LeftBehind(d: Desk, c: ChunkId) {
    && c in d.rows && c in d.temp && c.session in d.sessions && d.sessions[c.session].status.Cancelled?
    && forall f :: f in d.flights ==> f.chunk.session != c.session
  }

  lemma StaysBehind(d: Desk, e: Event, limits: Limits, c: ChunkId)
    requires LeftBehind(d, c) && CanHappen(d, e)
    ensures LeftBehind(Next(d, e, limits), c)
  {
    hide Joined, FileCreated, Reserved, ValidName, Step, Possible, CeilDiv, MissingChunks, AllStored;
  }

  /** Nothing ever removes them: no second cancel, no clean-up, no other call. */
  lemma {:induction false} LeftBehindForever(d: Desk, events: seq<Event>, limits: Limits, c: ChunkId)
    requires LeftBehind(d, c) && PossibleEvents(d, events, limits)
    ensures LeftBehind(After(d, events, limits), c)
    decreases |events|
  {
    if events != [] {
      hide LeftBehind, CanHappen, Next;
      StaysBehind(d, events[0], limits, c);
      LeftBehindForever(Next(d, events[0], limits), events[1..], limits, c);
    }
  }

  /** A session cancelled between a first chunk's blob and its row: the blob is not listed and
      stays, the row is written afterwards, and both stay for ever. */
  lemma LateChunkLeaks(d: Desk, f: Flight, events: seq<Event>, limits: Limits)
    requires f in d.flights && d.flights[f].Landed? && !d.flights[f].wasPending
    requires IsActive(d, f.chunk.session) && f.chunk in d.temp && f.chunk !in d.rows
    requires forall g :: g in d.flights && g != f ==> g.chunk.session != f.chunk.session
    requires PossibleEvents(RecordChunk(Next(d, Cancel(f.chunk.session), limits), f), events, limits)
    ensures LeftBehind(After(RecordChunk(Next(d, Cancel(f.chunk.session), limits), f), events, limits), f.chunk)
  {
    hide PossibleEvents, After;
    LeftBehindForever(RecordChunk(Next(d, Cancel(f.chunk.session), limits), f), events, limits, f.chunk);
  }

  /** A session first seen pending is even made active again, and its bytes reserved again. */
  lemma LateChunkRevives(d: Desk, f: Flight, limits: Limits)
    requires f in d.flights && d.flights[f].Landed? && d.flights[f].wasPending && IsActive(d, f.chunk.session)
    ensures var sid := f.chunk.session;
            var cancelled := Next(d, Cancel(sid), limits);
            var t := RecordChunk(cancelled, f);
            && cancelled.sessions[sid].status.Cancelled? && t.sessions[sid].status.Uploading?
            && Reserved(t.sessions) == Reserved(cancelled.sessions) + d.sessions[sid].totalSize
  {
    hide Sum;
    var sid := f.chunk.session;
    var cancelled := Next(d, Cancel(sid), limits);
    var t := RecordChunk(cancelled, f);
    SumPut(ActiveSizes(cancelled.sessions), sid, d.sessions[sid].totalSize);
    assert ActiveSizes(t.sessions) == ActiveSizes(cancelled.sessions)[sid := d.sessions[sid].totalSize];
  }
}
