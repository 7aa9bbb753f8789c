/** Chunked resumable uploads: the session state machine, its invariant and its promises. */
module Upload {
  import opened Text
  import opened Sums
  import opened Forest
  import opened Names
  import opened Drive
  import opened Snapshots
  import opened Trash
  import opened Restore
  import opened Runs
  import opened Keys

  type Bytes = seq<bv8>

  datatype SessionId = SessionId(uuid: nat)

  /** A chunk row and its temporary blob are both named by session and index. */
  datatype ChunkId = ChunkId(session: SessionId, index: nat)

  datatype Status = Pending | Uploading | Completed | Failed | Cancelled

  datatype Session = Session(parent: Option<Id>, filename: string, totalSize: nat, chunkSize: Positive,
                             totalChunks: nat, status: Status, expires: nat)

  /** One request that sends a chunk; retries of a chunk differ in their number. */
  datatype Flight = Flight(chunk: ChunkId, attempt: nat)

  /** How far such a request is: streaming, or its blob is stored and its row is not. Whether
      the session was pending is what the request saw when it began. */
  datatype Stage = Streaming(wasPending: bool) | Landed(wasPending: bool, size: nat)

  /** The drive, the sessions, the chunk rows with their recorded sizes, the temporary blobs,
      the contents of the merged blobs, and the chunk requests under way. */
  datatype Desk = Desk(db: Db, sessions: map<SessionId, Session>, rows: map<ChunkId, nat>,
                       temp: map<ChunkId, Bytes>, contents: map<Key, Bytes>, flights: map<Flight, Stage>)

  type Positive = n: int | n > 0 witness 1

  datatype Limits = Limits(chunkSize: Positive, maxFileSize: nat)

  datatype Refusal = NoSession | BadName | TooLarge | BadPlace(error: Error) | NoSpace |
                     AlreadyTerminal | OutOfRange | Incomplete(missing: nat) | BlobGone | RowsFailed

  datatype Reply = Accepted(desk: Desk) | Refused(why: Refusal)

  predicate Terminal(status: Status) {
    status.Completed? || status.Failed? || status.Cancelled?
  }

  /** `-(-n // c)` */
  function CeilDiv(n: nat, c: Positive): int {
    -((0 - n) / c)
  }

  /** The least number of chunks that hold `n` bytes. */
  lemma CeilDivIs(n: nat, c: Positive)
    ensures CeilDiv(n, c) >= 0 && CeilDiv(n, c) * c >= n
    ensures forall t: nat :: t * c >= n ==> t >= CeilDiv(n, c)
  {
    var d := CeilDiv(n, c);
    CeilDivBounds(n, c);
    hide CeilDiv;
    if d < 0 {
      ProductGrows(d, -1, c);
    }
    forall t: nat | t * c >= n
      ensures t >= d
    {
      if t < d {
        ProductGrows(t, d - 1, c);
      }
    }
  }

  lemma CeilDivBounds(n: nat, c: Positive)
    ensures CeilDiv(n, c) * c >= n && (CeilDiv(n, c) - 1) * c < n
  {
    var q := (0 - n) / c;
    assert 0 - n == q * c + (0 - n) % c;
    assert CeilDiv(n, c) * c == 0 - q * c;
    assert (CeilDiv(n, c) - 1) * c == CeilDiv(n, c) * c - c;
  }

  lemma ProductGrows(a: int, b: int, c: nat)
    requires a <= b
    ensures a * c <= b * c
  {
  }

  // ----- the operations -----

  ghost function Reserved(sessions: map<SessionId, Session>): nat {
    Sum(ActiveSizes(sessions))
  }

  function ActiveSizes(sessions: map<SessionId, Session>): map<SessionId, nat> {
    map s | s in sessions && !Terminal(sessions[s].status) :: sessions[s].totalSize
  }

  ghost function CreateSession(d: Desk, sid: SessionId, parent: Option<Id>, rawName: string, totalSize: nat,
                               expires: nat, limits: Limits): Reply
  {
    match ValidName(rawName)
    case None => Refused(BadName)
    case Some(name) =>
      if totalSize > limits.maxFileSize then Refused(TooLarge)
      else match PlaceError(d.db.items, parent)
           case Some(error) => Refused(BadPlace(error))
           case None =>
             if d.db.quota - d.db.used < totalSize + Reserved(d.sessions) then Refused(NoSpace)
             else
               CeilDivIs(totalSize, limits.chunkSize);
               Accepted(d.(sessions := d.sessions[sid := Session(parent, name, totalSize, limits.chunkSize,
                 CeilDiv(totalSize, limits.chunkSize), Pending, expires)]))
  }

  /** Why a chunk is not taken. */
  function ChunkRefused(d: Desk, sid: SessionId, index: int): Option<Refusal> {
    if sid !in d.sessions then Some(NoSession)
    else if Terminal(d.sessions[sid].status) then Some(AlreadyTerminal)
    else if index < 0 || index >= d.sessions[sid].totalChunks then Some(OutOfRange)
    else None
  }

  /** A request begins: the checks are made on the session as it is now. */
  function BeginChunk(d: Desk, f: Flight): Desk {
    if ChunkRefused(d, f.chunk.session, f.chunk.index).Some? then d
    else d.(flights := d.flights[f := Streaming(d.sessions[f.chunk.session].status.Pending?)])
  }

  /** Its stream has ended: the temporary blob is there, over an earlier attempt's. */
  function LandChunk(d: Desk, f: Flight, data: Bytes): Desk
    requires f in d.flights
  {
    d.(temp := d.temp[f.chunk := data], flights := d.flights[f := Landed(d.flights[f].wasPending, |data|)])
  }

  /** The row is upserted, and a session first seen pending is marked uploading. Without its
      session the row violates its foreign key. */
  function RecordChunk(d: Desk, f: Flight): Desk
    requires f in d.flights && d.flights[f].Landed?
  {
    var t := d.(flights := d.flights - {f});
    var sid := f.chunk.session;
    if sid !in d.sessions then t
    else t.(rows := d.rows[f.chunk := d.flights[f].size],
            sessions := if d.flights[f].wasPending
                        then d.sessions[sid := d.sessions[sid].(status := Uploading)]
                        else d.sessions)
  }

  /** A whole request that nothing interrupts. */
  function UploadChunk(d: Desk, sid: SessionId, index: int, data: Bytes): Reply {
    match ChunkRefused(d, sid, index)
    case Some(why) => Refused(why)
    case None =>
      var c := ChunkId(sid, index);
      var s := d.sessions[sid];
      Accepted(d.(temp := d.temp[c := data], rows := d.rows[c := |data|],
                  sessions := if s.status.Pending? then d.sessions[sid := s.(status := Uploading)] else d.sessions))
  }

  /** An uninterrupted request is its three steps in a row. */
  lemma UploadIsThreeSteps(d: Desk, sid: SessionId, index: nat, data: Bytes, attempt: nat)
    requires ChunkRefused(d, sid, index).None? && Flight(ChunkId(sid, index), attempt) !in d.flights
    ensures var f := Flight(ChunkId(sid, index), attempt);
            var landed := LandChunk(BeginChunk(d, f), f, data);
            landed.flights[f].Landed? && UploadChunk(d, sid, index, data) == Accepted(RecordChunk(landed, f))
  {
    var f := Flight(ChunkId(sid, index), attempt);
    var begun := BeginChunk(d, f);
    var landed := LandChunk(begun, f, data);
    assert landed.flights - {f} == d.flights;
  }

  function MissingChunks(d: Desk, sid: SessionId): set<nat>
    requires sid in d.sessions
  {
    set i: nat | i < d.sessions[sid].totalChunks && ChunkId(sid, i) !in d.rows
  }

  /** Every chunk of the session has its temporary blob. */
  predicate AllStored(d: Desk, sid: SessionId)
    requires sid in d.sessions
  {
    forall i: nat :: i < d.sessions[sid].totalChunks ==> ChunkId(sid, i) in d.temp
  }

  function ChunkData(temp: map<ChunkId, Bytes>, c: ChunkId): Bytes {
    if c in temp then temp[c] else []
  }

  /** The first `n` chunks of a session joined in order of their index. */
  function Joined(temp: map<ChunkId, Bytes>, sid: SessionId, n: nat): Bytes {
    if n == 0 then [] else Joined(temp, sid, n - 1) + ChunkData(temp, ChunkId(sid, n - 1))
  }

  /** The rows of every session but one, and the chunks of that one. */
  function WithoutSession(rows: map<ChunkId, nat>, sid: SessionId): map<ChunkId, nat> {
    map c | c in rows && c.session != sid :: rows[c]
  }

  function Listed(rows: map<ChunkId, nat>, sid: SessionId): set<ChunkId> {
    set c | c in rows && c.session == sid
  }

  /** `_discard_chunks`: the blobs that rows list, and the rows. */
  function DiscardChunks(d: Desk, sid: SessionId): Desk {
    d.(rows := WithoutSession(d.rows, sid), temp := d.temp - Listed(d.rows, sid))
  }

  function SetStatus(d: Desk, sid: SessionId, status: Status): Desk
    requires sid in d.sessions
  {
    d.(sessions := d.sessions[sid := d.sessions[sid].(status := status)])
  }

  /** The drive with the merged file as a new item. */
  ghost function FileCreated(db: Db, s: Session, file: Id, version: Id, key: Key, size: nat, checksum: string,
                             now: nat): Db {
    var (stem, ext) := SplitName(s.filename);
    var name := FreeName(NamesIn(db.items, s.parent, None), s.filename, stem, ext);
    CommitUpload(WriteBlob(db, file, key, size, now), file, version, s.parent, name, key, checksum)
  }

  ghost function CompleteSession(d: Desk, sid: SessionId, file: Id, version: Id, key: Key, checksum: string,
                                 now: nat): Reply {
    if sid !in d.sessions then Refused(NoSession)
    else if Terminal(d.sessions[sid].status) then Refused(AlreadyTerminal)
    else if MissingChunks(d, sid) != {} then Refused(Incomplete(|MissingChunks(d, sid)|))
    else
      var s := d.sessions[sid];
      if !AllStored(d, sid) then Refused(BlobGone)
      else
        var content := Joined(d.temp, sid, s.totalChunks);
        var made := d.(db := FileCreated(d.db, s, file, version, key, |content|, checksum, now),
                       contents := d.contents[key := content]);
        Accepted(SetStatus(DiscardChunks(made, sid), sid, Completed))
  }

  function CancelSession(d: Desk, sid: SessionId): Reply {
    if sid !in d.sessions then Refused(NoSession)
    else if d.sessions[sid].status.Completed? then Refused(AlreadyTerminal)
    else if d.sessions[sid].status.Cancelled? then Accepted(d)
    else Accepted(SetStatus(DiscardChunks(d, sid), sid, Cancelled))
  }

  function Expired(sessions: map<SessionId, Session>, now: nat): set<SessionId> {
    set s | s in sessions && sessions[s].expires < now && !Terminal(sessions[s].status)
  }

  function WithoutSessions(rows: map<ChunkId, nat>, gone: set<SessionId>): map<ChunkId, nat> {
    map c | c in rows && c.session !in gone :: rows[c]
  }

  function ListedIn(rows: map<ChunkId, nat>, gone: set<SessionId>): set<ChunkId> {
    set c | c in rows && c.session in gone
  }

  /** `cleanup_expired`, for the sessions `gone`. */
  function Cleaned(d: Desk, gone: set<SessionId>): Desk {
    d.(sessions := d.sessions - gone, rows := WithoutSessions(d.rows, gone), temp := d.temp - ListedIn(d.rows, gone))
  }

  /** The foreign key of the target folder is ON DELETE SET NULL: a session whose folder row
      has gone uploads to the root. */
  function Unplaced(sessions: map<SessionId, Session>, items: map<Id, Item>): map<SessionId, Session> {
    map sid | sid in sessions :: UnplacedSession(sessions[sid], items)
  }

  function UnplacedSession(s: Session, items: map<Id, Item>): Session {
    if s.parent.Some? && s.parent.value !in items then s.(parent := None) else s
  }

  // ----- events -----

  datatype Event =
    | Open(sid: SessionId, parent: Option<Id>, name: string, totalSize: nat, expires: nat)
    | Begin(flight: Flight)
    | Land(flight: Flight, data: Bytes)
    | Record(flight: Flight)
    | Drop(flight: Flight)
    | Finish(sid: SessionId, file: Id, version: Id, key: Key, checksum: string, now: nat)
    | Cancel(sid: SessionId)
    | CleanUp(now: nat)
    | Other(op: Op)

  /** Session ids, item ids and storage keys are new when they are issued, and a request goes
      through its steps in order. */
  ghost predicate CanHappen(d: Desk, e: Event) {
    match e
    case Open(sid, _, _, _, _) =>
      && sid !in d.sessions
      && (forall c :: c in d.temp ==> c.session != sid)
      && forall f :: f in d.flights ==> f.chunk.session != sid
    case Begin(f) => f !in d.flights
    case Land(f, _) => f in d.flights && d.flights[f].Streaming?
    case Record(f) => f in d.flights && d.flights[f].Landed?
    case Drop(f) => f in d.flights
    case Finish(_, file, version, key, _, _) =>
      file !in d.db.kinds && version !in d.db.versions && key !in d.db.owners && key !in d.db.blobs
    case Other(op) => Possible(d.db, op) && (op.UploadFile? ==> op.key !in d.contents)
    case _ => true
  }

  function Settled(d: Desk, r: Reply): Desk {
    if r.Accepted? then r.desk else d
  }

  ghost function Next(d: Desk, e: Event, limits: Limits): Desk {
    match e
    case Open(sid, parent, name, totalSize, expires) =>
      Settled(d, CreateSession(d, sid, parent, name, totalSize, expires, limits))
    case Begin(f) => BeginChunk(d, f)
    case Land(f, data) => if f in d.flights then LandChunk(d, f, data) else d
    case Record(f) => if f in d.flights && d.flights[f].Landed? then RecordChunk(d, f) else d
    case Drop(f) => d.(flights := d.flights - {f})
    case Finish(sid, file, version, key, checksum, now) =>
      Settled(d, CompleteSession(d, sid, file, version, key, checksum, now))
    case Cancel(sid) => Settled(d, CancelSession(d, sid))
    case CleanUp(now) => Cleaned(d, Expired(d.sessions, now))
    case Other(op) =>
      var db := Step(d.db, op);
      d.(db := db, sessions := Unplaced(d.sessions, db.items))
  }

  // ----- the invariant -----

  ghost predicate SessionOk(db: Db, s: Session) {
    && s.totalChunks == CeilDiv(s.totalSize, s.chunkSize)
    && (s.parent.Some? ==> s.parent.value in db.items && db.items[s.parent.value].kind.Folder?)
  }

  /** The index of a chunk is one of its session's. */
  ghost predicate InRange(d: Desk, c: ChunkId) {
    c.session in d.sessions ==> c.index < d.sessions[c.session].totalChunks
  }

  ghost predicate ChunksOk(d: Desk) {
    && (forall c :: c in d.rows ==> c.session in d.sessions && InRange(d, c))
    && (forall f :: f in d.flights ==> InRange(d, f.chunk))
  }

  ghost predicate ContentsOk(d: Desk) {
    && (forall k :: k in d.contents && k in d.db.blobs ==> d.db.blobs[k].size == |d.contents[k]|)
    && (forall k :: k in d.contents ==> k in d.db.owners)
  }

  ghost predicate DeskOk(d: Desk) {
    && (forall sid :: sid in d.sessions ==> SessionOk(d.db, d.sessions[sid]))
    && ChunksOk(d) && ContentsOk(d)
  }

  ghost predicate DeskInv(d: Desk) {
    Good(d.db) && DeskOk(d)
  }

  lemma OpenKeeps(d: Desk, e: Event, limits: Limits)
    requires DeskInv(d) && e.Open? && CanHappen(d, e)
    ensures DeskInv(Next(d, e, limits))
  {
    hide Inv, ValidName, Reserved, CeilDiv;
    var t := Next(d, e, limits);
    if t != d {
      forall c | c in t.rows
        ensures c.session in t.sessions && InRange(t, c)
      {
        assert InRange(d, c);
      }
      forall f | f in t.flights
        ensures InRange(t, f.chunk)
      {
        assert InRange(d, f.chunk);
      }
    }
  }

  /** Only statuses of sessions, rows, blobs and requests have changed. */
  lemma Reshuffled(d: Desk, t: Desk)
    requires DeskInv(d) && t.db == d.db && t.contents == d.contents && t.sessions.Keys == d.sessions.Keys
    requires forall sid :: sid in d.sessions ==> t.sessions[sid] == d.sessions[sid].(status := t.sessions[sid].status)
    requires forall c :: c in t.rows ==> c in d.rows || (c.session in d.sessions && InRange(d, c))
    requires forall f :: f in t.flights ==> f in d.flights || InRange(d, f.chunk)
    ensures DeskInv(t)
  {
    hide Inv, CeilDiv;
    forall c | c in t.rows
      ensures c.session in t.sessions && InRange(t, c)
    {
      assert InRange(d, c);
    }
    forall f | f in t.flights
      ensures InRange(t, f.chunk)
    {
      assert InRange(d, f.chunk);
    }
  }

  lemma RecordKeeps(d: Desk, f: Flight)
    requires DeskInv(d) && f in d.flights && d.flights[f].Landed?
    ensures DeskInv(RecordChunk(d, f))
  {
    hide Inv, CeilDiv;
    assert InRange(d, f.chunk);
    Reshuffled(d, RecordChunk(d, f));
  }

  lemma ChunkKeeps(d: Desk, e: Event, limits: Limits)
    requires DeskInv(d) && CanHappen(d, e) && (e.Begin? || e.Land? || e.Record? || e.Drop?)
    ensures DeskInv(Next(d, e, limits))
  {
    hide DeskInv, RecordChunk;
    if e.Record? {
      RecordKeeps(d, e.flight);
    } else {
      Reshuffled(d, Next(d, e, limits));
    }
  }

  lemma DiscardKeeps(d: Desk, sid: SessionId, status: Status)
    requires DeskOk(d) && sid in d.sessions
    ensures DeskOk(SetStatus(DiscardChunks(d, sid), sid, status))
  {
    hide CeilDiv;
    var t := SetStatus(DiscardChunks(d, sid), sid, status);
    forall c | c in t.rows
      ensures c.session in t.sessions && InRange(t, c)
    {
      assert InRange(d, c);
    }
    forall f | f in t.flights
      ensures InRange(t, f.chunk)
    {
      assert InRange(d, f.chunk);
    }
  }

  /** The new item keeps the drive's invariant. */
  lemma FileCreatedInv(db: Db, s: Session, file: Id, version: Id, key: Key, size: nat, checksum: string, now: nat)
    requires Good(db) && SessionOk(db, s)
    requires file !in db.kinds && version !in db.versions && key !in db.owners && key !in db.blobs
    ensures Good(FileCreated(db, s, file, version, key, size, checksum, now))
  {
    hide Inv, FreeName, IsFreeName, SplitName, CeilDiv;
    WriteBlobInv(db, file, key, size, now);
    var (stem, ext) := SplitName(s.filename);
    var name := FreeName(NamesIn(db.items, s.parent, None), s.filename, stem, ext);
    CommitUploadInv(WriteBlob(db, file, key, size, now), file, version, s.parent, name, key, checksum);
  }

  lemma FileCreatedSpreads(db: Db, s: Session, file: Id, version: Id, key: Key, size: nat, checksum: string, now: nat)
    ensures var t := FileCreated(db, s, file, version, key, size, checksum, now);
            && t.blobs == db.blobs[key := Blob(size, now)]
            && t.owners == db.owners[key := file]
            && t.items - {file} == db.items - {file}
  {
    hide FreeName, IsFreeName;
  }

  /** Storing the merged blob under a new key and the item under a new id. */
  lemma StoredKeeps(d: Desk, made: Desk, file: Id, key: Key, content: Bytes, now: nat)
    requires DeskOk(d) && file !in d.db.items && key !in d.db.owners
    requires made.sessions == d.sessions && made.rows == d.rows && made.flights == d.flights
    requires made.contents == d.contents[key := content]
    requires made.db.blobs == d.db.blobs[key := Blob(|content|, now)]
    requires made.db.owners == d.db.owners[key := file]
    requires forall x :: x in d.db.items ==> x in made.db.items && made.db.items[x] == d.db.items[x]
    ensures DeskOk(made)
  {
    hide CeilDiv;
    forall sid | sid in made.sessions
      ensures SessionOk(made.db, made.sessions[sid])
    {
      assert SessionOk(d.db, d.sessions[sid]);
    }
    forall c | c in made.rows
      ensures c.session in made.sessions && InRange(made, c)
    {
      assert InRange(d, c);
    }
    forall f | f in made.flights
      ensures InRange(made, f.chunk)
    {
      assert InRange(d, f.chunk);
    }
  }

  lemma OthersStay(items: map<Id, Item>, after: map<Id, Item>, file: Id)
    requires after - {file} == items - {file} && file !in items
    ensures forall x :: x in items ==> x in after && after[x] == items[x]
  {
    forall x | x in items
      ensures x in after && after[x] == items[x]
    {
      assert x in items - {file} && (items - {file})[x] == items[x];
      assert x in after - {file} && (after - {file})[x] == after[x];
    }
  }

  lemma FinishKeeps(d: Desk, e: Event, limits: Limits)
    requires DeskInv(d) && e.Finish? && CanHappen(d, e)
    ensures DeskInv(Next(d, e, limits))
  {
    hide Inv, Joined, CeilDiv, FileCreated, MissingChunks, AllStored;
    var t := Next(d, e, limits);
    if t != d {
      var s := d.sessions[e.sid];
      assert SessionOk(d.db, s);
      var content := Joined(d.temp, e.sid, s.totalChunks);
      var made := d.(db := t.db, contents := d.contents[e.key := content]);
      ItemsHaveKinds(d.db);
      hide DeskOk, DiscardChunks, SetStatus;
      FileCreatedInv(d.db, s, e.file, e.version, e.key, |content|, e.checksum, e.now);
      FileCreatedSpreads(d.db, s, e.file, e.version, e.key, |content|, e.checksum, e.now);
      OthersStay(d.db.items, t.db.items, e.file);
      StoredKeeps(d, made, e.file, e.key, content, e.now);
      DiscardKeeps(made, e.sid, Completed);
    }
  }

  lemma CleanUpKeeps(d: Desk, gone: set<SessionId>)
    requires DeskInv(d)
    ensures DeskInv(Cleaned(d, gone))
  {
    hide Inv, CeilDiv;
    var t := Cleaned(d, gone);
    forall c | c in t.rows
      ensures c.session in t.sessions && InRange(t, c)
    {
      assert InRange(d, c);
    }
    forall f | f in t.flights
      ensures InRange(t, f.chunk)
    {
      assert InRange(d, f.chunk);
    }
  }

  /** An upload adds one blob under its own key. */
  lemma UploadSpread(db: Db, op: Op)
    requires op.UploadFile? && Possible(db, op)
    ensures forall k :: k in Step(db, op).blobs && k != op.key ==> k in db.blobs && Step(db, op).blobs[k] == db.blobs[k]
    ensures forall k :: k in db.owners ==> k in Step(db, op).owners
  {
    hide FreeName, IsFreeName, ValidName;
  }

  /** Item ids keep their kind for ever. */
  lemma StepKinds(db: Db, op: Op)
    requires Possible(db, op)
    ensures forall x :: x in db.kinds ==> x in Step(db, op).kinds && Step(db, op).kinds[x] == db.kinds[x]
  {
    hide FreeName, IsFreeName, ValidName, Below, Prune, Capture, RestoredItems, Subtree, Reclaimed, NamesIn;
  }

  /** A row that is still there is of the kind it was. */
  lemma SameKind(db: Db, op: Op, x: Id)
    requires Inv(db) && Inv(Step(db, op)) && Possible(db, op) && x in db.items && x in Step(db, op).items
    ensures Step(db, op).items[x].kind == db.items[x].kind
  {
    StepKinds(db, op);
    hide Step, Possible, IsForest, ContentOk, Sum;
    assert ItemOk(db, x, db.items[x]) && ItemOk(Step(db, op), x, Step(db, op).items[x]);
  }

  lemma OtherKeeps(d: Desk, e: Event, limits: Limits)
    requires DeskInv(d) && e.Other? && CanHappen(d, e)
    ensures DeskInv(Next(d, e, limits))
  {
    hide Inv, CeilDiv, Possible, Step, KeysMove;
    var t := Next(d, e, limits);
    StepInv(d.db, e.op);
    if e.op.UploadFile? {
      UploadSpread(d.db, e.op);
    } else {
      StepKeys(d.db, e.op);
    }
    forall sid | sid in t.sessions
      ensures SessionOk(t.db, t.sessions[sid])
    {
      assert SessionOk(d.db, d.sessions[sid]);
      if t.sessions[sid].parent.Some? {
        SameKind(d.db, e.op, t.sessions[sid].parent.value);
      }
    }
    forall c | c in t.rows
      ensures c.session in t.sessions && InRange(t, c)
    {
      assert InRange(d, c);
    }
    forall f | f in t.flights
      ensures InRange(t, f.chunk)
    {
      assert InRange(d, f.chunk);
    }
  }

  /** Session calls, chunk requests in any interleaving and drive operations keep the desk. */
  lemma EventKeeps(d: Desk, e: Event, limits: Limits)
    requires DeskInv(d) && CanHappen(d, e)
    ensures DeskInv(Next(d, e, limits))
  {
    match e
    case Open(_, _, _, _, _) => OpenKeeps(d, e, limits);
    case Finish(_, _, _, _, _, _) => FinishKeeps(d, e, limits);
    case Cancel(sid) =>
      if sid in d.sessions {
        DiscardKeeps(d, sid, Cancelled);
      }
    case CleanUp(now) => CleanUpKeeps(d, Expired(d.sessions, now));
    case Other(_) => OtherKeeps(d, e, limits);
    case _ => ChunkKeeps(d, e, limits);
  }
}
