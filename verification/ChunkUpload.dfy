/**
 src/routes/chunks.rs, src/db/chunks.rs: concurrent chunk uploads.

 Assumed of the database: a statement reads the rows committed when it starts
 plus its own transaction's; `FOR UPDATE` takes an exclusive lock on the session
 row, held until commit or abort; UNIQUE (session, speaker, client_chunk_id).
 Assumed of the object store: a put is atomic. An aborted or crashed handler
 loses its uncommitted row and its lock, but an object it already put stays.
 */
module ChunkUpload {
  import opened Prelude
  import opened Ids
  import opened ObjectKeys
  import opened ObjectStore

  type SessionId = nat
  type TxId = nat

  const MAX_CHUNK_BYTES: nat := 3 * 1024 * 1024
  const I32_MAX: int := 0x7FFF_FFFF

  datatype Session = Session(prefix: string, guild: int)

  datatype Request = Request(session: SessionId, speaker: PseudoId, clientId: string, body: Bytes)

  /** A row of session_chunks; `body` and `writer` record whose bytes it stands for and who wrote it. */
  datatype Row = Row(
    session: SessionId, speaker: PseudoId, number: int, key: string,
    sizeBytes: int, clientId: string, body: Bytes, writer: TxId)

  datatype Error = NotFound | PayloadTooLarge | OutOfRange | UniqueViolation | Crashed

  datatype Phase =
    | Started
    | Missed
    | Locked
    | Reserved(row: Row)
    | Stored(row: Row)
    | Keyed(row: Row)
    | Committed(row: Row)
    | Answered(number: int, key: string, deduplicated: bool)
    | Failed(error: Error)
  {
    predicate Holds() { Locked? || Reserved? || Stored? || Keyed? }

    predicate Over() { Answered? || Failed? }
  }

  datatype Upload = Upload(req: Request, phase: Phase)

  datatype ChunkEvent = ChunkEvent(session: SessionId, guild: int, speaker: PseudoId, number: int, sizeBytes: int, writer: TxId)

  datatype AuditRow = AuditRow(session: SessionId, speaker: PseudoId, number: int, sizeBytes: int)

  /** `table` lists the committed rows in commit order. */
  datatype State = State(
    table: seq<Row>,
    locks: map<SessionId, TxId>,
    objects: map<string, Bytes>,
    uploads: map<TxId, Upload>,
    audit: seq<AuditRow>,
    events: seq<ChunkEvent>)

  const EMPTY := State([], map[], map[], map[], [], [])

  // ----- the queries -----

  predicate InStream(r: Row, session: SessionId, speaker: PseudoId) {
    r.session == session && r.speaker == speaker
  }

  predicate IsClientRow(r: Row, req: Request) {
    InStream(r, req.session, req.speaker) && r.clientId == req.clientId
  }

  function FindClientRow(table: seq<Row>, req: Request): (found: Option<Row>)
    ensures found.Some? ==> found.value in table && IsClientRow(found.value, req)
    ensures found.None? ==> forall i :: 0 <= i < |table| ==> !IsClientRow(table[i], req)
  {
    if |table| == 0 then None
    else if IsClientRow(table[|table|-1], req) then Some(table[|table|-1])
    else FindClientRow(table[..|table|-1], req)
  }

  /** `COALESCE(MAX(seq), -1)` over one speaker's rows. */
  function MaxNumber(table: seq<Row>, session: SessionId, speaker: PseudoId): int {
    if |table| == 0 then -1
    else
      var m := MaxNumber(table[..|table|-1], session, speaker);
      if InStream(table[|table|-1], session, speaker) then Max(table[|table|-1].number, m) else m
  }

  function KeyOf(sessions: map<SessionId, Session>, session: SessionId, speaker: PseudoId, number: nat): string
    requires session in sessions
  {
    FormatKey(KeyParts(sessions[session].prefix, speaker, number))
  }

  // ----- the steps of a handler -----

  datatype Action =
    | Begin(t: TxId, req: Request)
    | Lookup(t: TxId)
    | Lock(t: TxId)
    | Reserve(t: TxId)
    | Put(t: TxId)
    | SetKey(t: TxId)
    | Commit(t: TxId)
    | Announce(t: TxId)
    | Crash(t: TxId)

  function Move(s: State, t: TxId, phase: Phase): State
    requires t in s.uploads
  {
    s.(uploads := s.uploads[t := Upload(s.uploads[t].req, phase)])
  }

  function Unlocked(s: State, t: TxId): State
    requires t in s.uploads
  {
    s.(locks := s.locks - {s.uploads[t].req.session})
  }

  /** The unlocked idempotency lookup that opens the transaction. */
  function AfterLookup(s: State, t: TxId): State
    requires t in s.uploads
  {
    match FindClientRow(s.table, s.uploads[t].req)
    case Some(row) => Move(s, t, Answered(row.number, row.key, true))
    case None => Move(s, t, Missed)
  }

  /** `SELECT ... FOR UPDATE` on the session; waits while another handler holds it. */
  function AfterLock(sessions: map<SessionId, Session>, s: State, t: TxId): State
    requires t in s.uploads
  {
    var session := s.uploads[t].req.session;
    if session !in sessions then Move(s, t, Failed(NotFound))
    else if session in s.locks then s
    else Move(s.(locks := s.locks[session := t]), t, Locked)
  }

  /** Read the body, then `INSERT ... MAX(seq) + 1` with a placeholder key. */
  function AfterReserve(s: State, t: TxId): State
    requires t in s.uploads
  {
    var req := s.uploads[t].req;
    var number := MaxNumber(s.table, req.session, req.speaker) + 1;
    if |req.body| > MAX_CHUNK_BYTES then Move(Unlocked(s, t), t, Failed(PayloadTooLarge))
    else if number > I32_MAX then Move(Unlocked(s, t), t, Failed(OutOfRange))
    else if FindClientRow(s.table, req).Some? then Move(Unlocked(s, t), t, Failed(UniqueViolation))
    else Move(s, t, Reserved(Row(req.session, req.speaker, number, "", |req.body|, req.clientId, req.body, t)))
  }

  function Entry(row: Row): AuditRow { AuditRow(row.session, row.speaker, row.number, row.sizeBytes) }

  /** The object put; the row is still uncommitted. */
  function AfterPut(sessions: map<SessionId, Session>, s: State, t: TxId, row: Row): State
    requires t in s.uploads
  {
    if row.session !in sessions || row.number < 0 then s
    else Move(s.(objects := s.objects[KeyOf(sessions, row.session, row.speaker, row.number) := s.uploads[t].req.body]),
              t, Stored(row))
  }

  /** `UPDATE session_chunks SET s3_key` on the reserved row. */
  function AfterSetKey(sessions: map<SessionId, Session>, s: State, t: TxId, row: Row): State
    requires t in s.uploads
  {
    if row.session !in sessions || row.number < 0 then s
    else Move(s, t, Keyed(row.(key := KeyOf(sessions, row.session, row.speaker, row.number))))
  }

  /** Row and audit entry become visible together and the lock is released. */
  function AfterCommit(s: State, t: TxId, row: Row): State
    requires t in s.uploads
  {
    Move(Unlocked(s, t).(table := s.table + [row], audit := s.audit + [Entry(row)]), t, Committed(row))
  }

  /** The event, then the answer. */
  function AfterAnnounce(sessions: map<SessionId, Session>, s: State, t: TxId, row: Row): State
    requires t in s.uploads
  {
    if row.session !in sessions then s
    else
      var e := ChunkEvent(row.session, sessions[row.session].guild, row.speaker, row.number, row.sizeBytes, t);
      Move(s.(events := s.events + [e]), t, Answered(row.number, row.key, false))
  }

  /** A failure or disconnect anywhere before the answer: the transaction is rolled back. */
  function AfterCrash(s: State, t: TxId): State
    requires t in s.uploads
  {
    var phase := s.uploads[t].phase;
    if phase.Over() then s
    else if phase.Holds() then Move(Unlocked(s, t), t, Failed(Crashed))
    else Move(s, t, Failed(Crashed))
  }

  function Step(sessions: map<SessionId, Session>, s: State, a: Action): State {
    if a.Begin? then
      if a.t in s.uploads then s else s.(uploads := s.uploads[a.t := Upload(a.req, Started)])
    else if a.t !in s.uploads then s
    else
      match (a, s.uploads[a.t].phase)
      case (Lookup(t), Started) => AfterLookup(s, t)
      case (Lock(t), Missed) => AfterLock(sessions, s, t)
      case (Reserve(t), Locked) => AfterReserve(s, t)
      case (Put(t), Reserved(row)) => AfterPut(sessions, s, t, row)
      case (SetKey(t), Stored(row)) => AfterSetKey(sessions, s, t, row)
      case (Commit(t), Keyed(row)) => AfterCommit(s, t, row)
      case (Announce(t), Committed(row)) => AfterAnnounce(sessions, s, t, row)
      case (Crash(t), _) => AfterCrash(s, t)
      case _ => s
  }

  /** Any interleaving of any number of handlers. */
  function Run(sessions: map<SessionId, Session>, actions: seq<Action>): State {
    if |actions| == 0 then EMPTY
    else Step(sessions, Run(sessions, actions[..|actions|-1]), actions[|actions|-1])
  }

  // ----- what every step keeps -----

  function Count(table: seq<Row>, session: SessionId, speaker: PseudoId): nat {
    if |table| == 0 then 0
    else Count(table[..|table|-1], session, speaker) +
         (if InStream(table[|table|-1], session, speaker) then 1 else 0)
  }

  /** Every committed row carries its final key and the next free seq of its stream. */
  ghost predicate RowOk(sessions: map<SessionId, Session>, table: seq<Row>, i: nat)
    requires i < |table|
  {
    var r := table[i];
    && r.session in sessions
    && 0 <= r.number <= I32_MAX
    && r.number == Count(table[..i], r.session, r.speaker)
    && r.key == KeyOf(sessions, r.session, r.speaker, r.number)
    && r.sizeBytes == |r.body| <= MAX_CHUNK_BYTES
  }

  ghost predicate TableOk(sessions: map<SessionId, Session>, table: seq<Row>) {
    && (forall i :: 0 <= i < |table| ==> RowOk(sessions, table, i))
    && (forall i, j :: 0 <= i < j < |table| ==>
          !(InStream(table[i], table[j].session, table[j].speaker) && table[i].clientId == table[j].clientId))
    && (forall i, j :: 0 <= i < j < |table| ==> table[i].writer != table[j].writer)
  }

  predicate RowOfRequest(row: Row, t: TxId, req: Request) {
    row.writer == t && IsClientRow(row, req) && row.body == req.body
  }

  /** An uncommitted row: whoever holds the lock has reserved exactly the next seq. */
  ghost predicate Pending(sessions: map<SessionId, Session>, s: State, t: TxId, req: Request, row: Row) {
    && RowOfRequest(row, t, req)
    && row.session in sessions
    && row.number == Count(s.table, row.session, row.speaker) <= I32_MAX
    && row.sizeBytes == |row.body| <= MAX_CHUNK_BYTES
    && FindClientRow(s.table, req).None?
  }

  ghost predicate Owns(s: State, t: TxId, session: SessionId) { session in s.locks && s.locks[session] == t }

  ghost predicate Wrote(s: State, t: TxId) { exists i :: 0 <= i < |s.table| && s.table[i].writer == t }

  ghost predicate Announced(s: State, t: TxId) { exists i :: 0 <= i < |s.events| && s.events[i].writer == t }

  ghost predicate UploadOk(sessions: map<SessionId, Session>, s: State, t: TxId)
    requires t in s.uploads
  {
    var req, phase := s.uploads[t].req, s.uploads[t].phase;
    && (phase.Holds() ==> Owns(s, t, req.session) && req.session in sessions)
    && (phase.Started? || phase.Missed? || phase.Holds() ==> !Wrote(s, t))
    && (!phase.Answered? || phase.deduplicated ==> !Announced(s, t))
    && match phase
       case Reserved(row) => Pending(sessions, s, t, req, row) && row.key == ""
       case Stored(row) => Pending(sessions, s, t, req, row)
       case Keyed(row) =>
         Pending(sessions, s, t, req, row) && row.key == KeyOf(sessions, row.session, row.speaker, row.number)
       case Committed(row) => row in s.table && RowOfRequest(row, t, req)
       case Answered(number, key, dedup) =>
         exists row :: row in s.table && IsClientRow(row, req) && row.number == number && row.key == key
                       && (!dedup ==> RowOfRequest(row, t, req) && Announced(s, t))
       case Failed(e) =>
         e.UniqueViolation? ==> exists row :: row in s.table && IsClientRow(row, req) && row.writer != t
       case _ => true
  }

  ghost predicate LocksOk(s: State) {
    forall session :: session in s.locks ==>
      var t := s.locks[session];
      t in s.uploads && s.uploads[t].phase.Holds() && s.uploads[t].req.session == session
  }

  /** The handler that wrote a committed row has committed, answered for it, or died afterwards. */
  ghost predicate WriterOk(s: State, row: Row) {
    && row.writer in s.uploads
    && RowOfRequest(row, row.writer, s.uploads[row.writer].req)
    && match s.uploads[row.writer].phase
       case Committed(r) => r == row
       case Answered(number, key, dedup) => !dedup && number == row.number && key == row.key
       case Failed(e) => e == Crashed
       case _ => false
  }

  ghost predicate EventsOk(sessions: map<SessionId, Session>, s: State) {
    && (forall i :: 0 <= i < |s.events| ==> EventOk(sessions, s, s.events[i]))
    && (forall i, j :: 0 <= i < j < |s.events| ==> s.events[i].writer != s.events[j].writer)
  }

  /** An event tells of a committed row that its own handler wrote and answered for. */
  ghost predicate EventOk(sessions: map<SessionId, Session>, s: State, e: ChunkEvent) {
    exists row :: row in s.table && Tells(sessions, e, row)
  }

  predicate Tells(sessions: map<SessionId, Session>, e: ChunkEvent, row: Row) {
    row.session in sessions &&
    e == ChunkEvent(row.session, sessions[row.session].guild, row.speaker, row.number, row.sizeBytes, row.writer)
  }

  function AuditOf(table: seq<Row>): (a: seq<AuditRow>)
    ensures |a| == |table|
  {
    seq(|table|, i requires 0 <= i < |table| => Entry(table[i]))
  }

  ghost predicate UploadsOk(sessions: map<SessionId, Session>, s: State) {
    forall t :: t in s.uploads ==> UploadOk(sessions, s, t)
  }

  ghost predicate WritersOk(s: State) {
    forall i :: 0 <= i < |s.table| ==> WriterOk(s, s.table[i])
  }

  ghost predicate Inv(sessions: map<SessionId, Session>, s: State) {
    && TableOk(sessions, s.table)
    && LocksOk(s)
    && UploadsOk(sessions, s)
    && WritersOk(s)
    && EventsOk(sessions, s)
    && s.audit == AuditOf(s.table)
  }

  // ----- steps that change one handler's phase only -----

  /** `after` differs from `s` in handler t, and in no lock but that of t's session. */
  ghost predicate OnlyMoves(s: State, after: State, t: TxId) {
    && t in s.uploads && t in after.uploads
    && after.uploads == s.uploads[t := after.uploads[t]]
    && after.uploads[t].req == s.uploads[t].req
    && after.table == s.table && after.events == s.events && after.audit == s.audit
    && (forall session :: session != s.uploads[t].req.session ==>
          (session in after.locks <==> session in s.locks)
          && (session in s.locks ==> after.locks[session] == s.locks[session]))
  }

  lemma OtherUploadKept(sessions: map<SessionId, Session>, s: State, after: State, t: TxId, other: TxId)
    requires OnlyMoves(s, after, t) && LocksOk(s)
    requires other != t && other in s.uploads && UploadOk(sessions, s, other)
    requires s.uploads[t].req.session in s.locks ==> s.locks[s.uploads[t].req.session] == t || after.locks == s.locks
    ensures UploadOk(sessions, after, other)
  {
  }

  lemma WritersKept(s: State, after: State, t: TxId)
    requires OnlyMoves(s, after, t) && WritersOk(s)
    requires !Wrote(s, t)
    ensures WritersOk(after)
  {
  }

  lemma {:induction false} MoveKeepsInvariant(sessions: map<SessionId, Session>, s: State, after: State, t: TxId)
    requires Inv(sessions, s) && OnlyMoves(s, after, t)
    requires s.uploads[t].req.session in s.locks ==> s.locks[s.uploads[t].req.session] == t || after.locks == s.locks
    requires !Wrote(s, t)
    requires LocksOk(after) && UploadOk(sessions, after, t)
    ensures Inv(sessions, after)
  {
    hide TableOk, UploadOk, WriterOk, EventOk, LocksOk;
    WritersKept(s, after, t);
    forall other | other in after.uploads ensures UploadOk(sessions, after, other) {
      if other != t {
        OtherUploadKept(sessions, s, after, t, other);
      }
    }
    forall i | 0 <= i < |after.events| ensures EventOk(sessions, after, after.events[i]) {
      EventKept(sessions, s, after, s.events[i]);
    }
  }

  lemma EventKept(sessions: map<SessionId, Session>, s: State, after: State, e: ChunkEvent)
    requires EventOk(sessions, s, e) && s.table <= after.table
    ensures EventOk(sessions, after, e)
  {
  }

  // ----- what the queries mean on a well-formed table -----

  lemma {:induction false} MaxIsCount(sessions: map<SessionId, Session>, table: seq<Row>, session: SessionId, speaker: PseudoId)
    requires forall i :: 0 <= i < |table| ==> RowOk(sessions, table, i)
    ensures MaxNumber(table, session, speaker) == Count(table, session, speaker) - 1
  {
    hide KeyOf;
    if |table| > 0 {
      var init := table[..|table|-1];
      forall i | 0 <= i < |init| ensures RowOk(sessions, init, i) {
        assert RowOk(sessions, table, i) && init[..i] == table[..i] && init[i] == table[i];
      }
      MaxIsCount(sessions, init, session, speaker);
      assert RowOk(sessions, table, |table| - 1);
    }
  }

  // ----- step by step -----

  lemma {:induction false} BeginKeeps(sessions: map<SessionId, Session>, s: State, t: TxId, req: Request)
    requires Inv(sessions, s) && t !in s.uploads
    ensures Inv(sessions, s.(uploads := s.uploads[t := Upload(req, Started)]))
  {
    hide KeyOf, FindClientRow, Count;
    var after := s.(uploads := s.uploads[t := Upload(req, Started)]);
    forall other | other in after.uploads ensures UploadOk(sessions, after, other) {
      if other == t {
        forall i | 0 <= i < |s.table| ensures s.table[i].writer != t {
          assert WriterOk(s, s.table[i]);
        }
        forall i | 0 <= i < |s.events| ensures s.events[i].writer != t {
          assert EventOk(sessions, s, s.events[i]);
        }
      } else {
        assert UploadOk(sessions, s, other);
      }
    }
    assert WritersOk(after) by {
      forall i | 0 <= i < |s.table| ensures WriterOk(after, s.table[i]) { assert WriterOk(s, s.table[i]); }
    }
    assert EventsOk(sessions, after) by {
      forall i | 0 <= i < |s.events| ensures EventOk(sessions, after, s.events[i]) {
        EventKept(sessions, s, after, s.events[i]);
      }
    }
  }

  lemma LookupAnswers(sessions: map<SessionId, Session>, s: State, t: TxId)
    requires Inv(sessions, s) && t in s.uploads && s.uploads[t].phase.Started?
    ensures UploadOk(sessions, AfterLookup(s, t), t)
  {
  }

  lemma {:induction false} LookupKeeps(sessions: map<SessionId, Session>, s: State, t: TxId)
    requires Inv(sessions, s) && t in s.uploads && s.uploads[t].phase.Started?
    ensures Inv(sessions, AfterLookup(s, t))
  {
    hide TableOk, WriterOk, EventOk, KeyOf, Count;
    assert UploadOk(sessions, s, t);
    LookupAnswers(sessions, s, t);
    hide UploadOk;
    MoveKeepsInvariant(sessions, s, AfterLookup(s, t), t);
  }

  lemma {:induction false} LockKeeps(sessions: map<SessionId, Session>, s: State, t: TxId)
    requires Inv(sessions, s) && t in s.uploads && s.uploads[t].phase.Missed?
    ensures Inv(sessions, AfterLock(sessions, s, t))
  {
    hide TableOk, WriterOk, EventOk, KeyOf;
    assert UploadOk(sessions, s, t);
    if AfterLock(sessions, s, t) != s {
      MoveKeepsInvariant(sessions, s, AfterLock(sessions, s, t), t);
    }
  }

  lemma {:induction false} RefuseKeeps(sessions: map<SessionId, Session>, s: State, t: TxId, e: Error)
    requires Inv(sessions, s) && t in s.uploads && s.uploads[t].phase.Locked?
    requires e.UniqueViolation? ==> FindClientRow(s.table, s.uploads[t].req).Some?
    ensures Inv(sessions, Move(Unlocked(s, t), t, Failed(e)))
  {
    hide TableOk, WriterOk, EventOk, KeyOf, Count;
    var after := Move(Unlocked(s, t), t, Failed(e));
    assert UploadOk(sessions, s, t);
    if e.UniqueViolation? {
      var row := FindClientRow(s.table, s.uploads[t].req).value;
      assert row in after.table && row.writer != t;
    }
    MoveKeepsInvariant(sessions, s, after, t);
  }

  lemma {:induction false} ReservedIsPending(sessions: map<SessionId, Session>, s: State, t: TxId)
    requires Inv(sessions, s) && t in s.uploads && s.uploads[t].phase.Locked?
    requires AfterReserve(s, t).uploads[t].phase.Reserved?
    ensures UploadOk(sessions, AfterReserve(s, t), t)
  {
    hide WriterOk, EventOk, KeyOf, RowOk, Count, LocksOk;
    assert UploadOk(sessions, s, t);
    MaxIsCount(sessions, s.table, s.uploads[t].req.session, s.uploads[t].req.speaker);
  }

  lemma {:induction false} ReserveKeeps(sessions: map<SessionId, Session>, s: State, t: TxId)
    requires Inv(sessions, s) && t in s.uploads && s.uploads[t].phase.Locked?
    ensures Inv(sessions, AfterReserve(s, t))
  {
    hide WriterOk, EventOk, KeyOf, TableOk, Count, MaxNumber, FindClientRow, Pending;
    var after := AfterReserve(s, t);
    if after.uploads[t].phase.Failed? {
      RefuseKeeps(sessions, s, t, after.uploads[t].phase.error);
    } else {
      assert UploadOk(sessions, s, t);
      ReservedIsPending(sessions, s, t);
      MoveKeepsInvariant(sessions, s, after, t);
    }
  }

  lemma {:induction false} PutKeeps(sessions: map<SessionId, Session>, s: State, t: TxId, row: Row)
    requires Inv(sessions, s) && t in s.uploads && s.uploads[t].phase == Reserved(row)
    ensures Inv(sessions, AfterPut(sessions, s, t, row))
  {
    hide TableOk, WriterOk, EventOk, KeyOf;
    assert UploadOk(sessions, s, t);
    MoveKeepsInvariant(sessions, s, AfterPut(sessions, s, t, row), t);
  }

  lemma {:induction false} SetKeyKeeps(sessions: map<SessionId, Session>, s: State, t: TxId, row: Row)
    requires Inv(sessions, s) && t in s.uploads && s.uploads[t].phase == Stored(row)
    ensures Inv(sessions, AfterSetKey(sessions, s, t, row))
  {
    hide TableOk, WriterOk, EventOk, KeyOf, FindClientRow, Count;
    assert UploadOk(sessions, s, t);
    MoveKeepsInvariant(sessions, s, AfterSetKey(sessions, s, t, row), t);
  }

  lemma {:induction false} CrashKeeps(sessions: map<SessionId, Session>, s: State, t: TxId)
    requires Inv(sessions, s) && t in s.uploads && !s.uploads[t].phase.Over()
    ensures Inv(sessions, AfterCrash(s, t))
  {
    hide TableOk, EventOk, KeyOf, FindClientRow, Count;
    assert UploadOk(sessions, s, t);
    if s.uploads[t].phase.Committed? {
      CrashAfterCommitKeeps(sessions, s, t);
    } else {
      MoveKeepsInvariant(sessions, s, AfterCrash(s, t), t);
    }
  }

  lemma {:induction false} CrashAfterCommitKeeps(sessions: map<SessionId, Session>, s: State, t: TxId)
    requires Inv(sessions, s) && t in s.uploads && s.uploads[t].phase.Committed?
    ensures Inv(sessions, AfterCrash(s, t))
  {
    hide TableOk, EventOk, KeyOf, FindClientRow, Count;
    var after := AfterCrash(s, t);
    assert UploadOk(sessions, s, t);
    forall other | other in after.uploads ensures UploadOk(sessions, after, other) {
      if other != t {
        OtherUploadKept(sessions, s, after, t, other);
      }
    }
    forall i | 0 <= i < |after.events| ensures EventOk(sessions, after, after.events[i]) {
      EventKept(sessions, s, after, s.events[i]);
    }
  }

  lemma {:induction false} AnnounceKeepsUpload(sessions: map<SessionId, Session>, s: State, t: TxId, row: Row, other: TxId)
    requires Inv(sessions, s) && t in s.uploads && s.uploads[t].phase == Committed(row)
    requires other in s.uploads
    ensures UploadOk(sessions, AfterAnnounce(sessions, s, t, row), other)
  {
    hide KeyOf, FindClientRow, Count, TableOk, WriterOk, EventOk, LocksOk, Announced;
    var after := AfterAnnounce(sessions, s, t, row);
    assert UploadOk(sessions, s, t) && UploadOk(sessions, s, other);
    CommittedRowOk(sessions, s, t, row);
    AnnouncedGrows(s, after, other);
  }

  lemma {:induction false} AnnounceKeeps(sessions: map<SessionId, Session>, s: State, t: TxId, row: Row)
    requires Inv(sessions, s) && t in s.uploads && s.uploads[t].phase == Committed(row)
    ensures Inv(sessions, AfterAnnounce(sessions, s, t, row))
  {
    hide KeyOf, FindClientRow, Count, TableOk, UploadOk;
    var after := AfterAnnounce(sessions, s, t, row);
    CommittedRowOk(sessions, s, t, row);
    forall other | other in after.uploads ensures UploadOk(sessions, after, other) {
      AnnounceKeepsUpload(sessions, s, t, row, other);
    }
    assert UploadOk(sessions, s, t);
    CommittedFacts(sessions, s, t, row);
    var e := after.events[|s.events|];
    assert after.events == s.events + [e] && Tells(sessions, e, row);
    forall i | 0 <= i < |s.events| ensures EventOk(sessions, after, s.events[i]) {
      EventKept(sessions, s, after, s.events[i]);
    }
    assert EventOk(sessions, after, e);
  }

  lemma CommittedFacts(sessions: map<SessionId, Session>, s: State, t: TxId, row: Row)
    requires t in s.uploads && s.uploads[t].phase == Committed(row) && UploadOk(sessions, s, t)
    ensures row in s.table && row.writer == t
    ensures forall i :: 0 <= i < |s.events| ==> s.events[i].writer != t
  {
  }

  lemma {:induction false} CommittedRowOk(sessions: map<SessionId, Session>, s: State, t: TxId, row: Row)
    requires Inv(sessions, s) && t in s.uploads && s.uploads[t].phase == Committed(row)
    ensures row.session in sessions && 0 <= row.number <= I32_MAX
    ensures row.key == KeyOf(sessions, row.session, row.speaker, row.number)
  {
    hide KeyOf, Count, FindClientRow, WriterOk, EventOk, LocksOk;
    assert UploadOk(sessions, s, t);
    var i :| 0 <= i < |s.table| && s.table[i] == row;
    assert RowOk(sessions, s.table, i);
  }

  lemma AnnouncedGrows(s: State, after: State, other: TxId)
    requires |after.events| == |s.events| + 1 && s.events == after.events[..|s.events|]
    ensures Announced(after, other) <==> Announced(s, other) || after.events[|s.events|].writer == other
  {
  }

  // ----- commit -----

  lemma {:induction false} CommitKeepsTable(sessions: map<SessionId, Session>, s: State, t: TxId, row: Row)
    requires Inv(sessions, s) && t in s.uploads && s.uploads[t].phase == Keyed(row)
    ensures TableOk(sessions, s.table + [row])
  {
    hide KeyOf, Count;
    assert UploadOk(sessions, s, t);
    var table := s.table + [row];
    forall i | 0 <= i < |table| ensures RowOk(sessions, table, i) {
      if i < |s.table| {
        assert RowOk(sessions, s.table, i) && table[..i] == s.table[..i] && table[i] == s.table[i];
      } else {
        assert table[..i] == s.table && table[i] == row;
      }
    }
    forall i | 0 <= i < |s.table| ensures !IsClientRow(s.table[i], s.uploads[t].req) && s.table[i].writer != t {}
  }

  lemma CountOther(table: seq<Row>, row: Row, session: SessionId, speaker: PseudoId)
    requires !InStream(row, session, speaker)
    ensures Count(table + [row], session, speaker) == Count(table, session, speaker)
  {
  }

  lemma FindOther(table: seq<Row>, row: Row, req: Request)
    requires !IsClientRow(row, req)
    ensures FindClientRow(table + [row], req) == FindClientRow(table, req)
  {
  }

  lemma {:induction false} WroteGrows(s: State, after: State, row: Row, other: TxId)
    requires after.table == s.table + [row]
    ensures Wrote(after, other) <==> Wrote(s, other) || row.writer == other
  {
    assert after.table[|s.table|] == row;
    forall i | 0 <= i < |s.table| ensures after.table[i] == s.table[i] {}
  }

  lemma {:induction false} CommitKeepsOther(sessions: map<SessionId, Session>, s: State, t: TxId, row: Row, other: TxId)
    requires Inv(sessions, s) && t in s.uploads && s.uploads[t].phase == Keyed(row)
    requires other in s.uploads && other != t
    ensures UploadOk(sessions, AfterCommit(s, t, row), other)
  {
    hide KeyOf, TableOk, WriterOk, EventOk, Count, FindClientRow;
    var after := AfterCommit(s, t, row);
    assert UploadOk(sessions, s, t) && UploadOk(sessions, s, other);
    WroteGrows(s, after, row, other);
    var req, phase := s.uploads[other].req, s.uploads[other].phase;
    if phase.Holds() {
      assert req.session != row.session;
      CountOther(s.table, row, req.session, req.speaker);
      FindOther(s.table, row, req);
    }
    if phase.Answered? {
      var r :| r in s.table && IsClientRow(r, req) && r.number == phase.number && r.key == phase.key
               && (!phase.deduplicated ==> RowOfRequest(r, other, req) && Announced(s, other));
      assert r in after.table;
    }
    if phase == Failed(UniqueViolation) {
      var r :| r in s.table && IsClientRow(r, req) && r.writer != other;
      assert r in after.table;
    }
  }

  lemma {:induction false} CommitKeepsWriters(sessions: map<SessionId, Session>, s: State, t: TxId, row: Row)
    requires Inv(sessions, s) && t in s.uploads && s.uploads[t].phase == Keyed(row)
    ensures WritersOk(AfterCommit(s, t, row))
  {
    hide KeyOf, TableOk, EventOk, Count, FindClientRow, LocksOk;
    var after := AfterCommit(s, t, row);
    assert UploadOk(sessions, s, t);
    forall i | 0 <= i < |after.table| ensures WriterOk(after, after.table[i]) {
      if i < |s.table| {
        assert WriterOk(s, s.table[i]) && after.table[i] == s.table[i];
      }
    }
  }

  lemma CommitKeepsOwn(sessions: map<SessionId, Session>, s: State, t: TxId, row: Row)
    requires Inv(sessions, s) && t in s.uploads && s.uploads[t].phase == Keyed(row)
    ensures UploadOk(sessions, AfterCommit(s, t, row), t)
  {
  }

  lemma {:induction false} CommitKeeps(sessions: map<SessionId, Session>, s: State, t: TxId, row: Row)
    requires Inv(sessions, s) && t in s.uploads && s.uploads[t].phase == Keyed(row)
    ensures Inv(sessions, AfterCommit(s, t, row))
  {
    hide KeyOf, TableOk, EventOk, Count, FindClientRow, UploadOk, WriterOk, WritersOk;
    var after := AfterCommit(s, t, row);
    CommitKeepsTable(sessions, s, t, row);
    CommitKeepsWriters(sessions, s, t, row);
    CommitKeepsOwn(sessions, s, t, row);
    forall other | other in after.uploads ensures UploadOk(sessions, after, other) {
      if other != t {
        CommitKeepsOther(sessions, s, t, row, other);
      }
    }
    forall i | 0 <= i < |after.events| ensures EventOk(sessions, after, after.events[i]) {
      EventKept(sessions, s, after, s.events[i]);
    }
    assert after.audit == AuditOf(after.table);
  }

  // ----- all steps -----

  lemma {:induction false} StepKeeps(sessions: map<SessionId, Session>, s: State, a: Action)
    requires Inv(sessions, s)
    ensures Inv(sessions, Step(sessions, s, a))
  {
    hide Inv, AfterLookup, AfterLock, AfterReserve, AfterPut, AfterSetKey, AfterCommit, AfterAnnounce;
    if a.Begin? {
      if a.t !in s.uploads {
        BeginKeeps(sessions, s, a.t, a.req);
      }
    } else if a.t in s.uploads {
      match (a, s.uploads[a.t].phase)
      case (Lookup(t), Started) => LookupKeeps(sessions, s, t);
      case (Lock(t), Missed) => LockKeeps(sessions, s, t);
      case (Reserve(t), Locked) => ReserveKeeps(sessions, s, t);
      case (Put(t), Reserved(row)) => PutKeeps(sessions, s, t, row);
      case (SetKey(t), Stored(row)) => SetKeyKeeps(sessions, s, t, row);
      case (Commit(t), Keyed(row)) => CommitKeeps(sessions, s, t, row);
      case (Announce(t), Committed(row)) => AnnounceKeeps(sessions, s, t, row);
      case (Crash(t), phase) =>
        if !phase.Over() {
          CrashKeeps(sessions, s, t);
        }
      case _ =>
    }
  }

  lemma {:induction false} RunKeeps(sessions: map<SessionId, Session>, actions: seq<Action>)
    ensures Inv(sessions, Run(sessions, actions))
  {
    if |actions| > 0 {
      RunKeeps(sessions, actions[..|actions|-1]);
      StepKeeps(sessions, Run(sessions, actions[..|actions|-1]), actions[|actions|-1]);
    }
  }

  // ----- contiguous seqs -----

  /** One speaker's committed rows, in commit order. */
  function Stream(table: seq<Row>, session: SessionId, speaker: PseudoId): seq<Row> {
    if |table| == 0 then []
    else Stream(table[..|table|-1], session, speaker) +
         (if InStream(table[|table|-1], session, speaker) then [table[|table|-1]] else [])
  }

  /** The n-th row of a stream: numbered n, under its own key. */
  ghost predicate StreamRowOk(sessions: map<SessionId, Session>, row: Row, session: SessionId, speaker: PseudoId, n: nat) {
    session in sessions && row.number == n && row.key == KeyOf(sessions, session, speaker, n)
  }

  lemma {:induction false} StreamCounts(sessions: map<SessionId, Session>, table: seq<Row>, session: SessionId, speaker: PseudoId)
    requires forall i :: 0 <= i < |table| ==> RowOk(sessions, table, i)
    ensures |Stream(table, session, speaker)| == Count(table, session, speaker)
    ensures forall i :: 0 <= i < |Stream(table, session, speaker)| ==>
      StreamRowOk(sessions, Stream(table, session, speaker)[i], session, speaker, i)
  {
    hide KeyOf;
    if |table| > 0 {
      var init := table[..|table|-1];
      forall i | 0 <= i < |init| ensures RowOk(sessions, init, i) {
        assert RowOk(sessions, table, i) && init[..i] == table[..i] && init[i] == table[i];
      }
      StreamCounts(sessions, init, session, speaker);
      assert RowOk(sessions, table, |table| - 1);
    }
  }

  /**
   Whatever the interleaving, aborts and crashes included, a speaker's committed
   seqs are 0, 1, 2, ... in commit order, and every committed row carries its
   own key, never the placeholder.
   */
  lemma {:induction false} SeqsAreContiguous(sessions: map<SessionId, Session>, actions: seq<Action>, session: SessionId, speaker: PseudoId)
    ensures var rows := Stream(Run(sessions, actions).table, session, speaker);
      forall i :: 0 <= i < |rows| ==> StreamRowOk(sessions, rows[i], session, speaker, i)
  {
    hide KeyOf, Run;
    RunKeeps(sessions, actions);
    StreamCounts(sessions, Run(sessions, actions).table, session, speaker);
  }

  // ----- idempotency -----

  predicate SameChunk(r: Request, q: Request) {
    r.session == q.session && r.speaker == q.speaker && r.clientId == q.clientId
  }

  lemma ClientRowUnique(sessions: map<SessionId, Session>, s: State, r: Row, q: Row, req: Request)
    requires TableOk(sessions, s.table) && r in s.table && q in s.table
    requires IsClientRow(r, req) && IsClientRow(q, req)
    ensures r == q
  {
  }

  /** The committed row an answer was taken from. */
  lemma {:induction false} AnsweredRow(sessions: map<SessionId, Session>, actions: seq<Action>, t: TxId) returns (row: Row)
    requires t in Run(sessions, actions).uploads && Run(sessions, actions).uploads[t].phase.Answered?
    ensures var s := Run(sessions, actions); var req, phase := s.uploads[t].req, s.uploads[t].phase;
      && row in s.table && IsClientRow(row, req) && row.number == phase.number && row.key == phase.key
      && (!phase.deduplicated ==> RowOfRequest(row, t, req))
  {
    hide KeyOf, Run, FindClientRow, Count, Announced, RowOk, WriterOk, EventOk, LocksOk, Pending;
    var s := Run(sessions, actions);
    RunKeeps(sessions, actions);
    assert UploadOk(sessions, s, t);
    var req, phase := s.uploads[t].req, s.uploads[t].phase;
    row :| row in s.table && IsClientRow(row, req) && row.number == phase.number && row.key == phase.key
           && (!phase.deduplicated ==> RowOfRequest(row, t, req));
  }

  /** All answers for one client chunk agree on seq and key, and only one handler answers "not deduplicated". */
  lemma {:induction false} AnswersAgree(sessions: map<SessionId, Session>, actions: seq<Action>, t: TxId, u: TxId)
    requires var s := Run(sessions, actions);
      && t in s.uploads && u in s.uploads && SameChunk(s.uploads[t].req, s.uploads[u].req)
      && s.uploads[t].phase.Answered? && s.uploads[u].phase.Answered?
    ensures var s := Run(sessions, actions);
      var a, b := s.uploads[t].phase, s.uploads[u].phase;
      && a.number == b.number && a.key == b.key
      && (!a.deduplicated && !b.deduplicated ==> t == u)
  {
    hide Inv, Run, TableOk;
    var s := Run(sessions, actions);
    InvTable(sessions, actions);
    var r := AnsweredRow(sessions, actions, t);
    var q := AnsweredRow(sessions, actions, u);
    ClientRowUnique(sessions, s, r, q, s.uploads[t].req);
  }

  lemma InvTable(sessions: map<SessionId, Session>, actions: seq<Action>)
    ensures var s := Run(sessions, actions); TableOk(sessions, s.table) && s.audit == AuditOf(s.table)
  {
    hide Run, TableOk;
    RunKeeps(sessions, actions);
  }

  /** An answered chunk is one committed row, with one audit entry. */
  lemma {:induction false} AnsweredMeansCommittedOnce(sessions: map<SessionId, Session>, actions: seq<Action>, t: TxId) returns (i: nat)
    requires t in Run(sessions, actions).uploads && Run(sessions, actions).uploads[t].phase.Answered?
    ensures var s := Run(sessions, actions);
      && i < |s.table| == |s.audit|
      && IsClientRow(s.table[i], s.uploads[t].req)
      && s.audit[i] == AuditRow(s.table[i].session, s.table[i].speaker, s.table[i].number, s.table[i].sizeBytes)
      && s.table[i].number == s.uploads[t].phase.number
      && forall j :: 0 <= j < |s.table| && IsClientRow(s.table[j], s.uploads[t].req) ==> j == i
  {
    hide Run, RowOk;
    var s := Run(sessions, actions);
    InvTable(sessions, actions);
    var r := AnsweredRow(sessions, actions, t);
    i :| 0 <= i < |s.table| && s.table[i] == r;
  }

  /** At most one event per client chunk, and only for a row that is already committed. */
  lemma {:induction false} EventsAreUnique(sessions: map<SessionId, Session>, actions: seq<Action>, i: nat, j: nat)
    requires var s := Run(sessions, actions);
      && i < |s.events| && j < |s.events|
      && s.events[i].writer in s.uploads && s.events[j].writer in s.uploads
      && SameChunk(s.uploads[s.events[i].writer].req, s.uploads[s.events[j].writer].req)
    ensures i == j
    ensures var s := Run(sessions, actions); exists row :: row in s.table && Tells(sessions, s.events[i], row)
  {
    hide KeyOf, Run, FindClientRow, Count, RowOk, UploadOk;
    var s := Run(sessions, actions);
    RunKeeps(sessions, actions);
    assert EventOk(sessions, s, s.events[i]) && EventOk(sessions, s, s.events[j]);
    var r :| r in s.table && Tells(sessions, s.events[i], r);
    var q :| q in s.table && Tells(sessions, s.events[j], q);
    var k :| 0 <= k < |s.table| && s.table[k] == r;
    var l :| 0 <= l < |s.table| && s.table[l] == q;
    assert WriterOk(s, s.table[k]) && WriterOk(s, s.table[l]);
    ClientRowUnique(sessions, s, r, q, s.uploads[r.writer].req);
  }

  /**
   Every committed row was announced and answered by its writer, unless the
   writer died between commit and answer (or has not got there yet).
   */
  lemma {:induction false} CommitsAreAccounted(sessions: map<SessionId, Session>, actions: seq<Action>, i: nat)
    requires i < |Run(sessions, actions).table|
    ensures var s := Run(sessions, actions);
      var row := s.table[i];
      && row.writer in s.uploads && RowOfRequest(row, row.writer, s.uploads[row.writer].req)
      && var phase := s.uploads[row.writer].phase;
         && (phase == Answered(row.number, row.key, false) || phase == Committed(row) || phase == Failed(Crashed))
         && (Announced(s, row.writer) <==> phase == Answered(row.number, row.key, false))
  {
    hide KeyOf, Run, FindClientRow, Count, RowOk, EventOk;
    var s := Run(sessions, actions);
    RunKeeps(sessions, actions);
    assert WriterOk(s, s.table[i]) && UploadOk(sessions, s, s.table[i].writer);
  }

  /**
   A retry that overlaps the first attempt can miss the unlocked lookup and then
   be refused by the UNIQUE constraint instead of deduplicated; but only because
   another handler already committed the chunk, so asking again is answered.
   */
  lemma {:induction false} RefusedMeansStored(sessions: map<SessionId, Session>, actions: seq<Action>, t: TxId, u: TxId)
    requires var s := Run(sessions, actions);
      && t in s.uploads && s.uploads[t].phase == Failed(UniqueViolation) && u !in s.uploads
    ensures var s := Run(sessions, actions);
      var retried := Step(sessions, Step(sessions, s, Begin(u, s.uploads[t].req)), Lookup(u));
      && u in retried.uploads && retried.uploads[u].phase.Answered? && retried.uploads[u].phase.deduplicated
      && exists row :: row in s.table && IsClientRow(row, s.uploads[t].req) && row.writer != t
                       && retried.uploads[u].phase.number == row.number && retried.uploads[u].phase.key == row.key
  {
    hide KeyOf, Run, Count, RowOk, EventOk;
    var s := Run(sessions, actions);
    RunKeeps(sessions, actions);
    assert UploadOk(sessions, s, t);
    var req := s.uploads[t].req;
    var r :| r in s.table && IsClientRow(r, req) && r.writer != t;
    var found := FindClientRow(s.table, req);
    ClientRowUnique(sessions, s, r, found.value, req);
  }
}
