/** The upload handler of src/routes/chunks.rs as it changes the tables and the store. */
module UploadService {
  import opened Prelude
  import opened Ids
  import opened ObjectKeys
  import opened ObjectStore
  import opened ChunkUpload
  import opened ChunkBytes

  datatype UploadResponse = UploadResponse(number: int, key: string, deduplicated: bool)

  /** What the client is told when the handler is done. */
  function Outcome(phase: Phase): Result<UploadResponse, Error> {
    match phase
    case Answered(number, key, dedup) => Ok(UploadResponse(number, key, dedup))
    case Failed(e) => Err(e)
    case _ => Err(Crashed)
  }

  // ----- what the client is told, column by column -----

  /** A row of the client chunk that the request names. */
  predicate IsChunkOf(row: Row, req: Request) {
    row.session == req.session && row.speaker == req.speaker && row.clientId == req.clientId
  }

  ghost predicate HasChunk(table: seq<Row>, req: Request) { exists i :: 0 <= i < |table| && IsChunkOf(table[i], req) }

  /** The answer is the seq and key of the chunk's one row. */
  ghost predicate TellsRow(table: seq<Row>, i: int, req: Request, r: UploadResponse) {
    && 0 <= i < |table| && IsChunkOf(table[i], req)
    && r.number == table[i].number && r.key == table[i].key
    && forall j :: 0 <= j < |table| && IsChunkOf(table[j], req) ==> j == i
  }

  /** What a new chunk adds: its row at the next seq, its object, its audit entry and its event. */
  ghost predicate AddsChunk(sessions: map<SessionId, Session>, s: State, after: State, t: TxId, req: Request) {
    && |after.table| == |s.table| + 1 && s.table == after.table[..|s.table|]
    && req.session in sessions
    && var row := after.table[|s.table|];
       && IsChunkOf(row, req) && row.body == req.body && row.sizeBytes == |req.body| && row.writer == t
       && row.number == Count(s.table, req.session, req.speaker)
       && row.key == FormatKey(KeyParts(sessions[req.session].prefix, req.speaker, row.number))
       && after.objects == s.objects[row.key := req.body]
       && after.audit == s.audit + [AuditRow(req.session, req.speaker, row.number, |req.body|)]
       && after.events == s.events +
            [ChunkEvent(req.session, sessions[req.session].guild, req.speaker, row.number, |req.body|, t)]
  }

  /** No new chunk: the tables, the store and the bus stay as they were. */
  ghost predicate AddsNothing(s: State, after: State) {
    && after.table == s.table && after.locks == s.locks && after.objects == s.objects
    && after.audit == s.audit && after.events == s.events
  }

  lemma FoundIsChunk(table: seq<Row>, req: Request)
    ensures FindClientRow(table, req).Some? <==> HasChunk(table, req)
    ensures FindClientRow(table, req).Some? ==>
      exists i :: 0 <= i < |table| && table[i] == FindClientRow(table, req).value && IsChunkOf(table[i], req)
  {
  }

  /** A lone handler that finds the chunk already there answers from it. */
  lemma {:induction false} SoloFinds(sessions: map<SessionId, Session>, s: State, t: TxId, req: Request)
    requires t !in s.uploads && FindClientRow(s.table, req).Some?
    ensures var row, after := FindClientRow(s.table, req).value, RunFrom(sessions, s, Solo(t, req));
      AddsNothing(s, after) && t in after.uploads && after.uploads[t].phase == Answered(row.number, row.key, true)
  {
    hide RunFrom, Solo, FindClientRow;
    SoloScript(t, req);
    TwoFurther(sessions, s, Solo(t, req), 0);
    var next := Step(sessions, Step(sessions, s, Begin(t, req)), Lookup(t));
    FinishedHandlerIsInert(sessions, next, t, Solo(t, req)[2..]);
  }

  /** Up to the lock, for a chunk nobody has stored. */
  lemma {:induction false} SoloMisses(sessions: map<SessionId, Session>, s: State, t: TxId, req: Request)
    requires t !in s.uploads && FindClientRow(s.table, req).None? && req.session !in s.locks
    ensures var next := RunFrom(sessions, s, Solo(t, req));
      if req.session in sessions
      then next == RunFrom(sessions, s.(locks := s.locks[req.session := t], uploads := s.uploads[t := Upload(req, Locked)]),
                           Solo(t, req)[3..])
      else next == s.(uploads := s.uploads[t := Upload(req, Failed(NotFound))])
  {
    hide RunFrom, Solo, FindClientRow;
    SoloScript(t, req);
    TwoFurther(sessions, s, Solo(t, req), 0);
    var missed := Step(sessions, Step(sessions, s, Begin(t, req)), Lookup(t));
    RunFromNext(sessions, missed, Solo(t, req), 2);
    var locked := Step(sessions, missed, Lock(t));
    if req.session in sessions {
      assert s.uploads[t := Upload(req, Started)][t := Upload(req, Missed)][t := Upload(req, Locked)] ==
             s.uploads[t := Upload(req, Locked)];
    } else {
      assert s.uploads[t := Upload(req, Started)][t := Upload(req, Missed)][t := Upload(req, Failed(NotFound))] ==
             s.uploads[t := Upload(req, Failed(NotFound))];
      FinishedHandlerIsInert(sessions, locked, t, Solo(t, req)[3..]);
    }
  }

  /** Under the lock, a body over the limit or an exhausted stream is refused and the lock goes. */
  lemma {:induction false} SoloRefused(sessions: map<SessionId, Session>, s: State, t: TxId, req: Request)
    requires t !in s.uploads && FindClientRow(s.table, req).None? && req.session !in s.locks && req.session in sessions
    requires |req.body| > MAX_CHUNK_BYTES || MaxNumber(s.table, req.session, req.speaker) + 1 > I32_MAX
    ensures RunFrom(sessions, s, Solo(t, req)) ==
      s.(uploads := s.uploads[t := Upload(req, Failed(if |req.body| > MAX_CHUNK_BYTES then PayloadTooLarge else OutOfRange))])
  {
    hide RunFrom, Solo, FindClientRow, MaxNumber;
    SoloScript(t, req);
    SoloMisses(sessions, s, t, req);
    var locked := s.(locks := s.locks[req.session := t], uploads := s.uploads[t := Upload(req, Locked)]);
    RunFromNext(sessions, locked, Solo(t, req), 3);
    FinishedHandlerIsInert(sessions, Step(sessions, locked, Reserve(t)), t, Solo(t, req)[4..]);
    assert s.locks[req.session := t] - {req.session} == s.locks;
    var e := if |req.body| > MAX_CHUNK_BYTES then PayloadTooLarge else OutOfRange;
    assert s.uploads[t := Upload(req, Locked)][t := Upload(req, Failed(e))] == s.uploads[t := Upload(req, Failed(e))];
  }

  /** The four ways a lone handler can end, by what a caller can check beforehand. */
  lemma {:induction false} SoloOutcome(sessions: map<SessionId, Session>, s: State, t: TxId, req: Request)
    requires Inv(sessions, s) && t !in s.uploads && req.session !in s.locks
    ensures var after := RunFrom(sessions, s, Solo(t, req));
      && t in after.uploads
      && var r := Outcome(after.uploads[t].phase);
         && (HasChunk(s.table, req) ==> AddsNothing(s, after) && r.Ok? && r.value.deduplicated && Told(after.table, req, r.value))
         && (!HasChunk(s.table, req) ==>
               if req.session !in sessions then AddsNothing(s, after) && r == Err(NotFound)
               else if |req.body| > 3_145_728 then AddsNothing(s, after) && r == Err(PayloadTooLarge)
               else if Count(s.table, req.session, req.speaker) > 2_147_483_647 then AddsNothing(s, after) && r == Err(OutOfRange)
               else AddsChunk(sessions, s, after, t, req) && r.Ok? && !r.value.deduplicated && Told(after.table, req, r.value))
  {
    hide RunFrom, Solo, Inv, Count, MaxNumber, FindClientRow, HasChunk, TellsRow, FormatKey;
    FoundIsChunk(s.table, req);
    SoloTable(sessions, s, req);
    if HasChunk(s.table, req) {
      SoloFinds(sessions, s, t, req);
      FoundTellsRow(sessions, s, req);
    } else if req.session !in sessions {
      SoloMisses(sessions, s, t, req);
    } else if |req.body| > MAX_CHUNK_BYTES || MaxNumber(s.table, req.session, req.speaker) + 1 > I32_MAX {
      SoloRefused(sessions, s, t, req);
    } else {
      var number := MaxNumber(s.table, req.session, req.speaker) + 1;
      var row := Row(req.session, req.speaker, number, KeyOf(sessions, req.session, req.speaker, number),
                     |req.body|, req.clientId, req.body, t);
      SoloUpload(sessions, s, t, req, row);
      NewTellsRow(s.table, row, req);
    }
  }

  ghost predicate Told(table: seq<Row>, req: Request, r: UploadResponse) { exists i :: TellsRow(table, i, req, r) }

  lemma {:induction false} SoloTable(sessions: map<SessionId, Session>, s: State, req: Request)
    requires Inv(sessions, s)
    ensures MaxNumber(s.table, req.session, req.speaker) + 1 == Count(s.table, req.session, req.speaker)
  {
    hide Count, MaxNumber, RowOk;
    MaxIsCount(sessions, s.table, req.session, req.speaker);
  }

  lemma {:induction false} FoundTellsRow(sessions: map<SessionId, Session>, s: State, req: Request)
    requires Inv(sessions, s) && FindClientRow(s.table, req).Some?
    ensures var row := FindClientRow(s.table, req).value; Told(s.table, req, UploadResponse(row.number, row.key, true))
  {
    hide RowOk, UploadsOk, LocksOk, WritersOk, EventsOk;
    FoundIsChunk(s.table, req);
    var row := FindClientRow(s.table, req).value;
    hide FindClientRow;
    var i :| 0 <= i < |s.table| && s.table[i] == row && IsChunkOf(s.table[i], req);
    assert TellsRow(s.table, i, req, UploadResponse(row.number, row.key, true));
  }

  lemma {:induction false} NewTellsRow(table: seq<Row>, row: Row, req: Request)
    requires !HasChunk(table, req) && IsChunkOf(row, req)
    ensures Told(table + [row], req, UploadResponse(row.number, row.key, false))
  {
    assert (table + [row])[|table|] == row && forall i :: 0 <= i < |table| ==> (table + [row])[i] == table[i];
    assert TellsRow(table + [row], |table|, req, UploadResponse(row.number, row.key, false));
  }

  // ----- the script step by step -----

  lemma {:induction false} FinishedHandlerIsInert(sessions: map<SessionId, Session>, s: State, t: TxId, rest: seq<Action>)
    requires t in s.uploads && s.uploads[t].phase.Over()
    requires forall i :: 0 <= i < |rest| ==> rest[i].t == t
    ensures RunFrom(sessions, s, rest) == s
    decreases |rest|
  {
    if |rest| > 0 {
      assert Step(sessions, s, rest[0]) == s;
      FinishedHandlerIsInert(sessions, s, t, rest[1..]);
    }
  }

  /** One step further along a handler's script. */
  lemma RunFromNext(sessions: map<SessionId, Session>, s: State, script: seq<Action>, k: nat)
    requires k < |script|
    ensures RunFrom(sessions, s, script[k..]) == RunFrom(sessions, Step(sessions, s, script[k]), script[k+1..])
  {
  }

  class Uploads {
    const sessions: map<SessionId, Session>
    const store: MemStore
    var table: seq<Row>
    var locks: map<SessionId, TxId>
    var uploads: map<TxId, Upload>
    var audit: seq<AuditRow>
    var events: seq<ChunkEvent>

    ghost function View(): State
      reads this, store
    {
      State(table, locks, store.objects, uploads, audit, events)
    }

    constructor (sessions: map<SessionId, Session>)
      ensures this.sessions == sessions && fresh(store) && View() == EMPTY
    {
      this.sessions := sessions;
      store := new MemStore();
      table, locks, uploads, audit, events := [], map[], map[], [], [];
    }

    /** Opens the transaction and looks the client chunk up before taking any lock. */
    method LookupByClientId(t: TxId, req: Request) returns (existing: Option<Row>)
      requires t !in uploads
      modifies this
      ensures View() == Step(sessions, Step(sessions, old(View()), Begin(t, req)), Lookup(t))
      ensures t in uploads && uploads[t].req == req
      ensures existing.None? ==> uploads[t].phase == Missed
      ensures existing.Some? ==> uploads[t].phase == Answered(existing.value.number, existing.value.key, true)
      ensures locks == old(locks)
    {
      hide FindClientRow;
      uploads := uploads[t := Upload(req, Started)];
      existing := FindClientRow(table, req);
      match existing {
        case Some(row) => uploads := uploads[t := Upload(req, Answered(row.number, row.key, true))];
        case None => uploads := uploads[t := Upload(req, Missed)];
      }
    }

    /** Locks the session row; the caller waits until it is free. */
    method GetInTx(t: TxId) returns (r: Result<Session, Error>)
      requires t in uploads && uploads[t].phase.Missed? && uploads[t].req.session !in locks
      modifies this
      ensures View() == Step(sessions, old(View()), Lock(t))
      ensures t in uploads && uploads[t].req == old(uploads)[t].req
      ensures r.Ok? ==> uploads[t].phase == Locked && uploads[t].req.session in sessions
      ensures r.Err? ==> uploads[t].phase == Failed(r.error)
    {
      var req := uploads[t].req;
      if req.session in sessions {
        locks := locks[req.session := t];
        uploads := uploads[t := Upload(req, Locked)];
        r := Ok(sessions[req.session]);
      } else {
        uploads := uploads[t := Upload(req, Failed(NotFound))];
        r := Err(NotFound);
      }
    }

    /** Checks the body size and inserts the row at the next seq with a placeholder key. */
    method Insert(t: TxId) returns (r: Result<Row, Error>)
      requires t in uploads && uploads[t].phase.Locked?
      modifies this
      ensures View() == Step(sessions, old(View()), Reserve(t))
      ensures t in uploads && uploads[t].req == old(uploads)[t].req
      ensures r.Ok? ==> uploads[t].phase == Reserved(r.value)
      ensures r.Ok? ==> r.value.session == uploads[t].req.session && r.value.number >= 0
      ensures r.Err? ==> uploads[t].phase == Failed(r.error)
    {
      hide FindClientRow;
      var req := uploads[t].req;
      var number := MaxNumber(table, req.session, req.speaker) + 1;
      MaxAtLeastMinusOne(table, req.session, req.speaker);
      if |req.body| > MAX_CHUNK_BYTES {
        r := Err(PayloadTooLarge);
      } else if number > I32_MAX {
        r := Err(OutOfRange);
      } else {
        var clash := FindClientRow(table, req);
        if clash.Some? {
          r := Err(UniqueViolation);
        } else {
          r := Ok(Row(req.session, req.speaker, number, "", |req.body|, req.clientId, req.body, t));
        }
      }
      match r {
        case Ok(row) => uploads := uploads[t := Upload(req, Reserved(row))];
        case Err(e) =>
          locks := locks - {req.session};
          uploads := uploads[t := Upload(req, Failed(e))];
      }
    }

    /** Puts the object, then patches the row's key, still inside the transaction. */
    method StoreBody(t: TxId, row: Row, key: string)
      requires t in uploads && uploads[t].phase == Reserved(row)
      requires row.session in sessions && row.number >= 0
      requires key == KeyOf(sessions, row.session, row.speaker, row.number)
      modifies this, store
      ensures View() == Step(sessions, Step(sessions, old(View()), Put(t)), SetKey(t))
      ensures t in uploads && uploads[t] == Upload(old(uploads)[t].req, Keyed(row.(key := key)))
    {
      hide KeyOf;
      var req := uploads[t].req;
      store.Put(key, req.body);
      uploads := uploads[t := Upload(req, Stored(row))];
      uploads := uploads[t := Upload(req, Keyed(row.(key := key)))];
    }

    /** Commits row and audit entry together, releases the lock, then announces and answers. */
    method CommitAndAnnounce(t: TxId, row: Row)
      requires t in uploads && uploads[t].phase == Keyed(row) && row.session in sessions
      modifies this
      ensures View() == Step(sessions, Step(sessions, old(View()), Commit(t)), Announce(t))
      ensures t in uploads && uploads[t] == Upload(old(uploads)[t].req, Answered(row.number, row.key, false))
    {
      var req := uploads[t].req;
      audit := audit + [Entry(row)];
      table := table + [row];
      locks := locks - {req.session};
      uploads := uploads[t := Upload(req, Committed(row))];
      events := events +
        [ChunkEvent(row.session, sessions[row.session].guild, row.speaker, row.number, row.sizeBytes, t)];
      uploads := uploads[t := Upload(req, Answered(row.number, row.key, false))];
    }

    /** From the reserved row to the answer. */
    method FinishUpload(t: TxId, row: Row) returns (key: string)
      requires t in uploads && uploads[t].phase == Reserved(row)
      requires row.session in sessions && row.number >= 0
      modifies this, store
      ensures View() == RunFrom(sessions, old(View()), [Put(t), SetKey(t), Commit(t), Announce(t)])
      ensures t in uploads && uploads[t].phase == Answered(row.number, key, false)
    {
      hide Step, KeyOf;
      ghost var rest := [Put(t), SetKey(t), Commit(t), Announce(t)];
      assert rest[0..] == rest;
      TwoFurther(sessions, View(), rest, 0);
      key := KeyOf(sessions, row.session, row.speaker, row.number);
      StoreBody(t, row, key);
      TwoFurther(sessions, View(), rest, 2);
      CommitAndAnnounce(t, row.(key := key));
    }

    /** The whole handler: every exit leaves what the handler's own steps leave, and answers accordingly. */
    method UploadChunk(t: TxId, req: Request) returns (r: Result<UploadResponse, Error>)
      requires t !in uploads && req.session !in locks && Inv(sessions, View())
      modifies this, store
      ensures Inv(sessions, View())
      ensures View() == RunFrom(sessions, old(View()), Solo(t, req))
      ensures t in uploads && uploads[t].phase.Over() && r == Outcome(uploads[t].phase)
      ensures r.Ok? ==> (r.value.deduplicated <==> HasChunk(old(table), req)) && Told(table, req, r.value)
      ensures r == Err(NotFound) <==> !HasChunk(old(table), req) && req.session !in sessions
      ensures r == Err(PayloadTooLarge) <==>
        !HasChunk(old(table), req) && req.session in sessions && |req.body| > 3_145_728
      ensures r == Err(OutOfRange) <==>
        && !HasChunk(old(table), req) && req.session in sessions && |req.body| <= 3_145_728
        && Count(old(table), req.session, req.speaker) > 2_147_483_647
      ensures r.Err? ==> r.error.NotFound? || r.error.PayloadTooLarge? || r.error.OutOfRange?
      ensures r.Ok? && !r.value.deduplicated ==> AddsChunk(sessions, old(View()), View(), t, req)
      ensures r.Err? || r.value.deduplicated ==> AddsNothing(old(View()), View())
    {
      hide Step, Inv, KeyOf, RunFrom, Solo, HasChunk, Told, AddsChunk, AddsNothing, Count;
      ghost var start := View();
      SoloOutcome(sessions, start, t, req);
      ghost var script := Solo(t, req);
      SoloScript(t, req);
      SoloKeepsInv(sessions, start, t, req);
      TwoFurther(sessions, start, script, 0);
      var existing := LookupByClientId(t, req);
      if existing.Some? {
        FinishedHandlerIsInert(sessions, View(), t, script[2..]);
        return Ok(UploadResponse(existing.value.number, existing.value.key, true));
      }
      RunFromNext(sessions, View(), script, 2);
      var session := GetInTx(t);
      if session.Err? {
        FinishedHandlerIsInert(sessions, View(), t, script[3..]);
        return Err(session.error);
      }
      RunFromNext(sessions, View(), script, 3);
      var row := Insert(t);
      if row.Err? {
        FinishedHandlerIsInert(sessions, View(), t, script[4..]);
        return Err(row.error);
      }
      var key := FinishUpload(t, row.value);
      r := Ok(UploadResponse(row.value.number, key, false));
    }
  }

  lemma SoloScript(t: TxId, req: Request)
    ensures var script := Solo(t, req);
      && |script| == 8 && script[0..] == script
      && (forall i :: 0 <= i < 8 ==> script[i].t == t)
      && script[0] == Begin(t, req) && script[1] == Lookup(t) && script[2] == Lock(t) && script[3] == Reserve(t)
      && script[4..] == [Put(t), SetKey(t), Commit(t), Announce(t)]
  {
  }

  lemma TwoFurther(sessions: map<SessionId, Session>, s: State, script: seq<Action>, k: nat)
    requires k + 1 < |script|
    ensures RunFrom(sessions, s, script[k..]) ==
            RunFrom(sessions, Step(sessions, Step(sessions, s, script[k]), script[k+1]), script[k+2..])
  {
  }

  lemma {:induction false} MaxAtLeastMinusOne(table: seq<Row>, session: SessionId, speaker: PseudoId)
    ensures MaxNumber(table, session, speaker) >= -1
  {
    if |table| > 0 { MaxAtLeastMinusOne(table[..|table|-1], session, speaker); }
  }

  lemma {:induction false} SoloKeepsInv(sessions: map<SessionId, Session>, s: State, t: TxId, req: Request)
    requires Inv(sessions, s)
    ensures Inv(sessions, RunFrom(sessions, s, Solo(t, req)))
  {
    ScriptKeepsInv(sessions, s, Solo(t, req));
  }

  lemma {:induction false} ScriptKeepsInv(sessions: map<SessionId, Session>, s: State, script: seq<Action>)
    requires Inv(sessions, s)
    ensures Inv(sessions, RunFrom(sessions, s, script))
    decreases |script|
  {
    hide Inv, Step;
    if |script| > 0 {
      StepKeeps(sessions, s, script[0]);
      ScriptKeepsInv(sessions, Step(sessions, s, script[0]), script[1..]);
    }
  }
}
