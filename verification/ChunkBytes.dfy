/** What the object store holds for committed chunks, and exactly when that is right. */
module ChunkBytes {
  import opened Prelude
  import opened Ids
  import opened ObjectKeys
  import opened ObjectStore
  import opened ChunkUpload

  /** No two sessions were created with the same s3_prefix; the schema does not enforce it. */
  ghost predicate DistinctPrefixes(sessions: map<SessionId, Session>) {
    forall a, b :: a in sessions && b in sessions && sessions[a].prefix == sessions[b].prefix ==> a == b
  }

  predicate HoldsBytes(s: State, key: string, body: Bytes) { key in s.objects && s.objects[key] == body }

  /** Every committed row finds its own uploader's bytes at its key. */
  ghost predicate BytesKept(s: State) {
    forall i :: 0 <= i < |s.table| ==> HoldsBytes(s, s.table[i].key, s.table[i].body)
  }

  ghost predicate PutDone(sessions: map<SessionId, Session>, s: State, t: TxId)
    requires t in s.uploads
  {
    var phase := s.uploads[t].phase;
    phase.Stored? || phase.Keyed? ==>
      && phase.row.session in sessions && phase.row.number >= 0
      && HoldsBytes(s, KeyOf(sessions, phase.row.session, phase.row.speaker, phase.row.number), phase.row.body)
  }

  ghost predicate PutsDone(sessions: map<SessionId, Session>, s: State) {
    forall t :: t in s.uploads ==> PutDone(sessions, s, t)
  }

  lemma {:induction false} CountMonotone(table: seq<Row>, i: nat, session: SessionId, speaker: PseudoId)
    requires i <= |table|
    ensures Count(table[..i], session, speaker) <= Count(table, session, speaker)
    decreases |table| - i
  {
    if i < |table| {
      CountMonotone(table, i + 1, session, speaker);
      assert table[..i+1][..i] == table[..i];
    } else {
      assert table[..i] == table;
    }
  }

  /** A committed row sits strictly below the next free seq of its stream. */
  lemma {:induction false} CommittedBelowNext(sessions: map<SessionId, Session>, table: seq<Row>, i: nat)
    requires i < |table| && RowOk(sessions, table, i)
    ensures table[i].number < Count(table, table[i].session, table[i].speaker)
  {
    hide KeyOf;
    CountMonotone(table, i + 1, table[i].session, table[i].speaker);
    assert table[..i+1][..i] == table[..i];
  }

  lemma {:induction false} KeysApart(sessions: map<SessionId, Session>, a: SessionId, p: PseudoId, m: nat, b: SessionId, q: PseudoId, n: nat)
    requires DistinctPrefixes(sessions) && a in sessions && b in sessions
    requires KeyOf(sessions, a, p, m) == KeyOf(sessions, b, q, n)
    ensures a == b && p == q && m == n
  {
    KeysInjective(KeyParts(sessions[a].prefix, p, m), KeyParts(sessions[b].prefix, q, n));
  }

  /** The put of a reserved row touches no committed row's object. */
  lemma {:induction false} PutSparesCommitted(sessions: map<SessionId, Session>, s: State, t: TxId, row: Row, i: nat)
    requires DistinctPrefixes(sessions) && Inv(sessions, s)
    requires t in s.uploads && s.uploads[t].phase == Reserved(row) && i < |s.table|
    ensures row.session in sessions && row.number >= 0
    ensures s.table[i].key != KeyOf(sessions, row.session, row.speaker, row.number)
  {
    hide KeyOf, Count, WriterOk, EventOk, LocksOk, FindClientRow;
    assert UploadOk(sessions, s, t) && RowOk(sessions, s.table, i);
    CommittedBelowNext(sessions, s.table, i);
    var r := s.table[i];
    if r.key == KeyOf(sessions, row.session, row.speaker, row.number) {
      KeysApart(sessions, r.session, r.speaker, r.number, row.session, row.speaker, row.number);
    }
  }

  /** Nor any other handler's, since that one holds another session's lock. */
  lemma {:induction false} PutSparesPending(sessions: map<SessionId, Session>, s: State, t: TxId, row: Row, other: TxId)
    requires DistinctPrefixes(sessions) && Inv(sessions, s) && PutsDone(sessions, s)
    requires t in s.uploads && s.uploads[t].phase == Reserved(row) && other in s.uploads && other != t
    ensures PutDone(sessions, AfterPut(sessions, s, t, row), other)
  {
    hide KeyOf, Count, WriterOk, EventOk, FindClientRow, TableOk;
    assert UploadOk(sessions, s, t) && UploadOk(sessions, s, other) && PutDone(sessions, s, other);
    var phase := s.uploads[other].phase;
    if phase.Stored? || phase.Keyed? {
      var r := phase.row;
      if KeyOf(sessions, r.session, r.speaker, r.number) == KeyOf(sessions, row.session, row.speaker, row.number) {
        KeysApart(sessions, r.session, r.speaker, r.number, row.session, row.speaker, row.number);
      }
    }
  }

  lemma {:induction false} PutKeepsBytes(sessions: map<SessionId, Session>, s: State, t: TxId, row: Row)
    requires DistinctPrefixes(sessions) && Inv(sessions, s) && BytesKept(s) && PutsDone(sessions, s)
    requires t in s.uploads && s.uploads[t].phase == Reserved(row)
    ensures var after := AfterPut(sessions, s, t, row); BytesKept(after) && PutsDone(sessions, after)
  {
    hide KeyOf, Count, WriterOk, EventOk, FindClientRow, TableOk, LocksOk;
    var after := AfterPut(sessions, s, t, row);
    assert UploadOk(sessions, s, t);
    forall i | 0 <= i < |after.table| ensures HoldsBytes(after, after.table[i].key, after.table[i].body) {
      PutSparesCommitted(sessions, s, t, row, i);
      assert HoldsBytes(s, s.table[i].key, s.table[i].body);
    }
    forall other | other in after.uploads ensures PutDone(sessions, after, other) {
      if other != t {
        PutSparesPending(sessions, s, t, row, other);
      }
    }
  }

  lemma {:induction false} CommitKeepsBytes(sessions: map<SessionId, Session>, s: State, t: TxId, row: Row)
    requires Inv(sessions, s) && BytesKept(s) && PutsDone(sessions, s)
    requires t in s.uploads && s.uploads[t].phase == Keyed(row)
    ensures var after := AfterCommit(s, t, row); BytesKept(after) && PutsDone(sessions, after)
  {
    hide KeyOf, Count, WriterOk, EventOk, FindClientRow, TableOk, LocksOk;
    var after := AfterCommit(s, t, row);
    assert UploadOk(sessions, s, t) && PutDone(sessions, s, t);
    forall i | 0 <= i < |after.table| ensures HoldsBytes(after, after.table[i].key, after.table[i].body) {
      if i < |s.table| {
        assert after.table[i] == s.table[i] && HoldsBytes(s, s.table[i].key, s.table[i].body);
      }
    }
    forall other | other in after.uploads ensures PutDone(sessions, after, other) {
      if other != t {
        assert PutDone(sessions, s, other);
      }
    }
  }

  /** A step that neither puts nor commits changes no object and lets nobody skip the put. */
  lemma {:induction false} OtherStepKeepsBytes(sessions: map<SessionId, Session>, s: State, a: Action)
    requires BytesKept(s) && PutsDone(sessions, s)
    requires !a.Put? && !a.Commit?
    ensures var after := Step(sessions, s, a); BytesKept(after) && PutsDone(sessions, after)
  {
    hide KeyOf, FindClientRow, MaxNumber;
    var after := Step(sessions, s, a);
    assert after.objects == s.objects && after.table == s.table;
    forall i | 0 <= i < |after.table| ensures HoldsBytes(after, after.table[i].key, after.table[i].body) {
      assert HoldsBytes(s, s.table[i].key, s.table[i].body);
    }
    forall t | t in after.uploads ensures PutDone(sessions, after, t) {
      if t in s.uploads {
        assert PutDone(sessions, s, t);
      }
    }
  }

  lemma {:induction false} StepKeepsBytes(sessions: map<SessionId, Session>, s: State, a: Action)
    requires DistinctPrefixes(sessions) && Inv(sessions, s) && BytesKept(s) && PutsDone(sessions, s)
    ensures var after := Step(sessions, s, a); BytesKept(after) && PutsDone(sessions, after)
  {
    hide Inv, BytesKept, PutsDone, DistinctPrefixes, AfterPut, AfterCommit, AfterLookup, AfterLock, AfterReserve,
      AfterSetKey, AfterAnnounce, AfterCrash;
    if a.Put? && a.t in s.uploads && s.uploads[a.t].phase.Reserved? {
      PutKeepsBytes(sessions, s, a.t, s.uploads[a.t].phase.row);
    } else if a.Commit? && a.t in s.uploads && s.uploads[a.t].phase.Keyed? {
      CommitKeepsBytes(sessions, s, a.t, s.uploads[a.t].phase.row);
    } else if !a.Put? && !a.Commit? {
      OtherStepKeepsBytes(sessions, s, a);
    }
  }

  lemma {:induction false} RunKeepsBytes(sessions: map<SessionId, Session>, actions: seq<Action>)
    requires DistinctPrefixes(sessions)
    ensures BytesKept(Run(sessions, actions)) && PutsDone(sessions, Run(sessions, actions))
  {
    if |actions| > 0 {
      var init := actions[..|actions|-1];
      RunKeepsBytes(sessions, init);
      RunKeeps(sessions, init);
      StepKeepsBytes(sessions, Run(sessions, init), actions[|actions|-1]);
    }
  }

  // ----- what orphans there can be -----

  /** The object belongs to a seq that is committed or the next one to be reserved. */
  ghost predicate PlacedAt(sessions: map<SessionId, Session>, s: State, key: string, session: SessionId, speaker: PseudoId, n: nat) {
    session in sessions && n <= Count(s.table, session, speaker) && key == KeyOf(sessions, session, speaker, n)
  }

  ghost predicate Placed(sessions: map<SessionId, Session>, s: State, key: string) {
    exists session, speaker, n :: PlacedAt(sessions, s, key, session, speaker, n)
  }

  lemma PlacedStays(sessions: map<SessionId, Session>, s: State, after: State, key: string)
    requires Placed(sessions, s, key) && s.table <= after.table
    ensures Placed(sessions, after, key)
  {
    hide KeyOf;
    var session, speaker, n :| PlacedAt(sessions, s, key, session, speaker, n);
    CountMonotone(after.table, |s.table|, session, speaker);
    assert after.table[..|s.table|] == s.table;
    assert PlacedAt(sessions, after, key, session, speaker, n);
  }

  lemma StepPuts(sessions: map<SessionId, Session>, s: State, a: Action, key: string)
    requires Inv(sessions, s) && key in Step(sessions, s, a).objects && key !in s.objects
    ensures Placed(sessions, s, key)
  {
    hide KeyOf, FindClientRow, MaxNumber, Count, TableOk, WriterOk, EventOk, LocksOk;
    assert UploadOk(sessions, s, a.t);
    var row := s.uploads[a.t].phase.row;
    assert PlacedAt(sessions, s, key, row.session, row.speaker, row.number);
  }

  lemma TableGrows(sessions: map<SessionId, Session>, s: State, a: Action)
    ensures s.table <= Step(sessions, s, a).table
  {
  }

  /**
   Whatever was aborted or crashed, an object in the store sits at the key of a
   committed seq or of the very next one, so the next successful upload of that
   stream overwrites the only possible orphan before it commits.
   */
  lemma {:induction false} OrphansOnlyAtNextSeq(sessions: map<SessionId, Session>, actions: seq<Action>, key: string)
    requires key in Run(sessions, actions).objects
    ensures Placed(sessions, Run(sessions, actions), key)
  {
    hide Placed, Step;
    if |actions| > 0 {
      var init, a := actions[..|actions|-1], actions[|actions|-1];
      var s := Run(sessions, init);
      RunKeeps(sessions, init);
      TableGrows(sessions, s, a);
      if key in s.objects {
        OrphansOnlyAtNextSeq(sessions, init, key);
      } else {
        StepPuts(sessions, s, a, key);
      }
      PlacedStays(sessions, s, Run(sessions, actions), key);
    }
  }

  // ----- the failing family -----

  /** The steps of one handler that runs through without interference. */
  function Solo(t: TxId, req: Request): seq<Action> {
    [Begin(t, req), Lookup(t), Lock(t)] + [Reserve(t), Put(t), SetKey(t)] + [Commit(t), Announce(t)]
  }

  function RunFrom(sessions: map<SessionId, Session>, s: State, actions: seq<Action>): State
    decreases |actions|
  {
    if |actions| == 0 then s else RunFrom(sessions, Step(sessions, s, actions[0]), actions[1..])
  }

  lemma {:induction false} RunFromConcat(sessions: map<SessionId, Session>, s: State, a: seq<Action>, b: seq<Action>)
    ensures RunFrom(sessions, s, a + b) == RunFrom(sessions, RunFrom(sessions, s, a), b)
    decreases |a|
  {
    hide Step;
    if |a| == 0 {
      assert a + b == b;
    } else {
      assert (a + b)[1..] == a[1..] + b;
      RunFromConcat(sessions, Step(sessions, s, a[0]), a[1..], b);
    }
  }

  lemma {:induction false} RunThenRun(sessions: map<SessionId, Session>, first: seq<Action>, rest: seq<Action>)
    ensures Run(sessions, first + rest) == RunFrom(sessions, Run(sessions, first), rest)
    decreases |rest|
  {
    hide Step;
    if |rest| == 0 {
      assert first + rest == first;
    } else {
      var more := first + [rest[0]];
      assert more[..|more|-1] == first;
      assert first + rest == more + rest[1..];
      RunThenRun(sessions, more, rest[1..]);
    }
  }

  lemma {:induction false} TwoSteps(sessions: map<SessionId, Session>, s: State, a: Action, b: Action)
    ensures RunFrom(sessions, s, [a, b]) == Step(sessions, Step(sessions, s, a), b)
  {
    hide Step;
    assert [a, b][1..] == [b] && [b][1..] == [];
    assert RunFrom(sessions, Step(sessions, s, a), [b]) == RunFrom(sessions, Step(sessions, Step(sessions, s, a), b), []);
  }

  lemma {:induction false} ThreeSteps(sessions: map<SessionId, Session>, s: State, a: Action, b: Action, c: Action)
    ensures RunFrom(sessions, s, [a, b, c]) == Step(sessions, Step(sessions, Step(sessions, s, a), b), c)
  {
    hide Step;
    assert [a, b, c][1..] == [b, c];
    TwoSteps(sessions, Step(sessions, s, a), b, c);
  }

  lemma {:induction false} SoloLocks(sessions: map<SessionId, Session>, s: State, t: TxId, req: Request)
    requires t !in s.uploads && req.session in sessions && req.session !in s.locks
    requires FindClientRow(s.table, req).None?
    ensures RunFrom(sessions, s, [Begin(t, req), Lookup(t), Lock(t)]) ==
      s.(locks := s.locks[req.session := t], uploads := s.uploads[t := Upload(req, Locked)])
  {
    hide FindClientRow;
    ThreeSteps(sessions, s, Begin(t, req), Lookup(t), Lock(t));
    assert s.uploads[t := Upload(req, Started)][t := Upload(req, Missed)][t := Upload(req, Locked)] ==
           s.uploads[t := Upload(req, Locked)];
  }

  lemma SoloReserves(sessions: map<SessionId, Session>, s: State, t: TxId, req: Request, row: Row)
    requires t in s.uploads && s.uploads[t] == Upload(req, Locked)
    requires FindClientRow(s.table, req).None? && |req.body| <= MAX_CHUNK_BYTES
    requires row.number == MaxNumber(s.table, req.session, req.speaker) + 1 <= I32_MAX
    requires row == Row(req.session, req.speaker, row.number, "", |req.body|, req.clientId, req.body, t)
    ensures Step(sessions, s, Reserve(t)) == s.(uploads := s.uploads[t := Upload(req, Reserved(row))])
  {
  }

  lemma {:induction false} SoloStores(sessions: map<SessionId, Session>, s: State, t: TxId, req: Request, row: Row)
    requires t in s.uploads && s.uploads[t] == Upload(req, Locked) && req.session in sessions
    requires FindClientRow(s.table, req).None? && |req.body| <= MAX_CHUNK_BYTES
    requires 0 <= row.number == MaxNumber(s.table, req.session, req.speaker) + 1 <= I32_MAX
    requires row.key == KeyOf(sessions, req.session, req.speaker, row.number)
    requires row == Row(req.session, req.speaker, row.number, row.key, |req.body|, req.clientId, req.body, t)
    ensures RunFrom(sessions, s, [Reserve(t), Put(t), SetKey(t)]) ==
      s.(objects := s.objects[row.key := req.body], uploads := s.uploads[t := Upload(req, Keyed(row))])
  {
    hide FindClientRow, MaxNumber, KeyOf, AfterReserve;
    ThreeSteps(sessions, s, Reserve(t), Put(t), SetKey(t));
    var bare := row.(key := "");
    SoloReserves(sessions, s, t, req, bare);
    assert s.uploads[t := Upload(req, Reserved(bare))][t := Upload(req, Stored(bare))][t := Upload(req, Keyed(row))] ==
           s.uploads[t := Upload(req, Keyed(row))];
  }

  lemma {:induction false} SoloFinishes(sessions: map<SessionId, Session>, s: State, t: TxId, req: Request, row: Row)
    requires t in s.uploads && s.uploads[t] == Upload(req, Keyed(row)) && row.session == req.session && req.session in sessions
    ensures RunFrom(sessions, s, [Commit(t), Announce(t)]) ==
      State(s.table + [row], s.locks - {req.session}, s.objects,
            s.uploads[t := Upload(req, Answered(row.number, row.key, false))], s.audit + [Entry(row)],
            s.events + [ChunkEvent(row.session, sessions[row.session].guild, row.speaker, row.number, row.sizeBytes, t)])
  {
    TwoSteps(sessions, s, Commit(t), Announce(t));
    assert s.uploads[t := Upload(req, Committed(row))][t := Upload(req, Answered(row.number, row.key, false))] ==
           s.uploads[t := Upload(req, Answered(row.number, row.key, false))];
  }

  /** What an undisturbed upload of a new chunk leaves behind. */
  lemma {:induction false} SoloUpload(sessions: map<SessionId, Session>, s: State, t: TxId, req: Request, row: Row)
    requires t !in s.uploads && req.session in sessions && req.session !in s.locks
    requires FindClientRow(s.table, req).None? && |req.body| <= MAX_CHUNK_BYTES
    requires 0 <= row.number == MaxNumber(s.table, req.session, req.speaker) + 1 <= I32_MAX
    requires row.key == KeyOf(sessions, req.session, req.speaker, row.number)
    requires row == Row(req.session, req.speaker, row.number, row.key, |req.body|, req.clientId, req.body, t)
    ensures RunFrom(sessions, s, Solo(t, req)) ==
      State(s.table + [row], s.locks, s.objects[row.key := req.body],
            s.uploads[t := Upload(req, Answered(row.number, row.key, false))], s.audit + [Entry(row)],
            s.events + [ChunkEvent(row.session, sessions[row.session].guild, row.speaker, row.number, row.sizeBytes, t)])
  {
    hide FindClientRow, MaxNumber, KeyOf, Step, RunFrom;
    var begin, middle, end := [Begin(t, req), Lookup(t), Lock(t)], [Reserve(t), Put(t), SetKey(t)], [Commit(t), Announce(t)];
    RunFromConcat(sessions, s, begin + middle, end);
    RunFromConcat(sessions, s, begin, middle);
    SoloLocks(sessions, s, t, req);
    var s1 := RunFrom(sessions, s, begin);
    SoloStores(sessions, s1, t, req, row);
    var s2 := RunFrom(sessions, s1, middle);
    SoloFinishes(sessions, s2, t, req, row);
    assert s.locks[req.session := t] - {req.session} == s.locks;
    assert s.uploads[t := Upload(req, Locked)][t := Upload(req, Keyed(row))] == s.uploads[t := Upload(req, Keyed(row))];
    assert s.uploads[t := Upload(req, Keyed(row))][t := Upload(req, Answered(row.number, row.key, false))] ==
           s.uploads[t := Upload(req, Answered(row.number, row.key, false))];
  }

  /** Two sessions under one prefix: the second session's first chunk overwrites the first's. */
  lemma {:induction false} SharedPrefixLosesBytes(sessions: map<SessionId, Session>, p: Request, q: Request)
    requires p.session in sessions && q.session in sessions && p.session != q.session
    requires sessions[p.session].prefix == sessions[q.session].prefix
    requires p.speaker == q.speaker && p.body != q.body
    requires |p.body| <= MAX_CHUNK_BYTES && |q.body| <= MAX_CHUNK_BYTES
    ensures !BytesKept(Run(sessions, Solo(0, p) + Solo(1, q)))
  {
    hide KeyOf, Run, RunFrom, Step, Solo, MaxNumber, FindClientRow;
    var key := KeyOf(sessions, p.session, p.speaker, 0);
    var first := FirstChunk(sessions, p);
    SharedKey(sessions, p.session, q.session, p.speaker);
    var second := Row(q.session, q.speaker, 0, key, |q.body|, q.clientId, q.body, 1);
    var s1 := Run(sessions, Solo(0, p));
    OneRow(s1.table, q);
    RunThenRun(sessions, Solo(0, p), Solo(1, q));
    SoloUpload(sessions, s1, 1, q, second);
    var s2 := Run(sessions, Solo(0, p) + Solo(1, q));
    assert s2.table[0] == first && s2.objects[key] == q.body;
    assert !HoldsBytes(s2, s2.table[0].key, s2.table[0].body);
  }

  lemma {:induction false} FirstChunk(sessions: map<SessionId, Session>, p: Request) returns (first: Row)
    requires p.session in sessions && |p.body| <= MAX_CHUNK_BYTES
    ensures first == Row(p.session, p.speaker, 0, KeyOf(sessions, p.session, p.speaker, 0), |p.body|, p.clientId, p.body, 0)
    ensures var s := Run(sessions, Solo(0, p));
      s.table == [first] && s.locks == map[] && s.uploads.Keys == {0}
  {
    hide KeyOf, Run, RunFrom, Step, Solo;
    first := Row(p.session, p.speaker, 0, KeyOf(sessions, p.session, p.speaker, 0), |p.body|, p.clientId, p.body, 0);
    NoRunYet(sessions);
    RunThenRun(sessions, [], Solo(0, p));
    assert [] + Solo(0, p) == Solo(0, p);
    SoloUpload(sessions, EMPTY, 0, p, first);
  }

  lemma SharedKey(sessions: map<SessionId, Session>, a: SessionId, b: SessionId, speaker: PseudoId)
    requires a in sessions && b in sessions && sessions[a].prefix == sessions[b].prefix
    ensures KeyOf(sessions, a, speaker, 0) == KeyOf(sessions, b, speaker, 0)
  {
  }

  lemma NoRunYet(sessions: map<SessionId, Session>)
    ensures Run(sessions, []) == EMPTY
  {
  }

  lemma OneRow(table: seq<Row>, req: Request)
    requires |table| == 1 && table[0].session != req.session
    ensures MaxNumber(table, req.session, req.speaker) == -1 && FindClientRow(table, req) == None
  {
  }

  /**
   In every run every committed row finds its own bytes at its key, whatever
   aborts and crashes leave in the store, if and only if no two sessions were
   created with the same prefix.
   */
  lemma {:induction false} BytesKeptIffPrefixesDistinct(sessions: map<SessionId, Session>)
    ensures (forall actions :: BytesKept(Run(sessions, actions))) <==> DistinctPrefixes(sessions)
  {
    hide BytesKept;
    if DistinctPrefixes(sessions) {
      forall actions ensures BytesKept(Run(sessions, actions)) {
        RunKeepsBytes(sessions, actions);
      }
    } else {
      var a, b :| a in sessions && b in sessions && sessions[a].prefix == sessions[b].prefix && a != b;
      var p, q := Request(a, MIXED_PSEUDO_ID, "", [1]), Request(b, MIXED_PSEUDO_ID, "", [2]);
      SharedPrefixLosesBytes(sessions, p, q);
    }
  }

  // ----- upload, then download -----

  function FindNumber(table: seq<Row>, session: SessionId, speaker: PseudoId, number: int): (found: Option<Row>)
    ensures found.Some? ==> found.value in table && InStream(found.value, session, speaker) && found.value.number == number
    ensures found.None? ==> forall r :: r in table ==> !(InStream(r, session, speaker) && r.number == number)
  {
    if |table| == 0 then None
    else if InStream(table[|table|-1], session, speaker) && table[|table|-1].number == number then Some(table[|table|-1])
    else FindNumber(table[..|table|-1], session, speaker, number)
  }

  /** The download handler: the row by seq, then the object at its key. */
  function Download(s: State, session: SessionId, speaker: PseudoId, number: int): Option<Bytes> {
    match FindNumber(s.table, session, speaker, number)
    case None => None
    case Some(row) => if row.key in s.objects then Some(s.objects[row.key]) else None
  }

  /** A seq names one committed row of its stream. */
  lemma {:induction false} NumberIsUnique(sessions: map<SessionId, Session>, table: seq<Row>, i: nat, j: nat)
    requires i < |table| && j < |table| && RowOk(sessions, table, i) && RowOk(sessions, table, j)
    requires InStream(table[i], table[j].session, table[j].speaker) && table[i].number == table[j].number
    ensures i == j
  {
    hide KeyOf;
    var lo, hi := if i < j then i else j, if i < j then j else i;
    if lo < hi {
      var prefix := table[..hi];
      assert prefix[..lo+1] == table[..lo+1] && table[..lo+1][..lo] == table[..lo];
      CountMonotone(prefix, lo + 1, table[j].session, table[j].speaker);
    }
  }

  /** Whoever was told a seq downloads what was first committed for that chunk: their own bytes if they were first. */
  lemma {:induction false} DownloadReturnsUpload(sessions: map<SessionId, Session>, actions: seq<Action>, t: TxId)
    requires DistinctPrefixes(sessions)
    requires t in Run(sessions, actions).uploads && Run(sessions, actions).uploads[t].phase.Answered?
    ensures var s := Run(sessions, actions);
      var req, phase := s.uploads[t].req, s.uploads[t].phase;
      var got := Download(s, req.session, req.speaker, phase.number);
      && got.Some?
      && (!phase.deduplicated ==> got.value == req.body)
      && exists row :: row in s.table && IsClientRow(row, req) && got.value == row.body
  {
    hide Run, RowOk, HoldsBytes;
    var s := Run(sessions, actions);
    InvTable(sessions, actions);
    RunKeepsBytes(sessions, actions);
    var row := AnsweredRow(sessions, actions, t);
    var req := s.uploads[t].req;
    DownloadFinds(sessions, s, row);
  }

  /** Asking for a committed row's seq downloads what the row stands for. */
  lemma {:induction false} DownloadFinds(sessions: map<SessionId, Session>, s: State, row: Row)
    requires TableOk(sessions, s.table) && BytesKept(s) && row in s.table
    ensures Download(s, row.session, row.speaker, row.number) == Some(row.body)
  {
    hide RowOk;
    var found := FindNumber(s.table, row.session, row.speaker, row.number).value;
    var i :| 0 <= i < |s.table| && s.table[i] == row;
    var j :| 0 <= j < |s.table| && s.table[j] == found;
    NumberIsUnique(sessions, s.table, i, j);
    assert HoldsBytes(s, s.table[i].key, s.table[i].body);
  }
}
