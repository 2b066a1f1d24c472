/**
 What a retried upload gets: the first attempt's row, a refusal, or a seq that
 an aborted attempt had reserved.
 */
module ChunkRetries {
  import opened Prelude
  import opened Ids
  import opened ObjectKeys
  import opened ObjectStore
  import opened ChunkUpload
  import opened ChunkBytes

  /** Some handler has committed the chunk that `req` uploads. */
  ghost predicate ChunkCommitted(s: State, req: Request) {
    exists row :: row in s.table && row.session == req.session && row.speaker == req.speaker && row.clientId == req.clientId
  }

  lemma FoundIffCommitted(s: State, req: Request)
    ensures FindClientRow(s.table, req).Some? <==> ChunkCommitted(s, req)
  {
  }

  /** The k-th action is t's unlocked lookup. */
  ghost predicate LooksUpAt(sessions: map<SessionId, Session>, actions: seq<Action>, t: TxId, k: nat) {
    && k < |actions| && actions[k] == Lookup(t)
    && t in Run(sessions, actions[..k]).uploads && Run(sessions, actions[..k]).uploads[t].phase.Started?
  }

  /** The m-th action is t's insert, under the session lock. */
  ghost predicate ReservesAt(sessions: map<SessionId, Session>, actions: seq<Action>, t: TxId, m: nat) {
    && m < |actions| && actions[m] == Reserve(t)
    && t in Run(sessions, actions[..m]).uploads && Run(sessions, actions[..m]).uploads[t].phase.Locked?
  }

  // ----- what later steps cannot change -----

  predicate PastLookup(phase: Phase) { !phase.Started? }

  predicate PastInsert(phase: Phase) { !phase.Started? && !phase.Missed? && !phase.Locked? }

  predicate Deduplicated(phase: Phase) { phase.Answered? && phase.deduplicated }

  /** What is settled about a handler in phase `was` still holds in phase `now`. */
  predicate Settled(was: Phase, now: Phase) {
    && (was.Over() ==> now == was)
    && (PastLookup(was) ==> PastLookup(now) && (Deduplicated(now) <==> Deduplicated(was)))
    && (PastInsert(was) ==> PastInsert(now) && (now == Failed(UniqueViolation) <==> was == Failed(UniqueViolation)))
  }

  lemma OthersUntouched(sessions: map<SessionId, Session>, s: State, a: Action, t: TxId)
    requires t in s.uploads && a.t != t
    ensures var after := Step(sessions, s, a); t in after.uploads && after.uploads[t] == s.uploads[t]
  {
    hide KeyOf, FindClientRow, MaxNumber;
  }

  /** The phases a handler can move to. */
  predicate Follows(was: Phase, now: Phase) {
    || now == was
    || (now == Failed(Crashed) && !was.Over())
    || match was
       case Started => now.Missed? || Deduplicated(now)
       case Missed => now.Locked? || now == Failed(NotFound)
       case Locked => now.Reserved? || now.Failed?
       case Reserved(_) => now.Stored?
       case Stored(_) => now.Keyed?
       case Keyed(_) => now.Committed?
       case Committed(_) => now.Answered? && !now.deduplicated
       case _ => false
  }

  lemma OwnStepFollows(sessions: map<SessionId, Session>, s: State, a: Action)
    requires a.t in s.uploads
    ensures var after := Step(sessions, s, a);
      && a.t in after.uploads && after.uploads[a.t].req == s.uploads[a.t].req
      && Follows(s.uploads[a.t].phase, after.uploads[a.t].phase)
  {
    hide KeyOf, FindClientRow, MaxNumber;
  }

  lemma FollowsSettled(was: Phase, now: Phase)
    requires Follows(was, now)
    ensures Settled(was, now)
  {
  }

  lemma {:induction false} LaterSteps(sessions: map<SessionId, Session>, s: State, a: Action, t: TxId)
    requires t in s.uploads
    ensures var after := Step(sessions, s, a);
      && t in after.uploads && after.uploads[t].req == s.uploads[t].req
      && Settled(s.uploads[t].phase, after.uploads[t].phase)
  {
    hide Step, Settled;
    if a.t == t {
      OwnStepFollows(sessions, s, a);
      FollowsSettled(s.uploads[t].phase, Step(sessions, s, a).uploads[t].phase);
    } else {
      OthersUntouched(sessions, s, a, t);
      FollowsSettled(s.uploads[t].phase, s.uploads[t].phase);
    }
  }

  lemma {:induction false} LaterRuns(sessions: map<SessionId, Session>, actions: seq<Action>, k: nat, t: TxId)
    requires k <= |actions| && t in Run(sessions, actions[..k]).uploads
    ensures var s, after := Run(sessions, actions[..k]), Run(sessions, actions);
      && t in after.uploads && after.uploads[t].req == s.uploads[t].req
      && Settled(s.uploads[t].phase, after.uploads[t].phase)
    decreases |actions|
  {
    hide Step;
    if k == |actions| {
      assert actions[..k] == actions;
    } else {
      var init := actions[..|actions|-1];
      assert init[..k] == actions[..k];
      LaterRuns(sessions, init, k, t);
      LaterSteps(sessions, Run(sessions, init), actions[|actions|-1], t);
    }
  }

  lemma {:induction false} TableOfPrefix(sessions: map<SessionId, Session>, actions: seq<Action>, k: nat)
    requires k <= |actions|
    ensures Run(sessions, actions[..k]).table <= Run(sessions, actions).table
    decreases |actions|
  {
    hide Step;
    if k == |actions| {
      assert actions[..k] == actions;
    } else {
      var init := actions[..|actions|-1];
      assert init[..k] == actions[..k];
      TableOfPrefix(sessions, init, k);
      TableGrows(sessions, Run(sessions, init), actions[|actions|-1]);
    }
  }

  lemma {:induction false} NextRun(sessions: map<SessionId, Session>, actions: seq<Action>, k: nat)
    requires k < |actions|
    ensures Run(sessions, actions[..k+1]) == Step(sessions, Run(sessions, actions[..k]), actions[k])
  {
    assert actions[..k+1][..k] == actions[..k];
  }

  // ----- deduplicated or refused -----

  lemma LookupDecides(s: State, t: TxId)
    requires t in s.uploads && s.uploads[t].phase.Started?
    ensures var found, after := FindClientRow(s.table, s.uploads[t].req), AfterLookup(s, t);
      && after.uploads[t].phase == (match found case Some(row) => Answered(row.number, row.key, true) case None => Missed)
  {
  }

  /**
   A retry is answered with the first attempt's row if and only if that attempt
   had committed by the time the retry looked the chunk up.
   */
  lemma {:induction false} DeduplicatedIffCommittedBefore(sessions: map<SessionId, Session>, actions: seq<Action>, t: TxId, k: nat)
    requires LooksUpAt(sessions, actions, t, k)
    ensures var at, s := Run(sessions, actions[..k]), Run(sessions, actions);
      && t in s.uploads
      && (Deduplicated(s.uploads[t].phase) <==> ChunkCommitted(at, at.uploads[t].req))
      && forall row :: row in at.table && IsClientRow(row, at.uploads[t].req) ==>
           s.uploads[t].phase == Answered(row.number, row.key, true)
  {
    hide Run, FindClientRow;
    var at := Run(sessions, actions[..k]);
    var req := at.uploads[t].req;
    LookupDecides(at, t);
    NextRun(sessions, actions, k);
    LaterRuns(sessions, actions, k + 1, t);
    FoundIffCommitted(at, req);
    InvTable(sessions, actions[..k]);
    forall row | row in at.table && IsClientRow(row, req) ensures FindClientRow(at.table, req) == Some(row) {
      ClientRowUnique(sessions, at, row, FindClientRow(at.table, req).value, req);
    }
  }

  /** A retry begun after the commit therefore gets the committed row, however the run goes on. */
  lemma {:induction false} RetryAfterCommitIsDeduplicated(sessions: map<SessionId, Session>, actions: seq<Action>, b: nat, t: TxId, k: nat, row: Row)
    requires b <= k && LooksUpAt(sessions, actions, t, k)
    requires row in Run(sessions, actions[..b]).table && IsClientRow(row, Run(sessions, actions[..k]).uploads[t].req)
    ensures var s := Run(sessions, actions);
      t in s.uploads && s.uploads[t].phase == Answered(row.number, row.key, true)
  {
    hide Run;
    assert actions[..k][..b] == actions[..b];
    TableOfPrefix(sessions, actions[..k], b);
    DeduplicatedIffCommittedBefore(sessions, actions, t, k);
  }

  /** What the insert does when the body fits and seqs have not run out. */
  lemma {:induction false} ReserveDecides(sessions: map<SessionId, Session>, s: State, t: TxId)
    requires Inv(sessions, s) && t in s.uploads && s.uploads[t].phase.Locked?
    requires var req := s.uploads[t].req;
      |req.body| <= MAX_CHUNK_BYTES && Count(s.table, req.session, req.speaker) <= I32_MAX
    ensures var after := AfterReserve(s, t);
      && t in after.uploads && PastInsert(after.uploads[t].phase)
      && (after.uploads[t].phase == Failed(UniqueViolation) <==> ChunkCommitted(s, s.uploads[t].req))
  {
    hide UploadOk, WriterOk, EventOk, LocksOk, RowOk, Count, MaxNumber;
    FoundIffCommitted(s, s.uploads[t].req);
    MaxIsCount(sessions, s.table, s.uploads[t].req.session, s.uploads[t].req.speaker);
  }

  /**
   A retry that looked the chunk up too early is never deduplicated. It is
   refused by the UNIQUE constraint if and only if the other attempt committed
   between the retry's lookup and its insert.
   */
  lemma {:induction false} RefusedIffCommittedBetween(sessions: map<SessionId, Session>, actions: seq<Action>, t: TxId, k: nat, m: nat)
    requires k < m && LooksUpAt(sessions, actions, t, k) && ReservesAt(sessions, actions, t, m)
    requires var req, table := Run(sessions, actions[..m]).uploads[t].req, Run(sessions, actions[..m]).table;
      |req.body| <= MAX_CHUNK_BYTES && Count(table, req.session, req.speaker) <= I32_MAX
    ensures var looked, inserted, s := Run(sessions, actions[..k]), Run(sessions, actions[..m]), Run(sessions, actions);
      && t in s.uploads && !Deduplicated(s.uploads[t].phase)
      && !ChunkCommitted(looked, looked.uploads[t].req)
      && (s.uploads[t].phase == Failed(UniqueViolation) <==> ChunkCommitted(inserted, inserted.uploads[t].req))
  {
    hide Run, FindClientRow, Inv, Count, AfterReserve, ChunkCommitted;
    var early, inserted := actions[..m], Run(sessions, actions[..m]);
    assert early[..k] == actions[..k];
    DeduplicatedIffCommittedBefore(sessions, early, t, k);
    RunKeeps(sessions, early);
    ReserveDecides(sessions, inserted, t);
    NextRun(sessions, actions, m);
    LaterRuns(sessions, actions, m + 1, t);
    DeduplicatedIffCommittedBefore(sessions, actions, t, k);
  }

  /** Two attempts at one chunk: the second looks up, the first runs through, the second goes on. */
  function Race(p: Request): seq<Action> {
    [Begin(1, p), Lookup(1)] + Solo(0, p) + [Lock(1), Reserve(1)]
  }

  /** And that does happen, to any chunk a client may upload. */
  lemma {:induction false} RaceIsRefused(sessions: map<SessionId, Session>, p: Request)
    requires p.session in sessions && |p.body| <= MAX_CHUNK_BYTES
    ensures var s := Run(sessions, Race(p)); 1 in s.uploads && s.uploads[1].phase == Failed(UniqueViolation)
  {
    hide Run, Step, Solo, KeyOf;
    var early, late := [Begin(1, p), Lookup(1)], [Lock(1), Reserve(1)];
    var row := Row(p.session, p.speaker, 0, KeyOf(sessions, p.session, p.speaker, 0), |p.body|, p.clientId, p.body, 0);
    NoRunYet(sessions);
    RunThenRun(sessions, [], early);
    assert [] + early == early;
    EarlyLookup(sessions, p);
    var s0 := Run(sessions, early);
    RunThenRun(sessions, early, Solo(0, p));
    SoloUpload(sessions, s0, 0, p, row);
    var s1 := Run(sessions, early + Solo(0, p));
    RunThenRun(sessions, early + Solo(0, p), late);
    LateInsert(sessions, s1, p, row);
  }

  lemma {:induction false} EarlyLookup(sessions: map<SessionId, Session>, p: Request)
    ensures RunFrom(sessions, EMPTY, [Begin(1, p), Lookup(1)]) == EMPTY.(uploads := map[1 := Upload(p, Missed)])
  {
    TwoSteps(sessions, EMPTY, Begin(1, p), Lookup(1));
  }

  lemma {:induction false} LateInsert(sessions: map<SessionId, Session>, s: State, p: Request, row: Row)
    requires p.session in sessions && |p.body| <= MAX_CHUNK_BYTES
    requires s.table == [row] && IsClientRow(row, p) && row.number == 0 && s.locks == map[]
    requires 1 in s.uploads && s.uploads[1] == Upload(p, Missed)
    ensures var after := RunFrom(sessions, s, [Lock(1), Reserve(1)]);
      1 in after.uploads && after.uploads[1].phase == Failed(UniqueViolation)
  {
    TwoSteps(sessions, s, Lock(1), Reserve(1));
    assert s.table[..0] == [];
    assert MaxNumber(s.table[..0], p.session, p.speaker) == -1;
  }

  // ----- nobody stores what was not uploaded -----

  ghost predicate WasBegun(actions: seq<Action>, t: TxId, req: Request) {
    exists k :: 0 <= k < |actions| && actions[k] == Begin(t, req)
  }

  lemma {:induction false} StillBegun(actions: seq<Action>, a: Action, t: TxId, req: Request)
    requires WasBegun(actions, t, req) || a == Begin(t, req)
    ensures WasBegun(actions + [a], t, req)
  {
    var all := actions + [a];
    if a == Begin(t, req) {
      assert all[|actions|] == a;
    } else {
      var k :| 0 <= k < |actions| && actions[k] == Begin(t, req);
      assert all[k] == actions[k];
    }
  }

  ghost predicate UploadsBegun(actions: seq<Action>, s: State) {
    forall t :: t in s.uploads ==> WasBegun(actions, t, s.uploads[t].req)
  }

  lemma {:induction false} BegunStep(sessions: map<SessionId, Session>, actions: seq<Action>, s: State, a: Action)
    requires UploadsBegun(actions, s)
    ensures UploadsBegun(actions + [a], Step(sessions, s, a))
  {
    hide Step, WasBegun;
    var after := Step(sessions, s, a);
    forall t | t in after.uploads ensures WasBegun(actions + [a], t, after.uploads[t].req) {
      RequestStays(sessions, s, a, t);
      StillBegun(actions, a, t, after.uploads[t].req);
    }
  }

  lemma {:induction false} RequestStays(sessions: map<SessionId, Session>, s: State, a: Action, t: TxId)
    requires t in Step(sessions, s, a).uploads
    ensures var req := Step(sessions, s, a).uploads[t].req;
      (t in s.uploads && s.uploads[t].req == req) || a == Begin(t, req)
  {
    hide KeyOf, FindClientRow, MaxNumber;
    if t in s.uploads {
      hide Step;
      LaterSteps(sessions, s, a, t);
    }
  }

  lemma {:induction false} UploadsWereBegun(sessions: map<SessionId, Session>, actions: seq<Action>)
    ensures UploadsBegun(actions, Run(sessions, actions))
  {
    hide Step;
    if |actions| > 0 {
      var init, a := actions[..|actions|-1], actions[|actions|-1];
      assert init + [a] == actions;
      UploadsWereBegun(sessions, init);
      BegunStep(sessions, init, Run(sessions, init), a);
    }
  }

  /** Every committed row is what its writer was asked to upload: session, speaker, client id, size and bytes. */
  lemma {:induction false} RowsWereUploaded(sessions: map<SessionId, Session>, actions: seq<Action>, i: nat) returns (req: Request)
    requires i < |Run(sessions, actions).table|
    ensures var row := Run(sessions, actions).table[i];
      && WasBegun(actions, row.writer, req)
      && row.session == req.session && row.speaker == req.speaker && row.clientId == req.clientId
      && row.body == req.body && row.sizeBytes == |req.body|
  {
    hide KeyOf, Run, Count, FindClientRow, WasBegun;
    RunKeeps(sessions, actions);
    UploadsWereBegun(sessions, actions);
    var s := Run(sessions, actions);
    assert WriterOk(s, s.table[i]) && RowOk(sessions, s.table, i);
    req := s.uploads[s.table[i].writer].req;
  }

  // ----- the seq of an aborted attempt -----

  lemma {:induction false} CountUnchangedIff(table: seq<Row>, n: nat, session: SessionId, speaker: PseudoId)
    requires n <= |table|
    ensures Count(table[..n], session, speaker) <= Count(table, session, speaker)
    ensures Count(table[..n], session, speaker) == Count(table, session, speaker) <==>
            forall i :: n <= i < |table| ==> !InStream(table[i], session, speaker)
    decreases |table|
  {
    if n == |table| {
      assert table[..n] == table;
    } else {
      var init := table[..|table|-1];
      assert init[..n] == table[..n];
      CountUnchangedIff(init, n, session, speaker);
      assert forall i :: n <= i < |init| ==> init[i] == table[i];
    }
  }

  /** The k-th action aborts t, which has reserved a row but not committed it. */
  ghost predicate AbortsAt(sessions: map<SessionId, Session>, actions: seq<Action>, t: TxId, k: nat) {
    && k < |actions| && actions[k] == Crash(t)
    && t in Run(sessions, actions[..k]).uploads
    && var phase := Run(sessions, actions[..k]).uploads[t].phase; phase.Reserved? || phase.Stored? || phase.Keyed?
  }

  lemma {:induction false} ReservedIsCount(sessions: map<SessionId, Session>, s: State, t: TxId)
    requires Inv(sessions, s) && t in s.uploads
    requires var phase := s.uploads[t].phase; phase.Reserved? || phase.Stored? || phase.Keyed?
    ensures var row := s.uploads[t].phase.row; row.number == Count(s.table, row.session, row.speaker)
  {
    hide WriterOk, EventOk, LocksOk, RowOk, Count, KeyOf, FindClientRow;
    assert UploadOk(sessions, s, t);
  }

  /**
   The seq of an aborted attempt is not burnt: the next reservation in its
   stream gets the same seq, if and only if no row of that stream was committed
   in between; otherwise a higher one.
   */
  lemma {:induction false} AbortedSeqReusedIff(sessions: map<SessionId, Session>, actions: seq<Action>, t: TxId, k: nat, u: TxId, m: nat)
    requires k < m && AbortsAt(sessions, actions, t, k) && ReservesAt(sessions, actions, u, m)
    requires u in Run(sessions, actions[..m+1]).uploads && Run(sessions, actions[..m+1]).uploads[u].phase.Reserved?
    requires InStream(Run(sessions, actions[..m+1]).uploads[u].phase.row,
                      Run(sessions, actions[..k]).uploads[t].phase.row.session,
                      Run(sessions, actions[..k]).uploads[t].phase.row.speaker)
    ensures var aborted, reserved := Run(sessions, actions[..k]), Run(sessions, actions[..m+1]);
      var first, second := aborted.uploads[t].phase.row, reserved.uploads[u].phase.row;
      && first.number <= second.number
      && (second.number == first.number <==>
            forall i :: |aborted.table| <= i < |reserved.table| ==> !InStream(reserved.table[i], first.session, first.speaker))
  {
    hide Run, Inv, Count, InStream;
    var aborted, reserved := Run(sessions, actions[..k]), Run(sessions, actions[..m+1]);
    RunKeeps(sessions, actions[..k]);
    RunKeeps(sessions, actions[..m+1]);
    ReservedIsCount(sessions, aborted, t);
    ReservedIsCount(sessions, reserved, u);
    assert actions[..m+1][..k] == actions[..k];
    TableOfPrefix(sessions, actions[..m+1], k);
    var row := aborted.uploads[t].phase.row;
    SameStream(reserved.uploads[u].phase.row, row.session, row.speaker);
    assert reserved.table[..|aborted.table|] == aborted.table;
    CountUnchangedIff(reserved.table, |aborted.table|, row.session, row.speaker);
  }

  lemma SameStream(r: Row, session: SessionId, speaker: PseudoId)
    requires InStream(r, session, speaker)
    ensures r.session == session && r.speaker == speaker
  {
  }
}
