/** What the session lifecycle promises over every run of concurrent handlers. */
module LifecycleLaws {
  import opened Prelude
  import opened SessionState
  import opened Lifecycle

  // ----- the commit log as a chain of transitions -----

  function Steps(log: seq<Change>): (steps: seq<Transition>)
    ensures |steps| == |log|
  {
    seq(|log|, i requires 0 <= i < |log| => log[i].step)
  }

  /** Each step starts where the previous one ended, the first at Recording, and the last ends at `status`. */
  ghost predicate Chained(steps: seq<Transition>, status: SessionStatus) {
    && (|steps| == 0 ==> status == Recording)
    && (|steps| > 0 ==> steps[0].from == Recording && steps[|steps|-1].to == status)
    && (forall i :: 0 < i < |steps| ==> steps[i].from == steps[i-1].to)
  }

  lemma ChainExtend(steps: seq<Transition>, status: SessionStatus, step: Transition)
    requires Chained(steps, status) && step.from == status
    ensures Chained(steps + [step], step.to)
  {
  }

  /** The worker re-claim, the one patch that commits without an event. */
  predicate IsReclaim(step: Transition) { step == Transition(Transcribing, Transcribing) }

  function WithoutReclaims(steps: seq<Transition>): seq<Transition> {
    if |steps| == 0 then []
    else WithoutReclaims(steps[..|steps|-1]) + (if IsReclaim(steps[|steps|-1]) then [] else [steps[|steps|-1]])
  }

  lemma {:induction false} ReclaimsDoNotMatter(steps: seq<Transition>, status: SessionStatus)
    requires Chained(steps, status)
    ensures Chained(WithoutReclaims(steps), status)
  {
    if |steps| > 0 {
      var init, last := steps[..|steps|-1], steps[|steps|-1];
      ReclaimsDoNotMatter(init, last.from);
      if IsReclaim(last) {
        assert WithoutReclaims(init) + [] == WithoutReclaims(init);
      } else {
        ChainExtend(WithoutReclaims(init), last.from, last);
      }
    }
  }

  /** The edges a session may take: the transition table, resume, and the cascade from anywhere. */
  predicate LegalEdge(step: Transition) {
    CanTransition(step.from, step.to) || step == Transition(Abandoned, Recording) || step.to == Deleted
  }

  ghost predicate StampsOk(row: Row) {
    && (row.deletedAt.Some? <==> row.status == Deleted)
    && (row.status == Abandoned ==> row.abandonedAt.Some?)
    && (row.abandonedAt.Some? ==> row.status == Abandoned || row.status == Deleted)
  }

  /** A resume undoes the abandonment just before it, less than ttl + 1 seconds after that one's stamp. */
  ghost predicate ResumesInTime(ttl: nat, log: seq<Change>) {
    forall i :: 0 <= i < |log| && log[i].step.to == Recording ==>
      && i > 0 && log[i-1].step.to == Abandoned
      && log[i].at - log[i-1].at < (ttl + 1) * SECOND
  }

  ghost predicate SerialOk(ttl: nat, serial: Serial) {
    && Chained(Steps(serial.log), serial.row.status)
    && (forall i :: 0 <= i < |serial.log| ==> LegalEdge(serial.log[i].step))
    && serial.announced == WithoutReclaims(Steps(serial.log))
    && StampsOk(serial.row)
    && (serial.row.status == Abandoned ==>
          |serial.log| > 0 && serial.row.abandonedAt == Some(serial.log[|serial.log|-1].at))
    && ResumesInTime(ttl, serial.log)
  }

  lemma AgeBound(row: Row, now: Time, ttl: nat)
    requires row.abandonedAt.Some?
    ensures Age(row, now) <= ttl <==> now - row.abandonedAt.value < (ttl + 1) * SECOND
  {
  }

  lemma {:induction false} WriteKeepsChain(ttl: nat, before: Serial, c: Commitment, effect: Effect)
    requires SerialOk(ttl, before) && Write(ttl, before.row, c.req, c.begun, c.now) == Ok(effect)
    requires effect.change.Some?
    ensures var log := before.log + [effect.change.value];
      && Chained(Steps(log), effect.row.status)
      && LegalEdge(effect.change.value.step)
      && before.announced + Listed(Announcement(c.req, effect.change)) == WithoutReclaims(Steps(log))
  {
    var change := effect.change.value;
    var steps := Steps(before.log);
    assert Steps(before.log + [change]) == steps + [change.step];
    ChainExtend(steps, before.row.status, change.step);
    assert (steps + [change.step])[..|steps|] == steps;
    assert Announcement(c.req, effect.change) == if IsReclaim(change.step) then None else Some(change.step);
  }

  lemma {:induction false} WriteKeepsStamps(ttl: nat, before: Serial, c: Commitment, effect: Effect)
    requires SerialOk(ttl, before) && Write(ttl, before.row, c.req, c.begun, c.now) == Ok(effect)
    ensures var log := before.log + (if effect.change.Some? then [effect.change.value] else []);
      && StampsOk(effect.row)
      && (effect.row.status == Abandoned ==> |log| > 0 && effect.row.abandonedAt == Some(log[|log|-1].at))
      && ResumesInTime(ttl, log)
  {
    hide LegalEdge, WithoutReclaims;
    if effect.change.None? {
      assert before.log + [] == before.log;
    } else if effect.change.value.step.to == Recording {
      AgeBound(before.row, c.now, ttl);
      var n := |before.log|;
      assert Steps(before.log)[n-1] == before.log[n-1].step;
    }
  }

  lemma {:induction false} SerialRunsAreOk(ttl: nat, startedAt: Time, commits: seq<Commitment>)
    requires RunSerially(ttl, startedAt, commits).Some?
    ensures SerialOk(ttl, RunSerially(ttl, startedAt, commits).value)
  {
    hide Write, SerialOk;
    if |commits| == 0 {
      assert SerialOk(ttl, Serial(Created(startedAt), [], [])) by { EmptySerialOk(ttl, startedAt); }
    } else {
      var init, c := commits[..|commits|-1], commits[|commits|-1];
      SerialRunsAreOk(ttl, startedAt, init);
      var before := RunSerially(ttl, startedAt, init).value;
      SerialWriteOk(ttl, before, c, Write(ttl, before.row, c.req, c.begun, c.now).value);
    }
  }

  lemma EmptySerialOk(ttl: nat, startedAt: Time)
    ensures SerialOk(ttl, Serial(Created(startedAt), [], []))
  {
  }

  lemma {:induction false} SerialWriteOk(ttl: nat, before: Serial, c: Commitment, effect: Effect)
    requires SerialOk(ttl, before) && Write(ttl, before.row, c.req, c.begun, c.now) == Ok(effect)
    ensures SerialOk(ttl, Serial(effect.row, before.log + (if effect.change.Some? then [effect.change.value] else []),
                                 before.announced + Listed(Announcement(c.req, effect.change))))
  {
    hide StampsOk, ResumesInTime, Announcement;
    WriteKeepsStamps(ttl, before, c, effect);
    if effect.change.Some? {
      WriteKeepsChain(ttl, before, c, effect);
    } else {
      SilentWrite(ttl, before, c, effect);
      assert before.log + [] == before.log && before.announced + [] == before.announced;
    }
  }

  lemma SilentWrite(ttl: nat, before: Serial, c: Commitment, effect: Effect)
    requires Write(ttl, before.row, c.req, c.begun, c.now) == Ok(effect) && effect.change.None?
    ensures effect.row.status == before.row.status && Announcement(c.req, effect.change) == None
  {
  }

  // ----- theorems over every run -----

  lemma {:induction false} ReachableSerialOk(ttl: nat, startedAt: Time, actions: seq<Action>) returns (serial: Serial)
    ensures var s := Run(ttl, startedAt, actions);
      && RunSerially(ttl, startedAt, s.commits) == Some(serial)
      && SerialOk(ttl, serial)
      && s.row == serial.row && s.log == serial.log
      && multiset(s.events) + Pending(s) + multiset(s.lost) == multiset(serial.announced)
  {
    hide Run, Write, SerialOk, PendingIn;
    RunKeeps(ttl, startedAt, actions);
    var s := Run(ttl, startedAt, actions);
    SerialRunsAreOk(ttl, startedAt, s.commits);
    serial := RunSerially(ttl, startedAt, s.commits).value;
  }

  /**
   Concurrent patches, resumes and cascades on one session amount to running
   the committed ones alone, one at a time, in commit order: same row, same log
   of status changes, and none of them would have been refused there.
   */
  lemma {:induction false} HandlersAreSerializable(ttl: nat, startedAt: Time, actions: seq<Action>)
    ensures var s := Run(ttl, startedAt, actions);
      var serial := RunSerially(ttl, startedAt, s.commits);
      serial.Some? && s.row == serial.value.row && s.log == serial.value.log
  {
    hide Run, RunSerially, Write, PendingIn;
    RunKeeps(ttl, startedAt, actions);
  }

  /** Committed status changes form an unbroken chain of legal edges from Recording to the stored status. */
  lemma {:induction false} CommitLogIsChain(ttl: nat, startedAt: Time, actions: seq<Action>)
    ensures var s := Run(ttl, startedAt, actions);
      && Chained(Steps(s.log), s.row.status)
      && forall i :: 0 <= i < |s.log| ==> LegalEdge(s.log[i].step)
  {
    hide Run;
    var serial := ReachableSerialOk(ttl, startedAt, actions);
  }

  /**
   Events sent, events still to be sent and events lost to a crash after commit
   are together a permutation of the committed changes minus the re-claims.
   */
  lemma {:induction false} EventsMatchCommits(ttl: nat, startedAt: Time, actions: seq<Action>)
    ensures var s := Run(ttl, startedAt, actions);
      multiset(s.events) + Pending(s) + multiset(s.lost) == multiset(WithoutReclaims(Steps(s.log)))
  {
    hide Run;
    var serial := ReachableSerialOk(ttl, startedAt, actions);
  }

  /** deleted_at, abandoned_at and the status never disagree, so the TTL check never falls back to started_at. */
  lemma {:induction false} StampsFollowStatus(ttl: nat, startedAt: Time, actions: seq<Action>)
    ensures StampsOk(Run(ttl, startedAt, actions).row)
  {
    hide Run;
    var serial := ReachableSerialOk(ttl, startedAt, actions);
  }

  /** Every resume that ever commits is less than ttl + 1 seconds after the abandonment it undoes. */
  lemma {:induction false} ResumesRespectTtl(ttl: nat, startedAt: Time, actions: seq<Action>)
    ensures ResumesInTime(ttl, Run(ttl, startedAt, actions).log)
  {
    hide Run;
    var serial := ReachableSerialOk(ttl, startedAt, actions);
  }

  /** On a row that any run can reach, resume succeeds exactly for an abandoned session within the TTL. */
  lemma {:induction false} ResumeSucceedsIff(ttl: nat, startedAt: Time, actions: seq<Action>, begun: Time, now: Time)
    ensures var row := Run(ttl, startedAt, actions).row;
      Write(ttl, row, Resume, begun, now).Ok? <==>
      row.status == Abandoned && row.abandonedAt.Some? && now - row.abandonedAt.value < (ttl + 1) * SECOND
  {
    hide Run;
    StampsFollowStatus(ttl, startedAt, actions);
    var row := Run(ttl, startedAt, actions).row;
    if row.abandonedAt.Some? {
      AgeBound(row, now, ttl);
    }
  }

  // ----- the status is what was last asked for -----

  /** The status a request asks for, if any. */
  function Asked(req: Request): Option<SessionStatus> {
    match req
    case Patch(status, _, _) => status
    case Resume => Some(Recording)
    case Cascade => Some(Deleted)
  }

  /** Commitment k is the last one that asks for one of these statuses, or for any. */
  ghost predicate LastAsking(commits: seq<Commitment>, k: int, statuses: Option<set<SessionStatus>>) {
    && 0 <= k < |commits| && Asks(commits[k].req, statuses)
    && forall j :: k < j < |commits| ==> !Asks(commits[j].req, statuses)
  }

  predicate Asks(req: Request, statuses: Option<set<SessionStatus>>) {
    Asked(req).Some? && (statuses.Some? ==> Asked(req).value in statuses.value)
  }

  ghost predicate NeverAsked(commits: seq<Commitment>, statuses: Option<set<SessionStatus>>) {
    forall k :: 0 <= k < |commits| ==> !Asks(commits[k].req, statuses)
  }

  lemma {:induction false} LastAskingStep(commits: seq<Commitment>, c: Commitment, statuses: Option<set<SessionStatus>>)
    ensures var all := commits + [c];
      && (forall k :: LastAsking(all, k, statuses) <==>
            if Asks(c.req, statuses) then k == |commits| else LastAsking(commits, k, statuses))
      && (NeverAsked(all, statuses) <==> NeverAsked(commits, statuses) && !Asks(c.req, statuses))
  {
    hide Asks;
    var all := commits + [c];
    assert all[|commits|] == c && forall i :: 0 <= i < |commits| ==> all[i] == commits[i];
  }

  /** Status and stamps of a row, against the commits that led to it. */
  ghost predicate StatusIsLastAsked(commits: seq<Commitment>, row: Row) {
    && (forall k :: LastAsking(commits, k, None) ==> Asked(commits[k].req) == Some(row.status))
    && (NeverAsked(commits, None) ==> row.status == Recording)
    && (forall k :: LastAsking(commits, k, Some({Deleted})) ==> row.deletedAt == Some(commits[k].begun))
    && (NeverAsked(commits, Some({Deleted})) ==> row.deletedAt == None)
    && (forall k :: LastAsking(commits, k, Some({Abandoned, Recording})) ==>
          row.abandonedAt == if Asked(commits[k].req) == Some(Abandoned) then Some(commits[k].begun) else None)
    && (NeverAsked(commits, Some({Abandoned, Recording})) ==> row.abandonedAt == None)
  }

  /** What a successful write does to status and stamps. */
  lemma WriteGivesAsked(ttl: nat, row: Row, c: Commitment, effect: Effect)
    requires Write(ttl, row, c.req, c.begun, c.now) == Ok(effect)
    ensures effect.row.status == (if Asked(c.req).Some? then Asked(c.req).value else row.status)
    ensures effect.row.deletedAt == (if Asked(c.req) == Some(Deleted) then Some(c.begun) else row.deletedAt)
    ensures effect.row.abandonedAt ==
      if Asked(c.req) == Some(Abandoned) then Some(c.begun)
      else if Asked(c.req) == Some(Recording) then None
      else row.abandonedAt
  {
  }

  lemma {:induction false} AskedStep(ttl: nat, commits: seq<Commitment>, row: Row, c: Commitment, effect: Effect)
    requires StatusIsLastAsked(commits, row) && Write(ttl, row, c.req, c.begun, c.now) == Ok(effect)
    ensures StatusIsLastAsked(commits + [c], effect.row)
  {
    WriteGivesAsked(ttl, row, c, effect);
    LastAskingStep(commits, c, None);
    LastAskingStep(commits, c, Some({Deleted}));
    LastAskingStep(commits, c, Some({Abandoned, Recording}));
    assert (commits + [c])[|commits|] == c && forall i :: 0 <= i < |commits| ==> (commits + [c])[i] == commits[i];
    assert forall s, k :: LastAsking(commits, k, s) ==> 0 <= k < |commits|;
    hide Write, LastAsking, NeverAsked;
  }

  lemma NothingAsked(startedAt: Time)
    ensures StatusIsLastAsked([], Created(startedAt))
  {
  }

  lemma {:induction false} SerialAsked(ttl: nat, startedAt: Time, commits: seq<Commitment>)
    requires RunSerially(ttl, startedAt, commits).Some?
    ensures StatusIsLastAsked(commits, RunSerially(ttl, startedAt, commits).value.row)
  {
    hide Write, StatusIsLastAsked;
    if |commits| == 0 {
      NothingAsked(startedAt);
      assert commits == [];
    } else {
      var n := |commits| - 1;
      var init, c := commits[..n], commits[n];
      SerialAsked(ttl, startedAt, init);
      var before := RunSerially(ttl, startedAt, init).value.row;
      AskedStep(ttl, init, before, c, Write(ttl, before, c.req, c.begun, c.now).value);
      assert init + [c] == commits;
    }
  }

  /**
   In every run the stored status is what the last committed patch, resume or
   cascade asked for, and Recording before any; deleted_at and abandoned_at are
   the times of the last deletion and of the abandonment not resumed since.
   */
  lemma {:induction false} StatusIsWhatWasAsked(ttl: nat, startedAt: Time, actions: seq<Action>)
    ensures var s := Run(ttl, startedAt, actions); StatusIsLastAsked(s.commits, s.row)
  {
    hide Run, RunSerially, StatusIsLastAsked;
    HandlersAreSerializable(ttl, startedAt, actions);
    SerialAsked(ttl, startedAt, Run(ttl, startedAt, actions).commits);
  }

  // ----- nobody commits what was not asked for -----

  /** Some action began handler t with this request at this time. */
  ghost predicate WasBegun(actions: seq<Action>, t: TxId, req: Request, begun: Time) {
    exists k :: 0 <= k < |actions| && actions[k] == Begin(t, req, begun)
  }

  ghost predicate CommitWasBegun(actions: seq<Action>, c: Commitment) {
    exists t :: WasBegun(actions, t, c.req, c.begun)
  }

  lemma {:induction false} StillBegun(actions: seq<Action>, a: Action, t: TxId, req: Request, begun: Time)
    requires WasBegun(actions, t, req, begun) || a == Begin(t, req, begun)
    ensures WasBegun(actions + [a], t, req, begun)
  {
    var all := actions + [a];
    if a == Begin(t, req, begun) {
      assert all[|actions|] == a;
    } else {
      var k :| 0 <= k < |actions| && actions[k] == Begin(t, req, begun);
      assert all[k] == actions[k];
    }
  }

  /** Where a step takes handlers and commits from. */
  lemma StepOrigins(ttl: nat, s: State, a: Action)
    ensures var after := Step(ttl, s, a);
      && (forall t :: t in after.handlers ==>
            || (t in s.handlers && after.handlers[t].req == s.handlers[t].req && after.handlers[t].begun == s.handlers[t].begun)
            || a == Begin(t, after.handlers[t].req, after.handlers[t].begun))
      && (after.commits != s.commits ==>
            && a.Commit? && a.t in s.handlers && |after.commits| == |s.commits| + 1 && after.commits[..|s.commits|] == s.commits
            && after.commits[|s.commits|].req == s.handlers[a.t].req
            && after.commits[|s.commits|].begun == s.handlers[a.t].begun)
  {
    hide Write;
  }

  /** Every handler, and every committed request, is one that some caller began with, at that caller's time. */
  ghost predicate RequestsBegun(actions: seq<Action>, s: State) {
    && (forall t :: t in s.handlers ==> WasBegun(actions, t, s.handlers[t].req, s.handlers[t].begun))
    && (forall i :: 0 <= i < |s.commits| ==> CommitWasBegun(actions, s.commits[i]))
  }

  lemma {:induction false} BegunStep(ttl: nat, actions: seq<Action>, s: State, a: Action)
    requires RequestsBegun(actions, s)
    ensures RequestsBegun(actions + [a], Step(ttl, s, a))
  {
    hide Step, WasBegun;
    var after := Step(ttl, s, a);
    StepOrigins(ttl, s, a);
    forall t | t in after.handlers ensures WasBegun(actions + [a], t, after.handlers[t].req, after.handlers[t].begun) {
      StillBegun(actions, a, t, after.handlers[t].req, after.handlers[t].begun);
    }
    forall i | 0 <= i < |after.commits| ensures CommitWasBegun(actions + [a], after.commits[i]) {
      var t := a.t;
      if i < |s.commits| {
        assert after.commits[i] == s.commits[i] && CommitWasBegun(actions, s.commits[i]);
        t :| WasBegun(actions, t, s.commits[i].req, s.commits[i].begun);
      }
      StillBegun(actions, a, t, after.commits[i].req, after.commits[i].begun);
    }
  }

  lemma {:induction false} CommitsWereAsked(ttl: nat, startedAt: Time, actions: seq<Action>)
    ensures RequestsBegun(actions, Run(ttl, startedAt, actions))
  {
    hide Step;
    if |actions| > 0 {
      var init, a := actions[..|actions|-1], actions[|actions|-1];
      assert init + [a] == actions;
      CommitsWereAsked(ttl, startedAt, init);
      BegunStep(ttl, init, Run(ttl, startedAt, init), a);
    }
  }

  // ----- how a session comes to be deleted -----

  /** A committed patch to `deleted`, or a cascade. */
  predicate Deletes(req: Request) { req.Cascade? || (req.Patch? && req.status == Some(Deleted)) }

  ghost predicate Deleting(commits: seq<Commitment>, k: int) { 0 <= k < |commits| && Deletes(commits[k].req) }

  ghost predicate Cascaded(commits: seq<Commitment>) { exists k :: 0 <= k < |commits| && commits[k].req.Cascade? }

  lemma WriteDeletes(ttl: nat, row: Row, req: Request, begun: Time, now: Time, effect: Effect)
    requires Write(ttl, row, req, begun, now) == Ok(effect)
    ensures effect.row.status == Deleted <==> row.status == Deleted || Deletes(req)
  {
  }

  lemma {:induction false} SerialDeletedIff(ttl: nat, startedAt: Time, commits: seq<Commitment>)
    requires RunSerially(ttl, startedAt, commits).Some?
    ensures RunSerially(ttl, startedAt, commits).value.row.status == Deleted <==> exists k :: Deleting(commits, k)
  {
    hide Write;
    if |commits| > 0 {
      var n := |commits| - 1;
      var init, c := commits[..n], commits[n];
      SerialDeletedIff(ttl, startedAt, init);
      var before := RunSerially(ttl, startedAt, init).value;
      WriteDeletes(ttl, before.row, c.req, c.begun, c.now, Write(ttl, before.row, c.req, c.begun, c.now).value);
      assert forall k :: 0 <= k < n ==> (Deleting(init, k) <==> Deleting(commits, k));
      assert Deletes(c.req) <==> Deleting(commits, n);
    }
  }

  /**
   A session is deleted if and only if a cascade or a patch to `deleted` has
   committed; so it is deleted without ever having been cascaded exactly if such
   a patch committed and no cascade did.
   */
  lemma {:induction false} DeletedIff(ttl: nat, startedAt: Time, actions: seq<Action>)
    ensures var s := Run(ttl, startedAt, actions);
      && (s.row.status == Deleted <==> exists k :: Deleting(s.commits, k))
      && (s.row.status == Deleted && !Cascaded(s.commits) <==>
            !Cascaded(s.commits) && exists k :: Deleting(s.commits, k) && s.commits[k].req.Patch?)
  {
    hide Run, RunSerially;
    HandlersAreSerializable(ttl, startedAt, actions);
    var s := Run(ttl, startedAt, actions);
    SerialDeletedIff(ttl, startedAt, s.commits);
    assert !Cascaded(s.commits) ==> forall k :: Deleting(s.commits, k) ==> s.commits[k].req.Patch?;
  }

  // ----- point of no return -----

  function Rank(status: SessionStatus): nat {
    match status
    case Recording => 0
    case Uploaded => 0
    case Abandoned => 0
    case Transcribing => 1
    case TranscribingFailed => 1
    case Transcribed => 2
    case Deleted => 3
  }

  lemma EdgeKeepsRank(step: Transition)
    requires LegalEdge(step)
    ensures Rank(step.from) <= Rank(step.to)
  {
  }

  lemma {:induction false} RankClimbs(log: seq<Change>, status: SessionStatus, i: nat, j: nat)
    requires Chained(Steps(log), status) && forall k :: 0 <= k < |log| ==> LegalEdge(log[k].step)
    requires i <= j < |log|
    ensures Rank(log[i].step.from) <= Rank(log[i].step.to) <= Rank(log[j].step.to)
    decreases j
  {
    EdgeKeepsRank(log[i].step);
    if i < j {
      RankClimbs(log, status, i, j - 1);
      EdgeKeepsRank(log[j].step);
      assert Steps(log)[j].from == Steps(log)[j-1].to;
    }
  }

  /**
   The phase of a session never goes back: once transcribing it is never again
   recording, uploaded or abandoned, once transcribed never transcribing, and a
   deleted session stays deleted under every handler.
   */
  lemma {:induction false} PointOfNoReturn(ttl: nat, startedAt: Time, actions: seq<Action>, i: nat, j: nat)
    requires i <= j < |Run(ttl, startedAt, actions).log|
    ensures var s := Run(ttl, startedAt, actions);
      && Rank(s.log[i].step.from) <= Rank(s.log[i].step.to) <= Rank(s.log[j].step.to) <= Rank(s.row.status)
      && (s.log[i].step.to == Deleted ==> s.log[j].step.to == Deleted && s.row.status == Deleted)
  {
    hide Run;
    var s := Run(ttl, startedAt, actions);
    CommitLogIsChain(ttl, startedAt, actions);
    RankClimbs(s.log, s.row.status, i, j);
    RankClimbs(s.log, s.row.status, j, |s.log| - 1);
    assert Steps(s.log)[|s.log|-1].to == s.row.status;
  }

  ghost predicate PassedThrough(log: seq<Change>, i: nat, k: nat, j: nat) {
    i < k < j < |log| && log[i].step.to == Uploaded && log[k].step.to == Transcribing
  }

  /** A session that is transcribing, failed or transcribed at step j was uploaded at some i and transcribing at some k > i. */
  lemma {:induction false} UploadedThenTranscribing(log: seq<Change>, status: SessionStatus, j: nat) returns (i: nat, k: nat)
    requires Chained(Steps(log), status) && forall m :: 0 <= m < |log| ==> LegalEdge(log[m].step)
    requires j < |log| && log[j].step.to in {Transcribing, TranscribingFailed, Transcribed}
    ensures i < k <= j && log[i].step.to == Uploaded && log[k].step.to == Transcribing
    decreases j
  {
    hide CanTransition;
    TransitionTableLaws(log[j].step.from, log[j].step.to);
    var steps := Steps(log);
    assert steps[j] == log[j].step && LegalEdge(log[j].step);
    assert j > 0 ==> steps[j].from == steps[j-1].to && steps[j-1] == log[j-1].step;
    if log[j].step.from == Uploaded {
      i, k := j - 1, j;
    } else {
      i, k := UploadedThenTranscribing(log, status, j - 1);
    }
  }

  /** No session is ever transcribed without first having been uploaded and then claimed for transcription. */
  lemma {:induction false} TranscribedWasUploadedThenTranscribing(ttl: nat, startedAt: Time, actions: seq<Action>, j: nat)
    returns (i: nat, k: nat)
    requires j < |Run(ttl, startedAt, actions).log| && Run(ttl, startedAt, actions).log[j].step.to == Transcribed
    ensures PassedThrough(Run(ttl, startedAt, actions).log, i, k, j)
  {
    hide Run;
    var s := Run(ttl, startedAt, actions);
    CommitLogIsChain(ttl, startedAt, actions);
    i, k := UploadedThenTranscribing(s.log, s.row.status, j);
  }
}
