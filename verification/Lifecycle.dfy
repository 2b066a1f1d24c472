/**
 src/routes/sessions.rs, src/db/sessions.rs: patch, resume and cascade on one
 session, by any number of concurrent handlers.

 Assumed of the database: `FOR UPDATE` takes an exclusive lock on the row, held
 to commit or abort; NOW() is the transaction's start time. Events are sent
 after the commit, by a separate step.
 */
module Lifecycle {
  import opened Prelude
  import opened SessionState

  type TxId = nat
  type Time = int

  const SECOND: int := 1_000_000_000

  datatype Row = Row(
    status: SessionStatus,
    startedAt: Time,
    endedAt: Option<Time>,
    abandonedAt: Option<Time>,
    deletedAt: Option<Time>,
    participants: Option<int>)

  /** `Some(None)` nullifies a field, `None` leaves it alone. */
  datatype Request =
    | Patch(status: Option<SessionStatus>, endedAt: Option<Option<Time>>, participants: Option<Option<int>>)
    | Resume
    | Cascade

  datatype Error = IllegalTransition(from: SessionStatus, to: SessionStatus) | Gone(age: nat)

  datatype Transition = Transition(from: SessionStatus, to: SessionStatus)

  /** A committed status write and the clock reading it stands for. */
  datatype Change = Change(step: Transition, at: Time)

  // ----- one handler's effect on the row it holds -----

  function UpdateStatus(row: Row, status: SessionStatus, now: Time): Row {
    row.(status := status,
         abandonedAt := if status == Abandoned then Some(now) else row.abandonedAt,
         deletedAt := if status == Deleted then Some(now) else row.deletedAt)
  }

  function PatchFields(row: Row, endedAt: Option<Option<Time>>, participants: Option<Option<int>>): Row {
    row.(endedAt := if endedAt.Some? then endedAt.value else row.endedAt,
         participants := if participants.Some? then participants.value else row.participants)
  }

  /** Whole seconds, truncated toward zero. */
  function WholeSeconds(d: int): int { if d >= 0 then d / SECOND else -((-d) / SECOND) }

  function Age(row: Row, now: Time): nat {
    var anchor := match row.abandonedAt case Some(at) => at case None => row.startedAt;
    Max(WholeSeconds(now - anchor), 0)
  }

  datatype Effect = Effect(row: Row, change: Option<Change>)

  /** What a handler that began at `begun` writes over the locked row; `now` is its own clock. */
  function Write(ttl: nat, row: Row, req: Request, begun: Time, now: Time): Result<Effect, Error> {
    match req
    case Patch(Some(status), endedAt, participants) =>
      if !CanTransition(row.status, status) then Err(IllegalTransition(row.status, status))
      else Ok(Effect(PatchFields(UpdateStatus(row, status, begun), endedAt, participants),
                     Some(Change(Transition(row.status, status), begun))))
    case Patch(None, endedAt, participants) => Ok(Effect(PatchFields(row, endedAt, participants), None))
    case Resume =>
      if row.status != Abandoned then Err(IllegalTransition(row.status, Recording))
      else if Age(row, now) > ttl then Err(Gone(Age(row, now)))
      else Ok(Effect(row.(status := Recording, abandonedAt := None),
                     Some(Change(Transition(Abandoned, Recording), now))))
    case Cascade =>
      Ok(Effect(UpdateStatus(row, Deleted, begun), Some(Change(Transition(row.status, Deleted), begun))))
  }

  /** Patch announces only actual changes; resume and cascade always announce. */
  function Announcement(req: Request, change: Option<Change>): Option<Transition> {
    match change
    case None => None
    case Some(c) => if req.Patch? && c.step.from == c.step.to then None else Some(c.step)
  }

  // ----- concurrent handlers -----

  datatype Phase =
    | Begun
    | Locked(seen: Row)
    | Written(effect: Effect, now: Time)
    | Committed(row: Row, event: Option<Transition>)
    | Done(row: Row)
    | Refused(error: Error)
    | Died
  {
    predicate Holds() { Locked? || Written? }
  }

  datatype Handler = Handler(req: Request, begun: Time, phase: Phase)

  /** A committed handler, as the serial order of the database sees it. */
  datatype Commitment = Commitment(req: Request, begun: Time, now: Time)

  datatype State = State(
    row: Row,
    lock: Option<TxId>,
    handlers: map<TxId, Handler>,
    commits: seq<Commitment>,
    log: seq<Change>,
    events: seq<Transition>,
    lost: seq<Transition>)

  datatype Action =
    | Begin(t: TxId, req: Request, begun: Time)
    | Acquire(t: TxId)
    | WriteRow(t: TxId, now: Time)
    | Commit(t: TxId)
    | Emit(t: TxId)
    | Crash(t: TxId)

  function Created(startedAt: Time): Row { Row(Recording, startedAt, None, None, None, None) }

  function Init(startedAt: Time): State { State(Created(startedAt), None, map[], [], [], [], []) }

  function Move(s: State, t: TxId, phase: Phase): State
    requires t in s.handlers
  {
    s.(handlers := s.handlers[t := s.handlers[t].(phase := phase)])
  }

  function AfterCommit(s: State, t: TxId, effect: Effect, now: Time): State
    requires t in s.handlers
  {
    var h := s.handlers[t];
    Move(s.(row := effect.row, lock := None,
            commits := s.commits + [Commitment(h.req, h.begun, now)],
            log := s.log + (if effect.change.Some? then [effect.change.value] else [])),
         t, Committed(effect.row, Announcement(h.req, effect.change)))
  }

  function Listed(event: Option<Transition>): seq<Transition> { if event.Some? then [event.value] else [] }

  function Step(ttl: nat, s: State, a: Action): State {
    if a.Begin? then
      if a.t in s.handlers then s else s.(handlers := s.handlers[a.t := Handler(a.req, a.begun, Begun)])
    else if a.t !in s.handlers then s
    else
      var h := s.handlers[a.t];
      match (a, h.phase)
      case (Acquire(t), Begun) => if s.lock.Some? then s else Move(s.(lock := Some(t)), t, Locked(s.row))
      case (WriteRow(t, now), Locked(seen)) =>
        (match Write(ttl, seen, h.req, h.begun, now)
         case Ok(effect) => Move(s, t, Written(effect, now))
         case Err(e) => Move(s.(lock := None), t, Refused(e)))
      case (Commit(t), Written(effect, now)) => AfterCommit(s, t, effect, now)
      case (Emit(t), Committed(row, event)) => Move(s.(events := s.events + Listed(event)), t, Done(row))
      case (Crash(t), Begun) => Move(s, t, Died)
      case (Crash(t), Locked(_)) => Move(s.(lock := None), t, Died)
      case (Crash(t), Written(_, _)) => Move(s.(lock := None), t, Died)
      case (Crash(t), Committed(_, event)) => Move(s.(lost := s.lost + Listed(event)), t, Died)
      case _ => s
  }

  function Run(ttl: nat, startedAt: Time, actions: seq<Action>): State {
    if |actions| == 0 then Init(startedAt)
    else Step(ttl, Run(ttl, startedAt, actions[..|actions|-1]), actions[|actions|-1])
  }

  // ----- serial reference: handlers one at a time, in commit order -----

  datatype Serial = Serial(row: Row, log: seq<Change>, announced: seq<Transition>)

  function RunSerially(ttl: nat, startedAt: Time, commits: seq<Commitment>): Option<Serial> {
    if |commits| == 0 then Some(Serial(Created(startedAt), [], []))
    else
      var c := commits[|commits|-1];
      match RunSerially(ttl, startedAt, commits[..|commits|-1])
      case None => None
      case Some(before) =>
        match Write(ttl, before.row, c.req, c.begun, c.now)
        case Err(_) => None
        case Ok(effect) =>
          Some(Serial(effect.row,
                      before.log + (if effect.change.Some? then [effect.change.value] else []),
                      before.announced + Listed(Announcement(c.req, effect.change))))
  }

  // ----- events not sent yet -----

  function PendingOf(h: Handler): multiset<Transition> {
    if h.phase.Committed? && h.phase.event.Some? then multiset{h.phase.event.value} else multiset{}
  }

  ghost function PendingIn(handlers: map<TxId, Handler>, ts: set<TxId>): multiset<Transition>
    requires ts <= handlers.Keys
  {
    if ts == {} then multiset{}
    else var t :| t in ts; PendingOf(handlers[t]) + PendingIn(handlers, ts - {t})
  }

  /** The events committed handlers have still to send. */
  ghost function Pending(s: State): multiset<Transition> { PendingIn(s.handlers, s.handlers.Keys) }

  lemma {:induction false} PendingPick(handlers: map<TxId, Handler>, ts: set<TxId>, t: TxId)
    requires ts <= handlers.Keys && t in ts
    ensures PendingIn(handlers, ts) == PendingOf(handlers[t]) + PendingIn(handlers, ts - {t})
    decreases ts
  {
    var u :| u in ts && PendingIn(handlers, ts) == PendingOf(handlers[u]) + PendingIn(handlers, ts - {u});
    if u != t {
      PendingPick(handlers, ts - {u}, t);
      PendingPick(handlers, ts - {t}, u);
      assert ts - {u} - {t} == ts - {t} - {u};
    }
  }

  lemma {:induction false} PendingSame(handlers: map<TxId, Handler>, after: map<TxId, Handler>, ts: set<TxId>)
    requires ts <= handlers.Keys && ts <= after.Keys
    requires forall t :: t in ts ==> after[t] == handlers[t]
    ensures PendingIn(after, ts) == PendingIn(handlers, ts)
    decreases ts
  {
    if ts != {} {
      var t :| t in ts;
      PendingPick(handlers, ts, t);
      PendingPick(after, ts, t);
      PendingSame(handlers, after, ts - {t});
    }
  }

  /** Changing one handler exchanges its own pending event. */
  lemma {:induction false} PendingUpdate(handlers: map<TxId, Handler>, t: TxId, h: Handler)
    ensures var after := handlers[t := h];
      PendingIn(after, after.Keys) + (if t in handlers then PendingOf(handlers[t]) else multiset{}) ==
      PendingIn(handlers, handlers.Keys) + PendingOf(h)
  {
    var after := handlers[t := h];
    var others := handlers.Keys - {t};
    PendingPick(after, after.Keys, t);
    assert after.Keys - {t} == others;
    PendingSame(handlers, after, others);
    if t in handlers {
      PendingPick(handlers, handlers.Keys, t);
    } else {
      assert others == handlers.Keys;
    }
  }

  // ----- what every step keeps -----

  ghost predicate HandlerOk(ttl: nat, s: State, t: TxId)
    requires t in s.handlers
  {
    var h := s.handlers[t];
    && (h.phase.Holds() ==> s.lock == Some(t))
    && (h.phase.Locked? ==> h.phase.seen == s.row)
    && (h.phase.Written? ==> Write(ttl, s.row, h.req, h.begun, h.phase.now) == Ok(h.phase.effect))
  }

  ghost predicate Inv(ttl: nat, startedAt: Time, s: State) {
    && (forall t :: t in s.handlers ==> HandlerOk(ttl, s, t))
    && (s.lock.Some? ==> s.lock.value in s.handlers && s.handlers[s.lock.value].phase.Holds())
    && match RunSerially(ttl, startedAt, s.commits)
       case None => false
       case Some(serial) =>
         && s.row == serial.row
         && s.log == serial.log
         && multiset(s.events) + Pending(s) + multiset(s.lost) == multiset(serial.announced)
  }

  lemma {:induction false} StepKeepsHandlers(ttl: nat, startedAt: Time, s: State, a: Action)
    requires Inv(ttl, startedAt, s)
    ensures var after := Step(ttl, s, a);
      && (forall t :: t in after.handlers ==> HandlerOk(ttl, after, t))
      && (after.lock.Some? ==> after.lock.value in after.handlers && after.handlers[after.lock.value].phase.Holds())
  {
    hide Write, RunSerially, PendingIn;
    var after := Step(ttl, s, a);
    forall t | t in after.handlers ensures HandlerOk(ttl, after, t) {
      if t in s.handlers {
        assert HandlerOk(ttl, s, t);
      }
      if a.t in s.handlers {
        assert HandlerOk(ttl, s, a.t);
      }
    }
  }

  lemma SerialStep(ttl: nat, startedAt: Time, commits: seq<Commitment>, c: Commitment, before: Serial, effect: Effect)
    requires RunSerially(ttl, startedAt, commits) == Some(before)
    requires Write(ttl, before.row, c.req, c.begun, c.now) == Ok(effect)
    ensures RunSerially(ttl, startedAt, commits + [c]) ==
      Some(Serial(effect.row, before.log + (if effect.change.Some? then [effect.change.value] else []),
                  before.announced + Listed(Announcement(c.req, effect.change))))
  {
  }

  lemma ListedOnce(events: seq<Transition>, event: Option<Transition>)
    ensures multiset(events + Listed(event)) ==
            multiset(events) + (if event.Some? then multiset{event.value} else multiset{})
  {
  }

  /**
   Bookkeeping for one step: `own` is the stepping handler's pending event
   before, `own'` after, and `added` what the step adds to the announced total.
   */
  lemma {:induction false} Rebalance<T>(
    sent: multiset<T>, pending: multiset<T>, lost: multiset<T>, total: multiset<T>,
    sent': multiset<T>, pending': multiset<T>, lost': multiset<T>,
    own: multiset<T>, own': multiset<T>, added: multiset<T>)
    requires sent + pending + lost == total
    requires pending' + own == pending + own'
    requires sent' + lost' + own' == sent + lost + own + added
    ensures sent' + pending' + lost' == total + added
  {
    forall x ensures (sent' + pending' + lost')[x] == (total + added)[x] {
      assert (sent + pending + lost)[x] == total[x];
      assert (pending' + own)[x] == (pending + own')[x];
      assert (sent' + lost' + own')[x] == (sent + lost + own + added)[x];
    }
  }

  /** A commit makes its event pending. */
  lemma {:induction false} CommitPends(ttl: nat, s: State, t: TxId, announced: seq<Transition>)
    requires t in s.handlers && s.handlers[t].phase.Written?
    requires multiset(s.events) + Pending(s) + multiset(s.lost) == multiset(announced)
    ensures var h, after := s.handlers[t], Step(ttl, s, Commit(t));
      multiset(after.events) + Pending(after) + multiset(after.lost) ==
      multiset(announced + Listed(Announcement(h.req, h.phase.effect.change)))
  {
    hide Write, PendingIn, Announcement;
    var h, after := s.handlers[t], Step(ttl, s, Commit(t));
    PendingUpdate(s.handlers, t, after.handlers[t]);
    ListedOnce(announced, Announcement(h.req, h.phase.effect.change));
    var own := PendingOf(after.handlers[t]);
    Rebalance(multiset(s.events), Pending(s), multiset(s.lost), multiset(announced),
              multiset(s.events), Pending(after), multiset(s.lost), multiset{}, own, own);
  }

  lemma {:induction false} CommitKeeps(ttl: nat, startedAt: Time, s: State, t: TxId)
    requires Inv(ttl, startedAt, s) && t in s.handlers && s.handlers[t].phase.Written?
    ensures Inv(ttl, startedAt, Step(ttl, s, Commit(t)))
  {
    hide Write, Pending, RunSerially, Announcement;
    var h := s.handlers[t];
    var serial := RunSerially(ttl, startedAt, s.commits).value;
    assert HandlerOk(ttl, s, t);
    StepKeepsHandlers(ttl, startedAt, s, Commit(t));
    SerialStep(ttl, startedAt, s.commits, Commitment(h.req, h.begun, h.phase.now), serial, h.phase.effect);
    CommitPends(ttl, s, t, serial.announced);
    hide HandlerOk;
  }

  ghost function OwnPending(s: State, t: TxId): multiset<Transition> {
    if t in s.handlers then PendingOf(s.handlers[t]) else multiset{}
  }

  lemma Regroup<T>(e: multiset<T>, l: multiset<T>, o: multiset<T>)
    ensures (e + o) + l == e + l + o && e + (l + o) == e + l + o && e + l + multiset{} == e + l
  {
  }

  /** No other step touches the row, the logs or the serial order. */
  lemma OtherStepFrame(ttl: nat, s: State, a: Action)
    requires !a.Commit? && Step(ttl, s, a) != s
    ensures var after := Step(ttl, s, a);
      && after.row == s.row && after.commits == s.commits && after.log == s.log
      && a.t in after.handlers && after.handlers == s.handlers[a.t := after.handlers[a.t]]
      && !after.handlers[a.t].phase.Committed?
  {
  }

  /** It only moves its own event along. */
  lemma {:induction false} OtherStepMoves(ttl: nat, s: State, a: Action)
    requires !a.Commit? && Step(ttl, s, a) != s
    ensures var after := Step(ttl, s, a);
      multiset(after.events) + multiset(after.lost) ==
      multiset(s.events) + multiset(s.lost) + OwnPending(s, a.t)
  {
    hide Write, Listed;
    var after := Step(ttl, s, a);
    Regroup(multiset(s.events), multiset(s.lost), OwnPending(s, a.t));
    if a.t in s.handlers && s.handlers[a.t].phase.Committed? {
      var event := s.handlers[a.t].phase.event;
      ListedOnce(s.events, event);
      ListedOnce(s.lost, event);
      if a.Emit? {
        assert after.events == s.events + Listed(event) && after.lost == s.lost;
      } else {
        assert after.lost == s.lost + Listed(event) && after.events == s.events;
      }
    } else {
      assert after.events == s.events && after.lost == s.lost;
    }
  }

  lemma {:induction false} OtherKeeps(ttl: nat, startedAt: Time, s: State, a: Action)
    requires Inv(ttl, startedAt, s) && !a.Commit?
    ensures Inv(ttl, startedAt, Step(ttl, s, a))
  {
    hide Write, PendingIn, RunSerially, HandlerOk, Step;
    var after := Step(ttl, s, a);
    StepKeepsHandlers(ttl, startedAt, s, a);
    if after != s {
      OtherStepFrame(ttl, s, a);
      OtherStepMoves(ttl, s, a);
      PendingUpdate(s.handlers, a.t, after.handlers[a.t]);
      Rebalance(multiset(s.events), Pending(s), multiset(s.lost), multiset(RunSerially(ttl, startedAt, s.commits).value.announced),
                multiset(after.events), Pending(after), multiset(after.lost), OwnPending(s, a.t), multiset{}, multiset{});
    }
  }

  lemma {:induction false} StepKeeps(ttl: nat, startedAt: Time, s: State, a: Action)
    requires Inv(ttl, startedAt, s)
    ensures Inv(ttl, startedAt, Step(ttl, s, a))
  {
    hide Inv;
    if !a.Commit? {
      OtherKeeps(ttl, startedAt, s, a);
    } else if a.t in s.handlers && s.handlers[a.t].phase.Written? {
      CommitKeeps(ttl, startedAt, s, a.t);
    }
  }

  lemma {:induction false} RunKeeps(ttl: nat, startedAt: Time, actions: seq<Action>)
    ensures Inv(ttl, startedAt, Run(ttl, startedAt, actions))
  {
    if |actions| > 0 {
      RunKeeps(ttl, startedAt, actions[..|actions|-1]);
      StepKeeps(ttl, startedAt, Run(ttl, startedAt, actions[..|actions|-1]), actions[|actions|-1]);
    }
  }
}
