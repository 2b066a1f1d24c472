/** When the event stream alone tells a session's status, and when it does not. */
module LifecycleEvents {
  import opened Prelude
  import opened SessionState
  import opened Lifecycle
  import opened LifecycleLaws

  predicate Moves(e: Transition) { e.from != e.to }

  /** The one announced event that changes nothing: a cascade of a deleted session. */
  const TOMBSTONED := Transition(Deleted, Deleted)

  predicate AllTombstones(events: seq<Transition>) { forall i :: 0 <= i < |events| ==> events[i] == TOMBSTONED }

  /** The event that a step makes pending. */
  function Announcing(s: State, a: Action): Option<Transition> {
    if a.Commit? && a.t in s.handlers && s.handlers[a.t].phase.Written?
    then Announcement(s.handlers[a.t].req, s.handlers[a.t].phase.effect.change) else None
  }

  /** The event that dies with its handler. */
  function Losing(s: State, a: Action): Option<Transition> {
    if a.Crash? && a.t in s.handlers && s.handlers[a.t].phase.Committed? then s.handlers[a.t].phase.event else None
  }

  /** No announcing commit while another handler still has to send a change of status, and no such change is lost. */
  ghost predicate Harmless(s: State, a: Action) {
    && (Announcing(s, a).Some? ==> forall e :: e in Pending(s) ==> !Moves(e))
    && (Losing(s, a).Some? ==> !Moves(Losing(s, a).value))
  }

  /** Handlers do not overlap between commit and send, as far as changes of status go. */
  ghost predicate NoOverlap(ttl: nat, startedAt: Time, actions: seq<Action>) {
    forall k :: 0 <= k < |actions| ==> Harmless(Run(ttl, startedAt, actions[..k]), actions[k])
  }

  // ----- without overlap the stream is in order -----

  /** Sent and unsent events chain up to the status, and only tombstones can be unsent together. */
  ghost predicate InOrder(s: State, unsent: seq<Transition>) {
    && Chained(s.events + unsent, s.row.status)
    && Pending(s) == multiset(unsent)
    && (|unsent| <= 1 || AllTombstones(unsent))
    && (forall e :: e in unsent ==> Moves(e) || e == TOMBSTONED)
    && (s.lost == [] ==> s.events + unsent == WithoutReclaims(Steps(s.log)))
  }

  lemma NothingPendingYet(startedAt: Time)
    ensures InOrder(Init(startedAt), [])
  {
  }

  /** What a successful write announces, and what it means if it announces nothing. */
  lemma WriteAnnounces(ttl: nat, row: Row, req: Request, begun: Time, now: Time, effect: Effect)
    requires Write(ttl, row, req, begun, now) == Ok(effect)
    ensures var event := Announcement(req, effect.change);
      && (event.None? ==> effect.row.status == row.status)
      && (event.None? ==> effect.change.Some? ==> IsReclaim(effect.change.value.step))
      && (event.Some? ==>
            && effect.change.Some? && event.value == effect.change.value.step && !IsReclaim(event.value)
            && event.value.from == row.status && event.value.to == effect.row.status
            && (Moves(event.value) || event.value == TOMBSTONED)
            && (row.status == Deleted ==> event.value == TOMBSTONED))
  {
  }

  lemma {:induction false} LogStep(log: seq<Change>, change: Option<Change>)
    ensures WithoutReclaims(Steps(log + (if change.Some? then [change.value] else []))) ==
      WithoutReclaims(Steps(log)) + (if change.Some? && !IsReclaim(change.value.step) then [change.value.step] else [])
  {
    if change.Some? {
      assert Steps(log + [change.value]) == Steps(log) + [change.value.step];
      assert (Steps(log) + [change.value.step])[..|log|] == Steps(log);
    } else {
      assert log + [] == log;
    }
  }

  /** What an exchange of one handler's own pending event says about the totals. */
  lemma Exchanged<T>(after: multiset<T>, own: multiset<T>, before: multiset<T>, own': multiset<T>)
    requires after + own == before + own'
    ensures own == multiset{} ==> after == before + own'
    ensures own' == multiset{} ==> before == after + own && after == before - own
  {
  }

  /** Announcing a further event when no change of status is unsent. */
  lemma {:induction false} OrderGrows(events: seq<Transition>, unsent: seq<Transition>, status: SessionStatus, e: Transition)
    requires Chained(events + unsent, status) && e.from == status
    requires forall x :: x in unsent ==> x == TOMBSTONED
    requires Moves(e) || e == TOMBSTONED
    requires status == Deleted ==> e == TOMBSTONED
    ensures Chained(events + (unsent + [e]), e.to)
    ensures |unsent + [e]| <= 1 || AllTombstones(unsent + [e])
    ensures forall x :: x in unsent + [e] ==> Moves(x) || x == TOMBSTONED
  {
    ChainExtend(events + unsent, status, e);
    assert (events + unsent) + [e] == events + (unsent + [e]);
    forall i | 0 <= i < |unsent| ensures unsent[i] == TOMBSTONED {
      assert unsent[i] in unsent;
    }
    if |unsent| > 0 {
      assert (events + unsent)[|events + unsent| - 1] == unsent[|unsent|-1] == TOMBSTONED;
    }
  }

  lemma {:induction false} CommitPending(ttl: nat, s: State, t: TxId)
    requires t in s.handlers && s.handlers[t].phase.Written?
    ensures Pending(Step(ttl, s, Commit(t))) == Pending(s) + multiset(Listed(Announcing(s, Commit(t))))
  {
    hide PendingIn, Announcement;
    var after := Step(ttl, s, Commit(t));
    PendingUpdate(s.handlers, t, after.handlers[t]);
    Exchanged(Pending(after), multiset{}, Pending(s), PendingOf(after.handlers[t]));
  }

  /** A commit that announces nothing leaves sent and unsent events as they were. */
  lemma {:induction false} SilentCommitInOrder(ttl: nat, s: State, t: TxId, unsent: seq<Transition>)
    requires InOrder(s, unsent)
    requires t in s.handlers && s.handlers[t].phase.Written? && HandlerOk(ttl, s, t)
    requires Announcing(s, Commit(t)).None?
    ensures InOrder(Step(ttl, s, Commit(t)), unsent)
  {
    hide Write, Pending, Announcement, Steps, WithoutReclaims, Chained;
    var h := s.handlers[t];
    WriteAnnounces(ttl, s.row, h.req, h.begun, h.phase.now, h.phase.effect);
    LogStep(s.log, h.phase.effect.change);
    CommitPending(ttl, s, t);
    assert WithoutReclaims(Steps(s.log)) + [] == WithoutReclaims(Steps(s.log));
  }

  lemma {:induction false} AnnouncingCommitInOrder(ttl: nat, s: State, t: TxId, unsent: seq<Transition>)
    requires InOrder(s, unsent) && Harmless(s, Commit(t))
    requires t in s.handlers && s.handlers[t].phase.Written? && HandlerOk(ttl, s, t)
    requires Announcing(s, Commit(t)).Some?
    ensures InOrder(Step(ttl, s, Commit(t)), unsent + [Announcing(s, Commit(t)).value])
  {
    hide Write, Pending, Announcement, Steps, WithoutReclaims, Chained, AllTombstones;
    var h := s.handlers[t];
    WriteAnnounces(ttl, s.row, h.req, h.begun, h.phase.now, h.phase.effect);
    LogStep(s.log, h.phase.effect.change);
    CommitPending(ttl, s, t);
    var e := Announcing(s, Commit(t)).value;
    assert forall x :: x in unsent ==> x in Pending(s);
    OrderGrows(s.events, unsent, s.row.status, e);
    assert (s.events + unsent) + [e] == s.events + (unsent + [e]);
  }

  /** Whichever unsent event goes first, the rest reads the same. */
  lemma {:induction false} TakeOut(unsent: seq<Transition>, e: Transition)
    requires e in unsent && (|unsent| <= 1 || AllTombstones(unsent))
    ensures unsent == [e] + unsent[1..] == unsent[1..] + [e]
  {
    if |unsent| > 1 {
      forall i | 0 <= i < |unsent| ensures unsent[i] == e {}
      forall i | 0 <= i < |unsent| ensures (unsent[1..] + [e])[i] == e {}
    }
  }

  /** A chain ending in a tombstone is as good without it. */
  lemma {:induction false} ChainWithoutTombstone(events: seq<Transition>, status: SessionStatus)
    requires Chained(events + [TOMBSTONED], status)
    ensures Chained(events, status)
  {
    var all := events + [TOMBSTONED];
    assert all[|events|] == TOMBSTONED;
    assert forall i :: 0 <= i < |events| ==> all[i] == events[i];
  }

  lemma OwnEvent(ttl: nat, s: State, a: Action) returns (own: Option<Transition>)
    requires !a.Commit? && Step(ttl, s, a) != s
    ensures OwnPending(s, a.t) == (if own.Some? then multiset{own.value} else multiset{})
    ensures var after := Step(ttl, s, a);
      match own
      case None => after.events == s.events && after.lost == s.lost
      case Some(e) =>
        if Losing(s, a).Some? then after.events == s.events && after.lost == s.lost + [e] && Losing(s, a) == own
        else after.events == s.events + [e] && after.lost == s.lost
  {
    hide Write;
    own := if a.t in s.handlers && s.handlers[a.t].phase.Committed? then s.handlers[a.t].phase.event else None;
  }

  /** A step other than a commit sends, loses or keeps its own pending event. */
  lemma {:induction false} OtherStepSends(ttl: nat, s: State, a: Action) returns (own: Option<Transition>)
    requires !a.Commit? && Step(ttl, s, a) != s
    ensures var after := Step(ttl, s, a);
      match own
      case None => after.events == s.events && after.lost == s.lost && Pending(after) == Pending(s)
      case Some(e) =>
        && e in Pending(s) && Pending(after) == Pending(s) - multiset{e}
        && if Losing(s, a).Some? then after.events == s.events && after.lost == s.lost + [e] && Losing(s, a) == own
           else after.events == s.events + [e] && after.lost == s.lost
  {
    hide PendingIn, Step, Losing;
    var after := Step(ttl, s, a);
    OtherStepFrame(ttl, s, a);
    PendingUpdate(s.handlers, a.t, after.handlers[a.t]);
    own := OwnEvent(ttl, s, a);
    Exchanged(Pending(after), OwnPending(s, a.t), Pending(s), multiset{});
    if own.None? {
      assert Pending(after) + multiset{} == Pending(after);
    }
  }

  /** The handler's own pending event goes out, or is lost. */
  lemma {:induction false} TakenInOrder(s: State, after: State, unsent: seq<Transition>, e: Transition)
    requires InOrder(s, unsent) && e in unsent
    requires after.row == s.row && after.log == s.log && Pending(after) == Pending(s) - multiset{e}
    requires || (after.events == s.events + [e] && after.lost == s.lost)
             || (after.events == s.events && after.lost == s.lost + [e] && !Moves(e))
    ensures InOrder(after, unsent[1..])
  {
    hide Pending, Steps, WithoutReclaims, Chained;
    TakeOut(unsent, e);
    var rest := unsent[1..];
    assert s.events + ([e] + rest) == (s.events + [e]) + rest && s.events + (rest + [e]) == (s.events + rest) + [e];
    assert multiset([e] + rest) == multiset{e} + multiset(rest);
    if after.lost != s.lost {
      ChainWithoutTombstone(s.events + rest, s.row.status);
    }
  }

  lemma {:induction false} SendInOrder(ttl: nat, s: State, a: Action, unsent: seq<Transition>) returns (unsent': seq<Transition>)
    requires InOrder(s, unsent) && Harmless(s, a) && !a.Commit?
    ensures InOrder(Step(ttl, s, a), unsent')
  {
    hide PendingIn, Step, PendingOf, Chained, WithoutReclaims, Steps, AllTombstones, OwnPending;
    var after := Step(ttl, s, a);
    if after == s {
      return unsent;
    }
    OtherStepFrame(ttl, s, a);
    var own := OtherStepSends(ttl, s, a);
    if own.None? {
      unsent' := unsent;
    } else {
      assert own.value in Pending(s);
      TakenInOrder(s, after, unsent, own.value);
      unsent' := unsent[1..];
    }
  }

  lemma {:induction false} PrefixNoOverlap(ttl: nat, startedAt: Time, actions: seq<Action>)
    requires NoOverlap(ttl, startedAt, actions) && |actions| > 0
    ensures NoOverlap(ttl, startedAt, actions[..|actions|-1])
  {
    hide Run, Harmless;
    var init := actions[..|actions|-1];
    forall k | 0 <= k < |init| ensures Harmless(Run(ttl, startedAt, init[..k]), init[k]) {
      assert init[..k] == actions[..k] && init[k] == actions[k];
    }
  }

  lemma {:induction false} EventsInOrder(ttl: nat, startedAt: Time, actions: seq<Action>) returns (unsent: seq<Transition>)
    requires NoOverlap(ttl, startedAt, actions)
    ensures InOrder(Run(ttl, startedAt, actions), unsent)
  {
    hide InOrder, Harmless;
    if |actions| == 0 {
      unsent := [];
      NothingPendingYet(startedAt);
    } else {
      var init, a := actions[..|actions|-1], actions[|actions|-1];
      PrefixNoOverlap(ttl, startedAt, actions);
      unsent := EventsInOrder(ttl, startedAt, init);
      assert Harmless(Run(ttl, startedAt, init), a);
      RunKeeps(ttl, startedAt, init);
      unsent := StepInOrder(ttl, startedAt, Run(ttl, startedAt, init), a, unsent);
    }
  }

  lemma {:induction false} StepInOrder(ttl: nat, startedAt: Time, s: State, a: Action, unsent: seq<Transition>) returns (unsent': seq<Transition>)
    requires Inv(ttl, startedAt, s) && InOrder(s, unsent) && Harmless(s, a)
    ensures InOrder(Step(ttl, s, a), unsent')
  {
    hide InOrder, Harmless, HandlerOk, RunSerially, PendingIn, Announcing;
    if !a.Commit? {
      unsent' := SendInOrder(ttl, s, a, unsent);
    } else if a.t in s.handlers && s.handlers[a.t].phase.Written? {
      if Announcing(s, a).None? {
        unsent' := unsent;
        SilentCommitInOrder(ttl, s, a.t, unsent);
      } else {
        unsent' := unsent + [Announcing(s, a).value];
        AnnouncingCommitInOrder(ttl, s, a.t, unsent);
      }
    } else {
      unsent' := unsent;
    }
  }

  /**
   If handlers do not overlap, then once every event is sent, replaying the
   stream from Recording ends at the stored status; and if no event was lost,
   the stream is the committed changes in order (without re-claims).
   */
  lemma {:induction false} ReplayGivesStatus(ttl: nat, startedAt: Time, actions: seq<Action>)
    requires NoOverlap(ttl, startedAt, actions)
    requires Pending(Run(ttl, startedAt, actions)) == multiset{}
    ensures var s := Run(ttl, startedAt, actions);
      && Chained(s.events, s.row.status)
      && (s.lost == [] ==> s.events == WithoutReclaims(Steps(s.log)))
  {
    hide Run, PendingIn, NoOverlap, Chained;
    var s := Run(ttl, startedAt, actions);
    var unsent := EventsInOrder(ttl, startedAt, actions);
    assert unsent == [];
    assert s.events + [] == s.events;
  }

  // ----- with overlap some order of sending misleads -----

  predicate OnlySends(sends: seq<Action>) { forall i :: 0 <= i < |sends| ==> sends[i].Emit? }

  /** Once everything is sent, replaying the stream ends at the stored status. */
  ghost predicate Replays(s: State) { Pending(s) == multiset{} ==> Chained(s.events, s.row.status) }

  /** At every moment of the run, in whichever order the unsent events then go out. */
  ghost predicate EveryOrderReplays(ttl: nat, startedAt: Time, actions: seq<Action>) {
    forall k, sends | 0 <= k <= |actions| && OnlySends(sends) :: Replays(Run(ttl, startedAt, actions[..k] + sends))
  }

  lemma {:induction false} SendsDoNotOverlap(ttl: nat, startedAt: Time, actions: seq<Action>, k: nat, sends: seq<Action>)
    requires NoOverlap(ttl, startedAt, actions) && k <= |actions| && OnlySends(sends)
    ensures NoOverlap(ttl, startedAt, actions[..k] + sends)
  {
    hide Run, Pending;
    var all := actions[..k] + sends;
    forall j | 0 <= j < |all| ensures Harmless(Run(ttl, startedAt, all[..j]), all[j]) {
      if j < k {
        assert all[..j] == actions[..j] && all[j] == actions[j];
      } else {
        assert all[j] == sends[j - k];
      }
    }
  }

  /** A pending event has a handler that is about to send it. */
  lemma {:induction false} Sender(handlers: map<TxId, Handler>, ts: set<TxId>, e: Transition) returns (t: TxId)
    requires ts <= handlers.Keys && e in PendingIn(handlers, ts)
    ensures t in ts && handlers[t].phase.Committed? && handlers[t].phase.event == Some(e)
    decreases ts
  {
    t :| t in ts;
    PendingPick(handlers, ts, t);
    if !(handlers[t].phase.Committed? && handlers[t].phase.event == Some(e)) {
      t := Sender(handlers, ts - {t}, e);
    }
  }

  lemma {:induction false} SendOne(ttl: nat, s: State, t: TxId, e: Transition)
    requires t in s.handlers && s.handlers[t].phase.Committed? && s.handlers[t].phase.event == Some(e)
    ensures var after := Step(ttl, s, Emit(t));
      && after.events == s.events + [e] && after.row == s.row
      && after.handlers == s.handlers[t := after.handlers[t]] && !after.handlers[t].phase.Committed?
      && Pending(after) == Pending(s) - multiset{e}
  {
    hide PendingIn;
    var after := Step(ttl, s, Emit(t));
    PendingUpdate(s.handlers, t, after.handlers[t]);
    Exchanged(Pending(after), multiset{e}, Pending(s), multiset{});
  }

  lemma {:induction false} TwoMore(ttl: nat, startedAt: Time, actions: seq<Action>, a: Action, b: Action)
    ensures Run(ttl, startedAt, actions + [a, b]) == Step(ttl, Step(ttl, Run(ttl, startedAt, actions), a), b)
  {
    hide Step;
    var one, two := actions + [a], actions + [a, b];
    assert two[..|two|-1] == one && one[..|one|-1] == actions;
  }

  /** Two events of a row, sent the wrong way round, do not chain if the first one changed the status. */
  lemma {:induction false} SwappedNotChained(events: seq<Transition>, e: Transition, f: Transition, status: SessionStatus)
    requires Chained(events + [e], e.to) && Moves(e) && f.from == e.to
    ensures !Chained(events + [f, e], status)
  {
    var good, bad := events + [e], events + [f, e];
    assert good[|events|] == e && bad[|events|] == f;
    if |events| > 0 {
      assert good[|events|-1] == bad[|events|-1];
    }
  }

  lemma {:induction false} ShortenedNotChained(events: seq<Transition>, e: Transition)
    requires Chained(events + [e], e.to) && Moves(e)
    ensures !Chained(events, e.to)
  {
    var all := events + [e];
    assert all[|events|] == e;
    if |events| > 0 {
      assert all[|events|-1] == events[|events|-1];
    }
  }

  /** A pending change of status is the only unsent event, and the latest one announced. */
  lemma {:induction false} MovingIsOnlyUnsent(s: State, unsent: seq<Transition>, e: Transition)
    requires InOrder(s, unsent) && e in Pending(s) && Moves(e)
    ensures unsent == [e] && Pending(s) == multiset{e} && s.row.status == e.to && Chained(s.events + [e], e.to)
  {
    hide PendingIn, WithoutReclaims, Steps;
    assert e in unsent;
    assert unsent == [e];
    assert (s.events + [e])[|s.events|] == e;
  }

  lemma {:induction false} OverlapMisleads(ttl: nat, startedAt: Time, actions: seq<Action>, u: TxId, unsent: seq<Transition>, e: Transition)
    returns (sends: seq<Action>)
    requires |actions| > 0 && actions[|actions|-1] == Commit(u)
    requires var s := Run(ttl, startedAt, actions[..|actions|-1]);
      InOrder(s, unsent) && Announcing(s, Commit(u)).Some? && e in Pending(s) && Moves(e)
    ensures OnlySends(sends) && !Replays(Run(ttl, startedAt, actions + sends))
  {
    hide PendingIn, Write, Announcement, Chained, InOrder, RunSerially;
    var init := actions[..|actions|-1];
    var s := Run(ttl, startedAt, init);
    RunKeeps(ttl, startedAt, init);
    assert HandlerOk(ttl, s, u);
    MovingIsOnlyUnsent(s, unsent, e);
    var h, f := s.handlers[u], Announcing(s, Commit(u)).value;
    WriteAnnounces(ttl, s.row, h.req, h.begun, h.phase.now, h.phase.effect);
    var t := Sender(s.handlers, s.handlers.Keys, e);
    var s1 := Step(ttl, s, Commit(u));
    CommitPending(ttl, s, u);
    assert Pending(s1) == multiset{e} + multiset{f};
    SendOne(ttl, s1, u, f);
    var s2 := Step(ttl, s1, Emit(u));
    SendOne(ttl, s2, t, e);
    var s3 := Step(ttl, s2, Emit(t));
    sends := [Emit(u), Emit(t)];
    TwoMore(ttl, startedAt, actions, Emit(u), Emit(t));
    assert s3.events == s.events + [f, e];
    SwappedNotChained(s.events, e, f, s3.row.status);
  }

  lemma {:induction false} LossMisleads(ttl: nat, s: State, t: TxId, unsent: seq<Transition>, e: Transition)
    requires InOrder(s, unsent) && Losing(s, Crash(t)) == Some(e) && Moves(e)
    ensures !Replays(Step(ttl, s, Crash(t)))
  {
    hide PendingIn, InOrder, Chained;
    var after := Step(ttl, s, Crash(t));
    PendingUpdate(s.handlers, t, after.handlers[t]);
    assert e in Pending(s) by {
      PendingPick(s.handlers, s.handlers.Keys, t);
    }
    MovingIsOnlyUnsent(s, unsent, e);
    Exchanged(Pending(after), multiset{e}, Pending(s), multiset{});
    ShortenedNotChained(s.events, e);
  }

  lemma {:induction false} SomeOrderMisleads(ttl: nat, startedAt: Time, actions: seq<Action>) returns (k: nat, sends: seq<Action>)
    requires !NoOverlap(ttl, startedAt, actions)
    ensures k <= |actions| && OnlySends(sends) && !Replays(Run(ttl, startedAt, actions[..k] + sends))
  {
    hide InOrder, Replays, Pending;
    var n := |actions| - 1;
    var init, a := actions[..n], actions[n];
    if !NoOverlap(ttl, startedAt, init) {
      k, sends := SomeOrderMisleads(ttl, startedAt, init);
      assert init[..k] == actions[..k];
    } else {
      assert !Harmless(Run(ttl, startedAt, init), a) by {
        if Harmless(Run(ttl, startedAt, init), a) { NoOverlapExtends(ttl, startedAt, actions); }
      }
      var s := Run(ttl, startedAt, init);
      var unsent := EventsInOrder(ttl, startedAt, init);
      k := |actions|;
      assert actions[..k] == actions;
      if Losing(s, a).Some? {
        LossMisleads(ttl, s, a.t, unsent, Losing(s, a).value);
        sends := [];
        assert actions + sends == actions;
      } else {
        var e :| e in Pending(s) && Moves(e);
        sends := OverlapMisleads(ttl, startedAt, actions, a.t, unsent, e);
      }
    }
  }

  lemma {:induction false} NoOverlapExtends(ttl: nat, startedAt: Time, actions: seq<Action>)
    requires |actions| > 0 && NoOverlap(ttl, startedAt, actions[..|actions|-1])
    requires Harmless(Run(ttl, startedAt, actions[..|actions|-1]), actions[|actions|-1])
    ensures NoOverlap(ttl, startedAt, actions)
  {
    hide Run, Harmless;
    var init := actions[..|actions|-1];
    forall k | 0 <= k < |actions| ensures Harmless(Run(ttl, startedAt, actions[..k]), actions[k]) {
      if k < |init| {
        assert init[..k] == actions[..k] && init[k] == actions[k];
      }
    }
  }

  /**
   A subscriber that replays the stream arrives at the stored status, whenever
   all events are out and in whichever order they went, if and only if no
   handler announces a commit while another still has to send a change of
   status, and no handler dies holding one.
   */
  lemma {:induction false} EveryOrderReplaysIff(ttl: nat, startedAt: Time, actions: seq<Action>)
    ensures EveryOrderReplays(ttl, startedAt, actions) <==> NoOverlap(ttl, startedAt, actions)
  {
    hide Run, Pending, NoOverlap, Chained;
    if NoOverlap(ttl, startedAt, actions) {
      forall k, sends | 0 <= k <= |actions| && OnlySends(sends)
        ensures Replays(Run(ttl, startedAt, actions[..k] + sends))
      {
        SendsDoNotOverlap(ttl, startedAt, actions, k, sends);
        if Pending(Run(ttl, startedAt, actions[..k] + sends)) == multiset{} {
          ReplayGivesStatus(ttl, startedAt, actions[..k] + sends);
        }
      }
    } else {
      var k, sends := SomeOrderMisleads(ttl, startedAt, actions);
    }
  }

  // ----- overlapping handlers -----

  function RunFrom(ttl: nat, s: State, actions: seq<Action>): State
    decreases |actions|
  {
    if |actions| == 0 then s else RunFrom(ttl, Step(ttl, s, actions[0]), actions[1..])
  }

  lemma {:induction false} RunFromConcat(ttl: nat, s: State, a: seq<Action>, b: seq<Action>)
    ensures RunFrom(ttl, s, a + b) == RunFrom(ttl, RunFrom(ttl, s, a), b)
    decreases |a|
  {
    hide Step;
    if |a| == 0 {
      assert a + b == b;
    } else {
      assert (a + b)[1..] == a[1..] + b;
      RunFromConcat(ttl, Step(ttl, s, a[0]), a[1..], b);
    }
  }

  lemma {:induction false} RunIsRunFrom(ttl: nat, startedAt: Time, actions: seq<Action>)
    ensures Run(ttl, startedAt, actions) == RunFrom(ttl, Init(startedAt), actions)
  {
    hide Step;
    if |actions| > 0 {
      var init, a := actions[..|actions|-1], actions[|actions|-1];
      RunIsRunFrom(ttl, startedAt, init);
      RunFromConcat(ttl, Init(startedAt), init, [a]);
      assert init + [a] == actions;
      assert [a][1..] == [];
      assert RunFrom(ttl, Run(ttl, startedAt, init), [a]) == RunFrom(ttl, Step(ttl, Run(ttl, startedAt, init), a), []);
    }
  }

  /** A handler's script up to its commit. */
  function UpToCommit(t: TxId, req: Request, begun: Time, now: Time): seq<Action> {
    [Begin(t, req, begun), Acquire(t), WriteRow(t, now), Commit(t)]
  }

  lemma {:induction false} FourSteps(ttl: nat, s: State, a: Action, b: Action, c: Action, d: Action)
    ensures RunFrom(ttl, s, [a, b, c, d]) == Step(ttl, Step(ttl, Step(ttl, Step(ttl, s, a), b), c), d)
  {
    hide Step;
    assert [a, b, c, d][1..] == [b, c, d] && [b, c, d][1..] == [c, d] && [c, d][1..] == [d] && [d][1..] == [];
    var s1 := Step(ttl, s, a);
    var s2 := Step(ttl, s1, b);
    var s3 := Step(ttl, s2, c);
    assert RunFrom(ttl, s, [a, b, c, d]) == RunFrom(ttl, s1, [b, c, d]);
    assert RunFrom(ttl, s1, [b, c, d]) == RunFrom(ttl, s2, [c, d]);
    assert RunFrom(ttl, s2, [c, d]) == RunFrom(ttl, s3, [d]);
    assert RunFrom(ttl, s3, [d]) == RunFrom(ttl, Step(ttl, s3, d), []);
  }

  /** An undisturbed handler up to its commit. */
  lemma {:induction false} SoloCommit(ttl: nat, s: State, t: TxId, req: Request, begun: Time, now: Time, effect: Effect)
    requires t !in s.handlers && s.lock == None
    requires Write(ttl, s.row, req, begun, now) == Ok(effect)
    ensures RunFrom(ttl, s, UpToCommit(t, req, begun, now)) ==
      State(effect.row, None,
            s.handlers[t := Handler(req, begun, Committed(effect.row, Announcement(req, effect.change)))],
            s.commits + [Commitment(req, begun, now)],
            s.log + (if effect.change.Some? then [effect.change.value] else []), s.events, s.lost)
  {
    hide Write, Announcement;
    FourSteps(ttl, s, Begin(t, req, begun), Acquire(t), WriteRow(t, now), Commit(t));
    assert s.handlers[t := Handler(req, begun, Begun)][t := Handler(req, begun, Locked(s.row))]
           [t := Handler(req, begun, Written(effect, now))]
           [t := Handler(req, begun, Committed(effect.row, Announcement(req, effect.change)))] ==
           s.handlers[t := Handler(req, begun, Committed(effect.row, Announcement(req, effect.change)))];
  }

  /** Two patches in a row, whose handlers reach the event bus in the opposite order. */
  function Crossing(): seq<Action> {
    UpToCommit(0, Patch(Some(Uploaded), None, None), 0, 0)
    + UpToCommit(1, Patch(Some(Transcribing), None, None), 0, 0)
    + [Emit(1), Emit(0)]
  }

  /** Overlapping handlers can send their events out of order: a subscriber then sees Uploaded last, of a session that is Transcribing. */
  lemma {:induction false} CrossingEventsMislead(ttl: nat)
    ensures var s := Run(ttl, 0, Crossing());
      && s.row.status == Transcribing
      && s.events == [Transition(Uploaded, Transcribing), Transition(Recording, Uploaded)]
      && Pending(s) == multiset{}
      && forall status :: !Chained(s.events, status)
  {
    hide RunFrom, PendingIn, Step;
    var s0 := Init(0);
    var p, q := Patch(Some(Uploaded), None, None), Patch(Some(Transcribing), None, None);
    var first, second := UpToCommit(0, p, 0, 0), UpToCommit(1, q, 0, 0);
    RunIsRunFrom(ttl, 0, Crossing());
    RunFromConcat(ttl, s0, first + second, [Emit(1), Emit(0)]);
    RunFromConcat(ttl, s0, first, second);
    SoloCommit(ttl, s0, 0, p, 0, 0, Write(ttl, s0.row, p, 0, 0).value);
    var s1 := RunFrom(ttl, s0, first);
    SoloCommit(ttl, s1, 1, q, 0, 0, Write(ttl, s1.row, q, 0, 0).value);
    var s2 := RunFrom(ttl, s1, second);
    EmitTwice(ttl, s2, 1, 0, Transition(Uploaded, Transcribing), Transition(Recording, Uploaded));
    var s := Run(ttl, 0, Crossing());
    RunKeeps(ttl, 0, Crossing());
    PendingNone(s.handlers, s.handlers.Keys);
    assert s.events[0].from == Uploaded;
  }

  lemma {:induction false} EmitTwice(ttl: nat, s: State, t: TxId, u: TxId, e: Transition, f: Transition)
    requires t != u && t in s.handlers && u in s.handlers && s.handlers.Keys == {t, u}
    requires s.handlers[t].phase.Committed? && s.handlers[t].phase.event == Some(e)
    requires s.handlers[u].phase.Committed? && s.handlers[u].phase.event == Some(f)
    ensures var after := RunFrom(ttl, s, [Emit(t), Emit(u)]);
      && after.events == s.events + [e, f] && after.row == s.row
      && after.handlers.Keys == {t, u}
      && forall v :: v in after.handlers ==> !after.handlers[v].phase.Committed?
  {
    assert [Emit(t), Emit(u)][1..] == [Emit(u)] && [Emit(u)][1..] == [];
    var s1 := Step(ttl, s, Emit(t));
    assert RunFrom(ttl, s, [Emit(t), Emit(u)]) == RunFrom(ttl, s1, [Emit(u)]);
    assert RunFrom(ttl, s1, [Emit(u)]) == RunFrom(ttl, Step(ttl, s1, Emit(u)), []);
    assert s.events + [e] + [f] == s.events + [e, f];
  }

  lemma {:induction false} PendingNone(handlers: map<TxId, Handler>, ts: set<TxId>)
    requires ts <= handlers.Keys && forall t :: t in ts ==> !handlers[t].phase.Committed?
    ensures PendingIn(handlers, ts) == multiset{}
    decreases ts
  {
    if ts != {} {
      var t :| t in ts;
      PendingPick(handlers, ts, t);
      PendingNone(handlers, ts - {t});
    }
  }

  /** One patch deletes a session that was never cascaded. */
  lemma {:induction false} PatchDeletes(ttl: nat, startedAt: Time)
    ensures var s := Run(ttl, startedAt, UpToCommit(0, Patch(Some(Deleted), None, None), 0, 0));
      s.row.status == Deleted && !Cascaded(s.commits)
  {
    hide RunFrom;
    var s0, p := Init(startedAt), Patch(Some(Deleted), None, None);
    RunIsRunFrom(ttl, startedAt, UpToCommit(0, p, 0, 0));
    SoloCommit(ttl, s0, 0, p, 0, 0, Write(ttl, s0.row, p, 0, 0).value);
  }

  // ----- the patched fields -----

  /** Commitment k is the last one that sets ended_at. */
  ghost predicate LastEndedAt(commits: seq<Commitment>, k: int) {
    && 0 <= k < |commits| && commits[k].req.Patch? && commits[k].req.endedAt.Some?
    && forall j :: k < j < |commits| ==> !(commits[j].req.Patch? && commits[j].req.endedAt.Some?)
  }

  ghost predicate LastParticipants(commits: seq<Commitment>, k: int) {
    && 0 <= k < |commits| && commits[k].req.Patch? && commits[k].req.participants.Some?
    && forall j :: k < j < |commits| ==> !(commits[j].req.Patch? && commits[j].req.participants.Some?)
  }

  lemma {:induction false} SerialEndedAt(ttl: nat, startedAt: Time, commits: seq<Commitment>)
    requires RunSerially(ttl, startedAt, commits).Some?
    ensures var row := RunSerially(ttl, startedAt, commits).value.row;
      && row.startedAt == startedAt
      && (forall k :: LastEndedAt(commits, k) ==> row.endedAt == commits[k].req.endedAt.value)
      && ((forall k :: !LastEndedAt(commits, k)) ==> row.endedAt == None)
  {
    if |commits| > 0 {
      var n := |commits| - 1;
      var init, last := commits[..n], commits[n].req;
      SerialEndedAt(ttl, startedAt, init);
      assert forall j :: 0 <= j < n ==> init[j] == commits[j];
      if last.Patch? && last.endedAt.Some? {
        assert LastEndedAt(commits, n);
      } else {
        assert forall k :: LastEndedAt(commits, k) <==> LastEndedAt(init, k);
      }
    }
  }

  lemma {:induction false} SerialParticipants(ttl: nat, startedAt: Time, commits: seq<Commitment>)
    requires RunSerially(ttl, startedAt, commits).Some?
    ensures var row := RunSerially(ttl, startedAt, commits).value.row;
      && (forall k :: LastParticipants(commits, k) ==> row.participants == commits[k].req.participants.value)
      && ((forall k :: !LastParticipants(commits, k)) ==> row.participants == None)
  {
    if |commits| > 0 {
      var n := |commits| - 1;
      var init, last := commits[..n], commits[n].req;
      SerialParticipants(ttl, startedAt, init);
      assert forall j :: 0 <= j < n ==> init[j] == commits[j];
      if last.Patch? && last.participants.Some? {
        assert LastParticipants(commits, n);
      } else {
        assert forall k :: LastParticipants(commits, k) <==> LastParticipants(init, k);
      }
    }
  }

  /** ended_at and participant_count hold what the last committed patch that set them said, null included. */
  lemma {:induction false} FieldsAreLastSet(ttl: nat, startedAt: Time, actions: seq<Action>)
    ensures var s := Run(ttl, startedAt, actions);
      && s.row.startedAt == startedAt
      && (forall k :: LastEndedAt(s.commits, k) ==> s.row.endedAt == s.commits[k].req.endedAt.value)
      && ((forall k :: !LastEndedAt(s.commits, k)) ==> s.row.endedAt == None)
      && (forall k :: LastParticipants(s.commits, k) ==> s.row.participants == s.commits[k].req.participants.value)
      && ((forall k :: !LastParticipants(s.commits, k)) ==> s.row.participants == None)
  {
    hide Run, LastEndedAt, LastParticipants;
    HandlersAreSerializable(ttl, startedAt, actions);
    SerialEndedAt(ttl, startedAt, Run(ttl, startedAt, actions).commits);
    SerialParticipants(ttl, startedAt, Run(ttl, startedAt, actions).commits);
  }
}
