/** The patch, resume and delete handlers of src/routes/sessions.rs as they change the session row. */
module SessionService {
  import opened Prelude
  import opened SessionState
  import opened Lifecycle
  import opened LifecycleEvents

  /** The steps of a handler that runs through without interference. */
  function Script(t: TxId, req: Request, begun: Time, now: Time): seq<Action> {
    UpToCommit(t, req, begun, now) + [Emit(t)]
  }

  /** Where those steps lead, from a state in which the row is not locked. */
  function Solo(ttl: nat, s: State, t: TxId, req: Request, begun: Time, now: Time): State {
    match Write(ttl, s.row, req, begun, now)
    case Err(e) => s.(handlers := s.handlers[t := Handler(req, begun, Refused(e))])
    case Ok(effect) =>
      State(effect.row, None, s.handlers[t := Handler(req, begun, Done(effect.row))],
            s.commits + [Commitment(req, begun, now)],
            s.log + (if effect.change.Some? then [effect.change.value] else []),
            s.events + Listed(Announcement(req, effect.change)), s.lost)
  }

  lemma {:induction false} ScriptIsSolo(ttl: nat, s: State, t: TxId, req: Request, begun: Time, now: Time)
    requires t !in s.handlers && s.lock == None
    ensures RunFrom(ttl, s, Script(t, req, begun, now)) == Solo(ttl, s, t, req, begun, now)
  {
    hide Write, Announcement;
    RunFromConcat(ttl, s, UpToCommit(t, req, begun, now), [Emit(t)]);
    var s' := RunFrom(ttl, s, UpToCommit(t, req, begun, now));
    assert [Emit(t)][1..] == [];
    assert RunFrom(ttl, s', [Emit(t)]) == RunFrom(ttl, Step(ttl, s', Emit(t)), []);
    match Write(ttl, s.row, req, begun, now) {
      case Ok(effect) =>
        SoloCommit(ttl, s, t, req, begun, now, effect);
        var event := Announcement(req, effect.change);
        assert s.handlers[t := Handler(req, begun, Committed(effect.row, event))]
               [t := Handler(req, begun, Done(effect.row))] == s.handlers[t := Handler(req, begun, Done(effect.row))];
      case Err(e) =>
        RefusedScript(ttl, s, t, req, begun, now, e);
    }
  }

  lemma {:induction false} RefusedScript(ttl: nat, s: State, t: TxId, req: Request, begun: Time, now: Time, e: Error)
    requires t !in s.handlers && s.lock == None && Write(ttl, s.row, req, begun, now) == Err(e)
    ensures RunFrom(ttl, s, UpToCommit(t, req, begun, now)) ==
            s.(handlers := s.handlers[t := Handler(req, begun, Refused(e))])
  {
    hide Write;
    FourSteps(ttl, s, Begin(t, req, begun), Acquire(t), WriteRow(t, now), Commit(t));
    assert s.handlers[t := Handler(req, begun, Begun)][t := Handler(req, begun, Locked(s.row))]
           [t := Handler(req, begun, Refused(e))] == s.handlers[t := Handler(req, begun, Refused(e))];
  }

  class Sessions {
    const ttl: nat
    var row: Row
    var events: seq<Transition>
    ghost var handlers: map<TxId, Handler>
    ghost var commits: seq<Commitment>
    ghost var log: seq<Change>
    ghost var lost: seq<Transition>

    /** Between two handler calls nobody holds the row lock. */
    ghost function View(): State
      reads this
    {
      State(row, None, handlers, commits, log, events, lost)
    }

    constructor (ttl: nat, startedAt: Time)
      ensures this.ttl == ttl && View() == Init(startedAt)
    {
      this.ttl := ttl;
      row := Created(startedAt);
      events := [];
      handlers, commits, log, lost := map[], [], [], [];
    }

    /** Refused exactly for an illegal transition; otherwise writes what was asked for, and announces a change of status. */
    method Patch(t: TxId, begun: Time, now: Time, status: Option<SessionStatus>,
                 endedAt: Option<Option<Time>>, participants: Option<Option<int>>)
      returns (r: Result<Row, Error>)
      requires t !in handlers
      modifies this
      ensures View() == RunFrom(ttl, old(View()), Script(t, Request.Patch(status, endedAt, participants), begun, now))
      ensures r.Err? <==> status.Some? && !CanTransition(old(row).status, status.value)
      ensures r.Err? ==> r.error == IllegalTransition(old(row).status, status.value) && row == old(row) && events == old(events)
      ensures r.Ok? ==>
        && r.value == row
        && row.status == (if status.Some? then status.value else old(row).status)
        && row.abandonedAt == (if status == Some(Abandoned) then Some(begun) else old(row).abandonedAt)
        && row.deletedAt == (if status == Some(Deleted) then Some(begun) else old(row).deletedAt)
        && row.endedAt == (if endedAt.Some? then endedAt.value else old(row).endedAt)
        && row.participants == (if participants.Some? then participants.value else old(row).participants)
        && row.startedAt == old(row).startedAt
      ensures r.Ok? ==>
        events == old(events) +
          (if status.Some? && status.value != old(row).status then [Transition(old(row).status, status.value)] else [])
    {
      ghost var req := Request.Patch(status, endedAt, participants);
      ScriptIsSolo(ttl, View(), t, req, begun, now);
      var existing := row;
      var updated := existing;
      var emitEvent: Option<Transition> := None;
      ghost var change: Option<Change> := None;
      if status.Some? {
        if !CanTransition(existing.status, status.value) {
          var e := IllegalTransition(existing.status, status.value);
          handlers := handlers[t := Handler(req, begun, Refused(e))];
          return Err(e);
        }
        updated := UpdateStatus(updated, status.value, begun);
        change := Some(Change(Transition(existing.status, status.value), begun));
        if existing.status != status.value {
          emitEvent := Some(Transition(existing.status, status.value));
        }
      }
      if endedAt.Some? || participants.Some? {
        updated := PatchFields(updated, endedAt, participants);
      }
      CommitRow(t, req, begun, now, updated, change);
      if emitEvent.Some? {
        events := events + [emitEvent.value];
      }
      r := Ok(updated);
    }

    method Resume(t: TxId, begun: Time, now: Time) returns (r: Result<Row, Error>)
      requires t !in handlers
      modifies this
      ensures View() == RunFrom(ttl, old(View()), Script(t, Request.Resume, begun, now))
      ensures r.Ok? <==> old(row).status == Abandoned && Age(old(row), now) <= ttl
      ensures r.Ok? ==> r.value == row == old(row).(status := Recording, abandonedAt := None)
      ensures r.Ok? ==> events == old(events) + [Transition(Abandoned, Recording)]
      ensures r.Err? ==> row == old(row) && events == old(events)
      ensures r.Err? && old(row).status != Abandoned ==> r.error == IllegalTransition(old(row).status, Recording)
      ensures r.Err? && old(row).status == Abandoned && old(row).abandonedAt.Some? ==>
        r.error.Gone? && r.error.age > ttl
        && r.error.age * SECOND <= now - old(row).abandonedAt.value < (r.error.age + 1) * SECOND
    {
      ScriptIsSolo(ttl, View(), t, Request.Resume, begun, now);
      var existing := row;
      if existing.status != Abandoned {
        var e := IllegalTransition(existing.status, Recording);
        handlers := handlers[t := Handler(Request.Resume, begun, Refused(e))];
        return Err(e);
      }
      var anchor := existing.startedAt;
      if existing.abandonedAt.Some? {
        anchor := existing.abandonedAt.value;
      }
      var age := Max(WholeSeconds(now - anchor), 0);
      if age > ttl {
        handlers := handlers[t := Handler(Request.Resume, begun, Refused(Gone(age)))];
        return Err(Gone(age));
      }
      var updated := existing.(status := Recording, abandonedAt := None);
      CommitRow(t, Request.Resume, begun, now, updated, Some(Change(Transition(Abandoned, Recording), now)));
      events := events + [Transition(Abandoned, Recording)];
      r := Ok(updated);
    }

    method DeleteCascade(t: TxId, begun: Time, now: Time) returns (tombstone: SessionStatus)
      requires t !in handlers
      modifies this
      ensures View() == RunFrom(ttl, old(View()), Script(t, Cascade, begun, now))
      ensures tombstone == Deleted && row == old(row).(status := Deleted, deletedAt := Some(begun))
      ensures events == old(events) + [Transition(old(row).status, Deleted)]
    {
      ScriptIsSolo(ttl, View(), t, Cascade, begun, now);
      var existing := row;
      var updated := UpdateStatus(existing, Deleted, begun);
      CommitRow(t, Cascade, begun, now, updated, Some(Change(Transition(existing.status, Deleted), begun)));
      events := events + [Transition(existing.status, Deleted)];
      tombstone := updated.status;
    }

    method CommitRow(t: TxId, ghost req: Request, ghost begun: Time, ghost now: Time, updated: Row, ghost change: Option<Change>)
      modifies this
      ensures View() == old(View()).(
        row := updated,
        handlers := old(handlers)[t := Handler(req, begun, Done(updated))],
        commits := old(commits) + [Commitment(req, begun, now)],
        log := old(log) + (if change.Some? then [change.value] else []))
    {
      row := updated;
      handlers := handlers[t := Handler(req, begun, Done(updated))];
      commits := commits + [Commitment(req, begun, now)];
      log := log + (if change.Some? then [change.value] else []);
    }
  }
}
