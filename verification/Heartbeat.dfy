/**
 src/routes/ws/session.rs: the connection loop against the clock. Frames arrive
 at the socket at some instant and are read later; a poll of the select serves
 the first ready branch in the source's biased order: bus, socket, ping timer,
 pong deadline.

 Assumed of the runtime: an interval fires at its start and then at whole
 periods from there, skipping those already past; a timer branch is ready from
 its instant on; frames are read in the order in which they arrived.
 */
module Heartbeat {
  import opened Prelude
  import opened Events
  import opened SubscriptionFilter
  import opened DropOldest
  import opened DropBurst
  import opened ConnectionLoop

  predicate FromBus(w: Wake) { w.BusEvent? || w.BusLagged? || w.BusClosed? }

  predicate FromSocket(w: Wake) {
    || w.SocketEnd? || w.SocketError? || w.SubscriptionFrame? || w.OtherText?
    || w.PongFrame? || w.PingFrame? || w.CloseFrame? || w.BinaryFrame?
  }

  type BusWake = w: Wake | FromBus(w) witness BusClosed

  type Frame = w: Wake | FromSocket(w) witness SocketEnd

  /** A frame reaching the socket, or one pass of the loop; `stamp` is the clock after a ping was sent. */
  datatype Act =
    | Arrive(at: Instant, frame: Frame)
    | Poll(at: Instant, fate: Fate, bus: Option<BusWake>, delivered: bool, stamp: Instant)

  datatype Link = Link(conn: Conn, nextPing: Instant, inbox: seq<Frame>)

  /** The timer fires at whole periods from its start; a tick served late skips those it missed. */
  function NextPing(due: Instant, now: Instant): Instant {
    due + ((now - due) / PING_PERIOD + 1) * PING_PERIOD
  }

  /** The first ready branch. */
  function Chosen(l: Link, p: Act): Option<Wake>
    requires p.Poll?
  {
    if p.bus.Some? then Some(p.bus.value)
    else if |l.inbox| > 0 then Some(l.inbox[0])
    else if l.nextPing <= p.at then Some(Tick(p.at, p.delivered, p.stamp))
    else if DeadlineDue(l.conn, p.at) then Some(Deadline(p.at))
    else None
  }

  function Served(l: Link, a: Act): Option<Wake> {
    if a.Poll? && ReachesSelect(l.conn, a.fate) then Chosen(l, a) else None
  }

  function Step(l: Link, a: Act): Link {
    match a
    case Arrive(_, frame) => l.(inbox := l.inbox + [frame])
    case Poll(at, fate, _, _, _) =>
      match Served(l, a)
      case None => if l.conn.closed.Some? then l else l.(conn := AfterSend(l.conn, fate))
      case Some(w) =>
        Link(AfterTurn(l.conn, Turn(fate, w)),
             if w.Tick? then NextPing(l.nextPing, at) else l.nextPing,
             if FromSocket(w) then l.inbox[1..] else l.inbox)
  }

  function Run(depth: nat, start: Instant, acts: seq<Act>): Link {
    if |acts| == 0 then Link(Open(depth, start), start, [])
    else Step(Run(depth, start, acts[..|acts|-1]), acts[|acts|-1])
  }

  ghost predicate Chronological(acts: seq<Act>) {
    forall i, j :: 0 <= i < j < |acts| ==> acts[i].at <= acts[j].at
  }

  /** A poll that reaches the select: the bus goes before the socket, both before the timers, the ping before the deadline. */
  lemma {:induction false} BranchPriority(l: Link, p: Act)
    requires p.Poll? && ReachesSelect(l.conn, p.fate)
    ensures var w := Served(l, p);
      && (p.bus.Some? <==> w.Some? && FromBus(w.value))
      && (p.bus.Some? ==> w.value == p.bus.value)
      && (w.Some? && FromSocket(w.value) <==> p.bus.None? && |l.inbox| > 0)
      && (w.Some? && FromSocket(w.value) ==> w.value == l.inbox[0])
      && (w.Some? && w.value.Tick? <==> p.bus.None? && l.inbox == [] && l.nextPing <= p.at)
      && (w.Some? && w.value.Deadline? <==> p.bus.None? && l.inbox == [] && p.at < l.nextPing && DeadlineDue(l.conn, p.at))
  {
    hide ReachesSelect;
  }

  // ----- polls are turns of the loop -----

  /** A poll that finds nothing ready is a turn that finds the deadline not due. */
  lemma {:induction false} PollIsTurn(l: Link, a: Act)
    requires a.Poll?
    ensures var w := Served(l, a);
      Step(l, a).conn == AfterTurn(l.conn, Turn(a.fate, if w.Some? then w.value else Deadline(a.at)))
  {
    hide AfterSend, Enqueue;
    if ReachesSelect(l.conn, a.fate) && Chosen(l, a).None? {
      SendKeepsDeadline(l.conn, a.fate);
    }
  }

  lemma SendKeepsDeadline(c: Conn, fate: Fate)
    ensures AfterSend(c, fate).pongDeadline == c.pongDeadline
  {
  }

  /** So everything said about turns holds of polls. */
  lemma {:induction false} PollsAreTurns(depth: nat, start: Instant, acts: seq<Act>) returns (turns: seq<Turn>)
    ensures Run(depth, start, acts).conn == AfterTurns(Open(depth, start), turns)
  {
    hide Step, AfterTurn;
    if |acts| == 0 {
      turns := [];
    } else {
      var init, a := acts[..|acts|-1], acts[|acts|-1];
      var l := Run(depth, start, init);
      turns := PollsAreTurns(depth, start, init);
      if a.Poll? {
        PollIsTurn(l, a);
        var w := Served(l, a);
        var t := Turn(a.fate, if w.Some? then w.value else Deadline(a.at));
        assert (turns + [t])[..|turns|] == turns;
        turns := turns + [t];
      } else {
        ArriveKeepsConn(l, a);
      }
    }
  }

  lemma ArriveKeepsConn(l: Link, a: Act)
    requires a.Arrive?
    ensures Step(l, a) == l.(inbox := l.inbox + [a.frame])
  {
  }

  // ----- what one step does to the heartbeat -----

  lemma {:induction false} PollEffects(l: Link, a: Act)
    requires a.Poll? && l.conn.closed.None?
    ensures var w, d := Served(l, a), Step(l, a);
      && (w.None? ==> d.conn.pongDeadline == l.conn.pongDeadline && d.conn.closed != Some(HealthcheckTimeout)
                      && d.nextPing == l.nextPing && d.inbox == l.inbox)
      && (w.Some? ==>
            && d.conn.pongDeadline == (if w.value.PongFrame? then None
                                       else if w.value.Tick? && w.value.delivered then Some(w.value.stamp + PONG_GRACE)
                                       else l.conn.pongDeadline)
            && (d.conn.closed == Some(HealthcheckTimeout) <==> w.value.Deadline?)
            && (w.value.Tick? && !w.value.delivered ==> d.conn.closed.Some?)
            && d.nextPing == (if w.value.Tick? then NextPing(l.nextPing, a.at) else l.nextPing)
            && d.inbox == (if FromSocket(w.value) then l.inbox[1..] else l.inbox))
  {
    hide Note, NextPing;
  }

  lemma ClosedStays(l: Link, a: Act)
    requires l.conn.closed.Some?
    ensures Step(l, a).conn == l.conn && Step(l, a).nextPing == l.nextPing && Served(l, a).None?
  {
  }

  lemma NextPingIsLater(due: Instant, now: Instant)
    requires due <= now
    ensures now < NextPing(due, now) <= now + PING_PERIOD
  {
  }

  lemma {:induction false} TimerAdvances(l: Link, a: Act)
    ensures l.nextPing <= Step(l, a).nextPing
    ensures Served(l, a).Some? && Served(l, a).value.Tick? ==> l.nextPing <= a.at < Step(l, a).nextPing
  {
    hide AfterTurn, NextPing, AfterSend;
    if a.Poll? && l.nextPing <= a.at {
      NextPingIsLater(l.nextPing, a.at);
    }
  }

  // ----- pings and pongs of a run -----

  /** The k-th act is a ping that went out. */
  ghost predicate PingsAt(depth: nat, start: Instant, acts: seq<Act>, k: int) {
    && 0 <= k < |acts|
    && var w := Served(Run(depth, start, acts[..k]), acts[k]);
       w.Some? && w.value.Tick? && w.value.delivered
  }

  predicate IsPong(a: Act) { a.Arrive? && a.frame.PongFrame? }

  /** A pong reaches the socket after act i and before act j. */
  ghost predicate PongBetween(acts: seq<Act>, i: int, j: int) {
    exists p :: i < p < j && 0 <= p < |acts| && IsPong(acts[p])
  }

  /** When the ping's grace is over; the loop reads the clock after sending. */
  function GraceEnd(acts: seq<Act>, k: nat): Instant
    requires k < |acts| && acts[k].Poll?
  {
    acts[k].stamp + 10 * SECOND
  }

  /** When the ping timer fires next after the k-th act. */
  function NextPingAfter(depth: nat, start: Instant, acts: seq<Act>, k: nat): Instant
    requires k < |acts|
  {
    Run(depth, start, acts[..k+1]).nextPing
  }

  /** The loop runs at act m, and neither the bus nor the socket has anything for it. */
  ghost predicate QuietAt(depth: nat, start: Instant, acts: seq<Act>, m: nat)
    requires m < |acts|
  {
    var l := Run(depth, start, acts[..m]);
    && acts[m].Poll? && acts[m].bus.None? && l.inbox == []
    && (|l.conn.queue| == 0 || acts[m].fate.Sent?)
  }

  /**
   No pong for the ping of act k reaches the socket before the loop runs
   quietly at act m, between the end of the grace and the next ping.
   */
  ghost predicate Unanswered(depth: nat, start: Instant, acts: seq<Act>, k: nat, m: nat) {
    && k < m < |acts| && PingsAt(depth, start, acts, k)
    && QuietAt(depth, start, acts, m)
    && GraceEnd(acts, k) <= acts[m].at < NextPingAfter(depth, start, acts, k)
    && !PongBetween(acts, k, m)
  }

  ghost function LastPing(depth: nat, start: Instant, acts: seq<Act>): (k: Option<nat>)
    ensures k.Some? ==> k.value < |acts| && PingsAt(depth, start, acts, k.value)
    ensures forall j :: PingsAt(depth, start, acts, j) ==> k.Some? && j <= k.value
  {
    if |acts| == 0 then None
    else if PingsAt(depth, start, acts, |acts|-1) then Some(|acts|-1)
    else
      assert forall j | 0 <= j < |acts| - 1 :: acts[..|acts|-1][..j] == acts[..j];
      assert forall j | 0 <= j < |acts| - 1 :: PingsAt(depth, start, acts, j) <==> PingsAt(depth, start, acts[..|acts|-1], j);
      LastPing(depth, start, acts[..|acts|-1])
  }

  /** The deadline is that of the last ping until a pong is read, and until then an arrived pong sits in the inbox. */
  ghost predicate DeadlineFollowsPings(depth: nat, start: Instant, acts: seq<Act>) {
    var l := Run(depth, start, acts);
    l.conn.closed.None? ==>
      match LastPing(depth, start, acts)
      case None => l.conn.pongDeadline.None?
      case Some(k) =>
        && l.nextPing == NextPingAfter(depth, start, acts, k)
        && (l.conn.pongDeadline.None? || l.conn.pongDeadline == Some(GraceEnd(acts, k)))
        && (PongBetween(acts, k, |acts|) <==> l.conn.pongDeadline.None? || PongFrame in l.inbox)
  }

  lemma {:induction false} PongOfPrefix(acts: seq<Act>, n: nat, i: int, j: int)
    requires j <= n <= |acts|
    ensures PongBetween(acts[..n], i, j) <==> PongBetween(acts, i, j)
  {
    if PongBetween(acts[..n], i, j) {
      var p :| i < p < j && 0 <= p < n && IsPong(acts[..n][p]);
      assert IsPong(acts[p]);
    }
    if PongBetween(acts, i, j) {
      var p :| i < p < j && 0 <= p < |acts| && IsPong(acts[p]);
      assert IsPong(acts[..n][p]);
    }
  }

  lemma {:induction false} PongBetweenStep(acts: seq<Act>, k: nat)
    requires |acts| > 0
    ensures var n := |acts| - 1;
      PongBetween(acts, k, n + 1) <==> PongBetween(acts[..n], k, n) || (k < n && IsPong(acts[n]))
  {
    var n := |acts| - 1;
    PongOfPrefix(acts, n, k, n);
    if PongBetween(acts, k, n + 1) {
      var p :| k < p < n + 1 && IsPong(acts[p]);
      if p < n {
        assert PongBetween(acts, k, n);
      }
    }
    if PongBetween(acts, k, n) {
      var p :| k < p < n && IsPong(acts[p]);
      assert PongBetween(acts, k, n + 1);
    }
    if k < n && IsPong(acts[n]) {
      assert PongBetween(acts, k, n + 1);
    }
  }

  lemma {:induction false} PingOfPrefix(depth: nat, start: Instant, acts: seq<Act>, m: nat, k: nat)
    requires k < m <= |acts|
    ensures PingsAt(depth, start, acts[..m], k) <==> PingsAt(depth, start, acts, k)
    ensures NextPingAfter(depth, start, acts[..m], k) == NextPingAfter(depth, start, acts, k)
  {
    hide Run, Served;
    assert acts[..m][..k] == acts[..k] && acts[..m][..k+1] == acts[..k+1];
  }

  /** The step that sends a ping. */
  lemma {:induction false} PingFollows(depth: nat, start: Instant, acts: seq<Act>)
    requires |acts| > 0 && PingsAt(depth, start, acts, |acts| - 1)
    ensures DeadlineFollowsPings(depth, start, acts)
  {
    hide Step, NextPing;
    var n := |acts| - 1;
    var l, a := Run(depth, start, acts[..n]), acts[n];
    PollEffects(l, a);
    hide Run;
    assert acts[..n+1] == acts;
    assert LastPing(depth, start, acts) == Some(n);
    assert l.inbox == [];
  }

  /** A poll that sends none. */
  lemma {:induction false} PollFollows(depth: nat, start: Instant, acts: seq<Act>)
    requires |acts| > 0 && acts[|acts|-1].Poll? && !PingsAt(depth, start, acts, |acts| - 1)
    requires DeadlineFollowsPings(depth, start, acts[..|acts|-1])
    ensures DeadlineFollowsPings(depth, start, acts)
  {
    hide Step, NextPing, PongBetween;
    var n := |acts| - 1;
    var init, a := acts[..n], acts[n];
    var l := Run(depth, start, init);
    if l.conn.closed.Some? {
      ClosedStays(l, a);
    } else {
      PollEffects(l, a);
      var last := LastPing(depth, start, init);
      assert LastPing(depth, start, acts) == last;
      hide LastPing, Chosen, ReachesSelect;
      if Served(l, a).Some? {
        ServedKinds(l, a);
      }
      if last.Some? {
        PingOfPrefix(depth, start, acts, n, last.value);
        hide PingsAt, NextPingAfter;
        PongBetweenStep(acts, last.value);
        InboxRest(l.inbox);
      }
    }
  }

  lemma ServedKinds(l: Link, a: Act)
    requires Served(l, a).Some?
    ensures var w := Served(l, a).value;
      && (FromSocket(w) ==> |l.inbox| > 0 && w == l.inbox[0])
      && (w.Tick? ==> a.Poll? && w.delivered == a.delivered)
  {
  }

  lemma InboxRest(inbox: seq<Frame>)
    ensures |inbox| > 0 ==> (PongFrame in inbox <==> inbox[0] == PongFrame || PongFrame in inbox[1..])
  {
  }

  lemma {:induction false} ArriveFollows(depth: nat, start: Instant, acts: seq<Act>)
    requires |acts| > 0 && acts[|acts|-1].Arrive?
    requires DeadlineFollowsPings(depth, start, acts[..|acts|-1])
    ensures DeadlineFollowsPings(depth, start, acts)
  {
    hide Step, PongBetween;
    var n := |acts| - 1;
    var init, a := acts[..n], acts[n];
    var l := Run(depth, start, init);
    ArriveKeepsConn(l, a);
    var last := LastPing(depth, start, init);
    assert LastPing(depth, start, acts) == last;
    hide LastPing;
    if last.Some? {
      PingOfPrefix(depth, start, acts, n, last.value);
      PongBetweenStep(acts, last.value);
    }
  }

  lemma {:induction false} DeadlineAlwaysFollows(depth: nat, start: Instant, acts: seq<Act>)
    ensures DeadlineFollowsPings(depth, start, acts)
  {
    hide DeadlineFollowsPings, PingsAt;
    if |acts| == 0 {
      NoPingYet(depth, start);
      assert acts == [];
    } else {
      DeadlineAlwaysFollows(depth, start, acts[..|acts|-1]);
      if PingsAt(depth, start, acts, |acts| - 1) {
        PingFollows(depth, start, acts);
      } else if acts[|acts|-1].Poll? {
        PollFollows(depth, start, acts);
      } else {
        ArriveFollows(depth, start, acts);
      }
    }
  }

  lemma NoPingYet(depth: nat, start: Instant)
    ensures DeadlineFollowsPings(depth, start, [])
  {
  }

  lemma {:induction false} LaterRuns(depth: nat, start: Instant, acts: seq<Act>, i: nat)
    requires i <= |acts|
    ensures var early, late := Run(depth, start, acts[..i]), Run(depth, start, acts);
      && early.nextPing <= late.nextPing
      && (early.conn.closed.Some? ==> late.conn == early.conn)
    decreases |acts|
  {
    hide Step;
    if i == |acts| {
      assert acts[..i] == acts;
    } else {
      var init, a := acts[..|acts|-1], acts[|acts|-1];
      assert init[..i] == acts[..i];
      LaterRuns(depth, start, init, i);
      var l := Run(depth, start, init);
      TimerAdvances(l, a);
      if l.conn.closed.Some? {
        ClosedStays(l, a);
      }
    }
  }

  // ----- when a connection times out -----

  /** The act that times the connection out is a quiet poll after an unanswered ping. */
  lemma {:induction false} TimeoutIsUnanswered(depth: nat, start: Instant, acts: seq<Act>) returns (k: nat, m: nat)
    requires Run(depth, start, acts).conn.closed == Some(HealthcheckTimeout)
    ensures Unanswered(depth, start, acts, k, m)
  {
    hide Step, PongBetween, DeadlineFollowsPings;
    assert |acts| > 0;
    var n := |acts| - 1;
    var init, a := acts[..n], acts[n];
    var l := Run(depth, start, init);
    if l.conn.closed.Some? {
      ClosedStays(l, a);
      k, m := TimeoutIsUnanswered(depth, start, init);
      UnansweredOfPrefix(depth, start, acts, n, k, m);
    } else {
      m := n;
      DeadlineAlwaysFollows(depth, start, init);
      if a.Arrive? {
        ArriveKeepsConn(l, a);
      } else {
        PollEffects(l, a);
        k := LateIsUnanswered(depth, start, acts);
      }
    }
  }

  lemma {:induction false} LateIsUnanswered(depth: nat, start: Instant, acts: seq<Act>) returns (k: nat)
    requires |acts| > 0 && DeadlineFollowsPings(depth, start, acts[..|acts|-1])
    requires var w := Served(Run(depth, start, acts[..|acts|-1]), acts[|acts|-1]); w.Some? && w.value.Deadline?
    ensures Unanswered(depth, start, acts, k, |acts| - 1)
  {
    hide Step, Run;
    var n := |acts| - 1;
    var init, a := acts[..n], acts[n];
    k := LastPing(depth, start, init).value;
    hide LastPing;
    PingOfPrefix(depth, start, acts, n, k);
    PongOfPrefix(acts, n, k, n);
  }

  lemma {:induction false} UnansweredOfPrefix(depth: nat, start: Instant, acts: seq<Act>, n: nat, k: nat, m: nat)
    requires n <= |acts| && k < m < n
    ensures Unanswered(depth, start, acts[..n], k, m) <==> Unanswered(depth, start, acts, k, m)
  {
    hide Run, PingsAt, NextPingAfter;
    PingOfPrefix(depth, start, acts, n, k);
    assert acts[..n][..m] == acts[..m];
    PongOfPrefix(acts, n, k, m);
  }

  /** Until the timer fires again no further ping goes out. */
  lemma {:induction false} NoPingBefore(depth: nat, start: Instant, acts: seq<Act>, k: nat, m: nat, j: nat)
    requires Chronological(acts) && k < j < m < |acts| && acts[m].at < NextPingAfter(depth, start, acts, k)
    ensures !PingsAt(depth, start, acts, j)
  {
    hide Step;
    assert acts[..j][..k+1] == acts[..k+1];
    LaterRuns(depth, start, acts[..j], k + 1);
    TimerAdvances(Run(depth, start, acts[..j]), acts[j]);
  }

  lemma {:induction false} LastPingIs(depth: nat, start: Instant, acts: seq<Act>, k: nat, m: nat)
    requires Chronological(acts) && k < m < |acts| && PingsAt(depth, start, acts, k)
    requires acts[m].at < NextPingAfter(depth, start, acts, k)
    ensures LastPing(depth, start, acts[..m]) == Some(k)
  {
    hide Run, PingsAt, NextPingAfter;
    PingOfPrefix(depth, start, acts, m, k);
    var last := LastPing(depth, start, acts[..m]);
    assert last.Some? && k <= last.value < m;
    hide LastPing;
    if k < last.value {
      PingOfPrefix(depth, start, acts, m, last.value);
      NoPingBefore(depth, start, acts, k, m, last.value);
    }
  }

  lemma {:induction false} UnansweredCloses(depth: nat, start: Instant, acts: seq<Act>, k: nat, m: nat)
    requires Chronological(acts) && Unanswered(depth, start, acts, k, m)
    requires Run(depth, start, acts[..m]).conn.closed.None?
    ensures Run(depth, start, acts[..m+1]).conn.closed == Some(HealthcheckTimeout)
  {
    hide Step;
    var early, l := acts[..m], Run(depth, start, acts[..m]);
    assert acts[..m+1][..m] == early;
    DeadlineAlwaysFollows(depth, start, early);
    LastPingIs(depth, start, acts, k, m);
    PingOfPrefix(depth, start, acts, m, k);
    PongOfPrefix(acts, m, k, m);
    assert l.conn.pongDeadline == Some(GraceEnd(acts, k));
    PollEffects(l, acts[m]);
  }

  /**
   A peer that leaves a ping unanswered is disconnected no later than the first
   quiet poll between the end of the grace and the next ping.
   */
  lemma {:induction false} SilentPeerClosedBeforeNextPing(depth: nat, start: Instant, acts: seq<Act>, k: nat, m: nat)
    requires Chronological(acts) && Unanswered(depth, start, acts, k, m)
    ensures Run(depth, start, acts[..m+1]).conn.closed.Some?
    ensures forall j :: j > k ==> !PingsAt(depth, start, acts, j)
  {
    hide Step, Run, PongBetween, Served;
    var upTo := acts[..m+1];
    assert upTo[..m] == acts[..m] && acts[..m][..k+1] == acts[..k+1];
    if Run(depth, start, acts[..m]).conn.closed.None? {
      UnansweredCloses(depth, start, acts, k, m);
    } else {
      LaterRuns(depth, start, upTo, m);
    }
    LaterRuns(depth, start, acts[..m], k + 1);
    forall j: nat | k < j < |acts| ensures !PingsAt(depth, start, acts, j) {
      if j < m {
        NoPingBefore(depth, start, acts, k, m, j);
      } else {
        ClosedSendsNothing(depth, start, acts, m, j);
      }
    }
  }

  /** A quiet poll sends no ping before the timer fires, and a closed connection never does. */
  lemma {:induction false} ClosedSendsNothing(depth: nat, start: Instant, acts: seq<Act>, m: nat, j: nat)
    requires m < |acts| && m <= j < |acts| && Run(depth, start, acts[..m+1]).conn.closed.Some?
    requires j == m ==> acts[m].at < Run(depth, start, acts[..m]).nextPing
    ensures !PingsAt(depth, start, acts, j)
  {
    hide Step, Run;
    if j > m {
      assert acts[..j][..m+1] == acts[..m+1];
      LaterRuns(depth, start, acts[..j], m + 1);
    }
  }

  // ----- nothing else closes the connection -----

  predicate ClosesSocket(w: Wake) { w.SocketEnd? || w.SocketError? || w.CloseFrame? || w.BinaryFrame? }

  /** The bus stays up, sends succeed, and the peer neither leaves nor misbehaves. */
  predicate Benign(a: Act) {
    match a
    case Arrive(_, frame) => !ClosesSocket(frame)
    case Poll(_, fate, bus, delivered, _) => !fate.SendError? && bus != Some(BusClosed) && delivered
  }

  lemma {:induction false} BenignStep(l: Link, a: Act)
    requires Benign(a) && LoopInvariant(l.conn)
    requires l.conn.closed.None? || l.conn.closed == Some(HealthcheckTimeout)
    requires forall i :: 0 <= i < |l.inbox| ==> !ClosesSocket(l.inbox[i])
    ensures var d := Step(l, a);
      && (d.conn.closed.None? || d.conn.closed == Some(HealthcheckTimeout))
      && (forall i :: 0 <= i < |d.inbox| ==> !ClosesSocket(d.inbox[i]))
  {
    hide NextPing, DeadlineExplained, MatchedBy, Note, AfterPush, Apply, ApplyAll, Accepted, Changes, EventsOf;
    if a.Poll? {
      PollIsTurn(l, a);
      var w := Served(l, a);
      TurnKeepsInvariant(l.conn, Turn(a.fate, if w.Some? then w.value else Deadline(a.at)));
    }
  }

  lemma {:induction false} OnlyTimeoutCloses(depth: nat, start: Instant, acts: seq<Act>)
    requires forall i :: 0 <= i < |acts| ==> Benign(acts[i])
    ensures var l := Run(depth, start, acts);
      && (l.conn.closed.None? || l.conn.closed == Some(HealthcheckTimeout))
      && (forall i :: 0 <= i < |l.inbox| ==> !ClosesSocket(l.inbox[i]))
  {
    hide Step, LoopInvariant;
    if |acts| > 0 {
      var init := acts[..|acts|-1];
      OnlyTimeoutCloses(depth, start, init);
      var turns := PollsAreTurns(depth, start, init);
      InvariantHolds(depth, start, turns);
      BenignStep(Run(depth, start, init), acts[|acts|-1]);
    }
  }

  /**
   As long as nothing else ends the connection, it is timed out if and only if
   some ping stays unanswered until a quiet poll after its grace and before the
   next ping. However busy the bus and however late the polls, it is the pong's
   arrival that counts, not its reading.
   */
  lemma {:induction false} TimedOutIffUnanswered(depth: nat, start: Instant, acts: seq<Act>)
    requires Chronological(acts) && forall i :: 0 <= i < |acts| ==> Benign(acts[i])
    ensures Run(depth, start, acts).conn.closed == Some(HealthcheckTimeout) <==>
            exists k: nat, m: nat :: Unanswered(depth, start, acts, k, m)
  {
    hide Run, Unanswered;
    if Run(depth, start, acts).conn.closed == Some(HealthcheckTimeout) {
      var k, m := TimeoutIsUnanswered(depth, start, acts);
    } else if k: nat, m: nat :| Unanswered(depth, start, acts, k, m) {
      UnansweredIndex(depth, start, acts, k, m);
      SilentPeerClosedBeforeNextPing(depth, start, acts, k, m);
      LaterRuns(depth, start, acts, m + 1);
      OnlyTimeoutCloses(depth, start, acts);
    }
  }

  lemma UnansweredIndex(depth: nat, start: Instant, acts: seq<Act>, k: nat, m: nat)
    requires Unanswered(depth, start, acts, k, m)
    ensures k < m < |acts|
  {
  }

  /** Whenever the clock reaches the end of a ping's grace, a pong has reached the socket before that. */
  ghost predicate AnswersInTime(depth: nat, start: Instant, acts: seq<Act>) {
    forall k, m :: 0 <= k < m < |acts| && PingsAt(depth, start, acts, k) && GraceEnd(acts, k) <= acts[m].at ==>
      exists p :: k < p < |acts| && IsPong(acts[p]) && acts[p].at < GraceEnd(acts, k)
  }

  lemma {:induction false} InTimeIsAnswered(depth: nat, start: Instant, acts: seq<Act>, k: nat, m: nat)
    requires Chronological(acts) && AnswersInTime(depth, start, acts)
    ensures !Unanswered(depth, start, acts, k, m)
  {
    hide Run, QuietAt, NextPingAfter;
    if k < m < |acts| && PingsAt(depth, start, acts, k) && GraceEnd(acts, k) <= acts[m].at {
      var p :| k < p < |acts| && IsPong(acts[p]) && acts[p].at < GraceEnd(acts, k);
      assert p < m;
      assert PongBetween(acts, k, m);
    }
  }

  /** A peer whose pongs arrive within the grace is never timed out, even if the loop gets to them late. */
  lemma {:induction false} AnsweringPeerNeverTimedOut(depth: nat, start: Instant, acts: seq<Act>)
    requires Chronological(acts) && AnswersInTime(depth, start, acts)
    ensures Run(depth, start, acts).conn.closed != Some(HealthcheckTimeout)
  {
    hide Run, Unanswered, AnswersInTime;
    if Run(depth, start, acts).conn.closed == Some(HealthcheckTimeout) {
      var k, m := TimeoutIsUnanswered(depth, start, acts);
      InTimeIsAnswered(depth, start, acts, k, m);
    }
  }

  /**
   A ping's grace ends before the next ping, so that a silent peer can be
   noticed at all, exactly if it went out less than 20 s
   after the latest instant at which the timer was due.
   */
  lemma {:induction false} GraceFitsIff(depth: nat, start: Instant, acts: seq<Act>, k: nat)
    requires PingsAt(depth, start, acts, k)
    ensures var due := Run(depth, start, acts[..k]).nextPing;
      && due <= acts[k].at
      && (GraceEnd(acts, k) < NextPingAfter(depth, start, acts, k) <==>
            (acts[k].at - due) % (30 * SECOND) + (acts[k].stamp - acts[k].at) < 20 * SECOND)
  {
    hide Step, NextPing;
    var l, a := Run(depth, start, acts[..k]), acts[k];
    assert acts[..k+1][..k] == acts[..k];
    PollEffects(l, a);
    hide Run;
    NextPingRemainder(l.nextPing, a.at);
  }

  lemma NextPingRemainder(due: Instant, now: Instant)
    requires due <= now
    ensures NextPing(due, now) == now - (now - due) % PING_PERIOD + PING_PERIOD
  {
  }
}
