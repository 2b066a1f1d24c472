/**
 src/routes/ws/session.rs: the send/receive loop of one WebSocket connection.

 One turn of the loop sends at most one queued event and then serves whichever
 select branch woke it. `AfterTurn` is the specification of a turn; the class
 at the end is the loop itself.
 */
module ConnectionLoop {
  import opened Prelude
  import opened Events
  import opened SubscriptionFilter
  import opened DropOldest
  import opened DropBurst

  const PING_PERIOD: int := 30 * SECOND
  const PONG_GRACE: int := 10 * SECOND

  datatype Closed = PeerClosed | PeerError | SendFailed | InvalidFrame | HealthcheckTimeout | DropBurst

  /** What became of an event taken from the queue. */
  datatype Fate = Sent | Unserializable | SendError

  datatype Outgoing = Outgoing(event: Event, fate: Fate)

  /** The select branch that wakes the loop; instants are the clock reads made there. */
  datatype Wake =
    | BusEvent(event: Event, clock: Overflow)
    | BusLagged(skipped: nat)
    | BusClosed
    | SocketEnd
    | SocketError
    | SubscriptionFrame(change: Change)
    | OtherText
    | PongFrame
    | PingFrame
    | CloseFrame
    | BinaryFrame
    | Tick(at: Instant, delivered: bool, stamp: Instant)
    | Deadline(now: Instant)

  datatype Turn = Turn(fate: Fate, wake: Wake)

  /** The connection's variables, with everything popped and every wake served so far. */
  datatype Conn = Conn(
    cap: nat,
    subs: set<Subscription>,
    queue: seq<Event>,
    pongDeadline: Option<Instant>,
    burst: Detector,
    closed: Option<Closed>,
    popped: seq<Outgoing>,
    wakes: seq<Wake>)

  function Open(depth: nat, now: Instant): Conn {
    Conn(Max(depth, 1), {}, [], None, Detector(now, 0), None, [], [])
  }

  /** Top of the loop: take the next queued event, if any, and try to send it. */
  function AfterSend(c: Conn, fate: Fate): Conn {
    if |c.queue| == 0 then c
    else c.(queue := c.queue[1..],
            popped := c.popped + [Outgoing(c.queue[0], fate)],
            closed := if fate.SendError? then Some(SendFailed) else c.closed)
  }

  /** `push`, then the burst detector if an old event had to go. */
  function Enqueue(c: Conn, e: Event, clock: Overflow): Conn {
    var pushed := c.(queue := AfterPush(c.cap, c.queue, e));
    if |c.queue| < c.cap then pushed
    else
      var burst := Note(c.burst, clock);
      pushed.(burst := burst, closed := if burst.Tripped() then Some(Closed.DropBurst) else c.closed)
  }

  predicate DeadlineDue(c: Conn, now: Instant) { c.pongDeadline.Some? && c.pongDeadline.value <= now }

  function AfterSelect(c: Conn, w: Wake): Conn {
    if w.Deadline? && !DeadlineDue(c, w.now) then c else
    var d := c.(wakes := c.wakes + [w]);
    match w
    case BusEvent(e, clock) => if MatchedBy(c.subs, e) then Enqueue(d, e, clock) else d
    case BusLagged(_) => d
    case BusClosed => d.(closed := Some(PeerClosed))
    case SocketEnd => d.(closed := Some(PeerClosed))
    case SocketError => d.(closed := Some(PeerError))
    case SubscriptionFrame(change) => d.(subs := Apply(c.subs, change))
    case OtherText => d
    case PongFrame => d.(pongDeadline := None)
    case PingFrame => d
    case CloseFrame => d.(closed := Some(PeerClosed))
    case BinaryFrame => d.(closed := Some(InvalidFrame))
    case Tick(_, delivered, stamp) =>
      if delivered then d.(pongDeadline := Some(stamp + PONG_GRACE)) else d.(closed := Some(PeerClosed))
    case Deadline(_) => d.(closed := Some(HealthcheckTimeout))
  }

  /** A failed serialization restarts the loop and a failed send leaves it, both without a select. */
  function AfterTurn(c: Conn, t: Turn): Conn {
    if c.closed.Some? then c
    else if |c.queue| > 0 && !t.fate.Sent? then AfterSend(c, t.fate)
    else AfterSelect(AfterSend(c, t.fate), t.wake)
  }

  predicate ReachesSelect(c: Conn, fate: Fate) { c.closed.None? && (|c.queue| == 0 || fate.Sent?) }

  function AfterTurns(c: Conn, turns: seq<Turn>): Conn {
    if |turns| == 0 then c else AfterTurn(AfterTurns(c, turns[..|turns|-1]), turns[|turns|-1])
  }

  // ----- what should have been delivered, read off the wakes alone -----

  function Changes(wakes: seq<Wake>): seq<Change> {
    if |wakes| == 0 then []
    else Changes(wakes[..|wakes|-1]) +
         (if wakes[|wakes|-1].SubscriptionFrame? then [wakes[|wakes|-1].change] else [])
  }

  function Received(wakes: seq<Wake>): seq<Event> {
    if |wakes| == 0 then []
    else Received(wakes[..|wakes|-1]) +
         (if wakes[|wakes|-1].BusEvent? then [wakes[|wakes|-1].event] else [])
  }

  /** The received events a subscription in force at their arrival asked for. */
  ghost function Accepted(wakes: seq<Wake>): seq<Event> {
    if |wakes| == 0 then []
    else
      var init, w := wakes[..|wakes|-1], wakes[|wakes|-1];
      Accepted(init) + (if w.BusEvent? && InForce(Changes(init), w.event) then [w.event] else [])
  }

  function EventsOf(popped: seq<Outgoing>): (es: seq<Event>)
    ensures |es| == |popped|
  {
    seq(|popped|, i requires 0 <= i < |popped| => popped[i].event)
  }

  /** The events that reached the socket. */
  function SentEvents(popped: seq<Outgoing>): seq<Event> {
    if |popped| == 0 then []
    else SentEvents(popped[..|popped|-1]) +
         (if popped[|popped|-1].fate.Sent? then [popped[|popped|-1].event] else [])
  }

  // ----- the loop invariant -----

  /** The k-th wake is the latest delivered ping, and no pong has been handled since. */
  ghost predicate AwaitingPong(wakes: seq<Wake>, k: int) {
    && 0 <= k < |wakes| && wakes[k].Tick? && wakes[k].delivered
    && forall j :: k < j < |wakes| ==> !wakes[j].PongFrame? && !(wakes[j].Tick? && wakes[j].delivered)
  }

  ghost predicate DeadlineExplained(c: Conn) {
    && (c.pongDeadline.Some? ==>
          exists k :: AwaitingPong(c.wakes, k) && c.pongDeadline.value == c.wakes[k].stamp + PONG_GRACE)
    && (c.pongDeadline.None? ==> forall k :: !AwaitingPong(c.wakes, k))
  }

  ghost predicate LoopInvariant(c: Conn) {
    && c.cap >= 1
    && |c.queue| <= 1
    && c.burst.drops == 0
    && c.closed != Some(Closed.DropBurst)
    && c.subs == ApplyAll(Changes(c.wakes))
    && EventsOf(c.popped) + c.queue == Accepted(c.wakes)
    && DeadlineExplained(c)
  }

  lemma OpenSatisfiesInvariant(depth: nat, now: Instant)
    ensures LoopInvariant(Open(depth, now))
  {
  }

  lemma {:induction false} SendKeepsInvariant(c: Conn, fate: Fate)
    requires LoopInvariant(c)
    ensures var d := AfterSend(c, fate); LoopInvariant(d) && |d.queue| == 0
  {
    var d := AfterSend(c, fate);
    if |c.queue| > 0 {
      assert EventsOf(d.popped) == EventsOf(c.popped) + [c.queue[0]];
      assert EventsOf(d.popped) + d.queue == EventsOf(c.popped) + c.queue;
    }
  }

  lemma {:induction false} AwaitingPongStep(wakes: seq<Wake>, w: Wake)
    ensures var all := wakes + [w];
      forall k :: AwaitingPong(all, k) <==>
        if w.Tick? && w.delivered then k == |wakes| else !w.PongFrame? && AwaitingPong(wakes, k)
  {
    var all := wakes + [w];
    assert all[|wakes|] == w;
    forall k | 0 <= k < |wakes| && AwaitingPong(wakes, k) && !w.PongFrame? && !(w.Tick? && w.delivered)
      ensures AwaitingPong(all, k)
    {
      assert all[k] == wakes[k];
      assert forall j :: k < j < |wakes| ==> all[j] == wakes[j];
    }
    forall k | 0 <= k < |wakes| && AwaitingPong(all, k)
      ensures AwaitingPong(wakes, k)
    {
      assert all[k] == wakes[k];
      assert forall j :: k < j < |wakes| ==> all[j] == wakes[j];
    }
  }

  /** How a served wake moves the pong deadline. */
  lemma SelectDeadline(c: Conn, w: Wake)
    requires !(w.Deadline? && !DeadlineDue(c, w.now))
    ensures AfterSelect(c, w).pongDeadline ==
      if w.PongFrame? then None
      else if w.Tick? && w.delivered then Some(w.stamp + PONG_GRACE)
      else c.pongDeadline
    ensures AfterSelect(c, w).wakes == c.wakes + [w]
  {
  }

  lemma {:induction false} SelectKeepsDeadline(c: Conn, w: Wake)
    requires DeadlineExplained(c)
    ensures DeadlineExplained(AfterSelect(c, w))
  {
    if !(w.Deadline? && !DeadlineDue(c, w.now)) {
      SelectDeadline(c, w);
      hide AfterSelect;
      var d := AfterSelect(c, w);
      AwaitingPongStep(c.wakes, w);
      hide AwaitingPong;
      if w.Tick? && w.delivered {
        assert AwaitingPong(d.wakes, |c.wakes|) && d.wakes[|c.wakes|] == w;
      } else if d.pongDeadline.Some? {
        var k :| AwaitingPong(c.wakes, k) && c.pongDeadline.value == c.wakes[k].stamp + PONG_GRACE;
        AwaitingIsIndex(c.wakes, k);
        assert AwaitingPong(d.wakes, k) && d.wakes[k] == c.wakes[k];
      }
    }
  }

  lemma AwaitingIsIndex(wakes: seq<Wake>, k: int)
    requires AwaitingPong(wakes, k)
    ensures 0 <= k < |wakes| && wakes[k].Tick?
  {
  }

  lemma SelectOnEmptyQueue(c: Conn, w: Wake)
    requires LoopInvariant(c) && |c.queue| == 0
    ensures var d := AfterSelect(c, w);
      && d.cap == c.cap && d.burst == c.burst && d.popped == c.popped
      && d.closed != Some(Closed.DropBurst)
      && d.queue == (if w.BusEvent? && MatchedBy(c.subs, w.event) then [w.event] else [])
      && d.subs == (if w.SubscriptionFrame? then Apply(c.subs, w.change) else c.subs)
      && d.wakes == (if w.Deadline? && !DeadlineDue(c, w.now) then c.wakes else c.wakes + [w])
  {
  }

  lemma {:induction false} WakeHistories(wakes: seq<Wake>, w: Wake)
    ensures Changes(wakes + [w]) == Changes(wakes) + (if w.SubscriptionFrame? then [w.change] else [])
    ensures Accepted(wakes + [w]) ==
            Accepted(wakes) + (if w.BusEvent? && InForce(Changes(wakes), w.event) then [w.event] else [])
  {
    assert (wakes + [w])[..|wakes|] == wakes;
  }

  lemma {:induction false} SelectKeepsInvariant(c: Conn, w: Wake)
    requires LoopInvariant(c) && |c.queue| == 0
    ensures LoopInvariant(AfterSelect(c, w))
  {
    hide InForce, MatchedBy, AfterSelect, DeadlineExplained, Changes, Accepted, Apply;
    var d := AfterSelect(c, w);
    SelectKeepsDeadline(c, w);
    SelectOnEmptyQueue(c, w);
    WakeHistories(c.wakes, w);
    assert EventsOf(c.popped) + [] == Accepted(c.wakes);
    if w.SubscriptionFrame? {
      assert (Changes(c.wakes) + [w.change])[..|Changes(c.wakes)|] == Changes(c.wakes);
    } else {
      assert Changes(d.wakes) == Changes(c.wakes);
    }
    if w.BusEvent? {
      SubscriptionHistory(Changes(c.wakes), w.event);
    }
  }

  lemma {:induction false} TurnKeepsInvariant(c: Conn, t: Turn)
    requires LoopInvariant(c)
    ensures LoopInvariant(AfterTurn(c, t))
  {
    if c.closed.None? {
      SendKeepsInvariant(c, t.fate);
      if !(|c.queue| > 0 && !t.fate.Sent?) {
        SelectKeepsInvariant(AfterSend(c, t.fate), t.wake);
      }
    }
  }

  lemma {:induction false} InvariantHolds(depth: nat, now: Instant, turns: seq<Turn>)
    ensures LoopInvariant(AfterTurns(Open(depth, now), turns))
  {
    if |turns| == 0 {
      OpenSatisfiesInvariant(depth, now);
    } else {
      InvariantHolds(depth, now, turns[..|turns|-1]);
      TurnKeepsInvariant(AfterTurns(Open(depth, now), turns[..|turns|-1]), turns[|turns|-1]);
    }
  }

  // ----- what a subscriber can rely on -----

  /**
   Whatever happens on the bus, the socket and the timers, the events taken
   from the queue plus the one still queued are exactly the received events
   that the subscriptions in force at their arrival asked for, in order.
   */
  lemma {:induction false} DeliveryIsExact(depth: nat, now: Instant, turns: seq<Turn>)
    ensures var c := AfterTurns(Open(depth, now), turns);
      EventsOf(c.popped) + c.queue == Accepted(c.wakes)
  {
    InvariantHolds(depth, now, turns);
  }

  /** What was sent is all of that, unless an event failed to serialize or to send. */
  lemma {:induction false} SentUnlessFailed(depth: nat, now: Instant, turns: seq<Turn>)
    requires var c := AfterTurns(Open(depth, now), turns);
      forall i :: 0 <= i < |c.popped| ==> c.popped[i].fate.Sent?
    ensures var c := AfterTurns(Open(depth, now), turns);
      SentEvents(c.popped) + c.queue == Accepted(c.wakes)
  {
    DeliveryIsExact(depth, now, turns);
    SentAmongPopped(AfterTurns(Open(depth, now), turns).popped);
  }

  lemma {:induction false} SentAmongPopped(popped: seq<Outgoing>)
    ensures IsSubsequence(SentEvents(popped), EventsOf(popped))
    ensures (forall i :: 0 <= i < |popped| ==> popped[i].fate.Sent?) ==> SentEvents(popped) == EventsOf(popped)
  {
    if |popped| > 0 {
      var init, last := popped[..|popped|-1], popped[|popped|-1];
      SentAmongPopped(init);
      assert EventsOf(popped) == EventsOf(init) + [last.event];
      SubsequenceExtend(SentEvents(init), EventsOf(init), last.event);
      assert SentEvents(init) + [] == SentEvents(init);
    }
  }

  /**
   The loop drains before it selects, so a queue of any configured depth is
   empty at every select, no push ever overflows, the burst detector never
   counts anything and the DropBurst exit is dead.
   */
  lemma {:induction false} QueueNeverOverflows(depth: nat, now: Instant, turns: seq<Turn>, fate: Fate)
    ensures var c := AfterTurns(Open(depth, now), turns);
      && |c.queue| <= 1
      && |AfterSend(c, fate).queue| == 0 < c.cap
      && c.burst == Detector(now, 0)
      && c.closed != Some(Closed.DropBurst)
  {
    InvariantHolds(depth, now, turns);
    SendKeepsInvariant(AfterTurns(Open(depth, now), turns), fate);
    BurstUntouched(depth, now, turns);
  }

  lemma {:induction false} BurstUntouched(depth: nat, now: Instant, turns: seq<Turn>)
    ensures AfterTurns(Open(depth, now), turns).burst == Detector(now, 0)
  {
    hide LoopInvariant, AfterTurn;
    if |turns| > 0 {
      var init := turns[..|turns|-1];
      BurstUntouched(depth, now, init);
      InvariantHolds(depth, now, init);
      TurnKeepsBurst(AfterTurns(Open(depth, now), init), turns[|turns|-1]);
    }
  }

  lemma TurnKeepsBurst(c: Conn, t: Turn)
    requires LoopInvariant(c)
    ensures AfterTurn(c, t).burst == c.burst
  {
  }

  // ----- how the loop ends -----

  /** The wakes that leave the loop. */
  predicate Ending(w: Wake) {
    || w.BusClosed? || w.SocketEnd? || w.SocketError? || w.CloseFrame? || w.BinaryFrame?
    || (w.Tick? && !w.delivered) || w.Deadline?
  }

  function ReasonOf(w: Wake): Closed
    requires Ending(w)
  {
    if w.SocketError? then PeerError
    else if w.BinaryFrame? then InvalidFrame
    else if w.Deadline? then HealthcheckTimeout
    else PeerClosed
  }

  ghost predicate NoneEnding(wakes: seq<Wake>) { forall i :: 0 <= i < |wakes| ==> !Ending(wakes[i]) }

  ghost predicate NoneFailed(popped: seq<Outgoing>) { forall i :: 0 <= i < |popped| ==> !popped[i].fate.SendError? }

  /** An open connection has seen neither an ending wake nor a failed send; a closed one just saw its first. */
  ghost predicate EndsRight(c: Conn) {
    match c.closed
    case None => NoneEnding(c.wakes) && NoneFailed(c.popped)
    case Some(reason) =>
      var m, n := |c.wakes|, |c.popped|;
      || (m > 0 && Ending(c.wakes[m-1]) && reason == ReasonOf(c.wakes[m-1])
          && NoneEnding(c.wakes[..m-1]) && NoneFailed(c.popped))
      || (n > 0 && c.popped[n-1].fate.SendError? && reason == SendFailed
          && NoneFailed(c.popped[..n-1]) && NoneEnding(c.wakes))
  }

  lemma {:induction false} SendEndsRight(c: Conn, fate: Fate)
    requires c.closed.None? && EndsRight(c)
    ensures EndsRight(AfterSend(c, fate))
    ensures AfterSend(c, fate).closed.Some? <==> |c.queue| > 0 && fate.SendError?
  {
    if |c.queue| > 0 {
      var all := c.popped + [Outgoing(c.queue[0], fate)];
      assert all[..|c.popped|] == c.popped;
    }
  }

  lemma {:induction false} SelectEndsRight(c: Conn, w: Wake)
    requires c.closed.None? && EndsRight(c) && |c.queue| == 0 < c.cap
    ensures EndsRight(AfterSelect(c, w))
  {
    hide MatchedBy, Apply, Note, AfterPush;
    if !(w.Deadline? && !DeadlineDue(c, w.now)) {
      assert (c.wakes + [w])[..|c.wakes|] == c.wakes;
      assert AfterSelect(c, w).wakes == c.wakes + [w];
    }
  }

  lemma {:induction false} TurnEndsRight(c: Conn, t: Turn)
    requires LoopInvariant(c) && EndsRight(c)
    ensures EndsRight(AfterTurn(c, t))
  {
    hide EndsRight, AfterSelect;
    if c.closed.None? {
      SendKeepsInvariant(c, t.fate);
      SendEndsRight(c, t.fate);
      if !(|c.queue| > 0 && !t.fate.Sent?) {
        SelectEndsRight(AfterSend(c, t.fate), t.wake);
      }
    }
  }

  lemma {:induction false} TurnsEndRight(c: Conn, turns: seq<Turn>)
    requires LoopInvariant(c) && EndsRight(c)
    ensures LoopInvariant(AfterTurns(c, turns)) && EndsRight(AfterTurns(c, turns))
  {
    hide LoopInvariant, EndsRight, AfterTurn;
    if |turns| > 0 {
      var init := turns[..|turns|-1];
      TurnsEndRight(c, init);
      TurnKeepsInvariant(AfterTurns(c, init), turns[|turns|-1]);
      TurnEndsRight(AfterTurns(c, init), turns[|turns|-1]);
    }
  }

  /**
   A connection is open exactly as long as the bus and the peer are there, the
   peer sends neither a close nor a binary frame, every ping goes out, no
   deadline passes and no send fails. The first of these closes it, with its own
   reason, and nothing is served after it.
   */
  lemma {:induction false} ClosedIffEnded(depth: nat, now: Instant, turns: seq<Turn>)
    ensures var c := AfterTurns(Open(depth, now), turns);
      && (c.closed.None? <==> NoneEnding(c.wakes) && NoneFailed(c.popped))
      && EndsRight(c)
  {
    hide LoopInvariant, AfterTurns;
    OpenSatisfiesInvariant(depth, now);
    TurnsEndRight(Open(depth, now), turns);
  }

  /** Turn by turn, what is popped carries the turn's fate, and what is served is the turn's wake. */
  lemma {:induction false} HistoriesAreTheTurns(depth: nat, now: Instant, turns: seq<Turn>, k: nat)
    requires k < |turns| && AfterTurns(Open(depth, now), turns[..k]).closed.None?
    ensures var c, d, t := AfterTurns(Open(depth, now), turns[..k]), AfterTurns(Open(depth, now), turns[..k+1]), turns[k];
      && d.popped == c.popped + (if |c.queue| > 0 then [Outgoing(c.queue[0], t.fate)] else [])
      && d.wakes == c.wakes +
           (if (|c.queue| > 0 && !t.fate.Sent?) || (t.wake.Deadline? && !DeadlineDue(c, t.wake.now)) then [] else [t.wake])
  {
    hide MatchedBy, Apply, Note, AfterPush;
    assert turns[..k+1][..k] == turns[..k];
    var c := AfterTurns(Open(depth, now), turns[..k]);
    assert c.popped + [] == c.popped && c.wakes + [] == c.wakes;
  }

  // ----- heartbeat -----

  /**
   The deadline branch closes the connection exactly when the latest delivered
   ping is at least PONG_GRACE old and no pong was handled since that ping.
   */
  lemma TimeoutIffUnansweredPing(c: Conn, now: Instant)
    requires DeadlineExplained(c) && c.closed.None?
    ensures AfterSelect(c, Deadline(now)).closed == Some(HealthcheckTimeout) <==>
            exists k :: AwaitingPong(c.wakes, k) && c.wakes[k].stamp + PONG_GRACE <= now
  {
  }

  /** The run ended on the deadline branch, with the latest ping unanswered for at least PONG_GRACE. */
  ghost predicate TimeoutJustified(c: Conn) {
    && |c.wakes| > 0 && c.wakes[|c.wakes|-1].Deadline?
    && exists k :: AwaitingPong(c.wakes, k) && c.wakes[k].stamp + PONG_GRACE <= c.wakes[|c.wakes|-1].now
  }

  /** The same over whole runs: nothing else ever ends in a healthcheck timeout. */
  lemma {:induction false} TimeoutsAreJustified(depth: nat, now: Instant, turns: seq<Turn>)
    ensures var c := AfterTurns(Open(depth, now), turns);
      c.closed == Some(HealthcheckTimeout) ==> TimeoutJustified(c)
  {
    if |turns| > 0 {
      var init, t := turns[..|turns|-1], turns[|turns|-1];
      TimeoutsAreJustified(depth, now, init);
      var c := AfterTurns(Open(depth, now), init);
      InvariantHolds(depth, now, init);
      SendKeepsInvariant(c, t.fate);
      if c.closed.None? && AfterTurn(c, t).closed == Some(HealthcheckTimeout) {
        SelectTimeoutJustified(AfterSend(c, t.fate), t.wake);
      }
    }
  }

  lemma {:induction false} SelectTimeoutJustified(c: Conn, w: Wake)
    requires DeadlineExplained(c) && c.closed.None?
    requires |c.queue| == 0 < c.cap
    requires AfterSelect(c, w).closed == Some(HealthcheckTimeout)
    ensures TimeoutJustified(AfterSelect(c, w))
  {
    TimeoutIffUnansweredPing(c, w.now);
    var k :| AwaitingPong(c.wakes, k) && c.wakes[k].stamp + PONG_GRACE <= w.now;
    AwaitingPongStep(c.wakes, w);
    assert (c.wakes + [w])[k] == c.wakes[k];
  }

  lemma TurnExtendsWakes(c: Conn, t: Turn)
    ensures AfterTurn(c, t).wakes == c.wakes || AfterTurn(c, t).wakes == c.wakes + [t.wake]
  {
  }

  // ----- the loop -----

  class Connection {
    const subs: SubscriptionSet
    const q: DropOldestQueue<Event>
    var pongDeadline: Option<Instant>
    var dropWindowStart: Instant
    var dropsInWindow: nat
    ghost var closed: Option<Closed>
    ghost var popped: seq<Outgoing>
    ghost var wakes: seq<Wake>

    ghost predicate Valid()
      reads this, q
    {
      q.Valid()
    }

    ghost function View(): Conn
      reads this, q, subs
    {
      Conn(q.cap, subs.subs, q.inner, pongDeadline, Detector(dropWindowStart, dropsInWindow), closed, popped, wakes)
    }

    constructor (depth: nat, now: Instant)
      ensures Valid() && fresh(q) && fresh(subs)
      ensures View() == Open(depth, now)
    {
      subs := new SubscriptionSet();
      q := new DropOldestQueue<Event>(depth);
      pongDeadline := None;
      dropWindowStart := now;
      dropsInWindow := 0;
      closed, popped, wakes := None, [], [];
    }

    /** Incoming broadcast event: filter, enqueue, and watch for a burst of drops. */
    method OnEvent(event: Event, clock: Overflow) returns (reason: Option<Closed>)
      requires Valid() && closed.None?
      modifies this, q
      ensures Valid()
      ensures View() == AfterSelect(old(View()), BusEvent(event, clock))
      ensures reason == closed
    {
      reason := None;
      wakes := wakes + [BusEvent(event, clock)];
      var wanted := subs.Matches(event);
      if !wanted {
        return;
      }
      var overflowed := q.Push(event);
      if overflowed {
        dropsInWindow := dropsInWindow + 1;
        if clock.check - dropWindowStart > BURST_WINDOW {
          dropWindowStart := clock.stamp;
          dropsInWindow := 1;
        }
        if dropsInWindow > BURST_LIMIT {
          reason := Some(Closed.DropBurst);
          closed := reason;
        }
      }
    }

    /** The select: serve the branch that woke the loop. */
    method Select(w: Wake) returns (reason: Option<Closed>)
      requires Valid() && closed.None?
      modifies this, q, subs
      ensures Valid()
      ensures View() == AfterSelect(old(View()), w)
      ensures reason == closed
    {
      reason := None;
      if w.BusEvent? {
        reason := OnEvent(w.event, w.clock);
        return;
      }
      if w.Deadline? && (pongDeadline.None? || pongDeadline.value > w.now) {
        return;
      }
      wakes := wakes + [w];
      match w {
        case BusLagged(_) =>
        case BusClosed => reason := Some(PeerClosed);
        case SocketEnd => reason := Some(PeerClosed);
        case SocketError => reason := Some(PeerError);
        case SubscriptionFrame(change) =>
          match change {
            case Subscribe(names, filter) => subs.Subscribe(names, filter);
            case Unsubscribe(names) => subs.Unsubscribe(names);
          }
        case OtherText =>
        case PongFrame => pongDeadline := None;
        case PingFrame =>
        case CloseFrame => reason := Some(PeerClosed);
        case BinaryFrame => reason := Some(InvalidFrame);
        case Tick(_, delivered, stamp) =>
          if delivered {
            pongDeadline := Some(stamp + PONG_GRACE);
          } else {
            reason := Some(PeerClosed);
          }
        case Deadline(_) => reason := Some(HealthcheckTimeout);
      }
      closed := reason;
    }

    /** Runs the loop over the turns the environment supplies, until one of them closes it. */
    method RunInner(turns: seq<Turn>) returns (reason: Option<Closed>)
      requires Valid() && closed.None? && LoopInvariant(View())
      modifies this, q, subs
      ensures Valid() && LoopInvariant(View())
      ensures View() == AfterTurns(old(View()), turns)
      ensures EndsRight(old(View())) ==> EndsRight(View())
      ensures reason == closed
    {
      reason := None;
      ghost var start := View();
      var i := 0;
      while i < |turns| && reason.None?
        invariant 0 <= i <= |turns|
        invariant Valid() && LoopInvariant(View())
        invariant reason == closed
        invariant View() == AfterTurns(start, turns[..i])
      {
        ghost var before := View();
        TurnKeepsInvariant(before, turns[i]);
        SendKeepsInvariant(before, turns[i].fate);
        assert turns[..i+1][..i] == turns[..i];
        var t := turns[i];
        i := i + 1;
        var next := q.Pop();
        if next.Some? {
          popped := popped + [Outgoing(next.value, t.fate)];
          if t.fate.Unserializable? {
            continue;
          }
          if t.fate.SendError? {
            reason := Some(SendFailed);
            closed := reason;
            break;
          }
        }
        assert View() == AfterSend(before, t.fate);
        reason := Select(t.wake);
      }
      ClosedStaysClosed(start, turns, i);
      if EndsRight(start) {
        TurnsEndRight(start, turns);
      }
    }
  }

  lemma {:induction false} ClosedStaysClosed(c: Conn, turns: seq<Turn>, i: nat)
    requires i <= |turns|
    requires i == |turns| || AfterTurns(c, turns[..i]).closed.Some?
    ensures AfterTurns(c, turns) == AfterTurns(c, turns[..i])
    decreases |turns|
  {
    if i == |turns| {
      assert turns[..i] == turns;
    } else {
      var init := turns[..|turns|-1];
      assert init[..i] == turns[..i];
      ClosedStaysClosed(c, init, i);
    }
  }
}
