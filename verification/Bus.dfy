/**
 The broadcast bus with any number of connections, as a step system.

 Assumed of the bounded broadcast channel: a send always succeeds and appends;
 each receiver has its own position; a receiver whose position has been
 overwritten is told how many events it missed and continues at the oldest one
 still in the ring.
 */
module EventBus {
  import opened Prelude
  import opened Events
  import opened DropBurst
  import opened ConnectionLoop
  import SubscriptionFilter

  datatype Receiver = Receiver(start: nat, next: nat, conn: Conn)

  /** `published` is everything ever sent; the ring holds its last BUS_CAPACITY events. */
  datatype Bus = Bus(published: seq<Event>, receivers: map<nat, Receiver>)

  datatype Action =
    | Publish(event: Event)
    | Connect(id: nat, depth: nat, now: Instant)
    | Poll(id: nat, fate: Fate, clock: Overflow)
    | Serve(id: nat, fate: Fate, wake: Wake)

  function Oldest(published: seq<Event>): nat { Max(|published| - BUS_CAPACITY, 0) }

  /** Events gone from the ring before this position was read. */
  function Overwritten(published: seq<Event>, next: nat): nat { Max(Oldest(published) - next, 0) }

  /** Events this position can still read from the ring. */
  function InRing(published: seq<Event>, next: nat): nat
    requires next <= |published|
  {
    |published| - Max(next, Oldest(published))
  }

  /** What a receive at position `next` yields, and the position after it; nothing if all is read. */
  function Receive(published: seq<Event>, next: nat, clock: Overflow): Option<(Wake, nat)> {
    if next < Oldest(published) then Some((BusLagged(Oldest(published) - next), Oldest(published)))
    else if next < |published| then Some((BusEvent(published[next], clock), next + 1))
    else None
  }

  /** One turn of a connection whose select finds the bus branch ready. */
  function PollTurn(published: seq<Event>, r: Receiver, fate: Fate, clock: Overflow): Receiver {
    if r.conn.closed.Some? then r
    else if !ReachesSelect(r.conn, fate) then r.(conn := AfterSend(r.conn, fate))
    else match Receive(published, r.next, clock)
      case None => r
      case Some((w, next)) => r.(next := next, conn := AfterTurn(r.conn, Turn(fate, w)))
  }

  function Step(s: Bus, a: Action): Bus {
    match a
    case Publish(e) => s.(published := s.published + [e])
    case Connect(id, depth, now) =>
      if id in s.receivers then s
      else s.(receivers := s.receivers[id := Receiver(|s.published|, |s.published|, Open(depth, now))])
    case Poll(id, fate, clock) =>
      if id !in s.receivers then s
      else s.(receivers := s.receivers[id := PollTurn(s.published, s.receivers[id], fate, clock)])
    case Serve(id, fate, wake) =>
      if id !in s.receivers || wake.BusEvent? || wake.BusLagged? then s
      else
        var r := s.receivers[id];
        s.(receivers := s.receivers[id := r.(conn := AfterTurn(r.conn, Turn(fate, wake)))])
  }

  function Run(actions: seq<Action>): Bus {
    if |actions| == 0 then Bus([], map[])
    else Step(Run(actions[..|actions|-1]), actions[|actions|-1])
  }

  // ----- where each published event went -----

  function LagTotal(wakes: seq<Wake>): nat {
    if |wakes| == 0 then 0
    else LagTotal(wakes[..|wakes|-1]) + (if wakes[|wakes|-1].BusLagged? then wakes[|wakes|-1].skipped else 0)
  }

  /** Events that arrived when no subscription in force asked for them. */
  ghost function Rejected(wakes: seq<Wake>): nat {
    if |wakes| == 0 then 0
    else
      var init, w := wakes[..|wakes|-1], wakes[|wakes|-1];
      Rejected(init) + (if w.BusEvent? && !SubscriptionFilter.InForce(Changes(init), w.event) then 1 else 0)
  }

  /** Events taken from the queue that failed to serialize or to send. */
  function Undeliverable(popped: seq<Outgoing>): nat {
    if |popped| == 0 then 0
    else Undeliverable(popped[..|popped|-1]) + (if popped[|popped|-1].fate.Sent? then 0 else 1)
  }

  ghost predicate Accounted(published: seq<Event>, r: Receiver) {
    && r.start <= r.next <= |published|
    && LoopInvariant(r.conn)
    && r.next - r.start == |Received(r.conn.wakes)| + LagTotal(r.conn.wakes)
    && IsSubsequence(Received(r.conn.wakes), published[r.start..r.next])
  }

  ghost predicate BusInvariant(s: Bus) {
    forall id :: id in s.receivers ==> Accounted(s.published, s.receivers[id])
  }

  lemma WakeAppended(wakes: seq<Wake>, w: Wake)
    ensures Received(wakes + [w]) == Received(wakes) + (if w.BusEvent? then [w.event] else [])
    ensures LagTotal(wakes + [w]) == LagTotal(wakes) + (if w.BusLagged? then w.skipped else 0)
  {
  }

  lemma TurnWakes(c: Conn, t: Turn)
    requires ReachesSelect(c, t.fate) && !t.wake.Deadline?
    ensures AfterTurn(c, t).wakes == c.wakes + [t.wake]
  {
  }

  lemma {:induction false} PublishKeepsAccounted(published: seq<Event>, r: Receiver, e: Event)
    requires Accounted(published, r)
    ensures Accounted(published + [e], r)
  {
    assert (published + [e])[r.start..r.next] == published[r.start..r.next];
  }

  /** A receive counts what it passes, as received or as lagged, and the loss so far stays the same. */
  lemma {:induction false} ReceiveCounts(published: seq<Event>, start: nat, next: nat, clock: Overflow, wakes: seq<Wake>)
    requires start <= next <= |published| && Receive(published, next, clock).Some?
    requires next - start == |Received(wakes)| + LagTotal(wakes)
    ensures var (w, next') := Receive(published, next, clock).value;
      && next <= next' <= |published| && !w.Deadline?
      && next' - start == |Received(wakes + [w])| + LagTotal(wakes + [w])
      && LagTotal(wakes + [w]) + Overwritten(published, next') == LagTotal(wakes) + Overwritten(published, next)
  {
    WakeAppended(wakes, Receive(published, next, clock).value.0);
    hide Received, LagTotal;
  }

  /** It takes the next event or skips a gap, so the received events keep the publish order. */
  lemma {:induction false} ReceiveKeepsOrder(published: seq<Event>, start: nat, next: nat, clock: Overflow, wakes: seq<Wake>)
    requires start <= next <= |published| && Receive(published, next, clock).Some?
    requires IsSubsequence(Received(wakes), published[start..next])
    ensures var (w, next') := Receive(published, next, clock).value;
      next <= next' <= |published| && IsSubsequence(Received(wakes + [w]), published[start..next'])
  {
    hide IsSubsequence, LagTotal;
    var (w, next') := Receive(published, next, clock).value;
    WakeAppended(wakes, w);
    hide Received;
    var taken, seen, read := Received(wakes), published[start..next], published[next..next'];
    assert published[start..next'] == seen + read;
    if w.BusEvent? {
      SubsequenceExtend(taken, seen, w.event);
      assert read == [w.event];
    } else {
      SubsequenceExtendMany(taken, seen, read);
      assert taken + [] == taken;
    }
  }

  lemma {:induction false} PollKeepsAccounted(published: seq<Event>, r: Receiver, fate: Fate, clock: Overflow)
    requires Accounted(published, r)
    ensures var r' := PollTurn(published, r, fate, clock);
      && Accounted(published, r')
      && LagTotal(r'.conn.wakes) + Overwritten(published, r'.next) ==
         LagTotal(r.conn.wakes) + Overwritten(published, r.next)
  {
    hide LoopInvariant, AfterTurn, IsSubsequence, Receive, Overwritten;
    SendKeepsInvariant(r.conn, fate);
    if ReachesSelect(r.conn, fate) && Receive(published, r.next, clock).Some? {
      var (w, _) := Receive(published, r.next, clock).value;
      ReceiveCounts(published, r.start, r.next, clock, r.conn.wakes);
      ReceiveKeepsOrder(published, r.start, r.next, clock, r.conn.wakes);
      TurnKeepsInvariant(r.conn, Turn(fate, w));
      TurnWakes(r.conn, Turn(fate, w));
    }
  }

  lemma {:induction false} ServeKeepsAccounted(published: seq<Event>, r: Receiver, t: Turn)
    requires Accounted(published, r) && !t.wake.BusEvent? && !t.wake.BusLagged?
    ensures Accounted(published, r.(conn := AfterTurn(r.conn, t)))
  {
    TurnKeepsInvariant(r.conn, t);
    TurnExtendsWakes(r.conn, t);
    WakeAppended(r.conn.wakes, t.wake);
    assert Received(r.conn.wakes) + [] == Received(r.conn.wakes);
  }

  lemma {:induction false} JoinsAccounted(published: seq<Event>, depth: nat, now: Instant)
    ensures Accounted(published, Receiver(|published|, |published|, Open(depth, now)))
  {
    OpenSatisfiesInvariant(depth, now);
  }

  lemma {:induction false} StepKeepsInvariant(s: Bus, a: Action)
    requires BusInvariant(s)
    ensures BusInvariant(Step(s, a))
  {
    hide Accounted, PollTurn, AfterTurn, Open;
    match a
    case Publish(e) =>
      forall id | id in s.receivers ensures Accounted(s.published + [e], s.receivers[id]) {
        PublishKeepsAccounted(s.published, s.receivers[id], e);
      }
    case Connect(id, depth, now) =>
      JoinsAccounted(s.published, depth, now);
    case Poll(id, fate, clock) =>
      if id in s.receivers {
        PollKeepsAccounted(s.published, s.receivers[id], fate, clock);
      }
    case Serve(id, fate, wake) =>
      if id in s.receivers && !wake.BusEvent? && !wake.BusLagged? {
        ServeKeepsAccounted(s.published, s.receivers[id], Turn(fate, wake));
      }
  }

  lemma {:induction false} RunKeepsInvariant(actions: seq<Action>)
    ensures BusInvariant(Run(actions))
  {
    if |actions| > 0 {
      RunKeepsInvariant(actions[..|actions|-1]);
      StepKeepsInvariant(Run(actions[..|actions|-1]), actions[|actions|-1]);
    }
  }

  lemma {:induction false} PoppedSplit(popped: seq<Outgoing>)
    ensures |popped| == |SentEvents(popped)| + Undeliverable(popped)
  {
    if |popped| > 0 { PoppedSplit(popped[..|popped|-1]); }
  }

  lemma {:induction false} ReceivedSplit(wakes: seq<Wake>)
    ensures |Received(wakes)| == |Accepted(wakes)| + Rejected(wakes)
    ensures IsSubsequence(Accepted(wakes), Received(wakes))
  {
    hide SubscriptionFilter.InForce;
    if |wakes| > 0 {
      var init, w := wakes[..|wakes|-1], wakes[|wakes|-1];
      ReceivedSplit(init);
      if w.BusEvent? {
        SubsequenceExtend(Accepted(init), Received(init), w.event);
      }
      assert Accepted(init) + [] == Accepted(init) && Received(init) + [] == Received(init);
    }
  }

  /**
   In every reachable state, for every subscriber, each event published since
   it subscribed is in exactly one place: sent, undeliverable, queued, rejected
   by the filter, reported as lagged, overwritten and about to be reported, or
   still in the ring.
   */
  lemma {:induction false} NothingUnaccounted(actions: seq<Action>, id: nat)
    requires id in Run(actions).receivers
    ensures var s := Run(actions); var r := s.receivers[id];
      && r.next <= |s.published|
      && |s.published| - r.start ==
           |SentEvents(r.conn.popped)| + Undeliverable(r.conn.popped) + |r.conn.queue|
           + Rejected(r.conn.wakes) + LagTotal(r.conn.wakes)
           + Overwritten(s.published, r.next) + InRing(s.published, r.next)
      && InRing(s.published, r.next) <= BUS_CAPACITY
  {
    RunKeepsInvariant(actions);
    var s := Run(actions);
    var r := s.receivers[id];
    assert Accounted(s.published, r);
    PoppedSplit(r.conn.popped);
    ReceivedSplit(r.conn.wakes);
    assert |EventsOf(r.conn.popped) + r.conn.queue| == |Accepted(r.conn.wakes)|;
  }

  /** From what was sent back to what was published, one filter at a time. */
  lemma {:induction false} SubsequenceChain(
    sent: seq<Event>, popped: seq<Event>, queue: seq<Event>, accepted: seq<Event>, received: seq<Event>, seen: seq<Event>, unread: seq<Event>)
    requires IsSubsequence(sent, popped) && popped + queue == accepted
    requires IsSubsequence(accepted, received) && IsSubsequence(received, seen)
    ensures IsSubsequence(sent, seen + unread)
  {
    hide IsSubsequence;
    SubsequenceExtendMany(sent, popped, queue);
    SubsequenceTransitive(sent, accepted, received);
    SubsequenceTransitive(sent, received, seen);
    SubsequenceExtendMany(sent, seen, unread);
  }

  lemma {:induction false} SentAmongPublished(published: seq<Event>, r: Receiver)
    requires Accounted(published, r)
    ensures IsSubsequence(SentEvents(r.conn.popped), published[r.start..])
  {
    hide IsSubsequence, DeadlineExplained;
    SentAmongPopped(r.conn.popped);
    ReceivedSplit(r.conn.wakes);
    var seen, unread := published[r.start..r.next], published[r.next..];
    assert published[r.start..] == seen + unread;
    SubsequenceChain(SentEvents(r.conn.popped), EventsOf(r.conn.popped), r.conn.queue,
                     Accepted(r.conn.wakes), Received(r.conn.wakes), seen, unread);
  }

  /** What a subscriber is sent follows the publish order without repeats. */
  lemma {:induction false} SentFollowsPublishOrder(actions: seq<Action>, id: nat) returns (at: seq<nat>)
    requires id in Run(actions).receivers
    ensures var s := Run(actions); var r := s.receivers[id];
      && r.start <= |s.published|
      && Embeds(SentEvents(r.conn.popped), s.published[r.start..], at)
  {
    hide IsSubsequence, Run, SentEvents;
    RunKeepsInvariant(actions);
    var s := Run(actions);
    var r := s.receivers[id];
    assert Accounted(s.published, r);
    SentAmongPublished(s.published, r);
    at := SubsequencePositions(SentEvents(r.conn.popped), s.published[r.start..]);
  }

  /** The k-th action connects the subscriber. */
  ghost predicate ConnectsAt(actions: seq<Action>, k: int, id: nat) {
    && 0 <= k < |actions| && actions[k].Connect? && actions[k].id == id
    && id !in Run(actions[..k]).receivers
  }

  /** A subscriber's account starts with what is published after it connected, in its own queue depth. */
  lemma {:induction false} StartsWhereConnected(actions: seq<Action>, id: nat) returns (k: nat)
    requires id in Run(actions).receivers
    ensures ConnectsAt(actions, k, id) && Run(actions).receivers[id].start == |Run(actions[..k]).published|
    ensures Run(actions).receivers[id].conn.cap == Max(actions[k].depth, 1)
  {
    hide AfterTurn, PollTurn, Open;
    var n := |actions| - 1;
    var init := actions[..n];
    if id in Run(init).receivers {
      k := StartsWhereConnected(init, id);
      assert init[..k] == actions[..k];
      StepKeepsStart(Run(init), actions[n], id);
    } else {
      k := n;
      OpenCap(actions[n].depth, actions[n].now);
    }
  }

  lemma OpenCap(depth: nat, now: Instant)
    ensures Open(depth, now).cap == Max(depth, 1)
  {
  }

  lemma TurnKeepsCap(c: Conn, t: Turn)
    ensures AfterTurn(c, t).cap == c.cap && AfterSend(c, t.fate).cap == c.cap
  {
    hide SubscriptionFilter.MatchedBy, SubscriptionFilter.Apply, Note;
  }

  lemma {:induction false} StepKeepsStart(s: Bus, a: Action, id: nat)
    requires id in s.receivers
    ensures var t := Step(s, a);
      id in t.receivers && t.receivers[id].start == s.receivers[id].start && t.receivers[id].conn.cap == s.receivers[id].conn.cap
  {
    hide AfterTurn, AfterSend, Open, Receive;
    var r := s.receivers[id];
    match a {
      case Poll(_, fate, clock) =>
        var got := Receive(s.published, r.next, clock);
        TurnKeepsCap(r.conn, Turn(fate, if got.Some? then got.value.0 else BusClosed));
      case Serve(_, fate, wake) => TurnKeepsCap(r.conn, Turn(fate, wake));
      case Publish(_) =>
      case Connect(_, _, _) =>
    }
  }

  // ----- independence -----

  predicate Concerns(a: Action, id: nat) { a.Publish? || a.id == id }

  /** The publishes and the steps of connection `id`. */
  function OnlyFor(actions: seq<Action>, id: nat): seq<Action> {
    if |actions| == 0 then []
    else OnlyFor(actions[..|actions|-1], id) +
         (if Concerns(actions[|actions|-1], id) then [actions[|actions|-1]] else [])
  }

  ghost predicate SameFor(s: Bus, t: Bus, id: nat) {
    && s.published == t.published
    && (id in s.receivers <==> id in t.receivers)
    && (id in s.receivers ==> s.receivers[id] == t.receivers[id])
  }

  lemma StepSameFor(s: Bus, t: Bus, a: Action, id: nat)
    requires SameFor(s, t, id)
    ensures Concerns(a, id) ==> SameFor(Step(s, a), Step(t, a), id)
    ensures !Concerns(a, id) ==> SameFor(Step(s, a), t, id)
  {
  }

  /** A subscriber cannot tell which other subscribers exist or how slow they are. */
  lemma {:induction false} SubscribersDoNotInterfere(actions: seq<Action>, id: nat)
    ensures SameFor(Run(actions), Run(OnlyFor(actions, id)), id)
  {
    if |actions| > 0 {
      var init, a := actions[..|actions|-1], actions[|actions|-1];
      SubscribersDoNotInterfere(init, id);
      StepSameFor(Run(init), Run(OnlyFor(init, id)), a, id);
      var own := OnlyFor(init, id);
      if Concerns(a, id) {
        assert (own + [a])[..|own|] == own;
      } else {
        assert own + [] == own;
      }
    }
  }

  // ----- when events are lost to lag -----

  ghost function LostToLag(s: Bus, id: nat): nat
    requires id in s.receivers
  {
    LagTotal(s.receivers[id].conn.wakes) + Overwritten(s.published, s.receivers[id].next)
  }

  ghost predicate Behind(s: Bus, id: nat) {
    id in s.receivers && |s.published| - s.receivers[id].next > 4096
  }

  /** At some moment of the run more than the ring's capacity was unread. */
  ghost predicate FellBehind(actions: seq<Action>, id: nat) {
    exists k :: BehindAt(actions, k, id)
  }

  ghost predicate BehindAt(actions: seq<Action>, k: int, id: nat) {
    0 <= k <= |actions| && Behind(Run(actions[..k]), id)
  }

  lemma {:induction false} FellBehindStep(actions: seq<Action>, id: nat)
    requires |actions| > 0
    ensures FellBehind(actions, id) <==> FellBehind(actions[..|actions|-1], id) || Behind(Run(actions), id)
  {
    hide Run, Behind;
    var n := |actions|;
    var init := actions[..n-1];
    forall k | 0 <= k < n ensures BehindAt(actions, k, id) <==> BehindAt(init, k, id) {
      assert init[..k] == actions[..k];
    }
    assert actions[..n] == actions;
    assert BehindAt(actions, n, id) <==> Behind(Run(actions), id);
  }

  lemma {:induction false} ServeLoss(c: Conn, t: Turn)
    requires !t.wake.BusLagged?
    ensures LagTotal(AfterTurn(c, t).wakes) == LagTotal(c.wakes)
  {
    TurnExtendsWakes(c, t);
    WakeAppended(c.wakes, t.wake);
  }

  /** Only a publish adds to the loss, and only for a receiver that is then behind. */
  lemma {:induction false} LossStep(s: Bus, a: Action, id: nat)
    requires BusInvariant(s) && id in s.receivers
    ensures var t := Step(s, a);
      && id in t.receivers
      && (LostToLag(t, id) > 0 <==> LostToLag(s, id) > 0 || Behind(t, id))
  {
    hide LoopInvariant, AfterTurn, PollTurn, IsSubsequence, LagTotal, Received;
    var r := s.receivers[id];
    assert Accounted(s.published, r);
    match a {
      case Poll(i, fate, clock) => PollKeepsAccounted(s.published, r, fate, clock);
      case Serve(i, fate, wake) => if !wake.BusLagged? { ServeLoss(r.conn, Turn(fate, wake)); }
      case Publish(_) =>
      case Connect(_, _, _) =>
    }
  }

  /** A subscriber loses events to lag exactly if its unread backlog ever exceeded the ring. */
  lemma {:induction false} LossIffFellBehind(actions: seq<Action>, id: nat)
    ensures id in Run(actions).receivers ==> (LostToLag(Run(actions), id) > 0 <==> FellBehind(actions, id))
    ensures id !in Run(actions).receivers ==> !FellBehind(actions, id)
  {
    if |actions| > 0 {
      var init, a := actions[..|actions|-1], actions[|actions|-1];
      LossIffFellBehind(init, id);
      FellBehindStep(actions, id);
      RunKeepsInvariant(init);
      if id in Run(init).receivers {
        LossStep(Run(init), a, id);
      }
    }
  }
}
