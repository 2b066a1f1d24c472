/** The sustained-overflow detector inside the connection loop of src/routes/ws/session.rs. */
module DropBurst {
  type Instant = int

  const SECOND: int := 1_000_000_000
  const BURST_WINDOW: int := 60 * SECOND
  const BURST_LIMIT: nat := 10

  /** One overflow: the clock as `elapsed()` reads it, and as a window restart reads it afterwards. */
  datatype Overflow = Overflow(check: Instant, stamp: Instant)

  datatype Detector = Detector(windowStart: Instant, drops: nat) {
    predicate Tripped() { drops > BURST_LIMIT }
  }

  predicate Restarts(d: Detector, o: Overflow) { o.check - d.windowStart > BURST_WINDOW }

  function Note(d: Detector, o: Overflow): Detector {
    if Restarts(d, o) then Detector(o.stamp, 1) else Detector(d.windowStart, d.drops + 1)
  }

  function Observe(start: Instant, os: seq<Overflow>): Detector {
    if |os| == 0 then Detector(start, 0) else Note(Observe(start, os[..|os|-1]), os[|os|-1])
  }

  /** Clock reads never go backwards, from the opening of the connection on. */
  ghost predicate Chronological(start: Instant, os: seq<Overflow>) {
    && (forall i :: 0 <= i < |os| ==> start <= os[i].check <= os[i].stamp)
    && (forall i, j :: 0 <= i < j < |os| ==> os[i].stamp <= os[j].check)
  }

  lemma {:induction false} ObserveStep(start: Instant, os: seq<Overflow>, k: nat)
    requires k < |os|
    ensures Observe(start, os[..k+1]) == Note(Observe(start, os[..k]), os[k])
  {
    assert os[..k+1][..k] == os[..k];
  }

  /** The counted overflows are the latest ones, and all of them fall in the current window. */
  lemma {:induction false} WindowHoldsCounted(start: Instant, os: seq<Overflow>, k: nat)
    requires Chronological(start, os) && k < |os|
    ensures var d := Observe(start, os[..k+1]);
      && 1 <= d.drops <= k + 1
      && start <= d.windowStart
      && (d.drops == 1 || os[k].check - d.windowStart <= BURST_WINDOW)
      && forall j :: k - d.drops < j <= k ==> d.windowStart <= os[j].stamp
  {
    ObserveStep(start, os, k);
    if k > 0 {
      WindowHoldsCounted(start, os, k - 1);
    } else {
      assert os[..0] == [];
    }
  }

  /** A disconnect is justified: some eleven overflows lie within one 60 s span. */
  lemma {:induction false} TripNeedsElevenInAMinute(start: Instant, os: seq<Overflow>, k: nat)
    requires Chronological(start, os) && k < |os|
    requires Observe(start, os[..k+1]).Tripped()
    ensures k >= 10 && os[k].check - os[k - 10].stamp <= 60 * SECOND
  {
    WindowHoldsCounted(start, os, k);
  }

  /** After a restart at `p`, counting goes on undisturbed until a minute has passed. */
  lemma {:induction false} CountingAfterRestart(start: Instant, os: seq<Overflow>, p: nat, q: nat)
    requires Chronological(start, os) && p <= q < |os|
    requires Restarts(Observe(start, os[..p]), os[p])
    requires os[q].check - os[p].stamp <= BURST_WINDOW
    ensures Observe(start, os[..q+1]) == Detector(os[p].stamp, 1 + q - p)
    decreases q
  {
    ObserveStep(start, os, q);
    if p < q {
      assert os[q-1].check <= os[q].check;
      CountingAfterRestart(start, os, p, q - 1);
    }
  }

  /** Without a restart every overflow is counted. */
  lemma {:induction false} CountingWithoutRestart(start: Instant, os: seq<Overflow>, i: nat, n: nat)
    requires i + n <= |os|
    requires forall p :: i <= p < i + n ==> !Restarts(Observe(start, os[..p]), os[p])
    ensures Observe(start, os[..i+n]).drops == Observe(start, os[..i]).drops + n
  {
    if n > 0 {
      CountingWithoutRestart(start, os, i, n - 1);
      ObserveStep(start, os, i + n - 1);
    }
  }

  /**
   A flood is caught: whenever a closed 60 s span holds 21 overflows, the
   detector trips by the last of them, because two restarts of the window are
   always more than 60 s apart.
   */
  lemma {:induction false} TwentyOneInAMinuteTrip(start: Instant, os: seq<Overflow>, i: nat) returns (k: nat)
    requires Chronological(start, os) && i + 20 < |os|
    requires os[i + 20].check - os[i].check <= 60 * SECOND
    ensures i <= k <= i + 20 && Observe(start, os[..k+1]).Tripped()
  {
    if p :| i <= p <= i + 10 && Restarts(Observe(start, os[..p]), os[p]) {
      k := p + 10;
      assert os[k].check <= os[i + 20].check && os[i].check <= os[p].stamp;
      CountingAfterRestart(start, os, p, k);
    } else {
      k := i + 10;
      CountingWithoutRestart(start, os, i, 11);
    }
  }

  /** Ten overflows just before a restart and ten from it on: twenty within 30 s. */
  function SplitFlood(): (os: seq<Overflow>)
    ensures |os| == 20
  {
    seq(20, i => if i < 10 then Overflow(31 * SECOND, 31 * SECOND) else Overflow(61 * SECOND, 61 * SECOND))
  }

  /** 21 is sharp: a span of 30 s may hold 20 overflows without a disconnect. */
  lemma {:induction false} TwentyNeedNotTrip(k: nat)
    requires k <= 20
    ensures Chronological(0, SplitFlood())
    ensures SplitFlood()[19].check - SplitFlood()[0].check <= 30 * SECOND
    ensures !Observe(0, SplitFlood()[..k]).Tripped()
  {
    SplitFloodCounts(k);
  }

  lemma {:induction false} SplitFloodCounts(k: nat)
    requires k <= 20
    ensures Observe(0, SplitFlood()[..k]) == if k <= 10 then Detector(0, k) else Detector(61 * SECOND, k - 10)
  {
    if k > 0 {
      SplitFloodCounts(k - 1);
      ObserveStep(0, SplitFlood(), k - 1);
    }
  }
}
