/** src/routes/ws/queue.rs: the bounded queue that drops its oldest element. */
module DropOldest {
  import opened Prelude

  const U64_MAX: nat := 0xFFFF_FFFF_FFFF_FFFF

  /** Contents after pushing `e` onto `q`. */
  function AfterPush<T>(cap: nat, q: seq<T>, e: T): seq<T> {
    (if |q| >= cap && |q| > 0 then q[1..] else q) + [e]
  }

  class DropOldestQueue<T> {
    const cap: nat
    var inner: seq<T>
    var dropped: nat
    ghost var ops: seq<Op<T>>

    /** Contents and counter are those of the history so far; the counter saturates. */
    ghost predicate Valid()
      reads this
    {
      && cap >= 1 && |inner| <= cap && dropped <= U64_MAX
      && inner == Run(cap, ops)
      && dropped == (if Drops(cap, ops) < U64_MAX then Drops(cap, ops) else U64_MAX)
    }

    /** A zero capacity is coerced to one. */
    constructor (capacity: nat)
      ensures Valid() && cap == Max(capacity, 1) && inner == [] && dropped == 0 && ops == []
    {
      cap := Max(capacity, 1);
      inner := [];
      dropped := 0;
      ops := [];
    }

    method Push(e: T) returns (overflowed: bool)
      requires Valid()
      modifies this
      ensures Valid() && ops == old(ops) + [Op.Push(e)]
      ensures inner == AfterPush(cap, old(inner), e)
      ensures overflowed <==> |old(inner)| == cap
      ensures dropped == if overflowed && old(dropped) < U64_MAX then old(dropped) + 1 else old(dropped)
    {
      overflowed := false;
      if |inner| >= cap {
        inner := inner[1..];
        dropped := if dropped == U64_MAX then U64_MAX else dropped + 1;
        overflowed := true;
      }
      inner := inner + [e];
      ops := ops + [Op.Push(e)];
      assert ops[..|ops|-1] == old(ops);
    }

    method Pop() returns (e: Option<T>)
      requires Valid()
      modifies this
      ensures Valid() && ops == old(ops) + [Op.Pop]
      ensures old(inner) == [] ==> e == None && inner == []
      ensures old(inner) != [] ==> e == Some(old(inner)[0]) && inner == old(inner)[1..]
      ensures dropped == old(dropped)
    {
      if inner == [] {
        e := None;
      } else {
        e := Some(inner[0]);
        inner := inner[1..];
      }
      ops := ops + [Op.Pop];
      assert ops[..|ops|-1] == old(ops);
    }
  }

  // ----- whole histories of pushes and pops -----

  datatype Op<T> = Push(e: T) | Pop

  function Step<T>(cap: nat, q: seq<T>, op: Op<T>): seq<T> {
    match op
    case Push(e) => AfterPush(cap, q, e)
    case Pop => if |q| == 0 then q else q[1..]
  }

  /** Contents of an initially empty queue of capacity `cap` after `ops`. */
  function Run<T>(cap: nat, ops: seq<Op<T>>): seq<T> {
    if |ops| == 0 then [] else Step(cap, Run(cap, ops[..|ops|-1]), ops[|ops|-1])
  }

  /** Everything ever pushed, in order. */
  function Pushes<T>(ops: seq<Op<T>>): seq<T> {
    if |ops| == 0 then []
    else Pushes(ops[..|ops|-1]) + (if ops[|ops|-1].Push? then [ops[|ops|-1].e] else [])
  }

  /** Everything the pops returned, in order. */
  function Delivered<T>(cap: nat, ops: seq<Op<T>>): seq<T> {
    if |ops| == 0 then []
    else
      var q := Run(cap, ops[..|ops|-1]);
      Delivered(cap, ops[..|ops|-1]) + (if ops[|ops|-1].Pop? && |q| > 0 then [q[0]] else [])
  }

  /** How many pushes overflowed. */
  function Drops<T>(cap: nat, ops: seq<Op<T>>): nat {
    if |ops| == 0 then 0
    else
      var q := Run(cap, ops[..|ops|-1]);
      Drops(cap, ops[..|ops|-1]) + (if ops[|ops|-1].Push? && |q| >= cap then 1 else 0)
  }

  /** Index, in push order, of the oldest element still queued. */
  function Front<T>(cap: nat, ops: seq<Op<T>>): int { |Pushes(ops)| - |Run(cap, ops)| }

  /** The k-th operation pops the i-th pushed element. */
  ghost predicate PoppedAt<T>(cap: nat, ops: seq<Op<T>>, k: int, i: int) {
    && 0 <= k < |ops| && ops[k].Pop?
    && |Run(cap, ops[..k])| > 0 && Front(cap, ops[..k]) == i
  }

  /** The k-th operation drops the i-th pushed element. */
  ghost predicate LostAt<T>(cap: nat, ops: seq<Op<T>>, k: int, i: int) {
    && 0 <= k < |ops| && ops[k].Push?
    && |Run(cap, ops[..k])| >= cap && Front(cap, ops[..k]) == i
  }

  ghost predicate Lost<T>(cap: nat, ops: seq<Op<T>>, i: int) {
    exists k :: LostAt(cap, ops, k, i)
  }

  /** The (i+cap)-th push happens while the i-th pushed element has not been popped. */
  ghost predicate OvertakenAt<T>(cap: nat, ops: seq<Op<T>>, k: int, i: int) {
    && 0 <= k < |ops| && ops[k].Push?
    && |Pushes(ops[..k])| == i + cap
    && forall j :: 0 <= j < k ==> !PoppedAt(cap, ops, j, i)
  }

  ghost predicate Overtaken<T>(cap: nat, ops: seq<Op<T>>, i: int) {
    exists k :: OvertakenAt(cap, ops, k, i)
  }

  /** The queue always holds the newest pushes, at most `cap` of them. */
  lemma {:induction false} ContentsAreSuffix<T>(cap: nat, ops: seq<Op<T>>)
    requires cap >= 1
    ensures |Run(cap, ops)| <= cap && 0 <= Front(cap, ops)
    ensures Run(cap, ops) == Pushes(ops)[Front(cap, ops)..]
  {
    if |ops| > 0 {
      ContentsAreSuffix(cap, ops[..|ops|-1]);
    }
  }

  /** Nothing vanishes: pushed = popped + dropped + still queued. */
  lemma {:induction false} Conservation<T>(cap: nat, ops: seq<Op<T>>)
    requires cap >= 1
    ensures |Pushes(ops)| == |Delivered(cap, ops)| + Drops(cap, ops) + |Run(cap, ops)|
    ensures IsSubsequence(Delivered(cap, ops) + Run(cap, ops), Pushes(ops))
  {
    if |ops| > 0 {
      var init, op := ops[..|ops|-1], ops[|ops|-1];
      Conservation(cap, init);
      ContentsAreSuffix(cap, init);
      match op {
        case Pop => PopKeeps(Delivered(cap, init), Run(cap, init), Pushes(init));
        case Push(e) => PushKeeps(cap, Delivered(cap, init), Run(cap, init), Pushes(init), e);
      }
    }
  }

  lemma {:induction false} PopKeeps<T>(d: seq<T>, q: seq<T>, p: seq<T>)
    requires IsSubsequence(d + q, p)
    ensures IsSubsequence((d + if |q| > 0 then [q[0]] else []) + (if |q| == 0 then q else q[1..]), p + [])
  {
    assert p + [] == p;
    if |q| > 0 {
      assert (d + [q[0]]) + q[1..] == d + q;
    } else {
      assert (d + []) + q == d + q;
    }
  }

  lemma {:induction false} PushKeeps<T>(cap: nat, d: seq<T>, q: seq<T>, p: seq<T>, e: T)
    requires IsSubsequence(d + q, p)
    ensures IsSubsequence((d + []) + AfterPush(cap, q, e), p + [e])
  {
    assert d + [] == d;
    if |q| >= cap && |q| > 0 {
      SubsequenceWithout(d, q);
      SubsequenceTransitive(d + q[1..], d + q, p);
      SubsequenceExtend(d + q[1..], p, e);
      assert d + (q[1..] + [e]) == (d + q[1..]) + [e];
    } else {
      SubsequenceExtend(d + q, p, e);
      assert d + (q + [e]) == (d + q) + [e];
    }
  }

  lemma {:induction false} SubsequenceWithout<T>(d: seq<T>, q: seq<T>)
    requires |q| > 0
    ensures IsSubsequence(d + q[1..], d + q)
  {
    SubsequenceReflexive(d);
    SubsequenceExtend(d, d, q[0]);
    SubsequenceAppend(d, d + [q[0]], q[1..]);
    assert d + q == (d + [q[0]]) + q[1..];
  }

  lemma {:induction false} SubsequenceAppend<T>(a: seq<T>, b: seq<T>, c: seq<T>)
    requires IsSubsequence(a, b)
    ensures IsSubsequence(a + c, b + c)
  {
    if |c| == 0 {
      assert a + c == a && b + c == b;
    } else {
      SubsequenceAppend(a, b, c[..|c|-1]);
      SubsequenceExtend(a + c[..|c|-1], b + c[..|c|-1], c[|c|-1]);
      assert a + c == (a + c[..|c|-1]) + [c[|c|-1]];
      assert b + c == (b + c[..|c|-1]) + [c[|c|-1]];
    }
  }

  /** The front index moves by at most one, and only by popping or losing that element. */
  lemma {:induction false} FrontStep<T>(cap: nat, ops: seq<Op<T>>, k: nat)
    requires cap >= 1 && k < |ops|
    ensures var f := Front(cap, ops[..k]); var g := Front(cap, ops[..k+1]);
      if PoppedAt(cap, ops, k, f) || LostAt(cap, ops, k, f) then g == f + 1 else g == f
  {
    assert ops[..k+1][..k] == ops[..k];
    ContentsAreSuffix(cap, ops[..k]);
  }

  lemma {:induction false} FrontMonotone<T>(cap: nat, ops: seq<Op<T>>, j: nat, k: nat)
    requires cap >= 1 && j <= k <= |ops|
    ensures Front(cap, ops[..j]) <= Front(cap, ops[..k])
    decreases k
  {
    if j < k {
      FrontMonotone(cap, ops, j, k - 1);
      FrontStep(cap, ops, k - 1);
    }
  }

  lemma {:induction false} FrontCrossing<T>(cap: nat, ops: seq<Op<T>>, k: nat, i: nat) returns (j: nat)
    requires cap >= 1 && k <= |ops| && i < Front(cap, ops[..k])
    ensures j < k && (PoppedAt(cap, ops, j, i) || LostAt(cap, ops, j, i))
    decreases k
  {
    if k > 0 {
      FrontStep(cap, ops, k - 1);
      if i < Front(cap, ops[..k-1]) {
        j := FrontCrossing(cap, ops, k - 1, i);
      } else {
        j := k - 1;
      }
    }
  }

  /**
   Exactly which elements are lost, for every interleaving of pushes and pops:
   element i is dropped iff element i+cap is pushed before i is popped.
   */
  lemma {:induction false} LostIffOvertaken<T>(cap: nat, ops: seq<Op<T>>, i: nat)
    requires cap >= 1
    ensures Lost(cap, ops, i) <==> Overtaken(cap, ops, i)
  {
    forall k | LostAt(cap, ops, k, i)
      ensures OvertakenAt(cap, ops, k, i)
    {
      ContentsAreSuffix(cap, ops[..k]);
      forall j | 0 <= j < k ensures !PoppedAt(cap, ops, j, i) {
        FrontStep(cap, ops, j);
        FrontMonotone(cap, ops, j + 1, k);
      }
    }
    forall k | OvertakenAt(cap, ops, k, i)
      ensures Lost(cap, ops, i)
    {
      ContentsAreSuffix(cap, ops[..k]);
      if Front(cap, ops[..k]) == i {
        assert LostAt(cap, ops, k, i);
      } else {
        var j := FrontCrossing(cap, ops, k, i);
        assert LostAt(cap, ops, j, i);
      }
    }
  }
}
