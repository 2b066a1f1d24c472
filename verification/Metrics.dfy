/** src/metrics.rs: the histogram's counters, and what rendering makes of them. */
module Metrics {
  import opened Prelude

  /** Observations not above a bucket's bound. */
  function CountAtMost(observed: seq<real>, bound: real): nat {
    if |observed| == 0 then 0
    else CountAtMost(observed[..|observed|-1], bound) + (if observed[|observed|-1] <= bound then 1 else 0)
  }

  function Sum(counts: seq<nat>): nat {
    if |counts| == 0 then 0 else Sum(counts[..|counts|-1]) + counts[|counts|-1]
  }

  predicate Ascending(uppers: seq<real>) { forall i, j :: 0 <= i < j < |uppers| ==> uppers[i] < uppers[j] }

  class Histogram {
    const uppers: seq<real>
    const counts: array<nat>
    var count: nat
    ghost var observed: seq<real>

    ghost predicate Valid()
      reads this, counts
    {
      && counts.Length == |uppers|
      && count == |observed|
      && forall i :: 0 <= i < |uppers| ==> counts[i] == CountAtMost(observed, uppers[i])
    }

    constructor (uppers: seq<real>)
      ensures Valid() && fresh(counts) && this.uppers == uppers && observed == []
    {
      this.uppers := uppers;
      counts := new nat[|uppers|](_ => 0);
      count := 0;
      observed := [];
    }

    /** Every bucket whose bound is not below the observation is incremented. */
    method Observe(seconds: real)
      requires Valid()
      modifies this, counts
      ensures Valid() && observed == old(observed) + [seconds]
    {
      count := count + 1;
      ghost var before := observed;
      observed := observed + [seconds];
      assert observed[..|before|] == before;
      for i := 0 to |uppers|
        modifies counts
        invariant counts.Length == |uppers|
        invariant forall k :: 0 <= k < i ==> counts[k] == CountAtMost(observed, uppers[k])
        invariant forall k :: i <= k < |uppers| ==> counts[k] == CountAtMost(before, uppers[k])
      {
        if seconds <= uppers[i] {
          counts[i] := counts[i] + 1;
        }
      }
    }

    /** The bucket lines of `render`: running sums over the stored counters. */
    method RenderBuckets() returns (lines: seq<nat>)
      requires Valid()
      ensures |lines| == |uppers|
      ensures forall i :: 0 <= i < |lines| ==> lines[i] == Sum(counts[..i+1])
    {
      lines := [];
      var cumulative := 0;
      for i := 0 to |uppers|
        invariant |lines| == i && cumulative == Sum(counts[..i])
        invariant forall k :: 0 <= k < i ==> lines[k] == Sum(counts[..k+1])
      {
        assert counts[..i+1][..i] == counts[..i];
        cumulative := cumulative + counts[i];
        lines := lines + [cumulative];
      }
    }
  }

  lemma {:induction false} CountMonotone(observed: seq<real>, low: real, high: real)
    requires low <= high
    ensures CountAtMost(observed, low) <= CountAtMost(observed, high)
  {
    if |observed| > 0 { CountMonotone(observed[..|observed|-1], low, high); }
  }

  lemma {:induction false} SumIsZeroIff(counts: seq<nat>)
    ensures Sum(counts) == 0 <==> forall i :: 0 <= i < |counts| ==> counts[i] == 0
  {
    if |counts| > 0 {
      var init := counts[..|counts|-1];
      SumIsZeroIff(init);
      assert forall i :: 0 <= i < |init| ==> init[i] == counts[i];
    }
  }

  /**
   The counters are already cumulative, so a rendered bucket line tells the
   number of observations within its bound if and only if none of them was
   within the bound before it.
   */
  lemma {:induction false} RenderedBucketIsRightIff(uppers: seq<real>, observed: seq<real>, counts: seq<nat>, i: nat)
    requires Ascending(uppers) && i < |uppers| == |counts|
    requires forall k :: 0 <= k < |uppers| ==> counts[k] == CountAtMost(observed, uppers[k])
    ensures Sum(counts[..i+1]) == CountAtMost(observed, uppers[i]) <==>
            i == 0 || CountAtMost(observed, uppers[i-1]) == 0
  {
    assert counts[..i+1][..i] == counts[..i];
    SumIsZeroIff(counts[..i]);
    if i > 0 {
      forall k | 0 <= k < i ensures counts[k] <= counts[i-1] {
        CountMonotone(observed, uppers[k], uppers[i-1]);
      }
      assert counts[..i][i-1] == counts[i-1];
    }
  }
}
