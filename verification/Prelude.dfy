/** Shared vocabulary: optional values, results, and the subsequence relation. */
module Prelude {
  datatype Option<+T> = None | Some(value: T)

  datatype Result<+T, +E> = Ok(value: T) | Err(error: E)

  function Max(a: int, b: int): (m: int)
    ensures m >= a && m >= b && (m == a || m == b)
  {
    if a < b then b else a
  }

  /** `a` can be obtained from `b` by deleting occurrences and keeping the order. */
  predicate IsSubsequence<T(==)>(a: seq<T>, b: seq<T>) {
    if |a| == 0 then true
    else if |b| == 0 then false
    else
      || (a[|a|-1] == b[|b|-1] && IsSubsequence(a[..|a|-1], b[..|b|-1]))
      || IsSubsequence(a, b[..|b|-1])
  }

  /** Strictly increasing positions at which the elements of `a` occur in `b`. */
  ghost predicate Embeds<T>(a: seq<T>, b: seq<T>, at: seq<nat>) {
    && |at| == |a|
    && (forall i :: 0 <= i < |at| ==> at[i] < |b| && a[i] == b[at[i]])
    && (forall i, j :: 0 <= i < j < |at| ==> at[i] < at[j])
  }

  /** What the relation means: each element of `a` uses its own occurrence in `b`. */
  lemma {:induction false} SubsequencePositions<T>(a: seq<T>, b: seq<T>) returns (at: seq<nat>)
    requires IsSubsequence(a, b)
    ensures Embeds(a, b, at)
  {
    if |a| == 0 {
      at := [];
    } else if a[|a|-1] == b[|b|-1] && IsSubsequence(a[..|a|-1], b[..|b|-1]) {
      at := SubsequencePositions(a[..|a|-1], b[..|b|-1]);
      at := at + [|b|-1];
    } else {
      at := SubsequencePositions(a, b[..|b|-1]);
    }
  }

  lemma {:induction false} SubsequenceReflexive<T>(a: seq<T>)
    ensures IsSubsequence(a, a)
  {
    if |a| > 0 {
      SubsequenceReflexive(a[..|a|-1]);
    }
  }

  lemma SubsequenceExtend<T>(a: seq<T>, b: seq<T>, x: T)
    requires IsSubsequence(a, b)
    ensures IsSubsequence(a, b + [x])
    ensures IsSubsequence(a + [x], b + [x])
  {
  }

  lemma {:induction false} SubsequenceExtendMany<T>(a: seq<T>, b: seq<T>, c: seq<T>)
    requires IsSubsequence(a, b)
    ensures IsSubsequence(a, b + c)
  {
    hide IsSubsequence;
    if |c| == 0 {
      assert b + c == b;
    } else {
      SubsequenceExtendMany(a, b, c[..|c|-1]);
      SubsequenceExtend(a, b + c[..|c|-1], c[|c|-1]);
      assert b + c == (b + c[..|c|-1]) + [c[|c|-1]];
    }
  }

  lemma {:induction false} SubsequenceTransitive<T>(a: seq<T>, b: seq<T>, c: seq<T>)
    requires IsSubsequence(a, b) && IsSubsequence(b, c)
    ensures IsSubsequence(a, c)
    decreases |c|
  {
    if |a| == 0 || |b| == 0 {
    } else if !(b[|b|-1] == c[|c|-1] && IsSubsequence(b[..|b|-1], c[..|c|-1])) {
      SubsequenceTransitive(a, b, c[..|c|-1]);
    } else if a[|a|-1] == b[|b|-1] && IsSubsequence(a[..|a|-1], b[..|b|-1]) {
      SubsequenceTransitive(a[..|a|-1], b[..|b|-1], c[..|c|-1]);
    } else {
      SubsequenceTransitive(a, b[..|b|-1], c[..|c|-1]);
    }
  }
}
