/**
 src/db/uniform.rs: concurrent ETag-guarded patches of one existing row.

 Assumed of the database: `FOR UPDATE` takes an exclusive lock on the row, held
 to commit or abort.
 */
module UniformPatch {
  import opened Prelude
  import opened Ids
  import opened UniformRows

  type TxId = nat

  datatype Error = PreconditionFailed(current: Tag) | Unreadable | AuthorRefused

  /** Read under the row lock, compare, compute the whole new row, write it, commit. */
  datatype Phase =
    | Begun
    | Locked(seen: UniformRow)
    | Written(row: UniformRow)
    | Done(row: UniformRow)
    | Failed(error: Error)
    | Died
  {
    predicate Holds() { Locked? || Written? }
  }

  datatype Handler = Handler(expected: Option<Tag>, patch: PatchInput, phase: Phase)

  /** A committed patch with the tag it issued. */
  datatype Success = Success(expected: Option<Tag>, patch: PatchInput, tag: Tag)

  datatype State = State(row: UniformRow, lock: Option<TxId>, handlers: map<TxId, Handler>, nextTag: Tag, successes: seq<Success>)

  datatype Action =
    | Begin(t: TxId, expected: Option<Tag>, patch: PatchInput)
    | Acquire(t: TxId)
    | Compute(t: TxId)
    | Commit(t: TxId)
    | Crash(t: TxId)

  function Init(row: UniformRow): State { State(row, None, map[], row.etag + 1, []) }

  function Move(s: State, t: TxId, phase: Phase): State
    requires t in s.handlers
  {
    s.(handlers := s.handlers[t := s.handlers[t].(phase := phase)])
  }

  function Step(shape: TextShape, s: State, a: Action): State {
    if a.Begin? then
      if a.t in s.handlers then s else s.(handlers := s.handlers[a.t := Handler(a.expected, a.patch, Begun)])
    else if a.t !in s.handlers then s
    else
      var h := s.handlers[a.t];
      match (a, h.phase)
      case (Acquire(t), Begun) => if s.lock.Some? then s else Move(s.(lock := Some(t)), t, Locked(s.row))
      case (Compute(t), Locked(seen)) =>
        if !Readable(shape, seen) then Move(s.(lock := None), t, Failed(Unreadable))
        else if h.expected.Some? && h.expected.value != seen.etag
        then Move(s.(lock := None), t, Failed(PreconditionFailed(seen.etag)))
        else if !NamesUser(h.patch.authorUser) then Move(s.(lock := None), t, Failed(AuthorRefused))
        else Move(s.(nextTag := s.nextTag + 1), t, Written(ApplyPatch(shape, seen, h.patch, s.nextTag)))
      case (Commit(t), Written(row)) =>
        Move(s.(row := row, lock := None, successes := s.successes + [Success(h.expected, h.patch, row.etag)]), t, Done(row))
      case (Crash(t), Begun) => Move(s, t, Died)
      case (Crash(t), Locked(_)) => Move(s.(lock := None), t, Died)
      case (Crash(t), Written(_)) => Move(s.(lock := None), t, Died)
      case _ => s
  }

  function Run(shape: TextShape, row: UniformRow, actions: seq<Action>): State {
    if |actions| == 0 then Init(row) else Step(shape, Run(shape, row, actions[..|actions|-1]), actions[|actions|-1])
  }

  /**
   The committed patches applied one after another, each to the version that
   carries the tag it asked for, and none with an author the database refuses.
   */
  function Fold(shape: TextShape, row: UniformRow, successes: seq<Success>): Option<UniformRow> {
    if |successes| == 0 then Some(row)
    else
      var last := successes[|successes|-1];
      match Fold(shape, row, successes[..|successes|-1])
      case None => None
      case Some(r) =>
        if last.expected.Some? && last.expected.value != r.etag then None
        else if !NamesUser(last.patch.authorUser) then None
        else Some(ApplyPatch(shape, r, last.patch, last.tag))
  }

  ghost predicate HandlerOk(shape: TextShape, s: State, t: TxId)
    requires t in s.handlers
  {
    var h := s.handlers[t];
    && (h.phase.Holds() ==> s.lock == Some(t))
    && (h.phase.Locked? ==> h.phase.seen == s.row)
    && (h.phase.Written? ==>
          && h.phase.row == ApplyPatch(shape, s.row, h.patch, h.phase.row.etag)
          && s.row.etag < h.phase.row.etag < s.nextTag
          && (h.expected.Some? ==> h.expected.value == s.row.etag)
          && Readable(shape, s.row) && NamesUser(h.patch.authorUser))
  }

  /** Tags only ever grow along the versions, starting above the initial one. */
  ghost predicate TagsGrow(first: Tag, successes: seq<Success>, last: Tag) {
    && (forall i :: 0 <= i < |successes| ==> first < successes[i].tag <= last)
    && (forall i, j :: 0 <= i < j < |successes| ==> successes[i].tag < successes[j].tag)
    && last == (if |successes| == 0 then first else successes[|successes|-1].tag)
  }

  ghost predicate Inv(shape: TextShape, row0: UniformRow, s: State) {
    && (forall t :: t in s.handlers ==> HandlerOk(shape, s, t))
    && (s.lock.Some? ==> s.lock.value in s.handlers && s.handlers[s.lock.value].phase.Holds())
    && Fold(shape, row0, s.successes) == Some(s.row)
    && TagsGrow(row0.etag, s.successes, s.row.etag)
    && s.row.etag < s.nextTag
    && (Readable(shape, s.row) <==> Readable(shape, row0))
  }

  lemma PatchSetsTag(shape: TextShape, row: UniformRow, p: PatchInput, tag: Tag)
    ensures ApplyPatch(shape, row, p, tag).etag == tag
  {
  }

  lemma {:induction false} StepKeepsHandlers(shape: TextShape, row0: UniformRow, s: State, a: Action)
    requires Inv(shape, row0, s)
    ensures var after := Step(shape, s, a);
      && (forall t :: t in after.handlers ==> HandlerOk(shape, after, t))
      && (after.lock.Some? ==> after.lock.value in after.handlers && after.handlers[after.lock.value].phase.Holds())
      && after.row.etag < after.nextTag
  {
    hide ApplyPatch, TagsGrow, Fold, Readable, NamesUser;
    var after := Step(shape, s, a);
    if a.t in s.handlers {
      assert HandlerOk(shape, s, a.t);
      PatchSetsTag(shape, s.row, s.handlers[a.t].patch, s.nextTag);
    }
    forall t | t in after.handlers ensures HandlerOk(shape, after, t) {
      if t in s.handlers {
        assert HandlerOk(shape, s, t);
      }
    }
  }

  lemma {:induction false} StepKeeps(shape: TextShape, row0: UniformRow, s: State, a: Action)
    requires Inv(shape, row0, s)
    ensures Inv(shape, row0, Step(shape, s, a))
  {
    hide ApplyPatch, TagsGrow, Readable, NamesUser;
    var after := Step(shape, s, a);
    StepKeepsHandlers(shape, row0, s, a);
    if a.Commit? && a.t in s.handlers && s.handlers[a.t].phase.Written? {
      assert HandlerOk(shape, s, a.t);
      PatchKeepsReadable(shape, s.row, s.handlers[a.t].patch, s.handlers[a.t].phase.row.etag);
      assert after.successes[..|s.successes|] == s.successes;
      TagsGrowOn(row0.etag, s.successes, s.row.etag, after.successes[|s.successes|]);
    }
    hide HandlerOk;
  }

  lemma TagsGrowOn(first: Tag, successes: seq<Success>, last: Tag, next: Success)
    requires TagsGrow(first, successes, last) && last < next.tag
    ensures TagsGrow(first, successes + [next], next.tag)
  {
  }

  lemma {:induction false} RunKeeps(shape: TextShape, row: UniformRow, actions: seq<Action>)
    ensures Inv(shape, row, Run(shape, row, actions))
  {
    if |actions| > 0 {
      RunKeeps(shape, row, actions[..|actions|-1]);
      StepKeeps(shape, row, Run(shape, row, actions[..|actions|-1]), actions[|actions|-1]);
    }
  }

  // ----- no lost update -----

  /**
   Whatever the interleaving, the stored row is the fold of the successful
   patches in commit order, each applied to exactly the version whose tag it
   named; the failed ones left no trace.
   */
  lemma {:induction false} NoLostUpdate(shape: TextShape, row: UniformRow, actions: seq<Action>)
    ensures var s := Run(shape, row, actions);
      Fold(shape, row, s.successes) == Some(s.row)
  {
    RunKeeps(shape, row, actions);
  }

  lemma {:induction false} FoldPrefix(shape: TextShape, row: UniformRow, successes: seq<Success>, i: nat)
    requires Fold(shape, row, successes).Some? && i <= |successes|
    ensures Fold(shape, row, successes[..i]).Some?
    decreases |successes|
  {
    hide ApplyPatch;
    if i < |successes| {
      var init := successes[..|successes|-1];
      assert init[..i] == successes[..i];
      FoldPrefix(shape, row, init, i);
    } else {
      assert successes[..i] == successes;
    }
  }

  /** The tag before the i-th success is the one the previous success issued. */
  lemma {:induction false} TagBefore(shape: TextShape, row: UniformRow, successes: seq<Success>, i: nat)
    requires Fold(shape, row, successes).Some? && i < |successes|
    ensures Fold(shape, row, successes[..i]).Some?
    ensures var before := Fold(shape, row, successes[..i]).value;
      && before.etag == (if i == 0 then row.etag else successes[i-1].tag)
      && (successes[i].expected.Some? ==> successes[i].expected.value == before.etag)
  {
    hide ApplyPatch;
    FoldPrefix(shape, row, successes, i);
    FoldPrefix(shape, row, successes, i + 1);
    assert successes[..i+1][..i] == successes[..i];
    if i > 0 {
      FoldPrefix(shape, row, successes, i - 1);
      assert successes[..i][..i-1] == successes[..i-1];
      PatchSetsTag(shape, Fold(shape, row, successes[..i-1]).value, successes[i-1].patch, successes[i-1].tag);
    }
  }

  /** At most one patch conditional on a given tag ever succeeds. */
  lemma {:induction false} OneSuccessPerTag(shape: TextShape, row: UniformRow, actions: seq<Action>, i: nat, j: nat)
    requires var successes := Run(shape, row, actions).successes;
      && i < |successes| && j < |successes|
      && successes[i].expected.Some? && successes[i].expected == successes[j].expected
    ensures i == j
  {
    hide Run;
    RunKeeps(shape, row, actions);
    var successes := Run(shape, row, actions).successes;
    TagBefore(shape, row, successes, i);
    TagBefore(shape, row, successes, j);
  }

  /** The checks under the row lock, in order: the row decodes, the tag is met, the author is a user. */
  lemma ComputeDecides(shape: TextShape, row: UniformRow, s: State, t: TxId)
    requires Inv(shape, row, s) && t in s.handlers && s.handlers[t].phase.Locked?
    ensures var h, after := s.handlers[t], Step(shape, s, Compute(t));
      && after.row == s.row && t in after.handlers
      && var phase := after.handlers[t].phase;
         && (phase == Failed(Unreadable) <==> !Readable(shape, s.row))
         && (phase == Failed(PreconditionFailed(s.row.etag)) <==>
               Readable(shape, s.row) && h.expected.Some? && h.expected.value != s.row.etag)
         && (phase == Failed(AuthorRefused) <==>
               && Readable(shape, s.row) && (h.expected.None? || h.expected.value == s.row.etag)
               && !NamesUser(h.patch.authorUser))
         && (phase.Written? <==>
               && Readable(shape, s.row) && (h.expected.None? || h.expected.value == s.row.etag)
               && NamesUser(h.patch.authorUser))
         && (phase.Written? || phase.Failed?)
  {
    hide ApplyPatch, Readable, NamesUser;
  }

  /** Handlers that got past the tag check are never refused later, and refusals are final. */
  lemma DecidedStays(shape: TextShape, s: State, a: Action, t: TxId)
    requires t in s.handlers && !s.handlers[t].phase.Begun? && !s.handlers[t].phase.Locked?
    ensures var after := Step(shape, s, a);
      && t in after.handlers && !after.handlers[t].phase.Begun? && !after.handlers[t].phase.Locked?
      && (after.handlers[t].phase.Failed? <==> s.handlers[t].phase.Failed?)
      && (s.handlers[t].phase.Failed? ==> after.handlers[t].phase == s.handlers[t].phase)
  {
  }

  lemma {:induction false} DecidedForGood(shape: TextShape, row: UniformRow, actions: seq<Action>, k: nat, t: TxId)
    requires k <= |actions|
    requires var s := Run(shape, row, actions[..k]);
      t in s.handlers && !s.handlers[t].phase.Begun? && !s.handlers[t].phase.Locked?
    ensures var s, after := Run(shape, row, actions[..k]), Run(shape, row, actions);
      && t in after.handlers && !after.handlers[t].phase.Begun? && !after.handlers[t].phase.Locked?
      && (after.handlers[t].phase.Failed? <==> s.handlers[t].phase.Failed?)
      && (s.handlers[t].phase.Failed? ==> after.handlers[t].phase == s.handlers[t].phase)
    decreases |actions|
  {
    hide Step;
    if k == |actions| {
      assert actions[..k] == actions;
    } else {
      var init := actions[..|actions|-1];
      assert init[..k] == actions[..k];
      DecidedForGood(shape, row, init, k, t);
      DecidedStays(shape, Run(shape, row, init), actions[|actions|-1], t);
    }
  }

  lemma SuccessesGrow(shape: TextShape, s: State, a: Action)
    ensures s.successes <= Step(shape, s, a).successes
  {
  }

  lemma {:induction false} SuccessesOfPrefix(shape: TextShape, row: UniformRow, actions: seq<Action>, i: nat)
    requires i <= |actions|
    ensures Run(shape, row, actions[..i]).successes <= Run(shape, row, actions).successes
    decreases |actions|
  {
    hide Step;
    if i == |actions| {
      assert actions[..i] == actions;
    } else {
      var init := actions[..|actions|-1];
      assert init[..i] == actions[..i];
      SuccessesOfPrefix(shape, row, init, i);
      SuccessesGrow(shape, Run(shape, row, init), actions[|actions|-1]);
    }
  }

  /** The tag moves exactly when a patch succeeds. */
  lemma {:induction false} TagMovesIffPatched(shape: TextShape, row: UniformRow, actions: seq<Action>, i: nat)
    requires i <= |actions|
    ensures var was, s := Run(shape, row, actions[..i]), Run(shape, row, actions);
      was.row.etag == s.row.etag <==> |was.successes| == |s.successes|
  {
    hide Run;
    RunKeeps(shape, row, actions[..i]);
    RunKeeps(shape, row, actions);
    SuccessesOfPrefix(shape, row, actions, i);
  }

  /** Handler t checks, as the k-th action, the tag that the row carried after the first i actions. */
  ghost predicate ChecksTagReadAt(shape: TextShape, row: UniformRow, actions: seq<Action>, t: TxId, i: nat, k: nat) {
    && i <= k < |actions| && actions[k] == Compute(t)
    && var s := Run(shape, row, actions[..k]);
       && t in s.handlers && s.handlers[t].phase.Locked?
       && s.handlers[t].expected == Some(Run(shape, row, actions[..i]).row.etag)
  }

  /**
   A patch of a readable row that names the tag its caller read is refused if and
   only if another patch succeeded since that read, and is then told the tag that
   one left, or its author is `mixed`. An unreadable row takes no patch at all.
   */
  lemma {:induction false} RefusedIffOvertaken(shape: TextShape, row: UniformRow, actions: seq<Action>, t: TxId, i: nat, k: nat)
    requires ChecksTagReadAt(shape, row, actions, t, i, k)
    ensures var read, checked, s := Run(shape, row, actions[..i]), Run(shape, row, actions[..k]), Run(shape, row, actions);
      var overtaken, mixed := |read.successes| < |checked.successes|, checked.handlers[t].patch.authorUser == Some(MIXED_PSEUDO_ID);
      && t in s.handlers
      && (s.handlers[t].phase.Failed? <==> !Readable(shape, row) || overtaken || mixed)
      && (s.handlers[t].phase == Failed(PreconditionFailed(checked.row.etag)) <==> Readable(shape, row) && overtaken)
      && (s.handlers[t].phase == Failed(AuthorRefused) <==> Readable(shape, row) && !overtaken && mixed)
  {
    hide Readable, NamesUser;
    var before, upTo := actions[..k], actions[..k+1];
    assert upTo[..k] == before && before[..i] == actions[..i];
    RunKeeps(shape, row, before);
    var s := Run(shape, row, before);
    NamesUserIff(s.handlers[t].patch.authorUser);
    TagMovesIffPatched(shape, row, before, i);
    SuccessesOfPrefix(shape, row, before, i);
    ComputeDecides(shape, row, s, t);
    hide Step;
    DecidedForGood(shape, row, actions, k + 1, t);
  }

  /** A patch by `mixed`, though its body is accepted, is refused by the CHECK constraint. */
  lemma {:induction false} MixedAuthorRefused(shape: TextShape, row: UniformRow, p: PatchInput)
    requires Readable(shape, row) && p.authorUser == Some(MIXED_PSEUDO_ID)
    ensures var s := Run(shape, row, [Begin(0, None, p), Acquire(0), Compute(0)]);
      s.row == row && 0 in s.handlers && s.handlers[0].phase == Failed(AuthorRefused)
  {
    hide Readable;
    var a, b, c := Begin(0, None, p), Acquire(0), Compute(0);
    assert [a, b, c][..2] == [a, b] && [a, b][..1] == [a] && [a][..0] == [];
    var s0 := Init(row);
    assert Run(shape, row, [a]) == Step(shape, s0, a);
    assert Run(shape, row, [a, b]) == Step(shape, Step(shape, s0, a), b);
    NamesUserIff(p.authorUser);
  }

  // ----- nobody patches what was not asked for -----

  ghost predicate WasBegun(actions: seq<Action>, t: TxId, expected: Option<Tag>, patch: PatchInput) {
    exists k :: 0 <= k < |actions| && actions[k] == Begin(t, expected, patch)
  }

  ghost predicate SuccessWasBegun(actions: seq<Action>, s: Success) { exists t :: WasBegun(actions, t, s.expected, s.patch) }

  lemma {:induction false} StillBegun(actions: seq<Action>, a: Action, t: TxId, expected: Option<Tag>, patch: PatchInput)
    requires WasBegun(actions, t, expected, patch) || a == Begin(t, expected, patch)
    ensures WasBegun(actions + [a], t, expected, patch)
  {
    var all := actions + [a];
    if a == Begin(t, expected, patch) {
      assert all[|actions|] == a;
    } else {
      var k :| 0 <= k < |actions| && actions[k] == Begin(t, expected, patch);
      assert all[k] == actions[k];
    }
  }

  lemma StepOrigins(shape: TextShape, s: State, a: Action)
    ensures var after := Step(shape, s, a);
      && (forall t :: t in after.handlers ==>
            || (t in s.handlers && after.handlers[t].expected == s.handlers[t].expected && after.handlers[t].patch == s.handlers[t].patch)
            || a == Begin(t, after.handlers[t].expected, after.handlers[t].patch))
      && (after.successes != s.successes ==>
            && a.Commit? && a.t in s.handlers && |after.successes| == |s.successes| + 1
            && after.successes[..|s.successes|] == s.successes
            && after.successes[|s.successes|].expected == s.handlers[a.t].expected
            && after.successes[|s.successes|].patch == s.handlers[a.t].patch)
  {
    hide ApplyPatch, Readable, NamesUser;
  }

  /** Every handler and every successful patch is one that some caller began with. */
  ghost predicate PatchesBegun(actions: seq<Action>, s: State) {
    && (forall t :: t in s.handlers ==> WasBegun(actions, t, s.handlers[t].expected, s.handlers[t].patch))
    && (forall i :: 0 <= i < |s.successes| ==> SuccessWasBegun(actions, s.successes[i]))
  }

  lemma {:induction false} BegunStep(shape: TextShape, actions: seq<Action>, s: State, a: Action)
    requires PatchesBegun(actions, s)
    ensures PatchesBegun(actions + [a], Step(shape, s, a))
  {
    hide Step, WasBegun;
    var after := Step(shape, s, a);
    StepOrigins(shape, s, a);
    forall t | t in after.handlers ensures WasBegun(actions + [a], t, after.handlers[t].expected, after.handlers[t].patch) {
      StillBegun(actions, a, t, after.handlers[t].expected, after.handlers[t].patch);
    }
    forall i | 0 <= i < |after.successes| ensures SuccessWasBegun(actions + [a], after.successes[i]) {
      var t := a.t;
      if i < |s.successes| {
        assert after.successes[i] == s.successes[i] && SuccessWasBegun(actions, s.successes[i]);
        t :| WasBegun(actions, t, s.successes[i].expected, s.successes[i].patch);
      }
      StillBegun(actions, a, t, after.successes[i].expected, after.successes[i].patch);
    }
  }

  lemma {:induction false} PatchesWereAsked(shape: TextShape, row: UniformRow, actions: seq<Action>)
    ensures PatchesBegun(actions, Run(shape, row, actions))
  {
    hide Step;
    if |actions| > 0 {
      var init, a := actions[..|actions|-1], actions[|actions|-1];
      assert init + [a] == actions;
      PatchesWereAsked(shape, row, init);
      BegunStep(shape, init, Run(shape, row, init), a);
    }
  }

  // ----- field by field -----

  /** `value` is what the last setter said, or the initial value if nobody set it. */
  ghost predicate IsLastSet<T>(initial: T, sets: seq<Option<T>>, value: T) {
    && (forall k :: LastSetter(sets, k) ==> value == sets[k].value)
    && ((forall k :: 0 <= k < |sets| ==> sets[k].None?) ==> value == initial)
  }

  ghost predicate LastSetter<T>(sets: seq<Option<T>>, k: int) {
    0 <= k < |sets| && sets[k].Some? && forall j :: k < j < |sets| ==> sets[j].None?
  }

  lemma {:induction false} LastSetStep<T>(initial: T, sets: seq<Option<T>>, value: T, next: Option<T>)
    requires IsLastSet(initial, sets, value)
    ensures IsLastSet(initial, sets + [next], Or(next, value))
  {
    var all := sets + [next];
    assert all[|sets|] == next && forall k :: 0 <= k < |sets| ==> all[k] == sets[k];
    if next.None? {
      assert forall k :: LastSetter(all, k) ==> LastSetter(sets, k);
      if (forall k :: 0 <= k < |all| ==> all[k].None?) {
        assert forall k :: 0 <= k < |sets| ==> sets[k].None?;
      }
    }
  }

  function Sets<T>(successes: seq<Success>, get: PatchInput -> Option<T>): (sets: seq<Option<T>>)
    ensures |sets| == |successes|
  {
    seq(|successes|, i requires 0 <= i < |successes| => get(successes[i].patch))
  }

  lemma SetsStep<T>(successes: seq<Success>, last: Success, get: PatchInput -> Option<T>)
    ensures Sets(successes + [last], get) == Sets(successes, get) + [get(last.patch)]
  {
  }

  function Lift<T>(o: Option<T>): Option<Option<T>> { if o.Some? then Some(o) else None }

  /** The columns no patch may change. */
  predicate SameIdentity(a: UniformRow, b: UniformRow) {
    && a.id == b.id && a.clientId == b.clientId && a.pseudoId == b.pseudoId
    && a.original == b.original && a.authorService == b.authorService
  }

  function StartOf(p: PatchInput): Option<int> { p.startMs }
  function EndOf(p: PatchInput): Option<int> { p.endMs }
  function FlagsOf(p: PatchInput): Option<Json> { p.flags }
  function AuthorOf(p: PatchInput): Option<Option<PseudoId>> { Lift(p.authorUser) }
  function TextOf(p: PatchInput): Option<Option<string>> { Lift(p.text) }
  function TitleOf(p: PatchInput): Option<Option<string>> { Lift(p.title) }
  function SummaryOf(p: PatchInput): Option<Option<string>> { Lift(p.summary) }
  function ConfidenceOf(p: PatchInput): Option<Option<real>> { p.confidence }

  /** Columns every shape has. */
  ghost predicate SharedFieldsLastSet(row0: UniformRow, successes: seq<Success>, row: UniformRow) {
    && SameIdentity(row0, row)
    && IsLastSet(row0.startMs, Sets(successes, StartOf), row.startMs)
    && IsLastSet(row0.endMs, Sets(successes, EndOf), row.endMs)
    && IsLastSet(row0.flags, Sets(successes, FlagsOf), row.flags)
    && IsLastSet(row0.authorUser, Sets(successes, AuthorOf), row.authorUser)
  }

  /** The natural-text columns of the shape; the other shape's columns never change. */
  ghost predicate ShapeFieldsLastSet(shape: TextShape, row0: UniformRow, successes: seq<Success>, row: UniformRow) {
    match shape
    case Segment =>
      && IsLastSet(row0.text, Sets(successes, TextOf), row.text)
      && IsLastSet(row0.confidence, Sets(successes, ConfidenceOf), row.confidence)
      && row.title == row0.title && row.summary == row0.summary
    case TitleSummary =>
      && IsLastSet(row0.title, Sets(successes, TitleOf), row.title)
      && IsLastSet(row0.summary, Sets(successes, SummaryOf), row.summary)
      && row.text == row0.text && row.confidence == row0.confidence
  }

  lemma {:induction false} FieldStep<T>(initial: T, successes: seq<Success>, value: T, last: Success, get: PatchInput -> Option<T>)
    requires IsLastSet(initial, Sets(successes, get), value)
    ensures IsLastSet(initial, Sets(successes + [last], get), Or(get(last.patch), value))
  {
    hide IsLastSet;
    LastSetStep(initial, Sets(successes, get), value, get(last.patch));
    SetsStep(successes, last, get);
  }

  lemma {:induction false} ApplyPatchFields(shape: TextShape, row0: UniformRow, init: seq<Success>, row: UniformRow, last: Success)
    requires SharedFieldsLastSet(row0, init, row) && ShapeFieldsLastSet(shape, row0, init, row)
    ensures var out := ApplyPatch(shape, row, last.patch, last.tag);
      SharedFieldsLastSet(row0, init + [last], out) && ShapeFieldsLastSet(shape, row0, init + [last], out)
  {
    hide IsLastSet;
    FieldStep(row0.startMs, init, row.startMs, last, StartOf);
    FieldStep(row0.endMs, init, row.endMs, last, EndOf);
    FieldStep(row0.flags, init, row.flags, last, FlagsOf);
    FieldStep(row0.authorUser, init, row.authorUser, last, AuthorOf);
    match shape {
      case Segment =>
        FieldStep(row0.text, init, row.text, last, TextOf);
        FieldStep(row0.confidence, init, row.confidence, last, ConfidenceOf);
      case TitleSummary =>
        FieldStep(row0.title, init, row.title, last, TitleOf);
        FieldStep(row0.summary, init, row.summary, last, SummaryOf);
    }
  }

  lemma UnpatchedFields(shape: TextShape, row: UniformRow)
    ensures SharedFieldsLastSet(row, [], row) && ShapeFieldsLastSet(shape, row, [], row)
  {
  }

  lemma {:induction false} FoldFields(shape: TextShape, row0: UniformRow, successes: seq<Success>)
    requires Fold(shape, row0, successes).Some?
    ensures var row := Fold(shape, row0, successes).value;
      SharedFieldsLastSet(row0, successes, row) && ShapeFieldsLastSet(shape, row0, successes, row)
  {
    hide ApplyPatch, SharedFieldsLastSet, ShapeFieldsLastSet;
    if |successes| == 0 {
      UnpatchedFields(shape, row0);
    } else {
      var init, last := successes[..|successes|-1], successes[|successes|-1];
      FoldFields(shape, row0, init);
      ApplyPatchFields(shape, row0, init, Fold(shape, row0, init).value, last);
      assert init + [last] == successes;
    }
  }

  /**
   Over every run each mutable column holds what the last successful patch that
   set it said, and id, client_id, pseudo_id, original and author_service never change.
   */
  lemma {:induction false} EveryFieldIsLastSet(shape: TextShape, row: UniformRow, actions: seq<Action>)
    ensures var s := Run(shape, row, actions);
      SharedFieldsLastSet(row, s.successes, s.row) && ShapeFieldsLastSet(shape, row, s.successes, s.row)
  {
    hide Run, SharedFieldsLastSet, ShapeFieldsLastSet;
    NoLostUpdate(shape, row, actions);
    FoldFields(shape, row, Run(shape, row, actions).successes);
  }
}
