/**
 src/db/metadata.rs: the ETag-versioned metadata blob of one session, replaced
 and shallow-merged by concurrent handlers.

 Assumed of the database: `FOR UPDATE` locks the row it finds, to commit or
 abort, and locks nothing when it finds none; an upsert is one atomic statement
 that waits for the row lock.
 */
module Metadata {
  import opened Prelude

  /** An opaque revision marker; the generator never repeats one. */
  type Tag = nat
  type TxId = nat

  datatype Json =
    | Null
    | Bool(b: bool)
    | Number(n: real)
    | Text(s: string)
    | Array(items: seq<Json>)
    | Object(fields: map<string, Json>)

  datatype MergeError = BaseNotObject | PatchNotObject | PreconditionFailed(current: Tag)

  /** Top-level keys of the patch win wholesale; null counts as an empty base. */
  function MergeShallow(base: Json, patch: Json): (r: Result<Json, MergeError>)
    ensures r.Ok? <==> (base.Object? || base.Null?) && patch.Object?
    ensures r.Ok? ==> r.value.Object?
  {
    if !base.Object? && !base.Null? then Err(BaseNotObject)
    else if !patch.Object? then Err(PatchNotObject)
    else Ok(Object((if base.Object? then base.fields else map[]) + patch.fields))
  }

  /** The insertion loop of `merge_shallow`, key by key. */
  method MergeInto(base: Json, patch: Json) returns (r: Result<Json, MergeError>)
    ensures r == MergeShallow(base, patch)
  {
    var merged: map<string, Json>;
    match base {
      case Object(m) => merged := m;
      case Null => merged := map[];
      case _ => return Err(BaseNotObject);
    }
    match patch {
      case Object(p) =>
        ghost var start := merged;
        var rest := p.Keys;
        while rest != {}
          invariant rest <= p.Keys
          invariant merged.Keys == start.Keys + (p.Keys - rest)
          invariant forall k :: k in merged ==> merged[k] == if k in p && k !in rest then p[k] else start[k]
          decreases |rest|
        {
          var k :| k in rest;
          merged := merged[k := p[k]];
          rest := rest - {k};
        }
        assert merged == start + p;
        r := Ok(Object(merged));
      case _ => r := Err(PatchNotObject);
    }
  }

  /** Merging p and then q is merging their own shallow merge. */
  lemma {:induction false} MergesCompose(base: Json, p: Json, q: Json)
    requires (base.Object? || base.Null?) && p.Object? && q.Object?
    ensures MergeShallow(MergeShallow(base, p).value, q) == MergeShallow(base, MergeShallow(p, q).value)
  {
    var m := if base.Object? then base.fields else map[];
    assert (m + p.fields) + q.fields == m + (p.fields + q.fields);
  }

  // ----- concurrent replaces and merges -----

  datatype Blob = Blob(value: Json, etag: Tag)

  datatype Request = Replace(value: Json) | Merge(expected: Option<Tag>, patch: Json)

  datatype Phase =
    | Begun
    | Read(seen: Option<Blob>)
    | Merged(value: Json, holdsLock: bool)
    | Done(blob: Blob)
    | Failed(error: MergeError)
    | Died
  {
    predicate Holds() { (Read? && seen.Some?) || (Merged? && holdsLock) }
  }

  datatype Handler = Handler(req: Request, phase: Phase)

  /** A committed write with the tag it issued. */
  datatype Commitment = Commitment(req: Request, tag: Tag)

  datatype State = State(blob: Option<Blob>, lock: Option<TxId>, handlers: map<TxId, Handler>, nextTag: Tag, commits: seq<Commitment>)

  datatype Action =
    | Begin(t: TxId, req: Request)
    | SelectForUpdate(t: TxId)
    | Compute(t: TxId)
    | Write(t: TxId)
    | Crash(t: TxId)

  /** No handler under way; tags issued so far are below the next one. */
  ghost predicate Quiet(s: State) {
    s.lock == None && s.handlers == map[] && s.commits == [] && (s.blob.Some? ==> s.blob.value.etag < s.nextTag)
  }

  function Move(s: State, t: TxId, phase: Phase): State
    requires t in s.handlers
  {
    s.(handlers := s.handlers[t := s.handlers[t].(phase := phase)])
  }

  /** Compare tags, then merge into what was read; a missing row is an empty object under a tag nobody knows. */
  function AfterCompute(s: State, t: TxId, expected: Option<Tag>, patch: Json, seen: Option<Blob>): State
    requires t in s.handlers
  {
    var base := if seen.Some? then seen.value.value else Object(map[]);
    var current := if seen.Some? then seen.value.etag else s.nextTag;
    var issued := if seen.Some? then s else s.(nextTag := s.nextTag + 1);
    var released := if seen.Some? then issued.(lock := None) else issued;
    if expected.Some? && (seen.None? || expected.value != current) then Move(released, t, Failed(PreconditionFailed(current)))
    else match MergeShallow(base, patch)
      case Err(e) => Move(released, t, Failed(e))
      case Ok(merged) => Move(issued, t, Merged(merged, seen.Some?))
  }

  /** The upsert and the commit: blob and tag change together. */
  function AfterWrite(s: State, t: TxId, value: Json): State
    requires t in s.handlers
  {
    var blob := Blob(value, s.nextTag);
    Move(s.(blob := Some(blob), lock := None, nextTag := s.nextTag + 1,
            commits := s.commits + [Commitment(s.handlers[t].req, s.nextTag)]), t, Done(blob))
  }

  function Step(s: State, a: Action): State {
    if a.Begin? then
      if a.t in s.handlers then s else s.(handlers := s.handlers[a.t := Handler(a.req, Begun)])
    else if a.t !in s.handlers then s
    else
      var h := s.handlers[a.t];
      match (a, h.req, h.phase)
      case (Write(t), Replace(value), Begun) => if s.lock.Some? then s else AfterWrite(s, t, value)
      case (SelectForUpdate(t), Merge(_, _), Begun) =>
        if s.blob.None? then Move(s, t, Read(None))
        else if s.lock.Some? then s
        else Move(s.(lock := Some(t)), t, Read(s.blob))
      case (Compute(t), Merge(expected, patch), Read(seen)) => AfterCompute(s, t, expected, patch, seen)
      case (Write(t), Merge(_, _), Merged(value, holds)) =>
        if s.lock.Some? && !holds then s else AfterWrite(s, t, value)
      case (Crash(t), _, Begun) => Move(s, t, Died)
      case (Crash(t), _, Read(_)) => Move(if h.phase.Holds() then s.(lock := None) else s, t, Died)
      case (Crash(t), _, Merged(_, _)) => Move(if h.phase.Holds() then s.(lock := None) else s, t, Died)
      case _ => s
  }

  function Run(s: State, actions: seq<Action>): State {
    if |actions| == 0 then s else Step(Run(s, actions[..|actions|-1]), actions[|actions|-1])
  }

  // ----- the committed writes as one sequence -----

  /** The committed writes applied one after another, each merge to the version before it. */
  function Fold(initial: Option<Blob>, commits: seq<Commitment>): Option<Blob> {
    if |commits| == 0 then initial
    else
      var before := Fold(initial, commits[..|commits|-1]);
      var last := commits[|commits|-1];
      match last.req
      case Replace(value) => Some(Blob(value, last.tag))
      case Merge(expected, patch) =>
        var base := if before.Some? then before.value.value else Object(map[]);
        match MergeShallow(base, patch)
        case Err(_) => before
        case Ok(merged) => Some(Blob(merged, last.tag))
  }

  /** Every committed merge met the version it asked for, and really merged. */
  ghost predicate MergeMet(initial: Option<Blob>, commits: seq<Commitment>, i: nat)
    requires i < |commits|
  {
    commits[i].req.Merge? ==>
      var before := Fold(initial, commits[..i]);
      && (commits[i].req.expected.Some? ==> before.Some? && before.value.etag == commits[i].req.expected.value)
      && MergeShallow(if before.Some? then before.value.value else Object(map[]), commits[i].req.patch).Ok?
  }

  ghost predicate NoUpdateLost(s0: State, s: State) {
    && s.blob == Fold(s0.blob, s.commits)
    && forall i :: 0 <= i < |s.commits| ==> MergeMet(s0.blob, s.commits, i)
  }

  /** Once the row exists every reader of it holds the lock, so what it read is what is stored. */
  ghost predicate HandlerOk(s: State, t: TxId)
    requires t in s.handlers
  {
    var h := s.handlers[t];
    && (h.phase.Holds() ==> s.lock == Some(t))
    && (h.phase.Read? ==> h.req.Merge? && h.phase.seen == s.blob)
    && (h.phase.Merged? ==>
          && h.req.Merge? && h.phase.holdsLock && s.blob.Some?
          && MergeShallow(s.blob.value.value, h.req.patch) == Ok(h.phase.value)
          && (h.req.expected.Some? ==> h.req.expected.value == s.blob.value.etag))
  }

  ghost predicate TagsGrow(commits: seq<Commitment>, next: Tag) {
    && (forall i :: 0 <= i < |commits| ==> commits[i].tag < next)
    && (forall i, j :: 0 <= i < j < |commits| ==> commits[i].tag < commits[j].tag)
  }

  ghost predicate Inv(s0: State, s: State) {
    && s.blob.Some? && s.blob.value.etag < s.nextTag
    && s0.nextTag <= s.nextTag
    && (forall i :: 0 <= i < |s.commits| ==> s0.nextTag <= s.commits[i].tag)
    && TagsGrow(s.commits, s.nextTag)
    && (forall t :: t in s.handlers ==> HandlerOk(s, t))
    && (s.lock.Some? ==> s.lock.value in s.handlers && s.handlers[s.lock.value].phase.Holds())
    && NoUpdateLost(s0, s)
  }

  lemma {:induction false} CommitFolds(s0: State, s: State, c: Commitment, blob: Blob)
    requires NoUpdateLost(s0, s) && blob.etag == c.tag
    requires match c.req
             case Replace(value) => blob.value == value
             case Merge(expected, patch) =>
               && s.blob.Some? && MergeShallow(s.blob.value.value, patch) == Ok(blob.value)
               && (expected.Some? ==> expected.value == s.blob.value.etag)
    ensures Fold(s0.blob, s.commits + [c]) == Some(blob)
    ensures forall i :: 0 <= i < |s.commits| + 1 ==> MergeMet(s0.blob, s.commits + [c], i)
  {
    hide MergeShallow;
    var all := s.commits + [c];
    assert all[..|s.commits|] == s.commits;
    forall i | 0 <= i < |s.commits| ensures MergeMet(s0.blob, all, i) {
      assert MergeMet(s0.blob, s.commits, i) && all[..i] == s.commits[..i];
    }
  }

  lemma {:induction false} WriteKeeps(s0: State, s: State, t: TxId, value: Json)
    requires Inv(s0, s) && t in s.handlers
    requires s.lock == None || s.lock == Some(t)
    requires match s.handlers[t].req
             case Replace(v) => value == v && s.lock == None
             case Merge(_, _) => s.handlers[t].phase.Merged? && value == s.handlers[t].phase.value
    ensures Inv(s0, AfterWrite(s, t, value))
  {
    hide MergeShallow, Fold, MergeMet;
    var after := AfterWrite(s, t, value);
    assert HandlerOk(s, t);
    CommitFolds(s0, s, Commitment(s.handlers[t].req, s.nextTag), Blob(value, s.nextTag));
    forall u | u in after.handlers ensures HandlerOk(after, u) {
      assert HandlerOk(s, u);
    }
  }

  lemma {:induction false} ComputeKeeps(s0: State, s: State, t: TxId, expected: Option<Tag>, patch: Json, seen: Option<Blob>)
    requires Inv(s0, s) && t in s.handlers
    requires s.handlers[t].req == Merge(expected, patch) && s.handlers[t].phase == Read(seen)
    ensures Inv(s0, AfterCompute(s, t, expected, patch, seen))
  {
    hide MergeShallow, Fold, MergeMet;
    var after := AfterCompute(s, t, expected, patch, seen);
    assert HandlerOk(s, t);
    forall u | u in after.handlers ensures HandlerOk(after, u) {
      assert HandlerOk(s, u);
    }
  }

  lemma {:induction false} StepKeeps(s0: State, s: State, a: Action)
    requires Inv(s0, s)
    ensures Inv(s0, Step(s, a))
  {
    hide MergeShallow, Fold, MergeMet, AfterCompute, AfterWrite;
    var after := Step(s, a);
    if a.t in s.handlers {
      assert HandlerOk(s, a.t);
      var h := s.handlers[a.t];
      if a.Write? && after != s {
        WriteKeeps(s0, s, a.t, if h.req.Replace? then h.req.value else h.phase.value);
        return;
      } else if a.Compute? && after != s {
        ComputeKeeps(s0, s, a.t, h.req.expected, h.req.patch, h.phase.seen);
        return;
      }
    }
    forall u | u in after.handlers ensures HandlerOk(after, u) {
      if u in s.handlers { assert HandlerOk(s, u); }
    }
  }

  lemma {:induction false} RunKeeps(s0: State, actions: seq<Action>)
    requires Quiet(s0) && s0.blob.Some?
    ensures Inv(s0, Run(s0, actions))
  {
    if |actions| > 0 {
      RunKeeps(s0, actions[..|actions|-1]);
      StepKeeps(s0, Run(s0, actions[..|actions|-1]), actions[|actions|-1]);
    }
  }

  // ----- no lost update, exactly when the row exists -----

  lemma {:induction false} TwoStepsMore(s: State, done: seq<Action>, a: Action, b: Action)
    ensures Run(s, done + [a, b]) == Step(Step(Run(s, done), a), b)
  {
    hide Step;
    var all := done + [a, b];
    assert all[..|all|-1] == done + [a] && (done + [a])[..|done|] == done;
  }

  /** Two merges that both find no row: the second one to write erases the first one's keys. */
  function RaceOnMissingRow(p: Json, q: Json): seq<Action> {
    [] + [Begin(0, Merge(None, p)), Begin(1, Merge(None, q))]
    + [SelectForUpdate(0), SelectForUpdate(1)]
    + [Compute(0), Compute(1)]
    + [Write(0), Write(1)]
  }

  /** Two merges have begun and found no row. */
  lemma {:induction false} RaceReads(s0: State, p: Json, q: Json) returns (actions: seq<Action>)
    requires Quiet(s0) && s0.blob.None?
    ensures actions + [Compute(0), Compute(1)] + [Write(0), Write(1)] == RaceOnMissingRow(p, q)
    ensures Run(s0, actions) ==
      State(None, None, map[0 := Handler(Merge(None, p), Read(None)), 1 := Handler(Merge(None, q), Read(None))], s0.nextTag, [])
  {
    hide Run;
    StartIsRun(s0);
    TwoStepsMore(s0, [], Begin(0, Merge(None, p)), Begin(1, Merge(None, q)));
    actions := [] + [Begin(0, Merge(None, p)), Begin(1, Merge(None, q))];
    assert Run(s0, actions) ==
      State(None, None, map[0 := Handler(Merge(None, p), Begun), 1 := Handler(Merge(None, q), Begun)], s0.nextTag, []);
    TwoStepsMore(s0, actions, SelectForUpdate(0), SelectForUpdate(1));
    actions := actions + [SelectForUpdate(0), SelectForUpdate(1)];
  }

  /** Both have computed their merge, and neither holds a lock. */
  lemma {:induction false} RaceIsOn(s0: State, p: Json, q: Json) returns (actions: seq<Action>)
    requires Quiet(s0) && s0.blob.None? && p.Object? && q.Object?
    ensures actions + [Write(0), Write(1)] == RaceOnMissingRow(p, q)
    ensures Run(s0, actions) ==
      State(None, None, map[0 := Handler(Merge(None, p), Merged(p, false)), 1 := Handler(Merge(None, q), Merged(q, false))],
            s0.nextTag + 2, [])
  {
    hide Run, MergeShallow, RaceOnMissingRow;
    actions := RaceReads(s0, p, q);
    TwoStepsMore(s0, actions, Compute(0), Compute(1));
    actions := actions + [Compute(0), Compute(1)];
    EmptyBase(p);
    EmptyBase(q);
  }

  lemma {:induction false} MergesRaceOnMissingRow(s0: State, p: Json, q: Json, k: string)
    requires Quiet(s0) && s0.blob.None?
    requires p.Object? && q.Object? && k in p.fields && k !in q.fields
    ensures !NoUpdateLost(s0, Run(s0, RaceOnMissingRow(p, q)))
  {
    hide Run, RaceOnMissingRow, MergeShallow, Fold, MergeMet;
    var actions := RaceIsOn(s0, p, q);
    TwoStepsMore(s0, actions, Write(0), Write(1));
    var s := Run(s0, RaceOnMissingRow(p, q));
    var c0, c1 := Commitment(Merge(None, p), s0.nextTag + 2), Commitment(Merge(None, q), s0.nextTag + 3);
    assert s.blob == Some(Blob(q, s0.nextTag + 3)) && s.commits == [c0, c1];
    RaceFold(c0, c1, k);
  }

  lemma StartIsRun(s: State)
    ensures Run(s, []) == s
  {
  }

  lemma {:induction false} EmptyBase(p: Json)
    requires p.Object?
    ensures MergeShallow(Object(map[]), p) == Ok(p)
  {
    assert map[] + p.fields == p.fields;
  }

  lemma {:induction false} RaceFold(c0: Commitment, c1: Commitment, k: string)
    requires c0.req.Merge? && c1.req.Merge? && c0.req.patch.Object? && c1.req.patch.Object?
    requires k in c0.req.patch.fields
    ensures Fold(None, [c0, c1]).Some? && Fold(None, [c0, c1]).value.value.Object?
    ensures k in Fold(None, [c0, c1]).value.value.fields
  {
    assert [c0, c1][..1] == [c0] && [c0][..0] == [];
    EmptyBase(c0.req.patch);
    assert Fold(None, [c0]) == Some(Blob(c0.req.patch, c0.tag));
  }

  /**
   From a quiet start, no run loses an update (the stored blob is the fold of the
   committed writes, each merge applied to the version it asked for) if and only
   if the metadata row already exists: a merge that finds no row locks nothing.
   */
  lemma {:induction false} NoUpdateLostIffRowExists(s0: State)
    requires Quiet(s0)
    ensures (forall actions :: NoUpdateLost(s0, Run(s0, actions))) <==> s0.blob.Some?
  {
    hide NoUpdateLost, Run;
    if s0.blob.Some? {
      forall actions ensures NoUpdateLost(s0, Run(s0, actions)) {
        RunKeeps(s0, actions);
      }
    } else {
      var p, q := Object(map["" := Null]), Object(map[]);
      MergesRaceOnMissingRow(s0, p, q, "");
    }
  }

  // ----- which write each key comes from -----

  function KeyValue(value: Json, k: string): Option<Json> {
    if value.Object? && k in value.fields then Some(value.fields[k]) else None
  }

  /** A replace determines every key, a merge the keys it names. */
  predicate Determines(c: Commitment, k: string) {
    c.req.Replace? || (c.req.patch.Object? && k in c.req.patch.fields)
  }

  function Says(c: Commitment, k: string): Option<Json> {
    match c.req
    case Replace(value) => KeyValue(value, k)
    case Merge(_, patch) => KeyValue(patch, k)
  }

  ghost predicate LastToDetermine(commits: seq<Commitment>, i: int, k: string) {
    && 0 <= i < |commits| && Determines(commits[i], k)
    && forall j :: i < j < |commits| ==> !Determines(commits[j], k)
  }

  ghost predicate KeyFromLast(initial: Blob, commits: seq<Commitment>, now: Json, k: string) {
    && (forall i :: LastToDetermine(commits, i, k) ==> KeyValue(now, k) == Says(commits[i], k))
    && ((forall i :: 0 <= i < |commits| ==> !Determines(commits[i], k)) ==> KeyValue(now, k) == KeyValue(initial.value, k))
  }

  lemma {:induction false} KeyStep(initial: Blob, commits: seq<Commitment>, before: Json, c: Commitment, after: Json, k: string)
    requires KeyFromLast(initial, commits, before, k)
    requires KeyValue(after, k) == if Determines(c, k) then Says(c, k) else KeyValue(before, k)
    ensures KeyFromLast(initial, commits + [c], after, k)
  {
    hide KeyValue, Determines, Says;
    var all := commits + [c];
    assert all[|commits|] == c && forall i :: 0 <= i < |commits| ==> all[i] == commits[i];
    if !Determines(c, k) {
      assert forall i :: LastToDetermine(all, i, k) ==> LastToDetermine(commits, i, k);
      if (forall i :: 0 <= i < |all| ==> !Determines(all[i], k)) {
        assert forall i :: 0 <= i < |commits| ==> !Determines(commits[i], k);
      }
    }
  }

  lemma {:induction false} FoldKeys(initial: Blob, commits: seq<Commitment>, k: string)
    requires forall i :: 0 <= i < |commits| ==> MergeMet(Some(initial), commits, i)
    ensures Fold(Some(initial), commits).Some?
    ensures KeyFromLast(initial, commits, Fold(Some(initial), commits).value.value, k)
  {
    if |commits| > 0 {
      var n := |commits| - 1;
      var init, last := commits[..n], commits[n];
      forall i | 0 <= i < n ensures MergeMet(Some(initial), init, i) {
        assert MergeMet(Some(initial), commits, i) && init[..i] == commits[..i];
      }
      FoldKeys(initial, init, k);
      assert MergeMet(Some(initial), commits, n);
      KeyStep(initial, init, Fold(Some(initial), init).value.value, last, Fold(Some(initial), commits).value.value, k);
      assert init + [last] == commits;
    }
  }

  /**
   On an existing row, after any run, the value at each key is what the last
   committed write determining it said: a merge naming the key, or a replace.
   */
  lemma {:induction false} EachKeyFromItsLastWrite(s0: State, actions: seq<Action>, k: string)
    requires Quiet(s0) && s0.blob.Some?
    ensures var s := Run(s0, actions);
      s.blob.Some? && KeyFromLast(s0.blob.value, s.commits, s.blob.value.value, k)
  {
    hide Run, MergeMet, Fold, KeyFromLast;
    RunKeeps(s0, actions);
    FoldKeys(s0.blob.value, Run(s0, actions).commits, k);
  }

  /** Right after a replace the blob is the given value whole, whatever its type; after a merge it is an object. */
  lemma {:induction false} LastWriteStands(s0: State, actions: seq<Action>)
    requires Quiet(s0) && s0.blob.Some? && |Run(s0, actions).commits| > 0
    ensures var s := Run(s0, actions);
      var last := s.commits[|s.commits|-1];
      && s.blob.Some? && s.blob.value.etag == last.tag
      && (last.req.Replace? ==> s.blob.value.value == last.req.value)
      && (last.req.Merge? ==> s.blob.value.value.Object?)
  {
    hide Run;
    RunKeeps(s0, actions);
    var s := Run(s0, actions);
    assert MergeMet(s0.blob, s.commits, |s.commits| - 1);
  }

  /** A merge that has read is refused exactly for a tag that was not met, a base that is no object, or a patch that is none. */
  lemma {:induction false} MergeDecides(s: State, t: TxId, expected: Option<Tag>, patch: Json, seen: Option<Blob>)
    requires t in s.handlers && s.handlers[t] == Handler(Merge(expected, patch), Read(seen))
    ensures var after := Step(s, Compute(t));
      var unmet := expected.Some? && (seen.None? || expected.value != seen.value.etag);
      var badBase := seen.Some? && !seen.value.value.Object? && !seen.value.value.Null?;
      && after.blob == s.blob && after.commits == s.commits && t in after.handlers
      && var phase := after.handlers[t].phase;
         && (phase.Failed? && phase.error.PreconditionFailed? <==> unmet)
         && (phase.Failed? && phase.error.PreconditionFailed? && seen.Some? ==> phase.error.current == seen.value.etag)
         && (phase == Failed(BaseNotObject) <==> !unmet && badBase)
         && (phase == Failed(PatchNotObject) <==> !unmet && !badBase && !patch.Object?)
         && (phase.Merged? <==> !unmet && !badBase && patch.Object?)
  {
  }

  // ----- nobody writes what was not asked for -----

  ghost predicate WasBegun(actions: seq<Action>, t: TxId, req: Request) {
    exists k :: 0 <= k < |actions| && actions[k] == Begin(t, req)
  }

  ghost predicate CommitWasBegun(actions: seq<Action>, c: Commitment) { exists t :: WasBegun(actions, t, c.req) }

  lemma {:induction false} StillBegun(actions: seq<Action>, a: Action, t: TxId, req: Request)
    requires WasBegun(actions, t, req) || a == Begin(t, req)
    ensures WasBegun(actions + [a], t, req)
  {
    var all := actions + [a];
    if a == Begin(t, req) {
      assert all[|actions|] == a;
    } else {
      var k :| 0 <= k < |actions| && actions[k] == Begin(t, req);
      assert all[k] == actions[k];
    }
  }

  lemma StepOrigins(s: State, a: Action)
    ensures var after := Step(s, a);
      && (forall t :: t in after.handlers ==>
            (t in s.handlers && after.handlers[t].req == s.handlers[t].req) || a == Begin(t, after.handlers[t].req))
      && (after.commits != s.commits ==>
            && a.Write? && a.t in s.handlers && |after.commits| == |s.commits| + 1
            && after.commits[..|s.commits|] == s.commits && after.commits[|s.commits|].req == s.handlers[a.t].req)
  {
    hide MergeShallow;
  }

  /** Every handler and every committed write is one that some caller began with. */
  ghost predicate WritesBegun(actions: seq<Action>, s: State) {
    && (forall t :: t in s.handlers ==> WasBegun(actions, t, s.handlers[t].req))
    && (forall i :: 0 <= i < |s.commits| ==> CommitWasBegun(actions, s.commits[i]))
  }

  lemma {:induction false} BegunStep(actions: seq<Action>, s: State, a: Action)
    requires WritesBegun(actions, s)
    ensures WritesBegun(actions + [a], Step(s, a))
  {
    hide Step, WasBegun;
    var after := Step(s, a);
    StepOrigins(s, a);
    forall t | t in after.handlers ensures WasBegun(actions + [a], t, after.handlers[t].req) {
      StillBegun(actions, a, t, after.handlers[t].req);
    }
    forall i | 0 <= i < |after.commits| ensures CommitWasBegun(actions + [a], after.commits[i]) {
      var t := a.t;
      if i < |s.commits| {
        assert after.commits[i] == s.commits[i] && CommitWasBegun(actions, s.commits[i]);
        t :| WasBegun(actions, t, s.commits[i].req);
      }
      StillBegun(actions, a, t, after.commits[i].req);
    }
  }

  lemma {:induction false} WritesWereAsked(s0: State, actions: seq<Action>)
    requires Quiet(s0)
    ensures WritesBegun(actions, Run(s0, actions))
  {
    hide Step;
    if |actions| > 0 {
      var init, a := actions[..|actions|-1], actions[|actions|-1];
      assert init + [a] == actions;
      WritesWereAsked(s0, init);
      BegunStep(init, Run(s0, init), a);
    }
  }

  // ----- one If-Match merge per tag -----

  lemma {:induction false} TagBefore(initial: Blob, commits: seq<Commitment>, i: nat)
    requires i < |commits|
    requires forall j :: 0 <= j < |commits| ==> MergeMet(Some(initial), commits, j)
    ensures Fold(Some(initial), commits[..i]).Some?
    ensures Fold(Some(initial), commits[..i]).value.etag == if i == 0 then initial.etag else commits[i-1].tag
    decreases i
  {
    hide MergeShallow;
    if i > 0 {
      TagBefore(initial, commits, i - 1);
      assert MergeMet(Some(initial), commits, i - 1);
      assert commits[..i][..i-1] == commits[..i-1];
    }
  }

  /** On an existing row at most one merge conditional on a given tag ever commits. */
  lemma {:induction false} OneMergePerTag(s0: State, actions: seq<Action>, i: nat, j: nat)
    requires Quiet(s0) && s0.blob.Some?
    requires var commits := Run(s0, actions).commits;
      && i < |commits| && j < |commits| && commits[i].req.Merge? && commits[j].req.Merge?
      && commits[i].req.expected.Some? && commits[i].req.expected == commits[j].req.expected
    ensures i == j
  {
    hide Run, Fold, MergeShallow;
    RunKeeps(s0, actions);
    var commits := Run(s0, actions).commits;
    assert MergeMet(s0.blob, commits, i) && MergeMet(s0.blob, commits, j);
    TagBefore(s0.blob.value, commits, i);
    TagBefore(s0.blob.value, commits, j);
  }

  // ----- the handlers -----

  /** What a key holds after a merge: the patch's value if it names the key, else what was there. */
  function Overlaid(before: Option<Blob>, patch: Json, k: string): Option<Json> {
    if KeyValue(patch, k).Some? then KeyValue(patch, k)
    else if before.Some? then KeyValue(before.value.value, k)
    else None
  }

  class MetadataRow {
    var blob: Option<Blob>
    var nextTag: Tag

    /** Last write wins, under a fresh tag. */
    method Replace(value: Json) returns (written: Blob)
      modifies this
      ensures blob == Some(written) == Fold(old(blob), [Commitment(Request.Replace(value), written.etag)])
      ensures written.value == value && old(nextTag) <= written.etag < nextTag
    {
      written := Blob(value, nextTag);
      ghost var c := [Commitment(Request.Replace(value), nextTag)];
      assert c[..0] == [];
      blob := Some(written);
      nextTag := nextTag + 1;
    }

    /** The outcome of a merge that no other handler overlaps. */
    method ShallowMerge(expected: Option<Tag>, patch: Json) returns (r: Result<Blob, MergeError>)
      modifies this
      ensures r.Ok? ==> blob == Some(r.value) == Fold(old(blob), [Commitment(Merge(expected, patch), r.value.etag)])
      ensures r.Ok? ==> old(nextTag) <= r.value.etag < nextTag
      ensures r.Ok? <==> MergeMet(old(blob), [Commitment(Merge(expected, patch), 0)], 0)
      ensures r.Err? ==> blob == old(blob)
      ensures r.Err? && r.error.PreconditionFailed? <==>
        expected.Some? && expected != (if old(blob).Some? then Some(old(blob).value.etag) else None)
      ensures r.Err? && r.error.PreconditionFailed? ==>
        r.error.current == if old(blob).Some? then old(blob).value.etag else old(nextTag)
      ensures r.Ok? ==> r.value.value.Object?
      ensures r.Ok? ==> forall k :: KeyValue(r.value.value, k) == Overlaid(old(blob), patch, k)
    {
      ghost var one := Commitment(Merge(expected, patch), 0);
      assert [one][..0] == [] && forall tag :: [one.(tag := tag)][..0] == [];
      var base, current := Object(map[]), nextTag;
      if blob.Some? {
        base, current := blob.value.value, blob.value.etag;
      } else {
        nextTag := nextTag + 1;
      }
      if expected.Some? && (blob.None? || expected.value != current) {
        return Err(PreconditionFailed(current));
      }
      var merged := MergeInto(base, patch);
      if merged.Err? {
        return Err(merged.error);
      }
      var written := Blob(merged.value, nextTag);
      blob := Some(written);
      nextTag := nextTag + 1;
      r := Ok(written);
    }
  }
}
