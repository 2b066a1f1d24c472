/**
 src/db/uniform.rs: concurrent bulk inserts into one session's table.

 Assumed of the database: a statement sees committed rows and its own
 transaction's; UNIQUE (session_id, client_id) makes an insert fail against a
 committed row or an own one and wait for another transaction's uncommitted one.
 */
module BulkInsert {
  import opened Prelude
  import opened Ids
  import opened UniformRows

  type TxId = nat

  datatype CreateInput = CreateInput(
    clientId: string,
    startMs: int,
    endMs: int,
    pseudoId: Option<PseudoId>,
    text: Option<string>,
    title: Option<string>,
    summary: Option<string>,
    confidence: Option<real>,
    flags: Option<Json>,
    original: Option<Json>,
    authorUser: Option<PseudoId>)

  datatype InsertError = BadRequest(clientId: string) | UniqueViolation | AuthorRefused | SpeakerRefused

  /** The shape needs its natural-text column, and the range must not be reversed. */
  predicate IsValid(shape: TextShape, i: CreateInput) {
    && (shape.Segment? ==> i.text.Some?)
    && (shape.TitleSummary? ==> i.title.Some?)
    && i.startMs <= i.endMs
  }

  ghost predicate FirstInvalid(shape: TextShape, inputs: seq<CreateInput>, k: int) {
    0 <= k < |inputs| && !IsValid(shape, inputs[k]) && forall i :: 0 <= i < k ==> IsValid(shape, inputs[i])
  }

  /** The first invalid input is reported. */
  function Validate(shape: TextShape, inputs: seq<CreateInput>): (r: Result<(), InsertError>)
    ensures r.Ok? <==> forall i :: 0 <= i < |inputs| ==> IsValid(shape, inputs[i])
    ensures r.Err? ==> exists k :: FirstInvalid(shape, inputs, k) && r.error == BadRequest(inputs[k].clientId)
  {
    if |inputs| == 0 then Ok(())
    else
      match Validate(shape, inputs[..|inputs|-1])
      case Err(e) =>
        assert forall k :: FirstInvalid(shape, inputs[..|inputs|-1], k) ==> FirstInvalid(shape, inputs, k);
        Err(e)
      case Ok(_) =>
        assert !IsValid(shape, inputs[|inputs|-1]) ==> FirstInvalid(shape, inputs, |inputs| - 1);
        if IsValid(shape, inputs[|inputs|-1]) then Ok(()) else Err(BadRequest(inputs[|inputs|-1].clientId))
  }

  /** The inserted row; defaults as the INSERT and the row decoder fill them in. */
  function NewRow(shape: TextShape, author: string, i: CreateInput, tag: Tag): UniformRow {
    var common := UniformRow(tag, i.clientId, None, i.startMs, i.endMs, None, None, None, None,
                             Or(i.flags, "{}"), i.original, tag, author, i.authorUser);
    match shape
    case Segment => common.(pseudoId := i.pseudoId, text := Some(Or(i.text, "")), confidence := i.confidence)
    case TitleSummary => common.(title := Some(Or(i.title, "")), summary := Some(Or(i.summary, "")))
  }

  /** An author must be a user, and so must a segment's speaker. */
  predicate Storable(shape: TextShape, i: CreateInput) {
    NamesUser(i.authorUser) && (shape.Segment? ==> NamesUser(i.pseudoId))
  }

  /** The row of an input that may be stored is one that can be read back. */
  lemma NewRowReadable(shape: TextShape, author: string, i: CreateInput, tag: Tag)
    ensures Readable(shape, NewRow(shape, author, i, tag)) <==> Storable(shape, i)
  {
  }

  ghost predicate AllReadable(shape: TextShape, rows: seq<UniformRow>) {
    forall i :: 0 <= i < |rows| ==> Readable(shape, rows[i])
  }

  /** Column by column, what an input leaves in the table. */
  ghost predicate StoredAs(shape: TextShape, row: UniformRow, author: string, i: CreateInput) {
    && row.clientId == i.clientId && row.startMs == i.startMs && row.endMs == i.endMs
    && row.authorService == author && row.authorUser == i.authorUser && row.original == i.original
    && row.flags == (if i.flags.Some? then i.flags.value else "{}")
    && match shape
       case Segment =>
         && row.pseudoId == i.pseudoId && row.confidence == i.confidence
         && row.text == Some(if i.text.Some? then i.text.value else "")
         && row.title == None && row.summary == None
       case TitleSummary =>
         && row.title == Some(if i.title.Some? then i.title.value else "")
         && row.summary == Some(if i.summary.Some? then i.summary.value else "")
         && row.pseudoId == None && row.text == None && row.confidence == None
  }

  lemma NewRowStored(shape: TextShape, author: string, i: CreateInput, tag: Tag)
    ensures var row := NewRow(shape, author, i, tag);
      StoredAs(shape, row, author, i) && row.id == row.etag == tag
  {
  }

  predicate HasClient(rows: seq<UniformRow>, clientId: string) {
    exists i | 0 <= i < |rows| :: rows[i].clientId == clientId
  }

  predicate Submitted(inputs: seq<CreateInput>, clientId: string) {
    exists i | 0 <= i < |inputs| :: inputs[i].clientId == clientId
  }

  /** `SELECT client_id ... = ANY(submitted)`. */
  function Existing(rows: seq<UniformRow>, inputs: seq<CreateInput>): (ids: seq<string>)
    ensures forall id :: id in ids <==> HasClient(rows, id) && Submitted(inputs, id)
  {
    if |rows| == 0 then []
    else
      var last := rows[|rows|-1].clientId;
      Existing(rows[..|rows|-1], inputs) + (if Submitted(inputs, last) then [last] else [])
  }

  function NotIn(inputs: seq<CreateInput>, existing: seq<string>): seq<CreateInput> {
    if |inputs| == 0 then []
    else NotIn(inputs[..|inputs|-1], existing) +
         (if inputs[|inputs|-1].clientId in existing then [] else [inputs[|inputs|-1]])
  }

  // ----- concurrent calls -----

  datatype Phase =
    | Begun
    | Inserting(existing: seq<string>, todo: seq<CreateInput>, overlay: seq<UniformRow>)
    | Done(inserted: seq<UniformRow>, deduplicated: seq<string>)
    | Failed(error: InsertError)
    | Died

  datatype Call = Call(author: string, inputs: seq<CreateInput>, phase: Phase)

  /** A committed call with what it reported. */
  datatype Accepted = Accepted(author: string, inputs: seq<CreateInput>, inserted: seq<UniformRow>, deduplicated: seq<string>)

  datatype State = State(table: seq<UniformRow>, calls: map<TxId, Call>, nextTag: Tag, accepted: seq<Accepted>)

  datatype Action =
    | Begin(t: TxId, author: string, inputs: seq<CreateInput>)
    | Select(t: TxId)
    | InsertNext(t: TxId)
    | Commit(t: TxId)
    | Crash(t: TxId)

  const EMPTY := State([], map[], 0, [])

  function Move(s: State, t: TxId, phase: Phase): State
    requires t in s.calls
  {
    s.(calls := s.calls[t := s.calls[t].(phase := phase)])
  }

  function Overlay(c: Call): seq<UniformRow> { if c.phase.Inserting? then c.phase.overlay else [] }

  /** Another transaction holds the key uncommitted, so the insert waits. */
  predicate Blocked(s: State, t: TxId, clientId: string) {
    exists u | u in s.calls :: u != t && HasClient(Overlay(s.calls[u]), clientId)
  }

  function AfterBegin(shape: TextShape, s: State, a: Action): State
    requires a.Begin?
  {
    var phase :=
      if |a.inputs| == 0 then Done([], [])
      else match Validate(shape, a.inputs)
           case Ok(_) => Begun
           case Err(e) => Failed(e);
    s.(calls := s.calls[a.t := Call(a.author, a.inputs, phase)])
  }

  /** The INSERT checks the author, then the key; the row it returns is decoded, which checks a segment's speaker. */
  function AfterInsert(shape: TextShape, s: State, t: TxId): State
    requires t in s.calls && s.calls[t].phase.Inserting? && |s.calls[t].phase.todo| > 0
  {
    var c := s.calls[t];
    var next := c.phase.todo[0];
    if !NamesUser(next.authorUser) then Move(s, t, Failed(AuthorRefused))
    else if HasClient(s.table, next.clientId) || HasClient(c.phase.overlay, next.clientId) then Move(s, t, Failed(UniqueViolation))
    else if Blocked(s, t, next.clientId) then s
    else if shape.Segment? && !NamesUser(next.pseudoId) then Move(s, t, Failed(SpeakerRefused))
    else
      Move(s.(nextTag := s.nextTag + 1), t,
           Inserting(c.phase.existing, c.phase.todo[1..], c.phase.overlay + [NewRow(shape, c.author, next, s.nextTag)]))
  }

  function AfterCommit(s: State, t: TxId): State
    requires t in s.calls && s.calls[t].phase.Inserting?
  {
    var c := s.calls[t];
    Move(s.(table := s.table + c.phase.overlay,
            accepted := s.accepted + [Accepted(c.author, c.inputs, c.phase.overlay, c.phase.existing)]),
         t, Done(c.phase.overlay, c.phase.existing))
  }

  function Step(shape: TextShape, s: State, a: Action): State {
    if a.Begin? then if a.t in s.calls then s else AfterBegin(shape, s, a)
    else if a.t !in s.calls then s
    else
      var c := s.calls[a.t];
      match (a, c.phase)
      case (Select(t), Begun) =>
        var existing := Existing(s.table, c.inputs);
        Move(s, t, Inserting(existing, NotIn(c.inputs, existing), []))
      case (InsertNext(t), Inserting(_, todo, _)) => if |todo| == 0 then s else AfterInsert(shape, s, t)
      case (Commit(t), Inserting(_, todo, _)) => if |todo| > 0 then s else AfterCommit(s, t)
      case (Crash(t), Begun) => Move(s, t, Died)
      case (Crash(t), Inserting(_, _, _)) => Move(s, t, Died)
      case _ => s
  }

  function Run(shape: TextShape, actions: seq<Action>): State {
    if |actions| == 0 then EMPTY else Step(shape, Run(shape, actions[..|actions|-1]), actions[|actions|-1])
  }

  // ----- first writer wins -----

  /** Who claimed a client id first, and with what. */
  datatype Claim = Claim(author: string, input: CreateInput)

  predicate Claimed(claims: seq<Claim>, clientId: string) {
    exists i | 0 <= i < |claims| :: claims[i].input.clientId == clientId
  }

  /** The inputs whose client id nobody claimed before the batch. */
  function Fresh(claims: seq<Claim>, author: string, inputs: seq<CreateInput>): seq<Claim> {
    if |inputs| == 0 then []
    else Fresh(claims, author, inputs[..|inputs|-1]) +
         (if Claimed(claims, inputs[|inputs|-1].clientId) then [] else [Claim(author, inputs[|inputs|-1])])
  }

  function FirstWriterWins(batches: seq<Accepted>): seq<Claim> {
    if |batches| == 0 then []
    else
      var claims := FirstWriterWins(batches[..|batches|-1]);
      claims + Fresh(claims, batches[|batches|-1].author, batches[|batches|-1].inputs)
  }

  /** Row by row, the table is what the claims say, under some tag. */
  ghost predicate Records(shape: TextShape, rows: seq<UniformRow>, claims: seq<Claim>) {
    && |rows| == |claims|
    && forall i :: 0 <= i < |rows| ==> rows[i] == NewRow(shape, claims[i].author, claims[i].input, rows[i].etag)
  }

  ghost predicate DistinctClients(rows: seq<UniformRow>) {
    forall i, j :: 0 <= i < j < |rows| ==> rows[i].clientId != rows[j].clientId
  }

  ghost predicate Disjoint(a: seq<UniformRow>, b: seq<UniformRow>) {
    forall i, j :: 0 <= i < |a| && 0 <= j < |b| ==> a[i].clientId != b[j].clientId
  }

  function ClaimsOf(author: string, inputs: seq<CreateInput>): (claims: seq<Claim>)
    ensures |claims| == |inputs|
  {
    seq(|inputs|, i requires 0 <= i < |inputs| => Claim(author, inputs[i]))
  }

  /** A call under way: what it has inserted and has still to insert is its inputs minus the existing ids. */
  ghost predicate CallOk(shape: TextShape, table: seq<UniformRow>, c: Call) {
    && (c.phase.Begun? ==> |c.inputs| > 0 && Validate(shape, c.inputs).Ok?)
    && (c.phase.Inserting? ==>
          && Validate(shape, c.inputs).Ok?
          && (forall id :: id in c.phase.existing ==> HasClient(table, id) && Submitted(c.inputs, id))
          && DistinctClients(c.phase.overlay)
          && AllReadable(shape, c.phase.overlay)
          && Disjoint(c.phase.overlay, table)
          && exists done :: Progress(shape, c, done))
  }

  /** `done` are the inputs already inserted, `todo` the rest. */
  ghost predicate Progress(shape: TextShape, c: Call, done: seq<CreateInput>)
    requires c.phase.Inserting?
  {
    && NotIn(c.inputs, c.phase.existing) == done + c.phase.todo
    && Records(shape, c.phase.overlay, ClaimsOf(c.author, done))
  }

  /** What an accepted call reported, against the claims before it. */
  ghost predicate AcceptedOk(shape: TextShape, batches: seq<Accepted>, k: nat)
    requires k < |batches|
  {
    var before := FirstWriterWins(batches[..k]);
    var b := batches[k];
    && Validate(shape, b.inputs).Ok?
    && Records(shape, b.inserted, Fresh(before, b.author, b.inputs))
    && DistinctClients(b.inserted)
    && AllReadable(shape, b.inserted)
    && (forall id :: id in b.deduplicated <==> Claimed(before, id) && Submitted(b.inputs, id))
  }

  ghost predicate Inv(shape: TextShape, s: State) {
    && Records(shape, s.table, FirstWriterWins(s.accepted))
    && DistinctClients(s.table)
    && AllReadable(shape, s.table)
    && (forall k :: 0 <= k < |s.accepted| ==> AcceptedOk(shape, s.accepted, k))
    && (forall t :: t in s.calls ==> CallOk(shape, s.table, s.calls[t]))
    && (forall t, u :: t in s.calls && u in s.calls && t != u ==> Disjoint(Overlay(s.calls[t]), Overlay(s.calls[u])))
  }

  // ----- from rows to claims -----

  lemma RecordedIsClaimed(shape: TextShape, rows: seq<UniformRow>, claims: seq<Claim>, clientId: string)
    requires Records(shape, rows, claims)
    ensures HasClient(rows, clientId) <==> Claimed(claims, clientId)
  {
  }

  lemma {:induction false} FreshIsNotIn(claims: seq<Claim>, author: string, inputs: seq<CreateInput>, existing: seq<string>)
    requires forall k :: 0 <= k < |inputs| ==> (inputs[k].clientId in existing <==> Claimed(claims, inputs[k].clientId))
    ensures Fresh(claims, author, inputs) == ClaimsOf(author, NotIn(inputs, existing))
  {
    if |inputs| > 0 {
      FreshIsNotIn(claims, author, inputs[..|inputs|-1], existing);
    }
  }

  lemma {:induction false} NotInMembers(inputs: seq<CreateInput>, existing: seq<string>, k: nat)
    requires k < |inputs| && inputs[k].clientId !in existing
    ensures inputs[k] in NotIn(inputs, existing)
  {
    if k < |inputs| - 1 {
      NotInMembers(inputs[..|inputs|-1], existing, k);
      assert inputs[..|inputs|-1][k] == inputs[k];
    }
  }

  // ----- what every step keeps -----

  /** A step that leaves the table alone and gives call t a phase with a good, disjoint overlay. */
  lemma {:induction false} MoveKeeps(shape: TextShape, s: State, after: State, t: TxId)
    requires Inv(shape, s)
    requires t in after.calls && after.calls == s.calls[t := after.calls[t]]
    requires after.table == s.table && after.accepted == s.accepted
    requires CallOk(shape, s.table, after.calls[t])
    requires forall u :: u in s.calls && u != t ==> Disjoint(Overlay(after.calls[t]), Overlay(s.calls[u]))
    ensures Inv(shape, after)
  {
    hide CallOk, AcceptedOk, Records, FirstWriterWins, Overlay;
    forall u, v | u in after.calls && v in after.calls && u != v
      ensures Disjoint(Overlay(after.calls[u]), Overlay(after.calls[v]))
    {
      if v == t {
        assert Disjoint(Overlay(after.calls[t]), Overlay(s.calls[u]));
      }
    }
  }

  lemma {:induction false} SelectKeeps(shape: TextShape, s: State, t: TxId)
    requires Inv(shape, s) && t in s.calls && s.calls[t].phase.Begun?
    ensures Inv(shape, Step(shape, s, Select(t)))
  {
    hide AcceptedOk, FirstWriterWins, Validate, HasClient, Submitted, NotIn;
    var after := Step(shape, s, Select(t));
    assert CallOk(shape, s.table, s.calls[t]);
    var c := after.calls[t];
    assert Progress(shape, c, []) by {
      assert [] + c.phase.todo == c.phase.todo;
    }
    MoveKeeps(shape, s, after, t);
  }

  lemma {:induction false} InsertKeeps(shape: TextShape, s: State, t: TxId)
    requires Inv(shape, s) && t in s.calls && s.calls[t].phase.Inserting? && |s.calls[t].phase.todo| > 0
    ensures Inv(shape, AfterInsert(shape, s, t))
  {
    hide AcceptedOk, FirstWriterWins, Validate, Submitted, NotIn, NewRow, Inv;
    var after := AfterInsert(shape, s, t);
    if after.calls[t].phase.Inserting? && after != s {
      InsertedOk(shape, s, t);
    }
    if after != s {
      InsertMoves(shape, s, t);
      MoveKeeps(shape, s, after, t);
    }
  }

  lemma {:induction false} InsertMoves(shape: TextShape, s: State, t: TxId)
    requires Inv(shape, s) && t in s.calls && s.calls[t].phase.Inserting? && |s.calls[t].phase.todo| > 0
    requires AfterInsert(shape, s, t) != s
    ensures var after := AfterInsert(shape, s, t);
      && after.calls == s.calls[t := after.calls[t]]
      && forall u :: u in s.calls && u != t ==> Disjoint(Overlay(after.calls[t]), Overlay(s.calls[u]))
  {
    hide AcceptedOk, FirstWriterWins, Validate, Submitted, NotIn, Records, Progress;
    var c := s.calls[t];
    var next := c.phase.todo[0];
    var after := AfterInsert(shape, s, t);
    forall u | u in s.calls && u != t ensures Disjoint(Overlay(after.calls[t]), Overlay(s.calls[u])) {
      assert Disjoint(Overlay(c), Overlay(s.calls[u]));
      if after.calls[t].phase.Inserting? {
        assert !HasClient(Overlay(s.calls[u]), next.clientId);
      }
    }
  }

  lemma {:induction false} InsertedOk(shape: TextShape, s: State, t: TxId)
    requires Inv(shape, s) && t in s.calls && s.calls[t].phase.Inserting? && |s.calls[t].phase.todo| > 0
    requires AfterInsert(shape, s, t) != s && AfterInsert(shape, s, t).calls[t].phase.Inserting?
    ensures CallOk(shape, s.table, AfterInsert(shape, s, t).calls[t])
  {
    hide AcceptedOk, FirstWriterWins, Validate, Submitted, NotIn;
    var c := s.calls[t];
    var c' := AfterInsert(shape, s, t).calls[t];
    assert CallOk(shape, s.table, c);
    var next := c.phase.todo[0];
    assert !HasClient(s.table, next.clientId) && !HasClient(c.phase.overlay, next.clientId);
    var done :| Progress(shape, c, done);
    NewRowReadable(shape, c.author, next, s.nextTag);
    hide Readable, NewRow;
    assert done + c.phase.todo == (done + [next]) + c.phase.todo[1..];
    assert ClaimsOf(c.author, done + [next]) == ClaimsOf(c.author, done) + [Claim(c.author, next)];
    assert Progress(shape, c', done + [next]);
  }

  /** At commit the existing ids are exactly the submitted ones already claimed. */
  lemma {:induction false} ExistingIsClaimed(shape: TextShape, s: State, t: TxId)
    requires Inv(shape, s) && t in s.calls && s.calls[t].phase.Inserting? && |s.calls[t].phase.todo| == 0
    ensures var c := s.calls[t];
      && Records(shape, c.phase.overlay, ClaimsOf(c.author, NotIn(c.inputs, c.phase.existing)))
      && (forall id :: id in c.phase.existing <==> Claimed(FirstWriterWins(s.accepted), id) && Submitted(c.inputs, id))
  {
    hide AcceptedOk, FirstWriterWins, Validate, NotIn, Submitted, HasClient, Claimed;
    var c := s.calls[t];
    assert CallOk(shape, s.table, c);
    var done :| Progress(shape, c, done);
    assert done + c.phase.todo == done;
    var claims := FirstWriterWins(s.accepted);
    forall id ensures id in c.phase.existing <==> Claimed(claims, id) && Submitted(c.inputs, id) {
      RecordedIsClaimed(shape, s.table, claims, id);
      if Claimed(claims, id) && Submitted(c.inputs, id) && id !in c.phase.existing {
        UnlistedWasInserted(shape, s.table, c, done, id);
      }
    }
  }

  /** A submitted id that was not found existing is in the overlay, hence not in the table. */
  lemma {:induction false} UnlistedWasInserted(shape: TextShape, table: seq<UniformRow>, c: Call, done: seq<CreateInput>, id: string)
    requires c.phase.Inserting? && Progress(shape, c, done) && |c.phase.todo| == 0
    requires Disjoint(c.phase.overlay, table)
    requires Submitted(c.inputs, id) && id !in c.phase.existing
    ensures !HasClient(table, id)
  {
    var k :| 0 <= k < |c.inputs| && c.inputs[k].clientId == id;
    NotInMembers(c.inputs, c.phase.existing, k);
    assert done + c.phase.todo == done;
    var i :| 0 <= i < |done| && done[i] == c.inputs[k];
    assert c.phase.overlay[i].clientId == id;
  }

  lemma {:induction false} CommitAccepted(shape: TextShape, s: State, t: TxId)
    requires Inv(shape, s) && t in s.calls && s.calls[t].phase.Inserting? && |s.calls[t].phase.todo| == 0
    ensures var after := AfterCommit(s, t);
      && AcceptedOk(shape, after.accepted, |s.accepted|)
      && Records(shape, after.table, FirstWriterWins(after.accepted))
  {
    hide Validate, NotIn, Submitted, HasClient, Claimed, NewRow;
    var c := s.calls[t];
    var after := AfterCommit(s, t);
    assert CallOk(shape, s.table, c);
    ExistingIsClaimed(shape, s, t);
    var claims := FirstWriterWins(s.accepted);
    assert after.accepted[..|s.accepted|] == s.accepted;
    forall k | 0 <= k < |c.inputs|
      ensures c.inputs[k].clientId in c.phase.existing <==> Claimed(claims, c.inputs[k].clientId)
    {
      SubmittedAt(c.inputs, k);
    }
    FreshIsNotIn(claims, c.author, c.inputs, c.phase.existing);
  }

  lemma SubmittedAt(inputs: seq<CreateInput>, k: nat)
    requires k < |inputs|
    ensures Submitted(inputs, inputs[k].clientId)
  {
  }

  lemma {:induction false} AcceptedPrefix(shape: TextShape, batches: seq<Accepted>, b: Accepted, k: nat)
    requires k < |batches| && AcceptedOk(shape, batches, k)
    ensures AcceptedOk(shape, batches + [b], k)
  {
    hide FirstWriterWins, Fresh, Records, DistinctClients, Validate, Submitted, Claimed;
    assert (batches + [b])[..k] == batches[..k];
  }

  lemma {:induction false} GrowsKeepsCall(shape: TextShape, table: seq<UniformRow>, more: seq<UniformRow>, c: Call)
    requires CallOk(shape, table, c) && Disjoint(Overlay(c), more)
    ensures CallOk(shape, table + more, c)
  {
    hide Validate, NotIn, Submitted, Progress;
    if c.phase.Inserting? {
      forall id | id in c.phase.existing ensures HasClient(table + more, id) {
        var i :| 0 <= i < |table| && table[i].clientId == id;
        assert (table + more)[i] == table[i];
      }
    }
  }

  lemma {:induction false} CommitKeeps(shape: TextShape, s: State, t: TxId)
    requires Inv(shape, s) && t in s.calls && s.calls[t].phase.Inserting? && |s.calls[t].phase.todo| == 0
    ensures Inv(shape, AfterCommit(s, t))
  {
    hide CallOk, AcceptedOk, Records, FirstWriterWins, Readable;
    var after := AfterCommit(s, t);
    var c := s.calls[t];
    CommitAccepted(shape, s, t);
    forall k | 0 <= k < |after.accepted| ensures AcceptedOk(shape, after.accepted, k) {
      if k < |s.accepted| {
        AcceptedPrefix(shape, s.accepted, after.accepted[|s.accepted|], k);
      }
    }
    assert CallOk(shape, s.table, c);
    OverlayFacts(shape, s.table, c);
    forall u | u in after.calls ensures CallOk(shape, after.table, after.calls[u]) {
      if u != t {
        assert Disjoint(Overlay(s.calls[u]), Overlay(c));
        GrowsKeepsCall(shape, s.table, c.phase.overlay, s.calls[u]);
      } else {
        DoneIsOk(shape, after.table, after.calls[t]);
      }
    }
    forall u, v | u in after.calls && v in after.calls && u != v
      ensures Disjoint(Overlay(after.calls[u]), Overlay(after.calls[v]))
    {
      assert u != t && v != t ==> Disjoint(Overlay(s.calls[u]), Overlay(s.calls[v]));
    }
  }

  lemma OverlayFacts(shape: TextShape, table: seq<UniformRow>, c: Call)
    requires CallOk(shape, table, c) && c.phase.Inserting?
    ensures DistinctClients(c.phase.overlay) && Disjoint(c.phase.overlay, table)
    ensures AllReadable(shape, c.phase.overlay)
  {
  }

  lemma DoneIsOk(shape: TextShape, table: seq<UniformRow>, c: Call)
    requires !c.phase.Begun? && !c.phase.Inserting?
    ensures CallOk(shape, table, c)
  {
  }

  lemma {:induction false} StepKeeps(shape: TextShape, s: State, a: Action)
    requires Inv(shape, s)
    ensures Inv(shape, Step(shape, s, a))
  {
    hide Inv, AfterInsert, AfterCommit, Validate, Existing, NotIn;
    if a.Begin? {
      if a.t !in s.calls {
        BeginKeeps(shape, s, a);
      }
    } else if a.t in s.calls {
      match (a, s.calls[a.t].phase)
      case (Select(t), Begun) => SelectKeeps(shape, s, t);
      case (InsertNext(t), Inserting(_, todo, _)) => if |todo| > 0 { InsertKeeps(shape, s, t); }
      case (Commit(t), Inserting(_, todo, _)) => if |todo| == 0 { CommitKeeps(shape, s, t); }
      case (Crash(t), _) => if Step(shape, s, a) != s { CrashKeeps(shape, s, t); }
      case _ =>
    }
  }

  lemma BeginKeeps(shape: TextShape, s: State, a: Action)
    requires Inv(shape, s) && a.Begin? && a.t !in s.calls
    ensures Inv(shape, AfterBegin(shape, s, a))
  {
  }

  lemma CrashKeeps(shape: TextShape, s: State, t: TxId)
    requires Inv(shape, s) && t in s.calls
    ensures Inv(shape, Move(s, t, Died))
  {
  }

  lemma {:induction false} RunKeeps(shape: TextShape, actions: seq<Action>)
    ensures Inv(shape, Run(shape, actions))
  {
    if |actions| > 0 {
      RunKeeps(shape, actions[..|actions|-1]);
      StepKeeps(shape, Run(shape, actions[..|actions|-1]), actions[|actions|-1]);
    }
  }

  // ----- the promises -----

  /**
   After any interleaving of calls, retries, re-batchings and crashes, the table
   holds exactly the first-writer-wins fold of the accepted batches, in order,
   one row per client id; nothing else ever got in.
   */
  lemma {:induction false} TableIsFirstWriterWins(shape: TextShape, actions: seq<Action>)
    ensures var s := Run(shape, actions);
      Records(shape, s.table, FirstWriterWins(s.accepted)) && DistinctClients(s.table)
  {
    hide Run, Records, FirstWriterWins;
    RunKeeps(shape, actions);
  }

  ghost predicate ClaimsValid(shape: TextShape, claims: seq<Claim>) {
    forall i :: 0 <= i < |claims| ==> IsValid(shape, claims[i].input)
  }

  lemma ClaimsValidConcat(shape: TextShape, a: seq<Claim>, b: seq<Claim>)
    requires ClaimsValid(shape, a) && ClaimsValid(shape, b)
    ensures ClaimsValid(shape, a + b)
  {
  }

  lemma {:induction false} ClaimsAreValid(shape: TextShape, batches: seq<Accepted>)
    requires forall k :: 0 <= k < |batches| ==> Validate(shape, batches[k].inputs).Ok?
    ensures ClaimsValid(shape, FirstWriterWins(batches))
  {
    hide Claimed;
    if |batches| > 0 {
      var init, last := batches[..|batches|-1], batches[|batches|-1];
      ClaimsAreValid(shape, init);
      FreshIsValid(shape, FirstWriterWins(init), last.author, last.inputs);
      ClaimsValidConcat(shape, FirstWriterWins(init), Fresh(FirstWriterWins(init), last.author, last.inputs));
    }
  }

  lemma {:induction false} FreshIsValid(shape: TextShape, claims: seq<Claim>, author: string, inputs: seq<CreateInput>)
    requires forall i :: 0 <= i < |inputs| ==> IsValid(shape, inputs[i])
    ensures ClaimsValid(shape, Fresh(claims, author, inputs))
  {
    hide IsValid, Claimed;
    if |inputs| > 0 {
      var init, last := inputs[..|inputs|-1], inputs[|inputs|-1];
      assert forall i :: 0 <= i < |init| ==> init[i] == inputs[i];
      FreshIsValid(shape, claims, author, init);
      assert IsValid(shape, inputs[|inputs|-1]);
      ClaimsValidConcat(shape, Fresh(claims, author, init), [Claim(author, last)]);
      assert Fresh(claims, author, init) + [] == Fresh(claims, author, init);
    }
  }

  /**
   Every row of every run holds, column by column, what its first claimant
   submitted under its own name, with an unreversed range and the text that the
   shape needs.
   */
  lemma {:induction false} RowsHoldFirstClaims(shape: TextShape, actions: seq<Action>, i: nat)
    requires i < |Run(shape, actions).table|
    ensures var s := Run(shape, actions);
      var claims := FirstWriterWins(s.accepted);
      && |claims| == |s.table|
      && StoredAs(shape, s.table[i], claims[i].author, claims[i].input)
      && s.table[i].startMs <= s.table[i].endMs
      && (shape.Segment? ==> s.table[i].text == claims[i].input.text)
      && (shape.TitleSummary? ==> s.table[i].title == claims[i].input.title)
  {
    hide Run, FirstWriterWins, NewRow;
    RunKeeps(shape, actions);
    var s := Run(shape, actions);
    forall k | 0 <= k < |s.accepted| ensures Validate(shape, s.accepted[k].inputs).Ok? {
      assert AcceptedOk(shape, s.accepted, k);
    }
    ClaimsAreValid(shape, s.accepted);
    var c := FirstWriterWins(s.accepted)[i];
    NewRowStored(shape, c.author, c.input, s.table[i].etag);
  }

  /** Of the next input: refused for its author, its key or its speaker, in this order, and otherwise inserted or waiting for the key. */
  lemma {:induction false} InsertDecides(shape: TextShape, s: State, t: TxId)
    requires t in s.calls && s.calls[t].phase.Inserting? && |s.calls[t].phase.todo| > 0
    ensures var c, after := s.calls[t], Step(shape, s, InsertNext(t));
      var next := c.phase.todo[0];
      var taken := HasClient(s.table, next.clientId) || HasClient(c.phase.overlay, next.clientId);
      var mixedAuthor, mixedSpeaker := next.authorUser == Some(MIXED_PSEUDO_ID), shape.Segment? && next.pseudoId == Some(MIXED_PSEUDO_ID);
      && after.table == s.table && t in after.calls
      && var phase := after.calls[t].phase;
         && (phase == Failed(AuthorRefused) <==> mixedAuthor)
         && (phase == Failed(UniqueViolation) <==> !mixedAuthor && taken)
         && (phase == Failed(SpeakerRefused) <==> !mixedAuthor && !taken && !Blocked(s, t, next.clientId) && mixedSpeaker)
         && (phase.Inserting? && phase.todo == c.phase.todo[1..] <==>
               !mixedAuthor && !taken && !Blocked(s, t, next.clientId) && !mixedSpeaker)
         && (after == s <==> !mixedAuthor && !taken && Blocked(s, t, next.clientId))
  {
    hide HasClient, Blocked, NamesUser, NewRow;
    NamesUserIff(s.calls[t].phase.todo[0].authorUser);
    NamesUserIff(s.calls[t].phase.todo[0].pseudoId);
    assert |s.calls[t].phase.todo[1..]| != |s.calls[t].phase.todo|;
  }

  // ----- nobody inserts what was not submitted -----

  ghost predicate WasBegun(actions: seq<Action>, t: TxId, author: string, inputs: seq<CreateInput>) {
    exists k :: 0 <= k < |actions| && actions[k] == Begin(t, author, inputs)
  }

  ghost predicate BatchWasBegun(actions: seq<Action>, b: Accepted) { exists t :: WasBegun(actions, t, b.author, b.inputs) }

  lemma {:induction false} StillBegun(actions: seq<Action>, a: Action, t: TxId, author: string, inputs: seq<CreateInput>)
    requires WasBegun(actions, t, author, inputs) || a == Begin(t, author, inputs)
    ensures WasBegun(actions + [a], t, author, inputs)
  {
    var all := actions + [a];
    if a == Begin(t, author, inputs) {
      assert all[|actions|] == a;
    } else {
      var k :| 0 <= k < |actions| && actions[k] == Begin(t, author, inputs);
      assert all[k] == actions[k];
    }
  }

  lemma StepOrigins(shape: TextShape, s: State, a: Action)
    ensures var after := Step(shape, s, a);
      && (forall t :: t in after.calls ==>
            || (t in s.calls && after.calls[t].author == s.calls[t].author && after.calls[t].inputs == s.calls[t].inputs)
            || a == Begin(t, after.calls[t].author, after.calls[t].inputs))
      && (after.accepted != s.accepted ==>
            && a.Commit? && a.t in s.calls && |after.accepted| == |s.accepted| + 1
            && after.accepted[..|s.accepted|] == s.accepted
            && after.accepted[|s.accepted|].author == s.calls[a.t].author
            && after.accepted[|s.accepted|].inputs == s.calls[a.t].inputs)
  {
    hide Validate, Existing, NotIn, NewRow, NamesUser, HasClient, Blocked;
  }

  /** Every call and every accepted batch is one that some caller began with, under that caller's name. */
  ghost predicate BatchesBegun(actions: seq<Action>, s: State) {
    && (forall t :: t in s.calls ==> WasBegun(actions, t, s.calls[t].author, s.calls[t].inputs))
    && (forall i :: 0 <= i < |s.accepted| ==> BatchWasBegun(actions, s.accepted[i]))
  }

  lemma {:induction false} BegunStep(shape: TextShape, actions: seq<Action>, s: State, a: Action)
    requires BatchesBegun(actions, s)
    ensures BatchesBegun(actions + [a], Step(shape, s, a))
  {
    hide Step, WasBegun;
    var after := Step(shape, s, a);
    StepOrigins(shape, s, a);
    forall t | t in after.calls ensures WasBegun(actions + [a], t, after.calls[t].author, after.calls[t].inputs) {
      StillBegun(actions, a, t, after.calls[t].author, after.calls[t].inputs);
    }
    forall i | 0 <= i < |after.accepted| ensures BatchWasBegun(actions + [a], after.accepted[i]) {
      var t := a.t;
      if i < |s.accepted| {
        assert after.accepted[i] == s.accepted[i] && BatchWasBegun(actions, s.accepted[i]);
        t :| WasBegun(actions, t, s.accepted[i].author, s.accepted[i].inputs);
      }
      StillBegun(actions, a, t, after.accepted[i].author, after.accepted[i].inputs);
    }
  }

  lemma {:induction false} BatchesWereSubmitted(shape: TextShape, actions: seq<Action>)
    ensures BatchesBegun(actions, Run(shape, actions))
  {
    hide Step;
    if |actions| > 0 {
      var init, a := actions[..|actions|-1], actions[|actions|-1];
      assert init + [a] == actions;
      BatchesWereSubmitted(shape, init);
      BegunStep(shape, init, Run(shape, init), a);
    }
  }

  /** An accepted call was valid, and splits its submitted ids exactly into inserted and deduplicated. */
  lemma {:induction false} AcceptedCallSplits(shape: TextShape, actions: seq<Action>, k: nat, id: string)
    requires k < |Run(shape, actions).accepted|
    ensures var b := Run(shape, actions).accepted[k];
      && (forall i :: 0 <= i < |b.inputs| ==>
            && b.inputs[i].startMs <= b.inputs[i].endMs
            && (shape.Segment? ==> b.inputs[i].text.Some?) && (shape.TitleSummary? ==> b.inputs[i].title.Some?))
      && (Submitted(b.inputs, id) <==> HasClient(b.inserted, id) || id in b.deduplicated)
      && !(HasClient(b.inserted, id) && id in b.deduplicated)
  {
    hide Run, Records, FirstWriterWins, Claimed, HasClient;
    RunKeeps(shape, actions);
    var s := Run(shape, actions);
    assert AcceptedOk(shape, s.accepted, k);
    var b := s.accepted[k];
    var before := FirstWriterWins(s.accepted[..k]);
    RecordedIsClaimed(shape, b.inserted, Fresh(before, b.author, b.inputs), id);
    FreshClaims(before, b.author, b.inputs, id);
  }

  lemma {:induction false} FreshClaims(claims: seq<Claim>, author: string, inputs: seq<CreateInput>, id: string)
    ensures Claimed(Fresh(claims, author, inputs), id) <==> Submitted(inputs, id) && !Claimed(claims, id)
  {
    if |inputs| > 0 {
      var init, last := inputs[..|inputs|-1], inputs[|inputs|-1];
      FreshClaims(claims, author, init, id);
      SubmittedStep(inputs, id);
      var next := if Claimed(claims, last.clientId) then [] else [Claim(author, last)];
      ClaimedConcat(Fresh(claims, author, init), next, id);
      assert |next| > 0 ==> next[0].input == last;
    }
  }

  lemma SubmittedStep(inputs: seq<CreateInput>, id: string)
    requires |inputs| > 0
    ensures Submitted(inputs, id) <==> Submitted(inputs[..|inputs|-1], id) || inputs[|inputs|-1].clientId == id
  {
  }

  lemma {:induction false} ClaimedConcat(a: seq<Claim>, b: seq<Claim>, id: string)
    ensures Claimed(a + b, id) <==> Claimed(a, id) || Claimed(b, id)
  {
    assert forall i :: 0 <= i < |a| ==> (a + b)[i] == a[i];
    assert forall i :: 0 <= i < |b| ==> (a + b)[|a| + i] == b[i];
  }

  /** Some batch submitted the id. */
  ghost predicate SubmittedBefore(batches: seq<Accepted>, id: string) {
    exists i :: 0 <= i < |batches| && Submitted(batches[i].inputs, id)
  }

  /** An id is claimed exactly once some accepted batch has submitted it. */
  lemma {:induction false} ClaimedIffSubmitted(batches: seq<Accepted>, id: string)
    ensures Claimed(FirstWriterWins(batches), id) <==> SubmittedBefore(batches, id)
  {
    hide Submitted, Claimed, Fresh;
    if |batches| == 0 {
      NothingClaimed(id);
    } else {
      var n := |batches| - 1;
      var init, last := batches[..n], batches[n];
      var claims := FirstWriterWins(init);
      ClaimedIffSubmitted(init, id);
      ClaimedConcat(claims, Fresh(claims, last.author, last.inputs), id);
      FreshClaims(claims, last.author, last.inputs, id);
      assert forall i :: 0 <= i < n ==> init[i] == batches[i];
      if SubmittedBefore(init, id) {
        var i :| 0 <= i < n && Submitted(init[i].inputs, id);
        assert Submitted(batches[i].inputs, id);
      }
    }
  }

  lemma NothingClaimed(id: string)
    ensures !Claimed([], id)
  {
  }

  /**
   An accepted batch inserts nothing if and only if every id in it was in some
   earlier accepted batch: retries and any regrouping of them are free.
   */
  lemma {:induction false} InsertsNothingIffRepeats(shape: TextShape, actions: seq<Action>, j: nat)
    requires j < |Run(shape, actions).accepted|
    ensures var a := Run(shape, actions).accepted;
      a[j].inserted == [] <==> forall id :: Submitted(a[j].inputs, id) ==> SubmittedBefore(a[..j], id)
  {
    hide Run, FirstWriterWins, IsValid, Claimed, HasClient, Submitted, SubmittedBefore;
    RunKeeps(shape, actions);
    var a := Run(shape, actions).accepted;
    assert AcceptedOk(shape, a, j);
    var before := FirstWriterWins(a[..j]);
    var unclaimed := Fresh(before, a[j].author, a[j].inputs);
    forall id ensures Claimed(unclaimed, id) <==> Submitted(a[j].inputs, id) && !SubmittedBefore(a[..j], id) {
      FreshClaims(before, a[j].author, a[j].inputs, id);
      ClaimedIffSubmitted(a[..j], id);
    }
    if |unclaimed| > 0 {
      ClaimedAt(unclaimed, 0);
    } else {
      forall id ensures !Claimed(unclaimed, id) { NothingClaimed(id); }
    }
  }

  lemma ClaimedAt(claims: seq<Claim>, k: nat)
    requires k < |claims|
    ensures Claimed(claims, claims[k].input.clientId)
  {
  }

  /**
   Every row a run ever stores can be read back, and an accepted batch names
   `mixed` neither as the author of an input it inserted nor, for segments, as
   the speaker.
   */
  lemma {:induction false} AcceptedNamesUsers(shape: TextShape, actions: seq<Action>, k: nat, i: nat)
    requires k < |Run(shape, actions).accepted| && i < |Run(shape, actions).accepted[k].inputs|
    ensures AllReadable(shape, Run(shape, actions).table)
    ensures var a := Run(shape, actions).accepted;
      !SubmittedBefore(a[..k], a[k].inputs[i].clientId) ==>
        && a[k].inputs[i].authorUser != Some(MIXED_PSEUDO_ID)
        && (shape.Segment? ==> a[k].inputs[i].pseudoId != Some(MIXED_PSEUDO_ID))
  {
    hide Run, FirstWriterWins, IsValid, Claimed, NewRow, Readable, NamesUser;
    RunKeeps(shape, actions);
    var a := Run(shape, actions).accepted;
    assert AcceptedOk(shape, a, k);
    var b, input := a[k], a[k].inputs[i];
    var before := FirstWriterWins(a[..k]);
    ClaimedIffSubmitted(a[..k], input.clientId);
    NamesUserIff(input.authorUser);
    NamesUserIff(input.pseudoId);
    if !Claimed(before, input.clientId) {
      var p := FreshOnce(before, b.author, b.inputs, i);
      NewRowReadable(shape, Fresh(before, b.author, b.inputs)[p].author, input, b.inserted[p].etag);
    }
  }

  /**
   A valid batch of one segment by the speaker `mixed`, though its body is
   accepted, is inserted but cannot be read back, so nothing of it is kept.
   */
  lemma {:induction false} MixedSpeakerRefused(author: string, input: CreateInput)
    requires IsValid(Segment, input) && NamesUser(input.authorUser) && input.pseudoId == Some(MIXED_PSEUDO_ID)
    ensures var s := Run(Segment, [Begin(0, author, [input]), Select(0), InsertNext(0)]);
      s.table == [] && 0 in s.calls && s.calls[0].phase == Failed(SpeakerRefused)
  {
    var a, b, c := Begin(0, author, [input]), Select(0), InsertNext(0);
    assert [a, b, c][..2] == [a, b] && [a, b][..1] == [a] && [a][..0] == [];
    assert Run(Segment, [a]) == Step(Segment, EMPTY, a);
    assert Run(Segment, [a, b]) == Step(Segment, Step(Segment, EMPTY, a), b);
    NamesUserIff(input.pseudoId);
    OneNewInput(input);
    assert Validate(Segment, [input]).Ok?;
  }

  lemma {:induction false} OneNewInput(input: CreateInput)
    ensures Existing([], [input]) == [] && NotIn([input], []) == [input]
  {
    assert [input][..0] == [];
    assert NotIn([], []) == [];
  }

  /** A batch that repeats a client id new to the table is never accepted, so it changes nothing. */
  lemma {:induction false} RepeatedNewIdIsRefused(shape: TextShape, actions: seq<Action>, k: nat, i: nat, j: nat)
    requires k < |Run(shape, actions).accepted|
    requires var b := Run(shape, actions).accepted[k];
      i < j < |b.inputs| && b.inputs[i].clientId == b.inputs[j].clientId
    ensures var a := Run(shape, actions).accepted;
      Claimed(FirstWriterWins(a[..k]), a[k].inputs[i].clientId)
  {
    hide Run, FirstWriterWins, IsValid, Claimed;
    RunKeeps(shape, actions);
    var a := Run(shape, actions).accepted;
    assert AcceptedOk(shape, a, k);
    var before := FirstWriterWins(a[..k]);
    if !Claimed(before, a[k].inputs[i].clientId) {
      var p, q := FreshTwice(before, a[k].author, a[k].inputs, i, j);
    }
  }

  lemma {:induction false} FreshTwice(claims: seq<Claim>, author: string, inputs: seq<CreateInput>, i: nat, j: nat) returns (p: nat, q: nat)
    requires i < j < |inputs| && inputs[i].clientId == inputs[j].clientId && !Claimed(claims, inputs[i].clientId)
    ensures var unclaimed := Fresh(claims, author, inputs);
      p < q < |unclaimed| && unclaimed[p].input == inputs[i] && unclaimed[q].input == inputs[j]
    decreases |inputs|
  {
    hide Claimed;
    var init := inputs[..|inputs|-1];
    if j < |init| {
      assert init[i] == inputs[i] && init[j] == inputs[j];
      p, q := FreshTwice(claims, author, init, i, j);
    } else {
      assert init[i] == inputs[i];
      p := FreshOnce(claims, author, init, i);
      q := |Fresh(claims, author, init)|;
    }
  }

  lemma {:induction false} FreshOnce(claims: seq<Claim>, author: string, inputs: seq<CreateInput>, i: nat) returns (p: nat)
    requires i < |inputs| && !Claimed(claims, inputs[i].clientId)
    ensures p < |Fresh(claims, author, inputs)| && Fresh(claims, author, inputs)[p].input == inputs[i]
    decreases |inputs|
  {
    hide Claimed;
    var init := inputs[..|inputs|-1];
    if i < |init| {
      assert init[i] == inputs[i];
      p := FreshOnce(claims, author, init, i);
    } else {
      p := |Fresh(claims, author, init)|;
    }
  }
}
