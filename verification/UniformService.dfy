/** The `patch` and `bulk_insert` of src/db/uniform.rs as they change one session's table. */
module UniformService {
  import opened Prelude
  import opened Ids
  import opened UniformRows
  import UniformPatch
  import opened BulkInsert

  datatype PatchError = NotFound | PreconditionFailed(current: Tag) | AuthorRefused

  /** Position of the row with this id, or the length of the table. */
  function FindRow(rows: seq<UniformRow>, id: nat): (k: nat)
    ensures k <= |rows|
    ensures k < |rows| ==> rows[k].id == id
    ensures k == |rows| ==> forall i :: 0 <= i < |rows| ==> rows[i].id != id
  {
    if |rows| == 0 then 0
    else
      var k := FindRow(rows[..|rows|-1], id);
      if k < |rows| - 1 || rows[|rows|-1].id == id then k else |rows|
  }

  /** No client id new to the table occurs twice in the batch. */
  ghost predicate NewIdsDistinct(rows: seq<UniformRow>, inputs: seq<CreateInput>) {
    forall i, j :: 0 <= i < j < |inputs| && inputs[i].clientId == inputs[j].clientId ==> HasClient(rows, inputs[i].clientId)
  }

  predicate NamesMixed(shape: TextShape, i: CreateInput) {
    i.authorUser == Some(MIXED_PSEUDO_ID) || (shape.Segment? && i.pseudoId == Some(MIXED_PSEUDO_ID))
  }

  lemma StorableIff(shape: TextShape, i: CreateInput)
    ensures Storable(shape, i) <==> !NamesMixed(shape, i)
  {
  }

  /** No input new to the table names `mixed` as its author or, for segments, as its speaker. */
  ghost predicate NewNameUsers(shape: TextShape, rows: seq<UniformRow>, inputs: seq<CreateInput>) {
    forall i :: 0 <= i < |inputs| && !HasClient(rows, inputs[i].clientId) ==> !NamesMixed(shape, inputs[i])
  }

  ghost predicate AllStorable(shape: TextShape, inputs: seq<CreateInput>) {
    forall i :: 0 <= i < |inputs| ==> Storable(shape, inputs[i])
  }

  /** What is left to insert is storable exactly if the new inputs are. */
  lemma {:induction false} NotInStorable(shape: TextShape, rows: seq<UniformRow>, inputs: seq<CreateInput>, existing: seq<string>)
    requires forall k :: 0 <= k < |inputs| ==> (inputs[k].clientId in existing <==> HasClient(rows, inputs[k].clientId))
    ensures AllStorable(shape, NotIn(inputs, existing)) <==> NewNameUsers(shape, rows, inputs)
  {
    hide HasClient, Storable, NamesMixed;
    if |inputs| > 0 {
      var n := |inputs| - 1;
      var init := inputs[..n];
      assert forall k :: 0 <= k < n ==> init[k] == inputs[k];
      NotInStorable(shape, rows, init, existing);
      StorableIff(shape, inputs[n]);
      StorableSnoc(shape, NotIn(init, existing), inputs[n]);
      assert NotIn(init, existing) + [] == NotIn(init, existing);
      assert NewNameUsers(shape, rows, inputs) <==>
        NewNameUsers(shape, rows, init) && (HasClient(rows, inputs[n].clientId) || !NamesMixed(shape, inputs[n]));
    }
  }

  lemma {:induction false} StorableSnoc(shape: TextShape, inputs: seq<CreateInput>, last: CreateInput)
    ensures AllStorable(shape, inputs + [last]) <==> AllStorable(shape, inputs) && Storable(shape, last)
  {
    hide Storable;
    assert (inputs + [last])[|inputs|] == last;
    assert forall i :: 0 <= i < |inputs| ==> (inputs + [last])[i] == inputs[i];
  }

  ghost predicate DistinctInputs(inputs: seq<CreateInput>) {
    forall i, j :: 0 <= i < j < |inputs| ==> inputs[i].clientId != inputs[j].clientId
  }

  lemma {:induction false} NotInSubmitted(inputs: seq<CreateInput>, existing: seq<string>, id: string)
    requires id !in existing
    ensures Submitted(NotIn(inputs, existing), id) <==> Submitted(inputs, id)
  {
    if |inputs| > 0 {
      var init, last := inputs[..|inputs|-1], inputs[|inputs|-1];
      NotInSubmitted(init, existing, id);
      SubmittedStep(inputs, id);
      var all := NotIn(inputs, existing);
      if last.clientId in existing {
        assert all == NotIn(init, existing);
      } else {
        assert all[..|all|-1] == NotIn(init, existing);
        SubmittedStep(all, id);
      }
    }
  }

  lemma {:induction false} NotInStaysNew(inputs: seq<CreateInput>, existing: seq<string>)
    ensures forall i :: 0 <= i < |NotIn(inputs, existing)| ==> NotIn(inputs, existing)[i].clientId !in existing
  {
    if |inputs| > 0 {
      NotInStaysNew(inputs[..|inputs|-1], existing);
    }
  }

  /** Looking up what to insert loses no repetition of a new id. */
  lemma {:induction false} NotInDistinct(rows: seq<UniformRow>, inputs: seq<CreateInput>, existing: seq<string>)
    requires forall k :: 0 <= k < |inputs| ==> (inputs[k].clientId in existing <==> HasClient(rows, inputs[k].clientId))
    ensures DistinctInputs(NotIn(inputs, existing)) <==> NewIdsDistinct(rows, inputs)
  {
    hide HasClient;
    if |inputs| > 0 {
      var n := |inputs| - 1;
      var init, last := inputs[..n], inputs[n];
      assert forall k :: 0 <= k < n ==> init[k] == inputs[k];
      NotInDistinct(rows, init, existing);
      var todo := NotIn(init, existing);
      assert NewIdsDistinct(rows, inputs) <==>
        NewIdsDistinct(rows, init) && (Submitted(init, last.clientId) ==> HasClient(rows, last.clientId)) by {
        if Submitted(init, last.clientId) {
          var i :| 0 <= i < n && init[i].clientId == last.clientId;
          assert inputs[i].clientId == inputs[n].clientId;
        }
      }
      if last.clientId in existing {
        assert NotIn(inputs, existing) == todo;
      } else {
        NotInSubmitted(init, existing, last.clientId);
        DistinctSnoc(todo, last);
      }
    }
  }

  lemma {:induction false} DistinctSnoc(inputs: seq<CreateInput>, last: CreateInput)
    ensures DistinctInputs(inputs + [last]) <==> DistinctInputs(inputs) && !Submitted(inputs, last.clientId)
  {
    var all := inputs + [last];
    assert all[|inputs|] == last && forall i :: 0 <= i < |inputs| ==> all[i] == inputs[i];
    if Submitted(inputs, last.clientId) {
      var i :| 0 <= i < |inputs| && inputs[i].clientId == last.clientId;
      assert all[i].clientId == all[|inputs|].clientId;
    }
  }

  lemma StoredClient(shape: TextShape, row: UniformRow, author: string, i: CreateInput)
    requires StoredAs(shape, row, author, i)
    ensures row.clientId == i.clientId
  {
  }

  lemma SameClients(rows: seq<UniformRow>, done: seq<CreateInput>, id: string)
    requires |rows| == |done| && forall i :: 0 <= i < |rows| ==> rows[i].clientId == done[i].clientId
    ensures HasClient(rows, id) <==> Submitted(done, id)
  {
  }

  /** Only row k changed, by one successful patch of the version it carried. */
  ghost predicate PatchedAt(shape: TextShape, before: seq<UniformRow>, after: seq<UniformRow>, k: int, id: nat, success: UniformPatch.Success) {
    && 0 <= k < |before| == |after| && before[k].id == id
    && UniformPatch.Fold(shape, before[k], [success]) == Some(after[k])
    && after == before[k := after[k]]
  }

  /** Ids and tags were all issued before `next`; no two rows share an id, a tag or a client id. */
  ghost predicate Identified(rows: seq<UniformRow>, next: Tag) {
    && (forall i :: 0 <= i < |rows| ==> rows[i].id < next && rows[i].etag < next)
    && (forall i, j :: 0 <= i < j < |rows| ==>
          rows[i].id != rows[j].id && rows[i].etag != rows[j].etag && rows[i].clientId != rows[j].clientId)
  }

  lemma PatchStaysIdentified(rows: seq<UniformRow>, k: nat, patched: UniformRow, tag: Tag)
    requires Identified(rows, tag) && k < |rows|
    requires patched.id == rows[k].id && patched.clientId == rows[k].clientId && patched.etag == tag
    ensures Identified(rows[k := patched], tag + 1)
  {
  }

  lemma {:induction false} OneMoreIdentified(rows: seq<UniformRow>, inserted: seq<UniformRow>, row: UniformRow, tag: Tag)
    requires Identified(rows + inserted, tag) && row.id == row.etag == tag
    requires !HasClient(rows, row.clientId) && !HasClient(inserted, row.clientId)
    ensures Identified(rows + (inserted + [row]), tag + 1)
  {
    var all := rows + inserted;
    assert rows + (inserted + [row]) == all + [row];
    forall i | 0 <= i < |all| ensures all[i].clientId != row.clientId {
      assert i < |rows| ==> all[i] == rows[i];
      assert i >= |rows| ==> all[i] == inserted[i - |rows|];
    }
  }

  /** What is left to insert keeps the order of the batch. */
  lemma {:induction false} NotInFilters(inputs: seq<CreateInput>, existing: seq<string>)
    ensures IsSubsequence(NotIn(inputs, existing), inputs)
  {
    hide IsSubsequence;
    if |inputs| == 0 {
      SubsequenceReflexive<CreateInput>([]);
      assert NotIn(inputs, existing) == [] && inputs == [];
    } else {
      var init, last := inputs[..|inputs|-1], inputs[|inputs|-1];
      NotInFilters(init, existing);
      SubsequenceExtend(NotIn(init, existing), init, last);
      assert init + [last] == inputs && NotIn(init, existing) + [] == NotIn(init, existing);
    }
  }

  /** One row per input, in order, each under the next fresh id and tag. */
  ghost predicate InsertedFor(shape: TextShape, inserted: seq<UniformRow>, author: string, done: seq<CreateInput>, firstTag: Tag) {
    && |inserted| == |done|
    && forall k :: 0 <= k < |done| ==>
         StoredAs(shape, inserted[k], author, done[k]) && inserted[k].id == inserted[k].etag == firstTag + k
  }

  lemma {:induction false} FoldOne(shape: TextShape, row: UniformRow, success: UniformPatch.Success)
    requires success.expected.None? || success.expected.value == row.etag
    requires NamesUser(success.patch.authorUser)
    ensures UniformPatch.Fold(shape, row, [success]) == Some(ApplyPatch(shape, row, success.patch, success.tag))
  {
    hide NamesUser, ApplyPatch;
    assert [success][..0] == [];
    assert UniformPatch.Fold(shape, row, []) == Some(row);
  }

  class UniformTable {
    const shape: TextShape
    var rows: seq<UniformRow>
    var nextTag: Tag

    /** Every stored row can be read back; ids, tags and client ids are its own. */
    ghost predicate Valid()
      reads this
    {
      AllReadable(shape, rows) && Identified(rows, nextTag)
    }

    constructor (shape: TextShape)
      ensures Valid() && this.shape == shape && rows == []
    {
      this.shape := shape;
      rows := [];
      nextTag := 0;
    }

    /**
     An If-Match guarded read-modify-write of one row: it succeeds exactly if the
     row exists, its tag is met and the patch does not make `mixed` the author.
     */
    method Patch(id: nat, expected: Option<Tag>, patch: PatchInput) returns (r: Result<UniformRow, PatchError>)
      requires Valid()
      modifies this
      ensures Valid()
      ensures r.Err? ==> rows == old(rows)
      ensures r == Err(NotFound) <==> forall i :: 0 <= i < |rows| ==> rows[i].id != id
      ensures r.Ok? <==>
        var k := FindRow(old(rows), id);
        && k < |old(rows)| && (expected.None? || expected.value == old(rows)[k].etag)
        && patch.authorUser != Some(MIXED_PSEUDO_ID)
      ensures r.Ok? ==>
        exists k :: PatchedAt(shape, old(rows), rows, k, id, UniformPatch.Success(expected, patch, r.value.etag))
      ensures r.Ok? ==> r.value == rows[FindRow(old(rows), id)] && r.value.id == id
      ensures r.Ok? ==> r.value.etag == old(nextTag) < nextTag
      ensures r.Err? && r.error.PreconditionFailed? <==>
        var k := FindRow(rows, id);
        k < |old(rows)| && expected.Some? && expected.value != old(rows)[k].etag
      ensures r.Err? && r.error.PreconditionFailed? ==> r.error.current == rows[FindRow(rows, id)].etag
    {
      hide Readable, NamesUser;
      NamesUserIff(patch.authorUser);
      ghost var rows0 := rows;
      var k := FindRow(rows, id);
      if k == |rows| {
        return Err(NotFound);
      }
      var existing := rows[k];
      if expected.Some? && expected.value != existing.etag {
        return Err(PreconditionFailed(existing.etag));
      }
      if !NamesUser(patch.authorUser) {
        return Err(PatchError.AuthorRefused);
      }
      var tag := nextTag;
      nextTag := nextTag + 1;
      var patched := ApplyPatch(shape, existing, patch, tag);
      ghost var success := UniformPatch.Success(expected, patch, tag);
      FoldOne(shape, existing, success);
      UniformPatch.PatchSetsTag(shape, existing, patch, tag);
      PatchKeepsReadable(shape, existing, patch, tag);
      rows := rows[k := patched];
      PatchStaysIdentified(rows0, k, patched, tag);
      assert PatchedAt(shape, old(rows), rows, k, id, success);
      r := Ok(patched);
    }

    /** One INSERT within the transaction that has inserted `inserted` so far, and the decoding of the row it returns. */
    method InsertRowInTx(author: string, input: CreateInput, inserted: seq<UniformRow>) returns (r: Result<UniformRow, InsertError>)
      requires Valid() && Identified(rows + inserted, nextTag)
      modifies this`nextTag
      ensures Valid() && nextTag == old(nextTag) + (if r.Ok? then 1 else 0)
      ensures r.Ok? <==>
        !HasClient(rows, input.clientId) && !HasClient(inserted, input.clientId) && !NamesMixed(shape, input)
      ensures r == Err(InsertError.AuthorRefused) <==> input.authorUser == Some(MIXED_PSEUDO_ID)
      ensures r == Err(UniqueViolation) <==>
        && input.authorUser != Some(MIXED_PSEUDO_ID)
        && (HasClient(rows, input.clientId) || HasClient(inserted, input.clientId))
      ensures r.Err? ==> !r.error.BadRequest?
      ensures r.Ok? ==> StoredAs(shape, r.value, author, input) && r.value.id == r.value.etag == old(nextTag)
      ensures r.Ok? ==> Readable(shape, r.value) && Identified(rows + (inserted + [r.value]), nextTag)
    {
      hide HasClient, NewRow, Readable, NamesUser, StoredAs;
      StorableIff(shape, input);
      NamesUserIff(input.authorUser);
      if !NamesUser(input.authorUser) {
        return Err(InsertError.AuthorRefused);
      }
      var clash := HasClient(rows, input.clientId) || HasClient(inserted, input.clientId);
      if clash {
        return Err(UniqueViolation);
      }
      if shape.Segment? && !NamesUser(input.pseudoId) {
        return Err(SpeakerRefused);
      }
      var row := NewRow(shape, author, input, nextTag);
      NewRowReadable(shape, author, input, nextTag);
      NewRowStored(shape, author, input, nextTag);
      StoredClient(shape, row, author, input);
      OneMoreIdentified(rows, inserted, row, nextTag);
      nextTag := nextTag + 1;
      r := Ok(row);
    }

    /**
     First writer wins: accepted exactly when every input is valid, no id new to
     the table is repeated and no input with such an id names `mixed` as author
     or, for segments, as speaker; otherwise the transaction leaves nothing behind.
     */
    method BulkInsert(author: string, inputs: seq<CreateInput>)
      returns (r: Result<(seq<UniformRow>, seq<string>), InsertError>)
      requires Valid()
      modifies this
      ensures Valid()
      ensures r.Ok? <==>
        && (forall i :: 0 <= i < |inputs| ==>
              && inputs[i].startMs <= inputs[i].endMs
              && (shape.Segment? ==> inputs[i].text.Some?) && (shape.TitleSummary? ==> inputs[i].title.Some?))
        && NewIdsDistinct(old(rows), inputs)
        && NewNameUsers(shape, old(rows), inputs)
      ensures r.Err? ==> rows == old(rows)
      ensures r.Err? && r.error.BadRequest? ==>
        exists k :: FirstInvalid(shape, inputs, k) && r.error == BadRequest(inputs[k].clientId)
      ensures r.Ok? ==> rows == old(rows) + r.value.0
      ensures r.Ok? ==> forall id :: id in r.value.1 <==> HasClient(old(rows), id) && Submitted(inputs, id)
      ensures r.Ok? ==> IsSubsequence(NotIn(inputs, r.value.1), inputs)
      ensures r.Ok? ==> InsertedFor(shape, r.value.0, author, NotIn(inputs, r.value.1), old(nextTag))
    {
      hide Existing, HasClient, Submitted, NewIdsDistinct, NewNameUsers, NotIn, NamesMixed, IsSubsequence,
        DistinctInputs, AllStorable, AllReadable, Identified, InsertedFor;
      NotInFilters(inputs, []);
      if |inputs| == 0 {
        EmptyBatch(shape, rows, inputs, author, nextTag);
        return Ok(([], []));
      }
      var valid := Validate(shape, inputs);
      if valid.Err? {
        return Err(valid.error);
      }
      var existing := Existing(rows, inputs);
      var todo := NotIn(inputs, existing);
      Prepared(shape, rows, inputs, existing, author, nextTag);
      ghost var firstTag := nextTag;
      var inserted: seq<UniformRow> := [];
      assert rows + inserted == rows && todo[..0] == [];
      for i := 0 to |todo|
        invariant rows == old(rows) && Valid()
        invariant Identified(rows + inserted, nextTag) && AllReadable(shape, inserted)
        invariant InsertedFor(shape, inserted, author, todo[..i], firstTag) && nextTag == firstTag + i
        invariant DistinctInputs(todo[..i]) && AllStorable(shape, todo[..i])
      {
        assert todo[..i+1] == todo[..i] + [todo[i]];
        NewIdAbsent(rows, inputs, todo, i);
        NextDecides(shape, inserted, author, todo[..i], todo[i], firstTag);
        var row := InsertRowInTx(author, todo[i], inserted);
        if row.Err? {
          RepeatSpoils(shape, todo, i + 1);
          return Err(row.error);
        }
        OneMoreInserted(shape, inserted, author, todo[..i], todo[i], row.value, firstTag);
        inserted := inserted + [row.value];
      }
      assert todo[..|todo|] == todo;
      ReadableConcat(shape, rows, inserted);
      rows := rows + inserted;
      r := Ok((inserted, existing));
    }
  }

  /** What holds before the first insert. */
  lemma {:induction false} Prepared(shape: TextShape, rows: seq<UniformRow>, inputs: seq<CreateInput>, existing: seq<string>, author: string, tag: Tag)
    requires existing == Existing(rows, inputs)
    ensures var todo := NotIn(inputs, existing);
      && IsSubsequence(todo, inputs)
      && (DistinctInputs(todo) <==> NewIdsDistinct(rows, inputs))
      && (AllStorable(shape, todo) <==> NewNameUsers(shape, rows, inputs))
    ensures InsertedFor(shape, [], author, [], tag) && DistinctInputs([]) && AllStorable(shape, []) && AllReadable(shape, [])
  {
    hide HasClient;
    ExistingDecides(rows, inputs);
    NotInDistinct(rows, inputs, existing);
    NotInStorable(shape, rows, inputs, existing);
    NotInFilters(inputs, existing);
  }

  /** The next insert succeeds exactly if the inputs so far stay distinct and storable. */
  lemma {:induction false} NextDecides(shape: TextShape, inserted: seq<UniformRow>, author: string, done: seq<CreateInput>, next: CreateInput, tag: Tag)
    requires InsertedFor(shape, inserted, author, done, tag)
    ensures DistinctInputs(done + [next]) <==> DistinctInputs(done) && !HasClient(inserted, next.clientId)
    ensures AllStorable(shape, done + [next]) <==> AllStorable(shape, done) && !NamesMixed(shape, next)
  {
    hide StoredAs, HasClient, Storable, NamesMixed;
    forall k | 0 <= k < |inserted| ensures inserted[k].clientId == done[k].clientId {
      StoredClient(shape, inserted[k], author, done[k]);
    }
    SameClients(inserted, done, next.clientId);
    DistinctSnoc(done, next);
    StorableIff(shape, next);
    StorableSnoc(shape, done, next);
  }

  lemma {:induction false} OneMoreInserted(shape: TextShape, inserted: seq<UniformRow>, author: string, done: seq<CreateInput>, next: CreateInput, row: UniformRow, tag: Tag)
    requires InsertedFor(shape, inserted, author, done, tag) && AllReadable(shape, inserted)
    requires StoredAs(shape, row, author, next) && row.id == row.etag == tag + |done| && Readable(shape, row)
    ensures InsertedFor(shape, inserted + [row], author, done + [next], tag) && AllReadable(shape, inserted + [row])
  {
    hide StoredAs, Readable;
    assert (inserted + [row])[|inserted|] == row && (done + [next])[|done|] == next;
    assert forall k :: 0 <= k < |inserted| ==> (inserted + [row])[k] == inserted[k] && (done + [next])[k] == done[k];
  }

  lemma ReadableConcat(shape: TextShape, a: seq<UniformRow>, b: seq<UniformRow>)
    requires AllReadable(shape, a) && AllReadable(shape, b)
    ensures AllReadable(shape, a + b)
  {
    hide Readable;
  }

  lemma EmptyBatch(shape: TextShape, rows: seq<UniformRow>, inputs: seq<CreateInput>, author: string, tag: Tag)
    requires |inputs| == 0
    ensures InsertedFor(shape, [], author, NotIn(inputs, []), tag)
    ensures NewIdsDistinct(rows, inputs) && NewNameUsers(shape, rows, inputs) && forall id :: !Submitted(inputs, id)
  {
  }

  lemma ExistingDecides(rows: seq<UniformRow>, inputs: seq<CreateInput>)
    ensures forall k :: 0 <= k < |inputs| ==>
      (inputs[k].clientId in Existing(rows, inputs) <==> HasClient(rows, inputs[k].clientId))
  {
  }

  lemma {:induction false} NewIdAbsent(rows: seq<UniformRow>, inputs: seq<CreateInput>, todo: seq<CreateInput>, i: nat)
    requires todo == NotIn(inputs, Existing(rows, inputs)) && i < |todo|
    ensures !HasClient(rows, todo[i].clientId)
  {
    hide HasClient, Existing;
    NotInStaysNew(inputs, Existing(rows, inputs));
    var id := todo[i].clientId;
    NotInSubmitted(inputs, Existing(rows, inputs), id);
    assert Submitted(todo, id);
  }

  lemma RepeatSpoils(shape: TextShape, inputs: seq<CreateInput>, k: nat)
    requires k <= |inputs|
    ensures DistinctInputs(inputs) ==> DistinctInputs(inputs[..k])
    ensures AllStorable(shape, inputs) ==> AllStorable(shape, inputs[..k])
  {
  }
}
