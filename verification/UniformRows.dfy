/** src/db/uniform.rs: the row shared by segments, beats and scenes, and what a patch does to it. */
module UniformRows {
  import opened Prelude
  import opened Ids

  /** An opaque revision marker; the generator never repeats one. */
  type Tag = nat
  type Json = string

  datatype TextShape = Segment | TitleSummary

  datatype UniformRow = UniformRow(
    id: nat,
    clientId: string,
    pseudoId: Option<PseudoId>,
    startMs: int,
    endMs: int,
    text: Option<string>,
    title: Option<string>,
    summary: Option<string>,
    confidence: Option<real>,
    flags: Json,
    original: Option<Json>,
    etag: Tag,
    authorService: string,
    authorUser: Option<PseudoId>)

  datatype PatchInput = PatchInput(
    text: Option<string>,
    title: Option<string>,
    summary: Option<string>,
    confidence: Option<Option<real>>,
    startMs: Option<int>,
    endMs: Option<int>,
    flags: Option<Json>,
    authorUser: Option<PseudoId>)

  function Or<T>(o: Option<T>, default: T): T { if o.Some? then o.value else default }

  function OrElse<T>(o: Option<T>, p: Option<T>): Option<T> { if o.Some? then o else p }

  /** `apply_patch` and the UPDATE after it: a full overwrite of the mutable columns. */
  function ApplyPatch(shape: TextShape, row: UniformRow, p: PatchInput, tag: Tag): UniformRow {
    var out := row.(
      startMs := Or(p.startMs, row.startMs),
      endMs := Or(p.endMs, row.endMs),
      flags := Or(p.flags, row.flags),
      authorUser := OrElse(p.authorUser, row.authorUser),
      etag := tag);
    match shape
    case Segment => out.(text := OrElse(p.text, row.text), confidence := Or(p.confidence, row.confidence))
    case TitleSummary => out.(title := OrElse(p.title, row.title), summary := OrElse(p.summary, row.summary))
  }

  // ----- whom a row may name -----

  /**
   Request bodies may say `mixed` wherever they name a speaker; the CHECK on
   author_user_pseudo_id and the row decoder take real users only.
   */
  predicate NamesUser(o: Option<PseudoId>) { o.Some? ==> IsValidPseudoId(o.value) }

  lemma NamesUserIff(o: Option<PseudoId>)
    ensures NamesUser(o) <==> o != Some(MIXED_PSEUDO_ID)
  {
  }

  /** What the row decoder accepts; it looks at the speaker of a segment only. */
  predicate Readable(shape: TextShape, row: UniformRow) {
    NamesUser(row.authorUser) && (shape.Segment? ==> NamesUser(row.pseudoId))
  }

  lemma PatchKeepsReadable(shape: TextShape, row: UniformRow, p: PatchInput, tag: Tag)
    requires Readable(shape, row) && NamesUser(p.authorUser)
    ensures Readable(shape, ApplyPatch(shape, row, p, tag))
  {
  }
}
