/** src/events.rs: the event envelope and its accessors. */
module Events {
  import opened Ids
  import opened SessionState

  type Uuid = nat
  type Timestamp = int

  datatype Event =
    | SessionStateChanged(atTs: Timestamp, session: Uuid, guild: int, old_: SessionStatus, new_: SessionStatus)
    | ChunkUploaded(atTs: Timestamp, session: Uuid, guild: int, speaker: PseudoId, number: int, sizeBytes: int)
    | SegmentCreated(atTs: Timestamp, session: Uuid, guild: int, id: Uuid)
    | SegmentUpdated(atTs: Timestamp, session: Uuid, guild: int, id: Uuid)
    | SegmentDeleted(atTs: Timestamp, session: Uuid, guild: int, id: Uuid)
    | BeatCreated(atTs: Timestamp, session: Uuid, guild: int, id: Uuid)
    | BeatUpdated(atTs: Timestamp, session: Uuid, guild: int, id: Uuid)
    | BeatDeleted(atTs: Timestamp, session: Uuid, guild: int, id: Uuid)
    | SceneCreated(atTs: Timestamp, session: Uuid, guild: int, id: Uuid)
    | SceneUpdated(atTs: Timestamp, session: Uuid, guild: int, id: Uuid)
    | SceneDeleted(atTs: Timestamp, session: Uuid, guild: int, id: Uuid)
    | MuteRangeCreated(atTs: Timestamp, session: Uuid, guild: int, speaker: PseudoId, rangeId: Uuid)
    | MuteRangeDeleted(atTs: Timestamp, session: Uuid, guild: int, speaker: PseudoId, rangeId: Uuid)
    | AudioDeleted(atTs: Timestamp, session: Uuid, guild: int, speaker: PseudoId)
  {
    /** The wire `type` tag a subscriber names. */
    function Name(): string {
      match this
      case SessionStateChanged(_, _, _, _, _) => "session_state_changed"
      case ChunkUploaded(_, _, _, _, _, _) => "chunk_uploaded"
      case SegmentCreated(_, _, _, _) => "segment_created"
      case SegmentUpdated(_, _, _, _) => "segment_updated"
      case SegmentDeleted(_, _, _, _) => "segment_deleted"
      case BeatCreated(_, _, _, _) => "beat_created"
      case BeatUpdated(_, _, _, _) => "beat_updated"
      case BeatDeleted(_, _, _, _) => "beat_deleted"
      case SceneCreated(_, _, _, _) => "scene_created"
      case SceneUpdated(_, _, _, _) => "scene_updated"
      case SceneDeleted(_, _, _, _) => "scene_deleted"
      case MuteRangeCreated(_, _, _, _, _) => "mute_range_created"
      case MuteRangeDeleted(_, _, _, _, _) => "mute_range_deleted"
      case AudioDeleted(_, _, _, _) => "audio_deleted"
    }
  }

  /** The words of the variant's name, as the wire format's snake_case renaming splits it. */
  function Words(e: Event): seq<string> {
    match e
    case SessionStateChanged(_, _, _, _, _) => ["Session", "State", "Changed"]
    case ChunkUploaded(_, _, _, _, _, _) => ["Chunk", "Uploaded"]
    case SegmentCreated(_, _, _, _) => ["Segment", "Created"]
    case SegmentUpdated(_, _, _, _) => ["Segment", "Updated"]
    case SegmentDeleted(_, _, _, _) => ["Segment", "Deleted"]
    case BeatCreated(_, _, _, _) => ["Beat", "Created"]
    case BeatUpdated(_, _, _, _) => ["Beat", "Updated"]
    case BeatDeleted(_, _, _, _) => ["Beat", "Deleted"]
    case SceneCreated(_, _, _, _) => ["Scene", "Created"]
    case SceneUpdated(_, _, _, _) => ["Scene", "Updated"]
    case SceneDeleted(_, _, _, _) => ["Scene", "Deleted"]
    case MuteRangeCreated(_, _, _, _, _) => ["Mute", "Range", "Created"]
    case MuteRangeDeleted(_, _, _, _, _) => ["Mute", "Range", "Deleted"]
    case AudioDeleted(_, _, _, _) => ["Audio", "Deleted"]
  }

  function Uncapitalized(word: string): string {
    if |word| > 0 && 'A' <= word[0] <= 'Z' then [(word[0] as int + 32) as char] + word[1..] else word
  }

  function SnakeCase(words: seq<string>): string {
    if |words| == 0 then ""
    else if |words| == 1 then Uncapitalized(words[0])
    else SnakeCase(words[..|words|-1]) + "_" + Uncapitalized(words[|words|-1])
  }

  lemma TwoWords(a: string, b: string)
    ensures SnakeCase([a, b]) == Uncapitalized(a) + "_" + Uncapitalized(b)
  {
    assert [a, b][..1] == [a];
  }

  lemma ThreeWords(a: string, b: string, c: string)
    ensures SnakeCase([a, b, c]) == Uncapitalized(a) + "_" + Uncapitalized(b) + "_" + Uncapitalized(c)
  {
    assert [a, b, c][..2] == [a, b];
    TwoWords(a, b);
  }

  /** `a` and `b` joined, read letter by letter. */
  lemma JoinsTo(a: string, b: string, c: string)
    requires |c| == |a| + 1 + |b| && c[..|a|] == a && c[|a|] == '_' && c[|a|+1..] == b
    ensures a + "_" + b == c
  {
  }

  lemma LoweredSession()
    ensures Uncapitalized("Session") == "session" && Uncapitalized("State") == "state" && Uncapitalized("Changed") == "changed"
  {
  }

  lemma LoweredChunk()
    ensures Uncapitalized("Chunk") == "chunk" && Uncapitalized("Uploaded") == "uploaded" && Uncapitalized("Audio") == "audio"
  {
  }

  lemma LoweredResources()
    ensures Uncapitalized("Segment") == "segment" && Uncapitalized("Beat") == "beat" && Uncapitalized("Scene") == "scene"
  {
  }

  lemma LoweredActions()
    ensures Uncapitalized("Created") == "created" && Uncapitalized("Updated") == "updated" && Uncapitalized("Deleted") == "deleted"
  {
  }

  lemma LoweredMute()
    ensures Uncapitalized("Mute") == "mute" && Uncapitalized("Range") == "range"
  {
  }

  lemma {:induction false} SegmentNames(e: Event)
    requires e.SegmentCreated? || e.SegmentUpdated? || e.SegmentDeleted?
    ensures e.Name() == SnakeCase(Words(e))
  {
    hide SnakeCase, Uncapitalized;
    LoweredResources();
    LoweredActions();
    match e
    case SegmentCreated(_, _, _, _) => TwoWords("Segment", "Created"); JoinsTo("segment", "created", "segment_created");
    case SegmentUpdated(_, _, _, _) => TwoWords("Segment", "Updated"); JoinsTo("segment", "updated", "segment_updated");
    case SegmentDeleted(_, _, _, _) => TwoWords("Segment", "Deleted"); JoinsTo("segment", "deleted", "segment_deleted");
  }

  lemma {:induction false} BeatNames(e: Event)
    requires e.BeatCreated? || e.BeatUpdated? || e.BeatDeleted?
    ensures e.Name() == SnakeCase(Words(e))
  {
    hide SnakeCase, Uncapitalized;
    LoweredResources();
    LoweredActions();
    match e
    case BeatCreated(_, _, _, _) => TwoWords("Beat", "Created"); JoinsTo("beat", "created", "beat_created");
    case BeatUpdated(_, _, _, _) => TwoWords("Beat", "Updated"); JoinsTo("beat", "updated", "beat_updated");
    case BeatDeleted(_, _, _, _) => TwoWords("Beat", "Deleted"); JoinsTo("beat", "deleted", "beat_deleted");
  }

  lemma {:induction false} SceneNames(e: Event)
    requires e.SceneCreated? || e.SceneUpdated? || e.SceneDeleted?
    ensures e.Name() == SnakeCase(Words(e))
  {
    hide SnakeCase, Uncapitalized;
    LoweredResources();
    LoweredActions();
    match e
    case SceneCreated(_, _, _, _) => TwoWords("Scene", "Created"); JoinsTo("scene", "created", "scene_created");
    case SceneUpdated(_, _, _, _) => TwoWords("Scene", "Updated"); JoinsTo("scene", "updated", "scene_updated");
    case SceneDeleted(_, _, _, _) => TwoWords("Scene", "Deleted"); JoinsTo("scene", "deleted", "scene_deleted");
  }

  lemma {:induction false} MuteNames(e: Event)
    requires e.MuteRangeCreated? || e.MuteRangeDeleted?
    ensures e.Name() == SnakeCase(Words(e))
  {
    hide SnakeCase, Uncapitalized;
    LoweredMute();
    LoweredActions();
    match e
    case MuteRangeCreated(_, _, _, _, _) =>
      ThreeWords("Mute", "Range", "Created");
      JoinsTo("mute", "range", "mute_range");
      JoinsTo("mute_range", "created", "mute_range_created");
    case MuteRangeDeleted(_, _, _, _, _) =>
      ThreeWords("Mute", "Range", "Deleted");
      JoinsTo("mute", "range", "mute_range");
      JoinsTo("mute_range", "deleted", "mute_range_deleted");
  }

  lemma {:induction false} SessionNames(e: Event)
    requires e.SessionStateChanged? || e.ChunkUploaded? || e.AudioDeleted?
    ensures e.Name() == SnakeCase(Words(e))
  {
    hide SnakeCase, Uncapitalized;
    LoweredSession();
    LoweredChunk();
    LoweredActions();
    match e
    case SessionStateChanged(_, _, _, _, _) =>
      ThreeWords("Session", "State", "Changed");
      JoinsTo("session", "state", "session_state");
      JoinsTo("session_state", "changed", "session_state_changed");
    case ChunkUploaded(_, _, _, _, _, _) => TwoWords("Chunk", "Uploaded"); JoinsTo("chunk", "uploaded", "chunk_uploaded");
    case AudioDeleted(_, _, _, _) => TwoWords("Audio", "Deleted"); JoinsTo("audio", "deleted", "audio_deleted");
  }

  /** The name a subscriber uses is the event's `type` tag on the wire. */
  lemma {:induction false} NameIsWireTag(e: Event)
    ensures e.Name() == SnakeCase(Words(e))
  {
    hide SnakeCase, Words;
    if e.SegmentCreated? || e.SegmentUpdated? || e.SegmentDeleted? {
      SegmentNames(e);
    } else if e.BeatCreated? || e.BeatUpdated? || e.BeatDeleted? {
      BeatNames(e);
    } else if e.SceneCreated? || e.SceneUpdated? || e.SceneDeleted? {
      SceneNames(e);
    } else if e.MuteRangeCreated? || e.MuteRangeDeleted? {
      MuteNames(e);
    } else {
      SessionNames(e);
    }
  }

  /** Capacity of the shared broadcast ring. */
  const BUS_CAPACITY: nat := 4096
}
