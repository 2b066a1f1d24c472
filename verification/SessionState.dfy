/** src/state.rs: session statuses and the authoritative transition table. */
module SessionState {
  datatype SessionStatus =
    | Recording
    | Uploaded
    | Transcribing
    | TranscribingFailed
    | Transcribed
    | Abandoned
    | Deleted

  predicate CanTransition(from: SessionStatus, to: SessionStatus) {
    match from
    case Recording => to in {Uploaded, Abandoned, Deleted}
    case Uploaded => to in {Transcribing, Abandoned, Deleted}
    case Transcribing => to in {Transcribing, Transcribed, TranscribingFailed, Deleted}
    case TranscribingFailed => to in {Transcribing, Deleted}
    case Transcribed => to == Deleted
    case Abandoned => to == Deleted
    case Deleted => false
  }

  /**
   Deleted is terminal and reachable from every other status in one step; only
   Transcribing may be re-entered; nothing leads back to Recording; and the way
   to Transcribed is through Uploaded and Transcribing alone.
   */
  lemma TransitionTableLaws(from: SessionStatus, to: SessionStatus)
    ensures CanTransition(from, Deleted) <==> from != Deleted
    ensures CanTransition(from, from) <==> from == Transcribing
    ensures !CanTransition(Deleted, to) && !CanTransition(from, Recording)
    ensures CanTransition(from, Transcribed) <==> from == Transcribing
    ensures CanTransition(from, TranscribingFailed) <==> from == Transcribing
    ensures CanTransition(from, Transcribing) <==> from in {Uploaded, Transcribing, TranscribingFailed}
    ensures CanTransition(from, Uploaded) <==> from == Recording
    ensures CanTransition(from, Abandoned) <==> from in {Recording, Uploaded}
  {
  }
}
