/** src/ids.rs: pseudonymous speaker ids. */
module Ids {
  import opened Prelude

  const MIXED_PSEUDO_ID := "mixed"

  predicate IsHexDigit(c: char) { '0' <= c <= '9' || 'a' <= c <= 'f' }

  /** `^[0-9a-f]{24}$` */
  predicate IsValidPseudoId(s: string) {
    |s| == 24 && forall i :: 0 <= i < |s| ==> IsHexDigit(s[i])
  }

  predicate IsSpeaker(s: string) { s == MIXED_PSEUDO_ID || IsValidPseudoId(s) }

  /** A value that passed `PseudoId::new_or_mixed`. */
  type PseudoId = s: string | IsSpeaker(s) witness MIXED_PSEUDO_ID

  datatype PseudoIdError = Invalid

  function NewOrMixed(raw: string): (r: Result<PseudoId, PseudoIdError>)
    ensures r.Ok? <==> IsSpeaker(raw)
    ensures r.Ok? ==> r.value == raw
  {
    if raw == MIXED_PSEUDO_ID || IsValidPseudoId(raw) then Ok(raw) else Err(Invalid)
  }
}
