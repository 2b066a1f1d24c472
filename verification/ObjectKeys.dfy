/**
 The object key an upload stores its bytes under, and why that key can be read
 back: a right-to-left parser recovers prefix, speaker and seq.
 */
module ObjectKeys {
  import opened Prelude
  import opened Ids

  datatype KeyParts = KeyParts(prefix: string, pid: PseudoId, number: nat)

  function DigitChar(d: nat): (c: char)
    requires d < 10
    ensures '0' <= c <= '9' && c as int == '0' as int + d
  {
    ('0' as int + d) as char
  }

  predicate AllDigits(s: string) { forall i :: 0 <= i < |s| ==> '0' <= s[i] <= '9' }

  function Decimal(n: nat): (s: string)
    ensures |s| > 0 && AllDigits(s)
  {
    if n < 10 then [DigitChar(n)] else Decimal(n / 10) + [DigitChar(n % 10)]
  }

  function Zeros(k: nat): (s: string)
    ensures |s| == k && forall i :: 0 <= i < k ==> s[i] == '0'
  {
    seq(k, i => '0')
  }

  /** Rust's `{:06}`: at least six digits, zero padded on the left. */
  function Pad6(n: nat): (s: string)
    ensures |s| >= 6 && AllDigits(s)
  {
    var d := Decimal(n);
    if |d| < 6 then Zeros(6 - |d|) + d else d
  }

  const AUDIO := "/audio"
  const CHUNK := "/chunk"
  const EXTENSION := ".pcm"

  /** `{prefix}/audio/{pid}/chunk_{seq:06}.pcm`, grouped by its two variable fields. */
  function FormatKey(k: KeyParts): string {
    Field(Field(k.prefix, AUDIO, '/', k.pid), CHUNK, '_', Pad6(k.number)) + EXTENSION
  }

  function Field(rest: string, marker: string, c: char, field: string): string {
    rest + marker + [c] + field
  }

  /** The key as one string; the seq has at least six digits, and more only from one million on. */
  lemma {:induction false} KeyShape(k: KeyParts)
    ensures FormatKey(k) == k.prefix + "/audio/" + k.pid + "/chunk_" + Pad6(k.number) + ".pcm"
    ensures |Pad6(k.number)| == Max(6, |Decimal(k.number)|)
  {
    assert AUDIO + ['/'] == "/audio/" && CHUNK + ['_'] == "/chunk_";
    var path := k.prefix + AUDIO + ['/'] + k.pid;
    assert path == k.prefix + "/audio/" + k.pid;
    assert path + CHUNK + ['_'] + Pad6(k.number) == path + "/chunk_" + Pad6(k.number);
  }

  // ----- reading decimals back -----

  function DecimalValue(s: string): nat
    requires AllDigits(s)
  {
    if |s| == 0 then 0
    else 10 * DecimalValue(s[..|s|-1]) + (s[|s|-1] as int - '0' as int)
  }

  lemma {:induction false} DecimalRoundTrip(n: nat)
    ensures DecimalValue(Decimal(n)) == n
  {
    if n >= 10 {
      var d := Decimal(n);
      assert d[..|d|-1] == Decimal(n / 10);
      DecimalRoundTrip(n / 10);
    } else {
      assert DecimalValue([]) == 0;
      assert [DigitChar(n)][..0] == [];
    }
  }

  lemma {:induction false} LeadingZeros(k: nat, s: string)
    requires AllDigits(s)
    ensures AllDigits(Zeros(k) + s) && DecimalValue(Zeros(k) + s) == DecimalValue(s)
    decreases k + |s|
  {
    var t := Zeros(k) + s;
    if |s| > 0 {
      assert t[..|t|-1] == Zeros(k) + s[..|s|-1];
      LeadingZeros(k, s[..|s|-1]);
    } else if k > 0 {
      assert t[..|t|-1] == Zeros(k - 1) + s;
      LeadingZeros(k - 1, s);
    } else {
      assert t == s;
    }
  }

  lemma {:induction false} Pad6RoundTrip(n: nat)
    ensures DecimalValue(Pad6(n)) == n
  {
    DecimalRoundTrip(n);
    var d := Decimal(n);
    if |d| < 6 {
      LeadingZeros(6 - |d|, d);
    }
  }

  // ----- the parser -----

  /** Position of the last `c` in `s`, or -1. */
  function LastIndexOf(s: string, c: char): (i: int)
    ensures -1 <= i < |s|
    ensures i >= 0 ==> s[i] == c
    ensures forall j :: i < j < |s| ==> s[j] != c
  {
    if |s| == 0 then -1
    else if s[|s|-1] == c then |s| - 1
    else LastIndexOf(s[..|s|-1], c)
  }

  lemma LastIndexUnique(s: string, c: char, i: nat)
    requires i < |s| && s[i] == c
    requires forall j :: i < j < |s| ==> s[j] != c
    ensures LastIndexOf(s, c) == i
  {
  }

  /** `s` without `suffix`, if it ends in it. */
  function StripSuffix(s: string, suffix: string): (r: Option<string>)
    ensures r.Some? ==> s == r.value + suffix
    ensures r.None? ==> |s| < |suffix| || s[|s|-|suffix|..] != suffix
  {
    if |s| >= |suffix| && s[|s|-|suffix|..] == suffix then Some(s[..|s|-|suffix|]) else None
  }

  lemma StripAppended(a: string, suffix: string)
    ensures StripSuffix(a + suffix, suffix) == Some(a)
  {
  }

  /** Splits off what follows the last `c`, and the marker just before that `c`. */
  function ParseField(s: string, marker: string, c: char): Option<(string, string)> {
    var i := LastIndexOf(s, c);
    if i < 0 then None else
    match StripSuffix(s[..i], marker)
    case None => None
    case Some(rest) => Some((rest, s[i+1..]))
  }

  lemma {:induction false} FieldRoundTrip(rest: string, marker: string, c: char, field: string)
    requires forall i :: 0 <= i < |field| ==> field[i] != c
    ensures ParseField(Field(rest, marker, c, field), marker, c) == Some((rest, field))
  {
    var s, i := Field(rest, marker, c, field), |rest + marker|;
    forall j | i < j < |s| ensures s[j] != c {
      assert s[j] == field[j - i - 1];
    }
    LastIndexUnique(s, c, i);
    assert s[..i] == rest + marker && s[i+1..] == field;
    StripAppended(rest, marker);
  }

  lemma ParsedFieldIsFormatted(s: string, marker: string, c: char)
    requires ParseField(s, marker, c).Some?
    ensures var (rest, field) := ParseField(s, marker, c).value; s == Field(rest, marker, c, field)
  {
  }

  /** Reads a key from the right: extension, seq, speaker text, and whatever is left as prefix. */
  function ReadFields(s: string): Option<(string, string, nat)> {
    match StripSuffix(s, EXTENSION)
    case None => None
    case Some(stem) =>
      match ParseField(stem, CHUNK, '_')
      case None => None
      case Some((path, digits)) =>
        match ParseField(path, AUDIO, '/')
        case None => None
        case Some((prefix, pid)) =>
          if AllDigits(digits) && Pad6(DecimalValue(digits)) == digits
          then Some((prefix, pid, DecimalValue(digits)))
          else None
  }

  function ParseKey(s: string): Option<KeyParts> {
    match ReadFields(s)
    case None => None
    case Some((prefix, pid, number)) => if IsSpeaker(pid) then Some(KeyParts(prefix, pid, number)) else None
  }

  /**
   The key determines what it was built from, for every prefix string (which
   may itself contain slashes or look like a key) and every seq; and nothing
   but a formatted key parses.
   */
  lemma {:induction false} KeyRoundTrip(s: string, k: KeyParts)
    ensures ParseKey(s) == Some(k) <==> s == FormatKey(k)
  {
    if s == FormatKey(k) {
      FormattedKeyParses(k);
    }
    if ParseKey(s) == Some(k) {
      var stem := StripSuffix(s, EXTENSION).value;
      ParsedFieldIsFormatted(stem, CHUNK, '_');
      ParsedFieldIsFormatted(ParseField(stem, CHUNK, '_').value.0, AUDIO, '/');
    }
  }

  /** What a key would be for any speaker text. */
  function KeyText(prefix: string, raw: string, n: nat): string {
    Field(Field(prefix, AUDIO, '/', raw), CHUNK, '_', Pad6(n)) + EXTENSION
  }

  /** No id that uploads accept has a slash. */
  lemma AcceptedHasNoSlash(raw: string)
    ensures NewOrMixed(raw).Ok? ==> '/' !in raw
  {
  }

  /** A key reads back as built, for any prefix and seq, if and only if its speaker text has no slash. */
  lemma {:induction false} ReadBackIffNoSlash(prefix: string, raw: string, n: nat)
    ensures ReadFields(KeyText(prefix, raw, n)) == Some((prefix, raw, n)) <==> '/' !in raw
    ensures NewOrMixed(raw).Ok? ==> ReadFields(KeyText(prefix, raw, n)) == Some((prefix, raw, n))
  {
    AcceptedHasNoSlash(raw);
    var path := Field(prefix, AUDIO, '/', raw);
    var stem := Field(path, CHUNK, '_', Pad6(n));
    StripAppended(stem, EXTENSION);
    FieldRoundTrip(path, CHUNK, '_', Pad6(n));
    Pad6RoundTrip(n);
    if '/' !in raw {
      FieldRoundTrip(prefix, AUDIO, '/', raw);
    } else {
      FieldIsClean(path, AUDIO, '/');
    }
  }

  lemma FieldIsClean(s: string, marker: string, c: char)
    ensures ParseField(s, marker, c).Some? ==> c !in ParseField(s, marker, c).value.1
  {
  }

  lemma {:induction false} FormattedKeyParses(k: KeyParts)
    ensures ParseKey(FormatKey(k)) == Some(k)
  {
    ReadBackIffNoSlash(k.prefix, k.pid, k.number);
  }

  lemma {:induction false} KeysInjective(k: KeyParts, l: KeyParts)
    requires FormatKey(k) == FormatKey(l)
    ensures k == l
  {
    KeyRoundTrip(FormatKey(k), k);
    KeyRoundTrip(FormatKey(k), l);
  }

  // ----- listing order -----

  /** Lexicographic order, as an object-store listing uses it. */
  predicate LexLess(a: string, b: string) {
    |b| > 0 && (|a| == 0 || a[0] < b[0] || (a[0] == b[0] && LexLess(a[1..], b[1..])))
  }

  lemma {:induction false} LexCommonPrefix(p: string, a: string, b: string)
    ensures LexLess(p + a, p + b) <==> LexLess(a, b)
  {
    if |p| == 0 {
      assert p + a == a && p + b == b;
    } else {
      assert (p + a)[1..] == p[1..] + a && (p + b)[1..] == p[1..] + b;
      LexCommonPrefix(p[1..], a, b);
    }
  }

  lemma {:induction false} LexSnoc(a: string, x: char, b: string, y: char, c: string)
    requires |a| == |b|
    ensures LexLess(a + [x] + c, b + [y] + c) <==>
            LexLess(a, b) || (a == b && (x < y || (x == y && LexLess(c, c))))
  {
    var s, t := a + [x] + c, b + [y] + c;
    if |a| == 0 {
      assert s[1..] == c && t[1..] == c;
    } else {
      assert s[1..] == a[1..] + [x] + c && t[1..] == b[1..] + [y] + c;
      assert a == b <==> a[0] == b[0] && a[1..] == b[1..] by {
        assert a == [a[0]] + a[1..] && b == [b[0]] + b[1..];
      }
      LexSnoc(a[1..], x, b[1..], y, c);
    }
  }

  lemma {:induction false} LexIrreflexive(a: string)
    ensures !LexLess(a, a)
  {
    if |a| > 0 { LexIrreflexive(a[1..]); }
  }

  lemma {:induction false} DecimalOrder(a: string, b: string, c: string)
    requires AllDigits(a) && AllDigits(b) && |a| == |b|
    ensures LexLess(a + c, b + c) <==> DecimalValue(a) < DecimalValue(b)
    ensures a == b <==> DecimalValue(a) == DecimalValue(b)
  {
    LexIrreflexive(c);
    if |a| == 0 {
      assert a + c == c && b + c == c;
    } else {
      var a', b' := a[..|a|-1], b[..|b|-1];
      var x, y := a[|a|-1], b[|b|-1];
      assert a == a' + [x] && b == b' + [y];
      DecimalOrder(a', b', []);
      assert a' + [] == a' && b' + [] == b';
      LexSnoc(a', x, b', y, c);
    }
  }

  lemma {:induction false} DecimalWidth(n: nat, w: nat, bound: nat)
    requires w > 0 && bound == Pow10(w) && n < bound
    ensures |Decimal(n)| <= w
  {
    if n >= 10 {
      DecimalWidth(n / 10, w - 1, Pow10(w - 1));
    }
  }

  function Pow10(w: nat): nat { if w == 0 then 1 else 10 * Pow10(w - 1) }

  /** The part of a key before its padded seq. */
  function KeyStem(prefix: string, pid: PseudoId): string {
    Field(prefix, AUDIO, '/', pid) + CHUNK + ['_']
  }

  lemma KeyIsStemAndNumber(prefix: string, pid: PseudoId, n: nat)
    ensures FormatKey(KeyParts(prefix, pid, n)) == KeyStem(prefix, pid) + (Pad6(n) + EXTENSION)
  {
  }

  /** Below one million chunks a listing of one speaker's keys is in seq order. */
  lemma {:induction false} ListingOrder(prefix: string, pid: PseudoId, m: nat, n: nat)
    requires m < 1_000_000 && n < 1_000_000
    ensures LexLess(FormatKey(KeyParts(prefix, pid, m)), FormatKey(KeyParts(prefix, pid, n))) <==> m < n
  {
    assert Pow10(6) == 1_000_000 by {
      assert Pow10(3) == 1000;
    }
    DecimalWidth(m, 6, 1_000_000);
    DecimalWidth(n, 6, 1_000_000);
    KeyIsStemAndNumber(prefix, pid, m);
    KeyIsStemAndNumber(prefix, pid, n);
    LexCommonPrefix(KeyStem(prefix, pid), Pad6(m) + EXTENSION, Pad6(n) + EXTENSION);
    DecimalOrder(Pad6(m), Pad6(n), EXTENSION);
    Pad6RoundTrip(m);
    Pad6RoundTrip(n);
  }

  /** The millionth chunk is where listing order and seq order part. */
  lemma {:induction false} ListingOrderBreaksAtOneMillion(prefix: string, pid: PseudoId)
    ensures LexLess(FormatKey(KeyParts(prefix, pid, 1_000_000)), FormatKey(KeyParts(prefix, pid, 999_999)))
  {
    var big, small := Pad6(1_000_000), Pad6(999_999);
    assert big[0] == '1' && small[0] == '9' by {
      assert Decimal(1_000_000)[0] == '1';
      assert Decimal(999_999)[0] == '9' && |Decimal(999_999)| == 6;
    }
    KeyIsStemAndNumber(prefix, pid, 1_000_000);
    KeyIsStemAndNumber(prefix, pid, 999_999);
    LexCommonPrefix(KeyStem(prefix, pid), big + EXTENSION, small + EXTENSION);
  }

  /** The first `count` keys of a speaker are listed in seq order. */
  ghost predicate ListedInOrder(prefix: string, pid: PseudoId, count: nat) {
    forall m: nat, n: nat | m < count && n < count ::
      LexLess(FormatKey(KeyParts(prefix, pid, m)), FormatKey(KeyParts(prefix, pid, n))) <==> m < n
  }

  /** A listing is in seq order exactly up to one million chunks per speaker. */
  lemma {:induction false} ListedInOrderIff(prefix: string, pid: PseudoId, count: nat)
    ensures ListedInOrder(prefix, pid, count) <==> count <= 1_000_000
  {
    hide FormatKey, LexLess;
    if count <= 1_000_000 {
      forall m: nat, n: nat | m < count && n < count
        ensures LexLess(FormatKey(KeyParts(prefix, pid, m)), FormatKey(KeyParts(prefix, pid, n))) <==> m < n
      {
        ListingOrder(prefix, pid, m, n);
      }
    } else {
      ListingOrderBreaksAtOneMillion(prefix, pid);
    }
  }
}
