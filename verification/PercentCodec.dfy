/**
 Percent-encoding of path segments (`seg`, src/linkedin/endpoints.rs) and the lenient decoder
 for pasted identifiers (`percent_decode`, src/linkedin/url.rs), both on the UTF-8 bytes.
 */
module PercentCodec {
  import opened Common

  type Byte = b: int | 0 <= b < 256
  type Bytes = seq<Byte>

  /** ASCII codes. */
  const PERCENT: Byte := 0x25
  const PLUS: Byte := 0x2B

  /** Section 2.3 of RFC 3986: letters, digits, hyphen, full stop, underscore and tilde. */
  predicate Unreserved(b: Byte) {
    || 0x41 <= b <= 0x5A
    || 0x61 <= b <= 0x7A
    || 0x30 <= b <= 0x39
    || b == 0x2D || b == 0x2E || b == 0x5F || b == 0x7E
  }

  /** Upper-case hexadecimal digit. */
  function Digit(n: nat): (b: Byte)
    requires n < 16
  {
    if n < 10 then 0x30 + n else 0x41 + n - 10
  }

  function DigitValue(b: Byte): (n: Option<nat>)
    ensures n.Some? ==> n.value < 16
  {
    if 0x30 <= b <= 0x39 then Some(b - 0x30)
    else if 0x41 <= b <= 0x46 then Some(b - 0x41 + 10)
    else if 0x61 <= b <= 0x66 then Some(b - 0x61 + 10)
    else None
  }

  // ------------------------------------------------------------------------------ encoder

  function Escape(b: Byte): Bytes {
    if Unreserved(b) then [b] else [PERCENT, Digit(b / 16), Digit(b % 16)]
  }

  function Encoded(value: Bytes): Bytes {
    if value == [] then [] else Escape(value[0]) + Encoded(value[1..])
  }

  method Seg(value: Bytes) returns (out: Bytes)
    ensures out == Encoded(value)
  {
    hide Unreserved, Digit, Encoded;
    out := [];
    for i := 0 to |value|
      invariant out + Encoded(value[i..]) == Encoded(value)
    {
      var b := value[i];
      EncodedFrom(value, i);
      ghost var before := out;
      if Unreserved(b) {
        out := out + [b];
      } else {
        var high, low := b / 16, b % 16;
        out := out + [PERCENT, Digit(high), Digit(low)];
      }
      assert out == before + Escape(b);
      assert before + (Escape(b) + Encoded(value[i + 1..])) == out + Encoded(value[i + 1..]);
    }
    EncodedNothing();
    assert value[|value|..] == [] && out + [] == out;
  }

  lemma {:induction false} EncodedFrom(value: Bytes, i: nat)
    requires i < |value|
    ensures Encoded(value[i..]) == Escape(value[i]) + Encoded(value[i + 1..])
  {
    assert value[i..][1..] == value[i + 1..];
  }

  lemma {:induction false} EncodedNothing()
    ensures Encoded([]) == []
  {
  }

  // ------------------------------------------------------------------------------ decoder

  predicate Continuation(b: Byte) {
    0x80 <= b < 0xC0
  }

  /** `str::is_char_boundary` */
  predicate Boundary(s: Bytes, i: nat) {
    i == 0 || i == |s| || (i < |s| && !Continuation(s[i]))
  }

  /** `u8::from_str_radix(_, 16)` on two bytes: a leading plus sign is skipped. */
  function Radix16(hi: Byte, lo: Byte): Option<Byte> {
    match (if hi == PLUS then Some(0) else DigitValue(hi), DigitValue(lo))
    case (Some(h), Some(l)) => Some(16 * h + l)
    case _ => None
  }

  function Prepend(front: Bytes, rest: Option<Bytes>): Option<Bytes> {
    match rest
    case Some(bytes) => Some(front + bytes)
    case None => None
  }

  /** The decoded bytes; None when the two characters after a '%' cannot be sliced and the code panics. */
  function Decoded(s: Bytes): Option<Bytes> {
    if s == [] then Some([])
    else if s[0] == PERCENT && 2 < |s| then
      if !Boundary(s, 1) || !Boundary(s, 3) then None
      else
        match Radix16(s[1], s[2])
        case Some(code) => Prepend([code], Decoded(s[3..]))
        case None => Prepend([s[0]], Decoded(s[1..]))
    else Prepend([s[0]], Decoded(s[1..]))
  }

  /** `lossy` stands for `String::from_utf8_lossy`. */
  method PercentDecode(value: Bytes, lossy: Bytes -> Bytes) returns (text: Option<Bytes>)
    ensures text == DecodedText(value, lossy)
  {
    hide Radix16;
    var out: Bytes := [];
    var i := 0;
    assert value[0..] == value;
    assert Decoded(value) == Prepend([], Decoded(value)) by {
      PrependNothing(Decoded(value));
    }
    while i < |value|
      invariant i <= |value|
      invariant Decoded(value) == Prepend(out, Decoded(value[i..]))
    {
      ghost var rest := value[i..];
      assert rest[1..] == value[i + 1..];
      if value[i] == PERCENT && i + 2 < |value| {
        assert rest[3..] == value[i + 3..];
        assert Boundary(value, i + 1) == Boundary(rest, 1) && Boundary(value, i + 3) == Boundary(rest, 3);
        if !Boundary(value, i + 1) || !Boundary(value, i + 3) {
          return None;
        }
        var code := Radix16(value[i + 1], value[i + 2]);
        if code.Some? {
          PrependTwice(out, [code.value], Decoded(rest[3..]));
          out := out + [code.value];
          i := i + 3;
          continue;
        }
      }
      PrependTwice(out, [value[i]], Decoded(rest[1..]));
      out := out + [value[i]];
      i := i + 1;
    }
    assert value[i..] == [];
    assert out + [] == out;
    return Some(lossy(out));
  }

  function DecodedText(value: Bytes, lossy: Bytes -> Bytes): Option<Bytes> {
    match Decoded(value)
    case Some(bytes) => Some(lossy(bytes))
    case None => None
  }

  lemma {:induction false} PrependNothing(rest: Option<Bytes>)
    ensures Prepend([], rest) == rest
  {
    if rest.Some? {
      assert [] + rest.value == rest.value;
    }
  }

  lemma {:induction false} PrependTwice(a: Bytes, b: Bytes, rest: Option<Bytes>)
    ensures Prepend(a, Prepend(b, rest)) == Prepend(a + b, rest)
  {
    if rest.Some? {
      assert a + (b + rest.value) == a + b + rest.value;
    }
  }

  // ------------------------------------------------------------------------------ round trips

  lemma {:induction false} DigitBack(n: nat)
    requires n < 16
    ensures DigitValue(Digit(n)) == Some(n) && Digit(n) < 0x80 && Digit(n) != PLUS
  {
  }

  lemma {:induction false} EncodedAscii(s: Bytes)
    ensures forall i :: 0 <= i < |Encoded(s)| ==> Encoded(s)[i] < 0x80
  {
    hide Digit;
    if s != [] {
      DigitBack(s[0] / 16);
      DigitBack(s[0] % 16);
      EncodedAscii(s[1..]);
    }
  }

  lemma {:induction false} DecodeEscape(b: Byte, rest: Bytes)
    requires rest != [] ==> !Continuation(rest[0])
    ensures Decoded(Escape(b) + rest) == Prepend([b], Decoded(rest))
  {
    hide Digit;
    DigitBack(b / 16);
    DigitBack(b % 16);
    var s := Escape(b) + rest;
    if Unreserved(b) {
      assert s[0] == b && s[1..] == rest;
    } else {
      assert s[0] == PERCENT && s[1] == Digit(b / 16) && s[2] == Digit(b % 16) && s[3..] == rest;
      assert Boundary(s, 1) && Boundary(s, 3);
    }
  }

  /** Decoding undoes encoding, on every byte string. */
  lemma {:induction false} RoundTrip(s: Bytes)
    ensures Decoded(Encoded(s)) == Some(s)
  {
    if s != [] {
      RoundTrip(s[1..]);
      EncodedAscii(s[1..]);
      DecodeEscape(s[0], Encoded(s[1..]));
      assert [s[0]] + s[1..] == s;
    }
  }

  /** And on every text, whatever the lossy conversion does to malformed bytes. */
  lemma {:induction false} TextRoundTrip(s: Bytes, lossy: Bytes -> Bytes)
    requires WellFormed(s) && forall t :: WellFormed(t) ==> lossy(t) == t
    ensures DecodedText(Encoded(s), lossy) == Some(s)
  {
    RoundTrip(s);
  }

  lemma {:induction false} EncodedInjective(s: Bytes, t: Bytes)
    requires Encoded(s) == Encoded(t)
    ensures s == t
  {
    RoundTrip(s);
    RoundTrip(t);
  }

  /** The unreserved characters, written out. */
  const CAPITALS: set<char> := {
    'A', 'B', 'C', 'D', 'E', 'F', 'G', 'H', 'I', 'J', 'K', 'L', 'M', 'N', 'O', 'P', 'Q', 'R', 'S', 'T',
    'U', 'V', 'W', 'X', 'Y', 'Z'
  }
  const SMALL: set<char> := {
    'a', 'b', 'c', 'd', 'e', 'f', 'g', 'h', 'i', 'j', 'k', 'l', 'm', 'n', 'o', 'p', 'q', 'r', 's', 't',
    'u', 'v', 'w', 'x', 'y', 'z'
  }
  const DIGITS_AND_MARKS: set<char> := {'0', '1', '2', '3', '4', '5', '6', '7', '8', '9', '-', '.', '_', '~'}

  lemma {:induction false} UnreservedIff(b: Byte)
    ensures Unreserved(b) <==> b as char in CAPITALS || b as char in SMALL || b as char in DIGITS_AND_MARKS
  {
  }

  const UPPER := "0123456789ABCDEF"
  const LOWER := "0123456789abcdef"

  /** A hexadecimal digit of either case. */
  ghost predicate IsDigit(b: Byte, n: nat)
    requires n < 16
  {
    b as char == UPPER[n] || b as char == LOWER[n]
  }

  lemma {:induction false} DigitIff(b: Byte, n: nat)
    requires n < 16
    ensures DigitValue(b) == Some(n) <==> IsDigit(b, n)
  {
  }

  /** t spells s: an ASCII character other than a percent sign stands for itself, a triple with digits of either case for a byte. */
  ghost predicate Spells(t: Bytes, s: Bytes)
    decreases |t|
  {
    if s == [] then t == []
    else
      || (t != [] && t[0] == s[0] && t[0] != PERCENT && t[0] < 0x80 && Spells(t[1..], s[1..]))
      || (3 <= |t| && t[0] == PERCENT && IsDigit(t[1], s[0] / 16) && IsDigit(t[2], s[0] % 16) && Spells(t[3..], s[1..]))
  }

  lemma {:induction false} SpellsAscii(t: Bytes, s: Bytes)
    requires Spells(t, s) && t != []
    ensures s != [] && t[0] < 0x80
  {
  }

  /** However a byte string is spelled, whatever is escaped in it and in whichever case, it decodes to itself. */
  lemma {:induction false} SpellingDecodes(t: Bytes, s: Bytes)
    requires Spells(t, s)
    ensures Decoded(t) == Some(s)
    decreases |t|
  {
    hide IsDigit, DigitValue;
    if s != [] {
      assert s == [s[0]] + s[1..];
      if t[0] != PERCENT {
        SpellingDecodes(t[1..], s[1..]);
      } else {
        SpellingDecodes(t[3..], s[1..]);
        DigitIff(t[1], s[0] / 16);
        DigitIff(t[2], s[0] % 16);
        DigitIsAscii(t[1], s[0] / 16);
        DigitIsAscii(t[2], s[0] % 16);
        if t[3..] != [] {
          SpellsAscii(t[3..], s[1..]);
          assert t[3] == t[3..][0];
        }
      }
    }
  }

  lemma {:induction false} DigitIsAscii(b: Byte, n: nat)
    requires n < 16 && IsDigit(b, n)
    ensures b < 0x80 && b != PLUS
  {
    DigitIff(b, n);
  }

  /**
   Unreserved bytes and upper-case triples, no triple for an unreserved byte: the normal form of
   sections 2.1 and 2.3 of RFC 3986.
   */
  predicate Canonical(t: Bytes) {
    || t == []
    || (Unreserved(t[0]) && Canonical(t[1..]))
    || (&& 3 <= |t| && t[0] == PERCENT
        && UpperValue(t[1]).Some? && UpperValue(t[2]).Some?
        && !Unreserved(16 * UpperValue(t[1]).value + UpperValue(t[2]).value)
        && Canonical(t[3..]))
  }

  function UpperValue(b: Byte): (n: Option<nat>)
    ensures n.Some? ==> n.value < 16
  {
    if 0x61 <= b <= 0x66 then None else DigitValue(b)
  }

  lemma {:induction false} UpperIsDigit(b: Byte)
    requires UpperValue(b).Some?
    ensures DigitValue(b) == UpperValue(b) && Digit(UpperValue(b).value) == b
  {
  }

  lemma {:induction false} DigitIsUpper(n: nat)
    requires n < 16
    ensures UpperValue(Digit(n)) == Some(n)
  {
  }

  lemma {:induction false} EncodedCanonical(s: Bytes)
    ensures Canonical(Encoded(s))
  {
    hide Digit, UpperValue;
    if s != [] {
      var b, t := s[0], Encoded(s);
      EncodedCanonical(s[1..]);
      if Unreserved(b) {
        assert t[0] == b && t[1..] == Encoded(s[1..]);
      } else {
        DigitIsUpper(b / 16);
        DigitIsUpper(b % 16);
        assert t[0] == PERCENT && t[1] == Digit(b / 16) && t[2] == Digit(b % 16) && t[3..] == Encoded(s[1..]);
      }
    }
  }

  /** Every text in normal form is the encoding of exactly what it decodes to. */
  lemma {:induction false} CanonicalRoundTrip(t: Bytes)
    requires Canonical(t)
    ensures Decoded(t).Some? && Encoded(Decoded(t).value) == t
  {
    hide Digit, UpperValue;
    var s := CanonicalSource(t);
    RoundTrip(s);
  }

  lemma {:induction false} CanonicalSource(t: Bytes) returns (s: Bytes)
    requires Canonical(t)
    ensures Encoded(s) == t
  {
    hide Digit, UpperValue, Unreserved;
    if t == [] {
      s := [];
    } else if Unreserved(t[0]) && Canonical(t[1..]) {
      var rest := CanonicalSource(t[1..]);
      s := [t[0]] + rest;
      assert s[1..] == rest && t == [t[0]] + t[1..];
    } else {
      var h, l := UpperValue(t[1]).value, UpperValue(t[2]).value;
      var rest := CanonicalSource(t[3..]);
      UpperIsDigit(t[1]);
      UpperIsDigit(t[2]);
      s := [16 * h + l] + rest;
      assert (16 * h + l) / 16 == h && (16 * h + l) % 16 == l;
      assert s[1..] == rest && t == [t[0], t[1], t[2]] + t[3..];
    }
  }

  // ------------------------------------------------------------------------------ where the decoder fails

  /** A '%' with two more bytes whose slice would cut a character. */
  predicate CutAt(s: Bytes, i: nat) {
    i + 2 < |s| && s[i] == PERCENT && (!Boundary(s, i + 1) || !Boundary(s, i + 3))
  }

  lemma {:induction false} CutLater(s: Bytes, k: nat)
    requires k <= |s|
    ensures forall i: nat :: CutAt(s[k..], i) ==> CutAt(s, i + k)
    ensures forall i: nat :: k <= i && CutAt(s, i) ==> CutAt(s[k..], i - k)
  {
    var t := s[k..];
    assert forall i: nat :: i < |t| ==> t[i] == s[i + k];
    assert forall i: nat :: 0 < i <= |t| ==> Boundary(t, i) == Boundary(s, i + k);
  }

  /** The decoder panics exactly on an escape that cuts a character. */
  lemma {:induction false} PanicsIff(s: Bytes)
    ensures Decoded(s).None? <==> exists i: nat :: CutAt(s, i)
  {
    hide Radix16, Boundary;
    if s != [] {
      if CutAt(s, 0) {
      } else if s[0] == PERCENT && 2 < |s| && Radix16(s[1], s[2]).Some? {
        DigitsNotPercent(s[1], s[2]);
        PanicsIff(s[3..]);
        CutLater(s, 3);
      } else {
        PanicsIff(s[1..]);
        CutLater(s, 1);
      }
    }
  }

  lemma {:induction false} DigitsNotPercent(hi: Byte, lo: Byte)
    requires Radix16(hi, lo).Some?
    ensures hi != PERCENT && lo != PERCENT
  {
  }

  /** Bytes of the first character, 0 if it is malformed: the table in section 4 of RFC 3629. */
  function Width(s: Bytes): nat {
    if s == [] then 0
    else if s[0] < 0x80 then 1
    else if 0xC2 <= s[0] <= 0xDF && Tail(s, 1, 2) then 2
    else if 0xE0 <= s[0] <= 0xEF && Tail(s, 1, 3) && (s[0] == 0xE0 ==> 0xA0 <= s[1]) && (s[0] == 0xED ==> s[1] <= 0x9F) then 3
    else if 0xF0 <= s[0] <= 0xF4 && Tail(s, 1, 4) && (s[0] == 0xF0 ==> 0x90 <= s[1]) && (s[0] == 0xF4 ==> s[1] <= 0x8F) then 4
    else 0
  }

  predicate Tail(s: Bytes, lo: nat, hi: nat) {
    hi <= |s| && forall i :: lo <= i < hi ==> 0x80 <= s[i] <= 0xBF
  }

  predicate WellFormed(s: Bytes) {
    s == [] || (Width(s) > 0 && WellFormed(s[Width(s)..]))
  }

  /** In a text the byte after an ASCII character starts a character. */
  lemma {:induction false} AfterAscii(s: Bytes, i: nat)
    requires WellFormed(s) && i < |s| && s[i] < 0x80
    ensures Boundary(s, i + 1)
    decreases |s|
  {
    var w := Width(s);
    var rest := s[w..];
    if i == 0 {
      assert rest != [] ==> Width(rest) > 0 && s[1] == rest[0];
    } else {
      assert i >= w;
      AfterAscii(rest, i - w);
      assert i + 1 < |s| ==> s[i + 1] == rest[i + 1 - w];
    }
  }

  /** On text: exactly when the second byte after some '%' is followed by the rest of its character. */
  lemma {:induction false} PanicsOnTextIff(s: Bytes)
    requires WellFormed(s)
    ensures Decoded(s).None? <==> exists i :: 0 <= i < |s| - 3 && s[i] == 0x25 && 0x80 <= s[i + 3] <= 0xBF
  {
    PanicsIff(s);
    if i: nat :| CutAt(s, i) {
      AfterAscii(s, i);
      assert s[i] == PERCENT && Continuation(s[i + 3]);
    }
    if i :| 0 <= i < |s| - 3 && s[i] == PERCENT && Continuation(s[i + 3]) {
      assert CutAt(s, i);
    }
  }

  /** "%a" followed by a two-byte letter. */
  lemma {:induction false} PanicsOnAccent()
    ensures var s := [PERCENT, 0x61, 0xC3, 0xA9]; WellFormed(s) && Decoded(s).None?
  {
    var s: Bytes := [PERCENT, 0x61, 0xC3, 0xA9];
    assert s[1..][1..] == s[2..] && s[2..][2..] == [];
    assert Width(s[2..]) == 2;
    assert WellFormed(s[2..]) && WellFormed(s[1..]);
  }

  /** Where a '%' and the two bytes after it are taken for an escape. */
  predicate EscapeAt(s: Bytes, i: nat) {
    i + 2 < |s| && s[i] == PERCENT && Radix16(s[i + 1], s[i + 2]).Some?
  }

  /** A text decodes to itself exactly when nothing in it reads as an escape; any escape makes it shorter. */
  lemma {:induction false} UnchangedIff(s: Bytes)
    requires Decoded(s).Some?
    ensures |Decoded(s).value| <= |s|
    ensures Decoded(s).value == s <==> forall i: nat :: !EscapeAt(s, i)
    ensures |Decoded(s).value| == |s| <==> forall i: nat :: !EscapeAt(s, i)
  {
    hide Radix16;
    if s != [] {
      var k := if s[0] == PERCENT && 2 < |s| && Radix16(s[1], s[2]).Some? then 3 else 1;
      UnchangedIff(s[k..]);
      assert forall i: nat :: i < |s| - k ==> s[k..][i] == s[i + k];
      if k == 3 {
        assert EscapeAt(s, 0);
      } else {
        assert forall i: nat :: EscapeAt(s[1..], i) ==> EscapeAt(s, i + 1);
        assert forall i: nat :: 0 < i && EscapeAt(s, i) ==> EscapeAt(s[1..], i - 1);
        assert s == [s[0]] + s[1..];
        assert !EscapeAt(s, 0);
      }
    }
  }

  /** What section 2.1 of RFC 3986 calls for: two hexadecimal digits, or the bytes stay as they are. */
  function StrictDecoded(s: Bytes): Bytes {
    if s == [] then []
    else if s[0] == PERCENT && 2 < |s| && DigitValue(s[1]).Some? && DigitValue(s[2]).Some? then
      [16 * DigitValue(s[1]).value + DigitValue(s[2]).value] + StrictDecoded(s[3..])
    else [s[0]] + StrictDecoded(s[1..])
  }

  /** A percent sign, a plus sign and one hexadecimal digit. */
  predicate PlusAt(s: Bytes, i: nat) {
    i + 2 < |s| && s[i] == 0x25 && s[i + 1] == 0x2B && DigitValue(s[i + 2]).Some?
  }

  lemma {:induction false} PlusLater(s: Bytes, k: nat)
    requires k <= |s|
    ensures forall i: nat :: PlusAt(s[k..], i) ==> PlusAt(s, i + k)
    ensures forall i: nat :: k <= i && PlusAt(s, i) ==> PlusAt(s[k..], i - k)
  {
    assert forall i: nat :: i < |s| - k ==> s[k..][i] == s[i + k];
  }

  /** Three bytes that do not start an escape between them stay. */
  lemma {:induction false} StrictSkip(s: Bytes)
    requires PlusAt(s, 0)
    ensures StrictDecoded(s) == s[..3] + StrictDecoded(s[3..])
  {
    assert DigitValue(PLUS).None? && DigitValue(PERCENT).None?;
    assert s[1..][1..] == s[2..] && s[2..][1..] == s[3..];
    assert StrictDecoded(s[2..]) == [s[2]] + StrictDecoded(s[3..]);
    assert StrictDecoded(s[1..]) == [s[1]] + StrictDecoded(s[2..]);
    assert s[..3] == [s[0]] + ([s[1]] + [s[2]]);
  }

  /** The decoder agrees with the standard exactly on texts without a plus sign in a digit's place; there it loses two bytes. */
  lemma {:induction false} StrictIff(s: Bytes)
    requires Decoded(s).Some?
    ensures |Decoded(s).value| <= |StrictDecoded(s)|
    ensures Decoded(s).value == StrictDecoded(s) <==> forall i: nat :: !PlusAt(s, i)
    ensures |Decoded(s).value| == |StrictDecoded(s)| <==> forall i: nat :: !PlusAt(s, i)
  {
    hide DigitValue;
    if s != [] {
      if PlusAt(s, 0) {
        StrictSkip(s);
        StrictIff(s[3..]);
      } else if s[0] == PERCENT && 2 < |s| && Radix16(s[1], s[2]).Some? {
        PlusHere(s);
        StrictIff(s[3..]);
        PlusLater(s, 3);
      } else {
        StrictIff(s[1..]);
        PlusLater(s, 1);
      }
    }
  }

  /** Inside an escape that is not a plus escape there is none either. */
  lemma {:induction false} PlusHere(s: Bytes)
    requires 2 < |s| && s[0] == PERCENT && Radix16(s[1], s[2]).Some? && !PlusAt(s, 0)
    ensures s[1] != PLUS && !PlusAt(s, 1) && !PlusAt(s, 2)
  {
  }
}
