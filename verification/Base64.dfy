/** Standard base64 with canonical padding, section 4 of RFC 4648. */
module Base64 {
  import opened Wrappers

  type Byte = x: int | 0 <= x < 256

  /** A digit's character; only values below 64 are digits. */
  function Digit(v: int): char {
    if 0 <= v < 26 then ('A' as int + v) as char
    else if 26 <= v < 52 then ('a' as int + (v - 26)) as char
    else if 52 <= v < 62 then ('0' as int + (v - 52)) as char
    else if v == 62 then '+'
    else '/'
  }

  /** A character's value, or -1. */
  function Value(c: char): (v: int)
    ensures -1 <= v < 64
  {
    if 'A' <= c <= 'Z' then c as int - 'A' as int
    else if 'a' <= c <= 'z' then c as int - 'a' as int + 26
    else if '0' <= c <= '9' then c as int - '0' as int + 52
    else if c == '+' then 62
    else if c == '/' then 63
    else -1
  }

  // The four values that three bytes spread over.
  function V0(x: int): int { x / 4 }
  function V1(x: int, y: int): int { x % 4 * 16 + y / 16 }
  function V2(y: int, z: int): int { y % 16 * 4 + z / 64 }
  function V3(z: int): int { z % 64 }

  // The three bytes that four values carry.
  function B0(p: int, q: int): int { p * 4 + q / 16 }
  function B1(q: int, r: int): int { q % 16 * 16 + r / 4 }
  function B2(r: int, t: int): int { r % 4 * 64 + t }

  function Encode(b: seq<Byte>): string {
    if b == [] then ""
    else if |b| == 1 then [Digit(V0(b[0])), Digit(V1(b[0], 0)), '=', '=']
    else if |b| == 2 then [Digit(V0(b[0])), Digit(V1(b[0], b[1])), Digit(V2(b[1], 0)), '=']
    else Quad(b[0], b[1], b[2]) + Encode(b[3..])
  }

  function Quad(x: Byte, y: Byte, z: Byte): string {
    [Digit(V0(x)), Digit(V1(x, y)), Digit(V2(y, z)), Digit(V3(z))]
  }

  /** Four digits to three bytes. */
  function DecodeQuad(s: string): Option<seq<Byte>>
    requires |s| == 4
  {
    if Value(s[0]) < 0 || Value(s[1]) < 0 || Value(s[2]) < 0 || Value(s[3]) < 0 then None
    else Some([B0(Value(s[0]), Value(s[1])), B1(Value(s[1]), Value(s[2])), B2(Value(s[2]), Value(s[3]))])
  }

  /** The last four characters: full, or padded with the unused bits zero. */
  function DecodeLast(s: string): Option<seq<Byte>>
    requires |s| == 4
  {
    if s[3] != '=' then DecodeQuad(s)
    else if Value(s[0]) < 0 || Value(s[1]) < 0 then None
    else if s[2] != '=' then
      if Value(s[2]) < 0 || Value(s[2]) % 4 != 0 then None
      else Some([B0(Value(s[0]), Value(s[1])), B1(Value(s[1]), Value(s[2]))])
    else if Value(s[1]) % 16 != 0 then None
    else Some([B0(Value(s[0]), Value(s[1]))])
  }

  function Decode(s: string): Option<seq<Byte>> {
    if s == "" then Some([])
    else if |s| < 4 then None
    else if |s| == 4 then DecodeLast(s)
    else match (DecodeQuad(s[..4]), Decode(s[4..]))
         case (Some(front), Some(rest)) => Some(front + rest)
         case _ => None
  }

  /** Table 1 of RFC 4648. */
  lemma Alphabet()
    ensures forall v :: 0 <= v < 26 ==> Digit(v) == "ABCDEFGHIJKLMNOPQRSTUVWXYZ"[v]
    ensures forall v :: 26 <= v < 52 ==> Digit(v) == "abcdefghijklmnopqrstuvwxyz"[v - 26]
    ensures forall v :: 52 <= v < 62 ==> Digit(v) == "0123456789"[v - 52]
    ensures Digit(62) == '+' && Digit(63) == '/'
  {
  }

  lemma DigitsInvert(v: int)
    requires 0 <= v < 64
    ensures Value(Digit(v)) == v && Digit(v) != '='
  {
  }

  lemma ValuesInvert(c: char)
    ensures Value(c) >= 0 ==> Digit(Value(c)) == c && c != '='
  {
  }

  lemma ValuesInRange(x: Byte, y: Byte, z: Byte)
    ensures 0 <= V0(x) < 64 && 0 <= V1(x, y) < 64 && 0 <= V2(y, z) < 64 && 0 <= V3(z) < 64
  {
  }

  lemma BytesFromValues(x: Byte, y: Byte, z: Byte)
    ensures B0(V0(x), V1(x, y)) == x && B1(V1(x, y), V2(y, z)) == y && B2(V2(y, z), V3(z)) == z
  {
  }

  lemma ValuesFromBytes(p: int, q: int, r: int, t: int)
    requires 0 <= p < 64 && 0 <= q < 64 && 0 <= r < 64 && 0 <= t < 64
    ensures V0(B0(p, q)) == p && V1(B0(p, q), B1(q, r)) == q && V2(B1(q, r), B2(r, t)) == r && V3(B2(r, t)) == t
  {
  }

  lemma DecodeFour(p: int, q: int, r: int, t: int)
    requires 0 <= p < 64 && 0 <= q < 64 && 0 <= r < 64 && 0 <= t < 64
    ensures DecodeQuad([Digit(p), Digit(q), Digit(r), Digit(t)]) == Some([B0(p, q), B1(q, r), B2(r, t)])
    ensures Digit(t) != '='
  {
    DigitsInvert(p);
    DigitsInvert(q);
    DigitsInvert(r);
    DigitsInvert(t);
  }

  lemma DecodeTwo(p: int, q: int, r: int)
    requires 0 <= p < 64 && 0 <= q < 64 && 0 <= r < 64 && r % 4 == 0
    ensures DecodeLast([Digit(p), Digit(q), Digit(r), '=']) == Some([B0(p, q), B1(q, r)])
  {
  }

  lemma UnusedBitsAreZero(x: Byte, y: Byte)
    ensures V1(x, 0) % 16 == 0 && V2(y, 0) % 4 == 0
  {
  }

  lemma OneByteInverts(x: Byte)
    ensures DecodeLast([Digit(V0(x)), Digit(V1(x, 0)), '=', '=']) == Some([x])
  {
  }

  lemma TwoBytesInvert(x: Byte, y: Byte)
    ensures DecodeLast([Digit(V0(x)), Digit(V1(x, y)), Digit(V2(y, 0)), '=']) == Some([x, y])
  {
    ValuesInRange(x, y, 0);
    UnusedBitsAreZero(x, y);
    BytesFromValues(x, y, 0);
    DecodeTwo(V0(x), V1(x, y), V2(y, 0));
  }

  /** Section 4 of RFC 4648: three bytes are one number of 24 bits, written as four digits, the highest first. */
  lemma GroupsAreNumbers(x: Byte, y: Byte, z: Byte, rest: seq<Byte>)
    ensures var s := Encode([x, y, z] + rest);
            && |s| >= 4 && s[4..] == Encode(rest)
            && (forall i :: 0 <= i < 4 ==> Value(s[i]) >= 0)
            && ((Value(s[0]) * 64 + Value(s[1])) * 64 + Value(s[2])) * 64 + Value(s[3]) == (x * 256 + y) * 256 + z
  {
    assert ([x, y, z] + rest)[3..] == rest;
    ValuesInRange(x, y, z);
    DigitsInvert(V0(x));
    DigitsInvert(V1(x, y));
    DigitsInvert(V2(y, z));
    DigitsInvert(V3(z));
    ValuesAreNumber(x, y, z);
  }

  /** One or two bytes at the end are filled up with zeros, and `=` stands for the digits they do not reach. */
  lemma LastGroupIsNumber(x: Byte, y: Byte)
    ensures var s := Encode([x, y]);
            && |s| == 4 && s[3] == '=' && (forall i :: 0 <= i < 3 ==> Value(s[i]) >= 0)
            && (Value(s[0]) * 64 + Value(s[1])) * 64 + Value(s[2]) == (x * 256 + y) * 4
    ensures var s := Encode([x]);
            && |s| == 4 && s[2..] == "==" && (forall i :: 0 <= i < 2 ==> Value(s[i]) >= 0)
            && Value(s[0]) * 64 + Value(s[1]) == x * 16
  {
    ValuesInRange(x, y, 0);
    DigitsInvert(V0(x));
    DigitsInvert(V1(x, y));
    DigitsInvert(V1(x, 0));
    DigitsInvert(V2(y, 0));
  }

  lemma ValuesAreNumber(x: Byte, y: Byte, z: Byte)
    ensures ((V0(x) * 64 + V1(x, y)) * 64 + V2(y, z)) * 64 + V3(z) == (x * 256 + y) * 256 + z
  {
  }

  /** One or two bytes at the end. */
  lemma TailInverts(b: seq<Byte>)
    requires |b| == 1 || |b| == 2
    ensures Decode(Encode(b)) == Some(b)
  {
    if |b| == 1 {
      OneByteInverts(b[0]);
      assert b == [b[0]];
    } else {
      TwoBytesInvert(b[0], b[1]);
      assert b == [b[0], b[1]];
    }
  }

  lemma DecodeJoin(quad: string, rest: string)
    requires |quad| == 4 && DecodeQuad(quad).Some? && quad[3] != '=' && Decode(rest).Some?
    ensures Decode(quad + rest) == Some(DecodeQuad(quad).value + Decode(rest).value)
  {
    if rest == "" {
      assert quad + rest == quad;
      assert DecodeQuad(quad).value + [] == DecodeQuad(quad).value;
    } else {
      assert (quad + rest)[..4] == quad && (quad + rest)[4..] == rest;
    }
  }

  lemma QuadJoins(x: Byte, y: Byte, z: Byte, rest: seq<Byte>)
    requires Decode(Encode(rest)) == Some(rest)
    ensures Decode(Encode([x, y, z] + rest)) == Some([x, y, z] + rest)
  {
    assert ([x, y, z] + rest)[3..] == rest;
    ValuesInRange(x, y, z);
    BytesFromValues(x, y, z);
    DecodeFour(V0(x), V1(x, y), V2(y, z), V3(z));
    DecodeJoin(Quad(x, y, z), Encode(rest));
  }

  /** Decoding gives back the bytes that were encoded. */
  lemma {:induction false} DecodeEncode(b: seq<Byte>)
    ensures Decode(Encode(b)) == Some(b)
  {
    if |b| == 1 || |b| == 2 {
      TailInverts(b);
    } else if |b| >= 3 {
      DecodeEncode(b[3..]);
      QuadJoins(b[0], b[1], b[2], b[3..]);
      assert b == [b[0], b[1], b[2]] + b[3..];
    }
  }

  lemma EncodeIsNonEmpty(b: seq<Byte>)
    requires b != []
    ensures |Encode(b)| >= 4
  {
  }

  lemma QuadDecodes(s: string)
    requires |s| == 4 && DecodeQuad(s).Some?
    ensures var b := DecodeQuad(s).value; |b| == 3 && Quad(b[0], b[1], b[2]) == s
  {
    ValuesFromBytes(Value(s[0]), Value(s[1]), Value(s[2]), Value(s[3]));
    ValuesInvert(s[0]);
    ValuesInvert(s[1]);
    ValuesInvert(s[2]);
    ValuesInvert(s[3]);
  }

  lemma EncodeOne(p: int, q: int)
    requires 0 <= p < 64 && 0 <= q < 64 && q % 16 == 0
    ensures Encode([B0(p, q)]) == [Digit(p), Digit(q), '=', '=']
  {
    assert B1(q, 0) == 0;
    ValuesFromBytes(p, q, 0, 0);
  }

  lemma EncodeTwo(p: int, q: int, r: int)
    requires 0 <= p < 64 && 0 <= q < 64 && 0 <= r < 64 && r % 4 == 0
    ensures Encode([B0(p, q), B1(q, r)]) == [Digit(p), Digit(q), Digit(r), '=']
  {
    assert B2(r, 0) == 0;
    ValuesFromBytes(p, q, r, 0);
  }

  /** Padded text whose unused bits are zero. */
  lemma PaddedDecodes(s: string)
    requires |s| == 4 && s[3] == '=' && DecodeLast(s).Some?
    ensures Encode(DecodeLast(s).value) == s
  {
    ValuesInvert(s[0]);
    ValuesInvert(s[1]);
    if s[2] != '=' {
      ValuesInvert(s[2]);
      EncodeTwo(Value(s[0]), Value(s[1]), Value(s[2]));
    } else {
      EncodeOne(Value(s[0]), Value(s[1]));
    }
  }

  lemma LastDecodes(s: string)
    requires |s| == 4 && DecodeLast(s).Some?
    ensures Encode(DecodeLast(s).value) == s
  {
    if s[3] != '=' {
      QuadDecodes(s);
      var b := DecodeQuad(s).value;
      assert Encode(b) == Quad(b[0], b[1], b[2]) + Encode(b[3..]) && Encode(b[3..]) == "";
    } else {
      PaddedDecodes(s);
    }
  }

  /** Only the canonical text decodes to given bytes. */
  lemma {:induction false} EncodeDecode(s: string)
    requires Decode(s).Some?
    ensures Encode(Decode(s).value) == s
  {
    if |s| == 4 {
      LastDecodes(s);
    } else if |s| > 4 {
      QuadDecodes(s[..4]);
      EncodeDecode(s[4..]);
      var front, rest := DecodeQuad(s[..4]).value, Decode(s[4..]).value;
      assert (front + rest)[3..] == rest;
      assert s == s[..4] + s[4..];
    }
  }

  /** A digit's character, or the padding. */
  ghost predicate IsBase64Char(c: char) {
    c == '=' || exists v: int :: c == Digit(v)
  }

  lemma {:induction false} EncodeUsesAlphabet(b: seq<Byte>)
    ensures forall c :: c in Encode(b) ==> IsBase64Char(c)
  {
    if |b| >= 3 {
      EncodeUsesAlphabet(b[3..]);
    }
  }
}
