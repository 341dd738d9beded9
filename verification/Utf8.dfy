/** UTF-8, section 3 of RFC 3629. */
module Utf8 {
  import opened Wrappers
  import opened Base64

  function EncodeChar(c: char): seq<Byte> {
    var n := c as int;
    if n < 0x80 then [n]
    else if n < 0x800 then [0xC0 + n / 64, 0x80 + n % 64]
    else if n < 0x10000 then [0xE0 + n / 64 / 64, 0x80 + n / 64 % 64, 0x80 + n % 64]
    else [0xF0 + n / 64 / 64 / 64, 0x80 + n / 64 / 64 % 64, 0x80 + n / 64 % 64, 0x80 + n % 64]
  }

  function Bytes(s: string): seq<Byte> {
    if s == "" then [] else EncodeChar(s[0]) + Bytes(s[1..])
  }

  predicate IsContinuation(b: Byte) {
    0x80 <= b < 0xC0
  }

  predicate IsScalar(n: int) {
    0 <= n < 0xD800 || 0xE000 <= n < 0x110000
  }

  /** How many bytes the first byte announces; zero if it cannot be first. */
  function LengthFrom(first: Byte): nat {
    if first < 0x80 then 1
    else if first < 0xC0 then 0
    else if first < 0xE0 then 2
    else if first < 0xF0 then 3
    else if first < 0xF8 then 4
    else 0
  }

  /** The number the first bytes carry: six bits in each after the first. */
  function Carried(b: seq<Byte>): int
    requires b != [] && 1 <= LengthFrom(b[0]) <= |b|
  {
    match LengthFrom(b[0])
    case 1 => b[0]
    case 2 => Shifted(b[0] as int - 0xC0, b[1])
    case 3 => Shifted(Shifted(b[0] as int - 0xE0, b[1]), b[2])
    case _ => Shifted(Shifted(Shifted(b[0] as int - 0xF0, b[1]), b[2]), b[3])
  }

  function Shifted(high: int, low: int): int {
    high * 64 + (low - 0x80)
  }

  /** The shortest form is the only one allowed. */
  predicate IsShortest(n: int, length: nat) {
    match length
    case 1 => true
    case 2 => n >= 0x80
    case 3 => n >= 0x800
    case _ => n >= 0x10000
  }

  /** The first character, if the bytes begin with a well-formed one. */
  function FirstChar(b: seq<Byte>): Option<(char, nat)>
    requires b != []
  {
    var length := LengthFrom(b[0]);
    if length == 0 || |b| < length || (exists i :: 1 <= i < length && !IsContinuation(b[i])) then None
    else
      var n := Carried(b);
      if IsScalar(n) && IsShortest(n, length) then Some((n as char, length)) else None
  }

  function Text(b: seq<Byte>): Option<string>
    decreases |b|
  {
    if b == [] then Some("")
    else match FirstChar(b)
         case None => None
         case Some((c, length)) =>
           if length == 0 then None
           else match Text(b[length..])
                case None => None
                case Some(rest) => Some([c] + rest)
  }

  /** The characters of the examples in section 7 of RFC 3629. */
  lemma Rfc3629Examples()
    ensures EncodeChar('A') == [0x41] && EncodeChar('\U{391}') == [0xCE, 0x91]
    ensures EncodeChar('\U{2262}') == [0xE2, 0x89, 0xA2] && EncodeChar('\U{65E5}') == [0xE6, 0x97, 0xA5]
    ensures EncodeChar('\U{233B4}') == [0xF0, 0xA3, 0x8E, 0xB4]
  {
  }

  lemma ShiftedSplits(high: int, low: Byte)
    requires IsContinuation(low) && high >= 0
    ensures Shifted(high, low) / 64 == high && 0x80 + Shifted(high, low) % 64 == low && Shifted(high, low) >= 0
  {
  }

  lemma CarriedByEncoded(c: char)
    ensures var b := EncodeChar(c);
            && LengthFrom(b[0]) == |b| && Carried(b) == c as int && IsShortest(c as int, |b|)
            && forall i :: 1 <= i < |b| ==> IsContinuation(b[i])
  {
  }

  lemma FirstCharOfEncoded(c: char, rest: seq<Byte>)
    ensures FirstChar(EncodeChar(c) + rest) == Some((c, |EncodeChar(c)|))
  {
    var e := EncodeChar(c);
    var b := e + rest;
    CarriedByEncoded(c);
    assert forall i :: 0 <= i < |e| ==> b[i] == e[i];
    assert Carried(b) == Carried(e);
  }

  lemma {:induction false} TextOfBytes(s: string)
    ensures Text(Bytes(s)) == Some(s)
  {
    if s != "" {
      var head, rest := EncodeChar(s[0]), Bytes(s[1..]);
      FirstCharOfEncoded(s[0], rest);
      TextOfBytes(s[1..]);
      assert (head + rest)[|head|..] == rest;
      assert s == [s[0]] + s[1..];
    }
  }

  lemma FirstCharEncodes(b: seq<Byte>)
    requires b != [] && FirstChar(b).Some?
    ensures var (c, length) := FirstChar(b).value;
            0 < length <= |b| && EncodeChar(c) == b[..length]
  {
    var length := LengthFrom(b[0]);
    assert forall i :: 1 <= i < length ==> IsContinuation(b[i]);
    if length == 2 {
      ShiftedSplits(b[0] as int - 0xC0, b[1]);
    } else if length == 3 {
      ShiftedSplits(b[0] as int - 0xE0, b[1]);
      ShiftedSplits(Shifted(b[0] as int - 0xE0, b[1]), b[2]);
    } else if length == 4 {
      ShiftedSplits(b[0] as int - 0xF0, b[1]);
      ShiftedSplits(Shifted(b[0] as int - 0xF0, b[1]), b[2]);
      ShiftedSplits(Shifted(Shifted(b[0] as int - 0xF0, b[1]), b[2]), b[3]);
    }
  }

  lemma BytesOfCons(c: char, rest: string)
    ensures Bytes([c] + rest) == EncodeChar(c) + Bytes(rest)
  {
  }

  /** The first character of a well-formed text, and the rest. */
  lemma TextStep(b: seq<Byte>) returns (c: char, length: nat, rest: string)
    requires b != [] && Text(b).Some?
    ensures 0 < length <= |b| && EncodeChar(c) == b[..length]
    ensures Text(b[length..]) == Some(rest) && Text(b).value == [c] + rest
  {
    FirstCharEncodes(b);
    c, length := FirstChar(b).value.0, FirstChar(b).value.1;
    rest := Text(b[length..]).value;
  }

  /** Well-formed bytes are the encoding of what they decode to. */
  lemma {:induction false} BytesOfText(b: seq<Byte>, s: string)
    requires Text(b) == Some(s)
    ensures Bytes(s) == b
    decreases |b|
  {
    if b != [] {
      var c, length, rest := TextStep(b);
      BytesOfText(b[length..], rest);
      BytesOfCons(c, rest);
      assert b == b[..length] + b[length..];
    }
  }
}
