/** Strings of the runtime are UTF-16 code units; the text encoder turns them into
    the bytes of UTF-8 (RFC 3629), a lone surrogate into U+FFFD. */
module Utf8 {
  import opened Common

  type Unit = u: int | 0 <= u < 0x10000
  type Scalar = c: int | (0 <= c < 0xD800) || (0xE000 <= c < 0x110000)
  type Byte = b: int | 0 <= b < 256

  const REPLACEMENT: Scalar := 0xFFFD

  predicate IsHigh(u: Unit) { 0xD800 <= u < 0xDC00 }

  predicate IsLow(u: Unit) { 0xDC00 <= u < 0xE000 }

  function PairValue(high: Unit, low: Unit): Scalar
    requires IsHigh(high) && IsLow(low)
  {
    0x10000 + (high - 0xD800) * 0x400 + (low - 0xDC00)
  }

  predicate StartsPair(s: seq<Unit>) { |s| >= 2 && IsHigh(s[0]) && IsLow(s[1]) }

  function CodePoints(s: seq<Unit>): seq<Scalar> {
    if s == [] then []
    else if StartsPair(s) then [PairValue(s[0], s[1])] + CodePoints(s[2..])
    else if IsHigh(s[0]) || IsLow(s[0]) then [REPLACEMENT] + CodePoints(s[1..])
    else
      var c: Scalar := s[0];
      [c] + CodePoints(s[1..])
  }

  function UnitsOf(c: Scalar): seq<Unit> {
    if c < 0x10000 then [c]
    else [0xD800 + (c - 0x10000) / 0x400, 0xDC00 + (c - 0x10000) % 0x400]
  }

  function Units(cs: seq<Scalar>): seq<Unit> {
    if cs == [] then [] else UnitsOf(cs[0]) + Units(cs[1..])
  }

  /** The string with every lone surrogate replaced. */
  function ToWellFormed(s: seq<Unit>): seq<Unit> {
    if s == [] then []
    else if StartsPair(s) then s[..2] + ToWellFormed(s[2..])
    else [if IsHigh(s[0]) || IsLow(s[0]) then REPLACEMENT else s[0]] + ToWellFormed(s[1..])
  }

  predicate IsWellFormed(s: seq<Unit>) {
    if s == [] then true
    else if StartsPair(s) then IsWellFormed(s[2..])
    else !IsHigh(s[0]) && !IsLow(s[0]) && IsWellFormed(s[1..])
  }

  function Encode1(c: Scalar): seq<Byte> {
    if c < 0x80 then [c]
    else if c < 0x800 then [0xC0 + c / 64, 0x80 + c % 64]
    else if c < 0x10000 then [0xE0 + c / 4096, 0x80 + c / 64 % 64, 0x80 + c % 64]
    else [0xF0 + c / 262144, 0x80 + c / 4096 % 64, 0x80 + c / 64 % 64, 0x80 + c % 64]
  }

  function EncodeAll(cs: seq<Scalar>): seq<Byte> {
    if cs == [] then [] else Encode1(cs[0]) + EncodeAll(cs[1..])
  }

  /** The text encoder. */
  function Encode(s: seq<Unit>): seq<Byte> { EncodeAll(CodePoints(s)) }

  predicate IsTail(b: Byte) { 0x80 <= b < 0xC0 }

  function Payload(b: Byte, mark: int): int { b as int - mark }

  function Combine2(b: seq<Byte>): int
    requires |b| >= 2
  {
    Payload(b[0], 0xC0) * 64 + Payload(b[1], 0x80)
  }

  function Combine3(b: seq<Byte>): int
    requires |b| >= 3
  {
    Payload(b[0], 0xE0) * 4096 + Payload(b[1], 0x80) * 64 + Payload(b[2], 0x80)
  }

  function Combine4(b: seq<Byte>): int
    requires |b| >= 4
  {
    Payload(b[0], 0xF0) * 262144 + Payload(b[1], 0x80) * 4096 + Payload(b[2], 0x80) * 64 + Payload(b[3], 0x80)
  }

  datatype Decoded = Decoded(c: Scalar, length: nat)

  /** The code point at the start of the bytes and its length; section 4 of RFC 3629:
      no overlong form, no surrogate, nothing above U+10FFFF. */
  function Decode1(b: seq<Byte>): Option<Decoded> {
    if |b| >= 1 && b[0] < 0x80 then Some(Decoded(b[0], 1))
    else if |b| >= 2 && 0xC2 <= b[0] < 0xE0 && IsTail(b[1]) then Some(Decoded(Combine2(b), 2))
    else if |b| >= 3 && 0xE0 <= b[0] < 0xF0 && IsTail(b[1]) && IsTail(b[2]) then
      if 0x800 <= Combine3(b) < 0xD800 || 0xE000 <= Combine3(b) then Some(Decoded(Combine3(b), 3)) else None
    else if |b| >= 4 && 0xF0 <= b[0] < 0xF5 && IsTail(b[1]) && IsTail(b[2]) && IsTail(b[3]) then
      if 0x10000 <= Combine4(b) < 0x110000 then Some(Decoded(Combine4(b), 4)) else None
    else None
  }

  function DecodeAll(b: seq<Byte>): Option<seq<Scalar>> {
    if b == [] then Some([])
    else
      var first := Decode1(b);
      if first.None? || first.value.length == 0 || first.value.length > |b| then None
      else
        var rest := DecodeAll(b[first.value.length..]);
        if rest.None? then None else Some([first.value.c] + rest.value)
  }

  function Decode(b: seq<Byte>): Option<seq<Unit>> {
    var cs := DecodeAll(b);
    if cs.None? then None else Some(Units(cs.value))
  }

  lemma Decodes1(c: Scalar, rest: seq<Byte>)
    ensures Decode1(Encode1(c) + rest) == Some(Decoded(c, |Encode1(c)|))
  {
    var b := Encode1(c) + rest;
    if c < 0x80 {
      assert b[0] == c;
    } else if c < 0x800 {
      assert b[0] == 0xC0 + c / 64 && b[1] == 0x80 + c % 64;
    } else if c < 0x10000 {
      assert b[0] == 0xE0 + c / 4096 && b[1] == 0x80 + c / 64 % 64 && b[2] == 0x80 + c % 64;
      Digits64(c);
    } else {
      assert b[0] == 0xF0 + c / 262144 && b[1] == 0x80 + c / 4096 % 64 && b[2] == 0x80 + c / 64 % 64 && b[3] == 0x80 + c % 64;
      Digits64(c);
    }
  }

  lemma Digits64(c: int)
    ensures c == c / 64 * 64 + c % 64 && c / 64 == c / 4096 * 64 + c / 64 % 64
    ensures c / 4096 == c / 262144 * 64 + c / 4096 % 64
  {}

  lemma {:induction false} DecodesAll(cs: seq<Scalar>)
    ensures DecodeAll(EncodeAll(cs)) == Some(cs)
  {
    if cs != [] {
      var rest := EncodeAll(cs[1..]);
      DecodesAll(cs[1..]);
      Decodes1(cs[0], rest);
      assert (Encode1(cs[0]) + rest)[|Encode1(cs[0])|..] == rest;
      assert [cs[0]] + cs[1..] == cs;
    }
  }

  lemma {:induction false} UnitsOfCodePoints(s: seq<Unit>)
    ensures Units(CodePoints(s)) == ToWellFormed(s)
  {
    if s == [] {
    } else if StartsPair(s) {
      UnitsOfCodePoints(s[2..]);
      var c := PairValue(s[0], s[1]);
      assert UnitsOf(c) == s[..2];
      assert CodePoints(s)[1..] == CodePoints(s[2..]);
    } else {
      UnitsOfCodePoints(s[1..]);
      assert CodePoints(s)[1..] == CodePoints(s[1..]);
    }
  }

  lemma {:induction false} WellFormedIsKept(s: seq<Unit>)
    ensures ToWellFormed(s) == s <==> IsWellFormed(s)
  {
    if s == [] {
    } else if StartsPair(s) {
      WellFormedIsKept(s[2..]);
      assert s == s[..2] + s[2..];
    } else {
      WellFormedIsKept(s[1..]);
      assert s == [s[0]] + s[1..];
    }
  }

  /** Decoding what the encoder wrote returns the string with lone surrogates
      replaced; the string itself exactly when it has none. */
  lemma EncodeRoundTrips(s: seq<Unit>)
    ensures Decode(Encode(s)) == Some(ToWellFormed(s))
    ensures Decode(Encode(s)) == Some(s) <==> IsWellFormed(s)
  {
    DecodesAll(CodePoints(s));
    UnitsOfCodePoints(s);
    WellFormedIsKept(s);
  }
}
