/** The bit operators of the runtime on integer-valued numbers: operands are taken
    modulo 2^32, and all but `>>>` give a signed result. */
module Bits {
  const TWO_32 := 0x1_0000_0000

  function Pow2(k: nat): (p: nat)
    ensures p > 0
  {
    if k == 0 then 1 else 2 * Pow2(k - 1)
  }

  function ToUint32(x: int): nat { x % TWO_32 }

  function ToInt32(x: int): int {
    if ToUint32(x) < 0x8000_0000 then ToUint32(x) else ToUint32(x) - TWO_32
  }

  function AndBits(a: nat, b: nat): nat {
    if a == 0 || b == 0 then 0 else 2 * AndBits(a / 2, b / 2) + a % 2 * (b % 2)
  }

  function OrBits(a: nat, b: nat): nat {
    if a == 0 then b
    else if b == 0 then a
    else 2 * OrBits(a / 2, b / 2) + (if a % 2 == 1 || b % 2 == 1 then 1 else 0)
  }

  function And(x: int, y: int): int { ToInt32(AndBits(ToUint32(x), ToUint32(y))) }

  function Or(x: int, y: int): int { ToInt32(OrBits(ToUint32(x), ToUint32(y))) }

  function ShiftLeft(x: int, k: nat): int { ToInt32(ToUint32(x) * Pow2(k)) }

  function Halve(n: nat, k: nat): nat {
    if k == 0 then n else Halve(n / 2, k - 1)
  }

  function ShiftRightUnsigned(x: int, k: nat): nat { Halve(ToUint32(x), k) }

  /** Masking with k ones is the remainder by 2^k. */
  lemma {:induction false} MaskIsRemainder(a: nat, k: nat)
    ensures AndBits(a, Pow2(k) - 1) == a % Pow2(k)
  {
    if a == 0 || k == 0 {
    } else {
      MaskIsRemainder(a / 2, k - 1);
      var p := Pow2(k - 1);
      assert (2 * p - 1) / 2 == p - 1 && (2 * p - 1) % 2 == 1;
      HalfRemainder(a, p);
    }
  }

  lemma HalfRemainder(a: nat, p: nat)
    requires p > 0
    ensures a % (2 * p) == 2 * (a / 2 % p) + a % 2
  {
    var q, r := a / 2 / p, a / 2 % p;
    assert a / 2 == q * p + r;
    assert a == 2 * (a / 2) + a % 2;
    var rest := 2 * r + a % 2;
    assert a == q * (2 * p) + rest;
    assert 0 <= rest < 2 * p;
    RemainderIs(a, 2 * p, q, rest);
  }

  lemma RemainderIs(a: int, m: int, q: int, r: int)
    requires m > 0 && a == q * m + r && 0 <= r < m
    ensures a % m == r
  {
    var d := a / m - q;
    assert a == a / m * m + a % m;
    assert d * m == r - a % m;
    Scale(d, m);
    assert d == 0;
  }

  lemma Scale(d: int, m: int)
    requires m > 0
    ensures (d >= 1 ==> d * m >= m) && (d <= -1 ==> d * m <= -m)
  {}

  /** Joining bits that do not overlap is adding. */
  lemma {:induction false} DisjointOrIsSum(a: nat, low: nat, k: nat)
    requires low < Pow2(k)
    ensures OrBits(a * Pow2(k), low) == a * Pow2(k) + low
  {
    if k > 0 {
      var p := Pow2(k - 1);
      DisjointOrIsSum(a, low / 2, k - 1);
      DoubleProduct(a, p);
      hide Pow2;
      OrStep(a * p, low);
    }
  }

  lemma DoubleProduct(a: nat, p: nat)
    ensures a * (2 * p) == 2 * (a * p) && a * p >= 0
  {}

  lemma OrStep(x: nat, low: nat)
    ensures OrBits(2 * x, low) == 2 * OrBits(x, low / 2) + low % 2
  {
    assert 2 * x / 2 == x && 2 * x % 2 == 0;
  }

  lemma {:induction false} OrCommutes(a: nat, b: nat)
    ensures OrBits(a, b) == OrBits(b, a)
  {
    if a != 0 && b != 0 { OrCommutes(a / 2, b / 2); }
  }

  lemma ShiftBySeven(x: int)
    ensures ShiftRightUnsigned(x, 7) == ToUint32(x) / 128
  {
    var n := ToUint32(x);
    hide ToUint32;
    assert Halve(n, 7) == Halve(n / 2, 6) == Halve(n / 2 / 2, 5) && n / 2 / 2 == n / 4;
    assert Halve(n / 4, 5) == Halve(n / 4 / 2, 4) == Halve(n / 4 / 2 / 2, 3) && n / 4 / 2 / 2 == n / 16;
    assert Halve(n / 16, 3) == Halve(n / 16 / 2, 2) == Halve(n / 16 / 2 / 2, 1) && n / 16 / 2 / 2 == n / 64;
    assert Halve(n / 64, 1) == n / 64 / 2 && n / 64 / 2 == n / 128;
  }

  lemma SmallIsItself(x: int)
    requires 0 <= x < 0x8000_0000
    ensures ToUint32(x) == x && ToInt32(x) == x
  {}

  lemma LowBits(x: int)
    ensures ToUint32(x) % 128 == x % 128
  {
    var low := x % TWO_32;
    RemainderIs(x, 128, x / TWO_32 * 0x200_0000 + low / 128, low % 128);
  }

  lemma Powers()
    ensures Pow2(3) == 8 && Pow2(7) == 128
  {
    assert Pow2(4) == 2 * Pow2(3) && Pow2(6) == 2 * Pow2(5);
  }

  /** What the writers compute for each byte that is not the last: the low seven
      bits, whatever the magnitude, with the continuation bit. */
  lemma ContinuationByte(value: int)
    ensures Or(And(value, 0x7f), 0x80) == 128 + value % 128
  {
    hide ToUint32, ToInt32, AndBits, OrBits;
    var low := value % 128;
    Powers();
    LowBits(value);
    SmallIsItself(0x7f);
    SmallIsItself(0x80);
    MaskIsRemainder(ToUint32(value), 7);
    SmallIsItself(low);
    assert And(value, 0x7f) == low;
    OrCommutes(low, 128);
    hide Pow2;
    DisjointOrIsSum(1, low, 7);
    SmallIsItself(128 + low);
  }

  /** A field's key: its number above the three bits of the wire type. */
  lemma KeyIsSum(fieldNumber: int, wireType: int)
    requires 0 < fieldNumber < 0x800_0000 && 0 <= wireType < 8
    ensures Or(ShiftLeft(fieldNumber, 3), wireType) == fieldNumber * 8 + wireType
  {
    hide ToUint32, ToInt32, OrBits;
    Powers();
    hide Pow2;
    SmallIsItself(fieldNumber);
    SmallIsItself(wireType);
    SmallIsItself(fieldNumber * 8);
    DisjointOrIsSum(fieldNumber, wireType, 3);
    SmallIsItself(fieldNumber * 8 + wireType);
  }
}

/** The protobuf writer: fields are appended to one buffer of numbers. */
module BinaryWriter {
  import opened Common
  import opened Bits
  import opened Utf8

  const DATA_TYPE_SHIFT := 3
  const WIRE_TYPE_LENGTH_DELIMITED := 2
  const WIRE_TYPE_VARINT := 0
  const BITS_SHIFT := 7
  const MARK_NEXT_BYTE_AS_CONTINUATION := 0x80
  const MAX_BYTE_VALUE := 0x7f
  const SEVEN_BITS_MULTIPLIER := 128

  /** Base 128: the low seven bits first, each byte but the last marked. */
  function Varint(v: nat): (b: seq<Byte>)
    ensures |b| >= 1
  {
    if v <= 127 then [v] else [128 + v % 128] + Varint(v / 128)
  }

  /** What writeInteger64 appends: a number below zero goes out as it is. */
  function Integer64(v: int): seq<int> {
    if v < 0 then [v] else Varint(v)
  }

  /** What writeInteger appends: shifting takes the rest modulo 2^32. */
  function Integer32(v: int): seq<int> {
    if v <= 127 then [v] else [128 + v % 128] + Varint(ToUint32(v) / 128)
  }

  function Key(fieldNumber: int, wireType: int): int {
    Or(ShiftLeft(fieldNumber, DATA_TYPE_SHIFT), wireType)
  }

  function StringField(fieldNumber: int, value: seq<Unit>): seq<int> {
    if value == [] then []
    else Integer32(Key(fieldNumber, WIRE_TYPE_LENGTH_DELIMITED)) + Integer32(|Encode(value)|) + Encode(value)
  }

  function Int64Field(fieldNumber: int, value: int): seq<int> {
    if value == 0 then [] else Integer32(Key(fieldNumber, WIRE_TYPE_VARINT)) + Integer64(value)
  }

  lemma Integer32Fits(v: int)
    requires 0 <= v < TWO_32
    ensures Integer32(v) == Varint(v)
  {
    Uint32IsItself(v);
    hide ToUint32;
  }

  lemma Uint32IsItself(v: int)
    requires 0 <= v < TWO_32
    ensures ToUint32(v) == v
  {}

  /** A typed array keeps each number modulo 256. */
  function ToBytes(buffer: seq<int>): seq<Byte> {
    seq(|buffer|, i requires 0 <= i < |buffer| => buffer[i] % 256)
  }

  class BinaryWriterService {
    var buffer: seq<int>

    constructor ()
      ensures buffer == []
    {
      buffer := [];
    }

    method WriteInteger(value: int)
      modifies this
      ensures buffer == old(buffer) + Integer32(value)
    {
      var rest := value;
      while rest > MAX_BYTE_VALUE
        invariant buffer + Integer32(rest) == old(buffer) + Integer32(value)
        decreases rest
      {
        ContinuationByte(rest);
        ShiftBySeven(rest);
        ghost var next := ToUint32(rest) / 128;
        Integer32Fits(next);
        assert buffer + Integer32(rest) == buffer + [128 + rest % 128] + Integer32(next);
        buffer := buffer + [Or(And(rest, MAX_BYTE_VALUE), MARK_NEXT_BYTE_AS_CONTINUATION)];
        rest := ShiftRightUnsigned(rest, BITS_SHIFT);
      }
      buffer := buffer + [rest];
    }

    method WriteInteger64(value: int)
      modifies this
      ensures buffer == old(buffer) + Integer64(value)
    {
      var rest := value;
      while rest > MAX_BYTE_VALUE
        invariant buffer + Integer64(rest) == old(buffer) + Integer64(value)
        decreases rest
      {
        ContinuationByte(rest);
        assert buffer + Integer64(rest) == buffer + [128 + rest % 128] + Integer64(rest / 128);
        buffer := buffer + [Or(And(rest, MAX_BYTE_VALUE), MARK_NEXT_BYTE_AS_CONTINUATION)];
        rest := rest / SEVEN_BITS_MULTIPLIER;
      }
      buffer := buffer + [rest];
    }

    method WriteString(fieldNumber: int, value: seq<Unit>)
      modifies this
      ensures buffer == old(buffer) + StringField(fieldNumber, value)
    {
      hide ShiftLeft, Or, Integer32, Encode;
      if value == [] { return; }
      WriteInteger(Or(ShiftLeft(fieldNumber, DATA_TYPE_SHIFT), WIRE_TYPE_LENGTH_DELIMITED));
      var bytes := Encode(value);
      WriteInteger(|bytes|);
      buffer := buffer + bytes;
    }

    method WriteInt64(fieldNumber: int, value: int)
      modifies this
      ensures buffer == old(buffer) + Int64Field(fieldNumber, value)
    {
      hide ShiftLeft, Or, Integer32, Integer64;
      if value == 0 { return; }
      WriteInteger(Or(ShiftLeft(fieldNumber, DATA_TYPE_SHIFT), WIRE_TYPE_VARINT));
      WriteInteger64(value);
    }

    method GetResultBuffer() returns (bytes: seq<Byte>)
      ensures bytes == ToBytes(buffer)
    {
      bytes := ToBytes(buffer);
    }
  }
}
