/** The message a deploy is signed as, and how a protobuf reader takes it apart
    ('Base 128 Varints' and 'Message Structure' of the encoding guide). */
module DeploySerialization {
  import opened Common
  import opened Bits
  import opened Utf8
  import opened BinaryWriter

  datatype DeployData = DeployData(
    term: seq<Unit>, timestamp: int, phloPrice: int, phloLimit: int,
    validAfterBlockNumber: int, shardId: Option<seq<Unit>>)

  function ShardText(d: DeployData): seq<Unit> {
    if d.shardId.Some? then d.shardId.value else []
  }

  function Message(d: DeployData): seq<int> {
    StringField(2, d.term) + (Int64Field(3, d.timestamp) + (Int64Field(7, d.phloPrice)
    + (Int64Field(8, d.phloLimit) + (Int64Field(10, d.validAfterBlockNumber) + StringField(11, ShardText(d))))))
  }

  function Serialized(d: DeployData): seq<Byte> { ToBytes(Message(d)) }

  method DeployDataProtobufSerialize(d: DeployData) returns (bytes: seq<Byte>)
    ensures bytes == Serialized(d)
  {
    hide StringField, Int64Field, ToBytes;
    var writer := new BinaryWriterService();
    writer.WriteString(2, d.term);
    writer.WriteInt64(3, d.timestamp);
    writer.WriteInt64(7, d.phloPrice);
    writer.WriteInt64(8, d.phloLimit);
    writer.WriteInt64(10, d.validAfterBlockNumber);
    writer.WriteString(11, ShardText(d));
    Flatten(StringField(2, d.term), Int64Field(3, d.timestamp), Int64Field(7, d.phloPrice), Int64Field(8, d.phloLimit),
            Int64Field(10, d.validAfterBlockNumber), StringField(11, ShardText(d)));
    bytes := writer.GetResultBuffer();
  }

  lemma Flatten(a: seq<int>, b: seq<int>, c: seq<int>, d: seq<int>, e: seq<int>, f: seq<int>)
    ensures [] + a + b + c + d + e + f == a + (b + (c + (d + (e + f))))
  {}

  // ---- The reader ----

  datatype Varied = Varied(value: nat, length: nat)

  function DecodeVarint(b: seq<Byte>): Option<Varied> {
    if b == [] then None
    else if b[0] < 128 then Some(Varied(b[0], 1))
    else
      var rest := DecodeVarint(b[1..]);
      if rest.None? then None else Some(Varied(b[0] - 128 + 128 * rest.value.value, 1 + rest.value.length))
  }

  datatype Field = IntField(number: nat, value: nat) | TextField(number: nat, bytes: seq<Byte>)

  /** The fields of a message; other wire types than varint and length-delimited do
      not occur in it. */
  function ParseFields(b: seq<Byte>): Option<seq<Field>>
    decreases |b|
  {
    if b == [] then Some([])
    else
      var key := DecodeVarint(b);
      if key.None? || !(0 < key.value.length <= |b|) then None
      else
        var number, wire := key.value.value / 8, key.value.value % 8;
        var rest := b[key.value.length..];
        var head := DecodeVarint(rest);
        if head.None? || head.value.length > |rest| then None
        else
          var after := rest[head.value.length..];
          if wire == WIRE_TYPE_VARINT then Prepend(IntField(number, head.value.value), ParseFields(after))
          else if wire == WIRE_TYPE_LENGTH_DELIMITED && head.value.value <= |after| then
            Prepend(TextField(number, after[..head.value.value]), ParseFields(after[head.value.value..]))
          else None
  }

  function Prepend(f: Field, rest: Option<seq<Field>>): Option<seq<Field>> {
    if rest.None? then None else Some([f] + rest.value)
  }

  /** Of a field given more than once the last counts. */
  function IntOf(fields: seq<Field>, number: nat, soFar: nat): nat {
    if fields == [] then soFar
    else IntOf(fields[1..], number, if fields[0].IntField? && fields[0].number == number then fields[0].value else soFar)
  }

  function TextOf(fields: seq<Field>, number: nat, soFar: seq<Byte>): seq<Byte> {
    if fields == [] then soFar
    else TextOf(fields[1..], number, if fields[0].TextField? && fields[0].number == number then fields[0].bytes else soFar)
  }

  /** The deploy a reader of the bytes gets: a field left out is zero or empty, and
      an empty shard is no shard. */
  function ReadDeploy(bytes: seq<Byte>): Option<DeployData> {
    var fields := ParseFields(bytes);
    if fields.None? then None
    else
      var f := fields.value;
      var term, shard := Decode(TextOf(f, 2, [])), Decode(TextOf(f, 11, []));
      if term.None? || shard.None? then None
      else
        Some(DeployData(term.value, IntOf(f, 3, 0), IntOf(f, 7, 0), IntOf(f, 8, 0), IntOf(f, 10, 0), ShardOf(shard.value)))
  }

  function ShardOf(text: seq<Unit>): Option<seq<Unit>> {
    if text == [] then None else Some(text)
  }

  // ---- Varints ----

  lemma {:induction false} VarintDecodes(v: nat, rest: seq<Byte>)
    ensures DecodeVarint(Varint(v) + rest) == Some(Varied(v, |Varint(v)|))
  {
    if v > 127 {
      VarintDecodes(v / 128, rest);
      assert (Varint(v) + rest)[1..] == Varint(v / 128) + rest;
    }
  }

  /** The 32-bit writer loses what is above 2^32, and nothing else. */
  lemma Integer32Decodes(v: int, rest: seq<Byte>)
    requires v >= 0
    ensures forall i :: 0 <= i < |Integer32(v)| ==> 0 <= Integer32(v)[i] < 256
    ensures var b: seq<Byte> := Integer32(v); DecodeVarint(b + rest) == Some(Varied(ToUint32(v), |b|))
  {
    if v > 127 {
      hide ToUint32;
      var more := Varint(ToUint32(v) / 128);
      VarintDecodes(ToUint32(v) / 128, rest);
      LowBits(v);
      FirstByteDecodes(v % 128, ToUint32(v) / 128, more, rest);
    } else {
      Uint32IsItself(v);
      hide ToUint32;
    }
  }

  lemma FirstByteDecodes(low: nat, high: nat, more: seq<Byte>, rest: seq<Byte>)
    requires low < 128 && DecodeVarint(more + rest) == Some(Varied(high, |more|))
    ensures DecodeVarint([128 + low] + more + rest) == Some(Varied(low + 128 * high, 1 + |more|))
  {
    hide DecodeVarint;
    var b: seq<Byte> := [128 + low] + more + rest;
    assert b[0] == 128 + low && b[1..] == more + rest;
    MarkedByteGoesOn(b, Varied(high, |more|));
  }

  lemma MarkedByteGoesOn(b: seq<Byte>, more: Varied)
    requires b != [] && b[0] >= 128 && DecodeVarint(b[1..]) == Some(more)
    ensures DecodeVarint(b) == Some(Varied(b[0] - 128 + 128 * more.value, 1 + more.length))
  {}

  // ---- Fields ----

  function EncodeField(f: Field): seq<Byte> {
    match f
    case IntField(number, value) => Varint(number * 8) + Varint(value)
    case TextField(number, bytes) => Varint(number * 8 + 2) + (Varint(|bytes|) + bytes)
  }

  function EncodeFields(fs: seq<Field>): seq<Byte> {
    if fs == [] then [] else EncodeField(fs[0]) + EncodeFields(fs[1..])
  }

  lemma ParseStep(b: seq<Byte>, key: Varied, rest: seq<Byte>, head: Varied, after: seq<Byte>)
    requires b != [] && DecodeVarint(b) == Some(key) && 0 < key.length <= |b| && rest == b[key.length..]
    requires DecodeVarint(rest) == Some(head) && head.length <= |rest| && after == rest[head.length..]
    ensures key.value % 8 == WIRE_TYPE_VARINT ==> ParseFields(b) == Prepend(IntField(key.value / 8, head.value), ParseFields(after))
    ensures key.value % 8 == WIRE_TYPE_LENGTH_DELIMITED && head.value <= |after| ==>
              ParseFields(b) == Prepend(TextField(key.value / 8, after[..head.value]), ParseFields(after[head.value..]))
  {
    hide DecodeVarint;
  }

  lemma KeyParts(number: nat)
    ensures number * 8 % 8 == WIRE_TYPE_VARINT && number * 8 / 8 == number
    ensures (number * 8 + 2) % 8 == WIRE_TYPE_LENGTH_DELIMITED && (number * 8 + 2) / 8 == number
  {}

  lemma ParseInt(key: seq<Byte>, number: nat, value: seq<Byte>, v: nat, rest: seq<Byte>)
    requires |key| > 0 && DecodeVarint(key + (value + rest)) == Some(Varied(number * 8, |key|))
    requires DecodeVarint(value + rest) == Some(Varied(v, |value|))
    ensures ParseFields(key + (value + rest)) == Prepend(IntField(number, v), ParseFields(rest))
  {
    hide DecodeVarint, ParseFields;
    KeyParts(number);
    DropsFirst(key, value + rest);
    DropsFirst(value, rest);
    ParseStep(key + (value + rest), Varied(number * 8, |key|), value + rest, Varied(v, |value|), rest);
  }

  lemma ParseIntField(number: nat, value: nat, rest: seq<Byte>)
    ensures ParseFields(EncodeField(IntField(number, value)) + rest) == Prepend(IntField(number, value), ParseFields(rest))
  {
    hide Varint, DecodeVarint, ParseFields;
    VarintDecodes(number * 8, Varint(value) + rest);
    VarintDecodes(value, rest);
    Reassociate3(Varint(number * 8), Varint(value), rest);
    ParseInt(Varint(number * 8), number, Varint(value), value, rest);
  }

  lemma DropsFirst(a: seq<Byte>, b: seq<Byte>)
    ensures (a + b)[|a|..] == b && (a + b)[..|a|] == a && |a + b| == |a| + |b|
  {}

  lemma ParseText(key: seq<Byte>, number: nat, size: seq<Byte>, bytes: seq<Byte>, rest: seq<Byte>)
    requires |key| > 0 && DecodeVarint(key + (size + (bytes + rest))) == Some(Varied(number * 8 + 2, |key|))
    requires DecodeVarint(size + (bytes + rest)) == Some(Varied(|bytes|, |size|))
    ensures ParseFields(key + (size + (bytes + rest))) == Prepend(TextField(number, bytes), ParseFields(rest))
  {
    hide DecodeVarint, ParseFields;
    KeyParts(number);
    DropsFirst(key, size + (bytes + rest));
    DropsFirst(size, bytes + rest);
    DropsFirst(bytes, rest);
    ParseStep(key + (size + (bytes + rest)), Varied(number * 8 + 2, |key|), size + (bytes + rest), Varied(|bytes|, |size|), bytes + rest);
  }

  lemma ParseTextField(number: nat, bytes: seq<Byte>, rest: seq<Byte>)
    ensures ParseFields(EncodeField(TextField(number, bytes)) + rest) == Prepend(TextField(number, bytes), ParseFields(rest))
  {
    hide Varint, DecodeVarint, ParseFields;
    var key, size := Varint(number * 8 + 2), Varint(|bytes|);
    VarintDecodes(number * 8 + 2, size + (bytes + rest));
    VarintDecodes(|bytes|, bytes + rest);
    Reassociates(key, size, bytes, rest);
    ParseText(key, number, size, bytes, rest);
  }

  lemma Reassociates(a: seq<Byte>, b: seq<Byte>, c: seq<Byte>, d: seq<Byte>)
    ensures a + (b + c) + d == a + (b + (c + d))
  {}

  lemma {:induction false} FieldsParse(fs: seq<Field>)
    ensures ParseFields(EncodeFields(fs)) == Some(fs)
  {
    if fs != [] {
      hide ParseFields, EncodeField;
      FieldsParse(fs[1..]);
      assert fs == [fs[0]] + fs[1..];
      if fs[0].IntField? {
        ParseIntField(fs[0].number, fs[0].value, EncodeFields(fs[1..]));
      } else {
        ParseTextField(fs[0].number, fs[0].bytes, EncodeFields(fs[1..]));
      }
    }
  }

  lemma {:induction false} EncodeFieldsAppends(fs: seq<Field>, gs: seq<Field>)
    ensures EncodeFields(fs + gs) == EncodeFields(fs) + EncodeFields(gs)
  {
    hide EncodeField;
    if fs == [] {
      assert fs + gs == gs && [] + EncodeFields(gs) == EncodeFields(gs);
    } else {
      EncodeFieldsAppends(fs[1..], gs);
      assert (fs + gs)[1..] == fs[1..] + gs && (fs + gs)[0] == fs[0];
      var head: seq<Byte> := EncodeField(fs[0]);
      assert head + (EncodeFields(fs[1..]) + EncodeFields(gs)) == head + EncodeFields(fs[1..]) + EncodeFields(gs);
    }
  }

  // ---- The message ----

  function IntFields(number: nat, value: int): seq<Field> {
    if value <= 0 then [] else [IntField(number, value)]
  }

  function TextFields(number: nat, value: seq<Unit>): seq<Field> {
    if value == [] then [] else [TextField(number, Encode(value))]
  }

  function FieldsOf(d: DeployData): seq<Field> {
    TextFields(2, d.term) + (IntFields(3, d.timestamp) + (IntFields(7, d.phloPrice)
    + (IntFields(8, d.phloLimit) + (IntFields(10, d.validAfterBlockNumber) + TextFields(11, ShardText(d))))))
  }

  /** No string of the runtime encodes to 2^32 bytes. */
  ghost predicate Encodable(text: seq<Unit>) { |Encode(text)| < TWO_32 }

  ghost predicate InDomain(d: DeployData) { Encodable(d.term) && Encodable(ShardText(d)) }

  predicate NoneNegative(d: DeployData) {
    d.timestamp >= 0 && d.phloPrice >= 0 && d.phloLimit >= 0 && d.validAfterBlockNumber >= 0
  }

  lemma Int64FieldIs(number: nat, value: int)
    requires 0 < number < 16 && value >= 0
    ensures Int64Field(number, value) == EncodeFields(IntFields(number, value))
  {
    KeyIsSum(number, WIRE_TYPE_VARINT);
    hide Or, ShiftLeft;
    if value > 0 {
      Integer32Fits(number * 8);
      OneField(IntField(number, value));
    }
  }

  lemma StringFieldIs(number: nat, value: seq<Unit>)
    requires 0 < number < 16 && Encodable(value)
    ensures StringField(number, value) == EncodeFields(TextFields(number, value))
  {
    KeyIsSum(number, WIRE_TYPE_LENGTH_DELIMITED);
    hide Or, ShiftLeft, Encode;
    if value != [] {
      var bytes := Encode(value);
      Integer32Fits(number * 8 + 2);
      Integer32Fits(|bytes|);
      OneField(TextField(number, bytes));
      Reassociate3(Varint(number * 8 + 2), Varint(|bytes|), bytes);
    }
  }

  lemma Reassociate3(a: seq<Byte>, b: seq<Byte>, c: seq<Byte>)
    ensures a + b + c == a + (b + c)
  {}

  lemma OneField(f: Field)
    ensures EncodeFields([f]) == EncodeField(f)
  {
    hide EncodeField;
    assert [f][1..] == [];
  }

  lemma MessageIsFields(d: DeployData)
    requires InDomain(d) && NoneNegative(d)
    ensures Message(d) == EncodeFields(FieldsOf(d))
  {
    StringFieldIs(2, d.term);
    Int64FieldIs(3, d.timestamp);
    Int64FieldIs(7, d.phloPrice);
    Int64FieldIs(8, d.phloLimit);
    Int64FieldIs(10, d.validAfterBlockNumber);
    StringFieldIs(11, ShardText(d));
    hide StringField, Int64Field, IntFields, TextFields;
    var f2, f3, f7 := TextFields(2, d.term), IntFields(3, d.timestamp), IntFields(7, d.phloPrice);
    var f8, f10, f11 := IntFields(8, d.phloLimit), IntFields(10, d.validAfterBlockNumber), TextFields(11, ShardText(d));
    EncodeFieldsAppends(f10, f11);
    EncodeFieldsAppends(f8, f10 + f11);
    EncodeFieldsAppends(f7, f8 + (f10 + f11));
    EncodeFieldsAppends(f3, f7 + (f8 + (f10 + f11)));
    EncodeFieldsAppends(f2, f3 + (f7 + (f8 + (f10 + f11))));
  }

  lemma BytesAreThemselves(b: seq<Byte>)
    ensures ToBytes(b) == b
  {}

  lemma {:induction false} IntOfAppends(fs: seq<Field>, gs: seq<Field>, number: nat, soFar: nat)
    ensures IntOf(fs + gs, number, soFar) == IntOf(gs, number, IntOf(fs, number, soFar))
  {
    if fs == [] {
      assert fs + gs == gs;
    } else {
      assert (fs + gs)[1..] == fs[1..] + gs;
      IntOfAppends(fs[1..], gs, number, if fs[0].IntField? && fs[0].number == number then fs[0].value else soFar);
    }
  }

  lemma {:induction false} TextOfAppends(fs: seq<Field>, gs: seq<Field>, number: nat, soFar: seq<Byte>)
    ensures TextOf(fs + gs, number, soFar) == TextOf(gs, number, TextOf(fs, number, soFar))
  {
    if fs == [] {
      assert fs + gs == gs;
    } else {
      assert (fs + gs)[1..] == fs[1..] + gs;
      TextOfAppends(fs[1..], gs, number, if fs[0].TextField? && fs[0].number == number then fs[0].bytes else soFar);
    }
  }

  lemma IntFieldsRead(k: nat, value: int, number: nat, soFar: nat)
    ensures IntOf(IntFields(k, value), number, soFar) == (if value > 0 && k == number then value else soFar)
    ensures forall text :: TextOf(IntFields(k, value), number, text) == text
  {
    if value > 0 { assert [IntField(k, value)][1..] == []; }
  }

  lemma TextFieldsRead(k: nat, value: seq<Unit>, number: nat, soFar: nat)
    ensures IntOf(TextFields(k, value), number, soFar) == soFar
    ensures forall text :: TextOf(TextFields(k, value), number, text) == if value != [] && k == number then Encode(value) else text
  {
    if value != [] { assert [TextField(k, Encode(value))][1..] == []; }
  }

  lemma MessageInt(d: DeployData, number: nat)
    ensures IntOf(FieldsOf(d), number, 0)
            == if number == 10 && d.validAfterBlockNumber > 0 then d.validAfterBlockNumber
               else if number == 8 && d.phloLimit > 0 then d.phloLimit
               else if number == 7 && d.phloPrice > 0 then d.phloPrice
               else if number == 3 && d.timestamp > 0 then d.timestamp
               else 0
  {
    var f2, f3, f7 := TextFields(2, d.term), IntFields(3, d.timestamp), IntFields(7, d.phloPrice);
    var f8, f10, f11 := IntFields(8, d.phloLimit), IntFields(10, d.validAfterBlockNumber), TextFields(11, ShardText(d));
    TextFieldsRead(2, d.term, number, 0);
    IntFieldsRead(3, d.timestamp, number, 0);
    var s3 := IntOf(f3, number, 0);
    IntFieldsRead(7, d.phloPrice, number, s3);
    var s7 := IntOf(f7, number, s3);
    IntFieldsRead(8, d.phloLimit, number, s7);
    var s8 := IntOf(f8, number, s7);
    IntFieldsRead(10, d.validAfterBlockNumber, number, s8);
    TextFieldsRead(11, ShardText(d), number, IntOf(f10, number, s8));
    hide IntOf, IntFields, TextFields;
    IntOfAppends(f2, f3 + (f7 + (f8 + (f10 + f11))), number, 0);
    IntOfAppends(f3, f7 + (f8 + (f10 + f11)), number, 0);
    IntOfAppends(f7, f8 + (f10 + f11), number, s3);
    IntOfAppends(f8, f10 + f11, number, s7);
    IntOfAppends(f10, f11, number, s8);
  }

  lemma MessageText(d: DeployData, number: nat)
    requires number == 2 || number == 11
    ensures TextOf(FieldsOf(d), number, []) == Encode(if number == 2 then d.term else ShardText(d))
  {
    var f2, f3, f7 := TextFields(2, d.term), IntFields(3, d.timestamp), IntFields(7, d.phloPrice);
    var f8, f10, f11 := IntFields(8, d.phloLimit), IntFields(10, d.validAfterBlockNumber), TextFields(11, ShardText(d));
    TextFieldsRead(2, d.term, number, 0);
    IntFieldsRead(3, d.timestamp, number, 0);
    IntFieldsRead(7, d.phloPrice, number, 0);
    IntFieldsRead(8, d.phloLimit, number, 0);
    IntFieldsRead(10, d.validAfterBlockNumber, number, 0);
    TextFieldsRead(11, ShardText(d), number, 0);
    assert Encode([]) == [];
    hide TextOf, IntFields, TextFields, Encode;
    var s := TextOf(f2, number, []);
    TextOfAppends(f2, f3 + (f7 + (f8 + (f10 + f11))), number, []);
    TextOfAppends(f3, f7 + (f8 + (f10 + f11)), number, s);
    TextOfAppends(f7, f8 + (f10 + f11), number, s);
    TextOfAppends(f8, f10 + f11, number, s);
    TextOfAppends(f10, f11, number, s);
  }

  /** The deploy as its bytes can tell it: lone surrogates replaced, and no shard for
      an empty one. */
  function Normal(d: DeployData): DeployData {
    d.(term := ToWellFormed(d.term), shardId := ShardOf(ToWellFormed(ShardText(d))))
  }

  lemma NonNegativeIsRead(d: DeployData)
    requires InDomain(d) && NoneNegative(d)
    ensures ReadDeploy(Serialized(d)) == Some(Normal(d))
  {
    MessageIsFields(d);
    BytesAreThemselves(EncodeFields(FieldsOf(d)));
    FieldsParse(FieldsOf(d));
    MessageText(d, 2);
    MessageText(d, 11);
    EncodeRoundTrips(d.term);
    EncodeRoundTrips(ShardText(d));
    MessageInt(d, 3);
    MessageInt(d, 7);
    MessageInt(d, 8);
    MessageInt(d, 10);
    hide Encode, Decode, EncodeFields, ParseFields, FieldsOf, Message, IntOf, TextOf, ToBytes, ToWellFormed;
  }

  /** Reading the serialized bytes returns the deploy exactly when none of its
      numbers is negative. */
  lemma ReadsBackIff(d: DeployData)
    requires InDomain(d)
    ensures ReadDeploy(Serialized(d)) == Some(Normal(d)) <==> NoneNegative(d)
  {
    if NoneNegative(d) { NonNegativeIsRead(d); }
    hide ParseFields, Serialized, Decode, TextOf;
  }

  /** "root", the shard a deploy gets unless it names another. */
  const ROOT_SHARD: seq<Unit> := [114, 111, 111, 116]

  /** Field 10 with the value -1, as numbers, and what follows it for each shard. */
  const GENESIS_BLOCK: seq<int> := [80, -1]
  const ROOT_FIELD: seq<int> := [90, 4, 114, 111, 111, 116]

  /** Right after genesis the block number to be valid after is -1: a deploy for the
      root shard, or for none, then cannot be read at all. */
  lemma GenesisDeployIsUnreadable(d: DeployData)
    requires InDomain(d) && d.validAfterBlockNumber == -1 && (ShardText(d) == [] || ShardText(d) == ROOT_SHARD)
    requires d.timestamp >= 0 && d.phloPrice >= 0 && d.phloLimit >= 0
    ensures ReadDeploy(Serialized(d)).None?
  {
    var fs := TextFields(2, d.term) + (IntFields(3, d.timestamp) + (IntFields(7, d.phloPrice) + IntFields(8, d.phloLimit)));
    var shard := if ShardText(d) == [] then [] else ROOT_FIELD;
    RootField();
    GenesisMessage(d, fs, shard);
    WrittenTail(EncodeFields(fs), GENESIS_BLOCK + shard);
    NegativeVarint();
    UnreadableTail(fs, ToBytes(GENESIS_BLOCK + shard));
    hide EncodeFields, ParseFields, Message, ToBytes, TextFields, IntFields;
  }

  lemma RootField()
    ensures StringField(11, []) == [] && StringField(11, ROOT_SHARD) == ROOT_FIELD
  {
    KeyIsSum(11, WIRE_TYPE_LENGTH_DELIMITED);
    RootEncodes();
    hide Or, ShiftLeft, Encode;
  }

  lemma RootEncodes()
    ensures Encode(ROOT_SHARD) == [114, 111, 111, 116]
  {
    var s := ROOT_SHARD;
    assert s[1..] == [111, 111, 116] && s[1..][1..] == [111, 116] && s[1..][1..][1..] == [116] && s[1..][1..][1..][1..] == [];
    assert CodePoints([116]) == [116] && CodePoints([111, 116]) == [111, 116] && CodePoints([111, 111, 116]) == [111, 111, 116];
    assert CodePoints(s) == [114, 111, 111, 116];
    AsciiEncodes([114, 111, 111, 116]);
    hide EncodeAll, CodePoints;
  }

  lemma {:induction false} AsciiEncodes(cs: seq<Scalar>)
    requires forall i :: 0 <= i < |cs| ==> 0 <= cs[i] < 128
    ensures EncodeAll(cs) == cs
  {
    if cs != [] {
      AsciiEncodes(cs[1..]);
      assert cs == [cs[0]] + cs[1..];
    }
  }

  /** Read as a varint, the byte of -1 runs on into what follows it. */
  lemma NegativeVarint()
    ensures ParseFields(ToBytes(GENESIS_BLOCK + [])).None?
    ensures ParseFields(ToBytes(GENESIS_BLOCK + ROOT_FIELD)).None?
  {
    var bare: seq<Byte> := [80, 255];
    assert ToBytes(GENESIS_BLOCK + []) == bare;
    var root: seq<Byte> := [80, 255, 90, 4, 114, 111, 111, 116];
    assert ToBytes(GENESIS_BLOCK + ROOT_FIELD) == root;
    hide ParseFields;
    EndsInVarint(bare);
    RunsIntoShard(root);
  }

  lemma EndsInVarint(bare: seq<Byte>)
    requires bare == [80, 255]
    ensures ParseFields(bare).None?
  {
    var value := bare[1..];
    assert value == [255] && value[1..] == [];
    assert DecodeVarint(bare) == Some(Varied(80, 1));
    assert DecodeVarint(value[1..]).None?;
    assert DecodeVarint(value).None?;
    hide DecodeVarint;
  }

  lemma RunsIntoShard(root: seq<Byte>)
    requires root == [80, 255, 90, 4, 114, 111, 111, 116]
    ensures ParseFields(root).None?
  {
    var value: seq<Byte> := [255, 90, 4, 114, 111, 111, 116];
    assert root[1..] == value && value[1..] == [90, 4, 114, 111, 111, 116];
    var after: seq<Byte> := [4, 114, 111, 111, 116];
    assert value[2..] == after;
    assert DecodeVarint(root) == Some(Varied(80, 1)) && DecodeVarint(value) == Some(Varied(11647, 2));
    hide DecodeVarint, ParseFields;
    HasNoWireType(after);
    ParseStep(root, Varied(80, 1), value, Varied(11647, 2), after);
  }

  lemma HasNoWireType(after: seq<Byte>)
    requires after == [4, 114, 111, 111, 116]
    ensures ParseFields(after).None?
  {
    assert after[1..] == [114, 111, 111, 116];
    assert DecodeVarint(after) == Some(Varied(4, 1)) && DecodeVarint(after[1..]) == Some(Varied(114, 1));
    hide DecodeVarint;
  }

  lemma WrittenTail(b: seq<Byte>, tail: seq<int>)
    ensures var written: seq<int> := b; ToBytes(written + tail) == b + ToBytes(tail)
  {}

  lemma GenesisBlockIs()
    ensures Int64Field(10, -1) == GENESIS_BLOCK
  {
    KeyIsSum(10, WIRE_TYPE_VARINT);
    hide Or, ShiftLeft;
  }

  lemma GenesisMessage(d: DeployData, fs: seq<Field>, shard: seq<int>)
    requires InDomain(d) && d.validAfterBlockNumber == -1 && StringField(11, ShardText(d)) == shard
    requires d.timestamp >= 0 && d.phloPrice >= 0 && d.phloLimit >= 0
    requires fs == TextFields(2, d.term) + (IntFields(3, d.timestamp) + (IntFields(7, d.phloPrice) + IntFields(8, d.phloLimit)))
    ensures var written: seq<int> := EncodeFields(fs); Message(d) == written + (GENESIS_BLOCK + shard)
  {
    hide StringField, Int64Field, IntFields, TextFields;
    StringFieldIs(2, d.term);
    Int64FieldIs(3, d.timestamp);
    Int64FieldIs(7, d.phloPrice);
    Int64FieldIs(8, d.phloLimit);
    GenesisBlockIs();
    var f2, f3, f7, f8 := TextFields(2, d.term), IntFields(3, d.timestamp), IntFields(7, d.phloPrice), IntFields(8, d.phloLimit);
    EncodeFieldsAppends(f7, f8);
    EncodeFieldsAppends(f3, f7 + f8);
    EncodeFieldsAppends(f2, f3 + (f7 + f8));
    hide EncodeFields;
    Flatten6(EncodeFields(f2), EncodeFields(f3), EncodeFields(f7), EncodeFields(f8), GENESIS_BLOCK, shard);
  }

  lemma Flatten6(a: seq<int>, b: seq<int>, c: seq<int>, d: seq<int>, e: seq<int>, f: seq<int>)
    ensures a + (b + (c + (d + (e + f)))) == a + (b + (c + d)) + (e + f)
  {}

  lemma {:induction false} UnreadableTail(fs: seq<Field>, rest: seq<Byte>)
    requires ParseFields(rest).None?
    ensures ParseFields(EncodeFields(fs) + rest).None?
  {
    hide EncodeField, ParseFields;
    if fs == [] {
      assert EncodeFields(fs) + rest == rest;
    } else {
      UnreadableTail(fs[1..], rest);
      assert EncodeFields(fs) + rest == EncodeField(fs[0]) + (EncodeFields(fs[1..]) + rest);
      if fs[0].IntField? {
        ParseIntField(fs[0].number, fs[0].value, EncodeFields(fs[1..]) + rest);
      } else {
        ParseTextField(fs[0].number, fs[0].bytes, EncodeFields(fs[1..]) + rest);
      }
    }
  }

  /** Deploys with the same bytes are the same, but for no shard and an empty one. */
  lemma SerializingIsInjective(d: DeployData, e: DeployData)
    requires InDomain(d) && NoneNegative(d) && IsWellFormed(d.term) && IsWellFormed(ShardText(d))
    requires InDomain(e) && NoneNegative(e) && IsWellFormed(e.term) && IsWellFormed(ShardText(e))
    requires Serialized(d) == Serialized(e)
    ensures d.(shardId := None) == e.(shardId := None) && ShardText(d) == ShardText(e)
  {
    NonNegativeIsRead(d);
    NonNegativeIsRead(e);
    WellFormedIsKept(d.term);
    WellFormedIsKept(ShardText(d));
    WellFormedIsKept(e.term);
    WellFormedIsKept(ShardText(e));
    hide ReadDeploy, Serialized, ToWellFormed, IsWellFormed;
  }
}
