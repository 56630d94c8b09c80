/**
  The wire format in the numbers of the Protocol Buffers Encoding specification: what the bytes of
  a varint say, and that any well-formed value of an unknown field is skipped whole.
 */
module WireFormat {
  import opened Options
  import opened Wire
  import opened Codec

  // ---- Varints ----

  /** Section "Base 128 Varints": seven bits a byte, the lowest first. */
  function VarintValue(bs: seq<byte>): nat {
    if bs == [] then 0 else bs[0] % 128 + 128 * VarintValue(bs[1..])
  }

  /** Every byte but the last has its high bit set, and the last one is not zero without need. */
  lemma {:induction false} VarintBytes(n: nat)
    ensures VarintValue(Varint(n)) == n
    ensures forall i :: 0 <= i < |Varint(n)| ==> (Varint(n)[i] >= 128 <==> i < |Varint(n)| - 1)
    ensures n > 0 ==> Varint(n)[|Varint(n)| - 1] != 0
  {
    if n >= 128 {
      VarintBytes(n / 128);
      assert Varint(n)[1..] == Varint(n / 128);
      assert Varint(n)[0] % 128 == n % 128;
    } else {
      assert Varint(n)[1..] == [];
    }
  }

  /** A negative int32 is the 64-bit two's complement number. */
  lemma Int32Bytes(x: int32)
    ensures VarintValue(Int32(x)) == if x < 0 then 18446744073709551616 + x else x
    ensures Bool(true) == [1] && Bool(false) == [0]
  {
    VarintBytes(if x < 0 then x + TWO_64 else x);
  }

  /** A varint that goes on after ten bytes is an error. */
  lemma {:induction false} EndlessVarint(s: seq<byte>, limit: nat)
    requires |s| >= limit && forall i :: 0 <= i < limit ==> s[i] >= 128
    ensures ReadVarint(s, limit).Fail?
  {
    if limit > 0 { EndlessVarint(s[1..], limit - 1); }
  }

  lemma TooLongVarint(s: seq<byte>)
    requires |s| >= 10 && forall i :: 0 <= i < 10 ==> s[i] >= 128
    ensures ReadUint32(s).Fail?
  {
    EndlessVarint(s, 10);
  }

  // ---- Messages ----

  /** An optional record whose value is a varint, after its tag byte. */
  function NumberRecord(tag: byte, x: Option<int32>): seq<byte> {
    match x case None => [] case Some(n) => [tag] + Int32(n)
  }

  /** An optional record of bytes: the tag byte, the length, the bytes. */
  function TextRecord(tag: byte, b: Option<seq<byte>>): seq<byte> {
    match b case None => [] case Some(bytes) => [tag] + Varint(|bytes|) + bytes
  }

  function ListRecords(tag: byte, list: seq<seq<byte>>): seq<byte> {
    if list == [] then []
    else ListRecords(tag, list[..|list| - 1]) + TextRecord(tag, Some(list[|list| - 1]))
  }

  /** An encoding is the shared records, then the service ids from V2 on, then the connection from V3 on. */
  lemma EncodeParts(v: Version, m: Message)
    ensures Encode(v, m) == EncodeFields(CommonFields(m))
                            + (if v == V1 then [] else EncodeFields(ServiceFields(m)))
                            + (if v == V3 then EncodeFields(ConnectionFields(m)) else [])
  {
    hide EncodeFields, CommonFields, ServiceFields, ConnectionFields;
    var services := if HasServices(v) then ServiceFields(m) else [];
    var connections := if HasConnections(v) then ConnectionFields(m) else [];
    EncodeFieldsConcat(CommonFields(m) + services, connections);
    EncodeFieldsConcat(CommonFields(m), services);
    NoFields();
  }

  lemma NoFields()
    ensures EncodeFields([]) == []
  {
  }

  lemma OneOptional(present: bool, f: Field)
    ensures EncodeFields(Optional(present, f)) == if present then EncodeField(f) else []
  {
    EncodeOptional([], present, f);
    assert [] + Optional(present, f) == Optional(present, f);
  }

  lemma TypeRecord(x: Option<int32>)
    ensures EncodeFields(Optional(x.Some?, TypeField(x.GetOr(0)))) == NumberRecord(8, x)
    ensures EncodeFields(Optional(x.Some?, StreamField(x.GetOr(0)))) == NumberRecord(16, x)
  {
    OneOptional(x.Some?, TypeField(x.GetOr(0)));
    OneOptional(x.Some?, StreamField(x.GetOr(0)));
    hide EncodeFields, Int32, Optional;
  }

  function FlagRecord(tag: byte, x: Option<bool>): seq<byte> {
    match x case None => [] case Some(b) => [tag, if b then 1 else 0]
  }

  lemma IgnorableRecord(x: Option<bool>)
    ensures EncodeFields(Optional(x.Some?, IgnorableField(x.GetOr(false)))) == FlagRecord(24, x)
  {
    OneOptional(x.Some?, IgnorableField(x.GetOr(false)));
    hide EncodeFields, Optional;
  }

  lemma PayloadRecord(x: Option<seq<byte>>)
    ensures EncodeFields(Optional(x.Some?, PayloadField(x.GetOr([])))) == TextRecord(34, x)
  {
    OneOptional(x.Some?, PayloadField(x.GetOr([])));
    hide EncodeFields, Varint, Optional;
  }

  /** Four optional records in a row. */
  lemma CommonBytes(m: Message)
    ensures EncodeFields(CommonFields(m)) ==
            NumberRecord(8, m.msgType) + NumberRecord(16, m.streamId) + FlagRecord(24, m.ignorable)
            + TextRecord(34, m.payload)
  {
    hide EncodeFields, Optional, NumberRecord, FlagRecord, TextRecord;
    TypeRecord(m.msgType);
    TypeRecord(m.streamId);
    IgnorableRecord(m.ignorable);
    PayloadRecord(m.payload);
    FourConcat(Optional(m.msgType.Some?, TypeField(m.msgType.GetOr(0))),
               Optional(m.streamId.Some?, StreamField(m.streamId.GetOr(0))),
               Optional(m.ignorable.Some?, IgnorableField(m.ignorable.GetOr(false))),
               Optional(m.payload.Some?, PayloadField(m.payload.GetOr([]))));
  }

  lemma FourConcat(a: seq<Field>, b: seq<Field>, c: seq<Field>, d: seq<Field>)
    ensures EncodeFields(a + b + c + d) == EncodeFields(a) + EncodeFields(b) + EncodeFields(c) + EncodeFields(d)
  {
    hide EncodeFields;
    EncodeFieldsConcat(a + b + c, d);
    EncodeFieldsConcat(a + b, c);
    EncodeFieldsConcat(a, b);
  }

  lemma {:induction false} ListBytes(list: seq<seq<byte>>)
    ensures EncodeFields(Available(list)) == ListRecords(50, list)
  {
    hide Varint;
    if list != [] {
      ListBytes(list[..|list| - 1]);
      EncodeAppend(Available(list[..|list| - 1]), AvailableField(list[|list| - 1]));
    }
  }

  lemma ServiceBytes(m: Message)
    ensures EncodeFields(ServiceFields(m)) == TextRecord(42, m.serviceId) + ListRecords(50, m.availableServiceIds)
  {
    hide Varint, Available;
    var own := Optional(m.serviceId.Some?, ServiceField(m.serviceId.GetOr([])));
    NoFields();
    assert [] + own == own;
    EncodeOptional([], m.serviceId.Some?, ServiceField(m.serviceId.GetOr([])));
    EncodeFieldsConcat(own, Available(m.availableServiceIds));
    ListBytes(m.availableServiceIds);
    hide EncodeFields;
  }

  lemma ConnectionBytes(m: Message)
    ensures EncodeFields(ConnectionFields(m)) ==
            match m.connectionId case None => [] case Some(id) => [56] + Varint(id)
  {
    hide Varint;
    var own := ConnectionFields(m);
    NoFields();
    assert [] + own == own;
    EncodeOptional([], m.connectionId.Some?, ConnectionField(m.connectionId.GetOr(0)));
    hide EncodeFields;
  }

  /** The bytes of any message in any version: the tags of the .proto files, in their order. */
  lemma MessageBytes(v: Version, m: Message)
    ensures Encode(v, m) ==
            NumberRecord(8, m.msgType) + NumberRecord(16, m.streamId) + FlagRecord(24, m.ignorable)
            + TextRecord(34, m.payload)
            + (if v == V1 then [] else TextRecord(42, m.serviceId) + ListRecords(50, m.availableServiceIds))
            + (if v != V3 then [] else match m.connectionId case None => [] case Some(id) => [56] + Varint(id))
  {
    EncodeParts(v, m);
    CommonBytes(m);
    ServiceBytes(m);
    ConnectionBytes(m);
    hide Encode, EncodeFields, CommonFields, ServiceFields, ConnectionFields;
  }

  // ---- Unknown fields ----

  /** The value of a field of any type, and the fields of a group, ended by its end tag. */
  datatype Unknown =
    | Number(n: nat)
    | Eight(b: seq<byte>)
    | Text(b: seq<byte>)
    | Group(fields: Unknowns)
    | Four(b: seq<byte>)

  datatype Unknowns = End(number: nat) | More(number: nat, value: Unknown, rest: Unknowns)

  // Section "Message Structure": the wire types.
  function WireNumber(u: Unknown): nat {
    match u case Number(_) => 0 case Eight(_) => 1 case Text(_) => 2 case Group(_) => 3 case Four(_) => 5
  }

  function ValueBytes(u: Unknown): seq<byte> {
    match u
    case Number(n) => Varint(n)
    case Eight(b) => b
    case Text(b) => Varint(|b|) + b
    case Group(fields) => GroupBytes(fields)
    case Four(b) => b
  }

  function GroupBytes(fields: Unknowns): seq<byte> {
    match fields
    case End(number) => Varint(8 * number + 4)
    case More(number, value, rest) =>
      Varint(8 * number + WireNumber(value)) + (ValueBytes(value) + GroupBytes(rest))
  }

  const MAX_NUMBER: nat := 0x1FFF_FFFF

  predicate ValidValue(u: Unknown) {
    match u
    case Number(n) => n < 18446744073709551616
    case Eight(b) => |b| == 8
    case Text(b) => |b| < 4294967296
    case Group(fields) => ValidGroup(fields)
    case Four(b) => |b| == 4
  }

  predicate ValidGroup(fields: Unknowns) {
    match fields
    case End(number) => number <= MAX_NUMBER
    case More(number, value, rest) => number <= MAX_NUMBER && ValidValue(value) && ValidGroup(rest)
  }

  lemma NumberSkipped(n: nat, tail: seq<byte>)
    requires n < 18446744073709551616
    ensures SkipType(Varint(n) + tail, 0) == Got([], tail)
  {
    hide Varint, ReadVarint, Pow128;
    Pow128Values();
    VarintRoundTrip(n, tail, MAX_VARINT);
  }

  lemma FixedSkipped(b: seq<byte>, tail: seq<byte>)
    ensures |b| == 8 ==> SkipType(b + tail, 1) == Got(b, tail)
    ensures |b| == 4 ==> SkipType(b + tail, 5) == Got(b, tail)
  {
    assert (b + tail)[..|b|] == b && (b + tail)[|b|..] == tail;
  }

  lemma TextSkipped(b: seq<byte>, tail: seq<byte>)
    requires |b| < 4294967296
    ensures SkipType(Varint(|b|) + b + tail, 2) == Got(b, tail)
  {
    BytesRoundTrip(b, tail);
    hide Varint, ReadBytes;
  }

  lemma GroupSkipped(s: seq<byte>)
    ensures SkipType(s, 3) == SkipGroup(s)
  {
  }

  /** Skipping by wire type takes exactly the value, groups nested to any depth included. */
  lemma {:induction false} SkipsExactly(u: Unknown, tail: seq<byte>)
    requires ValidValue(u)
    ensures var r := SkipType(ValueBytes(u) + tail, WireNumber(u)); r.Got? && r.rest == tail
    decreases u, 1
  {
    hide Varint, SkipType, SkipGroup, GroupBytes;
    match u {
      case Number(n) => NumberSkipped(n, tail);
      case Eight(b) => FixedSkipped(b, tail);
      case Text(b) => TextSkipped(b, tail);
      case Group(fields) =>
        GroupSkipped(GroupBytes(fields) + tail);
        GroupSkipsExactly(fields, tail);
      case Four(b) => FixedSkipped(b, tail);
    }
  }

  /** One field of a group is skipped, then the rest of it. */
  lemma GroupStep(s: seq<byte>, tag: uint32, rest: seq<byte>, more: seq<byte>)
    requires ReadUint32(s) == Got(tag, rest) && tag % 8 != 4
    requires var r := SkipType(rest, tag % 8); r.Got? && r.rest == more
    ensures SkipGroup(s) == SkipGroup(more)
  {
    hide ReadUint32, SkipType;
  }

  lemma GroupEnd(s: seq<byte>, tag: uint32, tail: seq<byte>)
    requires ReadUint32(s) == Got(tag, tail) && tag % 8 == 4
    ensures SkipGroup(s) == Got([], tail)
  {
    hide ReadUint32, SkipType;
  }

  lemma {:induction false} GroupSkipsExactly(fields: Unknowns, tail: seq<byte>)
    requires ValidGroup(fields)
    ensures var r := SkipGroup(GroupBytes(fields) + tail); r.Got? && r.rest == tail
    decreases fields, 0
  {
    hide Varint, ReadVarint, ReadUint32, SkipType, SkipGroup, ValueBytes;
    match fields {
      case End(number) =>
        Uint32RoundTrip(8 * number + 4, tail);
        GroupEnd(GroupBytes(fields) + tail, 8 * number + 4, tail);
      case More(number, value, rest) =>
        var tag, more := 8 * number + WireNumber(value), GroupBytes(rest) + tail;
        Uint32RoundTrip(tag, ValueBytes(value) + more);
        assert GroupBytes(fields) + tail == Varint(tag) + (ValueBytes(value) + more);
        assert tag % 8 == WireNumber(value);
        SkipsExactly(value, more);
        GroupStep(GroupBytes(fields) + tail, tag, ValueBytes(value) + more, more);
        GroupSkipsExactly(rest, tail);
    }
  }

  /** Wire types 4, 6 and 7 have no value to skip. */
  lemma NothingToSkip(s: seq<byte>)
    ensures SkipType(s, 4).Fail? && SkipType(s, 6).Fail? && SkipType(s, 7).Fail?
  {
  }

  /** The field numbers a version's decoder has a case for. */
  predicate IsKnown(v: Version, number: nat) {
    1 <= number <= 4 || (v != V1 && 5 <= number <= 6) || (v == V3 && number == 7)
  }

  /** A known field is read by its number alone, whatever the wire type of its tag. */
  lemma KnownByNumber(v: Version, number: nat, wire: nat, wire': nat, s: seq<byte>)
    requires IsKnown(v, number) && wire < 8 && wire' < 8
    ensures ReadFieldValue(v, 8 * number + wire, s) == ReadFieldValue(v, 8 * number + wire', s)
  {
    hide ReadNumber, ReadFlag, ReadText, ReadConnection, SkipUnknown;
    assert (8 * number + wire) / 8 == number && (8 * number + wire') / 8 == number;
  }

  lemma ReadUnknown(v: Version, number: nat, u: Unknown, tail: seq<byte>)
    requires number <= MAX_NUMBER && !IsKnown(v, number) && ValidValue(u)
    ensures ReadField(v, Varint(8 * number + WireNumber(u)) + (ValueBytes(u) + tail)) == Got(SkippedField, tail)
  {
    hide Varint, ReadVarint, ReadUint32, SkipType, ValueBytes;
    var tag, rest := 8 * number + WireNumber(u), ValueBytes(u) + tail;
    Uint32RoundTrip(tag, rest);
    SkipsExactly(u, tail);
    assert tag / 8 == number && tag % 8 == WireNumber(u);
    hide WireNumber, ReadNumber, ReadFlag, ReadText, ReadConnection;
    assert ReadFieldValue(v, tag, rest) == Got(SkippedField, tail);
  }

  /** A field the version does not know leaves the message as it is, and decoding goes on after it. */
  lemma UnknownSkipped(v: Version, number: nat, u: Unknown, tail: seq<byte>, m: Message)
    requires number <= MAX_NUMBER && !IsKnown(v, number) && ValidValue(u)
    ensures DecodeInto(v, Varint(8 * number + WireNumber(u)) + (ValueBytes(u) + tail), m) == DecodeInto(v, tail, m)
  {
    hide Varint, ReadField, ValueBytes, WireNumber, DecodeInto, ValidValue;
    ReadUnknown(v, number, u, tail);
    DecodeStep(v, Varint(8 * number + WireNumber(u)) + (ValueBytes(u) + tail), tail, m);
  }

  lemma DecodeStep(v: Version, s: seq<byte>, rest: seq<byte>, m: Message)
    requires s != [] && ReadField(v, s) == Got(SkippedField, rest)
    ensures DecodeInto(v, s, m) == DecodeInto(v, rest, m)
  {
    hide ReadField;
    assert Apply(m, SkippedField) == m;
  }
}
