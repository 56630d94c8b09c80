/**
  The three generated message codecs. A message object is open: it may carry properties its
  version does not encode, so one datatype serves all versions and the codec selects fields.
  An absent own property is `None`; strings are their UTF-8 bytes.
 */
module Codec {
  import opened Options
  import opened Wire

  datatype Version = V1 | V2 | V3

  datatype Message = Message(
    msgType: Option<int32>,
    streamId: Option<int32>,
    ignorable: Option<bool>,
    payload: Option<seq<byte>>,
    serviceId: Option<seq<byte>>,
    availableServiceIds: seq<seq<byte>>,
    connectionId: Option<uint32>)

  const EMPTY := Message(None, None, None, None, None, [], None)

  /** One decoded record: which property it sets, or a record skipped by wire type. */
  datatype Field =
    | TypeField(t: int32)
    | StreamField(id: int32)
    | IgnorableField(b: bool)
    | PayloadField(bytes: seq<byte>)
    | ServiceField(service: seq<byte>)
    | AvailableField(available: seq<byte>)
    | ConnectionField(connection: uint32)
    | SkippedField

  // Byte strings the version writes are shorter than 2^32, the most a length prefix can say.
  ghost predicate Encodable(v: Version, m: Message) {
    && (m.payload.Some? ==> |m.payload.value| < TWO_32)
    && (HasServices(v) && m.serviceId.Some? ==> |m.serviceId.value| < TWO_32)
    && (HasServices(v) ==>
          forall i :: 0 <= i < |m.availableServiceIds| ==> |m.availableServiceIds[i]| < TWO_32)
  }

  predicate HasServices(v: Version) { v != V1 }
  predicate HasConnections(v: Version) { v == V3 }

  // ---- Encoding ----

  function EncodeField(f: Field): seq<byte> {
    match f
    case TypeField(t) => [8] + Int32(t)
    case StreamField(id) => [16] + Int32(id)
    case IgnorableField(b) => [24] + Bool(b)
    case PayloadField(bytes) => [34] + LengthDelimited(bytes)
    case ServiceField(service) => [42] + LengthDelimited(service)
    case AvailableField(available) => [50] + LengthDelimited(available)
    case ConnectionField(connection) => [56] + Varint(connection)
    case SkippedField => []
  }

  function EncodeFields(fs: seq<Field>): seq<byte> {
    if fs == [] then [] else EncodeField(fs[0]) + EncodeFields(fs[1..])
  }

  function Available(ids: seq<seq<byte>>): (fs: seq<Field>) {
    if ids == [] then [] else Available(ids[..|ids| - 1]) + [AvailableField(ids[|ids| - 1])]
  }

  function Optional(present: bool, f: Field): seq<Field> {
    if present then [f] else []
  }

  function CommonFields(m: Message): seq<Field> {
    Optional(m.msgType.Some?, TypeField(m.msgType.GetOr(0)))
    + Optional(m.streamId.Some?, StreamField(m.streamId.GetOr(0)))
    + Optional(m.ignorable.Some?, IgnorableField(m.ignorable.GetOr(false)))
    + Optional(m.payload.Some?, PayloadField(m.payload.GetOr([])))
  }

  function ServiceFields(m: Message): seq<Field> {
    Optional(m.serviceId.Some?, ServiceField(m.serviceId.GetOr([])))
    + Available(m.availableServiceIds)
  }

  function ConnectionFields(m: Message): seq<Field> {
    Optional(m.connectionId.Some?, ConnectionField(m.connectionId.GetOr(0)))
  }

  /** The records the version's encoder writes, in order. */
  function Fields(v: Version, m: Message): seq<Field> {
    CommonFields(m)
    + (if HasServices(v) then ServiceFields(m) else [])
    + (if HasConnections(v) then ConnectionFields(m) else [])
  }

  function Encode(v: Version, m: Message): seq<byte> {
    EncodeFields(Fields(v, m))
  }

  lemma {:induction false} EncodeFieldsConcat(a: seq<Field>, b: seq<Field>)
    ensures EncodeFields(a + b) == EncodeFields(a) + EncodeFields(b)
  {
    if a == [] {
      assert a + b == b;
    } else {
      assert (a + b)[1..] == a[1..] + b;
      EncodeFieldsConcat(a[1..], b);
    }
  }

  lemma EncodeAppend(fs: seq<Field>, f: Field)
    ensures EncodeFields(fs + [f]) == EncodeFields(fs) + EncodeField(f)
  {
    EncodeFieldsConcat(fs, [f]);
    assert EncodeFields([f]) == EncodeField(f) + EncodeFields([f][1..]);
  }

  lemma EncodeOptional(fs: seq<Field>, present: bool, f: Field)
    ensures EncodeFields(fs + Optional(present, f)) ==
            EncodeFields(fs) + if present then EncodeField(f) else []
  {
    if present {
      EncodeAppend(fs, f);
    } else {
      assert fs + [] == fs;
    }
  }

  /** The encoder as it runs: own properties in order, one record per service id. */
  method EncodeMessage(v: Version, m: Message) returns (writer: seq<byte>)
    ensures writer == Encode(v, m)
  {
    hide EncodeFields, CommonFields, ServiceFields, Varint;
    writer := EncodeCommon(m);
    ghost var fs := CommonFields(m);
    if HasServices(v) {
      var services := EncodeServices(m);
      EncodeFieldsConcat(fs, ServiceFields(m));
      writer := writer + services;
    }
    fs := fs + if HasServices(v) then ServiceFields(m) else [];
    assert writer == EncodeFields(fs) by { assert CommonFields(m) + [] == CommonFields(m); }
    if HasConnections(v) {
      EncodeOptional(fs, m.connectionId.Some?, ConnectionField(m.connectionId.GetOr(0)));
      if m.connectionId.Some? {
        writer := writer + ([56] + Varint(m.connectionId.value));
      }
    } else {
      assert fs + [] == fs;
    }
  }

  method EncodeCommon(m: Message) returns (writer: seq<byte>)
    ensures writer == EncodeFields(CommonFields(m))
  {
    hide Int32, LengthDelimited;
    assert EncodeFields([]) == [];
    hide EncodeFields;
    writer := [];
    if m.msgType.Some? {
      writer := writer + ([8] + Int32(m.msgType.value));
    }
    ghost var fs := Optional(m.msgType.Some?, TypeField(m.msgType.GetOr(0)));
    assert writer == EncodeFields(fs) by {
      EncodeOptional([], m.msgType.Some?, TypeField(m.msgType.GetOr(0)));
    }

    EncodeOptional(fs, m.streamId.Some?, StreamField(m.streamId.GetOr(0)));
    fs := fs + Optional(m.streamId.Some?, StreamField(m.streamId.GetOr(0)));
    if m.streamId.Some? {
      writer := writer + ([16] + Int32(m.streamId.value));
    }
    assert writer == EncodeFields(fs);

    EncodeOptional(fs, m.ignorable.Some?, IgnorableField(m.ignorable.GetOr(false)));
    fs := fs + Optional(m.ignorable.Some?, IgnorableField(m.ignorable.GetOr(false)));
    if m.ignorable.Some? {
      writer := writer + ([24] + Bool(m.ignorable.value));
    }
    assert writer == EncodeFields(fs);

    EncodeOptional(fs, m.payload.Some?, PayloadField(m.payload.GetOr([])));
    if m.payload.Some? {
      writer := writer + ([34] + LengthDelimited(m.payload.value));
    }
  }

  method EncodeServices(m: Message) returns (writer: seq<byte>)
    ensures writer == EncodeFields(ServiceFields(m))
  {
    writer := [];
    if m.serviceId.Some? {
      writer := writer + ([42] + LengthDelimited(m.serviceId.value));
    }
    ghost var first := Optional(m.serviceId.Some?, ServiceField(m.serviceId.GetOr([])));
    assert writer == EncodeFields(first) by {
      EncodeOptional([], m.serviceId.Some?, ServiceField(m.serviceId.GetOr([])));
    }
    var ids := m.availableServiceIds;
    assert first + Available(ids[..0]) == first;
    for i := 0 to |ids|
      invariant writer == EncodeFields(first + Available(ids[..i]))
    {
      AvailableStep(first, ids, i);
      writer := writer + ([50] + LengthDelimited(ids[i]));
    }
    assert ids[..|ids|] == ids;
  }

  lemma AvailableStep(first: seq<Field>, ids: seq<seq<byte>>, i: nat)
    requires i < |ids|
    ensures EncodeFields(first + Available(ids[..i + 1])) ==
            EncodeFields(first + Available(ids[..i])) + ([50] + LengthDelimited(ids[i]))
  {
    var before, f := Available(ids[..i]), AvailableField(ids[i]);
    EncodeAppend(first + before, f);
    assert ids[..i + 1][..i] == ids[..i];
    assert Available(ids[..i + 1]) == before + [f];
    assert first + (before + [f]) == first + before + [f];
  }

  // ---- Decoding ----

  /**
    Reads a tag and its value. A known field number is read with its own type whatever the
    tag's wire type says; any other number is skipped by wire type.
   */
  function ReadField(v: Version, s: seq<byte>): (r: Read<Field>)
    ensures r.Got? ==> |r.rest| < |s| && IsSuffix(r.rest, s)
  {
    match ReadUint32(s)
    case Fail => Fail
    case Got(tag, rest) =>
      var r := ReadFieldValue(v, tag, rest);
      if r.Got? then SuffixOfSuffix(r.rest, rest, s); r else r
  }

  function ReadFieldValue(v: Version, tag: uint32, s: seq<byte>): (r: Read<Field>)
    ensures r.Got? ==> IsSuffix(r.rest, s)
  {
    var number := tag / 8;
    if number == 1 || number == 2 then ReadNumber(number, s)
    else if number == 3 then ReadFlag(s)
    else if number == 4 || (HasServices(v) && (number == 5 || number == 6)) then ReadText(number, s)
    else if number == 7 && HasConnections(v) then ReadConnection(s)
    else SkipUnknown(tag, s)
  }

  function ReadNumber(number: nat, s: seq<byte>): (r: Read<Field>)
    ensures r.Got? ==> IsSuffix(r.rest, s)
  {
    match ReadInt32(s)
    case Fail => Fail
    case Got(x, rest) => Got(if number == 1 then TypeField(x) else StreamField(x), rest)
  }

  function ReadFlag(s: seq<byte>): (r: Read<Field>)
    ensures r.Got? ==> IsSuffix(r.rest, s)
  {
    match ReadBool(s)
    case Fail => Fail
    case Got(b, rest) => Got(IgnorableField(b), rest)
  }

  function ReadText(number: nat, s: seq<byte>): (r: Read<Field>)
    ensures r.Got? ==> IsSuffix(r.rest, s)
  {
    match ReadBytes(s)
    case Fail => Fail
    case Got(b, rest) =>
      Got(if number == 4 then PayloadField(b) else if number == 5 then ServiceField(b) else AvailableField(b), rest)
  }

  function ReadConnection(s: seq<byte>): (r: Read<Field>)
    ensures r.Got? ==> IsSuffix(r.rest, s)
  {
    match ReadUint32(s)
    case Fail => Fail
    case Got(c, rest) => Got(ConnectionField(c), rest)
  }

  function SkipUnknown(tag: uint32, s: seq<byte>): (r: Read<Field>)
    ensures r.Got? ==> IsSuffix(r.rest, s)
  {
    match SkipType(s, tag % 8)
    case Fail => Fail
    case Got(_, rest) => Got(SkippedField, rest)
  }

  function Apply(m: Message, f: Field): Message {
    match f
    case TypeField(t) => m.(msgType := Some(t))
    case StreamField(id) => m.(streamId := Some(id))
    case IgnorableField(b) => m.(ignorable := Some(b))
    case PayloadField(bytes) => m.(payload := Some(bytes))
    case ServiceField(service) => m.(serviceId := Some(service))
    case AvailableField(available) => m.(availableServiceIds := m.availableServiceIds + [available])
    case ConnectionField(connection) => m.(connectionId := Some(connection))
    case SkippedField => m
  }

  function DecodeInto(v: Version, s: seq<byte>, m: Message): Option<Message>
    decreases |s|
  {
    if s == [] then Some(m)
    else match ReadField(v, s)
         case Fail => None
         case Got(f, rest) => DecodeInto(v, rest, Apply(m, f))
  }

  function Decode(v: Version, s: seq<byte>): Option<Message> {
    DecodeInto(v, s, EMPTY)
  }

  /** The decoder's switch: assigns the property, or pushes to the list of service ids. */
  method Assign(m: Message, f: Field) returns (m': Message)
    ensures m' == Apply(m, f)
  {
    m' := m;
    match f {
      case TypeField(t) => m' := m'.(msgType := Some(t));
      case StreamField(id) => m' := m'.(streamId := Some(id));
      case IgnorableField(b) => m' := m'.(ignorable := Some(b));
      case PayloadField(bytes) => m' := m'.(payload := Some(bytes));
      case ServiceField(service) => m' := m'.(serviceId := Some(service));
      case AvailableField(available) =>
        m' := m'.(availableServiceIds := m'.availableServiceIds + [available]);
      case ConnectionField(connection) => m' := m'.(connectionId := Some(connection));
      case SkippedField =>
    }
  }

  /** The decoder as it runs; the reader is its unread bytes. */
  method DecodeMessage(v: Version, buf: seq<byte>) returns (message: Option<Message>)
    ensures message == Decode(v, buf)
  {
    var unread, m := buf, EMPTY;
    while unread != []
      invariant DecodeInto(v, unread, m) == Decode(v, buf)
      decreases |unread|
    {
      var r := ReadField(v, unread);
      if r.Fail? { return None; }
      m := Assign(m, r.value);
      unread := r.rest;
    }
    message := Some(m);
  }
}
