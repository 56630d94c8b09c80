/**
  What the codecs promise together: every version reads every version's encoding as its
  projection, and decoding a concatenation merges.
 */
module CodecLaws {
  import opened Options
  import opened Wire
  import opened Codec

  function Rank(v: Version): nat {
    match v case V1 => 1 case V2 => 2 case V3 => 3
  }

  function Older(v: Version, w: Version): Version {
    if Rank(v) <= Rank(w) then v else w
  }

  /** The properties of `m` that version `v` knows. */
  function Project(v: Version, m: Message): Message {
    var m := if HasServices(v) then m else m.(serviceId := None, availableServiceIds := []);
    if HasConnections(v) then m else m.(connectionId := None)
  }

  predicate Visible(v: Version, f: Field) {
    match f
    case ServiceField(_) => HasServices(v)
    case AvailableField(_) => HasServices(v)
    case ConnectionField(_) => HasConnections(v)
    case _ => true
  }

  /** What a reader of version `v` makes of one record. */
  function Seen(v: Version, m: Message, f: Field): Message {
    if Visible(v, f) then Apply(m, f) else m
  }

  function SeenAll(v: Version, m: Message, fs: seq<Field>): Message
    decreases |fs|
  {
    if fs == [] then m else SeenAll(v, Seen(v, m, fs[0]), fs[1..])
  }

  ghost predicate Short(f: Field) {
    match f
    case PayloadField(b) => |b| < TWO_32
    case ServiceField(b) => |b| < TWO_32
    case AvailableField(b) => |b| < TWO_32
    case SkippedField => false
    case _ => true
  }

  ghost predicate AllShort(fs: seq<Field>) {
    forall i :: 0 <= i < |fs| ==> Short(fs[i])
  }

  // ---- One record ----

  // The field numbers of the .proto files, and the wire types of the encoding specification.
  function FieldNumber(f: Field): nat
    requires !f.SkippedField?
  {
    match f
    case TypeField(_) => 1
    case StreamField(_) => 2
    case IgnorableField(_) => 3
    case PayloadField(_) => 4
    case ServiceField(_) => 5
    case AvailableField(_) => 6
    case ConnectionField(_) => 7
  }

  const VARINT_TYPE: nat := 0
  const LEN_TYPE: nat := 2

  function WireType(f: Field): nat {
    if f.PayloadField? || f.ServiceField? || f.AvailableField? then LEN_TYPE else VARINT_TYPE
  }

  /** The tag byte each record starts with is the one the message definition prescribes. */
  lemma TagLayout(f: Field)
    requires !f.SkippedField?
    ensures EncodeField(f) != [] && EncodeField(f)[0] == 8 * FieldNumber(f) + WireType(f)
  {
    match f
    case TypeField(t) =>
    case StreamField(id) =>
    case IgnorableField(b) =>
    case PayloadField(bytes) =>
    case ServiceField(service) =>
    case AvailableField(available) =>
    case ConnectionField(connection) =>
  }

  lemma TagRead(tag: byte, tail: seq<byte>)
    requires tag < 128
    ensures ReadUint32([tag] + tail) == Got(tag, tail)
  {
    assert ([tag] + tail)[1..] == tail;
  }

  /** A visible record is read back as itself; a newer one is skipped by its wire type. */
  lemma FieldRoundTrip(v: Version, f: Field, tail: seq<byte>)
    requires Short(f)
    ensures ReadField(v, EncodeField(f) + tail) == Got(if Visible(v, f) then f else SkippedField, tail)
  {
    match f {
      case TypeField(t) => Tagged(v, 8, Int32(t), tail); Int32RoundTrip(t, tail);
      case StreamField(id) => Tagged(v, 16, Int32(id), tail); Int32RoundTrip(id, tail);
      case IgnorableField(b) => Tagged(v, 24, Bool(b), tail); BoolRoundTrip(b, tail);
      case PayloadField(bytes) => TextRoundTrip(v, 34, bytes, tail);
      case ServiceField(service) => TextRoundTrip(v, 42, service, tail);
      case AvailableField(available) => TextRoundTrip(v, 50, available, tail);
      case ConnectionField(c) => ConnectionRoundTrip(v, c, tail);
    }
  }

  lemma TextRoundTrip(v: Version, tag: byte, b: seq<byte>, tail: seq<byte>)
    requires tag in {34, 42, 50} && |b| < TWO_32
    ensures ReadField(v, [tag] + LengthDelimited(b) + tail) ==
            if tag == 34 then Got(PayloadField(b), tail)
            else if !HasServices(v) then Got(SkippedField, tail)
            else if tag == 42 then Got(ServiceField(b), tail) else Got(AvailableField(b), tail)
  {
    hide ReadBytes, ReadField, LengthDelimited;
    Tagged(v, tag, LengthDelimited(b), tail);
    BytesRoundTrip(b, tail);
  }

  lemma ConnectionRoundTrip(v: Version, c: uint32, tail: seq<byte>)
    ensures ReadField(v, [56] + Varint(c) + tail) ==
            Got(if HasConnections(v) then ConnectionField(c) else SkippedField, tail)
  {
    Tagged(v, 56, Varint(c), tail);
    Uint32RoundTrip(c, tail);
    Pow128Values();
    VarintRoundTrip(c, tail, MAX_VARINT);
  }

  lemma Tagged(v: Version, tag: byte, value: seq<byte>, tail: seq<byte>)
    requires tag < 128
    ensures ReadField(v, [tag] + value + tail) == ReadFieldValue(v, tag, value + tail)
  {
    assert [tag] + value + tail == [tag] + (value + tail);
    TagRead(tag, value + tail);
  }

  // ---- Whole messages ----

  lemma {:induction false} DecodeEncoded(v: Version, fs: seq<Field>, m: Message)
    requires AllShort(fs)
    ensures DecodeInto(v, EncodeFields(fs), m) == Some(SeenAll(v, m, fs))
    decreases |fs|
  {
    if fs != [] {
      var tail := EncodeFields(fs[1..]);
      FieldRoundTrip(v, fs[0], tail);
      EncodedNonempty(fs[0]);
      DecodeEncoded(v, fs[1..], Seen(v, m, fs[0]));
    }
  }

  lemma EncodedNonempty(f: Field)
    requires Short(f)
    ensures EncodeField(f) != []
  {
  }

  lemma {:induction false} SeenAllConcat(v: Version, m: Message, a: seq<Field>, b: seq<Field>)
    ensures SeenAll(v, m, a + b) == SeenAll(v, SeenAll(v, m, a), b)
    decreases |a|
  {
    if a == [] {
      assert a + b == b;
    } else {
      assert (a + b)[1..] == a[1..] + b;
      SeenAllConcat(v, Seen(v, m, a[0]), a[1..], b);
    }
  }

  lemma SeenOptional(v: Version, m: Message, present: bool, f: Field)
    ensures SeenAll(v, m, Optional(present, f)) == if present then Seen(v, m, f) else m
  {
    if present {
      assert SeenAll(v, Seen(v, m, f), [f][1..]) == Seen(v, m, f);
    }
  }

  lemma {:induction false} SeenAvailable(v: Version, m: Message, ids: seq<seq<byte>>)
    ensures SeenAll(v, m, Available(ids)) ==
            if HasServices(v) then m.(availableServiceIds := m.availableServiceIds + ids) else m
  {
    if ids != [] {
      var front, last := ids[..|ids| - 1], ids[|ids| - 1];
      SeenAvailable(v, m, front);
      SeenAllConcat(v, m, Available(front), [AvailableField(last)]);
      SeenOptional(v, SeenAll(v, m, Available(front)), true, AvailableField(last));
      assert m.availableServiceIds + front + [last] == m.availableServiceIds + ids;
    } else {
      assert m.availableServiceIds + ids == m.availableServiceIds;
    }
  }

  lemma SeenCommon(v: Version, m: Message)
    ensures SeenAll(v, EMPTY, CommonFields(m)) ==
            EMPTY.(msgType := m.msgType, streamId := m.streamId, ignorable := m.ignorable, payload := m.payload)
  {
    var a := Optional(m.msgType.Some?, TypeField(m.msgType.GetOr(0)));
    var b := Optional(m.streamId.Some?, StreamField(m.streamId.GetOr(0)));
    var c := Optional(m.ignorable.Some?, IgnorableField(m.ignorable.GetOr(false)));
    var d := Optional(m.payload.Some?, PayloadField(m.payload.GetOr([])));
    SeenAllConcat(v, EMPTY, a + b + c, d);
    SeenAllConcat(v, EMPTY, a + b, c);
    SeenAllConcat(v, EMPTY, a, b);
    var ma := EMPTY.(msgType := m.msgType);
    SeenOptional(v, EMPTY, m.msgType.Some?, TypeField(m.msgType.GetOr(0)));
    SeenOptional(v, ma, m.streamId.Some?, StreamField(m.streamId.GetOr(0)));
    var mb := ma.(streamId := m.streamId);
    SeenOptional(v, mb, m.ignorable.Some?, IgnorableField(m.ignorable.GetOr(false)));
    var mc := mb.(ignorable := m.ignorable);
    SeenOptional(v, mc, m.payload.Some?, PayloadField(m.payload.GetOr([])));
  }

  lemma SeenServices(v: Version, m: Message, start: Message)
    requires start.serviceId.None? && start.availableServiceIds == []
    ensures SeenAll(v, start, ServiceFields(m)) ==
            if HasServices(v)
            then start.(serviceId := m.serviceId, availableServiceIds := m.availableServiceIds)
            else start
  {
    var a := Optional(m.serviceId.Some?, ServiceField(m.serviceId.GetOr([])));
    SeenAllConcat(v, start, a, Available(m.availableServiceIds));
    SeenOptional(v, start, m.serviceId.Some?, ServiceField(m.serviceId.GetOr([])));
    var mid := if HasServices(v) then start.(serviceId := m.serviceId) else start;
    SeenAvailable(v, mid, m.availableServiceIds);
    assert [] + m.availableServiceIds == m.availableServiceIds;
  }

  /**
    Any version's decoder, given any version's encoding, returns exactly the properties both
    versions know: the round trip when they agree, the projection when the writer is newer,
    the embedding when it is older.
   */
  lemma CrossVersion(reader: Version, writer: Version, m: Message)
    requires Encodable(writer, m)
    ensures Decode(reader, Encode(writer, m)) == Some(Project(Older(reader, writer), m))
  {
    hide CommonFields, ServiceFields, EncodeFields, DecodeInto, Optional;
    FieldsShort(writer, m);
    DecodeEncoded(reader, Fields(writer, m), EMPTY);
    var services := if HasServices(writer) then ServiceFields(m) else [];
    var connections := if HasConnections(writer) then ConnectionFields(m) else [];
    SeenAllConcat(reader, EMPTY, CommonFields(m) + services, connections);
    SeenAllConcat(reader, EMPTY, CommonFields(m), services);
    SeenCommon(reader, m);
    var common := SeenAll(reader, EMPTY, CommonFields(m));
    SeenServices(reader, m, common);
    var mid := SeenAll(reader, common, services);
    SeenOptional(reader, mid, m.connectionId.Some?, ConnectionField(m.connectionId.GetOr(0)));
  }

  lemma {:induction false} AvailableShort(ids: seq<seq<byte>>)
    requires forall i :: 0 <= i < |ids| ==> |ids[i]| < TWO_32
    ensures AllShort(Available(ids))
  {
    if ids != [] { AvailableShort(ids[..|ids| - 1]); }
  }

  lemma FieldsShort(v: Version, m: Message)
    requires Encodable(v, m)
    ensures AllShort(Fields(v, m))
  {
    CommonShort(v, m);
    if HasServices(v) { ServicesShort(v, m); }
    hide CommonFields, ServiceFields;
  }

  lemma CommonShort(v: Version, m: Message)
    requires Encodable(v, m)
    ensures AllShort(CommonFields(m))
  {
  }

  lemma ServicesShort(v: Version, m: Message)
    requires Encodable(v, m) && HasServices(v)
    ensures AllShort(ServiceFields(m))
  {
    AvailableShort(m.availableServiceIds);
    hide Available;
  }

  lemma {:induction false} FieldWithin(fs: seq<Field>, i: nat)
    requires i < |fs|
    ensures |EncodeField(fs[i])| <= |EncodeFields(fs)|
  {
    hide EncodeField;
    if i > 0 { FieldWithin(fs[1..], i - 1); }
  }

  lemma {:induction false} AvailableAt(ids: seq<seq<byte>>, i: nat)
    requires i < |ids|
    ensures i < |Available(ids)| && Available(ids)[i] == AvailableField(ids[i])
    ensures |Available(ids)| == |ids|
  {
    var front := ids[..|ids| - 1];
    if i < |front| { AvailableAt(front, i); } else if front != [] { AvailableAt(front, 0); }
  }

  /** A message whose encoding is short has no byte string too long for its prefix. */
  lemma ShortEncoding(v: Version, m: Message)
    requires |Encode(v, m)| < TWO_32
    ensures Encodable(v, m)
  {
    hide EncodeFields, CommonFields;
    PayloadIncluded(v, m);
    if HasServices(v) { ServicesIncluded(v, m); }
  }

  lemma PayloadIncluded(v: Version, m: Message)
    ensures m.payload.Some? ==> |m.payload.value| < |Encode(v, m)|
  {
    if m.payload.Some? {
      var fs, i := Fields(v, m), |CommonFields(m)| - 1;
      assert fs[i] == PayloadField(m.payload.value);
      hide EncodeFields, Fields;
      FieldWithin(fs, i);
    }
  }

  lemma ServicesIncluded(v: Version, m: Message)
    requires HasServices(v)
    ensures m.serviceId.Some? ==> |m.serviceId.value| < |Encode(v, m)|
    ensures forall i :: 0 <= i < |m.availableServiceIds| ==> |m.availableServiceIds[i]| < |Encode(v, m)|
  {
    hide EncodeFields, CommonFields, Available;
    var fs, n := Fields(v, m), |CommonFields(m)|;
    if m.serviceId.Some? {
      assert fs[n] == ServiceField(m.serviceId.value);
      FieldWithin(fs, n);
    }
    var k := n + if m.serviceId.Some? then 1 else 0;
    forall i | 0 <= i < |m.availableServiceIds| ensures |m.availableServiceIds[i]| < |Encode(v, m)| {
      AvailableAt(m.availableServiceIds, i);
      assert fs[k + i] == AvailableField(m.availableServiceIds[i]);
      FieldWithin(fs, k + i);
    }
  }

  /** A message that only uses its version's properties survives, presence included. */
  lemma CodecRoundTrip(v: Version, m: Message)
    requires Encodable(v, m) && Project(v, m) == m
    ensures Decode(v, Encode(v, m)) == Some(m)
  {
    CrossVersion(v, v, m);
  }

  /** Encodings of different messages differ. */
  lemma EncodeInjective(v: Version, m: Message, n: Message)
    requires Encodable(v, m) && Encodable(v, n)
    ensures Encode(v, m) == Encode(v, n) <==> Project(v, m) == Project(v, n)
  {
    CrossVersion(v, v, m);
    CrossVersion(v, v, n);
    if Project(v, m) == Project(v, n) { EncodeProjected(v, m); EncodeProjected(v, n); }
  }

  lemma EncodeProjected(v: Version, m: Message)
    ensures Encode(v, Project(v, m)) == Encode(v, m)
  {
    var p := Project(v, m);
    assert CommonFields(p) == CommonFields(m);
  }

  // ---- Merging ----

  /** Last one wins for scalars; service ids are appended. */
  function Merge(m: Message, n: Message): Message {
    Message(
      if n.msgType.Some? then n.msgType else m.msgType,
      if n.streamId.Some? then n.streamId else m.streamId,
      if n.ignorable.Some? then n.ignorable else m.ignorable,
      if n.payload.Some? then n.payload else m.payload,
      if n.serviceId.Some? then n.serviceId else m.serviceId,
      m.availableServiceIds + n.availableServiceIds,
      if n.connectionId.Some? then n.connectionId else m.connectionId)
  }

  function MergeOnto(m: Message, n: Option<Message>): Option<Message> {
    match n
    case None => None
    case Some(x) => Some(Merge(m, x))
  }

  lemma FieldExtend(v: Version, s: seq<byte>, t: seq<byte>)
    requires ReadField(v, s).Got?
    ensures ReadField(v, s + t) == Got(ReadField(v, s).value, ReadField(v, s).rest + t)
  {
    VarintExtend(s, t, MAX_VARINT);
    FieldValueExtend(v, ReadUint32(s).value, ReadUint32(s).rest, t);
  }

  lemma FieldValueExtend(v: Version, tag: uint32, s: seq<byte>, t: seq<byte>)
    requires ReadFieldValue(v, tag, s).Got?
    ensures ReadFieldValue(v, tag, s + t) ==
            Got(ReadFieldValue(v, tag, s).value, ReadFieldValue(v, tag, s).rest + t)
  {
    var number := tag / 8;
    if 1 <= number <= 3 {
      VarintExtend(s, t, MAX_VARINT);
    } else if number == 4 || (HasServices(v) && (number == 5 || number == 6)) {
      BytesExtend(s, t);
    } else if number == 7 && HasConnections(v) {
      VarintExtend(s, t, MAX_VARINT);
    } else {
      SkipExtend(s, t, tag % 8);
    }
  }

  /** The decoder can stop at any record boundary and go on with the rest. */
  lemma {:induction false} DecodeConcat(v: Version, a: seq<byte>, b: seq<byte>, m: Message)
    requires DecodeInto(v, a, m).Some?
    ensures DecodeInto(v, a + b, m) == DecodeInto(v, b, DecodeInto(v, a, m).value)
    decreases |a|
  {
    if a == [] {
      assert a + b == b;
    } else {
      FieldExtend(v, a, b);
      var r := ReadField(v, a);
      DecodeConcat(v, r.rest, b, Apply(m, r.value));
    }
  }

  lemma {:induction false} DecodeOnto(v: Version, s: seq<byte>, m: Message, n: Message)
    ensures DecodeInto(v, s, Merge(m, n)) == MergeOnto(m, DecodeInto(v, s, n))
    decreases |s|
  {
    if s != [] {
      var r := ReadField(v, s);
      if r.Got? {
        ApplyMerged(m, n, r.value);
        DecodeOnto(v, r.rest, m, Apply(n, r.value));
      }
    }
  }

  lemma ApplyMerged(m: Message, n: Message, f: Field)
    ensures Apply(Merge(m, n), f) == Merge(m, Apply(n, f))
  {
    if f.AvailableField? {
      assert m.availableServiceIds + n.availableServiceIds + [f.available]
          == m.availableServiceIds + (n.availableServiceIds + [f.available]);
    }
  }

  /** Decoding is a homomorphism from concatenation to merge, on all decodable byte strings. */
  lemma DecodeMerges(v: Version, a: seq<byte>, b: seq<byte>)
    requires Decode(v, a).Some?
    ensures Decode(v, a + b) == MergeOnto(Decode(v, a).value, Decode(v, b))
  {
    DecodeConcat(v, a, b, EMPTY);
    var m := Decode(v, a).value;
    DecodeOnto(v, b, m, EMPTY);
    assert Merge(m, EMPTY) == m by { assert m.availableServiceIds + [] == m.availableServiceIds; }
  }
}
