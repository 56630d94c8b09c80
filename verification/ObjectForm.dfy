/** Messages as plain objects: `toObject` with its conversion options, and `fromObject`. */
module ObjectForm {
  import opened Options
  import opened Wire
  import opened Codec
  import opened CodecLaws
  import opened Base64

  /** What a property of a plain object may hold. */
  datatype PlainType = Name(name: string) | Numeric(n: int32)
  datatype PlainBytes = Base64Text(text: string) | Raw(bytes: seq<byte>)

  datatype PlainObject = PlainObject(
    msgType: Option<PlainType>,
    streamId: Option<int>,
    ignorable: Option<bool>,
    payload: Option<PlainBytes>,
    serviceId: Option<seq<byte>>,
    availableServiceIds: Option<seq<seq<byte>>>,
    connectionId: Option<int>)

  datatype ConversionOptions = ConversionOptions(
    enumNames: bool, bytesAsText: bool, defaults: bool, arrays: bool)

  const NO_PROPERTIES := PlainObject(None, None, None, None, None, None, None)

  const NAMES_V1 := ["UNKNOWN", "DATA", "STREAM_START", "STREAM_END"]
  const NAMES_V2 := ["UNKNOWN", "DATA", "STREAM_START", "STREAM_RESET", "SESSION_RESET", "SERVICE_IDS"]
  const NAMES_V3 := NAMES_V2 + ["CONNECTION_START", "CONNECTION_RESET"]

  function Names(v: Version): seq<string> {
    match v case V1 => NAMES_V1 case V2 => NAMES_V2 case V3 => NAMES_V3
  }

  /** The enum's name for `t`, or `t` itself when it has none. */
  function TypeToPlain(v: Version, names: bool, t: int32): PlainType {
    if names && 0 <= t < |Names(v)| then Name(Names(v)[t]) else Numeric(t)
  }

  function IndexOf(names: seq<string>, name: string): (r: Option<nat>)
    ensures r.Some? ==> r.value < |names| && names[r.value] == name
    ensures r.None? ==> name !in names
  {
    if names == [] then None
    else if names[|names| - 1] == name then Some(|names| - 1)
    else IndexOf(names[..|names| - 1], name)
  }

  /** A number is taken as it is, a known name by its number; any other name is ignored. */
  function TypeFromPlain(v: Version, p: PlainType): Option<int32> {
    match p
    case Numeric(n) => Some(n)
    case Name(name) =>
      match IndexOf(Names(v), name)
      case None => None
      case Some(i) => if i < 8 then Some(i) else None
  }

  function BytesToPlain(asText: bool, b: seq<byte>): PlainBytes {
    if asText then Base64Text(Base64.Encode(b)) else Raw(b)
  }

  function BytesFromPlain(p: PlainBytes): Option<seq<byte>> {
    match p
    case Base64Text(text) => Base64.Decode(text)
    case Raw(b) => Some(b)
  }

  /** `x | 0` and `x >>> 0`. */
  function ToInt32(x: int): int32 { Signed(x % TWO_32) }
  function ToUint32(x: int): uint32 { x % TWO_32 }

  // ---- toObject ----

  /** The object before the message's own properties are copied in. */
  method StartObject(v: Version, options: ConversionOptions) returns (o: PlainObject)
    ensures o == AsObject(v, EMPTY, options)
  {
    o := NO_PROPERTIES;
    if HasServices(v) && (options.arrays || options.defaults) {
      o := o.(availableServiceIds := Some([]));
    }
    if options.defaults {
      o := o.(msgType := Some(if options.enumNames then Name("UNKNOWN") else Numeric(0)));
      o := o.(streamId := Some(0));
      o := o.(ignorable := Some(false));
      o := o.(payload := Some(if options.bytesAsText then Base64Text("") else Raw([])));
      if HasServices(v) {
        o := o.(serviceId := Some([]));
      }
      if HasConnections(v) {
        o := o.(connectionId := Some(0));
      }
    }
  }

  method ToObject(v: Version, m: Message, options: ConversionOptions) returns (o: PlainObject)
    ensures o == AsObject(v, m, options)
  {
    hide TypeToPlain, BytesToPlain;
    o := StartObject(v, options);
    if m.msgType.Some? {
      o := o.(msgType := Some(TypeToPlain(v, options.enumNames, m.msgType.value)));
    }
    if m.streamId.Some? {
      o := o.(streamId := Some(m.streamId.value));
    }
    if m.ignorable.Some? {
      o := o.(ignorable := m.ignorable);
    }
    if m.payload.Some? {
      o := o.(payload := Some(BytesToPlain(options.bytesAsText, m.payload.value)));
    }
    if HasServices(v) {
      if m.serviceId.Some? {
        o := o.(serviceId := m.serviceId);
      }
      if |m.availableServiceIds| > 0 {
        var ids := CopyList(m.availableServiceIds);
        o := o.(availableServiceIds := Some(ids));
      }
    }
    if HasConnections(v) && m.connectionId.Some? {
      o := o.(connectionId := Some(m.connectionId.value));
    }
  }

  method CopyList(ids: seq<seq<byte>>) returns (copy: seq<seq<byte>>)
    ensures copy == ids
  {
    copy := [];
    for j := 0 to |ids|
      invariant copy == ids[..j]
    {
      copy := copy + [ids[j]];
    }
  }

  /** Property by property: the message's own value, else the default when asked for. */
  function AsObject(v: Version, m: Message, options: ConversionOptions): PlainObject {
    PlainObject(
      if m.msgType.Some? then Some(TypeToPlain(v, options.enumNames, m.msgType.value))
      else if options.defaults then Some(if options.enumNames then Name("UNKNOWN") else Numeric(0)) else None,
      if m.streamId.Some? then Some(m.streamId.value) else if options.defaults then Some(0) else None,
      if m.ignorable.Some? then m.ignorable else if options.defaults then Some(false) else None,
      if m.payload.Some? then Some(BytesToPlain(options.bytesAsText, m.payload.value))
      else if options.defaults then Some(if options.bytesAsText then Base64Text("") else Raw([])) else None,
      if !HasServices(v) then None
      else if m.serviceId.Some? then m.serviceId else if options.defaults then Some([]) else None,
      if !HasServices(v) then None
      else if m.availableServiceIds != [] then Some(m.availableServiceIds)
      else if options.arrays || options.defaults then Some([]) else None,
      if !HasConnections(v) then None
      else if m.connectionId.Some? then Some(m.connectionId.value)
      else if options.defaults then Some(0) else None)
  }

  // ---- fromObject ----

  /** The message an object stands for; base64 text that does not decode is an error. */
  function OfObject(v: Version, o: PlainObject): Option<Message> {
    var payload := if o.payload.None? then Some([]) else BytesFromPlain(o.payload.value);
    if payload.None? then None
    else Some(Message(
      if o.msgType.Some? then TypeFromPlain(v, o.msgType.value) else None,
      if o.streamId.Some? then Some(ToInt32(o.streamId.value)) else None,
      o.ignorable,
      if o.payload.Some? then payload else None,
      if HasServices(v) then o.serviceId else None,
      if HasServices(v) then o.availableServiceIds.GetOr([]) else [],
      if HasConnections(v) && o.connectionId.Some? then Some(ToUint32(o.connectionId.value)) else None))
  }

  /** What `fromObject` is given: a message is returned as it is. */
  datatype Given = Instance(message: Message) | Plain(plain: PlainObject)

  method FromObject(v: Version, given: Given) returns (message: Option<Message>)
    ensures message == match given case Instance(m) => Some(m) case Plain(o) => OfObject(v, o)
  {
    if given.Instance? {
      return Some(given.message);
    }
    var o, m := given.plain, EMPTY;
    if o.msgType.Some? {
      m := m.(msgType := TypeFromPlain(v, o.msgType.value));
    }
    if o.streamId.Some? {
      m := m.(streamId := Some(ToInt32(o.streamId.value)));
    }
    if o.ignorable.Some? {
      m := m.(ignorable := o.ignorable);
    }
    if o.payload.Some? {
      var payload := BytesFromPlain(o.payload.value);
      if payload.None? { return None; }
      m := m.(payload := payload);
    }
    if HasServices(v) {
      if o.serviceId.Some? {
        m := m.(serviceId := o.serviceId);
      }
      if o.availableServiceIds.Some? {
        var ids := CopyList(o.availableServiceIds.value);
        m := m.(availableServiceIds := ids);
      }
    }
    if HasConnections(v) && o.connectionId.Some? {
      m := m.(connectionId := Some(ToUint32(o.connectionId.value)));
    }
    message := Some(m);
  }

  // ---- The form itself ----

  /** The names in the .proto files; V1 knows four types, V2 six and V3 eight. */
  lemma EnumNames(v: Version, t: int32)
    ensures TypeToPlain(v, false, t) == Numeric(t)
    ensures TypeToPlain(v, true, 0) == Name("UNKNOWN")
    ensures TypeToPlain(v, true, 1) == Name("DATA")
    ensures TypeToPlain(v, true, 2) == Name("STREAM_START")
    ensures TypeToPlain(v, true, 3) == Name(if v == V1 then "STREAM_END" else "STREAM_RESET")
    ensures TypeToPlain(v, true, 4) == if v == V1 then Numeric(4) else Name("SESSION_RESET")
    ensures TypeToPlain(v, true, 5) == if v == V1 then Numeric(5) else Name("SERVICE_IDS")
    ensures TypeToPlain(v, true, 6) == if v == V3 then Name("CONNECTION_START") else Numeric(6)
    ensures TypeToPlain(v, true, 7) == if v == V3 then Name("CONNECTION_RESET") else Numeric(7)
    ensures t < 0 || t > 7 ==> TypeToPlain(v, true, t) == Numeric(t)
  {
  }

  /**
    Which properties the object has and in which form. A property of the version is there when the
    message has it or defaults were asked for, the list also when empty lists were; the payload is
    base64 text or the bytes, as asked for.
   */
  lemma ObjectShape(v: Version, m: Message, options: ConversionOptions)
    ensures var o := AsObject(v, m, options);
            && (o.msgType.Some? <==> m.msgType.Some? || options.defaults)
            && (o.streamId.Some? <==> m.streamId.Some? || options.defaults)
            && (o.ignorable.Some? <==> m.ignorable.Some? || options.defaults)
            && (o.payload.Some? <==> m.payload.Some? || options.defaults)
            && (o.serviceId.Some? <==> v != V1 && (m.serviceId.Some? || options.defaults))
            && (o.availableServiceIds.Some? <==>
                  v != V1 && (m.availableServiceIds != [] || options.arrays || options.defaults))
            && (o.connectionId.Some? <==> v == V3 && (m.connectionId.Some? || options.defaults))
            && (o.payload.Some? ==>
                  var b := if m.payload.Some? then m.payload.value else [];
                  if options.bytesAsText
                  then o.payload.value.Base64Text? && Base64.Decode(o.payload.value.text) == Some(b)
                       && o.payload.value.text == Base64.Encode(b)
                  else o.payload.value == Raw(b))
            && (o.msgType.Some? ==>
                  o.msgType.value == TypeToPlain(v, options.enumNames, if m.msgType.Some? then m.msgType.value else 0))
  {
    DefaultForms(v, options);
    Base64RoundTrip(if m.payload.Some? then m.payload.value else []);
    hide Base64.Encode, Base64.Decode, TypeToPlain;
  }

  /** Numbers are taken modulo 2^32, the stream id as signed and the connection id as unsigned. */
  lemma NumbersWrap(x: int)
    ensures -2147483648 <= ToInt32(x) < 2147483648 && (x - ToInt32(x)) % 4294967296 == 0
    ensures 0 <= ToUint32(x) < 4294967296 && (x - ToUint32(x)) % 4294967296 == 0
  {
    var q, r: int := x / 4294967296, x % 4294967296;
    assert x == 4294967296 * q + r;
    assert x - (r - 4294967296) == 4294967296 * (q + 1);
  }

  /** A name the version does not know leaves the type absent. */
  lemma UnknownNames(v: Version, name: string, i: nat)
    ensures name !in Names(v) ==> TypeFromPlain(v, Name(name)).None?
    ensures i < |Names(v)| && name == Names(v)[i] ==> TypeFromPlain(v, Name(name)) == Some(i)
  {
    if i < |Names(v)| && name == Names(v)[i] {
      var r := IndexOf(Names(v), name);
      if r.Some? && r.value < i { NamesAreDistinct(v, r.value, i); }
      if r.Some? && r.value > i { NamesAreDistinct(v, i, r.value); }
    }
  }

  // ---- Round trip ----

  lemma NamesAreDistinct(v: Version, i: nat, j: nat)
    requires i < j < |Names(v)|
    ensures Names(v)[i] != Names(v)[j]
  {
  }

  /** An enum name or number read back is the same type, known to the version or not. */
  lemma TypeRoundTrip(v: Version, names: bool, t: int32)
    ensures TypeFromPlain(v, TypeToPlain(v, names, t)) == Some(t)
  {
    if names && 0 <= t < |Names(v)| {
      var i := IndexOf(Names(v), Names(v)[t]);
      if i.Some? && i.value < t { NamesAreDistinct(v, i.value, t); }
      if i.Some? && i.value > t { NamesAreDistinct(v, t, i.value); }
    }
  }

  lemma BytesFormRoundTrip(asText: bool, b: seq<byte>)
    ensures BytesFromPlain(BytesToPlain(asText, b)) == Some(b)
  {
    Base64RoundTrip(b);
  }

  /** `m` with every property its version knows present. */
  function FillDefaults(v: Version, m: Message): Message {
    Project(v, Message(
      Some(m.msgType.GetOr(0)), Some(m.streamId.GetOr(0)), Some(m.ignorable.GetOr(false)),
      Some(m.payload.GetOr([])), Some(m.serviceId.GetOr([])), m.availableServiceIds,
      Some(m.connectionId.GetOr(0))))
  }

  /**
    For every choice of options, `fromObject` of `toObject` gives the message back, presence
    included, unless defaults were asked for: then every property comes back present.
   */
  lemma ObjectRoundTrip(v: Version, m: Message, options: ConversionOptions)
    ensures OfObject(v, AsObject(v, m, options)) ==
            Some(if options.defaults then FillDefaults(v, m) else Project(v, m))
  {
    hide TypeFromPlain, TypeToPlain, BytesFromPlain, BytesToPlain;
    TypeRoundTrip(v, options.enumNames, m.msgType.GetOr(0));
    BytesFormRoundTrip(options.bytesAsText, m.payload.GetOr([]));
    DefaultForms(v, options);
  }

  lemma DefaultForms(v: Version, options: ConversionOptions)
    ensures TypeToPlain(v, options.enumNames, 0) == if options.enumNames then Name("UNKNOWN") else Numeric(0)
    ensures BytesToPlain(options.bytesAsText, []) == if options.bytesAsText then Base64Text("") else Raw([])
  {
  }

  /** Every property the version knows is present; an absent list is an empty one. */
  predicate AllPresent(v: Version, m: Message) {
    && m.msgType.Some? && m.streamId.Some? && m.ignorable.Some? && m.payload.Some?
    && (HasServices(v) ==> m.serviceId.Some?)
    && (HasConnections(v) ==> m.connectionId.Some?)
  }

  /**
    So all the version knows of the message comes back, absence included, exactly when defaults were
    not asked for or no property was absent.
   */
  lemma ObjectRoundTripExact(v: Version, m: Message, options: ConversionOptions)
    ensures OfObject(v, AsObject(v, m, options)) == Some(Project(v, m)) <==>
            !options.defaults || AllPresent(v, m)
  {
    ObjectRoundTrip(v, m, options);
  }

  /** With defaults, a message without any property comes back with all of them. */
  lemma AbsenceIsLost(v: Version, options: ConversionOptions)
    requires options.defaults
    ensures OfObject(v, AsObject(v, EMPTY, options)) ==
            Some(Message(Some(0), Some(0), Some(false), Some([]),
                         if HasServices(v) then Some([]) else None, [],
                         if HasConnections(v) then Some(0) else None))
  {
    ObjectRoundTrip(v, EMPTY, options);
  }
}
