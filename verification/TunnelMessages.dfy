/** The messages the tunnel transport builds, and the bound that keeps their frames intact. */
module TunnelMessages {
  import opened Options
  import opened Wire
  import opened Codec
  import opened Blocks
  import opened Framing

  datatype Mode = Source | Destination

  datatype Config = Config(mode: Mode, version: Version, serviceId: Option<seq<byte>>)

  const DATA: int32 := 1
  const STREAM_START: int32 := 2
  const STREAM_RESET: int32 := 3
  const SESSION_RESET: int32 := 4
  const SERVICE_IDS: int32 := 5

  const MAX_PAYLOAD: nat := 63 * 1024
  // The transport never changes its `connectionId` field.
  const CONNECTION_ID: uint32 := 1

  // An empty service id is falsy, and counts as none.
  predicate HasServiceId(c: Config) {
    c.serviceId.Some? && c.serviceId.value != []
  }

  function DataMessage(c: Config, streamId: int32, chunk: seq<byte>): Message {
    Message(Some(DATA), Some(streamId), None, Some(chunk),
            if HasServiceId(c) && c.version != V1 then c.serviceId else None, [],
            if c.version == V3 then Some(CONNECTION_ID) else None)
  }

  function StreamStart(c: Config, streamId: int32): Message {
    EMPTY.(msgType := Some(STREAM_START), streamId := Some(streamId), serviceId := c.serviceId)
  }

  function StreamReset(streamId: int32): Message {
    EMPTY.(msgType := Some(STREAM_RESET), streamId := Some(streamId))
  }

  function ServiceIds(serviceId: seq<byte>): Message {
    EMPTY.(msgType := Some(SERVICE_IDS), availableServiceIds := [serviceId])
  }

  /** The DATA messages one block of data is cut into. */
  function DataMessages(c: Config, streamId: int32, data: seq<byte>): seq<Message> {
    if data == [] then []
    else
      var k := if |data| < MAX_PAYLOAD then |data| else MAX_PAYLOAD;
      [DataMessage(c, streamId, data[..k])] + DataMessages(c, streamId, data[k..])
  }

  function QueueMessages(c: Config, streamId: int32, queue: seq<seq<byte>>): seq<Message> {
    if queue == [] then []
    else DataMessages(c, streamId, queue[0]) + QueueMessages(c, streamId, queue[1..])
  }

  function EncodeAll(v: Version, ms: seq<Message>): seq<seq<byte>> {
    if ms == [] then [] else EncodeAll(v, ms[..|ms| - 1]) + [Encode(v, ms[|ms| - 1])]
  }

  /** The bytes handed to the socket for a list of messages. */
  function WireOf(v: Version, ms: seq<Message>): seq<byte> {
    Framed(EncodeAll(v, ms))
  }

  lemma {:induction false} EncodeAllConcat(v: Version, a: seq<Message>, b: seq<Message>)
    ensures EncodeAll(v, a + b) == EncodeAll(v, a) + EncodeAll(v, b)
  {
    hide Encode;
    if b == [] {
      assert a + b == a;
    } else {
      var front, last := b[..|b| - 1], [Encode(v, b[|b| - 1])];
      EncodeAllConcat(v, a, front);
      assert (a + b)[..|a + b| - 1] == a + front;
      Associative(EncodeAll(v, a), EncodeAll(v, front), last);
    }
  }

  lemma WireConcat(v: Version, a: seq<Message>, b: seq<Message>)
    ensures WireOf(v, a + b) == WireOf(v, a) + WireOf(v, b)
  {
    EncodeAllConcat(v, a, b);
    FramedConcat(EncodeAll(v, a), EncodeAll(v, b));
  }

  lemma WireOne(v: Version, m: Message)
    ensures WireOf(v, [m]) == Frame(Encode(v, m))
  {
    assert EncodeAll(v, [m]) == [Encode(v, m)];
    FramedCons(Encode(v, m), []);
    assert [Encode(v, m)] + [] == [Encode(v, m)];
    assert Frame(Encode(v, m)) + Framed([]) == Frame(Encode(v, m));
  }

  // ---- Payloads ----

  predicate IsData(m: Message) {
    m.msgType == Some(DATA)
  }

  function Payload(m: Message): seq<byte> {
    if IsData(m) then m.payload.GetOr([]) else []
  }

  /** The user data a list of messages carries. */
  function Payloads(ms: seq<Message>): seq<byte> {
    if ms == [] then [] else Payloads(ms[..|ms| - 1]) + Payload(ms[|ms| - 1])
  }

  lemma {:induction false} PayloadsConcat(a: seq<Message>, b: seq<Message>)
    ensures Payloads(a + b) == Payloads(a) + Payloads(b)
  {
    hide Payload;
    if b == [] {
      assert a + b == a;
    } else {
      PayloadsConcat(a, b[..|b| - 1]);
      assert (a + b)[..|a + b| - 1] == a + b[..|b| - 1];
      Associative(Payloads(a), Payloads(b[..|b| - 1]), Payload(b[|b| - 1]));
    }
  }

  lemma PayloadsOne(m: Message)
    ensures Payloads([m]) == Payload(m)
  {
    assert Payloads([m]) == Payloads([]) + Payload(m) by { assert [m][..0] == []; }
  }

  lemma PayloadsPrefix(a: seq<Message>, b: seq<Message>)
    requires a <= b
    ensures Payloads(a) <= Payloads(b)
  {
    PayloadsConcat(a, b[|a|..]);
    assert a + b[|a|..] == b;
  }

  predicate IsCut(c: Config, streamId: int32, m: Message) {
    var chunk := m.payload.GetOr([]);
    0 < |chunk| <= MAX_PAYLOAD && m == DataMessage(c, streamId, chunk)
  }

  lemma PieceIsCut(c: Config, streamId: int32, chunk: seq<byte>)
    requires 0 < |chunk| <= MAX_PAYLOAD
    ensures IsCut(c, streamId, DataMessage(c, streamId, chunk))
    ensures Payload(DataMessage(c, streamId, chunk)) == chunk
  {
  }

  /** Cutting loses nothing, and every piece is DATA of at most 63 KiB. */
  lemma {:induction false} CutConserves(c: Config, streamId: int32, data: seq<byte>)
    ensures Payloads(DataMessages(c, streamId, data)) == data
    ensures forall m <- DataMessages(c, streamId, data) :: IsCut(c, streamId, m)
    decreases |data|
  {
    hide DataMessage, IsCut, Payload;
    if data != [] {
      var k := if |data| < MAX_PAYLOAD then |data| else MAX_PAYLOAD;
      var first, rest := DataMessage(c, streamId, data[..k]), DataMessages(c, streamId, data[k..]);
      PieceIsCut(c, streamId, data[..k]);
      CutConserves(c, streamId, data[k..]);
      PayloadsConcat([first], rest);
      PayloadsOne(first);
      assert data[..k] + data[k..] == data;
    }
  }

  lemma {:induction false} QueueConserves(c: Config, streamId: int32, queue: seq<seq<byte>>)
    ensures Payloads(QueueMessages(c, streamId, queue)) == Flatten(queue)
    ensures forall m <- QueueMessages(c, streamId, queue) :: IsCut(c, streamId, m)
    decreases |queue|
  {
    if queue != [] {
      CutConserves(c, streamId, queue[0]);
      QueueConserves(c, streamId, queue[1..]);
      PayloadsConcat(DataMessages(c, streamId, queue[0]), QueueMessages(c, streamId, queue[1..]));
      FlattenConcat([queue[0]], queue[1..]);
      FlattenOne(queue[0]);
      assert [queue[0]] + queue[1..] == queue;
    }
  }

  // ---- The frame length bound ----

  /** The stream ids a transport can hold: a source keeps its own, a destination takes any. */
  predicate MayHold(c: Config, streamId: int32) {
    c.mode == Source ==> streamId == 1
  }

  /** The stream id a transport can hold that takes most bytes. */
  function WidestId(c: Config): int32 {
    if c.mode == Source then 1 else -1
  }

  /** The longest service id whose DATA frames always fit their 16-bit length. */
  function ServiceIdLimit(c: Config): nat {
    (if c.mode == Source then 1012 else 1003) - (if c.version == V3 then 2 else 0)
  }

  predicate ServiceIdFits(c: Config) {
    HasServiceId(c) && c.version != V1 ==> |c.serviceId.value| <= ServiceIdLimit(c)
  }

  function ServiceCost(c: Config): nat {
    if HasServiceId(c) && c.version != V1 then 1 + |Varint(|c.serviceId.value|)| + |c.serviceId.value| else 0
  }

  lemma CommonSize(m: Message, t: int32, streamId: int32, chunk: seq<byte>)
    requires m.msgType == Some(t) && m.streamId == Some(streamId) && m.ignorable.None? && m.payload == Some(chunk)
    ensures |EncodeFields(CommonFields(m))| ==
            |Int32(t)| + |Int32(streamId)| + |Varint(|chunk|)| + |chunk| + 3
  {
    var a, b, d := TypeField(t), StreamField(streamId), PayloadField(chunk);
    assert CommonFields(m) == [] + [a] + [b] + [d];
    EncodeAppend([], a);
    EncodeAppend([] + [a], b);
    EncodeAppend([] + [a] + [b], d);
  }

  lemma DataSize(c: Config, streamId: int32, chunk: seq<byte>)
    ensures |Encode(c.version, DataMessage(c, streamId, chunk))| ==
            4 + |Int32(streamId)| + |Varint(|chunk|)| + |chunk| + ServiceCost(c)
            + (if c.version == V3 then 2 else 0)
  {
    var m := DataMessage(c, streamId, chunk);
    CommonSize(m, DATA, streamId, chunk);
    ServiceSize(c, m);
    var common := CommonFields(m);
    var services := if HasServices(c.version) then ServiceFields(m) else [];
    var connections := if HasConnections(c.version) then ConnectionFields(m) else [];
    EncodeFieldsConcat(common, services);
    EncodeFieldsConcat(common + services, connections);
    ConnectionSize(c, m);
  }

  lemma ConnectionSize(c: Config, m: Message)
    requires m.connectionId == if c.version == V3 then Some(CONNECTION_ID) else None
    ensures |EncodeFields(if HasConnections(c.version) then ConnectionFields(m) else [])| ==
            if c.version == V3 then 2 else 0
  {
    EncodeOptional([], m.connectionId.Some?, ConnectionField(CONNECTION_ID));
    var own := Optional(m.connectionId.Some?, ConnectionField(CONNECTION_ID));
    assert [] + own == own;
  }

  lemma ServiceSize(c: Config, m: Message)
    requires m.availableServiceIds == []
    requires m.serviceId == if HasServiceId(c) && c.version != V1 then c.serviceId else None
    ensures |EncodeFields(if HasServices(c.version) then ServiceFields(m) else [])| == ServiceCost(c)
  {
    EncodeOptional([], m.serviceId.Some?, ServiceField(m.serviceId.GetOr([])));
    var own := Optional(m.serviceId.Some?, ServiceField(m.serviceId.GetOr([])));
    assert [] + own == own && own + Available([]) == own;
  }

  /**
    Every DATA frame, for any stream id the transport may hold and any chunk, fits its length
    prefix exactly when the service id is within the limit of the version and the mode.
   */
  lemma FrameBound(c: Config)
    ensures ServiceIdFits(c) <==>
            forall streamId: int32, chunk: seq<byte> :: MayHold(c, streamId) && |chunk| <= MAX_PAYLOAD ==>
              |Encode(c.version, DataMessage(c, streamId, chunk))| <= MAX_FRAME
  {
    if ServiceIdFits(c) {
      forall streamId: int32, chunk: seq<byte> | MayHold(c, streamId) && |chunk| <= MAX_PAYLOAD
        ensures |Encode(c.version, DataMessage(c, streamId, chunk))| <= MAX_FRAME
      {
        DataFits(c, streamId, chunk);
      }
    } else {
      var chunk := seq(MAX_PAYLOAD, _ => 0);
      LongestFrame(c, chunk);
      assert |Encode(c.version, DataMessage(c, WidestId(c), chunk))| > MAX_FRAME;
    }
  }

  lemma DataFits(c: Config, streamId: int32, chunk: seq<byte>)
    requires ServiceIdFits(c) && MayHold(c, streamId) && |chunk| <= MAX_PAYLOAD
    ensures |Encode(c.version, DataMessage(c, streamId, chunk))| <= MAX_FRAME
  {
    hide Encode, Varint, Pow128;
    DataSize(c, streamId, chunk);
    Int32RoundTrip(streamId, []);
    WidestSize(c);
    Pow128Values();
    VarintAtMost(|chunk|, 3);
    if HasServiceId(c) && c.version != V1 { VarintAtMost(|c.serviceId.value|, 2); }
  }

  lemma WidestSize(c: Config)
    ensures |Int32(WidestId(c))| == if c.mode == Source then 1 else 10
  {
    hide Varint;
    Pow128Values();
    if c.mode == Source { VarintLength(1, 1); } else { Int32RoundTrip(-1, []); }
  }

  /** The bound is tight: a full chunk with the widest stream id and a longest id uses all of it. */
  lemma LongestFrame(c: Config, chunk: seq<byte>)
    requires |chunk| == MAX_PAYLOAD && HasServiceId(c) && c.version != V1
    ensures |c.serviceId.value| == ServiceIdLimit(c) ==>
              |Encode(c.version, DataMessage(c, WidestId(c), chunk))| == MAX_FRAME
    ensures !ServiceIdFits(c) ==> |Encode(c.version, DataMessage(c, WidestId(c), chunk))| > MAX_FRAME
  {
    hide Encode, Varint, Pow128;
    DataSize(c, WidestId(c), chunk);
    WidestSize(c);
    Pow128Values();
    VarintLength(MAX_PAYLOAD, 3);
    var n := |c.serviceId.value|;
    if 128 <= n < 0x4000 { VarintLength(n, 2); }
  }
}
