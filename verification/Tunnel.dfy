/**
  The secure tunnel transport: what each of its methods does to its fields, to the socket and
  to its listeners. The class runs the code; `TunnelState` and the functions on it say what the
  code computes.
 */
module Tunnel {
  import opened Options
  import opened Wire
  import opened Codec
  import opened Blocks
  import opened Framing
  import opened TunnelMessages

  /** The ready state of the transport's one socket; `Left` is CLOSING or CLOSED. */
  datatype Phase = NotCreated | Connecting | Open | Left

  datatype TunnelState = TunnelState(
    // the transport's own fields; `hasSocket` says that `ws` is not null
    hasSocket: bool,
    isConnected: bool,
    tunnelReady: bool,
    streamId: int32,
    messageQueue: seq<seq<byte>>,
    receiveBuffer: seq<byte>,
    // the socket and the listeners
    phase: Phase,
    wire: seq<byte>,
    delivered: seq<seq<byte>>,
    closes: nat,
    errors: nat,
    past: History)

  /**
    What happened so far: data given to `send`, messages put on the wire, messages handled,
    bytes received, frames taken from them.
   */
  datatype History = History(
    accepted: seq<byte>,
    sent: seq<Message>,
    handled: seq<Message>,
    received: seq<byte>,
    frames: seq<seq<byte>>)

  const NO_HISTORY := History([], [], [], [], [])
  const INITIAL := TunnelState(false, false, false, 1, [], [], NotCreated, [], [], 0, 0, NO_HISTORY)

  predicate CanSend(s: TunnelState) {
    s.hasSocket && s.phase == Open
  }

  /** A frame goes out only on an open socket; otherwise it is dropped. */
  function Put(s: TunnelState, bytes: seq<byte>, ms: seq<Message>): TunnelState {
    if CanSend(s) then s.(wire := s.wire + bytes, past := s.past.(sent := s.past.sent + ms)) else s
  }

  function Emit(c: Config, s: TunnelState, ms: seq<Message>): TunnelState {
    Put(s, WireOf(c.version, ms), ms)
  }

  predicate Ready(s: TunnelState) {
    s.isConnected && s.hasSocket && s.tunnelReady
  }

  function Send(c: Config, s: TunnelState, data: seq<byte>): TunnelState {
    var s := s.(past := s.past.(accepted := s.past.accepted + data));
    if Ready(s) then Emit(c, s, DataMessages(c, s.streamId, data))
    else s.(messageQueue := s.messageQueue + [data])
  }

  function ProcessQueue(c: Config, s: TunnelState): TunnelState {
    Emit(c, s.(messageQueue := []), QueueMessages(c, s.streamId, s.messageQueue))
  }

  function Disconnect(c: Config, s: TunnelState): TunnelState {
    var s := if s.hasSocket
             then Emit(c, s, [StreamReset(s.streamId)]).(hasSocket := false, phase := Left)
             else s;
    s.(isConnected := false, tunnelReady := false)
  }

  function OpeningMessages(c: Config, s: TunnelState): seq<Message> {
    if c.mode == Source then [StreamStart(c, s.streamId)]
    else if HasServiceId(c) then [ServiceIds(c.serviceId.value)]
    else []
  }

  /** The socket opens, and its `onopen` handler runs. */
  function Opened(c: Config, s: TunnelState): TunnelState {
    var s := s.(phase := Open, isConnected := true);
    Emit(c, s, OpeningMessages(c, s))
  }

  /** The socket has closed, and its `onclose` handler runs. */
  function Closed(s: TunnelState): TunnelState {
    s.(phase := Left, isConnected := false, tunnelReady := false, closes := s.closes + 1)
  }

  /** An absent type or stream id reads as the prototype's 0, an absent payload as no bytes. */
  function Handle(c: Config, s: TunnelState, m: Message): (r: TunnelState)
    ensures r.receiveBuffer == s.receiveBuffer
  {
    var s := s.(past := s.past.(handled := s.past.handled + [m]));
    var t := m.msgType.GetOr(0);
    if t == DATA then s.(delivered := s.delivered + [m.payload.GetOr([])])
    else if t == STREAM_START && c.mode == Destination then
      ProcessQueue(c, s.(streamId := m.streamId.GetOr(0), tunnelReady := true))
    else if t == STREAM_RESET then s.(closes := s.closes + 1)
    else if t == SESSION_RESET then Disconnect(c, s)
    else if t == SERVICE_IDS && c.mode == Source then ProcessQueue(c, s.(tunnelReady := true))
    else s
  }

  function Append(s: TunnelState, data: seq<byte>): TunnelState {
    s.(receiveBuffer := s.receiveBuffer + data,
       past := s.past.(received := s.past.received + data))
  }

  function Extract(s: TunnelState): TunnelState
    requires HasFrame(s.receiveBuffer)
  {
    s.(receiveBuffer := AfterFrame(s.receiveBuffer),
       past := s.past.(frames := s.past.frames + [FirstFrame(s.receiveBuffer)]))
  }

  /** A frame that does not decode is reported and dropped. */
  function Dispatch(c: Config, s: TunnelState, message: Option<Message>): (r: TunnelState)
    ensures r.receiveBuffer == s.receiveBuffer
  {
    match message
    case None => s.(errors := s.errors + 1)
    case Some(m) => Handle(c, s, m)
  }

  /** Takes the first complete frame, decodes and handles it. */
  function TakeFrame(c: Config, s: TunnelState): (r: TunnelState)
    requires HasFrame(s.receiveBuffer)
    ensures |r.receiveBuffer| < |s.receiveBuffer|
  {
    Dispatch(c, Extract(s), Decode(c.version, FirstFrame(s.receiveBuffer)))
  }

  function TakeFrames(c: Config, s: TunnelState): TunnelState
    decreases |s.receiveBuffer|
  {
    if HasFrame(s.receiveBuffer) then TakeFrames(c, TakeFrame(c, s)) else s
  }

  class SecureTunnelTransport {
    const config: Config
    var hasSocket: bool
    var isConnected: bool
    var tunnelReady: bool
    var streamId: int32
    var messageQueue: seq<seq<byte>>
    var receiveBuffer: seq<byte>
    var phase: Phase
    var wire: seq<byte>
    var delivered: seq<seq<byte>>
    var closes: nat
    var errors: nat
    ghost var past: History

    ghost function State(): TunnelState
      reads this
    {
      TunnelState(hasSocket, isConnected, tunnelReady, streamId, messageQueue, receiveBuffer,
                  phase, wire, delivered, closes, errors, past)
    }

    constructor (config: Config)
      ensures this.config == config && State() == INITIAL
    {
      this.config := config;
      hasSocket, isConnected, tunnelReady, streamId := false, false, false, 1;
      messageQueue, receiveBuffer, phase, wire := [], [], NotCreated, [];
      delivered, closes, errors, past := [], 0, 0, NO_HISTORY;
    }

    /** Creates the socket; the rest of connecting happens in its handlers. */
    method Connect()
      requires phase == NotCreated
      modifies this
      ensures State() == old(State()).(hasSocket := true, phase := Connecting)
    {
      hasSocket, phase := true, Connecting;
    }

    method OnOpen()
      requires hasSocket && phase == Connecting
      modifies this
      ensures State() == Opened(config, old(State()))
    {
      phase := Open;
      isConnected := true;
      if config.mode == Destination {
        if HasServiceId(config) {
          SendControlMessage(ServiceIds(config.serviceId.value));
        } else {
          assert OpeningMessages(config, State()) == [];
          EmitNothing(config, State());
        }
      } else {
        SendControlMessage(StreamStart(config, streamId));
      }
    }

    method OnClose()
      modifies this
      ensures State() == Closed(old(State()))
    {
      phase := Left;
      isConnected := false;
      tunnelReady := false;
      closes := closes + 1;
    }

    method DisconnectTunnel()
      modifies this
      ensures State() == Disconnect(config, old(State()))
    {
      if hasSocket {
        SendControlMessage(StreamReset(streamId));
        phase := Left;
        hasSocket := false;
      }
      isConnected := false;
      tunnelReady := false;
    }

    method SendBytes(data: seq<byte>)
      modifies this
      ensures State() == Send(config, old(State()), data)
    {
      past := past.(accepted := past.accepted + data);
      if !isConnected || !hasSocket || !tunnelReady {
        messageQueue := messageQueue + [data];
        return;
      }
      SendDataFrame(data);
    }

    method ProcessQueuedMessages()
      modifies this
      ensures State() == ProcessQueue(config, old(State()))
    {
      ghost var goal := ProcessQueue(config, State());
      while messageQueue != []
        invariant ProcessQueue(config, State()) == goal
        decreases |messageQueue|
      {
        var msg := messageQueue[0];
        QueueStep(config, State());
        messageQueue := messageQueue[1..];
        SendDataFrame(msg);
      }
      EmitNothing(config, State());
    }

    method SendControlMessage(m: Message)
      modifies this
      ensures State() == Emit(config, old(State()), [m])
    {
      var encoded := EncodeMessage(config.version, m);
      SendFrame(encoded, m);
    }

    method SendDataFrame(data: seq<byte>)
      modifies this
      ensures State() == Emit(config, old(State()), DataMessages(config, old(streamId), data))
    {
      ghost var goal := Emit(config, State(), DataMessages(config, streamId, data));
      var i := 0;
      assert data[0..] == data;
      while i < |data|
        invariant 0 <= i <= |data| && streamId == old(streamId)
        invariant Emit(config, State(), DataMessages(config, streamId, data[i..])) == goal
      {
        var end := if i + MAX_PAYLOAD < |data| then i + MAX_PAYLOAD else |data|;
        var chunk := data[i..end];
        CutStep(config, streamId, data, i, end);
        var message := Message(Some(DATA), Some(streamId), None, Some(chunk), None, [], None);
        if HasServiceId(config) && config.version != V1 {
          message := message.(serviceId := config.serviceId);
        }
        if config.version == V3 {
          message := message.(connectionId := Some(CONNECTION_ID));
        }
        assert message == DataMessage(config, streamId, chunk);
        EmitTwice(config, State(), [message], DataMessages(config, streamId, data[end..]));
        var encoded := EncodeMessage(config.version, message);
        SendFrame(encoded, message);
        i := end;
      }
      EmitNothing(config, State());
    }

    method SendFrame(data: seq<byte>, ghost m: Message)
      requires data == Encode(config.version, m)
      modifies this
      ensures State() == Emit(config, old(State()), [m])
    {
      if !hasSocket || phase != Open {
        return;
      }
      WireOne(config.version, m);
      wire := wire + Frame(data);
      past := past.(sent := past.sent + [m]);
    }

    method HandleIncomingData(data: seq<byte>)
      modifies this
      ensures State() == TakeFrames(config, Append(old(State()), data))
    {
      receiveBuffer := receiveBuffer + data;
      past := past.(received := past.received + data);
      ghost var goal := TakeFrames(config, State());
      while |receiveBuffer| >= 2
        invariant TakeFrames(config, State()) == goal
        decreases |receiveBuffer|
      {
        var frameLength := FrameLength(receiveBuffer);
        if |receiveBuffer| < 2 + frameLength { break; }
        ghost var before := State();
        HandleFrame(frameLength);
        assert TakeFrames(config, before) == TakeFrames(config, State());
      }
    }

    /** One turn of the receive loop: extract the frame, then decode and handle it. */
    method HandleFrame(frameLength: nat)
      requires HasFrame(receiveBuffer) && frameLength == FrameLength(receiveBuffer)
      modifies this
      ensures State() == TakeFrame(config, old(State()))
    {
      hide Handle, Decode;
      var frameData := receiveBuffer[2..2 + frameLength];
      receiveBuffer := receiveBuffer[2 + frameLength..];
      past := past.(frames := past.frames + [frameData]);
      assert State() == Extract(old(State()));
      var message := DecodeMessage(config.version, frameData);
      if message.Some? {
        HandleMessage(message.value);
      } else {
        errors := errors + 1;
      }
    }

    method HandleMessage(m: Message)
      modifies this
      ensures State() == Handle(config, old(State()), m)
    {
      hide ProcessQueue, Disconnect;
      past := past.(handled := past.handled + [m]);
      var t := m.msgType.GetOr(0);
      if t == DATA {
        delivered := delivered + [m.payload.GetOr([])];
      } else if t == STREAM_START {
        if config.mode == Destination {
          streamId := m.streamId.GetOr(0);
          tunnelReady := true;
          ProcessQueuedMessages();
        }
      } else if t == STREAM_RESET {
        closes := closes + 1;
      } else if t == SESSION_RESET {
        DisconnectTunnel();
      } else if t == SERVICE_IDS {
        if config.mode == Source {
          tunnelReady := true;
          ProcessQueuedMessages();
        }
      }
    }
  }

  lemma EmitNothing(c: Config, s: TunnelState)
    ensures Emit(c, s, []) == s
  {
    assert EncodeAll(c.version, []) == [];
    assert s.wire + [] == s.wire && s.past.sent + [] == s.past.sent;
  }

  lemma EmitTwice(c: Config, s: TunnelState, a: seq<Message>, b: seq<Message>)
    ensures Emit(c, Emit(c, s, a), b) == Emit(c, s, a + b)
  {
    WireConcat(c.version, a, b);
    PutTwice(s, WireOf(c.version, a), a, WireOf(c.version, b), b);
  }

  lemma PutTwice(s: TunnelState, v: seq<byte>, a: seq<Message>, w: seq<byte>, b: seq<Message>)
    ensures Put(Put(s, v, a), w, b) == Put(s, v + w, a + b)
  {
    Associative(s.wire, v, w);
    assert s.past.sent + a + b == s.past.sent + (a + b);
  }

  lemma QueueStep(c: Config, s: TunnelState)
    requires s.messageQueue != []
    ensures ProcessQueue(c, s) ==
            ProcessQueue(c, Emit(c, s.(messageQueue := s.messageQueue[1..]),
                                 DataMessages(c, s.streamId, s.messageQueue[0])))
  {
    var first := DataMessages(c, s.streamId, s.messageQueue[0]);
    var rest := QueueMessages(c, s.streamId, s.messageQueue[1..]);
    EmitTwice(c, s.(messageQueue := []), first, rest);
  }

  lemma CutStep(c: Config, streamId: int32, data: seq<byte>, i: nat, end: nat)
    requires i < |data|
    requires end == if i + MAX_PAYLOAD < |data| then i + MAX_PAYLOAD else |data|
    ensures DataMessages(c, streamId, data[i..]) ==
            [DataMessage(c, streamId, data[i..end])] + DataMessages(c, streamId, data[end..])
  {
    var k := end - i;
    assert data[i..][..k] == data[i..end] && data[i..][k..] == data[end..];
  }
}
