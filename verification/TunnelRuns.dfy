/**
  Whole runs of one transport: any interleaving of the caller's `send` and `disconnect`, the
  socket's events, received chunks, and the handling of single frames (a listener may call back
  into the transport between two frames).
 */
module TunnelRuns {
  import opened Options
  import opened Wire
  import opened Codec
  import opened CodecLaws
  import opened Blocks
  import opened Framing
  import opened TunnelMessages
  import opened Tunnel

  datatype Event =
    | ConnectCall
    | SocketOpens
    | SocketLeaves
    | SocketClosed
    | Receive(chunk: seq<byte>)
    | HandleOneFrame
    | SendCall(data: seq<byte>)
    | DisconnectCall

  /**
    The WebSocket's rules: it is created once, opens at most once, never returns to OPEN, and
    delivers messages only after opening.
   */
  predicate Enabled(s: TunnelState, e: Event) {
    match e
    case ConnectCall => s.phase == NotCreated
    case SocketOpens => s.phase == Connecting
    case SocketLeaves => s.phase == Connecting || s.phase == Open
    case SocketClosed => s.phase != NotCreated
    case Receive(_) => s.phase == Open || s.phase == Left
    case HandleOneFrame => HasFrame(s.receiveBuffer)
    case SendCall(_) => true
    case DisconnectCall => true
  }

  function Step(c: Config, s: TunnelState, e: Event): TunnelState
    requires Enabled(s, e)
  {
    match e
    case ConnectCall => s.(hasSocket := true, phase := Connecting)
    case SocketOpens => Opened(c, s)
    case SocketLeaves => s.(phase := Left)
    case SocketClosed => Closed(s)
    case Receive(chunk) => Append(s, chunk)
    case HandleOneFrame => TakeFrame(c, s)
    case SendCall(data) => Send(c, s, data)
    case DisconnectCall => Disconnect(c, s)
  }

  /** The state after a run, if every event in it was enabled. */
  function Run(c: Config, es: seq<Event>): Option<TunnelState>
    decreases |es|, 0
  {
    if es == [] then Some(INITIAL) else After(c, es[..|es| - 1], es[|es| - 1])
  }

  /** The state after a run and one more event. */
  function After(c: Config, es: seq<Event>, e: Event): Option<TunnelState>
    decreases |es|, 1
  {
    match Run(c, es)
    case None => None
    case Some(s) => if Enabled(s, e) then Some(Step(c, s, e)) else None
  }

  lemma RunStep(c: Config, es: seq<Event>, e: Event)
    ensures Run(c, es + [e]) == After(c, es, e)
  {
    assert (es + [e])[..|es|] == es;
  }

  lemma Extend(c: Config, es: seq<Event>, e: Event) returns (more: seq<Event>)
    requires Run(c, es).Some? && Enabled(Run(c, es).value, e)
    ensures more == es + [e] && Run(c, more) == Some(Step(c, Run(c, es).value, e))
  {
    hide Step, Enabled;
    more := es + [e];
    RunStep(c, es, e);
  }

  // ---- What every reachable state satisfies ----

  /** The socket's phase agrees with the transport's flags. */
  ghost predicate PhaseAgrees(c: Config, s: TunnelState) {
    && MayHold(c, s.streamId)
    && (s.phase == NotCreated || s.phase == Connecting ==>
          && !s.isConnected && !s.tunnelReady && s.streamId == 1
          && s.receiveBuffer == [] && s.past.sent == [] && s.past.handled == [])
    && (s.phase == NotCreated ==> !s.hasSocket)
    && (s.phase == Connecting || s.phase == Open ==> s.hasSocket)
    && (s.phase == Open ==> s.isConnected)
  }

  predicate IsHandshake(c: Config, m: Message) {
    m.msgType == Some(if c.mode == Source then SERVICE_IDS else STREAM_START)
  }

  ghost predicate HandshakeDone(c: Config, s: TunnelState) {
    exists m <- s.past.handled :: IsHandshake(c, m)
  }

  /**
    No DATA goes out before the handshake message was handled; on an open socket the transport
    is ready from then on, with the stream id of a handshake message if that changed it.
   */
  ghost predicate HandshakeFirst(c: Config, s: TunnelState) {
    && (s.tunnelReady ==> HandshakeDone(c, s))
    && (s.phase == Open && HandshakeDone(c, s) ==> s.tunnelReady)
    && ((exists m <- s.past.sent :: IsData(m)) ==> HandshakeDone(c, s))
    && (s.streamId == 1 || exists m <- s.past.handled :: IsHandshake(c, m) && m.streamId.GetOr(0) == s.streamId)
  }

  predicate IsReset(m: Message) {
    m.msgType == Some(STREAM_RESET)
  }

  /** The mode's opening message, then DATA, then at most one reset, once the socket is given up. */
  ghost predicate InOrder(c: Config, s: TunnelState) {
    var opening, sent := OpeningMessages(c, INITIAL), s.past.sent;
    && (s.phase == Open || sent != [] ==> opening <= sent)
    && (forall i :: |opening| <= i < |sent| ==> IsData(sent[i]) || (IsReset(sent[i]) && i == |sent| - 1))
    && ((exists m <- sent :: IsReset(m)) ==> s.phase == Left)
  }

  /**
    Accepted data is on the wire, then in the queue, in order, until the socket leaves OPEN;
    what went out stays a prefix of it forever.
   */
  ghost predicate Conserved(s: TunnelState) {
    && (s.phase != Left ==> Payloads(s.past.sent) + Flatten(s.messageQueue) == s.past.accepted)
    && Payloads(s.past.sent) <= s.past.accepted
    && (Ready(s) ==> s.messageQueue == [])
  }

  /** One of the messages this transport builds. */
  ghost predicate Built(c: Config, m: Message) {
    || (m.streamId.Some? && MayHold(c, m.streamId.value)
        && (|| IsCut(c, m.streamId.value, m)
            || (c.mode == Source && m == StreamStart(c, m.streamId.value))
            || m == StreamReset(m.streamId.value)))
    || (c.mode == Destination && HasServiceId(c) && m == ServiceIds(c.serviceId.value))
  }

  ghost predicate WireFaithful(c: Config, s: TunnelState) {
    && s.wire == WireOf(c.version, s.past.sent)
    && forall m <- s.past.sent :: Built(c, m)
  }

  /** The messages among the frames that decode. */
  function Decoded(v: Version, frames: seq<seq<byte>>): seq<Message> {
    if frames == [] then []
    else Decoded(v, frames[..|frames| - 1]) +
         match Decode(v, frames[|frames| - 1])
         case None => []
         case Some(m) => [m]
  }

  /** Received bytes are the frames taken, then the unfinished buffer; frames are handled in order. */
  ghost predicate Reassembled(c: Config, s: TunnelState) {
    && s.past.received == Framed(s.past.frames) + s.receiveBuffer
    && Fits(s.past.frames)
    && s.past.handled == Decoded(c.version, s.past.frames)
    && Flatten(s.delivered) == Payloads(s.past.handled)
    && s.errors + |s.past.handled| == |s.past.frames|
  }

  /** What sending keeps, whatever data is accepted. */
  ghost predicate Orderly(c: Config, s: TunnelState) {
    PhaseAgrees(c, s) && HandshakeFirst(c, s) && InOrder(c, s) && WireFaithful(c, s)
  }

  ghost predicate SendInv(c: Config, s: TunnelState) {
    Orderly(c, s) && Conserved(s)
  }

  ghost predicate Inv(c: Config, s: TunnelState) {
    SendInv(c, s) && Reassembled(c, s)
  }

  // ---- Putting messages on the wire ----

  lemma EmitPhase(c: Config, s: TunnelState, ms: seq<Message>)
    requires PhaseAgrees(c, s)
    ensures PhaseAgrees(c, Emit(c, s, ms))
  {
    hide WireOf;
  }

  lemma EmitHandshake(c: Config, s: TunnelState, ms: seq<Message>)
    requires HandshakeFirst(c, s)
    requires HandshakeDone(c, s) || forall m <- ms :: !IsData(m)
    ensures HandshakeFirst(c, Emit(c, s, ms))
  {
    hide WireOf, IsData, IsHandshake;
    var t := Emit(c, s, ms);
    assert t.past.handled == s.past.handled && t.streamId == s.streamId;
    assert forall m <- t.past.sent :: m in s.past.sent || m in ms;
  }

  lemma EmitOrder(c: Config, s: TunnelState, ms: seq<Message>)
    requires InOrder(c, s) && forall m <- ms :: IsData(m) && !IsReset(m)
    ensures InOrder(c, Emit(c, s, ms))
  {
    hide WireOf, IsReset, IsData, OpeningMessages;
    var t, n := Emit(c, s, ms), |s.past.sent|;
    if CanSend(s) {
      assert s.past.sent <= t.past.sent;
      assert forall m <- t.past.sent :: m in s.past.sent || m in ms;
      forall i | |OpeningMessages(c, INITIAL)| <= i < |t.past.sent| ensures IsData(t.past.sent[i]) {
        if i < n {
          assert t.past.sent[i] == s.past.sent[i] && s.past.sent[i] in s.past.sent;
        } else {
          assert t.past.sent[i] == ms[i - n];
        }
      }
    }
  }

  lemma EmitWire(c: Config, s: TunnelState, ms: seq<Message>)
    requires WireFaithful(c, s) && forall m <- ms :: Built(c, m)
    ensures WireFaithful(c, Emit(c, s, ms))
  {
    WireConcat(c.version, s.past.sent, ms);
    hide WireOf, Built;
    var t := Emit(c, s, ms);
    assert forall m <- t.past.sent :: m in s.past.sent || m in ms;
  }

  lemma EmitOrderly(c: Config, s: TunnelState, ms: seq<Message>)
    requires Orderly(c, s) && forall m <- ms :: Built(c, m) && IsData(m) && !IsReset(m)
    requires HandshakeDone(c, s)
    ensures Orderly(c, Emit(c, s, ms))
  {
    hide PhaseAgrees, HandshakeFirst, InOrder, WireFaithful, Emit, IsReset, IsData, Built, HandshakeDone;
    EmitPhase(c, s, ms);
    EmitHandshake(c, s, ms);
    EmitOrder(c, s, ms);
    EmitWire(c, s, ms);
  }

  /** Control messages carry no data. */
  lemma EmitControl(c: Config, s: TunnelState, m: Message)
    requires Conserved(s) && !IsData(m)
    ensures Conserved(Emit(c, s, [m]))
  {
    hide WireOf;
    PayloadsConcat(s.past.sent, [m]);
    PayloadsOne(m);
    assert Payloads(s.past.sent) + [] == Payloads(s.past.sent);
  }

  /** Data that goes out is accounted for, on a transport whose queue is empty. */
  lemma EmitData(c: Config, s: TunnelState, ms: seq<Message>)
    requires s.messageQueue == []
    requires s.phase != Left ==> Payloads(s.past.sent) + Payloads(ms) == s.past.accepted
    requires s.phase == Left ==> Payloads(s.past.sent) <= s.past.accepted
    requires CanSend(s) || s.phase == Left
    ensures Conserved(Emit(c, s, ms))
  {
    hide WireOf;
    PayloadsConcat(s.past.sent, ms);
    assert Payloads(s.past.sent) + Flatten([]) == Payloads(s.past.sent);
    assert Payloads(s.past.sent + ms) + Flatten([]) == Payloads(s.past.sent + ms);
  }

  lemma CutsAreBuilt(c: Config, streamId: int32, ms: seq<Message>)
    requires MayHold(c, streamId) && forall m <- ms :: IsCut(c, streamId, m)
    ensures forall m <- ms :: Built(c, m) && IsData(m) && !IsReset(m)
  {
  }

  // ---- The sending operations ----

  lemma SendKeeps(c: Config, s: TunnelState, data: seq<byte>)
    requires SendInv(c, s)
    ensures SendInv(c, Send(c, s, data))
  {
    var t := s.(past := s.past.(accepted := s.past.accepted + data));
    AcceptedOnly(c, s, t);
    if Ready(s) { SendNow(c, s, t, data); } else { SendLater(c, s, t, data); }
  }

  lemma AcceptedOnly(c: Config, s: TunnelState, t: TunnelState)
    requires Orderly(c, s)
    requires t == s.(messageQueue := t.messageQueue, past := s.past.(accepted := t.past.accepted))
    ensures Orderly(c, t)
  {
    hide WireOf, Built, IsReset, IsData, OpeningMessages;
    assert HandshakeDone(c, t) <==> HandshakeDone(c, s);
  }

  lemma SendNow(c: Config, s: TunnelState, t: TunnelState, data: seq<byte>)
    requires SendInv(c, s) && Ready(s) && Orderly(c, t)
    requires t == s.(past := s.past.(accepted := s.past.accepted + data))
    ensures SendInv(c, Emit(c, t, DataMessages(c, s.streamId, data)))
  {
    var ms := DataMessages(c, s.streamId, data);
    CutConserves(c, s.streamId, data);
    assert PhaseAgrees(c, s) && HandshakeDone(c, t);
    CutsAreBuilt(c, s.streamId, ms);
    assert Payloads(s.past.sent) + Flatten([]) == Payloads(s.past.sent);
    hide Orderly, DataMessages, IsCut, Emit;
    EmitOrderly(c, t, ms);
    EmitData(c, t, ms);
  }

  lemma SendLater(c: Config, s: TunnelState, t: TunnelState, data: seq<byte>)
    requires Conserved(s) && !Ready(s) && Orderly(c, t)
    requires t == s.(past := s.past.(accepted := s.past.accepted + data))
    ensures SendInv(c, t.(messageQueue := s.messageQueue + [data]))
  {
    AcceptedOnly(c, t, t.(messageQueue := s.messageQueue + [data]));
    hide Orderly;
    FlattenConcat(s.messageQueue, [data]);
    FlattenOne(data);
    Associative(Payloads(s.past.sent), Flatten(s.messageQueue), data);
  }

  /** The handshake message: the transport becomes ready and the queue goes out. */
  lemma HandshakeKeeps(c: Config, s: TunnelState, m: Message, streamId: int32)
    requires SendInv(c, s) && IsHandshake(c, m) && (s.phase == Open || s.phase == Left)
    requires streamId == if c.mode == Source then s.streamId else m.streamId.GetOr(0)
    ensures SendInv(c, ProcessQueue(c, s.(streamId := streamId, tunnelReady := true,
                                          past := s.past.(handled := s.past.handled + [m]))))
  {
    var t := s.(streamId := streamId, tunnelReady := true, messageQueue := [],
                past := s.past.(handled := s.past.handled + [m]));
    HandshakeOrderly(c, s, m, t);
    var ms := QueueMessages(c, streamId, s.messageQueue);
    QueueConserves(c, streamId, s.messageQueue);
    assert PhaseAgrees(c, s) && MayHold(c, streamId);
    CutsAreBuilt(c, streamId, ms);
    hide Orderly, QueueMessages, IsCut, Emit;
    EmitOrderly(c, t, ms);
    EmitData(c, t, ms);
  }

  lemma HandshakeOrderly(c: Config, s: TunnelState, m: Message, t: TunnelState)
    requires Orderly(c, s) && IsHandshake(c, m) && (s.phase == Open || s.phase == Left)
    requires t == s.(streamId := t.streamId, tunnelReady := true, messageQueue := [],
                     past := s.past.(handled := s.past.handled + [m]))
    requires t.streamId == if c.mode == Source then s.streamId else m.streamId.GetOr(0)
    ensures Orderly(c, t) && HandshakeDone(c, t)
  {
    hide WireOf, Built, IsReset, IsData, OpeningMessages, IsHandshake;
    assert m in t.past.handled;
    assert forall x <- s.past.handled :: x in t.past.handled;
  }

  lemma DisconnectKeeps(c: Config, s: TunnelState)
    requires SendInv(c, s)
    ensures SendInv(c, Disconnect(c, s))
  {
    var reset := StreamReset(s.streamId);
    if s.phase == Open {
      EmitControl(c, s, reset);
      ResetOrderly(c, s, Disconnect(c, s));
    } else {
      assert s.hasSocket ==> Emit(c, s, [reset]) == s by { hide WireOf; }
      LeaveOrderly(c, s, Disconnect(c, s));
    }
  }

  lemma ResetOrderly(c: Config, s: TunnelState, t: TunnelState)
    requires Orderly(c, s) && s.phase == Open
    requires t == Emit(c, s, [StreamReset(s.streamId)]).(hasSocket := false, phase := Left, isConnected := false,
                                                         tunnelReady := false)
    ensures Orderly(c, t)
  {
    hide WireOf;
    var u := Emit(c, s, [StreamReset(s.streamId)]);
    EmitPhase(c, s, [StreamReset(s.streamId)]);
    EmitHandshake(c, s, [StreamReset(s.streamId)]);
    EmitWire(c, s, [StreamReset(s.streamId)]);
    assert t.past == u.past && t.wire == u.wire;
    assert HandshakeDone(c, t) <==> HandshakeDone(c, u);
    ResetLast(c, s, t);
    hide IsData, IsHandshake, Built, OpeningMessages, InOrder;
  }

  lemma ResetLast(c: Config, s: TunnelState, t: TunnelState)
    requires InOrder(c, s) && s.phase == Open && t.phase == Left
    requires t.past.sent == s.past.sent + [StreamReset(s.streamId)]
    ensures InOrder(c, t)
  {
    hide OpeningMessages, IsData;
    var n := |s.past.sent|;
    assert t.past.sent[n] == StreamReset(s.streamId);
    forall i | |OpeningMessages(c, INITIAL)| <= i < n ensures IsData(t.past.sent[i]) {
      assert t.past.sent[i] == s.past.sent[i] && s.past.sent[i] in s.past.sent;
    }
  }

  /** The socket is given up or leaves OPEN. */
  lemma LeaveOrderly(c: Config, s: TunnelState, t: TunnelState)
    requires SendInv(c, s)
    requires t == s.(hasSocket := t.hasSocket, phase := t.phase, isConnected := false, tunnelReady := false,
                     closes := t.closes)
    requires t.phase == Left || (t.phase == s.phase && t.hasSocket == s.hasSocket && s.phase != Open)
    ensures SendInv(c, t)
  {
    hide WireOf, Built, IsReset, IsData, OpeningMessages, IsHandshake;
    assert HandshakeDone(c, t) <==> HandshakeDone(c, s);
  }

  lemma OpenedKeeps(c: Config, s: TunnelState)
    requires SendInv(c, s) && s.phase == Connecting
    ensures SendInv(c, Opened(c, s))
  {
    var t := s.(phase := Open, isConnected := true);
    var ms := OpeningMessages(c, t);
    OpeningWire(c, ms);
    assert [] + ms == ms;
    FirstPhase(c, t, ms);
    FirstOut(c, t, ms);
    FirstConserved(c, t, ms);
  }

  lemma FirstPhase(c: Config, t: TunnelState, ms: seq<Message>)
    requires t.hasSocket && t.isConnected && !t.tunnelReady && t.phase == Open && t.streamId == 1
    requires t.past.sent == [] && t.past.handled == [] && forall m <- ms :: !IsData(m)
    ensures PhaseAgrees(c, Emit(c, t, ms)) && HandshakeFirst(c, Emit(c, t, ms))
  {
    hide WireOf, IsData;
    assert [] + ms == ms;
  }

  /** The opening messages, put on an empty wire. */
  lemma FirstOut(c: Config, t: TunnelState, ms: seq<Message>)
    requires CanSend(t) && t.past.sent == [] && t.wire == []
    requires ms == OpeningMessages(c, INITIAL)
    requires forall m <- ms :: Built(c, m) && !IsReset(m)
    ensures InOrder(c, Emit(c, t, ms)) && WireFaithful(c, Emit(c, t, ms))
  {
    hide WireOf, Built, IsReset, OpeningMessages;
    assert [] + ms == ms && [] + WireOf(c.version, ms) == WireOf(c.version, ms);
  }

  lemma FirstConserved(c: Config, t: TunnelState, ms: seq<Message>)
    requires CanSend(t) && !t.tunnelReady && t.past.sent == [] && Payloads(ms) == []
    requires Payloads([]) + Flatten(t.messageQueue) == t.past.accepted
    ensures Conserved(Emit(c, t, ms))
  {
    hide WireOf;
    assert [] + ms == ms;
  }

  lemma OpeningWire(c: Config, ms: seq<Message>)
    requires ms == OpeningMessages(c, INITIAL)
    ensures WireOf(c.version, []) == [] && Payloads(ms) == []
    ensures forall m <- ms :: Built(c, m) && !IsData(m) && !IsReset(m)
  {
    if ms != [] { PayloadsOne(ms[0]); }
  }

  // ---- Handling a message ----

  lemma HandleKeeps(c: Config, s: TunnelState, m: Message)
    requires SendInv(c, s) && (s.phase == Open || s.phase == Left)
    ensures SendInv(c, Handle(c, s, m))
  {
    hide SendInv, ProcessQueue, Handle, IsHandshake;
    if IsHandshake(c, m) {
      HandleHandshake(c, s, m);
      HandshakeKeeps(c, s, m, if c.mode == Source then s.streamId else m.streamId.GetOr(0));
    } else {
      var t := s.(past := s.past.(handled := s.past.handled + [m]));
      HandledAdds(c, s, m, t);
      HandleOther(c, s, m, t);
    }
  }

  lemma HandleHandshake(c: Config, s: TunnelState, m: Message)
    requires IsHandshake(c, m)
    ensures var streamId := if c.mode == Source then s.streamId else m.streamId.GetOr(0);
            Handle(c, s, m) ==
            ProcessQueue(c, s.(streamId := streamId, tunnelReady := true,
                               past := s.past.(handled := s.past.handled + [m])))
  {
    hide ProcessQueue, Disconnect;
  }

  lemma HandledAdds(c: Config, s: TunnelState, m: Message, t: TunnelState)
    requires SendInv(c, s) && (s.phase == Open || s.phase == Left) && !IsHandshake(c, m)
    requires t == s.(past := s.past.(handled := s.past.handled + [m]))
    ensures SendInv(c, t)
  {
    hide WireOf, Built, IsReset, IsData, OpeningMessages, IsHandshake;
    assert forall x <- s.past.handled :: x in t.past.handled;
    assert forall x <- t.past.handled :: x in s.past.handled || x == m;
    assert HandshakeDone(c, t) <==> HandshakeDone(c, s);
  }

  lemma HandleOther(c: Config, s: TunnelState, m: Message, t: TunnelState)
    requires t == s.(past := s.past.(handled := s.past.handled + [m])) && SendInv(c, t)
    requires !IsHandshake(c, m)
    ensures SendInv(c, Handle(c, s, m))
  {
    hide SendInv, ProcessQueue, Disconnect;
    if m.msgType.GetOr(0) == SESSION_RESET {
      DisconnectKeeps(c, t);
    } else {
      QuietKeeps(c, t, Handle(c, s, m));
    }
  }

  /** Only listeners were told. */
  lemma QuietKeeps(c: Config, s: TunnelState, t: TunnelState)
    requires SendInv(c, s)
    requires t == s.(delivered := t.delivered, closes := t.closes, errors := t.errors)
    ensures SendInv(c, t)
  {
    hide WireOf, Built, IsReset, IsData, OpeningMessages, IsHandshake;
    assert HandshakeDone(c, t) <==> HandshakeDone(c, s);
  }

  lemma ReceivePart(c: Config, s: TunnelState)
    requires Reassembled(c, s) && HasFrame(s.receiveBuffer)
    ensures Reassembled(c, TakeFrame(c, s))
  {
    var frame, fs := FirstFrame(s.receiveBuffer), s.past.frames;
    ParsedIsFramed(s.receiveBuffer);
    assert (fs + [frame])[..|fs|] == fs;
    Associative(Framed(fs), Frame(frame), AfterFrame(s.receiveBuffer));
    var t := Extract(s);
    match Decode(c.version, frame)
    case None =>
      assert s.past.handled + [] == s.past.handled;
    case Some(m) =>
      HandleDelivers(c, t, m);
      PayloadsConcat(s.past.handled, [m]);
      PayloadsOne(m);
      FlattenConcat(s.delivered, [m.payload.GetOr([])]);
      FlattenOne(m.payload.GetOr([]));
  }

  /** Handling a message changes what was received or delivered only if it is DATA. */
  lemma HandleDelivers(c: Config, s: TunnelState, m: Message)
    ensures var t := Handle(c, s, m);
            && t.delivered == (if IsData(m) then s.delivered + [m.payload.GetOr([])] else s.delivered)
            && t.past.handled == s.past.handled + [m]
            && t.past.frames == s.past.frames && t.past.received == s.past.received
            && t.errors == s.errors
  {
    var t := s.(past := s.past.(handled := s.past.handled + [m]));
    var kind := m.msgType.GetOr(0);
    if kind == STREAM_START && c.mode == Destination {
      EmittingKeepsReceived(c, t.(streamId := m.streamId.GetOr(0), tunnelReady := true));
    } else if kind == SESSION_RESET {
      EmittingKeepsReceived(c, t);
    } else if kind == SERVICE_IDS && c.mode == Source {
      EmittingKeepsReceived(c, t.(tunnelReady := true));
    }
  }

  ghost predicate SameReceived(s: TunnelState, t: TunnelState) {
    && t.delivered == s.delivered && t.errors == s.errors && t.past.handled == s.past.handled
    && t.past.frames == s.past.frames && t.past.received == s.past.received
    && t.receiveBuffer == s.receiveBuffer
  }

  lemma EmittingKeepsReceived(c: Config, s: TunnelState)
    ensures SameReceived(s, ProcessQueue(c, s)) && SameReceived(s, Disconnect(c, s))
  {
  }

  lemma BufferNeedsSocket(c: Config, s: TunnelState)
    requires SendInv(c, s)
    ensures HasFrame(s.receiveBuffer) ==> s.phase == Open || s.phase == Left
  {
  }

  lemma TakeFrameKeeps(c: Config, s: TunnelState)
    requires SendInv(c, s) && HasFrame(s.receiveBuffer)
    ensures SendInv(c, TakeFrame(c, s))
  {
    hide SendInv, Decode;
    var t := Extract(s);
    BufferNeedsSocket(c, s);
    ReceivingKeeps(c, s, t);
    match Decode(c.version, FirstFrame(s.receiveBuffer)) {
      case None => QuietKeeps(c, t, t.(errors := t.errors + 1));
      case Some(m) => HandleKeeps(c, t, m);
    }
  }

  /** Only the receive buffer and what it came from changed, on a socket that has opened. */
  lemma ReceivingKeeps(c: Config, s: TunnelState, t: TunnelState)
    requires SendInv(c, s) && (s.phase == Open || s.phase == Left)
    requires t == s.(receiveBuffer := t.receiveBuffer,
                     past := s.past.(received := t.past.received, frames := t.past.frames))
    ensures SendInv(c, t)
  {
    hide WireOf, Built, IsReset, IsData, OpeningMessages, IsHandshake;
    assert HandshakeDone(c, t) <==> HandshakeDone(c, s);
  }

  lemma PhaseStepKeeps(c: Config, s: TunnelState, e: Event)
    requires SendInv(c, s) && Enabled(s, e) && (e.ConnectCall? || e.SocketLeaves? || e.SocketClosed?)
    ensures SendInv(c, Step(c, s, e))
  {
    hide WireOf, Built, IsReset, IsData, OpeningMessages, IsHandshake;
    assert HandshakeDone(c, Step(c, s, e)) <==> HandshakeDone(c, s);
  }

  lemma StepKeepsSending(c: Config, s: TunnelState, e: Event)
    requires SendInv(c, s) && Enabled(s, e)
    ensures SendInv(c, Step(c, s, e))
  {
    BufferNeedsSocket(c, s);
    hide SendInv, Opened, Send, Disconnect, TakeFrame;
    match e {
      case Receive(chunk) => ReceivingKeeps(c, s, Append(s, chunk));
      case HandleOneFrame => TakeFrameKeeps(c, s);
      case SocketOpens => OpenedKeeps(c, s);
      case SendCall(data) => SendKeeps(c, s, data);
      case DisconnectCall => DisconnectKeeps(c, s);
      case _ => PhaseStepKeeps(c, s, e);
    }
  }

  lemma SendingKeepsReceived(c: Config, s: TunnelState, e: Event)
    requires Enabled(s, e) && !e.Receive? && !e.HandleOneFrame?
    ensures SameReceived(s, Step(c, s, e))
  {
    hide WireOf, DataMessages, OpeningMessages;
  }

  lemma StepKeepsReceiving(c: Config, s: TunnelState, e: Event)
    requires Reassembled(c, s) && Enabled(s, e)
    ensures Reassembled(c, Step(c, s, e))
  {
    if e.Receive? {
      Associative(Framed(s.past.frames), s.receiveBuffer, e.chunk);
    } else if e.HandleOneFrame? {
      ReceivePart(c, s);
    } else {
      SendingKeepsReceived(c, s, e);
      hide Step;
    }
  }

  lemma StepKeeps(c: Config, s: TunnelState, e: Event)
    requires Inv(c, s) && Enabled(s, e)
    ensures Inv(c, Step(c, s, e))
  {
    hide SendInv, Reassembled, Step;
    StepKeepsSending(c, s, e);
    StepKeepsReceiving(c, s, e);
  }

  /** The invariant holds in every state any run reaches. */
  lemma {:induction false} RunsKeepInv(c: Config, es: seq<Event>)
    requires Run(c, es).Some?
    ensures Inv(c, Run(c, es).value)
    decreases |es|
  {
    if es != [] {
      var front, last := es[..|es| - 1], es[|es| - 1];
      assert After(c, front, last).Some?;
      RunsKeepInv(c, front);
      hide Inv, Step, Enabled;
      StepKeeps(c, Run(c, front).value, last);
    }
  }
}
