/** What the runs of a tunnel transport, and of two connected ones, add up to. */
module EndToEnd {
  import opened Options
  import opened Wire
  import opened Codec
  import opened CodecLaws
  import opened Blocks
  import opened Framing
  import opened TunnelMessages
  import opened Tunnel
  import opened TunnelRuns

  // ---- One transport ----

  /** No DATA goes out, and nothing at all before the opening message, until the handshake. */
  lemma HandshakeBeforeData(c: Config, es: seq<Event>)
    requires Run(c, es).Some?
    ensures var s := Run(c, es).value;
            && (s.past.sent != [] ==> OpeningMessages(c, INITIAL) <= s.past.sent)
            && ((exists m <- s.past.sent :: IsData(m)) ==>
                  exists m <- s.past.handled :: IsHandshake(c, m))
  {
    RunsKeepInv(c, es);
  }

  /** Accepted data is conserved: first on the wire, then queued, never reordered or lost while open. */
  lemma AcceptedData(c: Config, es: seq<Event>)
    requires Run(c, es).Some?
    ensures var s := Run(c, es).value;
            && s.wire == WireOf(c.version, s.past.sent)
            && Payloads(s.past.sent) <= s.past.accepted
            && (s.phase != Left ==> Payloads(s.past.sent) + Flatten(s.messageQueue) == s.past.accepted)
            && (Ready(s) ==> s.messageQueue == [])
            && (Ready(s) && s.phase != Left ==> Payloads(s.past.sent) == s.past.accepted)
  {
    RunsKeepInv(c, es);
    hide Run;
    AllAccepted(c, Run(c, es).value);
  }

  /** Once ready on an open socket, all accepted data is on the wire. */
  lemma AllAccepted(c: Config, s: TunnelState)
    requires Inv(c, s)
    ensures Payloads(s.past.sent) <= s.past.accepted
    ensures Ready(s) && s.phase != Left ==> Payloads(s.past.sent) == s.past.accepted
  {
    assert Payloads(s.past.sent) + [] == Payloads(s.past.sent);
  }

  /** Once the socket has left OPEN, after the first `k` events, nothing is ever written again. */
  lemma {:induction false} WireFrozen(c: Config, es: seq<Event>, k: nat)
    requires k <= |es| && Run(c, es).Some?
    ensures Run(c, es[..k]).Some?
    ensures Run(c, es[..k]).value.phase == Left ==>
              && Run(c, es).value.phase == Left
              && Run(c, es).value.wire == Run(c, es[..k]).value.wire
    decreases |es|
  {
    if k == |es| {
      assert es[..k] == es;
    } else {
      var front, last := es[..|es| - 1], es[|es| - 1];
      assert After(c, front, last).Some?;
      assert front[..k] == es[..k];
      WireFrozen(c, front, k);
      hide Step, Enabled;
      if Run(c, front).value.phase == Left { FrozenStep(c, Run(c, front).value, last); }
    }
  }

  lemma FrozenStep(c: Config, s: TunnelState, e: Event)
    requires s.phase == Left && Enabled(s, e)
    ensures Step(c, s, e).phase == Left && Step(c, s, e).wire == s.wire
  {
    hide WireOf, DataMessages, OpeningMessages, Handle, Decode;
    if e.HandleOneFrame? {
      var t := Extract(s);
      match Decode(c.version, FirstFrame(s.receiveBuffer)) {
        case None =>
        case Some(m) => HandleEffect(c, t, m);
      }
    }
  }

  /** What sending the queue or disconnecting does not do. */
  ghost predicate OnlySends(s: TunnelState, t: TunnelState) {
    && s.wire <= t.wire && t.closes == s.closes && t.past.accepted == s.past.accepted
    && t.past.received == s.past.received && t.past.handled == s.past.handled
    && (s.phase == Left ==> t.phase == Left && t.wire == s.wire)
  }

  lemma ProcessOnlySends(c: Config, s: TunnelState)
    ensures OnlySends(s, ProcessQueue(c, s)) && ProcessQueue(c, s).phase == s.phase
  {
    hide WireOf, QueueMessages;
  }

  lemma DisconnectOnlySends(c: Config, s: TunnelState)
    ensures OnlySends(s, Disconnect(c, s))
  {
    hide WireOf;
  }

  /** What handling a message does to the wire, the phase and the close listener. */
  lemma HandleEffect(c: Config, s: TunnelState, m: Message)
    ensures var t := Handle(c, s, m);
            && s.wire <= t.wire && t.closes == s.closes + (if m.msgType == Some(STREAM_RESET) then 1 else 0)
            && t.past.accepted == s.past.accepted && t.past.received == s.past.received
            && (s.phase == Left ==> t.phase == Left && t.wire == s.wire)
            && (m.msgType != Some(SESSION_RESET) ==> t.phase == s.phase)
  {
    var t := s.(past := s.past.(handled := s.past.handled + [m]));
    hide ProcessQueue, Disconnect;
    if m.msgType == Some(SESSION_RESET) {
      DisconnectOnlySends(c, t);
    } else if m.msgType == Some(STREAM_START) {
      ProcessOnlySends(c, t.(streamId := m.streamId.GetOr(0), tunnelReady := true));
    } else if m.msgType == Some(SERVICE_IDS) {
      ProcessOnlySends(c, t.(tunnelReady := true));
    }
  }

  /** What is on the wire stays there. */
  lemma WireGrows(c: Config, s: TunnelState, e: Event)
    requires Enabled(s, e)
    ensures s.wire <= Step(c, s, e).wire
  {
    hide WireOf, DataMessages, OpeningMessages, Handle, Decode;
    if e.HandleOneFrame? {
      var t := Extract(s);
      assert t.wire == s.wire;
      match Decode(c.version, FirstFrame(s.receiveBuffer)) {
        case None =>
        case Some(m) => HandleEffect(c, t, m);
      }
    }
  }

  /** Handling a chunk is a run: append it, then take frames one by one until none is left. */
  lemma {:induction false} TakeFramesIsRun(c: Config, es: seq<Event>) returns (more: seq<Event>)
    requires Run(c, es).Some?
    ensures es <= more && Run(c, more) == Some(TakeFrames(c, Run(c, es).value))
    ensures !HasFrame(Run(c, more).value.receiveBuffer)
    decreases |Run(c, es).value.receiveBuffer|
  {
    var s := Run(c, es).value;
    more := es;
    if HasFrame(s.receiveBuffer) {
      RunStep(c, es, HandleOneFrame);
      more := TakeFramesIsRun(c, es + [HandleOneFrame]);
    }
  }

  /**
    Incremental reassembly is one-shot parsing: however the input was cut, the frames handled
    after a chunk are exactly the complete frames of everything received, and the buffer is
    exactly the unfinished tail.
   */
  lemma ReassemblyIsParsing(c: Config, es: seq<Event>, chunk: seq<byte>)
    requires Run(c, es).Some? && Enabled(Run(c, es).value, Receive(chunk))
    ensures var s := Run(c, es).value;
            var t := TakeFrames(c, Append(s, chunk));
            && t.past.received == s.past.received + chunk
            && t.past.frames == Frames(t.past.received)
            && t.receiveBuffer == Tail(t.past.received)
            && t.past.handled == Decoded(c.version, Frames(t.past.received))
            && t.errors + |t.past.handled| == |t.past.frames|
  {
    RunStep(c, es, Receive(chunk));
    var more := TakeFramesIsRun(c, es + [Receive(chunk)]);
    RunsKeepInv(c, more);
    var t := Run(c, more).value;
    ParseFramed(t.past.frames, t.receiveBuffer);
    assert t.past.frames + [] == t.past.frames;
    ReceivedByTaking(c, Append(Run(c, es).value, chunk));
  }

  lemma {:induction false} ReceivedByTaking(c: Config, s: TunnelState)
    ensures TakeFrames(c, s).past.received == s.past.received
    decreases |s.receiveBuffer|
  {
    if HasFrame(s.receiveBuffer) {
      var t := Extract(s);
      match Decode(c.version, FirstFrame(s.receiveBuffer)) {
        case None =>
        case Some(m) => HandleDelivers(c, t, m);
      }
      ReceivedByTaking(c, TakeFrame(c, s));
    }
  }

  // ---- Frames that fit ----

  lemma ControlSize(c: Config, m: Message)
    requires ServiceIdFits(c) && Built(c, m) && !IsData(m)
    ensures |Encode(c.version, m)| <= MAX_FRAME
  {
    var v := c.version;
    var services := if HasServices(v) then ServiceFields(m) else [];
    assert Fields(v, m) == CommonFields(m) + services + [];
    assert CommonFields(m) + services + [] == CommonFields(m) + services;
    EncodeFieldsConcat(CommonFields(m), services);
    ControlCommonSize(m);
    if HasServices(v) { ControlServiceSize(c, m); }
  }

  lemma ControlCommonSize(m: Message)
    requires m.msgType.Some? && m.ignorable.None? && m.payload.None?
    ensures |EncodeFields(CommonFields(m))| <= 22
  {
    var t, id := TypeField(m.msgType.value), StreamField(m.streamId.GetOr(0));
    assert CommonFields(m) == [] + [t] + Optional(m.streamId.Some?, id);
    EncodeAppend([], t);
    EncodeOptional([] + [t], m.streamId.Some?, id);
    Int32RoundTrip(m.msgType.value, []);
    Int32RoundTrip(m.streamId.GetOr(0), []);
  }

  lemma ControlServiceSize(c: Config, m: Message)
    requires ServiceIdFits(c) && c.version != V1 && Built(c, m) && !IsData(m)
    ensures |EncodeFields(ServiceFields(m))| <= 2000
  {
    Pow128Values();
    hide Pow128, Varint;
    var own := Optional(m.serviceId.Some?, ServiceField(m.serviceId.GetOr([])));
    EncodeOptional([], m.serviceId.Some?, ServiceField(m.serviceId.GetOr([])));
    assert [] + own == own;
    if m.serviceId.Some? { VarintAtMost(|m.serviceId.value|, 2); }
    if m.availableServiceIds == [] {
      assert own + Available([]) == own;
    } else {
      var ids := m.availableServiceIds;
      assert ids == [c.serviceId.value] && ids[..0] == [];
      VarintAtMost(|ids[0]|, 2);
      EncodeAppend([], AvailableField(ids[0]));
      assert Available(ids) == Available(ids[..0]) + [AvailableField(ids[0])];
      assert own + Available(ids) == [] + [AvailableField(ids[0])];
    }
  }

  lemma {:induction false} AllFit(c: Config, ms: seq<Message>)
    requires ServiceIdFits(c) && forall m <- ms :: Built(c, m)
    ensures Fits(EncodeAll(c.version, ms))
  {
    if ms != [] {
      var last := ms[|ms| - 1];
      AllFit(c, ms[..|ms| - 1]);
      assert Built(c, last);
      if IsData(last) { DataFits(c, last.streamId.value, last.payload.value); } else { ControlSize(c, last); }
    }
  }

  /** A message of the peer's handshake, as short as can be. */
  function HandshakeMessage(c: Config, streamId: int32): Message {
    if c.mode == Source then EMPTY.(msgType := Some(SERVICE_IDS))
    else EMPTY.(msgType := Some(STREAM_START), streamId := Some(streamId))
  }

  lemma HandshakeFrame(c: Config, streamId: int32)
    ensures var frame := Encode(c.version, HandshakeMessage(c, streamId));
            |frame| <= MAX_FRAME && Decode(c.version, frame) == Some(HandshakeMessage(c, streamId))
  {
    var m := HandshakeMessage(c, streamId);
    hide Decode;
    CodecRoundTrip(c.version, m);
    ControlCommonSize(m);
    assert Fields(c.version, m) == CommonFields(m);
  }

  /** The transport has opened and nothing else has happened. */
  lemma OpenRun(c: Config) returns (es: seq<Event>)
    ensures Run(c, es).Some?
    ensures var s := Run(c, es).value; s.phase == Open && s.receiveBuffer == [] && s.streamId == 1 && s.hasSocket
  {
    hide WireOf;
    es := Extend(c, [], ConnectCall);
    es := Extend(c, es, SocketOpens);
  }

  /** Any stream id the transport may hold is the one of a run that gets ready. */
  lemma ReadyRun(c: Config, streamId: int32) returns (es: seq<Event>)
    requires MayHold(c, streamId)
    ensures Run(c, es).Some?
    ensures var s := Run(c, es).value; CanSend(s) && Ready(s) && s.streamId == streamId
  {
    var m := HandshakeMessage(c, streamId);
    var frame := Frame(Encode(c.version, m));
    hide Run, Decode, Encode, Frame, TakeFrame, Inv;
    es := OpenRun(c);
    RunsKeepInv(c, es);
    HandshakeFrame(c, streamId);
    OneFrame(Encode(c.version, m));
    var s := Run(c, es).value;
    assert s.receiveBuffer + frame == frame;
    OpenIsConnected(c, s);
    GettingReady(c, Append(s, frame), m);
    es := Extend(c, es, Receive(frame));
    es := Extend(c, es, HandleOneFrame);
  }

  lemma OneFrame(data: seq<byte>)
    requires |data| <= MAX_FRAME
    ensures HasFrame(Frame(data)) && FirstFrame(Frame(data)) == data
  {
    FrameReadBack(data, []);
    assert Frame(data) + [] == Frame(data);
  }

  lemma OpenIsConnected(c: Config, s: TunnelState)
    requires Inv(c, s) && s.phase == Open
    ensures s.isConnected && s.hasSocket
  {
  }

  lemma GettingReady(c: Config, s: TunnelState, m: Message)
    requires CanSend(s) && s.isConnected && IsHandshake(c, m)
    requires HasFrame(s.receiveBuffer) && Decode(c.version, FirstFrame(s.receiveBuffer)) == Some(m)
    ensures var t := TakeFrame(c, s);
            CanSend(t) && Ready(t)
            && t.streamId == if c.mode == Source then s.streamId else m.streamId.GetOr(0)
  {
    hide Decode, WireOf, QueueMessages;
    HandleHandshake(c, Extract(s), m);
    hide Handle;
  }

  /** A run in which the length of some frame wraps. */
  ghost predicate Wraps(c: Config, es: seq<Event>) {
    Run(c, es).Some? && !Fits(EncodeAll(c.version, Run(c, es).value.past.sent))
  }

  /** With a service id over the limit, a run in which a frame's length wraps. */
  lemma WrappingRun(c: Config) returns (es: seq<Event>)
    requires !ServiceIdFits(c)
    ensures Wraps(c, es)
  {
    hide *;
    var chunk := TooLongChunk(c);
    IdMayBeHeld(c);
    var ready := ReadyRun(c, WidestId(c));
    SendTooLong(c, Run(c, ready).value, chunk);
    es := SendInRun(c, ready, chunk);
    SendWraps(c, ready, chunk, es);
  }

  lemma IdMayBeHeld(c: Config)
    ensures MayHold(c, WidestId(c))
  {
  }

  lemma SendInRun(c: Config, es: seq<Event>, data: seq<byte>) returns (more: seq<Event>)
    requires Run(c, es).Some?
    ensures more == es + [SendCall(data)] && Run(c, more) == Some(Send(c, Run(c, es).value, data))
  {
    hide Run, Send;
    more := Extend(c, es, SendCall(data));
  }

  lemma SendWraps(c: Config, es: seq<Event>, chunk: seq<byte>, more: seq<Event>)
    requires Run(c, es).Some? && Run(c, more) == Some(Send(c, Run(c, es).value, chunk))
    requires !Fits(EncodeAll(c.version, Send(c, Run(c, es).value, chunk).past.sent))
    ensures Wraps(c, more)
  {
    hide Run, Send, Fits, EncodeAll;
  }

  lemma TooLongChunk(c: Config) returns (chunk: seq<byte>)
    requires !ServiceIdFits(c)
    ensures |chunk| == MAX_PAYLOAD && |Encode(c.version, DataMessage(c, WidestId(c), chunk))| > MAX_FRAME
  {
    chunk := seq(MAX_PAYLOAD, _ => 0);
    LongestFrame(c, chunk);
  }

  lemma SendTooLong(c: Config, s: TunnelState, chunk: seq<byte>)
    requires CanSend(s) && Ready(s) && |chunk| == MAX_PAYLOAD
    requires |Encode(c.version, DataMessage(c, s.streamId, chunk))| > MAX_FRAME
    ensures !Fits(EncodeAll(c.version, Send(c, s, chunk).past.sent))
  {
    hide Encode, EncodeAll, WireOf, DataMessage, Fits;
    assert DataMessages(c, s.streamId, chunk) == [DataMessage(c, s.streamId, chunk)] by {
      assert chunk[..MAX_PAYLOAD] == chunk && chunk[MAX_PAYLOAD..] == [];
    }
    LastTooLong(c.version, s.past.sent, DataMessage(c, s.streamId, chunk));
  }

  lemma LastTooLong(v: Version, ms: seq<Message>, m: Message)
    requires |Encode(v, m)| > MAX_FRAME
    ensures !Fits(EncodeAll(v, ms + [m]))
  {
    hide Encode;
    assert (ms + [m])[..|ms|] == ms;
    var frames := EncodeAll(v, ms + [m]);
    assert frames[|frames| - 1] == Encode(v, m);
  }

  /**
    The 16-bit length never wraps, in any run, exactly when the service id is within the limit
    of the transport's version and mode.
   */
  lemma FramesFitExactly(c: Config)
    ensures ServiceIdFits(c) <==> forall es :: !Wraps(c, es)
  {
    hide ServiceIdFits;
    if ServiceIdFits(c) {
      forall es ensures !Wraps(c, es) {
        if Run(c, es).Some? { RunFits(c, es); }
      }
    } else {
      var es := WrappingRun(c);
    }
  }

  lemma RunFits(c: Config, es: seq<Event>)
    requires ServiceIdFits(c) && Run(c, es).Some?
    ensures Fits(EncodeAll(c.version, Run(c, es).value.past.sent))
  {
    RunsKeepInv(c, es);
    hide Run;
    AllFit(c, Run(c, es).value.past.sent);
  }

  // ---- Two transports ----

  /** What a reader of version `v` makes of a list of messages. */
  function Projected(v: Version, ms: seq<Message>): seq<Message> {
    if ms == [] then [] else Projected(v, ms[..|ms| - 1]) + [Project(v, ms[|ms| - 1])]
  }

  lemma {:induction false} ProjectedAt(v: Version, ms: seq<Message>, i: nat)
    requires i < |ms|
    ensures |Projected(v, ms)| == |ms| && Projected(v, ms)[i] == Project(v, ms[i])
  {
    hide Project;
    var front := ms[..|ms| - 1];
    if i < |front| { ProjectedAt(v, front, i); } else if front != [] { ProjectedAt(v, front, 0); }
  }

  lemma {:induction false} ProjectedPayloads(v: Version, ms: seq<Message>)
    ensures Payloads(Projected(v, ms)) == Payloads(ms)
  {
    if ms != [] {
      var front, last := ms[..|ms| - 1], ms[|ms| - 1];
      ProjectedPayloads(v, front);
      assert Payload(Project(v, last)) == Payload(last);
      assert (Projected(v, front) + [Project(v, last)])[..|Projected(v, front)|] == Projected(v, front);
    }
  }

  lemma {:induction false} EncodeAllPrefix(v: Version, ms: seq<Message>, k: nat)
    requires k <= |ms|
    ensures |EncodeAll(v, ms)| == |ms| && EncodeAll(v, ms[..k]) == EncodeAll(v, ms)[..k]
  {
    hide Encode;
    if k < |ms| {
      var front := ms[..|ms| - 1];
      EncodeAllPrefix(v, front, k);
      assert front[..k] == ms[..k];
    } else {
      assert ms[..k] == ms;
      if ms != [] { EncodeAllPrefix(v, ms[..|ms| - 1], 0); }
    }
  }

  /** Frames that fit decode, to any version, as what that version knows of the messages. */
  lemma {:induction false} WireDecodes(v: Version, reader: Version, ms: seq<Message>)
    requires Fits(EncodeAll(v, ms))
    ensures Decoded(reader, EncodeAll(v, ms)) == Projected(Older(reader, v), ms)
  {
    hide Encode, Decode, Project;
    if ms != [] {
      var front, last := ms[..|ms| - 1], ms[|ms| - 1];
      var frames := EncodeAll(v, front);
      assert EncodeAll(v, ms) == frames + [Encode(v, last)];
      assert (frames + [Encode(v, last)])[..|frames|] == frames;
      assert EncodeAll(v, ms)[|frames|] == Encode(v, last);
      assert Fits(frames) by {
        forall i | 0 <= i < |frames| ensures |frames[i]| <= MAX_FRAME {
          assert EncodeAll(v, ms)[i] == frames[i];
        }
      }
      WireDecodes(v, reader, front);
      ShortEncoding(v, last);
      CrossVersion(reader, v, last);
    }
  }

  /** `b` has received part of what `a` put on its wire, none of whose frames wrapped. */
  ghost predicate Joined(c: Config, a: TunnelState, b: TunnelState) {
    b.past.received <= a.wire && Fits(EncodeAll(c.version, a.past.sent))
  }

  /**
    However the network re-splits the bytes, the receiver handles exactly the sender's first
    messages, one per frame and none lost, as far as its version knows them; all of them once
    everything is delivered.
   */
  lemma MessagesArrive(c: Config, a: TunnelState, d: Config, b: TunnelState)
    requires WireFaithful(c, a) && Reassembled(d, b) && Joined(c, a, b)
    ensures |b.past.frames| <= |a.past.sent| && b.errors == 0
    ensures b.past.handled == Projected(Older(d.version, c.version), a.past.sent[..|b.past.frames|])
    ensures Flatten(b.delivered) == Payloads(a.past.sent[..|b.past.frames|]) <= Payloads(a.past.sent)
    ensures b.past.received == a.wire && !HasFrame(b.receiveBuffer) ==> |b.past.frames| == |a.past.sent|
  {
    var k, sent, v := |b.past.frames|, a.past.sent, c.version;
    FramesArrive(EncodeAll(v, sent), a.wire, b.past.frames, b.receiveBuffer, b.past.received);
    hide Built, EncodeAll, Decoded, WireOf, Framed, HasFrame, Fits;
    EncodeAllPrefix(v, sent, 0);
    EncodeAllPrefix(v, sent, k);
    FitsPrefix(EncodeAll(v, sent), k);
    WireDecodes(v, d.version, sent[..k]);
    AllDecode(Older(d.version, v), sent[..k]);
    PayloadsPrefix(sent[..k], sent);
  }

  lemma FramesArrive(all: seq<seq<byte>>, wire: seq<byte>, taken: seq<seq<byte>>, buffer: seq<byte>,
                     received: seq<byte>)
    requires Fits(all) && wire == Framed(all)
    requires Fits(taken) && received == Framed(taken) + buffer && received <= wire
    ensures |taken| <= |all| && taken == all[..|taken|]
    ensures received == wire && !HasFrame(buffer) ==> |taken| == |all|
  {
    hide Framed, HasFrame, Fits;
    var missing := wire[|received|..];
    assert received + missing == wire;
    TakenIsPrefix(taken, buffer, missing, all);
  }

  lemma FitsPrefix(frames: seq<seq<byte>>, k: nat)
    requires k <= |frames| && Fits(frames)
    ensures Fits(frames[..k])
  {
  }

  lemma AllDecode(v: Version, ms: seq<Message>)
    ensures |Projected(v, ms)| == |ms| && Payloads(Projected(v, ms)) == Payloads(ms)
  {
    ProjectedPayloads(v, ms);
    if ms != [] { ProjectedAt(v, ms, 0); }
  }

  /**
    The stream, end to end. Whatever two transports do, and however the network re-splits the
    bytes one of them emitted, as long as no frame's length wrapped: what the other one's listener
    got is a prefix of the data given to `send`; it is all of it once everything is delivered and
    handled and the sender is ready on an open socket. The two may even speak different protocol
    versions.
   */
  lemma StreamEndToEnd(c: Config, es: seq<Event>, d: Config, fs: seq<Event>)
    requires Run(c, es).Some? && Run(d, fs).Some?
    requires Joined(c, Run(c, es).value, Run(d, fs).value)
    ensures var a, b := Run(c, es).value, Run(d, fs).value;
            && b.errors == 0
            && Flatten(b.delivered) <= a.past.accepted
            && (b.past.received == a.wire && !HasFrame(b.receiveBuffer) ==>
                  Flatten(b.delivered) == Payloads(a.past.sent))
            && (b.past.received == a.wire && !HasFrame(b.receiveBuffer) && a.phase == Open && Ready(a) ==>
                  Flatten(b.delivered) == a.past.accepted)
  {
    RunsKeepInv(c, es);
    RunsKeepInv(d, fs);
    hide Inv, Run, WireOf, EncodeAll, Fits, HasFrame;
    AllAccepted(c, Run(c, es).value);
    StreamArrives(c, Run(c, es).value, d, Run(d, fs).value);
  }

  lemma StreamArrives(c: Config, a: TunnelState, d: Config, b: TunnelState)
    requires Inv(c, a) && Inv(d, b) && Joined(c, a, b)
    ensures b.errors == 0 && Flatten(b.delivered) <= Payloads(a.past.sent)
    ensures b.past.received == a.wire && !HasFrame(b.receiveBuffer) ==> Flatten(b.delivered) == Payloads(a.past.sent)
  {
    MessagesArrive(c, a, d, b);
    hide Inv, Joined, HasFrame, Flatten, Payloads;
    assert a.past.sent[..|a.past.sent|] == a.past.sent;
  }
}
