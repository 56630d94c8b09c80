/**
  What each operation of the transport does, in the message types and bytes of the protocol: what
  every message looks like on the wire, what handling each type does, and what ends a session.
 */
module TunnelEffects {
  import opened Options
  import opened Wire
  import opened Codec
  import opened CodecLaws
  import opened WireFormat
  import opened Blocks
  import opened Framing
  import opened TunnelMessages
  import opened Tunnel
  import opened TunnelRuns
  import opened EndToEnd

  // ---- On the wire ----

  /** The service id DATA messages carry: none in V1, and none when it is empty. */
  function Multiplexed(c: Config): Option<seq<byte>> {
    if c.version == V1 || c.serviceId == Some([]) then None else c.serviceId
  }

  lemma SmallNumber(t: int32)
    requires 0 <= t < 128
    ensures Int32(t) == [t]
  {
  }

  /** STREAM_START is type 2 and carries the service id as configured. */
  lemma StreamStartBytes(c: Config, streamId: int32)
    ensures Encode(c.version, StreamStart(c, streamId)) ==
            [8, 2, 16] + Int32(streamId) + if c.version == V1 then [] else TextRecord(42, c.serviceId)
  {
    SmallNumber(2);
    MessageBytes(c.version, StreamStart(c, streamId));
    hide Encode, Int32, Varint;
  }

  /** STREAM_RESET is type 3 and carries the stream id only. */
  lemma StreamResetBytes(v: Version, streamId: int32)
    ensures Encode(v, StreamReset(streamId)) == [8, 3, 16] + Int32(streamId)
  {
    SmallNumber(3);
    MessageBytes(v, StreamReset(streamId));
    hide Encode, Int32, Varint;
  }

  /** SERVICE_IDS is type 5 and announces the one service id. */
  lemma ServiceIdsBytes(v: Version, serviceId: seq<byte>)
    ensures Encode(v, ServiceIds(serviceId)) == [8, 5] + if v == V1 then [] else TextRecord(50, Some(serviceId))
  {
    SmallNumber(5);
    assert [serviceId][..0] == [];
    assert ListRecords(50, [serviceId]) == [] + TextRecord(50, Some(serviceId));
    MessageBytes(v, ServiceIds(serviceId));
    hide Encode, Int32, Varint, ListRecords;
  }

  /** DATA is type 1; V2 and V3 add the service id, and V3 connection 1. */
  lemma DataBytes(c: Config, streamId: int32, chunk: seq<byte>)
    ensures Encode(c.version, DataMessage(c, streamId, chunk)) ==
            [8, 1, 16] + Int32(streamId) + TextRecord(34, Some(chunk)) + TextRecord(42, Multiplexed(c))
            + if c.version == V3 then [56, 1] else []
  {
    DataRecords(c.version, DataMessage(c, streamId, chunk), streamId, chunk);
    hide Encode, Int32, TextRecord;
  }

  lemma DataRecords(v: Version, m: Message, streamId: int32, chunk: seq<byte>)
    requires m.msgType == Some(1) && m.streamId == Some(streamId) && m.ignorable.None? && m.payload == Some(chunk)
    requires m.availableServiceIds == [] && (v == V1 ==> m.serviceId.None?)
    requires m.connectionId == if v == V3 then Some(1) else None
    ensures Encode(v, m) ==
            [8, 1, 16] + Int32(streamId) + TextRecord(34, Some(chunk)) + TextRecord(42, m.serviceId)
            + if v == V3 then [56, 1] else []
  {
    SmallNumber(1);
    assert Varint(1) == [1];
    assert ListRecords(50, []) == [] && TextRecord(42, None) == [];
    assert NumberRecord(8, Some(1)) == [8, 1] && NumberRecord(16, Some(streamId)) == [16] + Int32(streamId);
    MessageBytes(v, m);
    hide Encode, Int32, Varint, ListRecords, TextRecord, NumberRecord;
    assert [8, 1] + ([16] + Int32(streamId)) + [] == [8, 1, 16] + Int32(streamId);
  }

  /** What counts as data, as a reset and as the handshake elsewhere, by number. */
  lemma TypeNumbers(c: Config, m: Message)
    ensures IsData(m) <==> m.msgType == Some(1)
    ensures IsReset(m) <==> m.msgType == Some(3)
    ensures IsHandshake(c, m) <==> m.msgType == Some(if c.mode == Source then 5 else 2)
  {
  }

  // ---- Over runs ----

  /** What DATA messages carry, whichever call or handshake sent them. */
  ghost predicate IsDataOf(c: Config, streamId: int32, m: Message) {
    && m.msgType == Some(1) && m.streamId == Some(streamId) && m.ignorable.None?
    && m.payload.Some? && 1 <= |m.payload.value| <= 64512
    && m.serviceId == Multiplexed(c) && m.availableServiceIds == []
    && m.connectionId == if c.version == V3 then Some(1) else None
  }

  lemma CutIsDataOf(c: Config, streamId: int32, m: Message)
    requires IsCut(c, streamId, m)
    ensures IsDataOf(c, streamId, m)
  {
  }

  /** How many messages open the session: a destination has none without a service id. */
  function Openings(c: Config): nat {
    if c.mode == Source || (c.serviceId.Some? && c.serviceId.value != []) then 1 else 0
  }

  predicate IsOpening(c: Config, m: Message) {
    if c.mode == Source then m == Message(Some(2), Some(1), None, None, c.serviceId, [], None)
    else c.serviceId.Some? && m == Message(Some(5), None, None, None, None, [c.serviceId.value], None)
  }

  ghost predicate IsLater(c: Config, sent: seq<Message>, i: nat)
    requires i < |sent|
  {
    && sent[i].streamId.Some? && (c.mode == Source ==> sent[i].streamId.value == 1)
    && (|| IsDataOf(c, sent[i].streamId.value, sent[i])
        || (i == |sent| - 1 && sent[i] == Message(Some(3), sent[i].streamId, None, None, None, [], None)))
  }

  /**
    In every run the messages sent are the opening one, if the mode has one, then DATA, then at most
    one reset: a source opens with its stream 1 and its service id, a destination by announcing its
    service id, if it has one that is not empty.
   */
  lemma SentShape(c: Config, es: seq<Event>)
    requires Run(c, es).Some?
    ensures var sent := Run(c, es).value.past.sent;
            && (Run(c, es).value.phase == Open ==> |sent| >= Openings(c))
            && (sent != [] && Openings(c) == 1 ==> IsOpening(c, sent[0]))
            && forall i :: Openings(c) <= i < |sent| ==> IsLater(c, sent, i)
  {
    RunsKeepInv(c, es);
    hide Run, IsOpening, IsLater;
    ShapeOf(c, Run(c, es).value);
  }

  lemma ShapeOf(c: Config, s: TunnelState)
    requires Inv(c, s)
    ensures s.phase == Open ==> |s.past.sent| >= Openings(c)
    ensures s.past.sent != [] && Openings(c) == 1 ==> IsOpening(c, s.past.sent[0])
    ensures forall i :: Openings(c) <= i < |s.past.sent| ==> IsLater(c, s.past.sent, i)
  {
    var sent, opening := s.past.sent, OpeningMessages(c, INITIAL);
    OpeningIs(c);
    assert sent != [] ==> opening <= sent;
    hide WireOf, OpeningMessages, IsDataOf, IsOpening;
    forall i | Openings(c) <= i < |sent| ensures IsLater(c, sent, i) {
      assert sent[i] in sent && Built(c, sent[i]);
      BuiltAfterOpening(c, sent[i]);
    }
  }

  lemma OpeningIs(c: Config)
    ensures var opening := OpeningMessages(c, INITIAL);
            |opening| == Openings(c) && (opening != [] ==> IsOpening(c, opening[0]))
  {
  }

  lemma BuiltAfterOpening(c: Config, m: Message)
    requires Built(c, m) && (IsData(m) || IsReset(m))
    ensures m.streamId.Some? && MayHold(c, m.streamId.value)
    ensures IsData(m) ==> IsDataOf(c, m.streamId.value, m)
    ensures IsReset(m) ==> m == StreamReset(m.streamId.value)
    ensures !(IsData(m) && IsReset(m))
  {
    if IsData(m) { CutIsDataOf(c, m.streamId.value, m); }
  }

  // ---- Sending ----

  /** What was added to the wire between two states. */
  function Added(s: TunnelState, t: TunnelState): seq<Message>
    requires s.past.sent <= t.past.sent
  {
    t.past.sent[|s.past.sent|..]
  }

  /** Data goes out at once exactly on a ready transport, and is queued on any other. */
  lemma SendEffect(c: Config, s: TunnelState, data: seq<byte>)
    ensures var t := Send(c, s, data);
            && s.past.sent <= t.past.sent && t.past.accepted == s.past.accepted + data
            && (!(s.isConnected && s.hasSocket && s.tunnelReady) ==>
                  t.messageQueue == s.messageQueue + [data] && t.wire == s.wire && Added(s, t) == [])
            && (s.isConnected && s.hasSocket && s.tunnelReady ==> t.messageQueue == s.messageQueue)
            && (s.isConnected && s.hasSocket && s.tunnelReady && s.phase == Open ==>
                  && Payloads(Added(s, t)) == data
                  && (forall m <- Added(s, t) :: IsDataOf(c, s.streamId, m))
                  && t.wire == s.wire + WireOf(c.version, Added(s, t)))
            && (s.phase != Open ==> t.wire == s.wire && Added(s, t) == [])
  {
    hide WireOf, IsDataOf, DataMessages, IsCut;
    var ms := DataMessages(c, s.streamId, data);
    CutConserves(c, s.streamId, data);
    forall m <- ms ensures IsDataOf(c, s.streamId, m) {
      CutIsDataOf(c, s.streamId, m);
    }
    assert (s.past.sent + ms)[|s.past.sent|..] == ms;
  }

  // ---- Handling ----

  /** Type 1: the payload goes to the listener, and nothing else happens. */
  lemma DataEffect(c: Config, s: TunnelState, m: Message)
    requires m.msgType == Some(1)
    ensures Handle(c, s, m) == s.(delivered := s.delivered + [if m.payload.Some? then m.payload.value else []],
                                  past := s.past.(handled := s.past.handled + [m]))
  {
  }

  ghost predicate QueueOut(c: Config, s: TunnelState, t: TunnelState, streamId: int32) {
    && t.tunnelReady && t.messageQueue == [] && t.streamId == streamId
    && s.past.sent <= t.past.sent
    && (s.hasSocket && s.phase == Open ==>
          && Payloads(Added(s, t)) == Flatten(s.messageQueue)
          && forall m <- Added(s, t) :: IsDataOf(c, streamId, m))
    && (!(s.hasSocket && s.phase == Open) ==> Added(s, t) == [] && t.wire == s.wire)
    && t.isConnected == s.isConnected && t.hasSocket == s.hasSocket && t.phase == s.phase
    && t.delivered == s.delivered && t.closes == s.closes
  }

  lemma ProcessEffect(c: Config, s: TunnelState)
    requires s.tunnelReady
    ensures QueueOut(c, s, ProcessQueue(c, s), s.streamId)
  {
    hide WireOf, IsDataOf, QueueMessages, IsCut;
    var ms := QueueMessages(c, s.streamId, s.messageQueue);
    QueueConserves(c, s.streamId, s.messageQueue);
    forall m <- ms ensures IsDataOf(c, s.streamId, m) {
      CutIsDataOf(c, s.streamId, m);
    }
    assert (s.past.sent + ms)[|s.past.sent|..] == ms;
  }

  lemma AddedFrom(c: Config, s: TunnelState, u: TunnelState, t: TunnelState, streamId: int32)
    requires QueueOut(c, u, t, streamId)
    requires u == s.(streamId := u.streamId, tunnelReady := true, past := s.past.(handled := u.past.handled))
    ensures QueueOut(c, s, t, streamId)
  {
    hide IsDataOf;
  }

  /** Type 2: a destination takes the stream id, gets ready and sends its queue; a source ignores it. */
  lemma StreamStartEffect(c: Config, s: TunnelState, m: Message)
    requires m.msgType == Some(2)
    ensures c.mode == Destination ==>
              QueueOut(c, s, Handle(c, s, m), if m.streamId.Some? then m.streamId.value else 0)
    ensures c.mode == Source ==> Handle(c, s, m) == s.(past := s.past.(handled := s.past.handled + [m]))
  {
    var u := s.(streamId := m.streamId.GetOr(0), tunnelReady := true,
                past := s.past.(handled := s.past.handled + [m]));
    ProcessEffect(c, u);
    AddedFrom(c, s, u, ProcessQueue(c, u), u.streamId);
    hide ProcessQueue, Disconnect, QueueOut;
  }

  /** Type 3: the close listener runs, and nothing else happens. */
  lemma StreamResetEffect(c: Config, s: TunnelState, m: Message)
    requires m.msgType == Some(3)
    ensures Handle(c, s, m) == s.(closes := s.closes + 1, past := s.past.(handled := s.past.handled + [m]))
  {
  }

  /** Giving up the socket: a reset of the stream goes out if it is open, and the transport is closed. */
  ghost predicate GivenUp(s: TunnelState, t: TunnelState) {
    && !t.hasSocket && !t.isConnected && !t.tunnelReady
    && t.phase == (if s.hasSocket then Left else s.phase)
    && s.past.sent <= t.past.sent
    && (s.hasSocket && s.phase == Open ==>
          Added(s, t) == [Message(Some(3), Some(s.streamId), None, None, None, [], None)])
    && (!(s.hasSocket && s.phase == Open) ==> Added(s, t) == [] && t.wire == s.wire)
    && t.messageQueue == s.messageQueue && t.streamId == s.streamId
    && t.delivered == s.delivered && t.closes == s.closes
  }

  lemma DisconnectEffect(c: Config, s: TunnelState)
    ensures GivenUp(s, Disconnect(c, s))
  {
    hide WireOf;
    assert (s.past.sent + [StreamReset(s.streamId)])[|s.past.sent|..] == [StreamReset(s.streamId)];
  }

  /** Type 4: the transport disconnects. */
  lemma SessionResetEffect(c: Config, s: TunnelState, m: Message)
    requires m.msgType == Some(4)
    ensures GivenUp(s, Handle(c, s, m))
  {
    DisconnectEffect(c, s.(past := s.past.(handled := s.past.handled + [m])));
    hide ProcessQueue, Disconnect;
  }

  /** Type 5: a source gets ready and sends its queue; a destination ignores it. */
  lemma ServiceIdsEffect(c: Config, s: TunnelState, m: Message)
    requires m.msgType == Some(5)
    ensures c.mode == Source ==> QueueOut(c, s, Handle(c, s, m), s.streamId)
    ensures c.mode == Destination ==> Handle(c, s, m) == s.(past := s.past.(handled := s.past.handled + [m]))
  {
    var u := s.(tunnelReady := true, past := s.past.(handled := s.past.handled + [m]));
    ProcessEffect(c, u);
    AddedFrom(c, s, u, ProcessQueue(c, u), u.streamId);
    hide ProcessQueue, Disconnect, QueueOut;
  }

  /** Any other type, and an absent one, is ignored. */
  lemma OtherEffect(c: Config, s: TunnelState, m: Message)
    requires m.msgType.None? || !(1 <= m.msgType.value <= 5)
    ensures Handle(c, s, m) == s.(past := s.past.(handled := s.past.handled + [m]))
  {
    hide ProcessQueue, Disconnect;
  }

  // ---- What ends a session ----

  /** No socket is held and the transport is not connected; a socket there was has left OPEN. */
  predicate Ended(s: TunnelState) {
    !s.isConnected && !s.tunnelReady && s.phase == Left
  }

  /** The socket's close event ends the session, and runs the close listener once. */
  lemma CloseEventEffect(s: TunnelState)
    ensures Closed(s) == s.(phase := Left, isConnected := false, tunnelReady := false, closes := s.closes + 1)
    ensures Ended(Closed(s))
  {
  }

  /** A transport that has left OPEN and is not connected never connects again. */
  lemma StaysEnded(c: Config, s: TunnelState, e: Event)
    requires Enabled(s, e) && s.phase == Left && !s.isConnected
    ensures var t := Step(c, s, e); t.phase == Left && !t.isConnected && t.wire == s.wire
    ensures e.SendCall? ==> Step(c, s, e).messageQueue == s.messageQueue + [e.data]
  {
    FrozenStep(c, s, e);
    hide WireOf, DataMessages, OpeningMessages, QueueMessages, Decode, Handle;
    if e.HandleOneFrame? {
      var t := Extract(s);
      match Decode(c.version, FirstFrame(s.receiveBuffer)) {
        case None =>
        case Some(m) => HandleStaysUnconnected(c, t, m);
      }
    }
  }

  lemma HandleStaysUnconnected(c: Config, s: TunnelState, m: Message)
    requires !s.isConnected
    ensures !Handle(c, s, m).isConnected
  {
    hide WireOf, QueueMessages;
  }

  /** From the moment a session has ended nothing is written and nothing is ever ready again. */
  lemma {:induction false} EndedForGood(c: Config, es: seq<Event>, k: nat)
    requires k <= |es| && Run(c, es).Some?
    ensures Run(c, es[..k]).Some?
    ensures Ended(Run(c, es[..k]).value) ==>
              var s, t := Run(c, es[..k]).value, Run(c, es).value;
              t.wire == s.wire && t.phase == Left && !t.isConnected
    decreases |es|
  {
    if k == |es| {
      assert es[..k] == es;
    } else {
      var front, last := es[..|es| - 1], es[|es| - 1];
      assert After(c, front, last).Some?;
      assert front[..k] == es[..k];
      EndedForGood(c, front, k);
      hide Step, Enabled;
      if Ended(Run(c, es[..k]).value) { StaysEnded(c, Run(c, front).value, last); }
    }
  }

  /**
    `disconnect` in any phase gives up the socket; if `connect` was called before, nothing is written
    after it and the transport is never ready again.
   */
  lemma DisconnectEnds(c: Config, es: seq<Event>, k: nat)
    requires k < |es| && es[k].DisconnectCall? && Run(c, es).Some?
    ensures Run(c, es[..k]).Some? && Run(c, es[..k + 1]).Some?
    ensures var s, q, t := Run(c, es[..k]).value, Run(c, es[..k + 1]).value, Run(c, es).value;
            && GivenUp(s, q)
            && (s.phase == NotCreated ==> q == s)
            && (s.phase != NotCreated ==> t.wire == q.wire && t.phase == Left && !t.isConnected)
  {
    EndedForGood(c, es, k);
    EndedForGood(c, es, k + 1);
    MomentStep(c, es, k);
    RunsKeepInv(c, es[..k]);
    hide Run, GivenUp;
    DisconnectEffect(c, Run(c, es[..k]).value);
    DisconnectPhase(c, Run(c, es[..k]).value);
  }

  lemma DisconnectPhase(c: Config, s: TunnelState)
    requires Inv(c, s)
    ensures s.phase != NotCreated ==> Ended(Disconnect(c, s))
    ensures s.phase == NotCreated ==> Disconnect(c, s) == s
  {
    hide WireOf;
  }

  lemma MomentStep(c: Config, es: seq<Event>, k: nat)
    requires k < |es| && Run(c, es[..k + 1]).Some?
    ensures Run(c, es[..k]).Some? && Enabled(Run(c, es[..k]).value, es[k])
    ensures Run(c, es[..k + 1]).value == Step(c, Run(c, es[..k]).value, es[k])
  {
    hide Step, Enabled;
    assert es[..k + 1][..k] == es[..k];
    assert After(c, es[..k], es[k]).Some?;
  }

  /** Handling a message of type 4 in a run ends the session for good. */
  lemma SessionResetEnds(c: Config, es: seq<Event>, k: nat, m: Message)
    requires k < |es| && es[k].HandleOneFrame? && Run(c, es).Some?
    requires Run(c, es[..k]).Some? && HasFrame(Run(c, es[..k]).value.receiveBuffer)
    requires Decode(c.version, FirstFrame(Run(c, es[..k]).value.receiveBuffer)) == Some(m) && m.msgType == Some(4)
    ensures Run(c, es[..k + 1]).Some?
    ensures var s, q, t := Run(c, es[..k]).value, Run(c, es[..k + 1]).value, Run(c, es).value;
            && GivenUp(s, q) && q.phase == Left
            && t.wire == q.wire && t.phase == Left && !t.isConnected
  {
    EndedForGood(c, es, k + 1);
    MomentStep(c, es, k);
    RunsKeepInv(c, es[..k]);
    hide Run, Decode;
    var s := Run(c, es[..k]).value;
    BufferNeedsSocket(c, s);
    SessionResetEffect(c, Extract(s), m);
    HandledInRun(c, s, m);
    hide Handle;
  }

  lemma HandledInRun(c: Config, s: TunnelState, m: Message)
    requires HasFrame(s.receiveBuffer) && Decode(c.version, FirstFrame(s.receiveBuffer)) == Some(m)
    requires Inv(c, s) && (s.phase == Open || s.phase == Left)
    requires GivenUp(Extract(s), Handle(c, Extract(s), m))
    ensures TakeFrame(c, s) == Handle(c, Extract(s), m)
    ensures GivenUp(s, TakeFrame(c, s)) && TakeFrame(c, s).phase == Left && Ended(TakeFrame(c, s))
  {
    hide Decode, Handle;
  }
}
