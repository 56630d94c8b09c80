/**
  A source and a destination joined by a network that delivers what each puts on its wire, in
  order and cut anywhere: the handshake, getting everything across, and disconnecting.
 */
module TunnelPeers {
  import opened Options
  import opened Wire
  import opened Codec
  import opened CodecLaws
  import opened Blocks
  import opened Framing
  import opened TunnelMessages
  import opened Tunnel
  import opened TunnelRuns
  import opened EndToEnd

  // ---- What the messages handled can be ----

  ghost predicate FromPeer(v: Version, sent: seq<Message>, m: Message) {
    exists x <- sent :: m == Project(v, x)
  }

  /** Every message handled is one the peer built, as far as the reader's version knows it. */
  lemma HandledFromPeer(c: Config, a: TunnelState, d: Config, b: TunnelState)
    requires Inv(c, a) && Inv(d, b) && Joined(c, a, b)
    ensures forall m <- b.past.handled :: FromPeer(Older(d.version, c.version), a.past.sent, m)
    ensures |b.past.handled| == |b.past.frames|
    ensures b.past.frames != [] ==>
              a.past.sent != []
              && b.past.handled[0] == Project(Older(d.version, c.version), a.past.sent[0])
  {
    MessagesArrive(c, a, d, b);
    hide Inv, Joined, Project;
    var v, ms := Older(d.version, c.version), a.past.sent[..|b.past.frames|];
    AllDecode(v, ms);
    forall i | 0 <= i < |ms| ensures Projected(v, ms)[i] == Project(v, a.past.sent[i]) {
      ProjectedAt(v, ms, i);
    }
  }

  lemma SentAreBuilt(c: Config, a: TunnelState)
    requires Inv(c, a)
    ensures forall x <- a.past.sent :: Built(c, x)
    ensures a.past.sent != [] ==> OpeningMessages(c, INITIAL) <= a.past.sent
    ensures a.phase == Open ==> OpeningMessages(c, INITIAL) <= a.past.sent
    ensures MayHold(c, a.streamId)
  {
  }

  /** A source numbers all it sends with stream 1, and never sends service ids. */
  lemma SourceBuilds(c: Config, m: Message)
    requires c.mode == Source && Built(c, m)
    ensures m.streamId == Some(1) && m.msgType != Some(SERVICE_IDS)
  {
  }

  lemma DestinationBuilds(d: Config, m: Message)
    requires d.mode == Destination && Built(d, m) && m.msgType == Some(SERVICE_IDS)
    ensures HasServiceId(d)
  {
  }

  lemma NobodyResetsSessions(c: Config, m: Message)
    requires Built(c, m)
    ensures m.msgType != Some(SESSION_RESET)
  {
  }

  // ---- The handshake ----

  lemma HandshakeGivesReady(c: Config, s: TunnelState)
    requires Inv(c, s) && s.phase == Open
    ensures Ready(s) <==> HandshakeDone(c, s)
    ensures Ready(s) ==> s.messageQueue == []
    ensures s.streamId == 1 || exists m <- s.past.handled :: IsHandshake(c, m) && m.streamId.GetOr(0) == s.streamId
  {
  }

  lemma DestinationReady(c: Config, a: TunnelState, d: Config, b: TunnelState)
    requires c.mode == Source && d.mode == Destination
    requires Inv(c, a) && Inv(d, b) && Joined(c, a, b)
    requires b.phase == Open
    ensures Ready(b) <==> b.past.frames != []
    ensures Ready(b) ==> b.messageQueue == [] && b.streamId == a.streamId
  {
    var v := Older(d.version, c.version);
    HandledFromPeer(c, a, d, b);
    SentAreBuilt(c, a);
    HandshakeGivesReady(d, b);
    hide Inv, Joined, Built;
    if b.past.frames != [] {
      assert a.past.sent[0] == OpeningMessages(c, INITIAL)[0];
      assert IsHandshake(d, b.past.handled[0]);
    }
    forall m <- b.past.handled ensures m.streamId == Some(1) {
      var x :| x in a.past.sent && m == Project(v, x);
      SourceBuilds(c, x);
    }
  }

  lemma SourceReady(c: Config, a: TunnelState, d: Config, b: TunnelState)
    requires c.mode == Source && d.mode == Destination
    requires Inv(c, a) && Inv(d, b) && Joined(d, b, a)
    requires a.phase == Open
    ensures Ready(a) <==> HasServiceId(d) && a.past.frames != []
    ensures Ready(a) ==> a.messageQueue == []
  {
    var v := Older(c.version, d.version);
    HandledFromPeer(d, b, c, a);
    SentAreBuilt(d, b);
    HandshakeGivesReady(c, a);
    hide Inv, Joined, Built;
    if HasServiceId(d) {
      if a.past.frames != [] {
        assert b.past.sent[0] == OpeningMessages(d, INITIAL)[0];
        assert IsHandshake(c, a.past.handled[0]);
      }
    } else {
      forall m <- a.past.handled ensures !IsHandshake(c, m) {
        var x :| x in b.past.sent && m == Project(v, x);
        if IsHandshake(c, m) { DestinationBuilds(d, x); }
      }
    }
  }

  /**
    In all runs of a source and a destination joined both ways: an open destination is ready exactly
    when it has handled a frame, and then has an empty queue and the source's stream id; an open
    source is ready exactly when it has handled a frame and the destination has a service id to
    announce, and then has an empty queue.
   */
  lemma HandshakeCompletes(c: Config, es: seq<Event>, d: Config, fs: seq<Event>)
    requires c.mode == Source && d.mode == Destination
    requires Run(c, es).Some? && Run(d, fs).Some?
    requires Joined(c, Run(c, es).value, Run(d, fs).value) && Joined(d, Run(d, fs).value, Run(c, es).value)
    ensures var a, b := Run(c, es).value, Run(d, fs).value;
            && (b.phase == Open ==> (Ready(b) <==> b.past.frames != []))
            && (b.phase == Open && Ready(b) ==> b.messageQueue == [] && b.streamId == a.streamId)
            && (a.phase == Open ==> (Ready(a) <==> HasServiceId(d) && a.past.frames != []))
            && (a.phase == Open && Ready(a) ==> a.messageQueue == [])
  {
    RunsKeepInv(c, es);
    RunsKeepInv(d, fs);
    hide Run, Inv, Joined, Ready;
    var a, b := Run(c, es).value, Run(d, fs).value;
    if b.phase == Open { DestinationReady(c, a, d, b); }
    if a.phase == Open { SourceReady(c, a, d, b); }
  }

  // ---- Getting everything across ----

  ghost predicate NoSessionReset(ms: seq<Message>) {
    forall m <- ms :: m.msgType != Some(SESSION_RESET)
  }

  /** Ready, with nothing left to send. */
  predicate Idle(s: TunnelState) {
    Ready(s) && s.messageQueue == []
  }

  /** Taking frames changes nothing about sending but for the handshake. */
  ghost predicate StaysOpen(s: TunnelState, t: TunnelState) {
    && t.phase == Open && t.past.accepted == s.past.accepted && t.past.received == s.past.received
    && s.wire <= t.wire
    && (Idle(s) ==> Idle(t) && t.wire == s.wire)
  }

  lemma HandleStaysOpen(c: Config, s: TunnelState, m: Message)
    requires s.phase == Open && m.msgType != Some(SESSION_RESET)
    ensures StaysOpen(s, Handle(c, s, m))
  {
    HandleEffect(c, s, m);
    var t := s.(past := s.past.(handled := s.past.handled + [m]));
    if Idle(s) {
      IdleProcess(c, t.(streamId := m.streamId.GetOr(0), tunnelReady := true));
      IdleProcess(c, t.(tunnelReady := true));
    }
    hide ProcessQueue, Disconnect;
  }

  lemma IdleProcess(c: Config, s: TunnelState)
    requires Idle(s)
    ensures ProcessQueue(c, s) == s
  {
    EmitNothing(c, s);
    assert QueueMessages(c, s.streamId, []) == [];
  }

  lemma TakeStaysOpen(c: Config, s: TunnelState)
    requires s.phase == Open && HasFrame(s.receiveBuffer)
    requires NoSessionReset(TakeFrame(c, s).past.handled)
    ensures StaysOpen(s, TakeFrame(c, s))
  {
    hide Handle, Decode;
    var t := Extract(s);
    match Decode(c.version, FirstFrame(s.receiveBuffer)) {
      case None =>
      case Some(m) =>
        HandleDelivers(c, t, m);
        assert m in TakeFrame(c, s).past.handled;
        HandleStaysOpen(c, t, m);
    }
  }

  lemma TakeHandles(c: Config, s: TunnelState)
    requires HasFrame(s.receiveBuffer)
    ensures s.past.handled <= TakeFrame(c, s).past.handled
  {
    hide Handle, Decode;
    match Decode(c.version, FirstFrame(s.receiveBuffer)) {
      case None =>
      case Some(m) => HandleDelivers(c, Extract(s), m);
    }
  }

  lemma {:induction false} TakingHandles(c: Config, s: TunnelState)
    ensures s.past.handled <= TakeFrames(c, s).past.handled
    decreases |s.receiveBuffer|
  {
    hide TakeFrame;
    if HasFrame(s.receiveBuffer) {
      TakeHandles(c, s);
      TakingHandles(c, TakeFrame(c, s));
    }
  }

  lemma {:induction false} TakingStaysOpen(c: Config, s: TunnelState)
    requires s.phase == Open && NoSessionReset(TakeFrames(c, s).past.handled)
    ensures StaysOpen(s, TakeFrames(c, s))
    decreases |s.receiveBuffer|
  {
    hide TakeFrame, Idle;
    if HasFrame(s.receiveBuffer) {
      var t := TakeFrame(c, s);
      TakingHandles(c, t);
      TakeStaysOpen(c, s);
      TakingStaysOpen(c, t);
    }
  }

  /** The network delivers all that is missing, and the receiver handles it. */
  lemma DeliverAll(c: Config, a: TunnelState, d: Config, fs: seq<Event>) returns (gs: seq<Event>)
    requires Inv(c, a) && Run(d, fs).Some? && Run(d, fs).value.phase == Open
    requires Joined(c, a, Run(d, fs).value)
    ensures fs <= gs && Run(d, gs).Some?
    ensures var b, t := Run(d, fs).value, Run(d, gs).value;
            && Joined(c, a, t) && t.past.received == a.wire && !HasFrame(t.receiveBuffer)
            && t.phase == Open && t.past.accepted == b.past.accepted
            && b.wire <= t.wire && (Idle(b) ==> Idle(t) && t.wire == b.wire)
  {
    var b := Run(d, fs).value;
    var rest := a.wire[|b.past.received|..];
    assert b.past.received + rest == a.wire;
    hide Run, TakeFrames, HasFrame, Inv, Idle, Fits, EncodeAll;
    gs := Extend(d, fs, Receive(rest));
    gs := TakeFramesIsRun(d, gs);
    RunsKeepInv(d, gs);
    ReceivedByTaking(d, Append(b, rest));
    NoResetArrives(c, a, d, Run(d, gs).value);
    TakingStaysOpen(d, Append(b, rest));
    IdleAppend(b, rest);
  }

  lemma IdleAppend(b: TunnelState, rest: seq<byte>)
    ensures Idle(Append(b, rest)) <==> Idle(b)
  {
  }

  lemma NoResetArrives(c: Config, a: TunnelState, d: Config, b: TunnelState)
    requires Inv(c, a) && Inv(d, b) && Joined(c, a, b)
    ensures NoSessionReset(b.past.handled)
  {
    var v := Older(d.version, c.version);
    HandledFromPeer(c, a, d, b);
    SentAreBuilt(c, a);
    hide Inv, Joined, Built;
    forall m <- b.past.handled ensures m.msgType != Some(SESSION_RESET) {
      var x :| x in a.past.sent && m == Project(v, x);
      NobodyResetsSessions(c, x);
    }
  }

  /** A run's frames fit, so whoever received part of its wire is joined to it. */
  lemma JoinsUp(c: Config, es: seq<Event>, b: TunnelState)
    requires ServiceIdFits(c) && Run(c, es).Some? && b.past.received <= Run(c, es).value.wire
    ensures Joined(c, Run(c, es).value, b) && Inv(c, Run(c, es).value)
  {
    RunFits(c, es);
    RunsKeepInv(c, es);
  }

  /** The socket is open, and what was received came from the other's wire. */
  ghost predicate Linked(a: TunnelState, b: TunnelState) {
    && a.phase == Open && b.phase == Open
    && a.past.received <= b.wire && b.past.received <= a.wire
  }

  /** Nothing is under way in either direction, and each listener got all the other side accepted. */
  ghost predicate Settled(a: TunnelState, b: TunnelState) {
    && Linked(a, b) && Idle(a) && Idle(b)
    && a.past.received == b.wire && b.past.received == a.wire
    && Flatten(b.delivered) == a.past.accepted && Flatten(a.delivered) == b.past.accepted
  }

  /**
    From any two runs whose sockets are open, however far the handshake and the deliveries have
    come, the two can go on, with no more data accepted, to where both are ready, both queues are
    empty and each listener has got all the data the other side accepted.
   */
  lemma EverythingCanArrive(c: Config, es: seq<Event>, d: Config, fs: seq<Event>)
    returns (es': seq<Event>, fs': seq<Event>)
    requires c.mode == Source && d.mode == Destination && HasServiceId(d)
    requires ServiceIdFits(c) && ServiceIdFits(d)
    requires Run(c, es).Some? && Run(d, fs).Some? && Linked(Run(c, es).value, Run(d, fs).value)
    ensures es <= es' && fs <= fs' && Run(c, es').Some? && Run(d, fs').Some?
    ensures Settled(Run(c, es').value, Run(d, fs').value)
    ensures Run(c, es').value.past.accepted == Run(c, es).value.past.accepted
    ensures Run(d, fs').value.past.accepted == Run(d, fs).value.past.accepted
  {
    hide Run, Inv, Joined, Idle, HasFrame, ServiceIdFits, HasServiceId;
    var a := Run(c, es).value;
    JoinsUp(c, es, Run(d, fs).value);
    var gs := DeliverAll(c, a, d, fs);
    var b := Run(d, gs).value;
    JoinsUp(d, gs, a);
    OpenedIsIdle(c, a, d, b);
    es' := DeliverAll(d, b, c, es);
    var a' := Run(c, es').value;
    JoinsUp(c, es', b);
    AnnouncedIsIdle(c, a', d, b);
    fs' := DeliverAll(c, a', d, gs);
    JoinsUp(d, fs', a');
    Arrived(c, a', d, Run(d, fs').value);
    Arrived(d, Run(d, fs').value, c, a');
  }

  lemma OpenedIsIdle(c: Config, a: TunnelState, d: Config, b: TunnelState)
    requires c.mode == Source && d.mode == Destination
    requires Inv(c, a) && Inv(d, b) && Joined(c, a, b) && a.phase == Open && b.phase == Open
    requires b.past.received == a.wire && !HasFrame(b.receiveBuffer)
    ensures Idle(b)
  {
    MessagesArrive(c, a, d, b);
    SentAreBuilt(c, a);
    hide Inv, Joined, Built, HasFrame;
    assert |OpeningMessages(c, INITIAL)| == 1;
    DestinationReady(c, a, d, b);
  }

  lemma AnnouncedIsIdle(c: Config, a: TunnelState, d: Config, b: TunnelState)
    requires c.mode == Source && d.mode == Destination && HasServiceId(d)
    requires Inv(c, a) && Inv(d, b) && Joined(d, b, a) && a.phase == Open && b.phase == Open
    requires a.past.received == b.wire && !HasFrame(a.receiveBuffer)
    ensures Idle(a)
  {
    MessagesArrive(d, b, c, a);
    SentAreBuilt(d, b);
    hide Inv, Joined, Built, HasFrame;
    assert |OpeningMessages(d, INITIAL)| == 1;
    SourceReady(c, a, d, b);
  }

  lemma Arrived(c: Config, a: TunnelState, d: Config, b: TunnelState)
    requires Inv(c, a) && Inv(d, b) && Joined(c, a, b) && Idle(a) && a.phase == Open
    requires b.past.received == a.wire && !HasFrame(b.receiveBuffer)
    ensures Flatten(b.delivered) == a.past.accepted
  {
    AllAccepted(c, a);
    StreamArrives(c, a, d, b);
  }

  // ---- Disconnecting ----

  /** How many resets are among the messages. */
  function Resets(ms: seq<Message>): nat {
    if ms == [] then 0 else Resets(ms[..|ms| - 1]) + if IsReset(ms[|ms| - 1]) then 1 else 0
  }

  /** How often the socket's close event came. */
  function CloseEvents(es: seq<Event>): nat {
    if es == [] then 0 else CloseEvents(es[..|es| - 1]) + if es[|es| - 1].SocketClosed? then 1 else 0
  }

  lemma {:induction false} NoResets(ms: seq<Message>)
    requires forall m <- ms :: !IsReset(m)
    ensures Resets(ms) == 0
  {
    hide IsReset;
    if ms != [] { NoResets(ms[..|ms| - 1]); }
  }

  lemma {:induction false} ProjectedResets(v: Version, ms: seq<Message>)
    ensures Resets(Projected(v, ms)) == Resets(ms)
  {
    if ms != [] {
      var front, last := ms[..|ms| - 1], ms[|ms| - 1];
      ProjectedResets(v, front);
      assert IsReset(Project(v, last)) <==> IsReset(last);
      assert (Projected(v, front) + [Project(v, last)])[..|Projected(v, front)|] == Projected(v, front);
    }
  }

  lemma StepCloses(c: Config, s: TunnelState, e: Event)
    requires Enabled(s, e)
    ensures var t := Step(c, s, e);
            t.closes - Resets(t.past.handled) ==
            s.closes - Resets(s.past.handled) + if e.SocketClosed? then 1 else 0
  {
    hide WireOf, DataMessages, QueueMessages, OpeningMessages, Handle, Decode;
    if e.HandleOneFrame? {
      var t := Extract(s);
      match Decode(c.version, FirstFrame(s.receiveBuffer)) {
        case None =>
        case Some(m) =>
          HandleDelivers(c, t, m);
          HandleEffect(c, t, m);
          assert IsReset(m) <==> m.msgType == Some(STREAM_RESET);
          assert (s.past.handled + [m])[..|s.past.handled|] == s.past.handled;
      }
    }
  }

  /** The close listener runs once for every reset handled and every close event. */
  lemma {:induction false} ClosesCounted(c: Config, es: seq<Event>)
    requires Run(c, es).Some?
    ensures Run(c, es).value.closes == Resets(Run(c, es).value.past.handled) + CloseEvents(es)
    decreases |es|
  {
    if es != [] {
      var front, last := es[..|es| - 1], es[|es| - 1];
      assert After(c, front, last).Some?;
      ClosesCounted(c, front);
      hide Step, Enabled, Resets;
      StepCloses(c, Run(c, front).value, last);
    }
  }

  /**
    Disconnecting an open transport puts one reset on the wire, the only one it ever sends and the
    last thing it sends; the peer's close listener runs for it once, when the last frame is handled.
   */
  lemma DisconnectReachesPeer(c: Config, es: seq<Event>, d: Config, fs: seq<Event>)
    requires Run(c, es).Some? && Run(c, es).value.phase == Open && Run(d, fs).Some?
    requires Joined(c, Disconnect(c, Run(c, es).value), Run(d, fs).value)
    ensures var s, b := Run(c, es).value, Run(d, fs).value;
            var a := Disconnect(c, s);
            && Run(c, es + [DisconnectCall]) == Some(a)
            && !a.hasSocket && a.phase == Left && !a.isConnected && !a.tunnelReady
            && a.past.sent == s.past.sent + [StreamReset(s.streamId)]
            && b.closes == CloseEvents(fs) + (if |b.past.frames| == |a.past.sent| then 1 else 0)
            && (b.past.received == a.wire && !HasFrame(b.receiveBuffer) ==> |b.past.frames| == |a.past.sent|)
  {
    RunsKeepInv(c, es);
    RunsKeepInv(d, fs);
    ClosesCounted(d, fs);
    DisconnectInRun(c, es);
    RunsKeepInv(c, es + [DisconnectCall]);
    hide Run, CloseEvents, Inv, Joined, Disconnect, HasFrame, Resets;
    var s, b := Run(c, es).value, Run(d, fs).value;
    ResetSent(c, s);
    ResetArrives(c, Disconnect(c, s), d, b);
  }

  lemma DisconnectInRun(c: Config, es: seq<Event>)
    requires Run(c, es).Some?
    ensures Run(c, es + [DisconnectCall]) == Some(Disconnect(c, Run(c, es).value))
  {
    hide Run, Disconnect;
    var more := Extend(c, es, DisconnectCall);
  }

  lemma ResetSent(c: Config, s: TunnelState)
    requires Inv(c, s) && s.phase == Open
    ensures var a := Disconnect(c, s);
            && !a.hasSocket && a.phase == Left && !a.isConnected && !a.tunnelReady
            && a.past.sent == s.past.sent + [StreamReset(s.streamId)]
            && IsReset(StreamReset(s.streamId))
    ensures forall m <- s.past.sent :: !IsReset(m)
  {
    hide WireOf;
  }

  lemma ResetArrives(c: Config, a: TunnelState, d: Config, b: TunnelState)
    requires Inv(c, a) && Inv(d, b) && Joined(c, a, b) && a.past.sent != []
    requires IsReset(a.past.sent[|a.past.sent| - 1])
    requires forall m <- a.past.sent[..|a.past.sent| - 1] :: !IsReset(m)
    ensures |b.past.frames| <= |a.past.sent|
    ensures Resets(b.past.handled) == if |b.past.frames| == |a.past.sent| then 1 else 0
    ensures b.past.received == a.wire && !HasFrame(b.receiveBuffer) ==> |b.past.frames| == |a.past.sent|
  {
    MessagesArrive(c, a, d, b);
    hide Inv, Joined, HasFrame, IsReset, Project, Projected, Resets;
    ProjectedResets(Older(d.version, c.version), a.past.sent[..|b.past.frames|]);
    ResetsIn(a.past.sent, |b.past.frames|);
  }

  /** The only reset is the last message. */
  lemma ResetsIn(sent: seq<Message>, k: nat)
    requires k <= |sent| && sent != [] && IsReset(sent[|sent| - 1])
    requires forall m <- sent[..|sent| - 1] :: !IsReset(m)
    ensures Resets(sent[..k]) == if k == |sent| then 1 else 0
  {
    hide IsReset;
    if k < |sent| {
      assert forall m <- sent[..k] :: m in sent[..|sent| - 1];
      NoResets(sent[..k]);
    } else {
      NoResets(sent[..|sent| - 1]);
      assert sent[..k] == sent;
    }
  }
}
