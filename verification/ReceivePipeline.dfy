/**
  The receive path as one system: a sending tunnel transport, the network, a receiving tunnel
  transport whose listener injects each payload into the Go transport, and the reader behind it.
 */
module ReceivePipeline {
  import opened Options
  import opened Wire
  import opened Blocks
  import opened Codec
  import opened Framing
  import opened TunnelMessages
  import Tunnel
  import TunnelRuns
  import EndToEnd
  import TransportRuns
  import Injections

  datatype Pipeline = Pipeline(
    sender: Tunnel.TunnelState,
    receiver: Tunnel.TunnelState,
    go: TransportRuns.System)

  datatype Move =
    | SenderMoves(event: TunnelRuns.Event)
    | ReceiverMoves(event: TunnelRuns.Event)  // anything but receiving
    | NetworkDelivers(count: nat)             // the next bytes on the wire, cut anywhere
    | GoMoves(action: TransportRuns.Action)

  const LISTENER: nat := 0

  /** The listener has one injection under way at a time, of the next payload delivered to it. */
  predicate Enabled(p: Pipeline, m: Move) {
    match m
    case SenderMoves(e) => TunnelRuns.Enabled(p.sender, e)
    case ReceiverMoves(e) => TunnelRuns.Enabled(p.receiver, e) && !e.Receive?
    case NetworkDelivers(n) =>
      && TunnelRuns.Enabled(p.receiver, TunnelRuns.Receive([]))
      && |p.receiver.past.received| + n <= |p.sender.wire|
    case GoMoves(a) =>
      && TransportRuns.Enabled(p.go, a)
      && (a.InjectCheck? ==> a.goroutine == LISTENER && p.go.injecting == map[]
                             && |p.go.offered| < |p.receiver.delivered|
                             && a.block == p.receiver.delivered[|p.go.offered|])
  }

  function Step(c: Config, d: Config, p: Pipeline, m: Move): Pipeline
    requires Enabled(p, m)
  {
    match m
    case SenderMoves(e) => p.(sender := TunnelRuns.Step(c, p.sender, e))
    case ReceiverMoves(e) => p.(receiver := TunnelRuns.Step(d, p.receiver, e))
    case NetworkDelivers(n) =>
      var k := |p.receiver.past.received|;
      p.(receiver := Tunnel.Append(p.receiver, p.sender.wire[k..k + n]))
    case GoMoves(a) => p.(go := TransportRuns.Step(p.go, a))
  }

  function Run(c: Config, d: Config, moves: seq<Move>): Option<Pipeline>
    decreases |moves|, 0
  {
    if moves == [] then Some(Pipeline(Tunnel.INITIAL, Tunnel.INITIAL, TransportRuns.START))
    else After(c, d, moves[..|moves| - 1], moves[|moves| - 1])
  }

  /** The state after a run and one more move. */
  function After(c: Config, d: Config, moves: seq<Move>, m: Move): Option<Pipeline>
    decreases |moves|, 1
  {
    match Run(c, d, moves)
    case None => None
    case Some(p) => if Enabled(p, m) then Some(Step(c, d, p, m)) else None
  }

  /** The blocks offered to the Go transport, and the one under way, are what was delivered. */
  ghost predicate Offered(p: Pipeline) {
    && p.go.offered <= p.receiver.delivered
    && (p.go.injecting == map[]
        || (&& |p.go.offered| < |p.receiver.delivered|
            && p.go.injecting == map[LISTENER := p.receiver.delivered[|p.go.offered|]]))
  }

  ghost predicate Inv(c: Config, d: Config, p: Pipeline) {
    && TunnelRuns.Inv(c, p.sender)
    && TunnelRuns.Inv(d, p.receiver)
    && TransportRuns.Inv(p.go)
    && p.receiver.past.received <= p.sender.wire
    && Offered(p)
  }

  // ---- Each side only adds to what the other reads ----

  lemma DeliveredGrows(c: Config, s: Tunnel.TunnelState, e: TunnelRuns.Event)
    requires TunnelRuns.Enabled(s, e) && !e.Receive?
    ensures s.delivered <= TunnelRuns.Step(c, s, e).delivered
    ensures TunnelRuns.Step(c, s, e).past.received == s.past.received
  {
    hide WireOf, DataMessages, QueueMessages;
    if e.HandleOneFrame? {
      var t := Tunnel.Extract(s);
      match Decode(c.version, FirstFrame(s.receiveBuffer)) {
        case None =>
        case Some(m) => TunnelRuns.HandleDelivers(c, t, m);
      }
    }
  }

  lemma GoStepKeeps(p: Pipeline, a: TransportRuns.Action)
    requires Offered(p) && Enabled(p, GoMoves(a))
    ensures Offered(p.(go := TransportRuns.Step(p.go, a)))
  {
    if a.InjectPush? {
      assert p.go.injecting - {a.goroutine} == map[];
    } else if a.InjectCheck? && !p.go.transport.closed {
      assert p.go.injecting[LISTENER := a.block] == map[LISTENER := a.block];
    }
  }

  lemma StepKeeps(c: Config, d: Config, p: Pipeline, m: Move)
    requires Inv(c, d, p) && Enabled(p, m)
    ensures Inv(c, d, Step(c, d, p, m))
  {
    hide TunnelRuns.Inv, TransportRuns.Inv, TunnelRuns.Step, TransportRuns.Step;
    match m {
      case SenderMoves(e) =>
        TunnelRuns.StepKeeps(c, p.sender, e);
        EndToEnd.WireGrows(c, p.sender, e);
      case ReceiverMoves(e) =>
        TunnelRuns.StepKeeps(d, p.receiver, e);
        DeliveredGrows(d, p.receiver, e);
      case NetworkDelivers(n) =>
        var k := |p.receiver.past.received|;
        AppendStep(d, p.receiver, p.sender.wire[k..k + n]);
      case GoMoves(a) =>
        TransportRuns.StepKeeps(p.go, a);
        GoStepKeeps(p, a);
    }
  }

  lemma AppendStep(d: Config, s: Tunnel.TunnelState, chunk: seq<byte>)
    requires TunnelRuns.Inv(d, s) && TunnelRuns.Enabled(s, TunnelRuns.Receive(chunk))
    ensures TunnelRuns.Inv(d, Tunnel.Append(s, chunk))
  {
    hide TunnelRuns.Inv;
    TunnelRuns.StepKeeps(d, s, TunnelRuns.Receive(chunk));
  }

  lemma {:induction false} RunsKeepInv(c: Config, d: Config, moves: seq<Move>)
    requires Run(c, d, moves).Some?
    ensures Inv(c, d, Run(c, d, moves).value)
    decreases |moves|
  {
    if moves == [] {
      TunnelRuns.RunsKeepInv(c, []);
      TunnelRuns.RunsKeepInv(d, []);
      TransportRuns.RunsKeepInv([]);
    } else {
      var front, last := moves[..|moves| - 1], moves[|moves| - 1];
      assert After(c, d, front, last).Some?;
      RunsKeepInv(c, d, front);
      hide Inv, Enabled, Step;
      StepKeeps(c, d, Run(c, d, front).value, last);
    }
  }

  // ---- What the reader gets ----

  /** The moves of a run that concern the Go transport. */
  function GoActions(moves: seq<Move>): seq<TransportRuns.Action> {
    if moves == [] then []
    else
      var last := moves[|moves| - 1];
      GoActions(moves[..|moves| - 1]) + if last.GoMoves? then [last.action] else []
  }

  /** Seen from the Go transport, the run is one of its own, with the listener as the only injector. */
  lemma {:induction false} GoIsRun(c: Config, d: Config, moves: seq<Move>)
    requires Run(c, d, moves).Some?
    ensures TransportRuns.Run(GoActions(moves)) == Some(Run(c, d, moves).value.go)
    ensures Injections.OneListener(GoActions(moves))
    decreases |moves|
  {
    hide TransportRuns.Run, TransportRuns.Step, TransportRuns.Enabled, Injections.OneListener;
    if moves == [] {
      NoActions();
    } else {
      var front, last := moves[..|moves| - 1], moves[|moves| - 1];
      assert After(c, d, front, last).Some?;
      GoIsRun(c, d, front);
      if last.GoMoves? {
        var more := Injections.GoOn(GoActions(front), last.action);
      } else {
        assert GoActions(front) + [] == GoActions(front);
      }
    }
  }

  lemma NoActions()
    ensures TransportRuns.Run([]) == Some(TransportRuns.START) && Injections.OneListener([])
  {
  }

  /**
    What the SSH layer has read is a prefix of the data the far side gave to `send`, through
    framing, reassembly, decoding and the bounded channel, unless a frame's length wrapped or a
    full channel refused a block and accepted one later.
   */
  lemma BytesReadArePrefix(c: Config, d: Config, moves: seq<Move>)
    requires Run(c, d, moves).Some? && !Injections.Skips(GoActions(moves))
    requires Fits(EncodeAll(c.version, Run(c, d, moves).value.sender.past.sent))
    ensures var p := Run(c, d, moves).value;
            p.go.transport.read <= Flatten(p.receiver.delivered) <= p.sender.past.accepted
  {
    RunsKeepInv(c, d, moves);
    GoIsRun(c, d, moves);
    hide Run, TransportRuns.Run, Injections.Skips, TunnelRuns.Inv;
    Injections.PlacesKeptExactly(GoActions(moves));
    var p := Run(c, d, moves).value;
    FlattenPrefix(p.go.offered, p.receiver.delivered);
    EndToEnd.StreamArrives(c, p.sender, d, p.receiver);
    EndToEnd.AllAccepted(c, p.sender);
  }

  /**
    The condition is exact: of payloads that can be told apart, those accepted are the first ones
    delivered if and only if no block was accepted after a full channel had refused one.
   */
  lemma AcceptedAreFirstDelivered(c: Config, d: Config, moves: seq<Move>)
    requires Run(c, d, moves).Some? && Injections.Distinct(Run(c, d, moves).value.receiver.delivered)
    ensures var p := Run(c, d, moves).value;
            p.go.transport.accepted <= p.receiver.delivered <==> !Injections.Skips(GoActions(moves))
  {
    RunsKeepInv(c, d, moves);
    GoIsRun(c, d, moves);
    hide Run, TransportRuns.Run, TransportRuns.Inv, Injections.Skips, Injections.OneListener, TunnelRuns.Inv;
    var p := Run(c, d, moves).value;
    DistinctPrefix(p.go.offered, p.receiver.delivered);
    hide Injections.Distinct;
    Injections.AcceptedAreFirstExactly(GoActions(moves));
    NoMoreThanOffered(p.go);
    SamePrefix(p.go.transport.accepted, p.go.offered, p.receiver.delivered);
  }

  lemma DistinctPrefix(a: seq<seq<byte>>, b: seq<seq<byte>>)
    requires a <= b && Injections.Distinct(b)
    ensures Injections.Distinct(a)
  {
  }

  lemma SamePrefix(x: seq<seq<byte>>, a: seq<seq<byte>>, b: seq<seq<byte>>)
    requires |x| <= |a| && a <= b
    ensures x <= a <==> x <= b
  {
  }

  lemma NoMoreThanOffered(s: TransportRuns.System)
    requires TransportRuns.Inv(s)
    ensures |s.transport.accepted| <= |s.offered|
  {
    if s.taken != [] { Injections.TakenAtLeast(s, |s.taken| - 1); }
  }
}
