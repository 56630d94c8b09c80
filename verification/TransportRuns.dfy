/**
  Every interleaving of one reader with any number of injecting and closing goroutines. Each
  method is cut where it gives up its lock: the check of `closed` is one step, what follows is
  another.
 */
module TransportRuns {
  import opened Options
  import opened Wire
  import opened Blocks
  import opened JSTransport

  /** How far a closer that set `closed` has come. */
  datatype CloseStage = ClosingChannel | CallingBack

  datatype System = System(
    transport: TransportState,
    reader: Option<nat>,               // the length of the slice of a `Read` past its check
    injecting: map<nat, seq<byte>>,    // blocks of the `InjectData` calls past theirs
    closing: map<nat, CloseStage>,
    offered: seq<seq<byte>>,           // blocks whose `InjectData` has returned, in order
    taken: seq<nat>,                   // which of those were accepted, by place
    sawEOF: bool)

  const START := System(INITIAL, None, map[], map[], [], [], false)

  datatype Action =
    | ReadCheck(cap: nat)
    | ReadFinish(preferClose: bool)
    | InjectCheck(goroutine: nat, block: seq<byte>)
    | InjectPush(goroutine: nat)
    | CloseCheck(goroutine: nat)
    | CloseChannel(goroutine: nat)
    | CloseCallback(goroutine: nat)

  predicate Enabled(s: System, a: Action) {
    match a
    case ReadCheck(_) => s.reader.None?
    case ReadFinish(preferClose) =>
      s.reader.Some? && !FinishRead(s.transport, s.reader.value, preferClose).1.Blocked?
    case InjectCheck(g, _) => g !in s.injecting
    case InjectPush(g) => g in s.injecting
    case CloseCheck(g) => g !in s.closing
    case CloseChannel(g) => g in s.closing && s.closing[g] == ClosingChannel
    case CloseCallback(g) => g in s.closing && s.closing[g] == CallingBack
  }

  function Step(s: System, a: Action): System
    requires Enabled(s, a)
  {
    match a
    case ReadCheck(cap) =>
      if s.transport.closed then s.(sawEOF := true) else s.(reader := Some(cap))
    case ReadFinish(preferClose) =>
      var (t, result) := FinishRead(s.transport, s.reader.value, preferClose);
      s.(transport := t, reader := None, sawEOF := s.sawEOF || result.EOF?)
    case InjectCheck(g, block) =>
      if s.transport.closed then s.(offered := s.offered + [block])
      else s.(injecting := s.injecting[g := block])
    case InjectPush(g) =>
      var block := s.injecting[g];
      s.(transport := Push(s.transport, block),
         injecting := s.injecting - {g},
         offered := s.offered + [block],
         taken := if |s.transport.readChan| < CAPACITY then s.taken + [|s.offered|] else s.taken)
    case CloseCheck(g) =>
      if s.transport.closed then s
      else s.(transport := s.transport.(closed := true), closing := s.closing[g := ClosingChannel])
    case CloseChannel(g) =>
      s.(transport := s.transport.(closeChanClosed := s.transport.closeChanClosed + 1),
         closing := s.closing[g := CallingBack])
    case CloseCallback(g) =>
      s.(transport := s.transport.(onCloseRuns := s.transport.onCloseRuns + 1),
         closing := s.closing - {g})
  }

  function Run(actions: seq<Action>): Option<System>
    decreases |actions|, 0
  {
    if actions == [] then Some(START) else After(actions[..|actions| - 1], actions[|actions| - 1])
  }

  /** The state after a run and one more action. */
  function After(actions: seq<Action>, a: Action): Option<System>
    decreases |actions|, 1
  {
    match Run(actions)
    case None => None
    case Some(s) => if Enabled(s, a) then Some(Step(s, a)) else None
  }

  ghost predicate OnlyCloser(closing: map<nat, CloseStage>, g: nat, stage: CloseStage) {
    closing == map[g := stage]
  }

  /** Exactly one closer gets past the check, and it is in one of three places. */
  ghost predicate ClosedOnce(s: System) {
    var t := s.transport;
    if !t.closed then s.closing == map[] && t.closeChanClosed == 0 && t.onCloseRuns == 0
    else
      || (s.closing == map[] && t.closeChanClosed == 1 && t.onCloseRuns == 1)
      || (exists g: nat :: OnlyCloser(s.closing, g, ClosingChannel) && t.closeChanClosed == 0 && t.onCloseRuns == 0)
      || (exists g: nat :: OnlyCloser(s.closing, g, CallingBack) && t.closeChanClosed == 1 && t.onCloseRuns == 0)
  }

  /** The accepted blocks are some of those offered, in the same order. */
  ghost predicate Subsequence(s: System) {
    && |s.taken| == |s.transport.accepted|
    && (forall i :: 0 <= i < |s.taken| ==>
          s.taken[i] < |s.offered| && s.transport.accepted[i] == s.offered[s.taken[i]])
    && (forall i, j :: 0 <= i < j < |s.taken| ==> s.taken[i] < s.taken[j])
  }

  ghost predicate Inv(s: System) {
    && Conserved(s.transport)
    && ClosedOnce(s)
    && (s.sawEOF ==> s.transport.closed)
    && Subsequence(s)
  }

  lemma StepKeeps(s: System, a: Action)
    requires Inv(s) && Enabled(s, a)
    ensures Inv(Step(s, a))
  {
    OfferKeeps(s, a);
    ConservedStep(s, a);
    ClosedStep(s, a);
    hide Subsequence, Conserved, ClosedOnce, FinishRead, Push;
  }

  lemma ConservedStep(s: System, a: Action)
    requires Conserved(s.transport) && Enabled(s, a)
    ensures Conserved(Step(s, a).transport)
  {
    hide Flatten, FinishRead, Push;
    if a.ReadFinish? {
      FinishReadKeeps(s.transport, s.reader.value, a.preferClose);
    } else if a.InjectPush? {
      PushKeeps(s.transport, s.injecting[a.goroutine]);
    }
  }

  lemma ClosedStep(s: System, a: Action)
    requires ClosedOnce(s) && (s.sawEOF ==> s.transport.closed) && Enabled(s, a)
    ensures ClosedOnce(Step(s, a)) && (Step(s, a).sawEOF ==> Step(s, a).transport.closed)
  {
    match a {
      case CloseCheck(g) =>
        if !s.transport.closed { assert OnlyCloser(Step(s, a).closing, g, ClosingChannel); }
      case CloseChannel(g) =>
        CloseStep(s, g);
        assert OnlyCloser(s.closing[g := CallingBack], g, CallingBack);
      case CloseCallback(g) => CloseStep(s, g);
      case ReadFinish(preferClose) => ReadSeesClose(s, s.reader.value, preferClose);
      case _ =>
    }
  }

  lemma ReadSeesClose(s: System, cap: nat, preferClose: bool)
    requires ClosedOnce(s)
    ensures var (t, result) := FinishRead(s.transport, cap, preferClose);
            && t.closed == s.transport.closed && t.closeChanClosed == s.transport.closeChanClosed
            && t.onCloseRuns == s.transport.onCloseRuns
            && (result.EOF? ==> s.transport.closed)
  {
  }

  lemma OfferKeeps(s: System, a: Action)
    requires Subsequence(s) && Enabled(s, a)
    ensures Subsequence(Step(s, a))
  {
    if a.ReadFinish? { ReadKeepsAccepted(s, a); }
    hide FinishRead;
  }

  lemma ReadKeepsAccepted(s: System, a: Action)
    requires Enabled(s, a) && a.ReadFinish?
    ensures Step(s, a).transport.accepted == s.transport.accepted
  {
  }

  /** A closer still at work is the only one. */
  lemma CloseStep(s: System, g: nat)
    requires ClosedOnce(s) && g in s.closing
    ensures s.closing == map[g := s.closing[g]] && s.closing - {g} == map[]
    ensures s.transport.closeChanClosed == if s.closing[g] == ClosingChannel then 0 else 1
    ensures s.transport.onCloseRuns == 0 && s.transport.closed
  {
    forall only: nat, stage: CloseStage
      ensures OnlyCloser(s.closing, only, stage) ==> only == g && s.closing[g] == stage
    {
    }
  }

  lemma NoCloser(s: System)
    requires ClosedOnce(s) && s.transport.closed && s.closing == map[]
    ensures s.transport.closeChanClosed == 1 && s.transport.onCloseRuns == 1
  {
    forall g: nat, stage: CloseStage
      ensures OnlyCloser(s.closing, g, stage) ==> g in s.closing
    {
    }
  }

  lemma {:induction false} RunsKeepInv(actions: seq<Action>)
    requires Run(actions).Some?
    ensures Inv(Run(actions).value)
    decreases |actions|
  {
    if actions != [] {
      var front, last := actions[..|actions| - 1], actions[|actions| - 1];
      assert After(front, last).Some?;
      RunsKeepInv(front);
      hide Inv, Step, Enabled;
      StepKeeps(Run(front).value, last);
    }
  }

  /**
    In every interleaving the bytes read, the leftover and the queued blocks are the accepted
    bytes in order, and the accepted blocks some of those offered; at most 100 blocks queue; the
    close channel is closed at most once and `onClose` runs at most once, and both have happened
    when a finished `Close` leaves no closer.
   */
  lemma TransportConservation(actions: seq<Action>)
    requires Run(actions).Some?
    ensures var s := Run(actions).value;
            var t := s.transport;
            && t.read + t.readBuffer + Flatten(t.readChan) == Flatten(t.accepted)
            && |t.readChan| <= 100
            && Subsequence(s)
            && t.closeChanClosed <= 1 && t.onCloseRuns <= t.closeChanClosed
            && (t.closed && s.closing == map[] ==> t.closeChanClosed == 1 && t.onCloseRuns == 1)
            && (s.sawEOF ==> t.closed)
  {
    hide Run;
    RunsKeepInv(actions);
    var s := Run(actions).value;
    if s.transport.closed && s.closing == map[] { NoCloser(s); }
  }

  /** From `s` to `t` the reader got nothing, and what it missed at `s` is still there. */
  ghost predicate ReaderStopped(s: System, t: System) {
    && t.transport.closed && t.reader.None?
    && t.transport.read == s.transport.read && t.transport.readBuffer == s.transport.readBuffer
    && s.transport.readChan <= t.transport.readChan
  }

  /**
    `Close` cuts the reader off: from the moment `closed` is set with no read under way, every
    read is at the end of file. What it misses is exactly the leftover and the blocks queued,
    those of injections still under way included.
   */
  lemma {:induction false} CloseLosesRest(actions: seq<Action>, k: nat)
    requires k <= |actions| && Run(actions).Some?
    ensures Run(actions[..k]).Some?
    ensures var s, t := Run(actions[..k]).value, Run(actions).value;
            s.transport.closed && s.reader.None? ==>
              && ReaderStopped(s, t)
              && Flatten(t.transport.accepted) ==
                   s.transport.read + s.transport.readBuffer + Flatten(t.transport.readChan)
    decreases |actions|
  {
    RunsKeepInv(actions);
    if k == |actions| {
      assert actions[..k] == actions;
    } else {
      var front, last := actions[..|actions| - 1], actions[|actions| - 1];
      assert After(front, last).Some?;
      assert front[..k] == actions[..k];
      CloseLosesRest(front, k);
      hide Step, Inv;
      ConservedIn(Run(actions).value);
      var s, t := Run(actions[..k]).value, Run(front).value;
      if s.transport.closed && s.reader.None? { CutOff(s, t, last); }
    }
  }

  lemma ConservedIn(s: System)
    requires Inv(s)
    ensures Flatten(s.transport.accepted) == s.transport.read + s.transport.readBuffer + Flatten(s.transport.readChan)
  {
  }

  lemma CutOff(s: System, t: System, a: Action)
    requires Enabled(t, a) && ReaderStopped(s, t)
    ensures ReaderStopped(s, Step(t, a))
    ensures a.ReadCheck? ==> Step(t, a) == t.(sawEOF := true)
  {
    hide FinishRead;
  }

  /** From `s` to `t` nothing was accepted, and nothing can be. */
  ghost predicate InjectionsStopped(s: System, t: System) {
    t.transport.closed && t.injecting == map[] && t.transport.accepted == s.transport.accepted
  }

  /** Once closed with no injection under way, every injection is refused. */
  lemma {:induction false} NothingAcceptedAfterClose(actions: seq<Action>, k: nat)
    requires k <= |actions| && Run(actions).Some?
    ensures Run(actions[..k]).Some?
    ensures var s, t := Run(actions[..k]).value, Run(actions).value;
            s.transport.closed && s.injecting == map[] ==> InjectionsStopped(s, t)
    decreases |actions|
  {
    if k == |actions| {
      assert actions[..k] == actions;
    } else {
      var front, last := actions[..|actions| - 1], actions[|actions| - 1];
      assert After(front, last).Some?;
      assert front[..k] == actions[..k];
      NothingAcceptedAfterClose(front, k);
      hide Step, Enabled;
      var s, t := Run(actions[..k]).value, Run(front).value;
      if s.transport.closed && s.injecting == map[] { StillRefused(s, t, last); }
    }
  }

  lemma StillRefused(s: System, t: System, a: Action)
    requires Enabled(t, a) && InjectionsStopped(s, t)
    ensures InjectionsStopped(s, Step(t, a))
  {
    if a.ReadFinish? { ReadKeepsAccepted(t, a); }
    hide FinishRead;
  }

  // ---- The code is one of the runs ----

  lemma Extend(actions: seq<Action>, a: Action) returns (more: seq<Action>)
    requires Run(actions).Some? && Enabled(Run(actions).value, a)
    ensures more == actions + [a] && Run(more) == Some(Step(Run(actions).value, a))
  {
    hide Step, Enabled;
    more := actions + [a];
    assert more[..|actions|] == actions;
    assert Run(more) == After(actions, a);
  }

  /** A `Read` that does not have to wait is a run of this system, with the same state and result. */
  lemma ReadIsRun(actions: seq<Action>, cap: nat, preferClose: bool) returns (more: seq<Action>)
    requires Run(actions).Some? && Run(actions).value.reader.None?
    ensures Run(more).Some? && actions <= more
    ensures var s, t := Run(actions).value, Run(more).value;
            var (state, result) := FinishRead(s.transport, cap, preferClose);
            if s.transport.closed then t.transport == s.transport && t.sawEOF
            else if result.Blocked? then t == s
            else t.transport == state && (result.EOF? ==> t.sawEOF) && t.reader.None?
  {
    hide Run, FinishRead;
    more := actions;
    var s := Run(actions).value;
    if s.transport.closed || !FinishRead(s.transport, cap, preferClose).1.Blocked? {
      more := Extend(more, ReadCheck(cap));
      if !s.transport.closed { more := Extend(more, ReadFinish(preferClose)); }
    }
  }

  /** So is `InjectData`. */
  lemma InjectIsRun(actions: seq<Action>, g: nat, block: seq<byte>) returns (more: seq<Action>)
    requires Run(actions).Some? && g !in Run(actions).value.injecting
    ensures Run(more).Some? && actions <= more
    ensures var s, t := Run(actions).value, Run(more).value;
            && t.transport == (if s.transport.closed then s.transport else Push(s.transport, block))
            && t.offered == s.offered + [block]
  {
    hide Run, Push;
    more := Extend(actions, InjectCheck(g, block));
    if !Run(actions).value.transport.closed { more := Extend(more, InjectPush(g)); }
  }

  /** And `Close`. */
  lemma CloseIsRun(actions: seq<Action>, g: nat) returns (more: seq<Action>)
    requires Run(actions).Some? && g !in Run(actions).value.closing
    ensures Run(more).Some? && actions <= more
    ensures var s, t := Run(actions).value.transport, Run(more).value.transport;
            t == if s.closed then s
                 else s.(closed := true, closeChanClosed := s.closeChanClosed + 1, onCloseRuns := s.onCloseRuns + 1)
  {
    hide Run;
    more := Extend(actions, CloseCheck(g));
    if !Run(actions).value.transport.closed {
      more := Extend(more, CloseChannel(g));
      more := Extend(more, CloseCallback(g));
    }
  }
}
