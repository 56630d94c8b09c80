/**
  Every interleaving of `Send`, `StartShell` and `Disconnect` calls under the client's
  reader-writer lock, with `Connect` and the goroutine that drains the channel running unlocked.
  Each call is cut at every point where another goroutine may run.
 */
module ClientRuns {
  import opened Options
  import opened Wire
  import opened SSHClient

  /** Where a goroutine stands in its call. */
  datatype Stage =
    | SendWantsRead(data: seq<byte>)
    | SendChecks(data: seq<byte>)                  // read lock
    | SendWantsShell(data: seq<byte>)              // lock dropped
    | SendWantsReadAgain(data: seq<byte>, failed: bool)
    | SendEvaluates(data: seq<byte>)               // read lock
    | SendSelects(data: seq<byte>, channel: bool)  // read lock, `c.stdin` evaluated
    | SendReturns(ok: bool)                        // read lock
    | ShellWants
    | ShellStarts(sending: Option<seq<byte>>)      // write lock
    | ShellReturns(sending: Option<seq<byte>>, failed: bool) // write lock
    | DisconnectWants
    | DisconnectCloses                             // write lock
    | DisconnectClears                             // write lock, channel closed
    | DisconnectDrops                              // write lock, `stdin` nil
    | DisconnectResets                             // write lock, connection dropped
    | DisconnectReturns                            // write lock
    | Done(ok: bool)

  predicate HoldsRead(s: Stage) {
    s.SendChecks? || s.SendEvaluates? || s.SendSelects? || s.SendReturns?
  }

  predicate HoldsWrite(s: Stage) {
    || s.ShellStarts? || s.ShellReturns? || s.DisconnectCloses? || s.DisconnectClears?
    || s.DisconnectDrops? || s.DisconnectResets? || s.DisconnectReturns?
  }

  datatype System = System(
    client: ClientState,
    writer: Option<nat>,
    readers: set<nat>,
    threads: map<nat, Stage>,
    accepted: seq<seq<byte>>, // pushed on the channel so far
    consumed: seq<seq<byte>>, // taken off it so far
    connects: nat,            // connections made so far, named by their numbers
    shells: seq<nat>,         // the connection of each shell started, in order
    panicked: bool)           // sent on, or closed, a closed channel

  const START := System(NEW, None, {}, map[], [], [], 0, [], false)

  datatype Action =
    | Call(g: nat, stage: Stage)
    | Proceed(g: nat, o: ShellOutcome)
    | ConnectAssigns
    | Consume

  predicate Enabled(s: System, a: Action) {
    match a
    case Call(g, stage) => g !in s.threads && (stage.SendWantsRead? || stage.ShellWants? || stage.DisconnectWants?)
    case Proceed(g, _) =>
      && g in s.threads && !s.threads[g].Done?
      && (var st := s.threads[g];
          && (st.SendWantsRead? || st.SendWantsReadAgain? ==> s.writer.None?)
          && (st.SendWantsShell? || st.ShellWants? || st.DisconnectWants? ==> s.writer.None? && s.readers == {}))
    case ConnectAssigns => true
    case Consume => s.shells != [] && s.client.queue != []
  }

  // ---- What one step of a goroutine does ----

  /** Sending on a closed channel, or closing it again. */
  predicate Panics(c: ClientState, st: Stage) {
    c.channelClosed && ((st.SendSelects? && st.channel) || (st.DisconnectCloses? && c.hasStdin))
  }

  function Next(c: ClientState, st: Stage, o: ShellOutcome): Stage {
    match st
    case SendWantsRead(data) => SendChecks(data)
    case SendChecks(data) => if c.shellStarted then SendEvaluates(data) else SendWantsShell(data)
    case SendWantsShell(data) => ShellStarts(Some(data))
    case ShellWants => ShellStarts(None)
    case ShellStarts(sending) => ShellReturns(sending, StartShellBody(c, o).1)
    case ShellReturns(sending, failed) =>
      if sending.Some? then SendWantsReadAgain(sending.value, failed) else Done(!failed)
    case SendWantsReadAgain(data, failed) => if failed then SendReturns(false) else SendEvaluates(data)
    case SendEvaluates(data) => SendSelects(data, c.hasStdin)
    case SendSelects(_, channel) => SendReturns(channel && |c.queue| < CAPACITY)
    case SendReturns(ok) => Done(ok)
    case DisconnectWants => DisconnectCloses
    case DisconnectCloses => if c.hasStdin then DisconnectClears else DisconnectDrops
    case DisconnectClears => DisconnectDrops
    case DisconnectDrops => DisconnectResets
    case DisconnectResets => DisconnectReturns
    case DisconnectReturns => Done(true)
    case Done(ok) => Done(ok)
  }

  function Effect(c: ClientState, st: Stage, o: ShellOutcome): ClientState {
    match st
    case ShellStarts(_) => StartShellBody(c, o).0
    case SendSelects(data, channel) =>
      if channel && |c.queue| < CAPACITY then c.(queue := c.queue + [data]) else c
    case DisconnectCloses => if c.hasStdin then c.(channelClosed := true) else c
    case DisconnectClears => c.(hasStdin := false)
    case DisconnectDrops => c.(hasSession := false, conn := None)
    case DisconnectResets => c.(shellStarted := false)
    case _ => c
  }

  function WriterAfter(w: Option<nat>, g: nat, next: Stage): Option<nat> {
    if HoldsWrite(next) then Some(g) else if w == Some(g) then None else w
  }

  function ReadersAfter(r: set<nat>, g: nat, next: Stage): set<nat> {
    if HoldsRead(next) then r + {g} else r - {g}
  }

  /** Moves goroutine `g` on, with its lock as the next stage has it. */
  function Advance(s: System, g: nat, o: ShellOutcome): System
    requires g in s.threads
  {
    var c, st := s.client, s.threads[g];
    if Panics(c, st) then s.(panicked := true)
    else
      var next, c' := Next(c, st, o), Effect(c, st, o);
      System(c', WriterAfter(s.writer, g, next), ReadersAfter(s.readers, g, next), s.threads[g := next],
             if st.SendSelects? && next == SendReturns(true) then s.accepted + [st.data] else s.accepted,
             s.consumed,
             s.connects,
             if st.ShellStarts? && !c.shellStarted && c'.shellStarted then s.shells + [c.conn.value] else s.shells,
             s.panicked)
  }

  function Step(s: System, a: Action): System
    requires Enabled(s, a)
  {
    match a
    case Call(g, stage) => s.(threads := s.threads[g := stage])
    case Proceed(g, o) => Advance(s, g, o)
    case ConnectAssigns =>
      s.(client := s.client.(conn := Some(s.connects)), connects := s.connects + 1)
    case Consume =>
      s.(client := s.client.(queue := s.client.queue[1..]), consumed := s.consumed + [s.client.queue[0]])
  }

  function Run(actions: seq<Action>): Option<System> {
    if actions == [] then Some(START)
    else match Run(actions[..|actions| - 1])
         case None => None
         case Some(s) =>
           if Enabled(s, actions[|actions| - 1]) then Some(Step(s, actions[|actions| - 1])) else None
  }

  // ---- What every reachable state satisfies ----

  /** The lock's holders are the goroutines in a locked stage; a writer excludes everybody else. */
  ghost predicate Locked(s: System) {
    && (forall g <- s.threads :: HoldsWrite(s.threads[g]) <==> s.writer == Some(g))
    && (forall g <- s.threads :: HoldsRead(s.threads[g]) <==> g in s.readers)
    && (s.writer.Some? ==> s.writer.value in s.threads && s.readers == {})
    && (forall g <- s.readers :: g in s.threads)
  }

  predicate WriterAt(s: System, stage: Stage) {
    s.writer.Some? && s.writer.value in s.threads && s.threads[s.writer.value] == stage
  }

  /** `stdin` is nil exactly when its channel is closed, but for the closing goroutine itself. */
  ghost predicate ChannelAgrees(s: System) {
    && (s.client.channelClosed <==> !s.client.hasStdin || WriterAt(s, DisconnectClears))
    && !s.panicked
  }

  /** A `Send` past its shell check finds a running shell or no channel. */
  ghost predicate StageAgrees(s: System, stage: Stage) {
    match stage
    case SendEvaluates(_) => s.client.hasStdin ==> s.client.shellStarted
    case SendSelects(_, channel) => channel ==> s.client.hasStdin && s.client.shellStarted
    case SendWantsReadAgain(_, failed) => !failed && s.client.hasStdin ==> s.client.shellStarted
    case ShellReturns(_, failed) => !failed ==> s.client.shellStarted
    case DisconnectDrops => !s.client.hasStdin
    case DisconnectResets => !s.client.hasStdin
    case DisconnectReturns => !s.client.hasStdin
    case _ => true
  }

  ghost predicate StagesAgree(s: System) {
    forall g <- s.threads :: StageAgrees(s, s.threads[g])
  }

  ghost predicate Queued(s: System) {
    s.accepted == s.consumed + s.client.queue && |s.client.queue| <= CAPACITY
  }

  /**
    No connection has started two shells, and the present one has started none while no shell runs
    or the old one is being forgotten.
   */
  ghost predicate ShellsApart(s: System) {
    && (forall i :: 0 <= i < |s.shells| ==> s.shells[i] < s.connects)
    && (forall i, j :: 0 <= i < j < |s.shells| ==> s.shells[i] != s.shells[j])
    && (s.client.conn.Some? ==> s.client.conn.value < s.connects)
    && (s.client.conn.Some? && (!s.client.shellStarted || WriterAt(s, DisconnectResets)) ==>
          s.client.conn.value !in s.shells)
  }

  ghost predicate Inv(s: System) {
    Locked(s) && ChannelAgrees(s) && StagesAgree(s) && Queued(s) && ShellsApart(s)
  }

  // ---- Steps ----

  /** The stage a goroutine is in says which lock it holds, also after it moves. */
  lemma LockMoves(s: System, g: nat, next: Stage, t: System)
    requires Locked(s) && g in s.threads && t.threads == s.threads[g := next]
    requires t.writer == WriterAfter(s.writer, g, next) && t.readers == ReadersAfter(s.readers, g, next)
    requires HoldsWrite(next) && !HoldsWrite(s.threads[g]) ==> s.writer.None? && s.readers == {}
    requires HoldsRead(next) && !HoldsRead(s.threads[g]) ==> s.writer.None?
    ensures Locked(t)
  {
    hide HoldsRead, HoldsWrite;
    OneLock(next);
    OneLock(s.threads[g]);
  }

  lemma OneLock(stage: Stage)
    ensures !(HoldsRead(stage) && HoldsWrite(stage))
  {
  }

  lemma LockKept(s: System, g: nat, o: ShellOutcome)
    requires Locked(s) && Enabled(s, Proceed(g, o)) && !Panics(s.client, s.threads[g])
    ensures Locked(Advance(s, g, o))
  {
    hide StartShellBody, Effect, Locked;
    LockMoves(s, g, Next(s.client, s.threads[g], o), Advance(s, g, o));
  }

  lemma NoPanic(s: System, g: nat)
    requires Locked(s) && ChannelAgrees(s) && StagesAgree(s) && g in s.threads
    ensures !Panics(s.client, s.threads[g])
  {
    assert StageAgrees(s, s.threads[g]);
  }

  lemma ChannelKept(s: System, g: nat, o: ShellOutcome)
    requires Locked(s) && ChannelAgrees(s) && g in s.threads && !Panics(s.client, s.threads[g])
    requires Locked(Advance(s, g, o))
    ensures ChannelAgrees(Advance(s, g, o))
  {
  }

  lemma QueueKept(s: System, g: nat, o: ShellOutcome)
    requires Queued(s) && g in s.threads
    ensures Queued(Advance(s, g, o))
  {
    hide WriterAfter, ReadersAfter, StartShellBody, HoldsRead, HoldsWrite;
    var c, st := s.client, s.threads[g];
    EffectOnQueue(c, st, o);
    assert s.accepted == s.consumed + c.queue;
    hide Effect;
    if st.SendSelects? {
      assert s.consumed + (c.queue + [st.data]) == s.consumed + c.queue + [st.data];
    }
  }

  /** Only the select of a `Send` touches the queue, and only when it succeeds. */
  lemma EffectOnQueue(c: ClientState, st: Stage, o: ShellOutcome)
    ensures Effect(c, st, o).queue ==
            if st.SendSelects? && Next(c, st, o) == SendReturns(true) then c.queue + [st.data] else c.queue
  {
    hide StartShellBody;
    ShellBodyKeepsQueue(c, o);
  }

  lemma ShellBodyKeepsQueue(c: ClientState, o: ShellOutcome)
    ensures StartShellBody(c, o).0.queue == c.queue
  {
  }

  lemma ShellsKept(s: System, g: nat, o: ShellOutcome)
    requires Locked(s) && ShellsApart(s) && g in s.threads && !Panics(s.client, s.threads[g])
    requires Locked(Advance(s, g, o))
    ensures ShellsApart(Advance(s, g, o))
  {
    hide ReadersAfter;
  }

  lemma OwnStageKept(s: System, g: nat, o: ShellOutcome)
    requires StagesAgree(s) && g in s.threads && !Panics(s.client, s.threads[g])
    ensures StageAgrees(Advance(s, g, o), Next(s.client, s.threads[g], o))
  {
    hide WriterAfter, ReadersAfter;
    assert StageAgrees(s, s.threads[g]);
  }

  /** What a writer changes can only matter to a goroutine that holds no lock. */
  lemma OtherStageKept(s: System, g: nat, o: ShellOutcome, h: nat)
    requires Locked(s) && StagesAgree(s) && g in s.threads && h in s.threads && h != g
    ensures StageAgrees(Advance(s, g, o), s.threads[h])
  {
    hide WriterAfter, ReadersAfter;
    assert StageAgrees(s, s.threads[h]) && StageAgrees(s, s.threads[g]);
    assert HoldsWrite(s.threads[g]) ==> !HoldsRead(s.threads[h]) && !HoldsWrite(s.threads[h]);
  }

  lemma StepKeeps(s: System, a: Action)
    requires Inv(s) && Enabled(s, a)
    ensures Inv(Step(s, a))
  {
    match a {
      case Call(g, stage) => CallKeeps(s, g, stage);
      case Proceed(g, o) => ProceedKeeps(s, g, o);
      case _ =>
    }
  }

  lemma CallKeeps(s: System, g: nat, stage: Stage)
    requires Inv(s) && Enabled(s, Call(g, stage))
    ensures Inv(s.(threads := s.threads[g := stage]))
  {
  }

  lemma ProceedKeeps(s: System, g: nat, o: ShellOutcome)
    requires Inv(s) && Enabled(s, Proceed(g, o))
    ensures Inv(Advance(s, g, o))
  {
    NoPanic(s, g);
    LockKept(s, g, o);
    ChannelKept(s, g, o);
    QueueKept(s, g, o);
    ShellsKept(s, g, o);
    StagesKept(s, g, o);
    hide Advance, Locked, ChannelAgrees, Queued, ShellsApart, StagesAgree;
  }

  lemma StagesKept(s: System, g: nat, o: ShellOutcome)
    requires Locked(s) && StagesAgree(s) && g in s.threads && !Panics(s.client, s.threads[g])
    ensures StagesAgree(Advance(s, g, o))
  {
    var t := Advance(s, g, o);
    hide StageAgrees, Locked, Next, Effect;
    forall h <- t.threads ensures StageAgrees(t, t.threads[h]) {
      if h == g { OwnStageKept(s, g, o); } else { OtherStageKept(s, g, o, h); }
    }
  }

  lemma {:induction false} RunsKeepInv(actions: seq<Action>)
    requires Run(actions).Some?
    ensures Inv(Run(actions).value)
    decreases |actions|
  {
    if actions != [] {
      RunsKeepInv(actions[..|actions| - 1]);
      hide Inv, Step;
      StepKeeps(Run(actions[..|actions| - 1]).value, actions[|actions| - 1]);
    }
  }

  // ---- What callers can rely on ----

  /**
    In every interleaving nothing is sent on a closed channel or closes it again, pending input
    is first-in first-out and at most 100 blocks, and every connection made starts at most one
    shell.
   */
  lemma ChannelSafety(actions: seq<Action>)
    requires Run(actions).Some?
    ensures var s := Run(actions).value;
            && !s.panicked
            && s.accepted == s.consumed + s.client.queue && |s.client.queue| <= 100
            && (forall i, j :: 0 <= i < j < |s.shells| ==> s.shells[i] != s.shells[j])
            && (forall i :: 0 <= i < |s.shells| ==> s.shells[i] < s.connects)
            && (s.client.hasStdin && s.writer.None? ==> !s.client.channelClosed)
  {
    RunsKeepInv(actions);
  }

  lemma ClosedStep(s: System, a: Action)
    requires Inv(s) && Enabled(s, a) && s.client.channelClosed
    ensures Step(s, a).client.channelClosed && Step(s, a).accepted == s.accepted
  {
    if a.Proceed? {
      assert StageAgrees(s, s.threads[a.g]);
      hide Queued, ShellsApart;
    }
  }

  /**
    Once `Disconnect` has closed the channel, after the first `k` actions, no `Send` is ever
    accepted again, not even after another `Connect`.
   */
  lemma {:induction false} ClosedForever(actions: seq<Action>, k: nat)
    requires k <= |actions| && Run(actions).Some?
    ensures Run(actions[..k]).Some?
    ensures Run(actions[..k]).value.client.channelClosed ==>
              && Run(actions).value.client.channelClosed
              && Run(actions).value.accepted == Run(actions[..k]).value.accepted
    decreases |actions|
  {
    if k == |actions| {
      assert actions[..k] == actions;
    } else {
      var front := actions[..|actions| - 1];
      assert front[..k] == actions[..k];
      ClosedForever(front, k);
      RunsKeepInv(front);
      hide Inv, Step;
      if Run(front).value.client.channelClosed { ClosedStep(Run(front).value, actions[|actions| - 1]); }
    }
  }

  /** `Disconnect`'s critical section leaves the channel closed and `stdin` nil. */
  lemma DisconnectIsFinal(s: System, g: nat)
    requires Inv(s) && g in s.threads && s.threads[g] == DisconnectReturns
    ensures s.client.channelClosed && !s.client.hasStdin
  {
    assert StageAgrees(s, s.threads[g]);
  }

  /** A block is accepted only while a shell runs, and then on an open channel. */
  lemma AcceptedWhileShellRuns(s: System, a: Action)
    requires Inv(s) && Enabled(s, a) && Step(s, a).accepted != s.accepted
    ensures s.client.shellStarted && s.client.hasStdin && !s.client.channelClosed
    ensures a.Proceed? && Step(s, a).threads[a.g] == SendReturns(true)
  {
    assert StageAgrees(s, s.threads[a.g]);
  }

  // ---- The code is one of the runs ----

  /** Goroutine `g` moves on once; everything else stands still. */
  lemma GoOn(actions: seq<Action>, g: nat, o: ShellOutcome) returns (more: seq<Action>)
    requires Run(actions).Some? && Enabled(Run(actions).value, Proceed(g, o))
    ensures actions <= more && Run(more).Some?
    ensures var s, t := Run(actions).value, Run(more).value;
            var next := Next(s.client, s.threads[g], o);
            && t.threads == s.threads[g := next] && t.client == Effect(s.client, s.threads[g], o)
            && t.writer == WriterAfter(s.writer, g, next) && t.readers == ReadersAfter(s.readers, g, next)
  {
    more := actions + [Proceed(g, o)];
    assert more[..|more| - 1] == actions;
    RunsKeepInv(actions);
    NoPanic(Run(actions).value, g);
  }

  lemma Starts(actions: seq<Action>, g: nat, stage: Stage) returns (more: seq<Action>)
    requires Run(actions).Some? && Enabled(Run(actions).value, Call(g, stage))
    ensures actions <= more && Run(more).Some?
    ensures var s := Run(actions).value; Run(more).value == s.(threads := s.threads[g := stage])
  {
    more := actions + [Call(g, stage)];
    assert more[..|more| - 1] == actions;
  }

  ghost predicate Unlocked(s: System) {
    s.writer.None? && s.readers == {}
  }

  /** The shell check and, if need be, the shell start of a `Send`. */
  lemma SendReachesSelect(actions: seq<Action>, g: nat, data: seq<byte>, o: ShellOutcome)
    returns (more: seq<Action>)
    requires Run(actions).Some? && Unlocked(Run(actions).value) && g in Run(actions).value.threads
    requires Run(actions).value.threads[g] == SendWantsRead(data)
    ensures actions <= more && Run(more).Some?
    ensures var s, t := Run(actions).value, Run(more).value;
            var (c, failed) := if s.client.shellStarted then (s.client, false) else StartShellBody(s.client, o);
            && t.client == c && t.writer.None? && t.readers == {g} && g in t.threads
            && t.threads[g] == if failed then SendReturns(false) else SendEvaluates(data)
  {
    hide Run, StartShellBody;
    more := GoOn(actions, g, o);
    more := GoOn(more, g, o);
    if !Run(actions).value.client.shellStarted { more := SendStartsShell(more, g, data, o); }
  }

  lemma SendStartsShell(actions: seq<Action>, g: nat, data: seq<byte>, o: ShellOutcome)
    returns (more: seq<Action>)
    requires Run(actions).Some? && Unlocked(Run(actions).value) && g in Run(actions).value.threads
    requires Run(actions).value.threads[g] == SendWantsShell(data)
    ensures actions <= more && Run(more).Some?
    ensures var s, t := Run(actions).value, Run(more).value;
            var (c, failed) := StartShellBody(s.client, o);
            && t.client == c && t.writer.None? && t.readers == {g} && g in t.threads
            && t.threads[g] == if failed then SendReturns(false) else SendEvaluates(data)
  {
    hide Run, StartShellBody;
    more := GoOn(actions, g, o);
    more := GoOn(more, g, o);
    more := GoOn(more, g, o);
    more := GoOn(more, g, o);
  }

  /** The non-blocking send that ends a `Send`. */
  lemma SelectIsRun(actions: seq<Action>, g: nat, data: seq<byte>, o: ShellOutcome)
    returns (more: seq<Action>)
    requires Run(actions).Some? && g in Run(actions).value.threads
    requires var s := Run(actions).value;
             s.threads[g] == SendEvaluates(data) && s.writer.None? && s.readers == {g}
    ensures actions <= more && Run(more).Some? && Unlocked(Run(more).value) && g in Run(more).value.threads
    ensures var (c, ok) := Push(Run(actions).value.client, data);
            Run(more).value.client == c && Run(more).value.threads[g] == Done(ok)
  {
    hide Run, StartShellBody;
    more := GoOn(actions, g, o);
    more := GoOn(more, g, o);
    more := GoOn(more, g, o);
  }

  /** `Send` with nothing interleaved is a run of this system that ends as the code says. */
  lemma SendIsRun(actions: seq<Action>, g: nat, data: seq<byte>, o: ShellOutcome) returns (more: seq<Action>)
    requires Run(actions).Some? && Unlocked(Run(actions).value) && g !in Run(actions).value.threads
    ensures actions <= more && Run(more).Some? && Unlocked(Run(more).value) && g in Run(more).value.threads
    ensures var (c, ok) := SendAlone(Run(actions).value.client, data, o);
            Run(more).value.client == c && Run(more).value.threads[g] == Done(ok)
  {
    hide Run, StartShellBody, Push;
    more := Starts(actions, g, SendWantsRead(data));
    more := SendReachesSelect(more, g, data, o);
    if Run(more).value.threads[g] == SendEvaluates(data) {
      more := SelectIsRun(more, g, data, o);
    } else {
      more := GoOn(more, g, o);
    }
  }

  lemma DropsIsRun(actions: seq<Action>, g: nat, o: ShellOutcome) returns (more: seq<Action>)
    requires Run(actions).Some? && g in Run(actions).value.threads
    requires var s := Run(actions).value;
             s.threads[g] == DisconnectDrops && s.writer == Some(g) && s.readers == {}
    ensures actions <= more && Run(more).Some? && Unlocked(Run(more).value)
    ensures Run(more).value.client ==
            Run(actions).value.client.(conn := None, hasSession := false, shellStarted := false)
  {
    hide Run, StartShellBody;
    more := GoOn(actions, g, o);
    more := GoOn(more, g, o);
    more := GoOn(more, g, o);
  }

  /** `Disconnect` with nothing interleaved likewise. */
  lemma DisconnectIsRun(actions: seq<Action>, g: nat, o: ShellOutcome) returns (more: seq<Action>)
    requires Run(actions).Some? && Unlocked(Run(actions).value) && g !in Run(actions).value.threads
    ensures actions <= more && Run(more).Some? && Unlocked(Run(more).value)
    ensures Run(more).value.client == Disconnected(Run(actions).value.client)
  {
    hide Run, StartShellBody;
    more := Starts(actions, g, DisconnectWants);
    more := GoOn(more, g, o);
    more := GoOn(more, g, o);
    if Run(actions).value.client.hasStdin { more := GoOn(more, g, o); }
    more := DropsIsRun(more, g, o);
  }

  /** And `StartShell`. */
  lemma StartShellIsRun(actions: seq<Action>, g: nat, o: ShellOutcome) returns (more: seq<Action>)
    requires Run(actions).Some? && Unlocked(Run(actions).value) && g !in Run(actions).value.threads
    ensures actions <= more && Run(more).Some? && Unlocked(Run(more).value) && g in Run(more).value.threads
    ensures var (c, failed) := StartShellBody(Run(actions).value.client, o);
            Run(more).value.client == c && Run(more).value.threads[g] == Done(!failed)
  {
    hide Run, StartShellBody;
    more := Starts(actions, g, ShellWants);
    more := GoOn(more, g, o);
    more := GoOn(more, g, o);
    more := GoOn(more, g, o);
  }
}
