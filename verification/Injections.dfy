/**
  A listener that injects one block after the other, as the single JavaScript thread does: what a
  full channel refuses is lost, and when that breaks the byte stream.
 */
module Injections {
  import opened Options
  import opened Wire
  import opened Blocks
  import opened JSTransport
  import opened TransportRuns

  predicate OneAtATime(s: System, a: Action) {
    a.InjectCheck? ==> s.injecting == map[]
  }

  /** No injection starts before the one before it has returned. */
  ghost predicate OneListener(actions: seq<Action>) {
    forall k :: 0 <= k < |actions| ==>
      Run(actions[..k]).Some? && OneAtATime(Run(actions[..k]).value, actions[k])
  }

  /** A non-empty block is refused because the channel is full. */
  predicate Refuses(s: System, a: Action) {
    a.InjectPush? && a.goroutine in s.injecting && s.injecting[a.goroutine] != []
    && |s.transport.readChan| == CAPACITY
  }

  /** A non-empty block is accepted. */
  predicate Accepts(s: System, a: Action) {
    a.InjectPush? && a.goroutine in s.injecting && s.injecting[a.goroutine] != []
    && |s.transport.readChan| < CAPACITY
  }

  ghost predicate RefusedAt(actions: seq<Action>, k: nat) {
    k < |actions| && Run(actions[..k]).Some? && Refuses(Run(actions[..k]).value, actions[k])
  }

  ghost predicate AcceptedAt(actions: seq<Action>, k: nat) {
    k < |actions| && Run(actions[..k]).Some? && Accepts(Run(actions[..k]).value, actions[k])
  }

  ghost predicate Loses(actions: seq<Action>) {
    exists k :: RefusedAt(actions, k)
  }

  /** A full channel refused a block, and accepted one later. */
  ghost predicate Skips(actions: seq<Action>) {
    exists j, k :: j < k && RefusedAt(actions, j) && AcceptedAt(actions, k)
  }

  /** Each accepted byte stands where it stands in the stream of all blocks offered. */
  ghost predicate InPlace(s: System)
    requires Subsequence(s)
  {
    forall i :: 0 <= i < |s.taken| && s.transport.accepted[i] != [] ==>
      |Flatten(s.transport.accepted[..i])| == |Flatten(s.offered[..s.taken[i]])|
  }

  /** What a run's refusals say about its state. */
  ghost predicate Accounted(s: System, loses: bool, skips: bool)
    requires Subsequence(s)
  {
    var accepted, offered := Flatten(s.transport.accepted), Flatten(s.offered);
    && (forall g, h :: g in s.injecting && h in s.injecting ==> g == h)
    && (!loses ==> accepted == offered || (s.transport.closed && s.injecting == map[]))
    && (loses ==> |accepted| < |offered|)
    && |accepted| <= |offered|
    && (!skips ==> accepted <= offered)
    && (InPlace(s) <==> !skips)
  }

  // ---- One step ----

  /** The block of an injection that returns comes after all offered before. */
  lemma OfferedGrows(s: System, block: seq<byte>)
    ensures Flatten(s.offered + [block]) == Flatten(s.offered) + block
    ensures Flatten(s.transport.accepted + [block]) == Flatten(s.transport.accepted) + block
  {
    FlattenConcat(s.offered, [block]);
    FlattenConcat(s.transport.accepted, [block]);
    FlattenOne(block);
  }

  lemma OfferKeepsPlaces(s: System, t: System, block: seq<byte>)
    requires Subsequence(s) && Subsequence(t)
    requires t.taken == s.taken && t.transport.accepted == s.transport.accepted && t.offered == s.offered + [block]
    ensures InPlace(t) <==> InPlace(s)
  {
    forall i | 0 <= i < |s.taken| ensures t.offered[..t.taken[i]] == s.offered[..s.taken[i]] {
    }
  }

  lemma AcceptKeepsPlaces(s: System, t: System, block: seq<byte>)
    requires Subsequence(s) && Subsequence(t)
    requires t.taken == s.taken + [|s.offered|] && t.offered == s.offered + [block]
    requires t.transport.accepted == s.transport.accepted + [block]
    ensures InPlace(t) <==>
            InPlace(s) && (block == [] || |Flatten(s.transport.accepted)| == |Flatten(s.offered)|)
  {
    var n := |s.taken|;
    forall i | 0 <= i < n
      ensures t.offered[..t.taken[i]] == s.offered[..s.taken[i]]
      ensures t.transport.accepted[..i] == s.transport.accepted[..i]
      ensures t.transport.accepted[i] == s.transport.accepted[i]
    {
    }
    assert t.offered[..t.taken[n]] == s.offered && t.transport.accepted[..n] == s.transport.accepted;
    if InPlace(t) {
      assert block != [] ==> |Flatten(t.transport.accepted[..n])| == |Flatten(t.offered[..t.taken[n]])|;
      forall i | 0 <= i < n && s.transport.accepted[i] != []
        ensures |Flatten(s.transport.accepted[..i])| == |Flatten(s.offered[..s.taken[i]])|
      {
        assert t.transport.accepted[i] != [];
      }
    }
  }

  /** Nothing else changes what is offered or accepted. */
  lemma QuietStep(s: System, a: Action)
    requires Enabled(s, a) && !a.InjectPush? && !(a.InjectCheck? && s.transport.closed)
    ensures var t := Step(s, a);
            && t.transport.accepted == s.transport.accepted && t.offered == s.offered && t.taken == s.taken
            && (s.transport.closed ==> t.transport.closed && t.injecting == s.injecting)
            && (t.injecting == s.injecting
                || (a.InjectCheck? && t.injecting == s.injecting[a.goroutine := a.block]))
  {
  }

  lemma AccountQuiet(s: System, a: Action, loses: bool, skips: bool)
    requires Inv(s) && Enabled(s, a) && OneAtATime(s, a) && Accounted(s, loses, skips)
    requires !a.InjectPush? && !(a.InjectCheck? && s.transport.closed)
    ensures Subsequence(Step(s, a)) && Accounted(Step(s, a), loses, skips)
  {
    OfferKeeps(s, a);
    QuietStep(s, a);
    hide Step, Enabled;
    assert InPlace(Step(s, a)) <==> InPlace(s);
  }

  lemma AccountClosed(s: System, a: Action, loses: bool, skips: bool)
    requires Inv(s) && Enabled(s, a) && OneAtATime(s, a) && Accounted(s, loses, skips)
    requires a.InjectCheck? && s.transport.closed
    ensures Subsequence(Step(s, a)) && Accounted(Step(s, a), loses, skips)
  {
    OfferKeeps(s, a);
    OfferedGrows(s, a.block);
    OfferKeepsPlaces(s, Step(s, a), a.block);
    hide InPlace, Subsequence;
  }

  lemma AccountAccept(s: System, t: System, block: seq<byte>, loses: bool, skips: bool)
    requires Inv(s) && Accounted(s, loses, skips) && Subsequence(t) && s.injecting != map[]
    requires t.taken == s.taken + [|s.offered|] && t.offered == s.offered + [block] && t.injecting == map[]
    requires t.transport.accepted == s.transport.accepted + [block]
    ensures Accounted(t, loses, skips || (loses && block != []))
  {
    OfferedGrows(s, block);
    AcceptKeepsPlaces(s, t, block);
    hide InPlace, Subsequence, Inv, Flatten;
    assert Flatten(s.transport.accepted) + [] == Flatten(s.transport.accepted);
  }

  lemma AccountRefuse(s: System, t: System, block: seq<byte>, loses: bool, skips: bool)
    requires Inv(s) && Accounted(s, loses, skips) && Subsequence(t) && s.injecting != map[]
    requires t.taken == s.taken && t.offered == s.offered + [block] && t.injecting == map[]
    requires t.transport.accepted == s.transport.accepted
    ensures Accounted(t, loses || block != [], skips)
  {
    OfferedGrows(s, block);
    OfferKeepsPlaces(s, t, block);
    hide InPlace, Subsequence, Inv, Flatten;
    assert Flatten(s.offered) + [] == Flatten(s.offered);
  }

  lemma AccountPush(s: System, a: Action, loses: bool, skips: bool)
    requires Inv(s) && Enabled(s, a) && Accounted(s, loses, skips) && a.InjectPush?
    ensures Subsequence(Step(s, a))
    ensures Accounted(Step(s, a), loses || Refuses(s, a), skips || (loses && Accepts(s, a)))
  {
    var block, t := s.injecting[a.goroutine], Step(s, a);
    OfferKeeps(s, a);
    assert |s.transport.readChan| <= CAPACITY;
    assert s.injecting - {a.goroutine} == map[];
    hide InPlace, Subsequence, Inv, Flatten, Accounted;
    if |s.transport.readChan| < CAPACITY {
      AccountAccept(s, t, block, loses, skips);
    } else {
      AccountRefuse(s, t, block, loses, skips);
    }
  }

  lemma AccountStep(s: System, a: Action, loses: bool, skips: bool)
    requires Inv(s) && Enabled(s, a) && OneAtATime(s, a) && Accounted(s, loses, skips)
    ensures Subsequence(Step(s, a))
    ensures Accounted(Step(s, a), loses || Refuses(s, a), skips || (loses && Accepts(s, a)))
  {
    hide Inv, Enabled, Step, Accounted, Subsequence;
    if a.InjectPush? {
      AccountPush(s, a, loses, skips);
    } else if a.InjectCheck? && s.transport.closed {
      AccountClosed(s, a, loses, skips);
    } else {
      AccountQuiet(s, a, loses, skips);
    }
  }

  // ---- Whole runs ----

  lemma LastStep(actions: seq<Action>)
    requires actions != [] && Run(actions).Some?
    ensures var front, last := actions[..|actions| - 1], actions[|actions| - 1];
            && Run(front).Some? && Enabled(Run(front).value, last)
            && Run(actions).value == Step(Run(front).value, last)
  {
    hide Step, Enabled;
    assert After(actions[..|actions| - 1], actions[|actions| - 1]).Some?;
  }

  lemma FrontMoments(actions: seq<Action>, k: nat)
    requires actions != []
    ensures var front := actions[..|actions| - 1];
            && (RefusedAt(front, k) <==> RefusedAt(actions, k) && k < |front|)
            && (AcceptedAt(front, k) <==> AcceptedAt(actions, k) && k < |front|)
            && (RefusedAt(actions, k) || AcceptedAt(actions, k) ==> k <= |front|)
  {
    hide Run, Refuses, Accepts;
    var front := actions[..|actions| - 1];
    if k < |front| { assert front[..k] == actions[..k]; }
  }

  lemma LosesStep(actions: seq<Action>)
    requires actions != []
    ensures Loses(actions) <==> Loses(actions[..|actions| - 1]) || RefusedAt(actions, |actions| - 1)
  {
    hide RefusedAt;
    var front, n := actions[..|actions| - 1], |actions| - 1;
    if Loses(actions) {
      var k :| RefusedAt(actions, k);
      FrontMoments(actions, k);
    }
    if Loses(front) {
      var k :| RefusedAt(front, k);
      FrontMoments(actions, k);
    }
  }

  lemma SkipsStep(actions: seq<Action>)
    requires actions != []
    ensures Skips(actions) <==>
            Skips(actions[..|actions| - 1])
            || (Loses(actions[..|actions| - 1]) && AcceptedAt(actions, |actions| - 1))
  {
    hide RefusedAt, AcceptedAt;
    var front, n := actions[..|actions| - 1], |actions| - 1;
    if Skips(actions) {
      var j, k :| j < k && RefusedAt(actions, j) && AcceptedAt(actions, k);
      FrontMoments(actions, j);
      FrontMoments(actions, k);
    }
    if Skips(front) {
      var j, k :| j < k && RefusedAt(front, j) && AcceptedAt(front, k);
      FrontMoments(actions, j);
      FrontMoments(actions, k);
    }
    if Loses(front) && AcceptedAt(actions, n) {
      var j :| RefusedAt(front, j);
      FrontMoments(actions, j);
    }
  }

  lemma LastAction(actions: seq<Action>)
    requires actions != [] && Run(actions[..|actions| - 1]).Some?
    ensures var front, last := actions[..|actions| - 1], actions[|actions| - 1];
            && (Loses(actions) <==> Loses(front) || Refuses(Run(front).value, last))
            && (Skips(actions) <==> Skips(front) || (Loses(front) && Accepts(Run(front).value, last)))
  {
    LosesStep(actions);
    SkipsStep(actions);
    hide Run, Loses, Skips, Refuses, Accepts;
  }

  lemma PrefixOneListener(actions: seq<Action>)
    requires actions != [] && OneListener(actions)
    ensures var front, last := actions[..|actions| - 1], actions[|actions| - 1];
            OneListener(front) && Run(front).Some? && OneAtATime(Run(front).value, last)
  {
    hide Run, OneAtATime;
    var front, n := actions[..|actions| - 1], |actions| - 1;
    assert Run(actions[..n]).Some? && OneAtATime(Run(actions[..n]).value, actions[n]);
    forall k | 0 <= k < |front|
      ensures Run(front[..k]).Some? && OneAtATime(Run(front[..k]).value, front[k])
    {
      assert front[..k] == actions[..k];
    }
  }

  lemma {:induction false} RunsAccount(actions: seq<Action>)
    requires Run(actions).Some? && OneListener(actions)
    ensures Inv(Run(actions).value) && Accounted(Run(actions).value, Loses(actions), Skips(actions))
    decreases |actions|
  {
    RunsKeepInv(actions);
    if actions == [] {
      assert !Loses(actions) && !Skips(actions);
    } else {
      var front := actions[..|actions| - 1];
      LastStep(actions);
      LastAction(actions);
      PrefixOneListener(actions);
      RunsAccount(front);
      hide Run, Step, Enabled, Inv, Accounted, Loses, Skips, OneListener, Refuses, Accepts, OneAtATime;
      AccountStep(Run(front).value, actions[|actions| - 1], Loses(front), Skips(front));
    }
  }

  /**
    Each accepted byte keeps its place in the stream offered exactly when no non-empty block is
    accepted after the full channel has refused one; then what is read is a prefix of that stream.
    Refusals after `Close` do no harm.
   */
  lemma PlacesKeptExactly(actions: seq<Action>)
    requires Run(actions).Some? && OneListener(actions)
    ensures Subsequence(Run(actions).value)
    ensures InPlace(Run(actions).value) <==> !Skips(actions)
    ensures !Skips(actions) ==> Run(actions).value.transport.read <= Flatten(Run(actions).value.offered)
  {
    RunsAccount(actions);
    hide Run, Skips, OneListener, InPlace;
    ReadIsAccepted(Run(actions).value);
  }

  lemma ReadIsAccepted(s: System)
    requires Inv(s)
    ensures s.transport.read <= Flatten(s.transport.accepted)
  {
    var t := s.transport;
    Associative(t.read, t.readBuffer, Flatten(t.readChan));
  }

  // ---- Blocks that can be told apart ----

  ghost predicate Distinct(blocks: seq<seq<byte>>) {
    && (forall i :: 0 <= i < |blocks| ==> blocks[i] != [])
    && (forall i, j :: 0 <= i < j < |blocks| ==> blocks[i] != blocks[j])
  }

  lemma {:induction false} LongerIsLonger(blocks: seq<seq<byte>>, i: nat, j: nat)
    requires i <= j <= |blocks| && forall k :: 0 <= k < |blocks| ==> blocks[k] != []
    ensures |Flatten(blocks[..i])| <= |Flatten(blocks[..j])|
    ensures i < j ==> |Flatten(blocks[..i])| < |Flatten(blocks[..j])|
    decreases j
  {
    if i < j {
      assert blocks[..j][..j - 1] == blocks[..j - 1];
      LongerIsLonger(blocks, i, j - 1);
    }
  }

  lemma {:induction false} TakenAtLeast(s: System, i: nat)
    requires Subsequence(s) && i < |s.taken|
    ensures i <= s.taken[i] < |s.offered|
  {
    if i > 0 { TakenAtLeast(s, i - 1); }
  }

  lemma NextInPlace(s: System, i: nat)
    requires Subsequence(s) && InPlace(s) && i < |s.taken|
    requires forall k :: 0 <= k < |s.offered| ==> s.offered[k] != []
    requires i < |s.offered| && s.transport.accepted[..i] == s.offered[..i]
    ensures s.taken[i] == i && s.transport.accepted[i] == s.offered[i]
  {
    TakenAtLeast(s, i);
    var k := s.taken[i];
    assert s.transport.accepted[i] == s.offered[k] != [];
    assert |Flatten(s.transport.accepted[..i])| == |Flatten(s.offered[..k])|;
    hide Flatten, InPlace, Subsequence;
    LongerIsLonger(s.offered, i, k);
  }

  /** In place means that the first blocks offered were the ones accepted. */
  lemma {:induction false} InPlaceTakesFirst(s: System, n: nat)
    requires Subsequence(s) && InPlace(s) && n <= |s.taken|
    requires forall k :: 0 <= k < |s.offered| ==> s.offered[k] != []
    ensures n <= |s.offered| && s.transport.accepted[..n] == s.offered[..n]
  {
    assert |s.transport.accepted| == |s.taken|;
    hide InPlace, Subsequence, Flatten;
    if n > 0 {
      InPlaceTakesFirst(s, n - 1);
      TakenAtLeast(s, n - 1);
      NextInPlace(s, n - 1);
      OneMoreEqual(s.transport.accepted, s.offered, n);
    }
  }

  lemma OneMoreEqual(a: seq<seq<byte>>, b: seq<seq<byte>>, n: nat)
    requires 0 < n <= |a| && n <= |b| && a[..n - 1] == b[..n - 1] && a[n - 1] == b[n - 1]
    ensures a[..n] == b[..n]
  {
    assert a[..n] == a[..n - 1] + [a[n - 1]];
    assert b[..n] == b[..n - 1] + [b[n - 1]];
  }

  lemma TakesFirstInPlace(s: System)
    requires Subsequence(s) && Distinct(s.offered) && s.transport.accepted <= s.offered
    ensures InPlace(s)
  {
    forall i | 0 <= i < |s.taken| ensures s.taken[i] == i && s.transport.accepted[..i] == s.offered[..i] {
      assert s.offered[i] == s.transport.accepted[i] == s.offered[s.taken[i]];
    }
  }

  lemma InPlaceMeansFirst(s: System)
    requires Subsequence(s) && Distinct(s.offered)
    ensures s.transport.accepted <= s.offered <==> InPlace(s)
  {
    if InPlace(s) {
      InPlaceTakesFirst(s, |s.taken|);
      assert s.transport.accepted[..|s.taken|] == s.transport.accepted;
    } else if s.transport.accepted <= s.offered {
      TakesFirstInPlace(s);
    }
  }

  /** Of blocks that can be told apart, the accepted ones are the first ones under the same condition. */
  lemma AcceptedAreFirstExactly(actions: seq<Action>)
    requires Run(actions).Some? && OneListener(actions) && Distinct(Run(actions).value.offered)
    ensures Run(actions).value.transport.accepted <= Run(actions).value.offered <==> !Skips(actions)
  {
    PlacesKeptExactly(actions);
    hide Run, Skips, OneListener, InPlace, Distinct, Subsequence;
    InPlaceMeansFirst(Run(actions).value);
  }

  // ---- A run that loses a block in the middle ----

  function Repeated(x: seq<byte>, n: nat): (blocks: seq<seq<byte>>)
    ensures |blocks| == n
  {
    if n == 0 then [] else Repeated(x, n - 1) + [x]
  }

  /** One more action of a listener that injects one block after the other. */
  lemma GoOn(actions: seq<Action>, a: Action) returns (more: seq<Action>)
    requires Run(actions).Some? && OneListener(actions)
    requires Enabled(Run(actions).value, a) && OneAtATime(Run(actions).value, a)
    ensures more == actions + [a] && OneListener(more) && Run(more) == Some(Step(Run(actions).value, a))
  {
    hide Step, Enabled, OneAtATime;
    more := actions + [a];
    assert more[..|actions|] == actions;
    assert Run(more) == After(actions, a);
    forall k | 0 <= k < |more| ensures Run(more[..k]).Some? && OneAtATime(Run(more[..k]).value, more[k]) {
      if k < |actions| { assert more[..k] == actions[..k]; }
    }
  }

  /** A transport nobody has closed, whose reader has read all but the blocks queued. */
  ghost predicate Quiet(s: System) {
    && !s.transport.closed && s.transport.closeChanClosed == 0
    && s.transport.readBuffer == [] && s.reader.None? && s.injecting == map[]
  }

  lemma Inject(actions: seq<Action>, block: seq<byte>) returns (more: seq<Action>)
    requires Run(actions).Some? && OneListener(actions) && Quiet(Run(actions).value)
    ensures Run(more).Some? && OneListener(more) && Quiet(Run(more).value)
    ensures var s, t := Run(actions).value, Run(more).value;
            && t.transport == Push(s.transport, block) && t.offered == s.offered + [block]
  {
    hide Run, OneListener;
    more := GoOn(actions, InjectCheck(0, block));
    more := GoOn(more, InjectPush(0));
    assert map[0 := block] - {0} == map[];
  }

  lemma ReadBlock(actions: seq<Action>) returns (more: seq<Action>)
    requires Run(actions).Some? && OneListener(actions) && Quiet(Run(actions).value)
    requires Run(actions).value.transport.readChan != []
    ensures Run(more).Some? && OneListener(more) && Quiet(Run(more).value)
    ensures var s, t := Run(actions).value, Run(more).value;
            && t.transport.readChan == s.transport.readChan[1..] && t.offered == s.offered
            && t.transport.read == s.transport.read + s.transport.readChan[0]
  {
    hide Run, OneListener;
    var block := Run(actions).value.transport.readChan[0];
    more := GoOn(actions, ReadCheck(|block|));
    more := GoOn(more, ReadFinish(false));
    assert block[..|block|] == block && block[|block|..] == [];
  }

  lemma {:induction false} Fill(n: nat) returns (actions: seq<Action>)
    requires n <= CAPACITY
    ensures Run(actions).Some? && OneListener(actions) && Quiet(Run(actions).value)
    ensures var s := Run(actions).value;
            s.transport.readChan == s.offered == Repeated([0], n) && s.transport.read == []
  {
    if n == 0 {
      actions := [];
    } else {
      hide Run, OneListener, Quiet;
      actions := Fill(n - 1);
      actions := Inject(actions, [0]);
    }
  }

  lemma {:induction false} Drain(actions: seq<Action>) returns (more: seq<Action>)
    requires Run(actions).Some? && OneListener(actions) && Quiet(Run(actions).value)
    ensures Run(more).Some? && OneListener(more)
    ensures var s, t := Run(actions).value, Run(more).value;
            t.transport.read == s.transport.read + Flatten(s.transport.readChan) && t.offered == s.offered
    decreases |Run(actions).value.transport.readChan|
  {
    hide Run, OneListener, Quiet;
    var s := Run(actions).value;
    more := actions;
    if s.transport.readChan != [] {
      more := ReadBlock(actions);
      var first, rest := s.transport.readChan[0], s.transport.readChan[1..];
      FlattenConcat([first], rest);
      FlattenOne(first);
      assert [first] + rest == s.transport.readChan;
      Associative(s.transport.read, first, Flatten(rest));
      more := Drain(more);
    }
  }

  lemma {:induction false} RepeatedFlat(n: nat)
    ensures |Flatten(Repeated([0], n))| == n
  {
    if n > 0 {
      RepeatedFlat(n - 1);
      assert Repeated([0], n)[..n - 1] == Repeated([0], n - 1);
    }
  }

  lemma {:induction false} RepeatedFront(n: nat)
    requires n > 0
    ensures Repeated([0], n) == [[0]] + Repeated([0], n - 1)
  {
    if n > 1 { RepeatedFront(n - 1); }
  }

  /**
    The channel is full, one more block comes, the reader takes one block and yet another comes:
    in the end the reader has read the block after the lost one in its place.
   */
  lemma RefusalSkipsBlock() returns (actions: seq<Action>)
    ensures Run(actions).Some? && OneListener(actions)
    ensures !(Run(actions).value.transport.read <= Flatten(Run(actions).value.offered))
    ensures Skips(actions)
  {
    hide Run, OneListener, Quiet, Skips, InPlace, Flatten;
    RepeatedFront(CAPACITY);
    actions := Fill(CAPACITY);
    actions := Inject(actions, [1]);
    actions := ReadBlock(actions);
    actions := Inject(actions, [2]);
    var s := Run(actions).value;
    actions := Drain(actions);
    ReadOutOfPlace(s, Run(actions).value);
    PlacesKeptExactly(actions);
  }

  lemma ReadOutOfPlace(s: System, t: System)
    requires s.offered == t.offered == Repeated([0], CAPACITY) + [[1]] + [[2]]
    requires s.transport.readChan == Repeated([0], CAPACITY)[1..] + [[2]]
    requires s.transport.read == [0] && t.transport.read == s.transport.read + Flatten(s.transport.readChan)
    ensures !(t.transport.read <= Flatten(t.offered))
  {
    RepeatedFront(CAPACITY);
    hide Flatten, Repeated;
    var zeros, rest := Repeated([0], CAPACITY), Repeated([0], CAPACITY - 1);
    assert zeros[1..] == rest;
    ByteAfter(rest, CAPACITY - 1, 2, []);
    assert rest + [[2]] + [] == rest + [[2]];
    ByteAfter(zeros, CAPACITY, 1, [[2]]);
    assert t.transport.read[CAPACITY] == 2 && Flatten(t.offered)[CAPACITY] == 1;
  }

  lemma ByteAfter(blocks: seq<seq<byte>>, n: nat, b: byte, more: seq<seq<byte>>)
    requires blocks == Repeated([0], n)
    ensures var bytes := Flatten(blocks + [[b]] + more); |bytes| > n && bytes[n] == b
  {
    RepeatedFlat(n);
    hide Flatten, Repeated;
    FlattenConcat(blocks, [[b]]);
    FlattenConcat(blocks + [[b]], more);
    FlattenOne([b]);
  }
}
