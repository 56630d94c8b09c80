/** Any number of uploads at once, interleaved request by request, each of which may fail. */
module UploadRuns {
  import opened Options
  import opened Wire
  import opened RemoteFiles

  /** Where a `PutFile` call stands: between which two requests. */
  datatype Stage =
    | Creating
    | Writing
    | Closing(written: nat, writeFailed: bool)
    | PosixRenaming
    | Renaming
    | Removing
    | Finished(ok: bool)

  datatype Upload = Upload(target: string, suffix: string, data: seq<byte>, stage: Stage) {
    function Tmp(): string { TempPath(target, suffix) }
  }

  /**
    The files, the uploads begun so far, the uploads whose rename took effect, in order, and
    those among them whose rename was reported as failed.
   */
  datatype System = System(
    fs: Files,
    uploads: seq<Upload>,
    installs: seq<nat>,
    leaked: set<nat>)

  datatype Action =
    | Begin(target: string, suffix: string, data: seq<byte>)
    | Create(u: nat, o: Outcome)
    | Progress(u: nat, partial: seq<byte>)
    | WriteReturns(u: nat, written: nat, failed: bool)
    | CloseReturns(u: nat, failed: bool)
    | PosixRename(u: nat, o: Outcome)
    | Rename(u: nat, o: Outcome)
    | Remove(u: nat, o: Outcome)

  const SUFFIX_LENGTH: nat := 16

  /** Suffixes are distinct, and nobody uploads to another upload's temporary file. */
  predicate FreshUpload(uploads: seq<Upload>, target: string, suffix: string) {
    && |suffix| == SUFFIX_LENGTH
    && forall i :: 0 <= i < |uploads| ==>
         && uploads[i].suffix != suffix
         && uploads[i].target != TempPath(target, suffix)
         && uploads[i].Tmp() != target
  }

  predicate At(s: System, u: nat, stage: Stage) {
    u < |s.uploads| && s.uploads[u].stage == stage
  }

  predicate Enabled(s: System, a: Action) {
    match a
    case Begin(target, suffix, _) => FreshUpload(s.uploads, target, suffix)
    case Create(u, _) => At(s, u, Creating)
    case Progress(u, _) => At(s, u, Writing)
    case WriteReturns(u, written, failed) =>
      At(s, u, Writing) && s.uploads[u].Tmp() in s.fs
      && Honest(s.uploads[u].data, s.fs[s.uploads[u].Tmp()], written, failed)
    case CloseReturns(u, _) => u < |s.uploads| && s.uploads[u].stage.Closing?
    case PosixRename(u, _) => At(s, u, PosixRenaming)
    case Rename(u, _) => At(s, u, Renaming)
    case Remove(u, _) => At(s, u, Removing)
  }

  function Move(s: System, u: nat, fs: Files, stage: Stage): System
    requires u < |s.uploads|
  {
    s.(fs := fs, uploads := s.uploads[u := s.uploads[u].(stage := stage)])
  }

  /** A rename that took effect is recorded, and remembered if it was reported as failed. */
  function Renames(s: System, u: nat, r: Reply, otherwise: Stage): System
    requires u < |s.uploads|
  {
    var s := Move(s, u, r.fs, if r.ok then Finished(true) else otherwise);
    if r.applied then s.(installs := s.installs + [u], leaked := s.leaked + if r.ok then {} else {u})
    else s
  }

  function Step(s: System, a: Action): System
    requires Enabled(s, a)
  {
    match a
    case Begin(target, suffix, data) =>
      s.(uploads := s.uploads + [Upload(target, suffix, data, Creating)])
    case Create(u, o) =>
      var r := Attempt(s.fs, Created(s.fs, s.uploads[u].Tmp()), o);
      Move(s, u, r.fs, if r.ok then Writing else Finished(false))
    case Progress(u, partial) => Move(s, u, s.fs[s.uploads[u].Tmp() := partial], Writing)
    case WriteReturns(u, written, failed) => Move(s, u, s.fs, Closing(written, failed))
    case CloseReturns(u, failed) =>
      var stage := s.uploads[u].stage;
      if stage.writeFailed || stage.written != |s.uploads[u].data| || failed
      then Move(s, u, s.fs, Removing)
      else Move(s, u, s.fs, PosixRenaming)
    case PosixRename(u, o) =>
      var up := s.uploads[u];
      Renames(s, u, Attempt(s.fs, PosixRenamed(s.fs, up.Tmp(), up.target), o), Renaming)
    case Rename(u, o) =>
      var up := s.uploads[u];
      Renames(s, u, Attempt(s.fs, Renamed(s.fs, up.Tmp(), up.target), o), Removing)
    case Remove(u, o) =>
      Move(s, u, Attempt(s.fs, Removed(s.fs, s.uploads[u].Tmp()), o).fs, Finished(false))
  }

  function Start(fs: Files): System {
    System(fs, [], [], {})
  }

  function Run(fs: Files, actions: seq<Action>): Option<System>
    decreases |actions|, 0
  {
    if actions == [] then Some(Start(fs)) else After(fs, actions[..|actions| - 1], actions[|actions| - 1])
  }

  /** The state after a run and one more action. */
  function After(fs: Files, actions: seq<Action>, a: Action): Option<System>
    decreases |actions|, 1
  {
    match Run(fs, actions)
    case None => None
    case Some(s) => if Enabled(s, a) then Some(Step(s, a)) else None
  }

  // ---- What every reachable state satisfies ----

  /** What a path holds: the data of the last upload installed there, else what it held at first. */
  function Expected(initial: Files, uploads: seq<Upload>, installs: seq<nat>, p: string): Option<seq<byte>>
    requires forall i :: 0 <= i < |installs| ==> installs[i] < |uploads|
  {
    if installs == [] then Lookup(initial, p)
    else
      var last := installs[|installs| - 1];
      if uploads[last].target == p then Some(uploads[last].data)
      else Expected(initial, uploads, installs[..|installs| - 1], p)
  }

  ghost predicate Separate(uploads: seq<Upload>) {
    && (forall i :: 0 <= i < |uploads| ==> |uploads[i].suffix| == SUFFIX_LENGTH)
    && (forall i, j :: 0 <= i < j < |uploads| ==> uploads[i].Tmp() != uploads[j].Tmp())
    && (forall i, j :: 0 <= i < |uploads| && 0 <= j < |uploads| ==> uploads[i].Tmp() != uploads[j].target)
  }

  ghost predicate IsTemp(uploads: seq<Upload>, p: string) {
    exists i :: 0 <= i < |uploads| && uploads[i].Tmp() == p
  }

  ghost predicate InOrder(s: System) {
    && (forall i :: 0 <= i < |s.installs| ==> s.installs[i] < |s.uploads|)
    && (forall i :: i in s.leaked ==> i in s.installs)
  }

  /** Outside the temporary files, every path holds exactly what the installs so far say. */
  ghost predicate Atomic(initial: Files, s: System)
    requires InOrder(s)
  {
    forall p: string :: !IsTemp(s.uploads, p) ==>
      Lookup(s.fs, p) == Expected(initial, s.uploads, s.installs, p)
  }

  /** What one upload's stage says about its temporary file and its install. */
  ghost predicate StageHolds(s: System, u: nat)
    requires u < |s.uploads|
  {
    var up := s.uploads[u];
    && (u in s.installs ==> up.Tmp() !in s.fs)
    && match up.stage
       case Creating => u !in s.installs
       case Writing => u !in s.installs && up.Tmp() in s.fs
       case Closing(written, failed) =>
         u !in s.installs && up.Tmp() in s.fs && Honest(up.data, s.fs[up.Tmp()], written, failed)
       case PosixRenaming => u !in s.installs && up.Tmp() in s.fs && s.fs[up.Tmp()] == up.data
       case Renaming =>
         && (u in s.installs <==> u in s.leaked)
         && (u !in s.installs ==> up.Tmp() in s.fs && s.fs[up.Tmp()] == up.data)
       case Removing => u in s.installs <==> u in s.leaked
       case Finished(ok) => if ok then u in s.installs && u !in s.leaked
                            else u in s.installs <==> u in s.leaked
  }

  ghost predicate Inv(initial: Files, s: System) {
    && Separate(s.uploads)
    && InOrder(s)
    && Atomic(initial, s)
    && (forall u :: 0 <= u < |s.uploads| ==> StageHolds(s, u))
  }

  // ---- Steps ----

  lemma {:induction false} ExpectedStable(
    initial: Files, us: seq<Upload>, vs: seq<Upload>, installs: seq<nat>, p: string)
    requires forall i :: 0 <= i < |installs| ==> installs[i] < |us| <= |vs|
    requires |us| <= |vs| && forall i :: 0 <= i < |us| ==> us[i].target == vs[i].target && us[i].data == vs[i].data
    ensures Expected(initial, us, installs, p) == Expected(initial, vs, installs, p)
  {
    if installs != [] { ExpectedStable(initial, us, vs, installs[..|installs| - 1], p); }
  }

  /** A step of upload `u` that touches no file but its own temporary one. */
  lemma OwnTempStep(initial: Files, s: System, u: nat, fs: Files, stage: Stage)
    requires Inv(initial, s) && u < |s.uploads|
    requires fs - {s.uploads[u].Tmp()} == s.fs - {s.uploads[u].Tmp()}
    requires StageHolds(Move(s, u, fs, stage), u)
    ensures Inv(initial, Move(s, u, fs, stage))
  {
    var t, tmp := Move(s, u, fs, stage), s.uploads[u].Tmp();
    forall p: string | p != tmp ensures Lookup(fs, p) == Lookup(s.fs, p) {
      assert Lookup(fs, p) == Lookup(fs - {tmp}, p);
      assert Lookup(s.fs, p) == Lookup(s.fs - {tmp}, p);
    }
    SameTemps(s, t);
    forall p: string | !IsTemp(t.uploads, p)
      ensures Lookup(t.fs, p) == Expected(initial, t.uploads, t.installs, p)
    {
      assert p != tmp by { assert t.uploads[u].Tmp() == tmp; }
      ExpectedStable(initial, s.uploads, t.uploads, s.installs, p);
    }
    forall v | 0 <= v < |t.uploads| && v != u ensures StageHolds(t, v) {
      OthersKeep(s, t, u, v);
    }
  }

  lemma SameTemps(s: System, t: System)
    requires |t.uploads| == |s.uploads|
    requires forall i :: 0 <= i < |s.uploads| ==> t.uploads[i].Tmp() == s.uploads[i].Tmp()
    ensures forall p :: IsTemp(t.uploads, p) <==> IsTemp(s.uploads, p)
  {
  }

  /** Another upload's stage says the same as long as its temporary file and install do. */
  lemma OthersKeep(s: System, t: System, u: nat, v: nat)
    requires u < |s.uploads| && v < |s.uploads| == |t.uploads| && u != v
    requires t.uploads[v] == s.uploads[v] && StageHolds(s, v)
    requires Lookup(t.fs, s.uploads[v].Tmp()) == Lookup(s.fs, s.uploads[v].Tmp())
    requires v in t.installs <==> v in s.installs
    requires v in t.leaked <==> v in s.leaked
    ensures StageHolds(t, v)
  {
  }

  /** The rename of upload `u` takes effect, reported or not. */
  lemma InstallStep(initial: Files, s: System, u: nat, r: Reply, otherwise: Stage)
    requires Inv(initial, s) && u < |s.uploads|
    requires var up := s.uploads[u];
             && up.Tmp() in s.fs && s.fs[up.Tmp()] == up.data && u !in s.installs
             && r.fs == (s.fs - {up.Tmp()})[up.target := up.data] && r.applied
    requires r.ok || otherwise == Renaming || otherwise == Removing
    ensures Inv(initial, Renames(s, u, r, otherwise))
  {
    var t, up := Renames(s, u, r, otherwise), s.uploads[u];
    assert up.Tmp() != up.target && u !in s.leaked && StageHolds(t, u);
    InstallIsAtomic(initial, s, t, u);
    forall v | 0 <= v < |t.uploads| && v != u ensures StageHolds(t, v) {
      assert s.uploads[v].Tmp() != up.target && s.uploads[v].Tmp() != up.Tmp();
      OthersKeep(s, t, u, v);
    }
    hide Atomic, StageHolds;
  }

  lemma InstallIsAtomic(initial: Files, s: System, t: System, u: nat)
    requires InOrder(s) && Atomic(initial, s) && u < |s.uploads| && InOrder(t)
    requires |t.uploads| == |s.uploads| && t.uploads[u].Tmp() == s.uploads[u].Tmp()
    requires forall i :: 0 <= i < |s.uploads| ==>
               t.uploads[i] == s.uploads[i].(stage := t.uploads[i].stage)
    requires t.installs == s.installs + [u]
    requires var up := s.uploads[u]; t.fs == (s.fs - {up.Tmp()})[up.target := up.data]
    ensures Atomic(initial, t)
  {
    assert t.installs[..|s.installs|] == s.installs;
    SameTemps(s, t);
    forall p: string | !IsTemp(t.uploads, p)
      ensures Lookup(t.fs, p) == Expected(initial, t.uploads, t.installs, p)
    {
      assert p != s.uploads[u].Tmp();
      ExpectedStable(initial, s.uploads, t.uploads, s.installs, p);
    }
  }

  lemma RenameKeeps(initial: Files, s: System, u: nat, effect: Option<Files>, o: Outcome, otherwise: Stage)
    requires Inv(initial, s) && u < |s.uploads|
    requires (At(s, u, PosixRenaming) && otherwise == Renaming) || (At(s, u, Renaming) && otherwise == Removing)
    requires var up := s.uploads[u];
             && (effect.Some? ==> up.Tmp() in s.fs && effect.value == (s.fs - {up.Tmp()})[up.target := s.fs[up.Tmp()]])
    ensures Inv(initial, Renames(s, u, Attempt(s.fs, effect, o), otherwise))
  {
    var r := Attempt(s.fs, effect, o);
    assert StageHolds(s, u);
    if r.applied {
      InstallStep(initial, s, u, r, otherwise);
    } else {
      OwnTempStep(initial, s, u, s.fs, otherwise);
    }
  }

  lemma BeginKeeps(initial: Files, s: System, up: Upload)
    requires Inv(initial, s) && FreshUpload(s.uploads, up.target, up.suffix) && up.stage == Creating
    ensures Inv(initial, s.(uploads := s.uploads + [up]))
  {
    var t := s.(uploads := s.uploads + [up]);
    TempIsNotTarget(up.target, up.suffix);
    forall i | 0 <= i < |s.uploads| ensures s.uploads[i].Tmp() != up.Tmp() {
      TempPathsDiffer(s.uploads[i].target, s.uploads[i].suffix, up.target, up.suffix);
    }
    forall p: string | !IsTemp(t.uploads, p)
      ensures Lookup(t.fs, p) == Expected(initial, t.uploads, t.installs, p)
    {
      assert !IsTemp(s.uploads, p) by {
        assert forall i :: 0 <= i < |s.uploads| ==> t.uploads[i] == s.uploads[i];
      }
      ExpectedStable(initial, s.uploads, t.uploads, s.installs, p);
    }
    assert |s.uploads| !in s.installs;
    forall v | 0 <= v < |t.uploads| ensures StageHolds(t, v) {
      if v < |s.uploads| { assert StageHolds(s, v); }
    }
  }

  lemma StepKeeps(initial: Files, s: System, a: Action)
    requires Inv(initial, s) && Enabled(s, a)
    ensures Inv(initial, Step(s, a))
  {
    hide Atomic, Separate;
    match a {
      case Begin(target, suffix, data) =>
        BeginKeeps(initial, s, Upload(target, suffix, data, Creating));
      case PosixRename(u, o) =>
        RenameKeeps(initial, s, u, PosixRenamed(s.fs, s.uploads[u].Tmp(), s.uploads[u].target), o, Renaming);
      case Rename(u, o) =>
        RenameKeeps(initial, s, u, Renamed(s.fs, s.uploads[u].Tmp(), s.uploads[u].target), o, Removing);
      case _ => QuietKeeps(initial, s, a);
    }
  }

  /** Every other request leaves all files but the upload's temporary one alone. */
  lemma QuietKeeps(initial: Files, s: System, a: Action)
    requires Inv(initial, s) && Enabled(s, a) && !a.Begin? && !a.PosixRename? && !a.Rename?
    ensures Inv(initial, Step(s, a))
  {
    hide Atomic, Separate;
    var u := a.u;
    var tmp := s.uploads[u].Tmp();
    assert StageHolds(s, u);
    match a {
      case Create(_, o) =>
        var r := Attempt(s.fs, Created(s.fs, tmp), o);
        assert s.fs[tmp := []] - {tmp} == s.fs - {tmp};
        OwnTempStep(initial, s, u, r.fs, if r.ok then Writing else Finished(false));
      case Progress(_, partial) =>
        assert s.fs[tmp := partial] - {tmp} == s.fs - {tmp};
        OwnTempStep(initial, s, u, s.fs[tmp := partial], Writing);
      case WriteReturns(_, written, failed) =>
        OwnTempStep(initial, s, u, s.fs, Closing(written, failed));
      case CloseReturns(_, failed) =>
        var stage := s.uploads[u].stage;
        OwnTempStep(initial, s, u, s.fs,
                    if stage.writeFailed || stage.written != |s.uploads[u].data| || failed
                    then Removing else PosixRenaming);
      case Remove(_, o) =>
        RemoveOnlyTemp(s.fs, tmp, o);
        OwnTempStep(initial, s, u, Attempt(s.fs, Removed(s.fs, tmp), o).fs, Finished(false));
    }
  }

  lemma {:induction false} RunsKeepInv(fs: Files, actions: seq<Action>)
    requires Run(fs, actions).Some?
    ensures Inv(fs, Run(fs, actions).value)
    decreases |actions|
  {
    if actions != [] {
      var front, last := actions[..|actions| - 1], actions[|actions| - 1];
      assert After(fs, front, last).Some?;
      RunsKeepInv(fs, front);
      hide Inv, Enabled, Step;
      StepKeeps(fs, Run(fs, front).value, last);
    }
  }

  // ---- What a reader of the target sees ----

  lemma {:induction false} ExpectedIsWhole(initial: Files, us: seq<Upload>, installs: seq<nat>, p: string)
    requires forall i :: 0 <= i < |installs| ==> installs[i] < |us|
    ensures var e := Expected(initial, us, installs, p);
            e == Lookup(initial, p)
            || exists i :: 0 <= i < |installs| && us[installs[i]].target == p && e == Some(us[installs[i]].data)
  {
    if installs != [] {
      ExpectedIsWhole(initial, us, installs[..|installs| - 1], p);
      assert us[installs[|installs| - 1]].target == p ==>
               Expected(initial, us, installs, p) == Some(us[installs[|installs| - 1]].data);
    }
  }

  /**
    In every intermediate state of any interleaving, with any failures and short writes, a path
    that is no temporary file holds its old content or the complete data of one upload to it:
    that of the last install there.
   */
  lemma UploadsAreAtomic(fs: Files, actions: seq<Action>, p: string)
    requires Run(fs, actions).Some? && !IsTemp(Run(fs, actions).value.uploads, p)
    ensures var s := Run(fs, actions).value;
            && InOrder(s)
            && Lookup(s.fs, p) == Expected(fs, s.uploads, s.installs, p)
            && (Lookup(s.fs, p) == Lookup(fs, p)
                || exists u :: 0 <= u < |s.uploads| && u in s.installs
                               && s.uploads[u].target == p && Lookup(s.fs, p) == Some(s.uploads[u].data))
  {
    RunsKeepInv(fs, actions);
    var s := Run(fs, actions).value;
    hide Run;
    ExpectedIsWhole(fs, s.uploads, s.installs, p);
  }

  /** A request of upload `u`. */
  predicate Concerns(a: Action, u: nat) {
    !a.Begin? && a.u == u
  }

  /** A rename the server performs although it is reported as failed. */
  predicate FailsApplied(s: System, a: Action, u: nat) {
    && u < |s.uploads|
    && match a
       case PosixRename(v, o) =>
         v == u && o == Fails(true) && s.uploads[u].Tmp() in s.fs
       case Rename(v, o) =>
         v == u && o == Fails(true) && s.uploads[u].Tmp() in s.fs && s.uploads[u].target !in s.fs
       case _ => false
  }

  ghost predicate FailsAppliedAt(fs: Files, actions: seq<Action>, u: nat, k: nat) {
    k < |actions| && Run(fs, actions[..k]).Some? && FailsApplied(Run(fs, actions[..k]).value, actions[k], u)
  }

  /** A rename of upload `u` was reported as failed after the server had done it. */
  ghost predicate ReplyLost(fs: Files, actions: seq<Action>, u: nat) {
    exists k :: FailsAppliedAt(fs, actions, u, k)
  }

  lemma LeakStep(s: System, a: Action, u: nat)
    requires Enabled(s, a)
    ensures u in Step(s, a).leaked <==> u in s.leaked || FailsApplied(s, a, u)
  {
  }

  lemma LastReply(fs: Files, actions: seq<Action>, u: nat)
    requires actions != [] && Run(fs, actions).Some?
    ensures var front, last := actions[..|actions| - 1], actions[|actions| - 1];
            && Run(fs, front).Some? && Enabled(Run(fs, front).value, last)
            && Run(fs, actions).value == Step(Run(fs, front).value, last)
            && (ReplyLost(fs, actions, u) <==>
                  ReplyLost(fs, front, u) || FailsApplied(Run(fs, front).value, last, u))
  {
    hide Step, Enabled, FailsApplied;
    var front, n := actions[..|actions| - 1], |actions| - 1;
    assert After(fs, front, actions[n]).Some?;
    forall k | 0 <= k <= n ensures front[..k] == actions[..k] {
    }
    forall k: nat
      ensures FailsAppliedAt(fs, front, u, k) ==> FailsAppliedAt(fs, actions, u, k)
      ensures FailsAppliedAt(fs, actions, u, k) && k < n ==> FailsAppliedAt(fs, front, u, k)
    {
    }
    assert FailsAppliedAt(fs, actions, u, n) <==> FailsApplied(Run(fs, front).value, actions[n], u);
  }

  /** The uploads remembered as leaked are those whose rename took effect but was reported as failed. */
  lemma {:induction false} LeakedExactly(fs: Files, actions: seq<Action>, u: nat)
    requires Run(fs, actions).Some?
    ensures u in Run(fs, actions).value.leaked <==> ReplyLost(fs, actions, u)
    decreases |actions|
  {
    if actions == [] {
      assert !ReplyLost(fs, actions, u);
    } else {
      LastReply(fs, actions, u);
      var front := actions[..|actions| - 1];
      LeakedExactly(fs, front, u);
      hide Run, Step, Enabled, FailsApplied, ReplyLost;
      LeakStep(Run(fs, front).value, actions[|actions| - 1], u);
    }
  }

  /**
    Success means the upload's own rename put its data in place and no temporary file is left;
    an error means it never did, except exactly when the server performed a rename of it that was
    reported as failed.
   */
  lemma OutcomeIsHonest(fs: Files, actions: seq<Action>, u: nat)
    requires Run(fs, actions).Some? && u < |Run(fs, actions).value.uploads|
    ensures var s := Run(fs, actions).value;
            && (s.uploads[u].stage == Finished(true) ==>
                  u in s.installs && !ReplyLost(fs, actions, u) && s.uploads[u].Tmp() !in s.fs)
            && (s.uploads[u].stage == Finished(false) ==> (u in s.installs <==> ReplyLost(fs, actions, u)))
  {
    RunsKeepInv(fs, actions);
    LeakedExactly(fs, actions, u);
    hide Run, ReplyLost;
    assert StageHolds(Run(fs, actions).value, u);
  }

  /** No rename of upload `u` that is reported as failed has an effect. */
  predicate FailuresAreReal(actions: seq<Action>, u: nat) {
    forall k :: 0 <= k < |actions| ==>
      actions[k] != PosixRename(u, Fails(true)) && actions[k] != Rename(u, Fails(true))
  }

  /** The installs so far are the first ones of any longer run. */
  lemma {:induction false} InstallsGrow(fs: Files, actions: seq<Action>, k: nat)
    requires k <= |actions| && Run(fs, actions).Some?
    ensures Run(fs, actions[..k]).Some? && Run(fs, actions[..k]).value.installs <= Run(fs, actions).value.installs
    ensures |Run(fs, actions[..k]).value.uploads| <= |Run(fs, actions).value.uploads|
    decreases |actions|
  {
    if k == |actions| {
      assert actions[..k] == actions;
    } else {
      var front, last := actions[..|actions| - 1], actions[|actions| - 1];
      assert After(fs, front, last).Some?;
      assert front[..k] == actions[..k];
      InstallsGrow(fs, front, k);
      hide Enabled, Step;
      InstallsStep(Run(fs, front).value, last);
    }
  }

  lemma InstallsStep(s: System, a: Action)
    requires Enabled(s, a)
    ensures s.installs <= Step(s, a).installs && |s.uploads| <= |Step(s, a).uploads|
    ensures !a.PosixRename? && !a.Rename? ==> Step(s, a).installs == s.installs
    ensures a.PosixRename? || a.Rename? ==> Step(s, a).installs in {s.installs, s.installs + [a.u]}
  {
  }

  lemma RealFailuresLoseNoReply(fs: Files, actions: seq<Action>, u: nat)
    requires FailuresAreReal(actions, u)
    ensures !ReplyLost(fs, actions, u)
  {
  }

  /**
    Unless a rename's reply was lost, an upload that returns an error never changed anything but its
    temporary file: each of its requests left every other path as it was.
   */
  lemma ErrorChangesNothing(fs: Files, actions: seq<Action>, u: nat, k: nat, p: string)
    requires Run(fs, actions).Some? && !ReplyLost(fs, actions, u)
    requires At(Run(fs, actions).value, u, Finished(false))
    requires k < |actions| && Concerns(actions[k], u)
    ensures u !in Run(fs, actions).value.installs
    ensures Run(fs, actions[..k]).Some? && Run(fs, actions[..k + 1]).Some?
    ensures var s, t := Run(fs, actions[..k]).value, Run(fs, actions[..k + 1]).value;
            !IsTemp(s.uploads, p) ==> Lookup(t.fs, p) == Lookup(s.fs, p)
  {
    OutcomeIsHonest(fs, actions, u);
    InstallsGrow(fs, actions, k);
    InstallsGrow(fs, actions, k + 1);
    RunsKeepInv(fs, actions[..k]);
    RunsKeepInv(fs, actions[..k + 1]);
    assert actions[..k + 1][..k] == actions[..k];
    assert After(fs, actions[..k], actions[k]).Some?;
    hide Run, ReplyLost, Inv, Step, Enabled, IsTemp;
    NotInstalledStep(fs, Run(fs, actions[..k]).value, actions[k], u, p);
  }

  lemma NotInstalledStep(initial: Files, s: System, a: Action, u: nat, p: string)
    requires Enabled(s, a) && Concerns(a, u) && Inv(initial, s) && Inv(initial, Step(s, a))
    requires u !in Step(s, a).installs
    ensures !IsTemp(s.uploads, p) ==> Lookup(Step(s, a).fs, p) == Lookup(s.fs, p)
  {
    var t := Step(s, a);
    InstallsStep(s, a);
    assert t.installs == s.installs;
    SameUploads(s, a);
    SameTemps(s, t);
    hide Step, Enabled;
    ExpectedStable(initial, s.uploads, t.uploads, s.installs, p);
  }

  lemma SameUploads(s: System, a: Action)
    requires Enabled(s, a) && !a.Begin?
    ensures |Step(s, a).uploads| == |s.uploads|
    ensures forall i :: 0 <= i < |s.uploads| ==>
              Step(s, a).uploads[i] == s.uploads[i].(stage := Step(s, a).uploads[i].stage)
  {
  }

  // ---- The code is one of the runs ----

  lemma Extend(fs: Files, actions: seq<Action>, a: Action) returns (more: seq<Action>)
    requires Run(fs, actions).Some? && Enabled(Run(fs, actions).value, a)
    ensures more == actions + [a] && Run(fs, more) == Some(Step(Run(fs, actions).value, a))
  {
    more := actions + [a];
    assert more[..|more| - 1] == actions;
    assert Run(fs, more) == After(fs, actions, a);
  }

  lemma InstallIsRun(fs: Files, actions: seq<Action>, u: nat, script: Script) returns (more: seq<Action>)
    requires Run(fs, actions).Some? && At(Run(fs, actions).value, u, PosixRenaming)
    ensures Run(fs, more).Some? && actions <= more
    ensures var s, t := Run(fs, actions).value, Run(fs, more).value;
            var (after, ok) := Install(s.fs, s.uploads[u].Tmp(), s.uploads[u].target, script);
            t.fs == after && At(t, u, Finished(ok))
  {
    hide Run, Attempt, PosixRenamed, Renamed, Removed;
    more := Extend(fs, actions, PosixRename(u, script.posix));
    if At(Run(fs, more).value, u, Renaming) {
      more := Extend(fs, more, Rename(u, script.rename));
      if At(Run(fs, more).value, u, Removing) {
        more := Extend(fs, more, Remove(u, script.remove));
      }
    }
  }

  /**
    `PutFile` with nothing interleaved is a run of this system: it ends with the files and the
    result the code computes.
   */
  lemma PutFileIsRun(fs: Files, actions: seq<Action>, target: string, data: seq<byte>, script: Script)
    returns (more: seq<Action>)
    requires Run(fs, actions).Some? && script.suffix.Some?
    requires FreshUpload(Run(fs, actions).value.uploads, target, script.suffix.value)
    requires Honest(data, script.stored, script.written, script.writeFails)
    ensures Run(fs, more).Some? && actions <= more
    ensures var s, t := Run(fs, actions).value, Run(fs, more).value;
            var (after, ok) := PutAlone(s.fs, target, data, script);
            t.fs == after && At(t, |s.uploads|, Finished(ok))
  {
    hide Run, Install, Removed;
    var u := |Run(fs, actions).value.uploads|;
    more := Extend(fs, actions, Begin(target, script.suffix.value, data));
    more := Extend(fs, more, Create(u, script.create));
    if script.create.Succeeds? {
      more := Extend(fs, more, Progress(u, script.stored));
      more := Extend(fs, more, WriteReturns(u, script.written, script.writeFails));
      more := Extend(fs, more, CloseReturns(u, script.closeFails));
      if At(Run(fs, more).value, u, PosixRenaming) {
        more := InstallIsRun(fs, more, u, script);
      } else {
        more := Extend(fs, more, Remove(u, script.remove));
      }
    }
  }
}
