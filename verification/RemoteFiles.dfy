/**
  The remote file system an upload works on, and `PutFile` on it. Every operation may fail, and a
  failure may or may not have taken effect on the server.
 */
module RemoteFiles {
  import opened Options
  import opened Wire
  import Base64

  type Files = map<string, seq<byte>>

  function Lookup(fs: Files, p: string): Option<seq<byte>> {
    if p in fs then Some(fs[p]) else None
  }

  /** How the server and the connection treat one request. */
  datatype Outcome = Succeeds | Fails(applied: bool)

  /** A request's result: the files after it, whether it was reported done, whether it was done. */
  datatype Reply = Reply(fs: Files, ok: bool, applied: bool)

  /** A request the server refuses always fails; another one does as its outcome says. */
  function Attempt(fs: Files, effect: Option<Files>, o: Outcome): Reply {
    match effect
    case None => Reply(fs, false, false)
    case Some(after) =>
      if o.Succeeds? then Reply(after, true, true)
      else Reply(if o.applied then after else fs, false, o.applied)
  }

  function Created(fs: Files, p: string): Option<Files> {
    Some(fs[p := []])
  }

  /** The OpenSSH extension replaces an existing target. */
  function PosixRenamed(fs: Files, from: string, to: string): Option<Files> {
    if from in fs then Some((fs - {from})[to := fs[from]]) else None
  }

  /** Section 6.5 of draft-ietf-secsh-filexfer-02: an existing target is an error. */
  function Renamed(fs: Files, from: string, to: string): Option<Files> {
    if from in fs && to !in fs then Some((fs - {from})[to := fs[from]]) else None
  }

  function Removed(fs: Files, p: string): Option<Files> {
    if p in fs then Some(fs - {p}) else None
  }

  const INFIX := ".tmp-"

  function TempPath(target: string, suffix: string): string {
    target + INFIX + suffix
  }

  lemma TempPathsDiffer(t: string, s: string, t': string, s': string)
    requires |s| == |s'| && s != s'
    ensures TempPath(t, s) != TempPath(t', s')
  {
    var p, p' := TempPath(t, s), TempPath(t', s');
    assert p[|p| - |s|..] == s && p'[|p'| - |s'|..] == s';
  }

  lemma TempIsNotTarget(t: string, s: string)
    ensures TempPath(t, s) != t
  {
    assert |TempPath(t, s)| == |t| + 5 + |s|;
  }

  /** How each request of one `PutFile` goes. */
  datatype Script = Script(
    suffix: Option<string>,
    create: Outcome,
    stored: seq<byte>,   // what the temp file holds when `Write` returns
    written: nat,
    writeFails: bool,
    closeFails: bool,
    posix: Outcome,
    rename: Outcome,
    remove: Outcome)

  /** A write that reports every byte written has stored them. */
  predicate Honest(data: seq<byte>, stored: seq<byte>, written: nat, writeFails: bool) {
    !writeFails && written == |data| ==> stored == data
  }

  /** The whole write went through, and the renames are reached. */
  predicate Stored(data: seq<byte>, script: Script) {
    && script.suffix.Some? && script.create.Succeeds?
    && !script.writeFails && script.written == |data| && !script.closeFails
  }

  /** The exact condition for an upload to succeed. */
  predicate Succeeded(fs: Files, target: string, data: seq<byte>, script: Script) {
    && Stored(data, script)
    && (script.posix.Succeeds? || (!script.posix.applied && script.rename.Succeeds? && target !in fs))
  }

  /** A rename was reported as failed although the server had done it. */
  predicate Leaked(fs: Files, target: string, data: seq<byte>, script: Script) {
    && Stored(data, script) && script.posix.Fails?
    && (script.posix.applied || (script.rename.Fails? && script.rename.applied && target !in fs))
  }

  function Install(fs: Files, tmp: string, target: string, script: Script): (Files, bool) {
    var posix := Attempt(fs, PosixRenamed(fs, tmp, target), script.posix);
    if posix.ok then (posix.fs, true)
    else
      var plain := Attempt(posix.fs, Renamed(posix.fs, tmp, target), script.rename);
      if plain.ok then (plain.fs, true)
      else (Attempt(plain.fs, Removed(plain.fs, tmp), script.remove).fs, false)
  }

  /** `PutFile` with nothing else going on. */
  function PutAlone(fs: Files, target: string, data: seq<byte>, script: Script): (Files, bool) {
    if script.suffix.None? then (fs, false)
    else
      var tmp := TempPath(target, script.suffix.value);
      var created := Attempt(fs, Created(fs, tmp), script.create);
      if !created.ok then (created.fs, false)
      else
        var fs := created.fs[tmp := script.stored];
        if script.writeFails || script.written != |data| || script.closeFails
        then (Attempt(fs, Removed(fs, tmp), script.remove).fs, false)
        else Install(fs, tmp, target, script)
  }

  /** The files after an upload, the temporary one aside. */
  function After(fs: Files, target: string, data: seq<byte>, tmp: string, changed: bool): Files {
    if changed then (fs - {tmp})[target := data] else fs - {tmp}
  }

  lemma InstallResult(fs: Files, tmp: string, target: string, data: seq<byte>, script: Script)
    requires tmp in fs && fs[tmp] == data && tmp != target && Stored(data, script)
    ensures var (after, ok) := Install(fs, tmp, target, script);
            && ok == Succeeded(fs, target, data, script)
            && after - {tmp} == After(fs, target, data, tmp, ok || Leaked(fs, target, data, script))
            && (ok ==> tmp !in after)
  {
    assert PosixRenamed(fs, tmp, target).value == After(fs, target, data, tmp, true);
    assert After(fs, target, data, tmp, true) - {tmp} == After(fs, target, data, tmp, true);
    var posix := Attempt(fs, PosixRenamed(fs, tmp, target), script.posix);
    if !posix.ok {
      var plain := Attempt(posix.fs, Renamed(posix.fs, tmp, target), script.rename);
      if !plain.ok { RemoveOnlyTemp(plain.fs, tmp, script.remove); }
    }
  }

  lemma RemoveOnlyTemp(fs: Files, tmp: string, o: Outcome)
    ensures Attempt(fs, Removed(fs, tmp), o).fs - {tmp} == fs - {tmp}
  {
  }

  /**
    An upload succeeds under exactly one condition; then the target holds all of `data` and the
    temporary file is gone. Otherwise the target is untouched, unless a rename was reported as
    failed although the server had done it. No other file changes.
   */
  lemma PutAloneResult(fs: Files, target: string, data: seq<byte>, script: Script)
    requires Honest(data, script.stored, script.written, script.writeFails)
    ensures var (after, ok) := PutAlone(fs, target, data, script);
            var tmp := TempPath(target, script.suffix.GetOr(""));
            && ok == Succeeded(fs, target, data, script)
            && (ok ==> after == After(fs, target, data, tmp, true))
            && after - {tmp} == After(fs, target, data, tmp, ok || Leaked(fs, target, data, script))
  {
    var tmp := TempPath(target, script.suffix.GetOr(""));
    TempIsNotTarget(target, script.suffix.GetOr(""));
    if script.suffix.Some? && script.create.Succeeds? {
      var written := fs[tmp := []][tmp := script.stored];
      assert written - {tmp} == fs - {tmp};
      if Stored(data, script) {
        InstallResult(written, tmp, target, data, script);
        var (after, ok) := Install(written, tmp, target, script);
        assert ok ==> after - {tmp} == after;
      } else {
        RemoveOnlyTemp(written, tmp, script.remove);
      }
    } else {
      assert fs[tmp := []] - {tmp} == fs - {tmp};
    }
  }

  /**
    What becomes of the temporary file. It is gone after a success, and after any error past its
    creation whose removal took effect, or whose rename did; otherwise an error past the creation
    leaves it with what was stored, and a creation reported as failed leaves it empty if it took
    effect. Without a suffix nothing is touched.
   */
  lemma TempFileAfter(fs: Files, target: string, data: seq<byte>, script: Script)
    requires Honest(data, script.stored, script.written, script.writeFails)
    ensures var (after, ok) := PutAlone(fs, target, data, script);
            var tmp := target + ".tmp-" + script.suffix.GetOr("");
            && (script.suffix.None? ==> after == fs)
            && (script.suffix.Some? && script.create.Fails? ==>
                  after == if script.create.applied then fs[tmp := []] else fs)
            && (script.suffix.Some? && script.create.Succeeds? ==>
                  (tmp in after <==> !ok && !Leaked(fs, target, data, script) && script.remove == Fails(false)))
            && (script.suffix.Some? && script.create.Succeeds? && tmp in after ==> after[tmp] == script.stored)
  {
    if script.suffix.Some? && script.create.Succeeds? {
      var tmp := TempPath(target, script.suffix.value);
      TempIsNotTarget(target, script.suffix.value);
      var written := fs[tmp := []][tmp := script.stored];
      if Stored(data, script) {
        InstallTemp(written, fs, tmp, target, data, script);
      }
    }
  }

  lemma InstallTemp(written: Files, fs: Files, tmp: string, target: string, data: seq<byte>, script: Script)
    requires tmp != target && written == fs[tmp := []][tmp := script.stored] && script.stored == data
    requires Stored(data, script)
    ensures var (after, ok) := Install(written, tmp, target, script);
            && (tmp in after <==> !ok && !Leaked(fs, target, data, script) && script.remove == Fails(false))
            && (tmp in after ==> after[tmp] == script.stored)
  {
    assert target in written <==> target in fs;
  }

  /**
    An upload can return an error with its data in place: the server renames, the reply is lost,
    and the fallback rename then finds no temporary file.
   */
  lemma ErrorAfterInstall(target: string, suffix: string, data: seq<byte>)
    ensures var script := Script(Some(suffix), Succeeds, data, |data|, false, false,
                                 Fails(true), Succeeds, Succeeds);
            var (after, ok) := PutAlone(map[], target, data, script);
            !ok && Lookup(after, target) == Some(data)
  {
    TempIsNotTarget(target, suffix);
  }

  class SFTPSession {
    var fs: Files

    constructor (fs: Files)
      ensures this.fs == fs
    {
      this.fs := fs;
    }

    method Request(effect: Option<Files>, o: Outcome) returns (ok: bool)
      modifies this
      ensures Reply(fs, ok, Attempt(old(fs), effect, o).applied) == Attempt(old(fs), effect, o)
    {
      ok := effect.Some? && o.Succeeds?;
      if effect.Some? && (ok || o.applied) {
        fs := effect.value;
      }
    }

    method PutFile(remotePath: string, data: seq<byte>, script: Script) returns (ok: bool)
      requires Honest(data, script.stored, script.written, script.writeFails)
      modifies this
      ensures (fs, ok) == PutAlone(old(fs), remotePath, data, script)
      ensures ok == Succeeded(old(fs), remotePath, data, script)
      ensures ok ==> remotePath in fs && fs[remotePath] == data
                     && TempPath(remotePath, script.suffix.value) !in fs
    {
      if script.suffix.None? {
        return false;
      }
      var tmpPath := TempPath(remotePath, script.suffix.value);
      PutAloneResult(fs, remotePath, data, script);
      TempIsNotTarget(remotePath, script.suffix.value);
      var created := Request(Created(fs, tmpPath), script.create);
      if !created {
        return false;
      }
      fs := fs[tmpPath := script.stored];
      if script.writeFails || script.written != |data| || script.closeFails {
        var _ := Request(Removed(fs, tmpPath), script.remove);
        return false;
      }
      var renamed := Request(PosixRenamed(fs, tmpPath, remotePath), script.posix);
      if !renamed {
        renamed := Request(Renamed(fs, tmpPath, remotePath), script.rename);
        if !renamed {
          var _ := Request(Removed(fs, tmpPath), script.remove);
          return false;
        }
      }
      ok := true;
    }
  }

  class SFTPHandle {
    const session: SFTPSession
    var closed: bool

    constructor (session: SFTPSession)
      ensures this.session == session && !closed
    {
      this.session, closed := session, false;
    }

    /** What the caller uploads is what the file holds, through base64 and back. */
    method Put(remotePath: string, bytes: seq<byte>, script: Script) returns (ok: bool)
      requires Honest(bytes, script.stored, script.written, script.writeFails)
      modifies session
      ensures ok <==> !closed && Succeeded(old(session.fs), remotePath, bytes, script)
      ensures ok ==> remotePath in session.fs && session.fs[remotePath] == bytes
      ensures !closed ==>
                && (session.fs, ok) == PutAlone(old(session.fs), remotePath, bytes, script)
                && var tmp := TempPath(remotePath, script.suffix.GetOr(""));
                   session.fs - {tmp} == After(old(session.fs), remotePath, bytes, tmp,
                                               ok || Leaked(old(session.fs), remotePath, bytes, script))
      ensures closed ==> session.fs == old(session.fs)
    {
      if closed {
        return false;
      }
      var b64 := Base64.ToBase64(bytes);
      var data := Base64.Decode(b64);
      if data.None? {
        return false;
      }
      PutAloneResult(session.fs, remotePath, bytes, script);
      ok := session.PutFile(remotePath, data.value, script);
    }

    method Close()
      modifies this
      ensures closed
    {
      closed := true;
    }
  }
}
