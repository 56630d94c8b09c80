/** The SSH client's input channel and shell, as `Send`, `StartShell` and `Disconnect` use them. */
module SSHClient {
  import opened Options
  import opened Wire

  const CAPACITY: nat := 100

  /**
    The fields the three methods share; `hasStdin` says that `stdin` is not nil, and `conn` names
    the connection, if there is one.
   */
  datatype ClientState = ClientState(
    hasStdin: bool,
    channelClosed: bool,
    queue: seq<seq<byte>>,
    conn: Option<nat>,
    hasSession: bool,
    shellStarted: bool)

  const NEW := ClientState(true, false, [], None, false, false)

  /** How far opening the session and its shell gets on the server. */
  datatype ShellOutcome = NoSession | SessionOnly | ShellRuns

  /** `StartShell` while it holds the lock; the flag says whether it returns an error. */
  function StartShellBody(c: ClientState, o: ShellOutcome): (ClientState, bool) {
    if c.shellStarted then (c, false)
    else if c.conn.None? then (c, true)
    else match o
         case NoSession => (c, true)
         case SessionOnly => (c.(hasSession := true), true)
         case ShellRuns => (c.(hasSession := true, shellStarted := true), false)
  }

  /** The non-blocking send; a nil channel is never ready. */
  function Push(c: ClientState, data: seq<byte>): (ClientState, bool) {
    if c.hasStdin && |c.queue| < CAPACITY then (c.(queue := c.queue + [data]), true) else (c, false)
  }

  /** `Send` with nothing else going on. */
  function SendAlone(c: ClientState, data: seq<byte>, o: ShellOutcome): (ClientState, bool) {
    var (c, failed) := if c.shellStarted then (c, false) else StartShellBody(c, o);
    if failed then (c, false) else Push(c, data)
  }

  /** What `Disconnect` leaves behind. */
  function Disconnected(c: ClientState): ClientState {
    ClientState(false, c.channelClosed || c.hasStdin, c.queue, None, false, false)
  }

  class Client {
    var hasStdin: bool
    var channelClosed: bool
    var queue: seq<seq<byte>>
    var conn: Option<nat>
    var hasSession: bool
    var shellStarted: bool

    ghost function State(): ClientState
      reads this
    {
      ClientState(hasStdin, channelClosed, queue, conn, hasSession, shellStarted)
    }

    constructor ()
      ensures State() == NEW
    {
      hasStdin, channelClosed, queue := true, false, [];
      conn, hasSession, shellStarted := None, false, false;
    }

    method StartShell(o: ShellOutcome) returns (failed: bool)
      modifies this
      ensures (State(), failed) == StartShellBody(old(State()), o)
      ensures !failed <==> old(shellStarted) || (old(conn).Some? && o.ShellRuns?)
      ensures shellStarted <==> !failed
      ensures hasSession <==> old(hasSession) || (!old(shellStarted) && old(conn).Some? && !o.NoSession?)
      ensures conn == old(conn) && hasStdin == old(hasStdin) && channelClosed == old(channelClosed)
      ensures queue == old(queue)
    {
      if shellStarted {
        return false;
      }
      if conn.None? || o.NoSession? {
        return true;
      }
      hasSession := true;
      if o.SessionOnly? {
        return true;
      }
      shellStarted := true;
      failed := false;
    }

    method Send(data: seq<byte>, o: ShellOutcome) returns (ok: bool)
      modifies this
      ensures (State(), ok) == SendAlone(old(State()), data, o)
      ensures ok <==> old(hasStdin) && |old(queue)| < 100
                      && (old(shellStarted) || (old(conn).Some? && o.ShellRuns?))
      ensures ok ==> shellStarted && queue == old(queue) + [data] && |queue| <= 100
      ensures !ok ==> queue == old(queue)
      ensures conn == old(conn) && hasStdin == old(hasStdin) && channelClosed == old(channelClosed)
    {
      if !shellStarted {
        var failed := StartShell(o);
        if failed {
          return false;
        }
      }
      if hasStdin && |queue| < CAPACITY {
        queue := queue + [data];
        return true;
      }
      ok := false;
    }

    method Disconnect()
      modifies this
      ensures State() == Disconnected(old(State()))
      ensures !hasStdin && !hasSession && conn.None? && !shellStarted && queue == old(queue)
      ensures channelClosed <==> old(channelClosed) || old(hasStdin)
    {
      if hasStdin {
        channelClosed := true;
        hasStdin := false;
      }
      if hasSession {
        hasSession := false;
      }
      if conn.Some? {
        conn := None;
      }
      shellStarted := false;
    }
  }
}
