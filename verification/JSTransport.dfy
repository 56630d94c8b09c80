/**
  The Go side of a transport: a channel of at most 100 injected blocks and a leftover buffer,
  read as a byte stream.
 */
module JSTransport {
  import opened Wire
  import opened Blocks

  const CAPACITY: nat := 100

  datatype TransportState = TransportState(
    closed: bool,
    readChan: seq<seq<byte>>,
    readBuffer: seq<byte>,
    closeChanClosed: nat,     // how often `close(closeChan)` ran; twice would panic
    onCloseRuns: nat,
    accepted: seq<seq<byte>>, // blocks pushed so far
    read: seq<byte>)          // bytes returned by `Read` so far

  const INITIAL := TransportState(false, [], [], 0, 0, [], [])

  datatype ReadResult = Bytes(data: seq<byte>) | EOF | Blocked

  function Min(a: nat, b: nat): nat { if a < b then a else b }

  /** Hands out the first bytes of `source` and keeps the rest. */
  function Deliver(s: TransportState, source: seq<byte>, cap: nat): (TransportState, ReadResult) {
    var n := Min(cap, |source|);
    (s.(readBuffer := source[n..], read := s.read + source[..n]), Bytes(source[..n]))
  }

  /**
    `Read` after its check of `closed`: the leftover first, then one block, or end of file. With
    a block queued and the close channel closed the `select` may take either.
   */
  function FinishRead(s: TransportState, cap: nat, preferClose: bool): (TransportState, ReadResult) {
    if s.readBuffer != [] then Deliver(s, s.readBuffer, cap)
    else if s.readChan != [] && !(preferClose && s.closeChanClosed > 0) then
      Deliver(s.(readChan := s.readChan[1..]), s.readChan[0], cap)
    else if s.closeChanClosed > 0 then (s, EOF)
    else (s, Blocked)
  }

  /** `InjectData` after its check of `closed`. */
  function Push(s: TransportState, block: seq<byte>): TransportState {
    if |s.readChan| < CAPACITY
    then s.(readChan := s.readChan + [block], accepted := s.accepted + [block])
    else s
  }

  /** Bytes read, then the leftover, then the queued blocks are the accepted bytes in order. */
  ghost predicate Conserved(s: TransportState) {
    && s.read + s.readBuffer + Flatten(s.readChan) == Flatten(s.accepted)
    && |s.readChan| <= CAPACITY
  }

  lemma DeliverKeeps(s: TransportState, source: seq<byte>, cap: nat, total: seq<byte>)
    requires s.read + source + Flatten(s.readChan) == total
    ensures var t := Deliver(s, source, cap).0;
            t.read + t.readBuffer + Flatten(t.readChan) == total
  {
    var n := Min(cap, |source|);
    assert source[..n] + source[n..] == source;
    Associative(s.read, source[..n], source[n..]);
  }

  lemma FinishReadKeeps(s: TransportState, cap: nat, preferClose: bool)
    requires Conserved(s)
    ensures Conserved(FinishRead(s, cap, preferClose).0)
  {
    if s.readBuffer != [] {
      DeliverKeeps(s, s.readBuffer, cap, Flatten(s.accepted));
    } else if s.readChan != [] {
      var first, rest := s.readChan[0], s.readChan[1..];
      assert [first] + rest == s.readChan;
      FlattenConcat([first], rest);
      FlattenOne(first);
      assert s.read + [] == s.read;
      Associative(s.read, first, Flatten(rest));
      DeliverKeeps(s.(readChan := rest), first, cap, Flatten(s.accepted));
    }
  }

  lemma ReadAmount(s: TransportState, cap: nat, preferClose: bool)
    ensures var (t, r) := FinishRead(s, cap, preferClose);
            && (r.Blocked? <==> s.readBuffer == [] && s.readChan == [] && s.closeChanClosed == 0)
            && (r.EOF? <==> s.readBuffer == [] && s.closeChanClosed > 0 && (s.readChan == [] || preferClose))
            && (!r.Bytes? ==> t == s)
            && (r.Bytes? ==> (|r.data| == cap || t.readBuffer == []) && |r.data| <= cap && t.read == s.read + r.data)
            && (r.Bytes? && s.readBuffer != [] ==> r.data + t.readBuffer == s.readBuffer && t.readChan == s.readChan)
            && (r.Bytes? && s.readBuffer == [] ==>
                  s.readChan != [] && r.data + t.readBuffer == s.readChan[0] && t.readChan == s.readChan[1..])
            && t.accepted == s.accepted
  {
  }

  /**
    Past its check of `closed`, a read hands out the leftover if there is one, else the next block:
    as much of it as the slice holds, and the rest becomes the leftover. It ends only when the close
    channel is closed and no leftover is there, waits only when nothing is there and nothing was
    closed, and changes nothing then.
   */
  lemma ReadTakesNext(s: TransportState, cap: nat, preferClose: bool)
    requires Conserved(s)
    ensures var (t, r) := FinishRead(s, cap, preferClose);
            && (r.Blocked? <==> s.readBuffer == [] && s.readChan == [] && s.closeChanClosed == 0)
            && (r.EOF? <==> s.readBuffer == [] && s.closeChanClosed > 0 && (s.readChan == [] || preferClose))
            && (!r.Bytes? ==> t == s)
            && (r.Bytes? ==>
                  && (|r.data| == cap || t.readBuffer == []) && |r.data| <= cap
                  && t.read == s.read + r.data && t.read <= Flatten(s.accepted))
            && (r.Bytes? && s.readBuffer != [] ==> r.data + t.readBuffer == s.readBuffer && t.readChan == s.readChan)
            && (r.Bytes? && s.readBuffer == [] ==>
                  s.readChan != [] && r.data + t.readBuffer == s.readChan[0] && t.readChan == s.readChan[1..])
  {
    FinishReadKeeps(s, cap, preferClose);
    ReadAmount(s, cap, preferClose);
    hide FinishRead, Flatten;
    var t := FinishRead(s, cap, preferClose).0;
    Associative(t.read, t.readBuffer, Flatten(t.readChan));
  }

  lemma PushKeeps(s: TransportState, block: seq<byte>)
    requires Conserved(s)
    ensures Conserved(Push(s, block))
    ensures |s.readChan| < 100 <==> Push(s, block).accepted == s.accepted + [block]
    ensures |s.readChan| < 100 ==> Push(s, block).readChan == s.readChan + [block]
    ensures |s.readChan| == 100 <==> Push(s, block) == s
  {
    FlattenConcat(s.readChan, [block]);
    FlattenConcat(s.accepted, [block]);
    FlattenOne(block);
    Associative(s.read + s.readBuffer, Flatten(s.readChan), block);
  }

  class Transport {
    var closed: bool
    var readChan: seq<seq<byte>>
    var readBuffer: seq<byte>
    var closeChanClosed: nat
    var onCloseRuns: nat
    ghost var accepted: seq<seq<byte>>
    ghost var bytesRead: seq<byte>

    ghost function State(): TransportState
      reads this
    {
      TransportState(closed, readChan, readBuffer, closeChanClosed, onCloseRuns, accepted, bytesRead)
    }

    constructor ()
      ensures State() == INITIAL
    {
      closed, readChan, readBuffer := false, [], [];
      closeChanClosed, onCloseRuns, accepted, bytesRead := 0, 0, [], [];
    }

    /** A blocked read is reported instead of waiting; nothing has changed then. */
    method Read(p: array<byte>, preferClose: bool) returns (result: ReadResult)
      modifies this, p
      ensures old(closed) ==> State() == old(State()) && result == EOF
      ensures !old(closed) ==> (State(), result) == FinishRead(old(State()), p.Length, preferClose)
      ensures result.Bytes? ==> |result.data| <= p.Length && (|result.data| == p.Length || readBuffer == [])
      ensures !old(closed) && old(readBuffer) != [] ==>
                result.Bytes? && result.data + readBuffer == old(readBuffer) && readChan == old(readChan)
      ensures !old(closed) && old(readBuffer) == [] && old(readChan) != []
              && !(preferClose && old(closeChanClosed) > 0) ==>
                result.Bytes? && result.data + readBuffer == old(readChan)[0] && readChan == old(readChan)[1..]
      ensures forall i :: 0 <= i < p.Length ==>
                p[i] == if result.Bytes? && i < |result.data| then result.data[i] else old(p[i])
    {
      if closed {
        return EOF;
      }
      if |readBuffer| > 0 {
        var n := Copy(p, readBuffer);
        result := Bytes(readBuffer[..n]);
        bytesRead := bytesRead + readBuffer[..n];
        readBuffer := readBuffer[n..];
      } else if readChan != [] && !(preferClose && closeChanClosed > 0) {
        var data := readChan[0];
        readChan := readChan[1..];
        var n := Copy(p, data);
        bytesRead := bytesRead + data[..n];
        if n < |data| {
          readBuffer := data[n..];
        } else {
          assert data[n..] == readBuffer;
        }
        result := Bytes(data[..n]);
      } else if closeChanClosed > 0 {
        result := EOF;
      } else {
        result := Blocked;
      }
    }

    /** Go's `copy`: as many bytes as both slices hold. */
    method Copy(p: array<byte>, source: seq<byte>) returns (n: nat)
      modifies p
      ensures n == Min(p.Length, |source|)
      ensures forall i :: 0 <= i < p.Length ==> p[i] == if i < n then source[i] else old(p[i])
    {
      n := Min(p.Length, |source|);
      for i := 0 to n
        invariant forall k :: 0 <= k < p.Length ==> p[k] == if k < i then source[k] else old(p[k])
      {
        p[i] := source[i];
      }
    }

    method InjectData(data: seq<byte>) returns (ok: bool)
      modifies this
      ensures ok <==> !old(closed) && |old(readChan)| < 100
      ensures readChan == if ok then old(readChan) + [data] else old(readChan)
      ensures State() == if old(closed) then old(State()) else Push(old(State()), data)
    {
      if closed {
        return false;
      }
      if |readChan| < CAPACITY {
        readChan := readChan + [data];
        accepted := accepted + [data];
        ok := true;
      } else {
        ok := false;
      }
    }

    method Close()
      modifies this
      ensures State() == if old(closed) then old(State())
                         else old(State()).(closed := true, closeChanClosed := old(closeChanClosed) + 1,
                                            onCloseRuns := old(onCloseRuns) + 1)
    {
      if closed {
        return;
      }
      closed := true;
      closeChanClosed := closeChanClosed + 1;
      onCloseRuns := onCloseRuns + 1;
    }
  }
}
