/**
  The transport's framing: a 16-bit big-endian length before each encoded message, and the
  reassembly of frames from a byte stream cut anywhere.
 */
module Framing {
  import opened Wire
  import opened Blocks

  const MAX_FRAME: nat := 65535

  /** `setUint16` stores the length modulo 2^16, whatever the length is. */
  function Frame(data: seq<byte>): seq<byte> {
    [|data| / 256 % 256, |data| % 256] + data
  }

  function Framed(frames: seq<seq<byte>>): seq<byte> {
    if frames == [] then [] else Framed(frames[..|frames| - 1]) + Frame(frames[|frames| - 1])
  }

  ghost predicate Fits(frames: seq<seq<byte>>) {
    forall i :: 0 <= i < |frames| ==> |frames[i]| <= MAX_FRAME
  }

  function FrameLength(buffer: seq<byte>): nat
    requires |buffer| >= 2
  {
    var high: int, low: int := buffer[0], buffer[1];
    256 * high + low
  }

  predicate HasFrame(buffer: seq<byte>) {
    |buffer| >= 2 && |buffer| >= 2 + FrameLength(buffer)
  }

  function FirstFrame(buffer: seq<byte>): seq<byte>
    requires HasFrame(buffer)
  {
    buffer[2..2 + FrameLength(buffer)]
  }

  function AfterFrame(buffer: seq<byte>): (rest: seq<byte>)
    requires HasFrame(buffer)
    ensures |rest| < |buffer|
  {
    buffer[2 + FrameLength(buffer)..]
  }

  /** One-shot parsing: the complete frames of `buffer`, in order, and the unfinished tail. */
  function Frames(buffer: seq<byte>): (frames: seq<seq<byte>>)
    decreases |buffer|
  {
    if HasFrame(buffer) then [FirstFrame(buffer)] + Frames(AfterFrame(buffer)) else []
  }

  function Tail(buffer: seq<byte>): (tail: seq<byte>)
    decreases |buffer|
  {
    if HasFrame(buffer) then Tail(AfterFrame(buffer)) else buffer
  }

  lemma TwoDigits(n: nat)
    ensures 256 * (n / 256 % 256) + n % 256 == n % 65536
  {
    var q := n / 256;
    var high, low := q % 256, n % 256;
    assert n == 65536 * (q / 256) + (256 * high + low);
  }

  /** The first two bytes are the length, high byte first, modulo 65536; the data follows. */
  lemma FrameBytes(data: seq<byte>)
    ensures |Frame(data)| == |data| + 2 && Frame(data)[2..] == data
    ensures var high: int, low: int := Frame(data)[0], Frame(data)[1]; 256 * high + low == |data| % 65536
  {
    TwoDigits(|data|);
  }

  lemma LengthDigits(buffer: seq<byte>)
    requires |buffer| >= 2
    ensures var n := FrameLength(buffer);
            n <= MAX_FRAME && n / 256 % 256 == buffer[0] && n % 256 == buffer[1]
  {
  }

  /** A frame is read back intact exactly when its length fits the prefix. */
  lemma FrameReadBack(data: seq<byte>, more: seq<byte>)
    ensures |data| <= MAX_FRAME <==>
            var b := Frame(data) + more; HasFrame(b) && FirstFrame(b) == data && AfterFrame(b) == more
  {
    var b := Frame(data) + more;
    if |data| <= MAX_FRAME {
      LengthRead(data, more);
      hide FrameLength;
      assert b[2..2 + |data|] == data;
      assert b[2 + |data|..] == more;
    } else if HasFrame(b) {
      LengthDigits(b);
      hide FrameLength;
      assert |FirstFrame(b)| <= MAX_FRAME;
    }
  }

  lemma LengthRead(data: seq<byte>, more: seq<byte>)
    requires |data| <= MAX_FRAME
    ensures |Frame(data) + more| >= 2 && FrameLength(Frame(data) + more) == |data|
  {
    var b := Frame(data) + more;
    assert b[0] == Frame(data)[0] && b[1] == Frame(data)[1];
    FrameBytes(data);
  }

  /** What the parser takes from a stream is what framing would have put there. */
  lemma ParsedIsFramed(buffer: seq<byte>)
    requires HasFrame(buffer)
    ensures Frame(FirstFrame(buffer)) + AfterFrame(buffer) == buffer
    ensures |FirstFrame(buffer)| <= MAX_FRAME
  {
    var n := FrameLength(buffer);
    LengthDigits(buffer);
    hide FrameLength;
    assert buffer == [buffer[0], buffer[1]] + buffer[2..2 + n] + buffer[2 + n..];
  }

  lemma {:induction false} FramedConcat(a: seq<seq<byte>>, b: seq<seq<byte>>)
    ensures Framed(a + b) == Framed(a) + Framed(b)
  {
    if b == [] {
      assert a + b == a;
    } else {
      var front, last := b[..|b| - 1], Frame(b[|b| - 1]);
      FramedConcat(a, front);
      assert (a + b)[..|a + b| - 1] == a + front;
      Associative(Framed(a), Framed(front), last);
    }
  }

  lemma FramedCons(f: seq<byte>, fs: seq<seq<byte>>)
    ensures Framed([f] + fs) == Frame(f) + Framed(fs)
  {
    FramedConcat([f], fs);
    assert Framed([f]) == Framed([]) + Frame(f) by { assert [f][..0] == []; }
  }

  /** Parsing a framed stream with anything after it gives the frames, then the rest's frames. */
  lemma {:induction false} ParseFramed(frames: seq<seq<byte>>, more: seq<byte>)
    requires Fits(frames)
    ensures Frames(Framed(frames) + more) == frames + Frames(more)
    ensures Tail(Framed(frames) + more) == Tail(more)
  {
    hide Frame, HasFrame, FirstFrame, AfterFrame, FrameLength;
    if frames == [] {
      assert Framed(frames) + more == more;
    } else {
      var f, fs := frames[0], frames[1..];
      assert frames == [f] + fs;
      FramedCons(f, fs);
      hide Framed;
      Associative(Frame(f), Framed(fs), more);
      FrameReadBack(f, Framed(fs) + more);
      ParseFramed(fs, more);
    }
  }

  lemma FitsCons(f: seq<byte>, fs: seq<seq<byte>>)
    requires |f| <= MAX_FRAME && Fits(fs)
    ensures Fits([f] + fs)
  {
  }

  /** Every stream is its complete frames, framed, followed by a tail without a frame. */
  lemma {:induction false} FramesDecompose(buffer: seq<byte>)
    ensures buffer == Framed(Frames(buffer)) + Tail(buffer)
    ensures Fits(Frames(buffer)) && !HasFrame(Tail(buffer))
    decreases |buffer|
  {
    hide Frame, HasFrame, FirstFrame, AfterFrame, FrameLength;
    if HasFrame(buffer) {
      var f, rest := FirstFrame(buffer), AfterFrame(buffer);
      ParsedIsFramed(buffer);
      FramesDecompose(rest);
      FitsCons(f, Frames(rest));
      FramedCons(f, Frames(rest));
      hide Framed, Fits;
      Associative(Frame(f), Framed(Frames(rest)), Tail(rest));
    } else {
      assert Framed([]) + buffer == buffer;
    }
  }

  /** Parsing can stop after any bytes and go on from its unfinished tail. */
  lemma Incremental(a: seq<byte>, b: seq<byte>)
    ensures Frames(a + b) == Frames(a) + Frames(Tail(a) + b)
    ensures Tail(a + b) == Tail(Tail(a) + b)
  {
    var taken, tail := Frames(a), Tail(a);
    FramesDecompose(a);
    Associative(Framed(taken), tail, b);
    ParseFramed(taken, tail + b);
  }

  /**
    Frames are self-delimiting: frames already taken from a prefix of a framed stream are a
    prefix of the frames it was made of, and all of them once no frame is left to take.
   */
  lemma TakenIsPrefix(taken: seq<seq<byte>>, buffer: seq<byte>, missing: seq<byte>, all: seq<seq<byte>>)
    requires Fits(taken) && Fits(all)
    requires Framed(taken) + buffer + missing == Framed(all)
    ensures taken <= all
    ensures missing == [] && !HasFrame(buffer) ==> taken == all && buffer == []
  {
    Associative(Framed(taken), buffer, missing);
    ParseFramed(taken, buffer + missing);
    ParseFramed(all, []);
    assert Framed(all) + [] == Framed(all);
    assert all + Frames([]) == all;
    assert buffer + [] == buffer;
  }
}
