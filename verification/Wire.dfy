/**
  The byte-level reader and writer under the generated codecs, after the Protocol Buffers
  Encoding specification: sections "Base 128 Varints", "Message Structure" and
  "Length-Delimited Records".
 */
module Wire {

  type byte = b: int | 0 <= b < 256
  type uint32 = i: int | 0 <= i < 0x1_0000_0000
  type int32 = i: int | -0x8000_0000 <= i < 0x8000_0000

  const TWO_32 := 0x1_0000_0000
  const TWO_64 := 0x1_0000_0000_0000_0000
  // No varint on the wire is longer than this.
  const MAX_VARINT: nat := 10

  /** What a reader returns: the value and the bytes after it, or the error it throws. */
  datatype Read<+T> = Fail | Got(value: T, rest: seq<byte>)

  // ---- Writer ----

  function Varint(n: nat): (bs: seq<byte>)
    ensures bs != []
  {
    if n < 128 then [n] else [n % 128 + 128] + Varint(n / 128)
  }

  /** A negative int32 is sign-extended to 64 bits first, so it takes ten bytes. */
  function Int32(x: int32): seq<byte> {
    Varint(if x < 0 then x + TWO_64 else x)
  }

  function Bool(b: bool): seq<byte> {
    [if b then 1 else 0]
  }

  function LengthDelimited(b: seq<byte>): seq<byte>
  {
    Varint(|b|) + b
  }

  // ---- Reader ----

  ghost predicate IsSuffix(t: seq<byte>, s: seq<byte>) {
    |t| <= |s| && t == s[|s| - |t|..]
  }

  lemma SuffixOfSuffix(u: seq<byte>, t: seq<byte>, s: seq<byte>)
    requires IsSuffix(u, t) && IsSuffix(t, s)
    ensures IsSuffix(u, s)
  {
    assert s[|s| - |u|..] == s[|s| - |t|..][|t| - |u|..];
  }

  function ReadVarint(s: seq<byte>, limit: nat): (r: Read<nat>)
    ensures r.Got? ==> |r.rest| < |s| && IsSuffix(r.rest, s)
  {
    if s == [] || limit == 0 then Fail
    else if s[0] < 128 then Got(s[0], s[1..])
    else match ReadVarint(s[1..], limit - 1)
         case Fail => Fail
         case Got(v, rest) =>
           SuffixOfSuffix(rest, s[1..], s);
           Got(s[0] - 128 + 128 * v, rest)
  }

  /** Only the low 32 bits of a varint are kept. */
  function ReadUint32(s: seq<byte>): (r: Read<uint32>)
    ensures r.Got? ==> |r.rest| < |s| && IsSuffix(r.rest, s)
  {
    match ReadVarint(s, MAX_VARINT)
    case Fail => Fail
    case Got(v, rest) => Got(v % TWO_32, rest)
  }

  /** The low 32 bits, read as two's complement. */
  function Signed(u: uint32): int32 {
    if u < 0x8000_0000 then u else u - TWO_32
  }

  function ReadInt32(s: seq<byte>): (r: Read<int32>)
    ensures r.Got? ==> |r.rest| < |s| && IsSuffix(r.rest, s)
  {
    match ReadUint32(s)
    case Fail => Fail
    case Got(u, rest) => Got(Signed(u), rest)
  }

  function ReadBool(s: seq<byte>): (r: Read<bool>)
    ensures r.Got? ==> |r.rest| < |s| && IsSuffix(r.rest, s)
  {
    match ReadUint32(s)
    case Fail => Fail
    case Got(u, rest) => Got(u != 0, rest)
  }

  function Take(s: seq<byte>, n: nat): (r: Read<seq<byte>>)
    ensures r.Got? ==> IsSuffix(r.rest, s)
  {
    if n <= |s| then Got(s[..n], s[n..]) else Fail
  }

  function ReadBytes(s: seq<byte>): (r: Read<seq<byte>>)
    ensures r.Got? ==> |r.rest| < |s| && IsSuffix(r.rest, s)
  {
    match ReadUint32(s)
    case Fail => Fail
    case Got(n, rest) =>
      var r := Take(rest, n);
      if r.Got? then SuffixOfSuffix(r.rest, rest, s); r else r
  }

  /** Skips the value of an unknown field by its wire type. */
  function SkipType(s: seq<byte>, wireType: nat): (r: Read<seq<byte>>)
    ensures r.Got? ==> IsSuffix(r.rest, s)
    decreases |s|, 1
  {
    if wireType == 0 then
      match ReadVarint(s, MAX_VARINT)
      case Fail => Fail
      case Got(_, rest) => Got([], rest)
    else if wireType == 1 then Take(s, 8)
    else if wireType == 2 then ReadBytes(s)
    else if wireType == 3 then SkipGroup(s)
    else if wireType == 5 then Take(s, 4)
    else Fail
  }

  /** Skips fields up to and including the end-group tag. */
  function SkipGroup(s: seq<byte>): (r: Read<seq<byte>>)
    ensures r.Got? ==> IsSuffix(r.rest, s)
    decreases |s|, 0
  {
    match ReadUint32(s)
    case Fail => Fail
    case Got(tag, rest) =>
      if tag % 8 == 4 then Got([], rest)
      else match SkipType(rest, tag % 8)
           case Fail => Fail
           case Got(_, rest') =>
             SuffixOfSuffix(rest', rest, s);
             var r := SkipGroup(rest');
             if r.Got? then SuffixOfSuffix(r.rest, rest', s); r else r
  }

  // ---- Writing then reading ----

  function Pow128(k: nat): nat {
    if k == 0 then 1 else 128 * Pow128(k - 1)
  }

  /** The last seven bits, and the rest. */
  lemma SplitVarint(n: nat, limit: nat)
    requires limit >= 1 && 128 <= n < Pow128(limit)
    ensures limit >= 2 && n / 128 < Pow128(limit - 1)
    ensures n == n % 128 + 128 * (n / 128)
  {
    assert Pow128(limit) == 128 * Pow128(limit - 1);
  }

  /** Reading one byte that says more follow. */
  lemma ReadMore(low: nat, rest: seq<byte>, limit: nat)
    requires low < 128 && limit >= 1 && ReadVarint(rest, limit - 1).Got?
    ensures ReadVarint([low + 128] + rest, limit) ==
            Got(low + 128 * ReadVarint(rest, limit - 1).value, ReadVarint(rest, limit - 1).rest)
  {
    assert ([low + 128] + rest)[1..] == rest;
  }

  lemma {:induction false} VarintRoundTrip(n: nat, tail: seq<byte>, limit: nat)
    requires limit >= 1 && n < Pow128(limit)
    ensures ReadVarint(Varint(n) + tail, limit) == Got(n, tail)
  {
    if n < 128 {
      assert (Varint(n) + tail)[1..] == tail;
    } else {
      SplitVarint(n, limit);
      hide Pow128, ReadVarint;
      VarintRoundTrip(n / 128, tail, limit - 1);
      ReadMore(n % 128, Varint(n / 128) + tail, limit);
      assert Varint(n) + tail == [n % 128 + 128] + (Varint(n / 128) + tail);
    }
  }

  lemma Pow128Values()
    ensures Pow128(1) == 128 && Pow128(2) == 0x4000 && Pow128(3) == 0x20_0000
    ensures Pow128(5) > TWO_32
    ensures Pow128(9) == 0x8000_0000_0000_0000
    ensures Pow128(10) > TWO_64
  {
    assert Pow128(3) == 128 * Pow128(2);
    assert Pow128(5) == 128 * Pow128(4) && Pow128(4) == 128 * Pow128(3);
    assert Pow128(7) == 128 * Pow128(6) && Pow128(6) == 128 * Pow128(5);
    assert Pow128(9) == 128 * Pow128(8) && Pow128(8) == 128 * Pow128(7);
    assert Pow128(10) == 128 * Pow128(9);
  }

  lemma {:induction false} VarintLength(n: nat, k: nat)
    requires k >= 1 && n < Pow128(k) && (k == 1 || Pow128(k - 1) <= n)
    ensures |Varint(n)| == k
  {
    if k > 1 {
      assert Pow128(k - 1) == 128 * Pow128(k - 2);
      PowPositive(k - 2);
      VarintLength(n / 128, k - 1);
    }
  }

  lemma {:induction false} PowPositive(k: nat)
    ensures Pow128(k) >= 1
  {
    if k > 0 { PowPositive(k - 1); }
  }

  lemma Uint32RoundTrip(u: uint32, tail: seq<byte>)
    ensures ReadUint32(Varint(u) + tail) == Got(u, tail)
  {
    hide Varint, ReadVarint, Pow128;
    Pow128Values();
    VarintRoundTrip(u, tail, MAX_VARINT);
  }

  /** Every int32 survives, negatives through the low 32 bits of a ten-byte varint. */
  lemma Int32RoundTrip(x: int32, tail: seq<byte>)
    ensures ReadInt32(Int32(x) + tail) == Got(x, tail)
    ensures x < 0 ==> |Int32(x)| == 10
    ensures x >= 0 ==> |Int32(x)| <= 5
  {
    hide Varint, ReadVarint, Pow128;
    Pow128Values();
    var n: nat := if x < 0 then x + TWO_64 else x;
    VarintRoundTrip(n, tail, MAX_VARINT);
    if x < 0 { VarintLength(n, 10); } else { VarintAtMost(n, 5); }
  }

  lemma {:induction false} VarintAtMost(n: nat, k: nat)
    requires k >= 1 && n < Pow128(k)
    ensures |Varint(n)| <= k
  {
    if n >= 128 { VarintAtMost(n / 128, k - 1); }
  }

  lemma BoolRoundTrip(b: bool, tail: seq<byte>)
    ensures ReadBool(Bool(b) + tail) == Got(b, tail)
  {
    Uint32RoundTrip(if b then 1 else 0, tail);
  }

  lemma BytesRoundTrip(b: seq<byte>, tail: seq<byte>)
    requires |b| < TWO_32
    ensures ReadBytes(LengthDelimited(b) + tail) == Got(b, tail)
  {
    Uint32RoundTrip(|b|, b + tail);
    assert LengthDelimited(b) + tail == Varint(|b|) + (b + tail);
  }

  // ---- A successful read does not depend on what follows ----

  lemma {:induction false} VarintExtend(s: seq<byte>, t: seq<byte>, limit: nat)
    requires ReadVarint(s, limit).Got?
    ensures ReadVarint(s + t, limit) ==
            Got(ReadVarint(s, limit).value, ReadVarint(s, limit).rest + t)
  {
    assert (s + t)[1..] == s[1..] + t;
    if s[0] >= 128 { VarintExtend(s[1..], t, limit - 1); }
  }

  lemma TakeExtend(s: seq<byte>, t: seq<byte>, n: nat)
    requires n <= |s|
    ensures Take(s + t, n) == Got(s[..n], s[n..] + t)
  {
    assert (s + t)[..n] == s[..n] && (s + t)[n..] == s[n..] + t;
  }

  lemma BytesExtend(s: seq<byte>, t: seq<byte>)
    requires ReadBytes(s).Got?
    ensures ReadBytes(s + t) == Got(ReadBytes(s).value, ReadBytes(s).rest + t)
  {
    VarintExtend(s, t, MAX_VARINT);
    TakeExtend(ReadUint32(s).rest, t, ReadUint32(s).value);
  }

  lemma {:induction false} SkipExtend(s: seq<byte>, t: seq<byte>, wireType: nat)
    requires SkipType(s, wireType).Got?
    ensures SkipType(s + t, wireType) ==
            Got(SkipType(s, wireType).value, SkipType(s, wireType).rest + t)
    decreases |s|, 1
  {
    if wireType == 0 { VarintExtend(s, t, MAX_VARINT); }
    else if wireType == 1 { TakeExtend(s, t, 8); }
    else if wireType == 2 { BytesExtend(s, t); }
    else if wireType == 3 { SkipGroupExtend(s, t); }
    else { TakeExtend(s, t, 4); }
  }

  lemma {:induction false} SkipGroupExtend(s: seq<byte>, t: seq<byte>)
    requires SkipGroup(s).Got?
    ensures SkipGroup(s + t) == Got(SkipGroup(s).value, SkipGroup(s).rest + t)
    decreases |s|, 0
  {
    VarintExtend(s, t, MAX_VARINT);
    var tag, rest := ReadUint32(s).value, ReadUint32(s).rest;
    if tag % 8 != 4 {
      SkipExtend(rest, t, tag % 8);
      SkipGroupExtend(SkipType(rest, tag % 8).rest, t);
    }
  }
}
