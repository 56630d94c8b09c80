/** The little-endian words of WebAssembly memory, and 64-bit integers split over two of them. */
module LinearMemory {
  import opened Wire

  /** Eight bytes of memory: the word at the address, and the word after it. */
  datatype Word64 = Word64(low: uint32, high: uint32)

  function LittleEndian(w: uint32): (bytes: seq<byte>)
    ensures |bytes| == 4
  {
    [w % 256, w / 0x100 % 256, w / 0x1_0000 % 256, w / 0x100_0000]
  }

  function FromBytes(b0: int, b1: int, b2: int, b3: int): int {
    b0 + 0x100 * b1 + 0x1_0000 * b2 + 0x100_0000 * b3
  }

  function Uint32At(mem: seq<byte>, addr: nat): uint32
    requires addr + 4 <= |mem|
  {
    FromBytes(mem[addr], mem[addr + 1], mem[addr + 2], mem[addr + 3])
  }

  function WordAt(mem: seq<byte>, addr: nat): Word64
    requires addr + 8 <= |mem|
  {
    Word64(Uint32At(mem, addr), Uint32At(mem, addr + 4))
  }

  lemma LittleRoundTrip(mem: seq<byte>, addr: nat, w: uint32)
    requires addr + 4 <= |mem| && mem[addr..addr + 4] == LittleEndian(w)
    ensures Uint32At(mem, addr) == w
  {
    hide FromBytes;
    var bytes := mem[addr..addr + 4];
    assert mem[addr] == bytes[0] && mem[addr + 1] == bytes[1];
    assert mem[addr + 2] == bytes[2] && mem[addr + 3] == bytes[3];
    BytesOfWord(w);
  }

  lemma BytesOfWord(w: uint32)
    ensures FromBytes(w % 256, w / 0x100 % 256, w / 0x1_0000 % 256, w / 0x100_0000) == w
  {
    var a := w / 0x100;
    var b := a / 0x100;
    assert w / 0x1_0000 == b && w / 0x100_0000 == b / 0x100;
  }

  /** The number a stretch of memory holds, lowest byte first. */
  function LittleValue(bytes: seq<byte>): nat {
    if bytes == [] then 0 else bytes[0] + 256 * LittleValue(bytes[1..])
  }

  lemma FourBytes(bytes: seq<byte>)
    requires |bytes| == 4
    ensures LittleValue(bytes) == FromBytes(bytes[0], bytes[1], bytes[2], bytes[3])
  {
    LittleStep(bytes);
    LittleStep(bytes[1..]);
    LittleStep(bytes[2..]);
    LittleStep(bytes[3..]);
    assert bytes[1..][1..] == bytes[2..] && bytes[2..][1..] == bytes[3..] && bytes[3..][1..] == [];
    hide LittleValue;
  }

  lemma LittleStep(bytes: seq<byte>)
    requires bytes != []
    ensures LittleValue(bytes) == bytes[0] + 256 * LittleValue(bytes[1..])
    ensures LittleValue([]) == 0
  {
  }

  /** A 32-bit word in memory is its four bytes, lowest first. */
  lemma Uint32Bytes(mem: seq<byte>, addr: nat)
    requires addr + 4 <= |mem|
    ensures Uint32At(mem, addr) == LittleValue(mem[addr..addr + 4])
  {
    FourBytes(mem[addr..addr + 4]);
  }

  lemma LittleConcat(a: seq<byte>, b: seq<byte>)
    requires |a| == 4
    ensures LittleValue(a + b) == LittleValue(a) + 4294967296 * LittleValue(b)
  {
    FourBytes(a);
    var s := a + b;
    LittleStep(s);
    LittleStep(s[1..]);
    LittleStep(s[2..]);
    LittleStep(s[3..]);
    assert s[1..][1..] == s[2..] && s[2..][1..] == s[3..] && s[3..][1..] == b;
    hide LittleValue;
  }

  /** Two words in memory are eight bytes, the low word first. */
  lemma WordBytes(mem: seq<byte>, addr: nat)
    requires addr + 8 <= |mem|
    ensures LittleValue(mem[addr..addr + 8]) == WordAt(mem, addr).low + 4294967296 * WordAt(mem, addr).high
  {
    hide LittleValue, Uint32At, FromBytes;
    var first, second := mem[addr..addr + 4], mem[addr + 4..addr + 8];
    Uint32Bytes(mem, addr);
    Uint32Bytes(mem, addr + 4);
    LittleConcat(first, second);
    assert first + second == mem[addr..addr + 8];
  }

  method SetUint32(mem: array<byte>, addr: nat, w: uint32)
    requires addr + 4 <= mem.Length
    modifies mem
    ensures mem[..] == old(mem[..addr]) + LittleEndian(w) + old(mem[addr + 4..])
  {
    mem[addr] := w % 256;
    mem[addr + 1] := w / 0x100 % 256;
    mem[addr + 2] := w / 0x1_0000 % 256;
    mem[addr + 3] := w / 0x100_0000;
  }

  /** The high word first, then the low one, as the generated glue writes them. */
  method SetWords(mem: array<byte>, addr: nat, w: Word64)
    requires addr + 8 <= mem.Length
    modifies mem
    ensures WordAt(mem[..], addr) == w
    ensures mem[..addr] == old(mem[..addr]) && mem[addr + 8..] == old(mem[addr + 8..])
  {
    ghost var before := mem[..];
    SetUint32(mem, addr + 4, w.high);
    ghost var middle := mem[..];
    assert middle[addr + 4..addr + 8] == LittleEndian(w.high);
    SetUint32(mem, addr, w.low);
    ghost var after := mem[..];
    assert after[addr..addr + 4] == LittleEndian(w.low);
    assert after[addr + 4..] == middle[addr + 4..];
    assert after[addr + 4..addr + 8] == LittleEndian(w.high);
    LittleRoundTrip(after, addr, w.low);
    LittleRoundTrip(after, addr + 4, w.high);
    assert after[..addr] == before[..addr];
    assert after[addr + 8..] == before[addr + 8..];
  }

  // ---- Numbers to words ----

  /** Towards zero, as a JavaScript number becomes an integer. */
  function Truncate(v: real): int {
    if v >= 0.0 then v.Floor else -((-v).Floor)
  }

  function ToUint32(v: real): uint32 {
    Truncate(v) % TWO_32
  }

  /** `setInt64`: the low word truncates, the high word floors. */
  function Split(v: real): Word64 {
    Word64(ToUint32(v), ToUint32((v / 4294967296.0).Floor as real))
  }

  /** `getInt64`: an unsigned low and a signed high word. */
  function Join(w: Word64): int {
    w.low + Signed(w.high) * TWO_32
  }

  // Up to here every integer is a double, and the arithmetic above is exact.
  const SAFE: real := 9007199254740992.0

  lemma FloorOfInteger(n: int)
    ensures (n as real).Floor == n && Truncate(n as real) == n
  {
    if n < 0 { assert -(n as real) == (-n) as real; }
  }

  /** The high word is the floored quotient, sign and all. */
  lemma HighWord(v: real)
    requires -SAFE <= v <= SAFE
    ensures var q := (v / 4294967296.0).Floor;
            && Signed(Split(v).high) == q
            && q as real * 4294967296.0 <= v < (q + 1) as real * 4294967296.0
  {
    var q := (v / 4294967296.0).Floor;
    FloorOfInteger(q);
    assert q as real <= v / 4294967296.0 < (q + 1) as real;
    assert -0x8000_0000 <= q < 0x8000_0000;
  }

  /** An integer is split as its 64-bit two's complement number. */
  lemma SplitIsModular(v: int)
    requires -9007199254740992 <= v <= 9007199254740992
    ensures var w := Split(v as real); w.low + 4294967296 * w.high == v % 18446744073709551616
  {
    FloorOfInteger(v);
    HighWord(v as real);
    var q := (v as real / 4294967296.0).Floor;
    FloorOfInteger(q);
    assert q * TWO_32 <= v < (q + 1) * TWO_32;
    ModularWords(v, q);
  }

  lemma ModularWords(v: int, q: int)
    requires q * TWO_32 <= v < (q + 1) * TWO_32 && -0x8000_0000 <= q < 0x8000_0000
    ensures v % TWO_32 + 4294967296 * (q % TWO_32) == v % 18446744073709551616
  {
    assert v % TWO_32 == v - q * TWO_32;
    if q >= 0 {
      assert q % TWO_32 == q;
    } else {
      assert q % TWO_32 == q + TWO_32;
    }
  }

  /** Two words are read as the signed number of their 64 bits. */
  lemma JoinIsSigned(w: Word64)
    ensures var n := w.low + 4294967296 * w.high;
            Join(w) == if n < 9223372036854775808 then n else n - 18446744073709551616
  {
  }

  /** Every integer up to 2^53, negatives included, comes back from its two words. */
  lemma Int64RoundTrip(v: int)
    requires -9007199254740992 <= v <= 9007199254740992
    ensures Join(Split(v as real)) == v
  {
    FloorOfInteger(v);
    HighWord(v as real);
    var q := (v as real / 4294967296.0).Floor;
    assert q * TWO_32 <= v < (q + 1) * TWO_32;
    assert v % TWO_32 == v - q * TWO_32;
  }

  /**
    A fractional value comes back truncated, except just below a multiple of 2^32 that is not
    positive, where the low word has rounded up and the high word down.
   */
  lemma FractionRoundTrip(v: real)
    requires -9007199254740992.0 <= v <= 9007199254740992.0
    ensures Join(Split(v)) == Truncate(v) <==>
            !(v < 0.0 && v != v.Floor as real && Truncate(v) % TWO_32 == 0)
    ensures Join(Split(v)) == Truncate(v) || Join(Split(v)) == Truncate(v) - TWO_32
  {
    HighWord(v);
    var q, t := (v / 4294967296.0).Floor, Truncate(v);
    TruncateBounds(v);
    hide Truncate, Signed;
    LowWord(q, t);
    if v >= 0.0 {
      assert q * TWO_32 <= t < (q + 1) * TWO_32;
    } else {
      assert q * TWO_32 <= t <= (q + 1) * TWO_32;
      if t == (q + 1) * TWO_32 {
        assert v != t as real;
      } else if t == q * TWO_32 {
        assert v == t as real;
      }
    }
  }

  lemma TruncateBounds(v: real)
    ensures v >= 0.0 ==> Truncate(v) as real <= v < Truncate(v) as real + 1.0
    ensures v < 0.0 ==> Truncate(v) as real - 1.0 < v <= Truncate(v) as real
    ensures v == v.Floor as real <==> v == Truncate(v) as real
  {
    var n := v.Floor;
    if v == n as real { FloorOfInteger(n); }
    if v == Truncate(v) as real { FloorOfInteger(Truncate(v)); }
  }

  lemma LowWord(q: int, t: int)
    ensures q * TWO_32 <= t < (q + 1) * TWO_32 ==> t % TWO_32 == t - q * TWO_32
    ensures t == (q + 1) * TWO_32 ==> t % TWO_32 == 0
  {
  }
}
