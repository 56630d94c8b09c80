/**
  The table through which Go refers to JavaScript values: a reference is a NaN whose low word is
  a slot id, slots are counted, and freed ids are reused.
 */
module ValueTable {
  import opened Wire
  import opened LinearMemory

  predicate IsNaN(w: Word64) {
    w.high / 0x10_0000 % 0x800 == 0x7FF && (w.high % 0x10_0000 != 0 || w.low != 0)
  }

  predicate IsZero(w: Word64) {
    w.high % 0x8000_0000 == 0 && w.low == 0
  }

  /** The bits of a double that is a number. */
  type Double = w: Word64 | !IsNaN(w) witness Word64(0, 0)

  /** JavaScript values; all NaNs are one. */
  datatype Value =
    | Undefined
    | Null
    | Boolean(b: bool)
    | NaN
    | Number(bits: Double)
    | Text(units: seq<int>)
    | Symbol(symbol: nat)
    | BigInt(n: int)
    | Object(object: nat)
    | Function(code: nat)

  const NAN_HEAD: uint32 := 0x7FF8_0000
  const ZERO := Number(Word64(0, 0))
  const MINUS_ZERO := Number(Word64(0, 0x8000_0000))
  const GLOBAL := Object(0)
  const GO := Object(1)

  /** `Map` keys: minus zero is zero. */
  function Key(v: Value): Value {
    if v == MINUS_ZERO then ZERO else v
  }

  /** Values that are written into the reference itself and take no slot. */
  predicate Inline(v: Value) {
    v == Undefined || v == NaN || (v.Number? && !IsZero(v.bits))
  }

  datatype Count = Infinite | Finite(n: int)

  datatype Table = Table(
    values: seq<Value>,
    counts: seq<Count>,
    ids: map<Value, nat>,
    pool: seq<nat>)

  const PRESETS: seq<Value> := [NaN, ZERO, Null, Boolean(true), Boolean(false), GLOBAL, GO]

  const START := Table(
    PRESETS,
    [Infinite, Infinite, Infinite, Infinite, Infinite, Infinite, Infinite],
    map[ZERO := 1, Null := 2, Boolean(true) := 3, Boolean(false) := 4, GLOBAL := 5, GO := 6],
    [])

  function TypeFlag(v: Value): nat {
    match v
    case Object(_) => 1
    case Text(_) => 2
    case Symbol(_) => 3
    case Function(_) => 4
    case _ => 0
  }

  // ---- Doubles by sign, exponent and fraction ----

  /** The 64 bits of a double: the sign, eleven bits of exponent, 52 of fraction in two parts. */
  function DoubleBits(sign: nat, exponent: nat, fraction: nat, low: uint32): Word64
    requires sign < 2 && exponent < 2048 && fraction < 1048576
  {
    Word64(low, sign * 2147483648 + exponent * 1048576 + fraction)
  }

  lemma FieldsOf(sign: nat, exponent: nat, fraction: nat)
    requires sign < 2 && exponent < 2048 && fraction < 1048576
    ensures var high := sign * 2147483648 + exponent * 1048576 + fraction;
            && high < 4294967296 && high % 1048576 == fraction
            && high / 1048576 == sign * 2048 + exponent && high % 2147483648 == exponent * 1048576 + fraction
  {
  }

  /**
    A word is a NaN exactly when its exponent is all ones and its fraction is not zero, so infinities
    are numbers; it is a zero, of either sign, exactly when both are zero.
   */
  lemma NumbersByExponent(sign: nat, exponent: nat, fraction: nat, low: uint32)
    requires sign < 2 && exponent < 2048 && fraction < 1048576
    ensures var w := DoubleBits(sign, exponent, fraction, low);
            && (IsNaN(w) <==> exponent == 2047 && (fraction != 0 || low != 0))
            && (IsZero(w) <==> exponent == 0 && fraction == 0 && low == 0)
  {
    FieldsOf(sign, exponent, fraction);
    assert (sign * 2048 + exponent) % 2048 == exponent;
  }

  lemma EveryWordIsDouble(w: Word64) returns (sign: nat, exponent: nat, fraction: nat)
    ensures sign < 2 && exponent < 2048 && fraction < 1048576
    ensures w == DoubleBits(sign, exponent, fraction, w.low)
  {
    sign, exponent, fraction := w.high / 2147483648, w.high / 1048576 % 2048, w.high % 1048576;
  }

  // ---- What each operation computes ----

  /** Takes a slot for a value that has none: the last pooled id, or a new one at the end. */
  function Allocate(t: Table, v: Value): Table
    requires |t.counts| == |t.values|
    requires forall j :: 0 <= j < |t.pool| ==> t.pool[j] < |t.values|
  {
    if t.pool != [] then
      var id := t.pool[|t.pool| - 1];
      t.(values := t.values[id := v], counts := t.counts[id := Finite(0)],
         ids := t.ids[v := id], pool := t.pool[..|t.pool| - 1])
    else
      t.(values := t.values + [v], counts := t.counts + [Finite(0)], ids := t.ids[v := |t.values|])
  }

  function Plus(c: Count, d: int): Count {
    if c.Finite? then Finite(c.n + d) else Infinite
  }

  ghost predicate Usable(t: Table) {
    && |t.counts| == |t.values|
    && (forall j :: 0 <= j < |t.pool| ==> t.pool[j] < |t.values|)
    && (forall v <- t.ids :: t.ids[v] < |t.values|)
  }

  function StoreTable(t: Table, v: Value): (r: Table)
    requires Usable(t)
    ensures !Inline(v) ==> Key(v) in r.ids
  {
    if Inline(v) then t
    else
      var k := Key(v);
      var t := if k in t.ids then t else Allocate(t, k);
      t.(counts := t.counts[t.ids[k] := Plus(t.counts[t.ids[k]], 1)])
  }

  /** The eight bytes written for `v`, once it has its slot in `t`. */
  function Reference(t: Table, v: Value): Word64 {
    if v == Undefined then Word64(0, 0)
    else if v == NaN then Word64(0, NAN_HEAD)
    else if v.Number? && !IsZero(v.bits) then v.bits
    else if Key(v) in t.ids then Word64(t.ids[Key(v)] % TWO_32, NAN_HEAD + TypeFlag(v))
    else Word64(0, 0)
  }

  function Load(t: Table, w: Word64): Value {
    if IsZero(w) then Undefined
    else if !IsNaN(w) then Number(w)
    else if w.low < |t.values| then t.values[w.low]
    else Undefined
  }

  function Finalize(t: Table, id: nat): Table
    requires |t.counts| == |t.values| && id < |t.values|
  {
    var c := Plus(t.counts[id], -1);
    var t := t.(counts := t.counts[id := c]);
    if c == Finite(0) then
      t.(values := t.values[id := Null], ids := t.ids - {Key(t.values[id])}, pool := t.pool + [id])
    else t
  }

  // ---- The code ----

  class Go {
    const mem: array<byte>
    var values: seq<Value>
    var goRefCounts: seq<Count>
    var ids: map<Value, nat>
    var idPool: seq<nat>

    ghost function State(): Table
      reads this
    {
      Table(values, goRefCounts, ids, idPool)
    }

    constructor (mem: array<byte>)
      ensures this.mem == mem && State() == START
    {
      this.mem := mem;
      values := PRESETS;
      goRefCounts := [Infinite, Infinite, Infinite, Infinite, Infinite, Infinite, Infinite];
      ids := map[ZERO := 1, Null := 2, Boolean(true) := 3, Boolean(false) := 4, GLOBAL := 5, GO := 6];
      idPool := [];
    }

    method SetInt64(addr: nat, v: real)
      requires addr + 8 <= mem.Length
      modifies mem
      ensures WordAt(mem[..], addr) == Split(v)
      ensures -9007199254740992.0 <= v <= 9007199254740992.0 && v == v.Floor as real ==>
                LittleValue(mem[addr..addr + 8]) == v.Floor % 18446744073709551616
      ensures mem[..addr] == old(mem[..addr]) && mem[addr + 8..] == old(mem[addr + 8..])
    {
      if -9007199254740992.0 <= v <= 9007199254740992.0 && v == v.Floor as real { SplitIsModular(v.Floor); }
      hide ToUint32;
      SetWords(mem, addr, Word64(ToUint32(v), ToUint32((v / 4294967296.0).Floor as real)));
      WordBytes(mem[..], addr);
      assert mem[..][addr..addr + 8] == mem[addr..addr + 8];
    }

    method GetInt64(addr: nat) returns (v: int)
      requires addr + 8 <= mem.Length
      ensures v == Join(WordAt(mem[..], addr))
      ensures var n := LittleValue(mem[addr..addr + 8]);
              v == if n < 9223372036854775808 then n else n - 18446744073709551616
    {
      JoinIsSigned(WordAt(mem[..], addr));
      WordBytes(mem[..], addr);
      assert mem[..][addr..addr + 8] == mem[addr..addr + 8];
      var low := Uint32At(mem[..], addr);
      var high := Signed(Uint32At(mem[..], addr + 4));
      v := low + high * TWO_32;
    }

    method StoreValue(addr: nat, v: Value)
      requires addr + 8 <= mem.Length && Usable(State())
      modifies this, mem
      ensures State() == StoreTable(old(State()), v)
      ensures WordAt(mem[..], addr) == Reference(State(), v)
      ensures v == Undefined ==> WordAt(mem[..], addr) == Word64(0, 0)
      ensures v == NaN ==> WordAt(mem[..], addr) == Word64(0, 0x7FF8_0000)
      ensures v.Number? && !IsZero(v.bits) ==> WordAt(mem[..], addr) == v.bits
      ensures v.Object? ==> WordAt(mem[..], addr).high == 0x7FF8_0001
      ensures v.Text? ==> WordAt(mem[..], addr).high == 0x7FF8_0002
      ensures v.Symbol? ==> WordAt(mem[..], addr).high == 0x7FF8_0003
      ensures v.Function? ==> WordAt(mem[..], addr).high == 0x7FF8_0004
      ensures v.Null? || v.Boolean? || v.BigInt? || (v.Number? && IsZero(v.bits)) ==>
                WordAt(mem[..], addr).high == 0x7FF8_0000
      ensures v != Undefined && v != NaN && !(v.Number? && !IsZero(v.bits)) ==>
                Key(v) in ids && WordAt(mem[..], addr).low == ids[Key(v)] % 4294967296
      ensures mem[..addr] == old(mem[..addr]) && mem[addr + 8..] == old(mem[addr + 8..])
    {
      if v == NaN || (v.Number? && !IsZero(v.bits)) {
        if v == NaN {
          SetWords(mem, addr, Word64(0, NAN_HEAD));
          return;
        }
        SetWords(mem, addr, v.bits);
        return;
      }
      if v == Undefined {
        SetWords(mem, addr, Word64(0, 0));
        return;
      }
      var id := IdFor(Key(v));
      goRefCounts := goRefCounts[id := Plus(goRefCounts[id], 1)];
      SetWords(mem, addr, Word64(id % TWO_32, NAN_HEAD + TypeFlag(v)));
    }

    method IdFor(k: Value) returns (id: nat)
      requires Usable(State())
      modifies this
      ensures State() == if k in old(ids) then old(State()) else Allocate(old(State()), k)
      ensures k in ids && id == ids[k] && id < |values| == |goRefCounts|
      ensures k !in old(ids) ==>
                id == (if old(idPool) != [] then old(idPool)[|old(idPool)| - 1] else |old(values)|) && values[id] == k
    {
      if k in ids {
        return ids[k];
      }
      if idPool != [] {
        id := idPool[|idPool| - 1];
        idPool := idPool[..|idPool| - 1];
        values := values[id := k];
        goRefCounts := goRefCounts[id := Finite(0)];
      } else {
        id := |values|;
        values := values + [k];
        goRefCounts := goRefCounts + [Finite(0)];
      }
      ids := ids[k := id];
    }

    method LoadValue(addr: nat) returns (v: Value)
      requires addr + 8 <= mem.Length
      ensures v == Load(State(), WordAt(mem[..], addr))
    {
      var w := WordAt(mem[..], addr);
      if IsZero(w) {
        return Undefined;
      }
      if !IsNaN(w) {
        return Number(w);
      }
      v := if w.low < |values| then values[w.low] else Undefined;
    }

    method FinalizeRef(id: nat)
      requires |goRefCounts| == |values| && id < |values|
      modifies this
      ensures State() == Finalize(old(State()), id)
      ensures old(goRefCounts)[id] == Finite(1) ==>
                values[id] == Null && goRefCounts[id] == Finite(0) && idPool == old(idPool) + [id]
                && ids == old(ids) - {Key(old(values)[id])}
      ensures old(goRefCounts)[id] != Finite(1) ==>
                values == old(values) && idPool == old(idPool) && ids == old(ids)
    {
      goRefCounts := goRefCounts[id := Plus(goRefCounts[id], -1)];
      if goRefCounts[id] == Finite(0) {
        var v := values[id];
        values := values[id := Null];
        ids := ids - {Key(v)};
        idPool := idPool + [id];
      }
    }
  }
}
