/** How `run` lays out the command line and environment in memory before the program starts. */
module ArgvLayout {
  import opened Options
  import opened Wire
  import opened LinearMemory

  const FIRST: nat := 4096
  // The linker places no data below this address.
  const MIN_DATA: nat := 4096 + 8192

  function Align(n: nat): (r: nat)
    ensures r % 8 == 0 && n <= r < n + 8
  {
    if n % 8 != 0 then n + 8 - n % 8 else n
  }

  /** Where the strings end: each takes its bytes, a NUL, and padding to a multiple of eight. */
  function End(strings: seq<seq<byte>>): (r: nat)
    ensures r % 8 == 0 && r >= FIRST
  {
    if strings == [] then FIRST else Align(End(strings[..|strings| - 1]) + |strings[|strings| - 1]| + 1)
  }

  predicate StringAt(mem: seq<byte>, addr: nat, s: seq<byte>) {
    addr + |s| < |mem| && mem[addr..addr + |s|] == s && mem[addr + |s|] == 0
  }

  /** A 64-bit pointer, little-endian. */
  predicate PointerAt(mem: seq<byte>, addr: nat, p: nat) {
    addr + 8 <= |mem| && WordAt(mem, addr) == Word64(p % TWO_32, 0)
  }

  /** String `k` lies where the strings before it end, and nothing overlaps it. */
  predicate StringsPlaced(mem: seq<byte>, strings: seq<seq<byte>>, n: nat)
    requires n <= |strings|
  {
    forall k :: 0 <= k < n ==> StringAt(mem, End(strings[..k]), strings[k])
  }

  /** The pointer table: the arguments, zero, the environment, zero. */
  function Pointer(argv: seq<seq<byte>>, env: seq<seq<byte>>, i: nat): nat
    requires i < |argv| + |env| + 2
  {
    if i < |argv| then End((argv + env)[..i])
    else if i == |argv| then 0
    else if i <= |argv| + |env| then End((argv + env)[..i - 1])
    else 0
  }

  lemma {:induction false} EndGrows(strings: seq<seq<byte>>, i: nat, j: nat)
    requires i < j <= |strings|
    ensures End(strings[..i]) + |strings[i]| + 1 <= End(strings[..j])
  {
    var front := strings[..j];
    assert front[..|front| - 1] == strings[..j - 1];
    if i < j - 1 { EndGrows(strings, i, j - 1); }
  }

  /** The first string lies at 4096, and each next one at the first multiple of eight after the NUL. */
  lemma EndIsNext(strings: seq<seq<byte>>, i: nat)
    requires i < |strings|
    ensures End(strings[..0]) == 4096
    ensures var after, next := End(strings[..i]) + |strings[i]| + 1, End(strings[..i + 1]);
            next % 8 == 0 && after <= next < after + 8
  {
    assert strings[..i + 1][..i] == strings[..i];
  }

  /** A pointer is its eight bytes, lowest first. */
  lemma PointerBytes(mem: seq<byte>, addr: nat, p: nat)
    requires PointerAt(mem, addr, p)
    ensures LittleValue(mem[addr..addr + 8]) == p % 4294967296
  {
    WordBytes(mem, addr);
  }

  lemma SamePrefix(before: seq<byte>, after: seq<byte>, bound: nat, a: nat, b: nat)
    requires a <= b <= bound <= |before| == |after| && before[..bound] == after[..bound]
    ensures before[a..b] == after[a..b]
  {
    assert before[a..b] == before[..bound][a..b] && after[a..b] == after[..bound][a..b];
  }

  /** Bytes written at or after `from` leave what lies before it alone. */
  lemma PlacedBelow(before: seq<byte>, after: seq<byte>, strings: seq<seq<byte>>, n: nat)
    requires n <= |strings| && StringsPlaced(before, strings, n)
    requires |before| == |after| && End(strings[..n]) <= |before|
    requires before[..End(strings[..n])] == after[..End(strings[..n])]
    ensures StringsPlaced(after, strings, n)
  {
    hide End;
    var bound := End(strings[..n]);
    forall k | 0 <= k < n ensures StringAt(after, End(strings[..k]), strings[k]) {
      EndGrows(strings, k, n);
      var a, m := End(strings[..k]), |strings[k]|;
      SamePrefix(before, after, bound, a, a + m);
      SamePrefix(before, after, bound, a + m, a + m + 1);
      assert after[a + m] == after[a + m..a + m + 1][0] == before[a + m..a + m + 1][0];
    }
  }

  lemma PlaceOne(before: seq<byte>, after: seq<byte>, strings: seq<seq<byte>>, n: nat)
    requires n < |strings| && StringsPlaced(before, strings, n)
    requires |before| == |after| && End(strings[..n]) <= |before|
    requires before[..End(strings[..n])] == after[..End(strings[..n])]
    requires StringAt(after, End(strings[..n]), strings[n])
    ensures StringsPlaced(after, strings, n + 1)
    ensures End(strings[..n + 1]) == Align(End(strings[..n]) + |strings[n]| + 1)
  {
    PlacedBelow(before, after, strings, n);
    assert strings[..n + 1][..n] == strings[..n];
  }

  /** Copies a string and its NUL; a string that does not fit the memory is an error. */
  method StrPtr(mem: array<byte>, offset: nat, s: seq<byte>) returns (next: Option<nat>)
    modifies mem
    ensures next.None? <==> offset + |s| + 1 > mem.Length
    ensures next.Some? ==> next.value == Align(offset + |s| + 1) && StringAt(mem[..], offset, s)
    ensures offset <= mem.Length ==> mem[..offset] == old(mem[..offset])
  {
    if offset + |s| + 1 > mem.Length {
      return None;
    }
    ghost var before := mem[..];
    for i := 0 to |s|
      invariant mem[..offset] == before[..offset]
      invariant mem[offset..offset + i] == s[..i]
    {
      mem[offset + i] := s[i];
    }
    mem[offset + |s|] := 0;
    assert mem[offset..offset + |s|] == s[..|s|] == s;
    next := Some(Align(offset + |s| + 1));
  }

  lemma TooLong(strings: seq<seq<byte>>, i: nat, last: nat)
    requires i < last <= |strings|
    ensures End(strings[..last]) >= End(strings[..i]) + |strings[i]| + 1
  {
    EndGrows(strings, i, last);
  }

  /** The strings from `first` to `last`, after those before them. */
  method WriteStrings(mem: array<byte>, strings: seq<seq<byte>>, first: nat, last: nat)
    returns (ptrs: Option<seq<nat>>)
    requires first <= last <= |strings|
    requires StringsPlaced(mem[..], strings, first)
    modifies mem
    ensures ptrs.None? ==> End(strings[..last]) > mem.Length
    ensures ptrs.Some? ==>
              && StringsPlaced(mem[..], strings, last)
              && |ptrs.value| == last - first
              && forall i :: first <= i < last ==> ptrs.value[i - first] == End(strings[..i])
  {
    hide End, StringsPlaced, StringAt;
    var offset, out := End(strings[..first]), [];
    for i := first to last
      invariant offset == End(strings[..i])
      invariant StringsPlaced(mem[..], strings, i)
      invariant |out| == i - first
      invariant forall k :: first <= k < i ==> out[k - first] == End(strings[..k])
    {
      ghost var before := mem[..];
      var next := StrPtr(mem, offset, strings[i]);
      if next.None? {
        TooLong(strings, i, last);
        return None;
      }
      PlaceOne(before, mem[..], strings, i);
      out := out + [offset];
      offset := next.value;
    }
    ptrs := Some(out);
  }

  predicate PointersAt(mem: seq<byte>, addr: nat, ptrs: seq<nat>, n: nat)
    requires n <= |ptrs|
  {
    forall k :: 0 <= k < n ==> PointerAt(mem, addr + 8 * k, ptrs[k])
  }

  lemma PointersBelow(before: seq<byte>, after: seq<byte>, addr: nat, ptrs: seq<nat>, n: nat)
    requires n <= |ptrs| && PointersAt(before, addr, ptrs, n)
    requires |before| == |after| && addr + 8 * n <= |before|
    requires before[..addr + 8 * n] == after[..addr + 8 * n]
    ensures PointersAt(after, addr, ptrs, n)
  {
    var bound := addr + 8 * n;
    forall k | 0 <= k < n ensures PointerAt(after, addr + 8 * k, ptrs[k]) {
      var a := addr + 8 * k;
      forall i | a <= i < a + 8 ensures after[i] == before[i] {
        assert after[i] == after[..bound][i] == before[..bound][i];
      }
    }
  }

  method WritePointers(mem: array<byte>, addr: nat, ptrs: seq<nat>) returns (end: Option<nat>)
    modifies mem
    ensures end.Some? <==> addr + 8 * |ptrs| <= mem.Length || ptrs == []
    ensures end.Some? ==> end.value == addr + 8 * |ptrs| && PointersAt(mem[..], addr, ptrs, |ptrs|)
    ensures addr <= mem.Length ==> mem[..addr] == old(mem[..addr])
  {
    var offset := addr;
    for i := 0 to |ptrs|
      invariant offset == addr + 8 * i && (i == 0 || offset <= mem.Length)
      invariant PointersAt(mem[..], addr, ptrs, i)
      invariant addr <= mem.Length ==> mem[..addr] == old(mem[..addr])
    {
      if offset + 8 > mem.Length { return None; }
      ghost var before := mem[..];
      SetWords(mem, offset, Word64(ptrs[i] % TWO_32, 0));
      PointersBelow(before, mem[..], addr, ptrs, i);
      assert mem[..addr] == mem[..offset][..addr];
      offset := offset + 8;
    }
    end := Some(offset);
  }

  /** The pointer the program reads from entry `i` of the table. */
  function Entry(mem: seq<byte>, table: nat, i: nat): nat
    requires table + 8 * i + 8 <= |mem|
  {
    LittleValue(mem[table + 8 * i..table + 8 * i + 8])
  }

  /** Through the table the program finds every string, and a zero after each of the two lists. */
  ghost predicate Found(mem: seq<byte>, table: nat, argv: seq<seq<byte>>, env: seq<seq<byte>>) {
    && table + 8 * (|argv| + |env| + 2) <= |mem|
    && (forall i :: 0 <= i < |argv| ==> StringAt(mem, Entry(mem, table, i), argv[i]))
    && Entry(mem, table, |argv|) == 0
    && (forall i :: 0 <= i < |env| ==> StringAt(mem, Entry(mem, table, |argv| + 1 + i), env[i]))
    && Entry(mem, table, |argv| + |env| + 1) == 0
  }

  lemma EntryIs(mem: seq<byte>, table: nat, i: nat, p: nat)
    requires PointerAt(mem, table + 8 * i, p) && p < 4294967296
    ensures table + 8 * i + 8 <= |mem| && Entry(mem, table, i) == p
  {
    SmallPointer(mem, table + 8 * i, p);
    hide LittleValue, WordAt;
  }

  lemma SmallPointer(mem: seq<byte>, addr: nat, p: nat)
    requires PointerAt(mem, addr, p) && p < 4294967296
    ensures addr + 8 <= |mem| && LittleValue(mem[addr..addr + 8]) == p
  {
    PointerBytes(mem, addr, p);
    hide LittleValue, WordAt;
    assert p % 4294967296 == p;
  }

  lemma {:induction false} EndBound(strings: seq<seq<byte>>, k: nat)
    requires k <= |strings|
    ensures End(strings[..k]) <= End(strings)
  {
    if k < |strings| {
      EndGrows(strings, k, |strings|);
    }
    assert strings[..|strings|] == strings;
  }

  lemma StringsFound(mem: seq<byte>, table: nat, argv: seq<seq<byte>>, env: seq<seq<byte>>)
    requires StringsPlaced(mem, argv + env, |argv| + |env|)
    requires forall i :: 0 <= i < |argv| + |env| + 2 ==> PointerAt(mem, table + 8 * i, Pointer(argv, env, i))
    requires End(argv + env) <= 12288 && table + 8 * (|argv| + |env| + 2) <= |mem|
    ensures Found(mem, table, argv, env)
  {
    var n := |argv|;
    hide End, StringAt, PointerAt, Entry;
    forall i | 0 <= i < n ensures StringAt(mem, Entry(mem, table, i), argv[i]) {
      EntryFinds(mem, table, argv, env, i, i);
    }
    EntryIs(mem, table, n, Pointer(argv, env, n));
    forall i | 0 <= i < |env| ensures StringAt(mem, Entry(mem, table, n + 1 + i), env[i]) {
      EntryFinds(mem, table, argv, env, n + 1 + i, n + i);
    }
    EntryIs(mem, table, n + |env| + 1, Pointer(argv, env, n + |env| + 1));
  }

  lemma EntryFinds(mem: seq<byte>, table: nat, argv: seq<seq<byte>>, env: seq<seq<byte>>, i: nat, k: nat)
    requires StringsPlaced(mem, argv + env, |argv| + |env|) && End(argv + env) <= 12288
    requires k < |argv| + |env| && i == if k < |argv| then k else k + 1
    requires PointerAt(mem, table + 8 * i, Pointer(argv, env, i))
    ensures table + 8 * i + 8 <= |mem| && StringAt(mem, Entry(mem, table, i), (argv + env)[k])
  {
    hide End, StringAt, PointerAt, Entry;
    EndBound(argv + env, k);
    EntryIs(mem, table, i, Pointer(argv, env, i));
  }

  datatype Layout = Layout(argc: nat, argv: nat)

  /**
    Runs the layout; an error is thrown when memory or the space below the program's data is too
    small. On success the program finds, through the table at `argv`, every argument and every
    environment string, each list ended by a zero pointer.
   */
  method LayOut(mem: array<byte>, argv: seq<seq<byte>>, env: seq<seq<byte>>) returns (r: Option<Layout>)
    modifies mem
    ensures r.Some? ==>
              && r.value == Layout(|argv|, End(argv + env))
              && StringsPlaced(mem[..], argv + env, |argv| + |env|)
              && forall i :: 0 <= i < |argv| + |env| + 2 ==>
                   PointerAt(mem[..], r.value.argv + 8 * i, Pointer(argv, env, i))
    ensures r.Some? ==> Found(mem[..], r.value.argv, argv, env)
    ensures var total := End(argv + env) + 8 * (|argv| + |env| + 2);
            r.Some? <==> total <= mem.Length && total < 12288
  {
    hide End, StringsPlaced, PointerAt;
    var strings := argv + env;
    assert strings[..|argv| + |env|] == strings;
    assert StringsPlaced(mem[..], strings, 0) by { NothingPlaced(mem[..], strings); }
    var args := WriteStrings(mem, strings, 0, |argv|);
    if args.None? {
      if env != [] { EndGrows(strings, |argv|, |strings|); }
      return None;
    }
    var vars := WriteStrings(mem, strings, |argv|, |argv| + |env|);
    if vars.None? { return None; }
    var ptrs := args.value + [0] + vars.value + [0];
    TableMatches(argv, env, args.value, vars.value, ptrs);
    ghost var before := mem[..];
    var start := End(strings);
    var end := WritePointers(mem, start, ptrs);
    if end.None? { return None; }
    PlacedBelow(before, mem[..], strings, |strings|);
    if end.value >= MIN_DATA { return None; }
    r := Some(Layout(|argv|, start));
    StringsFound(mem[..], start, argv, env);
  }

  lemma NothingPlaced(mem: seq<byte>, strings: seq<seq<byte>>)
    ensures StringsPlaced(mem, strings, 0)
  {
  }

  lemma TableMatches(argv: seq<seq<byte>>, env: seq<seq<byte>>, args: seq<nat>, vars: seq<nat>, ptrs: seq<nat>)
    requires |args| == |argv| && |vars| == |env| && ptrs == args + [0] + vars + [0]
    requires forall i :: 0 <= i < |argv| ==> args[i] == End((argv + env)[..i])
    requires forall i :: |argv| <= i < |argv| + |env| ==> vars[i - |argv|] == End((argv + env)[..i])
    ensures |ptrs| == |argv| + |env| + 2
    ensures forall i :: 0 <= i < |ptrs| ==> ptrs[i] == Pointer(argv, env, i)
  {
    hide End;
    forall i | 0 <= i < |ptrs| ensures ptrs[i] == Pointer(argv, env, i) {
      if i < |argv| {
        assert ptrs[i] == args[i];
      } else if |argv| < i <= |argv| + |env| {
        assert ptrs[i] == vars[i - 1 - |argv|];
      }
    }
  }
}
