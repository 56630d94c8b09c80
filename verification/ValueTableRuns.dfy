/** Whole runs of the value table: Go keeps references, and finalizes each of them at most once. */
module ValueTableRuns {
  import opened Options
  import opened Wire
  import opened LinearMemory
  import opened ValueTable

  datatype Ref = Ref(id: nat, value: Value)

  /** The table, and the references Go still holds. */
  datatype RunState = RunState(table: Table, held: multiset<Ref>)

  datatype Event = StoreEvent(v: Value) | FinalizeEvent(ref: Ref)

  const PRESET_COUNT: nat := 7
  // A JavaScript array has at most this many elements.
  const MAX_ARRAY: nat := 0xFFFF_FFFF

  ghost function LiveValues(held: multiset<Ref>): set<Value> {
    set r <- held | r.id >= PRESET_COUNT :: r.value
  }

  /** `Usable` and the bound on a held id hold in every state a run reaches, so they disable nothing. */
  ghost predicate Enabled(s: RunState, e: Event) {
    && Usable(s.table)
    && match e
       case StoreEvent(v) => |s.table.values| < MAX_ARRAY
       case FinalizeEvent(ref) => ref in s.held && ref.id < |s.table.values|
  }

  ghost function Step(s: RunState, e: Event): RunState
    requires Enabled(s, e)
  {
    match e
    case StoreEvent(v) =>
      var t := StoreTable(s.table, v);
      RunState(t, if Inline(v) then s.held else s.held + multiset{Ref(t.ids[Key(v)], Key(v))})
    case FinalizeEvent(ref) =>
      RunState(Finalize(s.table, ref.id), s.held - multiset{ref})
  }

  ghost function Run(es: seq<Event>): Option<RunState>
    decreases |es|, 0
  {
    if es == [] then Some(RunState(START, multiset{})) else After(es[..|es| - 1], es[|es| - 1])
  }

  /** The state after a run and one more event. */
  ghost function After(es: seq<Event>, e: Event): Option<RunState>
    decreases |es|, 1
  {
    match Run(es)
    case None => None
    case Some(s) => if Enabled(s, e) then Some(Step(s, e)) else None
  }

  // ---- The invariant ----

  ghost predicate Free(t: Table, i: nat)
    requires i < |t.counts|
  {
    t.counts[i] == Finite(0)
  }

  ghost predicate Shape(t: Table) {
    && |t.counts| == |t.values| >= PRESET_COUNT
    && t.values[..PRESET_COUNT] == PRESETS
    && forall i :: 0 <= i < PRESET_COUNT ==> t.counts[i] == Infinite
  }

  /** Each count is the number of references held, and a held reference names its value. */
  ghost predicate Counted(t: Table, held: multiset<Ref>)
    requires |t.counts| == |t.values|
  {
    && (forall i :: PRESET_COUNT <= i < |t.values| ==> t.counts[i] == Finite(held[Ref(i, t.values[i])]))
    && (forall r <- held :: r.id < |t.values| && t.values[r.id] == r.value)
  }

  /** From slot 7 up, the pool holds exactly the free slots, each once. */
  ghost predicate Pooled(t: Table)
    requires |t.counts| == |t.values|
  {
    && (forall j :: 0 <= j < |t.pool| ==> PRESET_COUNT <= t.pool[j] < |t.values| && Free(t, t.pool[j]))
    && (forall i, j :: 0 <= i < j < |t.pool| ==> t.pool[i] != t.pool[j])
    && (forall i :: PRESET_COUNT <= i < |t.values| && Free(t, i) ==> i in t.pool)
  }

  /** Ids and values are inverse to each other on the occupied slots. */
  ghost predicate Inverse(t: Table)
    requires |t.counts| == |t.values|
  {
    && (forall v <- t.ids :: 1 <= t.ids[v] < |t.values| && t.values[t.ids[v]] == v && !Free(t, t.ids[v])
                             && Key(v) == v && !Inline(v))
    && (forall i :: 1 <= i < |t.values| && !Free(t, i) ==> t.values[i] in t.ids && t.ids[t.values[i]] == i)
  }

  ghost predicate Slots(t: Table, held: multiset<Ref>) {
    && Shape(t)
    && Counted(t, held)
    && Pooled(t)
    && Inverse(t)
    && |t.ids| + |t.pool| == |t.values| - 1
    && |t.values| <= MAX_ARRAY
  }

  lemma StartSlots()
    ensures Slots(START, multiset{})
  {
    StartSize();
    StartInverse();
    hide Inverse;
    assert forall i :: 0 <= i < PRESET_COUNT ==> START.counts[i] == Infinite;
  }

  lemma PresetsInverse()
    ensures |PRESETS| == PRESET_COUNT
    ensures forall v <- START.ids :: 1 <= START.ids[v] < PRESET_COUNT && PRESETS[START.ids[v]] == v
    ensures forall i :: 1 <= i < PRESET_COUNT ==> PRESETS[i] in START.ids
  {
  }

  lemma StartInverse()
    ensures Inverse(START)
  {
    PresetsAreKeys();
    PresetsInverse();
    hide Key, Inline;
    assert forall i :: 0 <= i < PRESET_COUNT ==> START.counts[i] == Infinite;
    assert START.values == PRESETS;
    hide PRESETS;
  }

  lemma PresetsAreKeys()
    ensures forall v <- START.ids :: Key(v) == v && !Inline(v)
    ensures forall i :: 1 <= i < PRESET_COUNT ==> START.ids[PRESETS[i]] == i
  {
  }

  lemma StartSize()
    ensures |START.ids| == 6
  {
    var m1: map<Value, nat> := map[ZERO := 1];
    var m2 := m1[Null := 2];
    var m3 := m2[Boolean(true) := 3];
    var m4 := m3[Boolean(false) := 4];
    var m5 := m4[GLOBAL := 5];
    KeyAdded(m1, Null, 2);
    KeyAdded(m2, Boolean(true), 3);
    KeyAdded(m3, Boolean(false), 4);
    KeyAdded(m4, GLOBAL, 5);
    KeyAdded(m5, GO, 6);
    assert START.ids == m5[GO := 6];
  }

  // ---- Storing ----

  /** Only counts changed, and no slot became free or taken. */
  lemma RecountKeeps(t: Table, u: Table)
    requires Shape(t) && |u.counts| == |u.values| && u == t.(counts := u.counts)
    requires forall i :: 0 <= i < |t.values| ==> (Free(u, i) <==> Free(t, i))
    ensures Pooled(t) ==> Pooled(u)
    ensures Inverse(t) ==> Inverse(u)
  {
    hide Free, Key, Inline, PRESETS;
  }

  lemma CountUp(t: Table, held: multiset<Ref>, k: Value)
    requires Slots(t, held) && k in t.ids
    ensures Slots(t.(counts := t.counts[t.ids[k] := Plus(t.counts[t.ids[k]], 1)]),
                  held + multiset{Ref(t.ids[k], k)})
  {
    var id := t.ids[k];
    var u := t.(counts := t.counts[id := Plus(t.counts[id], 1)]);
    RefCounted(t, held, k, u);
    assert forall i :: 0 <= i < |t.values| ==> (Free(u, i) <==> Free(t, i));
    RecountKeeps(t, u);
    hide Counted, Pooled, Inverse, Free, PRESETS;
  }

  lemma RefCounted(t: Table, held: multiset<Ref>, k: Value, u: Table)
    requires Slots(t, held) && k in t.ids
    requires u == t.(counts := t.counts[t.ids[k] := Plus(t.counts[t.ids[k]], 1)])
    ensures Counted(u, held + multiset{Ref(t.ids[k], k)}) && !Free(u, t.ids[k]) && !Free(t, t.ids[k])
  {
    var id := t.ids[k];
    var more := held + multiset{Ref(id, k)};
    assert t.values[id] == k && !Free(t, id);
    hide Pooled, Inverse, PRESETS;
    forall r <- more ensures r.id < |u.values| && u.values[r.id] == r.value {
      assert r in held || r == Ref(id, k);
    }
  }

  /** A free slot has no references. */
  lemma FreeUnheld(t: Table, held: multiset<Ref>, id: nat, v: Value)
    requires Slots(t, held) && PRESET_COUNT <= id < |t.values| && Free(t, id)
    ensures held[Ref(id, v)] == 0
  {
    var r := Ref(id, v);
    assert r in held ==> t.values[r.id] == v && held[Ref(id, t.values[id])] == 0;
  }

  lemma PooledCounted(t: Table, held: multiset<Ref>, k: Value, id: nat, u: Table)
    requires Slots(t, held) && PRESET_COUNT <= id < |t.values| && Free(t, id)
    requires u.values == t.values[id := k] && u.counts == t.counts[id := Finite(1)]
    ensures Counted(u, held + multiset{Ref(id, k)})
  {
    FreeUnheld(t, held, id, k);
    var more := held + multiset{Ref(id, k)};
    forall r <- more ensures r.id < |u.values| && u.values[r.id] == r.value {
      if r in held && r.id == id { FreeUnheld(t, held, id, r.value); }
    }
  }

  lemma PooledFree(t: Table, k: Value, u: Table)
    requires Shape(t) && Pooled(t) && t.pool != []
    requires var id := t.pool[|t.pool| - 1];
             u == Table(t.values[id := k], t.counts[id := Finite(1)], u.ids, t.pool[..|t.pool| - 1])
    ensures Pooled(u)
  {
    hide PRESETS;
    var id := t.pool[|t.pool| - 1];
    assert t.pool == u.pool + [id];
    forall i | PRESET_COUNT <= i < |u.values| && Free(u, i) ensures i in u.pool {
      assert i != id && Free(t, i);
    }
  }

  lemma PooledInverse(t: Table, k: Value, id: nat, u: Table)
    requires Shape(t) && Inverse(t) && PRESET_COUNT <= id < |t.values| && Free(t, id)
    requires k !in t.ids && Key(k) == k && !Inline(k)
    requires u == Table(t.values[id := k], t.counts[id := Finite(1)], t.ids[k := id], u.pool)
    ensures Inverse(u)
  {
    hide PRESETS, Key, Inline;
    assert forall i :: 0 <= i < |t.values| && i != id ==> (Free(u, i) <==> Free(t, i));
  }

  lemma TopIsFree(t: Table, held: multiset<Ref>)
    requires Slots(t, held) && t.pool != []
    ensures PRESET_COUNT <= t.pool[|t.pool| - 1] < |t.values| && Free(t, t.pool[|t.pool| - 1])
  {
  }

  lemma SlotsAreUsable(t: Table, held: multiset<Ref>)
    requires Slots(t, held)
    ensures Usable(t)
  {
  }

  lemma AllocatePooled(t: Table, held: multiset<Ref>, k: Value)
    requires Slots(t, held) && k !in t.ids && Key(k) == k && !Inline(k) && t.pool != []
    ensures var u := StoreTable(t, k); Slots(u, held + multiset{Ref(u.ids[k], k)})
  {
    hide Counted, Pooled, Inverse, PRESETS, Key, Inline, Free, StoreTable;
    var id := t.pool[|t.pool| - 1];
    TopIsFree(t, held);
    SlotsAreUsable(t, held);
    StorePooled(t, k);
    var u := StoreTable(t, k);
    PooledCounted(t, held, k, id, u);
    PooledFree(t, k, u);
    PooledInverse(t, k, id, u);
    KeyAdded(t.ids, k, id);
    assert u.values[..PRESET_COUNT] == t.values[..PRESET_COUNT];
  }

  lemma NewCounted(t: Table, held: multiset<Ref>, k: Value, u: Table)
    requires Shape(t) && Counted(t, held)
    requires u.values == t.values + [k] && u.counts == t.counts + [Finite(1)]
    ensures Counted(u, held + multiset{Ref(|t.values|, k)})
  {
    hide PRESETS;
    var n := |t.values|;
    var more := held + multiset{Ref(n, k)};
    assert held[Ref(n, k)] == 0;
    forall i | PRESET_COUNT <= i < n
      ensures u.counts[i] == Finite(more[Ref(i, u.values[i])])
    {
      assert t.counts[i] == Finite(held[Ref(i, t.values[i])]);
    }
    forall r <- more ensures r.id < |u.values| && u.values[r.id] == r.value {
      assert r in held || r == Ref(n, k);
    }
  }

  lemma NewInverse(t: Table, held: multiset<Ref>, k: Value, u: Table)
    requires Slots(t, held) && k !in t.ids && Key(k) == k && !Inline(k)
    requires u == Table(t.values + [k], t.counts + [Finite(1)], t.ids[k := |t.values|], u.pool)
    ensures Inverse(u)
  {
    assert forall i :: 0 <= i < |t.values| ==> (Free(u, i) <==> Free(t, i));
  }

  lemma NewPooled(t: Table, held: multiset<Ref>, k: Value, u: Table)
    requires Slots(t, held) && t.pool == []
    requires u == Table(t.values + [k], t.counts + [Finite(1)], u.ids, [])
    ensures Pooled(u)
  {
    assert forall i :: 0 <= i < |t.values| ==> (Free(u, i) <==> Free(t, i));
  }

  lemma StoreNew(t: Table, k: Value)
    requires Usable(t) && k !in t.ids && Key(k) == k && !Inline(k) && t.pool == []
    ensures StoreTable(t, k) == Table(t.values + [k], t.counts + [Finite(1)], t.ids[k := |t.values|], [])
  {
  }

  lemma StorePooled(t: Table, k: Value)
    requires Usable(t) && k !in t.ids && Key(k) == k && !Inline(k) && t.pool != []
    ensures var id := t.pool[|t.pool| - 1];
            StoreTable(t, k) ==
            Table(t.values[id := k], t.counts[id := Finite(1)], t.ids[k := id], t.pool[..|t.pool| - 1])
  {
  }

  lemma NewShape(t: Table, held: multiset<Ref>, k: Value, u: Table)
    requires Slots(t, held) && k !in t.ids && t.pool == [] && |t.values| < MAX_ARRAY
    requires u == Table(t.values + [k], t.counts + [Finite(1)], t.ids[k := |t.values|], [])
    ensures Shape(u) && |u.ids| + |u.pool| == |u.values| - 1
  {
    hide Counted, Pooled, Inverse, PRESETS;
    KeyAdded(t.ids, k, |t.values|);
    assert u.values[..PRESET_COUNT] == t.values[..PRESET_COUNT];
  }

  lemma AllocateNew(t: Table, held: multiset<Ref>, k: Value)
    requires Slots(t, held) && k !in t.ids && Key(k) == k && !Inline(k) && t.pool == []
    requires |t.values| < MAX_ARRAY
    ensures var u := StoreTable(t, k); Slots(u, held + multiset{Ref(u.ids[k], k)})
  {
    SlotsAreUsable(t, held);
    StoreNew(t, k);
    hide StoreTable, Slots;
    NewSlots(t, held, k, StoreTable(t, k));
  }

  lemma NewSlots(t: Table, held: multiset<Ref>, k: Value, u: Table)
    requires Slots(t, held) && k !in t.ids && Key(k) == k && !Inline(k) && t.pool == []
    requires |t.values| < MAX_ARRAY
    requires u == Table(t.values + [k], t.counts + [Finite(1)], t.ids[k := |t.values|], [])
    ensures Slots(u, held + multiset{Ref(|t.values|, k)})
  {
    hide Counted, Pooled, Inverse, Key, Inline, Free, Shape;
    NewShape(t, held, k, u);
    NewPooled(t, held, k, u);
    NewCounted(t, held, k, u);
    NewInverse(t, held, k, u);
  }

  lemma KeyAdded(m: map<Value, nat>, k: Value, id: nat)
    requires k !in m
    ensures |m[k := id]| == |m| + 1
  {
    assert m[k := id].Keys == m.Keys + {k};
  }

  lemma StoreKeeps(t: Table, held: multiset<Ref>, v: Value)
    requires Slots(t, held) && !Inline(v) && |t.values| < MAX_ARRAY
    ensures var u := StoreTable(t, v); Slots(u, held + multiset{Ref(u.ids[Key(v)], Key(v))})
  {
    var k := Key(v);
    assert StoreTable(t, v) == StoreTable(t, k);
    if k in t.ids {
      CountUp(t, held, k);
    } else if t.pool != [] {
      AllocatePooled(t, held, k);
    } else {
      AllocateNew(t, held, k);
    }
  }

  // ---- Finalizing ----

  lemma FinalizePreset(t: Table, held: multiset<Ref>, ref: Ref)
    requires Slots(t, held) && ref in held && ref.id < PRESET_COUNT
    ensures Slots(Finalize(t, ref.id), held - multiset{ref})
  {
    assert Finalize(t, ref.id) == t;
  }

  lemma FinalizeOne(t: Table, held: multiset<Ref>, ref: Ref)
    requires Slots(t, held) && ref in held && ref.id >= PRESET_COUNT && held[ref] > 1
    ensures Slots(Finalize(t, ref.id), held - multiset{ref})
  {
    var u := t.(counts := t.counts[ref.id := Finite(held[ref] - 1)]);
    OneFewer(t, held, ref, u);
    assert forall i :: 0 <= i < |t.values| ==> (Free(u, i) <==> Free(t, i));
    RecountKeeps(t, u);
    hide Counted, Pooled, Inverse, Free, PRESETS;
  }

  lemma OneFewer(t: Table, held: multiset<Ref>, ref: Ref, u: Table)
    requires Shape(t) && Counted(t, held) && ref in held && ref.id >= PRESET_COUNT && held[ref] > 1
    requires u == t.(counts := t.counts[ref.id := Finite(held[ref] - 1)])
    ensures u == Finalize(t, ref.id) && Counted(u, held - multiset{ref})
    ensures !Free(t, ref.id) && !Free(u, ref.id)
  {
    hide PRESETS;
    assert t.values[ref.id] == ref.value && t.counts[ref.id] == Finite(held[ref]);
  }

  lemma FreedCounted(t: Table, held: multiset<Ref>, ref: Ref, u: Table)
    requires Slots(t, held) && ref in held && ref.id >= PRESET_COUNT && held[ref] == 1
    requires u.values == t.values[ref.id := Null] && u.counts == t.counts[ref.id := Finite(0)]
    ensures Counted(u, held - multiset{ref})
  {
    NullElsewhere(t, held, ref.id);
  }

  lemma FreedInverse(t: Table, ref: Ref, u: Table)
    requires Shape(t) && Inverse(t) && PRESET_COUNT <= ref.id < |t.values|
    requires t.values[ref.id] == ref.value && !Free(t, ref.id)
    requires u == Table(t.values[ref.id := Null], t.counts[ref.id := Finite(0)], t.ids - {ref.value}, u.pool)
    ensures Inverse(u) && ref.value in t.ids
  {
    hide PRESETS, Key, Inline;
    assert t.ids[ref.value] == ref.id;
    assert forall i :: 0 <= i < |t.values| && i != ref.id ==> (Free(u, i) <==> Free(t, i));
  }

  lemma FreedPooled(t: Table, id: nat, u: Table)
    requires Shape(t) && Pooled(t) && PRESET_COUNT <= id < |t.values| && !Free(t, id)
    requires u == Table(t.values[id := Null], t.counts[id := Finite(0)], u.ids, t.pool + [id])
    ensures Pooled(u)
  {
    hide PRESETS;
    assert id !in t.pool;
    forall i | 0 <= i < |t.values| && i != id ensures Free(u, i) <==> Free(t, i) {
    }
    hide Free;
    forall i | PRESET_COUNT <= i < |u.values| && Free(u, i) ensures i in u.pool {
      if i == id { assert u.pool[|t.pool|] == id; }
    }
    assert Free(u, id) by { FreedIsFree(u, id); }
  }

  lemma FreedIsFree(u: Table, id: nat)
    requires id < |u.counts| && u.counts[id] == Finite(0)
    ensures Free(u, id)
  {
  }

  lemma FinalizeLast(t: Table, held: multiset<Ref>, ref: Ref)
    requires Slots(t, held) && ref in held && ref.id >= PRESET_COUNT && held[ref] == 1
    ensures Slots(Finalize(t, ref.id), held - multiset{ref})
  {
    var id, v := ref.id, ref.value;
    var u := Finalize(t, id);
    assert !Free(t, id) && Key(v) == v;
    assert u == Table(t.values[id := Null], t.counts[id := Finite(0)], t.ids - {v}, t.pool + [id]);
    FreedCounted(t, held, ref, u);
    assert Counted(t, held) && t.values[id] == v;
    FreedInverse(t, ref, u);
    FreedPooled(t, id, u);
    hide Counted, Pooled, Inverse, PRESETS, Finalize, Key;
    assert (t.ids - {v}).Keys == t.ids.Keys - {v};
    assert u.values[..PRESET_COUNT] == t.values[..PRESET_COUNT];
  }

  /** `null` lives in its preset slot only. */
  lemma NullElsewhere(t: Table, held: multiset<Ref>, id: nat)
    requires Slots(t, held) && PRESET_COUNT <= id
    ensures Ref(id, Null) !in held
  {
    assert t.values[2] == PRESETS[2] by { assert t.values[..PRESET_COUNT][2] == PRESETS[2]; }
    assert t.ids[t.values[2]] == 2;
  }

  lemma FinalizeKeeps(t: Table, held: multiset<Ref>, ref: Ref)
    requires Slots(t, held) && ref in held
    ensures Slots(Finalize(t, ref.id), held - multiset{ref})
  {
    if ref.id < PRESET_COUNT {
      FinalizePreset(t, held, ref);
    } else if held[ref] > 1 {
      FinalizeOne(t, held, ref);
    } else {
      FinalizeLast(t, held, ref);
    }
  }

  // ---- The high-water mark ----

  lemma PresetIds(t: Table, held: multiset<Ref>)
    requires Slots(t, held)
    ensures forall i :: 1 <= i < PRESET_COUNT ==> PRESETS[i] in t.ids && t.ids[PRESETS[i]] == i
  {
    forall i | 1 <= i < PRESET_COUNT
      ensures PRESETS[i] in t.ids && t.ids[PRESETS[i]] == i
    {
      assert t.values[i] == t.values[..PRESET_COUNT][i];
    }
  }

  lemma LiveAreMapped(t: Table, held: multiset<Ref>)
    requires Slots(t, held)
    ensures forall v :: v in LiveValues(held) <==> v in t.ids && t.ids[v] >= PRESET_COUNT
  {
    forall v ensures v in LiveValues(held) <==> v in t.ids && t.ids[v] >= PRESET_COUNT {
      if v in LiveValues(held) {
        var r :| r in held && r.id >= PRESET_COUNT && r.value == v;
        assert !Free(t, r.id);
      }
      if v in t.ids && t.ids[v] >= PRESET_COUNT {
        assert Ref(t.ids[v], v) in held;
      }
    }
  }

  lemma MappedSplit(t: Table, held: multiset<Ref>)
    requires Slots(t, held)
    ensures t.ids.Keys == START.ids.Keys + LiveValues(held) && START.ids.Keys !! LiveValues(held)
  {
    LiveAreMapped(t, held);
    PresetIds(t, held);
    PresetsInverse();
    hide Pooled, Counted, LiveValues, Key, Inline, START, PRESETS;
    var presets, live := START.ids.Keys, LiveValues(held);
    forall v <- presets ensures v in t.ids && t.ids[v] < PRESET_COUNT {
      assert PRESETS[START.ids[v]] == v;
    }
    forall v <- t.ids ensures v in presets || v in live {
      var i := t.ids[v];
      if i < PRESET_COUNT { assert v == t.values[..PRESET_COUNT][i] == PRESETS[i]; }
    }
  }

  /** Outside the presets, as many values are held as there are slots in use. */
  lemma LiveCount(t: Table, held: multiset<Ref>)
    requires Slots(t, held)
    ensures |LiveValues(held)| == |t.values| - PRESET_COUNT - |t.pool|
  {
    MappedSplit(t, held);
    StartSize();
    hide Pooled, Counted, Inverse, Shape, LiveValues, START;
    assert |t.ids.Keys| == |START.ids.Keys| + |LiveValues(held)|;
  }

  lemma StepKeeps(s: RunState, e: Event)
    requires Slots(s.table, s.held) && Enabled(s, e)
    ensures Slots(Step(s, e).table, Step(s, e).held)
  {
    match e {
      case StoreEvent(v) => if !Inline(v) { StoreKeeps(s.table, s.held, v); }
      case FinalizeEvent(ref) => FinalizeKeeps(s.table, s.held, ref);
    }
  }

  /** In every state a run reaches the slots are in order, and the table is usable. */
  lemma {:induction false} RunsKeepSlots(es: seq<Event>)
    requires Run(es).Some?
    ensures Slots(Run(es).value.table, Run(es).value.held) && Usable(Run(es).value.table)
    decreases |es|
  {
    if es == [] {
      StartSlots();
    } else {
      var front, last := es[..|es| - 1], es[|es| - 1];
      assert After(front, last).Some?;
      RunsKeepSlots(front);
      hide Slots, Step, Enabled;
      StepKeeps(Run(front).value, last);
    }
    SlotsAreUsable(Run(es).value.table, Run(es).value.held);
  }

  // ---- What Go sees ----

  /**
    In every state a run reaches: a slot from 7 up is pooled exactly when nothing refers to it,
    no slot is pooled twice, its count is the number of references held, and on the slots in use
    ids and values are inverse to each other.
   */
  lemma TableSafety(es: seq<Event>)
    requires Run(es).Some?
    ensures var t, held := Run(es).value.table, Run(es).value.held;
            && |t.counts| == |t.values|
            && (forall i :: PRESET_COUNT <= i < |t.values| ==>
                  && t.counts[i] == Finite(held[Ref(i, t.values[i])])
                  && (i in t.pool <==> t.counts[i] == Finite(0))
                  && (i !in t.pool ==> t.values[i] in t.ids && t.ids[t.values[i]] == i))
            && (forall i, j :: 0 <= i < j < |t.pool| ==> t.pool[i] != t.pool[j])
            && (forall v <- t.ids :: t.ids[v] < |t.values| && t.values[t.ids[v]] == v && t.ids[v] !in t.pool)
  {
    RunsKeepSlots(es);
    SlotsAreSafe(Run(es).value.table, Run(es).value.held);
  }

  lemma SlotsAreSafe(t: Table, held: multiset<Ref>)
    requires Slots(t, held)
    ensures forall i :: PRESET_COUNT <= i < |t.values| ==>
              && (i in t.pool <==> t.counts[i] == Finite(0))
              && (i !in t.pool ==> t.values[i] in t.ids && t.ids[t.values[i]] == i)
    ensures forall v <- t.ids :: t.ids[v] < |t.values| && t.values[t.ids[v]] == v && t.ids[v] !in t.pool
  {
    forall i | PRESET_COUNT <= i < |t.values|
      ensures i in t.pool <==> t.counts[i] == Finite(0)
      ensures i !in t.pool ==> t.values[i] in t.ids && t.ids[t.values[i]] == i
    {
      assert Free(t, i) <==> t.counts[i] == Finite(0);
    }
    forall v <- t.ids ensures t.ids[v] !in t.pool {
      assert !Free(t, t.ids[v]);
    }
  }

  lemma ReferenceIsNaN(id: uint32, flag: nat)
    requires flag < 8
    ensures var w := Word64(id, NAN_HEAD + flag); IsNaN(w) && !IsZero(w)
  {
  }

  lemma HeldLoads(t: Table, held: multiset<Ref>, ref: Ref, flag: nat)
    requires Slots(t, held) && ref in held && flag < 8
    ensures Load(t, Word64(ref.id % TWO_32, NAN_HEAD + flag)) == ref.value
  {
    hide Slots, IsNaN, IsZero;
    HeldValue(t, held, ref);
    ReferenceIsNaN(ref.id % TWO_32, flag);
  }

  lemma HeldValue(t: Table, held: multiset<Ref>, ref: Ref)
    requires Slots(t, held) && ref in held
    ensures ref.id < |t.values| <= MAX_ARRAY && t.values[ref.id] == ref.value
  {
  }

  /** A reference that was stored more often than finalized loads exactly the value stored. */
  lemma HeldReferencesLoad(es: seq<Event>, ref: Ref, flag: nat)
    requires Run(es).Some? && ref in Run(es).value.held && flag < 8
    ensures Load(Run(es).value.table, Word64(ref.id % TWO_32, NAN_HEAD + flag)) == ref.value
  {
    RunsKeepSlots(es);
    HeldLoads(Run(es).value.table, Run(es).value.held, ref, flag);
  }

  lemma InlineLoads(t: Table, v: Value)
    requires Shape(t) && Inline(v)
    ensures Load(t, Reference(t, v)) == v
  {
    if v == NaN { assert t.values[0] == t.values[..PRESET_COUNT][0]; }
  }

  /** What `storeValue` writes reads back as the value; only minus zero comes back as zero. */
  lemma {:induction false} StoreThenLoad(es: seq<Event>, v: Value)
    requires es != [] && es[|es| - 1] == StoreEvent(v) && Run(es).Some?
    ensures var t := Run(es).value.table;
            && Load(t, Reference(t, v)) == Key(v)
            && (Load(t, Reference(t, v)) == v <==> v != MINUS_ZERO)
  {
    var front := es[..|es| - 1];
    assert After(front, StoreEvent(v)).Some?;
    RunsKeepSlots(front);
    hide Slots, Load, Reference, StoreTable;
    StoredLoads(Run(front).value.table, Run(front).value.held, v);
  }

  lemma StoredLoads(t: Table, held: multiset<Ref>, v: Value)
    requires Slots(t, held) && |t.values| < MAX_ARRAY
    ensures var u := StoreTable(t, v);
            && Load(u, Reference(u, v)) == Key(v)
            && (Load(u, Reference(u, v)) == v <==> v != MINUS_ZERO)
  {
    KeyIsValue(v);
    hide Load, Reference, Key;
    if Inline(v) {
      InlineLoads(t, v);
    } else {
      hide Inline, Slots, StoreTable;
      SlotLoads(t, held, v);
    }
  }

  lemma SlotLoads(t: Table, held: multiset<Ref>, v: Value)
    requires Slots(t, held) && |t.values| < MAX_ARRAY && !Inline(v) && Usable(t)
    ensures Load(StoreTable(t, v), Reference(StoreTable(t, v), v)) == Key(v)
  {
    hide Load, Reference, Key, Inline, Slots, StoreTable, Usable;
    StoreKeeps(t, held, v);
    var u := StoreTable(t, v);
    var ref := Ref(u.ids[Key(v)], Key(v));
    HeldLoads(u, held + multiset{ref}, ref, TypeFlag(v));
    SlotReference(u, v);
  }

  lemma KeyIsValue(v: Value)
    ensures Key(v) == v <==> v != MINUS_ZERO
    ensures Inline(v) ==> v != MINUS_ZERO
  {
  }

  lemma SlotReference(u: Table, v: Value)
    requires !Inline(v) && Key(v) in u.ids
    ensures Reference(u, v) == Word64(u.ids[Key(v)] % TWO_32, NAN_HEAD + TypeFlag(v))
  {
    hide IsZero, IsNaN, Key;
  }

  lemma SlotOf(t: Table, held: multiset<Ref>, k: Value)
    requires Slots(t, held) && k in t.ids
    ensures t.ids[k] < |t.values| <= MAX_ARRAY && t.values[t.ids[k]] == k
  {
    hide Counted, Pooled, Free, Inline, Key, PRESETS;
  }

  /** The reference written for a value that takes a slot names the slot that holds it. */
  ghost predicate NamesSlot(t: Table, v: Value) {
    var id := Reference(t, v).low;
    id < |t.values| && t.values[id] == Key(v)
  }

  lemma ReferenceNamesSlot(t: Table, held: multiset<Ref>, v: Value)
    requires Slots(t, held) && !Inline(v) && Key(v) in t.ids
    ensures NamesSlot(t, v)
  {
    hide Slots, Inline, Key, Reference;
    SlotOf(t, held, Key(v));
    SlotReference(t, v);
  }

  lemma SlotHoldsValue(es: seq<Event>, v: Value)
    requires Run(es).Some? && !Inline(v) && Key(v) in Run(es).value.table.ids
    ensures NamesSlot(Run(es).value.table, v)
  {
    hide Run, Slots, Inline, Key, NamesSlot;
    RunsKeepSlots(es);
    ReferenceNamesSlot(Run(es).value.table, Run(es).value.held, v);
  }

  /** The references of the presets: zero, null, the booleans, the global object and the Go object. */
  ghost predicate PresetsReferred(t: Table) {
    && Reference(t, ZERO) == Reference(t, MINUS_ZERO) == Word64(1, 0x7FF8_0000)
    && Reference(t, Null) == Word64(2, 0x7FF8_0000)
    && Reference(t, Boolean(true)) == Word64(3, 0x7FF8_0000)
    && Reference(t, Boolean(false)) == Word64(4, 0x7FF8_0000)
    && Reference(t, GLOBAL) == Word64(5, 0x7FF8_0001)
    && Reference(t, GO) == Word64(6, 0x7FF8_0001)
  }

  /** In every run the presets keep their references. */
  lemma PresetReferences(es: seq<Event>)
    requires Run(es).Some?
    ensures PresetsReferred(Run(es).value.table)
  {
    hide Run, Slots, PresetsReferred;
    RunsKeepSlots(es);
    SlotsReferPresets(Run(es).value.table, Run(es).value.held);
  }

  lemma SlotsReferPresets(t: Table, held: multiset<Ref>)
    requires Slots(t, held)
    ensures PresetsReferred(t)
  {
    hide Slots, Reference;
    PresetAt(t, held, 1, ZERO);
    PresetAt(t, held, 1, MINUS_ZERO);
    PresetAt(t, held, 2, Null);
    PresetAt(t, held, 3, Boolean(true));
    PresetAt(t, held, 4, Boolean(false));
    PresetAt(t, held, 5, GLOBAL);
    PresetAt(t, held, 6, GO);
  }

  lemma PresetAt(t: Table, held: multiset<Ref>, i: nat, v: Value)
    requires Slots(t, held) && 1 <= i < PRESET_COUNT && PRESETS[i] == Key(v) && !Inline(v)
    ensures Reference(t, v) == Word64(i, NAN_HEAD + TypeFlag(v))
  {
    hide Slots, Inline, Key, Reference;
    PresetIds(t, held);
    SlotReference(t, v);
  }

  /**
    By sign, exponent and fraction: zeros of either sign load as undefined, NaNs as the slot named by
    the low word, and every other word, infinities included, as itself.
   */
  lemma LoadByExponent(t: Table, sign: nat, exponent: nat, fraction: nat, low: uint32)
    requires sign < 2 && exponent < 2048 && fraction < 1048576
    ensures var w := DoubleBits(sign, exponent, fraction, low);
            && (exponent == 0 && fraction == 0 && low == 0 ==> Load(t, w) == Undefined)
            && (exponent == 2047 && (fraction != 0 || low != 0) ==>
                  Load(t, w) == if low < |t.values| then t.values[low] else Undefined)
            && ((0 < exponent < 2047 || (exponent == 2047 && fraction == 0 && low == 0)
                 || (exponent == 0 && (fraction != 0 || low != 0))) ==>
                  Load(t, w).Number? && Load(t, w).bits == w)
  {
    NumbersByExponent(sign, exponent, fraction, low);
    hide IsNaN, IsZero;
  }

  /** The slot freed last is the next one taken. */
  lemma FreedIsReused(t: Table, held: multiset<Ref>, ref: Ref, v: Value)
    requires Slots(t, held) && ref in held && ref.id >= PRESET_COUNT && held[ref] == 1
    requires !Inline(v) && Key(v) !in Finalize(t, ref.id).ids && Usable(Finalize(t, ref.id))
    ensures StoreTable(Finalize(t, ref.id), v).ids[Key(v)] == ref.id
  {
    assert Counted(t, held) && t.counts[ref.id] == Finite(1);
    var u := Finalize(t, ref.id);
    assert u.pool == t.pool + [ref.id];
    hide Slots, Finalize;
  }

  ghost function LiveAfter(es: seq<Event>): nat
    requires Run(es).Some?
  {
    |LiveValues(Run(es).value.held)|
  }

  /**
    The table never has more than its seven presets and one slot for each value held at the
    moment `k` of the run when most were held.
   */
  lemma {:induction false} HighWaterMark(es: seq<Event>) returns (k: nat)
    requires Run(es).Some?
    ensures k <= |es| && Run(es[..k]).Some?
    ensures ExtraSlots(es) == LiveAfter(es[..k])
    ensures forall j :: 0 <= j <= |es| ==> Run(es[..j]).Some? && LiveAfter(es[..j]) <= LiveAfter(es[..k])
    decreases |es|
  {
    hide Run, LiveAfter, ExtraSlots, Slots;
    assert es[..|es|] == es;
    SlotsAndLive(es);
    if es == [] {
      k := 0;
    } else {
      var front := es[..|es| - 1];
      Growth(es);
      k := HighWaterMark(front);
      var before := k;
      PrefixOfFront(es, before);
      if ExtraSlots(es) > ExtraSlots(front) { k := |es|; }
      forall j | 0 <= j <= |es|
        ensures Run(es[..j]).Some? && LiveAfter(es[..j]) <= LiveAfter(es[..k])
      {
        if j < |es| { PrefixOfFront(es, j); }
      }
    }
  }

  lemma PrefixOfFront(es: seq<Event>, j: nat)
    requires j < |es|
    ensures es[..|es| - 1][..j] == es[..j]
  {
  }

  /** The table's slots after the presets. */
  ghost function ExtraSlots(es: seq<Event>): int
    requires Run(es).Some?
  {
    |Run(es).value.table.values| - PRESET_COUNT
  }

  lemma SlotsAndLive(es: seq<Event>)
    requires Run(es).Some?
    ensures LiveAfter(es) == ExtraSlots(es) - |Run(es).value.table.pool|
    ensures es == [] ==> ExtraSlots(es) == 0 && LiveAfter(es) == 0
  {
    RunsKeepSlots(es);
    LiveCount(Run(es).value.table, Run(es).value.held);
  }

  /** A slot is added only when the pool is empty. */
  lemma Growth(es: seq<Event>)
    requires es != [] && Run(es).Some?
    ensures var front := es[..|es| - 1];
            && Run(front).Some?
            && (ExtraSlots(es) == ExtraSlots(front)
                || (ExtraSlots(es) == ExtraSlots(front) + 1 && Run(es).value.table.pool == []))
  {
    var front, last := es[..|es| - 1], es[|es| - 1];
    assert After(front, last).Some?;
    RunsKeepSlots(front);
    hide Slots, Step, Enabled;
    StepGrowth(Run(front).value, last);
  }

  lemma StepGrowth(s: RunState, e: Event)
    requires Slots(s.table, s.held) && Enabled(s, e)
    ensures var n, m := |s.table.values|, |Step(s, e).table.values|;
            m == n || (m == n + 1 && Step(s, e).table.pool == [])
  {
  }
}
