/** The MIR container of crates/compiler/src/mir/mod.rs: the source, a bump
    allocator for memory bits and bytes, the variable table and the list of
    actions, together with the variable lookup and the builtin table. */
module Mir {
  import opened Common
  import opened MirTypes

  /** The allocator's cursor: the byte being filled, the next free bit in
      it, and the next free counter. */
  datatype MemState = MemState(byteIndex: nat, bitIndex: nat, counter: nat)

  const ZERO: MemState := MemState(0, 0, 0)

  /** What the allocator's cursor keeps: `bit_index` fits its `u8` and never
      passes 7, and `byte_index` stays at most one past the 16-bit space, so
      neither counter overflows. A byte with bits in use is always in range. */
  predicate Inv(m: MemState) {
    m.bitIndex <= 7 && m.byteIndex <= 0x1_0000 && (m.bitIndex > 0 ==> m.byteIndex <= U16_MAX)
  }

  /** Bit `b` of byte `p` has been handed out (or skipped) already. */
  predicate Occupied(m: MemState, p: nat, b: nat) {
    p < m.byteIndex || (p == m.byteIndex && b < m.bitIndex)
  }

  /** Nothing handed out before is free again. */
  ghost predicate Grows(m: MemState, n: MemState) {
    m.byteIndex <= n.byteIndex && forall p, b :: Occupied(m, p, b) ==> Occupied(n, p, b)
  }

  /** `alloc_u1`: the next bit, moving to a new byte once bits 0 to 6 are
      taken; nothing once the byte pointer leaves the 16-bit space. */
  function AllocatedU1(m: MemState): (r: (Option<(nat, nat)>, MemState))
    ensures r.1.counter == m.counter
  {
    var m1 := if m.bitIndex >= 7 then m.(bitIndex := 0, byteIndex := m.byteIndex + 1) else m;
    if m1.byteIndex > U16_MAX then (None, m1)
    else (Some((m1.byteIndex, m1.bitIndex)), m1.(bitIndex := m1.bitIndex + 1))
  }

  /** The first byte a whole-byte object can use: the current byte unless
      some of its bits are taken. */
  function NextByte(m: MemState): nat {
    if m.bitIndex > 0 then m.byteIndex + 1 else m.byteIndex
  }

  /** The common shape of `alloc_u8`, `alloc_u16` and `alloc_u32`: skip to a
      fresh byte, then take `size` bytes if the last of them is still in the
      16-bit space. */
  function AllocBytes(m: MemState, size: nat): (r: (Option<nat>, MemState))
    requires 1 <= size
    ensures r.0.Some? <==> NextByte(m) + size <= 0x1_0000
    ensures r.0.Some? ==> r.0.value == NextByte(m) && r.1 == m.(byteIndex := NextByte(m) + size, bitIndex := 0)
    ensures r.0.None? ==> r.1 == m.(byteIndex := NextByte(m), bitIndex := 0)
  {
    var m1 := if m.bitIndex > 0 then m.(bitIndex := 0, byteIndex := m.byteIndex + 1) else m;
    var ptr := m1.byteIndex;
    if ptr > 0x1_0000 - size then (None, m1)
    else (Some(ptr), m1.(byteIndex := m1.byteIndex + size))
  }

  function AllocatedU8(m: MemState): (Option<nat>, MemState) {
    AllocBytes(m, 1)
  }

  function AllocatedU16(m: MemState): (Option<nat>, MemState) {
    AllocBytes(m, 2)
  }

  function AllocatedU32(m: MemState): (Option<nat>, MemState) {
    AllocBytes(m, 4)
  }

  /** `alloc1`: a bit of memory as an address. The helper is not part of
      this model; it is taken to wrap `alloc_u1`. */
  function Allocated1(m: MemState): (r: (Option<MirAddress>, MemState))
    ensures r.1 == AllocatedU1(m).1
    ensures r.0.Some? <==> AllocatedU1(m).0.Some?
    ensures r.0.Some? ==> r.0.value == MirAddress(Memory1, AllocatedU1(m).0.value.0, AllocatedU1(m).0.value.1)
  {
    var (a, m1) := AllocatedU1(m);
    match a
    case None => (None, m1)
    case Some(pb) => (Some(MirAddress(Memory1, pb.0, pb.1)), m1)
  }

  /** `alloc_counter`: the next of the 65536 counters. The helper is not part
      of this model; it is taken to hand out counters in order. */
  function AllocatedCounter(m: MemState): (r: (Option<MirAddress>, MemState))
    ensures r.0.Some? <==> m.counter <= U16_MAX
    ensures r.0.Some? ==> r.0.value == MirAddress(PhysicalCounter, m.counter, 0) && r.1 == m.(counter := m.counter + 1)
    ensures r.0.None? ==> r.1 == m
  {
    if m.counter > U16_MAX then (None, m)
    else (Some(MirAddress(PhysicalCounter, m.counter, 0)), m.(counter := m.counter + 1))
  }

  /** A bit is handed out only while the cursor has room: bits 0 to 6 of
      bytes 0 to 0xffff. The bit returned is never 7 and was free, it is taken
      afterwards, nothing taken is freed, and the cursor keeps its invariant. */
  lemma {:induction false} AllocU1Fresh(m: MemState)
    requires Inv(m)
    ensures var (a, n) := AllocatedU1(m);
      Inv(n) && Grows(m, n) &&
      (a.Some? <==> 7 * m.byteIndex + m.bitIndex < 7 * 0x1_0000) &&
      (a.Some? ==> var (p, b) := a.value;
        p <= U16_MAX && b <= 6 && !Occupied(m, p, b) && Occupied(n, p, b) &&
        7 * n.byteIndex + n.bitIndex == 7 * m.byteIndex + m.bitIndex + 1)
  {
    var (a, n) := AllocatedU1(m);
    if m.bitIndex >= 7 {
      assert n.byteIndex == m.byteIndex + 1;
    }
  }

  /** Whole-byte allocations: all eight bits of each of the `size` bytes
      were free and are taken afterwards, the bit cursor is back at 0, nothing
      taken is freed, and the cursor keeps its invariant. */
  lemma {:induction false} AllocBytesFresh(m: MemState, size: nat)
    requires Inv(m) && 1 <= size
    ensures var (a, n) := AllocBytes(m, size);
      Inv(n) && Grows(m, n) && n.bitIndex == 0 &&
      (a.Some? ==>
        a.value + size - 1 <= U16_MAX &&
        forall p, b :: a.value <= p < a.value + size && b < 8 ==> !Occupied(m, p, b) && Occupied(n, p, b))
  {
  }

  /** Two successful allocations in a row never share a bit. */
  lemma {:induction false} AllocU1Distinct(m: MemState)
    requires Inv(m)
    requires AllocatedU1(m).0.Some? && AllocatedU1(AllocatedU1(m).1).0.Some?
    ensures AllocatedU1(m).0.value != AllocatedU1(AllocatedU1(m).1).0.value
  {
    AllocU1Fresh(m);
    AllocU1Fresh(AllocatedU1(m).1);
  }

  /** The allocator of `Mir`, updated in place by every allocation. */
  class MirMemory {
    var byteIndex: nat
    var bitIndex: nat
    var counter: nat

    function State(): MemState
      reads this
    {
      MemState(byteIndex, bitIndex, counter)
    }

    /** `MirMemory::default()`. */
    constructor ()
      ensures State() == ZERO
    {
      byteIndex, bitIndex, counter := 0, 0, 0;
    }

    method AllocU1() returns (r: Option<(nat, nat)>)
      modifies this
      ensures (r, State()) == AllocatedU1(old(State()))
    {
      if bitIndex >= 7 {
        bitIndex := 0;
        byteIndex := byteIndex + 1;
      }
      var ptr := byteIndex;
      if ptr > U16_MAX {
        return None;
      }
      var bit := bitIndex;
      bitIndex := bitIndex + 1;
      r := Some((ptr, bit));
    }

    method AllocU8() returns (r: Option<nat>)
      modifies this
      ensures (r, State()) == AllocatedU8(old(State()))
    {
      if bitIndex > 0 {
        bitIndex := 0;
        byteIndex := byteIndex + 1;
      }
      var ptr := byteIndex;
      if ptr > 0xffff {
        return None;
      }
      byteIndex := byteIndex + 1;
      r := Some(ptr);
    }

    method AllocU16() returns (r: Option<nat>)
      modifies this
      ensures (r, State()) == AllocatedU16(old(State()))
    {
      if bitIndex > 0 {
        bitIndex := 0;
        byteIndex := byteIndex + 1;
      }
      var ptr := byteIndex;
      if ptr > 0xfffe {
        return None;
      }
      byteIndex := byteIndex + 2;
      r := Some(ptr);
    }

    method AllocU32() returns (r: Option<nat>)
      modifies this
      ensures (r, State()) == AllocatedU32(old(State()))
    {
      if bitIndex > 0 {
        bitIndex := 0;
        byteIndex := byteIndex + 1;
      }
      var ptr := byteIndex;
      if ptr > 0xfffc {
        return None;
      }
      byteIndex := byteIndex + 4;
      r := Some(ptr);
    }

    method Alloc1() returns (r: Option<MirAddress>)
      modifies this
      ensures (r, State()) == Allocated1(old(State()))
    {
      var a := AllocU1();
      r := if a.Some? then Some(MirAddress(Memory1, a.value.0, a.value.1)) else None;
    }

    method AllocCounter() returns (r: Option<MirAddress>)
      modifies this
      ensures (r, State()) == AllocatedCounter(old(State()))
    {
      if counter > U16_MAX {
        return None;
      }
      r := Some(MirAddress(PhysicalCounter, counter, 0));
      counter := counter + 1;
    }
  }

  /** The variable's name, as written in the source, is `name`. */
  predicate Named(src: seq<Byte>, v: MirVariable, name: seq<Byte>) {
    v.name.start <= v.name.end <= |src| && src[v.name.start..v.name.end] == name
  }

  /** `find_var`: the first variable, from slot `i` on, whose name is
      `name`. */
  function FirstNamedFrom(src: seq<Byte>, vars: seq<MirVariable>, name: seq<Byte>, i: nat): (r: Option<nat>)
    requires i <= |vars|
    ensures r.Some? ==> i <= r.value < |vars| && Named(src, vars[r.value], name)
    ensures r.Some? ==> forall j :: i <= j < r.value ==> !Named(src, vars[j], name)
    ensures r.None? ==> forall j :: i <= j < |vars| ==> !Named(src, vars[j], name)
    decreases |vars| - i
  {
    if i == |vars| then None
    else if Named(src, vars[i], name) then Some(i)
    else FirstNamedFrom(src, vars, name, i + 1)
  }

  /** `Mir::find_var`: the earliest declaration of `name` wins. */
  function FirstNamed(src: seq<Byte>, vars: seq<MirVariable>, name: seq<Byte>): (r: Option<nat>)
    ensures r.Some? ==> r.value < |vars| && Named(src, vars[r.value], name)
    ensures r.Some? ==> forall j :: 0 <= j < r.value ==> !Named(src, vars[j], name)
    ensures r.None? <==> forall j :: 0 <= j < |vars| ==> !Named(src, vars[j], name)
  {
    FirstNamedFrom(src, vars, name, 0)
  }

  /** A later declaration of the same name shadows nothing: once a name is
      bound, adding another variable of that name keeps the lookup at the
      first one. */
  lemma {:induction false} FirstDeclarationWins(src: seq<Byte>, vars: seq<MirVariable>, x: MirVariable, name: seq<Byte>)
    requires FirstNamed(src, vars, name).Some?
    ensures FirstNamed(src, vars + [x], name) == FirstNamed(src, vars, name)
  {
    var k := FirstNamed(src, vars, name).value;
    assert (vars + [x])[k] == vars[k];
  }

  /** The builtins reachable by name. */
  datatype Builtin = Rs | Sr

  /** `BUILTIN_FUNCTIONS`. */
  const RS: seq<Byte> := ['r' as int, 's' as int]
  const SR: seq<Byte> := ['s' as int, 'r' as int]

  const BUILTIN_FUNCTIONS: map<seq<Byte>, Builtin> := map[RS := Rs, SR := Sr]

  function LookupBuiltin(name: seq<Byte>): (r: Option<Builtin>)
    ensures r.Some? <==> name == RS || name == SR
    ensures r == Some(Rs) <==> name == RS
  {
    if name in BUILTIN_FUNCTIONS then Some(BUILTIN_FUNCTIONS[name]) else None
  }

  /** The MIR under construction. */
  class Mir {
    const source: seq<Byte>
    const memory: MirMemory
    var variables: seq<MirVariable>
    var actions: seq<MirAction>

    ghost predicate Valid()
      reads this, memory
    {
      Inv(memory.State())
    }

    /** `Mir::new`: no variables, no actions, a zeroed allocator. */
    constructor (source: seq<Byte>)
      ensures Valid() && this.source == source && fresh(memory)
      ensures variables == [] && actions == [] && memory.State() == ZERO
    {
      this.source := source;
      memory := new MirMemory();
      variables := [];
      actions := [];
    }

    method FindVar(name: seq<Byte>) returns (r: Option<nat>)
      ensures r == FirstNamed(source, variables, name)
    {
      var i := 0;
      while i < |variables|
        invariant i <= |variables|
        invariant FirstNamedFrom(source, variables, name, i) == FirstNamed(source, variables, name)
      {
        var v := variables[i];
        if v.name.start <= v.name.end <= |source| && name == source[v.name.start..v.name.end] {
          return Some(i);
        }
        i := i + 1;
      }
      r := None;
    }
  }
}
