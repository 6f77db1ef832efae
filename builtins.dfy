/** The builtin functions of crates/compiler/src/mir/builtin: argument
    checks, the `rs` and `sr` flip-flops, the memory allocators `MB`, `MW`,
    `MD` and the counter allocator.

    Each builtin is a function from the variable table, the allocator's
    cursor, the call's span and the lowered arguments to the value and the
    new cursor (`Panic` where the source's `expect` fails), and a method on
    `Mir` proved to follow it. */
module Builtins {
  import opened Common
  import opened MirTypes
  import opened Mir

  /** `assert_args_len`. */
  function AssertArgsLen(quote: Quote, args: seq<MirValue>, len: nat): (r: CResult<()>)
    ensures r.Ok? <==> |args| == len
    ensures r.Err? ==> r.error == Error(quote, InvalidArgsCount)
  {
    if |args| != len then Err(Error(quote, InvalidArgsCount)) else Ok(())
  }

  /** `assert_bit_readable`: note the reason is `InvalidArgType`, not
      `ValueNotBitReadable`. */
  function AssertBitReadable(vars: seq<MirVariable>, quote: Quote, value: MirValue): (r: CResult<()>)
    ensures r.Ok? <==> IsBitReadable(vars, value)
    ensures r.Err? ==> r.error == Error(quote, InvalidArgType)
  {
    if !IsBitReadable(vars, value) then Err(Error(quote, InvalidArgType)) else Ok(())
  }

  /** The checks both flip-flops make before allocating: two arguments, the
      first and then the second readable as a bit. */
  predicate FlipFlopArgs(vars: seq<MirVariable>, args: seq<MirValue>) {
    |args| == 2 && IsBitReadable(vars, args[0]) && IsBitReadable(vars, args[1])
  }

  /** `builtin_rs`: reset by the first argument, set by the second, and read
      the flip-flop's bit. */
  function Rs(vars: seq<MirVariable>, m: MemState, quote: Quote, args: seq<MirValue>): (r: Outcome<(MirValue, MemState)>)
    ensures r.Fail? <==> !FlipFlopArgs(vars, args)
    ensures |args| != 2 ==> r == Fail(Error(quote, InvalidArgsCount))
    ensures |args| == 2 && !FlipFlopArgs(vars, args) ==> r == Fail(Error(quote, InvalidArgType))
    ensures r.Panic? <==> FlipFlopArgs(vars, args) && Allocated1(m).0.None?
    ensures r.Done? ==> var a := Allocated1(m).0.value;
      r.value == (Ops([MirOp.ResetBit(args[0], a), MirOp.SetBit(args[1], a), MirOp.And(a)]), Allocated1(m).1)
    ensures r.Done? ==> IsBitReadable(vars, r.value.0)
  {
    var _ :- Checked(AssertArgsLen(quote, args, 2));
    var _ :- Checked(AssertBitReadable(vars, quote, args[0]));
    var _ :- Checked(AssertBitReadable(vars, quote, args[1]));
    var (addr, m1) := Allocated1(m);
    if addr.None? then Panic
    else
      var a := addr.value;
      Done((Ops([MirOp.ResetBit(args[0], a), MirOp.SetBit(args[1], a), MirOp.And(a)]), m1))
  }

  /** `builtin_sr`: set by the first argument, reset by the second, and
      read the flip-flop's bit. */
  function Sr(vars: seq<MirVariable>, m: MemState, quote: Quote, args: seq<MirValue>): (r: Outcome<(MirValue, MemState)>)
    ensures r.Fail? <==> !FlipFlopArgs(vars, args)
    ensures |args| != 2 ==> r == Fail(Error(quote, InvalidArgsCount))
    ensures |args| == 2 && !FlipFlopArgs(vars, args) ==> r == Fail(Error(quote, InvalidArgType))
    ensures r.Panic? <==> FlipFlopArgs(vars, args) && Allocated1(m).0.None?
    ensures r.Done? ==> var a := Allocated1(m).0.value;
      r.value == (Ops([MirOp.SetBit(args[0], a), MirOp.ResetBit(args[1], a), MirOp.And(a)]), Allocated1(m).1)
    ensures r.Done? ==> IsBitReadable(vars, r.value.0)
  {
    var _ :- Checked(AssertArgsLen(quote, args, 2));
    var _ :- Checked(AssertBitReadable(vars, quote, args[0]));
    var _ :- Checked(AssertBitReadable(vars, quote, args[1]));
    var (addr, m1) := Allocated1(m);
    if addr.None? then Panic
    else
      var a := addr.value;
      Done((Ops([MirOp.SetBit(args[0], a), MirOp.ResetBit(args[1], a), MirOp.And(a)]), m1))
  }

  /** A flip-flop's three operations all use one freshly allocated memory
      bit, and the operation written last wins: `rs` sets last, `sr` resets
      last. */
  lemma FlipFlopBit(vars: seq<MirVariable>, m: MemState, quote: Quote, args: seq<MirValue>)
    requires Inv(m)
    ensures var r := Rs(vars, m, quote, args);
      r.Done? ==> var ops := r.value.0.ops;
        var a := ops[2].addr;
        a.kind == Memory1 && a.bit <= 6 && !Occupied(m, a.ptr, a.bit) && Occupied(r.value.1, a.ptr, a.bit) &&
        ops[0].ResetBit? && ops[0].addr == a && ops[1].SetBit? && ops[1].addr == a && Inv(r.value.1)
    ensures var r := Sr(vars, m, quote, args);
      r.Done? ==> var ops := r.value.0.ops;
        var a := ops[2].addr;
        a.kind == Memory1 && a.bit <= 6 && !Occupied(m, a.ptr, a.bit) && Occupied(r.value.1, a.ptr, a.bit) &&
        ops[0].SetBit? && ops[0].addr == a && ops[1].ResetBit? && ops[1].addr == a && Inv(r.value.1)
  {
    AllocU1Fresh(m);
  }

  /** The shape shared by `builtin_mb`, `builtin_mw` and `builtin_md`: no
      arguments, then one allocation of the matching size. */
  function MemoryBuiltin(m: MemState, quote: Quote, args: seq<MirValue>, kind: MirAddressType, size: nat): (r: Outcome<(MirValue, MemState)>)
    requires 1 <= size
    ensures r.Fail? <==> |args| != 0
    ensures r.Fail? ==> r.error == Error(quote, InvalidArgsCount)
    ensures r.Panic? <==> |args| == 0 && AllocBytes(m, size).0.None?
    ensures r.Done? ==> r.value == (Address(MirAddress(kind, NextByte(m), 0)), AllocBytes(m, size).1)
  {
    var _ :- Checked(AssertArgsLen(quote, args, 0));
    var (ptr, m1) := AllocBytes(m, size);
    if ptr.None? then Panic
    else Done((Address(MirAddress(kind, ptr.value, 0)), m1))
  }

  /** `builtin_mb`: a memory byte. */
  function Mb(m: MemState, quote: Quote, args: seq<MirValue>): Outcome<(MirValue, MemState)> {
    MemoryBuiltin(m, quote, args, Memory8, 1)
  }

  /** `builtin_mw`: a memory word. */
  function Mw(m: MemState, quote: Quote, args: seq<MirValue>): Outcome<(MirValue, MemState)> {
    MemoryBuiltin(m, quote, args, Memory16, 2)
  }

  /** `builtin_md`: a memory double word. */
  function Md(m: MemState, quote: Quote, args: seq<MirValue>): Outcome<(MirValue, MemState)> {
    MemoryBuiltin(m, quote, args, Memory32, 4)
  }

  /** A memory builtin hands out bytes no earlier allocation holds, and a
      rejected call allocates nothing. */
  lemma MemoryFresh(m: MemState, quote: Quote, args: seq<MirValue>, kind: MirAddressType, size: nat)
    requires Inv(m) && 1 <= size
    ensures var r := MemoryBuiltin(m, quote, args, kind, size);
      r.Done? ==>
        var a := r.value.0.address;
        a.kind == kind && a.ptr + size - 1 <= U16_MAX && Inv(r.value.1) &&
        forall p, b :: a.ptr <= p < a.ptr + size && b < 8 ==> !Occupied(m, p, b) && Occupied(r.value.1, p, b)
  {
    AllocBytesFresh(m, size);
  }

  /** `builtin_counter`. */
  function Counter(m: MemState, quote: Quote, args: seq<MirValue>): (r: Outcome<(MirValue, MemState)>)
    ensures r.Fail? <==> |args| != 0
    ensures r.Fail? ==> r.error == Error(quote, InvalidArgsCount)
    ensures r.Panic? <==> |args| == 0 && m.counter > U16_MAX
    ensures r.Done? ==> r.value == (Address(AllocatedCounter(m).0.value), m.(counter := m.counter + 1))
  {
    var _ :- Checked(AssertArgsLen(quote, args, 0));
    var (addr, m1) := AllocatedCounter(m);
    if addr.None? then Panic
    else Done((Address(addr.value), m1))
  }

  /** Calls a builtin found in `BUILTIN_FUNCTIONS`. */
  function CallBuiltin(b: Builtin, vars: seq<MirVariable>, m: MemState, quote: Quote, args: seq<MirValue>): Outcome<(MirValue, MemState)> {
    match b
    case Rs => Rs(vars, m, quote, args)
    case Sr => Sr(vars, m, quote, args)
  }

  method BuiltinRs(mir: Mir, quote: Quote, args: seq<MirValue>) returns (r: CResult<MirValue>)
    requires mir.Valid() && !Rs(mir.variables, mir.memory.State(), quote, args).Panic?
    modifies mir.memory
    ensures mir.Valid()
    ensures Lift(r, mir.memory.State()) == Rs(mir.variables, old(mir.memory.State()), quote, args)
  {
    AllocU1Fresh(mir.memory.State());
    if |args| != 2 {
      return Err(Error(quote, InvalidArgsCount));
    }
    if !IsBitReadable(mir.variables, args[0]) || !IsBitReadable(mir.variables, args[1]) {
      return Err(Error(quote, InvalidArgType));
    }
    var addr := mir.memory.Alloc1();
    var a := addr.value;
    r := Ok(Ops([MirOp.ResetBit(args[0], a), MirOp.SetBit(args[1], a), MirOp.And(a)]));
  }

  method BuiltinSr(mir: Mir, quote: Quote, args: seq<MirValue>) returns (r: CResult<MirValue>)
    requires mir.Valid() && !Sr(mir.variables, mir.memory.State(), quote, args).Panic?
    modifies mir.memory
    ensures mir.Valid()
    ensures Lift(r, mir.memory.State()) == Sr(mir.variables, old(mir.memory.State()), quote, args)
  {
    AllocU1Fresh(mir.memory.State());
    if |args| != 2 {
      return Err(Error(quote, InvalidArgsCount));
    }
    if !IsBitReadable(mir.variables, args[0]) || !IsBitReadable(mir.variables, args[1]) {
      return Err(Error(quote, InvalidArgType));
    }
    var addr := mir.memory.Alloc1();
    var a := addr.value;
    r := Ok(Ops([MirOp.SetBit(args[0], a), MirOp.ResetBit(args[1], a), MirOp.And(a)]));
  }

  method BuiltinMb(mir: Mir, quote: Quote, args: seq<MirValue>) returns (r: CResult<MirValue>)
    requires mir.Valid() && !Mb(mir.memory.State(), quote, args).Panic?
    modifies mir.memory
    ensures mir.Valid()
    ensures Lift(r, mir.memory.State()) == Mb(old(mir.memory.State()), quote, args)
  {
    AllocBytesFresh(mir.memory.State(), 1);
    if |args| != 0 {
      return Err(Error(quote, InvalidArgsCount));
    }
    var ptr := mir.memory.AllocU8();
    r := Ok(Address(MirAddress(Memory8, ptr.value, 0)));
  }

  method BuiltinMw(mir: Mir, quote: Quote, args: seq<MirValue>) returns (r: CResult<MirValue>)
    requires mir.Valid() && !Mw(mir.memory.State(), quote, args).Panic?
    modifies mir.memory
    ensures mir.Valid()
    ensures Lift(r, mir.memory.State()) == Mw(old(mir.memory.State()), quote, args)
  {
    AllocBytesFresh(mir.memory.State(), 2);
    if |args| != 0 {
      return Err(Error(quote, InvalidArgsCount));
    }
    var ptr := mir.memory.AllocU16();
    r := Ok(Address(MirAddress(Memory16, ptr.value, 0)));
  }

  method BuiltinMd(mir: Mir, quote: Quote, args: seq<MirValue>) returns (r: CResult<MirValue>)
    requires mir.Valid() && !Md(mir.memory.State(), quote, args).Panic?
    modifies mir.memory
    ensures mir.Valid()
    ensures Lift(r, mir.memory.State()) == Md(old(mir.memory.State()), quote, args)
  {
    AllocBytesFresh(mir.memory.State(), 4);
    if |args| != 0 {
      return Err(Error(quote, InvalidArgsCount));
    }
    var ptr := mir.memory.AllocU32();
    r := Ok(Address(MirAddress(Memory32, ptr.value, 0)));
  }

  method BuiltinCounter(mir: Mir, quote: Quote, args: seq<MirValue>) returns (r: CResult<MirValue>)
    requires mir.Valid() && !Counter(mir.memory.State(), quote, args).Panic?
    modifies mir.memory
    ensures mir.Valid()
    ensures Lift(r, mir.memory.State()) == Counter(old(mir.memory.State()), quote, args)
  {
    if |args| != 0 {
      return Err(Error(quote, InvalidArgsCount));
    }
    var addr := mir.memory.AllocCounter();
    r := Ok(Address(addr.value));
  }

  /** Runs the builtin `b`, as the lowering does through the function
      pointer found in `BUILTIN_FUNCTIONS`. */
  method Call(mir: Mir, b: Builtin, quote: Quote, args: seq<MirValue>) returns (r: CResult<MirValue>)
    requires mir.Valid() && !CallBuiltin(b, mir.variables, mir.memory.State(), quote, args).Panic?
    modifies mir.memory
    ensures mir.Valid()
    ensures Lift(r, mir.memory.State()) == CallBuiltin(b, mir.variables, old(mir.memory.State()), quote, args)
  {
    match b
    case Rs => r := BuiltinRs(mir, quote, args);
    case Sr => r := BuiltinSr(mir, quote, args);
  }
}
