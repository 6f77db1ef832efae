/** The mid-level intermediate representation of the enum-based revision
    (crates/compiler/src/mir): typed addresses, the values a program
    computes, the operations of builtins and the flat instruction list the
    writer emits for the S7 back end.

    The declarations of `MirAddress`, `MirValue` and the instruction enum of
    that revision are not part of this model; their variants are taken from
    the places that build and consume them (the lowering, the writer and the
    S7 transformer). */
module MirTypes {
  import opened Common

  /** Physical addresses are wired to the controller; memory addresses are
      handed out by the allocator. */
  datatype MirAddressType =
    | PhysicalInput1
    | PhysicalOutput1
    | PhysicalCounter
    | Memory1
    | Memory8
    | Memory16
    | Memory32

  /** `ptr` is 16 bits wide and `bit` 8 bits wide in the source. The memory
      builtins build addresses without a bit; they carry bit 0 here. */
  datatype MirAddress = MirAddress(kind: MirAddressType, ptr: nat, bit: nat)

  /** Addresses of a single bit. */
  predicate IsBitAddress(a: MirAddress) {
    a.kind == PhysicalInput1 || a.kind == PhysicalOutput1 || a.kind == Memory1
  }

  /** Addresses of a byte, word or double word. */
  predicate IsAnyByteAddress(a: MirAddress) {
    a.kind == Memory8 || a.kind == Memory16 || a.kind == Memory32
  }

  /** Addresses handed out by the allocator, which the S7 back end moves by
      the allocator's byte offset. */
  predicate IsVirtual(a: MirAddress) {
    a.kind == Memory1 || IsAnyByteAddress(a)
  }

  /** One stack-machine instruction. `Dummy` marks a slot the bracket
      optimizer emptied. */
  datatype MirInstruction =
    | Dummy
    | And(addr: MirAddress)
    | AndNot(addr: MirAddress)
    | Or(addr: MirAddress)
    | OrNot(addr: MirAddress)
    | Xor(addr: MirAddress)
    | XorNot(addr: MirAddress)
    | AndStart
    | AndNotStart
    | OrStart
    | OrNotStart
    | XorStart
    | XorNotStart
    | End
    | AssignBit(addr: MirAddress)
    | ResetBit(addr: MirAddress)
    | SetBit(addr: MirAddress)
    | Not
    | Set
    | Clear
    | Save
    | CounterLoadInt(addr: MirAddress)
    | CounterLoadBcd(addr: MirAddress)
    | CounterReset(addr: MirAddress)
    | CounterSet(addr: MirAddress)
    | CounterForward(addr: MirAddress)
    | CounterBackward(addr: MirAddress)
    | Transfer(addr: MirAddress)

  /** The instructions that open a bracket. */
  predicate HasBracket(i: MirInstruction) {
    i.AndStart? || i.AndNotStart? || i.OrStart? || i.OrNotStart? || i.XorStart? || i.XorNotStart?
  }

  /** The instructions that carry an address operand. */
  predicate Addressed(i: MirInstruction) {
    !(i.Dummy? || HasBracket(i) || i.End? || i.Not? || i.Set? || i.Clear? || i.Save?)
  }

  /** The bracket opener `op(` turned into the single-operand form `op addr`. */
  function Unbracket(start: MirInstruction, addr: MirAddress): (r: MirInstruction)
    requires HasBracket(start)
    ensures Addressed(r) && r.addr == addr
  {
    match start
    case AndStart => MirInstruction.And(addr)
    case AndNotStart => AndNot(addr)
    case OrStart => MirInstruction.Or(addr)
    case OrNotStart => OrNot(addr)
    case XorStart => MirInstruction.Xor(addr)
    case XorNotStart => XorNot(addr)
  }

  /** What a builtin does when its result is written out. */
  datatype MirOp =
    | SetBit(cond: MirValue, addr: MirAddress)
    | ResetBit(cond: MirValue, addr: MirAddress)
    | And(addr: MirAddress)

  /** A value computed by the program. Sharing through `Rc` is not modelled:
      values are immutable trees. */
  datatype MirValue =
    | Unit
    | Bool(flag: bool)
    | Number(number: nat)
    | Address(address: MirAddress)
    | VarRef(index: nat)
    | Ops(ops: seq<MirOp>)
    | Object
    | Not(operand: MirValue)
    | And(left: MirValue, right: MirValue)
    | Or(left: MirValue, right: MirValue)
    | Xor(left: MirValue, right: MirValue)

  datatype MirVariable = MirVariable(name: Quote, value: MirValue)

  datatype MirAction =
    /** Write the result of the instructions to a bit. */
    | Output(address: MirAddress, instructions: seq<MirInstruction>)
    /** Instructions that do their own writing (the set/reset of a builtin). */
    | Raw(instructions: seq<MirInstruction>)

  /** Every variable reference in `v` names a slot below `limit`. */
  predicate RefsBelow(v: MirValue, limit: nat) {
    match v
    case VarRef(i) => i < limit
    case Ops(ops) => forall k :: 0 <= k < |ops| ==> !ops[k].And? ==> RefsBelow(ops[k].cond, limit)
    case Not(x) => RefsBelow(x, limit)
    case And(l, r) => RefsBelow(l, limit) && RefsBelow(r, limit)
    case Or(l, r) => RefsBelow(l, limit) && RefsBelow(r, limit)
    case Xor(l, r) => RefsBelow(l, limit) && RefsBelow(r, limit)
    case _ => true
  }

  /** Each variable refers only to variables declared before it, as the
      lowering guarantees: a `let` value is lowered before its slot exists. */
  predicate WfVariables(vars: seq<MirVariable>) {
    forall k :: 0 <= k < |vars| ==> RefsBelow(vars[k].value, k)
  }

  /** `is_bit_readable`, restricted to the variables below `limit`: the value
      denotes one bit that the writer can serialise. Units, booleans, numbers
      and objects cannot be read as a bit. */
  predicate Readable(vars: seq<MirVariable>, v: MirValue, limit: nat)
    requires limit <= |vars|
    decreases limit, v
  {
    match v
    case Address(a) => IsBitAddress(a)
    case VarRef(i) => i < limit && Readable(vars, vars[i].value, i)
    case Ops(ops) => forall k :: 0 <= k < |ops| ==> !ops[k].And? ==> Readable(vars, ops[k].cond, limit)
    case Not(x) => Readable(vars, x, limit)
    case And(l, r) => Readable(vars, l, limit) && Readable(vars, r, limit)
    case Or(l, r) => Readable(vars, l, limit) && Readable(vars, r, limit)
    case Xor(l, r) => Readable(vars, l, limit) && Readable(vars, r, limit)
    case _ => false
  }

  /** `MirValue::is_bit_readable` against the whole variable table. */
  predicate IsBitReadable(vars: seq<MirVariable>, v: MirValue) {
    Readable(vars, v, |vars|)
  }

  /** Every operation list in `v` holds at least one operation, as the
      three-operation lists of `rs` and `sr` do. */
  predicate FilledOps(v: MirValue) {
    match v
    case Ops(ops) => |ops| > 0 && forall k :: 0 <= k < |ops| ==> !ops[k].And? ==> FilledOps(ops[k].cond)
    case Not(x) => FilledOps(x)
    case And(l, r) => FilledOps(l) && FilledOps(r)
    case Or(l, r) => FilledOps(l) && FilledOps(r)
    case Xor(l, r) => FilledOps(l) && FilledOps(r)
    case _ => true
  }

  /** Every variable's value has only non-empty operation lists. */
  predicate FilledTable(vars: seq<MirVariable>) {
    forall k :: 0 <= k < |vars| ==> FilledOps(vars[k].value)
  }

  /** Every operation list the writer reaches from `v` is non-empty,
      following variable references into the variables below `limit`. */
  predicate FilledBelow(vars: seq<MirVariable>, v: MirValue, limit: nat)
    requires limit <= |vars|
    decreases limit, v
  {
    match v
    case VarRef(i) => i < limit ==> FilledBelow(vars, vars[i].value, i)
    case Ops(ops) => |ops| > 0 && forall k :: 0 <= k < |ops| ==> !ops[k].And? ==> FilledBelow(vars, ops[k].cond, limit)
    case Not(x) => FilledBelow(vars, x, limit)
    case And(l, r) => FilledBelow(vars, l, limit) && FilledBelow(vars, r, limit)
    case Or(l, r) => FilledBelow(vars, l, limit) && FilledBelow(vars, r, limit)
    case Xor(l, r) => FilledBelow(vars, l, limit) && FilledBelow(vars, r, limit)
    case _ => true
  }

  /** A filled value over a filled table reaches only filled lists. */
  lemma {:induction false} FilledReach(vars: seq<MirVariable>, v: MirValue, limit: nat)
    requires limit <= |vars| && FilledOps(v) && FilledTable(vars)
    ensures FilledBelow(vars, v, limit)
    decreases limit, v
  {
    match v
    case VarRef(i) =>
      if i < limit {
        FilledReach(vars, vars[i].value, i);
      }
    case Ops(ops) =>
      forall k | 0 <= k < |ops| && !ops[k].And?
        ensures FilledBelow(vars, ops[k].cond, limit)
      {
        FilledReach(vars, ops[k].cond, limit);
      }
    case Not(x) => FilledReach(vars, x, limit);
    case And(l, r) => FilledReach(vars, l, limit); FilledReach(vars, r, limit);
    case Or(l, r) => FilledReach(vars, l, limit); FilledReach(vars, r, limit);
    case Xor(l, r) => FilledReach(vars, l, limit); FilledReach(vars, r, limit);
    case _ =>
  }

  /** Adding a variable does not change what the earlier ones can read. */
  lemma {:induction false} ReadableExtend(vars: seq<MirVariable>, x: MirVariable, v: MirValue, limit: nat)
    requires limit <= |vars|
    ensures Readable(vars + [x], v, limit) == Readable(vars, v, limit)
    decreases limit, v
  {
    match v
    case VarRef(i) =>
      if i < limit {
        ReadableExtend(vars, x, vars[i].value, i);
      }
    case Ops(ops) =>
      forall k | 0 <= k < |ops| && !ops[k].And?
        ensures Readable(vars + [x], ops[k].cond, limit) == Readable(vars, ops[k].cond, limit)
      {
        ReadableExtend(vars, x, ops[k].cond, limit);
      }
    case Not(y) => ReadableExtend(vars, x, y, limit);
    case And(l, r) => ReadableExtend(vars, x, l, limit); ReadableExtend(vars, x, r, limit);
    case Or(l, r) => ReadableExtend(vars, x, l, limit); ReadableExtend(vars, x, r, limit);
    case Xor(l, r) => ReadableExtend(vars, x, l, limit); ReadableExtend(vars, x, r, limit);
    case _ =>
  }
}
