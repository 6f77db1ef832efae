/** The S7 back end of crates/compiler/src/lir/s7/transformer.rs: MIR
    actions become one network of S7 instructions. Every instruction's
    address must be of the class its opcode needs, brackets may nest at most
    seven deep (the depth of the controller's operand stack), and the
    addresses the allocator handed out are moved past its bit pool.

    The allocator's byte offset (`byte_offset`) is not part of this model; it
    is a parameter `offset`. */
module Lir {
  import opened Common
  import M = MirTypes
  import W = Writer
  import O = Optimizer

  /** The back end's own errors (lir/error.rs). */
  datatype LirError = InvalidStack | NonBitAddress | NonByteAddress | NonCounterAddress

  type LResult<T> = Result<T, LirError>

  datatype S7AddressType = Input1 | Output1 | Memory1 | Memory8 | Memory16 | Memory32 | Counter

  /** `ptr` is 16 bits wide in the source. */
  datatype S7Address = S7Address(kind: S7AddressType, ptr: nat, bit: nat)

  /** One line of STL (lir/s7/mod.rs). */
  datatype S7Instruction =
    | And(addr: S7Address)
    | AndNot(addr: S7Address)
    | Or(addr: S7Address)
    | OrNot(addr: S7Address)
    | Xor(addr: S7Address)
    | XorNot(addr: S7Address)
    | AndStart
    | AndNotStart
    | OrStart
    | OrNotStart
    | XorStart
    | XorNotStart
    | End
    | AssignBit(addr: S7Address)
    | ResetBit(addr: S7Address)
    | SetBit(addr: S7Address)
    | Not
    | Set
    | Clear
    | Save
    | CounterLoadInt(addr: S7Address)
    | CounterLoadBcd(addr: S7Address)
    | CounterReset(addr: S7Address)
    | CounterSet(addr: S7Address)
    | CounterForward(addr: S7Address)
    | CounterBackward(addr: S7Address)
    | Transfer(addr: S7Address)

  /** The translated program: its networks, each a list of instructions. */
  datatype S7Lir = S7Lir(networks: seq<seq<S7Instruction>>)

  /** `push_stack`: a bracket may open only below depth 7. */
  function PushStack(depth: nat): (r: LResult<nat>)
    ensures r.Ok? <==> depth < 7
    ensures r.Ok? ==> r.value == depth + 1
    ensures r.Err? ==> r.error == InvalidStack
  {
    if depth >= 7 then Err(InvalidStack) else Ok(depth + 1)
  }

  /** `pop_stack`: a bracket may close only when one is open. */
  function PopStack(depth: nat): (r: LResult<nat>)
    ensures r.Ok? <==> depth > 0
    ensures r.Ok? ==> r.value + 1 == depth
    ensures r.Err? ==> r.error == InvalidStack
  {
    if depth == 0 then Err(InvalidStack) else Ok(depth - 1)
  }

  function AddressType(k: M.MirAddressType): S7AddressType {
    match k
    case PhysicalInput1 => Input1
    case PhysicalOutput1 => Output1
    case PhysicalCounter => Counter
    case Memory1 => Memory1
    case Memory8 => Memory8
    case Memory16 => Memory16
    case Memory32 => Memory32
  }

  /** The address classes map one to one. */
  lemma AddressTypeInjective(a: M.MirAddressType, b: M.MirAddressType)
    ensures AddressType(a) == AddressType(b) <==> a == b
  { }

  /** `transform_address`: an allocated address moves up by the offset, in
      16-bit arithmetic; a physical one keeps its pointer; the bit is kept. */
  function TransformAddress(offset: nat, a: M.MirAddress): (r: S7Address)
    ensures r.kind == AddressType(a.kind) && r.bit == a.bit
    ensures !M.IsVirtual(a) ==> r.ptr == a.ptr
    ensures M.IsVirtual(a) && offset + a.ptr < 0x1_0000 ==> r.ptr == offset + a.ptr
  {
    var ptr := if M.IsVirtual(a) then (offset % 0x1_0000 + a.ptr) % 0x1_0000 else a.ptr;
    S7Address(AddressType(a.kind), ptr, a.bit)
  }

  /** `assert_bit`. */
  function AssertBit(offset: nat, a: M.MirAddress): (r: LResult<S7Address>)
    ensures r.Ok? <==> M.IsBitAddress(a)
    ensures r.Ok? ==> r.value == TransformAddress(offset, a)
    ensures r.Err? ==> r.error == NonBitAddress
  {
    if !M.IsBitAddress(a) then Err(NonBitAddress) else Ok(TransformAddress(offset, a))
  }

  /** `assert_any_byte`. Its failure is reported as `NonBitAddress`. */
  function AssertAnyByte(offset: nat, a: M.MirAddress): (r: LResult<S7Address>)
    ensures r.Ok? <==> M.IsAnyByteAddress(a)
    ensures r.Ok? ==> r.value == TransformAddress(offset, a)
    ensures r.Err? ==> r.error == NonBitAddress
  {
    if !M.IsAnyByteAddress(a) then Err(NonBitAddress) else Ok(TransformAddress(offset, a))
  }

  /** `assert_counter`. */
  function AssertCounter(offset: nat, a: M.MirAddress): (r: LResult<S7Address>)
    ensures r.Ok? <==> a.kind == M.PhysicalCounter
    ensures r.Ok? ==> r.value == TransformAddress(offset, a)
    ensures r.Err? ==> r.error == NonCounterAddress
  {
    if a.kind != M.PhysicalCounter then Err(NonCounterAddress) else Ok(TransformAddress(offset, a))
  }

  /** The address class an instruction's opcode needs. */
  predicate AddrOk(i: M.MirInstruction) {
    match i
    case And(a) => M.IsBitAddress(a)
    case AndNot(a) => M.IsBitAddress(a)
    case Or(a) => M.IsBitAddress(a)
    case OrNot(a) => M.IsBitAddress(a)
    case Xor(a) => M.IsBitAddress(a)
    case XorNot(a) => M.IsBitAddress(a)
    case AssignBit(a) => M.IsBitAddress(a)
    case ResetBit(a) => M.IsBitAddress(a)
    case SetBit(a) => M.IsBitAddress(a)
    case CounterLoadInt(a) => a.kind == M.PhysicalCounter
    case CounterLoadBcd(a) => a.kind == M.PhysicalCounter
    case CounterReset(a) => a.kind == M.PhysicalCounter
    case CounterSet(a) => a.kind == M.PhysicalCounter
    case CounterForward(a) => a.kind == M.PhysicalCounter
    case CounterBackward(a) => a.kind == M.PhysicalCounter
    case Transfer(a) => M.IsAnyByteAddress(a)
    case _ => true
  }

  /** The S7 counterpart of one instruction, its address moved by the
      offset. */
  function Translate(offset: nat, i: M.MirInstruction): S7Instruction
    requires !i.Dummy?
  {
    match i
    case And(a) => And(TransformAddress(offset, a))
    case AndNot(a) => AndNot(TransformAddress(offset, a))
    case Or(a) => Or(TransformAddress(offset, a))
    case OrNot(a) => OrNot(TransformAddress(offset, a))
    case Xor(a) => Xor(TransformAddress(offset, a))
    case XorNot(a) => XorNot(TransformAddress(offset, a))
    case AndStart => AndStart
    case AndNotStart => AndNotStart
    case OrStart => OrStart
    case OrNotStart => OrNotStart
    case XorStart => XorStart
    case XorNotStart => XorNotStart
    case End => End
    case AssignBit(a) => AssignBit(TransformAddress(offset, a))
    case ResetBit(a) => ResetBit(TransformAddress(offset, a))
    case SetBit(a) => SetBit(TransformAddress(offset, a))
    case Not => Not
    case Set => Set
    case Clear => Clear
    case Save => Save
    case CounterLoadInt(a) => CounterLoadInt(TransformAddress(offset, a))
    case CounterLoadBcd(a) => CounterLoadBcd(TransformAddress(offset, a))
    case CounterReset(a) => CounterReset(TransformAddress(offset, a))
    case CounterSet(a) => CounterSet(TransformAddress(offset, a))
    case CounterForward(a) => CounterForward(TransformAddress(offset, a))
    case CounterBackward(a) => CounterBackward(TransformAddress(offset, a))
    case Transfer(a) => Transfer(TransformAddress(offset, a))
  }

  function TranslateAll(offset: nat, s: seq<M.MirInstruction>): (r: seq<S7Instruction>)
    requires forall j :: 0 <= j < |s| ==> !s[j].Dummy?
    ensures |r| == |s|
  {
    seq(|s|, j requires 0 <= j < |s| => Translate(offset, s[j]))
  }

  /** The body of the loop of `transform_instructions` for one instruction:
      what it pushes and the new bracket depth. */
  function Step(offset: nat, depth: nat, i: M.MirInstruction): LResult<(seq<S7Instruction>, nat)> {
    match i
    case Dummy => Ok(([], depth))
    case And(a) => var x :- AssertBit(offset, a); Ok(([And(x)], depth))
    case AndNot(a) => var x :- AssertBit(offset, a); Ok(([AndNot(x)], depth))
    case Or(a) => var x :- AssertBit(offset, a); Ok(([Or(x)], depth))
    case OrNot(a) => var x :- AssertBit(offset, a); Ok(([OrNot(x)], depth))
    case Xor(a) => var x :- AssertBit(offset, a); Ok(([Xor(x)], depth))
    case XorNot(a) => var x :- AssertBit(offset, a); Ok(([XorNot(x)], depth))
    case AndStart => var d :- PushStack(depth); Ok(([AndStart], d))
    case AndNotStart => var d :- PushStack(depth); Ok(([AndNotStart], d))
    case OrStart => var d :- PushStack(depth); Ok(([OrStart], d))
    case OrNotStart => var d :- PushStack(depth); Ok(([OrNotStart], d))
    case XorStart => var d :- PushStack(depth); Ok(([XorStart], d))
    case XorNotStart => var d :- PushStack(depth); Ok(([XorNotStart], d))
    case End => var d :- PopStack(depth); Ok(([End], d))
    case AssignBit(a) => var x :- AssertBit(offset, a); Ok(([AssignBit(x)], depth))
    case ResetBit(a) => var x :- AssertBit(offset, a); Ok(([ResetBit(x)], depth))
    case SetBit(a) => var x :- AssertBit(offset, a); Ok(([SetBit(x)], depth))
    case Not => Ok(([Not], depth))
    case Set => Ok(([Set], depth))
    case Clear => Ok(([Clear], depth))
    case Save => Ok(([Save], depth))
    case CounterLoadInt(a) => var x :- AssertCounter(offset, a); Ok(([CounterLoadInt(x)], depth))
    case CounterLoadBcd(a) => var x :- AssertCounter(offset, a); Ok(([CounterLoadBcd(x)], depth))
    case CounterReset(a) => var x :- AssertCounter(offset, a); Ok(([CounterReset(x)], depth))
    case CounterSet(a) => var x :- AssertCounter(offset, a); Ok(([CounterSet(x)], depth))
    case CounterForward(a) => var x :- AssertCounter(offset, a); Ok(([CounterForward(x)], depth))
    case CounterBackward(a) => var x :- AssertCounter(offset, a); Ok(([CounterBackward(x)], depth))
    case Transfer(a) => var x :- AssertAnyByte(offset, a); Ok(([Transfer(x)], depth))
  }

  /** The loop of `transform_instructions` over `s`, from depth 0: the
      instructions pushed and the depth reached. */
  function Run(offset: nat, s: seq<M.MirInstruction>): LResult<(seq<S7Instruction>, nat)> {
    if s == [] then Ok(([], 0))
    else
      var p :- Run(offset, s[..|s| - 1]);
      var q :- Step(offset, p.1, s[|s| - 1]);
      Ok((p.0 + q.0, q.1))
  }

  /** `transform_instructions`: the loop, then no bracket may be left open. */
  function Instrs(offset: nat, s: seq<M.MirInstruction>): LResult<seq<S7Instruction>> {
    var p :- Run(offset, s);
    if p.1 != 0 then Err(InvalidStack) else Ok(p.0)
  }

  /** No prefix closes more brackets than it opened or has more than seven
      open. */
  predicate DepthOk(s: seq<M.MirInstruction>) {
    forall j :: 0 <= j <= |s| ==> 0 <= W.Depth(s[..j]) <= 7
  }

  predicate AllAddrOk(s: seq<M.MirInstruction>) {
    forall j :: 0 <= j < |s| ==> AddrOk(s[j])
  }

  /** The depth change of one instruction. */
  function Delta(i: M.MirInstruction): int {
    if M.HasBracket(i) then 1 else if i.End? then -1 else 0
  }

  /** One instruction is accepted exactly when its address fits and the
      depth it leads to lies within 0..7. */
  lemma StepSpec(offset: nat, depth: nat, i: M.MirInstruction)
    requires depth <= 7
    ensures Step(offset, depth, i).Ok? <==> AddrOk(i) && 0 <= depth + Delta(i) <= 7
    ensures Step(offset, depth, i).Ok? ==> Step(offset, depth, i).value.1 == depth + Delta(i)
    ensures Step(offset, depth, i).Ok? ==> Step(offset, depth, i).value.0 == if i.Dummy? then [] else [Translate(offset, i)]
  { }

  lemma TranslateAllConcat(offset: nat, f: seq<M.MirInstruction>, g: seq<M.MirInstruction>)
    requires forall j :: 0 <= j < |f| ==> !f[j].Dummy?
    requires forall j :: 0 <= j < |g| ==> !g[j].Dummy?
    ensures TranslateAll(offset, f + g) == TranslateAll(offset, f) + TranslateAll(offset, g)
  {
    assert forall j :: 0 <= j < |f| ==> (f + g)[j] == f[j];
    assert forall j :: |f| <= j < |f| + |g| ==> (f + g)[j] == g[j - |f|];
  }

  lemma {:induction false} RunSpec(offset: nat, s: seq<M.MirInstruction>)
    ensures Run(offset, s).Ok? <==> DepthOk(s) && AllAddrOk(s)
    ensures Run(offset, s).Ok? ==>
      Run(offset, s).value.1 == W.Depth(s) && Run(offset, s).value.0 == TranslateAll(offset, O.Filtered(s))
  {
    if s == [] {
      assert s[..0] == [];
    } else {
      var p := s[..|s| - 1];
      var x := s[|s| - 1];
      RunSpec(offset, p);
      assert s == p + [x];
      assert forall j :: 0 <= j <= |p| ==> s[..j] == p[..j];
      assert s[..|s|] == s;
      assert W.Depth(s) == W.Depth(p) + Delta(x);
      assert DepthOk(s) <==> DepthOk(p) && 0 <= W.Depth(s) <= 7;
      assert AllAddrOk(s) <==> AllAddrOk(p) && AddrOk(x);
      if Run(offset, p).Ok? {
        assert p[..|p|] == p;
        var depth := Run(offset, p).value.1;
        StepSpec(offset, depth, x);
        if Run(offset, s).Ok? {
          O.FilteredConcat(p, [x]);
          TranslateAllConcat(offset, O.Filtered(p), O.Filtered([x]));
          assert [x][1..] == [];
        }
      }
    }
  }

  /** `transform_instructions` succeeds exactly on code whose brackets are
      balanced, at most seven deep, and whose addresses fit their opcodes;
      it then yields one S7 instruction per non-`Dummy` instruction, in
      order. */
  lemma InstrsSpec(offset: nat, s: seq<M.MirInstruction>)
    ensures Instrs(offset, s).Ok? <==> DepthOk(s) && W.Depth(s) == 0 && AllAddrOk(s)
    ensures Instrs(offset, s).Ok? ==> Instrs(offset, s).value == TranslateAll(offset, O.Filtered(s))
  {
    RunSpec(offset, s);
  }

  /** Balanced code, as the writer produces, at most seven brackets deep and
      with fitting addresses is accepted. */
  lemma BalancedAccepted(offset: nat, s: seq<M.MirInstruction>)
    requires W.Balanced(s) && AllAddrOk(s)
    requires forall j :: 0 <= j <= |s| ==> W.Depth(s[..j]) <= 7
    ensures Instrs(offset, s).Ok?
  {
    InstrsSpec(offset, s);
  }

  /** Eight nested brackets exceed the operand stack. */
  lemma EightDeep(offset: nat)
    ensures Instrs(offset, seq(8, _ => M.AndStart) + seq(8, _ => M.End)) == Err(InvalidStack)
  {
    var s := seq(8, _ => M.AndStart) + seq(8, _ => M.End);
    InstrsSpec(offset, s);
    var o := seq(8, _ => M.AndStart);
    assert s[..8] == o;
    assert W.Depth(o) == 8 by {
      forall j | 0 <= j <= 8 ensures W.Depth(o[..j]) == j {
        OpenersDepth(o, j);
      }
      assert o[..8] == o;
    }
    RunErrors(offset, s);
  }

  lemma {:induction false} OpenersDepth(o: seq<M.MirInstruction>, j: nat)
    requires j <= |o| && forall k :: 0 <= k < |o| ==> o[k] == M.AndStart
    ensures W.Depth(o[..j]) == j
  {
    if j > 0 {
      OpenersDepth(o, j - 1);
      assert o[..j][..j - 1] == o[..j - 1];
    }
  }

  /** The back end never reports `NonByteAddress`: a `Transfer` to an
      address that is not a byte, word or double word is reported as
      `NonBitAddress`. */
  lemma {:induction false} RunErrors(offset: nat, s: seq<M.MirInstruction>)
    ensures Run(offset, s).Err? ==> Run(offset, s).error != NonByteAddress
    ensures Instrs(offset, s).Err? ==> Instrs(offset, s).error != NonByteAddress
    ensures AllAddrOk(s) && Instrs(offset, s).Err? ==> Instrs(offset, s).error == InvalidStack
  {
    if s != [] {
      RunErrors(offset, s[..|s| - 1]);
      assert AllAddrOk(s) ==> AllAddrOk(s[..|s| - 1]);
    }
  }

  lemma TransferReportsNonBit(offset: nat, depth: nat, a: M.MirAddress)
    requires !M.IsAnyByteAddress(a)
    ensures Step(offset, depth, M.Transfer(a)) == Err(NonBitAddress)
  { }

  /** A failure in a prefix of the instructions is the failure of the
      whole list. */
  lemma {:induction false} RunPrefixErr(offset: nat, s: seq<M.MirInstruction>, k: nat)
    requires k <= |s| && Run(offset, s[..k]).Err?
    ensures Run(offset, s) == Run(offset, s[..k]).PropagateFailure()
    decreases |s| - k
  {
    if k < |s| {
      assert s[..k + 1][..k] == s[..k];
      RunPrefixErr(offset, s, k + 1);
    } else {
      assert s[..k] == s;
    }
  }

  /** `transform_action`: a `Clear`, the translated instructions and, for an
      output, the assignment to its bit, which is checked first. */
  function ActionCode(offset: nat, a: M.MirAction): LResult<seq<S7Instruction>> {
    match a
    case Raw(s) =>
      var c :- Instrs(offset, s);
      Ok([Clear] + c)
    case Output(addr, s) =>
      var x :- AssertBit(offset, addr);
      var c :- Instrs(offset, s);
      Ok([Clear] + c + [AssignBit(x)])
  }

  /** The single network's instructions for `actions`, in order; the first
      error aborts. */
  function Code(offset: nat, actions: seq<M.MirAction>): LResult<seq<S7Instruction>> {
    if actions == [] then Ok([])
    else
      var c :- Code(offset, actions[..|actions| - 1]);
      var d :- ActionCode(offset, actions[|actions| - 1]);
      Ok(c + d)
  }

  /** `transform`: one network holding every action's code. */
  function Transformed(offset: nat, actions: seq<M.MirAction>): (r: LResult<S7Lir>)
    ensures r.Ok? ==> |r.value.networks| == 1
  {
    var c :- Code(offset, actions);
    Ok(S7Lir([c]))
  }

  /** Every action's code starts with `Clear`, and an output action ends by
      assigning its target bit. */
  lemma ActionShape(offset: nat, a: M.MirAction)
    requires ActionCode(offset, a).Ok?
    ensures var c := ActionCode(offset, a).value;
      |c| >= 1 && c[0] == Clear &&
      (a.Output? ==> |c| >= 2 && M.IsBitAddress(a.address) && c[|c| - 1] == AssignBit(TransformAddress(offset, a.address)))
  { }

  /** An output to an address that is not a bit fails before its
      instructions are looked at. */
  lemma OutputTargetFirst(offset: nat, addr: M.MirAddress, s: seq<M.MirInstruction>)
    requires !M.IsBitAddress(addr)
    ensures ActionCode(offset, M.Output(addr, s)) == Err(NonBitAddress)
  { }

  /** The network is the concatenation of the actions' code. */
  lemma {:induction false} CodeConcat(offset: nat, actions: seq<M.MirAction>, more: seq<M.MirAction>)
    requires Code(offset, actions).Ok? && Code(offset, more).Ok?
    ensures Code(offset, actions + more) == Ok(Code(offset, actions).value + Code(offset, more).value)
    decreases |more|
  {
    if more == [] {
      assert actions + more == actions;
      assert Code(offset, actions).value + [] == Code(offset, actions).value;
    } else {
      var m' := more[..|more| - 1];
      assert (actions + more)[..|actions + more| - 1] == actions + m';
      assert (actions + more)[|actions + more| - 1] == more[|more| - 1];
      assert Code(offset, m').Ok?;
      CodeConcat(offset, actions, m');
      var d := ActionCode(offset, more[|more| - 1]).value;
      assert Code(offset, more).value == Code(offset, m').value + d;
      assert Code(offset, actions).value + Code(offset, m').value + d
        == Code(offset, actions).value + (Code(offset, m').value + d);
    }
  }

  lemma {:induction false} CodePrefixErr(offset: nat, actions: seq<M.MirAction>, k: nat)
    requires k <= |actions| && Code(offset, actions[..k]).Err?
    ensures Code(offset, actions) == Code(offset, actions[..k])
    decreases |actions| - k
  {
    if k < |actions| {
      assert actions[..k + 1][..k] == actions[..k];
      CodePrefixErr(offset, actions, k + 1);
    } else {
      assert actions[..k] == actions;
    }
  }

  /** The network under construction (`S7Network`). */
  class S7Network {
    var instructions: seq<S7Instruction>

    constructor ()
      ensures instructions == []
    {
      instructions := [];
    }
  }

  /** `transform_instructions`, pushing onto `dst`. */
  method TransformInstructions(offset: nat, src: seq<M.MirInstruction>, dst: S7Network) returns (r: LResult<()>)
    modifies dst
    ensures r.Ok? <==> Instrs(offset, src).Ok?
    ensures r.Ok? ==> dst.instructions == old(dst.instructions) + Instrs(offset, src).value
    ensures r.Err? ==> r.error == Instrs(offset, src).error
  {
    ghost var out: seq<S7Instruction> := [];
    var depth := 0;
    for k := 0 to |src|
      invariant Run(offset, src[..k]) == Ok((out, depth))
      invariant dst.instructions == old(dst.instructions) + out
    {
      assert src[..k + 1][..k] == src[..k];
      var step := Step(offset, depth, src[k]);
      if step.Err? {
        RunPrefixErr(offset, src, k + 1);
        return Err(step.error);
      }
      dst.instructions := dst.instructions + step.value.0;
      out := out + step.value.0;
      depth := step.value.1;
    }
    assert src[..|src|] == src;
    if depth != 0 {
      return Err(InvalidStack);
    }
    r := Ok(());
  }

  /** `transform_action`. */
  method TransformAction(offset: nat, network: S7Network, action: M.MirAction) returns (r: LResult<()>)
    modifies network
    ensures r.Ok? <==> ActionCode(offset, action).Ok?
    ensures r.Ok? ==> network.instructions == old(network.instructions) + ActionCode(offset, action).value
    ensures r.Err? ==> r.error == ActionCode(offset, action).error
  {
    network.instructions := network.instructions + [Clear];
    match action
    case Raw(s) =>
      r := TransformInstructions(offset, s, network);
    case Output(address, s) =>
      var addr := AssertBit(offset, address);
      if addr.Err? {
        return Err(addr.error);
      }
      r := TransformInstructions(offset, s, network);
      if r.Ok? {
        network.instructions := network.instructions + [AssignBit(addr.value)];
      }
  }

  /** `transform`. */
  method Transform(offset: nat, actions: seq<M.MirAction>) returns (r: LResult<S7Lir>)
    ensures r == Transformed(offset, actions)
  {
    var network := new S7Network();
    for k := 0 to |actions|
      invariant Code(offset, actions[..k]) == Ok(network.instructions)
    {
      assert actions[..k + 1][..k] == actions[..k];
      assert actions[..k + 1][k] == actions[k];
      var e := TransformAction(offset, network, actions[k]);
      if e.Err? {
        CodePrefixErr(offset, actions, k + 1);
        return Err(e.error);
      }
    }
    assert actions[..|actions|] == actions;
    r := Ok(S7Lir([network.instructions]));
  }
}
