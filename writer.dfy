/** The instruction writer of crates/compiler/src/mir/writer/mod.rs: it
    serialises a bit-readable value into stack-machine code, the left
    operand of a binary node first and the right operand inside a bracket.

    `Emit` is the code a value serialises to; the writer's methods append
    exactly that code to the instruction list, and the lemmas show it is
    bracket-balanced. */
module Writer {
  import opened Common
  import opened MirTypes
  import Mir

  /** The code `write_value` appends for `v`. A variable reference is
      serialised as the variable's value at writing time. */
  function Emit(vars: seq<MirVariable>, v: MirValue, limit: nat): (r: seq<MirInstruction>)
    requires limit <= |vars| && Readable(vars, v, limit)
    decreases limit, v, 1, 0
  {
    match v
    case Address(a) => [MirInstruction.And(a)]
    case VarRef(i) => Emit(vars, vars[i].value, i)
    case Ops(_) => EmitOps(vars, v, 0, limit)
    case Not(x) => Emit(vars, x, limit) + [MirInstruction.Not]
    case And(l, r) => Emit(vars, l, limit) + [AndStart] + Emit(vars, r, limit) + [End]
    case Or(l, r) => Emit(vars, l, limit) + [OrStart] + Emit(vars, r, limit) + [End]
    case Xor(l, r) => Emit(vars, l, limit) + [XorStart] + Emit(vars, r, limit) + [End]
  }

  /** The code of the operations from the `k`-th on (`write_ops`): the
      condition, then the set or reset; a plain `And` directly. */
  function EmitOps(vars: seq<MirVariable>, v: MirValue, k: nat, limit: nat): (r: seq<MirInstruction>)
    requires limit <= |vars| && v.Ops? && k <= |v.ops| && Readable(vars, v, limit)
    decreases limit, v, 0, |v.ops| - k
  {
    if k == |v.ops| then []
    else
      var code := match v.ops[k]
        case SetBit(cond, addr) => Emit(vars, cond, limit) + [MirInstruction.SetBit(addr)]
        case ResetBit(cond, addr) => Emit(vars, cond, limit) + [MirInstruction.ResetBit(addr)]
        case And(addr) => [MirInstruction.And(addr)];
      code + EmitOps(vars, v, k + 1, limit)
  }

  /** Bracket openers minus closers in `s`. */
  function Depth(s: seq<MirInstruction>): int {
    if s == [] then 0
    else Depth(s[..|s| - 1]) + (if HasBracket(s[|s| - 1]) then 1 else if s[|s| - 1].End? then -1 else 0)
  }

  /** Every `End` closes an earlier opener, and every opener is closed. */
  predicate Balanced(s: seq<MirInstruction>) {
    Depth(s) == 0 && forall j :: 0 <= j <= |s| ==> Depth(s[..j]) >= 0
  }

  lemma {:induction false} DepthConcat(a: seq<MirInstruction>, b: seq<MirInstruction>)
    ensures Depth(a + b) == Depth(a) + Depth(b)
    decreases |b|
  {
    if b == [] {
      assert a + b == a;
    } else {
      var b' := b[..|b| - 1];
      assert (a + b)[..|a + b| - 1] == a + b';
      DepthConcat(a, b');
    }
  }

  lemma {:induction false} BalancedConcat(a: seq<MirInstruction>, b: seq<MirInstruction>)
    requires Balanced(a) && Balanced(b)
    ensures Balanced(a + b)
  {
    DepthConcat(a, b);
    forall j | 0 <= j <= |a + b|
      ensures Depth((a + b)[..j]) >= 0
    {
      if j <= |a| {
        assert (a + b)[..j] == a[..j];
      } else {
        assert (a + b)[..j] == a + b[..j - |a|];
        DepthConcat(a, b[..j - |a|]);
      }
    }
  }

  lemma {:induction false} BalancedBracket(start: MirInstruction, a: seq<MirInstruction>)
    requires HasBracket(start) && Balanced(a)
    ensures Balanced([start] + a + [End])
  {
    var s := [start] + a + [End];
    DepthConcat([start], a);
    DepthConcat([start] + a, [End]);
    assert Depth([start]) == 1 by {
      assert [start][..0] == [];
    }
    assert Depth([End]) == -1 by {
      assert [End][..0] == [];
    }
    forall j | 0 <= j <= |s|
      ensures Depth(s[..j]) >= 0
    {
      if j == 0 {
        assert s[..j] == [];
      } else if j <= |a| + 1 {
        assert s[..j] == [start] + a[..j - 1];
        DepthConcat([start], a[..j - 1]);
      } else {
        assert s[..j] == s;
      }
    }
  }

  lemma {:induction false} BalancedSingle(i: MirInstruction)
    requires !HasBracket(i) && !i.End?
    ensures Balanced([i])
  {
    assert [i][..0] == [];
    assert [i][..1] == [i];
  }

  /** The serialised code of a readable value holds no empty slot and is
      bracket-balanced: only right operands are bracketed, and
      each bracket is closed by the `End` written after it. */
  lemma {:induction false} EmitBalanced(vars: seq<MirVariable>, v: MirValue, limit: nat)
    requires limit <= |vars| && Readable(vars, v, limit)
    ensures var code := Emit(vars, v, limit);
      Balanced(code) && forall j :: 0 <= j < |code| ==> !code[j].Dummy?
    decreases limit, v, 1, 0
  {
    match v
    case Address(a) => BalancedSingle(MirInstruction.And(a));
    case VarRef(i) => EmitBalanced(vars, vars[i].value, i);
    case Ops(ops) => EmitOpsBalanced(vars, v, 0, limit);
    case Not(x) =>
      EmitBalanced(vars, x, limit);
      BalancedSingle(MirInstruction.Not);
      BalancedConcat(Emit(vars, x, limit), [MirInstruction.Not]);
    case And(_, _) => BinaryBalanced(vars, v, AndStart, limit);
    case Or(_, _) => BinaryBalanced(vars, v, OrStart, limit);
    case Xor(_, _) => BinaryBalanced(vars, v, XorStart, limit);
  }

  lemma {:induction false} BinaryBalanced(vars: seq<MirVariable>, v: MirValue, start: MirInstruction, limit: nat)
    requires limit <= |vars| && (v.And? || v.Or? || v.Xor?) && HasBracket(start)
    requires Readable(vars, v.left, limit) && Readable(vars, v.right, limit)
    ensures var code := Emit(vars, v.left, limit) + [start] + Emit(vars, v.right, limit) + [End];
      Balanced(code) && forall j :: 0 <= j < |code| ==> !code[j].Dummy?
    decreases limit, v, 0, 0
  {
    EmitBalanced(vars, v.left, limit);
    EmitBalanced(vars, v.right, limit);
    BracketedBalanced(Emit(vars, v.left, limit), start, Emit(vars, v.right, limit));
  }

  /** Balanced code followed by a bracketed balanced operand is balanced. */
  lemma BracketedBalanced(a: seq<MirInstruction>, start: MirInstruction, b: seq<MirInstruction>)
    requires HasBracket(start)
    requires Balanced(a) && forall j :: 0 <= j < |a| ==> !a[j].Dummy?
    requires Balanced(b) && forall j :: 0 <= j < |b| ==> !b[j].Dummy?
    ensures var code := a + [start] + b + [End];
      Balanced(code) && forall j :: 0 <= j < |code| ==> !code[j].Dummy?
  {
    BalancedBracket(start, b);
    BalancedConcat(a, [start] + b + [End]);
    assert a + [start] + b + [End] == a + ([start] + b + [End]);
  }

  lemma {:induction false} EmitOpsBalanced(vars: seq<MirVariable>, v: MirValue, k: nat, limit: nat)
    requires limit <= |vars| && v.Ops? && k <= |v.ops| && Readable(vars, v, limit)
    ensures var code := EmitOps(vars, v, k, limit);
      (k < |v.ops| ==> |code| >= 1) && Balanced(code) && forall j :: 0 <= j < |code| ==> !code[j].Dummy?
    decreases limit, v, 0, |v.ops| - k
  {
    if k == |v.ops| {
      var e: seq<MirInstruction> := [];
      assert EmitOps(vars, v, k, limit) == e && e[..0] == e;
    } else {
      var rest := EmitOps(vars, v, k + 1, limit);
      EmitOpsBalanced(vars, v, k + 1, limit);
      match v.ops[k]
      case SetBit(cond, addr) =>
        EmitBalanced(vars, cond, limit);
        assert EmitOps(vars, v, k, limit) == Emit(vars, cond, limit) + [MirInstruction.SetBit(addr)] + rest;
        OpBalanced(Emit(vars, cond, limit), MirInstruction.SetBit(addr), rest);
      case ResetBit(cond, addr) =>
        EmitBalanced(vars, cond, limit);
        assert EmitOps(vars, v, k, limit) == Emit(vars, cond, limit) + [MirInstruction.ResetBit(addr)] + rest;
        OpBalanced(Emit(vars, cond, limit), MirInstruction.ResetBit(addr), rest);
      case And(addr) =>
        var e: seq<MirInstruction> := [];
        assert e[..0] == e;
        OpBalanced(e, MirInstruction.And(addr), rest);
        assert e + [MirInstruction.And(addr)] + rest == [MirInstruction.And(addr)] + rest;
    }
  }

  /** A condition's code, one plain instruction and balanced code after it
      are balanced together. */
  lemma OpBalanced(cond: seq<MirInstruction>, i: MirInstruction, rest: seq<MirInstruction>)
    requires !HasBracket(i) && !i.End? && !i.Dummy?
    requires Balanced(cond) && forall j :: 0 <= j < |cond| ==> !cond[j].Dummy?
    requires Balanced(rest) && forall j :: 0 <= j < |rest| ==> !rest[j].Dummy?
    ensures var code := cond + [i] + rest;
      Balanced(code) && forall j :: 0 <= j < |code| ==> !code[j].Dummy?
  {
    BalancedSingle(i);
    BalancedConcat(cond, [i]);
    BalancedConcat(cond + [i], rest);
  }

  /** `MirInstructionWriter`: the instruction list, appended to in place. */
  class MirInstructionWriter {
    var instructions: seq<MirInstruction>

    /** `MirInstructionWriter::default()`. */
    constructor ()
      ensures instructions == []
    {
      instructions := [];
    }

    /** `write_addr`; the source asserts the address is a bit address. */
    method WriteAddr(addr: MirAddress)
      requires IsBitAddress(addr)
      modifies this
      ensures instructions == old(instructions) + [MirInstruction.And(addr)]
    {
      instructions := instructions + [MirInstruction.And(addr)];
    }

    /** `write_var_ref`: the variable's current value. */
    method WriteVarRef(mir: Mir.Mir, v: MirValue, ghost limit: nat)
      requires limit <= |mir.variables| && Readable(mir.variables, v, limit) && v.VarRef?
      modifies this
      ensures instructions == old(instructions) + Emit(mir.variables, v, limit)
      decreases limit, v, 0, 0
    {
      var value := mir.variables[v.index].value;
      WriteValue(mir, value, v.index);
    }

    /** `write_ops`. */
    method WriteOps(mir: Mir.Mir, v: MirValue, ghost limit: nat)
      requires limit <= |mir.variables| && v.Ops? && Readable(mir.variables, v, limit)
      modifies this
      ensures instructions == old(instructions) + EmitOps(mir.variables, v, 0, limit)
      decreases limit, v, 0, |v.ops| + 1
    {
      var k := 0;
      while k < |v.ops|
        invariant k <= |v.ops|
        invariant instructions + EmitOps(mir.variables, v, k, limit) == old(instructions) + EmitOps(mir.variables, v, 0, limit)
        decreases |v.ops| - k
      {
        match v.ops[k] {
          case SetBit(cond, addr) =>
            WriteValue(mir, cond, limit);
            instructions := instructions + [MirInstruction.SetBit(addr)];
          case ResetBit(cond, addr) =>
            WriteValue(mir, cond, limit);
            instructions := instructions + [MirInstruction.ResetBit(addr)];
          case And(addr) =>
            instructions := instructions + [MirInstruction.And(addr)];
        }
        k := k + 1;
      }
    }

    /** `write_not`, `write_and`, `write_or` and `write_xor` share this
        shape: operand code, then the operator. */
    method WriteNot(mir: Mir.Mir, x: MirValue, ghost limit: nat)
      requires limit <= |mir.variables| && Readable(mir.variables, x, limit)
      modifies this
      ensures instructions == old(instructions) + Emit(mir.variables, x, limit) + [MirInstruction.Not]
      decreases limit, x, 2, 0
    {
      WriteValue(mir, x, limit);
      instructions := instructions + [MirInstruction.Not];
    }

    method WriteBinary(mir: Mir.Mir, v: MirValue, start: MirInstruction, ghost limit: nat)
      requires limit <= |mir.variables| && (v.And? || v.Or? || v.Xor?)
      requires Readable(mir.variables, v.left, limit) && Readable(mir.variables, v.right, limit)
      modifies this
      ensures instructions == old(instructions) + Emit(mir.variables, v.left, limit) + [start] + Emit(mir.variables, v.right, limit) + [End]
      decreases limit, v, 0, 0
    {
      WriteValue(mir, v.left, limit);
      instructions := instructions + [start];
      WriteValue(mir, v.right, limit);
      instructions := instructions + [End];
    }

    /** `write_value`. Units, booleans, numbers and objects reach `todo!()`
        in the source; being unreadable, they are excluded here. */
    method WriteValue(mir: Mir.Mir, v: MirValue, ghost limit: nat)
      requires limit <= |mir.variables| && Readable(mir.variables, v, limit)
      modifies this
      ensures instructions == old(instructions) + Emit(mir.variables, v, limit)
      decreases limit, v, 1, 0
    {
      match v
      case Address(a) => WriteAddr(a);
      case VarRef(_) => WriteVarRef(mir, v, limit);
      case Ops(_) => WriteOps(mir, v, limit);
      case Not(x) => WriteNot(mir, x, limit);
      case And(_, _) => WriteBinary(mir, v, AndStart, limit);
      case Or(_, _) => WriteBinary(mir, v, OrStart, limit);
      case Xor(_, _) => WriteBinary(mir, v, XorStart, limit);
    }
  }
}
