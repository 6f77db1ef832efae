/** The precedence climbing of `read_binary_value`, shared by both parsers
    (crates/compiler/src/parser.rs and crates/compiler/src/parser/mod.rs),
    over an operand type `T`.

    The parsers read an operand, then a chain of steps, each a binary
    operator followed by an operand. `Climb` builds the tree the parsers
    build from that chain; the lemmas below say which tree that is: the
    operands and operators stay in order, a chain whose precedences never
    rise folds to the left, and otherwise the first rise puts everything
    after it under the right operand of the operator before it. */
module Climbing {
  import opened Common
  import opened Symbols

  /** A binary operator and the operand read after it. */
  datatype Step<T> = Step(op: Q<Symbol>, operand: T)

  /** The tree of operator applications. */
  datatype Expr<T> = Leaf(value: T) | Bin(op: Q<Symbol>, left: Expr<T>, right: Expr<T>)

  predicate BinarySteps<T>(ps: seq<Step<T>>) {
    forall i :: 0 <= i < |ps| ==> IsBinaryOp(ps[i].op.value)
  }

  /** Every operator in the tree is binary. */
  predicate BinaryTree<T>(e: Expr<T>) {
    match e
    case Leaf(_) => true
    case Bin(op, l, r) => IsBinaryOp(op.value) && BinaryTree(l) && BinaryTree(r)
  }

  /** One call of `read_binary_value` with `left` read: the first step is
      applied to `left` and its operand, except that an operator of higher
      precedence right after that operand makes the whole rest of the chain
      its right operand. */
  function Climb<T>(left: Expr<T>, ps: seq<Step<T>>): Expr<T>
    requires |ps| > 0 && BinarySteps(ps)
    decreases |ps|
  {
    var op, right := ps[0].op, Leaf(ps[0].operand);
    if |ps| == 1 then Bin(op, left, right)
    else if Precedence(op.value) < Precedence(ps[1].op.value) then Bin(op, left, Climb(right, ps[1..]))
    else Climb(Bin(op, left, right), ps[1..])
  }

  /** The chain applied strictly from the left. */
  function LeftFold<T>(left: Expr<T>, ps: seq<Step<T>>): Expr<T>
    decreases |ps|
  {
    if ps == [] then left
    else LeftFold(Bin(ps[0].op, left, Leaf(ps[0].operand)), ps[1..])
  }

  /** The operands of a tree, left to right. */
  function Leaves<T>(e: Expr<T>): seq<T> {
    match e
    case Leaf(v) => [v]
    case Bin(_, l, r) => Leaves(l) + Leaves(r)
  }

  /** The operators of a tree, left to right. */
  function Operators<T>(e: Expr<T>): seq<Q<Symbol>> {
    match e
    case Leaf(_) => []
    case Bin(op, l, r) => Operators(l) + [op] + Operators(r)
  }

  function Operands<T>(ps: seq<Step<T>>): seq<T>
    decreases |ps|
  {
    if ps == [] then [] else [ps[0].operand] + Operands(ps[1..])
  }

  function OperatorsOf<T>(ps: seq<Step<T>>): seq<Q<Symbol>>
    decreases |ps|
  {
    if ps == [] then [] else [ps[0].op] + OperatorsOf(ps[1..])
  }

  /** The precedences of the chain never rise. */
  predicate NonRising<T>(ps: seq<Step<T>>)
    requires BinarySteps(ps)
  {
    forall i :: 0 < i < |ps| ==> Precedence(ps[i].op.value) <= Precedence(ps[i - 1].op.value)
  }

  /** Climbing keeps every operand in source order. */
  lemma {:induction false} ClimbKeepsOperands<T>(left: Expr<T>, ps: seq<Step<T>>)
    requires |ps| > 0 && BinarySteps(ps)
    ensures Leaves(Climb(left, ps)) == Leaves(left) + Operands(ps)
    decreases |ps|
  {
    var op, right := ps[0].op, Leaf(ps[0].operand);
    assert Operands(ps) == [ps[0].operand] + Operands(ps[1..]);
    if |ps| == 1 {
      assert ps[1..] == [];
    } else if Precedence(op.value) < Precedence(ps[1].op.value) {
      ClimbKeepsOperands(right, ps[1..]);
    } else {
      ClimbKeepsOperands(Bin(op, left, right), ps[1..]);
    }
  }

  /** Climbing keeps every operator in source order. */
  lemma {:induction false} ClimbKeepsOperators<T>(left: Expr<T>, ps: seq<Step<T>>)
    requires |ps| > 0 && BinarySteps(ps)
    ensures Operators(Climb(left, ps)) == Operators(left) + OperatorsOf(ps)
    decreases |ps|
  {
    var op, right := ps[0].op, Leaf(ps[0].operand);
    assert OperatorsOf(ps) == [op] + OperatorsOf(ps[1..]);
    if |ps| == 1 {
      assert ps[1..] == [];
    } else if Precedence(op.value) < Precedence(ps[1].op.value) {
      ClimbKeepsOperators(right, ps[1..]);
    } else {
      ClimbKeepsOperators(Bin(op, left, right), ps[1..]);
    }
  }

  /** Climbing builds only binary applications. */
  lemma {:induction false} ClimbBinary<T>(left: Expr<T>, ps: seq<Step<T>>)
    requires |ps| > 0 && BinarySteps(ps) && BinaryTree(left)
    ensures BinaryTree(Climb(left, ps))
    decreases |ps|
  {
    var op, right := ps[0].op, Leaf(ps[0].operand);
    assert IsBinaryOp(op.value);
    if |ps| > 1 {
      if Precedence(op.value) < Precedence(ps[1].op.value) {
        ClimbBinary(right, ps[1..]);
      } else {
        ClimbBinary(Bin(op, left, right), ps[1..]);
      }
    }
  }

  /** A chain whose precedences never rise associates to the left. */
  lemma {:induction false} NonRisingFoldsLeft<T>(left: Expr<T>, ps: seq<Step<T>>)
    requires |ps| > 0 && BinarySteps(ps) && NonRising(ps)
    ensures Climb(left, ps) == LeftFold(left, ps)
    decreases |ps|
  {
    if |ps| == 1 {
      assert ps[1..] == [];
    } else {
      assert Precedence(ps[1].op.value) <= Precedence(ps[0].op.value);
      NonRisingFoldsLeft(Bin(ps[0].op, left, Leaf(ps[0].operand)), ps[1..]);
    }
  }

  /** At the first rise of precedence, after step `k`, the steps before `k`
      fold to the left and the whole rest of the chain, climbed from the
      operand of step `k`, becomes the right operand of its operator. */
  lemma {:induction false} ClimbRoot<T>(left: Expr<T>, ps: seq<Step<T>>, k: nat)
    requires k + 1 < |ps| && BinarySteps(ps) && NonRising(ps[..k + 1])
    requires Precedence(ps[k].op.value) < Precedence(ps[k + 1].op.value)
    ensures Climb(left, ps) == Bin(ps[k].op, LeftFold(left, ps[..k]), Climb(Leaf(ps[k].operand), ps[k + 1..]))
    decreases k
  {
    if k > 0 {
      assert Precedence(ps[1].op.value) <= Precedence(ps[0].op.value) by {
        assert ps[..k + 1][1] == ps[1] && ps[..k + 1][0] == ps[0];
      }
      var acc := Bin(ps[0].op, left, Leaf(ps[0].operand));
      assert NonRising(ps[1..][..k]) by {
        assert ps[1..][..k] == ps[..k + 1][1..];
      }
      ClimbRoot(acc, ps[1..], k - 1);
      assert ps[1..][..k - 1] == ps[..k][1..];
      assert ps[1..][k..] == ps[k + 1..];
    }
  }

  /** `a xor b and c or d` reads as `a xor ((b and c) or d)`: after the rise
      from `xor` to `and`, the later `or` stays under the `xor`. */
  lemma ClimbExample<T>(a: T, b: T, c: T, d: T, q: Quote)
    ensures var ps := [Step(Q(Xor, q), b), Step(Q(And, q), c), Step(Q(Or, q), d)];
      Climb(Leaf(a), ps) ==
        Bin(Q(Xor, q), Leaf(a), Bin(Q(Or, q), Bin(Q(And, q), Leaf(b), Leaf(c)), Leaf(d)))
  {
    var ps := [Step(Q(Xor, q), b), Step(Q(And, q), c), Step(Q(Or, q), d)];
    var rest := [Step(Q(And, q), c), Step(Q(Or, q), d)];
    assert ps[1..] == rest && rest[1..] == [Step(Q(Or, q), d)];
    assert Climb(Leaf(b), rest) == Climb(Bin(Q(And, q), Leaf(b), Leaf(c)), [Step(Q(Or, q), d)]);
    assert Climb(Leaf(a), ps) == Bin(Q(Xor, q), Leaf(a), Climb(Leaf(b), rest));
  }
}
