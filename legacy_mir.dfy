/** The earlier MIR revision: values behind a trait whose `write` handler
    decides what a write to a variable means (crates/compiler/src/mir/value.rs),
    and the compiler from the legacy HIR (crates/compiler/src/compiler/mod.rs).

    Lowering a single value (`compile_value`, in compiler/value.rs) is not
    part of this model; the compiler takes it as a parameter. */
module LegacyMir {
  import opened Common
  import H = LegacyHir
  import MT = MirTypes

  datatype BitAddressType = Input | Output | Memory

  /** `MirBitAddress`: `x` is 16 bits wide and `y` 8 bits in the source. */
  datatype BitAddress = BitAddress(kind: BitAddressType, x: nat, y: nat)

  /** The trait's implementors: the incomplete values (`Not`, `And`, `Or`,
      `Xor`, a reference to the variable at `index`), `MirBool`,
      `MirNumber` and `MirBitAddress`. */
  datatype Value =
    | Not(operand: Value)
    | And(left: Value, right: Value)
    | Or(left: Value, right: Value)
    | Xor(left: Value, right: Value)
    | Variable(index: nat)
    | Bool(flag: bool)
    | Number(number: nat)
    | Address(address: BitAddress)

  /** An entry of the variable table: the quote of its name and its value. */
  datatype Slot = Slot(name: Quote, value: Value)

  datatype Action = OutputAction(address: BitAddress, instructions: seq<MT.MirInstruction>)

  /** The lowering of one HIR value against the variable table. */
  type CompileValue = (seq<Slot>, H.HirValue) -> CResult<Value>

  /** `MirValue::write` as each implementor answers it: the actions a write
      of `value` to a variable holding `target` appends. Only an output bit
      has a handler of its own. */
  function WriteHandler(target: Value, quote: Quote, value: Value): CResult<seq<Action>> {
    if target.Address? && target.address.kind == Output then Ok([OutputAction(target.address, [])])
    else Err(Error(quote, NoWriteHandler))
  }

  /** Writes succeed exactly on output bits; every other target reports
      `NoWriteHandler` at the quote; the written value plays no part. */
  lemma WriteHandlerSpec(target: Value, quote: Quote, value: Value, other: Value)
    ensures WriteHandler(target, quote, value).Ok? <==> target.Address? && target.address.kind == Output
    ensures WriteHandler(target, quote, value).Err? ==> WriteHandler(target, quote, value).error == Error(quote, NoWriteHandler)
    ensures WriteHandler(target, quote, value) == WriteHandler(target, quote, other)
    ensures WriteHandler(target, quote, value).Ok? ==>
      WriteHandler(target, quote, value).value == [OutputAction(target.address, [])]
  { }

  predicate NamedSlot(src: seq<Byte>, s: Slot, name: seq<Byte>) {
    s.name.start <= s.name.end <= |src| && src[s.name.start..s.name.end] == name
  }

  /** The last slot below `i` named `name`. */
  function LastNamedBelow(src: seq<Byte>, vars: seq<Slot>, name: seq<Byte>, i: nat): (r: Option<nat>)
    requires i <= |vars|
    ensures r.Some? ==> r.value < i && NamedSlot(src, vars[r.value], name)
    ensures r.Some? ==> forall j :: r.value < j < i ==> !NamedSlot(src, vars[j], name)
    ensures r.None? <==> forall j :: 0 <= j < i ==> !NamedSlot(src, vars[j], name)
  {
    if i == 0 then None
    else if NamedSlot(src, vars[i - 1], name) then Some(i - 1)
    else LastNamedBelow(src, vars, name, i - 1)
  }

  /** The most recent binding of `name`. */
  function LastNamed(src: seq<Byte>, vars: seq<Slot>, name: seq<Byte>): Option<nat> {
    LastNamedBelow(src, vars, name, |vars|)
  }

  /** A new binding shadows every earlier one of the same name. */
  lemma NewestBindingWins(src: seq<Byte>, vars: seq<Slot>, s: Slot, name: seq<Byte>)
    requires NamedSlot(src, s, name)
    ensures LastNamed(src, vars + [s], name) == Some(|vars|)
  { }

  /** A binding of another name leaves the lookup as it was. */
  lemma {:induction false} OtherBindingKeeps(src: seq<Byte>, vars: seq<Slot>, s: Slot, name: seq<Byte>)
    requires !NamedSlot(src, s, name)
    ensures LastNamed(src, vars + [s], name) == LastNamed(src, vars, name)
  {
    LastBelowPrefix(src, vars, [s], name, |vars|);
  }

  lemma {:induction false} LastBelowPrefix(src: seq<Byte>, vars: seq<Slot>, more: seq<Slot>, name: seq<Byte>, i: nat)
    requires i <= |vars|
    ensures LastNamedBelow(src, vars + more, name, i) == LastNamedBelow(src, vars, name, i)
  {
    if i > 0 {
      assert (vars + more)[i - 1] == vars[i - 1];
      LastBelowPrefix(src, vars, more, name, i - 1);
    }
  }

  /** What the compiler tracks of the MIR. */
  datatype LState = LState(variables: seq<Slot>, actions: seq<Action>)

  /** `compile_let`: the value is lowered, then bound under the name. */
  function LetStep(cv: CompileValue, st: LState, name: Quote, value: H.HirValue): CResult<LState> {
    var v :- cv(st.variables, value);
    Ok(st.(variables := st.variables + [Slot(name, v)]))
  }

  /** `compile_write`: the most recent binding of the name is looked up
      first, then the new value is lowered, the bound value's handler runs,
      and the bound value is stored back into its slot. */
  function WriteStep(src: seq<Byte>, cv: CompileValue, st: LState, quote: Quote, name: Quote, value: H.HirValue): Outcome<LState> {
    var text :- Text(src, name);
    match LastNamed(src, st.variables, text)
    case None => Fail(Error(quote, UnknownVariable))
    case Some(k) =>
      var target := st.variables[k].value;
      var v :- Checked(cv(st.variables, value));
      var acts :- Checked(WriteHandler(target, quote, v));
      Done(LState(st.variables[k := st.variables[k].(value := target)], st.actions + acts))
  }

  function StatementStep(src: seq<Byte>, cv: CompileValue, st: LState, s: H.HirStatement): Outcome<LState> {
    match s
    case Let(_, name, value) => Checked(LetStep(cv, st, name, value))
    case Write(quote, name, value) => WriteStep(src, cv, st, quote, name, value)
  }

  /** `compile`: the statements in order from an empty MIR; the first error
      aborts. */
  function Compiled(src: seq<Byte>, cv: CompileValue, stmts: seq<H.HirStatement>): Outcome<LState> {
    if stmts == [] then Done(LState([], []))
    else
      var st :- Compiled(src, cv, stmts[..|stmts| - 1]);
      StatementStep(src, cv, st, stmts[|stmts| - 1])
  }

  /** A `let` appends one variable and no action. */
  lemma LetAppends(cv: CompileValue, st: LState, name: Quote, value: H.HirValue)
    requires LetStep(cv, st, name, value).Ok?
    ensures var t := LetStep(cv, st, name, value).value;
      |t.variables| == |st.variables| + 1 && t.variables[..|st.variables|] == st.variables &&
      t.variables[|st.variables|].name == name && t.actions == st.actions
  {
    var t := LetStep(cv, st, name, value).value;
    assert t.variables[..|st.variables|] == st.variables;
  }

  /** A write that succeeds leaves every variable as it was and appends one
      output action, to the output bit held by the most recent binding of
      the written name; a name with no binding fails at the statement's
      quote. */
  lemma WriteOutputs(src: seq<Byte>, cv: CompileValue, st: LState, quote: Quote, name: Quote, value: H.HirValue)
    requires name.start <= name.end <= |src|
    ensures var k := LastNamed(src, st.variables, src[name.start..name.end]);
      (k.None? ==> WriteStep(src, cv, st, quote, name, value) == Fail(Error(quote, UnknownVariable))) &&
      (WriteStep(src, cv, st, quote, name, value).Done? ==>
        var t := WriteStep(src, cv, st, quote, name, value).value;
        k.Some? && t.variables == st.variables &&
        st.variables[k.value].value.Address? && st.variables[k.value].value.address.kind == Output &&
        t.actions == st.actions + [OutputAction(st.variables[k.value].value.address, [])])
  {
    var text := src[name.start..name.end];
    match LastNamed(src, st.variables, text)
    case None =>
    case Some(k) =>
      assert st.variables[k := st.variables[k].(value := st.variables[k].value)] == st.variables;
  }

  function CountLets(stmts: seq<H.HirStatement>): nat {
    if stmts == [] then 0
    else CountLets(stmts[..|stmts| - 1]) + (if stmts[|stmts| - 1].Let? then 1 else 0)
  }

  /** A compiled program has one variable per `let` and one action per
      write. */
  lemma {:induction false} CompiledCounts(src: seq<Byte>, cv: CompileValue, stmts: seq<H.HirStatement>)
    requires Compiled(src, cv, stmts).Done?
    ensures |Compiled(src, cv, stmts).value.variables| == CountLets(stmts)
    ensures |Compiled(src, cv, stmts).value.actions| == |stmts| - CountLets(stmts)
  {
    if stmts != [] {
      var p := stmts[..|stmts| - 1];
      CompiledCounts(src, cv, p);
      var st := Compiled(src, cv, p).value;
      match stmts[|stmts| - 1]
      case Let(_, name, value) =>
      case Write(quote, name, value) =>
        WriteOutputs(src, cv, st, quote, name, value);
    }
  }

  /** A failure in a prefix of the program is the failure of the whole. */
  lemma {:induction false} CompiledPrefixFails(src: seq<Byte>, cv: CompileValue, stmts: seq<H.HirStatement>, k: nat)
    requires k <= |stmts| && !Compiled(src, cv, stmts[..k]).Done?
    ensures Compiled(src, cv, stmts) == Compiled(src, cv, stmts[..k])
    decreases |stmts| - k
  {
    if k < |stmts| {
      assert stmts[..k + 1][..k] == stmts[..k];
      CompiledPrefixFails(src, cv, stmts, k + 1);
    } else {
      assert stmts[..k] == stmts;
    }
  }

  /** The MIR of this revision: the source, the variable table and the
      actions. */
  class Mir {
    const source: seq<Byte>
    var variables: seq<Slot>
    var actions: seq<Action>

    constructor (source: seq<Byte>)
      ensures this.source == source && variables == [] && actions == []
    {
      this.source := source;
      variables := [];
      actions := [];
    }

    function State(): LState
      reads this
    {
      LState(variables, actions)
    }

    /** The reverse scan of `compile_write`. */
    method FindLast(name: seq<Byte>) returns (r: Option<nat>)
      ensures r == LastNamed(source, variables, name)
    {
      var i := |variables|;
      while i > 0
        invariant 0 <= i <= |variables|
        invariant LastNamed(source, variables, name) == LastNamedBelow(source, variables, name, i)
      {
        i := i - 1;
        if NamedSlot(source, variables[i], name) {
          return Some(i);
        }
      }
      return None;
    }
  }

  /** `write` called on `target`: the default handler fails and changes
      nothing; an output bit appends its output action. */
  method Write(target: Value, mir: Mir, quote: Quote, index: nat, value: Value) returns (r: CResult<()>)
    modifies mir
    ensures r.Ok? <==> WriteHandler(target, quote, value).Ok?
    ensures mir.variables == old(mir.variables)
    ensures r.Ok? ==> mir.actions == old(mir.actions) + WriteHandler(target, quote, value).value
    ensures r.Err? ==> r.error == WriteHandler(target, quote, value).error && mir.actions == old(mir.actions)
  {
    if !(target.Address? && target.address.kind == Output) {
      return Err(Error(quote, NoWriteHandler));
    }
    mir.actions := mir.actions + [OutputAction(target.address, [])];
    r := Ok(());
  }

  /** `compile_let`. */
  method CompileLet(mir: Mir, cv: CompileValue, name: Quote, value: H.HirValue) returns (r: CResult<()>)
    modifies mir
    ensures r.Ok? <==> LetStep(cv, old(mir.State()), name, value).Ok?
    ensures r.Ok? ==> mir.State() == LetStep(cv, old(mir.State()), name, value).value
    ensures r.Err? ==> r.error == LetStep(cv, old(mir.State()), name, value).error && mir.State() == old(mir.State())
  {
    var v := cv(mir.variables, value);
    if v.Err? {
      return Err(v.error);
    }
    mir.variables := mir.variables + [Slot(name, v.value)];
    r := Ok(());
  }

  /** `compile_write`. */
  method CompileWrite(mir: Mir, cv: CompileValue, quote: Quote, name: Quote, value: H.HirValue) returns (r: CResult<()>)
    requires !WriteStep(mir.source, cv, mir.State(), quote, name, value).Panic?
    modifies mir
    ensures r.Ok? <==> WriteStep(mir.source, cv, old(mir.State()), quote, name, value).Done?
    ensures r.Ok? ==> mir.State() == WriteStep(mir.source, cv, old(mir.State()), quote, name, value).value
    ensures r.Err? ==> r.error == WriteStep(mir.source, cv, old(mir.State()), quote, name, value).error
  {
    var text := mir.source[name.start..name.end];
    var index := mir.FindLast(text);
    if index.None? {
      return Err(Error(quote, UnknownVariable));
    }
    var target := mir.variables[index.value].value;
    var v := cv(mir.variables, value);
    if v.Err? {
      return Err(v.error);
    }
    r := Write(target, mir, quote, index.value, v.value);
    if r.Ok? {
      mir.variables := mir.variables[index.value := mir.variables[index.value].(value := target)];
    }
  }

  /** `compile`. */
  method Compile(source: seq<Byte>, cv: CompileValue, stmts: seq<H.HirStatement>) returns (r: CResult<Mir>)
    requires !Compiled(source, cv, stmts).Panic?
    ensures r.Ok? <==> Compiled(source, cv, stmts).Done?
    ensures r.Ok? ==> r.value.source == source && r.value.State() == Compiled(source, cv, stmts).value
    ensures r.Err? ==> r.error == Compiled(source, cv, stmts).error
  {
    var mir := new Mir(source);
    for k := 0 to |stmts|
      invariant Compiled(source, cv, stmts[..k]) == Done(mir.State())
      invariant mir.source == source
    {
      assert stmts[..k + 1][..k] == stmts[..k];
      assert stmts[..k + 1][k] == stmts[k];
      ghost var st := mir.State();
      assert Compiled(source, cv, stmts[..k + 1]) == StatementStep(source, cv, st, stmts[k]);
      var e: CResult<()>;
      match stmts[k] {
        case Let(_, name, value) =>
          e := CompileLet(mir, cv, name, value);
        case Write(quote, name, value) =>
          if !WriteStep(source, cv, mir.State(), quote, name, value).Done? {
            CompiledPrefixFails(source, cv, stmts, k + 1);
          }
          e := CompileWrite(mir, cv, quote, name, value);
      }
      if e.Err? {
        CompiledPrefixFails(source, cv, stmts, k + 1);
        return Err(e.error);
      }
    }
    assert stmts[..|stmts|] == stmts;
    r := Ok(mir);
  }
}
