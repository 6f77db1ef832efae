/** The lowering of crates/compiler/src/mir/transformer: HIR values become
    MIR values (value.rs), and HIR statements update the MIR's variable
    table, action list and allocator (mod.rs).

    The lowering is specified by functions over a `MirState` value: `Lower`
    and `LowerArgs` for values, one function per statement form and
    `Transformed` for a program. The methods work on the `Mir` object and are
    proved to end in the state those functions compute. `Panic` stands where
    the source panics: a quote that does not lie inside the source, an
    exhausted allocator, or instructions the optimizer rejects. */
module MirTransformer {
  import opened Common
  import opened MirTypes
  import opened Mir
  import B = Builtins
  import H = Hir
  import W = Writer
  import O = Optimizer

  /** Everything a statement can change. */
  datatype MirState = MirState(variables: seq<MirVariable>, actions: seq<MirAction>, memory: MemState)

  const EMPTY: MirState := MirState([], [], ZERO)

  function StateOf(mir: Mir): MirState
    reads mir, mir.memory
  {
    MirState(mir.variables, mir.actions, mir.memory.State())
  }

  /** A statement method's result against its specification. */
  function After(r: CResult<()>, st: MirState): Outcome<MirState> {
    match r
    case Ok(_) => Done(st)
    case Err(e) => Fail(e)
  }

  /** The write handler of the target's current value (`MirValue::write` of
      this revision, whose definition is not part of this model). Given the
      variable table, the target's value, the quote of the written name, the
      quote of the new value and the lowered new value, it fails or yields
      the target's new value and the actions it appends. */
  type WriteHandler = (seq<MirVariable>, MirValue, Quote, Quote, MirValue) -> CResult<(MirValue, seq<MirAction>)>

  /** `transform_address`: the prefix selects a physical input or output;
      pointer and bit are kept. */
  function LowerAddress(quote: Quote, prefix: Byte, ptr: nat, bit: nat): (r: CResult<MirValue>)
    ensures r.Ok? <==> prefix in {'I' as int, 'E' as int, 'Q' as int, 'A' as int}
    ensures r.Ok? ==> r.value.Address? && r.value.address.ptr == ptr && r.value.address.bit == bit
    ensures r.Ok? ==> (r.value.address.kind == PhysicalInput1 <==> prefix in {'I' as int, 'E' as int})
    ensures r.Ok? ==> (r.value.address.kind == PhysicalOutput1 <==> prefix in {'Q' as int, 'A' as int})
    ensures r.Err? ==> r.error == Error(quote, UnknownBitAddressType)
  {
    if prefix == 'I' as int || prefix == 'E' as int then Ok(Address(MirAddress(PhysicalInput1, ptr, bit)))
    else if prefix == 'Q' as int || prefix == 'A' as int then Ok(Address(MirAddress(PhysicalOutput1, ptr, bit)))
    else Err(Error(quote, UnknownBitAddressType))
  }

  /** `transform_value` against the variable table `vars`: the MIR value and
      the allocator after the builtins the value calls. Left operands are
      lowered before right ones. */
  function Lower(src: seq<Byte>, vars: seq<MirVariable>, m: MemState, v: H.HirValue): Outcome<(MirValue, MemState)>
    decreases v, 1
  {
    match v.kind
    case Number(n) => Done((MirValue.Number(n), m))
    case Bool(b) => Done((MirValue.Bool(b), m))
    case BitAddress(prefix, ptr, bit) =>
      var a :- Checked(LowerAddress(v.quote, prefix, ptr, bit));
      Done((a, m))
    case Not(x) =>
      var p :- Lower(src, vars, m, x);
      Done((MirValue.Not(p.0), p.1))
    case And(l, r) =>
      var p :- Lower(src, vars, m, l);
      var q :- Lower(src, vars, p.1, r);
      Done((MirValue.And(p.0, q.0), q.1))
    case Or(l, r) =>
      var p :- Lower(src, vars, m, l);
      var q :- Lower(src, vars, p.1, r);
      Done((MirValue.Or(p.0, q.0), q.1))
    case Xor(l, r) =>
      var p :- Lower(src, vars, m, l);
      var q :- Lower(src, vars, p.1, r);
      Done((MirValue.Xor(p.0, q.0), q.1))
    case VarRef =>
      var name :- Text(src, v.quote);
      (match FirstNamed(src, vars, name)
       case None => Fail(Error(v.quote, UnknownVariable))
       case Some(i) => Done((MirValue.VarRef(i), m)))
    case Call(c) =>
      var name :- Text(src, c.name);
      match LookupBuiltin(name)
      case None => Fail(Error(c.name, UnknownFunction))
      case Some(b) =>
        var p :- LowerArgs(src, vars, m, c.args, [], v);
        B.CallBuiltin(b, vars, p.1, v.quote, p.0)
  }

  /** `transform_values`: `acc` followed by the lowered `vs`, in order,
      stopping at the first error. `parent` is a value holding all of `vs`
      and only bounds the recursion. */
  function LowerArgs(src: seq<Byte>, vars: seq<MirVariable>, m: MemState, vs: seq<H.HirValue>, acc: seq<MirValue>, ghost parent: H.HirValue): Outcome<(seq<MirValue>, MemState)>
    requires forall i :: 0 <= i < |vs| ==> vs[i] < parent
    decreases parent, 0, |vs|
  {
    if vs == [] then Done((acc, m))
    else
      var p :- Lower(src, vars, m, vs[0]);
      LowerArgs(src, vars, p.1, vs[1..], acc + [p.0], parent)
  }

  /** A value tree that calls no builtin. */
  predicate NoCall(v: H.HirValue) {
    match v.kind
    case Not(x) => NoCall(x)
    case And(l, r) => NoCall(l) && NoCall(r)
    case Or(l, r) => NoCall(l) && NoCall(r)
    case Xor(l, r) => NoCall(l) && NoCall(r)
    case Call(_) => false
    case _ => true
  }

  /** A builtin result only refers to what its arguments refer to, and the
      allocator stays consistent. */
  lemma BuiltinSound(b: Builtin, vars: seq<MirVariable>, m: MemState, quote: Quote, args: seq<MirValue>, limit: nat)
    requires Inv(m) && forall i :: 0 <= i < |args| ==> RefsBelow(args[i], limit)
    ensures var r := B.CallBuiltin(b, vars, m, quote, args);
      r.Done? ==> RefsBelow(r.value.0, limit) && Inv(r.value.1)
  {
    var r := B.CallBuiltin(b, vars, m, quote, args);
    if r.Done? {
      AllocU1Fresh(m);
    }
  }

  /** Lowering against `vars` yields values whose references all point into
      `vars`, keeps the allocator consistent, and leaves the allocator alone
      when the value calls no builtin. */
  lemma {:induction false} LowerSound(src: seq<Byte>, vars: seq<MirVariable>, m: MemState, v: H.HirValue)
    requires Inv(m)
    ensures var r := Lower(src, vars, m, v);
      r.Done? ==> RefsBelow(r.value.0, |vars|) && Inv(r.value.1) && (NoCall(v) ==> r.value.1 == m)
    decreases v, 1
  {
    match v.kind
    case Not(x) => LowerSound(src, vars, m, x);
    case And(l, r) => LowerPairSound(src, vars, m, l, r, v);
    case Or(l, r) => LowerPairSound(src, vars, m, l, r, v);
    case Xor(l, r) => LowerPairSound(src, vars, m, l, r, v);
    case Call(c) =>
      var name := Text(src, c.name);
      if name.Done? && LookupBuiltin(name.value).Some? {
        LowerArgsSound(src, vars, m, c.args, [], v);
        var p := LowerArgs(src, vars, m, c.args, [], v);
        if p.Done? {
          BuiltinSound(LookupBuiltin(name.value).value, vars, p.value.1, v.quote, p.value.0, |vars|);
        }
      }
    case _ =>
  }

  lemma {:induction false} LowerPairSound(src: seq<Byte>, vars: seq<MirVariable>, m: MemState, l: H.HirValue, r: H.HirValue, parent: H.HirValue)
    requires Inv(m) && l < parent && r < parent
    ensures var p := Lower(src, vars, m, l);
      p.Done? ==> var q := Lower(src, vars, p.value.1, r);
        RefsBelow(p.value.0, |vars|) && Inv(p.value.1) && (NoCall(l) ==> p.value.1 == m) &&
        (q.Done? ==> RefsBelow(q.value.0, |vars|) && Inv(q.value.1) && (NoCall(r) ==> q.value.1 == p.value.1))
    decreases parent, 0
  {
    LowerSound(src, vars, m, l);
    var p := Lower(src, vars, m, l);
    if p.Done? {
      LowerSound(src, vars, p.value.1, r);
    }
  }

  /** `transform_values` keeps the length and order of its input: the
      result is `acc` followed by one value per argument, each referring
      into `vars`. */
  lemma {:induction false} LowerArgsSound(src: seq<Byte>, vars: seq<MirVariable>, m: MemState, vs: seq<H.HirValue>, acc: seq<MirValue>, parent: H.HirValue)
    requires forall i :: 0 <= i < |vs| ==> vs[i] < parent
    requires Inv(m) && forall i :: 0 <= i < |acc| ==> RefsBelow(acc[i], |vars|)
    ensures var r := LowerArgs(src, vars, m, vs, acc, parent);
      r.Done? ==>
        |r.value.0| == |acc| + |vs| && r.value.0[..|acc|] == acc && Inv(r.value.1) &&
        forall i :: 0 <= i < |r.value.0| ==> RefsBelow(r.value.0[i], |vars|)
    decreases parent, 0, |vs|
  {
    if vs != [] {
      LowerSound(src, vars, m, vs[0]);
      var p := Lower(src, vars, m, vs[0]);
      if p.Done? {
        var acc' := acc + [p.value.0];
        LowerArgsSound(src, vars, p.value.1, vs[1..], acc', parent);
        var r := LowerArgs(src, vars, p.value.1, vs[1..], acc', parent);
        if r.Done? {
          assert r.value.0[..|acc|] == r.value.0[..|acc'|][..|acc|];
        }
      }
    }
  }

  /** `transform_let`: the value is lowered against the table as it was, then
      exactly one variable is appended. */
  function LetStatement(src: seq<Byte>, st: MirState, s: H.HirStatement): Outcome<MirState>
    requires s.Let?
  {
    var p :- Lower(src, st.variables, st.memory, s.value);
    Done(st.(variables := st.variables + [MirVariable(s.name, p.0)], memory := p.1))
  }

  /** `transform_write`: the binding is looked up before the new value is
      lowered, the handler of the binding's current value runs, and its
      result goes back into the same slot. */
  function WriteStatement(src: seq<Byte>, write: WriteHandler, st: MirState, s: H.HirStatement): Outcome<MirState>
    requires s.Write?
  {
    var name :- Text(src, s.name);
    match FirstNamed(src, st.variables, name)
    case None => Fail(Error(s.quote, UnknownVariable))
    case Some(k) =>
      var target := st.variables[k].value;
      var p :- Lower(src, st.variables, st.memory, s.value);
      var w :- Checked(write(st.variables, target, s.name, s.value.quote, p.0));
      Done(MirState(st.variables[k := st.variables[k].(value := w.0)], st.actions + w.1, p.1))
  }

  /** The value standing for a call statement's arguments in `LowerArgs`. */
  function CallNode(s: H.HirStatement): H.HirValue
    requires s.CallStatement?
  {
    H.HirValue(s.quote, H.Call(H.HirCall(s.name, s.args)))
  }

  /** The first half of `transform_call`: a known builtin's arguments are
      lowered and the builtin runs. */
  function CallValue(src: seq<Byte>, st: MirState, s: H.HirStatement): Outcome<(MirValue, MemState)>
    requires s.CallStatement?
  {
    var name :- Text(src, s.name);
    match LookupBuiltin(name)
    case None => Fail(Error(s.name, UnknownFunction))
    case Some(b) =>
      var p :- LowerArgs(src, st.variables, st.memory, s.args, [], CallNode(s));
      B.CallBuiltin(b, st.variables, p.1, s.quote, p.0)
  }

  /** `transform_call`: a known builtin's arguments are lowered and the
      builtin runs; its result must be bit-readable, and is written out,
      optimized and appended as one raw action. */
  function CallStatement(src: seq<Byte>, st: MirState, s: H.HirStatement): Outcome<MirState>
    requires s.CallStatement?
  {
    var q :- CallValue(src, st, s);
    if !IsBitReadable(st.variables, q.0) then Fail(Error(s.quote, ValueNotBitReadable))
      else
        match O.Optimized(W.Emit(st.variables, q.0, |st.variables|))
        case None => Panic
        case Some(code) => Done(MirState(st.variables, st.actions + [Raw(code)], q.1))
  }

  function Statement(src: seq<Byte>, write: WriteHandler, st: MirState, s: H.HirStatement): Outcome<MirState> {
    match s
    case Let(_, _, _) => LetStatement(src, st, s)
    case Write(_, _, _) => WriteStatement(src, write, st, s)
    case CallStatement(_, _, _) => CallStatement(src, st, s)
  }

  /** The statements run in order from `st`; the first error ends the run. */
  function TransformFrom(src: seq<Byte>, write: WriteHandler, st: MirState, stmts: seq<H.HirStatement>): Outcome<MirState>
    decreases |stmts|
  {
    if stmts == [] then Done(st)
    else
      var st1 :- Statement(src, write, st, stmts[0]);
      TransformFrom(src, write, st1, stmts[1..])
  }

  /** `transform`: the statements run from an empty MIR. */
  function Transformed(src: seq<Byte>, write: WriteHandler, stmts: seq<H.HirStatement>): Outcome<MirState> {
    TransformFrom(src, write, EMPTY, stmts)
  }

  /** A `let` appends exactly one variable, leaves the actions alone, and
      keeps every variable referring only to earlier ones. */
  lemma LetAppends(src: seq<Byte>, st: MirState, s: H.HirStatement)
    requires s.Let? && Inv(st.memory) && WfVariables(st.variables)
    ensures var r := LetStatement(src, st, s);
      r.Done? ==>
        |r.value.variables| == |st.variables| + 1 && r.value.variables[..|st.variables|] == st.variables &&
        r.value.variables[|st.variables|].name == s.name && r.value.actions == st.actions &&
        Inv(r.value.memory) && WfVariables(r.value.variables)
  {
    LowerSound(src, st.variables, st.memory, s.value);
    var r := LetStatement(src, st, s);
    if r.Done? {
      assert r.value.variables[..|st.variables|] == st.variables;
    }
  }

  /** A write changes only the slot its name is first bound to, keeping the
      slot's name, and only appends actions; an unbound name is reported at
      the statement. */
  lemma WriteTouchesOneSlot(src: seq<Byte>, write: WriteHandler, st: MirState, s: H.HirStatement)
    requires s.Write? && s.name.start <= s.name.end <= |src|
    ensures var r := WriteStatement(src, write, st, s);
      var k := FirstNamed(src, st.variables, src[s.name.start..s.name.end]);
      (k.None? ==> r == Fail(Error(s.quote, UnknownVariable))) &&
      (r.Done? ==>
        k.Some? &&
        |r.value.variables| == |st.variables| &&
        r.value.variables[k.value].name == st.variables[k.value].name &&
        (forall j :: 0 <= j < |st.variables| && j != k.value ==> r.value.variables[j] == st.variables[j]) &&
        r.value.actions[..|st.actions|] == st.actions)
  { }

  /** A call statement appends exactly one raw action, free of emptied
      slots, and leaves the variables alone; a result that cannot be read as
      a bit is reported at the call. */
  lemma CallAppendsOne(src: seq<Byte>, st: MirState, s: H.HirStatement)
    requires s.CallStatement?
    ensures var r := CallStatement(src, st, s);
      r.Done? ==>
        r.value.variables == st.variables && |r.value.actions| == |st.actions| + 1 &&
        r.value.actions[..|st.actions|] == st.actions && r.value.actions[|st.actions|].Raw? &&
        forall j :: 0 <= j < |r.value.actions[|st.actions|].instructions| ==> !r.value.actions[|st.actions|].instructions[j].Dummy?
  {
    var r := CallStatement(src, st, s);
    if r.Done? {
      assert r.value.actions[..|st.actions|] == st.actions;
    }
  }

  /** The errors lowering can raise: a bad address prefix, an unknown
      variable or function, and the builtins' argument errors. */
  predicate LoweringReason(r: Reason) {
    r == UnknownBitAddressType || r == UnknownVariable || r == UnknownFunction ||
    r == InvalidArgsCount || r == InvalidArgType
  }

  lemma {:induction false} LowerReasons(src: seq<Byte>, vars: seq<MirVariable>, m: MemState, v: H.HirValue)
    ensures var r := Lower(src, vars, m, v);
      r.Fail? ==> LoweringReason(r.error.reason)
    decreases v, 1
  {
    match v.kind
    case Not(x) => LowerReasons(src, vars, m, x);
    case And(l, r) => LowerPairReasons(src, vars, m, l, r, v);
    case Or(l, r) => LowerPairReasons(src, vars, m, l, r, v);
    case Xor(l, r) => LowerPairReasons(src, vars, m, l, r, v);
    case Call(c) => LowerArgsReasons(src, vars, m, c.args, [], v);
    case _ =>
  }

  lemma {:induction false} LowerPairReasons(src: seq<Byte>, vars: seq<MirVariable>, m: MemState, l: H.HirValue, r: H.HirValue, parent: H.HirValue)
    requires l < parent && r < parent
    ensures var p := Lower(src, vars, m, l);
      (p.Fail? ==> LoweringReason(p.error.reason)) &&
      (p.Done? ==> var q := Lower(src, vars, p.value.1, r); q.Fail? ==> LoweringReason(q.error.reason))
    decreases parent, 0
  {
    LowerReasons(src, vars, m, l);
    var p := Lower(src, vars, m, l);
    if p.Done? {
      LowerReasons(src, vars, p.value.1, r);
    }
  }

  lemma {:induction false} LowerArgsReasons(src: seq<Byte>, vars: seq<MirVariable>, m: MemState, vs: seq<H.HirValue>, acc: seq<MirValue>, parent: H.HirValue)
    requires forall i :: 0 <= i < |vs| ==> vs[i] < parent
    ensures var r := LowerArgs(src, vars, m, vs, acc, parent);
      r.Fail? ==> LoweringReason(r.error.reason)
    decreases parent, 0, |vs|
  {
    if vs != [] {
      LowerReasons(src, vars, m, vs[0]);
      var p := Lower(src, vars, m, vs[0]);
      if p.Done? {
        LowerArgsReasons(src, vars, p.value.1, vs[1..], acc + [p.value.0], parent);
      }
    }
  }

  /** With `rs` and `sr` the only builtins, whose results are always
      bit-readable, a call statement never fails for want of a bit-readable
      result. */
  lemma CallAlwaysReadable(src: seq<Byte>, st: MirState, s: H.HirStatement)
    requires s.CallStatement?
    ensures var r := CallStatement(src, st, s);
      r.Fail? ==> r.error.reason != ValueNotBitReadable
  {
    LowerArgsReasons(src, st.variables, st.memory, s.args, [], CallNode(s));
  }

  /** Lowering builds operation lists only through `rs` and `sr`, each
      with three operations, so every list it yields is non-empty. */
  lemma {:induction false} LowerFilled(src: seq<Byte>, vars: seq<MirVariable>, m: MemState, v: H.HirValue)
    ensures var r := Lower(src, vars, m, v);
      r.Done? ==> FilledOps(r.value.0)
    decreases v, 1
  {
    match v.kind
    case Not(x) => LowerFilled(src, vars, m, x);
    case And(l, r) => LowerPairFilled(src, vars, m, l, r, v);
    case Or(l, r) => LowerPairFilled(src, vars, m, l, r, v);
    case Xor(l, r) => LowerPairFilled(src, vars, m, l, r, v);
    case Call(c) =>
      LowerArgsFilled(src, vars, m, c.args, [], v);
    case _ =>
  }

  lemma {:induction false} LowerPairFilled(src: seq<Byte>, vars: seq<MirVariable>, m: MemState, l: H.HirValue, r: H.HirValue, parent: H.HirValue)
    requires l < parent && r < parent
    ensures var p := Lower(src, vars, m, l);
      p.Done? ==> FilledOps(p.value.0) && var q := Lower(src, vars, p.value.1, r);
        (q.Done? ==> FilledOps(q.value.0))
    decreases parent, 0
  {
    LowerFilled(src, vars, m, l);
    var p := Lower(src, vars, m, l);
    if p.Done? {
      LowerFilled(src, vars, p.value.1, r);
    }
  }

  lemma {:induction false} LowerArgsFilled(src: seq<Byte>, vars: seq<MirVariable>, m: MemState, vs: seq<H.HirValue>, acc: seq<MirValue>, parent: H.HirValue)
    requires forall i :: 0 <= i < |vs| ==> vs[i] < parent
    requires forall i :: 0 <= i < |acc| ==> FilledOps(acc[i])
    ensures var r := LowerArgs(src, vars, m, vs, acc, parent);
      r.Done? ==> forall i :: 0 <= i < |r.value.0| ==> FilledOps(r.value.0[i])
    decreases parent, 0, |vs|
  {
    if vs != [] {
      LowerFilled(src, vars, m, vs[0]);
      var p := Lower(src, vars, m, vs[0]);
      if p.Done? {
        LowerArgsFilled(src, vars, p.value.1, vs[1..], acc + [p.value.0], parent);
      }
    }
  }

  /** A builtin given non-empty operation lists yields one. */
  lemma CallValueFilled(src: seq<Byte>, st: MirState, s: H.HirStatement)
    requires s.CallStatement?
    ensures var r := CallValue(src, st, s);
      r.Done? ==> FilledOps(r.value.0)
  {
    LowerArgsFilled(src, st.variables, st.memory, s.args, [], CallNode(s));
    var r := CallValue(src, st, s);
    if r.Done? {
      var b := LookupBuiltin(Text(src, s.name).value).value;
      var p := LowerArgs(src, st.variables, st.memory, s.args, [], CallNode(s)).value;
      assert r == B.CallBuiltin(b, st.variables, p.1, s.quote, p.0);
      assert FilledOps(p.0[0]) && FilledOps(p.0[1]);
    }
  }

  /** A write handler that never leaves an empty operation list behind. */
  ghost predicate Filling(write: WriteHandler) {
    forall vars, target, name, quote, value ::
      FilledOps(target) && FilledOps(value) && write(vars, target, name, quote, value).Ok? ==>
        FilledOps(write(vars, target, name, quote, value).value.0)
  }

  /** Every statement keeps the variable table free of empty operation
      lists, given a handler that does. */
  lemma StatementFilled(src: seq<Byte>, write: WriteHandler, st: MirState, s: H.HirStatement)
    requires Filling(write) && FilledTable(st.variables)
    ensures var r := Statement(src, write, st, s);
      r.Done? ==> FilledTable(r.value.variables)
  {
    match s
    case Let(_, _, _) =>
      LowerFilled(src, st.variables, st.memory, s.value);
    case Write(_, _, _) =>
      LowerFilled(src, st.variables, st.memory, s.value);
    case CallStatement(_, _, _) =>
  }

  /** The optimizer accepts the code of every call statement over such a
      table: the statement panics only where lowering or the builtin does
      (an exhausted allocator), never in `optimize`. */
  lemma CallPanicsOnlyInLowering(src: seq<Byte>, st: MirState, s: H.HirStatement)
    requires s.CallStatement? && FilledTable(st.variables)
    ensures CallStatement(src, st, s).Panic? <==> CallValue(src, st, s).Panic?
  {
    var q := CallValue(src, st, s);
    if q.Done? && IsBitReadable(st.variables, q.value.0) {
      CallValueFilled(src, st, s);
      O.EmitOptimizes(st.variables, q.value.0, |st.variables|);
    }
  }

  /** A run from a table free of empty operation lists ends in one. */
  lemma {:induction false} TransformFilled(src: seq<Byte>, write: WriteHandler, st: MirState, stmts: seq<H.HirStatement>)
    requires Filling(write) && FilledTable(st.variables)
    ensures var r := TransformFrom(src, write, st, stmts);
      r.Done? ==> FilledTable(r.value.variables)
    decreases |stmts|
  {
    if stmts != [] {
      StatementFilled(src, write, st, stmts[0]);
      var r := Statement(src, write, st, stmts[0]);
      if r.Done? {
        TransformFilled(src, write, r.value, stmts[1..]);
      }
    }
  }

  /** `transform` handles its statements in order and stops at the first
      error: running one more statement is running it on the result of the
      others. */
  lemma {:induction false} TransformSnoc(src: seq<Byte>, write: WriteHandler, st: MirState, stmts: seq<H.HirStatement>, s: H.HirStatement)
    ensures TransformFrom(src, write, st, stmts + [s]) ==
      match TransformFrom(src, write, st, stmts)
      case Done(st1) => Statement(src, write, st1, s)
      case Fail(e) => Fail(e)
      case Panic => Panic
    decreases |stmts|
  {
    if stmts == [] {
      assert stmts + [s] == [s];
      assert [s][1..] == [];
    } else {
      assert (stmts + [s])[0] == stmts[0];
      assert (stmts + [s])[1..] == stmts[1..] + [s];
      var r := Statement(src, write, st, stmts[0]);
      if r.Done? {
        TransformSnoc(src, write, r.value, stmts[1..], s);
      }
    }
  }

  /** `transform_value`. */
  method TransformValue(mir: Mir, v: H.HirValue) returns (r: CResult<MirValue>)
    requires mir.Valid() && !Lower(mir.source, mir.variables, mir.memory.State(), v).Panic?
    modifies mir.memory
    ensures mir.Valid()
    ensures Lift(r, mir.memory.State()) == Lower(mir.source, mir.variables, old(mir.memory.State()), v)
    decreases v, 1
  {
    match v.kind
    case Number(n) =>
      r := Ok(MirValue.Number(n));
    case Bool(b) =>
      r := Ok(MirValue.Bool(b));
    case BitAddress(prefix, ptr, bit) =>
      r := LowerAddress(v.quote, prefix, ptr, bit);
    case Not(x) =>
      var a :- TransformValue(mir, x);
      r := Ok(MirValue.Not(a));
    case And(left, right) =>
      var a :- TransformValue(mir, left);
      var b :- TransformValue(mir, right);
      r := Ok(MirValue.And(a, b));
    case Or(left, right) =>
      var a :- TransformValue(mir, left);
      var b :- TransformValue(mir, right);
      r := Ok(MirValue.Or(a, b));
    case Xor(left, right) =>
      var a :- TransformValue(mir, left);
      var b :- TransformValue(mir, right);
      r := Ok(MirValue.Xor(a, b));
    case VarRef =>
      var index := mir.FindVar(mir.source[v.quote.start..v.quote.end]);
      if index.None? {
        return Err(Error(v.quote, UnknownVariable));
      }
      r := Ok(MirValue.VarRef(index.value));
    case Call(c) =>
      var func := LookupBuiltin(mir.source[c.name.start..c.name.end]);
      if func.None? {
        return Err(Error(c.name, UnknownFunction));
      }
      var args :- TransformValues(mir, c.args, v);
      r := B.Call(mir, func.value, v.quote, args);
  }

  /** `transform_values`. */
  method TransformValues(mir: Mir, values: seq<H.HirValue>, ghost parent: H.HirValue) returns (r: CResult<seq<MirValue>>)
    requires forall i :: 0 <= i < |values| ==> values[i] < parent
    requires mir.Valid() && !LowerArgs(mir.source, mir.variables, mir.memory.State(), values, [], parent).Panic?
    modifies mir.memory
    ensures mir.Valid()
    ensures Lift(r, mir.memory.State()) == LowerArgs(mir.source, mir.variables, old(mir.memory.State()), values, [], parent)
    decreases parent, 0
  {
    var out := [];
    for k := 0 to |values|
      invariant mir.Valid()
      invariant LowerArgs(mir.source, mir.variables, mir.memory.State(), values[k..], out, parent) ==
        LowerArgs(mir.source, mir.variables, old(mir.memory.State()), values, [], parent)
    {
      assert values[k..][0] == values[k] && values[k..][1..] == values[k + 1..];
      var x :- TransformValue(mir, values[k]);
      out := out + [x];
    }
    assert values[|values|..] == [];
    r := Ok(out);
  }

  /** `transform_let`. */
  method TransformLet(mir: Mir, s: H.HirStatement) returns (r: CResult<()>)
    requires s.Let? && mir.Valid() && !LetStatement(mir.source, StateOf(mir), s).Panic?
    modifies mir, mir.memory
    ensures mir.Valid()
    ensures After(r, StateOf(mir)) == LetStatement(mir.source, old(StateOf(mir)), s)
  {
    var v :- TransformValue(mir, s.value);
    mir.variables := mir.variables + [MirVariable(s.name, v)];
    r := Ok(());
  }

  /** `transform_write`. */
  method TransformWrite(mir: Mir, write: WriteHandler, s: H.HirStatement) returns (r: CResult<()>)
    requires s.Write? && mir.Valid() && !WriteStatement(mir.source, write, StateOf(mir), s).Panic?
    modifies mir, mir.memory
    ensures mir.Valid()
    ensures After(r, StateOf(mir)) == WriteStatement(mir.source, write, old(StateOf(mir)), s)
  {
    var index := mir.FindVar(mir.source[s.name.start..s.name.end]);
    if index.None? {
      return Err(Error(s.quote, UnknownVariable));
    }
    var k := index.value;
    var target := mir.variables[k].value;
    var v :- TransformValue(mir, s.value);
    var w :- write(mir.variables, target, s.name, s.value.quote, v);
    mir.actions := mir.actions + w.1;
    mir.variables := mir.variables[k := mir.variables[k].(value := w.0)];
    r := Ok(());
  }

  /** `transform_call`. */
  method TransformCall(mir: Mir, s: H.HirStatement) returns (r: CResult<()>)
    requires s.CallStatement? && mir.Valid() && !CallStatement(mir.source, StateOf(mir), s).Panic?
    modifies mir, mir.memory
    ensures mir.Valid()
    ensures After(r, StateOf(mir)) == CallStatement(mir.source, old(StateOf(mir)), s)
  {
    var func := LookupBuiltin(mir.source[s.name.start..s.name.end]);
    if func.None? {
      return Err(Error(s.name, UnknownFunction));
    }
    var args :- TransformValues(mir, s.args, CallNode(s));
    var value :- B.Call(mir, func.value, s.quote, args);
    if !IsBitReadable(mir.variables, value) {
      return Err(Error(s.quote, ValueNotBitReadable));
    }
    var writer := new W.MirInstructionWriter();
    writer.WriteValue(mir, value, |mir.variables|);
    assert writer.instructions == W.Emit(mir.variables, value, |mir.variables|);
    O.Optimize(writer);
    mir.actions := mir.actions + [Raw(writer.instructions)];
    r := Ok(());
  }

  method TransformStatement(mir: Mir, write: WriteHandler, s: H.HirStatement) returns (r: CResult<()>)
    requires mir.Valid() && !Statement(mir.source, write, StateOf(mir), s).Panic?
    modifies mir, mir.memory
    ensures mir.Valid()
    ensures After(r, StateOf(mir)) == Statement(mir.source, write, old(StateOf(mir)), s)
  {
    match s
    case Let(_, _, _) => r := TransformLet(mir, s);
    case Write(_, _, _) => r := TransformWrite(mir, write, s);
    case CallStatement(_, _, _) => r := TransformCall(mir, s);
  }

  /** `transform`. */
  method Transform(source: seq<Byte>, write: WriteHandler, stmts: seq<H.HirStatement>) returns (r: CResult<Mir>)
    requires !Transformed(source, write, stmts).Panic?
    ensures r.Ok? ==> r.value.source == source && Transformed(source, write, stmts) == Done(StateOf(r.value))
    ensures r.Err? ==> Transformed(source, write, stmts) == Fail(r.error)
  {
    var mir := new Mir(source);
    for k := 0 to |stmts|
      invariant mir.Valid() && mir.source == source && fresh(mir.memory)
      invariant TransformFrom(source, write, StateOf(mir), stmts[k..]) == Transformed(source, write, stmts)
    {
      assert stmts[k..][0] == stmts[k] && stmts[k..][1..] == stmts[k + 1..];
      var _ :- TransformStatement(mir, write, stmts[k]);
    }
    assert stmts[|stmts|..] == [];
    r := Ok(mir);
  }
}
