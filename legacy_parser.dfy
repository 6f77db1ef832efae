/** The older recursive-descent parser (crates/compiler/src/parser.rs),
    reading the byte lexer. It differs from the newer parser:
    - it classifies prefixed addresses into inputs, outputs and other
      addresses through `ParserOptions`;
    - it checks only adjacency, not the range of pointer and bit;
    - it keeps no value for numbers;
    - it treats every statement starting with an identifier as a write.

    As for the newer parser, each routine is a function on a `PState` (here
    the byte position and the buffered token), and the class `Parser`'s
    methods are proved to follow them. */
module LegacyParser {
  import opened Common
  import opened Symbols
  import C = Climbing
  import opened LegacyHir
  import B = ByteLexer

  /** Which prefix characters denote inputs and outputs. */
  datatype ParserOptions = ParserOptions(inputChar: Byte, outputChar: Byte)

  /** German mnemonics: `E` (Eingang) for inputs, `A` (Ausgang) for outputs. */
  const DEFAULT_OPTIONS: ParserOptions := ParserOptions('E' as int, 'A' as int)

  datatype PState = PState(pos: nat, buffer: Q<Symbol>)

  type PResult<T> = CResult<(T, PState)>

  const START: PState := PState(0, Q(Null, Quote(0, 0)))

  /** A range of the source. */
  predicate Within(src: seq<Byte>, q: Quote) {
    q.start <= q.end <= |src|
  }

  /** The lexer position lies in the source, and so does the buffered token. */
  predicate Wf(src: seq<Byte>, s: PState) {
    s.pos <= |src| && Within(src, s.buffer.quote)
  }

  function Rem(src: seq<Byte>, s: PState): nat
    requires Wf(src, s)
  {
    2 * (|src| - s.pos) + (if s.buffer.value == Null then 0 else 1)
  }

  predicate Consumed(src: seq<Byte>, s: PState, t: PState) {
    Wf(src, s) && Wf(src, t) && Rem(src, t) < Rem(src, s)
  }

  /** The number quoted by `q`. The helper of the source that reads it is
      not part of this model and cannot fail here; it is taken to be the
      decimal reading of the quoted bytes. */
  function NumberAt(src: seq<Byte>, q: Quote): nat
    requires Within(src, q)
  {
    DecimalValue(src[q.start..q.end])
  }

  function Next(src: seq<Byte>, s: PState): (r: PResult<()>)
    requires Wf(src, s)
    ensures r.Ok? ==> Wf(src, r.value.1) && Rem(src, r.value.1) <= Rem(src, s)
    ensures r.Ok? && s.buffer.value != Null ==> Consumed(src, s, r.value.1)
    ensures r.Ok? <==> B.NextToken(src, s.pos).0.Ok?
    ensures r.Ok? ==> r.value.1.buffer == B.NextToken(src, s.pos).0.value
  {
    B.TokenBounds(src, s.pos);
    B.TokenProgress(src, s.pos);
    B.NullAtEnd(src, s.pos);
    var (t, n) := B.NextToken(src, s.pos);
    match t
    case Ok(q) => Ok(((), PState(n, q)))
    case Err(e) => Err(e)
  }

  function Expected(src: seq<Byte>, s: PState, value: Symbol): (r: PResult<Quote>)
    requires Wf(src, s)
    ensures s.buffer.value != value ==> r == Err(Error(s.buffer.quote, UnexpectedSymbol))
    ensures r.Ok? ==> s.buffer.value == value && r.value.0 == s.buffer.quote && Within(src, r.value.0)
    ensures r.Ok? ==> Wf(src, r.value.1) && (value != Null ==> Consumed(src, s, r.value.1))
  {
    if s.buffer.value == value then
      var a :- Next(src, s);
      Ok((s.buffer.quote, a.1))
    else
      Err(Error(s.buffer.quote, UnexpectedSymbol))
  }

  /** `parse_address_prefix`: the first byte and the decimal rest of a prefix
      such as `E12`. A prefix shorter than two bytes, or whose rest is not a
      decimal `usize`, is `InvalidAddressSymbol`. (A rest that is not UTF-8
      holds a byte that is no digit, so it fails the same way.) */
  function AddressPrefix(prefix: seq<Byte>, start: nat, end: nat): (r: CResult<(Byte, nat)>)
    ensures r.Ok? <==> |prefix| >= 2 && ParseUsize(prefix[1..]).Some?
    ensures r.Ok? ==> r.value == (prefix[0], DecimalValue(prefix[1..]))
    ensures r.Err? ==> r.error == Error(Quote(start, end), InvalidAddressSymbol)
  {
    if |prefix| < 2 then Err(Error(Quote(start, end), InvalidAddressSymbol))
    else
      match ParseUsize(prefix[1..])
      case None => Err(Error(Quote(start, end), InvalidAddressSymbol))
      case Some(x) => Ok((prefix[0], x))
  }

  /** `read_raw_address`: `5.3`, an address with the NUL prefix character.
      Only adjacency is checked. */
  function RawAddress(src: seq<Byte>, s: PState, qX: Quote): (r: PResult<HirValue>)
    requires Wf(src, s) && Within(src, qX) && s.buffer.value == Punct
    ensures r.Ok? ==> Consumed(src, s, r.value.1)
    ensures r.Ok? ==> var v := r.value.0;
      v.quote.start == qX.start && Adjacent(qX, s.buffer.quote) &&
      v.kind.Address? && v.kind == Address(0, NumberAt(src, qX), v.kind.y)
    ensures Next(src, s).Err? ==> r == Err(Next(src, s).error)
    ensures var a := Next(src, s);
      a.Ok? && Expected(src, a.value.1, Symbol.Number).Ok? ==>
        var qY := a.value.1.buffer.quote;
        (r.Ok? <==> Adjacent(qX, s.buffer.quote) && Adjacent(s.buffer.quote, qY)) &&
        (r.Ok? ==> r.value.0 == HirValue(Quote(qX.start, qY.end), Address(0, NumberAt(src, qX), NumberAt(src, qY)))) &&
        (r.Err? ==> r.error == Error(Quote(qX.start, qY.end), InvalidAddressSymbol))
  {
    var start := qX.start;
    var x := NumberAt(src, qX);
    var punct := s.buffer.quote;
    var a :- Next(src, s);
    var b :- Expected(src, a.1, Symbol.Number);
    var qY := b.0;
    var y := NumberAt(src, qY);
    var end := qY.end;
    if !Adjacent(qX, punct) || !Adjacent(punct, qY) then
      Err(Error(Quote(start, end), InvalidAddressSymbol))
    else
      Ok((HirValue(Quote(start, end), Address(0, x, y)), b.1))
  }

  /** How a prefix character classifies an address. */
  function Classify(opts: ParserOptions, prefix: Byte, x: nat, y: nat): (k: HirValueType)
    ensures prefix == opts.inputChar ==> k == Input(x, y)
    ensures prefix != opts.inputChar && prefix == opts.outputChar ==> k == Output(x, y)
    ensures prefix != opts.inputChar && prefix != opts.outputChar ==> k == Address(prefix, x, y)
  {
    if opts.inputChar == prefix then Input(x, y)
    else if opts.outputChar == prefix then Output(x, y)
    else Address(prefix, x, y)
  }

  /** `read_prefixed_address`: `E0.5`. */
  function PrefixedAddress(src: seq<Byte>, s: PState, opts: ParserOptions, prefix: Quote): (r: PResult<HirValue>)
    requires Wf(src, s) && Within(src, prefix)
    ensures r.Ok? ==> Consumed(src, s, r.value.1)
    ensures r.Ok? ==> var v := r.value.0;
      v.quote.start == prefix.start && Adjacent(prefix, s.buffer.quote) &&
      AddressPrefix(src[prefix.start..prefix.end], v.quote.start, v.quote.end).Ok? &&
      var (c, x) := AddressPrefix(src[prefix.start..prefix.end], v.quote.start, v.quote.end).value;
      (v.kind.Input? || v.kind.Output? || v.kind.Address?) && v.kind == Classify(opts, c, x, v.kind.y)
    ensures Expected(src, s, Punct).Err? ==> r == Err(Expected(src, s, Punct).error)
    ensures var a := Expected(src, s, Punct);
      a.Ok? && Expected(src, a.value.1, Symbol.Number).Ok? ==>
        var qY := a.value.1.buffer.quote;
        var cx := AddressPrefix(src[prefix.start..prefix.end], prefix.start, qY.end);
        (r.Ok? <==> Adjacent(prefix, s.buffer.quote) && Adjacent(s.buffer.quote, qY) && cx.Ok?) &&
        (r.Ok? ==> r.value.0 == HirValue(Quote(prefix.start, qY.end), Classify(opts, cx.value.0, cx.value.1, NumberAt(src, qY)))) &&
        (r.Err? ==> r.error == Error(Quote(prefix.start, qY.end), InvalidAddressSymbol))
  {
    var start := prefix.start;
    var a :- Expected(src, s, Punct);
    var punct := a.0;
    var b :- Expected(src, a.1, Symbol.Number);
    var qY := b.0;
    var y := NumberAt(src, qY);
    var end := qY.end;
    if !Adjacent(prefix, punct) || !Adjacent(punct, qY) then
      Err(Error(Quote(start, end), InvalidAddressSymbol))
    else
      var cx :- AddressPrefix(src[prefix.start..prefix.end], start, end);
      Ok((HirValue(Quote(start, end), Classify(opts, cx.0, cx.1, y)), b.1))
  }

  function ApplyUnary(op: Q<Symbol>, value: HirValue): (r: HirValue)
    requires IsUnaryOp(op.value)
    ensures r.kind == HirValueType.Not(value) && r.quote == Quote(op.quote.start, value.quote.end)
  {
    HirValue(Quote(op.quote.start, value.quote.end), HirValueType.Not(value))
  }

  function ApplyBinary(op: Q<Symbol>, left: HirValue, right: HirValue): (r: HirValue)
    requires IsBinaryOp(op.value)
    ensures r.kind == HirValueType.And(left, right) && r.quote == Quote(left.quote.start, right.quote.end)
  {
    var quote := Quote(left.quote.start, right.quote.end);
    match op.value
    case And => HirValue(quote, HirValueType.And(left, right))
    case Or => HirValue(quote, HirValueType.And(left, right))
    case Xor => HirValue(quote, HirValueType.And(left, right))
  }

  /** The loop of `read_call`. */
  function Args(src: seq<Byte>, s: PState, opts: ParserOptions, args: seq<HirValue>): (r: PResult<seq<HirValue>>)
    requires Wf(src, s)
    ensures r.Ok? ==> Wf(src, r.value.1) && Rem(src, r.value.1) <= Rem(src, s)
    ensures r.Ok? ==> |r.value.0| >= |args| && r.value.0[..|args|] == args
    ensures r.Ok? && (forall i :: 0 <= i < |args| ==> OnlyAnd(args[i])) ==>
      forall i :: 0 <= i < |r.value.0| ==> OnlyAnd(r.value.0[i])
    decreases Rem(src, s), 3
  {
    if s.buffer.value == RightParen then Ok((args, s))
    else
      var v :- Value(src, s, opts);
      if v.1.buffer.value != Comma then Ok((args + [v.0], v.1))
      else
        var a :- Next(src, v.1);
        Args(src, a.1, opts, args + [v.0])
  }

  /** `read_call`: `name(args, ...)` as a value. */
  function CallValue(src: seq<Byte>, s: PState, opts: ParserOptions, name: Quote): (r: PResult<HirValue>)
    requires Wf(src, s)
    ensures r.Ok? ==> Consumed(src, s, r.value.1) && OnlyAnd(r.value.0)
    ensures r.Ok? ==> r.value.0.kind.Call? && r.value.0.kind.name == name && r.value.0.quote.start == name.start
    ensures s.buffer.value != LeftParen ==> r == Err(Error(s.buffer.quote, UnexpectedSymbol))
    decreases Rem(src, s), 4
  {
    var start := name.start;
    var lp :- Expected(src, s, LeftParen);
    var a :- Args(src, lp.1, opts, []);
    var rp :- Expected(src, a.1, RightParen);
    Ok((HirValue(Quote(start, rp.0.end), Call(name, a.0)), rp.1))
  }

  /** `read_unary_value`. */
  function UnaryValue(src: seq<Byte>, s: PState, opts: ParserOptions): (r: PResult<HirValue>)
    requires Wf(src, s)
    ensures r.Ok? ==> Consumed(src, s, r.value.1) && OnlyAnd(r.value.0)
    ensures s.buffer.value !in {Symbol.Not, LeftParen, True, False, Symbol.Number, Identifier} ==>
      r == Err(Error(s.buffer.quote, InvalidUnaryOperation))
    decreases Rem(src, s), 1
  {
    var symbol := s.buffer;
    if IsUnaryOp(symbol.value) then
      var a :- Next(src, s);
      var v :- UnaryValue(src, a.1, opts);
      Ok((ApplyUnary(symbol, v.0), v.1))
    else
      match symbol.value
      case LeftParen =>
        var a :- Next(src, s);
        var v :- Value(src, a.1, opts);
        var rp :- Expected(src, v.1, RightParen);
        Ok((v.0, rp.1))
      case True =>
        var a :- Next(src, s);
        Ok((HirValue(symbol.quote, Bool(true)), a.1))
      case False =>
        var a :- Next(src, s);
        Ok((HirValue(symbol.quote, Bool(false)), a.1))
      case Number =>
        var a :- Next(src, s);
        if a.1.buffer.value == Punct then RawAddress(src, a.1, symbol.quote)
        else Ok((HirValue(symbol.quote, HirValueType.Number), a.1))
      case Identifier =>
        var a :- Next(src, s);
        if a.1.buffer.value == Punct then PrefixedAddress(src, a.1, opts, symbol.quote)
        else if a.1.buffer.value == LeftParen then CallValue(src, a.1, opts, symbol.quote)
        else Ok((HirValue(symbol.quote, Variable), a.1))
      case _ => Err(Error(symbol.quote, InvalidUnaryOperation))
  }

  /** `read_binary_value`: precedence climbing. */
  function BinaryValue(src: seq<Byte>, s: PState, opts: ParserOptions, left: HirValue): (r: PResult<HirValue>)
    requires Wf(src, s) && IsBinaryOp(s.buffer.value)
    ensures r.Ok? ==> Consumed(src, s, r.value.1)
    ensures r.Ok? ==> !IsBinaryOp(r.value.1.buffer.value)
    ensures r.Ok? ==> r.value.0.quote.start == left.quote.start && r.value.0.kind.And?
    ensures r.Ok? && OnlyAnd(left) ==> OnlyAnd(r.value.0)
    decreases Rem(src, s), 0
  {
    var op := s.buffer;
    var a :- Next(src, s);
    var rv :- UnaryValue(src, a.1, opts);
    var right := rv.0;
    if !IsBinaryOp(rv.1.buffer.value) then
      Ok((ApplyBinary(op, left, right), rv.1))
    else if Precedence(op.value) < Precedence(rv.1.buffer.value) then
      var rr :- BinaryValue(src, rv.1, opts, right);
      Ok((ApplyBinary(op, left, rr.0), rr.1))
    else
      BinaryValue(src, rv.1, opts, ApplyBinary(op, left, right))
  }

  /** The chain `read_binary_value` reads: each binary operator with the
      operand after it, up to the first token that is no binary operator. */
  function Chain(src: seq<Byte>, s: PState, opts: ParserOptions): (r: PResult<seq<C.Step<HirValue>>>)
    requires Wf(src, s) && IsBinaryOp(s.buffer.value)
    ensures r.Ok? ==> |r.value.0| > 0 && C.BinarySteps(r.value.0) && r.value.0[0].op == s.buffer
    decreases Rem(src, s)
  {
    var op := s.buffer;
    var a :- Next(src, s);
    var rv :- UnaryValue(src, a.1, opts);
    if !IsBinaryOp(rv.1.buffer.value) then Ok(([C.Step(op, rv.0)], rv.1))
    else
      var rest :- Chain(src, rv.1, opts);
      Ok(([C.Step(op, rv.0)] + rest.0, rest.1))
  }

  /** The value a tree of operator applications stands for. */
  function Render(e: C.Expr<HirValue>): HirValue
    requires C.BinaryTree(e)
  {
    match e
    case Leaf(v) => v
    case Bin(op, l, r) => ApplyBinary(op, Render(l), Render(r))
  }

  /** `read_binary_value` builds the tree `Climb` builds from the chain it
      reads, and fails with the chain's first error. */
  lemma {:induction false} BinaryClimbs(src: seq<Byte>, s: PState, opts: ParserOptions, acc: C.Expr<HirValue>)
    requires Wf(src, s) && IsBinaryOp(s.buffer.value) && C.BinaryTree(acc)
    ensures var r := BinaryValue(src, s, opts, Render(acc));
      var c := Chain(src, s, opts);
      (r.Ok? <==> c.Ok?) && (r.Err? ==> r.error == c.error) &&
      (r.Ok? ==> C.BinaryTree(C.Climb(acc, c.value.0)) && r.value == (Render(C.Climb(acc, c.value.0)), c.value.1))
    decreases Rem(src, s)
  {
    var op := s.buffer;
    var a := Next(src, s);
    if a.Ok? {
      var rv := UnaryValue(src, a.value.1, opts);
      if rv.Ok? && IsBinaryOp(rv.value.1.buffer.value) {
        var right := C.Leaf(rv.value.0);
        var rest := Chain(src, rv.value.1, opts);
        if Precedence(op.value) < Precedence(rv.value.1.buffer.value) {
          BinaryClimbs(src, rv.value.1, opts, right);
          if rest.Ok? {
            assert ([C.Step(op, rv.value.0)] + rest.value.0)[1..] == rest.value.0;
          }
        } else {
          var acc' := C.Bin(op, acc, right);
          BinaryClimbs(src, rv.value.1, opts, acc');
          if rest.Ok? {
            assert ([C.Step(op, rv.value.0)] + rest.value.0)[1..] == rest.value.0;
          }
        }
      }
    }
  }

  /** `read_value`: an operand alone, or the tree climbed from it over the
      chain that follows. */
  lemma ValueClimbs(src: seq<Byte>, s: PState, opts: ParserOptions)
    requires Wf(src, s)
    ensures var u := UnaryValue(src, s, opts);
      u.Ok? && IsBinaryOp(u.value.1.buffer.value) ==>
        var c := Chain(src, u.value.1, opts);
        (Value(src, s, opts).Ok? <==> c.Ok?) &&
        (c.Err? ==> Value(src, s, opts).error == c.error) &&
        (c.Ok? ==>
          C.BinaryTree(C.Climb(C.Leaf(u.value.0), c.value.0)) &&
          Value(src, s, opts).value == (Render(C.Climb(C.Leaf(u.value.0), c.value.0)), c.value.1))
  {
    var u := UnaryValue(src, s, opts);
    if u.Ok? && IsBinaryOp(u.value.1.buffer.value) {
      BinaryClimbs(src, u.value.1, opts, C.Leaf(u.value.0));
    }
  }

  /** `read_value`. */
  function Value(src: seq<Byte>, s: PState, opts: ParserOptions): (r: PResult<HirValue>)
    requires Wf(src, s)
    ensures r.Ok? ==> Consumed(src, s, r.value.1) && OnlyAnd(r.value.0)
    ensures r.Ok? ==> !IsBinaryOp(r.value.1.buffer.value)
    decreases Rem(src, s), 2
  {
    var l :- UnaryValue(src, s, opts);
    if !IsBinaryOp(l.1.buffer.value) then Ok(l)
    else BinaryValue(src, l.1, opts, l.0)
  }

  /** `read_let`: `let name = value;`. */
  function LetStatement(src: seq<Byte>, s: PState, opts: ParserOptions): (r: PResult<HirStatement>)
    requires Wf(src, s)
    ensures r.Ok? ==> Consumed(src, s, r.value.1)
    ensures r.Ok? ==> r.value.0.Let? && r.value.0.quote.start == s.buffer.quote.start
  {
    var start := s.buffer.quote.start;
    var kw :- Expected(src, s, Symbol.Let);
    var a :- Assignment(src, kw.1, opts);
    Ok((HirStatement.Let(Quote(start, a.0.2), a.0.0, a.0.1), a.1))
  }

  /** `name = value;`, shared by `let` and writes: the name's quote, the
      value and the end of the semicolon. */
  function Assignment(src: seq<Byte>, s: PState, opts: ParserOptions): (r: PResult<(Quote, HirValue, nat)>)
    requires Wf(src, s)
    ensures r.Ok? ==> Consumed(src, s, r.value.1) && r.value.0.0 == s.buffer.quote
    ensures s.buffer.value != Identifier ==> r == Err(Error(s.buffer.quote, UnexpectedSymbol))
  {
    var name :- Expected(src, s, Identifier);
    var eq :- Expected(src, name.1, Equal);
    var v :- Value(src, eq.1, opts);
    var semi :- Expected(src, v.1, Semicolon);
    Ok(((name.0, v.0, semi.0.end), semi.1))
  }

  /** `read_write`: `name = value;`, the span starting at the buffered
      token. */
  function WriteStatement(src: seq<Byte>, s: PState, opts: ParserOptions): (r: PResult<HirStatement>)
    requires Wf(src, s)
    ensures r.Ok? ==> Consumed(src, s, r.value.1)
    ensures r.Ok? ==>
      r.value.0.Write? && r.value.0.name == s.buffer.quote && r.value.0.quote.start == s.buffer.quote.start
    ensures s.buffer.value != Identifier ==> r == Err(Error(s.buffer.quote, UnexpectedSymbol))
  {
    var start := s.buffer.quote.start;
    var a :- Assignment(src, s, opts);
    Ok((Write(Quote(start, a.0.2), a.0.0, a.0.1), a.1))
  }

  /** The loop of `parse`. */
  function Statements(src: seq<Byte>, s: PState, opts: ParserOptions, acc: seq<HirStatement>): (r: CResult<seq<HirStatement>>)
    requires Wf(src, s)
    ensures s.buffer.value == Null ==> r == Ok(acc)
    ensures s.buffer.value != Null && s.buffer.value != Symbol.Let && s.buffer.value != Identifier ==>
      r == Err(Error(s.buffer.quote, UnexpectedSymbol))
    decreases Rem(src, s)
  {
    if s.buffer.value == Null then Ok(acc)
    else if s.buffer.value == Symbol.Let then
      var st :- LetStatement(src, s, opts);
      Statements(src, st.1, opts, acc + [st.0])
    else if s.buffer.value == Identifier then
      var st :- WriteStatement(src, s, opts);
      Statements(src, st.1, opts, acc + [st.0])
    else Err(Error(s.buffer.quote, UnexpectedSymbol))
  }

  function ParseFrom(src: seq<Byte>, s: PState, opts: ParserOptions): CResult<seq<HirStatement>>
    requires Wf(src, s)
  {
    var a :- Next(src, s);
    Statements(src, a.1, opts, [])
  }

  function Parse(src: seq<Byte>, opts: ParserOptions): CResult<seq<HirStatement>>
  {
    ParseFrom(src, START, opts)
  }

  class Parser {
    const source: seq<Byte>
    const lexer: B.Lexer
    const opts: ParserOptions
    var buffer: Q<Symbol>

    ghost predicate Valid()
      reads this, lexer
    {
      lexer.Valid() && lexer.source == source && Within(source, buffer.quote)
    }

    function State(): PState
      reads this, lexer
    {
      PState(lexer.index, buffer)
    }

    constructor (source: seq<Byte>, opts: ParserOptions)
      requires B.NoNul(source)
      ensures Valid() && this.source == source && this.opts == opts && State() == START && fresh(lexer)
    {
      this.source := source;
      lexer := new B.Lexer(source);
      this.opts := opts;
      buffer := Q(Null, Quote(0, 0));
    }

    method Advance() returns (r: CResult<()>)
      requires Valid()
      modifies this, lexer
      ensures Valid() && Pack(r, State()) == Next(source, old(State()))
    {
      var t :- lexer.ReadSymbol();
      B.TokenBounds(source, old(lexer.index));
      buffer := t;
      r := Ok(());
    }

    method Expect(value: Symbol) returns (r: CResult<Quote>)
      requires Valid()
      modifies this, lexer
      ensures Valid() && Pack(r, State()) == Expected(source, old(State()), value)
      ensures old(buffer.value) != value ==> unchanged(this, lexer)
    {
      if buffer.value == value {
        var quote := buffer.quote;
        var a :- Advance();
        return Ok(quote);
      }
      r := Err(Error(buffer.quote, UnexpectedSymbol));
    }

    method ReadRawAddress(qX: Quote) returns (r: CResult<HirValue>)
      requires Valid() && Within(source, qX) && buffer.value == Punct
      modifies this, lexer
      ensures Valid() && Pack(r, State()) == RawAddress(source, old(State()), qX)
    {
      var start := qX.start;
      var x := NumberAt(source, qX);
      var punct := buffer.quote;
      var a :- Advance();
      var qY :- Expect(Symbol.Number);
      var y := NumberAt(source, qY);
      var end := qY.end;
      if !Adjacent(qX, punct) || !Adjacent(punct, qY) {
        return Err(Error(Quote(start, end), InvalidAddressSymbol));
      }
      r := Ok(HirValue(Quote(start, end), Address(0, x, y)));
    }

    method ReadPrefixedAddress(prefix: Quote) returns (r: CResult<HirValue>)
      requires Valid() && Within(source, prefix)
      modifies this, lexer
      ensures Valid() && Pack(r, State()) == PrefixedAddress(source, old(State()), opts, prefix)
    {
      var start := prefix.start;
      var punct :- Expect(Punct);
      var qY :- Expect(Symbol.Number);
      var y := NumberAt(source, qY);
      var end := qY.end;
      if !Adjacent(prefix, punct) || !Adjacent(punct, qY) {
        return Err(Error(Quote(start, end), InvalidAddressSymbol));
      }
      var cx :- AddressPrefix(source[prefix.start..prefix.end], start, end);
      var c, x := cx.0, cx.1;
      var quote := Quote(start, end);
      if opts.inputChar == c {
        return Ok(HirValue(quote, Input(x, y)));
      }
      if opts.outputChar == c {
        return Ok(HirValue(quote, Output(x, y)));
      }
      r := Ok(HirValue(quote, Address(c, x, y)));
    }

    method ReadCall(name: Quote) returns (r: CResult<HirValue>)
      requires Valid()
      modifies this, lexer
      ensures Valid() && Pack(r, State()) == CallValue(source, old(State()), opts, name)
      decreases Rem(source, State()), 4
    {
      var start := name.start;
      var lp :- Expect(LeftParen);
      ghost var s1 := State();
      var args: seq<HirValue> := [];
      while buffer.value != RightParen
        invariant Valid()
        invariant Args(source, State(), opts, args) == Args(source, s1, opts, [])
        invariant Rem(source, State()) <= Rem(source, s1)
        decreases Rem(source, State())
      {
        var v :- ReadValue();
        args := args + [v];
        if buffer.value != Comma {
          break;
        }
        var a :- Advance();
      }
      var rp :- Expect(RightParen);
      r := Ok(HirValue(Quote(start, rp.end), Call(name, args)));
    }

    method ReadUnaryValue() returns (r: CResult<HirValue>)
      requires Valid()
      modifies this, lexer
      ensures Valid() && Pack(r, State()) == UnaryValue(source, old(State()), opts)
      decreases Rem(source, State()), 1
    {
      var symbol := buffer;
      if IsUnaryOp(symbol.value) {
        var a :- Advance();
        var v :- ReadUnaryValue();
        return Ok(ApplyUnary(symbol, v));
      }
      match symbol.value {
        case LeftParen =>
          var a :- Advance();
          var value :- ReadValue();
          var rp :- Expect(RightParen);
          r := Ok(value);
        case True =>
          var a :- Advance();
          r := Ok(HirValue(symbol.quote, Bool(true)));
        case False =>
          var a :- Advance();
          r := Ok(HirValue(symbol.quote, Bool(false)));
        case Number =>
          var a :- Advance();
          if buffer.value == Punct {
            r := ReadRawAddress(symbol.quote);
            return;
          }
          r := Ok(HirValue(symbol.quote, HirValueType.Number));
        case Identifier =>
          var a :- Advance();
          if buffer.value == Punct {
            r := ReadPrefixedAddress(symbol.quote);
          } else if buffer.value == LeftParen {
            r := ReadCall(symbol.quote);
          } else {
            r := Ok(HirValue(symbol.quote, Variable));
          }
        case _ =>
          r := Err(Error(symbol.quote, InvalidUnaryOperation));
      }
    }

    method ReadBinaryValue(left: HirValue) returns (r: CResult<HirValue>)
      requires Valid() && IsBinaryOp(buffer.value)
      modifies this, lexer
      ensures Valid() && Pack(r, State()) == BinaryValue(source, old(State()), opts, left)
      decreases Rem(source, State()), 0
    {
      var op := buffer;
      var a :- Advance();
      var right :- ReadUnaryValue();
      if !IsBinaryOp(buffer.value) {
        return Ok(ApplyBinary(op, left, right));
      }
      if Precedence(op.value) < Precedence(buffer.value) {
        var rr :- ReadBinaryValue(right);
        return Ok(ApplyBinary(op, left, rr));
      }
      r := ReadBinaryValue(ApplyBinary(op, left, right));
    }

    method ReadValue() returns (r: CResult<HirValue>)
      requires Valid()
      modifies this, lexer
      ensures Valid() && Pack(r, State()) == Value(source, old(State()), opts)
      decreases Rem(source, State()), 2
    {
      var left :- ReadUnaryValue();
      if !IsBinaryOp(buffer.value) {
        return Ok(left);
      }
      r := ReadBinaryValue(left);
    }

    method ReadLet() returns (r: CResult<HirStatement>)
      requires Valid()
      modifies this, lexer
      ensures Valid() && Pack(r, State()) == LetStatement(source, old(State()), opts)
    {
      var kw :- Expect(Symbol.Let);
      var name :- Expect(Identifier);
      var eq :- Expect(Equal);
      var value :- ReadValue();
      var semi :- Expect(Semicolon);
      r := Ok(HirStatement.Let(Quote(kw.start, semi.end), name, value));
    }

    method ReadWrite() returns (r: CResult<HirStatement>)
      requires Valid()
      modifies this, lexer
      ensures Valid() && Pack(r, State()) == WriteStatement(source, old(State()), opts)
    {
      var start := buffer.quote.start;
      var name :- Expect(Identifier);
      var eq :- Expect(Equal);
      var value :- ReadValue();
      var semi :- Expect(Semicolon);
      r := Ok(Write(Quote(start, semi.end), name, value));
    }

    method Parse() returns (r: CResult<seq<HirStatement>>)
      requires Valid()
      modifies this, lexer
      ensures Valid() && r == ParseFrom(source, old(State()), opts)
    {
      var statements: seq<HirStatement> := [];
      var a :- Advance();
      ghost var s1 := State();
      while buffer.value != Null
        invariant Valid()
        invariant Statements(source, State(), opts, statements) == Statements(source, s1, opts, [])
        decreases Rem(source, State())
      {
        var statement: HirStatement;
        if buffer.value == Symbol.Let {
          statement :- ReadLet();
        } else if buffer.value == Identifier {
          statement :- ReadWrite();
        } else {
          return Err(Error(buffer.quote, UnexpectedSymbol));
        }
        statements := statements + [statement];
      }
      r := Ok(statements);
    }
  }

  /** A parenthesised expression is the inner value itself, with the inner
      span: the parentheses are not part of any node. */
  lemma Parenthesised(src: seq<Byte>, s: PState, opts: ParserOptions, t: PState, v: HirValue, u: PState)
    requires Wf(src, s) && s.buffer.value == LeftParen
    requires Next(src, s) == Ok(((), t)) && Value(src, t, opts) == Ok((v, u))
    requires u.buffer.value == RightParen && Next(src, u).Ok?
    ensures UnaryValue(src, s, opts) == Ok((v, Next(src, u).value.1))
  {
  }

  /** Pointer and bit are not range-checked: once the three tokens touch and
      the prefix is a character and a decimal, any bit index is accepted. */
  lemma NoRangeCheck(src: seq<Byte>, s: PState, opts: ParserOptions, prefix: Quote)
    requires Wf(src, s) && Within(src, prefix)
    requires Expected(src, s, Punct).Ok?
    requires var a := Expected(src, s, Punct).value;
      Expected(src, a.1, Symbol.Number).Ok? &&
      var b := Expected(src, a.1, Symbol.Number).value;
      Adjacent(prefix, a.0) && Adjacent(a.0, b.0) &&
      AddressPrefix(src[prefix.start..prefix.end], prefix.start, b.0.end).Ok?
    ensures var r := PrefixedAddress(src, s, opts, prefix);
      var b := Expected(src, Expected(src, s, Punct).value.1, Symbol.Number).value;
      r.Ok? && r.value.0.quote == Quote(prefix.start, b.0.end) &&
      (r.value.0.kind.Input? || r.value.0.kind.Output? || r.value.0.kind.Address?) &&
      NumberAt(src, b.0) == (match r.value.0.kind
        case Input(_, y) => y
        case Output(_, y) => y
        case Address(_, _, y) => y
        case _ => 0)
  {
  }
}
