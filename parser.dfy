/** The recursive-descent parser of crates/compiler/src/parser/mod.rs. It
    keeps one token of lookahead (`buffer`) in front of the character lexer.

    The functions specify each parsing routine on a `PState`: the lexer's
    position and the buffered token. Each returns the parsed value together
    with the state after it, or the first error. The class `Parser` is the
    stateful parser of the source, and each of its methods is proved to
    follow the function of the same routine. */
module HirParser {
  import opened Common
  import opened Symbols
  import C = Climbing
  import opened Hir
  import L = CharLexer

  /** Lexer position (in characters) and the token in the buffer. */
  datatype PState = PState(pos: nat, buffer: Q<Symbol>)

  type PResult<T> = CResult<(T, PState)>

  /** The state a fresh parser starts from: `Null` at offset 0. */
  const START: PState := PState(0, Q(Null, Quote(0, 0)))

  predicate Wf(src: string, s: PState) {
    s.pos <= |src|
  }

  /** Input still to be consumed: two per character, one more while the
      buffer holds a real token. */
  function Rem(src: string, s: PState): nat
    requires Wf(src, s)
  {
    2 * (|src| - s.pos) + (if s.buffer.value == Null then 0 else 1)
  }

  /** `t` is a state after `s` that has consumed at least one token. */
  predicate Consumed(src: string, s: PState, t: PState) {
    Wf(src, s) && Wf(src, t) && Rem(src, t) < Rem(src, s)
  }

  /** The characters whose UTF-8 bytes lie inside the byte range `q`. */
  function Slice(src: string, q: Quote): string {
    CharsFrom(src, 0, q)
  }

  function CharsFrom(src: string, p: nat, q: Quote): string
    requires p <= |src|
    decreases |src| - p
  {
    if p == |src| then []
    else
      (if q.start <= L.Offset(src, p) && L.Offset(src, p + 1) <= q.end then [src[p]] else [])
      + CharsFrom(src, p + 1, q)
  }

  /** The value of the number quoted by `q`; the helper of the source that
      does this is not part of this model, so it is taken to be the decimal
      reading of the quoted text, failing as `InvalidNumber` when that text
      does not fit a `usize`. */
  function ParseNumber(src: string, q: Quote): (r: CResult<nat>)
    ensures r.Ok? ==> r.value <= USIZE_MAX
    ensures r.Err? ==> r.error == Error(q, InvalidNumber)
  {
    match ParseUsize(L.Codes(Slice(src, q)))
    case Some(v) => Ok(v)
    case None => Err(Error(q, InvalidNumber))
  }

  /** `advance`: read the next token into the buffer. */
  function Next(src: string, s: PState): (r: PResult<()>)
    requires Wf(src, s)
    ensures r.Ok? ==> Wf(src, r.value.1) && Rem(src, r.value.1) <= Rem(src, s)
    ensures r.Ok? && s.buffer.value != Null ==> Consumed(src, s, r.value.1)
    ensures r.Ok? <==> L.NextToken(src, s.pos).0.Ok?
    ensures r.Ok? ==> r.value.1.buffer == L.NextToken(src, s.pos).0.value
  {
    L.TokenBounds(src, s.pos);
    L.TokenProgress(src, s.pos);
    L.NullAtEnd(src, s.pos);
    var (t, n) := L.NextToken(src, s.pos);
    match t
    case Ok(q) => Ok(((), PState(n, q)))
    case Err(e) => Err(e)
  }

  /** `expect`: the buffered token's span, provided the token is `value`;
      otherwise `UnexpectedSymbol` at the buffered token. */
  function Expected(src: string, s: PState, value: Symbol): (r: PResult<Quote>)
    requires Wf(src, s)
    ensures s.buffer.value != value ==> r == Err(Error(s.buffer.quote, UnexpectedSymbol))
    ensures r.Ok? ==> s.buffer.value == value && r.value.0 == s.buffer.quote
    ensures r.Ok? ==> Wf(src, r.value.1) && (value != Null ==> Consumed(src, s, r.value.1))
    ensures s.buffer.value == value ==> (r.Ok? <==> Next(src, s).Ok?)
  {
    if s.buffer.value == value then
      var a :- Next(src, s);
      Ok((s.buffer.quote, a.1))
    else
      Err(Error(s.buffer.quote, UnexpectedSymbol))
  }

  /** `parse_address_prefix`: split an address prefix such as `E12` into its
      character and its pointer. The text must be at least two bytes long,
      its first character must be one byte (so that the rest starts on a
      character boundary) and the rest must be a decimal `usize`. */
  function AddressPrefix(prefix: string, start: nat, end: nat): (r: CResult<(Byte, nat)>)
    ensures r.Err? ==> r.error == Error(Quote(start, end), InvalidBitAddressSymbol)
    ensures r.Ok? <==> |prefix| >= 2 && (prefix[0] as int) < 0x80 && ParseUsize(L.Codes(prefix[1..])).Some?
    ensures r.Ok? ==>
      |prefix| >= 2 && (prefix[0] as int) < 0x80 &&
      r.value == (prefix[0] as int, DecimalValue(L.Codes(prefix[1..]))) &&
      IsDigitString(L.Codes(prefix[1..])) && r.value.1 <= USIZE_MAX
  {
    var err := Err(Error(Quote(start, end), InvalidBitAddressSymbol));
    if L.Offset(prefix, |prefix|) < 2 then err
    else if L.Utf8Len(prefix[0]) != 1 then err
    else
      match ParseUsize(L.Codes(prefix[1..]))
      case None => err
      case Some(x) =>
        Ok(((prefix[0] as int) % 256, x))
  }

  /** `read_raw_address`, entered with `.` in the buffer after the number
      quoted by `qPtr`: `5.3` is a bit address without prefix character. */
  function RawAddress(src: string, s: PState, qPtr: Quote): (r: PResult<HirValue>)
    requires Wf(src, s) && s.buffer.value == Punct
    ensures r.Ok? ==> Consumed(src, s, r.value.1)
    ensures r.Ok? ==> var v := r.value.0;
      v.quote.start == qPtr.start && Adjacent(qPtr, s.buffer.quote) &&
      v.kind.BitAddress? && v.kind.prefix == 0 && v.kind.ptr <= U16_MAX && v.kind.bit <= 7 &&
      ParseNumber(src, qPtr) == Ok(v.kind.ptr)
    ensures ParseNumber(src, qPtr).Err? ==> r == Err(ParseNumber(src, qPtr).error)
    ensures var a := Next(src, s);
      ParseNumber(src, qPtr).Ok? && a.Ok? && a.value.1.buffer.value == Symbol.Number &&
      Next(src, a.value.1).Ok? && ParseNumber(src, a.value.1.buffer.quote).Ok? ==>
        var qBit := a.value.1.buffer.quote;
        var ptr, bit := ParseNumber(src, qPtr).value, ParseNumber(src, qBit).value;
        (r.Ok? <==> Adjacent(qPtr, s.buffer.quote) && Adjacent(s.buffer.quote, qBit) && ptr <= U16_MAX && bit <= 7) &&
        (r.Ok? ==> r.value.0 == HirValue(Quote(qPtr.start, qBit.end), BitAddress(0, ptr, bit))) &&
        (r.Err? ==> r.error == Error(Quote(qPtr.start, qBit.end), InvalidBitAddressSymbol))
  {
    var start := qPtr.start;
    var ptr :- ParseNumber(src, qPtr);
    var punct := s.buffer.quote;
    var a :- Next(src, s);
    var b :- Expected(src, a.1, Symbol.Number);
    var qBit := b.0;
    var bit :- ParseNumber(src, qBit);
    var end := qBit.end;
    if !Adjacent(qPtr, punct) || !Adjacent(punct, qBit) || ptr > U16_MAX || bit > 7 then
      Err(Error(Quote(start, end), InvalidBitAddressSymbol))
    else
      Ok((HirValue(Quote(start, end), BitAddress(0, ptr, bit)), b.1))
  }

  /** `read_prefixed_address`, entered with the token after the identifier
      quoted by `prefix` in the buffer: `E0.5`. */
  function PrefixedAddress(src: string, s: PState, prefix: Quote): (r: PResult<HirValue>)
    requires Wf(src, s)
    ensures r.Ok? ==> Consumed(src, s, r.value.1)
    ensures r.Ok? ==> var v := r.value.0;
      v.quote.start == prefix.start && Adjacent(prefix, s.buffer.quote) &&
      v.kind.BitAddress? && v.kind.ptr <= U16_MAX && v.kind.bit <= 7 &&
      AddressPrefix(Slice(src, prefix), v.quote.start, v.quote.end) == Ok((v.kind.prefix, v.kind.ptr))
    ensures Expected(src, s, Punct).Err? ==> r == Err(Expected(src, s, Punct).error)
    ensures var a := Expected(src, s, Punct);
      a.Ok? && a.value.1.buffer.value == Symbol.Number &&
      Next(src, a.value.1).Ok? && ParseNumber(src, a.value.1.buffer.quote).Ok? ==>
        var qBit := a.value.1.buffer.quote;
        var bit := ParseNumber(src, qBit).value;
        var cp := AddressPrefix(Slice(src, prefix), prefix.start, qBit.end);
        (r.Ok? <==>
          Adjacent(prefix, s.buffer.quote) && Adjacent(s.buffer.quote, qBit) && bit <= 7 &&
          cp.Ok? && cp.value.1 <= U16_MAX) &&
        (r.Ok? ==> r.value.0 == HirValue(Quote(prefix.start, qBit.end), BitAddress(cp.value.0, cp.value.1, bit))) &&
        (r.Err? ==> r.error == Error(Quote(prefix.start, qBit.end), InvalidBitAddressSymbol))
  {
    var start := prefix.start;
    var a :- Expected(src, s, Punct);
    var punct := a.0;
    var b :- Expected(src, a.1, Symbol.Number);
    var qBit := b.0;
    var bit :- ParseNumber(src, qBit);
    var end := qBit.end;
    if !Adjacent(prefix, punct) || !Adjacent(punct, qBit) || bit > 7 then
      Err(Error(Quote(start, end), InvalidBitAddressSymbol))
    else
      var cp :- AddressPrefix(Slice(src, prefix), start, end);
      if cp.1 > U16_MAX then
        Err(Error(Quote(start, end), InvalidBitAddressSymbol))
      else
        Ok((HirValue(Quote(start, end), BitAddress(cp.0, cp.1, bit)), b.1))
  }

  /** `apply_unary`: a `Not` node from the operator's start to the operand's
      end; any other operator panics in the source. */
  function ApplyUnary(op: Q<Symbol>, value: HirValue): (r: HirValue)
    requires IsUnaryOp(op.value)
    ensures r.kind == HirValueType.Not(value) && r.quote == Quote(op.quote.start, value.quote.end)
  {
    HirValue(Quote(op.quote.start, value.quote.end), HirValueType.Not(value))
  }

  /** `apply_binary`: whatever the operator, the node built is an `And`,
      spanning from the left operand's start to the right operand's end. */
  function ApplyBinary(op: Q<Symbol>, left: HirValue, right: HirValue): (r: HirValue)
    requires IsBinaryOp(op.value)
    ensures r.kind == HirValueType.And(left, right) && r.quote == Quote(left.quote.start, right.quote.end)
  {
    var quote := Quote(left.quote.start, right.quote.end);
    match op.value
    case And => HirValue(quote, HirValueType.And(left, right))
    case Or => HirValue(quote, HirValueType.And(left, right))
    case Xor => HirValue(quote, HirValueType.And(left, right))
  }

  /** The loop of `read_call_raw`: comma-separated values up to `)`, added
      to `args`. A comma right before `)` is accepted. */
  function Args(src: string, s: PState, args: seq<HirValue>): (r: PResult<seq<HirValue>>)
    requires Wf(src, s)
    ensures r.Ok? ==> Wf(src, r.value.1) && Rem(src, r.value.1) <= Rem(src, s)
    ensures r.Ok? ==> |r.value.0| >= |args| && r.value.0[..|args|] == args
    ensures r.Ok? && (forall i :: 0 <= i < |args| ==> OnlyAnd(args[i])) ==>
      forall i :: 0 <= i < |r.value.0| ==> OnlyAnd(r.value.0[i])
    decreases Rem(src, s), 3
  {
    if s.buffer.value == RightParen then Ok((args, s))
    else
      var v :- Value(src, s);
      if v.1.buffer.value != Comma then Ok((args + [v.0], v.1))
      else
        var a :- Next(src, v.1);
        Args(src, a.1, args + [v.0])
  }

  /** `read_call_raw`: `name(args, ...)`, returning the call and its span
      from the name's start to the closing parenthesis. */
  function CallRaw(src: string, s: PState, name: Quote): (r: PResult<(HirCall, Quote)>)
    requires Wf(src, s)
    ensures r.Ok? ==> Consumed(src, s, r.value.1)
    ensures r.Ok? ==> r.value.0.0.name == name && r.value.0.1.start == name.start
    ensures r.Ok? ==> forall i :: 0 <= i < |r.value.0.0.args| ==> OnlyAnd(r.value.0.0.args[i])
    ensures s.buffer.value != LeftParen ==> r == Err(Error(s.buffer.quote, UnexpectedSymbol))
    decreases Rem(src, s), 4
  {
    var start := name.start;
    var lp :- Expected(src, s, LeftParen);
    var a :- Args(src, lp.1, []);
    var rp :- Expected(src, a.1, RightParen);
    Ok(((HirCall(name, a.0), Quote(start, rp.0.end)), rp.1))
  }

  /** `read_call`: a call used as a value. */
  function CallValue(src: string, s: PState, name: Quote): (r: PResult<HirValue>)
    requires Wf(src, s)
    ensures r.Ok? ==> Consumed(src, s, r.value.1) && OnlyAnd(r.value.0)
    ensures r.Ok? ==> r.value.0.kind.Call? && r.value.0.quote.start == name.start
    decreases Rem(src, s), 5
  {
    var c :- CallRaw(src, s, name);
    Ok((HirValue(c.0.1, Call(c.0.0)), c.1))
  }

  /** `read_unary_value`: an operand, possibly behind `not`/`!`. */
  function UnaryValue(src: string, s: PState): (r: PResult<HirValue>)
    requires Wf(src, s)
    ensures r.Ok? ==> Consumed(src, s, r.value.1) && OnlyAnd(r.value.0)
    ensures s.buffer.value !in {Symbol.Not, LeftParen, True, False, Symbol.Number, Identifier} ==>
      r == Err(Error(s.buffer.quote, InvalidUnaryOperation))
    decreases Rem(src, s), 1
  {
    var symbol := s.buffer;
    if IsUnaryOp(symbol.value) then
      var a :- Next(src, s);
      var v :- UnaryValue(src, a.1);
      Ok((ApplyUnary(symbol, v.0), v.1))
    else
      match symbol.value
      case LeftParen =>
        var a :- Next(src, s);
        var v :- Value(src, a.1);
        var rp :- Expected(src, v.1, RightParen);
        Ok((v.0, rp.1))
      case True =>
        var a :- Next(src, s);
        Ok((HirValue(symbol.quote, Bool(true)), a.1))
      case False =>
        var a :- Next(src, s);
        Ok((HirValue(symbol.quote, Bool(false)), a.1))
      case Number =>
        var a :- Next(src, s);
        if a.1.buffer.value == Punct then RawAddress(src, a.1, symbol.quote)
        else
          var n :- ParseNumber(src, symbol.quote);
          Ok((HirValue(symbol.quote, HirValueType.Number(n)), a.1))
      case Identifier =>
        var a :- Next(src, s);
        if a.1.buffer.value == Punct then PrefixedAddress(src, a.1, symbol.quote)
        else if a.1.buffer.value == LeftParen then CallValue(src, a.1, symbol.quote)
        else Ok((HirValue(symbol.quote, VarRef), a.1))
      case _ => Err(Error(symbol.quote, InvalidUnaryOperation))
  }

  /** `read_binary_value`, entered with a binary operator in the buffer and
      `left` already read: precedence climbing. */
  function BinaryValue(src: string, s: PState, left: HirValue): (r: PResult<HirValue>)
    requires Wf(src, s) && IsBinaryOp(s.buffer.value)
    ensures r.Ok? ==> Consumed(src, s, r.value.1)
    ensures r.Ok? ==> !IsBinaryOp(r.value.1.buffer.value)
    ensures r.Ok? ==> r.value.0.quote.start == left.quote.start && r.value.0.kind.And?
    ensures r.Ok? && OnlyAnd(left) ==> OnlyAnd(r.value.0)
    decreases Rem(src, s), 0
  {
    var op := s.buffer;
    var a :- Next(src, s);
    var rv :- UnaryValue(src, a.1);
    var right := rv.0;
    if !IsBinaryOp(rv.1.buffer.value) then
      Ok((ApplyBinary(op, left, right), rv.1))
    else if Precedence(op.value) < Precedence(rv.1.buffer.value) then
      var rr :- BinaryValue(src, rv.1, right);
      Ok((ApplyBinary(op, left, rr.0), rr.1))
    else
      BinaryValue(src, rv.1, ApplyBinary(op, left, right))
  }

  /** The chain `read_binary_value` reads: each binary operator with the
      operand after it, up to the first token that is no binary operator. */
  function Chain(src: string, s: PState): (r: PResult<seq<C.Step<HirValue>>>)
    requires Wf(src, s) && IsBinaryOp(s.buffer.value)
    ensures r.Ok? ==> |r.value.0| > 0 && C.BinarySteps(r.value.0) && r.value.0[0].op == s.buffer
    decreases Rem(src, s)
  {
    var op := s.buffer;
    var a :- Next(src, s);
    var rv :- UnaryValue(src, a.1);
    if !IsBinaryOp(rv.1.buffer.value) then Ok(([C.Step(op, rv.0)], rv.1))
    else
      var rest :- Chain(src, rv.1);
      Ok(([C.Step(op, rv.0)] + rest.0, rest.1))
  }

  /** The value a tree of operator applications stands for. */
  function Render(e: C.Expr<HirValue>): HirValue
    requires C.BinaryTree(e)
  {
    match e
    case Leaf(v) => v
    case Bin(op, l, r) => ApplyBinary(op, Render(l), Render(r))
  }

  /** `read_binary_value` builds the tree `Climb` builds from the chain it
      reads, and fails with the chain's first error. */
  lemma {:induction false} BinaryClimbs(src: string, s: PState, acc: C.Expr<HirValue>)
    requires Wf(src, s) && IsBinaryOp(s.buffer.value) && C.BinaryTree(acc)
    ensures var r := BinaryValue(src, s, Render(acc));
      var c := Chain(src, s);
      (r.Ok? <==> c.Ok?) && (r.Err? ==> r.error == c.error) &&
      (r.Ok? ==> C.BinaryTree(C.Climb(acc, c.value.0)) && r.value == (Render(C.Climb(acc, c.value.0)), c.value.1))
    decreases Rem(src, s)
  {
    var op := s.buffer;
    var a := Next(src, s);
    if a.Ok? {
      var rv := UnaryValue(src, a.value.1);
      if rv.Ok? && IsBinaryOp(rv.value.1.buffer.value) {
        var right := C.Leaf(rv.value.0);
        var rest := Chain(src, rv.value.1);
        if Precedence(op.value) < Precedence(rv.value.1.buffer.value) {
          BinaryClimbs(src, rv.value.1, right);
          if rest.Ok? {
            assert ([C.Step(op, rv.value.0)] + rest.value.0)[1..] == rest.value.0;
          }
        } else {
          var acc' := C.Bin(op, acc, right);
          BinaryClimbs(src, rv.value.1, acc');
          if rest.Ok? {
            assert ([C.Step(op, rv.value.0)] + rest.value.0)[1..] == rest.value.0;
          }
        }
      }
    }
  }

  /** `read_value`: an operand alone, or the tree climbed from it over the
      chain that follows. */
  lemma ValueClimbs(src: string, s: PState)
    requires Wf(src, s)
    ensures var u := UnaryValue(src, s);
      u.Ok? && IsBinaryOp(u.value.1.buffer.value) ==>
        var c := Chain(src, u.value.1);
        (Value(src, s).Ok? <==> c.Ok?) &&
        (c.Err? ==> Value(src, s).error == c.error) &&
        (c.Ok? ==>
          C.BinaryTree(C.Climb(C.Leaf(u.value.0), c.value.0)) &&
          Value(src, s).value == (Render(C.Climb(C.Leaf(u.value.0), c.value.0)), c.value.1))
  {
    var u := UnaryValue(src, s);
    if u.Ok? && IsBinaryOp(u.value.1.buffer.value) {
      BinaryClimbs(src, u.value.1, C.Leaf(u.value.0));
    }
  }

  /** `read_value`: an operand followed by any chain of binary operators. */
  function Value(src: string, s: PState): (r: PResult<HirValue>)
    requires Wf(src, s)
    ensures r.Ok? ==> Consumed(src, s, r.value.1) && OnlyAnd(r.value.0)
    ensures r.Ok? ==> !IsBinaryOp(r.value.1.buffer.value)
    decreases Rem(src, s), 2
  {
    var l :- UnaryValue(src, s);
    if !IsBinaryOp(l.1.buffer.value) then Ok(l)
    else BinaryValue(src, l.1, l.0)
  }

  /** `read_let`: `let name = value;`. */
  function LetStatement(src: string, s: PState): (r: PResult<HirStatement>)
    requires Wf(src, s)
    ensures r.Ok? ==> Consumed(src, s, r.value.1)
    ensures r.Ok? ==> r.value.0.Let? && r.value.0.quote.start == s.buffer.quote.start && OnlyAnd(r.value.0.value)
  {
    var kw :- Expected(src, s, Symbol.Let);
    var name :- Expected(src, kw.1, Identifier);
    var eq :- Expected(src, name.1, Equal);
    var v :- Value(src, eq.1);
    var semi :- Expected(src, v.1, Semicolon);
    Ok((HirStatement.Let(Quote(kw.0.start, semi.0.end), name.0, v.0), semi.1))
  }

  /** `read_write`, entered after the target's name: `name = value;`. */
  function WriteStatement(src: string, s: PState, name: Quote): (r: PResult<HirStatement>)
    requires Wf(src, s)
    ensures r.Ok? ==> Consumed(src, s, r.value.1)
    ensures r.Ok? ==>
      r.value.0.Write? && r.value.0.name == name &&
      r.value.0.quote.start == name.start && OnlyAnd(r.value.0.value)
  {
    var eq :- Expected(src, s, Equal);
    var v :- Value(src, eq.1);
    var semi :- Expected(src, v.1, Semicolon);
    Ok((Write(Quote(name.start, semi.0.end), name, v.0), semi.1))
  }

  /** `read_ident_statement`: after an identifier, `=` starts a write and
      `(` a call statement closed by `;`; anything else is
      `UnexpectedSymbol` at the token following the identifier. */
  function IdentStatement(src: string, s: PState): (r: PResult<HirStatement>)
    requires Wf(src, s)
    ensures r.Ok? ==> Consumed(src, s, r.value.1)
    ensures r.Ok? ==> (r.value.0.Write? || r.value.0.CallStatement?) && r.value.0.name == s.buffer.quote
    ensures var n := Expected(src, s, Identifier);
      n.Ok? && n.value.1.buffer.value !in {Equal, LeftParen} ==>
        r == Err(Error(n.value.1.buffer.quote, UnexpectedSymbol))
  {
    var ident :- Expected(src, s, Identifier);
    var t := ident.1;
    if t.buffer.value == Equal then WriteStatement(src, t, ident.0)
    else if t.buffer.value == LeftParen then
      var c :- CallRaw(src, t, ident.0);
      var semi :- Expected(src, c.1, Semicolon);
      Ok((CallStatement(c.0.1, c.0.0.name, c.0.0.args), semi.1))
    else Err(Error(t.buffer.quote, UnexpectedSymbol))
  }

  /** The loop of `parse`: statements up to `Null`, added to `acc`. */
  function Statements(src: string, s: PState, acc: seq<HirStatement>): (r: CResult<seq<HirStatement>>)
    requires Wf(src, s)
    ensures s.buffer.value == Null ==> r == Ok(acc)
    ensures s.buffer.value != Null && s.buffer.value != Symbol.Let && s.buffer.value != Identifier ==>
      r == Err(Error(s.buffer.quote, UnexpectedSymbol))
    decreases Rem(src, s)
  {
    if s.buffer.value == Null then Ok(acc)
    else if s.buffer.value == Symbol.Let then
      var st :- LetStatement(src, s);
      Statements(src, st.1, acc + [st.0])
    else if s.buffer.value == Identifier then
      var st :- IdentStatement(src, s);
      Statements(src, st.1, acc + [st.0])
    else Err(Error(s.buffer.quote, UnexpectedSymbol))
  }

  /** `parse` from the state `s`: read the first token, then statements. */
  function ParseFrom(src: string, s: PState): (r: CResult<seq<HirStatement>>)
    requires Wf(src, s)
  {
    var a :- Next(src, s);
    Statements(src, a.1, [])
  }

  /** The statements of a whole source, or its first error. */
  function Parse(src: string): CResult<seq<HirStatement>> {
    ParseFrom(src, START)
  }

  /** The stateful parser: a lexer and the buffered token. */
  class Parser {
    const source: string
    const lexer: L.Lexer
    var buffer: Q<Symbol>

    ghost predicate Valid()
      reads this, lexer
    {
      lexer.Valid() && lexer.source == source
    }

    /** The parser's state as the functions above see it. */
    function State(): PState
      reads this, lexer
    {
      PState(lexer.pos, buffer)
    }

    constructor (source: string)
      requires L.NoNul(source)
      ensures Valid() && this.source == source && State() == START && fresh(lexer)
    {
      this.source := source;
      lexer := new L.Lexer(source);
      buffer := Q(Null, Quote(0, 0));
    }

    method Advance() returns (r: CResult<()>)
      requires Valid()
      modifies this, lexer
      ensures Valid() && Pack(r, State()) == Next(source, old(State()))
    {
      var t :- lexer.ReadSymbol();
      buffer := t;
      r := Ok(());
    }

    method Expect(value: Symbol) returns (r: CResult<Quote>)
      requires Valid()
      modifies this, lexer
      ensures Valid() && Pack(r, State()) == Expected(source, old(State()), value)
      ensures old(buffer.value) != value ==> unchanged(this, lexer)
    {
      if buffer.value == value {
        var quote := buffer.quote;
        var a :- Advance();
        return Ok(quote);
      }
      r := Err(Error(buffer.quote, UnexpectedSymbol));
    }

    method ReadRawAddress(qPtr: Quote) returns (r: CResult<HirValue>)
      requires Valid() && buffer.value == Punct
      modifies this, lexer
      ensures Valid() && Pack(r, State()) == RawAddress(source, old(State()), qPtr)
    {
      var start := qPtr.start;
      var ptr :- ParseNumber(source, qPtr);
      var punct := buffer.quote;
      var a :- Advance();
      var qBit :- Expect(Symbol.Number);
      var bit :- ParseNumber(source, qBit);
      var end := qBit.end;
      if !Adjacent(qPtr, punct) || !Adjacent(punct, qBit) || ptr > U16_MAX || bit > 7 {
        return Err(Error(Quote(start, end), InvalidBitAddressSymbol));
      }
      r := Ok(HirValue(Quote(start, end), BitAddress(0, ptr, bit)));
    }

    method ReadPrefixedAddress(prefix: Quote) returns (r: CResult<HirValue>)
      requires Valid()
      modifies this, lexer
      ensures Valid() && Pack(r, State()) == PrefixedAddress(source, old(State()), prefix)
    {
      var start := prefix.start;
      var punct :- Expect(Punct);
      var qBit :- Expect(Symbol.Number);
      var bit :- ParseNumber(source, qBit);
      var end := qBit.end;
      if !Adjacent(prefix, punct) || !Adjacent(punct, qBit) || bit > 7 {
        return Err(Error(Quote(start, end), InvalidBitAddressSymbol));
      }
      var cp :- AddressPrefix(Slice(source, prefix), start, end);
      if cp.1 > U16_MAX {
        return Err(Error(Quote(start, end), InvalidBitAddressSymbol));
      }
      r := Ok(HirValue(Quote(start, end), BitAddress(cp.0, cp.1, bit)));
    }

    method ReadCall(name: Quote) returns (r: CResult<HirValue>)
      requires Valid()
      modifies this, lexer
      ensures Valid() && Pack(r, State()) == CallValue(source, old(State()), name)
      decreases Rem(source, State()), 5
    {
      var c :- ReadCallRaw(name);
      r := Ok(HirValue(c.1, Call(c.0)));
    }

    method ReadCallRaw(name: Quote) returns (r: CResult<(HirCall, Quote)>)
      requires Valid()
      modifies this, lexer
      ensures Valid() && Pack(r, State()) == CallRaw(source, old(State()), name)
      decreases Rem(source, State()), 4
    {
      var start := name.start;
      var lp :- Expect(LeftParen);
      ghost var s1 := State();
      var args: seq<HirValue> := [];
      while buffer.value != RightParen
        invariant Valid()
        invariant Args(source, State(), args) == Args(source, s1, [])
        invariant Rem(source, State()) <= Rem(source, s1)
        decreases Rem(source, State())
      {
        var v :- ReadValue();
        args := args + [v];
        if buffer.value != Comma {
          break;
        }
        var a :- Advance();
      }
      var rp :- Expect(RightParen);
      r := Ok((HirCall(name, args), Quote(start, rp.end)));
    }

    method ReadUnaryValue() returns (r: CResult<HirValue>)
      requires Valid()
      modifies this, lexer
      ensures Valid() && Pack(r, State()) == UnaryValue(source, old(State()))
      decreases Rem(source, State()), 1
    {
      var symbol := buffer;
      if IsUnaryOp(symbol.value) {
        var a :- Advance();
        var v :- ReadUnaryValue();
        return Ok(ApplyUnary(symbol, v));
      }
      match symbol.value {
        case LeftParen =>
          var a :- Advance();
          var value :- ReadValue();
          var rp :- Expect(RightParen);
          r := Ok(value);
        case True =>
          var a :- Advance();
          r := Ok(HirValue(symbol.quote, Bool(true)));
        case False =>
          var a :- Advance();
          r := Ok(HirValue(symbol.quote, Bool(false)));
        case Number =>
          var a :- Advance();
          if buffer.value == Punct {
            r := ReadRawAddress(symbol.quote);
            return;
          }
          var value :- ParseNumber(source, symbol.quote);
          r := Ok(HirValue(symbol.quote, HirValueType.Number(value)));
        case Identifier =>
          var a :- Advance();
          if buffer.value == Punct {
            r := ReadPrefixedAddress(symbol.quote);
          } else if buffer.value == LeftParen {
            r := ReadCall(symbol.quote);
          } else {
            r := Ok(HirValue(symbol.quote, VarRef));
          }
        case _ =>
          r := Err(Error(symbol.quote, InvalidUnaryOperation));
      }
    }

    method ReadBinaryValue(left: HirValue) returns (r: CResult<HirValue>)
      requires Valid() && IsBinaryOp(buffer.value)
      modifies this, lexer
      ensures Valid() && Pack(r, State()) == BinaryValue(source, old(State()), left)
      decreases Rem(source, State()), 0
    {
      var op := buffer;
      var a :- Advance();
      var right :- ReadUnaryValue();
      if !IsBinaryOp(buffer.value) {
        return Ok(ApplyBinary(op, left, right));
      }
      if Precedence(op.value) < Precedence(buffer.value) {
        var rr :- ReadBinaryValue(right);
        return Ok(ApplyBinary(op, left, rr));
      }
      r := ReadBinaryValue(ApplyBinary(op, left, right));
    }

    method ReadValue() returns (r: CResult<HirValue>)
      requires Valid()
      modifies this, lexer
      ensures Valid() && Pack(r, State()) == Value(source, old(State()))
      decreases Rem(source, State()), 2
    {
      var left :- ReadUnaryValue();
      if !IsBinaryOp(buffer.value) {
        return Ok(left);
      }
      r := ReadBinaryValue(left);
    }

    method ReadLet() returns (r: CResult<HirStatement>)
      requires Valid()
      modifies this, lexer
      ensures Valid() && Pack(r, State()) == LetStatement(source, old(State()))
    {
      var kw :- Expect(Symbol.Let);
      var name :- Expect(Identifier);
      var eq :- Expect(Equal);
      var value :- ReadValue();
      var semi :- Expect(Semicolon);
      r := Ok(HirStatement.Let(Quote(kw.start, semi.end), name, value));
    }

    method ReadWrite(name: Quote) returns (r: CResult<HirStatement>)
      requires Valid()
      modifies this, lexer
      ensures Valid() && Pack(r, State()) == WriteStatement(source, old(State()), name)
    {
      var eq :- Expect(Equal);
      var value :- ReadValue();
      var semi :- Expect(Semicolon);
      r := Ok(Write(Quote(name.start, semi.end), name, value));
    }

    method ReadIdentStatement() returns (r: CResult<HirStatement>)
      requires Valid()
      modifies this, lexer
      ensures Valid() && Pack(r, State()) == IdentStatement(source, old(State()))
    {
      var ident :- Expect(Identifier);
      if buffer.value == Equal {
        r := ReadWrite(ident);
      } else if buffer.value == LeftParen {
        var c :- ReadCallRaw(ident);
        var semi :- Expect(Semicolon);
        r := Ok(CallStatement(c.1, c.0.name, c.0.args));
      } else {
        r := Err(Error(buffer.quote, UnexpectedSymbol));
      }
    }

    method Parse() returns (r: CResult<seq<HirStatement>>)
      requires Valid()
      modifies this, lexer
      ensures Valid() && r == ParseFrom(source, old(State()))
    {
      var statements: seq<HirStatement> := [];
      var a :- Advance();
      ghost var s1 := State();
      while buffer.value != Null
        invariant Valid()
        invariant Statements(source, State(), statements) == Statements(source, s1, [])
        decreases Rem(source, State())
      {
        var statement: HirStatement;
        if buffer.value == Symbol.Let {
          statement :- ReadLet();
        } else if buffer.value == Identifier {
          statement :- ReadIdentStatement();
        } else {
          return Err(Error(buffer.quote, UnexpectedSymbol));
        }
        statements := statements + [statement];
      }
      r := Ok(statements);
    }
  }

  /** `t` is the state right after `s`: one `advance` that succeeds. */
  predicate Step(src: string, s: PState, t: PState) {
    Wf(src, s) && Next(src, s) == Ok(((), t))
  }

  /** A variable reference spanning `q`. */
  function Ref(q: Quote): HirValue {
    HirValue(q, VarRef)
  }

  /** An identifier not followed by `.` or `(` is a variable reference. */
  lemma IdentOperand(src: string, s: PState, t: PState)
    requires Step(src, s, t) && s.buffer.value == Identifier
    requires t.buffer.value != Punct && t.buffer.value != LeftParen
    ensures UnaryValue(src, s) == Ok((Ref(s.buffer.quote), t))
  {
  }

  /** `x or y and z` groups as `or(x, and(y, z))`: the tighter operator on
      the right is read first. Every node is built as `And`. */
  lemma {:induction false} TighterOnRight(src: string, x: HirValue, s0: PState, s1: PState, s2: PState, s3: PState, s4: PState)
    requires Step(src, s0, s1) && Step(src, s1, s2) && Step(src, s2, s3) && Step(src, s3, s4)
    requires s0.buffer.value == Symbol.Or && s1.buffer.value == Identifier
    requires s2.buffer.value == Symbol.And && s3.buffer.value == Identifier
    requires !IsBinaryOp(s4.buffer.value) && s4.buffer.value != Punct && s4.buffer.value != LeftParen
    ensures var y, z := Ref(s1.buffer.quote), Ref(s3.buffer.quote);
      BinaryValue(src, s0, x) == Ok((ApplyBinary(s0.buffer, x, ApplyBinary(s2.buffer, y, z)), s4))
  {
    IdentOperand(src, s1, s2);
    IdentOperand(src, s3, s4);
    var y, z := Ref(s1.buffer.quote), Ref(s3.buffer.quote);
    assert BinaryValue(src, s2, y) == Ok((ApplyBinary(s2.buffer, y, z), s4));
  }

  /** `x and y xor z` groups as `xor(and(x, y), z)`: an operator that binds
      no tighter closes the node on its left. */
  lemma {:induction false} LooserOnRight(src: string, x: HirValue, s0: PState, s1: PState, s2: PState, s3: PState, s4: PState)
    requires Step(src, s0, s1) && Step(src, s1, s2) && Step(src, s2, s3) && Step(src, s3, s4)
    requires s0.buffer.value == Symbol.And && s1.buffer.value == Identifier
    requires s2.buffer.value == Symbol.Xor && s3.buffer.value == Identifier
    requires !IsBinaryOp(s4.buffer.value) && s4.buffer.value != Punct && s4.buffer.value != LeftParen
    ensures var y, z := Ref(s1.buffer.quote), Ref(s3.buffer.quote);
      BinaryValue(src, s0, x) == Ok((ApplyBinary(s2.buffer, ApplyBinary(s0.buffer, x, y), z), s4))
  {
    IdentOperand(src, s1, s2);
    IdentOperand(src, s3, s4);
    var y, z := Ref(s1.buffer.quote), Ref(s3.buffer.quote);
    assert BinaryValue(src, s2, ApplyBinary(s0.buffer, x, y)) ==
      Ok((ApplyBinary(s2.buffer, ApplyBinary(s0.buffer, x, y), z), s4));
  }

  /** `a or b and c or d` groups as `or(a, or(and(b, c), d))`: once the
      climb has gone right for `and`, the trailing `or` is folded into the
      right operand instead of closing the outer `or`. */
  lemma {:induction false} ClimbKeepsRight(src: string, a: HirValue,
      s0: PState, s1: PState, s2: PState, s3: PState, s4: PState, s5: PState, s6: PState)
    requires Step(src, s0, s1) && Step(src, s1, s2) && Step(src, s2, s3)
    requires Step(src, s3, s4) && Step(src, s4, s5) && Step(src, s5, s6)
    requires s0.buffer.value == Symbol.Or && s1.buffer.value == Identifier
    requires s2.buffer.value == Symbol.And && s3.buffer.value == Identifier
    requires s4.buffer.value == Symbol.Or && s5.buffer.value == Identifier
    requires !IsBinaryOp(s6.buffer.value) && s6.buffer.value != Punct && s6.buffer.value != LeftParen
    ensures var b, c, d := Ref(s1.buffer.quote), Ref(s3.buffer.quote), Ref(s5.buffer.quote);
      BinaryValue(src, s0, a) ==
        Ok((ApplyBinary(s0.buffer, a, ApplyBinary(s4.buffer, ApplyBinary(s2.buffer, b, c), d)), s6))
  {
    IdentOperand(src, s1, s2);
    IdentOperand(src, s3, s4);
    IdentOperand(src, s5, s6);
    var b, c, d := Ref(s1.buffer.quote), Ref(s3.buffer.quote), Ref(s5.buffer.quote);
    var bc := ApplyBinary(s2.buffer, b, c);
    assert BinaryValue(src, s4, bc) == Ok((ApplyBinary(s4.buffer, bc, d), s6));
    assert BinaryValue(src, s2, b) == Ok((ApplyBinary(s4.buffer, bc, d), s6));
  }

  /** A comma right before `)` is accepted: `f(x,)` has the one argument. */
  lemma TrailingComma(src: string, s: PState, v: HirValue, t: PState, u: PState)
    requires Wf(src, s) && s.buffer.value != RightParen
    requires Value(src, s) == Ok((v, t)) && t.buffer.value == Comma
    requires Step(src, t, u) && u.buffer.value == RightParen
    ensures Args(src, s, []) == Ok(([v], u))
  {
  }

  /** Without the closing `)` the argument list is `UnexpectedSymbol` at the
      token found instead. */
  lemma MissingParen(src: string, s: PState, name: Quote, t: PState, args: seq<HirValue>)
    requires Wf(src, s) && s.buffer.value == LeftParen
    requires Next(src, s).Ok? && Args(src, Next(src, s).value.1, []) == Ok((args, t))
    requires t.buffer.value != RightParen
    ensures CallRaw(src, s, name) == Err(Error(t.buffer.quote, UnexpectedSymbol))
  {
  }

  /** A parenthesised expression is the inner value itself, with the inner
      span: the parentheses are not part of any node. */
  lemma Parenthesised(src: string, s: PState, t: PState, v: HirValue, u: PState, w: PState)
    requires Step(src, s, t) && s.buffer.value == LeftParen
    requires Value(src, t) == Ok((v, u))
    requires Step(src, u, w) && u.buffer.value == RightParen
    ensures UnaryValue(src, s) == Ok((v, w))
  {
  }
}
