/** Shared vocabulary of the compiler: bytes, spans ("quotes"), the diagnostic
    reasons and the failure-compatible result types that every stage returns. */
module Common {

  /** One byte of source text. */
  type Byte = b: int | 0 <= b < 256

  /** Largest value of the target's pointer-sized unsigned integer (64-bit). */
  const USIZE_MAX: nat := 0xffff_ffff_ffff_ffff
  /** Largest 16-bit unsigned value; bit-address pointers are 16 bits wide. */
  const U16_MAX: nat := 0xffff

  /** A half-open byte range `[start, end)` of the source. */
  datatype Quote = Quote(start: nat, end: nat)

  /** A value together with the range of source text it came from. */
  datatype Q<T> = Q(value: T, quote: Quote)

  /** Two quotes touch when the first ends exactly where the second starts. */
  predicate Adjacent(a: Quote, b: Quote) {
    a.end == b.start
  }

  /** Every diagnostic the front end and the lowering can raise. */
  datatype Reason =
    | UnexpectedCharacter
    | InvalidNumber
    | UnexpectedSymbol
    | InvalidAddressSymbol
    | InvalidBitAddressSymbol
    | InvalidUnaryOperation
    | UnknownVariable
    | UnknownFunction
    | UnknownBitAddressType
    | InvalidArgsCount
    | InvalidArgType
    | ValueNotBitReadable
    | NoWriteHandler

  /** A compilation error: the offending range and why it was rejected. */
  datatype Error = Error(quote: Quote, reason: Reason)

  datatype Option<T> = None | Some(value: T)

  /** Success or failure; usable with `:-` like the source's `?`. */
  datatype Result<T, E> = Ok(value: T) | Err(error: E) {
    predicate IsFailure() {
      Err?
    }

    function PropagateFailure<U>(): Result<U, E>
      requires Err?
    {
      Err(error)
    }

    function Extract(): T
      requires Ok?
    {
      value
    }
  }

  /** The result type of the front end and of the lowering. */
  type CResult<T> = Result<T, Error>

  /** Pairs a method's result with the state it left behind, so that an
      imperative operation can be compared with the function specifying it. */
  function Pack<T, S, E>(r: Result<T, E>, s: S): Result<(T, S), E> {
    match r
    case Ok(v) => Ok((v, s))
    case Err(e) => Err(e)
  }

  /** The outcome of an operation that may also panic (an `expect`, an
      `assert!`, a `todo!()` or a loop that never ends in the source). */
  datatype Outcome<T> = Done(value: T) | Fail(error: Error) | Panic {
    predicate IsFailure() {
      !Done?
    }

    function PropagateFailure<U>(): Outcome<U>
      requires !Done?
    {
      if Fail? then Fail(error) else Panic
    }

    function Extract(): T
      requires Done?
    {
      value
    }
  }

  /** `source[quote]`, which panics outside the source. */
  function Text(src: seq<Byte>, q: Quote): (r: Outcome<seq<Byte>>)
    ensures r.Done? <==> q.start <= q.end <= |src|
    ensures r.Done? ==> |r.value| == q.end - q.start
    ensures !r.Fail?
  {
    if q.start <= q.end <= |src| then Done(src[q.start..q.end]) else Panic
  }

  /** A result that cannot panic, as an outcome. */
  function Checked<T>(r: CResult<T>): Outcome<T> {
    match r
    case Ok(v) => Done(v)
    case Err(e) => Fail(e)
  }

  /** `Pack` for operations that may panic: a method that returns a result
      is compared with a specification that returns an outcome. */
  function Lift<T, S>(r: CResult<T>, s: S): Outcome<(T, S)> {
    match r
    case Ok(v) => Done((v, s))
    case Err(e) => Fail(e)
  }

  predicate IsAsciiDigit(c: int) {
    '0' as int <= c <= '9' as int
  }

  predicate IsAsciiLetter(c: int) {
    'a' as int <= c <= 'z' as int || 'A' as int <= c <= 'Z' as int
  }

  /** The bytes Rust's `is_ascii_whitespace` accepts: space, tab, line feed,
      form feed and carriage return (not the vertical tab). */
  predicate IsAsciiWhitespace(c: int) {
    c == ' ' as int || c == '\t' as int || c == '\n' as int || c == 0x0c || c == '\r' as int
  }

  /** Bytes that may continue an identifier: `_`, letters and digits. */
  predicate IsIdentByte(c: int) {
    c == '_' as int || IsAsciiLetter(c) || IsAsciiDigit(c)
  }

  /** A non-empty run of decimal digits. */
  predicate IsDigitString(s: seq<int>) {
    |s| > 0 && forall i :: 0 <= i < |s| ==> IsAsciiDigit(s[i])
  }

  /** Decimal value of a digit run, most significant digit first. */
  function DecimalValue(s: seq<int>): nat {
    if s == [] then 0
    else
      var d := s[|s| - 1] - '0' as int;
      DecimalValue(s[..|s| - 1]) * 10 + (if 0 <= d <= 9 then d else 0)
  }

  /** Rust's `str::parse::<usize>()` on a string of digits: the value, or
      nothing when the string is empty, holds a non-digit or overflows. */
  function ParseUsize(s: seq<int>): Option<nat> {
    if IsDigitString(s) && DecimalValue(s) <= USIZE_MAX then Some(DecimalValue(s)) else None
  }

  /** The ASCII bytes of a string literal. */
  function Bytes(s: string): (r: seq<Byte>)
    requires forall i :: 0 <= i < |s| ==> s[i] as int < 128
    ensures |r| == |s| && forall i :: 0 <= i < |s| ==> r[i] == s[i] as int
  {
    seq(|s|, i requires 0 <= i < |s| => s[i] as int as Byte)
  }
}
