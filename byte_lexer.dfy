/** The byte-oriented lexer (crates/compiler/src/lexer.rs): a cursor over the
    source bytes that yields one spanned token per call. The functions below
    say which token starts at a position; the class `Lexer` is the cursor of
    the source, proved to follow them. */
module ByteLexer {
  import opened Common
  import opened Symbols

  /** `get` and `peek` answer NULL past the end of the source. */
  const NULL: Byte := 0

  /** The constructor panics on a source holding a NUL byte. */
  predicate NoNul(src: seq<Byte>) {
    forall i :: 0 <= i < |src| ==> src[i] != NULL
  }

  /** The byte at `i`, or NULL past the end. */
  function At(src: seq<Byte>, i: nat): Byte {
    if i < |src| then src[i] else NULL
  }

  predicate IsLineBreak(c: int) {
    c == '\n' as int || c == '\r' as int
  }

  /** The tokens made of one punctuation byte. */
  function Punctuation(c: Byte): Option<Symbol> {
    if c == ';' as int then Some(Semicolon)
    else if c == '=' as int then Some(Equal)
    else if c == '.' as int then Some(Punct)
    else if c == ',' as int then Some(Comma)
    else if c == '(' as int then Some(LeftParen)
    else if c == ')' as int then Some(RightParen)
    else if c == '!' as int then Some(Not)
    else if c == '&' as int then Some(And)
    else if c == '|' as int then Some(Or)
    else if c == '^' as int then Some(Xor)
    else None
  }

  /** First position at or after `i` that is not ASCII whitespace. */
  function SkipSpace(src: seq<Byte>, i: nat): (j: nat)
    requires i <= |src|
    ensures i <= j <= |src|
    ensures forall k :: i <= k < j ==> IsAsciiWhitespace(src[k])
    ensures j < |src| ==> !IsAsciiWhitespace(src[j])
    decreases |src| - i
  {
    if i < |src| && IsAsciiWhitespace(src[i]) then SkipSpace(src, i + 1) else i
  }

  /** Position just after the first line break at or after `i`, or the end. */
  function LineEnd(src: seq<Byte>, i: nat): (j: nat)
    requires i <= |src|
    ensures i <= j <= |src|
    ensures i < |src| ==> i < j
    ensures forall k :: i <= k < j - 1 ==> !IsLineBreak(src[k])
    ensures j < |src| ==> IsLineBreak(src[j - 1])
    decreases |src| - i
  {
    if i == |src| then i
    else if IsLineBreak(src[i]) then i + 1
    else LineEnd(src, i + 1)
  }

  /** End of the maximal run of digits starting at `i`. */
  function DigitsEnd(src: seq<Byte>, i: nat): (j: nat)
    requires i <= |src|
    ensures i <= j <= |src|
    ensures forall k :: i <= k < j ==> IsAsciiDigit(src[k])
    ensures j < |src| ==> !IsAsciiDigit(src[j])
    decreases |src| - i
  {
    if i < |src| && IsAsciiDigit(src[i]) then DigitsEnd(src, i + 1) else i
  }

  /** End of the maximal run of identifier bytes starting at `i`. */
  function IdentEnd(src: seq<Byte>, i: nat): (j: nat)
    requires i <= |src|
    ensures i <= j <= |src|
    ensures forall k :: i <= k < j ==> IsIdentByte(src[k])
    ensures j < |src| ==> !IsIdentByte(src[j])
    decreases |src| - i
  {
    if i < |src| && IsIdentByte(src[i]) then IdentEnd(src, i + 1) else i
  }

  /** A comment starts with `#` or with `//`. */
  predicate IsCommentStart(src: seq<Byte>, j: nat)
    requires j < |src|
  {
    src[j] == '#' as int || (src[j] == '/' as int && At(src, j + 1) == '/' as int)
  }

  /** The token (or lexical error) `read_symbol` produces when the cursor is
      at `i`, and where it leaves the cursor. */
  function NextToken(src: seq<Byte>, i: nat): (r: (CResult<Q<Symbol>>, nat))
    requires i <= |src|
    decreases |src| - i, 1
  {
    TokenAt(src, SkipSpace(src, i))
  }

  /** The token read once whitespace before `j` is skipped. */
  function TokenAt(src: seq<Byte>, j: nat): (r: (CResult<Q<Symbol>>, nat))
    requires j <= |src|
    decreases |src| - j, 0
  {
    if j == |src| then (Ok(Q(Null, Quote(j, j))), j)
    else
      var c := src[j];
      if Punctuation(c).Some? then (Ok(Q(Punctuation(c).value, Quote(j, j + 1))), j + 1)
      else if IsAsciiDigit(c) then
        var k := DigitsEnd(src, j);
        if ParseUsize(src[j..k]).None? then (Err(Error(Quote(j, k), InvalidNumber)), k)
        else (Ok(Q(Number, Quote(j, k))), k)
      else if c == '_' as int || IsAsciiLetter(c) then
        var k := IdentEnd(src, j);
        (Ok(Q(WordSymbol(src[j..k]), Quote(j, k))), k)
      else if IsCommentStart(src, j) then NextToken(src, LineEnd(src, j))
      else (Err(Error(Quote(j, j + 1), UnexpectedCharacter)), j + 1)
  }

  /** A word is its keyword, or an identifier. */
  function WordSymbol(word: seq<Byte>): Symbol {
    match Keyword(word)
    case Some(kw) => kw
    case None => Identifier
  }

  /** The cursor of the source. */
  class Lexer {
    const source: seq<Byte>
    var index: nat

    ghost predicate Valid()
      reads this
    {
      NoNul(source) && index <= |source|
    }

    constructor (source: seq<Byte>)
      requires NoNul(source)
      ensures Valid() && this.source == source && index == 0
    {
      this.source := source;
      index := 0;
    }

    /** The current byte. */
    function Get(): Byte
      reads this
    {
      At(source, index)
    }

    /** The byte after the current one. */
    function Peek(): Byte
      reads this
    {
      At(source, index + 1)
    }

    method Advance()
      modifies this
      ensures index == old(index) + 1
    {
      index := index + 1;
    }

    /** Advance and quote `value` from `start` to the new position. */
    method QuoteNext(value: Symbol, start: nat) returns (r: CResult<Q<Symbol>>)
      modifies this
      ensures index == old(index) + 1
      ensures r == Ok(Q(value, Quote(start, index)))
    {
      Advance();
      r := Ok(Q(value, Quote(start, index)));
    }

    /** Advance and report `reason` from `start` to the new position. */
    method ErrorNext(reason: Reason, start: nat) returns (r: CResult<Q<Symbol>>)
      modifies this
      ensures index == old(index) + 1
      ensures r == Err(Error(Quote(start, index), reason))
    {
      Advance();
      r := Err(Error(Quote(start, index), reason));
    }

    /** Skip through the first line break, or to the end. */
    method SkipLine()
      requires Valid()
      modifies this
      ensures Valid() && index == LineEnd(source, old(index))
    {
      while Get() != NULL
        invariant Valid()
        invariant LineEnd(source, index) == LineEnd(source, old(index))
        decreases |source| - index
      {
        var c := Get();
        Advance();
        if IsLineBreak(c) {
          break;
        }
      }
    }

    method SkipWhitespace()
      requires Valid()
      modifies this
      ensures Valid() && index == SkipSpace(source, old(index))
    {
      while IsAsciiWhitespace(Get())
        invariant Valid()
        invariant SkipSpace(source, index) == SkipSpace(source, old(index))
        decreases |source| - index
      {
        Advance();
      }
    }

    method ReadNumber() returns (r: CResult<Q<Symbol>>)
      requires Valid()
      modifies this
      ensures Valid() && index == DigitsEnd(source, old(index))
      ensures r == if ParseUsize(source[old(index)..index]).None?
                   then Err(Error(Quote(old(index), index), InvalidNumber))
                   else Ok(Q(Number, Quote(old(index), index)))
    {
      var start := index;
      while IsAsciiDigit(Get())
        invariant Valid() && start <= index
        invariant DigitsEnd(source, index) == DigitsEnd(source, start)
        decreases |source| - index
      {
        Advance();
      }
      if ParseUsize(source[start..index]).None? {
        return Err(Error(Quote(start, index), InvalidNumber));
      }
      r := Ok(Q(Number, Quote(start, index)));
    }

    method ReadIdentifier() returns (r: CResult<Q<Symbol>>)
      requires Valid()
      modifies this
      ensures Valid() && index == IdentEnd(source, old(index))
      ensures r == Ok(Q(WordSymbol(source[old(index)..index]), Quote(old(index), index)))
    {
      var start := index;
      while IsIdentByte(Get())
        invariant Valid() && start <= index
        invariant IdentEnd(source, index) == IdentEnd(source, start)
        decreases |source| - index
      {
        Advance();
      }
      var word := source[start..index];
      if word in KEYWORDS {
        return Ok(Q(KEYWORDS[word], Quote(start, index)));
      }
      r := Ok(Q(Identifier, Quote(start, index)));
    }

    /** Produce the next token, skipping whitespace and comments. */
    method ReadSymbol() returns (r: CResult<Q<Symbol>>)
      requires Valid()
      modifies this
      ensures Valid()
      ensures (r, index) == NextToken(source, old(index))
    {
      while true
        invariant Valid()
        invariant NextToken(source, index) == NextToken(source, old(index))
        decreases |source| - index
      {
        SkipWhitespace();
        var start := index;
        var c := Get();
        if c == NULL {
          return Ok(Q(Null, Quote(start, index)));
        }
        var p := Punctuation(c);
        if p.Some? {
          r := QuoteNext(p.value, start);
          return;
        } else if IsAsciiDigit(c) {
          r := ReadNumber();
          return;
        } else if c == '_' as int || IsAsciiLetter(c) {
          r := ReadIdentifier();
          return;
        } else if c == '#' as int {
          SkipLine();
          continue;
        } else if c == '/' as int {
          if Peek() != '/' as int {
            r := ErrorNext(UnexpectedCharacter, start);
            return;
          }
          SkipLine();
          continue;
        }
        r := ErrorNext(UnexpectedCharacter, start);
        return;
      }
    }
  }

  /** The range a token or a lexical error reports. */
  function Span(r: CResult<Q<Symbol>>): Quote {
    match r
    case Ok(t) => t.quote
    case Err(e) => e.quote
  }

  /** Every token or error lies between the old and the new cursor, ends
      exactly at the new cursor, and the cursor never moves backwards. */
  lemma {:induction false} TokenBounds(src: seq<Byte>, i: nat)
    requires i <= |src|
    ensures var (r, n) := NextToken(src, i);
      i <= Span(r).start <= Span(r).end == n <= |src|
    decreases |src| - i
  {
    var j := SkipSpace(src, i);
    if j < |src| && Punctuation(src[j]).None? && !IsAsciiDigit(src[j])
       && !(src[j] == '_' as int || IsAsciiLetter(src[j])) && IsCommentStart(src, j) {
      TokenBounds(src, LineEnd(src, j));
    }
  }

  /** `Null` is reported only at the end of the source, as an empty span,
      and asking again yields the same `Null`. */
  lemma {:induction false} NullAtEnd(src: seq<Byte>, i: nat)
    requires i <= |src|
    ensures var (r, n) := NextToken(src, i);
      r.Ok? && r.value.value == Null ==>
        n == |src| && r.value.quote == Quote(n, n) && NextToken(src, n) == NextToken(src, i)
    decreases |src| - i
  {
    var j := SkipSpace(src, i);
    if j < |src| && Punctuation(src[j]).None? && !IsAsciiDigit(src[j])
       && !(src[j] == '_' as int || IsAsciiLetter(src[j])) && IsCommentStart(src, j) {
      NullAtEnd(src, LineEnd(src, j));
    }
  }

  /** Every outcome other than `Null` consumes at least one byte. */
  lemma {:induction false} TokenProgress(src: seq<Byte>, i: nat)
    requires i <= |src|
    ensures var (r, n) := NextToken(src, i);
      !(r.Ok? && r.value.value == Null) ==> Span(r).start < Span(r).end && i < n
    decreases |src| - i
  {
    var j := SkipSpace(src, i);
    if j < |src| && Punctuation(src[j]).None? && !IsAsciiDigit(src[j])
       && !(src[j] == '_' as int || IsAsciiLetter(src[j])) && IsCommentStart(src, j) {
      TokenProgress(src, LineEnd(src, j));
      TokenBounds(src, LineEnd(src, j));
    } else if j < |src| && Punctuation(src[j]).None? && IsAsciiDigit(src[j]) {
      assert DigitsEnd(src, j) > j;
    } else if j < |src| && Punctuation(src[j]).None? && (src[j] == '_' as int || IsAsciiLetter(src[j])) {
      assert IdentEnd(src, j) > j;
    }
  }

  /** A punctuation byte after the whitespace is a one-byte token. */
  lemma PunctuationToken(src: seq<Byte>, i: nat)
    requires i <= |src|
    requires SkipSpace(src, i) < |src| && Punctuation(src[SkipSpace(src, i)]).Some?
    ensures var j := SkipSpace(src, i);
      NextToken(src, i) == (Ok(Q(Punctuation(src[j]).value, Quote(j, j + 1))), j + 1)
  {
  }

  /** Words are read by maximal munch; a word spelling a keyword is that
      keyword, and any other word is an identifier. */
  lemma WordToken(src: seq<Byte>, i: nat)
    requires i <= |src|
    requires SkipSpace(src, i) < |src|
    requires src[SkipSpace(src, i)] == '_' as int || IsAsciiLetter(src[SkipSpace(src, i)])
    ensures var j := SkipSpace(src, i);
      var (r, n) := NextToken(src, i);
      r.Ok? && r.value.quote == Quote(j, n) && j < n <= |src| &&
      (forall k :: j <= k < n ==> IsIdentByte(src[k])) &&
      (n < |src| ==> !IsIdentByte(src[n])) &&
      (src[j..n] in KEYWORDS ==> r.value.value == KEYWORDS[src[j..n]]) &&
      (src[j..n] !in KEYWORDS ==> r.value.value == Identifier)
  {
    var j := SkipSpace(src, i);
    assert Punctuation(src[j]).None?;
    assert !IsAsciiDigit(src[j]);
  }

  /** A digit run is one number token; one too large for a `usize` is an
      `InvalidNumber` error covering the whole run. */
  lemma NumberToken(src: seq<Byte>, i: nat)
    requires i <= |src|
    requires SkipSpace(src, i) < |src| && IsAsciiDigit(src[SkipSpace(src, i)])
    ensures var j := SkipSpace(src, i);
      var (r, n) := NextToken(src, i);
      j < n <= |src| &&
      (forall k :: j <= k < n ==> IsAsciiDigit(src[k])) &&
      (n < |src| ==> !IsAsciiDigit(src[n])) &&
      (DecimalValue(src[j..n]) <= USIZE_MAX <==> r == Ok(Q(Number, Quote(j, n)))) &&
      (DecimalValue(src[j..n]) > USIZE_MAX <==> r == Err(Error(Quote(j, n), InvalidNumber)))
  {
    var j := SkipSpace(src, i);
    assert Punctuation(src[j]).None?;
    var k := DigitsEnd(src, j);
    assert IsDigitString(src[j..k]) by {
      assert forall m :: 0 <= m < k - j ==> src[j..k][m] == src[j + m];
    }
  }

  /** A comment runs to the first line break: lexing resumes right after it. */
  lemma CommentSkipped(src: seq<Byte>, i: nat)
    requires i <= |src|
    requires SkipSpace(src, i) < |src| && IsCommentStart(src, SkipSpace(src, i))
    ensures NextToken(src, i) == NextToken(src, LineEnd(src, SkipSpace(src, i)))
  {
    assert Punctuation(src[SkipSpace(src, i)]).None?;
  }

  /** A `/` not followed by another `/`, and any byte that starts no token,
      is an `UnexpectedCharacter` error spanning that one byte. */
  lemma UnexpectedByte(src: seq<Byte>, i: nat)
    requires i <= |src|
    requires var j := SkipSpace(src, i);
      j < |src| && Punctuation(src[j]).None? && !IsIdentByte(src[j]) && !IsCommentStart(src, j)
    ensures var j := SkipSpace(src, i);
      NextToken(src, i) == (Err(Error(Quote(j, j + 1), UnexpectedCharacter)), j + 1)
  {
  }
}
