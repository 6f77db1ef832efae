/** The character-oriented lexer (crates/compiler/src/parser/lexer.rs). It
    walks a UTF-8 string one character at a time while its spans stay byte
    offsets. Dafny strings are sequences of code points, so the cursor keeps
    the character position `pos` beside the byte offset `index`, and the
    functions below relate the two through `Offset`. */
module CharLexer {
  import opened Common
  import opened Symbols
  import ByteLexer

  const NULL: char := '\0'

  /** The constructor panics on a source holding a NUL character. */
  predicate NoNul(src: string) {
    forall i :: 0 <= i < |src| ==> src[i] != NULL
  }

  /** Number of bytes of a character in UTF-8. */
  function Utf8Len(c: char): (n: nat)
    ensures 1 <= n <= 4
    ensures n == 1 <==> (c as int) < 0x80
  {
    if (c as int) < 0x80 then 1
    else if (c as int) < 0x800 then 2
    else if (c as int) < 0x10000 then 3
    else 4
  }

  /** Byte offset of the character at position `p`. */
  function Offset(src: string, p: nat): (n: nat)
    requires p <= |src|
    ensures p <= n <= 4 * p
  {
    if p == 0 then 0 else Offset(src, p - 1) + Utf8Len(src[p - 1])
  }

  /** The character at `p`, or NULL past the end. */
  function At(src: string, p: nat): char {
    if p < |src| then src[p] else NULL
  }

  predicate IsLineBreak(c: char) {
    c == '\n' || c == '\r'
  }

  predicate IsIdentStart(c: char) {
    c == '_' || IsAsciiLetter(c as int)
  }

  /** The tokens made of one punctuation character. */
  function Punctuation(c: char): Option<Symbol> {
    match c
    case ';' => Some(Semicolon)
    case '=' => Some(Equal)
    case '.' => Some(Punct)
    case ',' => Some(Comma)
    case '(' => Some(LeftParen)
    case ')' => Some(RightParen)
    case '!' => Some(Not)
    case '&' => Some(And)
    case '|' => Some(Or)
    case '^' => Some(Xor)
    case _ => None
  }

  /** First position at or after `p` that is not ASCII whitespace. */
  function SkipSpace(src: string, p: nat): (q: nat)
    requires p <= |src|
    ensures p <= q <= |src|
    ensures forall k :: p <= k < q ==> IsAsciiWhitespace(src[k] as int)
    ensures q < |src| ==> !IsAsciiWhitespace(src[q] as int)
    decreases |src| - p
  {
    if p < |src| && IsAsciiWhitespace(src[p] as int) then SkipSpace(src, p + 1) else p
  }

  /** Position just after the first line break at or after `p`, or the end. */
  function LineEnd(src: string, p: nat): (q: nat)
    requires p <= |src|
    ensures p <= q <= |src|
    ensures p < |src| ==> p < q
    ensures forall k :: p <= k < q - 1 ==> !IsLineBreak(src[k])
    ensures q < |src| ==> IsLineBreak(src[q - 1])
    decreases |src| - p
  {
    if p == |src| then p
    else if IsLineBreak(src[p]) then p + 1
    else LineEnd(src, p + 1)
  }

  /** End of the maximal run of digits starting at `p`. */
  function DigitsEnd(src: string, p: nat): (q: nat)
    requires p <= |src|
    ensures p <= q <= |src|
    ensures forall k :: p <= k < q ==> IsAsciiDigit(src[k] as int)
    ensures q < |src| ==> !IsAsciiDigit(src[q] as int)
    decreases |src| - p
  {
    if p < |src| && IsAsciiDigit(src[p] as int) then DigitsEnd(src, p + 1) else p
  }

  /** End of the maximal run of identifier characters starting at `p`. */
  function IdentEnd(src: string, p: nat): (q: nat)
    requires p <= |src|
    ensures p <= q <= |src|
    ensures forall k :: p <= k < q ==> IsIdentByte(src[k] as int)
    ensures q < |src| ==> !IsIdentByte(src[q] as int)
    decreases |src| - p
  {
    if p < |src| && IsIdentByte(src[p] as int) then IdentEnd(src, p + 1) else p
  }

  /** The code points of a string, as `parse::<usize>` sees its text. */
  function Codes(s: string): (r: seq<int>)
    ensures |r| == |s| && forall i :: 0 <= i < |s| ==> r[i] == s[i] as int
  {
    seq(|s|, i requires 0 <= i < |s| => s[i] as int)
  }

  /** A comment starts with `#` or with `//`. */
  predicate IsCommentStart(src: string, p: nat)
    requires p < |src|
  {
    src[p] == '#' || (src[p] == '/' && At(src, p + 1) == '/')
  }

  /** A word is its keyword, or an identifier. */
  function WordSymbol(word: string): Symbol {
    match WordKeyword(word)
    case Some(kw) => kw
    case None => Identifier
  }

  /** The token (or lexical error) `read_symbol` produces when the cursor is
      at character `p`, and the character position where it leaves the
      cursor. Spans are byte offsets. */
  function NextToken(src: string, p: nat): (r: (CResult<Q<Symbol>>, nat))
    requires p <= |src|
    decreases |src| - p, 1
  {
    TokenAt(src, SkipSpace(src, p))
  }

  /** The token read once whitespace before `p` is skipped. */
  function TokenAt(src: string, p: nat): (r: (CResult<Q<Symbol>>, nat))
    requires p <= |src|
    decreases |src| - p, 0
  {
    var b := Offset(src, p);
    if p == |src| then (Ok(Q(Null, Quote(b, b))), p)
    else
      var c := src[p];
      if Punctuation(c).Some? then (Ok(Q(Punctuation(c).value, Quote(b, Offset(src, p + 1)))), p + 1)
      else if IsAsciiDigit(c as int) then
        var k := DigitsEnd(src, p);
        if ParseUsize(Codes(src[p..k])).None? then (Err(Error(Quote(b, Offset(src, k)), InvalidNumber)), k)
        else (Ok(Q(Number, Quote(b, Offset(src, k)))), k)
      else if IsIdentStart(c) then
        var k := IdentEnd(src, p);
        (Ok(Q(WordSymbol(src[p..k]), Quote(b, Offset(src, k)))), k)
      else if IsCommentStart(src, p) then NextToken(src, LineEnd(src, p))
      else (Err(Error(Quote(b, Offset(src, p + 1)), UnexpectedCharacter)), p + 1)
  }

  /** The cursor of the source. */
  class Lexer {
    const source: string
    /** Byte offset into the source, as in the source program. */
    var index: nat
    /** Character position matching `index`. */
    var pos: nat

    ghost predicate Valid()
      reads this
    {
      NoNul(source) && pos <= |source| && index == Offset(source, pos)
    }

    constructor (source: string)
      requires NoNul(source)
      ensures Valid() && this.source == source && index == 0 && pos == 0
    {
      this.source := source;
      index := 0;
      pos := 0;
    }

    /** The current character. */
    function Get(): char
      reads this
    {
      At(source, pos)
    }

    /** The character after the current one. */
    function Peek(): char
      reads this
    {
      At(source, pos + 1)
    }

    /** Step over the current character: its UTF-8 length in bytes. */
    method Advance()
      modifies this
      ensures index == old(index) + Utf8Len(old(Get())) && pos == old(pos) + 1
    {
      index := index + Utf8Len(Get());
      pos := pos + 1;
    }

    method QuoteNext(value: Symbol, start: nat) returns (r: CResult<Q<Symbol>>)
      modifies this
      ensures index == old(index) + Utf8Len(old(Get())) && pos == old(pos) + 1
      ensures r == Ok(Q(value, Quote(start, index)))
    {
      Advance();
      r := Ok(Q(value, Quote(start, index)));
    }

    method ErrorNext(reason: Reason, start: nat) returns (r: CResult<Q<Symbol>>)
      modifies this
      ensures index == old(index) + Utf8Len(old(Get())) && pos == old(pos) + 1
      ensures r == Err(Error(Quote(start, index), reason))
    {
      Advance();
      r := Err(Error(Quote(start, index), reason));
    }

    /** Skip through the first line break, or to the end. */
    method SkipLine()
      requires Valid()
      modifies this
      ensures Valid() && pos == LineEnd(source, old(pos))
    {
      while Get() != NULL
        invariant Valid()
        invariant LineEnd(source, pos) == LineEnd(source, old(pos))
        decreases |source| - pos
      {
        var c := Get();
        Advance();
        if IsLineBreak(c) {
          break;
        }
      }
    }

    method SkipWhitespace()
      requires Valid()
      modifies this
      ensures Valid() && pos == SkipSpace(source, old(pos))
    {
      while IsAsciiWhitespace(Get() as int)
        invariant Valid()
        invariant SkipSpace(source, pos) == SkipSpace(source, old(pos))
        decreases |source| - pos
      {
        Advance();
      }
    }

    method ReadNumber() returns (r: CResult<Q<Symbol>>)
      requires Valid()
      modifies this
      ensures Valid() && pos == DigitsEnd(source, old(pos))
      ensures r == if ParseUsize(Codes(source[old(pos)..pos])).None?
                   then Err(Error(Quote(old(index), index), InvalidNumber))
                   else Ok(Q(Number, Quote(old(index), index)))
    {
      var start, startPos := index, pos;
      while IsAsciiDigit(Get() as int)
        invariant Valid() && startPos <= pos
        invariant DigitsEnd(source, pos) == DigitsEnd(source, startPos)
        decreases |source| - pos
      {
        Advance();
      }
      if ParseUsize(Codes(source[startPos..pos])).None? {
        return Err(Error(Quote(start, index), InvalidNumber));
      }
      r := Ok(Q(Number, Quote(start, index)));
    }

    method ReadIdentifier() returns (r: CResult<Q<Symbol>>)
      requires Valid()
      modifies this
      ensures Valid() && pos == IdentEnd(source, old(pos))
      ensures r == Ok(Q(WordSymbol(source[old(pos)..pos]), Quote(old(index), index)))
    {
      var start, startPos := index, pos;
      while IsIdentByte(Get() as int)
        invariant Valid() && startPos <= pos
        invariant IdentEnd(source, pos) == IdentEnd(source, startPos)
        decreases |source| - pos
      {
        Advance();
      }
      var word := source[startPos..pos];
      if word in WORDS {
        return Ok(Q(WORDS[word], Quote(start, index)));
      }
      r := Ok(Q(Identifier, Quote(start, index)));
    }

    /** Produce the next token, skipping whitespace and comments. */
    method ReadSymbol() returns (r: CResult<Q<Symbol>>)
      requires Valid()
      modifies this
      ensures Valid()
      ensures (r, pos) == NextToken(source, old(pos))
    {
      while true
        invariant Valid()
        invariant NextToken(source, pos) == NextToken(source, old(pos))
        decreases |source| - pos
      {
        SkipWhitespace();
        var t := ReadAt();
        if t.Some? {
          return t.value;
        }
      }
    }

    /** The token at the cursor once whitespace is skipped, or `None` when
        the cursor was at a comment and has skipped it. */
    method ReadAt() returns (r: Option<CResult<Q<Symbol>>>)
      requires Valid()
      modifies this
      ensures Valid()
      ensures r.Some? ==> (r.value, pos) == TokenAt(source, old(pos))
      ensures r.None? ==> old(pos) < pos && TokenAt(source, old(pos)) == NextToken(source, pos)
    {
      var start := index;
      var c := Get();
      if c == NULL {
        return Some(Ok(Q(Null, Quote(start, index))));
      }
      var p := Punctuation(c);
      var t;
      if p.Some? {
        t := QuoteNext(p.value, start);
      } else if IsAsciiDigit(c as int) {
        t := ReadNumber();
      } else if IsIdentStart(c) {
        t := ReadIdentifier();
      } else if c == '#' || (c == '/' && Peek() == '/') {
        SkipLine();
        return None;
      } else {
        t := ErrorNext(UnexpectedCharacter, start);
      }
      r := Some(t);
    }
  }

  /** The range a token or a lexical error reports. */
  function Span(r: CResult<Q<Symbol>>): Quote {
    match r
    case Ok(t) => t.quote
    case Err(e) => e.quote
  }

  /** Offsets grow with the position, by at least one byte per character. */
  lemma {:induction false} OffsetMonotone(src: string, p: nat, q: nat)
    requires p <= q <= |src|
    ensures Offset(src, p) + (q - p) <= Offset(src, q)
    decreases q - p
  {
    if p < q {
      OffsetMonotone(src, p, q - 1);
    }
  }

  /** Every span lies between the old and the new cursor, ends exactly at
      the new cursor's byte offset, and the cursor never moves backwards. */
  lemma {:induction false} TokenBounds(src: string, p: nat)
    requires p <= |src|
    ensures var (r, n) := NextToken(src, p);
      p <= n <= |src| && Offset(src, p) <= Span(r).start <= Span(r).end == Offset(src, n)
    decreases |src| - p
  {
    var j := SkipSpace(src, p);
    OffsetMonotone(src, p, j);
    if j < |src| {
      OffsetMonotone(src, j, j + 1);
      if Punctuation(src[j]).None? && !IsAsciiDigit(src[j] as int) && !IsIdentStart(src[j]) && IsCommentStart(src, j) {
        TokenBounds(src, LineEnd(src, j));
        OffsetMonotone(src, j, LineEnd(src, j));
      } else if Punctuation(src[j]).None? && IsAsciiDigit(src[j] as int) {
        OffsetMonotone(src, j, DigitsEnd(src, j));
      } else if Punctuation(src[j]).None? && IsIdentStart(src[j]) {
        OffsetMonotone(src, j, IdentEnd(src, j));
      }
    }
  }

  /** `Null` is reported only at the end of the source, as an empty span,
      and asking again yields the same `Null`. */
  lemma {:induction false} NullAtEnd(src: string, p: nat)
    requires p <= |src|
    ensures var (r, n) := NextToken(src, p);
      r.Ok? && r.value.value == Null ==>
        n == |src| && r.value.quote == Quote(Offset(src, n), Offset(src, n)) &&
        NextToken(src, n) == NextToken(src, p)
    decreases |src| - p
  {
    var j := SkipSpace(src, p);
    if j < |src| && Punctuation(src[j]).None? && !IsAsciiDigit(src[j] as int) && !IsIdentStart(src[j]) && IsCommentStart(src, j) {
      NullAtEnd(src, LineEnd(src, j));
    }
  }

  /** Every outcome other than `Null` moves the cursor forward. */
  lemma {:induction false} TokenProgress(src: string, p: nat)
    requires p <= |src|
    ensures var (r, n) := NextToken(src, p);
      !(r.Ok? && r.value.value == Null) ==> p < n
    decreases |src| - p
  {
    var j := SkipSpace(src, p);
    if j < |src| && Punctuation(src[j]).None? && !IsAsciiDigit(src[j] as int) && !IsIdentStart(src[j]) && IsCommentStart(src, j) {
      TokenProgress(src, LineEnd(src, j));
      TokenBounds(src, LineEnd(src, j));
    } else if j < |src| && Punctuation(src[j]).None? && IsAsciiDigit(src[j] as int) {
      assert DigitsEnd(src, j) > j;
    } else if j < |src| && Punctuation(src[j]).None? && IsIdentStart(src[j]) {
      assert IdentEnd(src, j) > j;
    }
  }

  /** A character that starts no token is an `UnexpectedCharacter` error
      covering all of its UTF-8 bytes, and lexing resumes after it. */
  lemma UnexpectedCharacterSpan(src: string, p: nat)
    requires p <= |src|
    requires var j := SkipSpace(src, p);
      j < |src| && Punctuation(src[j]).None? && !IsIdentByte(src[j] as int) && !IsCommentStart(src, j)
    ensures var j := SkipSpace(src, p);
      var (r, n) := NextToken(src, p);
      n == j + 1 && r.Err? && r.error.reason == UnexpectedCharacter &&
      r.error.quote.end - r.error.quote.start == Utf8Len(src[j])
  {
  }

  /** On ASCII text every character is one byte, so byte offsets and
      character positions coincide. */
  lemma {:induction false} AsciiOffset(src: string, p: nat)
    requires p <= |src|
    requires forall i :: 0 <= i < |src| ==> src[i] as int < 128
    ensures Offset(src, p) == p
  {
    if p > 0 {
      AsciiOffset(src, p - 1);
    }
  }

  lemma AsciiSpans(src: string)
    requires forall i :: 0 <= i < |src| ==> src[i] as int < 128
    ensures forall k :: 0 <= k <= |src| ==> Offset(src, k) == k
  {
    forall k | 0 <= k <= |src|
      ensures Offset(src, k) == k
    {
      AsciiOffset(src, k);
    }
  }

  /** On ASCII text the character lexer and the byte lexer produce the same
      tokens, spans and errors. */
  lemma {:induction false} AgreesWithByteLexer(src: string, p: nat)
    requires p <= |src|
    requires forall i :: 0 <= i < |src| ==> src[i] as int < 128
    ensures NextToken(src, p) == ByteLexer.NextToken(Bytes(src), p)
    decreases |src| - p
  {
    SkipSpaceAgrees(src, p);
    var j := SkipSpace(src, p);
    if j < |src| && Punctuation(src[j]).None? && !IsAsciiDigit(src[j] as int) && !IsIdentStart(src[j])
       && IsCommentStart(src, j) {
      CommentAgrees(src, j);
      AgreesWithByteLexer(src, LineEnd(src, j));
    } else {
      TokenAtAgrees(src, j);
    }
  }

  /** A comment is skipped to the same place by both lexers. */
  lemma CommentAgrees(src: string, j: nat)
    requires j < |src| && Punctuation(src[j]).None? && !IsAsciiDigit(src[j] as int) && !IsIdentStart(src[j])
    requires IsCommentStart(src, j)
    requires forall i :: 0 <= i < |src| ==> src[i] as int < 128
    ensures TokenAt(src, j) == NextToken(src, LineEnd(src, j))
    ensures ByteLexer.TokenAt(Bytes(src), j) == ByteLexer.NextToken(Bytes(src), LineEnd(src, j))
  {
    var b := Bytes(src);
    assert b[j] == src[j] as int;
    assert At(src, j + 1) as int == ByteLexer.At(b, j + 1);
    PunctuationAgrees(src[j]);
    LineEndAgrees(src, j);
  }

  /** Away from comments, the token read at `j` is the same. */
  lemma TokenAtAgrees(src: string, j: nat)
    requires j <= |src|
    requires forall i :: 0 <= i < |src| ==> src[i] as int < 128
    requires j < |src| && Punctuation(src[j]).None? && !IsAsciiDigit(src[j] as int) && !IsIdentStart(src[j]) ==>
      !IsCommentStart(src, j)
    ensures TokenAt(src, j) == ByteLexer.TokenAt(Bytes(src), j)
  {
    var b := Bytes(src);
    AsciiSpans(src);
    if j < |src| {
      var c := src[j];
      assert b[j] == c as int;
      assert At(src, j + 1) as int == ByteLexer.At(b, j + 1);
      PunctuationAgrees(c);
      if Punctuation(c).None? && IsAsciiDigit(c as int) {
        NumberAgrees(src, j);
      } else if Punctuation(c).None? && IsIdentStart(c) {
        WordAgrees(src, j);
      }
    }
  }

  lemma NumberAgrees(src: string, j: nat)
    requires j < |src| && Punctuation(src[j]).None? && IsAsciiDigit(src[j] as int)
    requires forall i :: 0 <= i < |src| ==> src[i] as int < 128
    ensures TokenAt(src, j) == ByteLexer.TokenAt(Bytes(src), j)
  {
    var b := Bytes(src);
    AsciiSpans(src);
    assert b[j] == src[j] as int;
    PunctuationAgrees(src[j]);
    DigitsEndAgrees(src, j);
    var k := DigitsEnd(src, j);
    assert Codes(src[j..k]) == b[j..k];
  }

  lemma WordAgrees(src: string, j: nat)
    requires j < |src| && Punctuation(src[j]).None? && !IsAsciiDigit(src[j] as int) && IsIdentStart(src[j])
    requires forall i :: 0 <= i < |src| ==> src[i] as int < 128
    ensures TokenAt(src, j) == ByteLexer.TokenAt(Bytes(src), j)
  {
    var b := Bytes(src);
    AsciiSpans(src);
    assert b[j] == src[j] as int;
    PunctuationAgrees(src[j]);
    IdentEndAgrees(src, j);
    var k := IdentEnd(src, j);
    WordTablesAgree(src[j..k]);
    assert Bytes(src[j..k]) == b[j..k];
  }

  lemma PunctuationAgrees(c: char)
    requires (c as int) < 128
    ensures Punctuation(c) == ByteLexer.Punctuation(c as int)
  {
  }

  lemma {:induction false} SkipSpaceAgrees(src: string, p: nat)
    requires p <= |src|
    requires forall i :: 0 <= i < |src| ==> src[i] as int < 128
    ensures SkipSpace(src, p) == ByteLexer.SkipSpace(Bytes(src), p)
    decreases |src| - p
  {
    if p < |src| {
      SkipSpaceAgrees(src, p + 1);
    }
  }

  lemma {:induction false} LineEndAgrees(src: string, p: nat)
    requires p <= |src|
    requires forall i :: 0 <= i < |src| ==> src[i] as int < 128
    ensures LineEnd(src, p) == ByteLexer.LineEnd(Bytes(src), p)
    decreases |src| - p
  {
    if p < |src| {
      LineEndAgrees(src, p + 1);
    }
  }

  lemma {:induction false} DigitsEndAgrees(src: string, p: nat)
    requires p <= |src|
    requires forall i :: 0 <= i < |src| ==> src[i] as int < 128
    ensures DigitsEnd(src, p) == ByteLexer.DigitsEnd(Bytes(src), p)
    decreases |src| - p
  {
    if p < |src| {
      DigitsEndAgrees(src, p + 1);
    }
  }

  lemma {:induction false} IdentEndAgrees(src: string, p: nat)
    requires p <= |src|
    requires forall i :: 0 <= i < |src| ==> src[i] as int < 128
    ensures IdentEnd(src, p) == ByteLexer.IdentEnd(Bytes(src), p)
    decreases |src| - p
  {
    if p < |src| {
      IdentEndAgrees(src, p + 1);
    }
  }
}
