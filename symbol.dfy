/** The token kinds, the keyword tables and the classification of operators
    (crates/compiler/src/symbol.rs for the byte-oriented front end and
    crates/compiler/src/parser/symbol.rs for the character-oriented one; the
    two files declare the same tokens and differ only in the key type of
    their keyword table). */
module Symbols {
  import opened Common

  /** A part of the lexed source. */
  datatype Symbol =
    // punctuation
    | Semicolon | Equal | Punct | Comma | LeftParen | RightParen
    // keywords (the operator keywords also stand for `!`, `&`, `|`, `^`)
    | Let | Not | And | Or | Xor | True | False
    // literals
    | Number | Identifier
    // end of input
    | Null

  /** The keyword table, keyed by the identifier's bytes. */
  const KEYWORDS: map<seq<Byte>, Symbol> := map[
    Bytes("let") := Let,
    Bytes("not") := Not,
    Bytes("and") := And,
    Bytes("or") := Or,
    Bytes("xor") := Xor,
    Bytes("true") := True,
    Bytes("false") := False
  ]

  predicate IsUnaryOp(s: Symbol) {
    s == Not
  }

  predicate IsBinaryOp(s: Symbol) {
    s == And || s == Or || s == Xor
  }

  /** Binding strength of a binary operator; any other token panics in the
      source, so it is excluded here. */
  function Precedence(s: Symbol): (p: nat)
    requires IsBinaryOp(s)
    ensures 1 <= p <= 3
  {
    match s
    case And => 3
    case Xor => 2
    case Or => 1
  }

  /** Looking a run of identifier bytes up in the keyword table. */
  function Keyword(word: seq<Byte>): (r: Option<Symbol>)
    ensures r.Some? <==> word in KEYWORDS
    ensures r.Some? ==> r.value in {Let, Not, And, Or, Xor, True, False}
  {
    if word in KEYWORDS then Some(KEYWORDS[word]) else None
  }

  /** Every key of the table is a run the lexer reads as an identifier: it
      starts with a letter and holds only identifier bytes. */
  lemma KeywordsAreIdentifierRuns(word: seq<Byte>)
    requires word in KEYWORDS
    ensures |word| > 0 && IsAsciiLetter(word[0])
    ensures forall i :: 0 <= i < |word| ==> IsIdentByte(word[i])
  {
  }

  /** The table holds exactly the seven keywords and maps each one to its own
      token. */
  lemma KeywordsExactly(word: seq<Byte>)
    ensures word in KEYWORDS <==>
      word in {Bytes("let"), Bytes("not"), Bytes("and"), Bytes("or"), Bytes("xor"), Bytes("true"), Bytes("false")}
    ensures word == Bytes("let") ==> KEYWORDS[word] == Let
    ensures word == Bytes("not") ==> KEYWORDS[word] == Not
    ensures word == Bytes("and") ==> KEYWORDS[word] == And
    ensures word == Bytes("or") ==> KEYWORDS[word] == Or
    ensures word == Bytes("xor") ==> KEYWORDS[word] == Xor
    ensures word == Bytes("true") ==> KEYWORDS[word] == True
    ensures word == Bytes("false") ==> KEYWORDS[word] == False
  {
    KeywordSpellingsDistinct();
  }

  /** The seven spellings differ, so no entry of the table hides another. */
  lemma KeywordSpellingsDistinct()
    ensures |{Bytes("let"), Bytes("not"), Bytes("and"), Bytes("or"), Bytes("xor"), Bytes("true"), Bytes("false")}| == 7
  {
    assert Bytes("let")[0] == 'l' as int;
    assert Bytes("not")[0] == 'n' as int;
    assert Bytes("and")[0] == 'a' as int;
    assert Bytes("or")[0] == 'o' as int;
    assert Bytes("xor")[0] == 'x' as int;
    assert Bytes("true")[0] == 't' as int;
    assert Bytes("false")[0] == 'f' as int;
  }

  /** No two keywords share a token, so the table can be inverted. */
  lemma KeywordsInjective(w1: seq<Byte>, w2: seq<Byte>)
    requires w1 in KEYWORDS && w2 in KEYWORDS
    requires KEYWORDS[w1] == KEYWORDS[w2]
    ensures w1 == w2
  {
    KeywordSpellingsDistinct();
  }

  /** Only `not` is unary and only `and`, `or`, `xor` are binary, so no token
      is both. */
  lemma OperatorClassesDisjoint(s: Symbol)
    ensures IsUnaryOp(s) <==> s == Not
    ensures IsBinaryOp(s) <==> s in {And, Or, Xor}
    ensures !(IsUnaryOp(s) && IsBinaryOp(s))
  {
  }

  /** Precedence orders the binary operators strictly: and over xor over or,
      and it tells different operators apart. */
  lemma PrecedenceOrder(a: Symbol, b: Symbol)
    requires IsBinaryOp(a) && IsBinaryOp(b)
    ensures Precedence(And) > Precedence(Xor) > Precedence(Or)
    ensures Precedence(a) == Precedence(b) <==> a == b
  {
  }

  /** The keyword table of the character-oriented front end, keyed by text. */
  const WORDS: map<string, Symbol> := map[
    "let" := Let,
    "not" := Not,
    "and" := And,
    "or" := Or,
    "xor" := Xor,
    "true" := True,
    "false" := False
  ]

  /** Looking a word up in the text-keyed table. */
  function WordKeyword(word: string): (r: Option<Symbol>)
    ensures r.Some? <==> word in WORDS
    ensures r.Some? ==> r.value in {Let, Not, And, Or, Xor, True, False}
  {
    if word in WORDS then Some(WORDS[word]) else None
  }

  /** The two keyword tables agree: an ASCII word is a key of the text table
      exactly when its bytes are a key of the byte table, with the same token. */
  lemma {:induction false} WordTablesAgree(word: string)
    requires forall i :: 0 <= i < |word| ==> word[i] as int < 128
    ensures word in WORDS <==> Bytes(word) in KEYWORDS
    ensures word in WORDS ==> WORDS[word] == KEYWORDS[Bytes(word)]
  {
    KeywordSpellingsDistinct();
    forall w: string | w in WORDS && Bytes(word) == Bytes(w)
      ensures word == w
    {
      BytesInjective(word, w);
    }
  }

  lemma {:induction false} BytesInjective(a: string, b: string)
    requires forall i :: 0 <= i < |a| ==> a[i] as int < 128
    requires forall i :: 0 <= i < |b| ==> b[i] as int < 128
    requires Bytes(a) == Bytes(b)
    ensures a == b
  {
    assert |a| == |b|;
    forall i | 0 <= i < |a|
      ensures a[i] == b[i]
    {
      assert Bytes(a)[i] == Bytes(b)[i];
    }
  }
}
