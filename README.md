# fpp-lang compiler core, modelled in Dafny

fpp-lang compiles a small boolean ladder-logic language into Siemens S7 STL
("AWL") instruction lists. This project models its compiler pipeline and
proves properties of the model. The stages, one module each, are:

- **Two lexers.** `ByteLexer` is the byte-oriented one in `lexer.rs`. `CharLexer` is the UTF-8 one in `parser/lexer.rs`, which keeps byte offsets in its spans.
- **The token tables** (`Symbols`). These are the keyword map, the operator classes and the operator precedence.
- **Two recursive-descent parsers.** `HirParser` is the newer one in `parser/mod.rs`, with call statements and range-checked bit addresses. `LegacyParser` is the older one in `parser.rs`, which classifies addresses by `ParserOptions`.
- **MIR construction.**
  - `Mir` holds the bump allocator and variable lookup.
  - `Builtins` holds `rs`, `sr`, `MB`, `MW`, `MD` and the counter, with their argument checks.
  - `MirTransformer` lowers HIR values and statements.
- **The instruction writer** (`Writer`). It turns value trees into bracketed stack-machine code.
- **The bracket optimizer** (`Optimizer`). It works in place on an array with dummy slots, then compacts.
- **The S7 back end** (`Lir`). It checks address classes, limits the operand stack to seven open brackets, and moves allocated addresses by the allocator's offset.
- **The older compiler revision** (`LegacyMir`). This covers the trait-based write handlers of `mir/value.rs` and the reverse-scanning `compiler/mod.rs`.
- **Diagnostics** (`Messages`). These are `line_number`, `find_line`, `MessageContent::parse` and `MessageType::text`.

Each stage follows the same pattern.

- **A pure function per routine.** Each routine of the source has a function on values. It gives the result and the new state, or the first error.
  - `Outcome.Panic` stands where the source panics or never returns.
  - `Option.None` plays that role in the optimizer's `BracketPass`.
- **An imperative method per routine.** The class, method or in-place array algorithm is written the way the source works. Its `ensures` ties its result and new state to that function.
- **Lemmas.** They state what the source promises about the functions.

The two revisions of the lexer, the parser and the MIR back end are kept apart, as they are in the repository:

- `find_var` returns the first binding of a name.
- `compile_write` returns the most recent one.

## Model

| member | source | states |
|---|---|---|
| Symbols.Precedence | crates/compiler/src/symbol.rs:60-65 | Defined only for binary operators (anything else panics in the source); the value is between 1 and 3 |
| Symbols.Keyword | crates/compiler/src/symbol.rs:3-11 | A word is found exactly when it is a key of the keyword table, and it then maps to one of the seven keyword tokens |
| Symbols.KeywordsExactly | crates/compiler/src/symbol.rs:3-11 | The table's keys are exactly let, not, and, or, xor, true and false, each mapped to its own token |
| Symbols.KeywordSpellingsDistinct | crates/compiler/src/symbol.rs:3-11 | The seven spellings are pairwise different |
| Symbols.KeywordsInjective | crates/compiler/src/symbol.rs:3-11 | No two keys share a token |
| Symbols.KeywordsAreIdentifierRuns | crates/compiler/src/symbol.rs:3-11 | Every key starts with a letter and holds only identifier bytes, so the lexer's identifier run can reach it |
| Symbols.OperatorClassesDisjoint | crates/compiler/src/symbol.rs:52-58 | `is_unary_op` holds exactly for Not, `is_binary_op` exactly for And/Or/Xor, and no token is both |
| Symbols.PrecedenceOrder | crates/compiler/src/symbol.rs:60-65 | And > Xor > Or strictly, and equal precedence means the same operator |
| Symbols.WordKeyword | crates/compiler/src/parser/symbol.rs:3-11 | The text-keyed lookup finds exactly the keys of that table, mapping them to keyword tokens |
| Symbols.WordTablesAgree | crates/compiler/src/parser/symbol.rs:3-11 | On ASCII words the text-keyed and byte-keyed tables hold the same keys with the same tokens |
| Common.Text | crates/compiler/src/parser.rs:93-97 | Slicing the source by a quote succeeds exactly inside the source, yields end - start bytes, and panics (never fails) otherwise |
| ByteLexer.LineEnd | crates/compiler/src/lexer.rs:72-80 | Stops just after the first `\n`/`\r`, or at the end; no line break is skipped before it, and a non-empty rest always advances |
| ByteLexer.SkipSpace | crates/compiler/src/lexer.rs:82-86 | The end of the maximal run of ASCII whitespace |
| ByteLexer.DigitsEnd | crates/compiler/src/lexer.rs:88-93 | The end of the maximal digit run |
| ByteLexer.IdentEnd | crates/compiler/src/lexer.rs:103-107 | The end of the maximal `[A-Za-z0-9_]` run |
| ByteLexer.Lexer.constructor | crates/compiler/src/lexer.rs:20-26 | Requires no NUL byte (the source asserts it); the cursor starts at 0 |
| ByteLexer.Lexer.Advance | crates/compiler/src/lexer.rs:39-41 | The index grows by exactly one |
| ByteLexer.Lexer.QuoteNext | crates/compiler/src/lexer.rs:48-52 | Advances one byte and quotes the token from `start` to the new index |
| ByteLexer.Lexer.ErrorNext | crates/compiler/src/lexer.rs:63-67 | Advances one byte and reports the reason from `start` to the new index |
| ByteLexer.Lexer.SkipLine | crates/compiler/src/lexer.rs:72-80 | Moves the index to `LineEnd` of where it was |
| ByteLexer.Lexer.SkipWhitespace | crates/compiler/src/lexer.rs:82-86 | Moves the index to the first byte that is not ASCII whitespace |
| ByteLexer.Lexer.ReadNumber | crates/compiler/src/lexer.rs:88-101 | Consumes the maximal digit run; a Number token over it, or InvalidNumber over the same run when it does not parse as a usize |
| ByteLexer.Lexer.ReadIdentifier | crates/compiler/src/lexer.rs:103-113 | Consumes the maximal identifier run; its keyword if the run is in KEYWORDS, else Identifier |
| ByteLexer.Lexer.ReadSymbol | crates/compiler/src/lexer.rs:115-147 | The token and new index are those of the token function `NextToken` at the old index |
| ByteLexer.NextToken | crates/compiler/src/lexer.rs:115-147 | The token `read_symbol` returns at an index, after whitespace (its properties: `TokenBounds`, `NullAtEnd`, `TokenProgress` and the token lemmas) |
| ByteLexer.TokenAt | crates/compiler/src/lexer.rs:118-145 | One round of the `read_symbol` loop at a non-space byte: Null at the end, punctuation, number, word, a comment skipped, or UnexpectedCharacter |
| ByteLexer.TokenBounds | crates/compiler/src/lexer.rs:39-41 | Every span lies between the old and new index and ends at the new index; the index never decreases |
| ByteLexer.NullAtEnd | crates/compiler/src/lexer.rs:115-120 | Null comes only at the end of input, as a zero-width span there, and asking again yields the same Null |
| ByteLexer.TokenProgress | crates/compiler/src/lexer.rs:115-147 | Every outcome other than Null has a non-empty span and moves the index forward |
| ByteLexer.PunctuationToken | crates/compiler/src/lexer.rs:121-130 | Each of `; = . , ( ) ! & \| ^` is its token with a one-byte span |
| ByteLexer.WordToken | crates/compiler/src/lexer.rs:103-113 | A word is the maximal identifier run; the keyword wins when the run is a key, else Identifier |
| ByteLexer.NumberToken | crates/compiler/src/lexer.rs:88-101 | A digit run is one Number token when its value fits a usize, otherwise InvalidNumber over the whole run |
| ByteLexer.CommentSkipped | crates/compiler/src/lexer.rs:131-143 | After `#` or `//`, lexing resumes just past the first line break |
| ByteLexer.UnexpectedByte | crates/compiler/src/lexer.rs:136-144 | A lone `/` or any byte that starts no token (including bytes >= 0x80) is UnexpectedCharacter over exactly that byte, and lexing resumes after it |
| CharLexer.Utf8Len | crates/compiler/src/parser/lexer.rs:45-47 | A character takes 1 to 4 bytes, and exactly one byte when it is ASCII |
| CharLexer.Offset | crates/compiler/src/parser/lexer.rs:45-47 | The byte offset of the p-th character lies between p and 4p |
| CharLexer.LineEnd | crates/compiler/src/parser/lexer.rs:78-86 | Stops just after the first line break, or at the end |
| CharLexer.SkipSpace | crates/compiler/src/parser/lexer.rs:88-92 | The end of the maximal run of ASCII whitespace |
| CharLexer.DigitsEnd | crates/compiler/src/parser/lexer.rs:94-98 | The end of the maximal digit run |
| CharLexer.IdentEnd | crates/compiler/src/parser/lexer.rs:106-110 | The end of the maximal identifier run |
| CharLexer.Codes | crates/compiler/src/parser/lexer.rs:99-103 | The code points `parse::<usize>` reads, one per character |
| CharLexer.Lexer.constructor | crates/compiler/src/parser/lexer.rs:20-26 | Requires no NUL character (the source asserts it); both cursors start at 0 |
| CharLexer.Lexer.Advance | crates/compiler/src/parser/lexer.rs:45-47 | The byte index grows by the current character's UTF-8 length, so it stays on a character boundary |
| CharLexer.Lexer.QuoteNext | crates/compiler/src/parser/lexer.rs:55-58 | Advances one character and quotes from `start` to the new byte index |
| CharLexer.Lexer.ErrorNext | crates/compiler/src/parser/lexer.rs:70-73 | Advances one character and reports from `start` to the new byte index |
| CharLexer.Lexer.SkipLine | crates/compiler/src/parser/lexer.rs:78-86 | Moves the cursor to `LineEnd` of where it was |
| CharLexer.Lexer.SkipWhitespace | crates/compiler/src/parser/lexer.rs:88-92 | Moves the cursor past ASCII whitespace |
| CharLexer.Lexer.ReadNumber | crates/compiler/src/parser/lexer.rs:94-104 | Consumes the maximal digit run; Number, or InvalidNumber over the run's bytes when it is no usize |
| CharLexer.Lexer.ReadIdentifier | crates/compiler/src/parser/lexer.rs:106-116 | Consumes the maximal identifier run; keyword first, else Identifier |
| CharLexer.Lexer.ReadSymbol | crates/compiler/src/parser/lexer.rs:118-150 | Token and new cursor are those of `NextToken` at the old cursor |
| CharLexer.NextToken | crates/compiler/src/parser/lexer.rs:118-150 | The token `read_symbol` returns at a character position, after whitespace, with byte spans (its properties: `TokenBounds`, `NullAtEnd`, `TokenProgress`, `AgreesWithByteLexer`) |
| CharLexer.TokenAt | crates/compiler/src/parser/lexer.rs:121-148 | One round of the `read_symbol` loop at a non-space character, as for the byte lexer but spanning UTF-8 bytes |
| CharLexer.Lexer.ReadAt | crates/compiler/src/parser/lexer.rs:118-150 | One round of the `read_symbol` loop: a token as `TokenAt` gives it, or a skipped comment after which lexing goes on further along |
| CharLexer.OffsetMonotone | crates/compiler/src/parser/lexer.rs:45-47 | Byte offsets grow by at least one per character |
| CharLexer.TokenBounds | crates/compiler/src/parser/lexer.rs:118-150 | Spans lie between the old and new byte offsets and end at the new one; the cursor never moves back |
| CharLexer.NullAtEnd | crates/compiler/src/parser/lexer.rs:118-123 | Null only at the end of input, zero-width at the end's byte offset, and repeated reads return it again |
| CharLexer.TokenProgress | crates/compiler/src/parser/lexer.rs:118-150 | Every outcome other than Null advances the cursor |
| CharLexer.UnexpectedCharacterSpan | crates/compiler/src/parser/lexer.rs:70-73 | An unexpected character is reported over all of its UTF-8 bytes, and lexing resumes after it |
| CharLexer.AsciiOffset | crates/compiler/src/parser/lexer.rs:45-47 | On ASCII text the byte offset equals the character position |
| CharLexer.AsciiSpans | crates/compiler/src/parser/lexer.rs:45-47 | On ASCII text every character position is its own byte offset |
| CharLexer.AgreesWithByteLexer | crates/compiler/src/parser/lexer.rs:118-150 | On ASCII text the character lexer yields the same tokens, spans, errors and cursor as the byte lexer, so keyword priority, number errors, comment skipping and the one-character `/` error carry over |
| HirParser.ParseNumber | crates/compiler/src/parser/mod.rs:96-117 | A number's value fits a usize; otherwise InvalidNumber at its quote |
| HirParser.Next | crates/compiler/src/parser/mod.rs:47-50 | The buffer takes the lexer's next token exactly when the lexer succeeds; a real token in the buffer is consumed |
| HirParser.Expected | crates/compiler/src/parser/mod.rs:52-59 | A mismatch is UnexpectedSymbol at the buffered token; a match returns that token's quote and advances |
| HirParser.AddressPrefix | crates/compiler/src/parser/mod.rs:80-93 | Ok exactly when the prefix has at least two characters, a one-byte first character and a decimal usize after it, returning that byte and that value; otherwise InvalidBitAddressSymbol over the given range |
| HirParser.RawAddress | crates/compiler/src/parser/mod.rs:96-117 | A bad pointer number is its InvalidNumber error; once both numbers parse, Ok exactly when number, `.` and bit touch, the pointer is at most 65535 and the bit at most 7, giving a NUL-prefixed address from the pointer's start to the bit's end; otherwise InvalidBitAddressSymbol over that same range |
| HirParser.PrefixedAddress | crates/compiler/src/parser/mod.rs:120-140 | A missing `.` is UnexpectedSymbol; once the bit number parses, Ok exactly when prefix, `.` and bit touch, the bit is at most 7 and the prefix is a one-byte character with a pointer of at most 65535, giving that address; otherwise InvalidBitAddressSymbol from the prefix's start to the bit's end |
| HirParser.ApplyUnary | crates/compiler/src/parser/mod.rs:287-293 | A Not node spanning from the operator's start to the operand's end |
| HirParser.ApplyBinary | crates/compiler/src/parser/mod.rs:295-303 | An And node for any binary operator, spanning left start to right end |
| HirParser.Args | crates/compiler/src/parser/mod.rs:152-160 | The argument loop only appends to what it was given, and keeps the trees free of Or/Xor nodes |
| HirParser.CallRaw | crates/compiler/src/parser/mod.rs:149-163 | Without `(` it is UnexpectedSymbol at the buffered token; a call keeps the name and starts at it |
| HirParser.CallValue | crates/compiler/src/parser/mod.rs:143-146 | A call value is a Call node starting at its name |
| HirParser.UnaryValue | crates/compiler/src/parser/mod.rs:166-209 | A token that starts no operand is InvalidUnaryOperation at that token; operands hold only And nodes |
| HirParser.BinaryValue | crates/compiler/src/parser/mod.rs:212-223 | The climb stops at a token that is not a binary operator and builds an And node from the left operand's start (the tree itself: `BinaryClimbs`) |
| HirParser.Chain | crates/compiler/src/parser/mod.rs:212-223 | The operator chain the climb reads: a non-empty list of binary operators, each with the operand after it, the first being the buffered operator |
| HirParser.BinaryClimbs | crates/compiler/src/parser/mod.rs:212-223 | For every input, `read_binary_value` fails exactly when reading the chain fails, with the same error, and otherwise returns the tree `Climb` builds from the chain, ending where the chain ends |
| HirParser.Value | crates/compiler/src/parser/mod.rs:226-232 | A value is followed by a token that is not a binary operator |
| HirParser.ValueClimbs | crates/compiler/src/parser/mod.rs:226-232 | When an operator follows the first operand, `read_value` is the climbed tree of the chain after it, or the chain's first error |
| HirParser.LetStatement | crates/compiler/src/parser/mod.rs:235-243 | A let statement starting at the `let` token |
| HirParser.WriteStatement | crates/compiler/src/parser/mod.rs:246-257 | A write of the given name, spanning from it |
| HirParser.IdentStatement | crates/compiler/src/parser/mod.rs:260-271 | `=` gives a write and `(` a call statement, both named by the identifier; any other token is UnexpectedSymbol at it |
| HirParser.Statements | crates/compiler/src/parser/mod.rs:273-284 | Null ends the list; a statement starting with anything but `let` or an identifier is UnexpectedSymbol at it |
| HirParser.Parse | crates/compiler/src/parser/mod.rs:273-284 | Reads the first token, then statements until Null (stated by `Statements`) |
| HirParser.Parser.constructor | crates/compiler/src/parser/mod.rs:33-40 | A fresh lexer and a Null token at offset 0 in the buffer |
| HirParser.Parser.Advance | crates/compiler/src/parser/mod.rs:47-50 | Follows `Next` |
| HirParser.Parser.Expect | crates/compiler/src/parser/mod.rs:52-59 | Follows `Expected`, and consumes nothing on a mismatch |
| HirParser.Parser.ReadRawAddress | crates/compiler/src/parser/mod.rs:96-117 | Follows `RawAddress` |
| HirParser.Parser.ReadPrefixedAddress | crates/compiler/src/parser/mod.rs:120-140 | Follows `PrefixedAddress` |
| HirParser.Parser.ReadCall | crates/compiler/src/parser/mod.rs:143-146 | Follows `CallValue` |
| HirParser.Parser.ReadCallRaw | crates/compiler/src/parser/mod.rs:149-163 | Follows `CallRaw`, whose loop becomes a `while` loop |
| HirParser.Parser.ReadUnaryValue | crates/compiler/src/parser/mod.rs:166-209 | Follows `UnaryValue` |
| HirParser.Parser.ReadBinaryValue | crates/compiler/src/parser/mod.rs:212-223 | Follows `BinaryValue` |
| HirParser.Parser.ReadValue | crates/compiler/src/parser/mod.rs:226-232 | Follows `Value` |
| HirParser.Parser.ReadLet | crates/compiler/src/parser/mod.rs:235-243 | Follows `LetStatement` |
| HirParser.Parser.ReadWrite | crates/compiler/src/parser/mod.rs:246-257 | Follows `WriteStatement` |
| HirParser.Parser.ReadIdentStatement | crates/compiler/src/parser/mod.rs:260-271 | Follows `IdentStatement` |
| HirParser.Parser.Parse | crates/compiler/src/parser/mod.rs:273-284 | Its statement loop returns what the parse function gives from the parser's state |
| HirParser.IdentOperand | crates/compiler/src/parser/mod.rs:190-200 | An identifier followed by neither `.` nor `(` is a variable reference over its span |
| HirParser.TighterOnRight | crates/compiler/src/parser/mod.rs:212-223 | `x or y and z` groups as x with (y and z): the tighter operator on the right binds first |
| HirParser.LooserOnRight | crates/compiler/src/parser/mod.rs:212-223 | `x and y xor z` groups as (x and y) with z: the looser operator on the right waits |
| HirParser.ClimbKeepsRight | crates/compiler/src/parser/mod.rs:212-223 | `a or b and c or d` groups as a with ((b and c) with d): an operator of equal precedence after a tighter one joins the right-hand side |
| HirParser.TrailingComma | crates/compiler/src/parser/mod.rs:149-163 | `f(x,)` has the single argument x |
| HirParser.MissingParen | crates/compiler/src/parser/mod.rs:149-163 | A missing `)` is UnexpectedSymbol at the token found instead |
| HirParser.Parenthesised | crates/compiler/src/parser/mod.rs:173-178 | `( v )` is v itself with v's span |
| LegacyParser.Next | crates/compiler/src/parser.rs:43-46 | The buffer takes the byte lexer's next token exactly when it succeeds |
| LegacyParser.Expected | crates/compiler/src/parser.rs:48-55 | A mismatch is UnexpectedSymbol at the buffered token; a match returns its quote and advances |
| LegacyParser.AddressPrefix | crates/compiler/src/parser.rs:76-88 | Succeeds exactly when the prefix has at least two bytes and its tail is a decimal usize; otherwise InvalidAddressSymbol over the range |
| LegacyParser.RawAddress | crates/compiler/src/parser.rs:91-107 | A lexing error after `.` is passed on; once the second number is read, Ok exactly when number, `.` and number touch, whatever their sizes, giving Address(NUL, x, y) over start to end; otherwise InvalidAddressSymbol over that range |
| LegacyParser.Classify | crates/compiler/src/parser.rs:120-133 | The input character gives Input, else the output character gives Output, else an Address carrying the character |
| LegacyParser.PrefixedAddress | crates/compiler/src/parser.rs:110-134 | A missing `.` is UnexpectedSymbol; once the number is read, Ok exactly when prefix, `.` and number touch and the prefix is valid, giving the address classified by the options; otherwise InvalidAddressSymbol from the prefix's start to the number's end |
| LegacyParser.ApplyUnary | crates/compiler/src/parser.rs:275-281 | A Not node spanning operator start to operand end |
| LegacyParser.ApplyBinary | crates/compiler/src/parser.rs:283-291 | An And node for and, or and xor alike |
| LegacyParser.Args | crates/compiler/src/parser.rs:141-147 | The argument loop only appends, keeping Or/Xor-free trees |
| LegacyParser.CallValue | crates/compiler/src/parser.rs:137-153 | Without `(` it is UnexpectedSymbol; a call keeps its name and starts at it |
| LegacyParser.UnaryValue | crates/compiler/src/parser.rs:157-200 | A token starting no operand is InvalidUnaryOperation at it |
| LegacyParser.BinaryValue | crates/compiler/src/parser.rs:203-214 | The climb stops at a token that is not a binary operator and builds an And node (the tree itself: `BinaryClimbs`) |
| LegacyParser.Chain | crates/compiler/src/parser.rs:203-214 | The operator chain the climb reads: a non-empty list of binary operators, each with the operand after it, the first being the buffered operator |
| LegacyParser.BinaryClimbs | crates/compiler/src/parser.rs:203-214 | For every input, `read_binary_value` fails exactly when reading the chain fails, with the same error, and otherwise returns the tree `Climb` builds from the chain |
| LegacyParser.Value | crates/compiler/src/parser.rs:217-223 | A value is followed by a token that is not a binary operator |
| LegacyParser.ValueClimbs | crates/compiler/src/parser.rs:217-223 | When an operator follows the first operand, `read_value` is the climbed tree of the chain after it, or the chain's first error |
| Climbing.Climb | crates/compiler/src/parser/mod.rs:212-223 | One call of `read_binary_value`: the first step applies to the left operand, unless a tighter operator follows, which makes the whole rest of the chain its right operand (its meaning: the lemmas below) |
| Climbing.ClimbKeepsOperands | crates/compiler/src/parser.rs:203-214 | The tree's operands, left to right, are the left operand followed by the chain's operands in source order |
| Climbing.ClimbKeepsOperators | crates/compiler/src/parser.rs:203-214 | The tree's operators, left to right, are the chain's operators in source order |
| Climbing.ClimbBinary | crates/compiler/src/parser/mod.rs:212-223 | Every node built is a binary operator's |
| Climbing.NonRisingFoldsLeft | crates/compiler/src/parser/mod.rs:212-223 | A chain whose precedences never rise associates strictly to the left, so equal operators nest to the left |
| Climbing.ClimbRoot | crates/compiler/src/parser/mod.rs:212-223 | At the first rise of precedence, after step k, the steps before k fold to the left and the rest of the chain, climbed from step k's operand, becomes step k's right operand; with `NonRisingFoldsLeft` this fixes the tree for every chain |
| Climbing.ClimbExample | crates/compiler/src/parser/mod.rs:212-223 | `a xor b and c or d` is a xor ((b and c) or d): an operator after a rise stays under the operator before the rise |
| LegacyParser.LetStatement | crates/compiler/src/parser.rs:226-234 | A let statement starting at `let` |
| LegacyParser.Assignment | crates/compiler/src/parser.rs:237-245 | `name = value;` needs an identifier first, else UnexpectedSymbol |
| LegacyParser.WriteStatement | crates/compiler/src/parser.rs:237-245 | Every identifier statement is a write named by that identifier |
| LegacyParser.Statements | crates/compiler/src/parser.rs:247-257 | Null ends the list; anything but `let` or an identifier is UnexpectedSymbol |
| LegacyParser.Parse | crates/compiler/src/parser.rs:247-257 | Reads the first token, then statements until Null (stated by `Statements`) |
| LegacyParser.Parser.constructor | crates/compiler/src/parser.rs:28-35 | A fresh lexer, the options, and Null at offset 0 in the buffer |
| LegacyParser.Parser.Advance | crates/compiler/src/parser.rs:43-46 | Follows `Next` |
| LegacyParser.Parser.Expect | crates/compiler/src/parser.rs:48-55 | Follows `Expected`; nothing consumed on a mismatch |
| LegacyParser.Parser.ReadRawAddress | crates/compiler/src/parser.rs:91-107 | Follows `RawAddress` |
| LegacyParser.Parser.ReadPrefixedAddress | crates/compiler/src/parser.rs:110-134 | Follows `PrefixedAddress` |
| LegacyParser.Parser.ReadCall | crates/compiler/src/parser.rs:137-153 | Follows `CallValue` |
| LegacyParser.Parser.ReadUnaryValue | crates/compiler/src/parser.rs:157-200 | Follows `UnaryValue` |
| LegacyParser.Parser.ReadBinaryValue | crates/compiler/src/parser.rs:203-214 | Follows `BinaryValue` |
| LegacyParser.Parser.ReadValue | crates/compiler/src/parser.rs:217-223 | Follows `Value` |
| LegacyParser.Parser.ReadLet | crates/compiler/src/parser.rs:226-234 | Follows `LetStatement` |
| LegacyParser.Parser.ReadWrite | crates/compiler/src/parser.rs:237-245 | Follows `WriteStatement` |
| LegacyParser.Parser.Parse | crates/compiler/src/parser.rs:247-257 | Its loop returns what the parse function gives |
| LegacyParser.Parenthesised | crates/compiler/src/parser.rs:162-168 | `( v )` is v itself, with v's own span |
| LegacyParser.NoRangeCheck | crates/compiler/src/parser.rs:110-134 | With adjacent tokens and a valid prefix the address is always accepted, over prefix start to number end, with the number's value as its bit index whatever its size |
| Mir.AllocatedU1 | crates/compiler/src/mir/mod.rs:62-74 | Allocating a bit leaves the counter cursor alone |
| Mir.AllocBytes | crates/compiler/src/mir/mod.rs:76-113 | Succeeds exactly when the object fits below 0x10000 from the next fresh byte, returning that byte and advancing by its size with bit 0; on failure the cursor still moves to the fresh byte |
| Mir.AllocatedU8 | crates/compiler/src/mir/mod.rs:76-87 | `alloc_u8`: one byte from `AllocBytes` |
| Mir.AllocatedU16 | crates/compiler/src/mir/mod.rs:89-100 | `alloc_u16`: two bytes from `AllocBytes` |
| Mir.AllocatedU32 | crates/compiler/src/mir/mod.rs:102-113 | `alloc_u32`: four bytes from `AllocBytes` |
| Mir.Allocated1 | crates/compiler/src/mir/mod.rs:62-74 | A memory-bit address wrapping what `alloc_u1` hands out |
| Mir.AllocatedCounter | crates/compiler/src/mir/builtin/counter.rs:12 | The next of 65536 counters, as a PhysicalCounter address; nothing changes when they are used up |
| Mir.AllocU1Fresh | crates/compiler/src/mir/mod.rs:62-74 | Succeeds while bits remain in the 16-bit space; returns a free bit 0..6 that is taken afterwards, nothing is freed, and exactly one bit is consumed |
| Mir.AllocBytesFresh | crates/compiler/src/mir/mod.rs:76-113 | All bits of the bytes returned were free and are taken afterwards, within 0xffff; nothing is freed and the bit cursor is 0 |
| Mir.AllocU1Distinct | crates/compiler/src/mir/mod.rs:62-74 | Two successive bit allocations never return the same (ptr, bit) |
| Mir.MirMemory.constructor | crates/compiler/src/mir/mod.rs:55-59 | The allocator starts zeroed |
| Mir.MirMemory.AllocU1 | crates/compiler/src/mir/mod.rs:62-74 | Follows `AllocatedU1` |
| Mir.MirMemory.AllocU8 | crates/compiler/src/mir/mod.rs:76-87 | Follows one-byte `AllocBytes` |
| Mir.MirMemory.AllocU16 | crates/compiler/src/mir/mod.rs:89-100 | Follows two-byte `AllocBytes` |
| Mir.MirMemory.AllocU32 | crates/compiler/src/mir/mod.rs:102-113 | Follows four-byte `AllocBytes` |
| Mir.MirMemory.Alloc1 | crates/compiler/src/mir/builtin/flipflops.rs:24 | Follows `Allocated1` |
| Mir.MirMemory.AllocCounter | crates/compiler/src/mir/builtin/counter.rs:12 | Follows `AllocatedCounter` |
| Mir.FirstNamedFrom | crates/compiler/src/mir/mod.rs:45-52 | The first slot from i on whose name is the text, and none before it |
| Mir.FirstNamed | crates/compiler/src/mir/mod.rs:45-52 | The earliest declaration of the name, or None exactly when no slot has it |
| Mir.FirstDeclarationWins | crates/compiler/src/mir/mod.rs:45-52 | Declaring a bound name again does not change what the lookup finds |
| Mir.LookupBuiltin | crates/compiler/src/mir/mod.rs:15-18 | Only `rs` and `sr` are builtins, each mapped to its own function |
| Mir.Mir.constructor | crates/compiler/src/mir/mod.rs:36-43 | No variables, no actions, a zeroed allocator |
| Mir.Mir.FindVar | crates/compiler/src/mir/mod.rs:45-52 | The forward scan returns `FirstNamed` |
| MirTypes.Unbracket | crates/compiler/src/mir/writer/optimizer.rs:52 | The single-operand instruction that replaces a bracket opener is addressed, with exactly the given address |
| MirTypes.IsBitAddress | crates/compiler/src/mir/writer/mod.rs:19 | The address classes of one bit: physical input, physical output and memory bit |
| MirTypes.IsVirtual | crates/compiler/src/lir/s7/transformer.rs:37 | The allocator's classes (memory bit, byte, word, double word), which the back end moves by the offset |
| MirTypes.Readable | crates/compiler/src/mir/transformer/mod.rs:64 | What `is_bit_readable` accepts, as assumed under Left out: bit addresses, references to readable earlier variables, not/and/or/xor of readable values, operation lists with readable conditions |
| MirTypes.IsBitReadable | crates/compiler/src/mir/builtin/assertions.rs:19 | `Readable` against the whole table |
| MirTypes.FilledOps | crates/compiler/src/mir/builtin/flipflops.rs:20-37 | Every operation list in the value is non-empty, as those `rs` and `sr` build are |
| MirTypes.FilledReach | crates/compiler/src/mir/builtin/flipflops.rs:20-37 | In a table of such values, everything a value reaches through references has non-empty operation lists |
| MirTypes.ReadableExtend | crates/compiler/src/mir/builtin/assertions.rs:18-27 | Appending a variable does not change what the earlier ones can read as a bit |
| Builtins.AssertArgsLen | crates/compiler/src/mir/builtin/assertions.rs:7-16 | Ok exactly when the argument count is `len`; else InvalidArgsCount at the quote |
| Builtins.AssertBitReadable | crates/compiler/src/mir/builtin/assertions.rs:18-27 | Ok exactly when the value is bit-readable; else InvalidArgType (not ValueNotBitReadable) at the quote |
| Builtins.Rs | crates/compiler/src/mir/builtin/flipflops.rs:20-37 | Checks two arguments, then first and second bit-readable, before allocating; then ResetBit(arg0), SetBit(arg1), And on one new bit; panics only when allocation fails |
| Builtins.Sr | crates/compiler/src/mir/builtin/flipflops.rs:45-62 | As `rs` with SetBit(arg0) first and ResetBit(arg1) last |
| Builtins.FlipFlopBit | crates/compiler/src/mir/builtin/flipflops.rs:24-36 | All three operations use the same newly allocated memory bit (0..6, free before); `rs` sets last, `sr` resets last |
| Builtins.MemoryBuiltin | crates/compiler/src/mir/builtin/memory.rs:13-40 | No arguments or InvalidArgsCount before allocating; then an address of the given size at the allocated byte; panics exactly when allocation fails |
| Builtins.MemoryFresh | crates/compiler/src/mir/builtin/memory.rs:13-40 | A memory builtin's bytes were free before and are taken after, below 0x10000 |
| Builtins.Mb | crates/compiler/src/mir/builtin/memory.rs:13-20 | `MemoryBuiltin` for one Memory8 byte (stated there and by `MemoryFresh`) |
| Builtins.Mw | crates/compiler/src/mir/builtin/memory.rs:23-30 | `MemoryBuiltin` for a two-byte Memory16 word |
| Builtins.Md | crates/compiler/src/mir/builtin/memory.rs:33-40 | `MemoryBuiltin` for a four-byte Memory32 double word |
| Builtins.CallBuiltin | crates/compiler/src/mir/transformer/value.rs:100-104 | Runs the function `BUILTIN_FUNCTIONS` maps the name to, `rs` or `sr` |
| Builtins.Counter | crates/compiler/src/mir/builtin/counter.rs:10-14 | No arguments or InvalidArgsCount, consuming no counter; then the next counter's address; panics when counters run out |
| Builtins.BuiltinRs | crates/compiler/src/mir/builtin/flipflops.rs:20-37 | Follows `Rs` on the MIR's allocator |
| Builtins.BuiltinSr | crates/compiler/src/mir/builtin/flipflops.rs:45-62 | Follows `Sr` |
| Builtins.BuiltinMb | crates/compiler/src/mir/builtin/memory.rs:13-20 | Follows `MemoryBuiltin` for a Memory8 byte |
| Builtins.BuiltinMw | crates/compiler/src/mir/builtin/memory.rs:23-30 | Follows `MemoryBuiltin` for a Memory16 word |
| Builtins.BuiltinMd | crates/compiler/src/mir/builtin/memory.rs:33-40 | Follows `MemoryBuiltin` for a Memory32 double word |
| Builtins.BuiltinCounter | crates/compiler/src/mir/builtin/counter.rs:10-14 | Follows `Counter` |
| Builtins.Call | crates/compiler/src/mir/transformer/value.rs:101-104 | Runs the builtin the table yields |
| MirTransformer.LowerAddress | crates/compiler/src/mir/transformer/value.rs:37-59 | I/E give PhysicalInput1 and Q/A PhysicalOutput1 with pointer and bit kept; any other prefix (NUL included) is UnknownBitAddressType at the literal |
| MirTransformer.Lower | crates/compiler/src/mir/transformer/value.rs:27-125 | `transform_value` on a value state: the lowered value and allocator, or the first error (its properties: `LowerSound`, `LowerReasons`, `LowerFilled`) |
| MirTransformer.LowerArgs | crates/compiler/src/mir/transformer/value.rs:19-25 | `transform_values`: the arguments lowered left to right (stated by `LowerArgsSound`) |
| MirTransformer.LetStatement | crates/compiler/src/mir/transformer/mod.rs:18-28 | `transform_let` on a state (stated by `LetAppends`) |
| MirTransformer.WriteStatement | crates/compiler/src/mir/transformer/mod.rs:30-47 | `transform_write` on a state, with the handler as a parameter (stated by `WriteTouchesOneSlot`) |
| MirTransformer.CallValue | crates/compiler/src/mir/transformer/mod.rs:50-62 | The first half of `transform_call`: the builtin's name is looked up, its arguments lowered and the builtin run (stated by `CallValueFilled`) |
| MirTransformer.CallStatement | crates/compiler/src/mir/transformer/mod.rs:50-77 | `transform_call` on a state (stated by `CallAppendsOne`, `CallAlwaysReadable`, `CallPanicsOnlyInLowering`) |
| MirTransformer.Statement | crates/compiler/src/mir/transformer/mod.rs:83-87 | The statement's own step |
| MirTransformer.Transformed | crates/compiler/src/mir/transformer/mod.rs:80-90 | `transform` from an empty MIR (stated by `TransformSnoc`, `TransformFilled`) |
| MirTransformer.BuiltinSound | crates/compiler/src/mir/transformer/value.rs:100-111 | A builtin's result refers only to what its arguments refer to, and the allocator stays consistent |
| MirTransformer.LowerSound | crates/compiler/src/mir/transformer/value.rs:113-125 | Lowered values refer only into the existing variable table, the allocator stays consistent, and a value without calls leaves the allocator as it was |
| MirTransformer.LowerPairSound | crates/compiler/src/mir/transformer/value.rs:67-86 | The left operand is lowered before the right, each against the allocator the previous left behind |
| MirTransformer.LowerArgsSound | crates/compiler/src/mir/transformer/value.rs:19-25 | `transform_values` keeps length and order: the result is what it was given plus one value per argument |
| MirTransformer.LetAppends | crates/compiler/src/mir/transformer/mod.rs:18-28 | A let appends exactly one variable named by it, keeps the others and the actions, and every variable refers only to earlier ones |
| MirTransformer.WriteTouchesOneSlot | crates/compiler/src/mir/transformer/mod.rs:30-47 | An unbound name is UnknownVariable at the statement; otherwise only the first-bound slot changes, keeping its name, and actions are only appended |
| MirTransformer.CallAppendsOne | crates/compiler/src/mir/transformer/mod.rs:50-77 | A call statement appends exactly one Raw action of optimized, dummy-free code and leaves the variables alone |
| MirTransformer.LowerReasons | crates/compiler/src/mir/transformer/value.rs:37-111 | Lowering fails only with UnknownBitAddressType, UnknownVariable, UnknownFunction, InvalidArgsCount or InvalidArgType |
| MirTransformer.LowerPairReasons | crates/compiler/src/mir/transformer/value.rs:61-86 | Lowering both operands of an operation fails only with the lowering reasons |
| MirTransformer.LowerArgsReasons | crates/compiler/src/mir/transformer/value.rs:19-25 | Lowering an argument list fails only with the lowering reasons |
| MirTransformer.LowerFilled | crates/compiler/src/mir/builtin/flipflops.rs:20-37 | Every value lowering yields has non-empty operation lists, since only `rs` and `sr` build them, with three operations each |
| MirTransformer.LowerPairFilled | crates/compiler/src/mir/transformer/value.rs:67-86 | Both operands of an operation lower to values with non-empty operation lists |
| MirTransformer.LowerArgsFilled | crates/compiler/src/mir/transformer/value.rs:19-25 | Every lowered argument has non-empty operation lists |
| MirTransformer.CallValueFilled | crates/compiler/src/mir/transformer/mod.rs:50-62 | A call's builtin result has non-empty operation lists |
| MirTransformer.StatementFilled | crates/compiler/src/mir/transformer/mod.rs:18-77 | Every statement keeps the table's operation lists non-empty, given a write handler that does |
| MirTransformer.TransformFilled | crates/compiler/src/mir/transformer/mod.rs:80-90 | A whole run keeps the table's operation lists non-empty |
| MirTransformer.CallPanicsOnlyInLowering | crates/compiler/src/mir/transformer/mod.rs:64-76 | Over such a table, `optimize` accepts the code of every call statement: the statement panics exactly when lowering or the builtin does |
| MirTransformer.CallAlwaysReadable | crates/compiler/src/mir/transformer/mod.rs:64-70 | With rs and sr the only builtins, a call statement never fails with ValueNotBitReadable |
| MirTransformer.TransformSnoc | crates/compiler/src/mir/transformer/mod.rs:80-90 | Statements run in order and the first error aborts |
| MirTransformer.TransformValue | crates/compiler/src/mir/transformer/value.rs:113-125 | Follows `Lower` on the MIR |
| MirTransformer.TransformValues | crates/compiler/src/mir/transformer/value.rs:19-25 | Its loop follows `LowerArgs` |
| MirTransformer.TransformLet | crates/compiler/src/mir/transformer/mod.rs:18-28 | Follows the let step |
| MirTransformer.TransformWrite | crates/compiler/src/mir/transformer/mod.rs:30-47 | Follows the write step, with the target's handler |
| MirTransformer.TransformCall | crates/compiler/src/mir/transformer/mod.rs:50-77 | Follows the call step |
| MirTransformer.TransformStatement | crates/compiler/src/mir/transformer/mod.rs:80-90 | Follows the statement step |
| MirTransformer.Transform | crates/compiler/src/mir/transformer/mod.rs:80-90 | From an empty MIR, ends in the state of `Transformed` or its first error |
| Writer.DepthConcat | crates/compiler/src/mir/writer/mod.rs:54-76 | Bracket depth adds up over concatenation |
| Writer.Emit | crates/compiler/src/mir/writer/mod.rs:18-91 | The code `write_value` appends for a value: And for a bit address, the referenced variable's code, the operations, the operand then Not, or left code, opener, right code, End (its properties: `EmitBalanced`, `EmitOptimizes`) |
| Writer.EmitOps | crates/compiler/src/mir/writer/mod.rs:29-46 | The code of the operations from index k: each condition's code then its set/reset, or a plain And (stated by `EmitOpsBalanced`) |
| Writer.BalancedConcat | crates/compiler/src/mir/writer/mod.rs:54-76 | Two balanced codes in a row are balanced |
| Writer.BalancedBracket | crates/compiler/src/mir/writer/mod.rs:54-76 | An opener, balanced code and End are balanced |
| Writer.BalancedSingle | crates/compiler/src/mir/writer/mod.rs:18-22 | A single instruction that neither opens nor closes a bracket is balanced |
| Writer.EmitBalanced | crates/compiler/src/mir/writer/mod.rs:78-91 | The code of any readable value is balanced (every End closes an earlier opener and all are closed) and holds no Dummy |
| Writer.BinaryBalanced | crates/compiler/src/mir/writer/mod.rs:54-76 | Left code, opener, right code, End is balanced: only the right operand is bracketed |
| Writer.BracketedBalanced | crates/compiler/src/mir/writer/mod.rs:54-76 | Dummy-free balanced left and right code joined by an opener and End stay balanced and dummy-free |
| Writer.EmitOpsBalanced | crates/compiler/src/mir/writer/mod.rs:29-46 | The code of the operations is balanced and non-empty when operations remain |
| Writer.OpBalanced | crates/compiler/src/mir/writer/mod.rs:29-46 | A condition's code, a set/reset or plain instruction, and balanced rest stay balanced and dummy-free |
| Writer.MirInstructionWriter.constructor | crates/compiler/src/mir/writer/mod.rs:12-15 | An empty instruction list |
| Writer.MirInstructionWriter.WriteAddr | crates/compiler/src/mir/writer/mod.rs:18-22 | Requires a bit address (the source asserts it); appends exactly `And addr` |
| Writer.MirInstructionWriter.WriteVarRef | crates/compiler/src/mir/writer/mod.rs:24-27 | Appends the code of the variable's value at writing time |
| Writer.MirInstructionWriter.WriteOps | crates/compiler/src/mir/writer/mod.rs:29-46 | Appends, in order, each condition's code followed by its set/reset, and a plain And directly |
| Writer.MirInstructionWriter.WriteNot | crates/compiler/src/mir/writer/mod.rs:48-52 | Appends the operand's code, then one Not |
| Writer.MirInstructionWriter.WriteBinary | crates/compiler/src/mir/writer/mod.rs:54-76 | Appends left code, the opener, right code, End |
| Writer.MirInstructionWriter.WriteValue | crates/compiler/src/mir/writer/mod.rs:78-91 | Appends exactly the value's code and leaves earlier instructions untouched; unit, bool, number and object values are excluded |
| Optimizer.Filtered | crates/compiler/src/mir/writer/optimizer.rs:61-66 | No Dummy in the result, no longer than the input, and the identity on dummy-free code |
| Optimizer.FilteredConcat | crates/compiler/src/mir/writer/optimizer.rs:61-66 | Filtering keeps relative order: it distributes over concatenation |
| Optimizer.NonDummyLen | crates/compiler/src/mir/writer/optimizer.rs:5-7 | The number of instructions that are not Dummy |
| Optimizer.GetNonDummy | crates/compiler/src/mir/writer/optimizer.rs:9-15 | The index-th non-dummy instruction; requires that many to exist (the source panics otherwise) |
| Optimizer.Dummied | crates/compiler/src/mir/writer/optimizer.rs:17-21 | Slots lo..hi become Dummy, every other slot is kept |
| Optimizer.Collapsed | crates/compiler/src/mir/writer/optimizer.rs:48-55 | The opener slot gets the new instruction, interior and End become Dummy, the rest is kept |
| Optimizer.BracketPass | crates/compiler/src/mir/writer/optimizer.rs:23-59 | Keeps the length; inside a bracket it stops at an End, at top level at the end of the list; None where the source panics or loops |
| Optimizer.AfterBracket | crates/compiler/src/mir/writer/optimizer.rs:37-56 | The pass at an opener moves past it and obeys the same bounds |
| Optimizer.PassSkip | crates/compiler/src/mir/writer/optimizer.rs:25-58 | A plain instruction is stepped over |
| Optimizer.PassKeep | crates/compiler/src/mir/writer/optimizer.rs:44-47 | A bracket with more than one instruction after its interior is optimized is kept, and scanning resumes after its End |
| Optimizer.PassCollapse | crates/compiler/src/mir/writer/optimizer.rs:48-55 | A bracket left with a single And is collapsed into its opener, and scanning resumes after its End |
| Optimizer.PassFrame | crates/compiler/src/mir/writer/optimizer.rs:23-59 | The pass changes only slots between its start and stop, and there only empties slots or rewrites openers |
| Optimizer.AfterFrame | crates/compiler/src/mir/writer/optimizer.rs:37-56 | Handling a bracket changes only slots between the opener and where the pass stops |
| Optimizer.InnerFrame | crates/compiler/src/mir/writer/optimizer.rs:37-56 | Handling an opener is an inner pass up to its End, which changes only slots inside the bracket, followed by the outer pass resuming after that End |
| Optimizer.PassWalk | crates/compiler/src/mir/writer/optimizer.rs:25-58 | A bracket body without brackets is walked unchanged up to its End |
| Optimizer.WalkBracket | crates/compiler/src/mir/writer/optimizer.rs:37-56 | A bracket whose interior the pass reduces to several instructions or one And is handled and left with one instruction, the pass going on after its End |
| Optimizer.ShapeWalks | crates/compiler/src/mir/writer/optimizer.rs:23-59 | The pass walks through the code of every well-shaped value tree, and a bracket body leaves an interior its bracket accepts |
| Optimizer.EmitShape | crates/compiler/src/mir/writer/mod.rs:18-91 | The code written for a readable value with non-empty operation lists has a well-shaped tree, each bracket body being a sequence or an And |
| Optimizer.EmitOptimizes | crates/compiler/src/mir/writer/optimizer.rs:68-71 | `optimize` accepts the writer's code for every readable value whose operation lists are non-empty, in a table of such values |
| Optimizer.EmptyOpsRejected | crates/compiler/src/mir/writer/optimizer.rs:30-57 | A readable value with an empty operation list writes an empty bracket, which `optimize` rejects |
| Optimizer.StuckRepeats | crates/compiler/src/mir/writer/optimizer.rs:49-51 | When the single interior instruction is not an And, another round reaches the same End and changes nothing, so the source loops for ever |
| Optimizer.CollapseExample | crates/compiler/src/mir/writer/optimizer.rs:48-55 | `A a; O( A b )` optimizes to `A a; O b` |
| Optimizer.KeepExample | crates/compiler/src/mir/writer/optimizer.rs:44-47 | A two-instruction interior keeps its bracket |
| Optimizer.PanicExamples | crates/compiler/src/mir/writer/optimizer.rs:30-57 | An empty bracket, a stray End and an unclosed opener are rejected |
| Optimizer.Optimized | crates/compiler/src/mir/writer/optimizer.rs:68-71 | After `optimize` no Dummy remains and the list is no longer |
| Optimizer.Settled | crates/compiler/src/mir/writer/optimizer.rs:44-47 | Reads brackets the way the pass does and accepts only code whose brackets all hold more than one instruction; stops where the pass stops |
| Optimizer.PassSettles | crates/compiler/src/mir/writer/optimizer.rs:23-59 | Everything the pass leaves behind is settled, up to where it stops |
| Optimizer.SettledPass | crates/compiler/src/mir/writer/optimizer.rs:44-47 | The pass leaves settled code exactly as it is |
| Optimizer.FilterSettled | crates/compiler/src/mir/writer/optimizer.rs:61-66 | Dropping dummies keeps code settled |
| Optimizer.OptimizeIdempotent | crates/compiler/src/mir/writer/optimizer.rs:61-71 | `optimize` on its own output changes nothing |
| Optimizer.CollapseCounts | crates/compiler/src/mir/writer/optimizer.rs:48-55 | A collapse lowers the non-dummy count by exactly 2 and leaves the bracket depth (openers minus Ends) unchanged |
| Optimizer.FillDummy | crates/compiler/src/mir/writer/optimizer.rs:17-21 | The array becomes `Dummied` of its old contents |
| Optimizer.Collapse | crates/compiler/src/mir/writer/optimizer.rs:48-55 | The array becomes `Collapsed` of its old contents |
| Optimizer.OptimizeBrackets | crates/compiler/src/mir/writer/optimizer.rs:23-59 | The in-place `while` loop leaves the array and returns the index that `BracketPass` gives |
| Optimizer.OptimizeBracket | crates/compiler/src/mir/writer/optimizer.rs:37-56 | The opener case of the loop: the pass resumed at the returned index, past the opener, gives what `AfterBracket` gives |
| Optimizer.Optimize | crates/compiler/src/mir/writer/optimizer.rs:68-71 | The writer's list becomes `Optimized` of the old list |
| Optimizer.FilterDummy | crates/compiler/src/mir/writer/optimizer.rs:61-66 | The writer's list becomes the old list without dummies |
| Lir.PushStack | crates/compiler/src/lir/s7/transformer.rs:11-17 | Opening succeeds only below depth 7, going one deeper; else InvalidStack |
| Lir.PopStack | crates/compiler/src/lir/s7/transformer.rs:19-25 | Closing succeeds only above depth 0; else InvalidStack |
| Lir.AddressTypeInjective | crates/compiler/src/lir/s7/transformer.rs:28-36 | The address classes map one to one |
| Lir.TransformAddress | crates/compiler/src/lir/s7/transformer.rs:27-44 | Class mapped, bit kept; a physical pointer is kept and an allocated one gains the offset |
| Lir.AssertBit | crates/compiler/src/lir/s7/transformer.rs:46-51 | Ok with the translated address exactly for bit addresses; else NonBitAddress |
| Lir.AssertAnyByte | crates/compiler/src/lir/s7/transformer.rs:53-58 | Ok exactly for byte/word/double-word addresses; the failure is reported as NonBitAddress |
| Lir.AssertCounter | crates/compiler/src/lir/s7/transformer.rs:60-65 | Ok exactly for PhysicalCounter addresses; else NonCounterAddress |
| Lir.Translate | crates/compiler/src/lir/s7/transformer.rs:73-173 | The S7 instruction an instruction becomes, its address moved by the offset (stated by `TranslateAll`, `StepSpec`) |
| Lir.TranslateAll | crates/compiler/src/lir/s7/transformer.rs:73-173 | One S7 instruction per instruction |
| Lir.TranslateAllConcat | crates/compiler/src/lir/s7/transformer.rs:73-173 | Translation distributes over concatenation, preserving order |
| Lir.Step | crates/compiler/src/lir/s7/transformer.rs:73-173 | One round of the `transform_instructions` loop: what it pushes and the new depth (stated by `StepSpec`) |
| Lir.StepSpec | crates/compiler/src/lir/s7/transformer.rs:73-173 | One instruction is accepted exactly when its address fits its opcode and the depth stays in 0..7; Dummy yields nothing, anything else one instruction |
| Lir.Run | crates/compiler/src/lir/s7/transformer.rs:72-173 | The loop over all instructions from depth 0 (stated by `RunSpec`, `RunPrefixErr`) |
| Lir.RunSpec | crates/compiler/src/lir/s7/transformer.rs:72-173 | The loop succeeds exactly when every prefix keeps depth in 0..7 and all addresses fit; it yields the translation of the non-dummy instructions, in order |
| Lir.Instrs | crates/compiler/src/lir/s7/transformer.rs:67-176 | `transform_instructions`: the loop, then no open bracket (stated by `InstrsSpec`) |
| Lir.InstrsSpec | crates/compiler/src/lir/s7/transformer.rs:67-176 | `transform_instructions` succeeds exactly on code that stays within depth 0..7, ends at depth 0 and has fitting addresses, and then yields the translation of its non-dummy instructions in order |
| Lir.BalancedAccepted | crates/compiler/src/lir/s7/transformer.rs:67-176 | Balanced code at most seven deep with fitting addresses is accepted |
| Lir.EightDeep | crates/compiler/src/lir/s7/transformer.rs:11-17 | Eight nested brackets fail with InvalidStack |
| Lir.OpenersDepth | crates/compiler/src/lir/s7/transformer.rs:11-17 | j openers in a row reach depth j |
| Lir.RunErrors | crates/compiler/src/lir/s7/transformer.rs:53-58 | NonByteAddress is never reported; with fitting addresses the only error is InvalidStack |
| Lir.TransferReportsNonBit | crates/compiler/src/lir/s7/transformer.rs:168-171 | A Transfer to anything but a byte/word/dword address is NonBitAddress |
| Lir.RunPrefixErr | crates/compiler/src/lir/s7/transformer.rs:73-173 | The first failing instruction's error is the loop's error |
| Lir.Transformed | crates/compiler/src/lir/s7/transformer.rs:197-204 | Exactly one network |
| Lir.ActionShape | crates/compiler/src/lir/s7/transformer.rs:180-195 | Each action's code starts with Clear; an output's ends with AssignBit to its bit-checked target |
| Lir.OutputTargetFirst | crates/compiler/src/lir/s7/transformer.rs:186-190 | An output to a non-bit address fails before its instructions are looked at |
| Lir.Code | crates/compiler/src/lir/s7/transformer.rs:197-204 | The network's code, action by action (stated by `CodeConcat`, `CodePrefixErr`) |
| Lir.CodeConcat | crates/compiler/src/lir/s7/transformer.rs:197-204 | The network is the actions' code concatenated in order |
| Lir.CodePrefixErr | crates/compiler/src/lir/s7/transformer.rs:197-204 | The first failing action aborts the whole transform with its error |
| Lir.S7Network.constructor | crates/compiler/src/lir/s7/transformer.rs:198-200 | An empty network |
| Lir.TransformInstructions | crates/compiler/src/lir/s7/transformer.rs:67-176 | Its `for` loop appends exactly `Instrs`, or fails with its error |
| Lir.TransformAction | crates/compiler/src/lir/s7/transformer.rs:180-195 | Appends exactly the action's code, or fails with its error |
| Lir.Transform | crates/compiler/src/lir/s7/transformer.rs:197-204 | Returns `Transformed` |
| LegacyMir.WriteHandlerSpec | crates/compiler/src/mir/value.rs:20-95 | Writes succeed exactly on Output bit addresses, appending one empty Output action to self; everything else is NoWriteHandler at the quote; the written value plays no part |
| LegacyMir.WriteHandler | crates/compiler/src/mir/value.rs:20-95 | The actions each implementor's `write` appends (stated by `WriteHandlerSpec`) |
| LegacyMir.LastNamedBelow | crates/compiler/src/compiler/mod.rs:25-32 | The last slot below i with the name, none between it and i, or None exactly when there is none |
| LegacyMir.LastNamed | crates/compiler/src/compiler/mod.rs:25-32 | The most recent binding of a name (stated by `LastNamedBelow`, `NewestBindingWins`, `OtherBindingKeeps`) |
| LegacyMir.NewestBindingWins | crates/compiler/src/compiler/mod.rs:25-32 | A new binding of a name shadows every earlier one |
| LegacyMir.OtherBindingKeeps | crates/compiler/src/compiler/mod.rs:25-32 | A binding of another name leaves the lookup unchanged |
| LegacyMir.LastBelowPrefix | crates/compiler/src/compiler/mod.rs:25-32 | Slots appended later do not change the lookup below an index already present |
| LegacyMir.LetStep | crates/compiler/src/compiler/mod.rs:13-20 | `compile_let` on a state (stated by `LetAppends`) |
| LegacyMir.WriteStep | crates/compiler/src/compiler/mod.rs:22-44 | `compile_write` on a state (stated by `WriteOutputs`) |
| LegacyMir.Compiled | crates/compiler/src/compiler/mod.rs:47-56 | `compile` from an empty MIR (stated by `CompiledCounts`, `CompiledPrefixFails`) |
| LegacyMir.LetAppends | crates/compiler/src/compiler/mod.rs:13-20 | A let appends exactly one variable with its name and no action |
| LegacyMir.WriteOutputs | crates/compiler/src/compiler/mod.rs:22-44 | An unbound name is UnknownVariable at the statement; a successful write keeps the variables and appends one output action to the most recent binding's output bit |
| LegacyMir.CompiledCounts | crates/compiler/src/compiler/mod.rs:47-56 | A compiled program has one variable per let and one action per write |
| LegacyMir.CompiledPrefixFails | crates/compiler/src/compiler/mod.rs:47-56 | The first failing statement's error is the program's error |
| LegacyMir.Mir.constructor | crates/compiler/src/compiler/mod.rs:48 | Starts from the program's source with no variables and no actions |
| LegacyMir.Mir.FindLast | crates/compiler/src/compiler/mod.rs:25-32 | The reverse scan returns the most recent binding |
| LegacyMir.Write | crates/compiler/src/mir/value.rs:20-95 | Leaves the variables alone; on success appends the handler's actions, on failure changes nothing |
| LegacyMir.CompileLet | crates/compiler/src/compiler/mod.rs:13-20 | Follows the let step; a failure changes nothing |
| LegacyMir.CompileWrite | crates/compiler/src/compiler/mod.rs:22-44 | Follows the write step |
| LegacyMir.Compile | crates/compiler/src/compiler/mod.rs:47-56 | Follows `Compiled` |
| Messages.NewlinesCount | crates/messages/src/util.rs:10-23 | The counter counts exactly the line feeds |
| Messages.Newlines | crates/messages/src/util.rs:10-23 | The number of line feeds is at most the length |
| Messages.NewlinesConcat | crates/messages/src/util.rs:10-23 | Line feeds add up over concatenation |
| Messages.NewlinesMono | crates/messages/src/util.rs:10-23 | A longer prefix holds at least as many line feeds |
| Messages.LastLineStart | crates/messages/src/util.rs:10-23 | Just after the last line feed, or 0, with no line feed after it |
| Messages.Scanned | crates/messages/src/util.rs:13-20 | The scan stops after `start`, never past the end of the source |
| Messages.LineNumberOf | crates/messages/src/util.rs:10-23 | The line start and row of `line_number` (stated by `LineNumberSpec`) |
| Messages.LineNumberSpec | crates/messages/src/util.rs:10-23 | Row = 1 + line feeds up to and including `start` (all of them if start is past the end); the line start follows the last of them; a line feed at `start` itself puts the line start past `start` |
| Messages.LineNumber | crates/messages/src/util.rs:10-23 | The loop returns `LineNumberOf` |
| Messages.LineStartFrom | crates/messages/src/util.rs:26-36 | The first index of the row at or after i, or 0 |
| Messages.LineStartIndex | crates/messages/src/util.rs:26-36 | The row's start is 0 or an index inside the source |
| Messages.FirstNewlineFrom | crates/messages/src/util.rs:37-42 | The first line feed at or after i, or None exactly when there is none |
| Messages.FindLineOf | crates/messages/src/util.rs:25-43 | The returned line holds no line feed and is followed by one; None exactly when no line feed follows the line start |
| Messages.LineZero | crates/messages/src/util.rs:26-36 | Row 0 is never matched, so its start stays 0 |
| Messages.FirstLines | crates/messages/src/util.rs:26-36 | Rows 0 and 1 start at index 0, and so does the row two past the line feeds (the row after the last row) |
| Messages.RowsPastEnd | crates/messages/src/util.rs:26-36 | Any row beyond 1 + the number of line feeds holds no byte of the source, so `find_line` settles on index 0 |
| Messages.LineStartFromFinds | crates/messages/src/util.rs:26-36 | The scan finds the first index whose row is the one asked for |
| Messages.RowStartAgrees | crates/messages/src/util.rs:10-43 | `find_line` looks for a row where `line_number` says it starts |
| Messages.StartLineHolds | crates/messages/src/util.rs:10-43 | The line `find_line` returns for `start`'s row begins at `line_number`'s line start, contains `start`, and ends at a line feed |
| Messages.FindLine | crates/messages/src/util.rs:25-43 | The loop returns `FindLineOf` |
| Messages.Parse | crates/messages/src/message.rs:180-203 | Requires end >= 1 and no line feed at `start` (usize underflow otherwise); never yields NoContent; its columns and lines are stated by `ParseStartCol`, `ParseEndCol`, `ParseShowsStart` and `ParseShowsEnd` |
| Messages.ParseShape | crates/messages/src/message.rs:180-203 | SingleLine exactly when start and end - 1 share a row; None exactly when a needed row has no terminating line feed; MultiLine carries both rows and lines |
| Messages.ParseStartCol | crates/messages/src/message.rs:188-198 | The start column is start minus its line start, and the first line shown is start's row |
| Messages.ParseEndCol | crates/messages/src/message.rs:181-201 | The end column is `end` minus the line start of `end - 1`, and the last line shown is the row of `end - 1` |
| Messages.ParseEndAtNewline | crates/messages/src/message.rs:181-201 | A span whose last byte is a line feed gets end column 0 and the row after that line feed |
| Messages.ShowsEndOf | crates/messages/src/message.rs:181-201 | A column and line that agree with `line_number` and `find_line` for `end - 1` show the source line holding that byte, starting at `end - endCol` and followed by a line feed |
| Messages.ShowsStartOf | crates/messages/src/message.rs:180-203 | Content with `start`'s column and row line shows the source line holding `start`, starting at `start - startCol` and followed by a line feed |
| Messages.ParseShowsStart | crates/messages/src/message.rs:180-203 | The shown line is the source line holding `start`, at its column |
| Messages.ParseShowsEnd | crates/messages/src/message.rs:181-201 | The last line shown is the source line holding `end - 1`, and `end - endCol` is where that line starts |
| Messages.TextsDistinct | crates/messages/src/message.rs:30-37 | note, success, warning and error are four different labels |

## Left out

- The command-line demo (crates/cli/src/main.rs): it only does I/O.
- The `Display` implementation of messages, `write_message`, `write_header`, `pad`, `pad_styled` and `mark_blue`: terminal formatting and colour.
- crates/compiler/src/compiler.rs and crates/compiler/src/compiler/value.rs: unfinished stubs. `compile_value` is a parameter (`CompileValue`) of the older compiler.
- Declarations-only files (util.rs, error.rs, lir/error.rs, lir/s7/mod.rs, mir.rs, mir/ops.rs, hir.rs, hir/mod.rs, hir/value.rs, lib.rs) appear only as datatypes. The declaring files of `MirAddress`, `MirValue` and `MirInstruction` are not part of this model; their variants are taken from where they are built and consumed.
- The `phf` maps `KEYWORDS` and `BUILTIN_FUNCTIONS` are finite maps.
- `Rc` sharing and interior aliasing of MIR values: values are immutable trees, and a variable slot is the unit of update.
- Panics (`assert!`, `expect`, `todo!`, `panic!`, slicing outside the source, a loop that never ends) are preconditions, or the `Panic` outcome where a caller must rule them out; unwinding is not modelled.
- The enum revision's `MirValue::write` is not shown. The newer lowering takes it as a parameter `WriteHandler`.
- The older revision's `Mir` struct and `Mir::new` are not part of this model; they are taken to hold the source, a variable list and an action list, starting empty.
- Indexing the source by a `Quote`, `Quote::adjacent`, `parse_number`, `alloc1`, `alloc_counter` and `byte_offset` are not shown. They are taken to be slicing that panics outside the source, adjacency of the ranges, the decimal value of the quoted digits, a wrapped `alloc_u1`, a 65536-entry counter cursor in the allocator, and a parameter `offset`.
- Error values carry only the quote and the reason, not the shared source.
- Mir.AllocatedU1: integer widths are unbounded; the allocator's invariant keeps `byte_index` within 0x10000 and `bit_index` within 7, so no `u8`/`usize` overflow is reachable.
- Lir.TransformAddress: the `u16` sum of offset and pointer is modelled as wrapping; the contract states the sum only when it does not overflow (a debug build would panic there).
- Messages.LineNumber: the row is unbounded here, while the source returns a `u32`.
- HirParser.Args, LegacyParser.Args: the functions state only prefix and shape facts about the argument list; what each argument is comes from `Value`, as their bodies show.
- MirTypes.Readable: the body of `MirValue::is_bit_readable` is not shown. It is taken to accept an address of one bit, a reference to a readable earlier variable, `not`/`and`/`or`/`xor` of readable values, and an operation list whose set/reset conditions are all readable. A looser reading that accepts every operation list differs only on lists that `rs` and `sr` did not build, since both check their arguments with `assert_bit_readable` first.
- The frame of the write handler: `MirValue::write` receives the whole `Mir` and is not shown. The model assumes that it allocates nothing, changes no variable slot, and only appends actions. It also assumes that the value stored back into the slot is the handler's first result (in the source, the written-to clone of the slot's value). `WriteTouchesOneSlot` rests on that frame rather than proving it.
- MirTransformer.CallStatement: if `optimize` rejects the writer's code, the model gives `Panic`; the source panics or loops there. `CallPanicsOnlyInLowering` shows this cannot happen over a variable table that keeps its operation lists non-empty. Lowering builds only such tables (`StatementFilled`, `TransformFilled`), given a write handler that keeps them so. `TransformCall` and `Transform` still require the whole outcome not to be `Panic`, which also excludes an exhausted allocator.
- Mir.Named, LegacyMir.NamedSlot: a slot whose name quote lies outside the source matches no name here. Slicing by such a quote would panic in the source. Slots are only built from quotes the lexers produced inside the source.
- The UTF-8 lexer's cursor: besides the byte `index` of the source, `CharLexer.Lexer` keeps the character position `pos`. Strings are sequences of characters here, so the character at a byte offset is read through that position.
