/** Locating a span of the source for a diagnostic
    (crates/messages/src/util.rs and crates/messages/src/message.rs): the
    row and line start of a byte position, the text of a numbered line, and
    the single- or multi-line excerpt a message shows. The source is taken
    as its bytes; rows and columns are unbounded. */
module Messages {
  import C = Common

  const NEWLINE: C.Byte := 10

  /** The number of line feeds in `s`. */
  function Newlines(s: seq<C.Byte>): (r: nat)
    ensures r <= |s|
  {
    if s == [] then 0
    else Newlines(s[..|s| - 1]) + (if s[|s| - 1] == NEWLINE then 1 else 0)
  }

  /** `Newlines` counts exactly the occurrences of the line feed. */
  lemma {:induction false} NewlinesCount(s: seq<C.Byte>)
    ensures Newlines(s) == multiset(s)[NEWLINE]
  {
    if s != [] {
      var p := s[..|s| - 1];
      NewlinesCount(p);
      assert s == p + [s[|s| - 1]];
      assert multiset(s) == multiset(p) + multiset{s[|s| - 1]};
    }
  }

  lemma {:induction false} NewlinesConcat(a: seq<C.Byte>, b: seq<C.Byte>)
    ensures Newlines(a + b) == Newlines(a) + Newlines(b)
    decreases |b|
  {
    if b == [] {
      assert a + b == a;
    } else {
      var b' := b[..|b| - 1];
      assert (a + b)[..|a + b| - 1] == a + b';
      NewlinesConcat(a, b');
    }
  }

  lemma NewlinesNone(s: seq<C.Byte>)
    requires forall j :: 0 <= j < |s| ==> s[j] != NEWLINE
    ensures Newlines(s) == 0
  {
    NewlinesCount(s);
    assert NEWLINE !in s;
  }

  lemma NewlinesMono(s: seq<C.Byte>, i: nat, j: nat)
    requires i <= j <= |s|
    ensures Newlines(s[..i]) <= Newlines(s[..j])
  {
    assert s[..j] == s[..i] + s[i..j];
    NewlinesConcat(s[..i], s[i..j]);
  }

  /** The index just after the last line feed of `s`, or 0. */
  function LastLineStart(s: seq<C.Byte>): (r: nat)
    ensures r <= |s| && (r == 0 || s[r - 1] == NEWLINE)
    ensures forall j :: r <= j < |s| ==> s[j] != NEWLINE
  {
    if s == [] then 0
    else if s[|s| - 1] == NEWLINE then |s|
    else LastLineStart(s[..|s| - 1])
  }

  /** How much of the source `line_number` looks at: the bytes up to and
      including `start`, or all of them. */
  function Scanned(src: seq<C.Byte>, start: nat): (r: nat)
    ensures r <= |src|
  {
    if start < |src| then start + 1 else |src|
  }

  /** The result of `line_number`: the line start and the row (from 1) of
      the byte at `start`. */
  function LineNumberOf(src: seq<C.Byte>, start: nat): (nat, nat) {
    var s := src[..Scanned(src, start)];
    (LastLineStart(s), 1 + Newlines(s))
  }

  /** The row is one more than the line feeds up to and including `start`;
      the line start follows the last of them, and no line feed lies
      between it and `start`. A line feed at `start` itself is counted, so
      only then does the line start lie past `start`. */
  lemma LineNumberSpec(src: seq<C.Byte>, start: nat)
    ensures var (lineStart, row) := LineNumberOf(src, start);
      var k := Scanned(src, start);
      row >= 1 && row == 1 + multiset(src[..k])[NEWLINE] &&
      lineStart <= k && (lineStart == 0 || src[lineStart - 1] == NEWLINE) &&
      (forall j :: lineStart <= j < k ==> src[j] != NEWLINE) &&
      (lineStart <= start <==> !(start < |src| && src[start] == NEWLINE))
  {
    var k := Scanned(src, start);
    NewlinesCount(src[..k]);
  }

  /** `line_number`. */
  method LineNumber(src: seq<C.Byte>, start: nat) returns (lineStart: nat, line: nat)
    ensures (lineStart, line) == LineNumberOf(src, start)
  {
    line := 1;
    lineStart := 0;
    var i := 0;
    while i < |src|
      invariant i <= |src| && i <= start
      invariant lineStart == LastLineStart(src[..i]) && line == 1 + Newlines(src[..i])
    {
      assert src[..i + 1][..i] == src[..i];
      if src[i] == NEWLINE {
        lineStart := i + 1;
        line := line + 1;
      }
      if i >= start {
        i := i + 1;
        break;
      }
      i := i + 1;
    }
    assert i == Scanned(src, start);
  }

  /** The index of the first byte at or after `i` whose row is `line`, or 0
      when there is none. */
  function LineStartFrom(src: seq<C.Byte>, line: nat, i: nat): (r: nat)
    requires i <= |src|
    ensures r == 0 || (i <= r < |src| && 1 + Newlines(src[..r]) == line)
    ensures r != 0 ==> forall j :: i <= j < r ==> 1 + Newlines(src[..j]) != line
    decreases |src| - i
  {
    if i == |src| then 0
    else if 1 + Newlines(src[..i]) == line then i
    else LineStartFrom(src, line, i + 1)
  }

  /** The start index `find_line` settles on for row `line`. */
  function LineStartIndex(src: seq<C.Byte>, line: nat): (r: nat)
    ensures r == 0 || r < |src|
  {
    LineStartFrom(src, line, 0)
  }

  /** The first line feed at or after `i`. */
  function FirstNewlineFrom(src: seq<C.Byte>, i: nat): (r: C.Option<nat>)
    requires i <= |src|
    ensures r.Some? ==> i <= r.value < |src| && src[r.value] == NEWLINE
    ensures r.Some? ==> forall j :: i <= j < r.value ==> src[j] != NEWLINE
    ensures r.None? <==> forall j :: i <= j < |src| ==> src[j] != NEWLINE
    decreases |src| - i
  {
    if i == |src| then C.None
    else if src[i] == NEWLINE then C.Some(i)
    else FirstNewlineFrom(src, i + 1)
  }

  /** `find_line`: the text of row `line` up to its line feed. */
  function FindLineOf(src: seq<C.Byte>, line: nat): (r: C.Option<seq<C.Byte>>)
    ensures var st := LineStartIndex(src, line);
      r.Some? ==>
        st + |r.value| < |src| && r.value == src[st..st + |r.value|] &&
        NEWLINE !in r.value && src[st + |r.value|] == NEWLINE
    ensures r.None? <==> forall j :: LineStartIndex(src, line) <= j < |src| ==> src[j] != NEWLINE
  {
    var st := LineStartIndex(src, line);
    match FirstNewlineFrom(src, st)
    case None => C.None
    case Some(j) => C.Some(src[st..j])
  }

  /** Row 0, row 1 and rows past the last line start all resolve to index
      0. */
  lemma {:induction false} LineZero(src: seq<C.Byte>, i: nat)
    requires i <= |src|
    ensures LineStartFrom(src, 0, i) == 0
    decreases |src| - i
  {
    if i < |src| {
      LineZero(src, i + 1);
    }
  }

  lemma FirstLines(src: seq<C.Byte>)
    ensures LineStartIndex(src, 0) == 0 && LineStartIndex(src, 1) == 0
    ensures LineStartIndex(src, 1 + Newlines(src) + 1) == 0
  {
    LineZero(src, 0);
    assert src[..0] == [];
    assert src[..|src|] == src;
    NewlinesMono(src, LineStartIndex(src, 1 + Newlines(src) + 1), |src|);
  }

  /** A row that no byte of the source belongs to, such as any row past
      the last line feed's successor, resolves to index 0. */
  lemma RowsPastEnd(src: seq<C.Byte>, line: nat)
    requires line > 1 + Newlines(src)
    ensures LineStartIndex(src, line) == 0
  {
    var r := LineStartIndex(src, line);
    if r != 0 {
      assert src[..|src|] == src;
      NewlinesMono(src, r, |src|);
    }
  }

  lemma {:induction false} LineStartFromFinds(src: seq<C.Byte>, line: nat, i: nat, r: nat)
    requires i <= r < |src| && 1 + Newlines(src[..r]) == line
    requires forall j :: i <= j < r ==> 1 + Newlines(src[..j]) != line
    ensures LineStartFrom(src, line, i) == r
    decreases r - i
  {
    if i < r {
      LineStartFromFinds(src, line, i + 1, r);
    }
  }

  /** The line start `line_number` reports is where `find_line` looks for
      that row, whenever that line start is a byte of the source. */
  lemma RowStartAgrees(src: seq<C.Byte>, pos: nat)
    requires LineNumberOf(src, pos).0 < |src|
    ensures LineStartIndex(src, LineNumberOf(src, pos).1) == LineNumberOf(src, pos).0
  {
    var (ls, row) := LineNumberOf(src, pos);
    var k := Scanned(src, pos);
    var s := src[..k];
    assert src[..ls] == s[..ls];
    assert s == s[..ls] + s[ls..k];
    NewlinesConcat(s[..ls], s[ls..k]);
    NewlinesNone(s[ls..k]);
    assert 1 + Newlines(src[..ls]) == row;
    if ls > 0 {
      assert src[..ls][..ls - 1] == src[..ls - 1];
      forall j | 0 <= j < ls
        ensures 1 + Newlines(src[..j]) != row
      {
        NewlinesMono(src, j, ls - 1);
      }
    }
    LineStartFromFinds(src, row, 0, ls);
  }

  /** `find_line`. */
  method FindLine(src: seq<C.Byte>, line: nat) returns (r: C.Option<seq<C.Byte>>)
    ensures r == FindLineOf(src, line)
  {
    var currentLine := 1;
    var startIndex := 0;
    var i := 0;
    while i < |src|
      invariant i <= |src| && currentLine == 1 + Newlines(src[..i])
      invariant LineStartIndex(src, line) == LineStartFrom(src, line, i)
    {
      if currentLine == line {
        startIndex := i;
        break;
      }
      assert src[..i + 1][..i] == src[..i];
      if src[i] == NEWLINE {
        currentLine := currentLine + 1;
      }
      i := i + 1;
    }
    assert startIndex == LineStartIndex(src, line);
    var j := startIndex;
    while j < |src|
      invariant startIndex <= j <= |src|
      invariant FirstNewlineFrom(src, startIndex) == FirstNewlineFrom(src, j)
    {
      if src[j] == NEWLINE {
        return C.Some(src[startIndex..j]);
      }
      j := j + 1;
    }
    r := C.None;
  }

  /** `MessageContent`; `NoContent` is the `None` variant. */
  datatype MessageContent =
    | NoContent
    | SingleLine(file: string, row: nat, startCol: nat, endCol: nat, line: seq<C.Byte>)
    | MultiLine(file: string, startRow: nat, startCol: nat, startLine: seq<C.Byte>,
                endRow: nat, endCol: nat, endLine: seq<C.Byte>)

  /** `MessageContent::parse` for the span `start..end`. Its subtractions
      need a non-empty span end and no line feed at `start`. */
  function Parse(file: string, src: seq<C.Byte>, start: nat, end: nat): (r: C.Option<MessageContent>)
    requires end >= 1
    requires start < |src| ==> src[start] != NEWLINE
    ensures r.Some? ==> !r.value.NoContent?
  {
    var (startRowIndex, startRow) := LineNumberOf(src, start);
    var (endRowIndex, endRow) := LineNumberOf(src, end - 1);
    assert startRowIndex <= start && endRowIndex <= end by {
      LineNumberSpec(src, start);
    }
    if startRow == endRow then
      match FindLineOf(src, startRow)
      case None => C.None
      case Some(line) => C.Some(SingleLine(file, startRow, start - startRowIndex, end - endRowIndex, line))
    else
      match FindLineOf(src, startRow)
      case None => C.None
      case Some(startLine) =>
        match FindLineOf(src, endRow)
        case None => C.None
        case Some(endLine) =>
          C.Some(MultiLine(file, startRow, start - startRowIndex, startLine, endRow, end - endRowIndex, endLine))
  }

  /** The excerpt is a single line exactly when `start` and the last byte of
      the span share a row, and every row it shows is the row
      `line_number` gives; it is missing exactly when a needed row has no
      terminating line feed. */
  lemma ParseShape(file: string, src: seq<C.Byte>, start: nat, end: nat)
    requires end >= 1
    requires start < |src| ==> src[start] != NEWLINE
    ensures var r := Parse(file, src, start, end);
      var startRow := LineNumberOf(src, start).1;
      var endRow := LineNumberOf(src, end - 1).1;
      (r.None? <==> FindLineOf(src, startRow).None? || FindLineOf(src, endRow).None?) &&
      (r.Some? ==> (r.value.SingleLine? <==> startRow == endRow)) &&
      (r.Some? && r.value.SingleLine? ==> r.value.row == startRow && r.value.line == FindLineOf(src, startRow).value) &&
      (r.Some? && r.value.MultiLine? ==>
        r.value.startRow == startRow && r.value.endRow == endRow &&
        r.value.startLine == FindLineOf(src, startRow).value && r.value.endLine == FindLineOf(src, endRow).value)
  { }

  /** The start column is `start`'s distance from its line start, and the
      first line shown is `start`'s row. */
  lemma ParseStartCol(file: string, src: seq<C.Byte>, start: nat, end: nat)
    requires end >= 1
    requires start < |src| ==> src[start] != NEWLINE
    requires Parse(file, src, start, end).Some?
    ensures Parse(file, src, start, end).value.startCol == start - LineNumberOf(src, start).0
    ensures ShownLine(Parse(file, src, start, end).value) == FindLineOf(src, LineNumberOf(src, start).1).value
  { }

  /** The end column is the distance of `end` from the line start of the
      span's last byte, and the last line shown is that byte's row. */
  lemma ParseEndCol(file: string, src: seq<C.Byte>, start: nat, end: nat)
    requires end >= 1
    requires start < |src| ==> src[start] != NEWLINE
    requires Parse(file, src, start, end).Some?
    ensures Parse(file, src, start, end).value.endCol == end - LineNumberOf(src, end - 1).0
    ensures FindLineOf(src, LineNumberOf(src, end - 1).1).Some?
    ensures ShownEndLine(Parse(file, src, start, end).value) == FindLineOf(src, LineNumberOf(src, end - 1).1).value
  { }

  /** A span whose last byte is a line feed ends at column 0 of the row
      after it. */
  lemma ParseEndAtNewline(file: string, src: seq<C.Byte>, start: nat, end: nat)
    requires 1 <= end <= |src| && src[end - 1] == NEWLINE
    requires start < |src| ==> src[start] != NEWLINE
    requires Parse(file, src, start, end).Some?
    ensures Parse(file, src, start, end).value.endCol == 0
    ensures LineNumberOf(src, end - 1).1 == 1 + Newlines(src[..end])
  {
    ParseEndCol(file, src, start, end);
    assert Scanned(src, end - 1) == end;
  }

  /** The line a message shows last. */
  function ShownEndLine(c: MessageContent): seq<C.Byte>
    requires !c.NoContent?
  {
    if c.SingleLine? then c.line else c.endLine
  }

  /** The line a message shows first. */
  function ShownLine(c: MessageContent): seq<C.Byte>
    requires !c.NoContent?
  {
    if c.SingleLine? then c.line else c.startLine
  }

  /** The line `find_line` returns for `start`'s row runs from `start`'s
      line start past `start` up to a line feed. */
  lemma StartLineHolds(src: seq<C.Byte>, start: nat)
    requires start < |src| && src[start] != NEWLINE
    requires FindLineOf(src, LineNumberOf(src, start).1).Some?
    ensures var (ls, row) := LineNumberOf(src, start);
      var line := FindLineOf(src, row).value;
      ls <= start < ls + |line| < |src| && src[ls..ls + |line|] == line && src[ls + |line|] == NEWLINE
  {
    var (ls, row) := LineNumberOf(src, start);
    LineNumberSpec(src, start);
    RowStartAgrees(src, start);
  }

  /** `line` is the source line that starts at `ls`, holds the byte at
      `pos` and is followed by a line feed. */
  ghost predicate LineAt(src: seq<C.Byte>, ls: int, pos: nat, line: seq<C.Byte>) {
    0 <= ls <= pos < ls + |line| < |src| &&
    src[ls..ls + |line|] == line && src[ls + |line|] == NEWLINE
  }

  lemma ShowsStartOf(src: seq<C.Byte>, start: nat, c: MessageContent)
    requires start < |src| && src[start] != NEWLINE && !c.NoContent?
    requires FindLineOf(src, LineNumberOf(src, start).1).Some?
    requires c.startCol == start - LineNumberOf(src, start).0
    requires ShownLine(c) == FindLineOf(src, LineNumberOf(src, start).1).value
    ensures c.startCol <= start && LineAt(src, start - c.startCol, start, ShownLine(c))
  {
    StartLineHolds(src, start);
  }

  /** The shown line is the source line holding `start`, and the start
      column is `start`'s offset in it. */
  lemma ParseShowsStart(file: string, src: seq<C.Byte>, start: nat, end: nat)
    requires end >= 1 && start < |src| && src[start] != NEWLINE
    requires Parse(file, src, start, end).Some?
    ensures var c := Parse(file, src, start, end).value;
      c.startCol <= start && LineAt(src, start - c.startCol, start, ShownLine(c))
  {
    ParseStartCol(file, src, start, end);
    ShowsStartOf(src, start, Parse(file, src, start, end).value);
  }

  /** A column and line that agree with `line_number` and `find_line` for
      the byte before `end` locate that byte's line in the source. */
  lemma ShowsEndOf(src: seq<C.Byte>, end: nat, endCol: nat, line: seq<C.Byte>)
    requires 1 <= end <= |src| && src[end - 1] != NEWLINE
    requires FindLineOf(src, LineNumberOf(src, end - 1).1).Some?
    requires endCol == end - LineNumberOf(src, end - 1).0
    requires line == FindLineOf(src, LineNumberOf(src, end - 1).1).value
    ensures endCol <= end && LineAt(src, end - endCol, end - 1, line)
  {
    StartLineHolds(src, end - 1);
  }

  /** The last line shown is the source line holding the span's last byte,
      and the end column is `end`'s offset in it. */
  lemma ParseShowsEnd(file: string, src: seq<C.Byte>, start: nat, end: nat)
    requires 1 <= end <= |src| && src[end - 1] != NEWLINE
    requires start < |src| ==> src[start] != NEWLINE
    requires Parse(file, src, start, end).Some?
    ensures var c := Parse(file, src, start, end).value;
      c.endCol <= end && LineAt(src, end - c.endCol, end - 1, ShownEndLine(c))
  {
    var c := Parse(file, src, start, end).value;
    ParseEndCol(file, src, start, end);
    ShowsEndOf(src, end, c.endCol, ShownEndLine(c));
  }

  datatype MessageType = Note | Success | Warning | Error {
    /** `MessageType::text`. */
    function Text(): string {
      match this
      case Note => "note"
      case Success => "success"
      case Warning => "warning"
      case Error => "error"
    }
  }

  /** Each kind of message has its own label. */
  lemma TextsDistinct(a: MessageType, b: MessageType)
    ensures a.Text() == b.Text() <==> a == b
  { }
}
