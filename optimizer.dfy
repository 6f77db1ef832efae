/** The bracket optimizer of crates/compiler/src/mir/writer/optimizer.rs.

    `optimize_brackets` walks the instruction array in place. A bracket
    `op( ... )` whose interior, once its own inner brackets are optimized,
    holds a single `And addr` collapses into `op addr`: the opener is
    rewritten and the interior and the `End` become `Dummy`. `filter_dummy`
    then drops the emptied slots.

    `BracketPass` is the pass on values; it yields `None` where the source
    panics (an empty bracket, an `End` outside a bracket, an unclosed
    bracket) or never ends (a single interior instruction that is not an
    `And`). The method `OptimizeBrackets` is proved to do what it says on the
    array. */
module Optimizer {
  import opened Common
  import opened MirTypes
  import W = Writer

  /** The instructions that are not `Dummy`, in order. */
  function Filtered(s: seq<MirInstruction>): (r: seq<MirInstruction>)
    ensures |r| <= |s|
    ensures forall j :: 0 <= j < |r| ==> !r[j].Dummy?
    ensures (forall j :: 0 <= j < |s| ==> !s[j].Dummy?) ==> r == s
  {
    if s == [] then []
    else if s[0].Dummy? then Filtered(s[1..])
    else [s[0]] + Filtered(s[1..])
  }

  lemma {:induction false} FilteredConcat(a: seq<MirInstruction>, b: seq<MirInstruction>)
    ensures Filtered(a + b) == Filtered(a) + Filtered(b)
    decreases |a|
  {
    if a == [] {
      assert a + b == b;
    } else {
      assert (a + b)[1..] == a[1..] + b;
      FilteredConcat(a[1..], b);
    }
  }

  /** `non_dummy_len`. */
  function NonDummyLen(s: seq<MirInstruction>): (r: nat)
    ensures r == |Filtered(s)|
  {
    if s == [] then 0
    else (if s[0].Dummy? then 0 else 1) + NonDummyLen(s[1..])
  }

  /** `get_non_dummy`: the `index`-th instruction that is not `Dummy`; the
      source panics when there are not that many. */
  function GetNonDummy(s: seq<MirInstruction>, index: nat): (r: MirInstruction)
    requires index < NonDummyLen(s)
    ensures r == Filtered(s)[index] && !r.Dummy?
  {
    if s[0].Dummy? then GetNonDummy(s[1..], index)
    else if index == 0 then s[0]
    else GetNonDummy(s[1..], index - 1)
  }

  /** `s` with the slots `lo` to `hi` emptied. */
  function Dummied(s: seq<MirInstruction>, lo: nat, hi: nat): (r: seq<MirInstruction>)
    requires lo <= hi <= |s|
    ensures |r| == |s|
    ensures forall k :: 0 <= k < |s| ==> r[k] == if lo <= k < hi then Dummy else s[k]
  {
    s[..lo] + seq(hi - lo, _ => Dummy) + s[hi..]
  }

  /** The bracket from `i` to `termEnd` replaced by the single instruction
      `op` at `i`, the rest of it emptied. */
  function Collapsed(s: seq<MirInstruction>, i: nat, termEnd: nat, op: MirInstruction): (r: seq<MirInstruction>)
    requires i < termEnd < |s|
    ensures |r| == |s|
    ensures forall k :: 0 <= k < |s| ==> r[k] == if k == i then op else if i < k <= termEnd then Dummy else s[k]
  {
    Dummied(s, i + 1, termEnd)[termEnd := Dummy][i := op]
  }

  /** `optimize_brackets` from `index`: the new instruction array and the
      index it stops at, which for a bracket interior (`term`) is the
      closing `End` and otherwise the end of the list. */
  function BracketPass(s: seq<MirInstruction>, index: nat, term: bool): (r: Option<(seq<MirInstruction>, nat)>)
    requires index <= |s|
    ensures r.Some? ==> |r.value.0| == |s| && index <= r.value.1 <= |s|
    ensures r.Some? && term ==> r.value.1 < |s| && r.value.0[r.value.1].End?
    ensures r.Some? && !term ==> r.value.1 == |s|
    decreases |s| - index, 1
  {
    if index == |s| then
      if term then None else Some((s, index))
    else if s[index].End? then
      if term then Some((s, index)) else None
    else if HasBracket(s[index]) then AfterBracket(s, index, term)
    else BracketPass(s, index + 1, term)
  }

  /** The pass at a bracket opener: the interior is optimized first; an
      interior left with several instructions keeps its bracket, one left
      with a single `And` collapses into the opener, and the pass goes on
      after the `End`. */
  function AfterBracket(s: seq<MirInstruction>, index: nat, term: bool): (r: Option<(seq<MirInstruction>, nat)>)
    requires index < |s| && HasBracket(s[index])
    ensures r.Some? ==> |r.value.0| == |s| && index < r.value.1 <= |s|
    ensures r.Some? && term ==> r.value.1 < |s| && r.value.0[r.value.1].End?
    ensures r.Some? && !term ==> r.value.1 == |s|
    decreases |s| - index, 0
  {
    match BracketPass(s, index + 1, true)
    case None => None
    case Some((s1, termEnd)) =>
      var len := NonDummyLen(s1[index + 1..termEnd]);
      if len < 1 then None
      else if len > 1 then BracketPass(s1, termEnd + 1, term)
      else
        var inner := GetNonDummy(s1[index + 1..termEnd], 0);
        if !inner.And? then None
        else BracketPass(Collapsed(s1, index, termEnd, Unbracket(s[index], inner.addr)), termEnd + 1, term)
  }

  /** One step of the pass over a slot it skips. */
  lemma PassSkip(s: seq<MirInstruction>, i: nat, term: bool)
    requires i < |s| && !s[i].End? && !HasBracket(s[i])
    ensures BracketPass(s, i, term) == BracketPass(s, i + 1, term)
  { }

  /** One step of the pass over a bracket it keeps. */
  lemma PassKeep(s: seq<MirInstruction>, i: nat, term: bool, s1: seq<MirInstruction>, termEnd: nat)
    requires i < |s| && HasBracket(s[i])
    requires BracketPass(s, i + 1, true) == Some((s1, termEnd))
    requires NonDummyLen(s1[i + 1..termEnd]) > 1
    ensures AfterBracket(s, i, term) == BracketPass(s1, termEnd + 1, term)
  { }

  /** One step of the pass over a bracket it collapses. */
  lemma PassCollapse(s: seq<MirInstruction>, i: nat, term: bool, s1: seq<MirInstruction>, termEnd: nat)
    requires i < |s| && HasBracket(s[i])
    requires BracketPass(s, i + 1, true) == Some((s1, termEnd))
    requires NonDummyLen(s1[i + 1..termEnd]) == 1
    requires GetNonDummy(s1[i + 1..termEnd], 0).And?
    ensures AfterBracket(s, i, term) ==
      BracketPass(Collapsed(s1, i, termEnd, Unbracket(s[i], GetNonDummy(s1[i + 1..termEnd], 0).addr)), termEnd + 1, term)
  { }

  /** `t` is `s` after some collapses: every slot is unchanged, emptied, or
      an opener rewritten into its single-operand form. */
  predicate Evolves(s: seq<MirInstruction>, t: seq<MirInstruction>) {
    |s| == |t| &&
    forall k :: 0 <= k < |s| ==> t[k] == s[k] || t[k].Dummy? || (HasBracket(s[k]) && Addressed(t[k]))
  }

  lemma EvolvesTrans(s: seq<MirInstruction>, t: seq<MirInstruction>, u: seq<MirInstruction>)
    requires Evolves(s, t) && Evolves(t, u)
    ensures Evolves(s, u)
  { }

  /** The pass from `index` leaves the slots before `index` and from its
      stop on alone, and otherwise only empties slots and rewrites openers;
      in particular an emptied slot stays empty. */
  lemma {:induction false} PassFrame(s: seq<MirInstruction>, index: nat, term: bool)
    requires index <= |s| && BracketPass(s, index, term).Some?
    ensures var (t, stop) := BracketPass(s, index, term).value;
      Evolves(s, t) && forall k :: 0 <= k < index || stop <= k < |s| ==> t[k] == s[k]
    decreases |s| - index, 2
  {
    if index == |s| || s[index].End? {
    } else if HasBracket(s[index]) {
      AfterFrame(s, index, term);
    } else {
      PassFrame(s, index + 1, term);
    }
  }

  lemma {:induction false} AfterFrame(s: seq<MirInstruction>, index: nat, term: bool)
    requires index < |s| && HasBracket(s[index]) && AfterBracket(s, index, term).Some?
    ensures var (t, stop) := AfterBracket(s, index, term).value;
      Evolves(s, t) && forall k :: 0 <= k < index || stop <= k < |s| ==> t[k] == s[k]
    decreases |s| - index, 1
  {
    var s2, termEnd := InnerFrame(s, index, term);
    PassFrame(s2, termEnd + 1, term);
    EvolvesTrans(s, s2, BracketPass(s2, termEnd + 1, term).value.0);
  }

  /** The bracket at `index` once its interior is done (and collapsed, if it
      is): the pass goes on from after its `End` in `s2`. */
  lemma {:induction false} InnerFrame(s: seq<MirInstruction>, index: nat, term: bool) returns (s2: seq<MirInstruction>, termEnd: nat)
    requires index < |s| && HasBracket(s[index]) && AfterBracket(s, index, term).Some?
    ensures index < termEnd < |s2| == |s|
    ensures BracketPass(s2, termEnd + 1, term) == AfterBracket(s, index, term)
    ensures Evolves(s, s2) && forall k :: 0 <= k < index || termEnd < k < |s| ==> s2[k] == s[k]
    decreases |s| - index, 0
  {
    PassFrame(s, index + 1, true);
    var s1;
    s1, termEnd := BracketPass(s, index + 1, true).value.0, BracketPass(s, index + 1, true).value.1;
    s2 := s1;
    if NonDummyLen(s1[index + 1..termEnd]) == 1 {
      var inner := GetNonDummy(s1[index + 1..termEnd], 0);
      s2 := Collapsed(s1, index, termEnd, Unbracket(s[index], inner.addr));
      CollapseEvolves(s, s1, index, termEnd, Unbracket(s[index], inner.addr));
    }
  }

  lemma CollapseEvolves(s: seq<MirInstruction>, s1: seq<MirInstruction>, i: nat, termEnd: nat, op: MirInstruction)
    requires i < termEnd < |s| && HasBracket(s[i]) && Addressed(op)
    requires Evolves(s, s1) && forall k :: 0 <= k <= i || termEnd < k < |s| ==> s1[k] == s[k]
    ensures Evolves(s, Collapsed(s1, i, termEnd, op))
    ensures forall k :: 0 <= k < i || termEnd < k < |s| ==> Collapsed(s1, i, termEnd, op)[k] == s[k]
  { }

  /** A stretch of plain instructions up to an `End` is walked over
      unchanged. */
  lemma {:induction false} PassWalk(s: seq<MirInstruction>, i: nat, termEnd: nat)
    requires i <= termEnd < |s| && s[termEnd].End?
    requires forall k :: i <= k < termEnd ==> !s[k].End? && !HasBracket(s[k])
    ensures BracketPass(s, i, true) == Some((s, termEnd))
    decreases termEnd - i
  {
    if i < termEnd {
      PassWalk(s, i + 1, termEnd);
    }
  }

  /** The sequence holding only `x` after filtering is `x` among dummies. */
  lemma {:induction false} FilteredSingle(s: seq<MirInstruction>, x: MirInstruction)
    requires Filtered(s) == [x]
    ensures forall k :: 0 <= k < |s| ==> s[k].Dummy? || s[k] == x
  {
    if s != [] {
      if s[0].Dummy? {
        FilteredSingle(s[1..], x);
        forall k | 1 <= k < |s| ensures s[k].Dummy? || s[k] == x {
          assert s[1..][k - 1] == s[k];
        }
      } else {
        assert [s[0]] + Filtered(s[1..]) == [x];
        assert |Filtered(s[1..])| == 0;
        assert ([s[0]] + Filtered(s[1..]))[0] == s[0];
        forall k | 1 <= k < |s| ensures s[k].Dummy? {
          assert s[1..][k - 1] == s[k];
          FilteredNone(s[1..], k - 1);
        }
      }
    }
  }

  lemma {:induction false} FilteredNone(s: seq<MirInstruction>, k: nat)
    requires Filtered(s) == [] && k < |s|
    ensures s[k].Dummy?
  {
    if k > 0 {
      FilteredNone(s[1..], k - 1);
    }
  }

  /** Why the source's pass never ends when a bracket's interior is reduced
      to one plain instruction that is not an `And` (the case `AfterBracket`
      maps to `None`): it goes back to the same opener without advancing,
      and optimizing the interior again reaches the same `End` and changes
      nothing, so every round repeats the last. */
  lemma StuckRepeats(s: seq<MirInstruction>, index: nat, s1: seq<MirInstruction>, termEnd: nat)
    requires index < |s| && HasBracket(s[index])
    requires BracketPass(s, index + 1, true) == Some((s1, termEnd))
    requires NonDummyLen(s1[index + 1..termEnd]) == 1
    requires var inner := GetNonDummy(s1[index + 1..termEnd], 0);
      !inner.And? && !inner.End? && !HasBracket(inner)
    ensures BracketPass(s1, index + 1, true) == Some((s1, termEnd))
  {
    var body := s1[index + 1..termEnd];
    var inner := GetNonDummy(body, 0);
    FilteredSingle(body, inner);
    forall k | index + 1 <= k < termEnd
      ensures !s1[k].End? && !HasBracket(s1[k])
    {
      assert s1[k] == body[k - index - 1];
    }
    PassWalk(s1, index + 1, termEnd);
  }

  /** `a | b` written as `A a; O( A b )` becomes `A a; O b`. */
  lemma CollapseExample(x: MirAddress, y: MirAddress)
    ensures Optimized([MirInstruction.And(x), OrStart, MirInstruction.And(y), End]) ==
      Some([MirInstruction.And(x), MirInstruction.Or(y)])
  {
    var s := [MirInstruction.And(x), OrStart, MirInstruction.And(y), End];
    assert BracketPass(s, 3, true) == Some((s, 3));
    PassSkip(s, 2, true);
    assert s[2..3] == [MirInstruction.And(y)];
    assert NonDummyLen(s[2..3]) == 1;
    assert GetNonDummy(s[2..3], 0) == MirInstruction.And(y);
    var t := Collapsed(s, 1, 3, MirInstruction.Or(y));
    assert t == [MirInstruction.And(x), MirInstruction.Or(y), Dummy, Dummy];
    assert BracketPass(t, 4, false) == Some((t, 4));
    PassCollapse(s, 1, false, s, 3);
    PassSkip(s, 0, false);
    TwoThenDummies(MirInstruction.And(x), MirInstruction.Or(y));
  }

  lemma TwoThenDummies(a: MirInstruction, b: MirInstruction)
    requires !a.Dummy? && !b.Dummy?
    ensures Filtered([a, b, Dummy, Dummy]) == [a, b]
  {
    var t := [a, b, Dummy, Dummy];
    assert t[1..][1..] == t[2..] == [Dummy, Dummy];
    assert Filtered(t[2..]) == [];
  }

  /** An interior of two instructions keeps its bracket. */
  lemma KeepExample(x: MirAddress, y: MirAddress)
    ensures Optimized([MirInstruction.And(x), OrStart, MirInstruction.And(y), MirInstruction.Not, End]) ==
      Some([MirInstruction.And(x), OrStart, MirInstruction.And(y), MirInstruction.Not, End])
  {
    var s := [MirInstruction.And(x), OrStart, MirInstruction.And(y), MirInstruction.Not, End];
    assert BracketPass(s, 4, true) == Some((s, 4));
    assert BracketPass(s, 3, true) == Some((s, 4));
    assert BracketPass(s, 2, true) == Some((s, 4));
    assert s[2..4] == [MirInstruction.And(y), MirInstruction.Not];
    assert NonDummyLen(s[2..4]) == 2;
    assert BracketPass(s, 5, false) == Some((s, 5));
    assert AfterBracket(s, 1, false) == Some((s, 5));
    assert BracketPass(s, 0, false) == BracketPass(s, 1, false);
  }

  /** Malformed code: an empty bracket, an `End` outside any bracket and an
      unclosed bracket all panic in the source. */
  lemma PanicExamples(x: MirAddress)
    ensures Optimized([OrStart, End]).None?
    ensures Optimized([End]).None?
    ensures Optimized([OrStart, MirInstruction.And(x)]).None?
  {
    var e := [OrStart, End];
    assert BracketPass(e, 1, true) == Some((e, 1));
    assert NonDummyLen(e[1..1]) == 0;
    var u := [OrStart, MirInstruction.And(x)];
    assert BracketPass(u, 2, true).None?;
    assert BracketPass(u, 1, true).None?;
    assert AfterBracket(u, 0, false).None?;
  }

  /** `optimize`: the bracket pass over the whole list, then
      `filter_dummy`. */
  function Optimized(s: seq<MirInstruction>): (r: Option<seq<MirInstruction>>)
    ensures r.Some? ==> forall j :: 0 <= j < |r.value| ==> !r.value[j].Dummy?
    ensures r.Some? ==> |r.value| <= |s|
  {
    match BracketPass(s, 0, false)
    case None => None
    case Some((s1, _)) => Some(Filtered(s1))
  }

  /** The pass over the `n` slots from `i` ends in `t`: it changes only
      those slots, goes on from `i + n` in `t` as it would have gone on from
      `i` in `s`, and leaves at least one instruction among them. */
  ghost predicate Walks(s: seq<MirInstruction>, i: nat, n: nat, term: bool, t: seq<MirInstruction>) {
    i + n <= |s| && |t| == |s| &&
    (forall k :: 0 <= k < i || i + n <= k < |s| ==> t[k] == s[k]) &&
    BracketPass(s, i, term) == BracketPass(t, i + n, term) &&
    NonDummyLen(t[i..i + n]) >= 1
  }

  /** What a bracket accepts as its interior: several instructions, or a
      single `And`. */
  predicate Acceptable(interior: seq<MirInstruction>) {
    NonDummyLen(interior) >= 1 && (NonDummyLen(interior) == 1 ==> GetNonDummy(interior, 0).And?)
  }

  lemma NonDummyHead(x: seq<MirInstruction>)
    requires |x| > 0 && !x[0].Dummy?
    ensures NonDummyLen(x) >= 1
  { }

  /** The pass steps over one plain instruction. */
  lemma WalkPlain(s: seq<MirInstruction>, i: nat, term: bool)
    requires i < |s| && !s[i].End? && !HasBracket(s[i]) && !s[i].Dummy?
    ensures Walks(s, i, 1, term, s)
    ensures NonDummyLen(s[i..i + 1]) == 1 && GetNonDummy(s[i..i + 1], 0) == s[i]
  {
    assert s[i..i + 1] == [s[i]];
    assert [s[i]][1..] == [];
  }

  /** Two stretches walked one after the other are walked together and
      leave at least two instructions. */
  lemma WalkCompose(s: seq<MirInstruction>, i: nat, n1: nat, n2: nat, term: bool, t1: seq<MirInstruction>, t2: seq<MirInstruction>)
    requires Walks(s, i, n1, term, t1) && Walks(t1, i + n1, n2, term, t2)
    ensures Walks(s, i, n1 + n2, term, t2) && NonDummyLen(t2[i..i + n1 + n2]) >= 2
  {
    assert t2[i..i + n1 + n2] == t2[i..i + n1] + t2[i + n1..i + n1 + n2];
    assert t2[i..i + n1] == t1[i..i + n1];
    NonDummyLenConcat(t2[i..i + n1], t2[i + n1..i + n1 + n2]);
  }

  /** A bracket whose interior the pass walks to an acceptable rest is kept
      or collapsed, and the pass goes on after its `End`. */
  lemma WalkBracket(s: seq<MirInstruction>, j: nat, n: nat, term: bool, t: seq<MirInstruction>) returns (u: seq<MirInstruction>)
    requires j + 1 + n < |s| && HasBracket(s[j]) && s[j + 1 + n].End?
    requires Walks(s, j + 1, n, true, t) && Acceptable(t[j + 1..j + 1 + n])
    ensures Walks(s, j, n + 2, term, u)
  {
    var e := j + 1 + n;
    assert t[e] == s[e];
    assert BracketPass(t, e, true) == Some((t, e));
    if NonDummyLen(t[j + 1..e]) > 1 {
      PassKeep(s, j, term, t, e);
      u := t;
    } else {
      PassCollapse(s, j, term, t, e);
      u := Collapsed(t, j, e, Unbracket(s[j], GetNonDummy(t[j + 1..e], 0).addr));
    }
    NonDummyHead(u[j..e + 1]);
  }

  /** `code` lies in `s` from `i` on. */
  predicate At(s: seq<MirInstruction>, i: nat, code: seq<MirInstruction>) {
    i + |code| <= |s| && forall k :: 0 <= k < |code| ==> s[i + k] == code[k]
  }

  lemma AtSplit(s: seq<MirInstruction>, i: nat, a: seq<MirInstruction>, b: seq<MirInstruction>)
    requires At(s, i, a + b)
    ensures At(s, i, a) && At(s, i + |a|, b)
  {
    forall k | 0 <= k < |a|
      ensures s[i + k] == a[k]
    {
      assert (a + b)[k] == a[k];
    }
    forall k | 0 <= k < |b|
      ensures s[i + |a| + k] == b[k]
    {
      assert (a + b)[|a| + k] == b[k];
    }
  }

  lemma AtSingle(s: seq<MirInstruction>, i: nat, x: MirInstruction)
    requires At(s, i, [x])
    ensures i < |s| && s[i] == x
  {
    assert s[i + 0] == [x][0];
  }

  /** A walk leaves what lies after it alone. */
  lemma WalkFrame(s: seq<MirInstruction>, i: nat, n: nat, term: bool, t: seq<MirInstruction>, lo: nat, code: seq<MirInstruction>)
    requires Walks(s, i, n, term, t) && i + n <= lo && At(s, lo, code)
    ensures At(t, lo, code)
  {
    forall k | 0 <= k < |code|
      ensures t[lo + k] == code[k]
    {
      assert t[lo + k] == s[lo + k];
    }
  }

  /** How written code is put together: single plain instructions,
      stretches one after another, and bracketed operands. */
  datatype Shape =
    | Instr(x: MirInstruction)
    | Then(first: Shape, second: Shape)
    | Bracketed(opener: MirInstruction, body: Shape)

  function Code(sh: Shape): seq<MirInstruction> {
    match sh
    case Instr(x) => [x]
    case Then(a, b) => Code(a) + Code(b)
    case Bracketed(o, b) => [o] + Code(b) + [End]
  }

  /** A shape a bracket accepts as its body: a single `And`, or several
      stretches. */
  predicate Body(sh: Shape) {
    sh.Then? || (sh.Instr? && sh.x.And?)
  }

  /** Plain instructions are neither brackets nor empty slots, and every
      bracket has a body it accepts. */
  predicate WellShaped(sh: Shape) {
    match sh
    case Instr(x) => !x.End? && !HasBracket(x) && !x.Dummy?
    case Then(a, b) => WellShaped(a) && WellShaped(b)
    case Bracketed(o, b) => HasBracket(o) && WellShaped(b) && Body(b)
  }

  /** The pass walks the code of every well-shaped shape, and leaves of
      the code of a body something its bracket accepts. */
  lemma {:induction false} ShapeWalks(sh: Shape, s: seq<MirInstruction>, i: nat, term: bool) returns (t: seq<MirInstruction>)
    requires WellShaped(sh) && At(s, i, Code(sh))
    ensures Walks(s, i, |Code(sh)|, term, t)
    ensures Body(sh) ==> Acceptable(t[i..i + |Code(sh)|])
    decreases sh, 1
  {
    match sh
    case Instr(x) =>
      AtSingle(s, i, x);
      WalkPlain(s, i, term);
      t := s;
    case Then(_, _) =>
      t := ThenWalks(sh, s, i, term);
    case Bracketed(_, _) =>
      t := BracketedWalks(sh, s, i, term);
  }

  lemma {:induction false} StretchWalks(sh: Shape, s: seq<MirInstruction>, i: nat, term: bool) returns (t: seq<MirInstruction>)
    requires WellShaped(sh) && At(s, i, Code(sh))
    ensures Walks(s, i, |Code(sh)|, term, t)
    decreases sh, 2
  {
    t := ShapeWalks(sh, s, i, term);
  }

  lemma {:induction false} ThenWalks(sh: Shape, s: seq<MirInstruction>, i: nat, term: bool) returns (t: seq<MirInstruction>)
    requires sh.Then? && WellShaped(sh) && At(s, i, Code(sh))
    ensures Walks(s, i, |Code(sh)|, term, t) && NonDummyLen(t[i..i + |Code(sh)|]) >= 2
    decreases sh, 0
  {
    var a, b := Code(sh.first), Code(sh.second);
    assert |Code(sh)| == |a| + |b|;
    AtSplit(s, i, a, b);
    var t1 := StretchWalks(sh.first, s, i, term);
    t := ThenSecond(sh.second, s, i, |a|, term, t1);
  }

  lemma {:induction false} ThenSecond(second: Shape, s: seq<MirInstruction>, i: nat, na: nat, term: bool, t1: seq<MirInstruction>) returns (t: seq<MirInstruction>)
    requires WellShaped(second) && Walks(s, i, na, term, t1) && At(s, i + na, Code(second))
    ensures Walks(s, i, na + |Code(second)|, term, t) && NonDummyLen(t[i..i + na + |Code(second)|]) >= 2
    decreases second, 3
  {
    WalkFrame(s, i, na, term, t1, i + na, Code(second));
    var t2 := StretchWalks(second, t1, i + na, term);
    WalkCompose(s, i, na, |Code(second)|, term, t1, t2);
    t := t2;
  }

  lemma {:induction false} BracketedWalks(sh: Shape, s: seq<MirInstruction>, i: nat, term: bool) returns (t: seq<MirInstruction>)
    requires sh.Bracketed? && WellShaped(sh) && At(s, i, Code(sh))
    ensures Walks(s, i, |Code(sh)|, term, t)
    decreases sh, 0
  {
    var o, b := sh.opener, Code(sh.body);
    assert |Code(sh)| == |b| + 2;
    BracketedParts(s, i, o, b);
    var t1 := ShapeWalks(sh.body, s, i + 1, true);
    t := WalkBracket(s, i, |b|, term, t1);
  }

  /** Where the opener, the body and the `End` of a bracket lie. */
  lemma BracketedParts(s: seq<MirInstruction>, i: nat, o: MirInstruction, b: seq<MirInstruction>)
    requires At(s, i, [o] + b + [End])
    ensures s[i] == o && At(s, i + 1, b) && s[i + 1 + |b|] == End
  {
    AtSplit(s, i, [o] + b, [End]);
    AtSplit(s, i, [o], b);
    AtSingle(s, i, o);
    AtSingle(s, i + 1 + |b|, End);
  }

  /** The code written for a bit-readable value whose reachable operation
      lists are non-empty is well shaped, and a bracket accepts it. */
  lemma {:induction false} EmitShape(vars: seq<MirVariable>, v: MirValue, limit: nat) returns (sh: Shape)
    requires limit <= |vars| && Readable(vars, v, limit) && FilledBelow(vars, v, limit)
    ensures WellShaped(sh) && Body(sh) && Code(sh) == W.Emit(vars, v, limit)
    decreases limit, v, 1
  {
    match v
    case Address(a) =>
      sh := Instr(MirInstruction.And(a));
    case VarRef(x) =>
      sh := EmitShape(vars, vars[x].value, x);
    case Ops(ops) =>
      sh := OpsShape(vars, v, 0, limit);
    case Not(x) =>
      var c := EmitShape(vars, x, limit);
      sh := Then(c, Instr(MirInstruction.Not));
    case And(l, r) =>
      sh := BinaryShape(vars, v, AndStart, limit);
    case Or(l, r) =>
      sh := BinaryShape(vars, v, OrStart, limit);
    case Xor(l, r) =>
      sh := BinaryShape(vars, v, XorStart, limit);
  }

  lemma {:induction false} BinaryShape(vars: seq<MirVariable>, v: MirValue, start: MirInstruction, limit: nat) returns (sh: Shape)
    requires limit <= |vars| && (v.And? || v.Or? || v.Xor?) && HasBracket(start)
    requires Readable(vars, v.left, limit) && FilledBelow(vars, v.left, limit)
    requires Readable(vars, v.right, limit) && FilledBelow(vars, v.right, limit)
    ensures WellShaped(sh) && Body(sh)
    ensures Code(sh) == W.Emit(vars, v.left, limit) + [start] + W.Emit(vars, v.right, limit) + [End]
    decreases limit, v, 0
  {
    var l := EmitShape(vars, v.left, limit);
    var r := EmitShape(vars, v.right, limit);
    sh := Then(l, Bracketed(start, r));
    assert Code(l) + ([start] + Code(r) + [End]) == Code(l) + [start] + Code(r) + [End];
  }

  /** The operations from the `k`-th on. */
  lemma {:induction false} OpsShape(vars: seq<MirVariable>, v: MirValue, k: nat, limit: nat) returns (sh: Shape)
    requires limit <= |vars| && v.Ops? && k < |v.ops| && Readable(vars, v, limit) && FilledBelow(vars, v, limit)
    ensures WellShaped(sh) && Body(sh) && Code(sh) == W.EmitOps(vars, v, k, limit)
    decreases limit, v, 0, |v.ops| - k
  {
    var head: Shape;
    match v.ops[k] {
      case SetBit(cond, addr) =>
        var c := EmitShape(vars, cond, limit);
        head := Then(c, Instr(MirInstruction.SetBit(addr)));
      case ResetBit(cond, addr) =>
        var c := EmitShape(vars, cond, limit);
        head := Then(c, Instr(MirInstruction.ResetBit(addr)));
      case And(addr) =>
        head := Instr(MirInstruction.And(addr));
    }
    assert W.EmitOps(vars, v, k, limit) == Code(head) + W.EmitOps(vars, v, k + 1, limit);
    if k + 1 == |v.ops| {
      assert Code(head) + [] == Code(head);
      sh := head;
    } else {
      var rest := OpsShape(vars, v, k + 1, limit);
      sh := Then(head, rest);
    }
  }

  /** The optimizer accepts the code written for every bit-readable value
      whose operation lists, and those of the variables it reads, are all
      non-empty. */
  lemma EmitOptimizes(vars: seq<MirVariable>, v: MirValue, limit: nat)
    requires limit <= |vars| && Readable(vars, v, limit) && FilledOps(v) && FilledTable(vars)
    ensures Optimized(W.Emit(vars, v, limit)).Some?
  {
    var s := W.Emit(vars, v, limit);
    FilledReach(vars, v, limit);
    var sh := EmitShape(vars, v, limit);
    assert At(s, 0, s);
    var t := ShapeWalks(sh, s, 0, false);
    var n: nat := |s|;
    assert BracketPass(t, n, false) == Some((t, n));
  }

  /** Without the non-empty lists it fails: `a & <no operations>` writes an
      empty bracket. */
  lemma EmptyOpsRejected(a: MirAddress)
    requires IsBitAddress(a)
    ensures Readable([], MirValue.And(Address(a), Ops([])), 0)
    ensures Optimized(W.Emit([], MirValue.And(Address(a), Ops([])), 0)).None?
  {
    var e := [MirInstruction.And(a), AndStart, End];
    assert W.EmitOps([], Ops([]), 0, 0) == [];
    assert W.Emit([], MirValue.And(Address(a), Ops([])), 0) == e;
    assert BracketPass(e, 2, true) == Some((e, 2));
    assert NonDummyLen(e[2..2]) == 0;
    assert AfterBracket(e, 1, false).None?;
    assert BracketPass(e, 1, false) == AfterBracket(e, 1, false);
    assert BracketPass(e, 0, false) == BracketPass(e, 1, false);
  }

  lemma NonDummyLenConcat(a: seq<MirInstruction>, b: seq<MirInstruction>)
    ensures NonDummyLen(a + b) == NonDummyLen(a) + NonDummyLen(b)
  {
    FilteredConcat(a, b);
  }

  /** The bracket structure the pass leaves as it finds it, read from
      `index` as `BracketPass` reads it: every bracket holds more than one
      instruction once dummies are ignored. The result is where the reading
      stops. */
  function Settled(t: seq<MirInstruction>, index: nat, term: bool): (r: Option<nat>)
    requires index <= |t|
    ensures r.Some? ==> index <= r.value <= |t|
    ensures r.Some? && term ==> r.value < |t| && t[r.value].End?
    ensures r.Some? && !term ==> r.value == |t|
    decreases |t| - index
  {
    if index == |t| then
      if term then None else Some(index)
    else if t[index].End? then
      if term then Some(index) else None
    else if HasBracket(t[index]) then
      match Settled(t, index + 1, true)
      case None => None
      case Some(close) =>
        if NonDummyLen(t[index + 1..close]) <= 1 then None
        else Settled(t, close + 1, term)
    else Settled(t, index + 1, term)
  }

  /** Whether a bracket is settled depends only on the slots up to its
      `End`. */
  lemma {:induction false} SettledLocal(x: seq<MirInstruction>, y: seq<MirInstruction>, i: nat, n: nat)
    requires i <= |x| == |y| && Settled(x, i, true) == Some(n)
    requires forall k :: i <= k <= n ==> y[k] == x[k]
    ensures Settled(y, i, true) == Some(n)
    decreases |x| - i, 1
  {
    if x[i].End? {
    } else if HasBracket(x[i]) {
      LocalBracket(x, y, i, n);
    } else {
      SettledLocal(x, y, i + 1, n);
    }
  }

  lemma {:induction false} LocalBracket(x: seq<MirInstruction>, y: seq<MirInstruction>, i: nat, n: nat)
    requires i < |x| == |y| && HasBracket(x[i]) && Settled(x, i, true) == Some(n)
    requires forall k :: i <= k <= n ==> y[k] == x[k]
    ensures Settled(y, i, true) == Some(n)
    decreases |x| - i, 0
  {
    var close, stop := SettledParts(x, i, true);
    SettledLocal(x, y, i + 1, close);
    SettledLocal(x, y, close + 1, n);
    AgreeCount(x, y, i + 1, close);
    SettledKeep(y, i, close, n, true);
  }

  /** Dummies are walked over. */
  lemma {:induction false} SettledDummies(x: seq<MirInstruction>, i: nat, m: nat, term: bool)
    requires i <= m <= |x| && forall k :: i <= k < m ==> x[k].Dummy?
    ensures Settled(x, i, term) == Settled(x, m, term)
    decreases m - i
  {
    if i < m {
      SettledDummies(x, i + 1, m, term);
    }
  }

  /** What the pass leaves from `index` on is settled. */
  lemma {:induction false} PassSettles(s: seq<MirInstruction>, index: nat, term: bool)
    requires index <= |s| && BracketPass(s, index, term).Some?
    ensures Settled(BracketPass(s, index, term).value.0, index, term) == Some(BracketPass(s, index, term).value.1)
    decreases |s| - index, 2
  {
    if index == |s| || s[index].End? {
    } else if HasBracket(s[index]) {
      AfterSettles(s, index, term);
    } else {
      PassSettles(s, index + 1, term);
      PassFrame(s, index + 1, term);
    }
  }

  lemma {:induction false} AfterSettles(s: seq<MirInstruction>, index: nat, term: bool)
    requires index < |s| && HasBracket(s[index]) && AfterBracket(s, index, term).Some?
    ensures Settled(AfterBracket(s, index, term).value.0, index, term) == Some(AfterBracket(s, index, term).value.1)
    decreases |s| - index, 1
  {
    var s1, termEnd := BracketPass(s, index + 1, true).value.0, BracketPass(s, index + 1, true).value.1;
    PassSettles(s, index + 1, true);
    PassFrame(s, index + 1, true);
    if NonDummyLen(s1[index + 1..termEnd]) > 1 {
      PassKeep(s, index, term, s1, termEnd);
      KeepSettles(s1, index, termEnd, term);
    } else {
      var op := CollapseStep(s, index, term, s1, termEnd);
      CollapseSettles(Collapsed(s1, index, termEnd, op), index, termEnd, term);
    }
  }

  /** The pass goes on after a bracket it keeps. */
  lemma {:induction false} KeepSettles(s1: seq<MirInstruction>, index: nat, termEnd: nat, term: bool)
    requires index < termEnd < |s1| && HasBracket(s1[index])
    requires Settled(s1, index + 1, true) == Some(termEnd)
    requires NonDummyLen(s1[index + 1..termEnd]) > 1
    requires BracketPass(s1, termEnd + 1, term).Some?
    ensures Settled(BracketPass(s1, termEnd + 1, term).value.0, index, term) == Some(BracketPass(s1, termEnd + 1, term).value.1)
    decreases |s1| - index, 0
  {
    PassSettles(s1, termEnd + 1, term);
    PassFrame(s1, termEnd + 1, term);
    KeptSettled(s1, BracketPass(s1, termEnd + 1, term).value.0, index, termEnd, BracketPass(s1, termEnd + 1, term).value.1, term);
  }

  /** The pass goes on after a bracket it collapsed. */
  lemma {:induction false} CollapseSettles(s2: seq<MirInstruction>, index: nat, termEnd: nat, term: bool)
    requires index < termEnd < |s2| && Addressed(s2[index])
    requires forall k :: index < k <= termEnd ==> s2[k].Dummy?
    requires BracketPass(s2, termEnd + 1, term).Some?
    ensures Settled(BracketPass(s2, termEnd + 1, term).value.0, index, term) == Some(BracketPass(s2, termEnd + 1, term).value.1)
    decreases |s2| - index, 0
  {
    PassSettles(s2, termEnd + 1, term);
    PassFrame(s2, termEnd + 1, term);
    CollapsedSettled(BracketPass(s2, termEnd + 1, term).value.0, index, termEnd, BracketPass(s2, termEnd + 1, term).value.1, term);
  }

  /** The bracket at `index` is collapsed into `op`. */
  lemma CollapseStep(s: seq<MirInstruction>, index: nat, term: bool, s1: seq<MirInstruction>, termEnd: nat) returns (op: MirInstruction)
    requires index < |s| && HasBracket(s[index]) && AfterBracket(s, index, term).Some?
    requires BracketPass(s, index + 1, true) == Some((s1, termEnd))
    requires NonDummyLen(s1[index + 1..termEnd]) <= 1
    ensures index < termEnd < |s1| && Addressed(op)
    ensures AfterBracket(s, index, term) == BracketPass(Collapsed(s1, index, termEnd, op), termEnd + 1, term)
  {
    op := Unbracket(s[index], GetNonDummy(s1[index + 1..termEnd], 0).addr);
    PassCollapse(s, index, term, s1, termEnd);
  }

  /** A collapsed bracket is a plain instruction among dummies. */
  lemma CollapsedSettled(t: seq<MirInstruction>, index: nat, termEnd: nat, stop: nat, term: bool)
    requires index < termEnd < |t| && Addressed(t[index])
    requires forall k :: index < k <= termEnd ==> t[k].Dummy?
    requires Settled(t, termEnd + 1, term) == Some(stop)
    ensures Settled(t, index, term) == Some(stop)
  {
    SettledDummies(t, index + 1, termEnd + 1, term);
  }

  /** A kept bracket stays settled while the pass goes on after it. */
  lemma KeptSettled(s1: seq<MirInstruction>, t: seq<MirInstruction>, index: nat, termEnd: nat, stop: nat, term: bool)
    requires index < termEnd < |s1| == |t| && HasBracket(s1[index])
    requires Settled(s1, index + 1, true) == Some(termEnd)
    requires NonDummyLen(s1[index + 1..termEnd]) > 1
    requires forall k :: 0 <= k < termEnd + 1 ==> t[k] == s1[k]
    requires Settled(t, termEnd + 1, term) == Some(stop)
    ensures Settled(t, index, term) == Some(stop)
  {
    SettledLocal(s1, t, index + 1, termEnd);
    AgreeCount(s1, t, index + 1, termEnd);
    SettledKeep(t, index, termEnd, stop, term);
  }

  /** Slots that agree have as many instructions. */
  lemma AgreeCount(s1: seq<MirInstruction>, t: seq<MirInstruction>, lo: nat, hi: nat)
    requires lo <= hi <= |s1| == |t|
    requires forall k :: lo <= k < hi ==> t[k] == s1[k]
    ensures NonDummyLen(t[lo..hi]) == NonDummyLen(s1[lo..hi])
  {
    assert t[lo..hi] == s1[lo..hi];
  }

  /** `Settled` over a bracket it keeps. */
  lemma SettledKeep(t: seq<MirInstruction>, index: nat, termEnd: nat, stop: nat, term: bool)
    requires index < termEnd < |t| && HasBracket(t[index])
    requires Settled(t, index + 1, true) == Some(termEnd)
    requires NonDummyLen(t[index + 1..termEnd]) > 1
    requires Settled(t, termEnd + 1, term) == Some(stop)
    ensures Settled(t, index, term) == Some(stop)
  { }

  /** `SettledKeep` with the slots after the opener and after the `End`
      named. */
  lemma SettledKeepAt(t: seq<MirInstruction>, index: nat, next: nat, termEnd: nat, after: nat, stop: nat, term: bool)
    requires next == index + 1 && after == termEnd + 1
    requires index < termEnd < |t| && HasBracket(t[index])
    requires Settled(t, next, true) == Some(termEnd)
    requires NonDummyLen(t[next..termEnd]) > 1
    requires Settled(t, after, term) == Some(stop)
    ensures Settled(t, index, term) == Some(stop)
  {
    SettledKeep(t, index, termEnd, stop, term);
  }

  /** The pass leaves a settled stretch exactly as it is. */
  lemma {:induction false} SettledPass(t: seq<MirInstruction>, index: nat, term: bool)
    requires index <= |t| && Settled(t, index, term).Some?
    ensures BracketPass(t, index, term) == Some((t, Settled(t, index, term).value))
    decreases |t| - index
  {
    if index == |t| || t[index].End? {
    } else if HasBracket(t[index]) {
      var close := Settled(t, index + 1, true).value;
      SettledPass(t, index + 1, true);
      SettledPass(t, close + 1, term);
      PassKeep(t, index, term, t, close);
    } else {
      SettledPass(t, index + 1, term);
    }
  }

  /** Where slot `i` lands once the dummies are dropped. */
  lemma FilteredAt(t: seq<MirInstruction>, i: nat)
    requires i < |t| && !t[i].Dummy?
    ensures NonDummyLen(t[..i + 1]) == NonDummyLen(t[..i]) + 1
    ensures NonDummyLen(t[..i]) < |Filtered(t)| && Filtered(t)[NonDummyLen(t[..i])] == t[i]
  {
    assert t == t[..i] + [t[i]] + t[i + 1..];
    assert t[..i + 1] == t[..i] + [t[i]];
    FilteredConcat(t[..i] + [t[i]], t[i + 1..]);
    FilteredConcat(t[..i], [t[i]]);
    assert Filtered([t[i]]) == [t[i]];
  }

  lemma DummyAt(t: seq<MirInstruction>, i: nat)
    requires i < |t| && t[i].Dummy?
    ensures NonDummyLen(t[..i + 1]) == NonDummyLen(t[..i])
  {
    assert t[..i + 1] == t[..i] + [t[i]];
    FilteredConcat(t[..i], [t[i]]);
  }

  /** The slots from `a` to `b` land, filtered, between the images of `a`
      and `b`. */
  lemma FilteredSlice(t: seq<MirInstruction>, a: nat, b: nat)
    requires a <= b <= |t|
    ensures NonDummyLen(t[..a]) <= NonDummyLen(t[..b]) <= |Filtered(t)|
    ensures Filtered(t)[NonDummyLen(t[..a])..NonDummyLen(t[..b])] == Filtered(t[a..b])
  {
    assert t == t[..a] + t[a..b] + t[b..];
    assert t[..b] == t[..a] + t[a..b];
    FilteredConcat(t[..a] + t[a..b], t[b..]);
    FilteredConcat(t[..a], t[a..b]);
  }

  /** Instructions before `i` are among all the instructions. */
  lemma PrefixCount(t: seq<MirInstruction>, i: nat)
    requires i <= |t|
    ensures NonDummyLen(t[..i]) <= NonDummyLen(t[..|t|]) == |Filtered(t)|
  {
    FilteredSlice(t, i, |t|);
    assert t[..|t|] == t;
  }

  /** The slots from `a` to `b`, filtered, hold as many instructions as
      before. */
  lemma FilteredSliceCount(t: seq<MirInstruction>, a: nat, b: nat)
    requires a <= b <= |t|
    ensures NonDummyLen(t[..a]) <= NonDummyLen(t[..b]) <= |Filtered(t)|
    ensures NonDummyLen(Filtered(t)[NonDummyLen(t[..a])..NonDummyLen(t[..b])]) == NonDummyLen(t[a..b])
  {
    FilteredSlice(t, a, b);
    assert Filtered(Filtered(t[a..b])) == Filtered(t[a..b]);
  }

  /** Dropping the dummies keeps a stretch settled; the reading starts and
      stops where the starting and stopping instructions land. */
  lemma {:induction false} FilterSettled(t: seq<MirInstruction>, index: nat, term: bool)
    requires index <= |t| && Settled(t, index, term).Some?
    ensures NonDummyLen(t[..index]) <= |Filtered(t)|
    ensures Settled(Filtered(t), NonDummyLen(t[..index]), term) == Some(NonDummyLen(t[..Settled(t, index, term).value]))
    decreases |t| - index, 1
  {
    PrefixCount(t, index);
    if index == |t| {
    } else if t[index].Dummy? {
      DummyAt(t, index);
      FilterSettled(t, index + 1, term);
    } else if t[index].End? {
      FilteredAt(t, index);
    } else if HasBracket(t[index]) {
      FilterBracket(t, index, term);
    } else {
      FilterSettled(t, index + 1, term);
      FilterPlain(t, index, Settled(t, index, term).value, term);
    }
  }

  lemma {:induction false} FilterBracket(t: seq<MirInstruction>, index: nat, term: bool)
    requires index < |t| && HasBracket(t[index]) && Settled(t, index, term).Some?
    ensures NonDummyLen(t[..index]) <= |Filtered(t)|
    ensures Settled(Filtered(t), NonDummyLen(t[..index]), term) == Some(NonDummyLen(t[..Settled(t, index, term).value]))
    decreases |t| - index, 0
  {
    var close, stop := SettledParts(t, index, term);
    FilterSettled(t, index + 1, true);
    FilterSettled(t, close + 1, term);
    FilterOpener(t, index, close, stop, term);
  }

  /** A settled bracket: its `End` at `close`, more than one instruction
      inside, and the reading going on to `stop` after it. */
  lemma SettledParts(t: seq<MirInstruction>, index: nat, term: bool) returns (close: nat, stop: nat)
    requires index < |t| && HasBracket(t[index]) && Settled(t, index, term).Some?
    ensures index < close < stop <= |t| && t[close].End?
    ensures Settled(t, index + 1, true) == Some(close)
    ensures NonDummyLen(t[index + 1..close]) > 1
    ensures Settled(t, close + 1, term) == Some(stop) && Settled(t, index, term) == Some(stop)
  {
    close := Settled(t, index + 1, true).value;
    stop := Settled(t, index, term).value;
  }

  /** `FilterSettled` over a plain instruction. */
  lemma FilterPlain(t: seq<MirInstruction>, index: nat, stop: nat, term: bool)
    requires index < |t| && !t[index].Dummy? && !t[index].End? && !HasBracket(t[index]) && stop <= |t|
    requires NonDummyLen(t[..index + 1]) <= |Filtered(t)|
    requires Settled(Filtered(t), NonDummyLen(t[..index + 1]), term) == Some(NonDummyLen(t[..stop]))
    ensures NonDummyLen(t[..index]) <= |Filtered(t)|
    ensures Settled(Filtered(t), NonDummyLen(t[..index]), term) == Some(NonDummyLen(t[..stop]))
  {
    FilteredAt(t, index);
  }

  /** `FilterSettled` at a bracket, from what it gives for the interior and
      for what follows the bracket. */
  lemma FilterOpener(t: seq<MirInstruction>, index: nat, close: nat, stop: nat, term: bool)
    requires index < close < |t| && HasBracket(t[index]) && t[close].End?
    requires NonDummyLen(t[index + 1..close]) > 1
    requires close < stop <= |t|
    requires NonDummyLen(t[..index + 1]) <= |Filtered(t)| && NonDummyLen(t[..close + 1]) <= |Filtered(t)|
    requires Settled(Filtered(t), NonDummyLen(t[..index + 1]), true) == Some(NonDummyLen(t[..close]))
    requires Settled(Filtered(t), NonDummyLen(t[..close + 1]), term) == Some(NonDummyLen(t[..stop]))
    ensures NonDummyLen(t[..index]) <= |Filtered(t)|
    ensures Settled(Filtered(t), NonDummyLen(t[..index]), term) == Some(NonDummyLen(t[..stop]))
  {
    OpenerImage(t, index, close);
    SettledKeepAt(Filtered(t), NonDummyLen(t[..index]), NonDummyLen(t[..index + 1]),
      NonDummyLen(t[..close]), NonDummyLen(t[..close + 1]), NonDummyLen(t[..stop]), term);
  }

  /** Where a bracket lands once the dummies are dropped. */
  lemma OpenerImage(t: seq<MirInstruction>, index: nat, close: nat)
    requires index < close < |t| && HasBracket(t[index]) && t[close].End?
    ensures NonDummyLen(t[..index + 1]) == NonDummyLen(t[..index]) + 1
    ensures NonDummyLen(t[..close + 1]) == NonDummyLen(t[..close]) + 1
    ensures NonDummyLen(t[..index]) < NonDummyLen(t[..close]) < |Filtered(t)|
    ensures HasBracket(Filtered(t)[NonDummyLen(t[..index])])
    ensures NonDummyLen(Filtered(t)[NonDummyLen(t[..index + 1])..NonDummyLen(t[..close])]) == NonDummyLen(t[index + 1..close])
  {
    FilteredAt(t, index);
    FilteredAt(t, close);
    FilteredSliceCount(t, index + 1, close);
  }

  /** Optimizing twice is optimizing once: what `optimize` leaves is settled,
      so a second pass changes nothing and there are no dummies to drop. */
  lemma OptimizeIdempotent(s: seq<MirInstruction>)
    requires Optimized(s).Some?
    ensures Settled(Optimized(s).value, 0, false).Some?
    ensures Optimized(Optimized(s).value) == Optimized(s)
  {
    var s1 := BracketPass(s, 0, false).value.0;
    PassSettles(s, 0, false);
    FilterSettled(s1, 0, false);
    assert s1[..0] == [];
    SettledPass(Filtered(s1), 0, false);
  }

  /** Each collapse takes away one opener and its `End` and keeps the single
      instruction: two fewer instructions remain and the bracket depth is
      unchanged. */
  lemma CollapseCounts(s: seq<MirInstruction>, i: nat, termEnd: nat, x: MirAddress)
    requires i < termEnd < |s| && HasBracket(s[i]) && s[termEnd].End?
    requires Filtered(s[i + 1..termEnd]) == [MirInstruction.And(x)]
    ensures NonDummyLen(Collapsed(s, i, termEnd, Unbracket(s[i], x))) + 2 == NonDummyLen(s)
    ensures W.Depth(Collapsed(s, i, termEnd, Unbracket(s[i], x))) == W.Depth(s)
  {
    var op := Unbracket(s[i], x);
    var gap := CollapseSplice(s, i, termEnd, op);
    OpenerCounts(s[i], s[i + 1..termEnd], s[termEnd], x);
    PlainCounts(op, gap);
  }

  /** The bracket and what replaces it, between the same surroundings:
      the counts differ as those over the two middles do. */
  lemma CollapseSplice(s: seq<MirInstruction>, i: nat, termEnd: nat, op: MirInstruction) returns (gap: seq<MirInstruction>)
    requires i < termEnd < |s|
    ensures forall k :: 0 <= k < |gap| ==> gap[k].Dummy?
    ensures NonDummyLen(s) - NonDummyLen(Collapsed(s, i, termEnd, op)) ==
      NonDummyLen([s[i]] + s[i + 1..termEnd] + [s[termEnd]]) - NonDummyLen([op] + gap)
    ensures W.Depth(s) - W.Depth(Collapsed(s, i, termEnd, op)) ==
      W.Depth([s[i]] + s[i + 1..termEnd] + [s[termEnd]]) - W.Depth([op] + gap)
  {
    var c := Collapsed(s, i, termEnd, op);
    BracketShape(s, i, termEnd);
    gap := CollapsedShape(s, i, termEnd, op);
    SpliceCounts(s, c, s[..i], s[termEnd + 1..], [s[i]] + s[i + 1..termEnd] + [s[termEnd]], [op] + gap);
  }

  lemma BracketShape(s: seq<MirInstruction>, i: nat, termEnd: nat)
    requires i < termEnd < |s|
    ensures s == s[..i] + ([s[i]] + s[i + 1..termEnd] + [s[termEnd]]) + s[termEnd + 1..]
  {
    assert s == s[..i] + ([s[i]] + s[i + 1..termEnd] + [s[termEnd]]) + s[termEnd + 1..];
  }

  lemma CollapsedShape(s: seq<MirInstruction>, i: nat, termEnd: nat, op: MirInstruction) returns (gap: seq<MirInstruction>)
    requires i < termEnd < |s|
    ensures forall k :: 0 <= k < |gap| ==> gap[k].Dummy?
    ensures Collapsed(s, i, termEnd, op) == s[..i] + ([op] + gap) + s[termEnd + 1..]
  {
    var c := Collapsed(s, i, termEnd, op);
    gap := c[i + 1..termEnd + 1];
    assert c == c[..i] + ([c[i]] + gap) + c[termEnd + 1..];
    assert c[..i] == s[..i];
    assert c[termEnd + 1..] == s[termEnd + 1..];
  }

  /** Counts over `a + m + b` differ from those over `a + m' + b` as those
      over `m` and `m'` do. */
  lemma SpliceCounts(s: seq<MirInstruction>, c: seq<MirInstruction>, a: seq<MirInstruction>, b: seq<MirInstruction>, m1: seq<MirInstruction>, m2: seq<MirInstruction>)
    requires s == a + m1 + b && c == a + m2 + b
    ensures NonDummyLen(s) - NonDummyLen(c) == NonDummyLen(m1) - NonDummyLen(m2)
    ensures W.Depth(s) - W.Depth(c) == W.Depth(m1) - W.Depth(m2)
  {
    NonDummyLenConcat(a + m1, b);
    NonDummyLenConcat(a, m1);
    NonDummyLenConcat(a + m2, b);
    NonDummyLenConcat(a, m2);
    W.DepthConcat(a + m1, b);
    W.DepthConcat(a, m1);
    W.DepthConcat(a + m2, b);
    W.DepthConcat(a, m2);
  }

  /** An opener, an interior holding one plain instruction among dummies,
      and an `End`: three instructions, depth zero. */
  lemma OpenerCounts(o: MirInstruction, body: seq<MirInstruction>, c: MirInstruction, x: MirAddress)
    requires HasBracket(o) && c.End?
    requires Filtered(body) == [MirInstruction.And(x)]
    ensures NonDummyLen([o] + body + [c]) == 3
    ensures W.Depth([o] + body + [c]) == 0
  {
    NonDummyLenConcat([o] + body, [c]);
    NonDummyLenConcat([o], body);
    W.DepthConcat([o] + body, [c]);
    W.DepthConcat([o], body);
    SingleBody(body, x);
    assert [o][..0] == [] && [c][..0] == [];
  }

  /** An interior holding one `And` among dummies. */
  lemma SingleBody(body: seq<MirInstruction>, x: MirAddress)
    requires Filtered(body) == [MirInstruction.And(x)]
    ensures NonDummyLen(body) == 1 && W.Depth(body) == 0
  {
    FilteredSingle(body, MirInstruction.And(x));
    FlatDepth(body);
  }

  /** A plain instruction among dummies: one instruction, depth zero. */
  lemma PlainCounts(op: MirInstruction, gap: seq<MirInstruction>)
    requires !op.Dummy? && !HasBracket(op) && !op.End?
    requires forall k :: 0 <= k < |gap| ==> gap[k].Dummy?
    ensures NonDummyLen([op] + gap) == 1
    ensures W.Depth([op] + gap) == 0
  {
    NonDummyLenConcat([op], gap);
    DummiesFiltered(gap);
    W.DepthConcat([op], gap);
    FlatDepth(gap);
    assert [op][..0] == [];
  }

  lemma {:induction false} DummiesFiltered(s: seq<MirInstruction>)
    requires forall k :: 0 <= k < |s| ==> s[k].Dummy?
    ensures Filtered(s) == []
  {
    if s != [] {
      DummiesFiltered(s[1..]);
    }
  }

  /** A stretch without openers or `End`s leaves the depth where it is. */
  lemma {:induction false} FlatDepth(s: seq<MirInstruction>)
    requires forall k :: 0 <= k < |s| ==> !HasBracket(s[k]) && !s[k].End?
    ensures W.Depth(s) == 0
  {
    if s != [] {
      FlatDepth(s[..|s| - 1]);
    }
  }

  /** `fill_dummy`. */
  method FillDummy(a: array<MirInstruction>, lo: nat, hi: nat)
    requires lo <= hi <= a.Length
    modifies a
    ensures a[..] == Dummied(old(a[..]), lo, hi)
  {
    var k := lo;
    while k < hi
      invariant lo <= k <= hi
      invariant forall j :: 0 <= j < a.Length ==> a[j] == if lo <= j < k then Dummy else old(a[j])
    {
      a[k] := Dummy;
      k := k + 1;
    }
  }

  /** `fill_dummy` over the interior, then the `End` emptied and the opener
      rewritten. */
  method Collapse(a: array<MirInstruction>, i: nat, termEnd: nat, op: MirInstruction)
    requires i < termEnd < a.Length
    modifies a
    ensures a[..] == Collapsed(old(a[..]), i, termEnd, op)
  {
    FillDummy(a, i + 1, termEnd);
    a[termEnd] := Dummy;
    a[i] := op;
  }

  /** `optimize_brackets`, in place on the array. */
  method OptimizeBrackets(a: array<MirInstruction>, index: nat, term: bool) returns (r: nat)
    requires index <= a.Length && BracketPass(a[..], index, term).Some?
    modifies a
    ensures (a[..], r) == BracketPass(old(a[..]), index, term).value
    decreases a.Length - index, 1
  {
    ghost var goal := BracketPass(a[..], index, term);
    var i := index;
    while i < a.Length
      invariant index <= i <= a.Length
      invariant BracketPass(a[..], i, term) == goal
      decreases a.Length - i
    {
      var start := a[i];
      if start.End? {
        return i;
      } else if HasBracket(start) {
        i := OptimizeBracket(a, i, term);
      } else {
        PassSkip(a[..], i, term);
        i := i + 1;
      }
    }
    r := i;
  }

  /** The body of `optimize_brackets` for a bracket opener at `i`: the
      interior is optimized, then the bracket is kept or collapsed, and the
      pass goes on after its `End`. */
  method OptimizeBracket(a: array<MirInstruction>, i: nat, term: bool) returns (next: nat)
    requires i < a.Length && HasBracket(a[i]) && AfterBracket(a[..], i, term).Some?
    modifies a
    ensures i < next <= a.Length
    ensures BracketPass(a[..], next, term) == AfterBracket(old(a[..]), i, term)
    decreases a.Length - i, 0
  {
    var start := a[i];
    ghost var s := a[..];
    var termEnd := OptimizeBrackets(a, i + 1, true);
    ghost var s1 := a[..];
    var len := NonDummyLen(a[i + 1..termEnd]);
    if len > 1 {
      PassKeep(s, i, term, s1, termEnd);
      return termEnd + 1;
    }
    var inner := GetNonDummy(a[i + 1..termEnd], 0);
    PassCollapse(s, i, term, s1, termEnd);
    Collapse(a, i, termEnd, Unbracket(start, inner.addr));
    next := termEnd + 1;
  }

  /** `optimize`, on the writer's instruction list. The list is copied into
      an array for the in-place pass. */
  method Optimize(writer: W.MirInstructionWriter)
    requires Optimized(writer.instructions).Some?
    modifies writer
    ensures writer.instructions == Optimized(old(writer.instructions)).value
  {
    var s := writer.instructions;
    var a := new MirInstruction[|s|](k requires 0 <= k < |s| => s[k]);
    assert a[..] == s;
    var _ := OptimizeBrackets(a, 0, false);
    writer.instructions := a[..];
    FilterDummy(writer);
  }

  /** `filter_dummy`. */
  method FilterDummy(writer: W.MirInstructionWriter)
    modifies writer
    ensures writer.instructions == Filtered(old(writer.instructions))
  {
    writer.instructions := Filtered(writer.instructions);
  }
}
