/** Replacing known sensitive literals by a marker (common/redaction.py). */
module Redaction {
  import opened Collections

  const OPEN: char := '\U{00AB}'
  const CLOSE: char := '\U{00BB}'
  const WORD: string := "redacted"
  const MARKER: string := [OPEN] + WORD + [CLOSE]
  const MIN_LITERAL_LEN: nat := 4

  // ----- occurrences -----

  predicate OccursAt(text: string, part: string, i: nat) {
    i + |part| <= |text| && text[i..i + |part|] == part
  }

  predicate Contains(text: string, part: string) {
    exists i: nat :: i <= |text| && OccursAt(text, part, i)
  }

  /** No marker bracket inside. */
  predicate Unbracketed(text: string) {
    OPEN !in text && CLOSE !in text
  }

  lemma ContainsRight(a: string, b: string, part: string)
    requires Contains(b, part)
    ensures Contains(a + b, part)
  {
    var i: nat :| i <= |b| && OccursAt(b, part, i);
    assert (a + b)[|a| + i..|a| + i + |part|] == b[i..i + |part|];
    assert OccursAt(a + b, part, |a| + i);
  }

  lemma ContainsLeft(a: string, b: string, part: string)
    requires Contains(a, part)
    ensures Contains(a + b, part)
  {
    var i: nat :| i <= |a| && OccursAt(a, part, i);
    assert (a + b)[i..i + |part|] == a[i..i + |part|];
    assert OccursAt(a + b, part, i);
  }

  /** An occurrence either lies on one side or covers the first character of the right side. */
  lemma OccursSplit(a: string, b: string, part: string)
    requires Contains(a + b, part) && |b| != 0
    ensures Contains(a, part) || Contains(b, part) || b[0] in part
  {
    var i: nat :| i <= |a + b| && OccursAt(a + b, part, i);
    var text := a + b;
    if i + |part| <= |a| {
      assert a[i..i + |part|] == text[i..i + |part|];
      assert OccursAt(a, part, i);
    } else if i >= |a| {
      assert b[i - |a|..i - |a| + |part|] == text[i..i + |part|];
      assert OccursAt(b, part, i - |a|);
    } else {
      assert part[|a| - i] == text[i..i + |part|][|a| - i] == b[0];
    }
  }

  /** The same, seen from the last character of the left side. */
  lemma OccursSplitLast(a: string, b: string, part: string)
    requires Contains(a + b, part) && |a| != 0
    ensures Contains(a, part) || Contains(b, part) || a[|a| - 1] in part
  {
    var i: nat :| i <= |a + b| && OccursAt(a + b, part, i);
    var text := a + b;
    if i + |part| <= |a| {
      assert a[i..i + |part|] == text[i..i + |part|];
      assert OccursAt(a, part, i);
    } else if i >= |a| {
      assert b[i - |a|..i - |a| + |part|] == text[i..i + |part|];
      assert OccursAt(b, part, i - |a|);
    } else {
      assert part[|a| - 1 - i] == text[i..i + |part|][|a| - 1 - i] == a[|a| - 1];
    }
  }

  // ----- replacing segments by the marker -----

  /** A text as the gaps kept and the segments cut out between them. */
  datatype Pieces = Last(gap: string) | More(gap: string, cut: string, rest: Pieces)

  function Before(p: Pieces): string {
    match p
    case Last(gap) => gap
    case More(gap, cut, rest) => gap + cut + Before(rest)
  }

  function After(p: Pieces): string {
    match p
    case Last(gap) => gap
    case More(gap, cut, rest) => gap + MARKER + After(rest)
  }

  ghost predicate SomeGap(p: Pieces, part: string) {
    Contains(p.gap, part) || (p.More? && SomeGap(p.rest, part))
  }

  lemma MarkerParts(part: string)
    requires |part| != 0 && Unbracketed(part)
    ensures Contains(MARKER, part) <==> Contains(WORD, part)
  {
    if Contains(WORD, part) {
      ContainsRight([OPEN], WORD, part);
      ContainsLeft([OPEN] + WORD, [CLOSE], part);
    }
    if Contains(MARKER, part) {
      OccursSplit([OPEN] + WORD, [CLOSE], part);
      NotInOne(CLOSE, part);
      OccursSplitLast([OPEN], WORD, part);
      NotInOne(OPEN, part);
    }
  }

  lemma NotInOne(c: char, part: string)
    requires |part| != 0 && c !in part
    ensures !Contains([c], part)
  {
    forall i: nat | i <= 1
      ensures !OccursAt([c], part, i)
    {
      if i + |part| <= 1 {
        assert [c][i..i + |part|][0] == c;
      }
    }
  }

  /** What an unbracketed text contains after the cuts was in a gap, or is part of the marker's word. */
  lemma {:induction false} AfterContains(p: Pieces, part: string)
    requires |part| != 0 && Unbracketed(part) && Contains(After(p), part)
    ensures SomeGap(p, part) || (p.More? && Contains(WORD, part))
  {
    if p.More? {
      var tail := MARKER + After(p.rest);
      assert After(p) == p.gap + tail;
      OccursSplit(p.gap, tail, part);
      if Contains(tail, part) {
        OccursSplitLast(MARKER, After(p.rest), part);
        MarkerParts(part);
        if Contains(After(p.rest), part) {
          AfterContains(p.rest, part);
        }
      }
    }
  }

  lemma {:induction false} GapInBefore(p: Pieces, part: string)
    requires SomeGap(p, part)
    ensures Contains(Before(p), part)
  {
    if p.More? {
      assert Before(p) == p.gap + (p.cut + Before(p.rest));
      if Contains(p.gap, part) {
        ContainsLeft(p.gap, p.cut + Before(p.rest), part);
      } else {
        GapInBefore(p.rest, part);
        ContainsRight(p.cut, Before(p.rest), part);
        ContainsRight(p.gap, p.cut + Before(p.rest), part);
      }
    }
  }

  /** A literal that can neither overlap nor hide in a marker. */
  predicate Removable(literal: string) {
    |literal| != 0 && Unbracketed(literal) && !Contains(WORD, literal)
  }

  /** Cutting segments out never brings a removable literal into being. */
  lemma {:induction false} NeverRecreated(p: Pieces, literal: string)
    requires Removable(literal) && !Contains(Before(p), literal)
    ensures !Contains(After(p), literal)
  {
    if Contains(After(p), literal) {
      AfterContains(p, literal);
      GapInBefore(p, literal);
    }
  }

  // ----- `text.replace(literal, MARKER)` -----

  /** Left to right, without overlaps. */
  function Replace(text: string, literal: string): string
    requires |literal| != 0
    decreases |text|
  {
    if |text| < |literal| then text
    else if text[..|literal|] == literal then MARKER + Replace(text[|literal|..], literal)
    else [text[0]] + Replace(text[1..], literal)
  }

  function Prepend(c: char, p: Pieces): Pieces {
    p.(gap := [c] + p.gap)
  }

  /** The gaps and cuts of a replacement. */
  function Split(text: string, literal: string): Pieces
    requires |literal| != 0
    decreases |text|
  {
    if |text| < |literal| then Last(text)
    else if text[..|literal|] == literal then More("", literal, Split(text[|literal|..], literal))
    else Prepend(text[0], Split(text[1..], literal))
  }

  lemma {:induction false} PrependParts(c: char, p: Pieces)
    ensures Before(Prepend(c, p)) == [c] + Before(p) && After(Prepend(c, p)) == [c] + After(p)
  {
    if p.More? {
      assert ([c] + p.gap) + p.cut + Before(p.rest) == [c] + (p.gap + p.cut + Before(p.rest));
      assert ([c] + p.gap) + MARKER + After(p.rest) == [c] + (p.gap + MARKER + After(p.rest));
    }
  }

  lemma {:induction false} CutParts(cut: string, p: Pieces)
    ensures Before(More("", cut, p)) == cut + Before(p) && After(More("", cut, p)) == MARKER + After(p)
  {
  }

  lemma GapPrefix(text: string, p: Pieces)
    requires |text| != 0 && p.gap <= text[1..]
    ensures Prepend(text[0], p).gap <= text
  {
  }

  lemma {:induction false} SplitReplaces(text: string, literal: string)
    requires |literal| != 0
    ensures Before(Split(text, literal)) == text && After(Split(text, literal)) == Replace(text, literal)
    ensures Split(text, literal).gap <= text
    decreases |text|
  {
    if |text| >= |literal| {
      if text[..|literal|] == literal {
        SplitReplaces(text[|literal|..], literal);
        CutParts(literal, Split(text[|literal|..], literal));
        assert text == text[..|literal|] + text[|literal|..];
      } else {
        SplitReplaces(text[1..], literal);
        PrependParts(text[0], Split(text[1..], literal));
        assert text == [text[0]] + text[1..];
        GapPrefix(text, Split(text[1..], literal));
      }
    }
  }

  lemma ContainsCons(c: char, text: string, part: string)
    requires Contains([c] + text, part) && !Contains(text, part)
    ensures part <= [c] + text
  {
    var i: nat :| i <= |[c] + text| && OccursAt([c] + text, part, i);
    if i > 0 {
      assert text[i - 1..i - 1 + |part|] == ([c] + text)[i..i + |part|];
      assert OccursAt(text, part, i - 1);
    }
  }

  /** No gap of a replacement contains the literal. */
  lemma {:induction false} GapsClean(text: string, literal: string)
    requires |literal| != 0
    ensures !SomeGap(Split(text, literal), literal)
    decreases |text|
  {
    if |text| >= |literal| {
      if text[..|literal|] == literal {
        GapsClean(text[|literal|..], literal);
      } else {
        GapsClean(text[1..], literal);
        SplitReplaces(text[1..], literal);
        var p := Split(text[1..], literal);
        assert [text[0]] + p.gap <= text && !(literal <= [text[0]] + p.gap);
        if Contains([text[0]] + p.gap, literal) {
          ContainsCons(text[0], p.gap, literal);
        }
      }
    }
  }

  lemma {:induction false} CutExactly(text: string, literal: string)
    requires |literal| != 0
    ensures Split(text, literal).More? <==> Contains(text, literal)
    decreases |text|
  {
    if |text| >= |literal| {
      if text[..|literal|] == literal {
        assert OccursAt(text, literal, 0);
      } else {
        CutExactly(text[1..], literal);
        assert text == [text[0]] + text[1..];
        if Contains(text[1..], literal) {
          ContainsRight([text[0]], text[1..], literal);
        } else if Contains(text, literal) {
          ContainsCons(text[0], text[1..], literal);
        }
      }
    }
  }

  lemma {:induction false} MarkerAfter(p: Pieces)
    requires p.More?
    ensures Contains(After(p), MARKER)
  {
    assert After(p) == p.gap + (MARKER + After(p.rest));
    assert OccursAt(MARKER, MARKER, 0);
    ContainsLeft(MARKER, After(p.rest), MARKER);
    ContainsRight(p.gap, MARKER + After(p.rest), MARKER);
  }

  lemma ContainsTransitive(a: string, b: string, c: string)
    requires Contains(a, b) && Contains(b, c)
    ensures Contains(a, c)
  {
    var i: nat :| i <= |a| && OccursAt(a, b, i);
    var j: nat :| j <= |b| && OccursAt(b, c, j);
    forall k | 0 <= k < |c|
      ensures a[i + j..i + j + |c|][k] == c[k]
    {
      assert a[i + j + k] == a[i..i + |b|][j + k] == b[j + k] == b[j..j + |c|][k];
    }
    assert OccursAt(a, c, i + j);
  }

  /** After its replacement an unbracketed literal is gone, unless it was there and is itself part of
      the marker's word. */
  lemma {:induction false} ReplacedExactly(text: string, literal: string)
    requires |literal| != 0 && Unbracketed(literal)
    ensures Contains(Replace(text, literal), literal) <==> Contains(text, literal) && Contains(WORD, literal)
  {
    var p := Split(text, literal);
    SplitReplaces(text, literal);
    GapsClean(text, literal);
    CutExactly(text, literal);
    if Contains(After(p), literal) {
      AfterContains(p, literal);
    }
    if p.More? && Contains(WORD, literal) {
      MarkerAfter(p);
      MarkerParts(literal);
      ContainsTransitive(After(p), MARKER, literal);
    }
  }

  // ----- exactly what a replacement is -----

  /** Each cut is the first occurrence of the literal after the cut before it, and none is left over. */
  ghost predicate FirstCuts(p: Pieces, literal: string) {
    match p
    case Last(gap) => !Contains(gap, literal)
    case More(gap, cut, rest) =>
      cut == literal && |cut| != 0 && !Contains((gap + cut)[..|gap + cut| - 1], literal) && FirstCuts(rest, literal)
  }

  lemma ShortContainsNot(text: string, part: string)
    requires |text| < |part|
    ensures !Contains(text, part)
  {
  }

  lemma FirstLetter(c: char, text: string, part: string)
    requires !Contains(text, part) && !(part <= [c] + text)
    ensures !Contains([c] + text, part)
  {
    if Contains([c] + text, part) {
      ContainsCons(c, text, part);
    }
  }

  lemma {:induction false} SplitFirst(text: string, literal: string)
    requires |literal| != 0
    ensures FirstCuts(Split(text, literal), literal)
    decreases |text|
  {
    if |text| < |literal| {
      ShortContainsNot(text, literal);
    } else if text[..|literal|] == literal {
      SplitFirst(text[|literal|..], literal);
      assert "" + literal == literal;
      ShortContainsNot(literal[..|literal| - 1], literal);
    } else {
      var p := Split(text[1..], literal);
      SplitFirst(text[1..], literal);
      SplitReplaces(text[1..], literal);
      PrependFirst(text, p, literal);
    }
  }

  lemma {:induction false} PrependFirst(text: string, p: Pieces, literal: string)
    requires |text| >= |literal| != 0 && text[..|literal|] != literal && Before(p) == text[1..] && FirstCuts(p, literal)
    ensures FirstCuts(Prepend(text[0], p), literal)
  {
    var c := text[0];
    assert text == [c] + text[1..];
    match p
    case Last(gap) => FirstLetter(c, gap, literal);
    case More(gap, cut, rest) =>
      var head := (gap + cut)[..|gap + cut| - 1];
      assert (([c] + gap) + cut)[..|([c] + gap) + cut| - 1] == [c] + head;
      assert [c] + head <= text;
      FirstLetter(c, head, literal);
  }

  lemma {:induction false} NoneBefore(gap: string, literal: string)
    requires |gap| != 0 && |literal| != 0 && !Contains((gap + literal)[..|gap + literal| - 1], literal)
    ensures (gap + literal)[..|literal|] != literal
    ensures !Contains((gap[1..] + literal)[..|gap[1..] + literal| - 1], literal)
  {
    var head := (gap + literal)[..|gap + literal| - 1];
    var shorter := (gap[1..] + literal)[..|gap[1..] + literal| - 1];
    assert head == [gap[0]] + shorter;
    if Contains(shorter, literal) {
      ContainsRight([gap[0]], shorter, literal);
    }
    assert head[..|literal|] == (gap + literal)[..|literal|];
    assert OccursAt(head, literal, 0) <==> head[..|literal|] == literal;
  }

  lemma HeadFirst(gap: string, middle: string, rest: string)
    requires |gap| != 0
    ensures gap + middle + rest == [gap[0]] + (gap[1..] + middle + rest)
  {
  }

  lemma HeadKept(text: string, c: char, rest: string, literal: string)
    requires |literal| != 0 && text == [c] + rest && (|text| < |literal| || text[..|literal|] != literal)
    ensures Replace(text, literal) == [c] + Replace(rest, literal)
  {
    assert text[1..] == rest;
  }

  /** Up to its first occurrence nothing changes. */
  lemma {:induction false} ReplaceSkips(gap: string, literal: string, rest: string)
    requires |literal| != 0 && !Contains((gap + literal)[..|gap + literal| - 1], literal)
    ensures Replace(gap + literal + rest, literal) == gap + MARKER + Replace(rest, literal)
  {
    var text := gap + literal + rest;
    if |gap| == 0 {
      assert text[..|literal|] == literal && text[|literal|..] == rest;
    } else {
      NoneBefore(gap, literal);
      assert text[..|literal|] == (gap + literal)[..|literal|];
      HeadFirst(gap, literal, rest);
      HeadFirst(gap, MARKER, Replace(rest, literal));
      HeadKept(text, gap[0], gap[1..] + literal + rest, literal);
      ReplaceSkips(gap[1..], literal, rest);
    }
  }

  lemma {:induction false} FirstCutsReplace(p: Pieces, literal: string)
    requires |literal| != 0 && FirstCuts(p, literal)
    ensures Replace(Before(p), literal) == After(p)
  {
    match p
    case Last(gap) => ReplaceAbsent(gap, literal);
    case More(gap, cut, rest) =>
      FirstCutsReplace(rest, literal);
      ReplaceSkips(gap, literal, Before(rest));
  }

  /** The text with each first occurrence of the literal, left to right, replaced by the marker, and nothing else
      changed. */
  ghost predicate IsReplaced(text: string, literal: string, result: string) {
    exists p :: FirstCuts(p, literal) && Before(p) == text && After(p) == result
  }

  lemma {:induction false} ReplaceExactly(text: string, literal: string, result: string)
    requires |literal| != 0
    ensures IsReplaced(text, literal, result) <==> result == Replace(text, literal)
    ensures MARKER == "\U{00AB}redacted\U{00BB}"
  {
    SplitFirst(text, literal);
    SplitReplaces(text, literal);
    if p :| FirstCuts(p, literal) && Before(p) == text && After(p) == result {
      FirstCutsReplace(p, literal);
    }
  }

  // ----- the redactor -----

  /** Any pass that only puts markers in place of segments, as every pattern of the redactor does. */
  ghost predicate IsMarkerPass(pass: string -> string) {
    forall text :: MarksOnly(text, pass(text))
  }

  ghost predicate MarksOnly(before: string, after: string) {
    exists p :: Before(p) == before && After(p) == after
  }

  function RedactLiterals(literals: seq<string>, text: string): string
    requires forall l :: l in literals ==> |l| != 0
  {
    if |literals| == 0 then text
    else
      var earlier := RedactLiterals(literals[..|literals| - 1], text);
      assert literals[|literals| - 1] in literals;
      Replace(earlier, literals[|literals| - 1])
  }

  lemma {:induction false} LiteralsGone(literals: seq<string>, text: string, literal: string)
    requires forall l :: l in literals ==> |l| != 0
    requires literal in literals && Removable(literal)
    ensures !Contains(RedactLiterals(literals, text), literal)
  {
    var before, last := literals[..|literals| - 1], literals[|literals| - 1];
    assert literals == before + [last];
    var earlier := RedactLiterals(before, text);
    SplitReplaces(earlier, last);
    if literal == last {
      ReplacedExactly(earlier, literal);
    } else {
      LiteralsGone(before, text, literal);
      NeverRecreated(Split(earlier, last), literal);
    }
  }

  lemma {:induction false} ReplaceAbsent(text: string, literal: string)
    requires |literal| != 0 && !Contains(text, literal)
    ensures Replace(text, literal) == text
    decreases |text|
  {
    if |text| >= |literal| {
      if text[..|literal|] == literal {
        assert OccursAt(text, literal, 0);
      }
      assert text == [text[0]] + text[1..];
      if Contains(text[1..], literal) {
        ContainsRight([text[0]], text[1..], literal);
      }
      ReplaceAbsent(text[1..], literal);
    }
  }

  function LongEnough(): string -> bool {
    (l: string) => |l| >= MIN_LITERAL_LEN
  }

  function InsertByLength(xs: seq<string>, x: string): seq<string> {
    if |xs| == 0 || |x| >= |xs[0]| then [x] + xs else [xs[0]] + InsertByLength(xs[1..], x)
  }

  /** Sorted by length, longest first. */
  function LongestFirst(xs: seq<string>): seq<string> {
    if |xs| == 0 then [] else InsertByLength(LongestFirst(xs[1..]), xs[0])
  }

  ghost predicate Descending(xs: seq<string>) {
    forall i, j :: 0 <= i < j < |xs| ==> |xs[i]| >= |xs[j]|
  }

  lemma {:induction false} InsertByLengthSpec(xs: seq<string>, x: string)
    requires Descending(xs)
    ensures Descending(InsertByLength(xs, x))
    ensures forall y :: y in InsertByLength(xs, x) <==> y in xs || y == x
  {
    if |xs| != 0 && |x| < |xs[0]| {
      var rest := InsertByLength(xs[1..], x);
      InsertByLengthSpec(xs[1..], x);
      assert xs == [xs[0]] + xs[1..];
      forall j | 0 <= j < |rest|
        ensures |xs[0]| >= |rest[j]|
      {
        assert rest[j] in rest;
      }
    }
  }

  lemma {:induction false} LongestFirstSpec(xs: seq<string>)
    ensures Descending(LongestFirst(xs))
    ensures forall y :: y in LongestFirst(xs) <==> y in xs
  {
    if |xs| != 0 {
      LongestFirstSpec(xs[1..]);
      InsertByLengthSpec(LongestFirst(xs[1..]), xs[0]);
      assert xs == [xs[0]] + xs[1..];
    }
  }

  /** A JSON-like value; numbers, booleans and null are left alone. */
  datatype Json = Text(text: string) | Mapping(keys: seq<string>, values: seq<Json>) | Items(values: seq<Json>) | Atom

  ghost predicate Free(v: Json, literal: string) {
    match v
    case Text(text) => !Contains(text, literal)
    case Mapping(_, values) => forall i :: 0 <= i < |values| ==> Free(values[i], literal)
    case Items(values) => forall i :: 0 <= i < |values| ==> Free(values[i], literal)
    case Atom => true
  }

  /** Same structure and keys; only texts may differ. */
  ghost predicate SameStructure(v: Json, w: Json) {
    match v
    case Text(_) => w.Text?
    case Mapping(keys, values) =>
      w.Mapping? && w.keys == keys && |w.values| == |values| &&
      forall i :: 0 <= i < |values| ==> SameStructure(values[i], w.values[i])
    case Items(values) =>
      w.Items? && |w.values| == |values| && forall i :: 0 <= i < |values| ==> SameStructure(values[i], w.values[i])
    case Atom => w == Atom
  }

  /** The value at the end of a path of positions. */
  function At(v: Json, path: seq<nat>): Option<Json>
    decreases |path|
  {
    if |path| == 0 then Some(v)
    else if v.Mapping? || v.Items? then
      if path[0] < |v.values| then At(v.values[path[0]], path[1..]) else None
    else None
  }

  lemma PassKeepsGone(before: string, after: string, literal: string)
    requires MarksOnly(before, after) && Removable(literal) && !Contains(before, literal)
    ensures !Contains(after, literal)
  {
    var p :| Before(p) == before && After(p) == after;
    NeverRecreated(p, literal);
  }

  // ----- `redact_text`: the built-in patterns, one after another -----

  ghost predicate AllMarkerPasses(passes: seq<string -> string>) {
    forall i :: 0 <= i < |passes| ==> IsMarkerPass(passes[i])
  }

  function RunPasses(passes: seq<string -> string>, text: string): string {
    if |passes| == 0 then text else passes[|passes| - 1](RunPasses(passes[..|passes| - 1], text))
  }

  /** Each pass works on what the previous ones left; none brings a removable literal into being. */
  lemma {:induction false} PassesKeepGone(passes: seq<string -> string>, text: string, literal: string)
    requires AllMarkerPasses(passes) && Removable(literal) && !Contains(text, literal)
    ensures !Contains(RunPasses(passes, text), literal)
  {
    if |passes| != 0 {
      var before := passes[..|passes| - 1];
      PassesKeepGone(before, text, literal);
      assert IsMarkerPass(passes[|passes| - 1]);
      PassKeepsGone(RunPasses(before, text), RunPasses(passes, text), literal);
    }
  }

  method RedactText(passes: seq<string -> string>, text: string) returns (result: string)
    requires AllMarkerPasses(passes)
    ensures result == if text == "" then text else RunPasses(passes, text)
    ensures forall l :: Removable(l) && !Contains(text, l) ==> !Contains(result, l)
  {
    result := text;
    if text != "" {
      for i := 0 to |passes|
        invariant result == RunPasses(passes[..i], text)
      {
        assert passes[..i + 1][..i] == passes[..i];
        result := passes[i](result);
      }
      assert passes[..|passes|] == passes;
      forall l | Removable(l) && !Contains(text, l)
        ensures !Contains(result, l)
      {
        PassesKeepGone(passes, text, l);
      }
    }
  }

  // ----- one stage after another -----

  ghost predicate ReplacedInTurn(literals: seq<string>, stages: seq<string>) {
    |stages| == |literals| + 1 &&
    forall k :: 0 <= k < |literals| ==> IsReplaced(stages[k], literals[k], stages[k + 1])
  }

  ghost predicate PassedInTurn(passes: seq<string -> string>, stages: seq<string>) {
    |stages| == |passes| + 1 && forall k :: 0 <= k < |passes| ==> stages[k + 1] == passes[k](stages[k])
  }

  lemma {:induction false} LiteralStages(literals: seq<string>, text: string) returns (stages: seq<string>)
    requires forall l :: l in literals ==> |l| != 0
    ensures ReplacedInTurn(literals, stages) && stages[0] == text
    ensures stages[|literals|] == RedactLiterals(literals, text)
    ensures text != "" ==> RedactLiterals(literals, text) != ""
  {
    if |literals| == 0 {
      stages := [text];
    } else {
      var before, last := literals[..|literals| - 1], literals[|literals| - 1];
      var earlier := LiteralStages(before, text);
      var result := RedactLiterals(literals, text);
      assert last in literals;
      ReplaceExactly(earlier[|before|], last, result);
      stages := earlier + [result];
      forall k | 0 <= k < |literals|
        ensures IsReplaced(stages[k], literals[k], stages[k + 1])
      {
        if k < |before| {
          assert IsReplaced(earlier[k], before[k], earlier[k + 1]);
        }
      }
    }
  }

  lemma {:induction false} PassStages(passes: seq<string -> string>, text: string) returns (stages: seq<string>)
    ensures PassedInTurn(passes, stages) && stages[0] == text && stages[|passes|] == RunPasses(passes, text)
  {
    if |passes| == 0 {
      stages := [text];
    } else {
      var earlier := PassStages(passes[..|passes| - 1], text);
      stages := earlier + [RunPasses(passes, text)];
    }
  }

  // ----- literals that are part of the marker's word -----

  /** Such a literal is in whatever a cutting changes, and stays where it is. */
  lemma {:induction false} MarkedContains(before: string, after: string, literal: string)
    requires MarksOnly(before, after) && |literal| != 0 && Unbracketed(literal) && Contains(WORD, literal)
    requires Contains(before, literal) || after != before
    ensures Contains(after, literal)
  {
    var p :| Before(p) == before && After(p) == after;
    if p.More? {
      MarkerAfter(p);
      MarkerParts(literal);
      ContainsTransitive(after, MARKER, literal);
    }
  }

  ghost predicate SomeOccurs(literals: seq<string>, text: string) {
    exists k :: k in literals && Contains(text, k)
  }

  lemma {:induction false} ReplaceMarks(text: string, literal: string)
    requires |literal| != 0
    ensures MarksOnly(text, Replace(text, literal))
  {
    SplitReplaces(text, literal);
  }

  lemma {:induction false} OccurringContains(text: string, k: string, literal: string)
    requires |k| != 0 && Contains(text, k) && |literal| != 0 && Unbracketed(literal) && Contains(WORD, literal)
    ensures Contains(Replace(text, k), literal)
  {
    var p := Split(text, k);
    SplitReplaces(text, k);
    CutExactly(text, k);
    MarkerAfter(p);
    MarkerParts(literal);
    ContainsTransitive(After(p), MARKER, literal);
  }

  /** Replacing literals changes nothing when none occurs, and otherwise leaves a marker behind. */
  lemma {:induction false} LiteralsMark(literals: seq<string>, text: string, literal: string)
    requires forall l :: l in literals ==> |l| != 0
    requires |literal| != 0 && Unbracketed(literal) && Contains(WORD, literal)
    ensures if SomeOccurs(literals, text) then Contains(RedactLiterals(literals, text), literal)
            else RedactLiterals(literals, text) == text
  {
    if |literals| != 0 {
      var before, last := literals[..|literals| - 1], literals[|literals| - 1];
      assert literals == before + [last];
      var earlier := RedactLiterals(before, text);
      LiteralsMark(before, text, literal);
      if SomeOccurs(before, text) {
        ReplaceMarks(earlier, last);
        MarkedContains(earlier, Replace(earlier, last), literal);
      } else if Contains(text, last) {
        OccurringContains(text, last, literal);
      } else {
        ReplaceAbsent(text, last);
      }
    }
  }

  lemma {:induction false} PassesMark(passes: seq<string -> string>, text: string, literal: string)
    requires AllMarkerPasses(passes) && |literal| != 0 && Unbracketed(literal) && Contains(WORD, literal)
    requires Contains(text, literal) || RunPasses(passes, text) != text
    ensures Contains(RunPasses(passes, text), literal)
  {
    if |passes| != 0 {
      var before := passes[..|passes| - 1];
      var earlier := RunPasses(before, text);
      if Contains(text, literal) || earlier != text {
        PassesMark(before, text, literal);
      }
      assert IsMarkerPass(passes[|passes| - 1]);
      MarkedContains(earlier, RunPasses(passes, text), literal);
    }
  }

  class Redactor {
    const literals: seq<string>
    const patterns: seq<string -> string>     // none when patterns are switched off

    ghost predicate Valid() {
      && Descending(literals) && (forall l :: l in literals ==> |l| >= MIN_LITERAL_LEN)
      && AllMarkerPasses(patterns)
    }

    /** Short literals are ignored, the others tried longest first. */
    constructor (given: seq<string>, patterns: seq<string -> string>)
      requires AllMarkerPasses(patterns)
      ensures Valid() && this.patterns == patterns
      ensures forall l :: l in literals <==> l in given && |l| >= 4
    {
      forall l
        ensures l in Filter(given, LongEnough()) <==> l in given && |l| >= MIN_LITERAL_LEN
      {
        FilterMember(given, LongEnough(), l);
      }
      LongestFirstSpec(Filter(given, LongEnough()));
      literals := LongestFirst(Filter(given, LongEnough()));
      this.patterns := patterns;
    }

    /** What a text is redacted to. */
    function Redacted(text: string): string
      requires Valid()
    {
      if text == "" then text
      else
        var result := RedactLiterals(literals, text);
        if result == "" then result else RunPasses(patterns, result)
    }

    lemma RedactedFree(text: string, literal: string)
      requires Valid() && literal in literals && Removable(literal)
      ensures !Contains(Redacted(text), literal)
    {
      assert !Contains("", literal);
      LiteralsGone(literals, text, literal);
      PassesKeepGone(patterns, RedactLiterals(literals, text), literal);
    }

    /** The literals replaced in turn, then the patterns in turn. */
    ghost predicate IsRedacted(text: string, result: string) {
      if text == "" then result == ""
      else exists stages, passed ::
             && ReplacedInTurn(literals, stages) && PassedInTurn(patterns, passed) && stages[0] == text
             && passed[0] == stages[|literals|] && result == passed[|patterns|]
    }

    lemma RedactedInTurn(text: string)
      requires Valid()
      ensures IsRedacted(text, Redacted(text))
    {
      if text != "" {
        var stages := LiteralStages(literals, text);
        var passed := PassStages(patterns, RedactLiterals(literals, text));
        assert ReplacedInTurn(literals, stages) && PassedInTurn(patterns, passed);
      }
    }

    /** Something is replaced: a literal occurs, or the patterns change the text. */
    ghost predicate Marks(text: string)
      requires Valid()
    {
      SomeOccurs(literals, text) || (text != "" && RunPasses(patterns, text) != text)
    }

    /** A literal without brackets is in the result exactly when it is part of the marker's word and
        something was replaced. */
    lemma {:induction false} SurvivesExactly(text: string, literal: string)
      requires Valid() && literal in literals && Unbracketed(literal)
      ensures Contains(Redacted(text), literal) <==> Contains(WORD, literal) && Marks(text)
    {
      var kept := RedactLiterals(literals, text);
      if !Contains(WORD, literal) {
        RedactedFree(text, literal);
      } else if text != "" {
        LiteralsMark(literals, text, literal);
        if Marks(text) {
          PassesMark(patterns, kept, literal);
        }
      } else {
        NothingInEmpty();
      }
    }

    lemma NothingInEmpty()
      requires Valid()
      ensures forall l :: l in literals ==> !Contains("", l)
    {
    }

    /** No removable literal survives, whatever the text; one that is part of the marker's word is in the
        result exactly when something was replaced; a text with no literal is left to the patterns. */
    method Redact(text: string) returns (result: string)
      requires Valid()
      ensures result == Redacted(text) && IsRedacted(text, result)
      ensures forall l :: l in literals && Removable(l) ==> !Contains(result, l)
      ensures forall l :: l in literals && Unbracketed(l) ==>
        (Contains(result, l) <==> Contains(WORD, l) && Marks(text))
      ensures (forall l :: l in literals ==> !Contains(text, l)) ==>
        result == if text == "" then text else RunPasses(patterns, text)
    {
      result := text;
      if text == "" {
        NothingInEmpty();
        RedactedInTurn(text);
        return;
      }
      for i := 0 to |literals|
        invariant result == RedactLiterals(literals[..i], text)
        invariant (forall l :: l in literals ==> !Contains(text, l)) ==> result == text
      {
        assert literals[..i + 1][..i] == literals[..i];
        assert literals[i] in literals;
        if Contains(result, literals[i]) {
          result := Replace(result, literals[i]);
        } else {
          ReplaceAbsent(result, literals[i]);
        }
      }
      assert literals[..|literals|] == literals;
      result := RedactText(patterns, result);
      RedactedInTurn(text);
      forall l | l in literals && Removable(l)
        ensures !Contains(result, l)
      {
        RedactedFree(text, l);
      }
      forall l | l in literals && Unbracketed(l)
        ensures Contains(result, l) <==> Contains(WORD, l) && Marks(text)
      {
        SurvivesExactly(text, l);
      }
    }

    function RedactValue(v: Json): Json
      requires Valid()
      decreases v
    {
      match v
      case Text(text) => Text(Redacted(text))
      case Mapping(keys, values) => Mapping(keys, RedactValues(values))
      case Items(values) => Items(RedactValues(values))
      case Atom => Atom
    }

    function RedactValues(values: seq<Json>): (r: seq<Json>)
      requires Valid()
      ensures |r| == |values|
      ensures forall i :: 0 <= i < |values| ==> r[i] == RedactValue(values[i])
      decreases values
    {
      if |values| == 0 then [] else [RedactValue(values[0])] + RedactValues(values[1..])
    }

    /** At every place a text has become its redacted form, and all else is as it was. */
    lemma {:induction false} RedactedAt(v: Json, path: seq<nat>)
      requires Valid()
      ensures match At(v, path)
        case None => At(RedactValue(v), path) == None
        case Some(Text(text)) =>
          At(RedactValue(v), path) == Some(Json.Text(Redacted(text))) && IsRedacted(text, Redacted(text))
        case Some(Mapping(keys, values)) =>
          && At(RedactValue(v), path).Some? && At(RedactValue(v), path).value.Mapping?
          && At(RedactValue(v), path).value.keys == keys && |At(RedactValue(v), path).value.values| == |values|
        case Some(Items(values)) =>
          && At(RedactValue(v), path).Some? && At(RedactValue(v), path).value.Items?
          && |At(RedactValue(v), path).value.values| == |values|
        case Some(Atom) => At(RedactValue(v), path) == Some(Atom)
      decreases |path|
    {
      if |path| == 0 {
        if v.Text? {
          RedactedInTurn(v.text);
        }
      } else if v.Mapping? || v.Items? {
        if path[0] < |v.values| {
          RedactedAt(v.values[path[0]], path[1..]);
        }
      }
    }

    /** However deeply nested, no string of a redacted mapping holds a removable literal; keys and
        structure stay as they were. */
    lemma {:induction false} MappingFree(v: Json, literal: string)
      requires Valid() && literal in literals && Removable(literal)
      ensures Free(RedactValue(v), literal) && SameStructure(v, RedactValue(v))
      decreases v
    {
      match v
      case Text(text) => RedactedFree(text, literal);
      case Mapping(_, values) =>
        forall i | 0 <= i < |values|
          ensures Free(RedactValue(values[i]), literal) && SameStructure(values[i], RedactValue(values[i]))
        {
          MappingFree(values[i], literal);
        }
      case Items(values) =>
        forall i | 0 <= i < |values|
          ensures Free(RedactValue(values[i]), literal) && SameStructure(values[i], RedactValue(values[i]))
        {
          MappingFree(values[i], literal);
        }
      case Atom =>
    }
  }
}
