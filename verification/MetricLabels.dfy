/** The text form of label sets, and reading it back (observability/metrics.py). */
module MetricLabels {
  import opened Collections

  /** `text.replace(c, with)` for a single character. */
  function ReplaceChar(text: string, c: char, with: string): string {
    if |text| == 0 then "" else (if text[0] == c then with else [text[0]]) + ReplaceChar(text[1..], c, with)
  }

  function Escape(value: string): string {
    ReplaceChar(ReplaceChar(ReplaceChar(value, '\\', "\\\\"), '\"', "\\\""), '\n', " ")
  }

  function JoinPairs(key: seq<(string, string)>): string {
    if |key| == 0 then ""
    else key[0].0 + "=\"" + Escape(key[0].1) + "\"" + if |key| == 1 then "" else "," + JoinPairs(key[1..])
  }

  function RenderLabels(key: seq<(string, string)>): string {
    if |key| == 0 then "" else "{" + JoinPairs(key) + "}"
  }

  // ----- the three replacements, character by character -----

  function EscapeChar(c: char): string {
    if c == '\\' then "\\\\"
    else if c == '\"' then "\\\""
    else if c == '\n' then " "
    else [c]
  }

  function EscapeEach(value: string): string {
    if |value| == 0 then "" else EscapeChar(value[0]) + EscapeEach(value[1..])
  }

  lemma {:induction false} ReplaceAppend(a: string, b: string, c: char, with: string)
    ensures ReplaceChar(a + b, c, with) == ReplaceChar(a, c, with) + ReplaceChar(b, c, with)
  {
    if |a| == 0 {
      assert a + b == b;
    } else {
      assert (a + b)[1..] == a[1..] + b;
      ReplaceAppend(a[1..], b, c, with);
    }
  }

  lemma {:induction false} ReplaceShort(x: char, y: char, c: char, with: string)
    ensures ReplaceChar([x], c, with) == if x == c then with else [x]
    ensures ReplaceChar([x, y], c, with) == (if x == c then with else [x]) + (if y == c then with else [y])
  {
    assert [x][1..] == [] && [x, y][1..] == [y] && [y][1..] == [];
  }

  lemma EscapeOne(c: char)
    ensures Escape([c]) == EscapeChar(c)
  {
    ReplaceShort(c, c, '\\', "\\\\");
    ReplaceShort(c, c, '\"', "\\\"");
    ReplaceShort(c, c, '\n', " ");
    ReplaceShort('\\', '\\', '\"', "\\\"");
    ReplaceShort('\\', '\\', '\n', " ");
    ReplaceShort('\\', '\"', '\n', " ");
    assert "\\\\" == ['\\', '\\'] && "\\\"" == ['\\', '\"'];
  }

  /** Replacing backslashes first keeps the later replacements from doubling anything. */
  lemma {:induction false} EscapeIsEach(value: string)
    ensures Escape(value) == EscapeEach(value)
  {
    if |value| != 0 {
      EscapeIsEach(value[1..]);
      assert value == [value[0]] + value[1..];
      ReplaceAppend([value[0]], value[1..], '\\', "\\\\");
      var a, b := ReplaceChar([value[0]], '\\', "\\\\"), ReplaceChar(value[1..], '\\', "\\\\");
      ReplaceAppend(a, b, '\"', "\\\"");
      ReplaceAppend(ReplaceChar(a, '\"', "\\\""), ReplaceChar(b, '\"', "\\\""), '\n', " ");
      EscapeOne(value[0]);
    }
  }

  // ----- reading back (Prometheus text exposition format, section "Text format details") -----

  /** The rest of a quoted value: what it says, and what follows its closing quote. */
  function ReadValue(text: string): Option<(string, string)> {
    if |text| == 0 then None
    else if text[0] == '\"' then Some(("", text[1..]))
    else if text[0] == '\\' then
      if |text| == 1 then None
      else match ReadValue(text[2..])
           case None => None
           case Some((value, rest)) => Some(([if text[1] == 'n' then '\n' else text[1]] + value, rest))
    else match ReadValue(text[1..])
         case None => None
         case Some((value, rest)) => Some(([text[0]] + value, rest))
  }

  /** A label name, up to its `=`. */
  function ReadName(text: string): Option<(string, string)> {
    if |text| == 0 then None
    else if text[0] == '=' then Some(("", text[1..]))
    else match ReadName(text[1..])
         case None => None
         case Some((name, rest)) => Some(([text[0]] + name, rest))
  }

  lemma {:induction false} ReadNameShrinks(text: string)
    ensures ReadName(text).Some? ==> |ReadName(text).value.1| < |text|
  {
    if |text| != 0 && text[0] != '=' {
      ReadNameShrinks(text[1..]);
    }
  }

  lemma {:induction false} ReadValueShrinks(text: string)
    ensures ReadValue(text).Some? ==> |ReadValue(text).value.1| < |text|
    decreases |text|
  {
    if |text| >= 2 && text[0] == '\\' {
      ReadValueShrinks(text[2..]);
    } else if |text| != 0 && text[0] != '\"' {
      ReadValueShrinks(text[1..]);
    }
  }

  /** `name="value"` pairs up to the closing brace. */
  function ReadPairs(text: string): Option<seq<(string, string)>>
    decreases |text|
  {
    ReadNameShrinks(text);
    match ReadName(text)
    case None => None
    case Some((name, quoted)) =>
      if |quoted| == 0 || quoted[0] != '\"' then None
      else
        ReadValueShrinks(quoted[1..]);
        match ReadValue(quoted[1..])
        case None => None
        case Some((value, rest)) =>
          if |rest| == 0 then None
          else if rest[0] == '}' then Some([(name, value)])
          else if rest[0] != ',' then None
          else match ReadPairs(rest[1..])
               case None => None
               case Some(more) => Some([(name, value)] + more)
  }

  function ReadLabels(text: string): Option<seq<(string, string)>> {
    if |text| == 0 then Some([])
    else if text[0] == '{' then ReadPairs(text[1..])
    else None
  }

  /** What survives the text form: newlines become spaces. */
  function Flatten(value: string): string {
    ReplaceChar(value, '\n', " ")
  }

  function FlattenKey(key: seq<(string, string)>): seq<(string, string)> {
    if |key| == 0 then [] else [(key[0].0, Flatten(key[0].1))] + FlattenKey(key[1..])
  }

  lemma {:induction false} ReadEscaped(value: string, rest: string)
    ensures ReadValue(EscapeEach(value) + "\"" + rest) == Some((Flatten(value), rest))
  {
    var text := EscapeEach(value) + "\"" + rest;
    if |value| == 0 {
      assert text[0] == '\"' && text[1..] == rest;
    } else {
      ReadEscaped(value[1..], rest);
      var tail := EscapeEach(value[1..]) + "\"" + rest;
      assert text == EscapeChar(value[0]) + tail;
      if value[0] == '\\' || value[0] == '\"' {
        assert text[0] == '\\' && text[1] == value[0] && text[2..] == tail;
      } else {
        assert text[1..] == tail;
      }
    }
  }

  lemma {:induction false} ReadNameBack(name: string, rest: string)
    requires '=' !in name
    ensures ReadName(name + "=" + rest) == Some((name, rest))
  {
    var text := name + "=" + rest;
    if |name| == 0 {
      assert text[0] == '=' && text[1..] == rest;
    } else {
      assert name == [name[0]] + name[1..];
      assert text[0] == name[0] && text[1..] == name[1..] + "=" + rest;
      ReadNameBack(name[1..], rest);
    }
  }

  /** Label names are identifiers; here it matters only that they contain no `=`. */
  ghost predicate ProperNames(key: seq<(string, string)>) {
    forall i :: 0 <= i < |key| ==> '=' !in key[i].0
  }

  /** Reading one pair, given what its parts read as. */
  lemma {:induction false} ReadPairsStep(text: string, name: string, quoted: string, value: string, rest: string)
    requires ReadName(text) == Some((name, quoted)) && |quoted| != 0 && quoted[0] == '\"'
    requires ReadValue(quoted[1..]) == Some((value, rest)) && |rest| != 0
    ensures rest[0] == '}' ==> ReadPairs(text) == Some([(name, value)])
    ensures rest[0] == ',' && ReadPairs(rest[1..]).Some? ==>
      ReadPairs(text) == Some([(name, value)] + ReadPairs(rest[1..]).value)
  {
    ReadNameShrinks(text);
    ReadValueShrinks(quoted[1..]);
  }

  lemma ReadFirst(name: string, value: string, rest: string)
    requires '=' !in name && |rest| != 0
    ensures var text := name + "=\"" + Escape(value) + "\"" + rest;
      && (rest[0] == '}' ==> ReadPairs(text) == Some([(name, Flatten(value))]))
      && (rest[0] == ',' && ReadPairs(rest[1..]).Some? ==>
            ReadPairs(text) == Some([(name, Flatten(value))] + ReadPairs(rest[1..]).value))
  {
    var text := name + "=\"" + Escape(value) + "\"" + rest;
    var quoted := "\"" + EscapeEach(value) + "\"" + rest;
    EscapeIsEach(value);
    assert text == name + "=" + quoted;
    ReadNameBack(name, quoted);
    assert quoted[1..] == EscapeEach(value) + "\"" + rest;
    ReadEscaped(value, rest);
    ReadPairsStep(text, name, quoted, Flatten(value), rest);
  }

  lemma {:induction false} ReadPairsBack(key: seq<(string, string)>)
    requires |key| != 0 && ProperNames(key)
    ensures ReadPairs(JoinPairs(key) + "}") == Some(FlattenKey(key))
  {
    var rest := (if |key| == 1 then "" else "," + JoinPairs(key[1..])) + "}";
    assert JoinPairs(key) + "}" == key[0].0 + "=\"" + Escape(key[0].1) + "\"" + rest;
    ReadFirst(key[0].0, key[0].1, rest);
    if |key| == 1 {
      assert rest == "}" && key[1..] == [];
      assert FlattenKey(key) == [(key[0].0, Flatten(key[0].1))];
    } else {
      assert rest[0] == ',' && rest[1..] == JoinPairs(key[1..]) + "}";
      ReadPairsBack(key[1..]);
    }
  }

  /** A rendered label set reads back as itself, newlines as spaces. */
  lemma {:induction false} LabelsRoundTrip(key: seq<(string, string)>)
    requires ProperNames(key)
    ensures ReadLabels(RenderLabels(key)) == Some(FlattenKey(key))
  {
    if |key| != 0 {
      var text := RenderLabels(key);
      assert text[0] == '{' && text[1..] == JoinPairs(key) + "}";
      ReadPairsBack(key);
    }
  }

  /** Two label sets share a text exactly when they differ in nothing but newlines against spaces. */
  lemma {:induction false} SameTextExactly(a: seq<(string, string)>, b: seq<(string, string)>)
    requires ProperNames(a) && ProperNames(b)
    ensures RenderLabels(a) == RenderLabels(b) <==> FlattenKey(a) == FlattenKey(b)
  {
    LabelsRoundTrip(a);
    LabelsRoundTrip(b);
    if FlattenKey(a) == FlattenKey(b) {
      SameFlatSameText(a, b);
    }
  }

  lemma {:induction false} EscapeFlattened(value: string)
    ensures EscapeEach(Flatten(value)) == EscapeEach(value)
  {
    if |value| != 0 {
      EscapeFlattened(value[1..]);
      var flat := Flatten(value);
      assert flat[0] == (if value[0] == '\n' then ' ' else value[0]) && flat[1..] == Flatten(value[1..]);
    }
  }

  lemma {:induction false} SameFlatSameText(a: seq<(string, string)>, b: seq<(string, string)>)
    requires FlattenKey(a) == FlattenKey(b)
    ensures JoinPairs(a) == JoinPairs(b) && |a| == |b|
  {
    if |a| != 0 && |b| != 0 {
      var flat := FlattenKey(a);
      assert flat[0] == FlattenKey(b)[0] && flat[1..] == FlattenKey(a[1..]) && flat[1..] == FlattenKey(b[1..]);
      SameFlatSameText(a[1..], b[1..]);
      EscapeIsEach(a[0].1);
      EscapeIsEach(b[0].1);
      EscapeFlattened(a[0].1);
      EscapeFlattened(b[0].1);
    }
  }
}
