/** Files of a few lines on which the editor of the [llm] table does something else than it promises,
    or refuses. */
module LlmExamples {
  import opened Collections
  import opened LlmTable
  import opened LlmEdit
  import opened LlmScan
  import opened LlmRight

  function Active(key: string, value: string): Line { Line(Entry(true, key, value, true), key + " = " + value, None, GoesOn, GoesOn, false) }

  function Commented(key: string, value: string): Line {
    Line(Entry(false, key, value, true), "# " + key + " = " + value, None, GoesOn, GoesOn, false)
  }

  function Written(key: string, value: string): Update { Line(Entry(true, key, value, true), key + " = " + value, None, GoesOn, GoesOn, true) }

  /** A key whose value is a string over several lines, and its last line. */
  function Opening(key: string): Line {
    Line(Entry(true, key, "\"\"\"", true), key + " = \"\"\"", Some(Basic), Ends, GoesOn, false)
  }

  const CLOSING := Line(Junk, "\"\"\"", None, Ends, GoesOn, false)

  // ---------------------------------------------------------------- four lines

  lemma {:induction false} FourLines(a: Line, b: Line, c: Line, d: Line, st: Reader)
    ensures
      var lines := [a, b, c, d];
      lines[1..] == [b, c, d] && lines[1..][1..] == [c, d] && lines[1..][1..][1..] == [d] && lines[1..][1..][1..][1..] == []
  {
  }

  /** The reader on a table with one string of three lines. */
  lemma {:induction false} ReadsString(key: string, inner: Line, lines: seq<Line>)
    requires inner.basic.GoesOn? && lines == [LLM, Opening(key), inner, CLOSING]
    ensures
      var r := ReadFile(lines);
      r.Some? && TableOf(r.value, LLM_ID) == map[key := "\"\"\"" + "\n" + inner.text + "\n" + CLOSING.text]
  {
    FourLines(LLM, Opening(key), inner, CLOSING, START);
    var s1 := ReadLine(START, LLM).value;
    var s2 := ReadLine(s1, Opening(key)).value;
    var s3 := ReadLine(s2, inner).value;
    var s4 := ReadLine(s3, CLOSING).value;
    var none: Table := map[];
    assert TableOf(s1, LLM_ID) == none && TableOf(s2, LLM_ID) == map[key := "\"\"\""];
    assert Read([], s4) == Some(s4);
    assert Read([CLOSING], s3) == Some(s4);
    assert Read([inner, CLOSING], s2) == Some(s4);
    assert Read([Opening(key), inner, CLOSING], s1) == Some(s4);
  }

  lemma {:induction false} BoundsRun(lines: seq<Line>, i: nat, start: nat, end: nat)
    requires 0 < start <= i <= end <= |lines|
    requires forall j | i <= j < end :: !IsHeader(lines[j])
    requires end < |lines| ==> IsHeader(lines[end]) && !IsLlm(lines[end])
    ensures Bounds(lines, i, start) == (start, end)
    decreases end - i
  {
    if i < end { BoundsRun(lines, i + 1, start, end); }
  }

  /** A file that is one table: the editor works up to the first line that looks like a header. */
  lemma {:induction false} EditOfTable(body: seq<Line>, n: nat, updates: seq<Update>, uncomment: bool)
    requires n <= |body| && (forall j | 0 <= j < n :: !IsHeader(body[j])) && (n < |body| ==> IsHeader(body[n]) && !IsLlm(body[n]))
    ensures Edited([LLM] + body, updates, {}, uncomment) == [LLM] + SetAll(body[..n], updates, uncomment) + body[n..]
  {
    var lines := [LLM] + body;
    NoneCleared(lines, false);
    assert forall j | 0 <= j < |body| :: lines[j + 1] == body[j];
    BoundsRun(lines, 1, 1, n + 1);
    assert Bounds(lines, 0, 0) == (1, n + 1);
    assert lines + [] == lines;
    AfterHeader(body, n);
  }

  lemma {:induction false} AfterHeader(body: seq<Line>, n: nat)
    requires n <= |body|
    ensures var lines := [LLM] + body; lines[..1] == [LLM] && lines[1..n + 1] == body[..n] && lines[n + 1..] == body[n..]
  {
  }

  lemma {:induction false} OneUpdate(body: seq<Line>, w: Update, uncomment: bool)
    ensures SetAll(body, [w], uncomment) == SetKey(body, w, uncomment)
    ensures AsTable([w]) == map[w.look.key := w.look.value]
  {
    assert [w][..0] == [];
  }

  // ---------------------------------------------------------------- lines in a string

  lemma {:induction false} SecondMatches(a: Line, b: Line, c: Line, w: Update, uncomment: bool)
    requires !Matches(a, w.look.key, uncomment) && Matches(b, w.look.key, uncomment)
    ensures SetKey([a, b, c], w, uncomment) == [a, w, c]
  {
    SetKeyAt([a, b, c], w, uncomment, 1);
  }

  lemma {:induction false} MiddleDiffers(a: string, x: string, y: string, b: string)
    requires x != y
    ensures a + x + b != a + y + b
  {
    MiddleOf(a, x, b);
    MiddleOf(a, y, b);
  }

  lemma {:induction false} MiddleOf(a: string, x: string, b: string)
    ensures |a + x + b| == |a| + |x| + |b| && (a + x + b)[|a|..|a| + |x|] == x
  {
  }

  lemma {:induction false} TextsDiffer(key: string, previous: string, value: string)
    requires previous != value
    ensures Active(key, previous).text != Written(key, value).text
  {
    MiddleDiffers(key + " = ", previous, value, "");
    assert key + " = " + previous + "" == key + " = " + previous && key + " = " + value + "" == key + " = " + value;
  }

  /** A line of the prompt looks like the key that is updated: it is replaced, the prompt is another
      one, and the key is not set.  The text is valid, so nothing refuses it. */
  lemma {:induction false} LineOfPromptIsReplaced(prompt: string, key: string, previous: string, value: string, uncomment: bool)
    requires prompt != key && previous != value
    ensures
      var lines, w := [LLM, Opening(prompt), Active(key, previous), CLOSING], Written(key, value);
      var out := Edited(lines, [w], {}, uncomment);
      && ReadFile(lines).Some? && out == [LLM, Opening(prompt), w, CLOSING] && ReadFile(out).Some?
      && key !in TableOf(ReadFile(out).value, LLM_ID)
      && prompt in TableOf(ReadFile(lines).value, LLM_ID) && prompt in TableOf(ReadFile(out).value, LLM_ID)
      && TableOf(ReadFile(out).value, LLM_ID)[prompt] != TableOf(ReadFile(lines).value, LLM_ID)[prompt]
  {
    var body, w := [Opening(prompt), Active(key, previous), CLOSING], Written(key, value);
    var lines, out := [LLM, Opening(prompt), Active(key, previous), CLOSING], [LLM, Opening(prompt), w, CLOSING];
    EditOfTable(body, 3, [w], uncomment);
    OneUpdate(body, w, uncomment);
    SecondMatches(Opening(prompt), Active(key, previous), CLOSING, w, uncomment);
    assert lines == [LLM] + body && body[..3] == body && body[3..] == [];
    assert out == [LLM] + [Opening(prompt), w, CLOSING] + [];
    ReadsString(prompt, Active(key, previous), lines);
    ReadsString(prompt, w, out);
    TextsDiffer(key, previous, value);
    MiddleDiffers("\"\"\"" + "\n", Active(key, previous).text, w.text, "\n" + CLOSING.text);
    RegroupValue("\"\"\"" + "\n", Active(key, previous).text, CLOSING.text);
    RegroupValue("\"\"\"" + "\n", w.text, CLOSING.text);
  }

  lemma {:induction false} RegroupValue(a: string, x: string, c: string)
    ensures a + x + "\n" + c == a + x + ("\n" + c)
  {
  }

  /** A line of the prompt looks like a key that is cleared: it is missing from the prompt. */
  lemma {:induction false} LineOfPromptIsCleared(prompt: string, key: string, value: string)
    requires prompt != key
    ensures
      var lines := [LLM, Opening(prompt), Active(key, value), CLOSING];
      var out := Edited(lines, [], {key}, false);
      && ReadFile(lines).Some? && out == [LLM, Opening(prompt), CLOSING] && ReadFile(out).Some?
      && !ClearsInTable(lines, {key}) && !IsEditOf(lines, out, [], {key})
  {
    var lines, out := [LLM, Opening(prompt), Active(key, value), CLOSING], [LLM, Opening(prompt), CLOSING];
    ReadsString(prompt, Active(key, value), lines);
    ReadsShortString(prompt, out);
    ClearedThird(lines, key);
    EditOfTable([Opening(prompt), CLOSING], 2, [], false);
    assert out == [LLM] + [Opening(prompt), CLOSING];
    NoneCleared(out, false);
    EditedOfCleared(lines, out, {key}, false);
    assert [LLM] + [Opening(prompt), CLOSING][..2] + [Opening(prompt), CLOSING][2..] == out;
    PromptIsEditable(lines, prompt, key, value);
    EditIsRight(lines, [], {key}, false);
  }

  lemma {:induction false} ReadsShortString(key: string, lines: seq<Line>)
    requires lines == [LLM, Opening(key), CLOSING]
    ensures ReadFile(lines).Some?
  {
    assert lines[1..] == [Opening(key), CLOSING] && lines[1..][1..] == [CLOSING] && lines[1..][1..][1..] == [];
    var s1 := ReadLine(START, LLM).value;
    var s2 := ReadLine(s1, Opening(key)).value;
    var s3 := ReadLine(s2, CLOSING).value;
    assert Read([], s3) == Some(s3);
    assert Read([CLOSING], s2) == Some(s3);
    assert Read([Opening(key), CLOSING], s1) == Some(s3);
  }

  lemma {:induction false} ClearedThird(lines: seq<Line>, key: string)
    requires |lines| == 4 && lines[0] == LLM && !IsHeader(lines[1]) && !IsHeader(lines[2]) && !IsHeader(lines[3])
    requires !Mentions(lines[1], {key}) && Mentions(lines[2], {key}) && !Mentions(lines[3], {key})
    ensures Cleared(lines, {key}, false) == [lines[0], lines[1], lines[3]]
  {
    var l1, l2, l3 := lines[1..], lines[1..][1..], lines[1..][1..][1..];
    assert l1[0] == lines[1] && l2[0] == lines[2] && l3[0] == lines[3] && l3[1..] == [];
    assert Cleared(l3, {key}, true) == [lines[3]] + Cleared([], {key}, true);
    assert Cleared(l2, {key}, true) == [] + Cleared(l3, {key}, true);
    assert Cleared(l1, {key}, true) == [lines[1]] + Cleared(l2, {key}, true);
  }

  /** Without updates, the edit is the clearing. */
  lemma {:induction false} EditedOfCleared(lines: seq<Line>, out: seq<Line>, clear: set<string>, uncomment: bool)
    requires Cleared(lines, clear, false) == out
    ensures Edited(lines, [], clear, uncomment) == out
  {
    EditedInParts(lines, [], clear, uncomment, PartsAfter(lines, clear, []));
    var base := Base(lines, clear, []);
    var (start, end) := Bounds(base, 0, 0);
    assert out + [] == out;
    assert base[..start] + base[start..end] + base[end..] == base;
  }

  lemma {:induction false} PromptIsEditable(lines: seq<Line>, prompt: string, key: string, value: string)
    requires prompt != key && lines == [LLM, Opening(prompt), Active(key, value), CLOSING]
    requires ReadFile(lines).Some?
    ensures Editable(lines, [], {key}) && OneLineValues(lines, [], {key}) && !ClearsInTable(lines, {key})
  {
    var l1, l2, l3 := lines[1..], lines[1..][1..], lines[1..][1..][1..];
    assert l1[0] == Opening(prompt) && l2[0] == Active(key, value) && l3[0] == CLOSING && l3[1..] == [];
    var q := Pos(In(Basic), true);
    assert Next(TOP, LLM) == TABLE && Next(TABLE, Opening(prompt)) == q && Next(q, Active(key, value)) == q;
    assert DropsPlain(l3, {key}, true, q);
    assert DropsPlain(l2, {key}, true, q);
    assert DropsPlain(l1, {key}, true, TABLE);
    assert !DropsInTable(l2, {key}, true, q);
    assert !DropsInTable(l1, {key}, true, TABLE);
    NoMatchesOfNone(PartsOf(Base(lines, {key}, [])).body, Along(PartsOf(Base(lines, {key}, [])).pre, TOP));
  }

  lemma {:induction false} NoMatchesOfNone(body: seq<Line>, p: Pos)
    ensures MatchesPlain(body, KeysOf([]), p)
    decreases |body|
  {
    if body != [] { NoMatchesOfNone(body[1..], Next(p, body[0])); }
  }

  /** A line of the prompt looks like a header: the scan ends there, and the new line goes into the
      prompt. */
  lemma {:induction false} HeaderInPromptTakesTheLine(prompt: string, section: string, key: string, value: string, uncomment: bool)
    requires prompt != key && section != TABLE_NAME
    ensures
      var inner := Line(Header(section, true), "[" + section + "]", None, GoesOn, GoesOn, false);
      var lines, w := [LLM, Opening(prompt), inner, CLOSING], Written(key, value);
      var out := Edited(lines, [w], {}, uncomment);
      && ReadFile(lines).Some? && out == [LLM, Opening(prompt), w, inner, CLOSING] && ReadFile(out).Some?
      && key !in TableOf(ReadFile(out).value, LLM_ID)
  {
    var inner := Line(Header(section, true), "[" + section + "]", None, GoesOn, GoesOn, false);
    var w := Written(key, value);
    var body, lines := [Opening(prompt), inner, CLOSING], [LLM, Opening(prompt), inner, CLOSING];
    EditOfTable(body, 1, [w], uncomment);
    OneUpdate(body[..1], w, uncomment);
    assert body[..1] == [Opening(prompt)] && body[1..] == [inner, CLOSING];
    SetKeyAt([Opening(prompt)], w, uncomment, 1);
    assert lines == [LLM] + body;
    ReadsString(prompt, inner, lines);
    ReadsTwo(prompt, w, inner, [LLM, Opening(prompt), w, inner, CLOSING]);
  }

  lemma {:induction false} ReadsTwo(key: string, x: Line, y: Line, lines: seq<Line>)
    requires x.basic.GoesOn? && y.basic.GoesOn? && lines == [LLM, Opening(key), x, y, CLOSING]
    ensures ReadFile(lines).Some? && TableOf(ReadFile(lines).value, LLM_ID).Keys == {key}
  {
    var l1 := lines[1..];
    assert l1 == [Opening(key), x, y, CLOSING];
    FourLines(Opening(key), x, y, CLOSING, START);
    var s1 := ReadLine(START, LLM).value;
    var s2 := ReadLine(s1, Opening(key)).value;
    var s3 := ReadLine(s2, x).value;
    var s4 := ReadLine(s3, y).value;
    var s5 := ReadLine(s4, CLOSING).value;
    var none: Table := map[];
    assert TableOf(s1, LLM_ID) == none && TableOf(s2, LLM_ID) == map[key := "\"\"\""];
    assert Read([], s5) == Some(s5);
    assert Read([CLOSING], s4) == Some(s5);
    assert Read([y, CLOSING], s3) == Some(s5);
    assert Read([x, y, CLOSING], s2) == Some(s5);
    assert Read(l1, s1) == Some(s5);
  }

  // ---------------------------------------------------------------- a table that the editor does not see

  /** A header in another spelling, as `["llm"]`: clearing a key leaves the file as it is, with the key. */
  lemma {:induction false} HiddenTableKeepsTheKey(key: string, value: string)
    ensures
      var lines := [Line(Header(TABLE_NAME, false), "[\"llm\"]", None, GoesOn, GoesOn, false), Active(key, value)];
      && ReadFile(lines).Some? && Edited(lines, [], {key}, false) == lines
      && key in TableOf(ReadFile(lines).value, LLM_ID)
      && !IsEditOf(lines, lines, [], {key})
  {
    var header := Line(Header(TABLE_NAME, false), "[\"llm\"]", None, GoesOn, GoesOn, false);
    var lines := [header, Active(key, value)];
    var last := [Active(key, value)];
    assert lines[1..] == last && last[1..] == [];
    var s1 := ReadLine(START, header).value;
    var s2 := ReadLine(s1, Active(key, value)).value;
    var none: Table := map[];
    assert TableOf(s1, LLM_ID) == none && TableOf(s2, LLM_ID) == map[key := value];
    assert Read([], s2) == Some(s2) && Read(last, s1) == Some(s2);
    assert Cleared(last, {key}, false) == last + Cleared([], {key}, false);
    assert Cleared(lines, {key}, false) == lines;
    EditedOfCleared(lines, lines, {key}, false);
    assert AsTable([]) == map[];
  }

  // ---------------------------------------------------------------- refused

  /** The first line of the prompt itself is replaced: the words below it are no TOML. */
  lemma {:induction false} PromptIsRefused(prompt: string, words: Line, value: string, uncomment: bool)
    requires words.look.Junk? && words.basic.GoesOn?
    ensures
      var lines, w := [LLM, Opening(prompt), words, CLOSING], Written(prompt, value);
      ReadFile(lines).Some? && ReadFile(Edited(lines, [w], {}, uncomment)).None?
  {
    var lines, w := [LLM, Opening(prompt), words, CLOSING], Written(prompt, value);
    var body := [Opening(prompt), words, CLOSING];
    EditOfTable(body, 3, [w], uncomment);
    OneUpdate(body, w, uncomment);
    SetKeyAt(body, w, uncomment, 0);
    assert lines == [LLM] + body && body[..3] == body && body[3..] == [];
    ReadsString(prompt, words, lines);
    var out := [LLM, w, words, CLOSING];
    assert body[0 := w] == [w, words, CLOSING];
    assert Edited(lines, [w], {}, uncomment) == out;
    assert out == [LLM] + [w, words, CLOSING] + [];
    ReadsJunk(w, words, out);
  }

  lemma {:induction false} ReadsJunk(w: Update, words: Line, lines: seq<Line>)
    requires words.look.Junk? && lines == [LLM, w, words, CLOSING]
    ensures ReadFile(lines).None?
  {
    FourLines(LLM, w, words, CLOSING, START);
    var s1 := ReadLine(START, LLM).value;
    var s2 := ReadLine(s1, w).value;
    assert s2.mode.Out? && ReadLine(s2, words) == None && Read([words, CLOSING], s2) == None;
    assert Read([w, words, CLOSING], s1) == None;
  }

  const NOTE_CLOSING := Line(Note, "# \"\"\"", None, Ends, GoesOn, false)

  /** The first line of the prompt is replaced, a line below it reads as a key, and the last one as a
      comment: the text is valid, and the key is a new one. */
  lemma {:induction false} PromptLeavesAKey(prompt: string, other: string, previous: string, value: string, uncomment: bool)
    requires prompt != other
    ensures
      var lines, w := [LLM, Opening(prompt), Active(other, previous), NOTE_CLOSING], Written(prompt, value);
      var out := Edited(lines, [w], {}, uncomment);
      && ReadFile(lines).Some? && other !in TableOf(ReadFile(lines).value, LLM_ID)
      && ReadFile(out).Some? && other in TableOf(ReadFile(out).value, LLM_ID)
  {
    var lines, w := [LLM, Opening(prompt), Active(other, previous), NOTE_CLOSING], Written(prompt, value);
    var body := [Opening(prompt), Active(other, previous), NOTE_CLOSING];
    EditOfTable(body, 3, [w], uncomment);
    OneUpdate(body, w, uncomment);
    SetKeyAt(body, w, uncomment, 0);
    assert lines == [LLM] + body && body[..3] == body && body[3..] == [];
    assert body[0 := w] == [w, Active(other, previous), NOTE_CLOSING];
    assert Edited(lines, [w], {}, uncomment) == [LLM, w, Active(other, previous), NOTE_CLOSING];
    ReadsPrompt(prompt, other, previous, lines);
    ReadsTwoKeys(w, other, previous, [LLM, w, Active(other, previous), NOTE_CLOSING]);
  }

  lemma {:induction false} ReadsPrompt(prompt: string, other: string, value: string, lines: seq<Line>)
    requires prompt != other && lines == [LLM, Opening(prompt), Active(other, value), NOTE_CLOSING]
    ensures ReadFile(lines).Some? && TableOf(ReadFile(lines).value, LLM_ID).Keys == {prompt}
  {
    FourLines(LLM, Opening(prompt), Active(other, value), NOTE_CLOSING, START);
    var s1 := ReadLine(START, LLM).value;
    var s2 := ReadLine(s1, Opening(prompt)).value;
    var s3 := ReadLine(s2, Active(other, value)).value;
    var s4 := ReadLine(s3, NOTE_CLOSING).value;
    var none: Table := map[];
    assert TableOf(s1, LLM_ID) == none && TableOf(s2, LLM_ID) == map[prompt := "\"\"\""];
    assert Read([], s4) == Some(s4);
    assert Read([NOTE_CLOSING], s3) == Some(s4);
    assert Read([Active(other, value), NOTE_CLOSING], s2) == Some(s4);
    assert Read([Opening(prompt), Active(other, value), NOTE_CLOSING], s1) == Some(s4);
  }

  lemma {:induction false} ReadsTwoKeys(w: Update, other: string, value: string, lines: seq<Line>)
    requires w.look.key != other && lines == [LLM, w, Active(other, value), NOTE_CLOSING]
    ensures ReadFile(lines).Some? && other in TableOf(ReadFile(lines).value, LLM_ID)
  {
    FourLines(LLM, w, Active(other, value), NOTE_CLOSING, START);
    var s1 := ReadLine(START, LLM).value;
    var s2 := ReadLine(s1, w).value;
    var none: Table := map[];
    assert TableOf(s1, LLM_ID) == none && TableOf(s2, LLM_ID) == map[w.look.key := w.look.value];
    var s3 := ReadLine(s2, Active(other, value)).value;
    assert Read([], s3) == Some(s3) && ReadLine(s3, NOTE_CLOSING) == Some(s3);
    assert Read([NOTE_CLOSING], s3) == Some(s3);
    assert Read([Active(other, value), NOTE_CLOSING], s2) == Some(s3);
    assert Read([w, Active(other, value), NOTE_CLOSING], s1) == Some(s3);
  }

  /** With `uncomment`, a template example above the active line of its key: the key would stand twice. */
  lemma {:induction false} ExampleAboveActiveLineIsRefused(key: string, example: string, previous: string, value: string)
    ensures
      var lines, w := [LLM, Commented(key, example), Active(key, previous)], Written(key, value);
      && ReadFile(lines).Some?
      && ReadFile(Edited(lines, [w], {}, true)).None?
      && Edited(lines, [w], {}, false) == [LLM, Commented(key, example), w]
  {
    var lines, w := [LLM, Commented(key, example), Active(key, previous)], Written(key, value);
    var body := [Commented(key, example), Active(key, previous)];
    EditOfTable(body, 2, [w], true);
    EditOfTable(body, 2, [w], false);
    OneUpdate(body, w, true);
    OneUpdate(body, w, false);
    SetKeyAt(body, w, true, 0);
    SetKeyAt(body, w, false, 1);
    assert lines == [LLM] + body && body[..2] == body && body[2..] == [];
    assert [LLM] + [w, Active(key, previous)] + [] == [LLM, w, Active(key, previous)];
    assert [LLM] + [Commented(key, example), w] + [] == [LLM, Commented(key, example), w];
    assert body[0 := w] == [w, Active(key, previous)] && body[1 := w] == [Commented(key, example), w];
    assert Edited(lines, [w], {}, true) == [LLM, w, Active(key, previous)];
    ReadsThree(Commented(key, example), Active(key, previous), lines);
    ReadsThree(w, Active(key, previous), [LLM, w, Active(key, previous)]);
  }

  lemma {:induction false} ReadsThree(a: Line, b: Line, lines: seq<Line>)
    requires lines == [LLM, a, b]
    ensures ReadFile(lines) ==
      match ReadLine(ReadLine(START, LLM).value, a)
      case None => None
      case Some(s) => match ReadLine(s, b) case None => None case Some(s') => if s'.mode.Out? then Some(s') else None
  {
    var ab, last, none: seq<Line> := [a, b], [b], [];
    assert lines[1..] == ab && ab[1..] == last && last[1..] == none;
    var s1 := ReadLine(START, LLM).value;
    assert Read(lines, START) == Read(ab, s1);
    if ReadLine(s1, a).Some? {
      var s2 := ReadLine(s1, a).value;
      assert Read(ab, s1) == Read(last, s2);
      if ReadLine(s2, b).Some? {
        assert Read(last, s2) == Read(none, ReadLine(s2, b).value);
      }
    }
  }
}
