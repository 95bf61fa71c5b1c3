/** The lines of a text as git reads them, and what it trims from a line. */
module GitText {
  import opened PyText

  /** Git cuts the spaces at the end of a line, and no other blanks. */
  function GitTrim(line: string): string {
    if line == [] || line[|line| - 1] != ' ' then line else GitTrim(line[..|line| - 1])
  }

  lemma {:induction false} StripAfterTrim(line: string)
    requires GitTrim(line) != "" && !IsSpace(GitTrim(line)[0])
    ensures Strip(line) == RStrip(GitTrim(line))
    decreases |line|
  {
    RStripAfterTrim(line);
    TrimIsPrefix(line);
    assert LStrip(line) == line;
  }

  lemma {:induction false} TrimIsPrefix(line: string)
    ensures GitTrim(line) <= line
  {
    if line != [] && line[|line| - 1] == ' ' { TrimIsPrefix(line[..|line| - 1]); }
  }

  lemma {:induction false} RStripAfterTrim(line: string)
    ensures RStrip(line) == RStrip(GitTrim(line))
  {
    if line != [] && line[|line| - 1] == ' ' { RStripAfterTrim(line[..|line| - 1]); }
  }

  lemma {:induction false} TrimmedHalf(line: string, half: string)
    requires GitTrim(line) == half && half != "" && !IsSpace(half[0]) && !IsSpace(half[|half| - 1])
    ensures Strip(line) == half
  {
    StripAfterTrim(line);
  }

  lemma {:induction false} StrippedEnd(line: string)
    requires Strip(line) == line
    ensures GitTrim(line) == line
  {
    StripEnds(line);
  }

  lemma {:induction false} StripEnds(s: string)
    ensures Strip(s) == "" || !IsSpace(Strip(s)[|Strip(s)| - 1])
  {
  }

  function NewlineAt(t: string): (k: nat)
    ensures k <= |t| && (forall i | 0 <= i < k :: t[i] != '\n') && (k < |t| ==> t[k] == '\n')
  {
    if t == [] || t[0] == '\n' then 0
    else
      var k := NewlineAt(t[1..]);
      assert forall i | 0 < i < k + 1 :: t[i] == t[1..][i - 1];
      k + 1
  }

  /** Git breaks lines at newlines only. */
  function GitLines(t: string): seq<string>
    decreases |t|
  {
    var k := NewlineAt(t);
    if t == [] then [] else if k == |t| then [t] else [t[..k]] + GitLines(t[k + 1..])
  }

  lemma {:induction false} GitSplitAt(l: string, rest: string)
    requires '\n' !in l
    ensures GitLines(l + (['\n'] + rest)) == [l] + GitLines(rest)
  {
    var t := l + (['\n'] + rest);
    assert forall i | 0 <= i < |l| :: t[i] == l[i];
    assert t[|l|] == '\n';
    assert NewlineAt(t) == |l|;
    assert t[..|l|] == l && t[|l| + 1..] == rest;
  }

  lemma {:induction false} GitUnlines(ls: seq<string>)
    requires forall i | 0 <= i < |ls| :: '\n' !in ls[i]
    ensures GitLines(Unlines(ls)) == ls
  {
    if ls != [] {
      GitUnlines(ls[1..]);
      assert Unlines(ls) == ls[0] + (['\n'] + Unlines(ls[1..]));
      GitSplitAt(ls[0], Unlines(ls[1..]));
    }
  }

  predicate EndsInNewline(t: string) { t != "" && t[|t| - 1] == '\n' }

  lemma {:induction false} EndOfTail(l: string, tail: string)
    ensures EndsInNewline(l + (['\n'] + tail)) <==> tail == "" || EndsInNewline(tail)
  {
  }

  lemma {:induction false} Prepend(l: string, a: seq<string>, b: seq<string>, c: seq<string>)
    ensures [l] + (a + b + c) == ([l] + a) + b + c
  {
  }

  lemma {:induction false} RegroupTail(l: string, tail: string, rest: string)
    ensures l + (['\n'] + tail) + "\n" + rest == l + (['\n'] + (tail + "\n" + rest))
  {
  }

  function BlankAfter(tail: string): seq<string> { if tail == "" || EndsInNewline(tail) then [""] else [] }

  lemma {:induction false} GitAppendToTail(l: string, tail: string, rest: string)
    requires '\n' !in l && GitLines(tail + "\n" + rest) == GitLines(tail) + BlankAfter(tail) + GitLines(rest)
    ensures
      var t := l + (['\n'] + tail);
      GitLines(t + "\n" + rest) == GitLines(t) + (if EndsInNewline(t) then [""] else []) + GitLines(rest)
  {
    GitSplitAt(l, tail);
    GitSplitAt(l, tail + "\n" + rest);
    RegroupTail(l, tail, rest);
    EndOfTail(l, tail);
    Prepend(l, GitLines(tail), BlankAfter(tail), GitLines(rest));
  }

  lemma {:induction false} GitAppendToLine(t: string, rest: string)
    requires t != "" && '\n' !in t
    ensures GitLines(t + "\n" + rest) == GitLines(t) + (if EndsInNewline(t) then [""] else []) + GitLines(rest)
  {
    assert t + "\n" + rest == t + (['\n'] + rest);
    GitSplitAt(t, rest);
    assert NewlineAt(t) == |t| && GitLines(t) == [t];
    assert [t] + [] == [t];
  }

  /** A newline and more text after any text: it ends the last line, or it is an empty line of its
      own where the text ended in a newline. */
  lemma {:induction false} GitAppend(t: string, rest: string)
    requires t != ""
    ensures GitLines(t + "\n" + rest) == GitLines(t) + (if EndsInNewline(t) then [""] else []) + GitLines(rest)
    decreases |t|, 0
  {
    var k := NewlineAt(t);
    if k == |t| {
      GitAppendToLine(t, rest);
    } else {
      var l, tail := t[..k], t[k + 1..];
      assert '\n' !in l && t == l + (['\n'] + tail);
      GitTail(tail, rest);
      GitAppendToTail(l, tail, rest);
    }
  }

  lemma {:induction false} GitBlank(rest: string)
    ensures GitLines("" + "\n" + rest) == GitLines("") + [""] + GitLines(rest)
  {
    assert "" + "\n" + rest == "" + (['\n'] + rest);
    GitSplitAt("", rest);
    assert GitLines("") == [] && [] + [""] == [""];
  }

  lemma {:induction false} GitTail(tail: string, rest: string)
    ensures GitLines(tail + "\n" + rest) == GitLines(tail) + BlankAfter(tail) + GitLines(rest)
    decreases |tail|, 1
  {
    if tail == "" {
      GitBlank(rest);
    } else {
      GitAppend(tail, rest);
    }
  }
}
