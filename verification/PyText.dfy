/** The string operations that the two text rewriters use: `strip`, `splitlines`, `join`.

    Reading a text file has turned every carriage return into a newline, so there is none left. */
module PyText {
  import opened Collections

  predicate IsSpace(c: char) {
    || '\t' <= c <= '\r' || '\U{1C}' <= c <= ' ' || c == '\U{85}' || c == '\U{A0}' || c == '\U{1680}'
    || '\U{2000}' <= c <= '\U{200A}' || c == '\U{2028}' || c == '\U{2029}' || c == '\U{202F}' || c == '\U{205F}' || c == '\U{3000}'
  }

  function LStrip(s: string): (r: string)
    ensures |r| <= |s| && r == s[|s| - |r|..]
    ensures r == [] || !IsSpace(r[0])
  {
    if s == [] || !IsSpace(s[0]) then s else LStrip(s[1..])
  }

  function RStrip(s: string): (r: string)
    ensures |r| <= |s| && r == s[..|r|]
    ensures r == [] || !IsSpace(r[|r| - 1])
  {
    if s == [] || !IsSpace(s[|s| - 1]) then s else RStrip(s[..|s| - 1])
  }

  function Strip(s: string): string { RStrip(LStrip(s)) }

  /** Text without blanks at its ends is its own strip. */
  lemma {:induction false} StripKeeps(s: string)
    requires s == [] || (!IsSpace(s[0]) && !IsSpace(s[|s| - 1]))
    ensures Strip(s) == s
  {
  }

  lemma {:induction false} StripSpaceBefore(s: string)
    ensures Strip([' '] + s) == Strip(s)
  {
    assert ([' '] + s)[1..] == s;
    assert LStrip([' '] + s) == LStrip(s);
  }

  predicate AllSpace(s: string) { forall i | 0 <= i < |s| :: IsSpace(s[i]) }

  lemma {:induction false} LStripBlanks(before: string, s: string)
    requires AllSpace(before) && (s == "" || !IsSpace(s[0]))
    ensures LStrip(before + s) == s
    decreases |before|
  {
    if before == "" {
      assert before + s == s;
    } else {
      assert (before + s)[1..] == before[1..] + s;
      LStripBlanks(before[1..], s);
    }
  }

  lemma {:induction false} RStripBlanks(s: string, after: string)
    requires AllSpace(after) && (s == "" || !IsSpace(s[|s| - 1]))
    ensures RStrip(s + after) == s
    decreases |after|
  {
    if after == "" {
      assert s + after == s;
    } else {
      assert (s + after)[..|s + after| - 1] == s + after[..|after| - 1];
      RStripBlanks(s, after[..|after| - 1]);
    }
  }

  lemma {:induction false} StripBlanks(before: string, s: string, after: string)
    requires AllSpace(before) && AllSpace(after) && s != "" && !IsSpace(s[0]) && !IsSpace(s[|s| - 1])
    ensures Strip(before + s + after) == s
  {
    assert before + s + after == before + (s + after);
    LStripBlanks(before, s + after);
    RStripBlanks(s, after);
  }

  predicate StartsWith(s: string, p: string) { p <= s }

  /** What `splitlines` splits at. */
  predicate IsBreak(c: char) {
    '\n' <= c <= '\r' || '\U{1C}' <= c <= '\U{1E}' || c == '\U{85}' || c == '\U{2028}' || c == '\U{2029}'
  }

  predicate IsLine(s: string) { forall i | 0 <= i < |s| :: !IsBreak(s[i]) }

  predicate AreLines(ls: seq<string>) { forall i | 0 <= i < |ls| :: IsLine(ls[i]) }

  function LineEnd(t: string): (k: nat)
    ensures k <= |t| && IsLine(t[..k]) && (k < |t| ==> IsBreak(t[k]))
  {
    if t == [] || IsBreak(t[0]) then 0
    else
      var k := LineEnd(t[1..]);
      assert forall i | 0 < i < k + 1 :: t[i] == t[1..][..k][i - 1];
      k + 1
  }

  function SplitLines(t: string): (ls: seq<string>)
    ensures AreLines(ls)
    decreases |t|
  {
    var k := LineEnd(t);
    if t == [] then [] else if k == |t| then [t] else [t[..k]] + SplitLines(t[k + 1..])
  }

  /** The lines, each with a newline after it. */
  function Unlines(ls: seq<string>): string {
    if ls == [] then [] else ls[0] + "\n" + Unlines(ls[1..])
  }

  /** `"\n".join(ls)`. */
  function JoinLines(ls: seq<string>): string {
    if ls == [] then [] else if |ls| == 1 then ls[0] else ls[0] + "\n" + JoinLines(ls[1..])
  }

  lemma {:induction false} JoinIsUnlines(ls: seq<string>)
    requires ls != []
    ensures JoinLines(ls) + "\n" == Unlines(ls)
  {
    if |ls| > 1 {
      JoinIsUnlines(ls[1..]);
      assert ls[0] + "\n" + JoinLines(ls[1..]) + "\n" == ls[0] + "\n" + (JoinLines(ls[1..]) + "\n");
    } else {
      assert Unlines(ls[1..]) == [];
      assert ls[0] + "\n" + [] == ls[0] + "\n";
    }
  }

  lemma {:induction false} LineEndOf(l: string, rest: string)
    requires IsLine(l) && (rest == [] || IsBreak(rest[0]))
    ensures LineEnd(l + rest) == |l|
    decreases |l|
  {
    if l == [] {
      assert l + rest == rest;
    } else {
      assert (l + rest)[1..] == l[1..] + rest;
      LineEndOf(l[1..], rest);
    }
  }

  /** A line with its break splits off. */
  lemma {:induction false} SplitAt(l: string, b: char, rest: string)
    requires IsLine(l) && IsBreak(b)
    ensures SplitLines(l + ([b] + rest)) == [l] + SplitLines(rest)
  {
    var t := l + ([b] + rest);
    LineEndOf(l, [b] + rest);
    assert t[..|l|] == l && t[|l| + 1..] == rest;
  }

  lemma {:induction false} SplitFirst(l: string, rest: string)
    requires IsLine(l)
    ensures SplitLines(l + "\n" + rest) == [l] + SplitLines(rest)
  {
    assert l + "\n" + rest == l + (['\n'] + rest);
    SplitAt(l, '\n', rest);
  }

  /** Splitting what was written line by line gives the lines back. */
  lemma {:induction false} SplitUnlines(ls: seq<string>, rest: string)
    requires AreLines(ls)
    ensures SplitLines(Unlines(ls) + rest) == ls + SplitLines(rest)
  {
    if ls == [] {
      assert Unlines(ls) + rest == rest;
    } else {
      var tail := Unlines(ls[1..]);
      assert Unlines(ls) + rest == ls[0] + "\n" + (tail + rest);
      SplitFirst(ls[0], tail + rest);
      SplitUnlines(ls[1..], rest);
      HeadAndTail(ls, SplitLines(rest));
    }
  }

  predicate EndsInBreak(t: string) { t != [] && IsBreak(t[|t| - 1]) }

  /** A newline and more text after any text: it ends the last line, or it is an empty line of its
      own where the text ended in a break. */
  lemma {:induction false} SplitAppend(t: string, rest: string)
    requires t != []
    ensures SplitLines(t + "\n" + rest) == SplitLines(t) + (if EndsInBreak(t) then [""] else []) + SplitLines(rest)
    decreases |t|, 1
  {
    var k := LineEnd(t);
    if k == |t| {
      assert t[..k] == t;
      SplitFirst(t, rest);
    } else {
      var l, tail := t[..k], t[k + 1..];
      assert t == l + ([t[k]] + tail);
      assert t + "\n" + rest == l + ([t[k]] + (tail + "\n" + rest));
      SplitAt(l, t[k], tail);
      SplitAt(l, t[k], tail + "\n" + rest);
      AppendToTail(l, t[k], tail, rest);
    }
  }

  lemma {:induction false} AppendToTail(l: string, b: char, tail: string, rest: string)
    requires IsBreak(b)
    ensures
      [l] + SplitLines(tail + "\n" + rest) ==
      [l] + SplitLines(tail) + (if EndsInBreak(l + ([b] + tail)) then [""] else []) + SplitLines(rest)
    decreases |tail|, 2
  {
    if tail == [] {
      assert tail + "\n" + rest == "" + "\n" + rest;
      SplitFirst("", rest);
    } else {
      SplitAppend(tail, rest);
    }
  }

  predicate OnlyNewlines(t: string) { forall i | 0 <= i < |t| :: IsBreak(t[i]) ==> t[i] == '\n' }

  lemma {:induction false} JoinCons(l: string, ls: seq<string>)
    requires ls != []
    ensures JoinLines([l] + ls) == l + "\n" + JoinLines(ls)
  {
    assert ([l] + ls)[1..] == ls;
  }

  /** A text that breaks lines only with newlines, and ends in none, is the join of its lines. */
  lemma {:induction false} JoinSplit(t: string)
    requires OnlyNewlines(t) && !EndsInBreak(t)
    ensures JoinLines(SplitLines(t)) == t
    decreases |t|
  {
    var k := LineEnd(t);
    if t != [] && k < |t| {
      var l, tail := t[..k], t[k + 1..];
      TailOfText(t, k);
      JoinSplit(tail);
      SplitFirst(l, tail);
      JoinCons(l, SplitLines(tail));
    } else {
      assert t[..k] == t;
    }
  }

  lemma {:induction false} TailOfText(t: string, k: nat)
    requires OnlyNewlines(t) && !EndsInBreak(t) && k < |t| && IsBreak(t[k])
    ensures t == t[..k] + "\n" + t[k + 1..]
    ensures OnlyNewlines(t[k + 1..]) && !EndsInBreak(t[k + 1..]) && SplitLines(t[k + 1..]) != []
  {
    var tail := t[k + 1..];
    assert t[|t| - 1] != t[k] || k < |t| - 1;
    assert tail != [] && tail[|tail| - 1] == t[|t| - 1];
    forall i | 0 <= i < |tail| && IsBreak(tail[i]) ensures tail[i] == '\n' { assert tail[i] == t[k + 1 + i]; }
  }

  /** `rstrip("\n")`. */
  function RStripNewlines(s: string): (r: string)
    ensures |r| <= |s| && r == s[..|r|]
    ensures r == [] || r[|r| - 1] != '\n'
    ensures forall i | |r| <= i < |s| :: s[i] == '\n'
  {
    if s == [] || s[|s| - 1] != '\n' then s else RStripNewlines(s[..|s| - 1])
  }
}
