/** `escape_like`: three replacements in order, and what the result matches under SQL LIKE with
    ESCAPE '\'. */
module LikeEscape {

  /** `str.replace` of one character. */
  function Replace(s: string, c: char, with: string): string {
    if s == [] then [] else (if s[0] == c then with else [s[0]]) + Replace(s[1..], c, with)
  }

  function Escape(value: string): string {
    Replace(Replace(Replace(value, '\\', "\\\\"), '%', "\\%"), '_', "\\_")
  }

  predicate Special(c: char) { c == '\\' || c == '%' || c == '_' }

  /** The same in one pass: a backslash before each special character. */
  function EscapeEach(s: string): string {
    if s == [] then [] else (if Special(s[0]) then ['\\', s[0]] else [s[0]]) + EscapeEach(s[1..])
  }

  lemma {:induction false} ReplaceConcat(a: string, b: string, c: char, with: string)
    ensures Replace(a + b, c, with) == Replace(a, c, with) + Replace(b, c, with)
  {
    if a == [] {
      assert a + b == b;
    } else {
      assert (a + b)[1..] == a[1..] + b;
      ReplaceConcat(a[1..], b, c, with);
    }
  }

  lemma {:induction false} ReplaceShort(x: char, y: char, c: char, with: string)
    ensures Replace([x], c, with) == if x == c then with else [x]
    ensures Replace([x, y], c, with) == (if x == c then with else [x]) + (if y == c then with else [y])
  {
    assert [x][1..] == [] && [x, y][1..] == [y] && [y][1..] == [];
    assert Replace([y], c, with) == if y == c then with else [y];
  }

  lemma {:induction false} EscapeOne(c: char)
    ensures Escape([c]) == if Special(c) then ['\\', c] else [c]
  {
    ReplaceShort(c, c, '\\', "\\\\");
    if c == '\\' {
      ReplaceShort('\\', '\\', '%', "\\%");
      ReplaceShort('\\', '\\', '_', "\\_");
    } else {
      ReplaceShort(c, c, '%', "\\%");
      if c == '%' { ReplaceShort('\\', '%', '_', "\\_"); } else { ReplaceShort(c, c, '_', "\\_"); }
    }
  }

  lemma {:induction false} EscapeConcat(a: string, b: string)
    ensures Escape(a + b) == Escape(a) + Escape(b)
  {
    ReplaceConcat(a, b, '\\', "\\\\");
    var a1, b1 := Replace(a, '\\', "\\\\"), Replace(b, '\\', "\\\\");
    ReplaceConcat(a1, b1, '%', "\\%");
    ReplaceConcat(Replace(a1, '%', "\\%"), Replace(b1, '%', "\\%"), '_', "\\_");
  }

  /** The ordered replacements do not escape their own backslashes. */
  lemma {:induction false} ReplacementsAreOneEscape(value: string)
    ensures Escape(value) == EscapeEach(value)
  {
    if value == [] {
    } else {
      assert value == [value[0]] + value[1..];
      EscapeConcat([value[0]], value[1..]);
      EscapeOne(value[0]);
      ReplacementsAreOneEscape(value[1..]);
    }
  }

  // ---------------------------------------------------------------- the order of the replacements

  function EscapeBackslashLast(value: string): string {
    Replace(Replace(Replace(value, '%', "\\%"), '_', "\\_"), '\\', "\\\\")
  }

  function Wildcards(s: string): nat {
    if s == [] then 0 else (if s[0] == '%' || s[0] == '_' then 1 else 0) + Wildcards(s[1..])
  }

  lemma {:induction false} BackslashLastOne(c: char)
    ensures EscapeBackslashLast([c]) == if c == '%' || c == '_' then ['\\', '\\', c] else if c == '\\' then "\\\\" else [c]
  {
    ReplaceShort(c, c, '%', "\\%");
    if c == '%' {
      ReplaceShort('\\', '%', '_', "\\_");
      ReplaceShort('\\', '%', '\\', "\\\\");
    } else {
      ReplaceShort(c, c, '_', "\\_");
      if c == '_' { ReplaceShort('\\', '_', '\\', "\\\\"); } else { ReplaceShort(c, c, '\\', "\\\\"); }
    }
  }

  lemma {:induction false} BackslashLastIsLonger(value: string)
    ensures |EscapeBackslashLast(value)| == |Escape(value)| + Wildcards(value)
    ensures Wildcards(value) == 0 ==> EscapeBackslashLast(value) == Escape(value)
  {
    if value == [] {
    } else {
      var a, b := [value[0]], value[1..];
      assert value == a + b;
      EscapeConcat(a, b);
      EscapeOne(value[0]);
      BackslashLastOne(value[0]);
      ReplaceConcat(a, b, '%', "\\%");
      var a1, b1 := Replace(a, '%', "\\%"), Replace(b, '%', "\\%");
      ReplaceConcat(a1, b1, '_', "\\_");
      ReplaceConcat(Replace(a1, '_', "\\_"), Replace(b1, '_', "\\_"), '\\', "\\\\");
      BackslashLastIsLonger(b);
    }
  }

  /** The order matters: with the backslash last, the result is right only without wildcards. */
  lemma {:induction false} OrderMattersExactly(value: string)
    ensures EscapeBackslashLast(value) == Escape(value) <==> Wildcards(value) == 0
  {
    BackslashLastIsLonger(value);
  }

  // ---------------------------------------------------------------- LIKE

  /** `s LIKE p ESCAPE '\'`; `fold` is the case folding of the comparison. */
  ghost predicate Like(p: string, s: string, fold: char -> char)
    decreases |p| + |s|
  {
    if p == [] then s == []
    else if p[0] == '\\' then |p| > 1 && s != [] && fold(p[1]) == fold(s[0]) && Like(p[2..], s[1..], fold)
    else if p[0] == '%' then Like(p[1..], s, fold) || (s != [] && Like(p, s[1..], fold))
    else if p[0] == '_' then s != [] && Like(p[1..], s[1..], fold)
    else s != [] && fold(p[0]) == fold(s[0]) && Like(p[1..], s[1..], fold)
  }

  ghost predicate SameFolded(a: string, b: string, fold: char -> char) {
    |a| == |b| && forall i | 0 <= i < |a| :: fold(a[i]) == fold(b[i])
  }

  lemma {:induction false} SameFoldedStep(a: string, b: string, fold: char -> char)
    requires a != [] && b != []
    ensures SameFolded(a, b, fold) <==> fold(a[0]) == fold(b[0]) && SameFolded(a[1..], b[1..], fold)
  {
    if fold(a[0]) == fold(b[0]) && SameFolded(a[1..], b[1..], fold) {
      forall i | 0 <= i < |a| ensures fold(a[i]) == fold(b[i]) {
        if i > 0 { assert a[i] == a[1..][i - 1] && b[i] == b[1..][i - 1]; }
      }
    }
  }

  /** An escaped value at the head of a pattern matches itself, up to folding, and nothing else. */
  lemma {:induction false} EscapedHeadIsLiteral(v: string, q: string, s: string, fold: char -> char)
    ensures Like(EscapeEach(v) + q, s, fold) <==>
            (|v| <= |s| && SameFolded(v, s[..|v|], fold) && Like(q, s[|v|..], fold))
  {
    if v == [] {
      assert EscapeEach(v) + q == q && s[0..] == s;
    } else {
      EscapedCharIsLiteral(v[0], EscapeEach(v[1..]) + q, s, fold);
      assert EscapeEach(v) + q == (if Special(v[0]) then ['\\', v[0]] else [v[0]]) + (EscapeEach(v[1..]) + q);
      if s != [] {
        EscapedHeadIsLiteral(v[1..], q, s[1..], fold);
        if |v| <= |s| {
          SameFoldedStep(v, s[..|v|], fold);
          assert s[..|v|][1..] == s[1..][..|v| - 1];
          assert s[|v|..] == s[1..][|v| - 1..];
        }
      }
    }
  }

  lemma {:induction false} EscapedCharIsLiteral(c: char, rest: string, s: string, fold: char -> char)
    ensures Like((if Special(c) then ['\\', c] else [c]) + rest, s, fold) <==>
            s != [] && fold(c) == fold(s[0]) && Like(rest, s[1..], fold)
  {
    var p := (if Special(c) then ['\\', c] else [c]) + rest;
    assert p[if Special(c) then 2 else 1..] == rest;
  }

  ghost predicate MatchesFrom(q: string, s: string, k: nat, fold: char -> char) {
    k <= |s| && Like(q, s[k..], fold)
  }

  lemma {:induction false} PercentSkips(q: string, s: string, fold: char -> char)
    ensures Like("%" + q, s, fold) <==> exists k: nat :: MatchesFrom(q, s, k, fold)
    decreases |s|
  {
    var p := "%" + q;
    assert p[1..] == q && s[0..] == s;
    if s != [] {
      PercentSkips(q, s[1..], fold);
      forall k: nat | 1 <= k ensures MatchesFrom(q, s, k, fold) <==> MatchesFrom(q, s[1..], k - 1, fold) {
        if k <= |s| { assert s[k..] == s[1..][k - 1..]; }
      }
      if exists k: nat :: MatchesFrom(q, s[1..], k, fold) {
        var k: nat :| MatchesFrom(q, s[1..], k, fold);
        assert MatchesFrom(q, s, k + 1, fold);
      }
    }
    if Like(q, s, fold) { assert MatchesFrom(q, s, 0, fold); }
  }

  lemma {:induction false} PercentMatchesAll(s: string, fold: char -> char)
    ensures Like("%", s, fold)
    decreases |s|
  {
    assert "%" == "%" + "";
    PercentSkips("", s, fold);
    assert s[|s|..] == [] && MatchesFrom("", s, |s|, fold);
  }

  /** The escaped value matches exactly the value, up to folding. */
  lemma {:induction false} EscapedMatchesOnlyItself(v: string, s: string, fold: char -> char)
    ensures Like(Escape(v), s, fold) <==> SameFolded(v, s, fold)
  {
    ReplacementsAreOneEscape(v);
    assert EscapeEach(v) + "" == EscapeEach(v);
    EscapedHeadIsLiteral(v, "", s, fold);
    if |v| <= |s| && s[|v|..] == [] { assert s[..|v|] == s; }
    if |v| == |s| { assert s[..|v|] == s; }
  }

  /** With a percent sign after it: exactly the strings that start with the value. */
  lemma {:induction false} EscapedPrefix(v: string, s: string, fold: char -> char)
    ensures Like(Escape(v) + "%", s, fold) <==> |v| <= |s| && SameFolded(v, s[..|v|], fold)
  {
    ReplacementsAreOneEscape(v);
    EscapedHeadIsLiteral(v, "%", s, fold);
    if |v| <= |s| { PercentMatchesAll(s[|v|..], fold); }
  }

  /** With a percent sign before it: exactly the strings that end with the value. */
  lemma {:induction false} EscapedSuffix(v: string, s: string, fold: char -> char)
    ensures Like("%" + Escape(v), s, fold) <==> |v| <= |s| && SameFolded(v, s[|s| - |v|..], fold)
  {
    PercentSkips(Escape(v), s, fold);
    forall k: nat | k <= |s| ensures MatchesFrom(Escape(v), s, k, fold) <==> SameFolded(v, s[k..], fold) {
      EscapedMatchesOnlyItself(v, s[k..], fold);
    }
    if |v| <= |s| && SameFolded(v, s[|s| - |v|..], fold) {
      assert MatchesFrom(Escape(v), s, |s| - |v|, fold);
    }
  }

  ghost predicate OccursAt(v: string, s: string, k: nat, fold: char -> char) {
    k + |v| <= |s| && SameFolded(v, s[k..k + |v|], fold)
  }

  /** With one on each side: exactly the strings that contain the value. */
  lemma {:induction false} EscapedContains(v: string, s: string, fold: char -> char)
    ensures Like("%" + Escape(v) + "%", s, fold) <==> exists k: nat :: OccursAt(v, s, k, fold)
  {
    assert "%" + Escape(v) + "%" == "%" + (Escape(v) + "%");
    PercentSkips(Escape(v) + "%", s, fold);
    forall k: nat ensures MatchesFrom(Escape(v) + "%", s, k, fold) <==> OccursAt(v, s, k, fold) {
      if k <= |s| {
        EscapedPrefix(v, s[k..], fold);
        if k + |v| <= |s| { assert s[k..][..|v|] == s[k..k + |v|]; }
      }
    }
  }
}
