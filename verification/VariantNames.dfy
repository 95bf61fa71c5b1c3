/** What a TOML reader makes of the text after the equals sign of a name line, against what the scan
    of `_remove_variant` makes of it.  Strings follow TOML v1.0.0, section "String", for basic and
    literal strings on one line. */
module VariantNames {
  import opened Collections
  import opened PyText
  import opened VariantBlocks
  import opened Variants

  // ---------------------------------------------------------------- a TOML string on one line

  const QUOTE := '"'
  const APOSTROPHE := '\''
  const BACKSLASH := '\\'

  /** A character that may stand in a literal string, apart from the apostrophe. */
  predicate Printable(c: char) { c == '\t' || (c >= ' ' && c != '\U{7F}') }

  /** A character that stands for itself in a basic string. */
  predicate Plain(c: char) { Printable(c) && c != QUOTE && c != BACKSLASH }

  predicate AllPlain(s: string) { forall i | 0 <= i < |s| :: Plain(s[i]) }

  function HexDigit(c: char): Option<nat> {
    if '0' <= c <= '9' then Some(c as int - '0' as int)
    else if 'a' <= c <= 'f' then Some(c as int - 'a' as int + 10)
    else if 'A' <= c <= 'F' then Some(c as int - 'A' as int + 10)
    else None
  }

  function HexValue(s: string): Option<nat> {
    if s == "" then Some(0)
    else
      var last, front := HexDigit(s[|s| - 1]), HexValue(s[..|s| - 1]);
      if last.None? || front.None? then None else Some(16 * front.value + last.value)
  }

  function CodePoint(s: string): Option<char> {
    match HexValue(s)
    case None => None
    case Some(v) => if v < 0xD800 || 0xE000 <= v < 0x11_0000 then Some(v as char) else None
  }

  /** The escape after a backslash: what it stands for, and how long it is. */
  function Escape(t: string): (r: Option<(char, nat)>)
    ensures r.Some? ==> 1 <= r.value.1 <= |t|
    ensures r.Some? && t[r.value.1 - 1] == QUOTE ==> r.value == (QUOTE, 1)
  {
    if t == "" then None
    else if t[0] == QUOTE || t[0] == BACKSLASH then Some((t[0], 1))
    else if t[0] == 'b' then Some(('\U{08}', 1))
    else if t[0] == 't' then Some(('\t', 1))
    else if t[0] == 'n' then Some(('\n', 1))
    else if t[0] == 'f' then Some(('\U{0C}', 1))
    else if t[0] == 'r' then Some(('\r', 1))
    else if t[0] == 'u' then HexEscape(t, 5)
    else if t[0] == 'U' then HexEscape(t, 9)
    else None
  }

  function HexEscape(t: string, n: nat): (r: Option<(char, nat)>)
    requires n > 1
    ensures r.Some? ==> r.value.1 == n <= |t| && t[n - 1] != QUOTE
  {
    if |t| < n then None
    else
      assert t[1..n][n - 2] == t[n - 1];
      match CodePoint(t[1..n])
      case None => None
      case Some(c) => Some((c, n))
  }

  /** A basic string from after its opening quote: its value, and what is behind its closing quote. */
  function Basic(t: string): Option<(string, string)>
    decreases |t|
  {
    if t == "" then None
    else if t[0] == QUOTE then Some(("", t[1..]))
    else if t[0] == BACKSLASH then
      match Escape(t[1..])
      case None => None
      case Some(e) => Before(e.0, Basic(t[1 + e.1..]))
    else if Plain(t[0]) then Before(t[0], Basic(t[1..]))
    else None
  }

  function Before(c: char, r: Option<(string, string)>): Option<(string, string)> {
    match r case None => None case Some(p) => Some(([c] + p.0, p.1))
  }

  /** A literal string from after its opening apostrophe. */
  function Literal(t: string): Option<(string, string)> {
    if t == "" || !Printable(t[0]) then None
    else if t[0] == APOSTROPHE then Some(("", t[1..]))
    else Before(t[0], Literal(t[1..]))
  }

  predicate IsBlank(c: char) { c == ' ' || c == '\t' }

  function SkipBlanks(s: string): (r: string)
    ensures |r| <= |s| && r == s[|s| - |r|..]
    ensures forall i | 0 <= i < |s| - |r| :: IsBlank(s[i])
    ensures r == "" || !IsBlank(r[0])
  {
    if s == "" || !IsBlank(s[0]) then s else SkipBlanks(s[1..])
  }

  /** Only blanks, then at most a comment. */
  predicate EndsLine(s: string) {
    var r := SkipBlanks(s);
    r == "" || (r[0] == '#' && forall i | 0 <= i < |r| :: Printable(r[i]))
  }

  /** Three quotes open a string of several lines, which is not one of these. */
  predicate Opens(t: string, c: char) { |t| >= 1 && t[0] == c && !(|t| >= 3 && t[1] == c && t[2] == c) }

  function Closed(r: Option<(string, string)>): Option<string> {
    if r.Some? && EndsLine(r.value.1) then Some(r.value.0) else None
  }

  /** The value of the text after an equals sign. */
  function TomlString(w: string): Option<string> {
    var t := SkipBlanks(w);
    if Opens(t, QUOTE) then Closed(Basic(t[1..]))
    else if Opens(t, APOSTROPHE) then Closed(Literal(t[1..]))
    else None
  }

  // ---------------------------------------------------------------- where the closing quote is

  /** The text between the quotes against the value that it stands for: it is as long as the value
      exactly when it is the value. */
  ghost predicate StandsFor(b: string, x: string) {
    && |x| <= |b| && (b != "" ==> b[0] != QUOTE)
    && (|x| == |b| ==> x == b && AllPlain(x))
    && (b != "" && b[|b| - 1] == QUOTE ==> |b| >= 2 && b[|b| - 2] == BACKSLASH && x != "" && x[|x| - 1] == QUOTE)
  }

  lemma {:induction false} BasicText(t: string, x: string, rest: string) returns (b: string)
    requires Basic(t) == Some((x, rest))
    ensures t == b + ([QUOTE] + rest) && StandsFor(b, x)
    decreases |t|, 1
  {
    if t[0] == QUOTE {
      b := "";
    } else if t[0] == BACKSLASH {
      b := EscapedText(t, x, rest);
    } else {
      BeforeParts(t[0], Basic(t[1..]), x, rest);
      var b' := BasicText(t[1..], x[1..], rest);
      b := [t[0]] + b';
      Associate([t[0]], b', [QUOTE] + rest);
      PlainStandsFor(t[0], b', x[1..]);
    }
  }

  lemma {:induction false} EscapedText(t: string, x: string, rest: string) returns (b: string)
    requires Basic(t) == Some((x, rest)) && t[0] == BACKSLASH
    ensures t == b + ([QUOTE] + rest) && StandsFor(b, x)
    decreases |t|, 0
  {
    var e := Escape(t[1..]).value;
    BeforeParts(e.0, Basic(t[1 + e.1..]), x, rest);
    var escape := EscapeText(t, e);
    var b' := BasicText(t[1 + e.1..], x[1..], rest);
    b := [BACKSLASH] + escape + b';
    Associate([BACKSLASH] + escape, b', [QUOTE] + rest);
    EscapeStandsFor(escape, e.0, b', x[1..]);
  }

  lemma {:induction false} BeforeParts(c: char, r: Option<(string, string)>, x: string, rest: string)
    requires Before(c, r) == Some((x, rest))
    ensures x != "" && x == [c] + x[1..] && r == Some((x[1..], rest))
  {
  }

  ghost predicate EndsLike(escape: string, c: char) {
    escape != "" && (escape[|escape| - 1] == QUOTE ==> |escape| == 1 && c == QUOTE)
  }

  lemma {:induction false} EscapeText(t: string, e: (char, nat)) returns (escape: string)
    requires t != "" && t[0] == BACKSLASH && Escape(t[1..]) == Some(e)
    ensures t == [BACKSLASH] + escape + t[1 + e.1..] && EndsLike(escape, e.0)
  {
    escape := t[1..1 + e.1];
    assert escape[|escape| - 1] == t[1..][e.1 - 1];
  }

  lemma {:induction false} EscapeStandsFor(escape: string, c: char, b: string, x: string)
    requires StandsFor(b, x) && EndsLike(escape, c)
    ensures StandsFor([BACKSLASH] + escape + b, [c] + x)
  {
    var b', x' := [BACKSLASH] + escape + b, [c] + x;
    if b == "" {
      assert b'[|b'| - 1] == escape[|escape| - 1];
    } else {
      assert b'[|b'| - 1] == b[|b| - 1];
      if b[|b| - 1] == QUOTE { assert b'[|b'| - 2] == b[|b| - 2] && x'[|x'| - 1] == x[|x| - 1]; }
    }
  }

  lemma {:induction false} PlainStandsFor(c: char, b: string, x: string)
    requires StandsFor(b, x) && Plain(c)
    ensures StandsFor([c] + b, [c] + x)
  {
    var b', x' := [c] + b, [c] + x;
    if b != "" && b[|b| - 1] == QUOTE { assert b'[|b'| - 2] == b[|b| - 2] && x'[|x'| - 1] == x[|x| - 1]; }
  }

  lemma {:induction false} LiteralText(t: string, x: string, rest: string)
    requires Literal(t) == Some((x, rest))
    ensures t == x + ([APOSTROPHE] + rest)
  {
    if t[0] != APOSTROPHE {
      LiteralText(t[1..], x[1..], rest);
      assert t == [t[0]] + t[1..] && x == [t[0]] + x[1..];
    }
  }

  // ---------------------------------------------------------------- what the scan reads

  lemma {:induction false} QuotesCut(s: string) returns (i: nat, j: nat)
    ensures i <= j <= |s| && StripQuotes(s) == s[i..j]
    ensures (forall k | 0 <= k < i :: s[k] == QUOTE) && (forall k | j <= k < |s| :: s[k] == QUOTE)
    decreases |s|
  {
    if s != "" && s[0] == QUOTE {
      var a, b := QuotesCut(s[1..]);
      i, j := a + 1, b + 1;
      assert forall k | 0 < k < |s| :: s[k] == s[1..][k - 1];
    } else if s != "" && s[|s| - 1] == QUOTE {
      i, j := QuotesCut(s[..|s| - 1]);
      assert forall k | 0 <= k < |s| - 1 :: s[k] == s[..|s| - 1][k];
    } else {
      i, j := 0, |s|;
    }
  }

  lemma {:induction false} RStripReaches(s: string, k: nat)
    requires k < |s| && !IsSpace(s[k])
    ensures k < |RStrip(s)|
  {
    if IsSpace(s[|s| - 1]) { RStripReaches(s[..|s| - 1], k); }
  }

  lemma {:induction false} BlanksAreSpace(s: string)
    requires forall i | 0 <= i < |s| :: IsBlank(s[i])
    ensures AllSpace(s)
  {
  }

  lemma {:induction false} StripIsRStrip(w: string)
    requires var t := SkipBlanks(w); t == "" || !IsSpace(t[0])
    ensures Strip(w) == RStrip(SkipBlanks(w))
  {
    var t := SkipBlanks(w);
    var before := w[..|w| - |t|];
    assert w == before + t;
    BlanksAreSpace(before);
    LStripBlanks(before, t);
  }

  lemma {:induction false} HeadStays(t: string, head: string)
    requires head <= t && head != "" && !IsSpace(head[|head| - 1])
    ensures head <= RStrip(t)
  {
    RStripReaches(t, |head| - 1);
  }

  lemma {:induction false} BlankTail(head: string, rest: string)
    requires SkipBlanks(rest) == "" && head != "" && !IsSpace(head[|head| - 1])
    ensures RStrip(head + rest) == head
  {
    BlanksAreSpace(rest);
    RStripBlanks(head, rest);
  }

  lemma {:induction false} CommentStays(t: string, k: nat)
    requires k < |t| && t[k] == '#'
    ensures k < |RStrip(t)| && RStrip(t)[k] == '#'
  {
    RStripReaches(t, k);
  }

  /** The stripped text is the string itself, or it goes on to a comment. */
  lemma {:induction false} ScannedText(head: string, rest: string) returns (k: nat)
    requires EndsLine(rest) && head != "" && !IsSpace(head[|head| - 1])
    ensures var s := RStrip(head + rest); head <= s && (s == head || (|head| <= k < |s| && s[k] == '#'))
  {
    var r := SkipBlanks(rest);
    HeadStays(head + rest, head);
    if r == "" {
      k := 0;
      BlankTail(head, rest);
    } else {
      k := |head| + |rest| - |r|;
      CommentStays(head + rest, k);
    }
  }

  /** What the scan cuts out of a quoted text is not its value, unless the text is the value in quotes. */
  lemma {:induction false} BasicIsCut(s: string, b: string, x: string, k: nat)
    requires [QUOTE] + b + [QUOTE] <= s && StandsFor(b, x)
    requires s == [QUOTE] + b + [QUOTE] || (|b| + 2 <= k < |s| && s[k] == '#')
    ensures StripQuotes(s) == x ==> s == [QUOTE] + x + [QUOTE]
  {
    var i, j := QuotesCut(s);
    assert s[0] == QUOTE && s[|b| + 1] == QUOTE && forall n | 0 <= n < |b| :: s[n + 1] == b[n];
  }

  lemma {:induction false} LiteralIsCut(s: string, x: string)
    requires [APOSTROPHE] + x + [APOSTROPHE] <= s
    ensures StripQuotes(s) != x
  {
    var i, j := QuotesCut(s);
    assert s[0] == APOSTROPHE && s[|x| + 1] == APOSTROPHE;
  }

  lemma {:induction false} QuotedValue(x: string)
    requires x == "" || (x[0] != QUOTE && x[|x| - 1] != QUOTE)
    ensures StripQuotes([QUOTE] + x + [QUOTE]) == x
  {
    assert [QUOTE] + x + [QUOTE] == "\"" + x + "\"";
    StripQuotesAround(x);
    StripQuotesExactly(x);
  }

  lemma {:induction false} BasicParts(t: string, x: string) returns (b: string, rest: string)
    requires Opens(t, QUOTE) && Closed(Basic(t[1..])) == Some(x)
    ensures t == [QUOTE] + b + [QUOTE] + rest && EndsLine(rest) && StandsFor(b, x)
  {
    rest := Basic(t[1..]).value.1;
    b := BasicText(t[1..], x, rest);
    Quoted(t, QUOTE, b, rest);
  }

  lemma {:induction false} Quoted(t: string, c: char, b: string, rest: string)
    requires t != "" && t[0] == c && t[1..] == b + ([c] + rest)
    ensures t == [c] + b + [c] + rest
  {
    assert t == [c] + t[1..];
  }

  lemma {:induction false} BasicDecides(s: string, b: string, x: string, k: nat)
    requires [QUOTE] + b + [QUOTE] <= s && StandsFor(b, x)
    requires s == [QUOTE] + b + [QUOTE] || (|b| + 2 <= k < |s| && s[k] == '#')
    ensures StripQuotes(s) == x <==> s == [QUOTE] + x + [QUOTE]
  {
    BasicIsCut(s, b, x, k);
    if s == [QUOTE] + x + [QUOTE] {
      assert |x| == |b|;
      QuotedValue(x);
    }
  }

  lemma {:induction false} BasicStripped(t: string, x: string)
    requires Opens(t, QUOTE) && Closed(Basic(t[1..])) == Some(x)
    ensures StripQuotes(RStrip(t)) == x <==> RStrip(t) == [QUOTE] + x + [QUOTE]
  {
    var b, rest := BasicParts(t, x);
    var k := ScannedText([QUOTE] + b + [QUOTE], rest);
    BasicDecides(RStrip(t), b, x, k);
  }

  lemma {:induction false} BasicAgrees(w: string, t: string, x: string)
    requires t == SkipBlanks(w) && Opens(t, QUOTE) && TomlString(w) == Some(x)
    ensures ValueOf(w) == x <==> Strip(w) == [QUOTE] + x + [QUOTE]
  {
    StripIsRStrip(w);
    BasicStripped(t, x);
  }

  lemma {:induction false} LiteralParts(t: string, x: string) returns (rest: string)
    requires Opens(t, APOSTROPHE) && Closed(Literal(t[1..])) == Some(x)
    ensures t == [APOSTROPHE] + x + [APOSTROPHE] + rest && EndsLine(rest)
  {
    rest := Literal(t[1..]).value.1;
    LiteralText(t[1..], x, rest);
    Quoted(t, APOSTROPHE, x, rest);
  }

  lemma {:induction false} LiteralDecides(s: string, x: string)
    requires [APOSTROPHE] + x + [APOSTROPHE] <= s
    ensures StripQuotes(s) != x && s != [QUOTE] + x + [QUOTE]
  {
    LiteralIsCut(s, x);
    assert s[0] == APOSTROPHE;
  }

  lemma {:induction false} LiteralAgrees(w: string, t: string, x: string)
    requires t == SkipBlanks(w) && !Opens(t, QUOTE) && TomlString(w) == Some(x)
    ensures ValueOf(w) != x && Strip(w) != [QUOTE] + x + [QUOTE]
  {
    var rest := LiteralParts(t, x);
    var k := ScannedText([APOSTROPHE] + x + [APOSTROPHE], rest);
    StripIsRStrip(w);
    LiteralDecides(RStrip(t), x);
  }

  /** Where TOML reads a string after the equals sign, the scan reads the same one exactly when it
      stands there as it is, in double quotes: no escape, no apostrophes, no comment behind it. */
  lemma {:induction false} ScanAgreesExactly(w: string, x: string)
    requires TomlString(w) == Some(x)
    ensures ValueOf(w) == x <==> Strip(w) == [QUOTE] + x + [QUOTE]
  {
    if Opens(SkipBlanks(w), QUOTE) {
      BasicAgrees(w, SkipBlanks(w), x);
    } else {
      LiteralAgrees(w, SkipBlanks(w), x);
    }
  }

  // ---------------------------------------------------------------- what `_add_variant` writes

  lemma {:induction false} PlainReads(x: string, rest: string)
    requires AllPlain(x)
    ensures Basic(x + ([QUOTE] + rest)) == Some((x, rest))
  {
    var t := x + ([QUOTE] + rest);
    if x == "" {
      assert t == [QUOTE] + rest && t[1..] == rest;
    } else {
      assert t[1..] == x[1..] + ([QUOTE] + rest) && [x[0]] + x[1..] == x;
      PlainReads(x[1..], rest);
    }
  }

  lemma {:induction false} AfterBlank(w: string, t: string)
    requires w == [' '] + t && t != "" && !IsBlank(t[0])
    ensures SkipBlanks(w) == t
  {
    assert w[1..] == t && SkipBlanks(t) == t;
  }

  lemma {:induction false} PlainStringReads(w: string, x: string, rest: string)
    requires w == [' '] + ([QUOTE] + (x + ([QUOTE] + rest))) && x != "" && AllPlain(x)
    ensures TomlString(w) == Closed(Some((x, rest)))
  {
    var t := [QUOTE] + (x + ([QUOTE] + rest));
    AfterBlank(w, t);
    assert t[1..] == x + ([QUOTE] + rest) && t[1] == x[0];
    PlainReads(x, rest);
  }

  /** The text after the equals sign that `_fmt_kv` writes for a text. */
  function Written(x: string): string { [' '] + ([QUOTE] + (x + [QUOTE])) }

  /** The written value reads back exactly when it needs no escape: none is written. */
  lemma {:induction false} WrittenValueReadsBack(x: string)
    requires x != ""
    ensures TomlString(Written(x)) == Some(x) <==> AllPlain(x)
  {
    if AllPlain(x) {
      assert [QUOTE] + "" == [QUOTE];
      PlainStringReads(Written(x), x, "");
    } else if TomlString(Written(x)) == Some(x) {
      var t := [QUOTE] + (x + [QUOTE]);
      AfterBlank(Written(x), t);
      var b, rest := BasicParts(t, x);
    }
  }

  /** For a name that needs no escape the added variant has this name for TOML and for the scan. */
  lemma {:induction false} PlainNamesReadAlike(name: string)
    requires name != "" && AllPlain(name)
    ensures TomlString(Written(name)) == Some(name)
    ensures KindOfLine(KeyLine("name", name)) == NameIs(name)
  {
    WrittenValueReadsBack(name);
    NameLineReads(name);
    StripQuotesExactly(name);
  }

  // ---------------------------------------------------------------- single lines

  lemma {:induction false} NotANameLine(t: string)
    requires |t| > 4 && t[0] == 'n' && t[4] != ' '
    ensures KindOfText(t) == Other
  {
    NotPrefix(t, "[[build.variants]]");
    NotPrefix(t, "[[");
    NotPrefix(t, "[");
    DiffersAt(t, "name =", 4);
  }

  lemma {:induction false} TightName(t: string)
    requires t == "name=\"a\""
    ensures |t| == 8 && t[0] == 'n' && t[4] == '=' && t[7] == '"'
  {
  }

  /** Without a blank before the equals sign the scan sees no name. */
  lemma {:induction false} TightNameIsNotRead()
    ensures KindOfLine("name=\"a\"") == Other
  {
    TightName("name=\"a\"");
    KindOfStripped("name=\"a\"");
    NotANameLine("name=\"a\"");
  }

  lemma {:induction false} OneLiteral(c: char, t: string)
    requires t == [c, APOSTROPHE] && Printable(c) && c != APOSTROPHE
    ensures Literal(t) == Some(([c], ""))
  {
    var v, none: string := [APOSTROPHE], [];
    assert t[1..] == v && v[1..] == none;
    assert Literal(v) == Some((none, none)) && [c] + none == [c];
  }

  lemma {:induction false} OneLiteralReads(c: char, w: string)
    requires w == [' ', APOSTROPHE, c, APOSTROPHE] && Printable(c) && c != APOSTROPHE
    ensures TomlString(w) == Some([c])
  {
    var t := [APOSTROPHE, c, APOSTROPHE];
    AfterBlank(w, t);
    assert t[1..] == [c, APOSTROPHE];
    OneLiteral(c, t[1..]);
  }

  /** TOML reads a name in apostrophes, the scan takes the apostrophes for a part of it. */
  lemma {:induction false} LiteralNameReads()
    ensures TomlString(" 'a'") == Some("a") && ValueOf(" 'a'") != "a"
  {
    OneLiteralReads('a', " 'a'");
    AfterBlank(" 'a'", "'a'");
    LiteralAgrees(" 'a'", "'a'", "a");
  }

  lemma {:induction false} NotedString(w: string, x: string, note: string)
    requires w == [' '] + ([QUOTE] + (x + ([QUOTE] + note))) && x != "" && AllPlain(x)
    requires EndsLine(note) && note != "" && !IsSpace(note[|note| - 1])
    ensures TomlString(w) == Some(x) && ValueOf(w) != x
  {
    var t := [QUOTE] + (x + ([QUOTE] + note));
    PlainStringReads(w, x, note);
    AfterBlank(w, t);
    StripIsRStrip(w);
    assert t[|t| - 1] == note[|note| - 1];
    ScanAgreesExactly(w, x);
  }

  /** A comment after the name: TOML reads the name, the scan a longer text. */
  lemma {:induction false} NameWithNoteReads()
    ensures TomlString(" \"a\" # b") == Some("a") && ValueOf(" \"a\" # b") != "a"
  {
    var note := " # b";
    AfterBlank(note, "# b");
    assert SkipBlanks("# b") == "# b";
    NotedString(" \"a\" # b", "a", note);
  }

  lemma {:induction false} InnerQuote(a: string, b: string, name: string)
    requires name == a + ([QUOTE] + b) && a != "" && AllPlain(a) && b != "" && !IsBlank(b[0]) && b[0] != '#'
    ensures TomlString(Written(name)) == None
  {
    var rest := b + [QUOTE];
    assert SkipBlanks(rest) == rest && rest[0] == b[0];
    assert name + [QUOTE] == a + ([QUOTE] + rest);
    PlainStringReads(Written(name), a, rest);
  }

  /** A name with a quote in it makes a line that is not TOML. */
  lemma {:induction false} QuoteBreaksTheLine(name: string)
    requires name == "a\"b"
    ensures TomlString(Written(name)) == None
  {
    InnerQuote("a", "b", name);
  }

  // ---------------------------------------------------------------- single files

  lemma {:induction false} SectionKind(t: string)
    requires |t| >= 2 && t[0] == '[' && t[1] != '[' && !IsSpace(t[|t| - 1])
    ensures KindOfLine(t) == Single
  {
    KindOfStripped(t);
    TableStart(t);
    DiffersAt(t, "[[", 1);
  }

  lemma {:induction false} TableStart(t: string)
    requires |t| >= 2 && t[1] != '['
    ensures !StartsWith(t, "[[build.variants]]")
  {
    DiffersAt(t, "[[build.variants]]", 1);
  }

  lemma {:induction false} SectionEnds(t: string)
    requires t == "[index]"
    ensures |t| >= 2 && t[0] == '[' && t[1] == 'i' && t[|t| - 1] == ']'
  {
  }

  lemma {:induction false} NamelessOf(header: string, section: string, line: string, name: string)
    requires KindOfLine(header) == Table && KindOfLine(section) == Single && KindOfLine(line) == NameIs(name)
    ensures Remaining(KindOfLine, [header, section, line], name) == [section, line]
  {
    NamelessBlockGoes(KindOfLine, header, section, line, name);
  }

  lemma {:induction false} IndexSection(section: string)
    requires section == "[index]"
    ensures KindOfLine(section) == Single
  {
    SectionEnds(section);
    SectionKind(section);
  }

  lemma {:induction false} NameLineOfA(line: string)
    requires line == KeyLine("name", "a")
    ensures KindOfLine(line) == NameIs("a")
  {
    NameLineReads("a");
    StripQuotesExactly("a");
  }

  /** A variant without a name above a section with the name "a": removing "a" removes the variant. */
  lemma {:induction false} NamelessVariantGoes(header: string, section: string, line: string)
    requires header == "[[build.variants]]" && section == "[index]" && line == KeyLine("name", "a")
    ensures Remaining(KindOfLine, [header, section, line], "a") == [section, line]
  {
    TableKind();
    IndexSection(section);
    NameLineOfA(line);
    NamelessOf(header, section, line, "a");
  }

  function Named(name: string): Variant { Variant(name, "", "", "", []) }

  lemma {:induction false} NamedIsOnOneLine(name: string)
    requires name != "" && IsLine(name)
    ensures Named(name).name != "" && OnOneLine(Named(name))
  {
  }

  /** A variant whose name starts with a quote, added to an empty file, is not found again. */
  lemma {:induction false} QuotedNameIsNotFound()
    ensures !AnyDoomed(KindOfLine, SplitLines(AddedText("", FmtVariantBlock(Named("\"a")))), "\"a")
  {
    NamedIsOnOneLine("\"a");
    assert SplitLines("") == [];
    AddThenRemove("", Named("\"a"));
  }

  lemma {:induction false} OtherLinesStay(kind: Reader, a: string, b: string, name: string)
    requires kind(a).Other? && kind(b).Other?
    ensures !AnyDoomed(kind, [a, b], name)
  {
    BodyIsNotDoomed(kind, [a, b], name);
  }

  predicate IsAscii(c: char) { '!' <= c <= '~' }

  lemma {:induction false} AsciiLine(l: string)
    requires l != "" && forall i | 0 <= i < |l| :: IsAscii(l[i])
    ensures IsLine(l) && !IsSpace(l[0]) && !IsSpace(l[|l| - 1])
  {
  }

  lemma {:induction false} NoteLine(a: string)
    requires a == ['#', 'a'] || a == ['b']
    ensures KindOfLine(a).Other? && IsLine(a) && a != ""
  {
    AsciiLine(a);
    OtherKind(a);
  }

  lemma {:induction false} OddBreakSplits(a: string, b: string, text: string)
    requires IsLine(a) && IsLine(b) && b != "" && text == a + (['\U{2028}'] + b)
    ensures SplitLines(text) == [a, b] && RStripNewlines(text) == text && !OnlyNewlines(text)
  {
    SplitAt(a, '\U{2028}', b);
    LineEndOf(b, "");
    assert b + "" == b && SplitLines(b) == [b];
    assert text[|text| - 1] == b[|b| - 1] && !IsBreak(b[|b| - 1]);
    assert text[|a|] == '\U{2028}';
  }

  /** A comment with a line separator in it: after adding and removing a variant it is two lines. */
  lemma {:induction false} OddBreakIsLost(a: string, b: string)
    requires a == ['#', 'a'] && b == ['b']
    ensures
      var text := a + (['\U{2028}'] + b);
      RemovedText(KindOfLine, AddedText(text, FmtVariantBlock(Named("v"))), "v") != text + "\n"
  {
    var text := a + (['\U{2028}'] + b);
    NoteLine(a);
    NoteLine(b);
    OddBreakSplits(a, b, text);
    OtherLinesStay(KindOfLine, a, b, "v");
    NamedIsOnOneLine("v");
    AddThenRemove(text, Named("v"));
  }
}
