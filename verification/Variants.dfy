/** The lines of a variant block as `_fmt_variant_block` writes them, and as the scan of
    `_remove_variant` reads them. */
module Variants {
  import opened PyText
  import opened VariantBlocks

  // ---------------------------------------------------------------- reading

  /** `strip('"')`. */
  function StripQuotes(s: string): string
    decreases |s|
  {
    if s != [] && s[0] == '"' then StripQuotes(s[1..])
    else if s != [] && s[|s| - 1] == '"' then StripQuotes(s[..|s| - 1])
    else s
  }

  /** What follows the first equals sign of a name line. */
  function ValueOf(s: string): string { StripQuotes(Strip(s)) }

  function KindOfText(t: string): Kind {
    if StartsWith(t, "[[build.variants]]") then Table
    else if StartsWith(t, "[[") then Double
    else if StartsWith(t, "[") then Single
    else if StartsWith(t, "name =") then NameIs(ValueOf(t[6..]))
    else Other
  }

  function KindOfLine(line: string): Kind { KindOfText(Strip(line)) }

  // ---------------------------------------------------------------- writing

  /** The fields that `_add_variant` fills; an empty one is not written. */
  datatype Variant = Variant(name: string, description: string, board: string, buildDir: string, env: seq<(string, string)>)

  function KeyLine(key: string, value: string): string { key + " = \"" + value + "\"" }

  function Keyed(key: string, value: string): seq<string> { if value == "" then [] else [KeyLine(key, value)] }

  function EnvItems(env: seq<(string, string)>): string {
    if env == [] then ""
    else KeyLine(env[0].0, env[0].1) + (if |env| == 1 then "" else ", ") + EnvItems(env[1..])
  }

  function EnvLine(env: seq<(string, string)>): string { "env = { " + EnvItems(env) + " }" }

  function FmtVariantBlock(v: Variant): seq<string> {
    ["[[build.variants]]"] + Keyed("name", v.name) + Keyed("description", v.description) + Keyed("board", v.board)
    + Keyed("build_dir", v.buildDir) + if v.env == [] then [] else [EnvLine(v.env)]
  }

  /** No value holds a line break. */
  predicate OnOneLine(v: Variant) {
    && IsLine(v.name) && IsLine(v.description) && IsLine(v.board) && IsLine(v.buildDir)
    && forall i | 0 <= i < |v.env| :: IsLine(v.env[i].0) && IsLine(v.env[i].1)
  }

  // ---------------------------------------------------------------- reading back

  predicate QuoteAtAnEnd(s: string) { s != [] && (s[0] == '"' || s[|s| - 1] == '"') }

  lemma {:induction false} StripQuotesExactly(s: string)
    ensures StripQuotes(s) == s <==> !QuoteAtAnEnd(s)
    ensures |StripQuotes(s)| <= |s|
    decreases |s|
  {
    if s != [] && s[0] == '"' {
      StripQuotesExactly(s[1..]);
    } else if s != [] && s[|s| - 1] == '"' {
      StripQuotesExactly(s[..|s| - 1]);
    }
  }

  lemma {:induction false} StripQuotesEnd(s: string)
    ensures StripQuotes(s + "\"") == StripQuotes(s)
    decreases |s|
  {
    if s == [] {
      assert (s + "\"")[1..] == [];
    } else if s[0] == '"' {
      assert (s + "\"")[1..] == s[1..] + "\"";
      StripQuotesEnd(s[1..]);
    } else {
      assert (s + "\"")[..|s|] == s;
    }
  }

  lemma {:induction false} StripQuotesAround(s: string)
    ensures StripQuotes("\"" + s + "\"") == StripQuotes(s)
  {
    assert ("\"" + s + "\"")[1..] == s + "\"";
    StripQuotesEnd(s);
  }

  lemma {:induction false} StripOneSpace(s: string)
    requires Strip(s) == s
    ensures Strip([' '] + s) == s
  {
    StripSpaceBefore(s);
  }

  lemma {:induction false} ValueOfSpaced(s: string)
    requires s != "" && !IsSpace(s[0]) && !IsSpace(s[|s| - 1])
    ensures ValueOf([' '] + s) == StripQuotes(s)
  {
    StripKeeps(s);
    StripOneSpace(s);
  }

  lemma {:induction false} QuotedEnds(name: string, s: string)
    requires s == "\"" + name + "\""
    ensures s != "" && s[0] == '"' && s[|s| - 1] == '"'
  {
  }

  lemma {:induction false} ValueOfQuoted(name: string)
    ensures ValueOf([' '] + ("\"" + name + "\"")) == StripQuotes(name)
  {
    QuotedEnds(name, "\"" + name + "\"");
    ValueOfSpaced("\"" + name + "\"");
    StripQuotesAround(name);
  }

  lemma {:induction false} NotPrefix(t: string, p: string)
    requires p != "" && (t == "" || t[0] != p[0])
    ensures !StartsWith(t, p)
  {
  }

  lemma {:induction false} NameText(t: string)
    requires t != "" && t[0] != '[' && StartsWith(t, "name =")
    ensures KindOfText(t) == NameIs(ValueOf(t[6..]))
  {
    NotPrefix(t, "[[build.variants]]");
    NotPrefix(t, "[[");
    NotPrefix(t, "[");
  }

  lemma {:induction false} NameLineText(t: string, rest: string)
    requires t == "name =" + rest
    ensures t != "" && t[0] == 'n' && StartsWith(t, "name =") && t[6..] == rest
  {
  }

  /** The written name line reads as the name without the quotes at its ends. */
  lemma {:induction false} NameLineReads(name: string)
    ensures KindOfLine(KeyLine("name", name)) == NameIs(StripQuotes(name))
  {
    var rest := [' '] + ("\"" + name + "\"");
    var t := KeyLine("name", name);
    KeyLineShape(name, t, rest);
    NameLineText(t, rest);
    StripKeeps(t);
    NameText(t);
    ValueOfQuoted(name);
  }

  lemma {:induction false} KeyLineShape(name: string, t: string, rest: string)
    requires t == KeyLine("name", name) && rest == [' '] + ("\"" + name + "\"")
    ensures t == "name =" + rest && t != "" && !IsSpace(t[0]) && !IsSpace(t[|t| - 1])
  {
    assert t == "name =" + rest;
    assert t[0] == 'n' && t[|t| - 1] == '"';
  }

  lemma {:induction false} OtherKind(l: string)
    requires l != "" && l[0] != '[' && l[0] != 'n' && !IsSpace(l[0]) && !IsSpace(l[|l| - 1])
    ensures KindOfLine(l) == Other
  {
    StripKeeps(l);
  }

  lemma {:induction false} BlankKind()
    ensures KindOfLine("") == Other
  {
    StripKeeps("");
  }

  lemma {:induction false} TableText(t: string)
    requires t == "[[build.variants]]"
    ensures t != "" && t[0] == '[' && t[|t| - 1] == ']' && KindOfText(t) == Table
  {
  }

  lemma {:induction false} KindOfStripped(t: string)
    requires t != "" && !IsSpace(t[0]) && !IsSpace(t[|t| - 1])
    ensures KindOfLine(t) == KindOfText(t)
  {
    StripKeeps(t);
  }

  lemma {:induction false} TableKind()
    ensures KindOfLine("[[build.variants]]") == Table
  {
    TableText("[[build.variants]]");
    KindOfStripped("[[build.variants]]");
  }

  predicate PlainLine(l: string) { IsLine(l) && KindOfLine(l) == Other }

  lemma {:induction false} KeyLinesArePlain(key: string, value: string)
    requires key != "" && (key[0] == 'd' || key[0] == 'b') && IsLine(key) && IsLine(value)
    ensures PlainLines(Keyed(key, value))
  {
    var l := KeyLine(key, value);
    assert l[0] == key[0] && l[|l| - 1] == '"';
    OtherKind(l);
    KeyLineIsLine(key, value);
  }

  lemma {:induction false} KeyLineIsLine(key: string, value: string)
    requires IsLine(key) && IsLine(value)
    ensures IsLine(KeyLine(key, value))
  {
    assert IsLine(" = \"") && IsLine("\"");
    LineConcat(key, " = \"");
    LineConcat(key + " = \"", value);
    LineConcat(key + " = \"" + value, "\"");
  }

  lemma {:induction false} LineConcat(a: string, b: string)
    requires IsLine(a) && IsLine(b)
    ensures IsLine(a + b)
  {
  }

  lemma {:induction false} EnvItemsAreLine(env: seq<(string, string)>)
    requires forall i | 0 <= i < |env| :: IsLine(env[i].0) && IsLine(env[i].1)
    ensures IsLine(EnvItems(env))
  {
    if env != [] {
      KeyLineIsLine(env[0].0, env[0].1);
      EnvItemsAreLine(env[1..]);
      var comma := if |env| == 1 then "" else ", ";
      LineConcat(KeyLine(env[0].0, env[0].1), comma);
      LineConcat(KeyLine(env[0].0, env[0].1) + comma, EnvItems(env[1..]));
    }
  }

  lemma {:induction false} EnvLineIsPlain(env: seq<(string, string)>)
    requires forall i | 0 <= i < |env| :: IsLine(env[i].0) && IsLine(env[i].1)
    ensures PlainLine(EnvLine(env))
  {
    EnvItemsAreLine(env);
    LineConcat("env = { ", EnvItems(env));
    LineConcat("env = { " + EnvItems(env), " }");
    var l := EnvLine(env);
    assert l[0] == 'e' && l[|l| - 1] == '}';
    OtherKind(l);
  }

  function BlockTail(v: Variant): seq<string> {
    Keyed("description", v.description) + Keyed("board", v.board) + Keyed("build_dir", v.buildDir) + if v.env == [] then [] else [EnvLine(v.env)]
  }

  predicate PlainLines(ls: seq<string>) { forall i | 0 <= i < |ls| :: PlainLine(ls[i]) }

  lemma {:induction false} PlainConcat(a: seq<string>, b: seq<string>)
    requires PlainLines(a) && PlainLines(b)
    ensures PlainLines(a + b)
  {
  }

  lemma {:induction false} TailIsPlain(v: Variant)
    requires OnOneLine(v)
    ensures PlainLines(BlockTail(v))
  {
    var d, b, dir := Keyed("description", v.description), Keyed("board", v.board), Keyed("build_dir", v.buildDir);
    KeyLinesArePlain("description", v.description);
    KeyLinesArePlain("board", v.board);
    KeyLinesArePlain("build_dir", v.buildDir);
    PlainConcat(d, b);
    PlainConcat(d + b, dir);
    EnvLineIsPlain(v.env);
    PlainConcat(d + b + dir, if v.env == [] then [] else [EnvLine(v.env)]);
  }

  lemma {:induction false} BlockShape(v: Variant)
    requires v.name != ""
    ensures FmtVariantBlock(v) == ["[[build.variants]]", KeyLine("name", v.name)] + BlockTail(v)
  {
  }

  predicate HeaderLine(l: string) { IsLine(l) && KindOfLine(l) == Table }

  predicate NameLineOf(l: string, value: string) { IsLine(l) && KindOfLine(l) == NameIs(value) }

  lemma {:induction false} BlockIsRead(header: string, nameLine: string, tail: seq<string>, value: string)
    requires HeaderLine(header) && NameLineOf(nameLine, value) && PlainLines(tail)
    ensures IsVariantBlock(KindOfLine, [header, nameLine] + tail, value)
  {
    var kind: Reader := KindOfLine;
    forall i | 0 <= i < |tail| ensures IsLine(tail[i]) && kind(tail[i]).Other? { assert PlainLine(tail[i]); }
    BlockOfParts(kind, header, nameLine, tail, value);
  }

  lemma {:induction false} NameKeyIsLine(key: string)
    requires key == "name"
    ensures IsLine(key)
  {
  }

  lemma {:induction false} NameLineIsRead(name: string)
    requires IsLine(name)
    ensures NameLineOf(KeyLine("name", name), StripQuotes(name))
  {
    NameLineReads(name);
    NameKeyIsLine("name");
    KeyLineIsLine("name", name);
  }

  lemma {:induction false} HeaderIsRead()
    ensures HeaderLine("[[build.variants]]")
  {
    TableKind();
    TableIsLine();
  }

  lemma {:induction false} BlockParts(v: Variant) returns (header: string, nameLine: string)
    requires v.name != "" && IsLine(v.name)
    ensures FmtVariantBlock(v) == [header, nameLine] + BlockTail(v)
    ensures HeaderLine(header) && NameLineOf(nameLine, StripQuotes(v.name))
  {
    header, nameLine := "[[build.variants]]", KeyLine("name", v.name);
    BlockShape(v);
    HeaderIsRead();
    NameLineIsRead(v.name);
  }

  /** The written block is what the scan takes for a variant block, under the name that it reads. */
  lemma {:induction false} WrittenBlockIsRead(v: Variant)
    requires v.name != "" && OnOneLine(v)
    ensures IsVariantBlock(KindOfLine, FmtVariantBlock(v), StripQuotes(v.name))
  {
    var header, nameLine := BlockParts(v);
    TailIsPlain(v);
    BlockIsRead(header, nameLine, BlockTail(v), StripQuotes(v.name));
  }

  lemma {:induction false} TableIsLine()
    ensures IsLine("[[build.variants]]")
  {
  }

  /** For all texts and variants on one line each, with no block that the scan reads as this name:
      removing a variant that was just added finds it exactly when its name has no quote at an
      end, and then restores the text, up to the line ends at its end, exactly when the text breaks
      its lines with newlines only. */
  lemma {:induction false} AddThenRemove(text: string, v: Variant)
    requires v.name != "" && OnOneLine(v)
    requires !AnyDoomed(KindOfLine, SplitLines(RStripNewlines(text)), v.name)
    ensures
      var added := AddedText(text, FmtVariantBlock(v));
      && (AnyDoomed(KindOfLine, SplitLines(added), v.name) <==> !QuoteAtAnEnd(v.name))
      && (!QuoteAtAnEnd(v.name) ==>
            (RemovedText(KindOfLine, added, v.name) == RStripNewlines(text) + "\n" <==> OnlyNewlines(text)))
  {
    WrittenBlockIsRead(v);
    BlankKind();
    StripQuotesExactly(v.name);
    AddedThenRemoved(KindOfLine, text, FmtVariantBlock(v), StripQuotes(v.name), v.name);
  }

  lemma {:induction false} DiffersAt(t: string, p: string, i: nat)
    requires i < |p| && i < |t| && t[i] != p[i]
    ensures !StartsWith(t, p)
  {
  }

  lemma {:induction false} LongerTableKind(t: string)
    requires |t| > 17 && t[16] != ']'
    ensures !KindOfText(t).Table?
  {
    assert "[[build.variants]]"[16] == ']';
    DiffersAt(t, "[[build.variants]]", 16);
  }

  lemma {:induction false} LegacyHeader(t: string)
    requires t == "[[build.variants.images]]"
    ensures |t| > 17 && t[16] == '.' && t[0] == '[' && t[|t| - 1] == ']'
  {
  }

  lemma {:induction false} LongerTableStays(header: string, body: seq<string>, rest: seq<string>, name: string)
    requires |header| > 17 && header[16] != ']' && !IsSpace(header[0]) && !IsSpace(header[|header| - 1])
    ensures !Goes(KindOfLine, [header] + body, rest, name)
  {
    StripKeeps(header);
    LongerTableKind(header);
  }

  /** The old nested image tables after a variant that goes are blocks of their own, and stay. */
  lemma {:induction false} LegacyImagesStay(header: string, body: seq<string>, rest: seq<string>, name: string)
    requires header == "[[build.variants.images]]"
    ensures !Goes(KindOfLine, [header] + body, rest, name)
  {
    LegacyHeader(header);
    LongerTableStays(header, body, rest, name);
  }
}
