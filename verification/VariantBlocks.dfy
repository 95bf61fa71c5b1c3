/** The scan of `_remove_variant`, and the text that it and `_add_variant` write, over what a line is
    for the scan. */
module VariantBlocks {
  import opened Collections
  import opened PyText

  /** A `[[build.variants]]` header, another line that starts with "[[", another one that starts with
      "[", a `name =` line with its value, or any other line. */
  datatype Kind = Table | Double | Single | NameIs(value: string) | Other

  type Reader = string -> Kind

  predicate IsHeader(k: Kind) { k.Table? || k.Double? || k.Single? }

  // ---------------------------------------------------------------- what the scan leaves

  /** The first `name =` value before a line that starts with "[[". */
  function Peek(kind: Reader, ls: seq<string>): Option<string> {
    if ls == [] || kind(ls[0]).Table? || kind(ls[0]).Double? then None
    else if kind(ls[0]).NameIs? then Some(kind(ls[0]).value)
    else Peek(kind, ls[1..])
  }

  function BodyLen(kind: Reader, ls: seq<string>): (k: nat)
    ensures k <= |ls|
  {
    if ls == [] || IsHeader(kind(ls[0])) then 0 else 1 + BodyLen(kind, ls[1..])
  }

  lemma {:induction false} BodyHasNoHeader(kind: Reader, ls: seq<string>)
    ensures forall i | 0 <= i < BodyLen(kind, ls) :: !IsHeader(kind(ls[i]))
    ensures BodyLen(kind, ls) < |ls| ==> IsHeader(kind(ls[BodyLen(kind, ls)]))
  {
    if ls != [] && !IsHeader(kind(ls[0])) {
      BodyHasNoHeader(kind, ls[1..]);
      forall i | 0 < i < BodyLen(kind, ls) ensures !IsHeader(kind(ls[i])) { assert ls[i] == ls[1..][i - 1]; }
    }
  }

  predicate Doomed(kind: Reader, ls: seq<string>, name: string) {
    ls != [] && kind(ls[0]).Table? && Peek(kind, ls[1..]) == Some(name)
  }

  function Remaining(kind: Reader, ls: seq<string>, name: string): seq<string>
    decreases |ls|
  {
    if ls == [] then []
    else if Doomed(kind, ls, name) then Remaining(kind, ls[1 + BodyLen(kind, ls[1..])..], name)
    else [ls[0]] + Remaining(kind, ls[1..], name)
  }

  predicate AnyDoomed(kind: Reader, ls: seq<string>, name: string) {
    ls != [] && (Doomed(kind, ls, name) || AnyDoomed(kind, ls[1..], name))
  }

  lemma {:induction false} ScanStep(kind: Reader, lines: seq<string>, i: nat, name: string)
    requires i < |lines|
    ensures Doomed(kind, lines[i..], name) <==> kind(lines[i]).Table? && Peek(kind, lines[i + 1..]) == Some(name)
    ensures !Doomed(kind, lines[i..], name) ==> Remaining(kind, lines[i..], name) == [lines[i]] + Remaining(kind, lines[i + 1..], name)
    ensures Doomed(kind, lines[i..], name) ==>
              Remaining(kind, lines[i..], name) == Remaining(kind, lines[i + 1 + BodyLen(kind, lines[i + 1..])..], name)
    ensures AnyDoomed(kind, lines[i..], name) <==> Doomed(kind, lines[i..], name) || AnyDoomed(kind, lines[i + 1..], name)
  {
    var rest := lines[i..];
    assert rest[1..] == lines[i + 1..];
    assert rest[1 + BodyLen(kind, lines[i + 1..])..] == lines[i + 1 + BodyLen(kind, lines[i + 1..])..];
  }

  lemma {:induction false} PeekStep(kind: Reader, lines: seq<string>, j: nat)
    requires j <= |lines|
    ensures j == |lines| ==> Peek(kind, lines[j..]) == None
    ensures j < |lines| ==>
              Peek(kind, lines[j..]) ==
              match kind(lines[j]) case Table => None case Double => None case NameIs(v) => Some(v) case _ => Peek(kind, lines[j + 1..])
  {
    if j < |lines| { assert lines[j..][1..] == lines[j + 1..]; }
  }

  lemma {:induction false} BodyStep(kind: Reader, lines: seq<string>, i: nat)
    requires i < |lines|
    ensures BodyLen(kind, lines[i..]) == if IsHeader(kind(lines[i])) then 0 else 1 + BodyLen(kind, lines[i + 1..])
  {
    assert lines[i..][1..] == lines[i + 1..];
  }

  /** The inner scan for the name line, from the line after a header. */
  method NameMatches(kind: Reader, lines: seq<string>, start: nat, name: string) returns (matched: bool)
    requires start <= |lines|
    ensures matched <==> Peek(kind, lines[start..]) == Some(name)
  {
    var j := start;
    PeekStep(kind, lines, j);
    while j < |lines| && !kind(lines[j]).Table? && !kind(lines[j]).Double?
      invariant start <= j <= |lines|
      invariant Peek(kind, lines[start..]) == Peek(kind, lines[j..])
    {
      PeekStep(kind, lines, j);
      if kind(lines[j]).NameIs? { return kind(lines[j]).value == name; }
      j := j + 1;
    }
    PeekStep(kind, lines, j);
    return false;
  }

  /** The inner scan over the lines of a block that goes. */
  method SkipBlock(kind: Reader, lines: seq<string>, start: nat) returns (i: nat)
    requires start <= |lines|
    ensures i == start + BodyLen(kind, lines[start..])
  {
    i := start;
    while i < |lines| && !IsHeader(kind(lines[i]))
      invariant start <= i <= |lines|
      invariant i - start + BodyLen(kind, lines[i..]) == BodyLen(kind, lines[start..])
    {
      BodyStep(kind, lines, i);
      i := i + 1;
    }
  }

  method RemoveLines(kind: Reader, lines: seq<string>, name: string) returns (out: seq<string>, removed: bool)
    ensures out == Remaining(kind, lines, name)
    ensures removed <==> AnyDoomed(kind, lines, name)
  {
    out, removed := [], false;
    var i := 0;
    assert lines[0..] == lines;
    ghost var rest, goal := Remaining(kind, lines, name), Remaining(kind, lines, name);
    while i < |lines|
      invariant i <= |lines|
      invariant rest == Remaining(kind, lines[i..], name) && out + rest == goal
      invariant AnyDoomed(kind, lines, name) <==> removed || AnyDoomed(kind, lines[i..], name)
    {
      ScanStep(kind, lines, i, name);
      if kind(lines[i]).Table? {
        var matched := NameMatches(kind, lines, i + 1, name);
        if matched {
          i := SkipBlock(kind, lines, i + 1);
          removed := true;
          continue;
        }
      }
      rest := Remaining(kind, lines[i + 1..], name);
      assert (out + [lines[i]]) + rest == out + ([lines[i]] + rest);
      out := out + [lines[i]];
      i := i + 1;
    }
    assert lines[|lines|..] == [];
  }

  // ---------------------------------------------------------------- blocks

  type Block = b: seq<string> | b != [] witness [""]

  /** Each header with the lines under it; the lines before the first header are a block too. */
  function Blocks(kind: Reader, ls: seq<string>): seq<Block>
    decreases |ls|
  {
    if ls == [] then []
    else
      var n := 1 + BodyLen(kind, ls[1..]);
      [ls[..n]] + Blocks(kind, ls[n..])
  }

  function Concat(bs: seq<Block>): seq<string> { if bs == [] then [] else bs[0] + Concat(bs[1..]) }

  lemma {:induction false} BlocksPartition(kind: Reader, ls: seq<string>)
    ensures Concat(Blocks(kind, ls)) == ls
    decreases |ls|
  {
    if ls != [] {
      var n := 1 + BodyLen(kind, ls[1..]);
      BlocksPartition(kind, ls[n..]);
      assert ls[..n] + ls[n..] == ls;
    }
  }

  /** The value of the first `name =` line of the block itself. */
  function OwnName(kind: Reader, block: Block): Option<string> { Peek(kind, block[1..]) }

  /** Without a name line of its own, a variant header takes the first one of the sections after it. */
  predicate Goes(kind: Reader, block: Block, rest: seq<string>, name: string) {
    && kind(block[0]).Table?
    && (OwnName(kind, block) == Some(name) || (OwnName(kind, block).None? && Peek(kind, rest) == Some(name)))
  }

  function Staying(kind: Reader, bs: seq<Block>, name: string): seq<Block> {
    if bs == [] then []
    else (if Goes(kind, bs[0], Concat(bs[1..]), name) then [] else [bs[0]]) + Staying(kind, bs[1..], name)
  }

  lemma {:induction false} PeekThrough(kind: Reader, body: seq<string>, rest: seq<string>)
    requires forall i | 0 <= i < |body| :: !IsHeader(kind(body[i]))
    ensures Peek(kind, body + rest) == if Peek(kind, body).Some? then Peek(kind, body) else Peek(kind, rest)
  {
    if body == [] {
      assert body + rest == rest;
    } else {
      assert (body + rest)[1..] == body[1..] + rest;
      PeekThrough(kind, body[1..], rest);
    }
  }

  lemma {:induction false} BodyRemains(kind: Reader, body: seq<string>, rest: seq<string>, name: string)
    requires forall i | 0 <= i < |body| :: !IsHeader(kind(body[i]))
    ensures Remaining(kind, body + rest, name) == body + Remaining(kind, rest, name)
  {
    if body == [] {
      assert body + rest == rest;
    } else {
      assert (body + rest)[1..] == body[1..] + rest;
      BodyRemains(kind, body[1..], rest, name);
      assert [body[0]] + (body[1..] + Remaining(kind, rest, name)) == body + Remaining(kind, rest, name);
    }
  }

  lemma {:induction false} FirstBlockGoes(kind: Reader, ls: seq<string>, name: string)
    requires ls != []
    ensures var n := 1 + BodyLen(kind, ls[1..]); Goes(kind, ls[..n], ls[n..], name) <==> Doomed(kind, ls, name)
  {
    var n := 1 + BodyLen(kind, ls[1..]);
    assert ls[1..] == ls[1..n] + ls[n..];
    assert ls[..n][1..] == ls[1..n];
    BodyHasNoHeader(kind, ls[1..]);
    PeekThrough(kind, ls[1..n], ls[n..]);
  }

  lemma {:induction false} FirstBlockRemains(kind: Reader, ls: seq<string>, name: string)
    requires ls != []
    ensures
      var n := 1 + BodyLen(kind, ls[1..]);
      Remaining(kind, ls, name) == (if Doomed(kind, ls, name) then [] else ls[..n]) + Remaining(kind, ls[n..], name)
  {
    if !Doomed(kind, ls, name) {
      var n := 1 + BodyLen(kind, ls[1..]);
      BodyHasNoHeader(kind, ls[1..]);
      HeadRemains(kind, ls, ls[1..n], ls[n..], name);
      assert [ls[0]] + ls[1..n] == ls[..n];
    }
  }

  lemma {:induction false} HeadRemains(kind: Reader, ls: seq<string>, body: seq<string>, rest: seq<string>, name: string)
    requires ls != [] && ls[1..] == body + rest && !Doomed(kind, ls, name)
    requires forall i | 0 <= i < |body| :: !IsHeader(kind(body[i]))
    ensures Remaining(kind, ls, name) == [ls[0]] + body + Remaining(kind, rest, name)
  {
    BodyRemains(kind, body, rest, name);
    var tail := Remaining(kind, rest, name);
    assert [ls[0]] + (body + tail) == [ls[0]] + body + tail;
  }

  /** For all files: the scan removes whole blocks, exactly those that go, and keeps the others as
      they are and in order. */
  lemma {:induction false} RemovalIsByBlocks(kind: Reader, ls: seq<string>, name: string)
    ensures Remaining(kind, ls, name) == Concat(Staying(kind, Blocks(kind, ls), name))
    decreases |ls|
  {
    if ls != [] {
      var n := 1 + BodyLen(kind, ls[1..]);
      var bs, rest := Blocks(kind, ls), Blocks(kind, ls[n..]);
      assert bs[0] == ls[..n] && bs[1..] == rest;
      FirstBlockGoes(kind, ls, name);
      FirstBlockRemains(kind, ls, name);
      RemovalIsByBlocks(kind, ls[n..], name);
      BlocksPartition(kind, ls[n..]);
      StayingStep(kind, bs, name);
    }
  }

  lemma {:induction false} StayingStep(kind: Reader, bs: seq<Block>, name: string)
    requires bs != []
    ensures Concat(Staying(kind, bs, name)) ==
            (if Goes(kind, bs[0], Concat(bs[1..]), name) then [] else bs[0]) + Concat(Staying(kind, bs[1..], name))
  {
    if Goes(kind, bs[0], Concat(bs[1..]), name) {
      assert [] + Staying(kind, bs[1..], name) == Staying(kind, bs[1..], name);
    } else {
      assert ([bs[0]] + Staying(kind, bs[1..], name))[1..] == Staying(kind, bs[1..], name);
    }
  }

  function WithoutNamed(kind: Reader, bs: seq<Block>, name: string): seq<Block> {
    if bs == [] then []
    else (if kind(bs[0][0]).Table? && OwnName(kind, bs[0]) == Some(name) then [] else [bs[0]]) + WithoutNamed(kind, bs[1..], name)
  }

  /** A variant block without a name line, with this name in the sections after it. */
  predicate Borrows(kind: Reader, block: Block, rest: seq<string>, name: string) {
    kind(block[0]).Table? && OwnName(kind, block).None? && Peek(kind, rest) == Some(name)
  }

  predicate NoneBorrows(kind: Reader, bs: seq<Block>, name: string) {
    bs == [] || (!Borrows(kind, bs[0], Concat(bs[1..]), name) && NoneBorrows(kind, bs[1..], name))
  }

  function ConcatLen(bs: seq<Block>): nat { |Concat(bs)| }

  lemma {:induction false} ConcatCons(b: Block, bs: seq<Block>)
    ensures Concat([b] + bs) == b + Concat(bs)
  {
    assert ([b] + bs)[1..] == bs;
  }

  lemma {:induction false} WithoutNamedStep(kind: Reader, bs: seq<Block>, name: string)
    requires bs != []
    ensures Concat(WithoutNamed(kind, bs, name)) ==
            (if kind(bs[0][0]).Table? && OwnName(kind, bs[0]) == Some(name) then [] else bs[0]) + Concat(WithoutNamed(kind, bs[1..], name))
  {
    var rest := WithoutNamed(kind, bs[1..], name);
    ConcatCons(bs[0], rest);
    assert [] + rest == rest;
  }

  lemma {:induction false} BorrowersAreLost(kind: Reader, bs: seq<Block>, name: string)
    ensures NoneBorrows(kind, bs, name) ==> Staying(kind, bs, name) == WithoutNamed(kind, bs, name)
    ensures ConcatLen(Staying(kind, bs, name)) <= ConcatLen(WithoutNamed(kind, bs, name))
    ensures !NoneBorrows(kind, bs, name) ==> ConcatLen(Staying(kind, bs, name)) < ConcatLen(WithoutNamed(kind, bs, name))
  {
    if bs != [] {
      BorrowersAreLost(kind, bs[1..], name);
      StayingStep(kind, bs, name);
      WithoutNamedStep(kind, bs, name);
    }
  }

  /** Exactly the blocks of the name go if and only if no variant block without a name line has this
      name in the sections after it. */
  lemma {:induction false} NamedBlocksGoByName(kind: Reader, ls: seq<string>, name: string)
    ensures
      var bs := Blocks(kind, ls);
      Remaining(kind, ls, name) == Concat(WithoutNamed(kind, bs, name)) <==> NoneBorrows(kind, bs, name)
  {
    RemovalIsByBlocks(kind, ls, name);
    BorrowersAreLost(kind, Blocks(kind, ls), name);
  }

  lemma {:induction false} AllNamedNoneBorrows(kind: Reader, bs: seq<Block>, name: string)
    requires forall i | 0 <= i < |bs| :: kind(bs[i][0]).Table? ==> OwnName(kind, bs[i]).Some?
    ensures NoneBorrows(kind, bs, name)
  {
    if bs != [] {
      assert forall i | 0 <= i < |bs| - 1 :: bs[1..][i] == bs[i + 1];
      AllNamedNoneBorrows(kind, bs[1..], name);
    }
  }

  /** A nameless variant and a section after it that holds the name: the variant goes, although the
      name is not its own. */
  lemma {:induction false} NamelessBlockGoes(kind: Reader, header: string, section: string, line: string, name: string)
    requires kind(header).Table? && kind(section).Single? && kind(line) == NameIs(name)
    ensures Remaining(kind, [header, section, line], name) == [section, line]
    ensures Blocks(kind, [header, section, line]) == [[header], [section, line]] && OwnName(kind, [header]).None?
  {
    var ls, last, none := [section, line], [line], [];
    assert [header, section, line][1..] == ls && ls[1..] == last && last[1..] == none;
    assert Peek(kind, ls) == Peek(kind, last) && Peek(kind, last) == Some(name);
    assert BodyLen(kind, ls) == 0 && BodyLen(kind, last) == 1;
    assert Remaining(kind, last, name) == [line] + Remaining(kind, none, name);
    assert Remaining(kind, ls, name) == [section] + Remaining(kind, last, name);
    assert [header, section, line][..1] == [header] && ls[..2] == ls && ls[2..] == none;
    assert Blocks(kind, ls) == [ls] + Blocks(kind, none);
  }

  // ---------------------------------------------------------------- add, then remove

  lemma {:induction false} NoneDoomedRemains(kind: Reader, ls: seq<string>, tail: seq<string>, name: string)
    requires !AnyDoomed(kind, ls, name)
    requires tail == [] || kind(tail[0]).Table?
    ensures Remaining(kind, ls + tail, name) == ls + Remaining(kind, tail, name)
    ensures AnyDoomed(kind, ls + tail, name) <==> AnyDoomed(kind, tail, name)
    decreases |ls|
  {
    if ls == [] {
      assert ls + tail == tail;
    } else {
      assert (ls + tail)[1..] == ls[1..] + tail;
      PeekStopsAtTable(kind, ls[1..], tail);
      NoneDoomedRemains(kind, ls[1..], tail, name);
      HeadAndTail(ls, Remaining(kind, tail, name));
    }
  }

  lemma {:induction false} PeekStopsAtTable(kind: Reader, ls: seq<string>, tail: seq<string>)
    requires tail == [] || kind(tail[0]).Table?
    ensures Peek(kind, ls + tail) == Peek(kind, ls)
  {
    if ls == [] {
      assert ls + tail == tail;
    } else {
      assert (ls + tail)[1..] == ls[1..] + tail;
      PeekStopsAtTable(kind, ls[1..], tail);
    }
  }

  /** A block as `_add_variant` writes it: a variant header, a name line, other lines. */
  ghost predicate IsVariantBlock(kind: Reader, block: seq<string>, value: string) {
    && |block| >= 2 && AreLines(block) && kind(block[0]).Table? && kind(block[1]) == NameIs(value)
    && forall i | 2 <= i < |block| :: !IsHeader(kind(block[i]))
  }

  lemma {:induction false} BlockOfParts(kind: Reader, header: string, nameLine: string, tail: seq<string>, value: string)
    requires kind(header).Table? && IsLine(header) && kind(nameLine) == NameIs(value) && IsLine(nameLine)
    requires forall i | 0 <= i < |tail| :: IsLine(tail[i]) && kind(tail[i]).Other?
    ensures IsVariantBlock(kind, [header, nameLine] + tail, value)
  {
  }

  lemma {:induction false} BodyIsNotDoomed(kind: Reader, body: seq<string>, name: string)
    requires forall i | 0 <= i < |body| :: !IsHeader(kind(body[i]))
    ensures !AnyDoomed(kind, body, name) && Remaining(kind, body, name) == body && BodyLen(kind, body) == |body|
  {
    if body != [] { BodyIsNotDoomed(kind, body[1..], name); }
  }

  lemma {:induction false} BlockGoesExactly(kind: Reader, block: seq<string>, value: string, name: string)
    requires IsVariantBlock(kind, block, value)
    ensures Remaining(kind, block, name) == if value == name then [] else block
    ensures AnyDoomed(kind, block, name) <==> value == name
  {
    var body := block[1..];
    assert body[0] == block[1] && forall i | 1 <= i < |body| :: body[i] == block[i + 1];
    BodyIsNotDoomed(kind, body, name);
    assert Peek(kind, body) == Some(value);
    assert block[1 + |body|..] == [] && [block[0]] + body == block;
  }

  /** The text of `_add_variant`. */
  function AddedText(text: string, block: seq<string>): string {
    RStripNewlines(text) + "\n\n" + JoinLines(block) + "\n"
  }

  /** The text that `_remove_variant` writes, when it finds a block. */
  function RemovedText(kind: Reader, text: string, name: string): string {
    RStripNewlines(JoinLines(Remaining(kind, SplitLines(text), name))) + "\n"
  }

  lemma {:induction false} BlockLines(block: seq<string>)
    requires AreLines(block) && block != []
    ensures SplitLines("\n" + (JoinLines(block) + "\n")) == [""] + block
  {
    JoinIsUnlines(block);
    SplitUnlines(block, "");
    assert Unlines(block) + "" == Unlines(block);
    SplitFirst("", Unlines(block));
    assert "" + "\n" + Unlines(block) == "\n" + Unlines(block);
  }

  lemma {:induction false} Regroup(ls: seq<string>, block: seq<string>)
    ensures ls + ([""] + block) == ls + [""] + block
  {
  }

  /** The lines above the blank line that comes before an added block. */
  function LinesBefore(r: string): seq<string> {
    if r == "" then [""] else SplitLines(r) + if EndsInBreak(r) then [""] else []
  }

  lemma {:induction false} LinesBeforeAreKept(kind: Reader, r: string, name: string)
    requires kind("").Other? && !AnyDoomed(kind, SplitLines(r), name)
    ensures !AnyDoomed(kind, LinesBefore(r), name)
  {
    if r == "" {
      assert [""][1..] == [];
    } else {
      NoDoomedBlank(kind, SplitLines(r), name);
      assert SplitLines(r) + [] == SplitLines(r);
    }
  }

  lemma {:induction false} AddedLines(text: string, block: seq<string>)
    requires AreLines(block) && block != []
    ensures SplitLines(AddedText(text, block)) == LinesBefore(RStripNewlines(text)) + [""] + block
  {
    var r := RStripNewlines(text);
    var rest := "\n" + (JoinLines(block) + "\n");
    BlockLines(block);
    assert AddedText(text, block) == r + "\n" + rest;
    if r == "" {
      SplitFirst("", rest);
    } else {
      SplitAppend(r, rest);
      Regroup(LinesBefore(r), block);
    }
  }

  lemma {:induction false} NoDoomedBlank(kind: Reader, ls: seq<string>, name: string)
    requires !AnyDoomed(kind, ls, name) && kind("").Other?
    ensures !AnyDoomed(kind, ls + [""], name)
  {
    if ls == [] {
      assert ls + [""] == [""] && [""][1..] == [];
    } else {
      assert (ls + [""])[1..] == ls[1..] + [""];
      PeekBlank(kind, ls[1..]);
      NoDoomedBlank(kind, ls[1..], name);
    }
  }

  lemma {:induction false} PeekBlank(kind: Reader, ls: seq<string>)
    requires kind("").Other?
    ensures Peek(kind, ls + [""]) == Peek(kind, ls)
  {
    if ls == [] {
      assert ls + [""] == [""] && [""][1..] == [];
    } else {
      assert (ls + [""])[1..] == ls[1..] + [""];
      PeekBlank(kind, ls[1..]);
    }
  }

  lemma {:induction false} JoinWithBlank(ls: seq<string>)
    requires ls != []
    ensures JoinLines(ls + [""]) == JoinLines(ls) + "\n"
  {
    if |ls| == 1 {
      assert (ls + [""])[1..] == [""];
      assert JoinLines([""]) == "";
      assert ls[0] + "\n" + "" == ls[0] + "\n";
    } else {
      assert (ls + [""])[1..] == ls[1..] + [""];
      JoinWithBlank(ls[1..]);
      assert ls[0] + "\n" + (JoinLines(ls[1..]) + "\n") == ls[0] + "\n" + JoinLines(ls[1..]) + "\n";
    }
  }

  lemma {:induction false} RStripOne(r: string)
    requires r == "" || r[|r| - 1] != '\n'
    ensures RStripNewlines(r + "\n") == r
  {
    assert (r + "\n")[..|r|] == r;
  }

  /** The text of the lines before the added block, once the block is gone. */
  lemma {:induction false} RestoredText(r: string)
    requires OnlyNewlines(r) && !EndsInBreak(r)
    ensures RStripNewlines(JoinLines(LinesBefore(r) + [""])) == r
  {
    RStripOne(r);
    if r == "" {
      JoinWithBlank([""]);
      assert "" + "\n" == "\n";
    } else {
      JoinSplit(r);
      assert SplitLines(r) + [] == SplitLines(r);
      JoinWithBlank(SplitLines(r));
    }
  }

  lemma {:induction false} RemainingAreLines(kind: Reader, ls: seq<string>, name: string)
    requires AreLines(ls)
    ensures AreLines(Remaining(kind, ls, name))
    decreases |ls|
  {
    if ls != [] {
      if Doomed(kind, ls, name) {
        RemainingAreLines(kind, ls[1 + BodyLen(kind, ls[1..])..], name);
      } else {
        RemainingAreLines(kind, ls[1..], name);
      }
    }
  }

  lemma {:induction false} JoinedLinesBreakPlainly(ls: seq<string>)
    requires AreLines(ls)
    ensures OnlyNewlines(JoinLines(ls))
  {
    if |ls| > 1 {
      JoinedLinesBreakPlainly(ls[1..]);
    }
  }

  /** Removing what was just added: the block is found exactly when its name line reads as the name,
      and the text is then as before, up to the line ends at its end, exactly when it breaks its
      lines with newlines only. */
  lemma {:induction false} AddedThenRemoved(kind: Reader, text: string, block: seq<string>, value: string, name: string)
    requires IsVariantBlock(kind, block, value) && kind("").Other?
    requires !AnyDoomed(kind, SplitLines(RStripNewlines(text)), name)
    ensures AnyDoomed(kind, SplitLines(AddedText(text, block)), name) <==> value == name
    ensures value == name ==>
              (RemovedText(kind, AddedText(text, block), name) == RStripNewlines(text) + "\n" <==> OnlyNewlines(text))
  {
    var r := RStripNewlines(text);
    var added := AddedText(text, block);
    AddedLines(text, block);
    LinesBeforeAreKept(kind, r, name);
    BlockAfter(kind, LinesBefore(r), block, value, name);
    if OnlyNewlines(text) { RestoredText(r); }
    RemovedTextBreaksPlainly(kind, added, name);
    if RemovedText(kind, added, name) == r + "\n" { StrippedBreaksPlainly(text); }
  }

  lemma {:induction false} StrippedBreaksPlainly(text: string)
    requires OnlyNewlines(RStripNewlines(text) + "\n")
    ensures OnlyNewlines(text)
  {
    var r := RStripNewlines(text);
    assert forall i | 0 <= i < |r| :: (r + "\n")[i] == text[i];
  }

  lemma {:induction false} BlockAfter(kind: Reader, ls: seq<string>, block: seq<string>, value: string, name: string)
    requires IsVariantBlock(kind, block, value) && kind("").Other? && !AnyDoomed(kind, ls, name)
    ensures AnyDoomed(kind, ls + [""] + block, name) <==> value == name
    ensures value == name ==> Remaining(kind, ls + [""] + block, name) == ls + [""]
  {
    NoDoomedBlank(kind, ls, name);
    NoneDoomedRemains(kind, ls + [""], block, name);
    BlockGoesExactly(kind, block, value, name);
    assert ls + [""] + [] == ls + [""];
  }

  lemma {:induction false} RemovedTextBreaksPlainly(kind: Reader, text: string, name: string)
    ensures OnlyNewlines(RemovedText(kind, text, name))
  {
    RemainingAreLines(kind, SplitLines(text), name);
    JoinedLinesBreakPlainly(Remaining(kind, SplitLines(text), name));
  }

  // ---------------------------------------------------------------- the file

  /** What the TOML reader says of the file: it fails, or it gives the names of the variants. */
  datatype Parsed = Broken | Names(names: seq<string>)

  class ConfigText {
    var text: string

    /** `_add_variant`, from the formatted block on: 1 is its error exit. */
    method AddVariant(parsed: Parsed, name: string, block: seq<string>) returns (code: nat)
      modifies this
      ensures code == if name != "" && parsed.Names? && name !in parsed.names then 0 else 1
      ensures text == if code == 0 then AddedText(old(text), block) else old(text)
    {
      if name == "" || parsed.Broken? || name in parsed.names { return 1; }
      text := RStripNewlines(text) + "\n\n" + JoinLines(block) + "\n";
      return 0;
    }

    /** `_remove_variant`: 1 when no block goes, and the file is as it was. */
    method RemoveVariant(kind: Reader, name: string) returns (code: nat)
      modifies this
      ensures code == if AnyDoomed(kind, SplitLines(old(text)), name) then 0 else 1
      ensures text == if code == 0 then RemovedText(kind, old(text), name) else old(text)
    {
      var out, removed := RemoveLines(kind, SplitLines(text), name);
      if !removed { return 1; }
      text := RStripNewlines(JoinLines(out)) + "\n";
      return 0;
    }
  }
}
