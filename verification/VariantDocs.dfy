/** What a removal of blocks means for the document: the variants with the tables below them. */
module VariantDocs {
  import opened Collections
  import opened PyText
  import opened VariantBlocks
  import opened Variants
  import opened VariantNames

  /** Says of a header whether it is of a table below the last variant, as `[build.variants.env]`. */
  type SubReader = string -> bool

  predicate IsVariant(kind: Reader, b: Block) { kind(b[0]).Table? }

  predicate IsSub(kind: Reader, sub: SubReader, b: Block) { IsHeader(kind(b[0])) && !IsVariant(kind, b) && sub(b[0]) }

  datatype VariantTable = VariantTable(own: Block, subs: seq<Block>)

  /** The tables below the variant that comes before; without one they are no part of a variant. */
  function LeadSubs(kind: Reader, sub: SubReader, bs: seq<Block>): seq<Block> {
    if bs == [] || IsVariant(kind, bs[0]) then []
    else (if IsSub(kind, sub, bs[0]) then [bs[0]] else []) + LeadSubs(kind, sub, bs[1..])
  }

  function VariantsOf(kind: Reader, sub: SubReader, bs: seq<Block>): seq<VariantTable> {
    if bs == [] then []
    else (if IsVariant(kind, bs[0]) then [VariantTable(bs[0], LeadSubs(kind, sub, bs[1..]))] else []) + VariantsOf(kind, sub, bs[1..])
  }

  /** The blocks that are neither. */
  function OthersOf(kind: Reader, sub: SubReader, bs: seq<Block>): seq<Block> {
    if bs == [] then []
    else (if IsVariant(kind, bs[0]) || IsSub(kind, sub, bs[0]) then [] else [bs[0]]) + OthersOf(kind, sub, bs[1..])
  }

  /** The variants without the ones that go, each with all that is below it. */
  function Kept(kind: Reader, sub: SubReader, bs: seq<Block>, name: string): seq<VariantTable> {
    if bs == [] then []
    else (if IsVariant(kind, bs[0]) && !Goes(kind, bs[0], Concat(bs[1..]), name)
          then [VariantTable(bs[0], LeadSubs(kind, sub, bs[1..]))] else []) + Kept(kind, sub, bs[1..], name)
  }

  /** No variant that goes has a table below it. */
  predicate NoneBelow(kind: Reader, sub: SubReader, bs: seq<Block>, name: string) {
    bs == [] || ((Goes(kind, bs[0], Concat(bs[1..]), name) ==> LeadSubs(kind, sub, bs[1..]) == []) && NoneBelow(kind, sub, bs[1..], name))
  }

  function SubCount(vs: seq<VariantTable>): nat { if vs == [] then 0 else |vs[0].subs| + SubCount(vs[1..]) }

  lemma {:induction false} SubsStay(kind: Reader, sub: SubReader, bs: seq<Block>, name: string)
    ensures
      var left := Staying(kind, bs, name);
      && OthersOf(kind, sub, left) == OthersOf(kind, sub, bs)
      && |LeadSubs(kind, sub, left)| + SubCount(VariantsOf(kind, sub, left)) == |LeadSubs(kind, sub, bs)| + SubCount(VariantsOf(kind, sub, bs))
  {
    if bs != [] {
      SubsStay(kind, sub, bs[1..], name);
      var rest := Staying(kind, bs[1..], name);
      if Goes(kind, bs[0], Concat(bs[1..]), name) {
        assert Staying(kind, bs, name) == rest;
        VariantFirst(bs[0], LeadSubs(kind, sub, bs[1..]), VariantsOf(kind, sub, bs[1..]));
      } else {
        StayingHead(kind, sub, bs, name, rest);
        VariantFirst(bs[0], LeadSubs(kind, sub, bs[1..]), VariantsOf(kind, sub, bs[1..]));
        VariantFirst(bs[0], LeadSubs(kind, sub, rest), VariantsOf(kind, sub, rest));
      }
    }
  }

  lemma {:induction false} VariantFirst(b: Block, subs: seq<Block>, rest: seq<VariantTable>)
    ensures SubCount([VariantTable(b, subs)] + rest) == |subs| + SubCount(rest) && SubCount([] + rest) == SubCount(rest)
  {
    assert ([VariantTable(b, subs)] + rest)[1..] == rest && [] + rest == rest;
  }

  lemma {:induction false} StayingHead(kind: Reader, sub: SubReader, bs: seq<Block>, name: string, rest: seq<Block>)
    requires bs != [] && !Goes(kind, bs[0], Concat(bs[1..]), name) && rest == Staying(kind, bs[1..], name)
    ensures var left := Staying(kind, bs, name); left != [] && left[0] == bs[0] && left[1..] == rest
  {
    assert ([bs[0]] + rest)[1..] == rest;
  }

  lemma {:induction false} KeptSubs(kind: Reader, sub: SubReader, bs: seq<Block>, name: string)
    ensures SubCount(Kept(kind, sub, bs, name)) <= SubCount(VariantsOf(kind, sub, bs))
    ensures SubCount(Kept(kind, sub, bs, name)) == SubCount(VariantsOf(kind, sub, bs)) <==> NoneBelow(kind, sub, bs, name)
  {
    if bs != [] {
      KeptSubs(kind, sub, bs[1..], name);
      VariantFirst(bs[0], LeadSubs(kind, sub, bs[1..]), VariantsOf(kind, sub, bs[1..]));
      VariantFirst(bs[0], LeadSubs(kind, sub, bs[1..]), Kept(kind, sub, bs[1..], name));
    }
  }

  lemma {:induction false} StayingVariants(kind: Reader, sub: SubReader, bs: seq<Block>, name: string)
    requires NoneBelow(kind, sub, bs, name)
    ensures
      var left := Staying(kind, bs, name);
      LeadSubs(kind, sub, left) == LeadSubs(kind, sub, bs) && VariantsOf(kind, sub, left) == Kept(kind, sub, bs, name)
  {
    if bs != [] {
      StayingVariants(kind, sub, bs[1..], name);
      var rest := Staying(kind, bs[1..], name);
      if Goes(kind, bs[0], Concat(bs[1..]), name) {
        assert Staying(kind, bs, name) == rest;
        assert [] + Kept(kind, sub, bs[1..], name) == Kept(kind, sub, bs[1..], name);
      } else {
        StayingHead(kind, sub, bs, name, rest);
      }
    }
  }

  /** The blocks that stay are the document without the variants that go, exactly when none of these
      has a table below it; other sections stay in any case. */
  lemma {:induction false} RemovalInDocument(kind: Reader, sub: SubReader, ls: seq<string>, name: string)
    ensures
      var bs := Blocks(kind, ls);
      var left := Staying(kind, bs, name);
      && Remaining(kind, ls, name) == Concat(left)
      && OthersOf(kind, sub, left) == OthersOf(kind, sub, bs)
      && (VariantsOf(kind, sub, left) == Kept(kind, sub, bs, name) && LeadSubs(kind, sub, left) == LeadSubs(kind, sub, bs)
          <==> NoneBelow(kind, sub, bs, name))
  {
    var bs := Blocks(kind, ls);
    RemovalIsByBlocks(kind, ls, name);
    SubsStay(kind, sub, bs, name);
    KeptSubs(kind, sub, bs, name);
    if NoneBelow(kind, sub, bs, name) { StayingVariants(kind, sub, bs, name); }
  }

  // ---------------------------------------------------------------- one file

  const ENV := "[build.variants.env]"

  lemma {:induction false} TwoBlocks(kind: Reader, a: string, b: string, c: string)
    requires !IsHeader(kind(b)) && IsHeader(kind(c))
    ensures Blocks(kind, [a, b, c]) == [[a, b], [c]]
  {
    var ls, bc, last, none: seq<string> := [a, b, c], [b, c], [c], [];
    assert ls[1..] == bc && bc[1..] == last && last[1..] == none;
    assert BodyLen(kind, last) == 0 && BodyLen(kind, bc) == 1 && BodyLen(kind, none) == 0;
    assert ls[..2] == [a, b] && ls[2..] == last && last[..1] == last;
    assert Blocks(kind, last) == [last] + Blocks(kind, none);
    assert Blocks(kind, ls) == [[a, b]] + Blocks(kind, last);
  }

  /** A variant with an `env` table below it: the variant goes, and the table stays, with no variant
      or below another one. */
  lemma {:induction false} TableBelowStays(kind: Reader, sub: SubReader, header: string, line: string, below: string, name: string)
    requires kind(header).Table? && kind(line) == NameIs(name) && kind(below).Single? && sub(below)
    ensures Remaining(kind, [header, line, below], name) == [below]
    ensures !NoneBelow(kind, sub, Blocks(kind, [header, line, below]), name)
  {
    var bs: seq<Block> := [[header, line], [below]];
    var last: seq<Block> := [[below]];
    TwoBlocks(kind, header, line, below);
    RemovalIsByBlocks(kind, [header, line, below], name);
    assert bs[1..] == last && last[1..] == [];
    assert [header, line][1..] == [line] && Peek(kind, [line]) == Some(name);
    assert Goes(kind, bs[0], Concat(last), name) && !Goes(kind, last[0], Concat([]), name);
    assert Staying(kind, last, name) == [last[0]] + Staying(kind, [], name);
    assert Staying(kind, bs, name) == [] + Staying(kind, last, name);
    assert Concat(last) == last[0] + Concat([]) && last[0] + [] == last[0];
    assert LeadSubs(kind, sub, last) == [last[0]] + LeadSubs(kind, sub, []);
  }

  lemma {:induction false} EnvEnds(below: string)
    requires below == ENV
    ensures |below| >= 2 && below[0] == '[' && below[1] == 'b' && below[|below| - 1] == ']'
  {
  }

  lemma {:induction false} EnvTableStays(header: string, line: string, below: string)
    requires header == "[[build.variants]]" && line == KeyLine("name", "a") && below == ENV
    ensures Remaining(KindOfLine, [header, line, below], "a") == [below]
  {
    TableKind();
    NameLineOfA(line);
    EnvIsSection(below);
    BelowOf(header, line, below, "a");
  }

  lemma {:induction false} BelowOf(header: string, line: string, below: string, name: string)
    requires KindOfLine(header) == Table && KindOfLine(line) == NameIs(name) && KindOfLine(below) == Single
    ensures Remaining(KindOfLine, [header, line, below], name) == [below]
  {
    TableBelowStays(KindOfLine, (l: string) => l == below, header, line, below, name);
  }

  lemma {:induction false} EnvIsSection(below: string)
    requires below == ENV
    ensures KindOfLine(below) == Single
  {
    EnvEnds(below);
    SectionKind(below);
  }
}
