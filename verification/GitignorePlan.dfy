/** `plan_gitignore` and `_pair_is_ordered`, over what a line is for the planner.

    `Words` holds the texts that the planner knows; the module Gitignore gives their real values. */
module GitignorePlan {
  import opened Collections

  /** What the planner makes of the stripped text of a line. */
  datatype Kind = Exclude | Negation | Superseded | Comment | Blank | Entry

  datatype Words = Words(
    strip: string -> string,
    kind: string -> Kind,
    exclude: string,
    negation: string,
    comment: string,
    plain: bool -> seq<string>)
  {
    predicate Known(text: string, k: Kind) { strip(text) == text && kind(text) == k }

    ghost predicate Valid() {
      && Known(exclude, Exclude) && Known(negation, Negation) && Known(comment, Comment) && Known("", Blank)
      && forall mbed, e | e in plain(mbed) :: Known(e, Entry)
    }

    function KindOf(line: string): Kind { kind(strip(line)) }
  }

  function Kinds(w: Words, lines: seq<string>): (r: seq<Kind>)
    ensures |r| == |lines| && forall i | 0 <= i < |lines| :: r[i] == w.KindOf(lines[i])
  {
    seq(|lines|, i requires 0 <= i < |lines| => w.KindOf(lines[i]))
  }

  // ---------------------------------------------------------------- the pair

  /** The lines that are a half of the pair, in order: true for the exclude. */
  function Halves(ks: seq<Kind>): seq<bool> {
    if ks == [] then [] else (if ks[0].Exclude? then [true] else if ks[0].Negation? then [false] else []) + Halves(ks[1..])
  }

  /** Both halves are there, and the last of them is the negation. */
  predicate Ordered(ks: seq<Kind>) {
    var h := Halves(ks);
    true in h && !h[|h| - 1]
  }

  predicate PairOrdered(w: Words, lines: seq<string>) { Ordered(Kinds(w, lines)) }

  lemma {:induction false} HalvesConcat(a: seq<Kind>, b: seq<Kind>)
    ensures Halves(a + b) == Halves(a) + Halves(b)
  {
    if a == [] {
      assert a + b == b;
    } else {
      assert (a + b)[1..] == a[1..] + b;
      HalvesConcat(a[1..], b);
    }
  }

  lemma {:induction false} HalfOfLast(ks: seq<Kind>, k: Kind)
    ensures Halves(ks + [k]) == Halves(ks) + if k.Exclude? then [true] else if k.Negation? then [false] else []
  {
    HalvesConcat(ks, [k]);
    assert [k][1..] == [];
  }

  lemma {:induction false} NoHalves(ks: seq<Kind>)
    requires forall i | 0 <= i < |ks| :: !ks[i].Exclude? && !ks[i].Negation?
    ensures Halves(ks) == []
  {
    if ks != [] { NoHalves(ks[1..]); }
  }

  method PairIsOrdered(w: Words, lines: seq<string>) returns (r: bool)
    ensures r <==> PairOrdered(w, lines)
  {
    var exclude, negation := -1, -1;
    ghost var ks := Kinds(w, lines);
    for index := 0 to |lines|
      invariant -1 <= exclude < index && -1 <= negation < index
      invariant exclude >= 0 <==> true in Halves(ks[..index])
      invariant negation >= 0 <==> false in Halves(ks[..index])
      invariant exclude >= 0 || negation >= 0 ==>
                  var h := Halves(ks[..index]); h != [] && (negation > exclude <==> !h[|h| - 1])
    {
      HalfOfLast(ks[..index], ks[index]);
      assert ks[..index + 1] == ks[..index] + [ks[index]];
      match w.KindOf(lines[index])
      case Exclude => exclude := index;
      case Negation => negation := index;
      case _ =>
    }
    assert ks[..|lines|] == ks;
    r := exclude >= 0 && negation >= 0 && negation > exclude;
  }

  // ---------------------------------------------------------------- the plan

  predicate Dropped(k: Kind, ordered: bool) { k.Superseded? || (!ordered && (k.Exclude? || k.Negation?)) }

  function Kept(w: Words, raw: seq<string>, ordered: bool): seq<string> {
    if raw == [] then []
    else (if Dropped(w.KindOf(raw[0]), ordered) then [] else [raw[0]]) + Kept(w, raw[1..], ordered)
  }

  function Removed(w: Words, raw: seq<string>, ordered: bool): set<string> {
    set i | 0 <= i < |raw| && Dropped(w.KindOf(raw[i]), ordered) :: w.strip(raw[i])
  }

  /** The texts that are in the file: no blanks, no comments. */
  function Present(w: Words, kept: seq<string>): set<string> {
    set i | 0 <= i < |kept| && !w.KindOf(kept[i]).Blank? && !w.KindOf(kept[i]).Comment? :: w.strip(kept[i])
  }

  function NotIn(entries: seq<string>, present: set<string>): (r: seq<string>)
    ensures forall e :: e in r <==> e in entries && e !in present
  {
    if entries == [] then [] else (if entries[0] !in present then [entries[0]] else []) + NotIn(entries[1..], present)
  }

  datatype Plan = Plan(kept: seq<string>, removed: set<string>, append: seq<string>)

  function PlanGitignore(w: Words, raw: seq<string>, mbed: bool): Plan {
    var ordered := PairOrdered(w, raw);
    var kept := Kept(w, raw, ordered);
    Plan(kept, Removed(w, raw, ordered),
         NotIn(w.plain(mbed), Present(w, kept)) + if ordered then [] else [w.exclude, w.negation])
  }

  /** What the writer adds after the kept lines. */
  function Tail(w: Words, blank: bool, append: seq<string>): seq<string> {
    if append == [] then [] else (if blank then [""] else []) + [w.comment] + append
  }

  function After(w: Words, raw: seq<string>, mbed: bool, blank: bool): seq<string> {
    PlanGitignore(w, raw, mbed).kept + Tail(w, blank, PlanGitignore(w, raw, mbed).append)
  }

  // ---------------------------------------------------------------- what is kept

  lemma {:induction false} KeptHasNone(w: Words, raw: seq<string>, ordered: bool)
    ensures forall l | l in Kept(w, raw, ordered) :: !Dropped(w.KindOf(l), ordered) && l in raw
  {
    if raw != [] { KeptHasNone(w, raw[1..], ordered); }
  }

  lemma {:induction false} KeepsAll(w: Words, raw: seq<string>, ordered: bool)
    requires forall l | l in raw :: !Dropped(w.KindOf(l), ordered)
    ensures Kept(w, raw, ordered) == raw && Removed(w, raw, ordered) == {}
  {
    if raw != [] { KeepsAll(w, raw[1..], ordered); }
  }

  lemma {:induction false} NothingRemoved(w: Words, raw: seq<string>, ordered: bool)
    requires Removed(w, raw, ordered) == {}
    ensures Kept(w, raw, ordered) == raw
  {
    forall l | l in raw ensures !Dropped(w.KindOf(l), ordered) {
      var i :| 0 <= i < |raw| && raw[i] == l;
      assert w.strip(raw[i]) !in Removed(w, raw, ordered);
    }
    KeepsAll(w, raw, ordered);
  }

  /** Dropping superseded lines only, the halves of the pair stay in order, however they are read. */
  lemma {:induction false} KeptHalves(w: Words, read: string -> Kind, raw: seq<string>)
    requires forall l :: read(l).Exclude? || read(l).Negation? ==> read(l) == w.KindOf(l)
    ensures Halves(Map(read, Kept(w, raw, true))) == Halves(Map(read, raw))
  {
    if raw != [] {
      KeptHalves(w, read, raw[1..]);
      assert Map(read, raw)[1..] == Map(read, raw[1..]);
      if Dropped(w.KindOf(raw[0]), true) {
        assert Kept(w, raw, true) == Kept(w, raw[1..], true);
        assert !read(raw[0]).Exclude? && !read(raw[0]).Negation?;
      } else {
        assert Kept(w, raw, true)[1..] == Kept(w, raw[1..], true);
        assert Map(read, Kept(w, raw, true))[1..] == Map(read, Kept(w, raw[1..], true));
      }
    } else {
      assert Kept(w, raw, true) == raw;
    }
  }

  function Map(read: string -> Kind, lines: seq<string>): (r: seq<Kind>)
    ensures |r| == |lines| && forall i | 0 <= i < |lines| :: r[i] == read(lines[i])
  {
    seq(|lines|, i requires 0 <= i < |lines| => read(lines[i]))
  }

  lemma {:induction false} HalvesOfBoth(kind: string -> Kind, a: seq<string>, b: seq<string>)
    ensures Halves(Map(kind, a + b)) == Halves(Map(kind, a)) + Halves(Map(kind, b))
  {
    assert Map(kind, a + b) == Map(kind, a) + Map(kind, b);
    HalvesConcat(Map(kind, a), Map(kind, b));
  }

  /** With neither half kept, none is read. */
  lemma {:induction false} KeptNoHalves(w: Words, read: string -> Kind, raw: seq<string>)
    requires forall l :: read(l).Exclude? || read(l).Negation? ==> read(l) == w.KindOf(l)
    ensures Halves(Map(read, Kept(w, raw, false))) == []
  {
    KeptHasNone(w, raw, false);
    var kept := Kept(w, raw, false);
    forall i | 0 <= i < |kept| ensures !read(kept[i]).Exclude? && !read(kept[i]).Negation? {
      assert kept[i] in kept;
    }
    NoHalves(Map(read, kept));
  }

  // ---------------------------------------------------------------- what is added

  lemma {:induction false} TailKinds(w: Words, read: string -> Kind, raw: seq<string>, mbed: bool, blank: bool)
    requires w.Valid()
    requires forall l | w.strip(l) == l :: read(l) == w.KindOf(l)
    ensures
      var tail := Tail(w, blank, PlanGitignore(w, raw, mbed).append);
      Halves(Map(read, tail)) == if PairOrdered(w, raw) then [] else [true, false]
  {
    var ordered := PairOrdered(w, raw);
    var entries := NotIn(w.plain(mbed), Present(w, Kept(w, raw, ordered)));
    var pair := if ordered then [] else [w.exclude, w.negation];
    var tail := Tail(w, blank, entries + pair);
    if entries + pair == [] {
      assert Map(read, tail) == [];
    } else {
      var front := (if blank then [""] else []) + [w.comment] + entries;
      assert tail == front + pair;
      assert Map(read, tail) == Map(read, front) + Map(read, pair);
      HalvesConcat(Map(read, front), Map(read, pair));
      forall i | 0 <= i < |front| ensures !read(front[i]).Exclude? && !read(front[i]).Negation? {
        assert front[i] == "" || front[i] == w.comment || front[i] in entries;
        assert front[i] in entries ==> front[i] in w.plain(mbed);
        assert w.Known(front[i], Blank) || w.Known(front[i], Comment) || w.Known(front[i], Entry);
      }
      NoHalves(Map(read, front));
      PairKinds(w, read, ordered);
    }
  }

  lemma {:induction false} PairKinds(w: Words, read: string -> Kind, ordered: bool)
    requires w.Valid()
    requires forall l | w.strip(l) == l :: read(l) == w.KindOf(l)
    ensures Halves(Map(read, if ordered then [] else [w.exclude, w.negation])) == if ordered then [] else [true, false]
  {
    if ordered {
      assert Map(read, []) == [];
    } else {
      assert Map(read, [w.exclude, w.negation]) == [Kind.Exclude] + [Kind.Negation];
      HalvesConcat([Kind.Exclude], [Kind.Negation]);
      HalfOfLast([], Kind.Exclude);
      HalfOfLast([], Kind.Negation);
      assert [] + [Kind.Exclude] == [Kind.Exclude] && [] + [Kind.Negation] == [Kind.Negation];
    }
  }

  /** What a reader that agrees with the planner on the two halves finds of them in the new file. */
  lemma {:induction false} HalvesAfter(w: Words, read: string -> Kind, raw: seq<string>, mbed: bool, blank: bool)
    requires w.Valid()
    requires forall l :: read(l).Exclude? || read(l).Negation? ==> read(l) == w.KindOf(l)
    requires forall l | w.strip(l) == l :: read(l) == w.KindOf(l)
    ensures Halves(Map(read, After(w, raw, mbed, blank))) ==
            if PairOrdered(w, raw) then Halves(Map(read, raw)) else [true, false]
  {
    var plan := PlanGitignore(w, raw, mbed);
    var tail := Tail(w, blank, plan.append);
    HalvesOfBoth(read, plan.kept, tail);
    TailKinds(w, read, raw, mbed, blank);
    if PairOrdered(w, raw) { KeptHalves(w, read, raw); } else { KeptNoHalves(w, read, raw); }
  }

  // ---------------------------------------------------------------- the fixpoint

  lemma {:induction false} AfterIsOrdered(w: Words, raw: seq<string>, mbed: bool, blank: bool)
    requires w.Valid()
    ensures PairOrdered(w, After(w, raw, mbed, blank))
  {
    var read := (l: string) => w.KindOf(l);
    HalvesAfter(w, read, raw, mbed, blank);
    assert Map(read, After(w, raw, mbed, blank)) == Kinds(w, After(w, raw, mbed, blank));
    assert Map(read, raw) == Kinds(w, raw);
  }

  lemma {:induction false} AfterHasNoSuperseded(w: Words, raw: seq<string>, mbed: bool, blank: bool)
    requires w.Valid()
    ensures forall l | l in After(w, raw, mbed, blank) :: !w.KindOf(l).Superseded?
  {
    var plan := PlanGitignore(w, raw, mbed);
    KeptHasNone(w, raw, PairOrdered(w, raw));
    forall l | l in After(w, raw, mbed, blank) ensures !w.KindOf(l).Superseded? {
      if l !in plan.kept {
        assert l in plan.append || l == "" || l == w.comment;
        assert l in plan.append ==> l in w.plain(mbed) || l == w.exclude || l == w.negation;
        assert w.Known(l, Entry) || w.Known(l, Exclude) || w.Known(l, Negation) || w.Known(l, Comment) || w.Known(l, Blank);
      }
    }
  }

  lemma {:induction false} EntriesArePresent(w: Words, raw: seq<string>, mbed: bool, blank: bool, e: string)
    requires w.Valid() && e in w.plain(mbed)
    ensures e in Present(w, After(w, raw, mbed, blank))
  {
    var plan, after := PlanGitignore(w, raw, mbed), After(w, raw, mbed, blank);
    if e in Present(w, plan.kept) {
      var i :| 0 <= i < |plan.kept| && !w.KindOf(plan.kept[i]).Blank? && !w.KindOf(plan.kept[i]).Comment? && e == w.strip(plan.kept[i]);
      assert after[i] == plan.kept[i];
    } else {
      assert e in plan.append;
      assert e in after;
      var i :| 0 <= i < |after| && after[i] == e;
      assert w.Known(e, Entry) && w.strip(after[i]) == e;
    }
  }

  /** A file that got its plan has the pair in order, no superseded form and every entry: the next
      plan keeps all of it and adds nothing. */
  lemma {:induction false} PlanIsFixpoint(w: Words, raw: seq<string>, mbed: bool, blank: bool)
    requires w.Valid()
    ensures
      var after := After(w, raw, mbed, blank);
      PlanGitignore(w, after, mbed) == Plan(after, {}, [])
  {
    var after := After(w, raw, mbed, blank);
    AfterIsOrdered(w, raw, mbed, blank);
    AfterHasNoSuperseded(w, raw, mbed, blank);
    KeepsAll(w, after, true);
    forall e | e in w.plain(mbed) ensures e in Present(w, after) { EntriesArePresent(w, raw, mbed, blank, e); }
    NoneMissing(w.plain(mbed), Present(w, after));
  }

  lemma {:induction false} NoneMissing(entries: seq<string>, present: set<string>)
    requires forall e | e in entries :: e in present
    ensures NotIn(entries, present) == []
  {
    if entries != [] { NoneMissing(entries[1..], present); }
  }

  /** The lines that are not the planner's own: neither the pair nor a superseded form. */
  function Unrelated(w: Words, lines: seq<string>): seq<string> { Kept(w, lines, false) }

  lemma {:induction false} UnrelatedConcat(w: Words, a: seq<string>, b: seq<string>)
    ensures Unrelated(w, a + b) == Unrelated(w, a) + Unrelated(w, b)
  {
    if a == [] {
      assert a + b == b;
    } else {
      assert (a + b)[1..] == a[1..] + b;
      UnrelatedConcat(w, a[1..], b);
    }
  }

  lemma {:induction false} UnrelatedOfKept(w: Words, raw: seq<string>, ordered: bool)
    ensures Unrelated(w, Kept(w, raw, ordered)) == Unrelated(w, raw)
  {
    if raw != [] {
      UnrelatedOfKept(w, raw[1..], ordered);
      if Dropped(w.KindOf(raw[0]), ordered) {
        assert Kept(w, raw, ordered) == Kept(w, raw[1..], ordered);
        assert Unrelated(w, raw) == Unrelated(w, raw[1..]);
      } else {
        assert Kept(w, raw, ordered)[1..] == Kept(w, raw[1..], ordered);
      }
    }
  }

  /** Every line that is neither a half of the pair nor a superseded form stays, as it is and in
      order; what comes after them is a blank line, the comment and missing entries. */
  lemma {:induction false} UnrelatedLinesStay(w: Words, raw: seq<string>, mbed: bool, blank: bool) returns (added: seq<string>)
    requires w.Valid()
    ensures Unrelated(w, After(w, raw, mbed, blank)) == Unrelated(w, raw) + added
    ensures forall l | l in added :: l == "" || l == w.comment || (l in w.plain(mbed) && l !in Present(w, PlanGitignore(w, raw, mbed).kept))
  {
    var plan := PlanGitignore(w, raw, mbed);
    var tail := Tail(w, blank, plan.append);
    added := Unrelated(w, tail);
    UnrelatedConcat(w, plan.kept, tail);
    UnrelatedOfKept(w, raw, PairOrdered(w, raw));
    KeptHasNone(w, tail, false);
    forall l | l in added ensures l == "" || l == w.comment || (l in w.plain(mbed) && l !in Present(w, plan.kept)) {
      assert l in tail && l != w.exclude && l != w.negation;
    }
  }
}
