/** The `.gitignore` that `init` writes: the texts of the planner, the file, and what git ignores by
    the result. */
module Gitignore {
  import opened Collections
  import opened PyText
  import opened GitignorePlan
  import opened GitText
  import GitIgnored

  const EXCLUDE := "**/.fw-context/*"
  const NEGATION := "!**/.fw-context/config.toml"
  const COMMENT := "# fw-context"
  const COMPILE_COMMANDS := "compile_commands.json"
  const MBED_CONFIG := "mbed_config.h"

  predicate IsSuperseded(t: string) {
    || t == ".fw-context/" || t == ".fw-context" || t == "/.fw-context/" || t == "/.fw-context"
    || t == ".fw-context/*" || t == "!.fw-context/config.toml"
  }

  function KindOfText(t: string): Kind {
    if t == EXCLUDE then Exclude
    else if t == NEGATION then Negation
    else if IsSuperseded(t) then Superseded
    else if t == "" then Blank
    else if t[0] == '#' then Comment
    else Entry
  }

  function Plain(mbed: bool): seq<string> { if mbed then [COMPILE_COMMANDS, MBED_CONFIG] else [COMPILE_COMMANDS] }

  function FwContext(): Words { Words(Strip, KindOfText, EXCLUDE, NEGATION, COMMENT, Plain) }

  lemma {:induction false} KindOfExclude()
    ensures KindOfText(EXCLUDE) == Exclude
  {
  }

  lemma {:induction false} KindOfNegation()
    ensures KindOfText(NEGATION) == Negation
  {
    assert NEGATION[0] != EXCLUDE[0];
  }

  lemma {:induction false} KindOfComment(t: string)
    requires t != "" && t[0] == '#'
    ensures KindOfText(t) == Comment
  {
  }

  lemma {:induction false} KindOfEntry(t: string)
    requires t != "" && (t[0] == 'c' || t[0] == 'm')
    ensures KindOfText(t) == Entry
  {
  }

  lemma {:induction false} KnownPair()
    ensures FwContext().Known(EXCLUDE, Exclude) && FwContext().Known(NEGATION, Negation)
  {
    StripExclude();
    StripNegation();
    KindOfExclude();
    KindOfNegation();
    KnownWord(EXCLUDE, Exclude);
    KnownWord(NEGATION, Negation);
  }

  lemma {:induction false} StripExclude()
    ensures Strip(EXCLUDE) == EXCLUDE
  {
    StripKeeps(EXCLUDE);
  }

  lemma {:induction false} StripNegation()
    ensures Strip(NEGATION) == NEGATION
  {
    StripKeeps(NEGATION);
  }

  lemma {:induction false} KnownComment()
    ensures FwContext().Known(COMMENT, Comment) && FwContext().Known("", Blank)
  {
    StripComment();
    StripKeeps("");
    KindOfComment(COMMENT);
  }

  lemma {:induction false} StripComment()
    ensures Strip(COMMENT) == COMMENT
  {
    StripKeeps(COMMENT);
  }

  lemma {:induction false} StripWord(e: string)
    requires e != "" && (e[0] == 'c' || e[0] == 'm') && !IsSpace(e[|e| - 1])
    ensures Strip(e) == e
  {
    assert !IsSpace(e[0]);
    StripKeeps(e);
  }

  lemma {:induction false} KnownWord(e: string, k: Kind)
    requires Strip(e) == e && KindOfText(e) == k
    ensures FwContext().Known(e, k)
  {
  }

  lemma {:induction false} KnownEntries(mbed: bool, e: string)
    requires e in Plain(mbed)
    ensures FwContext().Known(e, Entry)
  {
    StripWord(COMPILE_COMMANDS);
    StripWord(MBED_CONFIG);
    KindOfEntry(e);
    KnownWord(e, Entry);
  }

  lemma {:induction false} WordsAreValid()
    ensures FwContext().Valid()
  {
    var w := FwContext();
    KnownPair();
    KnownComment();
    forall mbed, e | e in w.plain(mbed) ensures w.Known(e, Entry) { KnownEntries(mbed, e); }
  }

  // ---------------------------------------------------------------- the file

  lemma {:induction false} KeptAreLines(w: Words, raw: seq<string>, ordered: bool)
    requires AreLines(raw)
    ensures AreLines(Kept(w, raw, ordered))
  {
    if raw != [] { KeptAreLines(w, raw[1..], ordered); }
  }

  ghost predicate WritesLines(w: Words) {
    IsLine(w.exclude) && IsLine(w.negation) && IsLine(w.comment) && forall mbed, e | e in w.plain(mbed) :: IsLine(e)
  }

  lemma {:induction false} FwContextWritesLines()
    ensures WritesLines(FwContext())
  {
    PairIsLines();
    EntriesAreLines();
  }

  lemma {:induction false} PairIsLines()
    ensures IsLine(EXCLUDE) && IsLine(NEGATION)
  {
  }

  lemma {:induction false} EntriesAreLines()
    ensures IsLine(COMMENT) && IsLine(COMPILE_COMMANDS) && IsLine(MBED_CONFIG)
  {
  }

  lemma {:induction false} AppendAreLines(w: Words, raw: seq<string>, mbed: bool)
    requires WritesLines(w)
    ensures AreLines(PlanGitignore(w, raw, mbed).append)
  {
    var append := PlanGitignore(w, raw, mbed).append;
    forall i | 0 <= i < |append| ensures IsLine(append[i]) {
      assert append[i] in w.plain(mbed) || append[i] == w.exclude || append[i] == w.negation;
    }
  }

  lemma {:induction false} UnlinesLast(ls: seq<string>, l: string)
    ensures Unlines(ls + [l]) == Unlines(ls) + l + "\n"
  {
    if ls == [] {
      assert ls + [l] == [l] && [l][1..] == [];
    } else {
      assert (ls + [l])[1..] == ls[1..] + [l];
      UnlinesLast(ls[1..], l);
    }
  }

  lemma {:induction false} RewrittenLines(kept: seq<string>)
    requires AreLines(kept)
    ensures SplitLines(RewrittenText(kept)) == kept
  {
    if kept != [] {
      JoinIsUnlines(kept);
      SplitUnlines(kept, "");
      assert Unlines(kept) + "" == Unlines(kept);
    }
  }

  lemma {:induction false} CommentedLines(comment: string, append: seq<string>)
    requires AreLines(append) && IsLine(comment)
    ensures SplitLines(comment + "\n" + Unlines(append)) == [comment] + append
  {
    SplitFirst(comment, Unlines(append));
    SplitUnlines(append, "");
    assert Unlines(append) + "" == Unlines(append);
  }

  lemma {:induction false} LinesAfterText(t: string, comment: string, append: seq<string>)
    requires AreLines(append) && IsLine(comment) && t != ""
    ensures SplitLines(t + "\n" + comment + "\n" + Unlines(append)) == SplitLines(t) + (if EndsInBreak(t) then [""] else []) + ([comment] + append)
  {
    CommentedLines(comment, append);
    SplitAppend(t, comment + "\n" + Unlines(append));
    RegroupText(t + "\n", comment, "\n", Unlines(append));
  }

  lemma {:induction false} RegroupText(a: string, b: string, c: string, d: string)
    ensures a + b + c + d == a + (b + c + d)
  {
  }

  lemma {:induction false} AppendedLines(w: Words, t: string, start: string, append: seq<string>)
    requires AreLines(append) && IsLine(w.comment) && append != []
    requires start == if t != "" then t + "\n" + w.comment + "\n" else w.comment + "\n"
    ensures SplitLines(start + Unlines(append)) == SplitLines(t) + Tail(w, EndsInBreak(t), append)
  {
    if t != "" {
      LinesAfterText(t, w.comment, append);
    } else {
      CommentedLines(w.comment, append);
    }
    TailSplits(w, SplitLines(t), EndsInBreak(t), append);
  }

  lemma {:induction false} TailSplits(w: Words, ls: seq<string>, blank: bool, append: seq<string>)
    requires append != []
    ensures ls + (if blank then [""] else []) + ([w.comment] + append) == ls + Tail(w, blank, append)
  {
  }

  /** `"\n".join(kept) + "\n"`, or nothing for no lines. */
  function RewrittenText(kept: seq<string>): string { if kept != [] then JoinLines(kept) + "\n" else "" }

  function WrittenText(w: Words, base: string, append: seq<string>): string {
    if append == [] then base
    else (if base != "" then base + "\n" else "") + w.comment + "\n" + Unlines(append)
  }

  /** The text of a file that got its plan. */
  function AfterText(w: Words, text: string, mbed: bool): string {
    var plan := PlanGitignore(w, SplitLines(text), mbed);
    WrittenText(w, if plan.removed != {} then RewrittenText(plan.kept) else text, plan.append)
  }

  lemma {:induction false} WrittenLines(w: Words, base: string, append: seq<string>)
    requires AreLines(append) && IsLine(w.comment)
    ensures SplitLines(WrittenText(w, base, append)) == SplitLines(base) + Tail(w, EndsInBreak(base), append)
  {
    if append != [] {
      AppendedLines(w, base, if base != "" then base + "\n" + w.comment + "\n" else w.comment + "\n", append);
      assert "" + w.comment == w.comment;
    }
  }

  /** Its lines, as the planner reads them, are the planned ones. */
  lemma {:induction false} AfterTextLines(w: Words, text: string, mbed: bool) returns (blank: bool)
    requires WritesLines(w)
    ensures SplitLines(AfterText(w, text, mbed)) == After(w, SplitLines(text), mbed, blank)
  {
    var raw := SplitLines(text);
    var plan := PlanGitignore(w, raw, mbed);
    var base := if plan.removed != {} then RewrittenText(plan.kept) else text;
    blank := EndsInBreak(base);
    KeptAreLines(w, raw, PairOrdered(w, raw));
    AppendAreLines(w, raw, mbed);
    RewrittenLines(plan.kept);
    if plan.removed == {} { NothingRemoved(w, raw, PairOrdered(w, raw)); }
    WrittenLines(w, base, plan.append);
  }

  /** A second run changes nothing. */
  lemma {:induction false} AfterTextIsFixpoint(w: Words, text: string, mbed: bool)
    requires w.Valid() && WritesLines(w)
    ensures
      var after := AfterText(w, text, mbed);
      && PlanGitignore(w, SplitLines(after), mbed) == Plan(SplitLines(after), {}, [])
      && AfterText(w, after, mbed) == after
  {
    var blank := AfterTextLines(w, text, mbed);
    PlanIsFixpoint(w, SplitLines(text), mbed, blank);
  }

  class GitignoreFile {
    /** None where there is no file. */
    var text: Option<string>

    function Text(): string
      reads this
    {
      if text.Some? then text.value else ""
    }

    /** `_ensure_gitignore` without its messages and I/O errors. */
    method EnsureGitignore(w: Words, fix: bool, mbed: bool)
      modifies this
      ensures
        var plan := PlanGitignore(w, SplitLines(old(Text())), mbed);
        text == if !fix || (plan.append == [] && plan.removed == {}) then old(text) else Some(AfterText(w, old(Text()), mbed))
    {
      var raw := SplitLines(Text());
      var plan := PlanGitignore(w, raw, mbed);
      if plan.append == [] && plan.removed == {} { return; }
      if !fix { return; }
      WriteGitignore(w, if plan.removed != {} then Some(plan.kept) else None, plan.append);
    }

    /** `_write_gitignore`: rewrite the kept lines if a line was removed, then append. */
    method WriteGitignore(w: Words, kept: Option<seq<string>>, append: seq<string>)
      modifies this
      ensures Text() == WrittenText(w, if kept.Some? then RewrittenText(kept.value) else old(Text()), append)
      ensures text == if kept.None? && append == [] then old(text) else Some(Text())
    {
      if kept.Some? { text := Some(if kept.value != [] then JoinLines(kept.value) + "\n" else ""); }
      if append == [] { return; }
      var out := Text();
      if |out| > 0 { out := out + "\n"; }
      out := out + w.comment + "\n";
      ghost var start := out;
      for i := 0 to |append|
        invariant out == start + Unlines(append[..i])
      {
        UnlinesLast(append[..i], append[i]);
        assert append[..i] + [append[i]] == append[..i + 1];
        out := out + append[i] + "\n";
      }
      assert append[..|append|] == append;
      text := Some(out);
    }
  }

  // ---------------------------------------------------------------- what git makes of it

  function GitKind(line: string): Kind { KindOfText(GitTrim(line)) }

  lemma {:induction false} KindIsHalf(t: string)
    ensures KindOfText(t).Exclude? ==> t == EXCLUDE
    ensures KindOfText(t).Negation? ==> t == NEGATION
  {
  }

  /** Git and the planner agree on a line that git reads as a half of the pair. */
  lemma {:induction false} GitAgreesOnHalf(line: string)
    requires GitKind(line).Exclude? || GitKind(line).Negation?
    ensures GitKind(line) == FwContext().KindOf(line)
  {
    KindIsHalf(GitTrim(line));
    TrimmedHalf(line, GitTrim(line));
  }

  lemma {:induction false} GitAgreesOnStripped(line: string)
    requires Strip(line) == line
    ensures GitKind(line) == FwContext().KindOf(line)
  {
    StrippedEnd(line);
  }

  lemma {:induction false} GitAgrees()
    ensures GitIgnored.Agrees(FwContext(), GitKind)
  {
    forall l ensures GitKind(l).Exclude? || GitKind(l).Negation? ==> GitKind(l) == FwContext().KindOf(l) {
      if GitKind(l).Exclude? || GitKind(l).Negation? { GitAgreesOnHalf(l); }
    }
    forall l | FwContext().strip(l) == l ensures GitKind(l) == FwContext().KindOf(l) { GitAgreesOnStripped(l); }
  }

  lemma {:induction false} LinesHaveNoNewline(ls: seq<string>)
    requires AreLines(ls)
    ensures forall i | 0 <= i < |ls| :: '\n' !in ls[i]
  {
    forall i | 0 <= i < |ls| ensures '\n' !in ls[i] { assert IsLine(ls[i]); }
  }

  lemma {:induction false} CommentedGitLines(comment: string, append: seq<string>)
    requires AreLines(append) && IsLine(comment)
    ensures GitLines(comment + "\n" + Unlines(append)) == [comment] + append
  {
    LinesHaveNoNewline(append);
    GitUnlines(append);
    assert comment + "\n" + Unlines(append) == comment + (['\n'] + Unlines(append));
    GitSplitAt(comment, Unlines(append));
  }

  lemma {:induction false} GitLinesAfterText(t: string, comment: string, append: seq<string>)
    requires AreLines(append) && IsLine(comment) && t != ""
    ensures GitLines(t + "\n" + comment + "\n" + Unlines(append)) == GitLines(t) + (if EndsInNewline(t) then [""] else []) + ([comment] + append)
  {
    CommentedGitLines(comment, append);
    GitAppend(t, comment + "\n" + Unlines(append));
    RegroupText(t + "\n", comment, "\n", Unlines(append));
  }

  /** What git finds after a text that stays and the lines that are added to it. */
  lemma {:induction false} WrittenGitLines(w: Words, base: string, append: seq<string>)
    requires AreLines(append) && IsLine(w.comment)
    ensures GitLines(WrittenText(w, base, append)) == GitLines(base) + Tail(w, EndsInNewline(base), append)
  {
    if append != [] {
      if base != "" {
        GitLinesAfterText(base, w.comment, append);
      } else {
        CommentedGitLines(w.comment, append);
        assert WrittenText(w, base, append) == w.comment + "\n" + Unlines(append);
      }
      TailSplits(w, GitLines(base), EndsInNewline(base), append);
    }
  }

  lemma {:induction false} RewrittenGitLines(kept: seq<string>)
    requires AreLines(kept)
    ensures GitLines(RewrittenText(kept)) == kept
  {
    LinesHaveNoNewline(kept);
    if kept != [] { JoinIsUnlines(kept); }
    GitUnlines(kept);
  }

  /** The lines in which git looks for the pair that the planner found: a rewrite has made the
      planner's lines the ones of git. */
  function PairLines(w: Words, text: string, mbed: bool): seq<string> {
    if PlanGitignore(w, SplitLines(text), mbed).removed == {} then GitLines(text) else SplitLines(text)
  }

  lemma {:induction false} PlannedTextSplits(w: Words, kind: string -> Kind, text: string, mbed: bool)
    requires w.Valid() && WritesLines(w) && GitIgnored.Agrees(w, kind)
    ensures
      GitIgnored.GivesSplit(kind, GitLines(AfterText(w, text, mbed))) <==>
      (PairOrdered(w, SplitLines(text)) ==> Ordered(Map(kind, PairLines(w, text, mbed))))
  {
    var raw := SplitLines(text);
    var plan := PlanGitignore(w, raw, mbed);
    AppendAreLines(w, raw, mbed);
    if plan.removed == {} {
      WrittenGitLines(w, text, plan.append);
      GitIgnored.AppendedFileSplitsExactly(w, kind, GitLines(text), raw, mbed, EndsInNewline(text));
    } else {
      var base := RewrittenText(plan.kept);
      KeptAreLines(w, raw, PairOrdered(w, raw));
      RewrittenGitLines(plan.kept);
      WrittenGitLines(w, base, plan.append);
      GitIgnored.PlannedFileSplitsExactly(w, kind, raw, mbed, EndsInNewline(base));
    }
  }

  /** After a plan was applied, git ignores all of every `.fw-context` but its `config.toml`, at any
      depth, exactly when the planner put the pair there, or git reads the pair that the planner
      found as it stands: on lines of its own, without blanks before it or tabs after it. */
  lemma {:induction false} PlannedFileGivesSplit(w: Words, text: string, mbed: bool)
    requires w == FwContext()
    ensures
      GitIgnored.GivesSplit(GitKind, GitLines(AfterText(w, text, mbed))) <==>
      (PairOrdered(w, SplitLines(text)) ==> Ordered(Map(GitKind, PairLines(w, text, mbed))))
  {
    WordsAreValid();
    FwContextWritesLines();
    GitAgrees();
    PlannedTextSplits(w, GitKind, text, mbed);
  }

  lemma {:induction false} PlannedPairIsLast(w: Words, kind: string -> Kind, text: string, mbed: bool)
    requires w.Valid() && WritesLines(w) && GitIgnored.Agrees(w, kind) && !PairOrdered(w, SplitLines(text))
    ensures GitIgnored.EndsWithPair(kind, GitLines(AfterText(w, text, mbed)))
  {
    var raw := SplitLines(text);
    var plan := PlanGitignore(w, raw, mbed);
    var base := if plan.removed != {} then RewrittenText(plan.kept) else text;
    AppendAreLines(w, raw, mbed);
    WrittenGitLines(w, base, plan.append);
    var entries := NotIn(w.plain(mbed), Present(w, plan.kept));
    TailEndsWithPair(w, GitLines(base), EndsInNewline(base), entries);
    assert w.Known(w.exclude, Exclude) && w.Known(w.negation, Negation);
  }

  lemma {:induction false} TailEndsWithPair(w: Words, front: seq<string>, blank: bool, entries: seq<string>)
    ensures
      var lines := front + Tail(w, blank, entries + [w.exclude, w.negation]);
      |lines| >= 2 && lines[|lines| - 2] == w.exclude && lines[|lines| - 1] == w.negation
  {
    var append := entries + [w.exclude, w.negation];
    assert append[|append| - 2] == w.exclude && append[|append| - 1] == w.negation;
  }

  lemma {:induction false} LastPairShowsConfig(w: Words, git: GitIgnored.Git, text: string, mbed: bool, dir: GitIgnored.Path)
    requires w.Valid() && WritesLines(w) && GitIgnored.Agrees(w, git.kind) && !PairOrdered(w, SplitLines(text))
    requires GitIgnored.FW !in dir
    ensures ConfigSeenExactly(git, GitLines(AfterText(w, text, mbed)), dir)
  {
    PlannedPairIsLast(w, git.kind, text, mbed);
    GitIgnored.ConfigIsSeenExactly(git, GitLines(AfterText(w, text, mbed)), dir);
  }

  ghost predicate ConfigSeenExactly(git: GitIgnored.Git, lines: seq<string>, dir: GitIgnored.Path) {
    && |lines| >= 2
    && (GitIgnored.Ignored(git, lines, dir + [GitIgnored.FW, GitIgnored.CONFIG], false) <==>
        exists n :: 1 <= n <= |dir| + 1 && GitIgnored.LastVerdict(git, lines[..|lines| - 2], (dir + [GitIgnored.FW])[..n], true).Excluded?)
  }

  /** Where the planner writes the pair, git sees a `config.toml` exactly when no line above the pair
      excludes its `.fw-context` or a directory above that, whatever else is in the file. */
  lemma {:induction false} WrittenPairShowsConfig(git: GitIgnored.Git, text: string, mbed: bool, dir: GitIgnored.Path)
    requires git.kind == GitKind && GitIgnored.FW !in dir && !PairOrdered(FwContext(), SplitLines(text))
    ensures ConfigSeenExactly(git, GitLines(AfterText(FwContext(), text, mbed)), dir)
  {
    WordsAreValid();
    FwContextWritesLines();
    GitAgrees();
    LastPairShowsConfig(FwContext(), git, text, mbed, dir);
  }

  lemma {:induction false} IndentedHalf(half: string)
    requires half != "" && !IsSpace(half[0]) && !IsSpace(half[|half| - 1])
    ensures Strip(" " + half) == half
    ensures !GitKind(" " + half).Exclude? && !GitKind(" " + half).Negation?
  {
    assert " " + half == [' '] + half;
    StripSpaceBefore(half);
    StripKeeps(half);
    IndentedIsNoHalf(" " + half);
  }

  lemma {:induction false} IndentedIsNoHalf(l: string)
    requires l != "" && l[0] == ' ' && l[|l| - 1] != ' '
    ensures !GitKind(l).Exclude? && !GitKind(l).Negation?
  {
    assert GitTrim(l) == l;
    KindIsHalf(l);
  }

  /** A pair that only the planner finds, because git reads its exclude as another pattern. */
  lemma {:induction false} PairForThePlannerOnly(w: Words, kind: string -> Kind, text: string, mbed: bool)
    requires w.Valid() && WritesLines(w) && GitIgnored.Agrees(w, kind)
    requires PairOrdered(w, SplitLines(text)) && Removed(w, SplitLines(text), true) == {}
    requires forall i | 0 <= i < |GitLines(text)| :: !kind(GitLines(text)[i]).Exclude?
    ensures !GitIgnored.GivesSplit(kind, GitLines(AfterText(w, text, mbed)))
  {
    NoExclude(Map(kind, GitLines(text)));
    PlannedTextSplits(w, kind, text, mbed);
  }

  lemma {:induction false} NoExclude(ks: seq<Kind>)
    requires forall i | 0 <= i < |ks| :: !ks[i].Exclude?
    ensures true !in Halves(ks)
  {
    if ks != [] { NoExclude(ks[1..]); }
  }

  /** Two lines after a text that ends in a line separator. */
  function TwoLines(a: string, b: string): string { a + (['\n'] + (b + ['\n'])) }

  function AfterSeparator(first: string, a: string, b: string): string { first + (['\U{2028}'] + TwoLines(a, b)) }

  lemma {:induction false} TwoSplit(a: string, b: string)
    requires IsLine(a) && IsLine(b)
    ensures SplitLines(TwoLines(a, b)) == [a, b]
  {
    assert b + ['\n'] == b + (['\n'] + "");
    SplitAt(b, '\n', "");
    SplitAt(a, '\n', b + ['\n']);
  }

  lemma {:induction false} ThreeSplit(first: string, a: string, b: string)
    requires IsLine(first) && IsLine(a) && IsLine(b)
    ensures SplitLines(AfterSeparator(first, a, b)) == [first, a, b]
  {
    TwoSplit(a, b);
    SplitAt(first, '\U{2028}', TwoLines(a, b));
  }

  lemma {:induction false} TwoGitSplit(a: string, b: string)
    requires '\n' !in a && '\n' !in b
    ensures GitLines(TwoLines(a, b)) == [a, b]
  {
    assert b + ['\n'] == b + (['\n'] + "");
    GitSplitAt(b, "");
    GitSplitAt(a, b + ['\n']);
  }

  lemma {:induction false} NoNewlineIn(l: string)
    requires IsLine(l)
    ensures '\n' !in l
  {
  }

  lemma {:induction false} ThreeGitSplit(first: string, a: string, b: string)
    requires IsLine(first) && IsLine(a) && IsLine(b)
    ensures GitLines(AfterSeparator(first, a, b)) == [first + ['\U{2028}'] + a, b]
  {
    NoNewlineIn(first);
    NoNewlineIn(a);
    NoNewlineIn(b);
    var l := first + ['\U{2028}'] + a;
    TwoGitSplit(l, b);
    assert AfterSeparator(first, a, b) == TwoLines(l, b);
  }

  lemma {:induction false} HiddenExclude(w: Words, kind: string -> Kind, first: string, mbed: bool)
    requires w.Valid() && WritesLines(w) && GitIgnored.Agrees(w, kind) && IsLine(first) && w.KindOf(first) == Entry
    requires !kind(first + ['\U{2028}'] + w.exclude).Exclude?
    ensures
      var text := AfterSeparator(first, w.exclude, w.negation);
      PairOrdered(w, SplitLines(text)) && !GitIgnored.GivesSplit(kind, GitLines(AfterText(w, text, mbed)))
  {
    var text := AfterSeparator(first, w.exclude, w.negation);
    ThreeSplit(first, w.exclude, w.negation);
    ThreeGitSplit(first, w.exclude, w.negation);
    PairAfterEntry(w, first);
    NegationIsRead(w, kind);
    PairForThePlannerOnly(w, kind, text, mbed);
  }

  lemma {:induction false} NegationIsRead(w: Words, kind: string -> Kind)
    requires w.Valid() && GitIgnored.Agrees(w, kind)
    ensures kind(w.negation) == Negation
  {
    assert w.Known(w.negation, Negation);
  }

  lemma {:induction false} PairAfterEntry(w: Words, first: string)
    requires w.Valid() && w.KindOf(first) == Entry
    ensures var raw := [first, w.exclude, w.negation]; PairOrdered(w, raw) && Removed(w, raw, true) == {}
  {
    var raw := [first, w.exclude, w.negation];
    HalvesOfThree(Kinds(w, raw));
    KeepsAll(w, raw, true);
  }

  lemma {:induction false} HalvesOfThree(ks: seq<Kind>)
    requires ks == [Entry, Exclude, Negation]
    ensures Ordered(ks)
  {
    HalfOfLast([Entry, Exclude], Negation);
    HalfOfLast([Entry], Exclude);
    NoHalves([Entry]);
    assert ks == [Entry, Exclude] + [Negation] && [Entry, Exclude] == [Entry] + [Exclude];
    assert Halves(ks) == [true, false];
  }

  lemma {:induction false} LongerIsNoHalf(l: string)
    requires l != "" && l[0] == 'm' && l[|l| - 1] != ' '
    ensures !GitKind(l).Exclude?
  {
    assert GitTrim(l) == l;
    KindIsHalf(l);
  }

  lemma {:induction false} LastOfExclude(l: string, exclude: string)
    requires exclude == EXCLUDE
    ensures (l + exclude)[|l + exclude| - 1] == '*'
  {
  }

  lemma {:induction false} TwoHalves(w: Words, a: string, b: string)
    requires w.KindOf(a) == Exclude && w.KindOf(b) == Negation
    ensures PairOrdered(w, [a, b]) && Removed(w, [a, b], true) == {}
  {
    assert Kinds(w, [a, b]) == [Kind.Exclude] + [Kind.Negation];
    HalfOfLast([Kind.Exclude], Kind.Negation);
    HalfOfLast([], Kind.Exclude);
    assert [] + [Kind.Exclude] == [Kind.Exclude];
    KeepsAll(w, [a, b], true);
  }

  lemma {:induction false} UnreadPair(w: Words, kind: string -> Kind, a: string, b: string, mbed: bool)
    requires w.Valid() && WritesLines(w) && GitIgnored.Agrees(w, kind) && IsLine(a) && IsLine(b)
    requires w.KindOf(a) == Exclude && w.KindOf(b) == Negation && !kind(a).Exclude? && !kind(b).Exclude?
    ensures
      PairOrdered(w, SplitLines(TwoLines(a, b))) && !GitIgnored.GivesSplit(kind, GitLines(AfterText(w, TwoLines(a, b), mbed)))
  {
    TwoHalves(w, a, b);
    NoNewlineIn(a);
    NoNewlineIn(b);
    TwoSplit(a, b);
    TwoGitSplit(a, b);
    PairForThePlannerOnly(w, kind, TwoLines(a, b), mbed);
  }

  lemma {:induction false} IndentedLine(half: string)
    requires IsLine(half)
    ensures IsLine(" " + half)
  {
  }

  /** An indented pair: the planner is content, git is not. */
  lemma {:induction false} IndentedPairIsNotRead(w: Words, mbed: bool)
    requires w == FwContext()
    ensures
      var text := TwoLines(" " + EXCLUDE, " " + NEGATION);
      PairOrdered(w, SplitLines(text)) && !GitIgnored.GivesSplit(GitKind, GitLines(AfterText(w, text, mbed)))
  {
    FwContextFits(w);
    IndentedLine(w.exclude);
    IndentedLine(w.negation);
    IndentedExclude(" " + EXCLUDE);
    IndentedNegation(" " + NEGATION);
    UnreadPair(w, GitKind, " " + EXCLUDE, " " + NEGATION, mbed);
  }

  lemma {:induction false} IndentedExclude(l: string)
    requires l == " " + EXCLUDE
    ensures FwContext().KindOf(l) == Exclude && !GitKind(l).Exclude?
  {
    IndentedHalf(EXCLUDE);
    KindOfExclude();
  }

  lemma {:induction false} IndentedNegation(l: string)
    requires l == " " + NEGATION
    ensures FwContext().KindOf(l) == Negation && !GitKind(l).Exclude?
  {
    IndentedHalf(NEGATION);
    KindOfNegation();
  }

  /** A line separator before the exclude, as no editor shows it: the planner finds the pair, git has
      one long line in place of its first half. */
  lemma {:induction false} OddBreakPairIsNotRead(w: Words, first: string, mbed: bool)
    requires w == FwContext() && first == "m"
    ensures
      var text := AfterSeparator(first, EXCLUDE, NEGATION);
      PairOrdered(w, SplitLines(text)) && !GitIgnored.GivesSplit(GitKind, GitLines(AfterText(w, text, mbed)))
  {
    FwContextFits(w);
    EntryOfOneLetter(first);
    SeparatedIsNoHalf(first, w.exclude);
    HiddenExclude(w, GitKind, first, mbed);
  }

  lemma {:induction false} FwContextFits(w: Words)
    requires w == FwContext()
    ensures w.Valid() && WritesLines(w) && GitIgnored.Agrees(w, GitKind) && w.exclude == EXCLUDE && w.negation == NEGATION
  {
    WordsAreValid();
    FwContextWritesLines();
    GitAgrees();
  }

  lemma {:induction false} SeparatedIsNoHalf(first: string, exclude: string)
    requires first == "m" && exclude == EXCLUDE
    ensures !GitKind(first + ['\U{2028}'] + exclude).Exclude?
  {
    LastOfExclude(first + ['\U{2028}'], exclude);
    LongerIsNoHalf(first + ['\U{2028}'] + exclude);
  }

  lemma {:induction false} EntryOfOneLetter(l: string)
    requires l == "m"
    ensures IsLine(l) && FwContext().KindOf(l) == Entry
  {
    StripWord(l);
    KindOfEntry(l);
  }
}
