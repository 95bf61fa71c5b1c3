/** What git ignores by the lines of a `.gitignore`: the last line that matches a path decides, and
    git does not look below an excluded directory.

    A path is the list of its segments below the directory of the file. */
module GitIgnored {
  import opened GitignorePlan

  type Path = seq<string>

  const FW := ".fw-context"
  const CONFIG := "config.toml"

  datatype Segment = AnyDirs | Any | Name(name: string)

  /** `**` stands for any number of directories, `*` for any one name. */
  predicate Matches(pattern: seq<Segment>, path: Path)
    decreases |pattern| + |path|
  {
    if pattern == [] then path == []
    else if pattern[0].AnyDirs? then Matches(pattern[1..], path) || (path != [] && Matches(pattern, path[1..]))
    else path != [] && (pattern[0].Any? || pattern[0].name == path[0]) && Matches(pattern[1..], path[1..])
  }

  const EXCLUDE_PATTERN := [AnyDirs, Name(FW), Any]
  const NEGATION_PATTERN := [AnyDirs, Name(FW), Name(CONFIG)]

  datatype Verdict = Excluded | Included | Silent

  /** How git reads the file: `kind` finds the two lines of the pair, `other` gives what any other
      line says on a path (which can be a directory). */
  datatype Git = Git(kind: string -> Kind, other: (string, Path, bool) -> Verdict)

  function LineVerdict(git: Git, line: string, p: Path, isDir: bool): Verdict {
    match git.kind(line)
    case Exclude => if Matches(EXCLUDE_PATTERN, p) then Excluded else Silent
    case Negation => if Matches(NEGATION_PATTERN, p) then Included else Silent
    case _ => git.other(line, p, isDir)
  }

  function LastVerdict(git: Git, lines: seq<string>, p: Path, isDir: bool): Verdict {
    if lines == [] then Silent
    else
      var v := LineVerdict(git, lines[|lines| - 1], p, isDir);
      if v.Silent? then LastVerdict(git, lines[..|lines| - 1], p, isDir) else v
  }

  /** `n` segments of the path: all but the whole are directories. */
  predicate ExcludedAt(git: Git, lines: seq<string>, p: Path, isDir: bool, n: nat)
    requires n <= |p|
  {
    LastVerdict(git, lines, p[..n], isDir || n < |p|).Excluded?
  }

  ghost predicate Ignored(git: Git, lines: seq<string>, p: Path, isDir: bool) {
    exists n :: 1 <= n <= |p| && ExcludedAt(git, lines, p, isDir, n)
  }

  predicate HiddenAt(p: Path, n: nat) { 2 <= n <= |p| && p[n - 2] == FW && p[n - 1] != CONFIG }

  /** The split that the rules are for: below a `.fw-context` everything but `config.toml`. */
  ghost predicate Hidden(p: Path) { exists n: nat :: HiddenAt(p, n) }

  // ---------------------------------------------------------------- the two patterns

  lemma {:induction false} AnyDirsMatches(rest: seq<Segment>, path: Path)
    requires |rest| == 2 && !rest[0].AnyDirs? && !rest[1].AnyDirs?
    ensures Matches([AnyDirs] + rest, path) <==> |path| >= 2 && Matches(rest, path[|path| - 2..])
    decreases |path|
  {
    var pattern := [AnyDirs] + rest;
    assert pattern[0].AnyDirs? && pattern[1..] == rest;
    assert Matches(pattern, path) <==> Matches(rest, path) || (path != [] && Matches(pattern, path[1..]));
    TwoSegments(rest, path);
    if |path| >= 1 {
      AnyDirsMatches(rest, path[1..]);
      if |path| > 2 { assert path[1..][|path| - 3..] == path[|path| - 2..]; }
      if |path| == 2 { assert path[0..] == path; }
    }
  }

  lemma {:induction false} TwoSegments(rest: seq<Segment>, path: Path)
    requires |rest| == 2 && !rest[0].AnyDirs? && !rest[1].AnyDirs?
    ensures Matches(rest, path) <==>
            |path| == 2 && (rest[0].Any? || rest[0].name == path[0]) && (rest[1].Any? || rest[1].name == path[1])
  {
    var r1 := rest[1..];
    assert r1[0] == rest[1] && r1[1..] == [];
    if |path| >= 2 {
      var p1 := path[1..];
      assert p1[0] == path[1];
      assert Matches(r1[1..], p1[1..]) <==> p1[1..] == [];
    }
  }

  lemma {:induction false} PairMatches(p: Path)
    ensures Matches(EXCLUDE_PATTERN, p) <==> |p| >= 2 && p[|p| - 2] == FW
    ensures Matches(NEGATION_PATTERN, p) <==> |p| >= 2 && p[|p| - 2] == FW && p[|p| - 1] == CONFIG
  {
    var e, n := [Name(FW), Any], [Name(FW), Name(CONFIG)];
    assert EXCLUDE_PATTERN == [AnyDirs] + e && NEGATION_PATTERN == [AnyDirs] + n;
    AnyDirsMatches(e, p);
    AnyDirsMatches(n, p);
    if |p| >= 2 {
      TwoSegments(e, p[|p| - 2..]);
      TwoSegments(n, p[|p| - 2..]);
    }
  }

  // ---------------------------------------------------------------- what the pair decides

  /** No other line has a say on this path. */
  ghost predicate OthersSilent(git: Git, lines: seq<string>, p: Path, isDir: bool) {
    forall i | 0 <= i < |lines| && !git.kind(lines[i]).Exclude? && !git.kind(lines[i]).Negation? ::
      git.other(lines[i], p, isDir).Silent?
  }

  ghost predicate OthersSilentBelow(git: Git, lines: seq<string>, p: Path, isDir: bool) {
    forall n | 1 <= n <= |p| :: OthersSilent(git, lines, p[..n], isDir || n < |p|)
  }

  lemma {:induction false} VerdictOfPair(git: Git, lines: seq<string>, p: Path, isDir: bool)
    requires OthersSilent(git, lines, p, isDir)
    ensures
      var h := Halves(Map(git.kind, lines));
      LastVerdict(git, lines, p, isDir) ==
      if |p| < 2 || p[|p| - 2] != FW || h == [] then Silent
      else if p[|p| - 1] != CONFIG then (if true in h then Excluded else Silent)
      else if h[|h| - 1] then Excluded else Included
    decreases |lines|
  {
    PairMatches(p);
    if lines == [] {
      assert Map(git.kind, lines) == [];
    } else {
      var front, line := lines[..|lines| - 1], lines[|lines| - 1];
      VerdictOfPair(git, front, p, isDir);
      HalfOfLast(Map(git.kind, front), git.kind(line));
      assert Map(git.kind, lines) == Map(git.kind, front) + [git.kind(line)];
    }
  }

  /** With the pair in order, and no other line on the path: git ignores a path exactly when it is
      below some `.fw-context`, at any depth, and not its `config.toml`. */
  lemma {:induction false} OrderedPairSplits(git: Git, lines: seq<string>, p: Path, isDir: bool)
    requires Ordered(Map(git.kind, lines)) && OthersSilentBelow(git, lines, p, isDir)
    ensures Ignored(git, lines, p, isDir) <==> Hidden(p)
  {
    forall n | 1 <= n <= |p|
      ensures ExcludedAt(git, lines, p, isDir, n) <==> HiddenAt(p, n)
    {
      VerdictOfPair(git, lines, p[..n], isDir || n < |p|);
    }
  }

  ghost predicate GivesSplit(kind: string -> Kind, lines: seq<string>) {
    forall other, p: Path, isDir | OthersSilentBelow(Git(kind, other), lines, p, isDir) ::
      Ignored(Git(kind, other), lines, p, isDir) <==> Hidden(p)
  }

  /** The order of the pair, as git reads it, is also needed. */
  lemma {:induction false} SplitExactly(kind: string -> Kind, lines: seq<string>)
    ensures GivesSplit(kind, lines) <==> Ordered(Map(kind, lines))
  {
    if Ordered(Map(kind, lines)) {
      forall other, p: Path, isDir | OthersSilentBelow(Git(kind, other), lines, p, isDir)
        ensures Ignored(Git(kind, other), lines, p, isDir) <==> Hidden(p)
      {
        OrderedPairSplits(Git(kind, other), lines, p, isDir);
      }
    }
    if GivesSplit(kind, lines) {
      var git := Git(kind, (line: string, p: Path, isDir: bool) => Silent);
      var h := Halves(Map(kind, lines));
      LocalIsHidden(git, lines);
      ConfigIsShown(git, lines);
    }
  }

  /** Git and the planner agree on what git reads as a half of the pair, and on text without blanks
      at its ends. */
  ghost predicate Agrees(w: Words, kind: string -> Kind) {
    && (forall l :: kind(l).Exclude? || kind(l).Negation? ==> kind(l) == w.KindOf(l))
    && (forall l | w.strip(l) == l :: kind(l) == w.KindOf(l))
  }

  /** Of a file that got its plan: git splits every `.fw-context` exactly when the planner put the
      pair there, or git reads in order the pair that the planner found. */
  lemma {:induction false} PlannedFileSplitsExactly(w: Words, kind: string -> Kind, raw: seq<string>, mbed: bool, blank: bool)
    requires w.Valid() && Agrees(w, kind)
    ensures GivesSplit(kind, After(w, raw, mbed, blank)) <==> (PairOrdered(w, raw) ==> Ordered(Map(kind, raw)))
  {
    HalvesAfter(w, kind, raw, mbed, blank);
    SplitExactly(kind, After(w, raw, mbed, blank));
  }

  /** The same where the planned lines go after a text that stays, and that git splits into lines of
      its own. */
  lemma {:induction false} AppendedFileSplitsExactly(w: Words, kind: string -> Kind, front: seq<string>, raw: seq<string>, mbed: bool, blank: bool)
    requires w.Valid() && Agrees(w, kind)
    ensures
      GivesSplit(kind, front + Tail(w, blank, PlanGitignore(w, raw, mbed).append)) <==>
      (PairOrdered(w, raw) ==> Ordered(Map(kind, front)))
  {
    var tail := Tail(w, blank, PlanGitignore(w, raw, mbed).append);
    TailKinds(w, kind, raw, mbed, blank);
    HalvesOfBoth(kind, front, tail);
    PairLast(Halves(Map(kind, front)));
    SplitExactly(kind, front + tail);
  }

  lemma {:induction false} PairLast(h: seq<bool>)
    ensures var r := h + [true, false]; true in r && !r[|r| - 1]
    ensures h + [] == h
  {
    assert (h + [true, false])[|h|] == true;
  }

  const LOCAL := "local.toml"

  lemma {:induction false} LocalIsHidden(git: Git, lines: seq<string>)
    requires GivesSplit(git.kind, lines) && forall l, p: Path, d :: git.other(l, p, d).Silent?
    ensures true in Halves(Map(git.kind, lines))
  {
    var p := [FW, LOCAL];
    assert HiddenAt(p, 2);
    assert OthersSilentBelow(Git(git.kind, git.other), lines, p, false);
    var n :| 1 <= n <= |p| && ExcludedAt(Git(git.kind, git.other), lines, p, false, n);
    VerdictOfPair(git, lines, p[..n], n < |p|);
  }

  lemma {:induction false} ConfigIsShown(git: Git, lines: seq<string>)
    requires GivesSplit(git.kind, lines) && forall l, p: Path, d :: git.other(l, p, d).Silent?
    ensures var h := Halves(Map(git.kind, lines)); h == [] || !h[|h| - 1]
  {
    var p := [FW, CONFIG];
    assert OthersSilentBelow(Git(git.kind, git.other), lines, p, false);
    assert !Ignored(Git(git.kind, git.other), lines, p, false);
    assert !ExcludedAt(Git(git.kind, git.other), lines, p, false, 2);
    assert p[..2] == p;
    VerdictOfPair(git, lines, p, false);
  }

  /** Why the blanket forms go: with any line that has the last word on the directory and excludes
      it, git ignores `config.toml`, whatever the pair says. */
  lemma {:induction false} BlanketHidesConfig(git: Git, lines: seq<string>, dir: Path)
    requires LastVerdict(git, lines, dir + [FW], true).Excluded?
    ensures Ignored(git, lines, dir + [FW, CONFIG], false)
  {
    var p := dir + [FW, CONFIG];
    assert p[..|dir| + 1] == dir + [FW];
    assert ExcludedAt(git, lines, p, false, |dir| + 1);
  }

  /** And the pair itself has no say on that directory, so it cannot bring the file back, unless the
      directory is itself in a `.fw-context`: there the exclude hides it. */
  lemma {:induction false} PairIsSilentOnDirectory(git: Git, line: string, dir: Path)
    requires git.kind(line).Exclude? || git.kind(line).Negation?
    ensures LineVerdict(git, line, dir + [FW], true).Silent? <==> git.kind(line).Negation? || dir == [] || dir[|dir| - 1] != FW
    ensures !LineVerdict(git, line, dir + [FW], true).Included?
  {
    PairMatches(dir + [FW]);
  }

  // ---------------------------------------------------------------- the pair at the end

  /** The last two lines are the pair. */
  ghost predicate EndsWithPair(kind: string -> Kind, lines: seq<string>) {
    |lines| >= 2 && kind(lines[|lines| - 2]).Exclude? && kind(lines[|lines| - 1]).Negation?
  }

  predicate InFwContext(q: Path) { |q| >= 2 && q[|q| - 2] == FW }

  lemma {:induction false} VerdictOfLastPair(git: Git, lines: seq<string>, q: Path, isDir: bool)
    requires EndsWithPair(git.kind, lines)
    ensures
      LastVerdict(git, lines, q, isDir) ==
      if !InFwContext(q) then LastVerdict(git, lines[..|lines| - 2], q, isDir)
      else if q[|q| - 1] == CONFIG then Included else Excluded
  {
    PairMatches(q);
    var front := lines[..|lines| - 1];
    assert front[|front| - 1] == lines[|lines| - 2] && front[..|front| - 1] == lines[..|lines| - 2];
    assert LastVerdict(git, front, q, isDir) == if InFwContext(q) then Excluded else LastVerdict(git, lines[..|lines| - 2], q, isDir);
  }

  /** The lines above the pair exclude the path, or a directory above it, at a place that the pair
      says nothing on. */
  ghost predicate ExcludedBefore(git: Git, front: seq<string>, p: Path, isDir: bool) {
    exists n :: 1 <= n <= |p| && !InFwContext(p[..n]) && ExcludedAt(git, front, p, isDir, n)
  }

  /** With the pair at the end, whatever the lines above it say: a path is ignored exactly when the
      split hides it, or those lines exclude it or a directory above it where the pair is silent. */
  lemma {:induction false} LastPairDecides(git: Git, lines: seq<string>, p: Path, isDir: bool)
    requires EndsWithPair(git.kind, lines)
    ensures Ignored(git, lines, p, isDir) <==> Hidden(p) || ExcludedBefore(git, lines[..|lines| - 2], p, isDir)
  {
    var front := lines[..|lines| - 2];
    forall n | 1 <= n <= |p|
      ensures ExcludedAt(git, lines, p, isDir, n) <==> HiddenAt(p, n) || (!InFwContext(p[..n]) && ExcludedAt(git, front, p, isDir, n))
    {
      VerdictOfLastPair(git, lines, p[..n], isDir || n < |p|);
    }
  }

  /** So git sees a `config.toml` exactly when no line above the pair excludes its `.fw-context`, or a
      directory above that. */
  lemma {:induction false} ConfigIsSeenExactly(git: Git, lines: seq<string>, dir: Path)
    requires EndsWithPair(git.kind, lines) && FW !in dir
    ensures
      Ignored(git, lines, dir + [FW, CONFIG], false) <==>
      exists n :: 1 <= n <= |dir| + 1 && LastVerdict(git, lines[..|lines| - 2], (dir + [FW])[..n], true).Excluded?
  {
    var p, d, front := dir + [FW, CONFIG], dir + [FW], lines[..|lines| - 2];
    LastPairDecides(git, lines, p, false);
    forall n: nat ensures !HiddenAt(p, n) {
      assert 2 <= n < |p| ==> p[n - 2] == dir[n - 2];
    }
    assert p[..|p|] == p && InFwContext(p);
    forall n | 1 <= n <= |dir| + 1
      ensures d[..n] == p[..n] && (ExcludedAt(git, front, p, false, n) <==> LastVerdict(git, front, d[..n], true).Excluded?)
      ensures !InFwContext(p[..n])
    {
    }
  }
}
