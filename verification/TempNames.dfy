/** The owner token in the name of a temporary file: its printer, the two patterns that read it back,
    the liveness rule on it, and the two cleaners of a directory. */
module TempNames {
  import opened Collections
  import opened Decimals

  // ---------------------------------------------------------------- the printer

  predicate TagChar(c: char) {
    'A' <= c <= 'Z' || 'a' <= c <= 'z' || IsDigit(c) || c == '.' || c == '_' || c == '-'
  }

  predicate AllTagChars(s: string) { forall i | 0 <= i < |s| :: TagChar(s[i]) }

  /** `re.sub(r"[^A-Za-z0-9.-]", "_", host)`. */
  function Cleaned(host: string): (r: string)
    ensures |r| == |host| && AllTagChars(r)
  {
    if host == [] then []
    else [if TagChar(host[0]) then host[0] else '_'] + Cleaned(host[1..])
  }

  /** `re.sub(r"\D", "", link)`. */
  function DigitsOf(link: string): (r: string)
    ensures AllDigits(r)
  {
    if link == [] then [] else (if IsDigit(link[0]) then [link[0]] else []) + DigitsOf(link[1..])
  }

  /** `_owner_tag`; no link where /proc is missing. */
  function OwnerTag(host: string, link: Option<string>): string {
    var h := if host == [] then "_" else Cleaned(host);
    if link.None? || DigitsOf(link.value) == [] then h else h + "-" + DigitsOf(link.value)
  }

  /** Whatever the host is called, its tag is one that the patterns accept. */
  lemma {:induction false} TagIsAccepted(host: string, link: Option<string>)
    ensures OwnerTag(host, link) != [] && AllTagChars(OwnerTag(host, link))
  {
  }

  function Token(pid: nat, tag: string): string { Decimal(pid) + "@" + tag }

  // ---------------------------------------------------------------- the patterns

  /** Index of the first '@' from `i` on, or the length. */
  function FirstAt(s: string, i: nat): (k: nat)
    requires i <= |s|
    ensures i <= k <= |s|
    ensures forall j | i <= j < k :: s[j] != '@'
    ensures k < |s| ==> s[k] == '@'
    decreases |s| - i
  {
    if i == |s| || s[i] == '@' then i else FirstAt(s, i + 1)
  }

  /** `\d+@[A-Za-z0-9._-]+`, all of `s`. */
  predicate IsToken(s: string) {
    var k := FirstAt(s, 0);
    0 < k && k + 1 < |s| && AllDigits(s[..k]) && AllTagChars(s[k + 1..])
  }

  /** A token from `j` to the end of `s`; a `$` there also matches before a newline that ends `s`. */
  function TokenFrom(s: string, j: nat, dollar: bool): Option<string>
    requires j <= |s|
  {
    if IsToken(s[j..]) then Some(s[j..])
    else if dollar && j < |s| && s[|s| - 1] == '\n' && IsToken(s[j..|s| - 1]) then Some(s[j..|s| - 1])
    else None
  }

  /** Leftmost match of a dot and a token at the end. */
  function SearchAfterDot(s: string, i: nat, dollar: bool): Option<string>
    requires i <= |s|
    decreases |s| - i
  {
    if i == |s| then None
    else if s[i] == '.' && TokenFrom(s, i + 1, dollar).Some? then TokenFrom(s, i + 1, dollar)
    else SearchAfterDot(s, i + 1, dollar)
  }

  /** `_OWNER_TOKEN_AT_END.search`: at the start, or after a dot. */
  function TokenAtEnd(s: string): Option<string> {
    if TokenFrom(s, 0, true).Some? then TokenFrom(s, 0, true) else SearchAfterDot(s, 0, true)
  }

  predicate StartsWith(s: string, p: string) { p <= s }

  predicate EndsWith(s: string, p: string) { |p| <= |s| && s[|s| - |p|..] == p }

  function RemoveSuffix(s: string, p: string): string { if EndsWith(s, p) then s[..|s| - |p|] else s }

  /** `temporary_owner` on the name of a path. */
  function TemporaryOwner(name: string, stem: string, suffix: string): Option<string> {
    var prefix := "." + stem + ".";
    if !StartsWith(name, prefix) || !EndsWith(name, suffix) then None
    else TokenAtEnd(RemoveSuffix(name[|prefix|..], suffix))
  }

  /** `_TMP_OWNER.search` on a name that the glob gave, so it ends with ".tmp". */
  function TmpOwner(name: string): Option<string> {
    if EndsWith(name, ".tmp") then SearchAfterDot(name[..|name| - 4], 0, false) else None
  }

  // ---------------------------------------------------------------- tokens and where they stand

  lemma {:induction false} TokenSplits(pid: nat, tag: string)
    requires AllTagChars(tag)
    ensures FirstAt(Token(pid, tag), 0) == |Decimal(pid)|
    ensures Token(pid, tag)[..|Decimal(pid)|] == Decimal(pid) && Token(pid, tag)[|Decimal(pid)| + 1..] == tag
    ensures tag != [] ==> IsToken(Token(pid, tag))
  {
    DecimalReadsBack(pid);
    var s, d := Token(pid, tag), Decimal(pid);
    assert forall j | 0 <= j < |d| :: s[j] == d[j] && IsDigit(d[j]);
    assert s[|d|] == '@';
    assert s[..|d|] == d && s[|d| + 1..] == tag;
  }

  /** A token has one '@', digits before it and tag characters after it. */
  lemma {:induction false} TokenShape(s: string, k: nat)
    requires k < |s| && s[k] == '@'
    ensures IsToken(s) ==> AllDigits(s[..k]) && AllTagChars(s[k + 1..])
  {
    var f := FirstAt(s, 0);
    assert f < k ==> s[f + 1..][k - f - 1] == s[k];
  }

  /** What precedes a token and its dot makes no token of the longer text. */
  lemma {:induction false} NoLongerToken(x: string, t: string, end: string)
    requires IsToken(t)
    ensures !IsToken(x + "." + t + end)
  {
    var s := x + "." + t + end;
    var k := FirstAt(t, 0);
    assert s[|x| + 1 + k] == t[k] == '@';
    assert s[..|x| + 1 + k][|x|] == '.';
    TokenShape(s, |x| + 1 + k);
  }

  lemma {:induction false} NoTokenFromBefore(x: string, t: string, j: nat, dollar: bool)
    requires IsToken(t) && j <= |x|
    ensures TokenFrom(x + "." + t, j, dollar).None?
  {
    var s := x + "." + t;
    assert s[j..] == x[j..] + "." + t + "";
    NoLongerToken(x[j..], t, "");
    TokenEndsInTag(t);
    assert s[|s| - 1] == t[|t| - 1];
  }

  lemma {:induction false} TokenEndsInTag(t: string)
    requires IsToken(t)
    ensures TagChar(t[|t| - 1])
  {
    var k := FirstAt(t, 0);
    assert t[|t| - 1] == t[k + 1..][|t| - k - 2];
  }

  lemma {:induction false} SearchFindsToken(x: string, t: string, i: nat, dollar: bool)
    requires IsToken(t) && i <= |x|
    ensures SearchAfterDot(x + "." + t, i, dollar) == Some(t)
    decreases |x| - i
  {
    var s := x + "." + t;
    if i == |x| {
      assert s[i] == '.' && s[i + 1..] == t;
    } else {
      NoTokenFromBefore(x, t, i + 1, dollar);
      SearchFindsToken(x, t, i + 1, dollar);
    }
  }

  /** The token at the end of any text, after a dot or alone, is the one that the search gives. */
  lemma {:induction false} TokenAtEndIsFound(x: Option<string>, t: string)
    requires IsToken(t)
    ensures TokenAtEnd(if x.Some? then x.value + "." + t else t) == Some(t)
  {
    if x.Some? {
      NoTokenFromBefore(x.value, t, 0, true);
      SearchFindsToken(x.value, t, 0, true);
    } else {
      assert t[0..] == t;
    }
  }

  // ---------------------------------------------------------------- round trips

  function Inner(inner: Option<string>): string { if inner.Some? then inner.value + "." else "" }

  /** `.<stem>.[<name>.]<token><suffix>`. */
  function TemporaryName(stem: string, inner: Option<string>, token: string, suffix: string): string {
    "." + stem + "." + Inner(inner) + token + suffix
  }

  /** For every stem, inner name (with dots and '@' too), suffix, PID and accepted tag, the reader
      gives exactly the token that the printer put there. */
  lemma {:induction false} TemporaryOwnerReadsBack(stem: string, inner: Option<string>, pid: nat, tag: string, suffix: string)
    requires tag != [] && AllTagChars(tag)
    ensures TemporaryOwner(TemporaryName(stem, inner, Token(pid, tag), suffix), stem, suffix) == Some(Token(pid, tag))
  {
    TokenSplits(pid, tag);
    MiddleIsFound(inner, Token(pid, tag));
    NameIsCut(stem, Inner(inner) + Token(pid, tag), suffix);
    NameParts(stem, inner, Token(pid, tag), suffix);
  }

  lemma {:induction false} MiddleIsFound(inner: Option<string>, t: string)
    requires IsToken(t)
    ensures TokenAtEnd(Inner(inner) + t) == Some(t)
  {
    TokenAtEndIsFound(inner, t);
    assert inner.None? ==> Inner(inner) + t == t;
  }

  lemma {:induction false} NameParts(stem: string, inner: Option<string>, token: string, suffix: string)
    ensures TemporaryName(stem, inner, token, suffix) == ("." + stem + ".") + (Inner(inner) + token) + suffix
  {
  }

  lemma {:induction false} NameIsCut(stem: string, middle: string, suffix: string)
    ensures TemporaryOwner(("." + stem + ".") + middle + suffix, stem, suffix) == TokenAtEnd(middle)
  {
    var prefix := "." + stem + ".";
    var name := prefix + middle + suffix;
    assert name[|prefix|..] == middle + suffix;
    assert prefix <= name;
    assert name[|name| - |suffix|..] == suffix;
    SuffixIsCut(middle, suffix);
  }

  lemma {:induction false} SuffixIsCut(middle: string, suffix: string)
    ensures RemoveSuffix(middle + suffix, suffix) == middle
  {
    var s := middle + suffix;
    assert s[|s| - |suffix|..] == suffix && s[..|s| - |suffix|] == middle;
  }

  /** `write_text_atomic`: `.<name>.<token>.tmp`. */
  function TmpName(target: string, token: string): string { "." + target + "." + token + ".tmp" }

  lemma {:induction false} TmpOwnerReadsBack(target: string, pid: nat, tag: string)
    requires tag != [] && AllTagChars(tag)
    ensures TmpOwner(TmpName(target, Token(pid, tag))) == Some(Token(pid, tag))
  {
    var t := Token(pid, tag);
    TokenSplits(pid, tag);
    var name := TmpName(target, t);
    assert EndsWith(name, ".tmp");
    assert name[..|name| - 4] == ("." + target) + "." + t;
    SearchFindsToken("." + target, t, 0, false);
  }

  lemma {:induction false} TokenIsInjective(pid: nat, tag: string, pid': nat, tag': string)
    requires AllTagChars(tag) && AllTagChars(tag')
    requires Token(pid, tag) == Token(pid', tag')
    ensures pid == pid' && tag == tag'
  {
    TokenSplits(pid, tag);
    TokenSplits(pid', tag');
    DecimalIsInjective(pid, pid');
  }

  /** Two writers share a temporary name only for one target, from one PID of one namespace. */
  lemma {:induction false} TmpNamesAreApart(target: string, pid: nat, tag: string, target': string, pid': nat, tag': string)
    requires tag != [] && AllTagChars(tag) && tag' != [] && AllTagChars(tag')
    requires TmpName(target, Token(pid, tag)) == TmpName(target', Token(pid', tag'))
    ensures target == target' && pid == pid' && tag == tag'
  {
    TmpOwnerReadsBack(target, pid, tag);
    TmpOwnerReadsBack(target', pid', tag');
    TokenIsInjective(pid, tag, pid', tag');
    var name := TmpName(target, Token(pid, tag));
    assert target == name[1..1 + |target|] && target' == name[1..1 + |target'|];
  }

  /** What the reader gives is a token, and it stands at the end of the name before the suffix. */
  lemma {:induction false} SearchIsSound(s: string, i: nat, dollar: bool)
    requires i <= |s|
    ensures
      var r := SearchAfterDot(s, i, dollar);
      r.Some? ==> IsToken(r.value) && (EndsWith(s, "." + r.value) || (dollar && EndsWith(s, "." + r.value + "\n")))
    decreases |s| - i
  {
    if i < |s| {
      if s[i] == '.' && TokenFrom(s, i + 1, dollar).Some? {
        TokenFromIsSound(s, i, dollar);
      } else {
        SearchIsSound(s, i + 1, dollar);
      }
    }
  }

  lemma {:induction false} TokenFromIsSound(s: string, i: nat, dollar: bool)
    requires i < |s| && s[i] == '.' && TokenFrom(s, i + 1, dollar).Some?
    ensures
      var r := TokenFrom(s, i + 1, dollar).value;
      IsToken(r) && (EndsWith(s, "." + r) || (dollar && EndsWith(s, "." + r + "\n")))
  {
    var r := TokenFrom(s, i + 1, dollar).value;
    if r == s[i + 1..] {
      assert s[i..] == "." + r;
    } else {
      assert s[i..] == "." + r + "\n";
    }
  }

  // ---------------------------------------------------------------- liveness

  /** What the probe of a PID says: a process runs, none does, or it cannot tell. */
  datatype Probe = Runs | Gone | Unknown

  /** `owner_is_dead`: `mine` is the tag of this process. */
  function OwnerIsDead(token: string, mine: string, probe: nat -> Probe): bool {
    var k := FirstAt(token, 0);
    if k == |token| || k == 0 || !AllDigits(token[..k]) || token[k + 1..] != mine then false
    else probe(Parse(token[..k])) == Gone
  }

  /** A token that a process printed: dead exactly when it is of this namespace and its PID is gone. */
  lemma {:induction false} DeadExactly(pid: nat, tag: string, mine: string, probe: nat -> Probe)
    requires AllTagChars(tag)
    ensures OwnerIsDead(Token(pid, tag), mine, probe) <==> tag == mine && probe(pid) == Gone
  {
    TokenSplits(pid, tag);
    DecimalReadsBack(pid);
  }

  // ---------------------------------------------------------------- the cleaners

  predicate DeadTmp(name: string, mine: string, probe: nat -> Probe) {
    TmpOwner(name).Some? && OwnerIsDead(TmpOwner(name).value, mine, probe)
  }

  predicate DeadTemporary(name: string, stem: string, suffix: string, mine: string, probe: nat -> Probe) {
    TemporaryOwner(name, stem, suffix).Some? && OwnerIsDead(TemporaryOwner(name, stem, suffix).value, mine, probe)
  }

  /** What `glob(".*.tmp")` gives of a name. */
  predicate GlobTmp(name: string) { |name| >= 5 && name[0] == '.' && EndsWith(name, ".tmp") }

  /** What `glob(".<stem>.*<suffix>")` gives of a name, for a stem and suffix without wildcards. */
  predicate GlobTemporary(name: string, stem: string, suffix: string) {
    |name| >= |stem| + 2 + |suffix| && StartsWith(name, "." + stem + ".") && EndsWith(name, suffix)
  }

  /** A target without an '@' in its name, as the program has them, is the temporary name of no
      writer, and no cleaner of temporary files takes it. */
  lemma {:induction false} TargetsAreNoTmpNames(target: string, mine: string, probe: nat -> Probe)
    requires '@' !in target
    ensures !DeadTmp(target, mine, probe)
    ensures forall other, pid, tag | tag != [] && AllTagChars(tag) :: target != TmpName(other, Token(pid, tag))
  {
    if EndsWith(target, ".tmp") {
      var s := target[..|target| - 4];
      SearchIsSound(s, 0, false);
      if TmpOwner(target).Some? { TokenHasAt(s, TmpOwner(target).value); }
    }
    forall other, pid, tag | tag != [] && AllTagChars(tag) ensures target != TmpName(other, Token(pid, tag)) {
      TmpOwnerReadsBack(other, pid, tag);
    }
  }

  lemma {:induction false} TokenHasAt(s: string, r: string)
    requires IsToken(r) && EndsWith(s, "." + r)
    ensures '@' in s
  {
    var k := FirstAt(r, 0);
    assert s[|s| - |r|..] == r;
    assert s[|s| - |r| + k] == r[k];
  }

  /** The writer's file goes exactly when its process is of this namespace and gone. */
  lemma {:induction false} StaleTmpExactly(target: string, pid: nat, tag: string, mine: string, probe: nat -> Probe)
    requires tag != [] && AllTagChars(tag)
    ensures GlobTmp(TmpName(target, Token(pid, tag)))
    ensures DeadTmp(TmpName(target, Token(pid, tag)), mine, probe) <==> tag == mine && probe(pid) == Gone
  {
    TmpOwnerReadsBack(target, pid, tag);
    DeadExactly(pid, tag, mine, probe);
  }

  lemma {:induction false} DeadTemporaryExactly(stem: string, inner: Option<string>, pid: nat, tag: string, suffix: string, mine: string, probe: nat -> Probe)
    requires tag != [] && AllTagChars(tag)
    ensures GlobTemporary(TemporaryName(stem, inner, Token(pid, tag), suffix), stem, suffix)
    ensures DeadTemporary(TemporaryName(stem, inner, Token(pid, tag), suffix), stem, suffix, mine, probe)
            <==> tag == mine && probe(pid) == Gone
  {
    TemporaryOwnerReadsBack(stem, inner, pid, tag, suffix);
    DeadExactly(pid, tag, mine, probe);
    NameIsListed(stem, inner, Token(pid, tag), suffix);
  }

  lemma {:induction false} NameIsListed(stem: string, inner: Option<string>, token: string, suffix: string)
    ensures GlobTemporary(TemporaryName(stem, inner, token, suffix), stem, suffix)
  {
    var prefix, name := "." + stem + ".", TemporaryName(stem, inner, token, suffix);
    assert name == prefix + (Inner(inner) + token) + suffix;
    assert prefix <= name;
    assert name[|name| - |suffix|..] == suffix;
  }

  /** What `remove_stale_tmp` removes. */
  function Stale(mine: string, probe: nat -> Probe): string -> bool {
    n => GlobTmp(n) && DeadTmp(n, mine, probe)
  }

  /** What `clear_dead_temporaries` removes; `locked` are the names whose unlink raises. */
  function Clearable(stem: string, suffix: string, locked: set<string>, mine: string, probe: nat -> Probe): string -> bool {
    n => GlobTemporary(n, stem, suffix) && DeadTemporary(n, stem, suffix, mine, probe) && n !in locked
  }

  ghost function Chosen(listing: seq<string>, goes: string -> bool): set<string> {
    set n | n in listing && goes(n)
  }

  lemma {:induction false} ChosenGrows(listing: seq<string>, i: nat, goes: string -> bool)
    requires Distinct(listing) && i < |listing|
    ensures Chosen(listing[..i + 1], goes) == Chosen(listing[..i], goes) + if goes(listing[i]) then {listing[i]} else {}
    ensures listing[i] !in Chosen(listing[..i], goes)
  {
    assert listing[..i + 1] == listing[..i] + [listing[i]];
  }

  class Directory {
    var names: set<string>

    /** `listing` is what the scan saw.  The first unlink that raises ends the scan: the names before
        it are gone. */
    method RemoveStaleTmp(listing: seq<string>, locked: set<string>, mine: string, probe: nat -> Probe)
        returns (removed: nat, raised: bool)
      requires Distinct(listing)
      modifies this
      ensures raised <==> Chosen(listing, Stale(mine, probe)) * locked != {}
      ensures !raised ==> names == old(names) - Chosen(listing, Stale(mine, probe))
      ensures !raised ==> removed == |Chosen(listing, Stale(mine, probe))|
      ensures raised ==>
                exists i :: 0 <= i < |listing| && listing[i] in locked && names == old(names) - Chosen(listing[..i], Stale(mine, probe))
    {
      removed, raised := RemoveUntilLocked(listing, locked, Stale(mine, probe));
    }

    /** `clear_dead_temporaries`: an unlink that fails is logged, and its file is not counted. */
    method ClearDeadTemporaries(listing: seq<string>, locked: set<string>, stem: string, suffix: string, mine: string, probe: nat -> Probe)
        returns (removed: nat)
      requires Distinct(listing)
      modifies this
      ensures names == old(names) - Chosen(listing, Clearable(stem, suffix, locked, mine, probe))
      ensures removed == |Chosen(listing, Clearable(stem, suffix, locked, mine, probe))|
    {
      removed := RemoveEach(listing, Clearable(stem, suffix, locked, mine, probe));
    }

    /** The loop of `remove_stale_tmp`. */
    method RemoveUntilLocked(listing: seq<string>, locked: set<string>, goes: string -> bool) returns (removed: nat, raised: bool)
      requires Distinct(listing)
      modifies this
      ensures raised <==> Chosen(listing, goes) * locked != {}
      ensures !raised ==> names == old(names) - Chosen(listing, goes) && removed == |Chosen(listing, goes)|
      ensures raised ==>
                exists i :: 0 <= i < |listing| && listing[i] in locked && names == old(names) - Chosen(listing[..i], goes)
    {
      removed, raised := 0, false;
      for i := 0 to |listing|
        invariant names == old(names) - Chosen(listing[..i], goes) && removed == |Chosen(listing[..i], goes)|
        invariant Chosen(listing[..i], goes) !! locked && !raised
      {
        var name := listing[i];
        ChosenGrows(listing, i, goes);
        if goes(name) {
          if name in locked {
            assert name in Chosen(listing, goes) * locked;
            raised := true;
            return;
          }
          names := names - {name};
          removed := removed + 1;
        }
      }
      assert listing[..|listing|] == listing;
    }

    /** The loop of `clear_dead_temporaries`. */
    method RemoveEach(listing: seq<string>, goes: string -> bool) returns (removed: nat)
      requires Distinct(listing)
      modifies this
      ensures names == old(names) - Chosen(listing, goes) && removed == |Chosen(listing, goes)|
    {
      removed := 0;
      for i := 0 to |listing|
        invariant names == old(names) - Chosen(listing[..i], goes) && removed == |Chosen(listing[..i], goes)|
      {
        var name := listing[i];
        ChosenGrows(listing, i, goes);
        if goes(name) {
          names := names - {name};
          removed := removed + 1;
        }
      }
      assert listing[..|listing|] == listing;
    }
  }
}
