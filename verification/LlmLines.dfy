/** The patterns that the editor of the [llm] table puts to a line, one for each key, against one
    reading of the line that serves all keys.  The module LlmTable works on that reading. */
module LlmLines {
  import opened Collections
  import opened PyText

  // ---------------------------------------------------------------- the patterns

  /** `^key\s*=` on a stripped line, with `uncomment` `^#?\s*key\s*=`: the text before the equals
      sign is a hash or none, blanks, the key, blanks. */
  ghost predicate PatternMatches(line: string, key: string, uncomment: bool) {
    exists hash, before, after, rest :: Split(line, key, uncomment, hash, before, after, rest)
  }

  ghost predicate Split(line: string, key: string, uncomment: bool, hash: string, before: string, after: string, rest: string) {
    && line == hash + before + key + after + "=" + rest
    && AllSpace(before) && AllSpace(after)
    && (hash == "" || hash == "#") && (!uncomment ==> hash == "" && before == "")
  }

  // ---------------------------------------------------------------- one reading for all keys

  function FirstEquals(s: string): (k: nat)
    ensures k <= |s| && (forall i | 0 <= i < k :: s[i] != '=') && (k < |s| ==> s[k] == '=')
  {
    if s == [] || s[0] == '=' then 0
    else
      var k := FirstEquals(s[1..]);
      assert forall i | 0 < i < k + 1 :: s[i] == s[1..][i - 1];
      k + 1
  }

  /** An active entry, a commented one, or None for a line without an equals sign. */
  datatype Reading = Reading(active: bool, key: string)

  function Read(line: string): Option<Reading> {
    var k := FirstEquals(line);
    if k == |line| then None
    else if line[0] == '#' then Some(Reading(false, Strip(line[1..k])))
    else Some(Reading(true, Strip(line[..k])))
  }

  /** A key as the options of the table have it. */
  predicate PlainKey(key: string) {
    && key != "" && key[0] != '#' && !IsSpace(key[0]) && !IsSpace(key[|key| - 1])
    && forall i | 0 <= i < |key| :: key[i] != '='
  }

  // ---------------------------------------------------------------- the two agree

  lemma {:induction false} LStripIsBlank(s: string)
    ensures AllSpace(s[..|s| - |LStrip(s)|])
  {
    if s != "" && IsSpace(s[0]) {
      LStripIsBlank(s[1..]);
      var n := |s| - |LStrip(s)|;
      assert forall i | 0 < i < n :: s[i] == s[1..][..n - 1][i - 1];
    }
  }

  lemma {:induction false} RStripIsBlank(s: string)
    ensures AllSpace(s[|RStrip(s)|..])
  {
    if s != "" && IsSpace(s[|s| - 1]) {
      var t := s[..|s| - 1];
      RStripIsBlank(t);
      forall i | |RStrip(s)| <= i < |s| ensures IsSpace(s[i]) {
        if i < |s| - 1 { assert s[i] == t[|RStrip(t)|..][i - |RStrip(t)|]; }
      }
    }
  }

  lemma {:induction false} LParts(s: string) returns (before: string)
    ensures AllSpace(before) && s == before + LStrip(s)
  {
    LStripIsBlank(s);
    before := s[..|s| - |LStrip(s)|];
  }

  lemma {:induction false} RParts(s: string) returns (after: string)
    ensures AllSpace(after) && s == RStrip(s) + after
  {
    RStripIsBlank(s);
    after := s[|RStrip(s)|..];
  }

  /** What a strip cuts off, on both sides. */
  lemma {:induction false} StripParts(s: string) returns (before: string, after: string)
    ensures AllSpace(before) && AllSpace(after) && s == before + Strip(s) + after
  {
    before := LParts(s);
    after := RParts(LStrip(s));
    Associate(before, RStrip(LStrip(s)), after);
  }

  /** Where the pattern matches, the first equals sign stands after the key and its blanks. */
  lemma {:induction false} SplitEquals(line: string, key: string, uncomment: bool, hash: string, before: string, after: string, rest: string)
    requires PlainKey(key) && Split(line, key, uncomment, hash, before, after, rest)
    ensures
      var head := hash + before + key + after;
      FirstEquals(line) == |head| && |head| < |line| && line[..|head|] == head
  {
    var head := hash + before + key + after;
    forall i | 0 <= i < |head| ensures head[i] != '=' {
      var b := |hash| + |before|;
      if |hash| <= i < b { assert head[i] == before[i - |hash|]; }
      else if b <= i < b + |key| { assert head[i] == key[i - b]; }
      else if b + |key| <= i { assert head[i] == after[i - b - |key|]; }
    }
    assert line == head + "=" + rest;
    assert line[|head|] == '=';
    assert forall i | 0 <= i < |head| :: line[i] == head[i];
  }

  lemma {:induction false} CommentIsRead(line: string, head: string, inner: string, key: string)
    requires FirstEquals(line) == |head| < |line| && line[..|head|] == head && head == "#" + inner && Strip(inner) == key
    ensures Read(line) == Some(Reading(false, key))
  {
    assert line[0] == head[0] == '#';
    assert line[1..|head|] == head[1..] == inner;
  }

  lemma {:induction false} ActiveIsRead(line: string, head: string, key: string)
    requires FirstEquals(line) == |head| < |line| && line[..|head|] == head && Strip(head) == key
    requires head != "" && head[0] != '#'
    ensures Read(line) == Some(Reading(true, key))
  {
    assert line[0] == head[0];
  }

  lemma {:induction false} MatchedComment(line: string, key: string, before: string, after: string, rest: string)
    requires PlainKey(key) && Split(line, key, true, "#", before, after, rest)
    ensures Read(line) == Some(Reading(false, key))
  {
    SplitEquals(line, key, true, "#", before, after, rest);
    var inner := before + key + after;
    assert "#" + before + key + after == "#" + inner;
    assert Strip(inner) == key by { StripBlanks(before, key, after); }
    CommentIsRead(line, "#" + inner, inner, key);
  }

  lemma {:induction false} MatchedActive(line: string, key: string, after: string, rest: string)
    requires PlainKey(key) && Split(line, key, false, "", "", after, rest)
    ensures Read(line) == Some(Reading(true, key))
  {
    SplitEquals(line, key, false, "", "", after, rest);
    var inner := key + after;
    assert "" + "" + key + after == inner;
    assert Strip(inner) == key by {
      StripBlanks("", key, after);
      assert "" + key + after == inner;
    }
    ActiveIsRead(line, inner, key);
  }

  lemma {:induction false} SplitStarts(line: string, key: string, before: string, after: string, rest: string)
    requires PlainKey(key) && Split(line, key, true, "", before, after, rest) && !IsSpace(line[0])
    ensures before == "" && Split(line, key, false, "", "", after, rest)
  {
    NoBlankFirst(before, key + after + "=" + rest);
    assert line == before + (key + after + "=" + rest);
  }

  lemma {:induction false} MatchIsRead(line: string, key: string, uncomment: bool)
    requires PlainKey(key) && PatternMatches(line, key, uncomment) && (line == "" || !IsSpace(line[0]))
    ensures Read(line).Some? && Read(line).value.key == key && (uncomment || Read(line).value.active)
  {
    var hash, before, after, rest :| Split(line, key, uncomment, hash, before, after, rest);
    if hash == "#" {
      MatchedComment(line, key, before, after, rest);
    } else {
      SplitStarts(line, key, before, after, rest);
      MatchedActive(line, key, after, rest);
    }
  }

  lemma {:induction false} NoBlankFirst(before: string, s: string)
    requires AllSpace(before) && s != ""
    ensures before == "" || IsSpace((before + s)[0])
    ensures before == "" ==> (before + s)[0] == s[0]
  {
  }

  lemma {:induction false} LineParts(line: string, n: nat, k: nat, before: string, key: string, after: string)
    requires n <= k < |line| && line[k] == '=' && line[n..k] == before + key + after
    ensures line == line[..n] + before + key + after + "=" + line[k + 1..]
  {
    assert line == line[..n] + line[n..k] + [line[k]] + line[k + 1..];
    assert line[..n] + (before + key + after) == line[..n] + before + key + after;
  }

  lemma {:induction false} CommentIsMatched(line: string, inner: string, key: string, k: nat)
    requires 1 <= k < |line| && line[k] == '=' && line[0] == '#' && line[1..k] == inner && Strip(inner) == key
    ensures PatternMatches(line, key, true)
  {
    var before, after := StripParts(inner);
    CommentOfParts(line, key, k, before, after);
  }

  lemma {:induction false} CommentOfParts(line: string, key: string, k: nat, before: string, after: string)
    requires 1 <= k < |line| && line[..1] == "#" && line[k] == '=' && line[1..k] == before + key + after
    requires AllSpace(before) && AllSpace(after)
    ensures PatternMatches(line, key, true)
  {
    LineParts(line, 1, k, before, key, after);
    assert Split(line, key, true, "#", before, after, line[k + 1..]);
  }

  lemma {:induction false} ActiveIsMatched(line: string, key: string, k: nat, uncomment: bool)
    requires k == FirstEquals(line) < |line| && Strip(line[..k]) == key && key != "" && !IsSpace(line[0])
    ensures PatternMatches(line, key, uncomment)
  {
    var before, after := StripParts(line[..k]);
    Associate(before, key, after);
    NoBlankFirst(before, key + after);
    assert line[..k][0] == line[0];
    ActiveOfParts(line, key, k, after, uncomment);
  }

  lemma {:induction false} ActiveOfParts(line: string, key: string, k: nat, after: string, uncomment: bool)
    requires k < |line| && line[k] == '=' && line[..k] == key + after && AllSpace(after)
    ensures PatternMatches(line, key, uncomment)
  {
    var rest := line[k + 1..];
    assert line == line[..k] + [line[k]] + rest;
    assert "" + "" + key + after == key + after;
    assert Split(line, key, uncomment, "", "", after, rest);
  }

  lemma {:induction false} ReadIsMatched(line: string, key: string, uncomment: bool)
    requires PlainKey(key) && (line == "" || !IsSpace(line[0]))
    requires Read(line).Some? && Read(line).value.key == key && (uncomment || Read(line).value.active)
    ensures PatternMatches(line, key, uncomment)
  {
    if line[0] == '#' {
      CommentIsMatched(line, line[1..FirstEquals(line)], key, FirstEquals(line));
    } else {
      ActiveIsMatched(line, key, FirstEquals(line), uncomment);
    }
  }

  /** For every stripped line and every key: the pattern of the key matches exactly when the one
      reading of the line gives that key, from an active entry unless comments count too. */
  lemma {:induction false} PatternsAreOneReading(line: string, key: string, uncomment: bool)
    requires PlainKey(key) && (line == "" || !IsSpace(line[0]))
    ensures PatternMatches(line, key, uncomment)
            <==> Read(line).Some? && Read(line).value.key == key && (uncomment || Read(line).value.active)
  {
    if PatternMatches(line, key, uncomment) { MatchIsRead(line, key, uncomment); }
    if Read(line).Some? && Read(line).value.key == key && (uncomment || Read(line).value.active) {
      ReadIsMatched(line, key, uncomment);
    }
  }

  /** A line as the editor writes it reads as an active entry of its key. */
  lemma {:induction false} WrittenLineReads(key: string, value: string)
    requires PlainKey(key)
    ensures Read(key + " = " + value) == Some(Reading(true, key))
  {
    var line := key + " = " + value;
    assert line == "" + "" + key + " " + "=" + (" " + value);
    assert Split(line, key, false, "", "", " ", " " + value);
    assert line[0] == key[0];
    MatchIsRead(line, key, false);
  }
}
