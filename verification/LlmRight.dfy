/** When the editor of the [llm] table does what it promises: exactly when its scan and the reader
    agree on the lines that it touches. */
module LlmRight {
  import opened Collections
  import opened LlmTable
  import opened LlmEdit
  import opened LlmScan

  // ---------------------------------------------------------------- the script of the whole edit

  /** The clearing, and the table that is appended. */
  function BaseScript(lines: seq<Line>, clear: set<string>, updates: seq<Update>): seq<Step> {
    ClearScript(lines, clear, false) + if Appended(lines, clear, updates) == [] then [] else [Keep(BLANK), Keep(LLM)]
  }

  lemma {:induction false} AppendSteps(p: Pos, k: string)
    ensures
      var es := [Keep(BLANK), Keep(LLM)];
      Old(es) == APPENDED && New(es) == APPENDED && Neutral(es, p) && InTable(es, p) && Left(es, p, k) == 0
  {
    var es, last, none := [Keep(BLANK), Keep(LLM)], [Keep(LLM)], [];
    assert es[1..] == last && last[1..] == none;
    assert Old(last) == [LLM] + Old(none) && New(last) == [LLM] + New(none);
    assert Old(es) == [BLANK] + Old(last) && New(es) == [BLANK] + New(last);
    var q := Next(p, BLANK);
    assert !IsActive(BLANK, k) && !IsActive(LLM, k) && Left(none, Onward(q, last[0]), k) == 0;
    assert Neutral(last, q) && InTable(last, q) && Left(last, q, k) == 0;
  }

  lemma {:induction false} BaseScriptLines(lines: seq<Line>, clear: set<string>, updates: seq<Update>)
    ensures
      var es := BaseScript(lines, clear, updates);
      && Old(es) == lines + Appended(lines, clear, updates) && New(es) == Base(lines, clear, updates)
      && NoPuts(es) && (Unwritten(lines) ==> OfKeys(es, clear))
  {
    var a, more := ClearScript(lines, clear, false), Appended(lines, clear, updates);
    ClearScriptLines(lines, clear, false);
    ClearScriptOf(lines, clear, false);
    if more == [] {
      assert a + [] == a;
    } else {
      AppendSteps(TOP, "");
      LinesConcat(a, [Keep(BLANK), Keep(LLM)]);
    }
  }

  lemma {:induction false} BaseScriptStands(lines: seq<Line>, clear: set<string>, updates: seq<Update>, k: string)
    ensures
      var es := BaseScript(lines, clear, updates);
      && (Neutral(es, TOP) <==> DropsPlain(lines, clear, false, TOP))
      && (InTable(es, TOP) <==> DropsInTable(lines, clear, false, TOP))
      && Left(es, TOP, k) == Left(ClearScript(lines, clear, false), TOP, k)
  {
    var a, more := ClearScript(lines, clear, false), Appended(lines, clear, updates);
    ClearScriptStands(lines, clear, false, TOP);
    if more == [] {
      assert a + [] == a;
    } else {
      AppendSteps(AlongOld(a, TOP), k);
      StepConcat(a, [Keep(BLANK), Keep(LLM)], TOP, k);
    }
  }

  /** A script in the three parts that the editor goes by. */
  ghost predicate SplitsAt(es: seq<Step>, a: seq<Step>, b: seq<Step>, c: seq<Step>, t: Parts) {
    es == a + b + c && New(a) == t.pre && New(b) == t.body && New(c) == t.post
  }

  lemma {:induction false} ThreeParts(es: seq<Step>, t: Parts) returns (a: seq<Step>, b: seq<Step>, c: seq<Step>)
    requires t == PartsOf(New(es))
    ensures SplitsAt(es, a, b, c, t)
  {
    var base := New(es);
    var (start, end) := Bounds(base, 0, 0);
    var rest;
    a, rest := SplitScript(es, start);
    b, c := SplitScript(rest, end - start);
    CutTwice(base, start, end);
    Associate(a, b, c);
  }

  lemma {:induction false} CutTwice(base: seq<Line>, start: nat, end: nat)
    requires start <= end <= |base|
    ensures base[start..][..end - start] == base[start..end] && base[start..][end - start..] == base[end..]
  {
  }

  lemma {:induction false} PartsStand(a: seq<Step>, b: seq<Step>, c: seq<Step>, p: Pos, k: string)
    ensures
      var q := AlongOld(a, p);
      && (Neutral(a + b + c, p) <==> Neutral(a, p) && Neutral(b, q) && Neutral(c, AlongOld(b, q)))
      && (InTable(a + b + c, p) <==> InTable(a, p) && InTable(b, q) && InTable(c, AlongOld(b, q)))
      && Left(a + b + c, p, k) == Left(a, p, k) + Left(b, q, k) + Left(c, AlongOld(b, q), k)
  {
    StepConcat(a + b, c, p, k);
    StepConcat(a, b, p, k);
  }

  lemma {:induction false} PartsOfKeys(a: seq<Step>, b: seq<Step>, keys: set<string>)
    ensures OfKeys(a + b, keys) <==> OfKeys(a, keys) && OfKeys(b, keys)
    ensures NoPuts(a + b) <==> NoPuts(a) && NoPuts(b)
  {
    assert forall i | 0 <= i < |a| :: (a + b)[i] == a[i];
    assert forall i | 0 <= i < |b| :: (a + b)[|a| + i] == b[i];
  }

  lemma {:induction false} MoreKeys(es: seq<Step>, keys: set<string>, more: set<string>)
    requires OfKeys(es, keys) && keys <= more
    ensures OfKeys(es, more)
  {
  }

  lemma {:induction false} FreshAround(a: seq<Step>, b: seq<Step>, c: seq<Step>, keys: set<string>)
    requires NoPuts(a) && NoPuts(c) && FreshPuts(b, keys)
    ensures FreshPuts(a + b + c, keys) && PutTable(a + b + c) == PutTable(b)
    decreases |a| + |b|
  {
    var es := a + b + c;
    if a != [] {
      assert es[1..] == a[1..] + b + c && es[0] == a[0];
      PartsOfKeys([a[0]], a[1..], {});
      assert a == [a[0]] + a[1..];
      FreshAround(a[1..], b, c, keys);
      PutNone(es);
    } else if b != [] {
      assert es[0] == b[0];
      assert es[1..] == a + b[1..] + c;
      FreshAround(a, b[1..], c, if b[0].Put? then keys + {b[0].update.look.key} else keys);
    } else {
      assert es == c;
      NoPutsIsFresh(c, keys);
    }
  }

  /** The parts with the updates made. */
  ghost predicate IsScript(es: seq<Step>, base: seq<Step>, updates: seq<Update>, uncomment: bool, a: seq<Step>, b: seq<Step>, c: seq<Step>) {
    base == a + b + c && es == a + SetSteps(b, updates, uncomment) + c
  }

  lemma {:induction false} ScriptLines(es: seq<Step>, base: seq<Step>, updates: seq<Update>, uncomment: bool,
                                       a: seq<Step>, b: seq<Step>, c: seq<Step>, keys: set<string>)
    requires IsScript(es, base, updates, uncomment, a, b, c)
    requires NoPuts(base) && OfKeys(base, keys) && KeysOf(updates) <= keys && DistinctKeys(updates)
    ensures Old(es) == Old(base) && New(es) == New(a) + SetAll(New(b), updates, uncomment) + New(c)
    ensures OfKeys(es, keys) && FreshPuts(es, {}) && PutTable(es) == AsTable(updates)
  {
    var b' := SetSteps(b, updates, uncomment);
    PartsOfKeys(a + b, c, keys);
    PartsOfKeys(a, b, keys);
    SetStepsLines(b, updates, uncomment, keys);
    LinesOfThree(a, b, c);
    LinesOfThree(a, b', c);
    PartsOfKeys(a + b', c, keys);
    PartsOfKeys(a, b', keys);
    FreshAround(a, b', c, {});
  }

  lemma {:induction false} LinesOfThree(a: seq<Step>, b: seq<Step>, c: seq<Step>)
    ensures Old(a + b + c) == Old(a) + Old(b) + Old(c) && New(a + b + c) == New(a) + New(b) + New(c)
  {
    LinesConcat(a + b, c);
    LinesConcat(a, b);
  }

  lemma {:induction false} BodyStands(a: seq<Step>, b: seq<Step>, t: Parts, updates: seq<Update>, uncomment: bool)
    requires NoPuts(a) && NoPuts(b) && New(a) == t.pre && New(b) == t.body
    requires Neutral(a, TOP) && Neutral(b, AlongOld(a, TOP))
    ensures AlongOld(a, TOP) == Along(t.pre, TOP)
    ensures KeepsPlain(b, KeysOf(updates), AlongOld(a, TOP)) <==> MatchesPlain(t.body, KeysOf(updates), Along(t.pre, TOP))
    ensures PlacesInTable(b, updates, uncomment, AlongOld(a, TOP)) <==> PutsInTable(t, updates, uncomment)
  {
    var p := Along(t.pre, TOP);
    BaseStands(a, TOP, "", uncomment, {});
    BaseStands(b, p, "", uncomment, KeysOf(updates));
    forall i | 0 <= i < |updates|
      ensures PlaceOf(b, updates[i].look.key, uncomment, p) == PlaceIn(t, updates[i].look.key, uncomment)
    {
      BaseStands(b, p, updates[i].look.key, uncomment, {});
    }
  }

  lemma {:induction false} ScriptStands(es: seq<Step>, base: seq<Step>, updates: seq<Update>, uncomment: bool,
                                        a: seq<Step>, b: seq<Step>, c: seq<Step>, t: Parts)
    requires IsScript(es, base, updates, uncomment, a, b, c) && SplitsAt(base, a, b, c, t)
    requires NoPuts(base) && DistinctKeys(updates)
    requires Neutral(base, TOP) && MatchesPlain(t.body, KeysOf(updates), Along(t.pre, TOP))
    ensures Neutral(es, TOP)
    ensures InTable(es, TOP) <==> InTable(base, TOP) && PutsInTable(t, updates, uncomment)
  {
    var b', p := SetSteps(b, updates, uncomment), AlongOld(a, TOP);
    PartsOfKeys(a + b, c, {});
    PartsOfKeys(a, b, {});
    PartsStand(a, b, c, TOP, "");
    PartsStand(a, b', c, TOP, "");
    BodyStands(a, b, t, updates, uncomment);
    SetStepsStand(b, updates, uncomment, p, KeysOf(updates));
  }

  lemma {:induction false} ScriptLeaves(es: seq<Step>, base: seq<Step>, updates: seq<Update>, uncomment: bool,
                                        a: seq<Step>, b: seq<Step>, c: seq<Step>, t: Parts)
    requires IsScript(es, base, updates, uncomment, a, b, c) && SplitsAt(base, a, b, c, t)
    requires NoPuts(base) && DistinctKeys(updates)
    requires Neutral(base, TOP) && MatchesPlain(t.body, KeysOf(updates), Along(t.pre, TOP))
    ensures forall k | k !in KeysOf(updates) :: Left(es, TOP, k) == Left(base, TOP, k)
    ensures forall i | 0 <= i < |updates| :: Left(es, TOP, updates[i].look.key) == OthersIn(t, updates[i].look.key, uncomment)
  {
    var b', p := SetSteps(b, updates, uncomment), AlongOld(a, TOP);
    PartsOfKeys(a + b, c, {});
    PartsOfKeys(a, b, {});
    PartsStand(a, b, c, TOP, "");
    BodyStands(a, b, t, updates, uncomment);
    SetStepsStand(b, updates, uncomment, p, KeysOf(updates));
    forall k | k !in KeysOf(updates) ensures Left(es, TOP, k) == Left(base, TOP, k) {
      PartsStand(a, b, c, TOP, k);
      PartsStand(a, b', c, TOP, k);
      SetStepsPlaces(b, updates, uncomment, p, k);
    }
    forall i | 0 <= i < |updates|
      ensures Left(es, TOP, updates[i].look.key) == OthersIn(t, updates[i].look.key, uncomment)
    {
      var k := updates[i].look.key;
      PartsStand(a, b', c, TOP, k);
      SetStepsLeft(b, updates, uncomment, p, KeysOf(updates), i);
      LeftInParts(a, b, c, t, uncomment, k);
    }
  }

  lemma {:induction false} LeftInParts(a: seq<Step>, b: seq<Step>, c: seq<Step>, t: Parts, uncomment: bool, k: string)
    requires NoPuts(a) && NoPuts(b) && NoPuts(c) && SplitsAt(a + b + c, a, b, c, t)
    requires Neutral(a, TOP) && Neutral(b, AlongOld(a, TOP)) && Neutral(c, AlongOld(b, AlongOld(a, TOP)))
    ensures
      var p := AlongOld(a, TOP);
      Left(a, TOP, k) + OthersOf(b, k, uncomment, p) + Left(c, AlongOld(b, p), k) == OthersIn(t, k, uncomment)
  {
    var p := AlongOld(a, TOP);
    BaseStands(a, TOP, k, uncomment, {});
    BaseStands(b, p, k, uncomment, {});
    BaseStands(c, AlongOld(b, p), k, uncomment, {});
  }

  // ---------------------------------------------------------------- the condition

  /** The scan drops lines of the table only. */
  predicate ClearsInTable(lines: seq<Line>, clear: set<string>) { DropsInTable(lines, clear, false, TOP) }

  /** The scan drops every active line of a cleared key, unless a new value is set anyway. */
  predicate ClearsAll(lines: seq<Line>, clear: set<string>, updates: seq<Update>) {
    DropsAll(lines, clear, false, TOP, clear - KeysOf(updates))
  }

  /** A table that the editor does not see is not in the file. */
  predicate NoHiddenTable(lines: seq<Line>, clear: set<string>, updates: seq<Update>) {
    Appended(lines, clear, updates) != [] && ReadFile(lines).Some? ==> LLM_ID !in ReadFile(lines).value.tables
  }

  function PartsAfter(lines: seq<Line>, clear: set<string>, updates: seq<Update>): Parts { PartsOf(Base(lines, clear, updates)) }

  /** The scan touches lines of the table only, and sees the ones that it must drop. */
  predicate ScanAgrees(lines: seq<Line>, updates: seq<Update>, clear: set<string>, uncomment: bool) {
    && ClearsInTable(lines, clear) && ClearsAll(lines, clear, updates) && NoHiddenTable(lines, clear, updates)
    && PutsInTable(PartsAfter(lines, clear, updates), updates, uncomment)
  }

  /** An updated key has an active line besides the one where its value goes. */
  predicate Twice(lines: seq<Line>, updates: seq<Update>, clear: set<string>, uncomment: bool) {
    !NoOthers(PartsAfter(lines, clear, updates), updates, uncomment)
  }

  /** What a written file must say, seen from the file before: the table without the cleared keys
      and with the updates, all other tables and lines as before, and the lines that were written in
      the table. */
  ghost predicate IsEditOf(before: seq<Line>, after: seq<Line>, updates: seq<Update>, clear: set<string>) {
    var b, a := ReadFile(before), ReadFile(after);
    && b.Some? && a.Some?
    && TableOf(a.value, LLM_ID) == (TableOf(b.value, LLM_ID) - clear) + AsTable(updates)
    && (forall id | id != LLM_ID :: TableOf(a.value, id) == TableOf(b.value, id) && (id in a.value.tables <==> id in b.value.tables))
    && Rest(after, TOP, clear + KeysOf(updates)) == Rest(before, TOP, clear + KeysOf(updates)) + Appended(before, clear, updates)
    && WrittenInTable(after, TOP)
  }

  // ---------------------------------------------------------------- the script of an edit, with all that is to be said of it

  ghost predicate ScriptOf(es: seq<Step>, lines: seq<Line>, updates: seq<Update>, clear: set<string>, uncomment: bool) {
    && Old(es) == lines + Appended(lines, clear, updates) && New(es) == Edited(lines, updates, clear, uncomment)
    && OfKeys(es, clear + KeysOf(updates)) && FreshPuts(es, {}) && PutTable(es) == AsTable(updates) && Neutral(es, TOP)
  }

  /** A file that the edit may start from. */
  ghost predicate Editable(lines: seq<Line>, updates: seq<Update>, clear: set<string>) {
    ReadFile(lines).Some? && Unwritten(lines) && DistinctKeys(updates)
  }

  lemma {:induction false} Script(lines: seq<Line>, updates: seq<Update>, clear: set<string>, uncomment: bool) returns (es: seq<Step>)
    requires Unwritten(lines) && DistinctKeys(updates) && OneLineValues(lines, updates, clear)
    ensures ScriptOf(es, lines, updates, clear, uncomment)
    ensures InTable(es, TOP) <==> ClearsInTable(lines, clear) && PutsInTable(PartsAfter(lines, clear, updates), updates, uncomment)
    ensures forall k | k !in KeysOf(updates) :: Left(es, TOP, k) == Left(ClearScript(lines, clear, false), TOP, k)
    ensures forall i | 0 <= i < |updates| ::
              Left(es, TOP, updates[i].look.key) == OthersIn(PartsAfter(lines, clear, updates), updates[i].look.key, uncomment)
  {
    var base, t := BaseScript(lines, clear, updates), PartsAfter(lines, clear, updates);
    BaseScriptLines(lines, clear, updates);
    BaseScriptStands(lines, clear, updates, "");
    MoreKeys(base, clear, clear + KeysOf(updates));
    var a, b, c := ThreeParts(base, t);
    es := a + SetSteps(b, updates, uncomment) + c;
    ScriptLines(es, base, updates, uncomment, a, b, c, clear + KeysOf(updates));
    ScriptStands(es, base, updates, uncomment, a, b, c, t);
    ScriptLeaves(es, base, updates, uncomment, a, b, c, t);
    forall k | k !in KeysOf(updates) ensures Left(es, TOP, k) == Left(ClearScript(lines, clear, false), TOP, k) {
      BaseScriptStands(lines, clear, updates, k);
    }
    EditedInParts(lines, updates, clear, uncomment, t);
  }

  lemma {:induction false} EditedInParts(lines: seq<Line>, updates: seq<Update>, clear: set<string>, uncomment: bool, t: Parts)
    requires t == PartsAfter(lines, clear, updates)
    ensures Edited(lines, updates, clear, uncomment) == t.pre + SetAll(t.body, updates, uncomment) + t.post
  {
    var base := Base(lines, clear, updates);
    var (start, end) := Bounds(base, 0, 0);
    if start == 0 {
      NoTableNoUpdates(lines, updates, clear);
      assert base == base[..start] + base[start..end] + base[end..];
    }
  }

  lemma {:induction false} NoTableNoUpdates(lines: seq<Line>, updates: seq<Update>, clear: set<string>)
    requires Bounds(Base(lines, clear, updates), 0, 0).0 == 0
    ensures updates == []
  {
    var cleared := Cleared(lines, clear, false);
    if Bounds(cleared, 0, 0).0 == 0 { BoundsOfAppended(cleared, 0); }
    assert cleared + [] == cleared;
  }

  // ---------------------------------------------------------------- the appended table

  lemma {:induction false} ReadConcat(a: seq<Line>, b: seq<Line>, st: Reader)
    ensures Read(a + b, st) == match Read(a, st) case None => None case Some(st') => Read(b, st')
    decreases |a|
  {
    if a == [] {
      assert a + b == b;
    } else {
      assert (a + b)[1..] == a[1..] + b;
      match ReadLine(st, a[0])
      case None =>
      case Some(st') => ReadConcat(a[1..], b, st');
    }
  }

  lemma {:induction false} ReadAppended(st: Reader)
    requires st.mode.Out?
    ensures Read(APPENDED, st) ==
              if LLM_ID in st.tables then None else Some(st.(cur := LLM_ID, tables := st.tables[LLM_ID := map[]]))
  {
    assert APPENDED[1..] == [LLM] && [LLM][1..] == [];
    assert ReadLine(st, BLANK) == Some(st) && Read(APPENDED, st) == Read([LLM], st);
    if LLM_ID !in st.tables {
      var st' := st.(cur := LLM_ID, tables := st.tables[LLM_ID := map[]]);
      assert ReadLine(st, LLM) == Some(st') && Read([], st') == Some(st');
    }
  }

  lemma {:induction false} RestConcat(a: seq<Line>, b: seq<Line>, p: Pos, keys: set<string>)
    ensures Rest(a + b, p, keys) == Rest(a, p, keys) + Rest(b, Along(a, p), keys)
    decreases |a|
  {
    if a == [] {
      assert a + b == b;
    } else {
      assert (a + b)[1..] == a[1..] + b;
      RestConcat(a[1..], b, Next(p, a[0]), keys);
    }
  }

  lemma {:induction false} RestOfAppended(p: Pos, keys: set<string>)
    ensures Rest(APPENDED, p, keys) == APPENDED
  {
    assert APPENDED[1..] == [LLM] && [LLM][1..] == [];
    assert Rest([LLM], Next(p, BLANK), keys) == [LLM] + Rest([], Next(Next(p, BLANK), LLM), keys);
  }

  /** What must be said of the file before, and of the file with the table appended, is the same. */
  lemma {:induction false} SaysOfBefore(lines: seq<Line>, out: seq<Line>, updates: seq<Update>, clear: set<string>)
    requires ReadFile(lines).Some? && NoHiddenTable(lines, clear, updates)
    ensures
      var more := Appended(lines, clear, updates);
      && ReadFile(lines + more).Some?
      && (Says(lines + more, out, clear + KeysOf(updates), AsTable(updates), []) <==>
          Says(lines, out, clear + KeysOf(updates), AsTable(updates), more))
  {
    var more := Appended(lines, clear, updates);
    if more == [] {
      assert lines + more == lines;
      assert Rest(lines, TOP, clear + KeysOf(updates)) + [] == Rest(lines, TOP, clear + KeysOf(updates));
    } else {
      AppendedSays(lines, out, clear + KeysOf(updates), AsTable(updates));
    }
  }

  lemma {:induction false} ReadFileAppended(lines: seq<Line>)
    requires ReadFile(lines).Some? && LLM_ID !in ReadFile(lines).value.tables
    ensures
      var b, b' := ReadFile(lines).value, ReadFile(lines + APPENDED);
      b' == Some(b.(cur := LLM_ID, tables := b.tables[LLM_ID := map[]]))
  {
    ReadConcat(lines, APPENDED, START);
    ReadAppended(ReadFile(lines).value);
  }

  lemma {:induction false} AppendedTables(b: Reader)
    requires LLM_ID !in b.tables
    ensures
      var b' := b.(cur := LLM_ID, tables := b.tables[LLM_ID := map[]]);
      && TableOf(b', LLM_ID) == TableOf(b, LLM_ID)
      && forall id | id != LLM_ID :: TableOf(b', id) == TableOf(b, id) && (id in b'.tables <==> id in b.tables)
  {
  }

  lemma {:induction false} AppendedSays(lines: seq<Line>, out: seq<Line>, keys: set<string>, put: Table)
    requires ReadFile(lines).Some? && LLM_ID !in ReadFile(lines).value.tables
    ensures ReadFile(lines + APPENDED).Some?
    ensures Says(lines + APPENDED, out, keys, put, []) <==> Says(lines, out, keys, put, APPENDED)
  {
    ReadFileAppended(lines);
    AppendedTables(ReadFile(lines).value);
    RestConcat(lines, APPENDED, TOP, keys);
    RestOfAppended(Along(lines, TOP), keys);
    var rest := Rest(lines, TOP, keys) + APPENDED;
    assert rest + [] == rest;
  }

  lemma {:induction false} KeysOfTable(updates: seq<Update>)
    ensures AsTable(updates).Keys == KeysOf(updates)
    decreases |updates|
  {
    if updates != [] {
      FrontOfUpdates(updates);
      KeysOfTable(updates[..|updates| - 1]);
    }
  }

  lemma {:induction false} SaysIsEdit(lines: seq<Line>, out: seq<Line>, updates: seq<Update>, clear: set<string>)
    ensures IsEditOf(lines, out, updates, clear) <==>
            Says(lines, out, clear + KeysOf(updates), AsTable(updates), Appended(lines, clear, updates))
  {
    KeysOfTable(updates);
    forall t: Table ensures (t - clear) + AsTable(updates) == (t - (clear + KeysOf(updates))) + AsTable(updates) {}
  }

  /** With a table that the editor does not see, the appended one stands twice. */
  lemma {:induction false} HiddenTableIsRefused(lines: seq<Line>, updates: seq<Update>, clear: set<string>, uncomment: bool)
    requires ReadFile(lines).Some? && !NoHiddenTable(lines, clear, updates)
    ensures Read(Edited(lines, updates, clear, uncomment), START).None?
  {
    var cleared, more := Cleared(lines, clear, false), APPENDED;
    BoundsMeaning(cleared, 0, 0);
    NothingCleared(lines, clear);
    BoundsOfAppended(lines, 0);
    var base := lines + more;
    assert base[..|base|] == base;
    EditedInParts(lines, updates, clear, uncomment, PartsAfter(lines, clear, updates));
    ReadConcat(lines, more, START);
    ReadAppended(ReadFile(lines).value);
    assert base[|base|..] == [];
    var added := SetAll([], updates, uncomment);
    assert Edited(lines, updates, clear, uncomment) == base + added + [];
    assert base + added + [] == base + added;
    ReadConcat(base, added, START);
  }

  lemma {:induction false} NothingCleared(lines: seq<Line>, clear: set<string>)
    requires forall j | 0 <= j < |Cleared(lines, clear, false)| :: !IsLlm(Cleared(lines, clear, false)[j])
    ensures Cleared(lines, clear, false) == lines
    decreases |lines|
  {
    if lines != [] {
      var rest := Cleared(lines[1..], clear, InsideAfter(lines[0], false));
      assert Cleared(lines, clear, false) == [lines[0]] + rest;
      assert Cleared(lines, clear, false)[0] == lines[0];
      assert forall j | 0 <= j < |rest| :: rest[j] == Cleared(lines, clear, false)[j + 1];
      NothingCleared(lines[1..], clear);
    }
  }

  // ---------------------------------------------------------------- the theorem

  /** Nothing of the keys is left in the table exactly when the clearing sees all of the cleared
      keys and no updated key stands twice. */
  lemma {:induction false} LeftExactly(es: seq<Step>, lines: seq<Line>, updates: seq<Update>, clear: set<string>, uncomment: bool)
    requires forall k | k !in KeysOf(updates) :: Left(es, TOP, k) == Left(ClearScript(lines, clear, false), TOP, k)
    requires forall i | 0 <= i < |updates| ::
               Left(es, TOP, updates[i].look.key) == OthersIn(PartsAfter(lines, clear, updates), updates[i].look.key, uncomment)
    ensures (forall k | k in clear + KeysOf(updates) :: Left(es, TOP, k) == 0) <==>
            ClearsAll(lines, clear, updates) && !Twice(lines, updates, clear, uncomment)
  {
    var only := clear - KeysOf(updates);
    if ClearsAll(lines, clear, updates) {
      forall k | k in only ensures Left(es, TOP, k) == 0 { ClearScriptLeft(lines, clear, false, TOP, only, k); }
    } else {
      var k := ClearScriptMisses(lines, clear, false, TOP, only);
      assert k in clear && k !in KeysOf(updates);
    }
    if forall k | k in clear + KeysOf(updates) :: Left(es, TOP, k) == 0 {
      forall i | 0 <= i < |updates| ensures OthersIn(PartsAfter(lines, clear, updates), updates[i].look.key, uncomment) == 0 {
        assert updates[i].look.key in KeysOf(updates);
      }
    }
    if ClearsAll(lines, clear, updates) && !Twice(lines, updates, clear, uncomment) {
      forall k | k in clear + KeysOf(updates) ensures Left(es, TOP, k) == 0 {
        if k in KeysOf(updates) {
          var i :| 0 <= i < |updates| && updates[i].look.key == k;
        } else {
          assert k in only;
        }
      }
    }
  }

  /** Where no touched line opens or ends a string, the edited file says what it must exactly when
      the scan agrees with the reader on the lines of the keys, and no updated key has a second
      active line. */
  lemma {:induction false} EditIsRight(lines: seq<Line>, updates: seq<Update>, clear: set<string>, uncomment: bool)
    requires Editable(lines, updates, clear) && OneLineValues(lines, updates, clear)
    ensures
      IsEditOf(lines, Edited(lines, updates, clear, uncomment), updates, clear) <==>
      ScanAgrees(lines, updates, clear, uncomment) && !Twice(lines, updates, clear, uncomment)
  {
    var out := Edited(lines, updates, clear, uncomment);
    if NoHiddenTable(lines, clear, updates) {
      var es := Script(lines, updates, clear, uncomment);
      SaysOfBefore(lines, out, updates, clear);
      SaysIsEdit(lines, out, updates, clear);
      SaysExactly(es, clear + KeysOf(updates));
      LeftExactly(es, lines, updates, clear, uncomment);
    } else {
      HiddenTableIsRefused(lines, updates, clear, uncomment);
    }
  }

  /** Where the scan agrees with the reader, the text is refused exactly when a key stands twice; and
      a table that the editor does not see is always refused. */
  lemma {:induction false} RefusedExactly(lines: seq<Line>, updates: seq<Update>, clear: set<string>, uncomment: bool)
    requires Editable(lines, updates, clear)
    ensures OneLineValues(lines, updates, clear) && ScanAgrees(lines, updates, clear, uncomment) ==>
              (ReadFile(Edited(lines, updates, clear, uncomment)).None? <==> Twice(lines, updates, clear, uncomment))
    ensures !NoHiddenTable(lines, clear, updates) ==> ReadFile(Edited(lines, updates, clear, uncomment)).None?
  {
    if !NoHiddenTable(lines, clear, updates) { HiddenTableIsRefused(lines, updates, clear, uncomment); }
    if OneLineValues(lines, updates, clear) { EditIsRight(lines, updates, clear, uncomment); }
    if OneLineValues(lines, updates, clear) && ScanAgrees(lines, updates, clear, uncomment) && Twice(lines, updates, clear, uncomment) {
      var es := Script(lines, updates, clear, uncomment);
      var i :| 0 <= i < |updates| && OthersIn(PartsAfter(lines, clear, updates), updates[i].look.key, uncomment) != 0;
      KeysOfTable(updates);
      LeftIsRefused(es, clear + KeysOf(updates), updates[i].look.key);
    }
  }

  // ---------------------------------------------------------------- when a key stands twice

  function FirstMatch(body: seq<Line>, key: string, uncomment: bool): (r: Option<Line>)
    ensures r.Some? ==> Matches(r.value, key, uncomment)
    decreases |body|
  {
    if body == [] then None else if Matches(body[0], key, uncomment) then Some(body[0]) else FirstMatch(body[1..], key, uncomment)
  }

  lemma {:induction false} OthersAreCounted(body: seq<Line>, key: string, uncomment: bool, p: Pos)
    requires Place(body, key, uncomment, p) == TABLE
    ensures
      var f := FirstMatch(body, key, uncomment);
      Others(body, key, uncomment, p) + (if f.Some? && f.value.look.active then 1 else 0) == Count(body, p, key)
    decreases |body|
  {
    if body != [] && !Matches(body[0], key, uncomment) { OthersAreCounted(body[1..], key, uncomment, Next(p, body[0])); }
  }

  lemma {:induction false} CountConcat(a: seq<Line>, b: seq<Line>, p: Pos, k: string)
    ensures Count(a + b, p, k) == Count(a, p, k) + Count(b, Along(a, p), k) && Along(a + b, p) == Along(b, Along(a, p))
    decreases |a|
  {
    if a == [] {
      assert a + b == b;
    } else {
      assert (a + b)[1..] == a[1..] + b;
      CountConcat(a[1..], b, Next(p, a[0]), k);
    }
  }

  lemma {:induction false} LeftAreOld(es: seq<Step>, p: Pos, k: string)
    ensures Left(es, p, k) <= Count(Old(es), p, k)
    decreases |es|
  {
    if es != [] {
      NewAndOld(es);
      LeftAreOld(es[1..], Onward(p, es[0]), k);
    }
  }

  /** A valid file has a key once, and the clearing makes no more of it. */
  lemma {:induction false} OnceInBase(lines: seq<Line>, updates: seq<Update>, clear: set<string>, k: string)
    requires ReadFile(lines).Some? && DropsPlain(lines, clear, false, TOP)
    ensures Count(Base(lines, clear, updates), TOP, k) <= 1
  {
    var es := BaseScript(lines, clear, updates);
    BaseScriptLines(lines, clear, updates);
    BaseScriptStands(lines, clear, updates, k);
    BaseStands(es, TOP, k, false, {});
    ClearScriptLines(lines, clear, false);
    LeftAreOld(ClearScript(lines, clear, false), TOP, k);
    ReadStands(lines, START, k);
  }

  /** An updated key stands twice exactly when the table has an active line of it that is not cleared,
      and the scan comes to a commented line of it first, or does not see it at all. */
  lemma {:induction false} TwiceExactly(lines: seq<Line>, updates: seq<Update>, clear: set<string>, uncomment: bool, i: nat)
    requires Editable(lines, updates, clear) && OneLineValues(lines, updates, clear) && i < |updates|
    requires PutsInTable(PartsAfter(lines, clear, updates), updates, uncomment)
    ensures
      var k, t := updates[i].look.key, PartsAfter(lines, clear, updates);
      OthersIn(t, k, uncomment) > 0 <==>
      Count(Base(lines, clear, updates), TOP, k) == 1
      && (FirstMatch(t.body, k, uncomment).None? || !FirstMatch(t.body, k, uncomment).value.look.active)
  {
    var base, k, t := Base(lines, clear, updates), updates[i].look.key, PartsAfter(lines, clear, updates);
    var p := Along(t.pre, TOP);
    OnceInBase(lines, updates, clear, k);
    assert PlaceIn(t, k, uncomment) == TABLE;
    OthersAreCounted(t.body, k, uncomment, p);
    CountInParts(base, t, k);
  }

  lemma {:induction false} CountInParts(base: seq<Line>, t: Parts, k: string)
    requires t == PartsOf(base)
    ensures
      var p := Along(t.pre, TOP);
      Count(base, TOP, k) == Count(t.pre, TOP, k) + Count(t.body, p, k) + Count(t.post, Along(t.body, p), k)
  {
    assert base == t.pre + (t.body + t.post);
    CountConcat(t.pre, t.body + t.post, TOP, k);
    CountConcat(t.body, t.post, Along(t.pre, TOP), k);
  }

  // ---------------------------------------------------------------- ordinary files

  /** No string over several lines, and the [llm] header and the keys in the spelling that the editor knows. */
  predicate Ordinary(lines: seq<Line>, keys: set<string>) {
    forall i | 0 <= i < |lines| :: IsOrdinary(lines[i], keys)
  }

  predicate IsOrdinary(l: Line, keys: set<string>) {
    && (l.look.Entry? && l.look.active ==> l.opens.None? && (l.look.key in keys ==> l.look.plain))
    && (l.look.Header? && l.look.table == TABLE_NAME ==> l.look.plain)
  }

  lemma {:induction false} OrdinaryClearing(lines: seq<Line>, clear: set<string>, keys: set<string>, p: Pos)
    requires Ordinary(lines, keys) && clear <= keys && p.mode.Out?
    ensures DropsPlain(lines, clear, p.inLlm, p) && DropsInTable(lines, clear, p.inLlm, p)
    ensures forall only | only <= clear :: DropsAll(lines, clear, p.inLlm, p, only)
    ensures Ordinary(Cleared(lines, clear, p.inLlm), keys)
    decreases |lines|
  {
    if lines != [] {
      assert IsOrdinary(lines[0], keys) && forall i | 0 <= i < |lines| - 1 :: lines[1..][i] == lines[i + 1];
      OrdinaryClearing(lines[1..], clear, keys, Next(p, lines[0]));
    }
  }

  lemma {:induction false} OrdinaryAlong(lines: seq<Line>, keys: set<string>, p: Pos)
    requires Ordinary(lines, keys) && p.mode.Out?
    ensures Along(lines, p).mode.Out?
    decreases |lines|
  {
    if lines != [] {
      assert IsOrdinary(lines[0], keys) && forall i | 0 <= i < |lines| - 1 :: lines[1..][i] == lines[i + 1];
      OrdinaryAlong(lines[1..], keys, Next(p, lines[0]));
    }
  }

  lemma {:induction false} OrdinaryBody(body: seq<Line>, keys: set<string>, key: string, uncomment: bool)
    requires Ordinary(body, keys) && forall j | 0 <= j < |body| :: !IsHeader(body[j])
    ensures MatchesPlain(body, keys, TABLE) && Place(body, key, uncomment, TABLE) == TABLE
    decreases |body|
  {
    if body != [] {
      assert IsOrdinary(body[0], keys) && !IsHeader(body[0]);
      assert forall i | 0 <= i < |body| - 1 :: body[1..][i] == body[i + 1];
      OrdinaryBody(body[1..], keys, key, uncomment);
    }
  }

  lemma {:induction false} AlongLast(lines: seq<Line>, p: Pos)
    requires lines != []
    ensures Along(lines, p) == Next(Along(lines[..|lines| - 1], p), lines[|lines| - 1])
    decreases |lines|
  {
    if |lines| > 1 {
      AlongLast(lines[1..], Next(p, lines[0]));
      assert lines[..|lines| - 1][1..] == lines[1..][..|lines| - 2];
    }
  }

  /** The table of a base that has one. */
  lemma {:induction false} OrdinaryBase(base: seq<Line>, keys: set<string>, key: string, uncomment: bool)
    requires Ordinary(base, keys) && Bounds(base, 0, 0).0 > 0
    ensures
      var t := PartsOf(base);
      Along(t.pre, TOP) == TABLE && MatchesPlain(t.body, keys, TABLE) && PlaceIn(t, key, uncomment) == TABLE
  {
    var t := PartsOf(base);
    var (start, end) := Bounds(base, 0, 0);
    BoundsMeaning(base, 0, 0);
    assert t.pre[..start - 1] == base[..start - 1] && t.pre[start - 1] == base[start - 1];
    assert forall j | 0 <= j < |t.body| :: t.body[j] == base[start + j];
    OrdinaryAlong(t.pre[..start - 1], keys, TOP);
    AlongLast(t.pre, TOP);
    OrdinaryBody(t.body, keys, key, uncomment);
  }

  lemma {:induction false} FewerKeys(body: seq<Line>, keys: set<string>, fewer: set<string>, p: Pos)
    requires MatchesPlain(body, keys, p) && fewer <= keys
    ensures MatchesPlain(body, fewer, p)
    decreases |body|
  {
    if body != [] { FewerKeys(body[1..], keys, fewer, Next(p, body[0])); }
  }

  lemma {:induction false} NoUpdatesMatch(body: seq<Line>, p: Pos)
    ensures MatchesPlain(body, {}, p)
    decreases |body|
  {
    if body != [] { NoUpdatesMatch(body[1..], Next(p, body[0])); }
  }

  lemma {:induction false} NoTableIsRead(lines: seq<Line>, st: Reader)
    requires (forall j | 0 <= j < |lines| :: !(lines[j].look.Header? && lines[j].look.table == TABLE_NAME))
    requires LLM_ID !in st.tables && st.cur != LLM_ID && Read(lines, st).Some?
    ensures LLM_ID !in Read(lines, st).value.tables
    decreases |lines|
  {
    if lines != [] {
      assert forall i | 0 <= i < |lines| - 1 :: lines[1..][i] == lines[i + 1];
      NoTableIsRead(lines[1..], ReadLine(st, lines[0]).value);
    }
  }

  lemma {:induction false} OrdinaryTable(lines: seq<Line>, updates: seq<Update>, clear: set<string>, keys: set<string>)
    requires ReadFile(lines).Some? && Ordinary(lines, keys)
    ensures NoHiddenTable(lines, clear, updates)
  {
    if Appended(lines, clear, updates) != [] {
      BoundsMeaning(Cleared(lines, clear, false), 0, 0);
      NothingCleared(lines, clear);
      forall j | 0 <= j < |lines| ensures !(lines[j].look.Header? && lines[j].look.table == TABLE_NAME) {
        assert IsOrdinary(lines[j], keys);
      }
      NoTableIsRead(lines, START);
    }
  }

  /** In an ordinary file the scan agrees with the reader, whatever the edit. */
  lemma {:induction false} OrdinaryFilesAgree(lines: seq<Line>, updates: seq<Update>, clear: set<string>, uncomment: bool)
    requires ReadFile(lines).Some? && Ordinary(lines, clear + KeysOf(updates))
    ensures OneLineValues(lines, updates, clear) && ScanAgrees(lines, updates, clear, uncomment)
  {
    var keys, base := clear + KeysOf(updates), Base(lines, clear, updates);
    OrdinaryClearing(lines, clear, keys, TOP);
    OrdinaryTable(lines, updates, clear, keys);
    if updates == [] {
      assert KeysOf(updates) == {};
      NoUpdatesMatch(PartsOf(base).body, Along(PartsOf(base).pre, TOP));
    } else {
      if Bounds(base, 0, 0).0 == 0 { NoTableNoUpdates(lines, updates, clear); }
      OrdinaryConcat(Cleared(lines, clear, false), Appended(lines, clear, updates), keys);
      OrdinaryBase(base, keys, "", uncomment);
      FewerKeys(PartsOf(base).body, keys, KeysOf(updates), TABLE);
      forall i | 0 <= i < |updates| ensures PlaceIn(PartsOf(base), updates[i].look.key, uncomment) == TABLE {
        OrdinaryBase(base, keys, updates[i].look.key, uncomment);
      }
    }
  }

  lemma {:induction false} OrdinaryConcat(a: seq<Line>, b: seq<Line>, keys: set<string>)
    requires Ordinary(a, keys) && (b == [] || b == APPENDED)
    ensures Ordinary(a + b, keys)
  {
  }

  // ---------------------------------------------------------------- the editor

  /** `rewritten`: the new text is another one. */
  datatype Outcome = Refused | Done(lines: seq<Line>, rewritten: bool)

  function Unmarked(lines: seq<Line>): (r: seq<Line>)
    ensures |r| == |lines| && forall i | 0 <= i < |lines| :: r[i] == lines[i].(written := false)
  {
    seq(|lines|, i requires 0 <= i < |lines| => lines[i].(written := false))
  }

  /** The editor, on a valid file. */
  method EditLlmTable(lines: seq<Line>, updates: seq<Update>, clear: set<string>, uncomment: bool) returns (r: Outcome)
    requires Editable(lines, updates, clear)
    ensures r == if ReadFile(Edited(lines, updates, clear, uncomment)).None? then Refused
                 else Done(Edited(lines, updates, clear, uncomment), Unmarked(Edited(lines, updates, clear, uncomment)) != lines)
    ensures OneLineValues(lines, updates, clear) ==>
              (r.Done? && IsEditOf(lines, r.lines, updates, clear) <==>
               ScanAgrees(lines, updates, clear, uncomment) && !Twice(lines, updates, clear, uncomment))
    ensures OneLineValues(lines, updates, clear) && ScanAgrees(lines, updates, clear, uncomment) ==>
              (r.Refused? <==> Twice(lines, updates, clear, uncomment))
  {
    if OneLineValues(lines, updates, clear) { EditIsRight(lines, updates, clear, uncomment); }
    RefusedExactly(lines, updates, clear, uncomment);
    if updates == [] && clear == {} {
      NothingToDo(lines, uncomment);
      return Done(lines, false);
    }
    var out := RewriteLines(lines, updates, clear, uncomment);
    if ReadFile(out).None? { return Refused; }
    r := Done(out, Unmarked(out) != lines);
  }

  lemma {:induction false} NothingToDo(lines: seq<Line>, uncomment: bool)
    ensures Edited(lines, [], {}, uncomment) == lines
    ensures Unwritten(lines) ==> Unmarked(lines) == lines
  {
    NoneCleared(lines, false);
    EditedInParts(lines, [], {}, uncomment, PartsAfter(lines, {}, []));
    var base := Base(lines, {}, []);
    var (start, end) := Bounds(base, 0, 0);
    assert lines + [] == lines;
    assert base[..start] + base[start..end] + base[end..] == base;
  }

  lemma {:induction false} NoneCleared(lines: seq<Line>, inside: bool)
    ensures Cleared(lines, {}, inside) == lines
    decreases |lines|
  {
    if lines != [] { NoneCleared(lines[1..], InsideAfter(lines[0], inside)); }
  }
}
