/** The edit of the [llm] table as a script, and what the file must be like for it. */
module LlmScan {
  import opened Collections
  import opened LlmTable
  import opened LlmEdit

  // ---------------------------------------------------------------- conditions on the file

  /** The lines that the scan takes for ones of a cleared key stand in the table. */
  predicate DropsInTable(lines: seq<Line>, clear: set<string>, inside: bool, p: Pos)
    decreases |lines|
  {
    lines == []
    || ((inside && Mentions(lines[0], clear) ==> p == TABLE)
        && DropsInTable(lines[1..], clear, InsideAfter(lines[0], inside), Next(p, lines[0])))
  }

  /** The scan sees every active line of these keys that stands in the table. */
  predicate DropsAll(lines: seq<Line>, clear: set<string>, inside: bool, p: Pos, keys: set<string>)
    decreases |lines|
  {
    lines == []
    || ((p == TABLE && lines[0].look.Entry? && lines[0].look.active && lines[0].look.key in keys ==> inside && Mentions(lines[0], clear))
        && DropsAll(lines[1..], clear, InsideAfter(lines[0], inside), Next(p, lines[0]), keys))
  }

  /** Where the value of a key goes: to its first matching line, or below the last line. */
  function Place(body: seq<Line>, key: string, uncomment: bool, p: Pos): Pos
    decreases |body|
  {
    if body == [] || Matches(body[0], key, uncomment) then p else Place(body[1..], key, uncomment, Next(p, body[0]))
  }

  /** The active lines of the key in the table, apart from the line at that place. */
  function Others(body: seq<Line>, key: string, uncomment: bool, p: Pos): nat
    decreases |body|
  {
    if body == [] then 0
    else if Matches(body[0], key, uncomment) then Count(body[1..], Next(p, body[0]), key)
    else (if p == TABLE && IsActive(body[0], key) then 1 else 0) + Others(body[1..], key, uncomment, Next(p, body[0]))
  }

  /** The parts of a file that the editor goes by. */
  datatype Parts = Parts(pre: seq<Line>, body: seq<Line>, post: seq<Line>)

  function PartsOf(base: seq<Line>): Parts {
    var (start, end) := Bounds(base, 0, 0);
    Parts(base[..start], base[start..end], base[end..])
  }

  function PlaceIn(t: Parts, key: string, uncomment: bool): Pos { Place(t.body, key, uncomment, Along(t.pre, TOP)) }

  function OthersIn(t: Parts, key: string, uncomment: bool): nat {
    var p := Along(t.pre, TOP);
    Count(t.pre, TOP, key) + Others(t.body, key, uncomment, p) + Count(t.post, Along(t.body, p), key)
  }

  /** Every value goes to the table. */
  predicate PutsInTable(t: Parts, updates: seq<Update>, uncomment: bool) {
    forall i | 0 <= i < |updates| :: PlaceIn(t, updates[i].look.key, uncomment) == TABLE
  }

  /** No updated key has another active line in the table. */
  predicate NoOthers(t: Parts, updates: seq<Update>, uncomment: bool) {
    forall i | 0 <= i < |updates| :: OthersIn(t, updates[i].look.key, uncomment) == 0
  }

  /** The dropped and replaced lines open and end no string. */
  predicate DropsPlain(lines: seq<Line>, clear: set<string>, inside: bool, p: Pos)
    decreases |lines|
  {
    lines == []
    || ((inside && Mentions(lines[0], clear) ==> Next(p, lines[0]) == p)
        && DropsPlain(lines[1..], clear, InsideAfter(lines[0], inside), Next(p, lines[0])))
  }

  predicate MatchesPlain(body: seq<Line>, keys: set<string>, p: Pos)
    decreases |body|
  {
    body == [] || ((Mentions(body[0], keys) ==> Next(p, body[0]) == p) && MatchesPlain(body[1..], keys, Next(p, body[0])))
  }

  predicate OneLineValues(lines: seq<Line>, updates: seq<Update>, clear: set<string>) {
    var t := PartsOf(Base(lines, clear, updates));
    DropsPlain(lines, clear, false, TOP) && MatchesPlain(t.body, KeysOf(updates), Along(t.pre, TOP))
  }

  // ---------------------------------------------------------------- the script of the clearing

  function ClearScript(lines: seq<Line>, clear: set<string>, inside: bool): seq<Step>
    decreases |lines|
  {
    if lines == [] then []
    else [if inside && Mentions(lines[0], clear) then Drop(lines[0]) else Keep(lines[0])]
         + ClearScript(lines[1..], clear, InsideAfter(lines[0], inside))
  }

  ghost predicate NoPuts(es: seq<Step>) { forall i | 0 <= i < |es| :: !es[i].Put? }

  ghost predicate Unwritten(lines: seq<Line>) { forall i | 0 <= i < |lines| :: !lines[i].written }

  lemma {:induction false} ClearScriptLines(lines: seq<Line>, clear: set<string>, inside: bool)
    ensures
      var es := ClearScript(lines, clear, inside);
      Old(es) == lines && New(es) == Cleared(lines, clear, inside)
    decreases |lines|
  {
    if lines != [] {
      ClearScriptLines(lines[1..], clear, InsideAfter(lines[0], inside));
      NewAndOld(ClearScript(lines, clear, inside));
    }
  }

  lemma {:induction false} ClearScriptOf(lines: seq<Line>, clear: set<string>, inside: bool)
    ensures
      var es := ClearScript(lines, clear, inside);
      NoPuts(es) && (Unwritten(lines) ==> OfKeys(es, clear))
    decreases |lines|
  {
    if lines != [] {
      ClearScriptOf(lines[1..], clear, InsideAfter(lines[0], inside));
      assert forall i | 0 <= i < |lines| - 1 :: lines[1..][i] == lines[i + 1];
    }
  }

  lemma {:induction false} ClearScriptStands(lines: seq<Line>, clear: set<string>, inside: bool, p: Pos)
    ensures
      var es := ClearScript(lines, clear, inside);
      && AlongOld(es, p) == Along(lines, p)
      && (Neutral(es, p) <==> DropsPlain(lines, clear, inside, p))
      && (InTable(es, p) <==> DropsInTable(lines, clear, inside, p))
    decreases |lines|
  {
    if lines != [] { ClearScriptStands(lines[1..], clear, InsideAfter(lines[0], inside), Next(p, lines[0])); }
  }

  lemma {:induction false} ClearScriptLeft(lines: seq<Line>, clear: set<string>, inside: bool, p: Pos, keys: set<string>, k: string)
    requires k in keys && DropsAll(lines, clear, inside, p, keys)
    ensures Left(ClearScript(lines, clear, inside), p, k) == 0
    decreases |lines|
  {
    if lines != [] { ClearScriptLeft(lines[1..], clear, InsideAfter(lines[0], inside), Next(p, lines[0]), keys, k); }
  }

  lemma {:induction false} ClearScriptMisses(lines: seq<Line>, clear: set<string>, inside: bool, p: Pos, keys: set<string>) returns (k: string)
    requires !DropsAll(lines, clear, inside, p, keys)
    ensures k in keys && Left(ClearScript(lines, clear, inside), p, k) > 0
    decreases |lines|
  {
    var l := lines[0];
    if p == TABLE && l.look.Entry? && l.look.active && l.look.key in keys && !(inside && Mentions(l, clear)) {
      k := l.look.key;
      assert IsActive(l, k);
    } else {
      k := ClearScriptMisses(lines[1..], clear, InsideAfter(l, inside), Next(p, l), keys);
    }
  }

  // ---------------------------------------------------------------- the script of the updates

  function SetStep(es: seq<Step>, w: Update, uncomment: bool): seq<Step>
    decreases |es|
  {
    if es == [] then [Put(w)]
    else if es[0].Keep? && Matches(es[0].line, w.look.key, uncomment) then [Drop(es[0].line), Put(w)] + es[1..]
    else [es[0]] + SetStep(es[1..], w, uncomment)
  }

  function SetSteps(es: seq<Step>, updates: seq<Update>, uncomment: bool): seq<Step>
    decreases |updates|
  {
    if updates == [] then es
    else SetStep(SetSteps(es, updates[..|updates| - 1], uncomment), updates[|updates| - 1], uncomment)
  }

  function PlaceOf(es: seq<Step>, key: string, uncomment: bool, p: Pos): Pos
    decreases |es|
  {
    if es == [] || (es[0].Keep? && Matches(es[0].line, key, uncomment)) then p
    else PlaceOf(es[1..], key, uncomment, Onward(p, es[0]))
  }

  function OthersOf(es: seq<Step>, key: string, uncomment: bool, p: Pos): nat
    decreases |es|
  {
    if es == [] then 0
    else if es[0].Keep? && Matches(es[0].line, key, uncomment) then Left(es[1..], Onward(p, es[0]), key)
    else (if es[0].Keep? && p == TABLE && IsActive(es[0].line, key) then 1 else 0) + OthersOf(es[1..], key, uncomment, Onward(p, es[0]))
  }

  predicate KeepsPlain(es: seq<Step>, keys: set<string>, p: Pos)
    decreases |es|
  {
    es == [] || ((es[0].Keep? && Mentions(es[0].line, keys) ==> Next(p, es[0].line) == p) && KeepsPlain(es[1..], keys, Onward(p, es[0])))
  }

  lemma {:induction false} LinesConcat(a: seq<Step>, b: seq<Step>)
    ensures Old(a + b) == Old(a) + Old(b) && New(a + b) == New(a) + New(b)
    decreases |a|
  {
    if a == [] {
      assert a + b == b;
    } else {
      assert (a + b)[1..] == a[1..] + b;
      LinesConcat(a[1..], b);
      HeadLines(a[0], Old(a[1..]), New(a[1..]), Old(b), New(b));
    }
  }

  function OldOf(e: Step): seq<Line> { match e case Keep(l) => [l] case Drop(l) => [l] case Put(_) => [] }

  function NewOf(e: Step): seq<Line> { match e case Keep(l) => [l] case Drop(_) => [] case Put(w) => [w] }

  lemma {:induction false} HeadLines(e: Step, o: seq<Line>, n: seq<Line>, o': seq<Line>, n': seq<Line>)
    ensures OldOf(e) + (o + o') == OldOf(e) + o + o' && NewOf(e) + (n + n') == NewOf(e) + n + n'
  {
  }

  lemma {:induction false} StepConcat(a: seq<Step>, b: seq<Step>, p: Pos, k: string)
    ensures AlongOld(a + b, p) == AlongOld(b, AlongOld(a, p))
    ensures Neutral(a + b, p) <==> Neutral(a, p) && Neutral(b, AlongOld(a, p))
    ensures InTable(a + b, p) <==> InTable(a, p) && InTable(b, AlongOld(a, p))
    ensures Left(a + b, p, k) == Left(a, p, k) + Left(b, AlongOld(a, p), k)
    decreases |a|
  {
    if a == [] {
      assert a + b == b;
    } else {
      assert (a + b)[1..] == a[1..] + b;
      StepConcat(a[1..], b, Onward(p, a[0]), k);
    }
  }

  /** A replacement at the head of a script. */
  lemma {:induction false} Replaced(l: Line, w: Update, rest: seq<Step>, es: seq<Step>)
    requires es == [Drop(l), Put(w)] + rest
    ensures es[0] == Drop(l) && es[1..] != [] && es[1..][0] == Put(w) && es[1..][1..] == rest
    ensures Old(es) == [l] + Old(rest) && New(es) == [w] + New(rest)
    ensures PutTable(es) == PutTable(rest)[w.look.key := w.look.value]
  {
    var tail := es[1..];
    assert tail[1..] == rest;
    NewAndOld(es);
    NewAndOld(tail);
    assert New(tail) == [w] + New(rest) && Old(es) == [l] + Old(tail);
    PutNone(es);
  }

  lemma {:induction false} PutAlone(w: Update)
    ensures Old([Put(w)]) == [] && New([Put(w)]) == [w] && PutTable([Put(w)]) == map[w.look.key := w.look.value]
    ensures [Put(w)][1..] == []
  {
    var es, none: seq<Step> := [Put(w)], [];
    assert es[1..] == none;
    NewAndOld(es);
    assert New(es) == [w] + New(none) && PutTable(none) == map[];
  }

  /** No line that was put in is of the key. */
  ghost predicate NotPut(es: seq<Step>, key: string) { forall i | 0 <= i < |es| && es[i].Put? :: es[i].update.look.key != key }

  lemma {:induction false} TailNotPut(es: seq<Step>, key: string)
    requires NotPut(es, key) && es != []
    ensures NotPut(es[1..], key)
  {
    assert forall i | 0 <= i < |es| - 1 :: es[1..][i] == es[i + 1];
  }

  lemma {:induction false} SetStepLines(es: seq<Step>, w: Update, uncomment: bool)
    requires NotPut(es, w.look.key)
    ensures Old(SetStep(es, w, uncomment)) == Old(es) && New(SetStep(es, w, uncomment)) == SetKey(New(es), w, uncomment)
    decreases |es|
  {
    if es == [] {
      PutAlone(w);
    } else if es[0].Keep? && Matches(es[0].line, w.look.key, uncomment) {
      Replaced(es[0].line, w, es[1..], SetStep(es, w, uncomment));
      NewAndOld(es);
    } else {
      TailNotPut(es, w.look.key);
      SetStepLines(es[1..], w, uncomment);
      SameHead(es, SetStep(es, w, uncomment), SetStep(es[1..], w, uncomment));
      HeadStays(es, w, uncomment);
    }
  }

  lemma {:induction false} HeadStays(es: seq<Step>, w: Update, uncomment: bool)
    requires es != [] && NotPut(es, w.look.key) && !(es[0].Keep? && Matches(es[0].line, w.look.key, uncomment))
    ensures SetKey(New(es), w, uncomment) == NewOf(es[0]) + SetKey(New(es[1..]), w, uncomment)
  {
    NewAndOld(es);
  }

  lemma {:induction false} SameHead(es: seq<Step>, es': seq<Step>, rest: seq<Step>)
    requires es != [] && es' == [es[0]] + rest
    ensures es'[0] == es[0] && es'[1..] == rest
    ensures Old(es') == OldOf(es[0]) + Old(rest) && New(es') == NewOf(es[0]) + New(rest)
    ensures Old(es) == OldOf(es[0]) + Old(es[1..]) && New(es) == NewOf(es[0]) + New(es[1..])
  {
    assert es'[1..] == rest;
  }

  lemma {:induction false} SetStepStands(es: seq<Step>, w: Update, uncomment: bool, p: Pos, keys: set<string>)
    requires Neutral(es, p) && KeepsPlain(es, keys, p) && w.look.key in keys
    ensures
      var es' := SetStep(es, w, uncomment);
      && Neutral(es', p) && KeepsPlain(es', keys, p) && AlongOld(es', p) == AlongOld(es, p)
      && (InTable(es', p) <==> InTable(es, p) && PlaceOf(es, w.look.key, uncomment, p) == TABLE)
      && Left(es', p, w.look.key) == OthersOf(es, w.look.key, uncomment, p)
    decreases |es|
  {
    if es == [] {
      assert SetStep(es, w, uncomment) == [Put(w)] && [Put(w)][1..] == [];
    } else if es[0].Keep? && Matches(es[0].line, w.look.key, uncomment) {
      var tail := [Put(w)] + es[1..];
      assert SetStep(es, w, uncomment) == [Drop(es[0].line)] + tail && tail[1..] == es[1..];
      assert SetStep(es, w, uncomment)[1..] == tail;
      assert Mentions(es[0].line, keys);
    } else {
      SetStepStands(es[1..], w, uncomment, Onward(p, es[0]), keys);
      assert SetStep(es, w, uncomment)[1..] == SetStep(es[1..], w, uncomment);
    }
  }

  lemma {:induction false} SetStepPlaces(es: seq<Step>, w: Update, uncomment: bool, p: Pos, k: string)
    requires k != w.look.key
    ensures PlaceOf(SetStep(es, w, uncomment), k, uncomment, p) == PlaceOf(es, k, uncomment, p)
    ensures OthersOf(SetStep(es, w, uncomment), k, uncomment, p) == OthersOf(es, k, uncomment, p)
    decreases |es|
  {
    var es' := SetStep(es, w, uncomment);
    if es == [] {
      assert es' == [Put(w)] && [Put(w)][1..] == [];
    } else if es[0].Keep? && Matches(es[0].line, w.look.key, uncomment) {
      var tail := [Put(w)] + es[1..];
      assert es' == [Drop(es[0].line)] + tail && tail[1..] == es[1..];
      assert es'[1..] == tail;
      assert !IsActive(es[0].line, k) && !Matches(es[0].line, k, uncomment);
    } else {
      SetStepPlaces(es[1..], w, uncomment, Onward(p, es[0]), k);
      assert es'[1..] == SetStep(es[1..], w, uncomment);
      if es[0].Keep? && Matches(es[0].line, k, uncomment) { SetStepLeft(es[1..], w, uncomment, Onward(p, es[0]), k); }
    }
  }

  lemma {:induction false} SetStepLeft(es: seq<Step>, w: Update, uncomment: bool, p: Pos, k: string)
    requires k != w.look.key
    ensures Left(SetStep(es, w, uncomment), p, k) == Left(es, p, k)
    decreases |es|
  {
    var es' := SetStep(es, w, uncomment);
    if es == [] {
      assert es' == [Put(w)] && [Put(w)][1..] == [];
    } else if es[0].Keep? && Matches(es[0].line, w.look.key, uncomment) {
      var tail := [Put(w)] + es[1..];
      assert es' == [Drop(es[0].line)] + tail && tail[1..] == es[1..];
      assert es'[1..] == tail;
    } else {
      SetStepLeft(es[1..], w, uncomment, Onward(p, es[0]), k);
      assert es'[1..] == SetStep(es[1..], w, uncomment);
    }
  }

  lemma {:induction false} FreshMore(es: seq<Step>, keys: set<string>, k: string)
    requires FreshPuts(es, keys) && NotPut(es, k)
    ensures FreshPuts(es, keys + {k})
    decreases |es|
  {
    if es != [] {
      TailNotPut(es, k);
      if es[0].Put? {
        FreshMore(es[1..], keys + {es[0].update.look.key}, k);
        assert keys + {es[0].update.look.key} + {k} == keys + {k} + {es[0].update.look.key};
      } else {
        FreshMore(es[1..], keys, k);
      }
    }
  }

  /** The step puts in its line, and no other. */
  lemma {:induction false} SetStepPuts(es: seq<Step>, w: Update, uncomment: bool, keys: set<string>)
    requires NotPut(es, w.look.key) && FreshPuts(es, keys) && w.look.key !in keys
    ensures FreshPuts(SetStep(es, w, uncomment), keys)
    ensures PutTable(SetStep(es, w, uncomment)) == PutTable(es)[w.look.key := w.look.value]
    decreases |es|
  {
    var es' := SetStep(es, w, uncomment);
    if es == [] {
      PutAlone(w);
    } else if es[0].Keep? && Matches(es[0].line, w.look.key, uncomment) {
      Replaced(es[0].line, w, es[1..], es');
      TailNotPut(es, w.look.key);
      FreshMore(es[1..], keys, w.look.key);
      PutNone(es);
    } else {
      SameHead(es, es', SetStep(es[1..], w, uncomment));
      TailNotPut(es, w.look.key);
      if es[0].Put? {
        SetStepPuts(es[1..], w, uncomment, keys + {es[0].update.look.key});
        PutHeads(es, es', w);
      } else {
        SetStepPuts(es[1..], w, uncomment, keys);
        PutNone(es);
        PutNone(es');
      }
    }
  }

  lemma {:induction false} PutHeads(es: seq<Step>, es': seq<Step>, w: Update)
    requires es != [] && es' != [] && es[0] == es'[0] && es[0].Put? && es[0].update.look.key != w.look.key
    requires PutTable(es'[1..]) == PutTable(es[1..])[w.look.key := w.look.value]
    ensures PutTable(es') == PutTable(es)[w.look.key := w.look.value]
  {
  }

  lemma {:induction false} SetStepOf(es: seq<Step>, w: Update, uncomment: bool, keys: set<string>)
    requires OfKeys(es, keys) && w.look.key in keys
    ensures OfKeys(SetStep(es, w, uncomment), keys)
    ensures forall k | k != w.look.key && NotPut(es, k) :: NotPut(SetStep(es, w, uncomment), k)
    decreases |es|
  {
    var es' := SetStep(es, w, uncomment);
    if es != [] {
      TailOfKeys(es, keys);
      if es[0].Keep? && Matches(es[0].line, w.look.key, uncomment) {
        var tail := [Put(w)] + es[1..];
        assert es' == [Drop(es[0].line)] + tail;
        assert forall i | 2 <= i < |es'| :: es'[i] == es[i - 1];
      } else {
        SetStepOf(es[1..], w, uncomment, keys);
        assert forall i | 1 <= i < |es'| :: es'[i] == SetStep(es[1..], w, uncomment)[i - 1];
        forall k | k != w.look.key && NotPut(es, k) ensures NotPut(es', k) { TailNotPut(es, k); }
      }
    }
  }

  // ---------------------------------------------------------------- a script without puts is the cleared file

  lemma {:induction false} BaseStands(es: seq<Step>, p: Pos, k: string, uncomment: bool, keys: set<string>)
    requires NoPuts(es) && Neutral(es, p)
    ensures AlongOld(es, p) == Along(New(es), p) && Left(es, p, k) == Count(New(es), p, k)
    ensures PlaceOf(es, k, uncomment, p) == Place(New(es), k, uncomment, p)
    ensures OthersOf(es, k, uncomment, p) == Others(New(es), k, uncomment, p)
    ensures KeepsPlain(es, keys, p) <==> MatchesPlain(New(es), keys, p)
    decreases |es|
  {
    if es != [] {
      assert forall i | 0 <= i < |es| - 1 :: es[1..][i] == es[i + 1];
      NewAndOld(es);
      BaseStands(es[1..], Onward(p, es[0]), k, uncomment, keys);
    }
  }

  lemma {:induction false} CutAt(head: seq<Line>, rest: seq<Line>, n: nat, m: nat)
    requires n == |head| + m && m <= |rest|
    ensures (head + rest)[..n] == head + rest[..m] && (head + rest)[n..] == rest[m..]
  {
  }

  lemma {:induction false} SplitScript(es: seq<Step>, n: nat) returns (a: seq<Step>, b: seq<Step>)
    requires n <= |New(es)|
    ensures es == a + b && New(a) == New(es)[..n] && New(b) == New(es)[n..]
    decreases |es|
  {
    if n == 0 {
      a, b := [], es;
    } else {
      NewAndOld(es);
      var m := if es[0].Drop? then n else n - 1;
      var a', b' := SplitScript(es[1..], m);
      a, b := [es[0]] + a', b';
      SameHead(es, a, a');
      CutAt(NewOf(es[0]), New(es[1..]), n, m);
      assert [es[0]] + (a' + b') == a + b';
    }
  }

  // ---------------------------------------------------------------- all updates

  ghost predicate Ready(es: seq<Step>, updates: seq<Update>, p: Pos, keys: set<string>) {
    && NoPuts(es) && OfKeys(es, keys) && Neutral(es, p) && KeepsPlain(es, KeysOf(updates), p)
    && KeysOf(updates) <= keys && DistinctKeys(updates)
  }

  lemma {:induction false} FrontOfUpdates(updates: seq<Update>)
    requires updates != []
    ensures
      var n := |updates| - 1;
      && KeysOf(updates) == KeysOf(updates[..n]) + {updates[n].look.key}
      && (DistinctKeys(updates) ==> DistinctKeys(updates[..n]) && updates[n].look.key !in KeysOf(updates[..n]))
  {
    var n := |updates| - 1;
    forall k ensures k in KeysOf(updates) <==> k in KeysOf(updates[..n]) + {updates[n].look.key} {
      if k in KeysOf(updates[..n]) {
        var i :| 0 <= i < n && updates[..n][i].look.key == k;
        assert updates[i].look.key == k;
      }
      if k in KeysOf(updates) {
        var i :| 0 <= i < |updates| && updates[i].look.key == k;
        assert i < n ==> updates[..n][i].look.key == k;
      }
    }
  }

  lemma {:induction false} SetStepsLines(es: seq<Step>, updates: seq<Update>, uncomment: bool, keys: set<string>)
    requires NoPuts(es) && OfKeys(es, keys) && KeysOf(updates) <= keys && DistinctKeys(updates)
    ensures
      var es' := SetSteps(es, updates, uncomment);
      && Old(es') == Old(es) && New(es') == SetAll(New(es), updates, uncomment)
      && OfKeys(es', keys) && FreshPuts(es', {}) && PutTable(es') == AsTable(updates)
      && forall k | k !in KeysOf(updates) :: NotPut(es', k)
    decreases |updates|
  {
    if updates == [] {
      NoPutsIsFresh(es, {});
    } else {
      var n := |updates| - 1;
      var before := SetSteps(es, updates[..n], uncomment);
      FrontOfUpdates(updates);
      SetStepsLines(es, updates[..n], uncomment, keys);
      SetStepLines(before, updates[n], uncomment);
      SetStepPuts(before, updates[n], uncomment, {});
      SetStepOf(before, updates[n], uncomment, keys);
    }
  }

  lemma {:induction false} NoPutsIsFresh(es: seq<Step>, keys: set<string>)
    requires NoPuts(es)
    ensures FreshPuts(es, keys) && PutTable(es) == map[] && forall k :: NotPut(es, k)
    decreases |es|
  {
    if es != [] {
      assert forall i | 0 <= i < |es| - 1 :: es[1..][i] == es[i + 1];
      NoPutsIsFresh(es[1..], keys);
      PutNone(es);
    }
  }

  lemma {:induction false} SetStepsPlaces(es: seq<Step>, updates: seq<Update>, uncomment: bool, p: Pos, k: string)
    requires k !in KeysOf(updates)
    ensures
      var es' := SetSteps(es, updates, uncomment);
      && PlaceOf(es', k, uncomment, p) == PlaceOf(es, k, uncomment, p)
      && OthersOf(es', k, uncomment, p) == OthersOf(es, k, uncomment, p)
      && Left(es', p, k) == Left(es, p, k)
    decreases |updates|
  {
    if updates != [] {
      var n := |updates| - 1;
      var before := SetSteps(es, updates[..n], uncomment);
      FrontOfUpdates(updates);
      SetStepsPlaces(es, updates[..n], uncomment, p, k);
      SetStepPlaces(before, updates[n], uncomment, p, k);
      SetStepLeft(before, updates[n], uncomment, p, k);
    }
  }

  predicate PlacesInTable(es: seq<Step>, updates: seq<Update>, uncomment: bool, p: Pos) {
    forall i | 0 <= i < |updates| :: PlaceOf(es, updates[i].look.key, uncomment, p) == TABLE
  }

  lemma {:induction false} PlacesOneMore(es: seq<Step>, updates: seq<Update>, uncomment: bool, p: Pos)
    requires updates != []
    ensures
      var n := |updates| - 1;
      PlacesInTable(es, updates, uncomment, p) <==>
      PlacesInTable(es, updates[..n], uncomment, p) && PlaceOf(es, updates[n].look.key, uncomment, p) == TABLE
  {
    var n := |updates| - 1;
    assert forall i | 0 <= i < n :: updates[..n][i] == updates[i];
  }

  lemma {:induction false} SetStepsStand(es: seq<Step>, updates: seq<Update>, uncomment: bool, p: Pos, keys: set<string>)
    requires Neutral(es, p) && KeepsPlain(es, keys, p) && KeysOf(updates) <= keys && DistinctKeys(updates)
    ensures
      var es' := SetSteps(es, updates, uncomment);
      && Neutral(es', p) && KeepsPlain(es', keys, p) && AlongOld(es', p) == AlongOld(es, p)
      && (InTable(es', p) <==> InTable(es, p) && PlacesInTable(es, updates, uncomment, p))
    decreases |updates|
  {
    if updates != [] {
      var n := |updates| - 1;
      var before, key := SetSteps(es, updates[..n], uncomment), updates[n].look.key;
      FrontOfUpdates(updates);
      SetStepsStand(es, updates[..n], uncomment, p, keys);
      SetStepStands(before, updates[n], uncomment, p, keys);
      SetStepsPlaces(es, updates[..n], uncomment, p, key);
      PlacesOneMore(es, updates, uncomment, p);
    }
  }

  lemma {:induction false} SetStepsLeft(es: seq<Step>, updates: seq<Update>, uncomment: bool, p: Pos, keys: set<string>, i: nat)
    requires Neutral(es, p) && KeepsPlain(es, keys, p) && KeysOf(updates) <= keys && DistinctKeys(updates) && i < |updates|
    ensures Left(SetSteps(es, updates, uncomment), p, updates[i].look.key) == OthersOf(es, updates[i].look.key, uncomment, p)
    decreases |updates|
  {
    var n := |updates| - 1;
    var before, key := SetSteps(es, updates[..n], uncomment), updates[i].look.key;
    FrontOfUpdates(updates);
    SetStepsStand(es, updates[..n], uncomment, p, keys);
    if i == n {
      SetStepStands(before, updates[n], uncomment, p, keys);
      SetStepsPlaces(es, updates[..n], uncomment, p, key);
    } else {
      SetStepsLeft(es, updates[..n], uncomment, p, keys, i);
      SetStepLeft(before, updates[n], uncomment, p, key);
    }
  }
}
