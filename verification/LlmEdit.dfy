/** When the edit of the [llm] table is right: the file before and the file after as one script of
    lines that are kept, dropped and put in. */
module LlmEdit {
  import opened Collections
  import opened LlmTable

  // ---------------------------------------------------------------- scripts

  datatype Step = Keep(line: Line) | Drop(line: Line) | Put(update: Update)

  function Old(es: seq<Step>): seq<Line> {
    if es == [] then [] else (match es[0] case Keep(l) => [l] case Drop(l) => [l] case Put(_) => []) + Old(es[1..])
  }

  function New(es: seq<Step>): seq<Line> {
    if es == [] then [] else (match es[0] case Keep(l) => [l] case Drop(_) => [] case Put(w) => [w]) + New(es[1..])
  }

  /** Where the next line of the old file stands. */
  function Onward(p: Pos, e: Step): Pos { match e case Keep(l) => Next(p, l) case Drop(l) => Next(p, l) case Put(_) => p }

  function AlongOld(es: seq<Step>, p: Pos): Pos
    decreases |es|
  {
    if es == [] then p else AlongOld(es[1..], Onward(p, es[0]))
  }

  /** No dropped line opens or ends a string or a table. */
  predicate Neutral(es: seq<Step>, p: Pos)
    decreases |es|
  {
    es == [] || ((es[0].Drop? ==> Next(p, es[0].line) == p) && Neutral(es[1..], Onward(p, es[0])))
  }

  /** Every change is outside strings, in the table. */
  predicate InTable(es: seq<Step>, p: Pos)
    decreases |es|
  {
    es == [] || ((es[0].Keep? || p == TABLE) && InTable(es[1..], Onward(p, es[0])))
  }

  predicate IsActive(l: Line, key: string) { l.look.Entry? && l.look.active && l.look.key == key }

  /** The active lines of `key` in the table that are kept. */
  function Left(es: seq<Step>, p: Pos, key: string): nat
    decreases |es|
  {
    if es == [] then 0
    else (if es[0].Keep? && p == TABLE && IsActive(es[0].line, key) then 1 else 0) + Left(es[1..], Onward(p, es[0]), key)
  }

  /** The active lines of `key` in the table. */
  function Count(lines: seq<Line>, p: Pos, key: string): nat
    decreases |lines|
  {
    if lines == [] then 0
    else (if p == TABLE && IsActive(lines[0], key) then 1 else 0) + Count(lines[1..], Next(p, lines[0]), key)
  }

  function PutTable(es: seq<Step>): Table
    decreases |es|
  {
    if es == [] then map[]
    else PutTable(es[1..]) + if es[0].Put? then map[es[0].update.look.key := es[0].update.look.value] else map[]
  }

  /** The keys of the lines that are put in are different, and not in `keys`. */
  predicate FreshPuts(es: seq<Step>, keys: set<string>)
    decreases |es|
  {
    es == [] || (if es[0].Put? then es[0].update.look.key !in keys && FreshPuts(es[1..], keys + {es[0].update.look.key})
                 else FreshPuts(es[1..], keys))
  }

  /** Dropped lines and put ones are of these keys, and the old file has no written line. */
  ghost predicate OfKeys(es: seq<Step>, keys: set<string>) {
    forall i | 0 <= i < |es| ::
      match es[i]
      case Keep(l) => !l.written
      case Drop(l) => !l.written && Mentions(l, keys)
      case Put(w) => w.look.key in keys
  }

  lemma {:induction false} TailOfKeys(es: seq<Step>, keys: set<string>)
    requires OfKeys(es, keys) && es != []
    ensures OfKeys(es[1..], keys)
  {
    assert forall i | 0 <= i < |es| - 1 :: es[1..][i] == es[i + 1];
  }

  // ---------------------------------------------------------------- what an edit must say

  /** The lines that are not lines of these keys in the table. */
  function Rest(lines: seq<Line>, p: Pos, keys: set<string>): seq<Line>
    decreases |lines|
  {
    if lines == [] then []
    else (if p == TABLE && Mentions(lines[0], keys) then [] else [lines[0]]) + Rest(lines[1..], Next(p, lines[0]), keys)
  }

  /** Every line that was written stands outside strings in the table. */
  predicate WrittenInTable(lines: seq<Line>, p: Pos)
    decreases |lines|
  {
    lines == [] || ((lines[0].written ==> p == TABLE) && WrittenInTable(lines[1..], Next(p, lines[0])))
  }

  /** The table is (old minus `keys`) overridden by `put`, all other tables and lines are as before
      (with `more` lines below them), and what was written is an entry of the table. */
  ghost predicate Says(before: seq<Line>, after: seq<Line>, keys: set<string>, put: Table, more: seq<Line>) {
    var b, a := ReadFile(before), ReadFile(after);
    && b.Some? && a.Some?
    && TableOf(a.value, LLM_ID) == (TableOf(b.value, LLM_ID) - keys) + put
    && (forall id | id != LLM_ID :: TableOf(a.value, id) == TableOf(b.value, id) && (id in a.value.tables <==> id in b.value.tables))
    && Rest(after, TOP, keys) == Rest(before, TOP, keys) + more
    && WrittenInTable(after, TOP)
  }

  // ---------------------------------------------------------------- the reader knows where it is

  function PosOf(st: Reader): Pos { Pos(st.mode, st.cur == LLM_ID) }

  ghost predicate Good(st: Reader) { st.cur in st.tables && (st.mode.In? ==> st.last in st.tables[st.cur]) }

  function Held(k: string, t: Table): nat { if k in t then 1 else 0 }

  lemma {:induction false} ReadLineStands(st: Reader, l: Line, k: string)
    requires Good(st) && ReadLine(st, l).Some?
    ensures
      var st' := ReadLine(st, l).value;
      && Good(st') && PosOf(st') == Next(PosOf(st), l)
      && Held(k, TableOf(st', LLM_ID)) ==
         Held(k, TableOf(st, LLM_ID)) + if PosOf(st) == TABLE && IsActive(l, k) then 1 else 0
  {
  }

  /** The reader stands where the line does, and the table holds a key once for its active line. */
  lemma {:induction false} ReadStands(lines: seq<Line>, st: Reader, k: string)
    requires Good(st) && Read(lines, st).Some?
    ensures
      var st' := Read(lines, st).value;
      && Good(st') && PosOf(st') == Along(lines, PosOf(st))
      && Held(k, TableOf(st', LLM_ID)) == Held(k, TableOf(st, LLM_ID)) + Count(lines, PosOf(st), k)
    decreases |lines|
  {
    if lines != [] {
      ReadLineStands(st, lines[0], k);
      ReadStands(lines[1..], ReadLine(st, lines[0]).value, k);
    }
  }

  // ---------------------------------------------------------------- right changes

  /** Two readers, of the old file and of the new one, at the same place. */
  ghost predicate Alike(o: Reader, n: Reader, keys: set<string>, put: Table) {
    && Good(o) && o.mode == n.mode && o.cur == n.cur && o.count == n.count && (o.mode.In? ==> o.last == n.last)
    && o.tables.Keys == n.tables.Keys
    && (forall id | id in o.tables && id != LLM_ID :: o.tables[id] == n.tables[id])
    && TableOf(n, LLM_ID) == (TableOf(o, LLM_ID) - keys) + put && put.Keys <= keys
    && (o.mode.In? && o.cur == LLM_ID ==> o.last !in keys)
  }

  lemma {:induction false} KeptInString(o: Reader, n: Reader, l: Line, keys: set<string>, put: Table)
    requires Alike(o, n, keys, put) && o.mode.In? && ReadLine(o, l).Some?
    ensures ReadLine(n, l).Some? && Alike(ReadLine(o, l).value, ReadLine(n, l).value, keys, put)
  {
  }

  lemma {:induction false} KeptEntry(o: Reader, n: Reader, l: Line, keys: set<string>, put: Table)
    requires Alike(o, n, keys, put) && o.mode.Out? && l.look.Entry? && ReadLine(o, l).Some?
    requires forall k | k in keys :: !(PosOf(o) == TABLE && IsActive(l, k))
    ensures ReadLine(n, l).Some? && Alike(ReadLine(o, l).value, ReadLine(n, l).value, keys, put)
  {
    if l.look.active {
      assert o.cur == LLM_ID ==> IsActive(l, l.look.key) && l.look.key !in keys;
      KeptValue(o, n, l, keys, put);
    }
  }

  lemma {:induction false} KeptValue(o: Reader, n: Reader, l: Line, keys: set<string>, put: Table)
    requires Alike(o, n, keys, put) && o.mode.Out? && l.look.Entry? && l.look.active && ReadLine(o, l).Some?
    requires o.cur == LLM_ID ==> l.look.key !in keys
    ensures ReadLine(n, l).Some? && Alike(ReadLine(o, l).value, ReadLine(n, l).value, keys, put)
  {
    if o.cur == LLM_ID {
      var k, v, t := l.look.key, l.look.value, TableOf(o, LLM_ID);
      assert (t[k := v] - keys) + put == ((t - keys) + put)[k := v];
    }
  }

  lemma {:induction false} KeptOther(o: Reader, n: Reader, l: Line, keys: set<string>, put: Table)
    requires Alike(o, n, keys, put) && o.mode.Out? && !l.look.Entry? && ReadLine(o, l).Some?
    ensures ReadLine(n, l).Some? && Alike(ReadLine(o, l).value, ReadLine(n, l).value, keys, put)
  {
    if LLM_ID !in o.tables { assert put == map[]; }
  }

  lemma {:induction false} Kept(o: Reader, n: Reader, l: Line, keys: set<string>, put: Table)
    requires Alike(o, n, keys, put) && ReadLine(o, l).Some?
    requires forall k | k in keys :: !(PosOf(o) == TABLE && IsActive(l, k))
    ensures ReadLine(n, l).Some? && Alike(ReadLine(o, l).value, ReadLine(n, l).value, keys, put)
  {
    if o.mode.In? { KeptInString(o, n, l, keys, put); }
    else if l.look.Entry? { KeptEntry(o, n, l, keys, put); }
    else { KeptOther(o, n, l, keys, put); }
  }

  lemma {:induction false} Dropped(o: Reader, n: Reader, l: Line, keys: set<string>, put: Table)
    requires Alike(o, n, keys, put) && PosOf(o) == TABLE && Mentions(l, keys) && Next(TABLE, l) == TABLE && ReadLine(o, l).Some?
    ensures Alike(ReadLine(o, l).value, n, keys, put)
  {
  }

  lemma {:induction false} PutIn(o: Reader, n: Reader, w: Update, keys: set<string>, put: Table)
    requires Alike(o, n, keys, put) && PosOf(o) == TABLE && w.look.key in keys && w.look.key !in put
    ensures ReadLine(n, w).Some? && Alike(o, ReadLine(n, w).value, keys, put[w.look.key := w.look.value])
  {
  }

  ghost predicate Changed(es: seq<Step>, o: Reader, n: Reader, keys: set<string>, put: Table)
    requires Read(Old(es), o).Some?
  {
    Read(New(es), n).Some? && Alike(Read(Old(es), o).value, Read(New(es), n).value, keys, put + PutTable(es))
  }

  /** The changes from here on are in the table only, and leave no active line of the keys. */
  ghost predicate Proper(es: seq<Step>, o: Reader, keys: set<string>, put: Table) {
    && OfKeys(es, keys) && Read(Old(es), o).Some?
    && Neutral(es, PosOf(o)) && InTable(es, PosOf(o)) && FreshPuts(es, put.Keys)
    && forall k | k in keys :: Left(es, PosOf(o), k) == 0
  }

  lemma {:induction false} ProperTail(es: seq<Step>, o: Reader, o': Reader, keys: set<string>, put: Table, put': Table)
    requires es != [] && Proper(es, o, keys, put) && Read(Old(es), o) == Read(Old(es[1..]), o')
    requires PosOf(o') == Onward(PosOf(o), es[0])
    requires put'.Keys == put.Keys + if es[0].Put? then {es[0].update.look.key} else {}
    ensures Proper(es[1..], o', keys, put')
  {
    TailOfKeys(es, keys);
    assert put.Keys + {} == put.Keys;
  }

  lemma {:induction false} ProperKeep(es: seq<Step>, o: Reader, n: Reader, keys: set<string>, put: Table) returns (o': Reader, n': Reader)
    requires es != [] && es[0].Keep? && Alike(o, n, keys, put) && Proper(es, o, keys, put)
    ensures Alike(o', n', keys, put) && Proper(es[1..], o', keys, put)
    ensures Read(Old(es), o) == Read(Old(es[1..]), o') && Read(New(es), n) == Read(New(es[1..]), n')
  {
    NewAndOld(es);
    Kept(o, n, es[0].line, keys, put);
    ReadLineStands(o, es[0].line, "");
    o', n' := ReadLine(o, es[0].line).value, ReadLine(n, es[0].line).value;
    ProperTail(es, o, o', keys, put, put);
  }

  lemma {:induction false} ProperHead(es: seq<Step>, o: Reader, keys: set<string>, put: Table)
    requires es != [] && Proper(es, o, keys, put)
    ensures !es[0].Keep? ==> PosOf(o) == TABLE
    ensures es[0].Drop? ==> Mentions(es[0].line, keys) && Next(TABLE, es[0].line) == TABLE
    ensures es[0].Put? ==> es[0].update.look.key in keys && es[0].update.look.key !in put
  {
  }

  lemma {:induction false} ProperDrop(es: seq<Step>, o: Reader, n: Reader, keys: set<string>, put: Table) returns (o': Reader)
    requires es != [] && es[0].Drop? && Alike(o, n, keys, put) && Proper(es, o, keys, put)
    ensures Alike(o', n, keys, put) && Proper(es[1..], o', keys, put)
    ensures Read(Old(es), o) == Read(Old(es[1..]), o') && New(es) == New(es[1..])
  {
    o' := DroppedHead(es, o, n, keys, put);
    ProperTail(es, o, o', keys, put, put);
  }

  lemma {:induction false} DroppedHead(es: seq<Step>, o: Reader, n: Reader, keys: set<string>, put: Table) returns (o': Reader)
    requires es != [] && es[0].Drop? && Alike(o, n, keys, put) && Proper(es, o, keys, put)
    ensures Alike(o', n, keys, put) && PosOf(o') == Onward(PosOf(o), es[0])
    ensures Read(Old(es), o) == Read(Old(es[1..]), o') && New(es) == New(es[1..])
  {
    NewAndOld(es);
    ProperHead(es, o, keys, put);
    Dropped(o, n, es[0].line, keys, put);
    ReadLineStands(o, es[0].line, "");
    o' := ReadLine(o, es[0].line).value;
  }

  lemma {:induction false} ProperPut(es: seq<Step>, o: Reader, n: Reader, keys: set<string>, put: Table) returns (n': Reader, put': Table)
    requires es != [] && es[0].Put? && Alike(o, n, keys, put) && Proper(es, o, keys, put)
    ensures Alike(o, n', keys, put') && Proper(es[1..], o, keys, put')
    ensures Old(es) == Old(es[1..]) && Read(New(es), n) == Read(New(es[1..]), n')
    ensures put' == put[es[0].update.look.key := es[0].update.look.value]
  {
    put' := put[es[0].update.look.key := es[0].update.look.value];
    n' := PutHead(es, o, n, keys, put);
    ProperTail(es, o, o, keys, put, put');
  }

  lemma {:induction false} PutHead(es: seq<Step>, o: Reader, n: Reader, keys: set<string>, put: Table) returns (n': Reader)
    requires es != [] && es[0].Put? && Alike(o, n, keys, put) && Proper(es, o, keys, put)
    ensures Alike(o, n', keys, put[es[0].update.look.key := es[0].update.look.value])
    ensures Old(es) == Old(es[1..]) && Read(New(es), n) == Read(New(es[1..]), n')
  {
    NewAndOld(es);
    ProperHead(es, o, keys, put);
    PutIn(o, n, es[0].update, keys, put);
    n' := ReadLine(n, es[0].update).value;
  }

  lemma {:induction false} PutNone(es: seq<Step>)
    requires es != [] && !es[0].Put?
    ensures PutTable(es) == PutTable(es[1..])
  {
    assert PutTable(es[1..]) + map[] == PutTable(es[1..]);
  }

  lemma {:induction false} PutFirst(es: seq<Step>, put: Table)
    requires es != [] && es[0].Put? && FreshPuts(es, put.Keys)
    ensures put + PutTable(es) == put[es[0].update.look.key := es[0].update.look.value] + PutTable(es[1..])
  {
    FreshTable(es[1..], put.Keys + {es[0].update.look.key});
  }

  /** A script that changes the table only, and leaves no active line of its keys, has the right table. */
  lemma {:induction false} RightChanges(es: seq<Step>, o: Reader, n: Reader, keys: set<string>, put: Table)
    requires Alike(o, n, keys, put) && Proper(es, o, keys, put)
    ensures Changed(es, o, n, keys, put)
    decreases |es|
  {
    if es == [] {
      assert put + map[] == put;
    } else if es[0].Keep? {
      var o', n' := ProperKeep(es, o, n, keys, put);
      RightChanges(es[1..], o', n', keys, put);
      PutNone(es);
    } else if es[0].Drop? {
      var o' := ProperDrop(es, o, n, keys, put);
      RightChanges(es[1..], o', n, keys, put);
      PutNone(es);
    } else {
      var n', put' := ProperPut(es, o, n, keys, put);
      RightChanges(es[1..], o, n', keys, put');
      PutFirst(es, put);
    }
  }

  lemma {:induction false} FreshTable(es: seq<Step>, keys: set<string>)
    requires FreshPuts(es, keys)
    ensures PutTable(es).Keys !! keys
    decreases |es|
  {
    if es != [] { FreshTable(es[1..], if es[0].Put? then keys + {es[0].update.look.key} else keys); }
  }

  /** The lines outside stay, and the new file stands where the old one does. */
  lemma {:induction false} RightLines(es: seq<Step>, p: Pos, keys: set<string>)
    requires OfKeys(es, keys) && Neutral(es, p) && InTable(es, p)
    ensures Rest(New(es), p, keys) == Rest(Old(es), p, keys) && WrittenInTable(New(es), p)
    decreases |es|
  {
    if es != [] {
      TailOfKeys(es, keys);
      RightLines(es[1..], Onward(p, es[0]), keys);
      NewAndOld(es);
    }
  }

  lemma {:induction false} NewAndOld(es: seq<Step>)
    requires es != []
    ensures es[0].Put? ==> Old(es) == Old(es[1..]) && New(es) != [] && New(es)[0] == es[0].update && New(es)[1..] == New(es[1..])
    ensures !es[0].Put? ==> Old(es) != [] && Old(es)[0] == es[0].line && Old(es)[1..] == Old(es[1..])
    ensures es[0].Keep? ==> New(es) != [] && New(es)[0] == es[0].line && New(es)[1..] == New(es[1..])
    ensures es[0].Drop? ==> New(es) == New(es[1..])
  {
  }

  // ---------------------------------------------------------------- and only they

  function Outside(es: seq<Step>, p: Pos): nat
    decreases |es|
  {
    if es == [] then 0 else (if es[0].Drop? && p != TABLE then 1 else 0) + Outside(es[1..], Onward(p, es[0]))
  }

  /** Where all that was written stands in the table, both files stand at the same places; a line
      that was dropped elsewhere is missing. */
  lemma {:induction false} WrittenStands(es: seq<Step>, p: Pos, keys: set<string>, k: string)
    requires OfKeys(es, keys) && Neutral(es, p) && WrittenInTable(New(es), p)
    ensures |Rest(New(es), p, keys)| + Outside(es, p) == |Rest(Old(es), p, keys)|
    ensures Outside(es, p) == 0 <==> InTable(es, p)
    ensures Count(New(es), p, k) == Left(es, p, k) + Puts(es, k)
    decreases |es|
  {
    if es != [] {
      TailOfKeys(es, keys);
      WrittenTail(es, p);
      WrittenStands(es[1..], Onward(p, es[0]), keys, k);
      WrittenRest(es, p, keys);
      WrittenCount(es, p, k);
    }
  }

  lemma {:induction false} WrittenTail(es: seq<Step>, p: Pos)
    requires es != [] && Neutral(es, p) && WrittenInTable(New(es), p)
    ensures WrittenInTable(New(es[1..]), Onward(p, es[0])) && (es[0].Put? ==> p == TABLE)
  {
    NewAndOld(es);
  }

  lemma {:induction false} WrittenRest(es: seq<Step>, p: Pos, keys: set<string>)
    requires es != [] && OfKeys(es, keys) && Neutral(es, p) && (es[0].Put? ==> p == TABLE)
    requires |Rest(New(es[1..]), Onward(p, es[0]), keys)| + Outside(es[1..], Onward(p, es[0])) == |Rest(Old(es[1..]), Onward(p, es[0]), keys)|
    ensures |Rest(New(es), p, keys)| + Outside(es, p) == |Rest(Old(es), p, keys)|
  {
    NewAndOld(es);
  }

  lemma {:induction false} WrittenCount(es: seq<Step>, p: Pos, k: string)
    requires es != [] && Neutral(es, p) && (es[0].Put? ==> p == TABLE)
    requires Count(New(es[1..]), Onward(p, es[0]), k) == Left(es[1..], Onward(p, es[0]), k) + Puts(es[1..], k)
    ensures Count(New(es), p, k) == Left(es, p, k) + Puts(es, k)
  {
    NewAndOld(es);
  }

  function Puts(es: seq<Step>, k: string): nat
    decreases |es|
  {
    if es == [] then 0 else (if es[0].Put? && es[0].update.look.key == k then 1 else 0) + Puts(es[1..], k)
  }

  lemma {:induction false} PutsOnce(es: seq<Step>, keys: set<string>, k: string)
    requires FreshPuts(es, keys)
    ensures Puts(es, k) == Held(k, PutTable(es)) && (k in keys ==> Puts(es, k) == 0)
    decreases |es|
  {
    if es != [] { PutsOnce(es[1..], if es[0].Put? then keys + {es[0].update.look.key} else keys, k); }
  }

  // ---------------------------------------------------------------- exactly

  lemma {:induction false} SaysWhenRight(es: seq<Step>, keys: set<string>)
    requires OfKeys(es, keys) && Neutral(es, TOP) && FreshPuts(es, {}) && ReadFile(Old(es)).Some?
    requires InTable(es, TOP) && forall k | k in keys :: Left(es, TOP, k) == 0
    ensures Says(Old(es), New(es), keys, PutTable(es), [])
  {
    var t, none: Table := TableOf(START, LLM_ID), map[];
    assert t == none && (t - keys) + none == t && none.Keys == {};
    RightChanges(es, START, START, keys, none);
    RightLines(es, TOP, keys);
    assert none + PutTable(es) == PutTable(es);
  }

  lemma {:induction false} RightWhenSays(es: seq<Step>, keys: set<string>, k: string)
    requires OfKeys(es, keys) && Neutral(es, TOP) && FreshPuts(es, {})
    requires Says(Old(es), New(es), keys, PutTable(es), [])
    ensures InTable(es, TOP) && (k in keys ==> Left(es, TOP, k) == 0)
  {
    WrittenStands(es, TOP, keys, k);
    ReadStands(New(es), START, k);
    PutsOnce(es, {}, k);
  }

  /** The new file says what it must exactly when every change is in the table and no active line of
      the keys is left there. */
  lemma {:induction false} SaysExactly(es: seq<Step>, keys: set<string>)
    requires OfKeys(es, keys) && Neutral(es, TOP) && FreshPuts(es, {}) && ReadFile(Old(es)).Some?
    ensures Says(Old(es), New(es), keys, PutTable(es), []) <==> InTable(es, TOP) && forall k | k in keys :: Left(es, TOP, k) == 0
  {
    if InTable(es, TOP) && forall k | k in keys :: Left(es, TOP, k) == 0 { SaysWhenRight(es, keys); }
    if Says(Old(es), New(es), keys, PutTable(es), []) {
      RightWhenSays(es, keys, "");
      forall k | k in keys ensures Left(es, TOP, k) == 0 { RightWhenSays(es, keys, k); }
    }
  }

  /** An active line that is left beside a written one: the text is not valid. */
  lemma {:induction false} LeftIsRefused(es: seq<Step>, keys: set<string>, k: string)
    requires OfKeys(es, keys) && Neutral(es, TOP) && FreshPuts(es, {})
    requires InTable(es, TOP) && k in PutTable(es) && Left(es, TOP, k) > 0
    ensures Read(New(es), START).None?
  {
    RightLines(es, TOP, keys);
    WrittenStands(es, TOP, keys, k);
    PutsOnce(es, {}, k);
    if Read(New(es), START).Some? {
      ReadStands(New(es), START, k);
      assert false;
    }
  }
}
