/** The line editor of the [llm] table (`_edit_llm_table`), and a reader of the file.

    The editor goes by what a line looks like.  The reader also knows where the line stands: in a
    string over several lines it is a part of the value, whatever it looks like. */
module LlmTable {
  import opened Collections

  /** The quotes of a string over several lines: three double quotes, or three apostrophes. */
  datatype Quote = Basic | Literal

  /** What a line is outside strings.  `plain`: in the one spelling that the editor knows, which is
      `[table]` and nothing else, or a bare key. */
  datatype Look =
    | Header(table: string, plain: bool)                                // [table]
    | Element(name: string)                                             // [[name]]
    | Entry(active: bool, key: string, value: string, plain: bool)      // key = value, or # key = value
    | Note                                                              // blank, or another comment
    | Junk                                                              // no TOML

  /** What a line does to a string that it stands in. */
  datatype Ending = GoesOn | Ends | Breaks

  /** `opens`: the value of the line goes on below it.  `written`: the line is from the editor. */
  datatype Line = Line(look: Look, text: string, opens: Option<Quote>, basic: Ending, literal: Ending, written: bool)

  const TABLE_NAME := "llm"
  const LLM := Line(Header(TABLE_NAME, true), "[llm]", None, GoesOn, GoesOn, false)
  const BLANK := Line(Note, "", None, GoesOn, GoesOn, false)
  const APPENDED := [BLANK, LLM]

  function EndingOf(l: Line, q: Quote): Ending { if q.Basic? then l.basic else l.literal }

  // ---------------------------------------------------------------- where a line stands

  datatype Mode = Out | In(quote: Quote)

  datatype Pos = Pos(mode: Mode, inLlm: bool)

  const TOP := Pos(Out, false)

  /** Outside strings, in the [llm] table. */
  const TABLE := Pos(Out, true)

  function Next(p: Pos, l: Line): Pos {
    match p.mode
    case In(q) => if EndingOf(l, q).Ends? then Pos(Out, p.inLlm) else p
    case Out =>
      match l.look
      case Header(t, _) => Pos(Out, t == TABLE_NAME)
      case Element(_) => Pos(Out, false)
      case Entry(active, _, _, _) => if active && l.opens.Some? then Pos(In(l.opens.value), p.inLlm) else p
      case _ => p
  }

  function Along(lines: seq<Line>, p: Pos): Pos
    decreases |lines|
  {
    if lines == [] then p else Along(lines[1..], Next(p, lines[0]))
  }

  // ---------------------------------------------------------------- the reader of the file

  datatype TableId = Root | Named(name: string) | Item(n: nat)

  type Table = map<string, string>

  /** `last` is the key whose value a string over several lines is. */
  datatype Reader = Reader(mode: Mode, cur: TableId, count: nat, last: string, tables: map<TableId, Table>)

  const START := Reader(Out, Root, 0, "", map[Root := map[]])
  const LLM_ID := Named(TABLE_NAME)

  function TableOf(st: Reader, id: TableId): Table { if id in st.tables then st.tables[id] else map[] }

  function ValueOf(t: Table, k: string): string { if k in t then t[k] else "" }

  function SetValue(st: Reader, k: string, v: string): Reader {
    st.(tables := st.tables[st.cur := TableOf(st, st.cur)[k := v]])
  }

  /** None: the text is not valid, because a table or a key stands twice, or for a line that is no TOML. */
  function ReadLine(st: Reader, l: Line): Option<Reader> {
    match st.mode
    case In(q) =>
      if EndingOf(l, q).Breaks? then None
      else
        Some(SetValue(st, st.last, ValueOf(TableOf(st, st.cur), st.last) + "\n" + l.text)
             .(mode := if EndingOf(l, q).Ends? then Out else st.mode))
    case Out =>
      match l.look
      case Header(t, _) =>
        if Named(t) in st.tables then None
        else Some(st.(cur := Named(t), tables := st.tables[Named(t) := map[]]))
      case Element(_) => Some(st.(cur := Item(st.count), count := st.count + 1, tables := st.tables[Item(st.count) := map[]]))
      case Entry(active, k, v, _) =>
        if !active then Some(st)
        else if k in TableOf(st, st.cur) then None
        else Some(SetValue(st, k, v).(last := k, mode := if l.opens.Some? then In(l.opens.value) else Out))
      case Note => Some(st)
      case Junk => None
  }

  function Read(lines: seq<Line>, st: Reader): Option<Reader>
    decreases |lines|
  {
    if lines == [] then Some(st)
    else match ReadLine(st, lines[0])
      case None => None
      case Some(st') => Read(lines[1..], st')
  }

  /** A file ends outside strings. */
  function ReadFile(lines: seq<Line>): Option<Reader> {
    match Read(lines, START)
    case None => None
    case Some(st) => if st.mode.Out? then Some(st) else None
  }

  // ---------------------------------------------------------------- what the editor sees

  predicate IsHeader(l: Line) { l.look.Header? || l.look.Element? }

  predicate IsLlm(l: Line) { l.look == Header(TABLE_NAME, true) }

  predicate Mentions(l: Line, keys: set<string>) { l.look.Entry? && l.look.plain && l.look.key in keys }

  predicate Matches(l: Line, key: string, uncomment: bool) {
    l.look.Entry? && l.look.plain && l.look.key == key && (l.look.active || uncomment)
  }

  /** A line that the editor writes. */
  predicate IsUpdate(w: Line) { w.look.Entry? && w.look.active && w.look.plain && w.opens.None? && w.written }

  type Update = w: Line | IsUpdate(w) witness Line(Entry(true, "", "", true), "", None, GoesOn, GoesOn, true)

  /** A key is updated once. */
  ghost predicate DistinctKeys(updates: seq<Update>) {
    forall i, j | 0 <= i < j < |updates| :: updates[i].look.key != updates[j].look.key
  }

  function AsTable(updates: seq<Update>): Table
    decreases |updates|
  {
    if updates == [] then map[]
    else
      var last := updates[|updates| - 1].look;
      AsTable(updates[..|updates| - 1])[last.key := last.value]
  }

  function KeysOf(updates: seq<Update>): set<string>
  {
    set i | 0 <= i < |updates| :: updates[i].look.key
  }

  // ---------------------------------------------------------------- the edit

  function InsideAfter(l: Line, inside: bool): bool {
    if IsLlm(l) then true else if IsHeader(l) then false else inside
  }

  function Cleared(lines: seq<Line>, clear: set<string>, inside: bool): seq<Line>
    decreases |lines|
  {
    if lines == [] then []
    else (if inside && Mentions(lines[0], clear) then [] else [lines[0]])
         + Cleared(lines[1..], clear, InsideAfter(lines[0], inside))
  }

  /** The bounds that the editor works in: after the last line [llm], up to the next other header. */
  function Bounds(lines: seq<Line>, i: nat, start: nat): (r: (nat, nat))
    requires start <= i <= |lines|
    ensures start <= r.0 <= r.1 <= |lines|
    decreases |lines| - i
  {
    if i == |lines| then (start, i)
    else if IsLlm(lines[i]) then Bounds(lines, i + 1, i + 1)
    else if start > 0 && IsHeader(lines[i]) then (start, i)
    else Bounds(lines, i + 1, start)
  }

  /** The first matching line becomes the new one, else the new one goes to the end. */
  function SetKey(body: seq<Line>, w: Update, uncomment: bool): seq<Line>
    decreases |body|
  {
    if body == [] then [w]
    else if Matches(body[0], w.look.key, uncomment) then [w] + body[1..]
    else [body[0]] + SetKey(body[1..], w, uncomment)
  }

  function SetAll(body: seq<Line>, updates: seq<Update>, uncomment: bool): seq<Line>
    decreases |updates|
  {
    if updates == [] then body
    else SetKey(SetAll(body, updates[..|updates| - 1], uncomment), updates[|updates| - 1], uncomment)
  }

  /** The table that is appended for updates when the editor sees none. */
  function Appended(lines: seq<Line>, clear: set<string>, updates: seq<Update>): seq<Line> {
    if Bounds(Cleared(lines, clear, false), 0, 0).0 == 0 && updates != [] then APPENDED else []
  }

  /** The lines after the clearing, with a table to write to. */
  function Base(lines: seq<Line>, clear: set<string>, updates: seq<Update>): seq<Line> {
    Cleared(lines, clear, false) + Appended(lines, clear, updates)
  }

  function Edited(lines: seq<Line>, updates: seq<Update>, clear: set<string>, uncomment: bool): seq<Line>
  {
    var base := Base(lines, clear, updates);
    var (start, end) := Bounds(base, 0, 0);
    if start == 0 then base else base[..start] + SetAll(base[start..end], updates, uncomment) + base[end..]
  }

  // ---------------------------------------------------------------- the loops

  method ClearKeys(lines: seq<Line>, clear: set<string>) returns (kept: seq<Line>)
    ensures kept == Cleared(lines, clear, false)
  {
    kept := [];
    var inLlm := false;
    assert lines[0..] == lines;
    for i := 0 to |lines|
      invariant kept + Cleared(lines[i..], clear, inLlm) == Cleared(lines, clear, false)
    {
      var line := lines[i];
      assert lines[i..][0] == line && lines[i..][1..] == lines[i + 1..];
      ghost var before := kept;
      ghost var rest := Cleared(lines[i + 1..], clear, InsideAfter(line, inLlm));
      if IsLlm(line) {
        inLlm := true;
        kept := kept + [line];
      } else if inLlm && IsHeader(line) {
        inLlm := false;
        kept := kept + [line];
      } else if !(inLlm && Mentions(line, clear)) {
        kept := kept + [line];
      }
      Associate(before, [line], rest);
      Associate(before, [], rest);
    }
    assert lines[|lines|..] == [];
  }

  /** `start` is 0 when there is no line [llm]. */
  method FindTable(lines: seq<Line>) returns (start: nat, end: nat)
    ensures (start, end) == Bounds(lines, 0, 0)
  {
    start, end := 0, |lines|;
    var inLlm := false;
    for i := 0 to |lines|
      invariant end == |lines| && start <= i && (inLlm <==> start > 0)
      invariant Bounds(lines, 0, 0) == Bounds(lines, i, start)
    {
      if IsLlm(lines[i]) {
        inLlm := true;
        start := i + 1;
      } else if inLlm && IsHeader(lines[i]) {
        end := i;
        return;
      }
    }
  }

  /** The bounds are a [llm] line, lines without a header, and a header or the end of the file. */
  lemma {:induction false} BoundsMeaning(lines: seq<Line>, i: nat, start: nat)
    requires start <= i <= |lines|
    requires start > 0 ==> IsLlm(lines[start - 1]) && forall j | start <= j < i :: !IsHeader(lines[j])
    requires start == 0 ==> forall j | 0 <= j < i :: !IsLlm(lines[j])
    ensures
      var (s, e) := Bounds(lines, i, start);
      && (s == 0 ==> e == |lines| && forall j | 0 <= j < |lines| :: !IsLlm(lines[j]))
      && (s > 0 ==> IsLlm(lines[s - 1]) && (forall j | s <= j < e :: !IsHeader(lines[j])) && (e < |lines| ==> IsHeader(lines[e])))
    decreases |lines| - i
  {
    if i < |lines| {
      if IsLlm(lines[i]) {
        BoundsMeaning(lines, i + 1, i + 1);
      } else if !(start > 0 && IsHeader(lines[i])) {
        BoundsMeaning(lines, i + 1, start);
      }
    }
  }

  lemma {:induction false} SetKeyAt(body: seq<Line>, w: Update, uncomment: bool, j: nat)
    requires j <= |body| && forall i | 0 <= i < j :: !Matches(body[i], w.look.key, uncomment)
    requires j < |body| ==> Matches(body[j], w.look.key, uncomment)
    ensures SetKey(body, w, uncomment) == if j < |body| then body[j := w] else body + [w]
    decreases |body|
  {
    if body != [] && j > 0 {
      var tail := body[1..];
      SetKeyAt(tail, w, uncomment, j - 1);
      assert body == [body[0]] + tail;
      assert j < |body| ==> [body[0]] + tail[j - 1 := w] == body[j := w];
      assert [body[0]] + (tail + [w]) == body + [w];
    }
  }

  lemma {:induction false} Slices(all: seq<Line>, a: seq<Line>, b: seq<Line>, c: seq<Line>)
    requires all == a + b + c
    ensures all[..|a|] == a && all[|a|..|a| + |b|] == b && all[|a| + |b|..] == c
  {
  }

  lemma {:induction false} SetInMiddle(all: seq<Line>, a: seq<Line>, b: seq<Line>, c: seq<Line>, i: nat, e: Line)
    requires all == a + b + c
    ensures i < |b| ==> all[|a| + i := e] == a + b[i := e] + c
    ensures all[..|a| + |b|] + [e] + all[|a| + |b|..] == a + (b + [e]) + c
  {
  }

  method SetOne(lines: seq<Line>, start: nat, end: nat, w: Update, uncomment: bool) returns (out: seq<Line>, end': nat)
    requires start <= end <= |lines|
    ensures out == lines[..start] + SetKey(lines[start..end], w, uncomment) + lines[end..]
    ensures end' == start + |SetKey(lines[start..end], w, uncomment)|
  {
    ghost var body := lines[start..end];
    assert lines == lines[..start] + body + lines[end..];
    var i := start;
    while i < end
      invariant start <= i <= end
      invariant forall j | 0 <= j < i - start :: !Matches(body[j], w.look.key, uncomment)
    {
      if Matches(lines[i], w.look.key, uncomment) {
        SetKeyAt(body, w, uncomment, i - start);
        SetInMiddle(lines, lines[..start], body, lines[end..], i - start, w);
        return lines[i := w], end;
      }
      i := i + 1;
    }
    SetKeyAt(body, w, uncomment, |body|);
    SetInMiddle(lines, lines[..start], body, lines[end..], 0, w);
    out, end' := lines[..end] + [w] + lines[end..], end + 1;
  }

  /** The loop over the updates. */
  method SetEach(lines: seq<Line>, start: nat, end: nat, updates: seq<Update>, uncomment: bool) returns (out: seq<Line>)
    requires start <= end <= |lines|
    ensures out == lines[..start] + SetAll(lines[start..end], updates, uncomment) + lines[end..]
  {
    ghost var pre, body, post := lines[..start], lines[start..end], lines[end..];
    out := lines;
    var to := end;
    assert lines == pre + body + post;
    for n := 0 to |updates|
      invariant start <= to <= |out| && to == start + |SetAll(body, updates[..n], uncomment)|
      invariant out == pre + SetAll(body, updates[..n], uncomment) + post
    {
      Slices(out, pre, SetAll(body, updates[..n], uncomment), post);
      out, to := SetOne(out, start, to, updates[n], uncomment);
      assert updates[..n + 1][..n] == updates[..n];
    }
    assert updates[..|updates|] == updates;
  }

  lemma {:induction false} BoundsOfAppended(lines: seq<Line>, i: nat)
    requires i <= |lines| && Bounds(lines, i, 0).0 == 0
    ensures Bounds(lines + APPENDED, i, 0) == (|lines| + 2, |lines| + 2)
    decreases |lines| - i
  {
    var all := lines + APPENDED;
    if i < |lines| {
      assert all[i] == lines[i];
      NoLlmAt(lines, i);
      BoundsOfAppended(lines, i + 1);
    } else {
      assert all[i] == BLANK && all[i + 1] == LLM;
    }
  }

  lemma {:induction false} NoLlmAt(lines: seq<Line>, i: nat)
    requires i < |lines| && Bounds(lines, i, 0).0 == 0
    ensures !IsLlm(lines[i]) && Bounds(lines, i + 1, 0).0 == 0
  {
    BoundsFrom(lines, i + 1, i + 1);
  }

  lemma {:induction false} BoundsFrom(lines: seq<Line>, i: nat, start: nat)
    requires 0 < start <= i <= |lines|
    ensures Bounds(lines, i, start).0 > 0
    decreases |lines| - i
  {
    if i < |lines| && (IsLlm(lines[i]) || !IsHeader(lines[i])) {
      BoundsFrom(lines, i + 1, if IsLlm(lines[i]) then i + 1 else start);
    }
  }

  /** The lines after the edit, before the check of their text. */
  method RewriteLines(lines: seq<Line>, updates: seq<Update>, clear: set<string>, uncomment: bool) returns (out: seq<Line>)
    ensures out == Edited(lines, updates, clear, uncomment)
  {
    out := ClearKeys(lines, clear);
    var start, end := FindTable(out);
    ghost var cleared := out;
    if start == 0 && updates != [] {
      out := out + APPENDED;
      start, end := |out|, |out|;
      BoundsOfAppended(cleared, 0);
    } else {
      assert cleared + [] == cleared;
    }
    ghost var base := out;
    assert base == Base(lines, clear, updates) && (start, end) == Bounds(base, 0, 0);
    if start == 0 {
      assert updates == [];
    } else {
      out := SetEach(out, start, end, updates, uncomment);
    }
  }
}
