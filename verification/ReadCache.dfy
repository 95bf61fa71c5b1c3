/** The cache of file contents (`read_file_lines`) under any interleaving of its callers with the
    writers of the files.

    A call samples the mtime, looks the key up under the lock, reads the file without the lock
    (one open per encoding it tries) and inserts under the lock. */
module ReadCache {
  import opened Collections
  import opened Encodings

  type Path = string
  type CallId = nat

  // ---------------------------------------------------------------- decoding

  /** utf-8 and cp1252 refuse some contents; latin1 refuses none. */
  datatype Codec = Codec(utf8: Bytes -> Option<Lines>, cp1252: Bytes -> Option<Lines>, latin1: Bytes -> Lines)

  const LAST_ENCODING: nat := 2

  function TryDecode(c: Codec, e: nat, b: Bytes): Option<Lines> {
    if e == 0 then c.utf8(b) else if e == 1 then c.cp1252(b) else Some(c.latin1(b))
  }

  /** The first encoding that accepts the content decides. */
  function Decode(c: Codec, b: Bytes): Lines {
    if c.utf8(b).Some? then c.utf8(b).value
    else if c.cp1252(b).Some? then c.cp1252(b).value
    else c.latin1(b)
  }

  // ---------------------------------------------------------------- the ordered dictionary

  datatype Key = Key(path: Path, mtime: int)

  datatype Slot = Slot(key: Key, lines: Lines)

  const MAX: nat := 500

  function Find(cache: seq<Slot>, key: Key): Option<nat> {
    if cache == [] then None
    else if cache[0].key == key then Some(0)
    else match Find(cache[1..], key) case None => None case Some(i) => Some(i + 1)
  }

  lemma {:induction false} FindIsFirst(cache: seq<Slot>, key: Key)
    ensures Find(cache, key).Some? ==> Find(cache, key).value < |cache| && cache[Find(cache, key).value].key == key
    ensures Find(cache, key).Some? ==> forall i | 0 <= i < Find(cache, key).value :: cache[i].key != key
    ensures Find(cache, key).None? ==> forall i | 0 <= i < |cache| :: cache[i].key != key
    decreases |cache|
  {
    if cache != [] {
      FindIsFirst(cache[1..], key);
      forall i | 0 < i < |cache| ensures cache[i] == cache[1..][i - 1] {}
    }
  }

  /** `move_to_end`. */
  function Touch(cache: seq<Slot>, key: Key): seq<Slot> {
    FindIsFirst(cache, key);
    match Find(cache, key)
    case None => cache
    case Some(i) => cache[..i] + cache[i + 1..] + [cache[i]]
  }

  /** Assignment: an existing key keeps its place, a new one goes to the end. */
  function Assign(cache: seq<Slot>, key: Key, lines: Lines): seq<Slot> {
    FindIsFirst(cache, key);
    match Find(cache, key)
    case None => cache + [Slot(key, lines)]
    case Some(i) => cache[i := Slot(key, lines)]
  }

  /** The locked insert: evict the least recently used entry of a full cache first. */
  function Insert(cache: seq<Slot>, key: Key, lines: Lines): seq<Slot> {
    Assign(if |cache| >= MAX then cache[1..] else cache, key, lines)
  }

  ghost predicate DistinctKeys(cache: seq<Slot>) {
    forall i, j | 0 <= i < j < |cache| :: cache[i].key != cache[j].key
  }

  ghost predicate ComesBefore(cache: seq<Slot>, x: Slot, y: Slot) {
    exists i, j :: 0 <= i < j < |cache| && cache[i] == x && cache[j] == y
  }

  /** A hit moves the touched slot to the end and keeps the others in order. */
  lemma {:induction false} TouchKeeps(cache: seq<Slot>, key: Key)
    requires DistinctKeys(cache)
    ensures |Touch(cache, key)| == |cache| && DistinctKeys(Touch(cache, key))
    ensures forall x :: x in Touch(cache, key) <==> x in cache
    ensures Find(cache, key).Some? ==>
              var t := Touch(cache, key);
              t != [] && t[|t| - 1].key == key && forall i, j | 0 <= i < j < |t| - 1 :: ComesBefore(cache, t[i], t[j])
  {
    FindIsFirst(cache, key);
    if Find(cache, key).Some? {
      var i := Find(cache, key).value;
      MovedToEnd(cache, i);
      assert Touch(cache, key) == cache[..i] + cache[i + 1..] + [cache[i]];
    }
  }

  /** Where the slot at place `j` of the result was before. */
  function Origin(i: nat, j: nat, n: nat): nat { if j < i then j else if j < n - 1 then j + 1 else i }

  lemma {:induction false} MovedToEnd(cache: seq<Slot>, i: nat)
    requires DistinctKeys(cache) && i < |cache|
    ensures
      var t := cache[..i] + cache[i + 1..] + [cache[i]];
      && |t| == |cache| && DistinctKeys(t)
      && (forall x :: x in t <==> x in cache)
      && forall a, b | 0 <= a < b < |t| - 1 :: ComesBefore(cache, t[a], t[b])
  {
    var t, n := cache[..i] + cache[i + 1..] + [cache[i]], |cache|;
    assert forall j | 0 <= j < n :: Origin(i, j, n) < n && t[j] == cache[Origin(i, j, n)];
    forall x | x in cache ensures x in t {
      var j :| 0 <= j < n && cache[j] == x;
      assert t[if j < i then j else if j == i then n - 1 else j - 1] == x;
    }
    forall a, b | 0 <= a < b < n - 1 ensures ComesBefore(cache, t[a], t[b]) {
      assert Origin(i, a, n) < Origin(i, b, n);
    }
  }

  lemma {:induction false} AssignKeeps(cache: seq<Slot>, key: Key, lines: Lines)
    requires DistinctKeys(cache)
    ensures |Assign(cache, key, lines)| <= |cache| + 1 && DistinctKeys(Assign(cache, key, lines))
    ensures forall x :: x in Assign(cache, key, lines) <==> x == Slot(key, lines) || (x in cache && x.key != key)
  {
    FindIsFirst(cache, key);
    var r := Assign(cache, key, lines);
    if Find(cache, key).Some? {
      assert r[Find(cache, key).value] == Slot(key, lines);
    } else {
      assert r[|r| - 1] == Slot(key, lines);
    }
    forall x | x in cache && x.key != key ensures x in r {
      var j :| 0 <= j < |cache| && cache[j] == x;
      assert r[j] == x;
    }
  }

  lemma {:induction false} InsertKeeps(cache: seq<Slot>, key: Key, lines: Lines)
    requires DistinctKeys(cache) && |cache| <= MAX
    ensures |Insert(cache, key, lines)| <= MAX && DistinctKeys(Insert(cache, key, lines))
    ensures Slot(key, lines) in Insert(cache, key, lines)
    ensures forall x | x in Insert(cache, key, lines) :: x == Slot(key, lines) || (x in cache && x.key != key)
    ensures forall x | x in cache && x.key != key && (|cache| < MAX || x != cache[0]) :: x in Insert(cache, key, lines)
  {
    if |cache| >= MAX {
      assert cache == [cache[0]] + cache[1..];
      AssignKeeps(cache[1..], key, lines);
    } else {
      AssignKeeps(cache, key, lines);
    }
  }

  /** The module-level cache; the two locked sections of a call are its methods. */
  class SharedCache {
    var slots: seq<Slot>

    constructor ()
      ensures slots == []
    {
      slots := [];
    }

    method Lookup(key: Key) returns (r: Option<Lines>)
      modifies this
      ensures slots == Touch(old(slots), key)
      ensures r.Some? <==> Find(old(slots), key).Some?
      ensures r.Some? ==> Slot(key, r.value) in old(slots)
    {
      FindIsFirst(slots, key);
      match Find(slots, key)
      case None => r := None;
      case Some(i) =>
        r := Some(slots[i].lines);
        slots := slots[..i] + slots[i + 1..] + [slots[i]];
    }

    method Store(key: Key, lines: Lines)
      modifies this
      ensures slots == Insert(old(slots), key, lines)
    {
      if |slots| >= MAX { slots := slots[1..]; }
      slots := Assign(slots, key, lines);
    }
  }

  // ---------------------------------------------------------------- files

  /** What a path held, oldest first; the last is what it holds now. */
  datatype Version = Gone | Text(mtime: int, bytes: Bytes)

  type History = seq<Version>

  /** Each write raises the mtime of its file above all earlier ones. */
  ghost predicate Rising(hist: History) {
    hist != [] && forall i, j | 0 <= i < j < |hist| && hist[i].Text? && hist[j].Text? :: hist[i].mtime < hist[j].mtime
  }

  // ---------------------------------------------------------------- calls

  /** `start` is the version that the call sampled.  A finished call keeps the length that the
      history of its path had when the call ended, and whether an I/O error ended it. */
  datatype Call =
    | Idle
    | Sampled(path: Path, start: nat)
    | Reading(path: Path, start: nat, attempt: nat)
    | Decoded(path: Path, start: nat, lines: Lines)
    | Done(path: Path, start: nat, end: nat, result: Option<Lines>, ioError: bool)

  datatype State = State(disk: map<Path, History>, cache: seq<Slot>, calls: map<CallId, Call>)

  datatype Event =
    | Write(path: Path, version: Version)
    | Sample(id: CallId, path: Path)
    | LockedLookup(id: CallId)
    | OpenAndDecode(id: CallId)
    | OpenFails(id: CallId)
    | LockedInsert(id: CallId)
    | Return(id: CallId)

  ghost function Current(s: State, p: Path): Version
    requires p in s.disk && s.disk[p] != []
  {
    s.disk[p][|s.disk[p]| - 1]
  }

  ghost function CallOf(s: State, id: CallId): Call { if id in s.calls then s.calls[id] else Idle }

  ghost predicate OnDisk(s: State, p: Path) { p in s.disk && s.disk[p] != [] }

  ghost predicate CallInDisk(s: State, c: Call) {
    && !c.Idle? && OnDisk(s, c.path) && c.start < |s.disk[c.path]| && s.disk[c.path][c.start].Text?
  }

  ghost predicate Enabled(s: State, e: Event) {
    match e
    case Write(p, v) => p in s.disk && Rising(s.disk[p] + [v])
    case Sample(id, p) => CallOf(s, id).Idle? && OnDisk(s, p)
    case LockedLookup(id) => CallOf(s, id).Sampled? && CallInDisk(s, CallOf(s, id))
    case OpenAndDecode(id) => CallOf(s, id).Reading? && CallInDisk(s, CallOf(s, id))
    case OpenFails(id) => CallOf(s, id).Reading? && CallInDisk(s, CallOf(s, id))
    case LockedInsert(id) => CallOf(s, id).Decoded? && CallInDisk(s, CallOf(s, id))
    case Return(id) => CallOf(s, id).Done?
  }

  ghost function Finish(s: State, c: Call, r: Option<Lines>, ioError: bool): Call
    requires c.Sampled? || c.Reading? || c.Decoded?
    requires OnDisk(s, c.path)
  {
    Done(c.path, c.start, |s.disk[c.path]|, r, ioError)
  }

  ghost function KeyOf(s: State, c: Call): Key
    requires !c.Idle? && CallInDisk(s, c)
  {
    Key(c.path, s.disk[c.path][c.start].mtime)
  }

  ghost function Next(codec: Codec, s: State, e: Event): State
    requires Enabled(s, e)
  {
    match e
    case Write(p, v) => s.(disk := s.disk[p := s.disk[p] + [v]])
    case Sample(id, p) =>
      var start := |s.disk[p]| - 1;
      // os.path.getmtime raises for a path that is not there
      if Current(s, p).Gone? then s.(calls := s.calls[id := Done(p, start, start + 1, None, false)])
      else s.(calls := s.calls[id := Sampled(p, start)])
    case LockedLookup(id) =>
      var c := CallOf(s, id);
      var key := KeyOf(s, c);
      FindIsFirst(s.cache, key);
      (match Find(s.cache, key)
       case None => s.(calls := s.calls[id := Reading(c.path, c.start, 0)])
       case Some(i) => s.(cache := Touch(s.cache, key), calls := s.calls[id := Finish(s, c, Some(s.cache[i].lines), false)]))
    case OpenAndDecode(id) =>
      var c := CallOf(s, id);
      (match Current(s, c.path)
       case Gone => s.(calls := s.calls[id := Finish(s, c, None, false)])
       case Text(_, bytes) =>
         match TryDecode(codec, c.attempt, bytes)
         case None => s.(calls := s.calls[id := Reading(c.path, c.start, c.attempt + 1)])
         case Some(lines) => s.(calls := s.calls[id := Decoded(c.path, c.start, lines)]))
    case OpenFails(id) =>
      s.(calls := s.calls[id := Finish(s, CallOf(s, id), None, true)])
    case LockedInsert(id) =>
      var c := CallOf(s, id);
      s.(cache := Insert(s.cache, KeyOf(s, c), c.lines), calls := s.calls[id := Finish(s, c, Some(c.lines), false)])
    case Return(id) => s.(calls := s.calls - {id})
  }

  // ---------------------------------------------------------------- the invariant

  /** Encoding `e` refused a content that the file held since version `i`. */
  ghost predicate RefusedSince(codec: Codec, hist: History, i: nat, end: nat, e: nat) {
    exists k :: i <= k < end <= |hist| && hist[k].Text? && TryDecode(codec, e, hist[k].bytes).None?
  }

  /** `lines` are version `j` in encoding `e`, and each earlier encoding refused some version. */
  ghost predicate DecodingOf(codec: Codec, hist: History, i: nat, end: nat, j: nat, e: nat, lines: Lines) {
    && i <= j < end <= |hist| && hist[j].Text? && e <= LAST_ENCODING
    && TryDecode(codec, e, hist[j].bytes) == Some(lines)
    && forall d: nat | d < e :: RefusedSince(codec, hist, i, end, d)
  }

  ghost predicate ReadSince(codec: Codec, hist: History, i: nat, end: nat, lines: Lines) {
    exists j: nat, e: nat :: DecodingOf(codec, hist, i, end, j, e, lines)
  }

  ghost predicate SlotGood(codec: Codec, s: State, x: Slot) {
    && OnDisk(s, x.key.path)
    && exists i :: 0 <= i < |s.disk[x.key.path]| && s.disk[x.key.path][i].Text? && s.disk[x.key.path][i].mtime == x.key.mtime
                   && ReadSince(codec, s.disk[x.key.path], i, |s.disk[x.key.path]|, x.lines)
  }

  ghost predicate CallGood(codec: Codec, s: State, c: Call) {
    match c
    case Idle => true
    case Sampled(p, i) => CallInDisk(s, c)
    case Reading(p, i, n) =>
      && CallInDisk(s, c) && n <= LAST_ENCODING
      && (forall e: nat | e < n :: RefusedSince(codec, s.disk[p], i, |s.disk[p]|, e))
    case Decoded(p, i, lines) => CallInDisk(s, c) && ReadSince(codec, s.disk[p], i, |s.disk[p]|, lines)
    case Done(p, i, end, r, ioError) =>
      && OnDisk(s, p) && i < end <= |s.disk[p]|
      && (r.Some? ==> ReadSince(codec, s.disk[p], i, end, r.value))
      && (r.None? && !ioError ==> exists j :: i <= j < end && s.disk[p][j].Gone?)
  }

  ghost predicate Inv(codec: Codec, s: State) {
    && (forall p | p in s.disk :: Rising(s.disk[p]))
    && |s.cache| <= MAX && DistinctKeys(s.cache)
    && (forall x | x in s.cache :: SlotGood(codec, s, x))
    && (forall id | id in s.calls :: CallGood(codec, s, s.calls[id]))
  }

  lemma {:induction false} RefusedSinceAppend(codec: Codec, hist: History, v: Version, i: nat, end: nat, end': nat, e: nat)
    requires RefusedSince(codec, hist, i, end, e) && end <= end' <= |hist| + 1
    ensures RefusedSince(codec, hist + [v], i, end', e)
  {
    var k :| i <= k < end <= |hist| && hist[k].Text? && TryDecode(codec, e, hist[k].bytes).None?;
    assert (hist + [v])[k] == hist[k];
  }

  lemma {:induction false} ReadSinceAppend(codec: Codec, hist: History, v: Version, i: nat, end: nat, end': nat, lines: Lines)
    requires ReadSince(codec, hist, i, end, lines) && end <= end' <= |hist| + 1
    ensures ReadSince(codec, hist + [v], i, end', lines)
  {
    var j: nat, e: nat :| DecodingOf(codec, hist, i, end, j, e, lines);
    assert (hist + [v])[j] == hist[j];
    forall d: nat | d < e ensures RefusedSince(codec, hist + [v], i, end', d) {
      RefusedSinceAppend(codec, hist, v, i, end, end', d);
    }
    assert DecodingOf(codec, hist + [v], i, end', j, e, lines);
  }

  /** Nothing was written since version `i`: the lines are its right decoding. */
  lemma {:induction false} UndisturbedReadIsRight(codec: Codec, hist: History, i: nat, lines: Lines)
    requires ReadSince(codec, hist, i, i + 1, lines)
    ensures i < |hist| && hist[i].Text? && lines == Decode(codec, hist[i].bytes)
  {
    var j: nat, e: nat :| DecodingOf(codec, hist, i, i + 1, j, e, lines);
    if e >= 1 { assert RefusedSince(codec, hist, i, i + 1, 0); }
    if e >= 2 { assert RefusedSince(codec, hist, i, i + 1, 1); }
  }

  lemma {:induction false} WriteKeepsSlot(codec: Codec, s: State, p: Path, v: Version, x: Slot)
    requires Enabled(s, Write(p, v)) && SlotGood(codec, s, x)
    ensures SlotGood(codec, Next(codec, s, Write(p, v)), x)
  {
    if x.key.path == p {
      var hist := s.disk[p];
      var i :| 0 <= i < |hist| && hist[i].Text? && hist[i].mtime == x.key.mtime && ReadSince(codec, hist, i, |hist|, x.lines);
      ReadSinceAppend(codec, hist, v, i, |hist|, |hist| + 1, x.lines);
      assert (hist + [v])[i] == hist[i];
    }
  }

  lemma {:induction false} WriteKeepsCall(codec: Codec, s: State, p: Path, v: Version, c: Call)
    requires Enabled(s, Write(p, v)) && CallGood(codec, s, c)
    ensures CallGood(codec, Next(codec, s, Write(p, v)), c)
  {
    if !c.Idle? && c.path == p {
      var hist := s.disk[p];
      assert forall j | 0 <= j < |hist| :: (hist + [v])[j] == hist[j];
      match c {
        case Reading(_, i, n) =>
          var hist' := hist + [v];
          forall e: nat | e < n ensures RefusedSince(codec, hist', i, |hist'|, e) {
            RefusedSinceAppend(codec, hist, v, i, |hist|, |hist| + 1, e);
          }
        case Decoded(_, i, lines) => ReadSinceAppend(codec, hist, v, i, |hist|, |hist| + 1, lines);
        case Done(_, i, end, r, ioError) =>
          if r.Some? { ReadSinceAppend(codec, hist, v, i, end, end, r.value); }
          else if !ioError {
            var j :| i <= j < end && hist[j].Gone?;
            assert (hist + [v])[j].Gone?;
          }
        case _ =>
      }
    }
  }

  lemma {:induction false} SamplingIsUnique(hist: History, i: nat, j: nat)
    requires Rising(hist) && i < |hist| && j < |hist| && hist[i].Text? && hist[j].Text? && hist[i].mtime == hist[j].mtime
    ensures i == j
  {
  }

  /** A hit gives what a read since the sample gave. */
  lemma {:induction false} HitIsGood(codec: Codec, s: State, c: Call, x: Slot)
    requires Inv(codec, s) && !c.Idle? && CallInDisk(s, c) && x in s.cache && x.key == KeyOf(s, c)
    ensures ReadSince(codec, s.disk[c.path], c.start, |s.disk[c.path]|, x.lines)
  {
    assert SlotGood(codec, s, x);
    var hist := s.disk[c.path];
    var i :| 0 <= i < |hist| && hist[i].Text? && hist[i].mtime == x.key.mtime && ReadSince(codec, hist, i, |hist|, x.lines);
    SamplingIsUnique(hist, i, c.start);
  }

  lemma {:induction false} WriteKeepsInv(codec: Codec, s: State, p: Path, v: Version)
    requires Inv(codec, s) && Enabled(s, Write(p, v))
    ensures Inv(codec, Next(codec, s, Write(p, v)))
  {
    var s' := Next(codec, s, Write(p, v));
    forall x | x in s'.cache ensures SlotGood(codec, s', x) { WriteKeepsSlot(codec, s, p, v, x); }
    forall id | id in s'.calls ensures CallGood(codec, s', s'.calls[id]) { WriteKeepsCall(codec, s, p, v, s.calls[id]); }
  }

  /** A step that changes one call and leaves the files and the cache alone. */
  lemma {:induction false} OneCallKeepsInv(codec: Codec, s: State, id: CallId, c: Call)
    requires Inv(codec, s) && CallGood(codec, s, c)
    ensures Inv(codec, s.(calls := s.calls[id := c]))
  {
    var s' := s.(calls := s.calls[id := c]);
    forall x | x in s'.cache ensures SlotGood(codec, s', x) { assert SlotGood(codec, s, x); }
    forall k | k in s'.calls ensures CallGood(codec, s', s'.calls[k]) {
      if k != id { assert CallGood(codec, s, s.calls[k]); }
    }
  }

  /** A step that also changes the cache, to slots that are good. */
  lemma {:induction false} CacheStepKeepsInv(codec: Codec, s: State, id: CallId, c: Call, cache: seq<Slot>)
    requires Inv(codec, s) && CallGood(codec, s, c)
    requires |cache| <= MAX && DistinctKeys(cache) && forall x | x in cache :: SlotGood(codec, s, x)
    ensures Inv(codec, s.(cache := cache, calls := s.calls[id := c]))
  {
    var s' := s.(cache := cache, calls := s.calls[id := c]);
    forall x | x in s'.cache ensures SlotGood(codec, s', x) { assert SlotGood(codec, s, x); }
    forall k | k in s'.calls ensures CallGood(codec, s', s'.calls[k]) {
      if k != id { assert CallGood(codec, s, s.calls[k]); }
    }
  }

  lemma {:induction false} LookupKeepsInv(codec: Codec, s: State, id: CallId)
    requires Inv(codec, s) && Enabled(s, LockedLookup(id))
    ensures Inv(codec, Next(codec, s, LockedLookup(id)))
  {
    var c := s.calls[id];
    var key := KeyOf(s, c);
    FindIsFirst(s.cache, key);
    match Find(s.cache, key)
    case None => OneCallKeepsInv(codec, s, id, Reading(c.path, c.start, 0));
    case Some(i) =>
      HitIsGood(codec, s, c, s.cache[i]);
      TouchKeeps(s.cache, key);
      CacheStepKeepsInv(codec, s, id, Finish(s, c, Some(s.cache[i].lines), false), Touch(s.cache, key));
  }

  lemma {:induction false} ReadKeepsInv(codec: Codec, s: State, id: CallId)
    requires Inv(codec, s) && Enabled(s, OpenAndDecode(id))
    ensures Inv(codec, Next(codec, s, OpenAndDecode(id)))
  {
    var c := s.calls[id];
    assert CallGood(codec, s, c);
    var hist := s.disk[c.path];
    match Current(s, c.path)
    case Gone =>
      assert hist[|hist| - 1].Gone?;
      OneCallKeepsInv(codec, s, id, Finish(s, c, None, false));
    case Text(_, bytes) =>
      match TryDecode(codec, c.attempt, bytes)
      case None =>
        assert RefusedSince(codec, hist, c.start, |hist|, c.attempt) by {
          assert hist[|hist| - 1].Text? && TryDecode(codec, c.attempt, hist[|hist| - 1].bytes).None?;
        }
        OneCallKeepsInv(codec, s, id, Reading(c.path, c.start, c.attempt + 1));
      case Some(lines) =>
        assert DecodingOf(codec, hist, c.start, |hist|, |hist| - 1, c.attempt, lines);
        OneCallKeepsInv(codec, s, id, Decoded(c.path, c.start, lines));
  }

  lemma {:induction false} InsertKeepsInv(codec: Codec, s: State, id: CallId)
    requires Inv(codec, s) && Enabled(s, LockedInsert(id))
    ensures Inv(codec, Next(codec, s, LockedInsert(id)))
  {
    var c := s.calls[id];
    assert CallGood(codec, s, c);
    var key := KeyOf(s, c);
    InsertKeeps(s.cache, key, c.lines);
    forall x | x in Insert(s.cache, key, c.lines) ensures SlotGood(codec, s, x) {
      if x in s.cache { assert SlotGood(codec, s, x); }
    }
    CacheStepKeepsInv(codec, s, id, Finish(s, c, Some(c.lines), false), Insert(s.cache, key, c.lines));
  }

  /** Every step keeps the invariant. */
  lemma {:induction false} StepKeepsInv(codec: Codec, s: State, e: Event)
    requires Inv(codec, s) && Enabled(s, e)
    ensures Inv(codec, Next(codec, s, e))
  {
    match e
    case Write(p, v) => WriteKeepsInv(codec, s, p, v);
    case Sample(id, p) =>
      var hist := s.disk[p];
      var start := |hist| - 1;
      if Current(s, p).Gone? {
        assert hist[start].Gone?;
        OneCallKeepsInv(codec, s, id, Done(p, start, start + 1, None, false));
      } else {
        OneCallKeepsInv(codec, s, id, Sampled(p, start));
      }
    case LockedLookup(id) => LookupKeepsInv(codec, s, id);
    case OpenAndDecode(id) => ReadKeepsInv(codec, s, id);
    case OpenFails(id) => OneCallKeepsInv(codec, s, id, Finish(s, s.calls[id], None, true));
    case LockedInsert(id) => InsertKeepsInv(codec, s, id);
    case Return(id) =>
      var s' := Next(codec, s, e);
      forall x | x in s'.cache ensures SlotGood(codec, s', x) { assert SlotGood(codec, s, x); }
      forall k | k in s'.calls ensures CallGood(codec, s', s'.calls[k]) { assert CallGood(codec, s, s.calls[k]); }
  }

  // ---------------------------------------------------------------- whole runs

  ghost predicate Initial(s: State) {
    s.cache == [] && s.calls == map[] && forall p | p in s.disk :: Rising(s.disk[p])
  }

  ghost predicate IsRun(codec: Codec, ss: seq<State>, es: seq<Event>) {
    && |ss| == |es| + 1 && Initial(ss[0])
    && forall i | 0 <= i < |es| :: Enabled(ss[i], es[i]) && ss[i + 1] == Next(codec, ss[i], es[i])
  }

  lemma {:induction false} RunKeepsInv(codec: Codec, ss: seq<State>, es: seq<Event>, n: nat)
    requires IsRun(codec, ss, es) && n < |ss|
    ensures Inv(codec, ss[n])
  {
    if n > 0 {
      RunKeepsInv(codec, ss, es, n - 1);
      StepKeepsInv(codec, ss[n - 1], es[n - 1]);
    }
  }

  /** In every reachable state: the cache is bounded; an entry under the mtime that a file has now
      holds the right decoding of what the file holds now. */
  lemma {:induction false} CacheIsFresh(codec: Codec, ss: seq<State>, es: seq<Event>, n: nat, x: Slot)
    requires IsRun(codec, ss, es) && n < |ss| && x in ss[n].cache
    ensures |ss[n].cache| <= MAX
    ensures OnDisk(ss[n], x.key.path)
    ensures
      var now := Current(ss[n], x.key.path);
      now.Text? && now.mtime == x.key.mtime ==> x.lines == Decode(codec, now.bytes)
  {
    RunKeepsInv(codec, ss, es, n);
    var s := ss[n];
    assert SlotGood(codec, s, x);
    var hist := s.disk[x.key.path];
    var i :| 0 <= i < |hist| && hist[i].Text? && hist[i].mtime == x.key.mtime && ReadSince(codec, hist, i, |hist|, x.lines);
    if hist[|hist| - 1].Text? && hist[|hist| - 1].mtime == x.key.mtime {
      SamplingIsUnique(hist, i, |hist| - 1);
      UndisturbedReadIsRight(codec, hist, i, x.lines);
    }
  }

  /** A call that ended returned the lines of one version that its file held during the call. */
  ghost predicate HeldDuring(codec: Codec, s: State, c: Call)
    requires c.Done? && OnDisk(s, c.path)
  {
    c.result.Some? ==> ReadSince(codec, s.disk[c.path], c.start, c.end, c.result.value)
  }

  /** Every call that ended returned lines of a content that its file held at some moment of the
      call; the right decoding of it when no write came during the call; None only for a file
      that was gone at such a moment, or for an I/O error. */
  lemma {:induction false} ReadsAreLinearizable(codec: Codec, ss: seq<State>, es: seq<Event>, n: nat, id: CallId)
    requires IsRun(codec, ss, es) && n < |ss| && CallOf(ss[n], id).Done?
    ensures
      var c := CallOf(ss[n], id);
      && OnDisk(ss[n], c.path) && c.start < c.end <= |ss[n].disk[c.path]|
      && HeldDuring(codec, ss[n], c)
      && (c.result.Some? && c.end == c.start + 1 ==>
            ss[n].disk[c.path][c.start].Text? && c.result.value == Decode(codec, ss[n].disk[c.path][c.start].bytes))
      && (c.result.None? && !c.ioError ==> exists j :: c.start <= j < c.end && ss[n].disk[c.path][j].Gone?)
  {
    RunKeepsInv(codec, ss, es, n);
    var c := CallOf(ss[n], id);
    assert CallGood(codec, ss[n], c);
    if c.result.Some? && c.end == c.start + 1 {
      UndisturbedReadIsRight(codec, ss[n].disk[c.path], c.start, c.result.value);
    }
  }

  // ---------------------------------------------------------------- when the decoding is right too

  /** The lines are the ones that the whole chain of encodings gives for a version of the call. */
  ghost predicate RightDuring(codec: Codec, s: State, c: Call)
    requires c.Done? && OnDisk(s, c.path)
  {
    c.result.Some? ==>
      exists j :: c.start <= j < c.end <= |s.disk[c.path]| && s.disk[c.path][j].Text?
                  && c.result.value == Decode(codec, s.disk[c.path][j].bytes)
  }

  /** The files never held any other contents than these. */
  ghost predicate HoldsOnly(ok: Bytes -> bool, s: State) {
    forall p, j | p in s.disk && 0 <= j < |s.disk[p]| && s.disk[p][j].Text? :: ok(s.disk[p][j].bytes)
  }

  ghost predicate AlwaysRightOver(codec: Codec, ok: Bytes -> bool) {
    forall ss: seq<State>, es: seq<Event>, n: nat, id: CallId
      | IsRun(codec, ss, es) && n < |ss| && HoldsOnly(ok, ss[n]) && CallOf(ss[n], id).Done? ::
      OnDisk(ss[n], CallOf(ss[n], id).path) && RightDuring(codec, ss[n], CallOf(ss[n], id))
  }

  /** The encodings are tried on separate opens.  A content that only an earlier open saw can rule
      an encoding out, and a later one then reads the next content. */
  ghost predicate NoMixture(codec: Codec, a: Bytes, b: Bytes, c: Bytes) {
    && (codec.utf8(a).None? && codec.cp1252(c).Some? ==>
          codec.cp1252(c).value in {Decode(codec, c), Decode(codec, a)})
    && (codec.utf8(a).None? && codec.cp1252(b).None? ==>
          codec.latin1(c) in {Decode(codec, c), Decode(codec, a), Decode(codec, b)})
  }

  ghost predicate NoMixtureOf(codec: Codec, ok: Bytes -> bool) {
    forall a, b, c | ok(a) && ok(b) && ok(c) :: NoMixture(codec, a, b, c)
  }

  lemma {:induction false} NoMixtureIsRight(codec: Codec, ok: Bytes -> bool, hist: History, i: nat, end: nat, lines: Lines) returns (j: nat)
    requires NoMixtureOf(codec, ok) && forall k | 0 <= k < |hist| && hist[k].Text? :: ok(hist[k].bytes)
    requires ReadSince(codec, hist, i, end, lines)
    ensures i <= j < end <= |hist| && hist[j].Text? && lines == Decode(codec, hist[j].bytes)
  {
    var k: nat, e: nat :| DecodingOf(codec, hist, i, end, k, e, lines);
    j := k;
    if e >= 1 {
      assert RefusedSince(codec, hist, i, end, 0);
      var k0 :| i <= k0 < end <= |hist| && hist[k0].Text? && TryDecode(codec, 0, hist[k0].bytes).None?;
      if e == 1 {
        assert NoMixture(codec, hist[k0].bytes, hist[k0].bytes, hist[k].bytes);
        if lines != Decode(codec, hist[k].bytes) { j := k0; }
      } else {
        assert RefusedSince(codec, hist, i, end, 1);
        var k1 :| i <= k1 < end <= |hist| && hist[k1].Text? && TryDecode(codec, 1, hist[k1].bytes).None?;
        assert NoMixture(codec, hist[k0].bytes, hist[k1].bytes, hist[k].bytes);
        if lines != Decode(codec, hist[k].bytes) { j := if lines == Decode(codec, hist[k0].bytes) then k0 else k1; }
      }
    }
  }

  /** One caller and one file, before anything is cached. */
  ghost function Alone(hist: History, c: Call): State { State(map["f" := hist], [], map[0 := c]) }

  ghost predicate LeadsTo(codec: Codec, s: State, e: Event, s': State) { Enabled(s, e) && Next(codec, s, e) == s' }

  lemma {:induction false} ReadStarts(codec: Codec, a: Bytes)
    ensures LeadsTo(codec, State(map["f" := [Text(0, a)]], [], map[]), Sample(0, "f"), Alone([Text(0, a)], Sampled("f", 0)))
    ensures LeadsTo(codec, Alone([Text(0, a)], Sampled("f", 0)), LockedLookup(0), Alone([Text(0, a)], Reading("f", 0, 0)))
  {
    var s := State(map["f" := [Text(0, a)]], [], map[]);
    assert s.calls[0 := Sampled("f", 0)] == map[0 := Sampled("f", 0)];
  }

  lemma {:induction false} EncodingRefuses(codec: Codec, hist: History, n: nat)
    requires |hist| > 0 && hist[0].Text? && hist[|hist| - 1].Text? && TryDecode(codec, n, hist[|hist| - 1].bytes).None?
    ensures LeadsTo(codec, Alone(hist, Reading("f", 0, n)), OpenAndDecode(0), Alone(hist, Reading("f", 0, n + 1)))
  {
    assert Alone(hist, Reading("f", 0, n)).calls[0 := Reading("f", 0, n + 1)] == map[0 := Reading("f", 0, n + 1)];
  }

  lemma {:induction false} FileChanges(codec: Codec, hist: History, v: Version, c: Call)
    requires Rising(hist + [v])
    ensures LeadsTo(codec, Alone(hist, c), Write("f", v), Alone(hist + [v], c))
  {
    assert Alone(hist, c).disk["f" := hist + [v]] == map["f" := hist + [v]];
  }

  lemma {:induction false} EncodingReads(codec: Codec, hist: History, n: nat, lines: Lines)
    requires |hist| > 0 && hist[0].Text? && hist[|hist| - 1].Text?
    requires TryDecode(codec, n, hist[|hist| - 1].bytes) == Some(lines)
    ensures LeadsTo(codec, Alone(hist, Reading("f", 0, n)), OpenAndDecode(0), Alone(hist, Decoded("f", 0, lines)))
  {
    assert Alone(hist, Reading("f", 0, n)).calls[0 := Decoded("f", 0, lines)] == map[0 := Decoded("f", 0, lines)];
  }

  ghost predicate EndsWith(codec: Codec, ss: seq<State>, es: seq<Event>, hist: History, lines: Lines) {
    && IsRun(codec, ss, es)
    && ss[|es|].disk == map["f" := hist]
    && CallOf(ss[|es|], 0) == Done("f", 0, |hist|, Some(lines), false)
  }

  lemma {:induction false} RunGrows(codec: Codec, ss: seq<State>, es: seq<Event>, e: Event, s: State)
    requires IsRun(codec, ss, es) && LeadsTo(codec, ss[|es|], e, s)
    ensures IsRun(codec, ss + [s], es + [e])
  {
    var ss', es' := ss + [s], es + [e];
    forall i | 0 <= i < |es'| ensures Enabled(ss'[i], es'[i]) && ss'[i + 1] == Next(codec, ss'[i], es'[i]) {
      if i < |es| { assert ss'[i] == ss[i] && ss'[i + 1] == ss[i + 1] && es'[i] == es[i]; }
    }
  }

  /** The run up to the second open, of a file that held `a` at the first one. */
  lemma {:induction false} FirstOpenRefused(codec: Codec, a: Bytes, b: Bytes) returns (ss: seq<State>, es: seq<Event>)
    requires codec.utf8(a).None?
    ensures IsRun(codec, ss, es) && ss[|es|] == Alone([Text(0, a), Text(1, b)], Reading("f", 0, 1))
  {
    var s0 := State(map["f" := [Text(0, a)]], [], map[]);
    ss, es := [s0], [];
    ReadStarts(codec, a);
    RunGrows(codec, ss, es, Sample(0, "f"), Alone([Text(0, a)], Sampled("f", 0)));
    ss, es := ss + [Alone([Text(0, a)], Sampled("f", 0))], es + [Sample(0, "f")];
    RunGrows(codec, ss, es, LockedLookup(0), Alone([Text(0, a)], Reading("f", 0, 0)));
    ss, es := ss + [Alone([Text(0, a)], Reading("f", 0, 0))], es + [LockedLookup(0)];
    EncodingRefuses(codec, [Text(0, a)], 0);
    RunGrows(codec, ss, es, OpenAndDecode(0), Alone([Text(0, a)], Reading("f", 0, 1)));
    ss, es := ss + [Alone([Text(0, a)], Reading("f", 0, 1))], es + [OpenAndDecode(0)];
    FileChanges(codec, [Text(0, a)], Text(1, b), Reading("f", 0, 1));
    assert [Text(0, a)] + [Text(1, b)] == [Text(0, a), Text(1, b)];
    RunGrows(codec, ss, es, Write("f", Text(1, b)), Alone([Text(0, a), Text(1, b)], Reading("f", 0, 1)));
    ss, es := ss + [Alone([Text(0, a), Text(1, b)], Reading("f", 0, 1))], es + [Write("f", Text(1, b))];
  }

  /** The read that succeeds and the insert that ends the call. */
  lemma {:induction false} LastOpenReads(codec: Codec, ss: seq<State>, es: seq<Event>, hist: History, n: nat, lines: Lines)
      returns (ss': seq<State>, es': seq<Event>)
    requires IsRun(codec, ss, es) && ss[|es|] == Alone(hist, Reading("f", 0, n))
    requires |hist| > 0 && hist[0].Text? && hist[|hist| - 1].Text?
    requires TryDecode(codec, n, hist[|hist| - 1].bytes) == Some(lines)
    ensures EndsWith(codec, ss', es', hist, lines)
  {
    EncodingReads(codec, hist, n, lines);
    var s := Alone(hist, Decoded("f", 0, lines));
    RunGrows(codec, ss, es, OpenAndDecode(0), s);
    ss', es' := ss + [s], es + [OpenAndDecode(0)];
    RunGrows(codec, ss', es', LockedInsert(0), Next(codec, s, LockedInsert(0)));
    ss', es' := ss' + [Next(codec, s, LockedInsert(0))], es' + [LockedInsert(0)];
  }

  lemma {:induction false} MixedByCp1252(codec: Codec, a: Bytes, c: Bytes) returns (ss: seq<State>, es: seq<Event>)
    requires codec.utf8(a).None? && codec.cp1252(c).Some?
    ensures EndsWith(codec, ss, es, [Text(0, a), Text(1, c)], codec.cp1252(c).value)
  {
    ss, es := FirstOpenRefused(codec, a, c);
    ss, es := LastOpenReads(codec, ss, es, [Text(0, a), Text(1, c)], 1, codec.cp1252(c).value);
  }

  lemma {:induction false} MixedByLatin1(codec: Codec, a: Bytes, b: Bytes, c: Bytes) returns (ss: seq<State>, es: seq<Event>)
    requires codec.utf8(a).None? && codec.cp1252(b).None?
    ensures EndsWith(codec, ss, es, [Text(0, a), Text(1, b), Text(2, c)], codec.latin1(c))
  {
    ss, es := FirstOpenRefused(codec, a, b);
    var two, three := [Text(0, a), Text(1, b)], [Text(0, a), Text(1, b), Text(2, c)];
    EncodingRefuses(codec, two, 1);
    RunGrows(codec, ss, es, OpenAndDecode(0), Alone(two, Reading("f", 0, 2)));
    ss, es := ss + [Alone(two, Reading("f", 0, 2))], es + [OpenAndDecode(0)];
    assert two + [Text(2, c)] == three;
    FileChanges(codec, two, Text(2, c), Reading("f", 0, 2));
    RunGrows(codec, ss, es, Write("f", Text(2, c)), Alone(three, Reading("f", 0, 2)));
    ss, es := ss + [Alone(three, Reading("f", 0, 2))], es + [Write("f", Text(2, c))];
    ss, es := LastOpenReads(codec, ss, es, three, 2, codec.latin1(c));
  }

  lemma {:induction false} RightWithoutMixtures(codec: Codec, ok: Bytes -> bool)
    requires NoMixtureOf(codec, ok)
    ensures AlwaysRightOver(codec, ok)
  {
    forall ss: seq<State>, es: seq<Event>, n: nat, id: CallId
      | IsRun(codec, ss, es) && n < |ss| && HoldsOnly(ok, ss[n]) && CallOf(ss[n], id).Done?
      ensures OnDisk(ss[n], CallOf(ss[n], id).path) && RightDuring(codec, ss[n], CallOf(ss[n], id))
    {
      ReadsAreLinearizable(codec, ss, es, n, id);
      var c := CallOf(ss[n], id);
      if c.result.Some? {
        var j := NoMixtureIsRight(codec, ok, ss[n].disk[c.path], c.start, c.end, c.result.value);
      }
    }
  }

  lemma {:induction false} WrongByCp1252(codec: Codec, ok: Bytes -> bool, a: Bytes, c: Bytes)
    requires ok(a) && ok(c) && AlwaysRightOver(codec, ok) && codec.utf8(a).None? && codec.cp1252(c).Some?
    ensures codec.cp1252(c).value in {Decode(codec, c), Decode(codec, a)}
  {
    var ss, es := MixedByCp1252(codec, a, c);
    assert HoldsOnly(ok, ss[|es|]);
    assert RightDuring(codec, ss[|es|], CallOf(ss[|es|], 0));
  }

  lemma {:induction false} WrongByLatin1(codec: Codec, ok: Bytes -> bool, a: Bytes, b: Bytes, c: Bytes)
    requires ok(a) && ok(b) && ok(c) && AlwaysRightOver(codec, ok) && codec.utf8(a).None? && codec.cp1252(b).None?
    ensures codec.latin1(c) in {Decode(codec, c), Decode(codec, a), Decode(codec, b)}
  {
    var ss, es := MixedByLatin1(codec, a, b, c);
    assert HoldsOnly(ok, ss[|es|]);
    assert RightDuring(codec, ss[|es|], CallOf(ss[|es|], 0));
  }

  /** While the files hold contents of one kind only, every call of every run returns the right
      decoding of a content of its time, exactly when no mixture of three of these contents gives
      lines of its own. */
  lemma {:induction false} RightExactlyWithoutMixtures(codec: Codec, ok: Bytes -> bool)
    ensures AlwaysRightOver(codec, ok) <==> NoMixtureOf(codec, ok)
  {
    if NoMixtureOf(codec, ok) { RightWithoutMixtures(codec, ok); }
    if AlwaysRightOver(codec, ok) {
      forall a, b, c | ok(a) && ok(b) && ok(c) ensures NoMixture(codec, a, b, c) {
        if codec.utf8(a).None? && codec.cp1252(c).Some? { WrongByCp1252(codec, ok, a, c); }
        if codec.utf8(a).None? && codec.cp1252(b).None? { WrongByLatin1(codec, ok, a, b, c); }
      }
    }
  }

  /** The encoding that decides a content. */
  function FirstEncoding(codec: Codec, b: Bytes): (e: nat)
    ensures e <= LAST_ENCODING && TryDecode(codec, e, b) == Some(Decode(codec, b))
    ensures forall d: nat | d < e :: TryDecode(codec, d, b).None?
  {
    if codec.utf8(b).Some? then 0 else if codec.cp1252(b).Some? then 1 else 2
  }

  /** Files whose contents all have one encoding, for example utf-8 throughout, are always read right. */
  lemma {:induction false} OneEncodingIsReadRight(codec: Codec, ok: Bytes -> bool, e: nat)
    requires forall b | ok(b) :: FirstEncoding(codec, b) == e
    ensures AlwaysRightOver(codec, ok)
  {
    RightExactlyWithoutMixtures(codec, ok);
    forall a, b, c | ok(a) && ok(b) && ok(c) ensures NoMixture(codec, a, b, c) {
      assert FirstEncoding(codec, a) == FirstEncoding(codec, b) == FirstEncoding(codec, c);
    }
  }

  // ---------------------------------------------------------------- the encodings of the program

  function PythonUtf8(b: Bytes): Option<Lines> { match Utf8(b) case None => None case Some(s) => Some(ReadLines(s)) }

  function PythonCp1252(b: Bytes): Option<Lines> { match Cp1252(b) case None => None case Some(s) => Some(ReadLines(s)) }

  function PythonLatin1(b: Bytes): Lines { ReadLines(Latin1(b)) }

  /** utf-8, cp1252 and latin1. */
  function Python(): Codec { Codec(PythonUtf8, PythonCp1252, PythonLatin1) }

  /** Files that are valid utf-8 throughout are always read right. */
  lemma {:induction false} Utf8FilesAreReadRight(ok: Bytes -> bool)
    requires forall b | ok(b) :: Utf8(b).Some?
    ensures AlwaysRightOver(Python(), ok)
  {
    OneEncodingIsReadRight(Python(), ok, 0);
  }

  lemma {:induction false} LinesOfTheTwo()
    ensures PythonUtf8(BYTE_FF) == None && Decode(Python(), BYTE_FF) == [[0xFF as char]]
    ensures Decode(Python(), E_ACUTE) == [[0xE9 as char]]
    ensures PythonCp1252(E_ACUTE) == Some([[0xC3 as char, 0xA9 as char]])
  {
    DecodingsOfFF();
    DecodingsOfAcute();
    OneLine([0xFF as char]);
    OneLine([0xE9 as char]);
    OneLine([0xC3 as char, 0xA9 as char]);
  }

  /** A file goes from the byte FF to the utf-8 of an e with an acute accent between two opens: the
      call returns two characters that no content of the file decodes to. */
  lemma {:induction false} ReadsTheWrongEncoding() returns (ss: seq<State>, es: seq<Event>)
    ensures IsRun(Python(), ss, es)
    ensures ss[|es|].disk == map["f" := [Text(0, BYTE_FF), Text(1, E_ACUTE)]]
    ensures CallOf(ss[|es|], 0) == Done("f", 0, 2, Some([[0xC3 as char, 0xA9 as char]]), false)
    ensures Decode(Python(), BYTE_FF) == [[0xFF as char]] && Decode(Python(), E_ACUTE) == [[0xE9 as char]]
    ensures !RightDuring(Python(), ss[|es|], CallOf(ss[|es|], 0))
  {
    LinesOfTheTwo();
    ss, es := MixedByCp1252(Python(), BYTE_FF, E_ACUTE);
    var hist := ss[|es|].disk["f"];
    forall j | 0 <= j < |hist| ensures hist[j].Text? && |Decode(Python(), hist[j].bytes)[0]| == 1 {}
  }

  // ---------------------------------------------------------------- one call on its own

  /** The call as it is written, on a file that stays as it is: a hit gives the stored lines, a miss
      the right decoding, which it stores, unless an open up to the one that would decode fails
      with an I/O error. */
  method ReadFileLines(shared: SharedCache, codec: Codec, path: Path, file: Version, openFails: nat -> bool) returns (r: Option<Lines>)
    modifies shared
    ensures file.Gone? ==> r.None? && shared.slots == old(shared.slots)
    ensures file.Text? && Find(old(shared.slots), Key(path, file.mtime)).Some? ==>
              r.Some? && Slot(Key(path, file.mtime), r.value) in old(shared.slots)
              && shared.slots == Touch(old(shared.slots), Key(path, file.mtime))
    ensures file.Text? && Find(old(shared.slots), Key(path, file.mtime)).None? ==>
              if exists e: nat :: e <= FirstEncoding(codec, file.bytes) && openFails(e)
              then r.None? && shared.slots == old(shared.slots)
              else r == Some(Decode(codec, file.bytes))
                   && shared.slots == Insert(old(shared.slots), Key(path, file.mtime), Decode(codec, file.bytes))
  {
    if file.Gone? { return None; }
    var key := Key(path, file.mtime);
    r := shared.Lookup(key);
    if r.Some? { return; }
    FindIsFirst(shared.slots, key);
    ghost var first := FirstEncoding(codec, file.bytes);
    var encoding: nat := 0;
    while r.None?
      invariant encoding <= first + 1 && (r.Some? <==> encoding == first + 1)
      invariant forall e: nat | e < encoding :: !openFails(e)
      invariant r.Some? ==> r.value == Decode(codec, file.bytes)
      invariant shared.slots == old(shared.slots)
      decreases first + 1 - encoding
    {
      if openFails(encoding) { return None; }
      r := TryDecode(codec, encoding, file.bytes);
      encoding := encoding + 1;
    }
    shared.Store(key, r.value);
  }
}
