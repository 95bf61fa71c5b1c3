/** The client of the shared cache: requests in chunks, each tried a few times over a network that
    can lose a request or its answer, while other clients write too. */
module CacheClient {
  import opened Collections
  import opened CacheServer

  type View = map<Hash, Analysis>

  // ---------------------------------------------------------------- what the store says, without its timestamps

  ghost function Analyses(s: Store): View {
    map h | h in s :: s[h].analysis
  }

  function PutView(v: View, entries: seq<Entry>): View
    decreases |entries|
  {
    if entries == [] then v
    else PutView(if entries[0].hash in v then v else v[entries[0].hash := entries[0].analysis], entries[1..])
  }

  /** The view is what the insert of the server does to the store. */
  lemma {:induction false} ServerInsertIsPut(s: Store, entries: seq<Entry>, now: int)
    ensures Analyses(Insert(s, entries, now)) == PutView(Analyses(s), entries)
    ensures |Analyses(s)| == |s|
    decreases |entries|
  {
    assert Analyses(s).Keys == s.Keys;
    if entries != [] {
      var e := entries[0];
      var s' := if e.hash in s then s else s[e.hash := Row(e.analysis, now)];
      ServerInsertIsPut(s', entries[1..], now);
      if e.hash !in s { assert Analyses(s') == Analyses(s)[e.hash := e.analysis]; }
    }
  }

  function OverwriteView(v: View, entries: seq<Entry>): View
    decreases |entries|
  {
    if entries == [] then v else OverwriteView(v[entries[0].hash := entries[0].analysis], entries[1..])
  }

  /** What another client or the administration does to the store: an insert, an overwriting write,
      a clear or a purge. */
  datatype Op = Insertion(entries: seq<Entry>) | Overwriting(entries: seq<Entry>) | Removal(hashes: set<Hash>)

  function Apply(v: View, op: Op): View {
    match op
    case Insertion(entries) => PutView(v, entries)
    case Overwriting(entries) => OverwriteView(v, entries)
    case Removal(hashes) => v - hashes
  }

  function ApplyAll(v: View, ops: seq<Op>): View
    decreases |ops|
  {
    if ops == [] then v else ApplyAll(Apply(v, ops[0]), ops[1..])
  }

  /** What an event of the server does to the store: a PUT that is served inserts or overwrites its
      first 1000 entries, a clear and a purge remove what they hit, and nothing else touches it. */
  function OpsOf(db: Db, e: Event): seq<Op> {
    var gone := db.store.Keys - Step(db, e).store.Keys;
    match e
    case Http(token, BatchPut(entries, overwrite), now) =>
      if !Serve(db, token, e.request, now).1.Inserted? then []
      else [if overwrite then Overwriting(Capped(entries, BATCH_CAP)) else Insertion(Capped(entries, BATCH_CAP))]
    case Http(token, CacheClear(_), now) => if Serve(db, token, e.request, now).1.Deleted? then [Removal(gone)] else []
    case Purge(_, _) => [Removal(gone)]
    case _ => []
  }

  /** The store after an event is the one that these operations make. */
  lemma {:induction false} ServerStepIsOp(db: Db, e: Event)
    ensures Analyses(Step(db, e).store) == ApplyAll(Analyses(db.store), OpsOf(db, e))
  {
    if e.Http? && e.request.BatchPut? {
      PutIsOp(db, e);
    } else if OpsOf(db, e) != [] {
      OtherStepsRemove(db, e);
      OneOp(Analyses(db.store), Removal(db.store.Keys - Step(db, e).store.Keys));
    }
  }

  lemma {:induction false} PutIsOp(db: Db, e: Event)
    requires e.Http? && e.request.BatchPut?
    ensures Analyses(Step(db, e).store) == ApplyAll(Analyses(db.store), OpsOf(db, e))
  {
    if OpsOf(db, e) != [] {
      var entries := Capped(e.request.entries, BATCH_CAP);
      ServerUpsertIsOverwrite(db.store, entries, e.now);
      ServerInsertIsPut(db.store, entries, e.now);
      OneOp(Analyses(db.store), OpsOf(db, e)[0]);
    }
  }

  lemma {:induction false} OtherStepsRemove(db: Db, e: Event)
    requires !(e.Http? && e.request.BatchPut?)
    ensures var after := Step(db, e).store; Analyses(after) == Analyses(db.store) - (db.store.Keys - after.Keys)
  {
  }

  /** An event that may neither overwrite nor remove the row of a hash spares it, and one that is no
      overwriting PUT, no clear and no purge only inserts. */
  lemma {:induction false} OthersSpare(db: Db, e: Event, h: Hash)
    ensures !MayOverwrite(db, e, h) && !MayRemove(db, e, h) ==> Spares(OpsOf(db, e), h)
    ensures e.Http? && e.request.BatchPut? && !e.request.overwrite ==> forall i | 0 <= i < |OpsOf(db, e)| :: OpsOf(db, e)[i].Insertion?
  {
    if !MayOverwrite(db, e, h) && !MayRemove(db, e, h) { RowChanges(db, e, h); }
  }

  lemma {:induction false} OneOp(v: View, op: Op)
    ensures ApplyAll(v, [op]) == Apply(v, op)
  {
    assert [op][1..] == [];
  }

  lemma {:induction false} ServerUpsertIsOverwrite(s: Store, entries: seq<Entry>, now: int)
    ensures Analyses(Upsert(s, entries, now)) == OverwriteView(Analyses(s), entries)
    decreases |entries|
  {
    if entries != [] {
      var s' := s[entries[0].hash := Row(entries[0].analysis, now)];
      ServerUpsertIsOverwrite(s', entries[1..], now);
      assert Analyses(s') == Analyses(s)[entries[0].hash := entries[0].analysis];
    }
  }

  lemma {:induction false} PutConcat(v: View, a: seq<Entry>, b: seq<Entry>)
    ensures PutView(PutView(v, a), b) == PutView(v, a + b)
    decreases |a|
  {
    if a == [] { assert a + b == b; }
    else {
      assert (a + b)[1..] == a[1..] + b;
      PutConcat(if a[0].hash in v then v else v[a[0].hash := a[0].analysis], a[1..], b);
    }
  }

  lemma {:induction false} PutGrows(v: View, a: seq<Entry>)
    ensures v.Keys <= PutView(v, a).Keys && |v| <= |PutView(v, a)|
    ensures HashSet(a) <= PutView(v, a).Keys
    decreases |a|
  {
    if a != [] {
      PutGrows(if a[0].hash in v then v else v[a[0].hash := a[0].analysis], a[1..]);
      assert a == [a[0]] + a[1..];
    }
  }

  lemma {:induction false} PutPresent(v: View, a: seq<Entry>)
    requires HashSet(a) <= v.Keys
    ensures PutView(v, a) == v
    decreases |a|
  {
    if a != [] {
      assert a == [a[0]] + a[1..];
      assert a[0].hash in HashSet(a) && HashSet(a[1..]) <= HashSet(a);
      PutPresent(v, a[1..]);
    }
  }

  // ---------------------------------------------------------------- one call and its retries

  datatype Reply = Status(code: nat) | NetworkError

  /** One attempt: what others do to the store before it arrives, whether the server does its work,
      and what the client sees. */
  datatype Attempt = Attempt(others: seq<Op>, applied: bool, reply: Reply)

  const MAX_RETRIES: nat := 3
  const OK: nat := 200
  const NON_RETRYABLE := {400, 401, 403, 404, 413, 422}

  predicate Terminal(r: Reply) { r.Status? && (r.code == OK || r.code in NON_RETRYABLE) }

  /** An answer 200 means that the work was done, and a refusal means that it was not; every other
      answer, and a lost one, leaves it open. */
  ghost predicate Honest(a: Attempt) {
    && (a.reply == Status(OK) ==> a.applied)
    && (a.reply.Status? && a.reply.code in NON_RETRYABLE ==> !a.applied)
  }

  ghost predicate HonestTries(tries: seq<Attempt>) {
    |tries| == MAX_RETRIES && forall i | 0 <= i < |tries| :: Honest(tries[i])
  }

  /** The attempts that the client makes. */
  function Made(tries: seq<Attempt>): (r: seq<Attempt>)
    ensures r <= tries
    decreases |tries|
  {
    if tries == [] then []
    else if Terminal(tries[0].reply) then [tries[0]] else [tries[0]] + Made(tries[1..])
  }

  predicate Acknowledged(tries: seq<Attempt>)
    decreases |tries|
  {
    tries != [] && (if Terminal(tries[0].reply) then tries[0].reply == Status(OK) else Acknowledged(tries[1..]))
  }

  /** The call ended with a refusal of the token. */
  predicate AuthRefused(tries: seq<Attempt>)
    decreases |tries|
  {
    tries != [] && (if Terminal(tries[0].reply) then tries[0].reply.code == 401 || tries[0].reply.code == 403
                    else AuthRefused(tries[1..]))
  }

  ghost predicate AnyRefused(n: nat, net: seq<seq<Attempt>>)
    requires n <= |net|
  {
    exists i :: 0 <= i < n && AuthRefused(net[i])
  }

  lemma {:induction false} RefusedStep(n: nat, net: seq<seq<Attempt>>)
    requires n < |net|
    ensures AnyRefused(n + 1, net) <==> AnyRefused(n, net) || AuthRefused(net[n])
  {
  }

  ghost function AfterOne(v: View, chunk: seq<Entry>, a: Attempt): View {
    PutView(ApplyAll(v, a.others), if a.applied then chunk else [])
  }

  ghost function AfterAll(v: View, chunk: seq<Entry>, made: seq<Attempt>): View
    decreases |made|
  {
    if made == [] then v else AfterAll(AfterOne(v, chunk, made[0]), chunk, made[1..])
  }

  /** The rows that the attempts add: reported ones, ones whose report was lost, and the ones that
      others added less the ones that they removed. */
  datatype Tally = Tally(reported: nat, lost: nat, others: int)

  function Sum(a: Tally, b: Tally): Tally { Tally(a.reported + b.reported, a.lost + b.lost, a.others + b.others) }

  function TallyOne(v: View, chunk: seq<Entry>, a: Attempt): Tally {
    var before := ApplyAll(v, a.others);
    PutGrows(before, chunk);
    var grown := if a.applied then |PutView(before, chunk)| - |before| else 0;
    Tally(if a.reply == Status(OK) then grown else 0, if a.reply == Status(OK) then 0 else grown, |before| - |v|)
  }

  ghost function TallyAll(v: View, chunk: seq<Entry>, made: seq<Attempt>): Tally
    decreases |made|
  {
    if made == [] then Tally(0, 0, 0)
    else Sum(TallyOne(v, chunk, made[0]), TallyAll(AfterOne(v, chunk, made[0]), chunk, made[1..]))
  }

  /** Every row of the growth of the store is counted once. */
  lemma {:induction false} GrowthIsTallied(v: View, chunk: seq<Entry>, made: seq<Attempt>)
    ensures
      var t := TallyAll(v, chunk, made);
      |AfterAll(v, chunk, made)| == |v| + t.reported + t.lost + t.others
    decreases |made|
  {
    if made != [] {
      var a := made[0];
      GrowthIsTallied(AfterOne(v, chunk, a), chunk, made[1..]);
      PutGrows(ApplyAll(v, a.others), chunk);
    }
  }

  /** The server as the client meets it. */
  class Remote {
    var view: View

    constructor (view: View)
      ensures this.view == view
    {
      this.view := view;
    }

    /** The server caps a batch. */
    method Receive(chunk: seq<Entry>, a: Attempt) returns (inserted: nat)
      modifies this
      ensures view == AfterOne(old(view), Capped(chunk, BATCH_CAP), a)
      ensures a.reply == Status(OK) ==> inserted == TallyOne(old(view), Capped(chunk, BATCH_CAP), a).reported
    {
      view := ApplyAll(view, a.others);
      inserted := 0;
      if a.applied {
        PutGrows(view, Capped(chunk, BATCH_CAP));
        inserted := |PutView(view, Capped(chunk, BATCH_CAP))| - |view|;
        view := PutView(view, Capped(chunk, BATCH_CAP));
      }
    }
  }

  /** One try: the last one, or the first of the rest. */
  lemma {:induction false} TryStep(v: View, capped: seq<Entry>, tries: seq<Attempt>, n: nat)
    requires n < |tries|
    ensures Terminal(tries[n].reply) ==>
              && AfterAll(v, capped, Made(tries[n..])) == AfterOne(v, capped, tries[n])
              && TallyAll(v, capped, Made(tries[n..])).reported == TallyOne(v, capped, tries[n]).reported
              && Acknowledged(tries[n..]) == (tries[n].reply == Status(OK))
              && AuthRefused(tries[n..]) == (tries[n].reply.code == 401 || tries[n].reply.code == 403)
    ensures !Terminal(tries[n].reply) ==>
              && AfterAll(v, capped, Made(tries[n..])) == AfterAll(AfterOne(v, capped, tries[n]), capped, Made(tries[n + 1..]))
              && TallyAll(v, capped, Made(tries[n..])).reported == TallyAll(AfterOne(v, capped, tries[n]), capped, Made(tries[n + 1..])).reported
              && Acknowledged(tries[n..]) == Acknowledged(tries[n + 1..]) && AuthRefused(tries[n..]) == AuthRefused(tries[n + 1..])
  {
    var rest := tries[n..];
    assert rest[0] == tries[n] && rest[1..] == tries[n + 1..];
    var made := Made(rest);
    assert made[0] == tries[n] && made[1..] == if Terminal(tries[n].reply) then [] else Made(rest[1..]);
  }

  lemma {:induction false} NoTryLeft(v: View, capped: seq<Entry>, tries: seq<Attempt>)
    ensures AfterAll(v, capped, Made(tries[|tries|..])) == v
    ensures TallyAll(v, capped, Made(tries[|tries|..])).reported == 0
    ensures !Acknowledged(tries[|tries|..]) && !AuthRefused(tries[|tries|..])
  {
  }

  /** `_retry_http_call`: `inserted` is the answer of the server when `ok`. */
  method RetryHttpCall(remote: Remote, chunk: seq<Entry>, tries: seq<Attempt>) returns (ok: bool, authFailed: bool, inserted: nat)
    requires HonestTries(tries)
    modifies remote
    ensures remote.view == AfterAll(old(remote.view), Capped(chunk, BATCH_CAP), Made(tries))
    ensures ok == Acknowledged(tries)
    ensures inserted == TallyAll(old(remote.view), Capped(chunk, BATCH_CAP), Made(tries)).reported
    ensures authFailed == AuthRefused(tries)
  {
    ghost var capped := Capped(chunk, BATCH_CAP);
    ghost var view', reported := AfterAll(remote.view, capped, Made(tries)), TallyAll(remote.view, capped, Made(tries)).reported;
    ok, authFailed, inserted := false, false, 0;
    assert tries[0..] == tries;
    for attempt := 0 to MAX_RETRIES
      invariant inserted == 0 && !ok && !authFailed
      invariant Acknowledged(tries[attempt..]) == Acknowledged(tries) && AuthRefused(tries[attempt..]) == AuthRefused(tries)
      invariant AfterAll(remote.view, capped, Made(tries[attempt..])) == view'
      invariant TallyAll(remote.view, capped, Made(tries[attempt..])).reported == reported
    {
      TryStep(remote.view, capped, tries, attempt);
      var reply := tries[attempt].reply;
      var answer := remote.Receive(chunk, tries[attempt]);
      if reply == Status(OK) { return true, false, answer; }
      if Terminal(reply) { return false, reply.code == 401 || reply.code == 403, 0; }
      // wait, then try again
    }
    NoTryLeft(remote.view, capped, tries);
  }

  // ---------------------------------------------------------------- chunks

  function Chunks<T>(xs: seq<T>, size: nat): (r: seq<seq<T>>)
    requires size > 0
    decreases |xs|
  {
    if xs == [] then [] else if |xs| <= size then [xs] else [xs[..size]] + Chunks(xs[size..], size)
  }

  function Flatten<T>(xss: seq<seq<T>>): seq<T>
    decreases |xss|
  {
    if xss == [] then [] else xss[0] + Flatten(xss[1..])
  }

  lemma {:induction false} ChunksAreAll<T>(xs: seq<T>, size: nat)
    requires size > 0
    ensures Flatten(Chunks(xs, size)) == xs
    ensures forall c | c in Chunks(xs, size) :: 0 < |c| <= size
    decreases |xs|
  {
    if xs != [] {
      if |xs| <= size {
        assert [xs][1..] == [];
      } else {
        ChunksAreAll(xs[size..], size);
        assert ([xs[..size]] + Chunks(xs[size..], size))[1..] == Chunks(xs[size..], size);
      }
    }
  }

  ghost function AfterChunks(v: View, chunks: seq<seq<Entry>>, net: seq<seq<Attempt>>): View
    requires |net| >= |chunks|
    decreases |chunks|
  {
    if chunks == [] then v
    else AfterChunks(AfterAll(v, Capped(chunks[0], BATCH_CAP), Made(net[0])), chunks[1..], net[1..])
  }

  ghost function TallyChunks(v: View, chunks: seq<seq<Entry>>, net: seq<seq<Attempt>>): Tally
    requires |net| >= |chunks|
    decreases |chunks|
  {
    if chunks == [] then Tally(0, 0, 0)
    else
      var capped := Capped(chunks[0], BATCH_CAP);
      Sum(TallyAll(v, capped, Made(net[0])), TallyChunks(AfterAll(v, capped, Made(net[0])), chunks[1..], net[1..]))
  }

  lemma {:induction false} ChunkStep(v: View, rest: seq<seq<Entry>>, net: seq<seq<Attempt>>, n: nat)
    requires rest != [] && n < |net| && |rest| <= |net| - n
    ensures
      var capped, made := Capped(rest[0], BATCH_CAP), Made(net[n]);
      && AfterChunks(v, rest, net[n..]) == AfterChunks(AfterAll(v, capped, made), rest[1..], net[n + 1..])
      && TallyChunks(v, rest, net[n..]).reported ==
         TallyAll(v, capped, made).reported + TallyChunks(AfterAll(v, capped, made), rest[1..], net[n + 1..]).reported
  {
    assert net[n..][0] == net[n] && net[n..][1..] == net[n + 1..];
  }

  lemma {:induction false} ChunkGrowthIsTallied(v: View, chunks: seq<seq<Entry>>, net: seq<seq<Attempt>>)
    requires |net| >= |chunks|
    ensures
      var t := TallyChunks(v, chunks, net);
      |AfterChunks(v, chunks, net)| == |v| + t.reported + t.lost + t.others
    decreases |chunks|
  {
    if chunks != [] {
      var capped := Capped(chunks[0], BATCH_CAP);
      GrowthIsTallied(v, capped, Made(net[0]));
      ChunkGrowthIsTallied(AfterAll(v, capped, Made(net[0])), chunks[1..], net[1..]);
    }
  }

  class Client {
    const batchSize: int
    var canWrite: Option<bool>

    constructor (batchSize: int)
      ensures this.batchSize == batchSize && canWrite == None
    {
      this.batchSize := batchSize;
      canWrite := None;
    }

    /** `stats`: what the one request for the permissions answers, None when it fails. */
    method EnsureCapabilities(stats: Option<bool>)
      modifies this`canWrite
      ensures canWrite == if old(canWrite).None? then stats else old(canWrite)
    {
      if canWrite.None? { canWrite := stats; }
    }

    /** `net` says how each chunk travels.  None stands for the ValueError of a step of 0. */
    method BatchPut(remote: Remote, entries: seq<Entry>, stats: Option<bool>, net: seq<seq<Attempt>>) returns (r: Option<nat>)
      requires |net| >= |entries| && forall i | 0 <= i < |net| :: HonestTries(net[i])
      modifies this`canWrite, remote
      ensures
        var allowed := if entries == [] || old(canWrite).Some? then old(canWrite) else stats;
        if entries == [] || allowed == Some(false) || batchSize < 0 then r == Some(0) && remote.view == old(remote.view) && canWrite == allowed
        else if batchSize == 0 then r == None && remote.view == old(remote.view) && canWrite == allowed
        else
          var chunks := Chunks(entries, batchSize);
          && |chunks| <= |entries|
          && remote.view == AfterChunks(old(remote.view), chunks, net)
          && r == Some(TallyChunks(old(remote.view), chunks, net).reported)
          && canWrite == if AnyRefused(|chunks|, net) then Some(false) else allowed
    {
      if entries == [] { return Some(0); }
      EnsureCapabilities(stats);
      if canWrite == Some(false) { return Some(0); }
      if batchSize == 0 { return None; }
      if batchSize < 0 { return Some(0); }
      var total := PutChunks(remote, entries, batchSize, net);
      r := Some(total);
    }

    method PutChunks(remote: Remote, entries: seq<Entry>, size: nat, net: seq<seq<Attempt>>) returns (total: nat)
      requires size > 0 && |net| >= |entries| && forall i | 0 <= i < |net| :: HonestTries(net[i])
      modifies this`canWrite, remote
      ensures |Chunks(entries, size)| <= |entries|
      ensures remote.view == AfterChunks(old(remote.view), Chunks(entries, size), net)
      ensures total == TallyChunks(old(remote.view), Chunks(entries, size), net).reported
      ensures canWrite == if AnyRefused(|Chunks(entries, size)|, net) then Some(false) else old(canWrite)
    {
      ChunkCount(entries, size);
      total := 0;
      var start, n := 0, 0;
      ghost var rest := Chunks(entries, size);
      assert entries[0..] == entries && net[0..] == net;
      while start < |entries|
        invariant 0 <= start <= |entries| && n <= |net|
        invariant rest == Chunks(entries[start..], size) && n + |rest| == |Chunks(entries, size)|
        invariant canWrite == if AnyRefused(n, net) then Some(false) else old(canWrite)
        invariant AfterChunks(remote.view, rest, net[n..]) == AfterChunks(old(remote.view), Chunks(entries, size), net)
        invariant total + TallyChunks(remote.view, rest, net[n..]).reported ==
                  TallyChunks(old(remote.view), Chunks(entries, size), net).reported
        decreases |entries| - start
      {
        var end := Least(start + size, |entries|);
        FirstChunk(entries, start, size);
        ChunkStep(remote.view, rest, net, n);
        var ok, authFailed, inserted := RetryHttpCall(remote, entries[start..end], net[n]);
        if authFailed { canWrite := Some(false); }
        total := total + inserted;
        RefusedStep(n, net);
        start, n, rest := end, n + 1, rest[1..];
      }
    }
  }

  function Least(a: int, b: int): int { if a <= b then a else b }

  lemma {:induction false} ChunkCount<T>(xs: seq<T>, size: nat)
    requires size > 0
    ensures |Chunks(xs, size)| <= |xs|
    decreases |xs|
  {
    if |xs| > size { ChunkCount(xs[size..], size); }
  }

  /** The slice that the loop takes is the first chunk of what is left. */
  lemma {:induction false} FirstChunk<T>(xs: seq<T>, start: nat, size: nat)
    requires start < |xs| && size > 0
    ensures
      var rest := Chunks(xs[start..], size);
      && rest != [] && rest[0] == xs[start..Least(start + size, |xs|)]
      && rest[1..] == Chunks(xs[Least(start + size, |xs|)..], size)
  {
    if |xs| - start <= size {
      assert xs[start..|xs|] == xs[start..] && xs[|xs|..] == [];
    } else {
      assert xs[start..][..size] == xs[start..start + size];
      assert xs[start..][size..] == xs[start + size..];
    }
  }

  // ---------------------------------------------------------------- delivery and the store

  ghost predicate NoOthers(tries: seq<Attempt>) {
    forall i | 0 <= i < |tries| :: tries[i].others == []
  }

  /** The server did the work of the call at least once. */
  ghost predicate Delivered(made: seq<Attempt>) {
    exists i | 0 <= i < |made| :: made[i].applied
  }

  /** However often a call was applied, it leaves the store as one write of its entries. */
  lemma {:induction false} RetriesAreOneWrite(v: View, chunk: seq<Entry>, made: seq<Attempt>)
    requires NoOthers(made)
    ensures AfterAll(v, chunk, made) == PutView(v, if Delivered(made) then chunk else [])
    decreases |made|
  {
    if made != [] {
      var a, rest := made[0], made[1..];
      assert forall i | 0 <= i < |rest| :: rest[i] == made[i + 1];
      RetriesAreOneWrite(AfterOne(v, chunk, a), chunk, rest);
      assert a.others == [];
      if Delivered(made) && !a.applied {
        var i :| 0 <= i < |made| && made[i].applied;
        assert rest[i - 1].applied;
      }
      if Delivered(rest) {
        var i :| 0 <= i < |rest| && rest[i].applied;
        assert made[i + 1].applied;
      }
      if a.applied {
        PutGrows(v, chunk);
        PutPresent(PutView(v, chunk), chunk);
      }
    }
  }

  ghost function DeliveredEntries(chunks: seq<seq<Entry>>, net: seq<seq<Attempt>>): seq<Entry>
    requires |net| >= |chunks|
    decreases |chunks|
  {
    if chunks == [] then []
    else (if Delivered(Made(net[0])) then Capped(chunks[0], BATCH_CAP) else []) + DeliveredEntries(chunks[1..], net[1..])
  }

  /** Chunks and retries are transparent: with no other writer, the store is what one write of the
      delivered chunks makes it. */
  lemma {:induction false} ChunkedPutIsOneWrite(v: View, chunks: seq<seq<Entry>>, net: seq<seq<Attempt>>)
    requires |net| >= |chunks| && forall i | 0 <= i < |chunks| :: NoOthers(net[i])
    ensures AfterChunks(v, chunks, net) == PutView(v, DeliveredEntries(chunks, net))
    decreases |chunks|
  {
    if chunks != [] {
      var capped := Capped(chunks[0], BATCH_CAP);
      var one := if Delivered(Made(net[0])) then capped else [];
      assert NoOthers(Made(net[0])) by { assert forall i | 0 <= i < |Made(net[0])| :: Made(net[0])[i] == net[0][i]; }
      RetriesAreOneWrite(v, capped, Made(net[0]));
      ChunkedPutIsOneWrite(PutView(v, one), chunks[1..], net[1..]);
      PutConcat(v, one, DeliveredEntries(chunks[1..], net[1..]));
    }
  }

  /** The chunk reached the store as a whole. */
  ghost predicate Arrived(chunk: seq<Entry>, tries: seq<Attempt>) {
    chunk == [] || (Delivered(Made(tries)) && |chunk| <= BATCH_CAP)
  }

  lemma {:induction false} DeliveredIsShorter(chunks: seq<seq<Entry>>, net: seq<seq<Attempt>>)
    requires |net| >= |chunks|
    ensures |DeliveredEntries(chunks, net)| <= |Flatten(chunks)|
    decreases |chunks|
  {
    if chunks != [] { DeliveredIsShorter(chunks[1..], net[1..]); }
  }

  /** The delivered entries are all entries exactly when every chunk arrives and none is over the cap
      of the server. */
  lemma {:induction false} EverythingDelivered(chunks: seq<seq<Entry>>, net: seq<seq<Attempt>>)
    requires |net| >= |chunks|
    ensures DeliveredEntries(chunks, net) == Flatten(chunks) <==> forall i | 0 <= i < |chunks| :: Arrived(chunks[i], net[i])
    decreases |chunks|
  {
    if chunks != [] {
      EverythingDelivered(chunks[1..], net[1..]);
      DeliveredIsShorter(chunks[1..], net[1..]);
      forall i | 0 < i < |chunks| ensures Arrived(chunks[i], net[i]) <==> Arrived(chunks[1..][i - 1], net[1..][i - 1]) {}
      var one := if Delivered(Made(net[0])) then Capped(chunks[0], BATCH_CAP) else [];
      assert Arrived(chunks[0], net[0]) <==> |one| == |chunks[0]|;
      assert Arrived(chunks[0], net[0]) ==> one == chunks[0];
      SplitsAlike(one, DeliveredEntries(chunks[1..], net[1..]), chunks[0], Flatten(chunks[1..]));
    }
  }

  lemma {:induction false} SplitsAlike<T>(a: seq<T>, b: seq<T>, c: seq<T>, d: seq<T>)
    requires |a| <= |c| && |b| <= |d|
    ensures a + b == c + d <==> a == c && b == d
  {
    if a + b == c + d {
      assert |a| == |c| && |b| == |d|;
      assert (a + b)[..|a|] == a && (c + d)[..|c|] == c && (a + b)[|a|..] == b && (c + d)[|c|..] == d;
    }
  }

  ghost predicate OnlyInsertions(tries: seq<Attempt>) {
    forall i, j | 0 <= i < |tries| && 0 <= j < |tries[i].others| :: tries[i].others[j].Insertion?
  }

  lemma {:induction false} InsertionsGrow(v: View, ops: seq<Op>)
    requires forall j | 0 <= j < |ops| :: ops[j].Insertion?
    ensures |ApplyAll(v, ops)| >= |v|
    decreases |ops|
  {
    if ops != [] {
      PutGrows(v, ops[0].entries);
      assert forall j | 0 <= j < |ops| - 1 :: ops[1..][j] == ops[j + 1];
      InsertionsGrow(Apply(v, ops[0]), ops[1..]);
    }
  }

  lemma {:induction false} OthersAdd(v: View, chunk: seq<Entry>, made: seq<Attempt>)
    requires OnlyInsertions(made)
    ensures TallyAll(v, chunk, made).others >= 0
    decreases |made|
  {
    if made != [] {
      InsertionsGrow(v, made[0].others);
      assert forall i | 0 <= i < |made| - 1 :: made[1..][i] == made[i + 1];
      OthersAdd(AfterOne(v, chunk, made[0]), chunk, made[1..]);
    }
  }

  lemma {:induction false} OthersAddInChunks(v: View, chunks: seq<seq<Entry>>, net: seq<seq<Attempt>>)
    requires |net| >= |chunks| && forall i | 0 <= i < |chunks| :: OnlyInsertions(net[i])
    ensures TallyChunks(v, chunks, net).others >= 0
    decreases |chunks|
  {
    if chunks != [] {
      var capped, made := Capped(chunks[0], BATCH_CAP), Made(net[0]);
      assert OnlyInsertions(made) by { assert forall i | 0 <= i < |made| :: made[i] == net[0][i]; }
      OthersAdd(v, capped, made);
      assert forall i | 0 <= i < |chunks| - 1 :: net[1..][i] == net[i + 1];
      OthersAddInChunks(AfterAll(v, capped, made), chunks[1..], net[1..]);
    }
  }

  /** The growth of the store is the report, the rows whose answer was lost and the rows of others.
      While others only insert, the report never exceeds the growth, and equals it exactly when
      there is nothing of the other two. */
  lemma {:induction false} ReportAndGrowth(v: View, entries: seq<Entry>, size: nat, net: seq<seq<Attempt>>)
    requires size > 0 && |net| >= |entries|
    ensures |Chunks(entries, size)| <= |net|
    ensures
      var chunks := Chunks(entries, size);
      var t := TallyChunks(v, chunks, net);
      var growth := |AfterChunks(v, chunks, net)| - |v|;
      && growth == t.reported + t.lost + t.others
      && ((forall i | 0 <= i < |chunks| :: OnlyInsertions(net[i])) ==>
            t.reported <= growth && (t.reported == growth <==> t.lost == 0 && t.others == 0))
  {
    ChunkCount(entries, size);
    var chunks := Chunks(entries, size);
    ChunkGrowthIsTallied(v, chunks, net);
    if forall i | 0 <= i < |chunks| :: OnlyInsertions(net[i]) { OthersAddInChunks(v, chunks, net); }
  }

  /** The server did the work only where the client got the answer. */
  ghost predicate NoAnswerLost(tries: seq<Attempt>) {
    forall i | 0 <= i < |tries| && tries[i].applied :: tries[i].reply == Status(OK)
  }

  lemma {:induction false} NothingLostInOne(v: View, chunk: seq<Entry>, a: Attempt)
    requires a.others == [] && (a.applied ==> a.reply == Status(OK))
    ensures TallyOne(v, chunk, a).lost == 0 && TallyOne(v, chunk, a).others == 0
  {
  }

  lemma {:induction false} RestLosesNothing(made: seq<Attempt>)
    requires made != [] && NoOthers(made) && NoAnswerLost(made)
    ensures made[0].others == [] && (made[0].applied ==> made[0].reply == Status(OK))
    ensures NoOthers(made[1..]) && NoAnswerLost(made[1..])
  {
    assert forall i | 0 <= i < |made[1..]| :: made[1..][i] == made[i + 1];
  }

  /** With every answer received and no other writer, one call loses nothing. */
  lemma {:induction false} NothingLost(v: View, chunk: seq<Entry>, made: seq<Attempt>)
    requires NoOthers(made) && NoAnswerLost(made)
    ensures TallyAll(v, chunk, made).lost == 0 && TallyAll(v, chunk, made).others == 0
    decreases |made|
  {
    if made != [] {
      RestLosesNothing(made);
      NothingLostInOne(v, chunk, made[0]);
      NothingLost(AfterOne(v, chunk, made[0]), chunk, made[1..]);
    }
  }

  lemma {:induction false} NothingLostInChunks(v: View, chunks: seq<seq<Entry>>, net: seq<seq<Attempt>>)
    requires |net| >= |chunks|
    requires forall i | 0 <= i < |chunks| :: NoOthers(net[i]) && NoAnswerLost(net[i])
    ensures TallyChunks(v, chunks, net).lost == 0 && TallyChunks(v, chunks, net).others == 0
    decreases |chunks|
  {
    if chunks != [] {
      var capped, made := Capped(chunks[0], BATCH_CAP), Made(net[0]);
      assert NoOthers(net[0]) && NoAnswerLost(net[0]);
      assert NoOthers(made) && NoAnswerLost(made) by { assert forall i | 0 <= i < |made| :: made[i] == net[0][i]; }
      NothingLost(v, capped, made);
      assert forall i | 0 <= i < |chunks| - 1 :: net[1..][i] == net[i + 1];
      NothingLostInChunks(AfterAll(v, capped, made), chunks[1..], net[1..]);
    }
  }

  /** The report of a chunked write is the growth of the store when no answer is lost and nobody else
      touches the store. */
  lemma {:induction false} ReportIsGrowth(v: View, entries: seq<Entry>, size: nat, net: seq<seq<Attempt>>)
    requires size > 0 && |net| >= |entries|
    requires forall i | 0 <= i < |net| :: NoOthers(net[i]) && NoAnswerLost(net[i])
    ensures |Chunks(entries, size)| <= |net|
    ensures
      var chunks := Chunks(entries, size);
      TallyChunks(v, chunks, net).reported == |AfterChunks(v, chunks, net)| - |v|
  {
    ReportAndGrowth(v, entries, size, net);
    NothingLostInChunks(v, Chunks(entries, size), net);
  }

  // ---------------------------------------------------------------- lookups

  /** The hashes of a chunk that the client gets an answer for: the server cuts off the ones over
      its cap, and the client itself answers for a chunk that failed. */
  function Shown(hashes: seq<Hash>, tries: seq<Attempt>): seq<Hash> {
    if Acknowledged(tries) then Capped(hashes, BATCH_CAP) else hashes
  }

  function ResultOfChunk(v: View, hashes: seq<Hash>, tries: seq<Attempt>): map<Hash, Option<Analysis>> {
    AnswerOfChunk(v, hashes, Acknowledged(tries))
  }

  /** The store after a lookup call: what other clients wrote during it.  The answer that ends the
      call shows this store. */
  ghost function ReadView(v: View, tries: seq<Attempt>): View { AfterAll(v, Capped([], BATCH_CAP), Made(tries)) }

  /** The store after the first `n` lookup calls. */
  ghost function ViewAt(v: View, net: seq<seq<Attempt>>, n: nat): View
    requires n <= |net|
    decreases n
  {
    if n == 0 then v else ViewAt(ReadView(v, net[0]), net[1..], n - 1)
  }

  ghost function ResultsOf(v: View, chunks: seq<seq<Hash>>, net: seq<seq<Attempt>>): map<Hash, Option<Analysis>>
    requires |net| >= |chunks|
    decreases |chunks|
  {
    if chunks == [] then map[]
    else ResultOfChunk(ReadView(v, net[0]), chunks[0], net[0]) + ResultsOf(ReadView(v, net[0]), chunks[1..], net[1..])
  }

  method BatchGetChunk(remote: Remote, hashes: seq<Hash>, tries: seq<Attempt>) returns (r: map<Hash, Option<Analysis>>)
    requires HonestTries(tries)
    modifies remote
    ensures remote.view == ReadView(old(remote.view), tries)
    ensures r == ResultOfChunk(remote.view, hashes, tries)
  {
    var ok, _, _ := RetryHttpCall(remote, [], tries);
    r := AnswerOfChunk(remote.view, hashes, ok);
  }

  /** The response body of a lookup that succeeded, or the fallback of one that did not. */
  function AnswerOfChunk(v: View, hashes: seq<Hash>, ok: bool): map<Hash, Option<Analysis>> {
    if !ok then map h | h in hashes :: None
    else
      var answered := Capped(hashes, BATCH_CAP);
      map h | h in answered :: if h in v then Some(v[h]) else None
  }

  /** A lookup writes nothing: with no other writer the store stays. */
  lemma {:induction false} LookupsWriteNothing(v: View, net: seq<seq<Attempt>>, n: nat)
    requires n <= |net| && forall i | 0 <= i < n :: NoOthers(net[i])
    ensures ViewAt(v, net, n) == v
    decreases n
  {
    if n > 0 {
      var tries := net[0];
      assert NoOthers(Made(tries)) by { assert forall i | 0 <= i < |Made(tries)| :: Made(tries)[i] == tries[i]; }
      RetriesAreOneWrite(v, Capped([], BATCH_CAP), Made(tries));
      assert forall i | 0 <= i < n - 1 :: net[1..][i] == net[i + 1];
      LookupsWriteNothing(v, net[1..], n - 1);
    }
  }

  /** Others insert what they like, and neither overwrite nor remove `h`. */
  ghost predicate Spares(ops: seq<Op>, h: Hash) {
    forall i | 0 <= i < |ops| ::
      match ops[i]
      case Insertion(_) => true
      case Overwriting(entries) => h !in HashSet(entries)
      case Removal(hashes) => h !in hashes
  }

  ghost predicate AllSpare(tries: seq<Attempt>, h: Hash) {
    forall i | 0 <= i < |tries| :: Spares(tries[i].others, h)
  }

  lemma {:induction false} PutKeeps(v: View, entries: seq<Entry>, h: Hash)
    requires h in v
    ensures h in PutView(v, entries) && PutView(v, entries)[h] == v[h]
    decreases |entries|
  {
    if entries != [] {
      PutKeeps(if entries[0].hash in v then v else v[entries[0].hash := entries[0].analysis], entries[1..], h);
    }
  }

  lemma {:induction false} OverwriteKeeps(v: View, entries: seq<Entry>, h: Hash)
    requires h in v && h !in HashSet(entries)
    ensures h in OverwriteView(v, entries) && OverwriteView(v, entries)[h] == v[h]
    decreases |entries|
  {
    if entries != [] {
      assert entries == [entries[0]] + entries[1..];
      assert entries[0].hash in HashSet(entries) && HashSet(entries[1..]) <= HashSet(entries);
      OverwriteKeeps(v[entries[0].hash := entries[0].analysis], entries[1..], h);
    }
  }

  lemma {:induction false} OpsKeep(v: View, ops: seq<Op>, h: Hash)
    requires h in v && Spares(ops, h)
    ensures h in ApplyAll(v, ops) && ApplyAll(v, ops)[h] == v[h]
    decreases |ops|
  {
    if ops != [] {
      match ops[0] {
        case Insertion(entries) => PutKeeps(v, entries, h);
        case Overwriting(entries) => OverwriteKeeps(v, entries, h);
        case Removal(_) =>
      }
      assert forall i | 0 <= i < |ops| - 1 :: ops[1..][i] == ops[i + 1];
      OpsKeep(Apply(v, ops[0]), ops[1..], h);
    }
  }

  lemma {:induction false} TriesKeep(v: View, made: seq<Attempt>, h: Hash)
    requires h in v && AllSpare(made, h)
    ensures h in AfterAll(v, Capped([], BATCH_CAP), made) && AfterAll(v, Capped([], BATCH_CAP), made)[h] == v[h]
    decreases |made|
  {
    if made != [] {
      OpsKeep(v, made[0].others, h);
      assert forall i | 0 <= i < |made| - 1 :: made[1..][i] == made[i + 1];
      TriesKeep(AfterOne(v, Capped([], BATCH_CAP), made[0]), made[1..], h);
    }
  }

  /** A row that was stored before the lookups is there at each of them, unless others overwrite or
      remove it meanwhile. */
  lemma {:induction false} StoredRowsStay(v: View, net: seq<seq<Attempt>>, n: nat, h: Hash)
    requires n <= |net| && h in v && forall i | 0 <= i < n :: AllSpare(net[i], h)
    ensures h in ViewAt(v, net, n) && ViewAt(v, net, n)[h] == v[h]
    decreases n
  {
    if n > 0 {
      var made := Made(net[0]);
      assert AllSpare(net[0], h);
      assert AllSpare(made, h) by { assert forall i | 0 <= i < |made| :: made[i] == net[0][i]; }
      TriesKeep(v, made, h);
      assert forall i | 0 <= i < n - 1 :: net[1..][i] == net[i + 1];
      StoredRowsStay(ReadView(v, net[0]), net[1..], n - 1, h);
    }
  }

  lemma MapsAssociate(a: map<Hash, Option<Analysis>>, b: map<Hash, Option<Analysis>>, c: map<Hash, Option<Analysis>>)
    ensures a + (b + c) == (a + b) + c
  {
  }

  lemma {:induction false} GetStep(v: View, r: map<Hash, Option<Analysis>>, rest: seq<seq<Hash>>, net: seq<seq<Attempt>>, n: nat)
    requires rest != [] && n < |net| && |rest| <= |net| - n
    ensures
      var v' := ReadView(v, net[n]);
      && ViewAt(v, net[n..], |rest|) == ViewAt(v', net[n + 1..], |rest| - 1)
      && r + ResultsOf(v, rest, net[n..]) == (r + ResultOfChunk(v', rest[0], net[n])) + ResultsOf(v', rest[1..], net[n + 1..])
  {
    assert net[n..][0] == net[n] && net[n..][1..] == net[n + 1..];
    var v' := ReadView(v, net[n]);
    MapsAssociate(r, ResultOfChunk(v', rest[0], net[n]), ResultsOf(v', rest[1..], net[n + 1..]));
  }

  /** None stands for the ValueError of a step of 0. */
  method BatchGet(client: Client, remote: Remote, hashes: seq<Hash>, net: seq<seq<Attempt>>) returns (r: Option<map<Hash, Option<Analysis>>>)
    requires |net| >= |hashes| && forall i | 0 <= i < |net| :: HonestTries(net[i])
    modifies remote
    ensures
      if hashes == [] || client.batchSize < 0 then r == Some(map[]) && remote.view == old(remote.view)
      else if client.batchSize == 0 then r == None && remote.view == old(remote.view)
      else
        var chunks := Chunks(hashes, client.batchSize);
        && |chunks| <= |hashes|
        && r == Some(ResultsOf(old(remote.view), chunks, net))
        && remote.view == ViewAt(old(remote.view), net, |chunks|)
  {
    if hashes == [] { return Some(map[]); }
    if client.batchSize == 0 { return None; }
    if client.batchSize < 0 { return Some(map[]); }
    var results := GetChunks(remote, hashes, client.batchSize, net);
    r := Some(results);
  }

  method GetChunks(remote: Remote, hashes: seq<Hash>, size: nat, net: seq<seq<Attempt>>) returns (r: map<Hash, Option<Analysis>>)
    requires size > 0 && |net| >= |hashes| && forall i | 0 <= i < |net| :: HonestTries(net[i])
    modifies remote
    ensures |Chunks(hashes, size)| <= |hashes|
    ensures r == ResultsOf(old(remote.view), Chunks(hashes, size), net)
    ensures remote.view == ViewAt(old(remote.view), net, |Chunks(hashes, size)|)
  {
    ChunkCount(hashes, size);
    r := map[];
    var start, n := 0, 0;
    ghost var all := Chunks(hashes, size);
    ghost var last, results := ViewAt(remote.view, net, |all|), ResultsOf(remote.view, all, net);
    ghost var rest := all;
    assert hashes[0..] == hashes && net[0..] == net;
    while start < |hashes|
      invariant 0 <= start <= |hashes| && n <= |net|
      invariant rest == Chunks(hashes[start..], size) && n + |rest| == |all|
      invariant ViewAt(remote.view, net[n..], |rest|) == last
      invariant r + ResultsOf(remote.view, rest, net[n..]) == results
      decreases |hashes| - start
    {
      var end := Least(start + size, |hashes|);
      FirstChunk(hashes, start, size);
      var part := hashes[start..end];
      assert part == rest[0] && rest[1..] == Chunks(hashes[end..], size);
      GetStep(remote.view, r, rest, net, n);
      var one := BatchGetChunk(remote, part, net[n]);
      r := r + one;
      start, n, rest := end, n + 1, rest[1..];
    }
    assert hashes[start..] == [] && rest == [];
  }

  lemma {:induction false} ResultsAreOfTheChunks(v: View, chunks: seq<seq<Hash>>, net: seq<seq<Attempt>>, h: Hash)
    requires |net| >= |chunks| && h in ResultsOf(v, chunks, net)
    ensures h in Flatten(chunks)
    decreases |chunks|
  {
    var v' := ReadView(v, net[0]);
    if h in ResultsOf(v', chunks[1..], net[1..]) { ResultsAreOfTheChunks(v', chunks[1..], net[1..], h); }
  }

  lemma {:induction false} FlattenHolds<T>(xss: seq<seq<T>>, n: nat, k: nat)
    requires n < |xss| && k < |xss[n]|
    ensures xss[n][k] in Flatten(xss)
    decreases n
  {
    if n > 0 { FlattenHolds(xss[1..], n - 1, k); }
  }

  lemma {:induction false} DistinctParts(a: seq<Hash>, b: seq<Hash>)
    requires Distinct(a + b)
    ensures Distinct(a) && Distinct(b)
    ensures forall h | h in a :: h !in b
  {
    var c := a + b;
    forall i, j | 0 <= i < j < |a| ensures a[i] != a[j] { assert c[i] == a[i] && c[j] == a[j]; }
    forall i, j | 0 <= i < j < |b| ensures b[i] != b[j] { assert c[|a| + i] == b[i] && c[|a| + j] == b[j]; }
    forall i, j | 0 <= i < |a| && 0 <= j < |b| ensures a[i] != b[j] { assert c[i] == a[i] && c[|a| + j] == b[j]; }
  }

  /** What a chunked lookup answers for the hash at place `k` of chunk `n`: nothing at all when the
      server cut it off, None when the chunk failed or the store had no row at that time, the row
      otherwise. */
  lemma {:induction false} ChunkedAnswer(v: View, chunks: seq<seq<Hash>>, net: seq<seq<Attempt>>, n: nat, k: nat)
    requires |net| >= |chunks| && Distinct(Flatten(chunks)) && n < |chunks| && k < |chunks[n]|
    ensures
      var r, seen := ResultsOf(v, chunks, net), ViewAt(v, net, n + 1);
      var h := chunks[n][k];
      && (h in r <==> !Acknowledged(net[n]) || k < BATCH_CAP)
      && (h in r ==> r[h] == if Acknowledged(net[n]) && h in seen then Some(seen[h]) else None)
    decreases |chunks|
  {
    var v' := ReadView(v, net[0]);
    var h, rest := chunks[n][k], ResultsOf(v', chunks[1..], net[1..]);
    DistinctParts(chunks[0], Flatten(chunks[1..]));
    if n == 0 {
      if h in rest {
        ResultsAreOfTheChunks(v', chunks[1..], net[1..], h);
        assert false;
      }
      ShownExactly(chunks[0], net[0], k);
      assert ViewAt(v', net[1..], 0) == v';
    } else {
      ChunkedAnswer(v', chunks[1..], net[1..], n - 1, k);
      FlattenHolds(chunks[1..], n - 1, k);
      assert h !in ResultOfChunk(v', chunks[0], net[0]);
    }
  }

  lemma {:induction false} ShownExactly(chunk: seq<Hash>, tries: seq<Attempt>, k: nat)
    requires Distinct(chunk) && k < |chunk|
    ensures chunk[k] in Shown(chunk, tries) <==> !Acknowledged(tries) || k < BATCH_CAP
  {
    var shown := Shown(chunk, tries);
    if k < |shown| { assert shown[k] == chunk[k]; }
    if chunk[k] in shown {
      var i :| 0 <= i < |shown| && shown[i] == chunk[k];
      assert shown[i] == chunk[i];
    }
  }

  /** Transparent lookups: with chunks of 1 to 1000 and distinct hashes, a chunked lookup answers
      every hash.  A chunk that failed answers None; one that arrived gives every row that was
      stored when the lookup began and that nobody overwrote or removed meanwhile, and with no
      other writer exactly these. */
  lemma {:induction false} ChunkedGetIsOneLookup(v: View, hashes: seq<Hash>, size: nat, net: seq<seq<Attempt>>, n: nat, k: nat)
    requires 1 <= size <= BATCH_CAP && |net| >= |hashes| && Distinct(hashes)
    requires n < |Chunks(hashes, size)| && k < |Chunks(hashes, size)[n]|
    ensures |Chunks(hashes, size)| <= |net| && Flatten(Chunks(hashes, size)) == hashes
    ensures
      var h := Chunks(hashes, size)[n][k];
      var r := ResultsOf(v, Chunks(hashes, size), net);
      && h in r
      && (!Acknowledged(net[n]) ==> r[h] == None)
      && (Acknowledged(net[n]) && h in v && (forall i | 0 <= i <= n :: AllSpare(net[i], h)) ==> r[h] == Some(v[h]))
      && (h !in v && (forall i | 0 <= i <= n :: NoOthers(net[i])) ==> r[h] == None)
  {
    ChunkCount(hashes, size);
    ChunksAreAll(hashes, size);
    assert Chunks(hashes, size)[n] in Chunks(hashes, size);
    ChunkedAnswer(v, Chunks(hashes, size), net, n, k);
    var h := Chunks(hashes, size)[n][k];
    if h in v && forall i | 0 <= i <= n :: AllSpare(net[i], h) { StoredRowsStay(v, net, n + 1, h); }
    if forall i | 0 <= i <= n :: NoOthers(net[i]) { LookupsWriteNothing(v, net, n + 1); }
  }

  /** No answer is missing exactly when no chunk that arrived was over the cap of the server. */
  lemma {:induction false} EveryHashIsAnswered(v: View, chunks: seq<seq<Hash>>, net: seq<seq<Attempt>>)
    requires |net| >= |chunks| && Distinct(Flatten(chunks))
    ensures (forall n, k | 0 <= n < |chunks| && 0 <= k < |chunks[n]| :: chunks[n][k] in ResultsOf(v, chunks, net)) <==>
            (forall n | 0 <= n < |chunks| && Acknowledged(net[n]) :: |chunks[n]| <= BATCH_CAP)
  {
    forall n, k | 0 <= n < |chunks| && 0 <= k < |chunks[n]|
      ensures chunks[n][k] in ResultsOf(v, chunks, net) <==> !Acknowledged(net[n]) || k < BATCH_CAP
    {
      ChunkedAnswer(v, chunks, net, n, k);
    }
    if n :| 0 <= n < |chunks| && Acknowledged(net[n]) && |chunks[n]| > BATCH_CAP {
      assert chunks[n][BATCH_CAP] !in ResultsOf(v, chunks, net);
    }
  }

  // ---------------------------------------------------------------- a batch size of 1001

  function DigitValue(c: char): int { if c <= '9' then c as int - '0' as int else c as int - 'a' as int + 10 }

  function HexOf(d: nat): (c: char)
    requires d < 16
    ensures HexDigit(c) && DigitValue(c) == d
  {
    if d < 10 then '0' + d as char else 'a' + (d - 10) as char
  }

  function Number(h: Hash): int
    requires |h| >= 3
  {
    256 * DigitValue(h[0]) + 16 * DigitValue(h[1]) + DigitValue(h[2])
  }

  function Zeros(n: nat): (z: string)
    ensures |z| == n && forall i | 0 <= i < n :: z[i] == '0'
  {
    seq(n, _ => '0')
  }

  /** 64 hex digits, with the number in the first three. */
  function HashOf(n: nat): (h: Hash)
    requires n < 4096
    ensures ValidHash(h) && Number(h) == n
  {
    HexParts(n);
    var digits := [HexOf(n / 256), HexOf(n / 16 % 16), HexOf(n % 16)];
    var h := digits + Zeros(61);
    assert h[0] == digits[0] && h[1] == digits[1] && h[2] == digits[2];
    h
  }

  lemma {:induction false} HexParts(n: nat)
    requires n < 4096
    ensures n / 256 < 16 && n == 256 * (n / 256) + 16 * (n / 16 % 16) + n % 16
  {
    assert n / 16 == 16 * (n / 16 / 16) + n / 16 % 16;
    assert n / 16 / 16 == n / 256;
  }

  lemma {:induction false} HashesDiffer(m: nat, n: nat)
    requires m < n < 4096
    ensures HashOf(m) != HashOf(n)
  {
    assert Number(HashOf(m)) != Number(HashOf(n));
  }

  function ManyHashes(n: nat): (hashes: seq<Hash>)
    requires n <= 4096
    ensures |hashes| == n && forall i | 0 <= i < n :: hashes[i] == HashOf(i)
  {
    seq(n, i requires 0 <= i < n => HashOf(i))
  }

  lemma {:induction false} ManyHashesDiffer(n: nat)
    requires n <= 4096
    ensures Distinct(ManyHashes(n))
  {
    var hashes := ManyHashes(n);
    forall i, j | 0 <= i < j < n ensures hashes[i] != hashes[j] { HashesDiffer(i, j); }
  }

  const ANSWERED := Attempt([], true, Status(OK))
  const ANSWERED_AT_ONCE := [ANSWERED, ANSWERED, ANSWERED]

  /** One lookup of 1001 hashes in one chunk, answered at the first try: the last hash gets no answer. */
  lemma {:induction false} LargeLookupLosesAHash(v: View)
    ensures HonestTries(ANSWERED_AT_ONCE) && Distinct(ManyHashes(1001)) && Chunks(ManyHashes(1001), 1001) == [ManyHashes(1001)]
    ensures ManyHashes(1001)[1000] !in ResultsOf(v, [ManyHashes(1001)], [ANSWERED_AT_ONCE])
  {
    var hashes := ManyHashes(1001);
    ManyHashesDiffer(1001);
    var chunks: seq<seq<Hash>> := [hashes];
    assert chunks[1..] == [] && Flatten(chunks) == hashes + Flatten([]);
    assert Flatten(chunks) == hashes;
    ChunkedAnswer(v, [hashes], [ANSWERED_AT_ONCE], 0, 1000);
  }

  function ManyEntries(n: nat, a: Analysis): (entries: seq<Entry>)
    requires n <= 4096
    ensures |entries| == n && forall i | 0 <= i < n :: entries[i] == Entry(HashOf(i), a)
  {
    seq(n, i requires 0 <= i < n => Entry(HashOf(i), a))
  }

  lemma {:induction false} CutOff(entries: seq<Entry>, a: Analysis)
    requires entries == ManyEntries(1001, a)
    ensures entries[1000].hash !in HashSet(Capped(entries, BATCH_CAP))
  {
    var kept := Capped(entries, BATCH_CAP);
    forall e | e in kept ensures e.hash != HashOf(1000) {
      var i :| 0 <= i < |kept| && kept[i] == e;
      assert kept[i] == entries[i];
      HashesDiffer(i, 1000);
    }
  }

  lemma {:induction false} WriteInOneChunk(entries: seq<Entry>)
    ensures AfterChunks(map[], [entries], [ANSWERED_AT_ONCE]) == PutView(map[], Capped(entries, BATCH_CAP))
  {
    var chunks: seq<seq<Entry>> := [entries];
    var kept := Capped(entries, BATCH_CAP);
    assert Made(ANSWERED_AT_ONCE) == [ANSWERED] && Delivered([ANSWERED]) by { assert [ANSWERED][0].applied; }
    assert chunks[1..] == [] && kept + [] == kept;
    assert DeliveredEntries(chunks, [ANSWERED_AT_ONCE]) == kept;
    ChunkedPutIsOneWrite(map[], chunks, [ANSWERED_AT_ONCE]);
  }

  lemma {:induction false} PutAddsOnly(v: View, entries: seq<Entry>)
    ensures PutView(v, entries).Keys <= v.Keys + HashSet(entries)
    decreases |entries|
  {
    if entries != [] {
      assert entries == [entries[0]] + entries[1..];
      PutAddsOnly(if entries[0].hash in v then v else v[entries[0].hash := entries[0].analysis], entries[1..]);
    }
  }
}
