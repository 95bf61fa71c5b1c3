/** The shared analysis cache: its tables, the requests that reach them, and the runs of both. */
module CacheServer {
  import opened Collections

  type Hash = string
  type Token = string

  datatype Analysis = Analysis(summary: string, inputs: string, outputs: string, model: string)

  datatype Entry = Entry(hash: Hash, analysis: Analysis)

  /** `at` is the time of the last write, in seconds. */
  datatype Row = Row(analysis: Analysis, at: int)

  type Store = map<Hash, Row>

  const BATCH_CAP := 1000
  const CLEAR_CAP := 10000
  const DAY := 86400

  // ---------------------------------------------------------------- the cache table

  function Capped<T>(xs: seq<T>, cap: nat): (r: seq<T>)
    ensures r <= xs && |r| <= cap && (|xs| <= cap ==> r == xs)
  {
    if |xs| <= cap then xs else xs[..cap]
  }

  /** INSERT ... ON CONFLICT DO NOTHING: the first write of a hash wins. */
  function Insert(s: Store, entries: seq<Entry>, now: int): Store
    decreases |entries|
  {
    if entries == [] then s
    else Insert(if entries[0].hash in s then s else s[entries[0].hash := Row(entries[0].analysis, now)], entries[1..], now)
  }

  /** INSERT ... ON CONFLICT DO UPDATE. */
  function Upsert(s: Store, entries: seq<Entry>, now: int): Store
    decreases |entries|
  {
    if entries == [] then s
    else Upsert(s[entries[0].hash := Row(entries[0].analysis, now)], entries[1..], now)
  }

  predicate DistinctHashes(entries: seq<Entry>) {
    forall i, j | 0 <= i < j < |entries| :: entries[i].hash != entries[j].hash
  }

  function HashSet(entries: seq<Entry>): set<Hash> {
    set e | e in entries :: e.hash
  }

  /** The entry that an insert takes for `h`. */
  function FirstOf(entries: seq<Entry>, h: Hash): Option<Analysis>
    decreases |entries|
  {
    if entries == [] then None
    else if entries[0].hash == h then Some(entries[0].analysis) else FirstOf(entries[1..], h)
  }

  /** An insert keeps every stored row and adds the first entry of every new hash. */
  lemma {:induction false} InsertMeaning(s: Store, entries: seq<Entry>, now: int, h: Hash)
    ensures h in s ==> h in Insert(s, entries, now) && Insert(s, entries, now)[h] == s[h]
    ensures h !in s ==> (h in Insert(s, entries, now) <==> FirstOf(entries, h).Some?)
    ensures h !in s && h in Insert(s, entries, now) ==> Insert(s, entries, now)[h] == Row(FirstOf(entries, h).value, now)
    decreases |entries|
  {
    if entries != [] {
      var e := entries[0];
      InsertMeaning(if e.hash in s then s else s[e.hash := Row(e.analysis, now)], entries[1..], now, h);
    }
  }

  lemma {:induction false} UpsertMeaning(s: Store, entries: seq<Entry>, now: int, h: Hash)
    ensures h !in HashSet(entries) ==> (h in Upsert(s, entries, now) <==> h in s)
    ensures h !in HashSet(entries) && h in s ==> Upsert(s, entries, now)[h] == s[h]
    ensures h in HashSet(entries) ==> h in Upsert(s, entries, now) && Upsert(s, entries, now)[h].at == now
                                      && Entry(h, Upsert(s, entries, now)[h].analysis) in entries
    decreases |entries|
  {
    if entries != [] {
      var e := entries[0];
      assert entries == [e] + entries[1..];
      UpsertMeaning(s[e.hash := Row(e.analysis, now)], entries[1..], now, h);
      assert h in HashSet(entries[1..]) ==> h in HashSet(entries);
      if h in HashSet(entries) && h !in HashSet(entries[1..]) { assert h == e.hash; }
    }
  }

  lemma {:induction false} InsertGrows(s: Store, entries: seq<Entry>, now: int)
    ensures s.Keys <= Insert(s, entries, now).Keys && |s| <= |Insert(s, entries, now)|
    decreases |entries|
  {
    if entries != [] {
      var e := entries[0];
      InsertGrows(if e.hash in s then s else s[e.hash := Row(e.analysis, now)], entries[1..], now);
    }
  }

  function Without(s: Store, hashes: seq<Hash>): Store {
    map h | h in s && h !in hashes :: s[h]
  }

  function Purged(s: Store, days: int, now: int): Store {
    map h | h in s && !(s[h].at < now - days * DAY) :: s[h]
  }

  // ---------------------------------------------------------------- the token and project tables

  datatype Perms = Perms(canRead: bool, canWrite: bool, canOverwrite: bool, isAdmin: bool)

  datatype TokenRow = TokenRow(project: Option<string>, perms: Perms, revoked: bool)

  /** `issued` holds every token ever made: a new token is 256 random bits and repeats none. */
  datatype Db = Db(store: Store, tokens: map<Token, TokenRow>, projects: set<string>, issued: set<Token>)

  const EMPTY := Db(map[], map[], {}, {})

  /** `validate_token`. */
  function Validate(db: Db, token: Token): Option<Perms> {
    if token in db.tokens && !db.tokens[token].revoked then Some(db.tokens[token].perms) else None
  }

  function AddToken(db: Db, token: Token, project: Option<string>, perms: Perms): Db {
    db.(tokens := db.tokens[token := TokenRow(project, perms, false)], issued := db.issued + {token})
  }

  /** None: the project exists, and the transaction leaves nothing behind. */
  function CreateProject(db: Db, id: string, token: Token): Option<Db> {
    if id in db.projects then None
    else Some(AddToken(db.(projects := db.projects + {id}), token, Some(id), Perms(true, true, true, false)))
  }

  /** None: the foreign key fails, because the project does not exist. */
  function CreateToken(db: Db, id: string, perms: Perms, token: Token): Option<Db> {
    if id !in db.projects then None else Some(AddToken(db, token, Some(id), perms.(isAdmin := false)))
  }

  function Revoke(db: Db, token: Token): (Db, bool) {
    if Validate(db, token).None? then (db, false)
    else (db.(tokens := db.tokens[token := db.tokens[token].(revoked := true)]), true)
  }

  /** ON DELETE CASCADE takes the tokens of the project with it. */
  function RemoveProject(db: Db, id: string): (Db, bool) {
    if id !in db.projects then (db, false)
    else (db.(projects := db.projects - {id},
              tokens := map t | t in db.tokens && db.tokens[t].project != Some(id) :: db.tokens[t]), true)
  }

  // ---------------------------------------------------------------- the requests

  predicate HexDigit(c: char) { 'a' <= c <= 'f' || '0' <= c <= '9' }

  /** 64 hex digits; the pattern of the program also lets one newline follow. */
  predicate ValidHash(h: Hash) {
    && 64 <= |h| <= 65 && (forall i | 0 <= i < 64 :: HexDigit(h[i]))
    && (|h| == 65 ==> h[64] == '\n')
  }

  predicate ValidEntry(e: Entry) {
    && ValidHash(e.hash) && |e.analysis.summary| <= 5000 && |e.analysis.inputs| <= 100000
    && |e.analysis.outputs| <= 100000 && |e.analysis.model| <= 100
  }

  /** `overwrite`: the X-Cache-Overwrite header says yes. */
  datatype Request =
    | BatchGet(hashes: seq<Hash>)
    | BatchPut(entries: seq<Entry>, overwrite: bool)
    | CacheClear(hashes: seq<Hash>)

  datatype Response =
    | Denied401
    | Denied403
    | Rejected422
    | Error503
    | Results(results: map<Hash, Option<Row>>)
    | Inserted(count: nat)
    | Deleted(count: nat)

  function LookupAll(s: Store, hashes: seq<Hash>): map<Hash, Option<Row>> {
    map h | h in hashes :: if h in s then Some(s[h]) else None
  }

  /** The route that the request reaches, after the token and permission checks. */
  function Serve(db: Db, token: Token, r: Request, now: int): (Db, Response) {
    match Validate(db, token)
    case None => (db, Denied401)
    case Some(perms) =>
      match r
      case BatchGet(hashes) =>
        if !perms.canRead then (db, Denied403) else (db, Results(LookupAll(db.store, Capped(hashes, BATCH_CAP))))
      case BatchPut(entries, overwrite) =>
        if !perms.canWrite || (overwrite && !perms.canOverwrite) then (db, Denied403)
        else if exists i | 0 <= i < |entries| :: !ValidEntry(entries[i]) then (db, Rejected422)
        else Put(db, Capped(entries, BATCH_CAP), overwrite, now)
      case CacheClear(hashes) =>
        if !perms.canWrite then (db, Denied403)
        else if hashes == [] || |hashes| > CLEAR_CAP then (db, Rejected422)
        else
          KeysCount(Without(db.store, hashes), db.store);
          (db.(store := Without(db.store, hashes)), Deleted(|db.store| - |Without(db.store, hashes)|))
  }

  /** The database refuses an update that meets one row twice; the count is of the rows that the
      statement returns. */
  function Put(db: Db, entries: seq<Entry>, overwrite: bool, now: int): (Db, Response) {
    if overwrite then
      if !DistinctHashes(entries) then (db, Error503)
      else (db.(store := Upsert(db.store, entries, now)), Inserted(|entries|))
    else
      InsertGrows(db.store, entries, now);
      (db.(store := Insert(db.store, entries, now)), Inserted(|Insert(db.store, entries, now)| - |db.store|))
  }

  datatype Event =
    | Http(token: Token, request: Request, now: int)
    | NewProject(id: string, made: Token)
    | NewToken(project: string, perms: Perms, made: Token)
    | NewAdmin(made: Token)
    | RevokeToken(revoked: Token)
    | DropProject(id: string)
    | Purge(days: int, now: int)

  function OrElse(o: Option<Db>, db: Db): Db { if o.Some? then o.value else db }

  function Step(db: Db, e: Event): Db {
    match e
    case Http(token, r, now) => Serve(db, token, r, now).0
    case NewProject(id, t) => OrElse(CreateProject(db, id, t), db)
    case NewToken(id, perms, t) => OrElse(CreateToken(db, id, perms, t), db)
    case NewAdmin(t) => AddToken(db, t, None, Perms(true, true, true, true))
    case RevokeToken(t) => Revoke(db, t).0
    case DropProject(id) => RemoveProject(db, id).0
    case Purge(days, now) => db.(store := Purged(db.store, days, now))
  }

  /** A token that an event makes was never issued before. */
  predicate Possible(db: Db, e: Event) {
    e.NewProject? || e.NewToken? || e.NewAdmin? ==> e.made !in db.issued
  }

  // ---------------------------------------------------------------- the server object

  class Server {
    var store: Store
    var tokens: map<Token, TokenRow>
    var projects: set<string>
    ghost var issued: set<Token>

    constructor ()
      ensures State() == EMPTY
    {
      store, tokens, projects, issued := map[], map[], {}, {};
    }

    ghost function State(): Db
      reads this
    {
      Db(store, tokens, projects, issued)
    }

    method ValidateToken(token: Token) returns (r: Option<Perms>)
      ensures r == Validate(State(), token)
    {
      if token in tokens && !tokens[token].revoked { return Some(tokens[token].perms); }
      r := None;
    }

    /** Every hash maps to None first, and each row found fills its place. */
    method Get(hashes: seq<Hash>) returns (result: map<Hash, Option<Row>>)
      ensures result == LookupAll(store, hashes)
    {
      result := map h | h in hashes :: None;
      var todo := set h | h in hashes && h in store;
      while todo != {}
        invariant todo <= set h | h in hashes && h in store
        invariant result.Keys == set h | h in hashes
        invariant forall h | h in result :: result[h] == if h in store && h !in todo then Some(store[h]) else None
        decreases todo
      {
        var h :| h in todo;
        result := result[h := Some(store[h])];
        todo := todo - {h};
      }
    }

    method PutEntries(entries: seq<Entry>, canOverwrite: bool, now: int) returns (r: Response)
      modifies this`store
      ensures (State(), r) == Put(old(State()), entries, canOverwrite, now)
    {
      if canOverwrite && !DistinctHashes(entries) { return Error503; }
      ghost var before := store;
      var count := 0;
      assert entries[0..] == entries;
      for i := 0 to |entries|
        invariant canOverwrite ==> Upsert(store, entries[i..], now) == Upsert(before, entries, now) && count == i
        invariant !canOverwrite ==> Insert(store, entries[i..], now) == Insert(before, entries, now) && count == |store| - |before|
        invariant |before| <= |store|
      {
        assert entries[i..][0] == entries[i] && entries[i..][1..] == entries[i + 1..];
        if canOverwrite || entries[i].hash !in store {
          assert entries[i].hash !in store ==> |store[entries[i].hash := Row(entries[i].analysis, now)]| == |store| + 1;
          store := store[entries[i].hash := Row(entries[i].analysis, now)];
          count := count + 1;
        }
      }
      assert entries[|entries|..] == [];
      r := Inserted(count);
    }

    method HandleRequest(token: Token, request: Request, now: int) returns (r: Response)
      modifies this`store
      ensures (State(), r) == Serve(old(State()), token, request, now)
    {
      var perms := ValidateToken(token);
      if perms.None? { return Denied401; }
      match request
      case BatchGet(hashes) =>
        if !perms.value.canRead { return Denied403; }
        var results := Get(Capped(hashes, BATCH_CAP));
        r := Results(results);
      case BatchPut(entries, overwrite) =>
        if !perms.value.canWrite || (overwrite && !perms.value.canOverwrite) { return Denied403; }
        if exists i | 0 <= i < |entries| :: !ValidEntry(entries[i]) { return Rejected422; }
        r := PutEntries(Capped(entries, BATCH_CAP), overwrite, now);
      case CacheClear(hashes) =>
        if !perms.value.canWrite { return Denied403; }
        if hashes == [] || |hashes| > CLEAR_CAP { return Rejected422; }
        var kept := Without(store, hashes);
        assert kept.Keys <= store.Keys;
        KeysCount(kept, store);
        r := Deleted(|store| - |kept|);
        store := kept;
    }

    method AddProject(id: string, token: Token) returns (ok: bool)
      modifies this
      ensures ok <==> CreateProject(old(State()), id, token).Some?
      ensures State() == Step(old(State()), NewProject(id, token))
    {
      if id in projects { return false; }
      projects := projects + {id};
      tokens, issued := tokens[token := TokenRow(Some(id), Perms(true, true, true, false), false)], issued + {token};
      ok := true;
    }

    method AddProjectToken(id: string, perms: Perms, token: Token) returns (ok: bool)
      modifies this
      ensures ok <==> CreateToken(old(State()), id, perms, token).Some?
      ensures State() == Step(old(State()), NewToken(id, perms, token))
    {
      if id !in projects { return false; }
      tokens, issued := tokens[token := TokenRow(Some(id), perms.(isAdmin := false), false)], issued + {token};
      ok := true;
    }

    method AddAdminToken(token: Token)
      modifies this
      ensures State() == Step(old(State()), NewAdmin(token))
    {
      tokens, issued := tokens[token := TokenRow(None, Perms(true, true, true, true), false)], issued + {token};
    }

    method RevokeOne(token: Token) returns (found: bool)
      modifies this`tokens
      ensures (State(), found) == Revoke(old(State()), token)
    {
      if token !in tokens || tokens[token].revoked { return false; }
      tokens := tokens[token := tokens[token].(revoked := true)];
      found := true;
    }

    method RemoveOneProject(id: string) returns (found: bool)
      modifies this`projects, this`tokens
      ensures (State(), found) == RemoveProject(old(State()), id)
    {
      if id !in projects { return false; }
      projects := projects - {id};
      tokens := map t | t in tokens && tokens[t].project != Some(id) :: tokens[t];
      found := true;
    }

    method PurgeOlderThan(days: int, now: int) returns (deleted: nat)
      modifies this`store
      ensures State() == Step(old(State()), Purge(days, now))
      ensures deleted == |old(store)| - |store|
    {
      var kept := Purged(store, days, now);
      assert kept.Keys <= store.Keys;
      KeysCount(kept, store);
      deleted := |store| - |kept|;
      store := kept;
    }
  }

  lemma KeysCount(a: Store, b: Store)
    requires a.Keys <= b.Keys
    ensures |a| <= |b|
  {
    SubsetSize(a.Keys, b.Keys);
  }

  // ---------------------------------------------------------------- what one event can do

  predicate HoldsWriteToken(db: Db, e: Event) {
    e.Http? && Validate(db, e.token).Some? && Validate(db, e.token).value.canWrite
  }

  /** The events that may replace the row of `h`: an overwriting PUT of `h` by a token that is not
      revoked and may write and overwrite. */
  predicate MayOverwrite(db: Db, e: Event, h: Hash) {
    && HoldsWriteToken(db, e) && Validate(db, e.token).value.canOverwrite
    && e.request.BatchPut? && e.request.overwrite
    && h in HashSet(Capped(e.request.entries, BATCH_CAP))
  }

  /** The events that may remove the row of `h`. */
  predicate MayRemove(db: Db, e: Event, h: Hash) {
    || (HoldsWriteToken(db, e) && e.request.CacheClear? && h in e.request.hashes)
    || (e.Purge? && h in db.store && db.store[h].at < e.now - e.days * DAY)
  }

  /** The events that may add a row for `h`. */
  predicate MayAdd(db: Db, e: Event, h: Hash) {
    HoldsWriteToken(db, e) && e.request.BatchPut? && h in HashSet(Capped(e.request.entries, BATCH_CAP))
  }

  lemma {:induction false} FirstOfIsIn(entries: seq<Entry>, h: Hash)
    ensures FirstOf(entries, h).Some? <==> h in HashSet(entries)
    ensures FirstOf(entries, h).Some? ==> Entry(h, FirstOf(entries, h).value) in entries
    decreases |entries|
  {
    if entries != [] {
      FirstOfIsIn(entries[1..], h);
      assert entries == [entries[0]] + entries[1..];
    }
  }

  /** First write wins: a stored row changes only by a permitted overwrite, goes only by a
      permitted clear or a purge of an old row, and comes only by a permitted PUT, which then holds
      what the PUT said. */
  lemma {:induction false} RowChanges(db: Db, e: Event, h: Hash)
    ensures h in db.store && h in Step(db, e).store && Step(db, e).store[h] != db.store[h] ==>
              MayOverwrite(db, e, h) && Entry(h, Step(db, e).store[h].analysis) in e.request.entries
    ensures h in db.store && h !in Step(db, e).store ==> MayRemove(db, e, h)
    ensures h !in db.store && h in Step(db, e).store ==>
              MayAdd(db, e, h) && Entry(h, Step(db, e).store[h].analysis) in e.request.entries
  {
    if e.Http? && e.request.BatchPut? {
      var entries := Capped(e.request.entries, BATCH_CAP);
      InsertMeaning(db.store, entries, e.now, h);
      UpsertMeaning(db.store, entries, e.now, h);
      FirstOfIsIn(entries, h);
      assert forall x | x in entries :: x in e.request.entries;
    }
  }

  /** The requests leave projects and tokens alone, and the administration leaves the cache alone
      (a purge apart). */
  lemma {:induction false} TablesAreApart(db: Db, e: Event)
    ensures e.Http? || e.Purge? ==>
              Step(db, e).tokens == db.tokens && Step(db, e).projects == db.projects && Step(db, e).issued == db.issued
    ensures !e.Http? && !e.Purge? ==> Step(db, e).store == db.store
  {
  }

  // ---------------------------------------------------------------- whole runs

  ghost predicate IsRun(dbs: seq<Db>, es: seq<Event>) {
    && |dbs| == |es| + 1
    && forall i | 0 <= i < |es| :: Possible(dbs[i], es[i]) && dbs[i + 1] == Step(dbs[i], es[i])
  }

  /** Every token of a project belongs to a project that exists, and was issued. */
  ghost predicate Sound(db: Db) {
    && (forall t | t in db.tokens && db.tokens[t].project.Some? :: db.tokens[t].project.value in db.projects)
    && db.tokens.Keys <= db.issued
  }

  lemma {:induction false} SoundStep(db: Db, e: Event)
    requires Sound(db) && Possible(db, e)
    ensures Sound(Step(db, e)) && db.issued <= Step(db, e).issued
  {
    TablesAreApart(db, e);
  }

  lemma {:induction false} SoundRun(dbs: seq<Db>, es: seq<Event>, n: nat)
    requires IsRun(dbs, es) && Sound(dbs[0]) && n < |dbs|
    ensures Sound(dbs[n]) && dbs[0].issued <= dbs[n].issued
  {
    if n > 0 {
      SoundRun(dbs, es, n - 1);
      SoundStep(dbs[n - 1], es[n - 1]);
    }
  }

  /** A token that was issued and does not validate never validates again. */
  lemma {:induction false} RevocationIsPermanent(dbs: seq<Db>, es: seq<Event>, t: Token, m: nat, n: nat)
    requires IsRun(dbs, es) && Sound(dbs[0]) && m <= n < |dbs|
    requires t in dbs[m].issued && Validate(dbs[m], t).None?
    ensures Validate(dbs[n], t).None?
    decreases n
  {
    if m < n {
      RevocationIsPermanent(dbs, es, t, m, n - 1);
      IssuedStays(dbs, es, t, m, n - 1);
      TablesAreApart(dbs[n - 1], es[n - 1]);
    }
  }

  lemma {:induction false} IssuedStays(dbs: seq<Db>, es: seq<Event>, t: Token, m: nat, n: nat)
    requires IsRun(dbs, es) && Sound(dbs[0]) && m <= n < |dbs| && t in dbs[m].issued
    ensures t in dbs[n].issued
    decreases n
  {
    if m < n {
      IssuedStays(dbs, es, t, m, n - 1);
      SoundRun(dbs, es, n - 1);
      SoundStep(dbs[n - 1], es[n - 1]);
    }
  }

  /** A revoked token, or one whose project was removed, does not validate from then on. */
  lemma {:induction false} RevokedNeverServes(dbs: seq<Db>, es: seq<Event>, k: nat, t: Token, n: nat)
    requires IsRun(dbs, es) && Sound(dbs[0]) && k < n < |dbs| && t in dbs[k].tokens
    requires es[k] == RevokeToken(t) || (es[k].DropProject? && dbs[k].tokens[t].project == Some(es[k].id))
    ensures Validate(dbs[n], t).None?
  {
    SoundRun(dbs, es, k);
    SoundStep(dbs[k], es[k]);
    assert Validate(dbs[k + 1], t).None?;
    RevocationIsPermanent(dbs, es, t, k + 1, n);
  }

  /** Over a whole run: a row that is stored at one moment and is not the same later was changed by
      a permitted event in between; while no such event comes, it stays. */
  lemma {:induction false} RowStaysUntilPermittedEvent(dbs: seq<Db>, es: seq<Event>, h: Hash, m: nat, n: nat)
    requires IsRun(dbs, es) && m <= n < |dbs| && h in dbs[m].store
    requires forall i | m <= i < n :: !MayOverwrite(dbs[i], es[i], h) && !MayRemove(dbs[i], es[i], h)
    ensures h in dbs[n].store && dbs[n].store[h] == dbs[m].store[h]
    decreases n
  {
    if m < n {
      RowStaysUntilPermittedEvent(dbs, es, h, m, n - 1);
      RowChanges(dbs[n - 1], es[n - 1], h);
    }
  }

  /** Nothing is stored that no permitted PUT of the run said. */
  lemma {:induction false} EveryRowWasPut(dbs: seq<Db>, es: seq<Event>, h: Hash, n: nat)
    requires IsRun(dbs, es) && dbs[0].store == map[] && n < |dbs| && h in dbs[n].store
    ensures exists i | 0 <= i < n ::
              MayAdd(dbs[i], es[i], h) && Entry(h, dbs[n].store[h].analysis) in es[i].request.entries
    decreases n
  {
    if n > 0 {
      RowChanges(dbs[n - 1], es[n - 1], h);
      if h in dbs[n - 1].store && dbs[n - 1].store[h] == dbs[n].store[h] {
        EveryRowWasPut(dbs, es, h, n - 1);
        var i :| 0 <= i < n - 1 && MayAdd(dbs[i], es[i], h) && Entry(h, dbs[n - 1].store[h].analysis) in es[i].request.entries;
      } else {
        assert MayAdd(dbs[n - 1], es[n - 1], h);
      }
    }
  }
}
