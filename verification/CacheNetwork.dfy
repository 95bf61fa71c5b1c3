/** The server behind the network of the client: what an attempt of the client is for the server. */
module CacheNetwork {
  import opened Collections
  import opened CacheServer
  import opened CacheClient

  /** The status of an answer. */
  function CodeOf(r: Response): nat {
    match r
    case Denied401 => 401
    case Denied403 => 403
    case Rejected422 => 422
    case Error503 => 503
    case _ => OK
  }

  // ---------------------------------------------------------------- what others do in between

  ghost function OpsOfRun(dbs: seq<Db>, es: seq<Event>): seq<Op>
    requires |dbs| == |es| + 1
    decreases |es|
  {
    if es == [] then [] else OpsOf(dbs[0], es[0]) + OpsOfRun(dbs[1..], es[1..])
  }

  lemma {:induction false} ApplyConcat(v: View, a: seq<Op>, b: seq<Op>)
    ensures ApplyAll(v, a + b) == ApplyAll(ApplyAll(v, a), b)
    decreases |a|
  {
    if a == [] {
      assert a + b == b;
    } else {
      assert (a + b)[1..] == a[1..] + b;
      ApplyConcat(Apply(v, a[0]), a[1..], b);
    }
  }

  lemma {:induction false} RestOfRun(dbs: seq<Db>, es: seq<Event>)
    requires IsRun(dbs, es) && es != []
    ensures IsRun(dbs[1..], es[1..]) && dbs[1] == Step(dbs[0], es[0])
  {
    forall i | 0 <= i < |es| - 1
      ensures Possible(dbs[1..][i], es[1..][i]) && dbs[1..][i + 1] == Step(dbs[1..][i], es[1..][i])
    {
      assert Possible(dbs[i + 1], es[i + 1]) && dbs[i + 1 + 1] == Step(dbs[i + 1], es[i + 1]);
    }
    assert dbs[0 + 1] == Step(dbs[0], es[0]);
  }

  /** Over any run of the server the operations of its events make the store. */
  lemma {:induction false} RunIsOps(dbs: seq<Db>, es: seq<Event>)
    requires IsRun(dbs, es)
    ensures Analyses(dbs[|es|].store) == ApplyAll(Analyses(dbs[0].store), OpsOfRun(dbs, es))
    decreases |es|
  {
    if es != [] {
      RestOfRun(dbs, es);
      RunIsOps(dbs[1..], es[1..]);
      ServerStepIsOp(dbs[0], es[0]);
      ApplyConcat(Analyses(dbs[0].store), OpsOf(dbs[0], es[0]), OpsOfRun(dbs[1..], es[1..]));
    }
  }

  /** A run without a permitted overwrite, clear or purge of a row spares it. */
  lemma {:induction false} RunSpares(dbs: seq<Db>, es: seq<Event>, h: Hash)
    requires IsRun(dbs, es)
    requires forall i | 0 <= i < |es| :: !MayOverwrite(dbs[i], es[i], h) && !MayRemove(dbs[i], es[i], h)
    ensures Spares(OpsOfRun(dbs, es), h)
    decreases |es|
  {
    if es != [] {
      RestOfRun(dbs, es);
      forall i | 0 <= i < |es| - 1 ensures !MayOverwrite(dbs[1..][i], es[1..][i], h) && !MayRemove(dbs[1..][i], es[1..][i], h) {
        assert dbs[1..][i] == dbs[i + 1] && es[1..][i] == es[i + 1];
      }
      RunSpares(dbs[1..], es[1..], h);
      OthersSpare(dbs[0], es[0], h);
      SparesConcat(OpsOf(dbs[0], es[0]), OpsOfRun(dbs[1..], es[1..]), h);
    }
  }

  lemma {:induction false} SparesConcat(a: seq<Op>, b: seq<Op>, h: Hash)
    requires Spares(a, h) && Spares(b, h)
    ensures Spares(a + b, h)
  {
  }

  // ---------------------------------------------------------------- one attempt

  /** The attempt of a PUT that reaches the server after these events of others. */
  ghost function PutAttempt(dbs: seq<Db>, es: seq<Event>, token: Token, entries: seq<Entry>, now: int): Attempt
    requires |dbs| == |es| + 1
  {
    var response := Serve(dbs[|es|], token, BatchPut(entries, false), now).1;
    Attempt(OpsOfRun(dbs, es), response.Inserted?, Status(CodeOf(response)))
  }

  /** What the server does with a PUT, after any run of events of others, is what an honest attempt
      of the client says of the store and of the report. */
  lemma {:induction false} PutIsAttempt(dbs: seq<Db>, es: seq<Event>, token: Token, entries: seq<Entry>, now: int)
    requires IsRun(dbs, es)
    ensures
      var v := Analyses(dbs[0].store);
      var served := Serve(dbs[|es|], token, BatchPut(entries, false), now);
      var a := PutAttempt(dbs, es, token, entries, now);
      && Honest(a)
      && Analyses(served.0.store) == AfterOne(v, Capped(entries, BATCH_CAP), a)
      && (served.1.Inserted? ==> served.1.count == TallyOne(v, Capped(entries, BATCH_CAP), a).reported)
  {
    RunIsOps(dbs, es);
    ServedPut(dbs[|es|], token, entries, now);
  }

  lemma {:induction false} ServedPut(db: Db, token: Token, entries: seq<Entry>, now: int)
    ensures
      var v := Analyses(db.store);
      var served := Serve(db, token, BatchPut(entries, false), now);
      && Analyses(served.0.store) == PutView(v, if served.1.Inserted? then Capped(entries, BATCH_CAP) else [])
      && (served.1.Inserted? ==> served.1.count == |PutView(v, Capped(entries, BATCH_CAP))| - |v|)
      && (served.1.Inserted? <==> CodeOf(served.1) == OK)
  {
    var kept := Capped(entries, BATCH_CAP);
    ServerInsertIsPut(db.store, kept, now);
    ServerInsertIsPut(Insert(db.store, kept, now), [], now);
  }

  /** A lookup that is served answers what the client takes for the answer of its chunk. */
  lemma {:induction false} ServedGet(db: Db, token: Token, hashes: seq<Hash>, now: int)
    ensures
      var served := Serve(db, token, BatchGet(hashes), now);
      && served.0 == db && (served.1.Results? <==> CodeOf(served.1) == OK)
      && (served.1.Results? ==>
            (map h | h in served.1.results ::
               match served.1.results[h] case None => None case Some(row) => Some(row.analysis))
            == AnswerOfChunk(Analyses(db.store), hashes, true))
  {
  }

  // ---------------------------------------------------------------- a batch size of 1001

  predicate MayWrite(db: Db, token: Token) { Validate(db, token).Some? && Validate(db, token).value.canWrite }

  predicate Fits(a: Analysis) { |a.summary| <= 5000 && |a.inputs| <= 100000 && |a.outputs| <= 100000 && |a.model| <= 100 }

  lemma {:induction false} ManyEntriesAreValid(a: Analysis)
    requires Fits(a)
    ensures forall i | 0 <= i < 1001 :: ValidEntry(ManyEntries(1001, a)[i])
  {
  }

  lemma {:induction false} AllAreNew(v: View, entries: seq<Entry>)
    requires DistinctHashes(entries) && forall i | 0 <= i < |entries| :: entries[i].hash !in v
    ensures |PutView(v, entries)| == |v| + |entries|
    decreases |entries|
  {
    if entries != [] {
      var v' := v[entries[0].hash := entries[0].analysis];
      assert |v'| == |v| + 1;
      forall i | 0 <= i < |entries| - 1 ensures entries[1..][i].hash !in v' { assert entries[1..][i] == entries[i + 1]; }
      AllAreNew(v', entries[1..]);
    }
  }

  lemma {:induction false} ManyEntriesDiffer(a: Analysis)
    ensures DistinctHashes(Capped(ManyEntries(1001, a), BATCH_CAP))
  {
    var kept := Capped(ManyEntries(1001, a), BATCH_CAP);
    forall i, j | 0 <= i < j < |kept| ensures kept[i].hash != kept[j].hash { HashesDiffer(i, j); }
  }

  /** 1001 valid entries in one PUT of a token that may write, to an empty cache: the server answers
      200 with 1000 inserted, and the last entry is not in the store.  The client takes the write for
      done, and reports 1000. */
  lemma {:induction false} LargeWriteLosesAnEntry(db: Db, token: Token, a: Analysis, now: int)
    requires db.store == map[] && MayWrite(db, token) && Fits(a)
    ensures
      var entries := ManyEntries(1001, a);
      var served := Serve(db, token, BatchPut(entries, false), now);
      && Chunks(entries, 1001) == [entries]
      && served.1 == Inserted(1000) && entries[1000].hash !in served.0.store
      && AfterChunks(map[], [entries], [ANSWERED_AT_ONCE]) == Analyses(served.0.store)
  {
    var entries := ManyEntries(1001, a);
    LargePutIsServed(db, token, a, now);
    ManyEntriesDiffer(a);
    CutOff(entries, a);
    FirstThousand(db, token, entries, now);
  }

  lemma {:induction false} FirstThousand(db: Db, token: Token, entries: seq<Entry>, now: int)
    requires db.store == map[] && |entries| == 1001 && Serve(db, token, BatchPut(entries, false), now).1.Inserted?
    requires DistinctHashes(Capped(entries, BATCH_CAP)) && entries[1000].hash !in HashSet(Capped(entries, BATCH_CAP))
    ensures
      var served := Serve(db, token, BatchPut(entries, false), now);
      && Chunks(entries, 1001) == [entries]
      && served.1 == Inserted(1000) && entries[1000].hash !in served.0.store
      && AfterChunks(map[], [entries], [ANSWERED_AT_ONCE]) == Analyses(served.0.store)
  {
    assert Analyses(db.store) == map[];
    ServedPut(db, token, entries, now);
    KeptOnly(Capped(entries, BATCH_CAP), entries[1000].hash);
    WriteInOneChunk(entries);
    SameHashes(Serve(db, token, BatchPut(entries, false), now).0.store);
  }

  lemma {:induction false} SameHashes(s: Store)
    ensures Analyses(s).Keys == s.Keys
  {
  }

  lemma {:induction false} KeptOnly(kept: seq<Entry>, h: Hash)
    requires DistinctHashes(kept) && h !in HashSet(kept)
    ensures |PutView(map[], kept)| == |kept| && h !in PutView(map[], kept)
  {
    AllAreNew(map[], kept);
    PutAddsOnly(map[], kept);
  }

  lemma {:induction false} LargePutIsServed(db: Db, token: Token, a: Analysis, now: int)
    requires MayWrite(db, token) && Fits(a)
    ensures Serve(db, token, BatchPut(ManyEntries(1001, a), false), now).1.Inserted?
  {
    ManyEntriesAreValid(a);
  }
}
