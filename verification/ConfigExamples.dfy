/** Two sets of layers, under the field tables of the program, on which a promise of the
    configuration fails. */
module ConfigExamples {
  import opened Collections
  import opened TomlTree
  import opened LayerMerge
  import opened ConfigSchema
  import opened ConfigCheck
  import opened ConfigLoad
  import opened FieldTables
  import opened MergeOrder

  /** A file with one key in its [llm] section. */
  function LlmFile(k: string, v: Toml): Toml { Tab(map[LLM := Tab(map[k := v])]) }

  /** One file above another. */
  function TwoFiles(k: string, below: Toml, top: Toml): seq<Toml> { [LlmFile(k, below), LlmFile(k, top)] }

  lemma {:induction false} LlmFileProblem(h: Host, sc: Schema, k: string, v: Toml, q: Path)
    requires SchemaOk(sc) && FieldConv(sc, LLM, k) == Some(BoolC) && (LLM, k) in sc.tuning
    ensures LayerProblem(h, sc, LlmFile(k, v), q) <==> q == [Key(LLM), Key(k)] && !Fits(h, v, BoolC, false)
  {
    assert k !in sc.urlKeys;
    assert LLM != BUILD && LLM != CALL_GRAPH;
    if |q| >= 2 { assert q == [q[0], q[1]] + q[2..] && q[1..][1..] == q[2..]; }
  }

  lemma {:induction false} LlmFileIsAccepted(h: Host, sc: Schema, k: string, v: Toml)
    requires SchemaOk(sc) && FieldConv(sc, LLM, k) == Some(BoolC) && (LLM, k) in sc.tuning
    ensures !Refused(h, sc, LlmFile(k, v))
  {
    forall q ensures !(LayerProblem(h, sc, LlmFile(k, v), q) && Critical(sc, q)) { LlmFileProblem(h, sc, k, v, q); }
  }

  /** The file that sets the key on top is named, the value of the one below it applies. */
  ghost predicate NamesTheWrongFile(h: Host, sc: Schema, layers: seq<Toml>, k: string) {
    && (forall i | 0 <= i < |layers| :: layers[i].Tab? && !Refused(h, sc, layers[i]))
    && TopSetter(layers, LLM, k) == Some(1)
    && Lookup(MergeAll(PreparedAll(h, sc, layers)), LLM, k) == Lookup(layers[0], LLM, k)
    && !SourceAgrees(h, sc, layers, k)
  }

  lemma {:induction false} PreparedValue(h: Host, sc: Schema, k: string, v: Toml)
    requires SchemaOk(sc) && FieldConv(sc, LLM, k) == Some(BoolC) && (LLM, k) in sc.tuning
    ensures LlmFile(k, v).Tab? && !Refused(h, sc, LlmFile(k, v)) && Lookup(LlmFile(k, v), LLM, k) == Some(v)
    ensures Lookup(Prepared(h, sc, LlmFile(k, v)), LLM, k) == if Fits(h, v, BoolC, false) then Some(v) else None
  {
    LlmFileIsAccepted(h, sc, k, v);
    LlmFileProblem(h, sc, k, v, [Key(LLM), Key(k)]);
    PreparedLookup(h, sc, LlmFile(k, v), k);
  }

  lemma {:induction false} TopOfTwo(layers: seq<Toml>, k: string)
    requires |layers| == 2 && Lookup(layers[0], LLM, k).Some?
    ensures TopSetter(layers, LLM, k) == if Lookup(layers[1], LLM, k).Some? then Some(1) else Some(0)
  {
  }

  lemma {:induction false} NumberForAFlag(h: Host, sc: Schema, k: string, below: Toml, top: Toml)
    requires SchemaOk(sc) && FieldConv(sc, LLM, k) == Some(BoolC) && (LLM, k) in sc.tuning
    requires Fits(h, below, BoolC, false) && !Fits(h, top, BoolC, false)
    ensures NamesTheWrongFile(h, sc, TwoFiles(k, below, top), k)
  {
    PreparedValue(h, sc, k, below);
    PreparedValue(h, sc, k, top);
    WrongFile(h, sc, TwoFiles(k, below, top), k);
  }

  lemma {:induction false} WrongFile(h: Host, sc: Schema, layers: seq<Toml>, k: string)
    requires SchemaOk(sc) && FieldConv(sc, LLM, k) == Some(BoolC) && |layers| == 2
    requires forall i | 0 <= i < |layers| :: layers[i].Tab? && !Refused(h, sc, layers[i])
    requires Lookup(layers[0], LLM, k).Some? && Lookup(layers[1], LLM, k).Some? && Lookup(layers[0], LLM, k) != Lookup(layers[1], LLM, k)
    requires Lookup(Prepared(h, sc, layers[0]), LLM, k) == Lookup(layers[0], LLM, k)
    requires Lookup(Prepared(h, sc, layers[1]), LLM, k).None?
    ensures NamesTheWrongFile(h, sc, layers, k)
  {
    var prepared := PreparedAll(h, sc, layers);
    TopOfTwo(layers, k);
    TopOfTwo(prepared, k);
    PreparedIsUsable(h, sc, layers);
    EffectiveIsTop(h, sc, prepared, LLM, k);
  }

  const ENABLED := "enabled"

  lemma {:induction false} EnabledIsAFlag()
    ensures FieldConv(FW_SCHEMA, LLM, ENABLED) == Some(BoolC)
  {
    LlmFieldsTable();
    assert ENABLED in LLM_FIELDS && LLM_FIELDS[ENABLED] == BoolC;
  }

  lemma {:induction false} EnabledIsTuning()
    ensures (LLM, ENABLED) in FW_SCHEMA.tuning
  {
    assert (LLM, ENABLED) == ("llm", "enabled");
  }

  /** `enabled = true` in a file and `enabled = 5` in one above it: both files are accepted, the flag
      is true, and the file named as its source is the one with the 5. */
  lemma {:induction false} FiveForEnabled(h: Host, sc: Schema)
    requires sc == FW_SCHEMA
    ensures NamesTheWrongFile(h, sc, TwoFiles(ENABLED, Bool(true), Int(5)), ENABLED)
  {
    TablesMeetTheConditions();
    EnabledIsAFlag();
    EnabledIsTuning();
    NumberForAFlag(h, sc, ENABLED, Bool(true), Int(5));
  }

  lemma {:induction false} DebugIsUnknown()
    ensures "debug" !in FW_SCHEMA.known
  {
    assert forall s | s in KNOWN_SECTIONS :: s[0] != 'd';
  }

  /** A section [debug]: `[debug] x` as a table, then `debug` as a flag, then as an empty table. */
  lemma {:induction false} DebugSectionBreaksTheGrouping(h: Host)
    ensures
      var a, b, c := Tab(map["debug" := Tab(map["x" := Bool(true)])]), Tab(map["debug" := Bool(true)]), Tab(map["debug" := Tab(map[])]);
      && Usable(h, FW_SCHEMA, a) && Usable(h, FW_SCHEMA, b) && Usable(h, FW_SCHEMA, c)
      && Merge(Merge(a, b), c) != Merge(a, Merge(b, c))
  {
    TablesMeetTheConditions();
    DebugIsUnknown();
    UnknownSectionsBreakTheGrouping(h, FW_SCHEMA, "debug");
  }
}
