/** From the layers to the configuration: the check of each layer, the retired keys, the merge,
    the conversion of the values, and which layer a value came from. */
module ConfigLoad {
  import opened Collections
  import opened TomlTree
  import opened LayerMerge
  import opened PathOrder
  import opened ConfigSchema
  import opened ConfigCheck

  // ---------------------------------------------------------------- the check of one layer (`_check_layer`)

  ghost function Problems(h: Host, sc: Schema, layer: Toml): iset<Path> {
    iset p | LayerProblem(h, sc, layer, p)
  }

  /** `load` raises ConfigError for this layer. */
  ghost predicate Refused(h: Host, sc: Schema, layer: Toml) {
    exists p :: LayerProblem(h, sc, layer, p) && Critical(sc, p)
  }

  ghost function Cleaned(h: Host, sc: Schema, layer: Toml): Toml {
    Prune(layer, Problems(h, sc, layer))
  }

  lemma {:induction false} CleanedIsUsable(h: Host, sc: Schema, layer: Toml)
    requires SchemaOk(sc) && layer.Tab?
    ensures Usable(h, sc, Cleaned(h, sc, layer))
  {
    OnePassIsEnough(h, sc, layer, Problems(h, sc, layer), iset{});
  }

  lemma {:induction false} ProblemsArePrefixFree(h: Host, sc: Schema, layer: Toml, ps: iset<Path>)
    requires SchemaOk(sc) && ps <= Problems(h, sc, layer)
    ensures PrefixFree(ps)
  {
    forall p | p in ps ensures p != [] { ProblemsArePresent(h, sc, layer, p); }
    forall p, q | p in ps && q in ps && p <= q ensures p == q { ProblemsApart(h, sc, layer, p, q); }
  }

  lemma {:induction false} TuningPlacesAreKeys(sc: Schema, p: Path)
    requires !Critical(sc, p)
    ensures forall i | 0 <= i < |p| :: p[i].Key?
  {
  }

  /** One parsed file during `load`: the layer, popped in place, and the warnings so far. */
  class LayerFile {
    var layer: Toml
    var warnings: seq<Path>

    constructor (layer: Toml)
      ensures this.layer == layer && warnings == []
    {
      this.layer := layer;
      warnings := [];
    }

    /** False for a layer that `load` must refuse, which then stays as it was.  True for a layer
        that is now exactly the old one without the values that could not be used. */
    method CheckLayer(h: Host, sc: Schema) returns (ok: bool)
      requires SchemaOk(sc) && layer.Tab?
      modifies this
      ensures ok <==> !Refused(h, sc, old(layer))
      ensures ok ==> layer == Cleaned(h, sc, old(layer))
      ensures ok ==> exists ps :: warnings == old(warnings) + ps && Distinct(ps) && Places(ps) == Problems(h, sc, old(layer))
      ensures !ok ==> layer == old(layer) && warnings == old(warnings)
    {
      var problems := ConfigValueProblems(h, sc, layer);
      ProblemsAreListed(h, sc, layer, problems);
      for n := 0 to |problems|
        invariant forall i | 0 <= i < n :: !problems[i].critical
      {
        if problems[n].critical { return false; }
      }
      DropValues(h, sc, problems);
      ok := true;
    }

    /** The second part: each value goes from its table, with a warning. */
    method DropValues(h: Host, sc: Schema, problems: seq<ValueProblem>)
      requires SchemaOk(sc) && layer.Tab? && Listed(h, sc, layer, problems)
      requires forall i | 0 <= i < |problems| :: !problems[i].critical
      modifies this
      ensures layer == Cleaned(h, sc, old(layer))
      ensures warnings == old(warnings) + PlacesOf(problems)
    {
      ghost var before, ps := layer, PlacesOf(problems);
      ProblemsArePrefixFree(h, sc, before, Places(ps));
      PruneNothing(before);
      assert Places(ps[..0]) == iset{};
      for n := 0 to |problems|
        invariant layer == Prune(before, Places(ps[..n]))
        invariant warnings == old(warnings) + ps[..n]
      {
        ListedAt(h, sc, before, problems, n);
        NextPop(h, sc, before, ps, n);
        layer := RemoveAt(layer, problems[n].keys).value;
        warnings := warnings + [problems[n].keys];
      }
      assert ps[..|ps|] == ps;
    }
  }

  /** A list of exactly the problems of the layer, each once, with its flags. */
  ghost predicate Listed(h: Host, sc: Schema, t: Toml, problems: seq<ValueProblem>) {
    && WellListed(sc, problems) && Distinct(PlacesOf(problems))
    && Places(PlacesOf(problems)) == Problems(h, sc, t)
  }

  lemma {:induction false} ListedAt(h: Host, sc: Schema, t: Toml, problems: seq<ValueProblem>, n: nat)
    requires Listed(h, sc, t, problems) && n < |problems|
    ensures PlacesOf(problems)[n] == problems[n].keys && LayerProblem(h, sc, t, problems[n].keys)
    ensures problems[n].critical <==> Critical(sc, problems[n].keys)
  {
    assert PlacesOf(problems)[n] in Places(PlacesOf(problems));
  }

  lemma {:induction false} ProblemsAreListed(h: Host, sc: Schema, t: Toml, problems: seq<ValueProblem>)
    requires SchemaOk(sc) && t.Tab? && WellListed(sc, problems)
    requires forall p :: p in KeySet(problems) <==> LayerProblem(h, sc, t, p)
    ensures Listed(h, sc, t, problems)
    ensures Refused(h, sc, t) <==> exists i :: 0 <= i < |problems| && problems[i].critical
  {
    assert Places(PlacesOf(problems)) == Problems(h, sc, t);
    forall i | 0 <= i < |problems| ensures LayerProblem(h, sc, t, problems[i].keys) && (problems[i].critical <==> Critical(sc, problems[i].keys)) {
      ListedAt(h, sc, t, problems, i);
    }
    if Refused(h, sc, t) {
      var p :| p in Problems(h, sc, t) && Critical(sc, p);
      assert p in KeySet(problems);
      var i :| 0 <= i < |PlacesOf(problems)| && PlacesOf(problems)[i] == p;
      assert problems[i].critical;
    }
  }

  lemma {:induction false} NextPop(h: Host, sc: Schema, t: Toml, ps: seq<Path>, n: nat)
    requires n < |ps| && Distinct(ps) && PrefixFree(Places(ps)) && ps[n] != []
    requires LayerProblem(h, sc, t, ps[n]) && !Critical(sc, ps[n])
    ensures RemoveAt(Prune(t, Places(ps[..n])), ps[n]) == Some(Prune(t, Places(ps[..n + 1])))
    ensures ps[..n + 1] == ps[..n] + [ps[n]]
  {
    var done, p := Places(ps[..n]), ps[n];
    assert ps[..n + 1] == ps[..n] + [p];
    assert Places(ps[..n + 1]) == done + iset{p};
    assert done + iset{p} <= Places(ps);
    ProblemsArePresent(h, sc, t, p);
    TuningPlacesAreKeys(sc, p);
    forall q | q in done ensures Undisturbed(p, q) { KeyPlacesAreUndisturbed(p, q); }
    RemoveOneMore(t, done, p);
  }

  // ---------------------------------------------------------------- the retired keys

  function DropFrom(t: Toml, keys: set<string>): Toml {
    if t.Tab? then Tab(t.entries - keys) else t
  }

  function DropFromEach(t: Toml, keys: set<string>): Toml {
    if t.Arr? then Arr(seq(|t.items|, i requires 0 <= i < |t.items| => DropFrom(t.items[i], keys))) else t
  }

  /** `keys` go from every table of [[build.variants]]. */
  function DropInVariants(layer: Toml, keys: set<string>): Toml {
    if layer.Tab? && BUILD in layer.entries && layer.entries[BUILD].Tab? && VARIANTS in layer.entries[BUILD].entries then
      Tab(layer.entries[BUILD := Tab(layer.entries[BUILD].entries[VARIANTS := DropFromEach(layer.entries[BUILD].entries[VARIANTS], keys)])])
    else layer
  }

  function DropInSection(layer: Toml, s: string, keys: set<string>): Toml {
    if layer.Tab? && s in layer.entries then Tab(layer.entries[s := DropFrom(layer.entries[s], keys)]) else layer
  }

  const RETIRED_INDEX_KEYS := {"query_driver", "query_driver_extra", "query_driver_auto"}
  const RETIRED_SELECTION_KEYS := {"default_variant", "default_image"}

  /** `_drop_retired_keys` and then `_drop_selection_keys`. */
  function Drop(layer: Toml): Toml {
    var l1 := DropInVariants(DropInSection(layer, INDEX, RETIRED_INDEX_KEYS), RETIRED_INDEX_KEYS);
    DropInVariants(DropInSection(l1, BUILD, RETIRED_SELECTION_KEYS), RETIRED_SELECTION_KEYS)
  }

  lemma {:induction false} DropInSectionUsable(h: Host, sc: Schema, layer: Toml, s: string, keys: set<string>)
    requires Usable(h, sc, layer)
    ensures Usable(h, sc, DropInSection(layer, s, keys))
  {
    var r := DropInSection(layer, s, keys);
    forall q: Path ensures LayerProblem(h, sc, r, q) ==> LayerProblem(h, sc, layer, q) {
      if q != [] && q[0].Key? && q[0].k == s && s in layer.entries && layer.entries[s].Tab? {
        assert SectionProblem(h, sc, s, r.entries[s], q[1..]) ==> SectionProblem(h, sc, s, layer.entries[s], q[1..]);
      }
    }
  }

  lemma {:induction false} DropInVariantsUsable(h: Host, sc: Schema, layer: Toml, keys: set<string>)
    requires Usable(h, sc, layer) && SchemaOk(sc) && NAME !in keys
    ensures Usable(h, sc, DropInVariants(layer, keys))
  {
    var r := DropInVariants(layer, keys);
    if layer.Tab? && BUILD in layer.entries && layer.entries[BUILD].Tab? && VARIANTS in layer.entries[BUILD].entries {
      var before, after := layer.entries[BUILD].entries[VARIANTS], r.entries[BUILD].entries[VARIANTS];
      forall q: Path ensures VariantsProblem(h, sc, after, q) ==> VariantsProblem(h, sc, before, q) {
        if before.Arr? && q != [] && q[0].Pos? && q[0].i < |before.items| {
          DroppedVariant(h, sc, before.items[q[0].i], keys, q[1..]);
        }
      }
      forall q: Path ensures LayerProblem(h, sc, r, q) ==> LayerProblem(h, sc, layer, q) {
        if q != [] && q[0] == Key(BUILD) && q[1..] != [] && q[1] == Key(VARIANTS) {
          assert q[1..][0] == q[1];
          assert BUILD != LLM && BUILD != CALL_GRAPH;
          assert FieldProblem(h, sc, BUILD, VARIANTS, after, q[1..][1..]) ==> FieldProblem(h, sc, BUILD, VARIANTS, before, q[1..][1..]);
        }
      }
    }
  }

  lemma {:induction false} DroppedVariant(h: Host, sc: Schema, v: Toml, keys: set<string>, q: Path)
    requires NAME !in keys
    ensures VariantProblem(h, sc, DropFrom(v, keys), q) ==> VariantProblem(h, sc, v, q)
  {
    if v.Tab? { assert HasName(DropFrom(v, keys)) == HasName(v); }
  }

  lemma {:induction false} DropUsable(h: Host, sc: Schema, layer: Toml)
    requires Usable(h, sc, layer) && SchemaOk(sc)
    ensures Usable(h, sc, Drop(layer))
  {
    assert |NAME| < |"query_driver"| < |"default_variant"| && |NAME| < |"default_image"|;
    assert |NAME| < |"query_driver_extra"| && |NAME| < |"query_driver_auto"|;
    assert NAME !in RETIRED_INDEX_KEYS && NAME !in RETIRED_SELECTION_KEYS;
    var l1 := DropInSection(layer, INDEX, RETIRED_INDEX_KEYS);
    DropInSectionUsable(h, sc, layer, INDEX, RETIRED_INDEX_KEYS);
    DropInVariantsUsable(h, sc, l1, RETIRED_INDEX_KEYS);
    var l2 := DropInVariants(l1, RETIRED_INDEX_KEYS);
    DropInSectionUsable(h, sc, l2, BUILD, RETIRED_SELECTION_KEYS);
    DropInVariantsUsable(h, sc, DropInSection(l2, BUILD, RETIRED_SELECTION_KEYS), RETIRED_SELECTION_KEYS);
  }

  // ---------------------------------------------------------------- the merge keeps a layer usable

  lemma {:induction false} MergeFits(h: Host, a: Toml, b: Toml, c: Conv)
    requires Fits(h, a, c, false) && Fits(h, b, c, false)
    ensures Fits(h, Merge(a, b), c, false)
  {
    if a.Tab? && b.Tab? {
      forall k | k in Merge(a, b).entries
        ensures Merge(a, b).entries[k] == if k in b.entries then b.entries[k] else a.entries[k]
      {
      }
    }
  }

  lemma {:induction false} FieldMerge(h: Host, sc: Schema, s: string, k: string, a: Toml, b: Toml, q: Path)
    requires SchemaOk(sc)
    requires forall u :: !FieldProblem(h, sc, s, k, a, u)
    requires forall u :: !FieldProblem(h, sc, s, k, b, u)
    ensures !FieldProblem(h, sc, s, k, Merge(a, b), q)
  {
    assert !FieldProblem(h, sc, s, k, a, []) && !FieldProblem(h, sc, s, k, b, []) && !FieldProblem(h, sc, s, k, b, q);
    if a.Tab? && b.Tab? {
      if FieldConv(sc, s, k).Some? { MergeFits(h, a, b, FieldConv(sc, s, k).value); }
      if s == CALL_GRAPH && k == DISPATCH_BRIDGES { MergeFits(h, a, b, StrTableC); }
    }
  }

  lemma {:induction false} UsableField(h: Host, sc: Schema, layer: Toml, s: string, k: string)
    requires Usable(h, sc, layer) && s in layer.entries && layer.entries[s].Tab? && k in layer.entries[s].entries
    ensures forall u :: !FieldProblem(h, sc, s, k, layer.entries[s].entries[k], u)
  {
    forall u: Path ensures !FieldProblem(h, sc, s, k, layer.entries[s].entries[k], u) {
      var q := [Key(s), Key(k)] + u;
      assert q[1..][1..] == u && q[0] == Key(s) && q[1..][0] == Key(k);
      assert !LayerProblem(h, sc, layer, q);
    }
  }

  lemma {:induction false} UsableSection(h: Host, sc: Schema, layer: Toml, s: string)
    requires Usable(h, sc, layer) && s in layer.entries && s in sc.known
    ensures layer.entries[s].Tab?
  {
    assert [Key(s)][1..] == [];
    assert !LayerProblem(h, sc, layer, [Key(s)]);
  }

  /** The merge of two usable layers is usable. */
  lemma {:induction false} MergeIsUsable(h: Host, sc: Schema, a: Toml, b: Toml)
    requires SchemaOk(sc) && Usable(h, sc, a) && Usable(h, sc, b)
    ensures Usable(h, sc, Merge(a, b))
  {
    forall q: Path ensures !LayerProblem(h, sc, Merge(a, b), q) {
      if q != [] && q[0].Key? && q[0].k in Merge(a, b).entries {
        MergedSection(h, sc, a, b, q[0].k, q[1..]);
      }
    }
  }

  lemma {:induction false} MergedSection(h: Host, sc: Schema, a: Toml, b: Toml, s: string, q: Path)
    requires SchemaOk(sc) && Usable(h, sc, a) && Usable(h, sc, b) && s in Merge(a, b).entries
    ensures !SectionProblem(h, sc, s, Merge(a, b).entries[s], q)
  {
    var whole := [Key(s)] + q;
    assert whole[1..] == q;
    assert !LayerProblem(h, sc, a, whole) && !LayerProblem(h, sc, b, whole);
    if s in a.entries && s in b.entries && a.entries[s].Tab? && b.entries[s].Tab? {
      var ta, tb := a.entries[s], b.entries[s];
      if q != [] && q[0].Key? && q[0].k in ta.entries && q[0].k in tb.entries {
        var k := q[0].k;
        UsableField(h, sc, a, s, k);
        UsableField(h, sc, b, s, k);
        FieldMerge(h, sc, s, k, ta.entries[k], tb.entries[k], q[1..]);
      }
    }
  }

  lemma {:induction false} MergeAllIsUsable(h: Host, sc: Schema, layers: seq<Toml>)
    requires SchemaOk(sc) && forall i | 0 <= i < |layers| :: Usable(h, sc, layers[i])
    ensures Usable(h, sc, MergeAll(layers))
    decreases |layers|
  {
    if layers != [] {
      MergeAllIsUsable(h, sc, layers[..|layers| - 1]);
      MergeIsUsable(h, sc, MergeAll(layers[..|layers| - 1]), layers[|layers| - 1]);
    }
  }

  // ---------------------------------------------------------------- which layer a value comes from

  function Lookup(t: Toml, s: string, k: string): Option<Toml> {
    if t.Tab? && s in t.entries && t.entries[s].Tab? && k in t.entries[s].entries
    then Some(t.entries[s].entries[k]) else None
  }

  /** The last layer that sets `[s] k`. */
  function TopSetter(layers: seq<Toml>, s: string, k: string): (r: Option<nat>)
    ensures r.Some? ==> r.value < |layers| && Lookup(layers[r.value], s, k).Some?
    ensures forall i | 0 <= i < |layers| && (r.None? || r.value < i) :: Lookup(layers[i], s, k).None?
  {
    if layers == [] then None
    else if Lookup(layers[|layers| - 1], s, k).Some? then Some(|layers| - 1)
    else TopSetter(layers[..|layers| - 1], s, k)
  }

  lemma {:induction false} LookupMerge(a: Toml, b: Toml, s: string, k: string)
    requires a.Tab? && b.Tab?
    requires s in a.entries ==> a.entries[s].Tab?
    requires s in b.entries ==> b.entries[s].Tab?
    requires Lookup(b, s, k).Some? ==> !Lookup(b, s, k).value.Tab?
    ensures Lookup(Merge(a, b), s, k) == if Lookup(b, s, k).Some? then Lookup(b, s, k) else Lookup(a, s, k)
  {
    if s in a.entries && s in b.entries {
      var ta, tb := a.entries[s], b.entries[s];
      assert Merge(a, b).entries[s] == Merge(ta, tb);
      if k in ta.entries && k in tb.entries { assert Merge(ta.entries[k], tb.entries[k]) == tb.entries[k]; }
    }
  }

  /** For a key whose value is not a table, the merged value is the value of the last layer that
      sets the key. */
  lemma {:induction false} EffectiveIsTop(h: Host, sc: Schema, layers: seq<Toml>, s: string, k: string)
    requires SchemaOk(sc) && forall i | 0 <= i < |layers| :: Usable(h, sc, layers[i])
    requires FieldConv(sc, s, k).Some? && !IsTable(FieldConv(sc, s, k).value)
    ensures Lookup(MergeAll(layers), s, k) ==
              match TopSetter(layers, s, k) case None => None case Some(i) => Lookup(layers[i], s, k)
    decreases |layers|
  {
    if layers != [] {
      var below, top := layers[..|layers| - 1], layers[|layers| - 1];
      EffectiveIsTop(h, sc, below, s, k);
      MergeAllIsUsable(h, sc, below);
      if s in top.entries { UsableSection(h, sc, top, s); }
      if s in MergeAll(below).entries { UsableSection(h, sc, MergeAll(below), s); }
      if Lookup(top, s, k).Some? {
        UsableField(h, sc, top, s, k);
        assert !FieldProblem(h, sc, s, k, Lookup(top, s, k).value, []);
      }
      LookupMerge(MergeAll(below), top, s, k);
    }
  }

  // ---------------------------------------------------------------- the load of all layers

  ghost function Prepared(h: Host, sc: Schema, layer: Toml): Toml {
    Drop(Cleaned(h, sc, layer))
  }

  ghost function PreparedAll(h: Host, sc: Schema, layers: seq<Toml>): (r: seq<Toml>)
    ensures |r| == |layers|
    ensures forall i | 0 <= i < |layers| :: r[i] == Prepared(h, sc, layers[i])
  {
    seq(|layers|, i requires 0 <= i < |layers| => Prepared(h, sc, layers[i]))
  }

  lemma {:induction false} PreparedIsUsable(h: Host, sc: Schema, layers: seq<Toml>)
    requires SchemaOk(sc) && forall i | 0 <= i < |layers| :: layers[i].Tab?
    ensures forall i | 0 <= i < |layers| :: Usable(h, sc, PreparedAll(h, sc, layers)[i])
    ensures Usable(h, sc, MergeAll(PreparedAll(h, sc, layers)))
  {
    forall i | 0 <= i < |layers| ensures Usable(h, sc, PreparedAll(h, sc, layers)[i]) {
      CleanedIsUsable(h, sc, layers[i]);
      DropUsable(h, sc, Cleaned(h, sc, layers[i]));
    }
    MergeAllIsUsable(h, sc, PreparedAll(h, sc, layers));
  }

  // ---------------------------------------------------------------- the conversion of the values (`_convert`, `_from_dict`)

  datatype Setting =
    | SText(text: string)
    | SFlag(flag: bool)
    | SList(list: seq<Toml>)
    | STable(table: map<string, Toml>)
    | SPath(path: string)
    | SInt(whole: int)
    | SReal(number: real)

  predicate Truthy(v: Toml) {
    match v
    case Str(s) => s != ""
    case Int(i) => i != 0
    case Float(f) => f != 0.0
    case Bool(b) => b
    case Date(_) => true
    case Arr(xs) => xs != []
    case Tab(m) => m != map[]
  }

  /** None stands for an exception, or for a value that is not of the type of the setting. */
  function Convert(h: Host, v: Toml, c: Conv): Option<Setting> {
    match c
    case StrC => if v.Str? then Some(SText(v.s)) else None
    case BoolC => Some(SFlag(if v.Str? then h.fold(v.s) in TRUE_STRINGS else Truthy(v)))
    case ListC => if v.Str? then Some(SList([v])) else if v.Arr? then Some(SList(v.items)) else None
    case DictC => if v.Tab? then Some(STable(v.entries)) else None
    case StrTableC => if v.Tab? then Some(STable(v.entries)) else None
    case PathC => if v.Str? && h.expand(v.s).Some? then Some(SPath(h.expand(v.s).value)) else None
    case IntC =>
      if v.Int? then Some(SInt(v.i))
      else if v.Str? && h.intOf(v.s).Some? then Some(SInt(h.intOf(v.s).value)) else None
    case FloatC =>
      if v.Int? then Some(SReal(v.i as real))
      else if v.Float? then Some(SReal(v.f))
      else if v.Str? && h.floatOf(v.s).Some? then Some(SReal(h.floatOf(v.s).value)) else None
  }

  /** Every applied value of `data` converts. */
  ghost predicate Convertible(h: Host, sc: Schema, applied: set<string>, data: Toml) {
    forall s, k | s in applied && FieldConv(sc, s, k).Some? && Lookup(data, s, k).Some? ::
      Convert(h, Lookup(data, s, k).value, FieldConv(sc, s, k).value).Some?
  }

  lemma {:induction false} UsableIsConvertible(h: Host, sc: Schema, applied: set<string>, data: Toml)
    requires Usable(h, sc, data)
    ensures Convertible(h, sc, applied, data)
  {
    forall s, k | s in applied && FieldConv(sc, s, k).Some? && Lookup(data, s, k).Some?
      ensures Convert(h, Lookup(data, s, k).value, FieldConv(sc, s, k).value).Some?
    {
      UsableField(h, sc, data, s, k);
      assert !FieldProblem(h, sc, s, k, data.entries[s].entries[k], []);
    }
  }

  /** The settings under construction. */
  class Config {
    var fields: map<(string, string), Setting>

    constructor ()
      ensures fields == map[]
    {
      fields := map[];
    }

    /** False stands for the exception of a value that does not convert. */
    method ApplySection(h: Host, sc: Schema, data: Toml, section: string) returns (ok: bool)
      requires section in sc.sections && data.Tab?
      modifies this
      ensures ok <==> Convertible(h, sc, {section}, data)
      ensures ok ==> forall s, k :: (s, k) in fields <==>
                       (s, k) in old(fields) || (s == section && k in sc.sections[s] && Lookup(data, s, k).Some?)
      ensures ok ==> forall s, k | (s, k) in fields ::
                       fields[(s, k)] == (if s == section && k in sc.sections[s] && Lookup(data, s, k).Some?
                                          then Convert(h, Lookup(data, s, k).value, sc.sections[s][k]).value
                                          else old(fields)[(s, k)])
    {
      var todo := sc.sections[section].Keys;
      while todo != {}
        invariant todo <= sc.sections[section].Keys
        invariant forall k | k in sc.sections[section] && k !in todo && Lookup(data, section, k).Some? ::
            Convert(h, Lookup(data, section, k).value, sc.sections[section][k]).Some?
        invariant forall s, k :: (s, k) in fields <==>
            ((s, k) in old(fields)
              || (s == section && k in sc.sections[s] && k !in todo && Lookup(data, s, k).Some?))
        invariant forall s, k | (s, k) in fields ::
            fields[(s, k)] == (if s == section && k in sc.sections[s] && k !in todo && Lookup(data, s, k).Some?
                               then Convert(h, Lookup(data, s, k).value, sc.sections[s][k]).value
                               else old(fields)[(s, k)])
        decreases todo
      {
        var key :| key in todo;
        if Lookup(data, section, key).Some? {
          match Convert(h, Lookup(data, section, key).value, sc.sections[section][key])
          case None =>
            assert FieldConv(sc, section, key).Some?;
            return false;
          case Some(setting) => fields := fields[(section, key) := setting];
        }
        todo := todo - {key};
      }
      ok := true;
    }

    /** `_from_dict` for the sections in `applied`. */
    method FromDict(h: Host, sc: Schema, data: Toml, applied: set<string>) returns (ok: bool)
      requires applied <= sc.sections.Keys && data.Tab? && fields == map[]
      modifies this
      ensures ok <==> Convertible(h, sc, applied, data)
      ensures ok ==> forall s, k :: (s, k) in fields <==>
                       s in applied && FieldConv(sc, s, k).Some? && Lookup(data, s, k).Some?
      ensures ok ==> forall s, k | (s, k) in fields ::
                       Some(fields[(s, k)]) == Convert(h, Lookup(data, s, k).value, FieldConv(sc, s, k).value)
    {
      var todo := applied;
      while todo != {}
        invariant todo <= applied
        invariant Convertible(h, sc, applied - todo, data)
        invariant forall s, k :: (s, k) in fields <==>
            (s in applied - todo && FieldConv(sc, s, k).Some? && Lookup(data, s, k).Some?)
        invariant forall s, k | (s, k) in fields ::
            Some(fields[(s, k)]) == Convert(h, Lookup(data, s, k).value, FieldConv(sc, s, k).value)
        decreases todo
      {
        var section :| section in todo;
        var one := ApplySection(h, sc, data, section);
        if !one {
          assert {section} <= applied;
          return false;
        }
        todo := todo - {section};
        assert forall s, k | s in applied - todo && s == section && FieldConv(sc, s, k).Some? && Lookup(data, s, k).Some? ::
            s in {section};
      }
      assert applied - todo == applied;
      ok := true;
    }
  }

  // ---------------------------------------------------------------- the variants (`_build_variants`)

  datatype BuildImage = BuildImage(name: Toml, description: Toml, dir: Toml, kind: Toml, board: Option<Toml>)

  datatype BuildVariant = BuildVariant(
    name: Toml, description: Toml, board: Option<Toml>, buildDir: Option<Toml>,
    env: map<string, Toml>, images: seq<BuildImage>,
    overrides: map<string, Toml>, indexOverrides: map<string, Toml>)

  const VARIANT_SPECIFIC := {"name", "description", "board", "build_dir", "env", "images"}

  function Get(m: map<string, Toml>, k: string): Option<Toml> {
    if k in m then Some(m[k]) else None
  }

  function GetOr(m: map<string, Toml>, k: string, default: Toml): Toml {
    if k in m then m[k] else default
  }

  function ImageOf(img: map<string, Toml>): BuildImage {
    BuildImage(GetOr(img, NAME, Str("")), GetOr(img, "description", Str("")), GetOr(img, "dir", Str("")),
               GetOr(img, "type", Str("project")), Get(img, "board"))
  }

  predicate TablesOnly(v: Toml) {
    v.Arr? && forall i | 0 <= i < |v.items| :: v.items[i].Tab?
  }

  /** The reads of one entry of [[build.variants]] raise nothing. */
  predicate VariantReadable(v: Toml) {
    && v.Tab? && NAME in v.entries
    && (IMAGES in v.entries && Truthy(v.entries[IMAGES]) ==> TablesOnly(v.entries[IMAGES]))
    && ("env" in v.entries && Truthy(v.entries["env"]) ==> v.entries["env"].Tab?)
  }

  function RawVariants(data: Toml): Toml {
    match Lookup(data, BUILD, VARIANTS) case None => Arr([]) case Some(v) => v
  }

  predicate VariantsReadable(data: Toml) {
    var raw := RawVariants(data);
    Truthy(raw) ==> raw.Arr? && forall i | 0 <= i < |raw.items| :: VariantReadable(raw.items[i])
  }

  /** `b` is the variant that table `t` describes: every key that is not one of the variant's own
      goes to exactly one of the two override tables, with its value. */
  ghost predicate Describes(sc: Schema, t: Toml, b: BuildVariant)
    requires VariantReadable(t)
  {
    var m := t.entries;
    && b.name == m[NAME] && b.description == GetOr(m, "description", Str(""))
    && b.board == Get(m, "board") && b.buildDir == Get(m, "build_dir")
    && b.env == (if "env" in m && m["env"].Tab? then m["env"].entries else map[])
    && (if IMAGES in m && m[IMAGES].Arr? && TablesOnly(m[IMAGES]) then
          |b.images| == |m[IMAGES].items| && forall i | 0 <= i < |b.images| :: b.images[i] == ImageOf(m[IMAGES].items[i].entries)
        else b.images == [])
    && b.overrides.Keys !! b.indexOverrides.Keys
    && (forall k | k in b.indexOverrides :: FieldConv(sc, INDEX, k).Some?)
    && (forall k | k in b.overrides :: FieldConv(sc, INDEX, k).None?)
    && b.overrides + b.indexOverrides == m - VARIANT_SPECIFIC
  }

  /** The last loop of `_build_variants`: the fields that are not specific to a variant override the
      index settings, or the variant's own ones where [index] has no such field. */
  method SplitOverrides(sc: Schema, m: map<string, Toml>) returns (overrides: map<string, Toml>, indexOverrides: map<string, Toml>)
    ensures overrides.Keys !! indexOverrides.Keys
    ensures forall k | k in indexOverrides :: FieldConv(sc, INDEX, k).Some?
    ensures forall k | k in overrides :: FieldConv(sc, INDEX, k).None?
    ensures overrides + indexOverrides == m - VARIANT_SPECIFIC
  {
    overrides, indexOverrides := map[], map[];
    var todo := m.Keys;
    while todo != {}
      invariant todo <= m.Keys
      invariant forall k :: k in indexOverrides <==> k in m && k !in todo && k !in VARIANT_SPECIFIC && FieldConv(sc, INDEX, k).Some?
      invariant forall k :: k in overrides <==> k in m && k !in todo && k !in VARIANT_SPECIFIC && FieldConv(sc, INDEX, k).None?
      invariant forall k | k in indexOverrides :: indexOverrides[k] == m[k]
      invariant forall k | k in overrides :: overrides[k] == m[k]
      decreases todo
    {
      var key :| key in todo;
      if key !in VARIANT_SPECIFIC {
        if FieldConv(sc, INDEX, key).Some? {
          indexOverrides := indexOverrides[key := m[key]];
        } else {
          overrides := overrides[key := m[key]];
        }
      }
      todo := todo - {key};
    }
  }

  method ReadVariant(sc: Schema, t: Toml) returns (r: Option<BuildVariant>)
    ensures r.Some? <==> VariantReadable(t)
    ensures r.Some? ==> Describes(sc, t, r.value)
  {
    if !t.Tab? || NAME !in t.entries { return None; }
    var m := t.entries;
    var images: seq<BuildImage> := [];
    if IMAGES in m && Truthy(m[IMAGES]) {
      if !m[IMAGES].Arr? { return None; }
      var raw := m[IMAGES].items;
      for i := 0 to |raw|
        invariant |images| == i
        invariant forall j | 0 <= j < i :: raw[j].Tab? && images[j] == ImageOf(raw[j].entries)
      {
        if !raw[i].Tab? { return None; }
        images := images + [ImageOf(raw[i].entries)];
      }
    }
    var env: map<string, Toml> := map[];
    if "env" in m && Truthy(m["env"]) {
      if !m["env"].Tab? { return None; }
      env := m["env"].entries;
    }
    var overrides, indexOverrides := SplitOverrides(sc, m);
    r := Some(BuildVariant(m[NAME], GetOr(m, "description", Str("")), Get(m, "board"), Get(m, "build_dir"),
                           env, images, overrides, indexOverrides));
  }

  /** None stands for the exception of a file whose variants cannot be read. */
  method BuildVariants(sc: Schema, data: Toml) returns (r: Option<seq<BuildVariant>>)
    ensures r.Some? <==> VariantsReadable(data)
    ensures r.Some? && Truthy(RawVariants(data)) ==>
              var items := RawVariants(data).items;
              |r.value| == |items| && forall i | 0 <= i < |items| :: Describes(sc, items[i], r.value[i])
    ensures r.Some? && !Truthy(RawVariants(data)) ==> r.value == []
  {
    var raw := RawVariants(data);
    if !Truthy(raw) { return Some([]); }
    if !raw.Arr? { return None; }
    var variants: seq<BuildVariant> := [];
    for i := 0 to |raw.items|
      invariant |variants| == i
      invariant forall j | 0 <= j < i :: VariantReadable(raw.items[j]) && Describes(sc, raw.items[j], variants[j])
    {
      var one := ReadVariant(sc, raw.items[i]);
      if one.None? { return None; }
      variants := variants + [one.value];
    }
    r := Some(variants);
  }

  lemma {:induction false} UsableVariantsAreReadable(h: Host, sc: Schema, data: Toml)
    requires SchemaOk(sc) && Usable(h, sc, data)
    requires VariantConv(sc, "env") == Some(StrTableC)
    ensures VariantsReadable(data)
    ensures RawVariants(data).Arr? && forall i | 0 <= i < |RawVariants(data).items| :: HasName(RawVariants(data).items[i])
  {
    var raw := RawVariants(data);
    if Lookup(data, BUILD, VARIANTS).Some? {
      UsableField(h, sc, data, BUILD, VARIANTS);
      assert !FieldProblem(h, sc, BUILD, VARIANTS, raw, []);
      assert BUILD != LLM && BUILD != CALL_GRAPH;
      forall i | 0 <= i < |raw.items| ensures HasName(raw.items[i]) && VariantReadable(raw.items[i]) {
        forall u: Path ensures !VariantProblem(h, sc, raw.items[i], u) {
          assert ([Pos(i)] + u)[1..] == u;
          assert !FieldProblem(h, sc, BUILD, VARIANTS, raw, [Pos(i)] + u);
        }
        CleanVariantIsReadable(h, sc, raw.items[i]);
      }
    }
  }

  lemma {:induction false} CleanVariantIsReadable(h: Host, sc: Schema, v: Toml)
    requires forall u :: !VariantProblem(h, sc, v, u)
    requires VariantConv(sc, "env") == Some(StrTableC)
    ensures HasName(v) && VariantReadable(v)
  {
    assert !VariantProblem(h, sc, v, []);
    if "env" in v.entries {
      assert "env"[0] != IMAGES[0];
      assert [Key("env")][1..] == [];
      assert !VariantProblem(h, sc, v, [Key("env")]);
    }
    if IMAGES in v.entries {
      assert [Key(IMAGES)][1..] == [];
      assert !VariantProblem(h, sc, v, [Key(IMAGES)]);
      var imgs := v.entries[IMAGES];
      forall j | 0 <= j < |imgs.items| ensures imgs.items[j].Tab? {
        var u := [Key(IMAGES), Pos(j)];
        assert u[1..] == [Pos(j)] && u[1..][1..] == [];
        assert !VariantProblem(h, sc, v, u);
      }
    }
  }

  /** The layers that `load` accepts give a configuration: every value of the merged document
      converts and every variant can be read, whatever the layers hold. */
  lemma {:induction false} AcceptedLayersGiveAConfig(h: Host, sc: Schema, layers: seq<Toml>)
    requires SchemaOk(sc) && VariantConv(sc, "env") == Some(StrTableC)
    requires forall i | 0 <= i < |layers| :: layers[i].Tab?
    ensures
      var data := MergeAll(PreparedAll(h, sc, layers));
      && data.Tab? && Usable(h, sc, data)
      && Convertible(h, sc, sc.sections.Keys, data)
      && VariantsReadable(data)
  {
    PreparedIsUsable(h, sc, layers);
    var data := MergeAll(PreparedAll(h, sc, layers));
    UsableIsConvertible(h, sc, sc.sections.Keys, data);
    UsableVariantsAreReadable(h, sc, data);
  }

  // ---------------------------------------------------------------- where a backend key comes from (`llm_key_sources`)

  method SetFrom(table: map<string, Toml>, keys: set<string>, n: nat, sources: map<string, nat>) returns (r: map<string, nat>)
    ensures forall k :: k in r <==> k in sources || (k in keys && k in table)
    ensures forall k | k in r :: r[k] == if k in keys && k in table then n else sources[k]
  {
    r := sources;
    var todo := keys;
    while todo != {}
      invariant todo <= keys
      invariant forall k :: k in r <==> k in sources || (k in keys && k !in todo && k in table)
      invariant forall k | k in r :: r[k] == if k in keys && k !in todo && k in table then n else sources[k]
      decreases todo
    {
      var key :| key in todo;
      if key in table { r := r[key := n]; }
      todo := todo - {key};
    }
  }

  /** The last file that sets each of `keys` in [llm]. */
  method LlmKeySources(layers: seq<Toml>, keys: set<string>) returns (sources: map<string, nat>)
    ensures forall k :: k in sources <==> k in keys && TopSetter(layers, LLM, k).Some?
    ensures forall k | k in sources :: TopSetter(layers, LLM, k) == Some(sources[k])
  {
    sources := map[];
    for n := 0 to |layers|
      invariant forall k :: k in sources <==> k in keys && TopSetter(layers[..n], LLM, k).Some?
      invariant forall k | k in sources :: TopSetter(layers[..n], LLM, k) == Some(sources[k])
    {
      assert layers[..n + 1][..n] == layers[..n];
      if layers[n].Tab? && LLM in layers[n].entries && layers[n].entries[LLM].Tab? {
        sources := SetFrom(layers[n].entries[LLM].entries, keys, n, sources);
      }
    }
    assert layers[..|layers|] == layers;
  }

  /** The file that `llm_key_sources` names holds the value that applies, and it names one exactly
      when a value applies. */
  ghost predicate SourceAgrees(h: Host, sc: Schema, layers: seq<Toml>, k: string) {
    var applied := Lookup(MergeAll(PreparedAll(h, sc, layers)), LLM, k);
    match TopSetter(layers, LLM, k)
    case None => applied.None?
    case Some(i) => applied == Lookup(layers[i], LLM, k)
  }

  lemma {:induction false} DropKeepsLlm(layer: Toml, k: string)
    requires layer.Tab?
    ensures Lookup(Drop(layer), LLM, k) == Lookup(layer, LLM, k)
  {
    assert LLM != BUILD && LLM != INDEX;
  }

  lemma {:induction false} PruneLookup(t: Toml, ps: iset<Path>, s: string, k: string)
    requires t.Tab? && (s in t.entries ==> t.entries[s].Tab? && [Key(s)] !in ps)
    requires forall u: Path | u != [] :: [Key(s), Key(k)] + u !in ps
    ensures Lookup(Prune(t, ps), s, k) == if [Key(s), Key(k)] in ps then None else Lookup(t, s, k)
  {
    if s in t.entries {
      var below := Tails(ps, Key(s));
      assert [Key(s)] + [Key(k)] == [Key(s), Key(k)];
      assert Prune(t, ps).entries[s] == Prune(t.entries[s], below);
      if k in t.entries[s].entries && [Key(k)] !in below {
        forall u: Path ensures u !in Tails(below, Key(k)) {
          assert [Key(s)] + ([Key(k)] + u) == [Key(s), Key(k)] + u;
          assert u == [] ==> [Key(k)] + u == [Key(k)];
        }
        assert Tails(below, Key(k)) == iset{};
        PruneNothing(t.entries[s].entries[k]);
      }
    }
  }

  lemma {:induction false} CleanedLookup(h: Host, sc: Schema, layer: Toml, s: string, k: string)
    requires SchemaOk(sc) && layer.Tab? && !(s == BUILD && k == VARIANTS)
    requires s in layer.entries ==> layer.entries[s].Tab?
    ensures Lookup(Cleaned(h, sc, layer), s, k) ==
              if LayerProblem(h, sc, layer, [Key(s), Key(k)]) then None else Lookup(layer, s, k)
  {
    forall u: Path ensures u == [] || !LayerProblem(h, sc, layer, [Key(s), Key(k)] + u) {
      var q := [Key(s), Key(k)] + u;
      assert q[1..] == [Key(k)] + u && q[1..][0] == Key(k) && q[1..][1..] == u;
    }
    assert [Key(s)][1..] == [];
    PruneLookup(layer, Problems(h, sc, layer), s, k);
  }

  /** The value of the last setter survives, or it is `lost` and some other value applies. */
  lemma {:induction false} TopAfterLoss(raw: seq<Toml>, prepared: seq<Toml>, k: string, lost: nat -> bool)
    requires |raw| == |prepared|
    requires forall i | 0 <= i < |raw| :: Lookup(prepared[i], LLM, k) == if lost(i) then None else Lookup(raw[i], LLM, k)
    ensures
      var r, e := TopSetter(raw, LLM, k), TopSetter(prepared, LLM, k);
      && (r.None? ==> e.None?)
      && (r.Some? && !lost(r.value) ==> e == r)
      && (r.Some? && lost(r.value) ==> e.None? || e.value < r.value)
  {
    var r, e := TopSetter(raw, LLM, k), TopSetter(prepared, LLM, k);
    if r.Some? && !lost(r.value) {
      assert Lookup(prepared[r.value], LLM, k).Some?;
      if e.Some? && e.value < r.value { assert false; }
    }
  }

  lemma {:induction false} PreparedLookup(h: Host, sc: Schema, layer: Toml, k: string)
    requires SchemaOk(sc) && layer.Tab? && !Refused(h, sc, layer)
    ensures Lookup(Prepared(h, sc, layer), LLM, k) ==
              if LayerProblem(h, sc, layer, [Key(LLM), Key(k)]) then None else Lookup(layer, LLM, k)
  {
    assert LLM != BUILD && LLM != UPDATES;
    NotRefusedSection(h, sc, layer, LLM);
    CleanedLookup(h, sc, layer, LLM, k);
    CleanedIsUsable(h, sc, layer);
    DropKeepsLlm(Cleaned(h, sc, layer), k);
  }

  /** A value that `load` cannot use is not the value of a layer that it can use. */
  lemma {:induction false} LostValueDiffers(h: Host, sc: Schema, layer: Toml, usable: Toml, k: string)
    requires LayerProblem(h, sc, layer, [Key(LLM), Key(k)]) && Lookup(layer, LLM, k).Some?
    requires Usable(h, sc, usable) && Lookup(usable, LLM, k).Some?
    ensures Lookup(layer, LLM, k) != Lookup(usable, LLM, k)
  {
    UsableField(h, sc, usable, LLM, k);
    assert !FieldProblem(h, sc, LLM, k, Lookup(usable, LLM, k).value, []);
    assert [Key(LLM), Key(k)][1..] == [Key(k)] && [Key(k)][1..] == [];
  }

  /** For layers that `load` accepts, the source agrees with the merge exactly when the value in
      the named file is one that `load` can use.  A tuning key with a value of the wrong type is
      dropped with a warning, and the name then points to a file whose value does not apply. */
  lemma {:induction false} SourceAgreement(h: Host, sc: Schema, layers: seq<Toml>, k: string)
    requires SchemaOk(sc) && FieldConv(sc, LLM, k).Some? && !IsTable(FieldConv(sc, LLM, k).value)
    requires forall i | 0 <= i < |layers| :: layers[i].Tab? && !Refused(h, sc, layers[i])
    ensures SourceAgrees(h, sc, layers, k) <==>
              (TopSetter(layers, LLM, k).Some? ==>
                 !LayerProblem(h, sc, layers[TopSetter(layers, LLM, k).value], [Key(LLM), Key(k)]))
  {
    var prepared := PreparedAll(h, sc, layers);
    var lost := (i: nat) => i < |layers| && LayerProblem(h, sc, layers[i], [Key(LLM), Key(k)]);
    PreparedIsUsable(h, sc, layers);
    EffectiveIsTop(h, sc, prepared, LLM, k);
    forall i | 0 <= i < |layers|
      ensures Lookup(prepared[i], LLM, k) == if lost(i) then None else Lookup(layers[i], LLM, k)
    {
      PreparedLookup(h, sc, layers[i], k);
    }
    TopAfterLoss(layers, prepared, k, lost);
    var raw, eff := TopSetter(layers, LLM, k), TopSetter(prepared, LLM, k);
    if raw.Some? && lost(raw.value) && eff.Some? {
      LostValueDiffers(h, sc, layers[raw.value], prepared[eff.value], k);
    }
  }

  lemma {:induction false} NotRefusedSection(h: Host, sc: Schema, layer: Toml, s: string)
    requires !Refused(h, sc, layer) && layer.Tab? && s in sc.known && s != UPDATES
    ensures s in layer.entries ==> layer.entries[s].Tab?
  {
    if s in layer.entries && !layer.entries[s].Tab? {
      assert [Key(s)][1..] == [];
      assert LayerProblem(h, sc, layer, [Key(s)]) && Critical(sc, [Key(s)]);
    }
  }

  // ---------------------------------------------------------------- `load`

  method PrepareLayer(h: Host, sc: Schema, layer: Toml) returns (ok: bool, prepared: Toml)
    requires SchemaOk(sc) && layer.Tab?
    ensures ok <==> !Refused(h, sc, layer)
    ensures ok ==> prepared == Prepared(h, sc, layer)
  {
    var file := new LayerFile(layer);
    ok := file.CheckLayer(h, sc);
    prepared := Drop(file.layer);
  }

  lemma {:induction false} MergeOneMore(h: Host, sc: Schema, layers: seq<Toml>, n: nat)
    requires n < |layers|
    ensures MergeAll(PreparedAll(h, sc, layers[..n + 1])) ==
              Merge(MergeAll(PreparedAll(h, sc, layers[..n])), Prepared(h, sc, layers[n]))
  {
    assert PreparedAll(h, sc, layers[..n + 1])[..n] == PreparedAll(h, sc, layers[..n]);
  }

  ghost predicate NoneRefused(h: Host, sc: Schema, layers: seq<Toml>) {
    forall i | 0 <= i < |layers| :: !Refused(h, sc, layers[i])
  }

  lemma {:induction false} NoneRefusedStep(h: Host, sc: Schema, layers: seq<Toml>, n: nat)
    requires n < |layers|
    ensures NoneRefused(h, sc, layers[..n + 1]) <==> NoneRefused(h, sc, layers[..n]) && !Refused(h, sc, layers[n])
    ensures Refused(h, sc, layers[n]) ==> !NoneRefused(h, sc, layers)
  {
    assert layers[..n + 1] == layers[..n] + [layers[n]];
  }

  method MergeLayers(h: Host, sc: Schema, layers: seq<Toml>) returns (ok: bool, data: Toml)
    requires SchemaOk(sc) && forall i | 0 <= i < |layers| :: layers[i].Tab?
    ensures ok <==> NoneRefused(h, sc, layers)
    ensures ok ==> data == MergeAll(PreparedAll(h, sc, layers))
  {
    data := Tab(map[]);
    for n := 0 to |layers|
      invariant NoneRefused(h, sc, layers[..n])
      invariant data == MergeAll(PreparedAll(h, sc, layers[..n]))
    {
      var one, prepared := PrepareLayer(h, sc, layers[n]);
      NoneRefusedStep(h, sc, layers, n);
      if !one { return false, data; }
      MergeOneMore(h, sc, layers, n);
      data := Merge(data, prepared);
    }
    assert layers[..|layers|] == layers;
    ok := true;
  }

  ghost predicate HoldsSettings(h: Host, sc: Schema, applied: set<string>, data: Toml, fields: map<(string, string), Setting>) {
    && (forall s, k :: (s, k) in fields <==> s in applied && FieldConv(sc, s, k).Some? && Lookup(data, s, k).Some?)
    && (forall s, k | (s, k) in fields ::
          Some(fields[(s, k)]) == Convert(h, Lookup(data, s, k).value, FieldConv(sc, s, k).value))
  }

  ghost predicate HoldsVariants(sc: Schema, data: Toml, variants: seq<BuildVariant>) {
    var raw := RawVariants(data);
    && raw.Arr? && |variants| == |raw.items|
    && forall i | 0 <= i < |variants| :: VariantReadable(raw.items[i]) && Describes(sc, raw.items[i], variants[i])
  }

  method ReadUsableVariants(h: Host, sc: Schema, data: Toml) returns (variants: seq<BuildVariant>)
    requires SchemaOk(sc) && Usable(h, sc, data) && VariantConv(sc, "env") == Some(StrTableC)
    ensures HoldsVariants(sc, data, variants)
  {
    UsableVariantsAreReadable(h, sc, data);
    var read := BuildVariants(sc, data);
    variants := read.value;
    assert RawVariants(data).Arr?;
    assert !Truthy(RawVariants(data)) ==> RawVariants(data).items == [];
  }

  /** The files in load order, the lowest first.  A configuration results exactly when no file is
      refused; it then holds the conversion of the merged document, and its variants. */
  method Load(h: Host, sc: Schema, applied: set<string>, layers: seq<Toml>)
    returns (ok: bool, cfg: Config, variants: seq<BuildVariant>)
    requires SchemaOk(sc) && VariantConv(sc, "env") == Some(StrTableC) && applied <= sc.sections.Keys
    requires forall i | 0 <= i < |layers| :: layers[i].Tab?
    ensures fresh(cfg)
    ensures ok <==> NoneRefused(h, sc, layers)
    ensures ok ==> HoldsSettings(h, sc, applied, MergeAll(PreparedAll(h, sc, layers)), cfg.fields)
    ensures ok ==> HoldsVariants(sc, MergeAll(PreparedAll(h, sc, layers)), variants)
  {
    cfg := new Config();
    variants := [];
    var data;
    ok, data := MergeLayers(h, sc, layers);
    if ok {
      PreparedIsUsable(h, sc, layers);
      UsableIsConvertible(h, sc, applied, data);
      ok := cfg.FromDict(h, sc, data, applied);
      variants := ReadUsableVariants(h, sc, data);
    }
  }
}
