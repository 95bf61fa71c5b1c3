/** What a configuration file may hold: the field tables as data, and the places whose value
    `load` cannot use.  Every statement is about any field tables that meet `SchemaOk`, on any
    machine (`Host`); the module FieldTables holds the real tables. */
module ConfigSchema {
  import opened Collections
  import opened TomlTree
  import opened LayerMerge

  datatype Conv = StrC | BoolC | ListC | DictC | StrTableC | PathC | IntC | FloatC

  /** What the checks ask the machine and the standard library of the program. */
  datatype Host = Host(
    fold: string -> string,             // strip().lower()
    intOf: string -> Option<int>,       // int(text)
    floatOf: string -> Option<real>,    // float(text)
    expand: string -> Option<string>,   // expanduser(), None for an unknown home
    urlOk: string -> bool)              // urlparse(text).hostname does not raise

  datatype Schema = Schema(
    known: set<string>,
    sections: map<string, map<string, Conv>>,
    variantFields: map<string, Conv>,
    imageFields: set<string>,
    urlKeys: set<string>,
    tuning: set<(string, string)>)

  const BUILD := "build"
  const VARIANTS := "variants"
  const IMAGES := "images"
  const INDEX := "index"
  const LLM := "llm"
  const CALL_GRAPH := "call_graph"
  const DISPATCH_BRIDGES := "dispatch_bridges"
  const NAME := "name"
  const UPDATES := "updates"
  const PROJECT_ID: Path := [Key("project"), Key("id")]

  const TRUE_STRINGS := {"true", "yes", "1", "on"}
  const FALSE_STRINGS := {"false", "no", "0", "off", ""}

  predicate IsTable(c: Conv) { c == DictC || c == StrTableC }

  function FieldConv(sc: Schema, s: string, k: string): Option<Conv> {
    if s in sc.sections && k in sc.sections[s] then Some(sc.sections[s][k]) else None
  }

  /** The converter of a key of a variant: its own fields first, then the ones of [build] and [index]. */
  function VariantConv(sc: Schema, k: string): Option<Conv> {
    if k in sc.variantFields then Some(sc.variantFields[k])
    else if FieldConv(sc, INDEX, k).Some? then FieldConv(sc, INDEX, k)
    else FieldConv(sc, BUILD, k)
  }

  ghost predicate SchemaOk(sc: Schema) {
    && {BUILD, INDEX, LLM, CALL_GRAPH, UPDATES, "project"} <= sc.known
    && sc.sections.Keys <= sc.known
    && CALL_GRAPH !in sc.sections
    && FieldConv(sc, BUILD, VARIANTS).None?
    && (VariantConv(sc, NAME).Some? ==> VariantConv(sc, NAME) == Some(StrC))
    && (forall k | k in sc.urlKeys :: FieldConv(sc, LLM, k) == Some(StrC) && (LLM, k) !in sc.tuning)
    && (BUILD, VARIANTS) !in sc.tuning
    && (CALL_GRAPH, DISPATCH_BRIDGES) !in sc.tuning
  }

  // ---------------------------------------------------------------- one value (`_expected_type`)

  predicate IsNumber(v: Toml) { v.Int? || v.Float? }

  predicate Fits(h: Host, v: Toml, c: Conv, strict: bool) {
    match c
    case StrC => v.Str?
    case PathC => v.Str? && h.expand(v.s).Some?
    case BoolC => v.Bool? || (!strict && v.Str? && h.fold(v.s) in TRUE_STRINGS + FALSE_STRINGS)
    case ListC => (v.Arr? && forall i | 0 <= i < |v.items| :: v.items[i].Str?) || (!strict && v.Str?)
    case DictC => v.Tab? && forall k | k in v.entries :: IsNumber(v.entries[k]) || v.entries[k].Str?
    case StrTableC => v.Tab? && forall k | k in v.entries :: v.entries[k].Str?
    case IntC => v.Int? || (!strict && v.Str? && h.intOf(v.s).Some?)
    case FloatC => IsNumber(v) || (!strict && v.Str? && h.floatOf(v.s).Some?)
  }

  // ---------------------------------------------------------------- the places of a layer that cannot be used
  // Each predicate takes a value and a place relative to it.

  predicate ImageProblem(sc: Schema, v: Toml, q: Path) {
    if !v.Tab? then q == []
    else |q| == 1 && q[0].Key? && q[0].k in sc.imageFields && q[0].k in v.entries && !v.entries[q[0].k].Str?
  }

  predicate ImagesProblem(sc: Schema, v: Toml, q: Path) {
    if !v.Arr? then q == []
    else q != [] && q[0].Pos? && q[0].i < |v.items| && ImageProblem(sc, v.items[q[0].i], q[1..])
  }

  predicate HasName(v: Toml) {
    v.Tab? && NAME in v.entries && v.entries[NAME].Str? && v.entries[NAME].s != ""
  }

  predicate VariantKeyProblem(h: Host, sc: Schema, k: string, v: Toml, q: Path) {
    if k == IMAGES then ImagesProblem(sc, v, q)
    else q == [] && VariantConv(sc, k).Some? && !Fits(h, v, VariantConv(sc, k).value, true)
  }

  predicate VariantProblem(h: Host, sc: Schema, v: Toml, q: Path) {
    if !HasName(v) then q == []
    else q != [] && q[0].Key? && q[0].k in v.entries && VariantKeyProblem(h, sc, q[0].k, v.entries[q[0].k], q[1..])
  }

  predicate VariantsProblem(h: Host, sc: Schema, v: Toml, q: Path) {
    if !v.Arr? then q == []
    else q != [] && q[0].Pos? && q[0].i < |v.items| && VariantProblem(h, sc, v.items[q[0].i], q[1..])
  }

  predicate ValueProblemAt(h: Host, sc: Schema, s: string, k: string, v: Toml) {
    || (FieldConv(sc, s, k).Some? && !Fits(h, v, FieldConv(sc, s, k).value, false))
    || (s == LLM && k in sc.urlKeys && v.Str? && !h.urlOk(v.s))
    || (s == CALL_GRAPH && k == DISPATCH_BRIDGES && !Fits(h, v, StrTableC, false))
  }

  predicate FieldProblem(h: Host, sc: Schema, s: string, k: string, v: Toml, q: Path) {
    || (q == [] && ValueProblemAt(h, sc, s, k, v))
    || (s == BUILD && k == VARIANTS && VariantsProblem(h, sc, v, q))
  }

  predicate SectionProblem(h: Host, sc: Schema, s: string, v: Toml, q: Path) {
    if !v.Tab? then s in sc.known && q == []
    else q != [] && q[0].Key? && q[0].k in v.entries && FieldProblem(h, sc, s, q[0].k, v.entries[q[0].k], q[1..])
  }

  predicate LayerProblem(h: Host, sc: Schema, layer: Toml, q: Path) {
    && layer.Tab? && q != [] && q[0].Key? && q[0].k in layer.entries
    && SectionProblem(h, sc, q[0].k, layer.entries[q[0].k], q[1..])
  }

  /** A layer every value of which `load` can use. */
  ghost predicate Usable(h: Host, sc: Schema, layer: Toml) {
    layer.Tab? && forall q :: !LayerProblem(h, sc, layer, q)
  }

  // ---------------------------------------------------------------- the places are in the file, and none is inside another

  lemma {:induction false} PresentCons(t: Toml, q: Path)
    requires q != [] && Has(t, q[0]) && Present(Child(t, q[0]), q[1..])
    ensures Present(t, q)
  {
  }

  lemma {:induction false} VariantsProblemPresent(h: Host, sc: Schema, v: Toml, q: Path)
    requires VariantsProblem(h, sc, v, q)
    ensures Present(v, q)
  {
    if v.Arr? {
      var e, r := v.items[q[0].i], q[1..];
      if HasName(e) {
        var x, u := e.entries[r[0].k], r[1..];
        if r[0].k == IMAGES && x.Arr? {
          var img, w := x.items[u[0].i], u[1..];
          if img.Tab? { PresentCons(img, w); }
          PresentCons(x, u);
        }
        PresentCons(e, r);
      }
      PresentCons(v, q);
    }
  }

  lemma {:induction false} ProblemsArePresent(h: Host, sc: Schema, layer: Toml, q: Path)
    requires LayerProblem(h, sc, layer, q)
    ensures q != [] && Present(layer, q)
  {
    var v, r := layer.entries[q[0].k], q[1..];
    if v.Tab? {
      var x, u := v.entries[r[0].k], r[1..];
      if u != [] || !ValueProblemAt(h, sc, q[0].k, r[0].k, x) { VariantsProblemPresent(h, sc, x, u); }
      PresentCons(v, r);
    }
    PresentCons(layer, q);
  }

  lemma {:induction false} TailEqual(p: Path, q: Path)
    requires p != [] && q != [] && p <= q
    ensures p[0] == q[0] && p[1..] <= q[1..]
    ensures p[1..] == q[1..] ==> p == q
  {
    assert p == [p[0]] + p[1..] && q == [q[0]] + q[1..];
  }

  lemma {:induction false} VariantsProblemsApart(h: Host, sc: Schema, v: Toml, p: Path, q: Path)
    requires VariantsProblem(h, sc, v, p) && VariantsProblem(h, sc, v, q) && p <= q
    ensures p == q
  {
    if v.Arr? {
      TailEqual(p, q);
      var e, p1, q1 := v.items[p[0].i], p[1..], q[1..];
      if HasName(e) {
        TailEqual(p1, q1);
        var x, p2, q2 := e.entries[p1[0].k], p1[1..], q1[1..];
        if p1[0].k == IMAGES && x.Arr? {
          TailEqual(p2, q2);
          if x.items[p2[0].i].Tab? { TailEqual(p2[1..], q2[1..]); }
        }
      }
    }
  }

  lemma {:induction false} ProblemsApart(h: Host, sc: Schema, layer: Toml, p: Path, q: Path)
    requires SchemaOk(sc)
    requires LayerProblem(h, sc, layer, p) && LayerProblem(h, sc, layer, q) && p <= q
    ensures p == q
  {
    TailEqual(p, q);
    var s, v, p1, q1 := p[0].k, layer.entries[p[0].k], p[1..], q[1..];
    if v.Tab? {
      TailEqual(p1, q1);
      var k, x, p2, q2 := p1[0].k, v.entries[p1[0].k], p1[1..], q1[1..];
      if s == BUILD && k == VARIANTS { VariantsProblemsApart(h, sc, x, p2, q2); }
    }
  }

  // ---------------------------------------------------------------- one repair pass is enough
  // Each lemma: removing exactly the problem places below a value leaves a value without any.

  lemma {:induction false} ImagePruned(sc: Schema, v: Toml, ps: iset<Path>)
    requires forall q :: q in ps <==> ImageProblem(sc, v, q)
    requires [] !in ps
    ensures forall q :: !ImageProblem(sc, Prune(v, ps), q)
  {
    assert ImageProblem(sc, v, []) <==> !v.Tab?;
    var r := Prune(v, ps);
    forall k | k in r.entries ensures r.entries[k] == v.entries[k] {
      assert Tails(ps, Key(k)) == iset{} by {
        assert [Key(k)] !in ps;
        forall q: Path ensures [Key(k)] + q !in ps {
          assert q == [] ==> [Key(k)] + q == [Key(k)];
        }
      }
      PruneNothing(v.entries[k]);
    }
    forall q: Path ensures !ImageProblem(sc, r, q) {
      if |q| == 1 && q[0].Key? && q[0].k in r.entries { assert q == [Key(q[0].k)]; }
    }
  }

  lemma {:induction false} ImagesPruned(sc: Schema, v: Toml, ps: iset<Path>)
    requires forall q :: q in ps <==> ImagesProblem(sc, v, q)
    requires [] !in ps
    ensures forall q :: !ImagesProblem(sc, Prune(v, ps), q)
  {
    assert ImagesProblem(sc, v, []) <==> !v.Arr?;
    var r := Prune(v, ps);
    forall q: Path ensures !ImagesProblem(sc, r, q) {
      if q != [] && q[0].Pos? && q[0].i < |r.items| {
        var i := PrunedItemOrigin(v, v.items, ps, 0, q[0].i);
        var below := Tails(ps, Pos(i));
        forall u ensures u in below <==> ImageProblem(sc, v.items[i], u) {
          assert ([Pos(i)] + u)[1..] == u;
        }
        assert [Pos(i)] + [] == [Pos(i)];
        ImagePruned(sc, v.items[i], below);
      }
    }
  }

  lemma {:induction false} VariantKeyPruned(h: Host, sc: Schema, k: string, v: Toml, ps: iset<Path>)
    requires forall q :: q in ps <==> VariantKeyProblem(h, sc, k, v, q)
    requires [] !in ps
    ensures forall q :: !VariantKeyProblem(h, sc, k, Prune(v, ps), q)
    ensures k != IMAGES ==> Prune(v, ps) == v
  {
    if k == IMAGES {
      forall q ensures q in ps <==> ImagesProblem(sc, v, q) {
        assert q in ps <==> VariantKeyProblem(h, sc, k, v, q);
      }
      ImagesPruned(sc, v, ps);
    } else {
      assert !VariantKeyProblem(h, sc, k, v, []);
      assert ps == iset{};
      PruneNothing(v);
    }
  }

  lemma {:induction false} VariantTails(h: Host, sc: Schema, v: Toml, ps: iset<Path>, k: string)
    requires HasName(v) && k in v.entries
    requires forall q :: q in ps <==> VariantProblem(h, sc, v, q)
    ensures forall u :: u in Tails(ps, Key(k)) <==> VariantKeyProblem(h, sc, k, v.entries[k], u)
    ensures [] in Tails(ps, Key(k)) <==> [Key(k)] in ps
  {
    assert [Key(k)] + [] == [Key(k)];
    forall u: Path ensures u in Tails(ps, Key(k)) <==> VariantKeyProblem(h, sc, k, v.entries[k], u) {
      assert ([Key(k)] + u)[1..] == u;
    }
  }

  lemma {:induction false} VariantPruned(h: Host, sc: Schema, v: Toml, ps: iset<Path>)
    requires SchemaOk(sc)
    requires forall q :: q in ps <==> VariantProblem(h, sc, v, q)
    requires [] !in ps
    ensures forall q :: !VariantProblem(h, sc, Prune(v, ps), q)
  {
    assert VariantProblem(h, sc, v, []) <==> !HasName(v);
    VariantTails(h, sc, v, ps, NAME);
    NameSurvives(h, sc, v, ps);
    var r := Prune(v, ps);
    forall k | k in r.entries ensures forall u :: !VariantKeyProblem(h, sc, k, r.entries[k], u) {
      VariantTails(h, sc, v, ps, k);
      VariantKeyPruned(h, sc, k, v.entries[k], Tails(ps, Key(k)));
      assert r.entries[k] == Prune(v.entries[k], Tails(ps, Key(k)));
    }
  }

  lemma {:induction false} NameSurvives(h: Host, sc: Schema, v: Toml, ps: iset<Path>)
    requires SchemaOk(sc) && HasName(v)
    requires forall u :: u in Tails(ps, Key(NAME)) <==> VariantKeyProblem(h, sc, NAME, v.entries[NAME], u)
    requires [] in Tails(ps, Key(NAME)) <==> [Key(NAME)] in ps
    ensures HasName(Prune(v, ps))
  {
    assert NAME != IMAGES;
    assert !VariantKeyProblem(h, sc, NAME, v.entries[NAME], []);
    VariantKeyPruned(h, sc, NAME, v.entries[NAME], Tails(ps, Key(NAME)));
  }

  lemma {:induction false} VariantsPruned(h: Host, sc: Schema, v: Toml, ps: iset<Path>)
    requires SchemaOk(sc)
    requires forall q :: q in ps <==> VariantsProblem(h, sc, v, q)
    requires [] !in ps
    ensures forall q :: !VariantsProblem(h, sc, Prune(v, ps), q)
  {
    assert VariantsProblem(h, sc, v, []) <==> !v.Arr?;
    var r := Prune(v, ps);
    forall q: Path ensures !VariantsProblem(h, sc, r, q) {
      if q != [] && q[0].Pos? && q[0].i < |r.items| {
        var i := PrunedItemOrigin(v, v.items, ps, 0, q[0].i);
        var below := Tails(ps, Pos(i));
        forall u ensures u in below <==> VariantProblem(h, sc, v.items[i], u) {
          assert ([Pos(i)] + u)[1..] == u;
        }
        assert [Pos(i)] + [] == [Pos(i)];
        VariantPruned(h, sc, v.items[i], below);
      }
    }
  }

  /** The value of one key: when it stays, its problems below are gone, and a value outside
      [build] variants stays as it is. */
  lemma {:induction false} FieldPruned(h: Host, sc: Schema, s: string, k: string, v: Toml, ps: iset<Path>)
    requires SchemaOk(sc)
    requires forall q :: q in ps <==> q != [] && FieldProblem(h, sc, s, k, v, q)
    requires s == BUILD && k == VARIANTS ==> !FieldProblem(h, sc, s, k, v, [])
    ensures forall q | q != [] :: !FieldProblem(h, sc, s, k, Prune(v, ps), q)
    ensures FieldProblem(h, sc, s, k, Prune(v, ps), []) <==> FieldProblem(h, sc, s, k, v, [])
  {
    if s == BUILD && k == VARIANTS {
      assert s != CALL_GRAPH && s != LLM;
      forall q ensures q in ps <==> VariantsProblem(h, sc, v, q) {}
      VariantsPruned(h, sc, v, ps);
    } else {
      assert ps == iset{};
      PruneNothing(v);
    }
  }

  /** Removing all places of a layer that cannot be used, with or without the ones in `spared`
      (places of values outside [build] variants), leaves a layer in which only the spared ones
      are left: no removal makes a new one. */
  lemma {:induction false} OnePassIsEnough(h: Host, sc: Schema, layer: Toml, ps: iset<Path>, spared: iset<Path>)
    requires SchemaOk(sc) && layer.Tab?
    requires forall q :: q in ps <==> LayerProblem(h, sc, layer, q) && q !in spared
    requires forall q | q in spared :: |q| == 2 && q != [Key(BUILD), Key(VARIANTS)]
    ensures forall q :: LayerProblem(h, sc, Prune(layer, ps), q) <==> LayerProblem(h, sc, layer, q) && q in spared
  {
    var r := Prune(layer, ps);
    forall q: Path ensures LayerProblem(h, sc, r, q) <==> LayerProblem(h, sc, layer, q) && q in spared {
      if q != [] && q[0].Key? && q[0].k in layer.entries {
        SectionAfterPass(h, sc, layer, ps, spared, q[0].k, q);
      }
    }
  }

  lemma {:induction false} SectionAfterPass(h: Host, sc: Schema, layer: Toml, ps: iset<Path>, spared: iset<Path>, s: string, q: Path)
    requires SchemaOk(sc) && layer.Tab? && s in layer.entries
    requires q != [] && q[0] == Key(s)
    requires forall q :: q in ps <==> LayerProblem(h, sc, layer, q) && q !in spared
    requires forall q | q in spared :: |q| == 2 && q != [Key(BUILD), Key(VARIANTS)]
    ensures LayerProblem(h, sc, Prune(layer, ps), q) <==> LayerProblem(h, sc, layer, q) && q in spared
  {
    var v, below := layer.entries[s], Tails(ps, Key(s));
    forall u ensures u in below <==> SectionProblem(h, sc, s, v, u) && [Key(s)] + u !in spared {
      assert ([Key(s)] + u)[1..] == u;
    }
    assert q == [Key(s)] + q[1..];
    assert [Key(s)] + [] == [Key(s)];
    if !v.Tab? {
      assert SectionProblem(h, sc, s, v, []) <==> s in sc.known;
    } else {
      assert !SectionProblem(h, sc, s, v, []);
      assert [Key(s)] !in ps;
      if q[1..] != [] && q[1].Key? && q[1].k in v.entries {
        FieldAfterPass(h, sc, s, v, below, spared, q);
      }
      assert Prune(layer, ps).entries[s] == Prune(v, below);
    }
  }

  lemma {:induction false} FieldPlaces(h: Host, sc: Schema, s: string, v: Toml, below: iset<Path>, spared: iset<Path>, k: string)
    requires SchemaOk(sc) && v.Tab? && k in v.entries
    requires forall u :: u in below <==> SectionProblem(h, sc, s, v, u) && [Key(s)] + u !in spared
    ensures forall u :: u in Tails(below, Key(k)) <==> FieldProblem(h, sc, s, k, v.entries[k], u) && [Key(s), Key(k)] + u !in spared
  {
    forall u ensures u in Tails(below, Key(k)) <==> FieldProblem(h, sc, s, k, v.entries[k], u) && [Key(s), Key(k)] + u !in spared {
      assert ([Key(k)] + u)[1..] == u;
      assert [Key(s)] + ([Key(k)] + u) == [Key(s), Key(k)] + u;
    }
  }

  lemma {:induction false} FieldAfterPass(h: Host, sc: Schema, s: string, v: Toml, below: iset<Path>, spared: iset<Path>, q: Path)
    requires SchemaOk(sc) && v.Tab?
    requires |q| >= 2 && q[0] == Key(s) && q[1].Key? && q[1].k in v.entries
    requires forall u :: u in below <==> SectionProblem(h, sc, s, v, u) && [Key(s)] + u !in spared
    requires forall q | q in spared :: |q| == 2 && q != [Key(BUILD), Key(VARIANTS)]
    ensures SectionProblem(h, sc, s, Prune(v, below), q[1..]) <==> SectionProblem(h, sc, s, v, q[1..]) && q in spared
  {
    var k := q[1].k;
    var x, under := v.entries[k], Tails(below, Key(k));
    FieldPlaces(h, sc, s, v, below, spared, k);
    assert [Key(k)] + [] == [Key(k)];
    assert [Key(s), Key(k)] + [] == [Key(s), Key(k)];
    assert q == [Key(s), Key(k)] + q[2..];
    assert q[1..][1..] == q[2..];
    if [Key(k)] !in below {
      FieldPruned(h, sc, s, k, x, under);
      assert Prune(v, below).entries[k] == Prune(x, under);
    }
  }
}
