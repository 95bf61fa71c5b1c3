/** The list of values of one layer that `load` cannot use (`config_value_problems`), built by
    loops as the program builds it, and proved to name each problem place exactly once. */
module ConfigCheck {
  import opened Collections
  import opened TomlTree
  import opened PathOrder
  import opened ConfigSchema

  datatype ValueProblem = ValueProblem(keys: Path, removable: bool, critical: bool)

  /** Only a tuning key, or the section [updates], lets `load` go on. */
  predicate Critical(sc: Schema, p: Path) {
    && !(|p| == 2 && p[0].Key? && p[1].Key? && (p[0].k, p[1].k) in sc.tuning)
    && p != [Key(UPDATES)]
  }

  function PlacesOf(r: seq<ValueProblem>): (ps: seq<Path>)
    ensures |ps| == |r| && forall i | 0 <= i < |r| :: ps[i] == r[i].keys
  {
    seq(|r|, i requires 0 <= i < |r| => r[i].keys)
  }

  ghost function KeySet(r: seq<ValueProblem>): iset<Path> {
    Places(PlacesOf(r))
  }

  /** `r` names no place twice and flags each place as its keys demand. */
  ghost predicate WellListed(sc: Schema, r: seq<ValueProblem>) {
    && Distinct(PlacesOf(r))
    && forall i | 0 <= i < |r| :: r[i].removable == (r[i].keys != PROJECT_ID) && r[i].critical == Critical(sc, r[i].keys)
  }

  ghost predicate Below(r: seq<ValueProblem>, keys: Path) {
    forall p | p in KeySet(r) :: keys <= p
  }

  lemma {:induction false} Join(sc: Schema, r: seq<ValueProblem>, s: seq<ValueProblem>)
    requires WellListed(sc, r) && WellListed(sc, s) && KeySet(r) !! KeySet(s)
    ensures WellListed(sc, r + s) && KeySet(r + s) == KeySet(r) + KeySet(s)
  {
    var a, b, c := PlacesOf(r), PlacesOf(s), PlacesOf(r + s);
    assert c == a + b;
    forall i, j | 0 <= i < j < |c| ensures c[i] != c[j] {
      if i < |a| <= j { assert c[i] in KeySet(r) && c[j] in KeySet(s); }
    }
  }

  lemma {:induction false} JoinOne(sc: Schema, r: seq<ValueProblem>, x: ValueProblem)
    requires WellListed(sc, r) && x.keys !in KeySet(r)
    requires x.removable == (x.keys != PROJECT_ID) && x.critical == Critical(sc, x.keys)
    ensures WellListed(sc, r + [x]) && KeySet(r + [x]) == KeySet(r) + iset{x.keys}
  {
    assert PlacesOf([x]) == [x.keys];
    Join(sc, r, [x]);
  }

  // ---------------------------------------------------------------- images and variants

  method ImageKeyProblems(sc: Schema, image: Toml, keys: Path) returns (r: seq<ValueProblem>)
    requires image.Tab? && |keys| > 2
    ensures WellListed(sc, r) && Below(r, keys)
    ensures forall q: Path :: keys + q in KeySet(r) <==> ImageProblem(sc, image, q)
  {
    r := [];
    var todo := sc.imageFields;
    while todo != {}
      invariant todo <= sc.imageFields
      invariant WellListed(sc, r) && Below(r, keys)
      invariant forall q: Path :: keys + q in KeySet(r) <==> ImageProblem(sc, image, q) && q[0].k !in todo
      decreases todo
    {
      var key :| key in todo;
      var place := keys + [Key(key)];
      if key in image.entries && !image.entries[key].Str? {
        assert ImageProblem(sc, image, [Key(key)]);
        JoinOne(sc, r, ValueProblem(place, true, true));
        r := r + [ValueProblem(place, true, true)];
      }
      forall q: Path ensures keys + q == place <==> q == [Key(key)] {
        assert (keys + q)[|keys|..] == q && place[|keys|..] == [Key(key)];
      }
      forall q: Path | |q| == 1 && q[0] == Key(key) ensures q == [Key(key)] {}
      todo := todo - {key};
    }
  }

  lemma {:induction false} HeadOfSuffix(keys: Path, item: Item, q: Path)
    requires keys + [item] <= keys + q
    ensures q != [] && q[0] == item
  {
    assert (keys + [item])[|keys|] == (keys + q)[|keys|];
  }

  /** A list of the problems of one child, seen from its container. */
  lemma {:induction false} FromContainer(one: seq<ValueProblem>, keys: Path, item: Item, bad: Path -> bool)
    requires Below(one, keys + [item])
    requires forall q: Path :: (keys + [item]) + q in KeySet(one) <==> bad(q)
    ensures forall q: Path :: keys + q in KeySet(one) <==> q != [] && q[0] == item && bad(q[1..])
    ensures Below(one, keys)
  {
    var place := keys + [item];
    forall q: Path ensures keys + q in KeySet(one) <==> q != [] && q[0] == item && bad(q[1..]) {
      if keys + q in KeySet(one) { HeadOfSuffix(keys, item, q); }
      if q != [] && q[0] == item {
        assert q == [item] + q[1..];
        assert keys + q == place + q[1..];
      }
    }
    forall p | p in KeySet(one) ensures keys <= p {
      assert place <= p && keys <= place;
    }
  }

  /** Lists below two different children of one container have no place in common. */
  lemma {:induction false} ApartBelow(r: seq<ValueProblem>, one: seq<ValueProblem>, keys: Path, item: Item)
    requires Below(r, keys) && Below(one, keys + [item])
    requires forall q: Path :: keys + q in KeySet(r) ==> q != [] && q[0] != item
    ensures KeySet(r) !! KeySet(one)
  {
    forall p | p in KeySet(r) ensures p !in KeySet(one) {
      assert p == keys + p[|keys|..];
      if p in KeySet(one) {
        HeadOfSuffix(keys, item, p[|keys|..]);
        assert false;
      }
    }
  }

  /** A container's list grows by the list of one more child. */
  lemma {:induction false} AddChild(sc: Schema, r: seq<ValueProblem>, one: seq<ValueProblem>, keys: Path, item: Item, bad: Path -> bool)
    requires WellListed(sc, r) && WellListed(sc, one) && Below(r, keys) && Below(one, keys + [item])
    requires forall q: Path :: keys + q in KeySet(r) ==> q != [] && q[0] != item
    requires forall q: Path :: (keys + [item]) + q in KeySet(one) <==> bad(q)
    ensures WellListed(sc, r + one) && Below(r + one, keys)
    ensures forall q: Path ::
              keys + q in KeySet(r + one) <==> keys + q in KeySet(r) || (q != [] && q[0] == item && bad(q[1..]))
  {
    FromContainer(one, keys, item, bad);
    ApartBelow(r, one, keys, item);
    Join(sc, r, one);
  }

  lemma OneProblem(x: ValueProblem)
    ensures KeySet([x]) == iset{x.keys}
    ensures forall q: Path :: x.keys + q in KeySet([x]) <==> q == []
    ensures Below([x], x.keys)
  {
    assert PlacesOf([x]) == [x.keys];
    assert x.keys + [] == x.keys;
    forall q: Path ensures x.keys + q in KeySet([x]) <==> q == [] { assert |x.keys + q| == |x.keys| + |q|; }
  }

  method ImageProblems(sc: Schema, images: Toml, keys: Path) returns (r: seq<ValueProblem>)
    requires |keys| > 2
    ensures WellListed(sc, r) && Below(r, keys)
    ensures forall q: Path :: keys + q in KeySet(r) <==> ImagesProblem(sc, images, q)
  {
    if !images.Arr? {
      r := [ValueProblem(keys, true, true)];
      OneProblem(r[0]);
      return;
    }
    r := [];
    for position := 0 to |images.items|
      invariant WellListed(sc, r) && Below(r, keys)
      invariant forall q: Path :: keys + q in KeySet(r) <==> ImagesProblem(sc, images, q) && q[0].i < position
    {
      var image, place := images.items[position], keys + [Pos(position)];
      var one: seq<ValueProblem>;
      if !image.Tab? {
        one := [ValueProblem(place, true, true)];
        OneProblem(one[0]);
      } else {
        one := ImageKeyProblems(sc, image, place);
      }
      FromContainer(one, keys, Pos(position), q => ImageProblem(sc, image, q));
      ApartBelow(r, one, keys, Pos(position));
      Join(sc, r, one);
      r := r + one;
    }
  }

  method VariantKeyProblems(h: Host, sc: Schema, table: Toml, keys: Path) returns (r: seq<ValueProblem>)
    requires HasName(table) && |keys| > 2
    ensures WellListed(sc, r) && Below(r, keys)
    ensures forall q: Path :: keys + q in KeySet(r) <==> VariantProblem(h, sc, table, q)
  {
    r := [];
    var todo := table.entries.Keys;
    while todo != {}
      invariant todo <= table.entries.Keys
      invariant WellListed(sc, r) && Below(r, keys)
      invariant forall q: Path :: keys + q in KeySet(r) <==> VariantProblem(h, sc, table, q) && q[0].k !in todo
      decreases todo
    {
      var key :| key in todo;
      var value, place := table.entries[key], keys + [Key(key)];
      var one: seq<ValueProblem> := [];
      if key == IMAGES {
        one := ImageProblems(sc, value, place);
      } else if VariantConv(sc, key).Some? && !Fits(h, value, VariantConv(sc, key).value, true) {
        one := [ValueProblem(place, true, true)];
        OneProblem(one[0]);
      }
      AddChild(sc, r, one, keys, Key(key), q => VariantKeyProblem(h, sc, key, value, q));
      r := r + one;
      todo := todo - {key};
    }
  }

  /** The body of the loop over the variants. */
  method OneVariantProblems(h: Host, sc: Schema, table: Toml, place: Path) returns (r: seq<ValueProblem>)
    requires |place| > 2
    ensures WellListed(sc, r) && Below(r, place)
    ensures forall q: Path :: place + q in KeySet(r) <==> VariantProblem(h, sc, table, q)
  {
    if !HasName(table) {
      r := [ValueProblem(place, true, true)];
      OneProblem(r[0]);
    } else {
      r := VariantKeyProblems(h, sc, table, place);
    }
  }

  method VariantProblems(h: Host, sc: Schema, variants: Toml, keys: Path) returns (r: seq<ValueProblem>)
    requires keys == [Key(BUILD), Key(VARIANTS)] && SchemaOk(sc)
    ensures WellListed(sc, r) && Below(r, keys)
    ensures forall q: Path :: keys + q in KeySet(r) <==> VariantsProblem(h, sc, variants, q)
  {
    if !variants.Arr? {
      r := [ValueProblem(keys, true, true)];
      OneProblem(r[0]);
      return;
    }
    r := [];
    for position := 0 to |variants.items|
      invariant WellListed(sc, r) && Below(r, keys)
      invariant forall q: Path :: keys + q in KeySet(r) <==> VariantsProblem(h, sc, variants, q) && q[0].i < position
    {
      var table := variants.items[position];
      var one := OneVariantProblems(h, sc, table, keys + [Pos(position)]);
      AddChild(sc, r, one, keys, Pos(position), q => VariantProblem(h, sc, table, q));
      r := r + one;
    }
  }

  // ---------------------------------------------------------------- the sections

  predicate ShapeProblem(sc: Schema, layer: Toml, p: Path) {
    && layer.Tab? && |p| == 1 && p[0].Key? && p[0].k in sc.known
    && p[0].k in layer.entries && !layer.entries[p[0].k].Tab?
  }

  method ShapeProblems(sc: Schema, layer: Toml) returns (r: seq<ValueProblem>)
    requires SchemaOk(sc) && layer.Tab?
    ensures WellListed(sc, r)
    ensures forall p :: p in KeySet(r) <==> ShapeProblem(sc, layer, p)
  {
    r := [];
    var todo := sc.known;
    while todo != {}
      invariant todo <= sc.known
      invariant WellListed(sc, r)
      invariant forall p: Path :: p in KeySet(r) <==> ShapeProblem(sc, layer, p) && p[0].k !in todo
      decreases todo
    {
      var name :| name in todo;
      if name in layer.entries && !layer.entries[name].Tab? {
        var x := ValueProblem([Key(name)], true, name != UPDATES);
        JoinOne(sc, r, x);
        r := r + [x];
      }
      forall p: Path | |p| == 1 && p[0] == Key(name) ensures p == [Key(name)] {}
      todo := todo - {name};
    }
  }

  predicate TypeProblem(h: Host, sc: Schema, layer: Toml, p: Path) {
    && layer.Tab? && |p| == 2 && p[0].Key? && p[1].Key?
    && p[0].k in layer.entries && layer.entries[p[0].k].Tab? && p[1].k in layer.entries[p[0].k].entries
    && FieldConv(sc, p[0].k, p[1].k).Some?
    && !Fits(h, layer.entries[p[0].k].entries[p[1].k], FieldConv(sc, p[0].k, p[1].k).value, false)
  }

  /** The inner loop: the fields of one section that is there. */
  method SectionFieldProblems(h: Host, sc: Schema, layer: Toml, section: string) returns (r: seq<ValueProblem>)
    requires SchemaOk(sc) && layer.Tab? && section in sc.sections
    requires section in layer.entries && layer.entries[section].Tab?
    ensures WellListed(sc, r)
    ensures forall p: Path :: p in KeySet(r) <==> TypeProblem(h, sc, layer, p) && p[0].k == section
  {
    var table, fields := layer.entries[section].entries, sc.sections[section];
    r := [];
    var todo := fields.Keys;
    while todo != {}
      invariant todo <= fields.Keys
      invariant WellListed(sc, r)
      invariant forall p: Path :: p in KeySet(r) <==> TypeProblem(h, sc, layer, p) && p[0].k == section && p[1].k !in todo
      decreases todo
    {
      var key :| key in todo;
      var place := [Key(section), Key(key)];
      if key in table && !Fits(h, table[key], fields[key], false) {
        var x := ValueProblem(place, place != PROJECT_ID, (section, key) !in sc.tuning);
        JoinOne(sc, r, x);
        r := r + [x];
      }
      forall p: Path | |p| == 2 && p[0] == Key(section) && p[1] == Key(key) ensures p == place {}
      todo := todo - {key};
    }
  }

  method FieldProblems(h: Host, sc: Schema, layer: Toml) returns (r: seq<ValueProblem>)
    requires SchemaOk(sc) && layer.Tab?
    ensures WellListed(sc, r)
    ensures forall p :: p in KeySet(r) <==> TypeProblem(h, sc, layer, p)
  {
    r := [];
    var sections := sc.sections.Keys;
    while sections != {}
      invariant sections <= sc.sections.Keys
      invariant WellListed(sc, r)
      invariant forall p: Path :: p in KeySet(r) <==> TypeProblem(h, sc, layer, p) && p[0].k !in sections
      decreases sections
    {
      var section :| section in sections;
      if section in layer.entries && layer.entries[section].Tab? {
        var one := SectionFieldProblems(h, sc, layer, section);
        Join(sc, r, one);
        r := r + one;
      }
      sections := sections - {section};
    }
  }

  predicate UrlProblem(h: Host, sc: Schema, layer: Toml, p: Path) {
    && layer.Tab? && |p| == 2 && p[0] == Key(LLM) && p[1].Key? && p[1].k in sc.urlKeys
    && LLM in layer.entries && layer.entries[LLM].Tab? && p[1].k in layer.entries[LLM].entries
    && layer.entries[LLM].entries[p[1].k].Str? && !h.urlOk(layer.entries[LLM].entries[p[1].k].s)
  }

  method UrlProblems(h: Host, sc: Schema, layer: Toml) returns (r: seq<ValueProblem>)
    requires SchemaOk(sc) && layer.Tab?
    ensures WellListed(sc, r)
    ensures forall p :: p in KeySet(r) <==> UrlProblem(h, sc, layer, p)
  {
    r := [];
    if LLM !in layer.entries || !layer.entries[LLM].Tab? { return; }
    var table, todo := layer.entries[LLM].entries, sc.urlKeys;
    while todo != {}
      invariant todo <= sc.urlKeys
      invariant WellListed(sc, r)
      invariant forall p: Path :: p in KeySet(r) <==> UrlProblem(h, sc, layer, p) && p[1].k !in todo
      decreases todo
    {
      var key :| key in todo;
      var place := [Key(LLM), Key(key)];
      if key in table && table[key].Str? && !h.urlOk(table[key].s) {
        assert PROJECT_ID[0] != Key(LLM);
        JoinOne(sc, r, ValueProblem(place, true, true));
        r := r + [ValueProblem(place, true, true)];
      }
      forall p: Path | |p| == 2 && p[0] == Key(LLM) && p[1] == Key(key) ensures p == place {}
      todo := todo - {key};
    }
  }

  predicate BridgeProblem(h: Host, layer: Toml, p: Path) {
    && layer.Tab? && p == [Key(CALL_GRAPH), Key(DISPATCH_BRIDGES)]
    && CALL_GRAPH in layer.entries && layer.entries[CALL_GRAPH].Tab?
    && DISPATCH_BRIDGES in layer.entries[CALL_GRAPH].entries
    && !Fits(h, layer.entries[CALL_GRAPH].entries[DISPATCH_BRIDGES], StrTableC, false)
  }

  predicate InVariants(h: Host, sc: Schema, layer: Toml, p: Path) {
    && layer.Tab? && |p| >= 2 && p[0] == Key(BUILD) && p[1] == Key(VARIANTS)
    && BUILD in layer.entries && layer.entries[BUILD].Tab? && VARIANTS in layer.entries[BUILD].entries
    && VariantsProblem(h, sc, layer.entries[BUILD].entries[VARIANTS], p[2..])
  }

  method VariantStage(h: Host, sc: Schema, layer: Toml) returns (r: seq<ValueProblem>)
    requires SchemaOk(sc) && layer.Tab?
    ensures WellListed(sc, r)
    ensures forall p :: p in KeySet(r) <==> InVariants(h, sc, layer, p)
  {
    r := [];
    if BUILD in layer.entries && layer.entries[BUILD].Tab? && VARIANTS in layer.entries[BUILD].entries {
      var keys := [Key(BUILD), Key(VARIANTS)];
      r := VariantProblems(h, sc, layer.entries[BUILD].entries[VARIANTS], keys);
      forall p ensures p in KeySet(r) <==> InVariants(h, sc, layer, p) {
        if |p| >= 2 && p[0] == Key(BUILD) && p[1] == Key(VARIANTS) { assert p == keys + p[2..]; }
      }
    }
  }

  method BridgeStage(h: Host, sc: Schema, layer: Toml) returns (r: seq<ValueProblem>)
    requires SchemaOk(sc) && layer.Tab?
    ensures WellListed(sc, r)
    ensures forall p :: p in KeySet(r) <==> BridgeProblem(h, layer, p)
  {
    r := [];
    if CALL_GRAPH in layer.entries && layer.entries[CALL_GRAPH].Tab? && DISPATCH_BRIDGES in layer.entries[CALL_GRAPH].entries
       && !Fits(h, layer.entries[CALL_GRAPH].entries[DISPATCH_BRIDGES], StrTableC, false) {
      var x := ValueProblem([Key(CALL_GRAPH), Key(DISPATCH_BRIDGES)], true, true);
      assert PROJECT_ID[0] != Key(CALL_GRAPH);
      JoinOne(sc, r, x);
      r := r + [x];
    }
  }

  /** The stages of the check together name every problem place. */
  lemma {:induction false} StagesAreAll(h: Host, sc: Schema, layer: Toml, p: Path)
    requires SchemaOk(sc) && layer.Tab?
    ensures LayerProblem(h, sc, layer, p) <==>
              || ShapeProblem(sc, layer, p) || TypeProblem(h, sc, layer, p) || UrlProblem(h, sc, layer, p)
              || InVariants(h, sc, layer, p) || BridgeProblem(h, layer, p)
  {
    if |p| >= 2 && p[0].Key? && p[0].k in layer.entries && layer.entries[p[0].k].Tab? {
      assert p[1..][0] == p[1] && p[1..][1..] == p[2..];
      if |p| == 2 { assert p == [p[0], p[1]]; }
    }
  }

  ghost predicate Names(r: seq<ValueProblem>, bad: Path -> bool) {
    forall p :: p in KeySet(r) <==> bad(p)
  }

  lemma JoinStages(sc: Schema, r: seq<ValueProblem>, bad: Path -> bool, s: seq<ValueProblem>, more: Path -> bool)
    requires WellListed(sc, r) && Names(r, bad) && WellListed(sc, s) && Names(s, more)
    requires forall p :: !(bad(p) && more(p))
    ensures WellListed(sc, r + s) && Names(r + s, p => bad(p) || more(p))
  {
    Join(sc, r, s);
  }

  lemma JoinThree(sc: Schema, r: seq<ValueProblem>, bad: Path -> bool, s: seq<ValueProblem>, b1: Path -> bool,
                  t: seq<ValueProblem>, b2: Path -> bool, u: seq<ValueProblem>, b3: Path -> bool)
    requires WellListed(sc, r) && Names(r, bad) && WellListed(sc, s) && Names(s, b1)
    requires WellListed(sc, t) && Names(t, b2) && WellListed(sc, u) && Names(u, b3)
    requires forall p :: !(bad(p) && b1(p)) && !((bad(p) || b1(p)) && b2(p)) && !((bad(p) || b1(p) || b2(p)) && b3(p))
    ensures WellListed(sc, r + s + t + u)
    ensures forall p :: p in KeySet(r + s + t + u) <==> bad(p) || b1(p) || b2(p) || b3(p)
  {
    JoinStages(sc, r, bad, s, b1);
    JoinStages(sc, r + s, p => bad(p) || b1(p), t, b2);
    JoinStages(sc, r + s + t, p => (bad(p) || b1(p)) || b2(p), u, b3);
  }

  /** No value is a problem of two stages. */
  lemma {:induction false} StagesAreApart(h: Host, sc: Schema, layer: Toml)
    requires SchemaOk(sc) && layer.Tab?
    ensures forall p :: !(ShapeProblem(sc, layer, p) && TypeProblem(h, sc, layer, p))
    ensures forall p :: !((ShapeProblem(sc, layer, p) || TypeProblem(h, sc, layer, p)) && UrlProblem(h, sc, layer, p))
    ensures forall p :: !((ShapeProblem(sc, layer, p) || TypeProblem(h, sc, layer, p) || UrlProblem(h, sc, layer, p)) && InVariants(h, sc, layer, p))
    ensures forall p ::
              !((ShapeProblem(sc, layer, p) || TypeProblem(h, sc, layer, p) || UrlProblem(h, sc, layer, p) || InVariants(h, sc, layer, p))
                && BridgeProblem(h, layer, p))
  {
    assert BUILD != LLM && BUILD != CALL_GRAPH && LLM != CALL_GRAPH;
  }

  /** Every value of one file that `load` cannot use, each once, with its flags. */
  method ConfigValueProblems(h: Host, sc: Schema, layer: Toml) returns (r: seq<ValueProblem>)
    requires SchemaOk(sc) && layer.Tab?
    ensures WellListed(sc, r)
    ensures forall p :: p in KeySet(r) <==> LayerProblem(h, sc, layer, p)
  {
    var shapes := ShapeProblems(sc, layer);
    var fields := FieldProblems(h, sc, layer);
    var urls := UrlProblems(h, sc, layer);
    var variants := VariantStage(h, sc, layer);
    var bridges := BridgeStage(h, sc, layer);
    ghost var isUrl := (p: Path) => UrlProblem(h, sc, layer, p);
    ghost var inVariants := (p: Path) => InVariants(h, sc, layer, p);
    ghost var isBridge := (p: Path) => BridgeProblem(h, layer, p);
    ghost var first := (p: Path) => ShapeProblem(sc, layer, p) || TypeProblem(h, sc, layer, p);
    StagesAreApart(h, sc, layer);
    JoinStages(sc, shapes, p => ShapeProblem(sc, layer, p), fields, p => TypeProblem(h, sc, layer, p));
    JoinThree(sc, shapes + fields, first, urls, isUrl, variants, inVariants, bridges, isBridge);
    r := shapes + fields + urls + variants + bridges;
    forall p ensures p in KeySet(r) <==> LayerProblem(h, sc, layer, p) { StagesAreAll(h, sc, layer, p); }
  }
}
