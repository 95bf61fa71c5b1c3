/** When the grouping of a merge of accepted layers is free. */
module MergeOrder {
  import opened Collections
  import opened TomlTree
  import opened LayerMerge
  import opened ConfigSchema
  import opened ConfigLoad

  predicate TypedKey(sc: Schema, s: string, k: string) {
    || FieldConv(sc, s, k).Some?
    || (s == BUILD && k == VARIANTS)
    || (s == CALL_GRAPH && k == DISPATCH_BRIDGES)
  }

  /** Every section and every key of the layer is one that the checks give a type to. */
  ghost predicate OnlyTyped(sc: Schema, layer: Toml) {
    layer.Tab? && forall s | s in layer.entries ::
      s in sc.known && (layer.entries[s].Tab? ==> forall k | k in layer.entries[s].entries :: TypedKey(sc, s, k))
  }

  /** A value that fits its type is no table, or a table of plain values. */
  lemma {:induction false} FittingTablesAreFlat(h: Host, sc: Schema, s: string, k: string, v: Toml)
    requires SchemaOk(sc) && TypedKey(sc, s, k) && !ValueProblemAt(h, sc, s, k, v)
    requires s == BUILD && k == VARIANTS ==> v.Arr?
    ensures v.Tab? ==> TableTyped(sc, s, k) && forall x | x in v.entries :: !v.entries[x].Tab?
    ensures TableTyped(sc, s, k) ==> v.Tab?
  {
  }

  predicate TableTyped(sc: Schema, s: string, k: string) {
    (FieldConv(sc, s, k).Some? && IsTable(FieldConv(sc, s, k).value)) || (s == CALL_GRAPH && k == DISPATCH_BRIDGES)
  }

  lemma {:induction false} FieldsHideNoTable(h: Host, sc: Schema, s: string, k: string, x: Toml, y: Toml, z: Toml)
    requires SchemaOk(sc) && TypedKey(sc, s, k)
    requires !ValueProblemAt(h, sc, s, k, x) && !ValueProblemAt(h, sc, s, k, y) && !ValueProblemAt(h, sc, s, k, z)
    requires s == BUILD && k == VARIANTS ==> x.Arr? && y.Arr? && z.Arr?
    ensures NoTableHidden(x, y, z)
  {
    FittingTablesAreFlat(h, sc, s, k, x);
    FittingTablesAreFlat(h, sc, s, k, y);
  }

  /** Accepted layers that hold typed keys only: the merge of three is the same whichever pair
      goes first. */
  lemma {:induction false} UsableLayersMergeInAnyGrouping(h: Host, sc: Schema, a: Toml, b: Toml, c: Toml)
    requires SchemaOk(sc)
    requires Usable(h, sc, a) && Usable(h, sc, b) && Usable(h, sc, c)
    requires OnlyTyped(sc, a) && OnlyTyped(sc, b) && OnlyTyped(sc, c)
    ensures Merge(Merge(a, b), c) == Merge(a, Merge(b, c))
  {
    forall s | s in a.entries && s in b.entries && s in c.entries
      ensures NoTableHidden(a.entries[s], b.entries[s], c.entries[s])
    {
      SectionsHideNoTable(h, sc, a, b, c, s);
    }
    MergeAssociativity(a, b, c);
  }

  lemma {:induction false} SectionsHideNoTable(h: Host, sc: Schema, a: Toml, b: Toml, c: Toml, s: string)
    requires SchemaOk(sc)
    requires Usable(h, sc, a) && Usable(h, sc, b) && Usable(h, sc, c)
    requires OnlyTyped(sc, a) && OnlyTyped(sc, b) && OnlyTyped(sc, c)
    requires s in a.entries && s in b.entries && s in c.entries
    ensures NoTableHidden(a.entries[s], b.entries[s], c.entries[s])
  {
    UsableSection(h, sc, a, s);
    UsableSection(h, sc, b, s);
    UsableSection(h, sc, c, s);
    var x, y, z := a.entries[s].entries, b.entries[s].entries, c.entries[s].entries;
    forall k | k in x && k in y && k in z ensures NoTableHidden(x[k], y[k], z[k]) {
      UsableField(h, sc, a, s, k);
      UsableField(h, sc, b, s, k);
      UsableField(h, sc, c, s, k);
      assert !FieldProblem(h, sc, s, k, x[k], []) && !FieldProblem(h, sc, s, k, y[k], []) && !FieldProblem(h, sc, s, k, z[k], []);
      FieldsHideNoTable(h, sc, s, k, x[k], y[k], z[k]);
    }
  }

  lemma {:induction false} UnknownSectionIsUsable(h: Host, sc: Schema, s: string, v: Toml)
    requires SchemaOk(sc) && s !in sc.known
    ensures Usable(h, sc, Tab(map[s := v]))
  {
    forall q: Path ensures !LayerProblem(h, sc, Tab(map[s := v]), q) {}
  }

  /** Accepted layers may also hold sections that no check knows, and there the grouping counts. */
  lemma {:induction false} UnknownSectionsBreakTheGrouping(h: Host, sc: Schema, s: string)
    requires SchemaOk(sc) && s !in sc.known
    ensures
      var a, b, c := Tab(map[s := Tab(map["x" := Bool(true)])]), Tab(map[s := Bool(true)]), Tab(map[s := Tab(map[])]);
      && Usable(h, sc, a) && Usable(h, sc, b) && Usable(h, sc, c)
      && Merge(Merge(a, b), c) != Merge(a, Merge(b, c))
  {
    var x, y, z := Tab(map["x" := Bool(true)]), Bool(true), Tab(map[]);
    UnknownSectionIsUsable(h, sc, s, x);
    UnknownSectionIsUsable(h, sc, s, y);
    UnknownSectionIsUsable(h, sc, s, z);
    MergeAssociativity(Tab(map[s := x]), Tab(map[s := y]), Tab(map[s := z]));
    assert "x" in x.entries && "x" !in z.entries;
    assert !Covered(x, z);
  }
}
