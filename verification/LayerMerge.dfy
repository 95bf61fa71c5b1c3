/** The deep merge of configuration layers (`_deep_merge`). */
module LayerMerge {
  import opened TomlTree

  /** `override` over `base`: two tables merge key by key, any other value replaces. */
  function Merge(base: Toml, override: Toml): Toml
    decreases override
  {
    if base.Tab? && override.Tab? then
      Tab(map k | k in base.entries.Keys + override.entries.Keys ::
            if k !in override.entries then base.entries[k]
            else if k !in base.entries then override.entries[k]
            else Merge(base.entries[k], override.entries[k]))
    else override
  }

  /** Every key of table `a` is in table `c`, at every depth at which both are tables. */
  ghost predicate Covered(a: Toml, c: Toml)
    decreases c
  {
    a.Tab? && c.Tab? ==>
      forall k | k in a.entries :: k in c.entries && Covered(a.entries[k], c.entries[k])
  }

  lemma {:induction false} MergeAbsorbs(a: Toml, c: Toml)
    ensures Merge(a, c) == c <==> Covered(a, c)
    decreases c
  {
    if a.Tab? && c.Tab? {
      forall k | k in a.entries && k in c.entries
        ensures Merge(a.entries[k], c.entries[k]) == c.entries[k] <==> Covered(a.entries[k], c.entries[k])
      {
        MergeAbsorbs(a.entries[k], c.entries[k]);
      }
      var m := Merge(a, c).entries;
      if Merge(a, c) == c {
        forall k | k in a.entries ensures k in c.entries && Covered(a.entries[k], c.entries[k]) {
          assert k in m;
          assert m[k] == c.entries[k];
        }
      }
      if Covered(a, c) { assert m == c.entries; }
    }
  }

  /** Nowhere does a value that is not a table stand between two tables, the lower of which
      holds a key that the upper one does not. */
  ghost predicate NoTableHidden(a: Toml, b: Toml, c: Toml)
    decreases c
  {
    a.Tab? && c.Tab? ==>
      if b.Tab? then
        forall k | k in a.entries && k in b.entries && k in c.entries ::
          NoTableHidden(a.entries[k], b.entries[k], c.entries[k])
      else Covered(a, c)
  }

  /** The merge of three layers does not depend on which pair goes first exactly when no middle
      layer hides a table. */
  lemma {:induction false} MergeAssociativity(a: Toml, b: Toml, c: Toml)
    ensures Merge(Merge(a, b), c) == Merge(a, Merge(b, c)) <==> NoTableHidden(a, b, c)
    decreases c
  {
    if a.Tab? && c.Tab? {
      if b.Tab? {
        MergeAssociativityTables(a, b, c);
      } else {
        MergeAbsorbs(a, c);
      }
    }
  }

  lemma {:induction false} MergeAssociativityTables(a: Toml, b: Toml, c: Toml)
    requires a.Tab? && b.Tab? && c.Tab?
    ensures Merge(Merge(a, b), c) == Merge(a, Merge(b, c)) <==> NoTableHidden(a, b, c)
    decreases c, 0
  {
    var l, r := Merge(Merge(a, b), c).entries, Merge(a, Merge(b, c)).entries;
    assert l.Keys == r.Keys;
    forall k | k in l
      ensures l[k] == r[k] <==>
        (k in a.entries && k in b.entries && k in c.entries ==> NoTableHidden(a.entries[k], b.entries[k], c.entries[k]))
    {
      if k in a.entries && k in b.entries && k in c.entries {
        MergeAssociativity(a.entries[k], b.entries[k], c.entries[k]);
      }
    }
    if Merge(Merge(a, b), c) == Merge(a, Merge(b, c)) {
      forall k | k in a.entries && k in b.entries && k in c.entries
        ensures NoTableHidden(a.entries[k], b.entries[k], c.entries[k])
      {
        assert k in l && l[k] == r[k];
      }
    }
    if NoTableHidden(a, b, c) { assert l == r; }
  }

  /** The layers in load order, each over the merge of the ones below. */
  function MergeAll(layers: seq<Toml>): Toml {
    if layers == [] then Tab(map[])
    else Merge(MergeAll(layers[..|layers| - 1]), layers[|layers| - 1])
  }
}
