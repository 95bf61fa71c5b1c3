/** The repair of one configuration file (`remove_unusable_values`, `_remove_at`). */
module ConfigRepair {
  import opened Collections
  import opened TomlTree
  import opened PathOrder
  import opened ConfigSchema
  import opened ConfigCheck
  import opened ConfigLoad

  /** The places that the repair removes: all but the project ID. */
  ghost function Removable(h: Host, sc: Schema, layer: Toml): iset<Path> {
    iset p | LayerProblem(h, sc, layer, p) && p != PROJECT_ID
  }

  /** What the repair leaves: the document without exactly the removable places. */
  ghost function Repaired(h: Host, sc: Schema, layer: Toml): Toml {
    Prune(layer, Removable(h, sc, layer))
  }

  /** One pass is enough: afterwards at most the project ID is left, and only when it was wrong
      before. */
  lemma {:induction false} RepairIsComplete(h: Host, sc: Schema, layer: Toml)
    requires SchemaOk(sc) && layer.Tab?
    ensures forall q :: LayerProblem(h, sc, Repaired(h, sc, layer), q) <==> LayerProblem(h, sc, layer, q) && q == PROJECT_ID
    ensures Repaired(h, sc, Repaired(h, sc, layer)) == Repaired(h, sc, layer)
  {
    assert PROJECT_ID[0] != Key(BUILD) by { assert "project"[0] == 'p' && BUILD[0] == 'b'; }
    OnePassIsEnough(h, sc, layer, Removable(h, sc, layer), iset{PROJECT_ID});
    assert Removable(h, sc, Repaired(h, sc, layer)) == iset{};
    PruneNothing(Repaired(h, sc, layer));
  }

  /** A repaired file whose project ID is right is one that `load` accepts, with no warning. */
  lemma {:induction false} RepairedFileLoads(h: Host, sc: Schema, layer: Toml)
    requires SchemaOk(sc) && layer.Tab? && !LayerProblem(h, sc, layer, PROJECT_ID)
    ensures Usable(h, sc, Repaired(h, sc, layer)) && !Refused(h, sc, Repaired(h, sc, layer))
  {
    RepairIsComplete(h, sc, layer);
  }

  /** The sort of the places compares keys with keys and positions with positions only. */
  lemma {:induction false} ProblemPlacesCompare(h: Host, sc: Schema, layer: Toml, p: Path, q: Path)
    requires LayerProblem(h, sc, layer, p) && LayerProblem(h, sc, layer, q)
    ensures SameKind(p, q)
  {
    ProblemsArePresent(h, sc, layer, p);
    ProblemsArePresent(h, sc, layer, q);
    PlacesOfOneDocumentAreSameKind(layer, p, q);
  }

  method RemovablePlaces(sc: Schema, problems: seq<ValueProblem>) returns (removable: seq<Path>, kept: seq<Path>)
    requires WellListed(sc, problems)
    ensures Distinct(removable) && Places(removable) == KeySet(problems) - iset{PROJECT_ID}
    ensures Places(kept) == KeySet(problems) * iset{PROJECT_ID}
  {
    removable, kept := [], [];
    ghost var ps := PlacesOf(problems);
    for n := 0 to |problems|
      invariant Distinct(removable)
      invariant forall p :: p in removable <==> p in ps[..n] && p != PROJECT_ID
      invariant forall p :: p in kept <==> p in ps[..n] && p == PROJECT_ID
    {
      assert ps[..n + 1] == ps[..n] + [problems[n].keys];
      assert problems[n].keys !in ps[..n];
      if problems[n].removable { removable := removable + [problems[n].keys]; }
      else { kept := kept + [problems[n].keys]; }
    }
    assert ps[..|problems|] == ps;
  }

  lemma EmptyPlaces(ps: seq<Path>)
    ensures ps != [] ==> Places(ps) != iset{}
  {
    if ps != [] { assert ps[0] in Places(ps); }
  }

  class ConfigFile {
    var text: Toml       // what the file on disk says
    var document: Toml   // the parsed document, edited in place
    const readOnly: bool

    constructor (text: Toml, readOnly: bool)
      ensures this.text == text && document == text && this.readOnly == readOnly
    {
      this.text, document, this.readOnly := text, text, readOnly;
    }

    method RemovePlace(keys: Path)
      requires keys != [] && RemoveAt(document, keys).Some?
      modifies this`document
      ensures Some(document) == RemoveAt(old(document), keys)
    {
      document := RemoveAt(document, keys).value;
    }

    /** The last place first. */
    method RemovePlaces(places: seq<Path>)
      requires Distinct(places) && PrefixFree(Places(places)) && NonEmpty(places)
      requires forall p | p in places :: Present(document, p)
      modifies this`document
      ensures document == Prune(old(document), Places(places))
    {
      ghost var before := document;
      var order := Sorted(places);
      SortedIsDescending(places);
      DescendingIsSafe(order);
      PruneNothing(before);
      assert Places(order[..0]) == iset{};
      for n := 0 to |order|
        invariant document == Prune(before, Places(order[..n]))
      {
        NextRemoval(before, order, n);
        RemovePlace(order[n]);
      }
      assert order[..|order|] == order;
    }

    /** `removed` and `failed` are the places of the report.  The file changes exactly when places
        were removed from it, and then into the document without exactly these places. */
    method RemoveUnusableValues(h: Host, sc: Schema, dryRun: bool, writeFails: bool)
      returns (removed: seq<Path>, failed: seq<Path>)
      requires SchemaOk(sc) && text.Tab?
      modifies this
      ensures
        var removable := Removable(h, sc, old(text));
        var blocked := readOnly || (!dryRun && writeFails);
        && Places(removed) == (if blocked then iset{} else removable)
        && Places(failed) == (if blocked then Problems(h, sc, old(text)) else Problems(h, sc, old(text)) - removable)
        && text == (if blocked || dryRun then old(text) else Repaired(h, sc, old(text)))
    {
      document := text;
      var problems := ConfigValueProblems(h, sc, document);
      assert KeySet(problems) == Problems(h, sc, text);
      var removable, kept := RemovablePlaces(sc, problems);
      removed, failed := [], kept;
      assert Places(removable) == Removable(h, sc, text);
      if removable == [] {
        assert Removable(h, sc, text) == iset{};
        PruneNothing(text);
        assert Places(failed) == Problems(h, sc, text);
        assert Places(removed) == iset{};
        return;
      }
      ProblemsArePrefixFree(h, sc, document, Places(removable));
      forall p | p in removable ensures p != [] && Present(document, p) {
        assert p in Places(removable);
        ProblemsArePresent(h, sc, document, p);
      }
      RemovePlaces(removable);
      // The check for values that are still there: the removals leave none.
      RepairIsComplete(h, sc, text);
      var rest := ConfigValueProblems(h, sc, document);
      var left, _ := RemovablePlaces(sc, rest);
      assert Places(left) == iset{};
      EmptyPlaces(left);
      if left != [] || readOnly || (!dryRun && writeFails) {
        assert Places(failed + removable) == Places(failed) + Places(removable);
        failed := failed + removable;
        assert Places(failed) == Problems(h, sc, old(text));
      } else {
        assert Places(failed) == Problems(h, sc, old(text)) - Removable(h, sc, old(text));
        removed := removable;
        if !dryRun { text := document; }
      }
    }
  }

  lemma {:induction false} NextRemoval(t: Toml, ps: seq<Path>, n: nat)
    requires n < |ps| && SafeOrder(ps) && PrefixFree(Places(ps)) && Present(t, ps[n])
    ensures ps[n] != []
    ensures RemoveAt(Prune(t, Places(ps[..n])), ps[n]) == Some(Prune(t, Places(ps[..n + 1])))
  {
    var done, p := Places(ps[..n]), ps[n];
    assert p in Places(ps);
    assert ps[..n + 1] == ps[..n] + [p];
    assert Places(ps[..n + 1]) == done + iset{p};
    assert done + iset{p} <= Places(ps);
    forall q | q in done ensures q != p && Undisturbed(p, q) {
      var i :| 0 <= i < n && ps[i] == q;
    }
    RemoveOneMore(t, done, p);
  }
}
