/** The order of places that the repair sorts by: tuples compare item by item, keys by code
    point, positions by number. */
module PathOrder {
  import opened Collections
  import opened TomlTree

  predicate StrLess(a: string, b: string)
    decreases |a|
  {
    b != [] && (a == [] || a[0] < b[0] || (a[0] == b[0] && StrLess(a[1..], b[1..])))
  }

  lemma {:induction false} StrLessTrans(a: string, b: string, c: string)
    requires StrLess(a, b) && StrLess(b, c)
    ensures StrLess(a, c)
    decreases |a|
  {
    if a != [] && a[0] == b[0] == c[0] { StrLessTrans(a[1..], b[1..], c[1..]); }
  }

  lemma {:induction false} StrLessTotal(a: string, b: string)
    ensures a == b || StrLess(a, b) || StrLess(b, a)
    decreases |a|
  {
    if a != [] && b != [] && a[0] == b[0] {
      StrLessTotal(a[1..], b[1..]);
      assert a == [a[0]] + a[1..] && b == [b[0]] + b[1..];
    }
  }

  lemma {:induction false} StrLessIrreflexive(a: string)
    ensures !StrLess(a, a)
    decreases |a|
  {
    if a != [] { StrLessIrreflexive(a[1..]); }
  }

  /** A comparison of a key with a position is a TypeError in the program; `SameKind` states that
      none occurs, and the branch here only makes the order total. */
  predicate ItemLess(x: Item, y: Item) {
    match (x, y)
    case (Key(a), Key(b)) => StrLess(a, b)
    case (Pos(i), Pos(j)) => i < j
    case (Key(_), Pos(_)) => true
    case (Pos(_), Key(_)) => false
  }

  predicate PathLess(p: Path, q: Path)
    decreases |p|
  {
    q != [] && (p == [] || (if p[0] == q[0] then PathLess(p[1..], q[1..]) else ItemLess(p[0], q[0])))
  }

  lemma ItemLessTrans(x: Item, y: Item, z: Item)
    requires ItemLess(x, y) && ItemLess(y, z)
    ensures ItemLess(x, z) && x != z
  {
    if x.Key? && y.Key? && z.Key? { StrLessTrans(x.k, y.k, z.k); }
    if x == z && x.Key? && y.Key? { StrLessIrreflexive(x.k); }
  }

  lemma {:induction false} PathLessTrans(p: Path, q: Path, r: Path)
    requires PathLess(p, q) && PathLess(q, r)
    ensures PathLess(p, r)
    decreases |p|
  {
    if p != [] {
      if p[0] == q[0] == r[0] { PathLessTrans(p[1..], q[1..], r[1..]); }
      else if p[0] != q[0] && q[0] != r[0] { ItemLessTrans(p[0], q[0], r[0]); }
    }
  }

  lemma {:induction false} PathLessTotal(p: Path, q: Path)
    ensures p == q || PathLess(p, q) || PathLess(q, p)
    decreases |p|
  {
    if p != [] && q != [] {
      if p[0] == q[0] {
        PathLessTotal(p[1..], q[1..]);
        assert p == [p[0]] + p[1..] && q == [q[0]] + q[1..];
      } else if p[0].Key? && q[0].Key? {
        StrLessTotal(p[0].k, q[0].k);
      }
    }
  }

  ghost predicate Descending(ps: seq<Path>) {
    forall i, j | 0 <= i < j < |ps| :: PathLess(ps[j], ps[i])
  }

  function Insert(p: Path, ps: seq<Path>): (r: seq<Path>) {
    if ps == [] || PathLess(ps[0], p) then [p] + ps else [ps[0]] + Insert(p, ps[1..])
  }

  /** `sorted(..., reverse=True)` on distinct places. */
  function Sorted(ps: seq<Path>): (r: seq<Path>) {
    if ps == [] then [] else Insert(ps[0], Sorted(ps[1..]))
  }

  lemma {:induction false} InsertKeeps(p: Path, ps: seq<Path>)
    requires Descending(ps) && p !in ps
    ensures Descending(Insert(p, ps))
    ensures forall q :: q in Insert(p, ps) <==> q == p || q in ps
  {
    if ps != [] {
      assert ps == [ps[0]] + ps[1..];
      if PathLess(ps[0], p) {
        forall j | 0 <= j < |ps| ensures PathLess(ps[j], p) {
          if j > 0 { PathLessTrans(ps[j], ps[0], p); }
        }
      } else {
        PathLessTotal(p, ps[0]);
        InsertKeeps(p, ps[1..]);
        var r := Insert(p, ps[1..]);
        forall q | q in r ensures PathLess(q, ps[0]) {
          if q != p {
            var j :| 0 <= j < |ps[1..]| && ps[1..][j] == q;
            assert q == ps[j + 1];
          }
        }
      }
    }
  }

  lemma {:induction false} SortedIsDescending(ps: seq<Path>)
    requires Distinct(ps)
    ensures Descending(Sorted(ps)) && Places(Sorted(ps)) == Places(ps)
    ensures forall q :: q in Sorted(ps) <==> q in ps
  {
    if ps != [] {
      SortedIsDescending(ps[1..]);
      assert ps == [ps[0]] + ps[1..];
      InsertKeeps(ps[0], Sorted(ps[1..]));
    }
  }

  /** Where two places first differ, both items are keys or both are positions. */
  predicate SameKind(p: Path, q: Path)
    decreases |p|
  {
    p == [] || q == [] || (if p[0] == q[0] then SameKind(p[1..], q[1..]) else p[0].Key? == q[0].Key?)
  }

  /** The sort never compares a key with a position: two places of one document part ways at
      one container, which is a table or an array. */
  lemma {:induction false} PlacesOfOneDocumentAreSameKind(t: Toml, p: Path, q: Path)
    requires Present(t, p) && Present(t, q)
    ensures SameKind(p, q)
    decreases |p|
  {
    if p != [] && q != [] && p[0] == q[0] {
      PlacesOfOneDocumentAreSameKind(Child(t, p[0]), p[1..], q[1..]);
    }
  }

  lemma {:induction false} LessIsUndisturbed(p: Path, q: Path)
    requires PathLess(p, q)
    ensures Undisturbed(p, q)
    decreases |p|
  {
    if p != [] && q != [] && p[0] == q[0] { LessIsUndisturbed(p[1..], q[1..]); }
  }

  lemma {:induction false} PathLessIrreflexive(p: Path)
    ensures !PathLess(p, p)
    decreases |p|
  {
    if p != [] { PathLessIrreflexive(p[1..]); }
  }

  lemma DescendingIsSafe(ps: seq<Path>)
    requires Descending(ps)
    ensures SafeOrder(ps)
  {
    forall i, j | 0 <= i < j < |ps| ensures ps[i] != ps[j] && Undisturbed(ps[j], ps[i]) {
      LessIsUndisturbed(ps[j], ps[i]);
      PathLessIrreflexive(ps[j]);
    }
  }

  /** Sorting the places of a document from last to first and removing them one by one is the
      removal of all of them at once. */
  lemma SortedRemovalIsSimultaneous(t: Toml, ps: seq<Path>)
    requires Distinct(ps) && PrefixFree(Places(ps)) && NonEmpty(ps)
    requires forall p | p in ps :: Present(t, p)
    ensures NonEmpty(Sorted(ps))
    ensures RemoveAll(t, Sorted(ps)) == Some(Prune(t, Places(ps)))
  {
    SortedIsDescending(ps);
    DescendingIsSafe(Sorted(ps));
    forall i | 0 <= i < |Sorted(ps)| ensures Sorted(ps)[i] != [] {
      assert Sorted(ps)[i] in ps;
    }
    OrderedRemovalIsSimultaneous(t, Sorted(ps));
  }

  /** A place made of keys only is undisturbed by every removal at a place made of keys only. */
  lemma {:induction false} KeyPlacesAreUndisturbed(p: Path, q: Path)
    requires forall i | 0 <= i < |p| :: p[i].Key?
    ensures Undisturbed(p, q)
    decreases |p|
  {
    if p != [] && q != [] && p[0] == q[0] { KeyPlacesAreUndisturbed(p[1..], q[1..]); }
  }
}
