/** TOML documents as trees, the places in them, removal of places, and the merge of layers.

    A table is a map: the order of the keys of one table carries no meaning in TOML.  An array
    is a sequence: a removal moves every later element, which is what makes the order of a
    series of removals matter. */
module TomlTree {
  import opened Collections

  datatype Toml =
    | Str(s: string)
    | Int(i: int)
    | Float(f: real)
    | Bool(b: bool)
    | Date(text: string)
    | Arr(items: seq<Toml>)
    | Tab(entries: map<string, Toml>)

  /** One step into a document: a key of a table, or a position in an array. */
  datatype Item = Key(k: string) | Pos(i: nat)

  type Path = seq<Item>

  predicate Has(t: Toml, item: Item) {
    match item
    case Key(k) => t.Tab? && k in t.entries
    case Pos(i) => t.Arr? && i < |t.items|
  }

  function Child(t: Toml, item: Item): (c: Toml)
    requires Has(t, item)
    ensures c < t
  {
    match item
    case Key(k) => t.entries[k]
    case Pos(i) => t.items[i]
  }

  predicate Present(t: Toml, p: Path)
    decreases |p|
  {
    p == [] || (Has(t, p[0]) && Present(Child(t, p[0]), p[1..]))
  }

  // ---------------------------------------------------------------- removal, one place at a time

  function Without(t: Toml, item: Item): Toml
    requires Has(t, item)
  {
    match item
    case Key(k) => Tab(t.entries - {k})
    case Pos(i) => Arr(t.items[..i] + t.items[i + 1..])
  }

  function With(t: Toml, item: Item, c: Toml): Toml
    requires Has(t, item)
  {
    match item
    case Key(k) => Tab(t.entries[k := c])
    case Pos(i) => Arr(t.items[i := c])
  }

  /** Walk to the container of the last step and delete that step; None stands for the
      KeyError or IndexError of a place that is not there. */
  function RemoveAt(t: Toml, p: Path): Option<Toml>
    requires p != []
    decreases |p|
  {
    if !Has(t, p[0]) then None
    else if |p| == 1 then Some(Without(t, p[0]))
    else match RemoveAt(Child(t, p[0]), p[1..])
      case None => None
      case Some(c) => Some(With(t, p[0], c))
  }

  ghost predicate NonEmpty(ps: seq<Path>) {
    forall i | 0 <= i < |ps| :: ps[i] != []
  }

  /** The removals in the order of `ps`; the first place that is missing stops the run. */
  function RemoveAll(t: Toml, ps: seq<Path>): Option<Toml>
    requires NonEmpty(ps)
    decreases |ps|
  {
    if ps == [] then Some(t)
    else match RemoveAt(t, ps[0])
      case None => None
      case Some(t') => RemoveAll(t', ps[1..])
  }

  // ---------------------------------------------------------------- removal of all places at once

  ghost function Tails(ps: iset<Path>, item: Item): (r: iset<Path>)
    ensures forall q :: q in r <==> [item] + q in ps
  {
    iset q: Path | [item] + q in ps
  }

  ghost predicate Inside(xs: seq<Toml>, whole: Toml) {
    forall i | 0 <= i < |xs| :: xs[i] < whole
  }

  /** The document in which exactly the nodes at `ps` are gone, all other nodes as they were. */
  ghost function Prune(t: Toml, ps: iset<Path>): Toml
    decreases t, 1, 0
  {
    match t
    case Tab(_) => Tab(map k | k in t.entries && [Key(k)] !in ps :: Prune(t.entries[k], Tails(ps, Key(k))))
    case Arr(_) => Arr(PruneItems(t, t.items, ps, 0))
    case _ => t
  }

  ghost function PruneItems(whole: Toml, xs: seq<Toml>, ps: iset<Path>, off: nat): seq<Toml>
    requires Inside(xs, whole)
    decreases whole, 0, |xs|
  {
    if xs == [] then []
    else (if [Pos(off)] in ps then [] else [Prune(xs[0], Tails(ps, Pos(off)))])
         + PruneItems(whole, xs[1..], ps, off + 1)
  }

  lemma {:induction false} PruneNothing(t: Toml)
    ensures Prune(t, iset{}) == t
    decreases t, 1, 0
  {
    match t
    case Tab(_) =>
      forall k | k in t.entries ensures Prune(t.entries[k], Tails(iset{}, Key(k))) == t.entries[k] {
        assert Tails(iset{}, Key(k)) == iset{};
        PruneNothing(t.entries[k]);
      }
    case Arr(_) => PruneItemsNothing(t, t.items, iset{}, 0);
    case _ =>
  }

  /** No removal at or after `off` leaves the elements from there on alone. */
  lemma {:induction false} PruneItemsNothing(whole: Toml, xs: seq<Toml>, ps: iset<Path>, off: nat)
    requires Inside(xs, whole)
    requires forall p: Path | p in ps :: p != [] && (p[0].Pos? ==> p[0].i >= off + |xs|)
    ensures PruneItems(whole, xs, ps, off) == xs
    decreases whole, 0, |xs|
  {
    if xs != [] {
      assert Tails(ps, Pos(off)) == iset{} by {
        forall q ensures q !in Tails(ps, Pos(off)) {
          assert ([Pos(off)] + q)[0] == Pos(off);
        }
      }
      PruneNothing(xs[0]);
      PruneItemsNothing(whole, xs[1..], ps, off + 1);
    }
  }

  lemma {:induction false} PruneItemsConcat(whole: Toml, xs: seq<Toml>, ys: seq<Toml>, ps: iset<Path>, off: nat)
    requires Inside(xs, whole) && Inside(ys, whole)
    ensures Inside(xs + ys, whole)
    ensures PruneItems(whole, xs + ys, ps, off) == PruneItems(whole, xs, ps, off) + PruneItems(whole, ys, ps, off + |xs|)
    decreases |xs|
  {
    if xs == [] {
      assert xs + ys == ys;
    } else {
      assert (xs + ys)[1..] == xs[1..] + ys;
      PruneItemsConcat(whole, xs[1..], ys, ps, off + 1);
      var kept := if [Pos(off)] in ps then [] else [Prune(xs[0], Tails(ps, Pos(off)))];
      var mid, rest := PruneItems(whole, xs[1..], ps, off + 1), PruneItems(whole, ys, ps, off + |xs|);
      assert kept + (mid + rest) == (kept + mid) + rest;
    }
  }

  /** Only the places with a position inside `[off, off + |xs|)` bear on `xs`. */
  lemma {:induction false} PruneItemsCongruent(whole: Toml, xs: seq<Toml>, ps: iset<Path>, qs: iset<Path>, off: nat)
    requires Inside(xs, whole)
    requires forall j: nat, q: Path | off <= j < off + |xs| :: [Pos(j)] + q in ps <==> [Pos(j)] + q in qs
    ensures PruneItems(whole, xs, ps, off) == PruneItems(whole, xs, qs, off)
    decreases |xs|
  {
    if xs != [] {
      assert [Pos(off)] + [] == [Pos(off)];
      assert Tails(ps, Pos(off)) == Tails(qs, Pos(off));
      PruneItemsCongruent(whole, xs[1..], ps, qs, off + 1);
    }
  }

  /** Every element that stays is the pruned form of an element of the original array. */
  lemma {:induction false} PrunedItemOrigin(whole: Toml, xs: seq<Toml>, ps: iset<Path>, off: nat, j: nat) returns (i: nat)
    requires Inside(xs, whole)
    requires j < |PruneItems(whole, xs, ps, off)|
    ensures i < |xs| && [Pos(off + i)] !in ps
    ensures PruneItems(whole, xs, ps, off)[j] == Prune(xs[i], Tails(ps, Pos(off + i)))
    decreases |xs|
  {
    if [Pos(off)] in ps {
      i := PrunedItemOrigin(whole, xs[1..], ps, off + 1, j);
      i := i + 1;
    } else if j == 0 {
      i := 0;
    } else {
      i := PrunedItemOrigin(whole, xs[1..], ps, off + 1, j - 1);
      i := i + 1;
    }
  }

  // ---------------------------------------------------------------- ordered removal equals removal at once

  ghost predicate PrefixFree(ps: iset<Path>) {
    && [] !in ps
    && forall p, q | p in ps && q in ps && p <= q :: p == q
  }

  /** A removal at `q` moves nothing on the way to `p`: where the two first differ, they differ
      by key, or `q` has the later position in one array. */
  predicate Undisturbed(p: Path, q: Path)
    decreases |p|
  {
    if p == [] || q == [] then true
    else if p[0] == q[0] then Undisturbed(p[1..], q[1..])
    else p[0].Pos? && q[0].Pos? ==> p[0].i < q[0].i
  }

  lemma PrefixFreeTails(ps: iset<Path>, item: Item)
    requires PrefixFree(ps) && [item] !in ps
    ensures PrefixFree(Tails(ps, item))
  {
    assert [item] + [] == [item];
    forall p, q | p in Tails(ps, item) && q in Tails(ps, item) && p <= q ensures p == q {
      var p', q' := [item] + p, [item] + q;
      assert p' <= q';
      assert p == p'[1..] && q == q'[1..];
    }
  }

  lemma TailsOfUnion(ps: iset<Path>, p: Path, item: Item)
    requires p != []
    ensures Tails(ps + iset{p}, item) == if p[0] == item then Tails(ps, item) + iset{p[1..]} else Tails(ps, item)
  {
    forall q ensures q in Tails(ps + iset{p}, item) <==> q in Tails(ps, item) || (p[0] == item && q == p[1..]) {
      if [item] + q == p { assert q == p[1..]; }
      if p[0] == item && q == p[1..] { assert [item] + q == p; }
    }
  }

  /** A removal at a place that is undisturbed by all removals before it finds its target, and
      the result is the removal of one more place at once. */
  lemma {:induction false} RemoveOneMore(t: Toml, ps: iset<Path>, p: Path)
    requires p !in ps && PrefixFree(ps + iset{p}) && Present(t, p)
    requires forall q | q in ps :: Undisturbed(p, q)
    ensures RemoveAt(Prune(t, ps), p) == Some(Prune(t, ps + iset{p}))
    decreases |p|
  {
    assert p in ps + iset{p};
    var item := p[0];
    match item
    case Key(k) => RemoveOneMoreKey(t, ps, p, k);
    case Pos(i) => RemoveOneMorePos(t, ps, p, i);
  }

  lemma {:induction false} RemoveOneMoreBelow(t: Toml, ps: iset<Path>, p: Path)
    requires |p| > 1 && p !in ps && PrefixFree(ps + iset{p}) && Present(t, p)
    requires forall q | q in ps :: Undisturbed(p, q)
    ensures [p[0]] !in ps + iset{p}
    ensures RemoveAt(Prune(Child(t, p[0]), Tails(ps, p[0])), p[1..]) == Some(Prune(Child(t, p[0]), Tails(ps + iset{p}, p[0])))
    decreases |p|, 0
  {
    var item := p[0];
    assert [item] <= p && p in ps + iset{p};
    PrefixFreeTails(ps + iset{p}, item);
    TailsOfUnion(ps, p, item);
    assert [item] + p[1..] == p;
    forall q | q in Tails(ps, item) ensures Undisturbed(p[1..], q) {
      assert Undisturbed(p, [item] + q);
      assert ([item] + q)[1..] == q;
    }
    RemoveOneMore(Child(t, item), Tails(ps, item), p[1..]);
  }

  lemma OtherKeysPruneAlike(t: Toml, ps: iset<Path>, p: Path, k: string)
    requires t.Tab? && p != [] && p[0] == Key(k)
    ensures Prune(t, ps).entries - {k} == Prune(t, ps + iset{p}).entries - {k}
  {
    forall k' | k' in t.entries && k' != k
      ensures Tails(ps + iset{p}, Key(k')) == Tails(ps, Key(k'))
      ensures [Key(k')] in ps + iset{p} <==> [Key(k')] in ps
    {
      TailsOfUnion(ps, p, Key(k'));
      assert [Key(k')] != p;
    }
  }

  lemma DropKey(a: Toml, b: Toml, k: string)
    requires a.Tab? && b.Tab? && k in a.entries && k !in b.entries
    requires a.entries - {k} == b.entries - {k}
    ensures Without(a, Key(k)) == b
  {
    assert b.entries - {k} == b.entries;
  }

  lemma SwapKey(a: Toml, b: Toml, k: string)
    requires a.Tab? && b.Tab? && k in a.entries && k in b.entries
    requires a.entries - {k} == b.entries - {k}
    ensures With(a, Key(k), b.entries[k]) == b
  {
    forall k' | k' in b.entries ensures k' in a.entries && (k' != k ==> a.entries[k'] == b.entries[k']) {
      if k' != k { assert k' in b.entries - {k} && (a.entries - {k})[k'] == (b.entries - {k})[k']; }
    }
    forall k' | k' in a.entries ensures k' in b.entries {
      if k' != k { assert k' in a.entries - {k}; }
    }
    assert a.entries[k := b.entries[k]] == b.entries;
  }

  lemma PathOfOne(p: Path)
    requires |p| == 1
    ensures p == [p[0]]
  {
  }

  lemma HeadNotRemoved(ps: iset<Path>, p: Path)
    requires p != [] && p !in ps && PrefixFree(ps + iset{p})
    ensures [p[0]] !in ps
    ensures |p| > 1 ==> [p[0]] !in ps + iset{p}
  {
    assert [p[0]] <= p && p in ps + iset{p};
  }

  lemma {:induction false} RemoveOneMoreKey(t: Toml, ps: iset<Path>, p: Path, k: string)
    requires p != [] && p[0] == Key(k)
    requires p !in ps && PrefixFree(ps + iset{p}) && Present(t, p)
    requires forall q | q in ps :: Undisturbed(p, q)
    ensures RemoveAt(Prune(t, ps), p) == Some(Prune(t, ps + iset{p}))
    decreases |p|, 1
  {
    HeadNotRemoved(ps, p);
    OtherKeysPruneAlike(t, ps, p, k);
    if |p| == 1 {
      PathOfOne(p);
      DropKey(Prune(t, ps), Prune(t, ps + iset{p}), k);
    } else {
      RemoveOneMoreBelow(t, ps, p);
      SwapKey(Prune(t, ps), Prune(t, ps + iset{p}), k);
    }
  }

  /** Every removal in array `t` is at position `i` or after it. */
  ghost predicate NotBefore(ps: iset<Path>, i: nat) {
    forall q: Path | q in ps :: q != [] && (q[0].Pos? ==> i <= q[0].i)
  }

  lemma {:induction false} PruneSplit(t: Toml, ps: iset<Path>, i: nat)
    requires t.Arr? && i < |t.items| && NotBefore(ps, i)
    ensures Prune(t, ps) == Arr(t.items[..i] + PruneItems(t, t.items[i..], ps, i))
  {
    var xs := t.items;
    assert xs == xs[..i] + xs[i..];
    PruneItemsConcat(t, xs[..i], xs[i..], ps, 0);
    PruneItemsNothing(t, xs[..i], ps, 0);
  }

  lemma {:induction false} PruneAround(t: Toml, ps: iset<Path>, i: nat)
    requires t.Arr? && i < |t.items| && NotBefore(ps, i)
    ensures Prune(t, ps) == Arr(t.items[..i]
                                + (if [Pos(i)] in ps then [] else [Prune(t.items[i], Tails(ps, Pos(i)))])
                                + PruneItems(t, t.items[i + 1..], ps, i + 1))
  {
    PruneSplit(t, ps, i);
    assert t.items[i..][1..] == t.items[i + 1..];
  }

  lemma LaterElementsPruneAlike(t: Toml, ps: iset<Path>, p: Path, i: nat)
    requires t.Arr? && i < |t.items| && p != [] && p[0] == Pos(i)
    ensures PruneItems(t, t.items[i + 1..], ps, i + 1) == PruneItems(t, t.items[i + 1..], ps + iset{p}, i + 1)
  {
    forall j: nat, q: Path | i + 1 <= j < i + 1 + |t.items[i + 1..]|
      ensures [Pos(j)] + q in ps <==> [Pos(j)] + q in ps + iset{p}
    {
      assert ([Pos(j)] + q)[0] != p[0];
    }
    PruneItemsCongruent(t, t.items[i + 1..], ps, ps + iset{p}, i + 1);
  }

  lemma UndisturbedIsNotBefore(ps: iset<Path>, p: Path, i: nat)
    requires p != [] && p[0] == Pos(i) && [] !in ps
    requires forall q | q in ps :: Undisturbed(p, q)
    ensures NotBefore(ps, i) && NotBefore(ps + iset{p}, i)
  {
  }

  lemma {:induction false} RemoveOneMorePos(t: Toml, ps: iset<Path>, p: Path, i: nat)
    requires p != [] && p[0] == Pos(i)
    requires p !in ps && PrefixFree(ps + iset{p}) && Present(t, p)
    requires forall q | q in ps :: Undisturbed(p, q)
    ensures RemoveAt(Prune(t, ps), p) == Some(Prune(t, ps + iset{p}))
    decreases |p|, 1
  {
    HeadNotRemoved(ps, p);
    UndisturbedIsNotBefore(ps, p, i);
    PruneAround(t, ps, i);
    PruneAround(t, ps + iset{p}, i);
    LaterElementsPruneAlike(t, ps, p, i);
    var left, right := t.items[..i], PruneItems(t, t.items[i + 1..], ps, i + 1);
    if |p| == 1 {
      PathOfOne(p);
      DropMiddle(left, Prune(t.items[i], Tails(ps, Pos(i))), right);
    } else {
      RemoveOneMoreBelow(t, ps, p);
      SwapMiddle(left, Prune(t.items[i], Tails(ps, Pos(i))), Prune(t.items[i], Tails(ps + iset{p}, Pos(i))), right);
    }
  }

  lemma DropMiddle(left: seq<Toml>, x: Toml, right: seq<Toml>)
    ensures Without(Arr(left + [x] + right), Pos(|left|)) == Arr(left + [] + right)
  {
    var xs := left + [x] + right;
    assert xs[..|left|] == left && xs[|left| + 1..] == right;
  }

  lemma SwapMiddle(left: seq<Toml>, x: Toml, y: Toml, right: seq<Toml>)
    ensures With(Arr(left + [x] + right), Pos(|left|), y) == Arr(left + [y] + right)
  {
    assert (left + [x] + right)[|left| := y] == left + [y] + right;
  }

  // ---------------------------------------------------------------- a whole list of removals

  ghost function Places(ps: seq<Path>): iset<Path> {
    iset p | p in ps
  }

  /** `ps` names each place once, and each place is undisturbed by the removals before it. */
  ghost predicate SafeOrder(ps: seq<Path>) {
    forall i, j | 0 <= i < j < |ps| :: ps[i] != ps[j] && Undisturbed(ps[j], ps[i])
  }

  lemma {:induction false} RemoveRest(t: Toml, ps: seq<Path>, n: nat)
    requires n <= |ps| && SafeOrder(ps) && PrefixFree(Places(ps)) && NonEmpty(ps)
    requires forall p | p in ps :: Present(t, p)
    ensures RemoveAll(Prune(t, Places(ps[..n])), ps[n..]) == Some(Prune(t, Places(ps)))
    decreases |ps| - n
  {
    if n == |ps| {
      assert ps[..n] == ps;
    } else {
      var done, p := Places(ps[..n]), ps[n];
      assert done + iset{p} <= Places(ps);
      forall q | q in done ensures q != p && Undisturbed(p, q) {
        var i :| 0 <= i < n && ps[i] == q;
      }
      RemoveOneMore(t, done, p);
      assert ps[..n + 1] == ps[..n] + [p];
      assert Places(ps[..n + 1]) == done + iset{p};
      assert ps[n..][1..] == ps[n + 1..];
      RemoveRest(t, ps, n + 1);
    }
  }

  /** One removal after the other, in a safe order, never misses its target and gives the
      document without exactly those nodes. */
  lemma OrderedRemovalIsSimultaneous(t: Toml, ps: seq<Path>)
    requires SafeOrder(ps) && PrefixFree(Places(ps)) && NonEmpty(ps)
    requires forall p | p in ps :: Present(t, p)
    ensures RemoveAll(t, ps) == Some(Prune(t, Places(ps)))
  {
    PruneNothing(t);
    assert ps[..0] == [] && Places(ps[..0]) == iset{} && ps[0..] == ps;
    RemoveRest(t, ps, 0);
  }

  /** The order is needed: two positions of one array in ascending order remove a wrong element. */
  lemma AscendingOrderRemovesTheWrongElement()
    ensures
      var t := Arr([Int(0), Int(1), Int(2), Int(3)]);
      && RemoveAll(t, [[Pos(0)], [Pos(1)]]) == Some(Arr([Int(1), Int(3)]))
      && RemoveAll(t, [[Pos(1)], [Pos(0)]]) == Some(Arr([Int(2), Int(3)]))
  {
    var t := Arr([Int(0), Int(1), Int(2), Int(3)]);
    var low, high := [Pos(0)], [Pos(1)];
    assert [low, high][1..] == [high] && [high, low][1..] == [low];
    assert t.items[..0] + t.items[1..] == [Int(1), Int(2), Int(3)];
    assert t.items[..1] + t.items[2..] == [Int(0), Int(2), Int(3)];
    RemoveTwo(t, low, high);
    RemoveTwo(t, high, low);
    var a, b := [Int(1), Int(2), Int(3)], [Int(0), Int(2), Int(3)];
    assert a[..1] + a[2..] == [Int(1), Int(3)];
    assert b[..0] + b[1..] == [Int(2), Int(3)];
  }

  lemma RemoveTwo(t: Toml, p: Path, q: Path)
    requires |p| == |q| == 1 && Has(t, p[0]) && Has(Without(t, p[0]), q[0])
    ensures RemoveAll(t, [p, q]) == Some(Without(Without(t, p[0]), q[0]))
  {
    var t' := Without(t, p[0]);
    assert [p, q][1..] == [q] && [q][1..] == [];
    assert RemoveAll(Without(t', q[0]), []) == Some(Without(t', q[0]));
    assert RemoveAll(t', [q]) == Some(Without(t', q[0]));
  }
}
