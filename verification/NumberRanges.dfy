/** `format_number_ranges`: a list of numbers folded into ranges, printed, and read back. */
module NumberRanges {
  import opened Collections
  import opened Decimals

  datatype Range = Range(lo: int, hi: int)

  // ---------------------------------------------------------------- what a list of ranges stands for

  function Count(lo: int, hi: int): (ns: seq<int>)
    requires lo <= hi + 1
    ensures |ns| == hi + 1 - lo
    decreases hi + 1 - lo
  {
    if lo > hi then [] else [lo] + Count(lo + 1, hi)
  }

  predicate Proper(rs: seq<Range>) { forall i | 0 <= i < |rs| :: rs[i].lo <= rs[i].hi }

  function Expand(rs: seq<Range>): seq<int>
    requires Proper(rs)
  {
    if rs == [] then [] else Count(rs[0].lo, rs[0].hi) + Expand(rs[1..])
  }

  /** No range goes on where the one before it ends. */
  predicate Maximal(rs: seq<Range>) { forall i | 0 < i < |rs| :: rs[i].lo != rs[i - 1].hi + 1 }

  predicate StrictlyIncreasing(ns: seq<int>) { forall i, j | 0 <= i < j < |ns| :: ns[i] < ns[j] }

  // ---------------------------------------------------------------- the fold

  function FoldFrom(start: int, previous: int, rest: seq<int>): seq<Range>
    decreases |rest|
  {
    if rest == [] then [Range(start, previous)]
    else if rest[0] == previous + 1 then FoldFrom(start, rest[0], rest[1..])
    else [Range(start, previous)] + FoldFrom(rest[0], rest[0], rest[1..])
  }

  function Fold(numbers: seq<int>): seq<Range> {
    if numbers == [] then [] else FoldFrom(numbers[0], numbers[0], numbers[1..])
  }

  lemma {:induction false} CountExtends(lo: int, hi: int)
    requires lo <= hi
    ensures Count(lo, hi) == Count(lo, hi - 1) + [hi]
    decreases hi - lo
  {
    if lo < hi { CountExtends(lo + 1, hi); } else { assert Count(lo + 1, hi) == []; }
  }

  lemma {:induction false} FoldFromExpands(start: int, previous: int, rest: seq<int>)
    requires start <= previous
    ensures
      var rs := FoldFrom(start, previous, rest);
      Proper(rs) && rs != [] && rs[0].lo == start && Maximal(rs) && Expand(rs) == Count(start, previous) + rest
    decreases |rest|
  {
    if rest == [] {
      assert Expand([Range(start, previous)][1..]) == [];
    } else if rest[0] == previous + 1 {
      FoldFromExpands(start, rest[0], rest[1..]);
      CountExtends(start, rest[0]);
      Regroup(Count(start, previous), rest);
    } else {
      FoldFromExpands(rest[0], rest[0], rest[1..]);
      CountOne(rest[0]);
      assert [rest[0]] + rest[1..] == rest;
      RangeBefore(Range(start, previous), FoldFrom(rest[0], rest[0], rest[1..]));
    }
  }

  lemma {:induction false} Regroup(ns: seq<int>, rest: seq<int>)
    requires rest != []
    ensures ns + [rest[0]] + rest[1..] == ns + rest
  {
  }

  lemma {:induction false} CountOne(n: int)
    ensures Count(n, n) == [n]
  {
    assert Count(n, n) == [n] + Count(n + 1, n);
  }

  lemma {:induction false} RangeBefore(r: Range, tail: seq<Range>)
    requires r.lo <= r.hi && Proper(tail) && Maximal(tail) && tail != [] && tail[0].lo != r.hi + 1
    ensures Proper([r] + tail) && Maximal([r] + tail) && Expand([r] + tail) == Count(r.lo, r.hi) + Expand(tail)
  {
    assert ([r] + tail)[1..] == tail;
  }

  /** The fold loses no number and changes no order, and its ranges are maximal, for any list. */
  lemma {:induction false} FoldExpands(numbers: seq<int>)
    ensures Proper(Fold(numbers)) && Maximal(Fold(numbers)) && Expand(Fold(numbers)) == numbers
  {
    if numbers != [] {
      FoldFromExpands(numbers[0], numbers[0], numbers[1..]);
      CountOne(numbers[0]);
      assert [numbers[0]] + numbers[1..] == numbers;
    }
  }

  lemma {:induction false} CountAt(lo: int, hi: int, i: nat)
    requires lo <= hi + 1 && i < hi + 1 - lo
    ensures Count(lo, hi)[i] == lo + i
    decreases i
  {
    if i > 0 { CountAt(lo + 1, hi, i - 1); }
  }

  lemma {:induction false} ExpandStarts(rs: seq<Range>)
    requires Proper(rs) && rs != []
    ensures Expand(rs) != [] && Expand(rs)[0] == rs[0].lo
  {
  }

  lemma {:induction false} TailOf(rs: seq<Range>)
    requires Proper(rs) && rs != []
    ensures Proper(rs[1..]) && (Maximal(rs) ==> Maximal(rs[1..]))
    ensures Expand(rs)[rs[0].hi + 1 - rs[0].lo..] == Expand(rs[1..])
  {
    assert Maximal(rs) ==> forall i | 0 < i < |rs| - 1 :: rs[1..][i].lo != rs[1..][i - 1].hi + 1;
  }

  /** The first of two maximal lists for the same numbers does not end before the other's first. */
  lemma {:induction false} FirstRangeIsLongest(rs: seq<Range>, qs: seq<Range>)
    requires Proper(rs) && Maximal(rs) && Proper(qs) && rs != [] && qs != [] && Expand(rs) == Expand(qs)
    ensures rs[0].lo == qs[0].lo && qs[0].hi <= rs[0].hi
  {
    ExpandStarts(rs);
    ExpandStarts(qs);
    var ns, k := Expand(rs), rs[0].hi + 1 - rs[0].lo;
    if qs[0].hi > rs[0].hi {
      CountAt(qs[0].lo, qs[0].hi, k);
      assert ns[k] == rs[0].hi + 1;
      TailOf(rs);
      assert ns[k..][0] == ns[k];
      ExpandStarts(rs[1..]);
    }
  }

  /** The numbers fix the maximal list: the fold is the only one. */
  lemma {:induction false} MaximalListIsUnique(rs: seq<Range>, qs: seq<Range>)
    requires Proper(rs) && Maximal(rs) && Proper(qs) && Maximal(qs) && Expand(rs) == Expand(qs)
    ensures rs == qs
    decreases |rs|
  {
    if rs == [] {
      if qs != [] { ExpandStarts(qs); }
    } else {
      ExpandStarts(rs);
      FirstRangeIsLongest(rs, qs);
      FirstRangeIsLongest(qs, rs);
      TailOf(rs);
      TailOf(qs);
      MaximalListIsUnique(rs[1..], qs[1..]);
      assert rs == [rs[0]] + rs[1..] && qs == [qs[0]] + qs[1..];
    }
  }

  // ---------------------------------------------------------------- neighbours and the fewest ranges

  lemma {:induction false} InExpand(rs: seq<Range>, x: int)
    requires Proper(rs)
    ensures x in Expand(rs) <==> exists i :: 0 <= i < |rs| && rs[i].lo <= x <= rs[i].hi
    decreases |rs|
  {
    if rs != [] {
      InCount(rs[0].lo, rs[0].hi, x);
      InExpand(rs[1..], x);
      forall i | 0 < i < |rs| ensures rs[i] == rs[1..][i - 1] {}
    }
  }

  lemma {:induction false} InCount(lo: int, hi: int, x: int)
    requires lo <= hi + 1
    ensures x in Count(lo, hi) <==> lo <= x <= hi
    decreases hi + 1 - lo
  {
    if lo <= hi { InCount(lo + 1, hi, x); }
  }

  lemma {:induction false} NeighboursAreApart(numbers: seq<int>, i: nat, j: nat)
    requires StrictlyIncreasing(numbers) && i < j < |Fold(numbers)|
    ensures Fold(numbers)[i].hi + 2 <= Fold(numbers)[j].lo
  {
    FoldExpands(numbers);
    ProperListIsApart(Fold(numbers), i, j);
  }

  lemma {:induction false} ProperListIsApart(rs: seq<Range>, i: nat, j: nat)
    requires Proper(rs) && Maximal(rs) && StrictlyIncreasing(Expand(rs)) && i < j < |rs|
    ensures rs[i].hi + 2 <= rs[j].lo
    decreases j
  {
    TailOfProperList(rs);
    if i > 0 {
      ProperListIsApart(rs[1..], i - 1, j - 1);
    } else {
      FirstTwoAreApart(rs);
      if j > 1 { ProperListIsApart(rs[1..], 0, j - 1); }
    }
  }

  lemma {:induction false} TailOfProperList(rs: seq<Range>)
    requires Proper(rs) && Maximal(rs) && StrictlyIncreasing(Expand(rs)) && rs != []
    ensures Proper(rs[1..]) && Maximal(rs[1..]) && StrictlyIncreasing(Expand(rs[1..]))
  {
    var k := rs[0].hi + 1 - rs[0].lo;
    assert Expand(rs) == Count(rs[0].lo, rs[0].hi) + Expand(rs[1..]);
    assert forall a | 0 <= a < |Expand(rs[1..])| :: Expand(rs[1..])[a] == Expand(rs)[k + a];
    assert forall a | 0 < a < |rs| - 1 :: rs[1..][a].lo != rs[1..][a - 1].hi + 1;
  }

  lemma {:induction false} FirstTwoAreApart(rs: seq<Range>)
    requires Proper(rs) && Maximal(rs) && StrictlyIncreasing(Expand(rs)) && |rs| >= 2
    ensures rs[0].hi + 2 <= rs[1].lo
  {
    var ns, k := Expand(rs), rs[0].hi + 1 - rs[0].lo;
    assert ns == Count(rs[0].lo, rs[0].hi) + Expand(rs[1..]);
    CountAt(rs[0].lo, rs[0].hi, k - 1);
    ExpandStarts(rs[1..]);
    assert rs[1].lo == ns[k] && ns[k - 1] == rs[0].hi;
  }

  ghost predicate CoversExactly(qs: seq<Range>, numbers: seq<int>) {
    forall x :: x in numbers <==> exists k :: 0 <= k < |qs| && qs[k].lo <= x <= qs[k].hi
  }

  function Below(m: nat): (r: set<nat>)
    ensures |r| == m && forall x: nat :: x in r <==> x < m
  {
    if m == 0 then {} else Below(m - 1) + {m - 1}
  }

  lemma {:induction false} DistinctIndices(c: seq<nat>, m: nat)
    requires forall i | 0 <= i < |c| :: c[i] < m
    requires forall i, j | 0 <= i < j < |c| :: c[i] != c[j]
    ensures |c| <= m
  {
    SetOfSeq(c);
    SubsetSize((set i | 0 <= i < |c| :: c[i]), Below(m));
  }

  lemma {:induction false} SetOfSeq(c: seq<nat>)
    requires forall i, j | 0 <= i < j < |c| :: c[i] != c[j]
    ensures |set i | 0 <= i < |c| :: c[i]| == |c|
  {
    var all := set i | 0 <= i < |c| :: c[i];
    if c != [] {
      var d := c[..|c| - 1];
      SetOfSeq(d);
      assert all == (set i | 0 <= i < |d| :: d[i]) + {c[|c| - 1]};
    } else {
      assert all == {};
    }
  }

  /** No list of ranges, in any order and with any overlaps, covers the numbers with fewer ranges. */
  lemma {:induction false} FewestRanges(numbers: seq<int>, qs: seq<Range>)
    requires StrictlyIncreasing(numbers) && CoversExactly(qs, numbers)
    ensures |Fold(numbers)| <= |qs|
  {
    var rs := Fold(numbers);
    FoldExpands(numbers);
    var c := seq(|rs|, i requires 0 <= i < |rs| => Covering(rs, qs, numbers, i));
    forall i, j | 0 <= i < j < |rs| ensures c[i] != c[j] {
      NeighboursAreApart(numbers, i, j);
      var x := rs[i].hi + 1;
      NotInFold(numbers, i);
      assert x !in numbers;
      assert qs[c[i]].lo <= rs[i].lo && rs[j].lo <= qs[c[j]].hi;
    }
    DistinctIndices(c, |qs|);
  }

  lemma {:induction false} NotInFold(numbers: seq<int>, i: nat)
    requires StrictlyIncreasing(numbers) && i < |Fold(numbers)|
    ensures Fold(numbers)[i].hi + 1 !in numbers
  {
    var rs := Fold(numbers);
    FoldExpands(numbers);
    InExpand(rs, rs[i].hi + 1);
    forall j | 0 <= j < |rs| ensures !(rs[j].lo <= rs[i].hi + 1 <= rs[j].hi) {
      if j < i { NeighboursAreApart(numbers, j, i); } else if i < j { NeighboursAreApart(numbers, i, j); }
    }
  }

  /** A range of `qs` that holds the start of range `i`. */
  ghost function Covering(rs: seq<Range>, qs: seq<Range>, numbers: seq<int>, i: nat): (k: nat)
    requires Proper(rs) && Expand(rs) == numbers && CoversExactly(qs, numbers) && i < |rs|
    ensures k < |qs| && qs[k].lo <= rs[i].lo <= qs[k].hi
  {
    InExpand(rs, rs[i].lo);
    var k :| 0 <= k < |qs| && qs[k].lo <= rs[i].lo <= qs[k].hi;
    k
  }

  // ---------------------------------------------------------------- printing

  function Str(n: int): string { if n < 0 then "-" + Decimal(-n) else Decimal(n) }

  function Text(r: Range): string { if r.lo == r.hi then Str(r.lo) else Str(r.lo) + "-" + Str(r.hi) }

  function Join(parts: seq<string>): string {
    if parts == [] then "" else if |parts| == 1 then parts[0] else parts[0] + ", " + Join(parts[1..])
  }

  function Texts(rs: seq<Range>): (ts: seq<string>)
    ensures |ts| == |rs| && forall i | 0 <= i < |rs| :: ts[i] == Text(rs[i])
  {
    seq(|rs|, i requires 0 <= i < |rs| => Text(rs[i]))
  }

  function Render(rs: seq<Range>): string { Join(Texts(rs)) }

  method FormatNumberRanges(numbers: seq<int>) returns (r: string)
    ensures r == Render(Fold(numbers))
  {
    if numbers == [] {
      assert Texts([]) == [];
      return "";
    }
    var parts: seq<string> := [];
    var start, previous := numbers[0], numbers[0];
    ghost var done: seq<Range> := [];
    for i := 1 to |numbers|
      invariant parts == Texts(done)
      invariant Fold(numbers) == done + FoldFrom(start, previous, numbers[i..])
    {
      var number := numbers[i];
      assert numbers[i..][1..] == numbers[i + 1..];
      if number == previous + 1 {
        previous := number;
        continue;
      }
      TextsGrow(done, Range(start, previous));
      Associate(done, [Range(start, previous)], FoldFrom(number, number, numbers[i + 1..]));
      parts := parts + [if start == previous then Str(start) else Str(start) + "-" + Str(previous)];
      done := done + [Range(start, previous)];
      start, previous := number, number;
    }
    TextsGrow(done, Range(start, previous));
    parts := parts + [if start == previous then Str(start) else Str(start) + "-" + Str(previous)];
    r := Join(parts);
  }

  lemma {:induction false} TextsGrow(rs: seq<Range>, r: Range)
    ensures Texts(rs + [r]) == Texts(rs) + [Text(r)]
  {
  }

  // ---------------------------------------------------------------- reading back

  function DigitRun(s: string): (k: nat)
    ensures k <= |s| && AllDigits(s[..k]) && (k < |s| ==> !IsDigit(s[k]))
  {
    if s == [] || !IsDigit(s[0]) then 0
    else
      var k := DigitRun(s[1..]);
      assert forall i | 0 < i < k + 1 :: s[i] == s[1..][..k][i - 1];
      k + 1
  }

  datatype Head = Head(range: Range, rest: string)

  function ParseHead(s: string): (r: Option<Head>)
    ensures r.Some? ==> |r.value.rest| < |s|
  {
    var k := DigitRun(s);
    if k == 0 then None
    else
      var lo := Parse(s[..k]);
      if k < |s| && s[k] == '-' then
        var t := s[k + 1..];
        var m := DigitRun(t);
        if m == 0 then None else Some(Head(Range(lo, Parse(t[..m])), t[m..]))
      else Some(Head(Range(lo, lo), s[k..]))
  }

  function ParseRanges(s: string): Option<seq<Range>>
    decreases |s|
  {
    if s == [] then Some([])
    else
      match ParseHead(s)
      case None => None
      case Some(Head(r, rest)) =>
        if rest == [] then Some([r])
        else if |rest| <= 2 || rest[..2] != ", " then None
        else match ParseRanges(rest[2..]) case None => None case Some(rs) => Some([r] + rs)
  }

  lemma {:induction false} DigitRunStops(d: string, rest: string)
    requires AllDigits(d) && (rest == [] || !IsDigit(rest[0]))
    ensures DigitRun(d + rest) == |d|
    decreases |d|
  {
    if d == [] {
      assert d + rest == rest;
    } else {
      assert (d + rest)[1..] == d[1..] + rest;
      DigitRunStops(d[1..], rest);
    }
  }

  lemma {:induction false} SingleReadsBack(n: nat, rest: string)
    requires rest == [] || rest[0] == ','
    ensures ParseHead(Decimal(n) + rest) == Some(Head(Range(n, n), rest))
  {
    var s, d := Decimal(n) + rest, Decimal(n);
    DecimalReadsBack(n);
    DigitRunStops(d, rest);
    assert s[..|d|] == d && s[|d|..] == rest;
  }

  lemma {:induction false} PairOfTexts(d: string, e: string, rest: string)
    requires d != [] && AllDigits(d) && e != [] && AllDigits(e) && (rest == [] || rest[0] == ',')
    ensures ParseHead(d + (['-'] + (e + rest))) == Some(Head(Range(Parse(d), Parse(e)), rest))
  {
    var t := e + rest;
    var s := d + (['-'] + t);
    DigitRunStops(d, ['-'] + t);
    DigitRunStops(e, rest);
    assert s[..|d|] == d && s[|d|] == '-' && s[|d| + 1..] == t;
    assert t[..|e|] == e && t[|e|..] == rest;
  }

  lemma {:induction false} PairReadsBack(lo: nat, hi: nat, rest: string)
    requires rest == [] || rest[0] == ','
    ensures ParseHead(Decimal(lo) + "-" + Decimal(hi) + rest) == Some(Head(Range(lo, hi), rest))
  {
    DecimalReadsBack(lo);
    DecimalReadsBack(hi);
    PairOfTexts(Decimal(lo), Decimal(hi), rest);
    RegroupPair(Decimal(lo), Decimal(hi), rest);
  }

  lemma {:induction false} RegroupPair(d: string, e: string, rest: string)
    ensures d + "-" + e + rest == d + (['-'] + (e + rest))
  {
  }

  lemma {:induction false} HeadReadsBack(r: Range, rest: string)
    requires 0 <= r.lo <= r.hi && (rest == [] || rest[0] == ',')
    ensures ParseHead(Text(r) + rest) == Some(Head(r, rest))
  {
    if r.lo == r.hi { SingleReadsBack(r.lo, rest); } else { PairReadsBack(r.lo, r.hi, rest); }
  }

  lemma {:induction false} RenderSplits(rs: seq<Range>)
    requires rs != []
    ensures Render(rs) == Text(rs[0]) + if |rs| == 1 then "" else ", " + Render(rs[1..])
  {
    assert Texts(rs)[1..] == Texts(rs[1..]);
  }

  lemma {:induction false} RenderNotEmpty(rs: seq<Range>)
    requires rs != [] && 0 <= rs[0].lo
    ensures Render(rs) != ""
  {
    RenderSplits(rs);
    DecimalReadsBack(rs[0].lo);
  }

  lemma {:induction false} MoreReadsBack(s: string, more: string, r: Range, rs: seq<Range>)
    requires s != "" && more != "" && ParseHead(s) == Some(Head(r, ", " + more)) && ParseRanges(more) == Some(rs)
    ensures ParseRanges(s) == Some([r] + rs)
  {
    var rest := ", " + more;
    assert |rest| > 2 && rest[..2] == ", " && rest[2..] == more;
  }

  lemma {:induction false} RangesReadBack(rs: seq<Range>)
    requires Proper(rs) && forall i | 0 <= i < |rs| :: 0 <= rs[i].lo
    ensures ParseRanges(Render(rs)) == Some(rs)
    decreases |rs|
  {
    if rs != [] {
      var rest := if |rs| == 1 then "" else ", " + Render(rs[1..]);
      RenderSplits(rs);
      RenderNotEmpty(rs);
      HeadReadsBack(rs[0], rest);
      if |rs| > 1 {
        RenderNotEmpty(rs[1..]);
        RangesReadBack(rs[1..]);
        MoreReadsBack(Render(rs), Render(rs[1..]), rs[0], rs[1..]);
        assert [rs[0]] + rs[1..] == rs;
      } else {
        assert Text(rs[0]) + rest == Render(rs);
        assert [rs[0]] == rs;
      }
    } else {
      assert Texts(rs) == [];
    }
  }

  lemma {:induction false} FoldIsNatural(numbers: seq<int>, i: nat)
    requires (forall k | 0 <= k < |numbers| :: 0 <= numbers[k]) && i < |Fold(numbers)|
    ensures 0 <= Fold(numbers)[i].lo
  {
    var rs := Fold(numbers);
    FoldExpands(numbers);
    InExpand(rs, rs[i].lo);
  }

  /** Reading the printed text gives the numbers back, for every list of naturals. */
  lemma {:induction false} NumbersReadBack(numbers: seq<int>)
    requires forall k | 0 <= k < |numbers| :: 0 <= numbers[k]
    ensures
      var rs := ParseRanges(Render(Fold(numbers)));
      rs.Some? && Proper(rs.value) && Expand(rs.value) == numbers
  {
    FoldExpands(numbers);
    forall i | 0 <= i < |Fold(numbers)| ensures 0 <= Fold(numbers)[i].lo { FoldIsNatural(numbers, i); }
    RangesReadBack(Fold(numbers));
  }
}
