/** Filling the missing bounds of aligned words, in place, from the located words around them.
    Times are exact numbers. */
module Interpolation {
  import opened Wrappers

  datatype Method = Nearest | Linear | Ignore | Unknown(name: string)

  datatype Bounds = Bounds(start: Option<real>, end: Option<real>)

  class Word {
    var start: Option<real>
    var end: Option<real>

    function Get(): Bounds
      reads this
    {
      Bounds(start, end)
    }
  }

  /** Both bounds are known. */
  predicate Located(b: Bounds) { b.start.Some? && b.end.Some? }

  function BoundsOf(words: seq<Word>): (bs: seq<Bounds>)
    reads words
    ensures |bs| == |words| && forall i :: 0 <= i < |words| ==> bs[i] == words[i].Get()
  {
    seq(|words|, i requires 0 <= i < |words| reads words => words[i].Get())
  }

  // ---------------------------------------------------------------- the specification

  /** The closest located word before, and after, position `i`. */
  function Left(bs: seq<Bounds>, i: nat): (l: Option<nat>)
    requires i <= |bs|
    ensures l.Some? ==> l.value < i && Located(bs[l.value]) && forall k :: l.value < k < i ==> !Located(bs[k])
    ensures l.None? ==> forall k :: 0 <= k < i ==> !Located(bs[k])
  {
    if i == 0 then None else if Located(bs[i - 1]) then Some(i - 1) else Left(bs, i - 1)
  }

  function Right(bs: seq<Bounds>, i: nat): (r: Option<nat>)
    requires i < |bs|
    ensures r.Some? ==> i < r.value < |bs| && Located(bs[r.value]) && forall k :: i < k < r.value ==> !Located(bs[k])
    ensures r.None? ==> forall k :: i < k < |bs| ==> !Located(bs[k])
    decreases |bs| - i
  {
    if i + 1 == |bs| then None else if Located(bs[i + 1]) then Some(i + 1) else Right(bs, i + 1)
  }

  /** How far position `i` is from `l` towards `r`. */
  function Ratio(l: nat, i: nat, r: nat): real
    requires l < r
  {
    (i - l) as real / (r - l) as real
  }

  function Between(a: real, b: real, ratio: real): real { a + ratio * (b - a) }

  function Blend(a: Bounds, b: Bounds, ratio: real): Bounds
    requires Located(a) && Located(b)
  {
    Bounds(Some(Between(a.start.value, b.start.value, ratio)), Some(Between(a.end.value, b.end.value, ratio)))
  }

  /** The bounds of word `i` after the fill, from the bounds all words had before it. */
  function Fill(bs: seq<Bounds>, m: Method, i: nat): Bounds
    requires i < |bs|
  {
    var l, r := Left(bs, i), Right(bs, i);
    if Located(bs[i]) || (l.None? && r.None?) then bs[i]
    else if l.None? then bs[r.value]
    else if r.None? then bs[l.value]
    else if m.Nearest? then (if i - l.value <= r.value - i then bs[l.value] else bs[r.value])
    else Blend(bs[l.value], bs[r.value], Ratio(l.value, i, r.value))
  }

  function FillAll(bs: seq<Bounds>, m: Method): (r: seq<Bounds>)
    ensures |r| == |bs| && forall i :: 0 <= i < |bs| ==> r[i] == Fill(bs, m, i)
  {
    seq(|bs|, i requires 0 <= i < |bs| => Fill(bs, m, i))
  }

  // ---------------------------------------------------------------- the fill

  ghost predicate Distinct(words: seq<Word>) { forall i, j :: 0 <= i < j < |words| ==> words[i] != words[j] }

  /** `valid` lists the located positions, ascending. */
  ghost predicate Lists(valid: seq<nat>, bs: seq<Bounds>) {
    && (forall a, b :: 0 <= a < b < |valid| ==> valid[a] < valid[b])
    && (forall a :: 0 <= a < |valid| ==> valid[a] < |bs| && Located(bs[valid[a]]))
    && (forall i: nat :: i < |bs| && Located(bs[i]) ==> i in valid)
  }

  /** `bisect_left` */
  method BisectLeft(valid: seq<nat>, x: nat) returns (p: nat)
    requires forall a, b :: 0 <= a < b < |valid| ==> valid[a] < valid[b]
    ensures p <= |valid| && (forall a :: 0 <= a < p ==> valid[a] < x) && (forall a :: p <= a < |valid| ==> valid[a] >= x)
  {
    var lo, hi := 0, |valid|;
    while lo < hi
      invariant lo <= hi <= |valid|
      invariant (forall a :: 0 <= a < lo ==> valid[a] < x) && (forall a :: hi <= a < |valid| ==> valid[a] >= x)
    {
      var mid := (lo + hi) / 2;
      if valid[mid] < x { lo := mid + 1; } else { hi := mid; }
    }
    return lo;
  }

  /** The neighbours that `bisect_left` finds in the list of located positions are the closest ones. */
  lemma {:induction false} Neighbours(bs: seq<Bounds>, valid: seq<nat>, i: nat, p: nat)
    requires Lists(valid, bs) && i < |bs| && !Located(bs[i])
    requires p <= |valid| && (forall a :: 0 <= a < p ==> valid[a] < i) && (forall a :: p <= a < |valid| ==> valid[a] >= i)
    ensures Left(bs, i) == if p > 0 then Some(valid[p - 1]) else None
    ensures Right(bs, i) == if p < |valid| then Some(valid[p]) else None
  {
    var l, r := Left(bs, i), Right(bs, i);
    if l.Some? { var a :| 0 <= a < |valid| && valid[a] == l.value; }
    if r.Some? { var a :| 0 <= a < |valid| && valid[a] == r.value; }
    if p > 0 { assert valid[p - 1] < i; }
    if p < |valid| { assert valid[p] >= i; }
  }

  method ListLocated(words: seq<Word>) returns (valid: seq<nat>)
    ensures Lists(valid, BoundsOf(words))
  {
    ghost var bs := BoundsOf(words);
    valid := [];
    for i := 0 to |words|
      invariant forall a, b :: 0 <= a < b < |valid| ==> valid[a] < valid[b]
      invariant forall a :: 0 <= a < |valid| ==> valid[a] < i && Located(bs[valid[a]])
      invariant forall k: nat :: k < i && Located(bs[k]) ==> k in valid
    {
      if Located(words[i].Get()) { valid := valid + [i]; }
    }
  }

  /** The fill of one word that is not located; only located words are read. */
  method FillWord(words: seq<Word>, m: Method, ghost bs: seq<Bounds>, valid: seq<nat>, index: nat)
    requires (m.Nearest? || m.Linear?) && |bs| == |words| && Lists(valid, bs) && valid != []
    requires index < |words| && !Located(bs[index])
    requires forall i :: 0 <= i < |words| && Located(bs[i]) ==> words[i].Get() == bs[i]
    modifies words[index]
    ensures words[index].Get() == Fill(bs, m, index)
  {
    var position := BisectLeft(valid, index);
    Neighbours(bs, valid, index, position);
    if position == 0 {
      var source := words[valid[position]];
      words[index].start, words[index].end := source.start, source.end;
    } else if position == |valid| {
      var source := words[valid[position - 1]];
      words[index].start, words[index].end := source.start, source.end;
    } else {
      var left, right := valid[position - 1], valid[position];
      assert words[left].Get() == bs[left] && words[right].Get() == bs[right];
      if m.Nearest? {
        var source := if index - left <= right - index then words[left] else words[right];
        words[index].start, words[index].end := source.start, source.end;
      } else {
        var ratio := Ratio(left, index, right);
        var from, to := words[left].Get(), words[right].Get();
        words[index].start := Some(Between(from.start.value, to.start.value, ratio));
        words[index].end := Some(Between(from.end.value, to.end.value, ratio));
      }
    }
  }

  lemma {:induction false} NothingToFill(bs: seq<Bounds>, valid: seq<nat>, m: Method, i: nat)
    requires Lists(valid, bs) && i < |bs| && (valid == [] || Located(bs[i]))
    ensures Fill(bs, m, i) == bs[i]
  {}

  /** The first `n` words are filled, the others untouched. */
  ghost predicate FilledTo(words: seq<Word>, m: Method, bs: seq<Bounds>, n: nat)
    requires |words| == |bs|
    reads words
  {
    forall i :: 0 <= i < |words| ==> words[i].Get() == if i < n then Fill(bs, m, i) else bs[i]
  }

  method FillNext(words: seq<Word>, m: Method, ghost bs: seq<Bounds>, valid: seq<nat>, index: nat)
    requires Distinct(words) && (m.Nearest? || m.Linear?) && |bs| == |words| && Lists(valid, bs) && valid != []
    requires index < |words| && FilledTo(words, m, bs, index)
    modifies words
    ensures FilledTo(words, m, bs, index + 1)
  {
    forall i | 0 <= i < |words| && Located(bs[i]) ensures words[i].Get() == bs[i] { NothingToFill(bs, valid, m, i); }
    if index !in valid {
      FillWord(words, m, bs, valid, index);
      forall i | 0 <= i < |words| && i != index ensures words[i].Get() == old(words[i].Get()) { assert words[i] != words[index]; }
    }
  }

  method FillRest(words: seq<Word>, m: Method, ghost bs: seq<Bounds>, valid: seq<nat>)
    requires Distinct(words) && (m.Nearest? || m.Linear?) && |bs| == |words| && Lists(valid, bs) && valid != []
    requires forall i :: 0 <= i < |words| ==> words[i].Get() == bs[i]
    modifies words
    ensures forall i :: 0 <= i < |words| ==> words[i].Get() == Fill(bs, m, i)
  {
    for index := 0 to |words|
      invariant FilledTo(words, m, bs, index)
    {
      FillNext(words, m, bs, valid, index);
    }
  }

  /** One segment of `_interpolate_words`. */
  method FillSegment(words: seq<Word>, m: Method)
    requires Distinct(words) && (m.Nearest? || m.Linear?)
    modifies words
    ensures BoundsOf(words) == FillAll(old(BoundsOf(words)), m)
  {
    ghost var bs := BoundsOf(words);
    var valid := ListLocated(words);
    if valid == [] {
      forall i | 0 <= i < |words| ensures Fill(bs, m, i) == bs[i] { NothingToFill(bs, valid, m, i); }
    } else {
      FillRest(words, m, bs, valid);
    }
  }

  datatype Outcome = Done | UnknownMethod

  ghost predicate Disjoint(a: seq<Word>, b: seq<Word>) { forall w :: w in a ==> w !in b }

  /** No word is in two places. */
  ghost predicate Apart(segments: seq<seq<Word>>) {
    && (forall s :: 0 <= s < |segments| ==> Distinct(segments[s]))
    && (forall s, t :: 0 <= s < |segments| && 0 <= t < |segments| && s != t ==> Disjoint(segments[s], segments[t]))
  }

  ghost function AllWords(segments: seq<seq<Word>>): (r: set<Word>)
    ensures forall s, w :: 0 <= s < |segments| && w in segments[s] ==> w in r
  {
    set s, i | 0 <= s < |segments| && 0 <= i < |segments[s]| :: segments[s][i]
  }

  ghost function AllBounds(segments: seq<seq<Word>>): (r: seq<seq<Bounds>>)
    reads AllWords(segments)
    ensures |r| == |segments| && forall s :: 0 <= s < |segments| ==> r[s] == BoundsOf(segments[s])
  {
    seq(|segments|, s requires 0 <= s < |segments| reads AllWords(segments) => BoundsOf(segments[s]))
  }

  method FillOneOf(segments: seq<seq<Word>>, k: nat, m: Method)
    requires Apart(segments) && k < |segments| && (m.Nearest? || m.Linear?)
    modifies segments[k]
    ensures BoundsOf(segments[k]) == FillAll(old(BoundsOf(segments[k])), m)
    ensures forall s :: 0 <= s < |segments| && s != k ==> BoundsOf(segments[s]) == old(BoundsOf(segments[s]))
  {
    FillSegment(segments[k], m);
    forall s | 0 <= s < |segments| && s != k ensures BoundsOf(segments[s]) == old(BoundsOf(segments[s])) {
      assert Disjoint(segments[s], segments[k]);
      forall i | 0 <= i < |segments[s]| ensures segments[s][i].Get() == old(segments[s][i].Get()) {
        assert segments[s][i] in segments[s];
      }
    }
  }

  /** `_interpolate_words`: every segment is filled from its own words; the method name is checked
      before anything is touched. */
  method InterpolateWords(segments: seq<seq<Word>>, m: Method) returns (r: Outcome)
    requires Apart(segments)
    modifies AllWords(segments)
    ensures r == if m.Unknown? then UnknownMethod else Done
    ensures forall s :: 0 <= s < |segments| ==>
              BoundsOf(segments[s]) ==
              if m.Nearest? || m.Linear? then FillAll(old(AllBounds(segments)[s]), m) else old(AllBounds(segments)[s])
  {
    ghost var was := AllBounds(segments);
    if m.Unknown? { return UnknownMethod; }
    if m.Ignore? { return Done; }
    for k := 0 to |segments|
      invariant forall s :: 0 <= s < k ==> BoundsOf(segments[s]) == FillAll(was[s], m)
      invariant forall s :: k <= s < |segments| ==> BoundsOf(segments[s]) == was[s]
    {
      FillOneOf(segments, k, m);
    }
    return Done;
  }

  // ---------------------------------------------------------------- what the fill means

  function Away(i: int, k: int): int { if i < k then k - i else i - k }

  /** Word `k` is the located word closest to position `i`, the earlier of two that are equally close. */
  ghost predicate Closest(bs: seq<Bounds>, i: int, k: int) {
    && 0 <= k < |bs| && Located(bs[k])
    && forall j :: 0 <= j < |bs| && Located(bs[j]) ==> Away(i, k) < Away(i, j) || (Away(i, k) == Away(i, j) && k <= j)
  }

  /** Words `l` and `r` are located, and the words between them, `i` among them, are not. */
  ghost predicate InGap(bs: seq<Bounds>, l: int, i: int, r: int) {
    0 <= l < i < r < |bs| && Located(bs[l]) && Located(bs[r]) && forall k :: l < k < r ==> !Located(bs[k])
  }

  /** `t` is as far from `a` towards `b` as position `i` is from `l` towards `r`. */
  ghost predicate Proportional(a: real, t: real, b: real, l: int, i: int, r: int) {
    (t - a) * (r - l) as real == (b - a) * (i - l) as real
  }

  ghost predicate Interpolated(bs: seq<Bounds>, i: int, f: Bounds, l: int, r: int) {
    && InGap(bs, l, i, r) && Located(f)
    && Proportional(bs[l].start.value, f.start.value, bs[r].start.value, l, i, r)
    && Proportional(bs[l].end.value, f.end.value, bs[r].end.value, l, i, r)
  }

  /** What a word is filled with: its own times if it has them or no word has; the closest located word's
      if the method says so or there is none on one side; else the proportional times. */
  ghost predicate FilledWith(bs: seq<Bounds>, m: Method, i: nat, f: Bounds)
    requires i < |bs|
  {
    if Located(bs[i]) || (forall k :: 0 <= k < |bs| ==> !Located(bs[k])) then f == bs[i]
    else if m.Nearest? || (forall k :: 0 <= k < i ==> !Located(bs[k])) || (forall k :: i < k < |bs| ==> !Located(bs[k]))
    then exists k :: Closest(bs, i, k) && f == bs[k]
    else exists l, r :: Interpolated(bs, i, f, l, r)
  }

  /** Main result: the fill is that. */
  lemma {:induction false} FillMeans(bs: seq<Bounds>, m: Method, i: nat)
    requires i < |bs| && (m.Nearest? || m.Linear?)
    ensures FilledWith(bs, m, i, Fill(bs, m, i))
  {
    var l, r := Left(bs, i), Right(bs, i);
    if !Located(bs[i]) {
      if l.None? && r.None? {
        forall k | 0 <= k < |bs| ensures !Located(bs[k]) {}
      } else if l.None? {
        assert Closest(bs, i, r.value);
      } else if r.None? {
        assert Closest(bs, i, l.value);
      } else if m.Nearest? {
        assert Closest(bs, i, if i - l.value <= r.value - i then l.value else r.value);
      } else {
        RatioMeans(bs[l.value].start.value, bs[r.value].start.value, l.value, i, r.value);
        RatioMeans(bs[l.value].end.value, bs[r.value].end.value, l.value, i, r.value);
        assert Interpolated(bs, i, Fill(bs, m, i), l.value, r.value);
      }
    }
  }

  lemma {:induction false} RatioMeans(a: real, b: real, l: nat, i: nat, r: nat)
    requires l < i < r
    ensures Proportional(a, Between(a, b, Ratio(l, i, r)), b, l, i, r)
  {
    var d, n, ratio := (r - l) as real, (i - l) as real, Ratio(l, i, r);
    assert ratio * d == n;
    calc {
      (Between(a, b, ratio) - a) * d;
      ratio * (b - a) * d;
      (b - a) * (ratio * d);
    }
  }

  // ---------------------------------------------------------------- what the fill keeps

  /** Located starts, and located ends, never go back. */
  ghost predicate LocatedAscend(bs: seq<Bounds>) {
    forall i, j :: 0 <= i < j < |bs| && Located(bs[i]) && Located(bs[j]) ==> NoLater(bs[i], bs[j])
  }

  predicate NoLater(a: Bounds, b: Bounds)
    requires Located(a) && Located(b)
  {
    a.start.value <= b.start.value && a.end.value <= b.end.value
  }

  lemma {:induction false} Product(x: real, y: real)
    requires x >= 0.0 && y >= 0.0
    ensures x * y >= 0.0
  {}

  lemma {:induction false} BetweenBounds(a: real, b: real, ratio: real)
    requires a <= b && 0.0 <= ratio <= 1.0
    ensures a <= Between(a, b, ratio) <= b
  {
    var d := b - a;
    Product(ratio, d);
    Product(1.0 - ratio, d);
    assert (1.0 - ratio) * d == d - ratio * d;
  }

  lemma {:induction false} BetweenGrows(a: real, b: real, x: real, y: real)
    requires a <= b && x <= y
    ensures Between(a, b, x) <= Between(a, b, y)
  {
    Product(y - x, b - a);
    assert (y - x) * (b - a) == y * (b - a) - x * (b - a);
  }

  lemma {:induction false} BetweenOrdered(a: real, b: real, a': real, b': real, ratio: real)
    requires a <= a' && b <= b' && 0.0 <= ratio <= 1.0
    ensures Between(a, b, ratio) <= Between(a', b', ratio)
  {
    Product(1.0 - ratio, a' - a);
    Product(ratio, b' - b);
    assert Between(a', b', ratio) - Between(a, b, ratio) == (1.0 - ratio) * (a' - a) + ratio * (b' - b);
  }

  lemma {:induction false} RatioIn(l: nat, i: nat, j: nat, r: nat)
    requires l < i <= j < r
    ensures 0.0 <= Ratio(l, i, r) <= Ratio(l, j, r) <= 1.0
  {
    var d := (r - l) as real;
    DivideLe((i - l) as real, (j - l) as real, d);
    DivideLe((j - l) as real, d, d);
  }

  lemma {:induction false} DivideLe(x: real, y: real, d: real)
    requires 0.0 <= x <= y && d > 0.0
    ensures 0.0 <= x / d <= y / d
    ensures x == d ==> x / d == 1.0
    ensures y == d ==> y / d == 1.0
  {
    assert y / d - x / d == (y - x) / d;
  }

  /** A filled word lies between its located neighbours, as far as it has them. */
  lemma {:induction false} FillInside(bs: seq<Bounds>, m: Method, i: nat)
    requires i < |bs| && (m.Nearest? || m.Linear?) && LocatedAscend(bs)
    requires exists k :: 0 <= k < |bs| && Located(bs[k])
    ensures Located(Fill(bs, m, i))
    ensures forall k :: 0 <= k <= i && Located(bs[k]) ==> NoLater(bs[k], Fill(bs, m, i))
    ensures forall k :: i <= k < |bs| && Located(bs[k]) ==> NoLater(Fill(bs, m, i), bs[k])
  {
    var l, r := Left(bs, i), Right(bs, i);
    if !Located(bs[i]) && l.Some? && r.Some? && m.Linear? {
      var a, b, ratio := bs[l.value], bs[r.value], Ratio(l.value, i, r.value);
      RatioIn(l.value, i, i, r.value);
      BetweenBounds(a.start.value, b.start.value, ratio);
      BetweenBounds(a.end.value, b.end.value, ratio);
    }
  }

  /** Main result: if located starts and located ends never go back, no start and no end goes back
      after the fill. */
  lemma {:induction false} FillAscends(bs: seq<Bounds>, m: Method, i: nat, j: nat)
    requires i < j < |bs| && (m.Nearest? || m.Linear?) && LocatedAscend(bs)
    requires exists k :: 0 <= k < |bs| && Located(bs[k])
    ensures Located(Fill(bs, m, i)) && Located(Fill(bs, m, j)) && NoLater(Fill(bs, m, i), Fill(bs, m, j))
  {
    FillInside(bs, m, i);
    FillInside(bs, m, j);
    if k :| i <= k <= j && Located(bs[k]) {
      assert NoLater(Fill(bs, m, i), bs[k]) && NoLater(bs[k], Fill(bs, m, j));
    } else {
      SameGap(bs, i, j);
      var l, r := Left(bs, i), Right(bs, i);
      if l.Some? && r.Some? && m.Linear? {
        var a, b := bs[l.value], bs[r.value];
        RatioIn(l.value, i, j, r.value);
        BetweenGrows(a.start.value, b.start.value, Ratio(l.value, i, r.value), Ratio(l.value, j, r.value));
        BetweenGrows(a.end.value, b.end.value, Ratio(l.value, i, r.value), Ratio(l.value, j, r.value));
      }
    }
  }

  /** Words with no located word between them have the same neighbours. */
  lemma {:induction false} SameGap(bs: seq<Bounds>, i: nat, j: nat)
    requires i < j < |bs| && forall k :: i <= k <= j ==> !Located(bs[k])
    ensures Left(bs, i) == Left(bs, j) && Right(bs, i) == Right(bs, j)
  {
    LeftIs(bs, i, j);
    RightIs(bs, i, j);
  }

  lemma {:induction false} LeftIs(bs: seq<Bounds>, i: nat, j: nat)
    requires i <= j <= |bs| && forall k :: i <= k < j ==> !Located(bs[k])
    ensures Left(bs, i) == Left(bs, j)
  {
    if i < j { LeftIs(bs, i, j - 1); }
  }

  lemma {:induction false} RightIs(bs: seq<Bounds>, i: nat, j: nat)
    requires i <= j < |bs| && forall k :: i < k <= j ==> !Located(bs[k])
    ensures Right(bs, i) == Right(bs, j)
    decreases j - i
  {
    if i < j { RightIs(bs, i + 1, j); }
  }

  /** And if every located word ends no sooner than it starts, so does every word after the fill. */
  lemma {:induction false} FillKeepsLength(bs: seq<Bounds>, m: Method, i: nat)
    requires i < |bs| && (m.Nearest? || m.Linear?)
    requires exists k :: 0 <= k < |bs| && Located(bs[k])
    requires forall k :: 0 <= k < |bs| && Located(bs[k]) ==> bs[k].start.value <= bs[k].end.value
    ensures var f := Fill(bs, m, i); Located(f) && f.start.value <= f.end.value
  {
    var l, r := Left(bs, i), Right(bs, i);
    if !Located(bs[i]) && l.Some? && r.Some? && m.Linear? {
      var a, b := bs[l.value], bs[r.value];
      RatioIn(l.value, i, i, r.value);
      BetweenOrdered(a.start.value, b.start.value, a.end.value, b.end.value, Ratio(l.value, i, r.value));
    }
  }

  /** A located word keeps its times, and filling again changes nothing. */
  lemma {:induction false} FillTwice(bs: seq<Bounds>, filled: seq<Bounds>, m: Method, i: nat)
    requires filled == FillAll(bs, m) && i < |bs| && (m.Nearest? || m.Linear?)
    ensures Located(bs[i]) ==> filled[i] == bs[i]
    ensures Fill(filled, m, i) == filled[i]
  {
    var l, r := Left(bs, i), Right(bs, i);
    if !Located(bs[i]) && l.None? && r.None? {
      forall k | 0 <= k < |bs| ensures filled[k] == bs[k] {
        assert !Located(bs[k]);
        assert Left(bs, k).None? && Right(bs, k).None?;
      }
      assert filled == bs;
    }
  }
}
