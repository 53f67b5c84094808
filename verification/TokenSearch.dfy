/** The bounded in-order token search used when a quote is nowhere verbatim: a greedy leftmost match
    inside every window of nearby lines, and the choice among the windows that match. */
module TokenSearch {
  import opened Wrappers
  import opened Evidence

  const RADIUS: nat := 8
  const MIN_TOKENS: nat := 6
  const EXTRA_FLOOR: nat := 24

  /** `at` places the quote's tokens, in order, in the source. */
  ghost predicate Embeds(source: seq<string>, quote: seq<string>, at: seq<nat>) {
    && |at| == |quote|
    && (forall k :: 0 <= k < |at| ==> at[k] < |source| && source[at[k]] == quote[k])
    && (forall j, k :: 0 <= j < k < |at| ==> at[j] < at[k])
  }

  /** No placement puts any token earlier. */
  ghost predicate Leftmost(source: seq<string>, quote: seq<string>, at: seq<nat>) {
    Embeds(source, quote, at) && forall other :: Embeds(source, quote, other) ==> forall k :: 0 <= k < |at| ==> at[k] <= other[k]
  }

  lemma {:induction false} LeftmostUnique(source: seq<string>, quote: seq<string>, a: seq<nat>, b: seq<nat>)
    requires Leftmost(source, quote, a) && Leftmost(source, quote, b)
    ensures a == b
  {
    assert Embeds(source, quote, a) && Embeds(source, quote, b);
  }

  lemma {:induction false} EmbedsPrefix(source: seq<string>, quote: seq<string>, at: seq<nat>, k: nat)
    requires Embeds(source, quote, at) && k <= |quote|
    ensures Embeds(source, quote[..k], at[..k])
  {}

  /** `source.index(token, from)` */
  method Index(source: seq<string>, token: string, from: nat) returns (r: Option<nat>)
    ensures r.Some? ==> from <= r.value < |source| && source[r.value] == token && forall i :: from <= i < r.value ==> source[i] != token
    ensures r.None? ==> forall i :: from <= i < |source| ==> source[i] != token
  {
    var i := from;
    while i < |source|
      invariant from <= i
      invariant forall j :: from <= j < i && j < |source| ==> source[j] != token
    {
      if source[i] == token { return Some(i); }
      i := i + 1;
    }
    return None;
  }

  /** Placing the next token as early as possible keeps a leftmost placement leftmost. */
  lemma {:induction false} LeftmostSnoc(source: seq<string>, quote: seq<string>, k: nat, at: seq<nat>, found: nat)
    requires k < |quote| && Leftmost(source, quote[..k], at)
    requires (if k == 0 then 0 else at[k - 1] + 1) <= found < |source| && source[found] == quote[k]
    requires forall i :: (if k == 0 then 0 else at[k - 1] + 1) <= i < found ==> source[i] != quote[k]
    ensures Leftmost(source, quote[..k + 1], at + [found])
  {
    var next, longer := at + [found], quote[..k + 1];
    forall other | Embeds(source, longer, other) ensures forall i :: 0 <= i < |next| ==> next[i] <= other[i] {
      EmbedsPrefix(source, longer, other, k);
      assert longer[..k] == quote[..k];
      assert forall i :: 0 <= i < k ==> at[i] <= other[..k][i];
      assert source[other[k]] == quote[k];
    }
  }

  lemma {:induction false} NoPlacement(source: seq<string>, quote: seq<string>, k: nat, at: seq<nat>, any: seq<nat>)
    requires k < |quote| && Leftmost(source, quote[..k], at) && Embeds(source, quote, any)
    ensures exists i :: (if k == 0 then 0 else at[k - 1] + 1) <= i < |source| && source[i] == quote[k]
  {
    EmbedsPrefix(source, quote, any, k);
    assert k > 0 ==> at[k - 1] <= any[..k][k - 1];
    assert source[any[k]] == quote[k];
  }

  /** The greedy scan: it finds the quote exactly when the quote is a subsequence of the source, and
      then at the leftmost placement, token by token. */
  method GreedyMatch(source: seq<string>, quote: seq<string>) returns (r: Option<(nat, nat)>, ghost at: seq<nat>)
    requires quote != []
    ensures r.Some? ==> Leftmost(source, quote, at) && r.value == (at[0], at[|at| - 1])
    ensures r.None? ==> forall any :: !Embeds(source, quote, any)
  {
    var cursor, first, last := 0, 0, 0;
    at := [];
    for k := 0 to |quote|
      invariant Leftmost(source, quote[..k], at)
      invariant cursor == if k == 0 then 0 else at[k - 1] + 1
      invariant k > 0 ==> first == at[0] && last == at[k - 1]
    {
      var found := Index(source, quote[k], cursor);
      if found.None? {
        forall any ensures !Embeds(source, quote, any) {
          if Embeds(source, quote, any) { NoPlacement(source, quote, k, at, any); }
        }
        return None, at;
      }
      LeftmostSnoc(source, quote, k, at, found.value);
      at := at + [found.value];
      if k == 0 { first := found.value; }
      last := found.value;
      cursor := found.value + 1;
    }
    assert quote[..|quote|] == quote;
    return Some((first, last)), at;
  }

  function Concat(lines: seq<seq<string>>): seq<string> {
    if lines == [] then [] else Concat(lines[..|lines| - 1]) + lines[|lines| - 1]
  }

  function ExtraBound(n: nat): nat { Max(EXTRA_FLOOR, n / 2) }

  /** A quote of `n` tokens bears two dozen foreign ones, or half as many as it has itself. */
  ghost predicate Bearable(extra: int, n: nat) { extra <= 24 || 2 * extra <= n }

  /** The window holds the quote in order, with `extra` foreign tokens inside its leftmost placement. */
  ghost predicate Matches(lines: seq<seq<string>>, quote: seq<string>, w: Span, extra: int) {
    && 1 <= w.start <= w.end <= |lines| && quote != []
    && exists at :: Leftmost(Concat(lines[w.start - 1..w.end]), quote, at) && extra == at[|at| - 1] - at[0] + 1 - |quote|
  }

  /** A window of the neighbourhood whose match is tight enough. */
  ghost predicate Candidate(lines: seq<seq<string>>, quote: seq<string>, lower: int, upper: int, w: Span, extra: int) {
    lower <= w.start && w.end <= upper && Matches(lines, quote, w, extra) && Bearable(extra, |quote|)
  }

  lemma {:induction false} MatchesDetermined(lines: seq<seq<string>>, quote: seq<string>, w: Span, x: int, y: int)
    requires Matches(lines, quote, w, x) && Matches(lines, quote, w, y)
    ensures x == y
  {
    var source := Concat(lines[w.start - 1..w.end]);
    var a :| Leftmost(source, quote, a) && x == a[|a| - 1] - a[0] + 1 - |quote|;
    var b :| Leftmost(source, quote, b) && y == b[|b| - 1] - b[0] + 1 - |quote|;
    LeftmostUnique(source, quote, a, b);
  }

  datatype Found = Found(span: Span, extra: int)

  ghost predicate Tight(lines: seq<seq<string>>, quote: seq<string>, f: Found) {
    Matches(lines, quote, f.span, f.extra) && Bearable(f.extra, |quote|)
  }

  method TryWindow(lines: seq<seq<string>>, quote: seq<string>, w: Span, source: seq<string>) returns (r: Option<int>)
    requires quote != [] && 1 <= w.start <= w.end <= |lines| && source == Concat(lines[w.start - 1..w.end])
    ensures forall f: Found :: f.span == w ==> (Tight(lines, quote, f) <==> r == Some(f.extra))
  {
    var m, at := GreedyMatch(source, quote);
    if m.None? {
      r := None;
    } else {
      var extra := m.value.1 - m.value.0 + 1 - |quote|;
      assert Matches(lines, quote, w, extra);
      forall x ensures Matches(lines, quote, w, x) ==> x == extra {
        if Matches(lines, quote, w, x) { MatchesDetermined(lines, quote, w, x, extra); }
      }
      r := if extra <= ExtraBound(|quote|) then Some(extra) else None;
    }
  }

  /** The inner loop: the tight windows that begin at line `start`. */
  method CandidatesFrom(lines: seq<seq<string>>, quote: seq<string>, start: int, upper: int) returns (found: seq<Found>)
    requires quote != [] && 1 <= start <= upper <= |lines|
    ensures forall f :: f in found <==> f.span.start == start && f.span.end <= upper && Tight(lines, quote, f)
  {
    found := [];
    var source: seq<string> := [];
    for end := start to upper + 1
      invariant source == Concat(lines[start - 1..end - 1])
      invariant forall f :: f in found <==> f.span.start == start && f.span.end < end && Tight(lines, quote, f)
    {
      assert lines[start - 1..end][..end - start] == lines[start - 1..end - 1];
      source := source + lines[end - 1];
      var w := Span(start, end);
      var extra := TryWindow(lines, quote, w, source);
      forall f: Found | f.span.start == start && f.span.end == end ensures Tight(lines, quote, f) <==> extra == Some(f.extra) {
        assert f.span == w;
      }
      if extra.Some? { found := found + [Found(w, extra.value)]; }
    }
  }

  method Candidates(lines: seq<seq<string>>, quote: seq<string>, lower: int, upper: int) returns (found: seq<Found>)
    requires quote != [] && 1 <= lower && upper <= |lines|
    ensures forall f :: f in found <==> Candidate(lines, quote, lower, upper, f.span, f.extra)
  {
    found := [];
    var start := lower;
    while start <= upper
      invariant lower <= start
      invariant forall f :: f in found <==> lower <= f.span.start < start && f.span.end <= upper && Tight(lines, quote, f)
    {
      var more := CandidatesFrom(lines, quote, start, upper);
      found := found + more;
      start := start + 1;
    }
  }

  /** The chosen windows: among the candidates those of least width, and among these the tightest. */
  ghost predicate Chosen(lines: seq<seq<string>>, quote: seq<string>, lower: int, upper: int, w: Span) {
    exists extra ::
      && Candidate(lines, quote, lower, upper, w, extra)
      && (forall v, x :: Candidate(lines, quote, lower, upper, v, x) ==> w.end - w.start <= v.end - v.start)
      && (forall v, x :: Candidate(lines, quote, lower, upper, v, x) && v.end - v.start == w.end - w.start ==> extra <= x)
  }

  /** Chosen among the windows from eight lines before to eight lines after the declared ones. */
  ghost predicate Nearby(lines: seq<seq<string>>, quote: seq<string>, lineStart: int, lineEnd: int, w: Span) {
    Chosen(lines, quote, lineStart - 8, lineEnd + 8, w)
  }

  method LeastWidth(found: seq<Found>) returns (m: int)
    requires found != []
    ensures forall f :: f in found ==> m <= Width(f.span)
    ensures exists f :: f in found && m == Width(f.span)
  {
    m := Width(found[0].span);
    for i := 1 to |found|
      invariant forall k :: 0 <= k < i ==> m <= Width(found[k].span)
      invariant exists k :: 0 <= k < i && m == Width(found[k].span)
    {
      if Width(found[i].span) < m { m := Width(found[i].span); }
    }
  }

  method LeastExtra(found: seq<Found>, width: int) returns (m: int)
    requires exists f :: f in found && Width(f.span) == width
    ensures forall f :: f in found && Width(f.span) == width ==> m <= f.extra
    ensures exists f :: f in found && Width(f.span) == width && m == f.extra
  {
    var best: Option<int> := None;
    for i := 0 to |found|
      invariant best.None? ==> forall k :: 0 <= k < i ==> Width(found[k].span) != width
      invariant best.Some? ==> forall k :: 0 <= k < i && Width(found[k].span) == width ==> best.value <= found[k].extra
      invariant best.Some? ==> exists k :: 0 <= k < i && Width(found[k].span) == width && best.value == found[k].extra
    {
      if Width(found[i].span) == width && (best.None? || found[i].extra < best.value) { best := Some(found[i].extra); }
    }
    m := best.value;
  }

  method Keep(found: seq<Found>, width: int, extra: int) returns (kept: seq<Span>)
    ensures forall w :: w in kept <==> Width(w) == width && Found(w, extra) in found
    ensures forall j, k :: 0 <= j < k < |kept| ==> kept[j] != kept[k]
  {
    kept := [];
    for i := 0 to |found|
      invariant forall w :: w in kept <==> Width(w) == width && Found(w, extra) in found[..i]
      invariant forall j, k :: 0 <= j < k < |kept| ==> kept[j] != kept[k]
    {
      var f := found[i];
      if Width(f.span) == width && f.extra == extra && f.span !in kept { kept := kept + [f.span]; }
    }
    assert found[..|found|] == found;
  }

  /** `_recovery_subsequence_spans`: exactly the chosen windows of the neighbourhood, in order. */
  method SubsequenceSpans(lines: seq<seq<string>>, quote: seq<string>, lineStart: int, lineEnd: int) returns (r: seq<Span>)
    ensures |quote| < 6 ==> r == []
    ensures |quote| >= 6 ==> forall w :: w in r <==> Nearby(lines, quote, lineStart, lineEnd, w)
    ensures forall i, j :: 0 <= i < j < |r| ==> SpanLt(r[i], r[j])
  {
    if |quote| < MIN_TOKENS { return []; }
    var lower, upper := Max(1, lineStart - RADIUS), Min(|lines|, lineEnd + RADIUS);
    var found := Candidates(lines, quote, lower, upper);
    if found == [] {
      forall w ensures !Nearby(lines, quote, lineStart, lineEnd, w) {
        NothingFound(lines, quote, lower, upper, w);
        InsideLines(lines, quote, lineStart, lineEnd, w);
      }
      return [];
    }
    var width := LeastWidth(found);
    var extra := LeastExtra(found, width);
    var kept := Keep(found, width, extra);
    forall w ensures w in kept <==> Nearby(lines, quote, lineStart, lineEnd, w) {
      ChosenIsLeast(lines, quote, lower, upper, found, width, extra, w);
      InsideLines(lines, quote, lineStart, lineEnd, w);
    }
    r := SortedSpans(kept);
  }

  lemma {:induction false} NothingFound(lines: seq<seq<string>>, quote: seq<string>, lower: int, upper: int, w: Span)
    requires forall f: Found :: !Candidate(lines, quote, lower, upper, f.span, f.extra)
    ensures !Chosen(lines, quote, lower, upper, w)
  {
    forall extra ensures !Candidate(lines, quote, lower, upper, w, extra) {
      var f := Found(w, extra);
      assert !Candidate(lines, quote, lower, upper, f.span, f.extra);
    }
  }

  /** Candidates lie inside the lines, so the neighbourhood may be cut down to them. */
  lemma {:induction false} InsideLines(lines: seq<seq<string>>, quote: seq<string>, lineStart: int, lineEnd: int, w: Span)
    ensures Nearby(lines, quote, lineStart, lineEnd, w) <==> Chosen(lines, quote, Max(1, lineStart - 8), Min(|lines|, lineEnd + 8), w)
  {
    SameChoice(lines, quote, lineStart - 8, lineEnd + 8, w);
  }

  lemma {:induction false} SameChoice(lines: seq<seq<string>>, quote: seq<string>, lower: int, upper: int, w: Span)
    ensures Chosen(lines, quote, lower, upper, w) <==> Chosen(lines, quote, Max(1, lower), Min(|lines|, upper), w)
  {
    forall v, x ensures Candidate(lines, quote, lower, upper, v, x) <==> Candidate(lines, quote, Max(1, lower), Min(|lines|, upper), v, x) {}
  }

  lemma {:induction false} ChosenIsLeast(lines: seq<seq<string>>, quote: seq<string>, lower: int, upper: int, found: seq<Found>, width: int, extra: int, w: Span)
    requires forall f :: f in found <==> Candidate(lines, quote, lower, upper, f.span, f.extra)
    requires forall f :: f in found ==> width <= Width(f.span)
    requires forall f :: f in found && Width(f.span) == width ==> extra <= f.extra
    requires exists f :: f in found && Width(f.span) == width && extra == f.extra
    ensures Chosen(lines, quote, lower, upper, w) <==> Width(w) == width && Found(w, extra) in found
  {
    var f :| f in found && Width(f.span) == width && extra == f.extra;
    if Chosen(lines, quote, lower, upper, w) {
      var x :| && Candidate(lines, quote, lower, upper, w, x)
               && (forall v, y :: Candidate(lines, quote, lower, upper, v, y) ==> w.end - w.start <= v.end - v.start)
               && (forall v, y :: Candidate(lines, quote, lower, upper, v, y) && v.end - v.start == w.end - w.start ==> x <= y);
      assert Candidate(lines, quote, lower, upper, f.span, f.extra);
      assert Found(w, x) in found;
    }
    if Width(w) == width && Found(w, extra) in found {
      assert Candidate(lines, quote, lower, upper, w, extra);
      forall v, y | Candidate(lines, quote, lower, upper, v, y) ensures Width(w) <= Width(v) && (Width(v) == Width(w) ==> extra <= y) {
        assert Found(v, y) in found;
      }
    }
  }

  // ---------------------------------------------------------------- verbatim quotes

  /** The quote stands in the source token by token, from position `p` on. */
  ghost predicate VerbatimAt(source: seq<string>, quote: seq<string>, p: nat) {
    p + |quote| <= |source| && forall k :: 0 <= k < |quote| ==> source[p + k] == quote[k]
  }

  ghost predicate FirstCopy(source: seq<string>, token: string, f: nat) {
    f < |source| && source[f] == token && forall i :: 0 <= i < f ==> source[i] != token
  }

  lemma {:induction false} NextCopy(source: seq<string>, token: string, from: nat, any: nat) returns (i: nat)
    requires from <= any < |source| && source[any] == token
    ensures from <= i <= any && source[i] == token && forall j :: from <= j < i ==> source[j] != token
    decreases any - from
  {
    i := from;
    if source[from] != token { i := NextCopy(source, token, from + 1, any); }
  }

  /** A quote that can be placed has a leftmost placement. */
  lemma {:induction false} LeftmostExists(source: seq<string>, quote: seq<string>, any: seq<nat>, k: nat) returns (at: seq<nat>)
    requires Embeds(source, quote, any) && k <= |quote|
    ensures Leftmost(source, quote[..k], at)
    decreases k
  {
    if k == 0 { return []; }
    at := LeftmostExists(source, quote, any, k - 1);
    EmbedsPrefix(source, quote, any, k - 1);
    var from := if k == 1 then 0 else at[k - 2] + 1;
    assert k > 1 ==> at[k - 2] <= any[..k - 1][k - 2];
    var found := NextCopy(source, quote[k - 1], from, any[k - 1]);
    LeftmostSnoc(source, quote, k - 1, at, found);
    at := at + [found];
  }

  lemma {:induction false} Spread(at: seq<nat>, k: nat)
    requires k < |at| && forall i, j :: 0 <= i < j < |at| ==> at[i] < at[j]
    ensures at[k] >= at[0] + k
  {
    if k > 0 { Spread(at, k - 1); }
  }

  /** The leftmost placement of a verbatim quote starts at the first copy of its first token, and ends no
      later than the quote does. */
  lemma {:induction false} VerbatimLeftmost(source: seq<string>, quote: seq<string>, p: nat, f: nat) returns (at: seq<nat>)
    requires quote != [] && VerbatimAt(source, quote, p) && FirstCopy(source, quote[0], f)
    ensures Leftmost(source, quote, at) && at[0] == f
    ensures f + |quote| <= at[|at| - 1] + 1 <= p + |quote|
  {
    var any := seq(|quote|, k requires 0 <= k < |quote| => p + k);
    assert Embeds(source, quote, any);
    at := LeftmostExists(source, quote, any, |quote|);
    assert quote[..|quote|] == quote;
    assert Embeds(source, quote, at[0 := f]) by {
      assert f <= at[0];
    }
    Spread(at, |at| - 1);
  }

  /** Whether a window with a verbatim quote is a candidate: the foreign tokens of its leftmost placement
      decide, and they are never more than the tokens from the first copy of the quote's first token up to
      the quote. */
  lemma {:induction false} VerbatimWindow(lines: seq<seq<string>>, quote: seq<string>, w: Span, p: nat, f: nat) returns (at: seq<nat>, extra: int)
    requires 1 <= w.start <= w.end <= |lines| && quote != []
    requires VerbatimAt(Concat(lines[w.start - 1..w.end]), quote, p) && FirstCopy(Concat(lines[w.start - 1..w.end]), quote[0], f)
    ensures Leftmost(Concat(lines[w.start - 1..w.end]), quote, at) && extra == at[|at| - 1] - f + 1 - |quote|
    ensures 0 <= extra <= p - f && Matches(lines, quote, w, extra)
    ensures forall lower, upper, x :: lower <= w.start && w.end <= upper ==>
              (Candidate(lines, quote, lower, upper, w, x) <==> x == extra && Bearable(extra, |quote|))
  {
    at := VerbatimLeftmost(Concat(lines[w.start - 1..w.end]), quote, p, f);
    extra := at[|at| - 1] - f + 1 - |quote|;
    assert Matches(lines, quote, w, extra);
    forall x | Matches(lines, quote, w, x) ensures x == extra { MatchesDetermined(lines, quote, w, x, extra); }
  }

  /** Some candidate is least, so as soon as there is one a window is chosen, and no wider one. */
  lemma {:induction false} LeastCandidate(lines: seq<seq<string>>, quote: seq<string>, lower: int, upper: int, w: Span, x: int) returns (v: Span)
    requires Candidate(lines, quote, lower, upper, w, x)
    ensures Chosen(lines, quote, lower, upper, v) && Width(v) <= Width(w)
    decreases Width(w), x
  {
    MatchesNatural(lines, quote, w, x);
    if v', y :| Candidate(lines, quote, lower, upper, v', y) && (Width(v') < Width(w) || (Width(v') == Width(w) && y < x)) {
      MatchesNatural(lines, quote, v', y);
      v := LeastCandidate(lines, quote, lower, upper, v', y);
    } else {
      v := w;
    }
  }

  lemma {:induction false} MatchesNatural(lines: seq<seq<string>>, quote: seq<string>, w: Span, x: int)
    requires Matches(lines, quote, w, x)
    ensures x >= 0 && Width(w) >= 0
  {
    var at :| Leftmost(Concat(lines[w.start - 1..w.end]), quote, at) && x == at[|at| - 1] - at[0] + 1 - |quote|;
    Spread(at, |at| - 1);
  }

  /** Every window that holds the quote in order has too many foreign tokens in its leftmost placement. */
  ghost predicate AllTooLoose(lines: seq<seq<string>>, quote: seq<string>, lower: int, upper: int) {
    forall v: Span, x :: lower <= v.start && v.end <= upper && Matches(lines, quote, v, x) ==> !Bearable(x, |quote|)
  }

  lemma {:induction false} NothingChosen(lines: seq<seq<string>>, quote: seq<string>, lower: int, upper: int)
    ensures (forall v :: !Chosen(lines, quote, lower, upper, v)) <==> AllTooLoose(lines, quote, lower, upper)
  {
    if v: Span, x :| lower <= v.start && v.end <= upper && Matches(lines, quote, v, x) && Bearable(x, |quote|) {
      assert Candidate(lines, quote, lower, upper, v, x);
      var u := LeastCandidate(lines, quote, lower, upper, v, x);
      assert Chosen(lines, quote, lower, upper, u);
    }
  }

  /** In a neighbourhood that holds the quote verbatim in window `w` the search finds a window no wider
      than `w` if the stray distance in `w` is within the bound. */
  lemma {:induction false} VerbatimIsFound(lines: seq<seq<string>>, quote: seq<string>, lower: int, upper: int, w: Span, p: nat, f: nat)
    requires 1 <= w.start <= w.end <= |lines| && lower <= w.start && w.end <= upper && quote != []
    requires VerbatimAt(Concat(lines[w.start - 1..w.end]), quote, p) && FirstCopy(Concat(lines[w.start - 1..w.end]), quote[0], f)
    ensures Bearable(p - f, |quote|) ==> exists v :: Chosen(lines, quote, lower, upper, v) && Width(v) <= Width(w)
  {
    var at, extra := VerbatimWindow(lines, quote, w, p, f);
    if Bearable(extra, |quote|) {
      assert Candidate(lines, quote, lower, upper, w, extra);
      var v := LeastCandidate(lines, quote, lower, upper, w, extra);
    }
  }

  /** So verbatim quotes are missed: the tightness test looks at the leftmost placement, not at the best
      one. On a single line that opens with a stray copy of the quote's first token, the quote itself is
      accepted exactly while the stray distance stays within the bound. */
  lemma {:induction false} StrayFirstToken(quote: seq<string>, junk: seq<string>, extra: int)
    requires |quote| >= 6 && quote[0] != quote[1] && quote[1] !in junk
    ensures var line := [quote[0]] + junk + quote;
            Candidate([line], quote, 1, 1, Span(1, 1), extra) <==> extra == |junk| + 1 && Bearable(|junk| + 1, |quote|)
  {
    var line, w := [quote[0]] + junk + quote, Span(1, 1);
    StrayMatches(quote, junk);
    if Matches([line], quote, w, extra) { MatchesDetermined([line], quote, w, extra, |junk| + 1); }
  }

  lemma {:induction false} StrayMatches(quote: seq<string>, junk: seq<string>)
    requires |quote| >= 6 && quote[0] != quote[1] && quote[1] !in junk
    ensures Matches([[quote[0]] + junk + quote], quote, Span(1, 1), |junk| + 1)
  {
    var line := [quote[0]] + junk + quote;
    ConcatOne(line);
    var at := StrayLeftmost(quote, junk);
    assert Leftmost(Concat([line][0..1]), quote, at);
  }

  lemma {:induction false} ConcatOne(line: seq<string>)
    ensures Concat([line][0..1]) == line
  {
    assert [line][0..1] == [line] && [line][..0] == [];
  }

  lemma {:induction false} StrayLeftmost(quote: seq<string>, junk: seq<string>) returns (at: seq<nat>)
    requires |quote| >= 6 && quote[0] != quote[1] && quote[1] !in junk
    ensures Leftmost([quote[0]] + junk + quote, quote, at)
    ensures at[0] == 0 && at[|at| - 1] == |junk| + |quote|
  {
    var line, n := [quote[0]] + junk + quote, |junk| + 1;
    at := seq(|quote|, k requires 0 <= k < |quote| => if k == 0 then 0 else n + k);
    StrayEmbeds(quote, junk, at);
    forall other | Embeds(line, quote, other) ensures forall k :: 0 <= k < |at| ==> at[k] <= other[k] {
      forall k | 1 <= k < |quote| ensures at[k] <= other[k] { StrayLowerBound(quote, junk, other, k); }
    }
  }

  lemma {:induction false} StrayEmbeds(quote: seq<string>, junk: seq<string>, at: seq<nat>)
    requires |at| == |quote| > 0 && at[0] == 0 && forall k :: 1 <= k < |quote| ==> at[k] == |junk| + 1 + k
    ensures Embeds([quote[0]] + junk + quote, quote, at)
  {
    var head := [quote[0]] + junk;
    forall k | 0 <= k < |at| ensures at[k] < |head + quote| && (head + quote)[at[k]] == quote[k] {
      if k > 0 { ConcatAt(head, quote, k); }
    }
    forall j, k | 0 <= j < k < |at| ensures at[j] < at[k] {
      assert at[k] == |junk| + 1 + k;
    }
  }

  lemma {:induction false} ConcatAt<T>(a: seq<T>, b: seq<T>, k: nat)
    requires k < |b|
    ensures (a + b)[|a| + k] == b[k]
  {}

  lemma {:induction false} StraySecond(quote: seq<string>, junk: seq<string>, i: nat)
    requires |quote| >= 6 && quote[0] != quote[1] && quote[1] !in junk && i <= |junk| + 1
    ensures ([quote[0]] + junk + quote)[i] != quote[1]
  {
    var head := [quote[0]] + junk;
    if i < |head| {
      assert (head + quote)[i] == head[i];
      if i > 0 { assert head[i] == junk[i - 1]; }
    } else {
      ConcatAt(head, quote, 0);
    }
  }

  lemma {:induction false} StrayLowerBound(quote: seq<string>, junk: seq<string>, other: seq<nat>, k: nat)
    requires |quote| >= 6 && quote[0] != quote[1] && quote[1] !in junk
    requires Embeds([quote[0]] + junk + quote, quote, other) && 1 <= k < |quote|
    ensures |junk| + 1 + k <= other[k]
  {
    if k > 1 {
      StrayLowerBound(quote, junk, other, k - 1);
      assert other[k - 1] < other[k];
    } else if other[1] <= |junk| + 1 {
      StraySecond(quote, junk, other[1]);
    }
  }
}
