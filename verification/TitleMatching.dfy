/** Greedy one-to-one matching of canonical titles with extracted candidates by similarity. */
module TitleMatching {
  import opened Wrappers
  import Sorting

  /** A scored pair: canonical title `c` and candidate `d`. */
  datatype Pair = Pair(score: real, c: nat, d: nat)

  /** Descending tuple order, as `sorted(..., reverse=True)` uses. */
  predicate Descending(x: Pair, y: Pair) {
    x.score > y.score || (x.score == y.score && (x.c > y.c || (x.c == y.c && x.d >= y.d)))
  }

  type Scores = (nat, nat) -> real

  ghost predicate Scored(score: Scores, nc: nat, nd: nat, p: Pair) {
    p.c < nc && p.d < nd && p.score == score(p.c, p.d)
  }

  ghost predicate OneToOne(m: set<Pair>) {
    forall p, q :: p in m && q in m && p != q ==> p.c != q.c && p.d != q.d
  }

  predicate Conflict(p: Pair, q: Pair) { p.c == q.c || p.d == q.d }

  function Scoring(s: seq<Pair>): seq<real> { seq(|s|, i requires 0 <= i < |s| => s[i].score) }

  /** The greater score goes first, and among equal scores the later title, then the later candidate. */
  ghost predicate Before(p: Pair, q: Pair) {
    if p.score != q.score then p.score > q.score else if p.c != q.c then p.c > q.c else p.d > q.d
  }

  /** The pair is picked, or one that goes before it uses one of its ends. */
  ghost predicate Blocked(p: Pair, picked: seq<Pair>) {
    p in picked || exists i :: 0 <= i < |picked| && Conflict(p, picked[i]) && Before(picked[i], p)
  }

  /** What the greedy matching promises. */
  ghost predicate GreedyMatching(score: Scores, nc: nat, nd: nat, threshold: real, picked: seq<Pair>) {
    && (forall i :: 0 <= i < |picked| ==> Scored(score, nc, nd, picked[i]) && picked[i].score >= threshold)
    && (forall i, j :: 0 <= i < j < |picked| ==> Before(picked[i], picked[j]) && !Conflict(picked[i], picked[j]))
    && (forall p {:trigger Blocked(p, picked)} :: Scored(score, nc, nd, p) && p.score >= threshold ==> Blocked(p, picked))
  }

  method AllPairs(score: Scores, nc: nat, nd: nat) returns (pairs: seq<Pair>)
    ensures forall p :: p in pairs <==> Scored(score, nc, nd, p)
  {
    pairs := [];
    for c := 0 to nc
      invariant forall p :: p in pairs <==> Scored(score, nc, nd, p) && p.c < c
    {
      for d := 0 to nd
        invariant forall p :: p in pairs <==> Scored(score, nc, nd, p) && (p.c < c || (p.c == c && p.d < d))
      {
        pairs := pairs + [Pair(score(c, d), c, d)];
      }
    }
  }

  ghost predicate UsedEnds(picked: seq<Pair>, usedC: set<nat>, usedD: set<nat>) {
    usedC == (set p | p in picked :: p.c) && usedD == (set p | p in picked :: p.d)
  }

  /** Every pair picked so far is one of the first `i`, and above the threshold. */
  ghost predicate Drawn(pairs: seq<Pair>, i: nat, threshold: real, picked: seq<Pair>) {
    i <= |pairs| && forall p :: p in picked ==> p in pairs[..i] && p.score >= threshold
  }

  ghost predicate Ranked(picked: seq<Pair>) {
    forall i, j :: 0 <= i < j < |picked| ==> Before(picked[i], picked[j]) && !Conflict(picked[i], picked[j])
  }

  ghost predicate Covered(pairs: seq<Pair>, i: nat, picked: seq<Pair>) {
    i <= |pairs| && forall k {:trigger Blocked(pairs[k], picked)} :: 0 <= k < i ==> Blocked(pairs[k], picked)
  }

  lemma {:induction false} DrawnEarlier(pairs: seq<Pair>, i: nat, threshold: real, picked: seq<Pair>, p: Pair)
    requires i < |pairs| && Drawn(pairs, i, threshold, picked) && Sorting.SortedBy(Descending, pairs) && p in picked
    ensures p == pairs[i] || Before(p, pairs[i])
  {
    var j :| 0 <= j < i && pairs[j] == p;
    assert Descending(pairs[j], pairs[i]);
  }

  lemma {:induction false} BlockedMore(p: Pair, picked: seq<Pair>, q: Pair)
    requires Blocked(p, picked) || p == q
    ensures Blocked(p, picked + [q])
  {
    var next := picked + [q];
    if p !in next {
      var j :| 0 <= j < |picked| && Conflict(p, picked[j]) && Before(picked[j], p);
      assert next[j] == picked[j];
    }
  }

  /** Picking the next pair. */
  lemma {:induction false} Pick(pairs: seq<Pair>, i: nat, threshold: real, picked: seq<Pair>, usedC: set<nat>, usedD: set<nat>)
    requires i < |pairs| && Sorting.SortedBy(Descending, pairs) && Drawn(pairs, i, threshold, picked)
    requires UsedEnds(picked, usedC, usedD) && Ranked(picked) && Covered(pairs, i, picked)
    requires pairs[i].score >= threshold && pairs[i].c !in usedC && pairs[i].d !in usedD
    ensures Drawn(pairs, i + 1, threshold, picked + [pairs[i]])
    ensures Ranked(picked + [pairs[i]]) && Covered(pairs, i + 1, picked + [pairs[i]])
  {
    var p := pairs[i];
    assert pairs[..i + 1] == pairs[..i] + [p];
    forall k | 0 <= k < |picked| ensures Before(picked[k], p) && !Conflict(picked[k], p) {
      DrawnEarlier(pairs, i, threshold, picked, picked[k]);
      assert picked[k] in picked && picked[k].c in usedC && picked[k].d in usedD;
    }
    forall k | 0 <= k < i + 1 ensures Blocked(pairs[k], picked + [p]) { BlockedMore(pairs[k], picked, p); }
  }

  lemma {:induction false} UsedMore(picked: seq<Pair>, usedC: set<nat>, usedD: set<nat>, p: Pair)
    requires UsedEnds(picked, usedC, usedD)
    ensures UsedEnds(picked + [p], usedC + {p.c}, usedD + {p.d})
  {}

  /** Passing over a pair one of whose ends is taken. */
  lemma {:induction false} Skip(pairs: seq<Pair>, i: nat, threshold: real, picked: seq<Pair>, usedC: set<nat>, usedD: set<nat>)
    requires i < |pairs| && Sorting.SortedBy(Descending, pairs) && Drawn(pairs, i, threshold, picked)
    requires UsedEnds(picked, usedC, usedD) && Covered(pairs, i, picked)
    requires pairs[i].c in usedC || pairs[i].d in usedD
    ensures Drawn(pairs, i + 1, threshold, picked) && Covered(pairs, i + 1, picked)
  {
    assert pairs[..i + 1] == pairs[..i] + [pairs[i]];
    var q :| q in picked && Conflict(pairs[i], q);
    DrawnEarlier(pairs, i, threshold, picked, q);
    assert Blocked(pairs[i], picked);
  }

  /** The scan may stop at the first score below the threshold: only lower ones follow. */
  lemma {:induction false} Finish(score: Scores, nc: nat, nd: nat, threshold: real, pairs: seq<Pair>, i: nat, picked: seq<Pair>)
    requires forall p :: p in pairs <==> Scored(score, nc, nd, p)
    requires Sorting.SortedBy(Descending, pairs)
    requires Drawn(pairs, i, threshold, picked) && Ranked(picked) && Covered(pairs, i, picked)
    requires i == |pairs| || pairs[i].score < threshold
    ensures GreedyMatching(score, nc, nd, threshold, picked)
  {
    forall k | i <= k < |pairs| ensures pairs[k].score < threshold {
      if k > i { assert Descending(pairs[i], pairs[k]); }
    }
    forall p | Scored(score, nc, nd, p) && p.score >= threshold ensures Blocked(p, picked) {
      var k :| 0 <= k < |pairs| && pairs[k] == p;
      assert Blocked(pairs[k], picked);
    }
    forall k | 0 <= k < |picked| ensures Scored(score, nc, nd, picked[k]) && picked[k].score >= threshold {
      assert picked[k] in picked && picked[k] in pairs;
    }
  }

  /** `match_title_candidates`. `picked` names the pairs behind the returned scores. */
  method MatchTitles(score: Scores, nc: nat, nd: nat, threshold: real) returns (matches: Option<seq<real>>, ghost picked: seq<Pair>)
    ensures matches.None? <==> threshold < 0.0 || threshold > 1.0
    ensures matches.Some? ==> GreedyMatching(score, nc, nd, threshold, picked) && matches.value == Scoring(picked)
  {
    picked := [];
    if threshold < 0.0 || threshold > 1.0 { return None, picked; }
    var all := AllPairs(score, nc, nd);
    var pairs := Sorting.Sort(Descending, all);
    Sorting.SortKeeps(Descending, all);
    Sorting.SortSorts(Descending, all);
    var usedC: set<nat>, usedD: set<nat> := {}, {};
    var result: seq<real> := [];
    var i := 0;
    while i < |pairs| && pairs[i].score >= threshold
      invariant Drawn(pairs, i, threshold, picked) && Ranked(picked)
      invariant UsedEnds(picked, usedC, usedD) && Covered(pairs, i, picked)
      invariant result == Scoring(picked)
    {
      var p := pairs[i];
      if p.c in usedC || p.d in usedD {
        Skip(pairs, i, threshold, picked, usedC, usedD);
      } else {
        Pick(pairs, i, threshold, picked, usedC, usedD);
        UsedMore(picked, usedC, usedD, p);
        usedC, usedD := usedC + {p.c}, usedD + {p.d};
        picked := picked + [p];
        result := result + [p.score];
      }
      i := i + 1;
    }
    Finish(score, nc, nd, threshold, pairs, i, picked);
    matches := Some(result);
  }

  // ---------------------------------------------------------------- there is one greedy matching

  lemma {:induction false} SamePrefix(score: Scores, nc: nat, nd: nat, threshold: real, a: seq<Pair>, b: seq<Pair>, k: nat)
    requires GreedyMatching(score, nc, nd, threshold, a) && GreedyMatching(score, nc, nd, threshold, b) && k <= |a|
    ensures k <= |b| && a[..k] == b[..k]
  {
    if k > 0 {
      SamePrefix(score, nc, nd, threshold, a, b, k - 1);
      NextIsNoLater(score, nc, nd, threshold, a, b, k - 1);
      NextIsNoLater(score, nc, nd, threshold, b, a, k - 1);
      assert a[..k] == a[..k - 1] + [a[k - 1]] && b[..k] == b[..k - 1] + [b[k - 1]];
    }
  }

  lemma {:induction false} NextIsNoLater(score: Scores, nc: nat, nd: nat, threshold: real, a: seq<Pair>, b: seq<Pair>, k: nat)
    requires GreedyMatching(score, nc, nd, threshold, a) && GreedyMatching(score, nc, nd, threshold, b)
    requires k < |a| && k <= |b| && a[..k] == b[..k]
    ensures k < |b| && (b[k] == a[k] || Before(b[k], a[k]))
  {
    var p := a[k];
    assert Blocked(p, b);
    var j :| 0 <= j < |b| && Conflict(p, b[j]) && (b[j] == p || Before(b[j], p));
    if j < k { assert a[j] == a[..k][j] == b[..k][j] == b[j]; }
    if j > k { assert Before(b[k], b[j]); }
  }

  /** The matching is determined, ties included, and so are the scores. */
  lemma {:induction false} GreedyDetermined(score: Scores, nc: nat, nd: nat, threshold: real, a: seq<Pair>, b: seq<Pair>)
    requires GreedyMatching(score, nc, nd, threshold, a) && GreedyMatching(score, nc, nd, threshold, b)
    ensures a == b
  {
    SamePrefix(score, nc, nd, threshold, a, b, |a|);
    SamePrefix(score, nc, nd, threshold, b, a, |b|);
  }

  // ---------------------------------------------------------------- how good the greedy matching is

  /** Pairs with distinct left ends among `ends` are no more than `ends`. */
  lemma {:induction false} LeftEndsBound(m: set<Pair>, ends: set<nat>)
    requires OneToOne(m) && forall p :: p in m ==> p.c in ends
    ensures |m| <= |ends|
    decreases m
  {
    if p :| p in m {
      LeftEndsBound(m - {p}, ends - {p.c});
    }
  }

  lemma {:induction false} RightEndsBound(m: set<Pair>, ends: set<nat>)
    requires OneToOne(m) && forall p :: p in m ==> p.d in ends
    ensures |m| <= |ends|
    decreases m
  {
    if p :| p in m {
      RightEndsBound(m - {p}, ends - {p.d});
    }
  }

  lemma {:induction false} EndsOf(picked: seq<Pair>) returns (cs: set<nat>, ds: set<nat>)
    ensures |cs| <= |picked| && |ds| <= |picked|
    ensures forall i :: 0 <= i < |picked| ==> picked[i].c in cs && picked[i].d in ds
  {
    if picked == [] {
      cs, ds := {}, {};
    } else {
      var n := |picked| - 1;
      cs, ds := EndsOf(picked[..n]);
      assert forall i :: 0 <= i < n ==> picked[..n][i] == picked[i];
      cs, ds := cs + {picked[n].c}, ds + {picked[n].d};
    }
  }

  /** The greedy matching is at least half as large as any one-to-one matching above the threshold. */
  lemma {:induction false} GreedyIsHalfOptimal(score: Scores, nc: nat, nd: nat, threshold: real, picked: seq<Pair>, rival: set<Pair>)
    requires GreedyMatching(score, nc, nd, threshold, picked)
    requires OneToOne(rival) && forall p :: p in rival ==> Scored(score, nc, nd, p) && p.score >= threshold
    ensures |rival| <= 2 * |picked|
  {
    var cs, ds := EndsOf(picked);
    var left, right := set p | p in rival && p.c in cs, set p | p in rival && p.c !in cs;
    forall p | p in right ensures p.d in ds {
      assert Blocked(p, picked);
    }
    LeftEndsBound(left, cs);
    RightEndsBound(right, ds);
    assert rival == left + right;
  }

  /** Half is all that can be promised: here greed takes one pair where two were to be had. */
  lemma {:induction false} GreedyCanHalve()
    ensures exists score: Scores, picked: seq<Pair>, rival: set<Pair> ::
              && GreedyMatching(score, 2, 2, 0.8, picked) && OneToOne(rival)
              && (forall p :: p in rival ==> Scored(score, 2, 2, p) && p.score >= 0.8)
              && |rival| == 2 && |picked| == 1
  {
    var score: Scores := (c, d) => if c == 0 && d == 0 then 1.0 else if c == 1 && d == 1 then 0.0 else 0.9;
    var picked := [Pair(1.0, 0, 0)];
    var rival := {Pair(0.9, 0, 1), Pair(0.9, 1, 0)};
    OneTakesAll(score, Pair(1.0, 0, 0));
    assert OneToOne(rival) && |rival| == 2;
  }

  lemma {:induction false} OneTakesAll(score: Scores, best: Pair)
    requires best == Pair(score(0, 0), 0, 0) && score(0, 0) >= 0.8 > score(1, 1)
    requires score(0, 0) > score(0, 1) && score(0, 0) > score(1, 0)
    ensures GreedyMatching(score, 2, 2, 0.8, [best])
  {
    forall p | Scored(score, 2, 2, p) && p.score >= 0.8 ensures Blocked(p, [best]) {
      if p != best { assert Conflict(p, [best][0]) && Before(best, p); }
    }
  }
}
