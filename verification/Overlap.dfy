/** Overlap flags of speaker turns: a sweep in order of start against the pairwise definition.
    Times are exact numbers. */
module Overlap {
  import Sorting

  class Turn {
    const start: real
    const end: real
    var overlap: bool

    constructor (start: real, end: real)
      ensures this.start == start && this.end == end && !overlap
    {
      this.start, this.end, overlap := start, end, false;
    }
  }

  /** A turn in the sweep: its times and its place in the list. */
  datatype Row = Row(start: real, end: real, index: nat)

  /** `sorted` by start; the sort is stable, so turns that start together keep their order. */
  predicate Earlier(a: Row, b: Row) { a.start < b.start || (a.start == b.start && a.index <= b.index) }

  /** The sweep makes row `b` meet the earlier row `a`. */
  predicate Reaches(a: Row, b: Row) { a.end > b.start }

  function RowsOf(turns: seq<Turn>): (rows: seq<Row>)
    ensures |rows| == |turns| && forall i :: 0 <= i < |turns| ==> rows[i] == Row(turns[i].start, turns[i].end, i)
  {
    seq(|turns|, i requires 0 <= i < |turns| => Row(turns[i].start, turns[i].end, i))
  }

  ghost predicate Meets(rows: seq<Row>, q: nat, r: nat)
    requires q < |rows| && r < |rows|
  {
    rows[q] != rows[r] && Earlier(rows[q], rows[r]) && Reaches(rows[q], rows[r])
  }

  /** Turn `i` meets another turn of the list. */
  ghost predicate Flagged(rows: seq<Row>, i: nat)
    requires i < |rows|
  {
    exists j: nat :: j < |rows| && (Meets(rows, i, j) || Meets(rows, j, i))
  }

  /** The turn is under way at `t`. */
  predicate Speaks(a: Row, t: real) { a.start < t < a.end }

  ghost predicate Crosses(a: Row, b: Row) { exists t: real :: Speaks(a, t) && Speaks(b, t) }

  lemma {:induction false} CrossesIs(a: Row, b: Row)
    ensures Crosses(a, b) <==> a.start < a.end && b.start < b.end && a.start < b.end && b.start < a.end
  {
    var from := if a.start >= b.start then a.start else b.start;
    var to := if a.end <= b.end then a.end else b.end;
    if from < to {
      var t := (from + to) / 2.0;
      assert Speaks(a, t) && Speaks(b, t);
    }
  }

  /** Turn `i` shares an open stretch of time with another turn. */
  ghost predicate CrossesOther(rows: seq<Row>, i: nat)
    requires i < |rows|
  {
    exists j: nat :: j < |rows| && j != i && Crosses(rows[i], rows[j])
  }

  predicate Indexed(rows: seq<Row>) { forall j :: 0 <= j < |rows| ==> rows[j].index == j }

  lemma {:induction false} MeetingIsCrossing(rows: seq<Row>, i: nat, j: nat)
    requires Indexed(rows) && i < |rows| && j < |rows| && i != j
    ensures Crosses(rows[i], rows[j]) ==> Meets(rows, i, j) || Meets(rows, j, i)
    ensures Meets(rows, i, j) && rows[j].start < rows[j].end ==> Crosses(rows[i], rows[j]) && Crosses(rows[j], rows[i])
    ensures Meets(rows, i, j) && rows[j].start >= rows[j].end ==> forall k :: 0 <= k < |rows| ==> !Crosses(rows[j], rows[k])
  {
    CrossesIs(rows[i], rows[j]);
    CrossesIs(rows[j], rows[i]);
    forall k | 0 <= k < |rows| ensures Crosses(rows[j], rows[k]) ==> rows[j].start < rows[j].end { CrossesIs(rows[j], rows[k]); }
  }

  /** When the flags mean what they say: every turn is flagged exactly if it shares an open stretch of
      time with another, whatever the order of the list, exactly when no empty turn is met by an earlier one. */
  lemma {:induction false} FlagsAreCrossings(rows: seq<Row>)
    requires Indexed(rows)
    ensures (forall i: nat :: i < |rows| ==> (Flagged(rows, i) <==> CrossesOther(rows, i))) <==>
            (forall q: nat, r: nat :: q < |rows| && r < |rows| && Meets(rows, q, r) ==> rows[r].start < rows[r].end)
  {
    forall i: nat, j: nat | i < |rows| && j < |rows| && i != j
      ensures Crosses(rows[i], rows[j]) ==> Meets(rows, i, j) || Meets(rows, j, i)
      ensures Meets(rows, i, j) && rows[j].start < rows[j].end ==> Crosses(rows[i], rows[j]) && Crosses(rows[j], rows[i])
    {
      MeetingIsCrossing(rows, i, j);
    }
    if q: nat, r: nat :| q < |rows| && r < |rows| && Meets(rows, q, r) && rows[r].start >= rows[r].end {
      MeetingIsCrossing(rows, q, r);
      assert Flagged(rows, r) && !CrossesOther(rows, r);
    }
  }

  /** So turns of positive length are flagged exactly when they cross another. */
  lemma {:induction false} FlaggedIsCrossing(rows: seq<Row>, i: nat)
    requires i < |rows| && Indexed(rows) && forall j :: 0 <= j < |rows| ==> rows[j].start < rows[j].end
    ensures Flagged(rows, i) <==> CrossesOther(rows, i)
  {
    FlagsAreCrossings(rows);
  }

  /** Not so for an empty turn: inside another one it is flagged, though they share no stretch. */
  lemma {:induction false} EmptyTurnIsFlagged(a: Row, b: Row)
    requires a.index == 0 && b.index == 1 && a.start < b.start == b.end < a.end
    ensures Flagged([a, b], 1) && !Crosses(a, b)
  {
    assert Meets([a, b], 0, 1);
    CrossesIs(a, b);
  }

  // ---------------------------------------------------------------- the sweep

  /** In the sweep's order: distinct rows, ascending. */
  ghost predicate Ordered(order: seq<Row>) {
    && (forall q, r :: 0 <= q < r < |order| ==> Earlier(order[q], order[r]))
    && (forall q, r :: 0 <= q < r < |order| ==> order[q].index != order[r].index)
  }

  /** Among the first `p` rows, turn `i` is in a meeting pair. */
  ghost predicate MetWithin(order: seq<Row>, p: nat, i: nat)
    requires p <= |order|
  {
    exists r: nat :: r < p && MetAt(order, r, r, i)
  }

  /** Row `r` makes turn `i` meet: itself or one of the first `n` rows. */
  ghost predicate MetAt(order: seq<Row>, r: nat, n: nat, i: nat)
    requires n <= r < |order|
  {
    exists q: nat :: q < n && PairHits(order, q, r, i)
  }

  predicate PairHits(order: seq<Row>, q: nat, r: nat, i: nat)
    requires q < |order| && r < |order|
  {
    Reaches(order[q], order[r]) && (order[q].index == i || order[r].index == i)
  }

  /** `active` holds positions before `p`, and all of them that are still open at `before`. */
  ghost predicate Keeps(order: seq<Row>, p: nat, active: seq<nat>, before: real)
    requires p <= |order|
  {
    && (forall k :: 0 <= k < |active| ==> active[k] < p)
    && (forall q: nat :: q < p && order[q].end > before ==> q in active)
  }

  /** `[other for other in active if other.end > start]`: the positions dropped can never meet a later
      turn, since starts only grow. */
  method StillOpen(order: seq<Row>, p: nat, active: seq<nat>, ghost before: real, start: real) returns (open: seq<nat>)
    requires p <= |order| && Keeps(order, p, active, before) && before <= start
    ensures Keeps(order, p, open, start)
    ensures forall k :: 0 <= k < |open| ==> order[open[k]].end > start
  {
    open := [];
    for k := 0 to |active|
      invariant forall m :: 0 <= m < |open| ==> open[m] < p && order[open[m]].end > start
      invariant forall m :: 0 <= m < k && order[active[m]].end > start ==> active[m] in open
    {
      if order[active[k]].end > start { open := open + [active[k]]; }
    }
  }

  /** One of the first `n` positions of `open` makes row `p` meet, and turn `i` is one of the two. */
  ghost predicate HitBy(order: seq<Row>, open: seq<nat>, n: nat, p: nat, i: nat)
    requires n <= |open| && p < |order| && forall k :: 0 <= k < |open| ==> open[k] < p
  {
    exists k: nat :: k < n && PairHits(order, open[k], p, i)
  }

  lemma {:induction false} OpenIsAll(order: seq<Row>, open: seq<nat>, p: nat, i: nat)
    requires p < |order| && Keeps(order, p, open, order[p].start)
    ensures HitBy(order, open, |open|, p, i) <==> MetAt(order, p, p, i)
  {
    if MetAt(order, p, p, i) {
      var q: nat :| q < p && PairHits(order, q, p, i);
      var k :| 0 <= k < |open| && open[k] == q;
      assert PairHits(order, open[k], p, i);
    }
    if HitBy(order, open, |open|, p, i) {
      var k: nat :| k < |open| && PairHits(order, open[k], p, i);
    }
  }

  lemma {:induction false} MetWithinNext(order: seq<Row>, open: seq<nat>, p: nat, i: nat)
    requires p < |order| && Keeps(order, p, open, order[p].start)
    ensures MetWithin(order, p + 1, i) <==> MetWithin(order, p, i) || HitBy(order, open, |open|, p, i)
  {
    OpenIsAll(order, open, p, i);
    if MetWithin(order, p, i) {
      var r: nat :| r < p && MetAt(order, r, r, i);
    }
  }

  ghost predicate Sorts(order: seq<Row>, rows: seq<Row>) {
    && |order| == |rows| && (forall q :: 0 <= q < |order| ==> order[q] in rows) && (forall i :: 0 <= i < |rows| ==> rows[i] in order)
    && (forall q :: 0 <= q < |order| ==> 0 <= order[q].index < |rows| && rows[order[q].index] == order[q])
  }

  lemma {:induction false} EarlierFirst(order: seq<Row>, q: nat, r: nat)
    requires Ordered(order) && q < |order| && r < |order| && order[q] != order[r] && Earlier(order[q], order[r])
    ensures q < r
  {}

  lemma {:induction false} MeetsIsPair(order: seq<Row>, rows: seq<Row>, a: nat, b: nat)
    requires Ordered(order) && Sorts(order, rows) && a < |rows| && b < |rows| && Meets(rows, a, b)
    requires rows[a].index == a && rows[b].index == b
    ensures MetWithin(order, |order|, a) && MetWithin(order, |order|, b)
  {
    assert rows[a] in order && rows[b] in order;
    var q, r :| 0 <= q < |order| && 0 <= r < |order| && order[q] == rows[a] && order[r] == rows[b];
    EarlierFirst(order, q, r);
    assert PairHits(order, q, r, a) && PairHits(order, q, r, b);
    assert MetAt(order, r, r, a) && MetAt(order, r, r, b);
  }

  /** Meeting in the sweep's order is meeting in the list. */
  lemma {:induction false} MetIsFlagged(order: seq<Row>, rows: seq<Row>, i: nat)
    requires Ordered(order) && Sorts(order, rows) && i < |rows| && forall j :: 0 <= j < |rows| ==> rows[j].index == j
    ensures MetWithin(order, |order|, i) <==> Flagged(rows, i)
  {
    if MetWithin(order, |order|, i) {
      var r: nat :| r < |order| && MetAt(order, r, r, i);
      var q: nat :| q < r && PairHits(order, q, r, i);
      assert Meets(rows, order[q].index, order[r].index);
    }
    if Flagged(rows, i) {
      var j: nat :| j < |rows| && (Meets(rows, i, j) || Meets(rows, j, i));
      if Meets(rows, i, j) { MeetsIsPair(order, rows, i, j); } else { MeetsIsPair(order, rows, j, i); }
    }
  }

  lemma {:induction false} SortedRows(rows: seq<Row>) returns (order: seq<Row>)
    requires forall i :: 0 <= i < |rows| ==> rows[i].index == i
    ensures order == Sorting.Sort(Earlier, rows) && Ordered(order) && Sorts(order, rows)
  {
    order := Sorting.Sort(Earlier, rows);
    Sorting.SortKeeps(Earlier, rows);
    Sorting.SortSorts(Earlier, rows);
    Sorting.SortDistinct(Earlier, rows);
    forall q | 0 <= q < |order| ensures 0 <= order[q].index < |rows| && rows[order[q].index] == order[q] {
      assert order[q] in order;
      var i :| 0 <= i < |rows| && rows[i] == order[q];
    }
    forall q, r | 0 <= q < r < |order| ensures order[q].index != order[r].index {
      assert order[q] != order[r];
    }
  }

  ghost predicate Distinct(turns: seq<Turn>) { forall i, j :: 0 <= i < j < |turns| ==> turns[i] != turns[j] }

  /** The inner loop: row `p` against the open ones. */
  method MarkPairs(turns: seq<Turn>, order: seq<Row>, open: seq<nat>, p: nat)
    requires Distinct(turns) && p < |order| && (forall q :: 0 <= q < |order| ==> 0 <= order[q].index < |turns|)
    requires forall k :: 0 <= k < |open| ==> open[k] < p
    modifies turns
    ensures forall i :: 0 <= i < |turns| ==> turns[i].overlap == (old(turns[i].overlap) || HitBy(order, open, |open|, p, i))
  {
    for k := 0 to |open|
      invariant forall i :: 0 <= i < |turns| ==> turns[i].overlap == (old(turns[i].overlap) || HitBy(order, open, k, p, i))
    {
      label Before:
      if order[open[k]].end > order[p].start {
        turns[order[p].index].overlap := true;
        turns[order[open[k]].index].overlap := true;
      }
      forall i | 0 <= i < |turns|
        ensures HitBy(order, open, k + 1, p, i) <==> HitBy(order, open, k, p, i) || PairHits(order, open[k], p, i)
        ensures turns[i].overlap == (old@Before(turns[i].overlap) || PairHits(order, open[k], p, i))
      {
        HitByNext(order, open, k, p, i);
      }
    }
  }

  lemma {:induction false} HitByNext(order: seq<Row>, open: seq<nat>, k: nat, p: nat, i: nat)
    requires k < |open| && p < |order| && forall m :: 0 <= m < |open| ==> open[m] < p
    ensures HitBy(order, open, k + 1, p, i) <==> HitBy(order, open, k, p, i) || PairHits(order, open[k], p, i)
  {
    if HitBy(order, open, k, p, i) { var m: nat :| m < k && PairHits(order, open[m], p, i); }
  }

  lemma {:induction false} KeepsNext(order: seq<Row>, p: nat, open: seq<nat>, start: real)
    requires p < |order| && Keeps(order, p, open, start)
    ensures Keeps(order, p + 1, open + [p], start)
  {
    forall q: nat | q < p + 1 && order[q].end > start ensures q in open + [p] {
      if q < p { assert q in open; }
    }
  }

  lemma {:induction false} StartsGrow(order: seq<Row>, p: nat)
    requires Ordered(order) && p + 1 < |order|
    ensures order[p].start <= order[p + 1].start
  {
    assert Earlier(order[p], order[p + 1]);
  }

  /** The sweep over the sorted rows. */
  method Sweep(turns: seq<Turn>, order: seq<Row>)
    requires Distinct(turns) && Ordered(order) && forall q :: 0 <= q < |order| ==> 0 <= order[q].index < |turns|
    modifies turns
    ensures forall i :: 0 <= i < |turns| ==> turns[i].overlap == (old(turns[i].overlap) || MetWithin(order, |order|, i))
  {
    var active: seq<nat> := [];
    ghost var before := if |order| > 0 then order[0].start else 0.0;
    for p := 0 to |order|
      invariant Keeps(order, p, active, before)
      invariant p < |order| ==> before <= order[p].start
      invariant forall i :: 0 <= i < |turns| ==> turns[i].overlap == (old(turns[i].overlap) || MetWithin(order, p, i))
    {
      active := StillOpen(order, p, active, before, order[p].start);
      MarkPairs(turns, order, active, p);
      forall i | 0 <= i < |turns| ensures MetWithin(order, p + 1, i) <==> MetWithin(order, p, i) || HitBy(order, active, |active|, p, i) {
        MetWithinNext(order, active, p, i);
      }
      before := order[p].start;
      KeepsNext(order, p, active, before);
      active := active + [p];
      if p + 1 < |order| { StartsGrow(order, p); }
    }
  }

  /** `_mark_overlap`: flags, in place, exactly the turns that meet another one; flags already set stay. */
  method MarkOverlap(turns: seq<Turn>)
    requires Distinct(turns)
    modifies turns
    ensures forall i :: 0 <= i < |turns| ==> turns[i].overlap == (old(turns[i].overlap) || Flagged(RowsOf(turns), i))
  {
    var rows := RowsOf(turns);
    var order := Sorting.Sort(Earlier, rows);
    ghost var o := SortedRows(rows);
    Sweep(turns, order);
    forall i | 0 <= i < |turns| ensures MetWithin(order, |order|, i) <==> Flagged(rows, i) { MetIsFlagged(order, rows, i); }
  }
}
