/** Source-evidence search: the offset index over joined agenda lines, the exact span search built on
    it, and the bounded in-order token search. Lines and quotes arrive normalised. */
module Evidence {
  import opened Wrappers
  import Sorting

  /** A one-based, inclusive range of lines. */
  datatype Span = Span(start: nat, end: nat)

  // ---------------------------------------------------------------- joined lines

  /** `" ".join(lines)` */
  function Join(lines: seq<string>): string {
    if lines == [] then ""
    else if |lines| == 1 then lines[0]
    else lines[0] + " " + Join(lines[1..])
  }

  /** Where line `i` begins in the joined text. */
  function Offset(lines: seq<string>, i: nat): nat
    requires i <= |lines|
  {
    if i == 0 then 0 else Offset(lines, i - 1) + |lines[i - 1]| + 1
  }

  lemma {:induction false} OffsetTail(lines: seq<string>, i: nat)
    requires 0 < i <= |lines|
    ensures Offset(lines, i) == |lines[0]| + 1 + Offset(lines[1..], i - 1)
  {
    if i > 1 { OffsetTail(lines, i - 1); }
  }

  lemma {:induction false} OffsetMonotone(lines: seq<string>, i: nat, j: nat)
    requires i <= j <= |lines|
    ensures Offset(lines, i) + (j - i) <= Offset(lines, j)
    ensures i < j ==> Offset(lines, i) + |lines[i]| + 1 <= Offset(lines, j)
  {
    if i < j { OffsetMonotone(lines, i, j - 1); }
  }

  lemma {:induction false} JoinLength(lines: seq<string>)
    requires lines != []
    ensures |Join(lines)| + 1 == Offset(lines, |lines|)
  {
    if |lines| > 1 { JoinLength(lines[1..]); }
    OffsetTail(lines, |lines|);
  }

  lemma {:induction false} JoinPrefix(lines: seq<string>, e: nat)
    requires e < |lines|
    ensures Offset(lines, e) + |lines[e]| <= |Join(lines)|
    ensures Join(lines)[..Offset(lines, e) + |lines[e]|] == Join(lines[..e + 1])
    decreases |lines|
  {
    var tail := lines[1..];
    if e == 0 {
      assert lines[..1] == [lines[0]];
    } else {
      JoinPrefix(tail, e - 1);
      OffsetTail(lines, e);
      assert lines[..e + 1][1..] == tail[..e];
      assert Join(lines[..e + 1]) == lines[0] + " " + Join(tail[..e]);
    }
  }

  lemma {:induction false} SubSlice<T>(s: seq<T>, a: nat, b: nat, q: nat, n: nat)
    requires a <= b <= |s| && a + q + n <= b
    ensures s[a..b][q..q + n] == s[a + q..a + q + n]
  {
    var x, y := s[a..b][q..q + n], s[a + q..a + q + n];
    assert |x| == |y| && forall i :: 0 <= i < n ==> x[i] == y[i];
  }

  lemma {:induction false} SliceOfTail<T>(head: seq<T>, tail: seq<T>, a: nat, b: nat)
    requires a <= b <= |tail|
    ensures (head + tail)[|head| + a..|head| + b] == tail[a..b]
  {}

  /** The text of lines `s` to `e` (zero-based) is the joined text between their offsets. */
  lemma {:induction false} JoinSlice(lines: seq<string>, s: nat, e: nat)
    requires s <= e < |lines|
    ensures 0 <= Offset(lines, s) <= Offset(lines, e) + |lines[e]| <= |Join(lines)|
    ensures Join(lines)[Offset(lines, s)..Offset(lines, e) + |lines[e]|] == Join(lines[s..e + 1])
    decreases |lines|
  {
    if s == 0 {
      JoinPrefix(lines, e);
    } else {
      var tail := lines[1..];
      JoinSlice(tail, s - 1, e - 1);
      OffsetTail(lines, s);
      OffsetTail(lines, e);
      TailSlice(lines, s, e + 1);
      assert tail[e - 1] == lines[e];
      JoinOfTail(lines, Offset(tail, s - 1), Offset(tail, e - 1) + |lines[e]|);
    }
  }

  lemma {:induction false} JoinOfTail(lines: seq<string>, p: nat, q: nat)
    requires |lines| > 1 && p <= q <= |Join(lines[1..])|
    ensures var n := |lines[0]| + 1; n + q <= |Join(lines)| && Join(lines)[n + p..n + q] == Join(lines[1..])[p..q]
  {
    SliceOfTail(lines[0] + " ", Join(lines[1..]), p, q);
  }

  lemma {:induction false} TailSlice<T>(s: seq<T>, a: nat, b: nat)
    requires 1 <= a <= b <= |s|
    ensures s[a..b] == s[1..][a - 1..b - 1]
  {
    var x, y := s[a..b], s[1..][a - 1..b - 1];
    assert |x| == |y| && forall i :: 0 <= i < |x| ==> x[i] == y[i];
  }

  /** The separator after line `i` is a space. */
  lemma {:induction false} SeparatorAt(lines: seq<string>, i: nat)
    requires i + 1 < |lines|
    ensures Offset(lines, i) + |lines[i]| < |Join(lines)|
    ensures Join(lines)[Offset(lines, i) + |lines[i]|] == ' '
  {
    JoinSlice(lines, i, i + 1);
    JoinSlice(lines, i, i);
    assert lines[i..i + 2] == [lines[i], lines[i + 1]];
    assert [lines[i], lines[i + 1]][1..] == [lines[i + 1]];
    var w := Join(lines[i..i + 2]);
    assert w == lines[i] + " " + lines[i + 1];
    assert w[|lines[i]|] == ' ';
    assert Join(lines)[Offset(lines, i)..Offset(lines, i + 1) + |lines[i + 1]|][|lines[i]|] == Join(lines)[Offset(lines, i) + |lines[i]|];
  }

  method LineOffsets(lines: seq<string>) returns (offsets: seq<nat>)
    ensures |offsets| == |lines| && forall i :: 0 <= i < |lines| ==> offsets[i] == Offset(lines, i)
  {
    offsets := [];
    var cursor := 0;
    for index := 0 to |lines|
      invariant |offsets| == index && forall i :: 0 <= i < index ==> offsets[i] == Offset(lines, i)
      invariant index < |lines| ==> cursor == Offset(lines, index)
    {
      offsets := offsets + [cursor];
      cursor := cursor + |lines[index]|;
      if index + 1 < |lines| { cursor := cursor + 1; }
    }
  }

  /** Position `p` of the joined text lies in line `i` or on the separator after it. */
  ghost predicate InLine(lines: seq<string>, p: nat, i: nat) {
    i < |lines| && Offset(lines, i) <= p < Offset(lines, i + 1)
  }

  lemma {:induction false} InLineUnique(lines: seq<string>, p: nat, i: nat, j: nat)
    requires InLine(lines, p, i) && InLine(lines, p, j)
    ensures i == j
  {
    if i < j { OffsetMonotone(lines, i + 1, j); }
    if j < i { OffsetMonotone(lines, j + 1, i); }
  }

  method LineForOffset(lines: seq<string>, offsets: seq<nat>, p: nat) returns (result: nat)
    requires |offsets| == |lines| && forall i :: 0 <= i < |lines| ==> offsets[i] == Offset(lines, i)
    requires p < |Join(lines)|
    ensures InLine(lines, p, result)
  {
    JoinLength(lines);
    result := 0;
    for index := 0 to |offsets|
      invariant index > 0 ==> result == index - 1 && offsets[result] <= p
    {
      if offsets[index] > p { break; }
      result := index;
    }
  }

  ghost predicate OccursAt(text: string, needle: string, p: nat) {
    p + |needle| <= |text| && text[p..p + |needle|] == needle
  }

  ghost predicate Contains(text: string, needle: string) { exists p: nat :: OccursAt(text, needle, p) }

  /** `str.find(needle, from)` */
  method Find(text: string, needle: string, from: nat) returns (r: Option<nat>)
    ensures r.Some? ==> r.value >= from && OccursAt(text, needle, r.value) && forall p :: from <= p < r.value ==> !OccursAt(text, needle, p)
    ensures r.None? ==> forall p :: from <= p ==> !OccursAt(text, needle, p)
  {
    var p := from;
    while p + |needle| <= |text|
      invariant from <= p
      invariant forall q :: from <= q < p ==> !OccursAt(text, needle, q)
    {
      if text[p..p + |needle|] == needle { return Some(p); }
      p := p + 1;
    }
    return None;
  }

  /** Normalised text is trimmed. */
  ghost predicate Trimmed(needle: string) {
    needle != "" ==> needle[0] != ' ' && needle[|needle| - 1] != ' '
  }

  function Window(lines: seq<string>, w: Span): string
    requires 1 <= w.start <= w.end <= |lines|
  { Join(lines[w.start - 1..w.end]) }

  /** A brute-force search's verdict on one window. */
  ghost predicate Holds(lines: seq<string>, needle: string, w: Span) {
    1 <= w.start <= w.end <= |lines| && Contains(Window(lines, w), needle)
  }

  /** The span the index reports for an occurrence at `p`. */
  ghost predicate Reports(lines: seq<string>, needle: string, p: nat, w: Span) {
    && needle != "" && OccursAt(Join(lines), needle, p)
    && w.start > 0 && w.end > 0
    && InLine(lines, p, w.start - 1) && InLine(lines, p + |needle| - 1, w.end - 1)
  }

  /** Some occurrence before position `n` reports `w`. */
  ghost predicate ReportedBefore(lines: seq<string>, needle: string, w: Span, n: nat) {
    exists p: nat :: p < n && Reports(lines, needle, p, w)
  }

  lemma {:induction false} ReportedNext(lines: seq<string>, needle: string, spans: seq<Span>, n: nat, p: nat, span: Span)
    requires forall w :: w in spans <==> ReportedBefore(lines, needle, w, n)
    requires n <= p && Reports(lines, needle, p, span)
    requires forall q :: n <= q < p ==> !OccursAt(Join(lines), needle, q)
    ensures forall w :: w in spans + [span] <==> ReportedBefore(lines, needle, w, p + 1)
  {
    forall w ensures w in spans + [span] <==> ReportedBefore(lines, needle, w, p + 1) {
      if Reports(lines, needle, p, w) {
        InLineUnique(lines, p, w.start - 1, span.start - 1);
        InLineUnique(lines, p + |needle| - 1, w.end - 1, span.end - 1);
      }
      if w == span { assert ReportedBefore(lines, needle, w, p + 1); }
    }
  }

  method SpanAt(lines: seq<string>, offsets: seq<nat>, needle: string, p: nat) returns (span: Span)
    requires |offsets| == |lines| && forall i :: 0 <= i < |lines| ==> offsets[i] == Offset(lines, i)
    requires needle != "" && OccursAt(Join(lines), needle, p)
    ensures Reports(lines, needle, p, span)
  {
    var startLine := LineForOffset(lines, offsets, p);
    var endLine := LineForOffset(lines, offsets, p + |needle| - 1);
    return Span(startLine + 1, endLine + 1);
  }

  method ExactSpans(lines: seq<string>, needle: string) returns (spans: seq<Span>)
    ensures needle == "" ==> spans == []
    ensures forall w :: w in spans <==> exists p :: Reports(lines, needle, p, w)
  {
    var offsets := LineOffsets(lines);
    var source := Join(lines);
    if needle == "" { return []; }
    spans := [];
    var position := Find(source, needle, 0);
    var scanned: nat := 0;
    while position.Some?
      invariant position.Some? ==> position.value >= scanned && OccursAt(source, needle, position.value)
      invariant position.Some? ==> forall p :: scanned <= p < position.value ==> !OccursAt(source, needle, p)
      invariant position.None? ==> forall p :: scanned <= p ==> !OccursAt(source, needle, p)
      invariant forall w :: w in spans <==> ReportedBefore(lines, needle, w, scanned)
      decreases |source| - scanned
    {
      var p := position.value;
      var span := SpanAt(lines, offsets, needle, p);
      ReportedNext(lines, needle, spans, scanned, p, span);
      spans := spans + [span];
      scanned := p + 1;
      position := Find(source, needle, p + 1);
    }
  }

  /** An occurrence that starts off a space lies inside its lines, not on a separator. */
  lemma {:induction false} InsideLine(lines: seq<string>, p: nat, i: nat)
    requires p < |Join(lines)| && Join(lines)[p] != ' ' && InLine(lines, p, i)
    ensures p < Offset(lines, i) + |lines[i]|
  {
    if p == Offset(lines, i) + |lines[i]| {
      if i + 1 < |lines| { SeparatorAt(lines, i); } else { JoinLength(lines); }
    }
  }

  /** Soundness: every reported span is a window of lines whose text contains the quote. */
  lemma {:induction false} SpanHolds(lines: seq<string>, needle: string, p: nat, w: Span)
    requires Trimmed(needle) && Reports(lines, needle, p, w)
    ensures Holds(lines, needle, w)
  {
    var s, e := w.start - 1, w.end - 1;
    var last := p + |needle| - 1;
    assert Join(lines)[last] == needle[|needle| - 1] by { assert Join(lines)[p..p + |needle|][|needle| - 1] == Join(lines)[last]; }
    InsideLine(lines, last, e);
    if e < s { OffsetMonotone(lines, e + 1, s); }
    SliceOccurs(lines, needle, p, s, e);
  }

  lemma {:induction false} OccursInSlice(text: string, needle: string, p: nat, lo: nat, hi: nat)
    requires OccursAt(text, needle, p) && lo <= p && p + |needle| <= hi <= |text|
    ensures OccursAt(text[lo..hi], needle, p - lo)
  {
    SubSlice(text, lo, hi, p - lo, |needle|);
  }

  lemma {:induction false} SliceOccurs(lines: seq<string>, needle: string, p: nat, s: nat, e: nat)
    requires s <= e < |lines| && OccursAt(Join(lines), needle, p)
    requires Offset(lines, s) <= p && p + |needle| <= Offset(lines, e) + |lines[e]|
    ensures Contains(Join(lines[s..e + 1]), needle)
  {
    JoinSlice(lines, s, e);
    OccursInSlice(Join(lines), needle, p, Offset(lines, s), Offset(lines, e) + |lines[e]|);
  }

  lemma {:induction false} SliceOccursBack(lines: seq<string>, needle: string, s: nat, e: nat) returns (p: nat)
    requires s <= e < |lines| && Contains(Join(lines[s..e + 1]), needle)
    ensures OccursAt(Join(lines), needle, p)
    ensures Offset(lines, s) <= p && p + |needle| <= Offset(lines, e) + |lines[e]|
  {
    JoinSlice(lines, s, e);
    var q: nat :| OccursAt(Join(lines[s..e + 1]), needle, q);
    p := Offset(lines, s) + q;
    SubSlice(Join(lines), Offset(lines, s), Offset(lines, e) + |lines[e]|, q, |needle|);
  }

  lemma {:induction false} LineOf(lines: seq<string>, p: nat, n: nat) returns (i: nat)
    requires n <= |lines| && p < Offset(lines, n)
    ensures InLine(lines, p, i) && i < n
  {
    if n > 0 && Offset(lines, n - 1) <= p { i := n - 1; } else { i := LineOf(lines, p, n - 1); }
  }

  /** Completeness: every window containing the quote has a reported span inside it. */
  lemma {:induction false} WindowHasSpan(lines: seq<string>, needle: string, w: Span) returns (p: nat, inner: Span)
    requires needle != "" && Holds(lines, needle, w)
    ensures Reports(lines, needle, p, inner) && w.start <= inner.start <= inner.end <= w.end
  {
    var s, e := w.start - 1, w.end - 1;
    p := SliceOccursBack(lines, needle, s, e);
    JoinLength(lines);
    var i := LineOf(lines, p, |lines|);
    var j := LineOf(lines, p + |needle| - 1, |lines|);
    inner := Span(i + 1, j + 1);
    if i < s { OffsetMonotone(lines, i + 1, s); }
    if e < j { OffsetMonotone(lines, e + 1, j); }
    if j < i { OffsetMonotone(lines, j + 1, i); }
  }

  function Width(w: Span): int { w.end - w.start }

  predicate SpanLe(a: Span, b: Span) { a.start < b.start || (a.start == b.start && a.end <= b.end) }

  /** By first line, and then by last: the order of the pairs. */
  ghost predicate SpanLt(a: Span, b: Span) { a.start < b.start || (a.start == b.start && a.end < b.end) }

  /** `sorted({...})` of the spans of least width. */
  method TightestSpans(spans: seq<Span>) returns (r: seq<Span>)
    ensures spans == [] ==> r == []
    ensures forall w :: w in r <==> w in spans && forall v :: v in spans ==> Width(w) <= Width(v)
    ensures forall i, j :: 0 <= i < j < |r| ==> SpanLt(r[i], r[j])
  {
    if spans == [] { return []; }
    var width := Width(spans[0]);
    for i := 1 to |spans|
      invariant forall k :: 0 <= k < i ==> width <= Width(spans[k])
      invariant exists k :: 0 <= k < i && width == Width(spans[k])
    {
      if Width(spans[i]) < width { width := Width(spans[i]); }
    }
    var kept: seq<Span> := [];
    for i := 0 to |spans|
      invariant forall w :: w in kept <==> Width(w) == width && w in spans[..i]
      invariant forall j, k :: 0 <= j < k < |kept| ==> kept[j] != kept[k]
    {
      if Width(spans[i]) == width && spans[i] !in kept { kept := kept + [spans[i]]; }
    }
    assert spans[..|spans|] == spans;
    r := SortedSpans(kept);
  }

  method SortedSpans(spans: seq<Span>) returns (r: seq<Span>)
    requires forall i, j :: 0 <= i < j < |spans| ==> spans[i] != spans[j]
    ensures forall w :: w in r <==> w in spans
    ensures forall i, j :: 0 <= i < j < |r| ==> SpanLt(r[i], r[j])
  {
    r := Sorting.Sort(SpanLe, spans);
    Sorting.SortKeeps(SpanLe, spans);
    Sorting.SortSorts(SpanLe, spans);
    Sorting.SortDistinct(SpanLe, spans);
  }

  /** Exactly the windows of least width that a search over all windows of lines would find. */
  ghost predicate Minimal(lines: seq<string>, needle: string, w: Span) {
    Holds(lines, needle, w) && forall v :: Holds(lines, needle, v) ==> w.end - w.start <= v.end - v.start
  }

  /** Index search and brute force agree on the tightest spans. */
  lemma {:induction false} IndexAgreesWithBruteForce(lines: seq<string>, needle: string, spans: seq<Span>, w: Span)
    requires needle != "" && Trimmed(needle)
    requires forall v :: v in spans <==> exists p :: Reports(lines, needle, p, v)
    ensures (w in spans && forall v :: v in spans ==> Width(w) <= Width(v)) <==> Minimal(lines, needle, w)
  {
    if w in spans && forall v :: v in spans ==> Width(w) <= Width(v) {
      var p :| Reports(lines, needle, p, w);
      SpanHolds(lines, needle, p, w);
      forall v | Holds(lines, needle, v) ensures Width(w) <= Width(v) {
        var q, inner := WindowHasSpan(lines, needle, v);
        assert inner in spans;
      }
    }
    if Minimal(lines, needle, w) {
      var p, inner := WindowHasSpan(lines, needle, w);
      SpanHolds(lines, needle, p, inner);
      assert inner == w && w in spans;
      forall v | v in spans ensures Width(w) <= Width(v) {
        var q :| Reports(lines, needle, q, v);
        SpanHolds(lines, needle, q, v);
      }
    }
  }

  /** `_recovery_tightest_spans(_recovery_exact_spans(lines, quote))` */
  method TightestExactSpans(lines: seq<string>, needle: string) returns (r: seq<Span>)
    requires Trimmed(needle)
    ensures needle == "" ==> r == []
    ensures needle != "" ==> forall w :: w in r <==> Minimal(lines, needle, w)
    ensures forall i, j :: 0 <= i < j < |r| ==> SpanLt(r[i], r[j])
  {
    var spans := ExactSpans(lines, needle);
    r := TightestSpans(spans);
    if needle != "" {
      forall w ensures w in r <==> Minimal(lines, needle, w) {
        IndexAgreesWithBruteForce(lines, needle, spans, w);
      }
    }
  }
}
