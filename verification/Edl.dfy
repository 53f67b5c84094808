/** What is done with edit decision lists: the clip cutter, the concat builder and the structural
    validator. */
module Edl {
  import opened Chapters
  import opened Text
  import opened TimeMaps
  import opened Wrappers

  // ---------------------------------------------------------------- the cutter

  /** What remains of `s` between `a` and `b`, moved to served position `cur`. */
  function Trim(s: Segment, a: real, b: real, cur: real): Segment {
    var lo, hi := Later(a, s.start), Sooner(b, s.end);
    match s
    case Source(start, _, id, sourceStart, _) =>
      Source(cur, cur + (hi - lo), id, lo + (sourceStart - start), hi + (sourceStart - start))
    case Insert(_, _, insert, assetId, assetVersion) =>
      Insert(cur, cur + (hi - lo), insert, assetId, assetVersion)
  }

  predicate Overlaps(s: Segment, a: real, b: real) { Later(a, s.start) < Sooner(b, s.end) }

  /** The specification of `_clip_timeline`: the trimmed segments, laid end to end from `cur`. */
  function Clip(segs: seq<Segment>, a: real, b: real, cur: real): seq<Segment> {
    if segs == [] then []
    else if !Overlaps(segs[0], a, b) then Clip(segs[1..], a, b, cur)
    else
      var s := Trim(segs[0], a, b, cur);
      [s] + Clip(segs[1..], a, b, s.end)
  }

  function CutOf(s: Segment): seq<Cut> {
    if s.Source? then [Cut(s.sourceId, s.sourceStart, s.sourceEnd)] else []
  }

  /** The source cuts of a clip: its source segments, without their served times. */
  function CutsOf(segs: seq<Segment>): seq<Cut> {
    if segs == [] then [] else CutsOf(segs[..|segs| - 1]) + CutOf(segs[|segs| - 1])
  }

  lemma {:induction false} ClipUnroll(segs: seq<Segment>, i: nat, a: real, b: real, cur: real, done: seq<Segment>)
    requires i < |segs|
    ensures done + Clip(segs[i..], a, b, cur) ==
            if Overlaps(segs[i], a, b) then
              (done + [Trim(segs[i], a, b, cur)]) + Clip(segs[i + 1..], a, b, Trim(segs[i], a, b, cur).end)
            else done + Clip(segs[i + 1..], a, b, cur)
  {
    assert segs[i..][1..] == segs[i + 1..];
  }

  lemma {:induction false} CutsOfSnoc(segs: seq<Segment>, s: Segment)
    ensures CutsOf(segs + [s]) == CutsOf(segs) + CutOf(s)
  {
    assert (segs + [s])[..|segs|] == segs;
  }

  /** The part of a segment between `lo` and `hi`, laid at `cur`, and its source cut. */
  method Place(s: Segment, lo: real, hi: real, cur: real) returns (piece: Segment, cut: seq<Cut>)
    ensures forall a, b :: lo == Later(a, s.start) && hi == Sooner(b, s.end) ==> piece == Trim(s, a, b, cur)
    ensures piece.end == cur + (hi - lo) && cut == CutOf(piece)
  {
    var span := hi - lo;
    if s.Source? {
      var offset := s.sourceStart - s.start;
      piece := Source(cur, cur + span, s.sourceId, lo + offset, hi + offset);
      cut := [Cut(s.sourceId, lo + offset, hi + offset)];
    } else {
      piece, cut := Insert(cur, cur + span, s.insert, s.assetId, s.assetVersion), [];
    }
  }

  method ClipTimeline(tl: Timeline, a: real, b: real) returns (clip: Timeline, cuts: seq<Cut>)
    ensures clip == Timeline(tl.version, Clip(tl.segments, a, b, 0.0))
    ensures cuts == CutsOf(clip.segments)
  {
    var segs := tl.segments;
    var newSegs: seq<Segment> := [];
    cuts := [];
    var cur := 0.0;
    for i := 0 to |segs|
      invariant newSegs + Clip(segs[i..], a, b, cur) == Clip(segs, a, b, 0.0)
      invariant cuts == CutsOf(newSegs)
    {
      ClipUnroll(segs, i, a, b, cur, newSegs);
      var s := segs[i];
      var lo, hi := Later(a, s.start), Sooner(b, s.end);
      if lo < hi {
        var piece, cut := Place(s, lo, hi, cur);
        CutsOfSnoc(newSegs, piece);
        newSegs, cuts := newSegs + [piece], cuts + cut;
        cur := cur + (hi - lo);
      }
    }
    assert segs[|segs|..] == [] && segs[0..] == segs;
    clip := Timeline(tl.version, newSegs);
  }

  /** A clip of a regular timeline is regular and exactly as long as the requested range. */
  lemma {:induction false} ClipContiguous(segs: seq<Segment>, at: real, a: real, b: real, cur: real)
    requires ContiguousFrom(segs, at) && (forall k :: 0 <= k < |segs| ==> UnitSpeed(segs[k]))
    requires a < b
    ensures ContiguousFrom(Clip(segs, a, b, cur), cur)
    ensures forall k :: 0 <= k < |Clip(segs, a, b, cur)| ==> UnitSpeed(Clip(segs, a, b, cur)[k])
    ensures EndOf(Clip(segs, a, b, cur), cur) == cur + Later(0.0, Sooner(b, EndOf(segs, at)) - Later(a, at))
  {
    if segs != [] {
      var rest := segs[1..];
      if |segs| > 1 { ContiguousAt(rest, segs[0].end, |rest| - 1); }
      var cur' := if Overlaps(segs[0], a, b) then Trim(segs[0], a, b, cur).end else cur;
      ClipContiguous(rest, segs[0].end, a, b, cur');
    }
  }

  lemma {:induction false} ClipRegular(segs: seq<Segment>, a: real, b: real)
    requires Regular(segs) && 0.0 <= a < b <= EndOf(segs, 0.0)
    ensures Regular(Clip(segs, a, b, 0.0))
    ensures EndOf(Clip(segs, a, b, 0.0), 0.0) == b - a
  {
    ClipContiguous(segs, 0.0, a, b, 0.0);
  }

  /** Nothing to the right of `b` or to the left of `a` is cut in. */
  lemma {:induction false} ClipPast(segs: seq<Segment>, at: real, a: real, b: real, cur: real)
    requires ContiguousFrom(segs, at) && b <= at
    ensures Clip(segs, a, b, cur) == []
  {
    if segs != [] { ClipPast(segs[1..], segs[0].end, a, b, cur); }
  }

  /** Clipping `[c, d]` out of the clip of `[a, b]`, by induction on the timeline. `cur` and `out`
      are the positions the two cutters have reached. */
  lemma {:induction false} ClipCompose(segs: seq<Segment>, at: real, a: real, b: real, c: real, d: real, cur: real, out: real)
    requires ContiguousFrom(segs, at)
    requires a < b && 0.0 <= c < d <= b - a
    requires cur == Later(0.0, Sooner(b, at) - a)
    ensures Clip(Clip(segs, a, b, cur), c, d, out) == Clip(segs, a + c, a + d, out)
  {
    if segs != [] {
      var s, rest := segs[0], segs[1..];
      if Overlaps(s, a, b) {
        var p := Trim(s, a, b, cur);
        assert Clip(segs, a, b, cur)[1..] == Clip(rest, a, b, p.end);
        assert Overlaps(p, c, d) <==> Overlaps(s, a + c, a + d);
        if Overlaps(p, c, d) {
          TrimCompose(s, a, b, c, d, cur, out);
          ClipCompose(rest, s.end, a, b, c, d, p.end, Trim(p, c, d, out).end);
        } else {
          ClipCompose(rest, s.end, a, b, c, d, p.end, out);
        }
      } else {
        assert !Overlaps(s, a + c, a + d);
        ClipCompose(rest, s.end, a, b, c, d, cur, out);
      }
    }
  }

  lemma {:induction false} TrimCompose(s: Segment, a: real, b: real, c: real, d: real, cur: real, out: real)
    requires s.start < s.end && Overlaps(s, a, b)
    requires a < b && 0.0 <= c < d <= b - a
    requires cur == Later(0.0, Sooner(b, s.start) - a)
    requires Overlaps(s, a + c, a + d)
    ensures Trim(Trim(s, a, b, cur), c, d, out) == Trim(s, a + c, a + d, out)
  {
    var p := Trim(s, a, b, cur);
    assert p.start == Later(a, s.start) - a && p.end == Sooner(b, s.end) - a;
    assert Later(c, p.start) == Later(a + c, s.start) - a;
    assert Sooner(d, p.end) == Sooner(a + d, s.end) - a;
  }

  /** Composition: a clip of a clip is one clip, segment for segment and cut for cut. */
  lemma {:induction false} ClipOfClip(segs: seq<Segment>, a: real, b: real, c: real, d: real)
    requires Regular(segs) && 0.0 <= a < b <= EndOf(segs, 0.0) && 0.0 <= c < d <= b - a
    ensures Clip(Clip(segs, a, b, 0.0), c, d, 0.0) == Clip(segs, a + c, a + d, 0.0)
    ensures CutsOf(Clip(Clip(segs, a, b, 0.0), c, d, 0.0)) == CutsOf(Clip(segs, a + c, a + d, 0.0))
  {
    ClipCompose(segs, 0.0, a, b, c, d, 0.0, 0.0);
  }

  /** `served_to_source` on half-open segments only: the reading away from the last instant. */
  lemma {:induction false} ClipMeaningFrom(segs: seq<Segment>, at: real, a: real, b: real, cur: real, t: real)
    requires ContiguousFrom(segs, at) && a < b && a <= t < b && at <= t < EndOf(segs, at)
    requires cur == Later(0.0, at - a)
    ensures MapServed(Clip(segs, a, b, cur), t - a) == MapServed(segs, t)
  {
    var s, rest := segs[0], segs[1..];
    if Overlaps(s, a, b) {
      var p := Trim(s, a, b, cur);
      var clip := Clip(segs, a, b, cur);
      assert p.start == Later(a, s.start) - a && p.end == Sooner(b, s.end) - a;
      assert clip[1..] == Clip(rest, a, b, p.end);
      if t < s.end {
        assert InSpan(segs, 0, t) && InSpan(clip, 0, t - a);
      } else {
        assert !InSpan(segs, 0, t);
        assert |rest| > 0;
        ClipMeaningFrom(rest, s.end, a, b, p.end, t);
        assert Overlaps(rest[0], a, b) by { assert rest[0].start == s.end; }
        assert |clip| > 1;
        assert !InSpan(clip, 0, t - a);
      }
    } else {
      assert s.end <= a;
      assert !InSpan(segs, 0, t);
      ClipMeaningFrom(rest, s.end, a, b, cur, t);
    }
  }

  /** Meaning: at every served instant of the range but its last, the clip plays exactly the source
      second the original plays there. */
  lemma {:induction false} ClipMeaning(segs: seq<Segment>, a: real, b: real, t: real)
    requires Regular(segs) && 0.0 <= a < b <= EndOf(segs, 0.0) && a <= t < b
    ensures MapServed(Clip(segs, a, b, 0.0), t - a) == MapServed(segs, t)
  {
    ClipMeaningFrom(segs, 0.0, a, b, 0.0, t);
  }

  /** What a segment plays at instant `t` of its span, its right end included. */
  function Plays(s: Segment, t: real): Option<(string, real)> {
    if s.Insert? then None else Some((s.sourceId, s.sourceStart + (t - s.start)))
  }

  lemma {:induction false} ClipLastFrom(segs: seq<Segment>, at: real, a: real, b: real, cur: real, i: nat)
    requires ContiguousFrom(segs, at) && a < b && i < |segs| && segs[i].start < b <= segs[i].end && a < segs[i].end
    requires cur == Later(0.0, at - a)
    ensures MapServed(Clip(segs, a, b, cur), b - a) == Plays(segs[i], b)
  {
    var s, rest := segs[0], segs[1..];
    ContiguousAt(segs, at, i);
    if i == 0 {
      var p := Trim(s, a, b, cur);
      ClipPast(rest, s.end, a, b, p.end);
      assert Clip(segs, a, b, cur) == [p];
      assert InSpan([p], 0, b - a);
    } else {
      ContiguousOrdered(segs, at, 0, i);
      if Overlaps(s, a, b) {
        var p := Trim(s, a, b, cur);
        ClipLastFrom(rest, s.end, a, b, p.end, i - 1);
        ClipNonEmpty(rest, s.end, a, b, p.end, i - 1);
        assert Clip(segs, a, b, cur)[1..] == Clip(rest, a, b, p.end);
        assert !InSpan(Clip(segs, a, b, cur), 0, b - a);
      } else {
        ClipLastFrom(rest, s.end, a, b, cur, i - 1);
      }
    }
  }

  lemma {:induction false} ClipNonEmpty(segs: seq<Segment>, at: real, a: real, b: real, cur: real, i: nat)
    requires ContiguousFrom(segs, at) && i < |segs| && Overlaps(segs[i], a, b)
    ensures Clip(segs, a, b, cur) != []
  {
    if i > 0 && !Overlaps(segs[0], a, b) { ClipNonEmpty(segs[1..], segs[0].end, a, b, cur, i - 1); }
  }

  /** `t` continues seamlessly what `s` plays. */
  ghost predicate Joined(s: Segment, t: Segment) {
    (s.Insert? && t.Insert?) || (s.Source? && t.Source? && s.sourceId == t.sourceId && s.sourceEnd == t.sourceStart)
  }

  /** At the last instant of the range the clip plays on with the segment it closes, while the
      original hands an inner boundary to the segment that begins there. So the meaning is kept
      there exactly when the range ends inside a segment, at the end of the timeline, or at a
      boundary between two segments that join. */
  lemma {:induction false} ClipMeaningAtEnd(segs: seq<Segment>, a: real, b: real, i: nat)
    requires Regular(segs) && 0.0 <= a < b <= EndOf(segs, 0.0)
    requires i < |segs| && segs[i].start < b <= segs[i].end
    ensures MapServed(Clip(segs, a, b, 0.0), b - a) == MapServed(segs, b) <==>
            b < segs[i].end || i == |segs| - 1 || Joined(segs[i], segs[i + 1])
  {
    ClipLastFrom(segs, 0.0, a, b, 0.0, i);
    assert UnitSpeed(segs[i]);
    if b < segs[i].end || i == |segs| - 1 {
      MapServedAt(segs, 0.0, i, b);
    } else {
      ContiguousAt(segs, 0.0, i + 1);
      MapServedAt(segs, 0.0, i + 1, b);
    }
  }

  /** Where two sources meet it does not: cutting out the first plays its end, where the original plays
      the start of the second. */
  lemma {:induction false} ClipChangesLastInstant(p: string, q: string)
    requires p != q
    ensures var segs := [Source(0.0, 5.0, p, 0.0, 5.0), Source(5.0, 10.0, q, 0.0, 5.0)];
            Regular(segs) && MapServed(Clip(segs, 0.0, 5.0, 0.0), 5.0) != MapServed(segs, 5.0)
  {
    var first, second := Source(0.0, 5.0, p, 0.0, 5.0), Source(5.0, 10.0, q, 0.0, 5.0);
    var segs := [first, second];
    assert segs[1..] == [second] && ContiguousFrom([second], 5.0);
    ClipMeaningAtEnd(segs, 0.0, 5.0, 0);
  }

  /** The whole-source shortcut agrees with cutting the identity timeline. */
  function IdentityClip(sourceId: string, a: real, b: real): (Timeline, seq<Cut>) {
    (Timeline("identity", [Source(0.0, b - a, sourceId, a, b)]), [Cut(sourceId, a, b)])
  }

  lemma {:induction false} IdentityClipAgrees(sourceId: string, duration: real, a: real, b: real)
    requires 0.0 <= a < b <= duration
    ensures var tl := [Source(0.0, duration, sourceId, 0.0, duration)];
            && IdentityClip(sourceId, a, b).0.segments == Clip(tl, a, b, 0.0)
            && IdentityClip(sourceId, a, b).1 == CutsOf(Clip(tl, a, b, 0.0))
  {
    var s := Source(0.0, duration, sourceId, 0.0, duration);
    assert [s][1..] == [];
    var p := Trim(s, a, b, 0.0);
    assert Clip([s], a, b, 0.0) == [p];
    assert [p][1..] == [];
  }

  // ---------------------------------------------------------------- the concat builder

  datatype SegmentObject = SegmentObject(url: string, title: string)

  /** Where segment `i` begins: the sum of the durations before it. */
  function Offset(ds: seq<real>, i: nat): real
    requires i <= |ds|
  {
    if i == 0 then 0.0 else Offset(ds, i - 1) + ds[i - 1]
  }

  function Sum(ds: seq<real>): real { Offset(ds, |ds|) }

  /** The fields of an episode the planner and the validator touch. */
  class Episode {
    var sources: seq<SourceMedia>
    var chapters: seq<Chapter>
    var sourceChapters: seq<Chapter>
    var chaptersServed: bool
    var timeline: Option<seq<Segment>>
    var servedDuration: Option<real>

    constructor ()
      ensures sources == [] && chapters == [] && !chaptersServed && timeline == None && servedDuration == None && sourceChapters == []
    {
      sources, chapters, sourceChapters, chaptersServed, timeline, servedDuration := [], [], [], false, None, None;
    }
  }

  /** Segment `i` of a concat timeline plays the whole of source `i`, right after its predecessors. */
  function ConcatPiece(id: string, ds: seq<real>, i: nat): Segment
    requires i < |ds|
  {
    Source(Offset(ds, i), Offset(ds, i) + ds[i], id, 0.0, ds[i])
  }

  ghost predicate ConcatPrefix(segs: seq<Segment>, sources: seq<SourceMedia>, ds: seq<real>) {
    && |segs| <= |sources| == |ds|
    && (forall i :: 0 <= i < |segs| ==> sources[i].duration == Some(ds[i]))
    && (forall i :: 0 <= i < |segs| ==> segs[i] == ConcatPiece(sources[i].id, ds, i))
  }

  ghost predicate IsConcat(segs: seq<Segment>, sources: seq<SourceMedia>, ds: seq<real>) {
    |segs| == |ds| && ConcatPrefix(segs, sources, ds)
  }

  /** The chapters of the first `n` objects: one per titled object, covering exactly its segment. */
  function ConcatChapters(objs: seq<SegmentObject>, ds: seq<real>, n: nat): seq<Chapter>
    requires n <= |objs| == |ds|
  {
    if n == 0 then []
    else
      ConcatChapters(objs, ds, n - 1) +
      if objs[n - 1].title == "" then [] else [Chapter(Offset(ds, n - 1), Some(Offset(ds, n)), objs[n - 1].title)]
  }

  method BuildSources(objs: seq<SegmentObject>, ds: seq<real>) returns (sources: seq<SourceMedia>)
    requires |objs| == |ds|
    ensures |sources| == |objs|
    ensures forall k :: 0 <= k < |objs| ==> sources[k] == SourceMedia("s" + Decimal(k), objs[k].url, Some(ds[k]))
  {
    sources := [];
    for i := 0 to |objs|
      invariant |sources| == i
      invariant forall k :: 0 <= k < i ==> sources[k] == SourceMedia("s" + Decimal(k), objs[k].url, Some(ds[k]))
    {
      sources := sources + [SourceMedia("s" + Decimal(i), objs[i].url, Some(ds[i]))];
    }
  }

  method PlannedSources(objs: seq<SegmentObject>, ds: seq<real>) returns (sources: seq<SourceMedia>)
    requires |objs| == |ds|
    ensures |sources| == |ds| && forall k :: 0 <= k < |ds| ==> sources[k].duration == Some(ds[k])
    ensures forall i, j :: 0 <= i < j < |ds| ==> sources[i].id != sources[j].id
  {
    sources := BuildSources(objs, ds);
    SourceIdsDistinct(sources);
  }

  method BuildChapters(objs: seq<SegmentObject>, ds: seq<real>) returns (chapters: seq<Chapter>)
    requires |objs| == |ds|
    ensures chapters == ConcatChapters(objs, ds, |objs|)
  {
    chapters := [];
    var offset := 0.0;
    for i := 0 to |objs|
      invariant offset == Offset(ds, i)
      invariant chapters == ConcatChapters(objs, ds, i)
    {
      if objs[i].title != "" {
        chapters := chapters + [Chapter(offset, Some(offset + ds[i]), objs[i].title)];
      }
      offset := offset + ds[i];
    }
  }

  method BuildSegments(sources: seq<SourceMedia>, ds: seq<real>) returns (segs: seq<Segment>)
    requires |sources| == |ds| && forall k :: 0 <= k < |ds| ==> sources[k].duration == Some(ds[k])
    ensures IsConcat(segs, sources, ds)
  {
    segs := [];
    var offset := 0.0;
    for i := 0 to |sources|
      invariant |segs| == i && offset == Offset(ds, i)
      invariant ConcatPrefix(segs, sources, ds)
    {
      segs := segs + [Source(offset, offset + ds[i], sources[i].id, 0.0, ds[i])];
      offset := offset + ds[i];
    }
  }

  /** The planner's loops, given the probed durations. */
  method Plan(ep: Episode, objs: seq<SegmentObject>, ds: seq<real>) returns (segs: seq<Segment>)
    requires |objs| == |ds|
    modifies ep`sources, ep`chapters, ep`sourceChapters, ep`chaptersServed
    ensures ep.sourceChapters == []
    ensures IsConcat(segs, ep.sources, ds)
    ensures forall i, j :: 0 <= i < j < |ds| ==> ep.sources[i].id != ep.sources[j].id
    ensures var chapters := ConcatChapters(objs, ds, |objs|);
            if chapters == [] then ep.chapters == old(ep.chapters) && ep.chaptersServed == old(ep.chaptersServed)
            else ep.chapters == chapters && ep.chaptersServed
  {
    var sources := PlannedSources(objs, ds);
    ep.sources := sources;
    ep.sourceChapters := [];
    var chapters := BuildChapters(objs, ds);
    if chapters != [] {
      ep.chapters := chapters;
      ep.chaptersServed := true;
    }
    segs := BuildSegments(sources, ds);
  }

  lemma {:induction false} SourceIdsDistinct(sources: seq<SourceMedia>)
    requires forall k :: 0 <= k < |sources| ==> sources[k].id == "s" + Decimal(k)
    ensures forall i, j :: 0 <= i < j < |sources| ==> sources[i].id != sources[j].id
  {
    forall i, j | 0 <= i < j < |sources| ensures sources[i].id != sources[j].id {
      if sources[i].id == sources[j].id {
        assert sources[i].id[1..] == Decimal(i) && sources[j].id[1..] == Decimal(j);
        DecimalInjective(i, j);
      }
    }
  }

  lemma {:induction false} OffsetMonotone(ds: seq<real>, i: nat, j: nat)
    requires i <= j <= |ds| && forall k :: 0 <= k < |ds| ==> ds[k] > 0.0
    ensures Offset(ds, i) <= Offset(ds, j)
  {
    if i < j { OffsetMonotone(ds, i, j - 1); }
  }

  lemma {:induction false} ConcatFront(segs: seq<Segment>, sources: seq<SourceMedia>, ds: seq<real>, n: nat)
    requires ConcatPrefix(segs, sources, ds) && n < |segs|
    ensures ConcatPrefix(segs[..n], sources, ds) && segs[n] == ConcatPiece(sources[n].id, ds, n) && segs[..n] + [segs[n]] == segs[..n + 1]
  {}

  /** What the planner builds is a regular timeline, as long as the sum of the durations. */
  lemma {:induction false} ConcatRegular(segs: seq<Segment>, sources: seq<SourceMedia>, ds: seq<real>)
    requires ConcatPrefix(segs, sources, ds) && (forall k :: 0 <= k < |ds| ==> ds[k] > 0.0)
    ensures Regular(segs) && EndOf(segs, 0.0) == Offset(ds, |segs|)
    decreases |segs|
  {
    if segs != [] {
      var n := |segs| - 1;
      ConcatFront(segs, sources, ds, n);
      ConcatRegular(segs[..n], sources, ds);
      ConcatSnoc(segs[..n], segs[n], sources[n].id, ds);
      assert segs[..n + 1] == segs;
    }
  }

  lemma {:induction false} ConcatSnoc(segs: seq<Segment>, s: Segment, id: string, ds: seq<real>)
    requires |segs| < |ds| && Regular(segs) && EndOf(segs, 0.0) == Offset(ds, |segs|)
    requires ds[|segs|] > 0.0 && s == ConcatPiece(id, ds, |segs|)
    ensures Regular(segs + [s]) && EndOf(segs + [s], 0.0) == Offset(ds, |segs| + 1)
  {
    ContiguousSnoc(segs, 0.0, s);
  }

  // ---------------------------------------------------------------- the validator

  const TOLERANCE := 0.1

  /** What gates the stored-duration checks: `live` suspends them, when a probe gave a usable stream clock
      or the media is withheld or known partial; `minDelta` is the caller's tolerance. */
  datatype Gates = Gates(live: bool, minDelta: real)

  function Threshold(g: Gates): real { Later(TOLERANCE, g.minDelta) }

  datatype Finding =
    | Empty | Overlap(i: nat) | Gap(i: nat) | GapStart
    | DurationMismatch | ShortCoverage
    | SourceUnderrun(i: nat) | SourceOverrun(i: nat)
    | ChapterOutOfRange(i: nat)

  function Abs(x: real): real { if x < 0.0 then -x else x }

  function Total(segs: seq<Segment>): real {
    if segs == [] then 0.0 else Total(segs[..|segs| - 1]) + (segs[|segs| - 1].end - segs[|segs| - 1].start)
  }

  function PrevEnd(segs: seq<Segment>, i: nat): real
    requires i <= |segs|
  { if i == 0 then 0.0 else segs[i - 1].end }

  function Lookup(sources: seq<SourceMedia>, id: string): Option<SourceMedia> {
    if sources == [] then None
    else if sources[|sources| - 1].id == id then Some(sources[|sources| - 1])
    else Lookup(sources[..|sources| - 1], id)
  }

  /** Source `k` is the one its id stands for: the last that has it. */
  ghost predicate LastOf(sources: seq<SourceMedia>, id: string, k: nat) {
    k < |sources| && sources[k].id == id && forall j :: k < j < |sources| ==> sources[j].id != id
  }

  lemma {:induction false} LookupIsLast(sources: seq<SourceMedia>, id: string)
    ensures forall k: nat :: LastOf(sources, id, k) ==> Lookup(sources, id) == Some(sources[k])
    ensures Lookup(sources, id).Some? ==> exists k: nat :: LastOf(sources, id, k)
  {
    if sources != [] {
      var n := |sources| - 1;
      if sources[n].id == id {
        assert LastOf(sources, id, n);
      } else {
        LookupIsLast(sources[..n], id);
        forall k: nat ensures LastOf(sources, id, k) <==> LastOf(sources[..n], id, k) {}
      }
    }
  }

  /** The segment's source, of known duration. */
  ghost predicate Bounds(sources: seq<SourceMedia>, s: Segment, k: nat) {
    s.Source? && LastOf(sources, s.sourceId, k) && sources[k].duration.Some?
  }

  /** When each finding is due, read off the stored fields. */
  ghost predicate Due(f: Finding, segs: seq<Segment>, sources: seq<SourceMedia>, chapters: seq<Chapter>, served: bool,
                      duration: Option<real>, g: Gates) {
    match f
    case Empty => segs == []
    case Overlap(i) => i < |segs| && segs[i].start < (if i == 0 then 0.0 else segs[i - 1].end) - 0.1
    case Gap(i) => 0 < i < |segs| && segs[i].start > segs[i - 1].end + 0.1
    case GapStart => segs != [] && segs[0].start > 0.1
    case DurationMismatch => segs != [] && duration.Some? && !g.live && Apart(Total(segs), duration.value, g)
    case ShortCoverage => segs != [] && duration.Some? && !g.live && Apart(segs[|segs| - 1].end, duration.value, g)
    case SourceUnderrun(i) => i < |segs| && (exists k: nat :: Bounds(sources, segs[i], k)) && segs[i].sourceStart < -0.1
    case SourceOverrun(i) => i < |segs| && exists k: nat :: Bounds(sources, segs[i], k) && segs[i].sourceEnd > sources[k].duration.value + 0.1
    case ChapterOutOfRange(i) =>
      segs != [] && served && duration.Some? && i < |chapters| &&
      (chapters[i].start < -0.1 || chapters[i].start > duration.value + 0.1)
  }

  /** The lengths differ by the tolerance and by the caller's at least. */
  ghost predicate Apart(x: real, y: real, g: Gates) {
    (x - y >= 0.1 && x - y >= g.minDelta) || (y - x >= 0.1 && y - x >= g.minDelta)
  }

  /** The finding is due on `segs`, read with the episode's other fields. */
  ghost predicate DueOn(f: Finding, segs: seq<Segment>, ep: Episode, g: Gates)
    reads ep
  {
    Due(f, segs, ep.sources, ServedChapters(ep.timeline, ep.sources, ep.chapters, ep.sourceChapters), ep.chaptersServed, ep.servedDuration, g)
  }

  /** Episodes without a timeline, or with an identity timeline, are skipped. */
  ghost predicate DueFor(f: Finding, ep: Episode, g: Gates)
    reads ep
  {
    ep.timeline.Some? && !PlaysWhole(ep.timeline.value, ep.sources) && DueOn(f, ep.timeline.value, ep, g)
  }

  predicate OfOrder(f: Finding) { f.Overlap? || f.Gap? || f.GapStart? }
  predicate OfDuration(f: Finding) { f.DurationMismatch? || f.ShortCoverage? }
  predicate OfBounds(f: Finding) { f.SourceUnderrun? || f.SourceOverrun? }

  method CheckOrder(segs: seq<Segment>, ep: Episode, g: Gates) returns (findings: seq<Finding>)
    requires segs != []
    ensures forall f :: f in findings <==> OfOrder(f) && DueOn(f, segs, ep, g)
  {
    findings := [];
    var prevEnd := 0.0;
    for i := 0 to |segs|
      invariant prevEnd == PrevEnd(segs, i)
      invariant forall f :: f in findings <==> (f.Overlap? || f.Gap?) && f.i < i && DueOn(f, segs, ep, g)
    {
      if segs[i].start < prevEnd - TOLERANCE {
        findings := findings + [Overlap(i)];
      } else if i > 0 && segs[i].start > prevEnd + TOLERANCE {
        findings := findings + [Gap(i)];
      }
      prevEnd := segs[i].end;
    }
    if segs[0].start > TOLERANCE {
      findings := findings + [GapStart];
    }
  }

  method CheckDuration(segs: seq<Segment>, ep: Episode, g: Gates) returns (findings: seq<Finding>)
    requires segs != []
    ensures forall f :: f in findings <==> OfDuration(f) && DueOn(f, segs, ep, g)
  {
    findings := [];
    if ep.servedDuration.Some? && !g.live {
      var total := 0.0;
      for i := 0 to |segs|
        invariant total == Total(segs[..i])
      {
        assert segs[..i + 1][..i] == segs[..i];
        total := total + (segs[i].end - segs[i].start);
      }
      assert segs[..|segs|] == segs;
      if Abs(total - ep.servedDuration.value) >= Threshold(g) {
        findings := findings + [DurationMismatch];
      }
      if Abs(segs[|segs| - 1].end - ep.servedDuration.value) >= Threshold(g) {
        findings := findings + [ShortCoverage];
      }
    }
  }

  lemma {:induction false} BoundsDue(segs: seq<Segment>, i: nat, sources: seq<SourceMedia>, chapters: seq<Chapter>, served: bool,
                                     duration: Option<real>, g: Gates)
    requires i < |segs|
    ensures var src := if segs[i].Source? then Lookup(sources, segs[i].sourceId) else None;
            var end := if src.Some? then src.value.duration else None;
            && (Due(SourceUnderrun(i), segs, sources, chapters, served, duration, g) <==> end.Some? && segs[i].sourceStart < -TOLERANCE)
            && (Due(SourceOverrun(i), segs, sources, chapters, served, duration, g) <==> end.Some? && segs[i].sourceEnd > end.value + TOLERANCE)
  {
    if segs[i].Source? {
      LookupIsLast(sources, segs[i].sourceId);
      if Lookup(sources, segs[i].sourceId).Some? {
        var k: nat :| LastOf(sources, segs[i].sourceId, k);
        assert sources[k].duration.Some? ==> Bounds(sources, segs[i], k);
      }
    }
  }

  method CheckBounds(segs: seq<Segment>, ep: Episode, g: Gates) returns (findings: seq<Finding>)
    requires segs != []
    ensures forall f :: f in findings <==> OfBounds(f) && DueOn(f, segs, ep, g)
  {
    findings := [];
    for i := 0 to |segs|
      invariant forall f :: f in findings <==> OfBounds(f) && f.i < i && DueOn(f, segs, ep, g)
    {
      BoundsDue(segs, i, ep.sources, ServedChapters(ep.timeline, ep.sources, ep.chapters, ep.sourceChapters), ep.chaptersServed, ep.servedDuration, g);
      if segs[i].Source? {
        var src := Lookup(ep.sources, segs[i].sourceId);
        if src.Some? && src.value.duration.Some? {
          if segs[i].sourceStart < -TOLERANCE {
            findings := findings + [SourceUnderrun(i)];
          }
          if segs[i].sourceEnd > src.value.duration.value + TOLERANCE {
            findings := findings + [SourceOverrun(i)];
          }
        }
      }
    }
  }

  method CheckChapters(segs: seq<Segment>, ep: Episode, g: Gates) returns (findings: seq<Finding>)
    requires segs != []
    ensures forall f :: f in findings <==> f.ChapterOutOfRange? && DueOn(f, segs, ep, g)
  {
    findings := [];
    if ep.chaptersServed && ep.servedDuration.Some? {
      var chapters := ServedChapters(ep.timeline, ep.sources, ep.chapters, ep.sourceChapters);
      for i := 0 to |chapters|
        invariant forall f :: f in findings <==> f.ChapterOutOfRange? && f.i < i && DueOn(f, segs, ep, g)
      {
        var start := chapters[i].start;
        if start < -TOLERANCE || start > ep.servedDuration.value + TOLERANCE {
          findings := findings + [ChapterOutOfRange(i)];
        }
      }
    }
  }

  /** The structural part of `check_timeline_integrity` for one episode: it reports exactly the
      findings that are due. */
  method CheckTimeline(ep: Episode, g: Gates) returns (findings: seq<Finding>)
    ensures forall f :: f in findings <==> DueFor(f, ep, g)
  {
    if ep.timeline.Some? { IdentityMeans(ep.timeline.value, ep.sources); }
    if ep.timeline.None? || IsIdentity(ep.timeline.value, ep.sources) { return []; }
    var segs := ep.timeline.value;
    if segs == [] { return [Empty]; }
    var order := CheckOrder(segs, ep, g);
    var duration := CheckDuration(segs, ep, g);
    var bounds := CheckBounds(segs, ep, g);
    var chapters := CheckChapters(segs, ep, g);
    findings := order + duration + bounds + chapters;
  }

  // ---------------------------------------------------------------- builder, cutter and validator agree

  lemma {:induction false} TotalTelescopes(segs: seq<Segment>)
    requires ContiguousFrom(segs, 0.0)
    ensures Total(segs) == EndOf(segs, 0.0)
    decreases |segs|
  {
    var n := |segs| - 1;
    if n >= 0 {
      ContiguousPrefix(segs, 0.0, n);
      TotalTelescopes(segs[..n]);
      ContiguousAt(segs, 0.0, n);
    }
  }

  lemma {:induction false} ContiguousPrefix(segs: seq<Segment>, at: real, n: nat)
    requires ContiguousFrom(segs, at) && n <= |segs|
    ensures ContiguousFrom(segs[..n], at)
  {
    if n > 0 {
      assert segs[..n][1..] == segs[1..][..n - 1];
      ContiguousPrefix(segs[1..], segs[0].end, n - 1);
    }
  }

  lemma {:induction false} ConcatChaptersInRange(objs: seq<SegmentObject>, ds: seq<real>, n: nat)
    requires n <= |objs| == |ds| && forall k :: 0 <= k < |ds| ==> ds[k] > 0.0
    ensures forall c :: c in ConcatChapters(objs, ds, n) ==> c.end.Some? && 0.0 <= c.start < c.end.value <= Offset(ds, n)
  {
    if n > 0 {
      ConcatChaptersInRange(objs, ds, n - 1);
      OffsetMonotone(ds, 0, n - 1);
    }
  }

  /** A regular timeline draws no ordering finding, and no duration finding against its own length. */
  lemma {:induction false} RegularIsClean(segs: seq<Segment>, sources: seq<SourceMedia>, chapters: seq<Chapter>, served: bool, g: Gates, f: Finding)
    requires Regular(segs) && segs != [] && (OfOrder(f) || OfDuration(f) || f == Empty)
    ensures !Due(f, segs, sources, chapters, served, Some(EndOf(segs, 0.0)), g)
  {
    TotalTelescopes(segs);
    if (f.Overlap? || f.Gap?) && f.i < |segs| { ContiguousAt(segs, 0.0, f.i); }
    if f.GapStart? { ContiguousAt(segs, 0.0, 0); }
  }

  /** Source bounds of a timeline, segment by segment. */
  ghost predicate WithinSources(segs: seq<Segment>, sources: seq<SourceMedia>) {
    forall s, k: nat :: s in segs && Bounds(sources, s, k) ==> 0.0 <= s.sourceStart <= s.sourceEnd <= sources[k].duration.value
  }

  lemma {:induction false} BoundsAreClean(segs: seq<Segment>, sources: seq<SourceMedia>, chapters: seq<Chapter>, served: bool,
                       duration: Option<real>, g: Gates, f: Finding)
    requires WithinSources(segs, sources) && OfBounds(f)
    ensures !Due(f, segs, sources, chapters, served, duration, g)
  {
    if f.i < |segs| { assert segs[f.i] in segs; }
  }

  /** The planner's own timeline draws no finding at all against the summed duration. */
  lemma {:induction false} PlanPassesValidator(segs: seq<Segment>, sources: seq<SourceMedia>, objs: seq<SegmentObject>,
                            ds: seq<real>, g: Gates, f: Finding)
    requires |objs| == |ds| > 0 && (forall k :: 0 <= k < |ds| ==> ds[k] > 0.0)
    requires IsConcat(segs, sources, ds)
    requires forall i, j :: 0 <= i < j < |ds| ==> sources[i].id != sources[j].id
    ensures !Due(f, segs, sources, ConcatChapters(objs, ds, |objs|), true, Some(Sum(ds)), g)
  {
    var chapters := ConcatChapters(objs, ds, |objs|);
    if OfBounds(f) {
      ConcatWithinSources(segs, sources, ds);
      BoundsAreClean(segs, sources, chapters, true, Some(Sum(ds)), g, f);
    } else if f.ChapterOutOfRange? {
      ConcatChaptersInRange(objs, ds, |objs|);
      if f.i < |chapters| { assert chapters[f.i] in chapters; }
    } else {
      ConcatRegular(segs, sources, ds);
      RegularIsClean(segs, sources, chapters, true, g, f);
    }
  }

  /** Nor do chapters derived from a provider's draw one, on a regular timeline of one source, against its length. */
  lemma {:induction false} DerivedChaptersPass(segs: seq<Segment>, sources: seq<SourceMedia>, chapters: seq<Chapter>, sourceChapters: seq<Chapter>,
                            served: bool, g: Gates, i: nat)
    requires Regular(segs) && !IsIdentity(segs, sources) && OnlySource(segs).Some? && sourceChapters != []
    ensures !Due(ChapterOutOfRange(i), segs, sources, ServedChapters(Some(segs), sources, chapters, sourceChapters), served,
                 Some(EndOf(segs, 0.0)), g)
  {
    ServedInRange(segs, OnlySource(segs).value, sourceChapters);
    InRangeIsClean(segs, sources, ServedChapters(Some(segs), sources, chapters, sourceChapters), served, g, i);
  }

  lemma {:induction false} InRangeIsClean(segs: seq<Segment>, sources: seq<SourceMedia>, chapters: seq<Chapter>, served: bool, g: Gates, i: nat)
    requires forall c :: c in chapters ==> 0.0 <= c.start <= EndOf(segs, 0.0)
    ensures !Due(ChapterOutOfRange(i), segs, sources, chapters, served, Some(EndOf(segs, 0.0)), g)
  {
    if i < |chapters| { assert chapters[i] in chapters; }
  }

  lemma {:induction false} ClipWithinSources(segs: seq<Segment>, sources: seq<SourceMedia>, a: real, b: real, cur: real)
    requires WithinSources(segs, sources) && forall k :: 0 <= k < |segs| ==> UnitSpeed(segs[k])
    ensures WithinSources(Clip(segs, a, b, cur), sources)
  {
    if segs != [] {
      var s := segs[0];
      ClipWithinSources(segs[1..], sources, a, b, if Overlaps(s, a, b) then Trim(s, a, b, cur).end else cur);
      if Overlaps(s, a, b) && s.Source? {
        var p := Trim(s, a, b, cur);
        assert s in segs;
        assert s.sourceStart <= p.sourceStart <= p.sourceEnd <= s.sourceEnd;
      }
    }
  }

  /** Nor does any clip of a timeline that is regular and within its sources, against its length. */
  lemma {:induction false} ClipPassesValidator(segs: seq<Segment>, sources: seq<SourceMedia>, a: real, b: real, g: Gates, f: Finding)
    requires Regular(segs) && WithinSources(segs, sources) && 0.0 <= a < b <= EndOf(segs, 0.0)
    ensures !Due(f, Clip(segs, a, b, 0.0), sources, [], false, Some(b - a), g)
  {
    var clip := Clip(segs, a, b, 0.0);
    ClipRegular(segs, a, b);
    if OfBounds(f) {
      ClipWithinSources(segs, sources, a, b, 0.0);
      BoundsAreClean(clip, sources, [], false, Some(b - a), g, f);
    } else if !f.ChapterOutOfRange? {
      RegularIsClean(clip, sources, [], false, g, f);
    }
  }

  lemma {:induction false} ConcatWithinSources(segs: seq<Segment>, sources: seq<SourceMedia>, ds: seq<real>)
    requires IsConcat(segs, sources, ds) && (forall k :: 0 <= k < |ds| ==> ds[k] > 0.0)
    requires forall i, j :: 0 <= i < j < |ds| ==> sources[i].id != sources[j].id
    ensures WithinSources(segs, sources)
  {
    forall s, k: nat | s in segs && Bounds(sources, s, k) ensures 0.0 <= s.sourceStart <= s.sourceEnd <= sources[k].duration.value {
      var i :| 0 <= i < |segs| && segs[i] == s;
      assert segs[i] == ConcatPiece(sources[i].id, ds, i) && ds[i] > 0.0;
      assert k == i;
    }
  }

  ghost predicate OrderClean(segs: seq<Segment>) {
    forall i :: 0 <= i < |segs| ==> Abs(segs[i].start - PrevEnd(segs, i)) <= TOLERANCE
  }

  lemma {:induction false} Drift(total: real, prev: real, start: real, n: nat)
    requires Abs(total - prev) <= n as real * TOLERANCE && Abs(start - prev) <= TOLERANCE
    ensures Abs(total - start) <= (n + 1) as real * TOLERANCE
  {
    assert (n + 1) as real == n as real + 1.0;
  }

  lemma {:induction false} FrontClean(segs: seq<Segment>, n: nat)
    requires OrderClean(segs) && n <= |segs|
    ensures OrderClean(segs[..n])
  {
    var front := segs[..n];
    forall i | 0 <= i < n ensures Abs(front[i].start - PrevEnd(front, i)) <= TOLERANCE {
      assert front[i] == segs[i] && PrevEnd(front, i) == PrevEnd(segs, i);
    }
  }

  /** Conversely, a timeline without ordering findings is contiguous up to the tolerance: each
      segment can add at most one tolerance to the gap between its sum and its end. */
  lemma {:induction false} CleanTotals(segs: seq<Segment>)
    requires OrderClean(segs)
    ensures Abs(Total(segs) - EndOf(segs, 0.0)) <= |segs| as real * TOLERANCE
    decreases |segs|
  {
    var n := |segs| - 1;
    if n >= 0 {
      FrontClean(segs, n);
      CleanTotals(segs[..n]);
      assert EndOf(segs[..n], 0.0) == PrevEnd(segs, n);
      DriftOne(Total(segs[..n]), PrevEnd(segs, n), segs[n].start, segs[n].end, n);
    }
  }

  lemma {:induction false} DriftOne(total: real, prev: real, start: real, end: real, n: nat)
    requires Abs(total - prev) <= n as real * TOLERANCE && Abs(start - prev) <= TOLERANCE
    ensures Abs(total + (end - start) - end) <= (n + 1) as real * TOLERANCE
  {
    Drift(total, prev, start, n);
  }

  /** The ordering checks of the validator say exactly that. */
  lemma {:induction false} ValidatorBoundsTotal(ep: Episode, g: Gates)
    requires ep.timeline.Some? && ep.timeline.value != []
    requires forall f :: OfOrder(f) ==> !DueFor(f, ep, g)
    ensures var segs := ep.timeline.value; Abs(Total(segs) - EndOf(segs, 0.0)) <= |segs| as real * TOLERANCE
  {
    var segs := ep.timeline.value;
    forall i | 0 <= i < |segs| ensures Abs(segs[i].start - PrevEnd(segs, i)) <= TOLERANCE {
      assert !DueFor(Overlap(i), ep, g);
      assert !DueFor(Gap(i), ep, g);
      assert !DueFor(GapStart, ep, g);
    }
    CleanTotals(segs);
  }
}
