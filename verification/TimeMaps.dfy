/** Edit decision lists: the timeline model and its two time maps. Seconds are exact reals. */
module TimeMaps {
  import opened Wrappers

  /** One span of served audio. A source span always carries its source start and end here. */
  datatype Segment =
    | Source(start: real, end: real, sourceId: string, sourceStart: real, sourceEnd: real)
    | Insert(start: real, end: real, insert: string, assetId: Option<string>, assetVersion: Option<string>)

  datatype Timeline = Timeline(version: string, segments: seq<Segment>)

  datatype SourceMedia = SourceMedia(id: string, ref: string, duration: Option<real>)

  datatype Cut = Cut(sourceId: string, start: real, end: real)

  function Later(a: real, b: real): real { if a >= b then a else b }
  function Sooner(a: real, b: real): real { if a <= b then a else b }

  /** Served time is the continuous enclosure clock: each segment begins where its predecessor ends. */
  ghost predicate ContiguousFrom(segs: seq<Segment>, at: real) {
    segs == [] || (segs[0].start == at && segs[0].start < segs[0].end && ContiguousFrom(segs[1..], segs[0].end))
  }

  function EndOf(segs: seq<Segment>, at: real): real {
    if segs == [] then at else segs[|segs| - 1].end
  }

  /** Source audio is neither stretched nor squeezed. */
  ghost predicate UnitSpeed(s: Segment) {
    s.Source? ==> s.sourceEnd - s.sourceStart == s.end - s.start
  }

  ghost predicate Regular(segs: seq<Segment>) {
    ContiguousFrom(segs, 0.0) && forall k :: 0 <= k < |segs| ==> UnitSpeed(segs[k])
  }

  lemma {:induction false} ContiguousAt(segs: seq<Segment>, at: real, i: nat)
    requires ContiguousFrom(segs, at) && i < |segs|
    ensures at <= segs[i].start < segs[i].end <= EndOf(segs, at)
    ensures i == 0 ==> segs[i].start == at
    ensures i > 0 ==> segs[i].start == segs[i - 1].end
  {
    if i > 0 {
      ContiguousAt(segs[1..], segs[0].end, i - 1);
      if i == 1 { assert segs[1..][0].start == segs[0].end; }
    } else if |segs| > 1 {
      ContiguousAt(segs[1..], segs[0].end, |segs| - 2);
    }
  }

  lemma {:induction false} ContiguousOrdered(segs: seq<Segment>, at: real, i: nat, j: nat)
    requires ContiguousFrom(segs, at) && i < j < |segs|
    ensures segs[i].end <= segs[j].start
    decreases j
  {
    ContiguousAt(segs, at, j);
    if i < j - 1 {
      ContiguousOrdered(segs, at, i, j - 1);
      ContiguousAt(segs, at, j - 1);
    }
  }

  lemma {:induction false} ContiguousSnoc(segs: seq<Segment>, at: real, s: Segment)
    requires ContiguousFrom(segs, at) && s.start == EndOf(segs, at) && s.start < s.end
    ensures ContiguousFrom(segs + [s], at)
  {
    if segs != [] {
      assert (segs + [s])[1..] == segs[1..] + [s];
      ContiguousSnoc(segs[1..], segs[0].end, s);
    }
  }

  // ---------------------------------------------------------------- time maps

  /** Does segment `i` claim served instant `t`? Only the last segment owns its right end. */
  predicate InSpan(segs: seq<Segment>, i: nat, t: real)
    requires i < |segs|
  {
    segs[i].start <= t && (t < segs[i].end || (i == |segs| - 1 && t == segs[i].end))
  }

  method ServedToSource(segs: seq<Segment>, t: real) returns (r: Option<(string, real)>)
    ensures r.Some? ==> exists i ::
              0 <= i < |segs| && InSpan(segs, i, t) && segs[i].Source? && (forall j :: 0 <= j < i ==> !InSpan(segs, j, t)) &&
              r.value == (segs[i].sourceId, segs[i].sourceStart + (t - segs[i].start))
    ensures r.None? ==> (forall j :: 0 <= j < |segs| ==> !InSpan(segs, j, t)) ||
                        exists i :: 0 <= i < |segs| && InSpan(segs, i, t) && segs[i].Insert? && forall j :: 0 <= j < i ==> !InSpan(segs, j, t)
    ensures r == MapServed(segs, t)
  {
    for i := 0 to |segs|
      invariant forall j :: 0 <= j < i ==> !InSpan(segs, j, t)
      invariant MapServed(segs, t) == MapServed(segs[i..], t)
    {
      var s, last := segs[i], i == |segs| - 1;
      var inSpan := if last then s.start <= t <= s.end else s.start <= t < s.end;
      if inSpan {
        if s.Insert? { return None; }
        return Some((s.sourceId, s.sourceStart + (t - s.start)));
      }
      assert segs[i..][1..] == segs[i + 1..];
    }
    return None;
  }

  /** The specification of `served_to_source`. */
  function MapServed(segs: seq<Segment>, t: real): Option<(string, real)> {
    if segs == [] then None
    else if InSpan(segs, 0, t) then
      if segs[0].Insert? then None else Some((segs[0].sourceId, segs[0].sourceStart + (t - segs[0].start)))
    else MapServed(segs[1..], t)
  }

  /** On a contiguous timeline the segment claiming an instant decides its source time. */
  lemma {:induction false} MapServedAt(segs: seq<Segment>, at: real, i: nat, t: real)
    requires ContiguousFrom(segs, at) && i < |segs| && InSpan(segs, i, t)
    ensures MapServed(segs, t) == if segs[i].Insert? then None else Some((segs[i].sourceId, segs[i].sourceStart + (t - segs[i].start)))
  {
    if i > 0 {
      ContiguousOrdered(segs, at, 0, i);
      MapServedAt(segs[1..], segs[0].end, i - 1, t);
    }
  }

  lemma {:induction false} Claimed(segs: seq<Segment>, at: real, t: real) returns (i: nat)
    requires ContiguousFrom(segs, at) && segs != [] && at <= t <= EndOf(segs, at)
    ensures i < |segs| && InSpan(segs, i, t)
  {
    if InSpan(segs, 0, t) {
      i := 0;
    } else {
      i := Claimed(segs[1..], segs[0].end, t);
      i := i + 1;
    }
  }

  predicate OfSource(s: Segment, id: string) { s.Source? && s.sourceId == id }

  /** The source segments of one source, in timeline order. */
  function SegmentsOf(segs: seq<Segment>, id: string): seq<Segment> {
    if segs == [] then []
    else if OfSource(segs[0], id) then [segs[0]] + SegmentsOf(segs[1..], id)
    else SegmentsOf(segs[1..], id)
  }

  predicate InSourceSpan(own: seq<Segment>, i: nat, t: real)
    requires i < |own|
  {
    own[i].Source? && own[i].sourceStart <= t && (t < own[i].sourceEnd || (i == |own| - 1 && t == own[i].sourceEnd))
  }

  function FirstInSource(own: seq<Segment>, t: real): Option<real> {
    if own == [] then None
    else if InSourceSpan(own, 0, t) then Some(own[0].start + (t - own[0].sourceStart))
    else FirstInSource(own[1..], t)
  }

  /** The specification of `source_to_served`. */
  function MapSource(segs: seq<Segment>, id: string, t: real): Option<real> {
    FirstInSource(SegmentsOf(segs, id), t)
  }

  /** No source second is served twice. */
  ghost predicate SourceDisjoint(segs: seq<Segment>) {
    forall i, j :: 0 <= i < j < |segs| && segs[i].Source? && segs[j].Source? && segs[i].sourceId == segs[j].sourceId ==>
      segs[i].sourceEnd <= segs[j].sourceStart || segs[j].sourceEnd <= segs[i].sourceStart
  }

  predicate HalfOpen(s: Segment, x: real) { s.Source? && s.sourceStart <= x < s.sourceEnd }

  /** Segment `i` is the one `source_to_served` settles on: the first of the source's own that holds the
      instant, where only the last of them owns its right end. */
  ghost predicate Settles(segs: seq<Segment>, id: string, x: real, i: nat) {
    && i < |segs| && OfSource(segs[i], id)
    && (forall j :: 0 <= j < i && OfSource(segs[j], id) ==> !HalfOpen(segs[j], x))
    && (HalfOpen(segs[i], x) || (segs[i].sourceStart <= x == segs[i].sourceEnd && forall j :: i < j < |segs| ==> !OfSource(segs[j], id)))
  }

  lemma {:induction false} OwnLast(segs: seq<Segment>, id: string)
    ensures SegmentsOf(segs, id) == [] <==> forall j :: 0 <= j < |segs| ==> !OfSource(segs[j], id)
  {
    if segs != [] {
      OwnLast(segs[1..], id);
      if forall j :: 0 <= j < |segs[1..]| ==> !OfSource(segs[1..][j], id) {
        forall j | 0 < j < |segs| ensures !OfSource(segs[j], id) { assert segs[j] == segs[1..][j - 1]; }
      }
    }
  }

  lemma {:induction false} SettledSegment(segs: seq<Segment>, id: string, x: real) returns (i: nat)
    requires MapSource(segs, id, x).Some?
    ensures Settles(segs, id, x, i) && MapSource(segs, id, x) == Some(segs[i].start + (x - segs[i].sourceStart))
  {
    var own := SegmentsOf(segs[1..], id);
    if OfSource(segs[0], id) && InSourceSpan([segs[0]] + own, 0, x) {
      OwnLast(segs[1..], id);
      forall j | 0 < j < |segs| && own == [] ensures !OfSource(segs[j], id) { assert segs[j] == segs[1..][j - 1]; }
      i := 0;
    } else {
      if OfSource(segs[0], id) { assert ([segs[0]] + own)[1..] == own; }
      i := SettledSegment(segs[1..], id, x);
      i := i + 1;
      forall j | i < j < |segs| ensures segs[j] == segs[1..][j - 1] {}
      forall j | 0 < j < i ensures segs[j] == segs[1..][j - 1] {}
    }
  }

  lemma {:induction false} SettlesMaps(segs: seq<Segment>, id: string, x: real, i: nat)
    requires Settles(segs, id, x, i)
    ensures MapSource(segs, id, x) == Some(segs[i].start + (x - segs[i].sourceStart))
  {
    var own := SegmentsOf(segs[1..], id);
    OwnLast(segs[1..], id);
    if i == 0 {
      forall j | 0 <= j < |segs[1..]| ensures segs[1..][j] == segs[j + 1] {}
      assert ([segs[0]] + own)[0] == segs[0];
    } else {
      forall j | 0 <= j < |segs[1..]| ensures segs[1..][j] == segs[j + 1] {}
      SettlesMaps(segs[1..], id, x, i - 1);
      if OfSource(segs[0], id) {
        assert segs[1..][i - 1] == segs[i];
        assert ([segs[0]] + own)[1..] == own && own != [];
      }
    }
  }

  /** `source_to_served`: the answer comes from the segment it settles on, and there is none only if no
      segment of the source holds the instant. */
  method SourceToServed(segs: seq<Segment>, id: string, t: real) returns (r: Option<real>)
    ensures r == MapSource(segs, id, t)
    ensures r.Some? ==> exists i: nat :: Settles(segs, id, t, i) && r == Some(segs[i].start + (t - segs[i].sourceStart))
    ensures r.None? ==> forall i: nat :: !Settles(segs, id, t, i)
  {
    MapSourceSettles(segs, id, t);
    var own := SegmentsOf(segs, id);
    for i := 0 to |own|
      invariant FirstInSource(own, t) == FirstInSource(own[i..], t)
    {
      if InSourceSpan(own, i, t) { return Some(own[i].start + (t - own[i].sourceStart)); }
      assert own[i..][1..] == own[i + 1..];
    }
    return None;
  }

  lemma {:induction false} MapSourceSettles(segs: seq<Segment>, id: string, t: real)
    ensures var r := MapSource(segs, id, t);
            && (r.Some? ==> exists i: nat :: Settles(segs, id, t, i) && r == Some(segs[i].start + (t - segs[i].sourceStart)))
            && (r.None? ==> forall i: nat :: !Settles(segs, id, t, i))
  {
    if MapSource(segs, id, t).Some? {
      var i := SettledSegment(segs, id, t);
    }
    forall i: nat | Settles(segs, id, t, i) ensures MapSource(segs, id, t).Some? { SettlesMaps(segs, id, t, i); }
  }

  lemma {:induction false} LengthOf(segs: seq<Segment>, j: nat)
    requires Regular(segs) && j < |segs|
    ensures segs[j].Source? ==> segs[j].sourceStart < segs[j].sourceEnd && segs[j].sourceEnd - segs[j].sourceStart == segs[j].end - segs[j].start
  {
    ContiguousAt(segs, 0.0, j);
    assert UnitSpeed(segs[j]);
  }

  /** An earlier segment of its source plays the second `x` of segment `i`, and plays on from there. */
  ghost predicate PlayedBefore(segs: seq<Segment>, i: nat, x: real)
    requires i < |segs| && segs[i].Source?
  {
    exists j :: 0 <= j < i && OfSource(segs[j], segs[i].sourceId) && HalfOpen(segs[j], x)
  }

  /** The earliest one. */
  lemma {:induction false} FirstPlayed(segs: seq<Segment>, id: string, x: real, j: nat) returns (k: nat)
    requires j < |segs| && OfSource(segs[j], id) && HalfOpen(segs[j], x)
    ensures k <= j && OfSource(segs[k], id) && HalfOpen(segs[k], x)
    ensures forall l :: 0 <= l < k && OfSource(segs[l], id) ==> !HalfOpen(segs[l], x)
  {
    k := 0;
    while !(OfSource(segs[k], id) && HalfOpen(segs[k], x))
      invariant k <= j && forall l :: 0 <= l < k && OfSource(segs[l], id) ==> !HalfOpen(segs[l], x)
      decreases j - k
    {
      k := k + 1;
    }
  }

  /** From served to source and back: an instant served from segment `i` comes back exactly when no
      earlier segment of the source plays the same second on. */
  lemma {:induction false} MapsInverse(segs: seq<Segment>, i: nat, t: real)
    requires Regular(segs) && i < |segs| && segs[i].Source? && InSpan(segs, i, t)
    ensures var x := segs[i].sourceStart + (t - segs[i].start);
            && MapServed(segs, t) == Some((segs[i].sourceId, x))
            && (MapSource(segs, segs[i].sourceId, x) == Some(t) <==> !PlayedBefore(segs, i, x))
  {
    var id, x := segs[i].sourceId, segs[i].sourceStart + (t - segs[i].start);
    MapServedAt(segs, 0.0, i, t);
    LengthOf(segs, i);
    if PlayedBefore(segs, i, x) {
      var j :| 0 <= j < i && OfSource(segs[j], id) && HalfOpen(segs[j], x);
      PlayedEarlier(segs, i, j, x);
    } else {
      SettlesMaps(segs, id, x, i);
    }
  }

  lemma {:induction false} PlayedEarlier(segs: seq<Segment>, i: nat, j: nat, x: real)
    requires Regular(segs) && j < i < |segs| && segs[i].Source? && OfSource(segs[j], segs[i].sourceId) && HalfOpen(segs[j], x)
    ensures MapSource(segs, segs[i].sourceId, x).Some? && MapSource(segs, segs[i].sourceId, x).value < segs[i].start
  {
    var k := FirstPlayed(segs, segs[i].sourceId, x, j);
    SettlesMaps(segs, segs[i].sourceId, x, k);
    LengthOf(segs, k);
    ContiguousOrdered(segs, 0.0, k, i);
  }

  /** So a second that is played twice is mapped back to where it is played first. */
  lemma {:induction false} ReplayedSecond(id: string)
    ensures var segs := [Source(0.0, 5.0, id, 0.0, 5.0), Source(5.0, 10.0, id, 0.0, 5.0)];
            Regular(segs) && MapServed(segs, 6.0) == Some((id, 1.0)) && MapSource(segs, id, 1.0) != Some(6.0)
  {
    var first, second := Source(0.0, 5.0, id, 0.0, 5.0), Source(5.0, 10.0, id, 0.0, 5.0);
    var segs := [first, second];
    assert segs[1..] == [second] && ContiguousFrom([second], 5.0);
    assert HalfOpen(segs[0], 1.0);
    MapsInverse(segs, 1, 6.0);
  }

  /** And so is the end of a timeline whose last segment ends on a second an earlier one begins with,
      though no second is played twice. */
  lemma {:induction false} SwappedEnd(id: string)
    ensures var segs := [Source(0.0, 5.0, id, 5.0, 10.0), Source(5.0, 10.0, id, 0.0, 5.0)];
            Regular(segs) && SourceDisjoint(segs) && MapServed(segs, 10.0) == Some((id, 5.0)) && MapSource(segs, id, 5.0) != Some(10.0)
  {
    var first, second := Source(0.0, 5.0, id, 5.0, 10.0), Source(5.0, 10.0, id, 0.0, 5.0);
    var segs := [first, second];
    assert segs[1..] == [second] && ContiguousFrom([second], 5.0);
    assert HalfOpen(segs[0], 5.0);
    MapsInverse(segs, 1, 10.0);
  }

  /** Where no source second is served twice, every instant before the end of the timeline comes back. */
  lemma {:induction false} DisjointMapsInverse(segs: seq<Segment>, t: real)
    requires Regular(segs) && SourceDisjoint(segs) && 0.0 <= t < EndOf(segs, 0.0)
    ensures MapServed(segs, t).Some? ==>
              MapSource(segs, MapServed(segs, t).value.0, MapServed(segs, t).value.1) == Some(t)
  {
    var i := Claimed(segs, 0.0, t);
    MapServedAt(segs, 0.0, i, t);
    if segs[i].Source? {
      LengthOf(segs, i);
      assert t < segs[i].end;
      MapsInverse(segs, i, t);
    }
  }

  /** The instant where a source plays out and another segment takes over, unless an earlier segment of
      the source holds it. */
  ghost predicate AtSeam(segs: seq<Segment>, id: string, x: real) {
    exists i :: 0 <= i < |segs| - 1 && Settles(segs, id, x, i) && x == segs[i].sourceEnd
  }

  /** Wherever a source that is played in one piece hands over to another segment, there is a seam. */
  lemma {:induction false} HandOffIsSeam(segs: seq<Segment>, i: nat)
    requires Regular(segs) && i < |segs| - 1 && segs[i].Source?
    requires forall j :: 0 <= j < |segs| && j != i ==> !OfSource(segs[j], segs[i].sourceId)
    ensures AtSeam(segs, segs[i].sourceId, segs[i].sourceEnd)
  {
    LengthOf(segs, i);
    assert Settles(segs, segs[i].sourceId, segs[i].sourceEnd, i);
  }

  /** The other way round, from source to served and back, every instant that is served comes back except
      at a seam: there the source's last segment claims it one way and its successor the other. */
  lemma {:induction false} MapsInverseFromSource(segs: seq<Segment>, id: string, x: real)
    requires Regular(segs) && MapSource(segs, id, x).Some?
    ensures MapServed(segs, MapSource(segs, id, x).value) == Some((id, x)) <==> !AtSeam(segs, id, x)
  {
    var i := SettledSegment(segs, id, x);
    var t := MapSource(segs, id, x).value;
    LengthOf(segs, i);
    ContiguousAt(segs, 0.0, i);
    if i < |segs| - 1 && x == segs[i].sourceEnd {
      ContiguousAt(segs, 0.0, i + 1);
      MapServedAt(segs, 0.0, i + 1, t);
    } else {
      MapServedAt(segs, 0.0, i, t);
      forall k | 0 <= k < |segs| - 1 && Settles(segs, id, x, k) ensures k == i {}
    }
  }

  // ---------------------------------------------------------------- identity timelines

  /** The first source with an id. */
  function FirstSource(sources: seq<SourceMedia>, id: string): Option<SourceMedia> {
    if sources == [] then None
    else if sources[0].id == id then Some(sources[0])
    else FirstSource(sources[1..], id)
  }

  /** A timeline that plays one whole source and nothing else. */
  predicate IsIdentity(segs: seq<Segment>, sources: seq<SourceMedia>) {
    && |segs| == 1 && segs[0].Source? && segs[0].start == segs[0].sourceStart == 0.0 && segs[0].end == segs[0].sourceEnd
    && (sources != [] ==>
          var src := FirstSource(sources, segs[0].sourceId);
          src.Some? && (src.value.duration.Some? ==> segs[0].sourceEnd == src.value.duration.value))
  }

  /** Source `k` is the first that has the id. */
  ghost predicate FirstOf(sources: seq<SourceMedia>, id: string, k: nat) {
    k < |sources| && sources[k].id == id && forall j :: 0 <= j < k ==> sources[j].id != id
  }

  /** One segment plays a source from zero to its end, as far as that is known, at the same served times. */
  ghost predicate PlaysWhole(segs: seq<Segment>, sources: seq<SourceMedia>) {
    && |segs| == 1 && segs[0].Source? && segs[0].start == 0.0 && segs[0].sourceStart == 0.0 && segs[0].end == segs[0].sourceEnd
    && (sources == [] || exists k: nat ::
          FirstOf(sources, segs[0].sourceId, k) && sources[k].duration in {None, Some(segs[0].sourceEnd)})
  }

  lemma {:induction false} FirstSourceIsFirst(sources: seq<SourceMedia>, id: string)
    ensures forall k: nat :: FirstOf(sources, id, k) ==> FirstSource(sources, id) == Some(sources[k])
    ensures FirstSource(sources, id).Some? ==> exists k: nat :: FirstOf(sources, id, k)
  {
    if sources != [] {
      if sources[0].id == id {
        assert FirstOf(sources, id, 0);
      } else {
        FirstSourceIsFirst(sources[1..], id);
        if FirstSource(sources, id).Some? {
          var k: nat :| FirstOf(sources[1..], id, k);
          assert FirstOf(sources, id, k + 1);
        }
        forall k: nat | FirstOf(sources, id, k) ensures FirstSource(sources, id) == Some(sources[k]) {
          assert FirstOf(sources[1..], id, k - 1);
        }
      }
    }
  }

  lemma {:induction false} IdentityMeans(segs: seq<Segment>, sources: seq<SourceMedia>)
    ensures IsIdentity(segs, sources) <==> PlaysWhole(segs, sources)
  {
    if |segs| == 1 && segs[0].Source? { FirstSourceIsFirst(sources, segs[0].sourceId); }
  }
}
