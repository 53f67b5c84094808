/** Provider chapters carried from source time to served time. */
module Chapters {
  import Sorting

  import opened TimeMaps
  import opened Wrappers

  /** `end` is unknown where it fell in removed audio. */
  datatype Chapter = Chapter(start: real, end: Option<real>, title: string)

  // ---------------------------------------------------------------- the next kept boundary

  function SourceKey(s: Segment): real { if s.Source? then s.sourceStart else 0.0 }

  predicate StartsNoLater(a: Segment, b: Segment) { SourceKey(a) <= SourceKey(b) }

  /** A source's segments by where they start in the source. */
  function InSourceOrder(segs: seq<Segment>, id: string): seq<Segment> { Sorting.Sort(StartsNoLater, SegmentsOf(segs, id)) }

  function FirstAfter(own: seq<Segment>, t: real): Option<Segment> {
    if own == [] then None
    else if own[0].Source? && own[0].sourceStart > t then Some(own[0])
    else FirstAfter(own[1..], t)
  }

  function NextSegment(segs: seq<Segment>, id: string, t: real): Option<Segment> { FirstAfter(InSourceOrder(segs, id), t) }

  /** The specification of `_next_kept_boundary`. */
  function NextKept(segs: seq<Segment>, id: string, t: real): Option<real> {
    if NextSegment(segs, id, t).Some? then Some(NextSegment(segs, id, t).value.start) else None
  }

  predicate IsAfter(s: Segment, id: string, t: real) { OfSource(s, id) && s.sourceStart > t }

  /** Segment `i` is the next kept audio of the source after the second `t`: no other one after it starts
      sooner, and of those that start with it, it is the first. */
  ghost predicate IsNext(segs: seq<Segment>, id: string, t: real, i: nat) {
    && i < |segs| && IsAfter(segs[i], id, t)
    && forall j :: 0 <= j < |segs| && IsAfter(segs[j], id, t) ==>
         segs[i].sourceStart < segs[j].sourceStart || (segs[i].sourceStart == segs[j].sourceStart && i <= j)
  }

  /** Of a segment inserted in order, and the rest, the first after `t` is the one that starts sooner. */
  lemma {:induction false} InsertNext(s: Segment, own: seq<Segment>, t: real)
    requires s.Source? && (forall o :: o in own ==> o.Source?) && Sorting.SortedBy(StartsNoLater, own)
    ensures var next := FirstAfter(own, t);
            && (next.Some? ==> next.value in own && next.value.sourceStart > t)
            && FirstAfter(Sorting.Insert(StartsNoLater, s, own), t) ==
               if s.sourceStart > t && (next.None? || s.sourceStart <= next.value.sourceStart) then Some(s) else next
  {
    if own != [] {
      var rest := own[1..];
      forall i, j | 0 <= i < j < |rest| ensures StartsNoLater(rest[i], rest[j]) { assert StartsNoLater(own[i + 1], own[j + 1]); }
      InsertNext(s, rest, t);
      if FirstAfter(rest, t).Some? {
        var k :| 0 <= k < |rest| && rest[k] == FirstAfter(rest, t).value;
        assert StartsNoLater(own[0], own[k + 1]);
      }
    }
  }

  lemma {:induction false} AllOfSource(segs: seq<Segment>, id: string)
    ensures Sorting.SortedBy(StartsNoLater, InSourceOrder(segs, id)) && forall s :: s in InSourceOrder(segs, id) ==> s.Source?
  {
    Sorting.SortSorts(StartsNoLater, SegmentsOf(segs, id));
    Sorting.SortKeeps(StartsNoLater, SegmentsOf(segs, id));
    OwnAreSources(segs, id);
  }

  lemma {:induction false} OwnAreSources(segs: seq<Segment>, id: string)
    ensures forall s :: s in SegmentsOf(segs, id) ==> s.Source?
  {
    if segs != [] { OwnAreSources(segs[1..], id); }
  }

  /** What it means. */
  lemma {:induction false} NextKeptMeans(segs: seq<Segment>, id: string, t: real)
    ensures NextSegment(segs, id, t).None? ==> forall s :: s in segs ==> !IsAfter(s, id, t)
    ensures NextSegment(segs, id, t).Some? ==> exists i: nat :: IsNext(segs, id, t, i) && NextSegment(segs, id, t).value == segs[i]
  {
    if segs != [] {
      var s, rest := segs[0], segs[1..];
      assert segs == [s] + rest;
      NextKeptMeans(rest, id, t);
      if OfSource(s, id) {
        var own := SegmentsOf(rest, id);
        assert ([s] + own)[1..] == own;
        AllOfSource(rest, id);
        InsertNext(s, InSourceOrder(rest, id), t);
      }
      if NextSegment(rest, id, t).Some? {
        var i: nat :| IsNext(rest, id, t, i) && NextSegment(rest, id, t).value == rest[i];
        NextShifted(s, rest, id, t, i);
      } else if IsAfter(s, id, t) {
        assert IsNext(segs, id, t, 0);
      }
    }
  }

  lemma {:induction false} NextShifted(s: Segment, rest: seq<Segment>, id: string, t: real, i: nat)
    requires IsNext(rest, id, t, i)
    ensures IsNext([s] + rest, id, t, if IsAfter(s, id, t) && s.sourceStart <= rest[i].sourceStart then 0 else i + 1)
  {
    var segs := [s] + rest;
    forall j | 1 <= j < |segs| ensures segs[j] == rest[j - 1] {}
  }

  /** `_next_kept_boundary` */
  method NextKeptBoundary(segs: seq<Segment>, id: string, t: real) returns (r: Option<real>)
    ensures r == NextKept(segs, id, t)
    ensures r.None? ==> forall s :: s in segs ==> !IsAfter(s, id, t)
    ensures r.Some? ==> exists i: nat :: IsNext(segs, id, t, i) && r == Some(segs[i].start)
  {
    NextKeptMeans(segs, id, t);
    var own := InSourceOrder(segs, id);
    for i := 0 to |own|
      invariant FirstAfter(own, t) == FirstAfter(own[i..], t)
    {
      if own[i].Source? && own[i].sourceStart > t { return Some(own[i].start); }
      assert own[i..][1..] == own[i + 1..];
    }
    return None;
  }

  // ---------------------------------------------------------------- the remapping

  /** Where a chapter's start goes: to its own instant, or to the next kept audio. */
  function ServedStart(segs: seq<Segment>, id: string, t: real): Option<real> {
    if MapSource(segs, id, t).Some? then MapSource(segs, id, t) else NextKept(segs, id, t)
  }

  function ServedChapter(segs: seq<Segment>, id: string, c: Chapter): Option<Chapter> {
    var start := ServedStart(segs, id, c.start);
    if start.None? then None
    else Some(Chapter(start.value, if c.end.Some? then MapSource(segs, id, c.end.value) else None, c.title))
  }

  function ServedAll(segs: seq<Segment>, id: string, items: seq<Chapter>): seq<Chapter> {
    if items == [] then []
    else
      var n := |items| - 1;
      var last := ServedChapter(segs, id, items[n]);
      ServedAll(segs, id, items[..n]) + if last.Some? then [last.value] else []
  }

  /** `remap` as chapters use it: starts in removed audio are moved to the next kept audio. */
  method Remap(segs: seq<Segment>, id: string, items: seq<Chapter>) returns (result: seq<Chapter>)
    ensures result == ServedAll(segs, id, items)
  {
    result := [];
    for i := 0 to |items|
      invariant result == ServedAll(segs, id, items[..i])
    {
      var item := items[i];
      assert items[..i + 1][..i] == items[..i];
      var start := SourceToServed(segs, id, item.start);
      if start.None? { start := NextKeptBoundary(segs, id, item.start); }
      if start.Some? {
        var end: Option<real> := None;
        if item.end.Some? { end := SourceToServed(segs, id, item.end.value); }
        result := result + [Chapter(start.value, end, item.title)];
      }
    }
    assert items[..|items|] == items;
  }

  function SourceIds(segs: seq<Segment>): set<string> { set s | s in segs && s.Source? :: s.sourceId }

  /** The one source a timeline plays from, if it is one. */
  function OnlySource(segs: seq<Segment>): (r: Option<string>)
    ensures forall id :: r == Some(id) <==> SourceIds(segs) == {id}
  {
    if segs == [] then None
    else
      var rest := OnlySource(segs[1..]);
      assert segs == [segs[0]] + segs[1..];
      assert SourceIds(segs) == SourceIds(segs[1..]) + if segs[0].Source? then {segs[0].sourceId} else {};
      if segs[0].Insert? then rest
      else if SourceIds(segs[1..]) <= {segs[0].sourceId} then Some(segs[0].sourceId)
      else None
  }

  /** `episode_served_chapters` */
  function ServedChapters(timeline: Option<seq<Segment>>, sources: seq<SourceMedia>, chapters: seq<Chapter>, sourceChapters: seq<Chapter>): seq<Chapter> {
    if sourceChapters == [] then chapters
    else if timeline.None? || IsIdentity(timeline.value, sources) then sourceChapters
    else if OnlySource(timeline.value).None? then chapters
    else ServedAll(timeline.value, OnlySource(timeline.value).value, sourceChapters)
  }

  /** The given chapters, if the provider has none or the timeline does not play one source; the
      provider's own on a recording played whole; else these carried over. */
  lemma {:induction false} ServedChaptersMean(timeline: Option<seq<Segment>>, sources: seq<SourceMedia>, chapters: seq<Chapter>,
                                              sourceChapters: seq<Chapter>, id: string)
    ensures var r := ServedChapters(timeline, sources, chapters, sourceChapters);
            var whole := timeline.None? || PlaysWhole(timeline.value, sources);
            && (sourceChapters != [] && whole ==> r == sourceChapters)
            && (sourceChapters != [] && !whole && SourceIds(timeline.value) == {id} ==> r == ServedAll(timeline.value, id, sourceChapters))
            && (sourceChapters == [] || (!whole && |SourceIds(timeline.value)| != 1) ==> r == chapters)
  {
    if timeline.Some? {
      IdentityMeans(timeline.value, sources);
      var only := OnlySource(timeline.value);
      if only.Some? { assert SourceIds(timeline.value) == {only.value} && |{only.value}| == 1; }
    }
  }

  // ---------------------------------------------------------------- what the remapping guarantees

  /** A remapped start is a served instant. */
  lemma {:induction false} ServedStartInRange(segs: seq<Segment>, id: string, t: real)
    requires Regular(segs)
    ensures ServedStart(segs, id, t).Some? ==> 0.0 <= ServedStart(segs, id, t).value <= EndOf(segs, 0.0)
  {
    if MapSource(segs, id, t).Some? {
      var i := SettledSegment(segs, id, t);
      LengthOf(segs, i);
      ContiguousAt(segs, 0.0, i);
    } else if NextKept(segs, id, t).Some? {
      NextKeptMeans(segs, id, t);
      var i: nat :| IsNext(segs, id, t, i) && NextSegment(segs, id, t).value == segs[i];
      ContiguousAt(segs, 0.0, i);
    }
  }

  lemma {:induction false} ServedInRange(segs: seq<Segment>, id: string, items: seq<Chapter>)
    requires Regular(segs)
    ensures forall c :: c in ServedAll(segs, id, items) ==> 0.0 <= c.start <= EndOf(segs, 0.0)
  {
    if items != [] {
      var n := |items| - 1;
      ServedInRange(segs, id, items[..n]);
      ServedStartInRange(segs, id, items[n].start);
    }
  }

  ghost predicate Ascending(items: seq<Chapter>) { forall i, j :: 0 <= i < j < |items| ==> items[i].start <= items[j].start }

  /** A chapter is lost exactly when no audio of the source is kept at or after its start. */
  lemma {:induction false} ChapterLost(segs: seq<Segment>, id: string, c: Chapter)
    ensures ServedChapter(segs, id, c).None? <==>
              (forall i: nat :: !Settles(segs, id, c.start, i)) && forall s :: s in segs ==> !IsAfter(s, id, c.start)
  {
    MapSourceSettles(segs, id, c.start);
    NextKeptMeans(segs, id, c.start);
    if i: nat :| IsNext(segs, id, c.start, i) { assert segs[i] in segs; }
  }

  /** The source's audio is kept in its own order. */
  ghost predicate InOrder(segs: seq<Segment>, id: string) {
    forall i, j :: 0 <= i < j < |segs| && OfSource(segs[i], id) && OfSource(segs[j], id) ==> segs[i].sourceEnd <= segs[j].sourceStart
  }

  /** Segment `i` is the first of the source's own that has not ended at `t`. */
  ghost predicate Receives(segs: seq<Segment>, id: string, t: real, i: nat) {
    && i < |segs| && OfSource(segs[i], id) && t <= segs[i].sourceEnd
    && (forall j :: 0 <= j < i && OfSource(segs[j], id) ==> segs[j].sourceEnd <= t)
    && (t == segs[i].sourceEnd ==> forall j :: i < j < |segs| ==> !OfSource(segs[j], id))
  }

  lemma {:induction false} Received(segs: seq<Segment>, id: string, t: real) returns (i: nat)
    requires Regular(segs) && InOrder(segs, id) && ServedStart(segs, id, t).Some?
    ensures Receives(segs, id, t, i)
    ensures ServedStart(segs, id, t) == Some(segs[i].start + if t <= segs[i].sourceStart then 0.0 else t - segs[i].sourceStart)
  {
    if MapSource(segs, id, t).Some? {
      i := SettledSegment(segs, id, t);
      forall j | 0 <= j < i && OfSource(segs[j], id) ensures segs[j].sourceEnd <= t { LengthOf(segs, j); }
      LengthOf(segs, i);
    } else {
      NextKeptMeans(segs, id, t);
      i :| IsNext(segs, id, t, i) && NextSegment(segs, id, t).value == segs[i];
      LengthOf(segs, i);
      forall j | 0 <= j < i && OfSource(segs[j], id) ensures segs[j].sourceEnd <= t {
        LengthOf(segs, j);
        assert segs[j] in segs;
        if t < segs[j].sourceEnd {
          var k := FirstPlayed(segs, id, t, j);
          SettlesMaps(segs, id, t, k);
        }
      }
    }
  }

  /** Where the audio is kept in order, so are the chapters. */
  lemma {:induction false} ServedKeepsOrder(segs: seq<Segment>, id: string, t: real, u: real)
    requires Regular(segs) && InOrder(segs, id) && t <= u
    requires ServedStart(segs, id, t).Some? && ServedStart(segs, id, u).Some?
    ensures ServedStart(segs, id, t).value <= ServedStart(segs, id, u).value
  {
    var i := Received(segs, id, t);
    var j := Received(segs, id, u);
    LengthOf(segs, i);
    LengthOf(segs, j);
    if i < j { ContiguousOrdered(segs, 0.0, i, j); }
  }

  /** The chapter comes from one of the items. */
  ghost predicate ComesFrom(segs: seq<Segment>, id: string, items: seq<Chapter>, c: Chapter) {
    exists k :: 0 <= k < |items| && ServedChapter(segs, id, items[k]) == Some(c)
  }

  lemma {:induction false} ServedComesFrom(segs: seq<Segment>, id: string, items: seq<Chapter>)
    ensures forall c :: c in ServedAll(segs, id, items) ==> ComesFrom(segs, id, items, c)
  {
    if items != [] {
      var n := |items| - 1;
      ServedComesFrom(segs, id, items[..n]);
      forall c | c in ServedAll(segs, id, items) ensures ComesFrom(segs, id, items, c) {
        if c in ServedAll(segs, id, items[..n]) {
          var k :| 0 <= k < n && ServedChapter(segs, id, items[..n][k]) == Some(c);
          assert items[..n][k] == items[k];
        } else {
          assert ServedChapter(segs, id, items[n]) == Some(c);
        }
      }
    }
  }

  /** The remapped list keeps the order of the items. */
  lemma {:induction false} RemapKeepsOrder(segs: seq<Segment>, id: string, items: seq<Chapter>)
    requires Regular(segs) && InOrder(segs, id) && Ascending(items)
    ensures Ascending(ServedAll(segs, id, items))
  {
    if items != [] {
      var n := |items| - 1;
      var front, last := ServedAll(segs, id, items[..n]), ServedChapter(segs, id, items[n]);
      RemapKeepsOrder(segs, id, items[..n]);
      ServedComesFrom(segs, id, items[..n]);
      forall i | 0 <= i < |front| && last.Some? ensures front[i].start <= last.value.start {
        assert front[i] in front;
        var k :| 0 <= k < n && ServedChapter(segs, id, items[..n][k]) == Some(front[i]);
        ServedKeepsOrder(segs, id, items[k].start, items[n].start);
      }
    }
  }
}
