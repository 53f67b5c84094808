/** Evidence accounting for extracted agenda items: the strict pass, the recovery pass over what it
    rejects, and the finalisation that numbers the kept items and bounds the dropped ones. */
module AgendaItems {
  import opened Wrappers
  import opened Evidence
  import TokenSearch
  import Text

  datatype Result<+T> = Ok(value: T) | Err(reason: Reason)

  datatype Reason =
    | OutOfRange | TooWide | Whitespace
    | EmptyQuote | Absent | Ambiguous
    | ReferenceMissing | Duplicate

  /** One agenda line: its text, its normalised text and tokens, and what the line patterns say of it. */
  datatype Line = Line(text: string, norm: string, tokens: seq<string>,
                       identifierOnly: bool, marker: bool, trailingReference: bool, blank: bool)

  /** One item of the model's response, its title and quote already stripped; `needle` and `tokens` are
      the quote's comparison text and tokens. */
  datatype RawItem = RawItem(displayRef: Option<string>, title: string, quote: string, needle: string, tokens: seq<string>,
                             lineStart: nat, lineEnd: nat)

  datatype Kind = NoReference | Formal | Descriptive

  datatype Resolution = Resolution(kind: Kind, resolved: bool, matched: seq<nat>)

  /** The agenda together with the pattern-based judgements about it, which are taken as given. */
  datatype Agenda = Agenda(
    lines: seq<Line>,
    spanText: Span -> string,                  // comparison text of the lines of a span
    referenceIn: (string, Span) -> bool,       // is the reference in the span's text?
    deriveReference: Span -> Option<string>,   // the first visible reference of a span
    resolve: (RawItem, Span) -> Resolution,    // formal-reference resolution
    outline: RawItem -> bool,                  // is the reference an outline position?
    outlineIn: (RawItem, Span) -> bool)        // ... confirmed by the agenda's own outline?

  const MAX_SPAN: nat := 200
  const ENVELOPE: nat := 4
  const FORWARD: nat := 16

  function Norms(a: Agenda): (r: seq<string>)
    ensures |r| == |a.lines| && forall i :: 0 <= i < |r| ==> r[i] == a.lines[i].norm
  {
    seq(|a.lines|, i requires 0 <= i < |a.lines| => a.lines[i].norm)
  }

  function TokenLines(a: Agenda): (r: seq<seq<string>>)
    ensures |r| == |a.lines| && forall i :: 0 <= i < |r| ==> r[i] == a.lines[i].tokens
  {
    seq(|a.lines|, i requires 0 <= i < |a.lines| => a.lines[i].tokens)
  }

  /** Resolution only names lines up to the span's end. */
  ghost predicate ResolvesWithin(a: Agenda) {
    forall it, w, k :: 0 <= k < |a.resolve(it, w).matched| ==> 1 <= a.resolve(it, w).matched[k] <= w.end
  }

  /** Normalised quotes are trimmed, and resolution is as it should be. */
  ghost predicate WellFormed(a: Agenda, items: seq<RawItem>) {
    && (forall i :: 0 <= i < |items| ==> items[i].lineStart >= 1 && items[i].lineEnd >= 1 && Trimmed(items[i].needle))
    && ResolvesWithin(a)
  }

  // ---------------------------------------------------------------- the strict evidence span

  ghost predicate Carries(a: Agenda, needle: string, w: Span) {
    1 <= w.start <= w.end <= |a.lines| && Contains(a.spanText(w), needle)
  }

  ghost predicate Nearby(a: Agenda, declared: Span, needle: string, w: Span) {
    Carries(a, needle, w) && declared.start - 4 <= w.start && w.end <= declared.end + 4
  }

  ghost predicate Nearest(a: Agenda, declared: Span, needle: string, w: Span) {
    Nearby(a, declared, needle, w) && forall v :: Nearby(a, declared, needle, v) ==> w.end - w.start <= v.end - v.start
  }

  /** `_evidence_span`: the declared span if it carries the quote, else the one nearest window that does. */
  ghost predicate EvidenceAt(a: Agenda, declared: Span, needle: string, r: Result<Span>) {
    if needle == "" then r == Err(EmptyQuote)
    else if Carries(a, needle, declared) then r == Ok(declared)
    else match r
      case Ok(w) => Nearest(a, declared, needle, w) && forall v :: Nearest(a, declared, needle, v) ==> v == w
      case Err(reason) =>
        if reason == Absent then forall v :: !Nearby(a, declared, needle, v)
        else reason == Ambiguous && exists v, w :: v != w && Nearest(a, declared, needle, v) && Nearest(a, declared, needle, w)
  }

  method Includes(text: string, needle: string) returns (b: bool)
    ensures b <==> Contains(text, needle)
  {
    var found := Find(text, needle, 0);
    return found.Some?;
  }

  /** The windows the nested loops visit before position `(start, end)`. */
  predicate Before(w: Span, start: int, end: int) { w.start < start || (w.start == start && w.end < end) }

  method NearbyWindows(a: Agenda, declared: Span, needle: string) returns (found: seq<Span>)
    requires 1 <= declared.start <= declared.end <= |a.lines|
    ensures forall w :: w in found <==> Nearby(a, declared, needle, w)
  {
    var lower := Max(1, declared.start - ENVELOPE);
    var upper := Min(|a.lines|, declared.end + ENVELOPE);
    found := [];
    for start := lower to upper + 1
      invariant forall w :: w in found <==> Nearby(a, declared, needle, w) && w.start < start
    {
      for end := start to upper + 1
        invariant forall w :: w in found <==> Nearby(a, declared, needle, w) && Before(w, start, end)
      {
        var w := Span(start, end);
        var carries := Includes(a.spanText(w), needle);
        if carries { found := found + [w]; }
      }
    }
  }

  method EvidenceSpan(a: Agenda, declared: Span, needle: string) returns (r: Result<Span>)
    requires 1 <= declared.start <= declared.end <= |a.lines|
    ensures EvidenceAt(a, declared, needle, r)
  {
    if needle == "" { return Err(EmptyQuote); }
    var carries := Includes(a.spanText(declared), needle);
    if carries { return Ok(declared); }
    var found := NearbyWindows(a, declared, needle);
    if found == [] {
      forall v ensures !Nearby(a, declared, needle, v) { assert v !in found; }
      return Err(Absent);
    }
    var tightest := TightestSpans(found);
    forall w ensures w in tightest <==> Nearest(a, declared, needle, w) {
      if w in tightest { assert w in found; }
    }
    if |tightest| == 1 {
      assert forall v :: v in tightest ==> v == tightest[0];
      return Ok(tightest[0]);
    }
    assert tightest != [] by {
      var m := LeastOf(found);
      assert Nearest(a, declared, needle, m);
    }
    assert tightest[0] in tightest && tightest[1] in tightest && tightest[0] != tightest[1];
    return Err(Ambiguous);
  }

  lemma {:induction false} LeastOf(spans: seq<Span>) returns (m: Span)
    requires spans != []
    ensures m in spans && forall v :: v in spans ==> Width(m) <= Width(v)
  {
    var n := |spans| - 1;
    m := spans[n];
    if n > 0 {
      var front := LeastOf(spans[..n]);
      if Width(front) < Width(m) { m := front; }
      assert forall v :: v in spans ==> v == spans[n] || v in spans[..n];
    }
  }

  /** Absorb one identifier-only line right above the span. */
  function ExpandPrefix(a: Agenda, w: Span): Span
    requires 1 <= w.start <= |a.lines|
  {
    if w.start > 1 && a.lines[w.start - 2].identifierOnly then Span(w.start - 1, w.end) else w
  }

  datatype Key = Key(start: nat, end: nat, needle: string)

  datatype Accepted = Accepted(displayRef: Option<string>, title: string, quote: string, span: Span, key: Key)

  /** The strict verdict on one item, duplicates aside. */
  ghost predicate Strict(a: Agenda, item: RawItem, r: Result<Accepted>) {
    var declared := Span(item.lineStart, item.lineEnd);
    if item.lineEnd < item.lineStart || item.lineEnd > |a.lines| then r == Err(OutOfRange)
    else if declared.end - declared.start + 1 > 200 then r == Err(TooWide)
    else if item.title == "" || item.quote == "" then r == Err(Whitespace)
    else exists e ::
      && EvidenceAt(a, declared, item.needle, e)
      && (e.Ok? ==> 1 <= e.value.start <= e.value.end <= |a.lines|)
      && r == if e.Err? then Err(e.reason) else Referenced(a, item, ExpandPrefix(a, e.value))
  }

  function Referenced(a: Agenda, item: RawItem, w: Span): Result<Accepted> {
    if item.displayRef.Some? && !a.referenceIn(item.displayRef.value, w) then Err(ReferenceMissing)
    else
      var ref := if item.displayRef.Some? then item.displayRef else a.deriveReference(w);
      Ok(Accepted(ref, item.title, item.quote, w, Key(w.start, w.end, item.needle)))
  }

  method CheckItem(a: Agenda, item: RawItem) returns (r: Result<Accepted>)
    requires item.lineStart >= 1
    ensures Strict(a, item, r)
  {
    if item.lineEnd < item.lineStart || item.lineEnd > |a.lines| { return Err(OutOfRange); }
    var declared := Span(item.lineStart, item.lineEnd);
    if Width(declared) + 1 > MAX_SPAN { return Err(TooWide); }
    if item.title == "" || item.quote == "" { return Err(Whitespace); }
    var e := EvidenceSpan(a, declared, item.needle);
    if e.Err? { return Err(e.reason); }
    return Referenced(a, item, ExpandPrefix(a, e.value));
  }

  // ---------------------------------------------------------------- the strict pass

  /** What became of an item in the strict pass. */
  datatype Fate = Keep(item: Accepted) | Reject(reason: Reason)

  datatype Rejected = Rejected(index: nat, reason: Reason)

  function KeysOf(fates: seq<Fate>): set<Key> { set f | f in fates && f.Keep? :: f.item.key }

  function Kept(fates: seq<Fate>): seq<Accepted> {
    if fates == [] then []
    else Kept(fates[..|fates| - 1]) + if fates[|fates| - 1].Keep? then [fates[|fates| - 1].item] else []
  }

  function Rejections(fates: seq<Fate>): seq<Rejected> {
    if fates == [] then []
    else
      var n := |fates| - 1;
      Rejections(fates[..n]) + if fates[n].Reject? then [Rejected(n, fates[n].reason)] else []
  }

  /** Each item is judged on its own; of several with one key, the first is kept. */
  ghost predicate Judged(a: Agenda, item: RawItem, seen: set<Key>, f: Fate) {
    exists r ::
      && Strict(a, item, r)
      && f == match r
           case Err(reason) => Reject(reason)
           case Ok(kept) => if kept.key in seen then Reject(Duplicate) else Keep(kept)
  }

  ghost predicate Assessed(a: Agenda, items: seq<RawItem>, fates: seq<Fate>) {
    |fates| <= |items| && forall i :: 0 <= i < |fates| ==> Judged(a, items[i], KeysOf(fates[..i]), fates[i])
  }

  lemma {:induction false} KeysOfSnoc(fates: seq<Fate>, f: Fate)
    ensures KeysOf(fates + [f]) == KeysOf(fates) + if f.Keep? then {f.item.key} else {}
  {}

  lemma {:induction false} FateSnoc(fates: seq<Fate>, f: Fate)
    ensures Kept(fates + [f]) == Kept(fates) + if f.Keep? then [f.item] else []
    ensures Rejections(fates + [f]) == Rejections(fates) + if f.Reject? then [Rejected(|fates|, f.reason)] else []
  {
    assert (fates + [f])[..|fates|] == fates;
  }

  lemma {:induction false} AssessedSnoc(a: Agenda, items: seq<RawItem>, fates: seq<Fate>, f: Fate)
    requires Assessed(a, items, fates) && |fates| < |items| && Judged(a, items[|fates|], KeysOf(fates), f)
    ensures Assessed(a, items, fates + [f])
  {
    var next := fates + [f];
    forall i | 0 <= i < |next| ensures Judged(a, items[i], KeysOf(next[..i]), next[i]) {
      assert next[..i] == fates[..i];
      if i == |fates| { assert fates[..i] == fates; }
    }
  }

  /** `assess_agenda_item_extractor_response` */
  method Assess(a: Agenda, items: seq<RawItem>) returns (kept: seq<Accepted>, rejected: seq<Rejected>, ghost fates: seq<Fate>)
    requires WellFormed(a, items)
    ensures |fates| == |items| && Assessed(a, items, fates)
    ensures kept == Kept(fates) && rejected == Rejections(fates)
  {
    kept, rejected, fates := [], [], [];
    var seen: set<Key> := {};
    for index := 0 to |items|
      invariant |fates| == index && Assessed(a, items, fates)
      invariant kept == Kept(fates) && rejected == Rejections(fates) && seen == KeysOf(fates)
    {
      var r := CheckItem(a, items[index]);
      ghost var f: Fate;
      if r.Err? {
        rejected := rejected + [Rejected(index, r.reason)];
        f := Reject(r.reason);
      } else if r.value.key in seen {
        rejected := rejected + [Rejected(index, Duplicate)];
        f := Reject(Duplicate);
      } else {
        seen := seen + {r.value.key};
        kept := kept + [r.value];
        f := Keep(r.value);
      }
      AssessedSnoc(a, items, fates, f);
      KeysOfSnoc(fates, f);
      FateSnoc(fates, f);
      fates := fates + [f];
    }
  }

  // ---------------------------------------------------------------- recovery of one item

  datatype Recovered = Recovered(index: nat, displayRef: Option<string>, title: string, quote: string,
                                 sourceEvidence: string, span: Span, key: Key)

  ghost predicate Distinct(spans: seq<Span>) { forall i, j :: 0 <= i < j < |spans| ==> spans[i] != spans[j] }

  /** `spans` lists the tightest verbatim windows of the quote in the whole agenda. */
  ghost predicate ListsExact(a: Agenda, item: RawItem, spans: seq<Span>) {
    Distinct(spans) && forall w :: w in spans <==> Minimal(Norms(a), item.needle, w)
  }

  /** `spans` lists the chosen in-order windows of the quote near the declared lines. */
  ghost predicate ListsInOrder(a: Agenda, item: RawItem, declared: Span, spans: seq<Span>) {
    && Distinct(spans)
    && (|item.tokens| < 6 ==> spans == [])
    && (|item.tokens| >= 6 ==>
          forall w :: w in spans <==> TokenSearch.Nearby(TokenLines(a), item.tokens, declared.start, declared.end, w))
  }

  function Only(spans: seq<Span>): Option<Span> { if |spans| == 1 then Some(spans[0]) else None }

  function Clamped(a: Agenda, item: RawItem): (int, int) {
    (Max(1, item.lineStart), Min(|a.lines|, item.lineEnd))
  }

  /** The span the source itself gives the quote: its one tightest verbatim window, or, where it is
      nowhere verbatim, its one in-order window near the declared lines. */
  ghost predicate Located(a: Agenda, item: RawItem, r: Option<Span>) {
    var start := if item.lineStart >= 1 then item.lineStart else 1;
    var end := if item.lineEnd <= |a.lines| then item.lineEnd else |a.lines|;
    if start > end || item.needle == "" then r == None
    else exists exact :: ListsExact(a, item, exact) && LocatedFrom(a, item, exact, r)
  }

  ghost predicate LocatedFrom(a: Agenda, item: RawItem, exact: seq<Span>, r: Option<Span>) {
    var start := if item.lineStart >= 1 then item.lineStart else 1;
    var end := if item.lineEnd <= |a.lines| then item.lineEnd else |a.lines|;
    if exact != [] then r == Only(exact)
    else if start > end || end - start + 1 > 200 then r == None
    else exists inOrder :: ListsInOrder(a, item, Span(start, end), inOrder) && r == Only(inOrder)
  }

  method Locate(a: Agenda, item: RawItem) returns (r: Option<Span>)
    requires Trimmed(item.needle)
    ensures Located(a, item, r)
  {
    var (start, end) := Clamped(a, item);
    if start > end || item.needle == "" { return None; }
    var exact := ExactWindows(a, item);
    r := Only(exact);
    if exact == [] { r := LocateInOrder(a, item, start, end); }
  }

  method ExactWindows(a: Agenda, item: RawItem) returns (exact: seq<Span>)
    requires Trimmed(item.needle) && item.needle != ""
    ensures ListsExact(a, item, exact)
  {
    exact := TightestExactSpans(Norms(a), item.needle);
  }

  method LocateInOrder(a: Agenda, item: RawItem, start: int, end: int) returns (r: Option<Span>)
    requires (start, end) == Clamped(a, item) && start <= end
    ensures LocatedFrom(a, item, [], r)
  {
    if end - start + 1 > MAX_SPAN { return None; }
    var inOrder := InOrderWindows(a, item, Span(start, end));
    return Only(inOrder);
  }

  method InOrderWindows(a: Agenda, item: RawItem, declared: Span) returns (spans: seq<Span>)
    ensures ListsInOrder(a, item, declared, spans)
  {
    spans := TokenSearch.SubsequenceSpans(TokenLines(a), item.tokens, declared.start, declared.end);
  }

  /** The last line of the paragraph's trailing formal reference, if one follows before a blank line. */
  function TrailingEnd(a: Agenda, end: nat, at: nat, upper: nat): nat
    requires at <= upper + 1 <= |a.lines| + 1 && at > 0
    decreases upper + 1 - at
  {
    if at > upper then end
    else if a.lines[at - 1].trailingReference then at
    else if a.lines[at - 1].blank then end
    else TrailingEnd(a, end, at + 1, upper)
  }

  /** Line `at` is a formal reference near enough, and no blank line parts it from the span's end. */
  predicate Continues(a: Agenda, end: nat, at: nat) {
    && end < at <= Min(|a.lines|, end + 16)
    && a.lines[at - 1].trailingReference
    && forall k :: end <= k < at - 1 ==> !a.lines[k].blank
  }

  /** The first reference line the paragraph continues to, or the span's own end. */
  ghost predicate EndsParagraph(a: Agenda, end: nat, r: nat) {
    && (r == end ==> forall at :: !Continues(a, end, at))
    && (r != end ==> Continues(a, end, r) && forall at :: end < at < r ==> !Continues(a, end, at))
  }

  lemma {:induction false} TrailingEndMeans(a: Agenda, end: nat, at: nat, r: nat)
    requires 1 <= end < at <= Min(|a.lines|, end + FORWARD) + 1 && end <= |a.lines|
    requires forall k :: end <= k < at - 1 ==> !a.lines[k].blank && !a.lines[k].trailingReference
    requires EndsParagraph(a, end, r)
    ensures r == TrailingEnd(a, end, at, Min(|a.lines|, end + FORWARD))
    decreases |a.lines| + 1 - at
  {
    var upper := Min(|a.lines|, end + FORWARD);
    if at <= upper && a.lines[at - 1].trailingReference {
      assert Continues(a, end, at);
    } else if at <= upper && !a.lines[at - 1].blank {
      TrailingEndMeans(a, end, at + 1, r);
    }
  }

  /** `_recovery_expand_trailing_reference` */
  method ExpandTrailing(a: Agenda, end: nat) returns (r: nat)
    requires 1 <= end <= |a.lines|
    ensures EndsParagraph(a, end, r)
  {
    var upper := Min(|a.lines|, end + FORWARD);
    var candidate := end + 1;
    while candidate <= upper
      invariant end < candidate <= upper + 1
      invariant forall k :: end <= k < candidate - 1 ==> !a.lines[k].blank && !a.lines[k].trailingReference
    {
      if a.lines[candidate - 1].trailingReference { return candidate; }
      if a.lines[candidate - 1].blank { return end; }
      candidate := candidate + 1;
    }
    return end;
  }

  function PrefixStart(a: Agenda, start: nat): nat
    requires start <= |a.lines|
  {
    if start > 1 && a.lines[start - 2].marker then PrefixStart(a, start - 1) else start
  }

  /** The lines from `r` up to `start` are the maximal run of identifier lines right above `start`. */
  predicate MarkersAbove(a: Agenda, start: nat, r: nat)
    requires start <= |a.lines|
  {
    && (start > 0 ==> 0 < r) && r <= start
    && (forall k :: r - 1 <= k < start - 1 ==> a.lines[k].marker)
    && (r > 1 ==> !a.lines[r - 2].marker)
  }

  lemma {:induction false} PrefixStartMeans(a: Agenda, start: nat, r: nat)
    requires start <= |a.lines| && MarkersAbove(a, start, r)
    ensures r == PrefixStart(a, start)
  {
    if start > 1 && a.lines[start - 2].marker { PrefixStartMeans(a, start - 1, r); }
  }

  /** `_recovery_identifier_prefix_start` */
  method IdentifierPrefix(a: Agenda, start: nat) returns (r: nat)
    requires start <= |a.lines|
    ensures MarkersAbove(a, start, r)
  {
    r := start;
    while r > 1 && a.lines[r - 2].marker
      invariant r <= start && (start > 0 ==> r > 0) && forall k :: r - 1 <= k < start - 1 ==> a.lines[k].marker
    {
      r := r - 1;
    }
  }

  function Least(start: nat, matched: seq<nat>): nat {
    if matched == [] then start
    else
      var m := Least(start, matched[..|matched| - 1]);
      if matched[|matched| - 1] < m then matched[|matched| - 1] else m
  }

  function JoinText(lines: seq<Line>): string {
    if lines == [] then ""
    else if |lines| == 1 then lines[0].text
    else JoinText(lines[..|lines| - 1]) + "\n" + lines[|lines| - 1].text
  }

  function EvidenceText(a: Agenda, w: Span): string
    requires 1 <= w.start <= w.end <= |a.lines|
  { JoinText(a.lines[w.start - 1..w.end]) }

  /** No line holds a line break: the lines are those the agenda was split into. */
  ghost predicate SingleLined(a: Agenda) { forall k :: 0 <= k < |a.lines| ==> '\n' !in a.lines[k].text }

  /** The text's lines are those of the span, in order. */
  ghost predicate IsSource(a: Agenda, w: Span, text: string) {
    var lines := Text.SplitLines(text);
    && 1 <= w.start <= w.end <= |a.lines| && |lines| == w.end - w.start + 1
    && forall k :: 0 <= k < |lines| ==> lines[k] == a.lines[w.start - 1 + k].text
  }

  /** The text is the span's, without the whitespace around it. */
  ghost predicate IsTrimmedSource(a: Agenda, w: Span, text: string) {
    && Text.Bare(text)
    && exists before, after :: Text.Blank(before) && Text.Blank(after) && IsSource(a, w, before + text + after)
  }

  ghost function TextsOf(lines: seq<Line>): seq<string> { seq(|lines|, i requires 0 <= i < |lines| => lines[i].text) }

  lemma {:induction false} JoinTextJoins(lines: seq<Line>)
    ensures JoinText(lines) == Text.JoinLines(TextsOf(lines))
  {
    if |lines| > 1 {
      var n := |lines| - 1;
      JoinTextJoins(lines[..n]);
      Text.JoinSnoc(TextsOf(lines[..n]), lines[n].text);
      assert TextsOf(lines) == TextsOf(lines[..n]) + [lines[n].text];
    }
  }

  /** Evidence is the source text of its span. */
  lemma {:induction false} EvidenceIsSource(a: Agenda, w: Span)
    requires 1 <= w.start <= w.end <= |a.lines| && SingleLined(a)
    ensures IsSource(a, w, EvidenceText(a, w)) && IsTrimmedSource(a, w, Text.Strip(EvidenceText(a, w)))
  {
    var lines := a.lines[w.start - 1..w.end];
    JoinTextJoins(lines);
    Text.SplitJoin(TextsOf(lines));
    var before, after := Text.StripParts(EvidenceText(a, w));
    assert IsSource(a, w, before + Text.Strip(EvidenceText(a, w)) + after);
  }

  /** Does the hierarchical match end on this item's own marker? */
  predicate OwnMarker(w: Span, res: Resolution) {
    res.matched == [] || w.start - 1 <= res.matched[|res.matched| - 1] <= w.end
  }

  /** The reference's fate for a located span: its effective resolution, or `None` to give up. */
  function ReferenceFor(a: Agenda, item: RawItem, w: Span): Option<Resolution> {
    var res := a.resolve(item, w);
    if res.resolved && OwnMarker(w, res) then Some(res)
    else if a.outline(item) then Some(Resolution(res.kind, false, if res.resolved then [] else res.matched))
    else None
  }

  function DisplayRef(a: Agenda, item: RawItem, located: Span, res: Resolution, w: Span): Option<string> {
    if !res.resolved && !a.outlineIn(item, located) then a.deriveReference(w)
    else if res.kind == Formal then item.displayRef
    else None
  }

  /** The new start: the least line the resolution names, or the top of the identifier lines above. */
  function StartFor(a: Agenda, start: nat, matched: seq<nat>): nat
    requires start <= |a.lines|
  {
    if matched != [] then Least(start, matched) else PrefixStart(a, start)
  }

  function RecoveredAt(a: Agenda, item: RawItem, index: nat, located: Span, res: Resolution, full: Span): Recovered
    requires 1 <= full.start <= full.end <= |a.lines|
  {
    Recovered(index, DisplayRef(a, item, located, res, full), item.title, item.quote, EvidenceText(a, full), full,
              Key(full.start, full.end, item.needle))
  }

  /** The located span with the lines up to the reference that ends its paragraph. */
  ghost function Widened(a: Agenda, located: Span): (w: Span)
    requires 1 <= located.start <= located.end <= |a.lines|
    ensures w.start == located.start && located.end <= w.end <= |a.lines|
  {
    TrailingBounds(a, located.end, located.end + 1, Min(|a.lines|, located.end + FORWARD));
    Span(located.start, TrailingEnd(a, located.end, located.end + 1, Min(|a.lines|, located.end + FORWARD)))
  }

  /** What recovery makes of a located span. */
  ghost function Recovery(a: Agenda, item: RawItem, index: nat, located: Span): Option<Recovered>
    requires 1 <= located.start <= located.end <= |a.lines|
    requires ResolvesWithin(a)
  {
    var w := Widened(a, located);
    match ReferenceFor(a, item, w)
    case None => None
    case Some(res) =>
      StartBounds(a, w.start, res.matched);
      Some(RecoveredAt(a, item, index, w, res, Span(StartFor(a, w.start, res.matched), w.end)))
  }

  lemma {:induction false} TrailingBounds(a: Agenda, end: nat, at: nat, upper: nat)
    requires at <= upper + 1 <= |a.lines| + 1 && at > 0 && end < at && end <= |a.lines|
    ensures end <= TrailingEnd(a, end, at, upper) <= |a.lines|
    decreases upper + 1 - at
  {
    if at <= upper { TrailingBounds(a, end, at + 1, upper); }
  }

  lemma {:induction false} StartBounds(a: Agenda, start: nat, matched: seq<nat>)
    requires 1 <= start <= |a.lines| && forall k :: 0 <= k < |matched| ==> 1 <= matched[k]
    ensures 1 <= Least(start, matched) <= start
    ensures 1 <= PrefixStart(a, start) <= start
    decreases |matched|, start
  {
    if matched != [] { StartBounds(a, start, matched[..|matched| - 1]); }
    else if start > 1 { StartBounds(a, start - 1, []); }
  }

  ghost predicate Recovers(a: Agenda, item: RawItem, index: nat, r: Option<Recovered>)
    requires ResolvesWithin(a)
  {
    exists located ::
      && Located(a, item, located)
      && (located.Some? ==> 1 <= located.value.start <= located.value.end <= |a.lines|)
      && r == if located.None? then None else Recovery(a, item, index, located.value)
  }

  method RecoverItem(a: Agenda, item: RawItem, index: nat) returns (r: Option<Recovered>)
    requires Trimmed(item.needle)
    requires ResolvesWithin(a)
    ensures Recovers(a, item, index, r)
  {
    var located := Locate(a, item);
    if located.None? { return None; }
    LocatedBounds(a, item, located.value);
    r := RecoverAt(a, item, index, located.value);
  }

  method RecoverAt(a: Agenda, item: RawItem, index: nat, located: Span) returns (r: Option<Recovered>)
    requires 1 <= located.start <= located.end <= |a.lines| && ResolvesWithin(a)
    ensures r == Recovery(a, item, index, located)
  {
    var end := ExpandTrailing(a, located.end);
    var w := Span(located.start, end);
    assert w == Widened(a, located) by { TrailingEndMeans(a, located.end, located.end + 1, end); }
    var res := ReferenceFor(a, item, w);
    if res.None? { return None; }
    var start := ExpandStart(a, w.start, res.value.matched);
    StartBounds(a, w.start, res.value.matched);
    return Some(RecoveredAt(a, item, index, w, res.value, Span(start, w.end)));
  }

  method ExpandStart(a: Agenda, start: nat, matched: seq<nat>) returns (r: nat)
    requires 1 <= start <= |a.lines|
    ensures r == StartFor(a, start, matched)
  {
    if matched != [] { return Least(start, matched); }
    r := IdentifierPrefix(a, start);
    PrefixStartMeans(a, start, r);
  }

  lemma {:induction false} LocatedBounds(a: Agenda, item: RawItem, w: Span)
    requires Located(a, item, Some(w))
    ensures 1 <= w.start <= w.end <= |a.lines|
  {
    LocatedIsGrounded(a, item, w);
  }

  /** A located span is grounded in the source: it is the one tightest window carrying the quote
      verbatim, or no window carries it and the span's own tokens hold the quote's tokens in order. */
  lemma {:induction false} LocatedIsGrounded(a: Agenda, item: RawItem, w: Span)
    requires Located(a, item, Some(w))
    ensures 1 <= w.start <= w.end <= |a.lines|
    ensures || (Minimal(Norms(a), item.needle, w) && forall v :: Minimal(Norms(a), item.needle, v) ==> v == w)
            || ((forall v :: !Minimal(Norms(a), item.needle, v)) &&
                exists extra :: TokenSearch.Matches(TokenLines(a), item.tokens, w, extra) && TokenSearch.Bearable(extra, |item.tokens|))
  {
    var exact :| ListsExact(a, item, exact) && LocatedFrom(a, item, exact, Some(w));
    if exact != [] {
      assert w in exact;
    } else {
      var (start, end) := Clamped(a, item);
      var inOrder :| ListsInOrder(a, item, Span(start, end), inOrder) && Some(w) == Only(inOrder);
      assert w in inOrder;
    }
  }

  // ---------------------------------------------------------------- the recovery pass

  datatype Outcome = StrictlyKept(item: Accepted) | Salvaged(item': Recovered) | Lost(reason: Reason)

  function SalvagedKeys(outcomes: seq<Outcome>): set<Key> { set o | o in outcomes && o.Salvaged? :: o.item'.key }

  function SalvagedOf(outcomes: seq<Outcome>): seq<Recovered> {
    if outcomes == [] then []
    else
      var n := |outcomes| - 1;
      SalvagedOf(outcomes[..n]) + if outcomes[n].Salvaged? then [outcomes[n].item'] else []
  }

  /** The positions of the salvaged items. */
  function LiftedOf(outcomes: seq<Outcome>): set<nat> { set i: nat | i < |outcomes| && outcomes[i].Salvaged? }

  function LostOf(outcomes: seq<Outcome>): seq<Rejected> {
    if outcomes == [] then []
    else
      var n := |outcomes| - 1;
      LostOf(outcomes[..n]) + if outcomes[n].Lost? then [Rejected(n, outcomes[n].reason)] else []
  }

  function StrictOf(outcomes: seq<Outcome>): seq<Accepted> {
    if outcomes == [] then []
    else
      var n := |outcomes| - 1;
      StrictOf(outcomes[..n]) + if outcomes[n].StrictlyKept? then [outcomes[n].item] else []
  }

  lemma {:induction false} OutcomeSnoc(outcomes: seq<Outcome>, o: Outcome)
    ensures SalvagedOf(outcomes + [o]) == SalvagedOf(outcomes) + if o.Salvaged? then [o.item'] else []
    ensures LostOf(outcomes + [o]) == LostOf(outcomes) + if o.Lost? then [Rejected(|outcomes|, o.reason)] else []
    ensures StrictOf(outcomes + [o]) == StrictOf(outcomes) + if o.StrictlyKept? then [o.item] else []
  {
    assert (outcomes + [o])[..|outcomes|] == outcomes;
  }

  lemma {:induction false} LiftedSnoc(outcomes: seq<Outcome>, o: Outcome)
    ensures LiftedOf(outcomes + [o]) == LiftedOf(outcomes) + if o.Salvaged? then {|outcomes|} else {}
  {
    var next := outcomes + [o];
    forall i: nat ensures i in LiftedOf(next) <==> i in LiftedOf(outcomes) || (o.Salvaged? && i == |outcomes|) {
      if i < |outcomes| { assert next[i] == outcomes[i]; }
    }
  }

  lemma {:induction false} SalvagedKeysSnoc(outcomes: seq<Outcome>, o: Outcome)
    ensures SalvagedKeys(outcomes + [o]) == SalvagedKeys(outcomes) + if o.Salvaged? then {o.item'.key} else {}
  {}

  /** What the recovery pass makes of item `i`: strict items stand; a rejected item is salvaged if its
      evidence can be located and no kept item has the same key. */
  ghost predicate Settled(a: Agenda, items: seq<RawItem>, fates: seq<Fate>, taken: set<Key>, i: nat, o: Outcome)
    requires i < |items| == |fates| && WellFormed(a, items)
  {
    match fates[i]
    case Keep(x) => o == StrictlyKept(x)
    case Reject(reason) => exists r ::
      && Recovers(a, items[i], i, r)
      && o == if r.Some? && r.value.key !in KeysOf(fates) && r.value.key !in taken then Salvaged(r.value) else Lost(reason)
  }

  ghost predicate Recovering(a: Agenda, items: seq<RawItem>, fates: seq<Fate>, outcomes: seq<Outcome>)
    requires |items| == |fates| && WellFormed(a, items)
  {
    |outcomes| <= |items| && forall i :: 0 <= i < |outcomes| ==> Settled(a, items, fates, SalvagedKeys(outcomes[..i]), i, outcomes[i])
  }

  /** `tuple(item for item in rejected if item.index not in lifted)` */
  function Remaining(rejected: seq<Rejected>, lifted: set<nat>): seq<Rejected> {
    if rejected == [] then []
    else
      var n := |rejected| - 1;
      Remaining(rejected[..n], lifted) + if rejected[n].index !in lifted then [rejected[n]] else []
  }

  method Unlifted(rejected: seq<Rejected>, lifted: set<nat>) returns (r: seq<Rejected>)
    ensures r == Remaining(rejected, lifted)
  {
    r := [];
    for k := 0 to |rejected|
      invariant r == Remaining(rejected[..k], lifted)
    {
      assert rejected[..k + 1][..k] == rejected[..k];
      if rejected[k].index !in lifted { r := r + [rejected[k]]; }
    }
    assert rejected[..|rejected|] == rejected;
  }

  lemma {:induction false} RemainingIsLost(fates: seq<Fate>, outcomes: seq<Outcome>, lifted: set<nat>)
    requires |outcomes| == |fates|
    requires forall i :: 0 <= i < |fates| ==> (i in lifted <==> outcomes[i].Salvaged?)
    requires forall i :: 0 <= i < |fates| ==> (outcomes[i].StrictlyKept? <==> fates[i].Keep?) && (outcomes[i].Lost? ==> outcomes[i].reason == fates[i].reason)
    ensures Remaining(Rejections(fates), lifted) == LostOf(outcomes)
  {
    if fates != [] {
      var n := |fates| - 1;
      RemainingIsLost(fates[..n], outcomes[..n], lifted);
      var front := Rejections(fates[..n]);
      if fates[n].Reject? {
        var last := Rejected(n, fates[n].reason);
        assert (front + [last])[..|front|] == front;
        assert Remaining(front + [last], lifted) == Remaining(front, lifted) + if n !in lifted then [last] else [];
      } else {
        assert Rejections(fates) == front;
      }
    }
  }

  lemma {:induction false} RejectionsIndex(fates: seq<Fate>, i: nat)
    ensures (exists r :: r in Rejections(fates) && r.index == i) <==> i < |fates| && fates[i].Reject?
  {
    if fates != [] {
      var n := |fates| - 1;
      RejectionsIndex(fates[..n], i);
      if i == n && fates[n].Reject? { assert Rejected(n, fates[n].reason) in Rejections(fates); }
      if i < n && fates[i].Reject? {
        var r :| r in Rejections(fates[..n]) && r.index == i;
        assert r in Rejections(fates);
      }
    }
  }

  /** `{item.index: item for item in rejected}`, of which only the keys are used. */
  method RejectedIndices(rejected: seq<Rejected>, ghost fates: seq<Fate>) returns (m: set<nat>)
    requires rejected == Rejections(fates)
    ensures forall i: nat :: i in m <==> i < |fates| && fates[i].Reject?
  {
    m := set r | r in rejected :: r.index;
    forall i: nat ensures i in m <==> i < |fates| && fates[i].Reject? { RejectionsIndex(fates, i); }
  }

  lemma {:induction false} KeptKeys(fates: seq<Fate>)
    ensures (set x | x in Kept(fates) :: x.key) == KeysOf(fates)
  {
    if fates != [] {
      var n := |fates| - 1;
      KeptKeys(fates[..n]);
      KeysOfSnoc(fates[..n], fates[n]);
      assert fates[..n] + [fates[n]] == fates;
      var front := Kept(fates[..n]);
      if fates[n].Keep? {
        assert (set x | x in front + [fates[n].item] :: x.key) == (set x | x in front :: x.key) + {fates[n].item.key};
      }
    }
  }

  method TryRecover(a: Agenda, items: seq<RawItem>, ghost fates: seq<Fate>, index: nat, accepted: set<Key>, recovered: set<Key>)
    returns (r: Option<Recovered>)
    requires index < |items| == |fates| && WellFormed(a, items) && fates[index].Reject? && accepted == KeysOf(fates)
    ensures r.Some? ==> Settled(a, items, fates, recovered, index, Salvaged(r.value))
    ensures r.None? ==> Settled(a, items, fates, recovered, index, Lost(fates[index].reason))
  {
    r := RecoverItem(a, items[index], index);
    if r.Some? && (r.value.key in accepted || r.value.key in recovered) { r := None; }
  }

  lemma {:induction false} RecoveringSnoc(a: Agenda, items: seq<RawItem>, fates: seq<Fate>, outcomes: seq<Outcome>, o: Outcome)
    requires |items| == |fates| && WellFormed(a, items) && |outcomes| < |items|
    requires Recovering(a, items, fates, outcomes) && Settled(a, items, fates, SalvagedKeys(outcomes), |outcomes|, o)
    ensures Recovering(a, items, fates, outcomes + [o])
  {
    var next := outcomes + [o];
    forall i | 0 <= i < |next| ensures Settled(a, items, fates, SalvagedKeys(next[..i]), i, next[i]) {
      assert next[..i] == outcomes[..i];
      if i == |outcomes| { assert outcomes[..i] == outcomes; }
    }
  }

  /** One turn of the recovery loop: only rejected items are tried. */
  method Attempt(a: Agenda, items: seq<RawItem>, ghost fates: seq<Fate>, ghost outcomes: seq<Outcome>, index: nat, rejected: bool,
                 accepted: set<Key>, recovered: set<Key>)
    returns (r: Option<Recovered>, ghost o: Outcome)
    requires index == |outcomes| < |items| == |fates| && WellFormed(a, items) && Recovering(a, items, fates, outcomes)
    requires (rejected <==> fates[index].Reject?) && accepted == KeysOf(fates) && recovered == SalvagedKeys(outcomes)
    ensures r == if o.Salvaged? then Some(o.item') else None
    ensures Recovering(a, items, fates, outcomes + [o])
    ensures SalvagedOf(outcomes + [o]) == SalvagedOf(outcomes) + if o.Salvaged? then [o.item'] else []
    ensures LiftedOf(outcomes + [o]) == LiftedOf(outcomes) + if o.Salvaged? then {|outcomes|} else {}
    ensures SalvagedKeys(outcomes + [o]) == SalvagedKeys(outcomes) + if o.Salvaged? then {o.item'.key} else {}
  {
    r, o := None, if rejected then Lost(fates[index].reason) else StrictlyKept(fates[index].item);
    if rejected {
      r := TryRecover(a, items, fates, index, accepted, recovered);
      if r.Some? { o := Salvaged(r.value); }
    }
    Progress(a, items, fates, outcomes, o);
  }

  /** `recover_agenda_item_extractor_response` */
  method Recover(a: Agenda, items: seq<RawItem>)
    returns (kept: seq<Accepted>, recovered: seq<Recovered>, unrecovered: seq<Rejected>, ghost fates: seq<Fate>, ghost outcomes: seq<Outcome>)
    requires WellFormed(a, items)
    ensures |fates| == |outcomes| == |items| && Assessed(a, items, fates) && Recovering(a, items, fates, outcomes)
    ensures kept == StrictOf(outcomes) && recovered == SalvagedOf(outcomes) && unrecovered == LostOf(outcomes)
  {
    var rejected;
    kept, rejected, fates := Assess(a, items);
    var rejectedIndices := RejectedIndices(rejected, fates);
    var acceptedKeys := set x | x in kept :: x.key;
    KeptKeys(fates);
    var recoveredKeys: set<Key>, lifted: set<nat> := {}, {};
    recovered, outcomes := [], [];
    for index := 0 to |items|
      invariant |outcomes| == index && Recovering(a, items, fates, outcomes)
      invariant recovered == SalvagedOf(outcomes) && recoveredKeys == SalvagedKeys(outcomes)
      invariant lifted == LiftedOf(outcomes)
    {
      ghost var o: Outcome;
      var r;
      r, o := Attempt(a, items, fates, outcomes, index, index in rejectedIndices, acceptedKeys, recoveredKeys);
      if r.Some? {
        recovered := recovered + [r.value];
        lifted := lifted + {index};
        recoveredKeys := recoveredKeys + {r.value.key};
      }
      outcomes := outcomes + [o];
    }
    unrecovered := Unlifted(rejected, lifted);
    Finish(a, items, fates, outcomes, lifted);
  }

  lemma {:induction false} Progress(a: Agenda, items: seq<RawItem>, fates: seq<Fate>, outcomes: seq<Outcome>, o: Outcome)
    requires |items| == |fates| && WellFormed(a, items) && |outcomes| < |items|
    requires Recovering(a, items, fates, outcomes) && Settled(a, items, fates, SalvagedKeys(outcomes), |outcomes|, o)
    ensures Recovering(a, items, fates, outcomes + [o])
    ensures SalvagedOf(outcomes + [o]) == SalvagedOf(outcomes) + if o.Salvaged? then [o.item'] else []
    ensures LiftedOf(outcomes + [o]) == LiftedOf(outcomes) + if o.Salvaged? then {|outcomes|} else {}
    ensures SalvagedKeys(outcomes + [o]) == SalvagedKeys(outcomes) + if o.Salvaged? then {o.item'.key} else {}
  {
    RecoveringSnoc(a, items, fates, outcomes, o);
    OutcomeSnoc(outcomes, o);
    LiftedSnoc(outcomes, o);
    SalvagedKeysSnoc(outcomes, o);
  }

  lemma {:induction false} Finish(a: Agenda, items: seq<RawItem>, fates: seq<Fate>, outcomes: seq<Outcome>, lifted: set<nat>)
    requires |items| == |fates| == |outcomes| && WellFormed(a, items) && Recovering(a, items, fates, outcomes)
    requires lifted == LiftedOf(outcomes)
    ensures Remaining(Rejections(fates), lifted) == LostOf(outcomes) && StrictOf(outcomes) == Kept(fates)
  {
    OutcomesMatchFates(a, items, fates, outcomes);
    RemainingIsLost(fates, outcomes, lifted);
    StrictIsKept(fates, outcomes);
  }

  lemma {:induction false} OutcomesMatchFates(a: Agenda, items: seq<RawItem>, fates: seq<Fate>, outcomes: seq<Outcome>)
    requires |items| == |fates| == |outcomes| && WellFormed(a, items) && Recovering(a, items, fates, outcomes)
    ensures forall i :: 0 <= i < |fates| ==>
              if fates[i].Keep? then outcomes[i] == StrictlyKept(fates[i].item)
              else outcomes[i].Salvaged? || outcomes[i] == Lost(fates[i].reason)
  {
    forall i | 0 <= i < |fates|
      ensures if fates[i].Keep? then outcomes[i] == StrictlyKept(fates[i].item)
              else outcomes[i].Salvaged? || outcomes[i] == Lost(fates[i].reason)
    {
      assert Settled(a, items, fates, SalvagedKeys(outcomes[..i]), i, outcomes[i]);
    }
  }

  lemma {:induction false} StrictIsKept(fates: seq<Fate>, outcomes: seq<Outcome>)
    requires |fates| == |outcomes|
    requires forall i :: 0 <= i < |fates| ==>
               if fates[i].Keep? then outcomes[i] == StrictlyKept(fates[i].item) else !outcomes[i].StrictlyKept?
    ensures StrictOf(outcomes) == Kept(fates)
  {
    if fates != [] {
      var n := |fates| - 1;
      StrictIsKept(fates[..n], outcomes[..n]);
    }
  }

  // ---------------------------------------------------------------- what the passes guarantee

  /** Conservation: every item of the response is strictly kept, salvaged or lost, and in one way only. */
  lemma {:induction false} ItemsConserved(outcomes: seq<Outcome>)
    ensures |StrictOf(outcomes)| + |SalvagedOf(outcomes)| + |LostOf(outcomes)| == |outcomes|
  {
    if outcomes != [] { ItemsConserved(outcomes[..|outcomes| - 1]); }
  }

  function KeyOf(o: Outcome): Key
    requires !o.Lost?
  { if o.StrictlyKept? then o.item.key else o.item'.key }

  lemma {:induction false} KeptInKeys(fates: seq<Fate>, i: nat)
    requires i < |fates| && fates[i].Keep?
    ensures fates[i].item.key in KeysOf(fates)
  {
    assert fates[i] in fates;
  }

  /** No two kept items, strict or salvaged, share their evidence. */
  lemma {:induction false} KeptKeysDistinct(a: Agenda, items: seq<RawItem>, fates: seq<Fate>, outcomes: seq<Outcome>, i: nat, j: nat)
    requires |items| == |fates| == |outcomes| && WellFormed(a, items)
    requires Assessed(a, items, fates) && Recovering(a, items, fates, outcomes)
    requires i < j < |items| && !outcomes[i].Lost? && !outcomes[j].Lost?
    ensures KeyOf(outcomes[i]) != KeyOf(outcomes[j])
  {
    assert Settled(a, items, fates, SalvagedKeys(outcomes[..i]), i, outcomes[i]);
    assert Settled(a, items, fates, SalvagedKeys(outcomes[..j]), j, outcomes[j]);
    if fates[i].Keep? { KeptInKeys(fates, i); }
    if fates[j].Keep? { KeptInKeys(fates, j); }
    if fates[i].Keep? && fates[j].Keep? {
      assert Judged(a, items[j], KeysOf(fates[..j]), fates[j]);
      KeptInKeys(fates[..j], i);
    } else if fates[i].Reject? && fates[j].Reject? {
      assert outcomes[..j][i] == outcomes[i] && outcomes[i] in outcomes[..j];
    }
  }

  /** The span, or the span with the identifier line right above it. */
  ghost predicate UpToPrefix(a: Agenda, w: Span, full: Span)
    requires 1 <= w.start <= w.end <= |a.lines|
  {
    var above := w.start > 1 && a.lines[w.start - 2].identifierOnly;
    full.end == w.end && full.start == if above then w.start - 1 else w.start
  }

  /** A kept item's own words, and its reference: the given one, found in the span, or else the span's. */
  ghost predicate OfItem(a: Agenda, item: RawItem, x: Accepted) {
    && x.title == item.title != "" && x.quote == item.quote != ""
    && x.key == Key(x.span.start, x.span.end, item.needle)
    && if item.displayRef.Some? then x.displayRef == item.displayRef && a.referenceIn(item.displayRef.value, x.span)
       else x.displayRef == a.deriveReference(x.span)
  }

  /** A strictly kept item's span carries its quote, up to one identifier line above. */
  lemma {:induction false} StrictIsGrounded(a: Agenda, item: RawItem, x: Accepted)
    requires Strict(a, item, Ok(x)) && item.lineStart >= 1
    ensures exists w :: Carries(a, item.needle, w) && UpToPrefix(a, w, x.span)
    ensures 1 <= x.span.start <= x.span.end <= |a.lines| && OfItem(a, item, x)
  {
    var declared := Span(item.lineStart, item.lineEnd);
    var e :| && EvidenceAt(a, declared, item.needle, e)
             && (e.Ok? ==> 1 <= e.value.start <= e.value.end <= |a.lines|)
             && Ok(x) == if e.Err? then Err(e.reason) else Referenced(a, item, ExpandPrefix(a, e.value));
    assert Carries(a, item.needle, e.value) && UpToPrefix(a, e.value, x.span) by {
      if !Carries(a, item.needle, declared) { assert Nearest(a, declared, item.needle, e.value); }
    }
  }

  /** A salvaged item's span covers the span the source itself gives its quote, and its evidence is the
      verbatim source of its whole span. */
  lemma {:induction false} SalvageIsGrounded(a: Agenda, items: seq<RawItem>, i: nat, r: Recovered)
    requires i < |items| && WellFormed(a, items) && Recovers(a, items[i], i, Some(r))
    ensures 1 <= r.span.start <= r.span.end <= |a.lines| && r.index == i
    ensures SingleLined(a) ==> IsSource(a, r.span, r.sourceEvidence) && IsTrimmedSource(a, r.span, Text.Strip(r.sourceEvidence))
    ensures exists w :: Located(a, items[i], Some(w)) && r.span.start <= w.start && w.end <= r.span.end
    ensures r.title == items[i].title && r.quote == items[i].quote && r.key == Key(r.span.start, r.span.end, items[i].needle)
    ensures r.displayRef in {None, items[i].displayRef, a.deriveReference(r.span)}
  {
    var located :| && Located(a, items[i], located)
                   && (located.Some? ==> 1 <= located.value.start <= located.value.end <= |a.lines|)
                   && Some(r) == if located.None? then None else Recovery(a, items[i], i, located.value);
    RecoveryCovers(a, items[i], i, located.value);
    if SingleLined(a) { EvidenceIsSource(a, r.span); }
  }

  /** The rules of a recovery: the span ends with its paragraph; the reference must resolve to the item's own
      marker, or be an outline position; it is kept if it does or the outline confirms it, and else taken from
      the span; and the span starts at the least line the resolution names, or above its identifier lines. */
  ghost predicate ByTheRules(a: Agenda, item: RawItem, located: Span, w: Span, r: Recovered) {
    && 1 <= located.start == w.start <= |a.lines| && EndsParagraph(a, located.end, w.end) && r.span.end == w.end
    && var res := a.resolve(item, w);
       var own := res.resolved && (res.matched == [] || w.start - 1 <= res.matched[|res.matched| - 1] <= w.end);
       var named := if res.resolved && !own then [] else res.matched;
       && (own || a.outline(item))
       && r.displayRef == (if !own && !a.outlineIn(item, w) then a.deriveReference(r.span) else if res.kind == Formal then item.displayRef else None)
       && if named == [] then MarkersAbove(a, w.start, r.span.start)
          else r.span.start in [w.start] + named && forall n :: n in [w.start] + named ==> r.span.start <= n
  }

  lemma {:induction false} SalvageFollowsRules(a: Agenda, items: seq<RawItem>, i: nat, r: Recovered)
    requires i < |items| && WellFormed(a, items) && Recovers(a, items[i], i, Some(r))
    ensures exists located, w :: Located(a, items[i], Some(located)) && ByTheRules(a, items[i], located, w, r)
  {
    var located :| && Located(a, items[i], located)
                   && (located.Some? ==> 1 <= located.value.start <= located.value.end <= |a.lines|)
                   && Some(r) == if located.None? then None else Recovery(a, items[i], i, located.value);
    RecoveryFollowsRules(a, items[i], i, located.value, r);
  }

  lemma {:induction false} RecoveryFollowsRules(a: Agenda, item: RawItem, i: nat, located: Span, r: Recovered)
    requires 1 <= located.start <= located.end <= |a.lines| && ResolvesWithin(a) && Recovery(a, item, i, located) == Some(r)
    ensures ByTheRules(a, item, located, Widened(a, located), r)
  {
    var w := Widened(a, located);
    TrailingEndEnds(a, located.end, located.end + 1);
    var res := ReferenceFor(a, item, w);
    if res.value.matched == [] { PrefixStartTops(a, w.start); } else { LeastIsLeast(w.start, res.value.matched); }
  }

  lemma {:induction false} TrailingEndEnds(a: Agenda, end: nat, at: nat)
    requires 1 <= end < at <= Min(|a.lines|, end + FORWARD) + 1 && end <= |a.lines|
    requires forall k :: end <= k < at - 1 ==> !a.lines[k].blank && !a.lines[k].trailingReference
    ensures EndsParagraph(a, end, TrailingEnd(a, end, at, Min(|a.lines|, end + FORWARD)))
    decreases |a.lines| + 1 - at
  {
    var upper := Min(|a.lines|, end + FORWARD);
    if at <= upper && a.lines[at - 1].trailingReference {
      assert Continues(a, end, at);
    } else if at <= upper && !a.lines[at - 1].blank {
      TrailingEndEnds(a, end, at + 1);
    } else {
      forall k ensures !Continues(a, end, k) {}
    }
  }

  lemma {:induction false} PrefixStartTops(a: Agenda, start: nat)
    requires start <= |a.lines|
    ensures MarkersAbove(a, start, PrefixStart(a, start))
  {
    if start > 1 && a.lines[start - 2].marker { PrefixStartTops(a, start - 1); }
  }

  lemma {:induction false} LeastIsLeast(start: nat, matched: seq<nat>)
    ensures Least(start, matched) in [start] + matched && forall n :: n in [start] + matched ==> Least(start, matched) <= n
  {
    if matched != [] {
      var n := |matched| - 1;
      LeastIsLeast(start, matched[..n]);
      assert [start] + matched == ([start] + matched[..n]) + [matched[n]];
    }
  }

  lemma {:induction false} RecoveryCovers(a: Agenda, item: RawItem, index: nat, located: Span)
    requires 1 <= located.start <= located.end <= |a.lines|
    requires ResolvesWithin(a)
    requires Recovery(a, item, index, located).Some?
    ensures var r := Recovery(a, item, index, located).value;
            && 1 <= r.span.start <= located.start && located.end <= r.span.end <= |a.lines|
            && r.sourceEvidence == EvidenceText(a, r.span) && r.index == index
            && r.title == item.title && r.quote == item.quote && r.key == Key(r.span.start, r.span.end, item.needle)
            && r.displayRef in {None, item.displayRef, a.deriveReference(r.span)}
  {
    var upper := Min(|a.lines|, located.end + FORWARD);
    TrailingBounds(a, located.end, located.end + 1, upper);
    var res := ReferenceFor(a, item, Span(located.start, TrailingEnd(a, located.end, located.end + 1, upper)));
    StartBounds(a, located.start, res.value.matched);
  }

  // ---------------------------------------------------------------- finalisation

  datatype Source = FromStrict | FromRecovery

  datatype Candidate = Candidate(index: nat, title: string, span: Span, evidenceText: string, displayRef: Option<string>,
                                 quote: string, source: Source)

  function StrictCandidate(a: Agenda, x: Accepted, index: nat): Candidate
    requires 1 <= x.span.start <= x.span.end <= |a.lines|
  {
    Candidate(index, x.title, x.span, Text.Strip(EvidenceText(a, x.span)), x.displayRef, x.quote, FromStrict)
  }

  function RecoveredCandidate(x: Recovered, index: nat): Candidate {
    Candidate(index, x.title, x.span, Text.Strip(x.sourceEvidence), x.displayRef, x.quote, FromRecovery)
  }

  function Dropped(unrecovered: seq<Rejected>): seq<Rejected> {
    if unrecovered == [] then []
    else
      var n := |unrecovered| - 1;
      Dropped(unrecovered[..n]) + if unrecovered[n].reason == Duplicate then [] else [unrecovered[n]]
  }

  datatype Finalized = Candidates(items: seq<Candidate>) | Failed(reason: Reason)

  /** The list comprehension `[item for item in unrecovered if item.reason != duplicate]`. */
  method CollectDropped(unrecovered: seq<Rejected>) returns (dropped: seq<Rejected>)
    ensures dropped == Dropped(unrecovered) && |dropped| <= |unrecovered|
  {
    dropped := [];
    for k := 0 to |unrecovered|
      invariant dropped == Dropped(unrecovered[..k]) && |dropped| <= k
    {
      assert unrecovered[..k + 1][..k] == unrecovered[..k];
      if unrecovered[k].reason != Duplicate { dropped := dropped + [unrecovered[k]]; }
    }
    assert unrecovered[..|unrecovered|] == unrecovered;
  }

  /** The candidates are the strict items and after them the recovered ones, numbered from zero. */
  ghost predicate Lists(a: Agenda, kept: seq<Accepted>, recovered: seq<Recovered>, items: seq<Candidate>) {
    && |items| == |kept| + |recovered|
    && (forall i :: 0 <= i < |kept| ==> 1 <= kept[i].span.start <= kept[i].span.end <= |a.lines| && items[i] == StrictCandidate(a, kept[i], i))
    && (forall i :: |kept| <= i < |items| ==> items[i] == RecoveredCandidate(recovered[i - |kept|], i))
  }

  /** `finalize_agenda_job`: it succeeds exactly when at most a tenth of the items that are not repeats
      were dropped, and then numbers the strict items and after them the recovered ones. */
  method Finalize(a: Agenda, kept: seq<Accepted>, recovered: seq<Recovered>, unrecovered: seq<Rejected>) returns (r: Finalized)
    requires forall i :: 0 <= i < |kept| ==> 1 <= kept[i].span.start <= kept[i].span.end <= |a.lines|
    ensures r.Candidates? <==> 10 * |Dropped(unrecovered)| <= |kept| + |recovered| + |Dropped(unrecovered)|
    ensures r.Failed? ==> Dropped(unrecovered) != [] && r.reason == Dropped(unrecovered)[0].reason
    ensures r.Candidates? ==> Lists(a, kept, recovered, r.items)
  {
    var dropped := CollectDropped(unrecovered);
    var duplicates := |unrecovered| - |dropped|;
    var total := |kept| + |recovered| + |unrecovered| - duplicates;
    if dropped != [] && 10 * |dropped| > total { return Failed(dropped[0].reason); }
    var items: seq<Candidate> := [];
    for i := 0 to |kept|
      invariant |items| == i && forall k :: 0 <= k < i ==> items[k] == StrictCandidate(a, kept[k], k)
    {
      items := items + [StrictCandidate(a, kept[i], |items|)];
    }
    for i := 0 to |recovered|
      invariant |items| == |kept| + i
      invariant forall k :: 0 <= k < |kept| ==> items[k] == StrictCandidate(a, kept[k], k)
      invariant forall k :: |kept| <= k < |items| ==> items[k] == RecoveredCandidate(recovered[k - |kept|], k)
    {
      items := items + [RecoveredCandidate(recovered[i], |items|)];
    }
    return Candidates(items);
  }

  /** The items that were lost for good, and those that only repeated another. */
  ghost function Missing(outcomes: seq<Outcome>): set<nat> {
    set i: nat | i < |outcomes| && outcomes[i].Lost? && outcomes[i].reason != Duplicate
  }

  ghost function Repeats(outcomes: seq<Outcome>): set<nat> {
    set i: nat | i < |outcomes| && outcomes[i].Lost? && outcomes[i].reason == Duplicate
  }

  ghost predicate FirstMissing(outcomes: seq<Outcome>, i: nat) {
    i in Missing(outcomes) && forall j :: j in Missing(outcomes) ==> i <= j
  }

  /** The job fails for the first missing item's reason. */
  ghost predicate FailsFor(outcomes: seq<Outcome>, reason: Reason) {
    exists i: nat :: FirstMissing(outcomes, i) && outcomes[i].reason == reason
  }

  lemma {:induction false} MissingSnoc(outcomes: seq<Outcome>)
    requires outcomes != []
    ensures var n := |outcomes| - 1;
            var front, o := outcomes[..n], outcomes[n];
            && Missing(outcomes) == Missing(front) + (if o.Lost? && o.reason != Duplicate then {n} else {})
            && Repeats(outcomes) == Repeats(front) + (if o.Lost? && o.reason == Duplicate then {n} else {})
            && n !in Missing(front) && n !in Repeats(front)
  {
    var n := |outcomes| - 1;
    forall i: nat | i < n ensures outcomes[..n][i] == outcomes[i] {}
  }

  lemma {:induction false} LostSnoc(outcomes: seq<Outcome>)
    requires outcomes != []
    ensures var n := |outcomes| - 1;
            var front, o := outcomes[..n], outcomes[n];
            && |LostOf(outcomes)| == |LostOf(front)| + (if o.Lost? then 1 else 0)
            && Dropped(LostOf(outcomes)) == Dropped(LostOf(front)) + (if o.Lost? && o.reason != Duplicate then [Rejected(n, o.reason)] else [])
  {
    var n := |outcomes| - 1;
    var front, o := outcomes[..n], outcomes[n];
    if o.Lost? { DroppedSnoc(LostOf(front), Rejected(n, o.reason)); } else { assert LostOf(front) + [] == LostOf(front); }
  }

  lemma {:induction false} LostAreCounted(outcomes: seq<Outcome>)
    ensures |LostOf(outcomes)| == |Missing(outcomes)| + |Repeats(outcomes)|
    ensures |Dropped(LostOf(outcomes))| == |Missing(outcomes)|
  {
    if outcomes != [] {
      var n := |outcomes| - 1;
      MissingSnoc(outcomes);
      LostSnoc(outcomes);
      LostAreCounted(outcomes[..n]);
    }
  }

  lemma {:induction false} FirstDropped(outcomes: seq<Outcome>)
    requires Dropped(LostOf(outcomes)) != []
    ensures FailsFor(outcomes, Dropped(LostOf(outcomes))[0].reason)
  {
    var n := |outcomes| - 1;
    var front := outcomes[..n];
    MissingSnoc(outcomes);
    LostSnoc(outcomes);
    LostAreCounted(front);
    if Dropped(LostOf(front)) != [] {
      FirstDropped(front);
      var i: nat :| FirstMissing(front, i) && front[i].reason == Dropped(LostOf(front))[0].reason;
      assert FirstMissing(outcomes, i);
    } else {
      assert Missing(front) == {};
      assert FirstMissing(outcomes, n);
    }
  }

  lemma {:induction false} DroppedSnoc(lost: seq<Rejected>, x: Rejected)
    ensures Dropped(lost + [x]) == Dropped(lost) + if x.reason == Duplicate then [] else [x]
  {
    assert (lost + [x])[..|lost|] == lost;
  }

  /** The candidate carries what the passes made of an item. */
  ghost predicate Presents(c: Candidate, o: Outcome) {
    match o
    case StrictlyKept(x) => c.source == FromStrict && c.title == x.title && c.quote == x.quote && c.span == x.span && c.displayRef == x.displayRef
    case Salvaged(x) => c.source == FromRecovery && c.title == x.title && c.quote == x.quote && c.span == x.span && c.displayRef == x.displayRef
    case Lost(_) => false
  }

  /** A candidate made from `item`: the item's words, the source text of its span, and a reference that is
      the given one or the span's own. */
  ghost predicate FromItem(a: Agenda, item: RawItem, c: Candidate) {
    && 1 <= c.span.start <= c.span.end <= |a.lines| && c.title == item.title && c.quote == item.quote
    && (SingleLined(a) ==> IsTrimmedSource(a, c.span, c.evidenceText))
    && match c.source
       case FromStrict =>
         if item.displayRef.Some? then c.displayRef == item.displayRef && a.referenceIn(item.displayRef.value, c.span)
         else c.displayRef == a.deriveReference(c.span)
       case FromRecovery => c.displayRef in {None, item.displayRef, a.deriveReference(c.span)}
  }

  /** The candidate is made from item `j` of the response. */
  ghost predicate IsOrigin(a: Agenda, items: seq<RawItem>, outcomes: seq<Outcome>, c: Candidate, j: int) {
    0 <= j < |items| == |outcomes| && Presents(c, outcomes[j]) && FromItem(a, items[j], c)
  }

  ghost predicate HasOrigin(a: Agenda, items: seq<RawItem>, outcomes: seq<Outcome>, c: Candidate) {
    exists j :: IsOrigin(a, items, outcomes, c, j)
  }

  /** The candidates are numbered, and each is made from an item. */
  ghost predicate AllHaveOrigin(a: Agenda, items: seq<RawItem>, outcomes: seq<Outcome>, candidates: seq<Candidate>) {
    forall i :: 0 <= i < |candidates| ==> candidates[i].index == i && HasOrigin(a, items, outcomes, candidates[i])
  }

  /** Each item that was not lost has a candidate. */
  ghost predicate AllPresented(outcomes: seq<Outcome>, candidates: seq<Candidate>) {
    forall j :: 0 <= j < |outcomes| && !outcomes[j].Lost? ==> exists i :: 0 <= i < |candidates| && Presents(candidates[i], outcomes[j])
  }

  /** The whole job. It succeeds exactly when at most a tenth of the items that are not repeats went
      missing. It then carries every item that was not lost, and nothing else, each with the source text
      of its span; else it fails for the first missing item's reason. */
  method FinalizeJob(a: Agenda, items: seq<RawItem>) returns (r: Finalized, ghost fates: seq<Fate>, ghost outcomes: seq<Outcome>)
    requires WellFormed(a, items)
    ensures |fates| == |outcomes| == |items| && Assessed(a, items, fates) && Recovering(a, items, fates, outcomes)
    ensures r.Candidates? <==> 10 * |Missing(outcomes)| <= |items| - |Repeats(outcomes)|
    ensures r.Failed? ==> FailsFor(outcomes, r.reason)
    ensures r.Candidates? ==> |r.items| == |items| - |Missing(outcomes)| - |Repeats(outcomes)|
    ensures r.Candidates? ==> AllHaveOrigin(a, items, outcomes, r.items) && AllPresented(outcomes, r.items)
  {
    var kept, recovered, unrecovered;
    kept, recovered, unrecovered, fates, outcomes := Recover(a, items);
    KeptSpans(a, items, fates, outcomes);
    r := Finalize(a, kept, recovered, unrecovered);
    JobDone(a, items, fates, outcomes, r);
  }

  lemma {:induction false} JobDone(a: Agenda, items: seq<RawItem>, fates: seq<Fate>, outcomes: seq<Outcome>, r: Finalized)
    requires |fates| == |outcomes| == |items| && WellFormed(a, items)
    requires Assessed(a, items, fates) && Recovering(a, items, fates, outcomes)
    requires var dropped := Dropped(LostOf(outcomes));
             && (r.Candidates? <==> 10 * |dropped| <= |StrictOf(outcomes)| + |SalvagedOf(outcomes)| + |dropped|)
             && (r.Failed? ==> dropped != [] && r.reason == dropped[0].reason)
    requires r.Candidates? ==> Lists(a, StrictOf(outcomes), SalvagedOf(outcomes), r.items)
    ensures r.Candidates? <==> 10 * |Missing(outcomes)| <= |items| - |Repeats(outcomes)|
    ensures r.Failed? ==> FailsFor(outcomes, r.reason)
    ensures r.Candidates? ==> |r.items| == |items| - |Missing(outcomes)| - |Repeats(outcomes)|
    ensures r.Candidates? ==> AllHaveOrigin(a, items, outcomes, r.items) && AllPresented(outcomes, r.items)
  {
    ItemsConserved(outcomes);
    LostAreCounted(outcomes);
    if r.Candidates? {
      OutcomesAreFrom(a, items, fates, outcomes);
      CandidatesHaveOrigin(a, items, outcomes, r.items);
      OutcomesArePresented(a, outcomes, r.items);
    } else {
      FirstDropped(outcomes);
    }
  }

  /** Whatever number its candidate gets, it is made from the item. */
  ghost predicate IsFrom(a: Agenda, item: RawItem, o: Outcome) {
    match o
    case StrictlyKept(x) => 1 <= x.span.start <= x.span.end <= |a.lines| && forall i: nat :: FromItem(a, item, StrictCandidate(a, x, i))
    case Salvaged(x) => forall i: nat :: FromItem(a, item, RecoveredCandidate(x, i))
    case Lost(_) => true
  }

  ghost predicate AllFrom(a: Agenda, items: seq<RawItem>, outcomes: seq<Outcome>) {
    |outcomes| == |items| && forall j :: 0 <= j < |items| ==> IsFrom(a, items[j], outcomes[j])
  }

  lemma {:induction false} OutcomesAreFrom(a: Agenda, items: seq<RawItem>, fates: seq<Fate>, outcomes: seq<Outcome>)
    requires |fates| == |outcomes| == |items| && WellFormed(a, items)
    requires Assessed(a, items, fates) && Recovering(a, items, fates, outcomes)
    ensures AllFrom(a, items, outcomes)
  {
    forall j | 0 <= j < |items| ensures IsFrom(a, items[j], outcomes[j]) {
      if outcomes[j].StrictlyKept? {
        StrictFromItem(a, items, fates, outcomes, j, 0);
        forall i: nat ensures FromItem(a, items[j], StrictCandidate(a, outcomes[j].item, i)) { StrictFromItem(a, items, fates, outcomes, j, i); }
      } else if outcomes[j].Salvaged? {
        forall i: nat ensures FromItem(a, items[j], RecoveredCandidate(outcomes[j].item', i)) { SalvagedFromItem(a, items, fates, outcomes, j, i); }
      }
    }
  }

  lemma {:induction false} CandidatesHaveOrigin(a: Agenda, items: seq<RawItem>, outcomes: seq<Outcome>, candidates: seq<Candidate>)
    requires AllFrom(a, items, outcomes) && Lists(a, StrictOf(outcomes), SalvagedOf(outcomes), candidates)
    ensures AllHaveOrigin(a, items, outcomes, candidates)
  {
    forall i | 0 <= i < |candidates| ensures candidates[i].index == i && HasOrigin(a, items, outcomes, candidates[i]) {
      CandidateIs(a, StrictOf(outcomes), SalvagedOf(outcomes), candidates, i);
      CandidateHasOrigin(a, items, outcomes, candidates[i], i);
    }
  }

  lemma {:induction false} CandidateHasOrigin(a: Agenda, items: seq<RawItem>, outcomes: seq<Outcome>, c: Candidate, i: nat)
    requires AllFrom(a, items, outcomes) && Is(a, StrictOf(outcomes), SalvagedOf(outcomes), c, i)
    ensures HasOrigin(a, items, outcomes, c)
  {
    var kept := |StrictOf(outcomes)|;
    var j: nat;
    if i < kept { j := StrictAt(outcomes, i); } else { j := SalvagedAt(outcomes, i - kept); }
    assert IsFrom(a, items[j], outcomes[j]);
    assert IsOrigin(a, items, outcomes, c, j);
  }

  lemma {:induction false} OutcomesArePresented(a: Agenda, outcomes: seq<Outcome>, candidates: seq<Candidate>)
    requires Lists(a, StrictOf(outcomes), SalvagedOf(outcomes), candidates)
    ensures AllPresented(outcomes, candidates)
  {
    forall j | 0 <= j < |outcomes| && !outcomes[j].Lost? ensures exists i :: 0 <= i < |candidates| && Presents(candidates[i], outcomes[j]) {
      OutcomeIsPresented(a, outcomes, candidates, j);
    }
  }

  lemma {:induction false} StrictAt(outcomes: seq<Outcome>, i: nat) returns (j: nat)
    requires i < |StrictOf(outcomes)|
    ensures j < |outcomes| && outcomes[j] == StrictlyKept(StrictOf(outcomes)[i])
  {
    var n := |outcomes| - 1;
    if i < |StrictOf(outcomes[..n])| { j := StrictAt(outcomes[..n], i); } else { j := n; }
  }

  lemma {:induction false} SalvagedAt(outcomes: seq<Outcome>, i: nat) returns (j: nat)
    requires i < |SalvagedOf(outcomes)|
    ensures j < |outcomes| && outcomes[j] == Salvaged(SalvagedOf(outcomes)[i])
  {
    var n := |outcomes| - 1;
    if i < |SalvagedOf(outcomes[..n])| { j := SalvagedAt(outcomes[..n], i); } else { j := n; }
  }

  lemma {:induction false} OutcomeAt(outcomes: seq<Outcome>, j: nat) returns (i: nat)
    requires j < |outcomes| && !outcomes[j].Lost?
    ensures outcomes[j].StrictlyKept? ==> i < |StrictOf(outcomes)| && StrictOf(outcomes)[i] == outcomes[j].item
    ensures outcomes[j].Salvaged? ==> i < |SalvagedOf(outcomes)| && SalvagedOf(outcomes)[i] == outcomes[j].item'
  {
    var n := |outcomes| - 1;
    if j < n { i := OutcomeAt(outcomes[..n], j); }
    else { i := if outcomes[n].StrictlyKept? then |StrictOf(outcomes[..n])| else |SalvagedOf(outcomes[..n])|; }
  }

  lemma {:induction false} OutcomeIsPresented(a: Agenda, outcomes: seq<Outcome>, items: seq<Candidate>, j: nat)
    requires Lists(a, StrictOf(outcomes), SalvagedOf(outcomes), items) && j < |outcomes| && !outcomes[j].Lost?
    ensures exists i :: 0 <= i < |items| && Presents(items[i], outcomes[j])
  {
    var i := OutcomeAt(outcomes, j);
    PresentedAt(a, StrictOf(outcomes), SalvagedOf(outcomes), items, outcomes[j], i);
  }

  lemma {:induction false} PresentedAt(a: Agenda, kept: seq<Accepted>, recovered: seq<Recovered>, items: seq<Candidate>, o: Outcome, i: nat)
    requires Lists(a, kept, recovered, items) && !o.Lost?
    requires o.StrictlyKept? ==> i < |kept| && kept[i] == o.item
    requires o.Salvaged? ==> i < |recovered| && recovered[i] == o.item'
    ensures exists at :: 0 <= at < |items| && Presents(items[at], o)
  {
    var at := if o.StrictlyKept? then i else |kept| + i;
    CandidateIs(a, kept, recovered, items, at);
    assert Presents(items[at], o);
  }

  /** The candidate with number `i`. */
  ghost predicate Is(a: Agenda, kept: seq<Accepted>, recovered: seq<Recovered>, c: Candidate, i: nat) {
    if i < |kept| then 1 <= kept[i].span.start <= kept[i].span.end <= |a.lines| && c == StrictCandidate(a, kept[i], i)
    else i - |kept| < |recovered| && c == RecoveredCandidate(recovered[i - |kept|], i)
  }

  lemma {:induction false} CandidateIs(a: Agenda, kept: seq<Accepted>, recovered: seq<Recovered>, items: seq<Candidate>, i: nat)
    requires Lists(a, kept, recovered, items) && i < |items|
    ensures Is(a, kept, recovered, items[i], i) && items[i].index == i
  {}

  lemma {:induction false} StrictOutcome(a: Agenda, items: seq<RawItem>, fates: seq<Fate>, outcomes: seq<Outcome>, j: nat)
    requires |fates| == |outcomes| == |items| && WellFormed(a, items)
    requires Assessed(a, items, fates) && Recovering(a, items, fates, outcomes)
    requires j < |items| && outcomes[j].StrictlyKept?
    ensures Strict(a, items[j], Ok(outcomes[j].item))
  {
    assert Settled(a, items, fates, SalvagedKeys(outcomes[..j]), j, outcomes[j]);
    assert Judged(a, items[j], KeysOf(fates[..j]), fates[j]);
  }

  lemma {:induction false} StrictFromItem(a: Agenda, items: seq<RawItem>, fates: seq<Fate>, outcomes: seq<Outcome>, j: nat, index: nat)
    requires |fates| == |outcomes| == |items| && WellFormed(a, items)
    requires Assessed(a, items, fates) && Recovering(a, items, fates, outcomes)
    requires j < |items| && outcomes[j].StrictlyKept?
    ensures var x := outcomes[j].item;
            1 <= x.span.start <= x.span.end <= |a.lines| && FromItem(a, items[j], StrictCandidate(a, x, index))
  {
    StrictOutcome(a, items, fates, outcomes, j);
    StrictIsGrounded(a, items[j], outcomes[j].item);
    if SingleLined(a) { EvidenceIsSource(a, outcomes[j].item.span); }
  }

  lemma {:induction false} SalvagedFromItem(a: Agenda, items: seq<RawItem>, fates: seq<Fate>, outcomes: seq<Outcome>, j: nat, index: nat)
    requires |fates| == |outcomes| == |items| && WellFormed(a, items)
    requires Recovering(a, items, fates, outcomes)
    requires j < |items| && outcomes[j].Salvaged?
    ensures FromItem(a, items[j], RecoveredCandidate(outcomes[j].item', index))
  {
    assert Settled(a, items, fates, SalvagedKeys(outcomes[..j]), j, outcomes[j]);
    SalvageIsGrounded(a, items, j, outcomes[j].item');
  }

  lemma {:induction false} KeptSpans(a: Agenda, items: seq<RawItem>, fates: seq<Fate>, outcomes: seq<Outcome>)
    requires |fates| == |outcomes| == |items| && WellFormed(a, items)
    requires Assessed(a, items, fates) && Recovering(a, items, fates, outcomes)
    ensures forall i :: 0 <= i < |StrictOf(outcomes)| ==>
              1 <= StrictOf(outcomes)[i].span.start <= StrictOf(outcomes)[i].span.end <= |a.lines|
  {
    forall i | 0 <= i < |StrictOf(outcomes)| ensures 1 <= StrictOf(outcomes)[i].span.start <= StrictOf(outcomes)[i].span.end <= |a.lines| {
      var j := StrictAt(outcomes, i);
      StrictFromItem(a, items, fates, outcomes, j, i);
    }
  }
}
