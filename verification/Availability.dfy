/** Media availability: the verdict state machine over whole observation histories, and the measure of
    non-silent content. Durations are whole milliseconds. */
module Availability {
  import opened Wrappers
  import Sorting

  // ---------------------------------------------------------------- the verdict

  datatype State =
    | AvailableMedia | SuspectedEmpty | ConfirmedEmpty | Missing | Invalid | Recovered | SuspectedPartial | ConfirmedPartial

  datatype Kind = Silent | Playable | Partial | TransportFailed | Dead | Absent

  const CONFIRM_THRESHOLD: nat := 2

  predicate Withheld(s: State) { s in {SuspectedEmpty, ConfirmedEmpty, Missing, Invalid} }

  /** The reason text: the observation's own, or the default for the state and confirmation count. */
  datatype Reason = Given(text: string) | Default(state: State, confirmations: nat) | ByOperator

  datatype Verdict = Verdict(
    state: State, reason: Reason, fingerprint: Option<string>, profile: string, lastCheck: string,
    silent: nat, partial: nat, evidence: Option<string>, override: Option<State>, overrideReason: string, recoveredAt: Option<string>)
  {
    function Effective(): State { if override.Some? then override.value else state }
    predicate IsWithheld() { Withheld(Effective()) }
  }

  datatype Observation = Observation(kind: Kind, fingerprint: Option<string>, profile: string, reason: string, now: string)

  /** Python's `a or b` on an optional string and on a string. */
  function OrElse(a: Option<string>, b: Option<string>): Option<string> { if a.Some? && a.value != "" then a else b }
  function Or(a: string, b: string): string { if a != "" then a else b }

  /** The observation is about other source bytes than the stored verdict. */
  predicate FreshSource(prior: Option<Verdict>, o: Observation) {
    prior.Some? && o.fingerprint.Some? && prior.value.fingerprint.Some? && o.fingerprint != prior.value.fingerprint
  }

  function Base(prior: Option<Verdict>, o: Observation): Option<Verdict> {
    if FreshSource(prior, o) then None else prior
  }

  function Build(prior: Option<Verdict>, o: Observation, state: State, silent: nat, partial: nat, recoveredAt: Option<string>): Verdict {
    var base := Base(prior, o);
    Verdict(state, if o.reason != "" then Given(o.reason) else Default(state, silent + partial),
            OrElse(o.fingerprint, if prior.Some? then prior.value.fingerprint else None),
            Or(o.profile, if prior.Some? then prior.value.profile else ""),
            o.now, silent, partial,
            if base.Some? then base.value.evidence else None,
            if base.Some? then base.value.override else None,
            if base.Some? then base.value.overrideReason else "",
            recoveredAt)
  }

  /** `classify` */
  function Classify(prior: Option<Verdict>, o: Observation): Option<Verdict> {
    if o.kind == TransportFailed then
      if prior.None? then None else Some(prior.value.(lastCheck := o.now))
    else
      var base := Base(prior, o);
      var recoveredAt := if base.Some? then base.value.recoveredAt else None;
      match o.kind
      case Dead => Some(Build(prior, o, Invalid, 0, 0, recoveredAt))
      case Absent => Some(Build(prior, o, Missing, 0, 0, recoveredAt))
      case Silent =>
        var n := (if base.Some? then base.value.silent else 0) + 1;
        Some(Build(prior, o, if n >= CONFIRM_THRESHOLD then ConfirmedEmpty else SuspectedEmpty, n, 0, recoveredAt))
      case Partial =>
        var n := (if base.Some? then base.value.partial else 0) + 1;
        Some(Build(prior, o, if n >= CONFIRM_THRESHOLD then ConfirmedPartial else SuspectedPartial, 0, n, recoveredAt))
      case Playable =>
        if base.Some? && base.value.IsWithheld() then Some(Build(prior, o, Recovered, 0, 0, Some(o.now)))
        else Some(Build(prior, o, AvailableMedia, 0, 0, recoveredAt))
  }

  datatype OverrideResult = Applied(verdict: Verdict) | NothingToClear

  /** `with_operator_override`; `None` clears the override. */
  function WithOverride(prior: Option<Verdict>, state: Option<State>, reason: string, now: string): OverrideResult {
    if prior.None? && state.None? then NothingToClear
    else
      var v := if prior.Some? then prior.value
               else Verdict(AvailableMedia, ByOperator, None, "", "", 0, 0, None, None, "", None);
      Applied(v.(override := state, overrideReason := if state.Some? then reason else "", lastCheck := now))
  }

  // ---------------------------------------------------------------- histories

  datatype Event = Observed(o: Observation) | Operator(state: Option<State>, reason: string, now: string)

  function React(prior: Option<Verdict>, e: Event): Option<Verdict> {
    match e
    case Observed(o) => Classify(prior, o)
    case Operator(state, reason, now) =>
      var r := WithOverride(prior, state, reason, now);
      if r.Applied? then Some(r.verdict) else prior
  }

  function Fold(h: seq<Event>): Option<Verdict> {
    if h == [] then None else React(Fold(h[..|h| - 1]), h[|h| - 1])
  }

  /** Does the event say something about the recording's content? */
  predicate Content(e: Event) { e.Observed? && e.o.kind != TransportFailed }

  /** The fingerprint on record after a history: the last non-empty one a content observation carried. */
  function KnownSource(h: seq<Event>): Option<string> {
    if h == [] then None
    else
      var e := h[|h| - 1];
      if Content(e) then OrElse(e.o.fingerprint, KnownSource(h[..|h| - 1])) else KnownSource(h[..|h| - 1])
  }

  /** Event `i` is a content observation about other media than the history before it knew. */
  predicate SourceChange(h: seq<Event>, i: nat)
    requires i < |h|
  {
    Content(h[i]) && h[i].o.fingerprint.Some? && KnownSource(h[..i]).Some? && h[i].o.fingerprint != KnownSource(h[..i])
  }

  /** From `start` on, the first content observation is about other media than before. */
  ghost predicate OpensWithChange(h: seq<Event>, start: nat) {
    exists j :: start <= j < |h| && SourceChange(h, j) && forall i :: start <= i < j ==> !Content(h[i])
  }

  /** The trailing block of `kind`: from `start` on all content is of that kind and, after its first
      piece, about the same media; and it cannot be extended to the left. */
  ghost predicate TrailingBlock(h: seq<Event>, kind: Kind, start: nat) {
    && start <= |h|
    && (forall i :: start <= i < |h| && Content(h[i]) ==> h[i].o.kind == kind)
    && (forall i, j :: start <= i < j < |h| && Content(h[i]) ==> !SourceChange(h, j))
    && (start > 0 ==> Content(h[start - 1]) && (h[start - 1].o.kind != kind || OpensWithChange(h, start)))
  }

  /** How many content observations the history has from `start` on. */
  function ContentCount(h: seq<Event>, start: nat): nat
    requires start <= |h|
  {
    if start == |h| then 0 else ContentCount(h[..|h| - 1], start) + if Content(h[|h| - 1]) then 1 else 0
  }

  lemma {:induction false} FoldKnowsSource(h: seq<Event>)
    ensures Fold(h).Some? ==> Fold(h).value.fingerprint == KnownSource(h)
    ensures Fold(h).None? ==> KnownSource(h) == None
  {
    if h != [] { FoldKnowsSource(h[..|h| - 1]); }
  }

  function Count(v: Option<Verdict>, kind: Kind): nat {
    if v.None? then 0 else if kind == Silent then v.value.silent else if kind == Partial then v.value.partial else 0
  }

  /** How one event moves the counter of `kind`; `change` says whether it shows other media. */
  function NextCount(e: Event, change: bool, kind: Kind, before: nat): nat {
    if !Content(e) then before
    else if e.o.kind != kind then 0
    else if change then 1 else before + 1
  }

  lemma {:induction false} ReactCounts(prior: Option<Verdict>, e: Event, kind: Kind)
    requires kind == Silent || kind == Partial
    ensures Count(React(prior, e), kind) == NextCount(e, e.Observed? && FreshSource(prior, e.o), kind, Count(prior, kind))
  {}

  lemma {:induction false} FoldCounts(h: seq<Event>, kind: Kind)
    requires h != [] && (kind == Silent || kind == Partial)
    ensures Count(Fold(h), kind) == NextCount(h[|h| - 1], SourceChange(h, |h| - 1), kind, Count(Fold(h[..|h| - 1]), kind))
  {
    FoldKnowsSource(h[..|h| - 1]);
    ReactCounts(Fold(h[..|h| - 1]), h[|h| - 1], kind);
  }

  lemma {:induction false} SourceChangePrefix(h: seq<Event>, n: nat, i: nat)
    requires i < n <= |h|
    ensures SourceChange(h[..n], i) == SourceChange(h, i)
  {
    assert h[..n][..i] == h[..i];
  }

  lemma {:induction false} ContentCountTail(h: seq<Event>, start: nat)
    requires start <= |h| && forall i :: start <= i < |h| ==> !Content(h[i])
    ensures ContentCount(h, start) == 0
    decreases |h|
  {
    if start < |h| { ContentCountTail(h[..|h| - 1], start); }
  }

  /** The last content event known to exist, because a source is on record. */
  lemma {:induction false} LastContentOf(h: seq<Event>) returns (c: nat)
    requires KnownSource(h).Some?
    ensures c < |h| && Content(h[c]) && forall i :: c < i < |h| ==> !Content(h[i])
  {
    var n := |h| - 1;
    if Content(h[n]) { c := n; } else { c := LastContentOf(h[..n]); }
  }

  lemma {:induction false} BlockExtends(h: seq<Event>, kind: Kind, start: nat)
    requires h != [] && TrailingBlock(h[..|h| - 1], kind, start)
    requires Content(h[|h| - 1]) ==> h[|h| - 1].o.kind == kind && !SourceChange(h, |h| - 1)
    ensures TrailingBlock(h, kind, start)
  {
    var n := |h| - 1;
    var front := h[..n];
    forall i, j | start <= i < j < |h| && Content(h[i]) ensures !SourceChange(h, j) {
      if j < n { SourceChangePrefix(h, n, j); assert Content(front[i]); }
    }
    if start > 0 && front[start - 1].o.kind == kind {
      var j :| start <= j < n && SourceChange(front, j) && forall i :: start <= i < j ==> !Content(front[i]);
      SourceChangePrefix(h, n, j);
      assert OpensWithChange(h, start);
    }
  }

  /** Main history result: the stored counter is the length of the trailing block of its kind,
      transport failures and operator actions passed over. */
  lemma {:induction false} CounterIsTrailingBlock(h: seq<Event>, kind: Kind) returns (start: nat)
    requires kind == Silent || kind == Partial
    ensures TrailingBlock(h, kind, start) && Count(Fold(h), kind) == ContentCount(h, start)
  {
    if h == [] { return 0; }
    var n := |h| - 1;
    FoldCounts(h, kind);
    start := CounterIsTrailingBlock(h[..n], kind);
    if !Content(h[n]) {
      BlockExtends(h, kind, start);
    } else if h[n].o.kind != kind {
      start := |h|;
    } else if SourceChange(h, n) {
      var c := LastContentOf(h[..n]);
      start := c + 1;
      assert forall i :: start <= i < n ==> !Content(h[i]);
      ContentCountTail(h[..n], start);
      assert OpensWithChange(h, start);
    } else {
      BlockExtends(h, kind, start);
    }
  }

  /** There is only one trailing block, so the count is determined by the history alone. */
  lemma {:induction false} TrailingBlockUnique(h: seq<Event>, kind: Kind, a: nat, b: nat)
    requires TrailingBlock(h, kind, a) && TrailingBlock(h, kind, b)
    ensures a == b
  {
    BlockOrder(h, kind, a, b);
    BlockOrder(h, kind, b, a);
  }

  lemma {:induction false} BlockOrder(h: seq<Event>, kind: Kind, a: nat, b: nat)
    requires TrailingBlock(h, kind, b)
    ensures a < b ==> !TrailingBlock(h, kind, a)
  {
    if a < b && h[b - 1].o.kind == kind {
      var j :| b <= j < |h| && SourceChange(h, j) && forall i :: b <= i < j ==> !Content(h[i]);
    }
  }

  /** The state's confirmation level is the counter's: confirmed from two on, suspected at one. */
  predicate Levels(v: Verdict) {
    && (v.state == ConfirmedEmpty <==> v.silent >= CONFIRM_THRESHOLD) && (v.state == SuspectedEmpty <==> v.silent == 1)
    && (v.state == ConfirmedPartial <==> v.partial >= CONFIRM_THRESHOLD) && (v.state == SuspectedPartial <==> v.partial == 1)
  }

  lemma {:induction false} ClassifyLevels(prior: Option<Verdict>, o: Observation)
    requires prior.Some? ==> Levels(prior.value)
    ensures Classify(prior, o).Some? ==> Levels(Classify(prior, o).value)
  {}

  lemma {:induction false} StateFollowsCounters(h: seq<Event>)
    ensures Fold(h).Some? ==> Levels(Fold(h).value)
  {
    if h != [] {
      var n := |h| - 1;
      StateFollowsCounters(h[..n]);
      if h[n].Observed? { ClassifyLevels(Fold(h[..n]), h[n].o); }
    }
  }

  /** So a recording is confirmed empty exactly when the silent block at the end of its history holds two
      observations or more, and confirmed partial likewise. */
  lemma {:induction false} ConfirmedMeans(h: seq<Event>)
    requires Fold(h).Some?
    ensures Fold(h).value.state == ConfirmedEmpty <==>
              exists start: nat :: TrailingBlock(h, Silent, start) && ContentCount(h, start) >= 2
    ensures Fold(h).value.state == ConfirmedPartial <==>
              exists start: nat :: TrailingBlock(h, Partial, start) && ContentCount(h, start) >= 2
  {
    StateFollowsCounters(h);
    var a := CounterIsTrailingBlock(h, Silent);
    var b := CounterIsTrailingBlock(h, Partial);
    forall start: nat | TrailingBlock(h, Silent, start) ensures start == a { TrailingBlockUnique(h, Silent, start, a); }
    forall start: nat | TrailingBlock(h, Partial, start) ensures start == b { TrailingBlockUnique(h, Partial, start, b); }
  }

  // ---------------------------------------------------------------- transport failures say nothing

  ghost predicate SameButCheck(a: Option<Verdict>, b: Option<Verdict>) {
    if a.None? then b.None? else b.Some? && a.value.(lastCheck := "") == b.value.(lastCheck := "")
  }

  predicate Transport(e: Event) { e.Observed? && e.o.kind == TransportFailed }

  function WithoutTransport(h: seq<Event>): seq<Event> {
    if h == [] then []
    else WithoutTransport(h[..|h| - 1]) + if Transport(h[|h| - 1]) then [] else [h[|h| - 1]]
  }

  lemma {:induction false} ReactIgnoresCheck(a: Option<Verdict>, b: Option<Verdict>, e: Event)
    requires SameButCheck(a, b)
    ensures SameButCheck(React(a, e), React(b, e))
    ensures Transport(e) ==> SameButCheck(React(a, e), b)
  {}

  lemma {:induction false} FoldSnoc(h: seq<Event>, e: Event)
    ensures Fold(h + [e]) == React(Fold(h), e)
  {
    assert (h + [e])[..|h|] == h;
  }

  /** Deleting every transport failure from a history changes nothing but the last-check stamp. */
  lemma {:induction false} TransportSaysNothing(h: seq<Event>)
    ensures SameButCheck(Fold(h), Fold(WithoutTransport(h)))
  {
    if h != [] {
      var n := |h| - 1;
      var front := WithoutTransport(h[..n]);
      TransportSaysNothing(h[..n]);
      ReactIgnoresCheck(Fold(h[..n]), Fold(front), h[n]);
      FoldSnoc(front, h[n]);
      assert front + [] == front;
    }
  }

  // ---------------------------------------------------------------- operator overrides

  /** The operator's last word, at event `p`, is the override `s`, and no other media were seen since. */
  ghost predicate InForce(h: seq<Event>, p: nat, s: State) {
    && p < |h| && h[p].Operator? && h[p].state == Some(s)
    && forall i :: p < i < |h| ==> h[i].Observed? && !SourceChange(h, i)
  }

  lemma {:induction false} InForceFront(h: seq<Event>, p: nat, s: State)
    requires h != [] && h[|h| - 1].Observed?
    ensures InForce(h, p, s) <==> InForce(h[..|h| - 1], p, s) && !SourceChange(h, |h| - 1)
  {
    var n := |h| - 1;
    forall i | 0 <= i < n ensures SourceChange(h[..n], i) == SourceChange(h, i) { SourceChangePrefix(h, n, i); }
  }

  /** The stored override is the one in force. */
  lemma {:induction false} OverrideIsInForce(h: seq<Event>)
    ensures forall p: nat, s :: InForce(h, p, s) ==> Fold(h).Some? && Fold(h).value.override == Some(s)
    ensures Fold(h).Some? && Fold(h).value.override.Some? ==> exists p: nat, s :: InForce(h, p, s)
    ensures forall p: nat, s :: InForce(h, p, s) ==> Fold(h).value.overrideReason == h[p].reason
    ensures Fold(h).Some? && Fold(h).value.override.None? ==> Fold(h).value.overrideReason == ""
  {
    if h != [] {
      var n := |h| - 1;
      var front := h[..n];
      OverrideIsInForce(front);
      if h[n].Observed? {
        FoldKnowsSource(front);
        if Fold(front).Some? { OverrideStep(Fold(front), h[n].o); }
        assert Fold(front).Some? ==> SourceChange(h, n) == (Content(h[n]) && FreshSource(Fold(front), h[n].o));
        forall p: nat, s ensures InForce(h, p, s) <==> InForce(front, p, s) && !SourceChange(h, n) { InForceFront(h, p, s); }
      } else if h[n].state.Some? {
        assert InForce(h, n, h[n].state.value);
      }
    }
  }

  /** An override set at event `p` and not touched by the operator since is in force exactly until the
      first observation of other media; while it is, it is the effective state. */
  lemma {:induction false} OverrideHolds(h: seq<Event>, p: nat, s: State)
    requires p < |h| && h[p].Operator? && h[p].state == Some(s)
    requires forall i :: p < i < |h| ==> h[i].Observed?
    ensures Fold(h).Some?
    ensures Fold(h).value.override == (if exists i :: p < i < |h| && SourceChange(h, i) then None else Some(s))
    ensures (forall i :: p < i < |h| ==> !SourceChange(h, i)) ==> Fold(h).value.Effective() == s
    decreases |h|
  {
    var n := |h| - 1;
    if p < n {
      var front := h[..n];
      OverrideHolds(front, p, s);
      FoldKnowsSource(front);
      forall i | p < i < n ensures SourceChange(front, i) == SourceChange(h, i) { SourceChangePrefix(h, n, i); }
      OverrideStep(Fold(front), h[n].o);
      assert SourceChange(h, n) == (Content(h[n]) && FreshSource(Fold(front), h[n].o));
    }
  }

  lemma {:induction false} OverrideStep(prior: Option<Verdict>, o: Observation)
    requires prior.Some?
    ensures var v := Classify(prior, o);
            v.Some? && v.value.override == if o.kind != TransportFailed && FreshSource(prior, o) then None else prior.value.override
  {}

  // ---------------------------------------------------------------- recovery

  /** The last content event of a history. */
  ghost predicate IsLast(h: seq<Event>, c: nat) {
    c < |h| && Content(h[c]) && forall i :: c < i < |h| ==> !Content(h[i])
  }

  ghost predicate NoContent(h: seq<Event>) { forall i :: 0 <= i < |h| ==> !Content(h[i]) }

  /** The stored state comes from the last content observation, as if it had just been classified. */
  lemma {:induction false} StateOfLast(h: seq<Event>, c: nat)
    requires IsLast(h, c)
    ensures Fold(h).Some? && Fold(h).value.state == Classify(Fold(h[..c]), h[c].o).value.state
    decreases |h|
  {
    var n := |h| - 1;
    if c < n {
      StateOfLast(h[..n], c);
      assert h[..n][..c] == h[..c];
    }
  }

  /** Before any, it is the operator's blank verdict, if there is one. */
  lemma {:induction false} StateOfNone(h: seq<Event>)
    requires NoContent(h)
    ensures Fold(h).Some? ==> Fold(h).value.state == AvailableMedia
  {
    if h != [] { StateOfNone(h[..|h| - 1]); }
  }

  lemma {:induction false} LastOrNone(h: seq<Event>)
    ensures NoContent(h) || exists c: nat :: IsLast(h, c)
  {
    if h != [] {
      var n := |h| - 1;
      LastOrNone(h[..n]);
      if Content(h[n]) {
        assert IsLast(h, n);
      } else if c: nat :| IsLast(h[..n], c) {
        assert IsLast(h, c);
      }
    }
  }

  /** What the history makes of the recording for those who serve it: the override in force, or else the
      kind of its last content. */
  ghost predicate HeldBack(h: seq<Event>) {
    if exists p: nat, s :: InForce(h, p, s) then
      exists p: nat, s :: InForce(h, p, s) && s in {SuspectedEmpty, ConfirmedEmpty, Missing, Invalid}
    else exists b: nat :: IsLast(h, b) && h[b].o.kind in {Silent, Dead, Absent}
  }

  lemma {:induction false} HeldBackIsWithheld(h: seq<Event>)
    ensures HeldBack(h) <==> Fold(h).Some? && Fold(h).value.IsWithheld()
  {
    OverrideIsInForce(h);
    LastOrNone(h);
    if NoContent(h) {
      StateOfNone(h);
    } else {
      var b: nat :| IsLast(h, b);
      StateOfLast(h, b);
      WithheldKinds(Fold(h[..b]), h[b].o);
    }
  }

  /** A recording counts as recovered exactly when its last content was found playable while it was held
      back, by an operator or for what was found before, and is of the same media. */
  lemma {:induction false} RecoveredMeans(h: seq<Event>, c: nat)
    requires IsLast(h, c)
    ensures Fold(h).Some?
    ensures Fold(h).value.state == Recovered <==> h[c].o.kind == Playable && !SourceChange(h, c) && HeldBack(h[..c])
  {
    StateOfLast(h, c);
    FoldKnowsSource(h[..c]);
    HeldBackIsWithheld(h[..c]);
  }

  lemma {:induction false} WithheldKinds(prior: Option<Verdict>, o: Observation)
    requires o.kind != TransportFailed
    ensures Withheld(Classify(prior, o).value.state) <==> o.kind in {Silent, Dead, Absent}
  {}

  // ---------------------------------------------------------------- the verdict read off the history

  /** Which kind of last content each state stands for. */
  lemma {:induction false} StateTellsKind(h: seq<Event>, c: nat)
    requires IsLast(h, c)
    ensures Fold(h).Some?
    ensures Fold(h).value.state == Invalid <==> h[c].o.kind == Dead
    ensures Fold(h).value.state == Missing <==> h[c].o.kind == Absent
    ensures Fold(h).value.state in {SuspectedEmpty, ConfirmedEmpty} <==> h[c].o.kind == Silent
    ensures Fold(h).value.state in {SuspectedPartial, ConfirmedPartial} <==> h[c].o.kind == Partial
    ensures Fold(h).value.state in {AvailableMedia, Recovered} <==> h[c].o.kind == Playable
  {
    StateOfLast(h, c);
  }

  /** The event makes a verdict where there was none. */
  predicate Founds(e: Event) { Content(e) || (e.Operator? && e.state.Some?) }

  function NowOf(e: Event): string { if e.Observed? then e.o.now else e.now }

  /** There is a verdict from the first content or override on; without content its state is the blank
      one; and its check stamp is the last event's. */
  lemma {:induction false} VerdictExists(h: seq<Event>)
    ensures Fold(h).Some? <==> exists i :: 0 <= i < |h| && Founds(h[i])
    ensures Fold(h).Some? && NoContent(h) ==> Fold(h).value.state == AvailableMedia && Fold(h).value.reason == ByOperator
    ensures Fold(h).Some? ==> Fold(h).value.lastCheck == NowOf(h[|h| - 1])
  {
    if h != [] { VerdictExists(h[..|h| - 1]); }
  }

  /** The last content observation that names its source. */
  ghost predicate LastNamed(h: seq<Event>, i: nat) {
    && i < |h| && Content(h[i]) && h[i].o.fingerprint.Some? && h[i].o.fingerprint != Some("")
    && forall j :: i < j < |h| && Content(h[j]) ==> h[j].o.fingerprint.None? || h[j].o.fingerprint == Some("")
  }

  lemma {:induction false} KnownSourceMeans(h: seq<Event>)
    ensures forall i: nat :: LastNamed(h, i) ==> KnownSource(h) == h[i].o.fingerprint
    ensures KnownSource(h).Some? ==> exists i: nat :: LastNamed(h, i)
  {
    if h != [] {
      var n := |h| - 1;
      var front := h[..n];
      KnownSourceMeans(front);
      if Content(h[n]) && h[n].o.fingerprint.Some? && h[n].o.fingerprint != Some("") {
        assert LastNamed(h, n);
      } else {
        forall i: nat ensures LastNamed(h, i) <==> LastNamed(front, i) {}
      }
    }
  }

  ghost predicate LastProfiled(h: seq<Event>, i: nat) {
    i < |h| && Content(h[i]) && h[i].o.profile != "" && forall j :: i < j < |h| && Content(h[j]) ==> h[j].o.profile == ""
  }

  lemma {:induction false} ProfileStep(prior: Option<Verdict>, e: Event)
    ensures React(prior, e).None? ==> prior.None? && !Content(e)
    ensures React(prior, e).Some? ==>
              React(prior, e).value.profile ==
              if Content(e) && e.o.profile != "" then e.o.profile else if prior.Some? then prior.value.profile else ""
  {}

  /** The profile is the last one a content observation gave. */
  lemma {:induction false} ProfileMeans(h: seq<Event>)
    ensures forall i: nat :: LastProfiled(h, i) ==> Fold(h).Some? && Fold(h).value.profile == h[i].o.profile
    ensures Fold(h).Some? && Fold(h).value.profile != "" ==> exists i: nat :: LastProfiled(h, i)
  {
    if h != [] {
      var n := |h| - 1;
      ProfileMeans(h[..n]);
      ProfileStep(Fold(h[..n]), h[n]);
      if Content(h[n]) && h[n].o.profile != "" {
        assert LastProfiled(h, n);
      } else {
        forall i: nat ensures LastProfiled(h, i) <==> LastProfiled(h[..n], i) {}
      }
    }
  }

  /** The reason is the last content's own, or the default for the state and the count. */
  lemma {:induction false} ReasonMeans(h: seq<Event>, c: nat)
    requires IsLast(h, c)
    ensures Fold(h).Some?
    ensures var v := Fold(h).value;
            v.reason == if h[c].o.reason != "" then Given(h[c].o.reason) else Default(v.state, v.silent + v.partial)
    decreases |h|
  {
    if c < |h| - 1 { ReasonMeans(h[..|h| - 1], c); }
  }

  /** At event `r` playable audio of the same media was found while the recording was held back. */
  ghost predicate RecoversAt(h: seq<Event>, r: nat) {
    r < |h| && Content(h[r]) && h[r].o.kind == Playable && !SourceChange(h, r) && HeldBack(h[..r])
  }

  /** The last recovery of the media on record. */
  ghost predicate LastRecovery(h: seq<Event>, r: nat) {
    RecoversAt(h, r) && forall i :: r < i < |h| ==> !RecoversAt(h, i) && !SourceChange(h, i)
  }

  lemma {:induction false} RecoversFront(h: seq<Event>, n: nat, r: nat)
    requires r < n <= |h|
    ensures RecoversAt(h[..n], r) <==> RecoversAt(h, r)
  {
    SourceChangePrefix(h, n, r);
    assert h[..n][..r] == h[..r];
  }

  lemma {:induction false} RecoveryFront(h: seq<Event>, r: nat)
    requires h != [] && !RecoversAt(h, |h| - 1)
    ensures LastRecovery(h, r) <==> LastRecovery(h[..|h| - 1], r) && !SourceChange(h, |h| - 1)
  {
    var n := |h| - 1;
    forall i | 0 <= i < n ensures (RecoversAt(h[..n], i) <==> RecoversAt(h, i)) && SourceChange(h[..n], i) == SourceChange(h, i) {
      RecoversFront(h, n, i);
      SourceChangePrefix(h, n, i);
    }
  }

  /** How one event moves the recovery stamp. */
  lemma {:induction false} RecoveryStep(h: seq<Event>)
    requires h != [] && Fold(h).Some?
    ensures var n := |h| - 1;
            Fold(h).value.recoveredAt ==
              if RecoversAt(h, n) then Some(h[n].o.now)
              else if SourceChange(h, n) || Fold(h[..n]).None? then None
              else Fold(h[..n]).value.recoveredAt
  {
    FoldKnowsSource(h[..|h| - 1]);
    HeldBackIsWithheld(h[..|h| - 1]);
  }

  /** The recovery stamp is that of the last recovery, if no other media were seen since. */
  lemma {:induction false} RecoveredAtMeans(h: seq<Event>)
    ensures Fold(h).None? ==> forall r: nat :: !LastRecovery(h, r)
    ensures forall r: nat :: Fold(h).Some? && LastRecovery(h, r) ==> Fold(h).value.recoveredAt == Some(h[r].o.now)
    ensures Fold(h).Some? && Fold(h).value.recoveredAt.Some? ==> exists r: nat :: LastRecovery(h, r)
  {
    if h != [] {
      var n := |h| - 1;
      RecoveredAtMeans(h[..n]);
      if Fold(h).Some? { RecoveryStep(h); }
      if RecoversAt(h, n) {
        assert LastRecovery(h, n);
      } else {
        forall r: nat ensures LastRecovery(h, r) <==> LastRecovery(h[..n], r) && !SourceChange(h, n) { RecoveryFront(h, r); }
        HeldBackIsWithheld(h[..n]);
      }
    }
  }

  // ---------------------------------------------------------------- the measure of content

  datatype Interval = Interval(start: int, end: int)

  predicate Covers(s: Interval, t: int) { s.start <= t < s.end }

  ghost predicate Covered(silences: seq<Interval>, t: int) { exists k :: 0 <= k < |silences| && Covers(silences[k], t) }

  /** The milliseconds of `[0, duration)` that no silence span covers, and those that one does. */
  ghost function Audible(silences: seq<Interval>, duration: int): set<int> {
    set t | 0 <= t < duration && !Covered(silences, t)
  }

  ghost function Silenced(silences: seq<Interval>, duration: int): set<int> {
    set t | 0 <= t < duration && Covered(silences, t)
  }

  function Clamp(s: Interval, duration: int): Interval {
    Interval(Max(0, Min(s.start, duration)), Max(0, Min(s.end, duration)))
  }

  predicate Earlier(a: Interval, b: Interval) { a.start < b.start || (a.start == b.start && a.end <= b.end) }

  ghost function Range(a: int, b: int): (r: set<int>)
    ensures forall t :: t in r <==> a <= t < b
    ensures |r| == Max(0, b - a)
    decreases b - a
  {
    if a >= b then {} else Range(a, b - 1) + {b - 1}
  }

  /** The spans clamped to the source and kept where they are not empty. */
  method ClampAll(silences: seq<Interval>, duration: int) returns (clamped: seq<Interval>)
    requires duration > 0
    ensures forall k :: 0 <= k < |clamped| ==> 0 <= clamped[k].start < clamped[k].end <= duration
    ensures forall t :: 0 <= t < duration ==> (Covered(clamped, t) <==> Covered(silences, t))
  {
    clamped := [];
    for i := 0 to |silences|
      invariant forall k :: 0 <= k < |clamped| ==> 0 <= clamped[k].start < clamped[k].end <= duration
      invariant forall t :: 0 <= t < duration ==> (Covered(clamped, t) <==> Covered(silences[..i], t))
    {
      var c := Clamp(silences[i], duration);
      forall t | 0 <= t < duration
        ensures Covered(silences[..i + 1], t) <==> Covered(silences[..i], t) || Covers(c, t)
        ensures Covered(clamped + [c], t) <==> Covered(clamped, t) || Covers(c, t)
      {
        assert silences[..i + 1] == silences[..i] + [silences[i]];
        CoveredSnoc(silences[..i], silences[i], t);
        CoveredSnoc(clamped, c, t);
      }
      if c.end > c.start { clamped := clamped + [c]; }
    }
    assert silences[..|silences|] == silences;
  }

  lemma {:induction false} CoveredSnoc(spans: seq<Interval>, s: Interval, t: int)
    ensures Covered(spans + [s], t) <==> Covered(spans, t) || Covers(s, t)
  {
    if Covers(s, t) { assert (spans + [s])[|spans|] == s; }
    if Covered(spans, t) {
      var k :| 0 <= k < |spans| && Covers(spans[k], t);
      assert (spans + [s])[k] == spans[k];
    }
  }

  lemma {:induction false} CoveredSame(a: seq<Interval>, b: seq<Interval>, t: int)
    requires forall s :: s in a ==> s in b
    ensures Covered(a, t) ==> Covered(b, t)
  {
    if Covered(a, t) {
      var k :| 0 <= k < |a| && Covers(a[k], t);
      assert a[k] in b;
    }
  }

  /** A set of silent milliseconds in which `run` is the open last run and `silent` counts the rest. */
  ghost predicate RunsOf(milliseconds: set<int>, silent: int, run: Interval) {
    && run.start < run.end
    && |milliseconds| == silent + run.end - run.start
    && (forall t :: t in milliseconds ==> t < run.end)
    && (forall t :: run.start <= t < run.end ==> t in milliseconds)
  }

  /** The merge loop after the first `i` sorted spans: `silent` closed milliseconds and one open run. */
  ghost predicate Merged(spans: seq<Interval>, i: nat, duration: int, silent: int, run: Option<Interval>) {
    && i <= |spans|
    && (if run.None? then i == 0 && silent == 0
        else i > 0 && run.value.start <= spans[i - 1].start && RunsOf(Silenced(spans[..i], duration), silent, run.value))
  }

  lemma {:induction false} SilencedSnoc(spans: seq<Interval>, i: nat, duration: int)
    requires i < |spans| && 0 <= spans[i].start < spans[i].end <= duration
    ensures Silenced(spans[..i + 1], duration) == Silenced(spans[..i], duration) + Range(spans[i].start, spans[i].end)
  {
    assert spans[..i + 1] == spans[..i] + [spans[i]];
    forall t ensures Covered(spans[..i + 1], t) <==> Covered(spans[..i], t) || Covers(spans[i], t) { CoveredSnoc(spans[..i], spans[i], t); }
  }

  function Merge(run: Option<Interval>, s: Interval): Interval {
    if run.Some? && s.start <= run.value.end then Interval(run.value.start, Max(run.value.end, s.end)) else s
  }

  function Closed(run: Option<Interval>, s: Interval): int {
    if run.Some? && s.start > run.value.end then run.value.end - run.value.start else 0
  }

  lemma {:induction false} AddedSize(before: set<int>, run: Interval, s: Interval)
    requires run.start <= s.start < s.end && run.start < run.end
    requires (forall t :: t in before ==> t < run.end) && (forall t :: run.start <= t < run.end ==> t in before)
    ensures |before + Range(s.start, s.end)| == |before| + Max(0, s.end - Max(s.start, run.end))
  {
    var added := Range(Max(s.start, run.end), s.end);
    assert before + Range(s.start, s.end) == before + added;
    assert before !! added;
  }

  lemma {:induction false} AddRange(before: set<int>, silent: int, run: Interval, s: Interval)
    requires RunsOf(before, silent, run) && run.start <= s.start < s.end
    ensures RunsOf(before + Range(s.start, s.end), silent + Closed(Some(run), s), Merge(Some(run), s))
  {
    AddedSize(before, run, s);
  }

  lemma {:induction false} MergeStep(spans: seq<Interval>, i: nat, duration: int, silent: int, run: Option<Interval>)
    requires i < |spans| && Merged(spans, i, duration, silent, run)
    requires 0 <= spans[i].start < spans[i].end <= duration && (i > 0 ==> spans[i - 1].start <= spans[i].start)
    ensures Merged(spans, i + 1, duration, silent + Closed(run, spans[i]), Some(Merge(run, spans[i])))
  {
    var s := spans[i];
    SilencedSnoc(spans, i, duration);
    if run.None? {
      assert Silenced(spans[..i], duration) + Range(s.start, s.end) == Range(s.start, s.end);
    } else {
      AddRange(Silenced(spans[..i], duration), silent, run.value, s);
    }
  }

  ghost predicate Clamped(spans: seq<Interval>, duration: int) {
    forall k :: 0 <= k < |spans| ==> 0 <= spans[k].start < spans[k].end <= duration
  }

  ghost predicate SortedSpans(spans: seq<Interval>) { forall i, j :: 0 <= i < j < |spans| ==> Earlier(spans[i], spans[j]) }

  lemma {:induction false} SortSpans(clamped: seq<Interval>, duration: int)
    requires Clamped(clamped, duration)
    ensures var spans := Sorting.Sort(Earlier, clamped);
            Clamped(spans, duration) && SortedSpans(spans) && forall t :: Covered(spans, t) <==> Covered(clamped, t)
  {
    var spans := Sorting.Sort(Earlier, clamped);
    Sorting.SortKeeps(Earlier, clamped);
    Sorting.SortSorts(Earlier, clamped);
    forall t ensures Covered(spans, t) <==> Covered(clamped, t) {
      CoveredSame(spans, clamped, t);
      CoveredSame(clamped, spans, t);
    }
    forall k | 0 <= k < |spans| ensures 0 <= spans[k].start < spans[k].end <= duration {
      assert spans[k] in spans && spans[k] in clamped;
    }
  }

  /** The merge loop: the measure of the union of sorted, clamped spans. */
  method MergeAll(spans: seq<Interval>, duration: int) returns (silent: int)
    requires Clamped(spans, duration) && SortedSpans(spans)
    ensures silent == |Silenced(spans, duration)|
  {
    silent := 0;
    var run: Option<Interval> := None;
    for i := 0 to |spans|
      invariant Merged(spans, i, duration, silent, run)
    {
      var s := spans[i];
      assert i > 0 ==> Earlier(spans[i - 1], s);
      MergeStep(spans, i, duration, silent, run);
      if run.None? {
        run := Some(s);
      } else if s.start <= run.value.end {
        run := Some(Interval(run.value.start, Max(run.value.end, s.end)));
      } else {
        silent := silent + (run.value.end - run.value.start);
        run := Some(s);
      }
    }
    if run.Some? { silent := silent + (run.value.end - run.value.start); }
    assert spans[..|spans|] == spans;
    if spans == [] { assert Silenced(spans, duration) == {}; }
  }

  /** `content_seconds`, in milliseconds: the measure of `[0, duration]` minus the union of the spans,
      whatever their order, overlaps and ends. */
  method ContentMillis(silences: seq<Interval>, duration: int) returns (r: int)
    ensures r == |Audible(silences, duration)|
  {
    if duration <= 0 {
      assert Audible(silences, duration) == {};
      return 0;
    }
    var clamped := ClampAll(silences, duration);
    SortSpans(clamped, duration);
    var spans := Sorting.Sort(Earlier, clamped);
    var silent := MergeAll(spans, duration);
    assert Silenced(spans, duration) == Silenced(silences, duration);
    Complement(silences, duration);
    r := Max(0, duration - silent);
  }

  lemma {:induction false} Complement(silences: seq<Interval>, duration: int)
    requires duration > 0
    ensures |Audible(silences, duration)| + |Silenced(silences, duration)| == duration
  {
    var all := Range(0, duration);
    assert all == Audible(silences, duration) + Silenced(silences, duration);
    assert Audible(silences, duration) !! Silenced(silences, duration);
  }

  /** The measure lies within the source, sees the spans only as a set, and never grows with a span. */
  lemma {:induction false} MeasureLaws(a: seq<Interval>, b: seq<Interval>, duration: int)
    requires forall s :: s in a ==> s in b
    ensures 0 <= |Audible(b, duration)| <= |Audible(a, duration)| <= Max(0, duration)
    ensures (forall s :: s in b ==> s in a) ==> Audible(a, duration) == Audible(b, duration)
  {
    forall t ensures Covered(a, t) ==> Covered(b, t) { CoveredSame(a, b, t); }
    Subset(Audible(b, duration), Audible(a, duration));
    Subset(Audible(a, duration), Range(0, duration));
    if forall s :: s in b ==> s in a {
      forall t ensures Covered(b, t) ==> Covered(a, t) { CoveredSame(b, a, t); }
    }
  }

  lemma {:induction false} Subset(a: set<int>, b: set<int>)
    requires a <= b
    ensures |a| <= |b|
  {
    assert b == a + (b - a);
  }

  /** `is_effectively_silent`, with the two floors it takes, by default five seconds and two percent: there is
      less content than one of them asks for. */
  method EffectivelySilent(silences: seq<Interval>, duration: int, minMillis: int, minFraction: real) returns (r: bool)
    ensures var content := |Audible(silences, duration)| as real;
            r <==> duration > 0 && (content < minMillis as real || content < duration as real * minFraction)
  {
    if duration <= 0 { return false; }
    var part := duration as real * minFraction;
    var floor := if minMillis as real >= part then minMillis as real else part;
    var content := ContentMillis(silences, duration);
    return content as real < floor;
  }
}
