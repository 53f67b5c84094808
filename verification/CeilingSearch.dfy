/** The search for a route's input ceiling: a binary search against an arbitrary endpoint, with
    throttle and transport retries, a shrinking upper bound, and a confirmation phase. */
module CeilingSearch {
  import opened ProbeLedger
  import opened Wrappers

  /** What the world holds for one call of `send_request`. */
  datatype Exchange = Exchange(elapsedBefore: int, elapsedAfter: int, keyPresent: bool, reply: Response)

  /** The endpoint and the clock: any function of the call number and the probed size. */
  type World = (nat, int) -> Exchange

  datatype Abort = ProbeBudgetExceeded | RouteBudgetExceeded

  /** A live reply is never a dry run. */
  predicate Live(r: Response) { r.Response? }

  const KEY_MISSING := Response(false, None, false, None)

  function Answer(world: World, apply: bool, call: nat, size: int): Response {
    if !apply then DryRun else if !world(call, size).keyPresent then Response(false, None, false, None) else world(call, size).reply
  }

  ghost predicate Recorded(world: World, apply: bool, p: Probe) {
    p.response == Answer(world, apply, p.call, p.size)
  }

  // ---------------------------------------------------------------- the runner and its budgets

  class RateProbeRunner {
    const world: World
    const apply: bool
    const hook: bool
    const maxPerRoute: nat
    const maxTotal: nat
    const maxWall: int
    var calls: nat
    var totalRequests: nat
    var routeRequests: map<string, nat>
    ghost var transcript: seq<Probe>

    /** No budget is ever overspent, and every recorded response is the world's answer. */
    ghost predicate Valid()
      reads this
    {
      && totalRequests <= maxTotal
      && (forall r :: r in routeRequests ==> routeRequests[r] <= maxPerRoute && routeRequests[r] <= totalRequests)
      && (forall n, s :: Live(world(n, s).reply))
      && (forall k :: 0 <= k < |transcript| ==> Recorded(world, apply, transcript[k]))
    }

    constructor (world: World, apply: bool, hook: bool, maxPerRoute: nat, maxTotal: nat, maxWall: int)
      requires forall n, s :: Live(world(n, s).reply)
      ensures Valid() && transcript == [] && calls == totalRequests == 0 && routeRequests == map[]
      ensures this.world == world && this.apply == apply && this.hook == hook
      ensures this.maxPerRoute == maxPerRoute && this.maxTotal == maxTotal && this.maxWall == maxWall
    {
      this.world, this.apply, this.hook := world, apply, hook;
      this.maxPerRoute, this.maxTotal, this.maxWall := maxPerRoute, maxTotal, maxWall;
      calls, totalRequests, routeRequests, transcript := 0, 0, map[], [];
    }

    function Count(route: string): nat
      reads this
    {
      if route in routeRequests then routeRequests[route] else 0
    }

    /** Both request budgets have room for `n` more. */
    predicate HasRoom(route: string, n: nat)
      reads this
    {
      totalRequests + n <= maxTotal && Count(route) + n <= maxPerRoute
    }

    /** The wall clock never runs out. */
    ghost predicate Timely() {
      forall n, s :: world(n, s).elapsedBefore < maxWall && world(n, s).elapsedAfter < maxWall
    }

    /** What an abort says: the clock or the total ran out, or the route's share did. */
    ghost predicate Exhausted(route: string, a: Abort)
      reads this
    {
      match a
      case ProbeBudgetExceeded => !Timely() || totalRequests >= maxTotal
      case RouteBudgetExceeded => Count(route) >= maxPerRoute
    }

    method CheckBudgets(route: string, elapsed: int) returns (a: Option<Abort>)
      ensures a.None? <==> elapsed < maxWall && HasRoom(route, 1)
      ensures a == Some(RouteBudgetExceeded) <==> elapsed < maxWall && totalRequests < maxTotal && Count(route) >= maxPerRoute
    {
      if elapsed >= maxWall { return Some(ProbeBudgetExceeded); }
      if totalRequests >= maxTotal { return Some(ProbeBudgetExceeded); }
      var count := if route in routeRequests then routeRequests[route] else 0;
      if count >= maxPerRoute { return Some(RouteBudgetExceeded); }
      return None;
    }

    /** A live request goes out. */
    predicate Sends(x: Exchange) { apply && x.keyPresent }

    /** The call is answered exactly when the clock and both budgets allow it, before the hook and after;
        a request is counted exactly when one is sent. */
    method SendRequest(route: string, size: int) returns (abort: Option<Abort>, r: Response)
      requires Valid()
      modifies this
      ensures Valid() && calls == old(calls) + 1
      ensures abort.None? <==>
                var x := world(old(calls), size);
                x.elapsedBefore < maxWall && old(HasRoom(route, 1)) && (Sends(x) && hook ==> x.elapsedAfter < maxWall)
      ensures abort.Some? ==> Exhausted(route, abort.value)
      ensures r == Answer(world, apply, old(calls), size)
      ensures transcript == old(transcript) + if abort.None? then [Probe(old(calls), size, r)] else []
      ensures var sent := if abort.None? && Sends(world(old(calls), size)) then 1 else 0;
              totalRequests == old(totalRequests) + sent && Count(route) == old(Count(route)) + sent
      ensures forall x :: x != route ==> Count(x) == old(Count(x))
      ensures apply ==> Live(r)
    {
      var call := calls;
      var exchange := world(call, size);
      calls := calls + 1;
      if !apply { r := DryRun; }
      else if exchange.keyPresent { r := exchange.reply; }
      else { r := KEY_MISSING; }
      abort := CheckBudgets(route, exchange.elapsedBefore);
      if abort.Some? { return; }
      if apply && exchange.keyPresent {
        if hook {
          abort := CheckBudgets(route, exchange.elapsedAfter);
          if abort.Some? { return; }
        }
        totalRequests := totalRequests + 1;
        routeRequests := routeRequests[route := if route in routeRequests then routeRequests[route] + 1 else 1];
      }
      ghost var p := Probe(call, size, r);
      assert Recorded(world, apply, p);
      transcript := transcript + [p];
    }
  }

  // ---------------------------------------------------------------- the search

  const DEFAULT_CONTEXT := 32000

  function ContextOf(limit: Option<int>): int {
    if limit.Some? && limit.value != 0 then limit.value else DEFAULT_CONTEXT
  }

  /** Some probe of this size got a usable completion. */
  ghost predicate Accepted(t: seq<Probe>, size: int) {
    exists k :: 0 <= k < |t| && t[k].size == size && t[k].response.Response? && t[k].response.usable
  }

  /** Some probe of this size, made after the first `from`, got a usable completion. */
  ghost predicate AcceptedSince(t: seq<Probe>, from: nat, size: int) {
    exists k :: from <= k < |t| && t[k].size == size && Served(t[k])
  }

  /** Some probe of this size was refused for its size, or the size exceeds the stated budget. */
  ghost predicate Refused(t: seq<Probe>, size: int, tpm: Option<nat>) {
    exists k :: 0 <= k < |t| && t[k].size == size && t[k].response.Response? && (SizeRefusal(t[k].response) || (tpm.Some? && tpm.value < size))
  }

  /** `low` is the accepted size, or the floor; no accepted size reaches the smallest rejected one. */
  ghost predicate Bounds(t: seq<Probe>, s: Search) {
    && (if s.observed.Some? then s.low == s.observed.value && Accepted(t, s.low) else s.low == FLOOR)
    && (s.rejected.Some? ==> s.low < s.rejected.value && Refused(t, s.rejected.value, s.tpm))
  }

  /** In the first phase, everything from the smallest rejected size on has been ruled out. */
  ghost predicate Ceiling(s: Search) {
    && (s.rejected.Some? && s.tpm != Some(0) ==> s.high <= s.rejected.value)
    && (s.tpm == Some(0) ==> s.observed.None?)
    && (Truthy(s.tpm) ==> s.high <= Max(s.low + 1, s.tpm.value))
  }

  ghost predicate Extends(t: seq<Probe>, u: seq<Probe>) { t <= u }

  ghost predicate Asked(t: seq<Probe>, mid: int, r: Response) {
    exists k :: 0 <= k < |t| && t[k].size == mid && t[k].response == r
  }

  lemma {:induction false} BoundsLater(t: seq<Probe>, u: seq<Probe>, s: Search, tpm: Option<nat>)
    requires Bounds(t, s) && Extends(t, u)
    requires s.tpm.Some? ==> tpm.Some? && tpm.value <= s.tpm.value
    ensures Bounds(u, s.(tpm := tpm))
  {
    assert forall k :: 0 <= k < |t| ==> u[k] == t[k];
  }

  lemma {:induction false} LearnKeeps(t: seq<Probe>, s: Search, reported: Option<nat>)
    requires Bounds(t, s) && Ceiling(s) && s.low < s.high
    ensures var s' := Learn(s, reported); Bounds(t, s') && Ceiling(s') && s'.low == s.low < s'.high <= s.high && s'.observed == s.observed
  {
    BoundsLater(t, t, s, Learn(s, reported).tpm);
  }

  lemma {:induction false} OverBudgetKeeps(t: seq<Probe>, s: Search, reported: Option<nat>, mid: int, r: Response)
    requires Bounds(t, s) && Ceiling(s) && s.low < mid < s.high && Asked(t, mid, r) && r.Response?
    requires OverBudget(Learn(s, reported), mid)
    ensures var s' := Reject(Learn(s, reported), mid); Bounds(t, s') && Ceiling(s')
  {
    LearnKeeps(t, s, reported);
    assert Refused(t, mid, Learn(s, reported).tpm);
  }

  lemma {:induction false} AcceptKeeps(t: seq<Probe>, s: Search, reported: Option<nat>, mid: int, r: Response)
    requires Bounds(t, s) && Ceiling(s) && s.low < mid < s.high && Asked(t, mid, r) && r.Response? && r.usable
    requires !OverBudget(Learn(s, reported), mid)
    ensures var s' := Learn(s, reported).(observed := Some(mid), low := mid); Bounds(t, s') && Ceiling(s')
  {
    LearnKeeps(t, s, reported);
    assert Accepted(t, mid);
  }

  lemma {:induction false} RefuseKeeps(t: seq<Probe>, s: Search, reported: Option<nat>, mid: int, r: Response)
    requires Bounds(t, s) && Ceiling(s) && s.low < mid < s.high && Asked(t, mid, r) && r.Response? && SizeRefusal(r)
    requires !OverBudget(Learn(s, reported), mid)
    ensures var s' := Reject(Learn(s, reported), mid).(high := mid); Bounds(t, s') && Ceiling(s')
  {
    LearnKeeps(t, s, reported);
    assert Refused(t, mid, s.tpm);
  }

  /** Every size served after the first `from` probes is accepted by the bounds, or over the budget. */
  ghost predicate Honest(t: seq<Probe>, from: nat, s: Search) {
    from <= |t| && forall k :: from <= k < |t| && Served(t[k]) ==> t[k].size <= s.low || OverBudget(s, t[k].size)
  }

  /** All probes of `u` after those of `t` ask for `mid`, and none is served unless `served`. */
  ghost predicate OnlyAsks(t: seq<Probe>, u: seq<Probe>, mid: int, served: bool) {
    Extends(t, u) && forall k :: |t| <= k < |u| ==> u[k].size == mid && (Served(u[k]) ==> served)
  }

  /** The budget is the one known before, or one a response after the first `from` quotes. */
  ghost predicate Stated(t: seq<Probe>, from: nat, prior: Option<nat>, tpm: Option<nat>) {
    tpm == prior || exists k :: from <= k < |t| && t[k].response.Response? && t[k].response.reported == tpm
  }

  lemma {:induction false} StatedLater(t: seq<Probe>, u: seq<Probe>, from: nat, prior: Option<nat>, before: Option<nat>, tpm: Option<nat>)
    requires Extends(t, u) && from <= |t| && Stated(t, from, prior, before) && Stated(u, |t|, before, tpm)
    ensures Stated(u, from, prior, tpm)
  {
    if tpm == before && before != prior {
      var k :| from <= k < |t| && t[k].response.Response? && t[k].response.reported == before;
      assert u[k] == t[k];
    }
  }

  lemma {:induction false} HonestLater(t: seq<Probe>, u: seq<Probe>, from: nat, s: Search, s': Search, mid: int, served: bool)
    requires Honest(t, from, s) && OnlyAsks(t, u, mid, served)
    requires s.low <= s'.low && (s.tpm.Some? ==> s'.tpm.Some? && s'.tpm.value <= s.tpm.value)
    requires served ==> mid <= s'.low || OverBudget(s', mid)
    ensures Honest(u, from, s')
  {
    forall k | from <= k < |u| && Served(u[k]) ensures u[k].size <= s'.low || OverBudget(s', u[k].size) {
      if k < |t| { assert u[k] == t[k]; }
    }
  }

  // ---------------------------------------------------------------- endpoints that keep to a rule

  /** What a run can be told about its endpoint: nothing, or that it accepts exactly the sizes up to
      `limit`, or that it accepts every size and quotes the budget `quota`. */
  datatype Endpoint = Arbitrary | Exactly(limit: int) | Quoting(quota: nat)

  ghost predicate Behaves(world: World, e: Endpoint) {
    match e
    case Arbitrary => true
    case Exactly(limit) => Threshold(world, limit)
    case Quoting(quota) => quota > 0 && forall n, s :: world(n, s).keyPresent && Answers(e, s, world(n, s).reply)
  }

  /** A response the endpoint can give to a probe of `size`. */
  ghost predicate Answers(e: Endpoint, size: int, r: Response) {
    match e
    case Arbitrary => true
    case Exactly(limit) => Exact(limit, size, r)
    case Quoting(quota) => r.Response? && r.usable && r.reported == Some(quota)
  }

  /** The run is live and its endpoint keeps to a rule. */
  ghost predicate Ruled(runner: RateProbeRunner, e: Endpoint) {
    runner.apply && !e.Arbitrary? && Behaves(runner.world, e)
  }

  lemma {:induction false} RuledAnswer(runner: RateProbeRunner, e: Endpoint, call: nat, size: int)
    requires Ruled(runner, e)
    ensures runner.world(call, size).keyPresent && Answers(e, size, runner.world(call, size).reply)
    ensures runner.world(call, size).reply.Response? && !Throttled(runner.world(call, size).reply)
  {
    var x := runner.world(call, size);
  }

  // ---------------------------------------------------------------- an endpoint with one exact threshold

  /** Accepts exactly the sizes up to `limit`, refuses the others by size, and quotes no limit. */
  ghost predicate Threshold(world: World, limit: int) {
    forall n, s ::
      && world(n, s).keyPresent && world(n, s).reply.Response? && world(n, s).reply.reported.None?
      && world(n, s).reply.usable == (s <= limit)
      && (s > limit ==> SizeRefusal(world(n, s).reply))
  }

  /** A response such an endpoint gives. */
  ghost predicate Exact(limit: int, size: int, r: Response) {
    r.Response? && r.reported.None? && r.usable == (size <= limit) && (size > limit ==> SizeRefusal(r))
  }

  /** The width left of `w` after `n` halvings. */
  function Halved(w: nat, n: nat): nat {
    if n == 0 then w else (Halved(w, n - 1) + 1) / 2
  }

  lemma {:induction false} EightHalvings(n: nat)
    requires n >= 8
    ensures Halved(CAP - FLOOR, n) <= FLOOR
  {
    if n > 8 {
      EightHalvings(n - 1);
    } else {
      assert Halved(CAP - FLOOR, 1) == 124500;
      assert Halved(CAP - FLOOR, 2) == 62250;
      assert Halved(CAP - FLOOR, 3) == 31125;
      assert Halved(CAP - FLOOR, 4) == 15563;
      assert Halved(CAP - FLOOR, 5) == 7782;
      assert Halved(CAP - FLOOR, 6) == 3891;
      assert Halved(CAP - FLOOR, 7) == 1946;
      assert Halved(CAP - FLOOR, 8) == 973;
    }
  }

  /** What the search knows of a threshold endpoint whose initial upper bound was `top`. */
  ghost predicate Brackets(limit: int, s: Search, top: int) {
    && s.tpm.None?
    && (s.observed.Some? ==> s.observed.value <= limit)
    && (if s.rejected.Some? then limit < s.rejected.value == s.high else s.high == top)
  }

  // ---------------------------------------------------------------- the first phase

  datatype Ending = Finished | DryRunStop | Abort(reason: Abort)

  /** One request sent for a size, and recorded. */
  method Request(runner: RateProbeRunner, route: string, size: int, ghost e: Endpoint) returns (abort: Option<Abort>, r: Response)
    requires runner.Valid()
    modifies runner
    ensures runner.Valid()
    ensures runner.totalRequests <= old(runner.totalRequests) + 1 && runner.Count(route) <= old(runner.Count(route)) + 1
    ensures !runner.apply ==> r.DryRun? && runner.totalRequests == old(runner.totalRequests)
    ensures abort.Some? ==> runner.Exhausted(route, abort.value)
    ensures runner.Timely() && old(runner.HasRoom(route, 1)) ==> abort.None?
    ensures Extends(old(runner.transcript), runner.transcript)
    ensures abort.None? ==> runner.transcript == old(runner.transcript) + [Probe(old(runner.calls), size, r)]
    ensures abort.None? ==> OnlyAsks(old(runner.transcript), runner.transcript, size, r.Response? && r.usable)
    ensures abort.None? ==> Asked(runner.transcript, size, r)
    ensures abort.None? && r.Response? ==> Stated(runner.transcript, |old(runner.transcript)|, None, r.reported)
    ensures abort.None? && r.Response? && r.usable ==> AcceptedSince(runner.transcript, |old(runner.transcript)|, size)
    ensures runner.apply ==> Live(r)
    ensures Ruled(runner, e) ==> r.Response? && Answers(e, size, r) && !Throttled(r)
  {
    ghost var t, call := runner.transcript, runner.calls;
    abort, r := runner.SendRequest(route, size);
    if Ruled(runner, e) { RuledAnswer(runner, e, call, size); }
    if abort.None? { assert runner.transcript[|t|] == Probe(call, size, r); }
  }

  /** A throttle says nothing about size: wait it out and probe the same size again. */
  method RetryThrottled(runner: RateProbeRunner, route: string, mid: int, first: Response, retries: nat)
    returns (ending: Ending, resp: Response, extra: nat)
    requires runner.Valid() && first.Response? && Asked(runner.transcript, mid, first)
    modifies runner
    ensures runner.Valid() && Extends(old(runner.transcript), runner.transcript)
    ensures !runner.apply ==> runner.totalRequests == old(runner.totalRequests)
    ensures ending.Finished? ==> resp.Response? && Asked(runner.transcript, mid, resp)
    ensures OnlyAsks(old(runner.transcript), runner.transcript, mid, resp.Response? && resp.usable)
    ensures ending.Abort? ==> runner.Exhausted(route, ending.reason)
    ensures ending.DryRunStop? ==> !runner.apply
    ensures !Throttled(first) ==>
              ending.Finished? && resp == first && extra == 0 && runner.transcript == old(runner.transcript) &&
              runner.totalRequests == old(runner.totalRequests) && runner.Count(route) == old(runner.Count(route))
    ensures ending.Finished? && Throttled(resp) ==> extra == retries
    ensures ending.Finished? ==>
              |runner.transcript| == |old(runner.transcript)| + extra && Repeats(runner.transcript[|old(runner.transcript)|..], mid, first, resp)
    ensures extra <= retries
  {
    resp, extra := first, 0;
    ending := Finished;
    var attempts := retries;
    while Throttled(resp) && attempts > 0
      invariant runner.Valid() && Extends(old(runner.transcript), runner.transcript)
      invariant !runner.apply ==> runner.totalRequests == old(runner.totalRequests)
      invariant resp.Response? && Asked(runner.transcript, mid, resp)
      invariant 0 <= attempts && extra == retries - attempts
      invariant |runner.transcript| == |old(runner.transcript)| + extra
      invariant Repeats(runner.transcript[|old(runner.transcript)|..], mid, first, resp)
      invariant OnlyAsks(old(runner.transcript), runner.transcript, mid, resp.usable)
      invariant !Throttled(first) ==>
                  resp == first && extra == 0 && runner.transcript == old(runner.transcript) &&
                  runner.totalRequests == old(runner.totalRequests) && runner.Count(route) == old(runner.Count(route))
      decreases attempts
    {
      ghost var t := runner.transcript;
      var abort, again := runner.SendRequest(route, mid);
      if abort.Some? { return Abort(abort.value), resp, extra; }
      if again.DryRun? { return DryRunStop, resp, extra; }
      SuffixSnoc(t, runner.transcript[|t|], |old(runner.transcript)|);
      RepeatsSnoc(t[|old(runner.transcript)|..], runner.transcript[|t|], mid, first, resp);
      resp := again;
      extra := extra + 1;
      attempts := attempts - 1;
    }
  }

  lemma {:induction false} SettleKeeps(t: seq<Probe>, s: Search, reported: Option<nat>, mid: int, r: Response)
    requires Bounds(t, s) && Ceiling(s) && s.low < mid < s.high && Asked(t, mid, r) && r.Response?
    ensures var s' := Settle(s, reported, mid, r).0; Bounds(t, s') && Ceiling(s')
  {
    LearnKeeps(t, s, reported);
    if OverBudget(Learn(s, reported), mid) { OverBudgetKeeps(t, s, reported, mid, r); }
    else if r.usable { AcceptKeeps(t, s, reported, mid, r); }
    else if SizeRefusal(r) { RefuseKeeps(t, s, reported, mid, r); }
  }

  /** A threshold endpoint halves the interval each round. */
  lemma {:induction false} SettleHalves(s: Search, limit: int, top: int, r: Response, w: nat, n: nat)
    requires Brackets(limit, s, top) && s.low < s.high - 1000 && s.high - s.low <= Halved(w, n)
    requires var mid := (s.low + s.high) / 2; Exact(limit, mid, r)
    ensures var mid := (s.low + s.high) / 2; var (s', v) := Settle(s, r.reported, mid, r);
            v == Narrowed && Brackets(limit, s', top) && s'.high - s'.low <= Halved(w, n + 1)
  {}

  /** What is known once the last answer `r` to a size has settled it, the first having been `first`. */
  lemma {:induction false} Concludes(t: seq<Probe>, u: seq<Probe>, from: nat, prior: Option<nat>, s: Search, mid: int, first: Response, r: Response)
    requires Bounds(t, s) && Ceiling(s) && Honest(t, from, s) && s.low < s.high - 1000 && mid == (s.low + s.high) / 2
    requires first.Response? && r.Response? && Asked(u, mid, r) && OnlyAsks(t, u, mid, r.usable)
    requires Stated(t, from, prior, s.tpm) && Stated(u, |t|, None, first.reported)
    ensures var (s', verdict) := Settle(s, first.reported, mid, r);
            Bounds(u, s') && Ceiling(s') && Honest(u, from, s') && Stated(u, from, prior, s'.tpm)
  {
    var s' := Settle(s, first.reported, mid, r).0;
    BoundsLater(t, u, s, s.tpm);
    SettleKeeps(u, s, first.reported, mid, r);
    HonestLater(t, u, from, s, s', mid, r.usable);
    StatedLater(t, u, from, prior, s.tpm, s'.tpm);
  }

  lemma {:induction false} AsksOn(t: seq<Probe>, u: seq<Probe>, v: seq<Probe>, mid: int, b: bool, c: bool)
    requires OnlyAsks(t, u, mid, b) && OnlyAsks(u, v, mid, c) && (b ==> c)
    ensures OnlyAsks(t, v, mid, c)
  {
    forall k | |t| <= k < |v| ensures v[k].size == mid && (Served(v[k]) ==> c) {
      if k < |u| { assert v[k] == u[k]; }
    }
  }

  /** The round got an answer the endpoint can give, and the search was settled by it. */
  ghost predicate Follows(t: seq<Probe>, from: nat, e: Endpoint, s: Search, s': Search, verdict: Verdict) {
    var mid := (s.low + s.high) / 2;
    exists r ::
      && Answers(e, mid, r) && r.Response? && (s', verdict) == Settle(s, r.reported, mid, r)
      && (r.usable ==> AcceptedSince(t, from, mid))
  }

  /** The middle of the widest interval the search can start from. */
  function FirstMiddle(context: int): int { (FLOOR + Min(context, CAP)) / 2 }

  /** The first size is probed at all. */
  predicate Probes(context: int, maxProbes: nat) { maxProbes > 0 && FLOOR < Min(context, CAP) - 1000 }

  /** What the first phase makes of an endpoint that accepts everything but quotes `quota`: after its first
      probe the search stays within the quota, and only that probe can have been over it. */
  ghost predicate Quoted(t: seq<Probe>, from: nat, s: Search, quota: nat, context: int, probes: nat) {
    if probes == 0 then s == Search(FLOOR, Min(context, CAP), None, None, None)
    else
      && s.tpm == Some(quota)
      && (if quota < FirstMiddle(context) then s.rejected == Some(FirstMiddle(context)) && AcceptedSince(t, from, FirstMiddle(context))
          else s.rejected.None?)
  }

  lemma {:induction false} QuotedRound(t: seq<Probe>, u: seq<Probe>, from: nat, s: Search, s': Search, verdict: Verdict, quota: nat, context: int, probes: nat)
    requires Quoted(t, from, s, quota, context, probes) && Ceiling(s) && s.low < s.high - 1000 && quota > 0
    requires Extends(t, u) && from <= |t| && Follows(u, from, Quoting(quota), s, s', verdict)
    ensures Quoted(u, from, s', quota, context, probes + 1) && verdict == Narrowed
  {
    var mid := (s.low + s.high) / 2;
    var r :| && Answers(Quoting(quota), mid, r) && r.Response? && (s', verdict) == Settle(s, r.reported, mid, r)
             && (r.usable ==> AcceptedSince(u, from, mid));
    if probes > 0 {
      assert !OverBudget(Learn(s, r.reported), mid);
      if quota < FirstMiddle(context) { AcceptedLater(t, u, from, FirstMiddle(context)); }
    }
  }

  lemma {:induction false} AcceptedLater(t: seq<Probe>, u: seq<Probe>, from: nat, size: int)
    requires AcceptedSince(t, from, size) && Extends(t, u)
    ensures AcceptedSince(u, from, size)
  {
    var k :| from <= k < |t| && t[k].size == size && Served(t[k]);
    assert u[k] == t[k];
  }

  lemma {:induction false} ExactRound(t: seq<Probe>, from: nat, s: Search, s': Search, verdict: Verdict, limit: int, top: int, w: nat, n: nat)
    requires Brackets(limit, s, top) && s.low < s.high - 1000 && s.high - s.low <= Halved(w, n)
    requires Follows(t, from, Exactly(limit), s, s', verdict)
    ensures verdict == Narrowed && Brackets(limit, s', top) && s'.high - s'.low <= Halved(w, n + 1)
  {
    var mid := (s.low + s.high) / 2;
    var r :| && Answers(Exactly(limit), mid, r) && r.Response? && (s', verdict) == Settle(s, r.reported, mid, r)
             && (r.usable ==> AcceptedSince(t, from, mid));
    SettleHalves(s, limit, top, r, w, n);
  }

  /** The first phase under a rule, so far. */
  ghost predicate UnderRule(t: seq<Probe>, from: nat, e: Endpoint, s: Search, context: int, probes: nat) {
    match e
    case Arbitrary => true
    case Exactly(limit) => Brackets(limit, s, Min(context, CAP)) && s.high - s.low <= Halved(CAP - FLOOR, probes)
    case Quoting(quota) => Quoted(t, from, s, quota, context, probes)
  }

  /** The first phase under a rule, which allows `maxProbes`. */
  ghost predicate Course(t: seq<Probe>, from: nat, e: Endpoint, s: Search, context: int, probes: nat, maxProbes: nat) {
    && probes <= maxProbes && UnderRule(t, from, e, s, context, probes)
    && if probes == 0 then s == Search(FLOOR, Min(context, CAP), None, None, None) else Probes(context, maxProbes)
  }

  lemma {:induction false} RuleKept(t: seq<Probe>, u: seq<Probe>, from: nat, e: Endpoint, s: Search, s': Search, verdict: Verdict, context: int, probes: nat,
                 maxProbes: nat)
    requires Course(t, from, e, s, context, probes, maxProbes) && probes < maxProbes && Ceiling(s) && s.low < s.high - 1000 && !e.Arbitrary?
    requires e.Quoting? ==> e.quota > 0
    requires Extends(t, u) && from <= |t| && Follows(u, from, e, s, s', verdict)
    ensures Course(u, from, e, s', context, probes + 1, maxProbes) && verdict == Narrowed
  {
    match e
    case Exactly(limit) => ExactRound(u, from, s, s', verdict, limit, Min(context, CAP), CAP - FLOOR, probes);
    case Quoting(quota) => QuotedRound(t, u, from, s, s', verdict, quota, context, probes);
  }

  /** An endpoint under a rule is never retried, so its first answer settles the size. */
  lemma {:induction false} StaysOnCourse(t: seq<Probe>, u: seq<Probe>, from: nat, e: Endpoint, s: Search, mid: int, r: Response, context: int, probes: nat,
                      maxProbes: nat)
    requires Course(t, from, e, s, context, probes, maxProbes) && probes < maxProbes && Ceiling(s) && s.low < s.high - 1000 && !e.Arbitrary?
    requires e.Quoting? ==> e.quota > 0
    requires mid == (s.low + s.high) / 2 && r.Response? && Answers(e, mid, r) && Extends(t, u) && from <= |t|
    requires r.usable ==> AcceptedSince(u, from, mid)
    ensures var (s', verdict) := Settle(s, r.reported, mid, r);
            Course(u, from, e, s', context, probes + 1, maxProbes) && verdict == Narrowed
  {
    var (s', verdict) := Settle(s, r.reported, mid, r);
    assert Follows(u, from, e, s, s', verdict);
    RuleKept(t, u, from, e, s, s', verdict, context, probes, maxProbes);
  }

  /** A size is probed, and through a throttle probed again; a size over the budget is not, whatever the
      answer. An endpoint under a rule is never throttled, so its first answer is the last. */
  method Insist(runner: RateProbeRunner, route: string, mid: int, s: Search, retries: nat, ghost from: nat, ghost e: Endpoint)
    returns (ending: Ending, first: Response, resp: Response, spent: nat)
    requires runner.Valid() && from <= |runner.transcript|
    modifies runner
    ensures runner.Valid() && Extends(old(runner.transcript), runner.transcript)
    ensures !runner.apply ==> runner.totalRequests == old(runner.totalRequests) && !ending.Finished?
    ensures ending.Abort? ==> runner.Exhausted(route, ending.reason)
    ensures ending.DryRunStop? ==> !runner.apply
    ensures 0 < spent <= 1 + retries
    ensures ending.Finished? ==>
              && first.Response? && resp.Response? && Asked(runner.transcript, mid, resp)
              && OnlyAsks(old(runner.transcript), runner.transcript, mid, resp.usable)
              && Stated(runner.transcript, |old(runner.transcript)|, None, first.reported)
    ensures ending.Finished? ==>
              && |runner.transcript| == |old(runner.transcript)| + spent
              && Insists(runner.transcript[|old(runner.transcript)|..], mid, first, resp)
              && (OverBudget(Learn(s, first.reported), mid) ==> spent == 1)
              && (Throttled(resp) && !OverBudget(Learn(s, first.reported), mid) ==> spent == 1 + retries)
    ensures Ruled(runner, e) && ending.Finished? ==>
              && resp == first && spent == 1 && Answers(e, mid, resp)
              && (resp.usable ==> AcceptedSince(runner.transcript, from, mid))
    ensures Ruled(runner, e) && runner.Timely() && old(runner.HasRoom(route, 1)) ==>
              && ending.Finished? && runner.totalRequests <= old(runner.totalRequests) + 1
              && runner.Count(route) <= old(runner.Count(route)) + 1
  {
    ghost var t := runner.transcript;
    var abort;
    abort, first := Request(runner, route, mid, e);
    ending, resp, spent := Finished, first, 1;
    if abort.Some? { ending := Abort(abort.value); return; }
    if first.DryRun? { ending := DryRunStop; return; }
    ghost var u := runner.transcript;
    var extra;
    ending, resp, extra := RetryThrottled(runner, route, mid, first, if OverBudget(Learn(s, first.reported), mid) then 0 else retries);
    if !ending.Finished? { return; }
    spent := 1 + extra;
    assert runner.transcript[|t|..] == [u[|t|]] + runner.transcript[|u|..];
    RepeatsInsist(u[|t|], runner.transcript[|u|..], mid, resp);
    AsksOn(t, u, runner.transcript, mid, first.usable, resp.usable);
    StatedLater(u, runner.transcript, |t|, None, first.reported, first.reported);
  }

  /** What the search `s` rests on, after the first `from` probes of the transcript. */
  ghost predicate Supported(t: seq<Probe>, from: nat, prior: Option<nat>, s: Search, context: int, probes: int) {
    from <= |t| && Ledger(prior, t[from..], s, context, probes) && (s.rejected.Some? ==> s.low < s.rejected.value)
  }

  lemma {:induction false} HeardIsStated(t: seq<Probe>, from: nat, prior: Option<nat>)
    requires from <= |t|
    ensures Stated(t, from, prior, Heard(prior, t[from..]))
  {
    var ps := t[from..];
    HeardFrom(prior, ps);
    if Heard(prior, ps) != prior {
      var k :| 0 <= k < |ps| && ps[k].response.Response? && ps[k].response.reported == Heard(prior, ps);
      assert t[from + k] == ps[k];
    }
  }

  lemma {:induction false} TakenIsAccepted(t: seq<Probe>, from: nat, prior: Option<nat>)
    requires from <= |t| && GreatestTaken(prior, t[from..]).Some?
    ensures Accepted(t, GreatestTaken(prior, t[from..]).value)
  {
    var ps := t[from..];
    GreatestTakenMeans(prior, ps);
    var k :| TakesAt(prior, ps, k) && ps[k].size == GreatestTaken(prior, ps).value;
    assert ps[..k + 1][k] == ps[k] == t[from + k];
  }

  /** Its bounds are then those of the probes, and its budget was stated. */
  lemma {:induction false} SupportedBounds(t: seq<Probe>, from: nat, prior: Option<nat>, s: Search, context: int, probes: int)
    requires Supported(t, from, prior, s, context, probes)
    ensures Bounds(t, s) && Honest(t, from, s) && Stated(t, from, prior, s.tpm)
  {
    var ps := t[from..];
    HeardIsStated(t, from, prior);
    if s.observed.Some? { TakenIsAccepted(t, from, prior); }
    if s.rejected.Some? {
      DismissedIsRefused(prior, ps);
      var k :| 0 <= k < |ps| && ps[k].size == s.rejected.value && Refuses(ps[k], s.tpm);
      assert t[from + k] == ps[k];
    }
    forall k | from <= k < |t| && Served(t[k]) ensures t[k].size <= s.low || OverBudget(s, t[k].size) {
      assert ps[k - from] == t[k];
      ServedIsTaken(prior, ps, k - from);
    }
  }

  /** The first phase goes on, with `losses` in transport still forgiven. */
  ghost predicate Searching(t: seq<Probe>, from: nat, prior: Option<nat>, s: Search, context: int, probes: int, losses: int) {
    Supported(t, from, prior, s, context, probes) && Ceiling(s) && Ongoing(prior, t[from..], losses)
  }

  /** It has ended with a probe that settles nothing. */
  ghost predicate GivenUp(t: seq<Probe>, from: nat, prior: Option<nat>, s: Search, context: int, probes: int) {
    Supported(t, from, prior, s, context, probes) && Stuck(prior, t[from..])
  }

  /** After a round: the search goes on, for a loss in transport one less forgiven, or is given up. */
  ghost predicate Continues(t: seq<Probe>, from: nat, prior: Option<nat>, s: Search, context: int, probes: int, losses: int, verdict: Verdict) {
    match verdict
    case Narrowed => Searching(t, from, prior, s, context, probes, losses)
    case NoAnswer =>
      if losses > 0 then Searching(t, from, prior, s, context, probes - 1, losses - 1) else GivenUp(t, from, prior, s, context, probes)
    case Unclear => GivenUp(t, from, prior, s, context, probes)
  }

  lemma {:induction false} RoundContinues(t: seq<Probe>, u: seq<Probe>, from: nat, prior: Option<nat>, s: Search, mid: int, first: Response, r: Response,
                       context: int, probes: int, losses: int)
    requires Searching(t, from, prior, s, context, probes, losses) && s.low < s.high - 1000 && mid == (s.low + s.high) / 2
    requires first.Response? && r.Response? && Asked(u, mid, r) && OnlyAsks(t, u, mid, r.usable) && Stated(u, |t|, None, first.reported)
    requires Insists(u[|t|..], mid, first, r) && (OverBudget(Learn(s, first.reported), mid) ==> |u| == |t| + 1)
    ensures var (s', verdict) := Settle(s, first.reported, mid, r);
            Continues(u, from, prior, s', context, probes + |u| - |t|, losses, verdict)
  {
    SupportedBounds(t, from, prior, s, context, probes);
    Concludes(t, u, from, prior, s, mid, first, r);
    LedgerNext(prior, t, u, from, mid, first, r, s, context, probes, losses);
  }

  /** One round: probe the middle, and through a throttle the same size again. A run under a rule is on
      its `course` for the context with `probes` of `maxProbes` made; `room` is how many more requests
      the budgets must hold after the round; `losses` in transport are still forgiven. */
  method Round(runner: RateProbeRunner, route: string, s: Search, retries: nat,
               ghost from: nat, ghost prior: Option<nat>, ghost e: Endpoint, ghost course: bool, ghost context: int, ghost probes: nat, ghost maxProbes: nat, ghost room: nat,
               ghost losses: int)
    returns (ending: Ending, s': Search, verdict: Verdict, spent: nat)
    requires runner.Valid() && Searching(runner.transcript, from, prior, s, context, probes, losses) && s.low < s.high - 1000
    requires course ==> Ruled(runner, e) && probes < maxProbes && Course(runner.transcript, from, e, s, context, probes, maxProbes)
    modifies runner
    ensures runner.Valid() && Extends(old(runner.transcript), runner.transcript)
    ensures !runner.apply ==> runner.totalRequests == old(runner.totalRequests) && !ending.Finished?
    ensures ending.Abort? ==> runner.Exhausted(route, ending.reason)
    ensures ending.DryRunStop? ==> !runner.apply
    ensures 0 < spent <= 1 + retries
    ensures ending.Finished? ==> Continues(runner.transcript, from, prior, s', context, probes + spent, losses, verdict)
    ensures course && ending.Finished? ==>
              spent == 1 && verdict == Narrowed && Course(runner.transcript, from, e, s', context, probes + 1, maxProbes)
    ensures course && runner.Timely() && old(runner.HasRoom(route, room + 1)) ==> ending.Finished? && runner.HasRoom(route, room)
  {
    var mid := (s.low + s.high) / 2;
    s', verdict := s, Unclear;
    ghost var t := runner.transcript;
    var first, resp;
    ending, first, resp, spent := Insist(runner, route, mid, s, retries, from, e);
    if !ending.Finished? { return; }
    var settled := Settle(s, first.reported, mid, resp);
    s', verdict := settled.0, settled.1;
    RoundContinues(t, runner.transcript, from, prior, s, mid, first, resp, context, probes, losses);
    if course { StaysOnCourse(t, runner.transcript, from, e, s, mid, first, context, probes, maxProbes); }
  }

  /** A round and its account: a loss in transport is forgiven while it can be, and not counted; anything else
      that settles nothing ends the phase. */
  method Turn(runner: RateProbeRunner, route: string, s: Search, retries: nat, probes: nat, transport: nat,
              ghost from: nat, ghost prior: Option<nat>, ghost e: Endpoint, ghost course: bool, ghost context: int, ghost maxProbes: nat, ghost room: nat)
    returns (ending: Ending, s': Search, probes': nat, transport': nat, inconclusive: bool)
    requires runner.Valid() && Searching(runner.transcript, from, prior, s, context, probes, transport) && s.low < s.high - 1000
    requires course ==> Ruled(runner, e) && probes < maxProbes && Course(runner.transcript, from, e, s, context, probes, maxProbes)
    modifies runner
    ensures runner.Valid() && Extends(old(runner.transcript), runner.transcript)
    ensures !runner.apply ==> runner.totalRequests == old(runner.totalRequests) && !ending.Finished?
    ensures ending.Abort? ==> runner.Exhausted(route, ending.reason)
    ensures ending.DryRunStop? ==> !runner.apply
    ensures ending.Finished? ==>
              if inconclusive then GivenUp(runner.transcript, from, prior, s', context, probes')
              else Searching(runner.transcript, from, prior, s', context, probes', transport')
    ensures ending.Finished? && !inconclusive ==> probes' > probes - (if transport' < transport then 1 else 0) && transport' <= transport
    ensures ending.Finished? ==> probes' <= probes + 1 + retries
    ensures course && ending.Finished? ==>
              !inconclusive && probes' == probes + 1 && Course(runner.transcript, from, e, s', context, probes + 1, maxProbes)
    ensures course && runner.Timely() && old(runner.HasRoom(route, room + 1)) ==> ending.Finished? && runner.HasRoom(route, room)
  {
    var verdict, spent;
    inconclusive, probes', transport' := false, probes, transport;
    ending, s', verdict, spent := Round(runner, route, s, retries, from, prior, e, course, context, probes, maxProbes, room, transport);
    if !ending.Finished? { return; }
    probes' := probes + spent;
    if verdict.Unclear? || (verdict.NoAnswer? && transport == 0) {
      inconclusive := true;
    } else if verdict.NoAnswer? {
      transport' := transport - 1;
      probes' := probes' - 1;
    }
  }

  /** The first phase. Its ledger says what the search may rest on; it is inconclusive exactly if its probes
      end with one that settles nothing; and else its interval is narrow or its probes are used up. */
  method FirstPhase(runner: RateProbeRunner, route: string, context: int, maxProbes: nat, throttleRetries: nat, reportedTpm: Option<nat>,
                    ghost e: Endpoint, ghost room: nat)
    returns (ending: Ending, s: Search, probes: nat, inconclusive: bool)
    requires runner.Valid()
    modifies runner
    ensures runner.Valid() && Extends(old(runner.transcript), runner.transcript)
    ensures !runner.apply ==> runner.totalRequests == old(runner.totalRequests)
    ensures ending.Abort? ==> runner.Exhausted(route, ending.reason)
    ensures ending.DryRunStop? ==> !runner.apply
    ensures ending.Finished? ==> Supported(runner.transcript, |old(runner.transcript)|, reportedTpm, s, context, probes)
    ensures ending.Finished? ==> (inconclusive <==> Stuck(reportedTpm, runner.transcript[|old(runner.transcript)|..]))
    ensures ending.Finished? && !inconclusive ==> probes >= maxProbes || s.high - s.low <= 1000
    ensures ending.Finished? ==> probes <= maxProbes + throttleRetries
    ensures ending.Finished? && !runner.apply ==> s.observed.None? && s.rejected.None?
    ensures ending.Finished? && Ruled(runner, e) && reportedTpm.None? ==>
              && Course(runner.transcript, |old(runner.transcript)|, e, s, context, probes, maxProbes)
              && !inconclusive && (probes < maxProbes ==> s.low >= s.high - 1000)
    ensures Ruled(runner, e) && reportedTpm.None? && runner.Timely() && old(runner.HasRoom(route, maxProbes + room)) ==>
              ending.Finished? && runner.HasRoom(route, room)
  {
    s := Search(FLOOR, UpperBound(context, reportedTpm), None, None, reportedTpm);
    inconclusive, probes, ending := false, 0, Finished;
    var transport: nat := TRANSPORT_RETRIES;
    ghost var from := |runner.transcript|;
    ghost var ruled := Ruled(runner, e) && reportedTpm.None?;
    ghost var easy := ruled && runner.Timely() && runner.HasRoom(route, maxProbes + room);
    StartsSearching(runner.transcript, reportedTpm, context);
    while probes < maxProbes && s.low < s.high - 1000
      invariant runner.Valid() && Extends(old(runner.transcript), runner.transcript) && ending.Finished? && !inconclusive
      invariant !runner.apply ==> runner.totalRequests == old(runner.totalRequests) && s.observed.None? && s.rejected.None?
      invariant Searching(runner.transcript, from, reportedTpm, s, context, probes, transport) && probes <= maxProbes + throttleRetries
      invariant ruled ==> Course(runner.transcript, from, e, s, context, probes, maxProbes)
      invariant easy ==> runner.HasRoom(route, maxProbes - probes + room)
      decreases transport, maxProbes - probes
    {
      ending, s, probes, transport, inconclusive := Turn(runner, route, s, throttleRetries, probes, transport, from, reportedTpm, e, ruled,
                                                         context, maxProbes, maxProbes - probes - 1 + room);
      if !ending.Finished? { return; }
      if inconclusive { break; }
    }
  }

  lemma {:induction false} StartsSearching(t: seq<Probe>, prior: Option<nat>, context: int)
    ensures Searching(t, |t|, prior, Search(FLOOR, UpperBound(context, prior), None, None, prior), context, 0, TRANSPORT_RETRIES)
  {
    LedgerStarts(prior, context);
  }

  // ---------------------------------------------------------------- boundary confirmation

  /** While the search resumes above a boundary that gave way, rejections bound it from above again. */
  ghost predicate Resumed(t: seq<Probe>, from: nat, s: Search) {
    Bounds(t, s) && Honest(t, from, s) && (s.rejected.Some? ==> s.high <= s.rejected.value)
  }

  /** The probe tells something of its size. */
  ghost predicate Telling(p: Probe) { Served(p) || RefusesSize(p.response) }

  ghost predicate AllTell(t: seq<Probe>, lo: int, hi: int) { forall k :: 0 <= k < |t| && lo <= k < hi ==> Telling(t[k]) }

  lemma {:induction false} AllTellNext(t: seq<Probe>, u: seq<Probe>, lo: nat, go: bool)
    requires AllTell(t, lo, |t|) && t <= u && |u| == |t| + 1 && (go ==> Telling(u[|t|]))
    ensures AllTell(u, lo, |u| - if go then 0 else 1)
  {
    assert forall k :: 0 <= k < |t| ==> u[k] == t[k];
  }

  /** One probe of the resumed search; `go` is false where the source breaks out of it. */
  method ResumeStep(runner: RateProbeRunner, route: string, s: Search, context: int, ghost from: nat, ghost m: nat, ghost since: nat, ghost e: Endpoint)
    returns (ending: Ending, s': Search, spent: nat, go: bool)
    requires runner.Valid() && Resumed(runner.transcript, from, s) && s.low < s.high - 1000
    requires Reopens(runner.transcript, from, m, since, s, context)
    modifies runner
    ensures runner.Valid() && Extends(old(runner.transcript), runner.transcript)
    ensures !runner.apply ==> runner.totalRequests == old(runner.totalRequests)
    ensures ending.Finished? || (ending.Abort? && runner.Exhausted(route, ending.reason))
    ensures ending.Finished? ==> Resumed(runner.transcript, from, s') && s'.low >= s.low && s'.tpm == s.tpm && (s.observed.Some? ==> s'.observed.Some?)
    ensures ending.Finished? && Ruled(runner, e) && e.Quoting? && s.rejected.None? ==> s'.rejected.None?
    ensures ending.Finished? && runner.apply ==>
              && spent == 1 && |runner.transcript| == |old(runner.transcript)| + 1 && Reopens(runner.transcript, from, m, since, s', context)
              && (!go ==> Settled(runner.transcript, since, s'))
              && (go <==> Telling(runner.transcript[|old(runner.transcript)|]))
    ensures spent <= 1 && (go ==> spent == 1 && runner.apply)
  {
    var mid := (s.low + s.high) / 2;
    ending, s', spent, go := Finished, s, 0, false;
    ghost var t := runner.transcript;
    var abort, resp := Request(runner, route, mid, e);
    if abort.Some? { ending := Abort(abort.value); return; }
    if resp.DryRun? { ResumedLater(t, runner.transcript, from, s, mid); return; }
    spent := 1;
    var settled := Resume(s, mid, resp);
    s', go := settled.0, settled.1;
    ResumeReopens(t, runner.transcript[|t|], from, m, since, s, context);
    ResumeKeeps(t, runner.transcript, from, s, mid, resp);
  }

  lemma {:induction false} ResumedLater(t: seq<Probe>, u: seq<Probe>, from: nat, s: Search, mid: int)
    requires Resumed(t, from, s) && OnlyAsks(t, u, mid, false)
    ensures Resumed(u, from, s)
  {
    BoundsLater(t, u, s, s.tpm);
    HonestLater(t, u, from, s, s, mid, false);
  }

  lemma {:induction false} ResumeKeeps(t: seq<Probe>, u: seq<Probe>, from: nat, s: Search, mid: int, r: Response)
    requires Resumed(t, from, s) && s.low < mid < s.high && r.Response? && OnlyAsks(t, u, mid, r.usable) && Asked(u, mid, r)
    ensures Resumed(u, from, Resume(s, mid, r).0)
  {
    var s' := Resume(s, mid, r).0;
    BoundsLater(t, u, s, s.tpm);
    if r.usable { assert Accepted(u, mid); }
    else if SizeRefusal(r) { assert Refused(u, mid, s.tpm); }
    HonestLater(t, u, from, s, s', mid, r.usable);
  }

  /** The search resumed upward from a boundary that gave way, within the remaining `budget` of probes. */
  method ResumeUpward(runner: RateProbeRunner, route: string, s0: Search, context: int, budget: int, ghost from: nat, ghost m: nat, ghost since: nat,
                      ghost e: Endpoint)
    returns (ending: Ending, s: Search, spent: nat)
    requires runner.Valid() && Resumed(runner.transcript, from, s0) && Reopens(runner.transcript, from, m, since, s0, context)
    modifies runner
    ensures runner.Valid() && Extends(old(runner.transcript), runner.transcript)
    ensures !runner.apply ==> runner.totalRequests == old(runner.totalRequests)
    ensures ending.Finished? || (ending.Abort? && runner.Exhausted(route, ending.reason))
    ensures ending.Finished? ==> Resumed(runner.transcript, from, s) && s.low >= s0.low && s.tpm == s0.tpm && (s0.observed.Some? ==> s.observed.Some?)
    ensures ending.Finished? && Ruled(runner, e) && e.Quoting? && s0.rejected.None? ==> s.rejected.None?
    ensures ending.Finished? && runner.apply ==>
              && |runner.transcript| == |old(runner.transcript)| + spent && Reopens(runner.transcript, from, m, since, s, context)
              && (spent >= budget || Settled(runner.transcript, since, s))
    ensures ending.Finished? ==> spent <= Max(0, budget)
    ensures ending.Finished? && runner.apply ==> AllTell(runner.transcript, |old(runner.transcript)|, |runner.transcript| - 1)
  {
    ending, s, spent := Finished, s0, 0;
    ghost var from' := |runner.transcript|;
    var go := true;
    while go && spent < budget && s.low < s.high - 1000
      invariant runner.Valid() && Extends(old(runner.transcript), runner.transcript)
      invariant !runner.apply ==> runner.totalRequests == old(runner.totalRequests)
      invariant ending.Finished? && Resumed(runner.transcript, from, s) && s.low >= s0.low && s.tpm == s0.tpm && (s0.observed.Some? ==> s.observed.Some?)
      invariant go || runner.apply ==>
                  |runner.transcript| == from' + spent && Reopens(runner.transcript, from, m, since, s, context)
      invariant !go && runner.apply ==> Settled(runner.transcript, since, s)
      invariant spent <= Max(0, budget)
      invariant go || runner.apply ==> AllTell(runner.transcript, from', |runner.transcript| - if go then 0 else 1)
      invariant Ruled(runner, e) && e.Quoting? && s0.rejected.None? ==> s.rejected.None?
      decreases go, budget - spent
    {
      var n;
      ghost var t := runner.transcript;
      ending, s, n, go := ResumeStep(runner, route, s, context, from, m, since, e);
      if ending.Abort? { return; }
      if runner.apply { AllTellNext(t, runner.transcript, from', go); }
      spent := spent + n;
    }
  }

  /** The endpoint will refuse the boundary again. */
  ghost predicate Holds(runner: RateProbeRunner, e: Endpoint, s: Search) {
    Ruled(runner, e) && e.Exactly? && s.rejected.Some? && s.rejected.value > e.limit
  }

  /** The search reopened above a boundary that gave way. */
  function Reopened(s: Search, context: int): Search
    requires s.rejected.Some?
  {
    Search(s.rejected.value, UpperBound(context, s.tpm), s.rejected, None, s.tpm)
  }

  lemma {:induction false} GaveWay(t: seq<Probe>, u: seq<Probe>, from: nat, s: Search, context: int)
    requires Bounds(t, s) && Honest(t, from, s) && s.rejected.Some?
    requires OnlyAsks(t, u, s.rejected.value, true) && AcceptedSince(u, from, s.rejected.value)
    ensures Resumed(u, from, Reopened(s, context))
  {
    assert Accepted(u, s.rejected.value);
    HonestLater(t, u, from, s, Reopened(s, context), s.rejected.value, true);
  }

  /** The confirmation so far, after `probes` of at most `cap`: its bounds hold; with contention the result lies
      at or above the first boundary, and the search resumed there came to an end. */
  ghost predicate Standing(t: seq<Probe>, from: nat, m: nat, since: nat, s0: Search, s: Search, context: int, contention: bool, probes: nat, cap: nat) {
    && Bounds(t, s) && Honest(t, from, s) && s.tpm == s0.tpm && Confirms(t, from, m, since, s0, s, context, contention)
    && (contention ==> s.observed.Some? && s0.rejected.Some? && s.low >= s0.rejected.value && (probes >= cap || Settled(t, since, s)))
  }

  /** One confirmation: the boundary is probed again, and if it gives way the search resumes above it. */
  method ConfirmRound(runner: RateProbeRunner, route: string, s: Search, context: int, probes: nat, cap: nat, ghost from: nat, ghost e: Endpoint,
                      ghost room: nat, ghost m: nat, ghost since: nat, ghost s0: Search, ghost contention: bool)
    returns (ending: Ending, s': Search, spent: nat, gaveWay: bool, ghost since': nat)
    requires runner.Valid() && s.rejected.Some? && probes < cap && Standing(runner.transcript, from, m, since, s0, s, context, contention, probes, cap)
    modifies runner
    ensures runner.Valid() && Extends(old(runner.transcript), runner.transcript)
    ensures !runner.apply ==> runner.totalRequests == old(runner.totalRequests) && !gaveWay && spent == 0
    ensures ending.Finished? || (ending.Abort? && runner.Exhausted(route, ending.reason))
    ensures ending.Finished? ==> if gaveWay then s'.observed.Some? && s'.low >= s.rejected.value else s' == s && since' == since
    ensures ending.Finished? ==> Bounds(runner.transcript, s') && Honest(runner.transcript, from, s') && s'.tpm == s.tpm
    ensures ending.Finished? && runner.apply ==>
              && 0 < spent && probes + spent <= cap && |runner.transcript| == |old(runner.transcript)| + spent && (!gaveWay ==> spent == 1)
              && Standing(runner.transcript, from, m, since', s0, s', context, contention || gaveWay, probes + spent, cap)
    ensures Holds(runner, e, s) ==>
              (ending.Finished? ==> !gaveWay) &&
              (runner.Timely() && old(runner.HasRoom(route, room + 1)) ==> ending.Finished? && runner.HasRoom(route, room))
    ensures Ruled(runner, e) && e.Quoting? && ending.Finished? ==> s'.rejected.None?
  {
    var size := s.rejected.value;
    ghost var t := runner.transcript;
    var abort, resp := Request(runner, route, size, e);
    ending, s', spent, gaveWay, since' := Finished, s, 0, false, since;
    if abort.Some? { ending := Abort(abort.value); return; }
    if !(resp.Response? && resp.usable) { StandsOn(t, runner.transcript, from, m, since, s0, s, context, contention, probes, cap); }
    if resp.DryRun? { return; }
    spent := 1;
    if resp.usable {
      gaveWay, since' := true, |t| + 1;
      Gives(t, runner.transcript, from, m, since, s0, s, context, contention);
      var more;
      ending, s', more := ResumeUpward(runner, route, Reopened(s, context), context, cap - probes - 1, from, m, since', e);
      spent := 1 + more;
    }
  }

  lemma {:induction false} StandsOn(t: seq<Probe>, u: seq<Probe>, from: nat, m: nat, since: nat, s0: Search, s: Search, context: int, contention: bool,
                 probes: nat, cap: nat)
    requires Standing(t, from, m, since, s0, s, context, contention, probes, cap)
    requires |u| == |t| + 1 && Extends(t, u) && s.rejected == Some(u[|t|].size) && !Served(u[|t|])
    ensures Standing(u, from, m, since, s0, s, context, contention, probes + 1, cap)
  {
    assert u == t + [u[|t|]];
    BoundsLater(t, u, s, s.tpm);
    HonestLater(t, u, from, s, s, u[|t|].size, false);
    ConfirmsAgain(t, u[|t|], from, m, since, s0, s, context, contention);
    if contention && probes < cap { SettledLater(t, u, since, s); }
  }

  lemma {:induction false} Gives(t: seq<Probe>, u: seq<Probe>, from: nat, m: nat, since: nat, s0: Search, s: Search, context: int, contention: bool)
    requires Bounds(t, s) && Honest(t, from, s) && s.rejected.Some? && Confirms(t, from, m, since, s0, s, context, contention)
    requires |u| == |t| + 1 && Extends(t, u) && u[|t|].size == s.rejected.value && Served(u[|t|])
    ensures Resumed(u, from, Reopened(s, context)) && Reopens(u, from, m, |u|, Reopened(s, context), context)
  {
    assert u == t + [u[|t|]];
    assert AcceptedSince(u, from, s.rejected.value);
    GaveWay(t, u, from, s, context);
    TracksReopened(t, u[|t|], from, m, since, s, Reopened(s, context), context);
  }

  /** What the first phase found is where the confirmation starts. */
  lemma {:induction false} FirstConfirms(t: seq<Probe>, from: nat, prior: Option<nat>, s: Search, context: int, n: nat)
    requires Supported(t, from, prior, s, context, n)
    ensures Bounds(t, s) && Honest(t, from, s) && Confirms(t, from, |t|, from, s, s, context, false)
  {
    SupportedBounds(t, from, prior, s, context, n);
    LedgerTracks(t, from, prior, s, context, n);
  }

  /** The confirmation: contention is reported exactly if a size was served in it, which then had been rejected
      before; without it the result stands, its boundary having been asked for again in every round. */
  method Confirm(runner: RateProbeRunner, route: string, s0: Search, context: int, probes0: nat, maxProbes: nat, confirmRounds: nat,
                 ghost from: nat, ghost prior: Option<nat>, ghost e: Endpoint)
    returns (ending: Ending, s: Search, probes: nat, contention: bool, ghost since: nat)
    requires runner.Valid() && Supported(runner.transcript, from, prior, s0, context, probes0)
    modifies runner
    ensures runner.Valid() && Extends(old(runner.transcript), runner.transcript)
    ensures !runner.apply ==> runner.totalRequests == old(runner.totalRequests) && !contention
    ensures ending.Finished? || (ending.Abort? && runner.Exhausted(route, ending.reason))
    ensures ending.Finished? ==> Bounds(runner.transcript, s) && Honest(runner.transcript, from, s) && s.tpm == s0.tpm
    ensures s0.rejected.None? || confirmRounds == 0 ==>
              ending.Finished? && s == s0 && !contention && probes == probes0 && runner.transcript == old(runner.transcript)
    ensures ending.Finished? && contention ==> s.observed.Some? && s0.rejected.Some? && s.observed.value >= s0.rejected.value
    ensures ending.Finished? && !contention ==> s == s0
    ensures ending.Finished? && (runner.apply || s0.rejected.None?) ==>
              && Confirms(runner.transcript, from, |old(runner.transcript)|, since, s0, s, context, contention)
              && probes == probes0 + |runner.transcript| - |old(runner.transcript)|
              && (contention ==> probes >= maxProbes + confirmRounds * 2 || Settled(runner.transcript, since, s))
              && (!contention ==> probes <= probes0 + if s0.rejected.Some? then confirmRounds else 0)
              && (!contention && s0.rejected.Some? ==> probes >= maxProbes + confirmRounds * 2 || probes == probes0 + confirmRounds)
              && probes <= Max(probes0, maxProbes + confirmRounds * 2)
    ensures Holds(runner, e, s0) ==> (ending.Finished? ==> !contention) && (runner.Timely() && old(runner.HasRoom(route, confirmRounds)) ==> ending.Finished?)
    ensures Ruled(runner, e) && e.Quoting? && ending.Finished? && confirmRounds > 0 && probes0 <= maxProbes ==> s.rejected.None?
  {
    ending, s, probes, contention, since := Finished, s0, probes0, false, from;
    ghost var m := |runner.transcript|;
    FirstConfirms(runner.transcript, from, prior, s0, context, probes0);
    var rounds, cap := confirmRounds, maxProbes + confirmRounds * 2;
    ghost var refused := Holds(runner, e, s0);
    ghost var easy := refused && runner.Timely() && runner.HasRoom(route, confirmRounds);
    while rounds > 0 && s.rejected.Some? && probes < cap
      invariant runner.Valid() && Extends(old(runner.transcript), runner.transcript) && 0 <= rounds <= confirmRounds && ending.Finished?
      invariant !runner.apply ==> runner.totalRequests == old(runner.totalRequests) && !contention
      invariant Standing(runner.transcript, from, m, since, s0, s, context, contention, probes, cap) && probes == probes0 + |runner.transcript| - m
      invariant s0.rejected.None? || rounds == confirmRounds ==> s == s0 && probes == probes0 && !contention && runner.transcript == old(runner.transcript)
      invariant !contention ==> probes == probes0 + confirmRounds - rounds
      invariant probes <= Max(probes0, cap)
      invariant refused ==> !contention
      invariant easy ==> runner.HasRoom(route, rounds)
      invariant Ruled(runner, e) && e.Quoting? && rounds < confirmRounds ==> s.rejected.None?
      decreases rounds
    {
      rounds := rounds - 1;
      var spent, gaveWay;
      ending, s, spent, gaveWay, since := ConfirmRound(runner, route, s, context, probes, cap, from, e, if easy then rounds else 0, m, since, s0, contention);
      if ending.Abort? { return; }
      if spent == 0 { break; }
      probes, contention := probes + spent, contention || gaveWay;
    }
  }

  // ---------------------------------------------------------------- the whole search

  datatype Report = Report(
    observed: Option<int>, smallestRejected: Option<int>, contextLimit: int, probes: nat,
    inconclusive: bool, contention: bool, tpm: Option<nat>, upper: int)

  datatype Outcome = Done(report: Report) | DryRunReport | Aborted(abort: Abort)

  /** The report rests on what was seen: an observed ceiling got a usable completion, a rejected size was
      refused or is over the budget, the first lies below the second, and a rejected size that was served
      after the first `from` probes is over the budget. */
  ghost predicate Grounded(t: seq<Probe>, from: nat, r: Report) {
    && (r.observed.Some? ==> Accepted(t, r.observed.value))
    && (r.smallestRejected.Some? ==>
          && Refused(t, r.smallestRejected.value, r.tpm)
          && (r.observed.Some? ==> r.observed.value < r.smallestRejected.value)
          && (AcceptedSince(t, from, r.smallestRejected.value) ==> r.tpm.Some? && r.tpm.value < r.smallestRejected.value))
  }

  /** What the report says of an endpoint that keeps to a rule. Against an exact threshold the default
      eight probes bracket it within the floor's width, and no contention is reported. Against an endpoint
      that accepts everything but quotes a budget, a size is reported as rejected exactly when the first
      probe is over that budget and nothing is confirmed, and then it is one the endpoint served. */
  ghost predicate Tells(t: seq<Probe>, from: nat, e: Endpoint, r: Report, context: int, maxProbes: nat, confirmRounds: nat) {
    match e
    case Arbitrary => true
    case Exactly(limit) => maxProbes >= 8 ==> Bracketed(r, limit, Min(context, CAP))
    case Quoting(quota) => Probes(context, maxProbes) ==>
      && (r.smallestRejected.Some? <==> confirmRounds == 0 && quota < FirstMiddle(context))
      && (r.smallestRejected.Some? ==> AcceptedSince(t, from, r.smallestRejected.value))
  }

  /** It follows from the first phase, whose result a confirmation leaves alone or, where the endpoint
      accepts everything, clears of rejections. */
  lemma {:induction false} FirstTells(t: seq<Probe>, u: seq<Probe>, from: nat, e: Endpoint, first: Search, context: int, probes: nat, maxProbes: nat,
                   confirmRounds: nat, s: Search, r: Report)
    requires Course(t, from, e, first, context, probes, maxProbes) && (probes < maxProbes ==> first.low >= first.high - 1000)
    requires Extends(t, u) && from <= |t| && first.low == if first.observed.Some? then first.observed.value else FLOOR
    requires r.observed == s.observed && r.smallestRejected == s.rejected && r.upper == s.high
    requires e.Exactly? ==> s == first && !r.contention
    requires e.Quoting? && (first.rejected.None? || confirmRounds == 0) ==> s == first
    requires e.Quoting? && confirmRounds > 0 ==> s.rejected.None?
    ensures Tells(u, from, e, r, context, maxProbes, confirmRounds)
  {
    match e
    case Arbitrary =>
    case Exactly(limit) => if maxProbes >= 8 { ReportBrackets(first, limit, context, probes, maxProbes, r); }
    case Quoting(quota) => if s.rejected.Some? && Probes(context, maxProbes) { AcceptedLater(t, u, from, FirstMiddle(context)); }
  }

  lemma {:induction false} BoundsGround(t: seq<Probe>, from: nat, s: Search, r: Report)
    requires Bounds(t, s) && Honest(t, from, s) && r.observed == s.observed && r.smallestRejected == s.rejected && r.tpm == s.tpm
    ensures Grounded(t, from, r)
  {}

  /** What a report says, given that its first phase ended after `m` probes of the transcript: its budget, and
      without contention its sizes, are those its first phase heard of and settled, and the upper bound is as
      high as it may be; probes lost in transport are not counted, up to three; it is inconclusive exactly if
      its first phase got stuck; contention is reported exactly if something was served after that, which then
      had been rejected before; and a rejected size that stands was asked for again in every round. */
  ghost predicate Accounts(t: seq<Probe>, from: nat, m: nat, since: nat, prior: Option<nat>, r: Report, input: Option<int>, maxProbes: nat,
                           confirmRounds: nat)
  {
    && from <= m <= |t| && r.contextLimit == (if input in {None, Some(0)} then 32000 else input.value)
    && var ps := t[from..m];
    && r.tpm == Heard(prior, ps)
    && r.probes + Min(3, Losses(prior, ps)) == |t| - from
    && (r.inconclusive <==> Stuck(prior, ps))
    && (r.contention <==> ServedFrom(t, m)) && (r.contention <==> Contended(t, from, m, r.tpm))
    && Tracks(t, from, since, SearchOf(r), r.contextLimit)
    && (!r.contention ==> since == from && r.smallestRejected == LeastDismissed(prior, ps) && r.observed == GreatestTaken(prior, ps))
    && (!r.contention ==> |t| - m <= if r.smallestRejected.Some? then confirmRounds else 0)
    && (!r.contention && r.smallestRejected.Some? ==> |t| - m == confirmRounds || r.probes >= maxProbes + confirmRounds * 2)
  }

  ghost function SearchOf(r: Report): Search {
    Search(if r.observed.Some? then r.observed.value else 1000, r.upper, r.observed, r.smallestRejected, r.tpm)
  }

  /** The search came to an end, unless it was inconclusive: the interval is no wider than the floor, or the
      probes are used up, or, where the search had to be resumed, its last probe there told nothing. It never
      makes more probes than allowed, but for repeating throttled ones. */
  ghost predicate Concluded(t: seq<Probe>, since: nat, r: Report, maxProbes: nat, throttleRetries: nat, confirmRounds: nat) {
    && r.probes <= maxProbes + Max(throttleRetries, confirmRounds * 2)
    && if r.contention then r.probes >= maxProbes + confirmRounds * 2 || Settled(t, since, SearchOf(r))
    else r.inconclusive || r.probes >= maxProbes || r.upper - SearchOf(r).low <= 1000
  }

  /** The report follows from what the first phase found, after the probes `t`, and what the confirmation
      made of it, after the probes `u`. */
  lemma {:induction false} ReportAccounts(t: seq<Probe>, u: seq<Probe>, from: nat, since: nat, prior: Option<nat>, first: Search, n: nat, inconclusive: bool,
                       s: Search, r: Report, input: Option<int>, context: int, maxProbes: nat,
                       throttleRetries: nat, confirmRounds: nat)
    requires context == ContextOf(input) && Extends(t, u) && Supported(t, from, prior, first, context, n) && (inconclusive <==> Stuck(prior, t[from..]))
    requires !inconclusive ==> n >= maxProbes || first.high - first.low <= 1000
    requires Confirms(u, from, |t|, since, first, s, context, r.contention) && r.probes == n + |u| - |t| && Bounds(u, s) && s.tpm == first.tpm
    requires r.contention ==> r.probes >= maxProbes + confirmRounds * 2 || Settled(u, since, s)
    requires !r.contention && first.rejected.Some? ==> r.probes >= maxProbes + confirmRounds * 2 || r.probes == n + confirmRounds
    requires n <= maxProbes + throttleRetries && r.probes <= Max(n, maxProbes + confirmRounds * 2)
    requires !r.contention ==> r.probes <= n + if first.rejected.Some? then confirmRounds else 0
    requires r == Report(s.observed, s.rejected, context, r.probes, inconclusive, r.contention, s.tpm, s.high)
    ensures Accounts(u, from, |t|, since, prior, r, input, maxProbes, confirmRounds)
    ensures Concluded(u, since, r, maxProbes, throttleRetries, confirmRounds)
  {
    assert u[from..|t|] == t[from..];
    assert SearchOf(r) == s;
    if j, k :| Yields(u, from, |t|, j, k, r.tpm) { assert Served(u[k]); }
  }

  lemma {:induction false} ReportGrounded(t: seq<Probe>, u: seq<Probe>, from: nat, prior: Option<nat>, first: Search, context: int, n: nat, s: Search, r: Report)
    requires Extends(t, u) && Supported(t, from, prior, first, context, n) && Bounds(u, s) && Honest(u, from, s) && s.tpm == first.tpm
    requires r.observed == s.observed && r.smallestRejected == s.rejected && r.tpm == s.tpm
    ensures Grounded(u, from, r) && Stated(u, from, prior, r.tpm)
  {
    SupportedBounds(t, from, prior, first, context, n);
    StatedLater(t, u, from, prior, first.tpm, s.tpm);
    BoundsGround(u, from, s, r);
  }

  lemma {:induction false} ReportHolds(t: seq<Probe>, u: seq<Probe>, from: nat, since: nat, prior: Option<nat>, first: Search, n: nat, inconclusive: bool,
                    s: Search, r: Report, input: Option<int>, context: int, maxProbes: nat,
                       throttleRetries: nat, confirmRounds: nat)
    requires context == ContextOf(input) && Extends(t, u) && Supported(t, from, prior, first, context, n) && (inconclusive <==> Stuck(prior, t[from..]))
    requires !inconclusive ==> n >= maxProbes || first.high - first.low <= 1000
    requires Confirms(u, from, |t|, since, first, s, context, r.contention) && r.probes == n + |u| - |t|
    requires Bounds(u, s) && Honest(u, from, s) && s.tpm == first.tpm
    requires r.contention ==> r.probes >= maxProbes + confirmRounds * 2 || Settled(u, since, s)
    requires !r.contention && first.rejected.Some? ==> r.probes >= maxProbes + confirmRounds * 2 || r.probes == n + confirmRounds
    requires n <= maxProbes + throttleRetries && r.probes <= Max(n, maxProbes + confirmRounds * 2)
    requires !r.contention ==> r.probes <= n + if first.rejected.Some? then confirmRounds else 0
    requires r == Report(s.observed, s.rejected, context, r.probes, inconclusive, r.contention, s.tpm, s.high)
    ensures Grounded(u, from, r) && Stated(u, from, prior, r.tpm)
    ensures Accounts(u, from, |t|, since, prior, r, input, maxProbes, confirmRounds)
    ensures Concluded(u, since, r, maxProbes, throttleRetries, confirmRounds)
  {
    ReportGrounded(t, u, from, prior, first, context, n, s, r);
    ReportAccounts(t, u, from, since, prior, first, n, inconclusive, s, r, input, context, maxProbes, throttleRetries, confirmRounds);
  }

  /** `run_phase_2`. For every endpoint it terminates, and aborts only with a budget or the clock run out;
      an observed ceiling is a size that got a usable completion and lies below the smallest rejected size;
      and a rejected size that got one in this run is over the budget, which the caller gave or a response of
      the run quoted. What the report says of a live run is read off its probes (`Accounts`, `Concluded`).
      Given time and room, a live run against an endpoint that keeps to a rule ends with a
      report that is not inconclusive; what it then says is `Tells`. */
  method RunPhase2(runner: RateProbeRunner, route: string, inputContext: Option<int>, maxProbes: nat, throttleRetries: nat,
                   reportedTpm: Option<nat>, confirmRounds: nat, ghost e: Endpoint)
    returns (out: Outcome, ghost m: nat, ghost since: nat)
    requires runner.Valid()
    modifies runner
    ensures runner.Valid() && Extends(old(runner.transcript), runner.transcript)
    ensures !runner.apply ==>
              runner.totalRequests == old(runner.totalRequests) && (out.Done? ==> out.report.observed.None? && out.report.smallestRejected.None?)
    ensures out.Aborted? ==> runner.Exhausted(route, out.abort)
    ensures out.DryRunReport? ==> !runner.apply
    ensures out.Done? ==> Grounded(runner.transcript, |old(runner.transcript)|, out.report)
    ensures out.Done? ==> Stated(runner.transcript, |old(runner.transcript)|, reportedTpm, out.report.tpm)
    ensures out.Done? ==>
              Accounts(runner.transcript, |old(runner.transcript)|, m, since, reportedTpm, out.report, inputContext, maxProbes, confirmRounds)
    ensures out.Done? ==> Concluded(runner.transcript, since, out.report, maxProbes, throttleRetries, confirmRounds)
    ensures Ruled(runner, e) && reportedTpm.None? && (e.Exactly? || confirmRounds == 0) && runner.Timely() &&
            old(runner.HasRoom(route, maxProbes + confirmRounds)) ==>
              out.Done? && !out.report.inconclusive
    ensures out.Done? && Ruled(runner, e) && reportedTpm.None? ==>
              Tells(runner.transcript, |old(runner.transcript)|, e, out.report, ContextOf(inputContext), maxProbes, confirmRounds)
  {
    var context := ContextOf(inputContext);
    ghost var from := |runner.transcript|;
    m, since := from, from;
    var ending, s, probes, inconclusive := FirstPhase(runner, route, context, maxProbes, throttleRetries, reportedTpm, e, confirmRounds);
    if ending.Abort? { out := Aborted(ending.reason); return; }
    if ending.DryRunStop? { out := DryRunReport; return; }
    ghost var first, t, n := s, runner.transcript, probes;
    m := |t|;
    var contention;
    ending, s, probes, contention, since := Confirm(runner, route, s, context, probes, maxProbes, confirmRounds, from, reportedTpm, e);
    if ending.Abort? { out := Aborted(ending.reason); return; }
    out := Done(Report(s.observed, s.rejected, context, probes, inconclusive, contention, s.tpm, s.high));
    ReportHolds(t, runner.transcript, from, since, reportedTpm, first, n, inconclusive, s, out.report, inputContext, context, maxProbes, throttleRetries,
                confirmRounds);
    if Ruled(runner, e) && reportedTpm.None? {
      FirstTells(t, runner.transcript, from, e, first, context, n, maxProbes, confirmRounds, s, out.report);
    }
  }

  /** After eight halvings, or with the interval already narrow, the report brackets the threshold. */
  lemma {:induction false} ReportBrackets(s: Search, limit: int, context: int, probes: nat, maxProbes: nat, r: Report)
    requires Brackets(limit, s, Min(context, CAP)) && s.high - s.low <= Halved(CAP - FLOOR, probes)
    requires s.low == if s.observed.Some? then s.observed.value else FLOOR
    requires maxProbes >= 8 && probes <= maxProbes && (probes < maxProbes ==> s.low >= s.high - 1000)
    requires r.observed == s.observed && r.smallestRejected == s.rejected && r.upper == s.high && !r.contention
    ensures Bracketed(r, limit, Min(context, CAP))
  {
    if probes == maxProbes { EightHalvings(probes); }
  }

  /** The report pins the threshold `limit` down to an interval no wider than the floor. */
  ghost predicate Bracketed(r: Report, limit: int, top: int) {
    var low := if r.observed.Some? then r.observed.value else FLOOR;
    && !r.contention
    && r.upper - low <= FLOOR
    && (r.observed.Some? ==> r.observed.value <= limit)
    && (if r.smallestRejected.Some? then limit < r.smallestRejected.value == r.upper else r.upper == top)
    && (FLOOR <= limit < top ==> low <= limit < r.upper)
  }

  /** An endpoint that accepts everything and quotes a budget. */
  function QuotingWorld(quota: nat): World {
    (call, size) => Exchange(0, 0, true, Response(true, Some(200), false, Some(quota)))
  }

  /** A run that reports as rejected a size it was served: no confirmation, and a quota below the first size. */
  method ServedYetRejected(quota: nat) returns (out: Outcome, ghost transcript: seq<Probe>)
    requires 0 < quota < FirstMiddle(DEFAULT_CONTEXT)
    ensures out.Done? && out.report.smallestRejected.Some? && Accepted(transcript, out.report.smallestRejected.value)
  {
    var runner := new RateProbeRunner(QuotingWorld(quota), true, false, 8, 8, 1);
    ghost var m, since;
    out, m, since := RunPhase2(runner, "", None, 8, 0, None, 0, Quoting(quota));
    transcript := runner.transcript;
  }
}
