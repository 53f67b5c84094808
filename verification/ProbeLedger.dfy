/** What the first phase of a ceiling search may conclude from its probes, read off the probes alone:
    the budget heard of, the sizes settled, the failures that cost nothing, and whether it got stuck. */
module ProbeLedger {
  import opened Wrappers

  /** A probe's response as the search reads it. `nonSize` says that the shared signature table gives
      a class that tells nothing about size; `reported` is the token limit the response quotes. */
  datatype Response =
    | DryRun
    | Response(usable: bool, status: Option<int>, nonSize: bool, reported: Option<nat>)

  datatype Probe = Probe(call: nat, size: int, response: Response)

  /** `x is None`-style and truthiness tests on an optional count. */
  predicate Truthy(x: Option<nat>) { x.Some? && x.value > 0 }

  /** `_throttle_class(...) in _NON_SIZE_CLASSES` */
  predicate Throttled(r: Response)
    requires r.Response?
  {
    !r.usable && (r.status == Some(200) || r.nonSize)
  }

  predicate SizeRefusal(r: Response)
    requires r.Response?
  {
    !r.usable && !Throttled(r) && (r.status == Some(400) || r.status == Some(413))
  }

  /** The probe got a usable completion. */
  predicate Served(p: Probe) { p.response.Response? && p.response.usable }

  const FLOOR := 1000
  const CAP := 250000
  const TRANSPORT_RETRIES := 3

  function UpperBound(context: int, tpm: Option<nat>): int {
    if Truthy(tpm) then Min(Min(context, CAP), tpm.value) else Min(context, CAP)
  }

  function Lower(rejected: Option<int>, size: int): Option<int> {
    Some(if rejected.Some? then Min(rejected.value, size) else size)
  }

  /** What the search knows: its bounds, the best accepted and smallest rejected size, the budget. */
  datatype Search = Search(low: int, high: int, observed: Option<int>, rejected: Option<int>, tpm: Option<nat>)

  /** A response to a probe of `mid` may state a smaller budget, which lowers the upper bound. */
  function Learn(s: Search, reported: Option<nat>): Search {
    if Truthy(reported) && (s.tpm.None? || reported.value < s.tpm.value) then
      s.(tpm := reported, high := if reported.value < s.high then Max(s.low + 1, reported.value) else s.high)
    else s
  }

  function Reject(s: Search, mid: int): Search { s.(rejected := Lower(s.rejected, mid)) }

  /** The response shows the probed size to be above the account's budget. */
  predicate OverBudget(s: Search, mid: int) { s.tpm.Some? && mid > s.tpm.value }

  /** What one round of the first phase concludes. */
  datatype Verdict = Narrowed | NoAnswer | Unclear

  /** The search after a size was settled by the response `r`, nothing more being retried. */
  function Settle(s: Search, reported: Option<nat>, mid: int, r: Response): (Search, Verdict)
    requires r.Response?
  {
    var learned := Learn(s, reported);
    if OverBudget(learned, mid) then (Reject(learned, mid), Narrowed)
    else if r.usable then (learned.(observed := Some(mid), low := mid), Narrowed)
    else if Throttled(r) then (learned, Unclear)
    else if r.status == Some(400) || r.status == Some(413) then (Reject(learned, mid).(high := mid), Narrowed)
    else (learned, if r.status.None? then NoAnswer else Unclear)
  }

  // ---------------------------------------------------------------- the probes of a first phase

  /** A budget, and the size that is too large for it. */
  ghost predicate TooLarge(size: int, budget: Option<nat>) { budget.Some? && size > budget.value }

  /** A completion that was not given for reasons that are not the size: an empty success or such a class. */
  ghost predicate SaysNothing(r: Response) { r.Response? && !r.usable && (r.status == Some(200) || r.nonSize) }

  /** Refused with a status that tells of the size, and no class that says otherwise. */
  ghost predicate RefusesSize(r: Response) { r.Response? && !r.usable && !r.nonSize && r.status in {Some(400), Some(413)} }

  ghost predicate Refuses(p: Probe, budget: Option<nat>) { p.response.Response? && (RefusesSize(p.response) || TooLarge(p.size, budget)) }

  /** No status came back. */
  ghost predicate Lost(r: Response) { r.Response? && !r.usable && !r.nonSize && r.status.None? }

  ghost function Lesser(budget: Option<nat>, r: Response): Option<nat> {
    if r.Response? && r.reported.Some? && r.reported.value > 0 && (budget.None? || r.reported.value < budget.value) then r.reported else budget
  }

  /** The budget heard of: the least quoted so far, the answers to repeated probes not counting. */
  ghost function Heard(prior: Option<nat>, ps: seq<Probe>): Option<nat>
    decreases |ps|, 0
  {
    if ps == [] then prior
    else
      var n := |ps| - 1;
      var before := Heard(prior, ps[..n]);
      if Pending(prior, ps[..n]) then before else Lesser(before, ps[n].response)
  }

  /** The last probe was throttled, at a size within the budget: the next repeats it. */
  ghost predicate Pending(prior: Option<nat>, ps: seq<Probe>)
    decreases |ps|, 1
  {
    ps != [] && SaysNothing(ps[|ps| - 1].response) && !TooLarge(ps[|ps| - 1].size, Heard(prior, ps))
  }

  /** The last probe shows its size to be too large: it is refused, or over the budget. */
  ghost predicate Dismisses(prior: Option<nat>, ps: seq<Probe>) {
    ps != [] && Refuses(ps[|ps| - 1], Heard(prior, ps))
  }

  /** The last probe shows its size to be accepted. */
  ghost predicate Takes(prior: Option<nat>, ps: seq<Probe>) {
    ps != [] && Served(ps[|ps| - 1]) && !TooLarge(ps[|ps| - 1].size, Heard(prior, ps))
  }

  /** The last probe was lost in transport: no status, and nothing else that explains it. */
  ghost predicate GoesLost(prior: Option<nat>, ps: seq<Probe>) {
    ps != [] && Lost(ps[|ps| - 1].response) && !TooLarge(ps[|ps| - 1].size, Heard(prior, ps))
  }

  /** How many probes were lost in transport. */
  ghost function Losses(prior: Option<nat>, ps: seq<Probe>): nat {
    if ps == [] then 0 else Losses(prior, ps[..|ps| - 1]) + if GoesLost(prior, ps) then 1 else 0
  }

  /** The probes end with one that settles nothing: neither served nor too large, and, if it was lost in
      transport, lost once too often. */
  ghost predicate Stuck(prior: Option<nat>, ps: seq<Probe>) {
    && ps != [] && !Takes(prior, ps) && !Dismisses(prior, ps)
    && (GoesLost(prior, ps) ==> Losses(prior, ps) > 3)
  }

  ghost predicate DismissesAt(prior: Option<nat>, ps: seq<Probe>, k: int) { 0 <= k < |ps| && Dismisses(prior, ps[..k + 1]) }

  ghost predicate TakesAt(prior: Option<nat>, ps: seq<Probe>, k: int) { 0 <= k < |ps| && Takes(prior, ps[..k + 1]) }

  /** The least size shown to be too large, and the greatest shown to be accepted. */
  ghost function LeastDismissed(prior: Option<nat>, ps: seq<Probe>): Option<int> {
    if ps == [] then None
    else
      var n := |ps| - 1;
      var before := LeastDismissed(prior, ps[..n]);
      if !Dismisses(prior, ps) then before else if before.Some? then Some(Min(before.value, ps[n].size)) else Some(ps[n].size)
  }

  ghost function GreatestTaken(prior: Option<nat>, ps: seq<Probe>): Option<int> {
    if ps == [] then None
    else
      var n := |ps| - 1;
      var before := GreatestTaken(prior, ps[..n]);
      if !Takes(prior, ps) then before else if before.Some? then Some(Max(before.value, ps[n].size)) else Some(ps[n].size)
  }

  lemma {:induction false} LeastDismissedMeans(prior: Option<nat>, ps: seq<Probe>)
    ensures var least := LeastDismissed(prior, ps);
            && (forall k :: DismissesAt(prior, ps, k) ==> least.Some? && least.value <= ps[k].size)
            && (least.Some? ==> exists k :: DismissesAt(prior, ps, k) && ps[k].size == least.value)
  {
    if ps != [] {
      var n := |ps| - 1;
      var front := ps[..n];
      LeastDismissedMeans(prior, front);
      assert ps[..n + 1] == ps;
      forall k ensures DismissesAt(prior, ps, k) <==> DismissesAt(prior, front, k) || (k == n && Dismisses(prior, ps)) {
        if 0 <= k < n { assert front[..k + 1] == ps[..k + 1]; }
      }
    }
  }

  lemma {:induction false} GreatestTakenMeans(prior: Option<nat>, ps: seq<Probe>)
    ensures var greatest := GreatestTaken(prior, ps);
            && (forall k :: TakesAt(prior, ps, k) ==> greatest.Some? && ps[k].size <= greatest.value)
            && (greatest.Some? ==> exists k :: TakesAt(prior, ps, k) && ps[k].size == greatest.value)
  {
    if ps != [] {
      var n := |ps| - 1;
      var front := ps[..n];
      GreatestTakenMeans(prior, front);
      assert ps[..n + 1] == ps;
      forall k ensures TakesAt(prior, ps, k) <==> TakesAt(prior, front, k) || (k == n && Takes(prior, ps)) {
        if 0 <= k < n { assert front[..k + 1] == ps[..k + 1]; }
      }
    }
  }

  /** The upper bound is never lower than the context and the budget allow, but for a size refused. */
  ghost predicate Roofed(ps: seq<Probe>, s: Search, context: int) {
    || s.high >= UpperBound(context, s.tpm)
    || exists k :: 0 <= k < |ps| && RefusesSize(ps[k].response) && ps[k].size == s.high
  }

  /** The search rests on its probes, of which those lost in transport are not counted, up to three. */
  ghost predicate Ledger(prior: Option<nat>, ps: seq<Probe>, s: Search, context: int, probes: int) {
    && s.tpm == Heard(prior, ps) && s.low == (if s.observed.Some? then s.observed.value else 1000)
    && probes + Min(3, Losses(prior, ps)) == |ps|
    && s.rejected == LeastDismissed(prior, ps) && s.observed == GreatestTaken(prior, ps) && Roofed(ps, s, context)
  }

  /** The search can go on, with `left` losses in transport to spare. */
  ghost predicate Ongoing(prior: Option<nat>, ps: seq<Probe>, left: int) {
    !Pending(prior, ps) && !Stuck(prior, ps) && left >= 0 && Losses(prior, ps) == 3 - left
  }

  /** The ledger after a round, by its verdict: `left` losses were to spare before it. */
  ghost predicate RoundDone(prior: Option<nat>, ps: seq<Probe>, s: Search, context: int, probes: int, left: int, verdict: Verdict) {
    var refund := if verdict.NoAnswer? && left > 0 then 1 else 0;
    && Ledger(prior, ps, s, context, probes - refund)
    && (verdict.Narrowed? || refund == 1 ==> Ongoing(prior, ps, left - refund))
    && (!verdict.Narrowed? && refund == 0 ==> Stuck(prior, ps))
  }

  /** One size is asked for until it is not throttled any more: `first` and `last` are the first and last answers. */
  ghost predicate Insists(qs: seq<Probe>, mid: int, first: Response, last: Response) {
    && qs != [] && qs[0].response == first && qs[|qs| - 1].response == last
    && (forall k :: 0 <= k < |qs| ==> qs[k].size == mid && qs[k].response.Response?)
    && (forall k :: 0 <= k < |qs| - 1 ==> Throttled(qs[k].response))
  }

  /** The same size asked for again, each time because the answer before was throttled. */
  ghost predicate Repeats(qs: seq<Probe>, mid: int, first: Response, last: Response) {
    && (forall k :: 0 <= k < |qs| ==> qs[k].size == mid && qs[k].response.Response?)
    && (forall k :: 0 <= k < |qs| - 1 ==> Throttled(qs[k].response))
    && (qs != [] ==> first.Response? && Throttled(first))
    && last == if qs == [] then first else qs[|qs| - 1].response
  }

  lemma {:induction false} RepeatsSnoc(qs: seq<Probe>, p: Probe, mid: int, first: Response, last: Response)
    requires Repeats(qs, mid, first, last) && p.size == mid && p.response.Response? && last.Response? && Throttled(last)
    ensures Repeats(qs + [p], mid, first, p.response)
  {}

  lemma {:induction false} RepeatsInsist(p: Probe, qs: seq<Probe>, mid: int, last: Response)
    requires p.size == mid && p.response.Response? && Repeats(qs, mid, p.response, last)
    ensures Insists([p] + qs, mid, p.response, last)
  {
    var all := [p] + qs;
    forall k | 0 <= k < |all| - 1 ensures Throttled(all[k].response) {
      if k > 0 { assert all[k] == qs[k - 1]; }
    }
  }

  // ---------------------------------------------------------------- one round more

  lemma {:induction false} Cut(h: seq<Probe>, qs: seq<Probe>)
    requires qs != []
    ensures (h + qs)[..|h| + |qs| - 1] == h + qs[..|qs| - 1] && (h + qs)[|h| + |qs| - 1] == qs[|qs| - 1]
  {}

  lemma {:induction false} InsistsFront(qs: seq<Probe>, mid: int, first: Response, last: Response)
    requires Insists(qs, mid, first, last) && |qs| > 1
    ensures Insists(qs[..|qs| - 1], mid, first, qs[|qs| - 2].response) && Throttled(qs[|qs| - 2].response)
  {}

  /** Only the first answer of a round can lower the budget, and only its last can settle or lose anything. */
  lemma {:induction false} RoundHeard(prior: Option<nat>, h: seq<Probe>, qs: seq<Probe>, mid: int, first: Response, last: Response)
    requires !Pending(prior, h) && Insists(qs, mid, first, last)
    requires TooLarge(mid, Lesser(Heard(prior, h), first)) ==> |qs| == 1
    ensures Heard(prior, h + qs) == Lesser(Heard(prior, h), first)
    ensures Losses(prior, h + qs) == Losses(prior, h) + if GoesLost(prior, h + qs) then 1 else 0
    ensures LeastDismissed(prior, h + qs) == if Dismisses(prior, h + qs) then Lower(LeastDismissed(prior, h), mid) else LeastDismissed(prior, h)
    ensures Takes(prior, h + qs) ==>
              GreatestTaken(prior, h + qs) == Some(if GreatestTaken(prior, h).Some? then Max(GreatestTaken(prior, h).value, mid) else mid)
    ensures !Takes(prior, h + qs) ==> GreatestTaken(prior, h + qs) == GreatestTaken(prior, h)
    decreases |qs|
  {
    Cut(h, qs);
    if |qs| == 1 {
      assert h + qs[..0] == h;
    } else {
      InsistsFront(qs, mid, first, last);
      var front := qs[..|qs| - 1];
      RoundHeard(prior, h, front, mid, first, qs[|qs| - 2].response);
      Cut(h, front);
      assert Pending(prior, h + front);
    }
  }

  /** What the last answer of a round settles, given the budget heard of by then. */
  lemma {:induction false} LastTells(prior: Option<nat>, ps: seq<Probe>, s: Search, mid: int, first: Response, last: Response)
    requires ps != [] && ps[|ps| - 1].size == mid && ps[|ps| - 1].response == last && last.Response? && first.Response?
    requires Heard(prior, ps) == Learn(s, first.reported).tpm
    ensures var (s', verdict) := Settle(s, first.reported, mid, last);
            && s'.tpm == Heard(prior, ps)
            && s'.rejected == (if Dismisses(prior, ps) then Lower(s.rejected, mid) else s.rejected)
            && s'.observed == (if Takes(prior, ps) then Some(mid) else s.observed)
            && s'.low == (if Takes(prior, ps) then mid else s.low)
            && (verdict.Narrowed? <==> Dismisses(prior, ps) || Takes(prior, ps))
            && (verdict.NoAnswer? <==> GoesLost(prior, ps))
            && (Pending(prior, ps) ==> verdict.Unclear?)
  {}

  lemma {:induction false} RoundRoofed(h: seq<Probe>, qs: seq<Probe>, mid: int, first: Response, last: Response, s: Search, context: int)
    requires Roofed(h, s, context) && Insists(qs, mid, first, last)
    ensures Roofed(h + qs, Settle(s, first.reported, mid, last).0, context)
  {
    var ps, s' := h + qs, Settle(s, first.reported, mid, last).0;
    Cut(h, qs);
    if s'.high == s.high && s.high < UpperBound(context, s.tpm) {
      var k :| 0 <= k < |h| && RefusesSize(h[k].response) && h[k].size == s.high;
      assert ps[k] == h[k];
    } else if s'.high == mid && SizeRefusal(last) {
      assert ps[|ps| - 1].size == mid;
    }
  }

  /** What a round makes of the ledger, by its verdict. */
  lemma {:induction false} RoundLedger(prior: Option<nat>, h: seq<Probe>, qs: seq<Probe>, mid: int, first: Response, last: Response, s: Search, context: int,
                    probes: int, left: int)
    requires Ledger(prior, h, s, context, probes) && Ongoing(prior, h, left) && Insists(qs, mid, first, last) && s.low < mid
    requires OverBudget(Learn(s, first.reported), mid) ==> |qs| == 1
    ensures var (s', verdict) := Settle(s, first.reported, mid, last);
            RoundDone(prior, h + qs, s', context, probes + |qs|, left, verdict)
  {
    RoundHeard(prior, h, qs, mid, first, last);
    Cut(h, qs);
    LastTells(prior, h + qs, s, mid, first, last);
    RoundRoofed(h, qs, mid, first, last, s, context);
  }

  /** The same for the probes of a transcript `t`, from `from` on, that a round made into `u`. */
  lemma {:induction false} LedgerNext(prior: Option<nat>, t: seq<Probe>, u: seq<Probe>, from: nat, mid: int, first: Response, last: Response, s: Search,
                   context: int, probes: int, left: int)
    requires from <= |t| && t <= u
    requires Ledger(prior, t[from..], s, context, probes) && Ongoing(prior, t[from..], left) && Insists(u[|t|..], mid, first, last)
    requires s.low < mid && (OverBudget(Learn(s, first.reported), mid) ==> |u| == |t| + 1)
    ensures var (s', verdict) := Settle(s, first.reported, mid, last);
            RoundDone(prior, u[from..], s', context, probes + |u| - |t|, left, verdict)
  {
    assert u[from..] == t[from..] + u[|t|..];
    RoundLedger(prior, t[from..], u[|t|..], mid, first, last, s, context, probes, left);
  }

  // ---------------------------------------------------------------- what follows

  /** The budget never grows. */
  lemma {:induction false} HeardShrinks(prior: Option<nat>, ps: seq<Probe>, k: nat)
    requires k <= |ps| && Heard(prior, ps[..k]).Some?
    ensures Heard(prior, ps).Some? && Heard(prior, ps).value <= Heard(prior, ps[..k]).value
    decreases |ps|
  {
    var n := |ps| - 1;
    if k <= n {
      assert ps[..n][..k] == ps[..k];
      HeardShrinks(prior, ps[..n], k);
    } else {
      assert ps[..k] == ps;
    }
  }

  /** The budget heard of is the one known before, or one that some probe's response quotes. */
  lemma {:induction false} HeardFrom(prior: Option<nat>, ps: seq<Probe>)
    ensures Heard(prior, ps) == prior || exists k :: 0 <= k < |ps| && ps[k].response.Response? && ps[k].response.reported == Heard(prior, ps)
  {
    if ps != [] {
      var n := |ps| - 1;
      HeardFrom(prior, ps[..n]);
      if Heard(prior, ps) == Heard(prior, ps[..n]) && Heard(prior, ps) != prior {
        var k :| 0 <= k < n && ps[..n][k].response.Response? && ps[..n][k].response.reported == Heard(prior, ps);
        assert ps[k] == ps[..n][k];
      }
    }
  }

  /** A served size is no larger than the greatest one taken, or too large for the budget. */
  lemma {:induction false} ServedIsTaken(prior: Option<nat>, ps: seq<Probe>, k: nat)
    requires k < |ps| && Served(ps[k])
    ensures var greatest := GreatestTaken(prior, ps);
            (greatest.Some? && ps[k].size <= greatest.value) || TooLarge(ps[k].size, Heard(prior, ps))
  {
    GreatestTakenMeans(prior, ps);
    var front := ps[..k + 1];
    assert front[k] == ps[k];
    if TooLarge(ps[k].size, Heard(prior, front)) { HeardShrinks(prior, ps, k + 1); } else { assert TakesAt(prior, ps, k); }
  }

  /** The rejected size was refused, or is too large for the budget. */
  lemma {:induction false} DismissedIsRefused(prior: Option<nat>, ps: seq<Probe>)
    requires LeastDismissed(prior, ps).Some?
    ensures exists k :: 0 <= k < |ps| && ps[k].size == LeastDismissed(prior, ps).value && Refuses(ps[k], Heard(prior, ps))
  {
    LeastDismissedMeans(prior, ps);
    var k :| DismissesAt(prior, ps, k) && ps[k].size == LeastDismissed(prior, ps).value;
    assert ps[..k + 1][k] == ps[k];
    if !RefusesSize(ps[k].response) { HeardShrinks(prior, ps, k + 1); }
    assert Refuses(ps[k], Heard(prior, ps));
  }

  lemma {:induction false} LedgerStarts(prior: Option<nat>, context: int)
    ensures Ledger(prior, [], Search(FLOOR, UpperBound(context, prior), None, None, prior), context, 0) && Ongoing(prior, [], TRANSPORT_RETRIES)
  {}

  // ---------------------------------------------------------------- the confirmation

  /** Some probe from `from` on showed the rejected size to be too large; every size refused from `since` on
      is at least the rejected one; and the upper bound is as high as it may be. */
  ghost predicate Tracks(t: seq<Probe>, from: nat, since: nat, s: Search, context: int) {
    && from <= since <= |t|
    && (s.rejected.Some? ==> exists j :: from <= j < |t| && t[j].size == s.rejected.value && Refuses(t[j], s.tpm))
    && (forall k :: since <= k < |t| && RefusesSize(t[k].response) ==> s.rejected.Some? && s.rejected.value <= t[k].size)
    && Roofed(t[from..], s, context)
  }

  /** Probe `k`, served after the first phase, asks for a size that probe `j` had shown to be too large. */
  ghost predicate Yields(t: seq<Probe>, from: nat, m: nat, j: int, k: int, tpm: Option<nat>) {
    from <= j < k < |t| && m <= k && t[j].size == t[k].size && Refuses(t[j], tpm) && Served(t[k])
  }

  /** A size rejected earlier in the run was served after its first `m` probes. */
  ghost predicate Contended(t: seq<Probe>, from: nat, m: nat, tpm: Option<nat>) { exists j, k :: Yields(t, from, m, j, k, tpm) }

  ghost predicate ServedFrom(t: seq<Probe>, m: nat) { exists k :: m <= k < |t| && Served(t[k]) }

  /** The confirmation so far: `s0` is what the first phase found after `m` probes. Something was served since
      exactly if there was contention; without it the search stands, and only its boundary was probed. */
  ghost predicate Confirms(t: seq<Probe>, from: nat, m: nat, since: nat, s0: Search, s: Search, context: int, contention: bool) {
    && from <= m <= |t| && Tracks(t, from, since, s, context)
    && (contention <==> ServedFrom(t, m)) && (contention ==> Contended(t, from, m, s.tpm))
    && (!contention ==> since == from && s == s0 && forall k :: m <= k < |t| ==> s0.rejected == Some(t[k].size))
  }

  /** The search between the bounds did not end for want of probes: it has no room left, or its last probe
      neither succeeded nor was refused for its size. */
  ghost predicate Settled(t: seq<Probe>, since: nat, s: Search) {
    || s.high - s.low <= 1000
    || exists k :: since <= k < |t| && t[k].size == (s.low + s.high) / 2 && !Served(t[k]) && !RefusesSize(t[k].response)
  }

  lemma {:induction false} SuffixSnoc(t: seq<Probe>, p: Probe, from: nat)
    requires from <= |t|
    ensures (t + [p])[from..] == t[from..] + [p]
  {}

  lemma {:induction false} RoofedSnoc(ps: seq<Probe>, p: Probe, s: Search, s': Search, context: int)
    requires Roofed(ps, s, context) && s'.tpm == s.tpm
    requires s'.high == s.high || (s'.high == p.size && RefusesSize(p.response))
    ensures Roofed(ps + [p], s', context)
  {
    if s'.high != s.high {
      assert (ps + [p])[|ps|] == p;
    } else if s.high < UpperBound(context, s.tpm) {
      var k :| 0 <= k < |ps| && RefusesSize(ps[k].response) && ps[k].size == s.high;
      assert (ps + [p])[k] == ps[k];
    }
  }

  lemma {:induction false} TracksNext(t: seq<Probe>, p: Probe, from: nat, since: nat, s: Search, s': Search, context: int)
    requires Tracks(t, from, since, s, context) && s'.tpm == s.tpm
    requires RefusesSize(p.response) ==> s'.rejected.Some? && s'.rejected.value <= p.size
    requires s'.rejected == s.rejected || (s'.rejected == Some(p.size) && Refuses(p, s.tpm) && (s.rejected.Some? ==> p.size <= s.rejected.value))
    requires s'.high == s.high || (s'.high == p.size && RefusesSize(p.response))
    ensures Tracks(t + [p], from, since, s', context)
  {
    var u := t + [p];
    SuffixSnoc(t, p, from);
    RoofedSnoc(t[from..], p, s, s', context);
    if s'.rejected == s.rejected && s.rejected.Some? {
      var j :| from <= j < |t| && t[j].size == s.rejected.value && Refuses(t[j], s.tpm);
      assert u[j] == t[j];
    } else if s'.rejected.Some? {
      assert u[|t|] == p;
    }
  }

  /** The boundary gives way: a size shown to be too large is served after all. */
  lemma {:induction false} TracksReopened(t: seq<Probe>, p: Probe, from: nat, m: nat, since: nat, s: Search, s': Search, context: int)
    requires Tracks(t, from, since, s, context) && s'.tpm == s.tpm && from <= m <= |t|
    requires s.rejected == Some(p.size) && Served(p) && s'.rejected.None? && s'.high == UpperBound(context, s.tpm)
    ensures Tracks(t + [p], from, |t| + 1, s', context) && Contended(t + [p], from, m, s.tpm) && ServedFrom(t + [p], m)
  {
    var u := t + [p];
    var j :| from <= j < |t| && t[j].size == s.rejected.value && Refuses(t[j], s.tpm);
    assert u[j] == t[j] && u[|t|] == p;
    assert Yields(u, from, m, j, |t|, s.tpm);
  }

  lemma {:induction false} ContendedLater(t: seq<Probe>, p: Probe, from: nat, m: nat, tpm: Option<nat>)
    requires Contended(t, from, m, tpm) && ServedFrom(t, m)
    ensures Contended(t + [p], from, m, tpm) && ServedFrom(t + [p], m)
  {
    var u := t + [p];
    var j, k :| Yields(t, from, m, j, k, tpm);
    assert u[j] == t[j] && u[k] == t[k];
    assert Yields(u, from, m, j, k, tpm) && Served(u[k]);
  }

  /** The search resumes above a boundary that gave way. */
  ghost predicate Reopens(t: seq<Probe>, from: nat, m: nat, since: nat, s: Search, context: int) {
    from <= m <= |t| && Tracks(t, from, since, s, context) && Contended(t, from, m, s.tpm) && ServedFrom(t, m)
  }

  /** One resumed probe: a served size becomes the lower bound, a refused one the rejected size and the upper
      bound; any other answer changes nothing, and ends it. */
  function Resume(s: Search, mid: int, r: Response): (Search, bool)
    requires r.Response?
  {
    if r.usable then (s.(observed := Some(mid), low := mid), true)
    else if Throttled(r) then (s, false)
    else if r.status == Some(400) || r.status == Some(413) then (Reject(s, mid).(high := mid), true)
    else (s, false)
  }

  lemma {:induction false} ResumeReopens(t: seq<Probe>, p: Probe, from: nat, m: nat, since: nat, s: Search, context: int)
    requires Reopens(t, from, m, since, s, context) && p.response.Response? && p.size == (s.low + s.high) / 2
    requires s.low < s.high - 1000 && (s.rejected.Some? ==> s.high <= s.rejected.value)
    ensures var (s', go) := Resume(s, p.size, p.response);
            && Reopens(t + [p], from, m, since, s', context) && (!go ==> Settled(t + [p], since, s'))
            && (go <==> Served(p) || RefusesSize(p.response))
  {
    var (s', go) := Resume(s, p.size, p.response);
    TracksNext(t, p, from, since, s, s', context);
    ContendedLater(t, p, from, m, s.tpm);
    assert (t + [p])[|t|] == p;
  }

  lemma {:induction false} SettledLater(t: seq<Probe>, u: seq<Probe>, since: nat, s: Search)
    requires Settled(t, since, s) && t <= u
    ensures Settled(u, since, s)
  {
    if s.high - s.low > 1000 {
      var k :| since <= k < |t| && t[k].size == (s.low + s.high) / 2 && !Served(t[k]) && !RefusesSize(t[k].response);
      assert u[k] == t[k];
    }
  }

  /** The boundary is asked for again and not served: nothing changes. */
  lemma {:induction false} ConfirmsAgain(t: seq<Probe>, p: Probe, from: nat, m: nat, since: nat, s0: Search, s: Search, context: int, contention: bool)
    requires Confirms(t, from, m, since, s0, s, context, contention) && s.rejected == Some(p.size) && !Served(p)
    ensures Confirms(t + [p], from, m, since, s0, s, context, contention)
  {
    var u := t + [p];
    TracksNext(t, p, from, since, s, s, context);
    assert forall k :: m <= k < |t| ==> u[k] == t[k];
    if contention { ContendedLater(t, p, from, m, s.tpm); }
    else { forall k | m <= k < |u| ensures !Served(u[k]) {} }
  }

  /** What the first phase leaves for the confirmation. */
  lemma {:induction false} LedgerTracks(t: seq<Probe>, from: nat, prior: Option<nat>, s: Search, context: int, probes: int)
    requires from <= |t| && Ledger(prior, t[from..], s, context, probes)
    ensures Confirms(t, from, |t|, from, s, s, context, false)
  {
    var ps := t[from..];
    if s.rejected.Some? {
      DismissedIsRefused(prior, ps);
      var k :| 0 <= k < |ps| && ps[k].size == s.rejected.value && Refuses(ps[k], Heard(prior, ps));
      assert ps[k] == t[from + k];
    }
    LeastDismissedMeans(prior, ps);
    forall k | from <= k < |t| && RefusesSize(t[k].response) ensures s.rejected.Some? && s.rejected.value <= t[k].size {
      assert ps[..k - from + 1][k - from] == ps[k - from] == t[k];
      assert DismissesAt(prior, ps, k - from);
    }
  }
}
