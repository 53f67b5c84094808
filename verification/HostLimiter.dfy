/** Per-host concurrency limiter: configured domain caps, lookup of the domain that governs a
    host, the sorted acquisition of several semaphores, and the multi-thread protocol they form. */
module HostLimiter {
  import opened Wrappers
  import Text

  // ---------------------------------------------------------------- ordering of domain keys

  /** Python's `<` on `str`: lexicographic by code point. */
  predicate Less(a: string, b: string) {
    if b == [] then false
    else if a == [] then true
    else a[0] < b[0] || (a[0] == b[0] && Less(a[1..], b[1..]))
  }

  /** The strings part at `k`, where the first ends, or has the smaller character. */
  ghost predicate PartAt(a: string, b: string, k: nat) {
    k <= |a| && k < |b| && a[..k] == b[..k] && (k == |a| || a[k] < b[k])
  }

  lemma {:induction false} LessMeans(a: string, b: string)
    ensures Less(a, b) <==> exists k: nat :: PartAt(a, b, k)
  {
    if a == [] && b != [] {
      assert PartAt(a, b, 0);
    } else if a != [] && b != [] {
      LessMeans(a[1..], b[1..]);
      if a[0] < b[0] { assert PartAt(a, b, 0); }
      if k: nat :| PartAt(a[1..], b[1..], k) && a[0] == b[0] {
        assert a[..k + 1] == [a[0]] + a[1..][..k] && b[..k + 1] == [b[0]] + b[1..][..k];
        assert PartAt(a, b, k + 1);
      }
      if k: nat :| PartAt(a, b, k) && k > 0 {
        assert a[0] == a[..k][0] == b[..k][0] == b[0];
        assert a[1..][..k - 1] == a[..k][1..] && b[1..][..k - 1] == b[..k][1..];
        assert PartAt(a[1..], b[1..], k - 1);
      }
    }
  }

  lemma {:induction false} LessIrreflexive(a: string)
    ensures !Less(a, a)
  {
    if a != [] { LessIrreflexive(a[1..]); }
  }

  lemma {:induction false} LessTransitive(a: string, b: string, c: string)
    requires Less(a, b) && Less(b, c)
    ensures Less(a, c)
  {
    if a != [] && a[0] == b[0] && b[0] == c[0] { LessTransitive(a[1..], b[1..], c[1..]); }
  }

  lemma {:induction false} LessTotal(a: string, b: string)
    ensures a == b || Less(a, b) || Less(b, a)
  {
    if a != [] && b != [] && a[0] == b[0] {
      LessTotal(a[1..], b[1..]);
      assert a == [a[0]] + a[1..] && b == [b[0]] + b[1..];
    }
  }

  /** Sorted and without duplicates: what `sorted(set_of_keys)` yields. */
  ghost predicate Ascending(keys: seq<string>) {
    forall i, j :: 0 <= i < j < |keys| ==> Less(keys[i], keys[j])
  }

  /** Position of the first element of an ascending sequence that is not below `key`. */
  method InsertionPoint(keys: seq<string>, key: string) returns (p: nat)
    requires Ascending(keys) && key !in keys
    ensures p <= |keys|
    ensures forall i :: 0 <= i < p ==> Less(keys[i], key)
    ensures forall i :: p <= i < |keys| ==> Less(key, keys[i])
  {
    p := 0;
    while p < |keys| && Less(keys[p], key)
      invariant p <= |keys|
      invariant forall i :: 0 <= i < p ==> Less(keys[i], key)
    {
      p := p + 1;
    }
    forall i | p <= i < |keys| ensures Less(key, keys[i]) {
      LessTotal(keys[p], key);
      if i > p { LessTransitive(key, keys[p], keys[i]); }
    }
  }

  method Sorted(keys: set<string>) returns (r: seq<string>)
    ensures Ascending(r)
    ensures forall k :: k in r <==> k in keys
  {
    r := [];
    var rest := keys;
    while rest != {}
      invariant rest <= keys
      invariant Ascending(r)
      invariant forall k :: k in r <==> k in keys && k !in rest
      decreases rest
    {
      var k :| k in rest;
      var p := InsertionPoint(r, k);
      var r' := r[..p] + [k] + r[p..];
      assert forall x :: x in r' <==> x in r || x == k by {
        forall x | x in r ensures x in r' {
          var i :| 0 <= i < |r| && r[i] == x;
          assert if i < p then r'[i] == x else r'[i + 1] == x;
        }
        assert r'[p] == k;
      }
      r := r';
      rest := rest - {k};
    }
  }

  // ---------------------------------------------------------------- the limiter object

  function LowerChar(c: char): char {
    if 'A' <= c <= 'Z' then c - 'A' + 'a' else c
  }

  function Lower(s: string): (r: string)
    ensures |r| == |s|
    ensures forall i :: 0 <= i < |s| ==> !('A' <= r[i] <= 'Z')
    ensures forall i :: 0 <= i < |s| ==> r[i] == s[i] || ('A' <= s[i] <= 'Z' && r[i] as int == s[i] as int + 32)
  {
    seq(|s|, i requires 0 <= i < |s| => LowerChar(s[i]))
  }

  function CleanKey(s: string): string { Lower(Text.Strip(s)) }

  /** A configured key stands for its lower-case form without the whitespace around. */
  lemma {:induction false} CleanKeyMeans(before: string, core: string, after: string)
    requires Text.Blank(before) && Text.Blank(after) && Text.Bare(core)
    ensures CleanKey(before + core + after) == Lower(core)
  {
    Text.StripMeans(before, core, after);
  }

  /** `host` is the domain itself or a dotted subdomain of it. */
  predicate Governs(key: string, host: string) {
    host == key || (|host| > |key| && host[|host| - |key| - 1..] == "." + key)
  }

  /** The host is the domain, or some labels and a dot before it. */
  ghost predicate IsUnder(host: string, domain: string) {
    host == domain || exists labels: string :: host == labels + "." + domain
  }

  lemma {:induction false} GovernsIsUnder(key: string, host: string)
    ensures Governs(key, host) <==> IsUnder(host, key)
  {
    if Governs(key, host) && host != key {
      var labels := host[..|host| - |key| - 1];
      assert host == labels + host[|host| - |key| - 1..] == labels + ("." + key);
      assert labels + ("." + key) == labels + "." + key;
    }
    if labels: string :| host == labels + "." + key {
      assert host[|labels|..] == "." + key;
    }
  }

  /** A dot before the domain is needed, so no other domain's name ending like it is one of its hosts. */
  lemma {:induction false} SuffixIsNotUnder(domain: string, prefix: string)
    requires prefix != "" && prefix[|prefix| - 1] != '.'
    ensures !IsUnder(prefix + domain, domain)
  {
    if labels: string :| prefix + domain == labels + "." + domain { DotBefore(labels, prefix, domain); }
  }

  lemma {:induction false} DotBefore(labels: string, prefix: string, domain: string)
    requires prefix != "" && prefix + domain == labels + "." + domain
    ensures prefix[|prefix| - 1] == '.'
  {
    assert (prefix + domain)[|prefix| - 1] == prefix[|prefix| - 1];
    assert (labels + "." + domain)[|labels|] == '.';
  }

  /** At most one key of each length governs a host, so "longest wins" never has a tie. */
  lemma {:induction false} GoverningKeyUnique(a: string, b: string, host: string)
    requires Governs(a, host) && Governs(b, host) && |a| == |b|
    ensures a == b
  {
    assert a == host[|host| - |a|..] by {
      if host != a { assert host[|host| - |a| - 1..][1..] == host[|host| - |a|..]; }
    }
    assert b == host[|host| - |b|..] by {
      if host != b { assert host[|host| - |b| - 1..][1..] == host[|host| - |b|..]; }
    }
  }

  /** The answer `_key_for` must give: the longest configured domain the host is under. */
  ghost predicate IsGoverningKey(limits: map<string, nat>, host: string, best: Option<string>) {
    match best
    case None => forall k :: k in limits ==> !IsUnder(host, k)
    case Some(b) => b in limits && IsUnder(host, b) && forall k :: k in limits && IsUnder(host, k) ==> |k| <= |b|
  }

  lemma {:induction false} GoverningKeyDetermined(limits: map<string, nat>, host: string, x: Option<string>, y: Option<string>)
    requires IsGoverningKey(limits, host, x) && IsGoverningKey(limits, host, y)
    ensures x == y
  {
    if x.Some? && y.Some? {
      GovernsIsUnder(x.value, host);
      GovernsIsUnder(y.value, host);
      GoverningKeyUnique(x.value, y.value, host);
    }
  }

  /** The limited domain with the longest name among those the host is under, if there is one. */
  lemma {:induction false} SomeKeyGoverns(limits: map<string, nat>, host: string)
    ensures exists best :: IsGoverningKey(limits, host, best)
  {
    var best := LongestOf(limits, limits.Keys, host);
    assert IsGoverningKey(limits, host, best);
  }

  lemma {:induction false} LongestOf(limits: map<string, nat>, keys: set<string>, host: string) returns (best: Option<string>)
    requires keys <= limits.Keys
    ensures best.None? ==> forall k :: k in keys ==> !IsUnder(host, k)
    ensures best.Some? ==> best.value in keys && IsUnder(host, best.value) && forall k :: k in keys && IsUnder(host, k) ==> |k| <= |best.value|
  {
    best := None;
    if keys != {} {
      var k :| k in keys;
      best := LongestOf(limits, keys - {k}, host);
      if IsUnder(host, k) && (best.None? || |k| > |best.value|) { best := Some(k); }
    }
  }

  /** For every domain the host is under, `keys` holds one at least as long that it is under too. */
  ghost predicate Answers(keys: seq<string>, limits: map<string, nat>, host: string) {
    forall k :: k in limits && IsUnder(host, k) ==> exists key :: key in keys && |key| >= |k| && IsUnder(host, key)
  }

  lemma {:induction false} KeyIs(limits: map<string, nat>, host: string, key: Option<string>)
    requires IsGoverningKey(limits, host, key)
    ensures forall k :: IsGoverningKey(limits, host, Some(k)) <==> key == Some(k)
  {
    forall k | IsGoverningKey(limits, host, Some(k)) ensures key == Some(k) { GoverningKeyDetermined(limits, host, key, Some(k)); }
  }

  /** One entry of the configuration mapping; `None` is a value `int()` rejects. */
  datatype Entry = Entry(key: string, cap: Option<int>)

  /** The caps the entries `es` leave configured: the last positive cap given for a cleaned key. */
  function Caps(es: seq<Entry>): map<string, nat> {
    if es == [] then map[]
    else
      var e := es[|es| - 1];
      var rest := Caps(es[..|es| - 1]);
      if e.cap.Some? && e.cap.value > 0 then rest[CleanKey(e.key) := e.cap.value] else rest
  }

  /** The entry gives the domain a cap. */
  predicate Gives(e: Entry, k: string) { CleanKey(e.key) == k && e.cap.Some? && e.cap.value > 0 }

  /** It is the last to do so. */
  ghost predicate GivesLast(es: seq<Entry>, k: string, i: nat) {
    i < |es| && Gives(es[i], k) && forall j :: i < j < |es| ==> !Gives(es[j], k)
  }

  lemma {:induction false} CapsMeaning(es: seq<Entry>, k: string)
    ensures k in Caps(es) <==> exists i :: 0 <= i < |es| && Gives(es[i], k)
    ensures k in Caps(es) ==> exists i: nat :: GivesLast(es, k, i) && es[i].cap == Some(Caps(es)[k])
  {
    if es != [] {
      var n := |es| - 1;
      CapsMeaning(es[..n], k);
      if Gives(es[n], k) {
        assert GivesLast(es, k, n);
      } else if k in Caps(es) {
        var i: nat :| GivesLast(es[..n], k, i) && es[..n][i].cap == Some(Caps(es)[k]);
        LastStays(es, k, i);
      }
    }
  }

  lemma {:induction false} LastStays(es: seq<Entry>, k: string, i: nat)
    requires es != [] && GivesLast(es[..|es| - 1], k, i) && !Gives(es[|es| - 1], k)
    ensures GivesLast(es, k, i) && es[i] == es[..|es| - 1][i]
  {
    forall j | i < j < |es| ensures !Gives(es[j], k) {
      if j < |es| - 1 { assert es[j] == es[..|es| - 1][j]; }
    }
  }

  class BoundedSemaphore {
    const cap: nat
    var free: nat

    constructor (cap: nat)
      ensures this.cap == cap && free == cap
    {
      this.cap := cap;
      free := cap;
    }
  }

  class HostRateLimiter {
    var limits: map<string, nat>
    var sems: map<string, BoundedSemaphore>

    /** Every cached semaphore belongs to a configured domain, carries its cap, and is not shared. */
    ghost predicate Valid()
      reads this
    {
      && sems.Keys <= limits.Keys
      && (forall k :: k in limits ==> limits[k] > 0)
      && (forall k :: k in sems ==> sems[k].cap == limits[k])
      && (forall j, k :: j in sems && k in sems && j != k ==> sems[j] != sems[k])
    }

    constructor ()
      ensures Valid() && limits == map[] && sems == map[]
    {
      limits := map[];
      sems := map[];
    }

    method Configure(entries: seq<Entry>)
      modifies this
      ensures Valid()
      ensures limits == Caps(entries) && sems == map[]
    {
      var cleaned: map<string, nat> := map[];
      for i := 0 to |entries|
        invariant cleaned == Caps(entries[..i])
        invariant forall k :: k in cleaned ==> cleaned[k] > 0
      {
        assert entries[..i + 1][..i] == entries[..i];
        var e := entries[i];
        if e.cap.Some? && e.cap.value > 0 {
          cleaned := cleaned[CleanKey(e.key) := e.cap.value];
        }
      }
      assert entries[..|entries|] == entries;
      limits := cleaned;
      sems := map[];
    }

    /** Iteration order is arbitrary, yet the answer is determined (GoverningKeyDetermined). */
    method KeyFor(host: string) returns (best: Option<string>)
      ensures IsGoverningKey(limits, Lower(host), best)
      ensures forall labels: string, k: string :: k in limits && Lower(host) == labels + "." + k ==> best.Some? && |best.value| >= |k|
      ensures best.Some? ==> best.value in limits && (Lower(host) == best.value || exists labels: string :: Lower(host) == labels + "." + best.value)
      ensures Lower(host) in limits ==> best == Some(Lower(host))
    {
      var h := Lower(host);
      best := None;
      var rest := limits.Keys;
      while rest != {}
        invariant rest <= limits.Keys
        invariant best.Some? ==> best.value in limits && Governs(best.value, h)
        invariant forall k :: k in limits && k !in rest && Governs(k, h) ==> best.Some? && |k| <= |best.value|
        decreases rest
      {
        var key :| key in rest;
        rest := rest - {key};
        if Governs(key, h) {
          if best.None? || |key| > |best.value| {
            best := Some(key);
          }
        }
      }
      forall k ensures Governs(k, h) <==> IsUnder(h, k) { GovernsIsUnder(k, h); }
      forall labels: string, k: string | k in limits && h == labels + "." + k ensures best.Some? && |best.value| >= |k| {
        assert IsUnder(h, k);
      }
      if h in limits { GoverningKeyDetermined(limits, h, best, Some(h)); }
    }

    /** Two callers asking for the same domain share one semaphore. */
    method SemForKey(key: string) returns (sem: BoundedSemaphore)
      requires Valid() && key in limits
      modifies this`sems
      ensures Valid()
      ensures key in sems && sems[key] == sem
      ensures key in old(sems) ==> sems == old(sems)
      ensures key !in old(sems) ==> fresh(sem) && sem.free == limits[key] && sems == old(sems)[key := sem]
    {
      if key in sems {
        sem := sems[key];
      } else {
        sem := new BoundedSemaphore(limits[key]);
        sems := sems[key := sem];
      }
    }

    /** The keys a block asks for: exactly the domains governing its hosts, ascending, once each. */
    method SlotKeys(hosts: seq<string>) returns (keys: seq<string>)
      requires Valid()
      ensures Ascending(keys)
      ensures forall k :: k in keys <==> exists i :: 0 <= i < |hosts| && IsGoverningKey(limits, Lower(hosts[i]), Some(k))
      ensures forall k :: k in keys ==> k in limits
      ensures forall i :: 0 <= i < |hosts| ==> Answers(keys, limits, Lower(hosts[i]))
    {
      var found: set<string> := {};
      for i := 0 to |hosts|
        invariant forall k :: k in found <==> exists j :: 0 <= j < i && IsGoverningKey(limits, Lower(hosts[j]), Some(k))
      {
        var key := KeyFor(hosts[i]);
        KeyIs(limits, Lower(hosts[i]), key);
        found := if key.Some? then found + {key.value} else found;
      }
      keys := Sorted(found);
      forall i | 0 <= i < |hosts| ensures Answers(keys, limits, Lower(hosts[i])) {
        SomeKeyGoverns(limits, Lower(hosts[i]));
      }
    }
  }

  // ---------------------------------------------------------------- one thread

  /** One `with limiter.slots(...)` block: its keys in acquisition order, and whether it polls a stop predicate. */
  datatype Block = Block(keys: seq<string>, stoppable: bool)

  datatype Phase = Idle | Acquiring | Body | Releasing | RollingBack

  /** A thread runs a list of blocks one after the other; `held` lists its permits in acquisition order. */
  datatype Thread = Thread(todo: seq<Block>, block: Block, phase: Phase, held: seq<string>)
  {
    predicate Waiting() { phase == Acquiring && |held| < |block.keys| }

    function Wanted(): string
      requires Waiting()
    { block.keys[|held|] }

    predicate Finished() { phase == Idle && todo == [] }
  }

  datatype Event =
    | Start               // the thread reaches its next block
    | Granted             // `acquire` returned True
    | TimedOut(stop: bool) // `acquire(timeout)` returned False and `stop()` answered
    | Entered             // every key is held; the body begins
    | Left                // the body ends, normally or by an exception
    | Released            // one permit is given back, last acquired first
    | Done                // nothing held any more

  predicate LocalEnabled(t: Thread, e: Event) {
    match e
    case Start => t.phase == Idle && t.todo != []
    case Granted => t.Waiting()
    case TimedOut(_) => t.Waiting() && t.block.stoppable
    case Entered => t.phase == Acquiring && |t.held| == |t.block.keys|
    case Left => t.phase == Body
    case Released => (t.phase == Releasing || t.phase == RollingBack) && t.held != []
    case Done => (t.phase == Releasing || t.phase == RollingBack) && t.held == []
  }

  function LocalStep(t: Thread, e: Event): Thread
    requires LocalEnabled(t, e)
  {
    match e
    case Start => t.(todo := t.todo[1..], block := t.todo[0], phase := Acquiring, held := [])
    case Granted => t.(held := t.held + [t.Wanted()])
    case TimedOut(stop) => if stop then t.(phase := RollingBack) else t
    case Entered => t.(phase := Body)
    case Left => t.(phase := Releasing)
    case Released => t.(held := t.held[..|t.held| - 1])
    case Done => t.(phase := Idle)
  }

  /** `u` is where thread `t` stands after performing the events of `trace`. */
  ghost predicate LocalRun(t: Thread, trace: seq<Event>, u: Thread)
    decreases |trace|
  {
    if trace == [] then t == u
    else
      var n := |trace| - 1;
      exists m :: LocalRun(t, trace[..n], m) && LocalEnabled(m, trace[n]) && LocalStep(m, trace[n]) == u
  }

  lemma {:induction false} LocalRunSnoc(t: Thread, trace: seq<Event>, m: Thread, e: Event)
    requires LocalRun(t, trace, m) && LocalEnabled(m, e)
    ensures LocalRun(t, trace + [e], LocalStep(m, e))
  {
    assert (trace + [e])[..|trace|] == trace;
  }

  /** How one `acquire` call of the environment went. */
  datatype Poll = Success | Timeout(stop: bool)

  /** How many of the first `n` acquires succeed. */
  function Successes(polls: seq<Poll>, n: nat): nat
    requires n <= |polls|
  {
    if n == 0 then 0 else Successes(polls, n - 1) + if polls[n - 1].Success? then 1 else 0
  }

  lemma {:induction false} SuccessesGrow(polls: seq<Poll>, m: nat, n: nat)
    requires m <= n <= |polls|
    ensures Successes(polls, m) <= Successes(polls, n)
  {
    if m < n { SuccessesGrow(polls, m, n - 1); }
  }

  /** The stop predicate fires at poll `k`, while the block still waits for a key. */
  predicate StopsAt(block: Block, polls: seq<Poll>, k: nat) {
    k < |polls| && block.stoppable && polls[k] == Timeout(true) && Successes(polls, k) < |block.keys|
  }

  /** The stop has not fired in the first `n` polls. */
  predicate QuietTo(block: Block, polls: seq<Poll>, n: nat) { forall k :: 0 <= k < n ==> !StopsAt(block, polls, k) }

  lemma {:induction false} QuietAfter(block: Block, polls: seq<Poll>, n: nat)
    requires n <= |polls| && QuietTo(block, polls, n) && Successes(polls, n) >= |block.keys|
    ensures Successes(polls, |polls|) >= |block.keys| && forall k :: !StopsAt(block, polls, k)
  {
    SuccessesGrow(polls, n, |polls|);
    forall k | n <= k < |polls| ensures !StopsAt(block, polls, k) { SuccessesGrow(polls, n, k); }
  }

  datatype EnterResult = EnteredBody | StopRequested | StillWaiting

  /** The context manager of one block. The other threads act through `polls`: the outcome of each
      successive `acquire` call made by this one. */
  class Slots {
    const block: Block
    var acquired: seq<string>
    ghost var thread: Thread
    ghost var trace: seq<Event>
    ghost const origin: Thread

    ghost predicate Valid()
      reads this
    {
      && thread.block == block && thread.held == acquired
      && LocalRun(origin, trace, thread)
    }

    constructor (block: Block, ghost todo: seq<Block>)
      ensures Valid() && this.block == block && acquired == [] && trace == []
      ensures thread == origin == Thread(todo, block, Acquiring, [])
    {
      this.block := block;
      acquired := [];
      origin := Thread(todo, block, Acquiring, []);
      thread := Thread(todo, block, Acquiring, []);
      trace := [];
    }

    /** Ghost bookkeeping: the thread performed `e`. */
    ghost method Note(e: Event)
      requires LocalRun(origin, trace, thread) && LocalEnabled(thread, e)
      modifies this`thread, this`trace
      ensures LocalRun(origin, trace, thread)
      ensures thread == LocalStep(old(thread), e) && trace == old(trace) + [e]
    {
      LocalRunSnoc(origin, trace, thread, e);
      trace := trace + [e];
      thread := LocalStep(thread, e);
    }

    /** `__enter__`. The polls decide: if the stop predicate fires while a key is still missing, every
        permit taken so far goes back, last first, and nothing is held; else every key is held, in order,
        once there were as many successes as keys; else the first keys are held and the next awaited. */
    method Enter(polls: seq<Poll>) returns (r: EnterResult)
      requires Valid() && thread == origin && thread.phase == Acquiring && acquired == []
      modifies this
      ensures Valid() && thread.todo == old(thread).todo
      ensures r == StopRequested <==> exists k :: StopsAt(block, polls, k)
      ensures r == EnteredBody <==> (forall k :: !StopsAt(block, polls, k)) && Successes(polls, |polls|) >= |block.keys|
      ensures r == EnteredBody ==> acquired == block.keys && thread.phase == Body
      ensures r == StopRequested ==> acquired == [] && thread.phase == Idle
      ensures r == StillWaiting ==> thread.Waiting() && |acquired| == Successes(polls, |polls|) && acquired == block.keys[..|acquired|]
    {
      acquired := [];
      var next := 0;
      for i := 0 to |block.keys|
        invariant Valid() && thread.phase == Acquiring && thread.todo == old(thread).todo
        invariant acquired == block.keys[..i]
        invariant next <= |polls| && Successes(polls, next) == i
        invariant QuietTo(block, polls, next)
      {
        var waiting := true;
        while waiting
          invariant Valid() && thread.phase == Acquiring && thread.todo == old(thread).todo
          invariant acquired == block.keys[..i]
          invariant next <= |polls| && Successes(polls, next) == i + if waiting then 0 else 1
          invariant QuietTo(block, polls, next)
          decreases |polls| - next, waiting
        {
          if next == |polls| { return StillWaiting; }
          var poll := polls[next];
          next := next + 1;
          if poll.Success? {
            waiting := false;
          } else if block.stoppable {
            Note(TimedOut(poll.stop));
            if poll.stop {
              ReleaseAll();
              assert StopsAt(block, polls, next - 1);
              return StopRequested;
            }
          }
        }
        Note(Granted);
        acquired := acquired + [block.keys[i]];
      }
      Note(Entered);
      QuietAfter(block, polls, next);
      return EnteredBody;
    }

    /** `__exit__`. */
    method Exit()
      requires Valid() && thread.phase == Body
      modifies this
      ensures Valid() && acquired == [] && thread.phase == Idle && thread.todo == old(thread).todo
    {
      Note(Left);
      ReleaseAll();
    }

    method ReleaseAll()
      requires Valid() && (thread.phase == Releasing || thread.phase == RollingBack)
      modifies this
      ensures Valid() && acquired == [] && thread.phase == Idle && thread.todo == old(thread).todo
    {
      while acquired != []
        invariant Valid() && (thread.phase == Releasing || thread.phase == RollingBack)
        invariant thread.todo == old(thread).todo
        decreases |acquired|
      {
        Note(Released);
        acquired := acquired[..|acquired| - 1];
      }
      Note(Done);
    }
  }

  // ---------------------------------------------------------------- all threads together

  datatype State = State(cap: map<string, nat>, free: map<string, nat>, threads: seq<Thread>)

  predicate Enabled(s: State, i: nat, e: Event) {
    && i < |s.threads|
    && LocalEnabled(s.threads[i], e)
    && (e == Granted ==> s.threads[i].Wanted() in s.free && s.free[s.threads[i].Wanted()] > 0)
    && (e == Released ==> s.threads[i].held[|s.threads[i].held| - 1] in s.free)
  }

  function Step(s: State, i: nat, e: Event): State
    requires Enabled(s, i, e)
  {
    var t := s.threads[i];
    var free :=
      match e
      case Granted => s.free[t.Wanted() := s.free[t.Wanted()] - 1]
      case Released => s.free[t.held[|t.held| - 1] := s.free[t.held[|t.held| - 1]] + 1]
      case _ => s.free;
    State(s.cap, free, s.threads[i := LocalStep(t, e)])
  }

  ghost function Holders(s: State, k: string): set<nat> {
    set i: nat | i < |s.threads| && k in s.threads[i].held
  }

  ghost predicate GoodBlock(b: Block, keys: set<string>) {
    Ascending(b.keys) && forall k :: k in b.keys ==> k in keys
  }

  ghost predicate GoodThread(t: Thread, keys: set<string>) {
    && (forall b :: b in t.todo ==> GoodBlock(b, keys))
    && GoodBlock(t.block, keys)
    && t.held <= t.block.keys
    && (t.phase == Idle ==> t.held == [])
    && (t.phase == Body ==> t.held == t.block.keys)
  }

  /** Every permit is either available or held by exactly one thread. */
  ghost predicate Conserved(s: State) {
    s.free.Keys == s.cap.Keys && forall k :: k in s.cap ==> s.free[k] + |Holders(s, k)| == s.cap[k]
  }

  ghost predicate Inv(s: State) {
    && Conserved(s)
    && (forall k :: k in s.cap ==> s.cap[k] >= 1)
    && (forall i :: 0 <= i < |s.threads| ==> GoodThread(s.threads[i], s.cap.Keys))
  }

  ghost predicate Initial(s: State) {
    && s.free == s.cap
    && (forall k :: k in s.cap ==> s.cap[k] >= 1)
    && (forall i :: 0 <= i < |s.threads| ==>
          GoodThread(s.threads[i], s.cap.Keys) && s.threads[i].phase == Idle)
  }

  lemma {:induction false} InitialInv(s: State)
    requires Initial(s)
    ensures Inv(s)
  {
    forall k | k in s.cap ensures Holders(s, k) == {} {}
  }

  lemma {:induction false} AscendingDistinct(keys: seq<string>, i: nat, j: nat)
    requires Ascending(keys) && i < |keys| && j < |keys| && keys[i] == keys[j]
    ensures i == j
  {
    LessIrreflexive(keys[i]);
  }

  lemma {:induction false} LocalStepGood(t: Thread, e: Event, keys: set<string>)
    requires GoodThread(t, keys) && LocalEnabled(t, e)
    ensures GoodThread(LocalStep(t, e), keys)
  {
    var u := LocalStep(t, e);
    match e {
      case Start => forall b | b in u.todo ensures GoodBlock(b, keys) {}
      case Granted => assert t.block.keys[..|t.held| + 1] == t.held + [t.Wanted()];
      case _ =>
    }
  }

  /** How a step changes the set of holders of each key. */
  lemma {:induction false} HoldersStep(s: State, i: nat, e: Event, k: string)
    requires Enabled(s, i, e) && GoodThread(s.threads[i], s.cap.Keys)
    ensures var t := s.threads[i]; var h, h' := Holders(s, k), Holders(Step(s, i, e), k);
            if e == Granted && k == t.Wanted() then i !in h && h' == h + {i}
            else if e == Released && k == t.held[|t.held| - 1] then i in h && h' == h - {i}
            else h' == h
  {
    var t := s.threads[i];
    var u := LocalStep(t, e);
    match e {
      case Granted =>
        if t.Wanted() in t.held {
          var j :| 0 <= j < |t.held| && t.held[j] == t.Wanted();
          AscendingDistinct(t.block.keys, j, |t.held|);
        }
      case Released =>
        var n := |t.held| - 1;
        if t.held[n] in u.held {
          var j :| 0 <= j < n && t.held[j] == t.held[n];
          AscendingDistinct(t.block.keys, j, n);
        }
        assert t.held == u.held + [t.held[n]];
      case _ =>
        assert u.held == t.held;
    }
  }

  lemma {:induction false} HoldersCount(s: State, i: nat, e: Event, k: string)
    requires Enabled(s, i, e) && GoodThread(s.threads[i], s.cap.Keys)
    ensures var t := s.threads[i]; var n, n' := |Holders(s, k)|, |Holders(Step(s, i, e), k)|;
            if e == Granted && k == t.Wanted() then n' == n + 1
            else if e == Released && k == t.held[|t.held| - 1] then n' == n - 1
            else n' == n
  {
    HoldersStep(s, i, e, k);
  }

  lemma {:induction false} StepConserves(s: State, i: nat, e: Event)
    requires Inv(s) && Enabled(s, i, e)
    ensures Conserved(Step(s, i, e))
  {
    var s' := Step(s, i, e);
    assert GoodThread(s.threads[i], s.cap.Keys);
    assert s'.free.Keys == s.cap.Keys;
    forall k | k in s.cap ensures s'.free[k] + |Holders(s', k)| == s'.cap[k] {
      HoldersCount(s, i, e, k);
    }
  }

  /** Permit conservation is kept by every step of every thread. */
  lemma {:induction false} StepInv(s: State, i: nat, e: Event)
    requires Inv(s) && Enabled(s, i, e)
    ensures Inv(Step(s, i, e))
  {
    var s' := Step(s, i, e);
    StepConserves(s, i, e);
    forall j | 0 <= j < |s'.threads| ensures GoodThread(s'.threads[j], s'.cap.Keys) {
      if j == i { LocalStepGood(s.threads[i], e, s.cap.Keys); } else { assert s'.threads[j] == s.threads[j]; }
    }
  }

  datatype Move = Move(thread: nat, event: Event)

  /** `s'` is reached from `s` by the interleaving `moves`. */
  ghost predicate Run(s: State, moves: seq<Move>, s': State)
    decreases |moves|
  {
    if moves == [] then s == s'
    else Enabled(s, moves[0].thread, moves[0].event) && Run(Step(s, moves[0].thread, moves[0].event), moves[1..], s')
  }

  lemma {:induction false} RunInv(s: State, moves: seq<Move>, s': State)
    requires Inv(s) && Run(s, moves, s')
    ensures Inv(s') && s'.cap == s.cap && |s'.threads| == |s.threads|
    decreases |moves|
  {
    if moves != [] {
      StepInv(s, moves[0].thread, moves[0].event);
      RunInv(Step(s, moves[0].thread, moves[0].event), moves[1..], s');
    }
  }

  /** Main safety result: in every reachable state permits are conserved, no key is held by more
      threads than its cap, and a thread outside its blocks (left or stopped) holds nothing. */
  lemma {:induction false} Safety(s: State, moves: seq<Move>, s': State)
    requires Initial(s) && Run(s, moves, s')
    ensures forall k :: k in s.cap ==> k in s'.free && s'.free[k] + |Holders(s', k)| == s.cap[k]
    ensures forall k :: k in s.cap ==> |Holders(s', k)| <= s.cap[k]
    ensures forall i :: 0 <= i < |s'.threads| && s'.threads[i].phase == Idle ==> s'.threads[i].held == []
    ensures (forall i :: 0 <= i < |s'.threads| ==> s'.threads[i].phase == Idle) ==> s'.free == s.cap
  {
    InitialInv(s);
    RunInv(s, moves, s');
    if forall i :: 0 <= i < |s'.threads| ==> s'.threads[i].phase == Idle {
      forall k | k in s.cap ensures s'.free[k] == s.cap[k] {
        assert Holders(s', k) == {};
      }
    }
  }

  // ---------------------------------------------------------------- deadlock freedom

  /** The configured keys above `k`: what a chain of waiting threads can still climb to. */
  ghost function Above(s: State, k: string): set<string> {
    set j | j in s.cap && Less(k, j)
  }

  /** An unfinished thread that is not waiting on an exhausted key has a step of its own. */
  function OwnMove(s: State, i: nat): (e: Event)
    requires i < |s.threads| && !s.threads[i].Finished()
    requires GoodThread(s.threads[i], s.cap.Keys) && s.free.Keys == s.cap.Keys
    requires s.threads[i].Waiting() ==> s.free[s.threads[i].Wanted()] > 0
    ensures Enabled(s, i, e) && !e.TimedOut?
  {
    var t := s.threads[i];
    match t.phase
    case Idle => Start
    case Acquiring => if t.Waiting() then Granted else Entered
    case Body => Left
    case _ => if t.held != [] then Released else Done
  }

  /** Climb from a blocked thread to a holder of the key it waits for; that holder waits, if at all,
      for a larger key, so the climb ends at a thread that can move. */
  lemma {:induction false} FindMover(s: State, i: nat) returns (j: nat, e: Event)
    requires Inv(s) && i < |s.threads| && !s.threads[i].Finished()
    ensures Enabled(s, j, e) && !e.TimedOut?
    decreases if s.threads[i].Waiting() then Above(s, s.threads[i].Wanted()) else {}, s.threads[i].Waiting()
  {
    var t := s.threads[i];
    if t.Waiting() && s.free[t.Wanted()] == 0 {
      var k := t.Wanted();
      assert |Holders(s, k)| >= 1;
      var h :| h in Holders(s, k);
      var u := s.threads[h];
      if u.Waiting() {
        var p :| 0 <= p < |u.held| && u.held[p] == k;
        assert u.block.keys[p] == k && Less(k, u.Wanted());
        LessIrreflexive(u.Wanted());
        forall x | x in Above(s, u.Wanted()) ensures x in Above(s, k) { LessTransitive(k, u.Wanted(), x); }
        assert u.Wanted() in Above(s, k) - Above(s, u.Wanted());
      } else if u.phase != Acquiring {
        j, e := h, OwnMove(s, h);
        return;
      }
      j, e := FindMover(s, h);
    } else {
      j, e := i, OwnMove(s, i);
    }
  }

  /** Deadlock freedom: while any thread is unfinished, some thread has a step that is not a mere
      poll timeout. */
  lemma {:induction false} NoDeadlock(s: State, moves: seq<Move>, s': State)
    requires Initial(s) && Run(s, moves, s')
    requires exists i :: 0 <= i < |s'.threads| && !s'.threads[i].Finished()
    ensures exists j, e :: Enabled(s', j, e) && !e.TimedOut?
  {
    InitialInv(s);
    RunInv(s, moves, s');
    var i: nat :| i < |s'.threads| && !s'.threads[i].Finished();
    var j, e := FindMover(s', i);
  }

  // ---------------------------------------------------------------- termination of runs

  function BlockWork(b: Block): nat { 2 * |b.keys| + 4 }

  function TodoWork(todo: seq<Block>): nat {
    if todo == [] then 0 else BlockWork(todo[0]) + TodoWork(todo[1..])
  }

  /** Steps a thread can still take, poll timeouts that do not stop it aside. */
  function Work(t: Thread): nat {
    TodoWork(t.todo) +
    match t.phase
    case Idle => 0
    case Acquiring => (if |t.held| <= |t.block.keys| then |t.block.keys| - |t.held| else 0) + |t.block.keys| + 3
    case Body => |t.held| + 2
    case _ => |t.held| + 1
  }

  function TotalWork(ts: seq<Thread>): nat {
    if ts == [] then 0 else TotalWork(ts[..|ts| - 1]) + Work(ts[|ts| - 1])
  }

  lemma {:induction false} TotalWorkUpdate(ts: seq<Thread>, i: nat, t: Thread)
    requires i < |ts|
    ensures TotalWork(ts[i := t]) + Work(ts[i]) == TotalWork(ts) + Work(t)
  {
    var n := |ts| - 1;
    if i == n {
      assert ts[i := t][..n] == ts[..n];
    } else {
      TotalWorkUpdate(ts[..n], i, t);
      assert ts[i := t][..n] == ts[..n][i := t];
    }
  }

  predicate Productive(e: Event) { e != TimedOut(false) }

  lemma {:induction false} StepWork(s: State, i: nat, e: Event)
    requires Inv(s) && Enabled(s, i, e)
    ensures if Productive(e) then TotalWork(Step(s, i, e).threads) < TotalWork(s.threads)
            else Step(s, i, e) == s
  {
    TotalWorkUpdate(s.threads, i, LocalStep(s.threads[i], e));
    assert GoodThread(s.threads[i], s.cap.Keys);
  }

  function Productives(moves: seq<Move>): nat {
    if moves == [] then 0 else (if Productive(moves[0].event) then 1 else 0) + Productives(moves[1..])
  }

  /** No run, however scheduled, has more productive steps than the work its threads started with. */
  lemma {:induction false} RunsAreBounded(s: State, moves: seq<Move>, s': State)
    requires Inv(s) && Run(s, moves, s')
    ensures Productives(moves) + TotalWork(s'.threads) <= TotalWork(s.threads)
    decreases |moves|
  {
    if moves != [] {
      StepInv(s, moves[0].thread, moves[0].event);
      StepWork(s, moves[0].thread, moves[0].event);
      RunsAreBounded(Step(s, moves[0].thread, moves[0].event), moves[1..], s');
    }
  }

  /** From every reachable state the threads can be driven to completion without firing any stop
      predicate, and then every permit is back. */
  lemma {:induction false} CanFinish(s: State) returns (moves: seq<Move>, s': State)
    requires Inv(s)
    ensures Run(s, moves, s') && forall m :: m in moves ==> !m.event.TimedOut?
    ensures forall i :: 0 <= i < |s'.threads| ==> s'.threads[i].Finished()
    ensures s'.free == s.cap
    decreases TotalWork(s.threads)
  {
    if i: nat :| i < |s.threads| && !s.threads[i].Finished() {
      var j, e := FindMover(s, i);
      StepInv(s, j, e);
      StepWork(s, j, e);
      var rest;
      rest, s' := CanFinish(Step(s, j, e));
      moves := [Move(j, e)] + rest;
      assert moves[1..] == rest;
    } else {
      moves, s' := [], s;
      forall k | k in s.cap ensures s.free[k] == s.cap[k] {
        assert Holders(s, k) == {};
      }
    }
  }

  // ---------------------------------------------------------------- why the keys are sorted and deduplicated

  function Fresh(keys: seq<string>): Thread { Thread([Block(keys, false)], Block([], false), Idle, []) }

  function Holding(keys: seq<string>, n: nat): Thread
    requires n <= |keys|
  { Thread([], Block(keys, false), Acquiring, keys[..n]) }

  /** Two threads that take the same two domains in opposite orders can block each other for good. */
  lemma {:induction false} UnsortedDeadlocks(a: string, b: string)
    requires a != b
    ensures var caps := map[a := 1, b := 1];
            exists moves, s': State ::
              && Run(State(caps, caps, [Fresh([a, b]), Fresh([b, a])]), moves, s')
              && |s'.threads| == 2 && !s'.threads[0].Finished() && !s'.threads[1].Finished()
              && forall i, e :: !Enabled(s', i, e)
  {
    var caps := map[a := 1, b := 1];
    var s := State(caps, caps, [Fresh([a, b]), Fresh([b, a])]);
    var s1 := State(caps, caps, [Holding([a, b], 0), Fresh([b, a])]);
    var s2 := State(caps, caps, [Holding([a, b], 0), Holding([b, a], 0)]);
    var s4 := CrossGrants(a, b);
    assert Step(s1, 1, Start) == s2 by { assert Fresh([b, a]).todo[1..] == []; }
    RunCons(s1, Move(1, Start), [Move(0, Granted), Move(1, Granted)], s4);
    assert Step(s, 0, Start) == s1 by { assert Fresh([a, b]).todo[1..] == []; }
    RunCons(s, Move(0, Start), [Move(1, Start), Move(0, Granted), Move(1, Granted)], s4);
    CrossWaitIsDead(s4, Holding([a, b], 1), Holding([b, a], 1));
  }

  /** Both have started; each takes its first domain. */
  lemma {:induction false} CrossGrants(a: string, b: string) returns (s': State)
    requires a != b
    ensures var caps := map[a := 1, b := 1];
            Run(State(caps, caps, [Holding([a, b], 0), Holding([b, a], 0)]), [Move(0, Granted), Move(1, Granted)], s')
    ensures s'.threads == [Holding([a, b], 1), Holding([b, a], 1)]
    ensures a in s'.free && b in s'.free && s'.free[a] == s'.free[b] == 0
  {
    var caps := map[a := 1, b := 1];
    var s2 := State(caps, caps, [Holding([a, b], 0), Holding([b, a], 0)]);
    var s3 := State(caps, caps[a := 0], [Holding([a, b], 1), Holding([b, a], 0)]);
    s' := State(caps, caps[a := 0][b := 0], [Holding([a, b], 1), Holding([b, a], 1)]);
    assert Step(s3, 1, Granted) == s' by { assert [b, a][..0] + [b] == [b, a][..1]; }
    RunCons(s3, Move(1, Granted), [], s');
    assert Step(s2, 0, Granted) == s3 by { assert [a, b][..0] + [a] == [a, b][..1]; }
    RunCons(s2, Move(0, Granted), [Move(1, Granted)], s');
  }

  lemma {:induction false} RunCons(s: State, m: Move, rest: seq<Move>, s': State)
    requires Enabled(s, m.thread, m.event) && Run(Step(s, m.thread, m.event), rest, s')
    ensures Run(s, [m] + rest, s')
  {
    assert ([m] + rest)[1..] == rest;
  }

  lemma {:induction false} CrossWaitIsDead(s: State, x: Thread, y: Thread)
    requires s.threads == [x, y] && x.Waiting() && y.Waiting() && !x.block.stoppable && !y.block.stoppable
    requires x.Wanted() in s.free && s.free[x.Wanted()] == 0 && y.Wanted() in s.free && s.free[y.Wanted()] == 0
    ensures forall i, e :: !Enabled(s, i, e)
  {}

  /** A single block that names one domain twice blocks itself when the cap is one. */
  lemma {:induction false} DuplicateDeadlocks(a: string)
    ensures var caps := map[a := 1];
            exists moves, s': State ::
              && Run(State(caps, caps, [Fresh([a, a])]), moves, s')
              && |s'.threads| == 1 && !s'.threads[0].Finished()
              && forall i, e :: !Enabled(s', i, e)
  {
    var caps := map[a := 1];
    var s, x := State(caps, caps, [Fresh([a, a])]), Holding([a, a], 1);
    var s1 := State(caps, caps, [Holding([a, a], 0)]);
    var s2 := State(caps, caps[a := 0], [x]);
    assert Step(s1, 0, Granted) == s2 by { assert [a, a][..0] + [a] == [a, a][..1]; }
    RunCons(s1, Move(0, Granted), [], s2);
    assert Step(s, 0, Start) == s1 by { assert Fresh([a, a]).todo[1..] == []; }
    RunCons(s, Move(0, Start), [Move(0, Granted)], s2);
    assert s2.threads == [x] && x.Waiting() && x.Wanted() == a;
    forall i, e ensures !Enabled(s2, i, e) {
      if i == 0 { assert !Enabled(s2, 0, e); }
    }
  }
}
