/** Cross-source reconciliation of the records of one meeting kept in several stores.
    Field values are compared and copied only, so they stand for themselves as text; an encode time is its
    rank among time stamps, and an absent or empty one is `None`. */
module Reconcile {
  import opened Wrappers

  type Source = string
  type Entity = string
  type Uid = string
  type Text = Option<string>

  /** `rest` is what the pass never writes, such as the repair nonce. */
  datatype Audio = Audio(key: Text, url: Text, specHash: Text, bytes: Text, encodeTime: Option<int>, durationServed: Text,
                         attempts: int, lastAttempt: Text, error: Text, errorSpecHash: Text, rest: string)

  datatype Integrity = Integrity(aggregateSuppressed: bool, rest: string)

  datatype Planning = Planning(sourceChapters: Text, chapters: Text, chaptersBasis: Text, timeline: Text)

  datatype Record = Record(audio: Audio, integrity: Option<Integrity>, planning: Planning, rest: string)

  type Rows = map<Source, map<Uid, Record>>

  datatype Severity = Warn | Error

  datatype Finding = Finding(entity: Entity, uid: Uid, severity: Severity, canonical: Option<Source>)

  /** What does not change during a pass: the sources' entities, and what the live probe said. */
  datatype Setting = Setting(entityOf: map<Source, Option<Entity>>, status: map<(Source, Uid), string>)

  const OK := "ok"

  // ---------------------------------------------------------------- the specification

  /** The six shared audio fields, the integrity and the planning fields. */
  datatype Signature = Signature(key: Text, url: Text, specHash: Text, bytes: Text, encodeTime: Option<int>, durationServed: Text,
                                 integrity: Option<Integrity>, planning: Planning)

  function SignatureOf(r: Record): Signature {
    Signature(r.audio.key, r.audio.url, r.audio.specHash, r.audio.bytes, r.audio.encodeTime, r.audio.durationServed,
              r.integrity, r.planning)
  }

  predicate Suppressed(r: Record) { r.integrity.Some? && r.integrity.value.aggregateSuppressed }

  predicate Has(rows: Rows, s: Source, u: Uid) { s in rows && u in rows[s] }

  predicate InEntity(cfg: Setting, s: Source, e: Entity) { e != "" && s in cfg.entityOf && cfg.entityOf[s] == Some(e) }

  /** Source `s` of entity `e` holds a copy of `u` that counts. */
  predicate Counts(rows: Rows, cfg: Setting, e: Entity, u: Uid, s: Source) {
    InEntity(cfg, s, e) && Has(rows, s, u) && !Suppressed(rows[s][u])
  }

  function Present(rows: Rows, cfg: Setting, e: Entity, u: Uid): (r: set<Source>)
    ensures forall s :: s in r <==> Counts(rows, cfg, e, u, s)
  {
    set s | s in cfg.entityOf && Counts(rows, cfg, e, u, s)
  }

  predicate Agree(rows: Rows, cfg: Setting, e: Entity, u: Uid) {
    forall s, t :: s in Present(rows, cfg, e, u) && t in Present(rows, cfg, e, u) ==>
      SignatureOf(rows[s][u]) == SignatureOf(rows[t][u])
  }

  predicate ProbedOk(cfg: Setting, s: Source, u: Uid) { (s, u) in cfg.status && cfg.status[(s, u)] == OK }

  function OkSources(rows: Rows, cfg: Setting, e: Entity, u: Uid): set<Source> {
    set s | s in Present(rows, cfg, e, u) && ProbedOk(cfg, s, u)
  }

  /** Who can be newest: the sources probed ok, or all when none was. */
  function Candidates(rows: Rows, cfg: Setting, e: Entity, u: Uid): (r: set<Source>)
    ensures forall s :: s in r ==> Counts(rows, cfg, e, u, s)
  {
    if OkSources(rows, cfg, e, u) == {} then Present(rows, cfg, e, u) else OkSources(rows, cfg, e, u)
  }

  function TimeOf(rows: Rows, s: Source, u: Uid): Option<int> {
    if Has(rows, s, u) then rows[s][u].audio.encodeTime else None
  }

  /** `s` has an encode time, and every other candidate with one has an older one. */
  predicate Newest(rows: Rows, candidates: set<Source>, u: Uid, s: Source) {
    && s in candidates && TimeOf(rows, s, u).Some?
    && forall t :: t in candidates && t != s && TimeOf(rows, t, u).Some? ==> TimeOf(rows, t, u).value < TimeOf(rows, s, u).value
  }

  /** The only source probed ok, or else the one newest candidate. */
  predicate IsCanonical(rows: Rows, cfg: Setting, e: Entity, u: Uid, s: Source) {
    if |OkSources(rows, cfg, e, u)| == 1 then s in OkSources(rows, cfg, e, u)
    else Newest(rows, Candidates(rows, cfg, e, u), u, s)
  }

  lemma {:induction false} CanonicalIsUnique(rows: Rows, cfg: Setting, e: Entity, u: Uid, s: Source, t: Source)
    requires IsCanonical(rows, cfg, e, u, s) && IsCanonical(rows, cfg, e, u, t)
    ensures s == t && Counts(rows, cfg, e, u, s)
  {
    var ok := OkSources(rows, cfg, e, u);
    if |ok| == 1 { assert |ok - {s}| == 0; assert t !in ok - {s}; }
  }

  /** The copies of `u` disagree and one of them, `c`, is canonical. */
  predicate Resolved(rows: Rows, cfg: Setting, e: Entity, u: Uid, c: Source) {
    !Agree(rows, cfg, e, u) && IsCanonical(rows, cfg, e, u, c)
  }

  ghost predicate Unresolved(rows: Rows, cfg: Setting, e: Entity, u: Uid) {
    !Agree(rows, cfg, e, u) && forall c :: !IsCanonical(rows, cfg, e, u, c)
  }

  /** A follower's record after it adopts the canonical one's fields; its own backoff is reset. */
  function Follow(r: Record, c: Record): Record {
    r.(audio := r.audio.(key := c.audio.key, url := c.audio.url, specHash := c.audio.specHash, bytes := c.audio.bytes,
                         encodeTime := c.audio.encodeTime, durationServed := c.audio.durationServed,
                         attempts := 0, lastAttempt := None, error := None, errorSpecHash := None),
       integrity := c.integrity, planning := c.planning)
  }

  /** Two copies agree in every field the pass shares between sources. */
  ghost predicate SameFields(x: Record, y: Record) {
    && x.audio.key == y.audio.key && x.audio.url == y.audio.url && x.audio.specHash == y.audio.specHash
    && x.audio.bytes == y.audio.bytes && x.audio.encodeTime == y.audio.encodeTime && x.audio.durationServed == y.audio.durationServed
    && x.integrity == y.integrity
    && x.planning.sourceChapters == y.planning.sourceChapters && x.planning.chapters == y.planning.chapters
    && x.planning.chaptersBasis == y.planning.chaptersBasis && x.planning.timeline == y.planning.timeline
  }

  /** The retry history of a record is blank. */
  ghost predicate Rested(a: Audio) { a.attempts == 0 && a.lastAttempt.None? && a.error.None? && a.errorSpecHash.None? }

  /** `s` of entity `e` holds a copy of `u` that no dedicated feed supersedes. */
  ghost predicate Copy(rows: Rows, cfg: Setting, e: Entity, u: Uid, s: Source) {
    && s in cfg.entityOf && cfg.entityOf[s] == Some(e) && e != ""
    && s in rows && u in rows[s] && (rows[s][u].integrity.Some? ==> !rows[s][u].integrity.value.aggregateSuppressed)
  }

  ghost predicate Differ(rows: Rows, cfg: Setting, e: Entity, u: Uid, s: Source, t: Source) {
    Copy(rows, cfg, e, u, s) && Copy(rows, cfg, e, u, t) && !SameFields(rows[s][u], rows[t][u])
  }

  ghost predicate Diverges(rows: Rows, cfg: Setting, e: Entity, u: Uid) { exists s, t :: Differ(rows, cfg, e, u, s, t) }

  ghost predicate Reported(findings: set<Finding>, e: Entity, u: Uid) { exists f :: f in findings && f.entity == e && f.uid == u }

  /** Disagreement, read off the fields. */
  lemma {:induction false} AgreeMeans(rows: Rows, cfg: Setting, e: Entity, u: Uid)
    ensures Diverges(rows, cfg, e, u) <==> !Agree(rows, cfg, e, u)
  {
    forall s, t
      ensures Differ(rows, cfg, e, u, s, t) <==>
                s in Present(rows, cfg, e, u) && t in Present(rows, cfg, e, u) && SignatureOf(rows[s][u]) != SignatureOf(rows[t][u])
    {
      SignatureMeans(rows, cfg, e, u, s, t);
    }
  }

  lemma {:induction false} SignatureMeans(rows: Rows, cfg: Setting, e: Entity, u: Uid, s: Source, t: Source)
    ensures Differ(rows, cfg, e, u, s, t) <==>
              s in Present(rows, cfg, e, u) && t in Present(rows, cfg, e, u) && SignatureOf(rows[s][u]) != SignatureOf(rows[t][u])
  {
    assert Copy(rows, cfg, e, u, s) <==> s in Present(rows, cfg, e, u);
    assert Copy(rows, cfg, e, u, t) <==> t in Present(rows, cfg, e, u);
  }

  lemma {:induction false} FollowAgrees(r: Record, c: Record)
    ensures SignatureOf(Follow(r, c)) == SignatureOf(c) && SameFields(Follow(r, c), c) && Rested(Follow(r, c).audio)
    ensures Follow(r, c).rest == r.rest && Follow(r, c).audio.rest == r.audio.rest
  {}

  ghost predicate IsOk(cfg: Setting, s: Source, u: Uid) { (s, u) in cfg.status && cfg.status[(s, u)] == "ok" }

  /** `t` is no rival of `s` for being newest: it has no encode time or an older one. */
  ghost predicate Older(rows: Rows, u: Uid, t: Source, s: Source)
    requires Has(rows, s, u) && Has(rows, t, u)
  {
    rows[s][u].audio.encodeTime.Some? &&
    (rows[t][u].audio.encodeTime.Some? ==> rows[t][u].audio.encodeTime.value < rows[s][u].audio.encodeTime.value)
  }

  /** The choice, read off the copies: the one probed ok; or, where several or none were, the one of those
      (or of all) with the latest encode time. */
  ghost predicate Chosen(rows: Rows, cfg: Setting, e: Entity, u: Uid, c: Source) {
    && Copy(rows, cfg, e, u, c)
    && ((IsOk(cfg, c, u) && forall t :: Copy(rows, cfg, e, u, t) && IsOk(cfg, t, u) ==> t == c)
        || (&& rows[c][u].audio.encodeTime.Some?
            && ((exists t :: Copy(rows, cfg, e, u, t) && IsOk(cfg, t, u)) ==> IsOk(cfg, c, u))
            && forall t :: Copy(rows, cfg, e, u, t) && t != c && (IsOk(cfg, c, u) ==> IsOk(cfg, t, u)) ==> Older(rows, u, t, c)))
  }

  lemma {:induction false} CanonicalMeans(rows: Rows, cfg: Setting, e: Entity, u: Uid, c: Source)
    ensures IsCanonical(rows, cfg, e, u, c) <==> Chosen(rows, cfg, e, u, c)
  {
    var ok := OkSources(rows, cfg, e, u);
    forall s ensures Copy(rows, cfg, e, u, s) <==> s in Present(rows, cfg, e, u) {}
    forall s ensures s in ok <==> Copy(rows, cfg, e, u, s) && IsOk(cfg, s, u) {}
    if |ok| == 1 {
      var only :| only in ok;
      forall t | t in ok ensures t == only { TwoMembers(ok, t, only); }
    } else if ok != {} && c in ok {
      assert |ok - {c}| > 0;
      var other :| other in ok - {c};
    }
  }

  /** Source `s` follows `c` for `u` in a pass over `rows`. */
  predicate Follows(rows: Rows, cfg: Setting, e: Entity, u: Uid, s: Source, c: Source) {
    s in Present(rows, cfg, e, u) && s != c && Resolved(rows, cfg, e, u, c)
  }

  /** The rows a mutating pass turns `before` into: followers adopt the canonical record, all else stays. */
  ghost predicate Pass(before: Rows, after: Rows, cfg: Setting) {
    && (forall s, u :: Has(after, s, u) <==> Has(before, s, u))
    && (forall e, u, s, c :: Follows(before, cfg, e, u, s, c) ==> after[s][u] == Follow(before[s][u], before[c][u]))
    && (forall s, u :: Has(before, s, u) && after[s][u] != before[s][u] ==> IsFollower(before, cfg, s, u))
  }

  ghost predicate IsFollower(rows: Rows, cfg: Setting, s: Source, u: Uid) { exists e, c :: Follows(rows, cfg, e, u, s, c) }

  // ---------------------------------------------------------------- what a pass achieves

  /** The copies that count, and what counts for the choice, are untouched where no copy is a follower. */
  lemma {:induction false} SameView(before: Rows, after: Rows, cfg: Setting, e: Entity, u: Uid)
    requires Pass(before, after, cfg)
    ensures Present(after, cfg, e, u) == Present(before, cfg, e, u)
  {
    forall s ensures Counts(after, cfg, e, u, s) <==> Counts(before, cfg, e, u, s) {
      if InEntity(cfg, s, e) && Has(before, s, u) && after[s][u] != before[s][u] {
        var e', c :| Follows(before, cfg, e', u, s, c);
        CanonicalIsUnique(before, cfg, e', u, c, c);
      }
    }
  }

  lemma {:induction false} FollowerOfEntity(rows: Rows, cfg: Setting, e: Entity, u: Uid, s: Source)
    requires IsFollower(rows, cfg, s, u) && InEntity(cfg, s, e)
    ensures exists c :: Follows(rows, cfg, e, u, s, c)
  {
    var e', c :| Follows(rows, cfg, e', u, s, c);
    assert e' == e;
  }

  /** Where a canonical copy was found, all copies agree afterwards, field by field; where they agreed
      already, and where none was found, nothing has changed. */
  lemma {:induction false} PassConverges(before: Rows, after: Rows, cfg: Setting, e: Entity, u: Uid)
    requires Pass(before, after, cfg)
    ensures Unresolved(before, cfg, e, u) || Agree(after, cfg, e, u)
    ensures Unresolved(before, cfg, e, u) || forall s, t :: Copy(after, cfg, e, u, s) && Copy(after, cfg, e, u, t) ==> SameFields(after[s][u], after[t][u])
    ensures (Agree(before, cfg, e, u) || Unresolved(before, cfg, e, u)) ==>
              forall s :: s in Present(before, cfg, e, u) ==> after[s][u] == before[s][u]
    ensures forall c :: Resolved(before, cfg, e, u, c) ==> Has(before, c, u) && after[c][u] == before[c][u]
  {
    SameView(before, after, cfg, e, u);
    if Agree(before, cfg, e, u) || Unresolved(before, cfg, e, u) {
      forall s | s in Present(before, cfg, e, u) ensures after[s][u] == before[s][u] {
        if after[s][u] != before[s][u] { FollowerOfEntity(before, cfg, e, u, s); }
      }
    } else {
      var c :| IsCanonical(before, cfg, e, u, c);
      ResolvedAgree(before, after, cfg, e, u, c);
    }
    forall c | Resolved(before, cfg, e, u, c) ensures Has(before, c, u) && after[c][u] == before[c][u] {
      CanonicalStays(before, after, cfg, e, u, c);
    }
    if Agree(after, cfg, e, u) { AllSame(after, cfg, e, u); }
  }

  lemma {:induction false} AllSame(rows: Rows, cfg: Setting, e: Entity, u: Uid)
    requires Agree(rows, cfg, e, u)
    ensures forall s, t :: Copy(rows, cfg, e, u, s) && Copy(rows, cfg, e, u, t) ==> SameFields(rows[s][u], rows[t][u])
  {
    AgreeMeans(rows, cfg, e, u);
    forall s, t | Copy(rows, cfg, e, u, s) && Copy(rows, cfg, e, u, t) ensures SameFields(rows[s][u], rows[t][u]) {
      assert !Differ(rows, cfg, e, u, s, t);
    }
  }

  lemma {:induction false} CanonicalStays(before: Rows, after: Rows, cfg: Setting, e: Entity, u: Uid, c: Source)
    requires Pass(before, after, cfg) && Resolved(before, cfg, e, u, c)
    ensures Counts(before, cfg, e, u, c) && after[c][u] == before[c][u]
  {
    CanonicalIsUnique(before, cfg, e, u, c, c);
    if after[c][u] != before[c][u] {
      FollowerOfEntity(before, cfg, e, u, c);
      var c' :| Follows(before, cfg, e, u, c, c');
      CanonicalIsUnique(before, cfg, e, u, c, c');
    }
  }

  lemma {:induction false} ResolvedAgree(before: Rows, after: Rows, cfg: Setting, e: Entity, u: Uid, c: Source)
    requires Pass(before, after, cfg) && Resolved(before, cfg, e, u, c)
    ensures Agree(after, cfg, e, u)
  {
    SameView(before, after, cfg, e, u);
    CanonicalStays(before, after, cfg, e, u, c);
    forall s | s in Present(after, cfg, e, u) ensures SignatureOf(after[s][u]) == SignatureOf(before[c][u]) {
      if s != c {
        assert Follows(before, cfg, e, u, s, c);
        FollowAgrees(before[s][u], before[c][u]);
      }
    }
  }

  /** Main result: a second pass finds only the unresolved meetings, still unresolved, and changes nothing. */
  lemma {:induction false} SecondPassIsIdle(before: Rows, after: Rows, again: Rows, cfg: Setting)
    requires Pass(before, after, cfg) && Pass(after, again, cfg)
    ensures forall e, u :: !Agree(after, cfg, e, u) ==> Unresolved(before, cfg, e, u) && Unresolved(after, cfg, e, u)
    ensures forall e, u :: Unresolved(before, cfg, e, u) ==> Unresolved(after, cfg, e, u)
    ensures forall s, u :: !IsFollower(after, cfg, s, u)
    ensures forall s, u :: Has(after, s, u) ==> again[s][u] == after[s][u]
    ensures forall f, mutate :: Due(after, cfg, mutate, f) <==> f.canonical.None? && Due(before, cfg, mutate, f)
  {
    forall e, u
      ensures !Agree(after, cfg, e, u) ==> Unresolved(before, cfg, e, u)
      ensures Unresolved(before, cfg, e, u) ==> Unresolved(after, cfg, e, u)
    {
      PassConverges(before, after, cfg, e, u);
      if Unresolved(before, cfg, e, u) { UnresolvedStays(before, after, cfg, e, u); }
    }
    forall e, u, s, c ensures !Follows(after, cfg, e, u, s, c) {}
  }

  lemma {:induction false} UnresolvedStays(before: Rows, after: Rows, cfg: Setting, e: Entity, u: Uid)
    requires Pass(before, after, cfg) && Unresolved(before, cfg, e, u)
    ensures Unresolved(after, cfg, e, u)
  {
    SameView(before, after, cfg, e, u);
    PassConverges(before, after, cfg, e, u);
    var present := Present(before, cfg, e, u);
    assert OkSources(after, cfg, e, u) == OkSources(before, cfg, e, u);
    forall s | s in present ensures TimeOf(after, s, u) == TimeOf(before, s, u) {}
    forall c ensures !IsCanonical(after, cfg, e, u, c) {
      if IsCanonical(after, cfg, e, u, c) { CanonicalIsUnique(after, cfg, e, u, c, c); assert IsCanonical(before, cfg, e, u, c); }
    }
  }

  /** A pass changes only copies that differ from a chosen one, and these adopt its fields and lose their
      retry history; never a suppressed row, and never what a record keeps for itself. */
  lemma {:induction false} PassKeeps(before: Rows, after: Rows, cfg: Setting, s: Source, u: Uid)
    requires Pass(before, after, cfg) && s in before && u in before[s]
    ensures s in after && u in after[s]
    ensures before[s][u].integrity.Some? && before[s][u].integrity.value.aggregateSuppressed ==> after[s][u] == before[s][u]
    ensures after[s][u].rest == before[s][u].rest && after[s][u].audio.rest == before[s][u].audio.rest
    ensures after[s][u] != before[s][u] ==>
              exists e, c :: Copy(before, cfg, e, u, s) && Adopts(before, after, cfg, e, u, s, c)
  {
    assert Has(before, s, u) && Has(after, s, u);
    if after[s][u] != before[s][u] {
      var e, c :| Follows(before, cfg, e, u, s, c);
      CanonicalIsUnique(before, cfg, e, u, c, c);
      CanonicalMeans(before, cfg, e, u, c);
      FollowAgrees(before[s][u], before[c][u]);
      assert Adopts(before, after, cfg, e, u, s, c);
    }
  }

  /** The copy takes over the chosen one's fields, its own retry history blank. */
  ghost predicate Adopts(before: Rows, after: Rows, cfg: Setting, e: Entity, u: Uid, s: Source, c: Source) {
    Chosen(before, cfg, e, u, c) && Has(after, s, u) && SameFields(after[s][u], before[c][u]) && Rested(after[s][u].audio)
  }

  /** Followers are the copies, other than the chosen one, of a meeting whose copies differ. */
  lemma {:induction false} FollowersAreCopies(rows: Rows, cfg: Setting, s: Source, u: Uid)
    ensures IsFollower(rows, cfg, s, u) <==>
              exists e, c :: Diverges(rows, cfg, e, u) && Copy(rows, cfg, e, u, s) && Chosen(rows, cfg, e, u, c) && s != c
  {
    forall e, c ensures Follows(rows, cfg, e, u, s, c) <==> Diverges(rows, cfg, e, u) && Copy(rows, cfg, e, u, s) && Chosen(rows, cfg, e, u, c) && s != c {
      AgreeMeans(rows, cfg, e, u);
      CanonicalMeans(rows, cfg, e, u, c);
    }
  }

  /** In a meeting whose copies differ, every copy but the chosen one adopts its fields. */
  lemma {:induction false} FollowersAdopt(before: Rows, after: Rows, cfg: Setting, e: Entity, u: Uid, s: Source, t: Source, c: Source, d: Source)
    requires Pass(before, after, cfg) && Differ(before, cfg, e, u, s, t) && Chosen(before, cfg, e, u, c)
    requires Copy(before, cfg, e, u, d) && d != c
    ensures Adopts(before, after, cfg, e, u, d, c)
  {
    AgreeMeans(before, cfg, e, u);
    CanonicalMeans(before, cfg, e, u, c);
    assert Follows(before, cfg, e, u, d, c);
    assert Has(before, d, u) && Has(after, d, u);
    FollowAgrees(before[d][u], before[c][u]);
  }

  // ---------------------------------------------------------------- one meeting

  /** What handling meeting `u` of entity `e` does to the rows. */
  ghost predicate Step(now: Rows, next: Rows, cfg: Setting, e: Entity, u: Uid) {
    && (forall s, t :: Has(next, s, t) <==> Has(now, s, t))
    && (forall s, c :: Follows(now, cfg, e, u, s, c) ==> next[s][u] == Follow(now[s][u], now[c][u]))
    && (forall s, t :: Has(now, s, t) && next[s][t] != now[s][t] ==> t == u && exists c :: Follows(now, cfg, e, u, s, c))
  }

  /** The finding a meeting is due. */
  ghost predicate Due(rows: Rows, cfg: Setting, mutate: bool, f: Finding) {
    match f.canonical
    case None => Unresolved(rows, cfg, f.entity, f.uid) && f.severity == Warn
    case Some(c) => Resolved(rows, cfg, f.entity, f.uid, c) && f.severity == if mutate then Warn else Error
  }

  /** A finding is due on a meeting exactly when two of its copies differ in a shared field; it names the
      chosen copy, if there is one, and it is an error only where such a copy was found and not adopted. */
  lemma {:induction false} DueMeans(rows: Rows, cfg: Setting, mutate: bool, e: Entity, u: Uid)
    ensures (exists f :: Due(rows, cfg, mutate, f) && f.entity == e && f.uid == u) <==> Diverges(rows, cfg, e, u)
    ensures forall f :: Due(rows, cfg, mutate, f) && f.entity == e && f.uid == u ==>
              && (forall c :: f.canonical == Some(c) <==> Chosen(rows, cfg, e, u, c))
              && (f.severity == Error <==> f.canonical.Some? && !mutate)
  {
    AgreeMeans(rows, cfg, e, u);
    forall c ensures IsCanonical(rows, cfg, e, u, c) <==> Chosen(rows, cfg, e, u, c) { CanonicalMeans(rows, cfg, e, u, c); }
    if !Agree(rows, cfg, e, u) { SomeFinding(rows, cfg, mutate, e, u); }
    forall f | Due(rows, cfg, mutate, f) && f.entity == e && f.uid == u
      ensures forall c :: f.canonical == Some(c) <==> Chosen(rows, cfg, e, u, c)
    {
      forall c | f.canonical.Some? && Chosen(rows, cfg, e, u, c) ensures f.canonical == Some(c) {
        CanonicalIsUnique(rows, cfg, e, u, f.canonical.value, c);
      }
    }
  }

  lemma {:induction false} SomeFinding(rows: Rows, cfg: Setting, mutate: bool, e: Entity, u: Uid)
    requires !Agree(rows, cfg, e, u)
    ensures exists f :: Due(rows, cfg, mutate, f) && f.entity == e && f.uid == u
  {
    if c :| IsCanonical(rows, cfg, e, u, c) {
      assert Due(rows, cfg, mutate, Finding(e, u, if mutate then Warn else Error, Some(c)));
    } else {
      assert Due(rows, cfg, mutate, Finding(e, u, Warn, None));
    }
  }

  /** The canonical copy, if the probe or the encode times single one out. */
  method ChooseCanonical(rows: Rows, cfg: Setting, e: Entity, u: Uid) returns (c: Option<Source>)
    ensures c.Some? ==> IsCanonical(rows, cfg, e, u, c.value)
    ensures c.None? ==> forall s :: !IsCanonical(rows, cfg, e, u, s)
  {
    var ok := OkSources(rows, cfg, e, u);
    if |ok| == 1 {
      var only :| only in ok;
      return Some(only);
    }
    var candidates := Candidates(rows, cfg, e, u);
    var todo := candidates;
    c := None;
    var tied := false;
    while todo != {}
      invariant todo <= candidates
      invariant c.Some? ==> c.value in candidates - todo && TimeOf(rows, c.value, u).Some?
      invariant forall s :: s in candidates - todo && TimeOf(rows, s, u).Some? ==>
                  c.Some? && TimeOf(rows, s, u).value <= TimeOf(rows, c.value, u).value
      invariant tied <==> c.Some? && exists s :: s in candidates - todo && s != c.value && TimeOf(rows, s, u) == TimeOf(rows, c.value, u)
    {
      var s :| s in todo;
      todo := todo - {s};
      var time := TimeOf(rows, s, u);
      if time.Some? {
        if c.None? || time.value > TimeOf(rows, c.value, u).value { c, tied := Some(s), false; }
        else if time == TimeOf(rows, c.value, u) { tied := true; }
      }
    }
    if tied { c := None; }
  }

  /** The copies of `u` in `done` have adopted `canonical`; all else is as before. */
  ghost predicate Adopted(before: Rows, now: Rows, u: Uid, done: set<Source>, canonical: Record) {
    && (forall s, t :: Has(now, s, t) <==> Has(before, s, t))
    && (forall s, t :: Has(before, s, t) ==>
          now[s][t] == if t == u && s in done then Follow(before[s][t], canonical) else before[s][t])
  }

  lemma {:induction false} AdoptOne(before: Rows, now: Rows, u: Uid, done: set<Source>, canonical: Record, sk: Source)
    requires Adopted(before, now, u, done, canonical) && sk !in done && Has(before, sk, u)
    ensures Has(now, sk, u)
    ensures Adopted(before, now[sk := now[sk][u := Follow(now[sk][u], canonical)]], u, done + {sk}, canonical)
  {
    assert Has(now, sk, u);
    var next := now[sk := now[sk][u := Follow(now[sk][u], canonical)]];
    forall s, t ensures Has(next, s, t) <==> Has(before, s, t) {
      assert Has(now, s, t) <==> Has(before, s, t);
    }
    forall s, t | Has(before, s, t)
      ensures next[s][t] == if t == u && s in done + {sk} then Follow(before[s][t], canonical) else before[s][t]
    {
      assert Has(now, s, t);
    }
  }

  lemma {:induction false} AdoptedIsStep(before: Rows, after: Rows, cfg: Setting, e: Entity, u: Uid, c: Source)
    requires Resolved(before, cfg, e, u, c) && Has(before, c, u)
    requires Adopted(before, after, u, Present(before, cfg, e, u) - {c}, before[c][u])
    ensures Step(before, after, cfg, e, u)
  {
    forall s, c' | Follows(before, cfg, e, u, s, c') ensures after[s][u] == Follow(before[s][u], before[c'][u]) {
      FollowerAdopts(before, after, cfg, e, u, c, s, c');
    }
    forall s, t | Has(before, s, t) && after[s][t] != before[s][t] ensures t == u && exists c' :: Follows(before, cfg, e, u, s, c') {
      assert Follows(before, cfg, e, u, s, c);
    }
  }

  lemma {:induction false} FollowerAdopts(before: Rows, after: Rows, cfg: Setting, e: Entity, u: Uid, c: Source, s: Source, c': Source)
    requires Resolved(before, cfg, e, u, c) && Has(before, c, u)
    requires Adopted(before, after, u, Present(before, cfg, e, u) - {c}, before[c][u])
    requires Follows(before, cfg, e, u, s, c')
    ensures Has(before, s, u) && Has(after, s, u) && Has(before, c', u) && after[s][u] == Follow(before[s][u], before[c'][u])
  {
    CanonicalIsUnique(before, cfg, e, u, c, c');
    assert Has(before, s, u);
    assert Has(after, s, u) <==> Has(before, s, u);
  }

  // ---------------------------------------------------------------- the pass

  lemma {:induction false} FollowersAre(rows: Rows, cfg: Setting, e: Entity, u: Uid, c: Source)
    requires Resolved(rows, cfg, e, u, c)
    ensures forall s :: s in Present(rows, cfg, e, u) - {c} <==> exists c' :: Follows(rows, cfg, e, u, s, c')
  {
    forall s ensures s in Present(rows, cfg, e, u) - {c} <==> exists c' :: Follows(rows, cfg, e, u, s, c') {
      if s in Present(rows, cfg, e, u) - {c} { assert Follows(rows, cfg, e, u, s, c); }
      forall c' | Follows(rows, cfg, e, u, s, c') ensures c' == c { CanonicalIsUnique(rows, cfg, e, u, c, c'); }
    }
  }

  lemma {:induction false} TwoMembers<T>(all: set<T>, s: T, t: T)
    requires s in all && t in all
    ensures s != t ==> |all| >= 2
  {
    if s != t { assert |all - {s} - {t}| == |all| - 2; }
  }

  lemma {:induction false} FewAgree(rows: Rows, cfg: Setting, e: Entity, u: Uid)
    requires |Present(rows, cfg, e, u)| < 2
    ensures Agree(rows, cfg, e, u)
  {
    var present := Present(rows, cfg, e, u);
    forall s, t | s in present && t in present ensures s == t { TwoMembers(present, s, t); }
  }

  // ---------------------------------------------------------------- many meetings

  /** The pass so far: the meetings in `done` are handled. */
  ghost predicate PassOn(before: Rows, now: Rows, cfg: Setting, done: set<(Entity, Uid)>) {
    && (forall s, u :: Has(now, s, u) <==> Has(before, s, u))
    && (forall e, u, s, c :: (e, u) in done && Follows(before, cfg, e, u, s, c) ==> now[s][u] == Follow(before[s][u], before[c][u]))
    && (forall s, u :: Has(before, s, u) && now[s][u] != before[s][u] ==> IsDoneFollower(before, cfg, done, s, u))
  }

  ghost predicate IsDoneFollower(rows: Rows, cfg: Setting, done: set<(Entity, Uid)>, s: Source, u: Uid) {
    exists e, c :: (e, u) in done && Follows(rows, cfg, e, u, s, c)
  }

  /** A meeting not handled yet looks as it did at the start: a source belongs to one entity. */
  lemma {:induction false} NotDoneSame(before: Rows, now: Rows, cfg: Setting, done: set<(Entity, Uid)>, e: Entity, u: Uid)
    requires PassOn(before, now, cfg, done) && (e, u) !in done
    ensures forall s :: InEntity(cfg, s, e) && Has(before, s, u) ==> now[s][u] == before[s][u]
    ensures Present(now, cfg, e, u) == Present(before, cfg, e, u)
    ensures Agree(now, cfg, e, u) == Agree(before, cfg, e, u)
    ensures forall c :: IsCanonical(now, cfg, e, u, c) <==> IsCanonical(before, cfg, e, u, c)
  {
    forall s | InEntity(cfg, s, e) && Has(before, s, u) ensures now[s][u] == before[s][u] {
      assert !IsDoneFollower(before, cfg, done, s, u);
    }
    forall s ensures Counts(now, cfg, e, u, s) <==> Counts(before, cfg, e, u, s) {
      assert Has(now, s, u) <==> Has(before, s, u);
    }
    assert Present(now, cfg, e, u) == Present(before, cfg, e, u);
    assert OkSources(now, cfg, e, u) == OkSources(before, cfg, e, u);
    forall s | s in Present(before, cfg, e, u) ensures TimeOf(now, s, u) == TimeOf(before, s, u) {}
    SameCanonical(before, now, cfg, e, u);
  }

  lemma {:induction false} SameCanonical(before: Rows, now: Rows, cfg: Setting, e: Entity, u: Uid)
    requires Present(now, cfg, e, u) == Present(before, cfg, e, u)
    requires forall s :: s in Present(before, cfg, e, u) ==> TimeOf(now, s, u) == TimeOf(before, s, u)
    ensures forall c :: IsCanonical(now, cfg, e, u, c) <==> IsCanonical(before, cfg, e, u, c)
  {
    assert OkSources(now, cfg, e, u) == OkSources(before, cfg, e, u);
    assert Candidates(now, cfg, e, u) == Candidates(before, cfg, e, u);
  }

  lemma {:induction false} PassOnStep(before: Rows, now: Rows, next: Rows, cfg: Setting, done: set<(Entity, Uid)>, e: Entity, u: Uid)
    requires PassOn(before, now, cfg, done) && (e, u) !in done && Step(now, next, cfg, e, u)
    ensures PassOn(before, next, cfg, done + {(e, u)})
  {
    forall e', u', s, c | (e', u') in done + {(e, u)} && Follows(before, cfg, e', u', s, c)
      ensures next[s][u'] == Follow(before[s][u'], before[c][u'])
    {
      if (e', u') in done { EarlierFollower(before, now, next, cfg, done, e, u, e', u', s, c); }
      else { NewFollower(before, now, next, cfg, done, e, u, s, c); }
    }
    forall s, t | Has(before, s, t) && next[s][t] != before[s][t] ensures IsDoneFollower(before, cfg, done + {(e, u)}, s, t) {
      ChangedIsDone(before, now, next, cfg, done, e, u, s, t);
    }
  }

  lemma {:induction false} NewFollower(before: Rows, now: Rows, next: Rows, cfg: Setting, done: set<(Entity, Uid)>, e: Entity, u: Uid, s: Source, c: Source)
    requires PassOn(before, now, cfg, done) && (e, u) !in done && Step(now, next, cfg, e, u) && Follows(before, cfg, e, u, s, c)
    ensures Has(before, s, u) && Has(before, c, u) && Has(next, s, u) && next[s][u] == Follow(before[s][u], before[c][u])
  {
    CanonicalIsUnique(before, cfg, e, u, c, c);
    SameFollowers(before, now, cfg, done, e, u);
    NotDoneSame(before, now, cfg, done, e, u);
    assert Follows(now, cfg, e, u, s, c);
  }

  lemma {:induction false} EarlierFollower(before: Rows, now: Rows, next: Rows, cfg: Setting, done: set<(Entity, Uid)>, e: Entity, u: Uid,
                        e': Entity, u': Uid, s: Source, c: Source)
    requires PassOn(before, now, cfg, done) && (e, u) !in done && Step(now, next, cfg, e, u)
    requires (e', u') in done && Follows(before, cfg, e', u', s, c)
    ensures Has(before, s, u') && Has(before, c, u') && Has(next, s, u') && next[s][u'] == Follow(before[s][u'], before[c][u'])
  {
    CanonicalIsUnique(before, cfg, e', u', c, c);
    assert Has(now, s, u') && Has(next, s, u');
    assert next[s][u'] == now[s][u'];
  }

  lemma {:induction false} ChangedIsDone(before: Rows, now: Rows, next: Rows, cfg: Setting, done: set<(Entity, Uid)>, e: Entity, u: Uid, s: Source, t: Uid)
    requires PassOn(before, now, cfg, done) && (e, u) !in done && Step(now, next, cfg, e, u)
    requires Has(before, s, t) && Has(next, s, t) && next[s][t] != before[s][t]
    ensures IsDoneFollower(before, cfg, done + {(e, u)}, s, t)
  {
    assert Has(now, s, t);
    if now[s][t] != before[s][t] {
      var e', c :| (e', t) in done && Follows(before, cfg, e', t, s, c);
      assert (e', t) in done + {(e, u)};
    } else {
      var c :| Follows(now, cfg, e, u, s, c);
      SameFollowers(before, now, cfg, done, e, u);
      assert Follows(before, cfg, e, u, s, c) && (e, u) in done + {(e, u)};
    }
  }

  lemma {:induction false} SameFollowers(before: Rows, now: Rows, cfg: Setting, done: set<(Entity, Uid)>, e: Entity, u: Uid)
    requires PassOn(before, now, cfg, done) && (e, u) !in done
    ensures forall s, c :: Follows(now, cfg, e, u, s, c) <==> Follows(before, cfg, e, u, s, c)
    ensures forall f: Finding, mutate :: f.entity == e && f.uid == u ==> (Due(now, cfg, mutate, f) <==> Due(before, cfg, mutate, f))
  {
    NotDoneSame(before, now, cfg, done, e, u);
  }

  /** Everything a pass has done and reported after the meetings in `done`. */
  ghost predicate Progress(before: Rows, now: Rows, cfg: Setting, mutate: bool, done: set<(Entity, Uid)>,
                           findings: set<Finding>, touched: set<Source>) {
    && (if mutate then PassOn(before, now, cfg, done) else now == before)
    && (forall f :: f in findings <==> (f.entity, f.uid) in done && Due(before, cfg, mutate, f))
    && (forall s :: s in touched <==> mutate && exists u :: IsDoneFollower(before, cfg, done, s, u))
  }

  /** What handling one meeting reports. */
  ghost predicate Report(now: Rows, cfg: Setting, mutate: bool, e: Entity, u: Uid, finding: Option<Finding>, touched: set<Source>) {
    && (finding.Some? ==> finding.value.entity == e && finding.value.uid == u && Due(now, cfg, mutate, finding.value))
    && (finding.None? ==> Agree(now, cfg, e, u))
    && (forall s :: s in touched <==> mutate && exists c :: Follows(now, cfg, e, u, s, c))
  }

  function Opt<T>(o: Option<T>): set<T> { if o.Some? then {o.value} else {} }

  /** A meeting is due one finding at most. */
  lemma {:induction false} DueOnce(rows: Rows, cfg: Setting, mutate: bool, f: Finding, g: Finding)
    requires Due(rows, cfg, mutate, f) && Due(rows, cfg, mutate, g) && f.entity == g.entity && f.uid == g.uid
    ensures f == g
  {
    if f.canonical.Some? && g.canonical.Some? {
      CanonicalIsUnique(rows, cfg, f.entity, f.uid, f.canonical.value, g.canonical.value);
    }
  }

  lemma {:induction false} FindingsNext(before: Rows, now: Rows, cfg: Setting, mutate: bool, done: set<(Entity, Uid)>, findings: set<Finding>,
                     e: Entity, u: Uid, finding: Option<Finding>, touched: set<Source>, f: Finding)
    requires (e, u) !in done && (if mutate then PassOn(before, now, cfg, done) else now == before)
    requires Report(now, cfg, mutate, e, u, finding, touched)
    requires f in findings <==> (f.entity, f.uid) in done && Due(before, cfg, mutate, f)
    ensures f in findings + Opt(finding) <==> (f.entity, f.uid) in done + {(e, u)} && Due(before, cfg, mutate, f)
  {
    if mutate { SameFollowers(before, now, cfg, done, e, u); NotDoneSame(before, now, cfg, done, e, u); }
    if f.entity == e && f.uid == u && finding.Some? && Due(before, cfg, mutate, f) {
      DueOnce(before, cfg, mutate, f, finding.value);
    }
  }

  lemma {:induction false} TouchedNext(before: Rows, now: Rows, cfg: Setting, done: set<(Entity, Uid)>, touched: set<Source>,
                    e: Entity, u: Uid, more: set<Source>, s: Source)
    requires (e, u) !in done && PassOn(before, now, cfg, done)
    requires s in more <==> exists c :: Follows(now, cfg, e, u, s, c)
    requires s in touched <==> exists t :: IsDoneFollower(before, cfg, done, s, t)
    ensures s in touched + more <==> exists t :: IsDoneFollower(before, cfg, done + {(e, u)}, s, t)
  {
    forall t ensures IsDoneFollower(before, cfg, done + {(e, u)}, s, t) <==>
                       IsDoneFollower(before, cfg, done, s, t) || (t == u && exists c :: Follows(now, cfg, e, u, s, c))
    {
      DoneFollowerNext(before, now, cfg, done, e, u, s, t);
    }
    if s in more { assert IsDoneFollower(before, cfg, done + {(e, u)}, s, u); }
    if t :| IsDoneFollower(before, cfg, done, s, t) { assert IsDoneFollower(before, cfg, done + {(e, u)}, s, t); }
  }

  lemma {:induction false} DoneFollowerNext(before: Rows, now: Rows, cfg: Setting, done: set<(Entity, Uid)>, e: Entity, u: Uid, s: Source, t: Uid)
    requires (e, u) !in done && PassOn(before, now, cfg, done)
    ensures IsDoneFollower(before, cfg, done + {(e, u)}, s, t) <==>
              IsDoneFollower(before, cfg, done, s, t) || (t == u && exists c :: Follows(now, cfg, e, u, s, c))
  {
    SameFollowers(before, now, cfg, done, e, u);
    if IsDoneFollower(before, cfg, done, s, t) {
      var e', c :| (e', t) in done && Follows(before, cfg, e', t, s, c);
      assert (e', t) in done + {(e, u)};
    }
    if c :| t == u && Follows(now, cfg, e, u, s, c) {
      assert (e, u) in done + {(e, u)} && Follows(before, cfg, e, u, s, c);
    }
  }

  lemma {:induction false} ProgressStep(before: Rows, now: Rows, next: Rows, cfg: Setting, mutate: bool, done: set<(Entity, Uid)>,
                     findings: set<Finding>, touched: set<Source>, e: Entity, u: Uid, finding: Option<Finding>, more: set<Source>)
    requires Progress(before, now, cfg, mutate, done, findings, touched) && (e, u) !in done
    requires if mutate then Step(now, next, cfg, e, u) else next == now
    requires Report(now, cfg, mutate, e, u, finding, more)
    ensures Progress(before, next, cfg, mutate, done + {(e, u)}, findings + Opt(finding), touched + more)
  {
    if mutate { PassOnStep(before, now, next, cfg, done, e, u); }
    forall f ensures f in findings + Opt(finding) <==> (f.entity, f.uid) in done + {(e, u)} && Due(before, cfg, mutate, f) {
      FindingsNext(before, now, cfg, mutate, done, findings, e, u, finding, more, f);
    }
    forall s ensures s in touched + more <==> mutate && exists t :: IsDoneFollower(before, cfg, done + {(e, u)}, s, t) {
      if mutate { TouchedNext(before, now, cfg, done, touched, e, u, more, s); }
    }
  }

  function Entities(cfg: Setting): (r: set<Entity>)
    ensures forall s, e :: InEntity(cfg, s, e) ==> e in r
  {
    set s | s in cfg.entityOf && cfg.entityOf[s].Some? && cfg.entityOf[s].value != "" :: cfg.entityOf[s].value
  }

  /** The meetings of an entity's sources, suppressed rows passed over. */
  function Uids(rows: Rows, cfg: Setting, e: Entity): (r: set<Uid>)
    ensures forall u :: Present(rows, cfg, e, u) != {} ==> u in r
  {
    var r := set s, u | s in cfg.entityOf && InEntity(cfg, s, e) && s in rows && u in rows[s] && Counts(rows, cfg, e, u, s) :: u;
    assert forall u, s :: Counts(rows, cfg, e, u, s) ==> u in r;
    r
  }

  lemma {:induction false} DisagreeingEntity(rows: Rows, cfg: Setting, e: Entity, u: Uid)
    ensures !Agree(rows, cfg, e, u) ==> e in Entities(cfg) && Present(rows, cfg, e, u) != {}
  {}

  lemma {:induction false} FewPeers(rows: Rows, cfg: Setting, e: Entity, u: Uid, peers: set<Source>)
    requires |peers| < 2 && forall s :: InEntity(cfg, s, e) ==> s in peers
    ensures Agree(rows, cfg, e, u)
  {
    forall s, t | s in Present(rows, cfg, e, u) && t in Present(rows, cfg, e, u) ensures s == t { TwoMembers(peers, s, t); }
  }

  lemma {:induction false} DisagreeingIsListed(before: Rows, now: Rows, cfg: Setting, mutate: bool, done: set<(Entity, Uid)>,
                            findings: set<Finding>, touched: set<Source>, e: Entity, u: Uid)
    requires Progress(before, now, cfg, mutate, done, findings, touched) && (e, u) !in done && !Agree(before, cfg, e, u)
    ensures u in Uids(now, cfg, e)
  {
    if mutate { NotDoneSame(before, now, cfg, done, e, u); }
  }

  lemma {:induction false} AllDone(before: Rows, after: Rows, cfg: Setting, mutate: bool, done: set<(Entity, Uid)>, findings: set<Finding>, touched: set<Source>)
    requires Progress(before, after, cfg, mutate, done, findings, touched)
    requires forall e, u :: !Agree(before, cfg, e, u) ==> (e, u) in done
    ensures if mutate then Pass(before, after, cfg) else after == before
    ensures forall f :: f in findings <==> Due(before, cfg, mutate, f)
    ensures forall s :: s in touched <==> mutate && exists u :: IsFollower(before, cfg, s, u)
  {
    forall s, u ensures IsDoneFollower(before, cfg, done, s, u) <==> IsFollower(before, cfg, s, u) {
      if e, c :| Follows(before, cfg, e, u, s, c) { assert (e, u) in done; }
    }
  }

  lemma {:induction false} AllReported(rows: Rows, cfg: Setting, mutate: bool, findings: set<Finding>)
    requires forall f :: f in findings <==> Due(rows, cfg, mutate, f)
    ensures forall e, u :: Reported(findings, e, u) <==> Diverges(rows, cfg, e, u)
  {
    forall e, u ensures Reported(findings, e, u) <==> Diverges(rows, cfg, e, u) { DueMeans(rows, cfg, mutate, e, u); }
  }

  class Stores {
    var rows: Rows

    method AdoptAll(u: Uid, followers: set<Source>, canonical: Record)
      requires forall s :: s in followers ==> Has(rows, s, u)
      modifies this
      ensures Adopted(old(rows), rows, u, followers, canonical)
    {
      var todo := followers;
      while todo != {}
        invariant todo <= followers && Adopted(old(rows), rows, u, followers - todo, canonical)
      {
        var sk :| sk in todo;
        ghost var done := followers - todo;
        AdoptOne(old(rows), rows, u, done, canonical, sk);
        var rec := rows[sk][u];
        rows := rows[sk := rows[sk][u := Follow(rec, canonical)]];
        todo := todo - {sk};
        assert followers - todo == done + {sk};
      }
      assert followers - todo == followers;
    }

    /** Every other copy adopts the canonical record. */
    method AdoptCanonical(cfg: Setting, e: Entity, u: Uid, c: Source) returns (touched: set<Source>)
      requires Resolved(rows, cfg, e, u, c)
      modifies this
      ensures Step(old(rows), rows, cfg, e, u)
      ensures touched == Present(old(rows), cfg, e, u) - {c}
    {
      CanonicalIsUnique(rows, cfg, e, u, c, c);
      touched := Present(rows, cfg, e, u) - {c};
      AdoptAll(u, touched, rows[c][u]);
      AdoptedIsStep(old(rows), rows, cfg, e, u, c);
    }

    /** One meeting of one entity. */
    method ReconcileUid(cfg: Setting, e: Entity, u: Uid, mutate: bool) returns (finding: Option<Finding>, touched: set<Source>)
      modifies this
      ensures if mutate then Step(old(rows), rows, cfg, e, u) else rows == old(rows)
      ensures Report(old(rows), cfg, mutate, e, u, finding, touched)
    {
      var present := Present(rows, cfg, e, u);
      touched := {};
      if |present| < 2 {
        FewAgree(rows, cfg, e, u);
        return None, {};
      }
      if Agree(rows, cfg, e, u) { return None, {}; }
      var canonical := ChooseCanonical(rows, cfg, e, u);
      if canonical.None? { return Some(Finding(e, u, Warn, None)), {}; }
      finding := Some(Finding(e, u, if mutate then Warn else Error, canonical));
      if mutate {
        touched := AdoptCanonical(cfg, e, u, canonical.value);
        FollowersAre(old(rows), cfg, e, u, canonical.value);
      }
    }

    /** The meetings of one entity, one after the other. */
    method ReconcileEntity(cfg: Setting, e: Entity, mutate: bool, ghost before: Rows, ghost done: set<(Entity, Uid)>,
                           findings: set<Finding>, touched: set<Source>)
      returns (findings': set<Finding>, touched': set<Source>, ghost done': set<(Entity, Uid)>)
      requires Progress(before, rows, cfg, mutate, done, findings, touched) && forall u :: (e, u) !in done
      modifies this
      ensures Progress(before, rows, cfg, mutate, done', findings', touched')
      ensures done <= done' && (forall p :: p in done' ==> p in done || p.0 == e)
      ensures forall u :: !Agree(before, cfg, e, u) ==> (e, u) in done'
    {
      findings', touched', done' := findings, touched, done;
      var peers := set s | s in cfg.entityOf && InEntity(cfg, s, e);
      if |peers| < 2 {
        forall u ensures Agree(before, cfg, e, u) { FewPeers(before, cfg, e, u, peers); }
        return;
      }
      var uids := Uids(rows, cfg, e);
      ghost var start := rows;
      forall u | !Agree(before, cfg, e, u) ensures u in uids { DisagreeingIsListed(before, rows, cfg, mutate, done, findings, touched, e, u); }
      var todo := uids;
      while todo != {}
        invariant todo <= uids && Progress(before, rows, cfg, mutate, done', findings', touched')
        invariant done <= done' && (forall p :: p in done' ==> p in done || (p.0 == e && p.1 !in todo))
        invariant forall u :: u in uids - todo ==> (e, u) in done'
      {
        var uid :| uid in todo;
        todo := todo - {uid};
        ghost var now := rows;
        var finding, more := ReconcileUid(cfg, e, uid, mutate);
        ProgressStep(before, now, rows, cfg, mutate, done', findings', touched', e, uid, finding, more);
        findings', touched', done' := findings' + Opt(finding), touched' + more, done' + {(e, uid)};
      }
    }

    /** `reconcile_cross_source_audio`: with `mutate` a pass over all meetings, without it only the findings. */
    method Reconcile(cfg: Setting, mutate: bool) returns (findings: set<Finding>, touched: set<Source>)
      modifies this
      ensures if mutate then Pass(old(rows), rows, cfg) else rows == old(rows)
      ensures forall f :: f in findings <==> Due(old(rows), cfg, mutate, f)
      ensures forall e, u :: Reported(findings, e, u) <==> Diverges(old(rows), cfg, e, u)
      ensures forall s :: s in touched <==> mutate && exists u :: IsFollower(old(rows), cfg, s, u)
    {
      findings, touched := {}, {};
      ghost var done: set<(Entity, Uid)> := {};
      var entities := Entities(cfg);
      var todo := entities;
      while todo != {}
        invariant todo <= entities && Progress(old(rows), rows, cfg, mutate, done, findings, touched)
        invariant forall p :: p in done ==> p.0 !in todo
        invariant forall e, u :: e in entities - todo && !Agree(old(rows), cfg, e, u) ==> (e, u) in done
      {
        var entity :| entity in todo;
        todo := todo - {entity};
        findings, touched, done := ReconcileEntity(cfg, entity, mutate, old(rows), done, findings, touched);
      }
      forall e, u | !Agree(old(rows), cfg, e, u) ensures (e, u) in done { DisagreeingEntity(old(rows), cfg, e, u); }
      AllDone(old(rows), rows, cfg, mutate, done, findings, touched);
      AllReported(old(rows), cfg, mutate, findings);
    }
  }
}
