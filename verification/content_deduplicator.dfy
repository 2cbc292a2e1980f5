/**
  The content-hash deduplicator of the broker output path: the writer itself, and what
  suppression means for the consumer over whole runs with failing writes and failing hashes.
 */
module ContentDeduplicator {
  import opened Resources

  /** The writer's observable state: its cache, and the calls that reached the real writer. */
  datatype Dedup<H> = Dedup(cache: map<string, H>, log: seq<Attempt>)

  /** One call of `Write`. `ok` is the real writer's answer, should the call reach it. */
  datatype Submission = Submission(event: Event, ok: bool)

  function Fresh<H>(): Dedup<H> {
    Dedup(map[], [])
  }

  /** The call is answered from the cache and never reaches the real writer. */
  predicate Suppresses<H(==)>(hash: KubernetesResource -> Option<H>, cache: map<string, H>, e: Event) {
    && Uid(e) != "" && !e.evtype.Delete?
    && hash(e.obj).Some? && Uid(e) in cache && cache[Uid(e)] == hash(e.obj).value
  }

  function Written<H(==)>(hash: KubernetesResource -> Option<H>, d: Dedup<H>, s: Submission): Dedup<H> {
    var u := Uid(s.event);
    var log := d.log + [Attempt(s.event, s.ok)];
    if u == "" then Dedup(d.cache, log)
    else if s.event.evtype.Delete? || hash(s.event.obj).None? then Dedup(d.cache - {u}, log)
    else if Suppresses(hash, d.cache, s.event) then d
    else Dedup(if s.ok then d.cache[u := hash(s.event.obj).value] else d.cache, log)
  }

  function Run<H(==)>(hash: KubernetesResource -> Option<H>, d: Dedup<H>, subs: seq<Submission>): Dedup<H> {
    if subs == [] then d
    else Written(hash, Run(hash, d, subs[..|subs| - 1]), subs[|subs| - 1])
  }

  class ContentDeduplicatorWriter<H(==)> {
    const realWriter: Sink
    const hash: KubernetesResource -> Option<H>
    var hashByUID: map<string, H>

    constructor (realWriter: Sink, hash: KubernetesResource -> Option<H>)
      ensures this.realWriter == realWriter && this.hash == hash
      ensures hashByUID == map[]
    {
      this.realWriter := realWriter;
      this.hash := hash;
      hashByUID := map[];
    }

    ghost function State(): Dedup<H>
      reads this, realWriter
    {
      Dedup(hashByUID, realWriter.log)
    }

    method Write(obj: KubernetesResource, evtype: EventType, cfg: PipelineConfig) returns (err: bool)
      modifies this`hashByUID, realWriter
      ensures State() == Written(hash, old(State()), Submission(Event(obj, evtype, cfg), !err))
      ensures err <==> |realWriter.log| > |old(realWriter.log)| && !realWriter.log[|realWriter.log| - 1].ok
    {
      var uid := if obj.meta.Some? then obj.meta.value.uid else "";
      if uid == "" {
        err := realWriter.Write(obj, evtype, cfg);
        return;
      }
      if evtype == Delete {
        hashByUID := hashByUID - {uid};
        err := realWriter.Write(obj, evtype, cfg);
        return;
      }
      var h := hash(obj);
      if h.None? {
        hashByUID := hashByUID - {uid};
        err := realWriter.Write(obj, evtype, cfg);
        return;
      }
      if uid in hashByUID && hashByUID[uid] == h.value {
        return false;
      }
      err := realWriter.Write(obj, evtype, cfg);
      if err {
        return;
      }
      hashByUID := hashByUID[uid := h.value];
    }
  }

  /** Equal hashes mean equal resources. */
  ghost predicate Injective<H(!new)>(hash: KubernetesResource -> Option<H>) {
    forall a, b :: hash(a).Some? && hash(a) == hash(b) ==> a == b
  }

  /** Every cached hash is the hash of what the consumer holds for that UID. */
  ghost predicate Coherent<H(!new)>(hash: KubernetesResource -> Option<H>, cache: map<string, H>, c: Consumer) {
    forall u :: u in cache ==> u != "" && u in c.store && hash(c.store[u]) == Some(cache[u])
  }

  /** What the consumer would hold had every submission been forwarded, bar the writes that failed. */
  function Surviving<H(==)>(hash: KubernetesResource -> Option<H>, d: Dedup<H>, subs: seq<Submission>): seq<Event> {
    if subs == [] then []
    else
      var n := |subs| - 1;
      var before := Run(hash, d, subs[..n]);
      Surviving(hash, d, subs[..n]) +
      if WriteFails(hash, before, subs[n]) then [] else [subs[n].event]
  }

  /** The error `Write` returns: the call reached the real writer, and that failed. */
  predicate WriteFails<H(==)>(hash: KubernetesResource -> Option<H>, d: Dedup<H>, s: Submission) {
    !s.ok && !Suppresses(hash, d.cache, s.event)
  }

  lemma {:induction false} RunSnoc<H>(
      hash: KubernetesResource -> Option<H>, d: Dedup<H>, subs: seq<Submission>, s: Submission)
    ensures Run(hash, d, subs + [s]) == Written(hash, Run(hash, d, subs), s)
  {
    assert (subs + [s])[..|subs|] == subs;
  }

  /** The consumer already holds what a suppressed event carries. */
  lemma {:induction false} SuppressedIsNoOp<H(!new)>(
      hash: KubernetesResource -> Option<H>, cache: map<string, H>, c: Consumer, e: Event)
    requires Injective(hash) && Coherent(hash, cache, c) && Suppresses(hash, cache, e)
    ensures Apply(c, e) == c
  {
    var held := c.store[Uid(e)];
    assert hash(held) == hash(e.obj);
    assert c.store[Uid(e) := held] == c.store;
  }

  lemma {:induction false} ForwardKeepsCoherent<H(!new)>(
      hash: KubernetesResource -> Option<H>, d: Dedup<H>, c: Consumer, s: Submission)
    requires Coherent(hash, d.cache, c) && !Suppresses(hash, d.cache, s.event)
    ensures Coherent(hash, Written(hash, d, s).cache, if s.ok then Apply(c, s.event) else c)
  {
  }

  /** The consumer behind a real writer with this log. */
  function Held(c0: Consumer, log: seq<Attempt>): Consumer {
    ApplyAll(c0, Delivered(log))
  }

  lemma HeldSnoc(c0: Consumer, log: seq<Attempt>, a: Attempt)
    ensures Held(c0, log + [a]) == if a.ok then Apply(Held(c0, log), a.event) else Held(c0, log)
  {
    DeliveredSnoc(log, a);
    assert Delivered(log) + [] == Delivered(log);
    ApplyAllSnoc(c0, Delivered(log), a.event);
  }

  /** One call keeps the cache coherent, and moves the consumer as if nothing were ever suppressed. */
  lemma {:induction false} WriteKeepsAgreement<H(!new)>(
      hash: KubernetesResource -> Option<H>, d: Dedup<H>, c0: Consumer, s: Submission)
    requires Injective(hash)
    requires Coherent(hash, d.cache, Held(c0, d.log))
    ensures Coherent(hash, Written(hash, d, s).cache, Held(c0, Written(hash, d, s).log))
    ensures Held(c0, Written(hash, d, s).log) ==
      if WriteFails(hash, d, s) then Held(c0, d.log) else Apply(Held(c0, d.log), s.event)
  {
    if Suppresses(hash, d.cache, s.event) {
      SuppressedIsNoOp(hash, d.cache, Held(c0, d.log), s.event);
      assert Written(hash, d, s) == d;
    } else {
      ForwardKeepsCoherent(hash, d, Held(c0, d.log), s);
      HeldSnoc(c0, d.log, Attempt(s.event, s.ok));
      assert Written(hash, d, s).log == d.log + [Attempt(s.event, s.ok)];
    }
  }

  /**
    Main result. From any state whose cache agrees with the consumer, after any sequence of
    writes with arbitrary failures, the consumer is exactly what it would be had every event
    been applied except those whose write failed: each suppressed event is a no-op on it.
   */
  lemma {:induction false} SuppressionPreservesMeaning<H(!new)>(
      hash: KubernetesResource -> Option<H>, d: Dedup<H>, c0: Consumer, subs: seq<Submission>)
    requires Injective(hash)
    requires d.log == [] && Coherent(hash, d.cache, c0)
    ensures
      var r := Run(hash, d, subs);
      && Held(c0, r.log) == ApplyAll(c0, Surviving(hash, d, subs))
      && Coherent(hash, r.cache, Held(c0, r.log))
  {
    if subs == [] {
    } else {
      var n := |subs| - 1;
      SuppressionPreservesMeaning(hash, d, c0, subs[..n]);
      var before := Run(hash, d, subs[..n]);
      WriteKeepsAgreement(hash, before, c0, subs[n]);
      if WriteFails(hash, before, subs[n]) {
        assert Surviving(hash, d, subs) == Surviving(hash, d, subs[..n]);
      } else {
        ApplyAllSnoc(c0, Surviving(hash, d, subs[..n]), subs[n].event);
      }
    }
  }

  /** What the cache must hold for `u`, told from the submissions alone, newest first. */
  function CachedFor<H>(hash: KubernetesResource -> Option<H>, subs: seq<Submission>, u: string): Option<H> {
    if subs == [] then None
    else
      var n := |subs| - 1;
      var e := subs[n].event;
      if Uid(e) != u then CachedFor(hash, subs[..n], u)
      else if e.evtype.Delete? then None
      else if subs[n].ok || hash(e.obj).None? then hash(e.obj)
      else CachedFor(hash, subs[..n], u)
  }

  function Lookup<H>(cache: map<string, H>, u: string): Option<H> {
    if u in cache then Some(cache[u]) else None
  }

  /** The cache is exactly a last-event-wins summary of the submissions, failed writes skipped. */
  lemma {:induction false} CacheIsLastSubmission<H>(
      hash: KubernetesResource -> Option<H>, subs: seq<Submission>, u: string)
    ensures
      Lookup(Run(hash, Fresh(), subs).cache, u) == if u == "" then None else CachedFor(hash, subs, u)
  {
    if subs == [] {
    } else {
      CacheIsLastSubmission(hash, subs[..|subs| - 1], u);
    }
  }

  function Events(subs: seq<Submission>): seq<Event> {
    seq(|subs|, i requires 0 <= i < |subs| => subs[i].event)
  }

  ghost predicate CachesDelivered<H>(hash: KubernetesResource -> Option<H>, d: Dedup<H>, u: string) {
    var sent := Last(Delivered(d.log), u);
    u in d.cache ==> sent.Some? && !sent.value.evtype.Delete? && hash(sent.value.obj) == Some(d.cache[u])
  }

  lemma LastDeliveredSnoc(log: seq<Attempt>, a: Attempt, u: string)
    ensures Last(Delivered(log + [a]), u) == if a.ok && Uid(a.event) ==
      u then Some(a.event) else Last(Delivered(log), u)
  {
    DeliveredSnoc(log, a);
    LastSnoc(Delivered(log), a.event, u);
    assert Delivered(log) + [] == Delivered(log);
  }

  lemma {:induction false} WriteCachesDelivered<H>(
      hash: KubernetesResource -> Option<H>, d: Dedup<H>, s: Submission, u: string)
    requires u != "" && CachesDelivered(hash, d, u)
    ensures CachesDelivered(hash, Written(hash, d, s), u)
  {
    var d' := Written(hash, d, s);
    if Suppresses(hash, d.cache, s.event) {
      assert d' == d;
    } else {
      assert d'.log == d.log + [Attempt(s.event, s.ok)];
      LastDeliveredSnoc(d.log, Attempt(s.event, s.ok), u);
    }
  }

  lemma {:induction false} CachedIsLastDelivered<H>(
      hash: KubernetesResource -> Option<H>, subs: seq<Submission>, u: string)
    requires u != ""
    ensures CachesDelivered(hash, Run(hash, Fresh(), subs), u)
  {
    if subs == [] {
    } else {
      var n := |subs| - 1;
      CachedIsLastDelivered(hash, subs[..n], u);
      WriteCachesDelivered(hash, Run(hash, Fresh(), subs[..n]), subs[n], u);
    }
  }

  lemma {:induction false} CachedIsNotDeleted<H>(
      hash: KubernetesResource -> Option<H>, subs: seq<Submission>, u: string)
    requires CachedFor(hash, subs, u).Some?
    ensures Last(Events(subs), u).Some? && !Last(Events(subs), u).value.evtype.Delete?
  {
    var n := |subs| - 1;
    var es := Events(subs);
    assert es[..n] == Events(subs[..n]) && es[n] == subs[n].event;
    if Uid(subs[n].event) != u {
      CachedIsNotDeleted(hash, subs[..n], u);
    }
  }

  /**
    A UID in the cache maps to the hash of its last delivered event, which was no DELETE;
    nor was the last event submitted for it.
   */
  lemma {:induction false} CacheCoherence<H>(hash: KubernetesResource -> Option<H>, subs: seq<Submission>, u: string)
    requires u in Run(hash, Fresh(), subs).cache
    ensures
      var r := Run(hash, Fresh(), subs);
      var sent, asked := Last(Delivered(r.log), u), Last(Events(subs), u);
      && sent.Some? && !sent.value.evtype.Delete? && hash(sent.value.obj) == Some(r.cache[u])
      && asked.Some? && !asked.value.evtype.Delete?
  {
    CacheIsLastSubmission(hash, subs, u);
    CachedIsLastDelivered(hash, subs, u);
    CachedIsNotDeleted(hash, subs, u);
  }

  /**
    Exactly when a call is suppressed: the newest submission for the UID that was a DELETE,
    unhashable, or written without error is an ADD or UPDATE with the same hash.
   */
  lemma {:induction false} SuppressedExactlyWhenCurrent<H>(
      hash: KubernetesResource -> Option<H>, subs: seq<Submission>, s: Submission)
    ensures
      var d := Run(hash, Fresh(), subs);
      Run(hash, Fresh(), subs + [s]).log == d.log <==>
        && Uid(s.event) != "" && !s.event.evtype.Delete? && hash(s.event.obj).Some?
        && CachedFor(hash, subs, Uid(s.event)) == hash(s.event.obj)
  {
    RunSnoc(hash, Fresh(), subs, s);
    CacheIsLastSubmission(hash, subs, Uid(s.event));
  }

  /** No event for `u` in `subs` reaches the real writer and succeeds, starting from `d`. */
  predicate NoSuccessFor<H(==)>(hash: KubernetesResource -> Option<H>, d: Dedup<H>, subs: seq<Submission>, u: string) {
    |subs| == 0 ||
    var n := |subs| - 1;
    && NoSuccessFor(hash, d, subs[..n], u)
    && (Uid(subs[n].event) == u && subs[n].ok ==> Suppresses(hash, Run(hash, d, subs[..n]).cache, subs[n].event))
  }

  /** While nothing for `u` succeeds, its cache entry can only disappear. */
  lemma {:induction false} EntryOnlyDisappears<H>(
      hash: KubernetesResource -> Option<H>, d: Dedup<H>, subs: seq<Submission>, u: string)
    requires NoSuccessFor(hash, d, subs, u)
    ensures var e := Lookup(Run(hash, d, subs).cache, u); e == None || e == Lookup(d.cache, u)
  {
    if subs == [] {
    } else {
      EntryOnlyDisappears(hash, d, subs[..|subs| - 1], u);
    }
  }

  /**
    Retry safety. After a write of a payload failed, and as long as nothing for its UID
    succeeds, submitting that payload again (as ADD or UPDATE) reaches the real writer.
   */
  lemma {:induction false} RetryReachesWriter<H>(
      hash: KubernetesResource -> Option<H>, d: Dedup<H>, s: Submission, between: seq<Submission>, retry: Submission)
    requires WriteFails(hash, d, s)
    requires NoSuccessFor(hash, Written(hash, d, s), between, Uid(s.event))
    requires retry.event.obj == s.event.obj
    ensures
      var d' := Run(hash, Written(hash, d, s), between);
      Written(hash, d', retry).log == d'.log + [Attempt(retry.event, retry.ok)]
  {
    EntryOnlyDisappears(hash, Written(hash, d, s), between, Uid(s.event));
  }

  /** An ADD or UPDATE of `u` that can be hashed. */
  predicate Upserts<H>(hash: KubernetesResource -> Option<H>, e: Event, u: string) {
    Uid(e) == u && !e.evtype.Delete? && hash(e.obj).Some?
  }

  /** The newest attempt for `u`, if any. */
  function LastAttempt(log: seq<Attempt>, u: string): Option<Attempt> {
    if log == [] then None
    else if Uid(log[|log| - 1].event) == u then Some(log[|log| - 1])
    else LastAttempt(log[..|log| - 1], u)
  }

  lemma LastAttemptSnoc(log: seq<Attempt>, a: Attempt, u: string)
    ensures LastAttempt(log + [a], u) == if Uid(a.event) == u then Some(a) else LastAttempt(log, u)
  {
    assert (log + [a])[..|log|] == log;
  }

  /** A successful hashable newest attempt for `u` is what the cache holds. */
  ghost predicate CachesNewest<H>(hash: KubernetesResource -> Option<H>, d: Dedup<H>, u: string) {
    var a := LastAttempt(d.log, u);
    a.Some? && a.value.ok && Upserts(hash, a.value.event, u) ==> Lookup(d.cache, u) == hash(a.value.event.obj)
  }

  lemma {:induction false} WriteCachesNewest<H>(
      hash: KubernetesResource -> Option<H>, d: Dedup<H>, s: Submission, u: string)
    requires u != "" && CachesNewest(hash, d, u)
    ensures CachesNewest(hash, Written(hash, d, s), u)
  {
    LastAttemptSnoc(d.log, Attempt(s.event, s.ok), u);
  }

  lemma {:induction false} LastSuccessIsCached<H>(
      hash: KubernetesResource -> Option<H>, subs: seq<Submission>, u: string)
    requires u != ""
    ensures CachesNewest(hash, Run(hash, Fresh(), subs), u)
  {
    if subs == [] {
    } else {
      var n := |subs| - 1;
      LastSuccessIsCached(hash, subs[..n], u);
      WriteCachesNewest(hash, Run(hash, Fresh(), subs[..n]), subs[n], u);
    }
  }

  /** Each ADD or UPDATE in `log` differs from the newest attempt for its UID, when that was a successful one. */
  ghost predicate Minimal<H(!new)>(hash: KubernetesResource -> Option<H>, log: seq<Attempt>) {
    forall j :: 0 <= j < |log| ==>
      var u := Uid(log[j].event);
      var a := LastAttempt(log[..j], u);
      u != "" && Upserts(hash, log[j].event, u) && a.Some? && a.value.ok && Upserts(hash, a.value.event, u) ==>
        log[j].event.obj != a.value.event.obj
  }

  /**
    Suppression is minimal: in every run, no UID is forwarded the same content twice in a row,
    unless the first write failed, or a DELETE or an unhashable payload came in between.
   */
  lemma {:induction false} ForwardedLogIsMinimal<H(!new)>(hash: KubernetesResource -> Option<H>, subs: seq<Submission>)
    ensures Minimal(hash, Run(hash, Fresh(), subs).log)
  {
    if subs == [] {
    } else {
      var n := |subs| - 1;
      ForwardedLogIsMinimal(hash, subs[..n]);
      var before := Run(hash, Fresh(), subs[..n]);
      if Uid(subs[n].event) != "" {
        LastSuccessIsCached(hash, subs[..n], Uid(subs[n].event));
      }
      var log := Run(hash, Fresh(), subs).log;
      forall j | 0 <= j < |log|
        ensures log[..j] == before.log[..j] || (j == |before.log| && log[..j] == before.log)
      {
      }
    }
  }

  /**
    Why a failed write must leave the consumer unchanged. If the real writer reports a failure
    for `b` and yet delivers it, returning to the earlier content `a` is suppressed, and the
    consumer is left with `b`.
   */
  lemma {:induction false} UnreportedDeliverySticks<H>(hash: KubernetesResource -> Option<H>, a: Event, b: Event)
    requires Uid(a) == Uid(b) != ""
    requires Upserts(hash, a, Uid(a)) && Upserts(hash, b, Uid(a)) && hash(a.obj) != hash(b.obj)
    ensures
      var subs := [Submission(a, true), Submission(b, false), Submission(a, true)];
      var c := ApplyAll(EMPTY_CONSUMER, [a, b]);
      && Run(hash, Fresh(), subs).log == [Attempt(a, true), Attempt(b, false)]
      && c.store[Uid(a)] == b.obj != a.obj
  {
    var subs := [Submission(a, true), Submission(b, false), Submission(a, true)];
    assert subs == ([] + [subs[0]] + [subs[1]]) + [subs[2]];
    RunSnoc(hash, Fresh(), [], subs[0]);
    RunSnoc(hash, Fresh(), [] + [subs[0]], subs[1]);
    RunSnoc(hash, Fresh(), [] + [subs[0]] + [subs[1]], subs[2]);
    ApplyAllSnoc(EMPTY_CONSUMER, [a], b);
    assert [a] + [b] == [a, b];
  }

  /** What the consumer holds for a UID is told by the newest event applied for it. */
  lemma {:induction false} EntryIsLast(es: seq<Event>, u: string)
    requires u != ""
    ensures Lookup(ApplyAll(EMPTY_CONSUMER, es).store, u) ==
      match Last(es, u)
      case None => None
      case Some(e) => if e.evtype.Delete? then None else Some(e.obj)
  {
    if es == [] {
    } else {
      EntryIsLast(es[..|es| - 1], u);
    }
  }

  // ------------------------------------------------------------------- writes that deliver but report failure

  /** One call whose write may reach the consumer although it reports an error. */
  datatype Sent = Sent(event: Event, ok: bool, delivered: bool)

  /** A reported success is a delivery. */
  predicate Truthful(sents: seq<Sent>) {
    forall i :: 0 <= i < |sents| && sents[i].ok ==> sents[i].delivered
  }

  /** The deduplicator sees what is reported. */
  function Reported(sents: seq<Sent>): seq<Submission> {
    seq(|sents|, i requires 0 <= i < |sents| => Submission(sents[i].event, sents[i].ok))
  }

  /** The calls that reached the real writer and were delivered, reported so or not. */
  function Arrived<H(==)>(hash: KubernetesResource -> Option<H>, sents: seq<Sent>): seq<Sent> {
    if sents == [] then []
    else
      var n := |sents| - 1;
      var before := Run(hash, Fresh(), Reported(sents[..n]));
      Arrived(hash, sents[..n]) +
      if sents[n].delivered && !Suppresses(hash, before.cache, sents[n].event) then [sents[n]] else []
  }

  function EventsOf(sents: seq<Sent>): seq<Event> {
    seq(|sents|, i requires 0 <= i < |sents| => sents[i].event)
  }

  function Newest(sents: seq<Sent>, u: string): Option<Sent> {
    if sents == [] then None
    else if Uid(sents[|sents| - 1].event) == u then Some(sents[|sents| - 1])
    else Newest(sents[..|sents| - 1], u)
  }

  lemma {:induction false} NewestIsLast(sents: seq<Sent>, u: string)
    ensures Last(EventsOf(sents), u) == match Newest(sents, u) case None => None case Some(s) => Some(s.event)
  {
    if sents == [] {
    } else {
      var n := |sents| - 1;
      NewestIsLast(sents[..n], u);
      assert EventsOf(sents)[..n] == EventsOf(sents[..n]);
    }
  }

  lemma NewestSnoc(sents: seq<Sent>, s: Sent, u: string)
    ensures Newest(sents + [s], u) == if Uid(s.event) == u then Some(s) else Newest(sents, u)
  {
    assert (sents + [s])[..|sents|] == sents;
  }

  /** A cached hash is that of the newest arrival, unless that one was not reported. */
  ghost predicate CachesReported<H>(
      hash: KubernetesResource -> Option<H>, cache: map<string, H>, newest: Option<Sent>, u: string)
  {
    u in cache ==>
      && newest.Some? && !newest.value.event.evtype.Delete?
      && (newest.value.ok ==> hash(newest.value.event.obj) == Some(cache[u]))
  }

  lemma {:induction false} SentKeepsReported<H>(
      hash: KubernetesResource -> Option<H>, d: Dedup<H>, newest: Option<Sent>, s: Sent, u: string)
    requires u != "" && CachesReported(hash, d.cache, newest, u) && (s.ok ==> s.delivered)
    ensures
      var arrives := s.delivered && !Suppresses(hash, d.cache, s.event);
      CachesReported(
        hash, Written(hash, d, Submission(s.event, s.ok)).cache,
        if arrives && Uid(s.event) == u then Some(s) else newest, u)
  {
  }

  lemma {:induction false} ReachableReported<H>(hash: KubernetesResource -> Option<H>, sents: seq<Sent>, u: string)
    requires u != "" && Truthful(sents)
    ensures CachesReported(hash, Run(hash, Fresh(), Reported(sents)).cache, Newest(Arrived(hash, sents), u), u)
  {
    if sents == [] {
    } else {
      var n := |sents| - 1;
      ReachableReported(hash, sents[..n], u);
      var before, arrived := Run(hash, Fresh(), Reported(sents[..n])), Arrived(hash, sents[..n]);
      assert Reported(sents) == Reported(sents[..n]) + [Submission(sents[n].event, sents[n].ok)];
      RunSnoc(hash, Fresh(), Reported(sents[..n]), Submission(sents[n].event, sents[n].ok));
      SentKeepsReported(hash, before, Newest(arrived, u), sents[n], u);
      NewestSnoc(arrived, sents[n], u);
      assert arrived + [] == arrived;
    }
  }

  /**
    Exactly when a suppressed event leaves the consumer with something else: when the newest
    arrival for its UID was delivered without being reported, and carries other content.
   */
  lemma {:induction false} SuppressionMissesExactlyWhen<H(!new)>(
      hash: KubernetesResource -> Option<H>, sents: seq<Sent>, e: Event)
    requires Injective(hash) && Truthful(sents)
    requires Suppresses(hash, Run(hash, Fresh(), Reported(sents)).cache, e)
    ensures
      var newest := Newest(Arrived(hash, sents), Uid(e));
      && newest.Some?
      && (Lookup(ApplyAll(EMPTY_CONSUMER, EventsOf(Arrived(hash, sents))).store, Uid(e)) != Some(e.obj) <==>
          !newest.value.ok && newest.value.event.obj != e.obj)
  {
    var u := Uid(e);
    ReachableReported(hash, sents, u);
    NewestIsLast(Arrived(hash, sents), u);
    EntryIsLast(EventsOf(Arrived(hash, sents)), u);
  }
}
