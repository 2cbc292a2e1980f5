/**
  The publish path end to end: the notifications of all informers, each delivered by its own
  listener, so that their writes overlap; and, with failing writes, which entries are out of date.
 */
module ConcurrentReplica {
  import opened Resources
  import opened ContentDeduplicator
  import opened EventHandlers
  import opened DedupInterleaving

  /** The writes of a run of notifications, one after the other. */
  function Submitted(st: Settings, os: seq<Occurrence>): seq<Submission> {
    if os == [] then []
    else
      var o := os[|os| - 1];
      Submitted(st, os[..|os| - 1]) +
      if o.Notify? && st.Emits(o.n).Some? then [Submission(st.Emits(o.n).value, o.ok)] else []
  }

  lemma {:induction false} ReplayIsRun<H>(st: Settings, hash: KubernetesResource -> Option<H>, os: seq<Occurrence>)
    ensures Replay(st, hash, os).dedup == Run(hash, Fresh(), Submitted(st, os))
  {
    if os == [] {
    } else {
      var n := |os| - 1;
      ReplayIsRun(st, hash, os[..n]);
      var subs := Submitted(st, os[..n]);
      if os[n].Notify? && st.Emits(os[n].n).Some? {
        RunSnoc(hash, Fresh(), subs, Submission(st.Emits(os[n].n).value, os[n].ok));
      } else {
        assert subs + [] == subs;
      }
    }
  }

  /** The same writes with the same outcomes, in the same order for each UID. */
  ghost predicate SameWrites(a: seq<Submission>, b: seq<Submission>) {
    forall u :: u != "" ==> Only(a, u) == Only(b, u)
  }

  /**
    Whatever order the calls of different UIDs overlap in, the consumer's store is that of the
    notifications handled one at a time.
   */
  lemma {:induction false} ConcurrentStoreIsReplayed<H(!new)>(
      st: Settings, hash: KubernetesResource -> Option<H>, os: seq<Occurrence>, acts: seq<Action>, s: System<H>)
    requires Injective(hash)
    requires Reaches(hash, true, acts, s) && s.inflight == map[]
    requires SameWrites(s.returned, Submitted(st, os))
    ensures Held(EMPTY_CONSUMER, s.dedup.log).store == ConsumerOf(Replay(st, hash, os)).store
  {
    ReplayIsRun(st, hash, os);
    ConcurrentRunLinearizes(hash, acts, s);
    var r := Run(hash, Fresh(), Submitted(st, os));
    forall u | u != "" ensures OnlyLog(s.dedup.log, u) == OnlyLog(r.log, u) {
      RunSplitsByUid(hash, s.returned, u);
      RunSplitsByUid(hash, Submitted(st, os), u);
      assert OnlyLog(s.dedup.log, u) == OnlyLog(Run(hash, Fresh(), s.returned).log, u);
    }
    DedupInterleaving.SameStores(s.dedup.log, r.log);
  }

  /**
    End-to-end agreement with concurrent listeners. Once every call has returned, and up to
    `stale`, the consumer holds exactly the visible live objects.
   */
  lemma {:induction false} ConcurrentReplicaAgrees<H(!new)>(
      st: Settings, hash: KubernetesResource -> Option<H>, os: seq<Occurrence>, acts: seq<Action>, s: System<H>)
    requires Injective(hash) && Converts(st) && AllEvents(st) && GenuineRun(st, hash, os)
    requires Reaches(hash, true, acts, s) && s.inflight == map[]
    requires SameWrites(s.returned, Submitted(st, os))
    ensures
      var r, c := Replay(st, hash, os), Held(EMPTY_CONSUMER, s.dedup.log);
      Covers(st, r.live, r.stale, c) && Covered(st, r.live, r.stale, c)
  {
    ConcurrentStoreIsReplayed(st, hash, os, acts, s);
    ReplicaAgrees(st, hash, os);
  }

  lemma {:induction false} EventsOfOnly(subs: seq<Submission>, u: string)
    ensures Events(Only(subs, u)) == EventsFor(Events(subs), u)
  {
    if subs == [] {
    } else {
      var n := |subs| - 1;
      EventsOfOnly(subs[..n], u);
      assert Events(subs)[..n] == Events(subs[..n]);
      if Uid(subs[n].event) == u {
        EventsSnoc(Only(subs[..n], u), subs[n]);
      } else {
        assert Only(subs[..n], u) + [] == Only(subs[..n], u);
      }
    }
  }

  predicate AllOk(subs: seq<Submission>) {
    forall i :: 0 <= i < |subs| ==> subs[i].ok
  }

  lemma {:induction false} OnlyKeepsOk(subs: seq<Submission>, u: string)
    requires AllOk(subs)
    ensures AllOk(Only(subs, u))
  {
    if subs == [] {
    } else {
      OnlyKeepsOk(subs[..|subs| - 1], u);
    }
  }

  lemma OkDetermined(a: seq<Submission>, b: seq<Submission>)
    requires AllOk(a) && AllOk(b) && Events(a) == Events(b)
    ensures a == b
  {
    assert |a| == |Events(a)| == |b|;
    forall i | 0 <= i < |a| ensures a[i] == b[i] {
      assert Events(a)[i] == Events(b)[i];
    }
  }

  lemma {:induction false} SubmittedOk(st: Settings, os: seq<Occurrence>)
    requires AllWritesSucceed(os)
    ensures AllOk(Submitted(st, os))
  {
    if os == [] {
    } else {
      SubmittedOk(st, os[..|os| - 1]);
    }
  }

  /**
    When all writes succeed and the handlers are called in the order of the notifications, however
    their writes overlap: every visible object is in the consumer with its current content, and
    the two stores are equal exactly when `stale` is empty.
   */
  lemma {:induction false} ConcurrentAgreementAcrossResyncs<H(!new)>(
      st: Settings, hash: KubernetesResource -> Option<H>, os: seq<Occurrence>, acts: seq<Action>, s: System<H>)
    requires Injective(hash) && Converts(st) && AllEvents(st) && GenuineRun(st, hash, os)
    requires Reaches(hash, true, acts, s) && s.inflight == map[]
    requires s.calls == Events(Submitted(st, os)) && AllOk(s.returned) && AllWritesSucceed(os)
    ensures
      var r, c := Replay(st, hash, os), Held(EMPTY_CONSUMER, s.dedup.log);
      && Covers(st, r.live, {}, c)
      && (EventHandlers.SameStores(st, r.live, c) <==> r.stale == {})
  {
    SubmittedOk(st, os);
    forall u | u != "" ensures Only(s.returned, u) == Only(Submitted(st, os), u) {
      InterleavingIsInvisible(hash, acts, s, u);
      EventsOfOnly(Submitted(st, os), u);
      OnlyKeepsOk(s.returned, u);
      OnlyKeepsOk(Submitted(st, os), u);
      OkDetermined(Only(s.returned, u), Only(Submitted(st, os), u));
    }
    ConcurrentStoreIsReplayed(st, hash, os, acts, s);
    AgreementAcrossResyncs(st, hash, os);
  }

  // ------------------------------------------------------------------- exactly which entries are out of date

  /** The newest event for the UID is an ADD or UPDATE with this content. */
  predicate Carries(e: Option<Event>, obj: KubernetesResource) {
    e.Some? && !e.value.evtype.Delete? && e.value.obj == obj
  }

  /** For every visible live object, the newest event sent to the writer carries its content. */
  ghost predicate NewestIsLive(st: Settings, live: map<Key, K8sObject>, es: seq<Event>) {
    forall k :: k in live && !st.MustSkip(live[k]) ==> Carries(Last(es, live[k].uid), st.convert(live[k], Add))
  }

  lemma {:induction false} NotifyKeepsNewest(
      st: Settings, live: map<Key, K8sObject>, es: seq<Event>, n: Notification)
    requires Converts(st) && AllEvents(st) && WellKeyed(live) && Genuine(live, n) && NewestIsLive(st, live, es)
    ensures
      var e := st.Emits(n);
      NewestIsLive(st, Store(live, n), if e.None? then es else es + [e.value])
  {
    var e, live' := st.Emits(n), Store(live, n);
    if e.Some? {
      forall k | k in live' && !st.MustSkip(live'[k])
        ensures Carries(Last(es + [e.value], live'[k].uid), st.convert(live'[k], Add))
      {
        LastSnoc(es, e.value, live'[k].uid);
      }
    }
  }

  lemma {:induction false} ReachableNewest<H(!new)>(
      st: Settings, hash: KubernetesResource -> Option<H>, os: seq<Occurrence>)
    requires Injective(hash) && Converts(st) && AllEvents(st) && GenuineRun(st, hash, os)
    ensures NewestIsLive(st, Replay(st, hash, os).live, Events(Submitted(st, os)))
  {
    if os == [] {
    } else {
      var n := |os| - 1;
      ReachableNewest(st, hash, os[..n]);
      ReplicaAgrees(st, hash, os[..n]);
      var r, subs := Replay(st, hash, os[..n]), Submitted(st, os[..n]);
      if os[n].Notify? {
        NotifyKeepsNewest(st, r.live, Events(subs), os[n].n);
        if st.Emits(os[n].n).Some? {
          EventsSnoc(subs, Submission(st.Emits(os[n].n).value, os[n].ok));
        } else {
          assert subs + [] == subs;
        }
      }
    }
  }

  lemma {:induction false} ConsumerIsSurviving<H(!new)>(
      st: Settings, hash: KubernetesResource -> Option<H>, os: seq<Occurrence>)
    requires Injective(hash)
    ensures ConsumerOf(Replay(st, hash, os)) ==
      ApplyAll(EMPTY_CONSUMER, Surviving(hash, Fresh(), Submitted(st, os)))
  {
    ReplayIsRun(st, hash, os);
    SuppressionPreservesMeaning(hash, Fresh(), EMPTY_CONSUMER, Submitted(st, os));
  }

  /**
    Exactly which visible objects are out of date at the consumer after failing writes: those for
    which the newest surviving event does not carry what the newest event sent to the writer did.
   */
  lemma {:induction false} OutOfDateExactlyWhen<H(!new)>(
      st: Settings, hash: KubernetesResource -> Option<H>, os: seq<Occurrence>, k: Key)
    requires Injective(hash) && Converts(st) && AllEvents(st) && GenuineRun(st, hash, os)
    requires k in Replay(st, hash, os).live && !st.MustSkip(Replay(st, hash, os).live[k])
    ensures
      var o, subs := Replay(st, hash, os).live[k], Submitted(st, os);
      && Last(Events(subs), o.uid).Some?
      && (Lookup(ConsumerOf(Replay(st, hash, os)).store, o.uid) != Some(st.convert(o, Add)) <==>
          !Carries(Last(Surviving(hash, Fresh(), subs), o.uid), Last(Events(subs), o.uid).value.obj))
  {
    var o, subs := Replay(st, hash, os).live[k], Submitted(st, os);
    ReplicaAgrees(st, hash, os);
    ReachableNewest(st, hash, os);
    ConsumerIsSurviving(st, hash, os);
    EntryIsLast(Surviving(hash, Fresh(), subs), o.uid);
  }

  /** Exactly which UIDs the consumer holds: those whose newest surviving event is no DELETE. */
  lemma {:induction false} HeldExactlyWhen<H(!new)>(
      st: Settings, hash: KubernetesResource -> Option<H>, os: seq<Occurrence>, u: string)
    requires Injective(hash) && u != ""
    ensures
      var last := Last(Surviving(hash, Fresh(), Submitted(st, os)), u);
      u in ConsumerOf(Replay(st, hash, os)).store <==> last.Some? && !last.value.evtype.Delete?
  {
    ConsumerIsSurviving(st, hash, os);
    EntryIsLast(Surviving(hash, Fresh(), Submitted(st, os)), u);
  }
}
