/**
  Concurrent callers of the content deduplicator. Its lock guards only the map, so a call is
  several atomic steps: look up or evict, publish, record. Steps of different calls interleave.
 */
module DedupInterleaving {
  import opened Resources
  import opened ContentDeduplicator

  /** Where an in-flight call stands. `hashed` is the hash to record after a successful publish. */
  datatype Phase<H> = Entered | Publishing(hashed: Option<H>) | Recording(hashed: Option<H>)

  datatype Call<H> = Call(event: Event, phase: Phase<H>)

  /**
    `calls` (every call, in the order made), `returned` (finished calls with the outcome of their
    write, in the order finished) and `marks` (what was recorded in the cache or evicted from it,
    in that order) are history only: no step looks at them.
   */
  datatype System<H> = System(
    dedup: Dedup<H>,
    inflight: map<nat, Call<H>>,
    calls: seq<Event>,
    returned: seq<Submission>,
    marks: seq<Mark>)

  datatype Mark = Recorded(event: Event) | Evicted(uid: string)

  datatype Action = Enter(thread: nat, event: Event) | Advance(thread: nat, ok: bool)

  function Initial<H>(): System<H> {
    System(Fresh(), map[], [], [], [])
  }

  predicate Enabled<H>(s: System<H>, a: Action) {
    match a
    case Enter(t, _) => t !in s.inflight
    case Advance(t, _) => t in s.inflight
  }

  function Step<H(==)>(hash: KubernetesResource -> Option<H>, s: System<H>, a: Action): System<H>
    requires Enabled(s, a)
  {
    match a
    case Enter(t, e) => s.(inflight := s.inflight[t := Call(e, Entered)], calls := s.calls + [e])
    case Advance(t, ok) =>
      var c := s.inflight[t];
      match c.phase
      case Entered => LookUp(hash, s, t)
      case Publishing(hashed) =>
        var s' := s.(dedup := s.dedup.(log := s.dedup.log + [Attempt(c.event, ok)]));
        if ok && hashed.Some? then s'.(inflight := s.inflight[t := c.(phase := Recording(hashed))])
        else Return(s', t, ok)
      case Recording(hashed) =>
        var cache := if hashed.Some? then s.dedup.cache[Uid(c.event) := hashed.value] else s.dedup.cache;
        Return(s.(dedup := s.dedup.(cache := cache), marks := s.marks + [Recorded(c.event)]), t, true)
  }

  /** The first step of a call: everything `Write` does before it publishes. */
  function LookUp<H(==)>(hash: KubernetesResource -> Option<H>, s: System<H>, t: nat): System<H>
    requires t in s.inflight
  {
    var c := s.inflight[t];
    var u := Uid(c.event);
    var h := hash(c.event.obj);
    if u == "" then
      s.(inflight := s.inflight[t := c.(phase := Publishing(None))])
    else if c.event.evtype.Delete? || h.None? then
      s.(dedup := s.dedup.(cache := s.dedup.cache - {u}), marks := s.marks + [Evicted(u)],
         inflight := s.inflight[t := c.(phase := Publishing(None))])
    else if u in s.dedup.cache && s.dedup.cache[u] == h.value then
      Return(s, t, true)
    else
      s.(inflight := s.inflight[t := c.(phase := Publishing(h))])
  }

  function Return<H>(s: System<H>, t: nat, ok: bool): System<H>
    requires t in s.inflight
  {
    s.(inflight := s.inflight - {t}, returned := s.returned + [Submission(s.inflight[t].event, ok)])
  }

  /** Informer listeners deliver serially, so a UID is entered only once its previous call returned. */
  predicate SerialPerUid<H>(s: System<H>, a: Action) {
    a.Enter? && Uid(a.event) != "" ==>
      forall t :: t in s.inflight ==> Uid(s.inflight[t].event) != Uid(a.event)
  }

  /** The interleaving `acts` leads to `s`; a `serial` one never overlaps two calls for one UID. */
  ghost predicate Reaches<H(!new)>(
      hash: KubernetesResource -> Option<H>, serial: bool, acts: seq<Action>, s: System<H>)
  {
    if acts == [] then s == Initial()
    else
      var n := |acts| - 1;
      exists s0 ::
        && Reaches(hash, serial, acts[..n], s0)
        && Enabled(s0, acts[n]) && (serial ==> SerialPerUid(s0, acts[n]))
        && s == Step(hash, s0, acts[n])
  }

  /** The submissions for one UID, in order. */
  function Only(subs: seq<Submission>, u: string): seq<Submission> {
    if subs == [] then []
    else
      var s := subs[|subs| - 1];
      Only(subs[..|subs| - 1], u) + if Uid(s.event) == u then [s] else []
  }

  function OnlyLog(log: seq<Attempt>, u: string): seq<Attempt> {
    if log == [] then []
    else
      var a := log[|log| - 1];
      OnlyLog(log[..|log| - 1], u) + if Uid(a.event) == u then [a] else []
  }

  lemma OnlySnoc(subs: seq<Submission>, s: Submission, u: string)
    ensures Only(subs + [s], u) == if Uid(s.event) == u then Only(subs, u) + [s] else Only(subs, u)
  {
    assert (subs + [s])[..|subs|] == subs;
    assert Only(subs, u) + [] == Only(subs, u);
  }

  lemma OnlyLogSnoc(log: seq<Attempt>, a: Attempt, u: string)
    ensures OnlyLog(log + [a], u) == if Uid(a.event) == u then OnlyLog(log, u) + [a] else OnlyLog(log, u)
  {
    assert (log + [a])[..|log|] == log;
    assert OnlyLog(log, u) + [] == OnlyLog(log, u);
  }

  /** The sequential writer, fed with what has returned for `u`. */
  function Alone<H(==)>(hash: KubernetesResource -> Option<H>, s: System<H>, u: string): Dedup<H> {
    Run(hash, Fresh(), Only(s.returned, u))
  }

  /** Calls in flight never share a UID. */
  ghost predicate Disjoint<H>(s: System<H>) {
    forall t, t' :: t in s.inflight && t' in s.inflight && t != t' ==>
      Uid(s.inflight[t].event) == "" || Uid(s.inflight[t].event) != Uid(s.inflight[t'].event)
  }

  ghost predicate Idle<H>(s: System<H>, u: string) {
    forall t :: t in s.inflight ==> Uid(s.inflight[t].event) != u
  }

  /** No call for `u` in flight: its part of the state is what the sequential writer makes of its calls. */
  ghost predicate MatchesAlone<H>(hash: KubernetesResource -> Option<H>, s: System<H>, u: string) {
    var seqd := Alone(hash, s, u);
    && Lookup(s.dedup.cache, u) == Lookup(seqd.cache, u)
    && OnlyLog(s.dedup.log, u) == seqd.log
  }

  /** The call `c` is mid-way, and `u`'s state is the sequential one plus its steps so far. */
  ghost predicate MatchesMidway<H>(hash: KubernetesResource -> Option<H>, s: System<H>, c: Call<H>) {
    var u := Uid(c.event);
    var seqd := Alone(hash, s, u);
    var keeps := Lookup(s.dedup.cache, u) == Lookup(seqd.cache, u);
    var evicts := c.event.evtype.Delete? || hash(c.event.obj).None?;
    match c.phase
    case Entered => keeps && OnlyLog(s.dedup.log, u) == seqd.log
    case Publishing(hashed) =>
      && OnlyLog(s.dedup.log, u) == seqd.log
      && (if evicts then hashed == None && Lookup(s.dedup.cache, u) == None
          else keeps && hashed == hash(c.event.obj) && Lookup(seqd.cache, u) != hashed)
    case Recording(hashed) =>
      && !evicts && keeps && hashed == hash(c.event.obj) && Lookup(seqd.cache, u) != hashed
      && OnlyLog(s.dedup.log, u) == seqd.log + [Attempt(c.event, true)]
  }

  /** Calls made for `u` are those that returned, then the one in flight. */
  ghost predicate InOrder<H>(s: System<H>, u: string) {
    && (Idle(s, u) ==> EventsFor(s.calls, u) == Events(Only(s.returned, u)))
    && (forall t :: t in s.inflight && Uid(s.inflight[t].event) == u ==>
          EventsFor(s.calls, u) == Events(Only(s.returned, u)) + [s.inflight[t].event])
  }

  ghost predicate Tracks<H>(hash: KubernetesResource -> Option<H>, s: System<H>, u: string) {
    && InOrder(s, u)
    && (Idle(s, u) ==> MatchesAlone(hash, s, u))
    && (forall t :: t in s.inflight && Uid(s.inflight[t].event) == u ==> MatchesMidway(hash, s, s.inflight[t]))
  }

  /** UID-less calls may overlap freely; each is published once, when it returns, and leaves the cache alone. */
  ghost predicate TracksUntracked<H>(hash: KubernetesResource -> Option<H>, s: System<H>) {
    && MatchesAlone(hash, s, "")
    && forall t :: t in s.inflight && Uid(s.inflight[t].event) == "" ==>
      s.inflight[t].phase in {Entered, Publishing(None)}
  }

  lemma EventsSnoc(subs: seq<Submission>, s: Submission)
    ensures Events(subs + [s]) == Events(subs) + [s.event]
  {
  }

  /** How many steps are left to a call at most. */
  function StepsLeft<H>(p: Phase<H>): nat {
    match p
    case Entered => 3
    case Publishing(_) => 2
    case Recording(_) => 1
  }

  /**
    Calls return: each step of a call brings it closer to its return, or returns it with its own
    event, whatever the hash and the real writer answer. So no call takes more than three steps,
    and it returns an error exactly when it published and the real writer failed.
   */
  lemma {:induction false} CallsReturn<H>(hash: KubernetesResource -> Option<H>, s: System<H>, t: nat, ok: bool)
    requires t in s.inflight
    ensures
      var s', c := Step(hash, s, Advance(t, ok)), s.inflight[t];
      if t in s'.inflight then
        && s'.inflight[t].event == c.event && StepsLeft(s'.inflight[t].phase) < StepsLeft(c.phase)
        && s'.returned == s.returned
      else s'.returned == s.returned + [Submission(c.event, ok || !c.phase.Publishing?)]
  {
  }

  /** The UID a step works on. */
  function Subject<H>(s: System<H>, a: Action): string
    requires Enabled(s, a)
  {
    Uid(if a.Enter? then a.event else s.inflight[a.thread].event)
  }

  /** A step touches only its own thread, whose event never changes. */
  lemma {:induction false} StepMovesOneThread<H>(hash: KubernetesResource -> Option<H>, s: System<H>, a: Action)
    requires Enabled(s, a)
    ensures
      var s' := Step(hash, s, a);
      && (forall t :: t in s'.inflight && t != a.thread ==> t in s.inflight && s'.inflight[t] == s.inflight[t])
      && (forall t :: t in s.inflight && t != a.thread ==> t in s'.inflight)
      && (a.thread in s'.inflight ==> Uid(s'.inflight[a.thread].event) == Subject(s, a))
  {
  }

  /** What the state says about one UID. */
  datatype View<H> = View(cached: Option<H>, log: seq<Attempt>, returned: seq<Submission>, calls: seq<Event>)

  function ViewOf<H>(s: System<H>, u: string): View<H> {
    View(Lookup(s.dedup.cache, u), OnlyLog(s.dedup.log, u), Only(s.returned, u), EventsFor(s.calls, u))
  }

  lemma {:induction false} ReturnLeavesOthers<H>(s: System<H>, t: nat, ok: bool, u: string)
    requires t in s.inflight && u != Uid(s.inflight[t].event)
    ensures ViewOf(Return(s, t, ok), u) == ViewOf(s, u)
  {
    OnlySnoc(s.returned, Submission(s.inflight[t].event, ok), u);
  }

  lemma {:induction false} LookUpLeavesOthers<H>(hash: KubernetesResource -> Option<H>, s: System<H>, t: nat, u: string)
    requires t in s.inflight && u != Uid(s.inflight[t].event)
    ensures ViewOf(LookUp(hash, s, t), u) == ViewOf(s, u)
  {
    var s' := LookUp(hash, s, t);
    if s'.returned != s.returned {
      assert s' == Return(s, t, true);
      ReturnLeavesOthers(s, t, true, u);
    } else {
      assert s'.dedup.log == s.dedup.log && s'.calls == s.calls;
      assert Lookup(s'.dedup.cache, u) == Lookup(s.dedup.cache, u);
    }
  }

  /** A step leaves every other UID's part of the state alone. */
  lemma {:induction false} StepLeavesOthers<H>(
      hash: KubernetesResource -> Option<H>, s: System<H>, a: Action, u: string)
    requires Enabled(s, a)
    requires u != Subject(s, a)
    ensures ViewOf(Step(hash, s, a), u) == ViewOf(s, u)
  {
    match a
    case Enter(t, e) => EventsForSnoc(s.calls, e, u);
    case Advance(t, ok) =>
      var c := s.inflight[t];
      match c.phase
      case Entered => LookUpLeavesOthers(hash, s, t, u);
      case Publishing(_) =>
        var s' := s.(dedup := s.dedup.(log := s.dedup.log + [Attempt(c.event, ok)]));
        OnlyLogSnoc(s.dedup.log, Attempt(c.event, ok), u);
        ReturnLeavesOthers(s', t, ok, u);
      case Recording(hashed) =>
        if hashed.Some? {
          var d := s.dedup.(cache := s.dedup.cache[Uid(c.event) := hashed.value]);
          ReturnLeavesOthers(s.(dedup := d, marks := s.marks + [Recorded(c.event)]), t, true, u);
        } else {
          ReturnLeavesOthers(
            s.(dedup := s.dedup.(cache := s.dedup.cache), marks := s.marks + [Recorded(c.event)]), t, true, u);
        }
  }

  /** What is tracked about a UID depends on its view and its calls in flight. */
  lemma {:induction false} TrackedByView<H>(
      hash: KubernetesResource -> Option<H>, s: System<H>, s': System<H>, u: string)
    requires Tracks(hash, s, u) && ViewOf(s', u) == ViewOf(s, u)
    requires forall t :: t in s'.inflight && Uid(s'.inflight[t].event) == u ==>
      t in s.inflight && s.inflight[t] == s'.inflight[t]
    requires forall t :: t in s.inflight && Uid(s.inflight[t].event) == u ==>
      t in s'.inflight && s.inflight[t] == s'.inflight[t]
    ensures Tracks(hash, s', u)
  {
    assert Alone(hash, s', u) == Alone(hash, s, u);
    assert Idle(s', u) ==> Idle(s, u);
  }

  lemma {:induction false} OthersStillTracked<H>(
      hash: KubernetesResource -> Option<H>, s: System<H>, a: Action, u: string)
    requires Enabled(s, a)
    requires u != Subject(s, a) && Tracks(hash, s, u)
    ensures Tracks(hash, Step(hash, s, a), u)
  {
    StepMovesOneThread(hash, s, a);
    StepLeavesOthers(hash, s, a, u);
    TrackedByView(hash, s, Step(hash, s, a), u);
  }

  lemma {:induction false} EnteredIsTracked<H>(hash: KubernetesResource -> Option<H>, s: System<H>, a: Action)
    requires Enabled(s, a) && a.Enter? && SerialPerUid(s, a)
    requires Uid(a.event) != "" && Tracks(hash, s, Uid(a.event))
    ensures Tracks(hash, Step(hash, s, a), Uid(a.event))
  {
    EventsForSnoc(s.calls, a.event, Uid(a.event));
    assert a.thread in Step(hash, s, a).inflight;
  }

  /** The calls for `u` in flight are `c` alone, or none. */
  ghost predicate Sole<H>(s: System<H>, t: nat, u: string) {
    forall t' :: t' in s.inflight && Uid(s.inflight[t'].event) == u ==> t' == t
  }

  lemma {:induction false} ReturnIsTracked<H>(hash: KubernetesResource -> Option<H>, s: System<H>, t: nat, ok: bool)
    requires t in s.inflight
    requires Sole(s, t, Uid(s.inflight[t].event)) && InOrder(s, Uid(s.inflight[t].event))
    requires
      var c := s.inflight[t];
      var u := Uid(c.event);
      var d := Written(hash, Alone(hash, s, u), Submission(c.event, ok));
      Lookup(s.dedup.cache, u) == Lookup(d.cache, u) && OnlyLog(s.dedup.log, u) == d.log
    ensures Tracks(hash, Return(s, t, ok), Uid(s.inflight[t].event))
  {
    var e := s.inflight[t].event;
    OnlySnoc(s.returned, Submission(e, ok), Uid(e));
    RunSnoc(hash, Fresh(), Only(s.returned, Uid(e)), Submission(e, ok));
    EventsSnoc(Only(s.returned, Uid(e)), Submission(e, ok));
  }

  /** A call that moved to its next phase without returning is still tracked. */
  lemma {:induction false} MoveIsTracked<H>(hash: KubernetesResource -> Option<H>, s: System<H>, s': System<H>, t: nat)
    requires t in s.inflight && InOrder(s, Uid(s.inflight[t].event))
    requires t in s'.inflight && s'.inflight[t].event == s.inflight[t].event
    requires s'.calls == s.calls && s'.returned == s.returned
    requires Sole(s', t, Uid(s.inflight[t].event)) && MatchesMidway(hash, s', s'.inflight[t])
    ensures Tracks(hash, s', Uid(s.inflight[t].event))
  {
  }

  lemma {:induction false} LookUpIsTracked<H>(hash: KubernetesResource -> Option<H>, s: System<H>, t: nat)
    requires t in s.inflight && s.inflight[t].phase.Entered?
    requires Uid(s.inflight[t].event) != "" && Sole(s, t, Uid(s.inflight[t].event))
    requires Tracks(hash, s, Uid(s.inflight[t].event))
    ensures Tracks(hash, LookUp(hash, s, t), Uid(s.inflight[t].event))
  {
    if Suppresses(hash, s.dedup.cache, s.inflight[t].event) {
      ReturnIsTracked(hash, s, t, true);
    } else {
      assert MatchesMidway(hash, LookUp(hash, s, t), LookUp(hash, s, t).inflight[t]);
      MoveIsTracked(hash, s, LookUp(hash, s, t), t);
    }
  }

  lemma {:induction false} PublishIsTracked<H>(hash: KubernetesResource -> Option<H>, s: System<H>, a: Action)
    requires Enabled(s, a) && a.Advance? && s.inflight[a.thread].phase.Publishing?
    requires Uid(s.inflight[a.thread].event) != "" && Sole(s, a.thread, Uid(s.inflight[a.thread].event))
    requires Tracks(hash, s, Uid(s.inflight[a.thread].event))
    ensures Tracks(hash, Step(hash, s, a), Uid(s.inflight[a.thread].event))
  {
    var c := s.inflight[a.thread];
    var log := s.dedup.log + [Attempt(c.event, a.ok)];
    OnlyLogSnoc(s.dedup.log, Attempt(c.event, a.ok), Uid(c.event));
    if a.ok && c.phase.hashed.Some? {
      assert a.thread in Step(hash, s, a).inflight;
    } else {
      ReturnIsTracked(hash, s.(dedup := s.dedup.(log := log)), a.thread, a.ok);
    }
  }

  lemma {:induction false} RecordIsTracked<H>(hash: KubernetesResource -> Option<H>, s: System<H>, a: Action)
    requires Enabled(s, a) && a.Advance? && s.inflight[a.thread].phase.Recording?
    requires Uid(s.inflight[a.thread].event) != "" && Sole(s, a.thread, Uid(s.inflight[a.thread].event))
    requires Tracks(hash, s, Uid(s.inflight[a.thread].event))
    ensures Tracks(hash, Step(hash, s, a), Uid(s.inflight[a.thread].event))
  {
    var c := s.inflight[a.thread];
    var cache := s.dedup.cache[Uid(c.event) := c.phase.hashed.value];
    ReturnIsTracked(hash, s.(dedup := s.dedup.(cache := cache)), a.thread, true);
  }

  /** UID-less calls: whatever the step, what was published without a UID is what returned. */
  lemma {:induction false} UntrackedStep<H>(hash: KubernetesResource -> Option<H>, s: System<H>, a: Action)
    requires Enabled(s, a) && TracksUntracked(hash, s)
    ensures TracksUntracked(hash, Step(hash, s, a))
  {
    StepMovesOneThread(hash, s, a);
    if Subject(s, a) != "" {
      StepLeavesOthers(hash, s, a, "");
      assert ViewOf(s, "") == ViewOf(Step(hash, s, a), "");
    } else if a.Advance? {
      var e := s.inflight[a.thread].event;
      OnlyLogSnoc(s.dedup.log, Attempt(e, a.ok), "");
      OnlySnoc(s.returned, Submission(e, a.ok), "");
      RunSnoc(hash, Fresh(), Only(s.returned, ""), Submission(e, a.ok));
    }
  }

  ghost predicate Invariant<H>(hash: KubernetesResource -> Option<H>, s: System<H>) {
    && Disjoint(s)
    && TracksUntracked(hash, s)
    && forall u :: u != "" ==> Tracks(hash, s, u)
  }

  lemma {:induction false} StepKeepsInvariant<H>(hash: KubernetesResource -> Option<H>, s: System<H>, a: Action)
    requires Enabled(s, a) && SerialPerUid(s, a) && Invariant(hash, s)
    ensures Invariant(hash, Step(hash, s, a))
  {
    StepMovesOneThread(hash, s, a);
    UntrackedStep(hash, s, a);
    forall u | u != "" ensures Tracks(hash, Step(hash, s, a), u) {
      if u != Subject(s, a) {
        OthersStillTracked(hash, s, a, u);
      } else if a.Enter? {
        EnteredIsTracked(hash, s, a);
      } else {
        match s.inflight[a.thread].phase
        case Entered => LookUpIsTracked(hash, s, a.thread);
        case Publishing(_) => PublishIsTracked(hash, s, a);
        case Recording(_) => RecordIsTracked(hash, s, a);
      }
    }
  }

  lemma {:induction false} ReachableIsTracked<H(!new)>(
      hash: KubernetesResource -> Option<H>, acts: seq<Action>, s: System<H>)
    requires Reaches(hash, true, acts, s)
    ensures Invariant(hash, s)
  {
    if acts == [] {
      assert forall u: string :: Lookup(map[], u) == Option<H>.None;
    } else {
      var n := |acts| - 1;
      var s0 :| Reaches(hash, true, acts[..n], s0) && Enabled(s0, acts[n]) && SerialPerUid(s0, acts[n])
                && s == Step(hash, s0, acts[n]);
      ReachableIsTracked(hash, acts[..n], s0);
      StepKeepsInvariant(hash, s0, acts[n]);
    }
  }

  /**
    Interleaving safety. Whatever other UIDs' calls do in between, a UID without a call in
    flight has had the same attempts, and has the same cache entry, as running its calls one
    after the other in the order they were made.
   */
  lemma {:induction false} InterleavingIsInvisible<H(!new)>(
      hash: KubernetesResource -> Option<H>, acts: seq<Action>, s: System<H>, u: string)
    requires Reaches(hash, true, acts, s)
    requires u != "" && Idle(s, u)
    ensures
      var subs := Only(s.returned, u);
      && Events(subs) == EventsFor(s.calls, u)
      && OnlyLog(s.dedup.log, u) == Run(hash, Fresh(), subs).log
      && Lookup(s.dedup.cache, u) == Lookup(Run(hash, Fresh(), subs).cache, u)
  {
    ReachableIsTracked(hash, acts, s);
    assert Tracks(hash, s, u);
  }

  /** One UID's part of the sequential writer. */
  ghost predicate Splits<H>(all: Dedup<H>, alone: Dedup<H>, u: string) {
    OnlyLog(all.log, u) == alone.log && Lookup(all.cache, u) == Lookup(alone.cache, u)
  }

  lemma {:induction false} OwnWriteSplits<H>(
      hash: KubernetesResource -> Option<H>, all: Dedup<H>, alone: Dedup<H>, s: Submission)
    requires Splits(all, alone, Uid(s.event))
    ensures Splits(Written(hash, all, s), Written(hash, alone, s), Uid(s.event))
  {
    OnlyLogSnoc(all.log, Attempt(s.event, s.ok), Uid(s.event));
    assert Suppresses(hash, all.cache, s.event) == Suppresses(hash, alone.cache, s.event);
  }

  lemma {:induction false} OtherWriteKeepsLog<H>(
      hash: KubernetesResource -> Option<H>, d: Dedup<H>, s: Submission, u: string)
    requires Uid(s.event) != u
    ensures OnlyLog(Written(hash, d, s).log, u) == OnlyLog(d.log, u)
  {
    var log := Written(hash, d, s).log;
    if log != d.log {
      assert log == d.log + [Attempt(s.event, s.ok)];
      OnlyLogSnoc(d.log, Attempt(s.event, s.ok), u);
    }
  }

  lemma {:induction false} OtherWriteKeepsEntry<H>(
      hash: KubernetesResource -> Option<H>, d: Dedup<H>, s: Submission, u: string)
    requires Uid(s.event) != u
    ensures Lookup(Written(hash, d, s).cache, u) == Lookup(d.cache, u)
  {
  }

  lemma {:induction false} OtherWriteSplits<H>(
      hash: KubernetesResource -> Option<H>, all: Dedup<H>, alone: Dedup<H>, s: Submission, u: string)
    requires Splits(all, alone, u) && Uid(s.event) != u
    ensures Splits(Written(hash, all, s), alone, u)
  {
    OtherWriteKeepsLog(hash, all, s, u);
    OtherWriteKeepsEntry(hash, all, s, u);
  }

  /** The sequential writer treats each UID separately. */
  lemma {:induction false} RunSplitsByUid<H>(hash: KubernetesResource -> Option<H>, subs: seq<Submission>, u: string)
    ensures Splits(Run(hash, Fresh(), subs), Run(hash, Fresh(), Only(subs, u)), u)
  {
    if subs == [] {
    } else {
      var n := |subs| - 1;
      RunSplitsByUid(hash, subs[..n], u);
      var all, alone := Run(hash, Fresh(), subs[..n]), Run(hash, Fresh(), Only(subs[..n], u));
      assert subs == subs[..n] + [subs[n]];
      OnlySnoc(subs[..n], subs[n], u);
      if Uid(subs[n].event) == u {
        OwnWriteSplits(hash, all, alone, subs[n]);
        RunSnoc(hash, Fresh(), Only(subs[..n], u), subs[n]);
      } else {
        OtherWriteSplits(hash, all, alone, subs[n], u);
      }
    }
  }

  lemma ApplySplits(c: Consumer, c': Consumer, e: Event, u: string)
    requires u != "" && Lookup(c.store, u) == Lookup(c'.store, u)
    ensures Lookup(Apply(c, e).store, u) == Lookup((if Uid(e) == u then Apply(c', e) else c').store, u)
  {
  }

  /** The consumer's entry for `u` depends on the attempts for `u` alone. */
  lemma {:induction false} ConsumerSplitsByUid(log: seq<Attempt>, u: string)
    requires u != ""
    ensures
      Lookup(Held(EMPTY_CONSUMER, log).store, u) == Lookup(Held(EMPTY_CONSUMER, OnlyLog(log, u)).store, u)
  {
    if log == [] {
    } else {
      var n := |log| - 1;
      ConsumerSplitsByUid(log[..n], u);
      assert log == log[..n] + [log[n]];
      OnlyLogSnoc(log[..n], log[n], u);
      HeldSnoc(EMPTY_CONSUMER, log[..n], log[n]);
      HeldSnoc(EMPTY_CONSUMER, OnlyLog(log[..n], u), log[n]);
      ApplySplits(Held(EMPTY_CONSUMER, log[..n]), Held(EMPTY_CONSUMER, OnlyLog(log[..n], u)), log[n].event, u);
    }
  }

  lemma SameLookups<V>(a: map<string, V>, b: map<string, V>)
    requires forall u :: Lookup(a, u) == Lookup(b, u)
    ensures a == b
  {
    assert forall u :: u in a ==> Lookup(a, u) == Lookup(b, u);
    assert forall u :: u in b ==> Lookup(a, u) == Lookup(b, u);
  }

  lemma {:induction false} NoEmptyUid(es: seq<Event>)
    ensures "" !in ApplyAll(EMPTY_CONSUMER, es).store
  {
    if es == [] {
    } else {
      NoEmptyUid(es[..|es| - 1]);
    }
  }

  /** The UID-less events the consumer holds depend on the UID-less attempts alone. */
  lemma {:induction false} UntrackedSplits(log: seq<Attempt>)
    ensures Held(EMPTY_CONSUMER, log).untracked == Held(EMPTY_CONSUMER, OnlyLog(log, "")).untracked
  {
    if log == [] {
    } else {
      var n := |log| - 1;
      UntrackedSplits(log[..n]);
      assert log == log[..n] + [log[n]];
      OnlyLogSnoc(log[..n], log[n], "");
      HeldSnoc(EMPTY_CONSUMER, log[..n], log[n]);
      HeldSnoc(EMPTY_CONSUMER, OnlyLog(log[..n], ""), log[n]);
    }
  }

  lemma SameStores(log: seq<Attempt>, log': seq<Attempt>)
    requires forall u :: u != "" ==> OnlyLog(log, u) == OnlyLog(log', u)
    ensures Held(EMPTY_CONSUMER, log).store == Held(EMPTY_CONSUMER, log').store
  {
    NoEmptyUid(Delivered(log));
    NoEmptyUid(Delivered(log'));
    forall u ensures Lookup(Held(EMPTY_CONSUMER, log).store, u) == Lookup(Held(EMPTY_CONSUMER, log').store, u) {
      if u != "" {
        ConsumerSplitsByUid(log, u);
        ConsumerSplitsByUid(log', u);
        assert OnlyLog(log, u) == OnlyLog(log', u);
      }
    }
    SameLookups(Held(EMPTY_CONSUMER, log).store, Held(EMPTY_CONSUMER, log').store);
  }

  lemma SameConsumers(log: seq<Attempt>, log': seq<Attempt>)
    requires forall u :: OnlyLog(log, u) == OnlyLog(log', u)
    ensures Held(EMPTY_CONSUMER, log) == Held(EMPTY_CONSUMER, log')
  {
    SameStores(log, log');
    UntrackedSplits(log);
    UntrackedSplits(log');
    assert OnlyLog(log, "") == OnlyLog(log', "");
  }

  /**
    Once every call has returned, the concurrent execution is equivalent to the sequential one
    that takes the calls in the order they returned: same cache, same attempts for each UID, and
    a consumer, UID-less events included, that is what all events would have made it, bar those
    whose write failed.
   */
  lemma {:induction false} ConcurrentRunLinearizes<H(!new)>(
      hash: KubernetesResource -> Option<H>, acts: seq<Action>, s: System<H>)
    requires Injective(hash)
    requires Reaches(hash, true, acts, s) && s.inflight == map[]
    ensures
      var r := Run(hash, Fresh(), s.returned);
      && s.dedup.cache == r.cache
      && (forall u :: OnlyLog(s.dedup.log, u) == OnlyLog(r.log, u))
      && Held(EMPTY_CONSUMER, s.dedup.log) == ApplyAll(EMPTY_CONSUMER, Surviving(hash, Fresh(), s.returned))
  {
    ReachableIsTracked(hash, acts, s);
    var r := Run(hash, Fresh(), s.returned);
    forall u
      ensures Lookup(s.dedup.cache, u) == Lookup(r.cache, u)
      ensures OnlyLog(s.dedup.log, u) == OnlyLog(r.log, u)
    {
      RunSplitsByUid(hash, s.returned, u);
      assert u != "" ==> Tracks(hash, s, u);
    }
    SameLookups(s.dedup.cache, r.cache);
    SameConsumers(s.dedup.log, r.log);
    SuppressionPreservesMeaning(hash, Fresh(), EMPTY_CONSUMER, s.returned);
  }

  lemma {:induction false} ReachesSnoc<H(!new)>(
      hash: KubernetesResource -> Option<H>, serial: bool, acts: seq<Action>, s: System<H>, a: Action)
    requires Reaches(hash, serial, acts, s)
    requires Enabled(s, a) && (serial ==> SerialPerUid(s, a))
    ensures Reaches(hash, serial, acts + [a], Step(hash, s, a))
  {
    assert (acts + [a])[..|acts|] == acts;
  }

  lemma {:induction false} Take<H(!new)>(
      hash: KubernetesResource -> Option<H>, acts: seq<Action>, s: System<H>, a: Action)
    returns (s': System<H>, acts': seq<Action>)
    requires Reaches(hash, false, acts, s) && Enabled(s, a)
    ensures s' == Step(hash, s, a) && Reaches(hash, false, acts', s')
  {
    ReachesSnoc(hash, false, acts, s, a);
    s', acts' := Step(hash, s, a), acts + [a];
  }

  /** Two updates of one UID. */
  ghost predicate Rivals<H>(hash: KubernetesResource -> Option<H>, a: Event, b: Event) {
    && Uid(a) == Uid(b) != ""
    && Upserts(hash, a, Uid(a)) && Upserts(hash, b, Uid(a)) && hash(a.obj) != hash(b.obj)
  }

  lemma {:induction false} BothEnter<H(!new)>(hash: KubernetesResource -> Option<H>, a: Event, b: Event)
    returns (s: System<H>, acts: seq<Action>)
    ensures Reaches(hash, false, acts, s)
    ensures s == System(Fresh(), map[0 := Call(a, Entered), 1 := Call(b, Entered)], [a, b], [], [])
  {
    s, acts := Initial(), [];
    s, acts := Take(hash, acts, s, Enter(0, a));
    s, acts := Take(hash, acts, s, Enter(1, b));
  }

  lemma {:induction false} OneLooksUp<H(!new)>(hash: KubernetesResource -> Option<H>, a: Event, b: Event)
    returns (s: System<H>, acts: seq<Action>)
    requires Rivals(hash, a, b)
    ensures Reaches(hash, false, acts, s)
    ensures s == System(Fresh(), map[0 := Call(a, Publishing(hash(a.obj))), 1 := Call(b, Entered)], [a, b], [], [])
  {
    s, acts := BothEnter(hash, a, b);
    s, acts := Take(hash, acts, s, Advance(0, true));
  }

  lemma {:induction false} BothLookUp<H(!new)>(hash: KubernetesResource -> Option<H>, a: Event, b: Event)
    returns (s: System<H>, acts: seq<Action>)
    requires Rivals(hash, a, b)
    ensures Reaches(hash, false, acts, s)
    ensures s == System(Fresh(),
      map[0 := Call(a, Publishing(hash(a.obj))), 1 := Call(b, Publishing(hash(b.obj)))], [a, b], [], [])
  {
    s, acts := OneLooksUp(hash, a, b);
    s, acts := Take(hash, acts, s, Advance(1, true));
  }

  lemma {:induction false} OnePublishes<H(!new)>(hash: KubernetesResource -> Option<H>, a: Event, b: Event)
    returns (s: System<H>, acts: seq<Action>)
    requires Rivals(hash, a, b)
    ensures Reaches(hash, false, acts, s)
    ensures s == System(Dedup(map[], [Attempt(a, true)]),
      map[0 := Call(a, Recording(hash(a.obj))), 1 := Call(b, Publishing(hash(b.obj)))], [a, b], [], [])
  {
    s, acts := BothLookUp(hash, a, b);
    s, acts := Take(hash, acts, s, Advance(0, true));
  }

  lemma {:induction false} BothPublish<H(!new)>(hash: KubernetesResource -> Option<H>, a: Event, b: Event)
    returns (s: System<H>, acts: seq<Action>)
    requires Rivals(hash, a, b)
    ensures Reaches(hash, false, acts, s)
    ensures s == System(Dedup(map[], [Attempt(a, true), Attempt(b, true)]),
      map[0 := Call(a, Recording(hash(a.obj))), 1 := Call(b, Recording(hash(b.obj)))], [a, b], [], [])
  {
    s, acts := OnePublishes(hash, a, b);
    s, acts := Take(hash, acts, s, Advance(1, true));
  }

  lemma {:induction false} OneRecords<H(!new)>(hash: KubernetesResource -> Option<H>, a: Event, b: Event)
    returns (s: System<H>, acts: seq<Action>)
    requires Rivals(hash, a, b)
    ensures Reaches(hash, false, acts, s)
    ensures s == System(
      Dedup(map[Uid(b) := hash(b.obj).value], [Attempt(a, true), Attempt(b, true)]),
      map[0 := Call(a, Recording(hash(a.obj)))], [a, b], [Submission(b, true)], [Recorded(b)])
  {
    s, acts := BothPublish(hash, a, b);
    s, acts := Take(hash, acts, s, Advance(1, true));
  }

  lemma {:induction false} BothRecord<H(!new)>(hash: KubernetesResource -> Option<H>, a: Event, b: Event)
    returns (s: System<H>, acts: seq<Action>)
    requires Rivals(hash, a, b)
    ensures Reaches(hash, false, acts, s)
    ensures s == System(
      Dedup(map[Uid(a) := hash(a.obj).value], [Attempt(a, true), Attempt(b, true)]),
      map[], [a, b], [Submission(b, true), Submission(a, true)],
      [Recorded(b), Recorded(a)])
  {
    s, acts := OneRecords(hash, a, b);
    s, acts := Take(hash, acts, s, Advance(0, true));
  }

  /**
    Why calls for one UID must not overlap. Let `a` and `b` both look up an empty cache, publish
    in that order and record in the other: the cache then vouches for `a` while the consumer
    holds `b`, and the next `a` is suppressed. Every write succeeded, and the consumer is stuck.
   */
  lemma {:induction false} OverlapBreaksAgreement<H(!new)>(hash: KubernetesResource -> Option<H>, a: Event, b: Event)
    requires Rivals(hash, a, b)
    ensures exists acts, s ::
      && Reaches(hash, false, acts, s) && s.inflight == map[]
      && s.calls == [a, b, a]
      && s.dedup.log == [Attempt(a, true), Attempt(b, true)]
  {
    var s: System<H>, acts: seq<Action> := BothRecord(hash, a, b);
    s, acts := Take(hash, acts, s, Enter(2, a));
    s, acts := Take(hash, acts, s, Advance(2, true));
  }

  // ------------------------------------------------------------------- overlapping calls, exactly

  /** The event whose hash is cached for the UID, told from the order of recordings and evictions. */
  function LastRecorded(marks: seq<Mark>, u: string): Option<Event> {
    if marks == [] then None
    else
      match marks[|marks| - 1]
      case Recorded(e) => if Uid(e) == u then Some(e) else LastRecorded(marks[..|marks| - 1], u)
      case Evicted(v) => if v == u then None else LastRecorded(marks[..|marks| - 1], u)
  }

  lemma LastRecordedSnoc(marks: seq<Mark>, m: Mark, u: string)
    ensures LastRecorded(marks + [m], u) ==
      match m
      case Recorded(e) => if Uid(e) == u then Some(e) else LastRecorded(marks, u)
      case Evicted(v) => if v == u then None else LastRecorded(marks, u)
  {
    assert (marks + [m])[..|marks|] == marks;
  }

  /** A call records the hash of its own event, which is a hashable ADD or UPDATE with a UID. */
  ghost predicate RecordsOwn<H>(hash: KubernetesResource -> Option<H>, c: Call<H>) {
    && (c.phase.Publishing? && c.phase.hashed.Some? ==>
          Uid(c.event) != "" && Upserts(hash, c.event, Uid(c.event)) && c.phase.hashed == hash(c.event.obj))
    && (c.phase.Recording? ==>
          Uid(c.event) != "" && Upserts(hash, c.event, Uid(c.event)) && c.phase.hashed == hash(c.event.obj))
  }

  lemma {:induction false} StepKeepsOwn<H>(hash: KubernetesResource -> Option<H>, s: System<H>, a: Action)
    requires Enabled(s, a) && forall t :: t in s.inflight ==> RecordsOwn(hash, s.inflight[t])
    ensures forall t :: t in Step(hash, s, a).inflight ==> RecordsOwn(hash, Step(hash, s, a).inflight[t])
  {
  }

  ghost predicate MarksMatch<H>(hash: KubernetesResource -> Option<H>, s: System<H>, u: string) {
    match LastRecorded(s.marks, u)
    case None => Lookup(s.dedup.cache, u) == None
    case Some(r) => u != "" && Upserts(hash, r, u) && Lookup(s.dedup.cache, u) == hash(r.obj)
  }

  lemma {:induction false} StepKeepsMarks<H>(hash: KubernetesResource -> Option<H>, s: System<H>, a: Action, u: string)
    requires Enabled(s, a) && MarksMatch(hash, s, u)
    requires forall t :: t in s.inflight ==> RecordsOwn(hash, s.inflight[t])
    ensures MarksMatch(hash, Step(hash, s, a), u)
  {
    if a.Advance? {
      var c := s.inflight[a.thread];
      LastRecordedSnoc(s.marks, Recorded(c.event), u);
      LastRecordedSnoc(s.marks, Evicted(Uid(c.event)), u);
      assert RecordsOwn(hash, c);
    }
  }

  lemma {:induction false} ReachableMarks<H(!new)>(
      hash: KubernetesResource -> Option<H>, acts: seq<Action>, s: System<H>, u: string)
    requires Reaches(hash, false, acts, s)
    ensures MarksMatch(hash, s, u) && forall t :: t in s.inflight ==> RecordsOwn(hash, s.inflight[t])
  {
    if acts == [] {
    } else {
      var n := |acts| - 1;
      var s0 :| Reaches(hash, false, acts[..n], s0) && Enabled(s0, acts[n]) && s == Step(hash, s0, acts[n]);
      ReachableMarks(hash, acts[..n], s0, u);
      StepKeepsOwn(hash, s0, acts[n]);
      StepKeepsMarks(hash, s0, acts[n], u);
    }
  }

  /** The newest event that the consumer received for the UID is an ADD or UPDATE with this content. */
  predicate LastDelivers(log: seq<Attempt>, u: string, obj: KubernetesResource) {
    var p := Last(Delivered(log), u);
    p.Some? && !p.value.evtype.Delete? && p.value.obj == obj
  }

  /**
    Exactly when suppression goes wrong, with calls overlapping in any way: an event is suppressed
    while the consumer holds something else when its content is the one recorded last for the UID,
    but not the one published last.
   */
  lemma {:induction false} OverlapMissesExactlyWhen<H(!new)>(
      hash: KubernetesResource -> Option<H>, acts: seq<Action>, s: System<H>, e: Event)
    requires Injective(hash) && Reaches(hash, false, acts, s)
    requires Uid(e) != "" && Upserts(hash, e, Uid(e))
    ensures
      var u := Uid(e);
      var recorded := LastRecorded(s.marks, u);
      Suppresses(hash, s.dedup.cache, e) && Lookup(Held(EMPTY_CONSUMER, s.dedup.log).store, u) != Some(e.obj) <==>
        recorded.Some? && recorded.value.obj == e.obj && !LastDelivers(s.dedup.log, u, e.obj)
  {
    ReachableMarks(hash, acts, s, Uid(e));
    EntryIsLast(Delivered(s.dedup.log), Uid(e));
  }
}
