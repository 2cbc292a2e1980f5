/**
  From informer notifications to published events: the handlers a registered informer installs,
  and the agreement between the informers' caches and the consumer over whole runs, including
  resyncs, which rebuild the informers while the deduplicator's cache survives.
 */
module EventHandlers {
  import opened Resources
  import opened ContentDeduplicator

  /** The resource type and the namespaced name: what an informer's store is keyed by. */
  datatype Key = Key(gvr: string, namespace: string, name: string)

  datatype K8sObject = K8sObject(key: Key, uid: string, resourceVersion: string, body: string)

  /** What a delete notification may carry: the object, a tombstone around it, or something else. */
  datatype DeletedValue = Plain(obj: K8sObject) | Tombstone(stale: DeletedValue) | Foreign

  datatype Notification =
    | Added(obj: K8sObject)
    | Updated(before: K8sObject, after: K8sObject)
    | Deleted(key: Key, value: DeletedValue)

  /** What the handlers of every informer share: cluster-wide settings and the conversion. */
  datatype Settings = Settings(
    namespaces: set<string>,
    cfg: string -> PipelineConfig,
    convert: (K8sObject, EventType) -> KubernetesResource)
  {
    predicate MustSkip(obj: K8sObject) {
      namespaces != {} && obj.key.namespace !in namespaces
    }

    function Publish(obj: K8sObject, evtype: EventType): Option<Event> {
      var c := cfg(obj.key.gvr);
      if evtype.Wire() !in c.events || MustSkip(obj) then None
      else Some(Event(convert(obj, evtype), evtype, c))
    }

    /** The event a notification turns into, if any. */
    function Emits(n: Notification): Option<Event> {
      match n
      case Added(o) => Publish(o, Add)
      case Updated(old_, new_) => if old_.resourceVersion == new_.resourceVersion then None else Publish(new_, Update)
      case Deleted(_, Plain(o)) => Publish(o, Delete)
      case Deleted(_, Tombstone(Plain(o))) => Publish(o, Delete)
      case Deleted(_, _) => None
    }
  }

  /** The handlers registered on one informer. */
  class RegisterInformer<H(==)> {
    const settings: Settings
    const config: PipelineConfig
    const outputWriter: ContentDeduplicatorWriter<H>

    constructor (settings: Settings, config: PipelineConfig, outputWriter: ContentDeduplicatorWriter<H>)
      ensures this.settings == settings && this.config == config && this.outputWriter == outputWriter
    {
      this.settings := settings;
      this.config := config;
      this.outputWriter := outputWriter;
    }

    ghost predicate Handles(obj: K8sObject) {
      settings.cfg(obj.key.gvr) == config
    }

    /** The writer took one event, or none. */
    twostate predicate Wrote(e: Option<Event>, err: bool)
      reads outputWriter, outputWriter.realWriter
    {
      outputWriter.State() ==
      if e.None? then old(outputWriter.State())
      else Written(outputWriter.hash, old(outputWriter.State()), Submission(e.value, !err))
    }

    method PublishItem(obj: Option<K8sObject>, evtype: EventType) returns (err: bool)
      requires obj.Some? ==> Handles(obj.value)
      modifies outputWriter`hashByUID, outputWriter.realWriter
      ensures Wrote(if obj.None? then None else settings.Publish(obj.value, evtype), err)
      ensures
        var log := outputWriter.realWriter.log;
        err <==> |log| > |old(outputWriter.realWriter.log)| && !log[|log| - 1].ok
    {
      if obj.None? {
        return false;
      }
      if evtype.Wire() !in config.events {
        return false;
      }
      var k8sResource := settings.convert(obj.value, evtype);
      if settings.MustSkip(obj.value) {
        return false;
      }
      err := outputWriter.Write(k8sResource, evtype, config);
    }

    method AddFunc(obj: K8sObject) returns (err: bool)
      requires Handles(obj)
      modifies outputWriter`hashByUID, outputWriter.realWriter
      ensures Wrote(settings.Emits(Added(obj)), err)
    {
      err := PublishItem(Some(obj), Add);
    }

    method UpdateFunc(before: K8sObject, after: K8sObject) returns (err: bool)
      requires Handles(after)
      modifies outputWriter`hashByUID, outputWriter.realWriter
      ensures Wrote(settings.Emits(Updated(before, after)), err)
    {
      err := false;
      if before.resourceVersion != after.resourceVersion {
        err := PublishItem(Some(after), Update);
      }
    }

    method DeleteFunc(ghost key: Key, value: DeletedValue) returns (err: bool)
      requires value.Plain? ==> Handles(value.obj)
      requires value.Tombstone? && value.stale.Plain? ==> Handles(value.stale.obj)
      modifies outputWriter`hashByUID, outputWriter.realWriter
      ensures Wrote(settings.Emits(Deleted(key, value)), err)
    {
      var v := value;
      if v.Tombstone? {
        v := v.stale;
      }
      if !v.Plain? {
        return false;
      }
      err := PublishItem(Some(v.obj), Delete);
    }
  }

  // ---------------------------------------------------------------- whole runs

  /** A notification with the outcome of its write, or a resync that rebuilds every informer. */
  datatype Occurrence = Notify(n: Notification, ok: bool) | Resync

  /**
    `live` is the union of the informers' stores. `stale` is history: the UIDs for which the
    consumer was left behind, because a write failed or no delete will ever be sent.
   */
  datatype Replica<H> = Replica(dedup: Dedup<H>, live: map<Key, K8sObject>, stale: set<string>)

  function Start<H>(): Replica<H> {
    Replica(Fresh(), map[], {})
  }

  function Observe<H(==)>(
      st: Settings, hash: KubernetesResource -> Option<H>, r: Replica<H>, o: Occurrence): Replica<H>
  {
    match o
    case Resync => Replica(r.dedup, map[], r.stale + VisibleUids(st, r.live))
    case Notify(n, ok) =>
      var live := Store(r.live, n);
      match st.Emits(n)
      case None => Replica(r.dedup, live, r.stale + Abandoned(st, r.live, n))
      case Some(e) =>
        var s := Submission(e, ok);
        var stale := r.stale + Abandoned(st, r.live, n);
        Replica(
          Written(hash, r.dedup, s), live,
          if WriteFails(hash, r.dedup, s) then stale + {Uid(e)} else stale - {Uid(e)})
  }

  /** The informer's own store after a notification. */
  function Store(live: map<Key, K8sObject>, n: Notification): map<Key, K8sObject> {
    match n
    case Added(o) => live[o.key := o]
    case Updated(_, o) => live[o.key := o]
    case Deleted(k, _) => live - {k}
  }

  /** UIDs that leave the informer's store without a delete ever being sent for them. */
  function Abandoned(st: Settings, live: map<Key, K8sObject>, n: Notification): set<string> {
    match n
    case Added(_) => {}
    case Updated(b, a) => if b.uid != a.uid && !st.MustSkip(b) then {b.uid} else {}
    case Deleted(k, _) =>
      if st.Emits(n).None? && k in live && !st.MustSkip(live[k]) then {live[k].uid} else {}
  }

  function VisibleUids(st: Settings, live: map<Key, K8sObject>): set<string> {
    set k | k in live && !st.MustSkip(live[k]) :: live[k].uid
  }

  function Replay<H(==)>(st: Settings, hash: KubernetesResource -> Option<H>, os: seq<Occurrence>): Replica<H> {
    if os == [] then Start()
    else Observe(st, hash, Replay(st, hash, os[..|os| - 1]), os[|os| - 1])
  }

  function ConsumerOf<H>(r: Replica<H>): Consumer {
    Held(EMPTY_CONSUMER, r.dedup.log)
  }

  /** The conversion keeps the UID and, but for DELETE, does not depend on the event type. */
  ghost predicate Converts(st: Settings) {
    && (forall o, t :: UidOf(st.convert(o, t)) == o.uid)
    && (forall o :: st.convert(o, Update) == st.convert(o, Add))
  }

  ghost predicate AllEvents(st: Settings) {
    forall g, t: EventType :: t.Wire() in st.cfg(g).events
  }

  /** No object stored under another key has this UID. */
  ghost predicate Unshared(live: map<Key, K8sObject>, key: Key, uid: string) {
    uid != "" && forall k :: k in live && k != key ==> live[k].uid != uid
  }

  /** What client-go and the API server promise of a notification. */
  ghost predicate Genuine(live: map<Key, K8sObject>, n: Notification) {
    match n
    case Added(o) => o.key !in live && Unshared(live, o.key, o.uid)
    case Updated(b, a) =>
      && a.key in live && live[a.key] == b && b.key == a.key && Unshared(live, a.key, a.uid)
      && (b.resourceVersion == a.resourceVersion ==> b == a)
    case Deleted(k, v) =>
      && k in live
      && (v.Plain? ==> v.obj.key == k && v.obj.uid == live[k].uid)
      && (v.Tombstone? && v.stale.Plain? ==> v.stale.obj.key == k && v.stale.obj.uid == live[k].uid)
  }

  ghost predicate GenuineRun<H>(st: Settings, hash: KubernetesResource -> Option<H>, os: seq<Occurrence>) {
    |os| == 0 ||
    var n := |os| - 1;
    && GenuineRun(st, hash, os[..n])
    && (os[n].Notify? ==> Genuine(Replay(st, hash, os[..n]).live, os[n].n))
  }

  /** Stored objects sit under their own key, with a UID no other object has. */
  ghost predicate WellKeyed(live: map<Key, K8sObject>) {
    forall k :: k in live ==> live[k].key == k && Unshared(live, k, live[k].uid)
  }

  /** The visible live objects outside `stale` are in the consumer, converted. */
  ghost predicate Covers(st: Settings, live: map<Key, K8sObject>, stale: set<string>, c: Consumer) {
    forall k :: k in live && !st.MustSkip(live[k]) && live[k].uid !in stale ==>
      live[k].uid in c.store && c.store[live[k].uid] == st.convert(live[k], Add)
  }

  /** The consumer's entries outside `stale` belong to visible live objects. */
  ghost predicate Covered(st: Settings, live: map<Key, K8sObject>, stale: set<string>, c: Consumer) {
    forall u :: u in c.store && u !in stale ==> u in VisibleUids(st, live)
  }

  function KeyOf(n: Notification): Key {
    match n
    case Added(o) => o.key
    case Updated(_, o) => o.key
    case Deleted(k, _) => k
  }

  function VisibleAt(st: Settings, live: map<Key, K8sObject>, k: Key): set<string> {
    if k in live && !st.MustSkip(live[k]) then {live[k].uid} else {}
  }

  /** A notification changes the visibility of the UIDs under its own key, and no other. */
  lemma {:induction false} VisibleAfter(st: Settings, live: map<Key, K8sObject>, n: Notification)
    requires WellKeyed(live) && Genuine(live, n)
    ensures WellKeyed(Store(live, n))
    ensures VisibleUids(st, Store(live, n)) ==
      VisibleUids(st, live) - VisibleAt(st, live, KeyOf(n)) + VisibleAt(st, Store(live, n), KeyOf(n))
  {
    var live', k := Store(live, n), KeyOf(n);
    forall u | u in VisibleUids(st, live) && u !in VisibleAt(st, live, k)
      ensures u in VisibleUids(st, live')
    {
      var k' :| k' in live && !st.MustSkip(live[k']) && live[k'].uid == u;
      assert k' in live' && live'[k'] == live[k'];
    }
  }

  lemma {:induction false} NotifyKeepsCovers(
      st: Settings, live: map<Key, K8sObject>, stale: set<string>, c: Consumer, n: Notification)
    requires Converts(st) && AllEvents(st) && WellKeyed(live) && Genuine(live, n)
    requires Covers(st, live, stale, c)
    ensures
      var live', lost := Store(live, n), stale + Abandoned(st, live, n);
      var e := st.Emits(n);
      if e.None? then Covers(st, live', lost, c)
      else Covers(st, live', lost + {Uid(e.value)}, c) && Covers(st, live', lost - {Uid(e.value)}, Apply(c, e.value))
  {
  }

  lemma {:induction false} NotifyKeepsCovered(
      st: Settings, live: map<Key, K8sObject>, stale: set<string>, c: Consumer, n: Notification)
    requires Converts(st) && AllEvents(st) && WellKeyed(live) && Genuine(live, n)
    requires Covered(st, live, stale, c)
    ensures
      var live', lost := Store(live, n), stale + Abandoned(st, live, n);
      var e := st.Emits(n);
      if e.None? then Covered(st, live', lost, c)
      else Covered(st, live', lost + {Uid(e.value)}, c) && Covered(st, live', lost - {Uid(e.value)}, Apply(c, e.value))
  {
    VisibleAfter(st, live, n);
  }

  /** A replica whose consumer agrees with the live objects, up to `stale`. */
  ghost predicate InAgreement<H(!new)>(st: Settings, hash: KubernetesResource -> Option<H>, r: Replica<H>) {
    && WellKeyed(r.live)
    && Coherent(hash, r.dedup.cache, ConsumerOf(r))
    && Covers(st, r.live, r.stale, ConsumerOf(r))
    && Covered(st, r.live, r.stale, ConsumerOf(r))
  }

  lemma {:induction false} ObserveKeepsAgreement<H(!new)>(
      st: Settings, hash: KubernetesResource -> Option<H>, r: Replica<H>, o: Occurrence)
    requires Injective(hash) && Converts(st) && AllEvents(st)
    requires InAgreement(st, hash, r) && (o.Notify? ==> Genuine(r.live, o.n))
    ensures InAgreement(st, hash, Observe(st, hash, r, o))
  {
    if o.Notify? {
      VisibleAfter(st, r.live, o.n);
      NotifyKeepsCovers(st, r.live, r.stale, ConsumerOf(r), o.n);
      NotifyKeepsCovered(st, r.live, r.stale, ConsumerOf(r), o.n);
      if st.Emits(o.n).Some? {
        WriteKeepsAgreement(hash, r.dedup, EMPTY_CONSUMER, Submission(st.Emits(o.n).value, o.ok));
      }
    }
  }

  /**
    End-to-end agreement under failures. In every genuine run, with any resyncs and any failing
    writes, the consumer holds exactly the visible live objects, except for the UIDs in `stale`.
   */
  lemma {:induction false} ReplicaAgrees<H(!new)>(
      st: Settings, hash: KubernetesResource -> Option<H>, os: seq<Occurrence>)
    requires Injective(hash) && Converts(st) && AllEvents(st)
    requires GenuineRun(st, hash, os)
    ensures InAgreement(st, hash, Replay(st, hash, os))
  {
    if os == [] {
    } else {
      var n := |os| - 1;
      ReplicaAgrees(st, hash, os[..n]);
      ObserveKeepsAgreement(st, hash, Replay(st, hash, os[..n]), os[n]);
    }
  }

  predicate AllWritesSucceed(os: seq<Occurrence>) {
    forall i :: 0 <= i < |os| && os[i].Notify? ==> os[i].ok
  }

  /** `keys` is what the consumer holds: the visible UIDs and, apart from them, the stale ones. */
  ghost predicate Orphans(visible: set<string>, stale: set<string>, keys: set<string>) {
    stale !! visible && keys == visible + stale
  }

  /** Without failures, `stale` is exactly what the consumer holds and the informers do not. */
  lemma {:induction false} StaleAreOrphans<H(!new)>(
      st: Settings, hash: KubernetesResource -> Option<H>, os: seq<Occurrence>)
    requires Injective(hash) && Converts(st) && AllEvents(st)
    requires GenuineRun(st, hash, os) && AllWritesSucceed(os)
    ensures
      var r := Replay(st, hash, os);
      Orphans(VisibleUids(st, r.live), r.stale, ConsumerOf(r).store.Keys)
  {
    ReplicaAgrees(st, hash, os);
    if os == [] {
    } else {
      var n := |os| - 1;
      StaleAreOrphans(st, hash, os[..n]);
      var r := Replay(st, hash, os[..n]);
      ReplicaAgrees(st, hash, os[..n]);
      OrphansStep(st, hash, r, os[n]);
    }
  }

  lemma {:induction false} NotifyKeepsOrphans(
      st: Settings, live: map<Key, K8sObject>, stale: set<string>, keys: set<string>, n: Notification)
    requires Converts(st) && AllEvents(st) && WellKeyed(live) && Genuine(live, n)
    requires Orphans(VisibleUids(st, live), stale, keys)
    ensures
      var visible', lost := VisibleUids(st, Store(live, n)), stale + Abandoned(st, live, n);
      match st.Emits(n)
      case None => Orphans(visible', lost, keys)
      case Some(e) => Orphans(visible', lost - {Uid(e)}, if e.evtype.Delete? then keys - {Uid(e)} else keys + {Uid(e)})
  {
    VisibleAfter(st, live, n);
    var visible, visible' := VisibleUids(st, live), VisibleUids(st, Store(live, n));
    match n
    case Added(o) =>
      assert VisibleAt(st, live, o.key) == {};
    case Updated(b, a) =>
      assert b.uid != a.uid ==> a.uid !in visible;
      assert !st.MustSkip(b) ==> b.uid in visible;
    case Deleted(k, _) =>
      assert !st.MustSkip(live[k]) ==> live[k].uid in visible;
  }

  /** The consumer sees the emitted event unless its write fails, be it suppressed or not. */
  lemma {:induction false} ConsumerStep<H(!new)>(
      st: Settings, hash: KubernetesResource -> Option<H>, r: Replica<H>, o: Occurrence)
    requires Injective(hash) && Coherent(hash, r.dedup.cache, ConsumerOf(r))
    ensures
      var e := if o.Notify? then st.Emits(o.n) else None;
      ConsumerOf(Observe(st, hash, r, o)) ==
      if e.None? || WriteFails(hash, r.dedup, Submission(e.value, o.ok)) then ConsumerOf(r)
      else Apply(ConsumerOf(r), e.value)
  {
    if o.Notify? && st.Emits(o.n).Some? {
      WriteKeepsAgreement(hash, r.dedup, EMPTY_CONSUMER, Submission(st.Emits(o.n).value, o.ok));
    }
  }

  lemma {:induction false} EmitsUid(st: Settings, live: map<Key, K8sObject>, n: Notification)
    requires Converts(st) && WellKeyed(live) && Genuine(live, n) && st.Emits(n).Some?
    ensures Uid(st.Emits(n).value) != ""
  {
  }

  lemma {:induction false} OrphansStep<H(!new)>(
      st: Settings, hash: KubernetesResource -> Option<H>, r: Replica<H>, o: Occurrence)
    requires Injective(hash) && Converts(st) && AllEvents(st)
    requires InAgreement(st, hash, r)
    requires o.Notify? ==> Genuine(r.live, o.n) && o.ok
    requires Orphans(VisibleUids(st, r.live), r.stale, ConsumerOf(r).store.Keys)
    ensures
      var r' := Observe(st, hash, r, o);
      Orphans(VisibleUids(st, r'.live), r'.stale, ConsumerOf(r').store.Keys)
  {
    ConsumerStep(st, hash, r, o);
    if o.Notify? {
      NotifyKeepsOrphans(st, r.live, r.stale, ConsumerOf(r).store.Keys, o.n);
      if st.Emits(o.n).Some? {
        EmitsUid(st, r.live, o.n);
      }
    }
  }

  /** The consumer's store is the informers' stores: the visible objects, converted, and nothing else. */
  ghost predicate SameStores(st: Settings, live: map<Key, K8sObject>, c: Consumer) {
    Covers(st, live, {}, c) && c.store.Keys == VisibleUids(st, live)
  }

  /**
    When all writes succeed, every visible object in an informer's store is in the consumer with
    its current content, across any number of resyncs; and the two stores are equal exactly when
    `stale` is empty.
   */
  lemma {:induction false} AgreementAcrossResyncs<H(!new)>(
      st: Settings, hash: KubernetesResource -> Option<H>, os: seq<Occurrence>)
    requires Injective(hash) && Converts(st) && AllEvents(st)
    requires GenuineRun(st, hash, os) && AllWritesSucceed(os)
    ensures
      var r := Replay(st, hash, os);
      && Covers(st, r.live, {}, ConsumerOf(r))
      && (SameStores(st, r.live, ConsumerOf(r)) <==> r.stale == {})
  {
    ReplicaAgrees(st, hash, os);
    StaleAreOrphans(st, hash, os);
    var r := Replay(st, hash, os);
    forall k | k in r.live && !st.MustSkip(r.live[k]) ensures r.live[k].uid !in r.stale {
      assert r.live[k].uid in VisibleUids(st, r.live);
    }
  }

  /** No resync, no object replaced under its key, and every delete delivers the object. */
  predicate OneGeneration(os: seq<Occurrence>) {
    forall i :: 0 <= i < |os| ==>
      && os[i].Notify?
      && (os[i].n.Updated? ==> os[i].n.before.uid == os[i].n.after.uid)
      && (os[i].n.Deleted? ==> os[i].n.value.Plain? || (os[i].n.value.Tombstone? && os[i].n.value.stale.Plain?))
  }

  /** One step of such a run: whatever leaves an informer's store is deleted from the consumer too. */
  lemma {:induction false} DeletesAreSent(st: Settings, live: map<Key, K8sObject>, n: Notification)
    requires Converts(st) && AllEvents(st) && WellKeyed(live) && Genuine(live, n)
    requires OneGeneration([Notify(n, true)])
    ensures Abandoned(st, live, n) == {}
  {
    assert [Notify(n, true)][0].n == n;
  }

  lemma {:induction false} NothingAbandoned<H(!new)>(
      st: Settings, hash: KubernetesResource -> Option<H>, os: seq<Occurrence>)
    requires Injective(hash) && Converts(st) && AllEvents(st)
    requires GenuineRun(st, hash, os) && AllWritesSucceed(os) && OneGeneration(os)
    ensures Replay(st, hash, os).stale == {}
  {
    if os == [] {
    } else {
      var n := |os| - 1;
      NothingAbandoned(st, hash, os[..n]);
      ReplicaAgrees(st, hash, os[..n]);
      DeletesAreSent(st, Replay(st, hash, os[..n]).live, os[n].n);
    }
  }

  /** Within one informer generation started from an empty consumer, the two stores are equal. */
  lemma {:induction false} OneGenerationMirrors<H(!new)>(
      st: Settings, hash: KubernetesResource -> Option<H>, os: seq<Occurrence>)
    requires Injective(hash) && Converts(st) && AllEvents(st)
    requires GenuineRun(st, hash, os) && AllWritesSucceed(os) && OneGeneration(os)
    ensures SameStores(st, Replay(st, hash, os).live, ConsumerOf(Replay(st, hash, os)))
  {
    AgreementAcrossResyncs(st, hash, os);
    NothingAbandoned(st, hash, os);
  }

  /**
    A replaced object is never deleted from the consumer: the update that swaps `o` for another
    object under its key leaves the entry of `o` behind, although every write succeeded.
   */
  lemma {:induction false} ReplacedObjectLingers<H(!new)>(
      st: Settings, hash: KubernetesResource -> Option<H>, o: K8sObject, o': K8sObject)
    requires Injective(hash) && Converts(st) && AllEvents(st)
    requires o.key == o'.key && o.uid != "" && o'.uid != "" && o.uid != o'.uid
      && o.resourceVersion != o'.resourceVersion
    requires !st.MustSkip(o)
    ensures
      var os := [Notify(Added(o), true), Notify(Updated(o, o'), true)];
      var r := Replay(st, hash, os);
      && GenuineRun(st, hash, os)
      && o.uid !in VisibleUids(st, r.live) && o.uid in ConsumerOf(r).store
  {
    var os := [Notify(Added(o), true), Notify(Updated(o, o'), true)];
    var r1 := FirstAdd(st, hash, o);
    assert os[..1] == [os[0]];
    assert Replay(st, hash, os).live == map[o.key := o'];
    StaleAreOrphans(st, hash, os);
    assert Replay(st, hash, os).stale == {o.uid};
  }

  lemma {:induction false} FirstAdd<H(!new)>(
      st: Settings, hash: KubernetesResource -> Option<H>, o: K8sObject)
    returns (r: Replica<H>)
    requires o.uid != ""
    ensures
      var os := [Notify(Added(o), true)];
      r == Replay(st, hash, os) == Observe(st, hash, Start<H>(), os[0]) && GenuineRun(st, hash, os)
    ensures r.live == map[o.key := o] && o.key in r.live
    ensures st.Publish(o, Add) == None ==> ConsumerOf(r).store == map[]
    ensures Converts(st) && st.Publish(o, Add).Some? ==> ConsumerOf(r).store == map[o.uid := st.convert(o, Add)]
  {
    var os := [Notify(Added(o), true)];
    assert os[..0] == [];
    assert Replay(st, hash, []) == Start<H>();
    assert GenuineRun(st, hash, []);
    assert Genuine(Start<H>().live, Added(o));
    r := Observe(st, hash, Start<H>(), os[0]);
    if st.Publish(o, Add).Some? {
      var e := st.Publish(o, Add).value;
      HeldSnoc(EMPTY_CONSUMER, [], Attempt(e, true));
      assert [] + [Attempt(e, true)] == [Attempt(e, true)];
    }
  }

  /** A notification that emits nothing, after `o` was added, leaves the consumer as it was. */
  lemma {:induction false} QuietSecond<H(!new)>(
      st: Settings, hash: KubernetesResource -> Option<H>, o: K8sObject, n: Notification)
    requires o.uid != "" && Genuine(map[o.key := o], n) && st.Emits(n) == None
    ensures
      var os := [Notify(Added(o), true), Notify(n, true)];
      var r, r1 := Replay(st, hash, os), Replay(st, hash, os[..1]);
      && GenuineRun(st, hash, os)
      && r.live == Store(map[o.key := o], n) && ConsumerOf(r) == ConsumerOf(r1)
      && os[..1] == [Notify(Added(o), true)]
  {
    var r1 := FirstAdd(st, hash, o);
    var os := [Notify(Added(o), true), Notify(n, true)];
    assert os[..1] == [os[0]];
  }

  /** With any event type missing from a pipeline's configuration, a two-step run ends in disagreement. */
  lemma {:induction false} AgreementNeedsAllEvents<H(!new)>(
      st: Settings, hash: KubernetesResource -> Option<H>, o: K8sObject, o': K8sObject, missing: EventType)
    returns (os: seq<Occurrence>)
    requires Converts(st) && missing.Wire() !in st.cfg(o.key.gvr).events
    requires o.key == o'.key && o.uid == o'.uid != "" && o.resourceVersion != o'.resourceVersion
    requires !st.MustSkip(o) && st.convert(o, Add) != st.convert(o', Add)
    ensures GenuineRun(st, hash, os) && AllWritesSucceed(os) && OneGeneration(os)
    ensures !SameStores(st, Replay(st, hash, os).live, ConsumerOf(Replay(st, hash, os)))
  {
    var r1 := FirstAdd(st, hash, o);
    if Add.Wire() !in st.cfg(o.key.gvr).events {
      os := [Notify(Added(o), true)];
      assert o.uid in VisibleUids(st, r1.live);
    } else {
      var n := if missing.Update? then Updated(o, o') else Deleted(o.key, Plain(o));
      os := [Notify(Added(o), true), Notify(n, true)];
      QuietSecond(st, hash, o, n);
      var r := Replay(st, hash, os);
      assert o.uid in ConsumerOf(r).store.Keys;
      assert missing.Update? ==> o'.key in r.live && r.live[o'.key] == o';
    }
  }

  // ------------------------------------------------------------------- which notifications are published

  /** A namespace restriction lets the namespace through: there is none, or it names it. */
  predicate InScope(namespaces: set<string>, namespace: string) {
    namespaces == {} || namespace in namespaces
  }

  /** The object and the event type a notification is about, if it names an object that changed. */
  function About(n: Notification): Option<(K8sObject, EventType)> {
    match n
    case Added(o) => Some((o, Add))
    case Updated(b, a) => if b.resourceVersion == a.resourceVersion then None else Some((a, Update))
    case Deleted(_, value) =>
      var v := if value.Tombstone? then value.stale else value;
      if v.Plain? then Some((v.obj, Delete)) else None
  }

  /**
    Exactly which notifications are published, and as what: those about an object in scope whose
    pipeline lists the event type, as the conversion of that object.
   */
  lemma {:induction false} EmitsExactlyWhen(st: Settings, n: Notification)
    ensures st.Emits(n).Some? <==>
      && About(n).Some?
      && InScope(st.namespaces, About(n).value.0.key.namespace)
      && About(n).value.1.Wire() in st.cfg(About(n).value.0.key.gvr).events
    ensures st.Emits(n).Some? ==>
      var (o, t) := About(n).value;
      st.Emits(n).value == Event(st.convert(o, t), t, st.cfg(o.key.gvr))
  {
  }

  /** The attempt writes an object that was notified, in scope, with an event type its pipeline lists. */
  ghost predicate Wanted(st: Settings, os: seq<Occurrence>, e: Event) {
    exists i :: 0 <= i < |os| && os[i].Notify? && About(os[i].n).Some? && WantedFrom(st, About(os[i].n).value, e)
  }

  predicate WantedFrom(st: Settings, about: (K8sObject, EventType), e: Event) {
    var (o, t) := about;
    && InScope(st.namespaces, o.key.namespace) && t.Wire() in st.cfg(o.key.gvr).events
    && e == Event(st.convert(o, t), t, st.cfg(o.key.gvr))
  }

  /** In every run, genuine or not, no attempt carries an object out of scope, or one never notified. */
  lemma {:induction false} AttemptsAreWanted<H>(
      st: Settings, hash: KubernetesResource -> Option<H>, os: seq<Occurrence>)
    ensures forall a :: a in Replay(st, hash, os).dedup.log ==> Wanted(st, os, a.event)
  {
    if os == [] {
    } else {
      var n := |os| - 1;
      AttemptsAreWanted(st, hash, os[..n]);
      var before, after := Replay(st, hash, os[..n]).dedup.log, Replay(st, hash, os).dedup.log;
      forall a | a in after ensures Wanted(st, os, a.event) {
        if a in before {
          var i :| 0 <= i < n && os[..n][i].Notify? && About(os[..n][i].n).Some?
            && WantedFrom(st, About(os[..n][i].n).value, a.event);
          assert os[i] == os[..n][i];
        } else {
          EmitsExactlyWhen(st, os[n].n);
          assert a.event == st.Emits(os[n].n).value;
          assert WantedFrom(st, About(os[n].n).value, a.event);
        }
      }
    }
  }

  /** The live objects in scope, apart from those in `stale`, are in the consumer, converted. */
  ghost predicate HoldsScope(st: Settings, live: map<Key, K8sObject>, stale: set<string>, c: Consumer) {
    forall k :: k in live && InScope(st.namespaces, k.namespace) && live[k].uid !in stale ==>
      live[k].uid in c.store && c.store[live[k].uid] == st.convert(live[k], Add)
  }

  /** The consumer's entries, apart from those in `stale`, belong to live objects in scope. */
  ghost predicate HeldInScope(st: Settings, live: map<Key, K8sObject>, stale: set<string>, c: Consumer) {
    forall u :: u in c.store && u !in stale ==>
      exists k :: k in live && InScope(st.namespaces, k.namespace) && live[k].uid == u
  }

  lemma {:induction false} ScopeIsVisibility(st: Settings, live: map<Key, K8sObject>, stale: set<string>, c: Consumer)
    requires WellKeyed(live)
    ensures Covers(st, live, stale, c) <==> HoldsScope(st, live, stale, c)
    ensures Covered(st, live, stale, c) <==> HeldInScope(st, live, stale, c)
  {
    forall k | k in live ensures st.MustSkip(live[k]) <==> !InScope(st.namespaces, k.namespace) {
      assert live[k].key == k;
    }
    forall u ensures u in VisibleUids(st, live) <==>
      exists k :: k in live && InScope(st.namespaces, k.namespace) && live[k].uid == u
    {
      if u in VisibleUids(st, live) {
        var k :| k in live && !st.MustSkip(live[k]) && live[k].uid == u;
        assert InScope(st.namespaces, k.namespace);
      }
    }
  }

  /** `ReplicaAgrees`, with the namespace restriction spelled out. */
  lemma {:induction false} ReplicaAgreesInScope<H(!new)>(
      st: Settings, hash: KubernetesResource -> Option<H>, os: seq<Occurrence>)
    requires Injective(hash) && Converts(st) && AllEvents(st)
    requires GenuineRun(st, hash, os)
    ensures
      var r := Replay(st, hash, os);
      && HoldsScope(st, r.live, r.stale, ConsumerOf(r))
      && HeldInScope(st, r.live, r.stale, ConsumerOf(r))
  {
    ReplicaAgrees(st, hash, os);
    var r := Replay(st, hash, os);
    ScopeIsVisibility(st, r.live, r.stale, ConsumerOf(r));
  }

  /** `AgreementAcrossResyncs`, with the namespace restriction spelled out. */
  lemma {:induction false} AgreementInScope<H(!new)>(
      st: Settings, hash: KubernetesResource -> Option<H>, os: seq<Occurrence>)
    requires Injective(hash) && Converts(st) && AllEvents(st)
    requires GenuineRun(st, hash, os) && AllWritesSucceed(os)
    ensures
      var r := Replay(st, hash, os);
      && HoldsScope(st, r.live, {}, ConsumerOf(r))
      && (HeldInScope(st, r.live, {}, ConsumerOf(r)) <==> r.stale == {})
  {
    AgreementAcrossResyncs(st, hash, os);
    StaleAreOrphans(st, hash, os);
    ReplicaAgrees(st, hash, os);
    var r := Replay(st, hash, os);
    ScopeIsVisibility(st, r.live, {}, ConsumerOf(r));
    assert Covered(st, r.live, {}, ConsumerOf(r)) <==> ConsumerOf(r).store.Keys <= VisibleUids(st, r.live);
  }

  /** A notification that tells of a change: anything but an update with an unchanged version. */
  predicate Changes(o: Occurrence) {
    o.Notify? && !(o.n.Updated? && o.n.before.resourceVersion == o.n.after.resourceVersion)
  }

  function ChangeCount(os: seq<Occurrence>): nat {
    if os == [] then 0 else ChangeCount(os[..|os| - 1]) + if Changes(os[|os| - 1]) then 1 else 0
  }

  /**
    An update with an unchanged version leaves the log and the cache as they were; so there are at
    most as many attempts as there are changes.
   */
  lemma {:induction false} UnchangedVersionsAreSilent<H>(
      st: Settings, hash: KubernetesResource -> Option<H>, os: seq<Occurrence>)
    ensures |Replay(st, hash, os).dedup.log| <= ChangeCount(os)
    ensures os != [] && !Changes(os[|os| - 1]) ==> Replay(st, hash, os).dedup == Replay(st, hash, os[..|os| - 1]).dedup
  {
    if os == [] {
    } else {
      var n := |os| - 1;
      UnchangedVersionsAreSilent(st, hash, os[..n]);
    }
  }
}
