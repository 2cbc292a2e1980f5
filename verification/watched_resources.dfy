/**
  The list of watched resources: how watch lists establish it, how CRD events change it, and
  when a change makes the informers resync.
 */
module WatchedResources {
  import opened Resources
  import opened Sequences
  import opened Names

  type Pipelines = seq<PipelineConfig>

  const GLOBAL := "global"
  const LOCAL := "local"
  const DEFAULT_SUBJECT := "meshery.meshsync.core"
  const DEFAULT_EVENTS := [EventType.Add.Wire(), EventType.Update.Wire(), EventType.Delete.Wire()]

  function NamesOf(p: Pipelines): seq<string> {
    seq(|p|, i requires 0 <= i < |p| => p[i].name)
  }

  // ----------------------------------------------------------- the list as a set

  function AddPipeline(p: Pipelines, pc: PipelineConfig): Pipelines {
    p + [pc]
  }

  predicate Contains(p: Pipelines, name: string) {
    exists i :: 0 <= i < |p| && p[i].name == name
  }

  /** Removes the first entry with the name, if there is one. */
  method DeletePipeline(p: Pipelines, pc: PipelineConfig) returns (r: Pipelines)
    ensures !Contains(p, pc.name) ==> r == p
    ensures Contains(p, pc.name) ==> exists k ::
      0 <= k < |p| && p[k].name == pc.name && !Contains(p[..k], pc.name) && r == p[..k] + p[k + 1..]
    ensures r == Deleted(p, pc.name)
  {
    r := p;
    for index := 0 to |p|
      invariant r == p && !Contains(p[..index], pc.name)
    {
      if p[index].name == pc.name {
        r := p[..index] + p[index + 1..];
        DeletedAt(p, pc.name, index);
        break;
      }
      assert p[..index + 1] == p[..index] + [p[index]];
    }
    if !Contains(p, pc.name) {
      DeletedAbsent(p, pc.name);
    }
    assert p[..|p|] == p;
  }

  function Deleted(p: Pipelines, name: string): Pipelines {
    if p == [] then [] else if p[0].name == name then p[1..] else [p[0]] + Deleted(p[1..], name)
  }

  lemma {:induction false} DeletedAt(p: Pipelines, name: string, k: nat)
    requires k < |p| && p[k].name == name && !Contains(p[..k], name)
    ensures Deleted(p, name) == p[..k] + p[k + 1..]
  {
    if k == 0 {
    } else {
      assert p[..k][0] == p[0];
      var front := p[1..][..k - 1];
      forall i | 0 <= i < |front| ensures front[i].name != name {
        assert p[..k][i + 1] == front[i];
      }
      DeletedAt(p[1..], name, k - 1);
    }
  }

  lemma {:induction false} DeletedAbsent(p: Pipelines, name: string)
    requires !Contains(p, name)
    ensures Deleted(p, name) == p
  {
    if p == [] {
    } else {
      assert p[0].name != name;
      forall i | 0 <= i < |p[1..]| ensures p[1..][i].name != name {
        assert p[i + 1].name != name;
      }
      DeletedAbsent(p[1..], name);
    }
  }

  // ----------------------------------------------------------- CRD events

  datatype WatchType = ADDED | MODIFIED | DELETED | BOOKMARK | ERROR

  /** The list after one event, and whether it changed. */
  function Reflect(p: Pipelines, t: WatchType, name: string): (Pipelines, bool) {
    match t
    case ADDED =>
      if Contains(p, name) then (p, false)
      else (AddPipeline(p, PipelineConfig(name, DEFAULT_SUBJECT, DEFAULT_EVENTS)), true)
    case DELETED => if Contains(p, name) then (Deleted(p, name), true) else (p, false)
    case _ => (p, false)
  }

  function Global(resources: map<string, Pipelines>): Pipelines {
    if GLOBAL in resources then resources[GLOBAL] else []
  }

  /**
    The configuration store. Access number `n` fails when `fails(n)`, which is outside the
    program's control.
   */
  class Config {
    const fails: nat -> bool
    var accesses: nat
    var resources: map<string, Pipelines>

    constructor (resources: map<string, Pipelines>, fails: nat -> bool)
      ensures this.resources == resources && this.fails == fails && accesses == 0
    {
      this.resources, this.fails := resources, fails;
      accesses := 0;
    }

    method GetObject() returns (r: Option<map<string, Pipelines>>)
      modifies this`accesses
      ensures accesses == old(accesses) + 1
      ensures r == if fails(old(accesses)) then None else Some(resources)
    {
      r := if fails(accesses) then None else Some(resources);
      accesses := accesses + 1;
    }

    method SetObject(r: map<string, Pipelines>) returns (err: bool)
      modifies this
      ensures accesses == old(accesses) + 1
      ensures err == fails(old(accesses))
      ensures resources == if err then old(resources) else r
    {
      err := fails(accesses);
      if !err {
        resources := r;
      }
      accesses := accesses + 1;
    }

    /** Whether an event handled now succeeds in the accesses it makes: it saves only what differs. */
    predicate Accessible(t: WatchType, name: string)
      reads this
    {
      !fails(accesses) && (Reflect(Global(resources), t, name).1 ==> !fails(accesses + 1))
    }
  }

  class Handler {
    const config: Config
    var resyncs: nat

    constructor (config: Config)
      ensures this.config == config && resyncs == 0
    {
      this.config := config;
      resyncs := 0;
    }

    /** With its accesses succeeding the list is updated, and `changed` tells the truth; else nothing happened. */
    method UpdatePipelineConfig(eventType: WatchType, gvr: GVR) returns (changed: bool, err: bool)
      modifies config
      ensures err <==> !old(config.Accessible(eventType, PipelineName(gvr)))
      ensures changed <==> !err && Reflect(old(Global(config.resources)), eventType, PipelineName(gvr)).1
      ensures config.resources ==
        if !changed then old(config.resources)
        else old(config.resources)[GLOBAL := Reflect(old(Global(config.resources)), eventType, PipelineName(gvr)).0]
      ensures config.accesses >= old(config.accesses)
    {
      var existing := config.GetObject();
      if existing.None? {
        return false, true;
      }
      var pipelines := Global(existing.value);
      var name := PipelineName(gvr);
      match eventType {
        case ADDED =>
          if Contains(pipelines, name) {
            return false, false;
          }
          pipelines := AddPipeline(pipelines, PipelineConfig(name, DEFAULT_SUBJECT, DEFAULT_EVENTS));
        case DELETED =>
          if !Contains(pipelines, name) {
            return false, false;
          }
          pipelines := DeletePipeline(pipelines, PipelineConfig(name, "", []));
        case _ =>
          return false, false;
      }
      var failed := config.SetObject(existing.value[GLOBAL := pipelines]);
      if failed {
        return false, true;
      }
      return true, false;
    }

    /**
      An event with a GVR whose accesses succeed is reflected in the list; any other is skipped.
      A resync is requested exactly when the configuration changed.
     */
    method HandleCRDEvent(eventType: WatchType, gvr: Option<GVR>)
      modifies this, config
      ensures
        var before := old(Global(config.resources));
        Global(config.resources) ==
        if gvr.Some? && old(config.Accessible(eventType, PipelineName(gvr.value)))
        then Reflect(before, eventType, PipelineName(gvr.value)).0 else before
      ensures resyncs == old(resyncs) + if config.resources != old(config.resources) then 1 else 0
      ensures config.resources == old(config.resources)
        || config.resources == old(config.resources)[GLOBAL := Global(config.resources)]
      ensures Global(config.resources) == old(Global(config.resources)) ==> config.resources == old(config.resources)
      ensures config.accesses >= old(config.accesses)
    {
      if gvr.None? {
        return;
      }
      var changed, err := UpdatePipelineConfig(eventType, gvr.value);
      UnchangedIsSame(old(Global(config.resources)), eventType, PipelineName(gvr.value));
      if err || !changed {
        return;
      }
      resyncs := resyncs + 1;
    }

    /** The events of one watch, handled one after the other. `evs` are those with a GVR, with their outcomes. */
    method HandleCRDEvents(events: seq<(WatchType, Option<GVR>)>) returns (ghost evs: seq<CrdEvent>)
      modifies this, config
      ensures Global(config.resources) == Watch(old(Global(config.resources)), evs)
      ensures resyncs == old(resyncs) + Resyncs(old(Global(config.resources)), evs)
      ensures Heard(evs) == WithGVR(events)
      ensures (forall k: nat :: !config.fails(k)) ==> forall i :: 0 <= i < |evs| ==> evs[i].ok
    {
      evs := [];
      ghost var p := Global(config.resources);
      for i := 0 to |events|
        invariant Global(config.resources) == Watch(p, evs)
        invariant resyncs == old(resyncs) + Resyncs(p, evs)
        invariant Heard(evs) == WithGVR(events[..i])
        invariant (forall k: nat :: !config.fails(k)) ==> forall j :: 0 <= j < |evs| ==> evs[j].ok
      {
        var (t, gvr) := events[i];
        assert events[..i + 1][..i] == events[..i];
        if gvr.Some? {
          ghost var e := CrdEvent(t, PipelineName(gvr.value), config.Accessible(t, PipelineName(gvr.value)));
          WatchSnoc(p, evs, e);
          HeardSnoc(evs, e);
          UnchangedIsSame(Watch(p, evs), t, PipelineName(gvr.value));
          evs := evs + [e];
        }
        HandleCRDEvent(t, gvr);
      }
      assert events[..|events|] == events;
    }
  }

  /** The list differs after an event exactly when a change is reported. */
  lemma UnchangedIsSame(p: Pipelines, t: WatchType, name: string)
    ensures Reflect(p, t, name).1 <==> Reflect(p, t, name).0 != p
  {
    if t.DELETED? && Contains(p, name) {
      var _ := FirstAt(p, name);
      assert |Reflect(p, t, name).0| != |p|;
    } else if t.ADDED? && !Contains(p, name) {
      assert |Reflect(p, t, name).0| != |p|;
    }
  }

  /** The first entry of the name is the one removed. */
  lemma {:induction false} FirstAt(p: Pipelines, name: string) returns (k: nat)
    requires Contains(p, name)
    ensures k < |p| && p[k].name == name && !Contains(p[..k], name)
    ensures Deleted(p, name) == p[..k] + p[k + 1..]
  {
    if p[0].name == name {
      k := 0;
    } else {
      var i :| 0 <= i < |p| && p[i].name == name;
      assert p[1..][i - 1].name == name;
      var k' := FirstAt(p[1..], name);
      k := k' + 1;
      NotBefore(p, name, k');
    }
    DeletedAt(p, name, k);
  }

  lemma NotBefore(p: Pipelines, name: string, k: nat)
    requires k < |p| - 1 && p[0].name != name && !Contains(p[1..][..k], name)
    ensures !Contains(p[..k + 1], name)
  {
    var front := p[..k + 1];
    forall j | 0 <= j < |front| ensures front[j].name != name {
      if j > 0 {
        assert p[1..][..k][j - 1] == front[j];
      }
    }
  }

  // ----------------------------------------------------------- whole runs

  /** An event about a name, and whether the configuration accesses it made succeeded. */
  datatype CrdEvent = CrdEvent(t: WatchType, name: string, ok: bool)

  /** The list after a run of events; those whose accesses failed leave no trace. */
  function Watch(p: Pipelines, evs: seq<CrdEvent>): Pipelines {
    if evs == [] then p
    else
      var q, e := Watch(p, evs[..|evs| - 1]), evs[|evs| - 1];
      if e.ok then Reflect(q, e.t, e.name).0 else q
  }

  /** How many of the events request a resync. */
  function Resyncs(p: Pipelines, evs: seq<CrdEvent>): nat {
    if evs == [] then 0
    else
      var q, e := Watch(p, evs[..|evs| - 1]), evs[|evs| - 1];
      Resyncs(p, evs[..|evs| - 1]) + if e.ok && Reflect(q, e.t, e.name).1 then 1 else 0
  }

  lemma WatchSnoc(p: Pipelines, evs: seq<CrdEvent>, e: CrdEvent)
    ensures Watch(p, evs + [e]) == if e.ok then Reflect(Watch(p, evs), e.t, e.name).0 else Watch(p, evs)
    ensures Resyncs(p, evs + [e]) ==
      Resyncs(p, evs) + if e.ok && Reflect(Watch(p, evs), e.t, e.name).1 then 1 else 0
  {
    assert (evs + [e])[..|evs|] == evs;
  }

  function Heard(evs: seq<CrdEvent>): seq<(WatchType, string)> {
    seq(|evs|, i requires 0 <= i < |evs| => (evs[i].t, evs[i].name))
  }

  lemma HeardSnoc(evs: seq<CrdEvent>, e: CrdEvent)
    ensures Heard(evs + [e]) == Heard(evs) + [(e.t, e.name)]
  {
  }

  /** The events that yield a GVR, in order. */
  function WithGVR(events: seq<(WatchType, Option<GVR>)>): seq<(WatchType, string)> {
    if events == [] then []
    else
      var (t, gvr) := events[|events| - 1];
      WithGVR(events[..|events| - 1]) + if gvr.Some? then [(t, PipelineName(gvr.value))] else []
  }

  /** The last ADDED or DELETED event for a name whose accesses succeeded. */
  function LastSays(evs: seq<CrdEvent>, name: string): Option<WatchType> {
    if evs == [] then None
    else
      var e := evs[|evs| - 1];
      if e.ok && e.name == name && e.t in {ADDED, DELETED} then Some(e.t) else LastSays(evs[..|evs| - 1], name)
  }

  /** The effect of one update on the names. */
  lemma ReflectNames(p: Pipelines, t: WatchType, name: string)
    requires Distinct(NamesOf(p))
    ensures
      var p' := Reflect(p, t, name).0;
      && Distinct(NamesOf(p'))
      && (forall n :: n != name ==> (Contains(p', n) <==> Contains(p, n)))
      && (Contains(p', name) <==> t == ADDED || (t != DELETED && Contains(p, name)))
  {
    var p' := Reflect(p, t, name).0;
    if t.ADDED? && !Contains(p, name) {
      assert p'[|p|].name == name;
      forall n | Contains(p, n) ensures Contains(p', n) {
        var i :| 0 <= i < |p| && p[i].name == n;
        assert p'[i].name == n;
      }
      forall i, j | 0 <= i < j < |p'| ensures NamesOf(p')[i] != NamesOf(p')[j] {
        assert p[i].name == p'[i].name;
        assert j < |p| ==> NamesOf(p)[i] != NamesOf(p)[j];
      }
    } else if t.DELETED? && Contains(p, name) {
      var k := FirstAt(p, name);
      RemovedNames(p, p', k);
    }
  }

  lemma RemovedNames(p: Pipelines, p': Pipelines, k: nat)
    requires Distinct(NamesOf(p)) && k < |p| && p' == p[..k] + p[k + 1..]
    ensures Distinct(NamesOf(p')) && !Contains(p', p[k].name)
    ensures forall n :: n != p[k].name ==> (Contains(p', n) <==> Contains(p, n))
  {
    var at := (i: nat) => if i < k then i else i + 1;
    forall i | 0 <= i < |p'| ensures p'[i] == p[at(i)] && NamesOf(p)[at(i)] == p'[i].name != p[k].name {
      assert NamesOf(p)[k] == p[k].name;
    }
    forall n | n != p[k].name && Contains(p, n) ensures Contains(p', n) {
      var i :| 0 <= i < |p| && p[i].name == n;
      assert p'[if i < k then i else i - 1].name == n;
    }
    forall i, j | 0 <= i < j < |p'| ensures NamesOf(p')[i] != NamesOf(p')[j] {
      assert NamesOf(p)[at(i)] != NamesOf(p)[at(j)];
    }
  }

  /**
    The watched set is a last-event-wins fold: from distinct names, after any events, names are
    still distinct, and a name is watched exactly when its last ADDED or DELETED event whose
    configuration accesses succeeded was ADDED, or it had none and was watched at the start.
   */
  lemma {:induction false} LastEventWins(p: Pipelines, evs: seq<CrdEvent>, name: string)
    requires Distinct(NamesOf(p))
    ensures Distinct(NamesOf(Watch(p, evs)))
    ensures Contains(Watch(p, evs), name) <==>
      LastSays(evs, name) == Some(ADDED) || (LastSays(evs, name) == None && Contains(p, name))
  {
    if evs == [] {
    } else {
      var n := |evs| - 1;
      LastEventWins(p, evs[..n], name);
      ReflectNames(Watch(p, evs[..n]), evs[n].t, evs[n].name);
    }
  }

  function NameSet(p: Pipelines): set<string> {
    set i | 0 <= i < |p| :: p[i].name
  }

  /** `changed`, and so a resync, is reported exactly when the set of watched names changed. */
  lemma ChangedMeansNamesChanged(p: Pipelines, t: WatchType, name: string)
    requires Distinct(NamesOf(p))
    ensures Reflect(p, t, name).1 <==> NameSet(Reflect(p, t, name).0) != NameSet(p)
  {
    ReflectNames(p, t, name);
    var p' := Reflect(p, t, name).0;
    assert forall n :: n in NameSet(p) <==> Contains(p, n);
    assert forall n :: n in NameSet(p') <==> Contains(p', n);
    assert Reflect(p, t, name).1 ==> (name in NameSet(p) <==> name !in NameSet(p'));
  }

  lemma {:induction false} RelistKeepsList(p: Pipelines, evs: seq<CrdEvent>)
    requires forall i :: 0 <= i < |evs| ==> evs[i].t != DELETED && (evs[i].t == ADDED ==> Contains(p, evs[i].name))
    ensures Watch(p, evs) == p && Resyncs(p, evs) == 0
  {
    if evs == [] {
    } else {
      RelistKeepsList(p, evs[..|evs| - 1]);
    }
  }

  /** A re-established watch lists every present CRD again, in any order: nothing changes, no resync is requested. */
  lemma RelistChangesNothing(p: Pipelines, evs: seq<CrdEvent>)
    requires forall i :: 0 <= i < |evs| ==> evs[i].t != DELETED && (evs[i].t == ADDED ==> Contains(p, evs[i].name))
    ensures Watch(p, evs) == p && Resyncs(p, evs) == 0
    ensures forall i :: 0 <= i < |evs| ==> !Reflect(Watch(p, evs[..i]), evs[i].t, evs[i].name).1
  {
    RelistKeepsList(p, evs);
    forall i | 0 <= i < |evs| ensures Watch(p, evs[..i]) == p {
      RelistKeepsList(p, evs[..i]);
    }
  }

  /** The entries whose names are not in `touched`, in order. */
  function Untouched(p: Pipelines, touched: set<string>): Pipelines {
    if p == [] then []
    else (if p[0].name in touched then [] else [p[0]]) + Untouched(p[1..], touched)
  }

  lemma {:induction false} UntouchedConcat(p: Pipelines, q: Pipelines, touched: set<string>)
    ensures Untouched(p + q, touched) == Untouched(p, touched) + Untouched(q, touched)
  {
    if p == [] {
      assert p + q == q;
    } else {
      assert (p + q)[1..] == p[1..] + q;
      UntouchedConcat(p[1..], q, touched);
    }
  }

  /** If the event adds or deletes an entry, its name is in the set. */
  predicate About(e: CrdEvent, touched: set<string>) {
    e.ok && (e.t.ADDED? || e.t.DELETED?) ==> e.name in touched
  }

  lemma RemovalKeepsUntouched(q: Pipelines, k: nat, touched: set<string>)
    requires k < |q| && q[k].name in touched
    ensures Untouched(q[..k] + q[k + 1..], touched) == Untouched(q, touched)
  {
    var a, b := q[..k], q[k + 1..];
    UntouchedConcat(a, b, touched);
    UntouchedConcat(a, [q[k]] + b, touched);
    UntouchedConcat([q[k]], b, touched);
    assert Untouched([q[k]], touched) == [] by {
      assert [q[k]][1..] == [];
    }
    assert q == a + ([q[k]] + b);
  }

  lemma ReflectKeepsUntouched(q: Pipelines, e: CrdEvent, touched: set<string>)
    requires e.ok && About(e, touched)
    ensures Untouched(Reflect(q, e.t, e.name).0, touched) == Untouched(q, touched)
  {
    if e.t.ADDED? {
      UntouchedConcat(q, [PipelineConfig(e.name, DEFAULT_SUBJECT, DEFAULT_EVENTS)], touched);
    } else if e.t.DELETED? && Contains(q, e.name) {
      var k := FirstAt(q, e.name);
      RemovalKeepsUntouched(q, k, touched);
    }
  }

  /** Entries no event adds or deletes stay in the list, unaltered and in order. */
  lemma {:induction false} UntouchedStayInOrder(p: Pipelines, evs: seq<CrdEvent>, touched: set<string>)
    requires forall i :: 0 <= i < |evs| ==> About(evs[i], touched)
    ensures Untouched(Watch(p, evs), touched) == Untouched(p, touched)
  {
    if evs == [] {
    } else {
      var n := |evs| - 1;
      UntouchedStayInOrder(p, evs[..n], touched);
      if evs[n].ok {
        ReflectKeepsUntouched(Watch(p, evs[..n]), evs[n], touched);
      }
    }
  }

  /** An ADDED event keeps the list and puts a new name last, publishing all event types to the default subject. */
  lemma AddedGoesLast(p: Pipelines, name: string)
    ensures
      var r := Reflect(p, ADDED, name).0;
      && p <= r && Contains(r, name)
      && (!Contains(p, name) ==>
            |r| == |p| + 1
            && r[|p|] == PipelineConfig(name, "meshery.meshsync.core", ["ADDED", "MODIFIED", "DELETED"]))
  {
    var r := Reflect(p, ADDED, name).0;
    if !Contains(p, name) {
      assert r[|p|].name == name;
    }
  }

  /** Every entry was there from the start, or was added for a CRD and then publishes every event type. */
  lemma {:induction false} EntriesAreGivenOrDefault(p: Pipelines, evs: seq<CrdEvent>, pc: PipelineConfig)
    requires pc in Watch(p, evs)
    ensures pc in p ||
      (pc.publishTo == DEFAULT_SUBJECT && (forall t: EventType :: t.Wire() in pc.events)
       && exists i :: 0 <= i < |evs| && evs[i] == CrdEvent(ADDED, pc.name, true))
  {
    if evs == [] {
    } else {
      var n := |evs| - 1;
      var e, q := evs[n], Watch(p, evs[..n]);
      if pc in q {
        EntriesAreGivenOrDefault(p, evs[..n], pc);
      } else if e.t.DELETED? && Contains(q, e.name) {
        var _ := FirstAt(q, e.name);
      } else {
        assert pc == PipelineConfig(e.name, DEFAULT_SUBJECT, DEFAULT_EVENTS)
          && evs[n] == CrdEvent(ADDED, pc.name, true);
        assert DEFAULT_EVENTS[0] == EventType.Add.Wire() && DEFAULT_EVENTS[1] == EventType.Update.Wire()
            && DEFAULT_EVENTS[2] == EventType.Delete.Wire();
      }
    }
  }
}
