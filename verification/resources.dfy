/** Values that travel along the publish path, and the consumer at its far end. */
module Resources {

  datatype Option<+T> = None | Some(value: T)

  /** The broker's event types; the wire strings are what a pipeline's `Events` list holds. */
  datatype EventType = Add | Update | Delete {
    function Wire(): string {
      match this
      case Add => "ADDED"
      case Update => "MODIFIED"
      case Delete => "DELETED"
    }
  }

  /** The part of the metadata the writers look at. */
  datatype ObjectMeta = ObjectMeta(uid: string, namespace: string, name: string)

  /** A converted resource. `content` stands for the JSON text of every field not named here. */
  datatype KubernetesResource = KubernetesResource(meta: Option<ObjectMeta>, content: string)

  datatype PipelineConfig = PipelineConfig(name: string, publishTo: string, events: seq<string>)

  datatype Event = Event(obj: KubernetesResource, evtype: EventType, cfg: PipelineConfig)

  /** One call that reached a real writer, and whether it reported success. */
  datatype Attempt = Attempt(event: Event, ok: bool)

  /** The UID the writers key on: empty when the metadata is absent. */
  function UidOf(obj: KubernetesResource): string {
    match obj.meta
    case None => ""
    case Some(m) => m.uid
  }

  function Uid(e: Event): string {
    UidOf(e.obj)
  }

  /**
    The receiver of the published events: last write wins per UID, a DELETE removes.
    Events without a UID cannot be keyed, so their whole sequence is kept.
   */
  datatype Consumer = Consumer(store: map<string, KubernetesResource>, untracked: seq<Event>)

  const EMPTY_CONSUMER := Consumer(map[], [])

  function Apply(c: Consumer, e: Event): Consumer {
    var u := Uid(e);
    if u == "" then c.(untracked := c.untracked + [e])
    else if e.evtype.Delete? then c.(store := c.store - {u})
    else c.(store := c.store[u := e.obj])
  }

  function ApplyAll(c: Consumer, es: seq<Event>): Consumer {
    if es == [] then c else Apply(ApplyAll(c, es[..|es| - 1]), es[|es| - 1])
  }

  /** The events a real writer accepted: a failed write leaves the consumer unchanged. */
  function Delivered(log: seq<Attempt>): seq<Event> {
    if log == [] then []
    else
      var a := log[|log| - 1];
      Delivered(log[..|log| - 1]) + if a.ok then [a.event] else []
  }

  lemma ApplyAllSnoc(c: Consumer, es: seq<Event>, e: Event)
    ensures ApplyAll(c, es + [e]) == Apply(ApplyAll(c, es), e)
  {
    assert (es + [e])[..|es|] == es;
  }

  lemma DeliveredSnoc(log: seq<Attempt>, a: Attempt)
    ensures Delivered(log + [a]) == Delivered(log) + if a.ok then [a.event] else []
  {
    assert (log + [a])[..|log|] == log;
  }

  /** The newest event for `u`, if any. */
  function Last(es: seq<Event>, u: string): Option<Event> {
    if es == [] then None
    else if Uid(es[|es| - 1]) == u then Some(es[|es| - 1])
    else Last(es[..|es| - 1], u)
  }

  lemma LastSnoc(es: seq<Event>, e: Event, u: string)
    ensures Last(es + [e], u) == if Uid(e) == u then Some(e) else Last(es, u)
  {
    assert (es + [e])[..|es|] == es;
  }

  /** The events of one UID, in order. */
  function EventsFor(es: seq<Event>, u: string): seq<Event> {
    if es == [] then []
    else
      var e := es[|es| - 1];
      EventsFor(es[..|es| - 1], u) + if Uid(e) == u then [e] else []
  }

  lemma EventsForSnoc(es: seq<Event>, e: Event, u: string)
    ensures EventsFor(es + [e], u) == if Uid(e) == u then EventsFor(es, u) + [e] else EventsFor(es, u)
  {
    assert (es + [e])[..|es|] == es;
    assert EventsFor(es, u) + [] == EventsFor(es, u);
  }

  /**
    The real writer behind every wrapper (broker or file). Each call is recorded,
    and may fail for reasons the program cannot see.
   */
  class Sink {
    var log: seq<Attempt>

    constructor ()
      ensures log == []
    {
      log := [];
    }

    method Write(obj: KubernetesResource, evtype: EventType, cfg: PipelineConfig) returns (err: bool)
      modifies this
      ensures log == old(log) + [Attempt(Event(obj, evtype, cfg), !err)]
    {
      err := *;
      log := log + [Attempt(Event(obj, evtype, cfg), !err)];
    }
  }
}
