/**
  The deduplicator that buffers in memory and writes on `Flush`: which events each flush
  attempts, over any interleaving of writers and flushers.
 */
module BufferedDeduplicator {
  import opened Resources
  import opened Sequences

  /** What one flush takes away: the entities by UID, and the UID-less ones in order. */
  datatype Batch = Batch(byUid: map<string, Event>, noUid: seq<Event>)

  const NOTHING := Batch(map[], [])

  function Buffered(b: Batch, e: Event): Batch {
    if Uid(e) != "" then b.(byUid := b.byUid[Uid(e) := e]) else b.(noUid := b.noUid + [e])
  }

  function InOrder(byUid: map<string, Event>, order: seq<string>): seq<Event>
    requires forall u :: u in order ==> u in byUid
  {
    seq(|order|, i requires 0 <= i < |order| => byUid[order[i]])
  }

  lemma InOrderSnoc(byUid: map<string, Event>, order: seq<string>, u: string)
    requires forall v :: v in order + [u] ==> v in byUid
    ensures InOrder(byUid, order + [u]) == InOrder(byUid, order) + [byUid[u]]
  {
    assert forall v :: v in order ==> v in order + [u];
  }

  lemma AttemptedSnoc(log: seq<Attempt>, a: Attempt)
    ensures Attempted(log + [a]) == Attempted(log) + [a.event]
  {
  }

  /** The batch in some order of its keys, then the UID-less events. */
  function Laid(b: Batch, order: seq<string>): seq<Event>
    requires forall u :: u in order ==> u in b.byUid
  {
    InOrder(b.byUid, order) + b.noUid
  }

  function Attempted(log: seq<Attempt>): seq<Event> {
    seq(|log|, i requires 0 <= i < |log| => log[i].event)
  }

  /** The batch holds each UID's event under it, and UID-less events apart. */
  ghost predicate WellKept(b: Batch) {
    && (forall u :: u in b.byUid ==> u != "" && Uid(b.byUid[u]) == u)
    && (forall i :: 0 <= i < |b.noUid| ==> Uid(b.noUid[i]) == "")
  }

  lemma BufferedKeeps(b: Batch, e: Event)
    requires WellKept(b)
    ensures WellKept(Buffered(b, e))
  {
  }

  /** Every event of the batch once, and no other: one for each UID, and the UID-less ones in order. */
  ghost predicate Empties(sent: seq<Event>, b: Batch) {
    && EventsFor(sent, "") == b.noUid
    && forall u :: u != "" ==> EventsFor(sent, u) == if u in b.byUid then [b.byUid[u]] else []
  }

  lemma {:induction false} EventsForConcat(a: seq<Event>, b: seq<Event>, u: string)
    ensures EventsFor(a + b, u) == EventsFor(a, u) + EventsFor(b, u)
  {
    if b == [] {
      assert a + b == a;
    } else {
      var front, last := b[..|b| - 1], b[|b| - 1];
      EventsForConcat(a, front, u);
      assert b == front + [last];
      assert a + b == (a + front) + [last];
      EventsForSnoc(a + front, last, u);
      EventsForSnoc(front, last, u);
      Associate(EventsFor(a, u), EventsFor(front, u), last);
    }
  }

  lemma Associate(x: seq<Event>, y: seq<Event>, e: Event)
    ensures (x + y) + [e] == x + (y + [e])
  {
  }

  lemma {:induction false} AllOfOne(es: seq<Event>, u: string, v: string)
    requires forall i :: 0 <= i < |es| ==> Uid(es[i]) == v
    ensures EventsFor(es, u) == if u == v then es else []
  {
    if es == [] {
    } else {
      var n := |es| - 1;
      AllOfOne(es[..n], u, v);
      EventsForSnoc(es[..n], es[n], u);
      assert es == es[..n] + [es[n]];
    }
  }

  lemma {:induction false} InOrderOnce(byUid: map<string, Event>, order: seq<string>, u: string)
    requires Distinct(order) && forall v :: v in order ==> v in byUid && v != "" && Uid(byUid[v]) == v
    ensures EventsFor(InOrder(byUid, order), u) == if u in order then [byUid[u]] else []
  {
    if order == [] {
    } else {
      var n := |order| - 1;
      var last := order[n];
      assert order == order[..n] + [last];
      forall v | v in order[..n] ensures v in order && v != last {
      }
      InOrderOnce(byUid, order[..n], u);
      InOrderSnoc(byUid, order[..n], last);
      EventsForSnoc(InOrder(byUid, order[..n]), byUid[last], u);
    }
  }

  lemma LaidEmpties(b: Batch, order: seq<string>)
    requires WellKept(b) && Distinct(order) && forall u :: u in order <==> u in b.byUid
    ensures Empties(Laid(b, order), b)
  {
    forall u ensures EventsFor(Laid(b, order), u) ==
      EventsFor(InOrder(b.byUid, order), u) + EventsFor(b.noUid, u)
    {
      EventsForConcat(InOrder(b.byUid, order), b.noUid, u);
    }
    forall u ensures EventsFor(InOrder(b.byUid, order), u) == if u in order then [b.byUid[u]] else [] {
      InOrderOnce(b.byUid, order, u);
    }
    forall u ensures EventsFor(b.noUid, u) == if u == "" then b.noUid else [] {
      AllOfOne(b.noUid, u, "");
    }
  }

  class InMemoryDeduplicatorWriter {
    const realWriter: Sink
    var storage: map<string, Event>
    var storageIfNoMetaUID: seq<Event>

    constructor (realWriter: Sink)
      ensures this.realWriter == realWriter && Contents() == NOTHING
    {
      this.realWriter := realWriter;
      storage, storageIfNoMetaUID := map[], [];
    }

    function Contents(): Batch
      reads this
    {
      Batch(storage, storageIfNoMetaUID)
    }

    /** Critical section of one writer; never fails and never writes through. */
    method Write(obj: KubernetesResource, evtype: EventType, config: PipelineConfig) returns (err: bool)
      modifies this
      ensures !err && Contents() == Buffered(old(Contents()), Event(obj, evtype, config))
    {
      var uid := if obj.meta.Some? then obj.meta.value.uid else "";
      var entity := Event(obj, evtype, config);
      if uid != "" {
        storage := storage[uid := entity];
      } else {
        storageIfNoMetaUID := storageIfNoMetaUID + [entity];
      }
      err := false;
    }

    /** Critical section of one flush. */
    method Swap() returns (batch: Batch)
      modifies this
      ensures batch == old(Contents()) && Contents() == NOTHING
    {
      batch := Contents();
      storage, storageIfNoMetaUID := map[], [];
    }

    /**
      The slow part of a flush, outside the lock: every entity of the batch is attempted exactly
      once whatever fails before it, and the flush fails when any of them did.
     */
    method Drain(batch: Batch) returns (err: bool, ghost order: seq<string>)
      modifies realWriter
      ensures Distinct(order) && (forall u :: u in order <==> u in batch.byUid)
      ensures old(realWriter.log) <= realWriter.log
      ensures Attempted(realWriter.log[|old(realWriter.log)|..]) == Laid(batch, order)
      ensures WellKept(batch) ==> Empties(Attempted(realWriter.log[|old(realWriter.log)|..]), batch)
      ensures err <==> exists a :: a in realWriter.log[|old(realWriter.log)|..] && !a.ok
    {
      var rest := batch.byUid.Keys;
      order, err := [], false;
      ghost var before := realWriter.log;
      ghost var new_: seq<Attempt> := [];
      while rest != {}
        invariant rest <= batch.byUid.Keys && Distinct(order)
        invariant forall u :: u in order <==> u in batch.byUid && u !in rest
        invariant realWriter.log == before + new_
        invariant Attempted(new_) == InOrder(batch.byUid, order)
        invariant err <==> exists a :: a in new_ && !a.ok
        decreases rest
      {
        var u :| u in rest;
        var v := batch.byUid[u];
        var failed := realWriter.Write(v.obj, v.evtype, v.cfg);
        err := err || failed;
        AttemptedSnoc(new_, Attempt(v, !failed));
        InOrderSnoc(batch.byUid, order, u);
        new_ := new_ + [Attempt(v, !failed)];
        order, rest := order + [u], rest - {u};
      }
      for i := 0 to |batch.noUid|
        invariant realWriter.log == before + new_
        invariant Attempted(new_) == Laid(batch.(noUid := batch.noUid[..i]), order)
        invariant err <==> exists a :: a in new_ && !a.ok
      {
        var v := batch.noUid[i];
        var failed := realWriter.Write(v.obj, v.evtype, v.cfg);
        err := err || failed;
        AttemptedSnoc(new_, Attempt(v, !failed));
        new_ := new_ + [Attempt(v, !failed)];
      }
      assert batch.noUid[..|batch.noUid|] == batch.noUid;
      if WellKept(batch) {
        LaidEmpties(batch, order);
      }
    }

    method Flush() returns (err: bool, ghost order: seq<string>)
      modifies this, realWriter
      ensures Contents() == NOTHING
      ensures Distinct(order) && (forall u :: u in order <==> u in old(storage))
      ensures old(realWriter.log) <= realWriter.log
      ensures Attempted(realWriter.log[|old(realWriter.log)|..]) == Laid(old(Contents()), order)
      ensures WellKept(old(Contents())) ==>
        Empties(Attempted(realWriter.log[|old(realWriter.log)|..]), old(Contents()))
      ensures err <==> exists a :: a in realWriter.log[|old(realWriter.log)|..] && !a.ok
    {
      var batch := Swap();
      err, order := Drain(batch);
    }

    /** One write or one flush. `more` is what it attempts. */
    method Do(a: Action) returns (ghost more: seq<Attempt>)
      modifies this, realWriter
      ensures realWriter.log == old(realWriter.log) + more
      ensures Contents() == if a.Put? then Buffered(old(Contents()), a.event) else NOTHING
      ensures a.Put? ==> more == []
      ensures a.Take? && WellKept(old(Contents())) ==> Empties(Attempted(more), old(Contents()))
    {
      match a {
        case Put(e) =>
          var _ := Write(e.obj, e.evtype, e.cfg);
          more := [];
        case Take =>
          var _, _ := Flush();
          more := realWriter.log[|old(realWriter.log)|..];
      }
    }

    /**
      Writes and flushes in any order. `sent[i]` is what flush `i` attempted: it conserves its own
      epoch, and what reaches the real writer is the flushes' attempts one after the other.
     */
    method RunAll(acts: seq<Action>) returns (ghost sent: seq<seq<Event>>)
      requires Contents() == NOTHING
      modifies this, realWriter
      ensures old(realWriter.log) <= realWriter.log
      ensures Ran(acts, Contents(), realWriter.log[|old(realWriter.log)|..], sent)
    {
      if acts == [] {
        sent := [];
        NothingRan();
      } else {
        var n := |acts| - 1;
        sent := RunAll(acts[..n]);
        ghost var contents, log := Contents(), realWriter.log[|old(realWriter.log)|..];
        RanWellKept(acts[..n], contents, log, sent);
        ghost var more := Do(acts[n]);
        assert realWriter.log[|old(realWriter.log)|..] == log + more;
        RanNext(acts, n, contents, log, sent, more);
        assert acts[..n + 1] == acts;
        sent := SentNext(sent, acts[n], more);
      }
    }
  }

  lemma NothingRan()
    ensures Ran([], NOTHING, [], [])
  {
  }

  function SentNext(sent: seq<seq<Event>>, a: Action, more: seq<Attempt>): seq<seq<Event>> {
    if a.Put? then sent else sent + [Attempted(more)]
  }

  /**
    The account of a run. `log` is what its flushes attempted, one after the other as in `sent`;
    each flush conserves its own epoch; and the buffer summarizes the epoch still open.
   */
  ghost predicate Ran(acts: seq<Action>, contents: Batch, log: seq<Attempt>, sent: seq<seq<Event>>) {
    && contents == Perform(acts).contents && Summarizes(contents, Cut(acts).current)
    && Attempted(log) == Flatten(sent) && |sent| == |Cut(acts).closed|
    && forall k :: 0 <= k < |sent| ==> Conserves(sent[k], Cut(acts).closed[k])
  }

  lemma RanWellKept(acts: seq<Action>, contents: Batch, log: seq<Attempt>, sent: seq<seq<Event>>)
    requires Ran(acts, contents, log, sent)
    ensures WellKept(contents)
  {
    SummaryWellKept(contents, Cut(acts).current);
  }

  lemma RanPut(acts: seq<Action>, e: Event, contents: Batch, log: seq<Attempt>, sent: seq<seq<Event>>)
    requires Ran(acts, contents, log, sent)
    ensures Ran(acts + [Put(e)], Buffered(contents, e), log, sent)
  {
    assert (acts + [Put(e)])[..|acts|] == acts;
    SummarySnoc(contents, Cut(acts).current, e);
  }

  /** One more action keeps the account. */
  lemma RanNext(
      acts: seq<Action>, i: nat, contents: Batch, log: seq<Attempt>, sent: seq<seq<Event>>, more: seq<Attempt>)
    requires i < |acts| && Ran(acts[..i], contents, log, sent)
    requires acts[i].Put? ==> more == []
    requires acts[i].Take? ==> Empties(Attempted(more), contents)
    ensures Ran(
      acts[..i + 1], if acts[i].Put? then Buffered(contents, acts[i].event) else NOTHING, log + more,
      SentNext(sent, acts[i], more))
  {
    assert acts[..i + 1] == acts[..i] + [acts[i]];
    match acts[i]
    case Put(e) =>
      assert log + more == log;
      RanPut(acts[..i], e, contents, log, sent);
    case Take => RanTake(acts[..i], contents, log, sent, more);
  }

  lemma RanTake(acts: seq<Action>, contents: Batch, log: seq<Attempt>, sent: seq<seq<Event>>, more: seq<Attempt>)
    requires Ran(acts, contents, log, sent) && Empties(Attempted(more), contents)
    ensures Ran(acts + [Take], NOTHING, log + more, sent + [Attempted(more)])
  {
    var acts' := acts + [Take];
    assert acts'[..|acts|] == acts;
    EmptiesConserves(Attempted(more), contents, Cut(acts).current);
    AttemptedConcat(log, more);
    FlattenSnoc(sent, Attempted(more));
    assert Cut(acts').closed == Cut(acts).closed + [Cut(acts).current] && Cut(acts').current == [];
  }

  /** The last event of each UID of the epoch once, and its UID-less events in order. */
  ghost predicate Conserves(sent: seq<Event>, epoch: seq<Event>) {
    && EventsFor(sent, "") == EventsFor(epoch, "")
    && forall u :: u != "" ==> EventsFor(sent, u) == match Last(epoch, u) case None => [] case Some(e) => [e]
  }

  lemma EmptiesConserves(sent: seq<Event>, b: Batch, epoch: seq<Event>)
    requires Empties(sent, b) && Summarizes(b, epoch)
    ensures Conserves(sent, epoch)
  {
  }

  lemma {:induction false} LastHasUid(es: seq<Event>, u: string)
    ensures Last(es, u).Some? ==> Uid(Last(es, u).value) == u
    ensures forall i :: 0 <= i < |EventsFor(es, u)| ==> Uid(EventsFor(es, u)[i]) == u
  {
    if es == [] {
    } else {
      LastHasUid(es[..|es| - 1], u);
    }
  }

  lemma SummaryWellKept(b: Batch, epoch: seq<Event>)
    requires Summarizes(b, epoch)
    ensures WellKept(b)
  {
    forall u | u in b.byUid ensures Uid(b.byUid[u]) == u {
      LastHasUid(epoch, u);
    }
    LastHasUid(epoch, "");
  }

  lemma AttemptedConcat(a: seq<Attempt>, b: seq<Attempt>)
    ensures Attempted(a + b) == Attempted(a) + Attempted(b)
  {
  }

  // ------------------------------------------------- interleaved critical sections

  datatype Action = Put(event: Event) | Take

  /** The buffer, and the batches handed to flushes so far. */
  datatype Buffer = Buffer(contents: Batch, taken: seq<Batch>)

  function Perform(acts: seq<Action>): Buffer {
    if acts == [] then Buffer(NOTHING, [])
    else
      var b := Perform(acts[..|acts| - 1]);
      match acts[|acts| - 1]
      case Put(e) => b.(contents := Buffered(b.contents, e))
      case Take => Buffer(NOTHING, b.taken + [b.contents])
  }

  /** The events put in, in order. */
  function Puts(acts: seq<Action>): seq<Event> {
    if acts == [] then []
    else Puts(acts[..|acts| - 1]) + if acts[|acts| - 1].Put? then [acts[|acts| - 1].event] else []
  }

  /** `b` holds the last event of each UID in `epoch`, and all its UID-less events in order. */
  ghost predicate Summarizes(b: Batch, epoch: seq<Event>) {
    && (forall u :: u in b.byUid <==> u != "" && Last(epoch, u).Some?)
    && (forall u :: u in b.byUid ==> Last(epoch, u) == Some(b.byUid[u]))
    && b.noUid == EventsFor(epoch, "")
  }

  lemma SummarySnoc(b: Batch, epoch: seq<Event>, e: Event)
    requires Summarizes(b, epoch)
    ensures Summarizes(Buffered(b, e), epoch + [e])
  {
    forall u ensures Last(epoch + [e], u) == if Uid(e) == u then Some(e) else Last(epoch, u) {
      LastSnoc(epoch, e, u);
    }
    EventsForSnoc(epoch, e, "");
  }

  /** The events put in, cut at every take. */
  datatype Epochs = Epochs(closed: seq<seq<Event>>, current: seq<Event>)

  function Cut(acts: seq<Action>): Epochs {
    if acts == [] then Epochs([], [])
    else
      var c := Cut(acts[..|acts| - 1]);
      match acts[|acts| - 1]
      case Put(e) => c.(current := c.current + [e])
      case Take => Epochs(c.closed + [c.current], [])
  }

  /**
    Flush conservation. Whatever the interleaving of writers and flushers, each event put in
    lies in exactly one epoch; and each flush takes the last event of each UID of its own epoch
    with all that epoch's UID-less events, the open epoch being what is still buffered.
   */
  lemma {:induction false} EveryWriteInOneEpoch(acts: seq<Action>)
    ensures
      var c, b := Cut(acts), Perform(acts);
      && Flatten(c.closed) + c.current == Puts(acts)
      && |c.closed| == |b.taken|
      && (forall i :: 0 <= i < |b.taken| ==> Summarizes(b.taken[i], c.closed[i]))
      && Summarizes(b.contents, c.current)
  {
    if acts == [] {
    } else {
      var n := |acts| - 1;
      EveryWriteInOneEpoch(acts[..n]);
      var c := Cut(acts[..n]);
      match acts[n]
      case Put(e) => SummarySnoc(Perform(acts[..n]).contents, c.current, e);
      case Take => assert (c.closed + [c.current])[..|c.closed|] == c.closed;
    }
  }
}
