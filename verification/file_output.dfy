/**
  File-mode output: the streaming deduplicator, the composite that fans out to several writers,
  and how the two output files of a snapshot relate.
 */
module FileOutput {
  import opened Resources
  import opened ContentDeduplicator
  import opened BufferedDeduplicator

  /** A writer the composite may hold. The log is what reached its file. */
  datatype WriterState =
    | Plain(log: seq<Attempt>)
    | Deduplicated(seen: set<string>, log: seq<Attempt>)

  /** One `Write` on a writer, when the file answers `ok`. */
  function Wrote(w: WriterState, s: Submission): WriterState {
    var u := Uid(s.event);
    match w
    case Plain(log) => Plain(log + [Attempt(s.event, s.ok)])
    case Deduplicated(seen, log) =>
      if u != "" && u in seen then w
      else Deduplicated(if u == "" then seen else seen + {u}, log + [Attempt(s.event, s.ok)])
  }

  /** The file was offered one more event, and refused it. */
  predicate Failed(before: seq<Attempt>, after: seq<Attempt>) {
    |after| == |before| + 1 && !after[|before|].ok
  }

  class InMemoryDeduplicatorStreamingWriter {
    const realWriter: Sink
    var seenUIDs: set<string>

    constructor (realWriter: Sink)
      ensures this.realWriter == realWriter && seenUIDs == {}
    {
      this.realWriter := realWriter;
      seenUIDs := {};
    }

    function State(): WriterState
      reads this, realWriter
    {
      Deduplicated(seenUIDs, realWriter.log)
    }

    /** Marks the UID before the write: a failed write is not retried. A duplicate returns no error. */
    method Write(obj: KubernetesResource, evtype: EventType, cfg: PipelineConfig) returns (err: bool)
      modifies this, realWriter
      ensures State() == Wrote(old(State()), Submission(Event(obj, evtype, cfg), !err))
      ensures err <==> Failed(old(realWriter.log), realWriter.log)
    {
      if obj.meta.Some? && obj.meta.value.uid != "" {
        var uid := obj.meta.value.uid;
        if uid in seenUIDs {
          return false;
        }
        seenUIDs := seenUIDs + {uid};
        err := realWriter.Write(obj, evtype, cfg);
        return;
      }
      err := realWriter.Write(obj, evtype, cfg);
    }
  }

  /** The implementations behind the `Writer` interface in file mode. */
  datatype Writer = FileWriter(file: Sink) | Streaming(w: InMemoryDeduplicatorStreamingWriter) {
    function Repr(): set<object> {
      match this
      case FileWriter(f) => {f}
      case Streaming(w) => {w, w.realWriter}
    }

    function State(): WriterState
      reads Repr()
    {
      match this
      case FileWriter(f) => WriterState.Plain(f.log)
      case Streaming(w) => w.State()
    }

    method Write(obj: KubernetesResource, evtype: EventType, cfg: PipelineConfig) returns (err: bool)
      modifies Repr()
      ensures State() == Wrote(old(State()), Submission(Event(obj, evtype, cfg), !err))
      ensures err <==> Failed(old(State().log), State().log)
    {
      match this
      case FileWriter(f) => err := f.Write(obj, evtype, cfg);
      case Streaming(w) => err := w.Write(obj, evtype, cfg);
    }
  }

  /** A writer took a submission; it failed exactly when its file refused the event. */
  predicate Took(before: WriterState, after: WriterState, s: Submission) {
    after == Wrote(before, s) && (!s.ok <==> Failed(before.log, after.log))
  }

  class CompositeWriter {
    const writersPool: seq<Writer>

    constructor (writers: seq<Writer>)
      requires forall i, j :: 0 <= i < j < |writers| ==> writers[i].Repr() !! writers[j].Repr()
      ensures writersPool == writers && Valid()
    {
      writersPool := writers;
    }

    /** The writers share no state. */
    ghost predicate Valid() {
      forall i, j :: 0 <= i < j < |writersPool| ==> writersPool[i].Repr() !! writersPool[j].Repr()
    }

    ghost function Repr(): set<object> {
      set i, o | 0 <= i < |writersPool| && o in writersPool[i].Repr() :: o
    }

    ghost function States(): (states: seq<WriterState>)
      reads Repr()
      ensures |states| == |writersPool|
      ensures forall i :: 0 <= i < |writersPool| ==> states[i] == writersPool[i].State()
    {
      seq(|writersPool|, i requires 0 <= i < |writersPool| reads Repr() => writersPool[i].State())
    }

    /**
      Every writer gets the event, whatever the others answer. `errs[i]` tells whether writer `i`
      failed, which it does exactly when its file refused the event.
     */
    method Write(
        obj: KubernetesResource, evtype: EventType, config: PipelineConfig)
      returns (err: bool, errs: seq<bool>)
      requires Valid()
      modifies Repr()
      ensures |errs| == |writersPool|
      ensures forall i :: 0 <= i < |writersPool| ==>
        Took(old(writersPool[i].State()), writersPool[i].State(), Submission(Event(obj, evtype, config), !errs[i]))
      ensures err <==> true in errs
    {
      errs := [];
      ghost var e := Event(obj, evtype, config);
      ghost var before := States();
      for i := 0 to |writersPool|
        invariant |errs| == i
        invariant forall j :: 0 <= j < i ==> Took(before[j], writersPool[j].State(), Submission(e, !errs[j]))
        invariant forall j :: i <= j < |writersPool| ==> writersPool[j].State() == before[j]
      {
        assert forall j :: 0 <= j < |writersPool| && j != i ==> writersPool[j].Repr() !! writersPool[i].Repr();
        label L:
        var failed := writersPool[i].Write(obj, evtype, config);
        assert forall j :: 0 <= j < |writersPool| && j != i ==>
          writersPool[j].State() == old@L(writersPool[j].State());
        errs := errs + [failed];
      }
      err := true in errs;
    }

    /** A run of events through the composite: each writer goes through all of them, with its own outcomes `oks[w]`. */
    method WriteAll(es: seq<Event>) returns (ghost oks: seq<seq<bool>>)
      requires Valid()
      modifies Repr()
      ensures |oks| == |writersPool| && forall w :: 0 <= w < |oks| ==> |oks[w]| == |es|
      ensures forall w :: 0 <= w < |writersPool| ==>
        writersPool[w].State() == RunWriter(old(writersPool[w].State()), Outcomes(es, oks[w]))
    {
      oks := seq(|writersPool|, w => []);
      for i := 0 to |es|
        invariant |oks| == |writersPool| && forall w :: 0 <= w < |oks| ==> |oks[w]| == i
        invariant forall w :: 0 <= w < |writersPool| ==>
          writersPool[w].State() == RunWriter(old(writersPool[w].State()), Outcomes(es[..i], oks[w]))
      {
        var _, errs := Write(es[i].obj, es[i].evtype, es[i].cfg);
        ghost var was := oks;
        oks := seq(|oks|, w requires 0 <= w < |oks| && |errs| == |oks| => oks[w] + [!errs[w]]);
        forall w | 0 <= w < |writersPool|
          ensures writersPool[w].State() == RunWriter(old(writersPool[w].State()), Outcomes(es[..i + 1], oks[w]))
        {
          OutcomesSnoc(old(writersPool[w].State()), es, was[w], i, !errs[w]);
        }
      }
      assert es[..|es|] == es;
    }
  }

  // ---------------------------------------------------------------- whole runs

  function RunWriter(w: WriterState, subs: seq<Submission>): WriterState {
    if subs == [] then w else Wrote(RunWriter(w, subs[..|subs| - 1]), subs[|subs| - 1])
  }

  /** Event `i` has no UID, or is the first with its UID. */
  predicate IsFirst(es: seq<Event>, i: nat)
    requires i < |es|
  {
    Uid(es[i]) == "" || forall j :: 0 <= j < i ==> Uid(es[j]) != Uid(es[i])
  }

  /** The positions of first occurrences, ascending. */
  function Firsts(es: seq<Event>): seq<nat> {
    if es == [] then []
    else
      var n := |es| - 1;
      Firsts(es[..n]) + if IsFirst(es, n) then [n] else []
  }

  lemma {:induction false} FirstsMeaning(es: seq<Event>)
    ensures forall k :: 0 <= k < |Firsts(es)| ==> Firsts(es)[k] < |es|
    ensures forall k, l :: 0 <= k < l < |Firsts(es)| ==> Firsts(es)[k] < Firsts(es)[l]
    ensures forall i: nat :: i in Firsts(es) <==> i < |es| && IsFirst(es, i)
  {
    if es == [] {
    } else {
      FirstsMeaning(es[..|es| - 1]);
    }
  }

  function Pick(es: seq<Event>, at: seq<nat>): seq<Event>
    requires forall k :: 0 <= k < |at| ==> at[k] < |es|
  {
    seq(|at|, k requires 0 <= k < |at| => es[at[k]])
  }

  function Uids(es: seq<Event>): set<string> {
    set e | e in es && Uid(e) != "" :: Uid(e)
  }

  lemma UidsSnoc(es: seq<Event>, e: Event)
    ensures Uids(es + [e]) == Uids(es) + (if Uid(e) == "" then {} else {Uid(e)})
  {
    assert forall x :: x in es + [e] <==> x in es || x == e;
  }

  /** The last event is picked when it has no UID or a new one. */
  lemma LastIsPicked(es: seq<Event>, n: nat)
    requires |es| == n + 1
    ensures Firsts(es) == Firsts(es[..n]) + (if Uid(es[n]) == "" || Uid(es[n]) !in Uids(es[..n]) then [n] else [])
  {
    assert IsFirst(es, n) <==> Uid(es[n]) == "" || Uid(es[n]) !in Uids(es[..n]);
  }

  lemma PickPrefix(es: seq<Event>, n: nat, at: seq<nat>)
    requires n <= |es| && forall k :: 0 <= k < |at| ==> at[k] < n
    ensures Pick(es, at) == Pick(es[..n], at)
  {
  }

  lemma {:induction false} StreamingSeesUids(subs: seq<Submission>)
    ensures
      var w := RunWriter(Deduplicated({}, []), subs);
      w.Deduplicated? && w.seen == Uids(Events(subs))
  {
    if subs == [] {
    } else {
      var n := |subs| - 1;
      StreamingSeesUids(subs[..n]);
      assert Events(subs) == Events(subs[..n]) + [subs[n].event];
      UidsSnoc(Events(subs[..n]), subs[n].event);
    }
  }

  /**
    The streaming deduplicator attempts exactly the first event of each UID and every UID-less
    event, in order, whatever the writes answer.
   */
  lemma {:induction false} StreamingKeepsFirsts(subs: seq<Submission>)
    ensures
      var es := Events(subs);
      var w := RunWriter(Deduplicated({}, []), subs);
      && (forall k :: 0 <= k < |Firsts(es)| ==> Firsts(es)[k] < |es|)
      && w.Deduplicated? && w.seen == Uids(es)
      && Attempted(w.log) == Pick(es, Firsts(es))
  {
    var es := Events(subs);
    FirstsMeaning(es);
    StreamingSeesUids(subs);
    if subs == [] {
    } else {
      var n := |subs| - 1;
      StreamingKeepsFirsts(subs[..n]);
      assert es[..n] == Events(subs[..n]) && es[n] == subs[n].event;
      AttemptedSnoc(RunWriter(Deduplicated({}, []), subs[..n]).log, Attempt(subs[n].event, subs[n].ok));
      LastIsPicked(es, n);
      PickPrefix(es, n, Firsts(es[..n]));
    }
  }

  /** No UID is attempted twice. */
  ghost predicate OncePerUid(es: seq<Event>) {
    forall k, l :: 0 <= k < l < |es| && Uid(es[k]) == Uid(es[l]) ==> Uid(es[k]) == ""
  }

  lemma {:induction false} PlainKeepsAll(subs: seq<Submission>)
    ensures
      var w := RunWriter(Plain([]), subs);
      w.Plain? && Attempted(w.log) == Events(subs)
  {
    if subs == [] {
    } else {
      var n := |subs| - 1;
      PlainKeepsAll(subs[..n]);
      AttemptedSnoc(RunWriter(Plain([]), subs[..n]).log, Attempt(subs[n].event, subs[n].ok));
      assert Events(subs) == Events(subs[..n]) + [subs[n].event];
    }
  }

  /** The submissions one writer of the pool sees: the common events with that writer's own outcomes. */
  function Outcomes(es: seq<Event>, oks: seq<bool>): seq<Submission>
    requires |es| == |oks|
  {
    seq(|es|, i requires 0 <= i < |es| => Submission(es[i], oks[i]))
  }

  lemma OutcomesSnoc(w: WriterState, es: seq<Event>, oks: seq<bool>, i: nat, ok: bool)
    requires i < |es| && |oks| == i
    ensures RunWriter(w, Outcomes(es[..i + 1], oks + [ok])) ==
      Wrote(RunWriter(w, Outcomes(es[..i], oks)), Submission(es[i], ok))
  {
    var subs := Outcomes(es[..i + 1], oks + [ok]);
    assert subs[..i] == Outcomes(es[..i], oks);
  }

  lemma FirstsCoverUids(es: seq<Event>)
    requires forall k :: 0 <= k < |Firsts(es)| ==> Firsts(es)[k] < |es|
    ensures Uids(Pick(es, Firsts(es))) == Uids(es)
  {
    var picked := Pick(es, Firsts(es));
    forall u | u in Uids(es) ensures u in Uids(picked) {
      FirstHasPlace(es, u);
      var i: nat :| i < |es| && Uid(es[i]) == u && IsFirst(es, i);
      FirstsMeaning(es);
      assert i in Firsts(es);
      var k :| 0 <= k < |Firsts(es)| && Firsts(es)[k] == i;
      assert picked[k] == es[i];
    }
    forall u | u in Uids(picked) ensures u in Uids(es) {
      var k :| 0 <= k < |picked| && Uid(picked[k]) == u;
      assert picked[k] == es[Firsts(es)[k]];
    }
  }

  lemma FirstsAreOncePerUid(es: seq<Event>)
    requires forall k :: 0 <= k < |Firsts(es)| ==> Firsts(es)[k] < |es|
    ensures OncePerUid(Pick(es, Firsts(es)))
  {
    var picked := Pick(es, Firsts(es));
    FirstsMeaning(es);
    forall k, l | 0 <= k < l < |picked| && Uid(picked[k]) == Uid(picked[l]) ensures Uid(picked[k]) == "" {
      assert Firsts(es)[l] in Firsts(es);
      assert IsFirst(es, Firsts(es)[l]);
    }
  }

  /**
    The two files of one run agree. The extended file is offered every event; the deduplicated
    one is offered the subsequence of first occurrences, with the same set of UIDs and no UID
    twice. Neither depends on which writes failed, its own or the other's.
   */
  lemma FileOutputsAgree(es: seq<Event>, extendedOks: seq<bool>, uniqueOks: seq<bool>)
    requires |es| == |extendedOks| == |uniqueOks|
    ensures
      var extended := RunWriter(Plain([]), Outcomes(es, extendedOks));
      var unique := RunWriter(Deduplicated({}, []), Outcomes(es, uniqueOks));
      && Attempted(extended.log) == es
      && (forall k :: 0 <= k < |Firsts(es)| ==> Firsts(es)[k] < |es|)
      && Attempted(unique.log) == Pick(es, Firsts(es))
      && Uids(Attempted(unique.log)) == Uids(es)
      && OncePerUid(Attempted(unique.log))
  {
    PlainKeepsAll(Outcomes(es, extendedOks));
    StreamingKeepsFirsts(Outcomes(es, uniqueOks));
    assert Events(Outcomes(es, extendedOks)) == es == Events(Outcomes(es, uniqueOks));
    FirstsMeaning(es);
    FirstsCoverUids(es);
    FirstsAreOncePerUid(es);
  }

  lemma {:induction false} FirstHasPlace(es: seq<Event>, u: string)
    requires u in Uids(es)
    ensures exists i: nat :: i < |es| && Uid(es[i]) == u && IsFirst(es, i)
  {
    var n := |es| - 1;
    if u in Uids(es[..n]) {
      FirstHasPlace(es[..n], u);
      var i: nat :| i < n && Uid(es[..n][i]) == u && IsFirst(es[..n], i);
      assert Uid(es[i]) == u && IsFirst(es, i);
    } else {
      assert forall j :: 0 <= j < n ==> es[j] in es[..n];
      assert Uid(es[n]) == u && IsFirst(es, n);
    }
  }

  /** File mode: the composite of the plain file, when asked for, and the deduplicated one, over a run of events. */
  method WriteFiles(outputExtended: bool, extended: Sink, unique: Sink, es: seq<Event>)
    requires extended != unique && extended.log == unique.log == []
    modifies extended, unique
    ensures Attempted(extended.log) == if outputExtended then es else []
    ensures forall k :: 0 <= k < |Firsts(es)| ==> Firsts(es)[k] < |es|
    ensures Attempted(unique.log) == Pick(es, Firsts(es))
    ensures Uids(Attempted(unique.log)) == Uids(es) && OncePerUid(Attempted(unique.log))
  {
    var writerPool := [];
    if outputExtended {
      writerPool := writerPool + [FileWriter(extended)];
    }
    var deduplicator := new InMemoryDeduplicatorStreamingWriter(unique);
    writerPool := writerPool + [Streaming(deduplicator)];
    var composite := new CompositeWriter(writerPool);
    var last := |writerPool| - 1;
    assert composite.writersPool[last].State() == Deduplicated({}, []);
    assert outputExtended ==> composite.writersPool[0].State() == WriterState.Plain([]);
    ghost var oks := composite.WriteAll(es);
    assert unique.log == composite.writersPool[last].State().log;
    assert outputExtended ==> extended.log == composite.writersPool[0].State().log;
    FileOutputsAgree(es, oks[0], oks[last]);
  }
}
