/** The registry of exec and log-stream sessions, and the non-blocking stop signal. */
module SessionRegistry {
  import opened Resources

  /** A channel with room for one signal. */
  class StructChannel {
    var full: bool

    constructor ()
      ensures !full
    {
      full := false;
    }

    /** A send inside a `select` with a default case: dropped when the slot is taken. */
    method TrySend()
      modifies this
      ensures full
    {
      if !full {
        full := true;
      }
    }
  }

  class Handler {
    var sessions: map<string, StructChannel>

    constructor ()
      ensures sessions == map[]
    {
      sessions := map[];
    }

    method AddSession(id: string) returns (ch: StructChannel, created: bool)
      modifies this
      ensures created <==> id !in old(sessions)
      ensures created ==> fresh(ch) && !ch.full && sessions == old(sessions)[id := ch]
      ensures !created ==> ch == old(sessions)[id] && sessions == old(sessions)
    {
      if id in sessions {
        return sessions[id], false;
      }
      ch := new StructChannel();
      sessions := sessions[id := ch];
      created := true;
    }

    method GetSession(id: string) returns (ch: Option<StructChannel>)
      ensures ch.Some? <==> id in sessions
      ensures ch.Some? ==> ch.value == sessions[id]
    {
      ch := if id in sessions then Some(sessions[id]) else None;
    }

    method DeleteSession(id: string)
      modifies this
      ensures sessions == old(sessions) - {id}
    {
      sessions := sessions - {id};
    }

    /** Stop request: signals the running session, if any, and never blocks. */
    method ExecCleanup(id: string)
      modifies sessions.Values
      ensures sessions == old(sessions)
      ensures id in sessions ==> sessions[id].full
      ensures forall ch :: ch in sessions.Values && (id !in sessions || ch != sessions[id]) ==> ch.full == old(ch.full)
    {
      var ch := GetSession(id);
      if ch.None? {
        return;
      }
      assert ch.value in sessions.Values;
      ch.value.TrySend();
    }

    /** A run of operations from an empty registry: `GetSession` finds the channel that `Opener` says. */
    method RunAll(ops: seq<Op>) returns (ghost created: map<nat, StructChannel>)
      requires sessions == map[]
      modifies this
      ensures forall id :: id in sessions <==> Opener(ops, id).Some?
      ensures forall id :: id in sessions ==>
        Opener(ops, id).value in created && sessions[id] == created[Opener(ops, id).value]
      ensures forall i, j :: i in created && j in created && i != j ==> created[i] != created[j]
    {
      created := map[];
      for i := 0 to |ops|
        invariant forall k :: k in created ==> k < i && allocated(created[k])
        invariant forall id :: id in sessions <==> Opener(ops[..i], id).Some?
        invariant forall id :: id in sessions ==>
          Opener(ops[..i], id).value in created && sessions[id] == created[Opener(ops[..i], id).value]
        invariant forall k, l :: k in created && l in created && k != l ==> created[k] != created[l]
      {
        assert ops[..i + 1][..i] == ops[..i];
        match ops[i] {
          case Register(id) =>
            var ch, isNew := AddSession(id);
            if isNew {
              created := created[i := ch];
            }
          case Drop(id) =>
            DeleteSession(id);
        }
      }
      assert ops[..|ops|] == ops;
    }
  }

  datatype Op = Register(id: string) | Drop(id: string)

  /** The number of the operation that created the channel registered for the id, if any. */
  function Opener(ops: seq<Op>, id: string): Option<nat> {
    if ops == [] then None
    else
      var n := |ops| - 1;
      var before := Opener(ops[..n], id);
      match ops[n]
      case Register(id') => if id' == id && before.None? then Some(n) else before
      case Drop(id') => if id' == id then None else before
  }

  /** The position after the last drop of the id, or the start. */
  function SinceDrop(ops: seq<Op>, id: string): (c: nat)
    ensures c <= |ops| && (c > 0 ==> ops[c - 1] == Drop(id))
    ensures forall m :: c <= m < |ops| ==> ops[m] != Drop(id)
  {
    if ops == [] then 0
    else if ops[|ops| - 1] == Drop(id) then |ops|
    else SinceDrop(ops[..|ops| - 1], id)
  }

  /** The channel an id finds is that of its first registration since it was last dropped; it finds none without one. */
  lemma {:induction false} OpenerIsFirstSinceDrop(ops: seq<Op>, id: string)
    ensures
      var c := SinceDrop(ops, id);
      match Opener(ops, id)
      case None => forall m :: c <= m < |ops| ==> ops[m] != Register(id)
      case Some(n) => c <= n < |ops| && ops[n] == Register(id) && forall m :: c <= m < n ==> ops[m] != Register(id)
  {
    if ops == [] {
    } else {
      OpenerIsFirstSinceDrop(ops[..|ops| - 1], id);
    }
  }
}

/**
  The life of sessions as a step machine. Every atomic step of every goroutine of every session
  is one action, so a run is an arbitrary interleaving. The n-th session ever added is
  generation n; ids may be used again once their session was deleted.
 */
module SessionProtocol {

  datatype Kind = Exec | Log

  /** How many stdin messages may wait for a session. */
  const INPUT_BUFFER: nat := 256

  /**
    Where a goroutine stands. `Ready` is the top of the exec input loop, the log read loop, or
    the running TTY; `Selecting(ch)` waits on the channel that belongs to generation `ch`.
   */
  datatype Phase = Absent | Created | Subscribed | Ready | Selecting(ch: nat) | Leaving | Finished

  /** How far the one cleanup of a session has come. */
  datatype Teardown = NotBegun | DoneClosed | Unsubscribed | Removed

  /**
    `closes` counts closings of the session's `done` channel; `recorded` and `taken` are history:
    a stop was sent to this session's channel, and this session's own receiver took it. `inbox`
    counts the stdin messages delivered and not yet handled.
   */
  datatype Session = Session(
    id: string, kind: Kind, main: Phase, side: Phase, teardown: Teardown,
    slot: bool, closes: nat, recorded: bool, taken: bool, inbox: nat)
  {
    /** The goroutine that waits for the stop signal: the input loop, or the log stream's waiter. */
    function Receiver(): Phase {
      if kind.Exec? then main else side
    }

    /** The receiver is done, or will never start; other goroutines may still be returning. */
    predicate ReceiverDone() {
      Receiver() in {Leaving, Finished} || (kind.Log? && side.Absent? && main in {Leaving, Finished})
    }
  }

  /**
    `live`: the generations whose input subscription the broker still serves; `stopping`: the
    global stop channel is closed.
   */
  datatype System = System(
    registry: map<string, nat>, sessions: seq<Session>, live: set<nat>, senders: set<nat>, stopping: bool)

  const INITIAL := System(map[], [], {}, {}, false)

  datatype Action =
    | Request(id: string, kind: Kind)       // start request: addSession, then the goroutine
    | StopLooksUp(id: string)               // stop request finds the channel ...
    | StopSends(g: nat)                     // ... and sends without blocking
    | Subscribe(g: nat, ok: bool)           // exec: SubscribeWithChannel
    | Spawn(g: nat)                         // exec: start the TTY goroutine, enter the loop
    | OpenStream(g: nat, ok: bool)          // log: open the stream, start the waiter
    | Look(g: nat)                          // the receiver calls getSession
    | Deliver(g: nat)                       // exec: the broker delivers one stdin message
    | Input(g: nat)                         // exec: one stdin message handled
    | TakeStop(g: nat)                      // the receiver takes a stop signal
    | Leave(g: nat)                         // the receiver sees done or the global stop
    | GlobalStop                            // the process closes the global stop channel
    | SideEnds(g: nat)                      // exec: the TTY ends
    | StreamEnds(g: nat)                    // log: end of stream or read error
    | CloseDone(g: nat)                     // terminate begins, or the deferred close(done)
    | Unsubscribe(g: nat, ok: bool)         // terminate: tear down input.<id>; an error is only logged
    | Remove(g: nat)                        // terminate or the last defer: deleteSession
    | Finish(g: nat)                        // the main goroutine returns
    | FinishSide(g: nat)                    // exec: the TTY goroutine returns

  predicate Exists(s: System, g: nat, k: Kind) {
    g < |s.sessions| && s.sessions[g].kind == k
  }

  predicate Enabled(s: System, a: Action) {
    match a
    case Request(_, _) => true
    case StopLooksUp(_) => true
    case StopSends(g) => g in s.senders && g < |s.sessions|
    case Subscribe(g, _) => Exists(s, g, Exec) && s.sessions[g].main == Created
    case Spawn(g) => Exists(s, g, Exec) && s.sessions[g].main == Subscribed
    case OpenStream(g, _) => Exists(s, g, Log) && s.sessions[g].main == Created
    case Look(g) => g < |s.sessions| && s.sessions[g].Receiver() == Ready
    case Deliver(g) => Exists(s, g, Exec) && g in s.live && s.sessions[g].inbox < INPUT_BUFFER
    case Input(g) => Exists(s, g, Exec) && s.sessions[g].main.Selecting? && s.sessions[g].inbox > 0
    case TakeStop(g) =>
      && g < |s.sessions| && s.sessions[g].Receiver().Selecting?
      && s.sessions[g].Receiver().ch < |s.sessions| && s.sessions[s.sessions[g].Receiver().ch].slot
    case Leave(g) =>
      g < |s.sessions| && s.sessions[g].Receiver().Selecting? && (s.sessions[g].closes > 0 || s.stopping)
    case GlobalStop => true
    case SideEnds(g) => Exists(s, g, Exec) && s.sessions[g].side == Ready
    case StreamEnds(g) => Exists(s, g, Log) && s.sessions[g].main == Ready
    case CloseDone(g) =>
      g < |s.sessions| && s.sessions[g].teardown == NotBegun &&
      (if s.sessions[g].kind.Exec? then s.sessions[g].main == Leaving || s.sessions[g].side == Leaving
       else s.sessions[g].main == Leaving && s.sessions[g].side != Absent)
    case Unsubscribe(g, _) => Exists(s, g, Exec) && s.sessions[g].teardown == DoneClosed
    case Remove(g) =>
      g < |s.sessions| &&
      (if s.sessions[g].kind.Exec? then s.sessions[g].teardown == Unsubscribed
       else s.sessions[g].main == Leaving &&
            s.sessions[g].teardown == (if s.sessions[g].side == Absent then NotBegun else DoneClosed))
    case Finish(g) => g < |s.sessions| && s.sessions[g].main == Leaving && s.sessions[g].teardown == Removed
    case FinishSide(g) => Exists(s, g, Exec) && s.sessions[g].side == Leaving && s.sessions[g].teardown == Removed
  }

  function Put(s: System, g: nat, x: Session): System
    requires g < |s.sessions|
  {
    s.(sessions := s.sessions[g := x])
  }

  function WithReceiver(x: Session, p: Phase): Session {
    if x.kind.Exec? then x.(main := p) else x.(side := p)
  }

  /** Where the receiver goes when it stops waiting: the exec loop returns, the log waiter is done. */
  function Quit(x: Session): Session {
    WithReceiver(x, if x.kind.Exec? then Leaving else Finished)
  }

  /** The generations of one id; they share the input subject, and a broker unsubscribes by subject. */
  function SameId(s: System, g: nat): set<nat>
    requires g < |s.sessions|
  {
    set h | 0 <= h < |s.sessions| && s.sessions[h].id == s.sessions[g].id
  }

  function Step(s: System, a: Action): System
    requires Enabled(s, a)
  {
    match a
    case Request(id, kind) =>
      if id in s.registry then s
      else s.(
        registry := s.registry[id := |s.sessions|],
        sessions := s.sessions + [Session(id, kind, Created, Absent, NotBegun, false, 0, false, false, 0)])
    case StopLooksUp(id) => if id in s.registry then s.(senders := s.senders + {s.registry[id]}) else s
    case StopSends(g) => Put(s, g, s.sessions[g].(slot := true, recorded := true)).(senders := s.senders - {g})
    case Subscribe(g, ok) =>
      Put(s, g, s.sessions[g].(main := Subscribed)).(live := if ok then s.live + {g} else s.live)
    case Spawn(g) => Put(s, g, s.sessions[g].(main := Ready, side := Ready))
    case OpenStream(g, ok) =>
      Put(s, g, if ok then s.sessions[g].(main := Ready, side := Ready) else s.sessions[g].(main := Leaving))
    case Look(g) =>
      var x := s.sessions[g];
      Put(s, g, if x.id in s.registry then WithReceiver(x, Selecting(s.registry[x.id])) else Quit(x))
    case Deliver(g) => Put(s, g, s.sessions[g].(inbox := s.sessions[g].inbox + 1))
    case Input(g) => Put(s, g, s.sessions[g].(main := Ready, inbox := s.sessions[g].inbox - 1))
    case TakeStop(g) =>
      var ch := s.sessions[g].Receiver().ch;
      var s' := Put(s, ch, s.sessions[ch].(slot := false, taken := s.sessions[ch].taken || ch == g));
      Put(s', g, Quit(s'.sessions[g]))
    case Leave(g) => Put(s, g, Quit(s.sessions[g]))
    case GlobalStop => s.(stopping := true)
    case SideEnds(g) => Put(s, g, s.sessions[g].(side := Leaving))
    case StreamEnds(g) => Put(s, g, s.sessions[g].(main := Leaving))
    case CloseDone(g) => Put(s, g, s.sessions[g].(teardown := DoneClosed, closes := s.sessions[g].closes + 1))
    case Unsubscribe(g, ok) =>
      Put(s, g, s.sessions[g].(teardown := Unsubscribed)).(live := if ok then s.live - SameId(s, g) else s.live)
    case Remove(g) =>
      Put(s, g, s.sessions[g].(teardown := Removed)).(registry := s.registry - {s.sessions[g].id})
    case Finish(g) => Put(s, g, s.sessions[g].(main := Finished))
    case FinishSide(g) => Put(s, g, s.sessions[g].(side := Finished))
  }

  /** An id is used again only after the receivers of its earlier sessions are done. */
  predicate ReusesLate(s: System, a: Action) {
    a.Request? && a.id !in s.registry ==>
      forall g :: 0 <= g < |s.sessions| && s.sessions[g].id == a.id ==> s.sessions[g].ReceiverDone()
  }

  /** `acts` is an interleaving leading to `s`; a `patient` one reuses ids late. */
  ghost predicate Reaches(patient: bool, acts: seq<Action>, s: System) {
    if acts == [] then s == INITIAL
    else
      var n := |acts| - 1;
      exists s0 ::
        && Reaches(patient, acts[..n], s0)
        && Enabled(s0, acts[n]) && (patient ==> ReusesLate(s0, acts[n]))
        && s == Step(s0, acts[n])
  }

  /** An id is registered to a generation exactly until that generation's own cleanup removes it. */
  ghost predicate RegisteredUntilRemoved(s: System) {
    && (forall g :: 0 <= g < |s.sessions| ==>
          (s.sessions[g].id in s.registry && s.registry[s.sessions[g].id] == g <==> s.sessions[g].teardown != Removed))
    && (forall id :: id in s.registry ==> s.registry[id] < |s.sessions| && s.sessions[s.registry[id]].id == id)
  }

  /** The TTY, the waiter and the cleanup come after the main goroutine's setup. */
  ghost predicate StartsInOrder(x: Session) {
    && (x.main in {Created, Subscribed} ==> x.side == Absent && x.teardown == NotBegun)
    && x.side !in {Created, Subscribed}
  }

  /**
    The main goroutine exists from the start, an exec session's TTY from when that enters its loop,
    and the goroutine that waits for a stop as long as a log stream is read.
   */
  ghost predicate SetUp(x: Session) {
    && x.main != Absent
    && (x.kind.Exec? && x.main !in {Created, Subscribed} ==> x.side != Absent)
    && (x.kind.Log? && x.main == Ready ==> x.side != Absent)
  }

  /** Exec and log sessions have different goroutines. */
  ghost predicate FitsKind(x: Session) {
    if x.kind.Exec? then !x.side.Selecting?
    else !x.main.Selecting? && x.main != Subscribed && x.side != Leaving && x.teardown != Unsubscribed
  }

  /** An exec session's goroutines wait for the cleanup, as a log stream's does; it closes `done` once. */
  ghost predicate EndsInOrder(x: Session) {
    && (x.main == Finished ==> x.teardown == Removed)
    && (x.kind.Exec? && x.side == Finished ==> x.teardown == Removed)
    && (x.kind.Log? && x.side == Absent ==> x.teardown in {NotBegun, Removed})
    && x.closes == (if x.teardown == NotBegun || (x.kind.Log? && x.side == Absent) then 0 else 1)
  }

  ghost predicate Orderly(x: Session) {
    StartsInOrder(x) && SetUp(x) && FitsKind(x) && EndsInOrder(x)
  }

  /** Of the generations of one id, all but the last were removed. */
  ghost predicate EarlierRemoved(s: System) {
    forall g, h :: 0 <= g < h < |s.sessions| && s.sessions[g].id == s.sessions[h].id ==>
      s.sessions[g].teardown == Removed
  }

  ghost predicate Invariant(s: System) {
    && RegisteredUntilRemoved(s)
    && (forall g :: 0 <= g < |s.sessions| ==> Orderly(s.sessions[g]))
    && EarlierRemoved(s)
    && (forall g :: g in s.live ==> g < |s.sessions|)
    && (forall g :: g in s.senders ==> g < |s.sessions|)
  }

  lemma TakeKeepsStart(s: System, a: Action, g: nat)
    requires Enabled(s, a) && a.TakeStop? && g < |s.sessions| && Orderly(s.sessions[g])
    ensures StartsInOrder(Step(s, a).sessions[g])
  {
  }

  lemma StepKeepsStart(s: System, a: Action, g: nat)
    requires Enabled(s, a) && g < |Step(s, a).sessions|
    requires g < |s.sessions| ==> Orderly(s.sessions[g])
    ensures StartsInOrder(Step(s, a).sessions[g])
  {
    if a.TakeStop? {
      TakeKeepsStart(s, a, g);
    } else if g < |s.sessions| && Step(s, a).sessions[g] != s.sessions[g] {
      assert !a.Request? && !a.StopLooksUp? && !a.GlobalStop? && a.g == g;
    }
  }

  lemma StepKeepsSetUp(s: System, a: Action, g: nat)
    requires Enabled(s, a) && g < |Step(s, a).sessions|
    requires g < |s.sessions| ==> SetUp(s.sessions[g]) && StartsInOrder(s.sessions[g]) && FitsKind(s.sessions[g])
    ensures SetUp(Step(s, a).sessions[g])
  {
  }

  lemma StepKeepsKind(s: System, a: Action, g: nat)
    requires Enabled(s, a) && g < |Step(s, a).sessions|
    requires g < |s.sessions| ==> Orderly(s.sessions[g])
    ensures FitsKind(Step(s, a).sessions[g])
  {
  }

  /** Taking a stop moves no session's cleanup, and ends no exec main goroutine. */
  lemma TakeKeepsEnd(s: System, a: Action, g: nat)
    requires Enabled(s, a) && a.TakeStop? && g < |s.sessions| && Orderly(s.sessions[g])
    ensures EndsInOrder(Step(s, a).sessions[g])
  {
  }

  lemma StepKeepsEnd(s: System, a: Action, g: nat)
    requires Enabled(s, a) && g < |Step(s, a).sessions|
    requires g < |s.sessions| ==> Orderly(s.sessions[g])
    ensures EndsInOrder(Step(s, a).sessions[g])
  {
    if a.TakeStop? {
      TakeKeepsEnd(s, a, g);
    } else if g < |s.sessions| && Step(s, a).sessions[g] != s.sessions[g] {
      assert !a.Request? && !a.StopLooksUp? && !a.GlobalStop? && a.g == g;
    }
  }

  /** Only a start request and a removal touch the registry, or how far a session is from removal. */
  lemma StepFramesRegistry(s: System, a: Action)
    requires Enabled(s, a) && !a.Request? && !a.Remove?
    ensures
      var s' := Step(s, a);
      && s'.registry == s.registry && |s'.sessions| == |s.sessions|
      && forall g :: 0 <= g < |s.sessions| ==>
           s'.sessions[g].id == s.sessions[g].id &&
           (s'.sessions[g].teardown == Removed <==> s.sessions[g].teardown == Removed)
  {
  }

  lemma RemoveKeepsRegistry(s: System, a: Action)
    requires Enabled(s, a) && a.Remove? && RegisteredUntilRemoved(s)
    ensures RegisteredUntilRemoved(Step(s, a))
    ensures forall g :: 0 <= g < |s.sessions| && g != a.g ==> Step(s, a).sessions[g] == s.sessions[g]
  {
    var s', id := Step(s, a), s.sessions[a.g].id;
    assert s.registry[id] == a.g;
    assert forall g :: 0 <= g < |s.sessions| ==> s'.sessions[g].id == s.sessions[g].id;
  }

  lemma StepKeepsRegistry(s: System, a: Action)
    requires Enabled(s, a) && RegisteredUntilRemoved(s)
    ensures RegisteredUntilRemoved(Step(s, a))
  {
    if a.Remove? {
      RemoveKeepsRegistry(s, a);
    } else if !a.Request? {
      StepFramesRegistry(s, a);
      var s' := Step(s, a);
      forall g | 0 <= g < |s'.sessions|
        ensures s'.sessions[g].id in s'.registry && s'.registry[s'.sessions[g].id] == g <==>
          s'.sessions[g].teardown != Removed
      {
        assert s.sessions[g].id == s'.sessions[g].id;
      }
    }
  }

  lemma IdStays(s: System, a: Action, g: nat)
    requires Enabled(s, a) && g < |s.sessions|
    ensures g < |Step(s, a).sessions| && Step(s, a).sessions[g].id == s.sessions[g].id
    ensures Step(s, a).sessions[g].kind == s.sessions[g].kind
  {
  }

  lemma RemovedStays(s: System, a: Action, g: nat)
    requires Enabled(s, a) && g < |s.sessions| && s.sessions[g].teardown == Removed
    ensures Step(s, a).sessions[g].teardown == Removed
  {
    if !Own(a, g) && a != Input(g) && a != TakeStop(g) && a != Deliver(g) {
      OthersMoveNothing(s, a, g);
    }
  }

  lemma StepKeepsEarlierRemoved(s: System, a: Action)
    requires Enabled(s, a) && RegisteredUntilRemoved(s) && EarlierRemoved(s)
    requires forall g :: 0 <= g < |s.sessions| ==> Orderly(s.sessions[g])
    ensures EarlierRemoved(Step(s, a))
  {
    var s' := Step(s, a);
    forall g, h | 0 <= g < h < |s'.sessions| && s'.sessions[g].id == s'.sessions[h].id
      ensures s'.sessions[g].teardown == Removed
    {
      IdStays(s, a, g);
      if h < |s.sessions| {
        IdStays(s, a, h);
      }
      RemovedStays(s, a, g);
    }
  }

  lemma StepKeepsInvariant(s: System, a: Action)
    requires Enabled(s, a) && Invariant(s)
    ensures Invariant(Step(s, a))
  {
    var s' := Step(s, a);
    StepKeepsRegistry(s, a);
    forall g | 0 <= g < |s'.sessions| ensures Orderly(s'.sessions[g]) {
      StepKeepsStart(s, a, g);
      StepKeepsSetUp(s, a, g);
      StepKeepsKind(s, a, g);
      StepKeepsEnd(s, a, g);
    }
    StepKeepsEarlierRemoved(s, a);
  }

  lemma {:induction false} ReachableInvariant(patient: bool, acts: seq<Action>, s: System)
    requires Reaches(patient, acts, s)
    ensures Invariant(s)
  {
    if acts == [] {
    } else {
      var n := |acts| - 1;
      var s0 :| Reaches(patient, acts[..n], s0) && Enabled(s0, acts[n]) && s == Step(s0, acts[n]);
      ReachableInvariant(patient, acts[..n], s0);
      StepKeepsInvariant(s0, acts[n]);
    }
  }

  /**
    Session generations. In every interleaving, an id is registered to generation g exactly from
    g's start request to the removal in g's own cleanup, and no `done` channel is closed twice.
   */
  lemma SessionGenerations(acts: seq<Action>, s: System)
    requires Reaches(false, acts, s)
    ensures forall g :: 0 <= g < |s.sessions| ==>
      (s.sessions[g].teardown != Removed <==> s.sessions[g].id in s.registry && s.registry[s.sessions[g].id] == g)
    ensures forall g :: 0 <= g < |s.sessions| ==> s.sessions[g].closes <= 1
  {
    ReachableInvariant(false, acts, s);
  }

  /** A start request for an id without a session begins one, and is ignored otherwise. */
  lemma RequestBegins(s: System, id: string, kind: Kind)
    requires RegisteredUntilRemoved(s)
    ensures
      var s', n := Step(s, Request(id, kind)), |s.sessions|;
      if id in s.registry then s' == s
      else
        && |s'.sessions| == n + 1 && s'.sessions[..n] == s.sessions
        && s'.sessions[n].id == id && s'.sessions[n].kind == kind
        && !Ended(s', n) && id in s'.registry && s'.registry[id] == n
  {
  }

  // ------------------------------------------------------------------- every session can end

  /**
    A step of generation `g`'s own goroutines, with the end of its TTY or stream. Input messages
    and stops, which the loop may handle before it leaves, are not needed.
   */
  predicate Own(a: Action, g: nat) {
    match a
    case Subscribe(h, _) => h == g
    case Spawn(h) => h == g
    case OpenStream(h, _) => h == g
    case Look(h) => h == g
    case Leave(h) => h == g
    case SideEnds(h) => h == g
    case StreamEnds(h) => h == g
    case CloseDone(h) => h == g
    case Unsubscribe(h, _) => h == g
    case Remove(h) => h == g
    case Finish(h) => h == g
    case FinishSide(h) => h == g
    case _ => false
  }

  /** Every goroutine of the session has returned, or never started, and its cleanup is complete. */
  predicate Ended(s: System, g: nat) {
    && g < |s.sessions| && s.sessions[g].main == Finished && s.sessions[g].side in {Finished, Absent}
    && s.sessions[g].teardown == Removed
    && !(s.sessions[g].id in s.registry && s.registry[s.sessions[g].id] == g)
  }

  /** How many steps of its own are left to a goroutine at most. */
  function Steps(p: Phase): nat {
    match p
    case Created => 5
    case Subscribed => 4
    case Ready => 3
    case Selecting(_) => 2
    case Leaving => 1
    case _ => 0
  }

  /** How many steps of its own are left to a session at most. */
  function Rank(x: Session): nat {
    Steps(x.main)
    + (if x.main in {Created, Subscribed} then 4 else Steps(x.side))
    + (match x.teardown case NotBegun => 3 case DoneClosed => 2 case Unsubscribed => 1 case Removed => 0)
  }

  /** Each step of its own brings a session closer to its end, whatever its subscription or stream answers. */
  lemma OwnStepAdvances(s: System, a: Action, g: nat)
    requires Enabled(s, a) && Own(a, g) && Orderly(s.sessions[g])
    ensures |Step(s, a).sessions| == |s.sessions| && Rank(Step(s, a).sessions[g]) < Rank(s.sessions[g])
  {
  }

  /** Steps left, each waiting input message counting for the round of the loop that it causes. */
  function Weight(x: Session): nat {
    Rank(x) + 2 * x.inbox
  }

  /** Handling an input message or taking a stop brings a session closer to its end, too. */
  lemma InputIsPaidFor(s: System, a: Action, g: nat)
    requires Enabled(s, a) && g < |s.sessions| && Orderly(s.sessions[g]) && (a == Input(g) || a == TakeStop(g))
    ensures Weight(Step(s, a).sessions[g]) < Weight(s.sessions[g])
  {
  }

  /** Steps of others leave a session where it is; only a delivered message prolongs it. */
  lemma OthersKeepWeight(s: System, a: Action, g: nat)
    requires Enabled(s, a) && g < |s.sessions|
    requires !Own(a, g) && a != Input(g) && a != TakeStop(g) && a != Deliver(g)
    ensures Weight(Step(s, a).sessions[g]) == Weight(s.sessions[g])
  {
    OthersMoveNothing(s, a, g);
  }

  lemma OthersMoveNothing(s: System, a: Action, g: nat)
    requires Enabled(s, a) && g < |s.sessions|
    requires !Own(a, g) && a != Input(g) && a != TakeStop(g) && a != Deliver(g)
    ensures
      var x, x' := s.sessions[g], Step(s, a).sessions[g];
      x' == x.(slot := x'.slot, recorded := x'.recorded, taken := x'.taken)
  {
  }

  /** A slot is filled by a send only, and emptied by every take: a stop is taken at most once. */
  lemma StopsAreTakenOnce(s: System, a: Action, c: nat)
    requires Enabled(s, a) && c < |s.sessions|
    ensures !s.sessions[c].slot && a != StopSends(c) ==> !Step(s, a).sessions[c].slot
    ensures a.TakeStop? && s.sessions[a.g].Receiver().ch == c ==> s.sessions[c].slot && !Step(s, a).sessions[c].slot
  {
  }

  lemma ExecGoesOn(s: System, g: nat) returns (a: Action)
    requires Invariant(s) && Exists(s, g, Exec) && !Ended(s, g)
    ensures Own(a, g) && Enabled(s, a)
  {
    var x := s.sessions[g];
    assert Orderly(x);
    if x.main == Created {
      a := Subscribe(g, true);
    } else if x.main == Subscribed {
      a := Spawn(g);
    } else if x.side == Ready {
      a := SideEnds(g);
    } else if x.teardown == NotBegun {
      a := CloseDone(g);
    } else if x.teardown == DoneClosed {
      a := Unsubscribe(g, true);
    } else if x.teardown == Unsubscribed {
      a := Remove(g);
    } else if x.main == Ready {
      a := Look(g);
    } else if x.main.Selecting? {
      a := Leave(g);
    } else if x.main == Leaving {
      a := Finish(g);
    } else {
      a := FinishSide(g);
    }
  }

  lemma LogGoesOn(s: System, g: nat) returns (a: Action)
    requires Invariant(s) && Exists(s, g, Log) && !Ended(s, g)
    ensures Own(a, g) && Enabled(s, a)
  {
    var x := s.sessions[g];
    assert Orderly(x);
    if x.main == Created {
      a := OpenStream(g, true);
    } else if x.main == Ready {
      a := StreamEnds(g);
    } else if x.main == Leaving && x.teardown == NotBegun && x.side != Absent {
      a := CloseDone(g);
    } else if x.main == Leaving && x.teardown != Removed {
      a := Remove(g);
    } else if x.main == Leaving {
      a := Finish(g);
    } else if x.side == Ready {
      a := Look(g);
    } else {
      a := Leave(g);
    }
  }

  lemma EndedIsStuck(s: System, g: nat, a: Action)
    requires Ended(s, g) && Own(a, g)
    ensures !Enabled(s, a)
  {
  }

  /** A session has ended exactly when it has no step of its own left: it is never stuck before. */
  lemma EndedExactlyWhen(acts: seq<Action>, s: System, g: nat)
    requires Reaches(false, acts, s) && g < |s.sessions|
    ensures Ended(s, g) <==> !exists a :: Own(a, g) && Enabled(s, a)
  {
    ReachableInvariant(false, acts, s);
    if Ended(s, g) {
      forall a | Own(a, g) ensures !Enabled(s, a) {
        EndedIsStuck(s, g, a);
      }
    } else {
      var a;
      if s.sessions[g].kind.Exec? {
        a := ExecGoesOn(s, g);
      } else {
        a := LogGoesOn(s, g);
      }
    }
  }

  /** The run goes on from `acts` to `acts'` by steps of `g` alone. */
  predicate GoesOnAlone(acts: seq<Action>, acts': seq<Action>, g: nat) {
    acts <= acts' && forall i :: |acts| <= i < |acts'| ==> Own(acts'[i], g)
  }

  /** However a session goes on alone, it takes at most as many steps as its rank says. */
  lemma {:induction false} AloneIsShort(acts: seq<Action>, s: System, acts': seq<Action>, s': System, g: nat)
    requires Reaches(false, acts, s) && g < |s.sessions|
    requires Reaches(false, acts', s') && GoesOnAlone(acts, acts', g)
    ensures |s'.sessions| == |s.sessions|
    ensures |acts'| - |acts| + Rank(s'.sessions[g]) <= Rank(s.sessions[g])
    decreases |acts'|
  {
    if acts == acts' {
      SameRunSameState(acts, s, s');
    } else {
      var n := |acts'| - 1;
      var s0 :| Reaches(false, acts'[..n], s0) && Enabled(s0, acts'[n]) && s' == Step(s0, acts'[n]);
      assert GoesOnAlone(acts, acts'[..n], g);
      AloneIsShort(acts, s, acts'[..n], s0, g);
      ReachableInvariant(false, acts'[..n], s0);
      OwnStepAdvances(s0, acts'[n], g);
    }
  }

  /**
    Every session can end. From every reachable state, once its TTY or stream ends, steps of its
    own goroutines alone, taken in any order for as long as there are any, bring it to its end, and
    there are boundedly many of them; no request, stop, delivery or input message is needed.
   */
  lemma {:induction false} EverySessionEnds(acts: seq<Action>, s: System, g: nat)
    returns (acts': seq<Action>, s': System)
    requires Reaches(false, acts, s) && g < |s.sessions|
    ensures Reaches(false, acts', s') && GoesOnAlone(acts, acts', g) && Ended(s', g)
    ensures |acts'| - |acts| <= Rank(s.sessions[g])
    decreases Rank(s.sessions[g])
  {
    acts', s' := acts, s;
    if !Ended(s, g) {
      EndedExactlyWhen(acts, s, g);
      var a :| Own(a, g) && Enabled(s, a);
      var s1, acts1 := Take(false, acts, s, a);
      ReachableInvariant(false, acts, s);
      OwnStepAdvances(s, a, g);
      acts', s' := EverySessionEnds(acts1, s1, g);
      assert acts'[..|acts1|] == acts1;
    }
  }

  // ------------------------------------------------------------------- input subscriptions

  /** The ids of the generations. Ids are never changed and only appended to. */
  function Ids(s: System): seq<string> {
    seq(|s.sessions|, g requires 0 <= g < |s.sessions| => s.sessions[g].id)
  }

  predicate SucceedsFor(ids: seq<string>, a: Action, id: string) {
    a.Unsubscribe? && a.ok && a.g < |ids| && ids[a.g] == id
  }

  /** No unsubscribe of `id` succeeds from action number `i` on. */
  predicate NoneSucceedsFrom(ids: seq<string>, acts: seq<Action>, i: nat, id: string) {
    forall k :: i <= k < |acts| ==> !SucceedsFor(ids, acts[k], id)
  }

  /** Generation `g` subscribed with action number `p`, and no unsubscribe of its id has succeeded since. */
  predicate Hears(ids: seq<string>, acts: seq<Action>, g: nat, p: nat) {
    g < |ids| && p < |acts| && acts[p] == Subscribe(g, true) && NoneSucceedsFrom(ids, acts, p, ids[g])
  }

  lemma HearsSnoc(ids: seq<string>, acts: seq<Action>, a: Action, g: nat)
    requires g < |ids|
    ensures (exists p: nat :: Hears(ids, acts + [a], g, p)) <==>
      a == Subscribe(g, true) || ((exists p: nat :: Hears(ids, acts, g, p)) && !SucceedsFor(ids, a, ids[g]))
  {
    var acts' := acts + [a];
    if a == Subscribe(g, true) {
      assert Hears(ids, acts', g, |acts|);
    }
    forall p: nat | Hears(ids, acts', g, p) && a != Subscribe(g, true)
      ensures Hears(ids, acts, g, p) && !SucceedsFor(ids, a, ids[g])
    {
      assert forall k :: 0 <= k < |acts| ==> acts'[k] == acts[k];
      assert acts'[|acts|] == a;
    }
    forall p: nat | Hears(ids, acts, g, p) && !SucceedsFor(ids, a, ids[g]) ensures Hears(ids, acts', g, p) {
    }
  }

  lemma LiveStep(s: System, a: Action, g: nat)
    requires Enabled(s, a) && (g in s.live ==> g < |s.sessions|)
    ensures g in Step(s, a).live <==>
      a == Subscribe(g, true) || (g in s.live && !SucceedsFor(Ids(s), a, s.sessions[g].id))
  {
  }

  lemma LiveSnoc(acts: seq<Action>, s: System, a: Action, ids: seq<string>, g: nat)
    requires Reaches(false, acts, s) && Enabled(s, a) && Invariant(s)
    requires Ids(Step(s, a)) <= ids && g < |Step(s, a).sessions|
    requires g in s.live <==> g < |s.sessions| && exists p: nat :: Hears(ids, acts, g, p)
    ensures g in Step(s, a).live <==> exists p: nat :: Hears(ids, acts + [a], g, p)
  {
    StepEvolves(s, a);
    LiveStep(s, a, g);
    HearsSnoc(ids, acts, a, g);
    assert ids[g] == Ids(Step(s, a))[g];
    if g < |s.sessions| {
      assert Ids(s) <= ids && ids[g] == Ids(s)[g];
      assert SucceedsFor(Ids(s), a, Ids(s)[g]) == SucceedsFor(ids, a, ids[g]);
    } else {
      NobodySubscribes(acts, s, g);
      assert a != Subscribe(g, true);
    }
  }

  /** A subscription is live exactly when it succeeded and no unsubscribe of its id has succeeded since. */
  lemma {:induction false} LiveExactlyWhen(acts: seq<Action>, s: System, ids: seq<string>, g: nat)
    requires Reaches(false, acts, s) && Ids(s) <= ids
    ensures g in s.live <==> g < |s.sessions| && exists p: nat :: Hears(ids, acts, g, p)
  {
    ReachableInvariant(false, acts, s);
    if acts == [] {
    } else if g < |s.sessions| {
      var n := |acts| - 1;
      var s0 :| Reaches(false, acts[..n], s0) && Enabled(s0, acts[n]) && s == Step(s0, acts[n]);
      StepEvolves(s0, acts[n]);
      LiveExactlyWhen(acts[..n], s0, ids, g);
      ReachableInvariant(false, acts[..n], s0);
      LiveSnoc(acts[..n], s0, acts[n], ids, g);
      assert acts[..n] + [acts[n]] == acts;
    }
  }

  /** A generation that does not exist yet has not subscribed. */
  lemma NobodySubscribes(acts: seq<Action>, s: System, g: nat)
    requires Reaches(false, acts, s) && g >= |s.sessions|
    ensures forall p :: 0 <= p < |acts| ==> acts[p] != Subscribe(g, true)
  {
    forall p | 0 <= p < |acts| && acts[p] == Subscribe(g, true) ensures false {
      var sp := At(acts, s, p);
    }
  }

  /** Sessions are only ever added, and keep their id and kind. */
  ghost predicate Evolves(s: System, s': System) {
    && Ids(s) <= Ids(s')
    && forall g :: 0 <= g < |s.sessions| ==> s'.sessions[g].kind == s.sessions[g].kind
  }

  lemma StepEvolves(s: System, a: Action)
    requires Enabled(s, a)
    ensures Evolves(s, Step(s, a))
  {
    forall g | 0 <= g < |s.sessions|
      ensures g < |Step(s, a).sessions| && Ids(Step(s, a))[g] == Ids(s)[g]
      ensures Step(s, a).sessions[g].kind == s.sessions[g].kind
    {
      IdStays(s, a, g);
    }
  }

  /** The state before action number `j`, when that was enabled. */
  lemma {:induction false} At(acts: seq<Action>, s: System, j: nat) returns (sj: System)
    requires Reaches(false, acts, s) && j < |acts|
    ensures Reaches(false, acts[..j], sj) && Enabled(sj, acts[j]) && Invariant(sj) && Evolves(sj, s)
  {
    var n := |acts| - 1;
    var s0 :| Reaches(false, acts[..n], s0) && Enabled(s0, acts[n]) && s == Step(s0, acts[n]);
    StepEvolves(s0, acts[n]);
    if j == n {
      sj := s0;
      ReachableInvariant(false, acts[..n], s0);
    } else {
      sj := At(acts[..n], s0, j);
      assert acts[..n][..j] == acts[..j] && acts[..n][j] == acts[j];
    }
  }

  predicate TornDown(s: System, g: nat) {
    g < |s.sessions| && s.sessions[g].kind.Exec? && s.sessions[g].teardown in {Unsubscribed, Removed}
  }

  predicate Unsubscribes(a: Action, g: nat) {
    a.Unsubscribe? && a.g == g
  }

  lemma TornDownStep(s: System, a: Action, g: nat)
    requires Enabled(s, a) && (g < |s.sessions| ==> Orderly(s.sessions[g]))
    ensures TornDown(Step(s, a), g) <==> TornDown(s, g) || Unsubscribes(a, g)
  {
  }

  ghost predicate MadeUnsubscribe(acts: seq<Action>, g: nat) {
    exists i :: 0 <= i < |acts| && Unsubscribes(acts[i], g)
  }

  lemma MadeUnsubscribeSnoc(acts: seq<Action>, a: Action, g: nat)
    ensures MadeUnsubscribe(acts + [a], g) <==> MadeUnsubscribe(acts, g) || Unsubscribes(a, g)
  {
    if MadeUnsubscribe(acts, g) {
      var i :| 0 <= i < |acts| && Unsubscribes(acts[i], g);
      assert Unsubscribes((acts + [a])[i], g);
    }
    assert (acts + [a])[|acts|] == a;
  }

  /** An exec session is past its unsubscribe exactly when it made one. */
  lemma {:induction false} TornDownExactlyWhen(acts: seq<Action>, s: System, g: nat)
    requires Reaches(false, acts, s)
    ensures TornDown(s, g) <==> MadeUnsubscribe(acts, g)
  {
    if acts == [] {
    } else {
      var n := |acts| - 1;
      var s0 :| Reaches(false, acts[..n], s0) && Enabled(s0, acts[n]) && s == Step(s0, acts[n]);
      TornDownExactlyWhen(acts[..n], s0, g);
      ReachableInvariant(false, acts[..n], s0);
      TornDownStep(s0, acts[n], g);
      MadeUnsubscribeSnoc(acts[..n], acts[n], g);
      assert acts[..n] + [acts[n]] == acts;
    }
  }

  /** A session subscribes before it unsubscribes, and does the latter once. */
  lemma NothingAfterUnsubscribe(acts: seq<Action>, s: System, i: nat, k: nat, g: nat)
    requires Reaches(false, acts, s) && i < k < |acts| && Unsubscribes(acts[i], g)
    ensures !Unsubscribes(acts[k], g) && acts[k] != Subscribe(g, true)
  {
    var sk := At(acts, s, k);
    assert Unsubscribes(acts[..k][i], g);
    TornDownExactlyWhen(acts[..k], sk, g);
  }

  /** A live subscription is that of the registered generation, or its own unsubscribe has failed. */
  lemma LiveIsRegisteredOrFailed(acts: seq<Action>, s: System, g: nat)
    requires Reaches(false, acts, s) && g in s.live
    ensures g < |s.sessions|
    ensures
      || (s.sessions[g].id in s.registry && s.registry[s.sessions[g].id] == g)
      || Unsubscribe(g, false) in acts
  {
    ReachableInvariant(false, acts, s);
    LiveExactlyWhen(acts, s, Ids(s), g);
    if s.sessions[g].teardown == Removed {
      var p: nat :| Hears(Ids(s), acts, g, p);
      var sp := At(acts, s, p);
      TornDownExactlyWhen(acts, s, g);
      var i :| 0 <= i < |acts| && Unsubscribes(acts[i], g);
      if i < p {
        NothingAfterUnsubscribe(acts, s, i, p, g);
      }
      assert !SucceedsFor(Ids(s), acts[i], s.sessions[g].id);
      assert acts[i] == Unsubscribe(g, false);
    }
  }

  /** At most one live subscription per id. */
  ghost predicate OnePerId(s: System) {
    forall g, h :: 0 <= g < |s.sessions| && 0 <= h < |s.sessions| && s.sessions[g].id == s.sessions[h].id ==>
      g in s.live && h in s.live ==> g == h
  }

  /**
    Generation `g` subscribed, its unsubscribe (action `i`) failed, none of its id has succeeded
    since, and meanwhile (action `j`) a generation `h` subscribed under the same id.
   */
  ghost predicate Doubled(acts: seq<Action>, ids: seq<string>, g: nat, h: nat, i: nat, j: nat) {
    && g < |ids| && h < |ids| && ids[g] == ids[h]
    && i < j < |acts| && acts[i] == Unsubscribe(g, false) && acts[j] == Subscribe(h, true)
    && Subscribe(g, true) in acts && NoneSucceedsFrom(ids, acts, i, ids[g])
  }

  /** Of the generations of one id, at most one has not been removed. */
  lemma OneUnderWay(s: System, g: nat, h: nat)
    requires Invariant(s) && g < |s.sessions| && h < |s.sessions| && Ids(s)[g] == Ids(s)[h]
    requires s.sessions[g].teardown != Removed && s.sessions[h].teardown != Removed
    ensures g == h
  {
  }

  /** A subscribed session that has not unsubscribed is the only one of its id that can do so. */
  lemma OnlyOwnUnsubscribe(acts: seq<Action>, s: System, g: nat, p: nat, k: nat)
    requires Reaches(false, acts, s) && p < k < |acts| && acts[p] == Subscribe(g, true) && acts[k].Unsubscribe?
    requires g < |s.sessions| && acts[k].g < |s.sessions| && Ids(s)[acts[k].g] == Ids(s)[g]
    requires !MadeUnsubscribe(acts[..k], g)
    ensures acts[k].g == g
  {
    var sk := At(acts, s, k);
    assert acts[..k][p] == acts[p];
    var sp := At(acts[..k], sk, p);
    assert !TornDown(sk, g) by {
      TornDownExactlyWhen(acts[..k], sk, g);
    }
    OneUnderWay(sk, g, acts[k].g);
  }

  lemma NoneSucceedsBefore(acts: seq<Action>, s: System, g: nat, p: nat, i: nat)
    requires Reaches(false, acts, s) && p < i < |acts|
    requires acts[p] == Subscribe(g, true) && Unsubscribes(acts[i], g) && g < |s.sessions|
    ensures forall k :: p <= k < i ==> !SucceedsFor(Ids(s), acts[k], s.sessions[g].id)
  {
    forall k: nat | k < i ensures !Unsubscribes(acts[k], g) {
      if Unsubscribes(acts[k], g) {
        NothingAfterUnsubscribe(acts, s, k, i, g);
      }
    }
    forall k | p < k < i && SucceedsFor(Ids(s), acts[k], s.sessions[g].id) ensures false {
      assert forall j :: 0 <= j < k ==> acts[..k][j] == acts[j];
      OnlyOwnUnsubscribe(acts, s, g, p, k);
    }
  }

  lemma DoubledAreLive(acts: seq<Action>, s: System, g: nat, h: nat, i: nat, j: nat)
    requires Reaches(false, acts, s) && Doubled(acts, Ids(s), g, h, i, j)
    ensures g in s.live && h in s.live && g != h
  {
    var p :| 0 <= p < |acts| && acts[p] == Subscribe(g, true);
    if i < p {
      NothingAfterUnsubscribe(acts, s, i, p, g);
    }
    if g == h {
      NothingAfterUnsubscribe(acts, s, i, j, g);
    }
    NoneSucceedsBefore(acts, s, g, p, i);
    LiveExactlyWhen(acts, s, Ids(s), g);
    LiveExactlyWhen(acts, s, Ids(s), h);
    assert Hears(Ids(s), acts, g, p);
    assert Hears(Ids(s), acts, h, j);
  }

  /** A session subscribes only when every earlier one of its id has made its unsubscribe. */
  lemma EarlierUnsubscribed(acts: seq<Action>, s: System, g: nat, h: nat, j: nat)
    requires Reaches(false, acts, s) && g < h < |s.sessions| && Ids(s)[g] == Ids(s)[h]
    requires s.sessions[g].kind.Exec? && j < |acts| && acts[j] == Subscribe(h, true)
    ensures exists i :: 0 <= i < j && Unsubscribes(acts[i], g)
  {
    var sj := At(acts, s, j);
    assert Ids(sj)[g] == Ids(sj)[h];
    TornDownExactlyWhen(acts[..j], sj, g);
    var i :| 0 <= i < j && Unsubscribes(acts[..j][i], g);
    assert Unsubscribes(acts[i], g);
  }

  lemma LiveAreDoubled(acts: seq<Action>, s: System, g: nat, h: nat)
    requires Reaches(false, acts, s) && g < h < |s.sessions| && s.sessions[g].id == s.sessions[h].id
    requires g in s.live && h in s.live
    ensures exists i: nat, j: nat :: Doubled(acts, Ids(s), g, h, i, j)
  {
    LiveExactlyWhen(acts, s, Ids(s), g);
    LiveExactlyWhen(acts, s, Ids(s), h);
    var p: nat :| Hears(Ids(s), acts, g, p);
    var j: nat :| Hears(Ids(s), acts, h, j);
    var sp := At(acts, s, p);
    EarlierUnsubscribed(acts, s, g, h, j);
    var i: nat :| i < j && Unsubscribes(acts[i], g);
    if i < p {
      NothingAfterUnsubscribe(acts, s, i, p, g);
    }
    assert !SucceedsFor(Ids(s), acts[i], s.sessions[g].id);
    assert Doubled(acts, Ids(s), g, h, i, j);
  }

  /**
    Exactly when an id has at most one live subscription: unless some generation's unsubscribe
    failed, none of its id has succeeded since, and a later session subscribed in the meantime.
   */
  lemma OneSubscriptionExactlyWhen(acts: seq<Action>, s: System)
    requires Reaches(false, acts, s)
    ensures OnePerId(s) <==> !exists g: nat, h: nat, i: nat, j: nat :: Doubled(acts, Ids(s), g, h, i, j)
  {
    ReachableInvariant(false, acts, s);
    forall g: nat, h: nat, i: nat, j: nat | Doubled(acts, Ids(s), g, h, i, j) ensures !OnePerId(s) {
      DoubledAreLive(acts, s, g, h, i, j);
      assert Ids(s)[g] == s.sessions[g].id && Ids(s)[h] == s.sessions[h].id;
    }
    if !OnePerId(s) {
      var g, h :| g in s.live && h in s.live && g != h && s.sessions[g].id == s.sessions[h].id;
      if g < h {
        LiveAreDoubled(acts, s, g, h);
      } else {
        LiveAreDoubled(acts, s, h, g);
      }
    }
  }

  /**
    Teardown is local. Whatever generation g does, another generation's registration survives,
    even that of a later session under the same id; and so does its input subscription, but for
    one that an earlier session of the id failed to end, which a success of g ends at last.
   */
  lemma TeardownIsLocal(acts: seq<Action>, s: System, a: Action, h: nat)
    requires Reaches(false, acts, s) && Enabled(s, a)
    requires h < |s.sessions| && (a.Remove? || a.Unsubscribe?) && a.g != h
    ensures
      var s', id := Step(s, a), s.sessions[h].id;
      && (id in s'.registry && s'.registry[id] == h <==> id in s.registry && s.registry[id] == h)
      && (h in s'.live <==> h in s.live && !(h < a.g && SucceedsFor(Ids(s), a, id)))
    ensures h in s.live && h < a.g && SucceedsFor(Ids(s), a, s.sessions[h].id) ==> Unsubscribe(h, false) in acts
  {
    ReachableInvariant(false, acts, s);
    LiveStep(s, a, h);
    if h in s.live {
      LiveIsRegisteredOrFailed(acts, s, h);
    }
    assert Ids(s)[h] == s.sessions[h].id && Ids(s)[a.g] == s.sessions[a.g].id;
  }

  // ------------------------------------------------------------------- stop signals

  /** The receiver has stopped waiting, because of this session's own stop or otherwise. */
  predicate Stopped(x: Session) {
    x.Receiver() in {Leaving, Finished}
  }

  ghost predicate EarlierAreDone(s: System) {
    forall g, h :: 0 <= g < h < |s.sessions| && s.sessions[g].id == s.sessions[h].id ==> s.sessions[g].ReceiverDone()
  }

  /** The receiver waits on its own channel, and a signal sent to it is there or was taken by it. */
  ghost predicate StopKept(x: Session, g: nat) {
    && (x.Receiver().Selecting? ==> x.Receiver().ch == g)
    && (x.recorded ==> x.slot || x.taken)
    && (x.taken ==> Stopped(x))
  }

  ghost predicate StopsKept(s: System) {
    forall g :: 0 <= g < |s.sessions| ==> StopKept(s.sessions[g], g)
  }

  lemma DoneStays(s: System, a: Action, g: nat)
    requires Enabled(s, a) && g < |s.sessions|
    requires s.sessions[g].ReceiverDone() && Orderly(s.sessions[g])
    ensures Step(s, a).sessions[g].ReceiverDone()
  {
  }

  lemma StepKeepsEarlierDone(s: System, a: Action)
    requires Enabled(s, a) && ReusesLate(s, a) && Invariant(s) && EarlierAreDone(s)
    ensures EarlierAreDone(Step(s, a))
  {
    var s' := Step(s, a);
    forall g, h | 0 <= g < h < |s'.sessions| && s'.sessions[g].id == s'.sessions[h].id
      ensures s'.sessions[g].ReceiverDone()
    {
      IdStays(s, a, g);
      if h < |s.sessions| {
        IdStays(s, a, h);
      }
      DoneStays(s, a, g);
    }
  }

  /** With late reuse, a receiver that looks up its id finds its own channel, or none. */
  lemma LookFindsOwn(s: System, a: Action)
    requires Enabled(s, a) && a.Look? && Invariant(s) && EarlierAreDone(s)
    ensures s.sessions[a.g].id in s.registry ==> s.registry[s.sessions[a.g].id] == a.g
  {
  }

  lemma TakeKeepsStop(s: System, a: Action, g: nat)
    requires Enabled(s, a) && a.TakeStop? && StopsKept(s) && g < |s.sessions|
    ensures StopKept(Step(s, a).sessions[g], g)
  {
    assert StopKept(s.sessions[a.g], a.g);
    assert g != a.g ==> Step(s, a).sessions[g] == s.sessions[g];
  }

  lemma StepKeepsStop(s: System, a: Action, g: nat)
    requires Enabled(s, a) && !a.TakeStop? && g < |Step(s, a).sessions|
    requires g < |s.sessions| ==> Orderly(s.sessions[g]) && StopKept(s.sessions[g], g)
    requires a.Look? && s.sessions[a.g].id in s.registry ==> s.registry[s.sessions[a.g].id] == a.g
    ensures StopKept(Step(s, a).sessions[g], g)
  {
  }

  lemma StepKeepsStops(s: System, a: Action)
    requires Enabled(s, a) && Invariant(s) && EarlierAreDone(s) && StopsKept(s)
    ensures StopsKept(Step(s, a))
  {
    if a.Look? {
      LookFindsOwn(s, a);
    }
    forall g | 0 <= g < |Step(s, a).sessions| ensures StopKept(Step(s, a).sessions[g], g) {
      if a.TakeStop? {
        TakeKeepsStop(s, a, g);
      } else {
        StepKeepsStop(s, a, g);
      }
    }
  }

  lemma {:induction false} PatientInvariant(acts: seq<Action>, s: System)
    requires Reaches(true, acts, s)
    ensures Invariant(s) && EarlierAreDone(s) && StopsKept(s)
  {
    ReachableInvariant(true, acts, s);
    if acts == [] {
    } else {
      var n := |acts| - 1;
      var s0 :| Reaches(true, acts[..n], s0) && Enabled(s0, acts[n]) && ReusesLate(s0, acts[n])
        && s == Step(s0, acts[n]);
      PatientInvariant(acts[..n], s0);
      StepKeepsEarlierDone(s0, acts[n]);
      StepKeepsStops(s0, acts[n]);
    }
  }

  /**
    A stop is never lost. When ids are reused late, every stop that found a registered session is
    in that session's slot or was taken by its own receiver, which then stopped; this holds from
    before the receiver starts waiting to after the session has ended.
   */
  lemma StopIsNeverLost(acts: seq<Action>, s: System, g: nat)
    requires Reaches(true, acts, s)
    requires g < |s.sessions| && s.sessions[g].recorded
    ensures s.sessions[g].slot || (s.sessions[g].taken && Stopped(s.sessions[g]))
  {
    PatientInvariant(acts, s);
  }

  lemma SlotStays(s: System, a: Action, g: nat)
    requires Enabled(s, a) && !a.TakeStop? && g < |s.sessions| && s.sessions[g].slot
    ensures Step(s, a).sessions[g].slot
  {
  }

  /** A pending stop leaves its slot in one way only: the session's own receiver takes it and stops. */
  lemma PendingStopStays(acts: seq<Action>, s: System, a: Action, g: nat)
    requires Reaches(true, acts, s) && Enabled(s, a)
    requires g < |s.sessions| && s.sessions[g].slot
    ensures Step(s, a).sessions[g].slot || (a == TakeStop(g) && Stopped(Step(s, a).sessions[g]))
  {
    PatientInvariant(acts, s);
    if a.TakeStop? {
      assert StopKept(s.sessions[a.g], a.g);
    } else {
      SlotStays(s, a, g);
    }
  }

  lemma Take(patient: bool, acts: seq<Action>, s: System, a: Action)
    returns (s': System, acts': seq<Action>)
    requires Reaches(patient, acts, s) && Enabled(s, a) && (patient ==> ReusesLate(s, a))
    ensures s' == Step(s, a) && Reaches(patient, acts', s') && acts' == acts + [a]
  {
    s', acts' := Step(s, a), acts + [a];
    assert acts'[..|acts|] == acts;
  }

  // ------------------------------------------------------------------- stops when ids are reused early

  /** A receiver waits on its own channel or on that of a later session of its id. */
  ghost predicate WaitsForward(s: System) {
    forall g :: 0 <= g < |s.sessions| && s.sessions[g].Receiver().Selecting? ==>
      g <= s.sessions[g].Receiver().ch < |s.sessions| && s.sessions[s.sessions[g].Receiver().ch].id == s.sessions[g].id
  }

  ghost predicate SlotsHonest(x: Session) {
    (x.slot ==> x.recorded) && (x.taken ==> Stopped(x))
  }

  lemma LookGoesForward(s: System, a: Action)
    requires Enabled(s, a) && a.Look? && Invariant(s)
    ensures s.sessions[a.g].id in s.registry ==>
      a.g <= s.registry[s.sessions[a.g].id] < |s.sessions|
      && s.sessions[s.registry[s.sessions[a.g].id]].id == s.sessions[a.g].id
  {
  }

  /** A receiver that waits after a step waited before it, on the same channel, or has just looked up. */
  lemma WaitingBefore(s: System, a: Action, g: nat)
    requires Enabled(s, a) && g < |s.sessions| && Step(s, a).sessions[g].Receiver().Selecting?
    ensures
      var ch := Step(s, a).sessions[g].Receiver().ch;
      || s.sessions[g].Receiver() == Selecting(ch)
      || (a == Look(g) && s.sessions[g].id in s.registry && ch == s.registry[s.sessions[g].id])
  {
  }

  lemma StepKeepsForward(s: System, a: Action)
    requires Enabled(s, a) && Invariant(s) && WaitsForward(s)
    ensures WaitsForward(Step(s, a))
  {
    var s' := Step(s, a);
    StepEvolves(s, a);
    forall g | 0 <= g < |s'.sessions| && s'.sessions[g].Receiver().Selecting?
      ensures g <= s'.sessions[g].Receiver().ch < |s'.sessions|
      ensures Ids(s')[s'.sessions[g].Receiver().ch] == Ids(s')[g]
    {
      if g < |s.sessions| {
        WaitingBefore(s, a, g);
        if a == Look(g) {
          LookGoesForward(s, a);
        }
        var ch := s'.sessions[g].Receiver().ch;
        assert Ids(s)[ch] == Ids(s')[ch] && Ids(s)[g] == Ids(s')[g];
      }
    }
  }

  lemma StepKeepsHonest(s: System, a: Action, g: nat)
    requires Enabled(s, a) && g < |Step(s, a).sessions|
    requires g < |s.sessions| ==> SlotsHonest(s.sessions[g]) && Orderly(s.sessions[g])
    ensures SlotsHonest(Step(s, a).sessions[g])
  {
  }

  lemma {:induction false} ReachableForward(acts: seq<Action>, s: System)
    requires Reaches(false, acts, s)
    ensures Invariant(s) && WaitsForward(s) && forall g :: 0 <= g < |s.sessions| ==> SlotsHonest(s.sessions[g])
  {
    ReachableInvariant(false, acts, s);
    if acts == [] {
    } else {
      var n := |acts| - 1;
      var s0 :| Reaches(false, acts[..n], s0) && Enabled(s0, acts[n]) && s == Step(s0, acts[n]);
      ReachableForward(acts[..n], s0);
      StepKeepsForward(s0, acts[n]);
      forall g | 0 <= g < |s.sessions| ensures SlotsHonest(s.sessions[g]) {
        StepKeepsHonest(s0, acts[n], g);
      }
    }
  }

  /** A stop was recorded for the session and is neither in its slot nor was ever taken by its receiver. */
  predicate Lost(x: Session) {
    x.recorded && !x.slot && !x.taken
  }

  /** One step makes a stop of `g` go astray only when another receiver takes it. */
  lemma LostBefore(s: System, a: Action, g: nat)
    requires Enabled(s, a) && g < |Step(s, a).sessions| && Lost(Step(s, a).sessions[g])
    ensures g < |s.sessions|
    ensures
      || Lost(s.sessions[g])
      || (a.TakeStop? && a.g != g && s.sessions[a.g].Receiver() == Selecting(g)
          && s.sessions[g].slot && !s.sessions[g].taken)
  {
  }

  /** An earlier session of the id of `g` took a stop. */
  ghost predicate TakenEarlier(acts: seq<Action>, ids: seq<string>, g: nat) {
    exists h, i :: 0 <= h < g < |ids| && ids[h] == ids[g] && 0 <= i < |acts| && acts[i] == TakeStop(h)
  }

  /**
    Where stops go, in every interleaving: a recorded stop is in its slot, was taken by its own
    receiver, which then stopped, or was taken by the receiver of an earlier session of the id.
   */
  lemma {:induction false} StopGoesForward(acts: seq<Action>, s: System, g: nat)
    requires Reaches(false, acts, s) && g < |s.sessions| && s.sessions[g].recorded
    ensures
      || s.sessions[g].slot
      || (s.sessions[g].taken && Stopped(s.sessions[g]))
      || TakenEarlier(acts, Ids(s), g)
  {
    ReachableForward(acts, s);
    if Lost(s.sessions[g]) {
      LostIsTaken(acts, s, g);
    }
  }

  /** Another receiver on the channel of `g` is that of an earlier session of its id. */
  lemma TakenByEarlier(s: System, h: nat, g: nat)
    requires WaitsForward(s) && h < |s.sessions| && s.sessions[h].Receiver() == Selecting(g) && h != g
    ensures h < g < |s.sessions| && Ids(s)[h] == Ids(s)[g]
  {
  }

  lemma TakenEarlierSnoc(acts: seq<Action>, a: Action, s: System, g: nat)
    requires Enabled(s, a) && g < |s.sessions|
    requires TakenEarlier(acts, Ids(s), g) || (a.TakeStop? && a.g < g && Ids(s)[a.g] == Ids(s)[g])
    ensures TakenEarlier(acts + [a], Ids(Step(s, a)), g)
  {
    StepEvolves(s, a);
    var acts', ids, ids' := acts + [a], Ids(s), Ids(Step(s, a));
    if TakenEarlier(acts, ids, g) {
      var h, i :| 0 <= h < g && ids[h] == ids[g] && 0 <= i < |acts| && acts[i] == TakeStop(h);
      assert acts'[i] == TakeStop(h) && ids'[h] == ids'[g];
    } else {
      assert acts'[|acts|] == TakeStop(a.g) && ids'[a.g] == ids'[g];
    }
  }

  lemma LostStep(acts: seq<Action>, s0: System, s: System, g: nat)
    requires acts != [] && Reaches(false, acts[..|acts| - 1], s0) && Enabled(s0, acts[|acts| - 1])
    requires s == Step(s0, acts[|acts| - 1]) && g < |s.sessions| && Lost(s.sessions[g])
    requires g < |s0.sessions| && Lost(s0.sessions[g]) ==> TakenEarlier(acts[..|acts| - 1], Ids(s0), g)
    ensures TakenEarlier(acts, Ids(s), g)
  {
    var n := |acts| - 1;
    LostBefore(s0, acts[n], g);
    if !Lost(s0.sessions[g]) {
      ReachableForward(acts[..n], s0);
      TakenByEarlier(s0, acts[n].g, g);
    }
    TakenEarlierSnoc(acts[..n], acts[n], s0, g);
    assert acts[..n] + [acts[n]] == acts;
  }

  lemma {:induction false} LostIsTaken(acts: seq<Action>, s: System, g: nat)
    requires Reaches(false, acts, s) && g < |s.sessions| && Lost(s.sessions[g])
    ensures TakenEarlier(acts, Ids(s), g)
  {
    if acts == [] {
    } else {
      var n := |acts| - 1;
      var s0 :| Reaches(false, acts[..n], s0) && Enabled(s0, acts[n]) && s == Step(s0, acts[n]);
      if g < |s0.sessions| && Lost(s0.sessions[g]) {
        LostIsTaken(acts[..n], s0, g);
      }
      LostStep(acts, s0, s, g);
    }
  }

  predicate Registered(s: System, g: nat) {
    g < |s.sessions| && s.sessions[g].teardown != Removed
  }

  /** The receiver of `h` may still look up its id: it is about to, or an input message can wake it. */
  predicate MayLookUp(s: System, h: nat)
    requires h < |s.sessions|
  {
    var x := s.sessions[h];
    if x.kind.Exec? then x.main.Ready? || (x.main.Selecting? && (x.inbox > 0 || h in s.live))
    else x.side.Ready?
  }

  /**
    The receiver of `h` can come to take a stop of `g`: it waits on that channel and a stop is or
    can be there, or it may look the id up while `g` is registered.
   */
  predicate MayTakeStopOf(s: System, h: nat, g: nat)
    requires h < |s.sessions| && g < |s.sessions|
  {
    || (s.sessions[h].Receiver() == Selecting(g) && (s.sessions[g].slot || g in s.senders || Registered(s, g)))
    || (MayLookUp(s, h) && Registered(s, g))
  }

  /** A stop of `g` is lost, or an earlier session of the id can take one before `g` does. */
  ghost predicate CanLose(s: System, g: nat) {
    && g < |s.sessions|
    && (|| Lost(s.sessions[g])
        || (!s.sessions[g].taken && exists h: nat :: EarlierMayTake(s, h, g)))
  }

  predicate EarlierMayTake(s: System, h: nat, g: nat) {
    h < g < |s.sessions| && s.sessions[h].id == s.sessions[g].id && MayTakeStopOf(s, h, g)
  }

  lemma RegisteredBefore(s: System, a: Action, g: nat)
    requires Enabled(s, a) && Invariant(s) && g < |s.sessions| && Registered(Step(s, a), g)
    ensures Registered(s, g)
  {
    assert Orderly(s.sessions[g]);
  }

  /** A removed session never begins anew: if its receiver may look up after a step, it might before. */
  lemma MayLookUpBefore(s: System, a: Action, h: nat)
    requires Enabled(s, a) && h < |s.sessions| && s.sessions[h].teardown == Removed && Orderly(s.sessions[h])
    requires MayLookUp(Step(s, a), h)
    ensures MayLookUp(s, h)
  {
  }

  lemma ReceiverReady(s: System, h: nat)
    requires Enabled(s, Look(h))
    ensures MayLookUp(s, h)
  {
  }

  lemma StopBefore(s: System, a: Action, g: nat)
    requires Enabled(s, a) && Invariant(s) && g < |s.sessions|
    requires Step(s, a).sessions[g].slot || g in Step(s, a).senders
    ensures s.sessions[g].slot || g in s.senders || Registered(s, g)
  {
  }

  lemma MayTakeBefore(s: System, a: Action, h: nat, g: nat)
    requires Enabled(s, a) && Invariant(s) && g < |s.sessions| && EarlierMayTake(Step(s, a), h, g)
    ensures EarlierMayTake(s, h, g)
  {
    var s' := Step(s, a);
    StepEvolves(s, a);
    assert Ids(s)[h] == Ids(s)[g] by {
      assert Ids(s')[h] == Ids(s')[g];
    }
    assert s.sessions[h].teardown == Removed;
    if Registered(s', g) {
      RegisteredBefore(s, a, g);
    }
    if s'.sessions[h].Receiver() == Selecting(g) {
      WaitingBefore(s, a, h);
      if s'.sessions[g].slot || g in s'.senders {
        StopBefore(s, a, g);
      }
      if a == Look(h) {
        ReceiverReady(s, h);
        assert Registered(s, g);
      }
    } else {
      MayLookUpBefore(s, a, h);
    }
  }

  lemma CanLoseBefore(s: System, a: Action, g: nat)
    requires Enabled(s, a) && Invariant(s) && WaitsForward(s) && g < |s.sessions| && CanLose(Step(s, a), g)
    ensures CanLose(s, g)
  {
    if Lost(Step(s, a).sessions[g]) {
      LostBefore(s, a, g);
      if !Lost(s.sessions[g]) {
        assert EarlierMayTake(s, a.g, g);
      }
    } else {
      var h: nat :| EarlierMayTake(Step(s, a), h, g);
      MayTakeBefore(s, a, h, g);
      TakenStays(s, a, g);
    }
  }

  lemma TakenStays(s: System, a: Action, g: nat)
    requires Enabled(s, a) && g < |s.sessions|
    ensures s.sessions[g].taken ==> Step(s, a).sessions[g].taken
  {
  }

  /** Once no earlier session can take a stop of `g`, no continuation loses one. */
  lemma {:induction false} NeverLosesLater(acts: seq<Action>, s: System, acts': seq<Action>, s': System, g: nat)
    requires Reaches(false, acts, s) && g < |s.sessions|
    requires acts <= acts' && Reaches(false, acts', s') && CanLose(s', g)
    ensures CanLose(s, g)
    decreases |acts'|
  {
    if acts == acts' {
      SameRunSameState(acts, s, s');
    } else {
      var n := |acts'| - 1;
      var s0 :| Reaches(false, acts'[..n], s0) && Enabled(s0, acts'[n]) && s' == Step(s0, acts'[n]);
      ReachableForward(acts'[..n], s0);
      SessionsStay(acts, s, acts'[..n], s0);
      CanLoseBefore(s0, acts'[n], g);
      NeverLosesLater(acts, s, acts'[..n], s0, g);
    }
  }

  lemma {:induction false} SameRunSameState(acts: seq<Action>, s: System, t: System)
    requires Reaches(false, acts, s) && Reaches(false, acts, t)
    ensures s == t
  {
    if acts == [] {
    } else {
      var n := |acts| - 1;
      var s0 :| Reaches(false, acts[..n], s0) && Enabled(s0, acts[n]) && s == Step(s0, acts[n]);
      var t0 :| Reaches(false, acts[..n], t0) && Enabled(t0, acts[n]) && t == Step(t0, acts[n]);
      SameRunSameState(acts[..n], s0, t0);
    }
  }

  lemma {:induction false} SessionsStay(acts: seq<Action>, s: System, acts': seq<Action>, s': System)
    requires Reaches(false, acts, s) && acts <= acts' && Reaches(false, acts', s')
    ensures |s.sessions| <= |s'.sessions|
    decreases |acts'|
  {
    if acts == acts' {
      SameRunSameState(acts, s, s');
    } else {
      var n := |acts'| - 1;
      var s0 :| Reaches(false, acts'[..n], s0) && Enabled(s0, acts'[n]) && s' == Step(s0, acts'[n]);
      StepEvolves(s0, acts'[n]);
      SessionsStay(acts, s, acts'[..n], s0);
    }
  }

  /** The run `acts` goes on as `acts'` to a state in which a stop of `g` is lost. */
  ghost predicate LosesIn(acts: seq<Action>, acts': seq<Action>, s': System, g: nat) {
    acts <= acts' && Reaches(false, acts', s') && g < |s'.sessions| && Lost(s'.sessions[g])
  }

  /** The receiver of `h` waits on the channel of `g` and a stop is there: it takes it. */
  lemma TakesNow(acts: seq<Action>, s: System, h: nat, g: nat) returns (acts': seq<Action>, s': System)
    requires Reaches(false, acts, s) && h < g < |s.sessions| && !s.sessions[g].taken
    requires s.sessions[h].Receiver() == Selecting(g) && s.sessions[g].slot
    ensures LosesIn(acts, acts', s', g)
  {
    ReachableForward(acts, s);
    s', acts' := Take(false, acts, s, TakeStop(h));
  }

  lemma TakesOnceSent(acts: seq<Action>, s: System, h: nat, g: nat) returns (acts': seq<Action>, s': System)
    requires Reaches(false, acts, s) && h < g < |s.sessions| && !s.sessions[g].taken
    requires s.sessions[h].Receiver() == Selecting(g) && g in s.senders
    ensures LosesIn(acts, acts', s', g)
  {
    s', acts' := Take(false, acts, s, StopSends(g));
    acts', s' := TakesNow(acts', s', h, g);
  }

  lemma TakesOnceRequested(acts: seq<Action>, s: System, h: nat, g: nat) returns (acts': seq<Action>, s': System)
    requires Reaches(false, acts, s) && h < g < |s.sessions| && !s.sessions[g].taken
    requires s.sessions[h].Receiver() == Selecting(g) && Registered(s, g)
    ensures LosesIn(acts, acts', s', g)
  {
    ReachableInvariant(false, acts, s);
    s', acts' := Take(false, acts, s, StopLooksUp(s.sessions[g].id));
    acts', s' := TakesOnceSent(acts', s', h, g);
  }

  lemma TakesOnceLookedUp(acts: seq<Action>, s: System, h: nat, g: nat) returns (acts': seq<Action>, s': System)
    requires Reaches(false, acts, s) && h < g < |s.sessions| && !s.sessions[g].taken
    requires s.sessions[h].id == s.sessions[g].id && s.sessions[h].Receiver() == Ready && Registered(s, g)
    ensures LosesIn(acts, acts', s', g)
  {
    ReachableInvariant(false, acts, s);
    s', acts' := Take(false, acts, s, Look(h));
    acts', s' := TakesOnceRequested(acts', s', h, g);
  }

  /** An input message wakes the loop of `h`, after which it looks its id up. */
  lemma Wakes(acts: seq<Action>, s: System, h: nat, g: nat) returns (acts': seq<Action>, s': System)
    requires Reaches(false, acts, s) && h < g < |s.sessions|
    requires s.sessions[h].kind.Exec? && s.sessions[h].main.Selecting? && s.sessions[h].inbox > 0
    ensures acts <= acts' && Reaches(false, acts', s') && |s'.sessions| == |s.sessions|
    ensures s'.sessions[h].id == s.sessions[h].id && s'.sessions[h].Receiver() == Ready
    ensures s'.sessions[g] == s.sessions[g]
  {
    s', acts' := Take(false, acts, s, Input(h));
  }

  lemma Delivers(acts: seq<Action>, s: System, h: nat, g: nat) returns (acts': seq<Action>, s': System)
    requires Reaches(false, acts, s) && h < g < |s.sessions|
    requires s.sessions[h].kind.Exec? && s.sessions[h].main.Selecting? && h in s.live && s.sessions[h].inbox == 0
    ensures acts <= acts' && Reaches(false, acts', s') && |s'.sessions| == |s.sessions|
    ensures s'.sessions[h] == s.sessions[h].(inbox := 1) && s'.sessions[g] == s.sessions[g]
  {
    s', acts' := Take(false, acts, s, Deliver(h));
  }

  lemma TakesOnceWoken(acts: seq<Action>, s: System, h: nat, g: nat) returns (acts': seq<Action>, s': System)
    requires Reaches(false, acts, s) && h < g < |s.sessions| && !s.sessions[g].taken
    requires s.sessions[h].id == s.sessions[g].id && MayLookUp(s, h) && Registered(s, g)
    ensures LosesIn(acts, acts', s', g)
  {
    acts', s' := acts, s;
    if s.sessions[h].Receiver().Selecting? {
      if s.sessions[h].inbox == 0 {
        acts', s' := Delivers(acts, s, h, g);
      }
      acts', s' := Wakes(acts', s', h, g);
    }
    acts', s' := TakesOnceLookedUp(acts', s', h, g);
  }

  /**
    Exactly when a stop of a session can be lost: some continuation of the run loses one when one
    is lost already, or the session has taken none and an earlier session of its id still has a
    receiver that waits on its channel or may look the id up.
   */
  lemma LosableExactlyWhen(acts: seq<Action>, s: System, g: nat)
    requires Reaches(false, acts, s) && g < |s.sessions|
    ensures CanLose(s, g) <==> exists acts', s' :: LosesIn(acts, acts', s', g)
  {
    if CanLose(s, g) {
      if Lost(s.sessions[g]) {
        assert LosesIn(acts, acts, s, g);
      } else {
        var h: nat :| EarlierMayTake(s, h, g);
        var acts', s' := acts, s;
        if MayLookUp(s, h) && Registered(s, g) {
          acts', s' := TakesOnceWoken(acts, s, h, g);
        } else if s.sessions[g].slot {
          acts', s' := TakesNow(acts, s, h, g);
        } else if g in s.senders {
          acts', s' := TakesOnceSent(acts, s, h, g);
        } else {
          acts', s' := TakesOnceRequested(acts, s, h, g);
        }
        assert LosesIn(acts, acts', s', g);
      }
    }
    forall acts', s' | LosesIn(acts, acts', s', g) ensures CanLose(s, g)
    {
      NeverLosesLater(acts, s, acts', s', g);
    }
  }

  lemma ExecSubscribes(id: string) returns (acts: seq<Action>, s: System)
    ensures Reaches(false, acts, s)
    ensures s == System(
      map[id := 0], [Session(id, Exec, Subscribed, Absent, NotBegun, false, 0, false, false, 0)], {0}, {}, false)
  {
    acts, s := [], INITIAL;
    s, acts := Take(false, acts, s, Request(id, Exec));
    s, acts := Take(false, acts, s, Subscribe(0, true));
  }

  lemma TtyEnds(id: string) returns (acts: seq<Action>, s: System)
    ensures Reaches(false, acts, s)
    ensures s == System(
      map[id := 0], [Session(id, Exec, Ready, Leaving, NotBegun, false, 0, false, false, 0)], {0}, {}, false)
  {
    acts, s := ExecSubscribes(id);
    s, acts := Take(false, acts, s, Spawn(0));
    s, acts := Take(false, acts, s, SideEnds(0));
  }

  lemma TtyUnsubscribes(id: string, ok: bool) returns (acts: seq<Action>, s: System)
    ensures Reaches(false, acts, s)
    ensures s == System(
      map[id := 0], [Session(id, Exec, Ready, Leaving, Unsubscribed, false, 1, false, false, 0)],
      if ok then {} else {0}, {}, false)
  {
    acts, s := TtyEnds(id);
    s, acts := Take(false, acts, s, CloseDone(0));
    assert s == System(
      map[id := 0], [Session(id, Exec, Ready, Leaving, DoneClosed, false, 1, false, false, 0)], {0}, {}, false);
    s, acts := Take(false, acts, s, Unsubscribe(0, ok));
  }

  /** An exec session whose TTY ended and cleaned up while its input loop was busy. */
  lemma TtyCleansUpFirst(id: string, ok: bool) returns (acts: seq<Action>, s: System)
    ensures Reaches(false, acts, s)
    ensures s == System(
      map[], [Session(id, Exec, Ready, Leaving, Removed, false, 1, false, false, 0)], if ok then {} else {0}, {}, false)
  {
    acts, s := TtyUnsubscribes(id, ok);
    s, acts := Take(false, acts, s, Remove(0));
  }

  /** After a failed unsubscribe, the next session under the id gives it a second live subscription. */
  lemma FailedUnsubscribeDoubles(id: string)
    ensures exists acts, s ::
      && Reaches(false, acts, s) && s.live == {0, 1} && !OnePerId(s)
      && |s.sessions| == 2 && s.sessions[0].id == s.sessions[1].id == id
  {
    var acts, s := TtyCleansUpFirst(id, false);
    s, acts := Take(false, acts, s, Request(id, Exec));
    s, acts := Take(false, acts, s, Subscribe(1, true));
  }

  /** A new session under the same id, with a stop already recorded for it. */
  lemma StopIsRecorded(id: string) returns (acts: seq<Action>, s: System)
    ensures Reaches(false, acts, s)
    ensures s.registry == map[id := 1] && |s.sessions| == 2 && s.sessions[0].kind.Exec?
    ensures s.sessions[0].main == Ready && s.sessions[0].id == id
    ensures s.sessions[1] == Session(id, Exec, Created, Absent, NotBegun, true, 0, true, false, 0)
  {
    acts, s := TtyCleansUpFirst(id, true);
    s, acts := Take(false, acts, s, Request(id, Exec));
    s, acts := Take(false, acts, s, StopLooksUp(id));
    s, acts := Take(false, acts, s, StopSends(1));
  }

  lemma OldLoopWaits(id: string) returns (acts: seq<Action>, s: System)
    ensures Reaches(false, acts, s)
    ensures s.registry == map[id := 1] && |s.sessions| == 2 && s.sessions[0].kind.Exec?
    ensures s.sessions[0].main == Selecting(1) && s.sessions[0].id == id
    ensures s.sessions[1] == Session(id, Exec, Created, Absent, NotBegun, true, 0, true, false, 0)
  {
    acts, s := StopIsRecorded(id);
    s, acts := Take(false, acts, s, Look(0));
  }

  /**
    Why reuse must be late: the old input loop finds the new session's channel under its id and
    takes the stop meant for that session, which was recorded and is now nowhere.
   */
  lemma EarlyReuseLosesStop(id: string)
    ensures exists acts, s ::
      && Reaches(false, acts, s)
      && |s.sessions| == 2 && s.sessions[1].id == id && id in s.registry && s.registry[id] == 1
      && Lost(s.sessions[1]) && !Stopped(s.sessions[1])
  {
    var acts, s := OldLoopWaits(id);
    s, acts := Take(false, acts, s, TakeStop(0));
  }
}
