/**
  The discovery control loop as a step machine: resync signals, the shared debounce timer, the
  restart callbacks it fires, and the channels that keep each discovery's informers open.
  Channel n belongs to the n-th discovery ever started.
 */
module DebouncedRestart {
  import opened Resources
  import opened Sequences

  /** The debounce interval, five seconds in nanoseconds. */
  const QUIET: nat := 5_000_000_000

  datatype Timer = Timer(due: nat, ch: nat)

  /** A resync signal: the channel that was current when the loop took it, and when that was. */
  datatype Request = Request(ch: nat, at: nat)

  /**
    A closer of a channel first tests whether the channel is closed, then closes it. A restart
    goes on to wait for the discoveries under way and to rebuild the informers.
   */
  datatype Phase = Begun | Tested(open: bool) | Waited | Rebuilt(ok: bool) | Over

  datatype Closer = Closer(ch: nat, phase: Phase)

  /**
    `asked` are the signals taken whose debounced call has not run yet. `exit` is the deferred
    cleanup of the loop, present once a stop signal was taken. `discovering` are the discoveries
    under way, by channel, and `running` the channels that informers of the present factory were
    started on. `closings` are all closings of channels. The rest is history: the signals, those
    whose debounced call has run and the times of these calls, for each fired restart its time and
    the number of debounced calls before it, and the channels whose discovery started informers.
   */
  datatype Control = Control(
    now: nat, timer: Option<Timer>, asked: seq<Request>, callbacks: seq<Closer>, exit: Option<Closer>,
    current: nat, created: nat, discovering: set<nat>, running: set<nat>, closings: seq<nat>,
    signals: seq<Request>, called: seq<Request>, calls: seq<nat>, fired: seq<nat>, callsAtFire: seq<nat>,
    started: set<nat>)

  /** The loop has begun its first discovery. */
  const INITIAL := Control(0, None, [], [], None, 0, 1, {0}, {}, [], [], [], [], [], [], {})

  datatype Action =
    | Pass(d: nat)                  // time passes
    | Signal                        // the loop takes a resync signal and spawns the debounced call
    | Debounce(n: nat)              // one of the waiting calls resets the timer
    | Fire                          // the timer's callback begins
    | Test(k: nat)                  // callback k tests its channel ...
    | Close(k: nat)                 // ... closes it if it was open ...
    | Wait(k: nat)                  // ... waits until no discovery is under way ...
    | Rebuild(k: nat, ok: bool)     // ... rebuilds the informers, or fails to ...
    | Restart(k: nat)               // ... and begins a new discovery
    | Discovered(ch: nat, starts: bool)  // a discovery ends, having started informers or not
    | Stop                          // the loop takes the stop signal: its deferred cleanup begins
    | TestCurrent                   // the cleanup tests the current channel ...
    | CloseCurrent                  // ... and closes it if it was open

  predicate InPhase(s: Control, k: nat, p: Phase) {
    k < |s.callbacks| && s.callbacks[k].phase == p
  }

  predicate Enabled(s: Control, a: Action) {
    match a
    case Pass(_) => true
    case Signal => s.exit == None
    case Debounce(n) => n < |s.asked|
    case Fire => s.timer.Some? && s.timer.value.due <= s.now
    case Test(k) => InPhase(s, k, Begun)
    case Close(k) => InPhase(s, k, Tested(true))
    case Wait(k) => InPhase(s, k, Tested(false)) && s.discovering == {}
    // The old informers are shut down, which waits until they have stopped, unless the rebuild fails first.
    case Rebuild(k, ok) => InPhase(s, k, Waited) && (ok ==> forall ch :: ch in s.running ==> ch in s.closings)
    case Restart(k) => k < |s.callbacks| && s.callbacks[k].phase.Rebuilt?
    case Discovered(ch, _) => ch in s.discovering
    case Stop => s.exit == None
    case TestCurrent => s.exit.Some? && s.exit.value.phase == Begun
    case CloseCurrent => s.exit.Some? && s.exit.value.phase.Tested?
  }

  function Move(s: Control, k: nat, p: Phase): Control
    requires k < |s.callbacks|
  {
    s.(callbacks := s.callbacks[k := s.callbacks[k].(phase := p)])
  }

  function Step(s: Control, a: Action): Control
    requires Enabled(s, a)
  {
    match a
    case Pass(d) => s.(now := s.now + d)
    case Signal =>
      s.(asked := s.asked + [Request(s.current, s.now)], signals := s.signals + [Request(s.current, s.now)])
    case Debounce(n) =>
      s.(timer := Some(Timer(s.now + QUIET, s.asked[n].ch)),
         asked := s.asked[..n] + s.asked[n + 1..], called := s.called + [s.asked[n]], calls := s.calls + [s.now])
    case Fire =>
      s.(timer := None, callbacks := s.callbacks + [Closer(s.timer.value.ch, Begun)],
         fired := s.fired + [s.now], callsAtFire := s.callsAtFire + [|s.calls|])
    case Test(k) => Move(s, k, Tested(s.callbacks[k].ch !in s.closings))
    case Close(k) => Move(s, k, Tested(false)).(closings := s.closings + [s.callbacks[k].ch])
    case Wait(k) => Move(s, k, Waited)
    case Rebuild(k, ok) => Move(s, k, Rebuilt(ok)).(running := if ok then {} else s.running)
    case Restart(k) =>
      Move(s, k, Over).(current := s.created, created := s.created + 1, discovering := s.discovering + {s.created})
    case Discovered(ch, starts) =>
      s.(discovering := s.discovering - {ch}, running := if starts then s.running + {ch} else s.running,
         started := if starts then s.started + {ch} else s.started)
    case Stop => s.(exit := Some(Closer(s.current, Begun)))
    case TestCurrent => s.(exit := Some(Closer(s.current, Tested(s.current !in s.closings))))
    case CloseCurrent =>
      s.(exit := Some(s.exit.value.(phase := Over)),
         closings := if s.exit.value.phase.open then s.closings + [s.current] else s.closings)
  }

  predicate Idle(s: Control) {
    forall k :: 0 <= k < |s.callbacks| ==> s.callbacks[k].phase == Over
  }

  /**
    A restart callback runs on its own: it finishes before the next signal is taken and before the
    loop stops, and it does not begin while a taken signal still waits for its debounced call, or
    while the loop cleans up.
   */
  predicate Orderly(s: Control, a: Action) {
    && (a.Signal? || a.Stop? ==> Idle(s))
    && (a.Fire? ==> s.asked == [] && (s.exit.None? || s.exit.value.phase == Over))
  }

  /** How freely steps interleave: freely, one restart at a time with the loop running, or in good order. */
  datatype Schedule = Free | Solo | Ordered

  predicate Allowed(sch: Schedule, s: Control, a: Action) {
    match sch
    case Free => true
    case Solo => !a.Stop? && (a.Fire? ==> Idle(s))
    case Ordered => Orderly(s, a)
  }

  ghost predicate Reaches(sch: Schedule, acts: seq<Action>, s: Control) {
    if acts == [] then s == INITIAL
    else
      var n := |acts| - 1;
      exists s0 ::
        && Reaches(sch, acts[..n], s0)
        && Enabled(s0, acts[n]) && Allowed(sch, s0, acts[n])
        && s == Step(s0, acts[n])
  }

  // ------------------------------------------------------------------- quiet periods

  /** What the quiet-period argument looks at. */
  datatype Clock = Clock(now: nat, due: Option<nat>, calls: seq<nat>, fired: seq<nat>, callsAtFire: seq<nat>)

  function ClockOf(s: Control): Clock {
    Clock(s.now, if s.timer.Some? then Some(s.timer.value.due) else None, s.calls, s.fired, s.callsAtFire)
  }

  /** Restart `i` answers the calls up to number `callsAtFire[i]`, each restart more than the one before. */
  ghost predicate Counted(c: Clock) {
    && |c.fired| == |c.callsAtFire|
    && (forall i :: 0 <= i < |c.callsAtFire| ==> 0 < c.callsAtFire[i] <= |c.calls|)
    && (forall i, j :: 0 <= i < j < |c.callsAtFire| ==> c.callsAtFire[i] < c.callsAtFire[j])
    && (c.due.Some? ==> c.calls != [] && forall i :: 0 <= i < |c.callsAtFire| ==> c.callsAtFire[i] < |c.calls|)
  }

  /** Every restart fired a quiet period after the last call before it, and before the next call. */
  ghost predicate Timed(c: Clock)
    requires Counted(c)
  {
    && (forall i :: 0 <= i < |c.fired| ==> c.calls[c.callsAtFire[i] - 1] + QUIET <= c.fired[i] <= c.now)
    && (forall i, j :: 0 <= i < |c.fired| && c.callsAtFire[i] <= j < |c.calls| ==> c.fired[i] <= c.calls[j])
    && (forall j :: 0 <= j < |c.calls| ==> c.calls[j] <= c.now)
    && (c.due.Some? ==> c.due.value == c.calls[|c.calls| - 1] + QUIET)
  }

  ghost predicate Quiet(s: Control) {
    Counted(ClockOf(s)) && Timed(ClockOf(s))
  }

  lemma CallKeepsQuiet(c: Clock)
    requires Counted(c) && Timed(c)
    ensures
      var c' := c.(due := Some(c.now + QUIET), calls := c.calls + [c.now]);
      Counted(c') && Timed(c')
  {
  }

  function Fired(c: Clock): Clock {
    c.(due := None, fired := c.fired + [c.now], callsAtFire := c.callsAtFire + [|c.calls|])
  }

  lemma FireKeepsCounted(c: Clock)
    requires Counted(c) && c.due.Some?
    ensures Counted(Fired(c))
  {
  }

  lemma FireKeepsQuiet(c: Clock)
    requires Counted(c) && Timed(c) && c.due.Some? && c.due.value <= c.now
    ensures Counted(Fired(c)) && Timed(Fired(c))
  {
    FireKeepsCounted(c);
    var c', n := Fired(c), |c.fired|;
    forall i | 0 <= i < |c'.fired| ensures c'.calls[c'.callsAtFire[i] - 1] + QUIET <= c'.fired[i] <= c'.now {
      assert i < n ==> c'.fired[i] == c.fired[i] && c'.callsAtFire[i] == c.callsAtFire[i];
    }
    forall i, j | 0 <= i < |c'.fired| && c'.callsAtFire[i] <= j < |c'.calls| ensures c'.fired[i] <= c'.calls[j] {
      assert i < n ==> c'.fired[i] == c.fired[i] && c'.callsAtFire[i] == c.callsAtFire[i];
    }
  }

  lemma PassKeepsQuiet(c: Clock, d: nat)
    requires Counted(c) && Timed(c)
    ensures Counted(c.(now := c.now + d)) && Timed(c.(now := c.now + d))
  {
  }

  lemma ClockStep(s: Control, a: Action)
    requires Enabled(s, a)
    ensures
      var c := ClockOf(s);
      ClockOf(Step(s, a)) ==
      match a
      case Pass(d) => c.(now := c.now + d)
      case Debounce(_) => c.(due := Some(c.now + QUIET), calls := c.calls + [c.now])
      case Fire => Fired(c)
      case _ => c
  {
  }

  lemma StepKeepsQuiet(s: Control, a: Action)
    requires Enabled(s, a) && Quiet(s)
    ensures Quiet(Step(s, a))
  {
    ClockStep(s, a);
    if a.Debounce? {
      CallKeepsQuiet(ClockOf(s));
    } else if a.Fire? {
      FireKeepsQuiet(ClockOf(s));
    } else if a.Pass? {
      PassKeepsQuiet(ClockOf(s), a.d);
    }
  }

  lemma {:induction false} ReachableQuiet(acts: seq<Action>, s: Control)
    requires Reaches(Free, acts, s)
    ensures Quiet(s)
  {
    if acts == [] {
    } else {
      var n := |acts| - 1;
      var s0 :| Reaches(Free, acts[..n], s0) && Enabled(s0, acts[n]) && s == Step(s0, acts[n]);
      ReachableQuiet(acts[..n], s0);
      StepKeepsQuiet(s0, acts[n]);
    }
  }

  /**
    Debounce. In every interleaving, the i-th restart answers the debounced calls up to number
    `callsAtFire[i]`: a full quiet period has passed since the last of them, and none is answered
    by two restarts. So of two calls closer than the quiet period, only the later one can be the
    last that a restart answers: a burst yields one restart.
   */
  lemma BurstRestartsOnce(acts: seq<Action>, s: Control)
    requires Reaches(Free, acts, s)
    ensures |s.fired| == |s.callsAtFire| <= |s.calls|
    ensures forall i, j :: 0 <= i < j < |s.callsAtFire| ==> s.callsAtFire[i] < s.callsAtFire[j]
    ensures forall i :: 0 <= i < |s.fired| ==>
      0 < s.callsAtFire[i] <= |s.calls| && s.calls[s.callsAtFire[i] - 1] + QUIET <= s.fired[i]
    ensures forall i, j :: 0 <= i < |s.fired| && 0 < j < |s.calls| && s.calls[j] < s.calls[j - 1] + QUIET ==>
      s.callsAtFire[i] != j
  {
    ReachableQuiet(acts, s);
    BurstOnClock(ClockOf(s));
  }

  lemma {:induction false} BurstOnClock(c: Clock)
    requires Counted(c) && Timed(c)
    ensures |c.fired| == |c.callsAtFire| <= |c.calls|
    ensures forall i, j :: 0 <= i < j < |c.callsAtFire| ==> c.callsAtFire[i] < c.callsAtFire[j]
    ensures forall i :: 0 <= i < |c.fired| ==>
      0 < c.callsAtFire[i] <= |c.calls| && c.calls[c.callsAtFire[i] - 1] + QUIET <= c.fired[i]
    ensures forall i, j :: 0 <= i < |c.fired| && 0 < j < |c.calls| && c.calls[j] < c.calls[j - 1] + QUIET ==>
      c.callsAtFire[i] != j
  {
    AtMost(c.callsAtFire, |c.calls|);
    forall i, j | 0 <= i < |c.fired| && 0 < j < |c.calls| && c.calls[j] < c.calls[j - 1] + QUIET
      ensures c.callsAtFire[i] != j
    {
      assert c.calls[c.callsAtFire[i] - 1] + QUIET <= c.fired[i];
      assert c.callsAtFire[i] <= j ==> c.fired[i] <= c.calls[j];
    }
  }

  lemma {:induction false} AtMost(ns: seq<nat>, bound: nat)
    requires forall i :: 0 <= i < |ns| ==> 0 < ns[i] <= bound
    requires forall i, j :: 0 <= i < j < |ns| ==> ns[i] < ns[j]
    ensures |ns| <= bound
  {
    if |ns| <= 1 {
    } else {
      AtMost(ns[..|ns| - 1], ns[|ns| - 1] - 1);
    }
  }

  /** A signal still waits for its call, or is no newer than the last call; each makes one call. */
  ghost predicate SignalsCalled(s: Control) {
    && |s.calls| + |s.asked| == |s.signals|
    && (forall i :: 0 <= i < |s.signals| ==> s.signals[i].at <= s.now)
    && (forall i :: 0 <= i < |s.asked| ==> s.asked[i] in s.signals)
    && (forall r :: r in s.signals ==>
          r in s.asked || (s.calls != [] && r.at <= s.calls[|s.calls| - 1]))
  }

  lemma CallLeavesOthers(asked: seq<Request>, n: nat)
    requires n < |asked|
    ensures forall r :: r in asked[..n] + asked[n + 1..] ==> r in asked
    ensures forall r :: r in asked ==> r in asked[..n] + asked[n + 1..] || r == asked[n]
  {
    forall r | r in asked ensures r in asked[..n] + asked[n + 1..] || r == asked[n] {
      var i :| 0 <= i < |asked| && asked[i] == r;
      if i < n {
        assert asked[..n][i] == r;
      } else if i > n {
        assert asked[n + 1..][i - n - 1] == r;
      }
    }
  }

  lemma DebounceKeepsCalled(s: Control, n: nat)
    requires n < |s.asked| && SignalsCalled(s) && Quiet(s)
    ensures SignalsCalled(Step(s, Debounce(n)))
  {
    var s' := Step(s, Debounce(n));
    CallLeavesOthers(s.asked, n);
    assert s'.calls[|s'.calls| - 1] == s.now;
    forall r | r in s.signals ensures r in s'.asked || r.at <= s.now {
      var i :| 0 <= i < |s.signals| && s.signals[i] == r;
    }
    forall i | 0 <= i < |s'.asked| ensures s'.asked[i] in s.signals {
      assert s'.asked[i] in s.asked;
    }
  }

  lemma SignalKeepsCalled(s: Control)
    requires Enabled(s, Signal) && SignalsCalled(s)
    ensures SignalsCalled(Step(s, Signal))
  {
    var s', r := Step(s, Signal), Request(s.current, s.now);
    assert s'.asked[|s.asked|] == r && s'.signals[|s.signals|] == r;
    forall x | x in s.asked ensures x in s'.asked {
      var i :| 0 <= i < |s.asked| && s.asked[i] == x;
      assert s'.asked[i] == x;
    }
    forall x | x in s.signals ensures x in s'.signals {
      var i :| 0 <= i < |s.signals| && s.signals[i] == x;
      assert s'.signals[i] == x;
    }
  }

  lemma StepKeepsCalled(s: Control, a: Action)
    requires Enabled(s, a) && !a.Debounce? && !a.Signal? && SignalsCalled(s)
    ensures SignalsCalled(Step(s, a))
  {
    var s' := Step(s, a);
    assert s'.asked == s.asked && s'.signals == s.signals && s'.calls == s.calls && s'.now >= s.now;
  }

  lemma {:induction false} ReachableCalled(acts: seq<Action>, s: Control)
    requires Reaches(Free, acts, s)
    ensures SignalsCalled(s)
  {
    if acts == [] {
    } else {
      var n := |acts| - 1;
      var s0 :| Reaches(Free, acts[..n], s0) && Enabled(s0, acts[n]) && s == Step(s0, acts[n]);
      ReachableCalled(acts[..n], s0);
      if acts[n].Debounce? {
        ReachableQuiet(acts[..n], s0);
        DebounceKeepsCalled(s0, acts[n].n);
      } else if acts[n].Signal? {
        SignalKeepsCalled(s0);
      } else {
        StepKeepsCalled(s0, acts[n]);
      }
    }
  }

  /**
    How quiet it is when a restart fires: a signal taken within the quiet period before it still
    waits for its debounced call. Restarts are no more than signals, as each signal makes one call.
   */
  lemma FiresAfterQuiet(acts: seq<Action>, s: Control)
    requires Reaches(Free, acts, s)
    ensures |s.fired| <= |s.signals|
    ensures Enabled(s, Fire) ==> forall r :: r in s.signals && s.now < r.at + QUIET ==> r in s.asked
  {
    ReachableCalled(acts, s);
    ReachableQuiet(acts, s);
    BurstRestartsOnce(acts, s);
    assert ClockOf(s).calls == s.calls;
  }

  /** Each signal waits for its call or has had it; timer and restarts carry the channels of their last calls. */
  ghost predicate Traced(s: Control) {
    && multiset(s.called) + multiset(s.asked) == multiset(s.signals)
    && |s.called| == |s.calls| && |s.callbacks| == |s.callsAtFire|
    && (s.timer.Some? ==> s.called != [] && s.timer.value.ch == s.called[|s.called| - 1].ch)
    && (forall i :: 0 <= i < |s.callbacks| ==>
          0 < s.callsAtFire[i] <= |s.called| && s.callbacks[i].ch == s.called[s.callsAtFire[i] - 1].ch)
  }

  lemma TakenOut(asked: seq<Request>, n: nat)
    requires n < |asked|
    ensures multiset(asked) == multiset(asked[..n] + asked[n + 1..]) + multiset{asked[n]}
  {
    assert asked == asked[..n] + ([asked[n]] + asked[n + 1..]);
  }

  lemma DebounceKeepsTraced(s: Control, n: nat)
    requires n < |s.asked| && Traced(s)
    ensures Traced(Step(s, Debounce(n)))
  {
    TakenOut(s.asked, n);
    var s' := Step(s, Debounce(n));
    assert multiset(s'.called) == multiset(s.called) + multiset{s.asked[n]};
    forall i | 0 <= i < |s'.callbacks|
      ensures 0 < s'.callsAtFire[i] <= |s'.called| && s'.callbacks[i].ch == s'.called[s'.callsAtFire[i] - 1].ch
    {
      assert s'.called[s.callsAtFire[i] - 1] == s.called[s.callsAtFire[i] - 1];
    }
  }

  lemma StepKeepsTraced(s: Control, a: Action)
    requires Enabled(s, a) && !a.Debounce? && Traced(s)
    ensures Traced(Step(s, a))
  {
  }

  lemma {:induction false} ReachableTraced(acts: seq<Action>, s: Control)
    requires Reaches(Free, acts, s)
    ensures Traced(s)
  {
    if acts == [] {
    } else {
      var n := |acts| - 1;
      var s0 :| Reaches(Free, acts[..n], s0) && Enabled(s0, acts[n]) && s == Step(s0, acts[n]);
      ReachableTraced(acts[..n], s0);
      if acts[n].Debounce? {
        DebounceKeepsTraced(s0, acts[n].n);
      } else {
        StepKeepsTraced(s0, acts[n]);
      }
    }
  }

  /**
    Every restart carries the channel of a signal: that of the last debounced call before it fired.
    Each signal has exactly one call, and the calls are those of the signals, whatever their order.
   */
  lemma RestartsCarrySignals(acts: seq<Action>, s: Control)
    requires Reaches(Free, acts, s)
    ensures multiset(s.called) + multiset(s.asked) == multiset(s.signals)
    ensures |s.callbacks| == |s.callsAtFire| && forall i :: 0 <= i < |s.callbacks| ==>
      0 < s.callsAtFire[i] <= |s.called| && s.callbacks[i].ch == s.called[s.callsAtFire[i] - 1].ch
  {
    ReachableTraced(acts, s);
  }

  // ------------------------------------------------------------------- channels

  /** Channels created and not closed. */
  function Open(s: Control): set<nat> {
    set ch | 0 <= ch < s.created && ch !in s.closings
  }

  /** Every channel but the current one is closed, none twice. */
  ghost predicate ChannelsTidy(s: Control) {
    && s.current < s.created
    && (forall ch :: 0 <= ch < s.created && ch != s.current ==> ch in s.closings)
    && (forall i :: 0 <= i < |s.closings| ==> s.closings[i] < s.created)
    && Distinct(s.closings)
  }

  /** Outside a restart, whatever waits remembers the current channel. */
  ghost predicate RequestsTidy(s: Control) {
    && (forall i :: 0 <= i < |s.asked| ==> s.asked[i].ch == s.current)
    && (s.timer.Some? ==> s.timer.value.ch == s.current)
    && (forall k :: 0 <= k < |s.callbacks| - 1 ==> s.callbacks[k].phase == Over)
    && (!Idle(s) ==> s.timer == None && s.asked == [] && (s.exit.None? || s.exit.value.phase == Over))
  }

  /** The only closer at work is a callback of the current channel, or the loop's cleanup. */
  ghost predicate ClosersTidy(s: Control) {
    && (!Idle(s) ==>
          var c := s.callbacks[|s.callbacks| - 1];
          && c.ch == s.current
          && (c.phase == Tested(true) ==> s.current !in s.closings)
          && (AboutToRestart(c) ==> s.current in s.closings))
    && (s.exit.Some? && s.exit.value.phase.Tested? ==>
          s.exit.value.ch == s.current && (s.exit.value.phase.open <==> s.current !in s.closings))
  }

  ghost predicate Tidy(s: Control) {
    ChannelsTidy(s) && RequestsTidy(s) && ClosersTidy(s)
  }

  /** A step of a restart callback. */
  predicate AtWork(a: Action) {
    a.Test? || a.Close? || a.Wait? || a.Rebuild? || a.Restart?
  }

  /** The channel of a callback is closed, by it or before, and it goes on to restart. */
  predicate AboutToRestart(c: Closer) {
    c.phase == Tested(false) || c.phase.Waited? || c.phase.Rebuilt?
  }

  /** A callback not over is the last one. */
  lemma WorkingIsLast(s: Control, k: nat)
    requires RequestsTidy(s) && k < |s.callbacks| && s.callbacks[k].phase != Over
    ensures k == |s.callbacks| - 1 && !Idle(s)
  {
  }

  lemma StepKeepsChannels(s: Control, a: Action)
    requires Enabled(s, a) && Tidy(s)
    ensures ChannelsTidy(Step(s, a))
  {
    if AtWork(a) {
      WorkingIsLast(s, a.k);
    }
  }

  lemma StepKeepsRequests(s: Control, a: Action)
    requires Enabled(s, a) && Orderly(s, a) && Tidy(s)
    ensures RequestsTidy(Step(s, a))
  {
    if AtWork(a) {
      WorkingIsLast(s, a.k);
    }
  }

  lemma StepKeepsClosers(s: Control, a: Action)
    requires Enabled(s, a) && Orderly(s, a) && Tidy(s)
    ensures ClosersTidy(Step(s, a))
  {
    if AtWork(a) {
      WorkingIsLast(s, a.k);
    }
  }

  lemma StepKeepsTidy(s: Control, a: Action)
    requires Enabled(s, a) && Orderly(s, a) && Tidy(s)
    ensures Tidy(Step(s, a))
  {
    StepKeepsChannels(s, a);
    StepKeepsRequests(s, a);
    StepKeepsClosers(s, a);
  }

  lemma {:induction false} ReachableTidy(acts: seq<Action>, s: Control)
    requires Reaches(Ordered, acts, s)
    ensures Tidy(s)
  {
    if acts == [] {
    } else {
      var n := |acts| - 1;
      var s0 :| Reaches(Ordered, acts[..n], s0) && Enabled(s0, acts[n]) && Orderly(s0, acts[n])
        && s == Step(s0, acts[n]);
      ReachableTidy(acts[..n], s0);
      StepKeepsTidy(s0, acts[n]);
    }
  }

  /** At most one pipeline channel, the current one, is open in every state; and none is closed twice. */
  lemma OneChannelOpen(acts: seq<Action>, s: Control)
    requires Reaches(Ordered, acts, s)
    ensures Open(s) <= {s.current}
    ensures Distinct(s.closings)
  {
    ReachableTidy(acts, s);
  }

  // ------------------------------------------------------------------- shutdown

  predicate CleanedUp(s: Control) {
    s.exit.Some? && s.exit.value.phase == Over
  }

  /** The loop's cleanup closes whatever channel is open. */
  lemma CleanupClosesAll(acts: seq<Action>, s: Control)
    requires Reaches(Ordered, acts, s) && Enabled(s, CloseCurrent)
    ensures CleanedUp(Step(s, CloseCurrent)) && Open(Step(s, CloseCurrent)) == {}
  {
    ReachableTidy(acts, s);
  }

  /** After the cleanup, with no request pending and nothing open. */
  predicate Settled(s: Control) {
    CleanedUp(s) && Idle(s) && s.timer == None && s.asked == [] && Open(s) == {}
  }

  lemma SettledStays(s: Control, a: Action)
    requires Settled(s) && Enabled(s, a)
    ensures Settled(Step(s, a))
  {
    assert a.Pass? || a.Discovered?;
    assert Open(Step(s, a)) == Open(s);
  }

  lemma {:induction false} SameRunSameState(sch: Schedule, acts: seq<Action>, s: Control, t: Control)
    requires Reaches(sch, acts, s) && Reaches(sch, acts, t)
    ensures s == t
  {
    if acts == [] {
    } else {
      var n := |acts| - 1;
      var s0 :| Reaches(sch, acts[..n], s0) && Enabled(s0, acts[n]) && s == Step(s0, acts[n]);
      var t0 :| Reaches(sch, acts[..n], t0) && Enabled(t0, acts[n]) && t == Step(t0, acts[n]);
      SameRunSameState(sch, acts[..n], s0, t0);
    }
  }

  /** Once settled, every continuation of the run is settled. */
  lemma {:induction false} SettledForGood(acts: seq<Action>, s: Control, acts': seq<Action>, s': Control)
    requires Reaches(Ordered, acts, s) && Settled(s)
    requires acts <= acts' && Reaches(Ordered, acts', s')
    ensures Settled(s')
    decreases |acts'|
  {
    if acts == acts' {
      SameRunSameState(Ordered, acts, s, s');
    } else {
      var n := |acts'| - 1;
      var s0 :| Reaches(Ordered, acts'[..n], s0) && Enabled(s0, acts'[n]) && s' == Step(s0, acts'[n]);
      SettledForGood(acts, s, acts'[..n], s0);
      SettledStays(s0, acts'[n]);
    }
  }

  lemma Take(sch: Schedule, acts: seq<Action>, s: Control, a: Action)
    returns (s': Control, acts': seq<Action>)
    requires Reaches(sch, acts, s) && Enabled(s, a) && Allowed(sch, s, a)
    ensures s' == Step(s, a) && Reaches(sch, acts', s') && acts' == acts + [a]
  {
    s', acts' := Step(s, a), acts + [a];
    assert acts'[..|acts|] == acts;
  }

  /** Discoveries under way end; nothing else changes. */
  lemma {:induction false} DiscoveriesEnd(acts: seq<Action>, s: Control) returns (s': Control, acts': seq<Action>)
    requires Reaches(Ordered, acts, s)
    ensures acts <= acts' && Reaches(Ordered, acts', s') && s' == s.(discovering := {})
    decreases s.discovering
  {
    if s.discovering == {} {
      s', acts' := s, acts;
    } else {
      var ch :| ch in s.discovering;
      s', acts' := Take(Ordered, acts, s, Discovered(ch, false));
      s', acts' := DiscoveriesEnd(acts', s');
    }
  }

  lemma CallbackCloses(acts: seq<Action>, s: Control, k: nat) returns (s': Control, acts': seq<Action>)
    requires Reaches(Ordered, acts, s) && InPhase(s, k, Begun)
    ensures acts < acts' && Reaches(Ordered, acts', s') && s'.exit == s.exit
    ensures s'.callbacks == s.callbacks[k := Closer(s.callbacks[k].ch, Tested(false))]
  {
    s', acts' := Take(Ordered, acts, s, Test(k));
    if s'.callbacks[k].phase.open {
      s', acts' := Take(Ordered, acts', s', Close(k));
    }
  }

  /** With everything closed, nothing keeps the rebuild waiting. */
  lemma CallbackRebuilds(acts: seq<Action>, s: Control, k: nat) returns (s': Control, acts': seq<Action>)
    requires Reaches(Ordered, acts, s) && InPhase(s, k, Tested(false))
    ensures acts <= acts' && Reaches(Ordered, acts', s') && s'.exit == s.exit
    ensures s'.callbacks == s.callbacks[k := Closer(s.callbacks[k].ch, Rebuilt(true))]
  {
    s', acts' := DiscoveriesEnd(acts, s);
    s', acts' := Take(Ordered, acts', s', Wait(k));
    ReachableTidy(acts', s');
    ReachableClosed(Ordered, acts', s');
    WorkingIsLast(s', k);
    s', acts' := Take(Ordered, acts', s', Rebuild(k, true));
  }

  /** A callback at work, everything else settled, ends by opening a channel. */
  lemma CallbackOpens(acts: seq<Action>, s: Control, k: nat) returns (s': Control, acts': seq<Action>)
    requires Reaches(Ordered, acts, s) && CleanedUp(s) && InPhase(s, k, Begun)
    requires forall i :: 0 <= i < |s.callbacks| && i != k ==> s.callbacks[i].phase == Over
    ensures acts < acts' && Reaches(Ordered, acts', s') && CleanedUp(s') && Idle(s')
    ensures s'.current in Open(s')
  {
    s', acts' := CallbackCloses(acts, s, k);
    s', acts' := CallbackRebuilds(acts', s', k);
    ReachableTidy(acts', s');
    s', acts' := Take(Ordered, acts', s', Restart(k));
  }

  /**
    A request still pending when the loop stopped reopens discovery: the timer is not stopped with
    the loop, and the channel its restart opens has nobody left to close it.
   */
  lemma {:induction false} PendingRequestReopens(acts: seq<Action>, s: Control)
    requires Reaches(Ordered, acts, s) && CleanedUp(s) && Idle(s)
    requires s.timer.Some? || s.asked != []
    ensures exists acts', s' ::
      acts < acts' && Reaches(Ordered, acts', s') && CleanedUp(s') && Idle(s') && s'.current in Open(s')
    decreases |s.asked|
  {
    if s.asked != [] {
      var s1, acts1 := Take(Ordered, acts, s, Debounce(0));
      PendingRequestReopens(acts1, s1);
    } else {
      var s1, acts1 := Take(Ordered, acts, s, Pass(s.timer.value.due));
      s1, acts1 := Take(Ordered, acts1, s1, Fire);
      s1, acts1 := CallbackOpens(acts1, s1, |s1.callbacks| - 1);
    }
  }

  /** After the cleanup, some continuation opens a channel again exactly when a request is pending. */
  lemma ReopensExactlyWhenPending(acts: seq<Action>, s: Control)
    requires Reaches(Ordered, acts, s) && CleanedUp(s) && Idle(s) && Open(s) == {}
    ensures s.timer.Some? || s.asked != [] <==>
      exists acts', s' :: acts < acts' && Reaches(Ordered, acts', s') && Open(s') != {}
  {
    if s.timer.Some? || s.asked != [] {
      PendingRequestReopens(acts, s);
      var acts', s' :| acts < acts' && Reaches(Ordered, acts', s') && s'.current in Open(s');
      assert Open(s') != {};
    } else {
      forall acts', s' | acts < acts' && Reaches(Ordered, acts', s') ensures Open(s') == {} {
        SettledForGood(acts, s, acts', s');
      }
    }
  }


  // ------------------------------------------------------------------- exactly when a restart leaks

  /** Only created channels are remembered, closed or discovered. */
  ghost predicate Bounded(s: Control) {
    && s.current < s.created
    && (forall i :: 0 <= i < |s.closings| ==> s.closings[i] < s.created)
    && (forall i :: 0 <= i < |s.asked| ==> s.asked[i].ch < s.created)
    && (s.timer.Some? ==> s.timer.value.ch < s.created)
    && (forall k :: 0 <= k < |s.callbacks| ==> s.callbacks[k].ch < s.created)
    && (forall ch :: ch in s.discovering || ch in s.running || ch in s.started ==> ch < s.created)
  }

  /** A callback restarts with its channel closed. */
  ghost predicate RestartsClosed(s: Control) {
    forall k :: 0 <= k < |s.callbacks| && AboutToRestart(s.callbacks[k]) ==> s.callbacks[k].ch in s.closings
  }

  predicate Replaces(s: Control, k: nat) {
    k < |s.callbacks| && s.callbacks[k].ch == s.current && AboutToRestart(s.callbacks[k])
  }

  /** While the loop runs, the current channel is closed only by a callback that is about to restart. */
  ghost predicate ClosedByCallbacks(s: Control) {
    s.exit == None && s.current in s.closings ==> exists k: nat :: Replaces(s, k)
  }

  /** While the current channel is open, its informers are those of the present factory. */
  ghost predicate InformersPresent(s: Control) {
    s.current in s.started && s.current !in s.closings ==> s.current in s.running
  }

  lemma StepKeepsBounded(s: Control, a: Action)
    requires Enabled(s, a) && Bounded(s)
    ensures Bounded(Step(s, a))
  {
  }

  lemma StepKeepsRestartsClosed(s: Control, a: Action)
    requires Enabled(s, a) && RestartsClosed(s)
    ensures RestartsClosed(Step(s, a))
  {
  }

  lemma StepKeepsReplacer(s: Control, a: Action, k: nat)
    requires Enabled(s, a) && Replaces(s, k) && !a.Restart?
    ensures Replaces(Step(s, a), k)
  {
  }

  lemma StepKeepsClosed(s: Control, a: Action)
    requires Enabled(s, a) && Bounded(s) && ClosedByCallbacks(s)
    ensures ClosedByCallbacks(Step(s, a))
  {
    var s' := Step(s, a);
    if s'.exit == None && s'.current in s'.closings {
      if a.Close? && s.callbacks[a.k].ch == s.current {
        assert Replaces(s', a.k);
      } else if !a.Restart? {
        var k: nat :| Replaces(s, k);
        StepKeepsReplacer(s, a, k);
      }
    }
  }

  lemma StepKeepsInformers(s: Control, a: Action)
    requires Enabled(s, a) && Bounded(s) && InformersPresent(s)
    ensures InformersPresent(Step(s, a))
  {
  }

  lemma {:induction false} ReachableClosed(sch: Schedule, acts: seq<Action>, s: Control)
    requires Reaches(sch, acts, s)
    ensures Bounded(s) && RestartsClosed(s) && ClosedByCallbacks(s) && InformersPresent(s)
  {
    if acts == [] {
    } else {
      var n := |acts| - 1;
      var s0 :| Reaches(sch, acts[..n], s0) && Enabled(s0, acts[n]) && s == Step(s0, acts[n]);
      ReachableClosed(sch, acts[..n], s0);
      StepKeepsBounded(s0, acts[n]);
      StepKeepsRestartsClosed(s0, acts[n]);
      StepKeepsClosed(s0, acts[n]);
      StepKeepsInformers(s0, acts[n]);
    }
  }

  /** With restarts one at a time and the loop running, at most one callback is at work. */
  lemma {:induction false} OneAtWork(acts: seq<Action>, s: Control)
    requires Reaches(Solo, acts, s)
    ensures s.exit == None
    ensures forall k, l :: 0 <= k < l < |s.callbacks| ==> s.callbacks[k].phase == Over || s.callbacks[l].phase == Over
  {
    if acts == [] {
    } else {
      var n := |acts| - 1;
      var s0 :| Reaches(Solo, acts[..n], s0) && Enabled(s0, acts[n]) && Allowed(Solo, s0, acts[n])
        && s == Step(s0, acts[n]);
      OneAtWork(acts[..n], s0);
    }
  }

  lemma RestartOpens(s: Control, k: nat)
    requires Enabled(s, Restart(k)) && Bounded(s)
    ensures Open(Step(s, Restart(k))) == Open(s) + {s.created}
  {
  }

  /**
    Exactly when a restart leaves the channel before it open: when the channel it remembers, and
    closed, is not the current one.
   */
  lemma RestartLeaksExactlyWhen(acts: seq<Action>, s: Control, k: nat)
    requires Reaches(Solo, acts, s) && Enabled(s, Restart(k))
    ensures s.current in Open(Step(s, Restart(k))) <==> s.callbacks[k].ch != s.current
    ensures Open(Step(s, Restart(k))) == Open(s) + {s.created}
  {
    ReachableClosed(Solo, acts, s);
    RestartOpens(s, k);
    OneAtWork(acts, s);
    if s.current in s.closings {
      var k': nat :| Replaces(s, k');
      assert k' == k;
    }
  }

  // ------------------------------------------------------------------- what a leak needs of the rebuild

  /** After its wait, a callback that works alone sees no discovery under way, and after its rebuild no informer. */
  ghost predicate RebuildsAlone(s: Control) {
    forall k :: 0 <= k < |s.callbacks| ==>
      && (s.callbacks[k].phase.Waited? || s.callbacks[k].phase.Rebuilt? ==> s.discovering == {})
      && (s.callbacks[k].phase == Rebuilt(true) ==> s.running == {})
  }

  lemma StepKeepsAlone(s: Control, a: Action)
    requires Enabled(s, a) && RebuildsAlone(s)
    requires forall k, l :: 0 <= k < l < |s.callbacks| ==> s.callbacks[k].phase == Over || s.callbacks[l].phase == Over
    ensures RebuildsAlone(Step(s, a))
  {
    var s' := Step(s, a);
    forall k | 0 <= k < |s'.callbacks|
      ensures s'.callbacks[k].phase.Waited? || s'.callbacks[k].phase.Rebuilt? ==> s'.discovering == {}
      ensures s'.callbacks[k].phase == Rebuilt(true) ==> s'.running == {}
    {
      if AtWork(a) && k != a.k {
        assert s.callbacks[k].phase == Over;
      }
    }
  }

  lemma {:induction false} ReachableAlone(acts: seq<Action>, s: Control)
    requires Reaches(Solo, acts, s)
    ensures RebuildsAlone(s)
  {
    if acts == [] {
    } else {
      var n := |acts| - 1;
      var s0 :| Reaches(Solo, acts[..n], s0) && Enabled(s0, acts[n]) && Allowed(Solo, s0, acts[n])
        && s == Step(s0, acts[n]);
      ReachableAlone(acts[..n], s0);
      OneAtWork(acts[..n], s0);
      StepKeepsAlone(s0, acts[n]);
    }
  }

  /**
    A restart that leaves the channel before it open leaves informers running on it only if its
    rebuild failed: a rebuild that succeeds has waited for all informers to stop.
   */
  lemma LeakedInformersNeedFailure(acts: seq<Action>, s: Control, k: nat)
    requires Reaches(Solo, acts, s) && Enabled(s, Restart(k))
    requires s.current in Open(s) && s.current in s.started
    ensures s.callbacks[k].phase == Rebuilt(false)
  {
    ReachableClosed(Solo, acts, s);
    ReachableAlone(acts, s);
  }

  /** Callback `k` waits for informers on the open current channel to stop. */
  predicate Hung(s: Control, k: nat) {
    InPhase(s, k, Waited) && s.current in s.running && s.current in Open(s)
  }

  /** With restarts one at a time, such a restart hangs for good, unless its rebuild fails. */
  lemma HangsForGood(acts: seq<Action>, s: Control, k: nat, a: Action)
    requires Reaches(Solo, acts, s) && Hung(s, k)
    requires Enabled(s, a) && Allowed(Solo, s, a) && a != Rebuild(k, false)
    ensures Hung(Step(s, a), k)
  {
    OneAtWork(acts, s);
  }

  // ------------------------------------------------------------------- whole runs

  /** At no time is any channel but the current one open. */
  ghost predicate NeverTwoOpen(acts: seq<Action>) {
    forall j, t :: 0 <= j <= |acts| && Reaches(Solo, acts[..j], t) ==> Open(t) <= {t.current}
  }

  /** Every restart remembers the channel that is current when it starts the next discovery. */
  ghost predicate RestartsCurrent(acts: seq<Action>) {
    forall j, t :: 0 <= j < |acts| && Reaches(Solo, acts[..j], t) && Enabled(t, acts[j]) && acts[j].Restart? ==>
      t.callbacks[acts[j].k].ch == t.current
  }

  lemma StepKeepsOneOpen(acts: seq<Action>, s: Control, a: Action)
    requires Reaches(Solo, acts, s) && Enabled(s, a) && Open(s) <= {s.current}
    requires a.Restart? ==> s.callbacks[a.k].ch == s.current
    ensures Open(Step(s, a)) <= {Step(s, a).current}
  {
    if a.Restart? {
      RestartLeaksExactlyWhen(acts, s, a.k);
    }
  }

  lemma {:induction false} CurrentRestartsKeepOneOpen(acts: seq<Action>, s: Control)
    requires Reaches(Solo, acts, s) && RestartsCurrent(acts)
    ensures Open(s) <= {s.current}
  {
    if acts == [] {
    } else {
      var n := |acts| - 1;
      var s0 :| Reaches(Solo, acts[..n], s0) && Enabled(s0, acts[n]) && s == Step(s0, acts[n]);
      RestartsCurrentPrefix(acts, n);
      CurrentRestartsKeepOneOpen(acts[..n], s0);
      StepKeepsOneOpen(acts[..n], s0, acts[n]);
    }
  }

  lemma RestartsCurrentPrefix(acts: seq<Action>, n: nat)
    requires n <= |acts| && RestartsCurrent(acts)
    ensures RestartsCurrent(acts[..n])
  {
    forall j, t | 0 <= j < n && Reaches(Solo, acts[..n][..j], t) && Enabled(t, acts[..n][j]) && acts[..n][j].Restart?
      ensures t.callbacks[acts[..n][j].k].ch == t.current
    {
      assert acts[..n][..j] == acts[..j];
    }
  }

  lemma LeakIsSeen(acts: seq<Action>, j: nat, t: Control)
    requires NeverTwoOpen(acts) && j < |acts| && Reaches(Solo, acts[..j], t)
    requires Enabled(t, acts[j]) && acts[j].Restart?
    ensures t.callbacks[acts[j].k].ch == t.current
  {
    var t' := Step(t, acts[j]);
    assert Reaches(Solo, acts[..j + 1], t') by {
      assert acts[..j + 1][..j] == acts[..j];
    }
    assert Open(t') <= {t'.current};
    ReachableClosed(Solo, acts[..j], t);
    RestartLeaksExactlyWhen(acts[..j], t, acts[j].k);
  }

  /**
    Over whole runs with restarts one at a time and no stop: at most one channel is ever open
    exactly when every restart remembers the channel that is then current.
   */
  lemma OneOpenExactlyWhen(acts: seq<Action>, s: Control)
    requires Reaches(Solo, acts, s)
    ensures NeverTwoOpen(acts) <==> RestartsCurrent(acts)
  {
    if RestartsCurrent(acts) {
      forall j, t | 0 <= j <= |acts| && Reaches(Solo, acts[..j], t) ensures Open(t) <= {t.current} {
        RestartsCurrentPrefix(acts, j);
        CurrentRestartsKeepOneOpen(acts[..j], t);
      }
    }
    if NeverTwoOpen(acts) {
      forall j, t | 0 <= j < |acts| && Reaches(Solo, acts[..j], t) && Enabled(t, acts[j]) && acts[j].Restart?
        ensures t.callbacks[acts[j].k].ch == t.current
      {
        LeakIsSeen(acts, j, t);
      }
    }
  }

  // ------------------------------------------------------------------- exactly when a channel is closed twice

  /** The channel that an action closes, if any. */
  function ClosedBy(s: Control, a: Action): Option<nat>
    requires Enabled(s, a)
  {
    if a.Close? then Some(s.callbacks[a.k].ch)
    else if a.CloseCurrent? && s.exit.value.phase.open then Some(s.current)
    else None
  }

  lemma ClosingsStep(s: Control, a: Action)
    requires Enabled(s, a)
    ensures Step(s, a).closings == s.closings + if ClosedBy(s, a).Some? then [ClosedBy(s, a).value] else []
  {
    assert s.closings + [] == s.closings;
  }

  /** Action number `j` of the run closes the channel. */
  ghost predicate ClosesAt(acts: seq<Action>, j: nat, ch: nat) {
    j < |acts| && exists t ::
      Reaches(Free, acts[..j], t) && Enabled(t, acts[j]) && ClosedBy(t, acts[j]) == Some(ch)
  }

  lemma ClosesAtPrefix(acts: seq<Action>, n: nat, j: nat, ch: nat)
    requires j < n <= |acts|
    ensures ClosesAt(acts[..n], j, ch) <==> ClosesAt(acts, j, ch)
  {
    assert acts[..n][..j] == acts[..j];
  }

  lemma ClosesLast(acts: seq<Action>, s: Control, a: Action, ch: nat)
    requires Reaches(Free, acts, s) && Enabled(s, a)
    ensures ClosesAt(acts + [a], |acts|, ch) <==> ClosedBy(s, a) == Some(ch)
  {
    var acts' := acts + [a];
    assert acts'[..|acts|] == acts;
    forall t | Reaches(Free, acts, t) ensures t == s {
      SameRunSameState(Free, acts, s, t);
    }
  }

  lemma {:induction false} ClosingsExactly(acts: seq<Action>, s: Control, ch: nat)
    requires Reaches(Free, acts, s)
    ensures ch in s.closings <==> exists j: nat :: ClosesAt(acts, j, ch)
  {
    if acts == [] {
    } else {
      var n := |acts| - 1;
      var s0 :| Reaches(Free, acts[..n], s0) && Enabled(s0, acts[n]) && s == Step(s0, acts[n]);
      ClosingsExactly(acts[..n], s0, ch);
      ClosingsStep(s0, acts[n]);
      ClosesLast(acts[..n], s0, acts[n], ch);
      assert acts[..n] + [acts[n]] == acts;
      forall j: nat | j < n ensures ClosesAt(acts[..n], j, ch) <==> ClosesAt(acts, j, ch) {
        ClosesAtPrefix(acts, n, j, ch);
      }
      if ch in s0.closings {
        var j: nat :| ClosesAt(acts[..n], j, ch);
        assert ClosesAt(acts, j, ch);
      }
    }
  }

  /** `test` is the test that the closer of `close` made. */
  predicate TestOf(test: Action, close: Action) {
    (test.Test? && close == Close(test.k)) || (test.TestCurrent? && close.CloseCurrent?)
  }

  /** A closer about to close was so before the step, or has just tested, or the current channel is new. */
  lemma ClosingBefore(s: Control, b: Action, a: Action)
    requires Enabled(s, b) && Enabled(Step(s, b), a) && ClosedBy(Step(s, b), a).Some? && Bounded(s)
    ensures
      var ch := ClosedBy(Step(s, b), a).value;
      || (TestOf(b, a) && ch !in s.closings)
      || (Enabled(s, a) && ClosedBy(s, a) == Some(ch))
      || (Enabled(s, a) && ClosedBy(s, a).Some? && ch !in s.closings)
  {
  }

  /** Action number `i` is the closer's own test, and the channel was not closed before it. */
  ghost predicate TestedOpen(acts: seq<Action>, i: nat, a: Action, ch: nat) {
    i < |acts| && TestOf(acts[i], a) && forall j: nat :: j < i ==> !ClosesAt(acts, j, ch)
  }

  lemma TestedOpenPrefix(acts: seq<Action>, n: nat, i: nat, a: Action, ch: nat)
    requires n <= |acts| && TestedOpen(acts[..n], i, a, ch)
    ensures TestedOpen(acts, i, a, ch)
  {
    forall j: nat | j < i ensures !ClosesAt(acts, j, ch) {
      ClosesAtPrefix(acts, n, j, ch);
    }
  }

  lemma NotClosedBefore(acts: seq<Action>, n: nat, s: Control, ch: nat)
    requires n <= |acts| && Reaches(Free, acts[..n], s) && ch !in s.closings
    ensures forall j: nat :: j < n ==> !ClosesAt(acts, j, ch)
  {
    ClosingsExactly(acts[..n], s, ch);
    forall j: nat | j < n ensures !ClosesAt(acts, j, ch) {
      ClosesAtPrefix(acts, n, j, ch);
    }
  }

  lemma {:induction false} ClosersTested(acts: seq<Action>, s: Control, a: Action) returns (i: nat)
    requires Reaches(Free, acts, s) && Enabled(s, a) && ClosedBy(s, a).Some?
    ensures TestedOpen(acts, i, a, ClosedBy(s, a).value)
  {
    var n, ch := |acts| - 1, ClosedBy(s, a).value;
    var s0 :| Reaches(Free, acts[..n], s0) && Enabled(s0, acts[n]) && s == Step(s0, acts[n]);
    ReachableClosed(Free, acts[..n], s0);
    ClosingBefore(s0, acts[n], a);
    if ch !in s0.closings {
      NotClosedBefore(acts, n, s0, ch);
    }
    if TestOf(acts[n], a) && ch !in s0.closings {
      i := n;
    } else {
      i := ClosersTested(acts[..n], s0, a);
      if ClosedBy(s0, a) == Some(ch) {
        TestedOpenPrefix(acts, n, i, a, ch);
      }
    }
  }

  /** Between a closer's own test `i` and its closing `k` of a channel, action `j` closes that channel. */
  ghost predicate Overtaken(acts: seq<Action>, i: nat, j: nat, k: nat, ch: nat) {
    i < j < k < |acts| && TestOf(acts[i], acts[k]) && ClosesAt(acts, j, ch) && ClosesAt(acts, k, ch)
  }

  lemma OvertakenPrefix(acts: seq<Action>, n: nat, i: nat, j: nat, k: nat, ch: nat)
    requires k < n <= |acts|
    ensures Overtaken(acts[..n], i, j, k, ch) <==> Overtaken(acts, i, j, k, ch)
  {
    if i < j < k {
      ClosesAtPrefix(acts, n, j, ch);
      ClosesAtPrefix(acts, n, k, ch);
    }
  }

  /** Closing a channel again means that another closer closed it after one's own test. */
  lemma ClosesAgain(acts: seq<Action>, s: Control, a: Action)
    requires Reaches(Free, acts, s) && Enabled(s, a) && ClosedBy(s, a).Some?
    ensures ClosedBy(s, a).value in s.closings <==>
      exists i: nat, j: nat :: Overtaken(acts + [a], i, j, |acts|, ClosedBy(s, a).value)
  {
    var acts', ch := acts + [a], ClosedBy(s, a).value;
    assert acts'[..|acts|] == acts;
    ClosingsExactly(acts, s, ch);
    ClosesLast(acts, s, a, ch);
    if ch in s.closings {
      var j: nat :| ClosesAt(acts, j, ch);
      var i := ClosersTested(acts, s, a);
      ClosesAtPrefix(acts', |acts|, j, ch);
      assert j != i;
      assert Overtaken(acts', i, j, |acts|, ch);
    }
    forall i: nat, j: nat | Overtaken(acts', i, j, |acts|, ch) ensures ch in s.closings {
      ClosesAtPrefix(acts', |acts|, j, ch);
    }
  }

  ghost predicate ClosesTwice(acts: seq<Action>) {
    exists i: nat, j: nat, k: nat, ch: nat :: Overtaken(acts, i, j, k, ch)
  }

  lemma ClosesTwiceSnoc(acts: seq<Action>, a: Action)
    ensures ClosesTwice(acts + [a]) <==>
      ClosesTwice(acts) || exists i: nat, j: nat, ch: nat :: Overtaken(acts + [a], i, j, |acts|, ch)
  {
    var acts' := acts + [a];
    assert acts'[..|acts|] == acts;
    forall i: nat, j: nat, k: nat, ch: nat | k < |acts|
      ensures Overtaken(acts, i, j, k, ch) <==> Overtaken(acts', i, j, k, ch)
    {
      OvertakenPrefix(acts', |acts|, i, j, k, ch);
    }
    if ClosesTwice(acts) {
      var i: nat, j: nat, k: nat, ch: nat :| Overtaken(acts, i, j, k, ch);
      assert Overtaken(acts', i, j, k, ch);
    }
  }

  lemma DistinctSnoc(closings: seq<nat>, ch: nat)
    ensures Distinct(closings + [ch]) <==> Distinct(closings) && ch !in closings
  {
    var c := closings + [ch];
    assert forall i :: 0 <= i < |closings| ==> c[i] == closings[i];
    assert c[|closings|] == ch;
  }

  /**
    Exactly when no channel is closed twice, in every interleaving: unless a channel is closed
    between another closer's own test and that closer's closing of it.
   */
  lemma {:induction false} ClosedOnceExactlyWhen(acts: seq<Action>, s: Control)
    requires Reaches(Free, acts, s)
    ensures Distinct(s.closings) <==> !ClosesTwice(acts)
  {
    if acts == [] {
    } else {
      var n := |acts| - 1;
      var s0 :| Reaches(Free, acts[..n], s0) && Enabled(s0, acts[n]) && s == Step(s0, acts[n]);
      ClosedOnceExactlyWhen(acts[..n], s0);
      ClosedOnceStep(acts[..n], s0, acts[n]);
      assert acts[..n] + [acts[n]] == acts;
    }
  }

  lemma ClosedOnceStep(acts: seq<Action>, s: Control, a: Action)
    requires Reaches(Free, acts, s) && Enabled(s, a)
    requires Distinct(s.closings) <==> !ClosesTwice(acts)
    ensures Distinct(Step(s, a).closings) <==> !ClosesTwice(acts + [a])
  {
    ClosesTwiceSnoc(acts, a);
    ClosingsStep(s, a);
    if ClosedBy(s, a).Some? {
      var ch := ClosedBy(s, a).value;
      ClosesAgain(acts, s, a);
      DistinctSnoc(s.closings, ch);
      OnlyCloses(acts, s, a, ch);
    } else {
      assert s.closings + [] == s.closings;
      NothingCloses(acts, s, a);
    }
  }

  lemma OnlyCloses(acts: seq<Action>, s: Control, a: Action, ch: nat)
    requires Reaches(Free, acts, s) && Enabled(s, a) && ClosedBy(s, a) == Some(ch)
    ensures forall i: nat, j: nat, ch': nat :: Overtaken(acts + [a], i, j, |acts|, ch') ==> ch' == ch
  {
    forall i: nat, j: nat, ch': nat | Overtaken(acts + [a], i, j, |acts|, ch') ensures ch' == ch {
      ClosesLast(acts, s, a, ch');
    }
  }

  lemma NothingCloses(acts: seq<Action>, s: Control, a: Action)
    requires Reaches(Free, acts, s) && Enabled(s, a) && ClosedBy(s, a) == None
    ensures !exists i: nat, j: nat, ch: nat :: Overtaken(acts + [a], i, j, |acts|, ch)
  {
    forall i: nat, j: nat, ch: nat ensures !Overtaken(acts + [a], i, j, |acts|, ch) {
      ClosesLast(acts, s, a, ch);
    }
  }

  /** A callback that found its channel open has it still open, when callbacks work one at a time. */
  ghost predicate TestsHold(s: Control) {
    Distinct(s.closings)
    && forall k :: 0 <= k < |s.callbacks| && s.callbacks[k].phase == Tested(true) ==> s.callbacks[k].ch !in s.closings
  }

  /** With restarts one at a time and the loop running, no channel is closed twice. */
  lemma {:induction false} SoloClosesOnce(acts: seq<Action>, s: Control)
    requires Reaches(Solo, acts, s)
    ensures TestsHold(s) && Distinct(s.closings)
  {
    if acts == [] {
    } else {
      var n := |acts| - 1;
      var s0 :| Reaches(Solo, acts[..n], s0) && Enabled(s0, acts[n]) && Allowed(Solo, s0, acts[n])
        && s == Step(s0, acts[n]);
      SoloClosesOnce(acts[..n], s0);
      OneAtWork(acts[..n], s0);
      if acts[n].Close? {
        DistinctSnoc(s0.closings, s0.callbacks[acts[n].k].ch);
      }
    }
  }

  // ------------------------------------------------------------------- exactly when two channels are open

  /** At no time of the run is any channel but the current one open. */
  ghost predicate OneOpenThroughout(acts: seq<Action>) {
    forall j, t :: 0 <= j <= |acts| && Reaches(Free, acts[..j], t) ==> Open(t) <= {t.current}
  }

  /** An action before number `j` closes the channel. */
  ghost predicate ClosedEarlier(acts: seq<Action>, j: nat, ch: nat) {
    exists i: nat :: i < j && ClosesAt(acts, i, ch)
  }

  /** Every restart finds the current channel closed: an earlier action has closed it. */
  ghost predicate RestartsAfterClosing(acts: seq<Action>) {
    forall j, t :: 0 <= j < |acts| && Reaches(Free, acts[..j], t) && Enabled(t, acts[j]) && acts[j].Restart? ==>
      ClosedEarlier(acts, j, t.current)
  }

  lemma ClosedBeforeRestart(acts: seq<Action>, j: nat, t: Control)
    requires j <= |acts| && Reaches(Free, acts[..j], t)
    ensures t.current in t.closings <==> ClosedEarlier(acts, j, t.current)
  {
    ClosingsExactly(acts[..j], t, t.current);
    forall i: nat | i < j ensures ClosesAt(acts[..j], i, t.current) <==> ClosesAt(acts, i, t.current) {
      ClosesAtPrefix(acts, j, i, t.current);
    }
    if t.current in t.closings {
      var i: nat :| ClosesAt(acts[..j], i, t.current);
      assert i < j && ClosesAt(acts, i, t.current);
    }
  }

  lemma StepKeepsOneFreely(s: Control, a: Action)
    requires Enabled(s, a) && Bounded(s) && Open(s) <= {s.current}
    ensures Open(Step(s, a)) <= {Step(s, a).current} <==> (a.Restart? ==> s.current in s.closings)
  {
    var s' := Step(s, a);
    if a.Restart? {
      RestartOpens(s, a.k);
      assert s.current in Open(s') <==> s.current !in s.closings;
      assert s'.current == s.created != s.current;
    } else {
      assert Open(s') <= Open(s);
    }
  }

  lemma {:induction false} ClosedRestartsKeepOneOpen(acts: seq<Action>, j: nat, t: Control)
    requires RestartsAfterClosing(acts) && j <= |acts| && Reaches(Free, acts[..j], t)
    ensures Open(t) <= {t.current}
    decreases j
  {
    if j == 0 {
    } else {
      var n := j - 1;
      assert acts[..j][..n] == acts[..n];
      var t0 :| Reaches(Free, acts[..n], t0) && Enabled(t0, acts[n]) && t == Step(t0, acts[n]);
      ClosedRestartsKeepOneOpen(acts, n, t0);
      ReachableClosed(Free, acts[..n], t0);
      ClosedBeforeRestart(acts, n, t0);
      StepKeepsOneFreely(t0, acts[n]);
    }
  }

  lemma OpenRestartIsSeen(acts: seq<Action>, j: nat, t: Control)
    requires OneOpenThroughout(acts) && j < |acts| && Reaches(Free, acts[..j], t)
    requires Enabled(t, acts[j]) && acts[j].Restart?
    ensures t.current in t.closings
  {
    var t' := Step(t, acts[j]);
    assert Reaches(Free, acts[..j + 1], t') by {
      assert acts[..j + 1][..j] == acts[..j];
    }
    assert Open(t') <= {t'.current} && Open(t) <= {t.current};
    ReachableClosed(Free, acts[..j], t);
    StepKeepsOneFreely(t, acts[j]);
  }

  /**
    In every interleaving, with stops: at most one channel is ever open exactly when every restart
    finds the current one closed.
   */
  lemma {:induction false} OneOpenFreelyExactlyWhen(acts: seq<Action>, s: Control)
    requires Reaches(Free, acts, s)
    ensures OneOpenThroughout(acts) <==> RestartsAfterClosing(acts)
  {
    if RestartsAfterClosing(acts) {
      forall j, t | 0 <= j <= |acts| && Reaches(Free, acts[..j], t) ensures Open(t) <= {t.current} {
        ClosedRestartsKeepOneOpen(acts, j, t);
      }
      assert OneOpenThroughout(acts);
    }
    if OneOpenThroughout(acts) {
      forall j, t | 0 <= j < |acts| && Reaches(Free, acts[..j], t) && Enabled(t, acts[j]) && acts[j].Restart?
        ensures ClosedEarlier(acts, j, t.current)
      {
        OpenRestartIsSeen(acts, j, t);
        ClosedBeforeRestart(acts, j, t);
      }
      assert RestartsAfterClosing(acts);
    }
  }

  // ------------------------------------------------------------------- why restarts must run alone

  /** The loop runs, and its first discovery is still under way. */
  predicate Initially(s: Control) {
    && s.exit == None && s.current == 0 && s.created == 1
    && s.discovering == {0} && s.running == {} && s.closings == []
  }

  lemma FirstSignal() returns (acts: seq<Action>, s: Control)
    ensures Reaches(Free, acts, s) && acts == [Signal] && Initially(s)
    ensures s.asked == [Request(0, 0)] && s.callbacks == []
  {
    acts, s := [], INITIAL;
    s, acts := Take(Free, acts, s, Signal);
  }

  lemma OnlyCall(s: Control)
    requires |s.asked| == 1
    ensures
      var s' := Step(s, Debounce(0));
      s' == s.(timer := s'.timer, asked := [], called := s'.called, calls := s'.calls)
      && s'.timer == Some(Timer(s.now + QUIET, s.asked[0].ch))
  {
  }

  lemma FirstCall() returns (acts: seq<Action>, s: Control)
    ensures Reaches(Free, acts, s) && acts == [Signal] + [Debounce(0)] && Initially(s)
    ensures s.asked == [] && s.callbacks == [] && s.timer == Some(Timer(s.now + QUIET, 0))
  {
    acts, s := FirstSignal();
    OnlyCall(s);
    s, acts := Take(Free, acts, s, Debounce(0));
  }

  /** The first signal has been debounced, and its quiet period is over. */
  lemma TimerIsDue() returns (acts: seq<Action>, s: Control)
    ensures Reaches(Free, acts, s) && acts == [Signal] + [Debounce(0)] + [Pass(QUIET)] && Initially(s)
    ensures s.asked == [] && s.callbacks == [] && s.timer == Some(Timer(s.now, 0))
  {
    acts, s := FirstCall();
    s, acts := Take(Free, acts, s, Pass(QUIET));
  }

  lemma FirstRestartBegins() returns (acts: seq<Action>, s: Control)
    ensures Reaches(Free, acts, s) && Initially(s)
    ensures s.asked == [] && s.callbacks == [Closer(0, Begun)]
  {
    acts, s := TimerIsDue();
    s, acts := Take(Free, acts, s, Fire);
  }

  /** A stop taken while a restart tests its channel makes both close it, which panics. */
  lemma StopDuringRestartClosesTwice()
    ensures exists acts, s :: Reaches(Free, acts, s) && s.closings == [0, 0]
  {
    var acts, s := FirstRestartBegins();
    s, acts := Take(Free, acts, s, Test(0));
    s, acts := Take(Free, acts, s, Stop);
    acts, s := BothClose(acts, s);
  }

  lemma BothClose(acts: seq<Action>, s: Control) returns (acts': seq<Action>, s': Control)
    requires Reaches(Free, acts, s) && s.callbacks == [Closer(0, Tested(true))] && s.exit == Some(Closer(0, Begun))
    requires s.current == 0 && s.closings == []
    ensures Reaches(Free, acts', s') && s'.closings == [0, 0]
    ensures acts' == acts + [TestCurrent] + [Close(0)] + [CloseCurrent]
  {
    s', acts' := Take(Free, acts, s, TestCurrent);
    s', acts' := Take(Free, acts', s', Close(0));
    s', acts' := Take(Free, acts', s', CloseCurrent);
  }

  /** So does a timer that fires while the loop cleans up, though no restart was at work when the stop was taken. */
  lemma FireDuringCleanupClosesTwice()
    ensures exists acts, s ::
      && Reaches(Free, acts, s) && s.closings == [0, 0]
      && acts == [Signal] + [Debounce(0)] + [Pass(QUIET)] + [Stop] + [Fire] + [Test(0)]
                 + [TestCurrent] + [Close(0)] + [CloseCurrent]
  {
    var acts, s := TimerIsDue();
    s, acts := Take(Free, acts, s, Stop);
    s, acts := Take(Free, acts, s, Fire);
    s, acts := Take(Free, acts, s, Test(0));
    acts, s := BothClose(acts, s);
  }

  lemma SecondSignalIsDue() returns (acts: seq<Action>, s: Control)
    ensures Reaches(Free, acts, s) && s.callbacks == [Closer(0, Begun)] && s.closings == [] && s.exit == None
    ensures s.timer.Some? && s.timer.value.ch == 0 && s.timer.value.due <= s.now
  {
    acts, s := FirstRestartBegins();
    s, acts := Take(Free, acts, s, Signal);
    s, acts := Take(Free, acts, s, Debounce(0));
    s, acts := Take(Free, acts, s, Pass(QUIET));
  }

  /** So do two restarts that overlap, with no stop at all. */
  lemma OverlappingRestartsCloseTwice()
    ensures exists acts, s :: Reaches(Free, acts, s) && s.exit == None && s.closings == [0, 0]
  {
    var acts, s := SecondSignalIsDue();
    acts, s := BothTest(acts, s);
    s, acts := Take(Free, acts, s, Close(0));
    s, acts := Take(Free, acts, s, Close(1));
  }

  lemma BothTest(acts: seq<Action>, s: Control) returns (acts': seq<Action>, s': Control)
    requires Reaches(Free, acts, s) && s.callbacks == [Closer(0, Begun)] && s.closings == []
    requires s.timer.Some? && s.timer.value.ch == 0 && s.timer.value.due <= s.now
    ensures Reaches(Free, acts', s') && s'.exit == s.exit && s'.closings == []
    ensures s'.callbacks == [Closer(0, Tested(true)), Closer(0, Tested(true))]
  {
    s', acts' := Take(Free, acts, s, Fire);
    s', acts' := Take(Free, acts', s', Test(0));
    s', acts' := Take(Free, acts', s', Test(1));
  }

  /** A restart is over and its discovery started informers; a request for the channel it closed still waits. */
  ghost predicate Stale(s: Control) {
    && s.asked != [] && s.asked[0].ch == 0 && s.callbacks == [Closer(0, Over)] && s.exit == None
    && s.current == 1 && s.created == 2 && s.discovering == {} && s.running == {1} && 1 in s.started
    && s.closings == [0]
  }

  lemma StaleIsDue(acts: seq<Action>, s: Control) returns (acts': seq<Action>, s': Control)
    requires Reaches(Free, acts, s) && Stale(s)
    ensures Reaches(Free, acts', s') && acts' == acts + [Debounce(0)] + [Pass(QUIET)] + [Fire]
    ensures s'.callbacks == [Closer(0, Over), Closer(0, Begun)] && s'.exit == None && 1 in s'.started
    ensures s'.current == 1 && s'.created == 2 && s'.discovering == {} && s'.running == {1} && s'.closings == [0]
  {
    s', acts' := Take(Free, acts, s, Debounce(0));
    s', acts' := Take(Free, acts', s', Pass(QUIET));
    s', acts' := Take(Free, acts', s', Fire);
  }

  /** The restart of a stale request waits for the informers of the channel that it leaves open. */
  lemma StaleRequestHangs(acts: seq<Action>, s: Control) returns (acts': seq<Action>, s': Control)
    requires Reaches(Free, acts, s) && Stale(s)
    ensures Reaches(Free, acts', s') && Hung(s', 1) && s'.created == 2 && s'.current == 1 && 1 in s'.started
    ensures s'.callbacks == [Closer(0, Over), Closer(0, Waited)] && s'.closings == [0]
    ensures acts' == acts + [Debounce(0)] + [Pass(QUIET)] + [Fire] + [Test(1)] + [Wait(1)]
  {
    acts', s' := StaleIsDue(acts, s);
    s', acts' := Take(Free, acts', s', Test(1));
    s', acts' := Take(Free, acts', s', Wait(1));
  }

  lemma StaleRebuildFails(acts: seq<Action>, s: Control) returns (acts': seq<Action>, s': Control)
    requires Reaches(Free, acts, s) && Stale(s)
    ensures Reaches(Free, acts', s') && s'.created == 2 && 1 in s'.started
    ensures s'.callbacks == [Closer(0, Over), Closer(0, Rebuilt(false))] && s'.closings == [0]
    ensures acts' == acts + [Debounce(0)] + [Pass(QUIET)] + [Fire] + [Test(1)] + [Wait(1)] + [Rebuild(1, false)]
  {
    acts', s' := StaleRequestHangs(acts, s);
    s', acts' := Take(Free, acts', s', Rebuild(1, false));
  }

  lemma OneClosedOfThree(s: Control)
    requires s.closings == [0] && s.created == 3
    ensures Open(s) == {1, 2}
  {
  }

  /** If its rebuild fails, it leaves them running on the open channel and opens another. */
  lemma StaleRequestLeaks(acts: seq<Action>, s: Control) returns (acts': seq<Action>, s': Control)
    requires Reaches(Free, acts, s) && Stale(s)
    ensures Reaches(Free, acts', s') && Idle(s') && Open(s') == {1, 2} && 1 in s'.started
    ensures acts' ==
      acts + [Debounce(0)] + [Pass(QUIET)] + [Fire] + [Test(1)] + [Wait(1)] + [Rebuild(1, false)] + [Restart(1)]
  {
    acts', s' := StaleRebuildFails(acts, s);
    var s1 := s';
    s', acts' := Take(Free, acts', s1, Restart(1));
    assert s'.callbacks == s1.callbacks[1 := Closer(0, Over)];
    OneClosedOfThree(s');
  }

  /** The loop runs, and a request for the first channel waits for its debounced call. */
  predicate Asked(s: Control) {
    s.asked != [] && s.asked[0].ch == 0 && s.exit == None
  }

  lemma FirstRestartCloses(acts: seq<Action>, s: Control) returns (acts': seq<Action>, s': Control)
    requires Reaches(Free, acts, s) && s.callbacks == [Closer(0, Tested(true))] && Asked(s) && Initially(s)
    ensures Reaches(Free, acts', s') && acts' == acts + [Close(0)]
    ensures s'.callbacks == [Closer(0, Tested(false))] && Asked(s') && s'.current == 0 && s'.created == 1
    ensures s'.discovering == {0} && s'.running == {} && s'.closings == [0]
  {
    s', acts' := Take(Free, acts, s, Close(0));
  }

  lemma FirstRestartWaits(acts: seq<Action>, s: Control) returns (acts': seq<Action>, s': Control)
    requires Reaches(Free, acts, s) && s.callbacks == [Closer(0, Tested(true))] && Asked(s) && Initially(s)
    ensures Reaches(Free, acts', s') && acts' == acts + [Close(0)] + [Discovered(0, false)] + [Wait(0)]
    ensures s'.callbacks == [Closer(0, Waited)] && Asked(s') && s'.current == 0 && s'.created == 1
    ensures s'.discovering == {} && s'.running == {} && s'.closings == [0]
  {
    acts', s' := FirstRestartCloses(acts, s);
    s', acts' := Take(Free, acts', s', Discovered(0, false));
    s', acts' := Take(Free, acts', s', Wait(0));
  }

  lemma FirstRestartOpens(acts: seq<Action>, s: Control) returns (acts': seq<Action>, s': Control)
    requires Reaches(Free, acts, s) && s.callbacks == [Closer(0, Waited)] && Asked(s) && s.current == 0
    requires s.created == 1 && s.discovering == {} && s.running == {} && s.closings == [0]
    ensures Reaches(Free, acts', s') && acts' == acts + [Rebuild(0, true)] + [Restart(0)]
    ensures s'.callbacks == [Closer(0, Over)] && Asked(s') && s'.current == 1 && s'.created == 2
    ensures s'.discovering == {1} && s'.running == {} && s'.closings == [0]
  {
    s', acts' := Take(Free, acts, s, Rebuild(0, true));
    s', acts' := Take(Free, acts', s', Restart(0));
  }

  /** The first callback goes through; a signal taken before remembers the channel it closes. */
  lemma FirstRestartEnds(acts: seq<Action>, s: Control) returns (acts': seq<Action>, s': Control)
    requires Reaches(Free, acts, s) && s.callbacks == [Closer(0, Tested(true))] && Asked(s) && Initially(s)
    ensures Reaches(Free, acts', s') && Stale(s')
    ensures acts' == acts + [Close(0)] + [Discovered(0, false)] + [Wait(0)] + [Rebuild(0, true)] + [Restart(0)]
                     + [Discovered(1, true)]
  {
    acts', s' := FirstRestartWaits(acts, s);
    acts', s' := FirstRestartOpens(acts', s');
    s', acts' := Take(Free, acts', s', Discovered(1, true));
  }

  lemma SignalMidRestart() returns (acts: seq<Action>, s: Control)
    ensures Reaches(Free, acts, s) && Stale(s)
  {
    acts, s := FirstRestartBegins();
    s, acts := Take(Free, acts, s, Signal);
    s, acts := Take(Free, acts, s, Test(0));
    acts, s := FirstRestartEnds(acts, s);
  }

  /** A signal taken mid-restart remembers the old channel, so its own restart hangs on the new one ... */
  lemma SignalDuringRestartHangs()
    ensures exists acts, s :: Reaches(Free, acts, s) && Hung(s, 1)
  {
    var acts, s := SignalMidRestart();
    acts, s := StaleRequestHangs(acts, s);
  }

  /** ... or, if its rebuild fails, leaves the new one open with its informers and opens another. */
  lemma SignalDuringRestartLeaks()
    ensures exists acts, s :: Reaches(Free, acts, s) && Idle(s) && Open(s) == {1, 2} && 1 in s.started
  {
    var acts, s := SignalMidRestart();
    acts, s := StaleRequestLeaks(acts, s);
  }

  /**
    The same without any signal during a restart: the timer fires between a signal and its
    debounced call. Signals are taken while no restart is at work, and restarts run one at a time.
   */
  lemma FireBeforeCallLeaks()
    ensures exists acts, s ::
      && Reaches(Free, acts, s) && Idle(s) && Open(s) == {1, 2} && 1 in s.started
      && acts == [Signal] + [Debounce(0)] + [Pass(QUIET)] + [Signal] + [Fire] + [Test(0)]
                 + [Close(0)] + [Discovered(0, false)] + [Wait(0)] + [Rebuild(0, true)] + [Restart(0)]
                 + [Discovered(1, true)] + [Debounce(0)] + [Pass(QUIET)] + [Fire] + [Test(1)] + [Wait(1)]
                 + [Rebuild(1, false)] + [Restart(1)]
  {
    var acts, s := TimerIsDue();
    s, acts := Take(Free, acts, s, Signal);
    s, acts := Take(Free, acts, s, Fire);
    s, acts := Take(Free, acts, s, Test(0));
    acts, s := FirstRestartEnds(acts, s);
    acts, s := StaleRequestLeaks(acts, s);
  }
}
