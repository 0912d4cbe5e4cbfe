/** The manager's lifecycle over every interleaving of threads inside init, start and stop. */
module PeerLifecycle {
  import opened Wrappers
  import opened Signaling
  import opened PeerManager

  // ----- lifecycle -----

  function Rank(app: AppState): nat {
    match app
    case Uninitialized => 0
    case Initializing => 1
    case Initialized => 2
    case Running => 3
    case Stopping => 4
    case Stopped => 5
  }

  predicate At(s: State, thread: Thread, phase: Phase) {
    thread in s.threads && s.threads[thread] == phase
  }

  /** What the threads inside init, start and stop say about the state. */
  ghost predicate Orderly(s: State) {
    && (forall t: Thread | At(s, t, InInit) :: s.app == Initializing)
    && (forall t: Thread, u: Thread | At(s, t, InInit) && At(s, u, InInit) :: t == u)
    && (forall t: Thread | At(s, t, InStart) :: Rank(s.app) >= Rank(Running))
    && (forall t: Thread | At(s, t, InStop) :: Rank(s.app) >= Rank(Stopping))
    && (s.cleared ==> s.app == Stopped)
  }

  predicate IsLifecycle(e: Event) {
    e.CallInit? || e.InitBody? || e.CallStart? || e.StartBody? || e.CallStop? || e.StopRetry? || e.StopBody?
  }

  predicate SameLifecycle(s: State, t: State) {
    t.app == s.app && t.threads == s.threads && t.cleared == s.cleared && t.signalingClient == s.signalingClient
  }

  predicate SameTracking(s: State, t: State) {
    t.lastHeartbeat == s.lastHeartbeat && t.attempts == s.attempts
  }

  lemma CreateKeepsLifecycle(s: State, p: PeerId, creates: bool)
    ensures SameLifecycle(s, GetOrCreate(s, p, creates)) && SameTracking(s, GetOrCreate(s, p, creates))
  {
  }

  lemma DescribeKeepsLifecycle(s: State, p: PeerId, kind: string, sdp: string, accepts: bool)
    ensures SameLifecycle(s, Describe(s, p, kind, sdp, accepts)) && SameTracking(s, Describe(s, p, kind, sdp, accepts))
  {
  }

  lemma AcceptKeepsLifecycle(s: State, p: PeerId, c: PendingRemoteCandidate)
    ensures SameLifecycle(s, Accept(s, p, c)) && SameTracking(s, Accept(s, p, c))
  {
  }

  lemma ConnectKeepsLifecycle(s: State, p: PeerId, creates: bool)
    ensures SameLifecycle(s, Connect(s, p, creates))
  {
  }

  lemma ChangeKeepsLifecycle(s: State, p: PeerId, state: PcState)
    ensures SameLifecycle(s, ChangeState(s, p, state))
  {
  }

  lemma SweepKeepsLifecycle(s: State, now: int, intervalMs: int, connected: set<nat>)
    ensures SameLifecycle(s, Sweep(s, now, intervalMs, connected))
  {
  }

  lemma DeliverKeepsLifecycle(s: State, m: SignalMessage, accepts: bool)
    ensures SameLifecycle(s, Deliver(s, m, accepts)) && SameTracking(s, Deliver(s, m, accepts))
  {
    match m.kind
    case OFFER => if m.sdp.Some? { DescribeKeepsLifecycle(s, m.from, "offer", m.sdp.value, accepts); }
    case ANSWER => if m.sdp.Some? { DescribeKeepsLifecycle(s, m.from, "answer", m.sdp.value, accepts); }
    case CANDIDATE => if FullCandidate(m) { AcceptKeepsLifecycle(s, m.from, CandidateOf(m)); }
    case _ =>
  }

  lemma SignalKeepsLifecycle(s: State, m: SignalMessage, creates: bool, accepts: bool)
    ensures var t := HandleSignal(s, m, creates, accepts); SameLifecycle(s, t) && SameTracking(s, t)
  {
    CreateKeepsLifecycle(s, m.from, creates);
    DeliverKeepsLifecycle(GetOrCreate(s, m.from, creates), m, accepts);
  }

  /** Everything but init, start and stop leaves the lifecycle alone. */
  lemma OthersKeepLifecycle(s: State, e: Event)
    requires !IsLifecycle(e)
    ensures SameLifecycle(s, Step(s, e))
  {
    match e
    case ConnectToPeer(p, creates) => ConnectKeepsLifecycle(s, p, creates);
    case Signal(m, creates, accepts) => SignalKeepsLifecycle(s, m, creates, accepts);
    case StateChange(p, state) => ChangeKeepsLifecycle(s, p, state);
    case HeartbeatTimer(now, intervalMs, connected) => SweepKeepsLifecycle(s, now, intervalMs, connected);
    case DisconnectFromPeer(p) =>
    case HeartbeatReceived(p, now, intervalMs) =>
  }

  lemma SameThreads(s: State, t: State)
    requires SameLifecycle(s, t)
    ensures Orderly(s) ==> Orderly(t)
  {
    assert forall u: Thread, phase :: At(t, u, phase) <==> At(s, u, phase);
  }

  /** A thread passes a gate. */
  lemma GateKeepsOrderly(s: State, thread: Thread, expected: AppState, desired: AppState, phase: Phase)
    requires Orderly(s) && s.app == expected
    requires (expected, desired, phase) in
      {(Uninitialized, Initializing, InInit), (Initialized, Running, InStart),
       (Running, Stopping, InStop), (Initialized, Stopping, InStop)}
    ensures Orderly(Gate(s, thread, expected, desired, phase))
  {
    var t := Gate(s, thread, expected, desired, phase);
    assert forall u: Thread, other | u != thread :: At(t, u, other) <==> At(s, u, other);
    assert At(t, thread, phase);
    assert forall other :: At(t, thread, other) <==> other == phase;
  }

  /** A thread past its gate runs its locked body, or a stop gives up. */
  lemma BodyKeepsOrderly(s: State, t: State, thread: Thread)
    requires Orderly(s) && t.threads == s.threads - {thread}
    requires || (At(s, thread, InInit) && t.app == Initialized && t.cleared == s.cleared)
             || (t.app == Stopped && (At(s, thread, InStart) || At(s, thread, InStop)))
             || ((At(s, thread, InStopRetry) || At(s, thread, InStart)) && t.app == s.app && t.cleared == s.cleared)
    ensures Orderly(t) && Rank(t.app) >= Rank(s.app)
  {
    assert forall u: Thread, other :: At(t, u, other) <==> At(s, u, other) && u != thread;
  }

  lemma RetryKeepsOrderly(s: State, thread: Thread)
    requires Orderly(s) && thread !in s.threads
    ensures Orderly(s.(threads := s.threads[thread := InStopRetry]))
  {
    var t := s.(threads := s.threads[thread := InStopRetry]);
    assert forall u: Thread, other | u != thread :: At(t, u, other) <==> At(s, u, other);
    assert forall other :: At(t, thread, other) <==> other == InStopRetry;
  }

  lemma CallKeepsOrderly(s: State, e: Event)
    requires Orderly(s) && IsLifecycle(e) && e.thread !in s.threads
    ensures Orderly(Lifecycle(s, e)) && Rank(Lifecycle(s, e).app) >= Rank(s.app)
  {
    match e
    case CallInit(u) => if s.app == Uninitialized { GateKeepsOrderly(s, u, Uninitialized, Initializing, InInit); }
    case CallStart(u) => if s.app == Initialized { GateKeepsOrderly(s, u, Initialized, Running, InStart); }
    case CallStop(u) =>
      if s.app == Running {
        GateKeepsOrderly(s, u, Running, Stopping, InStop);
      } else {
        RetryKeepsOrderly(s, u);
      }
    case _ =>
  }

  lemma SecondStopKeepsOrderly(s: State, thread: Thread)
    requires Orderly(s) && At(s, thread, InStopRetry)
    ensures Orderly(SecondStop(s, thread)) && Rank(SecondStop(s, thread).app) >= Rank(s.app)
  {
    if s.app == Initialized {
      GateKeepsOrderly(s, thread, Initialized, Stopping, InStop);
    } else {
      BodyKeepsOrderly(s, SecondStop(s, thread), thread);
    }
  }

  lemma ReturnKeepsOrderly(s: State, e: Event)
    requires Orderly(s) && IsLifecycle(e) && e.thread in s.threads
    ensures Orderly(Lifecycle(s, e)) && Rank(Lifecycle(s, e).app) >= Rank(s.app)
  {
    hide Orderly, Rank;
    var t := Lifecycle(s, e);
    var phase := s.threads[e.thread];
    assert At(s, e.thread, phase);
    match e
    case InitBody(u, wired) =>
      if phase == InInit {
        BodyKeepsOrderly(s, t, u);
      } else {
        assert t == s;
      }
    case StartBody(u) =>
      if phase == InStart {
        assert t == Return(s, u, if s.signalingClient then s.app else Stopped);
        BodyKeepsOrderly(s, t, u);
      } else {
        assert t == s;
      }
    case StopBody(u) =>
      if phase == InStop {
        BodyKeepsOrderly(s, t, u);
      } else {
        assert t == s;
      }
    case StopRetry(u) =>
      if phase == InStopRetry {
        SecondStopKeepsOrderly(s, u);
      } else {
        assert t == s;
      }
    case CallInit(_) => assert t == s;
    case CallStart(_) => assert t == s;
    case CallStop(_) => assert t == s;
  }

  lemma LifecycleKeepsOrderly(s: State, e: Event)
    requires Orderly(s) && IsLifecycle(e)
    ensures Orderly(Lifecycle(s, e)) && Rank(Lifecycle(s, e).app) >= Rank(s.app)
  {
    if e.thread !in s.threads {
      CallKeepsOrderly(s, e);
    } else {
      ReturnKeepsOrderly(s, e);
    }
  }

  lemma StepKeepsOrderly(s: State, e: Event)
    requires Orderly(s)
    ensures Orderly(Step(s, e)) && Rank(Step(s, e).app) >= Rank(s.app)
  {
    if IsLifecycle(e) {
      LifecycleKeepsOrderly(s, e);
    } else {
      OthersKeepLifecycle(s, e);
      SameThreads(s, Step(s, e));
    }
  }

  lemma {:induction false} AlwaysOrderly(es: seq<Event>, n: nat)
    requires n <= |es|
    ensures Orderly(Run(es, n))
  {
    hide Step;
    if n > 0 {
      AlwaysOrderly(es, n - 1);
      StepKeepsOrderly(Run(es, n - 1), es[n - 1]);
    }
  }

  /** In every interleaving the state never moves backwards. */
  lemma {:induction false} LifecycleIsMonotone(es: seq<Event>, m: nat, n: nat)
    requires m <= n <= |es|
    ensures Rank(Run(es, m).app) <= Rank(Run(es, n).app)
    decreases n
  {
    hide Step;
    if m < n {
      LifecycleIsMonotone(es, m, n - 1);
      AlwaysOrderly(es, n - 1);
      StepKeepsOrderly(Run(es, n - 1), es[n - 1]);
    }
  }

  /** Event `i` takes a thread past the gate of init, start or stop. */
  predicate Passes(s: State, e: Event, phase: Phase) {
    IsLifecycle(e) && !At(s, e.thread, phase) && At(Lifecycle(s, e), e.thread, phase)
  }

  function GatePasses(es: seq<Event>, n: nat, phase: Phase): nat
    requires n <= |es|
  {
    if n == 0 then 0
    else GatePasses(es, n - 1, phase) + if Passes(Run(es, n - 1), es[n - 1], phase) then 1 else 0
  }

  function GateRank(phase: Phase): nat
    requires phase != InStopRetry
  {
    if phase == InInit then 1 else if phase == InStart then 3 else 4
  }

  lemma BodiesPassNoGate(s: State, e: Event, phase: Phase)
    requires e.InitBody? || e.StartBody? || e.StopBody?
    ensures !Passes(s, e, phase)
  {
  }

  lemma GateMoves(s: State, thread: Thread, expected: AppState, desired: AppState, own: Phase, phase: Phase)
    requires !At(s, thread, phase) && At(Gate(s, thread, expected, desired, own), thread, phase)
    ensures phase == own && s.app == expected && Gate(s, thread, expected, desired, own).app == desired
  {
  }

  lemma PassingRaises(s: State, e: Event, phase: Phase)
    requires phase != InStopRetry && Passes(s, e, phase)
    ensures Rank(s.app) < GateRank(phase) == Rank(Lifecycle(s, e).app)
  {
    match e
    case CallInit(u) => GateMoves(s, u, Uninitialized, Initializing, InInit, phase);
    case CallStart(u) => GateMoves(s, u, Initialized, Running, InStart, phase);
    case CallStop(u) => GateMoves(s, u, Running, Stopping, InStop, phase);
    case StopRetry(u) => GateMoves(s, u, Initialized, Stopping, InStop, phase);
    case _ => BodiesPassNoGate(s, e, phase);
  }

  lemma LifecycleIsStep(s: State, e: Event)
    requires IsLifecycle(e)
    ensures Step(s, e) == Lifecycle(s, e)
  {
  }

  /** At most one caller ever passes each gate. */
  lemma {:induction false} EachGateOnce(es: seq<Event>, n: nat, phase: Phase)
    requires n <= |es| && phase != InStopRetry
    ensures GatePasses(es, n, phase) <= 1
    ensures GatePasses(es, n, phase) == 1 ==> Rank(Run(es, n).app) >= GateRank(phase)
  {
    hide Step;
    if n > 0 {
      EachGateOnce(es, n - 1, phase);
      AlwaysOrderly(es, n - 1);
      StepKeepsOrderly(Run(es, n - 1), es[n - 1]);
      if Passes(Run(es, n - 1), es[n - 1], phase) {
        PassingRaises(Run(es, n - 1), es[n - 1], phase);
        LifecycleIsStep(Run(es, n - 1), es[n - 1]);
      }
    }
  }

  // ----- running -----

  /** A start call finds no signalling client in its locked body, and stops the manager. */
  predicate FailsStart(s: State, e: Event) {
    e.StartBody? && At(s, e.thread, InStart) && !s.signalingClient
  }

  lemma BodiesEndRunning(s: State, e: Event)
    requires Orderly(s) && (e.InitBody? || e.StartBody? || e.StopBody?)
    ensures Lifecycle(s, e).app == Running <==> s.app == Running && !FailsStart(s, e)
  {
    assert e.thread in s.threads ==> At(s, e.thread, s.threads[e.thread]);
  }

  lemma StopsMoveRunning(s: State, e: Event)
    requires e.CallStop? || e.StopRetry?
    ensures Lifecycle(s, e).app == Running <==> s.app == Running && !Passes(s, e, InStop)
    ensures !Passes(s, e, InStart)
  {
    if e.CallStop? {
      assert Lifecycle(s, e) == if PhaseOf(s, e.thread).None? then FirstStop(s, e.thread) else s;
    } else {
      assert Lifecycle(s, e) == if PhaseOf(s, e.thread) == Some(InStopRetry) then SecondStop(s, e.thread) else s;
    }
  }

  lemma InitMovesNoRunning(s: State, u: Thread)
    ensures Lifecycle(s, CallInit(u)).app == Running <==> s.app == Running
    ensures !Passes(s, CallInit(u), InStart) && !Passes(s, CallInit(u), InStop)
  {
  }

  lemma StartMovesRunning(s: State, u: Thread)
    ensures Lifecycle(s, CallStart(u)).app == Running <==> Passes(s, CallStart(u), InStart) || s.app == Running
    ensures !Passes(s, CallStart(u), InStop)
  {
  }

  lemma RunningNext(s: State, e: Event)
    requires Orderly(s)
    ensures Step(s, e).app == Running <==>
            Passes(s, e, InStart) || (s.app == Running && !Passes(s, e, InStop) && !FailsStart(s, e))
  {
    hide Lifecycle, Step;
    if !IsLifecycle(e) {
      OthersKeepLifecycle(s, e);
    } else {
      LifecycleIsStep(s, e);
      if e.InitBody? || e.StartBody? || e.StopBody? {
        BodiesEndRunning(s, e);
        BodiesPassNoGate(s, e, InStart);
        BodiesPassNoGate(s, e, InStop);
      } else {
        if e.CallInit? {
          InitMovesNoRunning(s, e.thread);
        } else if e.CallStart? {
          StartMovesRunning(s, e.thread);
        } else {
          StopsMoveRunning(s, e);
        }
      }
    }
  }

  /** Event `k` takes a start call past its gate, and before event `n` no stop passes one of its gates and
      no start call fails. */
  ghost predicate StartStands(es: seq<Event>, k: nat, n: nat)
    requires k < n <= |es|
  {
    && Passes(Run(es, k), es[k], InStart)
    && forall j | k < j < n :: !Passes(Run(es, j), es[j], InStop) && !FailsStart(Run(es, j), es[j])
  }

  /** A manager that was not running is running exactly when a start since passed its gate, and since then
      neither a stop passed one of its own nor a start call failed. */
  lemma {:induction false} RunningExactlyWhen(es: seq<Event>, m: nat, n: nat)
    requires m <= n <= |es|
    ensures Run(es, m).app != Running ==>
              (Run(es, n).app == Running <==> exists k: nat | m <= k < n :: StartStands(es, k, n))
    decreases n
  {
    hide Step, Passes, FailsStart;
    if m < n && Run(es, m).app != Running {
      var s, e := Run(es, n - 1), es[n - 1];
      RunningExactlyWhen(es, m, n - 1);
      AlwaysOrderly(es, n - 1);
      RunningNext(s, e);
      if Passes(s, e, InStart) {
        assert StartStands(es, n - 1, n);
      } else if Run(es, n).app == Running {
        var k: nat :| m <= k < n - 1 && StartStands(es, k, n - 1);
        assert StartStands(es, k, n);
      }
      if k: nat :| m <= k < n - 1 && StartStands(es, k, n) {
        assert StartStands(es, k, n - 1);
      }
    }
  }

  /** A lifecycle step leaves the phases alone, or moves its own thread, or ends its call. */
  predicate MovesOnly(s: State, t: State, thread: Thread) {
    || t.threads == s.threads
    || t.threads == s.threads - {thread}
    || (thread in t.threads && t.threads == s.threads[thread := t.threads[thread]])
  }

  lemma IdleMovesOnly(s: State, e: Event)
    requires IsLifecycle(e) && e.thread !in s.threads
    ensures MovesOnly(s, Lifecycle(s, e), e.thread)
  {
    match e
    case CallInit(_) =>
    case CallStart(_) =>
    case CallStop(u) => assert Lifecycle(s, e) == FirstStop(s, u);
    case InitBody(_, _) => assert Lifecycle(s, e) == s;
    case StartBody(_) => assert Lifecycle(s, e) == s;
    case StopRetry(_) => assert Lifecycle(s, e) == s;
    case StopBody(_) => assert Lifecycle(s, e) == s;
  }

  lemma BusyMovesOnly(s: State, e: Event)
    requires IsLifecycle(e) && e.thread in s.threads
    ensures MovesOnly(s, Lifecycle(s, e), e.thread)
  {
    var phase := s.threads[e.thread];
    match e
    case InitBody(_, _) => if phase != InInit { assert Lifecycle(s, e) == s; }
    case StartBody(_) => if phase != InStart { assert Lifecycle(s, e) == s; }
    case StopBody(_) => if phase != InStop { assert Lifecycle(s, e) == s; }
    case StopRetry(u) =>
      assert Lifecycle(s, e) == if phase == InStopRetry then SecondStop(s, u) else s;
    case CallInit(_) => assert Lifecycle(s, e) == s;
    case CallStart(_) => assert Lifecycle(s, e) == s;
    case CallStop(_) => assert Lifecycle(s, e) == s;
  }

  lemma OthersStay(s: State, e: Event, u: Thread, phase: Phase)
    requires IsLifecycle(e) && u != e.thread
    ensures At(Lifecycle(s, e), u, phase) <==> At(s, u, phase)
  {
    hide Lifecycle;
    if e.thread in s.threads {
      BusyMovesOnly(s, e);
    } else {
      IdleMovesOnly(s, e);
    }
  }

  lemma OwnRetryWaits(s: State, e: Event)
    requires IsLifecycle(e) && At(s, e.thread, InStopRetry) && !e.StopRetry?
    ensures Lifecycle(s, e) == s
  {
  }

  lemma RetryWaits(s: State, e: Event, thread: Thread)
    requires At(s, thread, InStopRetry) && e != StopRetry(thread)
    ensures At(Step(s, e), thread, InStopRetry)
  {
    hide Lifecycle, Step;
    if !IsLifecycle(e) {
      OthersKeepLifecycle(s, e);
    } else {
      LifecycleIsStep(s, e);
      if e.thread == thread {
        OwnRetryWaits(s, e);
      } else {
        OthersStay(s, e, thread, InStopRetry);
      }
    }
  }

  lemma FirstTry(s: State, thread: Thread)
    requires thread !in s.threads && s.app != Running
    ensures At(Step(s, CallStop(thread)), thread, InStopRetry)
  {
    LifecycleIsStep(s, CallStop(thread));
    assert Lifecycle(s, CallStop(thread)) == FirstStop(s, thread);
  }

  /** A stop call whose first compare-and-swap failed stays between the two until its second. */
  lemma {:induction false} RetryIsNext(es: seq<Event>, c: nat, r: nat, thread: Thread)
    requires c < r <= |es| && es[c] == CallStop(thread) && thread !in Run(es, c).threads && Run(es, c).app != Running
    requires forall i | c < i < r :: es[i] != StopRetry(thread)
    ensures At(Run(es, r), thread, InStopRetry)
    decreases r
  {
    hide Step;
    if r == c + 1 {
      FirstTry(Run(es, c), thread);
    } else {
      RetryIsNext(es, c, r - 1, thread);
      RetryWaits(Run(es, r - 1), es[r - 1], thread);
    }
  }

  lemma SecondTry(s: State, thread: Thread)
    requires At(s, thread, InStopRetry)
    ensures var t := Step(s, StopRetry(thread));
            && (t.app == Running <==> s.app == Running)
            && (if s.app == Initialized then At(t, thread, InStop) else thread !in t.threads)
  {
    LifecycleIsStep(s, StopRetry(thread));
  }

  /** stop tries Running, then Initialized. When its first compare-and-swap failed, it returns with the
      manager running exactly when between the two a start passed its gate, and since then neither
      another stop passed one nor a start call failed. A manager that is initialised it stops. */
  lemma StopGivesUpExactlyWhen(es: seq<Event>, c: nat, r: nat, thread: Thread)
    requires c < r < |es| && es[c] == CallStop(thread) && thread !in Run(es, c).threads && Run(es, c).app != Running
    requires es[r] == StopRetry(thread) && forall i | c < i < r :: es[i] != StopRetry(thread)
    ensures thread !in Run(es, r + 1).threads && Run(es, r + 1).app == Running <==>
            exists k: nat | c <= k < r :: StartStands(es, k, r)
    ensures Run(es, r).app == Initialized ==> At(Run(es, r + 1), thread, InStop)
  {
    hide Step, StartStands;
    RetryIsNext(es, c, r, thread);
    SecondTry(Run(es, r), thread);
    RunningExactlyWhen(es, c, r);
  }

  lemma Initialization(es: seq<Event>)
    requires |es| >= 2 && es[..2] == [CallInit(0), InitBody(0, false)]
    ensures Run(es, 2) == START.(app := Initialized)
  {
    assert es[0] == es[..2][0] && es[1] == es[..2][1];
    assert Run(es, 1) == START.(app := Initializing, threads := map[0 := InInit]);
    assert map[0 := InInit] - {0} == map[];
  }

  /** It does happen. */
  lemma StartOvertakesStop()
    ensures var es := [CallInit(0), InitBody(0, false), CallStop(1), CallStart(2), StopRetry(1)];
            Run(es, 5).app == Running && 1 !in Run(es, 5).threads
  {
    var es := [CallInit(0), InitBody(0, false), CallStop(1), CallStart(2), StopRetry(1)];
    hide HandleSignal, Connect, ChangeState, Sweep, CloseAll, Objects;
    Initialization(es);
    assert Run(es, 3) == START.(app := Initialized, threads := map[1 := InStopRetry]);
    assert Run(es, 4) == START.(app := Running, threads := map[1 := InStopRetry, 2 := InStart]);
  }

  // ----- a manager without a signalling client -----

  /** No init wired a signalling client, as none does in the code. */
  ghost predicate Unwired(es: seq<Event>) {
    forall e | e in es && e.InitBody? :: !e.wired
  }

  ghost predicate Transient(s: State) {
    !s.signalingClient && (s.app == Running ==> exists t: Thread :: At(s, t, InStart))
  }

  lemma TransientNext(s: State, e: Event)
    requires Orderly(s) && Transient(s) && (e.InitBody? ==> !e.wired)
    ensures Transient(Step(s, e))
  {
    var t := Step(s, e);
    RunningNext(s, e);
    if IsLifecycle(e) {
      LifecycleIsStep(s, e);
      if t.app == Running && s.app == Running {
        var u: Thread :| At(s, u, InStart);
        assert At(t, u, InStart);
      } else if t.app == Running {
        assert At(t, e.thread, InStart);
      }
    } else {
      OthersKeepLifecycle(s, e);
      assert forall u: Thread, phase :: At(t, u, phase) <==> At(s, u, phase);
    }
  }

  /** Without a signalling client, Running lasts only while a start call is between its gate and its body. */
  lemma {:induction false} RunningIsTransient(es: seq<Event>, n: nat)
    requires n <= |es| && Unwired(es)
    ensures !Run(es, n).signalingClient
    ensures Run(es, n).app == Running ==> exists t: Thread :: At(Run(es, n), t, InStart)
  {
    hide Step;
    if n > 0 {
      RunningIsTransient(es, n - 1);
      AlwaysOrderly(es, n - 1);
      assert es[n - 1] in es;
      TransientNext(Run(es, n - 1), es[n - 1]);
    }
  }

  /** Whatever is wired, a running manager has not been cleared. */
  lemma RunningIsUncleared(es: seq<Event>, n: nat)
    requires n <= |es|
    ensures Run(es, n).app == Running ==> !Run(es, n).cleared
  {
    hide Step;
    AlwaysOrderly(es, n);
  }

  // ----- stopped -----

  ghost predicate NoStopInside(s: State) {
    forall t: Thread :: !At(s, t, InStop)
  }

  lemma BodiesKeepStopped(s: State, e: Event)
    requires e.InitBody? || e.StartBody? || e.StopBody?
    requires Orderly(s) && s.app == Stopped && !At(s, e.thread, InStop)
    ensures var t := Lifecycle(s, e);
            && t.app == Stopped && !At(t, e.thread, InStop) && t.cleared == s.cleared
            && t.connections == s.connections && t.calls == s.calls
  {
    assert !At(s, e.thread, InInit);
    match e
    case InitBody(_, _) =>
    case StartBody(_) =>
    case StopBody(_) =>
  }

  lemma GatesKeepStopped(s: State, e: Event)
    requires e.CallInit? || e.CallStart? || e.CallStop? || e.StopRetry?
    requires s.app == Stopped && !At(s, e.thread, InStop)
    ensures var t := Lifecycle(s, e);
            && t.app == Stopped && !At(t, e.thread, InStop) && t.cleared == s.cleared
            && t.connections == s.connections && t.calls == s.calls
  {
    match e
    case CallInit(_) =>
    case CallStart(_) =>
    case CallStop(_) =>
    case StopRetry(_) =>
  }

  lemma StoppedStaysClosed(s: State, e: Event)
    requires Orderly(s) && IsLifecycle(e) && s.app == Stopped && NoStopInside(s)
    ensures var t := Lifecycle(s, e);
            && t.app == Stopped && NoStopInside(t) && t.cleared == s.cleared
            && t.connections == s.connections && t.calls == s.calls
  {
    hide Lifecycle, Orderly;
    if e.InitBody? || e.StartBody? || e.StopBody? {
      BodiesKeepStopped(s, e);
    } else {
      GatesKeepStopped(s, e);
    }
    forall u: Thread | u != e.thread ensures !At(Lifecycle(s, e), u, InStop) {
      OthersStay(s, e, u, InStop);
    }
  }

  lemma StepStaysClosed(s: State, e: Event)
    requires Orderly(s) && s.app == Stopped && NoStopInside(s)
    ensures Step(s, e).app == Stopped && NoStopInside(Step(s, e)) && Step(s, e).cleared == s.cleared
  {
    if IsLifecycle(e) {
      StoppedStaysClosed(s, e);
    } else {
      OthersKeepLifecycle(s, e);
      assert forall u: Thread, phase :: At(Step(s, e), u, phase) <==> At(s, u, phase);
    }
  }

  /** Once the manager is stopped and no stop is under way, no later init, start or stop does anything:
      what stop has not closed by then it never closes. */
  lemma {:induction false} StoppedForGood(es: seq<Event>, m: nat, n: nat)
    requires m <= n <= |es| && Run(es, m).app == Stopped && NoStopInside(Run(es, m))
    ensures Run(es, n).app == Stopped && NoStopInside(Run(es, n)) && Run(es, n).cleared == Run(es, m).cleared
    decreases n
  {
    hide Step;
    if m < n {
      StoppedForGood(es, m, n - 1);
      AlwaysOrderly(es, n - 1);
      StepStaysClosed(Run(es, n - 1), es[n - 1]);
    }
  }

  /** A stop is past its gate and before its body, or has been through it. */
  ghost predicate StopEntered(s: State) {
    s.cleared || !NoStopInside(s)
  }

  lemma OwnStopEntered(s: State, e: Event)
    requires IsLifecycle(e)
    ensures var t := Lifecycle(s, e);
            t.cleared || At(t, e.thread, InStop) <==> s.cleared || At(s, e.thread, InStop) || Passes(s, e, InStop)
  {
    match e
    case CallInit(_) =>
    case InitBody(_, _) =>
    case CallStart(_) =>
    case StartBody(_) =>
    case CallStop(_) =>
    case StopRetry(_) =>
    case StopBody(_) =>
  }

  lemma LifecycleStopEntered(s: State, e: Event)
    requires IsLifecycle(e)
    ensures StopEntered(Lifecycle(s, e)) <==> StopEntered(s) || Passes(s, e, InStop)
  {
    hide Lifecycle, Passes;
    OwnStopEntered(s, e);
    forall u: Thread | u != e.thread ensures At(Lifecycle(s, e), u, InStop) <==> At(s, u, InStop) {
      OthersStay(s, e, u, InStop);
    }
  }

  lemma StopEnteredNext(s: State, e: Event)
    ensures StopEntered(Step(s, e)) <==> StopEntered(s) || Passes(s, e, InStop)
  {
    hide Lifecycle, Step;
    if IsLifecycle(e) {
      LifecycleStopEntered(s, e);
      LifecycleIsStep(s, e);
    } else {
      OthersKeepLifecycle(s, e);
      assert forall u: Thread, phase :: At(Step(s, e), u, phase) <==> At(s, u, phase);
    }
  }

  lemma {:induction false} OneStopEntered(es: seq<Event>, n: nat)
    requires n <= |es|
    ensures GatePasses(es, n, InStop) == 1 <==> StopEntered(Run(es, n))
  {
    hide Step, Passes, StopEntered;
    EachGateOnce(es, n, InStop);
    if n > 0 {
      OneStopEntered(es, n - 1);
      EachGateOnce(es, n - 1, InStop);
      StopEnteredNext(Run(es, n - 1), es[n - 1]);
    } else {
      NothingEntered();
    }
  }

  lemma NothingEntered()
    ensures !StopEntered(START)
  {
    assert forall t: Thread :: !At(START, t, InStop);
  }

  lemma BodiesStop(s: State, e: Event)
    requires e.InitBody? || e.StartBody? || e.StopBody?
    ensures Lifecycle(s, e).app == Stopped && s.app != Stopped ==> FailsStart(s, e) || StopEntered(s)
  {
    assert e.thread in s.threads ==> At(s, e.thread, s.threads[e.thread]);
  }

  lemma GatesStopNothing(s: State, e: Event)
    requires e.CallInit? || e.CallStart? || e.CallStop? || e.StopRetry?
    ensures Lifecycle(s, e).app == Stopped ==> s.app == Stopped
  {
    match e
    case CallInit(_) =>
    case CallStart(_) =>
    case CallStop(_) =>
    case StopRetry(_) =>
  }

  lemma StoppedNext(s: State, e: Event)
    ensures Step(s, e).app == Stopped ==> s.app == Stopped || FailsStart(s, e) || StopEntered(s)
  {
    hide Step, Lifecycle, StopEntered, FailsStart;
    if !IsLifecycle(e) {
      OthersKeepLifecycle(s, e);
    } else {
      LifecycleIsStep(s, e);
      if e.InitBody? || e.StartBody? || e.StopBody? {
        BodiesStop(s, e);
      } else {
        GatesStopNothing(s, e);
      }
    }
  }

  lemma {:induction false} StoppedBySomeone(es: seq<Event>, n: nat)
    requires n <= |es|
    ensures Run(es, n).app == Stopped ==>
              StopEntered(Run(es, n)) || exists k | 0 <= k < n :: FailsStart(Run(es, k), es[k])
  {
    hide Step, StopEntered, FailsStart, Passes;
    if n > 0 {
      StoppedNext(Run(es, n - 1), es[n - 1]);
      StopEnteredNext(Run(es, n - 1), es[n - 1]);
      StoppedBySomeone(es, n - 1);
    }
  }

  /** A manager that is stopped, with no stop under way, closed and cleared its connections exactly when a
      stop passed its gate; otherwise it was a failing start that stopped it. */
  lemma ClearedExactlyWhen(es: seq<Event>, n: nat)
    requires n <= |es| && Run(es, n).app == Stopped && NoStopInside(Run(es, n))
    ensures Run(es, n).cleared <==> GatePasses(es, n, InStop) == 1
    ensures !Run(es, n).cleared ==> exists k | 0 <= k < n :: FailsStart(Run(es, k), es[k])
  {
    hide Step, FailsStart;
    OneStopEntered(es, n);
    StoppedBySomeone(es, n);
  }

  lemma FailingStops(s: State, e: Event)
    requires FailsStart(s, e) && !StopEntered(s)
    ensures Step(s, e).app == Stopped && NoStopInside(Step(s, e)) && !Step(s, e).cleared
    ensures Step(s, e).connections == s.connections
  {
    LifecycleIsStep(s, e);
    BodiesPassNoGate(s, e, InStop);
    LifecycleStopEntered(s, e);
  }

  /** A start that fails before any stop passed its gate strands every connection there is: the manager is
      stopped at once, keeps them, and never clears them. */
  lemma FailedStartStrands(es: seq<Event>, m: nat, n: nat)
    requires m < n <= |es| && FailsStart(Run(es, m), es[m]) && GatePasses(es, m, InStop) == 0
    ensures Run(es, m + 1).app == Stopped && Run(es, m + 1).connections == Run(es, m).connections
    ensures Run(es, n).app == Stopped && !Run(es, n).cleared
  {
    hide Step, FailsStart;
    OneStopEntered(es, m);
    FailingStops(Run(es, m), es[m]);
    StoppedForGood(es, m + 1, n);
  }

  /** It does happen, to a connection made while start was in between its gate and its body. */
  lemma FailedStartStrandsConnections(p: PeerId)
    ensures var es := [CallInit(0), InitBody(0, false), CallStart(0), ConnectToPeer(p, true), StartBody(0)];
            var s := Run(es, 5);
            s.app == Stopped && NoStopInside(s) && !s.cleared && Stored(s, p) == Some(0) && s.calls == [[CreateOffer]]
  {
    var es := [CallInit(0), InitBody(0, false), CallStart(0), ConnectToPeer(p, true), StartBody(0)];
    hide HandleSignal, ChangeState, Sweep, CloseAll, Objects;
    Initialization(es);
    var running := START.(app := Running, threads := map[0 := InStart]);
    assert Run(es, 3) == running;
    assert Run(es, 4) == running.(connections := map[p := Some(0)], calls := [[CreateOffer]]);
    assert Run(es, 5) == START.(app := Stopped, connections := map[p := Some(0)], calls := [[CreateOffer]]);
  }

  // ----- the state is the history -----

  datatype Mark = InitEnters | InitEnds | ClientWired | StartEnters | StartFails | StopEnters | StopEnds

  /** What an event does to the lifecycle. */
  predicate Marks(s: State, e: Event, mark: Mark) {
    match mark
    case InitEnters => e.CallInit? && e.thread !in s.threads
    case InitEnds => e.InitBody? && At(s, e.thread, InInit)
    case ClientWired => e.InitBody? && At(s, e.thread, InInit) && e.wired
    case StartEnters => e.CallStart? && e.thread !in s.threads && s.app == Initialized
    case StartFails => FailsStart(s, e)
    case StopEnters =>
      || (e.CallStop? && e.thread !in s.threads && s.app == Running)
      || (e.StopRetry? && At(s, e.thread, InStopRetry) && s.app == Initialized)
    case StopEnds => e.StopBody? && At(s, e.thread, InStop)
  }

  function AllMarks(s: State, e: Event): set<Mark> {
    set mark: Mark | Marks(s, e, mark)
  }

  function History(es: seq<Event>, n: nat): set<Mark>
    requires n <= |es|
  {
    if n == 0 then {} else History(es, n - 1) + AllMarks(Run(es, n - 1), es[n - 1])
  }

  /** The state and the client a history leaves behind. */
  predicate LeftBehind(s: State, h: set<Mark>) {
    && s.app == (if InitEnters !in h then Uninitialized
                 else if StopEnds in h || StartFails in h then Stopped
                 else if StopEnters in h then Stopping
                 else if StartEnters in h then Running
                 else if InitEnds in h then Initialized
                 else Initializing)
    && s.signalingClient == (ClientWired in h)
    && (h != {} ==> InitEnters in h) && (ClientWired in h ==> InitEnds in h)
  }

  lemma Unmarked(s: State, e: Event, h: set<Mark>)
    requires forall mark :: !Marks(s, e, mark)
    ensures h + AllMarks(s, e) == h
  {
  }

  lemma CallInitLeaves(s: State, e: Event, h: set<Mark>)
    requires e.CallInit? && LeftBehind(s, h)
    ensures LeftBehind(Lifecycle(s, e), h + AllMarks(s, e))
  {
    if !Marks(s, e, InitEnters) {
      Unmarked(s, e, h);
    }
  }

  lemma CallStartLeaves(s: State, e: Event, h: set<Mark>)
    requires e.CallStart? && LeftBehind(s, h)
    ensures LeftBehind(Lifecycle(s, e), h + AllMarks(s, e))
  {
    if !Marks(s, e, StartEnters) {
      Unmarked(s, e, h);
    }
  }

  lemma CallStopLeaves(s: State, e: Event, h: set<Mark>)
    requires e.CallStop? && LeftBehind(s, h)
    ensures LeftBehind(Lifecycle(s, e), h + AllMarks(s, e))
  {
    if !Marks(s, e, StopEnters) {
      Unmarked(s, e, h);
    }
  }

  lemma RetryLeaves(s: State, e: Event, h: set<Mark>)
    requires e.StopRetry? && LeftBehind(s, h)
    ensures LeftBehind(Lifecycle(s, e), h + AllMarks(s, e))
  {
    assert At(s, e.thread, InStopRetry) <==> PhaseOf(s, e.thread) == Some(InStopRetry);
    if !Marks(s, e, StopEnters) {
      Unmarked(s, e, h);
    }
  }

  lemma InitLeaves(s: State, e: Event, h: set<Mark>)
    requires e.InitBody? && Orderly(s) && LeftBehind(s, h)
    ensures LeftBehind(Lifecycle(s, e), h + AllMarks(s, e))
  {
    assert At(s, e.thread, InInit) <==> PhaseOf(s, e.thread) == Some(InInit);
    if !Marks(s, e, InitEnds) {
      Unmarked(s, e, h);
    }
  }

  lemma StartLeaves(s: State, e: Event, h: set<Mark>)
    requires e.StartBody? && Orderly(s) && LeftBehind(s, h)
    ensures LeftBehind(Lifecycle(s, e), h + AllMarks(s, e))
  {
    assert At(s, e.thread, InStart) <==> PhaseOf(s, e.thread) == Some(InStart);
    if !Marks(s, e, StartFails) {
      Unmarked(s, e, h);
    }
  }

  lemma StopLeaves(s: State, e: Event, h: set<Mark>)
    requires e.StopBody? && Orderly(s) && LeftBehind(s, h)
    ensures LeftBehind(Lifecycle(s, e), h + AllMarks(s, e))
  {
    assert At(s, e.thread, InStop) <==> PhaseOf(s, e.thread) == Some(InStop);
    if !Marks(s, e, StopEnds) {
      Unmarked(s, e, h);
    }
  }

  lemma StepLeaves(s: State, e: Event, h: set<Mark>)
    requires Orderly(s) && LeftBehind(s, h)
    ensures LeftBehind(Step(s, e), h + AllMarks(s, e))
  {
    hide Step, Orderly;
    if !IsLifecycle(e) {
      OthersKeepLifecycle(s, e);
      assert h + AllMarks(s, e) == h;
    } else {
      hide LeftBehind, AllMarks;
      LifecycleIsStep(s, e);
      match e
      case CallInit(_) => CallInitLeaves(s, e, h);
      case InitBody(_, _) => InitLeaves(s, e, h);
      case CallStart(_) => CallStartLeaves(s, e, h);
      case StartBody(_) => StartLeaves(s, e, h);
      case CallStop(_) => CallStopLeaves(s, e, h);
      case StopRetry(_) => RetryLeaves(s, e, h);
      case StopBody(_) => StopLeaves(s, e, h);
    }
  }

  /** In every run the state is told by which of init, start and stop have passed their gates, finished or
      failed so far, and the signalling client by how init finished. */
  lemma {:induction false} StateIsHistory(es: seq<Event>, n: nat)
    requires n <= |es|
    ensures LeftBehind(Run(es, n), History(es, n))
  {
    hide Step, LeftBehind, AllMarks;
    if n == 0 {
      NothingLeft();
    } else {
      StateIsHistory(es, n - 1);
      AlwaysOrderly(es, n - 1);
      StepLeaves(Run(es, n - 1), es[n - 1], History(es, n - 1));
    }
  }

  lemma NothingLeft()
    ensures LeftBehind(START, {})
  {
  }
}
