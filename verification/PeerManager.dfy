/** webrtc/webrtc_manager.cc: the peer-connection manager as a concurrent state machine.

    Every compare-and-swap and every body that runs under the manager's mutex is one atomic step. What
    createPeerConnection and SetRemoteDescription answer, when callbacks arrive, which objects report
    themselves connected, and whether init wires a signalling client is up to the environment: it is part of
    the step. The code wires none yet; the theorems hold for managers with and without one. A PeerConnection object is a
    number, the index of the log of the calls made on it. */
module PeerManager {
  import opened Wrappers
  import opened Decimal
  import opened Signaling

  type PeerId = string
  type Thread = nat

  datatype PendingRemoteCandidate = PendingRemoteCandidate(candidate: string, sdpMid: string, sdpMlineIndex: int32)

  datatype Call =
    | SetRemoteDescription(kind: string, sdp: string, accepted: bool)
    | AddRemoteCandidate(candidate: PendingRemoteCandidate)
    | CreateOffer
    | CreateAnswer
    | Close

  datatype AppState = Uninitialized | Initializing | Initialized | Running | Stopping | Stopped

  /** Where a thread stands inside init, start or stop: past a gate and before its locked body, or, for
      stop, between its two compare-and-swaps. */
  datatype Phase = InInit | InStart | InStopRetry | InStop

  datatype PcState = New | Connecting | Connected | Disconnected | Failed | Closed

  datatype State = State(
    app: AppState,
    threads: map<Thread, Phase>,
    signalingClient: bool,
    cleared: bool,
    connections: map<PeerId, Option<nat>>,
    remoteSet: map<PeerId, bool>,
    pending: map<PeerId, seq<PendingRemoteCandidate>>,
    lastHeartbeat: map<PeerId, int>,
    attempts: map<PeerId, int>,
    calls: seq<seq<Call>>,
    notified: seq<Option<nat>>)

  datatype Event =
    | CallInit(thread: Thread)
    | InitBody(thread: Thread, wired: bool)
    | CallStart(thread: Thread)
    | StartBody(thread: Thread)
    | CallStop(thread: Thread)
    | StopRetry(thread: Thread)
    | StopBody(thread: Thread)
    | ConnectToPeer(peer: PeerId, creates: bool)
    | DisconnectFromPeer(peer: PeerId)
    | Signal(message: SignalMessage, creates: bool, accepts: bool)
    | StateChange(peer: PeerId, state: PcState)
    | HeartbeatReceived(peer: PeerId, now: int, intervalMs: int)
    | HeartbeatTimer(now: int, intervalMs: int, connected: set<nat>)

  const START := State(Uninitialized, map[], false, false, map[], map[], map[], map[], map[], [], [])

  // ----- lifecycle -----

  /** A thread that is idle tries a compare-and-swap: it moves on if the state is the expected one. */
  function Gate(s: State, thread: Thread, expected: AppState, desired: AppState, phase: Phase): State {
    if s.app == expected then s.(app := desired, threads := s.threads[thread := phase]) else s
  }

  function PhaseOf(s: State, thread: Thread): Option<Phase> {
    if thread in s.threads then Some(s.threads[thread]) else None
  }

  /** The end of a call: the thread leaves init, start or stop. */
  function Return(s: State, thread: Thread, app: AppState): State {
    s.(app := app, threads := s.threads - {thread})
  }

  function Lifecycle(s: State, e: Event): State
    requires e.CallInit? || e.InitBody? || e.CallStart? || e.StartBody? || e.CallStop? || e.StopRetry? || e.StopBody?
  {
    var phase := PhaseOf(s, e.thread);
    match e
    case CallInit(t) => if phase.None? then Gate(s, t, Uninitialized, Initializing, InInit) else s
    case InitBody(t, wired) => if phase == Some(InInit) then Return(s, t, Initialized).(signalingClient := wired) else s
    case CallStart(t) => if phase.None? then Gate(s, t, Initialized, Running, InStart) else s
    case StartBody(t) => if phase == Some(InStart) then
      Return(s, t, if s.signalingClient then s.app else Stopped) else s
    case CallStop(t) => if phase.None? then FirstStop(s, t) else s
    case StopRetry(t) => if phase == Some(InStopRetry) then SecondStop(s, t) else s
    case StopBody(t) =>
      if phase == Some(InStop) then
        Return(s, t, Stopped).(cleared := true, connections := map[],
          calls := CloseAll(s.calls, Objects(s.connections)))
      else s
  }

  /** stop expects Running first, and Initialized if that fails; then it gives up. */
  function FirstStop(s: State, t: Thread): State {
    var running := s.app.Running?;
    s.(app := if running then Stopping else s.app, threads := s.threads[t := if running then InStop else InStopRetry])
  }

  function SecondStop(s: State, t: Thread): State {
    var initialized := s.app.Initialized?;
    s.(app := if initialized then Stopping else s.app,
       threads := if initialized then s.threads[t := InStop] else s.threads - {t})
  }

  /** The objects held by a connection map. */
  function Objects(connections: map<PeerId, Option<nat>>): set<nat> {
    set p | p in connections && connections[p].Some? :: connections[p].value
  }

  function CloseAll(calls: seq<seq<Call>>, objects: set<nat>): seq<seq<Call>> {
    seq(|calls|, i requires 0 <= i < |calls| => if i in objects then calls[i] + [Close] else calls[i])
  }

  // ----- peer connections -----

  function Log(calls: seq<seq<Call>>, pc: Option<nat>, more: seq<Call>): (r: seq<seq<Call>>)
    ensures |r| == |calls|
  {
    if pc.Some? && pc.value < |calls| then calls[pc.value := calls[pc.value] + more] else calls
  }

  function Connect(s: State, p: PeerId, creates: bool): State {
    if s.app != Running || p in s.connections || !creates then s
    else s.(connections := s.connections[p := Some(|s.calls|)], calls := s.calls + [[CreateOffer]])
  }

  function GetOrCreate(s: State, p: PeerId, creates: bool): State {
    if p in s.connections || !creates then s
    else
      s.(connections := s.connections[p := Some(|s.calls|)], calls := s.calls + [[]],
         remoteSet := s.remoteSet[p := false], pending := s.pending - {p})
  }

  function Stored(s: State, p: PeerId): Option<nat> {
    if p in s.connections then s.connections[p] else None
  }

  function Pending(s: State, p: PeerId): seq<PendingRemoteCandidate> {
    if p in s.pending then s.pending[p] else []
  }

  function Flag(s: State, p: PeerId): bool {
    p in s.remoteSet && s.remoteSet[p]
  }

  function Adds(cs: seq<PendingRemoteCandidate>): seq<Call> {
    seq(|cs|, i requires 0 <= i < |cs| => AddRemoteCandidate(cs[i]))
  }

  /** OFFER and ANSWER once the connection is there: set the description, flush, answer an offer. */
  function Describe(s: State, p: PeerId, kind: string, sdp: string, accepts: bool): State {
    var answer := if kind == "offer" then [CreateAnswer] else [];
    var flush := if accepts then Adds(Pending(s, p)) + answer else [];
    s.(calls := Log(s.calls, Stored(s, p), [Call.SetRemoteDescription(kind, sdp, accepts)] + flush),
       remoteSet := if accepts then s.remoteSet[p := true] else s.remoteSet,
       pending := if accepts then s.pending - {p} else s.pending)
  }

  predicate FullCandidate(m: SignalMessage) {
    m.candidate.Some? && m.sdpMid.Some? && m.sdpMlineIndex.Some?
  }

  function CandidateOf(m: SignalMessage): PendingRemoteCandidate
    requires FullCandidate(m)
  {
    PendingRemoteCandidate(m.candidate.value, m.sdpMid.value, m.sdpMlineIndex.value)
  }

  /** `remoteDescriptionSet_[p]` enters the default for a missing key. */
  function TouchFlag(remoteSet: map<PeerId, bool>, p: PeerId): map<PeerId, bool> {
    if p in remoteSet then remoteSet else remoteSet[p := false]
  }

  function Accept(s: State, p: PeerId, c: PendingRemoteCandidate): State {
    var described := Flag(s, p);
    s.(calls := if described then Log(s.calls, Stored(s, p), [AddRemoteCandidate(c)]) else s.calls,
       remoteSet := TouchFlag(s.remoteSet, p),
       pending := if described then s.pending else s.pending[p := Pending(s, p) + [c]])
  }

  /** LEAVE closes the connection and forgets its buffer; the entry stays until the state change. */
  function Leave(s: State, p: PeerId): State {
    if Stored(s, p).None? then s
    else s.(calls := Log(s.calls, Stored(s, p), [Close]), remoteSet := s.remoteSet - {p}, pending := s.pending - {p})
  }

  /** What a message does once there is a connection for its sender. */
  function Deliver(s: State, m: SignalMessage, accepts: bool): State {
    match m.kind
    case OFFER => if m.sdp.Some? then Describe(s, m.from, "offer", m.sdp.value, accepts) else s
    case ANSWER => if m.sdp.Some? then Describe(s, m.from, "answer", m.sdp.value, accepts) else s
    case CANDIDATE => if FullCandidate(m) then Accept(s, m.from, CandidateOf(m)) else s
    case _ => s
  }

  function HandleSignal(s: State, m: SignalMessage, creates: bool, accepts: bool): State {
    match m.kind
    case JOIN => s
    case UNKNOWN => s
    case LEAVE => Leave(s, m.from)
    case _ =>
      var t := GetOrCreate(s, m.from, creates);
      if Stored(t, m.from).Some? then Deliver(t, m, accepts) else t
  }

  function Destroy(s: State, p: PeerId): State {
    if p !in s.connections then s
    else
      s.(calls := Log(s.calls, s.connections[p], [Close]),
         connections := s.connections - {p}, remoteSet := s.remoteSet - {p}, pending := s.pending - {p},
         lastHeartbeat := s.lastHeartbeat - {p}, attempts := s.attempts - {p})
  }

  predicate Dead(state: PcState) {
    state == Disconnected || state == Failed || state == Closed
  }

  function ChangeState(s: State, p: PeerId, state: PcState): State {
    if p !in s.connections || !Dead(state) then s
    else Destroy(s, p).(notified := s.notified + [s.connections[p]])
  }

  /** duration_cast from steady-clock nanoseconds to milliseconds truncates towards zero. */
  function Millis(ns: int): int {
    if ns >= 0 then ns / 1_000_000 else -((-ns) / 1_000_000)
  }

  predicate IsLost(s: State, p: PeerId, now: int, intervalMs: int, connected: set<nat>) {
    && p in s.lastHeartbeat && p in s.connections && s.connections[p].Some? && s.connections[p].value in connected
    && Millis(now - s.lastHeartbeat[p]) > intervalMs * 3
  }

  function Lost(s: State, now: int, intervalMs: int, connected: set<nat>): set<PeerId> {
    set p | p in s.lastHeartbeat && IsLost(s, p, now, intervalMs, connected)
  }

  function Part(connections: map<PeerId, Option<nat>>, peers: set<PeerId>): map<PeerId, Option<nat>> {
    map p | p in connections && p in peers :: connections[p]
  }

  /** Removing a set of peers from all five maps, closing their objects. */
  function DestroyAll(s: State, peers: set<PeerId>): State {
    s.(calls := CloseAll(s.calls, Objects(Part(s.connections, peers))),
       connections := s.connections - peers, remoteSet := s.remoteSet - peers, pending := s.pending - peers,
       lastHeartbeat := s.lastHeartbeat - peers, attempts := s.attempts - peers)
  }

  function Sweep(s: State, now: int, intervalMs: int, connected: set<nat>): State {
    if intervalMs <= 0 then s else DestroyAll(s, Lost(s, now, intervalMs, connected))
  }

  function Step(s: State, e: Event): State {
    match e
    case ConnectToPeer(p, creates) => Connect(s, p, creates)
    case DisconnectFromPeer(p) => s.(calls := Log(s.calls, Stored(s, p), [Close]))
    case Signal(m, creates, accepts) => HandleSignal(s, m, creates, accepts)
    case StateChange(p, state) => ChangeState(s, p, state)
    case HeartbeatReceived(p, now, intervalMs) =>
      if intervalMs > 0 then s.(lastHeartbeat := s.lastHeartbeat[p := now]) else s
    case HeartbeatTimer(now, intervalMs, connected) => Sweep(s, now, intervalMs, connected)
    case _ => Lifecycle(s, e)
  }

  /** The state after the first `n` events. */
  function Run(es: seq<Event>, n: nat): State
    requires n <= |es|
  {
    if n == 0 then START else Step(Run(es, n - 1), es[n - 1])
  }

  ghost predicate Injective(connections: map<PeerId, Option<nat>>) {
    forall p, q | p in connections && q in connections && connections[p] == connections[q] :: p == q
  }

  /** No stored connection is null, none is stored twice, and until stop cleared the connections every
      flag and queue belongs to a stored connection. */
  ghost predicate Tidy(s: State) {
    && (forall p | p in s.connections :: s.connections[p].Some? && s.connections[p].value < |s.calls|)
    && Injective(s.connections)
    && (!s.cleared ==> s.remoteSet.Keys <= s.connections.Keys && s.pending.Keys <= s.connections.Keys)
    && (s.cleared ==> s.app == Stopped)
  }

  // ----- one more peer -----

  lemma CloseOneMore(calls: seq<seq<Call>>, objects: set<nat>, pc: Option<nat>)
    requires pc.Some? ==> pc.value !in objects
    ensures Log(CloseAll(calls, objects), pc, [Close]) ==
            CloseAll(calls, if pc.Some? then objects + {pc.value} else objects)
  {
  }

  lemma ObjectsOneMore(connections: map<PeerId, Option<nat>>, peers: set<PeerId>, p: PeerId)
    requires p in connections && p !in peers && Injective(connections)
    ensures var part := Part(connections, peers);
            var more := Part(connections, peers + {p});
            && Objects(more) == (if connections[p].Some? then Objects(part) + {connections[p].value} else Objects(part))
            && (connections[p].Some? ==> connections[p].value !in Objects(part))
  {
    var part := Part(connections, peers);
    var more := Part(connections, peers + {p});
    assert more == part[p := connections[p]];
    assert forall o :: o in Objects(more) <==>
        o in Objects(part) || (connections[p].Some? && o == connections[p].value) by {
      forall o
        ensures o in Objects(more) <==> o in Objects(part) || (connections[p].Some? && o == connections[p].value)
      {
        if o in Objects(part) {
          var q :| q in part && part[q].Some? && part[q].value == o;
          assert q in more && more[q] == part[q];
        }
        if connections[p].Some? && o == connections[p].value {
          assert p in more && more[p] == connections[p];
        }
      }
    }
  }

  lemma CloseStored(calls: seq<seq<Call>>, connections: map<PeerId, Option<nat>>, peers: set<PeerId>, p: PeerId)
    requires p in connections && p !in peers && Injective(connections)
    ensures Log(CloseAll(calls, Objects(Part(connections, peers))), connections[p], [Close])
         == CloseAll(calls, Objects(Part(connections, peers + {p})))
  {
    ObjectsOneMore(connections, peers, p);
    CloseOneMore(calls, Objects(Part(connections, peers)), connections[p]);
  }

  /** Closing no peer changes nothing; closing every peer of the map closes all its objects. */
  lemma CloseBounds(calls: seq<seq<Call>>, connections: map<PeerId, Option<nat>>)
    ensures CloseAll(calls, Objects(Part(connections, {}))) == calls
    ensures Part(connections, connections.Keys) == connections
  {
    assert Objects(Part(connections, {})) == {};
    assert CloseAll(calls, {}) == calls;
  }

  lemma LogNone(calls: seq<seq<Call>>, pc: Option<nat>)
    ensures Log(calls, pc, []) == calls
  {
    if pc.Some? && pc.value < |calls| {
      assert calls[pc.value] + [] == calls[pc.value];
    }
  }

  lemma MinusOneMore<V>(m: map<PeerId, V>, peers: set<PeerId>, p: PeerId)
    ensures (m - peers) - {p} == m - (peers + {p})
  {
  }

  lemma DestroyOneMore(s: State, peers: set<PeerId>, p: PeerId)
    requires Injective(s.connections) && p in s.connections && p !in peers
    ensures Destroy(DestroyAll(s, peers), p) == DestroyAll(s, peers + {p})
  {
    CloseStored(s.calls, s.connections, peers, p);
    MinusOneMore(s.connections, peers, p);
    MinusOneMore(s.remoteSet, peers, p);
    MinusOneMore(s.pending, peers, p);
    MinusOneMore(s.lastHeartbeat, peers, p);
    MinusOneMore(s.attempts, peers, p);
    assert p in DestroyAll(s, peers).connections && DestroyAll(s, peers).connections[p] == s.connections[p];
  }

  lemma DestroyNone(s: State)
    ensures DestroyAll(s, {}) == s
  {
    assert Objects(Part(s.connections, {})) == {};
    assert CloseAll(s.calls, {}) == s.calls;
  }

  lemma LogTwice(calls: seq<seq<Call>>, pc: Option<nat>, first: seq<Call>, more: seq<Call>)
    ensures Log(Log(calls, pc, first), pc, more) == Log(calls, pc, first + more)
  {
    if pc.Some? && pc.value < |calls| {
      assert calls[pc.value] + first + more == calls[pc.value] + (first + more);
    }
  }

  ghost function Elements(peers: seq<PeerId>): set<PeerId> {
    set p | p in peers
  }

  // ----- the code -----

  class WebrtcManager {
    var app: AppState
    var threads: map<Thread, Phase>
    var signalingClient: bool
    var peerConnections: map<PeerId, Option<nat>>
    var remoteDescriptionSet: map<PeerId, bool>
    var pendingRemoteCandidates: map<PeerId, seq<PendingRemoteCandidate>>
    var lastHeartbeatRxTime: map<PeerId, int>
    var reconnectionAttemptCount: map<PeerId, int>
    var calls: seq<seq<Call>>
    var notified: seq<Option<nat>>
    ghost var cleared: bool

    ghost function View(): State
      reads this
    {
      State(app, threads, signalingClient, cleared, peerConnections, remoteDescriptionSet, pendingRemoteCandidates,
            lastHeartbeatRxTime, reconnectionAttemptCount, calls, notified)
    }

    constructor ()
      ensures View() == START
      ensures app == Uninitialized && !signalingClient && peerConnections == map[] && remoteDescriptionSet == map[]
      ensures pendingRemoteCandidates == map[] && lastHeartbeatRxTime == map[] && reconnectionAttemptCount == map[]
      ensures calls == [] && notified == []
    {
      app, threads, signalingClient, cleared := Uninitialized, map[], false, false;
      peerConnections, remoteDescriptionSet, pendingRemoteCandidates := map[], map[], map[];
      lastHeartbeatRxTime, reconnectionAttemptCount, calls, notified := map[], map[], [], [];
    }

    /** state_.compare_exchange_strong. */
    method CompareExchange(thread: Thread, expected: AppState, desired: AppState, phase: Phase)
      returns (exchanged: bool)
      modifies this`app, this`threads
      ensures View() == Gate(old(View()), thread, expected, desired, phase) && exchanged == (old(app) == expected)
    {
      exchanged := app == expected;
      if exchanged {
        app := desired;
        threads := threads[thread := phase];
      }
    }

    method InitGate(thread: Thread) returns (entered: bool)
      requires thread !in threads
      modifies this
      ensures View() == Step(old(View()), CallInit(thread)) && entered == (old(app) == Uninitialized)
    {
      entered := CompareExchange(thread, Uninitialized, Initializing, InInit);
    }

    /** As it stands, init wires no signalling client. */
    method InitLocked(thread: Thread) returns (ok: bool)
      requires thread in threads && threads[thread] == InInit
      modifies this
      ensures ok && View() == Step(old(View()), InitBody(thread, false))
    {
      signalingClient := false;
      app := Initialized;
      threads := threads - {thread};
      return true;
    }

    method StartGate(thread: Thread) returns (entered: bool)
      requires thread !in threads
      modifies this
      ensures View() == Step(old(View()), CallStart(thread)) && entered == (old(app) == Initialized)
    {
      entered := CompareExchange(thread, Initialized, Running, InStart);
    }

    method StartLocked(thread: Thread) returns (ok: bool)
      requires thread in threads && threads[thread] == InStart
      modifies this
      ensures ok == old(signalingClient) && View() == Step(old(View()), StartBody(thread))
    {
      threads := threads - {thread};
      if !signalingClient {
        app := Stopped;
        return false;
      }
      return true;
    }

    method StopGate(thread: Thread)
      requires thread !in threads
      modifies this
      ensures View() == Step(old(View()), CallStop(thread))
    {
      var exchanged := CompareExchange(thread, Running, Stopping, InStop);
      if !exchanged {
        threads := threads[thread := InStopRetry];
      }
    }

    method StopSecondGate(thread: Thread)
      requires thread in threads && threads[thread] == InStopRetry
      modifies this
      ensures View() == Step(old(View()), StopRetry(thread))
    {
      var exchanged := CompareExchange(thread, Initialized, Stopping, InStop);
      if !exchanged {
        threads := threads - {thread};
      }
    }

    method CallOn(pc: Option<nat>, more: seq<Call>)
      modifies this`calls
      ensures calls == Log(old(calls), pc, more)
    {
      if pc.Some? && pc.value < |calls| {
        calls := calls[pc.value := calls[pc.value] + more];
      }
    }

    /** Closes every stored connection. */
    method CloseConnections()
      requires Injective(peerConnections)
      modifies this`calls
      ensures calls == CloseAll(old(calls), Objects(peerConnections))
    {
      var left, done := peerConnections.Keys, {};
      CloseBounds(calls, peerConnections);
      while left != {}
        invariant left + done == peerConnections.Keys && left !! done
        invariant calls == CloseAll(old(calls), Objects(Part(peerConnections, done)))
        decreases |left|
      {
        var p :| p in left;
        left := left - {p};
        CloseStored(old(calls), peerConnections, done, p);
        if peerConnections[p].Some? {
          CallOn(peerConnections[p], [Close]);
        }
        done := done + {p};
      }
    }

    method StopLocked(thread: Thread)
      requires thread in threads && threads[thread] == InStop && Injective(peerConnections)
      modifies this
      ensures View() == Step(old(View()), StopBody(thread))
    {
      CloseConnections();
      peerConnections := map[];
      cleared := true;
      app := Stopped;
      threads := threads - {thread};
    }

    method ConnectToPeer(p: PeerId, creates: bool) returns (ok: bool)
      modifies this
      ensures View() == Connect(old(View()), p, creates)
      ensures ok == (old(app) == Running && (p in old(peerConnections) || creates))
    {
      if app != Running {
        return false;
      }
      if p in peerConnections {
        return true;
      }
      if !creates {
        return false;
      }
      var pc := |calls|;
      calls := calls + [[]];
      peerConnections := peerConnections[p := Some(pc)];
      CallOn(peerConnections[p], [CreateOffer]);
      assert [] + [CreateOffer] == [CreateOffer];
      assert calls == (old(calls) + [[]])[pc := [CreateOffer]];
      return true;
    }

    /** Calls through the stored pointer without a check; in no run is it null. */
    method DisconnectFromPeer(p: PeerId) returns (found: bool)
      requires p in peerConnections ==> peerConnections[p].Some?
      modifies this
      ensures View() == Step(old(View()), Event.DisconnectFromPeer(p)) && found == (p in old(peerConnections))
    {
      found := p in peerConnections;
      if found {
        CallOn(peerConnections[p], [Close]);
      }
    }

    method GetOrCreatePeerConnection(p: PeerId, creates: bool) returns (pc: Option<nat>)
      modifies this
      ensures View() == GetOrCreate(old(View()), p, creates) && pc == Stored(View(), p)
    {
      if p in peerConnections {
        return peerConnections[p];
      }
      if !creates {
        return None;
      }
      pc := Some(|calls|);
      calls := calls + [[]];
      peerConnections := peerConnections[p := pc];
      remoteDescriptionSet := remoteDescriptionSet[p := false];
      pendingRemoteCandidates := pendingRemoteCandidates - {p};
    }

    /** Hands the queued candidates to the connection, in order. */
    method FlushPending(pc: nat, pending: seq<PendingRemoteCandidate>)
      modifies this`calls
      ensures calls == Log(old(calls), Some(pc), Adds(pending))
    {
      var i := 0;
      LogNone(calls, Some(pc));
      assert Adds(pending[..0]) == [];
      while i < |pending|
        invariant 0 <= i <= |pending| && calls == Log(old(calls), Some(pc), Adds(pending[..i]))
      {
        assert Adds(pending[..i + 1]) == Adds(pending[..i]) + [AddRemoteCandidate(pending[i])];
        LogTwice(old(calls), Some(pc), Adds(pending[..i]), [AddRemoteCandidate(pending[i])]);
        CallOn(Some(pc), [AddRemoteCandidate(pending[i])]);
        i := i + 1;
      }
      assert pending[..|pending|] == pending;
    }

    /** After a description was set: flags it, flushes the queue and answers an offer. */
    method FlushAndAnswer(p: PeerId, pc: nat, kind: string)
      modifies this
      ensures View() == old(View()).(
        calls := Log(old(calls), Some(pc), Adds(Pending(old(View()), p))
                  + (if kind == "offer" then [CreateAnswer] else [])),
        remoteSet := old(remoteDescriptionSet)[p := true], pending := old(pendingRemoteCandidates) - {p})
    {
      ghost var answer := if kind == "offer" then [CreateAnswer] else [];
      LogTwice(calls, Some(pc), Adds(Pending(View(), p)), answer);
      remoteDescriptionSet := remoteDescriptionSet[p := true];
      FlushQueue(p, pc);
      if kind == "offer" {
        CallOn(Some(pc), [CreateAnswer]);
      } else {
        LogNone(calls, Some(pc));
      }
    }

    /** Hands over and erases the queue of a peer, if it has one. */
    method FlushQueue(p: PeerId, pc: nat)
      modifies this`calls, this`pendingRemoteCandidates
      ensures calls == Log(old(calls), Some(pc), Adds(Pending(old(View()), p)))
      ensures pendingRemoteCandidates == old(pendingRemoteCandidates) - {p}
    {
      if p in pendingRemoteCandidates {
        FlushPending(pc, pendingRemoteCandidates[p]);
        pendingRemoteCandidates := pendingRemoteCandidates - {p};
      } else {
        LogNone(calls, Some(pc));
        assert Adds([]) == [];
      }
    }

    method SetAndFlush(p: PeerId, pc: nat, kind: string, sdp: string, accepts: bool)
      requires p in peerConnections && peerConnections[p] == Some(pc)
      modifies this
      ensures View() == Describe(old(View()), p, kind, sdp, accepts)
    {
      LogTwice(calls, Some(pc), [Call.SetRemoteDescription(kind, sdp, true)],
        Adds(Pending(View(), p)) + (if kind == "offer" then [CreateAnswer] else []));
      assert [Call.SetRemoteDescription(kind, sdp, false)] + [] == [Call.SetRemoteDescription(kind, sdp, false)];
      CallOn(Some(pc), [Call.SetRemoteDescription(kind, sdp, accepts)]);
      if accepts {
        FlushAndAnswer(p, pc, kind);
      }
    }

    method HandleSignalingMessage(message: SignalMessage, creates: bool, accepts: bool)
      modifies this
      ensures View() == HandleSignal(old(View()), message, creates, accepts)
    {
      var p := message.from;
      match message.kind
      case JOIN =>
      case LEAVE =>
        if p in peerConnections && peerConnections[p].Some? {
          CallOn(peerConnections[p], [Close]);
          remoteDescriptionSet := remoteDescriptionSet - {p};
          pendingRemoteCandidates := pendingRemoteCandidates - {p};
        }
      case OFFER =>
        var pc := GetOrCreatePeerConnection(p, creates);
        if pc.Some? && message.sdp.Some? {
          SetAndFlush(p, pc.value, "offer", message.sdp.value, accepts);
        }
      case ANSWER =>
        var pc := GetOrCreatePeerConnection(p, creates);
        if pc.Some? && message.sdp.Some? {
          SetAndFlush(p, pc.value, "answer", message.sdp.value, accepts);
        }
      case CANDIDATE =>
        var pc := GetOrCreatePeerConnection(p, creates);
        if pc.Some? && FullCandidate(message) {
          if p !in remoteDescriptionSet {
            remoteDescriptionSet := remoteDescriptionSet[p := false];
          }
          if !remoteDescriptionSet[p] {
            pendingRemoteCandidates := pendingRemoteCandidates[p :=
              (if p in pendingRemoteCandidates then pendingRemoteCandidates[p] else []) + [CandidateOf(message)]];
          } else {
            CallOn(pc, [AddRemoteCandidate(CandidateOf(message))]);
          }
        }
      case UNKNOWN =>
    }

    method DestroyPeerConnection(p: PeerId)
      modifies this
      ensures View() == Destroy(old(View()), p)
    {
      if p in peerConnections {
        if peerConnections[p].Some? {
          CallOn(peerConnections[p], [Close]);
        }
        lastHeartbeatRxTime := lastHeartbeatRxTime - {p};
        reconnectionAttemptCount := reconnectionAttemptCount - {p};
        remoteDescriptionSet := remoteDescriptionSet - {p};
        pendingRemoteCandidates := pendingRemoteCandidates - {p};
        peerConnections := peerConnections - {p};
      }
    }

    method HandlePeerConnectionStateChange(p: PeerId, state: PcState)
      modifies this
      ensures View() == ChangeState(old(View()), p, state)
    {
      if p !in peerConnections {
        return;
      }
      if state == Disconnected || state == Failed || state == Closed {
        var pc := peerConnections[p];
        DestroyPeerConnection(p);
        notified := notified + [pc];
      }
    }

    method HandleReceivedHeartbeat(p: PeerId, now: int, intervalMs: int)
      modifies this
      ensures View() == Step(old(View()), HeartbeatReceived(p, now, intervalMs))
    {
      if intervalMs > 0 {
        lastHeartbeatRxTime := lastHeartbeatRxTime[p := now];
      }
    }

    /** The peers that are tracked, present, connected and silent for more than three intervals. */
    method CollectLost(now: int, intervalMs: int, connected: set<nat>) returns (lost: seq<PeerId>)
      ensures Elements(lost) == Lost(View(), now, intervalMs, connected)
      ensures forall i, j | 0 <= i < j < |lost| :: lost[i] != lost[j]
    {
      ghost var s := View();
      lost := [];
      var left, seen := lastHeartbeatRxTime.Keys, {};
      while left != {}
        invariant left + seen == lastHeartbeatRxTime.Keys && left !! seen
        invariant forall p :: p in lost <==> p in seen && IsLost(s, p, now, intervalMs, connected)
        invariant forall i, j | 0 <= i < j < |lost| :: lost[i] != lost[j]
        decreases |left|
      {
        var p :| p in left;
        left := left - {p};
        assert p !in lost;
        if p in peerConnections && peerConnections[p].Some? && peerConnections[p].value in connected {
          if Millis(now - lastHeartbeatRxTime[p]) > intervalMs * 3 {
            lost := lost + [p];
          }
        }
        seen := seen + {p};
      }
    }

    method DestroyPeers(peers: seq<PeerId>)
      requires Injective(peerConnections) && (forall p | p in peers :: p in peerConnections)
      requires forall i, j | 0 <= i < j < |peers| :: peers[i] != peers[j]
      modifies this
      ensures View() == DestroyAll(old(View()), Elements(peers))
    {
      ghost var s := View();
      DestroyNone(s);
      var i := 0;
      assert Elements(peers[..0]) == {};
      while i < |peers|
        invariant 0 <= i <= |peers| && View() == DestroyAll(s, Elements(peers[..i]))
      {
        assert peers[..i + 1] == peers[..i] + [peers[i]];
        assert Elements(peers[..i + 1]) == Elements(peers[..i]) + {peers[i]};
        DestroyOneMore(s, Elements(peers[..i]), peers[i]);
        DestroyPeerConnection(peers[i]);
        i := i + 1;
      }
      assert peers[..|peers|] == peers;
    }

    /** Exactly the lost peers leave the five maps; a non-positive interval disables the check. */
    method CheckForHeartbeatLoss(now: int, intervalMs: int, connected: set<nat>)
      requires Injective(peerConnections)
      modifies this
      ensures View() == Sweep(old(View()), now, intervalMs, connected)
    {
      if intervalMs <= 0 {
        return;
      }
      var lost := CollectLost(now, intervalMs, connected);
      assert forall p | p in lost :: p in Elements(lost);
      DestroyPeers(lost);
    }
  }
}
