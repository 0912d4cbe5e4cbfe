/** What the manager keeps true of its five maps, and whom it tells, over every interleaving. */
module PeerBookkeeping {
  import opened Wrappers
  import opened Signaling
  import opened PeerManager
  import opened PeerLifecycle

  lemma CreateKeepsTidy(s: State, p: PeerId, creates: bool)
    requires Tidy(s)
    ensures Tidy(GetOrCreate(s, p, creates))
  {
  }

  lemma DescribeKeepsTidy(s: State, p: PeerId, kind: string, sdp: string, accepts: bool)
    requires Tidy(s) && Stored(s, p).Some?
    ensures Tidy(Describe(s, p, kind, sdp, accepts))
  {
  }

  lemma AcceptKeepsTidy(s: State, p: PeerId, c: PendingRemoteCandidate)
    requires Tidy(s) && Stored(s, p).Some?
    ensures Tidy(Accept(s, p, c))
  {
  }

  lemma LeaveKeepsTidy(s: State, p: PeerId)
    requires Tidy(s)
    ensures Tidy(Leave(s, p))
  {
  }

  lemma DeliverKeepsTidy(s: State, m: SignalMessage, accepts: bool)
    requires Tidy(s) && Stored(s, m.from).Some?
    ensures Tidy(Deliver(s, m, accepts))
  {
    match m.kind
    case OFFER => if m.sdp.Some? { DescribeKeepsTidy(s, m.from, "offer", m.sdp.value, accepts); }
    case ANSWER => if m.sdp.Some? { DescribeKeepsTidy(s, m.from, "answer", m.sdp.value, accepts); }
    case CANDIDATE => if FullCandidate(m) { AcceptKeepsTidy(s, m.from, CandidateOf(m)); }
    case _ =>
  }

  lemma SignalKeepsTidy(s: State, m: SignalMessage, creates: bool, accepts: bool)
    requires Tidy(s)
    ensures Tidy(HandleSignal(s, m, creates, accepts))
  {
    var t := GetOrCreate(s, m.from, creates);
    CreateKeepsTidy(s, m.from, creates);
    LeaveKeepsTidy(s, m.from);
    if Stored(t, m.from).Some? {
      DeliverKeepsTidy(t, m, accepts);
    }
  }

  lemma LifecycleKeepsTidy(s: State, e: Event)
    requires Tidy(s) && Orderly(s) && IsLifecycle(e)
    ensures Tidy(Lifecycle(s, e))
  {
    LifecycleKeepsOrderly(s, e);
  }

  lemma StepKeepsTidy(s: State, e: Event)
    requires Tidy(s) && Orderly(s)
    ensures Tidy(Step(s, e))
  {
    hide HandleSignal, Lifecycle;
    match e
    case ConnectToPeer(p, creates) =>
    case DisconnectFromPeer(p) =>
    case Signal(m, creates, accepts) => SignalKeepsTidy(s, m, creates, accepts);
    case StateChange(p, state) =>
    case HeartbeatReceived(p, now, intervalMs) =>
    case HeartbeatTimer(now, intervalMs, connected) =>
    case _ => LifecycleKeepsTidy(s, e);
  }

  /** In every run no stored connection is null, none is stored for two peers, and until stop clears the
      connections every flag and queue belongs to a stored connection. */
  lemma {:induction false} AlwaysTidy(es: seq<Event>, n: nat)
    requires n <= |es|
    ensures Tidy(Run(es, n))
  {
    hide Step;
    if n > 0 {
      AlwaysTidy(es, n - 1);
      AlwaysOrderly(es, n - 1);
      StepKeepsTidy(Run(es, n - 1), es[n - 1]);
    }
  }

  // ----- what the five maps say about a peer -----

  datatype Entries = Entries(
    connection: Option<Option<nat>>, described: Option<bool>, pending: Option<seq<PendingRemoteCandidate>>,
    heartbeat: Option<int>, attempts: Option<int>)

  const NOTHING := Entries(None, None, None, None, None)

  function Lookup<V>(m: map<PeerId, V>, p: PeerId): Option<V> {
    if p in m then Some(m[p]) else None
  }

  function EntriesOf(s: State, p: PeerId): Entries {
    Entries(Lookup(s.connections, p), Lookup(s.remoteSet, p), Lookup(s.pending, p),
            Lookup(s.lastHeartbeat, p), Lookup(s.attempts, p))
  }

  function LogOf(calls: seq<seq<Call>>, o: nat): seq<Call> {
    if o < |calls| then calls[o] else []
  }

  /** Destroying a stored peer removes it from all five maps and closes its connection; another peer keeps
      its entries, another connection its log. */
  lemma DestroyRemovesFromAll(s: State, p: PeerId, q: PeerId, o: nat)
    requires Tidy(s) && p in s.connections
    ensures var t := Destroy(s, p);
            && EntriesOf(t, q) == (if q == p then NOTHING else EntriesOf(s, q))
            && LogOf(t.calls, o) == LogOf(s.calls, o) + (if s.connections[p] == Some(o) then [Close] else [])
  {
    assert LogOf(s.calls, o) + [] == LogOf(s.calls, o);
  }

  /** In milliseconds, and rounded towards zero, a silence exceeds `k` exactly from `k + 1` on. */
  lemma SilenceExactly(ns: int, k: nat)
    ensures Millis(ns) > k <==> ns >= (k + 1) * 1_000_000
  {
  }

  predicate Silent(s: State, p: PeerId, now: int, intervalMs: int, connected: set<nat>) {
    && intervalMs > 0 && EntriesOf(s, p).heartbeat.Some?
    && Stored(s, p).Some? && Stored(s, p).value in connected
    && now - s.lastHeartbeat[p] >= (3 * intervalMs + 1) * 1_000_000
  }

  lemma LostIsSilent(s: State, p: PeerId, now: int, intervalMs: int, connected: set<nat>)
    ensures intervalMs > 0 && p in Lost(s, now, intervalMs, connected) <==> Silent(s, p, now, intervalMs, connected)
  {
    if intervalMs > 0 && p in s.lastHeartbeat {
      SilenceExactly(now - s.lastHeartbeat[p], intervalMs * 3);
    }
  }

  lemma ClosedLog(calls: seq<seq<Call>>, objects: set<nat>, o: nat)
    ensures LogOf(CloseAll(calls, objects), o) ==
            LogOf(calls, o) + (if o < |calls| && o in objects then [Close] else [])
  {
  }

  lemma SweptObjects(connections: map<PeerId, Option<nat>>, peers: set<PeerId>, q: PeerId, o: nat)
    requires q in connections && connections[q] == Some(o) && Injective(connections)
    ensures o in Objects(Part(connections, peers)) <==> q in peers
  {
    var part := Part(connections, peers);
    if q in peers {
      assert q in part && part[q] == Some(o);
    }
    if o in Objects(part) {
      var p :| p in part && part[p].Some? && part[p].value == o;
      assert connections[p] == connections[q];
    }
  }

  /** One peer across a heartbeat check: out of all five maps and closed, or left alone. */
  predicate Swept(s: State, t: State, q: PeerId, silent: bool) {
    && EntriesOf(t, q) == (if silent then NOTHING else EntriesOf(s, q))
    && (Stored(s, q).Some? ==>
          LogOf(t.calls, Stored(s, q).value) == LogOf(s.calls, Stored(s, q).value) + (if silent then [Close] else []))
  }

  lemma SweepExactly(s: State, now: int, intervalMs: int, connected: set<nat>, q: PeerId)
    requires Tidy(s)
    ensures Swept(s, Sweep(s, now, intervalMs, connected), q, Silent(s, q, now, intervalMs, connected))
  {
    LostIsSilent(s, q, now, intervalMs, connected);
    var lost := Lost(s, now, intervalMs, connected);
    if Stored(s, q).Some? {
      var o := Stored(s, q).value;
      SweptObjects(s.connections, lost, q, o);
      ClosedLog(s.calls, Objects(Part(s.connections, lost)), o);
      assert LogOf(s.calls, o) + [] == LogOf(s.calls, o);
    }
  }

  /** The heartbeat check takes exactly the peers that are tracked, present, connected and silent for more
      than three intervals out of all five maps and closes them; every other peer keeps its entries and
      its connection. A non-positive interval changes nothing. */
  lemma SweepRemovesExactly(es: seq<Event>, n: nat, now: int, intervalMs: int, connected: set<nat>, q: PeerId)
    requires n <= |es|
    ensures Swept(Run(es, n), Sweep(Run(es, n), now, intervalMs, connected), q,
                  Silent(Run(es, n), q, now, intervalMs, connected))
    ensures intervalMs <= 0 ==> Sweep(Run(es, n), now, intervalMs, connected) == Run(es, n)
  {
    AlwaysTidy(es, n);
    SweepExactly(Run(es, n), now, intervalMs, connected, q);
  }

  // ----- one peer at a time -----

  /** Nothing the manager remembers about `q` changed, nor did anybody call its connection. */
  predicate Untouched(s: State, t: State, q: PeerId) {
    && EntriesOf(t, q) == EntriesOf(s, q)
    && (Stored(s, q).Some? ==> LogOf(t.calls, Stored(s, q).value) == LogOf(s.calls, Stored(s, q).value))
  }

  function PeerOf(e: Event): PeerId
    requires e.ConnectToPeer? || e.DisconnectFromPeer? || e.Signal? || e.StateChange? || e.HeartbeatReceived?
  {
    if e.Signal? then e.message.from else e.peer
  }

  lemma LeaveElsewhere(s: State, p: PeerId, q: PeerId)
    requires Tidy(s) && p != q
    ensures Untouched(s, Leave(s, p), q)
  {
  }

  lemma DeliverElsewhere(s: State, m: SignalMessage, accepts: bool, q: PeerId)
    requires Tidy(s) && m.from != q
    ensures Untouched(s, Deliver(s, m, accepts), q)
  {
    match m.kind
    case OFFER => if m.sdp.Some? { DescribeElsewhere(s, m.from, "offer", m.sdp.value, accepts, q); }
    case ANSWER => if m.sdp.Some? { DescribeElsewhere(s, m.from, "answer", m.sdp.value, accepts, q); }
    case CANDIDATE => if FullCandidate(m) { AcceptElsewhere(s, m.from, CandidateOf(m), q); }
    case _ =>
  }

  lemma SignalElsewhere(s: State, m: SignalMessage, creates: bool, accepts: bool, q: PeerId)
    requires Tidy(s) && m.from != q
    ensures Untouched(s, HandleSignal(s, m, creates, accepts), q)
  {
    var t := GetOrCreate(s, m.from, creates);
    CreateKeepsTidy(s, m.from, creates);
    DeliverElsewhere(t, m, accepts, q);
    LeaveElsewhere(s, m.from, q);
  }

  lemma DescribeElsewhere(s: State, p: PeerId, kind: string, sdp: string, accepts: bool, q: PeerId)
    requires Tidy(s) && p != q
    ensures Untouched(s, Describe(s, p, kind, sdp, accepts), q)
  {
  }

  lemma AcceptElsewhere(s: State, p: PeerId, c: PendingRemoteCandidate, q: PeerId)
    requires Tidy(s) && p != q
    ensures Untouched(s, Accept(s, p, c), q)
  {
  }

  lemma ChangeElsewhere(s: State, p: PeerId, state: PcState, q: PeerId)
    requires Tidy(s) && p != q
    ensures Untouched(s, ChangeState(s, p, state), q)
  {
  }

  /** Whatever happens to one peer leaves the entries and the connection of every other peer alone. */
  lemma PeersAreIsolated(es: seq<Event>, n: nat, q: PeerId)
    requires n < |es| && !IsLifecycle(es[n]) && !es[n].HeartbeatTimer? && PeerOf(es[n]) != q
    ensures Untouched(Run(es, n), Run(es, n + 1), q)
  {
    AlwaysTidy(es, n);
    StepElsewhere(Run(es, n), es[n], q);
  }

  lemma StepElsewhere(s: State, e: Event, q: PeerId)
    requires Tidy(s) && !IsLifecycle(e) && !e.HeartbeatTimer? && PeerOf(e) != q
    ensures Untouched(s, Step(s, e), q)
  {
    hide HandleSignal, ChangeState, Sweep, Lifecycle;
    match e
    case ConnectToPeer(p, creates) =>
    case DisconnectFromPeer(p) =>
    case Signal(m, creates, accepts) => SignalElsewhere(s, m, creates, accepts, q);
    case StateChange(p, state) => ChangeElsewhere(s, p, state, q);
    case HeartbeatReceived(p, now, intervalMs) =>
  }

  /** Of init, start and stop, only the locked body of stop touches a peer, and that removes it. */
  lemma LifecycleUntouched(s: State, e: Event, q: PeerId)
    requires IsLifecycle(e)
    ensures Untouched(s, Lifecycle(s, e), q) || (e.StopBody? && Stored(Lifecycle(s, e), q) == None)
  {
    match e
    case CallInit(_) =>
    case InitBody(_, _) =>
    case CallStart(_) =>
    case StartBody(_) =>
    case CallStop(_) =>
    case StopRetry(_) =>
    case StopBody(_) =>
  }

  // ----- disconnected notifications -----

  /** A step stores no connection but those already stored and the one it creates. */
  ghost predicate OnlyFresh(s: State, t: State) {
    && |s.calls| <= |t.calls|
    && (forall p | p in t.connections :: (p in s.connections && t.connections[p] == s.connections[p])
                                      || (t.connections[p] == Some(|s.calls|) && |s.calls| < |t.calls|))
  }

  predicate StoresNothing(s: State, t: State) {
    t.connections == s.connections && |t.calls| == |s.calls| && t.notified == s.notified
  }

  lemma DescribeStoresNothing(s: State, p: PeerId, kind: string, sdp: string, accepts: bool)
    ensures StoresNothing(s, Describe(s, p, kind, sdp, accepts))
  {
  }

  lemma AcceptStoresNothing(s: State, p: PeerId, c: PendingRemoteCandidate)
    ensures StoresNothing(s, Accept(s, p, c))
  {
  }

  lemma LeaveStoresNothing(s: State, p: PeerId)
    ensures StoresNothing(s, Leave(s, p))
  {
  }

  lemma DeliverStoresNothing(s: State, m: SignalMessage, accepts: bool)
    ensures StoresNothing(s, Deliver(s, m, accepts))
  {
    match m.kind
    case OFFER => if m.sdp.Some? { DescribeStoresNothing(s, m.from, "offer", m.sdp.value, accepts); }
    case ANSWER => if m.sdp.Some? { DescribeStoresNothing(s, m.from, "answer", m.sdp.value, accepts); }
    case CANDIDATE => if FullCandidate(m) { AcceptStoresNothing(s, m.from, CandidateOf(m)); }
    case _ =>
  }

  lemma CreateStoresOnlyFresh(s: State, p: PeerId, creates: bool)
    ensures var t := GetOrCreate(s, p, creates);
            OnlyFresh(s, t) && t.notified == s.notified
  {
  }

  lemma OnlyFreshThen(s: State, t: State, u: State)
    requires OnlyFresh(s, t) && StoresNothing(t, u)
    ensures OnlyFresh(s, u) && u.notified == t.notified
  {
  }

  lemma SignalStoresOnlyFresh(s: State, m: SignalMessage, creates: bool, accepts: bool)
    ensures var t := HandleSignal(s, m, creates, accepts);
            OnlyFresh(s, t) && t.notified == s.notified
  {
    var t := GetOrCreate(s, m.from, creates);
    CreateStoresOnlyFresh(s, m.from, creates);
    DeliverStoresNothing(t, m, accepts);
    OnlyFreshThen(s, t, Deliver(t, m, accepts));
    LeaveStoresNothing(s, m.from);
    OnlyFreshThen(s, s, Leave(s, m.from));
  }

  lemma RemovedStoresNothing(s: State, t: State, peers: set<PeerId>)
    requires t.connections == s.connections - peers && |t.calls| == |s.calls|
    ensures OnlyFresh(s, t)
  {
  }

  lemma DestroyStoresNothing(s: State, p: PeerId)
    requires p in s.connections
    ensures var t := Destroy(s, p);
            t.connections == s.connections - {p} && |t.calls| == |s.calls| && t.notified == s.notified
  {
  }

  lemma ChangeStoresNothing(s: State, p: PeerId, state: PcState)
    ensures var t := ChangeState(s, p, state);
            && OnlyFresh(s, t)
            && (if p in s.connections && Dead(state)
                then t.notified == s.notified + [s.connections[p]] && t.connections == s.connections - {p}
                else t == s)
  {
    if p in s.connections && Dead(state) {
      DestroyStoresNothing(s, p);
      RemovedStoresNothing(s, ChangeState(s, p, state), {p});
    }
  }

  lemma ConnectStoresOnlyFresh(s: State, p: PeerId, creates: bool)
    ensures OnlyFresh(s, Connect(s, p, creates)) && Connect(s, p, creates).notified == s.notified
  {
  }

  lemma SweepStoresNothing(s: State, now: int, intervalMs: int, connected: set<nat>)
    ensures var t := Sweep(s, now, intervalMs, connected);
            OnlyFresh(s, t) && t.notified == s.notified
  {
  }

  lemma LifecycleStoresNothing(s: State, e: Event)
    requires IsLifecycle(e)
    ensures var t := Lifecycle(s, e);
            && |t.calls| == |s.calls| && t.notified == s.notified
            && (t.connections == s.connections || t.connections == map[])
  {
  }

  /** The step reports a stored connection as disconnected: its state became disconnected, failed or closed. */
  predicate Reports(s: State, e: Event) {
    e.StateChange? && e.peer in s.connections && Dead(e.state)
  }

  predicate Accounts(s: State, e: Event, t: State) {
    if Reports(s, e) then t.notified == s.notified + [s.connections[e.peer]]
        && t.connections == s.connections - {e.peer}
    else t.notified == s.notified
  }

  lemma QuietStep(s: State, e: Event)
    requires !e.StateChange?
    ensures OnlyFresh(s, Step(s, e)) && Step(s, e).notified == s.notified
  {
    match e
    case ConnectToPeer(p, creates) => ConnectStoresOnlyFresh(s, p, creates);
    case DisconnectFromPeer(p) => OnlyFreshThen(s, s, Step(s, e));
    case Signal(m, creates, accepts) => SignalStoresOnlyFresh(s, m, creates, accepts);
    case HeartbeatReceived(p, now, intervalMs) => OnlyFreshThen(s, s, Step(s, e));
    case HeartbeatTimer(now, intervalMs, connected) => SweepStoresNothing(s, now, intervalMs, connected);
    case _ => LifecycleStoresNothing(s, e);
  }

  /** A connection is reported exactly when a state change takes it out of the connection map; nothing
      else, the heartbeat check included, reports any. */
  lemma StepReports(s: State, e: Event)
    ensures OnlyFresh(s, Step(s, e)) && Accounts(s, e, Step(s, e))
  {
    if e.StateChange? {
      ChangeStoresNothing(s, e.peer, e.state);
    } else {
      QuietStep(s, e);
    }
  }

  /** Every reported connection was created, is stored no more, and was reported once. */
  ghost predicate ReportedOnce(notified: seq<Option<nat>>, connections: map<PeerId, Option<nat>>, created: nat) {
    && (forall i | 0 <= i < |notified| :: notified[i].Some? && notified[i].value < created)
    && (forall i, p | 0 <= i < |notified| && p in connections :: connections[p] != notified[i])
    && (forall i, j | 0 <= i < j < |notified| :: notified[i] != notified[j])
  }

  lemma ReportedOnceStep(s: State, t: State)
    requires ReportedOnce(s.notified, s.connections, |s.calls|) && OnlyFresh(s, t) && t.notified == s.notified
    ensures ReportedOnce(t.notified, t.connections, |t.calls|)
  {
  }

  lemma ReportedOnceMore(s: State, t: State, p: PeerId)
    requires ReportedOnce(s.notified, s.connections, |s.calls|) && Tidy(s) && p in s.connections && OnlyFresh(s, t)
    requires t.notified == s.notified + [s.connections[p]] && t.connections == s.connections - {p}
    ensures ReportedOnce(t.notified, t.connections, |t.calls|)
  {
  }

  lemma StepReportsOnce(s: State, e: Event)
    requires Tidy(s) && ReportedOnce(s.notified, s.connections, |s.calls|)
    ensures ReportedOnce(Step(s, e).notified, Step(s, e).connections, |Step(s, e).calls|)
  {
    var t := Step(s, e);
    StepReports(s, e);
    if Reports(s, e) {
      ReportedOnceMore(s, t, e.peer);
    } else {
      ReportedOnceStep(s, t);
    }
  }

  /** In any order of callbacks each connection is reported as disconnected at most once. */
  lemma {:induction false} EachDisconnectOnce(es: seq<Event>, n: nat)
    requires n <= |es|
    ensures ReportedOnce(Run(es, n).notified, Run(es, n).connections, |Run(es, n).calls|)
  {
    hide Step;
    if n > 0 {
      EachDisconnectOnce(es, n - 1);
      AlwaysTidy(es, n - 1);
      StepReportsOnce(Run(es, n - 1), es[n - 1]);
    }
  }
}
