/** What each event must do to the manager, spelled out on the maps and logs of every reachable state. */
module PeerEffects {
  import opened Wrappers
  import opened Signaling
  import opened PeerManager
  import opened PeerLifecycle
  import opened PeerBookkeeping
  import opened PeerClosing
  import opened PeerProvenance

  // ----- creation and removal -----

  /** The event creates a connection for the peer. */
  predicate Creates(s: State, e: Event, p: PeerId) {
    && p !in s.connections
    && (|| (e.ConnectToPeer? && e.peer == p && e.creates && s.app == Running)
        || (e.Signal? && e.message.from == p && e.creates
            && (e.message.kind == OFFER || e.message.kind == ANSWER || e.message.kind == CANDIDATE)))
  }

  /** The event takes the peer's connection away. */
  predicate Removes(s: State, e: Event, p: PeerId) {
    && p in s.connections
    && (|| (e.StateChange? && e.peer == p
            && (e.state == Disconnected || e.state == Failed || e.state == PcState.Closed))
        || (e.HeartbeatTimer? && Silent(s, p, e.now, e.intervalMs, e.connected))
        || (e.StopBody? && At(s, e.thread, InStop)))
  }

  /** What becomes of the peer's connection. */
  predicate ConnectionNext(s: State, e: Event, t: State, p: PeerId) {
    if Creates(s, e, p) then Stored(t, p) == Some(|s.calls|) && |t.calls| == |s.calls| + 1
    else if Removes(s, e, p) then p !in t.connections
    else Lookup(t.connections, p) == Lookup(s.connections, p)
  }

  lemma DeliverKeepsConnections(s: State, m: SignalMessage, accepts: bool)
    ensures Deliver(s, m, accepts).connections == s.connections && |Deliver(s, m, accepts).calls| == |s.calls|
  {
    DeliverStoresNothing(s, m, accepts);
  }

  lemma SignalConnects(s: State, e: Event, p: PeerId)
    requires e.Signal? && Tidy(s)
    ensures ConnectionNext(s, e, Step(s, e), p)
  {
    hide Step, Deliver, Tidy;
    var m, q := e.message, e.message.from;
    MessageDoes(s, e);
    LeaveStoresNothing(s, q);
    DeliverKeepsConnections(s, m, e.accepts);
    DeliverKeepsConnections(GetOrCreate(s, q, true), m, e.accepts);
  }

  lemma LifecycleConnects(s: State, e: Event, p: PeerId)
    requires IsLifecycle(e)
    ensures ConnectionNext(s, e, Lifecycle(s, e), p)
  {
    match e
    case CallInit(_) =>
    case InitBody(_, _) =>
    case CallStart(_) =>
    case StartBody(_) =>
    case CallStop(_) =>
    case StopRetry(_) =>
    case StopBody(u) => assert At(s, u, InStop) <==> PhaseOf(s, u) == Some(InStop);
  }

  lemma SweepConnects(s: State, e: Event, p: PeerId)
    requires e.HeartbeatTimer? && Tidy(s)
    ensures ConnectionNext(s, e, Step(s, e), p)
  {
    hide Sweep, Silent;
    SweepExactly(s, e.now, e.intervalMs, e.connected, p);
    assert Step(s, e) == Sweep(s, e.now, e.intervalMs, e.connected);
    assert EntriesOf(Step(s, e), p).connection == Lookup(Step(s, e).connections, p);
    assert EntriesOf(s, p).connection == Lookup(s.connections, p);
  }

  lemma ConnectConnects(s: State, e: Event, p: PeerId)
    requires e.ConnectToPeer?
    ensures ConnectionNext(s, e, Connect(s, e.peer, e.creates), p)
  {
  }

  lemma ChangeConnects(s: State, e: Event, p: PeerId)
    requires e.StateChange?
    ensures ConnectionNext(s, e, ChangeState(s, e.peer, e.state), p)
  {
    hide Log;
    if e.peer in s.connections && Dead(e.state) {
      DestroyStoresNothing(s, e.peer);
    }
  }

  lemma StepConnects(s: State, e: Event, p: PeerId)
    requires Tidy(s)
    ensures ConnectionNext(s, e, Step(s, e), p)
  {
    hide HandleSignal, Lifecycle, Sweep, Connect, ChangeState, Log, Tidy;
    match e
    case ConnectToPeer(_, _) => ConnectConnects(s, e, p);
    case DisconnectFromPeer(_) =>
    case Signal(_, _, _) => SignalConnects(s, e, p);
    case StateChange(_, _) => ChangeConnects(s, e, p);
    case HeartbeatReceived(_, _, _) =>
    case HeartbeatTimer(_, _, _) => SweepConnects(s, e, p);
    case _ => LifecycleConnects(s, e, p);
  }

  /** In every run a connection is stored for a peer exactly by connectToPeer on a running manager or an
      offer, answer or candidate, complete or not, if there is none and one can be created; it is taken away
      exactly by a disconnected, failed or closed state, by a heartbeat check that finds the peer silent, or by
      the locked body of stop; no other event changes it. */
  lemma ConnectionsExactlyWhen(es: seq<Event>, n: nat, p: PeerId)
    requires n < |es|
    ensures ConnectionNext(Run(es, n), es[n], Run(es, n + 1), p)
  {
    hide Step;
    AlwaysTidy(es, n);
    StepConnects(Run(es, n), es[n], p);
  }

  // ----- messages -----

  /** The log of the sender's connection before the message; a new one is empty. */
  function LogBefore(s: State, p: PeerId): seq<Call> {
    if Stored(s, p).Some? then LogOf(s.calls, Stored(s, p).value) else []
  }

  function QueueBefore(s: State, p: PeerId): seq<PendingRemoteCandidate> {
    if Stored(s, p).Some? then Pending(s, p) else []
  }

  /** The sender has a connection, or gets one. */
  predicate Reaches(s: State, e: Event) {
    e.Signal? && (Stored(s, e.message.from).Some? || (e.message.from !in s.connections && e.creates))
  }

  predicate DescriptionSet(s: State, e: Event, t: State, kind: string, answer: seq<Call>)
    requires e.Signal? && e.message.sdp.Some?
  {
    var p := e.message.from;
    && Stored(t, p).Some?
    && LogOf(t.calls, Stored(t, p).value) ==
       LogBefore(s, p) + ([Call.SetRemoteDescription(kind, e.message.sdp.value, e.accepts)]
                          + (if e.accepts then Adds(QueueBefore(s, p)) + answer else []))
    && (e.accepts ==> Lookup(t.remoteSet, p) == Some(true) && p !in t.pending)
    && (!e.accepts ==> Pending(t, p) == QueueBefore(s, p))
    && (!e.accepts ==> Lookup(t.remoteSet, p) == if Stored(s, p).Some? then Lookup(s.remoteSet, p) else Some(false))
  }

  lemma DescribeSets(s: State, p: PeerId, kind: string, sdp: string, accepts: bool)
    requires Tidy(s) && Stored(s, p).Some?
    ensures var t := Describe(s, p, kind, sdp, accepts);
            var answer := if kind == "offer" then [CreateAnswer] else [];
            && Stored(t, p) == Stored(s, p)
            && LogOf(t.calls, Stored(t, p).value) ==
               LogOf(s.calls, Stored(s, p).value) + ([Call.SetRemoteDescription(kind, sdp, accepts)]
                                                     + (if accepts then Adds(Pending(s, p)) + answer else []))
            && (accepts ==> Lookup(t.remoteSet, p) == Some(true) && p !in t.pending)
            && (!accepts ==> Pending(t, p) == Pending(s, p) && t.remoteSet == s.remoteSet)
  {
    hide LogOf, Adds, Tidy;
    var answer := if kind == "offer" then [CreateAnswer] else [];
    var flush := if accepts then Adds(Pending(s, p)) + answer else [];
    OwnLogGrows(s, p, [Call.SetRemoteDescription(kind, sdp, accepts)] + flush);
  }

  lemma NewIsEmpty(s: State, p: PeerId)
    requires p !in s.connections
    ensures var u := GetOrCreate(s, p, true);
            && Stored(u, p) == Some(|s.calls|) && LogOf(u.calls, |s.calls|) == []
            && Lookup(u.remoteSet, p) == Some(false) && p !in u.pending
  {
  }

  lemma StepDescribes(s: State, e: Event)
    requires Tidy(s) && Reaches(s, e) && e.message.sdp.Some?
    ensures e.message.kind == OFFER ==> DescriptionSet(s, e, Step(s, e), "offer", [CreateAnswer])
    ensures e.message.kind == ANSWER ==> DescriptionSet(s, e, Step(s, e), "answer", [])
  {
    hide Step, Describe, Accept, LogOf, Adds, Tidy, GetOrCreate;
    var m, p := e.message, e.message.from;
    var kind := if m.kind == OFFER then "offer" else "answer";
    assert "offer" != "answer";
    MessageDoes(s, e);
    if Stored(s, p).Some? {
      DescribeSets(s, p, kind, m.sdp.value, e.accepts);
    } else {
      NewIsEmpty(s, p);
      CreateKeepsTidy(s, p, true);
      DescribeSets(GetOrCreate(s, p, true), p, kind, m.sdp.value, e.accepts);
    }
  }

  /** In every run an OFFER is set as "offer" and an ANSWER as "answer", with the description it carries, on the
      connection of its sender; if it is accepted the queue is handed over in order, the flag is raised, and an
      offer, and only an offer, is answered last; if it is refused the queue stays. */
  lemma DescriptionsAreSet(es: seq<Event>, n: nat)
    requires n < |es| && Reaches(Run(es, n), es[n]) && es[n].message.sdp.Some?
    ensures es[n].message.kind == OFFER ==> DescriptionSet(Run(es, n), es[n], Run(es, n + 1), "offer", [CreateAnswer])
    ensures es[n].message.kind == ANSWER ==> DescriptionSet(Run(es, n), es[n], Run(es, n + 1), "answer", [])
  {
    hide Step, DescriptionSet;
    AlwaysTidy(es, n);
    StepDescribes(Run(es, n), es[n]);
  }

  /** The candidate is queued last, or handed over at once if a description is flagged as set. */
  predicate CandidateTaken(s: State, e: Event, t: State, c: PendingRemoteCandidate)
    requires e.Signal?
  {
    var p := e.message.from;
    var flagged := Stored(s, p).Some? && Flag(s, p);
    && Stored(t, p).Some?
    && LogOf(t.calls, Stored(t, p).value) == LogBefore(s, p) + (if flagged then [AddRemoteCandidate(c)] else [])
    && Pending(t, p) == QueueBefore(s, p) + (if flagged then [] else [c])
    && Lookup(t.remoteSet, p) == Some(flagged)
  }

  lemma AcceptTakes(s: State, p: PeerId, c: PendingRemoteCandidate)
    requires Tidy(s) && Stored(s, p).Some?
    ensures var t := Accept(s, p, c);
            && Stored(t, p) == Stored(s, p)
            && LogOf(t.calls, Stored(t, p).value) ==
               LogOf(s.calls, Stored(s, p).value) + (if Flag(s, p) then [AddRemoteCandidate(c)] else [])
            && Pending(t, p) == Pending(s, p) + (if Flag(s, p) then [] else [c])
            && Lookup(t.remoteSet, p) == Some(Flag(s, p))
  {
    hide LogOf, Tidy;
    OwnLogGrows(s, p, [AddRemoteCandidate(c)]);
    assert LogOf(s.calls, Stored(s, p).value) + [] == LogOf(s.calls, Stored(s, p).value);
    assert Pending(s, p) + [] == Pending(s, p);
  }

  lemma StepTakes(s: State, e: Event, c: PendingRemoteCandidate)
    requires Tidy(s) && Reaches(s, e) && Carries(e, c)
    ensures CandidateTaken(s, e, Step(s, e), c)
  {
    hide Step, Describe, Accept, LogOf, Tidy, GetOrCreate;
    var m, p := e.message, e.message.from;
    assert FullCandidate(m);
    CandidateFieldsAre(m);
    MessageDoes(s, e);
    if Stored(s, p).Some? {
      AcceptTakes(s, p, c);
    } else {
      NewIsEmpty(s, p);
      CreateKeepsTidy(s, p, true);
      AcceptTakes(GetOrCreate(s, p, true), p, c);
    }
  }

  /** In every run a complete CANDIDATE is taken, field by field: queued, or handed over if a description is
      flagged as set. */
  lemma CandidatesAreTaken(es: seq<Event>, n: nat, c: PendingRemoteCandidate)
    requires n < |es| && Reaches(Run(es, n), es[n]) && Carries(es[n], c)
    ensures CandidateTaken(Run(es, n), es[n], Run(es, n + 1), c)
  {
    hide Step, CandidateTaken;
    AlwaysTidy(es, n);
    StepTakes(Run(es, n), es[n], c);
  }

  /** The message carries nothing the manager can use. */
  predicate Useless(m: SignalMessage) {
    || m.kind == JOIN || m.kind == UNKNOWN
    || ((m.kind == OFFER || m.kind == ANSWER) && m.sdp.None?)
    || (m.kind == CANDIDATE && (m.candidate.None? || m.sdpMid.None? || m.sdpMlineIndex.None?))
  }

  /** JOIN and UNKNOWN do nothing at all; an incomplete offer, answer or candidate does nothing but create a
      missing connection, and no call is made on it. */
  lemma UselessDoesNothing(s: State, e: Event)
    requires e.Signal? && Useless(e.message)
    ensures var m, p, t := e.message, e.message.from, Step(s, e);
            if m.kind == JOIN || m.kind == UNKNOWN || p in s.connections || !e.creates then t == s
            else t.calls == s.calls + [[]] && Stored(t, p) == Some(|s.calls|)
                 && Lookup(t.remoteSet, p) == Some(false) && p !in t.pending
  {
    hide Step, Deliver;
    MessageDoes(s, e);
    UselessIsNotDelivered(s, e.message, e.accepts);
    UselessIsNotDelivered(GetOrCreate(s, e.message.from, true), e.message, e.accepts);
  }

  lemma UselessIsNotDelivered(s: State, m: SignalMessage, accepts: bool)
    requires Useless(m)
    ensures m.kind != LEAVE && Deliver(s, m, accepts) == s
  {
    hide Describe, Accept;
  }

  /** LEAVE closes a stored connection, keeps it stored, and forgets its flag and queue. */
  lemma LeaveForgets(s: State, e: Event)
    requires Tidy(s) && e.Signal? && e.message.kind == LEAVE
    ensures var p, t := e.message.from, Step(s, e);
            if Stored(s, p).None? then t == s
            else
              && EntriesOf(t, p) == EntriesOf(s, p).(described := None, pending := None)
              && LogOf(t.calls, Stored(s, p).value) == LogOf(s.calls, Stored(s, p).value) + [Close]
  {
    MessageDoes(s, e);
    if Stored(s, e.message.from).Some? {
      LeaveTreats(s, e.message.from);
    }
  }

  /** connectToPeer on a running manager stores a missing connection, asks it for an offer and touches nothing
      else. */
  lemma ConnectOffers(s: State, e: Event)
    requires e.ConnectToPeer?
    ensures var p, t := e.peer, Step(s, e);
            if s.app == Running && p !in s.connections && e.creates then
              && EntriesOf(t, p) == EntriesOf(s, p).(connection := Some(Some(|s.calls|)))
              && t.calls == s.calls + [[CreateOffer]]
            else t == s
  {
  }

  /** disconnectFromPeer closes the stored connection and touches nothing else. */
  lemma DisconnectCloses(s: State, e: Event)
    requires Tidy(s) && e.DisconnectFromPeer?
    ensures var p, t := e.peer, Step(s, e);
            if Stored(s, p).None? then t == s
            else EntriesOf(t, p) == EntriesOf(s, p)
                 && LogOf(t.calls, Stored(s, p).value) == LogOf(s.calls, Stored(s, p).value) + [Close]
  {
    if Stored(s, e.peer).Some? {
      OwnLogGrows(s, e.peer, [Close]);
    }
  }

  predicate SameBuffers(s: State, t: State) {
    t.remoteSet == s.remoteSet && t.pending == s.pending && t.notified == s.notified
  }

  lemma LifecycleKeepsBuffers(s: State, e: Event)
    requires IsLifecycle(e)
    ensures SameBuffers(s, Lifecycle(s, e))
  {
    match e
    case CallInit(_) =>
    case InitBody(_, _) =>
    case CallStart(_) =>
    case StartBody(_) =>
    case CallStop(_) =>
    case StopRetry(_) =>
    case StopBody(_) =>
  }

  predicate SameConnections(s: State, t: State) {
    t.connections == s.connections && t.calls == s.calls
  }

  lemma OnlyStopClears(s: State, e: Event)
    requires IsLifecycle(e) && !(e.StopBody? && At(s, e.thread, InStop))
    ensures SameConnections(s, Lifecycle(s, e))
  {
    match e
    case CallInit(_) =>
    case InitBody(_, _) =>
    case CallStart(_) =>
    case StartBody(_) =>
    case CallStop(_) =>
    case StopRetry(_) =>
    case StopBody(_) => assert Lifecycle(s, e) == s;
  }

  /** init, start and stop leave four of the five maps alone; the locked body of stop clears the fifth and
      closes every connection in it. */
  lemma LifecycleTouches(s: State, e: Event, o: nat)
    requires IsLifecycle(e) && o < |s.calls|
    ensures var t := Lifecycle(s, e);
            && SameBuffers(s, t) && SameTracking(s, t)
            && (if e.StopBody? && At(s, e.thread, InStop) then
                  && t.connections == map[]
                  && LogOf(t.calls, o) == LogOf(s.calls, o) + (if IsStored(s, o) then [Close] else [])
                else SameConnections(s, t))
  {
    hide SameBuffers, SameTracking, CloseAll, Objects;
    LifecycleKeepsBuffers(s, e);
    LifecycleBeats(s, e);
    if e.StopBody? && At(s, e.thread, InStop) {
      ClosedLog(s.calls, Objects(s.connections), o);
    } else {
      OnlyStopClears(s, e);
    }
  }

  // ----- heartbeats -----

  /** The event records a heartbeat of the peer at this time. */
  predicate Beats(e: Event, p: PeerId, now: int) {
    e.HeartbeatReceived? && e.peer == p && e.intervalMs > 0 && e.now == now
  }

  /** The event records a heartbeat of the peer, or destroys its connection; stop destroys none. */
  predicate Tracks(s: State, e: Event, p: PeerId) {
    || (e.HeartbeatReceived? && e.peer == p && e.intervalMs > 0)
    || (Removes(s, e, p) && !e.StopBody?)
  }

  lemma StepBeats(s: State, e: Event, p: PeerId)
    requires Tidy(s)
    ensures EntriesOf(Step(s, e), p).heartbeat ==
            if e.HeartbeatReceived? && e.peer == p && e.intervalMs > 0 then Some(e.now)
            else if Tracks(s, e, p) then None
            else EntriesOf(s, p).heartbeat
    ensures EntriesOf(s, p).attempts.None? ==> EntriesOf(Step(s, e), p).attempts.None?
  {
    hide Step, Silent, Tidy;
    if IsLifecycle(e) {
      LifecycleIsStep(s, e);
      LifecycleBeats(s, e);
    } else if e.HeartbeatTimer? {
      SweepBeats(s, e, p);
    } else if PeerOf(e) != p {
      StepElsewhere(s, e, p);
    } else {
      OwnBeats(s, e, p);
    }
  }

  lemma LifecycleBeats(s: State, e: Event)
    requires IsLifecycle(e)
    ensures SameTracking(s, Lifecycle(s, e))
  {
    match e
    case CallInit(_) =>
    case InitBody(_, _) =>
    case CallStart(_) =>
    case StartBody(_) =>
    case CallStop(_) =>
    case StopRetry(_) =>
    case StopBody(_) =>
  }

  lemma SweepBeats(s: State, e: Event, p: PeerId)
    requires e.HeartbeatTimer? && Tidy(s)
    ensures EntriesOf(Step(s, e), p) ==
            if Silent(s, p, e.now, e.intervalMs, e.connected) then NOTHING else EntriesOf(s, p)
    ensures Silent(s, p, e.now, e.intervalMs, e.connected) ==> p in s.connections
  {
    hide Sweep;
    SweepExactly(s, e.now, e.intervalMs, e.connected, p);
    assert Step(s, e) == Sweep(s, e.now, e.intervalMs, e.connected);
  }

  lemma OwnBeats(s: State, e: Event, p: PeerId)
    requires !IsLifecycle(e) && !e.HeartbeatTimer? && PeerOf(e) == p
    ensures EntriesOf(Step(s, e), p).heartbeat ==
            if e.HeartbeatReceived? && e.intervalMs > 0 then Some(e.now)
            else if Removes(s, e, p) then None
            else EntriesOf(s, p).heartbeat
    ensures EntriesOf(s, p).attempts.None? ==> EntriesOf(Step(s, e), p).attempts.None?
  {
    hide HandleSignal;
    match e
    case Signal(m, creates, accepts) => SignalKeepsLifecycle(s, m, creates, accepts);
    case ConnectToPeer(_, _) =>
    case DisconnectFromPeer(_) =>
    case StateChange(_, state) =>
    case HeartbeatReceived(_, _, _) =>
  }

  /** The peer's last heartbeat came at this time, and its connection was not destroyed since. */
  ghost predicate LastBeat(es: seq<Event>, n: nat, p: PeerId, now: int)
    requires n <= |es|
  {
    exists i: nat | i < n :: Beats(es[i], p, now) && forall j | i < j < n :: !Tracks(Run(es, j), es[j], p)
  }

  lemma LastBeatNext(es: seq<Event>, n: nat, p: PeerId, now: int)
    requires n < |es|
    ensures LastBeat(es, n + 1, p, now) <==>
            Beats(es[n], p, now) || (LastBeat(es, n, p, now) && !Tracks(Run(es, n), es[n], p))
  {
    hide Step, Beats, Tracks, Run;
    if LastBeat(es, n, p, now) && !Tracks(Run(es, n), es[n], p) {
      var i: nat :| i < n && Beats(es[i], p, now) && forall j | i < j < n :: !Tracks(Run(es, j), es[j], p);
      assert forall j | i < j < n + 1 :: !Tracks(Run(es, j), es[j], p);
    }
  }

  /** In every run the manager remembers of a peer exactly its last heartbeat, unless its connection was
      destroyed since; it never counts a reconnection attempt. */
  lemma {:induction false} HeartbeatIsHistory(es: seq<Event>, n: nat, p: PeerId, now: int)
    requires n <= |es|
    ensures EntriesOf(Run(es, n), p).heartbeat == Some(now) <==> LastBeat(es, n, p, now)
    ensures EntriesOf(Run(es, n), p).attempts == None
  {
    hide Step, Tidy, Removes;
    if n > 0 {
      HeartbeatIsHistory(es, n - 1, p, now);
      AlwaysTidy(es, n - 1);
      StepBeats(Run(es, n - 1), es[n - 1], p);
      LastBeatNext(es, n - 1, p, now);
    }
  }
}
