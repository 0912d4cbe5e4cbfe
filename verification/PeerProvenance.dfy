/** Where every call on a connection and every queued candidate comes from, field by field, over every run;
    and which events create, remove and track peers. */
module PeerProvenance {
  import opened Wrappers
  import opened Signaling
  import opened PeerManager
  import opened PeerLifecycle
  import opened PeerBookkeeping
  import opened PeerClosing

  // ----- what a message says -----

  /** The event is a CANDIDATE message with exactly these three fields. */
  predicate Carries(e: Event, c: PendingRemoteCandidate) {
    && e.Signal? && e.message.kind == CANDIDATE
    && e.message.candidate == Some(c.candidate)
    && e.message.sdpMid == Some(c.sdpMid)
    && e.message.sdpMlineIndex == Some(c.sdpMlineIndex)
  }

  predicate CarriesFrom(e: Event, p: PeerId, c: PendingRemoteCandidate) {
    Carries(e, c) && e.message.from == p
  }

  /** The event is an OFFER set as "offer", or an ANSWER set as "answer", with this description. */
  predicate Sets(e: Event, kind: string, sdp: string, accepted: bool) {
    && e.Signal? && e.message.sdp == Some(sdp) && e.accepts == accepted
    && ((e.message.kind == OFFER && kind == "offer") || (e.message.kind == ANSWER && kind == "answer"))
  }

  // ----- one step -----

  /** Why the step from `s` to `t` made the call on connection `o`. */
  predicate Caused(s: State, e: Event, t: State, o: nat, call: Call) {
    match call
    case AddRemoteCandidate(c) =>
      && e.Signal? && Stored(t, e.message.from) == Some(o)
      && (Carries(e, c) || (Stored(s, e.message.from) == Some(o) && c in Pending(s, e.message.from)))
    case SetRemoteDescription(kind, sdp, accepted) =>
      Sets(e, kind, sdp, accepted) && Stored(t, e.message.from) == Some(o)
    case CreateOffer => e.ConnectToPeer? && Stored(t, e.peer) == Some(o)
    case CreateAnswer => e.Signal? && e.message.kind == OFFER && e.accepts && Stored(t, e.message.from) == Some(o)
    case Close =>
      || e.DisconnectFromPeer? || e.StateChange? || e.HeartbeatTimer? || e.StopBody?
      || (e.Signal? && e.message.kind == LEAVE)
  }

  /** The log of `o` only grew, by calls the step caused. */
  ghost predicate Grew(s: State, e: Event, t: State, o: nat) {
    var before, after := LogOf(s.calls, o), LogOf(t.calls, o);
    before <= after && forall k | |before| <= k < |after| :: Caused(s, e, t, o, after[k])
  }

  ghost predicate AllCaused(s: State, e: Event, t: State, o: nat, more: seq<Call>) {
    forall k | 0 <= k < |more| :: Caused(s, e, t, o, more[k])
  }

  lemma GrewBy(s: State, e: Event, t: State, o: nat, more: seq<Call>)
    requires LogOf(t.calls, o) == LogOf(s.calls, o) + more && AllCaused(s, e, t, o, more)
    ensures Grew(s, e, t, o)
  {
    hide Caused, LogOf;
    var before, after := LogOf(s.calls, o), LogOf(t.calls, o);
    forall k | |before| <= k < |after|
      ensures Caused(s, e, t, o, after[k])
    {
      assert after[k] == more[k - |before|];
    }
  }

  lemma GrewNot(s: State, e: Event, t: State, o: nat)
    requires LogOf(t.calls, o) == LogOf(s.calls, o)
    ensures Grew(s, e, t, o)
  {
    hide Caused, LogOf;
  }

  lemma LogGrows(calls: seq<seq<Call>>, pc: Option<nat>, more: seq<Call>, o: nat)
    ensures LogOf(Log(calls, pc, more), o) == LogOf(calls, o) + (if pc == Some(o) && o < |calls| then more else [])
  {
    assert LogOf(calls, o) + [] == LogOf(calls, o);
  }

  lemma CloseGrows(s: State, e: Event, t: State, p: PeerId, o: nat)
    requires t.calls == Log(s.calls, Stored(s, p), [Close]) && Caused(s, e, t, o, Close)
    ensures Grew(s, e, t, o)
  {
    hide LogOf;
    LogGrows(s.calls, Stored(s, p), [Close], o);
    if Stored(s, p) == Some(o) && o < |s.calls| {
      GrewBy(s, e, t, o, [Close]);
    } else {
      assert LogOf(s.calls, o) + [] == LogOf(s.calls, o);
      GrewNot(s, e, t, o);
    }
  }

  lemma CloseAllGrows(s: State, e: Event, t: State, objects: set<nat>, o: nat)
    requires t.calls == CloseAll(s.calls, objects) && Caused(s, e, t, o, Close)
    ensures Grew(s, e, t, o)
  {
    hide LogOf;
    ClosedLog(s.calls, objects, o);
    if o < |s.calls| && o in objects {
      GrewBy(s, e, t, o, [Close]);
    } else {
      assert LogOf(s.calls, o) + [] == LogOf(s.calls, o);
      GrewNot(s, e, t, o);
    }
  }

  lemma DescribeCauses(s: State, e: Event, p: PeerId, kind: string, sdp: string, o: nat)
    requires e.Signal? && e.message.from == p && Stored(s, p) == Some(o) && Sets(e, kind, sdp, e.accepts)
    ensures var t := Describe(s, p, kind, sdp, e.accepts);
            var answer := if kind == "offer" then [CreateAnswer] else [];
            var flush := if e.accepts then Adds(Pending(s, p)) + answer else [];
            AllCaused(s, e, t, o, [Call.SetRemoteDescription(kind, sdp, e.accepts)] + flush)
  {
    assert "offer" != "answer";
  }

  lemma DescribeGrows(s: State, e: Event, p: PeerId, kind: string, sdp: string, o: nat)
    requires e.Signal? && e.message.from == p && Stored(s, p).Some? && Sets(e, kind, sdp, e.accepts)
    ensures Grew(s, e, Describe(s, p, kind, sdp, e.accepts), o)
  {
    hide LogOf, Sets, Caused, Adds;
    var t := Describe(s, p, kind, sdp, e.accepts);
    var answer := if kind == "offer" then [CreateAnswer] else [];
    var flush := if e.accepts then Adds(Pending(s, p)) + answer else [];
    var more := [Call.SetRemoteDescription(kind, sdp, e.accepts)] + flush;
    LogGrows(s.calls, Stored(s, p), more, o);
    if Stored(s, p) == Some(o) && o < |s.calls| {
      DescribeCauses(s, e, p, kind, sdp, o);
      GrewBy(s, e, t, o, more);
    } else {
      assert LogOf(s.calls, o) + [] == LogOf(s.calls, o);
      GrewNot(s, e, t, o);
    }
  }

  /** The fields of a complete candidate, spelled out. */
  lemma CandidateFieldsAre(m: SignalMessage)
    requires FullCandidate(m)
    ensures var c := CandidateOf(m);
            m.candidate == Some(c.candidate) && m.sdpMid == Some(c.sdpMid) && m.sdpMlineIndex == Some(c.sdpMlineIndex)
  {
  }

  lemma AcceptGrows(s: State, e: Event, p: PeerId, o: nat)
    requires e.Signal? && e.message.from == p && e.message.kind == CANDIDATE && FullCandidate(e.message)
    requires Stored(s, p).Some?
    ensures Grew(s, e, Accept(s, p, CandidateOf(e.message)), o)
  {
    hide LogOf;
    var c := CandidateOf(e.message);
    var t := Accept(s, p, c);
    CandidateFieldsAre(e.message);
    LogGrows(s.calls, Stored(s, p), [AddRemoteCandidate(c)], o);
    if Flag(s, p) && Stored(s, p) == Some(o) && o < |s.calls| {
      GrewBy(s, e, t, o, [AddRemoteCandidate(c)]);
    } else {
      assert LogOf(s.calls, o) + [] == LogOf(s.calls, o);
      GrewNot(s, e, t, o);
    }
  }

  lemma DeliverGrows(s: State, e: Event, o: nat)
    requires e.Signal? && Stored(s, e.message.from).Some?
    ensures Grew(s, e, Deliver(s, e.message, e.accepts), o)
  {
    hide Describe, Accept, Grew, LogOf;
    var m := e.message;
    GrewNot(s, e, s, o);
    match m.kind
    case OFFER => if m.sdp.Some? { DescribeGrows(s, e, m.from, "offer", m.sdp.value, o); }
    case ANSWER => if m.sdp.Some? { DescribeGrows(s, e, m.from, "answer", m.sdp.value, o); }
    case CANDIDATE => if FullCandidate(m) { AcceptGrows(s, e, m.from, o); }
    case _ =>
  }

  /** A message that creates the connection finds an empty queue. */
  lemma CreateThenGrows(s: State, e: Event, t: State, o: nat)
    requires e.Signal? && e.message.from !in s.connections && Grew(GetOrCreate(s, e.message.from, true), e, t, o)
    ensures Grew(s, e, t, o)
  {
    assert LogOf(GetOrCreate(s, e.message.from, true).calls, o) == LogOf(s.calls, o);
  }

  /** What a message does: nothing, close and forget, or deliver to a connection that is there or created. */
  lemma MessageDoes(s: State, e: Event)
    requires e.Signal?
    ensures var m, p, t := e.message, e.message.from, Step(s, e);
            if m.kind == LEAVE then t == Leave(s, p)
            else if m.kind == JOIN || m.kind == UNKNOWN then t == s
            else if p !in s.connections && e.creates then t == Deliver(GetOrCreate(s, p, true), m, e.accepts)
            else if Stored(s, p).Some? then t == Deliver(s, m, e.accepts)
            else t == s
  {
    hide Deliver, Leave;
  }

  lemma SignalGrows(s: State, e: Event, o: nat)
    requires e.Signal?
    ensures Grew(s, e, Step(s, e), o)
  {
    hide Step, Deliver, Leave, Grew, LogOf;
    var m, p := e.message, e.message.from;
    MessageDoes(s, e);
    GrewNot(s, e, s, o);
    if m.kind == LEAVE {
      LeaveGrows(s, e, o);
    } else if p !in s.connections && e.creates {
      DeliverGrows(GetOrCreate(s, p, true), e, o);
      CreateThenGrows(s, e, Deliver(GetOrCreate(s, p, true), m, e.accepts), o);
    } else if Stored(s, p).Some? {
      DeliverGrows(s, e, o);
    }
  }

  lemma LeaveGrows(s: State, e: Event, o: nat)
    requires e.Signal? && e.message.kind == LEAVE
    ensures Grew(s, e, Leave(s, e.message.from), o)
  {
    hide Grew, LogOf;
    if Stored(s, e.message.from).Some? {
      CloseGrows(s, e, Leave(s, e.message.from), e.message.from, o);
    } else {
      GrewNot(s, e, s, o);
    }
  }

  lemma ConnectGrows(s: State, e: Event, o: nat)
    requires e.ConnectToPeer?
    ensures Grew(s, e, Step(s, e), o)
  {
    hide LogOf;
    var t := Connect(s, e.peer, e.creates);
    assert Step(s, e) == t;
    ConnectLogs(s, e.peer, e.creates, o);
    if o == |s.calls| && |s.calls| < |t.calls| {
      GrewBy(s, e, t, o, [CreateOffer]);
    } else {
      GrewNot(s, e, t, o);
    }
  }

  lemma ConnectLogs(s: State, p: PeerId, creates: bool, o: nat)
    ensures var t := Connect(s, p, creates);
            if o == |s.calls| && |s.calls| < |t.calls| then
              LogOf(t.calls, o) == LogOf(s.calls, o) + [CreateOffer] && Stored(t, p) == Some(o)
            else LogOf(t.calls, o) == LogOf(s.calls, o)
  {
  }

  lemma LifecycleGrows(s: State, e: Event, o: nat)
    requires IsLifecycle(e)
    ensures Grew(s, e, Lifecycle(s, e), o)
  {
    hide Grew, LogOf, CloseAll, Objects;
    var t := Lifecycle(s, e);
    match e
    case CallInit(_) => GrewNot(s, e, t, o);
    case InitBody(_, _) => GrewNot(s, e, t, o);
    case CallStart(_) => GrewNot(s, e, t, o);
    case StartBody(_) => GrewNot(s, e, t, o);
    case CallStop(_) => GrewNot(s, e, t, o);
    case StopRetry(_) => GrewNot(s, e, t, o);
    case StopBody(u) =>
      if PhaseOf(s, u) == Some(InStop) {
        CloseAllGrows(s, e, t, Objects(s.connections), o);
      } else {
        GrewNot(s, e, t, o);
      }
  }

  lemma StepGrows(s: State, e: Event, o: nat)
    ensures Grew(s, e, Step(s, e), o)
  {
    hide Grew, LogOf, HandleSignal, Connect, Lifecycle, CloseAll, Objects, Lost;
    var t := Step(s, e);
    GrewNot(s, e, s, o);
    match e
    case ConnectToPeer(_, _) => ConnectGrows(s, e, o);
    case DisconnectFromPeer(p) => CloseGrows(s, e, t, p, o);
    case Signal(_, _, _) => SignalGrows(s, e, o);
    case StateChange(p, state) =>
      if p in s.connections && Dead(state) {
        CloseGrows(s, e, t, p, o);
      } else {
        assert t == s;
      }
    case HeartbeatReceived(_, _, _) => GrewNot(s, e, t, o);
    case HeartbeatTimer(now, intervalMs, connected) =>
      if intervalMs <= 0 {
        assert t == s;
      } else {
        CloseAllGrows(s, e, t, Objects(Part(s.connections, Lost(s, now, intervalMs, connected))), o);
      }
    case _ => LifecycleGrows(s, e, o);
  }

  // ----- the queue -----

  /** What is queued was queued before, for the same connection if there is one, or is what the message carries. */
  predicate Queues(s: State, e: Event, t: State, p: PeerId) {
    forall c | c in Pending(t, p) ::
      || (c in Pending(s, p) && (Stored(t, p).Some? ==> Stored(s, p) == Stored(t, p)))
      || CarriesFrom(e, p, c)
  }

  lemma QueuesSame(s: State, e: Event, t: State, p: PeerId)
    requires Pending(t, p) == Pending(s, p) && (Stored(t, p).Some? ==> Stored(s, p) == Stored(t, p))
    ensures Queues(s, e, t, p)
  {
  }

  lemma QueuesNothing(s: State, e: Event, t: State, p: PeerId)
    requires Pending(t, p) == []
    ensures Queues(s, e, t, p)
  {
  }

  lemma AcceptQueues(s: State, e: Event)
    requires e.Signal? && e.message.kind == CANDIDATE && FullCandidate(e.message)
    ensures Queues(s, e, Accept(s, e.message.from, CandidateOf(e.message)), e.message.from)
  {
    CandidateFieldsAre(e.message);
  }

  lemma DeliverQueues(s: State, e: Event)
    requires e.Signal?
    ensures Queues(s, e, Deliver(s, e.message, e.accepts), e.message.from)
  {
    hide Accept, Queues;
    var m := e.message;
    QueuesSame(s, e, s, m.from);
    match m.kind
    case OFFER => if m.sdp.Some? { DescribeQueues(s, e, "offer", m.sdp.value); }
    case ANSWER => if m.sdp.Some? { DescribeQueues(s, e, "answer", m.sdp.value); }
    case CANDIDATE => if FullCandidate(m) { AcceptQueues(s, e); }
    case _ =>
  }

  lemma DescribeQueues(s: State, e: Event, kind: string, sdp: string)
    requires e.Signal?
    ensures Queues(s, e, Describe(s, e.message.from, kind, sdp, e.accepts), e.message.from)
  {
    var t := Describe(s, e.message.from, kind, sdp, e.accepts);
    if e.accepts {
      QueuesNothing(s, e, t, e.message.from);
    } else {
      QueuesSame(s, e, t, e.message.from);
    }
  }

  lemma CreateQueues(s: State, e: Event, t: State)
    requires e.Signal? && e.message.from !in s.connections
    requires Queues(GetOrCreate(s, e.message.from, true), e, t, e.message.from)
    ensures Queues(s, e, t, e.message.from)
  {
  }

  lemma SignalQueues(s: State, e: Event)
    requires e.Signal?
    ensures Queues(s, e, Step(s, e), e.message.from)
  {
    hide Step, Deliver, Leave, Queues;
    var m, p := e.message, e.message.from;
    MessageDoes(s, e);
    QueuesSame(s, e, s, p);
    if m.kind == LEAVE {
      LeaveQueues(s, e);
    } else if p !in s.connections && e.creates {
      DeliverQueues(GetOrCreate(s, p, true), e);
      CreateQueues(s, e, Deliver(GetOrCreate(s, p, true), m, e.accepts));
    } else if Stored(s, p).Some? {
      DeliverQueues(s, e);
    }
  }

  lemma LeaveQueues(s: State, e: Event)
    requires e.Signal? && e.message.kind == LEAVE
    ensures Queues(s, e, Leave(s, e.message.from), e.message.from)
  {
    hide Queues;
    if Stored(s, e.message.from).Some? {
      QueuesNothing(s, e, Leave(s, e.message.from), e.message.from);
    } else {
      QueuesSame(s, e, s, e.message.from);
    }
  }

  lemma OwnQueues(s: State, e: Event, p: PeerId)
    requires !IsLifecycle(e) && !e.HeartbeatTimer? && PeerOf(e) == p && Tidy(s)
    ensures Queues(s, e, Step(s, e), p)
  {
    hide HandleSignal, Queues;
    var t := Step(s, e);
    match e
    case Signal(_, _, _) => SignalQueues(s, e);
    case ConnectToPeer(_, _) =>
      if p !in s.connections && s.app == Running {
        QueuesNothing(s, e, t, p);
      } else {
        assert t == s;
        QueuesSame(s, e, t, p);
      }
    case DisconnectFromPeer(_) => QueuesSame(s, e, t, p);
    case StateChange(_, state) =>
      if p in s.connections && Dead(state) {
        QueuesNothing(s, e, t, p);
      } else {
        assert t == s;
        QueuesSame(s, e, t, p);
      }
    case HeartbeatReceived(_, _, _) => QueuesSame(s, e, t, p);
  }

  lemma LifecycleQueues(s: State, e: Event, p: PeerId)
    requires IsLifecycle(e)
    ensures Queues(s, e, Lifecycle(s, e), p)
  {
    hide Queues;
    var t := Lifecycle(s, e);
    match e
    case CallInit(_) => QueuesSame(s, e, t, p);
    case InitBody(_, _) => QueuesSame(s, e, t, p);
    case CallStart(_) => QueuesSame(s, e, t, p);
    case StartBody(_) => QueuesSame(s, e, t, p);
    case CallStop(_) => QueuesSame(s, e, t, p);
    case StopRetry(_) => QueuesSame(s, e, t, p);
    case StopBody(_) => QueuesSame(s, e, t, p);
  }

  lemma UntouchedQueues(s: State, e: Event, t: State, p: PeerId)
    requires Untouched(s, t, p)
    ensures Queues(s, e, t, p)
  {
    assert EntriesOf(t, p) == EntriesOf(s, p);
    QueuesSame(s, e, t, p);
  }

  lemma StepQueues(s: State, e: Event, p: PeerId)
    requires Tidy(s)
    ensures Queues(s, e, Step(s, e), p)
  {
    hide Step, Queues, Untouched;
    if IsLifecycle(e) {
      LifecycleIsStep(s, e);
      LifecycleQueues(s, e, p);
    } else if e.HeartbeatTimer? {
      SweepQueues(s, e, p);
    } else if PeerOf(e) == p {
      OwnQueues(s, e, p);
    } else {
      StepElsewhere(s, e, p);
      UntouchedQueues(s, e, Step(s, e), p);
    }
  }

  lemma SweepQueues(s: State, e: Event, p: PeerId)
    requires e.HeartbeatTimer? && Tidy(s)
    ensures Queues(s, e, Step(s, e), p)
  {
    hide Sweep, Silent, Queues;
    SweepExactly(s, e.now, e.intervalMs, e.connected, p);
    assert Step(s, e) == Sweep(s, e.now, e.intervalMs, e.connected);
    if Silent(s, p, e.now, e.intervalMs, e.connected) {
      QueuesNothing(s, e, Step(s, e), p);
    } else {
      QueuesSame(s, e, Step(s, e), p);
    }
  }

  // ----- every run -----

  /** Event `j` left connection `o` stored for the peer it is from. */
  predicate FromPeerOf(es: seq<Event>, j: nat, o: nat)
    requires j < |es|
  {
    es[j].Signal? && Stored(Run(es, j + 1), es[j].message.from) == Some(o)
  }

  ghost predicate Explained(es: seq<Event>, n: nat, o: nat, call: Call)
    requires n <= |es|
  {
    match call
    case AddRemoteCandidate(c) => exists j: nat | j < n :: Carries(es[j], c) && FromPeerOf(es, j, o)
    case SetRemoteDescription(kind, sdp, accepted) =>
      exists j: nat | j < n :: Sets(es[j], kind, sdp, accepted) && FromPeerOf(es, j, o)
    case CreateOffer =>
      exists j: nat | j < n :: es[j].ConnectToPeer? && Stored(Run(es, j + 1), es[j].peer) == Some(o)
    case CreateAnswer =>
      exists j: nat | j < n :: FromPeerOf(es, j, o) && es[j].message.kind == OFFER && es[j].accepts
    case Close => true
  }

  lemma ExplainedLater(es: seq<Event>, n: nat, o: nat, call: Call)
    requires n < |es|
    ensures Explained(es, n, o, call) ==> Explained(es, n + 1, o, call)
  {
    hide Step, Carries, Sets, FromPeerOf, Run, Stored;
  }

  /** A queued candidate came from its peer, while the connection now stored for it, if any, was stored. */
  ghost predicate QueueExplained(es: seq<Event>, n: nat, p: PeerId)
    requires n <= |es|
  {
    forall c | c in Pending(Run(es, n), p) ::
      exists j: nat | j < n ::
        && CarriesFrom(es[j], p, c)
        && (Stored(Run(es, n), p).Some? ==> Stored(Run(es, j + 1), p) == Stored(Run(es, n), p))
  }

  /** Each candidate in the queue of a peer is, field by field, one the peer sent. */
  lemma {:induction false} QueueComesFromMessages(es: seq<Event>, n: nat, p: PeerId)
    requires n <= |es|
    ensures QueueExplained(es, n, p)
  {
    hide Step, CarriesFrom, Stored, Pending, Tidy;
    if n > 0 {
      var s, e, t := Run(es, n - 1), es[n - 1], Run(es, n);
      AlwaysTidy(es, n - 1);
      QueueComesFromMessages(es, n - 1, p);
      StepQueues(s, e, p);
      forall c | c in Pending(t, p)
        ensures exists j: nat | j < n :: CarriesFrom(es[j], p, c)
                  && (Stored(t, p).Some? ==> Stored(Run(es, j + 1), p) == Stored(t, p))
      {
        if CarriesFrom(e, p, c) {
          assert Run(es, n - 1 + 1) == t;
        } else {
          var j: nat :| j < n - 1 && CarriesFrom(es[j], p, c)
                        && (Stored(s, p).Some? ==> Stored(Run(es, j + 1), p) == Stored(s, p));
        }
      }
    } else {
      NothingQueued(p);
    }
  }

  lemma NothingQueued(p: PeerId)
    ensures Pending(START, p) == []
  {
  }

  lemma CauseExplains(es: seq<Event>, n: nat, o: nat, call: Call)
    requires n < |es| && Caused(Run(es, n), es[n], Run(es, n + 1), o, call)
    ensures Explained(es, n + 1, o, call)
  {
    hide Step, Sets, Stored, Pending;
    var s, e := Run(es, n), es[n];
    match call
    case AddRemoteCandidate(c) =>
      if Carries(e, c) {
        assert FromPeerOf(es, n, o);
      } else {
        var p := e.message.from;
        QueueComesFromMessages(es, n, p);
        var j: nat :| j < n && CarriesFrom(es[j], p, c)
                      && (Stored(s, p).Some? ==> Stored(Run(es, j + 1), p) == Stored(s, p));
        assert FromPeerOf(es, j, o);
      }
    case SetRemoteDescription(kind, sdp, accepted) =>
      SetsIsSignal(e, kind, sdp, accepted);
      assert FromPeerOf(es, n, o);
    case CreateOffer =>
    case CreateAnswer => assert FromPeerOf(es, n, o);
    case Close =>
  }

  lemma SetsIsSignal(e: Event, kind: string, sdp: string, accepted: bool)
    requires Sets(e, kind, sdp, accepted)
    ensures e.Signal?
  {
  }

  /** In every run, every call on every connection ever created has its message: a candidate handed over is,
      field by field, one its peer sent; a description is that of an OFFER set as "offer" or an ANSWER set as
      "answer", with the answer the connection gave; an offer comes from connectToPeer and an answer from an
      accepted offer. */
  lemma {:induction false} CallsComeFromMessages(es: seq<Event>, n: nat, o: nat)
    requires n <= |es|
    ensures forall k | 0 <= k < |LogOf(Run(es, n).calls, o)| :: Explained(es, n, o, LogOf(Run(es, n).calls, o)[k])
  {
    hide Step, Explained, Caused;
    if n > 0 {
      var s, e, t := Run(es, n - 1), es[n - 1], Run(es, n);
      CallsComeFromMessages(es, n - 1, o);
      StepGrows(s, e, o);
      var before, after := LogOf(s.calls, o), LogOf(t.calls, o);
      forall k | 0 <= k < |after|
        ensures Explained(es, n, o, after[k])
      {
        if k < |before| {
          assert after[k] == before[k];
          ExplainedLater(es, n - 1, o, after[k]);
        } else {
          CauseExplains(es, n - 1, o, after[k]);
        }
      }
    }
  }
}
