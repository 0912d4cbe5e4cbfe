/** What is called on a connection once it was closed, over every run. LEAVE and disconnectFromPeer close a
    connection that stays stored; every other Close comes with its removal. */
module PeerClosing {
  import opened Wrappers
  import opened Signaling
  import opened PeerManager
  import opened PeerLifecycle
  import opened PeerBookkeeping

  predicate NeverClosed(log: seq<Call>) {
    forall i | 0 <= i < |log| :: log[i] != Close
  }

  /** The one Close is the last call. */
  predicate ClosedLast(log: seq<Call>) {
    log != [] && log[|log| - 1] == Close && NeverClosed(log[..|log| - 1])
  }

  predicate WasClosed(log: seq<Call>) {
    exists i | 0 <= i < |log| :: log[i] == Close
  }

  predicate CalledAfterClose(log: seq<Call>) {
    exists i | 0 <= i < |log| - 1 :: log[i] == Close
  }

  // ----- dismissal -----

  /** The step closes the stored connection `o` and keeps it stored. */
  predicate Dismisses(s: State, e: Event, o: nat) {
    || (e.DisconnectFromPeer? && Stored(s, e.peer) == Some(o))
    || (e.Signal? && e.message.kind == LEAVE && Stored(s, e.message.from) == Some(o))
  }

  /** Before event `n` the peer left, or was disconnected from, while the connection was stored for it. */
  predicate Dismissed(es: seq<Event>, n: nat, o: nat)
    requires n <= |es|
  {
    exists i | 0 <= i < n :: Dismisses(Run(es, i), es[i], o)
  }

  lemma DismissedNext(es: seq<Event>, n: nat, o: nat)
    requires n < |es|
    ensures Dismissed(es, n + 1, o) <==> Dismissed(es, n, o) || Dismisses(Run(es, n), es[n], o)
  {
    hide Step, Dismisses, Run;
  }

  predicate IsStored(s: State, o: nat) {
    o in Objects(s.connections)
  }

  lemma StoredFor(s: State, o: nat) returns (p: PeerId)
    requires IsStored(s, o)
    ensures Stored(s, p) == Some(o)
  {
    p :| p in s.connections && s.connections[p].Some? && s.connections[p].value == o;
  }

  lemma StoredIs(s: State, p: PeerId, o: nat)
    requires Stored(s, p) == Some(o)
    ensures IsStored(s, o)
  {
    assert p in s.connections && s.connections[p].Some? && s.connections[p].value == o;
  }

  // ----- one step of a stored connection -----

  /** The log grew by calls that close nothing. */
  predicate GrewOpen(before: seq<Call>, after: seq<Call>) {
    before <= after && NeverClosed(after[|before|..])
  }

  /** What one step does to the connection stored for `p`: LEAVE and disconnect close and keep it, removal
      closes it, and nothing else closes it. */
  predicate Treats(s: State, e: Event, t: State, p: PeerId, o: nat) {
    if Dismisses(s, e, o) then
      LogOf(t.calls, o) == LogOf(s.calls, o) + [Close] && Stored(t, p) == Some(o)
    else if Stored(t, p) == Some(o) then
      GrewOpen(LogOf(s.calls, o), LogOf(t.calls, o))
    else
      LogOf(t.calls, o) == LogOf(s.calls, o) + [Close]
  }

  lemma GrewNothing(log: seq<Call>)
    ensures GrewOpen(log, log)
  {
  }

  lemma GrewMore(log: seq<Call>, more: seq<Call>)
    requires NeverClosed(more)
    ensures GrewOpen(log, log + more)
  {
    assert (log + more)[|log|..] == more;
  }

  lemma OwnLogGrows(s: State, p: PeerId, more: seq<Call>)
    requires Tidy(s) && Stored(s, p).Some?
    ensures LogOf(Log(s.calls, Stored(s, p), more), Stored(s, p).value) == LogOf(s.calls, Stored(s, p).value) + more
  {
  }

  lemma FlushClosesNothing(kind: string, sdp: string, accepts: bool, cs: seq<PendingRemoteCandidate>)
    ensures var answer := if kind == "offer" then [CreateAnswer] else [];
            var flush := if accepts then Adds(cs) + answer else [];
            NeverClosed([Call.SetRemoteDescription(kind, sdp, accepts)] + flush)
  {
  }

  lemma DescribeTreats(s: State, p: PeerId, kind: string, sdp: string, accepts: bool)
    requires Tidy(s) && Stored(s, p).Some?
    ensures var t, o := Describe(s, p, kind, sdp, accepts), Stored(s, p).value;
            Stored(t, p) == Some(o) && GrewOpen(LogOf(s.calls, o), LogOf(t.calls, o))
  {
    hide Adds, NeverClosed, GrewOpen;
    var answer := if kind == "offer" then [CreateAnswer] else [];
    var flush := if accepts then Adds(Pending(s, p)) + answer else [];
    var more := [Call.SetRemoteDescription(kind, sdp, accepts)] + flush;
    FlushClosesNothing(kind, sdp, accepts, Pending(s, p));
    OwnLogGrows(s, p, more);
    GrewMore(LogOf(s.calls, Stored(s, p).value), more);
  }

  lemma AcceptTreats(s: State, p: PeerId, c: PendingRemoteCandidate)
    requires Tidy(s) && Stored(s, p).Some?
    ensures var t, o := Accept(s, p, c), Stored(s, p).value;
            Stored(t, p) == Some(o) && GrewOpen(LogOf(s.calls, o), LogOf(t.calls, o))
  {
    hide GrewOpen;
    OwnLogGrows(s, p, [AddRemoteCandidate(c)]);
    GrewMore(LogOf(s.calls, Stored(s, p).value), [AddRemoteCandidate(c)]);
    GrewNothing(LogOf(s.calls, Stored(s, p).value));
  }

  lemma DeliverTreats(s: State, m: SignalMessage, accepts: bool)
    requires Tidy(s) && Stored(s, m.from).Some?
    ensures var t, o := Deliver(s, m, accepts), Stored(s, m.from).value;
            Stored(t, m.from) == Some(o) && GrewOpen(LogOf(s.calls, o), LogOf(t.calls, o))
  {
    hide GrewOpen, Describe, Accept;
    GrewNothing(LogOf(s.calls, Stored(s, m.from).value));
    match m.kind
    case OFFER => if m.sdp.Some? { DescribeTreats(s, m.from, "offer", m.sdp.value, accepts); }
    case ANSWER => if m.sdp.Some? { DescribeTreats(s, m.from, "answer", m.sdp.value, accepts); }
    case CANDIDATE => if FullCandidate(m) { AcceptTreats(s, m.from, CandidateOf(m)); }
    case _ =>
  }

  lemma LeaveTreats(s: State, p: PeerId)
    requires Tidy(s) && Stored(s, p).Some?
    ensures var t, o := Leave(s, p), Stored(s, p).value;
            Stored(t, p) == Some(o) && LogOf(t.calls, o) == LogOf(s.calls, o) + [Close]
  {
    OwnLogGrows(s, p, [Close]);
  }

  lemma SignalTreats(s: State, e: Event, p: PeerId, o: nat)
    requires e.Signal? && e.message.from == p && Tidy(s) && Stored(s, p) == Some(o)
    ensures Treats(s, e, Step(s, e), p, o)
  {
    hide GrewOpen, Deliver, Leave, LogOf, Tidy;
    GrewNothing(LogOf(s.calls, o));
    var m := e.message;
    if m.kind == LEAVE {
      LeaveTreats(s, p);
      assert Step(s, e) == Leave(s, p);
    } else if m.kind != JOIN && m.kind != UNKNOWN {
      DeliverTreats(s, m, e.accepts);
      assert Step(s, e) == Deliver(s, m, e.accepts);
      assert !Dismisses(s, e, o);
    } else {
      assert Step(s, e) == s;
    }
  }

  lemma OwnTreats(s: State, e: Event, p: PeerId, o: nat)
    requires !IsLifecycle(e) && !e.HeartbeatTimer? && PeerOf(e) == p && Tidy(s) && Stored(s, p) == Some(o)
    ensures Treats(s, e, Step(s, e), p, o)
  {
    hide GrewOpen, HandleSignal;
    GrewNothing(LogOf(s.calls, o));
    OwnLogGrows(s, p, [Close]);
    match e
    case Signal(_, _, _) => SignalTreats(s, e, p, o);
    case ConnectToPeer(_, _) => assert Step(s, e) == s;
    case DisconnectFromPeer(_) =>
    case StateChange(_, state) => if !Dead(state) { assert Step(s, e) == s; }
    case HeartbeatReceived(_, _, _) =>
  }

  lemma UntouchedTreats(s: State, e: Event, p: PeerId, o: nat)
    requires Stored(s, p) == Some(o) && !Dismisses(s, e, o) && Untouched(s, Step(s, e), p)
    ensures Treats(s, e, Step(s, e), p, o)
  {
    hide Step, Dismisses;
    assert Stored(Step(s, e), p) == Some(o) by { assert EntriesOf(Step(s, e), p) == EntriesOf(s, p); }
    GrewNothing(LogOf(s.calls, o));
  }

  lemma StopTreats(s: State, e: Event, p: PeerId, o: nat)
    requires e.StopBody? && Tidy(s) && Stored(s, p) == Some(o)
    ensures Treats(s, e, Lifecycle(s, e), p, o)
  {
    hide GrewOpen;
    GrewNothing(LogOf(s.calls, o));
    StoredIs(s, p, o);
    ClosedLog(s.calls, Objects(s.connections), o);
  }

  lemma LifecycleTreats(s: State, e: Event, p: PeerId, o: nat)
    requires IsLifecycle(e) && Tidy(s) && Stored(s, p) == Some(o)
    ensures Treats(s, e, Step(s, e), p, o)
  {
    hide Lifecycle, Treats, Untouched;
    LifecycleIsStep(s, e);
    if e.StopBody? {
      StopTreats(s, e, p, o);
    } else {
      LifecycleUntouched(s, e, p);
      UntouchedTreats(s, e, p, o);
    }
  }

  lemma SweepTreats(s: State, e: Event, p: PeerId, o: nat)
    requires e.HeartbeatTimer? && Tidy(s) && Stored(s, p) == Some(o)
    ensures Treats(s, e, Step(s, e), p, o)
  {
    hide Sweep, Silent;
    SweepExactly(s, e.now, e.intervalMs, e.connected, p);
    assert Step(s, e) == Sweep(s, e.now, e.intervalMs, e.connected);
    if !Silent(s, p, e.now, e.intervalMs, e.connected) {
      assert LogOf(s.calls, o) + [] == LogOf(s.calls, o);
      UntouchedTreats(s, e, p, o);
    }
  }

  lemma StepTreats(s: State, e: Event, p: PeerId, o: nat)
    requires Tidy(s) && Stored(s, p) == Some(o)
    ensures Treats(s, e, Step(s, e), p, o)
  {
    hide Step, Treats;
    if IsLifecycle(e) {
      LifecycleTreats(s, e, p, o);
    } else if e.HeartbeatTimer? {
      SweepTreats(s, e, p, o);
    } else if PeerOf(e) == p {
      OwnTreats(s, e, p, o);
    } else {
      StepElsewhere(s, e, p);
      UntouchedTreats(s, e, p, o);
    }
  }

  // ----- a removed connection -----

  /** The connection is neither stored nor called. */
  predicate LeftAlone(s: State, t: State, o: nat) {
    !IsStored(t, o) && LogOf(t.calls, o) == LogOf(s.calls, o)
  }

  lemma LogMisses(s: State, p: PeerId, more: seq<Call>, o: nat)
    requires !IsStored(s, o)
    ensures LogOf(Log(s.calls, Stored(s, p), more), o) == LogOf(s.calls, o)
  {
    if Stored(s, p) == Some(o) {
      StoredIs(s, p, o);
    }
  }

  lemma DeliverMisses(s: State, m: SignalMessage, accepts: bool, o: nat)
    requires !IsStored(s, o)
    ensures LogOf(Deliver(s, m, accepts).calls, o) == LogOf(s.calls, o)
  {
    hide Adds, LogOf;
    var p := m.from;
    match m.kind
    case OFFER => if m.sdp.Some? { DescribeMisses(s, p, "offer", m.sdp.value, accepts, o); }
    case ANSWER => if m.sdp.Some? { DescribeMisses(s, p, "answer", m.sdp.value, accepts, o); }
    case CANDIDATE => if FullCandidate(m) { LogMisses(s, p, [AddRemoteCandidate(CandidateOf(m))], o); }
    case _ =>
  }

  lemma DescribeMisses(s: State, p: PeerId, kind: string, sdp: string, accepts: bool, o: nat)
    requires !IsStored(s, o)
    ensures LogOf(Describe(s, p, kind, sdp, accepts).calls, o) == LogOf(s.calls, o)
  {
    hide Adds, LogOf;
    var answer := if kind == "offer" then [CreateAnswer] else [];
    var flush := if accepts then Adds(Pending(s, p)) + answer else [];
    LogMisses(s, p, [Call.SetRemoteDescription(kind, sdp, accepts)] + flush, o);
  }

  lemma StoredBefore(s: State, t: State, o: nat)
    requires IsStored(t, o) && o < |s.calls| && OnlyFresh(s, t)
    ensures IsStored(s, o)
  {
    var p := StoredFor(t, o);
    StoredIs(s, p, o);
  }

  lemma StaysRemoved(s: State, t: State, o: nat)
    requires !IsStored(s, o) && o < |s.calls| && OnlyFresh(s, t)
    ensures !IsStored(t, o)
  {
    if IsStored(t, o) {
      StoredBefore(s, t, o);
    }
  }

  lemma CreateMisses(s: State, p: PeerId, creates: bool, o: nat)
    requires !IsStored(s, o) && o < |s.calls|
    ensures LeftAlone(s, GetOrCreate(s, p, creates), o)
  {
    CreateStoresOnlyFresh(s, p, creates);
    StaysRemoved(s, GetOrCreate(s, p, creates), o);
  }

  lemma SignalMisses(s: State, m: SignalMessage, creates: bool, accepts: bool, o: nat)
    requires !IsStored(s, o) && o < |s.calls|
    ensures LogOf(HandleSignal(s, m, creates, accepts).calls, o) == LogOf(s.calls, o)
  {
    hide Deliver, LogOf;
    CreateMisses(s, m.from, creates, o);
    LogMisses(s, m.from, [Close], o);
    DeliverMisses(GetOrCreate(s, m.from, creates), m, accepts, o);
  }

  lemma PartIsStored(s: State, peers: set<PeerId>, o: nat)
    ensures o in Objects(Part(s.connections, peers)) ==> IsStored(s, o)
  {
    var part := Part(s.connections, peers);
    if o in Objects(part) {
      var p :| p in part && part[p].Some? && part[p].value == o;
      StoredIs(s, p, o);
    }
  }

  lemma CloseMisses(s: State, peers: set<PeerId>, o: nat)
    requires !IsStored(s, o)
    ensures LogOf(CloseAll(s.calls, Objects(Part(s.connections, peers))), o) == LogOf(s.calls, o)
    ensures LogOf(CloseAll(s.calls, Objects(s.connections)), o) == LogOf(s.calls, o)
  {
    hide CloseAll;
    PartIsStored(s, peers, o);
    ClosedLog(s.calls, Objects(Part(s.connections, peers)), o);
    ClosedLog(s.calls, Objects(s.connections), o);
    assert LogOf(s.calls, o) + [] == LogOf(s.calls, o);
  }

  lemma ConnectMisses(s: State, p: PeerId, creates: bool, o: nat)
    requires o < |s.calls|
    ensures LogOf(Connect(s, p, creates).calls, o) == LogOf(s.calls, o)
  {
  }

  lemma LifecycleMisses(s: State, e: Event, o: nat)
    requires IsLifecycle(e) && !IsStored(s, o)
    ensures LogOf(Lifecycle(s, e).calls, o) == LogOf(s.calls, o)
  {
    hide CloseAll, LogOf, IsStored, Objects;
    CloseMisses(s, {}, o);
    match e
    case CallInit(_) =>
    case InitBody(_, _) =>
    case CallStart(_) =>
    case StartBody(_) =>
    case CallStop(_) =>
    case StopRetry(_) =>
    case StopBody(_) =>
  }

  lemma StepMisses(s: State, e: Event, o: nat)
    requires !IsStored(s, o) && o < |s.calls|
    ensures LogOf(Step(s, e).calls, o) == LogOf(s.calls, o)
  {
    hide HandleSignal, Lifecycle, CloseAll, Log, LogOf, IsStored, Objects, Part, Lost;
    match e
    case ConnectToPeer(p, creates) => ConnectMisses(s, p, creates, o);
    case DisconnectFromPeer(p) => LogMisses(s, p, [Close], o);
    case Signal(m, creates, accepts) => SignalMisses(s, m, creates, accepts, o);
    case StateChange(p, _) => LogMisses(s, p, [Close], o);
    case HeartbeatReceived(_, _, _) =>
    case HeartbeatTimer(now, intervalMs, connected) => CloseMisses(s, Lost(s, now, intervalMs, connected), o);
    case _ => LifecycleMisses(s, e, o);
  }

  lemma StoredForOne(s: State, t: State, p: PeerId, o: nat)
    requires Tidy(s) && Stored(s, p) == Some(o) && OnlyFresh(s, t)
    ensures IsStored(t, o) ==> Stored(t, p) == Some(o)
  {
    if IsStored(t, o) {
      var q := StoredFor(t, o);
      assert s.connections[q] == s.connections[p];
    }
  }

  // ----- a new connection -----

  /** At most one connection is created, stored, and not closed. */
  predicate CreatesOpen(s: State, t: State) {
    || |t.calls| == |s.calls|
    || (|t.calls| == |s.calls| + 1 && IsStored(t, |s.calls|) && NeverClosed(LogOf(t.calls, |s.calls|)))
  }

  lemma DeliverToNew(s: State, m: SignalMessage, accepts: bool)
    requires m.from !in s.connections && Tidy(s)
    ensures CreatesOpen(s, Deliver(GetOrCreate(s, m.from, true), m, accepts))
  {
    hide Deliver, Tidy, IsStored;
    var t := GetOrCreate(s, m.from, true);
    CreateKeepsTidy(s, m.from, true);
    DeliverStoresNothing(t, m, accepts);
    DeliverTreats(t, m, accepts);
    StoredIs(Deliver(t, m, accepts), m.from, |s.calls|);
    var log := LogOf(Deliver(t, m, accepts).calls, |s.calls|);
    assert log[0..] == log;
  }

  lemma SignalCreatesOpen(s: State, m: SignalMessage, creates: bool, accepts: bool)
    requires Tidy(s)
    ensures CreatesOpen(s, HandleSignal(s, m, creates, accepts))
  {
    hide Deliver, Tidy, IsStored, NeverClosed;
    LeaveStoresNothing(s, m.from);
    if m.from in s.connections {
      DeliverStoresNothing(s, m, accepts);
    } else if creates {
      DeliverToNew(s, m, accepts);
    }
  }

  lemma StepCreatesOpen(s: State, e: Event)
    requires Tidy(s)
    ensures CreatesOpen(s, Step(s, e))
  {
    hide HandleSignal, Lifecycle;
    match e
    case ConnectToPeer(p, creates) =>
      if s.app == Running && p !in s.connections && creates {
        StoredIs(Connect(s, p, creates), p, |s.calls|);
      }
    case DisconnectFromPeer(_) =>
    case Signal(m, creates, accepts) => SignalCreatesOpen(s, m, creates, accepts);
    case StateChange(p, _) => if p in s.connections { DestroyStoresNothing(s, p); }
    case HeartbeatReceived(_, _, _) =>
    case HeartbeatTimer(_, _, _) =>
    case _ => LifecycleStoresNothing(s, e);
  }

  // ----- every run -----

  predicate Closing(s: State, o: nat, dismissed: bool) {
    var log := LogOf(s.calls, o);
    if dismissed then WasClosed(log) && (!IsStored(s, o) ==> CalledAfterClose(log))
    else if IsStored(s, o) then NeverClosed(log)
    else ClosedLast(log)
  }

  lemma CloseMore(log: seq<Call>)
    ensures WasClosed(log + [Close])
    ensures WasClosed(log) ==> CalledAfterClose(log + [Close])
    ensures NeverClosed(log) ==> ClosedLast(log + [Close])
  {
    var more := log + [Close];
    assert more[|log|] == Close && more[..|more| - 1] == log;
    if i :| 0 <= i < |log| && log[i] == Close {
      assert more[i] == Close;
    }
  }

  lemma GrowOpen(before: seq<Call>, after: seq<Call>)
    requires GrewOpen(before, after)
    ensures WasClosed(before) ==> WasClosed(after)
    ensures NeverClosed(before) ==> NeverClosed(after)
  {
    assert after == before + after[|before|..];
    if i :| 0 <= i < |before| && before[i] == Close {
      assert after[i] == Close;
    }
  }

  lemma TreatedCloses(s: State, e: Event, t: State, p: PeerId, o: nat, dismissed: bool)
    requires Tidy(s) && Stored(s, p) == Some(o) && Closing(s, o, dismissed)
    requires Treats(s, e, t, p, o) && OnlyFresh(s, t)
    ensures Closing(t, o, dismissed || Dismisses(s, e, o))
  {
    hide Dismisses, WasClosed, NeverClosed, CalledAfterClose, ClosedLast, GrewOpen, IsStored, LogOf;
    StoredIs(s, p, o);
    CloseMore(LogOf(s.calls, o));
    if Stored(t, p) == Some(o) {
      StoredIs(t, p, o);
      if !Dismisses(s, e, o) {
        GrowOpen(LogOf(s.calls, o), LogOf(t.calls, o));
      }
    } else {
      StoredForOne(s, t, p, o);
    }
  }

  lemma RemovedIsNotDismissed(s: State, e: Event, o: nat)
    requires !IsStored(s, o)
    ensures !Dismisses(s, e, o)
  {
    if e.DisconnectFromPeer? && Stored(s, e.peer) == Some(o) {
      StoredIs(s, e.peer, o);
    }
    if e.Signal? && Stored(s, e.message.from) == Some(o) {
      StoredIs(s, e.message.from, o);
    }
  }

  lemma StepCloses(s: State, e: Event, o: nat, dismissed: bool)
    requires Tidy(s) && o < |s.calls| && Closing(s, o, dismissed)
    ensures Closing(Step(s, e), o, dismissed || Dismisses(s, e, o))
  {
    hide Step, Closing, IsStored, Dismisses, Treats, OnlyFresh, Accounts;
    StepReports(s, e);
    if IsStored(s, o) {
      var p := StoredFor(s, o);
      StepTreats(s, e, p, o);
      TreatedCloses(s, e, Step(s, e), p, o, dismissed);
    } else {
      StepMisses(s, e, o);
      StaysRemoved(s, Step(s, e), o);
      RemovedIsNotDismissed(s, e, o);
      RemovedStays(s, Step(s, e), o, dismissed);
    }
  }

  lemma RemovedStays(s: State, t: State, o: nat, dismissed: bool)
    requires Closing(s, o, dismissed) && !IsStored(s, o) && LeftAlone(s, t, o)
    ensures Closing(t, o, dismissed)
  {
    hide IsStored, LogOf;
  }

  lemma NewIsClosing(s: State, o: nat)
    requires IsStored(s, o) && NeverClosed(LogOf(s.calls, o))
    ensures Closing(s, o, false)
  {
  }

  lemma {:induction false} NotYetDismissed(es: seq<Event>, n: nat, o: nat)
    requires n <= |es|
    ensures o >= |Run(es, n).calls| ==> !Dismissed(es, n, o)
  {
    hide Step, Dismisses;
    if n > 0 && o >= |Run(es, n).calls| {
      AlwaysTidy(es, n - 1);
      StepReports(Run(es, n - 1), es[n - 1]);
      NotYetDismissed(es, n - 1, o);
      DismissedNext(es, n - 1, o);
      UncreatedIsNotDismissed(Run(es, n - 1), es[n - 1], o);
    }
  }

  lemma UncreatedIsNotDismissed(s: State, e: Event, o: nat)
    requires Tidy(s) && o >= |s.calls|
    ensures !Dismisses(s, e, o)
  {
  }

  lemma {:induction false} AlwaysClosing(es: seq<Event>, n: nat, o: nat)
    requires n <= |es|
    ensures o < |Run(es, n).calls| ==> Closing(Run(es, n), o, Dismissed(es, n, o))
  {
    hide Step, Closing, Dismisses, Dismissed, IsStored, NeverClosed, LogOf, OnlyFresh, Accounts;
    if n > 0 && o < |Run(es, n).calls| {
      var s, e := Run(es, n - 1), es[n - 1];
      AlwaysTidy(es, n - 1);
      DismissedNext(es, n - 1, o);
      if o < |s.calls| {
        AlwaysClosing(es, n - 1, o);
        StepCloses(s, e, o, Dismissed(es, n - 1, o));
      } else {
        NotYetDismissed(es, n - 1, o);
        UncreatedIsNotDismissed(s, e, o);
        StepCreatesOpen(s, e);
        NewIsClosing(Run(es, n), o);
      }
    }
  }

  predicate ClosedAsDismissed(s: State, o: nat, dismissed: bool) {
    var log := LogOf(s.calls, o);
    && (IsStored(s, o) ==> (WasClosed(log) <==> dismissed))
    && (!IsStored(s, o) ==> (CalledAfterClose(log) <==> dismissed))
    && (!IsStored(s, o) && !dismissed ==> ClosedLast(log))
  }

  /** In every run, for every connection ever created: while it is stored it has been closed exactly when its
      peer left or was disconnected from; once it is removed it is closed, and something was called on it
      after a Close exactly in that case. Otherwise its one Close was its last call. */
  lemma CalledAfterCloseExactlyWhen(es: seq<Event>, n: nat, o: nat)
    requires n <= |es|
    ensures o < |Run(es, n).calls| ==> ClosedAsDismissed(Run(es, n), o, Dismissed(es, n, o))
  {
    hide Step, Dismissed, IsStored;
    AlwaysClosing(es, n, o);
  }

  /** It does happen: an offer, a leave and another offer set a description on, and answer from, a
      connection that was closed. */
  lemma OfferAfterLeave(offer: SignalMessage, leave: SignalMessage)
    requires offer.kind == OFFER && offer.sdp.Some? && leave.kind == LEAVE && leave.from == offer.from
    ensures var es := [Signal(offer, true, true), Signal(leave, true, true), Signal(offer, true, true)];
            var described := Call.SetRemoteDescription("offer", offer.sdp.value, true);
            Run(es, 3).calls == [[described, CreateAnswer, Close, described, CreateAnswer]]
  {
    var es := [Signal(offer, true, true), Signal(leave, true, true), Signal(offer, true, true)];
    var p := offer.from;
    var described := Call.SetRemoteDescription("offer", offer.sdp.value, true);
    assert Adds([]) == [];
    var more := [described] + (Adds([]) + [CreateAnswer]);
    assert more == [described, CreateAnswer] && [] + more == more;
    var once := START.(connections := map[p := Some(0)], remoteSet := map[p := true], calls := [more]);
    FirstOffer(offer);
    assert Run(es, 1) == once;
    var left := once.(remoteSet := map[], calls := [more + [Close]]);
    assert map[p := true] - {p} == map[];
    assert Step(once, es[1]) == Leave(once, p);
    assert Run(es, 2) == left;
    assert Step(left, es[2]) == Describe(left, p, "offer", offer.sdp.value, true);
    assert more + [Close] + more == [described, CreateAnswer, Close, described, CreateAnswer];
  }

  lemma FirstOffer(offer: SignalMessage)
    requires offer.kind == OFFER && offer.sdp.Some?
    ensures var described := Call.SetRemoteDescription("offer", offer.sdp.value, true);
            Step(START, Signal(offer, true, true)) ==
            START.(connections := map[offer.from := Some(0)], remoteSet := map[offer.from := true],
                   calls := [[described, CreateAnswer]])
  {
    var p := offer.from;
    var t := GetOrCreate(START, p, true);
    var described := Call.SetRemoteDescription("offer", offer.sdp.value, true);
    assert t == START.(connections := map[p := Some(0)], remoteSet := map[p := false], calls := [[]]);
    assert Adds([]) == [] && [described] + ([] + [CreateAnswer]) == [described, CreateAnswer];
    assert [] + [described, CreateAnswer] == [described, CreateAnswer];
    assert Step(START, Signal(offer, true, true)) == Describe(t, p, "offer", offer.sdp.value, true);
  }
}
