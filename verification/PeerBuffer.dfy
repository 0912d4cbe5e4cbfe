/** The buffer of remote candidates, over every run of the manager. For each stored connection, since it
    was created or since the last LEAVE of its peer, the candidates handed to it followed by the queue are
    the complete CANDIDATE messages of the peer in order of arrival. */
module PeerBuffer {
  import opened Wrappers
  import opened Signaling
  import opened PeerManager
  import opened PeerLifecycle
  import opened PeerBookkeeping

  // ----- what a connection has seen -----

  /** The candidates handed over, in order. */
  function Delivered(log: seq<Call>): seq<PendingRemoteCandidate> {
    if log == [] then []
    else
      var last := log[|log| - 1];
      Delivered(log[..|log| - 1]) + (if last.AddRemoteCandidate? then [last.candidate] else [])
  }

  predicate Describes(c: Call) {
    c.SetRemoteDescription? && c.accepted
  }

  /** A remote description was set. */
  predicate Described(log: seq<Call>) {
    exists i | 0 <= i < |log| :: Describes(log[i])
  }

  /** No candidate is handed over before a remote description was set. */
  predicate InOrder(log: seq<Call>) {
    forall i | 0 <= i < |log| && log[i].AddRemoteCandidate? :: Described(log[..i])
  }

  predicate Buffered(window: seq<Call>, pending: seq<PendingRemoteCandidate>, flag: bool,
                     received: seq<PendingRemoteCandidate>)
  {
    && Delivered(window) + pending == received
    && InOrder(window)
    && (flag <==> Described(window))
    && (flag ==> pending == [])
  }

  lemma OneMoreDescribed(log: seq<Call>, c: Call)
    ensures Described(log + [c]) <==> Described(log) || Describes(c)
  {
    var more := log + [c];
    if Described(log) {
      var i :| 0 <= i < |log| && Describes(log[i]);
      assert Describes(more[i]);
    }
    if Describes(c) {
      assert Describes(more[|log|]);
    }
  }

  lemma OneMoreInOrder(log: seq<Call>, c: Call)
    ensures InOrder(log + [c]) <==> InOrder(log) && (c.AddRemoteCandidate? ==> Described(log))
  {
    hide Described;
    var more := log + [c];
    assert forall i | 0 <= i <= |log| :: more[..i] == log[..i];
    assert log[..|log|] == log && more[|log|] == c;
    if InOrder(more) {
      forall i | 0 <= i < |log| && log[i].AddRemoteCandidate? ensures Described(log[..i]) {
        assert more[i].AddRemoteCandidate?;
      }
    }
  }

  lemma OneMoreCall(log: seq<Call>, c: Call)
    ensures Delivered(log + [c]) == Delivered(log) + (if c.AddRemoteCandidate? then [c.candidate] else [])
    ensures Described(log + [c]) <==> Described(log) || Describes(c)
    ensures InOrder(log + [c]) <==> InOrder(log) && (c.AddRemoteCandidate? ==> Described(log))
  {
    hide Described, InOrder;
    var more := log + [c];
    assert more[..|more| - 1] == log;
    OneMoreDescribed(log, c);
    OneMoreInOrder(log, c);
  }

  lemma {:induction false} Flushed(log: seq<Call>, cs: seq<PendingRemoteCandidate>)
    requires InOrder(log) && Described(log)
    ensures Delivered(log + Adds(cs)) == Delivered(log) + cs
    ensures InOrder(log + Adds(cs)) && Described(log + Adds(cs))
  {
    hide Delivered, Described, InOrder;
    if cs == [] {
      assert log + Adds(cs) == log;
    } else {
      var front, last := cs[..|cs| - 1], cs[|cs| - 1];
      Flushed(log, front);
      OneMoreCall(log + Adds(front), AddRemoteCandidate(last));
      assert log + Adds(cs) == log + Adds(front) + [AddRemoteCandidate(last)];
      assert cs == front + [last];
    }
  }

  lemma SetWindow(window: seq<Call>, c: Call, cs: seq<PendingRemoteCandidate>, flag: bool,
                  received: seq<PendingRemoteCandidate>)
    requires Buffered(window, cs, flag, received) && Describes(c)
    ensures Delivered(window + [c]) + cs == received && InOrder(window + [c]) && Described(window + [c])
  {
    hide Delivered, Described, InOrder;
    OneMoreCall(window, c);
    assert Delivered(window) + [] == Delivered(window);
  }

  lemma FlushedWindow(window: seq<Call>, cs: seq<PendingRemoteCandidate>, received: seq<PendingRemoteCandidate>)
    requires Delivered(window) + cs == received && InOrder(window) && Described(window)
    ensures Buffered(window + Adds(cs), [], true, received)
  {
    hide Delivered, Described, InOrder;
    Flushed(window, cs);
    assert received + [] == received;
  }

  lemma Regroup<T>(a: seq<T>, b: seq<T>, c: seq<T>, d: seq<T>)
    ensures a + (b + (c + d)) == a + b + c + d
  {
  }

  /** Setting a description and flushing hands over the whole queue, after the description. */
  lemma DescribedWindow(window: seq<Call>, described: Call, cs: seq<PendingRemoteCandidate>, answer: seq<Call>,
                        flag: bool, received: seq<PendingRemoteCandidate>)
    requires Buffered(window, cs, flag, received) && Describes(described) && (answer == [] || answer == [CreateAnswer])
    ensures Buffered(window + ([described] + (Adds(cs) + answer)), [], true, received)
  {
    hide Delivered, Described, InOrder, Adds;
    var flushed := window + [described] + Adds(cs);
    SetWindow(window, described, cs, flag, received);
    FlushedWindow(window + [described], cs, received);
    NeutralWindow(flushed, CreateAnswer, [], true, received);
    assert flushed + [] == flushed;
    Regroup(window, [described], Adds(cs), answer);
  }

  lemma NeutralWindow(window: seq<Call>, c: Call, cs: seq<PendingRemoteCandidate>, flag: bool,
                      received: seq<PendingRemoteCandidate>)
    requires Buffered(window, cs, flag, received) && !c.AddRemoteCandidate? && !Describes(c)
    ensures Buffered(window + [c], cs, flag, received)
  {
    OneMoreCall(window, c);
    assert Delivered(window) + [] == Delivered(window);
  }

  lemma AcceptedWindow(window: seq<Call>, c: PendingRemoteCandidate, cs: seq<PendingRemoteCandidate>, flag: bool,
                       received: seq<PendingRemoteCandidate>)
    requires Buffered(window, cs, flag, received)
    ensures if flag then Buffered(window + [AddRemoteCandidate(c)], cs, flag, received + [c])
            else Buffered(window, cs + [c], flag, received + [c])
  {
    OneMoreCall(window, AddRemoteCandidate(c));
    assert Delivered(window) + (cs + [c]) == Delivered(window) + cs + [c];
    assert flag ==> Delivered(window) + [c] + cs == Delivered(window) + cs + [c];
  }

  lemma EmptyWindow(window: seq<Call>)
    requires window == [] || window == [CreateOffer]
    ensures Buffered(window, [], false, [])
  {
    OneMoreCall([], CreateOffer);
    assert [] + [CreateOffer] == [CreateOffer];
  }

  // ----- one step -----

  /** Since call number `mark` on its connection, peer `p` sent `received`, and its buffer is right. */
  predicate Right(s: State, p: PeerId, mark: nat, received: seq<PendingRemoteCandidate>) {
    && Stored(s, p).Some?
    && mark <= |LogOf(s.calls, Stored(s, p).value)|
    && Buffered(LogOf(s.calls, Stored(s, p).value)[mark..], Pending(s, p), Flag(s, p), received)
  }

  lemma OwnLog(s: State, p: PeerId, more: seq<Call>, mark: nat)
    requires Tidy(s) && Stored(s, p).Some? && mark <= |LogOf(s.calls, Stored(s, p).value)|
    ensures var o := Stored(s, p).value;
            && LogOf(Log(s.calls, Some(o), more), o) == LogOf(s.calls, o) + more
            && (LogOf(s.calls, o) + more)[mark..] == LogOf(s.calls, o)[mark..] + more
  {
  }

  lemma CreateBuffers(s: State, p: PeerId)
    requires p !in s.connections
    ensures Right(GetOrCreate(s, p, true), p, 0, [])
  {
    EmptyWindow([]);
  }

  lemma ConnectBuffers(s: State, p: PeerId)
    requires Tidy(s) && s.app == Running && p !in s.connections
    ensures Right(Connect(s, p, true), p, 0, [])
  {
    EmptyWindow([CreateOffer]);
  }

  lemma CloseBuffers(s: State, p: PeerId, mark: nat, received: seq<PendingRemoteCandidate>)
    requires Tidy(s) && Right(s, p, mark, received)
    ensures Right(s.(calls := Log(s.calls, Stored(s, p), [Close])), p, mark, received)
  {
    var o := Stored(s, p).value;
    OwnLog(s, p, [Close], mark);
    NeutralWindow(LogOf(s.calls, o)[mark..], Close, Pending(s, p), Flag(s, p), received);
  }

  lemma LeaveBuffers(s: State, p: PeerId)
    requires Tidy(s) && Stored(s, p).Some?
    ensures Right(Leave(s, p), p, |LogOf(Leave(s, p).calls, Stored(s, p).value)|, [])
  {
    EmptyWindow([]);
  }

  /** The connection of `p` logged `more`, and its buffer is right for the longer log. */
  lemma LoggedBuffers(s: State, t: State, p: PeerId, more: seq<Call>, mark: nat, received: seq<PendingRemoteCandidate>)
    requires Tidy(s) && Stored(s, p).Some? && mark <= |LogOf(s.calls, Stored(s, p).value)|
    requires Stored(t, p) == Stored(s, p) && t.calls == Log(s.calls, Stored(s, p), more)
    requires Buffered(LogOf(s.calls, Stored(s, p).value)[mark..] + more, Pending(t, p), Flag(t, p), received)
    ensures Right(t, p, mark, received)
  {
    hide Buffered;
    OwnLog(s, p, more, mark);
  }

  lemma DescribeBuffers(s: State, p: PeerId, kind: string, sdp: string, accepts: bool, mark: nat,
                        received: seq<PendingRemoteCandidate>)
    requires Tidy(s) && Right(s, p, mark, received)
    ensures Right(Describe(s, p, kind, sdp, accepts), p, mark, received)
  {
    hide Buffered, Adds;
    var t := Describe(s, p, kind, sdp, accepts);
    var window := LogOf(s.calls, Stored(s, p).value)[mark..];
    var answer := if kind == "offer" then [CreateAnswer] else [];
    var described := Call.SetRemoteDescription(kind, sdp, accepts);
    var more := [described] + (if accepts then Adds(Pending(s, p)) + answer else []);
    if accepts {
      DescribedWindow(window, described, Pending(s, p), answer, Flag(s, p), received);
    } else {
      assert more == [described];
      NeutralWindow(window, described, Pending(s, p), Flag(s, p), received);
    }
    LoggedBuffers(s, t, p, more, mark, received);
  }

  lemma AcceptBuffers(s: State, p: PeerId, c: PendingRemoteCandidate, mark: nat, received: seq<PendingRemoteCandidate>)
    requires Tidy(s) && Right(s, p, mark, received)
    ensures Right(Accept(s, p, c), p, mark, received + [c])
  {
    OwnLog(s, p, [AddRemoteCandidate(c)], mark);
    AcceptedWindow(LogOf(s.calls, Stored(s, p).value)[mark..], c, Pending(s, p), Flag(s, p), received);
  }

  /** What a message adds to the candidates received from its sender. */
  function Sends(m: SignalMessage): seq<PendingRemoteCandidate> {
    if m.kind == CANDIDATE && FullCandidate(m) then [CandidateOf(m)] else []
  }

  lemma DeliverBuffers(s: State, m: SignalMessage, accepts: bool, mark: nat, received: seq<PendingRemoteCandidate>)
    requires Tidy(s) && Right(s, m.from, mark, received)
    ensures Right(Deliver(s, m, accepts), m.from, mark, received + Sends(m))
  {
    hide Right;
    assert received + [] == received;
    match m.kind
    case OFFER => if m.sdp.Some? { DescribeBuffers(s, m.from, "offer", m.sdp.value, accepts, mark, received); }
    case ANSWER => if m.sdp.Some? { DescribeBuffers(s, m.from, "answer", m.sdp.value, accepts, mark, received); }
    case CANDIDATE => if FullCandidate(m) { AcceptBuffers(s, m.from, CandidateOf(m), mark, received); }
    case _ =>
  }

  predicate Leaves(s: State, e: Event, p: PeerId) {
    e.Signal? && e.message.kind == LEAVE && e.message.from == p && Stored(s, p).Some?
  }

  /** The peer's connection was created or removed, or the peer left. */
  predicate StartsPeriod(s: State, e: Event, p: PeerId) {
    Leaves(s, e, p) || Stored(Step(s, e), p) != Stored(s, p)
  }

  function NextReceived(s: State, e: Event, p: PeerId, received: seq<PendingRemoteCandidate>)
    : seq<PendingRemoteCandidate>
  {
    (if StartsPeriod(s, e, p) then [] else received)
    + (if e.Signal? && e.message.from == p then Sends(e.message) else [])
  }

  function NextMark(s: State, e: Event, p: PeerId, mark: nat): nat {
    if Stored(Step(s, e), p) != Stored(s, p) then 0
    else if Leaves(s, e, p) then |LogOf(Step(s, e).calls, Stored(s, p).value)|
    else mark
  }

  /** The complete CANDIDATE messages of the peer in its current period, in order of arrival. */
  function Received(es: seq<Event>, n: nat, p: PeerId): seq<PendingRemoteCandidate>
    requires n <= |es|
  {
    if n == 0 then [] else NextReceived(Run(es, n - 1), es[n - 1], p, Received(es, n - 1, p))
  }

  /** Where the period begins in the log of the peer's connection: at its creation, or after the last LEAVE. */
  function Mark(es: seq<Event>, n: nat, p: PeerId): nat
    requires n <= |es|
  {
    if n == 0 then 0 else NextMark(Run(es, n - 1), es[n - 1], p, Mark(es, n - 1, p))
  }

  /** If the peer has a connection, its buffer is right. */
  predicate RightIfStored(s: State, p: PeerId, mark: nat, received: seq<PendingRemoteCandidate>) {
    Stored(s, p).Some? ==> Right(s, p, mark, received)
  }

  predicate KeepsRight(s: State, e: Event, p: PeerId, mark: nat, received: seq<PendingRemoteCandidate>) {
    RightIfStored(Step(s, e), p, NextMark(s, e, p, mark), NextReceived(s, e, p, received))
  }

  lemma UntouchedBuffers(s: State, e: Event, p: PeerId, mark: nat, received: seq<PendingRemoteCandidate>)
    requires RightIfStored(s, p, mark, received) && Untouched(s, Step(s, e), p) && (e.Signal? ==> e.message.from != p)
    ensures KeepsRight(s, e, p, mark, received)
  {
    hide Step, Buffered;
    assert Stored(Step(s, e), p) == Stored(s, p) && Pending(Step(s, e), p) == Pending(s, p) &&
           Flag(Step(s, e), p) == Flag(s, p);
    assert received + [] == received;
  }

  lemma LifecycleBuffers(s: State, e: Event, p: PeerId, mark: nat, received: seq<PendingRemoteCandidate>)
    requires IsLifecycle(e) && RightIfStored(s, p, mark, received)
    ensures KeepsRight(s, e, p, mark, received)
  {
    hide Buffered, Lifecycle;
    LifecycleUntouched(s, e, p);
    LifecycleIsStep(s, e);
    if Stored(Step(s, e), p) != None {
      UntouchedBuffers(s, e, p, mark, received);
    }
  }

  lemma SweepBuffers(s: State, e: Event, p: PeerId, mark: nat, received: seq<PendingRemoteCandidate>)
    requires e.HeartbeatTimer? && Tidy(s) && RightIfStored(s, p, mark, received)
    ensures KeepsRight(s, e, p, mark, received)
  {
    hide Buffered, Sweep, Silent;
    SweepExactly(s, e.now, e.intervalMs, e.connected, p);
    assert Step(s, e) == Sweep(s, e.now, e.intervalMs, e.connected);
    if !Silent(s, p, e.now, e.intervalMs, e.connected) {
      UntouchedBuffers(s, e, p, mark, received);
    }
  }

  /** The message was for a connection that is there already. */
  lemma SignalStored(s: State, e: Event, p: PeerId, mark: nat, received: seq<PendingRemoteCandidate>)
    requires e.Signal? && e.message.from == p && p in s.connections && Tidy(s) && RightIfStored(s, p, mark, received)
    ensures KeepsRight(s, e, p, mark, received)
  {
    hide Buffered, Deliver;
    var m := e.message;
    assert received + [] == received;
    if m.kind == LEAVE {
      LeaveBuffers(s, p);
      LeaveStoresNothing(s, p);
      assert Step(s, e) == Leave(s, p) && NextReceived(s, e, p, received) == [];
    } else if m.kind != JOIN && m.kind != UNKNOWN {
      DeliverBuffers(s, m, e.accepts, mark, received);
      DeliverStoresNothing(s, m, e.accepts);
      assert Step(s, e) == Deliver(s, m, e.accepts);
    }
  }

  /** The message has to create the connection first. */
  lemma SignalCreates(s: State, e: Event, p: PeerId, mark: nat, received: seq<PendingRemoteCandidate>)
    requires e.Signal? && e.message.from == p && p !in s.connections && Tidy(s)
    ensures KeepsRight(s, e, p, mark, received)
  {
    hide Buffered, Deliver;
    var m := e.message;
    if m.kind != LEAVE && m.kind != JOIN && m.kind != UNKNOWN && e.creates {
      var t := GetOrCreate(s, p, true);
      CreateBuffers(s, p);
      CreateKeepsTidy(s, p, true);
      DeliverBuffers(t, m, e.accepts, 0, []);
      DeliverStoresNothing(t, m, e.accepts);
      assert Step(s, e) == Deliver(t, m, e.accepts);
    }
  }

  lemma StepBuffers(s: State, e: Event, p: PeerId, mark: nat, received: seq<PendingRemoteCandidate>)
    requires Tidy(s) && RightIfStored(s, p, mark, received)
    ensures KeepsRight(s, e, p, mark, received)
  {
    if IsLifecycle(e) {
      LifecycleBuffers(s, e, p, mark, received);
    } else if e.HeartbeatTimer? {
      SweepBuffers(s, e, p, mark, received);
    } else if PeerOf(e) != p {
      StepElsewhere(s, e, p);
      UntouchedBuffers(s, e, p, mark, received);
    } else {
      OwnStepBuffers(s, e, p, mark, received);
    }
  }

  lemma OwnStepBuffers(s: State, e: Event, p: PeerId, mark: nat, received: seq<PendingRemoteCandidate>)
    requires Tidy(s) && RightIfStored(s, p, mark, received) && !IsLifecycle(e) && !e.HeartbeatTimer? && PeerOf(e) == p
    ensures KeepsRight(s, e, p, mark, received)
  {
    hide Buffered, HandleSignal;
    assert received + [] == received;
    match e
    case ConnectToPeer(_, creates) =>
      if s.app == Running && p !in s.connections {
        ConnectBuffers(s, p);
        assert creates ==> Step(s, e) == Connect(s, p, true) && NextReceived(s, e, p, received) == [];
      }
    case DisconnectFromPeer(_) =>
      if Stored(s, p).Some? {
        CloseBuffers(s, p, mark, received);
      }
    case Signal(m, creates, accepts) =>
      if p in s.connections {
        SignalStored(s, e, p, mark, received);
      } else {
        SignalCreates(s, e, p, mark, received);
      }
    case StateChange(_, state) =>
    case HeartbeatReceived(_, now, intervalMs) =>
  }

  lemma {:induction false} AlwaysRight(es: seq<Event>, n: nat, p: PeerId)
    requires n <= |es|
    ensures RightIfStored(Run(es, n), p, Mark(es, n, p), Received(es, n, p))
  {
    hide Step, Right, NextMark, NextReceived;
    if n > 0 {
      AlwaysRight(es, n - 1, p);
      AlwaysTidy(es, n - 1);
      StepBuffers(Run(es, n - 1), es[n - 1], p, Mark(es, n - 1, p), Received(es, n - 1, p));
    }
  }

  /** In every run, for every peer with a connection: what the connection was handed since the period began,
      followed by the queue, is what the peer sent in the period, in order; nothing is handed over before a
      remote description was set in the period; the flag says whether one was, and then nothing is queued. */
  lemma BufferIsCorrect(es: seq<Event>, n: nat, p: PeerId)
    requires n <= |es| && Stored(Run(es, n), p).Some?
    ensures var s := Run(es, n);
            var log := LogOf(s.calls, Stored(s, p).value);
            && Mark(es, n, p) <= |log|
            && var period := log[Mark(es, n, p)..];
            && Delivered(period) + Pending(s, p) == Received(es, n, p)
            && (forall i | 0 <= i < |period| && period[i].AddRemoteCandidate? :: Described(period[..i]))
            && (Flag(s, p) <==> Described(period))
            && (Flag(s, p) ==> Pending(s, p) == [])
  {
    hide Step;
    AlwaysRight(es, n, p);
  }
}
