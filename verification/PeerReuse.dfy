/** When the manager goes on using a connection that it closed. */
module PeerReuse {
  import opened Wrappers
  import opened Signaling
  import opened PeerManager
  import opened PeerLifecycle
  import opened PeerBookkeeping
  import opened PeerClosing

  /** Something other than another Close was called after a Close. */
  predicate UsedAfterClose(log: seq<Call>) {
    exists i, j | 0 <= i < j < |log| :: log[i] == Close && log[j] != Close
  }

  /** The message has something for the connection stored for its sender: a description to set, or a
      complete candidate that need not wait for one. */
  predicate Uses(s: State, e: Event, o: nat) {
    && e.Signal? && Stored(s, e.message.from) == Some(o)
    && (|| ((e.message.kind == OFFER || e.message.kind == ANSWER) && e.message.sdp.Some?)
        || (e.message.kind == CANDIDATE && FullCandidate(e.message) && Flag(s, e.message.from)))
  }

  // ----- one step -----

  /** The step calls the connection other than to close it exactly when the message uses it. */
  predicate Employs(s: State, e: Event, t: State, o: nat) {
    var before, after := LogOf(s.calls, o), LogOf(t.calls, o);
    if Uses(s, e, o) then GrewOpen(before, after) && |before| < |after|
    else after == before || after == before + [Close]
  }

  lemma DescribeEmploys(s: State, p: PeerId, kind: string, sdp: string, accepts: bool)
    requires Tidy(s) && Stored(s, p).Some?
    ensures var o := Stored(s, p).value;
            |LogOf(s.calls, o)| < |LogOf(Describe(s, p, kind, sdp, accepts).calls, o)|
  {
    hide Adds, Tidy, LogOf;
    var answer := if kind == "offer" then [CreateAnswer] else [];
    var flush := if accepts then Adds(Pending(s, p)) + answer else [];
    OwnLogGrows(s, p, [Call.SetRemoteDescription(kind, sdp, accepts)] + flush);
  }

  lemma AcceptEmploys(s: State, p: PeerId, c: PendingRemoteCandidate)
    requires Tidy(s) && Stored(s, p).Some?
    ensures var o := Stored(s, p).value;
            LogOf(Accept(s, p, c).calls, o) == LogOf(s.calls, o) + (if Flag(s, p) then [AddRemoteCandidate(c)] else [])
  {
    hide Tidy, LogOf;
    OwnLogGrows(s, p, [AddRemoteCandidate(c)]);
    assert LogOf(s.calls, Stored(s, p).value) + [] == LogOf(s.calls, Stored(s, p).value);
  }

  lemma DeliverEmploys(s: State, m: SignalMessage, accepts: bool, o: nat)
    requires Tidy(s) && Stored(s, m.from) == Some(o)
    ensures var before, after := LogOf(s.calls, o), LogOf(Deliver(s, m, accepts).calls, o);
            if Uses(s, Signal(m, true, accepts), o) then GrewOpen(before, after) && |before| < |after|
            else after == before
  {
    hide Describe, Accept, GrewOpen, LogOf, Tidy;
    DeliverTreats(s, m, accepts);
    assert LogOf(s.calls, o) + [] == LogOf(s.calls, o);
    match m.kind
    case OFFER => if m.sdp.Some? { DescribeEmploys(s, m.from, "offer", m.sdp.value, accepts); }
    case ANSWER => if m.sdp.Some? { DescribeEmploys(s, m.from, "answer", m.sdp.value, accepts); }
    case CANDIDATE => if FullCandidate(m) { AcceptEmploys(s, m.from, CandidateOf(m)); }
    case _ =>
  }

  lemma SignalEmploys(s: State, e: Event, p: PeerId, o: nat)
    requires e.Signal? && e.message.from == p && Tidy(s) && Stored(s, p) == Some(o)
    ensures Employs(s, e, Step(s, e), o)
  {
    hide Deliver, Leave, GrewOpen, LogOf, Tidy;
    var m := e.message;
    if m.kind == LEAVE {
      LeaveTreats(s, p);
      assert Step(s, e) == Leave(s, p);
    } else if m.kind != JOIN && m.kind != UNKNOWN {
      DeliverEmploys(s, m, e.accepts, o);
      assert Step(s, e) == Deliver(s, m, e.accepts);
    } else {
      assert Step(s, e) == s;
    }
  }

  lemma OnlyOwnMessagesUse(s: State, e: Event, p: PeerId, o: nat)
    requires Tidy(s) && Stored(s, p) == Some(o) && !(e.Signal? && e.message.from == p)
    ensures !Uses(s, e, o)
  {
  }

  lemma UntouchedEmploys(s: State, e: Event, p: PeerId, o: nat)
    requires Tidy(s) && Stored(s, p) == Some(o) && Untouched(s, Step(s, e), p) && !(e.Signal? && e.message.from == p)
    ensures Employs(s, e, Step(s, e), o)
  {
    hide Step, Uses;
    OnlyOwnMessagesUse(s, e, p, o);
  }

  /** A step that removes the connection closes it and does nothing else to it. */
  lemma RemovalEmploys(s: State, e: Event, p: PeerId, o: nat)
    requires Tidy(s) && Stored(s, p) == Some(o) && Stored(Step(s, e), p) != Some(o)
    requires !(e.Signal? && e.message.from == p)
    ensures Employs(s, e, Step(s, e), o)
  {
    hide Step, Uses, Dismisses;
    OnlyOwnMessagesUse(s, e, p, o);
    StepTreats(s, e, p, o);
  }

  lemma LifecycleEmploys(s: State, e: Event, p: PeerId, o: nat)
    requires IsLifecycle(e) && Tidy(s) && Stored(s, p) == Some(o)
    ensures Employs(s, e, Step(s, e), o)
  {
    hide Lifecycle, Employs, Untouched, Tidy;
    LifecycleIsStep(s, e);
    LifecycleUntouched(s, e, p);
    if Untouched(s, Step(s, e), p) {
      UntouchedEmploys(s, e, p, o);
    } else {
      RemovalEmploys(s, e, p, o);
    }
  }

  lemma SweepEmploys(s: State, e: Event, p: PeerId, o: nat)
    requires e.HeartbeatTimer? && Tidy(s) && Stored(s, p) == Some(o)
    ensures Employs(s, e, Step(s, e), o)
  {
    hide Sweep, Silent, Employs, Tidy;
    SweepExactly(s, e.now, e.intervalMs, e.connected, p);
    assert Step(s, e) == Sweep(s, e.now, e.intervalMs, e.connected);
    if Silent(s, p, e.now, e.intervalMs, e.connected) {
      RemovalEmploys(s, e, p, o);
    } else {
      assert LogOf(s.calls, o) + [] == LogOf(s.calls, o);
      UntouchedEmploys(s, e, p, o);
    }
  }

  lemma OwnEmploys(s: State, e: Event, p: PeerId, o: nat)
    requires !IsLifecycle(e) && !e.HeartbeatTimer? && PeerOf(e) == p && Tidy(s) && Stored(s, p) == Some(o)
    ensures Employs(s, e, Step(s, e), o)
  {
    hide GrewOpen, HandleSignal, LogOf, Tidy;
    match e
    case Signal(_, _, _) => SignalEmploys(s, e, p, o);
    case ConnectToPeer(_, _) => assert Step(s, e) == s;
    case DisconnectFromPeer(_) => OwnLogGrows(s, p, [Close]);
    case StateChange(_, state) =>
      if Dead(state) {
        OwnLogGrows(s, p, [Close]);
      } else {
        assert Step(s, e) == s;
      }
    case HeartbeatReceived(_, _, _) =>
  }

  lemma StepEmploys(s: State, e: Event, p: PeerId, o: nat)
    requires Tidy(s) && Stored(s, p) == Some(o)
    ensures Employs(s, e, Step(s, e), o)
  {
    hide Step, Employs, Tidy;
    if IsLifecycle(e) {
      LifecycleEmploys(s, e, p, o);
    } else if e.HeartbeatTimer? {
      SweepEmploys(s, e, p, o);
    } else if PeerOf(e) == p {
      OwnEmploys(s, e, p, o);
    } else {
      StepElsewhere(s, e, p);
      UntouchedEmploys(s, e, p, o);
    }
  }

  // ----- every run -----

  /** Before event `n` a message used the connection after its peer had left or been disconnected from. */
  predicate UsedDismissed(es: seq<Event>, n: nat, o: nat)
    requires n <= |es|
  {
    exists j: nat | j < n :: Dismissed(es, j, o) && Uses(Run(es, j), es[j], o)
  }

  lemma UsedDismissedNext(es: seq<Event>, n: nat, o: nat)
    requires n < |es|
    ensures UsedDismissed(es, n + 1, o) <==>
            UsedDismissed(es, n, o) || (Dismissed(es, n, o) && Uses(Run(es, n), es[n], o))
  {
    hide Step, Uses, Dismissed, Run;
  }

  lemma DismissedStays(es: seq<Event>, m: nat, n: nat, o: nat)
    requires m <= n <= |es|
    ensures Dismissed(es, m, o) ==> Dismissed(es, n, o)
  {
    hide Step, Dismisses, Run;
  }

  lemma UsedMore(before: seq<Call>, after: seq<Call>)
    ensures GrewOpen(before, after) && |before| < |after| ==>
              (UsedAfterClose(after) <==> UsedAfterClose(before) || WasClosed(before))
    ensures after == before + [Close] ==> (UsedAfterClose(after) <==> UsedAfterClose(before))
  {
    if before <= after {
      assert forall i | 0 <= i < |before| :: after[i] == before[i];
      assert forall i | |before| <= i < |after| :: after[i] == after[|before|..][i - |before|];
      if i: nat, j: nat :| i < j < |before| && before[i] == Close && before[j] != Close {
        assert after[i] == Close && after[j] != Close;
      }
      if i: nat :| i < |before| && before[i] == Close {
        assert after[i] == Close && (|before| < |after| && GrewOpen(before, after) ==> after[|before|] != Close);
      }
      if i: nat, j: nat :| i < j < |after| && after[i] == Close && after[j] != Close {
        assert i < |before| ==> before[i] == Close;
        assert j < |before| ==> before[j] != Close;
      }
    }
  }

  lemma StoredIsUsed(s: State, e: Event, o: nat)
    requires Tidy(s) && IsStored(s, o)
    ensures UsedAfterClose(LogOf(Step(s, e).calls, o)) <==>
            UsedAfterClose(LogOf(s.calls, o)) || (WasClosed(LogOf(s.calls, o)) && Uses(s, e, o))
  {
    hide Step, Uses, UsedAfterClose, WasClosed, GrewOpen, LogOf, IsStored, Tidy;
    var p := StoredFor(s, o);
    StepEmploys(s, e, p, o);
    UsedMore(LogOf(s.calls, o), LogOf(Step(s, e).calls, o));
  }

  lemma RemovedIsNotUsed(s: State, e: Event, o: nat)
    requires !IsStored(s, o)
    ensures !Uses(s, e, o)
  {
    if e.Signal? && Stored(s, e.message.from) == Some(o) {
      StoredIs(s, e.message.from, o);
    }
  }

  lemma NewIsUnused(es: seq<Event>, n: nat, o: nat)
    requires n < |es|
    ensures |Run(es, n).calls| <= o ==> !UsedDismissed(es, n + 1, o)
    ensures |Run(es, n).calls| <= o < |Run(es, n + 1).calls| ==> !UsedAfterClose(LogOf(Run(es, n + 1).calls, o))
  {
    hide Step, Uses, Dismissed, LogOf, IsStored, Tidy;
    AlwaysTidy(es, n);
    StepCreatesOpen(Run(es, n), es[n]);
    NotYetDismissed(es, n, o);
    if j: nat :| j <= n && Dismissed(es, j, o) {
      DismissedStays(es, j, n, o);
    }
  }

  /** In every run, for every connection ever created: something other than another Close was called on it
      after a Close exactly when, after its peer left or was disconnected from and with the connection still
      stored, the peer sent an offer or answer with a description, or a complete candidate while a
      description was flagged as set. */
  lemma {:induction false} UsedAfterCloseExactlyWhen(es: seq<Event>, n: nat, o: nat)
    requires n <= |es|
    ensures o < |Run(es, n).calls| ==> (UsedAfterClose(LogOf(Run(es, n).calls, o)) <==> UsedDismissed(es, n, o))
  {
    hide Step, Uses, Dismissed, UsedDismissed, UsedAfterClose, WasClosed, CalledAfterClose, ClosedLast;
    hide LogOf, IsStored, Tidy;
    if n > 0 {
      var s, e := Run(es, n - 1), es[n - 1];
      AlwaysTidy(es, n - 1);
      UsedDismissedNext(es, n - 1, o);
      if |s.calls| <= o {
        NewIsUnused(es, n - 1, o);
      } else {
        UsedAfterCloseExactlyWhen(es, n - 1, o);
        CalledAfterCloseExactlyWhen(es, n - 1, o);
        if IsStored(s, o) {
          StoredIsUsed(s, e, o);
        } else {
          StepMisses(s, e, o);
          RemovedIsNotUsed(s, e, o);
        }
      }
    }
  }

  /** A disconnect and a candidate are enough. */
  lemma CandidateAfterDisconnect(offer: SignalMessage, candidate: SignalMessage)
    requires offer.kind == OFFER && offer.sdp.Some?
    requires candidate.kind == CANDIDATE && FullCandidate(candidate) && candidate.from == offer.from
    ensures var es := [Signal(offer, true, true), DisconnectFromPeer(offer.from), Signal(candidate, true, true)];
            var described := Call.SetRemoteDescription("offer", offer.sdp.value, true);
            Run(es, 3).calls == [[described, CreateAnswer, Close, AddRemoteCandidate(CandidateOf(candidate))]]
  {
    var es := [Signal(offer, true, true), DisconnectFromPeer(offer.from), Signal(candidate, true, true)];
    var p, c := offer.from, CandidateOf(candidate);
    var described := Call.SetRemoteDescription("offer", offer.sdp.value, true);
    FirstOffer(offer);
    var once := START.(connections := map[p := Some(0)], remoteSet := map[p := true],
                       calls := [[described, CreateAnswer]]);
    assert Run(es, 1) == once;
    assert [described, CreateAnswer] + [Close] == [described, CreateAnswer, Close];
    var closed := once.(calls := [[described, CreateAnswer, Close]]);
    assert Run(es, 2) == closed;
    assert Step(closed, es[2]) == Accept(closed, p, c);
    assert [described, CreateAnswer, Close] + [AddRemoteCandidate(c)]
        == [described, CreateAnswer, Close, AddRemoteCandidate(c)];
  }
}
