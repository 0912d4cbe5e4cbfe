/** Offers and answers on every connection the manager ever created, over every run. */
module PeerAnswers {
  import opened Wrappers
  import opened Signaling
  import opened PeerManager

  datatype Debt = Settled | Owed | Broken

  predicate IsOffer(c: Call) {
    c.SetRemoteDescription? && c.accepted && c.kind == "offer"
  }

  /** Whether a log owes an answer. An accepted offer makes it owe one; until it is created, only
      candidates may be handed over; an answer that nobody is owed breaks the log. */
  function After(log: seq<Call>): Debt {
    if log == [] then Settled
    else
      var before, last := After(log[..|log| - 1]), log[|log| - 1];
      if before == Broken then Broken
      else if last.AddRemoteCandidate? then before
      else if last.CreateAnswer? then (if before == Owed then Settled else Broken)
      else if before == Owed then Broken
      else if IsOffer(last) then Owed else Settled
  }

  lemma OneMore(log: seq<Call>, c: Call)
    ensures After(log) == Settled && !IsOffer(c) && !c.CreateAnswer? ==> After(log + [c]) == Settled
    ensures After(log) == Settled && IsOffer(c) ==> After(log + [c]) == Owed
    ensures After(log) == Owed && c.CreateAnswer? ==> After(log + [c]) == Settled
    ensures After(log) != Broken && c.AddRemoteCandidate? ==> After(log + [c]) == After(log)
  {
    assert (log + [c])[..|log|] == log;
  }

  lemma {:induction false} FlushOwesTheSame(log: seq<Call>, cs: seq<PendingRemoteCandidate>)
    requires After(log) != Broken
    ensures After(log + Adds(cs)) == After(log)
  {
    if cs == [] {
      assert log + Adds(cs) == log;
    } else {
      var front, last := cs[..|cs| - 1], cs[|cs| - 1];
      FlushOwesTheSame(log, front);
      OneMore(log + Adds(front), AddRemoteCandidate(last));
      assert log + Adds(cs) == log + Adds(front) + [AddRemoteCandidate(last)];
    }
  }

  /** What Describe logs settles what it owes. */
  lemma DescribedSettles(log: seq<Call>, kind: string, sdp: string, accepts: bool, cs: seq<PendingRemoteCandidate>)
    requires After(log) == Settled
    ensures var answer := if kind == "offer" then [CreateAnswer] else [];
            var flush := if accepts then Adds(cs) + answer else [];
            After(log + ([Call.SetRemoteDescription(kind, sdp, accepts)] + flush)) == Settled
  {
    hide After, Adds;
    var c := Call.SetRemoteDescription(kind, sdp, accepts);
    OneMore(log, c);
    if accepts {
      var flushed := log + [c] + Adds(cs);
      FlushOwesTheSame(log + [c], cs);
      OneMore(flushed, CreateAnswer);
      assert log + ([c] + (Adds(cs) + [CreateAnswer])) == flushed + [CreateAnswer];
      assert log + ([c] + (Adds(cs) + [])) == flushed;
    } else {
      assert [c] + [] == [c];
    }
  }

  ghost predicate AllSettled(calls: seq<seq<Call>>) {
    forall o | 0 <= o < |calls| :: After(calls[o]) == Settled
  }

  lemma LogSettled(calls: seq<seq<Call>>, pc: Option<nat>, more: seq<Call>)
    requires AllSettled(calls) && (pc.Some? && pc.value < |calls| ==> After(calls[pc.value] + more) == Settled)
    ensures AllSettled(Log(calls, pc, more))
  {
    hide After;
  }

  lemma LogOneSettled(calls: seq<seq<Call>>, pc: Option<nat>, c: Call)
    requires AllSettled(calls) && !IsOffer(c) && !c.CreateAnswer?
    ensures AllSettled(Log(calls, pc, [c]))
  {
    if pc.Some? && pc.value < |calls| {
      OneMore(calls[pc.value], c);
    }
    LogSettled(calls, pc, [c]);
  }

  lemma CloseAllSettled(calls: seq<seq<Call>>, objects: set<nat>)
    requires AllSettled(calls)
    ensures AllSettled(CloseAll(calls, objects))
  {
    hide After;
    forall o | 0 <= o < |calls| ensures After(CloseAll(calls, objects)[o]) == Settled {
      OneMore(calls[o], Close);
    }
  }

  lemma NewSettled(calls: seq<seq<Call>>, log: seq<Call>)
    requires AllSettled(calls) && (log == [] || log == [CreateOffer])
    ensures AllSettled(calls + [log])
  {
    OneMore([], CreateOffer);
    assert [] + [CreateOffer] == [CreateOffer];
  }

  lemma DescribeSettles(s: State, p: PeerId, kind: string, sdp: string, accepts: bool)
    requires AllSettled(s.calls)
    ensures AllSettled(Describe(s, p, kind, sdp, accepts).calls)
  {
    hide After, AllSettled, Adds;
    var pc, cs := Stored(s, p), Pending(s, p);
    var answer := if kind == "offer" then [CreateAnswer] else [];
    var flush := if accepts then Adds(cs) + answer else [];
    if pc.Some? && pc.value < |s.calls| {
      SettledAt(s.calls, pc.value);
      DescribedSettles(s.calls[pc.value], kind, sdp, accepts, cs);
    }
    LogSettled(s.calls, pc, [Call.SetRemoteDescription(kind, sdp, accepts)] + flush);
  }

  lemma SettledAt(calls: seq<seq<Call>>, o: nat)
    requires AllSettled(calls) && o < |calls|
    ensures After(calls[o]) == Settled
  {
  }

  lemma DeliverSettles(s: State, m: SignalMessage, accepts: bool)
    requires AllSettled(s.calls)
    ensures AllSettled(Deliver(s, m, accepts).calls)
  {
    hide After, AllSettled, Describe;
    match m.kind
    case OFFER => if m.sdp.Some? { DescribeSettles(s, m.from, "offer", m.sdp.value, accepts); }
    case ANSWER => if m.sdp.Some? { DescribeSettles(s, m.from, "answer", m.sdp.value, accepts); }
    case CANDIDATE =>
      if FullCandidate(m) {
        LogOneSettled(s.calls, Stored(s, m.from), AddRemoteCandidate(CandidateOf(m)));
      }
    case _ =>
  }

  lemma SignalSettles(s: State, m: SignalMessage, creates: bool, accepts: bool)
    requires AllSettled(s.calls)
    ensures AllSettled(HandleSignal(s, m, creates, accepts).calls)
  {
    hide After, AllSettled, Deliver;
    NewSettled(s.calls, []);
    LogOneSettled(s.calls, Stored(s, m.from), Close);
    var t := GetOrCreate(s, m.from, creates);
    assert AllSettled(t.calls);
    DeliverSettles(t, m, accepts);
  }

  lemma StepSettles(s: State, e: Event)
    requires AllSettled(s.calls)
    ensures AllSettled(Step(s, e).calls)
  {
    hide After, AllSettled, HandleSignal;
    match e
    case ConnectToPeer(p, creates) => NewSettled(s.calls, [CreateOffer]);
    case DisconnectFromPeer(p) => LogOneSettled(s.calls, Stored(s, p), Close);
    case Signal(m, creates, accepts) => SignalSettles(s, m, creates, accepts);
    case StateChange(p, state) => if p in s.connections { LogOneSettled(s.calls, s.connections[p], Close); }
    case HeartbeatReceived(p, now, intervalMs) =>
    case HeartbeatTimer(now, intervalMs, connected) =>
      CloseAllSettled(s.calls, Objects(Part(s.connections, Lost(s, now, intervalMs, connected))));
    case StopBody(thread) => CloseAllSettled(s.calls, Objects(s.connections));
    case _ =>
  }

  /** In every run, on every connection ever created: each accepted offer is followed by the flush and then
      by exactly one answer, before anything else happens to the connection, and no answer is created that
      no accepted offer asked for. */
  lemma {:induction false} EveryOfferIsAnsweredOnce(es: seq<Event>, n: nat)
    requires n <= |es|
    ensures AllSettled(Run(es, n).calls)
  {
    hide Step, After;
    if n > 0 {
      EveryOfferIsAnsweredOnce(es, n - 1);
      StepSettles(Run(es, n - 1), es[n - 1]);
    }
  }
}
