/** cockpit_client/display/src/video_player.js: the browser's remote candidate queue.

    The JavaScript methods are async. Each stretch of code between two awaits is one atomic step here;
    a call suspended at an await is a task, and the event loop may resume tasks in any order. What the
    browser answers (did the description settle well, did a candidate) is part of the event. */
module VideoPlayer {
  import opened Wrappers

  /** A candidate as received, with either spelling of the m-line index. */
  datatype Received = Received(text: string, sdpMid: Option<string>,
                               sdpMLineIndex: Option<int>, sdpMlineIndex: Option<int>)

  datatype Candidate = Candidate(text: string, sdpMid: Option<string>, sdpMLineIndex: Option<int>)

  function Normalized(r: Received): Candidate {
    Candidate(r.text, r.sdpMid, if r.sdpMLineIndex.Some? then r.sdpMLineIndex else r.sdpMlineIndex)
  }

  /** Whether `new RTCIceCandidate` accepts it: it throws when neither the mid nor the index is given. */
  predicate WellFormed(c: Candidate) {
    c.sdpMid.Some? || c.sdpMLineIndex.Some?
  }

  function Usable(cs: seq<Candidate>): seq<Candidate> {
    if cs == [] then []
    else if WellFormed(cs[|cs| - 1]) then Usable(cs[..|cs| - 1]) + [cs[|cs| - 1]]
    else Usable(cs[..|cs| - 1])
  }

  /** A setRemoteDescription call at an await: of the browser's answer, or inside the flush. */
  datatype Task = AwaitingDescription | Flushing(rest: seq<Candidate>)

  /** A candidate given to the browser, from the flushed queue or directly on arrival. */
  datatype Handed = FromQueue(candidate: Candidate) | Direct(candidate: Candidate)

  datatype State = State(
    open: bool,
    described: bool,
    pending: seq<Candidate>,
    tasks: map<nat, Task>,
    handed: seq<Handed>)

  datatype Event =
    | SetRemoteDescription(task: nat)
    | DescriptionSettled(task: nat, accepted: bool)
    | CandidateSettled(task: nat)
    | AddIceCandidate(received: Received)
    | Close

  /** After init: a peer connection, nothing queued. */
  const START := State(true, false, [], map[], [])

  /** The flush loop from `rest` to its next await, or to its end: a candidate the constructor rejects is
      skipped, and so is every candidate once the peer connection is gone. */
  function FlushLoop(s: State, task: nat, rest: seq<Candidate>): State
    decreases |rest|
  {
    if rest == [] then s.(tasks := s.tasks - {task})
    else if s.open && WellFormed(rest[0]) then
      s.(handed := s.handed + [FromQueue(rest[0])], tasks := s.tasks[task := Flushing(rest[1..])])
    else FlushLoop(s, task, rest[1..])
  }

  function Flush(s: State, task: nat): State {
    if !s.open || s.pending == [] then s.(tasks := s.tasks - {task})
    else FlushLoop(s.(pending := []), task, s.pending)
  }

  function Step(s: State, e: Event): State {
    match e
    case SetRemoteDescription(task) =>
      if !s.open || task in s.tasks then s else s.(tasks := s.tasks[task := AwaitingDescription])
    case DescriptionSettled(task, accepted) =>
      if task !in s.tasks || !s.tasks[task].AwaitingDescription? then s
      else if !accepted then s.(tasks := s.tasks - {task})
      else Flush(s.(described := true), task)
    case CandidateSettled(task) =>
      if task !in s.tasks || !s.tasks[task].Flushing? then s else FlushLoop(s, task, s.tasks[task].rest)
    case AddIceCandidate(received) =>
      var c := Normalized(received);
      if !s.open then s
      else if !s.described then s.(pending := s.pending + [c])
      else if WellFormed(c) then s.(handed := s.handed + [Direct(c)])
      else s
    case Close =>
      if s.open then s.(open := false, pending := [], described := false) else s
  }

  function Run(es: seq<Event>): State {
    if es == [] then START else Step(Run(es[..|es| - 1]), es[|es| - 1])
  }

  // ----- the code -----

  class Player {
    var peerConnection: bool
    var isRemoteDescriptionSet: bool
    var pendingRemoteCandidates: seq<Candidate>
    var tasks: map<nat, Task>
    var handed: seq<Handed>

    ghost function View(): State
      reads this
    {
      State(peerConnection, isRemoteDescriptionSet, pendingRemoteCandidates, tasks, handed)
    }

    constructor ()
      ensures View() == START
      ensures peerConnection && !isRemoteDescriptionSet && pendingRemoteCandidates == []
      ensures tasks == map[] && handed == []
    {
      peerConnection, isRemoteDescriptionSet := true, false;
      pendingRemoteCandidates, tasks, handed := [], map[], [];
    }

    /** setRemoteDescription up to its first await. */
    method BeginSetRemoteDescription(task: nat)
      modifies this
      ensures View() == Step(old(View()), SetRemoteDescription(task))
    {
      if !peerConnection || task in tasks {
        return;
      }
      tasks := tasks[task := AwaitingDescription];
    }

    /** setRemoteDescription from the browser's answer on. */
    method ResumeSetRemoteDescription(task: nat, accepted: bool)
      requires task in tasks && tasks[task].AwaitingDescription?
      modifies this
      ensures View() == Step(old(View()), DescriptionSettled(task, accepted))
    {
      if !accepted {
        tasks := tasks - {task};
        return;
      }
      isRemoteDescriptionSet := true;
      FlushPendingRemoteCandidates(task);
    }

    method FlushPendingRemoteCandidates(task: nat)
      modifies this
      ensures View() == Flush(old(View()), task)
    {
      if !peerConnection || |pendingRemoteCandidates| == 0 {
        tasks := tasks - {task};
        return;
      }
      var queued := pendingRemoteCandidates;
      pendingRemoteCandidates := [];
      ContinueFlush(task, queued);
    }

    /** The loop over the snapshot, from one await to the next. */
    method ContinueFlush(task: nat, queued: seq<Candidate>)
      modifies this
      ensures View() == FlushLoop(old(View()), task, queued)
    {
      var i := 0;
      while i < |queued|
        invariant 0 <= i <= |queued| && View() == old(View())
        invariant FlushLoop(old(View()), task, queued) == FlushLoop(old(View()), task, queued[i..])
      {
        var candidate := queued[i];
        assert queued[i..][0] == candidate && queued[i..][1..] == queued[i + 1..];
        if WellFormed(candidate) && peerConnection {
          handed := handed + [FromQueue(candidate)];
          tasks := tasks[task := Flushing(queued[i + 1..])];
          return;
        }
        i := i + 1;
      }
      tasks := tasks - {task};
    }

    method ResumeFlush(task: nat)
      requires task in tasks && tasks[task].Flushing?
      modifies this
      ensures View() == Step(old(View()), CandidateSettled(task))
    {
      ContinueFlush(task, tasks[task].rest);
    }

    method AddCandidate(received: Received)
      modifies this
      ensures View() == Step(old(View()), AddIceCandidate(received))
    {
      if !peerConnection {
        return;
      }
      var normalized := Candidate(received.text, received.sdpMid,
        if received.sdpMLineIndex.Some? then received.sdpMLineIndex else received.sdpMlineIndex);
      if !isRemoteDescriptionSet {
        pendingRemoteCandidates := pendingRemoteCandidates + [normalized];
        return;
      }
      if WellFormed(normalized) {
        handed := handed + [Direct(normalized)];
      }
    }

    method CloseConnection()
      modifies this
      ensures View() == Step(old(View()), Close)
    {
      if peerConnection {
        peerConnection := false;
        pendingRemoteCandidates := [];
        isRemoteDescriptionSet := false;
      }
    }
  }

  // ----- conservation over every interleaving -----

  /** The candidates that arrived in a run. */
  function Arrived(es: seq<Event>): seq<Candidate> {
    if es == [] then []
    else if es[|es| - 1].AddIceCandidate? then Arrived(es[..|es| - 1]) + [Normalized(es[|es| - 1].received)]
    else Arrived(es[..|es| - 1])
  }

  ghost predicate StaysOpen(es: seq<Event>) {
    forall e | e in es :: !e.Close?
  }

  function Queued(handed: seq<Handed>): seq<Candidate> {
    if handed == [] then []
    else if handed[|handed| - 1].FromQueue? then Queued(handed[..|handed| - 1]) + [handed[|handed| - 1].candidate]
    else Queued(handed[..|handed| - 1])
  }

  function Directly(handed: seq<Handed>): seq<Candidate> {
    if handed == [] then []
    else if handed[|handed| - 1].Direct? then Directly(handed[..|handed| - 1]) + [handed[|handed| - 1].candidate]
    else Directly(handed[..|handed| - 1])
  }

  function Candidates(handed: seq<Handed>): seq<Candidate> {
    seq(|handed|, i requires 0 <= i < |handed| => handed[i].candidate)
  }

  ghost predicate IsFlush(s: State, task: nat) {
    task in s.tasks && s.tasks[task].Flushing?
  }

  /** What the suspended flush still has to hand over. */
  ghost function Unprocessed(s: State): seq<Candidate> {
    if task: nat :| IsFlush(s, task) then s.tasks[task].rest else []
  }

  ghost predicate OneFlush(s: State) {
    forall t: nat, u: nat | IsFlush(s, t) && IsFlush(s, u) :: t == u
  }

  lemma {:induction false} UsableAppend(a: seq<Candidate>, b: seq<Candidate>)
    ensures Usable(a + b) == Usable(a) + Usable(b)
  {
    if b == [] {
      assert a + b == a;
    } else {
      UsableAppend(a, b[..|b| - 1]);
      assert (a + b)[..|a + b| - 1] == a + b[..|b| - 1];
    }
  }

  lemma UsableSnoc(a: seq<Candidate>, c: Candidate)
    ensures Usable(a + [c]) == if WellFormed(c) then Usable(a) + [c] else Usable(a)
  {
    assert (a + [c])[..|a|] == a;
  }

  lemma UsableCons(cs: seq<Candidate>)
    requires cs != []
    ensures Usable(cs) == if WellFormed(cs[0]) then [cs[0]] + Usable(cs[1..]) else Usable(cs[1..])
  {
    assert cs == [cs[0]] + cs[1..];
    UsableAppend([cs[0]], cs[1..]);
    UsableSnoc([], cs[0]);
    assert [] + [cs[0]] == [cs[0]];
  }

  lemma HandedOne(handed: seq<Handed>, h: Handed)
    ensures Queued(handed + [h]) == if h.FromQueue? then Queued(handed) + [h.candidate] else Queued(handed)
    ensures Directly(handed + [h]) == if h.Direct? then Directly(handed) + [h.candidate] else Directly(handed)
  {
    assert (handed + [h])[..|handed|] == handed;
  }

  lemma UnprocessedIs(s: State, task: nat)
    requires forall u: nat | IsFlush(s, u) :: u == task
    ensures Unprocessed(s) == if IsFlush(s, task) then s.tasks[task].rest else []
  {
  }

  ghost predicate NoOtherFlush(s: State, task: nat) {
    forall u: nat | IsFlush(s, u) :: u == task
  }

  lemma Regroup(a: seq<Candidate>, c: Candidate, b: seq<Candidate>)
    ensures a + ([c] + b) == a + [c] + b
  {
  }

  lemma HandOver(s: State, task: nat, rest: seq<Candidate>)
    requires NoOtherFlush(s, task) && rest != [] && WellFormed(rest[0])
    ensures var t := s.(handed := s.handed + [FromQueue(rest[0])], tasks := s.tasks[task := Flushing(rest[1..])]);
            && NoOtherFlush(t, task) && Unprocessed(t) == rest[1..]
            && Queued(t.handed) + Usable(rest[1..]) == Queued(s.handed) + Usable(rest)
            && Directly(t.handed) == Directly(s.handed)
  {
    var t := s.(handed := s.handed + [FromQueue(rest[0])], tasks := s.tasks[task := Flushing(rest[1..])]);
    assert forall u: nat | IsFlush(t, u) && u != task :: IsFlush(s, u);
    UnprocessedIs(t, task);
    HandedOne(s.handed, FromQueue(rest[0]));
    UsableCons(rest);
    Regroup(Queued(s.handed), rest[0], Usable(rest[1..]));
  }

  lemma EndFlush(s: State, task: nat)
    requires NoOtherFlush(s, task)
    ensures var t := s.(tasks := s.tasks - {task}); NoOtherFlush(t, task) && Unprocessed(t) == []
  {
    var t := s.(tasks := s.tasks - {task});
    assert forall u: nat | IsFlush(t, u) :: IsFlush(s, u);
    UnprocessedIs(t, task);
  }

  /** Running the flush loop moves candidates, in order, from the snapshot to the browser. */
  lemma {:induction false} FlushLoopConserves(s: State, task: nat, rest: seq<Candidate>)
    requires s.open && NoOtherFlush(s, task)
    ensures var t := FlushLoop(s, task, rest);
            && t == s.(tasks := t.tasks, handed := t.handed) && NoOtherFlush(t, task)
            && Queued(t.handed) + Usable(Unprocessed(t)) == Queued(s.handed) + Usable(rest)
            && Directly(t.handed) == Directly(s.handed)
    decreases |rest|
  {
    if rest == [] {
      EndFlush(s, task);
    } else if WellFormed(rest[0]) {
      HandOver(s, task, rest);
    } else {
      UsableCons(rest);
      FlushLoopConserves(s, task, rest[1..]);
    }
  }

  /** The task waits for the browser's answer to its description. */
  predicate Awaits(s: State, task: nat) {
    task in s.tasks && s.tasks[task] == AwaitingDescription
  }

  /** Event `i` is the browser's acceptance of a description it was given. */
  predicate Settles(es: seq<Event>, i: nat)
    requires i < |es|
  {
    es[i].DescriptionSettled? && es[i].accepted && Awaits(Run(es[..i]), es[i].task)
  }

  ghost predicate DescriptionCame(es: seq<Event>) {
    exists i: nat | i < |es| :: Settles(es, i)
  }

  /** How many candidates arrived before the browser first accepted a description. */
  ghost function QueuedCount(es: seq<Event>): nat {
    if es == [] then 0
    else if DescriptionCame(es[..|es| - 1]) then QueuedCount(es[..|es| - 1])
    else |Arrived(es)|
  }

  lemma DescriptionCameNext(es: seq<Event>)
    requires es != []
    ensures DescriptionCame(es) <==> DescriptionCame(es[..|es| - 1]) || Settles(es, |es| - 1)
  {
    hide Awaits, Run;
    var n := |es| - 1;
    var before := es[..n];
    assert forall i: nat | i <= n :: before[..i] == es[..i];
    if DescriptionCame(before) {
      var i: nat :| i < n && Settles(before, i);
      assert Settles(es, i);
    }
    if DescriptionCame(es) && !Settles(es, n) {
      var i: nat :| i < |es| && Settles(es, i);
      assert Settles(before, i);
    }
  }

  /** The flush changes nothing but who waits and what was handed over. */
  lemma {:induction false} FlushLoopKeeps(s: State, task: nat, rest: seq<Candidate>)
    ensures var t := FlushLoop(s, task, rest); t == s.(tasks := t.tasks, handed := t.handed)
    decreases |rest|
  {
    if rest != [] && !(s.open && WellFormed(rest[0])) {
      FlushLoopKeeps(s, task, rest[1..]);
    }
  }

  lemma DescribedNext(s: State, e: Event)
    requires !e.Close?
    ensures Step(s, e).described <==>
            s.described || (e.DescriptionSettled? && e.accepted && Awaits(s, e.task))
  {
    match e
    case DescriptionSettled(task, accepted) => FlushLoopKeeps(s.(described := true, pending := []), task, s.pending);
    case CandidateSettled(task) =>
      if task in s.tasks && s.tasks[task].Flushing? {
        FlushLoopKeeps(s, task, s.tasks[task].rest);
      }
    case _ =>
  }

  /** Until close the flag is set exactly when the browser has accepted a description, whether or not a
      candidate was queued then. */
  lemma {:induction false} DescribedExactlyWhen(es: seq<Event>)
    requires StaysOpen(es)
    ensures Run(es).described <==> DescriptionCame(es)
  {
    hide Step, Awaits;
    if es != [] {
      var before, e := es[..|es| - 1], es[|es| - 1];
      assert forall d | d in before :: d in es;
      assert !e.Close?;
      DescribedExactlyWhen(before);
      DescriptionCameNext(es);
      DescribedNext(Run(before), e);
    }
  }

  ghost predicate Conserved(s: State, arrived: seq<Candidate>, k: nat) {
    && k <= |arrived|
    && Queued(s.handed) + Usable(Unprocessed(s)) + Usable(s.pending) == Usable(arrived[..k])
    && Directly(s.handed) == Usable(arrived[k..])
    && (s.described ==> s.pending == [])
    && (!s.described ==> k == |arrived| && s.handed == [] && forall t: nat :: !IsFlush(s, t))
    && s.open && OneFlush(s)
  }

  lemma SameFlush(s: State, t: State)
    requires forall u: nat :: (IsFlush(t, u) <==> IsFlush(s, u)) && (IsFlush(s, u) ==> t.tasks[u] == s.tasks[u])
    requires OneFlush(s)
    ensures OneFlush(t) && Unprocessed(t) == Unprocessed(s)
  {
    if u: nat :| IsFlush(s, u) {
      UnprocessedIs(s, u);
      UnprocessedIs(t, u);
    }
  }

  lemma SettleConserves(s: State, task: nat, accepted: bool, arrived: seq<Candidate>, k: nat)
    requires Conserved(s, arrived, k)
    ensures Conserved(Step(s, DescriptionSettled(task, accepted)), arrived, k)
  {
    var t := Step(s, DescriptionSettled(task, accepted));
    if task in s.tasks && s.tasks[task].AwaitingDescription? {
      if accepted && s.pending != [] {
        var described := s.(described := true, pending := []);
        assert forall u: nat :: IsFlush(described, u) <==> IsFlush(s, u);
        FlushLoopConserves(described, task, s.pending);
        assert Unprocessed(s) == [];
      } else {
        SameFlush(s, t);
      }
    }
  }

  lemma LateArrivalConserves(s: State, received: Received, arrived: seq<Candidate>, k: nat)
    requires Conserved(s, arrived, k) && s.described
    ensures Conserved(Step(s, AddIceCandidate(received)), arrived + [Normalized(received)], k)
  {
    var c := Normalized(received);
    var later := arrived + [c];
    SameFlush(s, Step(s, AddIceCandidate(received)));
    assert later[..k] == arrived[..k] && later[k..] == arrived[k..] + [c];
    UsableSnoc(arrived[k..], c);
    HandedOne(s.handed, Direct(c));
  }

  lemma EarlyArrivalConserves(s: State, received: Received, arrived: seq<Candidate>, k: nat)
    requires Conserved(s, arrived, k) && !s.described
    ensures Conserved(Step(s, AddIceCandidate(received)), arrived + [Normalized(received)], |arrived| + 1)
  {
    var c := Normalized(received);
    var later := arrived + [c];
    var t := Step(s, AddIceCandidate(received));
    SameFlush(s, t);
    assert later[..|later|] == arrived[..k] + [c] && later[|later|..] == [];
    UsableSnoc(arrived[..k], c);
    UsableSnoc(s.pending, c);
    assert arrived[k..] == [];
    assert Unprocessed(s) == [];
    assert Queued(s.handed) == [] && [] + [] + Usable(t.pending) == Usable(t.pending);
    assert [] + [] + Usable(s.pending) == Usable(s.pending);
  }

  lemma ResumeConserves(s: State, task: nat, arrived: seq<Candidate>, k: nat)
    requires Conserved(s, arrived, k)
    ensures Conserved(Step(s, CandidateSettled(task)), arrived, k)
  {
    if IsFlush(s, task) {
      UnprocessedIs(s, task);
      FlushLoopConserves(s, task, s.tasks[task].rest);
    }
  }

  lemma BeginConserves(s: State, task: nat, arrived: seq<Candidate>, k: nat)
    requires Conserved(s, arrived, k)
    ensures Conserved(Step(s, SetRemoteDescription(task)), arrived, k)
  {
    SameFlush(s, Step(s, SetRemoteDescription(task)));
  }

  /** Until close, at every await point of every interleaving: the well-formed candidates that arrived
      before the description was in place are, in arrival order, those handed over from the queue, then
      those of the suspended flush, then those pending; the later ones are, in arrival order, those
      handed over directly. Nothing is handed over before the description is in place, and once it is
      the queue is empty. */
  lemma {:induction false} CandidatesAreConserved(es: seq<Event>)
    requires StaysOpen(es)
    ensures Conserved(Run(es), Arrived(es), QueuedCount(es))
  {
    hide Step;
    if es == [] {
      assert forall t: nat :: !IsFlush(START, t);
    } else {
      var before, e := es[..|es| - 1], es[|es| - 1];
      assert !e.Close?;
      CandidatesAreConserved(before);
      DescribedExactlyWhen(before);
      var s, arrived, k := Run(before), Arrived(before), QueuedCount(before);
      match e
      case SetRemoteDescription(task) => BeginConserves(s, task, arrived, k);
      case DescriptionSettled(task, accepted) => SettleConserves(s, task, accepted, arrived, k);
      case CandidateSettled(task) => ResumeConserves(s, task, arrived, k);
      case AddIceCandidate(received) =>
        if s.described {
          LateArrivalConserves(s, received, arrived, k);
        } else {
          EarlyArrivalConserves(s, received, arrived, k);
        }
    }
  }

  lemma CandidatesSnoc(handed: seq<Handed>)
    requires handed != []
    ensures Candidates(handed) == Candidates(handed[..|handed| - 1]) + [handed[|handed| - 1].candidate]
  {
  }

  lemma {:induction false} HandedParts(handed: seq<Handed>)
    ensures multiset(Candidates(handed)) == multiset(Queued(handed)) + multiset(Directly(handed))
  {
    if handed != [] {
      hide Candidates;
      HandedParts(handed[..|handed| - 1]);
      CandidatesSnoc(handed);
    }
  }

  /** No candidate is lost, duplicated or invented. */
  lemma NothingLost(es: seq<Event>)
    requires StaysOpen(es)
    ensures var s := Run(es);
            multiset(Usable(Arrived(es))) ==
            multiset(Candidates(s.handed)) + multiset(Usable(Unprocessed(s))) + multiset(Usable(s.pending))
  {
    CandidatesAreConserved(es);
    ConservedMultiset(Run(es), Arrived(es), QueuedCount(es));
  }

  lemma ConservedMultiset(s: State, arrived: seq<Candidate>, k: nat)
    requires Conserved(s, arrived, k)
    ensures multiset(Usable(arrived)) ==
            multiset(Candidates(s.handed)) + multiset(Usable(Unprocessed(s))) + multiset(Usable(s.pending))
  {
    hide Usable, Queued, Directly, Candidates;
    HandedParts(s.handed);
    assert arrived == arrived[..k] + arrived[k..];
    UsableAppend(arrived[..k], arrived[k..]);
    assert multiset(Usable(arrived)) == multiset(Usable(arrived[..k])) + multiset(Usable(arrived[k..]));
    assert multiset(Usable(arrived[..k]))
        == multiset(Queued(s.handed)) + multiset(Usable(Unprocessed(s))) + multiset(Usable(s.pending));
  }

  /** After close nothing more reaches the browser, whatever was still suspended. */
  lemma {:induction false} ClosedStaysSilent(before: seq<Event>, after: seq<Event>)
    requires !Run(before).open
    ensures !Run(before + after).open
            && Run(before + after).handed == Run(before).handed && Run(before + after).pending == Run(before).pending
  {
    if after == [] {
      assert before + after == before;
    } else {
      var n := |after| - 1;
      assert (before + after)[..|before| + n] == before + after[..n];
      ClosedStaysSilent(before, after[..n]);
      ClosedStepIsSilent(Run(before + after[..n]), after[n]);
    }
  }

  lemma ClosedStepIsSilent(s: State, e: Event)
    requires !s.open
    ensures var t := Step(s, e); !t.open && t.handed == s.handed && t.pending == s.pending
  {
    if e.CandidateSettled? && e.task in s.tasks && s.tasks[e.task].Flushing? {
      ClosedFlushIsSilent(s, e.task, s.tasks[e.task].rest);
    }
  }

  lemma {:induction false} ClosedFlushIsSilent(s: State, task: nat, rest: seq<Candidate>)
    requires !s.open
    ensures FlushLoop(s, task, rest) == s.(tasks := s.tasks - {task})
    decreases |rest|
  {
    if rest != [] {
      ClosedFlushIsSilent(s, task, rest[1..]);
    }
  }

  // ----- order -----

  /** Every candidate from the queue was handed over before every direct one. */
  ghost predicate QueueFirst(handed: seq<Handed>) {
    forall i, j | 0 <= i < j < |handed| && handed[i].Direct? :: handed[j].Direct?
  }

  ghost predicate AnyDirect(handed: seq<Handed>) {
    exists i | 0 <= i < |handed| :: handed[i].Direct?
  }

  /** A well-formed candidate arrived, with a description accepted, while the flush still had a well-formed one
      to hand over. */
  ghost predicate Overtakes(s: State, e: Event, described: bool) {
    s.open && described && e.AddIceCandidate? && WellFormed(Normalized(e.received)) && Usable(Unprocessed(s)) != []
  }

  ghost predicate Overtaken(es: seq<Event>) {
    es != []
    && (var before := es[..|es| - 1];
        Overtaken(before) || Overtakes(Run(before), es[|es| - 1], DescriptionCame(before)))
  }

  lemma {:induction false} FlushLoopHands(s: State, task: nat, rest: seq<Candidate>)
    requires s.open && NoOtherFlush(s, task)
    ensures var t := FlushLoop(s, task, rest);
            if Usable(rest) == [] then t.handed == s.handed && Unprocessed(t) == []
            else t.handed == s.handed + [FromQueue(Usable(rest)[0])]
    decreases |rest|
  {
    if rest == [] {
      EndFlush(s, task);
    } else {
      UsableCons(rest);
      if !WellFormed(rest[0]) {
        FlushLoopHands(s, task, rest[1..]);
      }
    }
  }

  lemma QueueFirstOne(handed: seq<Handed>, h: Handed)
    ensures QueueFirst(handed + [h]) <==> QueueFirst(handed) && (h.FromQueue? ==> !AnyDirect(handed))
    ensures AnyDirect(handed + [h]) <==> AnyDirect(handed) || h.Direct?
  {
    var all := handed + [h];
    assert all[|handed|] == h && forall i | 0 <= i < |handed| :: all[i] == handed[i];
    if QueueFirst(all) {
      assert forall i | 0 <= i < |handed| && all[i].Direct? :: all[|handed|].Direct?;
    }
  }

  ghost predicate OrderTold(s: State, overtaken: bool) {
    if overtaken then AnyDirect(s.handed) && (QueueFirst(s.handed) ==> Usable(Unprocessed(s)) != [])
    else QueueFirst(s.handed) && (AnyDirect(s.handed) ==> Usable(Unprocessed(s)) == [])
  }

  lemma FlushTells(s: State, task: nat, rest: seq<Candidate>, overtaken: bool)
    requires s.open && NoOtherFlush(s, task)
    requires if overtaken then AnyDirect(s.handed) && (QueueFirst(s.handed) ==> Usable(rest) != [])
             else QueueFirst(s.handed) && (AnyDirect(s.handed) ==> Usable(rest) == [])
    ensures OrderTold(FlushLoop(s, task, rest), overtaken)
  {
    FlushLoopHands(s, task, rest);
    FlushLoopConserves(s, task, rest);
    if Usable(rest) != [] {
      QueueFirstOne(s.handed, FromQueue(Usable(rest)[0]));
    }
  }

  lemma SettleTells(s: State, task: nat, accepted: bool, overtaken: bool, arrived: seq<Candidate>, k: nat)
    requires OrderTold(s, overtaken) && Conserved(s, arrived, k)
    ensures OrderTold(Step(s, DescriptionSettled(task, accepted)), overtaken)
  {
    var t := Step(s, DescriptionSettled(task, accepted));
    if task in s.tasks && s.tasks[task].AwaitingDescription? {
      if accepted && s.pending != [] {
        var described := s.(described := true, pending := []);
        assert forall u: nat :: IsFlush(described, u) <==> IsFlush(s, u);
        assert !AnyDirect(s.handed);
        FlushTells(described, task, s.pending, overtaken);
      } else {
        SameFlush(s, t);
      }
    }
  }

  lemma ArrivalTells(s: State, received: Received, overtaken: bool)
    requires OrderTold(s, overtaken) && s.open && OneFlush(s)
    ensures var e := AddIceCandidate(received);
            OrderTold(Step(s, e), overtaken || Overtakes(s, e, s.described))
  {
    SameFlush(s, Step(s, AddIceCandidate(received)));
    QueueFirstOne(s.handed, Direct(Normalized(received)));
  }

  lemma {:induction false} OrderIsTold(es: seq<Event>)
    requires StaysOpen(es)
    ensures OrderTold(Run(es), Overtaken(es))
  {
    if es != [] {
      var before, e := es[..|es| - 1], es[|es| - 1];
      var s, overtaken := Run(before), Overtaken(before);
      assert !e.Close?;
      OrderIsTold(before);
      CandidatesAreConserved(before);
      DescribedExactlyWhen(before);
      match e
      case SetRemoteDescription(task) => SameFlush(s, Step(s, e));
      case DescriptionSettled(task, accepted) =>
        SettleTells(s, task, accepted, overtaken, Arrived(before), QueuedCount(before));
      case CandidateSettled(task) =>
        if IsFlush(s, task) {
          UnprocessedIs(s, task);
          FlushTells(s, task, s.tasks[task].rest, overtaken);
        }
      case AddIceCandidate(received) => ArrivalTells(s, received, overtaken);
    }
  }

  /** Once the flush is through, the queued candidates all reached the browser before the later ones
      exactly when no candidate arrived while the flush still had one to hand over. */
  lemma OrderKeptExactlyWhen(es: seq<Event>)
    requires StaysOpen(es) && Usable(Unprocessed(Run(es))) == []
    ensures QueueFirst(Run(es).handed) <==> !Overtaken(es)
  {
    OrderIsTold(es);
  }

  lemma {:induction false} QueueFirstSplits(handed: seq<Handed>)
    requires QueueFirst(handed)
    ensures Candidates(handed) == Queued(handed) + Directly(handed)
    ensures !AnyDirect(handed) ==> Directly(handed) == []
  {
    if handed != [] {
      var n := |handed| - 1;
      var before := handed[..n];
      assert handed == before + [handed[n]];
      QueueFirstOne(before, handed[n]);
      QueueFirstSplits(before);
      HandedOne(before, handed[n]);
      assert Candidates(handed) == Candidates(before) + [handed[n].candidate];
    }
  }

  /** In that case the browser got every well-formed candidate in arrival order. */
  lemma ArrivalOrderKept(es: seq<Event>)
    requires StaysOpen(es) && Usable(Unprocessed(Run(es))) == [] && !Overtaken(es)
    ensures Candidates(Run(es).handed) + Usable(Run(es).pending) == Usable(Arrived(es))
  {
    hide Run, Arrived, Overtaken;
    OrderKeptExactlyWhen(es);
    CandidatesAreConserved(es);
    var s, arrived, k := Run(es), Arrived(es), QueuedCount(es);
    QueueFirstSplits(s.handed);
    assert arrived == arrived[..k] + arrived[k..];
    UsableAppend(arrived[..k], arrived[k..]);
  }

  /** It does happen: with two candidates queued, a third that arrives while the browser is busy with the
      first reaches it before the second. */
  lemma LateCandidateOvertakes(a: Received, b: Received, c: Received)
    requires WellFormed(Normalized(a)) && WellFormed(Normalized(b)) && WellFormed(Normalized(c))
    ensures var es := [AddIceCandidate(a), AddIceCandidate(b), SetRemoteDescription(0), DescriptionSettled(0, true),
                       AddIceCandidate(c), CandidateSettled(0)];
            Run(es).handed == [FromQueue(Normalized(a)), Direct(Normalized(c)), FromQueue(Normalized(b))]
  {
    var es := [AddIceCandidate(a), AddIceCandidate(b), SetRemoteDescription(0), DescriptionSettled(0, true),
               AddIceCandidate(c), CandidateSettled(0)];
    var x, y, z := Normalized(a), Normalized(b), Normalized(c);
    var queued := START.(pending := [x, y]);
    assert es[..5][..4] == es[..4] && es[..4][..3] == es[..3] && es[..3][..2] == es[..2]
           && es[..2][..1] == es[..1] && es[..1][..0] == [];
    assert Run(es[..1]) == START.(pending := [x]);
    assert Run(es[..2]) == queued;
    assert Run(es[..3]) == queued.(tasks := map[0 := AwaitingDescription]);
    assert [x, y][1..] == [y] && [y][1..] == [];
    assert Run(es[..4]) == State(true, true, [], map[0 := Flushing([y])], [FromQueue(x)]);
    assert Run(es[..5]) == State(true, true, [], map[0 := Flushing([y])], [FromQueue(x), Direct(z)]);
    assert es[..6] == es;
  }

  // ----- what a single event must do -----

  /** A candidate under the names the browser knows; the upper-case spelling of the index is preferred. */
  function AsBrowserCandidate(r: Received): Candidate {
    Candidate(r.text, r.sdpMid, if r.sdpMLineIndex.Some? then r.sdpMLineIndex else r.sdpMlineIndex)
  }

  lemma RunNext(es: seq<Event>, e: Event)
    ensures Run(es + [e]) == Step(Run(es), e)
  {
    hide Step;
    assert (es + [e])[..|es|] == es;
  }

  /** Once a description was accepted nothing is pending, and until close each arrival is the next candidate
      handed over, unless it has neither mid nor index; before, it is queued last and nothing is handed over. */
  lemma ArrivalsAreTaken(es: seq<Event>, received: Received)
    requires StaysOpen(es)
    ensures var c, s, t := AsBrowserCandidate(received), Run(es), Run(es + [AddIceCandidate(received)]);
            if DescriptionCame(es) then
              && s.pending == [] && t.pending == []
              && t.handed == s.handed + (if c.sdpMid.Some? || c.sdpMLineIndex.Some? then [Direct(c)] else [])
            else s.handed == [] && t.handed == [] && t.pending == s.pending + [c]
  {
    CandidatesAreConserved(es);
    DescribedExactlyWhen(es);
    RunNext(es, AddIceCandidate(received));
    assert Run(es).handed + [] == Run(es).handed;
  }

  /** A flush never stalls: each time it is resumed it hands over its next well-formed candidate, and when it
      has none left it ends. */
  lemma FlushGoesOn(es: seq<Event>, task: nat)
    requires StaysOpen(es)
    ensures var s, t := Run(es), Run(es + [CandidateSettled(task)]);
            IsFlush(s, task) ==>
              var left := Usable(s.tasks[task].rest);
              if left == [] then task !in t.tasks && t.handed == s.handed
              else t.handed == s.handed + [FromQueue(left[0])] && IsFlush(t, task)
  {
    var s := Run(es);
    CandidatesAreConserved(es);
    RunNext(es, CandidateSettled(task));
    if IsFlush(s, task) {
      FlushStep(s, task, s.tasks[task].rest);
    }
  }

  /** An accepted description empties the queue and starts the flush at once. */
  lemma FlushBegins(es: seq<Event>, task: nat)
    requires StaysOpen(es)
    ensures var s, t := Run(es), Run(es + [DescriptionSettled(task, true)]);
            var left := Usable(s.pending);
            Awaits(s, task) ==>
              && t.described && t.pending == []
              && (if left == [] then task !in t.tasks && t.handed == s.handed
                  else t.handed == s.handed + [FromQueue(left[0])] && IsFlush(t, task))
  {
    var s := Run(es);
    CandidatesAreConserved(es);
    RunNext(es, DescriptionSettled(task, true));
    var described := s.(described := true, pending := []);
    FlushStep(described, task, s.pending);
    FlushLoopKeeps(described, task, s.pending);
  }

  lemma {:induction false} FlushStep(s: State, task: nat, rest: seq<Candidate>)
    requires s.open
    ensures var t := FlushLoop(s, task, rest);
            if Usable(rest) == [] then task !in t.tasks && t.handed == s.handed
            else t.handed == s.handed + [FromQueue(Usable(rest)[0])] && IsFlush(t, task)
    decreases |rest|
  {
    if rest != [] {
      UsableCons(rest);
      if !WellFormed(rest[0]) {
        FlushStep(s, task, rest[1..]);
      }
    }
  }

  /** Closing an open player forgets the queue and the flag and hands nothing over. */
  lemma CloseForgets(es: seq<Event>)
    ensures var t := Run(es + [Close]);
            Run(es).open ==> !t.open && t.pending == [] && !t.described && t.handed == Run(es).handed
  {
    RunNext(es, Close);
  }

  /** Giving the browser a description only makes the call wait, and a refused one only ends the call. */
  lemma DescriptionIsAwaited(es: seq<Event>, task: nat)
    ensures Run(es).open && task !in Run(es).tasks ==>
              Run(es + [SetRemoteDescription(task)]) == Run(es).(tasks := Run(es).tasks[task := AwaitingDescription])
    ensures Awaits(Run(es), task) ==>
              Run(es + [DescriptionSettled(task, false)]) == Run(es).(tasks := Run(es).tasks - {task})
  {
    RunNext(es, SetRemoteDescription(task));
    RunNext(es, DescriptionSettled(task, false));
  }
}
