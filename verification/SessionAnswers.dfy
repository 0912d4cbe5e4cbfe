/** What the router must send for each accepted message, told by the history and spelled out. */
module SessionAnswers {
  import opened Wrappers
  import opened SessionManager
  import opened SessionHistory

  // ----- what a message is taken for -----

  predicate NonEmpty(text: Option<string>) {
    text.Some? && text.value != ""
  }

  /** An envelope is its payload, from the envelope's sender or else the client itself, to the first that is
      given of the envelope's recipient, its target peer and the client's target; anything else is itself.
      A candidate gets the upper-case spelling of its m-line index, if it has only the other. */
  lemma NormalizedIs(message: Message, client: Client)
    ensures var envelope := message.kind == "signaling" && message.payload.Some?;
            var inner := if envelope then message.payload.value else message;
            var from := if !envelope then message.from
                        else if NonEmpty(message.from) then message.from
                        else Some(client.id);
            var to := if !envelope then message.to
                      else if NonEmpty(message.to) then message.to
                      else if NonEmpty(message.targetPeerId) then message.targetPeerId
                      else if NonEmpty(client.target) then client.target
                      else Some("");
            var index := if inner.kind == "candidate" && inner.sdpMLineIndex.None? then inner.sdpMlineIndex
                         else inner.sdpMLineIndex;
            Normalize(message, client) == inner.(from := from, to := to, sdpMLineIndex := index)
  {
  }

  // ----- what is sent -----

  /** Exactly one message is sent, on this socket, if it is open. */
  ghost predicate Posts(s: Table, t: Table, open: set<Ws>, ws: Ws, out: Out) {
    forall w: Ws :: Outbox(t.sent, w) == Outbox(s.sent, w) + (if w == ws && ws in open then [out] else [])
  }

  ghost predicate SendsNothing(s: Table, t: Table) {
    forall w: Ws :: Outbox(t.sent, w) == Outbox(s.sent, w)
  }

  lemma SendPosts(s: Table, s': Table, open: set<Ws>, ws: Ws, out: Out)
    requires s'.sent == s.sent
    ensures Posts(s, Send(s', open, ws, out), open, ws, out)
  {
  }

  lemma PostsAfter(s: Table, t: Table, u: Table, open: set<Ws>, ws: Ws, out: Out)
    requires Posts(s, t, open, ws, out) && u.sent == t.sent
    ensures Posts(s, u, open, ws, out)
  {
  }

  /** If somebody owns the id, the message goes to the owner, else the notice goes to the sender. */
  ghost predicate Reaches(es: seq<Event>, n: nat, t: Table, open: set<Ws>, id: string, out: Out,
                          sender: Ws, notice: Out)
    requires n <= |es|
  {
    && (forall o: Ws | Owns(es, n, id, o) :: Posts(Run(es, n), t, open, o, out))
    && ((forall o: Ws :: !Owns(es, n, id, o)) ==> Posts(Run(es, n), t, open, sender, notice))
  }

  lemma OwnerIs(es: seq<Event>, n: nat, id: string)
    requires n <= |es|
    ensures Online(Run(es, n), id) <==> exists o: Ws :: Owns(es, n, id, o)
    ensures forall o: Ws | Owns(es, n, id, o) :: id in Run(es, n).sessions && Run(es, n).sessions[id] == o
  {
    hide Step;
    TableIsHistory(es, n);
    OnlineIsOwned(Run(es, n), es, n, id);
    assert forall o: Ws | Owns(es, n, id, o) :: MapsTo(Run(es, n), id, o);
  }

  /** The message is accepted from this socket: it claims the id the socket is authenticated with. */
  predicate Accepted(s: Table, sender: Ws, message: Message) {
    sender in s.clients && Normalize(message, s.clients[sender]).from == Some(s.clients[sender].id)
  }

  lemma RoutesAs(s: Table, sender: Ws, message: Message, open: set<Ws>)
    requires Accepted(s, sender, message)
    ensures var m, t := Normalize(message, s.clients[sender]), RouteMessage(s, sender, message, open);
            if m.kind == "join" then t == Join(s, sender, m, open)
            else if m.kind == "leave" then t == Leave(s, sender, m, open)
            else if m.kind == "offer" || m.kind == "answer" || m.kind == "candidate" then t == Relay(s, sender, m, open)
            else t == Send(s, open, sender,
                           ErrorNotice(s.clients[sender].id, "Unknown message type '" + message.kind + "'."))
  {
    hide Normalize, Join, Leave, Relay, Send;
  }

  /** An accepted join with a target causes exactly one send: the request to the socket that owns the target
      in the history, or else the error to the sender; without a target it does nothing. */
  lemma JoinAnswers(es: seq<Event>, n: nat, sender: Ws, message: Message, open: set<Ws>)
    requires n <= |es| && Accepted(Run(es, n), sender, message)
    requires Normalize(message, Run(es, n).clients[sender]).kind == "join"
    ensures var s, t := Run(es, n), RouteMessage(Run(es, n), sender, message, open);
            var id, data := s.clients[sender].id, Normalize(message, s.clients[sender]).data;
            if data.Some? && NonEmpty(data.value.targetVehicleId) then
              var target := data.value.targetVehicleId.value;
              Reaches(es, n, t, open, target, JoinRequest(id, target, id), sender,
                      ErrorNotice(id, "Target vehicle " + target + " not found or offline."))
            else t == s
  {
    hide Step, Run, Normalize, Owns, RouteMessage, Posts;
    var s := Run(es, n);
    var m := Normalize(message, s.clients[sender]);
    RoutesAs(s, sender, message, open);
    if m.data.Some? && NonEmpty(m.data.value.targetVehicleId) {
      var target := m.data.value.targetVehicleId.value;
      OwnerIs(es, n, target);
      JoinPosts(s, sender, m, target, open);
    }
  }

  lemma JoinPosts(s: Table, sender: Ws, m: Message, target: string, open: set<Ws>)
    requires sender in s.clients && m.data == Some(Data(Some(target))) && target != ""
    ensures var id, t := s.clients[sender].id, Join(s, sender, m, open);
            if Online(s, target) then Posts(s, t, open, s.sessions[target], JoinRequest(id, target, id))
            else Posts(s, t, open, sender, ErrorNotice(id, "Target vehicle " + target + " not found or offline."))
  {
    hide Posts;
    var id := s.clients[sender].id;
    if Online(s, target) {
      SendPosts(s, SetTarget(s, sender, Some(target)), open, s.sessions[target], JoinRequest(id, target, id));
    } else {
      var error := ErrorNotice(id, "Target vehicle " + target + " not found or offline.");
      SendPosts(s, s, open, sender, error);
      PostsAfter(s, Send(s, open, sender, error), Join(s, sender, m, open), open, sender, error);
    }
  }

  /** An accepted leave causes exactly one send, the notice with its reason to the socket that owns the
      client's last target, or none if there is no such target or owner. */
  lemma LeaveAnswers(es: seq<Event>, n: nat, sender: Ws, message: Message, open: set<Ws>, target: Option<string>)
    requires n <= |es| && Accepted(Run(es, n), sender, message) && LastTarget(es, n, sender, target)
    requires Normalize(message, Run(es, n).clients[sender]).kind == "leave"
    ensures var s, t := Run(es, n), RouteMessage(Run(es, n), sender, message, open);
            var id, reason := s.clients[sender].id, Normalize(message, s.clients[sender]).reason;
            && (NonEmpty(target) ==> forall o: Ws | Owns(es, n, target.value, o) ::
                  Posts(s, t, open, o,
                        LeaveNotice(id, target.value, if NonEmpty(reason) then reason.value else "Peer left session")))
            && ((NonEmpty(target) ==> forall o: Ws :: !Owns(es, n, target.value, o)) ==> SendsNothing(s, t))
  {
    hide Step, Run, Normalize, Owns, RouteMessage, LastTarget, Posts;
    var s := Run(es, n);
    var m := Normalize(message, s.clients[sender]);
    RoutesAs(s, sender, message, open);
    TargetExactly(es, n, sender, target);
    if NonEmpty(target) {
      OwnerIs(es, n, target.value);
      LeavePosts(s, sender, m, target.value, open);
    }
  }

  lemma LeavePosts(s: Table, sender: Ws, m: Message, target: string, open: set<Ws>)
    requires sender in s.clients && s.clients[sender].target == Some(target) && target != ""
    ensures var id, t := s.clients[sender].id, Leave(s, sender, m, open);
            if Online(s, target) then
              Posts(s, t, open, s.sessions[target],
                    LeaveNotice(id, target, if NonEmpty(m.reason) then m.reason.value else "Peer left session"))
            else SendsNothing(s, t)
  {
    hide Posts;
    var id := s.clients[sender].id;
    if Online(s, target) {
      var notice := LeaveNotice(id, target, if NonEmpty(m.reason) then m.reason.value else "Peer left session");
      SendPosts(s, s, open, s.sessions[target], notice);
      PostsAfter(s, Send(s, open, s.sessions[target], notice), Leave(s, sender, m, open),
                 open, s.sessions[target], notice);
    }
  }

  /** An accepted offer, answer or candidate with a recipient causes exactly one send: the message to the
      socket that owns the recipient, or else the error to the sender; without a recipient it does nothing. */
  lemma RelayAnswers(es: seq<Event>, n: nat, sender: Ws, message: Message, open: set<Ws>)
    requires n <= |es| && Accepted(Run(es, n), sender, message)
    requires var kind := Normalize(message, Run(es, n).clients[sender]).kind;
             kind == "offer" || kind == "answer" || kind == "candidate"
    ensures var s, t := Run(es, n), RouteMessage(Run(es, n), sender, message, open);
            var id, m := s.clients[sender].id, Normalize(message, s.clients[sender]);
            if NonEmpty(m.to) then
              Reaches(es, n, t, open, m.to.value, Forward(m), sender,
                      ErrorNotice(id, "Recipient " + m.to.value + " not found or offline."))
            else t == s
  {
    hide Step, Run, Normalize, Owns, RouteMessage, Posts;
    var s := Run(es, n);
    var m := Normalize(message, s.clients[sender]);
    RoutesAs(s, sender, message, open);
    KindsDiffer();
    if NonEmpty(m.to) {
      OwnerIs(es, n, m.to.value);
      RelayPosts(s, sender, m, open);
    }
  }

  lemma KindsDiffer()
    ensures "offer" != "join" && "answer" != "join" && "candidate" != "join"
    ensures "offer" != "leave" && "answer" != "leave" && "candidate" != "leave"
  {
    assert "leave"[0] != "offer"[0];
  }

  lemma RelayPosts(s: Table, sender: Ws, m: Message, open: set<Ws>)
    requires sender in s.clients && NonEmpty(m.to)
    ensures var to, t := m.to.value, Relay(s, sender, m, open);
            if Online(s, to) then Posts(s, t, open, s.sessions[to], Forward(m))
            else Posts(s, t, open, sender,
                       ErrorNotice(s.clients[sender].id, "Recipient " + to + " not found or offline."))
  {
    hide Posts;
    var to := m.to.value;
    if Online(s, to) {
      SendPosts(s, s, open, s.sessions[to], Forward(m));
    } else {
      SendPosts(s, s, open, sender, ErrorNotice(s.clients[sender].id, "Recipient " + to + " not found or offline."));
    }
  }

  /** An accepted message of any other type causes exactly one send, the error to the sender, which names the
      type as received. */
  lemma UnknownAnswers(s: Table, sender: Ws, message: Message, open: set<Ws>)
    requires Accepted(s, sender, message)
    requires Normalize(message, s.clients[sender]).kind !in {"join", "leave", "offer", "answer", "candidate"}
    ensures var t := RouteMessage(s, sender, message, open);
            && t.clients == s.clients && t.sessions == s.sessions
            && Posts(s, t, open, sender,
                     ErrorNotice(s.clients[sender].id, "Unknown message type '" + message.kind + "'."))
  {
    hide Normalize, RouteMessage;
    RoutesAs(s, sender, message, open);
    SendPosts(s, s, open, sender, ErrorNotice(s.clients[sender].id, "Unknown message type '" + message.kind + "'."));
  }

  /** A message from an unknown socket, or one that claims another id, does nothing. */
  lemma RejectedDoesNothing(s: Table, sender: Ws, message: Message, open: set<Ws>)
    ensures !Accepted(s, sender, message) ==> RouteMessage(s, sender, message, open) == s
  {
    hide Dispatch, Normalize;
  }
}
