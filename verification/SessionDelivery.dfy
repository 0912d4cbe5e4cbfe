/** Who receives what from the router. */
module SessionDelivery {
  import opened Wrappers
  import opened SessionManager
  import opened SessionHistory

  // ----- every send reaches its addressee -----

  function Actor(e: Event): Ws {
    e.ws
  }

  /** The event sends nothing on the socket, or one message: addressed to the id the socket is
      authenticated with, and from the server or from the id of the socket whose event it is. */
  ghost predicate Delivers(s: Table, e: Event, t: Table, ws: Ws) {
    || Outbox(t.sent, ws) == Outbox(s.sent, ws)
    || exists out ::
         && Outbox(t.sent, ws) == Outbox(s.sent, ws) + [out]
         && ws in s.clients && out.Addressee() == Some(s.clients[ws].id)
         && (out.Sender() == Some("server") || (Actor(e) in s.clients && out.Sender() == Some(s.clients[Actor(e)].id)))
  }

  lemma SendDelivers(s: Table, s': Table, e: Event, to: Ws, out: Out, open: set<Ws>, ws: Ws)
    requires s'.sent == s.sent && to in s.clients && out.Addressee() == Some(s.clients[to].id)
    requires out.Sender() == Some("server") || (Actor(e) in s.clients && out.Sender() == Some(s.clients[Actor(e)].id))
    ensures Delivers(s, e, Send(s', open, to, out), ws)
  {
  }

  lemma RouteDelivers(s: Table, sender: Ws, message: Message, open: set<Ws>, ws: Ws)
    requires Valid(s) && sender in s.clients
    ensures Delivers(s, Incoming(sender, message, open), RouteMessage(s, sender, message, open), ws)
  {
    var e := Incoming(sender, message, open);
    var client := s.clients[sender];
    var m := Normalize(message, client);
    if m.from == Some(client.id) {
      if m.kind == "join" {
        var target := JoinTarget(m);
        if Truthy(target) {
          var id := target.value;
          if Online(s, id) {
            SendDelivers(s, SetTarget(s, sender, target), e, s.sessions[id],
              JoinRequest(client.id, id, client.id), open, ws);
          } else {
            SendDelivers(s, s, e, sender,
              ErrorNotice(client.id, "Target vehicle " + id + " not found or offline."), open, ws);
          }
        }
      } else if m.kind == "leave" {
        if Truthy(client.target) && Online(s, client.target.value) {
          var id := client.target.value;
          SendDelivers(s, s, e, s.sessions[id],
            LeaveNotice(client.id, id, Or(m.reason, "Peer left session")), open, ws);
        }
      } else if IsRelayed(m.kind) {
        if Truthy(m.to) {
          if Online(s, m.to.value) {
            SendDelivers(s, s, e, s.sessions[m.to.value], Forward(m), open, ws);
          } else {
            SendDelivers(s, s, e, sender,
              ErrorNotice(client.id, "Recipient " + m.to.value + " not found or offline."), open, ws);
          }
        }
      } else {
        SendDelivers(s, s, e, sender, ErrorNotice(client.id, "Unknown message type '" + message.kind + "'."), open, ws);
      }
    }
  }

  lemma RemoveDelivers(s: Table, gone: Ws, open: set<Ws>, ws: Ws)
    requires Valid(s)
    ensures Delivers(s, Disconnect(gone, open), RemoveClient(s, gone, open), ws)
  {
    if gone in s.clients && Outbox(RemoveClient(s, gone, open).sent, ws) != Outbox(s.sent, ws) {
      var out := LeaveNotice(s.clients[gone].id, s.clients[ws].id, "Peer disconnected");
      assert Outbox(RemoveClient(s, gone, open).sent, ws) == Outbox(s.sent, ws) + [out];
      assert out.Addressee() == Some(s.clients[ws].id) && out.Sender() == Some(s.clients[gone].id);
    }
  }

  /** In every run, whatever the next event, every socket gets at most one message of it, and that one is
      addressed to the socket's id and comes from the server or the acting client. */
  lemma EverySendIsAddressed(es: seq<Event>, n: nat, ws: Ws)
    requires n < |es|
    ensures Delivers(Run(es, n), es[n], Run(es, n + 1), ws)
  {
    var s := Run(es, n);
    TableIsHistory(es, n);
    match es[n]
    case Connect(_, _) =>
    case Disconnect(gone, open) => RemoveDelivers(s, gone, open, ws);
    case Incoming(sender, message, open) =>
      if sender in s.clients {
        RouteDelivers(s, sender, message, open, ws);
      }
  }

  // ----- an accepted message is answered -----

  function Sent(s: Table, ws: Ws, out: Out): Table {
    s.(sent := s.sent[ws := Outbox(s.sent, ws) + [out]])
  }

  lemma RelayAnswers(s: Table, sender: Ws, message: Message, open: set<Ws>)
    requires sender in s.clients && s.clients.Keys <= open
    requires var m := Normalize(message, s.clients[sender]);
             m.from == Some(s.clients[sender].id) && IsRelayed(m.kind) && Truthy(m.to)
    ensures var m := Normalize(message, s.clients[sender]);
            RouteMessage(s, sender, message, open) ==
            if Online(s, m.to.value) then Sent(s, s.sessions[m.to.value], Forward(m))
            else Sent(s, sender,
                 ErrorNotice(s.clients[sender].id, "Recipient " + m.to.value + " not found or offline."))
  {
    var m := Normalize(message, s.clients[sender]);
    assert m.kind != "join" && m.kind != "leave";
  }

  /** With open sockets, an accepted offer, answer or candidate with a recipient causes exactly one send:
      the message to the socket that owns the recipient's id, or an error to the sender. */
  lemma ExactlyOneSend(es: seq<Event>, n: nat, sender: Ws, message: Message, open: set<Ws>)
    requires n <= |es| && Run(es, n).clients.Keys <= open && sender in Run(es, n).clients
    requires var m := Normalize(message, Run(es, n).clients[sender]);
             m.from == Some(Run(es, n).clients[sender].id) && IsRelayed(m.kind) && Truthy(m.to)
    ensures var s := Run(es, n);
            var m, t := Normalize(message, s.clients[sender]), RouteMessage(s, sender, message, open);
            && (forall o | Owns(es, n, m.to.value, o) :: t == Sent(s, o, Forward(m)))
            && ((forall o :: !Owns(es, n, m.to.value, o)) ==>
                  t == Sent(s, sender,
                    ErrorNotice(s.clients[sender].id, "Recipient " + m.to.value + " not found or offline.")))
  {
    var s := Run(es, n);
    var m := Normalize(message, s.clients[sender]);
    TableIsHistory(es, n);
    RelayAnswers(s, sender, message, open);
    OnlineIsOwned(s, es, n, m.to.value);
    assert forall o | Owns(es, n, m.to.value, o) :: MapsTo(s, m.to.value, o);
  }

  // ----- leaving -----

  /** Removing the socket that owns an id tells exactly the other open sockets whose client targets that
      id; removing a socket that was shadowed by a newer login, or never added, tells nobody. */
  lemma LeaveFansOut(es: seq<Event>, n: nat, gone: Ws, open: set<Ws>, ws: Ws)
    requires n < |es| && es[n] == Disconnect(gone, open)
    ensures var s, t := Run(es, n), Run(es, n + 1);
            Outbox(t.sent, ws) ==
            if gone in s.clients && Owns(es, n, s.clients[gone].id, gone) && ws != gone && ws in open
               && ws in s.clients && s.clients[ws].target == Some(s.clients[gone].id)
            then Outbox(s.sent, ws) + [LeaveNotice(s.clients[gone].id, s.clients[ws].id, "Peer disconnected")]
            else Outbox(s.sent, ws)
  {
    TableIsHistory(es, n);
    var s := Run(es, n);
    if gone in s.clients {
      assert MapsTo(s, s.clients[gone].id, gone) <==> Owns(es, n, s.clients[gone].id, gone);
    }
  }

  // ----- envelopes -----

  predicate CarriesSession(kind: string) {
    kind == "join" || kind == "leave" || IsRelayed(kind)
  }

  /** An envelope around a join, leave, offer, answer or candidate has, in every state, the same effect on
      both maps and every outbox as its payload sent directly with the computed ids. */
  lemma EnvelopeIsTransparent(s: Table, sender: Ws, envelope: Message, open: set<Ws>)
    requires sender in s.clients && IsEnvelope(envelope) && CarriesSession(envelope.payload.value.kind)
    ensures var direct := envelope.payload.value.(from := Some(Or(envelope.from, s.clients[sender].id)),
                                                  to := Some(EnvelopeTo(envelope, s.clients[sender])));
            RouteMessage(s, sender, envelope, open) == RouteMessage(s, sender, direct, open)
  {
    var client := s.clients[sender];
    var direct := envelope.payload.value.(from := Some(Or(envelope.from, client.id)),
                                          to := Some(EnvelopeTo(envelope, client)));
    NotSignaling(direct.kind);
    assert Normalize(direct, client) == Normalize(envelope, client);
  }

  lemma NotSignaling(kind: string)
    requires CarriesSession(kind)
    ensures kind != "signaling"
  {
    assert |"signaling"| == 9 && "signaling"[0] != "candidate"[0];
  }

  /** Normalising the m-line key twice is normalising it once; the key that was given is kept, and a
      candidate that gave either key ends up with `sdpMLineIndex`. */
  lemma MlineNormalization(m: Message)
    ensures NormalizeMline(NormalizeMline(m)) == NormalizeMline(m)
    ensures NormalizeMline(m) == m.(sdpMLineIndex := NormalizeMline(m).sdpMLineIndex)
    ensures m.sdpMLineIndex.Some? ==> NormalizeMline(m) == m
    ensures m.kind == "candidate" && m.sdpMLineIndex.None? ==> NormalizeMline(m).sdpMLineIndex == m.sdpMlineIndex
  {
  }
}
