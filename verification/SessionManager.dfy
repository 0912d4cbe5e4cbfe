/** signaling_server/src/session_manager.js: the session table and the message router.

    Sockets are numbers and messages are already-parsed JSON records. Which sockets a send would succeed
    on is up to the environment: it is the `open` set of each operation. */
module SessionManager {
  import opened Wrappers

  type Ws = nat

  datatype Client = Client(id: string, target: Option<string>)

  datatype Data = Data(targetVehicleId: Option<string>)

  datatype Message = Message(
    kind: string,
    from: Option<string>,
    to: Option<string>,
    targetPeerId: Option<string>,
    data: Option<Data>,
    reason: Option<string>,
    sdpMLineIndex: Option<int>,
    sdpMlineIndex: Option<int>,
    body: string,
    payload: Option<Message>)

  datatype Out =
    | JoinRequest(from: string, to: string, clientId: string)
    | LeaveNotice(from: string, to: string, reason: string)
    | ErrorNotice(to: string, text: string)
    | Forward(message: Message)
  {
    function Sender(): Option<string> {
      match this
      case JoinRequest(f, _, _) => Some(f)
      case LeaveNotice(f, _, _) => Some(f)
      case ErrorNotice(_, _) => Some("server")
      case Forward(m) => m.from
    }

    function Addressee(): Option<string> {
      match this
      case JoinRequest(_, t, _) => Some(t)
      case LeaveNotice(_, t, _) => Some(t)
      case ErrorNotice(t, _) => Some(t)
      case Forward(m) => m.to
    }
  }

  /** The two maps of the module, and what was sent on each socket. */
  datatype Table = Table(clients: map<Ws, Client>, sessions: map<string, Ws>, sent: map<Ws, seq<Out>>)

  datatype Event =
    | Connect(ws: Ws, id: string)
    | Disconnect(ws: Ws, open: set<Ws>)
    | Incoming(ws: Ws, message: Message, open: set<Ws>)

  const EMPTY := Table(map[], map[], map[])

  function Outbox(sent: map<Ws, seq<Out>>, ws: Ws): seq<Out> {
    if ws in sent then sent[ws] else []
  }

  /** sendMessage: only an open socket gets the message. */
  function Send(s: Table, open: set<Ws>, ws: Ws, out: Out): Table {
    if ws in open then s.(sent := s.sent[ws := Outbox(s.sent, ws) + [out]]) else s
  }

  // ----- JavaScript's view of optional strings -----

  predicate Truthy(s: Option<string>) {
    s.Some? && s.value != ""
  }

  function Or(s: Option<string>, otherwise: string): string {
    if Truthy(s) then s.value else otherwise
  }

  // ----- normalising a message -----

  predicate IsEnvelope(m: Message) {
    m.kind == "signaling" && m.payload.Some?
  }

  function EnvelopeTo(m: Message, client: Client): string {
    Or(m.to, Or(m.targetPeerId, Or(client.target, "")))
  }

  function Unwrap(m: Message, client: Client): Message {
    if IsEnvelope(m) then m.payload.value.(from := Some(Or(m.from, client.id)), to := Some(EnvelopeTo(m, client)))
    else m
  }

  function NormalizeMline(m: Message): Message {
    if m.kind == "candidate" && m.sdpMLineIndex.None? && m.sdpMlineIndex.Some? then m.(sdpMLineIndex := m.sdpMlineIndex)
    else m
  }

  function Normalize(m: Message, client: Client): Message {
    NormalizeMline(Unwrap(m, client))
  }

  predicate Online(s: Table, id: string) {
    id in s.sessions && s.sessions[id] in s.clients
  }

  function SetTarget(s: Table, ws: Ws, target: Option<string>): Table
    requires ws in s.clients
  {
    s.(clients := s.clients[ws := s.clients[ws].(target := target)])
  }

  function JoinTarget(m: Message): Option<string> {
    if m.data.Some? then m.data.value.targetVehicleId else None
  }

  function Join(s: Table, ws: Ws, m: Message, open: set<Ws>): Table
    requires ws in s.clients
  {
    var id := s.clients[ws].id;
    var target := JoinTarget(m);
    if !Truthy(target) then s
    else if Online(s, target.value) then
      Send(SetTarget(s, ws, target), open, s.sessions[target.value], JoinRequest(id, target.value, id))
    else
      SetTarget(Send(s, open, ws,
          ErrorNotice(id, "Target vehicle " + target.value + " not found or offline.")), ws, None)
  }

  function Leave(s: Table, ws: Ws, m: Message, open: set<Ws>): Table
    requires ws in s.clients
  {
    var client := s.clients[ws];
    var told :=
      if Truthy(client.target) && Online(s, client.target.value) then
        Send(s, open, s.sessions[client.target.value],
          LeaveNotice(client.id, client.target.value, Or(m.reason, "Peer left session")))
      else s;
    SetTarget(told, ws, None)
  }

  function Relay(s: Table, ws: Ws, m: Message, open: set<Ws>): Table
    requires ws in s.clients
  {
    if !Truthy(m.to) then s
    else if Online(s, m.to.value) then Send(s, open, s.sessions[m.to.value], Forward(m))
    else Send(s, open, ws, ErrorNotice(s.clients[ws].id, "Recipient " + m.to.value + " not found or offline."))
  }

  predicate IsRelayed(kind: string) {
    kind == "offer" || kind == "answer" || kind == "candidate"
  }

  function Dispatch(s: Table, ws: Ws, m: Message, receivedKind: string, open: set<Ws>): Table
    requires ws in s.clients
  {
    if m.kind == "join" then Join(s, ws, m, open)
    else if m.kind == "leave" then Leave(s, ws, m, open)
    else if IsRelayed(m.kind) then Relay(s, ws, m, open)
    else Send(s, open, ws, ErrorNotice(s.clients[ws].id, "Unknown message type '" + receivedKind + "'."))
  }

  function RouteMessage(s: Table, ws: Ws, message: Message, open: set<Ws>): Table {
    if ws !in s.clients then s
    else
      var m := Normalize(message, s.clients[ws]);
      if m.from != Some(s.clients[ws].id) then s else Dispatch(s, ws, m, message.kind, open)
  }

  function AddClient(s: Table, ws: Ws, id: string): Table {
    if ws in s.clients then s
    else s.(clients := s.clients[ws := Client(id, None)], sessions := s.sessions[id := ws])
  }

  /** The open sockets among `whom` whose client targets `id`. */
  function Followers(clients: map<Ws, Client>, whom: set<Ws>, id: string, open: set<Ws>): set<Ws> {
    set o | o in whom && o in clients && clients[o].target == Some(id) && o in open
  }

  function TellFollowers(sent: map<Ws, seq<Out>>, clients: map<Ws, Client>, whom: set<Ws>, id: string, open: set<Ws>)
    : map<Ws, seq<Out>>
  {
    map o | o in sent.Keys + Followers(clients, whom, id, open) ::
      if o in Followers(clients, whom, id, open) then
        Outbox(sent, o) + [LeaveNotice(id, clients[o].id, "Peer disconnected")]
      else sent[o]
  }

  lemma TellOneMore(sent: map<Ws, seq<Out>>, clients: map<Ws, Client>, done: set<Ws>,
                    other: Ws, id: string, open: set<Ws>)
    requires other in clients && other !in done
    ensures var told := TellFollowers(sent, clients, done, id, open);
            TellFollowers(sent, clients, done + {other}, id, open) ==
            if clients[other].target == Some(id) && other in open then
              told[other := Outbox(told, other) + [LeaveNotice(id, clients[other].id, "Peer disconnected")]]
            else told
  {
    var now, later := Followers(clients, done, id, open), Followers(clients, done + {other}, id, open);
    assert later == if clients[other].target == Some(id) && other in open then now + {other} else now;
  }

  /** Removing a socket: its table entry goes, if it still holds the one of its id, and then the others
      that target the id are told. */
  function RemoveClient(s: Table, ws: Ws, open: set<Ws>): Table {
    if ws !in s.clients then s
    else
      var id := s.clients[ws].id;
      var clients := s.clients - {ws};
      if id in s.sessions && s.sessions[id] == ws then
        Table(clients, s.sessions - {id}, TellFollowers(s.sent, clients, clients.Keys, id, open))
      else s.(clients := clients)
  }

  function Step(s: Table, e: Event): Table {
    match e
    case Connect(ws, id) => AddClient(s, ws, id)
    case Disconnect(ws, open) => RemoveClient(s, ws, open)
    case Incoming(ws, message, open) => RouteMessage(s, ws, message, open)
  }

  /** The table after the first `n` events. */
  function Run(es: seq<Event>, n: nat): Table
    requires n <= |es|
  {
    if n == 0 then EMPTY else Step(Run(es, n - 1), es[n - 1])
  }

  /** Every session entry points to a connected socket that was authenticated under that id. */
  ghost predicate Valid(s: Table) {
    forall id | id in s.sessions :: s.sessions[id] in s.clients && s.clients[s.sessions[id]].id == id
  }

  // ----- the code -----

  class Manager {
    var connectedClients: map<Ws, Client>
    var sessions: map<string, Ws>
    var sent: map<Ws, seq<Out>>

    ghost function View(): Table
      reads this
    {
      Table(connectedClients, sessions, sent)
    }

    constructor ()
      ensures View() == EMPTY
      ensures connectedClients == map[] && sessions == map[] && sent == map[]
    {
      connectedClients, sessions, sent := map[], map[], map[];
    }

    method SendMessage(ws: Ws, out: Out, open: set<Ws>)
      modifies this`sent
      ensures View() == Send(old(View()), open, ws, out)
    {
      if ws in open {
        sent := sent[ws := (if ws in sent then sent[ws] else []) + [out]];
      }
    }

    method Add(ws: Ws, clientId: string)
      modifies this
      ensures View() == AddClient(old(View()), ws, clientId)
    {
      if ws in connectedClients {
        return;
      }
      connectedClients := connectedClients[ws := Client(clientId, None)];
      sessions := sessions[clientId := ws];
    }

    /** The search over the session entries stops at the first one that holds the socket; on a valid
        table there is no other. */
    method Remove(ws: Ws, open: set<Ws>)
      requires Valid(View())
      modifies this
      ensures View() == RemoveClient(old(View()), ws, open)
    {
      if ws !in connectedClients {
        return;
      }
      var info := connectedClients[ws];
      connectedClients := connectedClients - {ws};
      var entries := sessions.Keys;
      while entries != {}
        invariant entries <= sessions.Keys
        invariant View() == old(View()).(clients := old(connectedClients) - {ws})
        invariant forall id | id in sessions && sessions[id] == ws :: id in entries
        decreases |entries|
      {
        var clientId :| clientId in entries;
        entries := entries - {clientId};
        if sessions[clientId] == ws {
          sessions := sessions - {clientId};
          NotifyFollowers(info.id, open);
          break;
        }
      }
    }

    method NotifyFollowers(id: string, open: set<Ws>)
      modifies this`sent
      ensures sent == TellFollowers(old(sent), connectedClients, connectedClients.Keys, id, open)
    {
      var left, done := connectedClients.Keys, {};
      while left != {}
        invariant left + done == connectedClients.Keys && left !! done
        invariant sent == TellFollowers(old(sent), connectedClients, done, id, open)
        decreases |left|
      {
        var other :| other in left;
        left := left - {other};
        TellOneMore(old(sent), connectedClients, done, other, id, open);
        if connectedClients[other].target == Some(id) {
          SendMessage(other, LeaveNotice(id, connectedClients[other].id, "Peer disconnected"), open);
        }
        done := done + {other};
      }
    }

    method Route(senderWs: Ws, message: Message, open: set<Ws>)
      modifies this
      ensures View() == RouteMessage(old(View()), senderWs, message, open)
    {
      if senderWs !in connectedClients {
        return;
      }
      var info := connectedClients[senderWs];
      var normalized := message;
      if message.kind == "signaling" && message.payload.Some? {
        normalized := message.payload.value.(from := Some(Or(message.from, info.id)),
                                             to := Some(EnvelopeTo(message, info)));
      }
      if normalized.kind == "candidate" && normalized.sdpMLineIndex.None? && normalized.sdpMlineIndex.Some? {
        normalized := normalized.(sdpMLineIndex := normalized.sdpMlineIndex);
      }
      if normalized.from != Some(info.id) {
        return;
      }
      if normalized.kind == "join" {
        RouteJoin(senderWs, normalized, open);
      } else if normalized.kind == "leave" {
        RouteLeave(senderWs, normalized, open);
      } else if IsRelayed(normalized.kind) {
        RouteRelay(senderWs, normalized, open);
      } else {
        SendMessage(senderWs, ErrorNotice(info.id, "Unknown message type '" + message.kind + "'."), open);
      }
    }

    method RouteJoin(senderWs: Ws, m: Message, open: set<Ws>)
      requires senderWs in connectedClients
      modifies this
      ensures View() == Join(old(View()), senderWs, m, open)
    {
      var info := connectedClients[senderWs];
      var target := if m.data.Some? then m.data.value.targetVehicleId else None;
      if !Truthy(target) {
        return;
      }
      connectedClients := connectedClients[senderWs := info.(target := target)];
      if target.value in sessions && sessions[target.value] in connectedClients {
        SendMessage(sessions[target.value], JoinRequest(info.id, target.value, info.id), open);
      } else {
        SendMessage(senderWs, ErrorNotice(info.id, "Target vehicle " + target.value + " not found or offline."), open);
        connectedClients := connectedClients[senderWs := info.(target := None)];
      }
    }

    method RouteLeave(senderWs: Ws, m: Message, open: set<Ws>)
      requires senderWs in connectedClients
      modifies this
      ensures View() == Leave(old(View()), senderWs, m, open)
    {
      var info := connectedClients[senderWs];
      if Truthy(info.target) {
        var target := info.target.value;
        if target in sessions && sessions[target] in connectedClients {
          SendMessage(sessions[target], LeaveNotice(info.id, target, Or(m.reason, "Peer left session")), open);
        }
      }
      connectedClients := connectedClients[senderWs := info.(target := None)];
    }

    method RouteRelay(senderWs: Ws, m: Message, open: set<Ws>)
      requires senderWs in connectedClients
      modifies this
      ensures View() == Relay(old(View()), senderWs, m, open)
    {
      if !Truthy(m.to) {
        return;
      }
      var recipient := m.to.value;
      if recipient in sessions && sessions[recipient] in connectedClients {
        SendMessage(sessions[recipient], Forward(m), open);
      } else {
        SendMessage(senderWs,
          ErrorNotice(connectedClients[senderWs].id, "Recipient " + recipient + " not found or offline."), open);
      }
    }
  }
}
