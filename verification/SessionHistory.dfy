/** What the session table and the router do over every run, told in terms of the run's history. */
module SessionHistory {
  import opened Wrappers
  import opened SessionManager

  // ----- the history, without the table -----

  predicate Leaves(e: Event, ws: Ws) {
    e.Disconnect? && e.ws == ws
  }

  /** After `n` events the socket was added and has not been removed since. */
  ghost predicate ConnectedAt(es: seq<Event>, n: nat, ws: Ws)
    requires n <= |es|
  {
    exists i | 0 <= i < n :: es[i].Connect? && es[i].ws == ws && forall j | i < j < n :: !Leaves(es[j], ws)
  }

  /** Event `i` logs the socket in under the id; adding a socket that is already connected does not. */
  ghost predicate LogsIn(es: seq<Event>, i: nat, ws: Ws, id: string)
    requires i < |es|
  {
    es[i] == Connect(ws, id) && !ConnectedAt(es, i, ws)
  }

  ghost predicate LogsInAs(es: seq<Event>, i: nat, id: string)
    requires i < |es|
  {
    exists ws :: LogsIn(es, i, ws, id)
  }

  /** The socket was the last to log in under the id, and has not been removed since. */
  ghost predicate Owns(es: seq<Event>, n: nat, id: string, ws: Ws)
    requires n <= |es|
  {
    exists i | 0 <= i < n :: LogsIn(es, i, ws, id) && forall j | i < j < n :: !Leaves(es[j], ws) && !LogsInAs(es, j, id)
  }

  /** The socket's last login was under the id, and it has not been removed since. */
  ghost predicate LoggedInAs(es: seq<Event>, n: nat, ws: Ws, id: string)
    requires n <= |es|
  {
    exists i | 0 <= i < n :: LogsIn(es, i, ws, id) && forall j | i < j < n :: !Leaves(es[j], ws)
  }

  // ----- one event further -----

  lemma ConnectedNext(es: seq<Event>, n: nat, ws: Ws)
    requires n < |es|
    ensures ConnectedAt(es, n + 1, ws) <==>
            (es[n].Connect? && es[n].ws == ws) || (ConnectedAt(es, n, ws) && !Leaves(es[n], ws))
  {
    if es[n].Connect? && es[n].ws == ws {
      assert ConnectedAt(es, n + 1, ws);
    } else if ConnectedAt(es, n, ws) && !Leaves(es[n], ws) {
      var i :| 0 <= i < n && es[i].Connect? && es[i].ws == ws && forall j | i < j < n :: !Leaves(es[j], ws);
      assert forall j | i < j < n + 1 :: !Leaves(es[j], ws);
    }
  }

  lemma LoggedInNext(es: seq<Event>, n: nat, ws: Ws, id: string)
    requires n < |es|
    ensures LoggedInAs(es, n + 1, ws, id) <==>
            LogsIn(es, n, ws, id) || (LoggedInAs(es, n, ws, id) && !Leaves(es[n], ws))
  {
    if LogsIn(es, n, ws, id) {
    } else if LoggedInAs(es, n, ws, id) && !Leaves(es[n], ws) {
      var i :| 0 <= i < n && LogsIn(es, i, ws, id) && forall j | i < j < n :: !Leaves(es[j], ws);
      assert forall j | i < j < n + 1 :: !Leaves(es[j], ws);
    }
  }

  lemma OwnsNext(es: seq<Event>, n: nat, id: string, ws: Ws)
    requires n < |es|
    ensures Owns(es, n + 1, id, ws) <==>
            LogsIn(es, n, ws, id) || (Owns(es, n, id, ws) && !Leaves(es[n], ws) && !LogsInAs(es, n, id))
  {
    if LogsIn(es, n, ws, id) {
    } else if Owns(es, n, id, ws) && !Leaves(es[n], ws) && !LogsInAs(es, n, id) {
      var i :| 0 <= i < n && LogsIn(es, i, ws, id)
               && forall j | i < j < n :: !Leaves(es[j], ws) && !LogsInAs(es, j, id);
      assert forall j | i < j < n + 1 :: !Leaves(es[j], ws) && !LogsInAs(es, j, id);
    }
  }

  // ----- the table is its history -----

  lemma DispatchKeepsTable(s: Table, ws: Ws, m: Message, receivedKind: string, open: set<Ws>)
    requires ws in s.clients
    ensures var t := Dispatch(s, ws, m, receivedKind, open);
            && t.sessions == s.sessions && t.clients.Keys == s.clients.Keys
            && forall o | o in s.clients :: t.clients[o].id == s.clients[o].id
  {
    if m.kind == "join" {
      assert Dispatch(s, ws, m, receivedKind, open) == Join(s, ws, m, open);
    } else if m.kind == "leave" {
      assert Dispatch(s, ws, m, receivedKind, open) == Leave(s, ws, m, open);
    }
  }

  lemma RouteKeepsTable(s: Table, ws: Ws, message: Message, open: set<Ws>)
    ensures var t := RouteMessage(s, ws, message, open);
            t.sessions == s.sessions && t.clients.Keys == s.clients.Keys &&
            forall o | o in s.clients :: t.clients[o].id == s.clients[o].id
  {
    hide Dispatch;
    if ws in s.clients {
      DispatchKeepsTable(s, ws, Normalize(message, s.clients[ws]), message.kind, open);
    }
  }

  predicate AuthenticatedAs(s: Table, ws: Ws, id: string) {
    ws in s.clients && s.clients[ws].id == id
  }

  predicate MapsTo(s: Table, id: string, ws: Ws) {
    id in s.sessions && s.sessions[id] == ws
  }

  ghost predicate TableIs(s: Table, es: seq<Event>, n: nat)
    requires n <= |es|
  {
    && (forall ws: Ws :: ws in s.clients <==> ConnectedAt(es, n, ws))
    && (forall ws: Ws, id: string :: AuthenticatedAs(s, ws, id) <==> LoggedInAs(es, n, ws, id))
    && (forall ws: Ws, id: string :: MapsTo(s, id, ws) <==> Owns(es, n, id, ws))
  }

  lemma ClientsNext(s: Table, es: seq<Event>, n: nat, ws: Ws)
    requires n < |es| && TableIs(s, es, n)
    ensures ws in Step(s, es[n]).clients <==> ConnectedAt(es, n + 1, ws)
  {
    ConnectedNext(es, n, ws);
    if es[n].Incoming? {
      RouteKeepsTable(s, es[n].ws, es[n].message, es[n].open);
    }
  }

  lemma IdsNext(s: Table, es: seq<Event>, n: nat, ws: Ws, id: string)
    requires n < |es| && TableIs(s, es, n)
    ensures AuthenticatedAs(Step(s, es[n]), ws, id) <==> LoggedInAs(es, n + 1, ws, id)
  {
    LoggedInNext(es, n, ws, id);
    assert AuthenticatedAs(s, ws, id) <==> LoggedInAs(es, n, ws, id);
    if es[n].Incoming? {
      RouteKeepsTable(s, es[n].ws, es[n].message, es[n].open);
    }
  }

  lemma SessionsNext(s: Table, es: seq<Event>, n: nat, ws: Ws, id: string)
    requires n < |es| && TableIs(s, es, n) && Valid(s)
    ensures MapsTo(Step(s, es[n]), id, ws) <==> Owns(es, n + 1, id, ws)
  {
    OwnsNext(es, n, id, ws);
    assert MapsTo(s, id, ws) <==> Owns(es, n, id, ws);
    match es[n]
    case Connect(w, i) =>
      assert LogsInAs(es, n, id) <==> i == id && !ConnectedAt(es, n, w) by {
        if i == id && !ConnectedAt(es, n, w) { assert LogsIn(es, n, w, id); }
      }
    case Disconnect(w, open) =>
    case Incoming(w, message, open) => RouteKeepsTable(s, w, message, open);
  }

  lemma TableStart(es: seq<Event>)
    ensures TableIs(EMPTY, es, 0) && Valid(EMPTY)
  {
  }

  lemma TableNext(s: Table, t: Table, es: seq<Event>, n: nat)
    requires n < |es| && TableIs(s, es, n) && Valid(s) && t == Step(s, es[n])
    ensures TableIs(t, es, n + 1) && Valid(t)
  {
    StepKeepsValid(s, es[n]);
    forall ws: Ws
      ensures ws in t.clients <==> ConnectedAt(es, n + 1, ws)
    {
      ClientsNext(s, es, n, ws);
    }
    forall ws: Ws, id: string
      ensures AuthenticatedAs(t, ws, id) <==> LoggedInAs(es, n + 1, ws, id)
      ensures MapsTo(t, id, ws) <==> Owns(es, n + 1, id, ws)
    {
      IdsNext(s, es, n, ws, id);
      SessionsNext(s, es, n, ws, id);
    }
  }

  /** After any run: a socket is in the client map exactly when it is connected, with the id it logged
      in under; an id maps to a socket exactly when that socket is the last one that logged in under it
      and has not been removed since. So removing a shadowed socket leaves the newer login alone. */
  lemma {:induction false} TableIsHistory(es: seq<Event>, n: nat)
    requires n <= |es|
    ensures TableIs(Run(es, n), es, n) && Valid(Run(es, n))
  {
    hide Step, TableIs, Valid;
    if n > 0 {
      TableIsHistory(es, n - 1);
      TableNext(Run(es, n - 1), Run(es, n), es, n - 1);
    } else {
      TableStart(es);
    }
  }

  /** Every entry points to a connected socket of that id, whatever the operation: the table stays
      injective, and the router's `connectedClients.has` checks never fail. */
  lemma StepKeepsValid(s: Table, e: Event)
    requires Valid(s)
    ensures Valid(Step(s, e))
  {
    if e.Incoming? {
      RouteKeepsTable(s, e.ws, e.message, e.open);
    }
  }

  lemma ValidIsInjective(s: Table, id: string, other: string)
    requires Valid(s) && id in s.sessions && other in s.sessions && s.sessions[id] == s.sessions[other]
    ensures id == other && Online(s, id)
  {
  }

  /** Removing a socket leaves every login of another socket alone, the newer login under its own id
      included. */
  lemma RemovalKeepsOtherLogins(es: seq<Event>, n: nat, id: string, ws: Ws)
    requires n < |es| && es[n].Disconnect? && Owns(es, n, id, ws) && es[n].ws != ws
    ensures MapsTo(Run(es, n + 1), id, ws)
  {
    hide Step;
    TableIsHistory(es, n + 1);
    OwnsNext(es, n, id, ws);
  }

  // ----- a client's target -----

  /** The kind, target and acceptance of a message do not depend on the table: only on the id its socket
      is authenticated with. */
  predicate AcceptedFrom(m: Message, id: string) {
    if IsEnvelope(m) then Or(m.from, id) == id else m.from == Some(id)
  }

  function Inner(m: Message): Message {
    if IsEnvelope(m) then m.payload.value else m
  }

  /** What event `i` makes of the socket's target: nothing, or a new one. A join takes effect with a
      target, and lasts if somebody owns that id. */
  ghost function Retarget(es: seq<Event>, i: nat, ws: Ws): Option<Option<string>>
    requires i < |es|
  {
    match es[i]
    case Connect(w, id) => if w == ws && !ConnectedAt(es, i, ws) then Some(None) else None
    case Disconnect(w, _) => None
    case Incoming(w, message, _) =>
      if w != ws || !(exists id :: LoggedInAs(es, i, ws, id) && AcceptedFrom(message, id)) then None
      else
        var m := Inner(message);
        if m.kind == "join" && Truthy(JoinTarget(m)) then
          Some(if exists o :: Owns(es, i, JoinTarget(m).value, o) then JoinTarget(m) else None)
        else if m.kind == "leave" then Some(None)
        else None
  }

  /** The target last set by the history of the socket. */
  ghost predicate LastTarget(es: seq<Event>, n: nat, ws: Ws, target: Option<string>)
    requires n <= |es|
  {
    exists i | 0 <= i < n :: Retarget(es, i, ws) == Some(target) && forall j | i < j < n :: Retarget(es, j, ws) == None
  }

  lemma LastTargetNext(es: seq<Event>, n: nat, ws: Ws, target: Option<string>)
    requires n < |es|
    requires Retarget(es, n, ws) == Some(target) || (Retarget(es, n, ws) == None && LastTarget(es, n, ws, target))
    ensures LastTarget(es, n + 1, ws, target)
  {
    if Retarget(es, n, ws) == None {
      var i :| 0 <= i < n && Retarget(es, i, ws) == Some(target) && forall j | i < j < n :: Retarget(es, j, ws) == None;
      assert forall j | i < j < n + 1 :: Retarget(es, j, ws) == None;
    }
  }

  lemma OnlineIsOwned(s: Table, es: seq<Event>, n: nat, id: string)
    requires n <= |es| && TableIs(s, es, n) && Valid(s)
    ensures Online(s, id) <==> exists o :: Owns(es, n, id, o)
  {
    if Online(s, id) {
      assert MapsTo(s, id, s.sessions[id]);
    }
    if o :| Owns(es, n, id, o) {
      assert MapsTo(s, id, o);
    }
  }

  lemma AcceptanceIsLogin(s: Table, es: seq<Event>, n: nat, ws: Ws, m: Message)
    requires n <= |es| && TableIs(s, es, n)
    ensures (exists id :: LoggedInAs(es, n, ws, id) && AcceptedFrom(m, id)) <==>
            ws in s.clients && AcceptedFrom(m, s.clients[ws].id)
  {
    assert ws in s.clients ==> AuthenticatedAs(s, ws, s.clients[ws].id);
    if id :| LoggedInAs(es, n, ws, id) && AcceptedFrom(m, id) {
      assert AuthenticatedAs(s, ws, id);
    }
  }

  /** The target a message gives its own sender, on a table where it is accepted. */
  function NewTarget(s: Table, m: Message, target: Option<string>): Option<string> {
    if m.kind == "join" && Truthy(JoinTarget(m)) then
      if Online(s, JoinTarget(m).value) then JoinTarget(m) else None
    else if m.kind == "leave" then None
    else target
  }

  lemma DispatchTargets(s: Table, w: Ws, m: Message, receivedKind: string, open: set<Ws>, ws: Ws)
    requires w in s.clients && ws in s.clients
    ensures var t := Dispatch(s, w, m, receivedKind, open);
            ws in t.clients && t.clients[ws].target ==
            if w != ws then s.clients[ws].target else NewTarget(s, m, s.clients[ws].target)
  {
    if m.kind == "join" {
      assert Dispatch(s, w, m, receivedKind, open) == Join(s, w, m, open);
    } else if m.kind == "leave" {
      assert Dispatch(s, w, m, receivedKind, open) == Leave(s, w, m, open);
    }
  }

  /** What routing does to a client's target. */
  lemma RouteTargets(s: Table, w: Ws, message: Message, open: set<Ws>, ws: Ws)
    requires ws in s.clients
    ensures var target, t := s.clients[ws].target, RouteMessage(s, w, message, open);
            ws in t.clients && t.clients[ws].target ==
            if w != ws || !AcceptedFrom(message, s.clients[ws].id) then target else NewTarget(s, Inner(message), target)
  {
    hide Dispatch;
    if w in s.clients {
      DispatchTargets(s, w, Normalize(message, s.clients[w]), message.kind, open, ws);
    }
  }

  lemma TargetNext(s: Table, es: seq<Event>, n: nat, ws: Ws)
    requires n < |es| && TableIs(s, es, n) && Valid(s)
    requires ws in s.clients ==> LastTarget(es, n, ws, s.clients[ws].target)
    requires ws in Step(s, es[n]).clients
    ensures LastTarget(es, n + 1, ws, Step(s, es[n]).clients[ws].target)
  {
    hide RouteMessage, LastTarget, Owns, LoggedInAs;
    if es[n].Incoming? {
      RouteKeepsTable(s, es[n].ws, es[n].message, es[n].open);
      RouteTargets(s, es[n].ws, es[n].message, es[n].open, ws);
      AcceptanceIsLogin(s, es, n, ws, es[n].message);
      var target := JoinTarget(Inner(es[n].message));
      if target.Some? { OnlineIsOwned(s, es, n, target.value); }
    }
    LastTargetNext(es, n, ws, Step(s, es[n]).clients[ws].target);
  }

  /** A connected client's target is the one its last effective join or leave gave it. */
  lemma {:induction false} TargetIsHistory(es: seq<Event>, n: nat, ws: Ws)
    requires n <= |es| && ws in Run(es, n).clients
    ensures LastTarget(es, n, ws, Run(es, n).clients[ws].target)
  {
    hide Step, TableIs, Valid, LastTarget;
    if n > 0 {
      var s := Run(es, n - 1);
      TableIsHistory(es, n - 1);
      if ws in s.clients {
        TargetIsHistory(es, n - 1, ws);
      }
      TargetNext(s, es, n - 1, ws);
    }
  }

  /** The history leaves a client no choice of target. */
  lemma LastTargetIsOne(es: seq<Event>, n: nat, ws: Ws, target: Option<string>, other: Option<string>)
    requires n <= |es| && LastTarget(es, n, ws, target) && LastTarget(es, n, ws, other)
    ensures target == other
  {
    hide Retarget;
  }

  /** So a client's target is a function of the history. */
  lemma TargetExactly(es: seq<Event>, n: nat, ws: Ws, target: Option<string>)
    requires n <= |es| && ws in Run(es, n).clients
    ensures Run(es, n).clients[ws].target == target <==> LastTarget(es, n, ws, target)
  {
    hide Step, Retarget, LastTarget;
    TargetIsHistory(es, n, ws);
    if LastTarget(es, n, ws, target) {
      LastTargetIsOne(es, n, ws, target, Run(es, n).clients[ws].target);
    }
  }
}
