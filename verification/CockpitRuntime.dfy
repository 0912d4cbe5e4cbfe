/** cockpit_client/domain/runtime_state.cc: the cockpit's session state machine. */
module CockpitRuntime {
  import opened Timeline

  datatype Session = DISCONNECTED | CONNECTING | CONNECTED | REMOTE_CONTROL | SAFE_STOP | RECONNECTING

  /** The vehicle mode the cockpit displays. */
  datatype VehicleMode = AUTO_MODE | REMOTE_MODE | SAFE_STOP_MODE

  datatype Stats = Stats(
    commandsSent: nat,
    commandAcks: nat,
    wsConnectedEvents: nat,
    wsDisconnectedEvents: nat,
    wsMessagesReceived: nat,
    inputCommandsReceived: nat,
    peerConnectedEvents: nat,
    peerDisconnectedEvents: nat,
    networkUpEvents: nat,
    networkDownEvents: nat,
    heartbeatLostEvents: nat)

  datatype State = State(
    session: Session,
    vehicleMode: VehicleMode,
    emergency: bool,
    expectedSpeed: real,
    connected: bool,
    wsClients: set<int>,
    timeline: seq<Session>,
    stats: Stats)

  datatype Event =
    | Connecting
    | WsConnected(id: int)
    | WsDisconnected(id: int)
    | PeerConnected
    | PeerDisconnected
    | NetworkDown
    | NetworkUp
    | HeartbeatLost
    | Command(source: string, name: string)

  /** The start-up state, after the application's first PushState. */
  const START := State(DISCONNECTED, AUTO_MODE, false, 0.0, false, {}, [DISCONNECTED],
    Stats(0, 0, 0, 0, 0, 0, 0, 0, 0, 0, 0))

  function Enter(s: State, session: Session): State {
    s.(session := session, timeline := Push(s.timeline, session))
  }

  predicate Accepts(s: State, name: string) {
    && (s.connected || name == "EMERGENCY_STOP")
    && (|| (name == "TAKEOVER_REQUEST" && s.session == CONNECTED)
        || (name == "FORWARD" && s.session == REMOTE_CONTROL && !s.emergency)
        || (name == "STOP" && s.session == REMOTE_CONTROL)
        || name == "EMERGENCY_STOP"
        || (name == "RECOVER_AUTO" && s.session == SAFE_STOP))
  }

  function Obey(s: State, name: string): State
    requires Accepts(s, name)
  {
    if name == "TAKEOVER_REQUEST" then Enter(s, REMOTE_CONTROL).(vehicleMode := REMOTE_MODE)
    else if name == "FORWARD" then s.(expectedSpeed := 6.0)
    else if name == "STOP" then s.(expectedSpeed := 0.0)
    else if name == "EMERGENCY_STOP" then
      Enter(s, SAFE_STOP).(vehicleMode := SAFE_STOP_MODE, emergency := true, expectedSpeed := 0.0)
    else Enter(s, CONNECTED).(vehicleMode := AUTO_MODE, emergency := false, expectedSpeed := 0.0)
  }

  function CountCommand(n: Stats, source: string): Stats {
    n.(commandsSent := n.commandsSent + 1, commandAcks := n.commandAcks + 1,
       wsMessagesReceived := n.wsMessagesReceived + (if source == "web" then 1 else 0),
       inputCommandsReceived := n.inputCommandsReceived + (if source == "input" then 1 else 0))
  }

  function Step(s: State, e: Event): State {
    var n := s.stats;
    match e
    case Connecting => Enter(s, CONNECTING)
    case WsConnected(id) =>
      s.(wsClients := s.wsClients + {id}, stats := n.(wsConnectedEvents := n.wsConnectedEvents + 1))
    case WsDisconnected(id) =>
      s.(wsClients := s.wsClients - {id}, stats := n.(wsDisconnectedEvents := n.wsDisconnectedEvents + 1))
    case PeerConnected =>
      var arrived := if s.emergency then Enter(s, s.session)
                     else Enter(s, CONNECTED).(vehicleMode := AUTO_MODE, expectedSpeed := 0.0);
      arrived.(connected := true, stats := n.(peerConnectedEvents := n.peerConnectedEvents + 1))
    case PeerDisconnected =>
      Enter(s, DISCONNECTED).(connected := false, vehicleMode := AUTO_MODE, expectedSpeed := 0.0,
                              stats := n.(peerDisconnectedEvents := n.peerDisconnectedEvents + 1))
    case NetworkDown =>
      Enter(s, RECONNECTING).(connected := false, expectedSpeed := 0.0,
                              stats := n.(networkDownEvents := n.networkDownEvents + 1))
    case NetworkUp =>
      Enter(s, if s.emergency then SAFE_STOP else CONNECTED).(
        connected := true, vehicleMode := if s.emergency then SAFE_STOP_MODE else AUTO_MODE, expectedSpeed := 0.0,
        stats := n.(networkUpEvents := n.networkUpEvents + 1))
    case HeartbeatLost =>
      Enter(s, SAFE_STOP).(vehicleMode := SAFE_STOP_MODE, emergency := true, expectedSpeed := 0.0,
                           stats := n.(heartbeatLostEvents := n.heartbeatLostEvents + 1))
    case Command(source, name) =>
      if Accepts(s, name) then Obey(s, name).(stats := CountCommand(n, source)) else s
  }

  function Run(es: seq<Event>): State {
    if es == [] then START else Step(Run(es[..|es| - 1]), es[|es| - 1])
  }

  /** The connection thread announces CONNECTING once, before anything else happens. */
  ghost predicate Legal(es: seq<Event>) {
    forall i | 0 < i < |es| :: !es[i].Connecting?
  }

  // ----- the code -----

  class RuntimeState {
    var session: Session
    var vehicleMode: VehicleMode
    var emergency: bool
    var expectedSpeed: real
    var connected: bool
    var wsClients: set<int>
    var timeline: seq<Session>
    var stats: Stats

    ghost function View(): State
      reads this
    {
      State(session, vehicleMode, emergency, expectedSpeed, connected, wsClients, timeline, stats)
    }

    constructor ()
      ensures View() == START
      ensures session == DISCONNECTED && vehicleMode == AUTO_MODE && !emergency && expectedSpeed == 0.0 && !connected
      ensures wsClients == {} && timeline == [DISCONNECTED] && stats == Stats(0, 0, 0, 0, 0, 0, 0, 0, 0, 0, 0)
    {
      session, vehicleMode, emergency, expectedSpeed, connected := DISCONNECTED, AUTO_MODE, false, 0.0, false;
      wsClients, timeline, stats := {}, [], Stats(0, 0, 0, 0, 0, 0, 0, 0, 0, 0, 0);
      new;
      PushState(DISCONNECTED);
    }

    method PushState(value: Session)
      modifies this`timeline
      ensures timeline == Push(old(timeline), value)
    {
      if |timeline| == 0 || timeline[|timeline| - 1] != value {
        timeline := timeline + [value];
      }
    }

    /** The opening step of connection_loop. */
    method AnnounceConnecting()
      modifies this
      ensures View() == Step(old(View()), Connecting)
    {
      session := CONNECTING;
      PushState(session);
    }

    method OnWsConnected(id: int)
      modifies this
      ensures View() == Step(old(View()), WsConnected(id))
    {
      wsClients := wsClients + {id};
      stats := stats.(wsConnectedEvents := stats.wsConnectedEvents + 1);
    }

    method OnWsDisconnected(id: int)
      modifies this
      ensures View() == Step(old(View()), WsDisconnected(id))
    {
      wsClients := wsClients - {id};
      stats := stats.(wsDisconnectedEvents := stats.wsDisconnectedEvents + 1);
    }

    method OnPeerConnected()
      modifies this
      ensures View() == Step(old(View()), PeerConnected)
    {
      connected := true;
      if !emergency {
        session := CONNECTED;
        vehicleMode := AUTO_MODE;
        expectedSpeed := 0.0;
      }
      PushState(session);
      stats := stats.(peerConnectedEvents := stats.peerConnectedEvents + 1);
    }

    method OnPeerDisconnected()
      modifies this
      ensures View() == Step(old(View()), PeerDisconnected)
    {
      connected := false;
      session := DISCONNECTED;
      vehicleMode := AUTO_MODE;
      expectedSpeed := 0.0;
      PushState(session);
      stats := stats.(peerDisconnectedEvents := stats.peerDisconnectedEvents + 1);
    }

    method OnNetworkDown()
      modifies this
      ensures View() == Step(old(View()), NetworkDown)
    {
      connected := false;
      session := RECONNECTING;
      expectedSpeed := 0.0;
      PushState(session);
      stats := stats.(networkDownEvents := stats.networkDownEvents + 1);
    }

    method OnNetworkUp()
      modifies this
      ensures View() == Step(old(View()), NetworkUp)
    {
      connected := true;
      session := if emergency then SAFE_STOP else CONNECTED;
      vehicleMode := if emergency then SAFE_STOP_MODE else AUTO_MODE;
      expectedSpeed := 0.0;
      PushState(session);
      stats := stats.(networkUpEvents := stats.networkUpEvents + 1);
    }

    method OnHeartbeatLost()
      modifies this
      ensures View() == Step(old(View()), HeartbeatLost)
    {
      session := SAFE_STOP;
      vehicleMode := SAFE_STOP_MODE;
      emergency := true;
      expectedSpeed := 0.0;
      PushState(session);
      stats := stats.(heartbeatLostEvents := stats.heartbeatLostEvents + 1);
    }

    /** The branches of ApplyCommand. */
    method Transition(name: string) returns (accepted: bool)
      modifies this
      ensures accepted == Accepts(old(View()), name)
      ensures View() == if accepted then Obey(old(View()), name) else old(View())
    {
      var allowWhenDisconnected := name == "EMERGENCY_STOP";
      if !connected && !allowWhenDisconnected {
        return false;
      }
      if name == "TAKEOVER_REQUEST" && session == CONNECTED {
        session := REMOTE_CONTROL;
        vehicleMode := REMOTE_MODE;
        PushState(session);
      } else if name == "FORWARD" && session == REMOTE_CONTROL && !emergency {
        expectedSpeed := 6.0;
      } else if name == "STOP" && session == REMOTE_CONTROL {
        expectedSpeed := 0.0;
      } else if name == "EMERGENCY_STOP" {
        session := SAFE_STOP;
        vehicleMode := SAFE_STOP_MODE;
        emergency := true;
        expectedSpeed := 0.0;
        PushState(session);
      } else if name == "RECOVER_AUTO" && session == SAFE_STOP && connected {
        session := CONNECTED;
        vehicleMode := AUTO_MODE;
        emergency := false;
        expectedSpeed := 0.0;
        PushState(session);
      } else {
        return false;
      }
      return true;
    }

    method ApplyCommand(source: string, name: string) returns (accepted: bool)
      modifies this
      ensures View() == Step(old(View()), Command(source, name))
      ensures accepted == Accepts(old(View()), name)
    {
      accepted := Transition(name);
      if !accepted {
        return;
      }
      stats := stats.(commandsSent := stats.commandsSent + 1);
      stats := stats.(commandAcks := stats.commandAcks + 1);
      if source == "web" {
        stats := stats.(wsMessagesReceived := stats.wsMessagesReceived + 1);
      } else if source == "input" {
        stats := stats.(inputCommandsReceived := stats.inputCommandsReceived + 1);
      }
    }
  }

  // ----- safety over every run -----

  ghost predicate Safe(s: State) {
    && (s.session == CONNECTED || s.session == REMOTE_CONTROL <==> s.connected && !s.emergency)
    && (s.session == SAFE_STOP ==> s.emergency && s.vehicleMode == SAFE_STOP_MODE)
    && (s.emergency ==> s.session == SAFE_STOP || s.session == RECONNECTING || s.session == DISCONNECTED)
    && (s.session == REMOTE_CONTROL ==> s.vehicleMode == REMOTE_MODE)
    && (s.expectedSpeed == 0.0 || (s.expectedSpeed == 6.0 && s.session == REMOTE_CONTROL))
    && s.stats.commandsSent == s.stats.commandAcks
  }

  lemma StepKeepsSafe(s: State, e: Event)
    requires Safe(s) && !e.Connecting?
    ensures Safe(Step(s, e))
  {
  }

  lemma OnlyRecoverAutoClears(s: State, e: Event)
    ensures s.emergency && !Step(s, e).emergency ==> e.Command? && e.name == "RECOVER_AUTO"
  {
  }

  /** Over every event sequence that announces CONNECTING at most at its start. */
  lemma {:induction false} CockpitIsSafe(es: seq<Event>)
    requires Legal(es)
    ensures Safe(Run(es))
  {
    if |es| == 1 && es[0].Connecting? {
      assert es[..0] == [];
    } else if es != [] {
      CockpitIsSafe(es[..|es| - 1]);
      StepKeepsSafe(Run(es[..|es| - 1]), es[|es| - 1]);
    }
  }

  /** A raised emergency outlasts every run that holds no RECOVER_AUTO. */
  lemma {:induction false} EmergencyHolds(before: seq<Event>, after: seq<Event>)
    requires Run(before).emergency && forall e | e in after :: !(e.Command? && e.name == "RECOVER_AUTO")
    ensures Run(before + after).emergency
  {
    hide Step;
    if after == [] {
      assert before + after == before;
    } else {
      var n := |after| - 1;
      assert (before + after)[..|before| + n] == before + after[..n];
      assert !(after[n].Command? && after[n].name == "RECOVER_AUTO");
      EmergencyHolds(before, after[..n]);
      OnlyRecoverAutoClears(Run(before + after[..n]), after[n]);
    }
  }

  // ----- commands and events, spelled out -----

  /** Which commands are accepted, and what they change. The timeline is told by TimelineIsHistory. */
  lemma CommandsExactly(s: State, source: string, name: string)
    ensures var t, n := Step(s, Command(source, name)), s.stats;
            var done := s.(timeline := t.timeline, stats := n.(
                             commandsSent := n.commandsSent + 1,
                             commandAcks := n.commandAcks + 1,
                             wsMessagesReceived := n.wsMessagesReceived + (if source == "web" then 1 else 0),
                             inputCommandsReceived := n.inputCommandsReceived + (if source == "input" then 1 else 0)));
            if name == "EMERGENCY_STOP" then
              t == done.(session := SAFE_STOP, vehicleMode := SAFE_STOP_MODE, emergency := true, expectedSpeed := 0.0)
            else if !s.connected then t == s
            else if name == "TAKEOVER_REQUEST" && s.session == CONNECTED then
              t == done.(session := REMOTE_CONTROL, vehicleMode := REMOTE_MODE)
            else if name == "FORWARD" && s.session == REMOTE_CONTROL && !s.emergency then
              t == done.(expectedSpeed := 6.0)
            else if name == "STOP" && s.session == REMOTE_CONTROL then t == done.(expectedSpeed := 0.0)
            else if name == "RECOVER_AUTO" && s.session == SAFE_STOP then
              t == done.(session := CONNECTED, vehicleMode := AUTO_MODE, emergency := false, expectedSpeed := 0.0)
            else t == s
  {
    assert "web" != "input";
  }

  /** What every other event changes. */
  lemma EventsExactly(s: State, e: Event)
    ensures var t, n := Step(s, e), s.stats;
            var u := s.(timeline := t.timeline);
            match e
            case Connecting => t == u.(session := CONNECTING)
            case WsConnected(id) =>
              t == s.(wsClients := s.wsClients + {id}, stats := n.(wsConnectedEvents := n.wsConnectedEvents + 1))
            case WsDisconnected(id) =>
              t == s.(wsClients := s.wsClients - {id}, stats := n.(wsDisconnectedEvents := n.wsDisconnectedEvents + 1))
            case PeerConnected =>
              t == (if s.emergency then u
                    else u.(session := CONNECTED, vehicleMode := AUTO_MODE, expectedSpeed := 0.0)).(
                connected := true, stats := n.(peerConnectedEvents := n.peerConnectedEvents + 1))
            case PeerDisconnected =>
              t == u.(connected := false, session := DISCONNECTED, vehicleMode := AUTO_MODE, expectedSpeed := 0.0,
                      stats := n.(peerDisconnectedEvents := n.peerDisconnectedEvents + 1))
            case NetworkDown =>
              t == u.(connected := false, session := RECONNECTING, expectedSpeed := 0.0,
                      stats := n.(networkDownEvents := n.networkDownEvents + 1))
            case NetworkUp =>
              t == (if s.emergency then u.(session := SAFE_STOP, vehicleMode := SAFE_STOP_MODE)
                    else u.(session := CONNECTED, vehicleMode := AUTO_MODE)).(
                connected := true, expectedSpeed := 0.0, stats := n.(networkUpEvents := n.networkUpEvents + 1))
            case HeartbeatLost =>
              t == u.(session := SAFE_STOP, vehicleMode := SAFE_STOP_MODE, emergency := true, expectedSpeed := 0.0,
                      stats := n.(heartbeatLostEvents := n.heartbeatLostEvents + 1))
            case Command(_, _) => true
  {
  }

  predicate BringsUp(e: Event) {
    e == PeerConnected || e == NetworkUp
  }

  predicate BringsDown(e: Event) {
    e == PeerDisconnected || e == NetworkDown
  }

  /** The cockpit is connected exactly when its peer connected, or the network came up, and neither was lost
      since; nothing else, a lost heartbeat included, changes that. */
  lemma {:induction false} ConnectedIsHistory(es: seq<Event>)
    ensures Run(es).connected <==>
            exists i | 0 <= i < |es| :: BringsUp(es[i]) && forall j | i < j < |es| :: !BringsDown(es[j])
  {
    hide Step, BringsUp, BringsDown;
    if es != [] {
      var n := |es| - 1;
      var before, e := es[..n], es[n];
      ConnectedIsHistory(before);
      ConnectedNext(Run(before), e);
      if Run(before).connected && !BringsDown(e) {
        var i :| 0 <= i < n && BringsUp(before[i]) && forall j | i < j < n :: !BringsDown(before[j]);
        assert BringsUp(es[i]) && forall j | i < j < |es| :: !BringsDown(es[j]);
      }
      if i :| 0 <= i < n && BringsUp(es[i]) && forall j | i < j < |es| :: !BringsDown(es[j]) {
        assert BringsUp(before[i]) && forall j | i < j < n :: !BringsDown(before[j]);
      }
      assert BringsUp(e) ==> BringsUp(es[n]);
    }
  }

  lemma ConnectedNext(s: State, e: Event)
    ensures Step(s, e).connected <==> BringsUp(e) || (s.connected && !BringsDown(e))
  {
    if e.Command? {
      CommandsExactly(s, e.source, e.name);
    }
  }

  // ----- browser clients -----

  /** The browser's last event was to connect. */
  ghost predicate Browsing(es: seq<Event>, id: int) {
    exists i | 0 <= i < |es| :: es[i] == WsConnected(id) && forall j | i < j < |es| :: es[j] != WsDisconnected(id)
  }

  lemma BrowsingNext(es: seq<Event>, id: int)
    requires es != []
    ensures var before, e := es[..|es| - 1], es[|es| - 1];
            Browsing(es, id) <==> e == WsConnected(id) || (Browsing(before, id) && e != WsDisconnected(id))
  {
    var before, e := es[..|es| - 1], es[|es| - 1];
    if Browsing(before, id) && e != WsDisconnected(id) {
      var i :| 0 <= i < |before| && before[i] == WsConnected(id)
               && forall j | i < j < |before| :: before[j] != WsDisconnected(id);
      assert es[i] == WsConnected(id) && forall j | i < j < |es| :: es[j] != WsDisconnected(id);
    }
    if Browsing(es, id) && e != WsConnected(id) {
      var i :| 0 <= i < |es| && es[i] == WsConnected(id) && forall j | i < j < |es| :: es[j] != WsDisconnected(id);
      assert before[i] == WsConnected(id) && forall j | i < j < |before| :: before[j] != WsDisconnected(id);
    }
  }

  /** The set of browser clients holds exactly those that connected and have not disconnected since. */
  lemma {:induction false} WsClientsAreHistory(es: seq<Event>, id: int)
    ensures id in Run(es).wsClients <==> Browsing(es, id)
  {
    if es != [] {
      WsClientsAreHistory(es[..|es| - 1], id);
      BrowsingNext(es, id);
    }
  }

  // ----- the timeline -----

  /** The session state after each prefix of the run, the empty one included. */
  function History(es: seq<Event>): (h: seq<Session>)
    ensures h != [] && h[|h| - 1] == Run(es).session
  {
    if es == [] then [START.session] else History(es[..|es| - 1]) + [Run(es).session]
  }

  lemma StepPushesItsSession(s: State, e: Event)
    requires s.timeline != [] && s.timeline[|s.timeline| - 1] == s.session
    ensures Step(s, e).timeline == Push(s.timeline, Step(s, e).session)
  {
  }

  /** The recorded timeline is the whole run's history with consecutive repeats removed. */
  lemma {:induction false} TimelineIsHistory(es: seq<Event>)
    ensures Run(es).timeline == WithoutRepeats(History(es))
  {
    if es != [] {
      var before := es[..|es| - 1];
      TimelineIsHistory(before);
      var h := History(es);
      assert h[..|h| - 1] == History(before);
      StepPushesItsSession(Run(before), es[|es| - 1]);
    }
  }

  lemma StepIntoRemoteControl(s: State, e: Event)
    ensures Step(s, e).session == REMOTE_CONTROL && s.session != REMOTE_CONTROL ==> s.session == CONNECTED
  {
  }

  lemma {:induction false} HistorySteps(es: seq<Event>, k: nat)
    requires k + 1 < |History(es)| && History(es)[k + 1] == REMOTE_CONTROL && History(es)[k] != REMOTE_CONTROL
    ensures History(es)[k] == CONNECTED
  {
    var before := es[..|es| - 1];
    if k + 1 < |History(before)| {
      HistorySteps(before, k);
    } else {
      StepIntoRemoteControl(Run(before), es[|es| - 1]);
    }
  }

  /** On every recorded timeline REMOTE_CONTROL is entered from CONNECTED only, never from SAFE_STOP. */
  lemma RemoteControlEnteredFromConnected(es: seq<Event>)
    ensures var t := Run(es).timeline;
            forall i: nat | i + 1 < |t| && t[i + 1] == REMOTE_CONTROL :: t[i] == CONNECTED
  {
    TimelineIsHistory(es);
    var h := History(es);
    forall k: nat | k + 1 < |h| && h[k + 1] == REMOTE_CONTROL && h[k] != REMOTE_CONTROL
      ensures h[k] == CONNECTED
    {
      HistorySteps(es, k);
    }
    EnteredFrom(h, CONNECTED, REMOTE_CONTROL);
  }
}
