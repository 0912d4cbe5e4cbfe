/** vehicle_client/domain/runtime_state.cc: the vehicle's safety state machine. */
module VehicleRuntime {
  import opened Timeline

  datatype Mode = AUTO | REMOTE_CONTROL | SAFE_STOP

  datatype Stats = Stats(
    telemetryMessagesReceived: nat,
    commandAcks: nat,
    controlMessagesReceived: nat,
    emergencyCommandsReceived: nat,
    webrtcErrors: nat,
    peerConnectedEvents: nat,
    peerDisconnectedEvents: nat,
    networkUpEvents: nat,
    networkDownEvents: nat,
    heartbeatLostEvents: nat)

  datatype State = State(
    mode: Mode,
    emergency: bool,
    speed: real,
    gear: int,
    peerConnected: bool,
    timeline: seq<Mode>,
    stats: Stats)

  datatype Event =
    | PeerConnected
    | PeerDisconnected
    | NetworkDown
    | NetworkUp
    | HeartbeatLost
    | TelemetryMessage
    | WebrtcError
    | Command(source: string, name: string)

  /** The start-up state, after the application's first PushMode. */
  const START := State(AUTO, false, 0.0, 0, false, [AUTO], Stats(0, 0, 0, 0, 0, 0, 0, 0, 0, 0))

  /** A halt in SAFE_STOP. */
  function Halt(s: State): State {
    s.(mode := SAFE_STOP, emergency := true, speed := 0.0, gear := 0, timeline := Push(s.timeline, SAFE_STOP))
  }

  function Rest(s: State): Mode {
    if s.emergency then SAFE_STOP else AUTO
  }

  predicate Accepts(s: State, name: string) {
    || (name == "TAKEOVER_REQUEST" && s.mode == AUTO)
    || (name == "FORWARD" && s.mode == REMOTE_CONTROL && !s.emergency)
    || (name == "STOP" && s.mode == REMOTE_CONTROL)
    || name == "EMERGENCY_STOP"
    || (name == "RECOVER_AUTO" && s.mode == SAFE_STOP)
  }

  function CountCommand(n: Stats, source: string, name: string, accepted: bool): Stats {
    n.(controlMessagesReceived := n.controlMessagesReceived + (if source == "control_channel" then 1 else 0),
       emergencyCommandsReceived := n.emergencyCommandsReceived + (if name == "EMERGENCY_STOP" then 1 else 0),
       commandAcks := n.commandAcks + (if accepted then 1 else 0))
  }

  function Obey(s: State, name: string): State
    requires Accepts(s, name)
  {
    if name == "TAKEOVER_REQUEST" then
      s.(mode := REMOTE_CONTROL, gear := 1, timeline := Push(s.timeline, REMOTE_CONTROL))
    else if name == "FORWARD" then s.(speed := 6.0)
    else if name == "STOP" then s.(speed := 0.0)
    else if name == "EMERGENCY_STOP" then Halt(s)
    else s.(mode := AUTO, emergency := false, speed := 0.0, gear := 0, timeline := Push(s.timeline, AUTO))
  }

  function Step(s: State, e: Event): State {
    var n := s.stats;
    match e
    case PeerConnected =>
      s.(peerConnected := true, mode := Rest(s), speed := 0.0, gear := if s.emergency then 0 else s.gear,
         timeline := Push(s.timeline, Rest(s)), stats := n.(peerConnectedEvents := n.peerConnectedEvents + 1))
    case PeerDisconnected =>
      s.(peerConnected := false, mode := Rest(s), speed := 0.0, gear := 0,
         timeline := Push(s.timeline, Rest(s)), stats := n.(peerDisconnectedEvents := n.peerDisconnectedEvents + 1))
    case NetworkDown =>
      Halt(s).(peerConnected := false, stats := n.(networkDownEvents := n.networkDownEvents + 1,
                                                   emergencyCommandsReceived := n.emergencyCommandsReceived + 1))
    case NetworkUp =>
      s.(peerConnected := true, mode := Rest(s), speed := 0.0,
         timeline := Push(s.timeline, Rest(s)), stats := n.(networkUpEvents := n.networkUpEvents + 1))
    case HeartbeatLost =>
      Halt(s).(stats := n.(heartbeatLostEvents := n.heartbeatLostEvents + 1,
                           emergencyCommandsReceived := n.emergencyCommandsReceived + 1))
    case TelemetryMessage =>
      s.(stats := n.(telemetryMessagesReceived := n.telemetryMessagesReceived + 1))
    case WebrtcError =>
      Halt(s).(stats := n.(webrtcErrors := n.webrtcErrors + 1,
                           emergencyCommandsReceived := n.emergencyCommandsReceived + 1))
    case Command(source, name) =>
      var accepted := Accepts(s, name);
      (if accepted then Obey(s, name) else s).(stats := CountCommand(n, source, name, accepted))
  }

  function Run(es: seq<Event>): State {
    if es == [] then START else Step(Run(es[..|es| - 1]), es[|es| - 1])
  }

  // ----- the code -----

  class RuntimeState {
    var mode: Mode
    var emergency: bool
    var speed: real
    var gear: int
    var peerConnected: bool
    var timeline: seq<Mode>
    var stats: Stats

    ghost function View(): State
      reads this
    {
      State(mode, emergency, speed, gear, peerConnected, timeline, stats)
    }

    constructor ()
      ensures View() == START
      ensures mode == AUTO && !emergency && speed == 0.0 && gear == 0 && !peerConnected
      ensures timeline == [AUTO] && stats == Stats(0, 0, 0, 0, 0, 0, 0, 0, 0, 0)
    {
      mode, emergency, speed, gear, peerConnected := AUTO, false, 0.0, 0, false;
      timeline, stats := [], Stats(0, 0, 0, 0, 0, 0, 0, 0, 0, 0);
      new;
      PushMode(AUTO);
    }

    method PushMode(value: Mode)
      modifies this`timeline
      ensures timeline == Push(old(timeline), value)
    {
      if |timeline| == 0 || timeline[|timeline| - 1] != value {
        timeline := timeline + [value];
      }
    }

    method OnPeerConnected()
      modifies this
      ensures View() == Step(old(View()), PeerConnected)
    {
      peerConnected := true;
      mode := if emergency then SAFE_STOP else AUTO;
      speed := 0.0;
      gear := if emergency then 0 else gear;
      PushMode(mode);
      stats := stats.(peerConnectedEvents := stats.peerConnectedEvents + 1);
    }

    method OnPeerDisconnected()
      modifies this
      ensures View() == Step(old(View()), PeerDisconnected)
    {
      peerConnected := false;
      speed := 0.0;
      gear := 0;
      mode := if emergency then SAFE_STOP else AUTO;
      PushMode(mode);
      stats := stats.(peerDisconnectedEvents := stats.peerDisconnectedEvents + 1);
    }

    method OnNetworkDown()
      modifies this
      ensures View() == Step(old(View()), NetworkDown)
    {
      peerConnected := false;
      mode := SAFE_STOP;
      emergency := true;
      speed := 0.0;
      gear := 0;
      PushMode(mode);
      stats := stats.(networkDownEvents := stats.networkDownEvents + 1);
      stats := stats.(emergencyCommandsReceived := stats.emergencyCommandsReceived + 1);
    }

    method OnNetworkUp()
      modifies this
      ensures View() == Step(old(View()), NetworkUp)
    {
      peerConnected := true;
      mode := if emergency then SAFE_STOP else AUTO;
      speed := 0.0;
      PushMode(mode);
      stats := stats.(networkUpEvents := stats.networkUpEvents + 1);
    }

    method OnHeartbeatLost()
      modifies this
      ensures View() == Step(old(View()), HeartbeatLost)
    {
      mode := SAFE_STOP;
      emergency := true;
      speed := 0.0;
      gear := 0;
      PushMode(mode);
      stats := stats.(heartbeatLostEvents := stats.heartbeatLostEvents + 1);
      stats := stats.(emergencyCommandsReceived := stats.emergencyCommandsReceived + 1);
    }

    method OnTelemetryMessageReceived()
      modifies this
      ensures View() == Step(old(View()), TelemetryMessage)
    {
      stats := stats.(telemetryMessagesReceived := stats.telemetryMessagesReceived + 1);
    }

    method OnWebrtcError()
      modifies this
      ensures View() == Step(old(View()), WebrtcError)
    {
      stats := stats.(webrtcErrors := stats.webrtcErrors + 1);
      mode := SAFE_STOP;
      emergency := true;
      speed := 0.0;
      gear := 0;
      stats := stats.(emergencyCommandsReceived := stats.emergencyCommandsReceived + 1);
      PushMode(mode);
    }

    /** The branches of ApplyCommand. */
    method Transition(name: string) returns (accepted: bool)
      modifies this
      ensures accepted == Accepts(old(View()), name)
      ensures View() == if accepted then Obey(old(View()), name) else old(View())
    {
      if name == "TAKEOVER_REQUEST" && mode == AUTO {
        mode := REMOTE_CONTROL;
        gear := 1;
        PushMode(mode);
      } else if name == "FORWARD" && mode == REMOTE_CONTROL && !emergency {
        speed := 6.0;
      } else if name == "STOP" && mode == REMOTE_CONTROL {
        speed := 0.0;
      } else if name == "EMERGENCY_STOP" {
        mode := SAFE_STOP;
        emergency := true;
        speed := 0.0;
        gear := 0;
        PushMode(mode);
      } else if name == "RECOVER_AUTO" && mode == SAFE_STOP {
        mode := AUTO;
        emergency := false;
        speed := 0.0;
        gear := 0;
        PushMode(mode);
      } else {
        return false;
      }
      return true;
    }

    method ApplyCommand(source: string, name: string) returns (accepted: bool)
      modifies this
      ensures View() == Step(old(View()), Command(source, name))
      ensures accepted == Accepts(old(View()), name)
    {
      if source == "control_channel" {
        stats := stats.(controlMessagesReceived := stats.controlMessagesReceived + 1);
      }
      if name == "EMERGENCY_STOP" {
        stats := stats.(emergencyCommandsReceived := stats.emergencyCommandsReceived + 1);
      }
      accepted := Transition(name);
      if accepted {
        stats := stats.(commandAcks := stats.commandAcks + 1);
      }
    }
  }

  // ----- safety over every run -----

  ghost predicate Safe(s: State) {
    && (s.mode == SAFE_STOP <==> s.emergency)
    && (s.speed == 0.0 || s.speed == 6.0)
    && (s.speed > 0.0 ==> s.mode == REMOTE_CONTROL && s.gear == 1 && !s.emergency)
    && (s.mode == REMOTE_CONTROL ==> s.gear == 1)
    && (s.mode == SAFE_STOP ==> s.gear == 0)
  }

  lemma StepKeepsSafe(s: State, e: Event)
    requires Safe(s)
    ensures Safe(Step(s, e))
  {
  }

  /** Over every event sequence: SAFE_STOP exactly in an emergency, motion only under remote control in
      gear and out of emergency, and no gear in SAFE_STOP. */
  lemma {:induction false} VehicleIsSafe(es: seq<Event>)
    ensures Safe(Run(es))
  {
    if es != [] {
      VehicleIsSafe(es[..|es| - 1]);
      StepKeepsSafe(Run(es[..|es| - 1]), es[|es| - 1]);
    }
  }

  predicate Recovers(e: Event) {
    e.Command? && e.name == "RECOVER_AUTO"
  }

  /** Once in SAFE_STOP, a run without RECOVER_AUTO stays there, standing still. */
  lemma {:induction false} SafeStopHolds(before: seq<Event>, after: seq<Event>)
    requires Run(before).mode == SAFE_STOP && forall e | e in after :: !Recovers(e)
    ensures Run(before + after).mode == SAFE_STOP && Run(before + after).speed == 0.0
  {
    VehicleIsSafe(before + after);
    if after == [] {
      assert before + after == before;
    } else {
      var n := |after| - 1;
      assert (before + after)[..|before| + n] == before + after[..n];
      assert !Recovers(after[n]);
      SafeStopHolds(before, after[..n]);
      VehicleIsSafe(before + after[..n]);
    }
  }

  /** How many events of a run satisfy a test. */
  function Tally(es: seq<Event>, test: Event -> bool): nat {
    if es == [] then 0
    else Tally(es[..|es| - 1], test) + if test(es[|es| - 1]) then 1 else 0
  }

  /** The emergency counter is the number of events that force an emergency. */
  lemma {:induction false} EmergencyCounter(es: seq<Event>)
    ensures var forces := (e: Event) =>
              e.NetworkDown? || e.HeartbeatLost? || e.WebrtcError? || (e.Command? && e.name == "EMERGENCY_STOP");
            Run(es).stats.emergencyCommandsReceived == Tally(es, forces)
  {
    if es != [] {
      EmergencyCounter(es[..|es| - 1]);
    }
  }

  // ----- commands and events, spelled out -----

  /** Which commands are accepted, and what they change; commands are counted accepted or not. The timeline
      is told by TimelineIsHistory. */
  lemma CommandsExactly(s: State, source: string, name: string)
    ensures var t, n := Step(s, Command(source, name)), s.stats;
            var counted := n.(
                  controlMessagesReceived := n.controlMessagesReceived + (if source == "control_channel" then 1 else 0),
                  emergencyCommandsReceived :=
                    n.emergencyCommandsReceived + (if name == "EMERGENCY_STOP" then 1 else 0));
            var done := s.(timeline := t.timeline, stats := counted.(commandAcks := n.commandAcks + 1));
            if name == "EMERGENCY_STOP" then t == done.(mode := SAFE_STOP, emergency := true, speed := 0.0, gear := 0)
            else if name == "TAKEOVER_REQUEST" && s.mode == AUTO then t == done.(mode := REMOTE_CONTROL, gear := 1)
            else if name == "FORWARD" && s.mode == REMOTE_CONTROL && !s.emergency then t == done.(speed := 6.0)
            else if name == "STOP" && s.mode == REMOTE_CONTROL then t == done.(speed := 0.0)
            else if name == "RECOVER_AUTO" && s.mode == SAFE_STOP then
              t == done.(mode := AUTO, emergency := false, speed := 0.0, gear := 0)
            else t == s.(stats := counted)
  {
  }

  /** What every other event changes. */
  lemma EventsExactly(s: State, e: Event)
    ensures var t, n := Step(s, e), s.stats;
            var u := s.(timeline := t.timeline);
            var rest := if s.emergency then SAFE_STOP else AUTO;
            var halt := u.(mode := SAFE_STOP, emergency := true, speed := 0.0, gear := 0);
            match e
            case PeerConnected =>
              t == u.(peerConnected := true, mode := rest, speed := 0.0, gear := if s.emergency then 0 else s.gear,
                      stats := n.(peerConnectedEvents := n.peerConnectedEvents + 1))
            case PeerDisconnected =>
              t == u.(peerConnected := false, mode := rest, speed := 0.0, gear := 0,
                      stats := n.(peerDisconnectedEvents := n.peerDisconnectedEvents + 1))
            case NetworkDown =>
              t == halt.(peerConnected := false,
                         stats := n.(networkDownEvents := n.networkDownEvents + 1,
                                     emergencyCommandsReceived := n.emergencyCommandsReceived + 1))
            case NetworkUp =>
              t == u.(peerConnected := true, mode := rest, speed := 0.0,
                      stats := n.(networkUpEvents := n.networkUpEvents + 1))
            case HeartbeatLost =>
              t == halt.(stats := n.(heartbeatLostEvents := n.heartbeatLostEvents + 1,
                                     emergencyCommandsReceived := n.emergencyCommandsReceived + 1))
            case TelemetryMessage => t == s.(stats := n.(telemetryMessagesReceived := n.telemetryMessagesReceived + 1))
            case WebrtcError =>
              t == halt.(stats := n.(webrtcErrors := n.webrtcErrors + 1,
                                     emergencyCommandsReceived := n.emergencyCommandsReceived + 1))
            case Command(_, _) => true
  {
  }

  predicate BringsUp(e: Event) {
    e == PeerConnected || e == NetworkUp
  }

  predicate BringsDown(e: Event) {
    e == PeerDisconnected || e == NetworkDown
  }

  lemma ConnectedNext(s: State, e: Event)
    ensures Step(s, e).peerConnected <==> BringsUp(e) || (s.peerConnected && !BringsDown(e))
  {
    if e.Command? {
      CommandsExactly(s, e.source, e.name);
    }
  }

  /** The peer counts as connected exactly when it connected, or the network came up, and neither was lost
      since; a lost heartbeat or a WebRTC error leaves it connected. */
  lemma {:induction false} ConnectedIsHistory(es: seq<Event>)
    ensures Run(es).peerConnected <==>
            exists i | 0 <= i < |es| :: BringsUp(es[i]) && forall j | i < j < |es| :: !BringsDown(es[j])
  {
    hide Step, BringsUp, BringsDown;
    if es != [] {
      var n := |es| - 1;
      var before, e := es[..n], es[n];
      ConnectedIsHistory(before);
      ConnectedNext(Run(before), e);
      if Run(before).peerConnected && !BringsDown(e) {
        var i :| 0 <= i < n && BringsUp(before[i]) && forall j | i < j < n :: !BringsDown(before[j]);
        assert BringsUp(es[i]) && forall j | i < j < |es| :: !BringsDown(es[j]);
      }
      if i :| 0 <= i < n && BringsUp(es[i]) && forall j | i < j < |es| :: !BringsDown(es[j]) {
        assert BringsUp(before[i]) && forall j | i < j < n :: !BringsDown(before[j]);
      }
      assert BringsUp(e) ==> BringsUp(es[n]);
    }
  }

  // ----- the timeline -----

  /** The mode after each prefix of the run, the empty one included. */
  function History(es: seq<Event>): (h: seq<Mode>)
    ensures h != [] && h[|h| - 1] == Run(es).mode
  {
    if es == [] then [START.mode] else History(es[..|es| - 1]) + [Run(es).mode]
  }

  lemma StepPushesItsMode(s: State, e: Event)
    requires s.timeline != [] && s.timeline[|s.timeline| - 1] == s.mode
    ensures Step(s, e).timeline == Push(s.timeline, Step(s, e).mode)
  {
  }

  /** The recorded timeline is the whole run's history with consecutive repeats removed. */
  lemma {:induction false} TimelineIsHistory(es: seq<Event>)
    ensures Run(es).timeline == WithoutRepeats(History(es))
  {
    if es != [] {
      var before := es[..|es| - 1];
      TimelineIsHistory(before);
      var h := History(es);
      assert h[..|h| - 1] == History(before);
      StepPushesItsMode(Run(before), es[|es| - 1]);
    }
  }

  lemma StepIntoRemoteControl(s: State, e: Event)
    ensures Step(s, e).mode == REMOTE_CONTROL && s.mode != REMOTE_CONTROL ==> s.mode == AUTO
  {
  }

  lemma {:induction false} HistorySteps(es: seq<Event>, k: nat)
    requires k + 1 < |History(es)| && History(es)[k + 1] == REMOTE_CONTROL && History(es)[k] != REMOTE_CONTROL
    ensures History(es)[k] == AUTO
  {
    var before := es[..|es| - 1];
    if k + 1 < |History(before)| {
      HistorySteps(before, k);
    } else {
      StepIntoRemoteControl(Run(before), es[|es| - 1]);
    }
  }

  /** On every recorded timeline REMOTE_CONTROL is entered from AUTO only, never from SAFE_STOP. */
  lemma RemoteControlEnteredFromAuto(es: seq<Event>)
    ensures var t := Run(es).timeline;
            forall i: nat | i + 1 < |t| && t[i + 1] == REMOTE_CONTROL :: t[i] == AUTO
  {
    TimelineIsHistory(es);
    var h := History(es);
    forall k: nat | k + 1 < |h| && h[k + 1] == REMOTE_CONTROL && h[k] != REMOTE_CONTROL
      ensures h[k] == AUTO
    {
      HistorySteps(es, k);
    }
    EnteredFrom(h, AUTO, REMOTE_CONTROL);
  }
}
