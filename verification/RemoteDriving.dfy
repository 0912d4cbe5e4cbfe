/** The cockpit and the vehicle driven together.

    Both see the same connectivity events; a command reaches the vehicle's control channel exactly when
    the cockpit accepts it; WebRTC errors and telemetry reach the vehicle alone, the browser's web
    sockets and the CONNECTING announcement the cockpit alone. */
module RemoteDriving {
  import Cockpit = CockpitRuntime
  import Vehicle = VehicleRuntime

  datatype State = State(cockpit: Cockpit.State, vehicle: Vehicle.State)

  datatype Link = PeerConnected | PeerDisconnected | NetworkDown | NetworkUp | HeartbeatLost

  datatype Event =
    | Shared(link: Link)
    | Order(source: string, name: string)
    | WebrtcError
    | TelemetryMessage
    | WsConnected(id: int)
    | WsDisconnected(id: int)
    | Connecting

  function CockpitEvent(link: Link): Cockpit.Event {
    match link
    case PeerConnected => Cockpit.PeerConnected
    case PeerDisconnected => Cockpit.PeerDisconnected
    case NetworkDown => Cockpit.NetworkDown
    case NetworkUp => Cockpit.NetworkUp
    case HeartbeatLost => Cockpit.HeartbeatLost
  }

  function VehicleEvent(link: Link): Vehicle.Event {
    match link
    case PeerConnected => Vehicle.PeerConnected
    case PeerDisconnected => Vehicle.PeerDisconnected
    case NetworkDown => Vehicle.NetworkDown
    case NetworkUp => Vehicle.NetworkUp
    case HeartbeatLost => Vehicle.HeartbeatLost
  }

  function Step(s: State, e: Event): State {
    var c, v := s.cockpit, s.vehicle;
    match e
    case Shared(link) => State(Cockpit.Step(c, CockpitEvent(link)), Vehicle.Step(v, VehicleEvent(link)))
    case Order(source, name) =>
      State(Cockpit.Step(c, Cockpit.Command(source, name)),
            if Cockpit.Accepts(c, name) then Vehicle.Step(v, Vehicle.Command("control_channel", name)) else v)
    case WebrtcError => s.(vehicle := Vehicle.Step(v, Vehicle.WebrtcError))
    case TelemetryMessage => s.(vehicle := Vehicle.Step(v, Vehicle.TelemetryMessage))
    case WsConnected(id) => s.(cockpit := Cockpit.Step(c, Cockpit.WsConnected(id)))
    case WsDisconnected(id) => s.(cockpit := Cockpit.Step(c, Cockpit.WsDisconnected(id)))
    case Connecting => s.(cockpit := Cockpit.Step(c, Cockpit.Connecting))
  }

  function After(s: State, es: seq<Event>): State {
    if es == [] then s else Step(After(s, es[..|es| - 1]), es[|es| - 1])
  }

  const START := State(Cockpit.START, Vehicle.START)

  function Run(es: seq<Event>): State {
    After(START, es)
  }

  ghost predicate Legal(es: seq<Event>) {
    forall i | 0 < i < |es| :: !es[i].Connecting?
  }

  ghost predicate Related(s: State) {
    && Cockpit.Safe(s.cockpit)
    && Vehicle.Safe(s.vehicle)
    && (s.cockpit.emergency ==> s.vehicle.emergency)
    && (s.vehicle.mode == Vehicle.REMOTE_CONTROL ==> s.cockpit.session == Cockpit.REMOTE_CONTROL)
    && s.vehicle.speed <= s.cockpit.expectedSpeed
    && (s.cockpit.session == Cockpit.REMOTE_CONTROL ==> s.vehicle.mode != Vehicle.AUTO)
  }

  lemma OrderKeepsRelated(s: State, source: string, name: string)
    requires Related(s)
    ensures Related(Step(s, Order(source, name)))
  {
    Cockpit.StepKeepsSafe(s.cockpit, Cockpit.Command(source, name));
    Vehicle.StepKeepsSafe(s.vehicle, Vehicle.Command("control_channel", name));
  }

  lemma LinkKeepsRelated(s: State, link: Link)
    requires Related(s)
    ensures Related(Step(s, Shared(link)))
  {
    Cockpit.StepKeepsSafe(s.cockpit, CockpitEvent(link));
    Vehicle.StepKeepsSafe(s.vehicle, VehicleEvent(link));
  }

  lemma StepKeepsRelated(s: State, e: Event)
    requires Related(s) && !e.Connecting?
    ensures Related(Step(s, e))
  {
    match e
    case Shared(link) => LinkKeepsRelated(s, link);
    case Order(source, name) => OrderKeepsRelated(s, source, name);
    case _ =>
  }

  /** In every run of the pair: the vehicle is in an emergency whenever the cockpit is, is under remote
      control only if the cockpit is, and never moves faster than the cockpit expects. */
  lemma {:induction false} AlwaysRelated(es: seq<Event>)
    requires Legal(es)
    ensures Related(Run(es))
  {
    if |es| == 1 && es[0].Connecting? {
      assert After(START, es[..|es| - 1]) == START;
      assert Run(es) == State(Cockpit.Step(Cockpit.START, Cockpit.Connecting), Vehicle.START);
    } else if es != [] {
      AlwaysRelated(es[..|es| - 1]);
      StepKeepsRelated(Run(es[..|es| - 1]), es[|es| - 1]);
    }
  }

  ghost predicate Driving(s: State) {
    && s.cockpit.session == Cockpit.REMOTE_CONTROL && s.cockpit.expectedSpeed == 6.0
    && s.vehicle.mode == Vehicle.REMOTE_CONTROL && s.vehicle.speed == 6.0
  }

  function Recovering(s: State, source: string): State {
    Step(Step(Step(s, Order(source, "RECOVER_AUTO")), Order(source, "TAKEOVER_REQUEST")), Order(source, "FORWARD"))
  }

  /** From every reachable state with the cockpit connected, these four orders set both driving. */
  lemma StopRecoverTakeoverForward(es: seq<Event>, source: string)
    requires Legal(es) && Run(es).cockpit.connected
    ensures Driving(Recovering(Step(Run(es), Order(source, "EMERGENCY_STOP")), source))
  {
    AlwaysRelated(es);
    OrderKeepsRelated(Run(es), source, "EMERGENCY_STOP");
    RecoverExactlyWhen(Step(Run(es), Order(source, "EMERGENCY_STOP")), source);
  }

  /** Without the EMERGENCY_STOP the other three suffice exactly when the cockpit shows SAFE_STOP, or
      neither side is in an emergency. */
  lemma RecoverExactlyWhen(s: State, source: string)
    requires Related(s) && s.cockpit.connected
    ensures Driving(Recovering(s, source)) <==>
            s.cockpit.session == Cockpit.SAFE_STOP || (!s.cockpit.emergency && !s.vehicle.emergency)
  {
    var recovered := Step(s, Order(source, "RECOVER_AUTO"));
    OrderKeepsRelated(s, source, "RECOVER_AUTO");
    assert recovered.cockpit.connected;
    TakeoverExactlyWhen(recovered, source);
  }

  lemma TakeoverExactlyWhen(s: State, source: string)
    requires Related(s) && s.cockpit.connected
    ensures Driving(Step(Step(s, Order(source, "TAKEOVER_REQUEST")), Order(source, "FORWARD"))) <==>
            !s.cockpit.emergency && !s.vehicle.emergency
  {
    OrderKeepsRelated(s, source, "TAKEOVER_REQUEST");
  }

  lemma RunSnoc(es: seq<Event>, e: Event)
    ensures Run(es + [e]) == Step(Run(es), e)
  {
    assert (es + [e])[..|es|] == es;
  }

  /** A network drop that comes back leaves the vehicle, and only the vehicle, in an emergency that no
      RECOVER_AUTO reaches: the three orders then leave it standing in SAFE_STOP. */
  lemma NetworkDropStrandsVehicle(es: seq<Event>, source: string)
    requires Legal(es) && !Run(es).cockpit.emergency
    ensures var s := Run(es + [Shared(NetworkDown)] + [Shared(NetworkUp)]);
            s.cockpit.connected && !s.cockpit.emergency && s.vehicle.emergency && !Driving(Recovering(s, source))
  {
    RunSnoc(es, Shared(NetworkDown));
    RunSnoc(es + [Shared(NetworkDown)], Shared(NetworkUp));
    AlwaysRelated(es + [Shared(NetworkDown)] + [Shared(NetworkUp)]);
    RecoverExactlyWhen(Run(es + [Shared(NetworkDown)] + [Shared(NetworkUp)]), source);
  }

  /** After every run that leaves the cockpit in remote control, STOP brings both to a halt and changes no
      mode; if the vehicle is out of an emergency, a FORWARD then sets both driving again. */
  lemma StopStops(es: seq<Event>, source: string)
    requires Legal(es) && Run(es).cockpit.session == Cockpit.REMOTE_CONTROL
    ensures var s, t := Run(es), Step(Run(es), Order(source, "STOP"));
            && t.cockpit.expectedSpeed == 0.0 && t.vehicle.speed == 0.0
            && t.cockpit.session == s.cockpit.session && t.cockpit.vehicleMode == s.cockpit.vehicleMode
            && t.vehicle.mode == s.vehicle.mode && t.vehicle.gear == s.vehicle.gear
            && (!s.vehicle.emergency ==> Driving(Step(t, Order(source, "FORWARD"))))
  {
    AlwaysRelated(es);
    StopHalts(Run(es), source);
  }

  lemma StopHalts(s: State, source: string)
    requires Related(s) && s.cockpit.session == Cockpit.REMOTE_CONTROL
    ensures var t := Step(s, Order(source, "STOP"));
            && t.cockpit.expectedSpeed == 0.0 && t.vehicle.speed == 0.0
            && t.cockpit.session == s.cockpit.session && t.cockpit.vehicleMode == s.cockpit.vehicleMode
            && t.vehicle.mode == s.vehicle.mode && t.vehicle.gear == s.vehicle.gear
            && (!s.vehicle.emergency ==> Driving(Step(t, Order(source, "FORWARD"))))
  {
    hide Cockpit.Step, Vehicle.Step, Cockpit.Accepts;
    var t := Step(s, Order(source, "STOP"));
    OrdersExactly(s, source, "STOP");
    OrdersExactly(t, source, "FORWARD");
    Cockpit.CommandsExactly(s.cockpit, source, "STOP");
    Cockpit.CommandsExactly(t.cockpit, source, "FORWARD");
    Vehicle.CommandsExactly(s.vehicle, "control_channel", "STOP");
    Vehicle.CommandsExactly(t.vehicle, "control_channel", "FORWARD");
  }

  /** An order reaches the vehicle exactly when it counts as sent in the cockpit. */
  lemma OrdersExactly(s: State, source: string, name: string)
    ensures var t := Step(s, Order(source, name));
            && t.cockpit == Cockpit.Step(s.cockpit, Cockpit.Command(source, name))
            && t.vehicle == (if t.cockpit.stats.commandsSent > s.cockpit.stats.commandsSent
                             then Vehicle.Step(s.vehicle, Vehicle.Command("control_channel", name)) else s.vehicle)
  {
    hide Vehicle.Step;
    Cockpit.CommandsExactly(s.cockpit, source, name);
  }

  // ----- the two emergencies, told by the run -----

  /** The event raises the cockpit's emergency, and with it the vehicle's. */
  predicate RaisesBoth(e: Event) {
    (e.Shared? && e.link == HeartbeatLost) || (e.Order? && e.name == "EMERGENCY_STOP")
  }

  /** The event raises the vehicle's emergency alone. */
  predicate RaisesVehicle(e: Event) {
    (e.Shared? && e.link == NetworkDown) || e.WebrtcError?
  }

  /** Order `i` is a RECOVER_AUTO that the cockpit accepts. */
  predicate Recovers(s: State, e: Event) {
    e.Order? && e.name == "RECOVER_AUTO" && Cockpit.Accepts(s.cockpit, e.name)
  }

  /** An event that raises the cockpit's emergency, or else the vehicle's alone, came since the last accepted
      RECOVER_AUTO. */
  ghost predicate Pending(es: seq<Event>, both: bool) {
    exists i | 0 <= i < |es| ::
      && (if both then RaisesBoth(es[i]) else RaisesVehicle(es[i]))
      && forall j | i < j < |es| :: !Recovers(Run(es[..j]), es[j])
  }

  lemma PendingNext(es: seq<Event>, both: bool)
    requires es != []
    ensures var before, e := es[..|es| - 1], es[|es| - 1];
            Pending(es, both) <==>
            || (if both then RaisesBoth(e) else RaisesVehicle(e))
            || (Pending(before, both) && !Recovers(Run(before), e))
  {
    hide Recovers, RaisesBoth, RaisesVehicle, Run;
    var n := |es| - 1;
    var before, e := es[..n], es[n];
    assert forall j | 0 <= j <= n :: before[..j] == es[..j];
    if Pending(before, both) && !Recovers(Run(before), e) {
      var i :| 0 <= i < n && (if both then RaisesBoth(before[i]) else RaisesVehicle(before[i]))
               && forall j | i < j < n :: !Recovers(Run(before[..j]), before[j]);
      assert es[i] == before[i];
      forall j | i < j < |es|
        ensures !Recovers(Run(es[..j]), es[j])
      {
        assert j < n ==> !Recovers(Run(before[..j]), before[j]);
      }
    }
    if Pending(es, both) && !(if both then RaisesBoth(e) else RaisesVehicle(e)) {
      var i :| 0 <= i < |es| && (if both then RaisesBoth(es[i]) else RaisesVehicle(es[i]))
               && forall j | i < j < |es| :: !Recovers(Run(es[..j]), es[j]);
      assert before[i] == es[i];
      assert !Recovers(Run(es[..n]), es[n]);
      forall j | i < j < n
        ensures !Recovers(Run(before[..j]), before[j])
      {
        assert !Recovers(Run(es[..j]), es[j]);
      }
    }
  }

  lemma EmergenciesNext(s: State, e: Event)
    requires Related(s)
    ensures Step(s, e).cockpit.emergency <==> RaisesBoth(e) || (s.cockpit.emergency && !Recovers(s, e))
    ensures Step(s, e).vehicle.emergency <==>
            RaisesBoth(e) || RaisesVehicle(e) || (s.vehicle.emergency && !Recovers(s, e))
  {
    match e
    case Shared(link) =>
    case Order(source, name) =>
    case _ =>
  }

  /** Either side's emergency, told by the run: what raised it came since the last RECOVER_AUTO the cockpit
      accepted. */
  lemma {:induction false} EmergenciesAreHistory(es: seq<Event>)
    requires Legal(es)
    ensures Run(es).cockpit.emergency <==> Pending(es, true)
    ensures Run(es).vehicle.emergency <==> Pending(es, true) || Pending(es, false)
  {
    hide Step, Recovers, RaisesBoth, RaisesVehicle;
    if es != [] {
      var before := es[..|es| - 1];
      EmergenciesAreHistory(before);
      AlwaysRelated(before);
      PendingNext(es, true);
      PendingNext(es, false);
      EmergenciesNext(Run(before), es[|es| - 1]);
    }
  }

  /** The vehicle is in an emergency of its own exactly when the cockpit is out of one, and a network drop or
      a WebRTC error came since the last RECOVER_AUTO the cockpit accepted. */
  lemma StrandedExactlyWhen(es: seq<Event>)
    requires Legal(es)
    ensures Run(es).vehicle.emergency && !Run(es).cockpit.emergency <==>
            !Run(es).cockpit.emergency && Pending(es, false)
  {
    hide Step;
    EmergenciesAreHistory(es);
  }

  /** So after any run that leaves the cockpit connected, RECOVER_AUTO, TAKEOVER_REQUEST and FORWARD set both
      driving exactly when the cockpit shows SAFE_STOP, or nothing that raises an emergency on either side came
      since the last accepted RECOVER_AUTO. */
  lemma DrivesAgainExactlyWhen(es: seq<Event>, source: string)
    requires Legal(es) && Run(es).cockpit.connected
    ensures Driving(Recovering(Run(es), source)) <==>
            Run(es).cockpit.session == Cockpit.SAFE_STOP || (!Pending(es, true) && !Pending(es, false))
  {
    hide Step, Recovering, Driving;
    AlwaysRelated(es);
    EmergenciesAreHistory(es);
    RecoverExactlyWhen(Run(es), source);
  }
}
