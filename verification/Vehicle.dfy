/** One pass of the RC, command and state stages, and what holds of every flight made of such passes. */
module Vehicle {
  import opened Wrappers
  import opened StateMachine
  import opened ArmingRuns
  import opened RemoteControl
  import opened Command
  import opened CommandSafety
  import opened ParamService

  datatype World = World(rc: RcState, command: State, manager: Manager, params: Params, events: Events) {
    predicate Shaped() {
      rc.Shaped() && command.Shaped()
    }
  }

  predicate WellFormed(packet: Option<Packet>) {
    packet.Some? ==> |packet.value.channels| == RC_PACKET_CHANNELS
  }

  /** The receiver as the health checks of the pass see it. */
  function Heard(rc: RcState, packet: Option<Packet>): (r: RcState)
    requires rc.Shaped() && WellFormed(packet)
    ensures r.Shaped()
  {
    if packet.Some? then Received(rc, packet.value) else rc
  }

  /** The RC stage: only a fresh packet runs it. */
  function RcStage(w: World, nowMs: nat, packet: Option<Packet>): (r: (RcState, Manager))
    requires w.Shaped() && WellFormed(packet)
    ensures r.0.Shaped()
  {
    if packet.Some? then Ran(Heard(w.rc, packet), w.manager, nowMs, w.params.rc) else (w.rc, w.manager)
  }

  /** `run_rc_command_state`. */
  function Cycled(w: World, nowMs: nat, packet: Option<Packet>): (r: World)
    requires w.Shaped() && WellFormed(packet)
    ensures r.Shaped()
  {
    var (rc, manager) := RcStage(w, nowMs, packet);
    var o := Arbitrated(w.command, rc, manager, nowMs, w.params);
    var (params, events) := if o.forceParamRate then RateModeSet(w.params, w.events) else (w.params, w.events);
    World(o.rc, o.state, Replay(o.manager, params.rc.arm), params, events)
  }

  /** `set_param_and_emit_change` of the attitude mode. */
  function RateModeSet(p: Params, e: Events): (Params, Events) {
    if p.attitudeModeRate then (p, e) else (p.(attitudeModeRate := true), Pushed(e, OtherId))
  }

  /** The pass on the live objects; the parameters come back with the attitude mode the lockout may have forced. */
  method RunRcCommandState(
      nowMs: nat, packet: Option<Packet>, rc: Rc, command: CommandManager, state: StateManager,
      params: Params, events: ParamEventQueues)
    returns (after: Params)
    requires rc.Valid() && command.Valid() && WellFormed(packet)
    modifies rc, rc.chan, rc.stickValues, rc.switchValues, events
    modifies command, command.lastStickOverrideTime, command.lockout, state
    ensures rc.Valid() && command.Valid()
    ensures World(rc.Value(), command.Value(), state.Value(), after, events.Value())
         == Cycled(World(old(rc.Value()), old(command.Value()), old(state.Value()), params, old(events.Value())),
                   nowMs, packet)
  {
    hide Received, Ran, Arbitrated, Replay, Pushed;
    after := params;
    if packet.Some? {
      rc.Receive(packet.value);
      rc.Run(nowMs, params.rc, state);
    }
    var forceParamRate := command.Run(nowMs, params, rc, state);
    if forceParamRate && !params.attitudeModeRate {
      after := after.(attitudeModeRate := true);
      var _ := events.PushOrLog(OtherId);
    }
    state.Run(after.rc.arm);
  }

  /** The parameter part of the service stage: the writes, and then the reaction to what the queue kept of them. */
  function Serviced(w: World, writes: seq<Write>): World {
    var (params, events) := WrittenAll(w.params, w.events, writes, w.manager.machine.IsArmed());
    var (command, manager) := Reacted(w.command, w.manager, params, events);
    World(w.rc, command, manager, params, NO_EVENTS)
  }

  method RunParamService(
      writes: seq<Write>, command: CommandManager, state: StateManager, params: Params, events: ParamEventQueues)
    returns (after: Params)
    requires command.Valid()
    modifies command`multirotorFailsafeCommand, command`fixedWingFailsafeCommand, state, events
    ensures command.Valid()
    ensures forall rc ::
      (World(rc, command.Value(), state.Value(), after, events.Value())
       == Serviced(World(rc, old(command.Value()), old(state.Value()), params, old(events.Value())), writes))
  {
    hide WrittenAll, Reacted;
    after := events.ApplyWrites(params, writes, state.machine.IsArmed());
    events.ApplyReactions(after, command, state);
  }

  // ---------- Flights ----------

  /** What can happen to the vehicle; arming is asked for by the RC stage alone. */
  datatype Happening =
    | Cycle(nowMs: nat, packet: Option<Packet>)
    | Service(writes: seq<Write>)
    | Tune(values: Params)
    | Offboard(nowUs: nat, msg: OffboardMsg)
    | Other(event: Event)

  predicate Possible(h: Happening) {
    match h
    case Cycle(_, packet) => WellFormed(packet)
    case Service(_) => true
    case Tune(_) => true
    case Offboard(_, msg) => |msg.passthrough| == |msg.activePassthrough| == 4
    case Other(event) => !event.RequestArm? && !event.HardfaultRearmRequested? && OneFlag(event)
  }

  predicate OneFlag(event: Event) {
    event.ErrorOccurred? || event.ErrorCleared? ==> |event.flags| == 1
  }

  /**
  A `Tune` is a write between service stages, as sensor calibration makes them: its event waits for
  the next stage.
  */
  function Take(w: World, h: Happening): (r: World)
    requires w.Shaped() && Possible(h)
    ensures r.Shaped()
  {
    match h
    case Cycle(nowMs, packet) => Cycled(w, nowMs, packet)
    case Service(writes) => Serviced(w, writes)
    case Tune(values) =>
      var (params, events) := Written(w.params, w.events, SetOther(values), false);
      w.(params := params, events := events)
    case Offboard(nowUs, msg) => w.(command := OffboardReceived(w.command, nowUs, msg))
    case Other(event) => w.(manager := Updated(w.manager, event, w.params.rc.arm))
  }

  /** The vehicle after start-up: initialised, then configured. */
  function Booted(rc: RcState, params: Params): (w: World)
    requires rc.Shaped()
    ensures w.Shaped()
  {
    var (command, manager) := FailsafeConfigured(INITIAL, Updated(START, Initialized, params.rc.arm), params);
    World(rc, command, manager, params, NO_EVENTS)
  }

  ghost predicate AllPossible(hs: seq<Happening>) {
    forall i :: 0 <= i < |hs| ==> Possible(hs[i])
  }

  function Flight(w: World, hs: seq<Happening>): (r: World)
    requires w.Shaped() && AllPossible(hs)
    ensures r.Shaped()
  {
    if |hs| == 0 then w else Take(Flight(w, hs[..|hs| - 1]), hs[|hs| - 1])
  }

  // ---------- What every flight keeps ----------

  predicate Fraction(v: real) {
    0.0 <= v <= 1.0
  }

  /** Level, no yaw rate, and a throttle on at most one axis. */
  predicate LevelOneAxis(c: Control) {
    LevelFailsafe(c) && (OneAxis(c, 0, c.fx.value) || OneAxis(c, 1, c.fy.value) || OneAxis(c, 2, c.fz.value))
  }

  predicate InRange(c: Control) {
    Fraction(c.fx.value) && Fraction(c.fy.value) && Fraction(c.fz.value)
  }

  predicate Centred(c: Control) {
    c.qx == c.qy == c.qz == c.fx == c.fy == c.fz == CENTRED
  }

  predicate LevelReady(s: State) {
    LevelOneAxis(s.multirotorFailsafe) && Centred(s.fixedWingFailsafe)
  }

  /** What holds of every flight. */
  ghost predicate Ready(w: World) {
    && w.Shaped() && FlagsFit(w.manager.machine, false) && LevelReady(w.command)
    && |w.events.changes| <= PARAM_CHANGED_QUEUE_CAPACITY
  }

  /**
  What holds as long as no change of vehicle type goes unheard: the throttle of a failsafe is one the
  motors can have.
  */
  predicate ThrottleReady(w: World) {
    w.params.fixedWing || InRange(w.command.multirotorFailsafe)
  }

  lemma Fits(m: Manager, event: Event, params: ArmParams)
    requires FlagsFit(m.machine, false) && OneFlag(event) && !event.HardfaultRearmRequested?
    ensures FlagsFit(Updated(m, event, params).machine, false)
  {
    hide FlagsFit, Updated;
    UpdateFits(m, event, params, false);
  }

  lemma LookFits(rc: RcState, m: Manager, nowMs: nat, p: RcParams)
    requires rc.Shaped() && FlagsFit(m.machine, false)
    ensures FlagsFit(LookForArming(rc, m, nowMs, p).1.machine, false)
  {
    hide FlagsFit, Updated;
    var guarded := m.(safety := Safety(rc, p.armThreshold));
    Fits(m, RequestDisarm, p.arm);
    Fits(m, RequestArm, p.arm);
    Fits(guarded, RequestArm, p.arm);
  }

  lemma RcStageFits(w: World, nowMs: nat, packet: Option<Packet>)
    requires w.Shaped() && WellFormed(packet) && FlagsFit(w.manager.machine, false)
    ensures FlagsFit(RcStage(w, nowMs, packet).1.machine, false)
  {
    hide FlagsFit, Updated, LookForArming, Received, Processed, Healthy;
    if packet.Some? {
      var rc, p := Heard(w.rc, packet), w.params.rc;
      Fits(w.manager, ErrorOccurred({RC_LOST}), p.arm);
      Fits(w.manager, ErrorCleared({RC_LOST}), p.arm);
      LookFits(Processed(rc).(newCommand := true), Updated(w.manager, ErrorCleared({RC_LOST}), p.arm), nowMs, p);
    }
  }

  /** The manager after a pass, and what arbitration leaves alone. */
  lemma CycleParts(w: World, nowMs: nat, packet: Option<Packet>)
    requires w.Shaped() && WellFormed(packet)
    ensures var (rc, m) := RcStage(w, nowMs, packet);
      var (checked, after) := (Checked(rc, m, nowMs, w.params), Cycled(w, nowMs, packet));
      && after.manager == Replay(checked, w.params.rc.arm)
      && after.command.multirotorFailsafe == w.command.multirotorFailsafe
      && after.command.fixedWingFailsafe == w.command.fixedWingFailsafe
      && after.params.fixedWing == w.params.fixedWing
      && (|w.events.changes| <= PARAM_CHANGED_QUEUE_CAPACITY ==> |after.events.changes| <= PARAM_CHANGED_QUEUE_CAPACITY)
      && (checked.machine.IsInFailsafe() ==>
            after.command == w.command.(combined := FailsafeCommand(w.command, w.params)))
  {
    hide RcStage, Checked, Replay, OffboardAt, ModeSafety, Interpreted;
    hide AttitudeReasonsFor, ThrottleReasonsFor, LastSticks, AttitudeMuxed, ThrottleMuxed;
  }

  lemma CycleFits(w: World, nowMs: nat, packet: Option<Packet>)
    requires w.Shaped() && WellFormed(packet) && FlagsFit(w.manager.machine, false)
    ensures FlagsFit(Cycled(w, nowMs, packet).manager.machine, false)
  {
    hide FlagsFit, Updated, RcStage, Cycled, Replay, Healthy;
    var (rc, m) := RcStage(w, nowMs, packet);
    RcStageFits(w, nowMs, packet);
    CycleParts(w, nowMs, packet);
    Fits(m, ErrorOccurred({RC_LOST}), w.params.rc.arm);
    ReplayFits(Checked(rc, m, nowMs, w.params), w.params.rc.arm, false);
  }

  lemma ConfigureReady(s: State, m: Manager, p: Params)
    requires LevelReady(s) && FlagsFit(m.machine, false)
    ensures var (s', m') := FailsafeConfigured(s, m, p);
      LevelReady(s') && FlagsFit(m'.machine, false) && (p.fixedWing || InRange(s'.multirotorFailsafe))
  {
    hide FlagsFit, Updated;
    Fits(m, ErrorOccurred({INVALID_FAILSAFE}), p.rc.arm);
    Fits(m, ErrorCleared({INVALID_FAILSAFE}), p.rc.arm);
  }

  lemma {:induction false} ReactedToReady(s: State, m: Manager, p: Params, changes: seq<ParamId>)
    requires LevelReady(s) && FlagsFit(m.machine, false)
    ensures var (s', m') := ReactedTo(s, m, p, changes);
      && LevelReady(s') && FlagsFit(m'.machine, false)
      && (FailsafeThrottleId in changes || FixedWingId in changes ==> p.fixedWing || InRange(s'.multirotorFailsafe))
    decreases |changes|
  {
    hide FlagsFit, Updated, LevelReady, InRange;
    if |changes| > 0 {
      var n := |changes| - 1;
      var (state, manager) := ReactedTo(s, m, p, changes[..n]);
      ReactedToReady(s, m, p, changes[..n]);
      assert forall id :: id in changes <==> id in changes[..n] || id == changes[n];
      if Relevant(changes[n]) {
        ConfigureReady(state, manager, p);
      }
    }
  }

  /** The reaction keeps the failsafe commands level; when it rebuilds them, their throttle is in range. */
  lemma ReactedReady(s: State, m: Manager, p: Params, e: Events)
    requires LevelReady(s) && FlagsFit(m.machine, false)
    ensures var (s', m') := Reacted(s, m, p, e);
      && LevelReady(s') && FlagsFit(m'.machine, false)
      && (Reacts(e) ==> p.fixedWing || InRange(s'.multirotorFailsafe))
      && (!Reacts(e) ==> s' == s)
  {
    hide FlagsFit, Updated, LevelReady, InRange;
    if e.fullRefresh {
      ConfigureReady(s, m, p);
    } else {
      ReactedToReady(s, m, p, e.changes);
      if !Reacts(e) {
        ReactedWithout(s, m, p, e.changes);
      }
    }
  }

  lemma BootReady(rc: RcState, params: Params)
    requires rc.Shaped()
    ensures Ready(Booted(rc, params)) && ThrottleReady(Booted(rc, params))
  {
    hide Updated;
    InitializedFits(params.rc.arm);
    ConfigureReady(INITIAL, Updated(START, Initialized, params.rc.arm), params);
  }

  lemma InitializedFits(params: ArmParams)
    ensures FlagsFit(Updated(START, Initialized, params).machine, false)
  {}

  /** Whatever happens keeps the failsafe commands level and the modes fitting their flags. */
  lemma TakeReady(w: World, h: Happening)
    requires Ready(w) && Possible(h)
    ensures Ready(Take(w, h))
  {
    hide FlagsFit, Updated, Cycled, Reacted, WrittenAll, LevelOneAxis, Centred;
    match h
    case Cycle(nowMs, packet) =>
      CycleParts(w, nowMs, packet);
      CycleFits(w, nowMs, packet);
    case Service(writes) =>
      var (params, events) := WrittenAll(w.params, w.events, writes, w.manager.machine.IsArmed());
      ReactedReady(w.command, w.manager, params, events);
    case Tune(_) =>
    case Offboard(_, _) =>
    case Other(event) => Fits(w.manager, event, w.params.rc.arm);
  }

  /** In every flight: modes fit their flags, and the failsafe commands are level with throttle on at most one axis. */
  lemma {:induction false} FlightReady(rc: RcState, params: Params, hs: seq<Happening>)
    requires rc.Shaped() && AllPossible(hs)
    ensures Ready(Flight(Booted(rc, params), hs))
    decreases |hs|
  {
    hide Ready, Take, Possible;
    BootReady(rc, params);
    if |hs| > 0 {
      FlightReady(rc, params, hs[..|hs| - 1]);
      TakeReady(Flight(Booted(rc, params), hs[..|hs| - 1]), hs[|hs| - 1]);
    }
  }

  // ---------- The failsafe throttle ----------

  /** The stage turns a fixed wing into a multirotor, and the reaction hears of no failsafe parameter. */
  predicate LosesFixedWing(w: World, h: Happening) {
    h.Service? &&
    (var (params, events) := WrittenAll(w.params, w.events, h.writes, w.manager.machine.IsArmed());
     w.params.fixedWing && !params.fixedWing && !Reacts(events))
  }

  /** Such a stage while the multirotor failsafe holds a throttle out of range. */
  predicate DropsUnsafely(w: World, h: Happening) {
    LosesFixedWing(w, h) && !InRange(w.command.multirotorFailsafe)
  }

  /** The change of vehicle type is lost only because its event finds eight others waiting. */
  lemma LostToFullQueue(w: World, h: Happening)
    requires LosesFixedWing(w, h)
    ensures exists k ::
      (0 <= k < |h.writes| && DroppedAt(w.params, w.events, h.writes, w.manager.machine.IsArmed(), k))
  {
    UnreactedNeedsFullQueue(w.params, w.events, h.writes, w.manager.machine.IsArmed());
  }

  /** From a failsafe throttle in range, one happening loses it exactly when it drops the change of type unsafely. */
  lemma TakeThrottle(w: World, h: Happening)
    requires Ready(w) && Possible(h) && ThrottleReady(w)
    ensures ThrottleReady(Take(w, h)) <==> !DropsUnsafely(w, h)
  {
    hide FlagsFit, Updated, Cycled, Reacted, WrittenAll, LevelReady, InRange, Reacts;
    match h
    case Cycle(nowMs, packet) => CycleParts(w, nowMs, packet);
    case Service(writes) =>
      var (params, events) := WrittenAll(w.params, w.events, writes, w.manager.machine.IsArmed());
      ReactedReady(w.command, w.manager, params, events);
    case Tune(_) =>
    case Offboard(_, _) =>
    case Other(_) =>
  }

  ghost predicate AlwaysThrottleReady(w: World, hs: seq<Happening>)
    requires w.Shaped() && AllPossible(hs)
  {
    ThrottleReady(Flight(w, hs)) && (|hs| > 0 ==> AlwaysThrottleReady(w, hs[..|hs| - 1]))
  }

  ghost predicate NeverDropsUnsafely(w: World, hs: seq<Happening>)
    requires w.Shaped() && AllPossible(hs)
  {
    |hs| == 0 ||
    (var n := |hs| - 1;
     NeverDropsUnsafely(w, hs[..n]) && !DropsUnsafely(Flight(w, hs[..n]), hs[n]))
  }

  /**
  The failsafe throttle stays in range throughout a flight exactly when no service stage loses the
  change to a multirotor while the stored throttle is out of range.
  */
  lemma {:induction false} FlightThrottle(rc: RcState, params: Params, hs: seq<Happening>)
    requires rc.Shaped() && AllPossible(hs)
    ensures AlwaysThrottleReady(Booted(rc, params), hs) <==> NeverDropsUnsafely(Booted(rc, params), hs)
    decreases |hs|
  {
    hide Ready, Take, Possible, ThrottleReady, DropsUnsafely, Booted;
    BootReady(rc, params);
    if |hs| > 0 {
      var before := Flight(Booted(rc, params), hs[..|hs| - 1]);
      FlightThrottle(rc, params, hs[..|hs| - 1]);
      if AlwaysThrottleReady(Booted(rc, params), hs[..|hs| - 1]) {
        FlightReady(rc, params, hs[..|hs| - 1]);
        assert ThrottleReady(before);
        TakeThrottle(before, hs[|hs| - 1]);
      }
    }
  }

  // ---------- Loss of link ----------

  predicate LinkHealthy(w: World, nowMs: nat, packet: Option<Packet>)
    requires w.Shaped() && WellFormed(packet)
  {
    Healthy(Heard(w.rc, packet), nowMs * 1000, w.params.rc)
  }

  /** The RC stage does not change what its health check reads. */
  lemma HealthKept(w: World, nowMs: nat, packet: Option<Packet>)
    requires w.Shaped() && WellFormed(packet)
    ensures Healthy(RcStage(w, nowMs, packet).0, nowMs * 1000, w.params.rc) == LinkHealthy(w, nowMs, packet)
  {
    hide Received, StickValue, SwitchValue, Updated;
  }

  /** What flies in failsafe. */
  predicate FliesFailsafe(w: World) {
    if w.params.fixedWing then Centred(w.command.combined) else LevelOneAxis(w.command.combined)
  }

  /** And with a throttle in range. */
  predicate FliesSafely(w: World) {
    FliesFailsafe(w) && (w.params.fixedWing || InRange(w.command.combined))
  }

  lemma FailsafeCommandFlies(w: World, after: World)
    requires LevelReady(w.command) && after.params.fixedWing == w.params.fixedWing
    requires after.command.combined == FailsafeCommand(w.command, w.params)
    ensures FliesFailsafe(after) && (FliesSafely(after) <==> ThrottleReady(w))
  {}

  /** The manager's way through a pass with an unhealthy link. */
  lemma LostManager(m: Manager, p: ArmParams)
    requires FlagsFit(m.machine, false)
    ensures var lost := Updated(m, ErrorOccurred({RC_LOST}), p);
      && Updated(lost, ErrorOccurred({RC_LOST}), p) == lost && Replay(lost, p) == lost
      && RC_LOST in lost.machine.flags && lost.machine.mode in {Failsafe, ErrorPresent, ErrorFailsafe}
      && (lost.machine.mode == Failsafe <==> m.machine.IsArmed())
  {
    var flags := m.machine.flags + {RC_LOST};
    assert flags + {RC_LOST} == flags && flags + flags == flags;
  }

  /**
  A pass with an unhealthy link, in any flight: an armed vehicle is in failsafe afterwards and flies
  the failsafe command, with a throttle in range exactly when the stored one is; an unarmed one is in
  an error mode; and RC_LOST is set.
  */
  lemma LostLinkCycle(w: World, nowMs: nat, packet: Option<Packet>)
    requires Ready(w) && WellFormed(packet) && !LinkHealthy(w, nowMs, packet)
    ensures var after := Cycled(w, nowMs, packet);
      && RC_LOST in after.manager.machine.flags
      && (w.manager.machine.IsArmed() ==>
            && after.manager.machine.mode == Failsafe && after.command.combined == FailsafeCommand(w.command, w.params)
            && FliesFailsafe(after) && (FliesSafely(after) <==> ThrottleReady(w)))
      && (!w.manager.machine.IsArmed() ==> after.manager.machine.mode in {ErrorPresent, ErrorFailsafe})
  {
    hide FlagsFit, Updated, Cycled, Replay, Received, FliesFailsafe, FliesSafely, ThrottleReady, LevelReady;
    var lost := Updated(w.manager, ErrorOccurred({RC_LOST}), w.params.rc.arm);
    HealthKept(w, nowMs, packet);
    CycleParts(w, nowMs, packet);
    LostManager(w.manager, w.params.rc.arm);
    assert Checked(RcStage(w, nowMs, packet).0, RcStage(w, nowMs, packet).1, nowMs, w.params) == lost;
    if w.manager.machine.IsArmed() {
      FailsafeCommandFlies(w, Cycled(w, nowMs, packet));
    }
  }

  /** A fresh packet on a healthy link. */
  predicate Regained(w: World, h: Happening)
    requires w.Shaped() && Possible(h)
  {
    h.Cycle? && h.packet.Some? && LinkHealthy(w, h.nowMs, h.packet)
  }

  /** The events through which only the RC stage leaves failsafe. */
  predicate KeepsFailsafe(h: Happening) {
    h.Other? ==> !h.event.RequestDisarm? && h.event != ErrorCleared({RC_LOST})
  }

  lemma FailsafeReplays(m: Manager, p: ArmParams)
    requires m.machine.mode == Failsafe && RC_LOST in m.machine.flags
    ensures Replay(m, p) == m
    ensures Updated(m, ErrorOccurred({RC_LOST}), p) == m
  {
    assert m.machine.flags + m.machine.flags == m.machine.flags;
    assert m.machine.flags + {RC_LOST} == m.machine.flags;
  }

  lemma RegainedManager(rc: RcState, m: Manager, nowMs: nat, p: RcParams)
    requires rc.Shaped() && m.machine.mode == Failsafe
    ensures var seen := Updated(m, ErrorCleared({RC_LOST}), p.arm);
      var after := LookForArming(rc, seen, nowMs, p).1;
      && after.machine.mode in {Armed, Preflight, ErrorPresent} && RC_LOST !in after.machine.flags
      && Replay(after, p.arm).machine.mode in {Armed, Preflight, ErrorPresent}
  {
    hide InCorner, SatAdd, SatSub;
  }

  /**
  One happening takes the vehicle out of failsafe exactly when it is a pass with a fresh packet on a
  healthy link.
  */
  lemma LeavesFailsafe(w: World, h: Happening)
    requires Ready(w) && Possible(h) && KeepsFailsafe(h) && w.manager.machine.mode == Failsafe
    ensures Take(w, h).manager.machine.mode != Failsafe <==> Regained(w, h)
    ensures h.Cycle? && !Regained(w, h) ==> FliesFailsafe(Take(w, h)) && (FliesSafely(Take(w, h)) <==> ThrottleReady(w))
  {
    hide Reacted, Updated, Replay, Cycled, LookForArming, Received;
    hide FliesFailsafe, FliesSafely, ThrottleReady, LevelReady;
    match h
    case Cycle(nowMs, packet) => CycleFromFailsafe(w, nowMs, packet);
    case Service(writes) =>
      var (params, events) := WrittenAll(w.params, w.events, writes, w.manager.machine.IsArmed());
      ReactedFailsafe(w.command, w.manager, params, events);
    case Tune(_) =>
    case Offboard(_, _) =>
    case Other(event) => OtherInFailsafe(w.manager, event, w.params.rc.arm);
  }

  lemma ConfiguredFailsafe(s: State, m: Manager, p: Params)
    requires m.machine.mode == Failsafe
    ensures FailsafeConfigured(s, m, p).1.machine.mode == Failsafe
  {}

  lemma {:induction false} ReactedToFailsafe(s: State, m: Manager, p: Params, changes: seq<ParamId>)
    requires m.machine.mode == Failsafe
    ensures ReactedTo(s, m, p, changes).1.machine.mode == Failsafe
    decreases |changes|
  {
    hide FailsafeConfigured;
    if |changes| > 0 {
      var (state, manager) := ReactedTo(s, m, p, changes[..|changes| - 1]);
      ReactedToFailsafe(s, m, p, changes[..|changes| - 1]);
      ConfiguredFailsafe(state, manager, p);
    }
  }

  lemma ReactedFailsafe(s: State, m: Manager, p: Params, e: Events)
    requires m.machine.mode == Failsafe
    ensures Reacted(s, m, p, e).1.machine.mode == Failsafe
  {
    hide FailsafeConfigured, ReactedTo;
    ConfiguredFailsafe(s, m, p);
    ReactedToFailsafe(s, m, p, e.changes);
  }

  lemma OtherInFailsafe(m: Manager, event: Event, p: ArmParams)
    requires m.machine.mode == Failsafe && !event.RequestDisarm? && !event.HardfaultRearmRequested?
    requires OneFlag(event) && event != ErrorCleared({RC_LOST})
    ensures Updated(m, event, p).machine.mode == Failsafe
  {}

  lemma CycleFromFailsafe(w: World, nowMs: nat, packet: Option<Packet>)
    requires Ready(w) && WellFormed(packet) && w.manager.machine.mode == Failsafe
    ensures var (after, regained) := (Cycled(w, nowMs, packet), packet.Some? && LinkHealthy(w, nowMs, packet));
      && (after.manager.machine.mode != Failsafe <==> regained)
      && (!regained ==> FliesFailsafe(after) && (FliesSafely(after) <==> ThrottleReady(w)))
  {
    hide Updated, Cycled, Replay, Received, LookForArming, Processed;
    hide FliesFailsafe, FliesSafely, ThrottleReady, LevelReady;
    HealthKept(w, nowMs, packet);
    CycleParts(w, nowMs, packet);
    FailsafeReplays(w.manager, w.params.rc.arm);
    if packet.Some? && LinkHealthy(w, nowMs, packet) {
      RegainedManager(Processed(Heard(w.rc, packet)).(newCommand := true), w.manager, nowMs, w.params.rc);
    } else {
      FailsafeCommandFlies(w, Cycled(w, nowMs, packet));
    }
  }

  ghost predicate NoneRegains(w: World, hs: seq<Happening>)
    requires w.Shaped() && AllPossible(hs)
  {
    |hs| == 0 ||
    (var n := |hs| - 1;
     NoneRegains(w, hs[..n]) && KeepsFailsafe(hs[n]) && !Regained(Flight(w, hs[..n]), hs[n]))
  }

  /** From failsafe, until a fresh packet arrives on a healthy link, every pass flies the failsafe command. */
  lemma {:induction false} FailsafeHolds(w: World, hs: seq<Happening>)
    requires Ready(w) && w.manager.machine.mode == Failsafe && AllPossible(hs) && NoneRegains(w, hs)
    ensures Ready(Flight(w, hs)) && Flight(w, hs).manager.machine.mode == Failsafe
    ensures |hs| > 0 && hs[|hs| - 1].Cycle? ==>
      FliesFailsafe(Flight(w, hs)) && (FliesSafely(Flight(w, hs)) <==> ThrottleReady(Flight(w, hs[..|hs| - 1])))
    decreases |hs|
  {
    hide FlagsFit, LevelReady, Take, Regained, FliesFailsafe, FliesSafely, ThrottleReady, KeepsFailsafe;
    if |hs| > 0 {
      var n := |hs| - 1;
      FailsafeHolds(w, hs[..n]);
      LeavesFailsafe(Flight(w, hs[..n]), hs[n]);
      TakeReady(Flight(w, hs[..n]), hs[n]);
    }
  }

  // ---------- Arming ----------

  /**
  A pass that can arm: a fresh packet on a healthy link, throttle low, the override switch on where it
  is required.
  */
  predicate ArmingPass(w: World, h: Happening)
    requires w.Shaped() && Possible(h)
  {
    && Regained(w, h)
    && SafetyAllowsArm(Safety(Processed(Heard(w.rc, h.packet)), w.params.rc.armThreshold), w.params.rc.arm)
  }

  lemma LookArms(rc: RcState, m: Manager, nowMs: nat, p: RcParams)
    requires rc.Shaped() && m.machine.mode != Init && !Arming(m.machine)
    ensures Arming(LookForArming(rc, m, nowMs, p).1.machine) ==> SafetyAllowsArm(Safety(rc, p.armThreshold), p.arm)
  {
    hide InCorner, Safety;
  }

  lemma StaysUnarmed(m: Manager, event: Event, p: ArmParams)
    requires m.machine.mode != Init && !Arming(m.machine) && !event.RequestArm? && !event.HardfaultRearmRequested?
    ensures Updated(m, event, p).machine.mode != Init && !Arming(Updated(m, event, p).machine)
  {}

  lemma ConfigureStaysUnarmed(s: State, m: Manager, p: Params)
    requires m.machine.mode != Init && !Arming(m.machine)
    ensures var after := FailsafeConfigured(s, m, p).1.machine; after.mode != Init && !Arming(after)
  {
    hide Updated, Arming;
    StaysUnarmed(m, ErrorOccurred({INVALID_FAILSAFE}), p.rc.arm);
    StaysUnarmed(m, ErrorCleared({INVALID_FAILSAFE}), p.rc.arm);
  }

  lemma {:induction false} ReactedToStaysUnarmed(s: State, m: Manager, p: Params, changes: seq<ParamId>)
    requires m.machine.mode != Init && !Arming(m.machine)
    ensures var after := ReactedTo(s, m, p, changes).1.machine; after.mode != Init && !Arming(after)
    decreases |changes|
  {
    hide FailsafeConfigured, Arming;
    if |changes| > 0 {
      var (state, manager) := ReactedTo(s, m, p, changes[..|changes| - 1]);
      ReactedToStaysUnarmed(s, m, p, changes[..|changes| - 1]);
      ConfigureStaysUnarmed(state, manager, p);
    }
  }

  lemma ReactedStaysUnarmed(s: State, m: Manager, p: Params, e: Events)
    requires m.machine.mode != Init && !Arming(m.machine)
    ensures !Arming(Reacted(s, m, p, e).1.machine)
  {
    hide FailsafeConfigured, ReactedTo, Arming;
    ConfigureStaysUnarmed(s, m, p);
    ReactedToStaysUnarmed(s, m, p, e.changes);
  }

  lemma ReplayStaysUnarmed(m: Manager, p: ArmParams)
    requires m.machine.mode != Init && !Arming(m.machine)
    ensures !Arming(Replay(m, p).machine)
  {
    hide Updated, Arming;
    StaysUnarmed(m, ErrorCleared({}), p);
    StaysUnarmed(m, ErrorOccurred(m.machine.flags), p);
  }

  lemma SafetyIgnoresFreshness(rc: RcState, threshold: real)
    requires rc.Shaped()
    ensures Safety(rc.(newCommand := true), threshold) == Safety(rc, threshold)
  {}

  lemma RcStageArms(w: World, nowMs: nat, packet: Option<Packet>)
    requires w.Shaped() && WellFormed(packet) && w.manager.machine.mode != Init && !Arming(w.manager.machine)
    ensures Arming(RcStage(w, nowMs, packet).1.machine) ==> ArmingPass(w, Cycle(nowMs, packet))
  {
    hide Updated, Arming, LookForArming, Processed, Healthy, Safety, SafetyAllowsArm;
    if packet.Some? {
      var rc, p := Processed(Heard(w.rc, packet)), w.params.rc;
      StaysUnarmed(w.manager, ErrorOccurred({RC_LOST}), p.arm);
      StaysUnarmed(w.manager, ErrorCleared({RC_LOST}), p.arm);
      LookArms(rc.(newCommand := true), Updated(w.manager, ErrorCleared({RC_LOST}), p.arm), nowMs, p);
      SafetyIgnoresFreshness(rc, p.armThreshold);
    }
  }

  lemma FitsNotInit(m: Machine, rearmed: bool)
    requires FlagsFit(m, rearmed)
    ensures m.mode != Init
  {}

  /** Whatever happens, an unarmed vehicle starts arming only in an arming pass. */
  lemma TakeArms(w: World, h: Happening)
    requires Ready(w) && Possible(h) && !Arming(w.manager.machine) && Arming(Take(w, h).manager.machine)
    ensures ArmingPass(w, h)
  {
    hide Updated, Arming, Cycled, Reacted, WrittenAll, ArmingPass, RcStage, Replay, FlagsFit, LevelReady;
    FitsNotInit(w.manager.machine, false);
    match h
    case Cycle(nowMs, packet) =>
      RcStageArms(w, nowMs, packet);
      RcStageFits(w, nowMs, packet);
      CycleParts(w, nowMs, packet);
      var (rc, m) := RcStage(w, nowMs, packet);
      FitsNotInit(m.machine, false);
      if !Arming(m.machine) {
        StaysUnarmed(m, ErrorOccurred({RC_LOST}), w.params.rc.arm);
        ReplayStaysUnarmed(Checked(rc, m, nowMs, w.params), w.params.rc.arm);
      }
    case Service(writes) =>
      var (params, events) := WrittenAll(w.params, w.events, writes, w.manager.machine.IsArmed());
      ReactedStaysUnarmed(w.command, w.manager, params, events);
    case Tune(_) =>
    case Offboard(_, _) =>
    case Other(event) => StaysUnarmed(w.manager, event, w.params.rc.arm);
  }

  /**
  In every flight, a vehicle that is calibrating to arm, armed or in failsafe got there by a pass
  with a fresh packet on a healthy link and the throttle low, and has been so ever since.
  */
  lemma {:induction false} ArmedByPilot(rc: RcState, params: Params, hs: seq<Happening>) returns (k: nat)
    requires rc.Shaped() && AllPossible(hs) && Arming(Flight(Booted(rc, params), hs).manager.machine)
    ensures k < |hs| && ArmingPass(Flight(Booted(rc, params), hs[..k]), hs[k])
    ensures forall j :: k < j <= |hs| ==> Arming(Flight(Booted(rc, params), hs[..j]).manager.machine)
    decreases |hs|
  {
    hide Arming, Take, Possible, ArmingPass, Booted, Ready;
    var start, n := Booted(rc, params), |hs| - 1;
    if n < 0 {
      BootUnarmed(rc, params);
    }
    assert hs[..|hs|] == hs;
    if Arming(Flight(start, hs[..n]).manager.machine) {
      k := ArmedByPilot(rc, params, hs[..n]);
      assert hs[..n][..k] == hs[..k];
      forall j | k < j <= |hs| ensures Arming(Flight(start, hs[..j]).manager.machine) {
        if j <= n {
          assert hs[..n][..j] == hs[..j];
        }
      }
    } else {
      k := n;
      FlightReady(rc, params, hs[..n]);
      TakeArms(Flight(start, hs[..n]), hs[n]);
    }
  }

  lemma BootUnarmed(rc: RcState, params: Params)
    requires rc.Shaped()
    ensures !Arming(Booted(rc, params).manager.machine)
  {}
}
