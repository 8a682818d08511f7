/** Command arbitration: RC and offboard commands, timeouts, overrides and the failsafe command. */
module Command {
  import opened Wrappers
  import opened StateMachine
  import opened RemoteControl
  import Lockout

  datatype ControlType = Rate | Angle | Throttle | Passthrough
  datatype Channel = Channel(active: bool, controlType: ControlType, value: real)

  const IDLE_CHANNEL := Channel(false, Rate, 0.0)

  datatype Control = Control(
    stampMs: nat, qx: Channel, qy: Channel, qz: Channel, fx: Channel, fy: Channel, fz: Channel,
    passthrough: seq<Channel>)

  const IDLE_CONTROL := Control(
    0, IDLE_CHANNEL, IDLE_CHANNEL, IDLE_CHANNEL, IDLE_CHANNEL, IDLE_CHANNEL, IDLE_CHANNEL,
    [IDLE_CHANNEL, IDLE_CHANNEL, IDLE_CHANNEL, IDLE_CHANNEL])

  /**
  The parameters command arbitration reads; integers are the signed values behind the casts.  The
  take-min flag appears here and in `rc.arm`, since the mux and the arming guard default it differently.
  */
  datatype Params = Params(
    fixedWing: bool, failsafeThrottle: real, fAxis: int, attitudeModeRate: bool,
    maxRollRate: real, maxPitchRate: real, maxRoll: real, maxPitch: real, maxYawRate: real,
    overrideDeviation: real, overrideLagMs: int, offboardTimeoutMs: int,
    takeMinThrottle: bool, angleLockout: bool, rc: RcParams)

  // The bits of the override mask.
  const ATT_SWITCH: bv16 := 0x1
  const THR_SWITCH: bv16 := 0x2
  const X_BIT: bv16 := 0x4
  const Y_BIT: bv16 := 0x8
  const Z_BIT: bv16 := 0x10
  const T_BIT: bv16 := 0x20
  const OFFBOARD_X_INACTIVE: bv16 := 0x40
  const OFFBOARD_Y_INACTIVE: bv16 := 0x80
  const OFFBOARD_Z_INACTIVE: bv16 := 0x100
  const OFFBOARD_T_INACTIVE: bv16 := 0x200

  datatype State = State(
    rcCommand: Control, offboard: Control, combined: Control,
    multirotorFailsafe: Control, fixedWingFailsafe: Control,
    lastOffboardUs: nat, lastStickMs: seq<nat>,
    throttleOverride: bool, attitudeOverride: bool, rcOverride: bv16,
    lockout: Lockout.Machine)
  {
    predicate Shaped() {
      |lastStickMs| == 3
    }
  }

  /** A Rust `as u32` cast. */
  function AsU32(v: int): nat {
    v % 0x1_0000_0000
  }

  // ---------- Failsafe commands ----------

  const LEVEL := Channel(true, Angle, 0.0)

  function OnAxis(c: Control, axis: int, value: real): Control {
    if axis == 0 then c.(fx := c.fx.(value := value))
    else if axis == 1 then c.(fy := c.fy.(value := value))
    else c.(fz := c.fz.(value := value))
  }

  function ZeroForces(c: Control): Control {
    c.(fx := c.fx.(value := 0.0), fy := c.fy.(value := 0.0), fz := c.fz.(value := 0.0))
  }

  const NEW_MULTIROTOR_FAILSAFE := IDLE_CONTROL.(
    qx := LEVEL, qy := LEVEL, qz := Channel(true, Rate, 0.0),
    fx := Channel(true, Throttle, 0.0), fy := Channel(true, Throttle, 0.0), fz := Channel(true, Throttle, 0.0))

  const CENTRED := Channel(true, Passthrough, 0.0)

  const NEW_FIXED_WING_FAILSAFE := IDLE_CONTROL.(
    qx := CENTRED, qy := CENTRED, qz := CENTRED, fx := CENTRED, fy := CENTRED, fz := CENTRED)

  const INITIAL := State(
    IDLE_CONTROL, IDLE_CONTROL, IDLE_CONTROL, NEW_MULTIROTOR_FAILSAFE, NEW_FIXED_WING_FAILSAFE,
    0, [0, 0, 0], false, false, 0, Lockout.NEW)

  predicate ValidFailsafe(p: Params) {
    p.fixedWing || 0.0 <= p.failsafeThrottle <= 1.0
  }

  /** `update_failsafe_config`. */
  function FailsafeConfigured(s: State, m: Manager, p: Params): (State, Manager) {
    var throttle := if ValidFailsafe(p) then p.failsafeThrottle else 0.0;
    (s.(multirotorFailsafe := OnAxis(ZeroForces(s.multirotorFailsafe), p.fAxis, throttle),
        fixedWingFailsafe := ZeroForces(s.fixedWingFailsafe)),
     Updated(m, if ValidFailsafe(p) then ErrorCleared({INVALID_FAILSAFE}) else ErrorOccurred({INVALID_FAILSAFE}),
             p.rc.arm))
  }

  function FailsafeCommand(s: State, p: Params): Control {
    if p.fixedWing then s.fixedWingFailsafe else s.multirotorFailsafe
  }

  // ---------- Offboard commands ----------

  datatype OffboardMode = ModePassThrough | ModeRates | ModeAngles

  datatype OffboardMsg = OffboardMsg(
    mode: OffboardMode, qx: real, qy: real, qz: real, fx: real, fy: real, fz: real,
    activeQx: bool, activeQy: bool, activeQz: bool, activeFx: bool, activeFy: bool, activeFz: bool,
    passthrough: seq<real>, activePassthrough: seq<bool>)

  function AttitudeType(mode: OffboardMode): ControlType {
    match mode case ModePassThrough => Passthrough case ModeRates => Rate case ModeAngles => Angle
  }

  /** `set_new_offboard_command`; the active fields are the negated bits of the message's ignore mask. */
  function OffboardReceived(s: State, nowUs: nat, msg: OffboardMsg): State
    requires |msg.passthrough| == |msg.activePassthrough| == 4
  {
    var q := AttitudeType(msg.mode);
    var yaw := if msg.mode.ModePassThrough? then Passthrough else Rate;
    var f := if msg.mode.ModePassThrough? then Passthrough else Throttle;
    s.(lastOffboardUs := nowUs,
       offboard := Control(
         AsU32(nowUs / 1000),
         Channel(msg.activeQx, q, msg.qx), Channel(msg.activeQy, q, msg.qy), Channel(msg.activeQz, yaw, msg.qz),
         Channel(msg.activeFx, f, msg.fx), Channel(msg.activeFy, f, msg.fy), Channel(msg.activeFz, f, msg.fz),
         seq(4, i requires 0 <= i < 4 => Channel(msg.activePassthrough[i], Passthrough, msg.passthrough[i]))))
  }

  function Inactive(c: Channel): Channel {
    c.(active := false)
  }

  function AllInactive(c: Control): Control {
    Control(c.stampMs, Inactive(c.qx), Inactive(c.qy), Inactive(c.qz), Inactive(c.fx), Inactive(c.fy), Inactive(c.fz),
            seq(|c.passthrough|, i requires 0 <= i < |c.passthrough| => Inactive(c.passthrough[i])))
  }

  predicate TimedOut(s: State, nowUs: nat, p: Params) {
    nowUs > s.lastOffboardUs + AsU32(p.offboardTimeoutMs) * 1000
  }

  /** `update_offboard_timeout`. */
  function OffboardAt(s: State, nowUs: nat, p: Params): Control {
    if TimedOut(s, nowUs, p) then AllInactive(s.offboard) else s.offboard
  }

  // ---------- Estimator safety ----------

  predicate OffboardAngleRequested(offboard: Control) {
    || (offboard.qx.active && offboard.qx.controlType == Angle)
    || (offboard.qy.active && offboard.qy.controlType == Angle)
  }

  predicate SwitchSelects(rc: RcState, i: nat)
    requires rc.Shaped() && i < SWITCHES
  {
    rc.SwitchMapped(i) && rc.SwitchOn(i)
  }

  predicate RcAngleSelected(rc: RcState, p: Params)
    requires rc.Shaped()
  {
    if rc.SwitchMapped(ATT_TYPE) then rc.SwitchOn(ATT_TYPE) else !p.attitudeModeRate
  }

  function LockoutInput(offboard: Control, rc: RcState, m: Manager, p: Params): Lockout.Input
    requires rc.Shaped()
  {
    Lockout.Input(
      p.fixedWing, UNHEALTHY_ESTIMATOR in m.machine.flags, OffboardAngleRequested(offboard), RcAngleSelected(rc, p),
      SwitchSelects(rc, ATT_OVERRIDE) || !offboard.qx.active || !offboard.qy.active,
      rc.SwitchMapped(ATT_TYPE), !rc.SwitchOn(ATT_TYPE), p.attitudeModeRate)
  }

  /** `estimator_mode_safety`. */
  function ModeSafety(lockout: Lockout.Machine, offboard: Control, rc: RcState, m: Manager, p: Params)
    : (Lockout.Machine, Lockout.Output)
    requires rc.Shaped()
  {
    if p.fixedWing || !p.angleLockout then (Lockout.Reset(lockout), Lockout.NO_FORCE)
    else Lockout.Stepped(lockout, LockoutInput(offboard, rc, m, p))
  }

  // ---------- RC command ----------

  function RollPitchType(rc: RcState, p: Params, forceRate: bool): ControlType
    requires rc.Shaped()
  {
    if forceRate then Rate else if RcAngleSelected(rc, p) then Angle else Rate
  }

  /** `interpret_rc`. */
  function Interpreted(c: Control, rc: RcState, p: Params, forceRate: bool): Control
    requires rc.Shaped()
  {
    var (x, y, z, f) := (rc.Stick(STICK_X), rc.Stick(STICK_Y), rc.Stick(STICK_Z), rc.Stick(STICK_F));
    var forceType := if p.fixedWing then Passthrough else Throttle;
    var forces := OnAxis(
      c.(fx := Channel(true, forceType, 0.0), fy := Channel(true, forceType, 0.0), fz := Channel(true, forceType, 0.0)),
      p.fAxis, f);
    if p.fixedWing then
      forces.(qx := Channel(true, Passthrough, x), qy := Channel(true, Passthrough, y),
              qz := Channel(true, Passthrough, z))
    else
      var t := RollPitchType(rc, p, forceRate);
      forces.(qx := Channel(true, t, x * if t == Rate then p.maxRollRate else p.maxRoll),
              qy := Channel(true, t, y * if t == Rate then p.maxPitchRate else p.maxPitch),
              qz := Channel(true, Rate, z * p.maxYawRate))
  }

  // ---------- Muxing ----------

  function Abs(v: real): real {
    if v < 0.0 then -v else v
  }

  /** `attitude_stick_deviated`: deflected now, or within the lag of the last deflection. */
  predicate Deviated(last: nat, stick: real, p: Params, nowMs: nat) {
    nowMs < SatAdd(last, AsU32(p.overrideLagMs)) || Abs(stick) > p.overrideDeviation
  }

  /** The deflection time remembered afterwards: only a deflection outside the lag renews it. */
  function LastStick(last: nat, stick: real, p: Params, nowMs: nat): nat {
    if nowMs < SatAdd(last, AsU32(p.overrideLagMs)) || Abs(stick) <= p.overrideDeviation then last else nowMs
  }

  function Bit(on: bool, bit: bv16): bv16 {
    if on then bit else 0
  }

  /** Why attitude axes are taken from RC. */
  datatype AttitudeReasons = AttitudeReasons(
    attSwitch: bool, x: bool, y: bool, z: bool, xInactive: bool, yInactive: bool, zInactive: bool)
  {
    function Mask(): bv16 {
      Bit(attSwitch, ATT_SWITCH) | Bit(x, X_BIT) | Bit(xInactive, OFFBOARD_X_INACTIVE)
      | Bit(y, Y_BIT) | Bit(yInactive, OFFBOARD_Y_INACTIVE) | Bit(z, Z_BIT) | Bit(zInactive, OFFBOARD_Z_INACTIVE)
    }
  }

  /** Why the force axes are taken from RC. */
  datatype ThrottleReasons = ThrottleReasons(thrSwitch: bool, t: bool, tInactive: bool) {
    function Mask(): bv16 {
      Bit(thrSwitch, THR_SWITCH) | Bit(t, T_BIT) | Bit(tInactive, OFFBOARD_T_INACTIVE)
    }
  }

  function AxisOf(c: Control, axis: int): Channel {
    if axis == 0 then c.fx else if axis == 1 then c.fy else c.fz
  }

  function AttitudeReasonsFor(s: State, rc: RcState, p: Params, nowMs: nat, forceRcAttitude: bool): AttitudeReasons
    requires s.Shaped() && rc.Shaped()
  {
    AttitudeReasons(
      SwitchSelects(rc, ATT_OVERRIDE) || forceRcAttitude,
      Deviated(s.lastStickMs[STICK_X], rc.Stick(STICK_X), p, nowMs),
      Deviated(s.lastStickMs[STICK_Y], rc.Stick(STICK_Y), p, nowMs),
      Deviated(s.lastStickMs[STICK_Z], rc.Stick(STICK_Z), p, nowMs),
      !s.offboard.qx.active, !s.offboard.qy.active, !s.offboard.qz.active)
  }

  function ThrottleReasonsFor(s: State, rc: RcState, p: Params): ThrottleReasons
    requires rc.Shaped()
  {
    var throttle := AxisOf(s.offboard, p.fAxis);
    ThrottleReasons(
      SwitchSelects(rc, THROTTLE_OVERRIDE),
      throttle.active && p.takeMinThrottle && AxisOf(s.rcCommand, p.fAxis).value < throttle.value,
      !throttle.active)
  }

  function LastSticks(s: State, rc: RcState, p: Params, nowMs: nat): seq<nat>
    requires s.Shaped() && rc.Shaped()
  {
    [LastStick(s.lastStickMs[STICK_X], rc.Stick(STICK_X), p, nowMs),
     LastStick(s.lastStickMs[STICK_Y], rc.Stick(STICK_Y), p, nowMs),
     LastStick(s.lastStickMs[STICK_Z], rc.Stick(STICK_Z), p, nowMs)]
  }

  /** `do_attitude_muxing` on the combined command; the attitude force does not move yaw. */
  function AttitudeMuxed(s: State, rc: RcState, r: AttitudeReasons): Control
    requires rc.Shaped()
  {
    s.combined.(
      qx := if r.attSwitch || r.x || r.xInactive then s.rcCommand.qx else s.offboard.qx,
      qy := if r.attSwitch || r.y || r.yInactive then s.rcCommand.qy else s.offboard.qy,
      qz := if SwitchSelects(rc, ATT_OVERRIDE) || r.z || r.zInactive then s.rcCommand.qz else s.offboard.qz)
  }

  /** `do_throttle_muxing` on the combined command: all three force axes move together. */
  function ThrottleMuxed(s: State, combined: Control, r: ThrottleReasons): Control {
    var source := if r.Mask() != 0 then s.rcCommand else s.offboard;
    combined.(fx := source.fx, fy := source.fy, fz := source.fz)
  }

  /** `do_muxing`. */
  function Muxed(s: State, rc: RcState, p: Params, nowMs: nat, forceRcAttitude: bool): State
    requires s.Shaped() && rc.Shaped()
  {
    var a := AttitudeReasonsFor(s, rc, p, nowMs, forceRcAttitude);
    var t := ThrottleReasonsFor(s, rc, p);
    s.(combined := ThrottleMuxed(s, AttitudeMuxed(s, rc, a), t).(passthrough := s.offboard.passthrough),
       lastStickMs := LastSticks(s, rc, p, nowMs),
       rcOverride := a.Mask() | t.Mask(),
       attitudeOverride := a.Mask() != 0,
       throttleOverride := t.Mask() != 0)
  }

  // ---------- One run ----------

  datatype Outcome = Outcome(state: State, rc: RcState, manager: Manager, forceParamRate: bool)

  /** The manager after the health check of `run`. */
  function Checked(rc: RcState, m: Manager, nowMs: nat, p: Params): Manager
    requires rc.Shaped()
  {
    if Healthy(rc, nowMs * 1000, p.rc) then m else Updated(m, ErrorOccurred({RC_LOST}), p.rc.arm)
  }

  /** The state a non-failsafe run muxes, and whether it forces the RC attitude. */
  function Prepared(s: State, rc: RcState, m: Manager, nowMs: nat, p: Params): (State, Lockout.Output)
    requires rc.Shaped()
  {
    var offboard := OffboardAt(s, nowMs * 1000, p);
    var (lockout, force) := ModeSafety(s.lockout, offboard, rc, m, p);
    var rcCommand :=
      if rc.newCommand || force.forceRcRate then Interpreted(s.rcCommand, rc, p, force.forceRcRate) else s.rcCommand;
    (s.(offboard := offboard, lockout := lockout, rcCommand := rcCommand), force)
  }

  /** `run`. */
  function Arbitrated(s: State, rc: RcState, m: Manager, nowMs: nat, p: Params): Outcome
    requires s.Shaped() && rc.Shaped()
  {
    var manager := Checked(rc, m, nowMs, p);
    if manager.machine.IsInFailsafe() then
      Outcome(s.(combined := FailsafeCommand(s, p)), rc, manager, false)
    else
      var (prepared, force) := Prepared(s, rc, manager, nowMs, p);
      var consumed := rc.(newCommand := false);
      Outcome(Muxed(prepared, consumed, p, nowMs, force.forceRcAttitude), consumed, manager, force.forceParamRate)
  }

  lemma InterpretIgnoresFreshness(c: Control, rc: RcState, p: Params, forceRate: bool)
    requires rc.Shaped()
    ensures Interpreted(c, rc.(newCommand := false), p, forceRate) == Interpreted(c, rc, p, forceRate)
  {}

  lemma AxesInactive(s: State, rc: RcState, p: Params, nowMs: nat, forceRcAttitude: bool)
    requires s.Shaped() && rc.Shaped()
    ensures var r := AttitudeReasonsFor(s, rc, p, nowMs, forceRcAttitude);
      && r.xInactive == !s.offboard.qx.active && r.yInactive == !s.offboard.qy.active
      && r.zInactive == !s.offboard.qz.active
  {
    hide Deviated;
  }

  class CommandManager {
    var rcCommand: Control
    var offboardCommand: Control
    var combinedCommand: Control
    var multirotorFailsafeCommand: Control
    var fixedWingFailsafeCommand: Control
    var lastOffboardCommandUs: nat
    const lastStickOverrideTime: array<nat>
    var rcThrottleOverride: bool
    var rcAttitudeOverride: bool
    var rcOverride: bv16
    const lockout: Lockout.RcAngleModeLockoutMachine

    ghost predicate Valid()
      reads this
    {
      lastStickOverrideTime.Length == 3
    }

    ghost function Value(): (s: State)
      reads this, lastStickOverrideTime, lockout
      requires Valid()
      ensures s.Shaped()
    {
      State(rcCommand, offboardCommand, combinedCommand, multirotorFailsafeCommand, fixedWingFailsafeCommand,
            lastOffboardCommandUs, lastStickOverrideTime[..], rcThrottleOverride, rcAttitudeOverride, rcOverride,
            lockout.Value())
    }

    constructor ()
      ensures Valid() && Value() == INITIAL && fresh(lastStickOverrideTime) && fresh(lockout)
    {
      rcCommand, offboardCommand, combinedCommand := IDLE_CONTROL, IDLE_CONTROL, IDLE_CONTROL;
      multirotorFailsafeCommand, fixedWingFailsafeCommand := NEW_MULTIROTOR_FAILSAFE, NEW_FIXED_WING_FAILSAFE;
      lastOffboardCommandUs := 0;
      lastStickOverrideTime := new nat[3](_ => 0);
      rcThrottleOverride, rcAttitudeOverride, rcOverride := false, false, 0;
      lockout := new Lockout.RcAngleModeLockoutMachine();
    }

    method UpdateFailsafeConfig(p: Params, state: StateManager)
      requires Valid()
      modifies `multirotorFailsafeCommand, `fixedWingFailsafeCommand, state
      ensures (Value(), state.Value()) == FailsafeConfigured(old(Value()), old(state.Value()), p)
    {
      hide Updated;
      var throttle := p.failsafeThrottle;
      if !p.fixedWing && (throttle < 0.0 || throttle > 1.0) {
        state.Update(ErrorOccurred({INVALID_FAILSAFE}), p.rc.arm);
        throttle := 0.0;
      } else {
        state.Update(ErrorCleared({INVALID_FAILSAFE}), p.rc.arm);
      }
      multirotorFailsafeCommand := OnAxis(ZeroForces(multirotorFailsafeCommand), p.fAxis, throttle);
      fixedWingFailsafeCommand := ZeroForces(fixedWingFailsafeCommand);
    }

    method UpdateOffboardTimeout(nowUs: nat, p: Params)
      requires Valid()
      modifies `offboardCommand
      ensures offboardCommand == OffboardAt(old(Value()), nowUs, p)
    {
      if nowUs <= lastOffboardCommandUs + AsU32(p.offboardTimeoutMs) * 1000 {
        return;
      }
      offboardCommand := AllInactive(offboardCommand);
    }

    method SetNewOffboardCommand(nowUs: nat, msg: OffboardMsg)
      requires Valid() && |msg.passthrough| == |msg.activePassthrough| == 4
      modifies `lastOffboardCommandUs, `offboardCommand
      ensures Value() == OffboardReceived(old(Value()), nowUs, msg)
    {
      var q := AttitudeType(msg.mode);
      var yaw := if msg.mode.ModePassThrough? then Passthrough else Rate;
      var f := if msg.mode.ModePassThrough? then Passthrough else Throttle;
      lastOffboardCommandUs := nowUs;
      offboardCommand := Control(
        AsU32(nowUs / 1000),
        Channel(msg.activeQx, q, msg.qx), Channel(msg.activeQy, q, msg.qy), Channel(msg.activeQz, yaw, msg.qz),
        Channel(msg.activeFx, f, msg.fx), Channel(msg.activeFy, f, msg.fy), Channel(msg.activeFz, f, msg.fz),
        seq(4, i requires 0 <= i < 4 => Channel(msg.activePassthrough[i], Passthrough, msg.passthrough[i])));
    }

    method EstimatorModeSafety(p: Params, rc: Rc, state: StateManager) returns (out: Lockout.Output)
      requires Valid() && rc.Valid()
      modifies lockout
      ensures (lockout.Value(), out) == ModeSafety(old(lockout.Value()), offboardCommand, rc.Value(), state.Value(), p)
    {
      if p.fixedWing || !p.angleLockout {
        lockout.ResetMachine();
        return Lockout.NO_FORCE;
      }
      var attOverride := rc.switches[ATT_OVERRIDE].mapped && rc.switchValues[ATT_OVERRIDE];
      var attTypeMapped, attTypeOn := rc.switches[ATT_TYPE].mapped, rc.switchValues[ATT_TYPE];
      out := lockout.Step(Lockout.Input(
        p.fixedWing, UNHEALTHY_ESTIMATOR in state.machine.flags, OffboardAngleRequested(offboardCommand),
        if attTypeMapped then attTypeOn else !p.attitudeModeRate,
        attOverride || !offboardCommand.qx.active || !offboardCommand.qy.active,
        attTypeMapped, !attTypeOn, p.attitudeModeRate));
    }

    method InterpretRc(rc: Rc, p: Params, forceRate: bool)
      requires Valid() && rc.Valid()
      modifies `rcCommand
      ensures rcCommand == Interpreted(old(rcCommand), rc.Value(), p, forceRate)
    {
      var x, y, z := rc.stickValues[STICK_X], rc.stickValues[STICK_Y], rc.stickValues[STICK_Z];
      var forceType := if p.fixedWing then Passthrough else Throttle;
      var zero := Channel(true, forceType, 0.0);
      rcCommand := OnAxis(rcCommand.(fx := zero, fy := zero, fz := zero), p.fAxis, rc.stickValues[STICK_F]);
      if p.fixedWing {
        rcCommand := rcCommand.(
          qx := Channel(true, Passthrough, x), qy := Channel(true, Passthrough, y),
          qz := Channel(true, Passthrough, z));
      } else {
        var rollPitchType := Rate;
        if !forceRate {
          if rc.switches[ATT_TYPE].mapped {
            rollPitchType := if rc.switchValues[ATT_TYPE] then Angle else Rate;
          } else if !p.attitudeModeRate {
            rollPitchType := Angle;
          }
        }
        if rollPitchType == Rate {
          x, y := x * p.maxRollRate, y * p.maxPitchRate;
        } else {
          x, y := x * p.maxRoll, y * p.maxPitch;
        }
        rcCommand := rcCommand.(
          qx := Channel(true, rollPitchType, x), qy := Channel(true, rollPitchType, y),
          qz := Channel(true, Rate, z * p.maxYawRate));
      }
    }

    method AttitudeStickDeviated(rc: Rc, i: nat, p: Params, nowMs: nat) returns (deviated: bool)
      requires Valid() && rc.Valid() && i < 3
      modifies lastStickOverrideTime
      ensures deviated == Deviated(old(lastStickOverrideTime[i]), rc.stickValues[i], p, nowMs)
      ensures lastStickOverrideTime[i] == LastStick(old(lastStickOverrideTime[i]), rc.stickValues[i], p, nowMs)
      ensures forall j :: 0 <= j < 3 && j != i ==> lastStickOverrideTime[j] == old(lastStickOverrideTime[j])
    {
      if nowMs < SatAdd(lastStickOverrideTime[i], AsU32(p.overrideLagMs)) {
        return true;
      }
      if Abs(rc.stickValues[i]) <= p.overrideDeviation {
        return false;
      }
      lastStickOverrideTime[i] := nowMs;
      return true;
    }

    method AllSticksDeviated(rc: Rc, p: Params, nowMs: nat) returns (x: bool, y: bool, z: bool)
      requires Valid() && rc.Valid()
      modifies lastStickOverrideTime
      ensures x == Deviated(old(lastStickOverrideTime[STICK_X]), rc.stickValues[STICK_X], p, nowMs)
      ensures y == Deviated(old(lastStickOverrideTime[STICK_Y]), rc.stickValues[STICK_Y], p, nowMs)
      ensures z == Deviated(old(lastStickOverrideTime[STICK_Z]), rc.stickValues[STICK_Z], p, nowMs)
      ensures lastStickOverrideTime[..] == LastSticks(old(Value()), rc.Value(), p, nowMs)
    {
      hide LastStick, Deviated;
      x := AttitudeStickDeviated(rc, STICK_X, p, nowMs);
      y := AttitudeStickDeviated(rc, STICK_Y, p, nowMs);
      z := AttitudeStickDeviated(rc, STICK_Z, p, nowMs);
    }

    /** Why each attitude axis would be taken from RC; this is where the deflection times move. */
    method FindAttitudeReasons(p: Params, rc: Rc, nowMs: nat, forceRcAttitude: bool) returns (reasons: AttitudeReasons)
      requires Valid() && rc.Valid()
      modifies lastStickOverrideTime
      ensures lastStickOverrideTime[..] == LastSticks(old(Value()), rc.Value(), p, nowMs)
      ensures reasons == AttitudeReasonsFor(old(Value()), rc.Value(), p, nowMs, forceRcAttitude)
    {
      hide LastSticks, Deviated, AttitudeReasons.Mask;
      var switchOverride := rc.switches[ATT_OVERRIDE].mapped && rc.switchValues[ATT_OVERRIDE];
      var x, y, z := AllSticksDeviated(rc, p, nowMs);
      return AttitudeReasons(
          switchOverride || forceRcAttitude, x, y, z,
          !offboardCommand.qx.active, !offboardCommand.qy.active, !offboardCommand.qz.active);
    }

    /** The attitude part of the mux: three sources chosen, and the mask that says why. */
    method DoAttitudeMuxing(p: Params, rc: Rc, nowMs: nat, forceRcAttitude: bool) returns (mask: bv16)
      requires Valid() && rc.Valid()
      modifies `combinedCommand, lastStickOverrideTime
      ensures lastStickOverrideTime[..] == LastSticks(old(Value()), rc.Value(), p, nowMs)
      ensures var r := AttitudeReasonsFor(old(Value()), rc.Value(), p, nowMs, forceRcAttitude);
        mask == r.Mask() && combinedCommand == AttitudeMuxed(old(Value()), rc.Value(), r)
    {
      hide LastSticks, AttitudeReasonsFor, AttitudeReasons.Mask;
      var r := FindAttitudeReasons(p, rc, nowMs, forceRcAttitude);
      var switchOverride := rc.switches[ATT_OVERRIDE].mapped && rc.switchValues[ATT_OVERRIDE];
      var offboard := offboardCommand;
      combinedCommand := combinedCommand.(
        qx := if r.attSwitch || r.x || !offboard.qx.active then rcCommand.qx else offboard.qx,
        qy := if r.attSwitch || r.y || !offboard.qy.active then rcCommand.qy else offboard.qy,
        qz := if switchOverride || r.z || !offboard.qz.active then rcCommand.qz else offboard.qz);
      AxesInactive(old(Value()), rc.Value(), p, nowMs, forceRcAttitude);
      mask := r.Mask();
    }

    method DoThrottleMuxing(p: Params, rc: Rc) returns (mask: bv16)
      requires Valid() && rc.Valid()
      modifies `combinedCommand
      ensures var r := ThrottleReasonsFor(old(Value()), rc.Value(), p);
        mask == r.Mask() && combinedCommand == ThrottleMuxed(old(Value()), old(combinedCommand), r)
    {
      hide ThrottleReasons.Mask;
      var rcThrottle, throttle := AxisOf(rcCommand, p.fAxis).value, AxisOf(offboardCommand, p.fAxis);
      var reasons := ThrottleReasons(
        rc.switches[THROTTLE_OVERRIDE].mapped && rc.switchValues[THROTTLE_OVERRIDE],
        throttle.active && p.takeMinThrottle && rcThrottle < throttle.value,
        !throttle.active);
      mask := reasons.Mask();
      if mask != 0 {
        combinedCommand := combinedCommand.(fx := rcCommand.fx, fy := rcCommand.fy, fz := rcCommand.fz);
      } else {
        combinedCommand := combinedCommand.(
          fx := offboardCommand.fx, fy := offboardCommand.fy, fz := offboardCommand.fz);
      }
    }

    method DoMuxing(p: Params, rc: Rc, nowMs: nat, forceRcAttitude: bool)
      requires Valid() && rc.Valid()
      modifies `combinedCommand, `rcOverride, `rcAttitudeOverride, `rcThrottleOverride, lastStickOverrideTime
      ensures Value() == Muxed(old(Value()), rc.Value(), p, nowMs, forceRcAttitude)
    {
      hide AttitudeReasonsFor, LastSticks, AttitudeReasons.Mask, ThrottleReasons.Mask, AttitudeMuxed;
      var attitude := DoAttitudeMuxing(p, rc, nowMs, forceRcAttitude);
      var throttle := DoThrottleMuxing(p, rc);
      rcOverride := attitude | throttle;
      rcAttitudeOverride := attitude != 0;
      rcThrottleOverride := throttle != 0;
      combinedCommand := combinedCommand.(passthrough := offboardCommand.passthrough);
    }

    /** The timeout, the estimator safety and the RC command, in the order of `run`. */
    method Prepare(nowMs: nat, p: Params, rc: Rc, state: StateManager) returns (force: Lockout.Output)
      requires Valid() && rc.Valid()
      modifies `offboardCommand, `rcCommand, lockout, rc`newCommand
      ensures rc.Value() == old(rc.Value()).(newCommand := false)
      ensures (Value(), force) == Prepared(old(Value()), old(rc.Value()), state.Value(), nowMs, p)
    {
      hide ModeSafety, Interpreted, OffboardAt;
      UpdateOffboardTimeout(nowMs * 1000, p);
      force := EstimatorModeSafety(p, rc, state);
      ghost var rcBefore := rc.Value();
      var hasNewRc := rc.TakeNewCommand();
      if hasNewRc || force.forceRcRate {
        InterpretIgnoresFreshness(rcCommand, rcBefore, p, force.forceRcRate);
        InterpretRc(rc, p, force.forceRcRate);
      }
    }

    /** The part of `run` below the failsafe exit. */
    method Arbitrate(nowMs: nat, p: Params, rc: Rc, state: StateManager) returns (forceParamRate: bool)
      requires Valid() && rc.Valid()
      modifies this, lastStickOverrideTime, lockout, rc`newCommand
      ensures Valid() && rc.Valid() && rc.Value() == old(rc.Value()).(newCommand := false)
      ensures var (prepared, force) := Prepared(old(Value()), old(rc.Value()), old(state.Value()), nowMs, p);
        && forceParamRate == force.forceParamRate
        && Value() == Muxed(prepared, old(rc.Value()).(newCommand := false), p, nowMs, force.forceRcAttitude)
    {
      hide Muxed, Prepared;
      var force := Prepare(nowMs, p, rc, state);
      DoMuxing(p, rc, nowMs, force.forceRcAttitude);
      return force.forceParamRate;
    }

    /** `run`; the result says whether the attitude-mode parameter must be set to rate. */
    method Run(nowMs: nat, p: Params, rc: Rc, state: StateManager) returns (forceParamRate: bool)
      requires Valid() && rc.Valid()
      modifies this, lastStickOverrideTime, lockout, rc`newCommand, state
      ensures Valid() && rc.Valid()
      ensures Outcome(Value(), rc.Value(), state.Value(), forceParamRate)
           == Arbitrated(old(Value()), old(rc.Value()), old(state.Value()), nowMs, p)
    {
      hide Updated, Muxed, Healthy, Prepared;
      var healthy := rc.CheckRcHealth(nowMs * 1000, p.rc);
      if !healthy {
        state.Update(ErrorOccurred({RC_LOST}), p.rc.arm);
      }
      if state.machine.IsInFailsafe() {
        combinedCommand := if p.fixedWing then fixedWingFailsafeCommand else multirotorFailsafeCommand;
        return false;
      }
      forceParamRate := Arbitrate(nowMs, p, rc, state);
    }
  }
}
