/** What every run of command arbitration guarantees. */
module CommandSafety {
  import opened Wrappers
  import opened StateMachine
  import opened RemoteControl
  import opened Command
  import Lockout

  // ---------- Loss of link ----------

  /** The failsafe commands of a configured vehicle: level attitude, no yaw rate, a valid throttle on one axis only. */
  predicate LevelFailsafe(c: Control) {
    && c.qx == LEVEL && c.qy == LEVEL && c.qz == Channel(true, Rate, 0.0)
    && (forall ch :: ch in [c.fx, c.fy, c.fz] ==> ch.active && ch.controlType == Throttle)
  }

  predicate OneAxis(c: Control, axis: int, value: real) {
    && c.fx.value == (if axis == 0 then value else 0.0)
    && c.fy.value == (if axis == 1 then value else 0.0)
    && c.fz.value == (if axis != 0 && axis != 1 then value else 0.0)
  }

  /** After configuration the multirotor failsafe is level with the configured throttle, 0 when it is out of range. */
  lemma FailsafeConfiguration(s: State, m: Manager, p: Params)
    requires LevelFailsafe(s.multirotorFailsafe)
    ensures var (s', m') := FailsafeConfigured(s, m, p);
      && LevelFailsafe(s'.multirotorFailsafe)
      && OneAxis(s'.multirotorFailsafe, p.fAxis, if ValidFailsafe(p) then p.failsafeThrottle else 0.0)
      && (INVALID_FAILSAFE in m'.machine.flags <==> !ValidFailsafe(p))
  {}

  /** Armed on entry and RC unhealthy: the combined command is the vehicle type's failsafe command. */
  lemma LossOfLinkFailsafe(s: State, rc: RcState, m: Manager, nowMs: nat, p: Params)
    requires s.Shaped() && rc.Shaped() && m.machine.IsArmed() && !Healthy(rc, nowMs * 1000, p.rc)
    ensures var o := Arbitrated(s, rc, m, nowMs, p);
      o.manager.machine.mode == Failsafe && o.state == s.(combined := FailsafeCommand(s, p))
  {
    hide Healthy;
  }

  // ---------- Sources ----------

  ghost predicate RunsNormally(s: State, rc: RcState, m: Manager, nowMs: nat, p: Params) {
    s.Shaped() && rc.Shaped() && !Checked(rc, m, nowMs, p).machine.IsInFailsafe()
  }

  const ROLL_OVERRIDE_MASK: bv16 := ATT_SWITCH | X_BIT | OFFBOARD_X_INACTIVE
  const PITCH_OVERRIDE_MASK: bv16 := ATT_SWITCH | Y_BIT | OFFBOARD_Y_INACTIVE
  const FORCE_OVERRIDE_MASK: bv16 := THR_SWITCH | T_BIT | OFFBOARD_T_INACTIVE
  const ATTITUDE_OVERRIDE_MASK: bv16 := ROLL_OVERRIDE_MASK | PITCH_OVERRIDE_MASK | Z_BIT | OFFBOARD_Z_INACTIVE

  lemma AttitudeBits(a: AttitudeReasons, t: ThrottleReasons)
    ensures (a.Mask() | t.Mask()) & ROLL_OVERRIDE_MASK != 0 <==> a.attSwitch || a.x || a.xInactive
    ensures (a.Mask() | t.Mask()) & PITCH_OVERRIDE_MASK != 0 <==> a.attSwitch || a.y || a.yInactive
    ensures (a.Mask() | t.Mask()) & FORCE_OVERRIDE_MASK != 0 <==> t.Mask() != 0
    ensures (a.Mask() | t.Mask()) & ATTITUDE_OVERRIDE_MASK != 0 <==> a.Mask() != 0
    ensures t.Mask() != 0 <==> t.thrSwitch || t.t || t.tInactive
    ensures (a.Mask() | t.Mask()) & X_BIT != 0 <==> a.x
    ensures (a.Mask() | t.Mask()) & Y_BIT != 0 <==> a.y
  {}

  /** The combined command takes a channel from `rc` or else from an active `offboard`, according to `fromRc`. */
  predicate TakenFrom(combined: Channel, rc: Channel, offboard: Channel, fromRc: bool) {
    if fromRc then combined == rc else combined == offboard && offboard.active
  }

  predicate SameForces(a: Control, b: Control) {
    a.fx == b.fx && a.fy == b.fy && a.fz == b.fz
  }

  predicate SameMoments(a: Control, b: Control) {
    a.qx == b.qx && a.qy == b.qy && a.qz == b.qz
  }

  /**
  The override mask is an exact code for the sources: on every non-failsafe run, roll (pitch) is
  taken from RC exactly when the mask meets the roll (pitch) mask, the force axes exactly when it
  meets a throttle bit, and otherwise from an active offboard channel.
  */
  lemma MaskCodesSources(s: State, rc: RcState, m: Manager, nowMs: nat, p: Params)
    requires RunsNormally(s, rc, m, nowMs, p)
    ensures var out := Arbitrated(s, rc, m, nowMs, p).state;
      var (from, _) := Prepared(s, rc, Checked(rc, m, nowMs, p), nowMs, p);
      && out.rcCommand == from.rcCommand && out.offboard == from.offboard
      && out.combined.passthrough == out.offboard.passthrough
      && (out.attitudeOverride <==> out.rcOverride & ATTITUDE_OVERRIDE_MASK != 0)
      && (out.throttleOverride <==> out.rcOverride & FORCE_OVERRIDE_MASK != 0)
      && TakenFrom(out.combined.qx, out.rcCommand.qx, out.offboard.qx, out.rcOverride & ROLL_OVERRIDE_MASK != 0)
      && TakenFrom(out.combined.qy, out.rcCommand.qy, out.offboard.qy, out.rcOverride & PITCH_OVERRIDE_MASK != 0)
      && (if out.rcOverride & FORCE_OVERRIDE_MASK != 0
          then SameForces(out.combined, out.rcCommand)
          else SameForces(out.combined, out.offboard) && AxisOf(out.offboard, p.fAxis).active)
  {
    hide Prepared, Checked, AttitudeReasons.Mask, ThrottleReasons.Mask, Deviated, LastSticks;
    var (from, force) := Prepared(s, rc, Checked(rc, m, nowMs, p), nowMs, p);
    PreparedShape(s, rc, Checked(rc, m, nowMs, p), nowMs, p);
    var consumed := rc.(newCommand := false);
    var a := AttitudeReasonsFor(from, consumed, p, nowMs, force.forceRcAttitude);
    var t := ThrottleReasonsFor(from, consumed, p);
    AttitudeBits(a, t);
  }

  lemma PreparedShape(s: State, rc: RcState, m: Manager, nowMs: nat, p: Params)
    requires s.Shaped() && rc.Shaped()
    ensures var from := Prepared(s, rc, m, nowMs, p).0;
      from.Shaped() && from.offboard == OffboardAt(s, nowMs * 1000, p) && from.lastStickMs == s.lastStickMs
  {}

  /**
  With take-min on, an active offboard throttle and no throttle switch, the throttle axis carries the
  smaller value.
  */
  lemma ThrottleTakesMinimum(s: State, rc: RcState, m: Manager, nowMs: nat, p: Params)
    requires RunsNormally(s, rc, m, nowMs, p)
    requires p.takeMinThrottle && !SwitchSelects(rc, THROTTLE_OVERRIDE)
    requires AxisOf(OffboardAt(s, nowMs * 1000, p), p.fAxis).active
    ensures var out := Arbitrated(s, rc, m, nowMs, p).state;
      var (ours, theirs) := (AxisOf(out.rcCommand, p.fAxis).value, AxisOf(out.offboard, p.fAxis).value);
      AxisOf(out.combined, p.fAxis).value == if ours < theirs then ours else theirs
  {
    hide Prepared, Checked, AttitudeReasons.Mask, ThrottleReasons.Mask, Deviated, LastSticks;
    hide AttitudeMuxed, AttitudeReasonsFor;
    var (from, force) := Prepared(s, rc, Checked(rc, m, nowMs, p), nowMs, p);
    PreparedShape(s, rc, Checked(rc, m, nowMs, p), nowMs, p);
    var consumed := rc.(newCommand := false);
    var a := AttitudeReasonsFor(from, consumed, p, nowMs, force.forceRcAttitude);
    AttitudeBits(a, ThrottleReasonsFor(from, consumed, p));
  }

  /** Once offboard has been silent for the timeout, no channel of the combined command is an active offboard one. */
  lemma OffboardExpires(s: State, rc: RcState, m: Manager, nowMs: nat, p: Params)
    requires RunsNormally(s, rc, m, nowMs, p) && TimedOut(s, nowMs * 1000, p)
    ensures var out := Arbitrated(s, rc, m, nowMs, p).state;
      && SameMoments(out.combined, out.rcCommand) && SameForces(out.combined, out.rcCommand)
      && forall i :: 0 <= i < |out.combined.passthrough| ==> !out.combined.passthrough[i].active
  {
    hide Prepared, Checked, AttitudeReasons.Mask, ThrottleReasons.Mask, Deviated, LastSticks;
    var (from, force) := Prepared(s, rc, Checked(rc, m, nowMs, p), nowMs, p);
    PreparedShape(s, rc, Checked(rc, m, nowMs, p), nowMs, p);
    var consumed := rc.(newCommand := false);
    var a := AttitudeReasonsFor(from, consumed, p, nowMs, force.forceRcAttitude);
    AttitudeBits(a, ThrottleReasonsFor(from, consumed, p));
  }

  /** The channel a message asks for. */
  predicate Asked(c: Channel, active: bool, controlType: ControlType, value: real) {
    c == Channel(active, controlType, value)
  }

  /**
  A message is in force until the timeout: at every time until then the active offboard channels are
  the ones it does not ignore, with the types of its mode; afterwards none is active.
  */
  lemma MessageInForce(s: State, nowUs: nat, msg: OffboardMsg, t: nat, p: Params)
    requires |msg.passthrough| == |msg.activePassthrough| == 4
    ensures var c := OffboardAt(OffboardReceived(s, nowUs, msg), t, p);
      var current := t <= nowUs + AsU32(p.offboardTimeoutMs) * 1000;
      var q := match msg.mode case ModePassThrough => Passthrough case ModeRates => Rate case ModeAngles => Angle;
      var yaw := if q == Passthrough then Passthrough else Rate;
      var f := if q == Passthrough then Passthrough else Throttle;
      && Asked(c.qx, current && msg.activeQx, q, msg.qx) && Asked(c.qy, current && msg.activeQy, q, msg.qy)
      && Asked(c.qz, current && msg.activeQz, yaw, msg.qz) && Asked(c.fx, current && msg.activeFx, f, msg.fx)
      && Asked(c.fy, current && msg.activeFy, f, msg.fy) && Asked(c.fz, current && msg.activeFz, f, msg.fz)
      && |c.passthrough| == 4 && c.stampMs == (nowUs / 1000) % 0x1_0000_0000
      && forall i :: 0 <= i < 4 ==>
           Asked(c.passthrough[i], current && msg.activePassthrough[i], Passthrough, msg.passthrough[i])
  {}

  /**
  On every non-failsafe run before the timeout, roll and pitch fly the value of the last message
  unless the override mask takes them; past the timeout the mask takes both.
  */
  lemma MessageFlies(
      s: State, messageUs: nat, msg: OffboardMsg, rc: RcState, m: Manager, nowMs: nat, p: Params)
    requires |msg.passthrough| == |msg.activePassthrough| == 4
    requires RunsNormally(OffboardReceived(s, messageUs, msg), rc, m, nowMs, p)
    ensures var out := Arbitrated(OffboardReceived(s, messageUs, msg), rc, m, nowMs, p).state;
      var (roll, pitch) := (out.rcOverride & ROLL_OVERRIDE_MASK != 0, out.rcOverride & PITCH_OVERRIDE_MASK != 0);
      && (!roll ==> Asked(out.combined.qx, msg.activeQx, AttitudeType(msg.mode), msg.qx) && msg.activeQx)
      && (!pitch ==> Asked(out.combined.qy, msg.activeQy, AttitudeType(msg.mode), msg.qy) && msg.activeQy)
      && (nowMs * 1000 > messageUs + AsU32(p.offboardTimeoutMs) * 1000 ==> roll && pitch)
  {
    hide Arbitrated, OffboardReceived, OffboardAt, Prepared, Checked, RunsNormally;
    var informed := OffboardReceived(s, messageUs, msg);
    MaskCodesSources(informed, rc, m, nowMs, p);
    RunShape(informed, rc, m, nowMs, p);
    MessageInForce(s, messageUs, msg, nowMs * 1000, p);
  }

  lemma RunShape(s: State, rc: RcState, m: Manager, nowMs: nat, p: Params)
    requires RunsNormally(s, rc, m, nowMs, p)
    ensures Arbitrated(s, rc, m, nowMs, p).state.offboard == OffboardAt(s, nowMs * 1000, p)
  {
    hide Prepared, Checked, OffboardAt;
    hide AttitudeReasonsFor, ThrottleReasonsFor, LastSticks, AttitudeMuxed, ThrottleMuxed;
    PreparedShape(s, rc, Checked(rc, m, nowMs, p), nowMs, p);
  }

  // ---------- Yaw ----------

  const YAW_OVERRIDE_MASK: bv16 := ATT_SWITCH | Z_BIT | OFFBOARD_Z_INACTIVE

  lemma YawBits(a: AttitudeReasons, t: ThrottleReasons)
    ensures (a.Mask() | t.Mask()) & YAW_OVERRIDE_MASK != 0 <==> a.attSwitch || a.z || a.zInactive
  {}

  /** What takes yaw from RC: the switch, a deflected stick, or no offboard yaw; a forced attitude does not. */
  predicate YawFromRc(s: State, rc: RcState, nowMs: nat, p: Params)
    requires s.Shaped() && rc.Shaped()
  {
    || SwitchSelects(rc, ATT_OVERRIDE) || !OffboardAt(s, nowMs * 1000, p).qz.active
    || Deviated(s.lastStickMs[STICK_Z], rc.Stick(STICK_Z), p, nowMs)
  }

  /**
  Yaw is not coded by the mask: on every non-failsafe run the bits that would code it are right
  exactly when the estimator did not force the attitude to RC, or yaw was to come from RC anyway.
  */
  lemma YawCodedUnlessForced(s: State, rc: RcState, m: Manager, nowMs: nat, p: Params)
    requires RunsNormally(s, rc, m, nowMs, p)
    ensures var out := Arbitrated(s, rc, m, nowMs, p).state;
      var (_, force) := Prepared(s, rc, Checked(rc, m, nowMs, p), nowMs, p);
      var fromRc := YawFromRc(s, rc, nowMs, p);
      && TakenFrom(out.combined.qz, out.rcCommand.qz, out.offboard.qz, fromRc)
      && ((out.rcOverride & YAW_OVERRIDE_MASK != 0) == fromRc <==> !force.forceRcAttitude || fromRc)
  {
    hide Prepared, Checked, AttitudeReasons.Mask, ThrottleReasons.Mask, Deviated, LastSticks, OffboardAt, LastStick;
    var (from, force) := Prepared(s, rc, Checked(rc, m, nowMs, p), nowMs, p);
    PreparedShape(s, rc, Checked(rc, m, nowMs, p), nowMs, p);
    var consumed := rc.(newCommand := false);
    YawBits(AttitudeReasonsFor(from, consumed, p, nowMs, force.forceRcAttitude), ThrottleReasonsFor(from, consumed, p));
  }

  // ---------- What the sticks command ----------

  /** A channel flown by a stick: unscaled on a fixed wing, otherwise scaled by the limit of its type. */
  predicate FlownBy(c: Channel, stick: real, p: Params, maxRate: real, maxAngle: real) {
    && c.active
    && if p.fixedWing then c.controlType == Passthrough && c.value == stick
       else
         || (c.controlType == Rate && c.value == stick * maxRate)
         || (c.controlType == Angle && c.value == stick * maxAngle)
  }

  /** The force axes flown by the throttle stick: its own axis carries the stick, the two others nothing. */
  predicate ForcesFlownBy(c: Control, stick: real, p: Params) {
    && OneAxis(c, p.fAxis, stick)
    && (forall ch :: ch in [c.fx, c.fy, c.fz] ==>
          ch.active && ch.controlType == if p.fixedWing then Passthrough else Throttle)
  }

  lemma SticksPrepared(s: State, rc: RcState, m: Manager, nowMs: nat, p: Params)
    requires s.Shaped() && rc.Shaped() && rc.newCommand
    ensures var c := Prepared(s, rc, m, nowMs, p).0.rcCommand;
      && FlownBy(c.qx, rc.Stick(STICK_X), p, p.maxRollRate, p.maxRoll)
      && FlownBy(c.qy, rc.Stick(STICK_Y), p, p.maxPitchRate, p.maxPitch)
      && FlownBy(c.qz, rc.Stick(STICK_Z), p, p.maxYawRate, 0.0) && c.qz.controlType != Angle
      && c.qx.controlType == c.qy.controlType && ForcesFlownBy(c, rc.Stick(STICK_F), p)
  {
    hide OffboardAt, ModeSafety;
  }

  /**
  On every non-failsafe run with fresh RC, each axis that RC flies carries its own stick: roll stick X
  and pitch stick Y, by the rate or the angle limit of their common type; yaw stick Z, by the yaw rate;
  and the throttle axis stick F, with nothing on the other two.
  */
  lemma SticksFly(s: State, rc: RcState, m: Manager, nowMs: nat, p: Params)
    requires RunsNormally(s, rc, m, nowMs, p) && rc.newCommand
    ensures var out := Arbitrated(s, rc, m, nowMs, p).state;
      && (out.rcOverride & ROLL_OVERRIDE_MASK != 0 ==>
            FlownBy(out.combined.qx, rc.Stick(STICK_X), p, p.maxRollRate, p.maxRoll))
      && (out.rcOverride & PITCH_OVERRIDE_MASK != 0 ==>
            FlownBy(out.combined.qy, rc.Stick(STICK_Y), p, p.maxPitchRate, p.maxPitch))
      && (YawFromRc(s, rc, nowMs, p) ==>
            FlownBy(out.combined.qz, rc.Stick(STICK_Z), p, p.maxYawRate, 0.0) && out.combined.qz.controlType != Angle)
      && (out.rcOverride & FORCE_OVERRIDE_MASK != 0 ==> ForcesFlownBy(out.combined, rc.Stick(STICK_F), p))
  {
    hide Arbitrated, Prepared, Checked, YawFromRc, FlownBy;
    SticksPrepared(s, rc, Checked(rc, m, nowMs, p), nowMs, p);
    MaskCodesSources(s, rc, m, nowMs, p);
    YawCodedUnlessForced(s, rc, m, nowMs, p);
    SameForcesFlown(Arbitrated(s, rc, m, nowMs, p).state, rc.Stick(STICK_F), p);
  }

  lemma SameForcesFlown(out: State, stick: real, p: Params)
    requires ForcesFlownBy(out.rcCommand, stick, p)
    ensures SameForces(out.combined, out.rcCommand) ==> ForcesFlownBy(out.combined, stick, p)
  {}

  // ---------- The decoder on the companion ----------

  datatype Attitude = Attitude(phi: real, theta: real)

  /** `projection_attitude` of the thrust adapter. */
  function ProjectionAttitude(rcOverride: bv16, estimated: Option<Attitude>, limited: Attitude): Attitude {
    var rollOverridden := rcOverride & ROLL_OVERRIDE_MASK != 0;
    var pitchOverridden := rcOverride & PITCH_OVERRIDE_MASK != 0;
    if !(rollOverridden || pitchOverridden) || estimated.None? then limited
    else Attitude(
      if rollOverridden then estimated.value.phi else limited.phi,
      if pitchOverridden then estimated.value.theta else limited.theta)
  }

  /** The adapter projects with the measured angle on exactly the axes the firmware flies from RC. */
  lemma AdapterFollowsMux(
      s: State, rc: RcState, m: Manager, nowMs: nat, p: Params, estimated: Attitude, limited: Attitude)
    requires RunsNormally(s, rc, m, nowMs, p)
    ensures var out := Arbitrated(s, rc, m, nowMs, p).state;
      var projected := ProjectionAttitude(out.rcOverride, Some(estimated), limited);
      exists rollFromRc, pitchFromRc ::
        && TakenFrom(out.combined.qx, out.rcCommand.qx, out.offboard.qx, rollFromRc)
        && TakenFrom(out.combined.qy, out.rcCommand.qy, out.offboard.qy, pitchFromRc)
        && projected == Attitude(
             if rollFromRc then estimated.phi else limited.phi, if pitchFromRc then estimated.theta else limited.theta)
  {
    hide Arbitrated, TakenFrom;
    MaskCodesSources(s, rc, m, nowMs, p);
    var out := Arbitrated(s, rc, m, nowMs, p).state;
    var rollFromRc, pitchFromRc := out.rcOverride & ROLL_OVERRIDE_MASK != 0, out.rcOverride & PITCH_OVERRIDE_MASK != 0;
    assert TakenFrom(out.combined.qx, out.rcCommand.qx, out.offboard.qx, rollFromRc);
    assert TakenFrom(out.combined.qy, out.rcCommand.qy, out.offboard.qy, pitchFromRc);
  }

  // ---------- Angle mode with an unhealthy estimator ----------

  /** A non-failsafe run that consumes fresh RC, with the lockout enabled, a multirotor, and the estimator unhealthy. */
  ghost predicate UnhealthyRun(s: State, rc: RcState, m: Manager, nowMs: nat, p: Params) {
    && RunsNormally(s, rc, m, nowMs, p) && rc.newCommand && p.angleLockout && !p.fixedWing
    && UNHEALTHY_ESTIMATOR in Checked(rc, m, nowMs, p).machine.flags
  }

  /**
  RC may fly an angle: offboard is active on both axes in another mode, RC has not taken over, and no
  lockout holds.
  */
  predicate AngleTolerated(s: State, rc: RcState, m: Manager, nowMs: nat, p: Params)
    requires rc.Shaped()
  {
    var offboard := OffboardAt(s, nowMs * 1000, p);
    && offboard.qx.active && offboard.qy.active
    && offboard.qx.controlType != Angle && offboard.qy.controlType != Angle
    && !SwitchSelects(rc, ATT_OVERRIDE) && RcAngleSelected(rc, p)
    && Lockout.Advanced(s.lockout.state, LockoutInput(offboard, rc, m, p)).Inactive?
  }

  /** The RC command's roll and pitch are angles exactly when the angle is tolerated or no force was needed. */
  lemma PreparedTypes(s: State, rc: RcState, m: Manager, nowMs: nat, p: Params)
    requires s.Shaped() && rc.Shaped() && rc.newCommand && p.angleLockout && !p.fixedWing
    requires UNHEALTHY_ESTIMATOR in m.machine.flags
    ensures var (from, force) := Prepared(s, rc, m, nowMs, p);
      var offboard := OffboardAt(s, nowMs * 1000, p);
      && from.rcCommand.qx.controlType == from.rcCommand.qy.controlType
      && (from.rcCommand.qx.controlType == Angle <==> AngleTolerated(s, rc, m, nowMs, p))
      && force.forceRcAttitude == OffboardAngleRequested(offboard)
  {
    hide OffboardAt, Lockout.Advanced, Lockout.Entered;
  }

  /**
  With an unhealthy estimator, roll (pitch) is flown as an angle exactly when the pilot deflects
  that stick over an offboard command in another mode, with RC angle mode selected, the attitude
  override off and no lockout in force.
  */
  lemma AngleOnlyByDeflection(s: State, rc: RcState, m: Manager, nowMs: nat, p: Params)
    requires UnhealthyRun(s, rc, m, nowMs, p)
    ensures var out := Arbitrated(s, rc, m, nowMs, p).state;
      var tolerated := AngleTolerated(s, rc, Checked(rc, m, nowMs, p), nowMs, p);
      && (out.combined.qx.controlType == Angle <==> out.rcOverride & X_BIT != 0 && tolerated)
      && (out.combined.qy.controlType == Angle <==> out.rcOverride & Y_BIT != 0 && tolerated)
  {
    hide Prepared, Checked, AttitudeReasons.Mask, ThrottleReasons.Mask, Deviated, LastSticks;
    hide OffboardAt, Lockout.Advanced, LockoutInput;
    var manager := Checked(rc, m, nowMs, p);
    var (from, force) := Prepared(s, rc, manager, nowMs, p);
    PreparedShape(s, rc, manager, nowMs, p);
    PreparedTypes(s, rc, manager, nowMs, p);
    var consumed := rc.(newCommand := false);
    var a := AttitudeReasonsFor(from, consumed, p, nowMs, force.forceRcAttitude);
    AttitudeBits(a, ThrottleReasonsFor(from, consumed, p));
  }

  /**
  Without fresh RC the old RC command stays in place: no lockout holds, and no source that will fly
  asks for an angle.
  */
  predicate StaleTolerated(s: State, rc: RcState, m: Manager, nowMs: nat, p: Params)
    requires rc.Shaped()
  {
    var input := LockoutInput(OffboardAt(s, nowMs * 1000, p), rc, m, p);
    Lockout.Advanced(s.lockout.state, input).Inactive? && !Lockout.Unsafe(input)
  }

  lemma StalePrepared(s: State, rc: RcState, m: Manager, nowMs: nat, p: Params)
    requires s.Shaped() && rc.Shaped() && !rc.newCommand && p.angleLockout && !p.fixedWing
    requires UNHEALTHY_ESTIMATOR in m.machine.flags
    ensures var (from, force) := Prepared(s, rc, m, nowMs, p);
      && (if StaleTolerated(s, rc, m, nowMs, p) then from.rcCommand == s.rcCommand
          else from.rcCommand.qx.controlType == Rate && from.rcCommand.qy.controlType == Rate)
      && force.forceRcAttitude == OffboardAngleRequested(OffboardAt(s, nowMs * 1000, p))
  {
    hide OffboardAt, Lockout.Advanced, Lockout.Entered;
  }

  /**
  The same on a run without fresh RC: roll (pitch) is flown as an angle exactly when RC flies it, the
  RC command still holds an angle from an earlier run, and nothing on this run asks for an angle, so
  that nothing forces rate.  A change of the attitude-mode parameter to rate does not replace it.
  */
  lemma AngleByStaleCommand(s: State, rc: RcState, m: Manager, nowMs: nat, p: Params)
    requires RunsNormally(s, rc, m, nowMs, p) && !rc.newCommand && p.angleLockout && !p.fixedWing
    requires UNHEALTHY_ESTIMATOR in Checked(rc, m, nowMs, p).machine.flags
    ensures var out := Arbitrated(s, rc, m, nowMs, p).state;
      var stale := StaleTolerated(s, rc, Checked(rc, m, nowMs, p), nowMs, p);
      && (out.combined.qx.controlType == Angle <==>
            out.rcOverride & ROLL_OVERRIDE_MASK != 0 && stale && s.rcCommand.qx.controlType == Angle)
      && (out.combined.qy.controlType == Angle <==>
            out.rcOverride & PITCH_OVERRIDE_MASK != 0 && stale && s.rcCommand.qy.controlType == Angle)
  {
    hide Prepared, Checked, Arbitrated, OffboardAt, StaleTolerated;
    var manager := Checked(rc, m, nowMs, p);
    MaskCodesSources(s, rc, m, nowMs, p);
    RunShape(s, rc, m, nowMs, p);
    StalePrepared(s, rc, manager, nowMs, p);
    ForcedAttitudeBit(s, rc, m, nowMs, p);
  }

  /** A forced attitude shows as the attitude switch in the mask. */
  lemma ForcedAttitudeBit(s: State, rc: RcState, m: Manager, nowMs: nat, p: Params)
    requires RunsNormally(s, rc, m, nowMs, p)
    ensures Prepared(s, rc, Checked(rc, m, nowMs, p), nowMs, p).1.forceRcAttitude ==>
      var mask := Arbitrated(s, rc, m, nowMs, p).state.rcOverride;
      mask & ROLL_OVERRIDE_MASK != 0 && mask & PITCH_OVERRIDE_MASK != 0
  {
    hide Prepared, Checked, AttitudeReasons.Mask, ThrottleReasons.Mask, Deviated, LastSticks;
    var (from, force) := Prepared(s, rc, Checked(rc, m, nowMs, p), nowMs, p);
    PreparedShape(s, rc, Checked(rc, m, nowMs, p), nowMs, p);
    var consumed := rc.(newCommand := false);
    var a := AttitudeReasonsFor(from, consumed, p, nowMs, force.forceRcAttitude);
    AttitudeBits(a, ThrottleReasonsFor(from, consumed, p));
  }

  // ---------- The lockout over runs of the command manager ----------

  datatype Message = Message(nowUs: nat, msg: OffboardMsg)

  /**
  One call of `run`: the last offboard message since the previous call, if any, and what the
  receiver, the state manager, the clock and the parameters were.
  */
  datatype Call = Call(message: Option<Message>, rc: RcState, manager: Manager, nowMs: nat, params: Params) {
    predicate Shaped() {
      rc.Shaped() && (message.Some? ==> |message.value.msg.passthrough| == |message.value.msg.activePassthrough| == 4)
    }
  }

  /** The lockout is in use: enabled, and not a fixed wing. */
  predicate UsesLockout(c: Call) {
    c.Shaped() && c.params.angleLockout && !c.params.fixedWing
  }

  predicate AllUseLockout(calls: seq<Call>) {
    forall i :: 0 <= i < |calls| ==> UsesLockout(calls[i])
  }

  function Informed(s: State, c: Call): State
    requires c.Shaped()
  {
    if c.message.None? then s else OffboardReceived(s, c.message.value.nowUs, c.message.value.msg)
  }

  function AfterCall(s: State, c: Call): (r: State)
    requires s.Shaped() && c.Shaped()
    ensures r.Shaped()
  {
    Arbitrated(Informed(s, c), c.rc, c.manager, c.nowMs, c.params).state
  }

  function AfterCalls(s: State, calls: seq<Call>): (r: State)
    requires s.Shaped() && AllUseLockout(calls)
    ensures r.Shaped()
  {
    if |calls| == 0 then s else AfterCall(AfterCalls(s, calls[..|calls| - 1]), calls[|calls| - 1])
  }

  /** What one call feeds to the lockout; a failsafe call feeds nothing. */
  function LockoutInputs(s: State, c: Call): seq<Lockout.Input>
    requires c.Shaped()
  {
    var manager := Checked(c.rc, c.manager, c.nowMs, c.params);
    if manager.machine.IsInFailsafe() then []
    else [LockoutInput(OffboardAt(Informed(s, c), c.nowMs * 1000, c.params), c.rc, manager, c.params)]
  }

  function AllInputs(s: State, calls: seq<Call>): seq<Lockout.Input>
    requires s.Shaped() && AllUseLockout(calls)
  {
    if |calls| == 0 then []
    else
      var n := |calls| - 1;
      AllInputs(s, calls[..n]) + LockoutInputs(AfterCalls(s, calls[..n]), calls[n])
  }

  lemma CallStepsLockout(s: State, c: Call)
    requires s.Shaped() && UsesLockout(c)
    ensures var inputs := LockoutInputs(s, c);
      if inputs == [] then AfterCall(s, c).lockout == s.lockout && AfterCall(s, c).rcCommand == s.rcCommand
      else
        var (lockout, force) := Lockout.Stepped(s.lockout, inputs[0]);
        && |inputs| == 1 && AfterCall(s, c).lockout == lockout
        && (force.forceRcRate ==>
              AfterCall(s, c).rcCommand.qx.controlType == Rate && AfterCall(s, c).rcCommand.qy.controlType == Rate)
  {
    hide Lockout.Stepped, OffboardAt, LockoutInput, Checked;
    hide AttitudeReasonsFor, ThrottleReasonsFor, LastSticks, AttitudeMuxed;
  }

  lemma {:induction false} CallsStepLockout(s: State, calls: seq<Call>)
    requires s.Shaped() && AllUseLockout(calls)
    ensures AfterCalls(s, calls).lockout == Lockout.After(s.lockout, AllInputs(s, calls))
    decreases |calls|
  {
    hide Lockout.Stepped, AfterCall, LockoutInputs;
    if calls != [] {
      var n := |calls| - 1;
      CallsStepLockout(s, calls[..n]);
      var before, inputs := AfterCalls(s, calls[..n]), LockoutInputs(AfterCalls(s, calls[..n]), calls[n]);
      CallStepsLockout(before, calls[n]);
      if inputs == [] {
        assert AllInputs(s, calls) == AllInputs(s, calls[..n]);
      } else {
        var all := AllInputs(s, calls);
        assert all == AllInputs(s, calls[..n]) + [inputs[0]];
        assert all[..|all| - 1] == AllInputs(s, calls[..n]);
      }
    }
  }

  /**
  From entry to a switch lockout on, every run of the command manager produces a rate command from
  RC, until a run in which the attitude switch reads rate after the estimator has been healthy.
  */
  lemma LockedOutFliesRate(s: State, calls: seq<Call>)
    requires s.Shaped() && s.lockout.state.SwitchResetRequired? && !s.lockout.state.estimatorRecovered
    requires AllUseLockout(calls) && forall i :: 0 <= i < |calls| ==> calls[i].rc.SwitchMapped(ATT_TYPE)
    requires forall k :: 0 <= k < |AllInputs(s, calls)| ==> !Lockout.Releases(AllInputs(s, calls), k)
    requires calls != [] && LockoutInputs(AfterCalls(s, calls[..|calls| - 1]), calls[|calls| - 1]) != []
    ensures var out := AfterCalls(s, calls);
      && out.lockout.state.SwitchResetRequired?
      && out.rcCommand.qx.controlType == Rate && out.rcCommand.qy.controlType == Rate
  {
    hide Lockout.Stepped, AfterCall, LockoutInputs, Lockout.Releases;
    var n := |calls| - 1;
    var before, all := AfterCalls(s, calls[..n]), AllInputs(s, calls);
    InputsMapped(s, calls);
    Lockout.LatchHolds(s.lockout, all);
    CallsStepLockout(s, calls);
    CallsStepLockout(s, calls[..n]);
    CallStepsLockout(before, calls[n]);
    var last := |all| - 1;
    assert all == AllInputs(s, calls[..n]) + LockoutInputs(before, calls[n]);
    assert all[..last] == AllInputs(s, calls[..n]);
    assert Lockout.OutputAt(s.lockout, all, last).forceRcRate;
  }

  lemma {:induction false} InputsMapped(s: State, calls: seq<Call>)
    requires s.Shaped()
    requires AllUseLockout(calls) && forall i :: 0 <= i < |calls| ==> calls[i].rc.SwitchMapped(ATT_TYPE)
    ensures forall k :: 0 <= k < |AllInputs(s, calls)| ==>
      !AllInputs(s, calls)[k].fixedWing && AllInputs(s, calls)[k].attTypeSwitchMapped
    decreases |calls|
  {
    hide AfterCall;
    if calls != [] {
      InputsMapped(s, calls[..|calls| - 1]);
    }
  }

  // ---------- Which angle mode the pilot gets ----------

  /** Without a forced rate, fresh RC flies angles exactly where the attitude switch, or else the parameter, says so. */
  lemma PilotChoosesMode(s: State, rc: RcState, m: Manager, nowMs: nat, p: Params)
    requires s.Shaped() && rc.Shaped() && rc.newCommand && !p.fixedWing
    ensures var (from, force) := Prepared(s, rc, m, nowMs, p);
      from.rcCommand.qx.controlType ==
        if !force.forceRcRate
           && (if rc.switches[ATT_TYPE].mapped then rc.switchValues[ATT_TYPE] else !p.attitudeModeRate)
        then Angle else Rate
  {
    hide OffboardAt, ModeSafety;
  }

  /** A healthy estimator forces nothing once no lockout holds; a fixed wing or a disabled lockout resets it at once. */
  lemma NothingForced(s: State, rc: RcState, m: Manager, nowMs: nat, p: Params)
    requires s.Shaped() && rc.Shaped()
    requires p.fixedWing || !p.angleLockout || (UNHEALTHY_ESTIMATOR !in m.machine.flags && s.lockout.state.Inactive?)
    ensures var (from, force) := Prepared(s, rc, m, nowMs, p);
      force == Lockout.NO_FORCE && from.lockout.state.Inactive? && !from.lockout.denialActive
  {
    hide OffboardAt;
  }

  /**
  With an unhealthy estimator and no attitude switch, an RC angle mode that would fly has its parameter
  set to rate; the request is raised on no other run.
  */
  lemma ParameterForced(s: State, rc: RcState, m: Manager, nowMs: nat, p: Params)
    requires RunsNormally(s, rc, m, nowMs, p)
    ensures var c := OffboardAt(s, nowMs * 1000, p);
      Arbitrated(s, rc, m, nowMs, p).forceParamRate <==>
        && p.angleLockout && !p.fixedWing && UNHEALTHY_ESTIMATOR in Checked(rc, m, nowMs, p).machine.flags
        && !rc.switches[ATT_TYPE].mapped && !p.attitudeModeRate
        && (OffboardAngleRequested(c) || SwitchSelects(rc, ATT_OVERRIDE) || !c.qx.active || !c.qy.active)
  {
    hide OffboardAt, Muxed, Checked, Interpreted, Lockout.Advanced, Lockout.Entered;
  }

  /** What releases the lockout, read off the receiver and the state manager of the run. */
  lemma LockoutReads(s: State, c: Call)
    requires UsesLockout(c)
    ensures forall i :: i in LockoutInputs(s, c) ==>
      && i.attTypeSwitchRate == !c.rc.switchValues[ATT_TYPE] && i.attTypeSwitchMapped == c.rc.switches[ATT_TYPE].mapped
      && i.estimatorUnhealthy == (UNHEALTHY_ESTIMATOR in Checked(c.rc, c.manager, c.nowMs, c.params).machine.flags)
      && i.paramModeRate == c.params.attitudeModeRate && i.fixedWing == c.params.fixedWing
  {
    hide Checked, OffboardAt;
  }

  // ---------- Stick override over runs ----------

  /** One run of arbitration as one stick sees it. */
  datatype Glance = Glance(nowMs: nat, stick: real)

  predicate Deflected(g: Glance, p: Params) {
    g.stick > p.overrideDeviation || g.stick < -p.overrideDeviation
  }

  /** The remembered deflection time after the runs. */
  function LastAfter(glances: seq<Glance>, p: Params): nat {
    if |glances| == 0 then 0
    else
      var n := |glances| - 1;
      LastStick(LastAfter(glances[..n], p), glances[n].stick, p, glances[n].nowMs)
  }

  predicate Overrides(glances: seq<Glance>, k: nat, p: Params)
    requires k < |glances|
  {
    Deviated(LastAfter(glances[..k], p), glances[k].stick, p, glances[k].nowMs)
  }

  /** Run `j` begins an override: its deflection finds none in force. */
  predicate Begins(glances: seq<Glance>, j: nat, p: Params)
    requires j < |glances|
  {
    Deflected(glances[j], p) && glances[j].nowMs >= SatAdd(LastAfter(glances[..j], p), AsU32(p.overrideLagMs))
  }

  predicate InTime(glances: seq<Glance>) {
    && (forall g :: g in glances ==> g.nowMs <= U32_MAX)
    && forall i, j :: 0 <= i < j < |glances| ==> glances[i].nowMs <= glances[j].nowMs
  }

  /** The remembered time is that of the last run that began an override, 0 when none did. */
  lemma {:induction false} LastBeginning(glances: seq<Glance>, p: Params) returns (z: nat)
    ensures z <= |glances| && LastAfter(glances, p) == (if z == 0 then 0 else glances[z - 1].nowMs)
    ensures z > 0 ==> Begins(glances, z - 1, p)
    ensures forall j :: z <= j < |glances| ==> !Begins(glances, j, p)
    decreases |glances|
  {
    hide SatAdd, AsU32;
    if |glances| == 0 {
      z := 0;
    } else {
      var n := |glances| - 1;
      var y := LastBeginning(glances[..n], p);
      assert forall j :: 0 <= j < n ==> glances[..n][..j] == glances[..j];
      forall j | 0 <= j < n ensures Begins(glances, j, p) == Begins(glances[..n], j, p) {
        assert glances[..n][..j] == glances[..j];
      }
      z := if Begins(glances, n, p) then n + 1 else y;
    }
  }

  /**
  A stick overrides on a run exactly when it is deflected then, or the lag has not yet passed since the
  last run that began an override, or since time 0 when none did.
  */
  lemma OverrideLasts(glances: seq<Glance>, k: nat, p: Params) returns (z: nat)
    requires k < |glances|
    ensures z <= k && (z > 0 ==> Begins(glances, z - 1, p)) && forall j :: z <= j < k ==> !Begins(glances, j, p)
    ensures var since := if z == 0 then 0 else glances[z - 1].nowMs;
      Overrides(glances, k, p) <==>
        Deflected(glances[k], p) || glances[k].nowMs < SatAdd(since, AsU32(p.overrideLagMs))
  {
    hide SatAdd, AsU32;
    z := LastBeginning(glances[..k], p);
    forall j | 0 <= j < k ensures Begins(glances, j, p) == Begins(glances[..k], j, p) {
      assert glances[..k][..j] == glances[..j];
    }
  }

  /** The override begun by a deflection holds on every later run until the lag has passed, whatever the stick does. */
  lemma OverrideHolds(glances: seq<Glance>, j: nat, k: nat, p: Params)
    requires InTime(glances) && j < k < |glances| && Begins(glances, j, p)
    requires glances[k].nowMs < SatAdd(glances[j].nowMs, AsU32(p.overrideLagMs))
    ensures Overrides(glances, k, p)
  {
    hide AsU32, Deflected;
    var z := OverrideLasts(glances, k, p);
    assert z > j;
    assert glances[j].nowMs <= glances[z - 1].nowMs;
  }
}
