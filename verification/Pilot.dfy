/** From the channels of a packet to what the vehicle does: health, sticks and switches, disarming, arming, flying. */
module Pilot {
  import opened Wrappers
  import opened StateMachine
  import opened ArmingRuns
  import opened RemoteControl
  import opened Command
  import opened CommandSafety
  import opened Vehicle

  // ---------- Reading a packet ----------

  /** The channels a packet delivers: what it announces, of at most sixteen. */
  function Delivered(packet: Packet): nat {
    if packet.count < 16 then packet.count else 16
  }

  predicate Sized(packet: Packet) {
    |packet.channels| == RC_PACKET_CHANNELS
  }

  /**
  A packet to fly by: no more than half a second old, no loss of link, and every required channel
  there and in range.
  */
  predicate Flyable(packet: Packet, nowUs: nat, p: RcParams)
    requires Sized(packet)
  {
    && nowUs <= packet.timestamp + 500_000 && !packet.lossOfLink
    && 0 <= p.numChannels <= Delivered(packet)
    && forall i :: 0 <= i < p.numChannels ==> -0.25 <= packet.channels[i] <= 1.25
  }

  /** RC is healthy exactly by the last packet received. */
  lemma HealthOfPacket(rc: RcState, packet: Packet, nowUs: nat, p: RcParams)
    requires rc.Shaped() && Sized(packet)
    ensures Healthy(Received(rc, packet), nowUs, p) <==> Flyable(packet, nowUs, p)
  {
    var received := Received(rc, packet);
    assert forall i :: 0 <= i < Delivered(packet) ==> received.chan[i] == packet.channels[i];
  }

  /** And stays so through the pass that processes it, until the next packet. */
  lemma HealthUntilNext(w: World, nowMs: nat, packet: Packet, later: nat)
    requires w.Shaped() && Sized(packet)
    ensures var after := Cycled(w, nowMs, Some(packet));
      Healthy(after.rc, later, w.params.rc) <==> Flyable(packet, later, w.params.rc)
  {
    hide Received, Updated, Prepared, Muxed, StickValue, SwitchValue;
    HealthOfPacket(w.rc, packet, later, w.params.rc);
  }

  /**
  A centred stick runs from -1 to 1 over its channel, a one-sided one follows it; a missing channel
  keeps the stick.
  */
  function StickOf(rc: RcState, packet: Packet, i: nat): real
    requires rc.Shaped() && Sized(packet) && i < STICKS
  {
    var config := rc.sticks[i];
    if !(0 <= config.channel < Delivered(packet)) then rc.stickValues[i]
    else if config.oneSided then packet.channels[config.channel]
    else 2.0 * packet.channels[config.channel] - 1.0
  }

  /** A mapped switch is on in the last fifth of its channel, at the end its direction points to. */
  predicate SwitchOf(rc: RcState, packet: Packet, i: nat)
    requires rc.Shaped() && Sized(packet) && i < SWITCHES
  {
    var config := rc.switches[i];
    && config.mapped && 0 <= config.channel < Delivered(packet)
    && if config.direction < 0 then packet.channels[config.channel] < 0.2 else packet.channels[config.channel] >= 0.8
  }

  /** The sticks and switches as the pass of a packet sees them. */
  function Held(rc: RcState, packet: Packet): (r: RcState)
    requires rc.Shaped() && Sized(packet)
    ensures r.Shaped()
  {
    Processed(Received(rc, packet)).(newCommand := true)
  }

  lemma ControlsOfPacket(rc: RcState, packet: Packet)
    requires rc.Shaped() && Sized(packet)
    ensures var held := Held(rc, packet);
      && held.switches == rc.switches && held.timerMs == rc.timerMs && held.prevTimeMs == rc.prevTimeMs
      && (forall i :: 0 <= i < STICKS ==> held.Stick(i) == StickOf(rc, packet, i))
      && (forall i :: 0 <= i < SWITCHES ==> held.SwitchOn(i) == SwitchOf(rc, packet, i))
  {
    var received := Received(rc, packet);
    assert forall i :: 0 <= i < Delivered(packet) ==> received.chan[i] == packet.channels[i];
  }

  // ---------- Asking to arm and to disarm ----------

  /** The time the sticks will have been held once this pass counts them. */
  function HeldMs(rc: RcState, nowMs: nat): nat {
    rc.timerMs + if nowMs > rc.prevTimeMs then nowMs - rc.prevTimeMs else 0
  }

  /** The arm switch is moved off, or the sticks are held down and to the left for more than a second. */
  predicate AsksDisarm(rc: RcState, packet: Packet, nowMs: nat, p: RcParams)
    requires rc.Shaped() && Sized(packet)
  {
    if rc.switches[ARM_SWITCH].mapped then !SwitchOf(rc, packet, ARM_SWITCH)
    else
      && StickOf(rc, packet, STICK_F) < p.armThreshold && StickOf(rc, packet, STICK_Z) < p.armThreshold - 1.0
      && HeldMs(rc, nowMs) > 1000
  }

  /** The arm switch is on, or the sticks are held down and to the right for more than a second. */
  predicate AsksArm(rc: RcState, packet: Packet, nowMs: nat, p: RcParams)
    requires rc.Shaped() && Sized(packet)
  {
    if rc.switches[ARM_SWITCH].mapped then SwitchOf(rc, packet, ARM_SWITCH)
    else
      && StickOf(rc, packet, STICK_F) < p.armThreshold && StickOf(rc, packet, STICK_Z) > 1.0 - p.armThreshold
      && HeldMs(rc, nowMs) > 1000
  }

  lemma HeldSaturates(rc: RcState, nowMs: nat)
    ensures SatAdd(rc.timerMs, SatSub(nowMs, rc.prevTimeMs)) > 1000 <==> HeldMs(rc, nowMs) > 1000
  {}

  /** What the arming logic asks of the state manager, in terms of the packet. */
  lemma LookAsks(rc: RcState, packet: Packet, m: Manager, nowMs: nat, p: RcParams)
    requires rc.Shaped() && Sized(packet)
    ensures var after := LookForArming(Held(rc, packet), m, nowMs, p).1;
      var guard := ArmingSafety(
        StickOf(rc, packet, STICK_F) < p.armThreshold,
        rc.switches[THROTTLE_OVERRIDE].mapped && SwitchOf(rc, packet, THROTTLE_OVERRIDE));
      if m.machine.IsArmed() then
        after.machine ==
          if AsksDisarm(rc, packet, nowMs, p) then Updated(m, RequestDisarm, p.arm).machine else m.machine
      else
        after.machine ==
          if AsksArm(rc, packet, nowMs, p) then Updated(m.(safety := guard), RequestArm, p.arm).machine else m.machine
  {
    hide Updated, Held, StickOf, SwitchOf, SatAdd, SatSub, HeldMs;
    ControlsOfPacket(rc, packet);
    HeldSaturates(rc, nowMs);
    HeldSaturates(Held(rc, packet), nowMs);
    SameHeld(rc, Held(rc, packet), nowMs);
    if m.machine.IsArmed() {
      DisarmIgnoresSafety(m, Safety(Held(rc, packet), p.armThreshold), p.arm);
    }
  }

  lemma SameHeld(a: RcState, b: RcState, nowMs: nat)
    requires a.timerMs == b.timerMs && a.prevTimeMs == b.prevTimeMs
    ensures HeldMs(a, nowMs) == HeldMs(b, nowMs)
  {}

  lemma DisarmIgnoresSafety(m: Manager, safety: ArmingSafety, p: ArmParams)
    ensures Updated(m.(safety := safety), RequestDisarm, p).machine == Updated(m, RequestDisarm, p).machine
  {}

  /** The manager after a pass with a packet to fly by. */
  lemma PassManager(w: World, nowMs: nat, packet: Packet)
    requires w.Shaped() && Sized(packet) && Flyable(packet, nowMs * 1000, w.params.rc)
    ensures var seen := Updated(w.manager, ErrorCleared({RC_LOST}), w.params.rc.arm);
      Cycled(w, nowMs, Some(packet)).manager ==
        Replay(LookForArming(Held(w.rc, packet), seen, nowMs, w.params.rc).1, w.params.rc.arm)
  {
    hide Updated, LookForArming, Received, Processed, Healthy, Flyable, Replay, Cycled;
    HealthOfPacket(w.rc, packet, nowMs * 1000, w.params.rc);
    HealthKept(w, nowMs, Some(packet));
    CycleParts(w, nowMs, Some(packet));
  }

  /**
  An armed vehicle is unarmed by a pass exactly when its packet is one to fly by and asks to disarm;
  it then waits in Preflight, or in ErrorPresent while an error remains.
  */
  lemma DisarmPass(w: World, nowMs: nat, packet: Packet)
    requires Ready(w) && Sized(packet) && w.manager.machine.IsArmed()
    ensures var after := Cycled(w, nowMs, Some(packet)).manager.machine;
      && (!after.IsArmed() <==>
            Flyable(packet, nowMs * 1000, w.params.rc) && AsksDisarm(w.rc, packet, nowMs, w.params.rc))
      && (!after.IsArmed() ==> after.mode == if after.flags == {} then Preflight else ErrorPresent)
  {
    hide Updated, LookForArming, Received, Processed, Healthy, Flyable, Replay, Cycled, AsksDisarm, AsksArm;
    var p := w.params.rc;
    if Flyable(packet, nowMs * 1000, p) {
      var seen := Updated(w.manager, ErrorCleared({RC_LOST}), p.arm);
      PassManager(w, nowMs, packet);
      ClearMeans(w.manager, {RC_LOST}, p.arm);
      LookAsks(w.rc, packet, seen, nowMs, p);
      DisarmMeans(seen, p.arm);
      ReplayMeans(LookForArming(Held(w.rc, packet), seen, nowMs, p).1, p.arm);
    } else {
      HealthOfPacket(w.rc, packet, nowMs * 1000, p);
      LostLinkCycle(w, nowMs, Some(packet));
    }
  }

  /** Replaying present errors does what they do: it ends arming, and keeps an armed vehicle armed. */
  lemma ReplayMeans(m: Manager, p: ArmParams)
    ensures var after := Replay(m, p);
      && after.machine.flags == m.machine.flags && after.machine.IsArmed() == m.machine.IsArmed()
      && (m.machine.mode in {Preflight, Calibrating} ==>
            after.machine.mode == if m.machine.flags == {} then m.machine.mode else ErrorPresent)
      && (m.machine.mode == ErrorPresent ==>
            after.machine.mode == if m.machine.flags == {} then Preflight else ErrorPresent)
  {
    hide Updated;
    ErrorMeans(m, m.machine.flags, p);
    ClearMeans(m, {}, p);
    assert m.machine.flags + m.machine.flags == m.machine.flags && m.machine.flags - {} == m.machine.flags;
  }

  /**
  An unarmed vehicle arms, or calibrates to arm, in a pass exactly when its packet is one to fly by,
  asks to arm with the throttle down and the override switch on where it is required, and no error
  blocks; a calibration does not survive the pass while any error remains.
  */
  lemma ArmPass(w: World, nowMs: nat, packet: Packet)
    requires Ready(w) && Sized(packet) && !Arming(w.manager.machine)
    ensures var (p, flags) := (w.params.rc, w.manager.machine.flags - {RC_LOST});
      var after := Cycled(w, nowMs, Some(packet)).manager.machine;
      Arming(after) <==>
        && Flyable(packet, nowMs * 1000, p) && AsksArm(w.rc, packet, nowMs, p)
        && StickOf(w.rc, packet, STICK_F) < p.armThreshold
        && (p.arm.takeMinThrottle
            || (w.rc.switches[THROTTLE_OVERRIDE].mapped && SwitchOf(w.rc, packet, THROTTLE_OVERRIDE)))
        && (w.manager.machine.mode == Preflight
            || flags <= if p.arm.allowUnhealthyEstimator then {UNHEALTHY_ESTIMATOR} else {})
        && (p.arm.calibrateGyroOnArm ==> flags == {})
  {
    hide Updated, LookForArming, Received, Processed, Healthy, Flyable, Replay, Cycled, AsksDisarm, AsksArm, StickOf;
    var p := w.params.rc;
    if Flyable(packet, nowMs * 1000, p) {
      var seen := Updated(w.manager, ErrorCleared({RC_LOST}), p.arm);
      var guard := ArmingSafety(
        StickOf(w.rc, packet, STICK_F) < p.armThreshold,
        w.rc.switches[THROTTLE_OVERRIDE].mapped && SwitchOf(w.rc, packet, THROTTLE_OVERRIDE));
      PassManager(w, nowMs, packet);
      ClearMeans(w.manager, {RC_LOST}, p.arm);
      LookAsks(w.rc, packet, seen, nowMs, p);
      ArmMeans(seen.(safety := guard), p.arm);
      ReplayMeans(LookForArming(Held(w.rc, packet), seen, nowMs, p).1, p.arm);
    } else {
      HealthOfPacket(w.rc, packet, nowMs * 1000, p);
      LostLinkCycle(w, nowMs, Some(packet));
    }
  }

  /**
  A packet that signals loss of link, whatever its channels say, takes every armed vehicle to its
  failsafe command.
  */
  lemma LossOfLinkPacket(w: World, nowMs: nat, packet: Packet)
    requires Ready(w) && Sized(packet) && packet.lossOfLink && w.manager.machine.IsArmed()
    ensures var after := Cycled(w, nowMs, Some(packet));
      && after.manager.machine.mode == Failsafe && RC_LOST in after.manager.machine.flags
      && after.command.combined == FailsafeCommand(w.command, w.params)
  {
    hide Cycled, Received, Healthy;
    HealthOfPacket(w.rc, packet, nowMs * 1000, w.params.rc);
    LostLinkCycle(w, nowMs, Some(packet));
  }

  // ---------- Flying ----------

  /**
  After a pass with a packet to fly by, outside failsafe, every axis that the mask gives to RC carries
  the stick that the packet holds for it, scaled by the limit of its type.
  */
  lemma PacketFlies(w: World, nowMs: nat, packet: Packet)
    requires w.Shaped() && Sized(packet) && Flyable(packet, nowMs * 1000, w.params.rc)
    requires !RcStage(w, nowMs, Some(packet)).1.machine.IsInFailsafe()
    ensures var (out, p) := (Cycled(w, nowMs, Some(packet)).command, w.params);
      && (out.rcOverride & ROLL_OVERRIDE_MASK != 0 ==>
            FlownBy(out.combined.qx, StickOf(w.rc, packet, STICK_X), p, p.maxRollRate, p.maxRoll))
      && (out.rcOverride & PITCH_OVERRIDE_MASK != 0 ==>
            FlownBy(out.combined.qy, StickOf(w.rc, packet, STICK_Y), p, p.maxPitchRate, p.maxPitch))
      && (out.rcOverride & FORCE_OVERRIDE_MASK != 0 ==>
            ForcesFlownBy(out.combined, StickOf(w.rc, packet, STICK_F), p))
  {
    hide Received, Processed, Healthy, Flyable, Updated, Arbitrated, StickOf, FlownBy, ForcesFlownBy, Replay;
    var (rc, m) := RcStage(w, nowMs, Some(packet));
    HealthOfPacket(w.rc, packet, nowMs * 1000, w.params.rc);
    HealthKept(w, nowMs, Some(packet));
    ControlsOfPacket(w.rc, packet);
    var seen := Updated(w.manager, ErrorCleared({RC_LOST}), w.params.rc.arm);
    LookKeepsSticks(Held(w.rc, packet), seen, nowMs, w.params.rc);
    SticksFly(w.command, rc, m, nowMs, w.params);
  }

  lemma LookKeepsSticks(rc: RcState, m: Manager, nowMs: nat, p: RcParams)
    requires rc.Shaped()
    ensures var after := LookForArming(rc, m, nowMs, p).0;
      after.newCommand == rc.newCommand && forall i :: 0 <= i < STICKS ==> after.Stick(i) == rc.Stick(i)
  {
    hide Updated, InCorner, Safety;
  }

  /** A pass whose packet is not one to fly by leaves no RC command to be consumed. */
  lemma UnflyableNotConsumed(w: World, nowMs: nat, packet: Packet)
    requires w.Shaped() && Sized(packet) && !Flyable(packet, nowMs * 1000, w.params.rc)
    ensures !RcStage(w, nowMs, Some(packet)).0.newCommand
  {
    hide Flyable, Received, Healthy, Updated;
    HealthOfPacket(w.rc, packet, nowMs * 1000, w.params.rc);
  }

  /**
  When the lockout asks for it, the attitude mode parameter is rate after the pass; no other pass
  changes a parameter.
  */
  lemma PassForcesParameter(w: World, nowMs: nat, packet: Option<Packet>)
    requires w.Shaped() && WellFormed(packet)
    ensures var (rc, m) := RcStage(w, nowMs, packet);
      var (after, forced) := (Cycled(w, nowMs, packet), Arbitrated(w.command, rc, m, nowMs, w.params).forceParamRate);
      && after.params == w.params.(attitudeModeRate := w.params.attitudeModeRate || forced)
      && (after.events == w.events || (forced && !w.params.attitudeModeRate))
  {
    hide RcStage, Arbitrated, Replay;
  }
}
