/** The RC input: packet health, sticks and switches, and the arming signal. */
module RemoteControl {
  import opened StateMachine

  const CHANNELS := 16
  const RC_PACKET_CHANNELS := 24
  const STICKS := 4
  const SWITCHES := 5
  const RC_TIMEOUT_US := 500_000
  const U32_MAX := 0xFFFF_FFFF

  const STICK_X := 0
  const STICK_Y := 1
  const STICK_Z := 2
  const STICK_F := 3

  const ARM_SWITCH := 0
  const ATT_OVERRIDE := 1
  const THROTTLE_OVERRIDE := 2
  const ATT_TYPE := 3

  /** A packet has a fixed array of channels, whatever count it announces. */
  datatype Packet = Packet(timestamp: nat, channels: seq<real>, count: nat, lossOfLink: bool)
  datatype StickConfig = StickConfig(channel: int, oneSided: bool)
  datatype SwitchConfig = SwitchConfig(channel: int, mapped: bool, direction: int)

  /** The parameters read at each run; `numChannels` is the signed value behind the `as usize` cast. */
  datatype RcParams = RcParams(numChannels: int, armThreshold: real, arm: ArmParams)

  /** The receiver as a value. */
  datatype RcState = RcState(
    chan: seq<real>, numChannels: nat, timestamp: nat, frameLost: bool, failsafeActivated: bool,
    newCommand: bool, sticks: seq<StickConfig>, switches: seq<SwitchConfig>,
    stickValues: seq<real>, switchValues: seq<bool>, prevTimeMs: nat, timerMs: nat)
  {
    predicate Shaped() {
      && |chan| == CHANNELS && numChannels <= CHANNELS
      && |sticks| == |stickValues| == STICKS && |switches| == |switchValues| == SWITCHES
    }

    function Stick(i: nat): real
      requires Shaped() && i < STICKS
    {
      stickValues[i]
    }

    predicate SwitchOn(i: nat)
      requires Shaped() && i < SWITCHES
    {
      switchValues[i]
    }

    predicate SwitchMapped(i: nat)
      requires Shaped() && i < SWITCHES
    {
      switches[i].mapped
    }
  }

  /** `receive`: as many channels as fit, and the driver's loss-of-link signal in place of raw status bits. */
  function Received(rc: RcState, packet: Packet): RcState
    requires rc.Shaped() && |packet.channels| == RC_PACKET_CHANNELS
  {
    var len := if packet.count < CHANNELS then packet.count else CHANNELS;
    rc.(chan := packet.channels[..len] + rc.chan[len..], numChannels := len, timestamp := packet.timestamp,
        frameLost := packet.lossOfLink, failsafeActivated := packet.lossOfLink)
  }

  predicate InRange(value: real) {
    -0.25 <= value <= 1.25
  }

  /** `check_rc_health`; a negative channel count casts to a number no receiver reaches. */
  predicate Healthy(rc: RcState, nowUs: nat, params: RcParams)
    requires rc.Shaped()
  {
    && nowUs <= rc.timestamp + RC_TIMEOUT_US
    && !rc.frameLost && !rc.failsafeActivated
    && 0 <= params.numChannels <= rc.numChannels
    && forall i :: 0 <= i < params.numChannels ==> InRange(rc.chan[i])
  }

  function StickValue(rc: RcState, i: nat): real
    requires rc.Shaped() && i < STICKS
  {
    var config := rc.sticks[i];
    if config.channel < 0 || config.channel >= rc.numChannels then rc.stickValues[i]
    else if config.oneSided then rc.chan[config.channel]
    else 2.0 * (rc.chan[config.channel] - 0.5)
  }

  predicate SwitchValue(rc: RcState, i: nat)
    requires rc.Shaped() && i < SWITCHES
  {
    var config := rc.switches[i];
    && config.mapped && 0 <= config.channel < rc.numChannels
    && if config.direction < 0 then rc.chan[config.channel] < 0.2 else rc.chan[config.channel] >= 0.8
  }

  function Processed(rc: RcState): (r: RcState)
    requires rc.Shaped()
    ensures r.Shaped()
  {
    rc.(stickValues := seq(STICKS, i requires 0 <= i < STICKS => StickValue(rc, i)),
        switchValues := seq(SWITCHES, i requires 0 <= i < SWITCHES => SwitchValue(rc, i)))
  }

  function SatSub(a: nat, b: nat): nat {
    if a >= b then a - b else 0
  }

  function SatAdd(a: nat, b: nat): nat {
    if a + b > U32_MAX then U32_MAX else a + b
  }

  /** Throttle down and yaw to the side that arms or disarms. */
  predicate InCorner(rc: RcState, armed: bool, threshold: real)
    requires rc.Shaped()
  {
    && rc.Stick(STICK_F) < threshold
    && if armed then rc.Stick(STICK_Z) < -(1.0 - threshold) else rc.Stick(STICK_Z) > 1.0 - threshold
  }

  function Safety(rc: RcState, threshold: real): ArmingSafety
    requires rc.Shaped()
  {
    ArmingSafety(rc.Stick(STICK_F) < threshold, rc.SwitchMapped(THROTTLE_OVERRIDE) && rc.SwitchOn(THROTTLE_OVERRIDE))
  }

  /** `look_for_arm_disarm_signal`. */
  function LookForArming(rc: RcState, m: Manager, nowMs: nat, params: RcParams): (r: (RcState, Manager))
    requires rc.Shaped()
    ensures r.0.Shaped()
  {
    var dt := SatSub(nowMs, rc.prevTimeMs);
    var armed := m.machine.IsArmed();
    var seen := rc.(prevTimeMs := nowMs);
    if !rc.SwitchMapped(ARM_SWITCH) then
      var timer := if InCorner(rc, armed, params.armThreshold) then SatAdd(rc.timerMs, dt) else 0;
      if timer <= 1000 then (seen.(timerMs := timer), m)
      else if armed then (seen.(timerMs := 0), Updated(m, RequestDisarm, params.arm))
      else
        (seen.(timerMs := timer), Updated(m.(safety := Safety(rc, params.armThreshold)), RequestArm, params.arm))
    else if rc.SwitchOn(ARM_SWITCH) then
      var guarded := m.(safety := Safety(rc, params.armThreshold));
      (seen, if armed then guarded else Updated(guarded, RequestArm, params.arm))
    else (seen, if armed then Updated(m, RequestDisarm, params.arm) else m)
  }

  /** `run`. */
  function Ran(rc: RcState, m: Manager, nowMs: nat, params: RcParams): (r: (RcState, Manager))
    requires rc.Shaped()
    ensures r.0.Shaped()
  {
    if Healthy(rc, nowMs * 1000, params) then
      LookForArming(Processed(rc).(newCommand := true), Updated(m, ErrorCleared({RC_LOST}), params.arm), nowMs, params)
    else
      (rc.(newCommand := false), Updated(m, ErrorOccurred({RC_LOST}), params.arm))
  }

  class Rc {
    const chan: array<real>
    const stickValues: array<real>
    const switchValues: array<bool>
    const sticks: seq<StickConfig>
    const switches: seq<SwitchConfig>
    var numChannels: nat
    var timestamp: nat
    var frameLost: bool
    var failsafeActivated: bool
    var newCommand: bool
    var prevTimeMs: nat
    var timerMs: nat

    ghost predicate Valid()
      reads this
    {
      && chan.Length == CHANNELS && stickValues.Length == STICKS && switchValues.Length == SWITCHES
      && chan != stickValues && |sticks| == STICKS && |switches| == SWITCHES && numChannels <= CHANNELS
    }

    ghost function Value(): (rc: RcState)
      reads this, chan, stickValues, switchValues
      requires Valid()
      ensures rc.Shaped()
    {
      RcState(chan[..], numChannels, timestamp, frameLost, failsafeActivated, newCommand, sticks, switches,
              stickValues[..], switchValues[..], prevTimeMs, timerMs)
    }

    constructor (sticks: seq<StickConfig>, switches: seq<SwitchConfig>)
      requires |sticks| == STICKS && |switches| == SWITCHES
      ensures Valid() && fresh(chan) && fresh(stickValues) && fresh(switchValues)
      ensures Value() == RcState(
        seq(CHANNELS, _ => 0.0), 0, 0, false, false, false, sticks, switches,
        seq(STICKS, _ => 0.0), seq(SWITCHES, _ => false), 0, 0)
    {
      this.sticks, this.switches := sticks, switches;
      chan := new real[CHANNELS](_ => 0.0);
      stickValues := new real[STICKS](_ => 0.0);
      switchValues := new bool[SWITCHES](_ => false);
      numChannels, timestamp, frameLost, failsafeActivated := 0, 0, false, false;
      newCommand, prevTimeMs, timerMs := false, 0, 0;
    }

    method Receive(packet: Packet)
      requires Valid() && |packet.channels| == RC_PACKET_CHANNELS
      modifies this, chan
      ensures Valid() && Value() == Received(old(Value()), packet)
    {
      var len := if packet.count < CHANNELS then packet.count else CHANNELS;
      forall i | 0 <= i < len {
        chan[i] := packet.channels[i];
      }
      timestamp := packet.timestamp;
      numChannels := len;
      frameLost := packet.lossOfLink;
      failsafeActivated := packet.lossOfLink;
      assert chan[..] == packet.channels[..len] + old(chan[..])[len..];
    }

    method CheckRcHealth(nowUs: nat, params: RcParams) returns (healthy: bool)
      requires Valid()
      ensures healthy == Healthy(Value(), nowUs, params)
    {
      if nowUs > timestamp + RC_TIMEOUT_US || frameLost || failsafeActivated {
        return false;
      }
      if params.numChannels < 0 || numChannels < params.numChannels {
        return false;
      }
      for i := 0 to params.numChannels
        invariant forall j :: 0 <= j < i ==> InRange(Value().chan[j])
      {
        if chan[i] < -0.25 || chan[i] > 1.25 {
          assert !InRange(Value().chan[i]);
          return false;
        }
      }
      return true;
    }

    method ProcessSticksAndSwitches()
      requires Valid()
      modifies stickValues, switchValues
      ensures Value() == Processed(old(Value()))
    {
      ghost var before := Value();
      for i := 0 to STICKS
        modifies stickValues
        invariant forall j :: 0 <= j < i ==> stickValues[j] == StickValue(before, j)
        invariant forall j :: i <= j < STICKS ==> stickValues[j] == before.stickValues[j]
      {
        var config := sticks[i];
        if config.channel < 0 || config.channel >= numChannels {
          continue;
        }
        var pwm := chan[config.channel];
        stickValues[i] := if config.oneSided then pwm else 2.0 * (pwm - 0.5);
      }
      for i := 0 to SWITCHES
        modifies switchValues
        invariant forall j :: 0 <= j < i ==> switchValues[j] == SwitchValue(before, j)
      {
        var config := switches[i];
        if !config.mapped || config.channel < 0 || config.channel >= numChannels {
          switchValues[i] := false;
          continue;
        }
        var pwm := chan[config.channel];
        switchValues[i] := if config.direction < 0 then pwm < 0.2 else pwm >= 0.8;
      }
      assert stickValues[..] == Processed(before).stickValues;
      assert switchValues[..] == Processed(before).switchValues;
    }

    method LookForArmDisarmSignal(nowMs: nat, params: RcParams, state: StateManager)
      requires Valid()
      modifies `prevTimeMs, `timerMs, state
      ensures (Value(), state.Value()) == LookForArming(old(Value()), old(state.Value()), nowMs, params)
    {
      hide Updated, SatAdd, SatSub;
      ghost var before := Value();
      var dt := SatSub(nowMs, prevTimeMs);
      prevTimeMs := nowMs;
      var low := stickValues[STICK_F] < params.armThreshold;
      var overrideOn := switches[THROTTLE_OVERRIDE].mapped && switchValues[THROTTLE_OVERRIDE];
      var armed := state.machine.IsArmed();
      if !switches[ARM_SWITCH].mapped {
        var z := stickValues[STICK_Z];
        var corner := low && if armed then z < -(1.0 - params.armThreshold) else z > 1.0 - params.armThreshold;
        timerMs := if corner then SatAdd(timerMs, dt) else 0;
        if timerMs > 1000 {
          if !armed {
            state.UpdateArmingSafety(low, overrideOn);
            state.Update(RequestArm, params.arm);
          } else {
            state.Update(RequestDisarm, params.arm);
            timerMs := 0;
          }
        }
      } else if switchValues[ARM_SWITCH] {
        state.UpdateArmingSafety(low, overrideOn);
        if !armed {
          state.Update(RequestArm, params.arm);
        }
      } else if armed {
        state.Update(RequestDisarm, params.arm);
      }
    }

    method Run(nowMs: nat, params: RcParams, state: StateManager)
      requires Valid()
      modifies this, stickValues, switchValues, state
      ensures Valid() && (Value(), state.Value()) == Ran(old(Value()), old(state.Value()), nowMs, params)
    {
      hide Updated, Processed, LookForArming, Healthy;
      var healthy := CheckRcHealth(nowMs * 1000, params);
      if healthy {
        state.Update(ErrorCleared({RC_LOST}), params.arm);
        ProcessSticksAndSwitches();
        newCommand := true;
        LookForArmDisarmSignal(nowMs, params, state);
      } else {
        newCommand := false;
        state.Update(ErrorOccurred({RC_LOST}), params.arm);
      }
    }

    /** Hands out a processed command once. */
    method TakeNewCommand() returns (isNew: bool)
      requires Valid()
      modifies `newCommand
      ensures isNew == old(newCommand) && Value() == old(Value()).(newCommand := false)
    {
      isNew := newCommand;
      newCommand := false;
    }
  }
}
