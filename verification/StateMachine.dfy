/** The arming state machine: seven modes, a set of error flags, and the throttle guard in front of arming. */
module StateMachine {
  datatype ErrorFlag =
    | INVALID_MIXER | IMU_NOT_RESPONDING | RC_LOST | UNHEALTHY_ESTIMATOR
    | TIME_GOING_BACKWARDS | UNCALIBRATED_IMU | BUFFER_OVERRUN | INVALID_FAILSAFE

  type Flags = set<ErrorFlag>

  datatype Event =
    | Initialized
    | RequestArm
    | RequestDisarm
    | CalibrationComplete
    | CalibrationFailed
    | HardfaultRearmRequested
    | ErrorOccurred(flags: Flags)
    | ErrorCleared(flags: Flags)

  datatype Mode = Init | Preflight | Calibrating | Armed | Failsafe | ErrorPresent | ErrorFailsafe

  datatype Machine = Machine(mode: Mode, flags: Flags) {
    predicate IsArmed() {
      mode == Armed || mode == Failsafe
    }

    predicate IsInFailsafe() {
      mode == Failsafe || mode == ErrorFailsafe
    }
  }

  /** The parameters the machine reads. */
  datatype ArmParams = ArmParams(calibrateGyroOnArm: bool, allowUnhealthyEstimator: bool, takeMinThrottle: bool)

  const NEW_MACHINE := Machine(Init, {})

  function ArmFromPreflight(flags: Flags, params: ArmParams): Machine {
    if params.calibrateGyroOnArm then Machine(Calibrating, flags - {UNCALIBRATED_IMU}) else Machine(Armed, flags)
  }

  function ArmingBlockingErrors(flags: Flags, params: ArmParams): Flags {
    if params.allowUnhealthyEstimator then flags - {UNHEALTHY_ESTIMATOR} else flags
  }

  /** The `on_event` of the current mode; the flags have already absorbed the event. */
  function OnEvent(m: Machine, event: Event, params: ArmParams): Machine {
    match m.mode
    case Init =>
      if event.Initialized? then m.(mode := Preflight) else m
    case Preflight => (
      match event
      case RequestArm => ArmFromPreflight(m.flags, params)
      case HardfaultRearmRequested => m.(mode := Armed)
      case ErrorOccurred(_) => m.(mode := ErrorPresent)
      case _ => m)
    case Calibrating => (
      match event
      case CalibrationComplete => Machine(Armed, m.flags - {UNCALIBRATED_IMU})
      case CalibrationFailed => m.(mode := Preflight)
      case ErrorOccurred(_) => m.(mode := ErrorPresent)
      case HardfaultRearmRequested => m.(mode := Armed)
      case _ => m)
    case Armed => (
      match event
      case RequestDisarm => m.(mode := if m.flags != {} then ErrorPresent else Preflight)
      case ErrorOccurred(flags) => if flags == {RC_LOST} then m.(mode := Failsafe) else m
      case _ => m)
    case Failsafe => (
      match event
      case ErrorCleared(flags) => if flags == {RC_LOST} then m.(mode := Armed) else m
      case RequestDisarm => m.(mode := ErrorFailsafe)
      case HardfaultRearmRequested => m.(mode := Armed)
      case _ => m)
    case ErrorPresent => (
      match event
      case RequestArm => if ArmingBlockingErrors(m.flags, params) == {} then ArmFromPreflight(m.flags, params) else m
      case HardfaultRearmRequested => m.(mode := Armed)
      case ErrorCleared(_) => if m.flags == {} then m.(mode := Preflight) else m
      case _ => m)
    case ErrorFailsafe => (
      match event
      case HardfaultRearmRequested => m.(mode := Armed)
      case ErrorCleared(flags) =>
        if m.flags == {} then m.(mode := Preflight)
        else if flags == {RC_LOST} then m.(mode := ErrorPresent)
        else m
      case _ => m)
  }

  function Absorb(flags: Flags, event: Event): Flags {
    match event
    case ErrorOccurred(f) => flags + f
    case ErrorCleared(f) => flags - f
    case _ => flags
  }

  function UpdateMachine(m: Machine, event: Event, params: ArmParams): Machine {
    OnEvent(m.(flags := Absorb(m.flags, event)), event, params)
  }

  // ---------- The manager ----------

  datatype ArmingSafety = ArmingSafety(throttleLow: bool, overrideSwitchOn: bool)

  datatype Manager = Manager(machine: Machine, safety: ArmingSafety)

  const START := Manager(NEW_MACHINE, ArmingSafety(false, false))

  predicate SafetyAllowsArm(safety: ArmingSafety, params: ArmParams) {
    safety.throttleLow && (params.takeMinThrottle || safety.overrideSwitchOn)
  }

  predicate ArmingCanTransition(m: Machine, params: ArmParams) {
    m.mode == Preflight || (m.mode == ErrorPresent && ArmingBlockingErrors(m.flags, params) == {})
  }

  function Updated(s: Manager, event: Event, params: ArmParams): Manager {
    if event.RequestArm? && ArmingCanTransition(s.machine, params) && !SafetyAllowsArm(s.safety, params) then s
    else s.(machine := UpdateMachine(s.machine, event, params))
  }

  function FlagSet(s: Manager, flag: ErrorFlag, isPresent: bool, params: ArmParams): Manager {
    if isPresent && flag !in s.machine.flags then Updated(s, ErrorOccurred({flag}), params)
    else if !isPresent && flag in s.machine.flags then Updated(s, ErrorCleared({flag}), params)
    else s
  }

  /**
  What setting a flag means: that flag has the value asked for, the others and the guard inputs are
  untouched, nothing happens when the value was there already, and it neither arms nor disarms.
  */
  lemma FlagSetMeans(s: Manager, flag: ErrorFlag, isPresent: bool, params: ArmParams)
    ensures var after := FlagSet(s, flag, isPresent, params);
      && after.machine.flags == (if isPresent then s.machine.flags + {flag} else s.machine.flags - {flag})
      && after.safety == s.safety && after.machine.IsArmed() == s.machine.IsArmed()
      && ((flag in s.machine.flags) == isPresent ==> after == s)
  {
    assert flag in s.machine.flags ==> s.machine.flags + {flag} == s.machine.flags;
    assert flag !in s.machine.flags ==> s.machine.flags - {flag} == s.machine.flags;
  }

  /** `run`: replays the present errors, or the empty clearing when there are none. */
  function Replay(s: Manager, params: ArmParams): Manager {
    if s.machine.flags == {} then Updated(s, ErrorCleared({}), params)
    else Updated(s, ErrorOccurred(s.machine.flags), params)
  }

  // ---------- What each event means, whatever the mode ----------

  /** A disarm request leaves no vehicle armed; the flags survive it and decide where the vehicle ends. */
  lemma DisarmMeans(s: Manager, p: ArmParams)
    ensures var (m, after) := (s.machine, Updated(s, RequestDisarm, p));
      && !after.machine.IsArmed() && after.machine.flags == m.flags && after.safety == s.safety
      && after.machine.mode ==
           if m.mode == Armed && m.flags == {} then Preflight
           else if m.mode == Armed then ErrorPresent
           else if m.mode == Failsafe then ErrorFailsafe
           else m.mode
  {}

  /**
  An arm request arms, or calibrates to arm, exactly when the vehicle waits without a blocking error
  and the throttle guard is open; in every other case it changes nothing.
  */
  lemma ArmMeans(s: Manager, p: ArmParams)
    ensures var (m, after) := (s.machine, Updated(s, RequestArm, p));
      var blocking := if p.allowUnhealthyEstimator then m.flags - {UNHEALTHY_ESTIMATOR} else m.flags;
      if (m.mode == Preflight || (m.mode == ErrorPresent && blocking == {}))
         && s.safety.throttleLow && (p.takeMinThrottle || s.safety.overrideSwitchOn)
      then
        after.machine ==
          if p.calibrateGyroOnArm then Machine(Calibrating, m.flags - {UNCALIBRATED_IMU}) else Machine(Armed, m.flags)
      else after == s
  {}

  /** Calibration ends where it was headed; anywhere but in Calibrating its events change nothing. */
  lemma CalibrationMeans(s: Manager, p: ArmParams)
    ensures Updated(s, CalibrationComplete, p) ==
      if s.machine.mode == Calibrating then s.(machine := Machine(Armed, s.machine.flags - {UNCALIBRATED_IMU})) else s
    ensures Updated(s, CalibrationFailed, p) ==
      if s.machine.mode == Calibrating then s.(machine := Machine(Preflight, s.machine.flags)) else s
  {}

  /** A rearm after a hard fault arms from every mode but Init; INITIALIZED leaves Init and does nothing else. */
  lemma StartMeans(s: Manager, p: ArmParams)
    ensures Updated(s, HardfaultRearmRequested, p) ==
      if s.machine.mode == Init then s else s.(machine := Machine(Armed, s.machine.flags))
    ensures Updated(s, Initialized, p) ==
      if s.machine.mode == Init then s.(machine := Machine(Preflight, s.machine.flags)) else s
  {}

  /**
  An error is remembered in every mode; it stops arming, and a lost link alone takes an armed vehicle
  to failsafe.
  */
  lemma ErrorMeans(s: Manager, errors: Flags, p: ArmParams)
    ensures var (m, after) := (s.machine, Updated(s, ErrorOccurred(errors), p).machine);
      && after.flags == m.flags + errors && after.IsArmed() == m.IsArmed()
      && (after.mode == m.mode <==>
            !(m.mode == Preflight || m.mode == Calibrating || (m.mode == Armed && errors == {RC_LOST})))
      && (m.mode == Preflight || m.mode == Calibrating ==> after.mode == ErrorPresent)
      && (m.mode == Armed && errors == {RC_LOST} ==> after.mode == Failsafe)
  {}

  /** Clearing errors ends an error mode once none is left, and clearing the lost link ends failsafe. */
  lemma ClearMeans(s: Manager, errors: Flags, p: ArmParams)
    ensures var (m, after) := (s.machine, Updated(s, ErrorCleared(errors), p).machine);
      && after.flags == m.flags - errors && after.IsArmed() == m.IsArmed()
      && after.mode ==
           if m.mode == Failsafe && errors == {RC_LOST} then Armed
           else if m.mode in {ErrorPresent, ErrorFailsafe} && m.flags <= errors then Preflight
           else if m.mode == ErrorFailsafe && errors == {RC_LOST} then ErrorPresent
           else m.mode
  {
    var left := s.machine.flags - errors;
    if left == {} {
      forall f | f in s.machine.flags ensures f in errors {
        assert f !in left;
      }
    }
  }

  class StateManager {
    var machine: Machine
    var armingSafety: ArmingSafety

    function Value(): Manager
      reads this
    {
      Manager(machine, armingSafety)
    }

    constructor ()
      ensures Value() == START
    {
      machine := NEW_MACHINE;
      armingSafety := ArmingSafety(false, false);
    }

    method UpdateArmingSafety(rcThrottleLow: bool, rcThrottleOverrideSwitchOn: bool)
      modifies this
      ensures Value() == Manager(old(machine), ArmingSafety(rcThrottleLow, rcThrottleOverrideSwitchOn))
    {
      armingSafety := ArmingSafety(rcThrottleLow, rcThrottleOverrideSwitchOn);
    }

    method Update(event: Event, params: ArmParams)
      modifies this
      ensures Value() == Updated(old(Value()), event, params)
    {
      var canTransition := machine.mode == Preflight
        || (machine.mode == ErrorPresent && ArmingBlockingErrors(machine.flags, params) == {});
      if event.RequestArm? && canTransition && !SafetyAllowsArm(armingSafety, params) {
        return;
      }
      var flags := machine.flags;
      match event {
        case ErrorOccurred(f) => flags := flags + f;
        case ErrorCleared(f) => flags := flags - f;
        case _ =>
      }
      machine := OnEvent(machine.(flags := flags), event, params);
    }

    method SetErrorFlag(flag: ErrorFlag, isPresent: bool, params: ArmParams)
      modifies this
      ensures Value() == FlagSet(old(Value()), flag, isPresent, params)
      ensures machine.flags == if isPresent then old(machine.flags) + {flag} else old(machine.flags) - {flag}
      ensures armingSafety == old(armingSafety) && machine.IsArmed() == old(machine.IsArmed())
      ensures (flag in old(machine.flags)) == isPresent ==> machine == old(machine)
    {
      FlagSetMeans(Value(), flag, isPresent, params);
      var alreadyPresent := flag in machine.flags;
      if isPresent {
        if !alreadyPresent {
          Update(ErrorOccurred({flag}), params);
        }
      } else if alreadyPresent {
        Update(ErrorCleared({flag}), params);
      }
    }

    method Run(params: ArmParams)
      modifies this
      ensures Value() == Replay(old(Value()), params)
    {
      if machine.flags == {} {
        Update(ErrorCleared({}), params);
      } else {
        Update(ErrorOccurred(machine.flags), params);
      }
    }
  }
}
