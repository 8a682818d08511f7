/** What holds of every run of the arming state machine. */
module ArmingRuns {
  import opened StateMachine

  /** One delivery to the manager, with the parameters at that moment. */
  datatype Step =
    | Deliver(event: Event, params: ArmParams)
    | SetSafety(safety: ArmingSafety)
    | RunManager(params: ArmParams)

  /** Error events carry one flag; only `run` replays whole sets. */
  predicate Admissible(step: Step) {
    step.Deliver? ==>
      match step.event
      case ErrorOccurred(flags) => |flags| == 1
      case ErrorCleared(flags) => |flags| == 1
      case _ => true
  }

  function Take(s: Manager, step: Step): Manager {
    match step
    case Deliver(event, params) => Updated(s, event, params)
    case SetSafety(safety) => s.(safety := safety)
    case RunManager(params) => Replay(s, params)
  }

  /** The manager right after INITIALIZED, when `carried` was raised before it. */
  function Started(carried: Flags): Manager {
    START.(machine := Machine(Preflight, carried))
  }

  /** Flags raised in Init survive INITIALIZED. */
  lemma CarriedThrough(carried: Flags, p: ArmParams, q: ArmParams)
    ensures Updated(Updated(START, ErrorOccurred(carried), p), Initialized, q) == Started(carried)
  {
    assert {} + carried == carried;
  }

  /** The manager after INITIALIZED and then `steps`. */
  function After(carried: Flags, steps: seq<Step>): Manager {
    if steps == [] then Started(carried)
    else Take(After(carried, steps[..|steps| - 1]), steps[|steps| - 1])
  }

  predicate IsRearm(step: Step) {
    step.Deliver? && step.event.HardfaultRearmRequested?
  }

  /** Whether a hard-fault rearm happened since the vehicle was last disarmed. */
  function Rearmed(carried: Flags, steps: seq<Step>): bool {
    if steps == [] then false
    else
      IsRearm(steps[|steps| - 1])
      || (After(carried, steps).machine.IsArmed() && Rearmed(carried, steps[..|steps| - 1]))
  }

  /** The flags each mode can carry. */
  predicate FlagsFit(m: Machine, rearmed: bool) {
    match m.mode
    case Init => false
    case Preflight => m.flags <= {UNHEALTHY_ESTIMATOR}
    case Calibrating => m.flags <= {UNHEALTHY_ESTIMATOR}
    case Armed => RC_LOST in m.flags ==> rearmed
    case Failsafe => RC_LOST in m.flags
    case ErrorPresent => m.flags != {}
    case ErrorFailsafe => RC_LOST in m.flags
  }

  lemma Singleton(flags: Flags, f: ErrorFlag)
    requires |flags| == 1 && f in flags
    ensures flags == {f}
  {
    assert |flags - {f}| == 0;
    assert flags == {f} + (flags - {f});
  }

  lemma UpdateFits(s: Manager, event: Event, params: ArmParams, rearmed: bool)
    requires FlagsFit(s.machine, rearmed) && Admissible(Deliver(event, params))
    ensures var m := Updated(s, event, params).machine;
      FlagsFit(m, event.HardfaultRearmRequested? || (m.IsArmed() && rearmed))
  {
    if event.ErrorOccurred? || event.ErrorCleared? {
      if RC_LOST in event.flags {
        Singleton(event.flags, RC_LOST);
      }
    }
  }

  lemma ReplayFits(s: Manager, params: ArmParams, rearmed: bool)
    requires FlagsFit(s.machine, rearmed)
    ensures var m := Replay(s, params).machine; FlagsFit(m, m.IsArmed() && rearmed)
  {
    assert s.machine.flags + s.machine.flags == s.machine.flags;
    assert s.machine.flags - {} == s.machine.flags;
  }

  ghost predicate AllAdmissible(steps: seq<Step>) {
    forall i :: 0 <= i < |steps| ==> Admissible(steps[i])
  }

  /**
  In every run after a clean start, failsafe modes carry RC_LOST, error modes carry a flag, and arming
  modes carry at most an unhealthy estimator.
  */
  lemma {:induction false} ModesFitFlags(carried: Flags, steps: seq<Step>)
    requires carried <= {UNHEALTHY_ESTIMATOR} && AllAdmissible(steps)
    ensures FlagsFit(After(carried, steps).machine, Rearmed(carried, steps))
    decreases |steps|
  {
    if steps != [] {
      var before, step := steps[..|steps| - 1], steps[|steps| - 1];
      ModesFitFlags(carried, before);
      match step
      case Deliver(event, params) => UpdateFits(After(carried, before), event, params, Rearmed(carried, before));
      case SetSafety(_) =>
      case RunManager(params) => ReplayFits(After(carried, before), params, Rearmed(carried, before));
    }
  }

  /** The start is clean in this sense exactly when every run fits its flags. */
  lemma FitIffClean(carried: Flags)
    ensures (forall steps :: AllAdmissible(steps) ==> FlagsFit(After(carried, steps).machine, Rearmed(carried, steps)))
      <==> carried <= {UNHEALTHY_ESTIMATOR}
  {
    hide FlagsFit, After, Rearmed, AllAdmissible;
    if carried <= {UNHEALTHY_ESTIMATOR} {
      forall steps | AllAdmissible(steps) ensures FlagsFit(After(carried, steps).machine, Rearmed(carried, steps)) {
        ModesFitFlags(carried, steps);
      }
    } else {
      UncleanAtOnce(carried);
    }
  }

  lemma UncleanAtOnce(carried: Flags)
    requires !(carried <= {UNHEALTHY_ESTIMATOR})
    ensures AllAdmissible([]) && !FlagsFit(After(carried, []).machine, Rearmed(carried, []))
  {}

  /** Whatever was carried, the first request with the throttle guard open arms over it. */
  lemma ArmsOverCarried(carried: Flags, safety: ArmingSafety, params: ArmParams)
    requires SafetyAllowsArm(safety, params)
    ensures var steps := [SetSafety(safety), Deliver(RequestArm, params)];
      && AllAdmissible(steps)
      && After(carried, steps).machine ==
           if params.calibrateGyroOnArm then Machine(Calibrating, carried - {UNCALIBRATED_IMU})
           else Machine(Armed, carried)
  {
    var steps := [SetSafety(safety), Deliver(RequestArm, params)];
    assert steps[..1] == [SetSafety(safety)] && steps[..1][..0] == [];
    assert After(carried, steps[..1]) == Started(carried).(safety := safety);
  }

  // ---------- Where an armed vehicle was armed ----------

  predicate Arming(m: Machine) {
    m.mode == Calibrating || m.IsArmed()
  }

  /** A REQUEST_ARM that the blocking errors and the throttle guard let through. */
  predicate GuardedRequest(s: Manager, step: Step) {
    && step.Deliver? && step.event.RequestArm?
    && ArmingCanTransition(s.machine, step.params) && SafetyAllowsArm(s.safety, step.params)
  }

  lemma EnteredByRequest(s: Manager, step: Step)
    requires s.machine.mode != Init && !Arming(s.machine) && Arming(Take(s, step).machine)
    ensures GuardedRequest(s, step) || IsRearm(step)
  {}

  /** The vehicle has been calibrating, armed or in failsafe ever since step `k`, which let it in. */
  ghost predicate ArmedSince(carried: Flags, steps: seq<Step>, k: nat)
    requires k < |steps|
  {
    && (GuardedRequest(After(carried, steps[..k]), steps[k]) || IsRearm(steps[k]))
    && !Arming(After(carried, steps[..k]).machine)
    && forall j :: k < j <= |steps| ==> Arming(After(carried, steps[..j]).machine)
  }

  lemma NothingArmed(carried: Flags)
    ensures !Arming(After(carried, []).machine)
  {}

  lemma TakeNotInit(s: Manager, step: Step)
    requires s.machine.mode != Init
    ensures Take(s, step).machine.mode != Init
  {}

  lemma {:induction false} NeverInit(carried: Flags, steps: seq<Step>)
    ensures After(carried, steps).machine.mode != Init
    decreases |steps|
  {
    hide Take;
    if steps != [] {
      NeverInit(carried, steps[..|steps| - 1]);
      TakeNotInit(After(carried, steps[..|steps| - 1]), steps[|steps| - 1]);
    }
  }

  /**
  Every arming episode, in every run from any carried flags, began with a guarded REQUEST_ARM or a
  hard-fault rearm.
  */
  lemma {:induction false} EpisodeHasOrigin(carried: Flags, steps: seq<Step>) returns (k: nat)
    requires Arming(After(carried, steps).machine)
    ensures k < |steps| && ArmedSince(carried, steps, k)
    decreases |steps|
  {
    hide Take, GuardedRequest, Arming;
    var n := |steps| - 1;
    if n < 0 {
      NothingArmed(carried);
    }
    var before := steps[..n];
    assert steps[..|steps|] == steps;
    if Arming(After(carried, before).machine) {
      k := EpisodeHasOrigin(carried, before);
      assert before[..k] == steps[..k];
      forall j | k < j <= |steps| ensures Arming(After(carried, steps[..j]).machine) {
        if j <= n {
          assert before[..j] == steps[..j];
        }
      }
    } else {
      k := n;
      NeverInit(carried, before);
      EnteredByRequest(After(carried, before), steps[n]);
    }
  }

  /** A REQUEST_ARM while the throttle is not low never arms, whatever the mode and the flags. */
  lemma ThrottleHighNeverArms(s: Manager, params: ArmParams)
    requires !s.safety.throttleLow && !Arming(s.machine)
    ensures Updated(s, RequestArm, params) == s
  {}
}
