/** The lockout that keeps RC angle mode off after it was asked for with an unhealthy estimator. */
module Lockout {
  datatype LockoutState =
    | Inactive
    | SwitchResetRequired(estimatorRecovered: bool, rateWaitLogged: bool)
    | ParamRateUntilExplicitAngle

  /** The machine; `denials` counts the denial errors it has logged. */
  datatype Machine = Machine(state: LockoutState, denialActive: bool, denials: nat)

  datatype Input = Input(
    fixedWing: bool, estimatorUnhealthy: bool, offboardAngleRequested: bool, rcAngleRequested: bool,
    rcAttitudeSourceRequested: bool, attTypeSwitchMapped: bool, attTypeSwitchRate: bool, paramModeRate: bool)

  datatype Output = Output(forceRcAttitude: bool, forceRcRate: bool, forceParamRate: bool)

  const NO_FORCE := Output(false, false, false)
  const NEW := Machine(Inactive, false, 0)

  function Reset(m: Machine): Machine {
    m.(state := Inactive, denialActive := false)
  }

  /** Angle mode is asked for, by the source that will fly, while the estimator is unhealthy. */
  predicate Unsafe(i: Input) {
    i.estimatorUnhealthy && (i.offboardAngleRequested || (i.rcAttitudeSourceRequested && i.rcAngleRequested))
  }

  function Advanced(s: LockoutState, i: Input): LockoutState {
    match s
    case Inactive => Inactive
    case SwitchResetRequired(recoveredBefore, waitLogged) =>
      var recovered := recoveredBefore || !i.estimatorUnhealthy;
      if recovered && i.attTypeSwitchRate then Inactive
      else SwitchResetRequired(recovered, waitLogged || (i.attTypeSwitchRate && !recovered))
    case ParamRateUntilExplicitAngle =>
      if !i.estimatorUnhealthy && i.paramModeRate then Inactive else ParamRateUntilExplicitAngle
  }

  function Entered(m: Machine, i: Input): Machine {
    if m.denialActive then m
    else
      Machine(
        if !i.attTypeSwitchMapped then ParamRateUntilExplicitAngle
        else if m.state.SwitchResetRequired? then m.state
        else SwitchResetRequired(false, false),
        true, m.denials + 1)
  }

  function Stepped(m: Machine, i: Input): (Machine, Output) {
    if i.fixedWing then (Reset(m), NO_FORCE)
    else
      var advanced := m.(state := Advanced(m.state, i));
      (if Unsafe(i) then Entered(advanced, i) else advanced.(denialActive := false),
       Output(
         i.estimatorUnhealthy && i.offboardAngleRequested,
         !advanced.state.Inactive? || Unsafe(i),
         !i.attTypeSwitchMapped && Unsafe(i) && !i.paramModeRate))
  }

  class RcAngleModeLockoutMachine {
    var state: LockoutState
    var denialActive: bool
    ghost var denials: nat

    ghost function Value(): Machine
      reads this
    {
      Machine(state, denialActive, denials)
    }

    constructor ()
      ensures Value() == NEW
    {
      state, denialActive, denials := Inactive, false, 0;
    }

    method ResetMachine()
      modifies this
      ensures Value() == Reset(old(Value()))
    {
      state := Inactive;
      denialActive := false;
    }

    method Advance(i: Input)
      modifies `state
      ensures state == Advanced(old(state), i)
    {
      match state
      case Inactive =>
      case SwitchResetRequired(estimatorRecovered, rateWaitLogged) =>
        var recovered := estimatorRecovered || !i.estimatorUnhealthy;
        if recovered && i.attTypeSwitchRate {
          state := Inactive;
        } else {
          state := SwitchResetRequired(recovered, rateWaitLogged || (i.attTypeSwitchRate && !recovered));
        }
      case ParamRateUntilExplicitAngle =>
        if !i.estimatorUnhealthy && i.paramModeRate {
          state := Inactive;
        }
    }

    method Enter(i: Input)
      modifies this
      ensures Value() == Entered(old(Value()), i)
    {
      if denialActive {
        return;
      }
      denialActive := true;
      denials := denials + 1;
      if i.attTypeSwitchMapped {
        if !state.SwitchResetRequired? {
          state := SwitchResetRequired(false, false);
        }
      } else {
        state := ParamRateUntilExplicitAngle;
      }
    }

    method Step(i: Input) returns (out: Output)
      modifies this
      ensures (Value(), out) == Stepped(old(Value()), i)
    {
      if i.fixedWing {
        ResetMachine();
        return NO_FORCE;
      }
      Advance(i);
      var lockoutActive := !state.Inactive?;
      var unsafeAngleRequested := i.estimatorUnhealthy
        && (i.offboardAngleRequested || (i.rcAttitudeSourceRequested && i.rcAngleRequested));
      if unsafeAngleRequested {
        Enter(i);
      } else {
        denialActive := false;
      }
      return Output(
        i.estimatorUnhealthy && i.offboardAngleRequested,
        lockoutActive || unsafeAngleRequested,
        !i.attTypeSwitchMapped && unsafeAngleRequested && !i.paramModeRate);
    }
  }

  // ---------- Runs ----------

  function After(m: Machine, inputs: seq<Input>): Machine {
    if inputs == [] then m else Stepped(After(m, inputs[..|inputs| - 1]), inputs[|inputs| - 1]).0
  }

  /** The output of step `k`. */
  function OutputAt(m: Machine, inputs: seq<Input>, k: nat): Output
    requires k < |inputs|
  {
    Stepped(After(m, inputs[..k]), inputs[k]).1
  }

  predicate HealthySeen(inputs: seq<Input>) {
    exists j :: 0 <= j < |inputs| && !inputs[j].estimatorUnhealthy
  }

  /** Step `k` releases a switch lockout: the switch reads rate, and the estimator was healthy at some step up to it. */
  predicate Releases(inputs: seq<Input>, k: nat)
    requires k < |inputs|
  {
    inputs[k].attTypeSwitchRate && HealthySeen(inputs[..k + 1])
  }

  lemma HealthySeenGrows(inputs: seq<Input>, i: Input)
    ensures HealthySeen(inputs + [i]) <==> HealthySeen(inputs) || !i.estimatorUnhealthy
  {
    if !i.estimatorUnhealthy {
      assert !(inputs + [i])[|inputs|].estimatorUnhealthy;
    } else if HealthySeen(inputs) {
      var j :| 0 <= j < |inputs| && !inputs[j].estimatorUnhealthy;
      assert !(inputs + [i])[j].estimatorUnhealthy;
    }
  }

  /** Some step moved the switch to rate before the estimator had been healthy: the wait has been logged. */
  predicate WaitSeen(inputs: seq<Input>) {
    |inputs| > 0 &&
    (var n := |inputs| - 1;
     WaitSeen(inputs[..n]) || (inputs[n].attTypeSwitchRate && !HealthySeen(inputs)))
  }

  /** A switch lockout just entered holds, and remembers recovery, for as long as no step releases it. */
  lemma {:induction false} LatchHolds(m: Machine, inputs: seq<Input>)
    requires m.state.SwitchResetRequired? && !m.state.estimatorRecovered
    requires forall k :: 0 <= k < |inputs| ==>
      !inputs[k].fixedWing && inputs[k].attTypeSwitchMapped && !Releases(inputs, k)
    ensures var s := After(m, inputs).state;
      && s.SwitchResetRequired? && s.estimatorRecovered == HealthySeen(inputs)
      && s.rateWaitLogged == (m.state.rateWaitLogged || WaitSeen(inputs))
    ensures forall k :: 0 <= k < |inputs| ==> OutputAt(m, inputs, k).forceRcRate
    decreases |inputs|
  {
    if inputs != [] {
      var n := |inputs| - 1;
      var before := inputs[..n];
      forall k | 0 <= k < n ensures !Releases(before, k) {
        assert before[..k + 1] == inputs[..k + 1];
        assert !Releases(inputs, k);
      }
      LatchHolds(m, before);
      forall k | 0 <= k < n ensures OutputAt(m, inputs, k).forceRcRate {
        assert before[..k] == inputs[..k];
        assert OutputAt(m, before, k).forceRcRate;
      }
      assert inputs == before + [inputs[n]];
      HealthySeenGrows(before, inputs[n]);
      assert inputs[..n + 1] == inputs;
      assert !Releases(inputs, n);
    }
  }

  /** The first releasing step ends the latch, and forces rate itself only when it is unsafe. */
  lemma LatchReleases(m: Machine, inputs: seq<Input>)
    requires m.state.SwitchResetRequired? && !m.state.estimatorRecovered && inputs != []
    requires forall k :: 0 <= k < |inputs| ==> !inputs[k].fixedWing && inputs[k].attTypeSwitchMapped
    requires Releases(inputs, |inputs| - 1) && forall k :: 0 <= k < |inputs| - 1 ==> !Releases(inputs, k)
    ensures var last := inputs[|inputs| - 1];
      && (OutputAt(m, inputs, |inputs| - 1).forceRcRate <==> Unsafe(last))
      && (!Unsafe(last) ==> After(m, inputs).state.Inactive?)
  {
    hide Stepped;
    var n := |inputs| - 1;
    var before := inputs[..n];
    forall k | 0 <= k < n ensures !Releases(before, k) {
      assert before[..k + 1] == inputs[..k + 1];
      assert !Releases(inputs, k);
    }
    LatchHolds(m, before);
    assert inputs == before + [inputs[n]] && inputs[..n + 1] == inputs;
    HealthySeenGrows(before, inputs[n]);
    ReleaseStep(After(m, before), inputs[n]);
  }

  lemma ReleaseStep(m: Machine, i: Input)
    requires m.state.SwitchResetRequired? && !i.fixedWing && i.attTypeSwitchRate
    requires m.state.estimatorRecovered || !i.estimatorUnhealthy
    ensures Stepped(m, i).1.forceRcRate <==> Unsafe(i)
    ensures !Unsafe(i) ==> Stepped(m, i).0.state.Inactive?
  {}

  /** A parameter lockout holds until a step that is both healthy and in rate mode. */
  lemma {:induction false} ParamLatchHolds(m: Machine, inputs: seq<Input>)
    requires m.state.ParamRateUntilExplicitAngle?
    requires forall k :: 0 <= k < |inputs| ==>
      && !inputs[k].fixedWing && !inputs[k].attTypeSwitchMapped
      && (inputs[k].estimatorUnhealthy || !inputs[k].paramModeRate)
    ensures After(m, inputs).state.ParamRateUntilExplicitAngle?
    ensures forall k :: 0 <= k < |inputs| ==> OutputAt(m, inputs, k).forceRcRate
    decreases |inputs|
  {
    if inputs != [] {
      var n := |inputs| - 1;
      var before := inputs[..n];
      ParamLatchHolds(m, before);
      forall k | 0 <= k < n ensures OutputAt(m, inputs, k).forceRcRate {
        assert before[..k] == inputs[..k];
        assert OutputAt(m, before, k).forceRcRate;
      }
    }
  }

  /** Any machine leaves the parameter lockout for Inactive exactly at a healthy step in rate mode, or by a reset. */
  lemma ParamLatchEnds(m: Machine, i: Input)
    requires m.state.ParamRateUntilExplicitAngle?
    ensures Stepped(m, i).0.state.Inactive? <==> i.fixedWing || (!i.estimatorUnhealthy && i.paramModeRate)
    ensures Stepped(m, i).0.state.Inactive? ==> !Stepped(m, i).1.forceRcRate
  {}

  /**
  Where a new denial leads: without an attitude switch to the parameter lockout, which also asks for
  the parameter to be set to rate unless it is; with one to the switch lockout.
  */
  lemma DenialEnters(m: Machine, i: Input)
    requires Denied(i)
    ensures var (after, out) := Stepped(m, i);
      && (!m.denialActive ==>
            (after.state.SwitchResetRequired? <==> i.attTypeSwitchMapped)
            && (after.state.ParamRateUntilExplicitAngle? <==> !i.attTypeSwitchMapped))
      && (!m.denialActive && !m.state.SwitchResetRequired? && i.attTypeSwitchMapped ==> !after.state.estimatorRecovered)
      && (out.forceParamRate <==> !i.attTypeSwitchMapped && !i.paramModeRate)
      && (out.forceRcAttitude <==> i.offboardAngleRequested)
  {}

  /** Nothing is forced where no angle is asked for and no lockout holds. */
  lemma FreeToFly(m: Machine, i: Input)
    requires !Denied(i) && Advanced(m.state, i).Inactive?
    ensures Stepped(m, i).1 == NO_FORCE && !Stepped(m, i).0.denialActive && Stepped(m, i).0.state.Inactive?
  {}

  // ---------- Denials ----------

  predicate Denied(i: Input) {
    !i.fixedWing && Unsafe(i)
  }

  /** The maximal runs of denied steps, counted by their first step. */
  function DenialRuns(inputs: seq<Input>): nat {
    if inputs == [] then 0
    else
      var n := |inputs| - 1;
      DenialRuns(inputs[..n]) + if Denied(inputs[n]) && (n == 0 || !Denied(inputs[n - 1])) then 1 else 0
  }

  /** One denial error is logged for each maximal run of denied steps, whatever the modes in between. */
  lemma {:induction false} DenialsLoggedOnce(inputs: seq<Input>)
    ensures After(NEW, inputs).denials == DenialRuns(inputs)
    ensures After(NEW, inputs).denialActive == (inputs != [] && Denied(inputs[|inputs| - 1]))
    decreases |inputs|
  {
    if inputs != [] {
      DenialsLoggedOnce(inputs[..|inputs| - 1]);
    }
  }

  /**
  A denied step always forces rate, and leaves the machine Inactive exactly when a denial is already
  active and this step releases the lockout: the latch is not entered again while denied.
  */
  lemma DeniedEndsInactive(m: Machine, i: Input)
    requires Denied(i)
    ensures Stepped(m, i).1.forceRcRate
    ensures Stepped(m, i).0.state.Inactive? <==> m.denialActive && Advanced(m.state, i).Inactive?
  {}

  /** RC angle mode asked for by the switch, with the estimator unhealthy or not. */
  function AngleBySwitch(unhealthy: bool): Input {
    Input(false, unhealthy, false, true, true, true, false, false)
  }

  /** An offboard angle with the estimator unhealthy, while the switch reads rate. */
  const OFFBOARD_ANGLE_AT_RATE := Input(false, true, true, false, false, true, true, false)

  /** A run from the start that ends there: denied, recovered, denied again, and then moved to rate under offboard. */
  lemma UnsafeCanEndInactive()
    ensures var run := [AngleBySwitch(true), AngleBySwitch(false), AngleBySwitch(true), OFFBOARD_ANGLE_AT_RATE];
      Denied(run[3]) && OutputAt(NEW, run, 3).forceRcRate && After(NEW, run).state.Inactive?
  {
    var run := [AngleBySwitch(true), AngleBySwitch(false), AngleBySwitch(true), OFFBOARD_ANGLE_AT_RATE];
    assert run[..3][..2] == run[..2] && run[..2][..1] == run[..1] && run[..1][..0] == [];
    assert After(NEW, run[..1]) == Machine(SwitchResetRequired(false, false), true, 1);
    assert After(NEW, run[..2]) == Machine(SwitchResetRequired(true, false), false, 1);
    assert After(NEW, run[..3]) == Machine(SwitchResetRequired(true, false), true, 2);
  }
}
