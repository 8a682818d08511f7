/** How long the sticks must have been held before the vehicle is armed or disarmed by stick. */
module StickHold {
  import opened StateMachine
  import opened ArmingRuns
  import opened RemoteControl

  /** What can happen to the receiver and the state manager. */
  datatype Action =
    | Receive(packet: Packet)
    | Run(nowMs: nat, params: RcParams)
    | Manage(step: Step)

  /**
  A run that found the link healthy: the armed state it saw, whether the sticks were in its corner,
  and whether it asked.
  */
  datatype HealthyRun = HealthyRun(nowMs: nat, armed: bool, corner: bool, requested: bool)

  datatype World = World(rc: RcState, manager: Manager, log: seq<HealthyRun>)

  predicate Possible(w: World, a: Action) {
    match a
    case Receive(packet) => |packet.channels| == RC_PACKET_CHANNELS
    case Run(nowMs, _) => LastTime(w.log) <= nowMs <= U32_MAX
    case Manage(_) => true
  }

  /** The receiver and the manager as the arming logic of a healthy run sees them. */
  function Seen(w: World, params: RcParams): (RcState, Manager)
    requires w.rc.Shaped()
  {
    (Processed(w.rc).(newCommand := true), Updated(w.manager, ErrorCleared({RC_LOST}), params.arm))
  }

  function Observe(w: World, nowMs: nat, params: RcParams): HealthyRun
    requires w.rc.Shaped()
  {
    var (rc, manager) := Seen(w, params);
    var armed := manager.machine.IsArmed();
    var corner := InCorner(rc, armed, params.armThreshold);
    HealthyRun(nowMs, armed, corner, corner && SatAdd(rc.timerMs, SatSub(nowMs, rc.prevTimeMs)) > 1000)
  }

  function Next(w: World, a: Action): (r: World)
    requires w.rc.Shaped() && Possible(w, a)
    ensures r.rc.Shaped()
  {
    match a
    case Receive(packet) => w.(rc := Received(w.rc, packet))
    case Manage(step) => w.(manager := Take(w.manager, step))
    case Run(nowMs, params) =>
      var (rc, manager) := Ran(w.rc, w.manager, nowMs, params);
      World(rc, manager, if Healthy(w.rc, nowMs * 1000, params) then w.log + [Observe(w, nowMs, params)] else w.log)
  }

  function LastTime(log: seq<HealthyRun>): nat {
    if log == [] then 0 else log[|log| - 1].nowMs
  }

  /** A healthy run restarts the hold when the sticks are elsewhere, or when it disarms. */
  predicate Restarts(e: HealthyRun) {
    !e.corner || (e.requested && e.armed)
  }

  /** When the hold last restarted; 0 when it never did. */
  function HeldFrom(log: seq<HealthyRun>): nat {
    if log == [] then 0
    else if Restarts(log[|log| - 1]) then log[|log| - 1].nowMs
    else HeldFrom(log[..|log| - 1])
  }

  ghost predicate TimerFits(w: World) {
    && w.rc.Shaped() && !w.rc.SwitchMapped(ARM_SWITCH)
    && HeldFrom(w.log) <= LastTime(w.log) <= U32_MAX
    && w.rc.prevTimeMs == LastTime(w.log)
    && w.rc.timerMs == LastTime(w.log) - HeldFrom(w.log)
    && forall i :: 0 <= i < |w.log| ==>
         (w.log[i].requested <==> w.log[i].corner && w.log[i].nowMs - HeldFrom(w.log[..i]) > 1000)
  }

  lemma ProcessedKeepsTimer(rc: RcState)
    requires rc.Shaped()
    ensures var r := Processed(rc);
      r.switches == rc.switches && r.prevTimeMs == rc.prevTimeMs && r.timerMs == rc.timerMs
  {
    hide StickValue, SwitchValue;
  }

  /**
  The timer after the arming logic: restarted outside the corner and after a disarm, otherwise longer
  by the time passed.
  */
  lemma LookTimer(rc: RcState, m: Manager, nowMs: nat, p: RcParams)
    requires rc.Shaped() && !rc.SwitchMapped(ARM_SWITCH) && rc.timerMs <= rc.prevTimeMs <= nowMs <= U32_MAX
    ensures var after := LookForArming(rc, m, nowMs, p).0;
      var (armed, held) := (m.machine.IsArmed(), rc.timerMs + nowMs - rc.prevTimeMs);
      && after.switches == rc.switches && after.prevTimeMs == nowMs
      && after.timerMs == if !InCorner(rc, armed, p.armThreshold) || (armed && held > 1000) then 0 else held
  {
    hide Updated, InCorner, Safety;
  }

  lemma RunFits(w: World, nowMs: nat, params: RcParams)
    requires TimerFits(w) && Possible(w, Run(nowMs, params)) && Healthy(w.rc, nowMs * 1000, params)
    ensures TimerFits(Next(w, Run(nowMs, params)))
  {
    hide Updated, Healthy, Processed, InCorner, LookForArming;
    var next := Next(w, Run(nowMs, params));
    var (rc, manager) := Seen(w, params);
    ProcessedKeepsTimer(w.rc);
    LookTimer(rc, manager, nowMs, params);
    assert next.log[..|w.log|] == w.log;
    forall i | 0 <= i < |next.log|
      ensures next.log[i].requested <==> next.log[i].corner && next.log[i].nowMs - HeldFrom(next.log[..i]) > 1000
    {
      assert next.log[..i] == w.log[..i];
    }
  }

  /** Every action, of any kind, keeps the timer equal to the time since the hold restarted. */
  lemma NextFits(w: World, a: Action)
    requires TimerFits(w) && Possible(w, a)
    ensures TimerFits(Next(w, a))
  {
    hide Healthy, Processed;
    if a.Run? && Healthy(w.rc, a.nowMs * 1000, a.params) {
      RunFits(w, a.nowMs, a.params);
    }
  }

  /**
  The events a healthy run delivers: no arming event unless it asked, and then exactly the one for its
  armed state.
  */
  lemma RequestDelivered(w: World, nowMs: nat, params: RcParams)
    requires TimerFits(w) && Possible(w, Run(nowMs, params)) && Healthy(w.rc, nowMs * 1000, params)
    ensures var (rc, seen) := Seen(w, params);
      var e := Observe(w, nowMs, params);
      Next(w, Run(nowMs, params)).manager ==
        if !e.requested then seen
        else if e.armed then Updated(seen, RequestDisarm, params.arm)
        else Updated(seen.(safety := Safety(rc, params.armThreshold)), RequestArm, params.arm)
  {
    hide Updated, Healthy, StickValue, SwitchValue;
  }

  ghost predicate AllPossible(w: World, actions: seq<Action>)
    requires w.rc.Shaped()
    decreases |actions|
  {
    actions == [] || (Possible(w, actions[0]) && AllPossible(Next(w, actions[0]), actions[1..]))
  }

  function Play(w: World, actions: seq<Action>): (r: World)
    requires w.rc.Shaped() && AllPossible(w, actions)
    ensures r.rc.Shaped()
    decreases |actions|
  {
    if actions == [] then w else Play(Next(w, actions[0]), actions[1..])
  }

  lemma {:induction false} PlayFits(w: World, actions: seq<Action>)
    requires TimerFits(w) && AllPossible(w, actions)
    ensures TimerFits(Play(w, actions))
    decreases |actions|
  {
    hide Next, Possible;
    if actions != [] {
      NextFits(w, actions[0]);
      PlayFits(Next(w, actions[0]), actions[1..]);
    }
  }

  /** A receiver straight from its constructor, with no Arm switch mapped. */
  predicate FreshWithoutArmSwitch(w: World) {
    && w.rc.Shaped() && !w.rc.SwitchMapped(ARM_SWITCH)
    && w.rc.prevTimeMs == 0 && w.rc.timerMs == 0 && w.log == []
  }

  /**
  In every run from a fresh receiver, whatever packets and events come between: a healthy run asks
  to arm or disarm exactly when, from some restart of the hold (or from time 0) more than 1000 ms
  earlier, this and every healthy run since has had the sticks in the corner for its armed state.
  */
  lemma RequestNeedsHold(start: World, actions: seq<Action>, i: nat) returns (z: nat)
    requires FreshWithoutArmSwitch(start) && AllPossible(start, actions)
    requires i < |Play(start, actions).log|
    ensures var log := Play(start, actions).log;
      && z <= i && (z > 0 ==> Restarts(log[z - 1]))
      && (forall j :: z <= j < i ==> log[j].corner && !Restarts(log[j]))
      && (log[i].requested <==> log[i].corner && log[i].nowMs - LastTime(log[..z]) > 1000)
  {
    hide Next, Possible, Play;
    var log := Play(start, actions).log;
    PlayFits(start, actions);
    z := HeldSince(log[..i]);
    assert log[..i][..z] == log[..z];
    assert forall j :: 0 <= j < i ==> log[..i][j] == log[j];
  }

  lemma {:induction false} HeldSince(log: seq<HealthyRun>) returns (z: nat)
    ensures z <= |log| && HeldFrom(log) == LastTime(log[..z]) && (z > 0 ==> Restarts(log[z - 1]))
    ensures forall j :: z <= j < |log| ==> log[j].corner && !Restarts(log[j])
    decreases |log|
  {
    if log == [] {
      z := 0;
    } else if Restarts(log[|log| - 1]) {
      z := |log|;
      assert log[..z] == log;
    } else {
      z := HeldSince(log[..|log| - 1]);
      assert log[..|log| - 1][..z] == log[..z];
    }
  }

  /** The hold counts from time 0: the very first healthy run can already ask, with no earlier run in the corner. */
  lemma FirstRunCanAsk(start: World, nowMs: nat, params: RcParams)
    requires FreshWithoutArmSwitch(start) && nowMs <= U32_MAX && Healthy(start.rc, nowMs * 1000, params)
    ensures Observe(start, nowMs, params).requested <==> Observe(start, nowMs, params).corner && nowMs > 1000
  {
    hide Updated, Healthy, StickValue, SwitchValue;
  }
}
