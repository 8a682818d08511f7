/** A flight on which the change to a multirotor is lost, and a failsafe throttle out of range is flown. */
module LostChange {
  import opened Wrappers
  import opened StateMachine
  import opened RemoteControl
  import opened Command
  import opened ParamService
  import opened Vehicle

  /** Four sticks on the first channels, the throttle one-sided on channel 2, and an arm switch on channel 4. */
  const PILOT_STICKS: seq<StickConfig> :=
    [StickConfig(0, false), StickConfig(1, false), StickConfig(3, false), StickConfig(2, true)]
  const PILOT_SWITCHES: seq<SwitchConfig> :=
    [SwitchConfig(4, true, 1)] + seq(4, _ => SwitchConfig(-1, false, 1))

  const PILOT_RC := RcState(
    seq(CHANNELS, _ => 0.0), 0, 0, false, false, false, PILOT_STICKS, PILOT_SWITCHES,
    seq(STICKS, _ => 0.0), seq(SWITCHES, _ => false), 0, 0)

  /** Throttle down, arm switch on. */
  const ARMING_PACKET := Packet(1000, seq(RC_PACKET_CHANNELS, i => if i == 2 then 0.0 else if i == 4 then 1.0 else 0.5),
                                RC_PACKET_CHANNELS, false)

  const PILOT_PARAMS := RcParams(5, 0.15, ArmParams(false, false, true))

  function FixedWingParams(throttle: real): Params {
    Params(true, throttle, 2, true, 1.0, 1.0, 0.0, 1.0, 1.0, 0.1, 200, 100, true, false, PILOT_PARAMS)
  }

  /** Eight changes of another parameter, and then the change to a multirotor. */
  function OtherChanges(p: Params, n: nat): seq<Write> {
    seq(n, i requires 0 <= i < n => SetOther(p.(maxRoll := (i + 1) as real)))
  }

  lemma {:induction false} OthersFill(p: Params, n: nat)
    requires n <= PARAM_CHANGED_QUEUE_CAPACITY
    ensures var (after, events) := WrittenAll(p, NO_EVENTS, OtherChanges(p, n), false);
      && after.(maxRoll := p.maxRoll) == p
      && events == Events(seq(n, _ => OtherId), false)
    decreases n
  {
    if n > 0 {
      assert OtherChanges(p, n)[..n - 1] == OtherChanges(p, n - 1);
      OthersFill(p, n - 1);
      assert seq(n - 1, _ => OtherId) + [OtherId] == seq(n, _ => OtherId);
    }
  }

  lemma LoadedWhileFull(w: World)
    requires w.events == NO_EVENTS && !w.manager.machine.IsArmed()
    ensures var after := Serviced(w, OtherChanges(w.params, 8) + [SetFixedWing(false)]);
      && after.command == w.command && after.manager == w.manager && after.rc == w.rc && after.events == NO_EVENTS
      && after.params.(maxRoll := w.params.maxRoll) == w.params.(fixedWing := false)
  {
    var others := OtherChanges(w.params, 8);
    OthersFill(w.params, 8);
    assert (others + [SetFixedWing(false)])[..8] == others;
    var (params, events) := WrittenAll(w.params, w.events, others + [SetFixedWing(false)], false);
    assert events.changes == seq(8, _ => OtherId);
    ReactedWithout(w.command, w.manager, params, events.changes);
  }

  lemma PilotHealthy(rc: RcState)
    requires rc == PILOT_RC
    ensures rc.Shaped() && Healthy(Received(rc, ARMING_PACKET), 1000, PILOT_PARAMS)
  {}

  lemma PilotArms(rc: RcState, safety: ArmingSafety)
    requires rc == PILOT_RC
    ensures rc.Shaped()
    ensures var r := Processed(Received(rc, ARMING_PACKET)).(newCommand := true);
      var m := Manager(Machine(Preflight, {}), safety);
      Updated(m, ErrorCleared({RC_LOST}), PILOT_PARAMS.arm) == m
      && LookForArming(r, m, 1, PILOT_PARAMS).1.machine == Machine(Armed, {})
  {
    var r := Processed(Received(rc, ARMING_PACKET)).(newCommand := true);
    assert r.SwitchMapped(ARM_SWITCH) && r.SwitchOn(ARM_SWITCH);
    assert r.Stick(STICK_F) == 0.0;
    assert {} - {RC_LOST} == {};
  }

  lemma ArmingCycle(w: World)
    requires w.Shaped() && w.rc == PILOT_RC && w.params.rc == PILOT_PARAMS
    requires w.manager.machine == Machine(Preflight, {})
    ensures var after := Cycled(w, 1, Some(ARMING_PACKET));
      && after.manager.machine == Machine(Armed, {}) && after.rc.timestamp == 1000
      && after.params.fixedWing == w.params.fixedWing
      && after.command.multirotorFailsafe == w.command.multirotorFailsafe
  {
    hide Received, Processed, LookForArming, Healthy, Updated;
    PilotHealthy(w.rc);
    PilotArms(w.rc, w.manager.safety);
    CycleParts(w, 1, Some(ARMING_PACKET));
    HealthKept(w, 1, Some(ARMING_PACKET));
    ArmedReplays(RcStage(w, 1, Some(ARMING_PACKET)).1, w.params.rc.arm);
    CycleKeepsTimestamp(w, 1, Some(ARMING_PACKET));
  }

  lemma ArmedReplays(m: Manager, p: ArmParams)
    requires m.machine == Machine(Armed, {})
    ensures Replay(m, p) == m
  {
    assert m.machine.flags - {} == m.machine.flags;
  }

  lemma CycleKeepsTimestamp(w: World, nowMs: nat, packet: Option<Packet>)
    requires w.Shaped() && WellFormed(packet)
    ensures Cycled(w, nowMs, packet).rc.timestamp == if packet.Some? then packet.value.timestamp else w.rc.timestamp
  {
    hide Healthy, Updated, Prepared, Muxed, StickValue, SwitchValue;
  }

  /**
  Booted as a fixed wing with a failsafe throttle out of range, loaded with nine changes of which the
  change to a multirotor comes last, armed, and then silent: the vehicle flies that throttle.
  */
  lemma UnheardChangeFlies(throttle: real)
    requires !Fraction(throttle)
    ensures PILOT_RC.Shaped()
    ensures var hs := [Service(OtherChanges(FixedWingParams(throttle), 8) + [SetFixedWing(false)]),
                       Cycle(1, Some(ARMING_PACKET)), Cycle(1000, None)];
      && AllPossible(hs)
      && var after := Flight(Booted(PILOT_RC, FixedWingParams(throttle)), hs);
         && after.manager.machine.mode == Failsafe && !after.params.fixedWing
         && after.command.combined.fz.value == throttle && !FliesSafely(after)
  {
    hide Cycled, Serviced, Healthy;
    var p := FixedWingParams(throttle);
    var hs := [Service(OtherChanges(p, 8) + [SetFixedWing(false)]), Cycle(1, Some(ARMING_PACKET)), Cycle(1000, None)];
    PilotBooted(throttle);
    var w0 := Booted(PILOT_RC, p);
    var w1, w2 := Take(w0, hs[0]), Take(Take(w0, hs[0]), hs[1]);
    LoadedWhileFull(w0);
    ArmingCycle(w1);
    BootReady(PILOT_RC, p);
    TakeReady(w0, hs[0]);
    TakeReady(w1, hs[1]);
    SilentTooLong(w2);
    LostLinkCycle(w2, 1000, None);
    ThreeTaken(w0, hs);
  }

  lemma SilentTooLong(w: World)
    requires w.Shaped() && w.rc.timestamp == 1000
    ensures !LinkHealthy(w, 1000, None)
  {}

  lemma ThreeTaken(w: World, hs: seq<Happening>)
    requires w.Shaped() && AllPossible(hs) && |hs| == 3
    ensures Flight(w, hs) == Take(Take(Take(w, hs[0]), hs[1]), hs[2])
  {
    hide Take, Possible;
    assert hs[..2][..1] == hs[..1] && hs[..1][..0] == [];
    assert hs[..1][0] == hs[0] && hs[..2][1] == hs[1];
    assert Flight(w, hs[..1]) == Take(w, hs[0]);
    assert Flight(w, hs[..2]) == Take(Take(w, hs[0]), hs[1]);
  }

  lemma PilotBooted(throttle: real)
    ensures PILOT_RC.Shaped()
    ensures var w := Booted(PILOT_RC, FixedWingParams(throttle));
      && w.manager.machine == Machine(Preflight, {}) && w.events == NO_EVENTS && w.rc == PILOT_RC
      && w.command.multirotorFailsafe.fz.value == throttle && w.params == FixedWingParams(throttle)
  {
    assert {} - {INVALID_FAILSAFE} == {};
  }
}
