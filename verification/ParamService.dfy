/** Parameter writes, the bounded queue of their change events, and the reaction that rebuilds the failsafe commands. */
module ParamService {
  import opened StateMachine
  import opened Command

  const PARAM_CHANGED_QUEUE_CAPACITY := 8

  /** The parameters the failsafe reaction listens to, and all others. */
  datatype ParamId = FailsafeThrottleId | FixedWingId | OtherId

  /** The pending change events and the request to refresh everything. */
  datatype Events = Events(changes: seq<ParamId>, fullRefresh: bool)

  const NO_EVENTS := Events([], false)

  /** `push_or_log`: an event that finds the queue full is dropped. */
  function Pushed(e: Events, id: ParamId): (r: Events)
    ensures |e.changes| <= PARAM_CHANGED_QUEUE_CAPACITY ==> |r.changes| <= PARAM_CHANGED_QUEUE_CAPACITY
  {
    if |e.changes| < PARAM_CHANGED_QUEUE_CAPACITY then e.(changes := e.changes + [id]) else e
  }

  /**
  One write of the service stage.  `Reload` replaces every value, which is refused while armed.  A
  request for the value already stored changes nothing and is no write.
  */
  datatype Write =
    | SetFailsafeThrottle(throttle: real)
    | SetFixedWing(fixedWing: bool)
    | SetOther(values: Params)
    | Reload(values: Params)

  function Target(x: Write): ParamId {
    match x
    case SetFailsafeThrottle(_) => FailsafeThrottleId
    case SetFixedWing(_) => FixedWingId
    case SetOther(_) => OtherId
    case Reload(_) => OtherId
  }

  function Stored(p: Params, x: Write): Params {
    match x
    case SetFailsafeThrottle(v) => p.(failsafeThrottle := v)
    case SetFixedWing(v) => p.(fixedWing := v)
    case SetOther(values) => values.(fixedWing := p.fixedWing, failsafeThrottle := p.failsafeThrottle)
    case Reload(values) => values
  }

  function Written(p: Params, e: Events, x: Write, armed: bool): (r: (Params, Events))
    ensures |e.changes| <= PARAM_CHANGED_QUEUE_CAPACITY ==> |r.1.changes| <= PARAM_CHANGED_QUEUE_CAPACITY
  {
    if !x.Reload? then (Stored(p, x), Pushed(e, Target(x)))
    else if armed then (p, e)
    else (Stored(p, x), e.(fullRefresh := true))
  }

  function WrittenAll(p: Params, e: Events, xs: seq<Write>, armed: bool): (r: (Params, Events))
    ensures |e.changes| <= PARAM_CHANGED_QUEUE_CAPACITY ==> |r.1.changes| <= PARAM_CHANGED_QUEUE_CAPACITY
  {
    if |xs| == 0 then (p, e)
    else
      var (before, events) := WrittenAll(p, e, xs[..|xs| - 1], armed);
      Written(before, events, xs[|xs| - 1], armed)
  }

  predicate Relevant(id: ParamId) {
    id != OtherId
  }

  /** `command_on_param_changed`: every delivered change of a failsafe parameter rebuilds the commands. */
  function ReactedTo(s: State, m: Manager, p: Params, changes: seq<ParamId>): (r: (State, Manager))
    ensures r.0.Shaped() == s.Shaped()
  {
    if |changes| == 0 then (s, m)
    else
      var (state, manager) := ReactedTo(s, m, p, changes[..|changes| - 1]);
      if Relevant(changes[|changes| - 1]) then FailsafeConfigured(state, manager, p) else (state, manager)
  }

  /** `apply_param_reactions`, as far as command arbitration is concerned. */
  function Reacted(s: State, m: Manager, p: Params, e: Events): (r: (State, Manager))
    ensures r.0.Shaped() == s.Shaped()
  {
    if e.fullRefresh then FailsafeConfigured(s, m, p) else ReactedTo(s, m, p, e.changes)
  }

  /** The reaction rebuilds the failsafe commands. */
  predicate Reacts(e: Events) {
    e.fullRefresh || FailsafeThrottleId in e.changes || FixedWingId in e.changes
  }

  class ParamEventQueues {
    var changes: seq<ParamId>
    var fullRefresh: bool

    function Value(): Events
      reads this
    {
      Events(changes, fullRefresh)
    }

    constructor ()
      ensures Value() == NO_EVENTS
    {
      changes, fullRefresh := [], false;
    }

    method PushOrLog(id: ParamId) returns (kept: bool)
      modifies `changes
      ensures Value() == Pushed(old(Value()), id) && kept == (|old(changes)| < PARAM_CHANGED_QUEUE_CAPACITY)
    {
      kept := |changes| < PARAM_CHANGED_QUEUE_CAPACITY;
      if kept {
        changes := changes + [id];
      }
    }

    /** The writes of one service stage, in order. */
    method ApplyWrites(params: Params, writes: seq<Write>, armed: bool) returns (after: Params)
      modifies this
      ensures (after, Value()) == WrittenAll(params, old(Value()), writes, armed)
    {
      after := params;
      for i := 0 to |writes|
        invariant (after, Value()) == WrittenAll(params, old(Value()), writes[..i], armed)
      {
        assert writes[..i + 1][..i] == writes[..i];
        var x := writes[i];
        if x.Reload? {
          if !armed {
            after := x.values;
            fullRefresh := true;
          }
        } else {
          after := Stored(after, x);
          var _ := PushOrLog(Target(x));
        }
      }
      assert writes[..|writes|] == writes;
    }

    /** The reaction at the end of the stage; it empties the queue. */
    method ApplyReactions(params: Params, command: CommandManager, state: StateManager)
      requires command.Valid()
      modifies this, command`multirotorFailsafeCommand, command`fixedWingFailsafeCommand, state
      ensures command.Valid() && Value() == NO_EVENTS
      ensures (command.Value(), state.Value())
           == Reacted(old(command.Value()), old(state.Value()), params, old(Value()))
    {
      hide FailsafeConfigured;
      if fullRefresh {
        command.UpdateFailsafeConfig(params, state);
      } else {
        ghost var (s, m) := (command.Value(), state.Value());
        for i := 0 to |changes|
          invariant command.Valid() && Value() == old(Value())
          invariant (command.Value(), state.Value()) == ReactedTo(s, m, params, changes[..i])
        {
          assert changes[..i + 1][..i] == changes[..i];
          if changes[i] == FailsafeThrottleId || changes[i] == FixedWingId {
            command.UpdateFailsafeConfig(params, state);
          }
        }
        assert changes[..|changes|] == changes;
      }
      changes, fullRefresh := [], false;
    }
  }

  // ---------- Which events arrive ----------

  lemma {:induction false} ReactedWithout(s: State, m: Manager, p: Params, changes: seq<ParamId>)
    requires FailsafeThrottleId !in changes && FixedWingId !in changes
    ensures ReactedTo(s, m, p, changes) == (s, m)
    decreases |changes|
  {
    if |changes| > 0 {
      assert changes[|changes| - 1] in changes;
      ReactedWithout(s, m, p, changes[..|changes| - 1]);
    }
  }

  /** FIXED_WING moves without a reaction only when a change of it found the queue full. */
  lemma {:induction false} UnreactedNeedsFullQueue(p: Params, e: Events, xs: seq<Write>, armed: bool)
    requires WrittenAll(p, e, xs, armed).0.fixedWing != p.fixedWing && !Reacts(WrittenAll(p, e, xs, armed).1)
    ensures exists k :: 0 <= k < |xs| && DroppedAt(p, e, xs, armed, k)
    decreases |xs|
  {
    if |xs| > 0 {
      var n := |xs| - 1;
      var (before, events) := WrittenAll(p, e, xs[..n], armed);
      if before.fixedWing != p.fixedWing {
        assert !Reacts(events) by {
          assert events.changes <= WrittenAll(p, e, xs, armed).1.changes;
        }
        UnreactedNeedsFullQueue(p, e, xs[..n], armed);
        var k :| 0 <= k < n && DroppedAt(p, e, xs[..n], armed, k);
        assert xs[..n][..k] == xs[..k];
        assert DroppedAt(p, e, xs, armed, k);
      } else {
        assert |events.changes| >= PARAM_CHANGED_QUEUE_CAPACITY || FixedWingId in Pushed(events, FixedWingId).changes;
        assert DroppedAt(p, e, xs, armed, n);
      }
    }
  }

  /** Write `k` changes FIXED_WING and its event is dropped. */
  predicate DroppedAt(p: Params, e: Events, xs: seq<Write>, armed: bool, k: nat)
    requires k < |xs|
  {
    xs[k].SetFixedWing? && |WrittenAll(p, e, xs[..k], armed).1.changes| >= PARAM_CHANGED_QUEUE_CAPACITY
  }

  /** While the vehicle is armed no reload is accepted, and only the events of single writes are queued. */
  lemma {:induction false} NoReloadWhileArmed(p: Params, e: Events, xs: seq<Write>)
    requires forall x :: x in xs ==> x.Reload?
    ensures WrittenAll(p, e, xs, true) == (p, e)
    decreases |xs|
  {
    if |xs| > 0 {
      assert xs[|xs| - 1] in xs;
      assert forall x :: x in xs[..|xs| - 1] ==> x in xs;
      NoReloadWhileArmed(p, e, xs[..|xs| - 1]);
    }
  }

  /** Unarmed, the last reload decides every value, and the stage refreshes everything. */
  lemma ReloadRefreshes(p: Params, e: Events, xs: seq<Write>, values: Params)
    ensures var (after, events) := WrittenAll(p, e, xs + [Reload(values)], false);
      after == values && events.fullRefresh
  {
    assert (xs + [Reload(values)])[..|xs|] == xs;
  }
}
