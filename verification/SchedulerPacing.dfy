/** The rate bound of one stream over whole runs of the scheduler. */
module SchedulerPacing {
  import opened Wrappers
  import opened Telemetry
  import opened TelemetryDrain
  import opened TelemetryFreshness
  import opened TelemetryRuns

  /** An operation that reconfigures nothing and does not bypass the rate gate of the IMU. */
  predicate Paced(op: Op) {
    !op.RatesOp? && !op.ParamOp? && !(op.GateOp? && op.gate.FreshSample? && op.stream.Imu?)
  }

  /** The stream was left alone, or it was due and its phase moved as the gate prescribes, with one message. */
  predicate PacedEffect(c: Comm, c': Comm, s: Stream, now: u64, sensors: Sensors) {
    && c'.rates == c.rates
    && (|| (c'.last.Get(s) == c.last.Get(s) && |Emitted(c'.trace, s)| == |Emitted(c.trace, s)|)
        || (&& StreamDue(now, c.last.Get(s), c.rates.Get(s)).0
            && c'.last.Get(s) == StreamDue(now, c.last.Get(s), c.rates.Get(s)).1
            && |Emitted(c'.trace, s)| == |Emitted(c.trace, s)| + 1))
  }

  lemma DueByRate(c: Comm, s: Stream, now: u64, sensors: Sensors)
    requires IsSensor(s) && !ByCadence(c, s) && Due(c, s, now, sensors)
    ensures StreamDue(now, c.last.Get(s), c.rates.Get(s)).0
    ensures NewLast(c, s, now) == StreamDue(now, c.last.Get(s), c.rates.Get(s)).1
    ensures sensors.Sample(s).Some?
  {
    hide Interval;
    PredictionAgrees(now, c.last.Get(s), c.rates.Get(s));
  }

  lemma IfDuePaced(c: Comm, x: Stream, s: Stream, now: u64, sensors: Sensors)
    requires IsSensor(s) && !ByCadence(c, s)
    ensures PacedEffect(c, SendIfDue(c, x, now, sensors).0, s, now, sensors)
  {
    hide Emitted, StreamDue, SendSelected, NewLast, NewFreshness;
    if Due(c, x, now, sensors) {
      DueIsSent(c, x, now, sensors);
      Snoc(c.trace, Record(x, sensors.Sample(x), true), s);
      if x == s {
        DueByRate(c, s, now, sensors);
      }
    }
  }

  lemma BulkPaced(c: Comm, s: Stream, now: u64, sensors: Sensors)
    requires IsSensor(s) && !ByCadence(c, s)
    ensures PacedEffect(c, Bulk(c, now, sensors), s, now, sensors)
  {
    hide Emitted, StreamDue, BulkAmong, NewLast, NewFreshness, Due;
    BulkEmitsDue(c, s, now, sensors);
    BulkOrderComplete(s);
    BulkAmongEffect(c, BULK_ORDER, s, now, sensors);
    if Due(c, s, now, sensors) {
      DueByRate(c, s, now, sensors);
    }
  }

  lemma StepPaced(c: Comm, op: Op, s: Stream)
    requires IsSensor(s) && !ByCadence(c, s) && Paced(op)
    ensures PacedEffect(c, Step(c, op), s, op.now, op.sensors)
  {
    hide Emitted, StreamDue, Bulk, SendIfDue, Select, SendOne;
    match op
    case BulkOp(now, sensors) => BulkPaced(c, s, now, sensors);
    case OneOp(now, sensors) =>
      OneIsIfDue(c, now, sensors);
      if Select(c, now, sensors).Some? {
        IfDuePaced(c, Select(c, now, sensors).value, s, now, sensors);
      }
    case IfDueOp(x, now, sensors) => IfDuePaced(c, x, s, now, sensors);
    case GateOp(x, gate, now, sensors) => IfDuePaced(c, x, s, now, sensors);
  }

  /** The phase is a whole number of intervals after t0. */
  predicate OnGrid(last: u64, t0: u64, rate: u16)
    requires rate != 0
  {
    t0 <= last && last == Advance(t0, Steps(last, t0, rate), rate)
  }

  lemma GridMoves(t0: u64, last: u64, now: u64, rate: u16)
    requires rate != 0 && OnGrid(last, t0, rate) && last <= now
    requires Advance(last, Steps(now, last, rate), rate) <= now
    ensures var after := Advance(last, Steps(now, last, rate), rate);
      OnGrid(after, t0, rate) && Steps(after, t0, rate) == Steps(last, t0, rate) + Steps(now, last, rate)
  {
    hide Interval;
    var interval := Interval(rate);
    var k, m := Steps(last, t0, rate), Steps(now, last, rate);
    var after := Advance(last, m, rate);
    assert (k + m) * interval == k * interval + m * interval;
    QuotientUnique(after - t0, interval, k + m);
  }

  ghost predicate PacedRunFrom(ops: seq<Op>, t0: u64) {
    && (forall op :: op in ops ==> Paced(op))
    && (forall i :: 0 <= i < |ops| ==> !ops[i].RatesOp? && t0 <= ops[i].now)
    && forall i, j :: 0 <= i < j < |ops| ==> ops[i].now <= ops[j].now
  }

  /**
  From a phase t0 > 0, over any interleaving of bulk, one-stream, if-due and gated sends at
  non-decreasing times: the phase stays on the grid of t0 and is never in the future, and the stream
  sends at most once per interval elapsed.
  */
  lemma {:induction false} RunPaced(c: Comm, ops: seq<Op>, s: Stream, t0: u64)
    requires IsSensor(s) && 0 < c.rates.Get(s) < DISABLED
    requires c.last.Get(s) == t0 && t0 > 0 && PacedRunFrom(ops, t0)
    ensures var (c', rate, now) := (Run(c, ops), c.rates.Get(s), if |ops| == 0 then t0 else ops[|ops| - 1].now);
      && c'.rates == c.rates && OnGrid(c'.last.Get(s), t0, rate) && c'.last.Get(s) <= now
      && |Emitted(c'.trace, s)| - |Emitted(c.trace, s)| <= Steps(c'.last.Get(s), t0, rate) <= Steps(now, t0, rate)
    decreases |ops|
  {
    hide Emitted, StreamDue, Step, Steps, OnGrid;
    var rate := c.rates.Get(s);
    if |ops| == 0 {
      StartOnGrid(t0, rate);
    } else {
      var n := |ops| - 1;
      assert forall op :: op in ops[..n] ==> op in ops;
      RunPaced(c, ops[..n], s, t0);
      assert ops[n] in ops;
      var before := Run(c, ops[..n]);
      StepPaced(before, ops[n], s);
      GridTurn(t0, before.last.Get(s), ops[n].now, rate, Run(c, ops).last.Get(s));
    }
  }

  /** In hertz: the stream sends no more than its rate allows. */
  lemma {:induction false} RunInHertz(c: Comm, ops: seq<Op>, s: Stream, t0: u64)
    requires IsSensor(s) && 0 < c.rates.Get(s) < DISABLED
    requires c.last.Get(s) == t0 && t0 > 0 && PacedRunFrom(ops, t0)
    ensures var (c', rate, now) := (Run(c, ops), c.rates.Get(s), if |ops| == 0 then t0 else ops[|ops| - 1].now);
      t0 <= now && WithinRate(|Emitted(c'.trace, s)| - |Emitted(c.trace, s)|, now - t0, rate)
  {
    hide Run, Emitted, Steps, Interval, WithinRate, Advance;
    RunPaced(c, ops, s, t0);
    var now := if |ops| == 0 then t0 else ops[|ops| - 1].now;
    StepsInHertz(now, t0, c.rates.Get(s), |Emitted(Run(c, ops).trace, s)| - |Emitted(c.trace, s)|);
  }

  /** One turn of the gate, or none, keeps the phase on the grid and not in the future. */
  lemma GridTurn(t0: u64, last: u64, now: u64, rate: u16, after: u64)
    requires 0 < rate < DISABLED && t0 > 0 && OnGrid(last, t0, rate) && last <= now
    requires after == last || StreamDue(now, last, rate) == (true, after)
    ensures OnGrid(after, t0, rate) && after <= now && Steps(after, t0, rate) <= Steps(now, t0, rate)
    ensures StreamDue(now, last, rate) == (true, after) ==> Steps(last, t0, rate) + 1 <= Steps(after, t0, rate)
  {
    hide StreamDue, Advance, Steps;
    if StreamDue(now, last, rate) == (true, after) {
      DueMovesPhase(now, last, rate);
      GridMoves(t0, last, now, rate);
    }
    StepsMonotone(t0, after, now, rate);
  }

  lemma StartOnGrid(t0: u64, rate: u16)
    requires rate != 0
    ensures OnGrid(t0, t0, rate) && Steps(t0, t0, rate) == 0
  {
    hide Interval;
    StepsPositive(0, Interval(rate));
  }

  lemma StepsMonotone(t0: u64, a: u64, b: u64, rate: u16)
    requires rate != 0 && t0 <= a <= b
    ensures Steps(a, t0, rate) <= Steps(b, t0, rate)
  {
    hide Interval;
    QuotientMonotone(a - t0, b - t0, Interval(rate));
  }

  lemma QuotientMonotone(d: nat, e: nat, interval: nat)
    requires d <= e && interval > 0
    ensures d / interval <= e / interval
  {
    DivideSteps(d, interval);
    DivideSteps(e, interval);
    if d / interval > e / interval {
      MulMonotone(e / interval + 1, interval, d / interval, interval);
    }
  }

  // ---------- The fixed-rate streams ----------

  /** Having been sent, heartbeat or status waits a whole period of its rate. */
  lemma FixedWaits(c: Comm, s: Stream, now: u64, later: u64, sensors: Sensors, next: Sensors)
    requires !IsSensor(s) && Due(c, s, now, sensors) && now <= later && 0 < c.rates.Get(s) < DISABLED
    ensures var c' := SendSelected(c, s, DueDeadline, now, sensors).0;
      Due(c', s, later, next) <==> (later - now + 1) * c.rates.Get(s) > MICROS_PER_SECOND
  {
    hide FixedDue, FixedDeadline;
    DueIsSent(c, s, now, sensors);
    PredictionAgrees(later, now, c.rates.Get(s));
    GateInHertz(later, now, c.rates.Get(s));
  }

  /** From the start: the heartbeat is due after a second, the status after a tenth, a sensor at its first sample. */
  lemma StartRates(start: u64, now: u64, sensors: Sensors, s: Stream)
    requires start <= now
    ensures Due(Started(start), Heartbeat, now, sensors) <==> now - start >= 1_000_000
    ensures Due(Started(start), Status, now, sensors) <==> now - start >= 100_000
    ensures IsSensor(s) ==> (Due(Started(start), s, now, sensors) <==> sensors.Sample(s).Some?)
  {}

  /** And OUTPUT_RAW follows every eighth IMU sample of the bulk path. */
  lemma EveryEighth(start: u64, samples: seq<u64>, now: u64, sensors: Sensors)
    requires NeighboursDiffer(samples) && |samples| < U64_MAX
    ensures CadenceSent(Started(start), samples, now, sensors).1 == (|samples| + 7) / 8
  {
    hide CadenceSent;
    EveryDivisorth(Started(start), samples, now, sensors);
  }
}
