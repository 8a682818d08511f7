/** Rate bounds, earliest-deadline draining and freshness over runs of the telemetry scheduler. */
module TelemetryRuns {
  import opened Wrappers
  import opened Telemetry

  // ---------- The gate in hertz ----------

  /** The interval is the whole number of microseconds in one period, and no other number. */
  lemma IntervalInHertz(rate: u16)
    requires rate != 0
    ensures Interval(rate) * rate <= MICROS_PER_SECOND < (Interval(rate) + 1) * rate
  {
    var q := MICROS_PER_SECOND / rate;
    assert MICROS_PER_SECOND == rate * q + MICROS_PER_SECOND % rate;
  }

  lemma LongerThanPeriod(d: nat, interval: nat, rate: nat)
    requires interval * rate <= MICROS_PER_SECOND < (interval + 1) * rate
    ensures d >= interval <==> (d + 1) * rate > MICROS_PER_SECOND
  {
    if d >= interval {
      MulMonotone(interval + 1, rate, d + 1, rate);
    } else {
      MulMonotone(d + 1, rate, interval, rate);
    }
  }

  /** At a positive rate both gates open once more than a second's worth of periods has passed, to the microsecond. */
  lemma GateInHertz(now: u64, last: u64, rate: u16)
    requires 0 < rate < DISABLED && last <= now
    ensures FixedDue(now, last, rate) <==> (now - last + 1) * rate > MICROS_PER_SECOND
    ensures last > 0 ==> (StreamDue(now, last, rate).0 <==> (now - last + 1) * rate > MICROS_PER_SECOND)
  {
    hide Interval;
    IntervalInHertz(rate);
    LongerThanPeriod(now - last, Interval(rate), rate);
  }

  /** No more sends in a span than the rate allows, but for the rounding of the period to whole microseconds. */
  predicate WithinRate(sends: int, span: nat, rate: u16) {
    sends * (MICROS_PER_SECOND + 1 - rate) <= span * rate
  }

  /** A send in every whole interval of a span is at most that many periods of the rate, short of rounding. */
  lemma StepsInHertz(now: u64, t0: u64, rate: u16, sends: int)
    requires 0 < rate < DISABLED && t0 <= now && sends <= Steps(now, t0, rate)
    ensures WithinRate(sends, now - t0, rate)
  {
    hide Interval;
    var interval := Interval(rate);
    IntervalInHertz(rate);
    DivideSteps(now - t0, interval);
    if sends > 0 {
      MulMonotone(sends, interval, Steps(now, t0, rate), interval);
      assert interval * rate >= MICROS_PER_SECOND + 1 - rate by {
        assert (interval + 1) * rate == interval * rate + rate;
      }
      MulMonotone(sends, MICROS_PER_SECOND + 1 - rate, sends, interval * rate);
      MulNonNegative(sends, interval);
      MulMonotone(sends * interval, rate, now - t0, rate);
      Reassociate(sends, interval, rate);
    } else {
      NegativeTimes(sends, MICROS_PER_SECOND + 1 - rate);
      MulNonNegative(now - t0, rate);
    }
  }

  lemma Reassociate(a: nat, b: nat, c: nat)
    ensures a * (b * c) == (a * b) * c
  {}

  lemma NegativeTimes(a: int, b: nat)
    requires a <= 0
    ensures a * b <= 0
  {}

  lemma AgeInHertz(now: u64, last: u64, rate: u16)
    requires 0 < rate < DISABLED && last <= now < last + Interval(rate)
    ensures (now - last + 1) * rate <= MICROS_PER_SECOND
  {
    hide Interval;
    IntervalInHertz(rate);
    MulMonotone(now - last + 1, rate, Interval(rate), rate);
  }

  /** The rates that are no frequency: a disabled gate never opens, and at rate 0 it is always open. */
  lemma GateExtremes(now: u64, last: u64)
    ensures !StreamDue(now, last, DISABLED).0 && !FixedDue(now, last, DISABLED)
    ensures StreamDue(now, last, 0).0 && FixedDue(now, last, 0)
  {}

  /** The first question to a sensor stream opens the gate at once, and its phase starts there. */
  lemma FirstQuestion(now: u64, rate: u16)
    requires rate != DISABLED
    ensures StreamDue(now, 0, rate) == (true, now)
  {}

  /**
  A parameter between 1 and the maximum is a rate in hertz, 0 stays 0, anything negative disables, and
  more is capped.
  */
  lemma ParameterMeans(value: int)
    ensures RateParam(value) == DISABLED <==> value < 0
    ensures 0 <= value <= 2000 ==> RateParam(value) == value
    ensures value > 2000 ==> RateParam(value) == 2000
  {}

  /** A deadline is the least time at which the gate answers yes. */
  lemma DeadlineIsLeast(now: u64, last: u64, rate: u16, earlier: u64)
    requires 0 < rate < DISABLED && 0 < last
    ensures var d := StreamDeadline(now, last, rate);
      d.Some? ==>
        && d.value <= now && StreamDue(d.value, last, rate).0
        && (earlier < d.value ==> !StreamDue(earlier, last, rate).0)
    ensures var d := FixedDeadline(now, last, rate);
      d.Some? ==>
        && d.value <= now && FixedDue(d.value, last, rate)
        && (earlier < d.value ==> !FixedDue(earlier, last, rate))
  {
    hide Interval;
  }

  // ---------- Rate bound and phase ----------

  /** The phase after the gate has been asked at each of `times`, and how often it said yes. */
  function Asked(last: u64, rate: u16, times: seq<u64>): (u64, nat) {
    if |times| == 0 then (last, 0)
    else
      var n := |times| - 1;
      var (before, sends) := Asked(last, rate, times[..n]);
      var (due, after) := StreamDue(times[n], before, rate);
      (after, sends + if due then 1 else 0)
  }

  ghost predicate NonDecreasing(times: seq<u64>) {
    forall i, j :: 0 <= i < j < |times| ==> times[i] <= times[j]
  }

  lemma DivideSteps(d: nat, interval: nat)
    requires interval > 0
    ensures (d / interval) * interval <= d < (d / interval) * interval + interval
  {}

  lemma StepsPositive(d: nat, interval: nat)
    requires interval > 0
    ensures d / interval >= 1 <==> d >= interval
    ensures d < interval ==> d / interval == 0
  {
    DivideSteps(d, interval);
    if d / interval >= 1 {
      MulMonotone(1, interval, d / interval, interval);
    }
  }

  function Steps(now: u64, last: u64, rate: u16): nat
    requires rate != 0 && last <= now
  {
    (now - last) / Interval(rate)
  }

  function Advance(last: nat, steps: nat, rate: u16): nat
    requires rate != 0
  {
    MulNonNegative(steps, Interval(rate));
    last + steps * Interval(rate)
  }

  /** One answer moves the phase by the whole intervals elapsed, to within one interval of now. */
  lemma DueMovesPhase(now: u64, last: u64, rate: u16)
    requires 0 < rate < DISABLED && 0 < last <= now
    ensures var (due, after) := StreamDue(now, last, rate);
      && after == Advance(last, Steps(now, last, rate), rate) && after <= now < after + Interval(rate)
      && (due <==> Steps(now, last, rate) >= 1)
  {
    hide Interval;
    var interval := Interval(rate);
    DivideSteps(now - last, interval);
    StepsPositive(now - last, interval);
  }

  /**
  After a first send at t0 > 0, at any sequence of later calls: the phase stays a whole number of
  intervals after t0, is never in the future and never a whole period old, and at most one send per
  elapsed interval is allowed on top of the first, which in hertz is no more than the rate allows.
  */
  lemma {:induction false} RateBound(t0: u64, rate: u16, times: seq<u64>)
    requires 0 < rate < DISABLED && t0 > 0 && NonDecreasing([t0] + times)
    ensures var now := ([t0] + times)[|times|];
      var (last, sends) := Asked(t0, rate, times);
      && t0 <= now && last == Advance(t0, Steps(now, t0, rate), rate)
      && last <= now < last + Interval(rate) && sends <= Steps(now, t0, rate)
      && (now - last + 1) * rate <= MICROS_PER_SECOND && WithinRate(sends, now - t0, rate)
    decreases |times|
  {
    hide Interval;
    if |times| == 0 {
      StepsPositive(0, Interval(rate));
      AgeInHertz(t0, t0, rate);
    } else {
      var n := |times| - 1;
      var all, before := [t0] + times, [t0] + times[..n];
      assert forall i :: 0 <= i <= n ==> before[i] == all[i];
      RateBound(t0, rate, times[..n]);
      assert all[0] <= all[n + 1] && all[n] <= all[n + 1];
      var (last, sends) := Asked(t0, rate, times[..n]);
      DueMovesPhase(times[n], last, rate);
      StepsAdd(t0, before[n], times[n], rate);
      var (after, count) := Asked(t0, rate, times);
      AgeInHertz(times[n], after, rate);
      StepsInHertz(times[n], t0, rate, count);
    }
  }

  /** Advancing in two moves is advancing in one. */
  lemma StepsAdd(t0: u64, t1: u64, t2: u64, rate: u16)
    requires rate != 0 && t0 <= t1 <= t2 && Advance(t0, Steps(t1, t0, rate), rate) <= t1
    ensures var last := Advance(t0, Steps(t1, t0, rate), rate);
      && Advance(last, Steps(t2, last, rate), rate) == Advance(t0, Steps(t2, t0, rate), rate)
      && Steps(t2, t0, rate) == Steps(t1, t0, rate) + Steps(t2, last, rate)
  {
    hide Interval;
    var interval := Interval(rate);
    var last := Advance(t0, Steps(t1, t0, rate), rate);
    var k, m := Steps(t1, t0, rate), Steps(t2, last, rate);
    assert (k + m) * interval == k * interval + m * interval;
    DivideSteps(t2 - last, interval);
    QuotientUnique(t2 - t0, interval, k + m);
  }

  lemma QuotientUnique(d: nat, interval: nat, steps: nat)
    requires interval > 0 && steps * interval <= d < steps * interval + interval
    ensures d / interval == steps
  {
    DivideSteps(d, interval);
    var q := d / interval;
    if q < steps {
      MulMonotone(q + 1, interval, steps, interval);
    } else if q > steps {
      MulMonotone(steps + 1, interval, q, interval);
    }
  }
}
