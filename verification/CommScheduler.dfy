/** The telemetry scheduler as the firmware runs it: an object that updates its own rate and freshness state. */
module CommScheduler {
  import opened Wrappers
  import opened Telemetry
  import opened TelemetryDrain

  /** The fold over the first k + 1 streams is one more `consider` after the first k. */
  lemma SelectNext(c: Comm, k: nat, now: u64, sensors: Sensors)
    requires k < |ORDER|
    ensures SelectAmong(c, ORDER[..k + 1], now, sensors) ==
      Considered(SelectAmong(c, ORDER[..k], now, sensors), c, ORDER[k], now, sensors)
  {
    assert ORDER[..k + 1][..k] == ORDER[..k];
  }

  function Considered(best: Option<(Stream, u64)>, c: Comm, s: Stream, now: u64, sensors: Sensors)
    : Option<(Stream, u64)>
  {
    match Deadline(c, s, now, sensors)
    case None => best
    case Some(d) => if best.None? || d < best.value.1 then Some((s, d)) else best
  }

  class CommManager {
    var rates: Table<u16>
    var divisor: u64
    var last: Table<u64>
    var freshness: Table<Option<u64>>
    var imuCount: u64
    /** What went out, and what OUTPUT_RAW consumed without sending. */
    ghost var trace: seq<Record>

    ghost function Value(): Comm
      reads this
    {
      Comm(rates, divisor, last, freshness, imuCount, trace)
    }

    constructor (now: u64)
      ensures Value() == Started(now)
    {
      rates, divisor := UPSTREAM_RATES, OUTPUT_RAW_IMU_DIVISOR;
      last := Table(now, now, 0, 0, 0, 0, 0, 0, 0, 0, 0, 0);
      freshness, imuCount, trace := Everywhere(None), 0, [];
    }

    method SetTelemetryRates(newRates: Table<u16>, newDivisor: u64)
      modifies this
      ensures Value() == RatesSet(old(Value()), newRates, newDivisor)
    {
      rates, divisor := newRates, newDivisor;
      last := Table(last.heartbeat, last.status, 0, 0, 0, 0, 0, 0, 0, 0, 0, 0);
      imuCount := 0;
    }

    method UpdateTelemetryParam(s: Stream, value: int, now: u64)
      modifies this
      ensures Value() == ParamUpdated(old(Value()), s, value, now)
    {
      var rate := if value <= -1 then DISABLED else if value < MAX_RATE_HZ then value else MAX_RATE_HZ;
      rates := rates.Set(s, rate);
      last := last.Set(s, now);
      if s.OutputRaw? {
        divisor, imuCount := 0, 0;
      }
    }

    /** `stream_due`, moving the phase of `s` in place. */
    method AskStream(s: Stream, now: u64) returns (due: bool)
      modifies this`last
      ensures due == StreamDue(now, old(last.Get(s)), rates.Get(s)).0
      ensures last == old(last).Set(s, StreamDue(now, old(last.Get(s)), rates.Get(s)).1)
    {
      hide Interval, SatMul;
      SetSame(last, s);
      var rate, phase := rates.Get(s), last.Get(s);
      if rate == DISABLED {
        return false;
      }
      if rate == 0 {
        if phase == 0 {
          last := last.Set(s, now);
        }
        return true;
      }
      var interval := Interval(rate);
      if phase == 0 {
        last := last.Set(s, now);
        return true;
      } else if SatSub(now, phase) >= interval {
        var elapsed := SatSub(now, phase) / interval;
        last := last.Set(s, SatAdd(phase, SatMul(elapsed, interval)));
        return true;
      }
      return false;
    }

    method MarkFresh(s: Stream, timestamp: Option<u64>)
      modifies this`freshness
      ensures freshness == MarkSent(old(freshness), s, timestamp)
    {
      if IsSensor(s) && timestamp.Some? {
        freshness := freshness.Set(s, timestamp);
      }
    }

    method DeadlineOf(s: Stream, now: u64, sensors: Sensors) returns (d: Option<u64>)
      ensures d == Deadline(Value(), s, now, sensors)
    {
      if IsSensor(s) {
        var timestamp := sensors.Sample(s);
        if timestamp.None? || freshness.Get(s) == timestamp {
          return None;
        }
        if s.OutputRaw? && rates.Get(OutputRaw) == 0 {
          return if divisor != 0 && imuCount % divisor == 0 then Some(now) else None;
        }
        return StreamDeadline(now, last.Get(s), rates.Get(s));
      }
      return FixedDeadline(now, last.Get(s), rates.Get(s));
    }

    /** The `consider` closure of the selection. */
    method Consider(selected: Option<Stream>, selectedDeadline: u64, s: Stream, now: u64, sensors: Sensors,
                    ghost c: Comm, ghost k: nat)
      returns (selected': Option<Stream>, selectedDeadline': u64)
      requires k < 12 && Considers(k, s) && c == Value()
      requires BestSoFar(c, k, selected, selectedDeadline, now, sensors)
      ensures BestSoFar(c, k + 1, selected', selectedDeadline', now, sensors)
    {
      hide Deadline, SelectAmong;
      SelectNext(c, k, now, sensors);
      selected', selectedDeadline' := selected, selectedDeadline;
      var deadline := DeadlineOf(s, now, sensors);
      if deadline.Some? {
        if selected.None? || deadline.value < selectedDeadline {
          selected', selectedDeadline' := Some(s), deadline.value;
        }
      }
    }

    /** `select_due_named_telemetry_stream`. */
    method SelectDue(now: u64, sensors: Sensors) returns (selected: Option<Stream>)
      ensures selected == Select(Value(), now, sensors)
    {
      hide Deadline, SelectAmong, BestSoFar, Considers;
      ConsideredStreams();
      var deadline: u64 := U64_MAX;
      selected := None;
      ghost var c := Value();
      NothingSoFar(c, deadline, now, sensors);
      selected, deadline := Consider(selected, deadline, Heartbeat, now, sensors, c, 0);
      selected, deadline := Consider(selected, deadline, Status, now, sensors, c, 1);
      selected, deadline := Consider(selected, deadline, Imu, now, sensors, c, 2);
      selected, deadline := Consider(selected, deadline, Attitude, now, sensors, c, 3);
      selected, deadline := Consider(selected, deadline, OutputRaw, now, sensors, c, 4);
      selected, deadline := Consider(selected, deadline, RcRaw, now, sensors, c, 5);
      selected, deadline := Consider(selected, deadline, Gnss, now, sensors, c, 6);
      selected, deadline := Consider(selected, deadline, DiffPressure, now, sensors, c, 7);
      selected, deadline := Consider(selected, deadline, Baro, now, sensors, c, 8);
      selected, deadline := Consider(selected, deadline, Mag, now, sensors, c, 9);
      selected, deadline := Consider(selected, deadline, Range, now, sensors, c, 10);
      selected, deadline := Consider(selected, deadline, Battery, now, sensors, c, 11);
      AllConsidered(c, selected, deadline, now, sensors);
    }

    /** `named_telemetry_due`. */
    method NamedTelemetryDue(now: u64, sensors: Sensors) returns (due: bool)
      ensures due <==> DueSet(Value(), now, sensors) != {}
    {
      hide Select, Deadline;
      SelectLeast(Value(), now, sensors);
      var selected := SelectDue(now, sensors);
      return selected.Some?;
    }

    /** `send_selected_named_telemetry_stream_with_gate`. */
    method SendSelectedWithGate(s: Stream, gate: Gate, now: u64, sensors: Sensors) returns (sent: bool)
      modifies this
      ensures (Value(), sent) == SendSelected(old(Value()), s, gate, now, sensors)
    {
      hide StreamDue;
      var timestamp := sensors.Sample(s);
      SetSame(last, s);
      if !IsSensor(s) {
        last := last.Set(s, now);
        sent := true;
      } else if timestamp.None? {
        return false;
      } else if s.Imu? && freshness.Get(Imu) == timestamp {
        return false;
      } else if s.Imu? && gate.FreshSample? {
        last := last.Set(Imu, now);
        sent := true;
      } else if s.OutputRaw? {
        if rates.Get(OutputRaw) == 0 {
          sent := divisor != 0 && imuCount % divisor == 0;
        } else {
          sent := AskStream(OutputRaw, now);
        }
        imuCount := if imuCount == U64_MAX then 0 else imuCount + 1;
      } else {
        sent := AskStream(s, now);
      }
      if sent {
        MarkFresh(s, timestamp);
        trace := trace + [Record(s, timestamp, true)];
      }
    }

    /** `send_one_named_telemetry_stream`. */
    method SendOneStream(now: u64, sensors: Sensors) returns (sent: bool)
      modifies this
      ensures (Value(), sent) == SendOne(old(Value()), now, sensors)
    {
      hide Select, SendSelected;
      var selected := SelectDue(now, sensors);
      if selected.None? {
        return false;
      }
      sent := SendSelectedWithGate(selected.value, DueDeadline, now, sensors);
    }

    /** `send_named_telemetry_stream_if_due`. */
    method SendStreamIfDue(s: Stream, now: u64, sensors: Sensors) returns (sent: bool)
      modifies this
      ensures (Value(), sent) == SendIfDue(old(Value()), s, now, sensors)
    {
      hide Deadline, SendSelected;
      var deadline := DeadlineOf(s, now, sensors);
      if deadline.None? {
        return false;
      }
      sent := SendSelectedWithGate(s, DueDeadline, now, sensors);
    }

    /** `send_named_telemetry_stream_with_gate`. */
    method SendStreamWithGate(s: Stream, gate: Gate, now: u64, sensors: Sensors) returns (sent: bool)
      modifies this
      ensures (Value(), sent) == SendWithGate(old(Value()), s, gate, now, sensors)
    {
      hide Deadline, SendSelected;
      match gate
      case DueDeadline =>
        sent := SendStreamIfDue(s, now, sensors);
      case FreshSample =>
        if !s.Imu? {
          sent := SendStreamIfDue(s, now, sensors);
          return;
        }
        sent := SendSelectedWithGate(s, gate, now, sensors);
    }

    /** Heartbeat and status on the bulk path. */
    method BulkFixed(s: Stream, now: u64, sensors: Sensors)
      requires !IsSensor(s)
      modifies this
      ensures Value() == BulkOne(old(Value()), s, now, sensors)
    {
      hide FixedDue;
      if FixedDue(now, last.Get(s), rates.Get(s)) {
        trace := trace + [Record(s, None, true)];
        last := last.Set(s, now);
      }
    }

    /** A sensor stream on the bulk path. */
    method BulkSensor(s: Stream, now: u64, sensors: Sensors)
      requires IsSensor(s)
      modifies this
      ensures Value() == BulkOne(old(Value()), s, now, sensors)
    {
      hide StreamDue;
      SetSame(last, s);
      var timestamp := sensors.Sample(s);
      if timestamp.Some? && freshness.Get(s) != timestamp {
        if s.OutputRaw? && rates.Get(OutputRaw) == 0 {
          var due := divisor != 0 && imuCount % divisor == 0;
          trace := trace + [Record(OutputRaw, timestamp, due)];
          freshness := freshness.Set(OutputRaw, timestamp);
          imuCount := if imuCount == U64_MAX then 0 else imuCount + 1;
        } else {
          var due := AskStream(s, now);
          if due {
            trace := trace + [Record(s, timestamp, true)];
            MarkFresh(s, timestamp);
          }
        }
      }
    }

    /** `send_named_telemetry_streams`, the bulk path. */
    method SendStreams(now: u64, sensors: Sensors)
      modifies this
      ensures Value() == Bulk(old(Value()), now, sensors)
    {
      hide BulkOne, BulkAmong;
      ghost var c := Value();
      BulkStart(c, now, sensors);
      BulkFixed(Heartbeat, now, sensors);
      BulkNext(c, 0, now, sensors);
      BulkFixed(Status, now, sensors);
      BulkNext(c, 1, now, sensors);
      BulkSensor(Imu, now, sensors);
      BulkNext(c, 2, now, sensors);
      BulkSensor(Attitude, now, sensors);
      BulkNext(c, 3, now, sensors);
      BulkSensor(OutputRaw, now, sensors);
      BulkNext(c, 4, now, sensors);
      BulkSensor(DiffPressure, now, sensors);
      BulkNext(c, 5, now, sensors);
      BulkSensor(Baro, now, sensors);
      BulkNext(c, 6, now, sensors);
      BulkSensor(Mag, now, sensors);
      BulkNext(c, 7, now, sensors);
      BulkSensor(Range, now, sensors);
      BulkNext(c, 8, now, sensors);
      BulkSensor(Battery, now, sensors);
      BulkNext(c, 9, now, sensors);
      BulkSensor(Gnss, now, sensors);
      BulkNext(c, 10, now, sensors);
      BulkSensor(RcRaw, now, sensors);
      BulkNext(c, 11, now, sensors);
      assert BULK_ORDER[..12] == BULK_ORDER;
    }

    /** `run_telemetry_stage` at a fixed time: the bulk path when something is due, after which nothing is. */
    method RunTelemetryStage(now: u64, sensors: Sensors)
      modifies this
      ensures FixedRatesPositive(old(Value())) ==> DueSet(Value(), now, sensors) == {}
      ensures Value() ==
        if DueSet(old(Value()), now, sensors) == {} then old(Value()) else Bulk(old(Value()), now, sensors)
    {
      hide Due, Bulk;
      if FixedRatesPositive(Value()) {
        BulkSettles(Value(), now, sensors);
      }
      var due := NamedTelemetryDue(now, sensors);
      if !due {
        return;
      }
      SendStreams(now, sensors);
    }

    /** `run_realtime_telemetry_stage_budgeted`; `clock` holds the readings, one before every attempt. */
    method RunBudgeted(maxStreams: nat, clock: seq<u64>, sensors: Sensors) returns (sent: nat)
      requires |clock| == maxStreams
      modifies this
      ensures (Value(), sent) == Budgeted(old(Value()), clock, sensors)
    {
      hide SendOne;
      sent := 0;
      ghost var all := Budgeted(Value(), clock, sensors);
      assert clock[0..] == clock;
      while sent < maxStreams
        invariant sent <= maxStreams
        invariant var rest := Budgeted(Value(), clock[sent..], sensors); all == (rest.0, sent + rest.1)
      {
        assert clock[sent..][1..] == clock[sent + 1..];
        var more := SendOneStream(clock[sent], sensors);
        if !more {
          return;
        }
        sent := sent + 1;
      }
    }
  }

  ghost predicate BestSoFar(c: Comm, k: nat, selected: Option<Stream>, deadline: u64, now: u64, sensors: Sensors)
    requires k <= 12
  {
    var best := SelectAmong(c, ORDER[..k], now, sensors);
    if selected.None? then best.None? else best == Some((selected.value, deadline))
  }

  /** The k-th stream that selection considers. */
  ghost predicate Considers(k: nat, s: Stream) {
    k < |ORDER| && ORDER[k] == s
  }

  lemma ConsideredStreams()
    ensures Considers(0, Heartbeat) && Considers(1, Status) && Considers(2, Imu) && Considers(3, Attitude)
    ensures Considers(4, OutputRaw) && Considers(5, RcRaw) && Considers(6, Gnss) && Considers(7, DiffPressure)
    ensures Considers(8, Baro) && Considers(9, Mag) && Considers(10, Range) && Considers(11, Battery)
  {}

  lemma NothingSoFar(c: Comm, deadline: u64, now: u64, sensors: Sensors)
    ensures BestSoFar(c, 0, None, deadline, now, sensors)
  {}

  lemma AllConsidered(c: Comm, selected: Option<Stream>, deadline: u64, now: u64, sensors: Sensors)
    requires BestSoFar(c, 12, selected, deadline, now, sensors)
    ensures selected == Select(c, now, sensors)
  {
    hide SelectAmong;
    assert ORDER[..12] == ORDER;
  }

  lemma BulkStart(c: Comm, now: u64, sensors: Sensors)
    ensures BulkAmong(c, BULK_ORDER[..0], now, sensors) == c
  {}
}
