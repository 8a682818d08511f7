/** The telemetry scheduler: twelve streams with rate gates, freshness gates and earliest-deadline selection. */
module Telemetry {
  import opened Wrappers

  const U64_MAX := 0xFFFF_FFFF_FFFF_FFFF
  const DISABLED: u16 := 65535
  const MAX_RATE_HZ := 2000
  const MICROS_PER_SECOND := 1_000_000

  type u16 = n: int | 0 <= n < 65536
  type u64 = n: int | 0 <= n <= U64_MAX

  datatype Stream =
    | Heartbeat | Status | Imu | Attitude | OutputRaw | RcRaw | Gnss | DiffPressure | Baro | Mag | Range | Battery

  /** The order in which selection considers the streams; the first of several equal deadlines wins. */
  const ORDER: seq<Stream> :=
    [Heartbeat, Status, Imu, Attitude, OutputRaw, RcRaw, Gnss, DiffPressure, Baro, Mag, Range, Battery]

  /** The order of the bulk path. */
  const BULK_ORDER: seq<Stream> :=
    [Heartbeat, Status, Imu, Attitude, OutputRaw, DiffPressure, Baro, Mag, Range, Battery, Gnss, RcRaw]

  /** One value for each stream, as the firmware's structs keep them. */
  datatype Table<V> = Table(
    heartbeat: V, status: V, imu: V, attitude: V, outputRaw: V, rc: V,
    gnss: V, diffPressure: V, baro: V, mag: V, range: V, battery: V)
  {
    function Get(s: Stream): V {
      match s
      case Heartbeat => heartbeat
      case Status => status
      case Imu => imu
      case Attitude => attitude
      case OutputRaw => outputRaw
      case RcRaw => rc
      case Gnss => gnss
      case DiffPressure => diffPressure
      case Baro => baro
      case Mag => mag
      case Range => range
      case Battery => battery
    }

    function Set(s: Stream, v: V): (t: Table<V>)
      ensures forall x :: t.Get(x) == if x == s then v else Get(x)
    {
      match s
      case Heartbeat => this.(heartbeat := v)
      case Status => this.(status := v)
      case Imu => this.(imu := v)
      case Attitude => this.(attitude := v)
      case OutputRaw => this.(outputRaw := v)
      case RcRaw => this.(rc := v)
      case Gnss => this.(gnss := v)
      case DiffPressure => this.(diffPressure := v)
      case Baro => this.(baro := v)
      case Mag => this.(mag := v)
      case Range => this.(range := v)
      case Battery => this.(battery := v)
    }
  }

  function Everywhere<V>(v: V): (t: Table<V>)
    ensures forall x :: t.Get(x) == v
  {
    Table(v, v, v, v, v, v, v, v, v, v, v, v)
  }

  lemma TableExtensional<V>(a: Table<V>, b: Table<V>)
    requires forall x :: a.Get(x) == b.Get(x)
    ensures a == b
  {
    assert a.Get(Heartbeat) == b.Get(Heartbeat) && a.Get(Status) == b.Get(Status) && a.Get(Imu) == b.Get(Imu);
    assert a.Get(Attitude) == b.Get(Attitude) && a.Get(OutputRaw) == b.Get(OutputRaw) && a.Get(RcRaw) == b.Get(RcRaw);
    assert a.Get(Gnss) == b.Get(Gnss) && a.Get(DiffPressure) == b.Get(DiffPressure) && a.Get(Baro) == b.Get(Baro);
    assert a.Get(Mag) == b.Get(Mag) && a.Get(Range) == b.Get(Range) && a.Get(Battery) == b.Get(Battery);
  }

  lemma SetSame<V>(t: Table<V>, s: Stream)
    ensures t.Set(s, t.Get(s)) == t
  {}

  /** The timestamps of the samples at hand. */
  datatype Sensors = Sensors(
    imu: Option<u64>, rc: Option<u64>, gnss: Option<u64>, pitot: Option<u64>,
    baro: Option<u64>, mag: Option<u64>, range: Option<u64>, battery: Option<u64>)
  {
    /** `telemetry_stream_sample_timestamp`. */
    function Sample(s: Stream): Option<u64> {
      match s
      case Heartbeat => None
      case Status => None
      case Imu => imu
      case Attitude => imu
      case OutputRaw => imu
      case RcRaw => rc
      case Gnss => gnss
      case DiffPressure => pitot
      case Baro => baro
      case Mag => mag
      case Range => range
      case Battery => battery
    }
  }

  predicate IsSensor(s: Stream) {
    !s.Heartbeat? && !s.Status?
  }

  // ---------- Rate gates ----------

  function SatAdd(a: u64, b: u64): u64 {
    if a + b > U64_MAX then U64_MAX else a + b
  }

  function SatSub(a: u64, b: u64): u64 {
    if a >= b then a - b else 0
  }

  function SatMul(a: u64, b: u64): (r: u64)
    ensures r == if a * b > U64_MAX then U64_MAX else a * b
  {
    MulNonNegative(a, b);
    if a * b > U64_MAX then U64_MAX else a * b
  }

  lemma MulNonNegative(a: nat, b: nat)
    ensures 0 <= a * b
  {}

  function Interval(rate: u16): (i: u64)
    requires rate != 0
    ensures 15 <= i <= MICROS_PER_SECOND
  {
    IntervalBounds(rate);
    MICROS_PER_SECOND / rate
  }

  lemma IntervalBounds(rate: u16)
    requires rate != 0
    ensures 15 <= MICROS_PER_SECOND / rate <= MICROS_PER_SECOND
  {
    var q := MICROS_PER_SECOND / rate;
    assert MICROS_PER_SECOND == rate * q + MICROS_PER_SECOND % rate;
    if q < 15 {
      MulMonotone(rate, q, 65535, 14);
    }
  }

  lemma MulMonotone(a: nat, b: nat, c: nat, d: nat)
    requires a <= c && b <= d
    ensures a * b <= c * d
  {
    assert a * b <= c * b by {
      assert (c - a) * b >= 0;
    }
    assert c * b <= c * d by {
      assert c * (d - b) >= 0;
    }
  }

  /** `stream_due`: the verdict and the new phase of the stream. */
  function StreamDue(now: u64, last: u64, rate: u16): (bool, u64) {
    if rate == DISABLED then (false, last)
    else if rate == 0 then (true, if last == 0 then now else last)
    else if last == 0 then (true, now)
    else
      var interval := Interval(rate);
      if SatSub(now, last) >= interval
      then (true, SatAdd(last, SatMul(SatSub(now, last) / interval, interval)))
      else (false, last)
  }

  /** `stream_due_deadline_us`. */
  function StreamDeadline(now: u64, last: u64, rate: u16): Option<u64> {
    if rate == DISABLED then None
    else if rate == 0 then Some(if last == 0 then 0 else now)
    else if last == 0 then Some(0)
    else if SatSub(now, last) >= Interval(rate) then Some(SatAdd(last, Interval(rate)))
    else None
  }

  /** `fixed_rate_due`. */
  predicate FixedDue(now: u64, last: u64, rate: u16) {
    rate != DISABLED && (rate == 0 || SatSub(now, last) >= Interval(rate))
  }

  /** `fixed_rate_due_deadline_us`. */
  function FixedDeadline(now: u64, last: u64, rate: u16): Option<u64> {
    if rate == DISABLED then None
    else if rate == 0 then Some(now)
    else if SatSub(now, last) >= Interval(rate) then Some(SatAdd(last, Interval(rate)))
    else None
  }

  /** The mutating and the predictive form agree, for both kinds of stream. */
  lemma PredictionAgrees(now: u64, last: u64, rate: u16)
    ensures StreamDue(now, last, rate).0 <==> StreamDeadline(now, last, rate).Some?
    ensures FixedDue(now, last, rate) <==> FixedDeadline(now, last, rate).Some?
  {}

  // ---------- Scheduler state ----------

  /** A sample taken from a stream; `emitted` is false when OUTPUT_RAW consumes one without sending. */
  datatype Record = Record(stream: Stream, timestamp: Option<u64>, emitted: bool)

  datatype Comm = Comm(
    rates: Table<u16>, divisor: u64, last: Table<u64>, freshness: Table<Option<u64>>, imuCount: u64,
    trace: seq<Record>)

  /** `mark_sent`: the two fixed-rate streams keep no timestamp. */
  function MarkSent(freshness: Table<Option<u64>>, s: Stream, timestamp: Option<u64>): Table<Option<u64>> {
    if IsSensor(s) && timestamp.Some? then freshness.Set(s, timestamp) else freshness
  }

  /** The cadence of OUTPUT_RAW when it has no rate of its own. */
  predicate CadenceDue(c: Comm) {
    c.divisor != 0 && c.imuCount % c.divisor == 0
  }

  predicate ByCadence(c: Comm, s: Stream) {
    s.OutputRaw? && c.rates.Get(OutputRaw) == 0
  }

  /** `named_telemetry_stream_deadline`. */
  function Deadline(c: Comm, s: Stream, now: u64, sensors: Sensors): Option<u64> {
    if !IsSensor(s) then FixedDeadline(now, c.last.Get(s), c.rates.Get(s))
    else if sensors.Sample(s).None? || c.freshness.Get(s) == sensors.Sample(s) then None
    else if ByCadence(c, s) then (if CadenceDue(c) then Some(now) else None)
    else StreamDeadline(now, c.last.Get(s), c.rates.Get(s))
  }

  // ---------- Selection ----------

  /** The earliest deadline among `streams`, the first of equals. */
  function SelectAmong(c: Comm, streams: seq<Stream>, now: u64, sensors: Sensors): Option<(Stream, u64)> {
    if |streams| == 0 then None
    else
      var n := |streams| - 1;
      var best := SelectAmong(c, streams[..n], now, sensors);
      match Deadline(c, streams[n], now, sensors)
      case None => best
      case Some(d) => if best.None? || d < best.value.1 then Some((streams[n], d)) else best
  }

  function Select(c: Comm, now: u64, sensors: Sensors): Option<Stream> {
    match SelectAmong(c, ORDER, now, sensors)
    case None => None
    case Some((s, _)) => Some(s)
  }

  // ---------- Sending ----------

  datatype Gate = DueDeadline | FreshSample

  function Emit(c: Comm, s: Stream, sensors: Sensors): Comm {
    var timestamp := sensors.Sample(s);
    c.(freshness := MarkSent(c.freshness, s, timestamp), trace := c.trace + [Record(s, timestamp, true)])
  }

  function CountUp(c: Comm): Comm {
    c.(imuCount := if c.imuCount == U64_MAX then 0 else c.imuCount + 1)
  }

  /** `send_selected_named_telemetry_stream_with_gate`. */
  function SendSelected(c: Comm, s: Stream, gate: Gate, now: u64, sensors: Sensors): (Comm, bool) {
    if !IsSensor(s) then (Emit(c.(last := c.last.Set(s, now)), s, sensors), true)
    else if sensors.Sample(s).None? then (c, false)
    else if s.Imu? && c.freshness.Get(Imu) == sensors.Sample(Imu) then (c, false)
    else if s.Imu? && gate.FreshSample? then (Emit(c.(last := c.last.Set(Imu, now)), Imu, sensors), true)
    else
      var (due, last) :=
        if ByCadence(c, s) then (CadenceDue(c), c.last.Get(s)) else StreamDue(now, c.last.Get(s), c.rates.Get(s));
      var moved := c.(last := c.last.Set(s, last));
      var counted := if s.OutputRaw? then CountUp(moved) else moved;
      if due then (Emit(counted, s, sensors), true) else (counted, false)
  }

  /** `send_one_named_telemetry_stream`. */
  function SendOne(c: Comm, now: u64, sensors: Sensors): (Comm, bool) {
    match Select(c, now, sensors)
    case None => (c, false)
    case Some(s) => SendSelected(c, s, DueDeadline, now, sensors)
  }

  /** `send_named_telemetry_stream_if_due`. */
  function SendIfDue(c: Comm, s: Stream, now: u64, sensors: Sensors): (Comm, bool) {
    if Deadline(c, s, now, sensors).None? then (c, false) else SendSelected(c, s, DueDeadline, now, sensors)
  }

  /** `send_named_telemetry_stream_with_gate`. */
  function SendWithGate(c: Comm, s: Stream, gate: Gate, now: u64, sensors: Sensors): (Comm, bool) {
    if gate.FreshSample? && s.Imu? then SendSelected(c, s, gate, now, sensors) else SendIfDue(c, s, now, sensors)
  }

  /** One stream of `send_named_telemetry_streams`. */
  function BulkOne(c: Comm, s: Stream, now: u64, sensors: Sensors): Comm {
    var timestamp := sensors.Sample(s);
    if !IsSensor(s) then
      if FixedDue(now, c.last.Get(s), c.rates.Get(s)) then Emit(c.(last := c.last.Set(s, now)), s, sensors) else c
    else if timestamp.None? || c.freshness.Get(s) == timestamp then c
    else if ByCadence(c, s) then
      var record := Record(s, timestamp, CadenceDue(c));
      CountUp(c.(freshness := c.freshness.Set(s, timestamp), trace := c.trace + [record]))
    else
      var (due, last) := StreamDue(now, c.last.Get(s), c.rates.Get(s));
      var moved := c.(last := c.last.Set(s, last));
      if due then Emit(moved, s, sensors) else moved
  }

  function BulkAmong(c: Comm, streams: seq<Stream>, now: u64, sensors: Sensors): Comm {
    if |streams| == 0 then c
    else BulkOne(BulkAmong(c, streams[..|streams| - 1], now, sensors), streams[|streams| - 1], now, sensors)
  }

  /** `send_named_telemetry_streams`. */
  function Bulk(c: Comm, now: u64, sensors: Sensors): Comm {
    BulkAmong(c, BULK_ORDER, now, sensors)
  }

  // ---------- Start and reconfiguration ----------

  /** The rates a manager starts with. */
  const UPSTREAM_RATES: Table<u16> := Table(1, 10, 0, 0, 0, 0, 0, 0, 0, 0, 0, 0)
  const OUTPUT_RAW_IMU_DIVISOR: u64 := 8

  /** `CommManager::new`. */
  function Started(now: u64): Comm {
    Comm(UPSTREAM_RATES, OUTPUT_RAW_IMU_DIVISOR,
         Everywhere(0).Set(Heartbeat, now).Set(Status, now), Everywhere(None), 0, [])
  }

  /** `telemetry_rate_param`. */
  function RateParam(value: int): u16 {
    if value <= -1 then DISABLED else if value < MAX_RATE_HZ then value else MAX_RATE_HZ
  }

  /** `set_telemetry_rates`: the sensor streams start over, freshness and the fixed-rate phases stay. */
  function RatesSet(c: Comm, rates: Table<u16>, divisor: u64): Comm {
    c.(rates := rates, divisor := divisor, imuCount := 0,
       last := Everywhere(0).Set(Heartbeat, c.last.Get(Heartbeat)).Set(Status, c.last.Get(Status)))
  }

  /** `update_telemetry_param` for the parameter of stream `s`. */
  function ParamUpdated(c: Comm, s: Stream, value: int, now: u64): Comm {
    var changed := c.(rates := c.rates.Set(s, RateParam(value)), last := c.last.Set(s, now));
    if s.OutputRaw? then changed.(divisor := 0, imuCount := 0) else changed
  }
}
