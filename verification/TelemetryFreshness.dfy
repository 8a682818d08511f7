/** Freshness over arbitrary interleavings of the send paths and reconfigurations. */
module TelemetryFreshness {
  import opened Wrappers
  import opened Telemetry
  import opened TelemetryDrain

  datatype Op =
    | BulkOp(now: u64, sensors: Sensors)
    | OneOp(now: u64, sensors: Sensors)
    | IfDueOp(stream: Stream, now: u64, sensors: Sensors)
    | GateOp(stream: Stream, gate: Gate, now: u64, sensors: Sensors)
    | RatesOp(rates: Table<u16>, divisor: u64)
    | ParamOp(stream: Stream, value: int, now: u64)
  {
    /** The sample of `s` that the operation is handed. */
    function Sample(s: Stream): Option<u64> {
      if RatesOp? || ParamOp? then None else sensors.Sample(s)
    }
  }

  function Step(c: Comm, op: Op): Comm {
    match op
    case BulkOp(now, sensors) => Bulk(c, now, sensors)
    case OneOp(now, sensors) => SendOne(c, now, sensors).0
    case IfDueOp(s, now, sensors) => SendIfDue(c, s, now, sensors).0
    case GateOp(s, gate, now, sensors) => SendWithGate(c, s, gate, now, sensors).0
    case RatesOp(rates, divisor) => RatesSet(c, rates, divisor)
    case ParamOp(s, value, now) => ParamUpdated(c, s, value, now)
  }

  function Run(c: Comm, ops: seq<Op>): Comm {
    if |ops| == 0 then c else Step(Run(c, ops[..|ops| - 1]), ops[|ops| - 1])
  }

  // ---------- What a trace says about one stream ----------

  /** The timestamps taken for `s`, whether or not a message went out. */
  function Taken(trace: seq<Record>, s: Stream): seq<u64> {
    if |trace| == 0 then []
    else
      var r := trace[|trace| - 1];
      Taken(trace[..|trace| - 1], s) + if r.stream == s && r.timestamp.Some? then [r.timestamp.value] else []
  }

  /** The timestamps of the messages of `s`. */
  function Emitted(trace: seq<Record>, s: Stream): seq<u64> {
    if |trace| == 0 then []
    else
      var r := trace[|trace| - 1];
      Emitted(trace[..|trace| - 1], s) +
      if r.stream == s && r.timestamp.Some? && r.emitted then [r.timestamp.value] else []
  }

  predicate NeverTwice(q: seq<u64>) {
    forall i :: 0 < i < |q| ==> q[i - 1] != q[i]
  }

  predicate Increasing(q: seq<u64>) {
    forall i, j :: 0 <= i < j < |q| ==> q[i] < q[j]
  }

  /** The freshness slot holds the last timestamp taken. */
  predicate Tracks(c: Comm, s: Stream) {
    var taken := Taken(c.trace, s);
    c.freshness.Get(s) == if |taken| == 0 then None else Some(taken[|taken| - 1])
  }

  lemma Snoc(trace: seq<Record>, r: Record, s: Stream)
    ensures Taken(trace + [r], s) ==
      Taken(trace, s) + if r.stream == s && r.timestamp.Some? then [r.timestamp.value] else []
    ensures Emitted(trace + [r], s) ==
      Emitted(trace, s) + if r.stream == s && r.timestamp.Some? && r.emitted then [r.timestamp.value] else []
  {
    assert (trace + [r])[..|trace|] == trace;
  }

  // ---------- One operation ----------

  /** Nothing taken for `s`, or exactly the sample at hand, which was not the last one taken. */
  predicate TakesFresh(c: Comm, c': Comm, s: Stream, sample: Option<u64>) {
    || Unmoved(c, c', s)
    || (&& sample.Some? && c.freshness.Get(s) != sample && c'.freshness.Get(s) == sample
        && Taken(c'.trace, s) == Taken(c.trace, s) + [sample.value]
        && (Emitted(c'.trace, s) == Emitted(c.trace, s) + [sample.value]
            || (s.OutputRaw? && Emitted(c'.trace, s) == Emitted(c.trace, s))))
  }

  predicate Unmoved(c: Comm, c': Comm, s: Stream) {
    && c'.freshness.Get(s) == c.freshness.Get(s)
    && Taken(c'.trace, s) == Taken(c.trace, s) && Emitted(c'.trace, s) == Emitted(c.trace, s)
  }

  /** A record of a fresh sample of `x` is fresh for every stream `s`. */
  lemma RecordTakesFresh(c: Comm, c': Comm, x: Stream, emitted: bool, s: Stream, sensors: Sensors)
    requires IsSensor(s) && c'.trace == c.trace + [Record(x, sensors.Sample(x), emitted)]
    requires c'.freshness == MarkSent(c.freshness, x, sensors.Sample(x))
    requires IsSensor(x) ==> sensors.Sample(x).Some? && c.freshness.Get(x) != sensors.Sample(x)
    requires emitted || x.OutputRaw?
    ensures TakesFresh(c, c', s, sensors.Sample(s))
  {
    hide Taken, Emitted;
    Snoc(c.trace, Record(x, sensors.Sample(x), emitted), s);
  }

  lemma SelectedTakesFresh(c: Comm, x: Stream, gate: Gate, s: Stream, now: u64, sensors: Sensors)
    requires IsSensor(s)
    requires IsSensor(x) && !x.Imu? ==> sensors.Sample(x).None? || c.freshness.Get(x) != sensors.Sample(x)
    ensures TakesFresh(c, SendSelected(c, x, gate, now, sensors).0, s, sensors.Sample(s))
  {
    hide Taken, Emitted, TakesFresh, StreamDue;
    var (c', sent) := SendSelected(c, x, gate, now, sensors);
    if sent {
      RecordTakesFresh(c, c', x, true, s, sensors);
    } else {
      UnmovedTakesFresh(c, c', s, sensors.Sample(s));
    }
  }

  lemma UnmovedTakesFresh(c: Comm, c': Comm, s: Stream, sample: Option<u64>)
    requires c'.trace == c.trace && c'.freshness == c.freshness
    ensures TakesFresh(c, c', s, sample)
  {}

  lemma BulkOneTakesFresh(c: Comm, x: Stream, s: Stream, now: u64, sensors: Sensors)
    requires IsSensor(s)
    ensures TakesFresh(c, BulkOne(c, x, now, sensors), s, sensors.Sample(s))
  {
    hide Taken, Emitted, TakesFresh, StreamDue, FixedDue;
    var c' := BulkOne(c, x, now, sensors);
    if c'.trace == c.trace {
      UnmovedTakesFresh(c, c', s, sensors.Sample(s));
    } else {
      RecordTakesFresh(c, c', x, c'.trace[|c.trace|].emitted, s, sensors);
    }
  }

  /** A second chance at the same sample takes nothing. */
  lemma TakesFreshTwice(c0: Comm, c1: Comm, c2: Comm, s: Stream, sample: Option<u64>)
    requires TakesFresh(c0, c1, s, sample) && TakesFresh(c1, c2, s, sample)
    ensures TakesFresh(c0, c2, s, sample)
  {}

  lemma {:induction false} BulkTakesFresh(c: Comm, streams: seq<Stream>, s: Stream, now: u64, sensors: Sensors)
    requires IsSensor(s)
    ensures TakesFresh(c, BulkAmong(c, streams, now, sensors), s, sensors.Sample(s))
    decreases |streams|
  {
    hide TakesFresh, BulkOne;
    if |streams| == 0 {
      UnmovedTakesFresh(c, c, s, sensors.Sample(s));
    } else {
      var n := |streams| - 1;
      var before := BulkAmong(c, streams[..n], now, sensors);
      BulkTakesFresh(c, streams[..n], s, now, sensors);
      BulkOneTakesFresh(before, streams[n], s, now, sensors);
      TakesFreshTwice(c, before, BulkOne(before, streams[n], now, sensors), s, sensors.Sample(s));
    }
  }

  lemma DueIsFresh(c: Comm, x: Stream, now: u64, sensors: Sensors)
    requires IsSensor(x) && Due(c, x, now, sensors)
    ensures sensors.Sample(x).Some? && c.freshness.Get(x) != sensors.Sample(x)
  {}

  lemma IfDueTakesFresh(c: Comm, x: Stream, s: Stream, now: u64, sensors: Sensors)
    requires IsSensor(s)
    ensures TakesFresh(c, SendIfDue(c, x, now, sensors).0, s, sensors.Sample(s))
  {
    hide TakesFresh, SendSelected, Deadline;
    if Deadline(c, x, now, sensors).None? {
      UnmovedTakesFresh(c, c, s, sensors.Sample(s));
    } else {
      if IsSensor(x) {
        DueIsFresh(c, x, now, sensors);
      }
      SelectedTakesFresh(c, x, DueDeadline, s, now, sensors);
    }
  }

  /** Every operation, on every stream: at most the fresh sample at hand is taken, and once. */
  lemma StepTakesFresh(c: Comm, op: Op, s: Stream)
    requires IsSensor(s)
    ensures TakesFresh(c, Step(c, op), s, op.Sample(s))
  {
    hide TakesFresh, SendSelected, Deadline, Select, BulkAmong, Due, SendIfDue;
    match op
    case BulkOp(now, sensors) => BulkTakesFresh(c, BULK_ORDER, s, now, sensors);
    case OneOp(now, sensors) =>
      SelectLeast(c, now, sensors);
      OneIsIfDue(c, now, sensors);
      if Select(c, now, sensors).None? {
        UnmovedTakesFresh(c, c, s, sensors.Sample(s));
      } else {
        IfDueTakesFresh(c, Select(c, now, sensors).value, s, now, sensors);
      }
    case IfDueOp(x, now, sensors) => IfDueTakesFresh(c, x, s, now, sensors);
    case GateOp(x, gate, now, sensors) =>
      if gate.FreshSample? && x.Imu? {
        SelectedTakesFresh(c, x, gate, s, now, sensors);
      } else {
        IfDueTakesFresh(c, x, s, now, sensors);
      }
    case RatesOp(_, _) => UnmovedTakesFresh(c, Step(c, op), s, None);
    case ParamOp(_, _, _) => UnmovedTakesFresh(c, Step(c, op), s, None);
  }

  /** The one-stream path is the if-due path on the selected stream. */
  lemma OneIsIfDue(c: Comm, now: u64, sensors: Sensors)
    ensures SendOne(c, now, sensors) ==
      if Select(c, now, sensors).None? then (c, false) else SendIfDue(c, Select(c, now, sensors).value, now, sensors)
  {
    hide SendSelected, Select, Deadline;
    SelectLeast(c, now, sensors);
  }

  /** Within one budgeted stage a sensor stream sends at most once, however far the clock moves during it. */
  lemma {:induction false} BudgetedTakesOnce(c: Comm, clock: seq<u64>, s: Stream, sensors: Sensors)
    requires IsSensor(s)
    ensures TakesFresh(c, Budgeted(c, clock, sensors).0, s, sensors.Sample(s))
    decreases |clock|
  {
    hide TakesFresh, SendOne;
    if |clock| == 0 {
      UnmovedTakesFresh(c, c, s, sensors.Sample(s));
    } else {
      var (c', more) := SendOne(c, clock[0], sensors);
      StepTakesFresh(c, OneOp(clock[0], sensors), s);
      if more {
        BudgetedTakesOnce(c', clock[1..], s, sensors);
        TakesFreshTwice(c, c', Budgeted(c', clock[1..], sensors).0, s, sensors.Sample(s));
      }
    }
  }

  // ---------- Whole runs ----------

  /** What every run keeps, for one sensor stream. */
  ghost predicate Kept(c: Comm, ops: seq<Op>, s: Stream) {
    && Tracks(c, s) && NeverTwice(Taken(c.trace, s))
    && (!s.OutputRaw? ==> Emitted(c.trace, s) == Taken(c.trace, s))
    && (forall t :: t in Taken(c.trace, s) ==> exists i :: 0 <= i < |ops| && ops[i].Sample(s) == Some(t))
  }

  lemma KeptByStep(c: Comm, c': Comm, ops: seq<Op>, op: Op, s: Stream)
    requires Kept(c, ops, s) && TakesFresh(c, c', s, op.Sample(s))
    ensures Kept(c', ops + [op], s)
  {
    hide Taken, Emitted, Op.Sample;
    var more := ops + [op];
    forall t | t in Taken(c'.trace, s) ensures exists i :: 0 <= i < |more| && more[i].Sample(s) == Some(t) {
      if t in Taken(c.trace, s) {
        var i :| 0 <= i < |ops| && ops[i].Sample(s) == Some(t);
        assert more[i].Sample(s) == Some(t);
      } else {
        assert more[|ops|].Sample(s) == Some(t);
      }
    }
  }

  lemma {:induction false} RunKeeps(now: u64, ops: seq<Op>, s: Stream)
    requires IsSensor(s)
    ensures Kept(Run(Started(now), ops), ops, s)
    decreases |ops|
  {
    hide Kept, Step;
    if |ops| == 0 {
      StartKept(now, s);
    } else {
      var n := |ops| - 1;
      RunKeeps(now, ops[..n], s);
      var c := Run(Started(now), ops[..n]);
      StepTakesFresh(c, ops[n], s);
      KeptByStep(c, Step(c, ops[n]), ops[..n], ops[n], s);
      assert ops[..n] + [ops[n]] == ops;
    }
  }

  lemma StartKept(now: u64, s: Stream)
    requires IsSensor(s)
    ensures Kept(Started(now), [], s)
  {}

  /**
  Over any interleaving of the send paths with rate changes, no sensor stream but OUTPUT_RAW sends
  the same source timestamp twice in a row, and OUTPUT_RAW takes none twice in a row.
  */
  lemma NoSampleTwiceInARow(now: u64, ops: seq<Op>, s: Stream)
    requires IsSensor(s)
    ensures var c := Run(Started(now), ops);
      && NeverTwice(Taken(c.trace, s)) && (!s.OutputRaw? ==> NeverTwice(Emitted(c.trace, s)))
  {
    hide Run, Taken, Emitted, Tracks, NeverTwice;
    RunKeeps(now, ops, s);
  }

  /** The packets handed to a stream never step back in time; a retained packet may be handed again. */
  ghost predicate SamplesOrdered(ops: seq<Op>, s: Stream) {
    forall i, j :: 0 <= i < j < |ops| && ops[i].Sample(s).Some? && ops[j].Sample(s).Some? ==>
      ops[i].Sample(s).value <= ops[j].Sample(s).value
  }

  /** Then every sample is sent at most once per stream, in order. */
  lemma EachSampleAtMostOnce(now: u64, ops: seq<Op>, s: Stream)
    requires IsSensor(s) && SamplesOrdered(ops, s)
    ensures Increasing(Emitted(Run(Started(now), ops).trace, s))
  {
    hide Run, Taken, Emitted, Increasing, SamplesOrdered;
    TakenIncreasing(now, ops, s);
    EmittedIncreasing(Run(Started(now), ops).trace, s);
  }

  lemma {:induction false} TakenIncreasing(now: u64, ops: seq<Op>, s: Stream)
    requires IsSensor(s) && SamplesOrdered(ops, s)
    ensures Increasing(Taken(Run(Started(now), ops).trace, s))
    decreases |ops|
  {
    hide Step, Taken, Emitted, Op.Sample;
    if |ops| == 0 {
      StartKept(now, s);
      NothingTaken(s);
    } else {
      var n := |ops| - 1;
      TakenIncreasing(now, ops[..n], s);
      RunKeeps(now, ops[..n], s);
      var c := Run(Started(now), ops[..n]);
      StepTakesFresh(c, ops[n], s);
      TakenLater(c, Step(c, ops[n]), ops, s);
    }
  }

  lemma NothingTaken(s: Stream)
    ensures Taken([], s) == []
  {}

  lemma TakenLater(c: Comm, c': Comm, ops: seq<Op>, s: Stream)
    requires |ops| > 0 && SamplesOrdered(ops, s) && Kept(c, ops[..|ops| - 1], s)
    requires TakesFresh(c, c', s, ops[|ops| - 1].Sample(s)) && Increasing(Taken(c.trace, s))
    ensures Increasing(Taken(c'.trace, s))
  {
    hide Taken, Emitted, Op.Sample;
    var n := |ops| - 1;
    var taken := Taken(c.trace, s);
    if Taken(c'.trace, s) != taken && |taken| > 0 {
      var newest := taken[|taken| - 1];
      assert newest in taken;
      var i :| 0 <= i < n && ops[..n][i].Sample(s) == Some(newest);
      assert ops[i].Sample(s) == Some(newest);
      assert newest < ops[n].Sample(s).value;
    }
  }

  /** A sequence increases with one more element iff it did before and the element exceeds all others. */
  lemma IncreasingSnoc(q: seq<u64>, t: u64)
    ensures Increasing(q + [t]) <==> Increasing(q) && forall x :: x in q ==> x < t
  {
    var more := q + [t];
    if Increasing(more) {
      forall i, j | 0 <= i < j < |q| ensures q[i] < q[j] {
        assert more[i] < more[j];
      }
      forall x | x in q ensures x < t {
        var i :| 0 <= i < |q| && q[i] == x;
        assert more[i] < more[|q|];
      }
    } else if Increasing(q) && forall x :: x in q ==> x < t {
      forall i, j | 0 <= i < j < |more| ensures more[i] < more[j] {
        assert more[i] == q[i] && q[i] in q;
      }
    }
  }

  lemma {:induction false} EmittedIncreasing(trace: seq<Record>, s: Stream)
    requires Increasing(Taken(trace, s))
    ensures Increasing(Emitted(trace, s))
    ensures forall t :: t in Emitted(trace, s) ==> t in Taken(trace, s)
    decreases |trace|
  {
    hide Increasing;
    if |trace| == 0 {
      EmptyIncreasing();
    } else {
      var r, before := trace[|trace| - 1], trace[..|trace| - 1];
      assert trace == before + [r];
      Snoc(before, r, s);
      if r.stream == s && r.timestamp.Some? {
        IncreasingSnoc(Taken(before, s), r.timestamp.value);
        EmittedIncreasing(before, s);
        IncreasingSnoc(Emitted(before, s), r.timestamp.value);
        assert Emitted(before, s) + [] == Emitted(before, s);
      } else {
        assert Taken(before, s) + [] == Taken(before, s) && Emitted(before, s) + [] == Emitted(before, s);
        EmittedIncreasing(before, s);
      }
    }
  }

  lemma EmptyIncreasing()
    ensures Increasing([])
  {}

  // ---------- Exactly when a timestamp goes out again ----------

  /** The bulk path emits a stream's sample exactly when the stream was due on entry. */
  lemma BulkEmitsDue(c: Comm, s: Stream, now: u64, sensors: Sensors)
    requires IsSensor(s)
    ensures Emitted(Bulk(c, now, sensors).trace, s) ==
      Emitted(c.trace, s) + if Due(c, s, now, sensors) then [sensors.Sample(s).value] else []
  {
    hide Due, BulkAmong, Emitted;
    BulkOrderComplete(s);
    BulkAmongEmits(c, BULK_ORDER, s, now, sensors);
  }

  lemma BulkOneEmits(c: Comm, x: Stream, s: Stream, now: u64, sensors: Sensors)
    requires IsSensor(s)
    ensures Due(c, s, now, sensors) ==> sensors.Sample(s).Some?
    ensures Emitted(BulkOne(c, x, now, sensors).trace, s) ==
      Emitted(c.trace, s) + if x == s && Due(c, s, now, sensors) then [sensors.Sample(s).value] else []
  {
    hide Emitted, Due, BulkOne, Consumes, NewLast, NewFreshness;
    BulkOneEffect(c, x, now, sensors);
    var records := BulkRecords(c, x, now, sensors);
    if Due(c, s, now, sensors) {
      DueIsFresh(c, s, now, sensors);
    }
    if |records| == 1 {
      Snoc(c.trace, records[0], s);
    } else {
      assert c.trace + records == c.trace;
    }
  }

  lemma {:induction false} BulkAmongEmits(c: Comm, streams: seq<Stream>, s: Stream, now: u64, sensors: Sensors)
    requires IsSensor(s) && forall i, j :: 0 <= i < j < |streams| ==> streams[i] != streams[j]
    ensures Due(c, s, now, sensors) ==> sensors.Sample(s).Some?
    ensures Emitted(BulkAmong(c, streams, now, sensors).trace, s) ==
      Emitted(c.trace, s) + if s in streams && Due(c, s, now, sensors) then [sensors.Sample(s).value] else []
    decreases |streams|
  {
    hide Emitted, BulkOne, Due, NewLast, NewFreshness, Consumes, Sensors.Sample;
    if |streams| == 0 {
      BulkOneEmits(c, s, s, now, sensors);
    } else {
      var n := |streams| - 1;
      var x, before := streams[n], BulkAmong(c, streams[..n], now, sensors);
      BulkAmongEmits(c, streams[..n], s, now, sensors);
      BulkOneEmits(before, x, s, now, sensors);
      assert s in streams <==> s in streams[..n] || s == x;
      if s == x {
        assert s !in streams[..n];
        BulkAmongEffect(c, streams[..n], s, now, sensors);
        SameEntriesSameFate(c, before, s, now, sensors);
      }
    }
  }

  /**
  When an operation sends stream `s`: it is due and served, or it is the IMU past its rate gate with a
  fresh sample.
  */
  predicate Sends(c: Comm, op: Op, s: Stream) {
    match op
    case BulkOp(now, sensors) => Due(c, s, now, sensors)
    case OneOp(now, sensors) => Select(c, now, sensors) == Some(s)
    case IfDueOp(x, now, sensors) => x == s && Due(c, s, now, sensors)
    case GateOp(x, gate, now, sensors) =>
      x == s && if gate.FreshSample? && s.Imu? then IsFresh(c, s, sensors) else Due(c, s, now, sensors)
    case RatesOp(_, _) => false
    case ParamOp(_, _, _) => false
  }

  predicate IsFresh(c: Comm, s: Stream, sensors: Sensors) {
    sensors.Sample(s).Some? && c.freshness.Get(s) != sensors.Sample(s)
  }

  lemma IfDueEmits(c: Comm, x: Stream, s: Stream, now: u64, sensors: Sensors)
    requires IsSensor(s)
    ensures x == s && Due(c, s, now, sensors) ==> IsFresh(c, s, sensors)
    ensures Emitted(SendIfDue(c, x, now, sensors).0.trace, s) ==
      Emitted(c.trace, s) + if x == s && Due(c, s, now, sensors) then [sensors.Sample(s).value] else []
  {
    hide Emitted, Taken, SendSelected, NewLast, NewFreshness;
    if Due(c, x, now, sensors) {
      DueIsSent(c, x, now, sensors);
      Snoc(c.trace, Record(x, sensors.Sample(x), true), s);
      if x == s {
        DueIsFresh(c, s, now, sensors);
      }
    }
  }

  lemma FreshImuEmits(c: Comm, s: Stream, now: u64, sensors: Sensors)
    requires IsSensor(s)
    ensures Emitted(SendSelected(c, Imu, FreshSample, now, sensors).0.trace, s) ==
      Emitted(c.trace, s) + if s == Imu && IsFresh(c, Imu, sensors) then [sensors.Sample(s).value] else []
  {
    hide Emitted, Taken, StreamDue;
    Snoc(c.trace, Record(Imu, sensors.Sample(Imu), true), s);
  }

  /**
  Every operation, on every sensor stream: the sample at hand goes out exactly when the operation
  sends the stream.
  */
  lemma StepEmits(c: Comm, op: Op, s: Stream)
    requires IsSensor(s)
    ensures Sends(c, op, s) ==> op.Sample(s).Some? && c.freshness.Get(s) != op.Sample(s)
    ensures Emitted(Step(c, op).trace, s) ==
      Emitted(c.trace, s) + if Sends(c, op, s) then [op.Sample(s).value] else []
  {
    hide Emitted, Taken, SendSelected, SendIfDue, Select, Bulk, Due;
    match op
    case BulkOp(now, sensors) =>
      BulkEmitsDue(c, s, now, sensors);
      if Due(c, s, now, sensors) {
        DueIsFresh(c, s, now, sensors);
      }
    case OneOp(now, sensors) =>
      OneIsIfDue(c, now, sensors);
      SelectLeast(c, now, sensors);
      if Select(c, now, sensors).Some? {
        IfDueEmits(c, Select(c, now, sensors).value, s, now, sensors);
      }
    case IfDueOp(x, now, sensors) => IfDueEmits(c, x, s, now, sensors);
    case GateOp(x, gate, now, sensors) =>
      if gate.FreshSample? && x.Imu? {
        FreshImuEmits(c, s, now, sensors);
      } else {
        IfDueEmits(c, x, s, now, sensors);
      }
    case RatesOp(_, _) =>
    case ParamOp(_, _, _) =>
  }

  /** The operation sends the timestamp of the last message of `s` again. */
  predicate Resends(c: Comm, op: Op, s: Stream) {
    var sent := Emitted(c.trace, s);
    |sent| > 0 && op.Sample(s) == Some(sent[|sent| - 1]) && Sends(c, op, s)
  }

  predicate NeverResends(now: u64, ops: seq<Op>, s: Stream) {
    |ops| == 0 ||
    (var n := |ops| - 1;
     NeverResends(now, ops[..n], s) && !Resends(Run(Started(now), ops[..n]), ops[n], s))
  }

  /** Outside OUTPUT_RAW no run comes to a resend. */
  lemma OnlyOutputRawResends(now: u64, ops: seq<Op>, op: Op, s: Stream)
    requires IsSensor(s) && Resends(Run(Started(now), ops), op, s)
    ensures s.OutputRaw?
  {
    hide Run, Taken, Emitted, Sends;
    RunKeeps(now, ops, s);
    StepEmits(Run(Started(now), ops), op, s);
  }

  /**
  For whole runs of any operations: no two neighbouring messages of a stream carry one timestamp if
  and only if no operation is handed the timestamp of the last message while it sends the stream.
  */
  lemma {:induction false} ResentExactly(now: u64, ops: seq<Op>, s: Stream)
    requires IsSensor(s)
    ensures NeverTwice(Emitted(Run(Started(now), ops).trace, s)) <==> NeverResends(now, ops, s)
    decreases |ops|
  {
    hide Emitted, Step, Sends, NeverTwice;
    if |ops| == 0 {
      NothingEmitted(s);
    } else {
      var n := |ops| - 1;
      var c := Run(Started(now), ops[..n]);
      ResentExactly(now, ops[..n], s);
      StepEmits(c, ops[n], s);
      if Sends(c, ops[n], s) {
        NeverTwiceSnoc(Emitted(c.trace, s), ops[n].Sample(s).value);
      } else {
        assert Emitted(c.trace, s) + [] == Emitted(c.trace, s);
      }
    }
  }

  lemma NothingEmitted(s: Stream)
    ensures NeverTwice(Emitted([], s))
  {}

  lemma NeverTwiceSnoc(q: seq<u64>, t: u64)
    ensures NeverTwice(q + [t]) <==> NeverTwice(q) && !(|q| > 0 && q[|q| - 1] == t)
  {
    var more := q + [t];
    assert forall i :: 0 <= i < |q| ==> more[i] == q[i];
    if NeverTwice(more) {
      forall i | 0 < i < |q| ensures q[i - 1] != q[i] {
        assert more[i - 1] != more[i];
      }
      assert |q| > 0 ==> more[|q| - 1] != more[|q|];
    }
  }

  /** Every stream off but OUTPUT_RAW, which follows the cadence. */
  const CADENCE_ONLY: Table<u16> :=
    Table(DISABLED, DISABLED, DISABLED, DISABLED, 0, DISABLED,
          DISABLED, DISABLED, DISABLED, DISABLED, DISABLED, DISABLED)

  function OnlyImu(timestamp: u64): Sensors {
    Sensors(Some(timestamp), None, None, None, None, None, None, None)
  }

  lemma QuietBulkOne(c: Comm, s: Stream, now: u64, sensors: Sensors)
    requires c.rates == CADENCE_ONLY && s != OutputRaw
    ensures BulkOne(c, s, now, sensors) == c
  {
    SetSame(c.last, s);
  }

  lemma {:induction false} QuietBulk(c: Comm, k: nat, now: u64, sensors: Sensors)
    requires c.rates == CADENCE_ONLY && k <= |BULK_ORDER|
    ensures BulkAmong(c, BULK_ORDER[..k], now, sensors) == if k < 5 then c else BulkOne(c, OutputRaw, now, sensors)
    decreases k
  {
    hide BulkOne, BulkAmong;
    if k == 0 {
      BulkNone(c, now, sensors);
    } else {
      QuietBulk(c, k - 1, now, sensors);
      BulkNext(c, k - 1, now, sensors);
      BulkOneKeepsRates(c, OutputRaw, now, sensors);
      if BULK_ORDER[k - 1] != OutputRaw {
        QuietBulkOne(BulkAmong(c, BULK_ORDER[..k - 1], now, sensors), BULK_ORDER[k - 1], now, sensors);
      }
    }
  }

  lemma BulkNone(c: Comm, now: u64, sensors: Sensors)
    ensures BulkAmong(c, BULK_ORDER[..0], now, sensors) == c
  {}

  lemma BulkOneKeepsRates(c: Comm, s: Stream, now: u64, sensors: Sensors)
    ensures BulkOne(c, s, now, sensors).rates == c.rates
  {}

  /**
  With a sample clock that steps back, the cadence sends one timestamp twice in a row: 10, then 20
  unsent, then 10.
  */
  lemma OutputRawSendsTwice(start: u64)
    ensures var ops := [RatesOp(CADENCE_ONLY, 2), BulkOp(start, OnlyImu(10)),
                        BulkOp(start, OnlyImu(20)), BulkOp(start, OnlyImu(10))];
      Emitted(Run(Started(start), ops).trace, OutputRaw) == [10, 10]
  {
    hide Run, BulkAmong;
    var ops := [RatesOp(CADENCE_ONLY, 2), BulkOp(start, OnlyImu(10)),
                BulkOp(start, OnlyImu(20)), BulkOp(start, OnlyImu(10))];
    var c1 := RatesSet(Started(start), CADENCE_ONLY, 2);
    var c2 := CadenceBulk(c1, start, 10);
    var c3 := CadenceBulk(c2, start, 20);
    var c4 := CadenceBulk(c3, start, 10);
    RunFour(Started(start), ops);
    assert c4.trace == [Record(OutputRaw, Some(10), true), Record(OutputRaw, Some(20), false),
                        Record(OutputRaw, Some(10), true)];
    ThreeRecords(c4.trace);
  }

  lemma CadenceBulk(c: Comm, now: u64, timestamp: u64) returns (c': Comm)
    requires c.rates == CADENCE_ONLY && c.freshness.Get(OutputRaw) != Some(timestamp) && c.imuCount < U64_MAX
    ensures c' == Bulk(c, now, OnlyImu(timestamp))
    ensures c'.rates == c.rates && c'.divisor == c.divisor && c'.imuCount == c.imuCount + 1
    ensures c'.freshness.Get(OutputRaw) == Some(timestamp)
    ensures c'.trace == c.trace + [Record(OutputRaw, Some(timestamp), CadenceDue(c))]
  {
    hide BulkAmong;
    QuietBulk(c, 12, now, OnlyImu(timestamp));
    assert BULK_ORDER[..12] == BULK_ORDER;
    c' := BulkOne(c, OutputRaw, now, OnlyImu(timestamp));
  }

  lemma RunFour(c: Comm, ops: seq<Op>)
    requires |ops| == 4
    ensures Run(c, ops) == Step(Step(Step(Step(c, ops[0]), ops[1]), ops[2]), ops[3])
  {
    hide Step;
    assert ops[..3][..2] == ops[..2] && ops[..2][..1] == ops[..1] && ops[..1][..0] == [];
    assert Run(c, ops[..1]) == Step(c, ops[0]);
    assert Run(c, ops[..2]) == Step(Step(c, ops[0]), ops[1]);
    assert Run(c, ops[..3]) == Step(Step(Step(c, ops[0]), ops[1]), ops[2]);
  }

  lemma ThreeRecords(trace: seq<Record>)
    requires |trace| == 3 && forall i :: 0 <= i < 3 ==> trace[i].stream == OutputRaw && trace[i].timestamp.Some?
    requires trace[0].emitted && !trace[1].emitted && trace[2].emitted
    ensures Emitted(trace, OutputRaw) == [trace[0].timestamp.value, trace[2].timestamp.value]
  {
    assert trace[..2][..1] == trace[..1] && trace[..1][..0] == [];
    assert Emitted(trace[..1], OutputRaw) == [trace[0].timestamp.value];
    assert Emitted(trace[..2], OutputRaw) == [trace[0].timestamp.value];
  }
}
