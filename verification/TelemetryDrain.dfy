/** Draining due streams one by one: earliest deadline first, each once, and with the effect of the bulk path. */
module TelemetryDrain {
  import opened Wrappers
  import opened Telemetry

  function Rank(s: Stream): (r: nat)
    ensures r < |ORDER| && ORDER[r] == s
  {
    match s
    case Heartbeat => 0
    case Status => 1
    case Imu => 2
    case Attitude => 3
    case OutputRaw => 4
    case RcRaw => 5
    case Gnss => 6
    case DiffPressure => 7
    case Baro => 8
    case Mag => 9
    case Range => 10
    case Battery => 11
  }

  lemma RankOfOrder(i: nat)
    requires i < |ORDER|
    ensures Rank(ORDER[i]) == i
  {}

  /** The order of sending: earlier deadline first, the fixed order between equals. */
  predicate Before(a: Stream, da: u64, b: Stream, db: u64) {
    da < db || (da == db && Rank(a) < Rank(b))
  }

  predicate Due(c: Comm, s: Stream, now: u64, sensors: Sensors) {
    Deadline(c, s, now, sensors).Some?
  }

  function DueSet(c: Comm, now: u64, sensors: Sensors): set<Stream> {
    set s: Stream | Due(c, s, now, sensors)
  }

  lemma {:induction false} SelectAmongLeast(c: Comm, n: nat, now: u64, sensors: Sensors)
    requires n <= |ORDER|
    ensures var best := SelectAmong(c, ORDER[..n], now, sensors);
      && (best.None? ==> forall i :: 0 <= i < n ==> !Due(c, ORDER[i], now, sensors))
      && (best.Some? ==>
            && Rank(best.value.0) < n && Deadline(c, best.value.0, now, sensors) == Some(best.value.1)
            && forall i :: 0 <= i < n && Due(c, ORDER[i], now, sensors) && ORDER[i] != best.value.0 ==>
                 Before(best.value.0, best.value.1, ORDER[i], Deadline(c, ORDER[i], now, sensors).value))
    decreases n
  {
    hide Deadline;
    if n > 0 {
      SelectAmongLeast(c, n - 1, now, sensors);
      assert ORDER[..n][..n - 1] == ORDER[..n - 1];
      RankOfOrder(n - 1);
      forall i | 0 <= i < n ensures Rank(ORDER[i]) == i {
        RankOfOrder(i);
      }
    }
  }

  /** Selection returns the due stream that goes before every other due stream, and nothing only when none is due. */
  lemma SelectLeast(c: Comm, now: u64, sensors: Sensors)
    ensures Select(c, now, sensors).None? <==> DueSet(c, now, sensors) == {}
    ensures var s := Select(c, now, sensors);
      s.Some? ==> Due(c, s.value, now, sensors) && forall x :: Due(c, x, now, sensors) && x != s.value ==>
        Before(s.value, Deadline(c, s.value, now, sensors).value, x, Deadline(c, x, now, sensors).value)
  {
    hide Deadline, SelectAmong, Before;
    SelectAmongLeast(c, |ORDER|, now, sensors);
    assert ORDER[..|ORDER|] == ORDER;
    var best := SelectAmong(c, ORDER, now, sensors);
    if best.None? {
      forall x ensures !Due(c, x, now, sensors) {
        assert ORDER[Rank(x)] == x;
      }
      assert DueSet(c, now, sensors) == {};
    } else {
      assert best.value.0 in DueSet(c, now, sensors);
      forall x | Due(c, x, now, sensors) && x != best.value.0
        ensures Before(best.value.0, best.value.1, x, Deadline(c, x, now, sensors).value)
      {
        assert ORDER[Rank(x)] == x;
      }
    }
  }

  predicate FixedRatesPositive(c: Comm) {
    c.rates.Get(Heartbeat) != 0 && c.rates.Get(Status) != 0
  }

  /** What one due send does to its own stream. */
  function NewLast(c: Comm, s: Stream, now: u64): u64 {
    if !IsSensor(s) then now
    else if ByCadence(c, s) then c.last.Get(s)
    else StreamDue(now, c.last.Get(s), c.rates.Get(s)).1
  }

  function NewFreshness(c: Comm, s: Stream, sensors: Sensors): Option<u64> {
    if IsSensor(s) then sensors.Sample(s) else c.freshness.Get(s)
  }

  ghost predicate OnlyTouches(c: Comm, c': Comm, s: Stream) {
    && c'.rates == c.rates && c'.divisor == c.divisor
    && (!s.OutputRaw? ==> c'.imuCount == c.imuCount)
    && forall x :: x != s ==> c'.last.Get(x) == c.last.Get(x) && c'.freshness.Get(x) == c.freshness.Get(x)
  }

  /**
  A due stream is sent, is not due again unless it is a fixed-rate one at rate 0, and leaves every
  other stream alone.
  */
  lemma DueIsSent(c: Comm, s: Stream, now: u64, sensors: Sensors)
    requires Due(c, s, now, sensors)
    ensures var (c', sent) := SendSelected(c, s, DueDeadline, now, sensors);
      && sent && OnlyTouches(c, c', s)
      && c'.last.Get(s) == NewLast(c, s, now) && c'.freshness.Get(s) == NewFreshness(c, s, sensors)
      && c'.trace == c.trace + [Record(s, sensors.Sample(s), true)]
      && (IsSensor(s) || c.rates.Get(s) != 0 ==> !Due(c', s, now, sensors))
  {
    hide Interval, Table.Get, Table.Set;
    PredictionAgrees(now, c.last.Get(s), c.rates.Get(s));
  }

  lemma UntouchedDeadline(c: Comm, c': Comm, s: Stream, x: Stream, now: u64, sensors: Sensors)
    requires OnlyTouches(c, c', s) && x != s
    ensures Deadline(c', x, now, sensors) == Deadline(c, x, now, sensors)
  {}

  /** One call of the one-stream path: false exactly when nothing is due, otherwise the least due stream goes out. */
  lemma SendOneStep(c: Comm, now: u64, sensors: Sensors)
    requires FixedRatesPositive(c)
    ensures var (c', sent) := SendOne(c, now, sensors);
      && (sent <==> DueSet(c, now, sensors) != {}) && FixedRatesPositive(c')
      && (!sent ==> c' == c)
      && (sent ==>
            var s := Select(c, now, sensors).value;
            && Due(c, s, now, sensors) && DueSet(c', now, sensors) == DueSet(c, now, sensors) - {s}
            && (forall x :: x != s ==> Deadline(c', x, now, sensors) == Deadline(c, x, now, sensors)))
  {
    hide SendSelected, Deadline, Select;
    SelectLeast(c, now, sensors);
    var selected := Select(c, now, sensors);
    if selected.Some? {
      var s := selected.value;
      DueIsSent(c, s, now, sensors);
      var c' := SendSelected(c, s, DueDeadline, now, sensors).0;
      forall x | x != s ensures Deadline(c', x, now, sensors) == Deadline(c, x, now, sensors) {
        UntouchedDeadline(c, c', s, x, now, sensors);
      }
    }
  }

  // ---------- The drain ----------

  /** Repeated one-stream sends at a fixed time: the state left behind and the streams sent, in order. */
  function Drain(c: Comm, now: u64, sensors: Sensors): (Comm, seq<Stream>)
    requires FixedRatesPositive(c)
    decreases |DueSet(c, now, sensors)|
  {
    SelectLeast(c, now, sensors);
    match Select(c, now, sensors)
    case None => (c, [])
    case Some(s) =>
      SendOneStep(c, now, sensors);
      var (after, order) := Drain(SendOne(c, now, sensors).0, now, sensors);
      (after, [s] + order)
  }

  function Records(order: seq<Stream>, sensors: Sensors): seq<Record> {
    seq(|order|, i requires 0 <= i < |order| => Record(order[i], sensors.Sample(order[i]), true))
  }

  /** The drained streams: exactly the due ones, each once, in strictly increasing order of deadline and rank. */
  ghost predicate DrainedInOrder(c: Comm, order: seq<Stream>, now: u64, sensors: Sensors) {
    && (forall s :: s in order <==> Due(c, s, now, sensors))
    && forall i, j :: 0 <= i < j < |order| && Due(c, order[i], now, sensors) && Due(c, order[j], now, sensors) ==>
         Before(order[i], Deadline(c, order[i], now, sensors).value,
                order[j], Deadline(c, order[j], now, sensors).value)
  }

  lemma PrependInOrder(c: Comm, c': Comm, s: Stream, order: seq<Stream>, now: u64, sensors: Sensors)
    requires Select(c, now, sensors) == Some(s) && DrainedInOrder(c', order, now, sensors)
    requires DueSet(c', now, sensors) == DueSet(c, now, sensors) - {s}
    requires forall x :: x != s ==> Deadline(c', x, now, sensors) == Deadline(c, x, now, sensors)
    ensures DrainedInOrder(c, [s] + order, now, sensors)
  {
    hide Deadline, Select, Before;
    SelectLeast(c, now, sensors);
    var all := [s] + order;
    forall x ensures Due(c', x, now, sensors) <==> Due(c, x, now, sensors) && x != s {
      assert x in DueSet(c', now, sensors) <==> x in DueSet(c, now, sensors) - {s};
    }
    forall x ensures x in all <==> Due(c, x, now, sensors) {}
    forall i, j | 0 <= i < j < |all| && Due(c, all[i], now, sensors) && Due(c, all[j], now, sensors)
      ensures Before(all[i], Deadline(c, all[i], now, sensors).value, all[j], Deadline(c, all[j], now, sensors).value)
    {
      assert all[j] == order[j - 1] && order[j - 1] in order;
      if i > 0 {
        assert all[i] == order[i - 1] && order[i - 1] in order;
      }
    }
  }

  /**
  The drain sends exactly the initially due streams, each once, by deadline and then by the fixed
  order, in at most twelve sends; afterwards nothing is due, and only the sent streams changed.
  */
  lemma {:induction false} DrainComplete(c: Comm, now: u64, sensors: Sensors)
    requires FixedRatesPositive(c)
    ensures var (after, order) := Drain(c, now, sensors);
      && DrainedInOrder(c, order, now, sensors) && |order| == |DueSet(c, now, sensors)|
      && DueSet(after, now, sensors) == {}
      && after.trace == c.trace + Records(order, sensors)
    decreases |DueSet(c, now, sensors)|
  {
    hide Due, SendOne, SendSelected, Select, Drain, DrainedInOrder;
    DrainUnfolds(c, now, sensors);
    SelectLeast(c, now, sensors);
    match Select(c, now, sensors)
    case None => NothingDrained(c, now, sensors);
    case Some(s) =>
      var c' := SendOne(c, now, sensors).0;
      SendOneStep(c, now, sensors);
      SentRecord(c, s, now, sensors);
      DrainComplete(c', now, sensors);
      var (after, order) := Drain(c', now, sensors);
      PrependInOrder(c, c', s, order, now, sensors);
      assert Records([s] + order, sensors) == [Record(s, sensors.Sample(s), true)] + Records(order, sensors);
  }

  lemma DrainUnfolds(c: Comm, now: u64, sensors: Sensors)
    requires FixedRatesPositive(c)
    ensures FixedRatesPositive(SendOne(c, now, sensors).0)
    ensures Drain(c, now, sensors) ==
      if Select(c, now, sensors).None? then (c, [])
      else
        var rest := Drain(SendOne(c, now, sensors).0, now, sensors);
        (rest.0, [Select(c, now, sensors).value] + rest.1)
  {
    hide SendOne, Select, Due;
    SendOneStep(c, now, sensors);
  }

  lemma SentRecord(c: Comm, s: Stream, now: u64, sensors: Sensors)
    requires FixedRatesPositive(c) && Select(c, now, sensors) == Some(s)
    ensures SendOne(c, now, sensors).0.trace == c.trace + [Record(s, sensors.Sample(s), true)]
  {
    hide SendSelected, Select, Deadline;
    SelectLeast(c, now, sensors);
    DueIsSent(c, s, now, sensors);
  }

  lemma NothingDrained(c: Comm, now: u64, sensors: Sensors)
    requires DueSet(c, now, sensors) == {}
    ensures DrainedInOrder(c, [], now, sensors) && c.trace + Records([], sensors) == c.trace
  {
    hide Deadline;
    forall s ensures !Due(c, s, now, sensors) {
      assert s !in DueSet(c, now, sensors);
    }
  }

  lemma {:induction false} RanksBound(due: set<Stream>, n: nat)
    requires n <= |ORDER| && forall s :: s in due ==> Rank(s) < n
    ensures |due| <= n
    decreases n
  {
    if n == 0 {
      assert due == {};
    } else {
      forall s | s in due - {ORDER[n - 1]} ensures Rank(s) < n - 1 {
        assert ORDER[Rank(s)] == s;
      }
      RanksBound(due - {ORDER[n - 1]}, n - 1);
    }
  }

  /** The drain stops within twelve sends. */
  lemma AtMostTwelve(c: Comm, now: u64, sensors: Sensors)
    requires FixedRatesPositive(c)
    ensures |Drain(c, now, sensors).1| <= 12
  {
    hide Due, Drain;
    RanksBound(DueSet(c, now, sensors), |ORDER|);
    DrainComplete(c, now, sensors);
  }

  // ---------- The bulk path has the effect of the drain ----------

  /** OUTPUT_RAW consumes a sample without sending: no rate of its own, and the cadence is not due. */
  predicate Consumes(c: Comm, s: Stream, sensors: Sensors) {
    ByCadence(c, s) && sensors.imu.Some? && c.freshness.Get(OutputRaw) != sensors.imu && !CadenceDue(c)
  }

  ghost predicate SameEntries(c: Comm, c': Comm, s: Stream) {
    && c'.rates == c.rates && c'.divisor == c.divisor && (s.OutputRaw? ==> c'.imuCount == c.imuCount)
    && c'.last.Get(s) == c.last.Get(s) && c'.freshness.Get(s) == c.freshness.Get(s)
  }

  lemma SameEntriesSameFate(c: Comm, c': Comm, s: Stream, now: u64, sensors: Sensors)
    requires SameEntries(c, c', s)
    ensures Due(c', s, now, sensors) == Due(c, s, now, sensors) && NewLast(c', s, now) == NewLast(c, s, now)
    ensures Consumes(c', s, sensors) == Consumes(c, s, sensors)
    ensures NewFreshness(c', s, sensors) == NewFreshness(c, s, sensors)
  {}

  /** The effect of draining, stream by stream. */
  lemma {:induction false} DrainEffect(c: Comm, s: Stream, now: u64, sensors: Sensors)
    requires FixedRatesPositive(c)
    ensures var after := Drain(c, now, sensors).0;
      && after.last.Get(s) == (if Due(c, s, now, sensors) then NewLast(c, s, now) else c.last.Get(s))
      && after.freshness.Get(s) == if Due(c, s, now, sensors) then NewFreshness(c, s, sensors) else c.freshness.Get(s)
    decreases |DueSet(c, now, sensors)|
  {
    hide Due, SendSelected, Select, Drain, NewLast, NewFreshness;
    DrainUnfolds(c, now, sensors);
    SelectLeast(c, now, sensors);
    if Select(c, now, sensors).None? {
      assert s !in DueSet(c, now, sensors);
    } else {
      var x := Select(c, now, sensors).value;
      var c' := SendOne(c, now, sensors).0;
      SendOneStep(c, now, sensors);
      DueIsSent(c, x, now, sensors);
      DrainEffect(c', s, now, sensors);
      if s != x {
        SameEntriesSameFate(c, c', s, now, sensors);
      } else {
        assert s !in DueSet(c', now, sensors);
      }
    }
  }

  /** The records one stream leaves on the bulk path. */
  function BulkRecords(c: Comm, s: Stream, now: u64, sensors: Sensors): seq<Record> {
    if Due(c, s, now, sensors) then [Record(s, sensors.Sample(s), true)]
    else if Consumes(c, s, sensors) then [Record(s, sensors.Sample(s), false)]
    else []
  }

  /** What the bulk path does with one stream. */
  ghost predicate BulkEffect(c: Comm, c': Comm, s: Stream, now: u64, sensors: Sensors) {
    && OnlyTouches(c, c', s) && c'.trace == c.trace + BulkRecords(c, s, now, sensors)
    && c'.last.Get(s) == (if Due(c, s, now, sensors) then NewLast(c, s, now) else c.last.Get(s))
    && c'.freshness.Get(s) ==
         if Due(c, s, now, sensors) then NewFreshness(c, s, sensors)
         else if Consumes(c, s, sensors) then sensors.Sample(s)
         else c.freshness.Get(s)
  }

  lemma BulkFixedEffect(c: Comm, s: Stream, now: u64, sensors: Sensors)
    requires !IsSensor(s)
    ensures BulkEffect(c, BulkOne(c, s, now, sensors), s, now, sensors)
  {
    hide FixedDue, FixedDeadline, StreamDue, Table.Get, Table.Set;
    PredictionAgrees(now, c.last.Get(s), c.rates.Get(s));
    assert c.trace + [] == c.trace;
  }

  lemma BulkSensorEffect(c: Comm, s: Stream, now: u64, sensors: Sensors)
    requires IsSensor(s)
    ensures BulkEffect(c, BulkOne(c, s, now, sensors), s, now, sensors)
  {
    hide StreamDue, StreamDeadline, FixedDue, Table.Get, Table.Set;
    StreamNotDue(now, c.last.Get(s), c.rates.Get(s));
    PredictionAgrees(now, c.last.Get(s), c.rates.Get(s));
    assert c.trace + [] == c.trace;
  }

  lemma StreamNotDue(now: u64, last: u64, rate: u16)
    ensures !StreamDue(now, last, rate).0 ==> StreamDue(now, last, rate).1 == last
  {}

  lemma BulkOneEffect(c: Comm, s: Stream, now: u64, sensors: Sensors)
    ensures BulkEffect(c, BulkOne(c, s, now, sensors), s, now, sensors)
  {
    hide BulkEffect, BulkOne;
    if IsSensor(s) {
      BulkSensorEffect(c, s, now, sensors);
    } else {
      BulkFixedEffect(c, s, now, sensors);
    }
  }

  lemma {:induction false} BulkAmongEffect(c: Comm, streams: seq<Stream>, s: Stream, now: u64, sensors: Sensors)
    requires forall i, j :: 0 <= i < j < |streams| ==> streams[i] != streams[j]
    ensures var c' := BulkAmong(c, streams, now, sensors);
      if s in streams then
        && c'.last.Get(s) == (if Due(c, s, now, sensors) then NewLast(c, s, now) else c.last.Get(s))
        && c'.freshness.Get(s) ==
             if Due(c, s, now, sensors) then NewFreshness(c, s, sensors)
             else if Consumes(c, s, sensors) then sensors.Sample(s)
             else c.freshness.Get(s)
      else SameEntries(c, c', s)
    ensures BulkAmong(c, streams, now, sensors).rates == c.rates
    ensures BulkAmong(c, streams, now, sensors).divisor == c.divisor
    decreases |streams|
  {
    hide Due, BulkOne, NewLast, NewFreshness, Consumes;
    if |streams| > 0 {
      var n := |streams| - 1;
      BulkAmongEffect(c, streams[..n], s, now, sensors);
      var before := BulkAmong(c, streams[..n], now, sensors);
      BulkOneEffect(before, streams[n], now, sensors);
      assert s in streams <==> s in streams[..n] || s == streams[n];
      if s == streams[n] {
        assert s !in streams[..n];
        SameEntriesSameFate(c, before, s, now, sensors);
      }
    }
  }

  lemma BulkNext(c: Comm, k: nat, now: u64, sensors: Sensors)
    requires k < |BULK_ORDER|
    ensures BulkAmong(c, BULK_ORDER[..k + 1], now, sensors) ==
      BulkOne(BulkAmong(c, BULK_ORDER[..k], now, sensors), BULK_ORDER[k], now, sensors)
  {
    assert BULK_ORDER[..k + 1][..k] == BULK_ORDER[..k];
  }

  lemma BulkOrderComplete(s: Stream)
    ensures s in BULK_ORDER
    ensures forall i, j :: 0 <= i < j < |BULK_ORDER| ==> BULK_ORDER[i] != BULK_ORDER[j]
  {
    var index :=
      match s
      case Heartbeat => 0 case Status => 1 case Imu => 2 case Attitude => 3 case OutputRaw => 4 case DiffPressure => 5
      case Baro => 6 case Mag => 7 case Range => 8 case Battery => 9 case Gnss => 10 case RcRaw => 11;
    assert BULK_ORDER[index] == s;
  }

  /**
  The bulk path leaves every stream's phase where the drain leaves it, and its freshness too, unless
  OUTPUT_RAW consumed a sample it did not send, which only the bulk path does.
  */
  lemma BulkHasDrainEffect(c: Comm, now: u64, sensors: Sensors)
    requires FixedRatesPositive(c)
    ensures var (bulk, drained) := (Bulk(c, now, sensors), Drain(c, now, sensors).0);
      && bulk.last == drained.last
      && (bulk.freshness == drained.freshness <==> !Consumes(c, OutputRaw, sensors))
      && forall s :: s != OutputRaw ==> bulk.freshness.Get(s) == drained.freshness.Get(s)
  {
    hide Due, NewLast, NewFreshness, Drain, BulkAmong;
    var (bulk, drained) := (Bulk(c, now, sensors), Drain(c, now, sensors).0);
    forall s
      ensures bulk.last.Get(s) == drained.last.Get(s)
      ensures !Consumes(c, s, sensors) ==> bulk.freshness.Get(s) == drained.freshness.Get(s)
    {
      BulkOrderComplete(s);
      BulkAmongEffect(c, BULK_ORDER, s, now, sensors);
      DrainEffect(c, s, now, sensors);
    }
    TableExtensional(bulk.last, drained.last);
    if Consumes(c, OutputRaw, sensors) {
      ConsumedNotDue(c, now, sensors);
      BulkOrderComplete(OutputRaw);
      BulkAmongEffect(c, BULK_ORDER, OutputRaw, now, sensors);
      DrainEffect(c, OutputRaw, now, sensors);
    } else {
      TableExtensional(bulk.freshness, drained.freshness);
    }
  }

  lemma ConsumedNotDue(c: Comm, now: u64, sensors: Sensors)
    requires Consumes(c, OutputRaw, sensors)
    ensures !Due(c, OutputRaw, now, sensors)
  {}

  /** After the bulk path nothing is due, as after a drain. */
  lemma BulkSettles(c: Comm, now: u64, sensors: Sensors)
    requires FixedRatesPositive(c)
    ensures DueSet(Bulk(c, now, sensors), now, sensors) == {}
  {
    hide Due, NewLast, NewFreshness, BulkAmong, Consumes;
    forall s ensures !Due(Bulk(c, now, sensors), s, now, sensors) {
      BulkOrderComplete(s);
      BulkAmongEffect(c, BULK_ORDER, s, now, sensors);
      SettledNotDue(c, Bulk(c, now, sensors), s, now, sensors);
    }
  }

  lemma SettledNotDue(c: Comm, c': Comm, s: Stream, now: u64, sensors: Sensors)
    requires FixedRatesPositive(c) && c'.rates == c.rates
    requires c'.last.Get(s) == if Due(c, s, now, sensors) then NewLast(c, s, now) else c.last.Get(s)
    requires c'.freshness.Get(s) ==
      if Due(c, s, now, sensors) then NewFreshness(c, s, sensors)
      else if Consumes(c, s, sensors) then sensors.Sample(s)
      else c.freshness.Get(s)
    ensures !Due(c', s, now, sensors)
  {
    hide Interval;
  }

  /** With a fixed-rate stream at rate 0 the drain would never end: every call sends, and the rate stays 0. */
  lemma ZeroRateNeverDrains(c: Comm, now: u64, sensors: Sensors)
    requires !FixedRatesPositive(c)
    ensures SendOne(c, now, sensors).1 && !FixedRatesPositive(SendOne(c, now, sensors).0)
  {
    hide SendSelected, Select, Due;
    SelectLeast(c, now, sensors);
    var s := if c.rates.Get(Heartbeat) == 0 then Heartbeat else Status;
    ZeroRateDue(c, s, now, sensors);
    assert s in DueSet(c, now, sensors);
    DueIsSent(c, Select(c, now, sensors).value, now, sensors);
  }

  lemma ZeroRateDue(c: Comm, s: Stream, now: u64, sensors: Sensors)
    requires !IsSensor(s) && c.rates.Get(s) == 0
    ensures Due(c, s, now, sensors)
  {}

  // ---------- Reconfiguring one stream ----------

  /** One changed parameter leaves every other stream's entries and deadlines alone, whenever they are asked for. */
  lemma ParamTouchesOne(c: Comm, s: Stream, value: int, now: u64, x: Stream, later: u64, sensors: Sensors)
    requires x != s
    ensures var c' := ParamUpdated(c, s, value, now);
      && c'.rates.Get(x) == c.rates.Get(x) && c'.last.Get(x) == c.last.Get(x) && c'.freshness == c.freshness
      && Deadline(c', x, later, sensors) == Deadline(c, x, later, sensors)
  {
    hide StreamDeadline, FixedDeadline, Table.Get, Table.Set;
  }

  /** The changed stream starts a new period: at a positive rate it is not due before one interval has passed. */
  lemma ParamStartsPeriod(c: Comm, s: Stream, value: int, now: u64, later: u64, sensors: Sensors)
    requires value > 0 && 0 < now <= later
    ensures var c' := ParamUpdated(c, s, value, now);
      Due(c', s, later, sensors) ==> later - now >= Interval(c'.rates.Get(s))
  {
    hide Interval;
  }

  // ---------- The drain under a budget ----------

  /** One-stream sends at the given clock readings, until one finds nothing due: the state left and the sends. */
  function Budgeted(c: Comm, clock: seq<u64>, sensors: Sensors): (Comm, nat)
    decreases |clock|
  {
    if |clock| == 0 then (c, 0)
    else
      var (c', more) := SendOne(c, clock[0], sensors);
      if !more then (c', 0)
      else
        var (after, sent) := Budgeted(c', clock[1..], sensors);
        (after, sent + 1)
  }

  lemma DrainTurn(c: Comm, now: u64, sensors: Sensors)
    requires FixedRatesPositive(c)
    ensures var ((c', more), order) := (SendOne(c, now, sensors), Drain(c, now, sensors).1);
      && FixedRatesPositive(c')
      && (!more ==> c' == c && Drain(c, now, sensors) == (c, []))
      && (more ==>
            && order != [] && Drain(c', now, sensors) == (Drain(c, now, sensors).0, order[1..])
            && c'.trace == c.trace + [Record(order[0], sensors.Sample(order[0]), true)])
  {
    hide Drain, SendOne, Select, Due;
    DrainUnfolds(c, now, sensors);
    SendOneStep(c, now, sensors);
    SelectLeast(c, now, sensors);
    if Select(c, now, sensors).Some? {
      SentRecord(c, Select(c, now, sensors).value, now, sensors);
    }
  }

  /** While the clock stands still, a budget of n sends the first n streams of the drain, in its order. */
  lemma {:induction false} BudgetedDrains(c: Comm, n: nat, now: u64, sensors: Sensors)
    requires FixedRatesPositive(c)
    ensures var ((after, sent), (drained, order)) :=
        (Budgeted(c, seq(n, _ => now), sensors), Drain(c, now, sensors));
      && sent == (if n < |order| then n else |order|)
      && after.trace == c.trace + Records(order[..sent], sensors)
      && (n >= |order| ==> after == drained)
    decreases n
  {
    hide Drain, SendOne;
    var clock := seq(n, _ => now);
    DrainTurn(c, now, sensors);
    if n == 0 || !SendOne(c, now, sensors).1 {
      assert Records([], sensors) == [] && c.trace + [] == c.trace;
    } else {
      assert clock[1..] == seq(n - 1, _ => now);
      var c', order := SendOne(c, now, sensors).0, Drain(c, now, sensors).1;
      BudgetedDrains(c', n - 1, now, sensors);
      var sent := Budgeted(c', clock[1..], sensors).1;
      assert order[..sent + 1] == [order[0]] + order[1..][..sent];
      RecordsCons(order[0], order[1..][..sent], sensors);
    }
  }

  lemma RecordsCons(s: Stream, order: seq<Stream>, sensors: Sensors)
    ensures Records([s] + order, sensors) == [Record(s, sensors.Sample(s), true)] + Records(order, sensors)
  {}

  /** With a fixed-rate stream at rate 0 every budget is used up, whatever the clock reads. */
  lemma {:induction false} ZeroRateUsesBudget(c: Comm, clock: seq<u64>, sensors: Sensors)
    requires !FixedRatesPositive(c)
    ensures Budgeted(c, clock, sensors).1 == |clock|
    decreases |clock|
  {
    hide SendOne;
    if |clock| > 0 {
      ZeroRateNeverDrains(c, clock[0], sensors);
      ZeroRateUsesBudget(SendOne(c, clock[0], sensors).0, clock[1..], sensors);
    }
  }

  /**
  New rates start every sensor stream over, due at once unless disabled, and keep the samples already
  sent from going again.
  */
  lemma RatesStartOver(c: Comm, rates: Table<u16>, divisor: u64, s: Stream, now: u64, sensors: Sensors)
    requires IsSensor(s)
    ensures var c' := RatesSet(c, rates, divisor);
      && c'.freshness == c.freshness && c'.rates == rates
      && (!ByCadence(c', s) ==>
            (Due(c', s, now, sensors) <==>
               rates.Get(s) != DISABLED && sensors.Sample(s).Some? && c.freshness.Get(s) != sensors.Sample(s)))
      && (ByCadence(c', s) ==>
            (Due(c', s, now, sensors) <==>
               divisor != 0 && sensors.Sample(s).Some? && c.freshness.Get(s) != sensors.Sample(s)))
  {
    hide Interval;
  }

  /** Heartbeat and status keep their phase through new rates. */
  lemma RatesKeepFixed(c: Comm, rates: Table<u16>, divisor: u64)
    ensures var c' := RatesSet(c, rates, divisor);
      c'.last.Get(Heartbeat) == c.last.Get(Heartbeat) && c'.last.Get(Status) == c.last.Get(Status)
  {}

  /** A fresh IMU sample past its gate restarts the period of the IMU: the rate gate stays shut for a whole interval. */
  lemma FreshImuRestarts(c: Comm, now: u64, sensors: Sensors, later: u64, next: Sensors)
    requires SendSelected(c, Imu, FreshSample, now, sensors).1 && 0 < now <= later && c.rates.Get(Imu) > 0
    ensures var c' := SendSelected(c, Imu, FreshSample, now, sensors).0;
      Due(c', Imu, later, next) ==> later - now >= Interval(c.rates.Get(Imu))
  {
    hide Interval;
  }

  /** Each packet serves its own streams: only the IMU's serves three. */
  lemma SampleOwners(sensors: Sensors, t: Option<u64>, s: Stream)
    ensures sensors.(imu := t).Sample(s) == if s in {Imu, Attitude, OutputRaw} then t else sensors.Sample(s)
    ensures sensors.(rc := t).Sample(s) == if s == RcRaw then t else sensors.Sample(s)
    ensures sensors.(gnss := t).Sample(s) == if s == Gnss then t else sensors.Sample(s)
    ensures sensors.(pitot := t).Sample(s) == if s == DiffPressure then t else sensors.Sample(s)
    ensures sensors.(baro := t).Sample(s) == if s == Baro then t else sensors.Sample(s)
    ensures sensors.(mag := t).Sample(s) == if s == Mag then t else sensors.Sample(s)
    ensures sensors.(range := t).Sample(s) == if s == Range then t else sensors.Sample(s)
    ensures sensors.(battery := t).Sample(s) == if s == Battery then t else sensors.Sample(s)
  {}

  // ---------- The cadence of OUTPUT_RAW ----------

  /** The bulk path on fresh IMU samples, one after the other: how many OUTPUT_RAW messages go out. */
  function CadenceSent(c: Comm, samples: seq<u64>, now: u64, sensors: Sensors): (Comm, nat) {
    if |samples| == 0 then (c, 0)
    else
      var n := |samples| - 1;
      var (before, sent) := CadenceSent(c, samples[..n], now, sensors);
      (BulkOne(before, OutputRaw, now, sensors.(imu := Some(samples[n]))), sent + if CadenceDue(before) then 1 else 0)
  }

  predicate NeighboursDiffer(samples: seq<u64>) {
    forall i :: 0 < i < |samples| ==> samples[i - 1] != samples[i]
  }

  /** How many of the numbers below n the divisor divides. */
  function Multiples(n: nat, divisor: nat): nat
    requires divisor > 0
  {
    (n + divisor - 1) / divisor
  }

  lemma NextMultiple(n: nat, divisor: nat)
    requires divisor > 0
    ensures Multiples(n + 1, divisor) == Multiples(n, divisor) + if n % divisor == 0 then 1 else 0
  {
    var q, r := n / divisor, n % divisor;
    assert n == q * divisor + r;
    DivMod(n, divisor, q, r);
    if r == 0 {
      QuotientIs(n + divisor - 1, divisor, q, divisor - 1);
      QuotientIs(n + divisor, divisor, q + 1, 0);
    } else {
      QuotientIs(n + divisor - 1, divisor, q + 1, r - 1);
      QuotientIs(n + divisor, divisor, q + 1, r);
    }
  }

  lemma DivMod(n: nat, divisor: nat, q: nat, r: nat)
    requires divisor > 0 && n == q * divisor + r
    ensures n + divisor == (q + 1) * divisor + r
  {}

  lemma QuotientIs(n: nat, divisor: nat, q: nat, r: nat)
    requires r < divisor && n == q * divisor + r
    ensures n / divisor == q
  {
    var p := n / divisor;
    assert n == p * divisor + n % divisor;
    if p < q {
      MulMonotone(p + 1, divisor, q, divisor);
    } else if p > q {
      MulMonotone(q + 1, divisor, p, divisor);
    }
  }

  /** Every divisor-th fresh IMU sample, the first included, is sent; the others are consumed. */
  lemma {:induction false} EveryDivisorth(c: Comm, samples: seq<u64>, now: u64, sensors: Sensors)
    requires c.rates.Get(OutputRaw) == 0 && c.divisor > 0 && c.imuCount == 0 && |samples| < U64_MAX
    requires NeighboursDiffer(samples) && (|samples| > 0 ==> c.freshness.Get(OutputRaw) != Some(samples[0]))
    ensures var (after, sent) := CadenceSent(c, samples, now, sensors);
      && sent == Multiples(|samples|, c.divisor) && after.imuCount == |samples|
      && after.rates == c.rates && after.divisor == c.divisor
      && (|samples| > 0 ==> after.freshness.Get(OutputRaw) == Some(samples[|samples| - 1]))
      && after.trace == c.trace + CadenceRecords(samples, c.divisor)
    decreases |samples|
  {
    hide Multiples, BulkOne, Sensors.Sample;
    if |samples| == 0 {
      NoMultiples(c.divisor);
      assert c.trace + CadenceRecords(samples, c.divisor) == c.trace;
    } else {
      var n := |samples| - 1;
      EveryDivisorth(c, samples[..n], now, sensors);
      NextMultiple(n, c.divisor);
      var before := CadenceSent(c, samples[..n], now, sensors).0;
      assert n > 0 ==> samples[..n][n - 1] == samples[n - 1];
      CadenceStep(before, samples[n], now, sensors);
    }
  }

  lemma CadenceStep(c: Comm, sample: u64, now: u64, sensors: Sensors)
    requires c.rates.Get(OutputRaw) == 0 && c.imuCount < U64_MAX && c.freshness.Get(OutputRaw) != Some(sample)
    ensures var after := BulkOne(c, OutputRaw, now, sensors.(imu := Some(sample)));
      && after.imuCount == c.imuCount + 1 && after.rates == c.rates && after.divisor == c.divisor
      && after.freshness.Get(OutputRaw) == Some(sample)
      && after.trace == c.trace + [Record(OutputRaw, Some(sample), CadenceDue(c))]
  {
    hide Table.Set;
  }

  lemma NoMultiples(divisor: nat)
    requires divisor > 0
    ensures Multiples(0, divisor) == 0
  {}

  function CadenceRecords(samples: seq<u64>, divisor: nat): seq<Record>
    requires divisor > 0
  {
    seq(|samples|, i requires 0 <= i < |samples| => Record(OutputRaw, Some(samples[i]), i % divisor == 0))
  }
}
