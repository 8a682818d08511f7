/** The tester's bookkeeping of sequence numbers, and when its loss count is the true one. */
module SequenceCheck {
  import opened Wrappers

  type Seq = n: int | 0 <= n < 256

  datatype Arrival = Arrival(number: Seq, sysid: int, compid: int, msgid: int)
  datatype Kind = Duplicate | Gap | Backwards
  datatype Sample = Sample(kind: Kind, prev: Seq, delta: int, arrival: Arrival)

  const SAMPLE_LIMIT := 8

  datatype Summary = Summary(
    total: nat, first: Option<Seq>, last: Seq, expectedNext: Seq,
    inOrder: nat, gaps: nat, missing: int, backwards: nat, duplicates: nat,
    byMsgid: map<int, int>, samples: seq<Sample>, pending: set<Seq>)

  const EMPTY := Summary(0, None, 0, 0, 0, 0, 0, 0, 0, map[], [], {})

  function Bump(counts: map<int, int>, id: int): map<int, int> {
    counts[id := if id in counts then counts[id] + 1 else 1]
  }

  function AddSample(samples: seq<Sample>, sample: Sample): seq<Sample> {
    if |samples| >= SAMPLE_LIMIT then samples else samples + [sample]
  }

  /** `(n + 1) & 0xFF`. */
  function Succ(n: Seq): Seq {
    if n == 255 then 0 else n + 1
  }

  /** `(a - b) & 0xFF`. */
  function Delta(a: Seq, b: Seq): Seq {
    if a >= b then a - b else a - b + 256
  }

  lemma MaskArithmetic(a: Seq, b: Seq)
    ensures Succ(a) == (a + 1) % 256 && Delta(a, b) == (a - b) % 256
  {}

  lemma DeltaZero(a: Seq, b: Seq)
    ensures 0 <= Delta(a, b) < 256 && (Delta(a, b) == 0 <==> a == b)
  {}

  /** The `n` numbers after `last`, counting upwards modulo 256. */
  function Skipped(last: Seq, n: nat): set<Seq>
    decreases n
  {
    if n == 0 then {} else {Succ(last)} + Skipped(Succ(last), n - 1)
  }

  function ObserveOne(s: Summary, a: Arrival): Summary {
    var counted := s.(total := s.total + 1, byMsgid := Bump(s.byMsgid, a.msgid));
    var next := Succ(a.number);
    if s.first.None? then counted.(first := Some(a.number), last := a.number, expectedNext := next)
    else
      var delta := Delta(a.number, s.last);
      if a.number == s.expectedNext then
        counted.(inOrder := s.inOrder + 1, last := a.number, expectedNext := next)
      else if delta == 0 then
        counted.(duplicates := s.duplicates + 1,
                 samples := AddSample(s.samples, Sample(Duplicate, s.last, delta, a)))
      else if delta < 128 then
        counted.(gaps := s.gaps + 1, missing := s.missing + delta - 1,
                 pending := s.pending + Skipped(s.last, delta - 1),
                 samples := AddSample(s.samples, Sample(Gap, s.last, delta, a)),
                 last := a.number, expectedNext := next)
      else
        counted.(backwards := s.backwards + 1,
                 missing := if a.number in s.pending then s.missing - 1 else s.missing,
                 pending := s.pending - {a.number},
                 samples := AddSample(s.samples, Sample(Backwards, s.last, delta, a)))
  }

  function ObserveAll(s: Summary, arrivals: seq<Arrival>): Summary {
    if arrivals == [] then s else ObserveOne(ObserveAll(s, arrivals[..|arrivals| - 1]), arrivals[|arrivals| - 1])
  }

  class SequenceSummary {
    var total: nat
    var first: Option<Seq>
    var last: Seq
    var expectedNext: Seq
    var inOrder: nat
    var gaps: nat
    var missing: int
    var backwards: nat
    var duplicates: nat
    var byMsgid: map<int, int>
    var gapSamples: seq<Sample>
    var pendingMissing: set<Seq>

    function Value(): Summary
      reads this
    {
      Summary(total, first, last, expectedNext, inOrder, gaps, missing, backwards, duplicates,
              byMsgid, gapSamples, pendingMissing)
    }

    constructor ()
      ensures Value() == EMPTY
    {
      total, first, last, expectedNext := 0, None, 0, 0;
      inOrder, gaps, missing, backwards, duplicates := 0, 0, 0, 0, 0;
      byMsgid, gapSamples, pendingMissing := map[], [], {};
    }

    method AddPending(number: Seq)
      requires number != last
      modifies `pendingMissing
      ensures pendingMissing == old(pendingMissing) + Skipped(last, Delta(number, last) - 1)
    {
      ghost var before := last;
      var missingNumber := Succ(last);
      while missingNumber != number
        invariant missingNumber == Succ(before) && before != number
        invariant pendingMissing + Skipped(before, Delta(number, before) - 1)
               == old(pendingMissing) + Skipped(last, Delta(number, last) - 1)
        decreases Delta(number, before)
      {
        pendingMissing := pendingMissing + {missingNumber};
        before := missingNumber;
        missingNumber := Succ(missingNumber);
      }
    }

    method Observe(a: Arrival)
      modifies this
      ensures Value() == ObserveOne(old(Value()), a)
    {
      hide Skipped, Bump, AddSample, Succ, Delta;
      DeltaZero(a.number, last);
      total := total + 1;
      byMsgid := Bump(byMsgid, a.msgid);
      if first.None? {
        first, last, expectedNext := Some(a.number), a.number, Succ(a.number);
        return;
      }
      var delta := Delta(a.number, last);
      if a.number == expectedNext {
        inOrder := inOrder + 1;
        last, expectedNext := a.number, Succ(a.number);
      } else if delta == 0 {
        duplicates := duplicates + 1;
        gapSamples := AddSample(gapSamples, Sample(Duplicate, last, delta, a));
      } else if delta < 128 {
        gaps := gaps + 1;
        missing := missing + delta - 1;
        AddPending(a.number);
        gapSamples := AddSample(gapSamples, Sample(Gap, last, delta, a));
        last, expectedNext := a.number, Succ(a.number);
      } else {
        backwards := backwards + 1;
        if a.number in pendingMissing {
          pendingMissing := pendingMissing - {a.number};
          missing := missing - 1;
        }
        assert pendingMissing == old(pendingMissing) - {a.number};
        gapSamples := AddSample(gapSamples, Sample(Backwards, last, delta, a));
      }
    }
  }

  // ---------- On any arrivals at all ----------

  ghost predicate Accounted(s: Summary) {
    && s.missing >= |s.pending|
    && (s.first.None? ==> s == EMPTY)
    && (s.first.Some? ==>
          s.total == 1 + s.inOrder + s.gaps + s.duplicates + s.backwards && s.expectedNext == Succ(s.last))
  }

  lemma {:induction false} SkippedSize(last: Seq, n: nat)
    ensures |Skipped(last, n)| <= n
    decreases n
  {
    if n != 0 {
      SkippedSize(Succ(last), n - 1);
    }
  }

  lemma UnionSize<T>(a: set<T>, b: set<T>)
    ensures |a + b| <= |a| + |b|
  {
    assert a + b == a + (b - a);
  }

  /** Every arrival keeps the account: no more numbers pending than counted missing, and every arrival in one class. */
  lemma ObserveAccounted(s: Summary, a: Arrival)
    requires Accounted(s)
    ensures Accounted(ObserveOne(s, a))
  {
    var delta := Delta(a.number, s.last);
    if s.first.Some? && 1 < delta < 128 {
      SkippedSize(s.last, delta - 1);
      UnionSize(s.pending, Skipped(s.last, delta - 1));
    }
  }

  lemma {:induction false} AllAccounted(arrivals: seq<Arrival>)
    ensures Accounted(ObserveAll(EMPTY, arrivals))
  {
    if arrivals != [] {
      AllAccounted(arrivals[..|arrivals| - 1]);
      ObserveAccounted(ObserveAll(EMPTY, arrivals[..|arrivals| - 1]), arrivals[|arrivals| - 1]);
    }
  }

  // ---------- On a lossy but ordered channel ----------

  /** The number on the wire of the `j`-th frame of a sender that started at `first` and wraps modulo 256. */
  function Number(first: Seq, j: nat): Seq {
    (first + j) % 256
  }

  /** The frames received, as positions in the sender's stream: in order, and at most 126 lost in a row. */
  ghost predicate Received(at: seq<nat>) {
    forall i, j :: 0 < i < |at| && j == i - 1 ==> at[j] < at[i] <= at[j] + 127
  }

  /** The order of the channel alone. */
  ghost predicate Increasing(at: seq<nat>) {
    forall i, j :: 0 < i < |at| && j == i - 1 ==> at[j] < at[i]
  }

  ghost predicate Carries(arrivals: seq<Arrival>, first: Seq, at: seq<nat>) {
    |arrivals| == |at| && forall i :: 0 <= i < |at| ==> arrivals[i].number == Number(first, at[i])
  }

  /** The positions strictly between `a` and `b`. */
  function Between(a: nat, b: nat): (s: set<nat>)
    ensures forall j {:trigger j in s} :: j in s <==> a < j < b
    decreases b
  {
    if b <= a + 1 then {} else Between(a, b - 1) + {b - 1}
  }

  /** The frames lost between the first and the last one received. */
  ghost function Lost(at: seq<nat>): set<nat>
    requires at != []
  {
    set j | at[0] < j < at[|at| - 1] && j !in at
  }

  /** The bursts of loss: the receptions that did not follow their predecessor directly. */
  ghost function Bursts(at: seq<nat>): set<nat> {
    set i | 0 < i < |at| && AfterLoss(at, i)
  }

  predicate AfterLoss(at: seq<nat>, i: nat)
    requires 0 < i < |at|
  {
    at[i] != at[i - 1] + 1
  }

  lemma NumbersStep(first: Seq, j: nat, d: nat)
    requires d < 256
    ensures Number(first, j + 1) == Succ(Number(first, j))
    ensures Delta(Number(first, j + d), Number(first, j)) == d
  {
    var q := (first + j) / 256;
    assert first + j == 256 * q + Number(first, j);
    var r := if Number(first, j) + d < 256 then Number(first, j) + d else Number(first, j) + d - 256;
    assert first + j + d == 256 * (if Number(first, j) + d < 256 then q else q + 1) + r;
    assert Number(first, j + d) == r;
  }

  lemma {:induction false} SkippedNumbers(first: Seq, j: nat, n: nat)
    ensures Skipped(Number(first, j), n) == set k | k in Between(j, j + n + 1) :: Number(first, k)
    decreases n
  {
    if n != 0 {
      NumbersStep(first, j, 0);
      SkippedNumbers(first, j + 1, n - 1);
      assert Between(j, j + n + 1) == {j + 1} + Between(j + 1, j + n + 1);
    }
  }

  lemma {:induction false} BetweenSize(a: nat, n: nat)
    ensures |Between(a, a + n + 1)| == n
    decreases n
  {
    if n != 0 {
      BetweenSize(a, n - 1);
      var before := Between(a, a + n);
      assert a + n !in before;
      assert Between(a, a + n + 1) == before + {a + n};
    } else {
      assert Between(a, a + 1) == {};
    }
  }

  lemma {:induction false} Ordered(at: seq<nat>, i: nat, j: nat)
    requires Increasing(at) && i <= j < |at|
    ensures at[i] + (j - i) <= at[j]
    decreases j
  {
    if i < j {
      Ordered(at, i, j - 1);
    }
  }

  /** One more reception loses exactly the positions it skips. */
  lemma LostGrows(at: seq<nat>, k: nat)
    requires at != [] && Increasing(at + [k])
    ensures Lost(at + [k]) == Lost(at) + Between(at[|at| - 1], k)
    ensures Lost(at) !! Between(at[|at| - 1], k)
  {
    var more, p := at + [k], at[|at| - 1];
    forall j: nat ensures j in at ==> j <= p {
      if j in at {
        var i :| 0 <= i < |at| && at[i] == j;
        Ordered(more, i, |at| - 1);
      }
    }
    Ordered(more, 0, |at| - 1);
    assert more[0] == at[0] && more[|at| - 1] == p && more[|at|] == k;
    assert forall j :: j in more <==> j in at || j == k;
    assert p in at;
  }

  lemma BurstsGrow(at: seq<nat>, k: nat)
    requires at != []
    ensures |Bursts(at + [k])| == |Bursts(at)| + if k == at[|at| - 1] + 1 then 0 else 1
  {
    var more := at + [k];
    assert Bursts(more) == Bursts(at) + if k == at[|at| - 1] + 1 then {} else {|at|};
  }

  ghost predicate Exact(s: Summary, first: Seq, at: seq<nat>)
    requires at != []
  {
    && s.first.Some? && s.last == Number(first, at[|at| - 1]) && s.expectedNext == Succ(s.last)
    && s.total == |at| && s.duplicates == 0 && s.backwards == 0
    && s.missing == |Lost(at)| && s.gaps == |Bursts(at)| && s.inOrder == |at| - 1 - |Bursts(at)|
    && s.pending == set j | j in Lost(at) :: Number(first, j)
  }

  lemma {:induction false} PendingGrows(first: Seq, at: seq<nat>, k: nat, n: nat)
    requires at != [] && Received(at + [k]) && k == at[|at| - 1] + n + 1
    ensures (set j | j in Lost(at + [k]) :: Number(first, j))
         == (set j | j in Lost(at) :: Number(first, j)) + Skipped(Number(first, at[|at| - 1]), n)
  {
    LostGrows(at, k);
    SkippedNumbers(first, at[|at| - 1], n);
  }

  lemma LostCount(at: seq<nat>, k: nat, n: nat)
    requires at != [] && Increasing(at + [k]) && k == at[|at| - 1] + n + 1
    ensures |Lost(at + [k])| == |Lost(at)| + n
  {
    hide Lost, Increasing, Between;
    LostGrows(at, k);
    BetweenSize(at[|at| - 1], n);
  }

  lemma ObserveExact(s: Summary, first: Seq, at: seq<nat>, k: nat, a: Arrival)
    requires at != [] && Received(at + [k]) && Exact(s, first, at) && a.number == Number(first, k)
    ensures Exact(ObserveOne(s, a), first, at + [k])
  {
    hide Number, Skipped, Lost, Bursts, Bump, AddSample;
    var p := at[|at| - 1];
    assert (at + [k])[|at| - 1] == p && (at + [k])[|at|] == k;
    var n: nat := k - p - 1;
    NumbersStep(first, p, n + 1);
    BurstsGrow(at, k);
    LostCount(at, k, n);
    PendingGrows(first, at, k, n);
    NothingSkipped(Number(first, p));
  }

  lemma NothingSkipped(last: Seq)
    ensures Skipped(last, 0) == {}
  {}

  /**
  Over an ordered channel that never loses 127 frames in a row, the summary is exact: the missing
  count is the number of frames lost between the first and the last received, the gaps are the
  bursts of loss, the pending numbers are those of the lost frames, and nothing is misclassified.
  */
  lemma {:induction false} LossCountExact(arrivals: seq<Arrival>, first: Seq, at: seq<nat>)
    requires at != [] && Received(at) && Carries(arrivals, first, at)
    ensures Exact(ObserveAll(EMPTY, arrivals), first, at)
    decreases |at|
  {
    hide Exact, ObserveOne;
    var n := |at| - 1;
    if n == 0 {
      FirstExact(arrivals, first, at);
    } else {
      assert Received(at[..n]);
      LossCountExact(arrivals[..n], first, at[..n]);
      assert at == at[..n] + [at[n]];
      ObserveExact(ObserveAll(EMPTY, arrivals[..n]), first, at[..n], at[n], arrivals[n]);
    }
  }

  lemma FirstExact(arrivals: seq<Arrival>, first: Seq, at: seq<nat>)
    requires |at| == 1 && Carries(arrivals, first, at)
    ensures Exact(ObserveAll(EMPTY, arrivals), first, at)
  {
    assert arrivals[..0] == [];
    assert Lost(at) == {} && Bursts(at) == {};
    assert ObserveAll(EMPTY, arrivals) == ObserveOne(EMPTY, arrivals[0]);
  }

  // ---------- Beyond the bound ----------

  lemma NumbersApart(first: Seq, j: nat, d: nat)
    ensures Delta(Number(first, j + d), Number(first, j)) == d % 256
  {
    var q, r := d / 256, d % 256;
    assert first + (j + d) == 256 * q + (first + (j + r));
    SameRemainder(first + (j + r), q);
    assert Number(first, j + d) == Number(first, j + r);
    hide Number;
    NumbersStep(first, j, r);
  }

  lemma SameRemainder(x: nat, q: nat)
    ensures (256 * q + x) % 256 == x % 256
  {}

  /**
  How a loss of any length is read: what counts is the distance modulo 256, so a loss beyond the
  bound is a duplicate, no loss, a short gap or a reordering.
  */
  lemma LossReadModulo(s: Summary, first: Seq, p: nat, k: nat, a: Arrival)
    requires s.first.Some? && s.last == Number(first, p) && s.expectedNext == Succ(s.last)
    requires p < k && a.number == Number(first, k)
    ensures var (after, delta) := (ObserveOne(s, a), (k - p) % 256);
      if delta == 0 then
        && after.duplicates == s.duplicates + 1 && after.missing == s.missing && after.backwards == s.backwards
        && after.gaps == s.gaps && after.last == s.last
      else if delta < 128 then
        && after.last == a.number && after.missing == s.missing + delta - 1
        && after.gaps == s.gaps + (if delta == 1 then 0 else 1)
        && after.duplicates == s.duplicates && after.backwards == s.backwards
      else
        && after.backwards == s.backwards + 1 && after.missing <= s.missing && after.duplicates == s.duplicates
        && after.gaps == s.gaps && after.last == s.last
  {
    hide Number, Bump, AddSample, Skipped;
    NumbersApart(first, p, k - p);
    assert Succ(s.last) == a.number <==> Delta(a.number, s.last) == 1;
  }

  /**
  What a loss beyond the bound leaves behind for good: a misclassified arrival, or at least 256 losses
  not counted.
  */
  ghost predicate Misled(s: Summary, first: Seq, at: seq<nat>)
    requires at != []
  {
    || s.duplicates + s.backwards > 0
    || (&& s.first.Some? && s.last == Number(first, at[|at| - 1]) && s.expectedNext == Succ(s.last)
        && s.missing + 256 <= |Lost(at)|)
  }

  lemma StaysMisled(s: Summary, first: Seq, at: seq<nat>, k: nat, a: Arrival)
    requires at != [] && Increasing(at + [k]) && a.number == Number(first, k)
    requires Misled(s, first, at)
    ensures Misled(ObserveOne(s, a), first, at + [k])
  {
    hide Number, Lost, Bump, AddSample, Skipped;
    if s.duplicates + s.backwards == 0 {
      NextMisled(s, first, at, k, a);
    }
  }

  /** One arrival after a gap of any length, with every earlier arrival in its place. */
  lemma NextMisled(s: Summary, first: Seq, at: seq<nat>, k: nat, a: Arrival)
    requires at != [] && Increasing(at + [k]) && a.number == Number(first, k)
    requires s.first.Some? && s.last == Number(first, at[|at| - 1]) && s.expectedNext == Succ(s.last)
    requires s.missing + (if k > at[|at| - 1] + 127 then 0 else 256) <= |Lost(at)|
    ensures Misled(ObserveOne(s, a), first, at + [k])
  {
    hide Number, Lost, Bump, AddSample, Skipped, ObserveOne;
    var p := at[|at| - 1];
    assert (at + [k])[|at| - 1] == p && (at + [k])[|at|] == k;
    LossReadModulo(s, first, p, k, a);
    LostCount(at, k, k - p - 1);
    ObservedNext(s, a);
  }

  lemma ObservedNext(s: Summary, a: Arrival)
    requires s.first.Some? && s.expectedNext == Succ(s.last)
    ensures ObserveOne(s, a).first.Some? && ObserveOne(s, a).expectedNext == Succ(ObserveOne(s, a).last)
  {
    hide Bump, AddSample, Skipped;
  }

  lemma {:induction false} LongLossMisleads(arrivals: seq<Arrival>, first: Seq, at: seq<nat>)
    requires at != [] && Increasing(at) && !Received(at) && Carries(arrivals, first, at)
    ensures Misled(ObserveAll(EMPTY, arrivals), first, at)
    decreases |at|
  {
    hide Misled, ObserveOne, Number, Lost, Bursts;
    var n := |at| - 1;
    assert n > 0;
    assert at == at[..n] + [at[n]];
    var before := ObserveAll(EMPTY, arrivals[..n]);
    if Received(at[..n]) {
      LossCountExact(arrivals[..n], first, at[..n]);
      assert at[n] > at[..n][n - 1] + 127;
      NextMisled(before, first, at[..n], at[n], arrivals[n]);
    } else {
      LongLossMisleads(arrivals[..n], first, at[..n]);
      StaysMisled(before, first, at[..n], at[n], arrivals[n]);
    }
  }

  /**
  Over an ordered channel, of whatever losses, the summary is exact if and only if no 127 frames in
  a row are lost.
  */
  lemma ExactIffBounded(arrivals: seq<Arrival>, first: Seq, at: seq<nat>)
    requires at != [] && Increasing(at) && Carries(arrivals, first, at)
    ensures Exact(ObserveAll(EMPTY, arrivals), first, at) <==> Received(at)
  {
    hide ObserveAll, Number, Lost, Bursts;
    if Received(at) {
      LossCountExact(arrivals, first, at);
    } else {
      LongLossMisleads(arrivals, first, at);
    }
  }

  // ---------- The counts beside the sequence ----------

  function CountOf(arrivals: seq<Arrival>, id: int): nat {
    if |arrivals| == 0 then 0
    else
      var n := |arrivals| - 1;
      CountOf(arrivals[..n], id) + if arrivals[n].msgid == id then 1 else 0
  }

  /** Every message id is counted as often as it arrived; anomalies are sampled, the first eight of them. */
  lemma {:induction false} ArrivalsCounted(arrivals: seq<Arrival>, id: int)
    ensures var s := ObserveAll(EMPTY, arrivals);
      && (if id in s.byMsgid then s.byMsgid[id] == CountOf(arrivals, id) > 0 else CountOf(arrivals, id) == 0)
      && var anomalies := s.gaps + s.duplicates + s.backwards;
         |s.samples| == if anomalies < 8 then anomalies else 8
    decreases |arrivals|
  {
    hide Skipped, Succ, Delta;
    if |arrivals| > 0 {
      ArrivalsCounted(arrivals[..|arrivals| - 1], id);
    }
  }

  /** A lost frame that turns up late is taken back: its number is pending no more, and one fewer is missing. */
  lemma LateArrivalRecovered(s: Summary, a: Arrival)
    requires s.first.Some? && a.number in s.pending
    requires a.number != s.expectedNext && Delta(a.number, s.last) >= 128
    ensures var after := ObserveOne(s, a);
      after.missing == s.missing - 1 && after.pending == s.pending - {a.number} && after.last == s.last
  {
    hide Bump, AddSample, Skipped, Delta;
  }

  /** Every sample is an anomaly of the kind its distance tells, measured from the number it followed. */
  predicate Classified(x: Sample) {
    && x.delta == Delta(x.arrival.number, x.prev)
    && (x.kind == Duplicate <==> x.delta == 0)
    && (x.kind == Gap <==> 0 < x.delta < 128)
    && (x.kind == Backwards <==> x.delta >= 128)
  }

  lemma {:induction false} SamplesClassified(arrivals: seq<Arrival>)
    ensures var s := ObserveAll(EMPTY, arrivals);
      && s.total == |arrivals| && (forall x :: x in s.samples ==> Classified(x))
      && (|arrivals| > 0 ==> s.first == Some(arrivals[0].number))
    decreases |arrivals|
  {
    hide Skipped, Bump, Delta;
    if |arrivals| > 0 {
      SamplesClassified(arrivals[..|arrivals| - 1]);
      DistanceKinds(ObserveAll(EMPTY, arrivals[..|arrivals| - 1]).last, arrivals[|arrivals| - 1].number);
    }
  }

  lemma DistanceKinds(a: Seq, b: Seq)
    ensures 0 <= Delta(b, a) < 256
  {}
}
