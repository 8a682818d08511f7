/** How long candidates of the firmware receiver are, before and after a restart, and what that means for its buffer. */
module StreamLaws {
  import opened Wrappers
  import opened Crc
  import opened Wire
  import opened StreamParser

  function Max(a: nat, b: nat): nat {
    if a < b then b else a
  }

  /** The length at which a candidate that began with `kept` bytes in the buffer is judged. */
  function JudgedAt(kept: nat, payloadLen: nat): nat {
    if payloadLen == 0 then Max(8, kept + 3) else Max(8 + payloadLen, kept + 4)
  }

  /** Where the first checksum byte of such a candidate is expected. */
  function ChecksumFrom(kept: nat, payloadLen: nat): nat {
    JudgedAt(kept, payloadLen) - 2
  }

  /** The parse state of a candidate that began with `kept` bytes and now holds `held`. */
  function PhaseOf(kept: nat, held: seq<byte>): ParseState {
    if |held| < Max(6, kept + 1) then ReadingHeader
    else
      var n := Declared(held);
      if |held| < ChecksumFrom(kept, n) then ReadingPayload(n)
      else ReadingChecksum(if |held| == ChecksumFrom(kept, n) then 2 else 1)
  }

  /** A candidate in progress: `kept` bytes were in the buffer when it began, and it is not yet judged. */
  ghost predicate InProgress(rx: Receiver, kept: nat) {
    && 1 <= kept <= |rx.held| <= CAPACITY
    && rx.held[0] == STX
    && (|rx.held| >= Max(6, kept + 1) ==> |rx.held| < JudgedAt(kept, Declared(rx.held)))
    && rx.state == PhaseOf(kept, rx.held)
  }

  /** One byte either extends the candidate or, at exactly `JudgedAt`, has it judged. */
  lemma ByteLaw(rx: Receiver, kept: nat, b: byte)
    requires InProgress(rx, kept) && |rx.held| < CAPACITY
    ensures Consistent(rx)
    ensures var held := rx.held + [b];
      if |held| >= Max(6, kept + 1) && |held| == JudgedAt(kept, Declared(held))
      then |held| >= 8 + Declared(held) && Feed(rx, b) == Decide(held)
      else
        var next := Receiver(held, PhaseOf(kept, held));
        Feed(rx, b) == (next, Quiet) && InProgress(next, kept)
  {
    var held := rx.held + [b];
    if |rx.held| >= 2 {
      assert Declared(held) == Declared(rx.held);
    }
  }

  // ---------- Runs ----------

  /**
  A run over a byte string: the frames emitted, whether a store went out of range, and the restarts
  since the last idle.
  */
  datatype Run = Run(rx: Receiver, frames: seq<seq<byte>>, restarts: nat, faulted: bool)

  const START := Run(IDLE, [], 0, false)

  function Next(run: Run, b: byte): (r: Run)
    requires Consistent(run.rx)
    ensures Consistent(r.rx)
  {
    if run.faulted then run
    else
      var (rx, out) := Feed(run.rx, b);
      match out
      case Fault => run.(faulted := true)
      case Emit(frame) => Run(rx, run.frames + [frame], 0, false)
      case Quiet =>
        var restarts :=
          if rx.state.WaitingForStart? then 0
          else if run.rx.state.ReadingChecksum? && rx.state.ReadingHeader? then run.restarts + 1
          else run.restarts;
        Run(rx, run.frames, restarts, false)
  }

  function RunOver(run: Run, bytes: seq<byte>): (r: Run)
    requires Consistent(run.rx)
    ensures Consistent(r.rx)
    decreases |bytes|
  {
    if bytes == [] then run else RunOver(Next(run, bytes[0]), bytes[1..])
  }

  lemma {:induction false} RunOverConcat(run: Run, a: seq<byte>, b: seq<byte>)
    requires Consistent(run.rx)
    ensures RunOver(run, a + b) == RunOver(RunOver(run, a), b)
    decreases |a|
  {
    if a == [] {
      assert a + b == b;
    } else {
      assert (a + b)[1..] == a[1..] + b;
      RunOverConcat(Next(run, a[0]), a[1..], b);
    }
  }

  /** The bytes a candidate may begin with after `restarts` restarts since the receiver was last idle. */
  function MostKept(restarts: nat): nat {
    if restarts == 0 then 1 else 258 + 3 * restarts
  }

  ghost predicate Bounded(run: Run) {
    || (run.rx == IDLE && run.restarts == 0)
    || exists kept: nat :: InProgress(run.rx, kept) && kept <= MostKept(run.restarts)
  }

  lemma JudgedWithin(kept: nat, payloadLen: nat, restarts: nat)
    requires kept <= MostKept(restarts) && payloadLen <= 255
    ensures JudgedAt(kept, payloadLen) <= if restarts == 0 then 8 + payloadLen else 262 + 3 * restarts
  {}

  /** Restarting from a candidate within the bound keeps the bound for one more restart. */
  lemma ResyncBounded(held: seq<byte>, restarts: nat)
    requires 8 <= |held| <= CAPACITY && |held| >= 8 + Declared(held)
    requires |held| <= if restarts == 0 then 8 + Declared(held) else 262 + 3 * restarts
    requires IndexOfStart(held, 1).Some?
    ensures var rx := Resync(held); InProgress(rx, |rx.held|) && |rx.held| <= MostKept(restarts + 1)
  {
    if restarts == 0 && |held| == 263 {
      assert held[1] == 0xFF;
    }
  }

  /** Every byte keeps the bound, and only the seventh restart in a row can push a store out of range. */
  lemma NextBounded(run: Run, b: byte)
    requires Consistent(run.rx) && Bounded(run) && !run.faulted
    ensures Next(run, b).faulted ==> run.restarts >= 7
    ensures !Next(run, b).faulted ==> Bounded(Next(run, b))
  {
    var next := Next(run, b);
    if run.rx == IDLE {
      if b == STX {
        assert InProgress(next.rx, 1);
      }
    } else {
      var kept: nat :| InProgress(run.rx, kept) && kept <= MostKept(run.restarts);
      if |run.rx.held| < CAPACITY {
        CandidateBounded(run, kept, b);
      } else {
        JudgedWithin(kept, Declared(run.rx.held), run.restarts);
      }
    }
  }

  lemma CandidateBounded(run: Run, kept: nat, b: byte)
    requires Consistent(run.rx) && InProgress(run.rx, kept) && kept <= MostKept(run.restarts) && !run.faulted
    requires |run.rx.held| < CAPACITY
    ensures Bounded(Next(run, b)) && !Next(run, b).faulted
  {
    var held := run.rx.held + [b];
    ByteLaw(run.rx, kept, b);
    if |held| >= Max(6, kept + 1) && |held| == JudgedAt(kept, Declared(held)) {
      JudgedWithin(kept, Declared(held), run.restarts);
      if IndexOfStart(held, 1).Some? {
        ResyncBounded(held, run.restarts);
      }
    } else {
      assert InProgress(Next(run, b).rx, kept);
    }
  }

  /** No store leaves the buffer unless the receiver restarted seven times in a row. */
  lemma {:induction false} FaultNeedsSevenRestarts(run: Run, bytes: seq<byte>)
    requires Consistent(run.rx) && (if run.faulted then run.restarts >= 7 else Bounded(run))
    ensures RunOver(run, bytes).faulted ==> RunOver(run, bytes).restarts >= 7
    ensures !RunOver(run, bytes).faulted ==> Bounded(RunOver(run, bytes))
    decreases |bytes|
  {
    if bytes != [] {
      if !run.faulted {
        NextBounded(run, bytes[0]);
      }
      FaultNeedsSevenRestarts(Next(run, bytes[0]), bytes[1..]);
    }
  }

  // ---------- The law of whole candidates ----------

  ghost predicate NotYetJudged(kept: nat, held: seq<byte>) {
    |held| <= CAPACITY && (|held| >= Max(6, kept + 1) ==> |held| < JudgedAt(kept, Declared(held)))
  }

  /** Bytes short of the judging length are only collected. */
  lemma {:induction false} CandidateCollects(run: Run, kept: nat, bytes: seq<byte>)
    requires InProgress(run.rx, kept) && !run.faulted && Consistent(run.rx)
    requires NotYetJudged(kept, run.rx.held + bytes)
    ensures var held := run.rx.held + bytes;
      RunOver(run, bytes) == run.(rx := Receiver(held, PhaseOf(kept, held))) && InProgress(RunOver(run, bytes).rx, kept)
    decreases |bytes|
  {
    if bytes == [] {
      assert run.rx.held + bytes == run.rx.held;
    } else {
      var held := run.rx.held + [bytes[0]];
      assert run.rx.held + bytes == held + bytes[1..];
      ByteLaw(run.rx, kept, bytes[0]);
      if |held| >= 2 {
        assert Declared(held) == Declared(run.rx.held + bytes);
      }
      var next := Next(run, bytes[0]);
      assert next == run.(rx := Receiver(held, PhaseOf(kept, held)));
      CandidateCollects(next, kept, bytes[1..]);
    }
  }

  /** The state after a candidate has been judged. */
  function Judged(run: Run, held: seq<byte>): (r: Run)
    requires 8 <= |held| <= CAPACITY && |held| >= 8 + Declared(held)
    ensures Consistent(r.rx)
  {
    if Received(held) == FirmwareCrc(held) then Run(IDLE, run.frames + [held], 0, false)
    else Run(Resync(held), run.frames, if IndexOfStart(held, 1).Some? then run.restarts + 1 else 0, false)
  }

  /**
  A candidate that began with `kept` bytes is judged at exactly `JudgedAt(kept, n)`, where n is
  the length it declares, and not before.  After a mismatch the receiver holds the suffix that
  starts at the first later start byte.
  */
  lemma CandidateLaw(run: Run, kept: nat, bytes: seq<byte>)
    requires InProgress(run.rx, kept) && !run.faulted && Consistent(run.rx) && bytes != []
    requires CompletesAt(kept, run.rx.held + bytes)
    ensures RunOver(run, bytes) == Judged(run, run.rx.held + bytes)
  {
    hide Feed, Resync, FirmwareCrc, Received;
    var init, last := bytes[..|bytes| - 1], bytes[|bytes| - 1];
    var held := run.rx.held + bytes;
    assert bytes == init + [last] && held == (run.rx.held + init) + [last];
    ShortOfCompletion(kept, run.rx.held + init, last);
    CandidateCollects(run, kept, init);
    RunOverConcat(run, init, [last]);
    RunOverOne(RunOver(run, init), last);
    JudgingByte(RunOver(run, init), kept, last);
  }

  /**
  A judged candidate is emitted exactly when its field is the checksum of the zero-register, bit-
  serial reference.
  */
  lemma EmittedIffReference(run: Run, kept: nat, bytes: seq<byte>)
    requires InProgress(run.rx, kept) && !run.faulted && Consistent(run.rx) && bytes != []
    requires CompletesAt(kept, run.rx.held + bytes)
    ensures var held := run.rx.held + bytes;
      RunOver(run, bytes).frames == run.frames + (if Received(held) == ReferenceCrc(held) then [held] else [])
  {
    hide RunOver, FirmwareCrc, ReferenceCrc, Received, Resync;
    CandidateLaw(run, kept, bytes);
    FirmwareIsReference(run.rx.held + bytes);
    assert run.frames + [] == run.frames;
  }

  ghost predicate CompletesAt(kept: nat, held: seq<byte>) {
    && Max(6, kept + 1) <= |held| <= CAPACITY
    && |held| == JudgedAt(kept, Declared(held))
    && |held| >= 8 + Declared(held)
  }

  lemma ShortOfCompletion(kept: nat, held: seq<byte>, last: byte)
    requires CompletesAt(kept, held + [last])
    ensures NotYetJudged(kept, held)
  {
    assert Declared(held) == Declared(held + [last]);
  }

  lemma RunOverOne(run: Run, b: byte)
    requires Consistent(run.rx)
    ensures RunOver(run, [b]) == Next(run, b)
  {
    assert RunOver(run, [b]) == RunOver(Next(run, b), [b][1..]);
  }

  lemma JudgingByte(run: Run, kept: nat, b: byte)
    requires InProgress(run.rx, kept) && !run.faulted && Consistent(run.rx) && |run.rx.held| < CAPACITY
    requires CompletesAt(kept, run.rx.held + [b])
    ensures Next(run, b) == Judged(run, run.rx.held + [b])
  {
    var held := run.rx.held + [b];
    ByteLaw(run.rx, kept, b);
    assert Declared(held) == Declared(run.rx.held);
  }

  /** A candidate ends exactly where its declared length says iff it began with few enough bytes. */
  lemma ExactlyFramed(kept: nat, payloadLen: nat)
    ensures JudgedAt(kept, payloadLen) == 8 + payloadLen <==> kept <= 5 || payloadLen + 4 >= kept
    ensures payloadLen <= 255 ==>
      (JudgedAt(kept, payloadLen) <= CAPACITY <==> kept <= 276 || (kept == 277 && payloadLen == 0))
  {}

  // ---------- The seventh restart can leave the buffer ----------

  function StartBytes(n: nat): (s: seq<byte>)
    ensures |s| == n && forall i :: 0 <= i < n ==> s[i] == STX
  {
    seq(n, _ => STX)
  }

  lemma StartBytesJoin(a: nat, b: nat)
    ensures StartBytes(a) + StartBytes(b) == StartBytes(a + b)
  {}

  function FoldStart(n: nat, crc: bv16): bv16 {
    Fold(Accumulate, StartBytes(n), crc)
  }

  lemma FoldStartSplit(a: nat, b: nat, crc: bv16)
    ensures FoldStart(a + b, crc) == FoldStart(b, FoldStart(a, crc))
  {
    StartBytesJoin(a, b);
    FoldConcat(Accumulate, StartBytes(a), StartBytes(b), crc);
  }

  lemma FoldStartDoubles(n: nat, f: bv16 -> bv16, m: nat, g: bv16 -> bv16)
    requires forall x {:trigger FoldStart(n, x)} :: FoldStart(n, x) == f(x)
    requires m == 2 * n && forall x {:trigger g(x)} :: g(x) == f(f(x))
    ensures forall x {:trigger FoldStart(m, x)} :: FoldStart(m, x) == g(x)
  {
    forall x ensures FoldStart(m, x) == g(x) {
      FoldStartSplit(n, n, x);
    }
  }

  function One(crc: bv16): bv16 { Accumulate(STX, crc) }
  function Two(crc: bv16): bv16 { One(One(crc)) }
  function Four(crc: bv16): bv16 { Two(Two(crc)) }
  function Eight(crc: bv16): bv16 { Four(Four(crc)) }
  function Sixteen(crc: bv16): bv16 { Eight(Eight(crc)) }
  function ThirtyTwo(crc: bv16): bv16 { Sixteen(Sixteen(crc)) }
  function SixtyFour(crc: bv16): bv16 { ThirtyTwo(ThirtyTwo(crc)) }
  function Hundred28(crc: bv16): bv16 { SixtyFour(SixtyFour(crc)) }

  lemma FoldStartOne()
    ensures forall x {:trigger FoldStart(1, x)} :: FoldStart(1, x) == One(x)
  {
    forall x ensures FoldStart(1, x) == One(x) {
      assert StartBytes(1)[1..] == [];
      assert FoldStart(1, x) == Fold(Accumulate, [], Accumulate(STX, x));
    }
  }

  lemma FoldStart16()
    ensures forall x {:trigger FoldStart(2, x)} :: FoldStart(2, x) == Two(x)
    ensures forall x {:trigger FoldStart(16, x)} :: FoldStart(16, x) == Sixteen(x)
  {
    FoldStartOne();
    FoldStartDoubles(1, One, 2, Two);
    FoldStartDoubles(2, Two, 4, Four);
    FoldStartDoubles(4, Four, 8, Eight);
    FoldStartDoubles(8, Eight, 16, Sixteen);
  }

  lemma FoldStart128()
    ensures forall x {:trigger FoldStart(128, x)} :: FoldStart(128, x) == Hundred28(x)
  {
    FoldStart16();
    FoldStartDoubles(16, Sixteen, 32, ThirtyTwo);
    FoldStartDoubles(32, ThirtyTwo, 64, SixtyFour);
    FoldStartDoubles(64, SixtyFour, 128, Hundred28);
  }

  lemma FoldStart259(crc: bv16)
    ensures FoldStart(259, crc) == FoldStart(1, FoldStart(2, FoldStart(128, FoldStart(128, crc))))
  {
    FoldStartSplit(128, 131, crc);
    FoldStartSplit(128, 3, FoldStart(128, crc));
    FoldStartSplit(2, 1, FoldStart(128, FoldStart(128, crc)));
  }

  lemma ChecksumOfStartBytes()
    ensures FoldStart(259, INITIAL) != 0xFEFE
  {
    ConcreteChecksum();
    FoldStart259(INITIAL);
    FoldStartOne();
    FoldStart16();
    FoldStart128();
  }

  lemma ConcreteChecksum()
    ensures One(Two(Hundred28(Hundred28(INITIAL)))) != 0xFEFE
  {}

  /** A buffer of start bytes declares 254 payload bytes, has no table entry, and never matches its checksum. */
  lemma StartBytesRejected(run: Run, n: nat)
    requires 262 <= n <= CAPACITY
    ensures Declared(StartBytes(n)) == 254
    ensures Judged(run, StartBytes(n)) ==
      Run(Receiver(StartBytes(n - 1), ReadingHeader), run.frames, run.restarts + 1, false)
  {
    var held := StartBytes(n);
    assert held[1] == STX;
    assert held[1..260] == StartBytes(259);
    ChecksumOfStartBytes();
    assert FirmwareExtra(held[5]) == 0;
    assert IndexOfStart(held, 1) == Some(1);
    assert held[1..] == StartBytes(n - 1);
  }

  lemma StartBytesAgain(before: Run, kept: nat, more: nat)
    requires InProgress(before.rx, kept) && before.rx.held == StartBytes(kept)
    requires !before.faulted && Consistent(before.rx)
    requires 262 <= kept + more <= CAPACITY && kept + more == JudgedAt(kept, 254) && more > 0
    ensures RunOver(before, StartBytes(more))
         == Run(Receiver(StartBytes(kept + more - 1), ReadingHeader), before.frames, before.restarts + 1, false)
  {
    hide Judged;
    StartBytesJoin(kept, more);
    StartBytesRejected(before, kept + more);
    CandidateLaw(before, kept, StartBytes(more));
  }

  lemma FirstStartByte()
    ensures StartBytes(1) == [STX] && RunOver(START, StartBytes(1)) == Next(START, STX)
    ensures Next(START, STX) == Run(Receiver(StartBytes(1), ReadingHeader), [], 0, false)
    ensures InProgress(Next(START, STX).rx, 1)
  {
    assert StartBytes(1) == [STX];
    RunOverOne(START, STX);
  }

  /** After `k` restarts on a stream of start bytes the receiver has kept 258 + 3k of them. */
  lemma {:induction false} StartBytesChain(k: nat)
    requires 1 <= k <= 7
    ensures RunOver(START, StartBytes(258 + 4 * k)) ==
      Run(Receiver(StartBytes(258 + 3 * k), ReadingHeader), [], k, false)
  {
    hide RunOver, Next;
    var before, seen, more := Next(START, STX), 1, 261;
    if k == 1 {
      FirstStartByte();
    } else {
      StartBytesChain(k - 1);
      seen, more := 254 + 4 * k, 4;
      before := RunOver(START, StartBytes(seen));
    }
    StartBytesJoin(seen, more);
    RunOverConcat(START, StartBytes(seen), StartBytes(more));
    StartBytesAgain(before, if k == 1 then 1 else 255 + 3 * k, more);
  }

  lemma OneMoreStartByte(n: nat)
    ensures RunOver(START, StartBytes(n + 1)) == Next(RunOver(START, StartBytes(n)), STX)
  {
    StartBytesJoin(n, 1);
    RunOverConcat(START, StartBytes(n), StartBytes(1));
    assert StartBytes(1) == [STX];
    RunOverOne(RunOver(START, StartBytes(n)), STX);
  }

  /** One more start byte after the seventh restart fills the buffer, and the next one does not fit. */
  lemma OverfullBuffer(before: Run, kept: nat)
    requires kept == CAPACITY - 1 && before == Run(Receiver(StartBytes(kept), ReadingHeader), [], 7, false)
    ensures !Next(before, STX).faulted
    ensures Next(Next(before, STX), STX).faulted && Next(Next(before, STX), STX).restarts == 7
  {
    StartBytesJoin(kept, 1);
    assert StartBytes(1) == [STX];
    ByteLaw(before.rx, kept, STX);
  }

  /** As many start bytes as bring the receiver to its seventh restart. */
  const TO_SEVENTH_RESTART := 258 + 4 * 7

  /** The bound on restarts is tight: two bytes after the seventh restart in a row, a store goes out of range. */
  lemma SevenRestartsFault()
    ensures !RunOver(START, StartBytes(TO_SEVENTH_RESTART + 1)).faulted
    ensures var run := RunOver(START, StartBytes(TO_SEVENTH_RESTART + 2)); run.faulted && run.restarts == 7
  {
    hide RunOver, StartBytes, Next;
    StartBytesChain(7);
    OneMoreStartByte(TO_SEVENTH_RESTART);
    OneMoreStartByte(TO_SEVENTH_RESTART + 1);
    OverfullBuffer(RunOver(START, StartBytes(TO_SEVENTH_RESTART)), CAPACITY - 1);
  }
}
