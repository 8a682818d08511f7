/** When the firmware receiver and the tester's parser see the same frames, and the round trip through both. */
module Agreement {
  import opened Wrappers
  import opened Crc
  import opened Wire
  import opened StreamParser
  import opened StreamLaws
  import opened BatchParser
  import opened Chunking

  const STRICT := Config(true, 0)

  /** A restart that keeps so few bytes, or declares so long a payload, that the next candidate is framed exactly. */
  predicate ExactRestart(held: seq<byte>) {
    |held| <= 5 || Declared(held) + 4 >= |held|
  }

  /** Candidates with an id outside the table are the one thing the two checksum tests disagree on. */
  predicate SameVerdict(held: seq<byte>)
    requires |held| >= 6 && |held| >= 6 + Declared(held)
  {
    CrcExtra(held[5]).Some? || Received(held) != FirmwareCrc(held)
  }

  /** Whether one byte keeps to the streams on which the two parsers agree. */
  predicate Agreeable(rx: Receiver, b: byte)
    requires Consistent(rx)
  {
    var (next, out) := StreamParser.Feed(rx, b);
    && (out.Emit? ==> |out.frame| >= 6 && CrcExtra(out.frame[5]).Some?)
    && (rx.state.ReadingChecksum? && next.state.ReadingHeader? ==> ExactRestart(next.held))
  }

  predicate AgreeableRun(run: Run, bytes: seq<byte>)
    requires Consistent(run.rx)
    decreases |bytes|
  {
    bytes == [] || (Agreeable(run.rx, bytes[0]) && AgreeableRun(Next(run, bytes[0]), bytes[1..]))
  }

  predicate Decodable(frame: seq<byte>) {
    |frame| >= 8 && |frame| == 8 + Declared(frame)
  }

  /** The firmware's raw frames and the tester's decoded ones, one for one. */
  ghost predicate SameFrames(raw: seq<seq<byte>>, decoded: seq<Frame>) {
    |raw| == |decoded| && forall i :: 0 <= i < |raw| ==> Decodable(raw[i]) && Decode(raw[i]) == decoded[i]
  }

  /** The firmware is idle or in an exactly framed candidate, and the tester waits with the same bytes. */
  ghost predicate InStep(rx: Receiver, buf: seq<byte>) {
    buf == rx.held && (rx == IDLE || exists kept: nat :: ExactProgress(rx, kept))
  }

  ghost predicate ExactProgress(rx: Receiver, kept: nat) {
    InProgress(rx, kept) && (kept <= 5 || Declared(rx.held) + 4 >= kept)
  }

  lemma AlignedTrim(buf: seq<byte>)
    requires buf != [] ==> buf[0] == STX
    ensures Trim(buf) == buf
  {}

  /** While a candidate is exactly framed and not judged, the tester has nothing to take. */
  lemma ExactWaits(rx: Receiver, t: Tester)
    requires InStep(rx, t.buf)
    ensures Drain(STRICT, t) == (t, [])
  {
    AlignedTrim(t.buf);
    if rx != IDLE {
      var kept: nat :| ExactProgress(rx, kept);
      ExactlyFramed(kept, if |rx.held| >= 2 then Declared(rx.held) else 0);
    }
    DrainStops(STRICT, t);
  }

  /**
  The tester takes a whole candidate exactly when its checksum is valid, and otherwise resumes where
  the firmware does.
  */
  lemma JudgeTogether(t: Tester)
    requires Decodable(t.buf) && t.buf[0] == STX && |t.buf| <= CAPACITY
    ensures ValidCrc(t.buf) ==> Drain(STRICT, t) == (t.(buf := [], candidates := t.candidates + 1), [Decode(t.buf)])
    ensures !ValidCrc(t.buf) ==> Drain(STRICT, t) == Drain(STRICT, AfterReject(STRICT, t, Resync(t.buf).held, t.buf))
  {
    hide ValidCrc, Decode, NextTurn;
    var held := t.buf;
    AlignedTrim(held);
    DrainTakes(STRICT, t);
    assert held[..|held|] == held && held[|held|..] == [];
    if ValidCrc(held) {
      var rest := t.(buf := [], candidates := t.candidates + 1);
      AlignedTrim([]);
      DrainStops(STRICT, rest);
      assert [Decode(held)] + [] == [Decode(held)];
    }
  }

  lemma FeedOne(t: Tester, b: byte)
    ensures FeedAll(STRICT, t, [b]) == Drain(STRICT, t.(buf := t.buf + [b]))
  {}

  /** A byte that does not complete a candidate leaves both parsers waiting with it. */
  lemma CollectTogether(rx: Receiver, t: Tester, kept: nat, b: byte)
    requires Consistent(rx) && t.buf == rx.held && ExactProgress(rx, kept)
    requires !CompletesAt(kept, rx.held + [b])
    ensures StreamParser.Feed(rx, b).1 == Quiet
    ensures InStep(StreamParser.Feed(rx, b).0, rx.held + [b])
    ensures !(rx.state.ReadingChecksum? && StreamParser.Feed(rx, b).0.state.ReadingHeader?)
    ensures FeedAll(STRICT, t, [b]) == (t.(buf := t.buf + [b]), [])
  {
    hide Drain, Decide, PhaseOf;
    ShortOfCapacity(rx, kept);
    ByteLaw(rx, kept, b);
    var next := StreamParser.Feed(rx, b).0;
    if |rx.held| >= 2 {
      assert Declared(rx.held + [b]) == Declared(rx.held);
    }
    assert ExactProgress(next, kept);
    ExactWaits(next, t.(buf := t.buf + [b]));
  }

  lemma ShortOfCapacity(rx: Receiver, kept: nat)
    requires ExactProgress(rx, kept)
    ensures |rx.held| < CAPACITY
  {
    if |rx.held| >= Max(6, kept + 1) {
      ExactlyFramed(kept, Declared(rx.held));
    }
  }

  /** A completing byte hands both parsers the same candidate, of exactly the declared length. */
  lemma CompleteTogether(rx: Receiver, t: Tester, kept: nat, b: byte)
    requires Consistent(rx) && t.buf == rx.held && ExactProgress(rx, kept)
    requires CompletesAt(kept, rx.held + [b])
    ensures var held := rx.held + [b];
      Decodable(held) && held[0] == STX && rx.state.ReadingChecksum? && StreamParser.Feed(rx, b) == Decide(held)
  {
    hide Decide, FirmwareCrc;
    var held := rx.held + [b];
    assert Declared(held) == Declared(rx.held);
    ExactlyFramed(kept, Declared(held));
    ByteLaw(rx, kept, b);
  }

  lemma RestartInStep(held: seq<byte>)
    requires 8 <= |held| <= CAPACITY
    requires Resync(held).state.ReadingHeader? ==> ExactRestart(Resync(held).held)
    ensures InStep(Resync(held), Resync(held).held)
  {
    var rx := Resync(held);
    if rx != IDLE {
      assert ExactProgress(rx, |rx.held|);
    }
  }

  /** Both parsers judge the same candidate: they take it together, or drop the same bytes of it. */
  lemma DecideTogether(t: Tester)
    requires Decodable(t.buf) && t.buf[0] == STX && |t.buf| <= CAPACITY
    requires SameVerdict(t.buf)
    requires Resync(t.buf).state.ReadingHeader? ==> ExactRestart(Resync(t.buf).held) || ValidCrc(t.buf)
    ensures var (next, out) := Decide(t.buf);
      var (after, frames) := Drain(STRICT, t);
      && InStep(next, after.buf)
      && out == (if ValidCrc(t.buf) then Emit(t.buf) else Quiet)
      && frames == (if ValidCrc(t.buf) then [Decode(t.buf)] else [])
      && after.invalidCrc == t.invalidCrc + (if ValidCrc(t.buf) then 0 else 1)
  {
    hide ValidCrc, FirmwareCrc, Received, Drain, Resync, Decode;
    EndsAgree(t.buf);
    JudgeTogether(t);
    if !ValidCrc(t.buf) {
      RestartInStep(t.buf);
      ExactWaits(Resync(t.buf), AfterReject(STRICT, t, Resync(t.buf).held, t.buf));
    }
  }

  /** One byte in step: both parsers wait with the same bytes afterwards, and report the same frame, if any. */
  lemma StepTogether(rx: Receiver, t: Tester, b: byte)
    requires Consistent(rx) && InStep(rx, t.buf) && Agreeable(rx, b)
    ensures var (next, out) := StreamParser.Feed(rx, b);
      var (after, frames) := FeedAll(STRICT, t, [b]);
      && !out.Fault? && InStep(next, after.buf)
      && SameFrames(if out.Emit? then [out.frame] else [], frames)
  {
    hide Drain, ValidCrc, FirmwareCrc, Decode, Resync, Declared;
    FeedOne(t, b);
    if rx == IDLE {
      IdleTogether(t, b);
    } else {
      var kept: nat :| ExactProgress(rx, kept);
      if CompletesAt(kept, rx.held + [b]) {
        CompleteTogether(rx, t, kept, b);
        var whole := t.(buf := t.buf + [b]);
        EndsAgree(whole.buf);
        DecideTogether(whole);
      } else {
        CollectTogether(rx, t, kept, b);
      }
    }
  }

  lemma IdleTogether(t: Tester, b: byte)
    requires t.buf == []
    ensures var (next, out) := StreamParser.Feed(IDLE, b);
      var (after, frames) := FeedAll(STRICT, t, [b]);
      out == Quiet && frames == [] && InStep(next, after.buf)
  {
    var next := StreamParser.Feed(IDLE, b).0;
    assert [] + [b] == [b];
    DrainStops(STRICT, t.(buf := [b]));
    if b == STX {
      assert ExactProgress(next, 1);
    }
  }

  // ---------- Whole streams ----------

  /** What the two parsers agree on after a stream. */
  ghost predicate Together(before: Run, after: Run, t: Tester, decoded: seq<Frame>) {
    && !after.faulted && InStep(after.rx, t.buf)
    && |before.frames| <= |after.frames| && after.frames[..|before.frames|] == before.frames
    && SameFrames(after.frames[|before.frames|..], decoded)
  }

  lemma StepRun(run: Run, t: Tester, b: byte)
    requires Consistent(run.rx) && !run.faulted && InStep(run.rx, t.buf) && Agreeable(run.rx, b)
    ensures var (after, frames) := FeedAll(STRICT, t, [b]); Together(run, Next(run, b), after, frames)
  {
    hide FeedAll, Agreeable, InStep, StreamParser.Feed, Decode;
    StepTogether(run.rx, t, b);
    var out := StreamParser.Feed(run.rx, b).1;
    var next := Next(run, b);
    assert next.frames[|run.frames|..] == if out.Emit? then [out.frame] else [];
  }

  lemma TogetherChains(a: Run, b: Run, c: Run, t: Tester, u: Tester, first: seq<Frame>, second: seq<Frame>)
    requires Together(a, b, t, first) && Together(b, c, u, second)
    ensures Together(a, c, u, first + second)
  {
    hide InStep, Decode;
    assert c.frames[|a.frames|..] == b.frames[|a.frames|..] + c.frames[|b.frames|..];
    assert c.frames[..|a.frames|] == c.frames[..|b.frames|][..|a.frames|];
  }

  /**
  On every stream that keeps to exact restarts and known ids, byte-fed firmware and tester return the
  same frames.
  */
  lemma {:induction false} ParsersAgree(run: Run, t: Tester, bytes: seq<byte>)
    requires Consistent(run.rx) && !run.faulted && InStep(run.rx, t.buf) && AgreeableRun(run, bytes)
    ensures var (after, frames) := FeedAll(STRICT, t, bytes); Together(run, RunOver(run, bytes), after, frames)
    decreases |bytes|
  {
    hide InStep, Agreeable, Decode, Drain, SameFrames;
    if bytes == [] {
      NothingFed(run, t);
    } else {
      var b, rest := bytes[0], bytes[1..];
      assert bytes == [b] + rest;
      StepRun(run, t, b);
      var first := FeedAll(STRICT, t, [b]);
      ChunkingIndependent(STRICT, t, [b], rest);
      ParsersAgree(Next(run, b), first.0, rest);
      var second := FeedAll(STRICT, first.0, rest);
      TogetherChains(run, Next(run, b), RunOver(run, bytes), first.0, second.0, first.1, second.1);
    }
  }

  lemma NothingFed(run: Run, t: Tester)
    requires !run.faulted && InStep(run.rx, t.buf)
    ensures FeedAll(STRICT, t, []) == (t, []) && Together(run, run, t, [])
  {
    ExactWaits(run.rx, t);
    assert t.buf + [] == t.buf;
  }

  // ---------- Streams on which the tester finds no invalid candidate ----------

  lemma RejectCounts(t: Tester, rest: seq<byte>, frame: seq<byte>)
    requires Decodable(frame)
    ensures AfterReject(STRICT, t, rest, frame).invalidCrc == t.invalidCrc + 1
  {}

  lemma {:induction false} InvalidOnlyGrows(t: Tester)
    ensures Drain(STRICT, t).0.invalidCrc >= t.invalidCrc
    decreases |t.buf|
  {
    hide NextTurn, AfterReject, Decode;
    match NextTurn(true, t.buf)
    case Stop(rest) =>
    case Reject(rest, frame) =>
      RejectCounts(t, rest, frame);
      InvalidOnlyGrows(AfterReject(STRICT, t, rest, frame));
    case Accept(rest, frame) => InvalidOnlyGrows(t.(buf := rest, candidates := t.candidates + 1));
  }

  /** A byte after which the tester has counted nothing invalid keeps to the streams of agreement. */
  lemma CleanStep(rx: Receiver, t: Tester, b: byte)
    requires Consistent(rx) && InStep(rx, t.buf)
    requires FeedAll(STRICT, t, [b]).0.invalidCrc == t.invalidCrc
    ensures Agreeable(rx, b)
  {
    hide Drain, ValidCrc, FirmwareCrc, Decode, Resync, Declared;
    FeedOne(t, b);
    if rx != IDLE {
      var kept: nat :| ExactProgress(rx, kept);
      if CompletesAt(kept, rx.held + [b]) {
        CompleteTogether(rx, t, kept, b);
        var whole := t.(buf := t.buf + [b]);
        JudgeTogether(whole);
        EndsAgree(whole.buf);
        if !ValidCrc(whole.buf) {
          RejectCounts(whole, Resync(whole.buf).held, whole.buf);
          InvalidOnlyGrows(AfterReject(STRICT, whole, Resync(whole.buf).held, whole.buf));
        }
      } else {
        CollectTogether(rx, t, kept, b);
      }
    }
  }

  lemma {:induction false} CleanRun(run: Run, t: Tester, bytes: seq<byte>)
    requires Consistent(run.rx) && !run.faulted && InStep(run.rx, t.buf)
    requires FeedAll(STRICT, t, bytes).0.invalidCrc == t.invalidCrc
    ensures AgreeableRun(run, bytes)
    decreases |bytes|
  {
    hide InStep, Agreeable, Decode, Drain, SameFrames;
    if bytes != [] {
      var b, rest := bytes[0], bytes[1..];
      assert bytes == [b] + rest;
      var first := FeedAll(STRICT, t, [b]);
      ChunkingIndependent(STRICT, t, [b], rest);
      InvalidOnlyGrows(t.(buf := t.buf + [b]));
      InvalidOnlyGrows(first.0.(buf := first.0.buf + rest));
      CleanStep(run.rx, t, b);
      StepRun(run, t, b);
      CleanRun(Next(run, b), first.0, rest);
    }
  }

  /** Every stream on which the tester rejects nothing gives the same frames on the firmware, in the same order. */
  lemma CleanStreamsAgree(bytes: seq<byte>)
    requires FeedAll(STRICT, EMPTY, bytes).0.invalidCrc == 0
    ensures !RunOver(START, bytes).faulted
    ensures SameFrames(RunOver(START, bytes).frames, FeedAll(STRICT, EMPTY, bytes).1)
    ensures RunOver(START, bytes).rx.held == FeedAll(STRICT, EMPTY, bytes).0.buf
  {
    hide Decode, Drain, FeedAll;
    CleanRun(START, EMPTY, bytes);
    ParsersAgree(START, EMPTY, bytes);
    var frames := RunOver(START, bytes).frames;
    assert frames[|START.frames|..] == frames;
  }

  // ---------- Round trip ----------

  /** One transmission: bytes of noise without a start byte, then a frame the firmware encoder can produce. */
  datatype Transmission = Transmission(noise: seq<byte>, frame: Frame)

  predicate Transmittable(b: Transmission) {
    STX !in b.noise && |b.frame.payload| <= 255 && CrcExtra(b.frame.messageId).Some?
  }

  function Wired(f: Frame): seq<byte>
    requires |f.payload| <= 255
  {
    Encode(f, TableCrc(f))
  }

  function Stream(sent: seq<Transmission>): seq<byte>
    requires forall i :: 0 <= i < |sent| ==> Transmittable(sent[i])
  {
    if sent == [] then []
    else
      assert Transmittable(sent[0]);
      sent[0].noise + Wired(sent[0].frame) + Stream(sent[1..])
  }

  function Frames(sent: seq<Transmission>): seq<Frame> {
    if sent == [] then [] else [sent[0].frame] + Frames(sent[1..])
  }

  function WiredAll(sent: seq<Transmission>): seq<seq<byte>>
    requires forall i :: 0 <= i < |sent| ==> Transmittable(sent[i])
  {
    if sent == [] then []
    else
      assert Transmittable(sent[0]);
      [Wired(sent[0].frame)] + WiredAll(sent[1..])
  }

  function Idle(frames: seq<seq<byte>>): Run {
    Run(IDLE, frames, 0, false)
  }

  /** Noise without a start byte is skipped. */
  lemma {:induction false} NoiseIgnored(frames: seq<seq<byte>>, noise: seq<byte>)
    requires STX !in noise
    ensures RunOver(Idle(frames), noise) == Idle(frames)
    decreases |noise|
  {
    if noise != [] {
      assert Next(Idle(frames), noise[0]) == Idle(frames);
      NoiseIgnored(frames, noise[1..]);
    }
  }

  lemma FirstByteOf(frames: seq<seq<byte>>, e: seq<byte>)
    requires |e| > 0 && e[0] == STX
    ensures var first := Next(Idle(frames), STX);
      && InProgress(first.rx, 1) && first.rx.held == [STX] && first.frames == frames && !first.faulted
      && RunOver(Idle(frames), e) == RunOver(first, e[1..])
  {
    assert e == [STX] + e[1..];
  }

  lemma WiredWhole(frames: seq<seq<byte>>, f: Frame)
    requires |f.payload| <= 255
    ensures RunOver(Idle(frames), Wired(f)) == Idle(frames + [Wired(f)])
  {
    hide FirmwareCrc, Received, Encode, TableCrc, RunOver, Next, Resync;
    var e := Wired(f);
    EncodedShape(f, TableCrc(f));
    EncodedChecksum(f, TableCrc(f));
    FirstByteOf(frames, e);
    assert [STX] + e[1..] == e;
    CandidateLaw(Next(Idle(frames), STX), 1, e[1..]);
  }

  lemma PrefixCollected(frames: seq<seq<byte>>, e: seq<byte>, n: nat)
    requires Decodable(e) && |e| <= 263 && e[0] == STX && n < |e|
    ensures RunOver(Idle(frames), e[..n]).frames == frames
  {
    hide RunOver, Next, PhaseOf;
    var p := e[..n];
    if n == 0 {
      NoiseIgnored(frames, []);
    } else {
      FirstByteOf(frames, p);
      assert [STX] + p[1..] == p;
      if n >= 2 {
        assert Declared(p) == Declared(e);
      }
      CandidateCollects(Next(Idle(frames), STX), 1, p[1..]);
    }
  }

  lemma WiredNotBefore(frames: seq<seq<byte>>, f: Frame, n: nat)
    requires |f.payload| <= 255 && n < |Wired(f)|
    ensures RunOver(Idle(frames), Wired(f)[..n]).frames == frames
  {
    hide Encode, TableCrc, RunOver;
    EncodedShape(f, TableCrc(f));
    PrefixCollected(frames, Wired(f), n);
  }

  /** A frame from the encoder is emitted at its last byte, whole, and not before. */
  lemma WiredEmitted(frames: seq<seq<byte>>, f: Frame)
    requires |f.payload| <= 255
    ensures RunOver(Idle(frames), Wired(f)) == Idle(frames + [Wired(f)])
    ensures forall n :: 0 <= n < |Wired(f)| ==> RunOver(Idle(frames), Wired(f)[..n]).frames == frames
  {
    hide Wired, RunOver;
    WiredWhole(frames, f);
    forall n | 0 <= n < |Wired(f)| ensures RunOver(Idle(frames), Wired(f)[..n]).frames == frames {
      WiredNotBefore(frames, f, n);
    }
  }

  lemma OneEmitted(frames: seq<seq<byte>>, noise: seq<byte>, f: Frame, rest: seq<byte>)
    requires STX !in noise && |f.payload| <= 255
    ensures RunOver(Idle(frames), noise + Wired(f) + rest) == RunOver(Idle(frames + [Wired(f)]), rest)
  {
    hide Wired, RunOver;
    RunOverConcat(Idle(frames), noise + Wired(f), rest);
    RunOverConcat(Idle(frames), noise, Wired(f));
    NoiseIgnored(frames, noise);
    WiredEmitted(frames, f);
  }

  /** Any interleaving of noise and encoded frames is parsed back, by the firmware, to exactly those frames. */
  lemma {:induction false} StreamEmitted(frames: seq<seq<byte>>, sent: seq<Transmission>)
    requires forall i :: 0 <= i < |sent| ==> Transmittable(sent[i])
    ensures RunOver(Idle(frames), Stream(sent)) == Idle(frames + WiredAll(sent))
    decreases |sent|
  {
    hide Wired, RunOver;
    if sent == [] {
      NoiseIgnored(frames, []);
      assert frames + [] == frames;
    } else {
      assert Transmittable(sent[0]);
      var wired := Wired(sent[0].frame);
      OneEmitted(frames, sent[0].noise, sent[0].frame, Stream(sent[1..]));
      StreamEmitted(frames + [wired], sent[1..]);
      assert frames + [wired] + WiredAll(sent[1..]) == frames + WiredAll(sent);
    }
  }

  lemma {:induction false} WiredAllDecodes(sent: seq<Transmission>)
    requires forall i :: 0 <= i < |sent| ==> Transmittable(sent[i])
    ensures |WiredAll(sent)| == |sent| == |Frames(sent)|
    ensures forall i :: 0 <= i < |sent| ==>
      Frames(sent)[i] == sent[i].frame && WiredAll(sent)[i] == Wired(sent[i].frame)
    ensures SameFrames(WiredAll(sent), Frames(sent))
    decreases |sent|
  {
    hide Wired, Decode, Declared;
    if sent != [] {
      WiredAllDecodes(sent[1..]);
      WiredDecodes(sent[0].frame);
    }
  }

  lemma WiredDecodes(f: Frame)
    requires |f.payload| <= 255
    ensures Decodable(Wired(f)) && Decode(Wired(f)) == f
  {
    hide Encode, TableCrc;
    EncodedShape(f, TableCrc(f));
  }

  lemma NoiseTrimmed(noise: seq<byte>, aligned: seq<byte>)
    requires STX !in noise && aligned != [] && aligned[0] == STX
    ensures Trim(noise + aligned) == aligned
  {
    assert Trim(noise) == [];
    TrimMore(noise, aligned);
    AlignedTrim(aligned);
  }

  /** The tester, from an empty buffer, returns one encoded frame and is empty again. */
  lemma WiredReturned(t: Tester, b: Transmission)
    requires t.buf == [] && Transmittable(b)
    ensures FeedAll(STRICT, t, b.noise + Wired(b.frame)) == (t.(candidates := t.candidates + 1), [b.frame])
  {
    hide ValidCrc, Decode, Encode, TableCrc, FirmwareCrc, Drain, AfterReject, Trim;
    var e := Wired(b.frame);
    EncodedShape(b.frame, TableCrc(b.frame));
    EncodedChecksum(b.frame, TableCrc(b.frame));
    EndsAgree(e);
    NoiseTrimmed(b.noise, e);
    var whole := t.(buf := [] + (b.noise + e));
    assert whole.buf == b.noise + e;
    DrainTrims(STRICT, whole);
    JudgeTogether(whole.(buf := e));
  }

  lemma {:induction false} StreamReturned(t: Tester, sent: seq<Transmission>)
    requires t.buf == [] && forall i :: 0 <= i < |sent| ==> Transmittable(sent[i])
    ensures FeedAll(STRICT, t, Stream(sent)) == (t.(candidates := t.candidates + |sent|), Frames(sent))
    decreases |sent|
  {
    hide Wired, Drain;
    if sent == [] {
      NothingFed(Idle([]), t);
    } else {
      assert Transmittable(sent[0]);
      WiredReturned(t, sent[0]);
      ChunkingIndependent(STRICT, t, sent[0].noise + Wired(sent[0].frame), Stream(sent[1..]));
      StreamReturned(t.(candidates := t.candidates + 1), sent[1..]);
    }
  }

  /**
  Round trip through both receivers: whatever noise separates the frames, the firmware emits each
  encoded frame whole, and the tester returns exactly the frames that were sent.
  */
  lemma RoundTrip(sent: seq<Transmission>)
    requires forall i :: 0 <= i < |sent| ==> Transmittable(sent[i])
    ensures RunOver(START, Stream(sent)).frames == WiredAll(sent) && RunOver(START, Stream(sent)).rx == IDLE
    ensures SameFrames(RunOver(START, Stream(sent)).frames, Frames(sent))
    ensures FeedAll(STRICT, EMPTY, Stream(sent)).1 == Frames(sent)
  {
    hide Stream, WiredAll, Frames, RunOver, FeedAll, Transmittable;
    StreamEmitted([], sent);
    assert [] + WiredAll(sent) == WiredAll(sent);
    WiredAllDecodes(sent);
    StreamReturned(EMPTY, sent);
  }

  // ---------- Beyond exact restarts ----------

  /** An otherwise well-formed frame whose checksum field is wrong and whose payload is an encoded frame. */
  predicate Wraps(outer: Frame, crc: bv16, inner: Frame) {
    && |inner.payload| <= 239 && CrcExtra(inner.messageId).Some?
    && outer.payload == Wired(inner) && crc != TableCrc(outer)
    && STX !in Header(outer)[1..]
  }

  lemma WrapperMismatch(outer: Frame, crc: bv16, inner: Frame)
    requires Wraps(outer, crc, inner)
    ensures Decodable(Encode(outer, crc)) && |Encode(outer, crc)| <= 255 && Encode(outer, crc)[0] == STX
    ensures var e := Encode(outer, crc); FirmwareCrc(e) != Received(e) && Resync(e).held == Wired(inner) + e[|e| - 2..]
  {
    hide FirmwareCrc, TableCrc, LowHalf, HighHalf, ByteOf, Resync, Received, Decode;
    var e, w := Encode(outer, crc), Wired(inner);
    EncodedShape(outer, crc);
    EncodedChecksum(outer, crc);
    EncodedShape(inner, TableCrc(inner));
    assert e == Header(outer) + w + e[|e| - 2..];
    ResyncAfterHeader(Header(outer), w, e[|e| - 2..]);
  }

  lemma ResyncAfterHeader(header: seq<byte>, w: seq<byte>, tail: seq<byte>)
    requires |header| == 6 && STX !in header[1..] && |w| > 0 && w[0] == STX && |header + w + tail| <= CAPACITY
    ensures Resync(header + w + tail).held == w + tail
  {
    var e := header + w + tail;
    assert forall j :: 1 <= j < 6 ==> e[j] == header[1..][j - 1];
    assert e[6] == w[0];
    assert IndexOfStart(e, 1) == Some(6);
    assert e[6..] == w + tail;
  }

  /** A buffer that begins with an encoded frame declares its length, and is the frame exactly when it is no longer. */
  lemma BeginsWithWired(held: seq<byte>, f: Frame)
    requires |f.payload| <= 255 && Wired(f) <= held
    ensures |Wired(f)| == 8 + |f.payload| && |held| >= 2 && Declared(held) == |f.payload|
    ensures |held| == 8 + |f.payload| ==> held == Wired(f)
    ensures Received(Wired(f)) == FirmwareCrc(Wired(f))
  {
    hide Encode, TableCrc, FirmwareCrc, Received;
    EncodedShape(f, TableCrc(f));
    EncodedChecksum(f, TableCrc(f));
    assert held[1] == Wired(f)[1];
  }

  /**
  After a restart that kept an encoded frame, or the beginning of one, the frame is emitted if and
  only if the restart is exact: few enough bytes were kept, or the frame is long enough.
  */
  lemma RestartEmits(run: Run, f: Frame, bytes: seq<byte>)
    requires Consistent(run.rx) && !run.faulted && InProgress(run.rx, |run.rx.held|) && |f.payload| <= 255
    requires bytes != [] && CompletesAt(|run.rx.held|, run.rx.held + bytes) && Wired(f) <= run.rx.held + bytes
    ensures RunOver(run, bytes).frames == run.frames + [Wired(f)] <==>
      |run.rx.held| <= 5 || |f.payload| + 4 >= |run.rx.held|
  {
    hide FirmwareCrc, Received, Resync, Wired;
    var kept, held := |run.rx.held|, run.rx.held + bytes;
    CandidateLaw(run, kept, bytes);
    BeginsWithWired(held, f);
    ExactlyFramed(kept, |f.payload|);
    var after := RunOver(run, bytes).frames;
    if after == run.frames + [held] && |held| != |Wired(f)| {
      assert after[|run.frames|] == held;
      assert (run.frames + [Wired(f)])[|run.frames|] == Wired(f);
    } else if after == run.frames {
      assert |run.frames + [Wired(f)]| == |run.frames| + 1;
    }
  }

  /** The state in which the firmware is left by a rejected wrapper: the inner frame and two bytes more are kept. */
  lemma WrapperKept(outer: Frame, crc: bv16, inner: Frame)
    requires Wraps(outer, crc, inner)
    ensures var run := RunOver(START, Encode(outer, crc));
      && run.frames == [] && !run.faulted && |run.rx.held| == |inner.payload| + 10 && Wired(inner) <= run.rx.held
      && InProgress(run.rx, |run.rx.held|)
  {
    hide FirmwareCrc, Received, Resync, Encode, TableCrc;
    var e := Encode(outer, crc);
    WrapperMismatch(outer, crc, inner);
    var first := Next(START, STX);
    assert InProgress(first.rx, 1);
    assert e == [STX] + e[1..];
    CandidateLaw(first, 1, e[1..]);
    EncodedShape(inner, TableCrc(inner));
    var run := RunOver(START, e);
    assert run.rx == Resync(e);
    ResyncKeeps(e, Wired(inner) + e[|e| - 2..]);
  }

  lemma ResyncKeeps(e: seq<byte>, kept: seq<byte>)
    requires 8 <= |e| <= 255 && |kept| > 1 && kept[0] == STX && Resync(e).held == kept
    ensures InProgress(Resync(e), |kept|)
  {}

  /**
  Where restarts are not exact the parsers part: the tester recovers the inner frame at once, and the
  firmware never emits it, whatever bytes complete the candidate it is left with.
  */
  lemma InnerFrameLost(outer: Frame, crc: bv16, inner: Frame, more: seq<byte>)
    requires Wraps(outer, crc, inner)
    ensures RunOver(START, Encode(outer, crc)).frames == []
    ensures var held := RunOver(START, Encode(outer, crc)).rx.held;
      more != [] && CompletesAt(|held|, held + more) ==>
        RunOver(START, Encode(outer, crc) + more).frames != [Wired(inner)]
    ensures var frames := FeedAll(STRICT, EMPTY, Encode(outer, crc)).1; frames != [] && frames[0] == inner
  {
    hide Encode, Wired, RunOver, CompletesAt, InProgress, Drain, FeedAll, TableCrc, Header, FirmwareCrc;
    var e := Encode(outer, crc);
    WrapperKept(outer, crc, inner);
    TesterRecovers(outer, crc, inner);
    var run := RunOver(START, e);
    RunOverConcat(START, e, more);
    if more != [] && CompletesAt(|run.rx.held|, run.rx.held + more) {
      PrefixGrows(Wired(inner), run.rx.held, more);
      RestartEmits(run, inner, more);
      assert [] + [Wired(inner)] == [Wired(inner)];
    }
  }

  lemma PrefixGrows(a: seq<byte>, b: seq<byte>, more: seq<byte>)
    requires a <= b
    ensures a <= b + more
  {}

  lemma TesterRecovers(outer: Frame, crc: bv16, inner: Frame)
    requires Wraps(outer, crc, inner)
    ensures var frames := FeedAll(STRICT, EMPTY, Encode(outer, crc)).1; frames != [] && frames[0] == inner
  {
    hide ValidCrc, Decode, Encode, TableCrc, FirmwareCrc, Drain, Resync, Received, Wired;
    var e := Encode(outer, crc);
    WrapperMismatch(outer, crc, inner);
    EndsAgree(e);
    var whole := EMPTY.(buf := e);
    assert [] + e == e;
    JudgeTogether(whole);
    var rest := AfterReject(STRICT, whole, Resync(e).held, e);
    InnerFirst(rest.(buf := []), inner, e[|e| - 2..]);
  }

  lemma InnerFirst(t: Tester, inner: Frame, tail: seq<byte>)
    requires t.buf == [] && |inner.payload| <= 239 && CrcExtra(inner.messageId).Some?
    ensures var frames := Drain(STRICT, t.(buf := Wired(inner) + tail)).1; frames != [] && frames[0] == inner
  {
    hide Drain, Wired;
    var sent := Transmission([], inner);
    WiredReturned(t, sent);
    assert [] + Wired(inner) == Wired(inner);
    DrainMore(STRICT, t.(buf := Wired(inner)), tail);
  }
}
