/** The tester's receiver: a growing buffer, scanned again from the front whenever data arrives. */
module BatchParser {
  import opened Wrappers
  import opened Crc
  import opened Wire

  /** What the tester keeps of an invalid candidate; `head` is at most its first 18 bytes. */
  datatype Sample = Sample(frame: Frame, len: nat, crc: bv16, head: seq<byte>)

  datatype Config = Config(validateCrc: bool, sampleLimit: int)

  datatype Tester = Tester(
    buf: seq<byte>,
    candidates: nat,
    invalidCrc: nat,
    invalidByMsgid: map<byte, int>,
    samples: seq<Sample>)

  const EMPTY := Tester([], 0, 0, map[], [])

  /** What one turn of the scanning loop decides. */
  datatype Turn =
    | Stop(rest: seq<byte>)
    | Reject(rest: seq<byte>, frame: seq<byte>)
    | Accept(rest: seq<byte>, frame: seq<byte>)

  /** Drops everything before the first start byte. */
  function Trim(buf: seq<byte>): (t: seq<byte>)
    ensures |t| <= |buf| && (t != [] ==> t[0] == STX)
  {
    match IndexOfStart(buf, 0)
    case None => []
    case Some(start) => buf[start..]
  }

  predicate HasCandidate(b: seq<byte>) {
    |b| >= 6 && |b| >= 8 + Declared(b)
  }

  function AfterInvalid(b: seq<byte>, frame: seq<byte>): (rest: seq<byte>)
    requires 8 <= |frame| <= |b|
    ensures |rest| < |b|
  {
    match IndexOfStart(frame, 1)
    case None => b[|frame|..]
    case Some(restart) => b[restart..]
  }

  function NextTurn(validate: bool, buf: seq<byte>): (turn: Turn)
    ensures !turn.Stop? ==> |turn.rest| < |buf| && |turn.frame| >= 8 && |turn.frame| == 8 + Declared(turn.frame)
  {
    var b := Trim(buf);
    if !HasCandidate(b) then Stop(b)
    else
      var frame := b[..8 + Declared(b)];
      if validate && !ValidCrc(frame) then Reject(AfterInvalid(b, frame), frame)
      else Accept(b[|frame|..], frame)
  }

  function SampleOf(frame: seq<byte>): Sample
    requires |frame| >= 8 && |frame| == 8 + Declared(frame)
  {
    Sample(Decode(frame), Declared(frame), Received(frame), frame[..if |frame| < 18 then |frame| else 18])
  }

  function Bump<K(==)>(counts: map<K, int>, id: K): map<K, int> {
    counts[id := if id in counts then counts[id] + 1 else 1]
  }

  function CountInvalid(config: Config, t: Tester, frame: seq<byte>): Tester
    requires |frame| >= 8 && |frame| == 8 + Declared(frame)
  {
    t.(invalidCrc := t.invalidCrc + 1,
       invalidByMsgid := Bump(t.invalidByMsgid, frame[5]),
       samples := if |t.samples| < config.sampleLimit then t.samples + [SampleOf(frame)] else t.samples)
  }

  lemma TrimTwice(buf: seq<byte>)
    ensures Trim(Trim(buf)) == Trim(buf)
  {}

  lemma TurnOfTrimmed(validate: bool, buf: seq<byte>)
    ensures NextTurn(validate, Trim(buf)) == NextTurn(validate, buf)
  {
    hide ValidCrc, Declared, AfterInvalid;
    TrimTwice(buf);
  }

  function AfterReject(config: Config, t: Tester, rest: seq<byte>, frame: seq<byte>): (after: Tester)
    requires |frame| >= 8 && |frame| == 8 + Declared(frame)
    ensures after.buf == rest
  {
    CountInvalid(config, t.(buf := rest, candidates := t.candidates + 1), frame)
  }

  /** Runs the loop until it stops: the state left behind and the frames returned. */
  function Drain(config: Config, t: Tester): (Tester, seq<Frame>)
    decreases |t.buf|
  {
    match NextTurn(config.validateCrc, t.buf)
    case Stop(rest) => (t.(buf := rest), [])
    case Reject(rest, frame) => Drain(config, AfterReject(config, t, rest, frame))
    case Accept(rest, frame) => Prepend(frame, Drain(config, t.(buf := rest, candidates := t.candidates + 1)))
  }

  function Prepend(frame: seq<byte>, r: (Tester, seq<Frame>)): (Tester, seq<Frame>)
    requires |frame| >= 8 && |frame| == 8 + Declared(frame)
  {
    (r.0, [Decode(frame)] + r.1)
  }

  lemma DrainTrims(config: Config, t: Tester)
    ensures Drain(config, t.(buf := Trim(t.buf))) == Drain(config, t)
  {
    hide NextTurn, Trim, Prepend;
    TurnOfTrimmed(config.validateCrc, t.buf);
    assert forall rest, c :: t.(buf := Trim(t.buf)).(buf := rest, candidates := c) == t.(buf := rest, candidates := c);
  }

  lemma DrainStops(config: Config, t: Tester)
    requires !HasCandidate(Trim(t.buf))
    ensures Drain(config, t) == (t.(buf := Trim(t.buf)), [])
  {}

  lemma DrainTakes(config: Config, t: Tester)
    requires HasCandidate(Trim(t.buf))
    ensures var b := Trim(t.buf);
      var frame := b[..8 + Declared(b)];
      if config.validateCrc && !ValidCrc(frame)
      then Drain(config, t) == Drain(config, AfterReject(config, t, AfterInvalid(b, frame), frame))
      else Drain(config, t) == Prepend(frame, Drain(config, t.(buf := b[|frame|..], candidates := t.candidates + 1)))
  {
    hide ValidCrc, Trim, AfterReject, Prepend;
  }

  /** `feed`. */
  function FeedAll(config: Config, t: Tester, data: seq<byte>): (Tester, seq<Frame>) {
    Drain(config, t.(buf := t.buf + data))
  }

  class MavlinkV1Parser {
    const config: Config
    var buf: seq<byte>
    var candidates: nat
    var invalidCrc: nat
    var invalidByMsgid: map<byte, int>
    var samples: seq<Sample>

    function Value(): Tester
      reads this
    {
      Tester(buf, candidates, invalidCrc, invalidByMsgid, samples)
    }

    constructor (config: Config)
      ensures this.config == config && Value() == EMPTY
    {
      this.config := config;
      buf, candidates, invalidCrc, invalidByMsgid, samples := [], 0, 0, map[], [];
    }

    method RecordInvalid(frame: seq<byte>)
      requires |frame| >= 8 && |frame| == 8 + Declared(frame)
      modifies this
      ensures Value() == CountInvalid(config, old(Value()), frame)
    {
      invalidCrc := invalidCrc + 1;
      invalidByMsgid := Bump(invalidByMsgid, frame[5]);
      if |samples| < config.sampleLimit {
        samples := samples + [SampleOf(frame)];
      }
    }

    /** Drops what precedes the first start byte; tells whether a whole candidate is in the buffer. */
    method Align() returns (complete: bool)
      modifies `buf
      ensures buf == Trim(old(buf)) && complete == HasCandidate(buf)
    {
      var start := IndexOfStart(buf, 0);
      if start.None? {
        buf := [];
        return false;
      }
      buf := buf[start.value..];
      if |buf| < 6 {
        return false;
      }
      var payloadLen := buf[1] as int;
      return |buf| >= 6 + payloadLen + 2;
    }

    /** Consumes a candidate: the whole of it, or after an invalid checksum up to its next start byte. */
    method TakeCandidate() returns (frame: Option<seq<byte>>)
      requires HasCandidate(buf)
      modifies this
      ensures var f := old(buf)[..8 + Declared(old(buf))];
        var counted := old(Value()).(candidates := old(candidates) + 1);
        if config.validateCrc && !ValidCrc(f)
        then frame == None && Value() == CountInvalid(config, counted.(buf := AfterInvalid(old(buf), f)), f)
        else frame == Some(f) && Value() == counted.(buf := old(buf)[|f|..])
    {
      var frameLen := 6 + Declared(buf) + 2;
      var candidate := buf[..frameLen];
      candidates := candidates + 1;
      if config.validateCrc && !ValidCrc(candidate) {
        var restart := IndexOfStart(candidate, 1);
        buf := if restart.None? then buf[frameLen..] else buf[restart.value..];
        RecordInvalid(candidate);
        frame := None;
      } else {
        buf := buf[frameLen..];
        frame := Some(candidate);
      }
    }

    method Feed(data: seq<byte>) returns (frames: seq<Frame>)
      modifies this
      ensures (Value(), frames) == FeedAll(config, old(Value()), data)
    {
      hide NextTurn, Drain, Trim, CountInvalid, ValidCrc, AfterInvalid, Decode;
      frames := [];
      buf := buf + data;
      ghost var all := Drain(config, Value());
      assert all.1 == frames + all.1;
      while true
        invariant all == (Drain(config, Value()).0, frames + Drain(config, Value()).1)
        decreases |buf|
      {
        ghost var before := Value();
        var complete := Align();
        if !complete {
          DrainStops(config, before);
          assert frames + [] == frames;
          break;
        }
        DrainTakes(config, before);
        var frame := TakeCandidate();
        if frame.Some? {
          ghost var rest := Drain(config, Value());
          assert frames + ([Decode(frame.value)] + rest.1) == frames + [Decode(frame.value)] + rest.1;
          frames := frames + [Decode(frame.value)];
        }
      }
    }
  }

  // ---------- The counters ----------

  /** Every candidate is either returned or counted invalid, under its id; with validation off none is invalid. */
  lemma {:induction false} CandidatesAccounted(config: Config, t: Tester, id: byte)
    ensures var (after, frames) := Drain(config, t);
      && after.candidates - t.candidates == |frames| + (after.invalidCrc - t.invalidCrc)
      && (!config.validateCrc ==> after.invalidCrc == t.invalidCrc && after.samples == t.samples)
      && InvalidOf(t, id) <= InvalidOf(after, id) <= InvalidOf(t, id) + (after.invalidCrc - t.invalidCrc)
      && (|t.samples| <= config.sampleLimit ==> |after.samples| <= config.sampleLimit)
    decreases |t.buf|
  {
    hide NextTurn, Decode, Bump, Tally, SampleOf;
    match NextTurn(config.validateCrc, t.buf)
    case Stop(rest) =>
    case Reject(rest, frame) =>
      RejectNeedsValidation(config.validateCrc, t.buf);
      RejectCountsOne(config, t, rest, frame, id);
      CandidatesAccounted(config, AfterReject(config, t, rest, frame), id);
    case Accept(rest, frame) =>
      CandidatesAccounted(config, t.(buf := rest, candidates := t.candidates + 1), id);
  }

  function Tally<K(==)>(counts: map<K, int>, id: K): int {
    if id in counts then counts[id] else 0
  }

  lemma BumpTallies<K>(counts: map<K, int>, id: K, x: K)
    ensures Tally(Bump(counts, id), x) == Tally(counts, x) + if x == id then 1 else 0
  {}

  function InvalidOf(t: Tester, id: byte): int {
    Tally(t.invalidByMsgid, id)
  }

  lemma RejectNeedsValidation(validate: bool, buf: seq<byte>)
    ensures NextTurn(validate, buf).Reject? ==> validate && !ValidCrc(NextTurn(validate, buf).frame)
    ensures NextTurn(validate, buf).Accept? && validate ==> ValidCrc(NextTurn(validate, buf).frame)
  {
    hide ValidCrc, AfterInvalid;
  }

  /** One rejected candidate is counted once, under its own id, and sampled while there is room. */
  lemma RejectCountsOne(config: Config, t: Tester, rest: seq<byte>, frame: seq<byte>, id: byte)
    requires |frame| >= 8 && |frame| == 8 + Declared(frame)
    ensures var after := AfterReject(config, t, rest, frame);
      && after.invalidCrc == t.invalidCrc + 1 && after.candidates == t.candidates + 1
      && InvalidOf(after, id) == InvalidOf(t, id) + (if id == frame[5] then 1 else 0)
      && |after.samples| == |t.samples| + if |t.samples| < config.sampleLimit then 1 else 0
  {
    hide Bump, Tally;
    BumpTallies(t.invalidByMsgid, frame[5], id);
  }

  lemma HeaderRebuilds(frame: seq<byte>)
    requires |frame| >= 8 && |frame| == 8 + Declared(frame) && frame[0] == STX
    ensures frame[..6] == Header(Decode(frame)) && Decode(frame).payload == frame[6..6 + Declared(frame)]
  {
    hide LengthByte, Declared;
    DeclaredByte(frame);
    LengthOfByte(Declared(frame), frame[1]);
    var h := Header(Decode(frame));
    assert h[0] == frame[0] && h[1] == frame[1] && h[2] == frame[2];
    assert h[3] == frame[3] && h[4] == frame[4] && h[5] == frame[5];
  }

  lemma DeclaredByte(frame: seq<byte>)
    requires |frame| >= 2
    ensures Declared(frame) == frame[1] as int
  {}

  lemma LengthOfByte(n: nat, b: byte)
    requires n < 256 && b as int == n
    ensures LengthByte(n) == b
  {
    hide LengthByte;
    Remainder(n);
    SameByte(LengthByte(n), b);
  }

  lemma Remainder(n: nat)
    requires n < 256
    ensures n % 256 == n
  {}

  lemma SameByte(a: byte, b: byte)
    requires a as int == b as int
    ensures a == b
  {}

  /** A sample holds enough to rebuild the rejected candidate, and its first bytes as they came. */
  lemma SampleRebuilds(frame: seq<byte>)
    requires |frame| >= 8 && |frame| == 8 + Declared(frame) && frame[0] == STX
    ensures var x := SampleOf(frame);
      && Encode(x.frame, x.crc) == frame && x.len == |frame| - 8
      && x.head <= frame && |x.head| == if |frame| < 18 then |frame| else 18
  {
    hide Header, Decode, Join, LowHalf, HighHalf;
    var n := Declared(frame);
    HeaderRebuilds(frame);
    SplitJoin(frame[6 + n], frame[7 + n]);
    assert frame == frame[..6] + frame[6..6 + n] + [frame[6 + n], frame[7 + n]];
  }

  lemma SplitJoin(low: byte, high: byte)
    ensures LowHalf(Join(low, high)) == low && HighHalf(Join(low, high)) == high
  {}
}
