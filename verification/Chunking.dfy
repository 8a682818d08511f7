/** The tester's frames do not depend on how the byte stream is cut into chunks. */
module Chunking {
  import opened Wrappers
  import opened Crc
  import opened Wire
  import opened BatchParser

  /** Feeds a second chunk after a first result. */
  function Then(config: Config, first: (Tester, seq<Frame>), more: seq<byte>): (Tester, seq<Frame>) {
    var second := FeedAll(config, first.0, more);
    (second.0, first.1 + second.1)
  }

  lemma {:induction false} IndexSkips(a: seq<byte>, b: seq<byte>, from: nat)
    requires from <= |a| && IndexOfStart(a, from).None?
    ensures IndexOfStart(a + b, from) == match IndexOfStart(b, 0) case None => None case Some(i) => Some(|a| + i)
  {
    match IndexOfStart(b, 0)
    case None =>
      assert forall k :: from <= k < |a + b| ==> (a + b)[k] != STX;
    case Some(i) =>
      assert (a + b)[|a| + i] == STX;
      assert forall k :: from <= k < |a| + i ==> (a + b)[k] != STX;
  }

  lemma TrimMore(a: seq<byte>, b: seq<byte>)
    ensures Trim(a + b) == if Trim(a) == [] then Trim(b) else Trim(a) + b
  {
    match IndexOfStart(a, 0)
    case None =>
      IndexSkips(a, b, 0);
      var j := IndexOfStart(b, 0);
      if j.Some? {
        assert (a + b)[|a| + j.value..] == b[j.value..];
      }
    case Some(i) =>
      var k := IndexOfStart(a + b, 0);
      assert (a + b)[i] == STX;
      assert k.Some? && k.value <= i && (a + b)[k.value] == a[k.value];
      assert k.value == i;
      assert (a + b)[i..] == a[i..] + b;
  }

  function Extend(turn: Turn, more: seq<byte>): Turn {
    match turn
    case Stop(rest) => Stop(rest + more)
    case Reject(rest, frame) => Reject(rest + more, frame)
    case Accept(rest, frame) => Accept(rest + more, frame)
  }

  /** What a turn takes from an aligned buffer. */
  function Take(validate: bool, b: seq<byte>): (turn: Turn)
    requires HasCandidate(b)
    ensures !turn.Stop?
  {
    var frame := b[..8 + Declared(b)];
    if validate && !ValidCrc(frame) then Reject(AfterInvalid(b, frame), frame) else Accept(b[|frame|..], frame)
  }

  lemma TakeMore(validate: bool, b: seq<byte>, more: seq<byte>)
    requires HasCandidate(b)
    ensures HasCandidate(b + more) && Take(validate, b + more) == Extend(Take(validate, b), more)
  {
    hide ValidCrc;
    assert Declared(b + more) == Declared(b);
    var frame := b[..8 + Declared(b)];
    assert (b + more)[..8 + Declared(b)] == frame;
    assert (b + more)[|frame|..] == b[|frame|..] + more;
    match IndexOfStart(frame, 1)
    case None =>
    case Some(i) => assert (b + more)[i..] == b[i..] + more;
  }

  lemma TurnByTake(validate: bool, buf: seq<byte>)
    ensures NextTurn(validate, buf) == if HasCandidate(Trim(buf)) then Take(validate, Trim(buf)) else Stop(Trim(buf))
  {
    hide Trim, AfterInvalid, ValidCrc;
  }

  /** A decided candidate is decided the same way whatever follows; an undecided buffer keeps its tail. */
  lemma TurnMore(validate: bool, buf: seq<byte>, more: seq<byte>)
    ensures var turn := NextTurn(validate, buf);
      NextTurn(validate, buf + more) == if turn.Stop? then NextTurn(validate, turn.rest + more) else Extend(turn, more)
  {
    hide Trim, Take, NextTurn;
    var b := Trim(buf);
    TurnByTake(validate, buf);
    TurnByTake(validate, buf + more);
    TurnByTake(validate, b + more);
    TrimMore(buf, more);
    TrimMore(b, more);
    TrimTwice(buf);
    if HasCandidate(b) {
      TakeMore(validate, b, more);
    } else {
      assert [] + more == more;
    }
  }

  lemma CountsIgnoreBuffer(config: Config, t: Tester, rest: seq<byte>, frame: seq<byte>, more: seq<byte>)
    requires |frame| >= 8 && |frame| == 8 + Declared(frame)
    ensures AfterReject(config, t.(buf := t.buf + more), rest + more, frame)
         == AfterReject(config, t, rest, frame).(buf := rest + more)
  {}

  lemma {:induction false} DrainMore(config: Config, t: Tester, more: seq<byte>)
    ensures Drain(config, t.(buf := t.buf + more)) == Then(config, Drain(config, t), more)
    decreases |t.buf|
  {
    hide NextTurn, AfterReject, Decode;
    TurnMore(config.validateCrc, t.buf, more);
    var whole := t.(buf := t.buf + more);
    match NextTurn(config.validateCrc, t.buf)
    case Stop(rest) =>
      DrainSameTurn(config, whole, t.(buf := rest + more));
      var second := FeedAll(config, t.(buf := rest), more);
      assert [] + second.1 == second.1;
    case Reject(rest, frame) =>
      CountsIgnoreBuffer(config, t, rest, frame, more);
      DrainMore(config, AfterReject(config, t, rest, frame), more);
    case Accept(rest, frame) =>
      var next := t.(buf := rest, candidates := t.candidates + 1);
      DrainMore(config, next, more);
      var later := FeedAll(config, Drain(config, next).0, more).1;
      assert [Decode(frame)] + (Drain(config, next).1 + later) == ([Decode(frame)] + Drain(config, next).1) + later;
  }

  lemma DrainSameTurn(config: Config, a: Tester, b: Tester)
    requires a.(buf := []) == b.(buf := [])
    requires NextTurn(config.validateCrc, a.buf) == NextTurn(config.validateCrc, b.buf)
    ensures Drain(config, a) == Drain(config, b)
  {
    hide NextTurn, Prepend;
    assert forall rest, c :: a.(buf := rest, candidates := c) == b.(buf := rest, candidates := c);
  }

  /**
  Feeding two chunks, from any state, gives the frames, the buffer and the counters of feeding their
  concatenation.
  */
  lemma ChunkingIndependent(config: Config, t: Tester, a: seq<byte>, b: seq<byte>)
    ensures FeedAll(config, t, a + b) == Then(config, FeedAll(config, t, a), b)
  {
    hide Drain;
    assert t.buf + (a + b) == (t.buf + a) + b;
    DrainMore(config, t.(buf := t.buf + a), b);
  }
}
