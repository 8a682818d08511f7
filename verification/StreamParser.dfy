/**
The firmware's receiver: one byte at a time into a fixed buffer, and after a checksum
mismatch a restart at the next start byte already in the buffer.
*/
module StreamParser {
  import opened Wrappers
  import opened Crc
  import opened Wire

  const CAPACITY := 280

  datatype ParseState =
    | WaitingForStart
    | ReadingHeader
    | ReadingPayload(expectedLen: nat)
    | ReadingChecksum(bytesRemaining: nat)

  /** The receiver seen as a value: the bytes held (`frame_buf[..frame_pos]`) and the parse state. */
  datatype Receiver = Receiver(held: seq<byte>, state: ParseState)

  /** What one byte produces; `Fault` is the out-of-range store that stops the firmware. */
  datatype Output = Quiet | Emit(frame: seq<byte>) | Fault

  function Emitted(out: Output): Option<seq<byte>> {
    if out.Emit? then Some(out.frame) else None
  }

  const IDLE := Receiver([], WaitingForStart)

  predicate Consistent(rx: Receiver) {
    && |rx.held| <= CAPACITY
    && match rx.state
       case WaitingForStart => rx.held == []
       case ReadingHeader => |rx.held| >= 1
       case ReadingPayload(n) => |rx.held| >= 6 && n == Declared(rx.held) > 0
       case ReadingChecksum(k) => |rx.held| >= 6 && 1 <= k <= 2 && |rx.held| >= 6 + Declared(rx.held) + (2 - k)
  }

  function Resync(held: seq<byte>): (rx: Receiver)
    requires 1 <= |held| <= CAPACITY
    ensures Consistent(rx)
  {
    match IndexOfStart(held, 1)
    case Some(i) => Receiver(held[i..], ReadingHeader)
    case None => IDLE
  }

  /** The verdict on a structurally complete candidate. */
  function Decide(held: seq<byte>): (r: (Receiver, Output))
    requires 8 <= |held| <= CAPACITY && |held| >= 8 + Declared(held)
    ensures Consistent(r.0)
  {
    if Received(held) == FirmwareCrc(held) then (IDLE, Emit(held)) else (Resync(held), Quiet)
  }

  function AfterHeaderByte(held: seq<byte>): (rx: Receiver)
    requires 2 <= |held| <= CAPACITY
    ensures Consistent(rx)
  {
    if |held| < 6 then Receiver(held, ReadingHeader)
    else if Declared(held) == 0 then Receiver(held, ReadingChecksum(2))
    else Receiver(held, ReadingPayload(Declared(held)))
  }

  /** One call of `feed_byte`. */
  function Feed(rx: Receiver, b: byte): (r: (Receiver, Output))
    requires Consistent(rx)
    ensures Consistent(r.0)
  {
    if rx.state.WaitingForStart? then
      (if b == STX then Receiver([b], ReadingHeader) else rx, Quiet)
    else if |rx.held| >= CAPACITY then
      (rx, Fault)
    else
      var held := rx.held + [b];
      match rx.state
      case ReadingHeader =>
        (AfterHeaderByte(held), Quiet)
      case ReadingPayload(n) =>
        (Receiver(held, if |held| - 6 >= n then ReadingChecksum(2) else ReadingPayload(n)), Quiet)
      case ReadingChecksum(k) =>
        if k == 1 then Decide(held) else (Receiver(held, ReadingChecksum(k - 1)), Quiet)
  }

  /** The receiver as the firmware keeps it: a fixed array, a position and the parse state. */
  class MavlinkParser {
    const frameBuf: array<byte>
    var framePos: nat
    var state: ParseState

    ghost predicate Valid()
      reads this, frameBuf
    {
      frameBuf.Length == CAPACITY && framePos <= CAPACITY && Consistent(Receiver(frameBuf[..framePos], state))
    }

    ghost function Value(): Receiver
      reads this, frameBuf
      requires Valid()
    {
      Receiver(frameBuf[..framePos], state)
    }

    constructor ()
      ensures Valid() && Value() == IDLE && fresh(frameBuf)
    {
      frameBuf := new byte[CAPACITY](_ => 0);
      framePos := 0;
      state := WaitingForStart;
    }

    method Reset()
      modifies this
      requires frameBuf.Length == CAPACITY
      ensures Valid() && Value() == IDLE
    {
      framePos := 0;
      state := WaitingForStart;
    }

    method FoldSpan(end: nat) returns (crc: bv16)
      requires Valid() && 1 <= end <= framePos
      ensures crc == Fold(Accumulate, Value().held[1..end], INITIAL)
    {
      hide Accumulate;
      ghost var held := frameBuf[..framePos];
      crc := INITIAL;
      for i := 1 to end
        invariant crc == Fold(Accumulate, held[1..i], INITIAL)
      {
        assert frameBuf[i] == held[i] && held[1..i] + [held[i]] == held[1..i + 1];
        FoldAppend(Accumulate, held[1..i], held[i], INITIAL);
        crc := Accumulate(frameBuf[i], crc);
      }
    }

    method CalculateCrc(payloadLen: nat) returns (crc: bv16)
      requires Valid() && framePos >= 8 && payloadLen == Declared(frameBuf[..framePos])
      requires framePos >= 8 + payloadLen
      ensures crc == FirmwareCrc(Value().held)
    {
      hide Accumulate, FirmwareExtra;
      crc := FoldSpan(6 + payloadLen);
      var extra := FirmwareExtra(frameBuf[5]);
      if extra != 0 {
        crc := Accumulate(extra, crc);
      }
    }

    /** Moves the bytes from the next start byte to the front of the buffer, or starts over. */
    method Restart()
      requires Valid() && framePos >= 1
      modifies this, frameBuf
      ensures Valid() && Value() == Resync(old(frameBuf[..framePos]))
    {
      ghost var held := frameBuf[..framePos];
      var start := 1;
      while start < framePos && frameBuf[start] != STX
        invariant 1 <= start <= framePos
        invariant IndexOfStart(held, 1) == IndexOfStart(held, start)
      {
        start := start + 1;
      }
      if start == framePos {
        Reset();
        return;
      }
      ShiftDown(start);
      state := ReadingHeader;
    }

    method ShiftDown(start: nat)
      requires frameBuf.Length == CAPACITY && start < framePos <= CAPACITY
      modifies `framePos, frameBuf
      ensures framePos == old(framePos) - start && frameBuf[..framePos] == old(frameBuf[start..framePos])
    {
      var remaining := framePos - start;
      for i := 0 to remaining
        invariant forall j :: 0 <= j < i ==> frameBuf[j] == old(frameBuf[start + j])
        invariant forall j :: i <= j < framePos ==> frameBuf[j] == old(frameBuf[j])
        modifies frameBuf
      {
        frameBuf[i] := frameBuf[start + i];
      }
      framePos := remaining;
    }

    /** The checksum test on a structurally complete candidate. */
    method Judge() returns (frame: Option<seq<byte>>)
      requires frameBuf.Length == CAPACITY && 8 <= framePos <= CAPACITY
      requires state == ReadingChecksum(1) && framePos >= 8 + Declared(frameBuf[..framePos])
      modifies this, frameBuf
      ensures Valid() && Value() == Decide(old(frameBuf[..framePos])).0
      ensures frame == Emitted(Decide(old(frameBuf[..framePos])).1)
    {
      ghost var held := frameBuf[..framePos];
      var received := Join(frameBuf[framePos - 2], frameBuf[framePos - 1]);
      var calculated := CalculateCrc(frameBuf[1] as int);
      if received == calculated {
        frame := Some(frameBuf[..framePos]);
        Reset();
      } else {
        frame := None;
        Restart();
      }
    }

    method HeaderByte()
      requires frameBuf.Length == CAPACITY && 2 <= framePos <= CAPACITY && state == ReadingHeader
      modifies `state
      ensures Valid() && Value() == AfterHeaderByte(frameBuf[..framePos])
    {
      if framePos >= 6 {
        var payloadLen := frameBuf[1] as int;
        state := if payloadLen == 0 then ReadingChecksum(2) else ReadingPayload(payloadLen);
      }
    }

    method Store(b: byte)
      requires Valid() && framePos < CAPACITY
      modifies this`framePos, frameBuf
      ensures framePos == old(framePos) + 1 && frameBuf[..framePos] == old(frameBuf[..framePos]) + [b]
    {
      frameBuf[framePos] := b;
      framePos := framePos + 1;
    }

    /** `feed_byte`; `fault` reports a store past the end of the buffer. */
    method FeedByte(b: byte) returns (frame: Option<seq<byte>>, fault: bool)
      requires Valid()
      modifies this, frameBuf
      ensures Valid() && Value() == Feed(old(Value()), b).0
      ensures fault == Feed(old(Value()), b).1.Fault? && frame == Emitted(Feed(old(Value()), b).1)
      ensures frame.Some? ==>
        && |frame.value| >= 8 && |frame.value| >= 8 + Declared(frame.value)
        && Received(frame.value) == ReferenceCrc(frame.value)
    {
      hide FirmwareCrc, ReferenceCrc, Received;
      frame, fault := None, false;
      if state.WaitingForStart? {
        if b == STX {
          Store(b);
          state := ReadingHeader;
        }
        return;
      }
      if framePos >= CAPACITY {
        return None, true;
      }
      Store(b);
      match state
      case ReadingHeader =>
        HeaderByte();
      case ReadingPayload(expectedLen) =>
        if framePos - 6 >= expectedLen {
          state := ReadingChecksum(2);
        }
      case ReadingChecksum(bytesRemaining) =>
        if bytesRemaining == 1 {
          frame := Judge();
          if frame.Some? {
            FirmwareIsReference(frame.value);
          }
        } else {
          state := ReadingChecksum(bytesRemaining - 1);
        }
    }
  }
}
