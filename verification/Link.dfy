/** The firmware encoder: frames written into a caller's buffer, with a wrapping sequence number. */
module Link {
  import opened Wrappers
  import opened Crc
  import opened Wire

  /** `copy_from_slice`. */
  method CopyInto(bytes: seq<byte>, out: array<byte>, at: nat)
    requires at + |bytes| <= out.Length
    modifies out
    ensures out[..] == old(out[..at]) + bytes + old(out[at + |bytes|..])
  {
    forall i | 0 <= i < |bytes| {
      out[at + i] := bytes[i];
    }
  }

  class FrameEncoder {
    var sequence: byte

    constructor ()
      ensures sequence == 0
    {
      sequence := 0;
    }

    /** Hands out the current number; the next one is one more, modulo 256. */
    method NextSequence() returns (s: byte)
      modifies this
      ensures s == old(sequence) && sequence == s + 1
    {
      s := sequence;
      sequence := sequence + 1;
    }

    /** Writes the frame at the start of `out`, or nothing when it does not fit. */
    method EncodeFrame(frame: Frame, crc: bv16, out: array<byte>) returns (written: Option<nat>)
      modifies out
      ensures written == if 8 + |frame.payload| > out.Length then None else Some(8 + |frame.payload|)
      ensures written.None? ==> out[..] == old(out[..])
      ensures written.Some? ==> out[..] == Encode(frame, crc) + old(out[8 + |frame.payload|..])
    {
      var n := |frame.payload|;
      if n + 8 > out.Length {
        return None;
      }
      ghost var was := out[..];
      WriteHeader(frame, out);
      CopyInto(frame.payload, out, 6);
      ghost var before := out[..];
      assert before == Header(frame) + frame.payload + was[6 + n..] by {
        assert (Header(frame) + was[6..])[..6] == Header(frame);
        assert (Header(frame) + was[6..])[6 + n..] == was[6 + n..];
      }
      var checksum := [LowHalf(crc), HighHalf(crc)];
      CopyInto(checksum, out, 6 + n);
      assert before[..6 + n] == Header(frame) + frame.payload;
      assert before[8 + n..] == was[8 + n..];
      return Some(8 + n);
    }

    method WriteHeader(frame: Frame, out: array<byte>)
      requires out.Length >= 6
      modifies out
      ensures out[..] == Header(frame) + old(out[6..])
    {
      var lengthByte := LengthByte(|frame.payload|);
      hide LengthByte;
      var pos := 0;
      out[pos] := STX;
      pos := pos + 1;
      out[pos] := lengthByte;
      pos := pos + 1;
      out[pos] := frame.sequence;
      pos := pos + 1;
      out[pos] := frame.systemId;
      pos := pos + 1;
      out[pos] := frame.componentId;
      pos := pos + 1;
      out[pos] := frame.messageId;
    }
  }
}
