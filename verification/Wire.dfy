/**
The MAVLink 1 frame on the wire ("MAVLink 1 Packet Format" of the MAVLink Developer
Guide): start byte, payload length, sequence, system, component and message id, the
payload, and the checksum of everything but the start byte, low byte first.
*/
module Wire {
  import opened Wrappers
  import opened Crc

  const STX: byte := 0xFE

  /** The firmware's message-specific checksum byte; 0 stands for an id it does not know. */
  function FirmwareExtra(messageId: byte): byte {
    match messageId
    case 0 => 50
    case 20 => 214
    case 21 => 159
    case 22 => 220
    case 23 => 168
    case 31 => 246
    case 65 => 118
    case 111 => 34
    case 180 => 90
    case 181 => 67
    case 182 => 218
    case 183 => 206
    case 184 => 169
    case 187 => 60
    case 188 => 249
    case 189 => 113
    case 190 => 181
    case 191 => 12
    case 192 => 134
    case 193 => 1
    case 195 => 65
    case 196 => 10
    case 197 => 221
    case 199 => 48
    case 253 => 83
    case _ => 0
  }

  /** The tester's table. */
  function CrcExtra(messageId: byte): Option<byte> {
    match messageId
    case 0 => Some(50)
    case 20 => Some(214)
    case 21 => Some(159)
    case 22 => Some(220)
    case 23 => Some(168)
    case 31 => Some(246)
    case 65 => Some(118)
    case 111 => Some(34)
    case 180 => Some(90)
    case 181 => Some(67)
    case 182 => Some(218)
    case 183 => Some(206)
    case 184 => Some(169)
    case 187 => Some(60)
    case 188 => Some(249)
    case 189 => Some(113)
    case 190 => Some(181)
    case 191 => Some(12)
    case 192 => Some(134)
    case 193 => Some(1)
    case 195 => Some(65)
    case 196 => Some(10)
    case 197 => Some(221)
    case 199 => Some(48)
    case 253 => Some(83)
    case _ => None
  }

  /** The two tables hold the same entries, and none of them is the firmware's 0. */
  lemma TablesAgree(messageId: byte)
    ensures CrcExtra(messageId) ==
      if FirmwareExtra(messageId) == 0 then None else Some(FirmwareExtra(messageId))
  {}

  datatype Frame = Frame(sequence: byte, systemId: byte, componentId: byte, messageId: byte, payload: seq<byte>)

  function ByteOf(n: nat): (b: byte)
    requires n < 256
    ensures b as int == n
  {
    if n == 0 then 0 else Successor(ByteOf(n - 1))
  }

  function Successor(b: byte): (c: byte)
    requires b != 255
    ensures c as int == b as int + 1
  {
    b + 1
  }

  /** A Rust `as u8` cast keeps the low eight bits. */
  function LengthByte(n: nat): (b: byte)
    ensures b as int == n % 256
  {
    ByteOf(n % 256)
  }

  function Header(f: Frame): seq<byte> {
    [STX, LengthByte(|f.payload|), f.sequence, f.systemId, f.componentId, f.messageId]
  }

  function LowHalf(crc: bv16): byte {
    (crc & 0xFF) as byte
  }

  function HighHalf(crc: bv16): byte {
    (crc >> 8) as byte
  }

  function Join(low: byte, high: byte): bv16 {
    ((high as bv16) << 8) | (low as bv16)
  }

  lemma JoinHalves(crc: bv16)
    ensures Join(LowHalf(crc), HighHalf(crc)) == crc
  {}

  /** The bytes of `encode_frame`, given the checksum it is handed. */
  function Encode(f: Frame, crc: bv16): seq<byte> {
    Header(f) + f.payload + [LowHalf(crc), HighHalf(crc)]
  }

  /** The first start byte at or after `from`: `index` on the tester's buffer, the search loop of the firmware. */
  function IndexOfStart(s: seq<byte>, from: nat): (at: Option<nat>)
    requires from <= |s|
    ensures at.Some? ==> from <= at.value < |s| && s[at.value] == STX
    ensures at.Some? ==> forall j :: from <= j < at.value ==> s[j] != STX
    ensures at.None? ==> forall j :: from <= j < |s| ==> s[j] != STX
    decreases |s| - from
  {
    if from == |s| then None
    else if s[from] == STX then Some(from)
    else IndexOfStart(s, from + 1)
  }

  // ---------- Reading a frame ----------

  /** The payload length a buffer declares. */
  function Declared(buf: seq<byte>): (n: nat)
    requires |buf| >= 2
    ensures n <= 255
  {
    buf[1] as int
  }

  /** The checksum field, read from the last two bytes of a candidate. */
  function Received(candidate: seq<byte>): bv16
    requires |candidate| >= 2
  {
    Join(candidate[|candidate| - 2], candidate[|candidate| - 1])
  }

  /** What the firmware computes over a candidate: an id without an entry contributes nothing. */
  function FirmwareCrc(buf: seq<byte>): bv16
    requires |buf| >= 6 && |buf| >= 6 + Declared(buf)
  {
    var crc := Fold(Accumulate, buf[1..6 + Declared(buf)], INITIAL);
    var extra := FirmwareExtra(buf[5]);
    if extra != 0 then Accumulate(extra, crc) else crc
  }

  /** The bytes under the checksum: the declared span, and the extra byte of a known id. */
  function Covered(buf: seq<byte>): (s: seq<byte>)
    requires |buf| >= 6 && |buf| >= 6 + Declared(buf)
    ensures |s| >= 5
  {
    buf[1..6 + Declared(buf)] + if FirmwareExtra(buf[5]) != 0 then [FirmwareExtra(buf[5])] else []
  }

  /** The checksum over the reference: bit by bit, from a register of zero, with the first two bytes complemented. */
  function ReferenceCrc(buf: seq<byte>): bv16
    requires |buf| >= 6 && |buf| >= 6 + Declared(buf)
  {
    Fold(FeedByte, ComplementStart(Covered(buf)), 0)
  }

  lemma FirmwareIsReference(buf: seq<byte>)
    requires |buf| >= 6 && |buf| >= 6 + Declared(buf)
    ensures FirmwareCrc(buf) == ReferenceCrc(buf)
  {
    hide Accumulate, FeedByte, Fold, FirmwareExtra, ComplementStart;
    var span, extra := buf[1..6 + Declared(buf)], FirmwareExtra(buf[5]);
    if extra != 0 {
      FoldAppend(Accumulate, span, extra, INITIAL);
    } else {
      assert Covered(buf) == span;
    }
    PresetComplements(Covered(buf));
  }

  /** `valid_crc` of the tester: an id without an entry is never valid. */
  predicate ValidCrc(frame: seq<byte>)
    requires |frame| >= 8 && |frame| >= 8 + Declared(frame)
  {
    var n := Declared(frame);
    match CrcExtra(frame[5])
    case None => false
    case Some(extra) =>
      TesterAccumulate(extra, Fold(TesterAccumulate, frame[1..6 + n], INITIAL)) == Join(frame[6 + n], frame[7 + n])
  }

  /** The fields of a frame of exactly the declared length. */
  function Decode(buf: seq<byte>): Frame
    requires |buf| >= 6 && |buf| >= 6 + Declared(buf)
  {
    Frame(buf[2], buf[3], buf[4], buf[5], buf[6..6 + Declared(buf)])
  }

  /** The checksum the firmware puts on a frame, from its own table. */
  function TableCrc(f: Frame): bv16
    requires |f.payload| <= 255
  {
    assert (Header(f) + f.payload)[1] == LengthByte(|f.payload|);
    FirmwareCrc(Header(f) + f.payload)
  }

  lemma EncodedShape(f: Frame, crc: bv16)
    requires |f.payload| <= 255
    ensures |Encode(f, crc)| == 8 + |f.payload| && Declared(Encode(f, crc)) == |f.payload|
    ensures Encode(f, crc)[0] == STX && Encode(f, crc)[5] == f.messageId
    ensures Decode(Encode(f, crc)) == f
    ensures Encode(f, crc)[..6 + |f.payload|] == Header(f) + f.payload
    ensures Encode(f, crc)[6 + |f.payload|] == LowHalf(crc) && Encode(f, crc)[7 + |f.payload|] == HighHalf(crc)
  {
    hide LengthByte;
    var e, n := Encode(f, crc), |f.payload|;
    assert e[1] == LengthByte(n);
    assert e[6..6 + n] == f.payload;
  }

  /** Every byte of an encoded frame, by its place. */
  lemma EncodedBytes(f: Frame, crc: bv16)
    requires |f.payload| <= 255
    ensures var (e, n) := (Encode(f, crc), |f.payload|);
      && |e| == 8 + n && e[0] == 0xFE && e[1] as int == n && e[2] == f.sequence && e[3] == f.systemId
      && e[4] == f.componentId && e[5] == f.messageId && e[6..6 + n] == f.payload
      && (e[6 + n] as bv16) + ((e[7 + n] as bv16) << 8) == crc
  {
    hide LengthByte;
    assert Encode(f, crc)[6..6 + |f.payload|] == f.payload;
    HalvesAdd(crc);
  }

  lemma HalvesAdd(crc: bv16)
    ensures (LowHalf(crc) as bv16) + ((HighHalf(crc) as bv16) << 8) == crc
  {}

  /** The checksum reads only the declared span. */
  lemma FirmwareCrcOfPrefix(a: seq<byte>, b: seq<byte>)
    requires |a| >= 6 && |a| >= 6 + Declared(a)
    requires |b| >= 6 + Declared(a) && a[..6 + Declared(a)] == b[..6 + Declared(a)]
    ensures b[1] == a[1] && b[5] == a[5] && FirmwareCrc(b) == FirmwareCrc(a)
  {
    var n := 6 + Declared(a);
    assert a[..n][1] == b[..n][1] && a[..n][5] == b[..n][5];
    assert a[1..n] == a[..n][1..] == b[..n][1..] == b[1..n];
  }

  /** An encoded frame carries the checksum it was given, over the fields it was given. */
  lemma EncodedChecksum(f: Frame, crc: bv16)
    requires |f.payload| <= 255
    ensures |Encode(f, crc)| == 8 + |f.payload| && Declared(Encode(f, crc)) == |f.payload|
    ensures FirmwareCrc(Encode(f, crc)) == TableCrc(f) && Received(Encode(f, crc)) == crc
  {
    var e, plain := Encode(f, crc), Header(f) + f.payload;
    EncodedShape(f, crc);
    JoinHalves(crc);
    assert plain[1] == e[..6 + |f.payload|][1];
    assert plain[..6 + |f.payload|] == plain;
    FirmwareCrcOfPrefix(plain, e);
  }

  /** The two ends judge a candidate of the declared length alike, except that the tester rejects unknown ids. */
  lemma EndsAgree(frame: seq<byte>)
    requires |frame| >= 8 && |frame| == 8 + Declared(frame)
    ensures ValidCrc(frame) <==>
      CrcExtra(frame[5]).Some? && FirmwareCrc(frame) == Received(frame)
  {
    hide CrcExtra, FirmwareExtra, Accumulate, TesterAccumulate, Join, Fold;
    TablesAgree(frame[5]);
    var n := Declared(frame);
    TesterFoldAgrees(frame[1..6 + n], INITIAL);
    match CrcExtra(frame[5])
    case None =>
    case Some(extra) =>
      TesterAccumulateAgrees(extra, Fold(Accumulate, frame[1..6 + n], INITIAL));
  }

  // ---------- Altered frames ----------

  ghost predicate Accepted(frame: seq<byte>) {
    |frame| >= 8 && |frame| == 8 + Declared(frame) && FirmwareCrc(frame) == Received(frame)
  }

  /** Two candidates with the same length byte, id and checksum field but different folds are not both accepted. */
  lemma SpanDecides(a: seq<byte>, b: seq<byte>)
    requires Accepted(a) && |b| == |a| && b[1] == a[1] && b[5] == a[5]
    requires b[|a| - 2] == a[|a| - 2] && b[|a| - 1] == a[|a| - 1]
    requires Fold(Accumulate, a[1..|a| - 2], INITIAL) != Fold(Accumulate, b[1..|a| - 2], INITIAL)
    ensures !Accepted(b)
  {
    hide Accumulate, Join;
    assert Received(a) == Received(b);
    AccumulateInjectiveInRegister();
  }

  /** One altered sequence, system, component or payload byte is never accepted. */
  lemma AlteredByteRejected(frame: seq<byte>, i: nat, b: byte)
    requires Accepted(frame)
    requires 2 <= i < |frame| - 2 && i != 5 && b != frame[i]
    ensures !Accepted(frame[i := b])
  {
    AlteredByteFold(frame, i, b, |frame| - 2);
    SpanDecides(frame, frame[i := b]);
  }

  lemma AlteredByteFold(frame: seq<byte>, i: nat, b: byte, n: nat)
    requires 1 <= i < n <= |frame| && b != frame[i]
    ensures Fold(Accumulate, frame[1..n], INITIAL) != Fold(Accumulate, frame[i := b][1..n], INITIAL)
  {
    var prefix, suffix := frame[1..i], frame[i + 1..n];
    assert frame[1..n] == prefix + [frame[i]] + suffix;
    assert frame[i := b][1..n] == prefix + [b] + suffix;
    ByteErrorDetected(prefix, frame[i], b, suffix, INITIAL);
  }

  /**
  A burst of at most 16 bits anywhere among the bytes under the checksum, but for the length and the
  message id, is never accepted: `b` replaces the three bytes at `i`, and the burst may spare any of them.
  */
  lemma BurstRejected(frame: seq<byte>, i: nat, b: (byte, byte, byte))
    requires Accepted(frame)
    requires 2 <= i && i + 3 <= |frame| - 2
    requires i <= 5 <= i + 2 ==> Three(b)[5 - i] == frame[5]
    requires Burst((frame[i], frame[i + 1], frame[i + 2]), b)
    ensures !Accepted(frame[..i] + Three(b) + frame[i + 3..])
  {
    hide Burst, Accumulate, Pattern, Received, FirmwareCrc;
    BurstFold(frame, i, b, |frame| - 2);
    SpanDecides(frame, frame[..i] + Three(b) + frame[i + 3..]);
  }

  lemma BurstFold(frame: seq<byte>, i: nat, b: (byte, byte, byte), n: nat)
    requires 1 <= i && i + 3 <= n <= |frame|
    requires Burst((frame[i], frame[i + 1], frame[i + 2]), b)
    ensures Fold(Accumulate, frame[1..n], INITIAL)
         != Fold(Accumulate, (frame[..i] + Three(b) + frame[i + 3..])[1..n], INITIAL)
  {
    hide Burst, Accumulate, Pattern;
    var a := (frame[i], frame[i + 1], frame[i + 2]);
    var prefix, suffix := frame[1..i], frame[i + 3..n];
    assert frame[1..n] == prefix + Three(a) + suffix;
    assert (frame[..i] + Three(b) + frame[i + 3..])[1..n] == prefix + Three(b) + suffix;
    BurstDetected(prefix, a, b, suffix, INITIAL);
  }
}
