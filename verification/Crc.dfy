/**
The checksum of MAVLink 1: CRC-16/MCRF4XX (reflected polynomial 0x8408, initial
register 0xFFFF, no final inversion).  The firmware folds whole bytes with a few
shifts; the reference here feeds the register one bit at a time.
*/
module Crc {
  type byte = bv8
  type Step = (byte, bv16) -> bv16

  const INITIAL: bv16 := 0xFFFF

  /** `crc_accumulate` of the firmware, one definition per line of its body. */
  function Accumulate(data: byte, crc: bv16): bv16 {
    Xor(crc >> 8, Spread(Nibbles(LowByte(data, crc))))
  }

  function LowByte(data: byte, crc: bv16): byte {
    data ^ ((crc & 0xFF) as byte)
  }

  function Nibbles(tmp: byte): bv16 {
    (tmp ^ (tmp << 4)) as bv16
  }

  /** The three shifted copies of `tmp16`; the firmware adds them to `crc >> 8` one after the other. */
  function Spread(tmp16: bv16): bv16 {
    (tmp16 << 8) ^ (tmp16 << 3) ^ (tmp16 >> 4)
  }

  function Xor(a: bv16, b: bv16): bv16 {
    a ^ b
  }

  /** `crc_accumulate` of the tester, which masks Python integers (32 bits hold every intermediate value). */
  function TesterAccumulate(data: byte, crc: bv16): bv16 {
    var c := crc as bv32;
    TesterMix(c >> 8, TesterNibbles((data as bv32) ^ (c & 0xFF)))
  }

  function TesterNibbles(tmp: bv32): bv32 {
    (tmp ^ ((tmp << 4) & 0xFF)) & 0xFF
  }

  function TesterMix(high: bv32, tmp: bv32): bv16 {
    ((high ^ ((tmp << 8) ^ (tmp << 3) ^ (tmp >> 4))) & 0xFFFF) as bv16
  }

  /** Runs a byte step over a string, first byte first. */
  function Fold(step: Step, bytes: seq<byte>, crc: bv16): bv16 {
    if bytes == [] then crc else Fold(step, bytes[1..], step(bytes[0], crc))
  }

  // ---------- The bit-serial reference ----------

  /** One clock of the reflected shift register. */
  function Clock(reg: bv16): bv16 {
    if reg & 1 == 1 then (reg >> 1) ^ 0x8408 else reg >> 1
  }

  /** Feeds the `n` low bits of `data`, least significant first. */
  function FeedBits(reg: bv16, data: bv16, n: nat): bv16
    decreases n
  {
    if n == 0 then reg else FeedBits(Clock(Xor(reg, data & 1)), data >> 1, n - 1)
  }

  function FeedByte(data: byte, reg: bv16): bv16 {
    FeedBits(reg, data as bv16, 8)
  }

  function Iterate(f: bv16 -> bv16, n: nat, x: bv16): bv16
    decreases n
  {
    if n == 0 then x else Iterate(f, n - 1, f(x))
  }

  // ---------- Facts about any step ----------

  /** `f` commutes with `op`. */
  ghost predicate Homomorphic(f: bv16 -> bv16, op: (bv16, bv16) -> bv16) {
    forall a, b {:trigger f(op(a, b))} :: f(op(a, b)) == op(f(a), f(b))
  }

  ghost predicate Injective(f: bv16 -> bv16) {
    forall a, b :: f(a) == f(b) ==> a == b
  }

  lemma {:induction false} IterateHomomorphic(
      f: bv16 -> bv16, op: (bv16, bv16) -> bv16, n: nat, a: bv16, b: bv16)
    requires Homomorphic(f, op)
    ensures Iterate(f, n, op(a, b)) == op(Iterate(f, n, a), Iterate(f, n, b))
    decreases n
  {
    if n != 0 {
      IterateHomomorphic(f, op, n - 1, f(a), f(b));
    }
  }

  lemma {:induction false} IterateInjective(f: bv16 -> bv16, n: nat, a: bv16, b: bv16)
    requires Injective(f) && Iterate(f, n, a) == Iterate(f, n, b)
    ensures a == b
    decreases n
  {
    if n != 0 {
      IterateInjective(f, n - 1, f(a), f(b));
    }
  }

  lemma {:induction false} FoldCongruent(f: Step, g: Step, bytes: seq<byte>, crc: bv16)
    requires forall d, c :: f(d, c) == g(d, c)
    ensures Fold(f, bytes, crc) == Fold(g, bytes, crc)
  {
    if bytes != [] {
      FoldCongruent(f, g, bytes[1..], f(bytes[0], crc));
    }
  }

  lemma {:induction false} FoldConcat(f: Step, a: seq<byte>, b: seq<byte>, crc: bv16)
    ensures Fold(f, a + b, crc) == Fold(f, b, Fold(f, a, crc))
  {
    if a == [] {
      assert a + b == b;
    } else {
      assert (a + b)[1..] == a[1..] + b;
      FoldConcat(f, a[1..], b, f(a[0], crc));
    }
  }

  lemma FoldAppend(f: Step, s: seq<byte>, b: byte, crc: bv16)
    ensures Fold(f, s + [b], crc) == f(b, Fold(f, s, crc))
  {
    FoldConcat(f, s, [b], crc);
    assert Fold(f, [b], Fold(f, s, crc)) == Fold(f, [], f(b, Fold(f, s, crc)));
  }

  lemma {:induction false} FoldInjective(f: Step, s: seq<byte>, c: bv16, d: bv16)
    requires forall b, x, y :: f(b, x) == f(b, y) ==> x == y
    requires Fold(f, s, c) == Fold(f, s, d)
    ensures c == d
  {
    if s != [] {
      FoldInjective(f, s[1..], f(s[0], c), f(s[0], d));
    }
  }

  // ---------- Algebra of the register ----------

  lemma XorSwap(x: bv16, y: bv16, c: bv16)
    ensures (x ^ c) ^ y == (x ^ y) ^ c
  {}

  lemma XorAssoc(x: bv16, y: bv16, z: bv16)
    ensures (x ^ y) ^ z == x ^ (y ^ z)
  {}

  lemma XorCancel(x: bv16, y: bv16)
    ensures x ^ x == 0 && (x ^ y) ^ y == x
    ensures x ^ y == 0 ==> x == y
  {}

  lemma XorShift(x: bv16, y: bv16)
    ensures (x ^ y) >> 1 == (x >> 1) ^ (y >> 1)
    ensures (x ^ y) & 1 == (x & 1) ^ (y & 1)
  {}

  lemma LowBit(x: bv16)
    ensures x & 1 == 0 || x & 1 == 1
  {}

  lemma ClockXor(a: bv16, b: bv16)
    ensures Clock(a ^ b) == Clock(a) ^ Clock(b)
  {
    XorShift(a, b);
    LowBit(a);
    LowBit(b);
    var x, y := a >> 1, b >> 1;
    XorSwap(x, y, 0x8408);
    XorAssoc(x, y, 0x8408);
    XorAssoc(x ^ 0x8408, y, 0x8408);
    XorCancel(x ^ y, 0x8408);
  }

  lemma ClockLinear()
    ensures Homomorphic(Clock, Xor)
  {
    forall a, b ensures Clock(Xor(a, b)) == Xor(Clock(a), Clock(b)) {
      ClockXor(a, b);
    }
  }

  lemma ClockCancel(a: bv16, b: bv16)
    requires Clock(a) == Clock(b)
    ensures a == b
  {}

  lemma ClockInjective()
    ensures Injective(Clock)
  {
    forall a, b | Clock(a) == Clock(b) ensures a == b {
      ClockCancel(a, b);
    }
  }

  // ---------- The firmware's byte step is eight clocks ----------

  lemma LowByteClocked(t: byte)
    ensures Iterate(Clock, 8, t as bv16) == Spread(Nibbles(t))
  {
    var r := t as bv16;
    var r4 := Clock(Clock(Clock(Clock(r))));
    assert Iterate(Clock, 8, r) == Iterate(Clock, 4, r4);
    assert Iterate(Clock, 4, r4) == Clock(Clock(Clock(Clock(r4))));
  }

  lemma HighByteClocked(x: bv16)
    ensures Iterate(Clock, 8, x & 0xFF00) == x >> 8
  {
    var r := x & 0xFF00;
    var r4 := Clock(Clock(Clock(Clock(r))));
    assert Iterate(Clock, 8, r) == Iterate(Clock, 4, r4);
    assert Iterate(Clock, 4, r4) == Clock(Clock(Clock(Clock(r4))));
  }

  lemma SplitRegister(data: byte, crc: bv16)
    ensures Xor(crc, data as bv16) == Xor(crc & 0xFF00, LowByte(data, crc) as bv16)
  {}

  lemma AccumulateIsEightClocks(data: byte, crc: bv16)
    ensures Accumulate(data, crc) == Iterate(Clock, 8, Xor(crc, data as bv16))
  {
    hide Iterate, Clock, Xor, Spread, Nibbles, LowByte;
    var high, low := crc & 0xFF00, LowByte(data, crc);
    SplitRegister(data, crc);
    ClockLinear();
    IterateHomomorphic(Clock, Xor, 8, high, low as bv16);
    LowByteClocked(low);
    HighByteClocked(crc);
  }

  lemma ClockEven(reg: bv16, data: bv16)
    ensures Xor(reg, data) == Xor(Xor(reg, data & 1), data & 0xFFFE)
    ensures Clock(data & 0xFFFE) == data >> 1
  {}

  lemma ClockPeelsBit(reg: bv16, data: bv16)
    ensures Clock(Xor(reg, data)) == Xor(Clock(Xor(reg, data & 1)), data >> 1)
  {
    ClockEven(reg, data);
    ClockLinear();
    assert Clock(Xor(Xor(reg, data & 1), data & 0xFFFE)) == Xor(Clock(Xor(reg, data & 1)), Clock(data & 0xFFFE));
  }

  /** Feeding a byte bit by bit is the same as eight clocks with the byte added up front. */
  lemma FeedByteIsEightClocks(data: byte, reg: bv16)
    ensures FeedByte(data, reg) == Iterate(Clock, 8, Xor(reg, data as bv16))
  {
    hide FeedBits, Iterate, Shifted, Clock, Xor;
    ByteShiftedOut(data);
    FeedBitsWhole(reg, data as bv16, 8);
  }

  lemma ByteShiftedOut(data: byte)
    ensures Shifted(data as bv16, 8) == 0
  {
    hide Clock, Xor;
  }

  lemma FeedBitsWhole(reg: bv16, data: bv16, n: nat)
    requires Shifted(data, n) == 0
    ensures FeedBits(reg, data, n) == Iterate(Clock, n, Xor(reg, data))
  {
    hide FeedBits, Iterate, Shifted, Clock, Xor;
    FeedBitsPeel(reg, data, n);
    XorZero(FeedBits(reg, data, n));
  }

  /** The low `n` bits leave the shift register; what is left of the data stays added in. */
  lemma {:induction false} FeedBitsPeel(reg: bv16, data: bv16, n: nat)
    ensures Iterate(Clock, n, Xor(reg, data)) == Xor(FeedBits(reg, data, n), Shifted(data, n))
    decreases n
  {
    if n != 0 {
      ClockPeelsBit(reg, data);
      FeedBitsPeel(Clock(Xor(reg, data & 1)), data >> 1, n - 1);
    }
  }

  function Shifted(data: bv16, n: nat): bv16
    decreases n
  {
    if n == 0 then data else Shifted(data >> 1, n - 1)
  }

  lemma XorZero(x: bv16)
    ensures Xor(x, 0) == x && Xor(0, x) == x && Xor(x, x) == 0
  {}

  lemma AccumulateIsFeedByte()
    ensures forall data, crc {:trigger Accumulate(data, crc)} :: Accumulate(data, crc) == FeedByte(data, crc)
  {
    forall data, crc ensures Accumulate(data, crc) == FeedByte(data, crc) {
      AccumulateIsEightClocks(data, crc);
      FeedByteIsEightClocks(data, crc);
    }
  }

  /** The firmware checksum of any byte string is the bit-at-a-time CRC-16/MCRF4XX. */
  lemma FoldIsBitSerial(bytes: seq<byte>, crc: bv16)
    ensures Fold(Accumulate, bytes, crc) == Fold(FeedByte, bytes, crc)
  {
    AccumulateIsFeedByte();
    FoldCongruent(Accumulate, FeedByte, bytes, crc);
  }

  /** The tester's step, computed on unbounded integers with masks, is the firmware's. */
  lemma TesterAccumulateAgrees(data: byte, crc: bv16)
    ensures TesterAccumulate(data, crc) == Accumulate(data, crc)
  {
    TesterPieces(crc, LowByte(data, crc));
    assert (data as bv32) ^ (crc as bv32 & 0xFF) == LowByte(data, crc) as bv32;
  }

  lemma TesterPieces(crc: bv16, low: byte)
    ensures TesterNibbles(low as bv32) == Nibbles(low) as bv32
    ensures TesterMix(crc as bv32 >> 8, Nibbles(low) as bv32) == Xor(crc >> 8, Spread(Nibbles(low)))
  {}

  lemma TesterFoldAgrees(bytes: seq<byte>, crc: bv16)
    ensures Fold(TesterAccumulate, bytes, crc) == Fold(Accumulate, bytes, crc)
  {
    forall d, c ensures TesterAccumulate(d, c) == Accumulate(d, c) {
      TesterAccumulateAgrees(d, c);
    }
    FoldCongruent(TesterAccumulate, Accumulate, bytes, crc);
  }

  // ---------- Error detection ----------

  lemma XorInjective(x: bv16, y: bv16, z: bv16)
    ensures Xor(x, z) == Xor(y, z) ==> x == y
    ensures Xor(z, x) == Xor(z, y) ==> x == y
  {}

  lemma AccumulateInjectiveInRegister()
    ensures forall b, x, y {:trigger Accumulate(b, x), Accumulate(b, y)} ::
              Accumulate(b, x) == Accumulate(b, y) ==> x == y
  {
    ClockInjective();
    forall b, x, y | Accumulate(b, x) == Accumulate(b, y) ensures x == y {
      AccumulateIsEightClocks(b, x);
      AccumulateIsEightClocks(b, y);
      IterateInjective(Clock, 8, Xor(x, b as bv16), Xor(y, b as bv16));
      XorInjective(x, y, b as bv16);
    }
  }

  lemma AccumulateInjectiveInData(a: byte, b: byte, reg: bv16)
    requires a != b
    ensures Accumulate(a, reg) != Accumulate(b, reg)
  {
    AccumulateIsEightClocks(a, reg);
    AccumulateIsEightClocks(b, reg);
    Widen(a, b);
    ClockedApart(reg, a as bv16, b as bv16);
  }

  lemma Widen(a: byte, b: byte)
    ensures a as bv16 == b as bv16 ==> a == b
  {}

  lemma ClockedApart(reg: bv16, a: bv16, b: bv16)
    requires a != b
    ensures Iterate(Clock, 8, Xor(reg, a)) != Iterate(Clock, 8, Xor(reg, b))
  {
    if Iterate(Clock, 8, Xor(reg, a)) == Iterate(Clock, 8, Xor(reg, b)) {
      ClockInjective();
      IterateInjective(Clock, 8, Xor(reg, a), Xor(reg, b));
      XorInjective(a, b, reg);
    }
  }

  lemma SuffixPreservesDifference(suffix: seq<byte>, c: bv16, d: bv16)
    requires c != d
    ensures Fold(Accumulate, suffix, c) != Fold(Accumulate, suffix, d)
  {
    if Fold(Accumulate, suffix, c) == Fold(Accumulate, suffix, d) {
      AccumulateInjectiveInRegister();
      FoldInjective(Accumulate, suffix, c, d);
    }
  }

  lemma FoldParts(prefix: seq<byte>, middle: seq<byte>, suffix: seq<byte>, crc: bv16)
    ensures Fold(Accumulate, prefix + middle + suffix, crc)
         == Fold(Accumulate, suffix, Fold(Accumulate, middle, Fold(Accumulate, prefix, crc)))
  {
    FoldConcat(Accumulate, prefix + middle, suffix, crc);
    FoldConcat(Accumulate, prefix, middle, crc);
  }

  /** One altered byte, anywhere in a string of any length, alters the checksum. */
  lemma ByteErrorDetected(prefix: seq<byte>, a: byte, b: byte, suffix: seq<byte>, crc: bv16)
    requires a != b
    ensures Fold(Accumulate, prefix + [a] + suffix, crc) != Fold(Accumulate, prefix + [b] + suffix, crc)
  {
    var r := Fold(Accumulate, prefix, crc);
    FoldParts(prefix, [a], suffix, crc);
    FoldParts(prefix, [b], suffix, crc);
    AccumulateInjectiveInData(a, b, r);
    SuffixPreservesDifference(suffix, Accumulate(a, r), Accumulate(b, r));
  }

  function Clock8(reg: bv16): bv16 {
    Iterate(Clock, 8, reg)
  }

  lemma XorAssociative(x: bv16, y: bv16, z: bv16)
    ensures Xor(Xor(x, y), z) == Xor(x, Xor(y, z))
  {}

  lemma XorExchange(x: bv16, y: bv16, z: bv16)
    ensures Xor(Xor(x, y), z) == Xor(Xor(x, z), y)
  {}

  lemma Regroup(op: (bv16, bv16) -> bv16, p: bv16, q: bv16, a: bv16, b: bv16)
    requires op(op(op(p, a), q), b) == op(op(p, a), op(q, b))
    requires op(op(p, a), q) == op(op(p, q), a)
    requires op(op(op(p, q), a), b) == op(op(p, q), op(a, b))
    ensures op(op(p, a), op(q, b)) == op(op(p, q), op(a, b))
  {}

  lemma XorRegroup(p: bv16, q: bv16, a: bv16, b: bv16)
    ensures Xor(Xor(p, a), Xor(q, b)) == Xor(Xor(p, q), Xor(a, b))
  {
    XorAssociative(Xor(p, a), q, b);
    XorExchange(p, a, q);
    XorAssociative(Xor(p, q), a, b);
    Regroup(Xor, p, q, a, b);
  }

  function XorBytes(a: byte, b: byte): bv16 {
    (a ^ b) as bv16
  }

  /** The next difference of two registers, from their difference and that of the bytes fed to them. */
  function NextDifference(d: bv16, e: bv16): bv16 {
    Clock8(Xor(d, e))
  }

  lemma DifferenceStep(a: byte, b: byte, p: bv16, q: bv16)
    ensures Xor(Accumulate(a, p), Accumulate(b, q)) == NextDifference(Xor(p, q), XorBytes(a, b))
  {
    hide Accumulate, Iterate, Clock;
    AccumulateIsEightClocks(a, p);
    AccumulateIsEightClocks(b, q);
    ClockLinear();
    IterateHomomorphic(Clock, Xor, 8, Xor(p, a as bv16), Xor(q, b as bv16));
    XorRegroup(p, q, a as bv16, b as bv16);
    assert Xor(a as bv16, b as bv16) == XorBytes(a, b);
  }

  // ---------- The preset ----------

  /** The string with its first two bytes complemented. */
  function ComplementStart(s: seq<byte>): (r: seq<byte>)
    requires |s| >= 2
    ensures |r| == |s|
  {
    [!s[0], !s[1]] + s[2..]
  }

  lemma XorComplement(a: byte)
    ensures XorBytes(a, !a) == 0xFF
  {}

  lemma PresetClocks()
    ensures NextDifference(NextDifference(Xor(INITIAL, 0), 0xFF), 0xFF) == 0
  {
    HighByteClocked(0xFF00);
    assert Xor(Xor(INITIAL, 0), 0xFF) == 0xFF00 == 0xFF00 & 0xFF00;
    ZeroStays();
  }

  lemma PresetTwo(a: byte, b: byte)
    ensures Accumulate(b, Accumulate(a, INITIAL)) == Accumulate(!b, Accumulate(!a, 0))
  {
    hide Accumulate, NextDifference, Xor;
    DifferenceStep(a, !a, INITIAL, 0);
    DifferenceStep(b, !b, Accumulate(a, INITIAL), Accumulate(!a, 0));
    XorComplement(a);
    XorComplement(b);
    PresetClocks();
    SameWhenNoDifference(Accumulate(b, Accumulate(a, INITIAL)), Accumulate(!b, Accumulate(!a, 0)));
  }

  lemma SameWhenNoDifference(x: bv16, y: bv16)
    ensures Xor(x, y) == 0 ==> x == y
  {}

  lemma FoldTwo(f: Step, a: byte, b: byte, rest: seq<byte>, r: bv16)
    ensures Fold(f, [a, b] + rest, r) == Fold(f, rest, f(b, f(a, r)))
  {
    FoldConcat(f, [a], [b] + rest, r);
    FoldConcat(f, [b], rest, f(a, r));
    assert [a] + ([b] + rest) == [a, b] + rest;
    FoldAppend(f, [], a, r);
    FoldAppend(f, [], b, f(a, r));
    assert [] + [a] == [a] && [] + [b] == [b];
  }

  /**
  What the preset of the register does: over any string of two bytes or more the checksum is the
  bit-serial one, from a register of zero, of the string with its first two bytes complemented.
  */
  lemma PresetComplements(s: seq<byte>)
    requires |s| >= 2
    ensures Fold(Accumulate, s, INITIAL) == Fold(FeedByte, ComplementStart(s), 0)
  {
    hide Accumulate, FeedByte, Fold;
    var rest := s[2..];
    assert s == [s[0], s[1]] + rest;
    FoldTwo(Accumulate, s[0], s[1], rest, INITIAL);
    FoldTwo(Accumulate, !s[0], !s[1], rest, 0);
    PresetTwo(s[0], s[1]);
    FoldIsBitSerial(ComplementStart(s), 0);
  }

  function Three(a: (byte, byte, byte)): seq<byte> {
    [a.0, a.1, a.2]
  }

  lemma FoldThree(f: Step, a: (byte, byte, byte), r: bv16)
    ensures Fold(f, Three(a), r) == f(a.2, f(a.1, f(a.0, r)))
  {
    assert Three(a)[1..] == [a.1, a.2] && [a.1, a.2][1..] == [a.2] && [a.2][1..] == [];
    assert Fold(f, Three(a), r) == Fold(f, [a.1, a.2], f(a.0, r));
    assert Fold(f, [a.1, a.2], f(a.0, r)) == Fold(f, [a.2], f(a.1, f(a.0, r)));
    assert Fold(f, [a.2], f(a.1, f(a.0, r))) == Fold(f, [], f(a.2, f(a.1, f(a.0, r))));
  }

  /** Three steps of a step function whose differences evolve by `next`. */
  lemma ThreeDifferences(
      f: Step, op: (bv16, bv16) -> bv16, next: (bv16, bv16) -> bv16,
      a: (byte, byte, byte), b: (byte, byte, byte), r: bv16, d0: bv16, d1: bv16, d2: bv16)
    requires op(f(a.0, r), f(b.0, r)) == next(op(r, r), d0)
    requires op(f(a.1, f(a.0, r)), f(b.1, f(b.0, r))) == next(op(f(a.0, r), f(b.0, r)), d1)
    requires op(f(a.2, f(a.1, f(a.0, r))), f(b.2, f(b.1, f(b.0, r))))
          == next(op(f(a.1, f(a.0, r)), f(b.1, f(b.0, r))), d2)
    ensures op(Fold(f, Three(a), r), Fold(f, Three(b), r)) == next(next(next(op(r, r), d0), d1), d2)
  {
    FoldThree(f, a, r);
    FoldThree(f, b, r);
  }

  lemma ThreeXorDifferences(a: (byte, byte, byte), b: (byte, byte, byte), r: bv16)
    ensures Xor(Fold(Accumulate, Three(a), r), Fold(Accumulate, Three(b), r))
         == NextDifference(
              NextDifference(NextDifference(Xor(r, r), XorBytes(a.0, b.0)), XorBytes(a.1, b.1)), XorBytes(a.2, b.2))
  {
    var p, q := Accumulate(a.0, r), Accumulate(b.0, r);
    DifferenceStep(a.0, b.0, r, r);
    DifferenceStep(a.1, b.1, p, q);
    DifferenceStep(a.2, b.2, Accumulate(a.1, p), Accumulate(b.1, q));
    ThreeDifferences(
      Accumulate, Xor, NextDifference, a, b, r, XorBytes(a.0, b.0), XorBytes(a.1, b.1), XorBytes(a.2, b.2));
  }

  /** The error pattern of three neighbouring bytes, in transmission order (least significant bit first). */
  function Pattern(a: (byte, byte, byte), b: (byte, byte, byte)): bv32 {
    (XorBytes(a.0, b.0) as bv32) | (XorBytes(a.1, b.1) as bv32 << 8) | (XorBytes(a.2, b.2) as bv32 << 16)
  }

  /** A burst: the bytes differ, and all differing bits lie within 16 consecutive transmitted bits. */
  ghost predicate Burst(a: (byte, byte, byte), b: (byte, byte, byte)) {
    exists x: bv32, k: bv32 {:trigger x << k} :: 0 < x < 0x10000 && k <= 8 && Pattern(a, b) == x << k
  }

  lemma PatternBytes(a: (byte, byte, byte), b: (byte, byte, byte))
    ensures (Pattern(a, b) & 0xFF) as bv16 == XorBytes(a.0, b.0)
    ensures ((Pattern(a, b) >> 8) & 0xFF) as bv16 == XorBytes(a.1, b.1)
    ensures ((Pattern(a, b) >> 16) & 0xFF) as bv16 == XorBytes(a.2, b.2)
  {}

  /** Two bytes of a pattern of at most 16 consecutive bits never cancel against the third. */
  lemma PatternNotCancelled(d0: bv16, d1: bv16, d2: bv16, x: bv32, k: bv32)
    requires 0 < x < 0x10000 && k <= 8
    requires d0 == ((x << k) & 0xFF) as bv16 && d1 == (((x << k) >> 8) & 0xFF) as bv16
    requires d2 == (((x << k) >> 16) & 0xFF) as bv16
    ensures Clock8(Xor(Clock8(d0), d1)) != d2
  {}

  lemma ClockedNonZero(x: bv16)
    requires x != 0
    ensures Clock8(x) != 0
  {
    hide Clock;
    ClockInjective();
    ZeroStays();
    if Clock8(x) == 0 {
      IterateInjective(Clock, 8, x, 0);
    }
  }

  lemma ZeroStays()
    ensures Iterate(Clock, 8, 0) == 0
  {}

  /** The register never forgets a non-zero pattern of at most 16 consecutive bits. */
  lemma SyndromeNonZero(d0: bv16, d1: bv16, d2: bv16, x: bv32, k: bv32)
    requires 0 < x < 0x10000 && k <= 8
    requires d0 == ((x << k) & 0xFF) as bv16 && d1 == (((x << k) >> 8) & 0xFF) as bv16
    requires d2 == (((x << k) >> 16) & 0xFF) as bv16
    ensures NextDifference(NextDifference(NextDifference(0, d0), d1), d2) != 0
  {
    hide Clock8;
    PatternNotCancelled(d0, d1, d2, x, k);
    XorZero(d0);
    var r := Clock8(Xor(Clock8(d0), d1));
    XorDiffers(r, d2);
    ClockedNonZero(Xor(r, d2));
  }

  lemma XorDiffers(a: bv16, b: bv16)
    requires a != b
    ensures Xor(a, b) != 0
  {}

  lemma BurstApart(a: (byte, byte, byte), b: (byte, byte, byte), r: bv16)
    requires Burst(a, b)
    ensures Fold(Accumulate, Three(a), r) != Fold(Accumulate, Three(b), r)
  {
    ThreeXorDifferences(a, b, r);
    XorZero(r);
    XorZero(Fold(Accumulate, Three(a), r));
    var x: bv32, k: bv32 :| 0 < x < 0x10000 && k <= 8 && Pattern(a, b) == x << k;
    PatternBytes(a, b);
    SyndromeNonZero(XorBytes(a.0, b.0), XorBytes(a.1, b.1), XorBytes(a.2, b.2), x, k);
  }

  /** Every burst of at most 16 bits alters the checksum, whatever surrounds it. */
  lemma BurstDetected(
      prefix: seq<byte>, a: (byte, byte, byte), b: (byte, byte, byte), suffix: seq<byte>, crc: bv16)
    requires Burst(a, b)
    ensures Fold(Accumulate, prefix + Three(a) + suffix, crc) != Fold(Accumulate, prefix + Three(b) + suffix, crc)
  {
    var r := Fold(Accumulate, prefix, crc);
    FoldParts(prefix, Three(a), suffix, crc);
    FoldParts(prefix, Three(b), suffix, crc);
    BurstApart(a, b, r);
    SuffixPreservesDifference(suffix, Fold(Accumulate, Three(a), r), Fold(Accumulate, Three(b), r));
  }
}
