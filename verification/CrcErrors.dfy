/**
 Error detection by the checksum. The byte-wise register is shown equal to a bit-serial one, which gives the
 two classical guarantees at bit granularity: every burst of up to 16 bits and every odd number of flipped
 bits leaves a nonzero residue.
 */
module CrcErrors {
  import opened Basics
  import opened Crc16

  // ------------------------------------------------------------------ the same register, bit by bit

  type Bits = seq<bool>

  /** Bit `i` of a byte, most significant first: the order in which bits enter the register. */
  predicate Bit(b: bv8, i: nat)
    decreases i
  {
    if i == 0 then b & 0x80 != 0 else Bit(b << 1, i - 1)
  }

  function BitsOf(s: Bytes): (r: Bits)
    ensures |r| == 8 * |s| && forall i :: 0 <= i < 8 * |s| ==> r[i] == Bit(s[i / 8], i % 8)
  {
    seq(8 * |s|, i requires 0 <= i < 8 * |s| => Bit(s[i / 8], i % 8))
  }

  function AtTop(bit: bool): bv16 { if bit then TOP_BIT else 0 }

  function FoldBits(crc: bv16, bits: Bits): bv16 {
    if bits == [] then crc else AdvanceBit(Add(FoldBits(crc, bits[..|bits| - 1]), AtTop(bits[|bits| - 1])))
  }

  function Shifted(x: bv16, n: nat): bv16 { if n == 0 then x else Double(Shifted(x, n - 1)) }

  lemma {:induction false} ShiftedDouble(x: bv16, n: nat)
    ensures Shifted(Double(x), n) == Shifted(x, n + 1)
  {
    hide Double;
    if n > 0 { ShiftedDouble(x, n - 1); }
  }

  lemma PlacedDoubles(b: bv8)
    ensures Double(Placed(b)) == Placed(b << 1) && (TopSet(Placed(b)) <==> b & 0x80 != 0)
  {
  }

  lemma {:induction false} BitReachesTop(b: bv8, i: nat)
    ensures Bit(b, i) <==> TopSet(Shifted(Placed(b), i))
    decreases i
  {
    hide Double, TopSet, Placed;
    PlacedDoubles(b);
    if i > 0 {
      BitReachesTop(b << 1, i - 1);
      ShiftedDouble(Placed(b), i - 1);
    }
  }

  function Ones(n: nat): bv16 { if n == 0 then 0 else (Ones(n - 1) << 1) | 1 }

  lemma ShiftClears(x: bv16, m: bv16)
    requires x & m == 0
    ensures Double(x) & ((m << 1) | 1) == 0
  {
  }

  /** Shifting fills the register with zeros from below. */
  lemma {:induction false} ShiftsOut(x: bv16, k: nat, n: nat)
    requires x & Ones(k) == 0
    ensures Shifted(x, n) & Ones(k + n) == 0
  {
    hide Double;
    if n > 0 {
      ShiftsOut(x, k, n - 1);
      ShiftClears(Shifted(x, n - 1), Ones(k + n - 1));
    }
  }

  lemma OnesTable()
    ensures Ones(0) == 0 && Ones(8) == 0xFF && Ones(16) == 0xFFFF
  {
    assert Ones(4) == 0xF;
    assert Ones(12) == 0xFFF;
  }

  lemma PlacedEndsInZeros(b: bv8)
    ensures Placed(b) & 0xFF == 0
  {
  }

  lemma AllClear(x: bv16)
    requires x & 0xFFFF == 0
    ensures x == 0
  {
  }

  lemma ByteShiftsOut(b: bv8)
    ensures Shifted(Placed(b), 8) == 0
  {
    hide Placed, Shifted, Ones;
    PlacedEndsInZeros(b);
    OnesTable();
    ShiftsOut(Placed(b), 8, 8);
    AllClear(Shifted(Placed(b), 8));
  }

  lemma SplitAtTop(y: bv16)
    ensures (y & 0x8000) ^ (y & 0x7FFF) == y
  {
  }

  lemma TopAlone(y: bv16)
    ensures AtTop(TopSet(y)) == y & 0x8000
  {
  }

  lemma TopAndRest(y: bv16)
    ensures y == Add(AtTop(TopSet(y)), y & 0x7FFF)
  {
    hide Add, TopSet, AtTop;
    TopAlone(y);
    AddIsXor(y & 0x8000, y & 0x7FFF);
    SplitAtTop(y);
  }

  lemma RestDoubles(y: bv16)
    ensures AdvanceBit(y & 0x7FFF) == Double(y)
  {
  }

  /** Only the top bit of an operand matters to a step; the rest of it is shifted along. */
  lemma TopBitEnters(r: bv16, y: bv16)
    ensures AdvanceBit(Add(r, y)) == Add(AdvanceBit(Add(r, AtTop(TopSet(y)))), Double(y))
  {
    hide AdvanceBit, Add, AtTop, TopSet, Double;
    var rest := y & 0x7FFF;
    TopAndRest(y);
    RestDoubles(y);
    AddIsAssociative(r, AtTop(TopSet(y)), rest);
    AdvanceBitIsLinear(Add(r, AtTop(TopSet(y))), rest);
  }

  lemma {:induction false} FoldByteBits(crc: bv16, b: bv8, bits: Bits, n: nat)
    requires n <= 8 <= |bits| && forall i :: 0 <= i < 8 ==> bits[i] == Bit(b, i)
    ensures Advance(Add(crc, Placed(b)), n) == Add(FoldBits(crc, bits[..n]), Shifted(Placed(b), n))
  {
    hide AdvanceBit, Add, Placed, AtTop, Bit, Double, TopSet;
    if n > 0 {
      FoldByteBits(crc, b, bits, n - 1);
      assert bits[..n][..n - 1] == bits[..n - 1];
      BitReachesTop(b, n - 1);
      TopBitEnters(FoldBits(crc, bits[..n - 1]), Shifted(Placed(b), n - 1));
    }
  }

  lemma {:induction false} FoldBitsAppends(crc: bv16, s: Bits, t: Bits)
    ensures FoldBits(crc, s + t) == FoldBits(FoldBits(crc, s), t)
  {
    hide AdvanceBit, Add, AtTop;
    if t == [] {
      assert s + t == s;
    } else {
      FoldBitsAppends(crc, s, t[..|t| - 1]);
      assert (s + t)[..|s + t| - 1] == s + t[..|t| - 1];
    }
  }

  lemma ByteIsBitSerial(crc: bv16, b: bv8)
    ensures FoldByte(crc, b) == FoldBits(crc, BitsOf([b]))
  {
    hide FoldBits, Add, Advance, Bit, Shifted, Placed;
    var bits := BitsOf([b]);
    FoldByteBits(crc, b, bits, 8);
    assert bits[..8] == bits;
    ByteShiftsOut(b);
    AddZero(FoldBits(crc, bits));
  }

  lemma BitsOfSnoc(s: Bytes, b: bv8)
    ensures BitsOf(s + [b]) == BitsOf(s) + BitsOf([b])
  {
    hide Bit;
  }

  /** The byte-wise register is the bit-serial one. */
  lemma {:induction false} FoldIsBitSerial(crc: bv16, s: Bytes)
    ensures Fold(crc, s) == FoldBits(crc, BitsOf(s))
  {
    hide FoldByte, AdvanceBit, Add, BitsOf;
    if s != [] {
      var n := |s| - 1;
      FoldIsBitSerial(crc, s[..n]);
      assert s == s[..n] + [s[n]];
      BitsOfSnoc(s[..n], s[n]);
      FoldBitsAppends(crc, BitsOf(s[..n]), BitsOf([s[n]]));
      ByteIsBitSerial(Fold(crc, s[..n]), s[n]);
    } else {
      assert BitsOf(s) == [];
    }
  }

  // ------------------------------------------------------------------ what an error pattern leaves behind

  /** The register an error pattern leaves when it is folded on its own. */
  function Residue(e: Bytes): bv16 { Fold(0, e) }

  function Silence(n: nat): (r: Bits)
    ensures |r| == n && forall k :: 0 <= k < n ==> !r[k]
  {
    seq(n, _ => false)
  }

  lemma {:induction false} SilenceAdvances(crc: bv16, n: nat)
    ensures FoldBits(crc, Silence(n)) == Advance(crc, n)
  {
    hide AdvanceBit, Add;
    if n > 0 {
      assert Silence(n)[..n - 1] == Silence(n - 1);
      SilenceAdvances(crc, n - 1);
      AddZero(Advance(crc, n - 1));
    }
  }

  /** One burst: at least one bit set, and every set bit within 16 consecutive ones starting at `first`. */
  ghost predicate IsBurst(bits: Bits, first: nat) {
    && first < |bits| && bits[first]
    && forall k :: 0 <= k < |bits| && bits[k] ==> first <= k < first + 16
  }

  /** The registers from which `k` further bits might still reach zero have their low `16 - k` bits clear. */
  function LowMask(k: nat): bv16 { if k == 0 then 0xFFFF else LowMask(k - 1) >> 1 }

  lemma LowMaskHasBitZero(k: nat)
    requires k < 16
    ensures LowMask(k) & 1 != 0
  {
    assert LowMask(1) == 0x7FFF && LowMask(2) == 0x3FFF && LowMask(3) == 0x1FFF && LowMask(4) == 0x0FFF;
    assert LowMask(5) == 0x07FF && LowMask(6) == 0x03FF && LowMask(7) == 0x01FF && LowMask(8) == 0x00FF;
    assert LowMask(9) == 0x7F && LowMask(10) == 0x3F && LowMask(11) == 0x1F && LowMask(12) == 0x0F;
    assert LowMask(13) == 0x07 && LowMask(14) == 0x03 && LowMask(15) == 0x01;
  }

  lemma StepBackFromZero(r: bv16, bit: bool, mask: bv16)
    requires mask & 1 != 0 && AdvanceBit(Add(r, AtTop(bit))) & mask == 0
    ensures r & (mask >> 1) == 0
  {
  }

  lemma {:induction false} FewBitsReachZero(crc: bv16, bits: Bits)
    requires |bits| < 16 && FoldBits(crc, bits) == 0
    ensures crc & LowMask(|bits|) == 0
    decreases |bits|
  {
    hide AdvanceBit, Add, AtTop;
    if bits != [] {
      var rest := bits[1..];
      FoldBitsAppends(crc, bits[..1], rest);
      assert bits == bits[..1] + rest && bits[..1][..0] == [];
      FewBitsReachZero(FoldBits(crc, bits[..1]), rest);
      LowMaskHasBitZero(|rest|);
      StepBackFromZero(crc, bits[0], LowMask(|rest|));
    }
  }

  lemma StepFromTop()
    ensures AdvanceBit(Add(0, AtTop(true))) & 1 != 0
  {
  }

  lemma NoRegisterSurvivesFewBits(crc: bv16, n: nat)
    requires n < 16 && crc & 1 != 0
    ensures crc & LowMask(n) != 0
  {
    LowMaskHasBitZero(n);
    assert crc & 1 & LowMask(n) & 1 == 1;
  }

  /** The first set bit of a pattern leaves the generator, whose low bit is set, in the register. */
  lemma FirstSetBit(bits: Bits, first: nat)
    requires first < |bits| && bits[first] && forall k :: 0 <= k < first ==> !bits[k]
    ensures FoldBits(0, bits[..first + 1]) & 1 != 0
  {
    hide AdvanceBit, Add, AtTop, Advance;
    assert bits[..first + 1][..first] == bits[..first] == Silence(first);
    SilenceAdvances(0, first);
    AdvanceKeepsNonzero(0, first);
    StepFromTop();
  }

  lemma FewBitsKeepOddRegister(crc: bv16, bits: Bits)
    requires |bits| < 16 && crc & 1 != 0
    ensures FoldBits(crc, bits) != 0
  {
    hide FoldBits, LowMask;
    if FoldBits(crc, bits) == 0 {
      FewBitsReachZero(crc, bits);
      NoRegisterSurvivesFewBits(crc, |bits|);
    }
  }

  lemma SilenceKeepsNonzero(crc: bv16, bits: Bits)
    requires forall k :: 0 <= k < |bits| ==> !bits[k]
    ensures FoldBits(crc, bits) == 0 <==> crc == 0
  {
    hide FoldBits, Advance;
    assert bits == Silence(|bits|);
    SilenceAdvances(crc, |bits|);
    AdvanceKeepsNonzero(crc, |bits|);
  }

  /** No burst of up to 16 bits has residue zero, wherever it falls and however long the message is. */
  lemma BurstLeavesResidue(e: Bytes, first: nat)
    requires IsBurst(BitsOf(e), first)
    ensures Residue(e) != 0
  {
    hide FoldBits, Fold, Bit;
    var bits := BitsOf(e);
    FoldIsBitSerial(0, e);
    var last := if first + 16 < |bits| then first + 16 else |bits|;
    var head, body, tail := bits[..first + 1], bits[first + 1..last], bits[last..];
    assert bits == head + (body + tail);
    FirstSetBit(bits, first);
    FoldBitsAppends(0, head, body + tail);
    FoldBitsAppends(FoldBits(0, head), body, tail);
    FewBitsKeepOddRegister(FoldBits(0, head), body);
    SilenceKeepsNonzero(FoldBits(FoldBits(0, head), body), tail);
  }

  // ------------------------------------------------------------------ parity

  /** Whether an odd number of the top `n` bits is set. */
  predicate OddTop(x: bv16, n: nat) { n > 0 && OddTop(x, n - 1) != TopSet(Shifted(x, n - 1)) }

  predicate OddWord(x: bv16) { OddTop(x, 16) }

  predicate OddBits(bits: Bits) { Count(bits, b => b) % 2 == 1 }

  lemma {:induction false} ShiftedSum(x: bv16, y: bv16, n: nat)
    ensures Shifted(Add(x, y), n) == Add(Shifted(x, n), Shifted(y, n))
  {
    hide Add, Double;
    if n > 0 {
      ShiftedSum(x, y, n - 1);
      DoubleIsLinear(Shifted(x, n - 1), Shifted(y, n - 1));
    }
  }

  lemma {:induction false} ParityOfSum(x: bv16, y: bv16, n: nat)
    ensures OddTop(Add(x, y), n) <==> OddTop(x, n) != OddTop(y, n)
  {
    hide Add, Double, TopSet, Shifted;
    if n > 0 {
      ParityOfSum(x, y, n - 1);
      ShiftedSum(x, y, n - 1);
      TopOfSum(Shifted(x, n - 1), Shifted(y, n - 1));
    }
  }

  lemma {:induction false} ParityAfterFirst(x: bv16, n: nat)
    ensures OddTop(x, n + 1) <==> TopSet(x) != OddTop(Double(x), n)
  {
    hide Double, TopSet;
    if n > 0 {
      ParityAfterFirst(x, n - 1);
      ShiftedDouble(x, n - 1);
    }
  }

  lemma ParityOfDouble(x: bv16)
    ensures OddWord(Double(x)) <==> OddWord(x) != TopSet(x)
  {
    hide Double, TopSet, Shifted, Ones;
    ParityAfterFirst(x, 15);
    assert OddTop(Double(x), 16) <==> OddTop(Double(x), 15) != TopSet(Shifted(Double(x), 15));
    ShiftedDouble(x, 15);
    OnesTable();
    ShiftsOut(x, 0, 16);
    AllClear(Shifted(x, 16));
    TopOfZero();
  }

  lemma TopOfZero()
    ensures !TopSet(0)
  {
  }

  lemma ParityOfZero(n: nat)
    ensures !OddTop(0, n) && Shifted(0, n) == 0
  {
    if n > 0 { ParityOfZero(n - 1); }
  }

  lemma ParityOfTop()
    ensures OddWord(TOP_BIT)
  {
    ParityAfterFirst(TOP_BIT, 15);
    ParityOfZero(15);
    assert Double(TOP_BIT) == 0;
  }

  lemma ParityOfPolynomial()
    ensures OddWord(POLYNOMIAL)
  {
    var p := POLYNOMIAL;
    assert Shifted(p, 1) == 0x2042 && Shifted(p, 2) == 0x4084 && Shifted(p, 3) == 0x8108 && Shifted(p, 4) == 0x0210;
    assert OddTop(p, 4);
    assert Shifted(p, 5) == 0x0420 && Shifted(p, 6) == 0x0840 && Shifted(p, 7) == 0x1080 && Shifted(p, 8) == 0x2100;
    assert OddTop(p, 8);
    assert Shifted(p, 9) == 0x4200 && Shifted(p, 10) == 0x8400 && Shifted(p, 11) == 0x0800 && Shifted(p, 12) == 0x1000;
    assert !OddTop(p, 12);
    assert Shifted(p, 13) == 0x2000 && Shifted(p, 14) == 0x4000 && Shifted(p, 15) == 0x8000;
  }

  lemma AdvanceKeepsParity(x: bv16)
    ensures OddWord(AdvanceBit(x)) <==> OddWord(x)
  {
    hide AdvanceBit, Double, TopSet, OddTop, Add;
    AdvanceBitIsDoubleWithFeedback(x);
    ParityOfDouble(x);
    ParityOfSum(Double(x), Feedback(TopSet(x)), 16);
    ParityOfPolynomial();
    ParityOfZero(16);
  }

  lemma TopBitFlipsParity(x: bv16, bit: bool)
    ensures OddWord(Add(x, AtTop(bit))) <==> OddWord(x) != bit
  {
    hide OddTop, Add;
    ParityOfSum(x, AtTop(bit), 16);
    ParityOfTop();
    ParityOfZero(16);
  }

  lemma {:induction false} FoldBitsKeepsParity(crc: bv16, bits: Bits)
    ensures OddWord(FoldBits(crc, bits)) <==> OddWord(crc) != OddBits(bits)
  {
    hide AdvanceBit, Add, AtTop, OddWord;
    if bits != [] {
      FoldBitsKeepsParity(crc, bits[..|bits| - 1]);
      var r, last := FoldBits(crc, bits[..|bits| - 1]), bits[|bits| - 1];
      TopBitFlipsParity(r, last);
      AdvanceKeepsParity(Add(r, AtTop(last)));
    }
  }

  /** The generator is divisible by x + 1, so no error that flips an odd number of bits has residue zero. */
  lemma OddErrorLeavesResidue(e: Bytes)
    requires OddBits(BitsOf(e))
    ensures Residue(e) != 0
  {
    hide OddTop, FoldBits, Fold, Bit;
    FoldIsBitSerial(0, e);
    FoldBitsKeepsParity(0, BitsOf(e));
    ParityOfZero(16);
  }
}
