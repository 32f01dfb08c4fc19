/**
 CRC-16/CCITT-FALSE as the frame codec computes it, and the algebra behind its error detection: one bit
 step is linear and injective over GF(2), so an error pattern is invisible exactly when its own residue is 0.
 */
module Crc16 {

  type Bytes = seq<bv8>

  const INITIAL: bv16 := 0xFFFF
  const TOP_BIT: bv16 := 0x8000
  const POLYNOMIAL: bv16 := 0x1021

  function AdvanceBit(crc: bv16): bv16 {
    if crc & TOP_BIT != 0 then (crc << 1) ^ POLYNOMIAL else crc << 1
  }

  function Advance(crc: bv16, bits: nat): bv16 {
    if bits == 0 then crc else AdvanceBit(Advance(crc, bits - 1))
  }

  /** Addition of registers, bit by bit and without carries. */
  function Add(x: bv16, y: bv16): bv16 { x ^ y }

  function Double(x: bv16): bv16 { x << 1 }

  predicate TopSet(x: bv16) { x & TOP_BIT != 0 }

  function Placed(b: bv8): bv16 { (b as bv16) << 8 }

  function FoldByte(crc: bv16, b: bv8): bv16 { Advance(Add(crc, Placed(b)), 8) }

  function Fold(crc: bv16, s: Bytes): bv16 {
    if s == [] then crc else FoldByte(Fold(crc, s[..|s| - 1]), s[|s| - 1])
  }

  lemma AdvanceBitCases(crc: bv16)
    ensures crc & TOP_BIT != 0 ==> AdvanceBit(crc) == (crc << 1) ^ POLYNOMIAL
    ensures crc & TOP_BIT == 0 ==> AdvanceBit(crc) == crc << 1
  {
  }

  lemma AdvanceStep(crc: bv16, bits: nat)
    ensures Advance(crc, 0) == crc && Advance(crc, bits + 1) == AdvanceBit(Advance(crc, bits))
  {
  }

  // ------------------------------------------------------------------ the two loops

  method UpdateCrc16Byte(crc: bv16, b: bv8) returns (r: bv16)
    ensures r == FoldByte(crc, b)
  {
    hide Advance, AdvanceBit, Add, Placed;
    r := Add(crc, Placed(b));
    ghost var start := r;
    AdvanceStep(start, 0);
    for i := 0 to 8
      invariant r == Advance(start, i)
    {
      AdvanceStep(start, i);
      AdvanceBitCases(r);
      if r & TOP_BIT != 0 { r := (r << 1) ^ POLYNOMIAL; } else { r := r << 1; }
    }
  }

  /** `bytes` is null for the invalid view that the original refuses to dereference. */
  method ComputeCrc16Ccitt(bytes: array?<bv8>, start: nat, count: nat) returns (r: bv16)
    requires bytes != null ==> start + count <= bytes.Length
    ensures r == if bytes == null then INITIAL else Fold(INITIAL, bytes[start..start + count])
  {
    r := INITIAL;
    if bytes == null { return; }
    for i := 0 to count
      invariant r == Fold(INITIAL, bytes[start..start + i])
    {
      assert bytes[start..start + i + 1][..i] == bytes[start..start + i];
      r := UpdateCrc16Byte(r, bytes[start + i]);
    }
  }

  // ------------------------------------------------------------------ words on the wire

  function Word(high: bv8, low: bv8): bv16 { ((high as bv16) << 8) | (low as bv16) }

  function High(w: bv16): bv8 { (w >> 8) as bv8 }

  function Low(w: bv16): bv8 { (w & 0xFF) as bv8 }

  lemma WordRoundTrip(w: bv16, high: bv8, low: bv8)
    ensures Word(High(w), Low(w)) == w
    ensures High(Word(high, low)) == high && Low(Word(high, low)) == low
  {
  }

  /** The 16-bit word that holds `n`. */
  function WordOf(n: nat): bv16
    requires n < 0x1_0000
  {
    n as bv16
  }

  lemma SmallWordsDouble(w: bv16)
    requires w as nat < 0x8000
    ensures (w << 1) as nat == 2 * (w as nat) && ((w << 1) | 1) as nat == 2 * (w as nat) + 1
  {
    assert w & 0x8000 == 0;
  }

  lemma {:induction false} WordFor(n: nat) returns (w: bv16)
    requires n < 0x1_0000
    ensures w as nat == n
  {
    if n == 0 { return 0; }
    var h := WordFor(n / 2);
    SmallWordsDouble(h);
    w := if n % 2 == 0 then h << 1 else (h << 1) | 1;
  }

  lemma BackToWord(w: bv16)
    ensures (w as nat) as bv16 == w
  {
  }

  lemma WordOfIsExact(n: nat)
    requires n < 0x1_0000
    ensures WordOf(n) as nat == n
  {
    var w := WordFor(n);
    BackToWord(w);
  }

  // ------------------------------------------------------------------ linearity

  lemma AddIsAssociative(x: bv16, y: bv16, z: bv16)
    ensures Add(Add(x, y), z) == Add(x, Add(y, z))
  {
  }

  lemma AddIsZeroIffEqual(x: bv16, y: bv16)
    ensures Add(x, y) == 0 <==> x == y
  {
  }

  lemma AddCommutes(x: bv16, y: bv16)
    ensures Add(x, y) == Add(y, x)
  {
  }

  lemma AddZero(x: bv16)
    ensures Add(x, 0) == x
  {
  }

  lemma AddSwaps(a: bv16, b: bv16, c: bv16, d: bv16)
    ensures Add(Add(a, b), Add(c, d)) == Add(Add(a, c), Add(b, d))
  {
    hide Add;
    AddIsAssociative(a, b, Add(c, d));
    AddIsAssociative(b, c, d);
    AddCommutes(b, c);
    AddIsAssociative(c, b, d);
    AddIsAssociative(a, c, Add(b, d));
  }

  lemma PlacedIsLinear(x: bv8, y: bv8)
    ensures Placed(x ^ y) == Add(Placed(x), Placed(y))
  {
  }

  lemma DoubleIsLinear(x: bv16, y: bv16)
    ensures Double(Add(x, y)) == Add(Double(x), Double(y))
  {
  }

  lemma TopOfSum(x: bv16, y: bv16)
    ensures TopSet(Add(x, y)) <==> TopSet(x) != TopSet(y)
  {
  }

  /** What leaves the register at the top comes back as the generator. */
  function Feedback(top: bool): bv16 { if top then POLYNOMIAL else 0 }

  lemma AddIsXor(x: bv16, y: bv16)
    ensures Add(x, y) == x ^ y
  {
  }

  lemma AdvanceBitIsDoubleWithFeedback(x: bv16)
    ensures AdvanceBit(x) == Add(Double(x), Feedback(TopSet(x)))
  {
    hide Add;
    AddZero(Double(x));
    AddIsXor(x << 1, POLYNOMIAL);
  }

  lemma FeedbackIsLinear(s: bool, t: bool)
    ensures Feedback(s != t) == Add(Feedback(s), Feedback(t))
  {
  }

  lemma AdvanceBitIsLinear(x: bv16, y: bv16)
    ensures AdvanceBit(Add(x, y)) == Add(AdvanceBit(x), AdvanceBit(y))
  {
    hide AdvanceBit, Add, Double, TopSet, Feedback;
    AdvanceBitIsDoubleWithFeedback(x);
    AdvanceBitIsDoubleWithFeedback(y);
    AdvanceBitIsDoubleWithFeedback(Add(x, y));
    DoubleIsLinear(x, y);
    TopOfSum(x, y);
    FeedbackIsLinear(TopSet(x), TopSet(y));
    AddSwaps(Double(x), Double(y), Feedback(TopSet(x)), Feedback(TopSet(y)));
  }

  lemma AdvanceBitKeepsNonzero(x: bv16)
    ensures AdvanceBit(x) == 0 <==> x == 0
  {
  }

  lemma {:induction false} AdvanceIsLinear(x: bv16, y: bv16, n: nat)
    ensures Advance(Add(x, y), n) == Add(Advance(x, n), Advance(y, n))
  {
    hide AdvanceBit, Add;
    if n > 0 {
      AdvanceIsLinear(x, y, n - 1);
      AdvanceBitIsLinear(Advance(x, n - 1), Advance(y, n - 1));
    }
  }

  lemma {:induction false} AdvanceKeepsNonzero(x: bv16, n: nat)
    ensures Advance(x, n) == 0 <==> x == 0
  {
    hide AdvanceBit;
    if n > 0 {
      AdvanceKeepsNonzero(x, n - 1);
      AdvanceBitKeepsNonzero(Advance(x, n - 1));
    }
  }

  lemma {:induction false} AdvanceAdds(x: bv16, m: nat, n: nat)
    ensures Advance(x, m + n) == Advance(Advance(x, m), n)
  {
    if n > 0 { AdvanceAdds(x, m, n - 1); }
  }

  lemma {:induction false} FoldAppends(crc: bv16, s: Bytes, t: Bytes)
    ensures Fold(crc, s + t) == Fold(Fold(crc, s), t)
  {
    if t == [] {
      assert s + t == s;
    } else {
      FoldAppends(crc, s, t[..|t| - 1]);
      assert (s + t)[..|s + t| - 1] == s + t[..|t| - 1];
    }
  }

  function Xor(s: Bytes, t: Bytes): (r: Bytes)
    requires |s| == |t|
    ensures |r| == |s| && forall k :: 0 <= k < |s| ==> r[k] == s[k] ^ t[k]
  {
    seq(|s|, k requires 0 <= k < |s| => s[k] ^ t[k])
  }

  lemma FoldByteIsLinear(c: bv16, d: bv16, x: bv8, y: bv8)
    ensures FoldByte(Add(c, d), x ^ y) == Add(FoldByte(c, x), FoldByte(d, y))
  {
    hide Advance, Add, Placed;
    PlacedIsLinear(x, y);
    AddSwaps(c, d, Placed(x), Placed(y));
    AdvanceIsLinear(Add(c, Placed(x)), Add(d, Placed(y)), 8);
  }

  /** The checksum of a sum is the sum of the checksums. */
  lemma {:induction false} FoldIsLinear(c: bv16, d: bv16, s: Bytes, t: Bytes)
    requires |s| == |t|
    ensures Fold(Add(c, d), Xor(s, t)) == Add(Fold(c, s), Fold(d, t))
  {
    hide FoldByte, Add;
    if s != [] {
      var n := |s| - 1;
      FoldIsLinear(c, d, s[..n], t[..n]);
      assert Xor(s, t)[..n] == Xor(s[..n], t[..n]);
      FoldByteIsLinear(Fold(c, s[..n]), Fold(d, t[..n]), s[n], t[n]);
    }
  }

  // ------------------------------------------------------------------ folding a checksum into itself

  lemma LowByteShiftsOut(b: bv8)
    ensures Advance(b as bv16, 8) == Placed(b)
  {
    var x := b as bv16;
    assert Advance(x, 1) == x << 1;
    assert Advance(x, 2) == x << 2;
    assert Advance(x, 3) == x << 3;
    assert Advance(x, 4) == x << 4;
    assert Advance(x, 5) == x << 5;
    assert Advance(x, 6) == x << 6;
    assert Advance(x, 7) == x << 7;
  }

  lemma WordIsASum(high: bv8, low: bv8)
    ensures Word(high, low) == Add(Placed(high), low as bv16)
  {
  }

  lemma FoldPair(crc: bv16, high: bv8, low: bv8)
    ensures Fold(crc, [high, low]) == FoldByte(FoldByte(crc, high), low)
  {
    hide FoldByte;
    assert [high, low][..1] == [high] && [high][..0] == [];
    assert Fold(crc, [high]) == FoldByte(Fold(crc, []), high);
  }

  /** Folding two bytes is one 16-step advance of the sum of the register and the word they spell. */
  lemma FoldTwoBytes(crc: bv16, high: bv8, low: bv8)
    ensures Fold(crc, [high, low]) == Advance(Add(crc, Word(high, low)), 16)
  {
    hide Advance, Add, Placed, Word, Fold;
    var h, l := Add(crc, Placed(high)), low as bv16;
    FoldPair(crc, high, low);
    LowByteShiftsOut(low);
    AdvanceIsLinear(h, l, 8);
    WordIsASum(high, low);
    AddIsAssociative(crc, Placed(high), l);
    AdvanceAdds(Add(h, l), 8, 8);
  }

  /** A trailing checksum matches exactly when folding it too leaves a zero register. */
  lemma ChecksumMatchesIffResidueIsZero(s: Bytes, high: bv8, low: bv8)
    ensures Word(high, low) == Fold(INITIAL, s) <==> Fold(INITIAL, s + [high, low]) == 0
  {
    hide Fold, Advance, Word, Add;
    var crc, w := Fold(INITIAL, s), Word(high, low);
    FoldAppends(INITIAL, s, [high, low]);
    FoldTwoBytes(crc, high, low);
    AdvanceKeepsNonzero(Add(crc, w), 16);
    AddIsZeroIffEqual(crc, w);
  }
}
