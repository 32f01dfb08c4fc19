/** Little-endian words on the wire, and the bounded writer and reader cursors every message schema is built on. */
module WireCodec {
  import opened Basics

  type Bytes = seq<Byte>

  function Power(n: nat): (r: nat)
    ensures r > 0
  {
    if n == 0 then 1 else 0x100 * Power(n - 1)
  }

  /** `v` in `n` bytes, least significant first; higher bytes are cut off. */
  function LittleEndian(v: nat, n: nat): (r: Bytes)
    ensures |r| == n
  {
    if n == 0 then [] else [v % 0x100] + LittleEndian(v / 0x100, n - 1)
  }

  function FromLittleEndian(s: Bytes): nat {
    if s == [] then 0 else s[0] + 0x100 * FromLittleEndian(s[1..])
  }

  lemma {:induction false} LittleEndianRoundTrip(v: nat, n: nat)
    requires v < Power(n)
    ensures FromLittleEndian(LittleEndian(v, n)) == v
  {
    if n > 0 { LittleEndianRoundTrip(v / 0x100, n - 1); }
  }

  lemma {:induction false} FromLittleEndianFits(s: Bytes)
    ensures FromLittleEndian(s) < Power(|s|) && LittleEndian(FromLittleEndian(s), |s|) == s
  {
    if s != [] {
      FromLittleEndianFits(s[1..]);
      var rest := FromLittleEndian(s[1..]);
      assert (s[0] + 0x100 * rest) / 0x100 == rest && (s[0] + 0x100 * rest) % 0x100 == s[0];
    }
  }

  lemma Powers()
    ensures Power(1) == 0x100 && Power(2) == 0x1_0000 && Power(4) == 0x1_0000_0000
    ensures Power(8) == 0x1_0000_0000_0000_0000
  {
    assert Power(3) == 0x100_0000;
    assert Power(5) == 0x100_0000_0000;
    assert Power(6) == 0x1_0000_0000_0000;
    assert Power(7) == 0x100_0000_0000_0000;
  }

  /** Byte `i` of the encoding is the value shifted down by `i` bytes. */
  lemma {:induction false} LittleEndianAt(v: nat, n: nat, i: nat)
    requires i < n
    ensures LittleEndian(v, n)[i] == v / Power(i) % 0x100
  {
    if i > 0 {
      LittleEndianAt(v / 0x100, n - 1, i - 1);
      DivideTwice(v, Power(i - 1));
    } else {
      assert v / 1 == v;
    }
  }

  lemma DivideTwice(v: nat, p: nat)
    requires p > 0
    ensures v / 0x100 / p == v / (0x100 * p)
  {
    var q, r := v / 0x100 / p, v / 0x100 % p;
    assert v / 0x100 == q * p + r;
    assert v == 0x100 * (q * p + r) + v % 0x100;
    var d := 0x100 * p;
    assert v == q * d + (0x100 * r + v % 0x100);
    assert 0 <= 0x100 * r + v % 0x100 < d;
    QuotientIsUnique(v, d, q, 0x100 * r + v % 0x100);
  }

  lemma MultipleIsLarge(k: int, d: nat)
    requires k > 0
    ensures k * d >= d
  {
  }

  lemma Distributes(a: int, b: int, d: int)
    ensures (a - b) * d == a * d - b * d
  {
  }

  lemma DivisionSplits(v: nat, d: nat)
    requires d > 0
    ensures v == (v / d) * d + v % d && 0 <= v % d < d
  {
  }

  lemma QuotientIsUnique(v: nat, d: nat, q: nat, r: nat)
    requires d > 0 && r < d && v == q * d + r
    ensures v / d == q
  {
    var a := v / d;
    DivisionSplits(v, d);
    Distributes(q, a, d);
    Distributes(a, q, d);
    if a < q { MultipleIsLarge(q - a, d); }
    if a > q { MultipleIsLarge(a - q, d); }
  }

  /** The loop of the original: every byte is the value shifted down by its position. */
  method WriteUnsignedLittleEndian(v: nat, a: array<Byte>, start: nat, count: nat)
    requires start + count <= a.Length
    modifies a
    ensures a[..] == old(a[..start]) + LittleEndian(v, count) + old(a[start + count..])
  {
    var shift := 1;
    for i := 0 to count
      invariant shift == Power(i)
      invariant forall k :: 0 <= k < i ==> a[start + k] == LittleEndian(v, count)[k]
      invariant forall k :: 0 <= k < a.Length && !(start <= k < start + i) ==> a[k] == old(a[k])
    {
      a[start + i] := v / shift % 0x100;
      LittleEndianAt(v, count, i);
      shift := 0x100 * shift;
    }
  }

  method ReadUnsignedLittleEndian(a: array<Byte>, start: nat, count: nat) returns (v: nat)
    requires start + count <= a.Length
    ensures v == FromLittleEndian(a[start..start + count])
  {
    v := 0;
    var i := count;
    while i > 0
      invariant 0 <= i <= count && v == FromLittleEndian(a[start + i..start + count])
    {
      i := i - 1;
      assert a[start + i..start + count][1..] == a[start + i + 1..start + count];
      v := a[start + i] + 0x100 * v;
    }
  }

  datatype CodecResult = Written | BufferFull | Malformed

  // ------------------------------------------------------------------ cursors

  class MessageWriter {
    const buffer: array<Byte>
    var offset: nat

    ghost predicate Valid()
      reads this
    {
      offset <= buffer.Length
    }

    function WrittenBytes(): Bytes
      reads this, buffer
      requires Valid()
    {
      buffer[..offset]
    }

    function Remaining(): nat
      reads this
      requires Valid()
    {
      buffer.Length - offset
    }

    constructor (capacity: nat)
      ensures Valid() && WrittenBytes() == [] && Remaining() == capacity && fresh(buffer)
    {
      buffer := new Byte[capacity](_ => 0);
      offset := 0;
    }

    /** Appends `n` little-endian bytes of `v`, or reports a full buffer and changes nothing. */
    method WriteUnsigned(v: nat, n: nat) returns (result: CodecResult)
      requires Valid()
      modifies this, buffer
      ensures Valid() && result == if old(Remaining()) < n then BufferFull else Written
      ensures WrittenBytes() == if result.Written? then old(WrittenBytes()) + LittleEndian(v, n) else old(WrittenBytes())
    {
      if Remaining() < n { return BufferFull; }
      WriteUnsignedLittleEndian(v, buffer, offset, n);
      offset := offset + n;
      assert buffer[..offset] == old(buffer[..offset]) + LittleEndian(v, n);
      result := Written;
    }

    /** Appends every byte, or reports a full buffer and changes nothing. */
    method WriteBytes(s: Bytes) returns (result: CodecResult)
      requires Valid()
      modifies this, buffer
      ensures Valid() && result == if old(Remaining()) < |s| then BufferFull else Written
      ensures WrittenBytes() == if result.Written? then old(WrittenBytes()) + s else old(WrittenBytes())
    {
      if Remaining() < |s| { return BufferFull; }
      for i := 0 to |s|
        modifies buffer
        invariant forall k :: 0 <= k < i ==> buffer[offset + k] == s[k]
        invariant forall k :: 0 <= k < offset ==> buffer[k] == old(buffer[k])
      {
        buffer[offset + i] := s[i];
      }
      offset := offset + |s|;
      assert buffer[..offset] == old(buffer[..offset]) + s;
      result := Written;
    }
  }

  class MessageReader {
    const buffer: array<Byte>
    const size: nat
    var offset: nat

    ghost predicate Valid()
      reads this
    {
      offset <= size <= buffer.Length
    }

    /** What has not been consumed yet. */
    function Unread(): Bytes
      reads this, buffer
      requires Valid()
    {
      buffer[offset..size]
    }

    constructor (buffer: array<Byte>, size: nat)
      requires size <= buffer.Length
      ensures Valid() && this.buffer == buffer && Unread() == buffer[..size]
    {
      this.buffer := buffer;
      this.size := size;
      offset := 0;
    }

    method ReadUnsigned(n: nat) returns (value: Option<nat>)
      requires Valid()
      modifies this
      ensures Valid() && (value.Some? <==> |old(Unread())| >= n)
      ensures value.Some? ==> value.value == FromLittleEndian(old(Unread())[..n]) && Unread() == old(Unread())[n..]
      ensures value.None? ==> Unread() == old(Unread())
    {
      if size - offset < n { return None; }
      var v := ReadUnsignedLittleEndian(buffer, offset, n);
      assert buffer[offset..size][..n] == buffer[offset..offset + n];
      offset := offset + n;
      value := Some(v);
    }

    method ReadBytes(n: nat) returns (value: Option<Bytes>)
      requires Valid()
      modifies this
      ensures Valid() && (value.Some? <==> |old(Unread())| >= n)
      ensures value.Some? ==> value.value == old(Unread())[..n] && Unread() == old(Unread())[n..]
      ensures value.None? ==> Unread() == old(Unread())
    {
      if size - offset < n { return None; }
      value := Some(buffer[offset..offset + n]);
      offset := offset + n;
    }
  }
}
