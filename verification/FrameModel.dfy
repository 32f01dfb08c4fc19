/**
 The framed byte stream: the wire format, the byte-at-a-time decoder as a pure state machine, and the batch
 parser that says what a stream means without any decoder state.
 */
module FrameModel {
  import opened Crc16

  const MAGIC: bv8 := 0xA5
  const OVERHEAD := 6
  const MAX_LENGTH := 0xFFFF

  // ------------------------------------------------------------------ the wire format

  function Length(high: bv8, low: bv8): (n: nat)
    ensures n <= MAX_LENGTH
  {
    Word(high, low) as nat
  }

  function Covered(id: bv8, payload: Bytes): Bytes
    requires |payload| <= MAX_LENGTH
  {
    var n := WordOf(|payload|);
    [id, High(n), Low(n)] + payload
  }

  function Encode(id: bv8, payload: Bytes): (r: Bytes)
    requires |payload| <= MAX_LENGTH
    ensures |r| == |payload| + OVERHEAD
  {
    var crc := Fold(INITIAL, Covered(id, payload));
    [MAGIC] + Covered(id, payload) + [High(crc), Low(crc)]
  }

  // ------------------------------------------------------------------ the decoder

  datatype State =
    | WaitingForMagic
    | ReadingSourceNodeId
    | ReadingLengthHighByte
    | ReadingLengthLowByte
    | ReadingPayload
    | ReadingCrcHighByte
    | ReadingCrcLowByte

  datatype FrameEvent = NoEvent | FrameReady | Discarded

  datatype Decoder = Decoder(
    state: State,
    sourceId: bv8,
    lengthHigh: bv8,
    length: nat,
    crcHigh: bv8,
    crc: bv16,
    index: nat,
    heldId: bv8,
    heldLength: nat,
    hasFrame: bool,
    storage: Bytes)

  function Fresh(capacity: nat): Decoder {
    Decoder(WaitingForMagic, 0, 0, 0, 0, INITIAL, 0, 0, 0, false, seq(capacity, _ => 0))
  }

  predicate Valid(d: Decoder) {
    && (d.state.ReadingPayload? ==> d.index < d.length <= |d.storage|)
    && (d.state.ReadingCrcHighByte? || d.state.ReadingCrcLowByte? ==> d.length <= |d.storage|)
    && (d.hasFrame ==> d.heldLength <= |d.storage|)
  }

  function AcceptLength(d: Decoder, length: nat, crc: bv16): (Decoder, FrameEvent) {
    if length > |d.storage| then (d.(crc := crc, length := length, state := WaitingForMagic), Discarded)
    else (d.(crc := crc, length := length, index := 0,
             state := if length == 0 then ReadingCrcHighByte else ReadingPayload), NoEvent)
  }

  function StorePayloadByte(d: Decoder, b: bv8): Decoder
    requires d.index < |d.storage|
  {
    d.(storage := d.storage[d.index := b], index := d.index + 1, crc := FoldByte(d.crc, b),
       state := if d.index + 1 >= d.length then ReadingCrcHighByte else ReadingPayload)
  }

  function CompleteFrame(d: Decoder, b: bv8): (Decoder, FrameEvent) {
    if Word(d.crcHigh, b) != d.crc then (d.(state := WaitingForMagic), Discarded)
    else (d.(state := WaitingForMagic, heldId := d.sourceId, heldLength := d.length, hasFrame := true), FrameReady)
  }

  /** One byte through the seven-state machine. */
  function Push(d: Decoder, b: bv8): (r: (Decoder, FrameEvent))
    requires Valid(d)
    ensures Valid(r.0) && |r.0.storage| == |d.storage|
  {
    hide FoldByte, Word, Length;
    match d.state
    case WaitingForMagic => (if b == MAGIC then d.(crc := INITIAL, state := ReadingSourceNodeId) else d, NoEvent)
    case ReadingSourceNodeId => (d.(sourceId := b, crc := FoldByte(d.crc, b), state := ReadingLengthHighByte), NoEvent)
    case ReadingLengthHighByte => (d.(lengthHigh := b, crc := FoldByte(d.crc, b), state := ReadingLengthLowByte), NoEvent)
    case ReadingLengthLowByte => AcceptLength(d, Length(d.lengthHigh, b), FoldByte(d.crc, b))
    case ReadingPayload => (StorePayloadByte(d, b), NoEvent)
    case ReadingCrcHighByte => (d.(crcHigh := b, state := ReadingCrcLowByte), NoEvent)
    case ReadingCrcLowByte => CompleteFrame(d, b)
  }

  function ClearFrame(d: Decoder): Decoder { d.(hasFrame := false) }

  // ------------------------------------------------------------------ streams

  /** What the owner sees after one byte: nothing, a frame it can read, or a rejected candidate. */
  datatype Outcome = Quiet | Frame(id: bv8, payload: Bytes) | Rejected

  function Seen(r: (Decoder, FrameEvent)): Outcome
    requires Valid(r.0)
  {
    if r.1.Discarded? then Rejected
    else if r.1.FrameReady? && r.0.hasFrame then Frame(r.0.heldId, r.0.storage[..r.0.heldLength])
    else Quiet
  }

  function After(d: Decoder, s: Bytes): (r: Decoder)
    requires Valid(d)
    ensures Valid(r) && |r.storage| == |d.storage|
  {
    if s == [] then d else Push(After(d, s[..|s| - 1]), s[|s| - 1]).0
  }

  function Observe(d: Decoder, s: Bytes): (r: seq<Outcome>)
    requires Valid(d)
    ensures |r| == |s|
  {
    if s == [] then []
    else Observe(d, s[..|s| - 1]) + [Seen(Push(After(d, s[..|s| - 1]), s[|s| - 1]))]
  }

  // ------------------------------------------------------------------ what a stream means

  function Silent(n: nat): seq<Outcome> { seq(n, _ => Quiet) }

  /** Whether the checksum of a complete candidate (magic to last checksum byte) matches. */
  predicate Intact(s: Bytes)
    requires |s| >= OVERHEAD
  {
    Word(s[|s| - 2], s[|s| - 1]) == Fold(INITIAL, s[1..|s| - 2])
  }

  function Verdict(s: Bytes): Outcome
    requires |s| >= OVERHEAD
  {
    if Intact(s) then Frame(s[1], s[4..|s| - 2]) else Rejected
  }

  /**
   The outcome of every byte of a stream, by looking ahead instead of keeping state: skip to a magic byte,
   read the length, give up on it after four bytes when it exceeds the capacity, and otherwise judge the
   whole candidate at its last byte.
   */
  function Parse(s: Bytes, capacity: nat): (r: seq<Outcome>)
    ensures |r| == |s|
    decreases |s|
  {
    if s == [] then []
    else if s[0] != MAGIC then [Quiet] + Parse(s[1..], capacity)
    else if |s| < 4 then Silent(|s|)
    else
      var n := Length(s[2], s[3]);
      if n > capacity then Silent(3) + [Rejected] + Parse(s[4..], capacity)
      else if |s| < n + OVERHEAD then Silent(|s|)
      else Silent(n + OVERHEAD - 1) + [Verdict(s[..n + OVERHEAD])] + Parse(s[n + OVERHEAD..], capacity)
  }
}
