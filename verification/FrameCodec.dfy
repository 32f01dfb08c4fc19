/** `EncodeFrame` over caller-owned buffers and the byte-at-a-time `TFrameDecoder` over fixed storage. */
module FrameCodec {
  import opened Crc16
  import opened FrameModel

  datatype TransportResult = Success | Full | Invalid

  /** A view whose data pointer may be null; `size` is what the caller claims. */
  ghost predicate ValidView(data: array?<bv8>, size: nat) { data != null ==> size <= data.Length }

  function ValidateEncodeInputs(payload: array?<bv8>, size: nat, frame: array?<bv8>, capacity: nat): TransportResult {
    if size != 0 && payload == null then Invalid
    else if capacity != 0 && frame == null then Invalid
    else if size > MAX_LENGTH then Invalid
    else if size + OVERHEAD > capacity then Full
    else Success
  }

  /**
   Writes one whole frame or nothing. On success the first size + 6 bytes are the encoding and everything
   behind them is untouched; on any rejection neither the destination nor the reported count changes.
   The two views do not overlap, as the block copy of the payload demands.
   */
  method EncodeFrame(id: bv8, payload: array?<bv8>, size: nat, frame: array?<bv8>, capacity: nat, written: nat)
    returns (result: TransportResult, total: nat)
    requires ValidView(payload, size) && ValidView(frame, capacity)
    requires payload == null || frame == null || payload != frame
    modifies frame
    ensures result == ValidateEncodeInputs(payload, size, frame, capacity)
    ensures result != Success ==> total == written && (frame != null ==> frame[..] == old(frame[..]))
    ensures result == Success ==>
              && total == size + OVERHEAD
              && frame[..total] == Encode(id, if payload == null then [] else payload[..size])
              && frame[total..] == old(frame[total..])
  {
    result := ValidateEncodeInputs(payload, size, frame, capacity);
    if result != Success { return result, written; }
    ghost var body := if payload == null then [] else payload[..size];
    WriteFrameHeader(id, size, frame);
    AppendPayloadAndChecksum(id, payload, size, frame, body);
    total := size + OVERHEAD;
  }

  method WriteFrameHeader(id: bv8, size: nat, frame: array<bv8>)
    requires size <= MAX_LENGTH && frame.Length >= OVERHEAD
    modifies frame
    ensures frame[..4] == [MAGIC, id, High(WordOf(size)), Low(WordOf(size))] && frame[4..] == old(frame[4..])
  {
    frame[0] := MAGIC;
    frame[1] := id;
    var n := WordOf(size);
    frame[2] := High(n);
    frame[3] := Low(n);
  }

  method CopyPayload(payload: array<bv8>, size: nat, frame: array<bv8>)
    requires size <= payload.Length && size + OVERHEAD <= frame.Length && payload != frame
    modifies frame
    ensures frame[..4] == old(frame[..4]) && frame[4..4 + size] == payload[..size]
    ensures frame[4 + size..] == old(frame[4 + size..])
  {
    for i := 0 to size
      invariant frame[..4] == old(frame[..4])
      invariant forall k :: 0 <= k < i ==> frame[4 + k] == payload[k]
      invariant forall k :: 4 + i <= k < frame.Length ==> frame[k] == old(frame[k])
    {
      frame[4 + i] := payload[i];
    }
  }

  method AppendPayloadAndChecksum(id: bv8, payload: array?<bv8>, size: nat, frame: array<bv8>, ghost body: Bytes)
    requires size <= MAX_LENGTH && size + OVERHEAD <= frame.Length && payload != frame
    requires (payload == null ==> size == 0) && (payload != null ==> size <= payload.Length)
    requires body == if payload == null then [] else payload[..size]
    requires frame[..4] == [MAGIC, id, High(WordOf(size)), Low(WordOf(size))]
    modifies frame
    ensures frame[..size + OVERHEAD] == Encode(id, body) && frame[size + OVERHEAD..] == old(frame[size + OVERHEAD..])
  {
    hide High, Low, Fold, WordOf;
    if size != 0 { CopyPayload(payload, size, frame); }
    assert frame[4..4 + size] == body;
    assert frame[1..4 + size] == frame[..4][1..] + body == Covered(id, body);
    var crc := ComputeCrc16Ccitt(frame, 1, 3 + size);
    ghost var head := frame[..4 + size];
    assert head == [MAGIC] + Covered(id, body);
    frame[4 + size] := High(crc);
    frame[5 + size] := Low(crc);
    assert frame[..size + OVERHEAD] == head + [High(crc), Low(crc)];
  }

  class FrameDecoder {
    const storage: array<bv8>
    var state: State
    var sourceId: bv8
    var lengthHigh: bv8
    var length: nat
    var crcHigh: bv8
    var crc: bv16
    var index: nat
    var heldId: bv8
    var heldLength: nat
    var hasFrame: bool

    ghost function Model(): Decoder
      reads this, storage
    {
      Decoder(state, sourceId, lengthHigh, length, crcHigh, crc, index, heldId, heldLength, hasFrame, storage[..])
    }

    ghost predicate Valid()
      reads this, storage
    {
      FrameModel.Valid(Model())
    }

    constructor (capacity: nat)
      ensures Valid() && Model() == Fresh(capacity) && fresh(storage)
    {
      storage := new bv8[capacity](_ => 0);
      state, sourceId, lengthHigh, length, crcHigh, crc := WaitingForMagic, 0, 0, 0, 0, INITIAL;
      index, heldId, heldLength, hasFrame := 0, 0, 0, false;
      new;
      assert storage[..] == seq(capacity, _ => 0);
    }

    method PushByte(b: bv8) returns (event: FrameEvent)
      requires Valid()
      modifies this, storage
      ensures Valid() && (Model(), event) == Push(old(Model()), b)
    {
      hide Fold, FoldByte, Word;
      match state
      case WaitingForMagic => event := BeginFrameOnMagic(b);
      case ReadingSourceNodeId => event := CaptureSourceNodeId(b);
      case ReadingLengthHighByte => event := CaptureLengthHighByte(b);
      case ReadingLengthLowByte => event := CaptureLengthLowByte(b);
      case ReadingPayload => event := AccumulatePayloadByte(b);
      case ReadingCrcHighByte => event := CaptureChecksumHighByte(b);
      case ReadingCrcLowByte => event := CompleteFrameIfChecksumMatches(b);
    }

    method BeginFrameOnMagic(b: bv8) returns (event: FrameEvent)
      requires Valid() && state == WaitingForMagic
      modifies this
      ensures (Model(), event) == Push(old(Model()), b)
    {
      if b == MAGIC { crc, state := INITIAL, ReadingSourceNodeId; }
      event := NoEvent;
    }

    method CaptureSourceNodeId(b: bv8) returns (event: FrameEvent)
      requires Valid() && state == ReadingSourceNodeId
      modifies this
      ensures (Model(), event) == Push(old(Model()), b)
    {
      hide FoldByte;
      sourceId := b;
      crc := UpdateCrc16Byte(crc, b);
      state := ReadingLengthHighByte;
      event := NoEvent;
    }

    method CaptureLengthHighByte(b: bv8) returns (event: FrameEvent)
      requires Valid() && state == ReadingLengthHighByte
      modifies this
      ensures (Model(), event) == Push(old(Model()), b)
    {
      hide FoldByte;
      lengthHigh := b;
      crc := UpdateCrc16Byte(crc, b);
      state := ReadingLengthLowByte;
      event := NoEvent;
    }

    method CaptureLengthLowByte(b: bv8) returns (event: FrameEvent)
      requires Valid() && state == ReadingLengthLowByte
      modifies this
      ensures (Model(), event) == Push(old(Model()), b)
    {
      hide FoldByte, Word, FrameModel.Length;
      crc := UpdateCrc16Byte(crc, b);
      length := Length(lengthHigh, b);
      if length > storage.Length {
        state := WaitingForMagic;
        return Discarded;
      }
      index := 0;
      state := if length == 0 then ReadingCrcHighByte else ReadingPayload;
      event := NoEvent;
    }

    method AccumulatePayloadByte(b: bv8) returns (event: FrameEvent)
      requires Valid() && state == ReadingPayload
      modifies this, storage
      ensures (Model(), event) == Push(old(Model()), b)
    {
      hide FoldByte;
      storage[index] := b;
      index := index + 1;
      crc := UpdateCrc16Byte(crc, b);
      if index >= length { state := ReadingCrcHighByte; }
      event := NoEvent;
    }

    method CaptureChecksumHighByte(b: bv8) returns (event: FrameEvent)
      requires Valid() && state == ReadingCrcHighByte
      modifies this
      ensures (Model(), event) == Push(old(Model()), b)
    {
      crcHigh := b;
      state := ReadingCrcLowByte;
      event := NoEvent;
    }

    method CompleteFrameIfChecksumMatches(b: bv8) returns (event: FrameEvent)
      requires Valid() && state == ReadingCrcLowByte
      modifies this
      ensures (Model(), event) == Push(old(Model()), b)
    {
      hide Word;
      state := WaitingForMagic;
      if Word(crcHigh, b) != crc { return Discarded; }
      heldId, heldLength, hasFrame := sourceId, length, true;
      event := FrameReady;
    }

    method ClearFrame()
      requires Valid()
      modifies this
      ensures Valid() && Model() == FrameModel.ClearFrame(old(Model()))
    {
      hasFrame := false;
    }
  }
}
