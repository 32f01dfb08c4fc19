/** The six session schemas on the wire: exact, canonical, and small enough for the reliable frame. */
module ProtocolCodec {
  import opened Basics
  import opened WireCodec
  import opened SessionModel

  const MAX_MESSAGE_BYTES := 96
  const RELIABLE_ID_BYTES := 8
  const FRAME_HEADER_BYTES := 8
  const MAX_FRAME_BYTES := 104

  /** Which schema a message name selects. */
  datatype Schema = RequestSchema | AcceptedSchema | RejectedSchema | HeartbeatSchema | DisconnectSchema | RoutedSchema

  function SchemaOf(p: Packet): Schema {
    match p
    case ConnectRequest(_, _) => RequestSchema
    case ConnectAccepted(_, _) => AcceptedSchema
    case ConnectRejected(_, _) => RejectedSchema
    case Heartbeat(_, _) => HeartbeatSchema
    case Disconnect(_, _, _) => DisconnectSchema
    case Routed(_, _) => RoutedSchema
  }

  predicate PeerInRange(p: PeerId) { p.index <= UINT8_MAX && p.generation <= UINT32_MAX }

  /** Every field holds a value of its machine type. */
  predicate InRange(p: Packet) {
    match p
    case ConnectRequest(version, attempt) => version <= UINT8_MAX && attempt <= UINT32_MAX
    case ConnectAccepted(attempt, peer) => attempt <= UINT32_MAX && PeerInRange(peer)
    case ConnectRejected(attempt, _) => attempt <= UINT32_MAX
    case Heartbeat(peer, attempt) => PeerInRange(peer) && attempt <= UINT32_MAX
    case Disconnect(peer, attempt, _) => PeerInRange(peer) && attempt <= UINT32_MAX
    case Routed(peer, m) => PeerInRange(peer) && m.channel <= UINT32_MAX && m.name <= UINT32_MAX && |m.payload| <= UINT8_MAX
  }

  // ------------------------------------------------------------------ what the bytes are

  function RejectCode(r: RejectReason): Byte { match r case ProtocolMismatch => 0 case RegistryFull => 1 }

  function DisconnectCode(r: DisconnectReason): Byte { match r case Requested => 0 case Timeout => 1 }

  function U8(v: nat): Bytes { LittleEndian(v, 1) }

  function U32(v: nat): Bytes { LittleEndian(v, 4) }

  function PeerBytes(p: PeerId): Bytes { U8(p.index) + U32(p.generation) }

  function Encode(p: Packet): Bytes {
    match p
    case ConnectRequest(version, attempt) => U8(version) + U32(attempt)
    case ConnectAccepted(attempt, peer) => U32(attempt) + PeerBytes(peer)
    case ConnectRejected(attempt, reason) => U32(attempt) + U8(RejectCode(reason))
    case Heartbeat(peer, attempt) => PeerBytes(peer) + U32(attempt)
    case Disconnect(peer, attempt, reason) => PeerBytes(peer) + U32(attempt) + U8(DisconnectCode(reason))
    case Routed(peer, m) => PeerBytes(peer) + U32(m.channel) + U32(m.name) + U8(|m.payload|) + m.payload
  }

  function Field(s: Bytes, start: nat, n: nat): nat
    requires start + n <= |s|
  {
    FromLittleEndian(s[start..start + n])
  }

  function PeerAt(s: Bytes, start: nat): PeerId
    requires start + 5 <= |s|
  {
    PeerId(Field(s, start, 1), Field(s, start + 1, 4))
  }

  function Checked(p: Packet): Option<Packet> { if WellFormed(p) then Some(p) else None }

  /** The message these bytes spell under a schema, when they spell one and nothing is left over. */
  function Decode(schema: Schema, s: Bytes): Option<Packet> {
    match schema
    case RequestSchema => if |s| != 5 then None else Some(ConnectRequest(Field(s, 0, 1), Field(s, 1, 4)))
    case AcceptedSchema => if |s| != 9 then None else Checked(ConnectAccepted(Field(s, 0, 4), PeerAt(s, 4)))
    case RejectedSchema =>
      if |s| != 5 || Field(s, 4, 1) > 1 then None
      else Some(ConnectRejected(Field(s, 0, 4), if Field(s, 4, 1) == 0 then ProtocolMismatch else RegistryFull))
    case HeartbeatSchema => if |s| != 9 then None else Checked(Heartbeat(PeerAt(s, 0), Field(s, 5, 4)))
    case DisconnectSchema =>
      if |s| != 10 || Field(s, 9, 1) > 1 then None
      else Checked(Disconnect(PeerAt(s, 0), Field(s, 5, 4), if Field(s, 9, 1) == 0 then Requested else Timeout))
    case RoutedSchema =>
      if |s| < 14 || |s| != 14 + Field(s, 13, 1) then None
      else Checked(Routed(PeerAt(s, 0), AppMessage(Field(s, 5, 4), Field(s, 9, 4), s[14..])))
  }

  // ------------------------------------------------------------------ exactness

  lemma U8Field(v: nat, s: Bytes, start: nat)
    requires v <= UINT8_MAX && start < |s| && s[start..start + 1] == U8(v)
    ensures Field(s, start, 1) == v
  {
    hide LittleEndian, FromLittleEndian;
    Powers();
    LittleEndianRoundTrip(v, 1);
  }

  lemma U32Field(v: nat, s: Bytes, start: nat)
    requires v <= UINT32_MAX && start + 4 <= |s| && s[start..start + 4] == U32(v)
    ensures Field(s, start, 4) == v
  {
    hide LittleEndian, FromLittleEndian;
    Powers();
    LittleEndianRoundTrip(v, 4);
  }

  lemma PeerField(p: PeerId, s: Bytes, start: nat)
    requires PeerInRange(p) && start + 5 <= |s| && s[start..start + 5] == PeerBytes(p)
    ensures PeerAt(s, start) == p
  {
    hide U8, U32, Field;
    var t := s[start..start + 5];
    Sizes(p, p.generation, p.index);
    assert s[start..start + 1] == t[..1] == U8(p.index);
    assert s[start + 1..start + 5] == t[1..] == U32(p.generation);
    U8Field(p.index, s, start);
    U32Field(p.generation, s, start + 1);
  }

  lemma FieldBack(s: Bytes, start: nat, n: nat)
    requires start + n <= |s|
    ensures LittleEndian(Field(s, start, n), n) == s[start..start + n] && Field(s, start, n) < Power(n)
  {
    hide LittleEndian, FromLittleEndian;
    FromLittleEndianFits(s[start..start + n]);
  }

  lemma U8Back(s: Bytes, start: nat)
    requires start < |s|
    ensures U8(Field(s, start, 1)) == s[start..start + 1] && Field(s, start, 1) <= UINT8_MAX
  {
    hide Field, LittleEndian, Power;
    Powers();
    FieldBack(s, start, 1);
  }

  lemma U32Back(s: Bytes, start: nat)
    requires start + 4 <= |s|
    ensures U32(Field(s, start, 4)) == s[start..start + 4] && Field(s, start, 4) <= UINT32_MAX
  {
    hide Field, LittleEndian, Power;
    Powers();
    FieldBack(s, start, 4);
  }

  lemma PeerBack(s: Bytes, start: nat)
    requires start + 5 <= |s|
    ensures PeerBytes(PeerAt(s, start)) == s[start..start + 5] && PeerInRange(PeerAt(s, start))
  {
    hide U8, U32, Field;
    U8Back(s, start);
    U32Back(s, start + 1);
    assert s[start..start + 5] == s[start..start + 1] + s[start + 1..start + 5];
  }

  lemma RoutedDecodes(peer: PeerId, m: AppMessage)
    requires InRange(Routed(peer, m)) && WellFormed(Routed(peer, m))
    ensures Decode(RoutedSchema, Encode(Routed(peer, m))) == Some(Routed(peer, m))
  {
    hide U8, U32, Field, PeerAt, PeerBytes;
    var s := Encode(Routed(peer, m));
    Sizes(peer, m.channel, |m.payload|);
    assert s[0..5] == PeerBytes(peer);
    assert s[5..9] == U32(m.channel);
    assert s[9..13] == U32(m.name);
    assert s[13..14] == U8(|m.payload|);
    assert s[14..] == m.payload;
    PeerField(peer, s, 0);
    U32Field(m.channel, s, 5);
    U32Field(m.name, s, 9);
    U8Field(|m.payload|, s, 13);
  }

  lemma Sizes(p: PeerId, w: nat, b: nat)
    ensures |PeerBytes(p)| == 5 && |U8(b)| == 1
    ensures forall v :: |U32(v)| == 4
  {
  }

  lemma DisconnectDecodes(peer: PeerId, attempt: nat, reason: DisconnectReason)
    requires InRange(Disconnect(peer, attempt, reason)) && peer.IsValid()
    ensures Decode(DisconnectSchema, Encode(Disconnect(peer, attempt, reason))) == Some(Disconnect(peer, attempt, reason))
  {
    hide U8, U32, Field, PeerAt, PeerBytes;
    var s := Encode(Disconnect(peer, attempt, reason));
    Sizes(peer, attempt, DisconnectCode(reason));
    assert s[0..5] == PeerBytes(peer);
    assert s[5..9] == U32(attempt);
    assert s[9..10] == U8(DisconnectCode(reason));
    PeerField(peer, s, 0);
    U32Field(attempt, s, 5);
    U8Field(DisconnectCode(reason), s, 9);
  }

  lemma SmallSchemasDecode(p: Packet)
    requires InRange(p) && WellFormed(p) && !p.Routed? && !p.Disconnect?
    ensures Decode(SchemaOf(p), Encode(p)) == Some(p)
  {
    hide U8, U32, Field, PeerAt, PeerBytes;
    var s := Encode(p);
    match p
    case ConnectRequest(version, attempt) =>
      Sizes(NO_PEER, attempt, version);
      assert s[0..1] == U8(version) && s[1..5] == U32(attempt);
      U8Field(version, s, 0);
      U32Field(attempt, s, 1);
    case ConnectAccepted(attempt, peer) =>
      Sizes(peer, attempt, 0);
      assert s[0..4] == U32(attempt) && s[4..9] == PeerBytes(peer);
      U32Field(attempt, s, 0);
      PeerField(peer, s, 4);
    case ConnectRejected(attempt, reason) =>
      Sizes(NO_PEER, attempt, RejectCode(reason));
      assert s[0..4] == U32(attempt) && s[4..5] == U8(RejectCode(reason));
      U32Field(attempt, s, 0);
      U8Field(RejectCode(reason), s, 4);
    case Heartbeat(peer, attempt) =>
      Sizes(peer, attempt, 0);
      assert s[0..5] == PeerBytes(peer) && s[5..9] == U32(attempt);
      PeerField(peer, s, 0);
      U32Field(attempt, s, 5);
  }

  /** Decoding undoes encoding: for every message a schema accepts, whatever its field values. */
  lemma DecodeUndoesEncode(p: Packet)
    requires InRange(p)
    ensures Decode(SchemaOf(p), Encode(p)) == Some(p) <==> WellFormed(p)
  {
    hide Encode, InRange;
    if WellFormed(p) {
      match p
      case Routed(peer, m) => RoutedDecodes(peer, m);
      case Disconnect(peer, attempt, reason) => DisconnectDecodes(peer, attempt, reason);
      case _ => SmallSchemasDecode(p);
    }
  }

  lemma RoutedIsCanonical(s: Bytes)
    requires Decode(RoutedSchema, s).Some?
    ensures var p := Decode(RoutedSchema, s).value; SchemaOf(p) == RoutedSchema && InRange(p) && Encode(p) == s
  {
    hide U8, U32, Field, PeerAt, PeerBytes;
    PeerBack(s, 0);
    U32Back(s, 5);
    U32Back(s, 9);
    U8Back(s, 13);
    assert s == s[0..5] + s[5..9] + s[9..13] + s[13..14] + s[14..];
  }

  lemma SmallSchemasAreCanonical(schema: Schema, s: Bytes)
    requires !schema.RoutedSchema? && Decode(schema, s).Some?
    ensures var p := Decode(schema, s).value; SchemaOf(p) == schema && InRange(p) && Encode(p) == s
  {
    hide U8, U32, Field, PeerAt, PeerBytes;
    match schema
    case RequestSchema =>
      U8Back(s, 0);
      U32Back(s, 1);
      assert s == s[0..1] + s[1..5];
    case AcceptedSchema =>
      U32Back(s, 0);
      PeerBack(s, 4);
      assert s == s[0..4] + s[4..9];
    case RejectedSchema =>
      U32Back(s, 0);
      U8Back(s, 4);
      assert s == s[0..4] + s[4..5];
    case HeartbeatSchema =>
      PeerBack(s, 0);
      U32Back(s, 5);
      assert s == s[0..5] + s[5..9];
    case DisconnectSchema =>
      PeerBack(s, 0);
      U32Back(s, 5);
      U8Back(s, 9);
      assert s == s[0..5] + s[5..9] + s[9..10];
  }

  /** Encoding undoes decoding: every byte string a schema accepts is the one encoding of its message. */
  lemma EncodeUndoesDecode(schema: Schema, s: Bytes)
    requires Decode(schema, s).Some?
    ensures var p := Decode(schema, s).value; SchemaOf(p) == schema && InRange(p) && WellFormed(p) && Encode(p) == s
  {
    hide Encode, Field, PeerAt, InRange;
    if schema.RoutedSchema? { RoutedIsCanonical(s); } else { SmallSchemasAreCanonical(schema, s); }
  }

  /** Every valid message fits the message buffer, and its reliable frame fits the largest frame. */
  lemma EveryMessageFits(p: Packet)
    requires InRange(p) && WellFormed(p)
    ensures |Encode(p)| + RELIABLE_ID_BYTES <= MAX_MESSAGE_BYTES
    ensures FRAME_HEADER_BYTES + RELIABLE_ID_BYTES + |Encode(p)| <= MAX_FRAME_BYTES
    ensures p.Routed? && |p.message.payload| == MAX_ROUTED_BYTES ==>
              FRAME_HEADER_BYTES + RELIABLE_ID_BYTES + |Encode(p)| == MAX_FRAME_BYTES
  {
    hide U8, U32, PeerBytes;
    match p
    case ConnectRequest(version, attempt) => Sizes(NO_PEER, attempt, version);
    case ConnectAccepted(attempt, peer) => Sizes(peer, attempt, 0);
    case ConnectRejected(attempt, reason) => Sizes(NO_PEER, attempt, RejectCode(reason));
    case Heartbeat(peer, attempt) => Sizes(peer, attempt, 0);
    case Disconnect(peer, attempt, reason) => Sizes(peer, attempt, DisconnectCode(reason));
    case Routed(peer, m) => Sizes(peer, m.channel, |m.payload|);
  }

  // ------------------------------------------------------------------ the cursor code

  lemma Join(a: Bytes, b: Bytes, c: Bytes)
    ensures (a + b) + c == a + (b + c)
  {
  }

  method WritePeerId(p: PeerId, w: MessageWriter) returns (result: CodecResult)
    requires w.Valid()
    modifies w, w.buffer
    ensures w.Valid() && (result.Written? <==> p.IsValid() && old(w.Remaining()) >= 5)
    ensures result.Written? ==> w.WrittenBytes() == old(w.WrittenBytes()) + PeerBytes(p)
    ensures old(w.WrittenBytes()) <= w.WrittenBytes()
  {
    hide LittleEndian;
    if !p.IsValid() { return Malformed; }
    result := w.WriteUnsigned(p.index, 1);
    if !result.Written? { return BufferFull; }
    result := w.WriteUnsigned(p.generation, 4);
  }

  /** Appends one schema; succeeds exactly for well-formed messages that fit, and never disturbs earlier bytes. */
  method EncodeMessagePayload(p: Packet, w: MessageWriter) returns (result: CodecResult)
    requires w.Valid() && InRange(p)
    modifies w, w.buffer
    ensures w.Valid() && (result.Written? <==> WellFormed(p) && old(w.Remaining()) >= |Encode(p)|)
    ensures result.Written? ==> w.WrittenBytes() == old(w.WrittenBytes()) + Encode(p)
    ensures old(w.WrittenBytes()) <= w.WrittenBytes()
  {
    hide U8, U32, PeerBytes;
    ghost var before := w.WrittenBytes();
    match p
    case ConnectRequest(version, attempt) =>
      Sizes(NO_PEER, attempt, version);
      result := WriteByte(version, w);
      if result.Written? { result := WriteWord(attempt, w); }
      Join(before, U8(version), U32(attempt));
    case ConnectAccepted(attempt, peer) =>
      Sizes(peer, attempt, 0);
      result := WriteWord(attempt, w);
      if result.Written? { result := WritePeerId(peer, w); }
      Join(before, U32(attempt), PeerBytes(peer));
    case ConnectRejected(attempt, reason) =>
      Sizes(NO_PEER, attempt, RejectCode(reason));
      result := WriteWord(attempt, w);
      if !result.Written? { return Malformed; }
      result := WriteByte(RejectCode(reason), w);
      Join(before, U32(attempt), U8(RejectCode(reason)));
    case Heartbeat(peer, attempt) =>
      Sizes(peer, attempt, 0);
      result := WritePeerId(peer, w);
      if !result.Written? { return Malformed; }
      result := WriteWord(attempt, w);
      Join(before, PeerBytes(peer), U32(attempt));
    case Disconnect(peer, attempt, reason) =>
      result := EncodeDisconnect(peer, attempt, reason, w);
    case Routed(peer, message) =>
      result := EncodeRouted(peer, message, w);
  }

  method EncodeDisconnect(peer: PeerId, attempt: nat, reason: DisconnectReason, w: MessageWriter) returns (result: CodecResult)
    requires w.Valid()
    modifies w, w.buffer
    ensures w.Valid() && (result.Written? <==> peer.IsValid() && old(w.Remaining()) >= |Encode(Disconnect(peer, attempt, reason))|)
    ensures result.Written? ==> w.WrittenBytes() == old(w.WrittenBytes()) + Encode(Disconnect(peer, attempt, reason))
    ensures old(w.WrittenBytes()) <= w.WrittenBytes()
  {
    hide U8, U32, PeerBytes;
    ghost var before := w.WrittenBytes();
    Sizes(peer, attempt, DisconnectCode(reason));
    result := WritePeerId(peer, w);
    if !result.Written? { return Malformed; }
    result := WriteWord(attempt, w);
    if !result.Written? { return Malformed; }
    result := WriteByte(DisconnectCode(reason), w);
    Join(before, PeerBytes(peer), U32(attempt));
    Join(before, PeerBytes(peer) + U32(attempt), U8(DisconnectCode(reason)));
  }

  method WriteByte(v: nat, w: MessageWriter) returns (result: CodecResult)
    requires w.Valid()
    modifies w, w.buffer
    ensures w.Valid() && result == if old(w.Remaining()) < 1 then BufferFull else Written
    ensures w.WrittenBytes() == if result.Written? then old(w.WrittenBytes()) + U8(v) else old(w.WrittenBytes())
  {
    result := w.WriteUnsigned(v, 1);
  }

  method WriteWord(v: nat, w: MessageWriter) returns (result: CodecResult)
    requires w.Valid()
    modifies w, w.buffer
    ensures w.Valid() && result == if old(w.Remaining()) < 4 then BufferFull else Written
    ensures w.WrittenBytes() == if result.Written? then old(w.WrittenBytes()) + U32(v) else old(w.WrittenBytes())
  {
    result := w.WriteUnsigned(v, 4);
  }

  method WriteRoutedHeader(peer: PeerId, message: AppMessage, w: MessageWriter) returns (result: CodecResult)
    requires w.Valid()
    modifies w, w.buffer
    ensures w.Valid() && (result.Written? <==> peer.IsValid() && old(w.Remaining()) >= 13)
    ensures result.Written? ==>
              w.WrittenBytes() == old(w.WrittenBytes()) + (PeerBytes(peer) + U32(message.channel) + U32(message.name))
    ensures old(w.WrittenBytes()) <= w.WrittenBytes()
  {
    hide U8, U32, PeerBytes;
    ghost var before := w.WrittenBytes();
    Sizes(peer, message.channel, 0);
    result := WritePeerId(peer, w);
    if !result.Written? { return Malformed; }
    result := WriteWord(message.channel, w);
    if !result.Written? { return Malformed; }
    result := WriteWord(message.name, w);
    Join(before, PeerBytes(peer), U32(message.channel));
    Join(before, PeerBytes(peer) + U32(message.channel), U32(message.name));
  }

  method EncodeRouted(peer: PeerId, message: AppMessage, w: MessageWriter) returns (result: CodecResult)
    requires w.Valid()
    modifies w, w.buffer
    ensures w.Valid()
    ensures result.Written? <==> WellFormed(Routed(peer, message)) && old(w.Remaining()) >= |Encode(Routed(peer, message))|
    ensures result.Written? ==> w.WrittenBytes() == old(w.WrittenBytes()) + Encode(Routed(peer, message))
    ensures old(w.WrittenBytes()) <= w.WrittenBytes()
  {
    hide U8, U32, PeerBytes;
    ghost var before := w.WrittenBytes();
    ghost var header := PeerBytes(peer) + U32(message.channel) + U32(message.name);
    Sizes(peer, message.channel, |message.payload|);
    if !peer.IsValid() || message.channel == INVALID_NAME || message.name == INVALID_NAME
       || |message.payload| > MAX_ROUTED_BYTES {
      return Malformed;
    }
    result := WriteRoutedHeader(peer, message, w);
    if !result.Written? { return Malformed; }
    result := WriteByte(|message.payload|, w);
    if !result.Written? { return Malformed; }
    result := w.WriteBytes(message.payload);
    Join(before, header, U8(|message.payload|));
    Join(before, header + U8(|message.payload|), message.payload);
  }

  method ReadPeerId(r: MessageReader) returns (peer: Option<PeerId>)
    requires r.Valid()
    modifies r
    ensures r.Valid() && (peer.Some? <==> |old(r.Unread())| >= 5 && PeerAt(old(r.Unread()), 0).IsValid())
    ensures peer.Some? ==> peer.value == PeerAt(old(r.Unread()), 0) && r.Unread() == old(r.Unread())[5..]
  {
    hide FromLittleEndian;
    ghost var s := r.Unread();
    var index := r.ReadUnsigned(1);
    if index.None? { return None; }
    var generation := r.ReadUnsigned(4);
    if generation.None? { return None; }
    assert s[1..][..4] == s[1..5];
    var candidate := PeerId(index.value, generation.value);
    peer := if candidate.IsValid() then Some(candidate) else None;
  }

  /** Reads one routed envelope; the payload length is checked before a byte of it is copied. */
  method DecodeRouted(r: MessageReader) returns (packet: Option<Packet>)
    requires r.Valid()
    modifies r
    ensures r.Valid()
    ensures (if packet.Some? && r.Unread() == [] then packet else None) == Decode(RoutedSchema, old(r.Unread()))
  {
    hide FromLittleEndian;
    ghost var s := r.Unread();
    var peer := ReadPeerId(r);
    if peer.None? { return None; }
    var channel := r.ReadUnsigned(4);
    if channel.None? { return None; }
    assert s[5..][..4] == s[5..9] && s[5..][4..] == s[9..];
    var name := r.ReadUnsigned(4);
    if name.None? { return None; }
    assert s[9..][..4] == s[9..13] && s[9..][4..] == s[13..];
    var size := r.ReadUnsigned(1);
    if size.None? { return None; }
    assert s[13..][..1] == s[13..14] && s[13..][1..] == s[14..];
    if channel.value == INVALID_NAME || name.value == INVALID_NAME || size.value > MAX_ROUTED_BYTES { return None; }
    var payload := r.ReadBytes(size.value);
    if payload.None? { return None; }
    packet := Some(Routed(peer.value, AppMessage(channel.value, name.value, payload.value)));
    if r.Unread() == [] { assert payload.value == s[14..]; }
  }

  method DecodeConnectRequest(r: MessageReader) returns (packet: Option<Packet>)
    requires r.Valid()
    modifies r
    ensures r.Valid()
    ensures (if packet.Some? && r.Unread() == [] then packet else None) == Decode(RequestSchema, old(r.Unread()))
  {
    hide FromLittleEndian;
    var version := r.ReadUnsigned(1);
    if version.None? { return None; }
    var attempt := r.ReadUnsigned(4);
    if attempt.None? { return None; }
    packet := Some(ConnectRequest(version.value, attempt.value));
    assert old(r.Unread())[1..][..4] == old(r.Unread())[1..5];
  }

  method DecodeConnectAccepted(r: MessageReader) returns (packet: Option<Packet>)
    requires r.Valid()
    modifies r
    ensures r.Valid()
    ensures (if packet.Some? && r.Unread() == [] then packet else None) == Decode(AcceptedSchema, old(r.Unread()))
  {
    hide FromLittleEndian;
    ghost var s := r.Unread();
    var attempt := r.ReadUnsigned(4);
    if attempt.None? { return None; }
    if |s| >= 9 { PeerShift(s, 4); }
    var peer := ReadPeerId(r);
    if peer.None? { return None; }
    packet := Some(ConnectAccepted(attempt.value, peer.value));
  }

  lemma PeerShift(s: Bytes, k: nat)
    requires k + 5 <= |s|
    ensures PeerAt(s[k..], 0) == PeerAt(s, k)
  {
    assert s[k..][0..1] == s[k..k + 1] && s[k..][1..5] == s[k + 1..k + 5];
  }

  method DecodeConnectRejected(r: MessageReader) returns (packet: Option<Packet>)
    requires r.Valid()
    modifies r
    ensures r.Valid()
    ensures (if packet.Some? && r.Unread() == [] then packet else None) == Decode(RejectedSchema, old(r.Unread()))
  {
    hide FromLittleEndian;
    ghost var s := r.Unread();
    var attempt := r.ReadUnsigned(4);
    if attempt.None? { return None; }
    var code := r.ReadUnsigned(1);
    if code.None? { return None; }
    assert s[4..][..1] == s[4..5] && s[4..][1..] == s[5..];
    if code.value > 1 { return None; }
    packet := Some(ConnectRejected(attempt.value, if code.value == 0 then ProtocolMismatch else RegistryFull));
  }

  method DecodeHeartbeat(r: MessageReader) returns (packet: Option<Packet>)
    requires r.Valid()
    modifies r
    ensures r.Valid()
    ensures (if packet.Some? && r.Unread() == [] then packet else None) == Decode(HeartbeatSchema, old(r.Unread()))
  {
    hide FromLittleEndian;
    ghost var s := r.Unread();
    var peer := ReadPeerId(r);
    if peer.None? { return None; }
    var attempt := r.ReadUnsigned(4);
    if attempt.None? { return None; }
    assert s[5..][..4] == s[5..9] && s[5..][4..] == s[9..];
    packet := Some(Heartbeat(peer.value, attempt.value));
  }

  method DecodeDisconnect(r: MessageReader) returns (packet: Option<Packet>)
    requires r.Valid()
    modifies r
    ensures r.Valid()
    ensures (if packet.Some? && r.Unread() == [] then packet else None) == Decode(DisconnectSchema, old(r.Unread()))
  {
    hide FromLittleEndian;
    ghost var s := r.Unread();
    var peer := ReadPeerId(r);
    if peer.None? { return None; }
    var attempt := r.ReadUnsigned(4);
    if attempt.None? { return None; }
    assert s[5..][..4] == s[5..9] && s[5..][4..] == s[9..];
    var code := r.ReadUnsigned(1);
    if code.None? { return None; }
    assert s[9..][..1] == s[9..10] && s[9..][1..] == s[10..];
    if code.value > 1 { return None; }
    packet := Some(Disconnect(peer.value, attempt.value, if code.value == 0 then Requested else Timeout));
  }

  /** Decodes one payload under the schema its name selects; a byte left over rejects it. */
  method DecodeTypedMessage(schema: Schema, buffer: array<Byte>, size: nat) returns (packet: Option<Packet>)
    requires size <= buffer.Length
    ensures packet == Decode(schema, buffer[..size])
  {
    hide Decode;
    var r := new MessageReader(buffer, size);
    match schema {
      case RequestSchema => packet := DecodeConnectRequest(r);
      case AcceptedSchema => packet := DecodeConnectAccepted(r);
      case RejectedSchema => packet := DecodeConnectRejected(r);
      case HeartbeatSchema => packet := DecodeHeartbeat(r);
      case DisconnectSchema => packet := DecodeDisconnect(r);
      case RoutedSchema => packet := DecodeRouted(r);
    }
    if r.size != r.offset { packet := None; }
  }
}
