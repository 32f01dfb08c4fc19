/**
 The reliable core of `FMessagingSystem` over fixed tables and byte buffers. Every method performs exactly one
 transition of MessagingModel, so the delivery theorems hold of any set of these objects on a non-forging network.
 */
module MessagingSystem {
  import opened Basics
  import opened WireCodec
  import opened MessagingModel

  class MessagingSystem {
    const retryInterval: nat
    const maxAttempts: nat
    const links: array<Option<nat>>
    const pending: array<Pending>
    var channels: seq<Channel>
    var nextId: nat
    var now: nat
    var abandoned: nat
    var dropped: nat
    var wire: seq<Transmission>
    ghost var tracked: seq<Tracked>
    ghost var delivered: seq<Delivery>
    ghost var acknowledged: seq<nat>
    ghost var cancelled: nat
    ghost var plain: set<nat>

    ghost function Model(): Node
      reads this, links, pending
    {
      Node(retryInterval, maxAttempts, links[..], channels, pending[..], nextId, now, abandoned, dropped,
           wire, tracked, delivered, acknowledged, cancelled, plain)
    }

    constructor (retryInterval: nat, maxAttempts: nat)
      ensures Model() == Boot(retryInterval, maxAttempts) && fresh(links) && fresh(pending)
    {
      this.retryInterval, this.maxAttempts := retryInterval, maxAttempts;
      links := new Option<nat>[MAX_LINKS](_ => None);
      pending := new Pending[MAX_PENDING](_ => NO_PENDING);
      channels, nextId, now, abandoned, dropped, wire := [], 0, 0, 0, 0, [];
      tracked, delivered, acknowledged, cancelled, plain := [], [], [], 0, {};
      new;
      assert links[..] == seq(MAX_LINKS, _ => None) && pending[..] == seq(MAX_PENDING, _ => NO_PENDING);
    }

    // ---------------------------------------------------------------- lookups

    method FindChannel(name: nat) returns (r: nat)
      ensures r == MessagingModel.FindChannel(channels, name, 0)
    {
      r := 0;
      while r < |channels|
        invariant r <= |channels|
        invariant MessagingModel.FindChannel(channels, name, 0) == MessagingModel.FindChannel(channels, name, r)
      {
        if channels[r].name == name { return; }
        r := r + 1;
      }
    }

    method FindFreeReliablePendingMessage() returns (r: nat)
      ensures r == FindFree(pending[..], 0)
    {
      r := 0;
      while r < pending.Length
        invariant r <= pending.Length && FindFree(pending[..], 0) == FindFree(pending[..], r)
      {
        if !pending[r].awaiting { return; }
        r := r + 1;
      }
    }

    method FindReliablePendingMessage(channel: nat, route: Route, id: nat) returns (r: nat)
      ensures r == FindPending(pending[..], channel, route, id, 0)
    {
      r := 0;
      while r < pending.Length
        invariant r <= pending.Length
        invariant FindPending(pending[..], channel, route, id, 0) == FindPending(pending[..], channel, route, id, r)
      {
        if Matches(pending[r], channel, route, id) { return; }
        r := r + 1;
      }
    }

    function FindLinkDevice(link: nat): (r: Option<nat>)
      reads this, links, pending
      ensures r == Device(Model(), link)
    {
      if link == INVALID_LINK || link >= links.Length then None else links[link]
    }

    // ---------------------------------------------------------------- frames

    /** Lays out a frame in one stack buffer, byte by byte as it goes on the wire. */
    method BuildFrame(channel: nat, m: Message, id: Option<nat>) returns (frame: Bytes)
      requires HEADER_BYTES + (if id.Some? then ID_BYTES else 0) + |m.payload| <= MAX_FRAME_BYTES
      ensures frame == if id.Some? then ReliableFrame(channel, m, id.value) else DataFrame(channel, m)
    {
      hide LittleEndian;
      var buffer := new Byte[MAX_FRAME_BYTES](_ => 0);
      WriteUnsignedLittleEndian(channel, buffer, 0, 4);
      WriteUnsignedLittleEndian(m.name, buffer, 4, 4);
      var size := HEADER_BYTES;
      assert buffer[..8] == Header(channel, m.name);
      if id.Some? {
        WriteUnsignedLittleEndian(id.value, buffer, size, ID_BYTES);
        size := size + ID_BYTES;
        assert buffer[..16] == Header(channel, m.name) + LittleEndian(id.value, ID_BYTES);
      }
      ghost var head := buffer[..size];
      for i := 0 to |m.payload|
        invariant buffer[..size] == head
        invariant forall k :: 0 <= k < i ==> buffer[size + k] == m.payload[k]
      {
        buffer[size + i] := m.payload[i];
      }
      frame := buffer[..size + |m.payload|];
      assert frame == head + m.payload;
    }

    method TrySend(route: Route, frame: Bytes, id: Option<nat>)
      modifies this`wire
      ensures Model() == Transmit(old(Model()), route, frame, id)
    {
      wire := wire + [Transmission(now, route, frame, id)];
    }

    // ---------------------------------------------------------------- links and channels

    method RegisterLink(maxPacket: nat) returns (result: MessagingResult)
      modifies links
      ensures (Model(), result) == MessagingModel.RegisterLink(old(Model()), maxPacket, 0)
    {
      var i := 0;
      while i < links.Length
        invariant i <= links.Length && links[..] == old(links[..])
        invariant MessagingModel.RegisterLink(Model(), maxPacket, 0) == MessagingModel.RegisterLink(Model(), maxPacket, i)
      {
        if links[i].None? {
          links[i] := Some(maxPacket);
          assert links[..] == old(links[..])[i := Some(maxPacket)];
          return Success;
        }
        i := i + 1;
      }
      result := Full;
    }

    method CreateChannel(c: Channel) returns (result: MessagingResult)
      modifies this`channels, this`plain
      ensures (Model(), result) == MessagingModel.CreateChannel(old(Model()), c)
    {
      if c.name == UNSET_NAME { return Invalid; }
      var i := FindChannel(c.name);
      if i < |channels| { return Duplicate; }
      if |channels| >= MAX_CHANNELS { return Full; }
      channels := channels + [c];
      plain := if c.reliable then plain else plain + {c.name};
      result := Success;
    }

    method DestroyChannel(name: nat, subscribed: bool) returns (result: MessagingResult)
      modifies this`channels
      ensures (Model(), result) == MessagingModel.DestroyChannel(old(Model()), name, subscribed)
    {
      var i := FindChannel(name);
      if i == |channels| { return NotFound; }
      if subscribed { return Busy; }
      for k := 0 to pending.Length
        modifies {}
        invariant forall j :: 0 <= j < k ==> !(pending[j].awaiting && pending[j].channel == name)
      {
        if pending[k].awaiting && pending[k].channel == name { return Busy; }
      }
      channels := channels[..i] + channels[i + 1..];
      result := Success;
    }

    method CancelReliableMessagesForChannel(name: nat) returns (result: MessagingResult)
      modifies this`cancelled, pending
      ensures (Model(), result) == CancelReliable(old(Model()), name)
    {
      var found := FindChannel(name);
      if found == |channels| { return NotFound; }
      for i := 0 to pending.Length
        invariant Model() == CancelUpTo(old(Model()), name, i)
      {
        if pending[i].awaiting && pending[i].channel == name {
          pending[i] := pending[i].(awaiting := false);
          cancelled := cancelled + 1;
        }
      }
      result := Success;
    }

    // ---------------------------------------------------------------- sending

    method TrackReliableMessage(i: nat, channel: nat, route: Route, m: Message, frame: Bytes)
      requires i < pending.Length
      modifies this`nextId, this`tracked, pending
      ensures Model() == Track(old(Model()), i, channel, route, m, frame)
    {
      pending[i] := Pending(true, channel, route, nextId, frame, 1, now);
      nextId := nextId + 1;
      tracked := tracked + [Tracked(channel, route, m)];
    }

    method SendMessageToRoute(m: Message, c: Channel, route: Route, t: TransportResult) returns (result: MessagingResult)
      modifies this, pending
      ensures (Model(), result) == SendToRoute(old(Model()), m, c, route, t)
    {
      hide Track, ReliableFrame, DataFrame;
      var device := FindLinkDevice(route.link);
      if device.None? { return Invalid; }
      var size := HEADER_BYTES + (if c.reliable then ID_BYTES else 0) + |m.payload|;
      if size > MAX_FRAME_BYTES || size > device.value { return Full; }
      if !c.reliable {
        var frame := BuildFrame(c.name, m, None);
        TrySend(route, frame, None);
        return MapTransport(t);
      }
      if nextId == UINT64_MAX { return Full; }
      var i := FindFreeReliablePendingMessage();
      if i == pending.Length { return Full; }
      var frame := BuildFrame(c.name, m, Some(nextId));
      TrySend(route, frame, Some(nextId));
      TrackReliableMessage(i, c.name, route, m, frame);
      result := MapTransport(t);
    }

    method SendMessageToRemoteChannel(m: Message, name: nat, route: Route, t: TransportResult) returns (result: MessagingResult)
      modifies this, pending
      ensures (Model(), result) == SendToRemoteChannel(old(Model()), m, name, route, t)
    {
      hide SendToRoute;
      if !IsApplicationMessage(m) || !route.IsValid() { return Invalid; }
      var i := FindChannel(name);
      if i == |channels| { return NotFound; }
      result := SendMessageToRoute(m, channels[i], route, t);
    }

    method DeliverToMatchingSubscribers(sender: Option<Route>, channel: nat, m: Message, ghost id: Option<nat>)
      modifies this`delivered
      ensures Model() == Deliver(old(Model()), sender, channel, m, id)
    {
      delivered := delivered + [Delivery(sender, channel, m, id)];
    }

    method DeliverMessageLocally(m: Message, name: nat) returns (result: MessagingResult)
      modifies this`delivered
      ensures (Model(), result) == DeliverLocally(old(Model()), m, name)
    {
      if !IsApplicationMessage(m) { return Invalid; }
      var i := FindChannel(name);
      if i == |channels| { return NotFound; }
      DeliverToMatchingSubscribers(None, name, m, None);
      result := Success;
    }

    method SendMessageToChannel(m: Message, name: nat, t: TransportResult) returns (result: MessagingResult)
      modifies this, pending
      ensures (Model(), result) == SendToChannel(old(Model()), m, name, t)
    {
      hide SendToRoute;
      result := DeliverMessageLocally(m, name);
      if result != Success { return; }
      var i := FindChannel(name);
      if channels[i].defaultRoute.None? { return Success; }
      result := SendMessageToRoute(m, channels[i], channels[i].defaultRoute.value, t);
    }

    // ---------------------------------------------------------------- receiving

    method ProcessReceivedFrame(sender: Route, buffer: array<Byte>, size: nat)
      requires size <= buffer.Length
      modifies this, pending
      ensures Model() == ReceiveFrame(old(Model()), sender, buffer[..size])
    {
      hide FromLittleEndian, ReceiveAcknowledgement, ReceiveReliable;
      if size < HEADER_BYTES {
        dropped := dropped + 1;
        return;
      }
      ghost var frame := buffer[..size];
      assert buffer[0..4] == frame[0..4] && buffer[4..8] == frame[4..8];
      var channel := ReadUnsignedLittleEndian(buffer, 0, 4);
      var i := FindChannel(channel);
      if i == |channels| {
        dropped := dropped + 1;
        return;
      }
      var name := ReadUnsignedLittleEndian(buffer, 4, 4);
      if name == ACKNOWLEDGEMENT_NAME {
        ProcessAcknowledgement(channel, sender, buffer, size);
      } else if channels[i].reliable {
        ProcessReliableMessage(channel, name, sender, buffer, size);
      } else {
        DeliverToMatchingSubscribers(Some(sender), channel, Message(name, buffer[8..size]), None);
      }
    }

    method ProcessAcknowledgement(channel: nat, sender: Route, buffer: array<Byte>, size: nat)
      requires HEADER_BYTES <= size <= buffer.Length && channel == ChannelOf(buffer[..size])
      modifies this, pending
      ensures Model() == ReceiveAcknowledgement(old(Model()), sender, buffer[..size])
    {
      hide FromLittleEndian;
      if size - HEADER_BYTES != ID_BYTES {
        dropped := dropped + 1;
        return;
      }
      var id := ReadUnsignedLittleEndian(buffer, HEADER_BYTES, ID_BYTES);
      assert buffer[8..16] == buffer[..size][8..16];
      var i := FindReliablePendingMessage(channel, sender, id);
      if i < pending.Length {
        acknowledged := acknowledged + [pending[i].id];
        pending[i] := pending[i].(awaiting := false);
      }
    }

    method ProcessReliableMessage(channel: nat, name: nat, sender: Route, buffer: array<Byte>, size: nat)
      requires HEADER_BYTES <= size <= buffer.Length
      requires channel == ChannelOf(buffer[..size]) && name == NameOf(buffer[..size])
      modifies this
      ensures Model() == ReceiveReliable(old(Model()), sender, buffer[..size])
    {
      hide FromLittleEndian, AcknowledgementFrame;
      if size - HEADER_BYTES < ID_BYTES {
        dropped := dropped + 1;
        return;
      }
      var id := ReadUnsignedLittleEndian(buffer, HEADER_BYTES, ID_BYTES);
      assert buffer[8..16] == buffer[..size][8..16] && buffer[16..size] == buffer[..size][16..];
      DeliverToMatchingSubscribers(Some(sender), channel, Message(name, buffer[16..size]), Some(id));
      var device := FindLinkDevice(sender.link);
      if device.None? { return; }
      var frame := BuildFrame(channel, Message(ACKNOWLEDGEMENT_NAME, []), Some(id));
      AcknowledgementIsReliableFrame(channel, id);
      TrySend(sender, frame, None);
    }

    lemma AcknowledgementIsReliableFrame(channel: nat, id: nat)
      ensures ReliableFrame(channel, Message(ACKNOWLEDGEMENT_NAME, []), id) == AcknowledgementFrame(channel, id)
    {
      hide LittleEndian, Header;
    }

    // ---------------------------------------------------------------- time

    method PreAdvance(at: nat)
      modifies this`now
      ensures Model() == MessagingModel.PreAdvance(old(Model()), at)
    {
      now := at;
    }

    method ProcessReliablePendingMessage(i: nat)
      requires i < pending.Length
      modifies this`abandoned, this`wire, pending
      ensures Model() == ProcessPending(old(Model()), i)
    {
      var p := pending[i];
      if !p.awaiting || now < p.lastAttempt { return; }
      if now - p.lastAttempt < retryInterval { return; }
      var device := FindLinkDevice(p.route.link);
      if p.attempts >= maxAttempts || device.None? {
        pending[i] := p.(awaiting := false);
        abandoned := abandoned + 1;
        return;
      }
      TrySend(p.route, p.frame, Some(p.id));
      pending[i] := p.(attempts := p.attempts + 1, lastAttempt := now);
    }

    method PostAdvance(at: nat)
      modifies this`now, this`abandoned, this`wire, pending
      ensures Model() == MessagingModel.PostAdvance(old(Model()), at)
    {
      hide ProcessPending;
      now := at;
      ghost var start := Model();
      for i := 0 to pending.Length
        invariant Model() == ProcessUpTo(start, i)
      {
        ProcessReliablePendingMessage(i);
      }
    }
  }
}
