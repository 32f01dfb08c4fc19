/**
 The reliable half of `FMessagingSystem` as a pure state machine over wire bytes: frame layout, the eight pending
 slots, retry and abandonment, acknowledgement, and deliver-then-acknowledge. The last fields of Node are history;
 `plain` holds the names ever created without reliability.
 */
module MessagingModel {
  import opened Basics
  import opened WireCodec

  const MAX_LINKS := 4
  const MAX_CHANNELS := 4
  const MAX_PENDING := 8
  const MAX_FRAME_BYTES := 104
  const HEADER_BYTES := 8
  const ID_BYTES := 8
  const INVALID_LINK := 0xFF
  const UNSET_NAME := 0
  /** The 32-bit FNV-1a hash of the reserved acknowledgement name. */
  const ACKNOWLEDGEMENT_NAME := 0x7563_C687

  datatype MessagingResult = Success | Duplicate | Full | NotFound | Invalid | Busy
  datatype TransportResult = Sent | Refused | Unavailable

  /** A registered link and a device address; in the composed system the address is the number of a node. */
  datatype Route = Route(link: nat, address: nat) {
    predicate IsValid() { link != INVALID_LINK }
  }

  datatype Message = Message(name: nat, payload: Bytes)
  datatype Channel = Channel(name: nat, reliable: bool, defaultRoute: Option<Route>)
  datatype Pending = Pending(
    awaiting: bool, channel: nat, route: Route, id: nat, frame: Bytes, attempts: nat, lastAttempt: nat)
  const NO_PENDING := Pending(false, UNSET_NAME, Route(INVALID_LINK, 0), 0, [], 0, 0)

  /** One call into a device; `tracked` is the reliable message it carries, if any. */
  datatype Transmission = Transmission(time: nat, route: Route, frame: Bytes, tracked: Option<nat>)
  datatype Tracked = Tracked(channel: nat, route: Route, message: Message)
  datatype Delivery = Delivery(sender: Option<Route>, channel: nat, message: Message, id: Option<nat>)

  datatype Node = Node(
    retryInterval: nat,
    maxAttempts: nat,
    links: seq<Option<nat>>,
    channels: seq<Channel>,
    pending: seq<Pending>,
    nextId: nat,
    now: nat,
    abandoned: nat,
    dropped: nat,
    wire: seq<Transmission>,
    tracked: seq<Tracked>,
    delivered: seq<Delivery>,
    acknowledged: seq<nat>,
    cancelled: nat,
    plain: set<nat>)

  function Boot(retryInterval: nat, maxAttempts: nat): Node {
    Node(retryInterval, maxAttempts, seq(MAX_LINKS, _ => None), [], seq(MAX_PENDING, _ => NO_PENDING), 0, 0, 0, 0,
         [], [], [], [], 0, {})
  }

  // ------------------------------------------------------------------ frames

  function Header(channel: nat, name: nat): Bytes { LittleEndian(channel, 4) + LittleEndian(name, 4) }

  function DataFrame(channel: nat, m: Message): Bytes { Header(channel, m.name) + m.payload }

  function ReliableFrame(channel: nat, m: Message, id: nat): Bytes {
    Header(channel, m.name) + LittleEndian(id, ID_BYTES) + m.payload
  }

  function AcknowledgementFrame(channel: nat, id: nat): Bytes {
    Header(channel, ACKNOWLEDGEMENT_NAME) + LittleEndian(id, ID_BYTES)
  }

  function ChannelOf(frame: Bytes): nat
    requires |frame| >= HEADER_BYTES
  {
    FromLittleEndian(frame[0..4])
  }

  function NameOf(frame: Bytes): nat
    requires |frame| >= HEADER_BYTES
  {
    FromLittleEndian(frame[4..8])
  }

  function IdOf(frame: Bytes): nat
    requires |frame| >= HEADER_BYTES + ID_BYTES
  {
    FromLittleEndian(frame[8..16])
  }

  // ------------------------------------------------------------------ tables

  /** The channel with this name, or the table size. */
  function FindChannel(channels: seq<Channel>, name: nat, i: nat): (r: nat)
    requires i <= |channels|
    ensures i <= r <= |channels| && (r < |channels| ==> channels[r].name == name)
    ensures forall k :: i <= k < r ==> channels[k].name != name
    decreases |channels| - i
  {
    if i == |channels| || channels[i].name == name then i else FindChannel(channels, name, i + 1)
  }

  predicate HasChannel(n: Node, name: nat) { FindChannel(n.channels, name, 0) < |n.channels| }

  function Device(n: Node, link: nat): Option<nat> {
    if link == INVALID_LINK || link >= |n.links| then None else n.links[link]
  }

  function FindFree(pending: seq<Pending>, i: nat): (r: nat)
    requires i <= |pending|
    ensures i <= r <= |pending| && (r < |pending| ==> !pending[r].awaiting)
    ensures forall k :: i <= k < r ==> pending[k].awaiting
    decreases |pending| - i
  {
    if i == |pending| || !pending[i].awaiting then i else FindFree(pending, i + 1)
  }

  predicate Matches(p: Pending, channel: nat, route: Route, id: nat) {
    p.awaiting && p.channel == channel && p.route == route && p.id == id
  }

  function FindPending(pending: seq<Pending>, channel: nat, route: Route, id: nat, i: nat): (r: nat)
    requires i <= |pending|
    ensures i <= r <= |pending| && (r < |pending| ==> Matches(pending[r], channel, route, id))
    ensures forall k :: i <= k < r ==> !Matches(pending[k], channel, route, id)
    decreases |pending| - i
  {
    if i == |pending| || Matches(pending[i], channel, route, id) then i else FindPending(pending, channel, route, id, i + 1)
  }

  function IsAwaiting(): Pending -> bool { (p: Pending) => p.awaiting }

  function CountAwaiting(pending: seq<Pending>): nat { Count(pending, IsAwaiting()) }

  // ------------------------------------------------------------------ links and channels

  function RegisterLink(n: Node, maxPacket: nat, i: nat): (Node, MessagingResult)
    requires i <= |n.links|
    decreases |n.links| - i
  {
    if i == |n.links| then (n, Full)
    else if n.links[i].None? then (n.(links := n.links[i := Some(maxPacket)]), Success)
    else RegisterLink(n, maxPacket, i + 1)
  }

  /** A default route, when there is one, names a link that is already registered. */
  function CreateChannel(n: Node, c: Channel): (Node, MessagingResult) {
    if c.name == UNSET_NAME then (n, Invalid)
    else if HasChannel(n, c.name) then (n, Duplicate)
    else if |n.channels| >= MAX_CHANNELS then (n, Full)
    else (n.(channels := n.channels + [c], plain := if c.reliable then n.plain else n.plain + {c.name}), Success)
  }

  /** `subscribed` says whether a live subscription still uses the channel. */
  function DestroyChannel(n: Node, name: nat, subscribed: bool): (Node, MessagingResult) {
    var i := FindChannel(n.channels, name, 0);
    if i == |n.channels| then (n, NotFound)
    else if subscribed then (n, Busy)
    else if exists k :: 0 <= k < |n.pending| && n.pending[k].awaiting && n.pending[k].channel == name then (n, Busy)
    else (n.(channels := n.channels[..i] + n.channels[i + 1..]), Success)
  }

  function Release(pending: seq<Pending>, i: nat): seq<Pending>
    requires i < |pending|
  {
    pending[i := pending[i].(awaiting := false)]
  }

  /** Releases the first `k` slots that belong to the channel. */
  function CancelUpTo(n: Node, name: nat, k: nat): (r: Node)
    requires k <= |n.pending|
    ensures |r.pending| == |n.pending|
  {
    if k == 0 then n
    else
      var m := CancelUpTo(n, name, k - 1);
      if m.pending[k - 1].awaiting && m.pending[k - 1].channel == name then
        m.(pending := Release(m.pending, k - 1), cancelled := m.cancelled + 1)
      else m
  }

  function CancelReliable(n: Node, name: nat): (Node, MessagingResult) {
    if !HasChannel(n, name) then (n, NotFound) else (CancelUpTo(n, name, |n.pending|), Success)
  }

  // ------------------------------------------------------------------ sending

  function MapTransport(t: TransportResult): MessagingResult {
    match t case Sent => Success case Refused => Full case Unavailable => Invalid
  }

  predicate IsApplicationMessage(m: Message) { m.name != UNSET_NAME && m.name != ACKNOWLEDGEMENT_NAME }

  function Transmit(n: Node, route: Route, frame: Bytes, tracked: Option<nat>): Node {
    n.(wire := n.wire + [Transmission(n.now, route, frame, tracked)])
  }

  function Track(n: Node, i: nat, channel: nat, route: Route, m: Message, frame: Bytes): Node
    requires i < |n.pending|
  {
    n.(pending := n.pending[i := Pending(true, channel, route, n.nextId, frame, 1, n.now)],
       nextId := n.nextId + 1, tracked := n.tracked + [Tracked(channel, route, m)])
  }

  function SendToRoute(n: Node, m: Message, c: Channel, route: Route, t: TransportResult): (Node, MessagingResult) {
    var device := Device(n, route.link);
    var size := HEADER_BYTES + (if c.reliable then ID_BYTES else 0) + |m.payload|;
    if device.None? then (n, Invalid)
    else if size > MAX_FRAME_BYTES || size > device.value then (n, Full)
    else if !c.reliable then (Transmit(n, route, DataFrame(c.name, m), None), MapTransport(t))
    else if n.nextId == UINT64_MAX then (n, Full)
    else
      var i := FindFree(n.pending, 0);
      if i == |n.pending| then (n, Full)
      else
        var frame := ReliableFrame(c.name, m, n.nextId);
        (Track(Transmit(n, route, frame, Some(n.nextId)), i, c.name, route, m, frame), MapTransport(t))
  }

  function SendToRemoteChannel(n: Node, m: Message, name: nat, route: Route, t: TransportResult): (Node, MessagingResult) {
    if !IsApplicationMessage(m) || !route.IsValid() then (n, Invalid)
    else
      var i := FindChannel(n.channels, name, 0);
      if i == |n.channels| then (n, NotFound) else SendToRoute(n, m, n.channels[i], route, t)
  }

  function Deliver(n: Node, sender: Option<Route>, channel: nat, m: Message, id: Option<nat>): Node {
    n.(delivered := n.delivered + [Delivery(sender, channel, m, id)])
  }

  function DeliverLocally(n: Node, m: Message, name: nat): (Node, MessagingResult) {
    if !IsApplicationMessage(m) then (n, Invalid)
    else if !HasChannel(n, name) then (n, NotFound)
    else (Deliver(n, None, name, m, None), Success)
  }

  /** Local delivery first, then one frame along the channel's default route when it has one. */
  function SendToChannel(n: Node, m: Message, name: nat, t: TransportResult): (Node, MessagingResult) {
    var (d, r) := DeliverLocally(n, m, name);
    if r != Success then (n, r)
    else
      var c := n.channels[FindChannel(n.channels, name, 0)];
      if c.defaultRoute.None? then (d, Success) else SendToRoute(d, m, c, c.defaultRoute.value, t)
  }

  // ------------------------------------------------------------------ receiving

  function Drop(n: Node): Node { n.(dropped := n.dropped + 1) }

  function ReceiveAcknowledgement(n: Node, sender: Route, frame: Bytes): Node
    requires |frame| >= HEADER_BYTES
  {
    if |frame| != HEADER_BYTES + ID_BYTES then Drop(n)
    else
      var i := FindPending(n.pending, ChannelOf(frame), sender, IdOf(frame), 0);
      if i == |n.pending| then n else n.(pending := Release(n.pending, i), acknowledged := n.acknowledged + [n.pending[i].id])
  }

  function SendAcknowledgement(n: Node, channel: nat, route: Route, id: nat): Node {
    if Device(n, route.link).None? then n else Transmit(n, route, AcknowledgementFrame(channel, id), None)
  }

  function ReceiveReliable(n: Node, sender: Route, frame: Bytes): Node
    requires |frame| >= HEADER_BYTES
  {
    if |frame| < HEADER_BYTES + ID_BYTES then Drop(n)
    else
      var m := Deliver(n, Some(sender), ChannelOf(frame), Message(NameOf(frame), frame[16..]), Some(IdOf(frame)));
      SendAcknowledgement(m, ChannelOf(frame), sender, IdOf(frame))
  }

  function ReceiveFrame(n: Node, sender: Route, frame: Bytes): Node {
    if |frame| < HEADER_BYTES then Drop(n)
    else
      var i := FindChannel(n.channels, ChannelOf(frame), 0);
      if i == |n.channels| then Drop(n)
      else if NameOf(frame) == ACKNOWLEDGEMENT_NAME then ReceiveAcknowledgement(n, sender, frame)
      else if n.channels[i].reliable then ReceiveReliable(n, sender, frame)
      else Deliver(n, Some(sender), ChannelOf(frame), Message(NameOf(frame), frame[8..]), None)
  }

  // ------------------------------------------------------------------ time

  predicate Due(n: Node, p: Pending) { p.awaiting && p.lastAttempt <= n.now && n.now - p.lastAttempt >= n.retryInterval }

  function ProcessPending(n: Node, i: nat): (r: Node)
    requires i < |n.pending|
    ensures |r.pending| == |n.pending|
  {
    var p := n.pending[i];
    if !Due(n, p) then n
    else if p.attempts >= n.maxAttempts || Device(n, p.route.link).None? then
      n.(pending := Release(n.pending, i), abandoned := n.abandoned + 1)
    else
      Transmit(n, p.route, p.frame, Some(p.id))
        .(pending := n.pending[i := p.(attempts := p.attempts + 1, lastAttempt := n.now)])
  }

  function ProcessUpTo(n: Node, k: nat): (r: Node)
    requires k <= |n.pending|
    ensures |r.pending| == |n.pending|
  {
    if k == 0 then n else ProcessPending(ProcessUpTo(n, k - 1), k - 1)
  }

  /** Inbound frames are delivered by separate events while this time is current. */
  function PreAdvance(n: Node, now: nat): Node { n.(now := now) }

  function PostAdvance(n: Node, now: nat): Node { ProcessUpTo(n.(now := now), |n.pending|) }
}
