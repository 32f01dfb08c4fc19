/**
 `FNetworkSystem` as a pure state machine: one node, its handlers and its caller-driven operations. Every frame a
 node hands to Messaging is appended to `out`; delivery is somebody else's choice (SessionProofs), so a send that
 Messaging refuses is simply a frame nobody ever delivers. The logs at the end of Node are history only.
 */
module SessionModel {
  import opened Basics

  const MAX_PEERS := 4
  const INVALID_INDEX := 0xFF
  const INVALID_NAME := 0
  const MAX_ROUTED_BYTES := 74
  const CLOCK := 0x1_0000_0000_0000_0000

  datatype Role = Client | Server
  datatype ConnectionState = Disconnected | Connecting | Connected
  datatype RejectReason = ProtocolMismatch | RegistryFull
  datatype DisconnectReason = Requested | Timeout
  datatype NetworkResult = Success | Partial | NotConnected | WrongRole | Invalid | Full | Exhausted
  datatype SendResult = SendSuccess | SendFull | SendInvalid

  datatype PeerId = PeerId(index: nat, generation: nat) {
    predicate IsValid() { index != INVALID_INDEX }
  }
  const NO_PEER := PeerId(INVALID_INDEX, 0)

  /** A registered link and address; in the composed system, the number of the node behind them. */
  datatype Route = NoRoute | To(node: nat)

  datatype AppMessage = AppMessage(channel: nat, name: nat, payload: seq<Byte>)

  datatype Packet =
    | ConnectRequest(version: nat, attempt: nat)
    | ConnectAccepted(attempt: nat, peer: PeerId)
    | ConnectRejected(attempt: nat, reject: RejectReason)
    | Heartbeat(peer: PeerId, attempt: nat)
    | Disconnect(peer: PeerId, attempt: nat, reason: DisconnectReason)
    | Routed(peer: PeerId, message: AppMessage)

  datatype Envelope = Envelope(to: Route, packet: Packet)

  datatype PeerSlot = PeerSlot(
    occupied: bool, retired: bool, peer: PeerId, route: Route, attempt: nat, lastActivity: nat, lastHeartbeat: nat)
  const EMPTY_PEER_SLOT := PeerSlot(false, false, NO_PEER, NoRoute, 0, 0, 0)

  datatype ChannelTraits = ChannelTraits(reliable: bool, hasDefaultRoute: bool)

  /** Immutable policy, with the application channels of the Messaging system below. */
  datatype Policy = Policy(
    role: Role, version: nat, heartbeatInterval: nat, peerTimeout: nat, initialRoute: Route, maximumPeers: nat,
    channels: map<nat, ChannelTraits>, bestEffortWire: nat, reliableWire: nat, acknowledgementName: nat)

  datatype Admission = Admission(peer: PeerId, route: Route, attempt: nat)
  datatype Sent = Sent(to: Route, peer: PeerId, message: AppMessage)
  datatype Published = Published(sender: Route, peer: PeerId, message: AppMessage)

  datatype Node = Node(
    policy: Policy,
    initialized: bool,
    slots: seq<PeerSlot>,
    serverRoute: Route,
    serverPeer: PeerId,
    state: ConnectionState,
    attempt: nat,
    lastClientSend: nat,
    lastServerActivity: nat,
    now: nat,
    out: seq<Envelope>,
    admissions: seq<Admission>,
    retirements: seq<PeerId>,
    sent: seq<Sent>,
    published: seq<Published>)

  function Boot(policy: Policy): Node {
    Node(policy, false, seq(MAX_PEERS, _ => EMPTY_PEER_SLOT), NoRoute, NO_PEER, Disconnected, 0, 0, 0, 0, [], [], [], [], [])
  }

  predicate PolicyAccepted(p: Policy) {
    p.heartbeatInterval != 0 && p.heartbeatInterval < p.peerTimeout && 0 < p.maximumPeers <= MAX_PEERS
  }

  /** Milliseconds between two readings of the 64-bit clock. */
  function Elapsed(now: nat, last: nat): nat { (now - last) % CLOCK }

  function Mapped(r: SendResult): NetworkResult {
    match r case SendSuccess => NetworkResult.Success case SendFull => NetworkResult.Full case SendInvalid => Invalid
  }

  function Emit(n: Node, to: Route, packet: Packet): Node { n.(out := n.out + [Envelope(to, packet)]) }

  // ------------------------------------------------------------------ the peer registry

  predicate Live(n: Node, p: PeerId) {
    p.IsValid() && p.index < |n.slots| && n.slots[p.index].occupied && n.slots[p.index].peer == p
  }

  /** The first slot at or after `i` that is occupied from this route, or the table size. */
  function FindByRoute(slots: seq<PeerSlot>, route: Route, i: nat): (r: nat)
    requires i <= |slots|
    ensures i <= r <= |slots| && (r < |slots| ==> slots[r].occupied && slots[r].route == route)
    ensures forall k :: i <= k < r ==> !(slots[k].occupied && slots[k].route == route)
    decreases |slots| - i
  {
    if i == |slots| || (slots[i].occupied && slots[i].route == route) then i else FindByRoute(slots, route, i + 1)
  }

  function FindFree(slots: seq<PeerSlot>, i: nat): (r: nat)
    requires i <= |slots|
    ensures i <= r <= |slots| && (r < |slots| ==> !slots[r].occupied && !slots[r].retired)
    ensures forall k :: i <= k < r ==> slots[k].occupied || slots[k].retired
    decreases |slots| - i
  {
    if i == |slots| || (!slots[i].occupied && !slots[i].retired) then i else FindFree(slots, i + 1)
  }

  function IsOccupied(): PeerSlot -> bool { (s: PeerSlot) => s.occupied }

  function CountAdmitted(slots: seq<PeerSlot>): nat { Count(slots, IsOccupied()) }

  /** The slot a request from this route uses, or the table size when there is none. */
  function FindAdmissionSlot(n: Node, route: Route): (r: nat)
    ensures r <= |n.slots|
  {
    var known := FindByRoute(n.slots, route, 0);
    if known < |n.slots| then known
    else if CountAdmitted(n.slots) >= n.policy.maximumPeers then |n.slots|
    else FindFree(n.slots, 0)
  }

  function RetiredSlot(s: PeerSlot): PeerSlot {
    if s.peer.generation == UINT32_MAX then s.(occupied := false, route := NoRoute, attempt := 0, retired := true)
    else s.(occupied := false, route := NoRoute, attempt := 0, peer := PeerId(s.peer.index, s.peer.generation + 1))
  }

  function RetirePeer(n: Node, i: nat): Node
    requires i < |n.slots|
  {
    n.(slots := n.slots[i := RetiredSlot(n.slots[i])], retirements := n.retirements + [n.slots[i].peer])
  }

  function Admit(n: Node, i: nat, sender: Route, attempt: nat): Node
    requires i < |n.slots|
  {
    var g := n.slots[i].peer.generation;
    var p := PeerId(i, if g == 0 then 1 else g);
    var m := n.(slots := n.slots[i := PeerSlot(true, n.slots[i].retired, p, sender, attempt, n.now, n.now)],
                admissions := n.admissions + [Admission(p, sender, attempt)]);
    Emit(m, sender, ConnectAccepted(attempt, p))
  }

  function RetireServer(n: Node): Node {
    if n.state.Disconnected? && !n.serverPeer.IsValid() then n
    else n.(serverRoute := NoRoute, serverPeer := NO_PEER, state := Disconnected)
  }

  // ------------------------------------------------------------------ inbound packets

  function HandleConnectRequest(n: Node, sender: Route, version: nat, attempt: nat): Node {
    if !n.policy.role.Server? || sender.NoRoute? then n
    else if version != n.policy.version then Emit(n, sender, ConnectRejected(attempt, ProtocolMismatch))
    else
      var i := FindAdmissionSlot(n, sender);
      if i == |n.slots| then Emit(n, sender, ConnectRejected(attempt, RegistryFull))
      else if n.slots[i].occupied && attempt < n.slots[i].attempt then n
      else if n.slots[i].occupied && attempt == n.slots[i].attempt then
        Emit(n, n.slots[i].route, ConnectAccepted(attempt, n.slots[i].peer))
      else
        var m := if n.slots[i].occupied then RetirePeer(n, i) else n;
        if m.slots[i].retired then Emit(m, sender, ConnectRejected(attempt, RegistryFull))
        else Admit(m, i, sender, attempt)
  }

  function HandleConnectAccepted(n: Node, sender: Route, attempt: nat, peer: PeerId): Node {
    if !n.policy.role.Client? || !n.state.Connecting? || sender != n.serverRoute then n
    else if attempt != n.attempt || !peer.IsValid() then n
    else n.(serverPeer := peer, state := Connected, lastClientSend := n.now, lastServerActivity := n.now)
  }

  function HandleConnectRejected(n: Node, sender: Route, attempt: nat, reject: RejectReason): Node {
    if !n.policy.role.Client? || !n.state.Connecting? || sender != n.serverRoute then n
    else if attempt == n.attempt && !reject.RegistryFull? then RetireServer(n)
    else n
  }

  predicate FromServer(n: Node, sender: Route, peer: PeerId) {
    n.state.Connected? && sender == n.serverRoute && peer == n.serverPeer
  }

  function HandleHeartbeat(n: Node, sender: Route, peer: PeerId, attempt: nat): Node {
    if n.policy.role.Client? then
      if FromServer(n, sender, peer) && attempt == n.attempt then n.(lastServerActivity := n.now) else n
    else
      var i := FindByRoute(n.slots, sender, 0);
      if i < |n.slots| && n.slots[i].peer == peer && n.slots[i].attempt == attempt then
        n.(slots := n.slots[i := n.slots[i].(lastActivity := n.now)])
      else n
  }

  function HandleDisconnect(n: Node, sender: Route, peer: PeerId, attempt: nat): Node {
    if n.policy.role.Client? then
      if FromServer(n, sender, peer) && attempt == n.attempt then RetireServer(n) else n
    else
      var i := FindByRoute(n.slots, sender, 0);
      if i < |n.slots| && n.slots[i].peer == peer && n.slots[i].attempt == attempt then RetirePeer(n, i) else n
  }

  /** Whether an application channel may be routed: it exists, is local only, and is not one of Network's own. */
  predicate Routable(p: Policy, channel: nat) {
    channel != p.bestEffortWire && channel != p.reliableWire && channel in p.channels && !p.channels[channel].hasDefaultRoute
  }

  function Republish(n: Node, sender: Route, peer: PeerId, message: AppMessage): Node {
    if !Routable(n.policy, message.channel) || message.name == n.policy.acknowledgementName then n
    else n.(published := n.published + [Published(sender, peer, message)])
  }

  function HandleRouted(n: Node, sender: Route, peer: PeerId, message: AppMessage): Node {
    if n.policy.role.Client? then
      if !FromServer(n, sender, peer) then n
      else Republish(n.(lastServerActivity := n.now), sender, peer, message)
    else
      var i := FindByRoute(n.slots, sender, 0);
      if i == |n.slots| || n.slots[i].peer != peer then n
      else Republish(n.(slots := n.slots[i := n.slots[i].(lastActivity := n.now)]), sender, peer, message)
  }

  /** What the protocol schemas can encode; anything else fails to decode and is dropped. */
  predicate WellFormed(packet: Packet) {
    match packet
    case ConnectAccepted(_, peer) => peer.IsValid()
    case Heartbeat(peer, _) => peer.IsValid()
    case Disconnect(peer, _, _) => peer.IsValid()
    case Routed(peer, m) =>
      peer.IsValid() && m.channel != INVALID_NAME && m.name != INVALID_NAME && |m.payload| <= MAX_ROUTED_BYTES
    case _ => true
  }

  /** One packet from the wire; a node that is not initialized has no subscription to hear it with. */
  function Receive(n: Node, sender: Route, packet: Packet): Node {
    if !n.initialized || !WellFormed(packet) then n
    else match packet
      case ConnectRequest(version, attempt) => HandleConnectRequest(n, sender, version, attempt)
      case ConnectAccepted(attempt, peer) => HandleConnectAccepted(n, sender, attempt, peer)
      case ConnectRejected(attempt, reject) => HandleConnectRejected(n, sender, attempt, reject)
      case Heartbeat(peer, attempt) => HandleHeartbeat(n, sender, peer, attempt)
      case Disconnect(peer, attempt, _) => HandleDisconnect(n, sender, peer, attempt)
      case Routed(peer, message) => HandleRouted(n, sender, peer, message)
  }

  // ------------------------------------------------------------------ caller operations

  function ConnectToServer(n: Node, route: Route, now: nat, wire: SendResult): (Node, NetworkResult) {
    if !n.policy.role.Client? then (n, WrongRole)
    else if n.attempt == UINT32_MAX then (n, Exhausted)
    else if !n.initialized || route.NoRoute? then (n, Invalid)
    else
      var m := n.(attempt := n.attempt + 1, serverRoute := route, serverPeer := NO_PEER, state := Connecting, now := now,
                  lastClientSend := now, lastServerActivity := now);
      (Emit(m, route, ConnectRequest(n.policy.version, m.attempt)), Mapped(wire))
  }

  function DisconnectFromServer(n: Node, wire: SendResult): (Node, NetworkResult) {
    if !n.policy.role.Client? then (n, WrongRole)
    else if !n.state.Connected? || !n.serverPeer.IsValid() then (n, NotConnected)
    else (RetireServer(Emit(n, n.serverRoute, Disconnect(n.serverPeer, n.attempt, Requested))), Mapped(wire))
  }

  function DisconnectPeer(n: Node, p: PeerId, wire: SendResult): (Node, NetworkResult) {
    if !n.policy.role.Server? then (n, WrongRole)
    else if !Live(n, p) then (n, NotConnected)
    else
      var s := n.slots[p.index];
      (RetirePeer(Emit(n, s.route, Disconnect(s.peer, s.attempt, Requested)), p.index), Mapped(wire))
  }

  predicate CanRoute(n: Node, message: AppMessage) {
    Routable(n.policy, message.channel) && message.name != INVALID_NAME && |message.payload| <= MAX_ROUTED_BYTES
  }

  function SendRouted(n: Node, p: PeerId, to: Route, message: AppMessage, wire: SendResult): (Node, NetworkResult) {
    if !CanRoute(n, message) then (n, Invalid)
    else (Emit(n, to, Routed(p, message)).(sent := n.sent + [Sent(to, p, message)]), Mapped(wire))
  }

  function SendToServer(n: Node, message: AppMessage, wire: SendResult): (Node, NetworkResult) {
    if !n.policy.role.Client? then (n, WrongRole)
    else if !n.state.Connected? || !n.serverPeer.IsValid() then (n, NotConnected)
    else SendRouted(n, n.serverPeer, n.serverRoute, message, wire)
  }

  function SendTo(n: Node, p: PeerId, message: AppMessage, wire: SendResult): (Node, NetworkResult) {
    if !n.policy.role.Server? then (n, WrongRole)
    else if !Live(n, p) then (n, NotConnected)
    else SendRouted(n, p, n.slots[p.index].route, message, wire)
  }

  /** The fan-out over the first `k` slots: the node, whether any peer was addressed, whether any send failed. */
  function BroadcastUpTo(n: Node, message: AppMessage, wire: seq<SendResult>, k: nat): (r: (Node, bool, bool))
    requires |wire| == |n.slots| && k <= |n.slots|
    ensures r.0.slots == n.slots && r.0.policy == n.policy
  {
    if k == 0 then (n, false, false)
    else
      var (m, any, failed) := BroadcastUpTo(n, message, wire, k - 1);
      if !n.slots[k - 1].occupied then (m, any, failed)
      else
        var (t, r) := SendRouted(m, n.slots[k - 1].peer, n.slots[k - 1].route, message, wire[k - 1]);
        (t, true, failed || r != NetworkResult.Success)
  }

  function Broadcast(n: Node, message: AppMessage, wire: seq<SendResult>): (Node, NetworkResult)
    requires |wire| == |n.slots|
  {
    if !n.policy.role.Server? then (n, WrongRole)
    else
      var (m, any, failed) := BroadcastUpTo(n, message, wire, |n.slots|);
      (m, if !any then NotConnected else if failed then Partial else NetworkResult.Success)
  }

  // ------------------------------------------------------------------ time

  function ClientTurn(n: Node, now: nat): Node {
    if n.state.Disconnected? then
      if n.policy.initialRoute.NoRoute? then n else ConnectToServer(n, n.policy.initialRoute, now, SendSuccess).0
    else
      var m := if Elapsed(now, n.lastClientSend) < n.policy.heartbeatInterval then n
               else Emit(n, n.serverRoute, if n.state.Connecting? then ConnectRequest(n.policy.version, n.attempt)
                                           else Heartbeat(n.serverPeer, n.attempt)).(lastClientSend := now);
      if m.state.Connected? && Elapsed(now, m.lastServerActivity) > m.policy.peerTimeout then RetireServer(m) else m
  }

  function SlotTurn(n: Node, i: nat, now: nat): (r: Node)
    requires i < |n.slots|
    ensures |r.slots| == |n.slots|
  {
    var s := n.slots[i];
    if !s.occupied then n
    else if Elapsed(now, s.lastActivity) > n.policy.peerTimeout then RetirePeer(n, i)
    else if Elapsed(now, s.lastHeartbeat) >= n.policy.heartbeatInterval then
      Emit(n, s.route, Heartbeat(s.peer, s.attempt)).(slots := n.slots[i := s.(lastHeartbeat := now)])
    else n
  }

  function ServerTurn(n: Node, k: nat, now: nat): (r: Node)
    requires k <= |n.slots|
    ensures |r.slots| == |n.slots|
  {
    if k == 0 then n else SlotTurn(ServerTurn(n, k - 1, now), k - 1, now)
  }

  function PreAdvance(n: Node, now: nat): Node {
    var m := n.(now := now);
    if !m.initialized then m
    else if m.policy.role.Client? then ClientTurn(m, now)
    else ServerTurn(m, |m.slots|, now)
  }

  function PostAdvance(n: Node, now: nat): Node { n.(now := now) }

  function RetireAll(n: Node, k: nat): (r: Node)
    requires k <= |n.slots|
    ensures |r.slots| == |n.slots|
  {
    if k == 0 then n
    else
      var m := RetireAll(n, k - 1);
      if m.slots[k - 1].occupied then RetirePeer(m, k - 1) else m
  }

  function EndPlay(n: Node): Node {
    if n.policy.role.Client? then RetireServer(n) else RetireAll(n, |n.slots|)
  }

  /** `created` says whether Messaging granted both wire channels and both subscriptions. */
  function Initialize(n: Node, created: bool): (Node, NetworkResult) {
    if n.initialized then (n, NetworkResult.Success)
    else if !PolicyAccepted(n.policy) then (n, Invalid)
    else if !created then (n, NetworkResult.Full)
    else (n.(initialized := true), NetworkResult.Success)
  }

  function Shutdown(n: Node): Node { if !n.initialized then n else EndPlay(n).(initialized := false) }

  // ------------------------------------------------------------------ sender identities

  const MARKER := 0x100_0000_0000

  /** Index in the low byte, generation in the next 32 bits, the Network marker in bit 40; zero is absent. */
  function MakeSourceId(p: PeerId): nat {
    if p.IsValid() then MARKER + p.generation * 0x100 + p.index else 0
  }

  /** A value with the marker and nothing above it; the mask tests of the original say exactly this. */
  function ReadSourceId(v: nat): PeerId {
    if v == 0 || v / MARKER != 1 then NO_PEER else PeerId(v % 0x100, (v / 0x100) % 0x1_0000_0000)
  }

  function ResolveSenderPeer(n: Node, source: nat): PeerId {
    var candidate := ReadSourceId(source);
    if !candidate.IsValid() then NO_PEER
    else if n.policy.role.Client? then if candidate == n.serverPeer && n.state.Connected? then candidate else NO_PEER
    else if exists k :: 0 <= k < |n.slots| && n.slots[k].occupied && n.slots[k].peer == candidate then candidate
    else NO_PEER
  }
}
