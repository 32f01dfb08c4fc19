/**
 `FNetworkSystem` over its fixed array of peer slots. Every method performs exactly one transition of
 SessionModel, so the session theorems hold of any set of these objects joined by a non-forging network.
 */
module NetworkSystem {
  import opened Basics
  import opened SessionModel

  class NetworkSystem {
    const policy: Policy
    const slots: array<PeerSlot>
    var initialized: bool
    var serverRoute: Route
    var serverPeer: PeerId
    var state: ConnectionState
    var attempt: nat
    var lastClientSend: nat
    var lastServerActivity: nat
    var now: nat
    var out: seq<Envelope>
    ghost var admissions: seq<Admission>
    ghost var retirements: seq<PeerId>
    ghost var sent: seq<Sent>
    ghost var published: seq<Published>

    ghost function Model(): Node
      reads this, slots
    {
      Node(policy, initialized, slots[..], serverRoute, serverPeer, state, attempt, lastClientSend, lastServerActivity, now,
           out, admissions, retirements, sent, published)
    }

    constructor (policy: Policy)
      ensures Model() == Boot(policy) && fresh(slots)
    {
      this.policy := policy;
      slots := new PeerSlot[MAX_PEERS](_ => EMPTY_PEER_SLOT);
      initialized, serverRoute, serverPeer, state, attempt := false, NoRoute, NO_PEER, Disconnected, 0;
      lastClientSend, lastServerActivity, now, out := 0, 0, 0, [];
      admissions, retirements, sent, published := [], [], [], [];
      new;
      assert slots[..] == seq(MAX_PEERS, _ => EMPTY_PEER_SLOT);
    }

    // ---------------------------------------------------------------- registry queries

    method FindPeerByRoute(route: Route) returns (r: nat)
      ensures r == FindByRoute(slots[..], route, 0)
    {
      r := 0;
      while r < slots.Length
        invariant r <= slots.Length && FindByRoute(slots[..], route, 0) == FindByRoute(slots[..], route, r)
      {
        if slots[r].occupied && slots[r].route == route { return; }
        r := r + 1;
      }
    }

    method CountAdmittedPeers() returns (count: nat)
      ensures count == CountAdmitted(slots[..])
    {
      count := 0;
      for i := 0 to slots.Length
        invariant count == CountAdmitted(slots[..i])
      {
        assert slots[..i + 1][..i] == slots[..i];
        if slots[i].occupied { count := count + 1; }
      }
      assert slots[..slots.Length] == slots[..];
    }

    method FindFreeSlot() returns (r: nat)
      ensures r == FindFree(slots[..], 0)
    {
      r := 0;
      while r < slots.Length
        invariant r <= slots.Length && FindFree(slots[..], 0) == FindFree(slots[..], r)
      {
        if !slots[r].occupied && !slots[r].retired { return; }
        r := r + 1;
      }
    }

    method FindAdmissionSlot(route: Route) returns (r: nat)
      ensures r == SessionModel.FindAdmissionSlot(Model(), route)
    {
      r := FindPeerByRoute(route);
      if r < slots.Length { return; }
      var count := CountAdmittedPeers();
      if count >= policy.maximumPeers { return slots.Length; }
      r := FindFreeSlot();
    }

    method HasActivePeer() returns (active: bool)
      ensures active <==> if policy.role.Client? then state.Connected? && serverPeer.IsValid()
                          else exists i :: 0 <= i < slots.Length && slots[i].occupied
    {
      if policy.role.Client? { return state.Connected? && serverPeer.IsValid(); }
      var count := CountAdmittedPeers();
      CountPositive(slots[..], IsOccupied());
      active := count > 0;
      if active {
        var k :| 0 <= k < |slots[..]| && slots[..][k].occupied;
        assert slots[k].occupied;
      }
    }

    method ResolveSenderPeer(source: nat) returns (r: PeerId)
      ensures r == SessionModel.ResolveSenderPeer(Model(), source)
    {
      var candidate := ReadSourceId(source);
      if !candidate.IsValid() { return NO_PEER; }
      if policy.role.Client? {
        return if candidate == serverPeer && state.Connected? then candidate else NO_PEER;
      }
      for i := 0 to slots.Length
        invariant forall k :: 0 <= k < i ==> !(slots[k].occupied && slots[k].peer == candidate)
      {
        if slots[i].occupied && slots[i].peer == candidate { return candidate; }
      }
      return NO_PEER;
    }

    // ---------------------------------------------------------------- registry changes

    method SendProtocolMessage(to: Route, packet: Packet)
      modifies this`out
      ensures Model() == Emit(old(Model()), to, packet)
    {
      out := out + [Envelope(to, packet)];
    }

    method RetirePeer(i: nat)
      requires i < slots.Length
      modifies this`retirements, slots
      ensures Model() == SessionModel.RetirePeer(old(Model()), i)
    {
      var s := slots[i];
      retirements := retirements + [s.peer];
      s := s.(occupied := false, route := NoRoute, attempt := 0);
      if s.peer.generation == UINT32_MAX {
        s := s.(retired := true);
      } else {
        s := s.(peer := PeerId(s.peer.index, s.peer.generation + 1));
      }
      slots[i] := s;
    }

    method RetireServer()
      modifies this
      ensures Model() == SessionModel.RetireServer(old(Model()))
    {
      if state.Disconnected? && !serverPeer.IsValid() { return; }
      serverRoute, serverPeer, state := NoRoute, NO_PEER, Disconnected;
    }

    method Admit(i: nat, sender: Route, requested: nat)
      requires i < slots.Length
      modifies this, slots
      ensures Model() == SessionModel.Admit(old(Model()), i, sender, requested)
    {
      var s := slots[i];
      var p := PeerId(i, if s.peer.generation == 0 then 1 else s.peer.generation);
      slots[i] := PeerSlot(true, s.retired, p, sender, requested, now, now);
      admissions := admissions + [Admission(p, sender, requested)];
      SendProtocolMessage(sender, ConnectAccepted(requested, p));
    }

    // ---------------------------------------------------------------- inbound packets

    method HandleWireMessage(sender: Route, packet: Packet)
      modifies this, slots
      ensures Model() == Receive(old(Model()), sender, packet)
    {
      if !initialized || !WellFormed(packet) { return; }
      match packet
      case ConnectRequest(version, requested) => HandleConnectRequest(sender, version, requested);
      case ConnectAccepted(accepted, peer) => HandleConnectAccepted(sender, accepted, peer);
      case ConnectRejected(rejected, reject) => HandleConnectRejected(sender, rejected, reject);
      case Heartbeat(peer, beat) => HandleHeartbeat(sender, peer, beat);
      case Disconnect(peer, closed, _) => HandleDisconnect(sender, peer, closed);
      case Routed(peer, message) => HandleRoutedMessage(sender, peer, message);
    }

    method HandleConnectRequest(sender: Route, version: nat, requested: nat)
      modifies this, slots
      ensures Model() == SessionModel.HandleConnectRequest(old(Model()), sender, version, requested)
    {
      if !policy.role.Server? || sender.NoRoute? { return; }
      if version != policy.version {
        SendProtocolMessage(sender, ConnectRejected(requested, ProtocolMismatch));
        return;
      }
      var i := FindAdmissionSlot(sender);
      if i == slots.Length {
        SendProtocolMessage(sender, ConnectRejected(requested, RegistryFull));
        return;
      }
      if slots[i].occupied && requested < slots[i].attempt { return; }
      if slots[i].occupied && slots[i].attempt == requested {
        SendProtocolMessage(slots[i].route, ConnectAccepted(requested, slots[i].peer));
        return;
      }
      if slots[i].occupied { RetirePeer(i); }
      if slots[i].retired {
        SendProtocolMessage(sender, ConnectRejected(requested, RegistryFull));
        return;
      }
      Admit(i, sender, requested);
    }

    method HandleConnectAccepted(sender: Route, accepted: nat, peer: PeerId)
      modifies this
      ensures Model() == SessionModel.HandleConnectAccepted(old(Model()), sender, accepted, peer)
    {
      if !policy.role.Client? || !state.Connecting? || sender != serverRoute { return; }
      if accepted != attempt || !peer.IsValid() { return; }
      serverPeer, state, lastClientSend, lastServerActivity := peer, Connected, now, now;
    }

    method HandleConnectRejected(sender: Route, rejected: nat, reject: RejectReason)
      modifies this
      ensures Model() == SessionModel.HandleConnectRejected(old(Model()), sender, rejected, reject)
    {
      if !policy.role.Client? || !state.Connecting? || sender != serverRoute { return; }
      if rejected == attempt && !reject.RegistryFull? { RetireServer(); }
    }

    method HandleHeartbeat(sender: Route, peer: PeerId, beat: nat)
      modifies this, slots
      ensures Model() == SessionModel.HandleHeartbeat(old(Model()), sender, peer, beat)
    {
      if policy.role.Client? {
        if state.Connected? && sender == serverRoute && peer == serverPeer && beat == attempt { lastServerActivity := now; }
        return;
      }
      var i := FindPeerByRoute(sender);
      if i < slots.Length && slots[i].peer == peer && slots[i].attempt == beat {
        slots[i] := slots[i].(lastActivity := now);
      }
    }

    method HandleDisconnect(sender: Route, peer: PeerId, closed: nat)
      modifies this, slots
      ensures Model() == SessionModel.HandleDisconnect(old(Model()), sender, peer, closed)
    {
      if policy.role.Client? {
        if state.Connected? && sender == serverRoute && peer == serverPeer && closed == attempt { RetireServer(); }
        return;
      }
      var i := FindPeerByRoute(sender);
      if i < slots.Length && slots[i].peer == peer && slots[i].attempt == closed { RetirePeer(i); }
    }

    method HandleRoutedMessage(sender: Route, peer: PeerId, message: AppMessage)
      modifies this, slots
      ensures Model() == HandleRouted(old(Model()), sender, peer, message)
    {
      if policy.role.Client? {
        if !state.Connected? || sender != serverRoute || peer != serverPeer { return; }
        lastServerActivity := now;
      } else {
        var i := FindPeerByRoute(sender);
        if i == slots.Length || slots[i].peer != peer { return; }
        slots[i] := slots[i].(lastActivity := now);
      }
      if !Routable(policy, message.channel) || message.name == policy.acknowledgementName { return; }
      published := published + [Published(sender, peer, message)];
    }

    // ---------------------------------------------------------------- caller operations

    method Initialize(created: bool) returns (result: NetworkResult)
      modifies this
      ensures (Model(), result) == SessionModel.Initialize(old(Model()), created)
    {
      if initialized { return NetworkResult.Success; }
      if policy.heartbeatInterval == 0 || policy.peerTimeout <= policy.heartbeatInterval || policy.maximumPeers == 0
         || policy.maximumPeers > MAX_PEERS {
        return Invalid;
      }
      if !created { return NetworkResult.Full; }
      initialized := true;
      return NetworkResult.Success;
    }

    method Shutdown()
      modifies this, slots
      ensures Model() == SessionModel.Shutdown(old(Model()))
    {
      if !initialized { return; }
      EndPlay();
      initialized := false;
    }

    method ConnectToServer(route: Route, at: nat, wire: SendResult) returns (result: NetworkResult)
      modifies this
      ensures (Model(), result) == SessionModel.ConnectToServer(old(Model()), route, at, wire)
    {
      if !policy.role.Client? { return WrongRole; }
      if !initialized || route.NoRoute? || attempt == UINT32_MAX {
        return if attempt == UINT32_MAX then Exhausted else Invalid;
      }
      attempt := attempt + 1;
      serverRoute, serverPeer, state := route, NO_PEER, Connecting;
      StampSession(at);
      SendProtocolMessage(route, ConnectRequest(policy.version, attempt));
      result := Mapped(wire);
    }

    method StampSession(at: nat)
      modifies this`now, this`lastClientSend, this`lastServerActivity
      ensures Model() == old(Model()).(now := at, lastClientSend := at, lastServerActivity := at)
    {
      now, lastClientSend, lastServerActivity := at, at, at;
    }

    method DisconnectFromServer(wire: SendResult) returns (result: NetworkResult)
      modifies this
      ensures (Model(), result) == SessionModel.DisconnectFromServer(old(Model()), wire)
    {
      if !policy.role.Client? { return WrongRole; }
      if !state.Connected? || !serverPeer.IsValid() { return NotConnected; }
      SendProtocolMessage(serverRoute, Disconnect(serverPeer, attempt, Requested));
      RetireServer();
      result := Mapped(wire);
    }

    method DisconnectPeer(p: PeerId, wire: SendResult) returns (result: NetworkResult)
      modifies this, slots
      ensures (Model(), result) == SessionModel.DisconnectPeer(old(Model()), p, wire)
    {
      if !policy.role.Server? { return WrongRole; }
      if !(p.IsValid() && p.index < slots.Length && slots[p.index].occupied && slots[p.index].peer == p) { return NotConnected; }
      var s := slots[p.index];
      SendProtocolMessage(s.route, Disconnect(s.peer, s.attempt, Requested));
      RetirePeer(p.index);
      result := Mapped(wire);
    }

    method SendRoutedMessage(p: PeerId, to: Route, message: AppMessage, wire: SendResult) returns (result: NetworkResult)
      modifies this`out, this`sent
      ensures (Model(), result) == SendRouted(old(Model()), p, to, message, wire)
    {
      if !Routable(policy, message.channel) || message.name == INVALID_NAME || |message.payload| > MAX_ROUTED_BYTES {
        return Invalid;
      }
      SendProtocolMessage(to, Routed(p, message));
      sent := sent + [Sent(to, p, message)];
      result := Mapped(wire);
    }

    method SendToServer(message: AppMessage, wire: SendResult) returns (result: NetworkResult)
      modifies this
      ensures (Model(), result) == SessionModel.SendToServer(old(Model()), message, wire)
    {
      if !policy.role.Client? { return WrongRole; }
      if !state.Connected? || !serverPeer.IsValid() { return NotConnected; }
      result := SendRoutedMessage(serverPeer, serverRoute, message, wire);
    }

    method SendTo(p: PeerId, message: AppMessage, wire: SendResult) returns (result: NetworkResult)
      modifies this
      ensures (Model(), result) == SessionModel.SendTo(old(Model()), p, message, wire)
    {
      if !policy.role.Server? { return WrongRole; }
      if !(p.IsValid() && p.index < slots.Length && slots[p.index].occupied && slots[p.index].peer == p) { return NotConnected; }
      result := SendRoutedMessage(p, slots[p.index].route, message, wire);
    }

    method Broadcast(message: AppMessage, wire: seq<SendResult>) returns (result: NetworkResult)
      requires |wire| == slots.Length
      modifies this`out, this`sent
      ensures (Model(), result) == SessionModel.Broadcast(old(Model()), message, wire)
    {
      hide SendRouted;
      if !policy.role.Server? { return WrongRole; }
      var any, failed := false, false;
      for i := 0 to slots.Length
        invariant (Model(), any, failed) == BroadcastUpTo(old(Model()), message, wire, i)
      {
        if slots[i].occupied {
          any := true;
          var r := SendRoutedMessage(slots[i].peer, slots[i].route, message, wire[i]);
          if r != NetworkResult.Success { failed := true; }
        }
      }
      result := if !any then NotConnected else if failed then Partial else NetworkResult.Success;
    }

    // ---------------------------------------------------------------- time

    method PreAdvance(at: nat)
      modifies this, slots
      ensures Model() == SessionModel.PreAdvance(old(Model()), at)
    {
      hide SlotTurn, ClientTurn;
      now := at;
      if !initialized { return; }
      if policy.role.Client? {
        AdvanceClient(at);
        return;
      }
      ghost var start := Model();
      for i := 0 to slots.Length
        invariant Model() == ServerTurn(start, i, at)
      {
        AdvanceSlot(i, at);
      }
    }

    method AdvanceClient(at: nat)
      modifies this
      ensures Model() == ClientTurn(old(Model()), at)
    {
      hide SessionModel.ConnectToServer, SessionModel.RetireServer;
      if state.Disconnected? {
        if policy.initialRoute.To? { var _ := ConnectToServer(policy.initialRoute, at, SendSuccess); }
        return;
      }
      if Elapsed(at, lastClientSend) >= policy.heartbeatInterval {
        if state.Connecting? {
          SendProtocolMessage(serverRoute, ConnectRequest(policy.version, attempt));
        } else {
          SendProtocolMessage(serverRoute, Heartbeat(serverPeer, attempt));
        }
        lastClientSend := at;
      }
      if state.Connected? && Elapsed(at, lastServerActivity) > policy.peerTimeout { RetireServer(); }
    }

    method AdvanceSlot(i: nat, at: nat)
      requires i < slots.Length
      modifies this, slots
      ensures Model() == SlotTurn(old(Model()), i, at)
    {
      hide SessionModel.RetirePeer;
      if !slots[i].occupied { return; }
      if Elapsed(at, slots[i].lastActivity) > policy.peerTimeout {
        RetirePeer(i);
        return;
      }
      if Elapsed(at, slots[i].lastHeartbeat) >= policy.heartbeatInterval {
        SendProtocolMessage(slots[i].route, Heartbeat(slots[i].peer, slots[i].attempt));
        slots[i] := slots[i].(lastHeartbeat := at);
      }
    }

    method PostAdvance(at: nat)
      modifies this
      ensures Model() == SessionModel.PostAdvance(old(Model()), at)
    {
      now := at;
    }

    method EndPlay()
      modifies this, slots
      ensures Model() == SessionModel.EndPlay(old(Model()))
    {
      hide SessionModel.RetirePeer, SessionModel.RetireServer;
      if policy.role.Client? {
        RetireServer();
        return;
      }
      for i := 0 to slots.Length
        invariant Model() == RetireAll(old(Model()), i)
      {
        if slots[i].occupied { RetirePeer(i); }
      }
    }
  }
}
