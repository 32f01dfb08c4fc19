/**
 Session agreement and message attribution. One server and any number of clients exchange frames through a
 network that may lose, repeat and reorder frames but never invents one: at any time, any frame any node ever
 sent may be delivered to the node it was addressed to.
 */
module SessionProofs {
  import opened Basics
  import opened SessionModel

  // ------------------------------------------------------------------ the composed system

  datatype Action =
    | Start(created: bool)
    | Stop
    | Dial(route: Route, now: nat, wire: SendResult)
    | HangUp(wire: SendResult)
    | Drop(peer: PeerId, wire: SendResult)
    | ToServer(message: AppMessage, wire: SendResult)
    | ToPeer(peer: PeerId, message: AppMessage, wire: SendResult)
    | ToAll(message: AppMessage, wires: seq<SendResult>)
    | Before(now: nat)
    | After(now: nat)
    | Finish

  function Do(n: Node, a: Action): Node {
    match a
    case Start(created) => Initialize(n, created).0
    case Stop => Shutdown(n)
    case Dial(route, now, wire) => ConnectToServer(n, route, now, wire).0
    case HangUp(wire) => DisconnectFromServer(n, wire).0
    case Drop(peer, wire) => DisconnectPeer(n, peer, wire).0
    case ToServer(message, wire) => SendToServer(n, message, wire).0
    case ToPeer(peer, message, wire) => SendTo(n, peer, message, wire).0
    case ToAll(message, wires) => if |wires| == |n.slots| then Broadcast(n, message, wires).0 else n
    case Before(now) => PreAdvance(n, now)
    case After(now) => PostAdvance(n, now)
    case Finish => EndPlay(n)
  }

  /** Node 0 is the server; node k is reached by the route To(k). */
  type System = seq<Node>

  datatype Event =
    | Act(node: nat, action: Action)
    | Deliver(source: nat, frame: nat, target: nat)

  function Step(sys: System, e: Event): (t: System)
    ensures |t| == |sys|
  {
    match e
    case Act(i, a) => if i < |sys| then sys[i := Do(sys[i], a)] else sys
    case Deliver(i, k, j) =>
      if i < |sys| && j < |sys| && k < |sys[i].out| && sys[i].out[k].to == To(j)
      then sys[j := Receive(sys[j], To(i), sys[i].out[k].packet)] else sys
  }

  function Run(sys: System, es: seq<Event>): (t: System)
    ensures |t| == |sys|
  {
    if es == [] then sys else Step(Run(sys, es[..|es| - 1]), es[|es| - 1])
  }

  ghost predicate Booted(sys: System) {
    && |sys| > 0 && sys[0].policy.role.Server?
    && (forall i :: 0 <= i < |sys| ==> sys[i] == Boot(sys[i].policy))
    && (forall i :: 1 <= i < |sys| ==> sys[i].policy.role.Client?)
  }

  // ------------------------------------------------------------------ the registry invariant

  /** What admitting a handle means for later generations of its slot. */
  predicate Outdated(s: PeerSlot, generation: nat) {
    generation < s.peer.generation || (generation == s.peer.generation && (s.occupied || s.retired))
  }

  ghost predicate SlotOk(slots: seq<PeerSlot>, admissions: seq<Admission>, i: nat)
    requires i < |slots|
  {
    var s := slots[i];
    && s.peer.generation <= UINT32_MAX
    && (s.occupied ==> s.peer.index == i && !s.retired && s.route.To? && Admission(s.peer, s.route, s.attempt) in admissions)
    && (s.retired ==> s.peer.generation == UINT32_MAX)
    && forall k :: 0 <= k < |admissions| && admissions[k].peer.index == i ==> Outdated(s, admissions[k].peer.generation)
  }

  ghost predicate Registry(slots: seq<PeerSlot>, admissions: seq<Admission>) {
    && |slots| == MAX_PEERS
    && (forall i :: 0 <= i < |slots| ==> SlotOk(slots, admissions, i))
    && (forall k :: 0 <= k < |admissions| ==> admissions[k].peer.index < MAX_PEERS && admissions[k].peer.generation > 0)
    && (forall j, k :: 0 <= j < k < |admissions| ==> admissions[j].peer != admissions[k].peer)
  }

  ghost predicate DistinctRoutes(slots: seq<PeerSlot>) {
    forall i, j :: 0 <= i < j < |slots| && slots[i].occupied && slots[j].occupied ==> slots[i].route != slots[j].route
  }

  predicate Holds(slots: seq<PeerSlot>, p: PeerId) {
    p.index < |slots| && slots[p.index].occupied && slots[p.index].peer == p
  }

  /** Every admitted handle is either held by its slot or retired, and retired exactly once. */
  ghost predicate Ledger(slots: seq<PeerSlot>, admissions: seq<Admission>, retirements: seq<PeerId>) {
    && (forall k :: 0 <= k < |admissions| ==> Holds(slots, admissions[k].peer) || admissions[k].peer in retirements)
    && (forall k :: 0 <= k < |retirements| ==> !Holds(slots, retirements[k]) && Admitted(admissions, retirements[k]))
    && (forall j, k :: 0 <= j < k < |retirements| ==> retirements[j] != retirements[k])
    && |admissions| == |retirements| + CountAdmitted(slots)
  }

  predicate Admitted(admissions: seq<Admission>, p: PeerId) {
    exists k :: 0 <= k < |admissions| && admissions[k].peer == p
  }

  /** Two registries that differ in time stamps only. */
  predicate SameHolders(s: seq<PeerSlot>, t: seq<PeerSlot>) {
    && |s| == |t|
    && forall i :: 0 <= i < |s| ==>
         && s[i].occupied == t[i].occupied && s[i].retired == t[i].retired && s[i].peer == t[i].peer
         && s[i].route == t[i].route && s[i].attempt == t[i].attempt
  }

  lemma {:induction false} SameCount(s: seq<PeerSlot>, t: seq<PeerSlot>)
    requires SameHolders(s, t)
    ensures CountAdmitted(s) == CountAdmitted(t)
  {
    if s != [] { SameCount(s[..|s| - 1], t[..|t| - 1]); }
  }

  lemma SameHoldersKeep(s: seq<PeerSlot>, t: seq<PeerSlot>, admissions: seq<Admission>, retirements: seq<PeerId>)
    requires SameHolders(s, t) && Registry(s, admissions) && DistinctRoutes(s) && Ledger(s, admissions, retirements)
    ensures Registry(t, admissions) && DistinctRoutes(t) && Ledger(t, admissions, retirements)
  {
    hide CountAdmitted, Admitted;
    SameCount(s, t);
    forall i | 0 <= i < |t| ensures SlotOk(t, admissions, i) { assert SlotOk(s, admissions, i); }
    assert forall p :: Holds(s, p) == Holds(t, p);
  }

  // ------------------------------------------------------------------ retiring and admitting

  lemma RetireKeepsRegistry(slots: seq<PeerSlot>, admissions: seq<Admission>, i: nat)
    requires Registry(slots, admissions) && DistinctRoutes(slots) && i < |slots| && slots[i].occupied
    ensures var t := slots[i := RetiredSlot(slots[i])]; Registry(t, admissions) && DistinctRoutes(t)
  {
    var t := slots[i := RetiredSlot(slots[i])];
    assert SlotOk(slots, admissions, i);
    forall j | 0 <= j < |t| ensures SlotOk(t, admissions, j) { assert SlotOk(slots, admissions, j); }
  }

  lemma AdmittedIntro(admissions: seq<Admission>, a: Admission)
    requires a in admissions
    ensures Admitted(admissions, a.peer)
  {
  }

  lemma RetireKeepsLedger(slots: seq<PeerSlot>, admissions: seq<Admission>, retirements: seq<PeerId>, i: nat)
    requires Registry(slots, admissions) && Ledger(slots, admissions, retirements) && i < |slots| && slots[i].occupied
    ensures Ledger(slots[i := RetiredSlot(slots[i])], admissions, retirements + [slots[i].peer])
  {
    hide CountAdmitted, Admitted;
    var t, p := slots[i := RetiredSlot(slots[i])], slots[i].peer;
    RetiredCount(slots, i);
    assert SlotOk(slots, admissions, i);
    AdmittedIntro(admissions, Admission(p, slots[i].route, slots[i].attempt));
    assert Holds(slots, p) && !Holds(t, p);
    assert forall q :: Holds(slots, q) == (Holds(t, q) || q == p);
  }

  lemma RetiredCount(slots: seq<PeerSlot>, i: nat)
    requires i < |slots| && slots[i].occupied
    ensures CountAdmitted(slots[i := RetiredSlot(slots[i])]) == CountAdmitted(slots) - 1
  {
    CountUpdate(slots, i, RetiredSlot(slots[i]), IsOccupied());
  }

  lemma AdmitKeepsRegistry(slots: seq<PeerSlot>, admissions: seq<Admission>, i: nat, s: PeerSlot)
    requires Registry(slots, admissions) && DistinctRoutes(slots)
    requires i < |slots| && !slots[i].occupied && !slots[i].retired
    requires forall k :: 0 <= k < |slots| && slots[k].occupied ==> slots[k].route != s.route
    requires s.occupied && !s.retired && s.route.To?
    requires s.peer == PeerId(i, if slots[i].peer.generation == 0 then 1 else slots[i].peer.generation)
    ensures Registry(slots[i := s], admissions + [Admission(s.peer, s.route, s.attempt)]) && DistinctRoutes(slots[i := s])
  {
    var a := Admission(s.peer, s.route, s.attempt);
    var t, b := slots[i := s], admissions + [a];
    assert SlotOk(slots, admissions, i);
    forall j | 0 <= j < |slots| ensures SlotOk(t, b, j) { assert SlotOk(slots, admissions, j); }
    FreshHandle(slots, admissions, i);
  }

  lemma AdmitKeepsLedger(slots: seq<PeerSlot>, admissions: seq<Admission>, retirements: seq<PeerId>, i: nat, s: PeerSlot)
    requires Registry(slots, admissions) && Ledger(slots, admissions, retirements)
    requires i < |slots| && !slots[i].occupied && !slots[i].retired && s.occupied && s.peer.index == i
    requires !Admitted(admissions, s.peer)
    ensures Ledger(slots[i := s], admissions + [Admission(s.peer, s.route, s.attempt)], retirements)
  {
    hide CountAdmitted, Admitted;
    var a, t := Admission(s.peer, s.route, s.attempt), slots[i := s];
    AdmittedCount(slots, i, s);
    AdmittedGrows(admissions, a);
    assert forall q :: q != s.peer ==> Holds(slots, q) == Holds(t, q);
    assert Holds(t, s.peer);
  }

  lemma AdmittedGrows(admissions: seq<Admission>, a: Admission)
    ensures forall p :: Admitted(admissions + [a], p) <==> Admitted(admissions, p) || p == a.peer
  {
    forall p ensures Admitted(admissions + [a], p) <==> Admitted(admissions, p) || p == a.peer {
      if Admitted(admissions, p) {
        var k :| 0 <= k < |admissions| && admissions[k].peer == p;
        assert (admissions + [a])[k].peer == p;
      }
      assert (admissions + [a])[|admissions|] == a;
    }
  }

  lemma AdmittedCount(slots: seq<PeerSlot>, i: nat, s: PeerSlot)
    requires i < |slots| && !slots[i].occupied && s.occupied
    ensures CountAdmitted(slots[i := s]) == CountAdmitted(slots) + 1
  {
    CountUpdate(slots, i, s, IsOccupied());
  }

  // ------------------------------------------------------------------ one node

  predicate Owns(admissions: seq<Admission>, p: PeerId, route: Route) {
    exists k :: 0 <= k < |admissions| && admissions[k].peer == p && admissions[k].route == route
  }

  ghost predicate EnvelopeOk(role: Role, admissions: seq<Admission>, sent: seq<Sent>, e: Envelope) {
    match e.packet
    case ConnectRequest(_, _) => role.Client?
    case ConnectAccepted(attempt, peer) => role.Server? && Admission(peer, e.to, attempt) in admissions
    case Routed(peer, message) => Sent(e.to, peer, message) in sent
    case _ => true
  }

  ghost predicate OutOk(role: Role, admissions: seq<Admission>, sent: seq<Sent>, out: seq<Envelope>) {
    && (forall k :: 0 <= k < |out| ==> EnvelopeOk(role, admissions, sent, out[k]))
    && (role.Server? ==> forall k :: 0 <= k < |sent| ==> Owns(admissions, sent[k].peer, sent[k].to))
  }

  ghost predicate RegistryOk(n: Node) {
    && Registry(n.slots, n.admissions) && DistinctRoutes(n.slots) && Ledger(n.slots, n.admissions, n.retirements)
    && CountAdmitted(n.slots) <= n.policy.maximumPeers
    && (n.policy.role.Client? ==> n.admissions == [] && forall i :: 0 <= i < |n.slots| ==> !n.slots[i].occupied)
  }

  ghost predicate NodeInv(n: Node) {
    && RegistryOk(n) && OutOk(n.policy.role, n.admissions, n.sent, n.out)
    && n.attempt <= UINT32_MAX
    && (n.policy.role.Server? ==> n.state.Disconnected?)
  }

  /** History only grows. */
  predicate Grows(n: Node, m: Node) {
    && n.policy == m.policy && n.admissions <= m.admissions && n.retirements <= m.retirements
    && n.out <= m.out && n.sent <= m.sent && n.published <= m.published
  }

  lemma EmitKeeps(n: Node, to: Route, packet: Packet)
    requires NodeInv(n) && EnvelopeOk(n.policy.role, n.admissions, n.sent, Envelope(to, packet))
    ensures NodeInv(Emit(n, to, packet)) && Grows(n, Emit(n, to, packet))
  {
    hide RegistryOk, EnvelopeOk, Owns;
    RegistryFrame(n, Emit(n, to, packet));
  }

  lemma RegistryFrame(n: Node, m: Node)
    requires RegistryOk(n) && n.slots == m.slots && n.admissions == m.admissions && n.retirements == m.retirements
    requires n.policy == m.policy
    ensures RegistryOk(m)
  {
  }

  lemma RetirePeerKeeps(n: Node, i: nat)
    requires NodeInv(n) && i < |n.slots| && n.slots[i].occupied
    ensures NodeInv(RetirePeer(n, i)) && Grows(n, RetirePeer(n, i))
    ensures !RetirePeer(n, i).slots[i].occupied
  {
    hide Registry, DistinctRoutes, Ledger, OutOk, CountAdmitted;
    RetireKeepsRegistry(n.slots, n.admissions, i);
    RetireKeepsLedger(n.slots, n.admissions, n.retirements, i);
    RetiredCount(n.slots, i);
  }

  lemma OutGrows(role: Role, admissions: seq<Admission>, a: Admission, sent: seq<Sent>, out: seq<Envelope>)
    requires OutOk(role, admissions, sent, out) && role.Server?
    ensures OutOk(role, admissions + [a], sent, out + [Envelope(a.route, ConnectAccepted(a.attempt, a.peer))])
  {
    var b := admissions + [a];
    forall k | 0 <= k < |out| ensures EnvelopeOk(role, b, sent, out[k]) {
      assert EnvelopeOk(role, admissions, sent, out[k]);
    }
    forall k | 0 <= k < |sent| ensures Owns(b, sent[k].peer, sent[k].to) {
      var j :| 0 <= j < |admissions| && admissions[j].peer == sent[k].peer && admissions[j].route == sent[k].to;
      assert b[j] == admissions[j];
    }
    assert b[|admissions|] == a;
  }

  lemma FreshHandle(slots: seq<PeerSlot>, admissions: seq<Admission>, i: nat)
    requires Registry(slots, admissions) && i < |slots| && !slots[i].occupied && !slots[i].retired
    ensures var g := slots[i].peer.generation; !Admitted(admissions, PeerId(i, if g == 0 then 1 else g))
  {
    assert SlotOk(slots, admissions, i);
    forall k | 0 <= k < |admissions| && admissions[k].peer.index == i
      ensures admissions[k].peer.generation < slots[i].peer.generation
    {
      assert Outdated(slots[i], admissions[k].peer.generation);
    }
  }

  lemma AdmitKeeps(n: Node, i: nat, sender: Route, attempt: nat)
    requires NodeInv(n) && n.policy.role.Server? && sender.To?
    requires i < |n.slots| && !n.slots[i].occupied && !n.slots[i].retired
    requires forall k :: 0 <= k < |n.slots| && n.slots[k].occupied ==> n.slots[k].route != sender
    requires CountAdmitted(n.slots) < n.policy.maximumPeers
    ensures NodeInv(Admit(n, i, sender, attempt)) && Grows(n, Admit(n, i, sender, attempt))
  {
    hide Registry, DistinctRoutes, Ledger, OutOk, CountAdmitted, Admitted;
    var g := n.slots[i].peer.generation;
    var p := PeerId(i, if g == 0 then 1 else g);
    var s := PeerSlot(true, n.slots[i].retired, p, sender, attempt, n.now, n.now);
    FreshHandle(n.slots, n.admissions, i);
    AdmitKeepsRegistry(n.slots, n.admissions, i, s);
    AdmitKeepsLedger(n.slots, n.admissions, n.retirements, i, s);
    AdmittedCount(n.slots, i, s);
    OutGrows(n.policy.role, n.admissions, Admission(p, sender, attempt), n.sent, n.out);
  }

  lemma TouchKeeps(n: Node, i: nat, s: PeerSlot)
    requires NodeInv(n) && i < |n.slots|
    requires s == n.slots[i].(lastActivity := s.lastActivity, lastHeartbeat := s.lastHeartbeat)
    ensures NodeInv(n.(slots := n.slots[i := s])) && Grows(n, n.(slots := n.slots[i := s]))
  {
    hide Registry, DistinctRoutes, Ledger, OutOk, CountAdmitted;
    SameHoldersKeep(n.slots, n.slots[i := s], n.admissions, n.retirements);
    SameCount(n.slots, n.slots[i := s]);
  }

  lemma OtherRoutes(slots: seq<PeerSlot>, i: nat)
    requires DistinctRoutes(slots) && i < |slots| && slots[i].occupied
    ensures forall k :: 0 <= k < |slots| && k != i && slots[k].occupied ==> slots[k].route != slots[i].route
  {
  }

  lemma RequestKeeps(n: Node, sender: Route, version: nat, attempt: nat)
    requires NodeInv(n)
    ensures NodeInv(HandleConnectRequest(n, sender, version, attempt))
    ensures Grows(n, HandleConnectRequest(n, sender, version, attempt))
  {
    hide NodeInv, CountAdmitted, Admit, RetirePeer, Grows;
    if n.policy.role.Server? && sender.To? {
      var i := FindAdmissionSlot(n, sender);
      if version != n.policy.version {
        EmitKeeps(n, sender, ConnectRejected(attempt, ProtocolMismatch));
      } else if i == |n.slots| {
        EmitKeeps(n, sender, ConnectRejected(attempt, RegistryFull));
      } else if n.slots[i].occupied {
        KnownRouteKeeps(n, i, sender, attempt);
      } else {
        AdmissionSlotIsFree(n, sender);
        AdmitKeeps(n, i, sender, attempt);
      }
    }
    GrowsReflexive(n);
  }

  lemma GrowsReflexive(n: Node)
    ensures Grows(n, n)
  {
  }

  lemma GrowsTransitive(n: Node, m: Node, t: Node)
    requires Grows(n, m) && Grows(m, t)
    ensures Grows(n, t)
  {
  }

  lemma AdmissionSlotIsFree(n: Node, sender: Route)
    requires FindAdmissionSlot(n, sender) < |n.slots|
    ensures var i := FindAdmissionSlot(n, sender);
            if n.slots[i].occupied then n.slots[i].route == sender
            else !n.slots[i].retired && CountAdmitted(n.slots) < n.policy.maximumPeers
                 && forall k :: 0 <= k < |n.slots| && n.slots[k].occupied ==> n.slots[k].route != sender
  {
    hide CountAdmitted;
  }

  /** A request from a route that already holds a slot: stale, repeated, or a newer attempt that replaces it. */
  lemma KnownRouteKeeps(n: Node, i: nat, sender: Route, attempt: nat)
    requires NodeInv(n) && n.policy.role.Server? && sender.To? && i < |n.slots| && n.slots[i].occupied
    requires n.slots[i].route == sender
    ensures var e := Emit(n, n.slots[i].route, ConnectAccepted(n.slots[i].attempt, n.slots[i].peer)); NodeInv(e) && Grows(n, e)
    ensures var m := RetirePeer(n, i);
            if m.slots[i].retired then
              var e := Emit(m, sender, ConnectRejected(attempt, RegistryFull)); NodeInv(e) && Grows(n, e)
            else NodeInv(Admit(m, i, sender, attempt)) && Grows(n, Admit(m, i, sender, attempt))
  {
    hide Ledger, OutOk, CountAdmitted, Admit, Grows;
    var m := RetirePeer(n, i);
    assert SlotOk(n.slots, n.admissions, i);
    EmitKeeps(n, n.slots[i].route, ConnectAccepted(n.slots[i].attempt, n.slots[i].peer));
    RetirePeerKeeps(n, i);
    RetiredCount(n.slots, i);
    if m.slots[i].retired {
      EmitKeeps(m, sender, ConnectRejected(attempt, RegistryFull));
      GrowsTransitive(n, m, Emit(m, sender, ConnectRejected(attempt, RegistryFull)));
    } else {
      OtherRoutes(n.slots, i);
      AdmitKeeps(m, i, sender, attempt);
      GrowsTransitive(n, m, Admit(m, i, sender, attempt));
    }
  }

  lemma HeartbeatKeeps(n: Node, sender: Route, peer: PeerId, attempt: nat)
    requires NodeInv(n)
    ensures var m := HandleHeartbeat(n, sender, peer, attempt); NodeInv(m) && Grows(n, m)
  {
    hide NodeInv, Grows;
    GrowsReflexive(n);
    AttemptBound(n);
    var i := FindByRoute(n.slots, sender, 0);
    if n.policy.role.Client? {
      ClientFieldsKeep(n, n.(lastServerActivity := n.now));
    } else if i < |n.slots| {
      TouchKeeps(n, i, n.slots[i].(lastActivity := n.now));
    }
  }

  /** Operations that move only client fields and time stamps keep everything the server side promises. */
  lemma ClientFieldsKeep(n: Node, m: Node)
    requires NodeInv(n) && m.attempt <= UINT32_MAX && (m.state.Disconnected? || m.policy.role.Client?)
    requires m == n.(initialized := m.initialized, serverRoute := m.serverRoute, serverPeer := m.serverPeer, state := m.state,
                     attempt := m.attempt, lastClientSend := m.lastClientSend, lastServerActivity := m.lastServerActivity,
                     now := m.now, published := m.published)
    requires n.published <= m.published
    ensures NodeInv(m) && Grows(n, m)
  {
    hide OutOk;
    RegistryFrame(n, m);
  }

  lemma DisconnectKeeps(n: Node, sender: Route, peer: PeerId, attempt: nat)
    requires NodeInv(n)
    ensures var m := HandleDisconnect(n, sender, peer, attempt); NodeInv(m) && Grows(n, m)
  {
    hide NodeInv, Grows;
    GrowsReflexive(n);
    AttemptBound(n);
    if n.policy.role.Client? {
      ClientFieldsKeep(n, RetireServer(n));
    } else if FindByRoute(n.slots, sender, 0) < |n.slots| {
      RetirePeerKeeps(n, FindByRoute(n.slots, sender, 0));
    }
  }

  lemma AttemptBound(n: Node)
    requires NodeInv(n)
    ensures n.attempt <= UINT32_MAX && |n.slots| == MAX_PEERS
  {
  }

  lemma RoutedKeeps(n: Node, sender: Route, peer: PeerId, message: AppMessage)
    requires NodeInv(n)
    ensures var m := HandleRouted(n, sender, peer, message); NodeInv(m) && Grows(n, m)
  {
    hide NodeInv, Grows;
    GrowsReflexive(n);
    AttemptBound(n);
    var i := FindByRoute(n.slots, sender, 0);
    if n.policy.role.Client? {
      if FromServer(n, sender, peer) {
        ClientFieldsKeep(n, Republish(n.(lastServerActivity := n.now), sender, peer, message));
      }
    } else if i < |n.slots| && n.slots[i].peer == peer {
      var t := n.(slots := n.slots[i := n.slots[i].(lastActivity := n.now)]);
      TouchKeeps(n, i, n.slots[i].(lastActivity := n.now));
      ServerIsDisconnected(t);
      ClientFieldsKeep(t, Republish(t, sender, peer, message));
      GrowsTransitive(n, t, Republish(t, sender, peer, message));
    }
  }

  lemma ServerIsDisconnected(n: Node)
    requires NodeInv(n) && n.policy.role.Server?
    ensures n.state.Disconnected? && n.attempt <= UINT32_MAX
  {
  }

  lemma ReceiveKeeps(n: Node, sender: Route, packet: Packet)
    requires NodeInv(n)
    ensures NodeInv(Receive(n, sender, packet)) && Grows(n, Receive(n, sender, packet))
  {
    hide NodeInv, Grows, HandleConnectRequest, HandleHeartbeat, HandleDisconnect, HandleRouted;
    GrowsReflexive(n);
    AttemptBound(n);
    match packet
    case ConnectRequest(version, attempt) => RequestKeeps(n, sender, version, attempt);
    case ConnectAccepted(attempt, peer) =>
      if n.policy.role.Client? { ClientFieldsKeep(n, HandleConnectAccepted(n, sender, attempt, peer)); }
    case ConnectRejected(attempt, reject) =>
      if n.policy.role.Client? { ClientFieldsKeep(n, HandleConnectRejected(n, sender, attempt, reject)); }
    case Heartbeat(peer, attempt) => HeartbeatKeeps(n, sender, peer, attempt);
    case Disconnect(peer, attempt, _) => DisconnectKeeps(n, sender, peer, attempt);
    case Routed(peer, message) => RoutedKeeps(n, sender, peer, message);
  }

  // ------------------------------------------------------------------ one node's own operations

  lemma ConnectKeeps(n: Node, route: Route, now: nat, wire: SendResult)
    requires NodeInv(n)
    ensures var m := ConnectToServer(n, route, now, wire).0; NodeInv(m) && Grows(n, m)
  {
    hide NodeInv, Grows;
    GrowsReflexive(n);
    AttemptBound(n);
    if n.policy.role.Client? && n.attempt < UINT32_MAX && route.To? {
      var m := n.(attempt := n.attempt + 1, serverRoute := route, serverPeer := NO_PEER, state := Connecting, now := now,
                  lastClientSend := now, lastServerActivity := now);
      ClientFieldsKeep(n, m);
      EmitKeeps(m, route, ConnectRequest(n.policy.version, m.attempt));
      GrowsTransitive(n, m, Emit(m, route, ConnectRequest(n.policy.version, m.attempt)));
    }
  }

  lemma RetireServerKeeps(n: Node)
    requires NodeInv(n)
    ensures NodeInv(RetireServer(n)) && Grows(n, RetireServer(n))
  {
    hide NodeInv, Grows;
    AttemptBound(n);
    ClientFieldsKeep(n, RetireServer(n));
  }

  lemma HangUpKeeps(n: Node, wire: SendResult)
    requires NodeInv(n)
    ensures var m := DisconnectFromServer(n, wire).0; NodeInv(m) && Grows(n, m)
  {
    hide NodeInv, Grows, RetireServer;
    GrowsReflexive(n);
    var m := Emit(n, n.serverRoute, Disconnect(n.serverPeer, n.attempt, Requested));
    EmitKeeps(n, n.serverRoute, Disconnect(n.serverPeer, n.attempt, Requested));
    RetireServerKeeps(m);
    GrowsTransitive(n, m, RetireServer(m));
  }

  lemma DropKeeps(n: Node, p: PeerId, wire: SendResult)
    requires NodeInv(n)
    ensures var m := DisconnectPeer(n, p, wire).0; NodeInv(m) && Grows(n, m)
  {
    hide NodeInv, Grows, RetirePeer;
    GrowsReflexive(n);
    if Live(n, p) {
      var s := n.slots[p.index];
      var m := Emit(n, s.route, Disconnect(s.peer, s.attempt, Requested));
      EmitKeeps(n, s.route, Disconnect(s.peer, s.attempt, Requested));
      RetirePeerKeeps(m, p.index);
      GrowsTransitive(n, m, RetirePeer(m, p.index));
    }
  }

  lemma SendRoutedKeeps(n: Node, p: PeerId, to: Route, message: AppMessage, wire: SendResult)
    requires NodeInv(n) && (n.policy.role.Server? ==> Owns(n.admissions, p, to))
    ensures var m := SendRouted(n, p, to, message, wire).0; NodeInv(m) && Grows(n, m)
  {
    hide RegistryOk, Owns;
    var m := SendRouted(n, p, to, message, wire).0;
    RegistryFrame(n, m);
    forall k | 0 <= k < |n.out| ensures EnvelopeOk(n.policy.role, n.admissions, m.sent, n.out[k]) {
      assert EnvelopeOk(n.policy.role, n.admissions, n.sent, n.out[k]);
    }
  }

  lemma HolderOwns(n: Node, i: nat)
    requires NodeInv(n) && i < |n.slots| && n.slots[i].occupied
    ensures Owns(n.admissions, n.slots[i].peer, n.slots[i].route)
    ensures Admission(n.slots[i].peer, n.slots[i].route, n.slots[i].attempt) in n.admissions
    ensures n.slots[i].peer.index == i && n.slots[i].route.To?
  {
    assert SlotOk(n.slots, n.admissions, i);
  }

  lemma SendToServerKeeps(n: Node, message: AppMessage, wire: SendResult)
    requires NodeInv(n)
    ensures var m := SendToServer(n, message, wire).0; NodeInv(m) && Grows(n, m)
  {
    hide NodeInv, Grows, SendRouted;
    GrowsReflexive(n);
    if n.policy.role.Client? { SendRoutedKeeps(n, n.serverPeer, n.serverRoute, message, wire); }
  }

  lemma SendToKeeps(n: Node, p: PeerId, message: AppMessage, wire: SendResult)
    requires NodeInv(n)
    ensures var m := SendTo(n, p, message, wire).0; NodeInv(m) && Grows(n, m)
  {
    hide NodeInv, Grows, SendRouted;
    GrowsReflexive(n);
    if Live(n, p) {
      HolderOwns(n, p.index);
      SendRoutedKeeps(n, p, n.slots[p.index].route, message, wire);
    }
  }

  lemma {:induction false} BroadcastKeeps(n: Node, message: AppMessage, wire: seq<SendResult>, k: nat)
    requires NodeInv(n) && n.policy.role.Server? && |wire| == |n.slots| && k <= |n.slots|
    ensures var m := BroadcastUpTo(n, message, wire, k).0; NodeInv(m) && Grows(n, m)
  {
    hide NodeInv, Grows, SendRouted;
    GrowsReflexive(n);
    if k > 0 {
      BroadcastKeeps(n, message, wire, k - 1);
      var m, s := BroadcastUpTo(n, message, wire, k - 1).0, n.slots[k - 1];
      if s.occupied {
        HolderOwns(m, k - 1);
        SendRoutedKeeps(m, s.peer, s.route, message, wire[k - 1]);
        GrowsTransitive(n, m, SendRouted(m, s.peer, s.route, message, wire[k - 1]).0);
      }
    }
  }

  lemma ClientTurnKeeps(n: Node, now: nat)
    requires NodeInv(n) && n.policy.role.Client?
    ensures NodeInv(ClientTurn(n, now)) && Grows(n, ClientTurn(n, now))
  {
    hide NodeInv, Grows, RetireServer, ConnectToServer;
    GrowsReflexive(n);
    if n.state.Disconnected? {
      ConnectKeeps(n, n.policy.initialRoute, now, SendSuccess);
    } else {
      var packet := if n.state.Connecting? then ConnectRequest(n.policy.version, n.attempt) else Heartbeat(n.serverPeer, n.attempt);
      var m := Emit(n, n.serverRoute, packet);
      EmitKeeps(n, n.serverRoute, packet);
      AttemptBound(n);
      ClientFieldsKeep(m, m.(lastClientSend := now));
      GrowsTransitive(n, m, m.(lastClientSend := now));
      var t := if Elapsed(now, n.lastClientSend) < n.policy.heartbeatInterval then n else m.(lastClientSend := now);
      RetireServerKeeps(t);
      GrowsTransitive(n, t, RetireServer(t));
    }
  }

  lemma SlotTurnKeeps(n: Node, i: nat, now: nat)
    requires NodeInv(n) && n.policy.role.Server? && i < |n.slots|
    ensures NodeInv(SlotTurn(n, i, now)) && Grows(n, SlotTurn(n, i, now))
  {
    hide NodeInv, Grows, RetirePeer;
    GrowsReflexive(n);
    var s := n.slots[i];
    if s.occupied {
      RetirePeerKeeps(n, i);
      var m := Emit(n, s.route, Heartbeat(s.peer, s.attempt));
      EmitKeeps(n, s.route, Heartbeat(s.peer, s.attempt));
      TouchKeeps(m, i, s.(lastHeartbeat := now));
      GrowsTransitive(n, m, m.(slots := m.slots[i := s.(lastHeartbeat := now)]));
    }
  }

  lemma {:induction false} ServerTurnKeeps(n: Node, k: nat, now: nat)
    requires NodeInv(n) && n.policy.role.Server? && k <= |n.slots|
    ensures NodeInv(ServerTurn(n, k, now)) && Grows(n, ServerTurn(n, k, now))
  {
    hide NodeInv, SlotTurn;
    if k > 0 {
      ServerTurnKeeps(n, k - 1, now);
      SlotTurnKeeps(ServerTurn(n, k - 1, now), k - 1, now);
    }
  }

  lemma PreAdvanceKeeps(n: Node, now: nat)
    requires NodeInv(n)
    ensures NodeInv(PreAdvance(n, now)) && Grows(n, PreAdvance(n, now))
  {
    hide NodeInv, Grows, ClientTurn, ServerTurn;
    var m := n.(now := now);
    AttemptBound(n);
    if n.policy.role.Server? { ServerIsDisconnected(n); }
    ClientFieldsKeep(n, m);
    if n.policy.role.Client? {
      ClientTurnKeeps(m, now);
      GrowsTransitive(n, m, ClientTurn(m, now));
    } else {
      ServerTurnKeeps(m, |m.slots|, now);
      GrowsTransitive(n, m, ServerTurn(m, |m.slots|, now));
    }
  }

  lemma {:induction false} RetireAllKeeps(n: Node, k: nat)
    requires NodeInv(n) && k <= |n.slots|
    ensures NodeInv(RetireAll(n, k)) && Grows(n, RetireAll(n, k))
  {
    hide NodeInv, RetirePeer;
    if k > 0 {
      RetireAllKeeps(n, k - 1);
      if RetireAll(n, k - 1).slots[k - 1].occupied { RetirePeerKeeps(RetireAll(n, k - 1), k - 1); }
    }
  }

  lemma EndPlayKeeps(n: Node)
    requires NodeInv(n)
    ensures NodeInv(EndPlay(n)) && Grows(n, EndPlay(n))
  {
    hide NodeInv, Grows, RetireAll, RetireServer;
    RetireServerKeeps(n);
    RetireAllKeeps(n, |n.slots|);
  }

  lemma FlagKeeps(n: Node, initialized: bool)
    requires NodeInv(n)
    ensures NodeInv(n.(initialized := initialized)) && Grows(n, n.(initialized := initialized))
  {
    hide OutOk;
    RegistryFrame(n, n.(initialized := initialized));
  }

  lemma DoKeeps(n: Node, a: Action)
    requires NodeInv(n)
    ensures NodeInv(Do(n, a)) && Grows(n, Do(n, a))
  {
    hide NodeInv, Grows, ConnectToServer, DisconnectFromServer, DisconnectPeer, SendToServer, SendTo, BroadcastUpTo, PreAdvance,
      EndPlay;
    GrowsReflexive(n);
    match a
    case Start(created) => FlagKeeps(n, true);
    case Stop =>
      EndPlayKeeps(n);
      FlagKeeps(EndPlay(n), false);
      GrowsTransitive(n, EndPlay(n), EndPlay(n).(initialized := false));
    case Dial(route, now, wire) => ConnectKeeps(n, route, now, wire);
    case HangUp(wire) => HangUpKeeps(n, wire);
    case Drop(peer, wire) => DropKeeps(n, peer, wire);
    case ToServer(message, wire) => SendToServerKeeps(n, message, wire);
    case ToPeer(peer, message, wire) => SendToKeeps(n, peer, message, wire);
    case ToAll(message, wires) =>
      if |wires| == |n.slots| && n.policy.role.Server? { BroadcastKeeps(n, message, wires, |n.slots|); }
    case Before(now) => PreAdvanceKeeps(n, now);
    case After(now) =>
      AttemptBound(n);
      if n.policy.role.Server? { ServerIsDisconnected(n); }
      ClientFieldsKeep(n, PostAdvance(n, now));
    case Finish => EndPlayKeeps(n);
  }

  lemma BootKeeps(policy: Policy)
    ensures NodeInv(Boot(policy))
  {
    var n := Boot(policy);
    if CountAdmitted(n.slots) > 0 { CountPositive(n.slots, IsOccupied()); }
  }

  // ------------------------------------------------------------------ the system invariant

  /** A client's session and everything it ever sent belong to a handle the server gave to this very client. */
  ghost predicate ClientBacked(admissions: seq<Admission>, n: Node, c: nat) {
    && (n.state.Connected? ==> n.serverRoute == To(0) && n.serverPeer.IsValid()
                               && Admission(n.serverPeer, To(c), n.attempt) in admissions)
    && forall k :: 0 <= k < |n.sent| ==> n.sent[k].to == To(0) && Owns(admissions, n.sent[k].peer, To(c))
  }

  /** A message that node j republished was sent to node j, under that handle, by the node it names. */
  ghost predicate Attributed(sys: System, j: nat, p: Published)
    requires j < |sys|
  {
    && p.sender.To? && p.sender.node < |sys| && (p.sender.node == 0 <==> j != 0)
    && Sent(To(j), p.peer, p.message) in sys[p.sender.node].sent
    && Owns(sys[0].admissions, p.peer, if j == 0 then p.sender else To(j))
  }

  ghost predicate SystemInv(sys: System) {
    && |sys| > 0 && sys[0].policy.role.Server?
    && (forall i :: 0 <= i < |sys| ==> NodeInv(sys[i]))
    && (forall i :: 1 <= i < |sys| ==> sys[i].policy.role.Client? && ClientBacked(sys[0].admissions, sys[i], i))
    && (forall k :: 0 <= k < |sys[0].admissions| ==> sys[0].admissions[k].route.To? && 0 < sys[0].admissions[k].route.node < |sys|)
    && (forall j, k :: 0 <= j < |sys| && 0 <= k < |sys[j].published| ==> Attributed(sys, j, sys[j].published[k]))
  }

  lemma OwnsGrows(a: seq<Admission>, b: seq<Admission>, p: PeerId, route: Route)
    requires a <= b && Owns(a, p, route)
    ensures Owns(b, p, route)
  {
    var k :| 0 <= k < |a| && a[k].peer == p && a[k].route == route;
    assert b[k] == a[k];
  }

  lemma ClientBackedGrows(a: seq<Admission>, b: seq<Admission>, n: Node, c: nat)
    requires a <= b && ClientBacked(a, n, c)
    ensures ClientBacked(b, n, c)
  {
    hide Owns;
    forall k | 0 <= k < |n.sent| ensures Owns(b, n.sent[k].peer, To(c)) { OwnsGrows(a, b, n.sent[k].peer, To(c)); }
  }

  /** Replacing one node by a later version of it keeps what other nodes rely on. */
  lemma AttributedGrows(sys: System, t: System, j: nat, p: Published)
    requires |sys| == |t| && j < |sys| && Attributed(sys, j, p)
    requires forall i :: 0 <= i < |sys| ==> Grows(sys[i], t[i])
    ensures Attributed(t, j, p)
  {
    hide Owns;
    OwnsGrows(sys[0].admissions, t[0].admissions, p.peer, if j == 0 then p.sender else To(j));
    assert Grows(sys[p.sender.node], t[p.sender.node]);
    assert Grows(sys[0], t[0]);
  }

  /** What has to be checked when node j moves on: its own new facts, and nothing about anybody else. */
  lemma ReplaceKeeps(sys: System, j: nat, m: Node)
    requires SystemInv(sys) && j < |sys| && NodeInv(m) && Grows(sys[j], m)
    requires j > 0 ==> ClientBacked(sys[0].admissions, m, j)
    requires j == 0 ==> forall k :: |sys[0].admissions| <= k < |m.admissions| ==>
                                      m.admissions[k].route.To? && 0 < m.admissions[k].route.node < |sys|
    requires forall k :: |sys[j].published| <= k < |m.published| ==> Attributed(sys, j, m.published[k])
    ensures SystemInv(sys[j := m])
  {
    hide NodeInv, ClientBacked, Attributed;
    var t := sys[j := m];
    forall i | 0 <= i < |sys| ensures Grows(sys[i], t[i]) { GrowsReflexive(sys[i]); }
    forall i | 1 <= i < |sys| ensures ClientBacked(t[0].admissions, t[i], i) {
      ClientBackedGrows(sys[0].admissions, t[0].admissions, t[i], i);
    }
    forall i, k | 0 <= i < |t| && 0 <= k < |t[i].published| ensures Attributed(t, i, t[i].published[k]) {
      assert Attributed(sys, i, t[i].published[k]);
      AttributedGrows(sys, t, i, t[i].published[k]);
    }
  }

  // ------------------------------------------------------------------ steps

  /** What one node's own operation can add to its promises as a client. */
  lemma DoKeepsBacking(n: Node, a: Action, admissions: seq<Admission>, c: nat)
    requires NodeInv(n) && n.policy.role.Client? && ClientBacked(admissions, n, c)
    ensures ClientBacked(admissions, Do(n, a), c) && Do(n, a).published == n.published
  {
    hide NodeInv, Owns, RetirePeer, SlotTurn, BroadcastUpTo;
    if a.ToServer? && n.state.Connected? {
      AdmissionOwns(admissions, Admission(n.serverPeer, To(c), n.attempt));
    }
  }

  lemma AdmissionOwns(admissions: seq<Admission>, a: Admission)
    requires a in admissions
    ensures Owns(admissions, a.peer, a.route)
  {
  }

  lemma {:induction false} BroadcastPublishesNothing(n: Node, message: AppMessage, wire: seq<SendResult>, k: nat)
    requires |wire| == |n.slots| && k <= |n.slots|
    ensures var m := BroadcastUpTo(n, message, wire, k).0; m.published == n.published && m.admissions == n.admissions
  {
    if k > 0 { BroadcastPublishesNothing(n, message, wire, k - 1); }
  }

  lemma {:induction false} ServerTurnPublishesNothing(n: Node, k: nat, now: nat)
    requires k <= |n.slots|
    ensures var m := ServerTurn(n, k, now); m.published == n.published && m.admissions == n.admissions
  {
    if k > 0 { ServerTurnPublishesNothing(n, k - 1, now); }
  }

  lemma {:induction false} RetireAllPublishesNothing(n: Node, k: nat)
    requires k <= |n.slots|
    ensures var m := RetireAll(n, k); m.published == n.published && m.admissions == n.admissions
  {
    if k > 0 { RetireAllPublishesNothing(n, k - 1); }
  }

  /** Nothing a server does on its own admits anybody or publishes anything. */
  lemma DoPublishesNothing(n: Node, a: Action)
    requires n.policy.role.Server?
    ensures Do(n, a).published == n.published && Do(n, a).admissions == n.admissions
  {
    hide BroadcastUpTo, ServerTurn, RetireAll;
    RetireAllPublishesNothing(n, |n.slots|);
    match a {
      case ToAll(message, wires) =>
        if |wires| == |n.slots| { BroadcastPublishesNothing(n, message, wires, |n.slots|); }
      case Before(now) => ServerTurnPublishesNothing(n.(now := now), |n.slots|, now);
      case _ =>
    }
  }

  lemma ActKeeps(sys: System, i: nat, a: Action)
    requires SystemInv(sys) && i < |sys|
    ensures SystemInv(sys[i := Do(sys[i], a)])
  {
    hide NodeInv, ClientBacked, Attributed, Do;
    DoKeeps(sys[i], a);
    if i == 0 { DoPublishesNothing(sys[0], a); } else { DoKeepsBacking(sys[i], a, sys[0].admissions, i); }
    ReplaceKeeps(sys, i, Do(sys[i], a));
  }

  /** A frame in a node's outbox is either harmless or backed by the logs. */
  lemma EnvelopeIsBacked(n: Node, k: nat)
    requires NodeInv(n) && k < |n.out|
    ensures EnvelopeOk(n.policy.role, n.admissions, n.sent, n.out[k])
  {
  }

  /** What a client believes after a delivery is backed by the server's log. */
  lemma ClientReceives(sys: System, i: nat, k: nat, j: nat)
    requires SystemInv(sys) && i < |sys| && 0 < j < |sys| && k < |sys[i].out| && sys[i].out[k].to == To(j)
    ensures ClientBacked(sys[0].admissions, Receive(sys[j], To(i), sys[i].out[k].packet), j)
  {
    hide NodeInv, Attributed, Owns, FindByRoute, RetirePeer;
    EnvelopeIsBacked(sys[i], k);
    assert ClientBacked(sys[0].admissions, sys[j], j);
  }

  lemma HolderRoute(n: Node, sender: Route, peer: PeerId)
    requires NodeInv(n) && FindByRoute(n.slots, sender, 0) < |n.slots|
    requires n.slots[FindByRoute(n.slots, sender, 0)].peer == peer
    ensures Owns(n.admissions, peer, sender) && Holds(n.slots, peer)
  {
    HolderOwns(n, FindByRoute(n.slots, sender, 0));
  }

  lemma NewPublication(n: Node, sender: Route, packet: Packet)
    ensures var m := Receive(n, sender, packet);
            m.published == n.published
            || (packet.Routed? && m.published == n.published + [Published(sender, packet.peer, packet.message)]
                && if n.policy.role.Client? then FromServer(n, sender, packet.peer)
                   else FindByRoute(n.slots, sender, 0) < |n.slots|
                        && n.slots[FindByRoute(n.slots, sender, 0)].peer == packet.peer)
  {
    hide FindByRoute, Admit;
    if packet.ConnectRequest? { RequestPublishesNothing(n, sender, packet.version, packet.attempt); }
  }

  lemma RequestPublishesNothing(n: Node, sender: Route, version: nat, attempt: nat)
    ensures var m := HandleConnectRequest(n, sender, version, attempt);
            m.published == n.published && m.sent == n.sent
            && (m.admissions == n.admissions
                || exists p :: m.admissions == n.admissions + [Admission(p, sender, attempt)] && n.policy.role.Server? && sender.To?)
  {
    hide FindByRoute, FindFree, CountAdmitted;
  }

  lemma NewAdmission(n: Node, sender: Route, packet: Packet)
    ensures var m := Receive(n, sender, packet);
            m.admissions == n.admissions
            || (packet.ConnectRequest? && sender.To?
                && exists p :: m.admissions == n.admissions + [Admission(p, sender, packet.attempt)])
  {
    hide FindByRoute, HandleConnectRequest;
    if packet.ConnectRequest? { RequestPublishesNothing(n, sender, packet.version, packet.attempt); }
  }

  /** The packet a node republishes was sent to it, under the handle it names. */
  lemma PublicationIsAttributed(sys: System, i: nat, k: nat, j: nat)
    requires SystemInv(sys) && i < |sys| && j < |sys| && k < |sys[i].out| && sys[i].out[k].to == To(j)
    ensures var m := Receive(sys[j], To(i), sys[i].out[k].packet);
            m.published == sys[j].published
            || (m.published[..|m.published| - 1] == sys[j].published && |m.published| > 0
                && Attributed(sys, j, m.published[|m.published| - 1]))
  {
    hide NodeInv, Owns, Receive, FindByRoute;
    var packet := sys[i].out[k].packet;
    NewPublication(sys[j], To(i), packet);
    EnvelopeIsBacked(sys[i], k);
    var m := Receive(sys[j], To(i), packet);
    if m.published != sys[j].published {
      if j == 0 {
        HolderRoute(sys[0], To(i), packet.peer);
        OwnedRoutesAreClients(sys, packet.peer, To(i));
      } else {
        assert ClientBacked(sys[0].admissions, sys[j], j);
        AdmissionOwns(sys[0].admissions, Admission(packet.peer, To(j), sys[j].attempt));
      }
    }
  }

  lemma OwnedRoutesAreClients(sys: System, p: PeerId, route: Route)
    requires SystemInv(sys) && Owns(sys[0].admissions, p, route)
    ensures route.To? && 0 < route.node < |sys|
  {
  }

  lemma DeliverKeeps(sys: System, i: nat, k: nat, j: nat)
    requires SystemInv(sys) && i < |sys| && j < |sys| && k < |sys[i].out| && sys[i].out[k].to == To(j)
    ensures SystemInv(sys[j := Receive(sys[j], To(i), sys[i].out[k].packet)])
  {
    hide NodeInv, ClientBacked, Attributed, Receive;
    var packet := sys[i].out[k].packet;
    var m := Receive(sys[j], To(i), packet);
    ReceiveKeeps(sys[j], To(i), packet);
    if j > 0 { ClientReceives(sys, i, k, j); }
    EnvelopeIsBacked(sys[i], k);
    NewAdmission(sys[j], To(i), packet);
    PublicationIsAttributed(sys, i, k, j);
    ReplaceKeeps(sys, j, m);
  }

  lemma StepKeeps(sys: System, e: Event)
    requires SystemInv(sys)
    ensures SystemInv(Step(sys, e)) && |Step(sys, e)| == |sys|
    ensures forall i :: 0 <= i < |sys| ==> Grows(sys[i], Step(sys, e)[i])
  {
    hide SystemInv, Do, Receive, NodeInv, Grows;
    forall i | 0 <= i < |sys| ensures Grows(sys[i], sys[i]) && NodeInv(sys[i]) { GrowsReflexive(sys[i]); NodesAreOk(sys, i); }
    match e
    case Act(i, a) => if i < |sys| { ActKeeps(sys, i, a); DoKeeps(sys[i], a); }
    case Deliver(i, k, j) =>
      if i < |sys| && j < |sys| && k < |sys[i].out| && sys[i].out[k].to == To(j) {
        DeliverKeeps(sys, i, k, j);
        ReceiveKeeps(sys[j], To(i), sys[i].out[k].packet);
      }
  }

  lemma NodesAreOk(sys: System, i: nat)
    requires SystemInv(sys) && i < |sys|
    ensures NodeInv(sys[i])
  {
  }

  lemma BootInv(sys: System)
    requires Booted(sys)
    ensures SystemInv(sys)
  {
    hide NodeInv;
    forall i | 0 <= i < |sys| ensures NodeInv(sys[i]) { BootKeeps(sys[i].policy); }
  }

  /** The invariant holds in every state of every run. */
  lemma {:induction false} RunKeeps(sys: System, es: seq<Event>)
    requires SystemInv(sys)
    ensures SystemInv(Run(sys, es)) && |Run(sys, es)| == |sys|
    ensures forall i :: 0 <= i < |sys| ==> Grows(sys[i], Run(sys, es)[i])
  {
    hide SystemInv, Step, Grows;
    if es == [] {
      forall i | 0 <= i < |sys| ensures Grows(sys[i], sys[i]) { GrowsReflexive(sys[i]); }
    } else {
      var m := Run(sys, es[..|es| - 1]);
      RunKeeps(sys, es[..|es| - 1]);
      StepKeeps(m, es[|es| - 1]);
      forall i | 0 <= i < |sys| ensures Grows(sys[i], Run(sys, es)[i]) {
        GrowsTransitive(sys[i], m[i], Step(m, es[|es| - 1])[i]);
      }
    }
  }
}
