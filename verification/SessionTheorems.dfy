/** The session guarantees, stated over every run from a freshly booted system. */
module SessionTheorems {
  import opened Basics
  import opened SessionModel
  import opened SessionProofs

  lemma Reached(boot: System, es: seq<Event>)
    requires Booted(boot)
    ensures SystemInv(Run(boot, es)) && |Run(boot, es)| == |boot|
  {
    hide Run, SystemInv;
    BootInv(boot);
    RunKeeps(boot, es);
  }

  // ------------------------------------------------------------------ handles

  /** The server gives every handle out at most once, and every handle it gave out is live or retired, never both. */
  lemma HandlesAreAssignedOnce(boot: System, es: seq<Event>)
    requires Booted(boot)
    ensures var n := Run(boot, es)[0];
            && (forall j, k :: 0 <= j < k < |n.admissions| ==> n.admissions[j].peer != n.admissions[k].peer)
            && (forall k :: 0 <= k < |n.admissions| ==>
                              (Holds(n.slots, n.admissions[k].peer) <==> n.admissions[k].peer !in n.retirements))
            && |n.admissions| == |n.retirements| + CountAdmitted(n.slots)
  {
    hide Run, SystemInv;
    Reached(boot, es);
    NodesAreOk(Run(boot, es), 0);
  }

  /** Occupied slots have distinct routes, sit at the index their handle names, and respect the admission limit. */
  lemma RegistryIsWellFormed(boot: System, es: seq<Event>)
    requires Booted(boot)
    ensures var n := Run(boot, es)[0];
            && CountAdmitted(n.slots) <= n.policy.maximumPeers
            && (forall i, j :: 0 <= i < j < |n.slots| && n.slots[i].occupied && n.slots[j].occupied ==>
                                 n.slots[i].route != n.slots[j].route)
            && (forall i :: 0 <= i < |n.slots| && n.slots[i].occupied ==> n.slots[i].peer.index == i && !n.slots[i].retired)
  {
    hide Run, SystemInv;
    Reached(boot, es);
    var n := Run(boot, es)[0];
    NodesAreOk(Run(boot, es), 0);
    forall i | 0 <= i < |n.slots| && n.slots[i].occupied ensures n.slots[i].peer.index == i && !n.slots[i].retired {
      assert SlotOk(n.slots, n.admissions, i);
    }
  }

  // ------------------------------------------------------------------ agreement

  lemma AdmissionIsUnique(n: Node, a: Admission, b: Admission)
    requires NodeInv(n) && a in n.admissions && b in n.admissions && a.peer == b.peer
    ensures a == b
  {
  }

  lemma ConnectedIsBacked(sys: System, c: nat)
    requires SystemInv(sys) && 0 < c < |sys| && sys[c].state.Connected?
    ensures Admission(sys[c].serverPeer, To(c), sys[c].attempt) in sys[0].admissions && sys[c].serverRoute == To(0)
  {
    hide NodeInv, Attributed;
    assert ClientBacked(sys[0].admissions, sys[c], c);
  }

  /**
   A connected client and the server agree: the server admitted exactly this route and attempt under the
   client's handle, and for as long as its slot still holds that handle, the slot is this client's.
   */
  lemma SessionAgreement(boot: System, es: seq<Event>, c: nat)
    requires Booted(boot) && 0 < c < |boot| && Run(boot, es)[c].state.Connected?
    ensures var sys := Run(boot, es);
            var p := sys[c].serverPeer;
            && Admission(p, To(c), sys[c].attempt) in sys[0].admissions
            && (Holds(sys[0].slots, p) ==>
                  sys[0].slots[p.index].route == To(c) && sys[0].slots[p.index].attempt == sys[c].attempt)
  {
    hide Run, SystemInv, NodeInv;
    var sys := Run(boot, es);
    Reached(boot, es);
    NodesAreOk(sys, 0);
    ConnectedIsBacked(sys, c);
    var p := sys[c].serverPeer;
    if Holds(sys[0].slots, p) {
      HolderOwns(sys[0], p.index);
      var s := sys[0].slots[p.index];
      AdmissionIsUnique(sys[0], Admission(p, To(c), sys[c].attempt), Admission(s.peer, s.route, s.attempt));
    }
  }

  /** Two connected clients never share a handle. */
  lemma ClientsNeverShareAHandle(boot: System, es: seq<Event>, c: nat, d: nat)
    requires Booted(boot) && 0 < c < d < |boot|
    requires Run(boot, es)[c].state.Connected? && Run(boot, es)[d].state.Connected?
    ensures Run(boot, es)[c].serverPeer != Run(boot, es)[d].serverPeer
  {
    hide Run, SystemInv, NodeInv;
    var sys := Run(boot, es);
    Reached(boot, es);
    NodesAreOk(sys, 0);
    ConnectedIsBacked(sys, c);
    ConnectedIsBacked(sys, d);
    if sys[c].serverPeer == sys[d].serverPeer {
      AdmissionIsUnique(sys[0], Admission(sys[c].serverPeer, To(c), sys[c].attempt),
                        Admission(sys[d].serverPeer, To(d), sys[d].attempt));
    }
  }

  /** Dialling a server that has a slot to give, with nothing lost, ends with both sides in agreement. */
  lemma HandshakeCompletes(sys: System, c: nat, now: nat)
    requires SystemInv(sys) && 0 < c < |sys|
    requires sys[0].initialized && sys[c].initialized && sys[c].attempt < UINT32_MAX
    requires sys[c].policy.version == sys[0].policy.version
    requires var i := FindAdmissionSlot(sys[0], To(c));
             i < |sys[0].slots| && (sys[0].slots[i].occupied ==>
               sys[0].slots[i].attempt <= sys[c].attempt && sys[0].slots[i].peer.generation < UINT32_MAX)
    ensures var es := [Act(c, Dial(To(0), now, SendSuccess)), Deliver(c, |sys[c].out|, 0),
                       Deliver(0, |sys[0].out|, c)];
            var t := Run(sys, es);
            && |t| == |sys| && t[c].state.Connected? && t[c].attempt == sys[c].attempt + 1
            && Holds(t[0].slots, t[c].serverPeer) && t[0].slots[t[c].serverPeer.index].route == To(c)
  {
    hide SystemInv, NodeInv, FindAdmissionSlot, CountAdmitted;
    var i := FindAdmissionSlot(sys[0], To(c));
    NodesAreOk(sys, 0);
    NodesAreOk(sys, c);
    Roles(sys, c);
    var e0, e1, e2 := Act(c, Dial(To(0), now, SendSuccess)), Deliver(c, |sys[c].out|, 0), Deliver(0, |sys[0].out|, c);
    RunOfThree(sys, e0, e1, e2);
    var client := ConnectToServer(sys[c], To(0), now, SendSuccess).0;
    var s1 := Step(sys, e0);
    assert s1 == sys[c := client];
    SlotIsUsable(sys[0], To(c), sys[c].attempt + 1);
    var server := HandleConnectRequest(sys[0], To(c), sys[0].policy.version, sys[c].attempt + 1);
    var s2 := Step(s1, e1);
    assert s2 == s1[0 := server];
    assert server.out[|sys[0].out|] == Envelope(To(c), ConnectAccepted(sys[c].attempt + 1, server.slots[i].peer));
  }

  lemma Roles(sys: System, c: nat)
    requires SystemInv(sys) && 0 < c < |sys|
    ensures sys[0].policy.role.Server? && sys[c].policy.role.Client?
  {
  }

  lemma RunOfThree(sys: System, a: Event, b: Event, c: Event)
    ensures Run(sys, [a, b, c]) == Step(Step(Step(sys, a), b), c)
  {
    hide Step;
    assert [a, b, c][..2] == [a, b] && [a, b][..1] == [a] && [a][..0] == [];
    assert Run(sys, [a]) == Step(Run(sys, []), a);
    assert Run(sys, [a, b]) == Step(Run(sys, [a]), b);
  }

  /** A newer attempt from a route with a usable slot is admitted, and the acceptance is the next frame out. */
  lemma SlotIsUsable(n: Node, sender: Route, attempt: nat)
    requires NodeInv(n) && n.policy.role.Server? && sender.To?
    requires var i := FindAdmissionSlot(n, sender);
             i < |n.slots| && (n.slots[i].occupied ==> n.slots[i].attempt < attempt && n.slots[i].peer.generation < UINT32_MAX)
    ensures var i, m := FindAdmissionSlot(n, sender), HandleConnectRequest(n, sender, n.policy.version, attempt);
            && |m.slots| == |n.slots| && m.slots[i].occupied && m.slots[i].peer.index == i && m.slots[i].route == sender
            && m.slots[i].peer.IsValid()
            && m.out == n.out + [Envelope(sender, ConnectAccepted(attempt, m.slots[i].peer))]
  {
    hide FindAdmissionSlot, CountAdmitted, Ledger, OutOk;
    var i := FindAdmissionSlot(n, sender);
    AdmissionSlotIsFree(n, sender);
    assert SlotOk(n.slots, n.admissions, i);
  }

  // ------------------------------------------------------------------ attribution

  lemma PublishedIsAttributed(sys: System, j: nat, k: nat)
    requires SystemInv(sys) && j < |sys| && k < |sys[j].published|
    ensures Attributed(sys, j, sys[j].published[k])
  {
    hide NodeInv, Attributed;
  }

  lemma OwnersAgree(n: Node, p: PeerId, r: Route, s: Route)
    requires NodeInv(n) && Owns(n.admissions, p, r) && Owns(n.admissions, p, s)
    ensures r == s
  {
    hide Ledger, OutOk, SlotOk;
  }

  /**
   Every application message the server republishes with source P was sent with that channel, name and
   payload, to this server and as P, by a client that P was given to; and no other client was given P.
   */
  lemma ServerMessagesAreAttributed(boot: System, es: seq<Event>, k: nat)
    requires Booted(boot) && k < |Run(boot, es)[0].published|
    ensures var sys := Run(boot, es);
            var m := sys[0].published[k];
            && m.sender.To? && 0 < m.sender.node < |sys|
            && Sent(To(0), m.peer, m.message) in sys[m.sender.node].sent
            && Owns(sys[0].admissions, m.peer, m.sender)
            && forall r :: Owns(sys[0].admissions, m.peer, r) ==> r == m.sender
  {
    hide Run, SystemInv, NodeInv, Owns;
    Reached(boot, es);
    var sys := Run(boot, es);
    var m := sys[0].published[k];
    PublishedIsAttributed(sys, 0, k);
    NodesAreOk(sys, 0);
    forall r | Owns(sys[0].admissions, m.peer, r) ensures r == m.sender { OwnersAgree(sys[0], m.peer, r, m.sender); }
  }

  /** Every application message a client republishes was sent by the server, to this client, under its handle. */
  lemma ClientMessagesAreAttributed(boot: System, es: seq<Event>, c: nat, k: nat)
    requires Booted(boot) && 0 < c < |boot| && k < |Run(boot, es)[c].published|
    ensures var sys := Run(boot, es);
            var m := sys[c].published[k];
            && m.sender == To(0) && Sent(To(c), m.peer, m.message) in sys[0].sent && Owns(sys[0].admissions, m.peer, To(c))
  {
    hide Run, SystemInv, NodeInv, Owns;
    Reached(boot, es);
    PublishedIsAttributed(Run(boot, es), c, k);
  }

  lemma ClientSends(n: Node, a: Action)
    requires n.policy.role.Client?
    ensures Do(n, a).sent == n.sent
            || (n.state.Connected? && a.ToServer? && Do(n, a).sent == n.sent + [Sent(n.serverRoute, n.serverPeer, a.message)])
  {
    hide BroadcastUpTo, ServerTurn, RetireAll;
  }

  lemma ReceiveSendsNothing(n: Node, sender: Route, packet: Packet)
    ensures Receive(n, sender, packet).sent == n.sent
  {
    hide FindByRoute, HandleConnectRequest;
    if packet.ConnectRequest? { RequestPublishesNothing(n, sender, packet.version, packet.attempt); }
  }

  /** The `j`-th event is the client's own call for this message, made while connected under the handle the log records. */
  ghost predicate SentAt(boot: System, es: seq<Event>, c: nat, m: Sent, j: nat)
    requires c < |boot|
  {
    && j < |es| && es[j].Act? && es[j].node == c && es[j].action.ToServer? && es[j].action.message == m.message
    && var n := Run(boot, es[..j])[c]; n.state.Connected? && m.to == n.serverRoute && m.peer == n.serverPeer
  }

  lemma ClientRole(sys: System, c: nat)
    requires SystemInv(sys) && 0 < c < |sys|
    ensures sys[c].policy.role.Client?
  {
  }

  /** Every message in a client's log of sent ones was sent by a call it made while connected, under the handle it then held. */
  lemma {:induction false} SentWhileConnected(boot: System, es: seq<Event>, c: nat, k: nat)
    requires Booted(boot) && 0 < c < |boot| && k < |Run(boot, es)[c].sent|
    ensures exists j: nat :: SentAt(boot, es, c, Run(boot, es)[c].sent[k], j)
  {
    hide SystemInv, Do, Receive, Booted;
    if es == [] {
      NothingSentYet(boot, c);
    } else {
      var before, e := es[..|es| - 1], es[|es| - 1];
      var sys := Run(boot, before);
      Reached(boot, before);
      ClientRole(sys, c);
      match e {
        case Act(i, a) => if i == c { ClientSends(sys[c], a); }
        case Deliver(i, f, t) => if t == c && i < |sys| && f < |sys[i].out| { ReceiveSendsNothing(sys[c], To(i), sys[i].out[f].packet); }
      }
      var m := Run(boot, es)[c].sent[k];
      if k < |sys[c].sent| {
        SentWhileConnected(boot, before, c, k);
        var j: nat :| SentAt(boot, before, c, m, j);
        assert before[..j] == es[..j];
        assert SentAt(boot, es, c, m, j);
      } else {
        assert SentAt(boot, es, c, m, |before|);
      }
    }
  }

  lemma NothingSentYet(boot: System, c: nat)
    requires Booted(boot) && c < |boot|
    ensures boot[c].sent == []
  {
  }

  // ------------------------------------------------------------------ retired generations

  /** One step republishes only under a handle its slot holds at that moment. */
  lemma StepPublishesLiveHandles(sys: System, e: Event)
    requires SystemInv(sys)
    ensures var t := Step(sys, e)[0];
            t.published == sys[0].published
            || exists m: Published :: t.published == sys[0].published + [m] && Holds(sys[0].slots, m.peer)
  {
    hide SystemInv, NodeInv, Do, Receive, FindByRoute, Owns;
    ServerRole(sys);
    NodesAreOk(sys, 0);
    match e {
      case Act(i, a) => if i == 0 { DoPublishesNothing(sys[0], a); }
      case Deliver(i, k, j) =>
        if i < |sys| && j == 0 && k < |sys[i].out| && sys[i].out[k].to == To(0) {
          var packet := sys[i].out[k].packet;
          NewPublication(sys[0], To(i), packet);
          if Receive(sys[0], To(i), packet).published != sys[0].published { HolderRoute(sys[0], To(i), packet.peer); }
        }
    }
  }

  lemma ServerRole(sys: System)
    requires SystemInv(sys)
    ensures |sys| > 0 && sys[0].policy.role.Server?
  {
  }

  lemma RetiredIsNotHeld(n: Node, p: PeerId)
    requires NodeInv(n) && p in n.retirements
    ensures !Holds(n.slots, p)
  {
  }

  /** Traffic of a retired handle is never republished again, whatever is still in flight. */
  lemma {:induction false} RetiredHandlesStaySilent(sys: System, es: seq<Event>, p: PeerId)
    requires SystemInv(sys) && p in sys[0].retirements
    ensures var t := Run(sys, es);
            && |t| == |sys| && p in t[0].retirements && |sys[0].published| <= |t[0].published|
            && forall k :: |sys[0].published| <= k < |t[0].published| ==> t[0].published[k].peer != p
  {
    hide SystemInv, Step, NodeInv;
    if es != [] {
      var m := Run(sys, es[..|es| - 1]);
      RetiredHandlesStaySilent(sys, es[..|es| - 1], p);
      RunKeeps(sys, es[..|es| - 1]);
      StepKeeps(m, es[|es| - 1]);
      StepPublishesLiveHandles(m, es[|es| - 1]);
      ServerRole(m);
      NodesAreOk(m, 0);
      RetiredIsNotHeld(m[0], p);
      assert Grows(m[0], Step(m, es[|es| - 1])[0]);
    }
  }

  // ------------------------------------------------------------------ sender identities

  ghost predicate Encodable(p: PeerId) { p.index < INVALID_INDEX && p.generation <= UINT32_MAX }

  /** Source values and valid handles are in one-to-one correspondence. */
  lemma SourceIdRoundTrip(p: PeerId, v: nat)
    ensures Encodable(p) ==> ReadSourceId(MakeSourceId(p)) == p && MakeSourceId(p) != 0
    ensures ReadSourceId(v).IsValid() ==> Encodable(ReadSourceId(v)) && MakeSourceId(ReadSourceId(v)) == v
  {
  }

  /** The server resolves a source value to a handle exactly when a slot holds that handle right now. */
  lemma ResolvesLivePeersOnly(boot: System, es: seq<Event>, v: nat)
    requires Booted(boot)
    ensures var n := Run(boot, es)[0];
            var r := ResolveSenderPeer(n, v);
            if Holds(n.slots, ReadSourceId(v)) then r == ReadSourceId(v) && MakeSourceId(r) == v else !r.IsValid()
  {
    hide Run, SystemInv, ReadSourceId, MakeSourceId;
    var n := Run(boot, es)[0];
    Reached(boot, es);
    NodesAreOk(Run(boot, es), 0);
    ServerRole(Run(boot, es));
    SourceIdRoundTrip(NO_PEER, v);
    forall k | 0 <= k < |n.slots| && n.slots[k].occupied ensures n.slots[k].peer.index == k { HolderOwns(n, k); }
  }
}
