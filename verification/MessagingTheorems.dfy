/** What an acknowledgement proves, and how tracked messages are transmitted, over every run. */
module MessagingTheorems {
  import opened Basics
  import opened WireCodec
  import opened MessagingModel
  import opened MessagingProofs

  /** Node k has address k; a frame arrives over any link, from the node that transmitted it. */
  type System = seq<Node>

  datatype Event =
    | Act(node: nat, action: Action)
    | Arrive(source: nat, frame: nat, target: nat, link: nat)

  predicate Arrives(sys: System, e: Event) {
    && e.Arrive? && e.source < |sys| && e.target < |sys| && e.frame < |sys[e.source].wire|
    && sys[e.source].wire[e.frame].route.address == e.target
  }

  function Step(sys: System, e: Event): (t: System)
    ensures |t| == |sys|
  {
    if e.Act? then
      if e.node < |sys| && |sys[e.node].links| == MAX_LINKS && |sys[e.node].pending| == MAX_PENDING
      then sys[e.node := Do(sys[e.node], e.action)] else sys
    else if Arrives(sys, e) then
      sys[e.target := ReceiveFrame(sys[e.target], Route(e.link, e.source), sys[e.source].wire[e.frame].frame)]
    else sys
  }

  function Run(sys: System, es: seq<Event>): (t: System)
    ensures |t| == |sys|
  {
    if es == [] then sys else Step(Run(sys, es[..|es| - 1]), es[|es| - 1])
  }

  ghost predicate Booted(sys: System) {
    forall i :: 0 <= i < |sys| ==> sys[i] == Boot(sys[i].retryInterval, sys[i].maxAttempts)
  }

  /** Names are 32-bit, and no node creates a name with reliability after having created it without. */
  ghost predicate Steady(sys: System, e: Event) {
    e.Act? ==> InRange(e.action) && (e.node < |sys| ==> !Reuses(sys[e.node], e.action))
  }

  /** What a caller of channel creation can check before the call. */
  predicate Reuses(n: Node, a: Action) { a.Create? && a.channel.reliable && a.channel.name in n.plain }

  ghost predicate SteadyRun(boot: System, es: seq<Event>) {
    forall k :: 0 <= k < |es| ==> Steady(Run(boot, es[..k]), es[k])
  }

  ghost predicate InRangeRun(es: seq<Event>) { forall k :: 0 <= k < |es| && es[k].Act? ==> InRange(es[k].action) }

  // ------------------------------------------------------------------ what the frames on the wire mean

  /** A channel is reliable exactly if its name was never created without reliability. */
  ghost predicate Agreed(n: Node) {
    UNSET_NAME !in n.plain
    && forall k :: 0 <= k < |n.channels| ==> (n.channels[k].reliable <==> n.channels[k].name !in n.plain)
  }

  /** A message waits for its acknowledgement only on a channel that exists and was never without reliability. */
  ghost predicate WaitsOnReliable(n: Node) {
    forall k :: 0 <= k < |n.pending| && n.pending[k].awaiting ==>
      n.pending[k].channel !in n.plain && HasChannel(n, n.pending[k].channel)
  }

  predicate Vouched(delivered: seq<Delivery>, route: Route, channel: nat, id: nat) {
    exists k :: 0 <= k < |delivered| && delivered[k].sender == Some(route) && delivered[k].channel == channel
                && delivered[k].id == Some(id)
  }

  /** An acknowledgement was earned by a delivery; any other frame on an always reliable name is a tracked message. */
  ghost predicate FrameOk(n: Node, route: Route, frame: Bytes) {
    && |frame| >= HEADER_BYTES
    && if NameOf(frame) == ACKNOWLEDGEMENT_NAME then |frame| == 16 && Vouched(n.delivered, route, ChannelOf(frame), IdOf(frame))
       else ChannelOf(frame) !in n.plain ==>
              |frame| >= 16 && IdOf(frame) < |n.tracked|
              && n.tracked[IdOf(frame)] == Tracked(ChannelOf(frame), route, Message(NameOf(frame), frame[16..]))
  }

  ghost predicate WireOk(n: Node) {
    forall k :: 0 <= k < |n.wire| ==> FrameOk(n, n.wire[k].route, n.wire[k].frame)
  }

  /** A reliable delivery at node j, on a name its sender never had without reliability, is a message tracked for node j. */
  ghost predicate DeliveryOk(sys: System, j: nat, d: Delivery) {
    d.id.Some? ==>
      && d.sender.Some? && d.sender.value.address < |sys|
      && var sender := sys[d.sender.value.address];
         d.channel !in sender.plain ==>
           d.id.value < |sender.tracked|
           && var t := sender.tracked[d.id.value]; t.channel == d.channel && t.message == d.message && t.route.address == j
  }

  /** Node `at` delivered exactly this tracked message of node j. */
  predicate DeliveredAt(sys: System, at: nat, j: nat, id: nat, t: Tracked) {
    at < |sys| && exists k :: 0 <= k < |sys[at].delivered| && IsDeliveryOf(sys[at].delivered[k], j, id, t)
  }

  predicate IsDeliveryOf(d: Delivery, j: nat, id: nat, t: Tracked) {
    d.id == Some(id) && d.channel == t.channel && d.message == t.message && d.sender.Some? && d.sender.value.address == j
  }

  ghost predicate AcknowledgedOk(sys: System, j: nat)
    requires j < |sys|
  {
    forall k :: 0 <= k < |sys[j].acknowledged| ==>
      sys[j].acknowledged[k] < |sys[j].tracked|
      && var id := sys[j].acknowledged[k];
         DeliveredAt(sys, sys[j].tracked[id].route.address, j, id, sys[j].tracked[id])
  }

  ghost predicate LocalOk(n: Node) { NodeInv(n) && Agreed(n) && WireOk(n) && WaitsOnReliable(n) }

  ghost predicate SystemInv(sys: System) {
    && (forall i :: 0 <= i < |sys| ==> LocalOk(sys[i]) && AcknowledgedOk(sys, i))
    && (forall j, k :: 0 <= j < |sys| && 0 <= k < |sys[j].delivered| ==> DeliveryOk(sys, j, sys[j].delivered[k]))
  }

  /** History only grows. */
  predicate Grows(n: Node, m: Node) { n.tracked <= m.tracked && n.delivered <= m.delivered && n.plain <= m.plain }

  lemma FrameOkGrows(n: Node, m: Node, route: Route, frame: Bytes)
    requires Grows(n, m) && FrameOk(n, route, frame)
    ensures FrameOk(m, route, frame)
  {
    hide ChannelOf, NameOf, IdOf;
    if NameOf(frame) == ACKNOWLEDGEMENT_NAME {
      var k :| 0 <= k < |n.delivered| && n.delivered[k].sender == Some(route) && n.delivered[k].channel == ChannelOf(frame)
               && n.delivered[k].id == Some(IdOf(frame));
      assert m.delivered[k] == n.delivered[k];
    }
  }

  /** A node whose outbox gained at most one frame, and whose history grew, still sends only meaningful frames. */
  lemma WireExtends(n: Node, m: Node)
    requires WireOk(n) && Grows(n, m)
    requires m.wire == n.wire || (|m.wire| == |n.wire| + 1 && n.wire <= m.wire
             && FrameOk(m, m.wire[|n.wire|].route, m.wire[|n.wire|].frame))
    ensures WireOk(m)
  {
    hide FrameOk;
    forall k | 0 <= k < |m.wire| ensures FrameOk(m, m.wire[k].route, m.wire[k].frame) {
      if k < |n.wire| {
        assert m.wire[k] == n.wire[k];
        FrameOkGrows(n, m, n.wire[k].route, n.wire[k].frame);
      }
    }
  }

  lemma DataFrameReads(channel: nat, m: Message)
    requires channel <= UINT32_MAX && m.name <= UINT32_MAX
    ensures var s := DataFrame(channel, m); |s| >= 8 && ChannelOf(s) == channel && NameOf(s) == m.name
  {
    hide Header, ChannelOf, NameOf;
    HeaderReads(channel, m.name, m.payload);
    HeaderLength(channel, m.name);
  }

  lemma SendKeepsWire(n: Node, m: Message, c: Channel, route: Route, t: TransportResult)
    requires NodeInv(n) && WireOk(n) && (c.reliable <==> c.name !in n.plain)
    requires c.name <= UINT32_MAX && m.name <= UINT32_MAX && IsApplicationMessage(m)
    ensures var r := SendToRoute(n, m, c, route, t).0; WireOk(r) && Grows(n, r)
  {
    hide NodeInv, ChannelOf, NameOf, IdOf, DataFrame, ReliableFrame, WireOk;
    IdBound(n);
    var r := SendToRoute(n, m, c, route, t).0;
    DataFrameReads(c.name, m);
    ReliableFrameReads(c.name, m, n.nextId);
    WireExtends(n, r);
  }

  lemma ProcessKeepsWire(n: Node, i: nat)
    requires NodeInv(n) && WireOk(n) && i < |n.pending|
    ensures var r := ProcessPending(n, i);
            WireOk(r) && Grows(n, r) && r.tracked == n.tracked && r.delivered == n.delivered
            && r.acknowledged == n.acknowledged && r.channels == n.channels && r.plain == n.plain
  {
    hide NodeInv, ChannelOf, NameOf, IdOf, ReliableFrame, WireOk;
    var p, r := n.pending[i], ProcessPending(n, i);
    if p.awaiting {
      AwaitingSlot(n, i);
      IdBound(n);
      TrackedRange(n, p.id);
      ReliableFrameReads(p.channel, n.tracked[p.id].message, p.id);
    }
    WireExtends(n, r);
  }

  lemma TrackedRange(n: Node, id: nat)
    requires NodeInv(n) && id < |n.tracked|
    ensures TrackedInRange(n.tracked[id])
  {
  }

  lemma {:induction false} ProcessUpToKeepsWire(n: Node, k: nat)
    requires NodeInv(n) && WireOk(n) && k <= |n.pending|
    ensures var r := ProcessUpTo(n, k);
            WireOk(r) && r.tracked == n.tracked && r.delivered == n.delivered
            && r.acknowledged == n.acknowledged && r.channels == n.channels && r.plain == n.plain
  {
    hide NodeInv, WireOk, ProcessPending;
    if k > 0 {
      ProcessUpToKeepsWire(n, k - 1);
      ProcessUpToKeeps(n, k - 1);
      ProcessKeepsWire(ProcessUpTo(n, k - 1), k - 1);
    }
  }

  lemma {:induction false} CancelKeepsLogs(n: Node, name: nat, k: nat)
    requires k <= |n.pending|
    ensures var m := CancelUpTo(n, name, k);
            m.wire == n.wire && m.tracked == n.tracked && m.delivered == n.delivered && m.channels == n.channels
            && m.acknowledged == n.acknowledged && m.plain == n.plain
  {
    if k > 0 { CancelKeepsLogs(n, name, k - 1); }
  }

  lemma {:induction false} RegisterKeepsLogs(n: Node, maxPacket: nat, i: nat)
    requires i <= |n.links|
    ensures var m := RegisterLink(n, maxPacket, i).0; m == n.(links := m.links)
    decreases |n.links| - i
  {
    if i < |n.links| && n.links[i].Some? { RegisterKeepsLogs(n, maxPacket, i + 1); }
  }

  lemma SendKeepsRest(n: Node, m: Message, c: Channel, route: Route, t: TransportResult)
    ensures var r := SendToRoute(n, m, c, route, t).0;
            r.channels == n.channels && r.delivered == n.delivered && r.acknowledged == n.acknowledged && r.plain == n.plain
  {
  }

  /** What one node's own operation may do: acknowledge nothing, deliver only local messages, send meaningful frames. */
  ghost predicate OwnStep(n: Node, m: Node) {
    && WireOk(m) && Agreed(m) && Grows(n, m) && m.acknowledged == n.acknowledged
    && forall k :: |n.delivered| <= k < |m.delivered| ==> m.delivered[k].id.None?
  }

  lemma SendRemoteKeepsWire(n: Node, m: Message, name: nat, route: Route, t: TransportResult)
    requires LocalOk(n) && m.name <= UINT32_MAX
    ensures OwnStep(n, SendToRemoteChannel(n, m, name, route, t).0)
  {
    hide NodeInv, WireOk, SendToRoute, IsApplicationMessage;
    ChannelNames(n);
    var i := FindChannel(n.channels, name, 0);
    if IsApplicationMessage(m) && i < |n.channels| {
      SendKeepsWire(n, m, n.channels[i], route, t);
      SendKeepsRest(n, m, n.channels[i], route, t);
    }
  }

  lemma SendLocalKeepsWire(n: Node, m: Message, name: nat, t: TransportResult)
    requires LocalOk(n) && m.name <= UINT32_MAX
    ensures OwnStep(n, SendToChannel(n, m, name, t).0)
  {
    hide NodeInv, WireOk, SendToRoute, IsApplicationMessage;
    ChannelNames(n);
    var i := FindChannel(n.channels, name, 0);
    if IsApplicationMessage(m) && i < |n.channels| {
      var d := Deliver(n, None, name, m, None);
      SideFieldsKeep(n, d);
      WireExtends(n, d);
      if n.channels[i].defaultRoute.Some? {
        SendKeepsWire(d, m, n.channels[i], n.channels[i].defaultRoute.value, t);
        SendKeepsRest(d, m, n.channels[i], n.channels[i].defaultRoute.value, t);
      }
    }
  }

  lemma DoKeepsWire(n: Node, a: Action)
    requires LocalOk(n) && InRange(a) && |n.links| == MAX_LINKS && |n.pending| == MAX_PENDING
    requires !Reuses(n, a)
    ensures OwnStep(n, Do(n, a))
  {
    hide NodeInv, WireOk, SendToRemoteChannel, SendToChannel, RegisterLink, CancelUpTo, ProcessUpTo;
    var m := Do(n, a);
    match a
    case Register(maxPacket) =>
      RegisterKeepsLogs(n, maxPacket, 0);
      WireExtends(n, m);
    case Create(channel) => WireExtends(n, m);
    case Destroy(name, subscribed) => WireExtends(n, m);
    case CancelAll(name) =>
      CancelKeepsLogs(n, name, |n.pending|);
      WireExtends(n, m);
    case SendRemote(message, name, route, device) => SendRemoteKeepsWire(n, message, name, route, device);
    case SendLocal(message, name, device) => SendLocalKeepsWire(n, message, name, device);
    case Before(now) => WireExtends(n, m);
    case After(now) =>
      var d := n.(now := now);
      ClockKeeps(n, now);
      WireExtends(n, d);
      ProcessUpToKeepsWire(d, |n.pending|);
  }

  // ------------------------------------------------------------------ what messages wait on

  lemma WaitsShrink(n: Node, m: Node)
    requires WaitsOnReliable(n) && m.channels == n.channels && m.plain == n.plain && |m.pending| == |n.pending|
    requires forall k :: 0 <= k < |m.pending| && m.pending[k].awaiting ==>
               n.pending[k].awaiting && m.pending[k].channel == n.pending[k].channel
    ensures WaitsOnReliable(m)
  {
  }

  lemma {:induction false} CancelShrinks(n: Node, name: nat, k: nat)
    requires k <= |n.pending|
    ensures var m := CancelUpTo(n, name, k);
            && m.channels == n.channels && m.plain == n.plain
            && forall i :: 0 <= i < |m.pending| && m.pending[i].awaiting ==> m.pending[i] == n.pending[i]
  {
    if k > 0 { CancelShrinks(n, name, k - 1); }
  }

  lemma {:induction false} ProcessShrinks(n: Node, k: nat)
    requires k <= |n.pending|
    ensures var m := ProcessUpTo(n, k);
            && m.channels == n.channels && m.plain == n.plain
            && forall i :: 0 <= i < |m.pending| && m.pending[i].awaiting ==>
                 n.pending[i].awaiting && m.pending[i].channel == n.pending[i].channel
  {
    if k > 0 { ProcessShrinks(n, k - 1); }
  }

  lemma SendKeepsWaits(n: Node, m: Message, c: Channel, route: Route, t: TransportResult)
    requires WaitsOnReliable(n) && HasChannel(n, c.name) && (c.reliable <==> c.name !in n.plain)
    ensures var r := SendToRoute(n, m, c, route, t).0; WaitsOnReliable(r)
  {
    hide ReliableFrame, DataFrame, FindChannel;
    var r := SendToRoute(n, m, c, route, t).0;
    assert forall name :: HasChannel(r, name) == HasChannel(n, name);
  }

  lemma Removed(n: Node, i: nat, name: nat)
    requires i < |n.channels| && n.channels[i].name != name && HasChannel(n, name)
    ensures HasChannel(n.(channels := n.channels[..i] + n.channels[i + 1..]), name)
  {
    var j, rest := FindChannel(n.channels, name, 0), n.channels[..i] + n.channels[i + 1..];
    assert if j < i then rest[j] == n.channels[j] else rest[j - 1] == n.channels[j];
  }

  lemma CreateKeepsWaits(n: Node, c: Channel)
    requires WaitsOnReliable(n)
    ensures WaitsOnReliable(CreateChannel(n, c).0)
  {
    var m := CreateChannel(n, c).0;
    forall k | 0 <= k < |m.pending| && m.pending[k].awaiting
      ensures m.pending[k].channel !in m.plain && HasChannel(m, m.pending[k].channel)
    {
      var j := FindChannel(n.channels, n.pending[k].channel, 0);
      assert m.channels[j] == n.channels[j];
    }
  }

  lemma DestroyKeepsWaits(n: Node, name: nat, subscribed: bool)
    requires WaitsOnReliable(n)
    ensures WaitsOnReliable(DestroyChannel(n, name, subscribed).0)
  {
    hide FindChannel;
    var i, m := FindChannel(n.channels, name, 0), DestroyChannel(n, name, subscribed).0;
    if m != n {
      forall k | 0 <= k < |m.pending| && m.pending[k].awaiting ensures HasChannel(m, m.pending[k].channel) {
        Removed(n, i, n.pending[k].channel);
      }
    }
  }

  lemma DoKeepsWaits(n: Node, a: Action)
    requires WaitsOnReliable(n) && Agreed(n) && |n.links| == MAX_LINKS && |n.pending| == MAX_PENDING
    ensures WaitsOnReliable(Do(n, a))
  {
    hide WaitsOnReliable, SendToRoute, RegisterLink, CancelUpTo, ProcessUpTo, CreateChannel, DestroyChannel, IsApplicationMessage;
    match a
    case Register(maxPacket) =>
      RegisterKeepsLogs(n, maxPacket, 0);
      WaitsShrink(n, Do(n, a));
    case Create(channel) => CreateKeepsWaits(n, channel);
    case Destroy(name, subscribed) => DestroyKeepsWaits(n, name, subscribed);
    case CancelAll(name) =>
      CancelShrinks(n, name, |n.pending|);
      WaitsShrink(n, CancelUpTo(n, name, |n.pending|));
    case SendRemote(message, name, route, device) =>
      var i := FindChannel(n.channels, name, 0);
      if i < |n.channels| { SendKeepsWaits(n, message, n.channels[i], route, device); }
    case SendLocal(message, name, device) =>
      var i := FindChannel(n.channels, name, 0);
      if i < |n.channels| {
        var d := Deliver(n, None, name, message, None);
        WaitsShrink(n, d);
        if n.channels[i].defaultRoute.Some? { SendKeepsWaits(d, message, n.channels[i], n.channels[i].defaultRoute.value, device); }
      }
    case Before(now) => WaitsShrink(n, Do(n, a));
    case After(now) =>
      ProcessShrinks(n.(now := now), |n.pending|);
      WaitsShrink(n, Do(n, a));
  }

  lemma ReceiveKeepsWaits(n: Node, sender: Route, frame: Bytes)
    requires WaitsOnReliable(n)
    ensures WaitsOnReliable(ReceiveFrame(n, sender, frame))
  {
    hide WaitsOnReliable, ChannelOf, NameOf, IdOf, AcknowledgementFrame;
    WaitsShrink(n, ReceiveFrame(n, sender, frame));
  }

  // ------------------------------------------------------------------ arrivals

  lemma VouchedNow(delivered: seq<Delivery>, d: Delivery)
    requires d.sender.Some? && d.id.Some?
    ensures Vouched(delivered + [d], d.sender.value, d.channel, d.id.value)
  {
    assert (delivered + [d])[|delivered|] == d;
  }

  lemma ReceiveKeepsWire(n: Node, sender: Route, frame: Bytes)
    requires LocalOk(n)
    ensures var m := ReceiveFrame(n, sender, frame); WireOk(m) && Agreed(m) && Grows(n, m)
  {
    hide NodeInv, WireOk, ChannelOf, NameOf, IdOf, AcknowledgementFrame, Vouched, FindPending;
    ChannelNames(n);
    var m := ReceiveFrame(n, sender, frame);
    if |frame| >= 16 {
      FieldsAreInRange(frame);
      AcknowledgementReads(ChannelOf(frame), IdOf(frame));
      VouchedNow(n.delivered, Delivery(Some(sender), ChannelOf(frame), Message(NameOf(frame), frame[16..]), Some(IdOf(frame))));
    }
    WireExtends(n, m);
  }

  /** What arrives at node j was transmitted by the node it names, so a reliable delivery is one of its messages. */
  lemma ArrivalIsTracked(sys: System, e: Event)
    requires SystemInv(sys) && Arrives(sys, e)
    ensures var n := sys[e.target];
            var m := ReceiveFrame(n, Route(e.link, e.source), sys[e.source].wire[e.frame].frame);
            && m.tracked == n.tracked
            && (m.delivered == n.delivered
                || exists d :: m.delivered == n.delivered + [d] && DeliveryOk(sys, e.target, d))
  {
    hide NodeInv, ChannelOf, NameOf, IdOf, FindPending, Vouched;
    var w, n := sys[e.source].wire[e.frame], sys[e.target];
    assert LocalOk(sys[e.source]) && LocalOk(n);
    assert FrameOk(sys[e.source], w.route, w.frame);
    var m := ReceiveFrame(n, Route(e.link, e.source), w.frame);
    if m.delivered != n.delivered { assert DeliveryOk(sys, e.target, m.delivered[|n.delivered|]); }
  }

  /**
   An acknowledgement that releases a slot comes from the node the slot's message was sent to, and that node
   has already delivered exactly this message.
   */
  lemma AcknowledgementProvesDelivery(sys: System, e: Event)
    requires SystemInv(sys) && Arrives(sys, e)
    ensures var n := sys[e.target];
            var m := ReceiveFrame(n, Route(e.link, e.source), sys[e.source].wire[e.frame].frame);
            m.acknowledged == n.acknowledged
            || exists id: nat ::
                 && m.acknowledged == n.acknowledged + [id] && id < |n.tracked|
                 && n.tracked[id].route == Route(e.link, e.source)
                 && DeliveredAt(sys, e.source, e.target, id, n.tracked[id])
  {
    hide NodeInv, ChannelOf, NameOf, IdOf, DeliveredAt, FindPending;
    var w, n := sys[e.source].wire[e.frame], sys[e.target];
    var sender := Route(e.link, e.source);
    assert LocalOk(sys[e.source]) && LocalOk(n);
    assert FrameOk(sys[e.source], w.route, w.frame);
    var m := ReceiveFrame(n, sender, w.frame);
    if m.acknowledged != n.acknowledged {
      var i := FindPending(n.pending, ChannelOf(w.frame), sender, IdOf(w.frame), 0);
      MatchIsAwaiting(n.pending, ChannelOf(w.frame), sender, IdOf(w.frame));
      AwaitingSlot(n, i);
      VouchedIsDelivered(sys, e.source, w.route, ChannelOf(w.frame), IdOf(w.frame));
    }
  }

  /** A vouched delivery from node j, of an id node j tracked on that channel, is a delivery of that very message. */
  lemma VouchedIsDelivered(sys: System, at: nat, route: Route, channel: nat, id: nat)
    requires SystemInv(sys) && at < |sys| && route.address < |sys|
    requires Vouched(sys[at].delivered, route, channel, id) && channel !in sys[route.address].plain
    ensures id < |sys[route.address].tracked| && DeliveredAt(sys, at, route.address, id, sys[route.address].tracked[id])
  {
    hide LocalOk, AcknowledgedOk;
    var k :| 0 <= k < |sys[at].delivered| && sys[at].delivered[k].sender == Some(route)
             && sys[at].delivered[k].channel == channel && sys[at].delivered[k].id == Some(id);
    assert DeliveryOk(sys, at, sys[at].delivered[k]);
    assert IsDeliveryOf(sys[at].delivered[k], route.address, id, sys[route.address].tracked[id]);
  }

  // ------------------------------------------------------------------ every run

  lemma DeliveredAtGrows(sys: System, t: System, at: nat, j: nat, id: nat, tracked: Tracked)
    requires |sys| == |t| && (forall i :: 0 <= i < |sys| ==> Grows(sys[i], t[i])) && DeliveredAt(sys, at, j, id, tracked)
    ensures DeliveredAt(t, at, j, id, tracked)
  {
    var k :| 0 <= k < |sys[at].delivered| && IsDeliveryOf(sys[at].delivered[k], j, id, tracked);
    assert Grows(sys[at], t[at]);
    assert t[at].delivered[k] == sys[at].delivered[k];
  }

  lemma DeliveryOkGrows(sys: System, t: System, j: nat, d: Delivery)
    requires |sys| == |t| && (forall i :: 0 <= i < |sys| ==> Grows(sys[i], t[i])) && DeliveryOk(sys, j, d)
    ensures DeliveryOk(t, j, d)
  {
    if d.id.Some? { assert Grows(sys[d.sender.value.address], t[d.sender.value.address]); }
  }

  lemma AcknowledgedGrows(sys: System, t: System, j: nat)
    requires |sys| == |t| && j < |sys| && (forall i :: 0 <= i < |sys| ==> Grows(sys[i], t[i]))
    requires AcknowledgedOk(sys, j) && sys[j].acknowledged == t[j].acknowledged
    ensures AcknowledgedOk(t, j)
  {
    hide DeliveredAt;
    assert Grows(sys[j], t[j]);
    forall k | 0 <= k < |t[j].acknowledged|
      ensures t[j].acknowledged[k] < |t[j].tracked|
      ensures var id := t[j].acknowledged[k]; DeliveredAt(t, t[j].tracked[id].route.address, j, id, t[j].tracked[id])
    {
      var id := sys[j].acknowledged[k];
      DeliveredAtGrows(sys, t, sys[j].tracked[id].route.address, j, id, sys[j].tracked[id]);
    }
  }

  lemma OneMoreAcknowledged(sys: System, t: System, j: nat, id: nat)
    requires |sys| == |t| && j < |sys| && (forall i :: 0 <= i < |sys| ==> Grows(sys[i], t[i]))
    requires AcknowledgedOk(sys, j) && t[j].acknowledged == sys[j].acknowledged + [id] && id < |sys[j].tracked|
    requires DeliveredAt(sys, sys[j].tracked[id].route.address, j, id, sys[j].tracked[id])
    ensures AcknowledgedOk(t, j)
  {
    hide DeliveredAt;
    assert Grows(sys[j], t[j]);
    forall k | 0 <= k < |t[j].acknowledged|
      ensures t[j].acknowledged[k] < |t[j].tracked|
      ensures var id := t[j].acknowledged[k]; DeliveredAt(t, t[j].tracked[id].route.address, j, id, t[j].tracked[id])
    {
      var a := t[j].acknowledged[k];
      assert k < |sys[j].acknowledged| ==> a == sys[j].acknowledged[k];
      DeliveredAtGrows(sys, t, sys[j].tracked[a].route.address, j, a, sys[j].tracked[a]);
    }
  }

  /** What must be checked when node j moves on. */
  lemma ReplaceKeeps(sys: System, j: nat, m: Node)
    requires SystemInv(sys) && j < |sys| && LocalOk(m) && Grows(sys[j], m)
    requires AcknowledgedOk(sys[j := m], j)
    requires forall k :: |sys[j].delivered| <= k < |m.delivered| ==> DeliveryOk(sys, j, m.delivered[k])
    ensures SystemInv(sys[j := m])
  {
    hide LocalOk, AcknowledgedOk, DeliveryOk;
    var t := sys[j := m];
    assert forall i :: 0 <= i < |sys| ==> Grows(sys[i], t[i]);
    forall i | 0 <= i < |sys| ensures AcknowledgedOk(t, i) { if i != j { AcknowledgedGrows(sys, t, i); } }
    forall i, k | 0 <= i < |t| && 0 <= k < |t[i].delivered| ensures DeliveryOk(t, i, t[i].delivered[k]) {
      assert DeliveryOk(sys, i, t[i].delivered[k]);
      DeliveryOkGrows(sys, t, i, t[i].delivered[k]);
    }
  }

  lemma Local(sys: System, i: nat)
    requires SystemInv(sys) && i < |sys|
    ensures NodeInv(sys[i]) && Agreed(sys[i]) && WireOk(sys[i]) && WaitsOnReliable(sys[i]) && AcknowledgedOk(sys, i)
    ensures LocalOk(sys[i])
  {
  }

  lemma ActKeeps(sys: System, i: nat, a: Action)
    requires SystemInv(sys) && i < |sys| && InRange(a) && !Reuses(sys[i], a)
    requires |sys[i].links| == MAX_LINKS && |sys[i].pending| == MAX_PENDING
    ensures SystemInv(sys[i := Do(sys[i], a)]) && Grows(sys[i], Do(sys[i], a))
  {
    hide SystemInv, AcknowledgedOk, NodeInv, WireOk, Agreed, WaitsOnReliable, Reuses, Do;
    Local(sys, i);
    var m := Do(sys[i], a);
    DoKeepsWaits(sys[i], a);
    DoKeeps(sys[i], a);
    DoKeepsWire(sys[i], a);
    AcknowledgedGrows(sys, sys[i := m], i);
    ReplaceKeeps(sys, i, m);
  }

  lemma ArriveKeeps(sys: System, e: Event)
    requires SystemInv(sys) && Arrives(sys, e)
    ensures SystemInv(Step(sys, e)) && Grows(sys[e.target], Step(sys, e)[e.target])
  {
    hide SystemInv, AcknowledgedOk, NodeInv, WireOk, Agreed, WaitsOnReliable, ReceiveFrame, DeliveredAt, DeliveryOk;
    var sender, frame := Route(e.link, e.source), sys[e.source].wire[e.frame].frame;
    var m := ReceiveFrame(sys[e.target], sender, frame);
    var t := sys[e.target := m];
    Local(sys, e.target);
    ReceiveKeeps(sys[e.target], sender, frame);
    ReceiveKeepsWire(sys[e.target], sender, frame);
    ReceiveKeepsWaits(sys[e.target], sender, frame);
    ArrivalIsTracked(sys, e);
    AcknowledgementProvesDelivery(sys, e);
    if m.acknowledged == sys[e.target].acknowledged {
      AcknowledgedGrows(sys, t, e.target);
    } else {
      OneMoreAcknowledged(sys, t, e.target, m.acknowledged[|sys[e.target].acknowledged|]);
    }
    ReplaceKeeps(sys, e.target, m);
  }

  lemma StepKeeps(sys: System, e: Event)
    requires SystemInv(sys) && Steady(sys, e)
    ensures SystemInv(Step(sys, e))
  {
    hide SystemInv, Do, ReceiveFrame;
    if e.Act? && e.node < |sys| {
      if |sys[e.node].links| == MAX_LINKS && |sys[e.node].pending| == MAX_PENDING { ActKeeps(sys, e.node, e.action); }
    } else if Arrives(sys, e) {
      ArriveKeeps(sys, e);
    }
  }

  lemma BootInv(sys: System)
    requires Booted(sys)
    ensures SystemInv(sys)
  {
    hide NodeInv;
    forall i | 0 <= i < |sys| ensures NodeInv(sys[i]) { BootKeeps(sys[i].retryInterval, sys[i].maxAttempts); }
  }

  /** The bookkeeping of every node holds in every run, steady or not. */
  lemma {:induction false} BookkeepingHolds(boot: System, es: seq<Event>, j: nat)
    requires Booted(boot) && InRangeRun(es) && j < |boot|
    ensures NodeInv(Run(boot, es)[j])
  {
    hide NodeInv, Do, ReceiveFrame, InRange, Boot;
    if es == [] {
      BootKeeps(boot[j].retryInterval, boot[j].maxAttempts);
    } else {
      var sys, e := Run(boot, es[..|es| - 1]), es[|es| - 1];
      BookkeepingHolds(boot, es[..|es| - 1], j);
      if e.Act? && e.node == j {
        DoKeeps(sys[j], e.action);
      } else if Arrives(sys, e) && e.target == j {
        ReceiveKeeps(sys[j], Route(e.link, e.source), sys[e.source].wire[e.frame].frame);
      }
    }
  }

  lemma {:induction false} Reached(boot: System, es: seq<Event>)
    requires Booted(boot) && SteadyRun(boot, es)
    ensures SystemInv(Run(boot, es))
  {
    hide SystemInv, Step, Booted, Steady;
    if es == [] {
      BootInv(boot);
    } else {
      var n := |es| - 1;
      forall k | 0 <= k < n ensures Steady(Run(boot, es[..n][..k]), es[..n][k]) { assert es[..n][..k] == es[..k]; }
      Reached(boot, es[..n]);
      StepKeeps(Run(boot, es[..n]), es[n]);
    }
  }

  /**
   In every run in which no node creates a name with reliability after having created it without, every acknowledged
   message has been delivered, with its exact channel, name and payload, by the node its route addresses. Nodes may
   differ from each other about any name.
   */
  lemma AcknowledgedMeansDelivered(boot: System, es: seq<Event>, j: nat, k: nat)
    requires Booted(boot) && SteadyRun(boot, es)
    requires j < |boot| && k < |Run(boot, es)[j].acknowledged|
    ensures var sys := Run(boot, es);
            var id := sys[j].acknowledged[k];
            id < |sys[j].tracked| && DeliveredAt(sys, sys[j].tracked[id].route.address, j, id, sys[j].tracked[id])
  {
    hide Run, SystemInv, SteadyRun, NodeInv, WireOk, Agreed, DeliveredAt;
    Reached(boot, es);
    Local(Run(boot, es), j);
  }

  /**
   In every run: every tracked message is pending, acknowledged, abandoned or cancelled, and is counted once;
   no message is transmitted more often than its budget; and two transmissions of a message are at least one
   retry interval apart.
   */
  lemma TrackedMessagesAreAccountedFor(boot: System, es: seq<Event>, j: nat)
    requires Booted(boot) && j < |boot| && InRangeRun(es)
    ensures var n := Run(boot, es)[j];
            && |n.tracked| == CountAwaiting(n.pending) + |n.acknowledged| + n.abandoned + n.cancelled
            && (forall id: nat :: TimesSent(n.wire, id) <= Budget(n))
            && (forall a, b :: 0 <= a < b < |n.wire| && n.wire[a].tracked.Some? && n.wire[a].tracked == n.wire[b].tracked ==>
                                 n.wire[a].time + n.retryInterval <= n.wire[b].time)
  {
    hide Run, InRangeRun, Table, TimesSent, CountAwaiting;
    BookkeepingHolds(boot, es, j);
  }

  /** Reliable ids are never reused: two slots never await the same id, and a new message gets an id no frame carries. */
  lemma ReliableIdsAreFresh(boot: System, es: seq<Event>, j: nat)
    requires Booted(boot) && j < |boot| && InRangeRun(es)
    ensures var n := Run(boot, es)[j];
            && (forall k :: 0 <= k < |n.wire| && n.wire[k].tracked.Some? ==> n.wire[k].tracked.value < n.nextId)
            && (forall k :: 0 <= k < |n.pending| && n.pending[k].awaiting ==> n.pending[k].id < n.nextId)
            && (forall a, b :: 0 <= a < b < |n.pending| && n.pending[a].awaiting && n.pending[b].awaiting ==>
                                 n.pending[a].id != n.pending[b].id)
  {
    hide Run, InRangeRun, PendingOk, TimesSent, TrackedInRange;
    BookkeepingHolds(boot, es, j);
    PendingIdsAreOld(Run(boot, es)[j]);
  }

  /** A slot that is due is sent again or given up, and given up only after its whole budget was spent. */
  lemma DueSlotsMakeProgress(boot: System, es: seq<Event>, j: nat, i: nat)
    requires Booted(boot) && j < |boot| && InRangeRun(es)
    requires i < |Run(boot, es)[j].pending| && Due(Run(boot, es)[j], Run(boot, es)[j].pending[i])
    ensures var n := Run(boot, es)[j];
            var p, m := n.pending[i], ProcessPending(n, i);
            if p.attempts == Budget(n) then !m.pending[i].awaiting && m.abandoned == n.abandoned + 1 && m.wire == n.wire
            else m.pending[i].awaiting && m.pending[i].attempts == p.attempts + 1
                 && m.wire == n.wire + [Transmission(n.now, p.route, p.frame, Some(p.id))]
  {
    hide Run, InRangeRun, TimesSent, ReliableFrame;
    BookkeepingHolds(boot, es, j);
    AwaitingSlot(Run(boot, es)[j], i);
  }
}
