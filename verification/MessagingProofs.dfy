/**
 Reliable delivery over a network that loses, repeats and reorders frames but never invents one: what an
 acknowledgement proves, how often and how fast a message may be transmitted, and where every tracked message goes.
 */
module MessagingProofs {
  import opened Basics
  import opened WireCodec
  import opened MessagingModel

  // ------------------------------------------------------------------ frames say what they were built from

  lemma HeaderReads(channel: nat, name: nat, rest: Bytes)
    requires channel <= UINT32_MAX && name <= UINT32_MAX
    ensures var s := Header(channel, name) + rest; ChannelOf(s) == channel && NameOf(s) == name && s[8..] == rest
  {
    hide LittleEndian, FromLittleEndian;
    var s := Header(channel, name) + rest;
    assert s[0..4] == LittleEndian(channel, 4) && s[4..8] == LittleEndian(name, 4);
    Powers();
    LittleEndianRoundTrip(channel, 4);
    LittleEndianRoundTrip(name, 4);
  }

  lemma ReliableFrameReads(channel: nat, m: Message, id: nat)
    requires channel <= UINT32_MAX && m.name <= UINT32_MAX && id <= UINT64_MAX
    ensures var s := ReliableFrame(channel, m, id);
            |s| >= 16 && ChannelOf(s) == channel && NameOf(s) == m.name && IdOf(s) == id && s[16..] == m.payload
  {
    hide LittleEndian, FromLittleEndian, ChannelOf, NameOf, Header;
    var s := ReliableFrame(channel, m, id);
    HeaderReads(channel, m.name, LittleEndian(id, 8) + m.payload);
    HeaderLength(channel, m.name);
    assert s == Header(channel, m.name) + (LittleEndian(id, 8) + m.payload);
    assert s[8..16] == LittleEndian(id, 8);
    Powers();
    LittleEndianRoundTrip(id, 8);
  }

  lemma HeaderLength(channel: nat, name: nat)
    ensures |Header(channel, name)| == 8
  {
  }

  lemma AcknowledgementReads(channel: nat, id: nat)
    requires channel <= UINT32_MAX && id <= UINT64_MAX
    ensures var s := AcknowledgementFrame(channel, id);
            |s| == 16 && ChannelOf(s) == channel && NameOf(s) == ACKNOWLEDGEMENT_NAME && IdOf(s) == id
  {
    hide LittleEndian, FromLittleEndian, ChannelOf, NameOf, Header;
    var s := AcknowledgementFrame(channel, id);
    HeaderReads(channel, ACKNOWLEDGEMENT_NAME, LittleEndian(id, 8));
    HeaderLength(channel, ACKNOWLEDGEMENT_NAME);
    assert s[8..16] == LittleEndian(id, 8);
    Powers();
    LittleEndianRoundTrip(id, 8);
  }

  lemma FieldsAreInRange(frame: Bytes)
    requires |frame| >= 8
    ensures ChannelOf(frame) <= UINT32_MAX && NameOf(frame) <= UINT32_MAX
    ensures |frame| >= 16 ==> IdOf(frame) <= UINT64_MAX
  {
    hide FromLittleEndian, LittleEndian;
    Powers();
    FromLittleEndianFits(frame[0..4]);
    FromLittleEndianFits(frame[4..8]);
    if |frame| >= 16 { FromLittleEndianFits(frame[8..16]); }
  }

  // ------------------------------------------------------------------ one node

  function Carries(id: nat): Transmission -> bool { (t: Transmission) => t.tracked == Some(id) }

  function TimesSent(wire: seq<Transmission>, id: nat): nat { Count(wire, Carries(id)) }

  function Budget(n: Node): nat { if n.maxAttempts == 0 then 1 else n.maxAttempts }

  /** An occupied slot holds exactly the frame of the message it tracks, and knows how often it was sent. */
  ghost predicate PendingOk(n: Node, p: Pending) {
    p.awaiting ==>
      && p.id < |n.tracked| && n.tracked[p.id].channel == p.channel && n.tracked[p.id].route == p.route
      && p.frame == ReliableFrame(p.channel, n.tracked[p.id].message, p.id)
      && 1 <= p.attempts <= Budget(n) && p.attempts == TimesSent(n.wire, p.id)
      && Device(n, p.route.link).Some?
  }

  ghost predicate TrackedInRange(t: Tracked) { t.channel <= UINT32_MAX && t.message.name <= UINT32_MAX && IsApplicationMessage(t.message) }

  ghost predicate Table(n: Node) {
    && |n.links| == MAX_LINKS && |n.pending| == MAX_PENDING && n.nextId == |n.tracked| <= UINT64_MAX
    && (forall k :: 0 <= k < |n.channels| ==> n.channels[k].name <= UINT32_MAX && n.channels[k].name != UNSET_NAME)
    && (forall k :: 0 <= k < |n.tracked| ==> TrackedInRange(n.tracked[k]))
    && (forall k :: 0 <= k < |n.pending| ==> PendingOk(n, n.pending[k]))
    && (forall j, k :: 0 <= j < k < |n.pending| && n.pending[j].awaiting && n.pending[k].awaiting ==>
                         n.pending[j].id != n.pending[k].id)
  }

  ghost predicate Conserved(n: Node) {
    |n.tracked| == CountAwaiting(n.pending) + |n.acknowledged| + n.abandoned + n.cancelled
  }

  /** Transmissions of one message: within budget, spaced by the retry interval, none after the slot's last attempt. */
  ghost predicate Paced(n: Node) {
    && (forall k :: 0 <= k < |n.wire| && n.wire[k].tracked.Some? ==> n.wire[k].tracked.value < |n.tracked|)
    && (forall id: nat :: TimesSent(n.wire, id) <= Budget(n))
    && (forall j, k :: 0 <= j < k < |n.wire| && n.wire[j].tracked.Some? && n.wire[j].tracked == n.wire[k].tracked ==>
                         n.wire[j].time + n.retryInterval <= n.wire[k].time)
    && (forall i, k ::
          0 <= i < |n.pending| && n.pending[i].awaiting && 0 <= k < |n.wire| && n.wire[k].tracked == Some(n.pending[i].id)
          ==> n.wire[k].time <= n.pending[i].lastAttempt)
  }

  ghost predicate NodeInv(n: Node) { Table(n) && Conserved(n) && Paced(n) }

  lemma {:induction false} NeverSent(wire: seq<Transmission>, id: nat)
    requires forall k :: 0 <= k < |wire| ==> wire[k].tracked != Some(id)
    ensures TimesSent(wire, id) == 0
  {
    if wire != [] { NeverSent(wire[..|wire| - 1], id); }
  }

  lemma TimesSentGrows(wire: seq<Transmission>, t: Transmission)
    ensures forall id: nat :: TimesSent(wire + [t], id) == TimesSent(wire, id) + (if t.tracked == Some(id) then 1 else 0)
  {
    assert (wire + [t])[..|wire|] == wire;
  }

  // ------------------------------------------------------------------ untracked sends

  lemma PlainSendKeeps(n: Node, route: Route, frame: Bytes)
    requires NodeInv(n)
    ensures NodeInv(Transmit(n, route, frame, None))
  {
    hide TimesSent, ReliableFrame, CountAwaiting;
    var m := Transmit(n, route, frame, None);
    TimesSentGrows(n.wire, Transmission(n.now, route, frame, None));
    forall k | 0 <= k < |m.pending| ensures PendingOk(m, m.pending[k]) { assert PendingOk(n, n.pending[k]); }
  }

  // ------------------------------------------------------------------ tracked sends

  lemma FreshId(n: Node)
    requires NodeInv(n)
    ensures TimesSent(n.wire, n.nextId) == 0
  {
    hide TimesSent;
    NeverSent(n.wire, n.nextId);
  }

  lemma TrackCounts(n: Node, i: nat, p: Pending)
    requires i < |n.pending| && !n.pending[i].awaiting && p.awaiting
    ensures CountAwaiting(n.pending[i := p]) == CountAwaiting(n.pending) + 1
  {
    CountUpdate(n.pending, i, p, IsAwaiting());
  }

  lemma TrackKeepsTable(n: Node, i: nat, channel: nat, route: Route, m: Message)
    requires NodeInv(n) && n.nextId < UINT64_MAX && i < |n.pending| && !n.pending[i].awaiting
    requires channel <= UINT32_MAX && m.name <= UINT32_MAX && IsApplicationMessage(m) && Device(n, route.link).Some?
    ensures var frame := ReliableFrame(channel, m, n.nextId);
            Table(Track(Transmit(n, route, frame, Some(n.nextId)), i, channel, route, m, frame))
  {
    hide TimesSent, ReliableFrame, CountAwaiting, Paced, IsApplicationMessage;
    var frame := ReliableFrame(channel, m, n.nextId);
    var t := Track(Transmit(n, route, frame, Some(n.nextId)), i, channel, route, m, frame);
    FreshId(n);
    TimesSentGrows(n.wire, Transmission(n.now, route, frame, Some(n.nextId)));
    forall k | 0 <= k < |t.pending| ensures PendingOk(t, t.pending[k]) { assert PendingOk(n, n.pending[k]); }
  }

  lemma TrackKeeps(n: Node, i: nat, channel: nat, route: Route, m: Message)
    requires NodeInv(n) && n.nextId < UINT64_MAX && i < |n.pending| && !n.pending[i].awaiting
    requires channel <= UINT32_MAX && m.name <= UINT32_MAX && IsApplicationMessage(m) && Device(n, route.link).Some?
    ensures var frame := ReliableFrame(channel, m, n.nextId);
            NodeInv(Track(Transmit(n, route, frame, Some(n.nextId)), i, channel, route, m, frame))
  {
    hide TimesSent, ReliableFrame, CountAwaiting, IsApplicationMessage, PendingOk, TrackedInRange;
    var frame := ReliableFrame(channel, m, n.nextId);
    var t := Track(Transmit(n, route, frame, Some(n.nextId)), i, channel, route, m, frame);
    TrackKeepsTable(n, i, channel, route, m);
    FreshId(n);
    TimesSentGrows(n.wire, Transmission(n.now, route, frame, Some(n.nextId)));
    TrackCounts(n, i, t.pending[i]);
    PendingIdsAreOld(n);
  }

  lemma PendingIdsAreOld(n: Node)
    requires NodeInv(n)
    ensures forall k :: 0 <= k < |n.pending| && n.pending[k].awaiting ==> n.pending[k].id < n.nextId
  {
    forall k | 0 <= k < |n.pending| && n.pending[k].awaiting ensures n.pending[k].id < n.nextId {
      assert PendingOk(n, n.pending[k]);
    }
  }

  // ------------------------------------------------------------------ releases

  lemma ReleaseCounts(pending: seq<Pending>, i: nat)
    requires i < |pending| && pending[i].awaiting
    ensures CountAwaiting(Release(pending, i)) + 1 == CountAwaiting(pending)
  {
    CountUpdate(pending, i, pending[i].(awaiting := false), IsAwaiting());
  }

  lemma ReleaseKeeps(n: Node, i: nat, m: Node)
    requires NodeInv(n) && i < |n.pending| && n.pending[i].awaiting
    requires m == n.(pending := Release(n.pending, i), acknowledged := m.acknowledged, abandoned := m.abandoned,
                     cancelled := m.cancelled)
    requires |m.acknowledged| + m.abandoned + m.cancelled == |n.acknowledged| + n.abandoned + n.cancelled + 1
    ensures NodeInv(m)
  {
    hide TimesSent, ReliableFrame, CountAwaiting;
    ReleaseCounts(n.pending, i);
    forall k | 0 <= k < |m.pending| ensures PendingOk(m, m.pending[k]) { assert PendingOk(n, n.pending[k]); }
  }

  lemma RetryKeepsTable(n: Node, i: nat)
    requires NodeInv(n) && i < |n.pending| && Due(n, n.pending[i]) && n.pending[i].attempts < n.maxAttempts
    requires Device(n, n.pending[i].route.link).Some?
    ensures Table(ProcessPending(n, i))
  {
    hide TimesSent, ReliableFrame, CountAwaiting, Paced;
    var p, m := n.pending[i], ProcessPending(n, i);
    TimesSentGrows(n.wire, Transmission(n.now, p.route, p.frame, Some(p.id)));
    forall k | 0 <= k < |m.pending| ensures PendingOk(m, m.pending[k]) {
      assert PendingOk(n, n.pending[k]);
      assert k != i && n.pending[k].awaiting ==> n.pending[k].id != p.id;
    }
  }

  lemma SameAwaiting(pending: seq<Pending>, i: nat, p: Pending)
    requires i < |pending| && p.awaiting == pending[i].awaiting
    ensures CountAwaiting(pending[i := p]) == CountAwaiting(pending)
  {
    CountUpdate(pending, i, p, IsAwaiting());
  }

  lemma RetryKeeps(n: Node, i: nat)
    requires NodeInv(n) && i < |n.pending| && Due(n, n.pending[i]) && n.pending[i].attempts < n.maxAttempts
    requires Device(n, n.pending[i].route.link).Some?
    ensures NodeInv(ProcessPending(n, i))
  {
    hide TimesSent, ReliableFrame, CountAwaiting, TrackedInRange;
    var p, m := n.pending[i], ProcessPending(n, i);
    RetryKeepsTable(n, i);
    SameAwaiting(n.pending, i, m.pending[i]);
    assert PendingOk(n, p);
    TimesSentGrows(n.wire, Transmission(n.now, p.route, p.frame, Some(p.id)));
    forall j, k | 0 <= j < k < |m.wire| && m.wire[j].tracked.Some? && m.wire[j].tracked == m.wire[k].tracked
      ensures m.wire[j].time + m.retryInterval <= m.wire[k].time
    {
      assert m.wire[j] == n.wire[j];
      assert k < |n.wire| ==> m.wire[k] == n.wire[k];
    }
  }

  /** A due slot is retransmitted within its budget and abandoned only when the budget is spent. */
  lemma ProcessPendingKeeps(n: Node, i: nat)
    requires NodeInv(n) && i < |n.pending|
    ensures NodeInv(ProcessPending(n, i))
    ensures ProcessPending(n, i).abandoned > n.abandoned ==> n.pending[i].attempts == Budget(n) && Due(n, n.pending[i])
  {
    hide NodeInv, TimesSent, ReliableFrame;
    var p := n.pending[i];
    if Due(n, p) {
      AwaitingSlot(n, i);
      if p.attempts >= n.maxAttempts { ReleaseKeeps(n, i, ProcessPending(n, i)); } else { RetryKeeps(n, i); }
    }
  }

  lemma AwaitingSlot(n: Node, i: nat)
    requires NodeInv(n) && i < |n.pending| && n.pending[i].awaiting
    ensures PendingOk(n, n.pending[i])
  {
  }

  lemma {:induction false} ProcessUpToKeeps(n: Node, k: nat)
    requires NodeInv(n) && k <= |n.pending|
    ensures NodeInv(ProcessUpTo(n, k))
  {
    hide NodeInv, ProcessPending;
    if k > 0 {
      ProcessUpToKeeps(n, k - 1);
      ProcessPendingKeeps(ProcessUpTo(n, k - 1), k - 1);
    }
  }

  lemma ClockKeeps(n: Node, now: nat)
    requires NodeInv(n)
    ensures NodeInv(n.(now := now))
  {
    hide TimesSent, ReliableFrame, CountAwaiting;
    forall k | 0 <= k < |n.pending| ensures PendingOk(n.(now := now), n.pending[k]) { assert PendingOk(n, n.pending[k]); }
  }

  lemma {:induction false} CancelKeeps(n: Node, name: nat, k: nat)
    requires NodeInv(n) && k <= |n.pending|
    ensures NodeInv(CancelUpTo(n, name, k))
  {
    hide NodeInv, Release;
    if k > 0 {
      CancelKeeps(n, name, k - 1);
      var m := CancelUpTo(n, name, k - 1);
      if m.pending[k - 1].awaiting && m.pending[k - 1].channel == name { ReleaseKeeps(m, k - 1, CancelUpTo(n, name, k)); }
    }
  }

  lemma {:induction false} RegisterKeeps(n: Node, maxPacket: nat, i: nat)
    requires NodeInv(n) && i <= |n.links|
    ensures NodeInv(RegisterLink(n, maxPacket, i).0)
    decreases |n.links| - i
  {
    hide TimesSent, ReliableFrame, CountAwaiting;
    if i < |n.links| {
      if n.links[i].None? {
        var m := n.(links := n.links[i := Some(maxPacket)]);
        forall k | 0 <= k < |n.pending| ensures PendingOk(m, m.pending[k]) { assert PendingOk(n, n.pending[k]); }
      } else {
        RegisterKeeps(n, maxPacket, i + 1);
      }
    }
  }

  /** Changing the channel table, the delivery log or the drop counter touches nothing a tracked message relies on. */
  lemma SideFieldsKeep(n: Node, m: Node)
    requires NodeInv(n) && m == n.(channels := m.channels, delivered := m.delivered, dropped := m.dropped, plain := m.plain)
    requires forall k :: 0 <= k < |m.channels| ==> m.channels[k].name <= UINT32_MAX && m.channels[k].name != UNSET_NAME
    ensures NodeInv(m)
  {
    hide TimesSent, ReliableFrame, CountAwaiting;
    forall k | 0 <= k < |n.pending| ensures PendingOk(m, m.pending[k]) { assert PendingOk(n, n.pending[k]); }
  }

  lemma ChannelNames(n: Node)
    requires NodeInv(n)
    ensures forall k :: 0 <= k < |n.channels| ==> n.channels[k].name <= UINT32_MAX && n.channels[k].name != UNSET_NAME
    ensures |n.pending| == MAX_PENDING && |n.links| == MAX_LINKS
  {
  }

  lemma SendKeeps(n: Node, m: Message, c: Channel, route: Route, t: TransportResult)
    requires NodeInv(n) && c.name <= UINT32_MAX && m.name <= UINT32_MAX && IsApplicationMessage(m)
    ensures NodeInv(SendToRoute(n, m, c, route, t).0)
  {
    hide NodeInv, DataFrame, ReliableFrame, IsApplicationMessage;
    ChannelNames(n);
    IdBound(n);
    if Device(n, route.link).Some? {
      if !c.reliable {
        PlainSendKeeps(n, route, DataFrame(c.name, m));
      } else if n.nextId < UINT64_MAX && FindFree(n.pending, 0) < |n.pending| {
        TrackKeeps(n, FindFree(n.pending, 0), c.name, route, m);
      }
    }
  }

  lemma IdBound(n: Node)
    requires NodeInv(n)
    ensures n.nextId == |n.tracked| <= UINT64_MAX
  {
  }

  lemma ReceiveKeeps(n: Node, sender: Route, frame: Bytes)
    requires NodeInv(n)
    ensures NodeInv(ReceiveFrame(n, sender, frame))
  {
    hide NodeInv, AcknowledgementFrame, ChannelOf, NameOf, IdOf, Release, FindPending;
    ChannelNames(n);
    var m := ReceiveFrame(n, sender, frame);
    SideFieldsKeep(n, n.(delivered := m.delivered, dropped := m.dropped));
    if |frame| >= 8 && FindChannel(n.channels, ChannelOf(frame), 0) < |n.channels| {
      if NameOf(frame) == ACKNOWLEDGEMENT_NAME {
        if |frame| == 16 {
          var i := FindPending(n.pending, ChannelOf(frame), sender, IdOf(frame), 0);
          MatchIsAwaiting(n.pending, ChannelOf(frame), sender, IdOf(frame));
          if i < |n.pending| { ReleaseKeeps(n, i, m); }
        }
      } else if n.channels[FindChannel(n.channels, ChannelOf(frame), 0)].reliable && |frame| >= 16 {
        PlainSendKeeps(n.(delivered := m.delivered), sender, AcknowledgementFrame(ChannelOf(frame), IdOf(frame)));
      }
    }
  }

  lemma MatchIsAwaiting(pending: seq<Pending>, channel: nat, route: Route, id: nat)
    ensures var i := FindPending(pending, channel, route, id, 0);
            i < |pending| ==> Matches(pending[i], channel, route, id)
  {
  }

  // ------------------------------------------------------------------ the composed system

  datatype Action =
    | Register(maxPacket: nat)
    | Create(channel: Channel)
    | Destroy(name: nat, subscribed: bool)
    | CancelAll(name: nat)
    | SendRemote(message: Message, name: nat, route: Route, device: TransportResult)
    | SendLocal(message: Message, name: nat, device: TransportResult)
    | Before(now: nat)
    | After(now: nat)

  function Do(n: Node, a: Action): Node
    requires |n.links| == MAX_LINKS && |n.pending| == MAX_PENDING
  {
    match a
    case Register(maxPacket) => RegisterLink(n, maxPacket, 0).0
    case Create(channel) => CreateChannel(n, channel).0
    case Destroy(name, subscribed) => DestroyChannel(n, name, subscribed).0
    case CancelAll(name) => CancelReliable(n, name).0
    case SendRemote(message, name, route, device) => SendToRemoteChannel(n, message, name, route, device).0
    case SendLocal(message, name, device) => SendToChannel(n, message, name, device).0
    case Before(now) => PreAdvance(n, now)
    case After(now) => PostAdvance(n, now)
  }

  /** Names are 32-bit values. */
  predicate InRange(a: Action) {
    match a
    case Create(channel) => channel.name <= UINT32_MAX
    case SendRemote(message, name, _, _) => message.name <= UINT32_MAX && name <= UINT32_MAX
    case SendLocal(message, name, _) => message.name <= UINT32_MAX && name <= UINT32_MAX
    case _ => true
  }

  lemma DoKeeps(n: Node, a: Action)
    requires NodeInv(n) && InRange(a)
    ensures |n.links| == MAX_LINKS && |n.pending| == MAX_PENDING && NodeInv(Do(n, a))
  {
    hide NodeInv, SendToRoute, RegisterLink, CancelUpTo, ProcessUpTo, IsApplicationMessage;
    ChannelNames(n);
    match a
    case Register(maxPacket) => RegisterKeeps(n, maxPacket, 0);
    case Create(channel) => SideFieldsKeep(n, CreateChannel(n, channel).0);
    case Destroy(name, subscribed) => SideFieldsKeep(n, DestroyChannel(n, name, subscribed).0);
    case CancelAll(name) => CancelKeeps(n, name, |n.pending|);
    case SendRemote(message, name, route, device) =>
      var i := FindChannel(n.channels, name, 0);
      if IsApplicationMessage(message) && i < |n.channels| { SendKeeps(n, message, n.channels[i], route, device); }
    case SendLocal(message, name, device) =>
      var i := FindChannel(n.channels, name, 0);
      if IsApplicationMessage(message) && i < |n.channels| {
        var d := MessagingModel.Deliver(n, None, name, message, None);
        SideFieldsKeep(n, d);
        if n.channels[i].defaultRoute.Some? { SendKeeps(d, message, n.channels[i], n.channels[i].defaultRoute.value, device); }
      }
    case Before(now) => ClockKeeps(n, now);
    case After(now) =>
      ClockKeeps(n, now);
      ProcessUpToKeeps(n.(now := now), |n.pending|);
  }

  lemma BootKeeps(retryInterval: nat, maxAttempts: nat)
    ensures NodeInv(Boot(retryInterval, maxAttempts))
  {
    var n := Boot(retryInterval, maxAttempts);
    if CountAwaiting(n.pending) > 0 { CountPositive(n.pending, IsAwaiting()); }
  }
}
