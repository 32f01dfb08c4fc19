/**
 When an acknowledgement proves a delivery: exactly when no node may create a name with reliability after having
 created it without. One such creation, of any name at any node, already releases a message nobody delivered.
 */
module MessagingReuse {
  import opened Basics
  import opened WireCodec
  import opened MessagingModel
  import opened MessagingProofs
  import opened MessagingTheorems

  /** Every acknowledged message was delivered by the node it was sent to. */
  ghost predicate Honest(sys: System) { forall j :: 0 <= j < |sys| ==> AcknowledgedOk(sys, j) }

  /** Which node may create which name with reliability although it once created it without. */
  type Policy = (nat, nat) -> bool

  /** A run of calls and arrivals that follows the policy. */
  ghost predicate Permits(boot: System, es: seq<Event>, allowed: Policy) {
    InRangeRun(es)
    && forall k :: 0 <= k < |es| && es[k].Act? && es[k].node < |boot| && Reuses(Run(boot, es[..k])[es[k].node], es[k].action) ==>
         allowed(es[k].node, es[k].action.channel.name)
  }

  ghost predicate ForbidsReuse(boot: System, allowed: Policy) {
    forall i: nat, name: nat :: i < |boot| && 0 < name <= UINT32_MAX ==> !allowed(i, name)
  }

  // ------------------------------------------------------------------ without reuse

  lemma {:induction false} PermittedIsSteady(boot: System, es: seq<Event>, allowed: Policy)
    requires Booted(boot) && Permits(boot, es, allowed) && ForbidsReuse(boot, allowed)
    ensures SteadyRun(boot, es)
  {
    hide Run, Booted, SystemInv, Agreed;
    if es != [] {
      var n := |es| - 1;
      forall k | 0 <= k < n ensures es[..n][..k] == es[..k] {}
      PermittedIsSteady(boot, es[..n], allowed);
      Reached(boot, es[..n]);
      var sys := Run(boot, es[..n]);
      if es[n].Act? && es[n].node < |sys| {
        Local(sys, es[n].node);
        ForbiddenIsAvoided(boot, es[n].node, sys[es[n].node], es[n].action, allowed);
      }
      forall k | 0 <= k < |es| ensures Steady(Run(boot, es[..k]), es[k]) {
        if k < n { assert Steady(Run(boot, es[..n][..k]), es[..n][k]); }
      }
    }
  }

  lemma ForbiddenIsAvoided(boot: System, i: nat, n: Node, a: Action, allowed: Policy)
    requires ForbidsReuse(boot, allowed) && i < |boot| && Agreed(n) && InRange(a)
    requires Reuses(n, a) ==> allowed(i, a.channel.name)
    ensures !Reuses(n, a)
  {
  }

  // ------------------------------------------------------------------ one reuse

  const DEVICE_BYTES := 200
  /** An ordinary payload that happens to spell reliable id 0. */
  const DECOY := Message(5, LittleEndian(0, ID_BYTES))
  const LOST := Message(7, [])

  function Plain(name: nat): Channel { Channel(name, false, None) }

  function Reliable(name: nat): Channel { Channel(name, true, None) }

  /** Node `a` sends an ordinary message, gives the name up, takes it again with reliability, and sends once more. */
  function Calls(name: nat, b: nat): seq<Action> {
    [Register(DEVICE_BYTES), Create(Plain(name)), SendRemote(DECOY, name, Route(0, b), Sent), Destroy(name, false),
     Create(Reliable(name)), SendRemote(LOST, name, Route(0, b), Sent)]
  }

  function Answers(name: nat): seq<Action> { [Register(DEVICE_BYTES), Create(Reliable(name))] }

  function ActsOf(i: nat, calls: seq<Action>): seq<Event> { seq(|calls|, k requires 0 <= k < |calls| => Act(i, calls[k])) }

  /** The first message reaches node `b`, and its answer reaches node `a`. */
  function Reuse(a: nat, b: nat, name: nat): seq<Event> {
    ActsOf(a, Calls(name, b)) + ActsOf(b, Answers(name)) + [Arrive(a, 0, b, 0), Arrive(b, 0, a, 0)]
  }

  predicate Sized(n: Node) { |n.links| == MAX_LINKS && |n.pending| == MAX_PENDING }

  function DoAll(n: Node, calls: seq<Action>): Node {
    if calls == [] then n
    else
      var m := DoAll(n, calls[..|calls| - 1]);
      if Sized(m) then Do(m, calls[|calls| - 1]) else m
  }

  lemma RunSnoc(sys: System, es: seq<Event>, e: Event)
    ensures Run(sys, es + [e]) == Step(Run(sys, es), e)
  {
    hide Step;
    assert (es + [e])[..|es|] == es;
  }

  /** The calls of one node change that node only. */
  lemma {:induction false} RunActs(sys: System, es: seq<Event>, i: nat, calls: seq<Action>)
    requires i < |sys|
    ensures Run(sys, es + ActsOf(i, calls)) == Run(sys, es)[i := DoAll(Run(sys, es)[i], calls)]
  {
    hide Do, Run;
    if calls == [] {
      assert es + ActsOf(i, calls) == es;
    } else {
      var front, last := calls[..|calls| - 1], calls[|calls| - 1];
      RunActs(sys, es, i, front);
      assert es + ActsOf(i, calls) == (es + ActsOf(i, front)) + [Act(i, last)];
      RunSnoc(sys, es + ActsOf(i, front), Act(i, last));
    }
  }

  lemma DoAllSnoc(n: Node, calls: seq<Action>, a: Action)
    ensures DoAll(n, calls + [a]) == if Sized(DoAll(n, calls)) then Do(DoAll(n, calls), a) else DoAll(n, calls)
  {
    hide Do;
    assert (calls + [a])[..|calls|] == calls;
  }

  lemma DecoyReadsAsReliable(name: nat)
    requires name <= UINT32_MAX
    ensures var s := DataFrame(name, DECOY); |s| == 16 && ChannelOf(s) == name && NameOf(s) == 5 && IdOf(s) == 0 && s[16..] == []
  {
    hide Header, LittleEndian, ChannelOf, NameOf, IdOf;
    HeaderLength(name, 5);
    ReliableFrameReads(name, Message(5, []), 0);
    assert DataFrame(name, DECOY) == ReliableFrame(name, Message(5, []), 0);
  }

  /** Node `b` is ready to answer. */
  lemma AnswererState(n: Node, name: nat)
    requires n == Boot(n.retryInterval, n.maxAttempts) && 0 < name
    ensures var m := DoAll(n, Answers(name));
            && Sized(m) && m.channels == [Reliable(name)] && m.links[0] == Some(DEVICE_BYTES) && m.wire == [] && m.delivered == []
            && m.now == 0 && DoAll(n, Answers(name)[..1]).plain == {}
  {
    hide LittleEndian, DoAll, SendToRemoteChannel, SendToChannel, CancelReliable, DestroyChannel, PostAdvance;
    var calls := Answers(name);
    NoCalls(n);
    DoAllSnoc(n, [], calls[0]);
    DoAllSnoc(n, [] + [calls[0]], calls[1]);
    assert calls == ([] + [calls[0]]) + [calls[1]] && calls[..1] == [] + [calls[0]];
  }

  /** The caller just before it reuses the name... */
  function BeforeReuse(n: Node, name: nat, b: nat): Node {
    SendToRemoteChannel(CreateChannel(RegisterLink(n, DEVICE_BYTES, 0).0, Plain(name)).0, DECOY, name, Route(0, b), Sent).0
  }

  lemma FirstHalf(n: Node, name: nat, b: nat)
    requires n == Boot(n.retryInterval, n.maxAttempts) && 0 < name <= UINT32_MAX
    ensures var c1 := RegisterLink(n, DEVICE_BYTES, 0).0;
            var c2, c3 := CreateChannel(c1, Plain(name)).0, BeforeReuse(n, name, b);
            && Sized(c1) && Sized(c2)
            && c3 == n.(links := c3.links, channels := [Plain(name)], wire := [Transmission(0, Route(0, b), DataFrame(name, DECOY), None)], plain := {name})
            && |c3.links| == MAX_LINKS && c3.links[0] == Some(DEVICE_BYTES)
  {
    hide DataFrame, LittleEndian;
    var c1 := RegisterLink(n, DEVICE_BYTES, 0).0;
    assert c1.links[0] == Some(DEVICE_BYTES) && c1.channels == [];
    var c2 := CreateChannel(c1, Plain(name)).0;
    assert c2.channels == [Plain(name)] && FindChannel(c2.channels, name, 0) == 0;
    LittleEndianLength();
  }

  lemma LittleEndianLength()
    ensures |LittleEndian(0, ID_BYTES)| == ID_BYTES
  {
  }

  /** ... and after it. */
  lemma SecondHalf(c3: Node, name: nat, b: nat)
    requires 0 < name && c3.channels == [Plain(name)] && Sized(c3) && (forall k :: 0 <= k < |c3.pending| ==> c3.pending[k] == NO_PENDING)
    requires c3.links[0] == Some(DEVICE_BYTES) && c3.nextId == 0 && c3.now == 0 && c3.tracked == []
    ensures var c4 := DestroyChannel(c3, name, false).0;
            var c5 := CreateChannel(c4, Reliable(name)).0;
            var m := SendToRemoteChannel(c5, LOST, name, Route(0, b), Sent).0;
            && Sized(c4) && Sized(c5) && Sized(m)
            && m.pending[0].awaiting && m.pending[0].channel == name && m.pending[0].route == Route(0, b) && m.pending[0].id == 0
            && m.tracked == [Tracked(name, Route(0, b), LOST)] && m.acknowledged == c3.acknowledged && m.channels == [Reliable(name)]
            && |m.wire| == |c3.wire| + 1 && c3.wire <= m.wire
  {
    hide ReliableFrame, LittleEndian;
    assert FindChannel(c3.channels, name, 0) == 0;
    var c4 := DestroyChannel(c3, name, false).0;
    assert c4.channels == [] && FindChannel(c4.channels, name, 0) == 0;
    var c5 := CreateChannel(c4, Reliable(name)).0;
    assert c5.channels == [Reliable(name)] && FindChannel(c5.channels, name, 0) == 0 && FindFree(c5.pending, 0) == 0;
  }

  /** Node `a` after its calls: the decoy is on the wire, and message 0 waits for an acknowledgement. */
  lemma CallerState(n: Node, name: nat, b: nat)
    requires n == Boot(n.retryInterval, n.maxAttempts) && 0 < name <= UINT32_MAX
    ensures var m := DoAll(n, Calls(name, b));
            && Sized(m) && m.pending[0].awaiting && m.pending[0].channel == name && m.pending[0].route == Route(0, b) && m.pending[0].id == 0
            && m.tracked == [Tracked(name, Route(0, b), LOST)] && m.acknowledged == [] && m.channels == [Reliable(name)]
            && |m.wire| == 2 && m.wire[0] == Transmission(0, Route(0, b), DataFrame(name, DECOY), None)
  {
    hide DataFrame, LittleEndian, DoAll, RegisterLink, CreateChannel, SendToRemoteChannel, DestroyChannel;
    FirstHalf(n, name, b);
    SecondHalf(BeforeReuse(n, name, b), name, b);
    CallsAre(n, name, b);
  }

  lemma CallsAre(n: Node, name: nat, b: nat)
    requires Sized(n) && Sized(RegisterLink(n, DEVICE_BYTES, 0).0)
    requires Sized(CreateChannel(RegisterLink(n, DEVICE_BYTES, 0).0, Plain(name)).0) && Sized(BeforeReuse(n, name, b))
    requires Sized(DestroyChannel(BeforeReuse(n, name, b), name, false).0)
    requires Sized(CreateChannel(DestroyChannel(BeforeReuse(n, name, b), name, false).0, Reliable(name)).0)
    ensures var c5 := CreateChannel(DestroyChannel(BeforeReuse(n, name, b), name, false).0, Reliable(name)).0;
            DoAll(n, Calls(name, b)) == SendToRemoteChannel(c5, LOST, name, Route(0, b), Sent).0
  {
    hide LittleEndian, DoAll, RegisterLink, CreateChannel, SendToRemoteChannel, DestroyChannel, SendToChannel, PostAdvance, CancelReliable, Sized;
    var c1 := RegisterLink(n, DEVICE_BYTES, 0).0;
    var c2, c3 := CreateChannel(c1, Plain(name)).0, BeforeReuse(n, name, b);
    var c4 := DestroyChannel(c3, name, false).0;
    CallsInTurn(n, Calls(name, b), c1, c2, c3, c4, CreateChannel(c4, Reliable(name)).0);
  }

  lemma CallsInTurn(n: Node, calls: seq<Action>, c1: Node, c2: Node, c3: Node, c4: Node, c5: Node)
    requires |calls| == 6 && Sized(n) && Sized(c1) && Sized(c2) && Sized(c3) && Sized(c4) && Sized(c5)
    requires Do(n, calls[0]) == c1 && Do(c1, calls[1]) == c2 && Do(c2, calls[2]) == c3 && Do(c3, calls[3]) == c4
    requires Do(c4, calls[4]) == c5
    ensures DoAll(n, calls) == Do(c5, calls[5])
  {
    hide Do, DoAll;
    assert DoAll(n, []) == n by { NoCalls(n); }
    DoAllSnoc(n, [], calls[0]);
    DoAllSnoc(n, [] + [calls[0]], calls[1]);
    DoAllSnoc(n, [] + [calls[0]] + [calls[1]], calls[2]);
    DoAllSnoc(n, [] + [calls[0]] + [calls[1]] + [calls[2]], calls[3]);
    DoAllSnoc(n, [] + [calls[0]] + [calls[1]] + [calls[2]] + [calls[3]], calls[4]);
    DoAllSnoc(n, [] + [calls[0]] + [calls[1]] + [calls[2]] + [calls[3]] + [calls[4]], calls[5]);
    assert calls == [] + [calls[0]] + [calls[1]] + [calls[2]] + [calls[3]] + [calls[4]] + [calls[5]];
  }

  lemma NoCalls(n: Node)
    ensures DoAll(n, []) == n
  {
  }

  /** What node `b` makes of the decoy. */
  lemma DecoyIsAnswered(m: Node, name: nat, a: nat)
    requires 0 < name <= UINT32_MAX && m.channels == [Reliable(name)] && |m.links| > 0 && m.links[0] == Some(DEVICE_BYTES)
    requires m.wire == [] && m.delivered == [] && m.now == 0
    ensures var r := ReceiveFrame(m, Route(0, a), DataFrame(name, DECOY));
            && r.delivered == [Delivery(Some(Route(0, a)), name, Message(5, []), Some(0))]
            && r.wire == [Transmission(0, Route(0, a), AcknowledgementFrame(name, 0), None)]
  {
    hide DataFrame, LittleEndian, ChannelOf, NameOf, IdOf, AcknowledgementFrame;
    DecoyReadsAsReliable(name);
    assert FindChannel(m.channels, name, 0) == 0;
  }

  lemma AnswerReleases(n: Node, name: nat, b: nat)
    requires 0 < name <= UINT32_MAX && n.channels == [Reliable(name)] && n.acknowledged == [] && |n.pending| > 0
    requires n.pending[0].awaiting && n.pending[0].channel == name && n.pending[0].route == Route(0, b) && n.pending[0].id == 0
    ensures var r := ReceiveFrame(n, Route(0, b), AcknowledgementFrame(name, 0)); r.acknowledged == [0] && r.tracked == n.tracked
  {
    hide ChannelOf, NameOf, IdOf, AcknowledgementFrame;
    AcknowledgementReads(name, 0);
    assert FindChannel(n.channels, name, 0) == 0;
    assert FindPending(n.pending, name, Route(0, b), 0, 0) == 0;
  }

  /**
   For every name, every two nodes and every retry policy: one re-creation of the name with reliability, everything
   else steady, leads from boot to an acknowledged message that was delivered nowhere.
   */
  lemma {:induction false} ReuseReleasesUndelivered(boot: System, a: nat, b: nat, name: nat)
    requires Booted(boot) && a < |boot| && b < |boot| && a != b && 0 < name <= UINT32_MAX
    ensures var sys := Run(boot, Reuse(a, b, name));
            && |sys[a].tracked| == 1 && sys[a].acknowledged == [0] && sys[a].tracked[0].route.address == b
            && !DeliveredAt(sys, b, a, 0, sys[a].tracked[0])
    ensures !Honest(Run(boot, Reuse(a, b, name)))
  {
    hide DoAll, Step, Run, ReceiveFrame, DataFrame, AcknowledgementFrame, Calls, Answers, LittleEndian;
    var calls, answers := ActsOf(a, Calls(name, b)), ActsOf(b, Answers(name));
    var n, m := DoAll(boot[a], Calls(name, b)), DoAll(boot[b], Answers(name));
    CallerState(boot[a], name, b);
    AnswererState(boot[b], name);
    NoEvents(boot);
    RunActs(boot, [], a, Calls(name, b));
    assert [] + calls == calls;
    RunActs(boot, calls, b, Answers(name));
    var s2 := boot[a := n][b := m];
    assert Run(boot, calls + answers) == s2;
    var first, second := Arrive(a, 0, b, 0), Arrive(b, 0, a, 0);
    RunSnoc(boot, calls + answers, first);
    RunSnoc(boot, calls + answers + [first], second);
    assert Reuse(a, b, name) == calls + answers + [first] + [second];
    DecoyIsAnswered(m, name, a);
    var r := ReceiveFrame(m, Route(0, a), DataFrame(name, DECOY));
    ArrivesAs(s2, first, n.wire[0].frame);
    var s3 := s2[b := r];
    AnswerReleases(n, name, b);
    ArrivesAs(s3, second, AcknowledgementFrame(name, 0));
    var s4 := s3[a := ReceiveFrame(n, Route(0, b), AcknowledgementFrame(name, 0))];
    assert Run(boot, Reuse(a, b, name)) == s4;
    NobodyDelivered(s4, a, b, name);
  }

  lemma NoEvents(sys: System)
    ensures Run(sys, []) == sys
  {
  }

  lemma ArrivesAs(sys: System, e: Event, frame: Bytes)
    requires Arrives(sys, e) && sys[e.source].wire[e.frame].frame == frame
    ensures Step(sys, e) == sys[e.target := ReceiveFrame(sys[e.target], Route(e.link, e.source), frame)]
  {
    hide ReceiveFrame;
  }

  lemma {:induction false} NobodyDelivered(sys: System, a: nat, b: nat, name: nat)
    requires a < |sys| && b < |sys| && sys[a].acknowledged == [0] && sys[a].tracked == [Tracked(name, Route(0, b), LOST)]
    requires sys[b].delivered == [Delivery(Some(Route(0, a)), name, Message(5, []), Some(0))]
    ensures !DeliveredAt(sys, b, a, 0, sys[a].tracked[0]) && !Honest(sys)
  {
    if AcknowledgedOk(sys, a) { FirstAcknowledged(sys, a); }
  }

  lemma FirstAcknowledged(sys: System, a: nat)
    requires a < |sys| && AcknowledgedOk(sys, a) && sys[a].acknowledged == [0]
    ensures |sys[a].tracked| > 0 && DeliveredAt(sys, sys[a].tracked[0].route.address, a, 0, sys[a].tracked[0])
  {
    assert sys[a].acknowledged[0] == 0;
  }

  /** That run follows every policy that lets node `a` reuse this one name. */
  lemma {:induction false} ReuseIsPermitted(boot: System, a: nat, b: nat, name: nat, allowed: Policy)
    requires Booted(boot) && a < |boot| && b < |boot| && a != b && 0 < name <= UINT32_MAX && allowed(a, name)
    ensures Permits(boot, Reuse(a, b, name), allowed)
  {
    hide DoAll, Step, Run, LittleEndian;
    var es := Reuse(a, b, name);
    AnswererDoesNotReuse(boot, a, b, name);
    forall k | 0 <= k < |es| && es[k].Act? && es[k].node < |boot| && Reuses(Run(boot, es[..k])[es[k].node], es[k].action)
      ensures allowed(es[k].node, es[k].action.channel.name)
    {
      assert k == 4;
    }
  }

  lemma {:induction false} AnswererDoesNotReuse(boot: System, a: nat, b: nat, name: nat)
    requires Booted(boot) && a < |boot| && b < |boot| && a != b && 0 < name <= UINT32_MAX
    ensures Run(boot, Reuse(a, b, name)[..7])[b].plain == {}
  {
    hide DoAll, Step, Run, LittleEndian;
    var calls, answers := Calls(name, b), Answers(name);
    NoEvents(boot);
    AnswererState(boot[b], name);
    RunActs(boot, [], a, calls);
    RunActs(boot, [] + ActsOf(a, calls), b, answers[..1]);
    assert Reuse(a, b, name)[..7] == [] + ActsOf(a, calls) + ActsOf(b, answers[..1]);
  }

  // ------------------------------------------------------------------ the exact condition

  /**
   Every run that follows a policy is honest if and only if the policy never lets a node create a name with
   reliability after having created it without.
   */
  lemma {:induction false} HonestIffNoReuse(boot: System, allowed: Policy)
    requires Booted(boot) && |boot| >= 2
    ensures (forall es :: Permits(boot, es, allowed) ==> Honest(Run(boot, es))) <==> ForbidsReuse(boot, allowed)
  {
    hide Permits, Honest, Booted, Run;
    if ForbidsReuse(boot, allowed) {
      forall es | Permits(boot, es, allowed) ensures Honest(Run(boot, es)) {
        PermittedIsSteady(boot, es, allowed);
        SteadyIsHonest(boot, es);
      }
    } else {
      var i: nat, name: nat :| i < |boot| && 0 < name <= UINT32_MAX && allowed(i, name);
      var j := if i == 0 then 1 else 0;
      ReuseIsPermitted(boot, i, j, name, allowed);
      ReuseReleasesUndelivered(boot, i, j, name);
    }
  }

  lemma {:induction false} SteadyIsHonest(boot: System, es: seq<Event>)
    requires Booted(boot) && SteadyRun(boot, es)
    ensures Honest(Run(boot, es))
  {
    hide LocalOk, AcknowledgedOk, Run;
    Reached(boot, es);
  }
}
