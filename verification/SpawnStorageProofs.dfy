/**
 The ticket invariant of the deferred spawn storage: every waiting request is in exactly one queue, so the fixed
 queues never overflow; every factory is invoked at most once and destroyed exactly once.
 */
module SpawnStorageProofs {
  import opened Basics
  import opened SpawnStorageModel

  // ------------------------------------------------------------------ queues

  ghost predicate AllIn(s: Storage, ts: seq<Ticket>, state: SlotState) {
    forall k :: 0 <= k < |ts| ==> InState(s, ts[k], state)
  }

  /** No ticket of `ts` still waits in `state` while it is also in the live lane. */
  ghost predicate Apart(s: Storage, live: seq<Ticket>, sealed: seq<Ticket>, state: SlotState) {
    forall k :: 0 <= k < |sealed| && InState(s, sealed[k], state) ==> sealed[k] !in live
  }

  /** Every slot waiting in `state` has its ticket in the live lane, in the sealed lane, or among the dropped publications. */
  ghost predicate Covered(s: Storage, live: seq<Ticket>, sealed: seq<Ticket>, state: SlotState) {
    forall i :: 0 <= i < |s.slots| && s.slots[i].state == state ==>
      Ticket(i, s.slots[i].generation) in live || Ticket(i, s.slots[i].generation) in sealed
      || (state.Constructed? && Ticket(i, s.slots[i].generation) in s.dropped)
  }

  ghost predicate Lane(s: Storage, live: seq<Ticket>, sealed: seq<Ticket>, state: SlotState) {
    Distinct(live) && Distinct(sealed) && AllIn(s, live, state) && Apart(s, live, sealed, state)
    && Covered(s, live, sealed, state)
  }

  ghost predicate SlotOk(s: Storage, i: nat)
    requires i < |s.slots|
  {
    var x := s.slots[i];
    && x.generation <= UINT32_MAX && (x.state.Queued? <==> x.active) && (x.state.Free? ==> x.generation == 0)
    && (IsPending(x) ==> x.generation > 0)
    && (x.active ==> Ticket(i, x.generation) in s.activated)
    && (x.state.Constructed? || x.state.Spawned? ==> x.actor.Some?)
  }

  /** A factory is destroyed once, at or after its one invocation, and the ones not yet destroyed are waiting. */
  ghost predicate Factories(s: Storage) {
    && Distinct(s.activated) && Distinct(s.invoked) && Distinct(s.destroyed)
    && (forall k :: 0 <= k < |s.invoked| ==> s.invoked[k] in s.destroyed)
    && (forall k :: 0 <= k < |s.destroyed| ==> s.destroyed[k] in s.activated && !InState(s, s.destroyed[k], Queued))
    && (forall k :: 0 <= k < |s.activated| ==>
          s.activated[k].index < |s.slots| && s.activated[k].generation <= s.slots[s.activated[k].index].generation
          && (s.activated[k] in s.destroyed || InState(s, s.activated[k], Queued)))
  }

  ghost predicate StorageInv(s: Storage) {
    && |s.slots| <= INVALID_TICKET
    && (forall i :: 0 <= i < |s.slots| ==> SlotOk(s, i))
    && Lane(s, s.factory, s.sealedFactory, Queued) && Lane(s, s.publish, s.sealedPublish, Constructed)
    && (forall k :: 0 <= k < |s.factory| ==> s.factory[k] in s.activated)
    && (forall k :: 0 <= k < |s.sealedFactory| ==> s.sealedFactory[k] in s.activated)
    && (forall k :: 0 <= k < |s.publish| ==> s.publish[k] in s.destroyed)
    && (forall k :: 0 <= k < |s.sealedPublish| ==> s.sealedPublish[k] in s.destroyed)
    && Factories(s)
  }

  // ------------------------------------------------------------------ fixed queues never overflow

  function Indices(ts: seq<Ticket>): (r: set<nat>)
    ensures forall k :: 0 <= k < |ts| ==> ts[k].index in r
    ensures forall i :: i in r ==> exists k :: 0 <= k < |ts| && ts[k].index == i
  {
    if ts == [] then {} else Indices(ts[..|ts| - 1]) + {ts[|ts| - 1].index}
  }

  lemma {:induction false} DistinctSlots(s: Storage, ts: seq<Ticket>, state: SlotState)
    requires Distinct(ts) && AllIn(s, ts, state)
    ensures |Indices(ts)| == |ts| && forall i :: i in Indices(ts) ==> i < |s.slots|
  {
    if ts != [] {
      var u, t := ts[..|ts| - 1], ts[|ts| - 1];
      DistinctSlots(s, u, state);
      assert InState(s, t, state);
      forall k | 0 <= k < |u| ensures u[k].index != t.index { assert InState(s, ts[k], state) && ts[k] != t; }
    }
  }

  /** A queue of waiting tickets has room for every ticket that names a slot and is not in it yet. */
  lemma QueueHasRoom(s: Storage, ts: seq<Ticket>, state: SlotState, t: Ticket)
    requires Distinct(ts) && AllIn(s, ts, state) && t !in ts && Names(s, t)
    ensures |ts| < |s.slots|
  {
    DistinctSlots(s, ts, state);
    forall k | 0 <= k < |ts| ensures ts[k].index != t.index { assert InState(s, ts[k], state); }
    assert t.index !in Indices(ts);
    BoundedSetSize(Indices(ts) + {t.index}, |s.slots|);
  }

  // ------------------------------------------------------------------ one slot changes

  /** Tickets of other slots mean what they meant. */
  lemma OtherSlots(s: Storage, m: Storage, i: nat)
    requires i < |s.slots| && |m.slots| == |s.slots| && forall k :: 0 <= k < |s.slots| && k != i ==> m.slots[k] == s.slots[k]
    ensures forall t: Ticket, state :: t.index != i ==> InState(m, t, state) == InState(s, t, state)
    ensures forall t: Ticket :: t.index != i ==> Names(m, t) == Names(s, t)
  {
  }

  lemma RetireKeeps(s: Storage, i: nat)
    requires StorageInv(s) && i < |s.slots| && IsReusable(s.slots[i])
    ensures StorageInv(s.(slots := s.slots[i := s.slots[i].(state := Retired)]))
  {
    hide Factories;
    assert SlotOk(s, i);
    assert forall k :: 0 <= k < |s.publish| ==> InState(s, s.publish[k], Constructed);
    SettleKeeps(s, s.(slots := s.slots[i := s.slots[i].(state := Retired)]), i);
  }

  /** The state after slot `i` has been reserved for a new request and its factory captured and queued. */
  function SubmitAt(s: Storage, i: nat): Storage
    requires i < |s.slots|
  {
    var t := Ticket(i, s.slots[i].generation + 1);
    s.(slots := s.slots[i := SpawnSlot(t.generation, Queued, SUCCEEDED, None, true)], factory := s.factory + [t],
       activated := s.activated + [t])
  }

  lemma FreshTicket(s: Storage, i: nat)
    requires StorageInv(s) && i < |s.slots|
    ensures Ticket(i, s.slots[i].generation + 1) !in s.activated && Ticket(i, s.slots[i].generation + 1) !in s.destroyed
    ensures Ticket(i, s.slots[i].generation + 1) !in s.factory && Ticket(i, s.slots[i].generation + 1) !in s.publish
  {
    hide Distinct, Apart, Covered, SlotOk;
    var t := Ticket(i, s.slots[i].generation + 1);
    assert forall k :: 0 <= k < |s.factory| ==> InState(s, s.factory[k], Queued);
    assert forall k :: 0 <= k < |s.publish| ==> InState(s, s.publish[k], Constructed);
  }

  lemma SubmitKeepsLanes(s: Storage, i: nat)
    requires StorageInv(s) && i < |s.slots| && IsReusable(s.slots[i]) && s.slots[i].generation < UINT32_MAX
    ensures var m := SubmitAt(s, i);
            Lane(m, m.factory, m.sealedFactory, Queued) && Lane(m, m.publish, m.sealedPublish, Constructed)
  {
    hide SlotOk, Factories;
    var m, t := SubmitAt(s, i), Ticket(i, s.slots[i].generation + 1);
    FreshTicket(s, i);
    OtherSlots(s, m, i);
    SealedTicketsAreOld(s, i);
    assert forall k :: 0 <= k < |s.factory| ==> InState(s, s.factory[k], Queued);
    assert forall k :: 0 <= k < |s.publish| ==> InState(s, s.publish[k], Constructed);
    assert forall k :: 0 <= k < |s.factory| ==> m.factory[k] == s.factory[k];
  }

  /** No sealed ticket can be mistaken for the next request in a slot. */
  lemma SealedTicketsAreOld(s: Storage, i: nat)
    requires StorageInv(s) && i < |s.slots|
    ensures Ticket(i, s.slots[i].generation + 1) !in s.sealedPublish
    ensures Ticket(i, s.slots[i].generation + 1) !in s.sealedFactory
  {
    FreshTicket(s, i);
  }

  lemma SubmitKeeps(s: Storage, i: nat)
    requires StorageInv(s) && i < |s.slots| && IsReusable(s.slots[i]) && s.slots[i].generation < UINT32_MAX
    ensures StorageInv(SubmitAt(s, i))
  {
    hide Lane;
    var m, t := SubmitAt(s, i), Ticket(i, s.slots[i].generation + 1);
    FreshTicket(s, i);
    OtherSlots(s, m, i);
    SubmitKeepsLanes(s, i);
    forall k | 0 <= k < |m.slots| ensures SlotOk(m, k) { assert SlotOk(s, k); }
    forall k | 0 <= k < |s.destroyed| ensures !InState(m, s.destroyed[k], Queued) {
      assert s.destroyed[k] != t;
      assert !InState(s, s.destroyed[k], Queued);
    }
  }

  /** A request takes the first usable slot, or is refused and retires nothing but exhausted slots. */
  lemma {:induction false} ReserveKeeps(s: Storage, i: nat)
    requires StorageInv(s) && i <= |s.slots|
    ensures var (r, t) := Reserve(s, i);
            |r.slots| == |s.slots|
            && if t.None? then StorageInv(r) && r == s.(slots := r.slots)
               else StorageInv(Activate(r, t.value)) && t.value.IsValid() && t.value !in s.activated
                    && Activate(r, t.value)
                       == s.(slots := Activate(r, t.value).slots, factory := s.factory + [t.value], activated := s.activated + [t.value])
    decreases |s.slots| - i
  {
    hide StorageInv;
    if i < |s.slots| {
      var x := s.slots[i];
      if !IsReusable(x) {
        ReserveKeeps(s, i + 1);
      } else if x.generation == UINT32_MAX {
        RetireKeeps(s, i);
        ReserveKeeps(s.(slots := s.slots[i := x.(state := Retired)]), i + 1);
      } else {
        GenerationBound(s, i);
        SubmitKeeps(s, i);
        FreshTicket(s, i);
        assert Activate(Reserve(s, i).0, Ticket(i, x.generation + 1)) == SubmitAt(s, i);
      }
    }
  }

  lemma GenerationBound(s: Storage, i: nat)
    requires StorageInv(s) && i < |s.slots|
    ensures s.slots[i].generation <= UINT32_MAX && |s.slots| <= INVALID_TICKET
  {
    assert SlotOk(s, i);
  }

  // ------------------------------------------------------------------ sealing

  /** Every sealed ticket has been dealt with, so the snapshots may be overwritten. */
  ghost predicate Drained(s: Storage) {
    && (forall k :: 0 <= k < |s.sealedFactory| ==> !InState(s, s.sealedFactory[k], Queued))
    && (forall k :: 0 <= k < |s.sealedPublish| && InState(s, s.sealedPublish[k], Constructed) ==> s.sealedPublish[k] in s.dropped)
  }

  lemma SealKeeps(s: Storage)
    requires StorageInv(s) && Drained(s)
    ensures StorageInv(SealBarrier(s))
  {
    hide Factories;
    var m := SealBarrier(s);
    forall k | 0 <= k < |m.slots| ensures SlotOk(m, k) { assert SlotOk(s, k); }
    assert forall t, state :: InState(m, t, state) == InState(s, t, state);
    SameFactories(s, m);
    forall i | 0 <= i < |s.slots| && s.slots[i].state == Queued ensures Ticket(i, s.slots[i].generation) in s.factory {
      PendingTicketNames(s, i);
    }
    forall i | 0 <= i < |s.slots| && s.slots[i].state == Constructed
      ensures Ticket(i, s.slots[i].generation) in s.publish || Ticket(i, s.slots[i].generation) in s.dropped
    {
      PendingTicketNames(s, i);
    }
  }

  lemma PendingTicketNames(s: Storage, i: nat)
    requires StorageInv(s) && i < |s.slots| && IsPending(s.slots[i])
    ensures InState(s, Ticket(i, s.slots[i].generation), s.slots[i].state)
  {
    assert SlotOk(s, i);
  }

  /** The factory ledger depends on the slots and its own history only. */
  lemma SameFactories(s: Storage, m: Storage)
    requires Factories(s) && m.slots == s.slots && m.activated == s.activated && m.invoked == s.invoked
    requires m.destroyed == s.destroyed
    ensures Factories(m)
  {
    assert forall t, state :: InState(m, t, state) == InState(s, t, state);
  }

  // ------------------------------------------------------------------ construction

  /** Slot `i`, whose ticket was waiting for construction, moves on and its factory is destroyed. */
  ghost predicate Consumed(s: Storage, m: Storage, i: nat)
    requires i < |s.slots|
  {
    var t := Ticket(i, s.slots[i].generation);
    && s.slots[i].state.Queued? && s.slots[i].active && |m.slots| == |s.slots|
    && (forall k :: 0 <= k < |s.slots| && k != i ==> m.slots[k] == s.slots[k])
    && m.slots[i].generation == s.slots[i].generation && !m.slots[i].active
    && m.factory == s.factory && m.publish == s.publish && m.sealedFactory == s.sealedFactory && m.dropped == s.dropped
    && m.activated == s.activated && m.destroyed == s.destroyed + [t]
    && (m.invoked == s.invoked || m.invoked == s.invoked + [t])
    && if m.slots[i].state.Constructed? then m.slots[i].actor.Some? && m.sealedPublish == s.sealedPublish + [t]
       else m.slots[i].state.Failed? && m.sealedPublish == s.sealedPublish
  }

  lemma ConsumedTicket(s: Storage, i: nat)
    requires StorageInv(s) && i < |s.slots| && s.slots[i].state.Queued?
    ensures var t := Ticket(i, s.slots[i].generation);
            t in s.activated && t !in s.destroyed && t !in s.invoked && t !in s.publish && t !in s.sealedPublish
            && InState(s, t, Queued)
  {
    hide Lane;
    var t := Ticket(i, s.slots[i].generation);
    PendingTicketNames(s, i);
    assert SlotOk(s, i);
    forall k | 0 <= k < |s.destroyed| ensures s.destroyed[k] != t { assert !InState(s, s.destroyed[k], Queued); }
  }

  lemma ConsumeKeepsFactories(s: Storage, m: Storage, i: nat)
    requires StorageInv(s) && i < |s.slots| && Consumed(s, m, i)
    ensures Factories(m)
  {
    hide Lane, SlotOk;
    var t := Ticket(i, s.slots[i].generation);
    ConsumedTicket(s, i);
    OtherSlots(s, m, i);
    forall k | 0 <= k < |m.destroyed| ensures m.destroyed[k] in m.activated && !InState(m, m.destroyed[k], Queued) {
      if k < |s.destroyed| { assert m.destroyed[k] == s.destroyed[k]; }
    }
    forall k | 0 <= k < |m.activated| ensures m.activated[k] in m.destroyed || InState(m, m.activated[k], Queued) {
      if m.activated[k] == t { assert m.destroyed[|s.destroyed|] == t; }
    }
    assert forall k :: 0 <= k < |s.invoked| ==> s.invoked[k] in m.destroyed;
  }

  lemma ConsumeKeepsLanes(s: Storage, m: Storage, i: nat)
    requires StorageInv(s) && i < |s.slots| && Consumed(s, m, i) && Ticket(i, s.slots[i].generation) !in s.factory
    ensures Lane(m, m.factory, m.sealedFactory, Queued) && Lane(m, m.publish, m.sealedPublish, Constructed)
  {
    hide Factories, SlotOk;
    var t := Ticket(i, s.slots[i].generation);
    ConsumedTicket(s, i);
    OtherSlots(s, m, i);
    forall k | 0 <= k < |m.factory| ensures InState(m, m.factory[k], Queued) {
      assert InState(s, s.factory[k], Queued) && s.factory[k] != t;
    }
    forall k | 0 <= k < |m.publish| ensures InState(m, m.publish[k], Constructed) { assert InState(s, s.publish[k], Constructed); }
    assert forall k :: 0 <= k < |s.sealedPublish| ==> m.sealedPublish[k] == s.sealedPublish[k];
  }

  lemma ConsumeKeeps(s: Storage, m: Storage, i: nat)
    requires StorageInv(s) && i < |s.slots| && Consumed(s, m, i) && Ticket(i, s.slots[i].generation) !in s.factory
    ensures StorageInv(m)
  {
    hide Lane, Factories;
    ConsumeKeepsFactories(s, m, i);
    ConsumeKeepsLanes(s, m, i);
    forall k | 0 <= k < |m.slots| ensures SlotOk(m, k) { assert SlotOk(s, k); }
  }

  /** A sealed ticket that still waits is constructed or failed, exactly once; any other ticket changes nothing. */
  lemma ConstructKeeps(s: Storage, t: Ticket, outcome: Outcome)
    requires StorageInv(s) && t !in s.factory
    ensures StorageInv(Construct(s, t, outcome)) && !InState(Construct(s, t, outcome), t, Queued)
    ensures InState(s, t, Queued) ==> Consumed(s, Construct(s, t, outcome), t.index)
    ensures !InState(s, t, Queued) ==> Construct(s, t, outcome) == s
  {
    hide StorageInv;
    if InState(s, t, Queued) {
      QueuedIsActive(s, t);
      assert t == Ticket(t.index, s.slots[t.index].generation);
      ConsumeKeeps(s, Construct(s, t, outcome), t.index);
    }
  }

  lemma QueuedIsActive(s: Storage, t: Ticket)
    requires StorageInv(s) && InState(s, t, Queued)
    ensures s.slots[t.index].active
  {
    assert SlotOk(s, t.index);
  }

  // ------------------------------------------------------------------ publication

  /** A slot leaves the waiting states, or a live one is released; its factory is already gone. */
  ghost predicate Settles(s: Storage, m: Storage, i: nat)
    requires i < |s.slots|
  {
    && |m.slots| == |s.slots| && m == s.(slots := s.slots[i := m.slots[i]])
    && !s.slots[i].state.Queued? && !IsPending(m.slots[i]) && !m.slots[i].state.Free?
    && m.slots[i].generation == s.slots[i].generation && !m.slots[i].active
    && (m.slots[i].state.Spawned? ==> m.slots[i].actor.Some?)
  }

  lemma SettleKeeps(s: Storage, m: Storage, i: nat)
    requires StorageInv(s) && i < |s.slots| && Settles(s, m, i) && Ticket(i, s.slots[i].generation) !in s.publish
    ensures StorageInv(m)
  {
    OtherSlots(s, m, i);
    assert SlotOk(s, i);
    forall k | 0 <= k < |m.slots| ensures SlotOk(m, k) { assert SlotOk(s, k); }
    SettleKeepsFactories(s, m, i);
    SettleKeepsLanes(s, m, i);
  }

  lemma SettleKeepsFactories(s: Storage, m: Storage, i: nat)
    requires StorageInv(s) && i < |s.slots| && Settles(s, m, i)
    ensures Factories(m)
  {
    hide Lane, SlotOk;
    OtherSlots(s, m, i);
    forall k | 0 <= k < |m.activated| ensures m.activated[k] in m.destroyed || InState(m, m.activated[k], Queued) {
      assert s.activated[k] in s.destroyed || InState(s, s.activated[k], Queued);
    }
  }

  lemma SettleKeepsLanes(s: Storage, m: Storage, i: nat)
    requires StorageInv(s) && i < |s.slots| && Settles(s, m, i) && Ticket(i, s.slots[i].generation) !in s.publish
    ensures Lane(m, m.factory, m.sealedFactory, Queued) && Lane(m, m.publish, m.sealedPublish, Constructed)
  {
    hide SlotOk, Factories;
    OtherSlots(s, m, i);
    forall k | 0 <= k < |m.factory| ensures InState(m, m.factory[k], Queued) { assert InState(s, s.factory[k], Queued); }
    forall k | 0 <= k < |m.publish| ensures InState(m, m.publish[k], Constructed) { assert InState(s, s.publish[k], Constructed); }
  }

  lemma CompletePublishKeeps(s: Storage, t: Ticket)
    requires StorageInv(s) && t !in s.publish
    ensures StorageInv(CompletePublish(s, t)) && !InState(CompletePublish(s, t), t, Constructed)
  {
    hide StorageInv;
    if InState(s, t, Constructed) {
      assert t == Ticket(t.index, s.slots[t.index].generation);
      ConstructedHasActor(s, t);
      SettleKeeps(s, CompletePublish(s, t), t.index);
    }
  }

  lemma ConstructedHasActor(s: Storage, t: Ticket)
    requires StorageInv(s) && InState(s, t, Constructed)
    ensures s.slots[t.index].actor.Some? && !s.slots[t.index].active
  {
    assert SlotOk(s, t.index);
  }

  lemma ReleaseKeeps(s: Storage, actor: nat)
    requires StorageInv(s)
    ensures StorageInv(ReleaseActor(s, actor))
  {
    hide StorageInv;
    var i := FindSpawned(s.slots, actor, 0);
    if i < |s.slots| {
      SpawnedIsSettled(s, i);
      SettleKeeps(s, ReleaseActor(s, actor), i);
    }
  }

  lemma SpawnedIsSettled(s: Storage, i: nat)
    requires StorageInv(s) && i < |s.slots| && s.slots[i].state.Spawned?
    ensures !s.slots[i].active && Ticket(i, s.slots[i].generation) !in s.publish
  {
    assert SlotOk(s, i);
    assert forall k :: 0 <= k < |s.publish| ==> InState(s, s.publish[k], Constructed);
  }

  lemma SkipKeeps(s: Storage, t: Ticket)
    requires StorageInv(s)
    ensures StorageInv(SkipPublish(s, t))
  {
    hide Factories;
    var m := SkipPublish(s, t);
    assert forall u, state :: InState(m, u, state) == InState(s, u, state);
    forall k | 0 <= k < |m.slots| ensures SlotOk(m, k) { assert SlotOk(s, k); }
    SameFactories(s, m);
    forall i | 0 <= i < |s.slots| && IsPending(s.slots[i]) ensures Ticket(i, s.slots[i].generation) in s.dropped ==> Ticket(i, s.slots[i].generation) in m.dropped {}
  }

  // ------------------------------------------------------------------ restoring

  lemma {:induction false} StillIsExact(s: Storage, ts: seq<Ticket>, state: SlotState, k: nat)
    requires k <= |ts| && Distinct(ts)
    ensures var r := Still(s, ts, state, k);
            Distinct(r) && AllIn(s, r, state)
            && forall t :: t in r <==> t in ts[..k] && InState(s, t, state)
  {
    if k > 0 {
      StillIsExact(s, ts, state, k - 1);
      assert ts[..k] == ts[..k - 1] + [ts[k - 1]];
      assert ts[k - 1] !in ts[..k - 1];
    }
  }

  /** Every slot waiting in `state` has a ticket that can be handed out. */
  ghost predicate Ticketed(s: Storage, state: SlotState) {
    forall i :: 0 <= i < |s.slots| && s.slots[i].state == state ==> Ticket(i, s.slots[i].generation).IsValid()
  }

  lemma RestoreLane(s: Storage, live: seq<Ticket>, sealed: seq<Ticket>, state: SlotState)
    requires Lane(s, live, sealed, state) && Ticketed(s, state)
    ensures Lane(s, live + Still(s, sealed, state, |sealed|), [], state)
  {
    var r := Still(s, sealed, state, |sealed|);
    StillIsExact(s, sealed, state, |sealed|);
    assert sealed[..|sealed|] == sealed;
    forall t | t in r ensures t !in live { assert t in sealed && InState(s, t, state); }
    forall i | 0 <= i < |s.slots| && s.slots[i].state == state && Ticket(i, s.slots[i].generation) in sealed
      ensures Ticket(i, s.slots[i].generation) in r
    {
      assert InState(s, Ticket(i, s.slots[i].generation), state);
    }
  }

  lemma WaitingIsTicketed(s: Storage)
    requires StorageInv(s)
    ensures Ticketed(s, Queued) && Ticketed(s, Constructed)
  {
    forall i | 0 <= i < |s.slots| && IsPending(s.slots[i]) ensures Ticket(i, s.slots[i].generation).IsValid() {
      assert SlotOk(s, i);
    }
  }

  /** Restoring puts every sealed ticket that still waits back into the live lane, behind what is already there. */
  lemma RestoreKeeps(s: Storage)
    requires StorageInv(s)
    ensures StorageInv(RestoreUnconstructed(s)) && StorageInv(RestoreUnpublished(s))
  {
    hide Lane, Factories;
    WaitingIsTicketed(s);
    RestoreLane(s, s.factory, s.sealedFactory, Queued);
    RestoreLane(s, s.publish, s.sealedPublish, Constructed);
    RestoredFactories(s);
    RestoredPublications(s);
  }

  lemma LaneFrame(s: Storage, m: Storage, live: seq<Ticket>, sealed: seq<Ticket>, state: SlotState)
    requires Lane(s, live, sealed, state) && m.slots == s.slots && m.dropped == s.dropped
    ensures Lane(m, live, sealed, state)
  {
    assert forall t, x :: InState(m, t, x) == InState(s, t, x);
  }

  lemma RestoredFactories(s: Storage)
    requires StorageInv(s) && Lane(s, s.factory + Still(s, s.sealedFactory, Queued, |s.sealedFactory|), [], Queued)
    ensures StorageInv(RestoreUnconstructed(s))
  {
    hide Factories, Lane;
    var m := RestoreUnconstructed(s);
    StillComesFrom(s, s.sealedFactory, Queued, |s.sealedFactory|);
    LaneFrame(s, m, m.factory, [], Queued);
    LaneFrame(s, m, s.publish, s.sealedPublish, Constructed);
    SameFactories(s, m);
    forall k | 0 <= k < |m.factory| ensures m.factory[k] in m.activated {
      if k >= |s.factory| { assert m.factory[k] in Still(s, s.sealedFactory, Queued, |s.sealedFactory|); }
    }
    forall k | 0 <= k < |m.slots| ensures SlotOk(m, k) { assert SlotOk(s, k); }
  }

  lemma RestoredPublications(s: Storage)
    requires StorageInv(s) && Lane(s, s.publish + Still(s, s.sealedPublish, Constructed, |s.sealedPublish|), [], Constructed)
    ensures StorageInv(RestoreUnpublished(s))
  {
    hide Factories, Lane;
    var m := RestoreUnpublished(s);
    StillComesFrom(s, s.sealedPublish, Constructed, |s.sealedPublish|);
    LaneFrame(s, m, m.publish, [], Constructed);
    LaneFrame(s, m, s.factory, s.sealedFactory, Queued);
    SameFactories(s, m);
    forall k | 0 <= k < |m.publish| ensures m.publish[k] in m.destroyed {
      if k >= |s.publish| { assert m.publish[k] in Still(s, s.sealedPublish, Constructed, |s.sealedPublish|); }
    }
    forall k | 0 <= k < |m.slots| ensures SlotOk(m, k) { assert SlotOk(s, k); }
  }

  lemma {:induction false} StillComesFrom(s: Storage, ts: seq<Ticket>, state: SlotState, k: nat)
    requires k <= |ts|
    ensures forall t :: t in Still(s, ts, state, k) ==> t in ts && InState(s, t, state)
  {
    if k > 0 { StillComesFrom(s, ts, state, k - 1); }
  }

  // ------------------------------------------------------------------ aborting a failed startup

  /** The first `k` slots no longer wait; the rest of the storage is as it was. */
  ghost predicate AbortedUpTo(s: Storage, m: Storage, k: nat)
    requires k <= |s.slots|
  {
    && |m.slots| == |s.slots|
    && (forall i :: 0 <= i < |s.slots| ==> m.slots[i].generation == s.slots[i].generation)
    && (forall i :: 0 <= i < k ==>
          if IsPending(s.slots[i]) then m.slots[i].state.Failed? && !m.slots[i].active else m.slots[i] == s.slots[i])
    && (forall i :: k <= i < |s.slots| ==> m.slots[i] == s.slots[i])
    && m.activated == s.activated && m.invoked == s.invoked && m.dropped == s.dropped
    && Factories(m) && m.sealedPublish == s.sealedPublish && m.publish == s.publish
  }

  /** A waiting slot fails; if its factory was still there, it is destroyed now. */
  function AbortSlot(m: Storage, k: nat): Storage
    requires k < |m.slots|
  {
    var d := if m.slots[k].state.Queued? then DestroyFactory(m, k) else m;
    d.(slots := d.slots[k := d.slots[k].(actor := None, result := LIFECYCLE_LOCKED, state := Failed)])
  }

  lemma AbortSlotKeepsFactories(m: Storage, k: nat)
    requires Factories(m) && k < |m.slots| && IsPending(m.slots[k]) && (m.slots[k].state.Queued? <==> m.slots[k].active)
    requires m.slots[k].state.Queued? ==> var t := Ticket(k, m.slots[k].generation); t in m.activated && t.IsValid()
    ensures Factories(AbortSlot(m, k))
  {
    var r, t := AbortSlot(m, k), Ticket(k, m.slots[k].generation);
    OtherSlots(m, r, k);
    if m.slots[k].state.Queued? {
      assert InState(m, t, Queued);
      forall j | 0 <= j < |m.destroyed| ensures m.destroyed[j] != t { assert !InState(m, m.destroyed[j], Queued); }
      assert r.destroyed[|m.destroyed|] == t;
    }
    forall j | 0 <= j < |r.activated| ensures r.activated[j] in r.destroyed || InState(r, r.activated[j], Queued) {
      assert m.activated[j] in m.destroyed || InState(m, m.activated[j], Queued);
    }
  }

  lemma AbortOne(s: Storage, m: Storage, k: nat)
    requires StorageInv(s) && k < |s.slots| && AbortedUpTo(s, m, k) && IsPending(s.slots[k])
    ensures AbortedUpTo(s, AbortSlot(m, k), k + 1)
  {
    hide Lane, Factories;
    assert SlotOk(s, k);
    PendingTicketNames(s, k);
    AbortSlotKeepsFactories(m, k);
  }

  lemma {:induction false} AbortUpToKeeps(s: Storage, k: nat)
    requires StorageInv(s) && k <= |s.slots|
    ensures AbortedUpTo(s, AbortUpTo(s, k), k)
  {
    hide Lane, Factories;
    if k > 0 {
      AbortUpToKeeps(s, k - 1);
      if IsPending(AbortUpTo(s, k - 1).slots[k - 1]) { AbortOne(s, AbortUpTo(s, k - 1), k - 1); }
    } else {
      assert Factories(s);
    }
  }

  /** A failed startup leaves nothing waiting, nothing queued, and no factory undestroyed. */
  lemma AbortKeeps(s: Storage)
    requires StorageInv(s)
    ensures var m := AbortSealedBatch(s);
            && StorageInv(m) && Drained(m) && m.factory == [] && m.publish == []
            && (forall i :: 0 <= i < |m.slots| ==> !IsPending(m.slots[i]) && !m.slots[i].active)
            && (forall k :: 0 <= k < |m.activated| ==> m.activated[k] in m.destroyed)
  {
    hide AbortUpTo, Factories;
    var u, m := AbortUpTo(s, |s.slots|), AbortSealedBatch(s);
    AbortUpToKeeps(s, |s.slots|);
    forall i | 0 <= i < |m.slots| ensures SlotOk(m, i) && !IsPending(m.slots[i]) && !m.slots[i].active {
      assert SlotOk(s, i);
    }
    SameFactories(u, m);
    NothingWaitsMeansDestroyed(m);
  }

  lemma NothingWaitsMeansDestroyed(s: Storage)
    requires Factories(s) && forall i :: 0 <= i < |s.slots| ==> !IsPending(s.slots[i])
    ensures forall k :: 0 <= k < |s.activated| ==> s.activated[k] in s.destroyed
  {
    forall k | 0 <= k < |s.activated| ensures s.activated[k] in s.destroyed { assert !InState(s, s.activated[k], Queued); }
  }

  lemma FreshKeeps(maxRequests: nat)
    requires maxRequests <= INVALID_TICKET
    ensures StorageInv(Fresh(maxRequests)) && Drained(Fresh(maxRequests))
  {
  }

  // ------------------------------------------------------------------ what the invariant says

  function Occurrences(ts: seq<Ticket>, t: Ticket): nat { multiset(ts)[t] }

  lemma {:induction false} DistinctOccursOnce(ts: seq<Ticket>, t: Ticket)
    requires Distinct(ts)
    ensures Occurrences(ts, t) == if t in ts then 1 else 0
  {
    if ts != [] {
      var u, x := ts[..|ts| - 1], ts[|ts| - 1];
      DistinctOccursOnce(u, t);
      assert ts == u + [x];
      assert x !in u;
    }
  }

  /**
   Tickets are conserved: a slot waiting for construction has its ticket exactly once in the live and sealed
   factory queues together, and a slot waiting for publication exactly once in the two publish queues. The one
   exception is a publication dropped because its actor no longer resolved.
   */
  lemma TicketsAreConserved(s: Storage, i: nat)
    requires StorageInv(s) && i < |s.slots|
    ensures var t := Ticket(i, s.slots[i].generation);
            && (s.slots[i].state.Queued? ==> Occurrences(s.factory, t) + Occurrences(s.sealedFactory, t) == 1)
            && (s.slots[i].state.Constructed? ==>
                  t in s.dropped || Occurrences(s.publish, t) + Occurrences(s.sealedPublish, t) == 1)
  {
    hide Factories;
    var t := Ticket(i, s.slots[i].generation);
    DistinctOccursOnce(s.factory, t);
    DistinctOccursOnce(s.sealedFactory, t);
    DistinctOccursOnce(s.publish, t);
    DistinctOccursOnce(s.sealedPublish, t);
    if IsPending(s.slots[i]) { PendingTicketNames(s, i); }
  }

  /** Each factory is invoked at most once and destroyed exactly once, when its request stops waiting. */
  lemma FactoriesRunOnce(s: Storage, t: Ticket)
    requires StorageInv(s) && t in s.activated
    ensures Occurrences(s.activated, t) == 1 && Occurrences(s.invoked, t) <= Occurrences(s.destroyed, t) <= 1
    ensures Occurrences(s.destroyed, t) == 1 <==> !InState(s, t, Queued)
  {
    hide Lane;
    DistinctOccursOnce(s.activated, t);
    DistinctOccursOnce(s.invoked, t);
    DistinctOccursOnce(s.destroyed, t);
  }
}
