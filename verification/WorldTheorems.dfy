/** The structural barrier as a whole: it stays in bounds for any hooks, and does what it says for quiet ones. */
module WorldTheorems {
  import opened Basics
  import opened SpawnStorageModel
  import opened SpawnStorageProofs
  import opened WorldModel
  import opened WorldProofs

  // ------------------------------------------------------------------ actors nobody knows stay unknown

  ghost predicate Unknown(w: World, a: Actor) { New(w, a) && a !in w.objects }

  /** Factories build actors nobody knows, each its own. */
  ghost predicate FreshOutcomes(w: World, outcomes: Ticket -> Outcome) {
    && (forall t :: outcomes(t).Built? ==> Unknown(w, outcomes(t).actor))
    && (forall t, u :: t != u && outcomes(t).Built? && outcomes(u).Built? ==> outcomes(t).actor != outcomes(u).actor)
  }

  lemma HandleUnknown(w: World, r: Request, begun: nat, a: Actor)
    requires Tables(w, begun) && Unknown(w, a)
    ensures Unknown(Handle(w, r), a)
  {
    hide StorageInv, PendingCount, Submit;
    if r.SpawnTyped? { SubmitUnknown(w, begun); }
  }

  lemma SubmitUnknown(w: World, begun: nat)
    requires Tables(w, begun)
    ensures |Submit(w.spawns).0.slots| == |w.spawns.slots|
    ensures forall k :: 0 <= k < |w.spawns.slots| && HasActor(Submit(w.spawns).0.slots[k]) ==>
              Submit(w.spawns).0.slots[k] == w.spawns.slots[k]
  {
    hide StorageInv, Submit;
    SubmitCounts(w.spawns);
  }

  lemma {:induction false} HandleAllUnknown(w: World, rs: seq<Request>, begun: nat, a: Actor)
    requires Tables(w, begun) && Unknown(w, a)
    ensures Unknown(HandleAll(w, rs), a)
  {
    hide Tables, Unknown, Handle;
    if rs != [] {
      HandleAllUnknown(w, rs[..|rs| - 1], begun, a);
      HandleAllKeeps(w, rs[..|rs| - 1], begun);
      HandleUnknown(HandleAll(w, rs[..|rs| - 1]), rs[|rs| - 1], begun, a);
    }
  }

  lemma {:induction false} EndDoomedUnknown(w: World, i: nat, h: Hooks, a: Actor)
    requires Tables(w, 0) && Unknown(w, a)
    ensures Unknown(EndDoomed(w, i, h), a)
    decreases |w.live| - i
  {
    hide Tables, HandleAll;
    if i < |w.pendingDestroy| && i < |w.live| {
      if w.pendingDestroy[i] in w.objects {
        var d := w.pendingDestroy[i];
        var n := w.(hooks := w.hooks + [Finished(d)]);
        HookKeeps(w, Finished(d), 0);
        HandleAllUnknown(n, h.end(d), 0, a);
        HandleAllKeeps(n, h.end(d), 0);
        EndDoomedUnknown(End(w, d, h), i + 1, h, a);
      } else {
        EndDoomedUnknown(w, i + 1, h, a);
      }
    }
  }

  lemma {:induction false} UnregisterUpToUnknown(w: World, collecting: bool, k: nat, a: Actor)
    requires Unregistering(w, 0) && Unknown(w, a) && k <= |w.pendingDestroy|
    ensures Unknown(UnregisterUpTo(w, collecting, k), a)
  {
    hide Unregister, PendingCount, Unregistering;
    if k > 0 {
      UnregisterUpToUnknown(w, collecting, k - 1, a);
      UnregisterUpToKeeps(w, k - 1, collecting);
      UnregisterUnknown(UnregisterUpTo(w, collecting, k - 1), k - 1, collecting, a);
    }
  }

  lemma UnregisterUnknown(w: World, k: nat, collecting: bool, a: Actor)
    requires Unregistering(w, k) && k < |w.pendingDestroy| && Unknown(w, a)
    ensures Unknown(Unregister(w, w.pendingDestroy[k], collecting), a)
  {
    hide StorageInv, PendingCount, ReleaseActor;
    WithoutIsExact(w.live, w.pendingDestroy[k]);
    ReleaseEffect(w.spawns, w.pendingDestroy[k], w.live, w.pendingSpawn);
  }

  lemma {:induction false} BeginManualUnknown(w: World, i: nat, h: Hooks, a: Actor)
    requires Tables(w, i) && Committed(w) <= w.capacity + i && Unknown(w, a)
    ensures Unknown(BeginManual(w, i, h), a)
    decreases w.capacity - i
  {
    hide TablesWhile, Begin, PendingCount, Unknown;
    if i < |w.pendingSpawn| && i < w.capacity {
      if w.pendingSpawn[i] in w.objects {
        BeginKeeps(w, i, h);
        BeginSameCapacity(w, i, h);
        BeginUnknown(w, i, h, a);
        BeginManualUnknown(Begin(w, w.pendingSpawn[i], h), i + 1, h, a);
      } else {
        SkipManual(w, i);
        BeginManualUnknown(w, i + 1, h, a);
      }
    }
  }

  lemma BeginUnknown(w: World, i: nat, h: Hooks, a: Actor)
    requires Tables(w, i) && i < |w.pendingSpawn| && Unknown(w, a)
    ensures Unknown(Begin(w, w.pendingSpawn[i], h), a)
  {
    hide StorageInv, PendingCount, HandleAll;
    var b := w.pendingSpawn[i];
    var n := w.(live := w.live + [b], owned := w.owned + {b}, hooks := w.hooks + [Began(b)]);
    assert Tables(n, i + 1);
    HandleAllUnknown(n, h.begin(b), i + 1, a);
  }

  // ------------------------------------------------------------------ up to construction

  /** The world when construction starts: sealed, the doomed gone, the manual spawns begun. */
  function BeforeConstruction(w: World, h: Hooks, g: Guards): World {
    var s := w.(spawns := SealBarrier(w.spawns));
    BeginManual(MarkAndUnregister(EndDoomed(s, 0, h), g.collecting), 0, h).(pendingSpawn := [])
  }

  lemma SealTables(w: World)
    requires WorldInv(w)
    ensures var s := w.(spawns := SealBarrier(w.spawns)); Tables(s, 0) && Committed(s) <= s.capacity
  {
    hide StorageInv, Count;
    SealKeeps(w.spawns);
  }

  lemma OnlyQueuesKeepsSealed(w: World, m: World)
    requires OnlyQueues(w, m)
    ensures KeepsSealed(w, m) && (Committed(w) <= w.capacity ==> Committed(m) <= m.capacity)
  {
    hide Count;
    QueuesKeepSealed(w, m.(hooks := w.hooks));
  }

  lemma MarkKeepsSealed(w: World, collecting: bool)
    requires Tables(w, 0)
    ensures KeepsSealed(w, MarkAndUnregister(w, collecting))
  {
    hide Tables, PendingCount, UnregisterUpTo;
    MarkKeeps(w, collecting);
  }

  lemma EndPhaseKeeps(w: World, h: Hooks, collecting: bool)
    requires WorldInv(w)
    ensures var s := w.(spawns := SealBarrier(w.spawns));
            var u := MarkAndUnregister(EndDoomed(s, 0, h), collecting);
            Tables(s, 0) && Tables(u, 0) && Committed(u) <= u.capacity && u.capacity == w.capacity && KeepsSealed(s, u)
            && u.pendingDestroy == []
  {
    hide Tables, PendingCount, EndDoomed, MarkAndUnregister, KeepsSealed, SealBarrier;
    var s := w.(spawns := SealBarrier(w.spawns));
    SealTables(w);
    EndDoomedKeeps(s, 0, h);
    var d := EndDoomed(s, 0, h);
    OnlyQueuesKeepsSealed(s, d);
    MarkKeeps(d, collecting);
    MarkKeepsSealed(d, collecting);
    KeepsSealedTransitive(s, d, MarkAndUnregister(d, collecting));
    SameCapacity(s, d);
  }

  lemma SameCapacity(w: World, m: World)
    requires KeepsSealed(w, m)
    ensures m.capacity == w.capacity && m.lifecycle == w.lifecycle
  {
  }

  lemma BeginPhaseKeeps(w: World, h: Hooks, g: Guards)
    requires WorldInv(w)
    ensures var s, b := w.(spawns := SealBarrier(w.spawns)), BeforeConstruction(w, h, g);
            Tables(b, 0) && Committed(b) <= b.capacity && b.capacity == w.capacity && KeepsSealed(s, b)
  {
    hide Tables, PendingCount, EndDoomed, MarkAndUnregister, KeepsSealed, BeginManual, SealBarrier;
    var s := w.(spawns := SealBarrier(w.spawns));
    var u := MarkAndUnregister(EndDoomed(s, 0, h), g.collecting);
    EndPhaseKeeps(w, h, g.collecting);
    BeginManualKeeps(u, 0, h);
    var b := BeginManual(u, 0, h);
    ClearKeeps(b);
    KeepsSealedTransitive(s, u, b);
    SameCapacity(u, b);
    ClearKeepsSealed(s, b);
  }

  lemma ClearKeepsSealed(w: World, m: World)
    requires KeepsSealed(w, m)
    ensures KeepsSealed(w, m.(pendingSpawn := []))
  {
  }

  /** Every sealed ticket is still waiting when construction starts, and nothing the hooks queued is among them. */
  lemma SealedStillWaits(w: World, m: World)
    requires WorldInv(w) && KeepsSealed(w.(spawns := SealBarrier(w.spawns)), m) && StorageInv(m.spawns)
    ensures AllIn(m.spawns, m.spawns.sealedFactory, Queued) && Distinct(m.spawns.sealedFactory)
    ensures forall j :: 0 <= j < |m.spawns.sealedFactory| ==> m.spawns.sealedFactory[j] !in m.spawns.factory
    ensures AllIn(m.spawns, m.spawns.sealedPublish, Constructed) && Distinct(m.spawns.sealedPublish) && m.spawns.publish == []
    ensures m.spawns.sealedFactory == w.spawns.factory && m.spawns.sealedPublish == w.spawns.publish
    ensures forall j :: 0 <= j < |m.spawns.factory| ==> m.spawns.factory[j] !in w.spawns.activated
  {
    hide Factories, SlotOk, Apart, Covered;
    var s := SealBarrier(w.spawns);
    TablesStorage(w, 0);
    forall j | 0 <= j < |w.spawns.factory| ensures InState(m.spawns, w.spawns.factory[j], Queued) {
      assert InState(w.spawns, w.spawns.factory[j], Queued);
    }
    forall j | 0 <= j < |w.spawns.publish| ensures InState(m.spawns, w.spawns.publish[j], Constructed) {
      assert InState(w.spawns, w.spawns.publish[j], Constructed);
    }
    forall j | 0 <= j < |w.spawns.factory| ensures w.spawns.factory[j] in w.spawns.activated {}
  }

  lemma {:induction false} StaysUnknown(w: World, h: Hooks, g: Guards, a: Actor)
    requires WorldInv(w) && Unknown(w, a)
    ensures New(BeforeConstruction(w, h, g), a)
  {
    hide Tables, PendingCount, EndDoomed, UnregisterUpTo, BeginManual, KeepsSealed;
    var s := w.(spawns := SealBarrier(w.spawns));
    var u := MarkAndUnregister(EndDoomed(s, 0, h), g.collecting);
    EndPhaseKeeps(w, h, g.collecting);
    EndDoomedUnknown(s, 0, h, a);
    EndDoomedKeeps(s, 0, h);
    StartsUnregistering(EndDoomed(s, 0, h));
    UnregisterUpToUnknown(EndDoomed(s, 0, h), g.collecting, |EndDoomed(s, 0, h).pendingDestroy|, a);
    BeginManualUnknown(u, 0, h, a);
  }

  lemma StartsUnregistering(w: World)
    requires Tables(w, 0)
    ensures Unregistering(w, 0)
  {
    hide StorageInv, Pinned;
  }

  lemma Ready(w: World, h: Hooks, g: Guards, outcomes: Ticket -> Outcome)
    requires WorldInv(w) && FreshOutcomes(w, outcomes)
    ensures ReadyToConstruct(BeforeConstruction(w, h, g), outcomes)
  {
    hide Tables, PendingCount, BeforeConstruction, KeepsSealed, SealBarrier, New;
    var b := BeforeConstruction(w, h, g);
    BeginPhaseKeeps(w, h, g);
    TablesStorage(b, 0);
    SealedStillWaits(w, b);
    forall t | outcomes(t).Built? ensures New(b, outcomes(t).actor) { StaysUnknown(w, h, g, outcomes(t).actor); }
  }

  lemma NewWorldInv(capacity: nat, maxRequests: nat)
    requires maxRequests <= INVALID_TICKET
    ensures WorldInv(NewWorld(capacity, maxRequests))
  {
    FreshKeeps(maxRequests);
    var s := SpawnStorageModel.Fresh(maxRequests);
    CountPositive(s.slots, IsPending);
  }

  // ------------------------------------------------------------------ the whole barrier

  lemma RestoreSettles(w: World)
    requires Tables(w, 0) && Committed(w) <= w.capacity
    ensures WorldInv(Restore(w)) && Restore(w).live == w.live
  {
    hide StorageInv, Count;
    TablesStorage(w, 0);
    RestoreKeeps(w.spawns);
    RestoreKeeps(RestoreUnconstructed(w.spawns));
    PinnedFrame(w.spawns, Restore(w).spawns, w.live, w.pendingSpawn, None);
  }

  lemma NothingToDoSettles(w: World)
    requires WorldInv(w) && PendingCount(w.spawns) == 0
    ensures WorldInv(w.(spawns := SealBarrier(w.spawns)))
  {
    hide StorageInv, Pinned, Count;
    SealTables(w);
    var s := w.(spawns := SealBarrier(w.spawns));
    NothingPends(w.spawns);
    assert forall t, x :: InState(s.spawns, t, x) == InState(w.spawns, t, x);
  }

  lemma NothingPends(s: Storage)
    requires PendingCount(s) == 0
    ensures forall t :: !InState(s, t, Queued) && !InState(s, t, Constructed)
  {
    CountPositive(s.slots, IsPending);
    forall i | 0 <= i < |s.slots| ensures !IsPending(s.slots[i]) {}
  }

  lemma ConstructedSettles(b: World, c: World, outcomes: Ticket -> Outcome)
    requires Committed(b) <= b.capacity && ConstructedUpTo(b, c, outcomes, |b.spawns.sealedFactory|)
    ensures c.spawns.sealedPublish == [] ==> WorldInv(c)
    ensures WorldInv(c.(spawns := RestoreUnpublished(c.spawns)))
  {
    hide StorageInv, Count;
    TablesStorage(c, 0);
    RestoreKeeps(c.spawns);
    PinnedFrame(c.spawns, RestoreUnpublished(c.spawns), c.live, c.pendingSpawn, None);
  }

  /** A ticket that stopped waiting stays stopped: its factory is destroyed, and no hook can bring it back. */
  lemma DestroyedDoesNotWait(s: Storage, t: Ticket)
    requires StorageInv(s) && t in s.destroyed
    ensures !InState(s, t, Queued)
  {
    hide Lane, SlotOk;
  }

  lemma NotWaitingIsDestroyed(s: Storage, t: Ticket)
    requires StorageInv(s) && t in s.activated && !InState(s, t, Queued)
    ensures t in s.destroyed
  {
    hide Lane, SlotOk;
  }

  lemma SealedWereActivated(s: Storage, j: nat)
    requires StorageInv(s) && j < |s.sealedFactory|
    ensures s.sealedFactory[j] in s.activated
  {
    hide Lane, SlotOk, Factories;
  }

  lemma PublishedSettles(b: World, c: World, m: World, outcomes: Ticket -> Outcome)
    requires ConstructedUpTo(b, c, outcomes, |b.spawns.sealedFactory|) && PublishedUpTo(c, m, |c.spawns.sealedPublish|)
    ensures WorldInv(m)
  {
    hide Tables, PendingCount, StillNew, DeliveredActors, KeepsConstructed;
    TablesStorage(c, 0);
    TablesStorage(m, 0);
    forall j | 0 <= j < |m.spawns.sealedFactory| ensures !InState(m.spawns, m.spawns.sealedFactory[j], Queued) {
      SealedWereActivated(c.spawns, j);
      NotWaitingIsDestroyed(c.spawns, c.spawns.sealedFactory[j]);
      DestroyedDoesNotWait(m.spawns, m.spawns.sealedFactory[j]);
    }
  }

  lemma SealedPublishDistinct(s: Storage)
    requires StorageInv(s)
    ensures Distinct(s.sealedPublish)
  {
  }

  lemma PublishPhaseSettles(b: World, h: Hooks, outcomes: Ticket -> Outcome, g: Guards)
    requires ReadyToConstruct(b, outcomes) && Committed(b) <= b.capacity
    ensures WorldInv(PublishPhase(b, h, outcomes, g).0)
  {
    hide TablesWhile, PendingCount, Drained, ConstructUpTo, PublishUpTo, ConstructedActor;
    RestoreSettles(b);
    var c := ConstructUpTo(b, outcomes, |b.spawns.sealedFactory|);
    ConstructUpToKeeps(b, outcomes, |b.spawns.sealedFactory|);
    ConstructedSettles(b, c, outcomes);
    TablesStorage(c, 0);
    SealedPublishDistinct(c.spawns);
    PublishUpToKeeps(c, h, |c.spawns.sealedPublish|);
    PublishedSettles(b, c, PublishUpTo(c, h, |c.spawns.sealedPublish|), outcomes);
  }

  /**
   Whatever the hooks queue, whichever guards the barrier gets and whatever the factories build: a barrier that
   starts with every accepted request accounted for ends that way too.
   */
  lemma BarrierKeepsTheWorld(w: World, h: Hooks, outcomes: Ticket -> Outcome, g: Guards)
    requires WorldInv(w) && FreshOutcomes(w, outcomes)
    ensures WorldInv(ApplyPending(w, h, outcomes, g).0)
  {
    hide TablesWhile, PendingCount, EndDoomed, MarkAndUnregister, BeginManual, PublishPhase, SealBarrier, Restore, KeepsSealed;
    var s := w.(spawns := SealBarrier(w.spawns));
    SealTables(w);
    if w.lifecycle.Playing? {
      if !HasWork(s) {
        SealedHasNoWork(w);
        NothingToDoSettles(w);
      } else {
        RestoreSettles(s);
        EndPhaseKeeps(w, h, g.collecting);
        RestoreSettles(MarkAndUnregister(EndDoomed(s, 0, h), g.collecting));
        BeginPhaseKeeps(w, h, g);
        Ready(w, h, g, outcomes);
        PublishPhaseSettles(BeforeConstruction(w, h, g), h, outcomes, g);
      }
    }
  }

  lemma SealedHasNoWork(w: World)
    requires !HasWork(w.(spawns := SealBarrier(w.spawns)))
    ensures PendingCount(w.spawns) == 0
  {
    hide Count;
  }

  /** Requests made outside a barrier keep the world too. */
  lemma RequestKeepsTheWorld(w: World, r: Request)
    requires WorldInv(w)
    ensures WorldInv(Handle(w, r))
  {
    hide TablesWhile, PendingCount, Handle;
    HandleAllKeeps(w, [r], 0);
    assert HandleAll(w, [r]) == Handle(w, r) by { assert [r][..0] == []; }
    TablesStorage(Handle(w, r), 0);
    TablesStorage(w, 0);
    RequestKeepsDrained(w, Handle(w, r));
  }

  lemma RequestKeepsDrained(w: World, m: World)
    requires Queues(w, m) && StorageInv(w.spawns) && StorageInv(m.spawns) && Drained(w.spawns)
    ensures Drained(m.spawns)
  {
    hide PendingCount, Lane, SlotOk, Factories;
    var s, t := w.spawns, m.spawns;
    forall j | 0 <= j < |t.sealedFactory| ensures !InState(t, t.sealedFactory[j], Queued) {
      SealedWereActivated(s, j);
      NotWaitingIsDestroyed(s, s.sealedFactory[j]);
      DestroyedDoesNotWait(t, t.sealedFactory[j]);
    }
    forall j | 0 <= j < |t.sealedPublish| && InState(t, t.sealedPublish[j], Constructed) ensures t.sealedPublish[j] in t.dropped {
      NewlyConstructed(w, m, t.sealedPublish[j]);
    }
  }

  lemma NewlyConstructed(w: World, m: World, t: Ticket)
    requires Queues(w, m) && StorageInv(w.spawns) && StorageInv(m.spawns) && InState(m.spawns, t, Constructed)
    ensures InState(w.spawns, t, Constructed)
  {
    hide PendingCount;
    assert SlotOk(m.spawns, t.index);
  }

  // ------------------------------------------------------------------ sealed work now, later work later

  predicate AllGuards(g: Guards) { g.end && g.begin && g.publish && !g.collecting }

  lemma SuccessesComeFrom(ts: seq<Ticket>, outcomes: Ticket -> Outcome, k: nat)
    requires k <= |ts|
    ensures forall t :: t in Successes(ts, outcomes, k) <==> t in ts[..k] && outcomes(t).Built?
  {
    if k > 0 {
      SuccessesComeFrom(ts, outcomes, k - 1);
      assert ts[..k] == ts[..k - 1] + [ts[k - 1]];
    }
  }

  lemma FullBarrier(w: World, h: Hooks, outcomes: Ticket -> Outcome, g: Guards)
    requires WorldInv(w) && FreshOutcomes(w, outcomes) && w.lifecycle.Playing? && AllGuards(g)
    requires HasWork(w.(spawns := SealBarrier(w.spawns)))
    ensures var b := BeforeConstruction(w, h, g);
            var c := ConstructUpTo(b, outcomes, |b.spawns.sealedFactory|);
            && ReadyToConstruct(b, outcomes) && ConstructedUpTo(b, c, outcomes, |b.spawns.sealedFactory|) && HiddenBuilt(b, c)
            && PublishedUpTo(c, PublishUpTo(c, h, |c.spawns.sealedPublish|), |c.spawns.sealedPublish|)
            && ApplyPending(w, h, outcomes, g) == (PublishUpTo(c, h, |c.spawns.sealedPublish|), Applied)
            && KeepsSealed(w.(spawns := SealBarrier(w.spawns)), b)
            && b.spawns.sealedFactory == w.spawns.factory && b.spawns.sealedPublish == w.spawns.publish
            && (forall j :: 0 <= j < |b.spawns.factory| ==> b.spawns.factory[j] !in w.spawns.activated)
  {
    hide Tables, PendingCount, EndDoomed, MarkAndUnregister, BeginManual, SealBarrier, KeepsSealed, ConstructTicket, PublishTicket,
      HiddenBuilt, PublishedExactly;
    var b := BeforeConstruction(w, h, g);
    BeginPhaseKeeps(w, h, g);
    Ready(w, h, g, outcomes);
    ConstructUpToKeeps(b, outcomes, |b.spawns.sealedFactory|);
    ConstructUpToBuilds(b, outcomes, |b.spawns.sealedFactory|);
    var c := ConstructUpTo(b, outcomes, |b.spawns.sealedFactory|);
    TablesStorage(c, 0);
    TablesStorage(b, 0);
    SealedPublishDistinct(c.spawns);
    PublishUpToKeeps(c, h, |c.spawns.sealedPublish|);
    SealedStillWaits(w, b);
  }

  /**
   A barrier that gets its guards deals with every request accepted before it, and with none accepted during it:
   each earlier factory has been destroyed, each ticket it built an actor for is spawned, each ticket that was
   waiting for publication is spawned exactly if its actor still resolves, and whatever the hooks requested waits in
   the live queue for the next barrier.
   */
  lemma SealedWorkOnly(w: World, h: Hooks, outcomes: Ticket -> Outcome, g: Guards)
    requires WorldInv(w) && FreshOutcomes(w, outcomes) && w.lifecycle.Playing? && AllGuards(g)
    requires HasWork(w.(spawns := SealBarrier(w.spawns)))
    ensures var (m, r) := ApplyPending(w, h, outcomes, g);
            && r == Applied && m.spawns.publish == []
            && (forall t :: t in w.spawns.factory ==> t in m.spawns.destroyed && !InState(m.spawns, t, Queued))
            && (forall t :: t in w.spawns.factory && outcomes(t).Built? ==> InState(m.spawns, t, Spawned))
            && (forall t :: t in w.spawns.publish ==> PublishedIfResolved(w, m, t))
            && (forall t :: t in m.spawns.factory ==> t !in w.spawns.activated)
  {
    hide TablesWhile, Drained, PendingCount, SealBarrier, KeepsSealed, ConstructUpTo, PublishUpTo, BeforeConstruction, ApplyPending,
      ConstructedUpTo, PublishedUpTo, ReadyToConstruct, FreshOutcomes, Successes, HiddenBuilt, PublishedIfResolved;
    var b := BeforeConstruction(w, h, g);
    var c := ConstructUpTo(b, outcomes, |b.spawns.sealedFactory|);
    var m := PublishUpTo(c, h, |c.spawns.sealedPublish|);
    FullBarrier(w, h, outcomes, g);
    TablesStorage(w, 0);
    assert m.spawns.publish == [] by { NothingLeftToPublish(c, m); }
    forall t | t in w.spawns.factory ensures t in m.spawns.destroyed && !InState(m.spawns, t, Queued) {
      SealedFactoriesAreDone(b, c, m, outcomes, t);
    }
    forall t | t in w.spawns.factory && outcomes(t).Built? ensures InState(m.spawns, t, Spawned) {
      BuiltActorsAreDone(b, c, m, outcomes, t);
    }
    forall t | t in w.spawns.publish ensures PublishedIfResolved(w, m, t) { WaitingActorsAreDone(w, b, c, m, outcomes, t); }
    forall t | t in m.spawns.factory ensures t !in w.spawns.activated { LaterTickets(w, b, c, m, outcomes, t); }
  }

  /** A ticket that waited for publication is spawned if its actor resolves, and otherwise goes on waiting. */
  ghost predicate PublishedIfResolved(w: World, m: World, t: Ticket) {
    && ConstructedActor(w.spawns, t).Some?
    && (InState(m.spawns, t, Spawned) <==> ConstructedActor(w.spawns, t).value in w.objects)
    && (InState(m.spawns, t, Constructed) <==> ConstructedActor(w.spawns, t).value !in w.objects)
  }

  /** After construction and publication every sealed factory has run its course... */
  lemma SealedFactoriesAreDone(b: World, c: World, m: World, outcomes: Ticket -> Outcome, t: Ticket)
    requires ConstructedUpTo(b, c, outcomes, |b.spawns.sealedFactory|) && PublishedUpTo(c, m, |c.spawns.sealedPublish|)
    requires t in b.spawns.sealedFactory
    ensures t in m.spawns.destroyed && !InState(m.spawns, t, Queued)
  {
    hide Tables, PendingCount, ConstructedActor, KeepsConstructed, StillNew, DeliveredActors, AllIn, Successes;
    TablesStorage(c, 0);
    TablesStorage(m, 0);
    var j :| 0 <= j < |b.spawns.sealedFactory| && b.spawns.sealedFactory[j] == t;
    SealedWereActivated(c.spawns, j);
    NotWaitingIsDestroyed(c.spawns, t);
    DestroyedDoesNotWait(m.spawns, t);
  }

  /** ... every ticket it built an actor for is spawned ... */
  lemma BuiltActorsAreDone(b: World, c: World, m: World, outcomes: Ticket -> Outcome, t: Ticket)
    requires ConstructedUpTo(b, c, outcomes, |b.spawns.sealedFactory|) && PublishedUpTo(c, m, |c.spawns.sealedPublish|)
    requires t in b.spawns.sealedFactory && outcomes(t).Built?
    ensures InState(m.spawns, t, Spawned)
  {
    hide Tables, PendingCount, KeepsConstructed, StillNew, AllIn, WaitingFrom, InState, Successes, ConstructedActor;
    var ts := b.spawns.sealedFactory;
    SuccessesComeFrom(ts, outcomes, |ts|);
    assert ts[..|ts|] == ts;
    assert t in c.spawns.sealedPublish;
    var i :| 0 <= i < |ts| && ts[i] == t;
    var j :| 0 <= j < |c.spawns.sealedPublish| && c.spawns.sealedPublish[j] == t;
  }

  /** ... and one that waited for publication already is spawned if its actor resolves, and left alone if not. */
  lemma WaitingActorsAreDone(w: World, b: World, c: World, m: World, outcomes: Ticket -> Outcome, t: Ticket)
    requires StorageInv(w.spawns) && KeepsSealed(w.(spawns := SealBarrier(w.spawns)), b) && HiddenBuilt(b, c)
    requires ConstructedUpTo(b, c, outcomes, |b.spawns.sealedFactory|) && PublishedUpTo(c, m, |c.spawns.sealedPublish|)
    requires t in w.spawns.publish
    ensures PublishedIfResolved(w, m, t)
  {
    hide Tables, PendingCount, KeepsConstructed, StillNew, DeliveredActors, AllIn, WaitingFrom, Successes, StorageInv;
    WaitingHasActor(w, t);
    assert t in b.spawns.sealedPublish;
    assert t in c.spawns.sealedPublish;
    var j :| 0 <= j < |c.spawns.sealedPublish| && c.spawns.sealedPublish[j] == t;
    assert w.spawns.slots[t.index] == c.spawns.slots[t.index];
  }

  lemma WaitingHasActor(w: World, t: Ticket)
    requires StorageInv(w.spawns) && t in w.spawns.publish
    ensures InState(w.spawns, t, Constructed) && ConstructedActor(w.spawns, t).Some?
  {
    hide Factories;
    assert InState(w.spawns, t, Constructed) && SlotOk(w.spawns, t.index);
  }

  lemma NothingLeftToPublish(c: World, m: World)
    requires PublishedUpTo(c, m, |c.spawns.sealedPublish|)
    ensures m.spawns.publish == []
  {
  }

  lemma LaterTickets(w: World, b: World, c: World, m: World, outcomes: Ticket -> Outcome, t: Ticket)
    requires (forall j :: 0 <= j < |b.spawns.factory| ==> b.spawns.factory[j] !in w.spawns.activated)
    requires KeepsSealed(w.(spawns := SealBarrier(w.spawns)), b)
    requires ConstructedUpTo(b, c, outcomes, |b.spawns.sealedFactory|) && PublishedUpTo(c, m, |c.spawns.sealedPublish|)
    requires t in m.spawns.factory
    ensures t !in w.spawns.activated
  {
    hide Tables, PendingCount, ConstructedActor, KeepsConstructed, StillNew, DeliveredActors, WaitingFrom, AllIn, Successes;
    var j :| 0 <= j < |m.spawns.factory| && m.spawns.factory[j] == t;
    if j < |b.spawns.factory| { assert b.spawns.factory[j] == t; }
  }

  // ------------------------------------------------------------------ admission

  /** The positions of the spawned slots among the first `k`. */
  function SpawnedSlots(slots: seq<SpawnSlot>, k: nat): seq<nat>
    requires k <= |slots|
  {
    if k == 0 then [] else SpawnedSlots(slots, k - 1) + (if slots[k - 1].state.Spawned? then [k - 1] else [])
  }

  function NotSpawned(): SpawnSlot -> bool { (x: SpawnSlot) => !x.state.Spawned? }

  lemma {:induction false} SpawnedSlotsAreAll(slots: seq<SpawnSlot>, k: nat)
    requires k <= |slots|
    ensures var r := SpawnedSlots(slots, k);
            && (forall j :: 0 <= j < |r| ==> r[j] < k && slots[r[j]].state.Spawned?)
            && (forall i, j :: 0 <= i < j < |r| ==> r[i] < r[j])
            && k == |r| + Count(slots[..k], NotSpawned())
  {
    if k > 0 {
      SpawnedSlotsAreAll(slots, k - 1);
      assert slots[..k][..k - 1] == slots[..k - 1];
    }
  }

  /** Every spawned slot pins a live actor of its own. */
  lemma SpawnedFitLive(s: Storage, live: seq<Actor>, pendingSpawn: seq<Actor>)
    requires Pinned(s, live, pendingSpawn, None)
    ensures |s.slots| <= |live| + Count(s.slots, NotSpawned())
  {
    hide Count;
    var r := SpawnedSlots(s.slots, |s.slots|);
    SpawnedSlotsAreAll(s.slots, |s.slots|);
    assert s.slots[..|s.slots|] == s.slots;
    var actors := seq(|r|, j requires 0 <= j < |r| => s.slots[r[j]].actor.value);
    forall i, j | 0 <= i < j < |actors| ensures actors[i] != actors[j] {
      assert s.slots[r[i]].actor != s.slots[r[j]].actor;
    }
    DistinctSubset(actors, live);
  }

  lemma {:induction false} ReserveFails(s: Storage, i: nat)
    requires i <= |s.slots| && Reserve(s, i).1.None?
    ensures forall k :: i <= k < |s.slots| ==> !IsReusable(s.slots[k]) || s.slots[k].generation == UINT32_MAX
    decreases |s.slots| - i
  {
    if i < |s.slots| {
      var x := s.slots[i];
      if !IsReusable(x) {
        ReserveFails(s, i + 1);
      } else if x.generation == UINT32_MAX {
        var m := s.(slots := s.slots[i := x.(state := Retired)]);
        ReserveFails(m, i + 1);
        assert forall k :: i + 1 <= k < |s.slots| ==> m.slots[k] == s.slots[k];
      }
    }
  }

  lemma {:induction false} CountsAgree(slots: seq<SpawnSlot>, f: SpawnSlot -> bool, g: SpawnSlot -> bool)
    requires forall k :: 0 <= k < |slots| ==> (f(slots[k]) ==> g(slots[k]))
    ensures Count(slots, f) <= Count(slots, g)
  {
    if slots != [] { CountsAgree(slots[..|slots| - 1], f, g); }
  }

  /**
   With as many request slots as actors, and no slot worn out, a request that passes the admission check always
   gets a slot.
   */
  lemma AdmittedRequestsGetASlot(w: World)
    requires WorldInv(w) && !w.lifecycle.Over? && CanAcceptMoreActors(w) && |w.spawns.slots| >= w.capacity
    requires forall i :: 0 <= i < |w.spawns.slots| ==>
               !w.spawns.slots[i].state.Retired? && w.spawns.slots[i].generation < UINT32_MAX
    ensures SpawnTypedActor(w, false).1.Some?
  {
    hide StorageInv, Reserve, Count;
    var s := w.spawns;
    if Reserve(s, 0).1.None? {
      ReserveFails(s, 0);
      SpawnedFitLive(s, w.live, w.pendingSpawn);
      CountsAgree(s.slots, NotSpawned(), IsPending);
    }
  }

  /**
   Registration before play looks at the live count alone. It keeps the commitment within the capacity exactly
   when the stronger check the other entry points make would have passed too.
   */
  lemma RegistrationKeepsTheBoundIff(w: World, a: Actor)
    requires Committed(w) <= w.capacity && RegisterActor(w, a).1 == EngineResult.Success
    ensures Committed(RegisterActor(w, a).0) <= w.capacity <==> CanAcceptMoreActors(w)
  {
    hide Count;
  }
}
