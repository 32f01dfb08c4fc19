/** The start and the end of play keep the world's tables in bounds, whether they succeed or fail half-way. */
module WorldStart {
  import opened Basics
  import opened SpawnStorageModel
  import opened SpawnStorageProofs
  import opened WorldModel
  import opened WorldProofs
  import opened WorldTheorems

  /**
   What every run keeps: the tables, the commitment bound, and, while the world lives, no sealed request left behind.
   Before play nothing has been spawned or constructed yet.
   */
  ghost predicate RunInv(w: World) {
    && Tables(w, 0) && Committed(w) <= w.capacity && (w.lifecycle.Over? || Drained(w.spawns))
    && (w.lifecycle.NotBegun? ==> w.pendingSpawn == [] && forall i :: 0 <= i < |w.spawns.slots| ==> !HasActor(w.spawns.slots[i]))
  }

  // ------------------------------------------------------------------ hooks of the live actors

  lemma HooksKeep(w: World, e: Hook, rs: seq<Request>)
    requires Tables(w, 0)
    ensures var m := HandleAll(w.(hooks := w.hooks + [e]), rs); Tables(m, 0) && OnlyQueues(w, m)
  {
    hide Tables, HandleAll, PendingCount;
    HookKeeps(w, e, 0);
    HandleAllKeeps(w.(hooks := w.hooks + [e]), rs, 0);
  }

  lemma OnlyQueuesReflexive(w: World)
    ensures OnlyQueues(w, w)
  {
    hide PendingCount;
  }

  lemma OnlyQueuesTransitive(w: World, m: World, r: World)
    requires OnlyQueues(w, m) && OnlyQueues(m, r)
    ensures OnlyQueues(w, r)
  {
    hide PendingCount;
    QueuesTransitive(w, m.(hooks := w.hooks), r.(hooks := w.hooks));
  }

  lemma {:induction false} EndLiveKeeps(w: World, k: nat, h: Hooks)
    requires Tables(w, 0) && k <= |w.live|
    ensures Tables(EndLive(w, k, h), 0) && OnlyQueues(w, EndLive(w, k, h))
    decreases k
  {
    hide Tables, OnlyQueues, HandleAll;
    if k == 0 {
      OnlyQueuesReflexive(w);
    } else if w.live[k - 1] in w.objects {
      var m := End(w, w.live[k - 1], h);
      HooksKeep(w, Finished(w.live[k - 1]), h.end(w.live[k - 1]));
      EndLiveKeeps(m, k - 1, h);
      OnlyQueuesTransitive(w, m, EndLive(w, k, h));
    } else {
      EndLiveKeeps(w, k - 1, h);
    }
  }

  lemma {:induction false} BeginLiveKeeps(w: World, i: nat, h: Hooks, begins: Actor -> bool)
    requires Tables(w, 0) && i <= |w.live|
    ensures Tables(BeginLive(w, i, h, begins).0, 0) && OnlyQueues(w, BeginLive(w, i, h, begins).0)
    decreases |w.live| - i
  {
    hide Tables, OnlyQueues, HandleAll, EndLive;
    if i == |w.live| {
      OnlyQueuesReflexive(w);
    } else if w.live[i] !in w.objects {
      EndLiveKeeps(w, i, h);
    } else {
      var m := HandleAll(w.(hooks := w.hooks + [Hook.Began(w.live[i])]), h.begin(w.live[i]));
      HooksKeep(w, Hook.Began(w.live[i]), h.begin(w.live[i]));
      EndLiveKeeps(m, i, h);
      BeginLiveKeeps(m, i + 1, h, begins);
      OnlyQueuesTransitive(w, m, BeginLive(w, i, h, begins).0);
    }
  }

  // ------------------------------------------------------------------ what the phases do to hidden actors

  /** No waiting actor got lost, and no publication was dropped. */
  ghost predicate NothingLost(w: World, m: World) {
    && |m.spawns.slots| == |w.spawns.slots| && m.spawns.dropped == w.spawns.dropped
    && forall i :: 0 <= i < |m.spawns.slots| ==> !Unresolved(m, i)
  }

  lemma OnlyQueuesLoseNothing(w: World, m: World)
    requires OnlyQueues(w, m) && forall i :: 0 <= i < |w.spawns.slots| ==> !Unresolved(w, i)
    ensures NothingLost(w, m)
  {
    hide PendingCount;
    forall i | 0 <= i < |m.spawns.slots| ensures !Unresolved(m, i) { assert !Unresolved(w, i); }
  }

  // ------------------------------------------------------------------ the start

  lemma SealedStart(w: World, outcomes: Ticket -> Outcome)
    requires RunInv(w) && w.lifecycle.NotBegun? && FreshOutcomes(w, outcomes)
    ensures var s := w.(lifecycle := Playing, spawns := SealBarrier(w.spawns));
            var c := ConstructUpTo(s, outcomes, |s.spawns.sealedFactory|);
            && ConstructedUpTo(s, c, outcomes, |s.spawns.sealedFactory|) && Committed(c) <= c.capacity
            && NothingLost(w, c) && Distinct(c.spawns.sealedPublish) && c.spawns.publish == [] && c.lifecycle.Playing?
  {
    hide TablesWhile, Count, Pinned, ConstructTicket, KeepsConstructed, StillNew, DeliveredActors, WaitingFrom;
    var s := w.(lifecycle := Playing, spawns := SealBarrier(w.spawns));
    StartReady(w, outcomes);
    ConstructUpToKeeps(s, outcomes, |s.spawns.sealedFactory|);
    ConstructUpToBuilds(s, outcomes, |s.spawns.sealedFactory|);
    var c := ConstructUpTo(s, outcomes, |s.spawns.sealedFactory|);
    TablesStorage(c, 0);
    SealedPublishDistinct(c.spawns);
  }

  lemma StartReady(w: World, outcomes: Ticket -> Outcome)
    requires RunInv(w) && w.lifecycle.NotBegun? && FreshOutcomes(w, outcomes)
    ensures var s := w.(lifecycle := Playing, spawns := SealBarrier(w.spawns));
            ReadyToConstruct(s, outcomes) && Committed(s) <= s.capacity
  {
    hide StorageInv, Count;
    var s := w.(lifecycle := Playing, spawns := SealBarrier(w.spawns));
    SealTables(w);
    LanesWait(w.spawns);
  }

  lemma LanesWait(w: Storage)
    requires StorageInv(w)
    ensures var s := SealBarrier(w);
            && AllIn(s, s.sealedFactory, Queued) && Distinct(s.sealedFactory) && AllIn(s, s.sealedPublish, Constructed)
  {
    hide Factories, SlotOk;
    var s := SealBarrier(w);
    assert forall k :: 0 <= k < |w.factory| ==> InState(w, w.factory[k], Queued);
    assert forall k :: 0 <= k < |w.publish| ==> InState(w, w.publish[k], Constructed);
  }

  lemma FirstConstructed(w: World, outcomes: Ticket -> Outcome)
    requires RunInv(w) && w.lifecycle.NotBegun? && FreshOutcomes(w, outcomes)
    ensures var c := ConstructFirst(w, outcomes);
            && Tables(c, 0) && Committed(c) <= c.capacity && c.spawns.publish == []
            && AllIn(c.spawns, c.spawns.sealedPublish, Constructed) && Distinct(c.spawns.sealedPublish)
  {
    hide Tables, PendingCount, RunInv, FreshOutcomes, ConstructUpTo, StillNew, DeliveredActors, KeepsConstructed, WaitingFrom;
    SealedStart(w, outcomes);
  }

  /** A failed start leaves nothing waiting. */
  lemma AbortStartKeeps(w: World)
    requires Tables(w, 0)
    ensures var m := AbortStart(w);
            && Tables(m, 0) && PendingCount(m.spawns) == 0 && m.live == w.live && m.pendingSpawn == w.pendingSpawn
            && m.capacity == w.capacity && NothingLost(w, m)
  {
    hide StorageInv, Count, AbortUpTo;
    AbortKeeps(w.spawns);
    AbortUpToKeeps(w.spawns, |w.spawns.slots|);
    CountPositive(AbortSealedBatch(w.spawns).slots, IsPending);
    PinnedFrame(w.spawns, AbortSealedBatch(w.spawns), w.live, w.pendingSpawn, None);
  }

  /** After the publications every sealed request has been dealt with. */
  lemma StartDrains(s: World, c: World, b: World, p: World, outcomes: Ticket -> Outcome)
    requires ConstructedUpTo(s, c, outcomes, |s.spawns.sealedFactory|) && OnlyQueues(c, b)
    requires PublishedUpTo(b, p, |b.spawns.sealedPublish|)
    ensures Drained(p.spawns)
  {
    hide Tables, PendingCount, StillNew, DeliveredActors, KeepsConstructed;
    TablesStorage(c, 0);
    TablesStorage(p, 0);
    forall j | 0 <= j < |p.spawns.sealedFactory| ensures !InState(p.spawns, p.spawns.sealedFactory[j], Queued) {
      SealedWereActivated(c.spawns, j);
      NotWaitingIsDestroyed(c.spawns, c.spawns.sealedFactory[j]);
      DestroyedDoesNotWait(p.spawns, p.spawns.sealedFactory[j]);
    }
  }

  /** Publication after hooks that only queued. */
  lemma StartPublishes(c: World, b: World, h: Hooks)
    requires OnlyQueues(c, b) && Tables(b, 0) && Committed(c) <= c.capacity && c.spawns.publish == []
    requires AllIn(c.spawns, c.spawns.sealedPublish, Constructed) && Distinct(c.spawns.sealedPublish)
    ensures PublishedUpTo(b, PublishUpTo(b, h, |b.spawns.sealedPublish|), |b.spawns.sealedPublish|)
    ensures Committed(b) <= b.capacity && b.spawns.publish == []
    ensures AllIn(b.spawns, b.spawns.sealedPublish, Constructed) && Distinct(b.spawns.sealedPublish)
  {
    hide Tables, PendingCount, PublishUpTo, PublishedUpTo;
    forall k | 0 <= k < |b.spawns.sealedPublish| ensures InState(b.spawns, b.spawns.sealedPublish[k], Constructed) {
      assert InState(c.spawns, c.spawns.sealedPublish[k], Constructed);
    }
    PublishUpToKeeps(b, h, |b.spawns.sealedPublish|);
  }

  lemma PublishingLosesNothing(w: World, b: World, p: World)
    requires NothingLost(w, b) && PublishedUpTo(b, p, |b.spawns.sealedPublish|)
    ensures NothingLost(w, p)
  {
    hide Tables, PendingCount;
    forall i | 0 <= i < |p.spawns.slots| ensures !Unresolved(p, i) { assert !Unresolved(b, i); }
  }

  /** Whatever ends the world half-way: the tables hold, and nothing has got lost. */
  lemma OverKeeps(w: World, m: World)
    requires Tables(m, 0) && Committed(m) <= m.capacity && NothingLost(w, m)
    ensures var e := m.(lifecycle := Over); RunInv(e) && NothingLost(w, e)
  {
    hide StorageInv, Pinned, PendingCount;
    forall i | 0 <= i < |m.spawns.slots| ensures !Unresolved(m.(lifecycle := Over), i) { assert !Unresolved(m, i); }
  }

  lemma LastHooksKeep(w: World, p: World, h: Hooks)
    requires Tables(p, 0) && Committed(p) <= p.capacity && NothingLost(w, p)
    ensures var e := EndLive(p, |p.live|, h).(lifecycle := Over); RunInv(e) && NothingLost(w, e) && e.capacity == p.capacity
  {
    hide Tables, PendingCount, EndLive, HandleAll, KeepsSealed, OnlyQueues, Unresolved;
    EndLiveKeeps(p, |p.live|, h);
    OnlyQueuesKeepsSealed(p, EndLive(p, |p.live|, h));
    SameCapacity(p, EndLive(p, |p.live|, h));
    OnlyQueuesLoseNothing(p, EndLive(p, |p.live|, h));
    OverKeeps(w, EndLive(p, |p.live|, h));
  }

  lemma RequestsOnlyQueue(w: World, rs: seq<Request>)
    requires Tables(w, 0)
    ensures Tables(HandleAll(w, rs), 0) && OnlyQueues(w, HandleAll(w, rs))
  {
    hide Tables, PendingCount, HandleAll;
    HandleAllKeeps(w, rs, 0);
    assert HandleAll(w, rs).(hooks := w.hooks) == HandleAll(w, rs);
  }

  lemma StartActorsKeep(s: World, c: World, w: World, h: Hooks, u: Startup, outcomes: Ticket -> Outcome)
    requires ConstructedUpTo(s, c, outcomes, |s.spawns.sealedFactory|) && Committed(c) <= c.capacity && c.spawns.publish == []
    requires Distinct(c.spawns.sealedPublish) && Tables(w, 0) && OnlyQueues(c, w) && NothingLost(c, w) && w.lifecycle.Playing?
    ensures RunInv(StartActors(w, h, u)) && NothingLost(c, StartActors(w, h, u)) && StartActors(w, h, u).capacity == w.capacity
  {
    hide Tables, PendingCount, BeginLive, PublishUpTo, EndLive, KeepsSealed, StillNew, DeliveredActors, KeepsConstructed, WaitingFrom, PublishedUpTo,
      Unresolved, OnlyQueues, Drained;
    var b := BeginLive(w, 0, h, u.begins).0;
    BeginLiveKeeps(w, 0, h, u.begins);
    OnlyQueuesTransitive(c, w, b);
    OnlyQueuesKeepsSealed(c, b);
    SameCapacity(c, b);
    OnlyQueuesKeepsSealed(w, b);
    SameCapacity(w, b);
    OnlyQueuesLoseNothing(w, b);
    OverKeeps(c, b);
    StartPublishes(c, b, h);
    var p := PublishUpTo(b, h, |b.spawns.sealedPublish|);
    PublishingLosesNothing(c, b, p);
    StartDrains(s, c, b, p, outcomes);
    PublishedBasics(b, p);
    LastHooksKeep(c, p, h);
  }

  lemma PublishedBasics(w: World, m: World)
    requires PublishedUpTo(w, m, |w.spawns.sealedPublish|)
    ensures Tables(m, 0) && Committed(m) <= m.capacity && m.capacity == w.capacity && m.lifecycle == w.lifecycle
  {
    hide PendingCount, Tables, PublishedExactly;
  }

  /** However the start goes, the tables hold, and no actor the start has built gets lost on the way. */
  lemma BeginPlayKeeps(w: World, h: Hooks, outcomes: Ticket -> Outcome, u: Startup)
    requires RunInv(w) && FreshOutcomes(w, outcomes)
    ensures RunInv(BeginPlay(w, h, outcomes, u)) && BeginPlay(w, h, outcomes, u).capacity == w.capacity
    ensures w.lifecycle.NotBegun? ==> NothingLost(w, BeginPlay(w, h, outcomes, u))
  {
    hide TablesWhile, Count, SealBarrier, ConstructUpTo, StartActors, AbortStart, HandleAll, OnlyQueues, Unresolved, Drained, FreshOutcomes,
      StillNew, DeliveredActors, KeepsConstructed, WaitingFrom;
    if w.lifecycle.NotBegun? {
      NothingIsHidden(w);
      if !u.collecting && u.guard {
        var s := w.(lifecycle := Playing, spawns := SealBarrier(w.spawns));
        var c := ConstructUpTo(s, outcomes, |s.spawns.sealedFactory|);
        SealedStart(w, outcomes);
        AbortStartKeeps(c);
        OverKeeps(w, AbortStart(c));
        OverKeeps(w, c);
        RequestsOnlyQueue(c, u.requests);
        var r := HandleAll(c, u.requests);
        OnlyQueuesKeepsSealed(c, r);
        SameCapacity(c, r);
        OnlyQueuesLoseNothing(c, r);
        OverKeeps(w, r);
        StartActorsKeep(s, c, r, h, u, outcomes);
      }
    }
  }

  lemma NothingIsHidden(w: World)
    requires RunInv(w) && w.lifecycle.NotBegun?
    ensures NothingLost(w, w)
  {
    hide StorageInv, Pinned, PendingCount;
  }

  /** The end of play accepts no more requests and keeps what waits as it is. */
  lemma EndPlayKeeps(w: World, guard: bool, h: Hooks)
    requires RunInv(w)
    ensures RunInv(EndPlay(w, guard, h)) && EndPlay(w, guard, h).capacity == w.capacity
    ensures OnlyQueues(w.(lifecycle := EndPlay(w, guard, h).lifecycle), EndPlay(w, guard, h))
  {
    hide Tables, PendingCount, EndLive, OnlyQueues;
    var o := w.(lifecycle := Over);
    OnlyQueuesReflexive(w);
    OverTables(w);
    EndLiveKeeps(o, |w.live|, h);
    OnlyQueuesKeepsSealed(o, EndLive(o, |w.live|, h));
    SameCapacity(o, EndLive(o, |w.live|, h));
  }

  lemma OverTables(w: World)
    requires Tables(w, 0)
    ensures Tables(w.(lifecycle := Over), 0)
  {
    hide StorageInv, Pinned;
  }
}
