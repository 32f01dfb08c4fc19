/** Whole runs of a world, from its construction over its start and any number of barriers to its end. */
module WorldRuns {
  import opened Basics
  import opened SpawnStorageModel
  import opened SpawnStorageProofs
  import opened WorldModel
  import opened WorldProofs
  import opened WorldTheorems
  import opened WorldStart

  /**
   What may happen between two calls. `Introduce` and `Discard` act on the object store behind the world's back: a
   new actor is created, or whoever holds an actor's handle marks it for destruction.
   */
  datatype Move =
    | Introduce(actor: Actor)
    | Discard(actor: Actor)
    | Register(actor: Actor)
    | Ask(request: Request)
    | Start(hooks: Hooks, outcomes: Ticket -> Outcome, startup: Startup)
    | Barrier(hooks: Hooks, outcomes: Ticket -> Outcome, guards: Guards)
    | Stop(guard: bool, hooks: Hooks)

  ghost function Apply(w: World, m: Move): World {
    match m
    case Introduce(a) => w.(objects := w.objects + {a})
    case Discard(a) => w.(objects := w.objects - {a})
    case Register(a) => RegisterActor(w, a).0
    case Ask(r) => Handle(w, r)
    case Start(h, o, u) => BeginPlay(w, h, o, u)
    case Barrier(h, o, g) => ApplyPending(w, h, o, g).0
    case Stop(g, h) => EndPlay(w, g, h)
  }

  /**
   New actors are new, and registration is used only while the commitment has room: that is the check the code
   leaves out there.
   */
  ghost predicate Legal(w: World, m: Move) {
    match m
    case Introduce(a) => Unknown(w, a)
    case Register(a) => RegisterActor(w, a).1 == EngineResult.Success ==> CanAcceptMoreActors(w)
    case Start(_, o, _) => FreshOutcomes(w, o)
    case Barrier(_, o, _) => FreshOutcomes(w, o)
    case _ => true
  }

  ghost function Play(w: World, ms: seq<Move>): World {
    if ms == [] then w else Apply(Play(w, ms[..|ms| - 1]), ms[|ms| - 1])
  }

  ghost predicate LegalRun(w: World, ms: seq<Move>) {
    ms == [] || (LegalRun(w, ms[..|ms| - 1]) && Legal(Play(w, ms[..|ms| - 1]), ms[|ms| - 1]))
  }

  // ------------------------------------------------------------------ one move

  lemma StoreKeeps(w: World, objects: set<Actor>)
    requires RunInv(w)
    ensures RunInv(w.(objects := objects))
  {
    hide StorageInv, PendingCount;
  }

  lemma RegisterKeeps(w: World, a: Actor)
    requires RunInv(w) && Legal(w, Register(a))
    ensures RunInv(RegisterActor(w, a).0)
  {
    hide StorageInv, PendingCount;
  }

  lemma AskKeeps(w: World, r: Request)
    requires RunInv(w)
    ensures RunInv(Handle(w, r)) && OnlyQueues(w, Handle(w, r)) && Handle(w, r).capacity == w.capacity
  {
    hide TablesWhile, PendingCount, Drained, Submit;
    HandleKeeps(w, r, 0, None);
    if !w.lifecycle.Over? { RequestKeepsTheWorld(w, r); }
  }

  /** What becomes of actors that wait for publication: an unresolved one waits on unchanged, and none gets lost otherwise. */
  ghost predicate Fate(w: World, m: World) {
    && |m.spawns.slots| == |w.spawns.slots|
    && (forall i :: 0 <= i < |w.spawns.slots| && Unresolved(w, i) ==> m.spawns.slots[i] == w.spawns.slots[i] && Unresolved(m, i))
    && ((forall i :: 0 <= i < |w.spawns.slots| ==> !Unresolved(w, i)) ==> NothingLost(w, m))
  }

  lemma FateTransitive(w: World, m: World, r: World)
    requires Fate(w, m) && Fate(m, r)
    ensures Fate(w, r)
  {
    hide Unresolved;
  }

  lemma SameHidden(w: World, m: World)
    requires m.spawns.slots == w.spawns.slots && m.objects == w.objects && m.spawns.dropped == w.spawns.dropped
    ensures Fate(w, m)
  {
    forall i | 0 <= i < |w.spawns.slots| ensures Unresolved(m, i) == Unresolved(w, i) {}
  }

  lemma KeptFate(w: World, m: World)
    requires KeepsSealed(w, m)
    ensures Fate(w, m)
  {
    forall i | 0 <= i < |w.spawns.slots| ensures Unresolved(m, i) == Unresolved(w, i) {}
  }

  lemma BuiltFate(w: World, m: World)
    requires HiddenBuilt(w, m) && m.spawns.dropped == w.spawns.dropped
    ensures Fate(w, m)
  {
    forall i | 0 <= i < |w.spawns.slots| ensures Unresolved(m, i) == Unresolved(w, i) {}
  }

  lemma PublishedFate(w: World, m: World)
    requires PublishedUpTo(w, m, |w.spawns.sealedPublish|)
    ensures Fate(w, m)
  {
    hide Tables, PendingCount;
    forall i | 0 <= i < |w.spawns.slots| ensures Unresolved(m, i) == Unresolved(w, i) {}
  }

  lemma QueuesFate(w: World, m: World)
    requires OnlyQueues(w, m)
    ensures Fate(w, m)
  {
    hide PendingCount;
    forall i | 0 <= i < |w.spawns.slots| ensures Unresolved(m, i) == Unresolved(w, i) {}
  }

  lemma PublishPhaseFate(b: World, h: Hooks, outcomes: Ticket -> Outcome, g: Guards)
    requires ReadyToConstruct(b, outcomes) && Committed(b) <= b.capacity
    ensures var m := PublishPhase(b, h, outcomes, g).0; Fate(b, m) && m.capacity == b.capacity && m.lifecycle == b.lifecycle
  {
    hide TablesWhile, PendingCount, ConstructUpTo, PublishUpTo, Fate, HiddenBuilt, PublishedExactly, KeepsConstructed, StillNew, DeliveredActors,
      WaitingFrom;
    var c := ConstructUpTo(b, outcomes, |b.spawns.sealedFactory|);
    var p := PublishUpTo(c, h, |c.spawns.sealedPublish|);
    ConstructUpToKeeps(b, outcomes, |b.spawns.sealedFactory|);
    ConstructUpToBuilds(b, outcomes, |b.spawns.sealedFactory|);
    BuiltFate(b, c);
    TablesStorage(c, 0);
    SealedPublishDistinct(c.spawns);
    PublishUpToKeeps(c, h, |c.spawns.sealedPublish|);
    PublishedFate(c, p);
    FateTransitive(b, c, p);
    SameHidden(b, Restore(b));
    SameHidden(c, c.(spawns := RestoreUnpublished(c.spawns)));
    FateTransitive(b, c, c.(spawns := RestoreUnpublished(c.spawns)));
  }

  lemma BarrierFate(w: World, h: Hooks, outcomes: Ticket -> Outcome, g: Guards)
    requires WorldInv(w) && FreshOutcomes(w, outcomes)
    ensures var m := ApplyPending(w, h, outcomes, g).0; Fate(w, m) && m.capacity == w.capacity && m.lifecycle == w.lifecycle
  {
    hide TablesWhile, PendingCount, EndDoomed, MarkAndUnregister, BeginManual, PublishPhase, SealBarrier, Restore, KeepsSealed, Fate;
    var s := w.(spawns := SealBarrier(w.spawns));
    var u := MarkAndUnregister(EndDoomed(s, 0, h), g.collecting);
    var b := BeforeConstruction(w, h, g);
    Sealed(w);
    EndPhaseKeeps(w, h, g.collecting);
    BeginPhaseKeeps(w, h, g);
    Ready(w, h, g, outcomes);
    SameHidden(w, w);
    SameHidden(w, s);
    KeptFate(s, u);
    KeptFate(s, b);
    SameCapacity(s, u);
    SameCapacity(s, b);
    Restored(s);
    Restored(u);
    PublishPhaseFate(b, h, outcomes, g);
    FateTransitive(w, s, Restore(s));
    FateTransitive(w, s, u);
    FateTransitive(w, u, Restore(u));
    FateTransitive(w, s, b);
    FateTransitive(w, b, PublishPhase(b, h, outcomes, g).0);
  }

  lemma Sealed(w: World)
    ensures var s := SealBarrier(w.spawns); s.slots == w.spawns.slots && s.dropped == w.spawns.dropped
  {
  }

  lemma Restored(w: World)
    ensures Fate(w, Restore(w)) && Restore(w).capacity == w.capacity && Restore(w).lifecycle == w.lifecycle
  {
    hide Fate;
    SameHidden(w, Restore(w));
  }

  lemma MoveKeeps(w: World, m: Move)
    requires RunInv(w) && Legal(w, m)
    ensures RunInv(Apply(w, m)) && Apply(w, m).capacity == w.capacity
  {
    hide TablesWhile, PendingCount, ApplyPending, BeginPlay, EndPlay, Handle, Drained, FreshOutcomes, Fate;
    match m
    case Introduce(a) => StoreKeeps(w, w.objects + {a});
    case Discard(a) => StoreKeeps(w, w.objects - {a});
    case Register(a) => RegisterKeeps(w, a);
    case Ask(r) => AskKeeps(w, r);
    case Start(h, o, u) => BeginPlayKeeps(w, h, o, u);
    case Barrier(h, o, g) => BarrierKeeps(w, h, o, g);
    case Stop(g, h) => EndPlayKeeps(w, g, h);
  }

  lemma BarrierKeeps(w: World, h: Hooks, outcomes: Ticket -> Outcome, g: Guards)
    requires RunInv(w) && FreshOutcomes(w, outcomes)
    ensures RunInv(ApplyPending(w, h, outcomes, g).0) && ApplyPending(w, h, outcomes, g).0.capacity == w.capacity
    ensures Fate(w, ApplyPending(w, h, outcomes, g).0)
  {
    hide TablesWhile, PendingCount, Drained, FreshOutcomes, Fate;
    if w.lifecycle.Playing? {
      BarrierKeepsTheWorld(w, h, outcomes, g);
      BarrierFate(w, h, outcomes, g);
    } else {
      SameHidden(w, w);
    }
  }

  /** The one move that can strand a request: an actor built but not yet published is marked for destruction. */
  ghost predicate Strands(w: World, m: Move) { m.Discard? && Hidden(w.spawns, m.actor) }

  lemma MoveFate(w: World, m: Move)
    requires RunInv(w) && Legal(w, m)
    ensures |Apply(w, m).spawns.slots| == |w.spawns.slots|
    ensures forall i :: 0 <= i < |w.spawns.slots| && Unresolved(w, i) ==>
              Apply(w, m).spawns.slots[i] == w.spawns.slots[i] && Unresolved(Apply(w, m), i)
    ensures !Strands(w, m) ==> Fate(w, Apply(w, m))
    ensures Strands(w, m) ==> exists i :: 0 <= i < |w.spawns.slots| && Unresolved(Apply(w, m), i)
  {
    hide TablesWhile, PendingCount, ApplyPending, BeginPlay, EndPlay, Handle, Drained, FreshOutcomes, OnlyQueues;
    match m
    case Introduce(a) => IntroducedFate(w, a);
    case Discard(a) => DiscardedFate(w, a);
    case Register(a) => SameHidden(w, Apply(w, m));
    case Ask(r) =>
      AskKeeps(w, r);
      QueuesFate(w, Apply(w, m));
    case Start(h, o, u) => StartFate(w, h, o, u);
    case Barrier(h, o, g) => BarrierKeeps(w, h, o, g);
    case Stop(g, h) =>
      EndPlayKeeps(w, g, h);
      var over := w.(lifecycle := Apply(w, m).lifecycle);
      SameHidden(w, over);
      QueuesFate(over, Apply(w, m));
      FateTransitive(w, over, Apply(w, m));
  }

  lemma IntroducedFate(w: World, a: Actor)
    requires Unknown(w, a)
    ensures Fate(w, Apply(w, Introduce(a)))
  {
    var m := Apply(w, Introduce(a));
    forall i | 0 <= i < |w.spawns.slots| && Unresolved(w, i) ensures Unresolved(m, i) {}
    forall i | 0 <= i < |w.spawns.slots| && Unresolved(m, i) ensures Unresolved(w, i) {}
  }

  lemma DiscardedFate(w: World, a: Actor)
    ensures var m := Apply(w, Discard(a));
            && (forall i :: 0 <= i < |w.spawns.slots| && Unresolved(w, i) ==> Unresolved(m, i))
            && (!Hidden(w.spawns, a) ==> Fate(w, m))
            && (Hidden(w.spawns, a) ==> exists i :: 0 <= i < |w.spawns.slots| && Unresolved(m, i))
  {
    var m := Apply(w, Discard(a));
    forall i | 0 <= i < |w.spawns.slots| && Unresolved(w, i) ensures Unresolved(m, i) {}
    if Hidden(w.spawns, a) {
      var i :| 0 <= i < |w.spawns.slots| && w.spawns.slots[i].state.Constructed? && w.spawns.slots[i].actor == Some(a);
      assert Unresolved(m, i);
    } else {
      forall i | 0 <= i < |w.spawns.slots| && Unresolved(m, i) ensures Unresolved(w, i) {}
    }
  }

  lemma StartFate(w: World, h: Hooks, outcomes: Ticket -> Outcome, u: Startup)
    requires RunInv(w) && FreshOutcomes(w, outcomes)
    ensures Fate(w, BeginPlay(w, h, outcomes, u))
  {
    hide TablesWhile, PendingCount, FreshOutcomes, Drained, Unresolved;
    BeginPlayKeeps(w, h, outcomes, u);
    if w.lifecycle.NotBegun? { NothingIsHidden(w); } else { SameHidden(w, w); }
  }

  // ------------------------------------------------------------------ whole runs

  lemma {:induction false} RunKeeps(w: World, ms: seq<Move>)
    requires RunInv(w) && LegalRun(w, ms)
    ensures RunInv(Play(w, ms)) && Play(w, ms).capacity == w.capacity
  {
    hide RunInv, Legal, Apply;
    if ms != [] {
      RunKeeps(w, ms[..|ms| - 1]);
      MoveKeeps(Play(w, ms[..|ms| - 1]), ms[|ms| - 1]);
    }
  }

  lemma NewWorldRuns(capacity: nat, maxRequests: nat)
    requires maxRequests <= INVALID_TICKET
    ensures RunInv(NewWorld(capacity, maxRequests))
    ensures var w := NewWorld(capacity, maxRequests); NothingLost(w, w)
  {
    NewWorldInv(capacity, maxRequests);
  }

  /** Between calls a waiting ticket is in the live lane: the sealed snapshots hold none. */
  lemma WaitsInLiveLane(s: Storage, i: nat)
    requires StorageInv(s) && Drained(s) && i < |s.slots|
    ensures var t := Ticket(i, s.slots[i].generation);
            && (s.slots[i].state.Queued? ==> Occurrences(s.factory, t) == 1)
            && (s.slots[i].state.Constructed? ==> t in s.dropped || Occurrences(s.publish, t) == 1)
  {
    hide Factories, SlotOk, Apart, Covered, AllIn;
    TicketsAreConserved(s, i);
    var t := Ticket(i, s.slots[i].generation);
    if IsPending(s.slots[i]) { PendingTicketNames(s, i); }
    DistinctOccursOnce(s.sealedFactory, t);
    DistinctOccursOnce(s.sealedPublish, t);
  }

  /** The ticket of a slot, as its caller holds it. */
  function TicketOf(w: World, i: nat): Ticket
    requires i < |w.spawns.slots|
  {
    Ticket(i, w.spawns.slots[i].generation)
  }

  /**
   From construction on, whatever is requested, built, refused, discarded or queued by hooks: live and accepted actors
   together never exceed the capacity; while the world lives, each request that waits for its factory has its ticket
   exactly once in the queue of the next barrier, and each that waits for publication too, unless it was dropped; and
   each factory runs at most once and is destroyed exactly once, when its request stops waiting.
   */
  lemma EveryRunKeepsTheWorld(capacity: nat, maxRequests: nat, ms: seq<Move>)
    requires maxRequests <= INVALID_TICKET && LegalRun(NewWorld(capacity, maxRequests), ms)
    ensures var w := Play(NewWorld(capacity, maxRequests), ms);
            && |w.live| + |w.pendingSpawn| + PendingCount(w.spawns) <= capacity && |w.pendingDestroy| <= |w.live|
            && (forall t :: t in w.spawns.activated ==>
                  && Occurrences(w.spawns.invoked, t) <= Occurrences(w.spawns.destroyed, t) <= 1
                  && (Occurrences(w.spawns.destroyed, t) == 1 <==> !InState(w.spawns, t, Queued)))
            && (!w.lifecycle.Over? ==> forall i :: 0 <= i < |w.spawns.slots| ==>
                  && (w.spawns.slots[i].state.Queued? ==> Occurrences(w.spawns.factory, TicketOf(w, i)) == 1)
                  && (w.spawns.slots[i].state.Constructed? ==>
                        TicketOf(w, i) in w.spawns.dropped || Occurrences(w.spawns.publish, TicketOf(w, i)) == 1))
  {
    hide StorageInv, Pinned, PendingCount, Legal, Apply, Occurrences;
    var n := NewWorld(capacity, maxRequests);
    var w := Play(n, ms);
    NewWorldRuns(capacity, maxRequests);
    RunKeeps(n, ms);
    DoomedFit(w, 0, None);
    forall t | t in w.spawns.activated
      ensures Occurrences(w.spawns.invoked, t) <= Occurrences(w.spawns.destroyed, t) <= 1
      ensures Occurrences(w.spawns.destroyed, t) == 1 <==> !InState(w.spawns, t, Queued)
    {
      FactoriesRunOnce(w.spawns, t);
    }
    if !w.lifecycle.Over? {
      forall i | 0 <= i < |w.spawns.slots|
        ensures w.spawns.slots[i].state.Queued? ==> Occurrences(w.spawns.factory, TicketOf(w, i)) == 1
        ensures w.spawns.slots[i].state.Constructed? ==>
                  TicketOf(w, i) in w.spawns.dropped || Occurrences(w.spawns.publish, TicketOf(w, i)) == 1
      {
        WaitsInLiveLane(w.spawns, i);
      }
    }
  }

  // ------------------------------------------------------------------ stranded requests

  /** No move of the run marks an actor that is built but not yet published. */
  ghost predicate Careful(w: World, ms: seq<Move>) {
    ms == [] || (Careful(w, ms[..|ms| - 1]) && !Strands(Play(w, ms[..|ms| - 1]), ms[|ms| - 1]))
  }

  ghost predicate HasStranded(w: World) { exists i :: 0 <= i < |w.spawns.slots| && Unresolved(w, i) }

  /**
   Once its actor no longer resolves, a request waits for ever: nothing that can happen later changes its slot, its
   caller keeps reading that it is waiting, and the place it takes is lost to the world.
   */
  lemma {:induction false} StrandedForEver(w: World, ms: seq<Move>, i: nat)
    requires RunInv(w) && LegalRun(w, ms) && i < |w.spawns.slots| && Unresolved(w, i)
    ensures var m := Play(w, ms);
            && i < |m.spawns.slots| && Unresolved(m, i) && m.spawns.slots[i] == w.spawns.slots[i]
            && GetStatus(m.spawns, TicketOf(w, i)) == Waiting && |m.live| < w.capacity
  {
    hide RunInv, Legal, Apply, Unresolved;
    if ms != [] {
      var before := Play(w, ms[..|ms| - 1]);
      StrandedForEver(w, ms[..|ms| - 1], i);
      RunKeeps(w, ms[..|ms| - 1]);
      MoveFate(before, ms[|ms| - 1]);
    }
    RunKeeps(w, ms);
    StrandedCounts(Play(w, ms), i);
  }

  lemma StrandedCounts(w: World, i: nat)
    requires RunInv(w) && i < |w.spawns.slots| && Unresolved(w, i)
    ensures GetStatus(w.spawns, TicketOf(w, i)) == Waiting && |w.live| < w.capacity
  {
    hide StorageInv, Pinned, Drained;
    CountPositive(w.spawns.slots, IsPending);
    assert IsPending(w.spawns.slots[i]);
    TablesStorage(w, 0);
    PendingTicketNames(w.spawns, i);
  }

  /** A run strands a request exactly when it marks, at some moment, an actor that is built but not yet published. */
  lemma {:induction false} StrandsIffCareless(capacity: nat, maxRequests: nat, ms: seq<Move>)
    requires maxRequests <= INVALID_TICKET && LegalRun(NewWorld(capacity, maxRequests), ms)
    ensures var n := NewWorld(capacity, maxRequests);
            HasStranded(Play(n, ms)) <==> !Careful(n, ms)
    ensures var n := NewWorld(capacity, maxRequests);
            Careful(n, ms) ==> Play(n, ms).spawns.dropped == []
  {
    hide RunInv, Legal, Apply, Unresolved, Strands;
    var n := NewWorld(capacity, maxRequests);
    NewWorldRuns(capacity, maxRequests);
    if ms != [] {
      var before := Play(n, ms[..|ms| - 1]);
      StrandsIffCareless(capacity, maxRequests, ms[..|ms| - 1]);
      RunKeeps(n, ms[..|ms| - 1]);
      MoveFate(before, ms[|ms| - 1]);
      if HasStranded(before) {
        var i :| 0 <= i < |before.spawns.slots| && Unresolved(before, i);
        assert Unresolved(Play(n, ms), i);
      }
    }
  }

  // ------------------------------------------------------------------ a run that strands a request

  function Silent(): Hooks { Hooks(_ => [], _ => []) }

  /** Only the first request of all builds an actor. */
  function Only(a: Actor): Ticket -> Outcome { t => if t == Ticket(0, 1) then Built(a) else NoDescriptor(UNKNOWN_CLASS) }

  function Smooth(): Startup { Startup(false, true, true, true, [], _ => true) }

  /** Start, one typed request, a barrier that cannot publish, and the new actor is marked for destruction. */
  function StrandingRun(a: Actor): seq<Move> {
    [Start(Silent(), Only(a), Smooth()), Ask(SpawnTyped), Barrier(Silent(), Only(a), Guards(true, true, false, false)), Discard(a)]
  }

  lemma OneMore(w: World, ms: seq<Move>, m: Move)
    requires LegalRun(w, ms) && Legal(Play(w, ms), m)
    ensures LegalRun(w, ms + [m]) && Play(w, ms + [m]) == Apply(Play(w, ms), m)
  {
    hide Legal, Apply;
    assert (ms + [m])[..|ms|] == ms;
  }

  lemma OnlyIsFresh(w: World, a: Actor)
    requires Unknown(w, a)
    ensures FreshOutcomes(w, Only(a))
  {
  }

  lemma StartsEmpty(capacity: nat, maxRequests: nat, a: Actor)
    ensures var n := NewWorld(capacity, maxRequests);
            && Legal(n, Start(Silent(), Only(a), Smooth()))
            && Apply(n, Start(Silent(), Only(a), Smooth())) == n.(lifecycle := Playing)
  {
    OnlyIsFresh(NewWorld(capacity, maxRequests), a);
  }

  /** The storage after the first request of all. */
  function OneRequest(maxRequests: nat): Storage
    requires maxRequests > 0
  {
    var s := SpawnStorageModel.Fresh(maxRequests);
    s.(slots := s.slots[0 := SpawnSlot(1, Queued, SUCCEEDED, None, true)], factory := [Ticket(0, 1)], activated := [Ticket(0, 1)])
  }

  lemma FirstRequest(capacity: nat, maxRequests: nat)
    requires capacity > 0 && maxRequests > 0
    ensures var w := NewWorld(capacity, maxRequests).(lifecycle := Playing);
            Apply(w, Ask(SpawnTyped)) == w.(spawns := OneRequest(maxRequests)) && forall a :: Unknown(Apply(w, Ask(SpawnTyped)), a)
  {
    var w := NewWorld(capacity, maxRequests).(lifecycle := Playing);
    CountPositive(w.spawns.slots, IsPending);
    assert Committed(w) == 0;
  }

  predicate OnlyPublishRefused(g: Guards) { g.end && g.begin && !g.publish && !g.collecting }

  /** A barrier that is refused its publish guard leaves every actor it built hidden in the storage. */
  lemma RefusedPublicationHides(w: World, h: Hooks, outcomes: Ticket -> Outcome, g: Guards, t: Ticket)
    requires WorldInv(w) && w.lifecycle.Playing? && FreshOutcomes(w, outcomes) && OnlyPublishRefused(g)
    requires t in w.spawns.factory && outcomes(t).Built?
    ensures Hidden(ApplyPending(w, h, outcomes, g).0.spawns, outcomes(t).actor)
  {
    hide TablesWhile, PendingCount, EndDoomed, MarkAndUnregister, BeginManual, KeepsSealed, ConstructUpTo, FreshOutcomes,
      StillNew, KeepsConstructed, WaitingFrom, AllIn, Successes, Drained;
    var b := BeforeConstruction(w, h, g);
    var c := ConstructUpTo(b, outcomes, |b.spawns.sealedFactory|);
    QueuedIsWork(w, t);
    BeginPhaseKeeps(w, h, g);
    TablesStorage(b, 0);
    SealedStillWaits(w, b);
    Ready(w, h, g, outcomes);
    ConstructUpToKeeps(b, outcomes, |b.spawns.sealedFactory|);
    var j :| 0 <= j < |b.spawns.sealedFactory| && b.spawns.sealedFactory[j] == t;
    assert ConstructedActor(c.spawns, t) == Some(outcomes(t).actor);
    assert t in Successes(b.spawns.sealedFactory, outcomes, |b.spawns.sealedFactory|) by {
      SuccessesComeFrom(b.spawns.sealedFactory, outcomes, |b.spawns.sealedFactory|);
      assert b.spawns.sealedFactory[..|b.spawns.sealedFactory|] == b.spawns.sealedFactory;
    }
  }

  lemma QueuedIsWork(w: World, t: Ticket)
    requires WorldInv(w) && t in w.spawns.factory
    ensures HasWork(w.(spawns := SealBarrier(w.spawns)))
  {
    hide Factories, SlotOk, Pinned;
    CountPositive(w.spawns.slots, IsPending);
    assert InState(w.spawns, t, Queued);
    assert IsPending(w.spawns.slots[t.index]);
  }

  /** Marking that actor before the next barrier strands its request. */
  lemma RefusedPublicationStrands(w: World, h: Hooks, outcomes: Ticket -> Outcome, g: Guards, t: Ticket)
    requires RunInv(w) && w.lifecycle.Playing? && FreshOutcomes(w, outcomes) && OnlyPublishRefused(g)
    requires t in w.spawns.factory && outcomes(t).Built?
    ensures HasStranded(Apply(Apply(w, Barrier(h, outcomes, g)), Discard(outcomes(t).actor)))
  {
    hide TablesWhile, PendingCount, ApplyPending, FreshOutcomes, Hidden, Unresolved, Drained, Fate;
    RefusedPublicationHides(w, h, outcomes, g, t);
    MoveKeeps(w, Barrier(h, outcomes, g));
    MoveFate(Apply(w, Barrier(h, outcomes, g)), Discard(outcomes(t).actor));
  }

  lemma SecondStateIsKnown(capacity: nat, maxRequests: nat, a: Actor)
    requires capacity > 0 && 0 < maxRequests <= INVALID_TICKET
    ensures var n, two := NewWorld(capacity, maxRequests), [Start(Silent(), Only(a), Smooth())] + [Ask(SpawnTyped)];
            && LegalRun(n, two) && RunInv(Play(n, two)) && Play(n, two).lifecycle.Playing?
            && Unknown(Play(n, two), a) && Ticket(0, 1) in Play(n, two).spawns.factory
  {
    hide TablesWhile, Drained, Count, HandleAll, ApplyPending, Apply, FreshOutcomes, SpawnStorageModel.Fresh;
    var n := NewWorld(capacity, maxRequests);
    var one := Start(Silent(), Only(a), Smooth());
    StartsEmpty(capacity, maxRequests, a);
    FirstRequest(capacity, maxRequests);
    OneMore(n, [], one);
    OneMore(n, [one], Ask(SpawnTyped));
    NewWorldRuns(capacity, maxRequests);
    RunKeeps(n, [one] + [Ask(SpawnTyped)]);
  }

  /** Such a run exists for every world that takes a request at all. */
  lemma RequestsCanBeStranded(capacity: nat, maxRequests: nat, a: Actor)
    requires capacity > 0 && 0 < maxRequests <= INVALID_TICKET
    ensures var n := NewWorld(capacity, maxRequests); LegalRun(n, StrandingRun(a)) && HasStranded(Play(n, StrandingRun(a)))
  {
    hide RunInv, HasStranded, Apply, FreshOutcomes, SpawnStorageModel.Fresh, Unknown;
    var n, ms := NewWorld(capacity, maxRequests), StrandingRun(a);
    var two := [ms[0]] + [ms[1]];
    SecondStateIsKnown(capacity, maxRequests, a);
    OnlyIsFresh(Play(n, two), a);
    RefusedPublicationStrands(Play(n, two), Silent(), Only(a), Guards(true, true, false, false), Ticket(0, 1));
    OneMore(n, two, ms[2]);
    OneMore(n, two + [ms[2]], ms[3]);
    assert ms == two + [ms[2]] + [ms[3]];
  }

  /**
   A ticket that waits for publication when a barrier gets its guards is spawned if its actor resolves; if not, its
   caller reads that it waits in every state any later run reaches.
   */
  lemma SlotLeaksIffUnresolved(w: World, h: Hooks, outcomes: Ticket -> Outcome, g: Guards, t: Ticket, later: seq<Move>)
    requires RunInv(w) && FreshOutcomes(w, outcomes) && w.lifecycle.Playing? && AllGuards(g)
    requires HasWork(w.(spawns := SealBarrier(w.spawns))) && t in w.spawns.publish
    requires LegalRun(Apply(w, Barrier(h, outcomes, g)), later)
    ensures var m := Apply(w, Barrier(h, outcomes, g));
            && ConstructedActor(w.spawns, t).Some? && m.spawns.publish == []
            && if ConstructedActor(w.spawns, t).value in w.objects then InState(m.spawns, t, Spawned)
               else GetStatus(Play(m, later).spawns, t) == Waiting && |Play(m, later).live| < w.capacity
  {
    hide TablesWhile, PendingCount, Drained, FreshOutcomes, HasWork, SealBarrier, ApplyPending;
    var m := Apply(w, Barrier(h, outcomes, g));
    SealedWorkOnly(w, h, outcomes, g);
    assert PublishedIfResolved(w, m, t);
    if ConstructedActor(w.spawns, t).value !in w.objects {
      assert Unresolved(w, t.index);
      MoveKeeps(w, Barrier(h, outcomes, g));
      MoveFate(w, Barrier(h, outcomes, g));
      StrandedForEver(m, later, t.index);
      assert TicketOf(m, t.index) == t;
    }
  }

  // ------------------------------------------------------------------ what registration leaves unchecked

  lemma {:induction false} SilentBegins(w: World, i: nat, begins: Actor -> bool)
    requires i <= |w.live| && forall k :: i <= k < |w.live| ==> w.live[k] in w.objects && begins(w.live[k])
    ensures var (m, ok) := BeginLive(w, i, Silent(), begins); ok && m == w.(hooks := m.hooks)
    decreases |w.live| - i
  {
    if i < |w.live| { SilentBegins(w.(hooks := w.hooks + [Hook.Began(w.live[i])]), i + 1, begins); }
  }

  function BuildsFor(t: Ticket, a: Actor): Ticket -> Outcome { u => if u == t then Built(a) else NoDescriptor(UNKNOWN_CLASS) }

  predicate AllUsable(s: Storage) {
    forall i :: 0 <= i < |s.slots| ==> IsReusable(s.slots[i]) && s.slots[i].generation < UINT32_MAX
  }

  lemma UsableGetsASlot(s: Storage)
    requires AllUsable(s) && |s.slots| > 0
    ensures Submit(s).1.Some?
  {
    hide Reserve;
    assert IsReusable(s.slots[0]);
    if Reserve(s, 0).1.None? { ReserveFails(s, 0); }
  }

  lemma UsableMeansIdle(s: Storage)
    requires StorageInv(s) && AllUsable(s)
    ensures s.factory == [] && s.publish == [] && PendingCount(s) == 0
  {
    hide Factories, SlotOk, Apart, Covered, Count;
    CountPositive(s.slots, IsPending);
    assert forall t :: !InState(s, t, Queued) && !InState(s, t, Constructed);
    HeadsWait(s);
  }

  lemma HeadsWait(s: Storage)
    requires StorageInv(s)
    ensures s.factory != [] ==> InState(s, s.factory[0], Queued)
    ensures s.publish != [] ==> InState(s, s.publish[0], Constructed)
  {
    hide Factories, SlotOk, Apart, Covered;
  }

  lemma FirstQueued(s: Storage)
    requires StorageInv(s) && AllUsable(s) && |s.slots| > 0
    ensures PendingCount(s) == 0
    ensures var (r, t) := Submit(s);
            && t.Some? && StorageInv(r) && r.factory == [t.value] && r.publish == [] && PendingCount(r) == 1
            && InState(r, t.value, Queued) && r.slots[t.value.index].active
  {
    hide StorageInv, AllUsable, PendingCount, Submit;
    UsableMeansIdle(s);
    SubmitCounts(s);
    UsableGetsASlot(s);
    var (r, t) := Submit(s);
    HeadsWait(r);
    QueuedIsActive(r, t.value);
  }

  /** One queued request whose factory succeeds, constructed... */
  lemma OneConstructs(w: World, t: Ticket, c: Actor)
    requires w.spawns.sealedFactory == [t] && w.spawns.sealedPublish == [] && InState(w.spawns, t, Queued) && w.spawns.slots[t.index].active
    ensures var m := ConstructUpTo(w, BuildsFor(t, c), 1);
            && m == w.(spawns := m.spawns, objects := w.objects + {c})
            && m.spawns.sealedPublish == [t] && m.spawns.sealedFactory == [t] && !AnyFailed(m.spawns) && ConstructedActor(m.spawns, t) == Some(c)
  {
    assert ConstructUpTo(w, BuildsFor(t, c), 1) == ConstructTicket(w, t, Built(c));
  }

  /** ... and published, after live actors that begin without making requests. */
  lemma OnePublishes(w: World, t: Ticket, c: Actor)
    requires w.lifecycle.Playing? && w.spawns.sealedPublish == [t] && ConstructedActor(w.spawns, t) == Some(c) && c in w.objects
    requires forall k :: 0 <= k < |w.live| ==> w.live[k] in w.objects
    ensures var m := StartActors(w, Silent(), Smooth()); m.lifecycle.Playing? && m.live == w.live + [c]
  {
    hide BeginLive, ConstructedActor, CompletePublish;
    SilentBegins(w, 0, Smooth().begins);
    var b := BeginLive(w, 0, Silent(), Smooth().begins).0;
    assert PublishUpTo(b, Silent(), 1) == PublishTicket(b, t, Silent());
  }

  /** The start of a world that holds exactly one request, whose factory succeeds. */
  lemma OneRequestStarts(w: World, t: Ticket, c: Actor)
    requires w.lifecycle.NotBegun? && w.spawns.factory == [t] && w.spawns.publish == []
    requires InState(w.spawns, t, Queued) && w.spawns.slots[t.index].active
    requires forall k :: 0 <= k < |w.live| ==> w.live[k] in w.objects
    ensures var m := BeginPlay(w, Silent(), BuildsFor(t, c), Smooth());
            m.lifecycle.Playing? && m.live == w.live + [c]
  {
    hide StartActors, ConstructUpTo, AnyFailed, ConstructedActor, BuildsFor;
    var s := w.(lifecycle := Playing, spawns := SealBarrier(w.spawns));
    OneConstructs(s, t, c);
    var b := ConstructUpTo(s, BuildsFor(t, c), 1);
    OnePublishes(b, t, c);
    assert HandleAll(b, []) == b;
  }

  /**
   A typed request and a registration, each accepted, exceed the capacity of a world that had one place left; at
   the start the publication then appends to a live array that is already full.
   */
  lemma RegistrationCanOvercommit(w: World, a: Actor, c: Actor)
    requires RunInv(w) && w.lifecycle.NotBegun? && |w.live| + 1 == w.capacity && AllUsable(w.spawns) && |w.spawns.slots| > 0
    requires a in w.objects && a !in w.owned && a !in w.live && Unknown(w, c)
    requires forall k :: 0 <= k < |w.live| ==> w.live[k] in w.objects
    ensures var (t, ticket) := SpawnTypedActor(w, false);
            var (r, result) := RegisterActor(t, a);
            && ticket.Some? && result == EngineResult.Success && |r.live| == r.capacity && Committed(r) == r.capacity + 1
            && BeginPlay(r, Silent(), BuildsFor(ticket.value, c), Smooth()).live == r.live + [c]
  {
    hide StorageInv, Pinned, AllUsable, Count, Submit, BeginPlay, BuildsFor;
    TablesStorage(w, 0);
    FirstQueued(w.spawns);
    var (t, ticket) := SpawnTypedActor(w, false);
    OneRequestStarts(RegisterActor(t, a).0, ticket.value, c);
  }

  lemma OneFreeSlot(maxRequests: nat)
    requires 0 < maxRequests
    ensures var s := SpawnStorageModel.Fresh(maxRequests);
            && Submit(s).1 == Some(Ticket(0, 1)) && AllUsable(s) && |s.slots| == maxRequests
            && forall i :: 0 <= i < |s.slots| ==> !HasActor(s.slots[i])
  {
  }

  /** The smallest such world, from its construction on. */
  lemma OvercommitIsReachable(maxRequests: nat, a: Actor, c: Actor)
    requires 0 < maxRequests <= INVALID_TICKET && a != c
    ensures var run := [Introduce(a), Ask(SpawnTyped), Register(a), Start(Silent(), BuildsFor(Ticket(0, 1), c), Smooth())];
            Play(NewWorld(1, maxRequests), run).live == [a, c]
  {
    hide RunInv, AllUsable, Submit, BeginPlay, BuildsFor, SpawnStorageModel.Fresh;
    var n := NewWorld(1, maxRequests);
    var w := Apply(n, Introduce(a));
    var m0, m1, m2, m3 := Introduce(a), Ask(SpawnTyped), Register(a), Start(Silent(), BuildsFor(Ticket(0, 1), c), Smooth());
    NewWorldRuns(1, maxRequests);
    StoreKeeps(n, n.objects + {a});
    OneFreeSlot(maxRequests);
    RegistrationCanOvercommit(w, a, c);
    PlayOne(n, [], m0);
    PlayOne(n, [m0], m1);
    PlayOne(n, [m0] + [m1], m2);
    PlayOne(n, [m0] + [m1] + [m2], m3);
    assert [m0, m1, m2, m3] == [m0] + [m1] + [m2] + [m3];
  }

  lemma PlayOne(w: World, ms: seq<Move>, m: Move)
    ensures Play(w, ms + [m]) == Apply(Play(w, ms), m)
  {
    hide Apply;
    assert (ms + [m])[..|ms|] == ms;
  }
}
