/**
 `UWorld`'s structural operations over fixed arrays. The registry's appends carry no bounds check, as in the
 original; that each one is in bounds follows from the commitment bound across the live registry, the pending
 list and the deferred storage. Every method performs one WorldModel step.
 */
module World {
  import opened Basics
  import opened SpawnStorageModel
  import opened SpawnStorageProofs
  import opened WorldModel
  import opened WorldProofs
  import opened WorldTheorems
  import opened WorldStart
  import DeferredActorSpawnStorage

  /** The live array and both pending arrays of one world, all of the same capacity. */
  class ActorRegistry {
    const actors: array<Actor>
    const pendingSpawn: array<Actor>
    const pendingDestroy: array<Actor>
    var count: nat
    var pendingSpawnCount: nat
    var pendingDestroyCount: nat
    ghost const Repr: set<object>

    ghost predicate Valid()
      reads this
    {
      && Repr == {this, actors, pendingSpawn, pendingDestroy}
      && pendingSpawn.Length == actors.Length && pendingDestroy.Length == actors.Length
      && actors != pendingSpawn && actors != pendingDestroy && pendingSpawn != pendingDestroy
      && count <= actors.Length && pendingSpawnCount <= actors.Length && pendingDestroyCount <= actors.Length
    }

    constructor (capacity: nat)
      ensures Valid() && actors.Length == capacity && count == 0 && pendingSpawnCount == 0 && pendingDestroyCount == 0
      ensures fresh(Repr)
    {
      actors := new Actor[capacity](_ => 0);
      pendingSpawn := new Actor[capacity](_ => 0);
      pendingDestroy := new Actor[capacity](_ => 0);
      count, pendingSpawnCount, pendingDestroyCount := 0, 0, 0;
      Repr := {this, actors, pendingSpawn, pendingDestroy};
    }

    function Live(): seq<Actor>
      requires Valid()
      reads this, actors
    {
      actors[..count]
    }

    function Spawns(): seq<Actor>
      requires Valid()
      reads this, pendingSpawn
    {
      pendingSpawn[..pendingSpawnCount]
    }

    function Destroys(): seq<Actor>
      requires Valid()
      reads this, pendingDestroy
    {
      pendingDestroy[..pendingDestroyCount]
    }

    /** No check here: the caller's bound is the only protection. */
    method Add(a: Actor)
      requires Valid() && count < actors.Length
      modifies this`count, actors
      ensures Valid() && Live() == old(Live()) + [a]
    {
      actors[count] := a;
      count := count + 1;
    }

    method RemoveAt(i: nat)
      requires Valid() && i < count
      modifies this`count, actors
      ensures Valid() && Live() == old(Live()[..i] + Live()[i + 1..])
    {
      ghost var before := Live();
      var slot := i + 1;
      while slot < count
        modifies actors
        invariant i < slot <= count
        invariant forall k :: 0 <= k < i ==> actors[k] == before[k]
        invariant forall k :: i <= k < slot - 1 ==> actors[k] == before[k + 1]
        invariant forall k :: slot <= k < count ==> actors[k] == before[k]
      {
        actors[slot - 1] := actors[slot];
        slot := slot + 1;
      }
      count := count - 1;
      actors[count] := 0;
    }

    method AddPendingSpawn(a: Actor)
      requires Valid() && pendingSpawnCount < pendingSpawn.Length
      modifies this`pendingSpawnCount, pendingSpawn
      ensures Valid() && Spawns() == old(Spawns()) + [a]
    {
      pendingSpawn[pendingSpawnCount] := a;
      pendingSpawnCount := pendingSpawnCount + 1;
    }

    method AddPendingDestroy(a: Actor)
      requires Valid() && pendingDestroyCount < pendingDestroy.Length
      modifies this`pendingDestroyCount, pendingDestroy
      ensures Valid() && Destroys() == old(Destroys()) + [a]
    {
      pendingDestroy[pendingDestroyCount] := a;
      pendingDestroyCount := pendingDestroyCount + 1;
    }

    method ClearPendingSpawn()
      requires Valid()
      modifies this`pendingSpawnCount, pendingSpawn
      ensures Valid() && Spawns() == []
    {
      for i := 0 to pendingSpawnCount
        modifies pendingSpawn
      {
        pendingSpawn[i] := 0;
      }
      pendingSpawnCount := 0;
    }

    method ClearPendingDestroy()
      requires Valid()
      modifies this`pendingDestroyCount, pendingDestroy
      ensures Valid() && Destroys() == []
    {
      for i := 0 to pendingDestroyCount
        modifies pendingDestroy
      {
        pendingDestroy[i] := 0;
      }
      pendingDestroyCount := 0;
    }

    method Contains(s: array<Actor>, n: nat, a: Actor) returns (found: bool)
      requires n <= s.Length
      ensures found <==> a in s[..n]
    {
      for i := 0 to n
        invariant a !in s[..i]
      {
        if s[i] == a { return true; }
      }
      return false;
    }

    method IndexOf(a: Actor) returns (i: nat)
      requires Valid()
      ensures i == Position(Live(), a, 0)
    {
      i := 0;
      while i < count
        invariant i <= count && Position(Live(), a, 0) == Position(Live(), a, i)
      {
        if actors[i] == a { return; }
        i := i + 1;
      }
    }
  }

  class World {
    const registry: ActorRegistry
    const spawns: DeferredActorSpawnStorage.DeferredActorSpawnStorage
    var lifecycle: Lifecycle
    /** The object store's answer to which references resolve, and which actors already have a world. */
    var objects: set<Actor>
    var owned: set<Actor>
    ghost var hooks: seq<Hook>

    ghost predicate Valid()
      reads this, registry, spawns
    {
      registry.Valid() && spawns.Valid() && registry.Repr !! spawns.Repr && this !in registry.Repr + spawns.Repr
    }

    ghost function Repr(): set<object>
      reads registry, spawns
    {
      registry.Repr + spawns.Repr
    }

    ghost function Model(): WorldModel.World
      reads this, registry, spawns, registry.actors, registry.pendingSpawn, registry.pendingDestroy
      reads spawns.slots, spawns.factoryQueue, spawns.publishQueue, spawns.sealedFactoryQueue, spawns.sealedPublishQueue
      requires Valid()
    {
      WorldModel.World(registry.actors.Length, lifecycle, registry.Live(), registry.Spawns(), registry.Destroys(), spawns.Model(),
                       objects, owned, hooks)
    }

    constructor (capacity: nat, maxRequests: nat)
      ensures Valid() && Model() == NewWorld(capacity, maxRequests) && fresh(Repr())
    {
      registry := new ActorRegistry(capacity);
      spawns := new DeferredActorSpawnStorage.DeferredActorSpawnStorage(maxRequests);
      lifecycle, objects, owned, hooks := NotBegun, {}, {}, [];
    }

    // ---------------------------------------------------------------- requests

    method CanAcceptMoreActors() returns (can: bool)
      requires Valid()
      ensures can == WorldModel.CanAcceptMoreActors(Model())
    {
      var pending := spawns.PendingCount();
      can := registry.count + registry.pendingSpawnCount + pending < registry.actors.Length;
    }

    method CheckSpawnable(a: Actor) returns (result: EngineResult)
      requires Valid()
      ensures result == WorldModel.CheckSpawnable(Model(), a)
    {
      if !lifecycle.Playing? { return LifecycleLocked; }
      if a !in objects { return InvalidReference; }
      var live := registry.Contains(registry.actors, registry.count, a);
      if live { return Duplicate; }
      var queued := registry.Contains(registry.pendingSpawn, registry.pendingSpawnCount, a);
      if queued { return Duplicate; }
      var can := CanAcceptMoreActors();
      if !can { return CapacityExceeded; }
      return if a in owned then AlreadyOwned else EngineResult.Success;
    }

    method SpawnActor(a: Actor) returns (result: EngineResult)
      requires Valid()
      modifies registry`pendingSpawnCount, registry.pendingSpawn
      ensures Valid() && (Model(), result) == WorldModel.SpawnActor(old(Model()), a)
    {
      hide PendingCount;
      result := CheckSpawnable(a);
      if result != EngineResult.Success { return; }
      registry.AddPendingSpawn(a);
    }

    method CheckDestroyable(a: Actor) returns (result: EngineResult)
      requires Valid()
      ensures result == WorldModel.CheckDestroyable(Model(), a)
    {
      if !lifecycle.Playing? { return LifecycleLocked; }
      if a !in objects { return InvalidReference; }
      var live := registry.Contains(registry.actors, registry.count, a);
      if !live { return InvalidReference; }
      var doomed := registry.Contains(registry.pendingDestroy, registry.pendingDestroyCount, a);
      return if doomed then Duplicate else EngineResult.Success;
    }

    method DestroyActor(a: Actor, ghost begun: nat, ghost publishing: Option<Actor>) returns (result: EngineResult)
      requires Valid() && TablesWhile(Model(), begun, publishing)
      modifies registry`pendingDestroyCount, registry.pendingDestroy
      ensures Valid() && (Model(), result) == WorldModel.DestroyActor(old(Model()), a)
    {
      hide TablesWhile;
      DoomedFit(Model(), begun, publishing);
      result := CheckDestroyable(a);
      if result != EngineResult.Success { return; }
      registry.AddPendingDestroy(a);
    }

    method SpawnTypedActor(collecting: bool) returns (t: Option<Ticket>)
      requires Valid() && StorageInv(Model().spawns)
      modifies spawns`factoryCount, spawns`activated, spawns.slots, spawns.factoryQueue
      ensures Valid() && (Model(), t) == WorldModel.SpawnTypedActor(old(Model()), collecting)
    {
      hide StorageInv, Submit, PendingCount;
      if lifecycle.Over? || collecting { return None; }
      var can := CanAcceptMoreActors();
      if !can { return None; }
      t := spawns.Submit();
    }

    method RegisterActor(a: Actor) returns (result: EngineResult)
      requires Valid()
      modifies this`owned, registry`count, registry.actors
      ensures Valid() && (Model(), result) == WorldModel.RegisterActor(old(Model()), a)
    {
      if !lifecycle.NotBegun? { return LifecycleLocked; }
      if a !in objects { return InvalidReference; }
      var live := registry.Contains(registry.actors, registry.count, a);
      if live { return Duplicate; }
      if registry.count >= registry.actors.Length { return CapacityExceeded; }
      if a in owned { return AlreadyOwned; }
      registry.Add(a);
      owned := owned + {a};
      result := EngineResult.Success;
    }

    // ---------------------------------------------------------------- hooks

    method Handle(r: Request, ghost begun: nat, ghost publishing: Option<Actor>)
      requires Valid() && TablesWhile(Model(), begun, publishing)
      modifies Repr()
      ensures Valid() && TablesWhile(Model(), begun, publishing) && Queues(old(Model()), Model())
      ensures Model() == WorldModel.Handle(old(Model()), r)
    {
      hide TablesWhile, Queues, WorldModel.SpawnActor, WorldModel.DestroyActor, WorldModel.SpawnTypedActor, PendingCount;
      StorageOf(Model(), begun, publishing);
      HandleKeeps(Model(), r, begun, publishing);
      match r
      case SpawnManual(a) =>
        var hidden := IsHidden(a);
        if !hidden { var _ := SpawnActor(a); }
      case SpawnTyped => var _ := SpawnTypedActor(false);
      case Destroy(a) => var _ := DestroyActor(a, begun, publishing);
    }

    lemma StorageOf(w: WorldModel.World, begun: nat, publishing: Option<Actor>)
      requires TablesWhile(w, begun, publishing)
      ensures StorageInv(w.spawns)
    {
      hide StorageInv, Pinned;
    }

    /** Not part of the original: it stands for the fact that no caller can name an unpublished actor. */
    method IsHidden(a: Actor) returns (hidden: bool)
      requires Valid()
      ensures hidden == Hidden(Model().spawns, a)
    {
      for i := 0 to spawns.slots.Length
        invariant forall k :: 0 <= k < i ==> !(spawns.slots[k].state.Constructed? && spawns.slots[k].actor == Some(a))
      {
        if spawns.slots[i].state.Constructed? && spawns.slots[i].actor == Some(a) { return true; }
      }
      return false;
    }

    method RunHook(rs: seq<Request>, ghost begun: nat, ghost publishing: Option<Actor>)
      requires Valid() && TablesWhile(Model(), begun, publishing)
      modifies Repr()
      ensures Valid() && TablesWhile(Model(), begun, publishing) && Queues(old(Model()), Model())
      ensures Model() == HandleAll(old(Model()), rs)
    {
      hide TablesWhile, Queues, WorldModel.Handle, PendingCount;
      ghost var start := Model();
      RequestsKeep(start, rs, begun, publishing);
      for i := 0 to |rs|
        invariant Valid() && TablesWhile(Model(), begun, publishing) && Model() == HandleAll(start, rs[..i])
      {
        assert rs[..i + 1][..i] == rs[..i];
        Handle(rs[i], begun, publishing);
      }
      assert rs[..|rs|] == rs;
    }

    // ---------------------------------------------------------------- the barrier

    /** Runs one end hook, unless the actor no longer resolves. */
    method EndOne(a: Actor, h: Hooks)
      requires Valid() && Tables(Model(), 0)
      modifies this`hooks, Repr()
      ensures Valid() && Tables(Model(), 0) && Model().live == old(Model().live)
      ensures Model() == if a in old(objects) then End(old(Model()), a, h) else old(Model())
    {
      hide TablesWhile, HandleAll, PendingCount, Queues;
      if a in objects {
        HookKeeps(Model(), Finished(a), 0);
        hooks := hooks + [Finished(a)];
        RunHook(h.end(a), 0, None);
      }
    }

    method EndDoomedActors(h: Hooks)
      requires Valid() && Tables(Model(), 0)
      modifies this`hooks, Repr()
      ensures Valid() && Tables(Model(), 0) && Model() == EndDoomed(old(Model()), 0, h)
    {
      hide TablesWhile, HandleAll, PendingCount, Queues, End;
      ghost var start := Model();
      var i := 0;
      DoomedFit(Model(), 0, None);
      while i < registry.pendingDestroyCount
        invariant Valid() && Tables(Model(), 0) && EndDoomed(start, 0, h) == EndDoomed(Model(), i, h)
        invariant registry.pendingDestroyCount <= registry.count && registry.count == |start.live|
        decreases registry.count - i
      {
        var a := registry.pendingDestroy[i];
        EndOne(a, h);
        i := i + 1;
        DoomedFit(Model(), 0, None);
      }
    }

    method UnregisterActor(a: Actor, collecting: bool)
      requires Valid()
      modifies this`objects, registry`count, registry.actors, spawns.slots
      ensures Valid() && Model() == Unregister(old(Model()), a, collecting)
    {
      hide ReleaseActor;
      if a !in objects { return; }
      var i := registry.IndexOf(a);
      if i < registry.count {
        registry.RemoveAt(i);
        spawns.ReleaseActor(a);
      }
      if !collecting { objects := objects - {a}; }
    }

    method MarkAndUnregisterDoomedActors(collecting: bool)
      requires Valid()
      modifies this`objects, registry`count, registry`pendingDestroyCount, registry.actors, registry.pendingDestroy, spawns.slots
      ensures Valid() && Model() == MarkAndUnregister(old(Model()), collecting)
    {
      hide Unregister;
      ghost var start := Model();
      for i := 0 to registry.pendingDestroyCount
        modifies this`objects, registry`count, registry.actors, spawns.slots
        invariant Valid() && Model() == UnregisterUpTo(start, collecting, i)
      {
        UnregisterActor(registry.pendingDestroy[i], collecting);
      }
      registry.ClearPendingDestroy();
    }

    /** Adds one actor, which is in bounds by the caller's argument, and runs its begin hook. */
    method BeginActor(a: Actor, h: Hooks, ghost begun: nat, ghost publishing: Option<Actor>)
      requires Valid() && registry.count < registry.actors.Length
      requires var w := Model();
               TablesWhile(w.(live := w.live + [a], owned := w.owned + {a}, hooks := w.hooks + [Began(a)]), begun, publishing)
      modifies this, Repr()
      ensures Valid() && TablesWhile(Model(), begun, publishing) && Model() == Begin(old(Model()), a, h)
    {
      hide TablesWhile, HandleAll, PendingCount, Queues;
      owned := owned + {a};
      registry.Add(a);
      hooks := hooks + [Began(a)];
      RunHook(h.begin(a), begun, publishing);
    }

    method BeginPendingSpawns(h: Hooks)
      requires Valid() && Tables(Model(), 0) && Committed(Model()) <= registry.actors.Length
      modifies this, Repr()
      ensures Valid() && Model() == BeginManual(old(Model()), 0, h).(pendingSpawn := [])
    {
      hide TablesWhile, PendingCount, Begin;
      ghost var start := Model();
      var i := 0;
      PendingFits(Model(), 0);
      while i < registry.pendingSpawnCount
        invariant Valid() && Tables(Model(), i) && Committed(Model()) <= registry.actors.Length + i
        invariant i <= registry.pendingSpawnCount
        invariant BeginManual(start, 0, h) == BeginManual(Model(), i, h)
        decreases registry.actors.Length - i
      {
        BeginPendingSpawn(i, h);
        i := i + 1;
        PendingFits(Model(), i);
      }
      registry.ClearPendingSpawn();
    }

    method BeginPendingSpawn(i: nat, h: Hooks)
      requires Valid() && Tables(Model(), i) && Committed(Model()) <= registry.actors.Length + i && i < registry.pendingSpawnCount
      modifies this, Repr()
      ensures Valid() && Tables(Model(), i + 1) && Committed(Model()) <= registry.actors.Length + i + 1
      ensures Model() == if old(Model()).pendingSpawn[i] in old(Model()).objects then Begin(old(Model()), old(Model()).pendingSpawn[i], h)
                         else old(Model())
    {
      hide TablesWhile, PendingCount, Begin;
      var a := registry.pendingSpawn[i];
      if a in objects {
        BeginKeeps(Model(), i, h);
        BeginTables(Model(), i);
        BeginActor(a, h, i + 1, None);
      } else {
        SkipManual(Model(), i);
      }
    }

    lemma BeginTables(w: WorldModel.World, i: nat)
      requires Tables(w, i) && i < |w.pendingSpawn|
      ensures var a := w.pendingSpawn[i];
              TablesWhile(w.(live := w.live + [a], owned := w.owned + {a}, hooks := w.hooks + [Began(a)]), i + 1, None)
    {
      hide StorageInv;
    }

    /** Runs every sealed factory; room for each new publish ticket comes from the ticket invariant. */
    method ConstructDeferredSpawns(outcomes: Ticket -> Outcome)
      requires Valid() && ReadyToConstruct(Model(), outcomes)
      modifies this`objects, spawns`destroyed, spawns`invoked, spawns`sealedPublishCount, spawns.slots, spawns.sealedPublishQueue
      ensures Valid() && Model() == ConstructUpTo(old(Model()), outcomes, |old(Model()).spawns.sealedFactory|)
    {
      hide ReadyToConstruct, ConstructedUpTo, ConstructTicket, PendingCount, StorageInv, AllIn;
      ghost var start := Model();
      for i := 0 to spawns.sealedFactoryCount
        invariant Valid() && Model() == ConstructUpTo(start, outcomes, i)
        invariant spawns.sealedFactoryQueue[..spawns.sealedFactoryCount] == start.spawns.sealedFactory
      {
        ConstructUpToKeeps(start, outcomes, i);
        MidConstruction(start, Model(), outcomes, i);
        var t := spawns.sealedFactoryQueue[i];
        assert t == start.spawns.sealedFactory[i];
        ConstructOne(t, outcomes(t));
        ConstructUpToKeeps(start, outcomes, i + 1);
        MidConstruction(start, Model(), outcomes, i + 1);
      }
    }

    method ConstructOne(t: Ticket, o: Outcome)
      requires Valid() && StorageInv(Model().spawns) && AllIn(Model().spawns, Model().spawns.sealedPublish, Constructed)
      modifies this`objects, spawns`destroyed, spawns`invoked, spawns`sealedPublishCount, spawns.slots, spawns.sealedPublishQueue
      ensures Valid() && Model() == ConstructTicket(old(Model()), t, o)
    {
      hide StorageInv, AllIn, Construct;
      var waiting := spawns.IsHandleSlotMatch(t) && spawns.slots[t.index].state.Queued? && spawns.slots[t.index].active;
      spawns.Construct(t, o);
      if waiting && o.Built? { objects := objects + {o.actor}; }
    }

    lemma MidConstruction(w: WorldModel.World, m: WorldModel.World, outcomes: Ticket -> Outcome, k: nat)
      requires k <= |w.spawns.sealedFactory| && ConstructedUpTo(w, m, outcomes, k)
      ensures StorageInv(m.spawns) && AllIn(m.spawns, m.spawns.sealedPublish, Constructed)
      ensures m.spawns.sealedFactory == w.spawns.sealedFactory
    {
      hide Tables, PendingCount, AllIn, WaitingFrom, StillNew, DeliveredActors, KeepsConstructed;
      TablesStorage(m, 0);
    }

    method PublishOne(t: Ticket, h: Hooks)
      requires Valid() && Tables(Model(), 0) && Committed(Model()) <= registry.actors.Length
      requires InState(Model().spawns, t, Constructed) && Model().spawns.publish == []
      modifies this, Repr()
      ensures Valid() && Model() == PublishTicket(old(Model()), t, h)
    {
      hide TablesWhile, PendingCount, Begin;
      ghost var start := Model();
      ResolvedActor(start, t);
      var a := spawns.GetConstructedActor(t);
      if a.None? { return; }
      if a.value !in objects {
        spawns.SkipPublish(t);
        return;
      }
      PublishBegins(start, t, h);
      PublishTables(start, t);
      BeginActor(a.value, h, 0, a);
      spawns.CompletePublish(t);
    }

    lemma PublishTables(w: WorldModel.World, t: Ticket)
      requires Tables(w, 0) && InState(w.spawns, t, Constructed) && ConstructedActor(w.spawns, t).Some?
      ensures var a := ConstructedActor(w.spawns, t).value;
              TablesWhile(w.(live := w.live + [a], owned := w.owned + {a}, hooks := w.hooks + [Began(a)]), 0, Some(a))
    {
      hide StorageInv, PendingCount;
      ResolvedActor(w, t);
    }

    /** Publishes every sealed ticket; each actor added has a place reserved since its request was accepted. */
    method BeginDeferredSpawns(h: Hooks)
      requires Valid() && Tables(Model(), 0) && Committed(Model()) <= registry.actors.Length && Model().spawns.publish == []
      requires AllIn(Model().spawns, Model().spawns.sealedPublish, Constructed) && Distinct(Model().spawns.sealedPublish)
      modifies this, Repr()
      ensures Valid() && Model() == PublishUpTo(old(Model()), h, |old(Model()).spawns.sealedPublish|)
    {
      hide TablesWhile, PendingCount, PublishTicket, PublishedUpTo, AllIn, Distinct;
      ghost var start := Model();
      PublishUpToKeeps(start, h, 0);
      for i := 0 to spawns.sealedPublishCount
        invariant Valid() && Model() == PublishUpTo(start, h, i) && PublishedUpTo(start, Model(), i)
        invariant spawns.sealedPublishCount == |start.spawns.sealedPublish| && registry.actors.Length == start.capacity
      {
        MidPublication(start, Model(), i);
        var t := spawns.sealedPublishQueue[i];
        assert t == start.spawns.sealedPublish[i];
        PublishOne(t, h);
        PublishUpToKeeps(start, h, i + 1);
        MidPublicationLength(start, Model(), i + 1);
      }
    }

    lemma MidPublication(w: WorldModel.World, m: WorldModel.World, k: nat)
      requires k < |w.spawns.sealedPublish| && PublishedUpTo(w, m, k)
      ensures Tables(m, 0) && Committed(m) <= m.capacity && m.spawns.publish == []
      ensures m.spawns.sealedPublish == w.spawns.sealedPublish && InState(m.spawns, w.spawns.sealedPublish[k], Constructed)
    {
      hide Tables, PendingCount, ConstructedActor;
    }

    lemma MidPublicationLength(w: WorldModel.World, m: WorldModel.World, k: nat)
      requires k <= |w.spawns.sealedPublish| && PublishedUpTo(w, m, k)
      ensures m.spawns.sealedPublish == w.spawns.sealedPublish && m.capacity == w.capacity
    {
      hide Tables, PendingCount, ConstructedActor;
    }

    method HasPendingBarrierWork() returns (work: bool)
      requires Valid()
      ensures work == HasWork(Model())
    {
      hide PendingCount;
      var pending := spawns.PendingCount();
      work := registry.pendingDestroyCount != 0 || registry.pendingSpawnCount != 0 || pending != 0;
    }

    method RestoreSealed()
      requires Valid() && StorageInv(Model().spawns)
      modifies spawns`factoryCount, spawns`sealedFactoryCount, spawns`publishCount, spawns`sealedPublishCount,
               spawns.factoryQueue, spawns.publishQueue
      ensures Valid() && Model() == Restore(old(Model()))
    {
      hide StorageInv, SpawnStorageModel.RestoreUnconstructed, SpawnStorageModel.RestoreUnpublished;
      spawns.RestoreUnconstructed();
      spawns.RestoreUnpublished();
    }

    method PublishDeferred(h: Hooks, outcomes: Ticket -> Outcome, g: Guards) returns (result: BarrierResult)
      requires Valid() && ReadyToConstruct(Model(), outcomes) && Committed(Model()) <= registry.actors.Length
      modifies this, Repr()
      ensures Valid() && (Model(), result) == PublishPhase(old(Model()), h, outcomes, g)
    {
      hide TablesWhile, PendingCount, ConstructUpTo, PublishUpTo, Restore, AllIn, Distinct, ConstructedUpTo;
      ghost var start := Model();
      if g.collecting {
        TablesStorage(start, 0);
        RestoreSealed();
        return Locked;
      }
      ConstructUpToKeeps(start, outcomes, |start.spawns.sealedFactory|);
      ConstructDeferredSpawns(outcomes);
      AfterConstruction(start, Model(), outcomes);
      if spawns.sealedPublishCount == 0 { return Applied; }
      if !g.publish {
        spawns.RestoreUnpublished();
        return Locked;
      }
      BeginDeferredSpawns(h);
      return Applied;
    }

    lemma AfterConstruction(b: WorldModel.World, c: WorldModel.World, outcomes: Ticket -> Outcome)
      requires ReadyToConstruct(b, outcomes) && ConstructedUpTo(b, c, outcomes, |b.spawns.sealedFactory|)
      requires Committed(b) <= b.capacity
      ensures StorageInv(c.spawns) && Tables(c, 0) && Committed(c) <= c.capacity && c.spawns.publish == [] && c.capacity == b.capacity
      ensures AllIn(c.spawns, c.spawns.sealedPublish, Constructed) && Distinct(c.spawns.sealedPublish)
    {
      hide Tables, PendingCount, AllIn, WaitingFrom, StillNew, DeliveredActors, KeepsConstructed;
      TablesStorage(c, 0);
      SealedPublishDistinct(c.spawns);
    }

    /**
     The end-of-frame barrier. It may be called on any world whose accepted requests are accounted for, keeps that
     so, and never writes outside a table, whatever its hooks do.
     */
    method ApplyPending(h: Hooks, outcomes: Ticket -> Outcome, g: Guards) returns (result: BarrierResult)
      requires Valid() && WorldInv(Model()) && FreshOutcomes(Model(), outcomes)
      modifies this, Repr()
      ensures Valid() && WorldInv(Model()) && (Model(), result) == WorldModel.ApplyPending(old(Model()), h, outcomes, g)
    {
      hide TablesWhile, PendingCount, EndDoomed, MarkAndUnregister, BeginManual, PublishPhase, SealBarrier, Restore, KeepsSealed,
        Drained, FreshOutcomes, ReadyToConstruct;
      ghost var w := Model();
      BarrierKeepsTheWorld(w, h, outcomes, g);
      if !lifecycle.Playing? { return NotPlaying; }
      SealTables(w);
      spawns.SealBarrier();
      var work := HasPendingBarrierWork();
      if !work { return Applied; }
      TablesStorage(Model(), 0);
      if !g.end {
        RestoreSealed();
        return Locked;
      }
      EndPhaseKeeps(w, h, g.collecting);
      BeginPhaseKeeps(w, h, g);
      Ready(w, h, g, outcomes);
      EndDoomedActors(h);
      MarkAndUnregisterDoomedActors(g.collecting);
      TablesStorage(Model(), 0);
      if !g.begin {
        RestoreSealed();
        return Locked;
      }
      BeginPendingSpawns(h);
      result := PublishDeferred(h, outcomes, g);
    }

    // ---------------------------------------------------------------- begin and end of play

    /** Ends the first `n` live actors, last first. */
    method EndActorsReverse(n: nat, h: Hooks)
      requires Valid() && Tables(Model(), 0) && n <= registry.count
      modifies this`hooks, Repr()
      ensures Valid() && Tables(Model(), 0) && Model() == EndLive(old(Model()), n, h)
    {
      hide TablesWhile, HandleAll, PendingCount, Queues, End;
      ghost var start := Model();
      for i := n downto 0
        invariant Valid() && Tables(Model(), 0) && registry.count == |start.live|
        invariant EndLive(start, n, h) == EndLive(Model(), i, h)
      {
        var a := registry.actors[i];
        EndOne(a, h);
      }
    }

    /** Begins every registered actor in order; the first that does not resolve or fails ends the ones before it. */
    method BeginRegisteredActors(h: Hooks, begins: Actor -> bool) returns (ok: bool)
      requires Valid() && Tables(Model(), 0)
      modifies this`hooks, Repr()
      ensures Valid() && Tables(Model(), 0) && (Model(), ok) == BeginLive(old(Model()), 0, h, begins)
    {
      hide TablesWhile, HandleAll, PendingCount, Queues, EndLive;
      ghost var start := Model();
      for i := 0 to registry.count
        invariant Valid() && Tables(Model(), 0) && registry.count == |start.live|
        invariant BeginLive(start, 0, h, begins) == BeginLive(Model(), i, h, begins)
      {
        var a := registry.actors[i];
        if a !in objects {
          EndActorsReverse(i, h);
          return false;
        }
        HookKeeps(Model(), Began(a), 0);
        hooks := hooks + [Began(a)];
        RunHook(h.begin(a), 0, None);
        if !begins(a) {
          EndActorsReverse(i, h);
          return false;
        }
      }
      return true;
    }

    method AnyRequestFailed() returns (failed: bool)
      requires Valid()
      ensures failed == AnyFailed(Model().spawns)
    {
      for i := 0 to spawns.sealedFactoryCount
        invariant forall k :: 0 <= k < i ==> !InState(Model().spawns, spawns.sealedFactoryQueue[k], Failed)
      {
        var t := spawns.sealedFactoryQueue[i];
        var found := spawns.IsHandleSlotMatch(t);
        if found && spawns.slots[t.index].state.Failed? {
          assert t in Model().spawns.sealedFactory;
          return true;
        }
      }
      return false;
    }

    /** Discards what a failed start has built and fails whatever still waits. */
    method AbortPrePlayConstruction()
      requires Valid()
      modifies this`objects, spawns`destroyed, spawns`factoryCount, spawns`publishCount, spawns`sealedFactoryCount,
               spawns`sealedPublishCount, spawns.slots
      ensures Valid() && Model() == AbortStart(old(Model()))
    {
      hide AbortSealedBatch, ConstructedActor;
      ghost var s := Model().spawns;
      for i := 0 to spawns.sealedPublishCount
        modifies this`objects
        invariant Valid() && Model() == old(Model()).(objects := old(objects) - ActorsOf(s, s.sealedPublish[..i]))
      {
        var t := spawns.sealedPublishQueue[i];
        assert s.sealedPublish[..i + 1] == s.sealedPublish[..i] + [t];
        var a := spawns.GetConstructedActor(t);
        if a.Some? { objects := objects - {a.value}; }
      }
      assert s.sealedPublish[..|s.sealedPublish|] == s.sealedPublish;
      spawns.AbortSealedBatch();
    }

    method AllBegin(first: nat, begins: Actor -> bool) returns (fine: bool)
      requires Valid() && first <= registry.count
      ensures fine == WorldModel.AllBegin(registry.Live(), first, begins)
    {
      for i := first to registry.count
        invariant forall k :: first <= k < i ==> begins(registry.Live()[k])
      {
        if !begins(registry.actors[i]) {
          assert !begins(registry.Live()[i]);
          return false;
        }
      }
      return true;
    }

    /** The registered actors and then the sealed publications; `built` is the world before any hook has run. */
    method StartActors(h: Hooks, u: Startup, ghost built: WorldModel.World)
      requires Valid() && Tables(Model(), 0) && OnlyQueues(built, Model()) && Committed(built) <= built.capacity
      requires built.spawns.publish == [] && AllIn(built.spawns, built.spawns.sealedPublish, Constructed)
      requires Distinct(built.spawns.sealedPublish)
      modifies this, Repr()
      ensures Valid() && Model() == WorldModel.StartActors(old(Model()), h, u)
    {
      hide TablesWhile, PendingCount, BeginLive, PublishUpTo, EndLive, OnlyQueues, PublishedUpTo, AllIn, Distinct;
      ghost var start := Model();
      BeginLiveKeeps(start, 0, h, u.begins);
      var ok := BeginRegisteredActors(h, u.begins);
      ghost var b := Model();
      if ok {
        OnlyQueuesTransitive(built, start, b);
        StartPublishes(built, b, h);
        PublishedBasics(b, PublishUpTo(b, h, |b.spawns.sealedPublish|));
        var first := registry.count;
        BeginDeferredSpawns(h);
        ghost var p := Model();
        ok := AllBegin(first, u.begins);
        assert ok == WorldModel.AllBegin(p.live, |b.live|, u.begins);
        if !ok { EndActorsReverse(registry.count, h); }
      }
      if !ok { lifecycle := Over; }
    }

    method ConstructFirst(outcomes: Ticket -> Outcome)
      requires Valid() && RunInv(Model()) && lifecycle.NotBegun? && FreshOutcomes(Model(), outcomes)
      modifies this, Repr()
      ensures Valid() && Model() == WorldModel.ConstructFirst(old(Model()), outcomes)
    {
      hide TablesWhile, PendingCount, SealBarrier, ConstructUpTo, FreshOutcomes, Drained, ReadyToConstruct;
      StartReady(Model(), outcomes);
      lifecycle := Playing;
      spawns.SealBarrier();
      ConstructDeferredSpawns(outcomes);
    }

    method StartConstructed(h: Hooks, u: Startup)
      requires Valid() && Tables(Model(), 0) && Committed(Model()) <= Model().capacity && Model().spawns.publish == []
      requires AllIn(Model().spawns, Model().spawns.sealedPublish, Constructed) && Distinct(Model().spawns.sealedPublish)
      modifies this, Repr()
      ensures Valid() && Model() == WorldModel.StartConstructed(old(Model()), h, u)
    {
      hide TablesWhile, PendingCount, WorldModel.StartActors, AbortStart, HandleAll, OnlyQueues, AnyFailed, Distinct, AllIn, Queues;
      var failed := AnyRequestFailed();
      if failed {
        AbortPrePlayConstruction();
        lifecycle := Over;
      } else if !u.startupGuard {
        lifecycle := Over;
      } else {
        ghost var built := Model();
        RequestsOnlyQueue(built, u.requests);
        RunHook(u.requests, 0, None);
        if u.subsystems { StartActors(h, u, built); } else { lifecycle := Over; }
      }
    }

    /** The start of the world: the requests made so far are constructed, then everything registered and built begins. */
    method BeginPlay(h: Hooks, outcomes: Ticket -> Outcome, u: Startup)
      requires Valid() && RunInv(Model()) && FreshOutcomes(Model(), outcomes)
      modifies this, Repr()
      ensures Valid() && RunInv(Model()) && Model() == WorldModel.BeginPlay(old(Model()), h, outcomes, u)
    {
      hide TablesWhile, PendingCount, WorldModel.ConstructFirst, WorldModel.StartConstructed, FreshOutcomes, Distinct, AllIn, Drained;
      BeginPlayKeeps(Model(), h, outcomes, u);
      if !lifecycle.NotBegun? || u.collecting || !u.guard { return; }
      FirstConstructed(Model(), outcomes);
      ConstructFirst(outcomes);
      StartConstructed(h, u);
    }

    /** The end of play: from here on no request is accepted, not even from the end hooks. */
    method EndPlay(guard: bool, h: Hooks)
      requires Valid() && RunInv(Model())
      modifies this, Repr()
      ensures Valid() && RunInv(Model()) && Model() == WorldModel.EndPlay(old(Model()), guard, h)
    {
      hide TablesWhile, PendingCount, EndLive, OnlyQueues;
      EndPlayKeeps(Model(), guard, h);
      if !lifecycle.Playing? || !guard { return; }
      OverTables(Model());
      lifecycle := Over;
      EndActorsReverse(registry.count, h);
    }
  }
}
