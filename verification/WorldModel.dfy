/**
 The structural side of `UWorld` as a pure state machine: the live registry, the two pending lists, the deferred
 spawn storage and the end-of-frame barrier. Actor hooks are arbitrary: each begin or end hook may issue any
 sequence of structural requests, which the world accepts or rejects as it would for any other caller.
 */
module WorldModel {
  import opened Basics
  import opened SpawnStorageModel

  type Actor = nat

  datatype Request = SpawnManual(actor: Actor) | SpawnTyped | Destroy(actor: Actor)

  /** The requests an actor's hooks make while they run. */
  datatype Hooks = Hooks(begin: Actor -> seq<Request>, end: Actor -> seq<Request>)

  /** Which dispatch guards the barrier gets, and whether a collection is running. */
  datatype Guards = Guards(end: bool, begin: bool, publish: bool, collecting: bool)

  datatype Lifecycle = NotBegun | Playing | Over

  datatype EngineResult = Success | LifecycleLocked | InvalidReference | CapacityExceeded | Duplicate | AlreadyOwned

  datatype Hook = Began(actor: Actor) | Finished(actor: Actor)

  /** `objects` are the actors whose references resolve, `owned` the ones that already belong to a world. */
  datatype World = World(
    capacity: nat,
    lifecycle: Lifecycle,
    live: seq<Actor>,
    pendingSpawn: seq<Actor>,
    pendingDestroy: seq<Actor>,
    spawns: Storage,
    objects: set<Actor>,
    owned: set<Actor>,
    hooks: seq<Hook>)

  function NewWorld(capacity: nat, maxRequests: nat): World {
    World(capacity, NotBegun, [], [], [], Fresh(maxRequests), {}, {}, [])
  }

  // ------------------------------------------------------------------ requests

  function Committed(w: World): nat { |w.live| + |w.pendingSpawn| + PendingCount(w.spawns) }

  predicate CanAcceptMoreActors(w: World) { Committed(w) < w.capacity }

  function CheckSpawnable(w: World, a: Actor): EngineResult {
    if !w.lifecycle.Playing? then LifecycleLocked
    else if a !in w.objects then InvalidReference
    else if a in w.live || a in w.pendingSpawn then Duplicate
    else if !CanAcceptMoreActors(w) then CapacityExceeded
    else if a in w.owned then AlreadyOwned
    else Success
  }

  function SpawnActor(w: World, a: Actor): (World, EngineResult) {
    var r := CheckSpawnable(w, a);
    if r != Success then (w, r) else (w.(pendingSpawn := w.pendingSpawn + [a]), Success)
  }

  function CheckDestroyable(w: World, a: Actor): EngineResult {
    if !w.lifecycle.Playing? then LifecycleLocked
    else if a !in w.objects || a !in w.live then InvalidReference
    else if a in w.pendingDestroy then Duplicate
    else Success
  }

  function DestroyActor(w: World, a: Actor): (World, EngineResult) {
    var r := CheckDestroyable(w, a);
    if r != Success then (w, r) else (w.(pendingDestroy := w.pendingDestroy + [a]), Success)
  }

  /** A typed request, before or during play. */
  function SpawnTypedActor(w: World, collecting: bool): (World, Option<Ticket>) {
    if w.lifecycle.Over? || collecting || !CanAcceptMoreActors(w) then (w, None)
    else
      var (s, t) := Submit(w.spawns);
      (w.(spawns := s), t)
  }

  /** Registration before play; it looks at the live count only. */
  function RegisterActor(w: World, a: Actor): (World, EngineResult) {
    if !w.lifecycle.NotBegun? then (w, LifecycleLocked)
    else if a !in w.objects then (w, InvalidReference)
    else if a in w.live then (w, Duplicate)
    else if |w.live| >= w.capacity then (w, CapacityExceeded)
    else if a in w.owned then (w, AlreadyOwned)
    else (w.(live := w.live + [a], owned := w.owned + {a}), Success)
  }

  /** A constructed actor that is not published yet; nobody outside the storage holds a reference to it. */
  predicate Hidden(s: Storage, a: Actor) {
    exists i :: 0 <= i < |s.slots| && s.slots[i].state.Constructed? && s.slots[i].actor == Some(a)
  }

  function Handle(w: World, r: Request): World {
    match r
    case SpawnManual(a) => if Hidden(w.spawns, a) then w else SpawnActor(w, a).0
    case SpawnTyped => SpawnTypedActor(w, false).0
    case Destroy(a) => DestroyActor(w, a).0
  }

  /** Requests never touch the live registry. */
  function HandleAll(w: World, rs: seq<Request>): (r: World)
    ensures r.live == w.live && r.capacity == w.capacity && r.lifecycle == w.lifecycle
  {
    if rs == [] then w else Handle(HandleAll(w, rs[..|rs| - 1]), rs[|rs| - 1])
  }

  // ------------------------------------------------------------------ the phases of the barrier

  function End(w: World, a: Actor, h: Hooks): World {
    HandleAll(w.(hooks := w.hooks + [Finished(a)]), h.end(a))
  }

  /**
   Ends the doomed actors from position `i` on, including those doomed by the hooks themselves. The pending
   list never outgrows the live registry, so the second bound never stops the loop early.
   */
  function EndDoomed(w: World, i: nat, h: Hooks): World
    decreases |w.live| - i
  {
    if i >= |w.pendingDestroy| || i >= |w.live| then w
    else EndDoomed(if w.pendingDestroy[i] in w.objects then End(w, w.pendingDestroy[i], h) else w, i + 1, h)
  }

  function Position(s: seq<Actor>, a: Actor, i: nat): (r: nat)
    requires i <= |s|
    ensures i <= r <= |s| && (r < |s| ==> s[r] == a) && forall k :: i <= k < r ==> s[k] != a
    decreases |s| - i
  {
    if i == |s| || s[i] == a then i else Position(s, a, i + 1)
  }

  function Without(s: seq<Actor>, a: Actor): seq<Actor> {
    var i := Position(s, a, 0);
    if i == |s| then s else s[..i] + s[i + 1..]
  }

  function Unregister(w: World, a: Actor, collecting: bool): World {
    if a !in w.objects then w
    else w.(live := Without(w.live, a), spawns := if a in w.live then ReleaseActor(w.spawns, a) else w.spawns,
            objects := if collecting then w.objects else w.objects - {a})
  }

  function UnregisterUpTo(w: World, collecting: bool, k: nat): (r: World)
    requires k <= |w.pendingDestroy|
    ensures r.pendingDestroy == w.pendingDestroy
  {
    if k == 0 then w else Unregister(UnregisterUpTo(w, collecting, k - 1), w.pendingDestroy[k - 1], collecting)
  }

  function MarkAndUnregister(w: World, collecting: bool): World {
    UnregisterUpTo(w, collecting, |w.pendingDestroy|).(pendingDestroy := [])
  }

  function Begin(w: World, a: Actor, h: Hooks): World {
    HandleAll(w.(live := w.live + [a], owned := w.owned + {a}, hooks := w.hooks + [Began(a)]), h.begin(a))
  }

  /** Begins the manual spawns from position `i` on, including those queued by the hooks themselves. */
  function BeginManual(w: World, i: nat, h: Hooks): World
    decreases w.capacity - i
  {
    if i >= |w.pendingSpawn| || i >= w.capacity then w
    else BeginManual(if w.pendingSpawn[i] in w.objects then Begin(w, w.pendingSpawn[i], h) else w, i + 1, h)
  }

  function ConstructTicket(w: World, t: Ticket, o: Outcome): World {
    var s := Construct(w.spawns, t, o);
    var built := o.Built? && InState(w.spawns, t, Queued) && w.spawns.slots[t.index].active;
    w.(spawns := s, objects := if built then w.objects + {o.actor} else w.objects)
  }

  function ConstructUpTo(w: World, outcomes: Ticket -> Outcome, k: nat): (r: World)
    requires k <= |w.spawns.sealedFactory|
  {
    if k == 0 then w else ConstructTicket(ConstructUpTo(w, outcomes, k - 1), w.spawns.sealedFactory[k - 1], outcomes(w.spawns.sealedFactory[k - 1]))
  }

  /** Publishes one constructed actor; the actor begins before its ticket reads as spawned. */
  function PublishTicket(w: World, t: Ticket, h: Hooks): World {
    var a := ConstructedActor(w.spawns, t);
    if a.None? then w
    else if a.value !in w.objects then w.(spawns := SkipPublish(w.spawns, t))
    else
      var m := Begin(w, a.value, h);
      m.(spawns := CompletePublish(m.spawns, t))
  }

  function PublishUpTo(w: World, h: Hooks, k: nat): (r: World)
    requires k <= |w.spawns.sealedPublish|
    ensures |w.live| <= |r.live|
  {
    if k == 0 then w else PublishTicket(PublishUpTo(w, h, k - 1), w.spawns.sealedPublish[k - 1], h)
  }

  // ------------------------------------------------------------------ the barrier

  datatype BarrierResult = Applied | Locked | NotPlaying

  predicate HasWork(w: World) { w.pendingDestroy != [] || w.pendingSpawn != [] || PendingCount(w.spawns) != 0 }

  function Restore(w: World): World { w.(spawns := RestoreUnpublished(RestoreUnconstructed(w.spawns))) }

  /** Construction and publication of the sealed tickets. */
  function PublishPhase(w: World, h: Hooks, outcomes: Ticket -> Outcome, g: Guards): (World, BarrierResult) {
    if g.collecting then (Restore(w), Locked)
    else
      var c := ConstructUpTo(w, outcomes, |w.spawns.sealedFactory|);
      if c.spawns.sealedPublish == [] then (c, Applied)
      else if !g.publish then (c.(spawns := RestoreUnpublished(c.spawns)), Locked)
      else (PublishUpTo(c, h, |c.spawns.sealedPublish|), Applied)
  }

  function ApplyPending(w: World, h: Hooks, outcomes: Ticket -> Outcome, g: Guards): (World, BarrierResult) {
    if !w.lifecycle.Playing? then (w, NotPlaying)
    else
      var s := w.(spawns := SealBarrier(w.spawns));
      if !HasWork(s) then (s, Applied)
      else if !g.end then (Restore(s), Locked)
      else
        var u := MarkAndUnregister(EndDoomed(s, 0, h), g.collecting);
        if !g.begin then (Restore(u), Locked)
        else PublishPhase(BeginManual(u, 0, h).(pendingSpawn := []), h, outcomes, g)
  }

  // ------------------------------------------------------------------ begin and end of play

  /**
   What decides a start: a running collection, both dispatch guards, whether the subsystems came up and what they
   requested meanwhile, and which actors begin without an error.
   */
  datatype Startup = Startup(collecting: bool, guard: bool, startupGuard: bool, subsystems: bool, requests: seq<Request>,
                             begins: Actor -> bool)

  /** Ends the first `k` live actors, last first, passing over those that no longer resolve. */
  function EndLive(w: World, k: nat, h: Hooks): World
    requires k <= |w.live|
    decreases k
  {
    if k == 0 then w else EndLive(if w.live[k - 1] in w.objects then End(w, w.live[k - 1], h) else w, k - 1, h)
  }

  /** Begins the registered actors from position `i` on; the first failure ends the ones before it again. */
  function BeginLive(w: World, i: nat, h: Hooks, begins: Actor -> bool): (World, bool)
    requires i <= |w.live|
    decreases |w.live| - i
  {
    if i == |w.live| then (w, true)
    else if w.live[i] !in w.objects then (EndLive(w, i, h), false)
    else
      var m := HandleAll(w.(hooks := w.hooks + [Began(w.live[i])]), h.begin(w.live[i]));
      if begins(w.live[i]) then BeginLive(m, i + 1, h, begins) else (EndLive(m, i, h), false)
  }

  predicate AnyFailed(s: Storage) { exists t :: t in s.sealedFactory && InState(s, t, Failed) }

  /** The actors that wait for publication under these tickets. */
  function ActorsOf(s: Storage, ts: seq<Ticket>): set<Actor> {
    set t | t in ts && ConstructedActor(s, t).Some? :: ConstructedActor(s, t).value
  }

  /** A failed request discards the actors its batch built and fails every request that still waits. */
  function AbortStart(w: World): World {
    w.(spawns := AbortSealedBatch(w.spawns), objects := w.objects - ActorsOf(w.spawns, w.spawns.sealedPublish))
  }

  predicate AllBegin(actors: seq<Actor>, first: nat, begins: Actor -> bool) {
    forall k :: first <= k < |actors| ==> begins(actors[k])
  }

  /** The registered actors begin, and then the deferred ones are published; any failure ends the world. */
  function StartActors(w: World, h: Hooks, u: Startup): World {
    var (b, ok) := BeginLive(w, 0, h, u.begins);
    if !ok then b.(lifecycle := Over)
    else
      var p := PublishUpTo(b, h, |b.spawns.sealedPublish|);
      if AllBegin(p.live, |b.live|, u.begins) then p else EndLive(p, |p.live|, h).(lifecycle := Over)
  }

  /** The requests made before play, sealed and constructed. */
  function ConstructFirst(w: World, outcomes: Ticket -> Outcome): World {
    var s := w.(lifecycle := Playing, spawns := SealBarrier(w.spawns));
    ConstructUpTo(s, outcomes, |s.spawns.sealedFactory|)
  }

  function StartConstructed(c: World, h: Hooks, u: Startup): World {
    if AnyFailed(c.spawns) then AbortStart(c).(lifecycle := Over)
    else if !u.startupGuard then c.(lifecycle := Over)
    else if !u.subsystems then HandleAll(c, u.requests).(lifecycle := Over)
    else StartActors(HandleAll(c, u.requests), h, u)
  }

  function BeginPlay(w: World, h: Hooks, outcomes: Ticket -> Outcome, u: Startup): World {
    if !w.lifecycle.NotBegun? || u.collecting || !u.guard then w else StartConstructed(ConstructFirst(w, outcomes), h, u)
  }

  function EndPlay(w: World, guard: bool, h: Hooks): World {
    if !w.lifecycle.Playing? || !guard then w else EndLive(w.(lifecycle := Over), |w.live|, h)
  }
}
