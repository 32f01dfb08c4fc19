/**
 The begin and end cascades of a world, its actors and their components as loops over registered parts, each forward
 loop with its reverse rollback. Every method performs the LifecycleModel step of the same name.
 */
module WorldLifecycle {
  import opened Basics
  import opened LifecycleModel

  class WorldLifecycle {
    var phases: map<Part, Phase>
    var worldPhase: Phase
    const subsystems: seq<Part>
    var actors: seq<nat>
    const cast: Cast
    ghost var trace: seq<Event>

    ghost function SceneNow(): Scene
      reads this
    {
      Scene(phases, trace)
    }

    ghost function Model(): PlayWorld
      reads this
    {
      PlayWorld(SceneNow(), worldPhase, subsystems, actors, cast)
    }

    constructor (subsystems: seq<Part>, actors: seq<nat>, cast: Cast)
      ensures Model() == PlayWorld(Scene(map[], []), Constructed, subsystems, actors, cast)
    {
      this.subsystems, this.actors, this.cast := subsystems, actors, cast;
      phases, worldPhase, trace := map[], Constructed, [];
    }

    function Guard(p: Part): (r: Phase)
      reads this
      ensures r == PhaseOf(SceneNow(), p)
    {
      if p in phases then phases[p] else Constructed
    }

    method DispatchBegin(p: Part) returns (ok: bool)
      modifies `phases, `trace
      ensures (SceneNow(), ok) == BeginLeaf(old(SceneNow()), p)
    {
      if Guard(p) != Constructed { return false; }
      phases := phases[p := Playing];
      trace := trace + [Began(p)];
      ok := true;
    }

    method DispatchEnd(p: Part) returns (result: RuntimeResult)
      modifies `phases, `trace
      ensures SceneNow() == EndLeaf(old(SceneNow()), p) && result == EndVerdict(PhaseOf(old(SceneNow()), p))
    {
      if Guard(p) == Ended { return Success; }
      if Guard(p) != Playing { return InvalidLifecycle; }
      phases := phases[p := Ended];
      trace := trace + [Finished(p)];
      result := Success;
    }

    /** The reverse loop: all of `parts`, or the ones begun before a failure; the first error is kept. */
    method EndReverse(parts: seq<Part>, count: nat, missing: RuntimeResult) returns (first: RuntimeResult)
      requires count <= |parts|
      modifies `phases, `trace
      ensures SceneNow() == EndLeaves(old(SceneNow()), parts, count, cast.lost)
      ensures first == EndLeavesResult(old(SceneNow()), parts, count, cast.lost, missing)
    {
      first := Success;
      var index: nat := count;
      while index > 0
        invariant 0 <= index <= count
        invariant EndLeaves(SceneNow(), parts, index, cast.lost) == EndLeaves(old(SceneNow()), parts, count, cast.lost)
        invariant FirstError(first, EndLeavesResult(SceneNow(), parts, index, cast.lost, missing))
               == EndLeavesResult(old(SceneNow()), parts, count, cast.lost, missing)
      {
        var result := missing;
        if parts[index - 1] !in cast.lost { result := DispatchEnd(parts[index - 1]); }
        if first == Success { first := result; }
        index := index - 1;
      }
    }

    method BeginWithRollback(parts: seq<Part>) returns (ok: bool)
      modifies `phases, `trace
      ensures (SceneNow(), ok) == BeginLeaves(old(SceneNow()), parts, 0, cast.lost)
    {
      var index := 0;
      while index < |parts|
        invariant index <= |parts|
        invariant BeginLeaves(SceneNow(), parts, index, cast.lost) == BeginLeaves(old(SceneNow()), parts, 0, cast.lost)
      {
        ok := false;
        if parts[index] !in cast.lost { ok := DispatchBegin(parts[index]); }
        if !ok {
          var _ := EndReverse(parts, index, Success);
          return;
        }
        index := index + 1;
      }
      ok := true;
    }

    method DispatchActorBegin(a: nat) returns (ok: bool)
      modifies `phases, `trace
      ensures (SceneNow(), ok) == BeginActor(old(SceneNow()), cast, a)
    {
      if Guard(Actor(a)) != Constructed { return false; }
      phases := phases[Actor(a) := Playing];
      ok := BeginWithRollback(Parts(cast, a));
      if ok { trace := trace + [Began(Actor(a))]; } else { phases := phases[Actor(a) := Failed]; }
    }

    method DispatchActorEnd(a: nat) returns (first: RuntimeResult)
      modifies `phases, `trace
      ensures SceneNow() == EndActor(old(SceneNow()), cast, a) && first == EndActorResult(old(SceneNow()), cast, a)
    {
      if Guard(Actor(a)) == Ended { return Success; }
      if Guard(Actor(a)) != Playing { return InvalidLifecycle; }
      phases := phases[Actor(a) := Ended];
      trace := trace + [Finished(Actor(a))];
      first := EndReverse(Parts(cast, a), |Parts(cast, a)|, Success);
    }

    method EndActorsReverse(count: nat) returns (first: RuntimeResult)
      requires count <= |actors|
      modifies `phases, `trace
      ensures SceneNow() == EndActors(old(SceneNow()), cast, actors, count)
      ensures first == EndActorsResult(old(SceneNow()), cast, actors, count)
    {
      hide EndActor, EndActorResult;
      first := Success;
      var index: nat := count;
      while index > 0
        invariant 0 <= index <= count
        invariant EndActors(SceneNow(), cast, actors, index) == EndActors(old(SceneNow()), cast, actors, count)
        invariant FirstError(first, EndActorsResult(SceneNow(), cast, actors, index)) == EndActorsResult(old(SceneNow()), cast, actors, count)
      {
        var result := Success;
        if Actor(actors[index - 1]) !in cast.lost { result := DispatchActorEnd(actors[index - 1]); }
        if first == Success { first := result; }
        index := index - 1;
      }
    }

    method BeginRegisteredActorsWithRollback() returns (ok: bool)
      modifies `phases, `trace
      ensures (SceneNow(), ok) == BeginActors(old(SceneNow()), cast, actors, 0)
    {
      hide BeginActor, EndActors;
      var index := 0;
      while index < |actors|
        invariant index <= |actors|
        invariant BeginActors(SceneNow(), cast, actors, index) == BeginActors(old(SceneNow()), cast, actors, 0)
      {
        ok := false;
        if Actor(actors[index]) !in cast.lost { ok := DispatchActorBegin(actors[index]); }
        if !ok {
          var _ := EndActorsReverse(index);
          return;
        }
        index := index + 1;
      }
      ok := true;
    }

    method BeginDeferredSpawns(deferred: seq<nat>) returns (fine: bool)
      modifies `phases, `trace, `actors
      ensures (Model(), fine) == PublishDeferred(old(Model()), deferred, |deferred|)
    {
      hide BeginActor;
      fine := true;
      var index := 0;
      while index < |deferred|
        invariant index <= |deferred| && (Model(), fine) == PublishDeferred(old(Model()), deferred, index)
      {
        var a := deferred[index];
        if Actor(a) !in cast.lost {
          actors := actors + [a];
          var ok := DispatchActorBegin(a);
          fine := fine && ok;
        }
        index := index + 1;
      }
    }

    method EndEverything() returns (result: RuntimeResult)
      modifies `phases, `trace
      ensures SceneNow() == EndAll(old(Model())) && result == EndAllResult(old(Model()))
    {
      var ofActors := EndActorsReverse(|actors|);
      var ofSubsystems := EndReverse(subsystems, |subsystems|, InvalidLifecycle);
      result := if ofActors != Success then ofActors else ofSubsystems;
    }

    method BeginPlay(deferred: seq<nat>, gates: Gates) returns (result: RuntimeResult)
      modifies this
      ensures (Model(), result) == LifecycleModel.BeginPlay(old(Model()), deferred, gates)
    {
      hide BeginLeaves, BeginActors, EndLeaves, EndAll;
      if worldPhase != Constructed { return InvalidLifecycle; }
      if gates.collecting || !gates.guard { return LifecycleLocked; }
      worldPhase := Playing;
      if !gates.constructed {
        worldPhase := Failed;
        return InitializationFailed;
      }
      if !gates.startupGuard {
        worldPhase := Failed;
        return LifecycleLocked;
      }
      var subsystemsOk := BeginWithRollback(subsystems);
      if !subsystemsOk {
        worldPhase := Failed;
        return InvalidLifecycle;
      }
      var actorsOk := BeginRegisteredActorsWithRollback();
      if !actorsOk {
        worldPhase := Failed;
        var _ := EndReverse(subsystems, |subsystems|, InvalidLifecycle);
        return InvalidLifecycle;
      }
      ghost var b := old(Model()).(scene := SceneNow());
      PublishIgnoresThePhase(b, Playing, deferred, |deferred|);
      var deferredOk := BeginDeferredSpawns(deferred);
      if !deferredOk {
        EndAllIgnoresThePhase(PublishDeferred(b, deferred, |deferred|).0, Playing);
        var _ := EndEverything();
        worldPhase := Failed;
        return InvalidLifecycle;
      }
      result := Success;
    }

    method EndPlay(guard: bool) returns (result: RuntimeResult)
      modifies this
      ensures (Model(), result) == LifecycleModel.EndPlay(old(Model()), guard)
    {
      hide EndAll;
      if worldPhase == Ended { return Success; }
      if worldPhase != Playing { return InvalidLifecycle; }
      if !guard { return LifecycleLocked; }
      ghost var w := Model();
      EndAllIgnoresThePhase(w, Ended);
      worldPhase := Ended;
      result := EndEverything();
    }
  }

  lemma {:induction false} PublishIgnoresThePhase(w: PlayWorld, phase: Phase, deferred: seq<nat>, k: nat)
    requires k <= |deferred|
    ensures PublishDeferred(w.(phase := phase), deferred, k)
         == (PublishDeferred(w, deferred, k).0.(phase := phase), PublishDeferred(w, deferred, k).1)
  {
    hide BeginActor;
    if k > 0 { PublishIgnoresThePhase(w, phase, deferred, k - 1); }
  }

  lemma EndAllIgnoresThePhase(w: PlayWorld, phase: Phase)
    ensures EndAll(w.(phase := phase)) == EndAll(w) && EndAllResult(w.(phase := phase)) == EndAllResult(w)
  {
  }
}
