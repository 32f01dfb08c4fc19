/**
 `TEngine`'s frame over a real store and collector. Callbacks are given as the store operations they perform; every
 method performs the EngineFrames step of the same name.
 */
module EngineHost {
  import opened Basics
  import opened ObjectStoreModel
  import opened ObjectStore
  import opened CollectorModel
  import opened GarbageCollector
  import opened EngineFrames

  class EngineHost {
    const store: ObjectStore
    const collector: GarbageCollector
    const budget: Work
    const frameReclamationBudget: nat
    var lastTickMilliseconds: nat

    ghost predicate Valid()
      reads this, store, collector
    {
      collector.store == store && collector.Valid()
    }

    ghost function Model(): Engine
      requires Valid()
      reads this, store, store.slots, store.roots, collector, collector.worklist
    {
      Engine(collector.Model(), lastTickMilliseconds, budget, frameReclamationBudget)
    }

    constructor (store: ObjectStore, collector: GarbageCollector, budget: Work, reclamation: nat)
      requires collector.store == store && collector.Valid()
      ensures Valid() && Model() == Engine(collector.Model(), 0, budget, reclamation)
    {
      this.store, this.collector, this.budget, frameReclamationBudget := store, collector, budget, reclamation;
      lastTickMilliseconds := 0;
    }

    /** One store call made by a callback. */
    method Perform(op: Operation)
      requires Valid() && op.WellTyped() && op.Public()
      modifies store, store.slots, store.roots
      ensures Valid() && collector.Model() == old(collector.Model()).(store := Step(old(store.Model()), op))
    {
      hide ConstructActor, NewObject, ApplyPendingDestroy;
      match op
      case New(known, o) => var result, h := store.NewObject(known, o);
      case Construct(known, o, requests) => var result, h := store.ConstructActor(known, o, requests);
      case MarkPending(h) => var result := store.MarkPendingDestroy(h);
      case ApplyPending(n) => var m := store.ApplyPendingDestroy(n);
      case Root(h) => var result := store.AddRoot(h);
      case Unroot(h) => var result := store.RemoveRoot(h);
      case Assign(h, references) => store.Assign(h, references);
      case LockDispatch => var acquired := store.TryBeginDispatch();
      case UnlockDispatch => store.EndDispatch();
    }

    method RunCallbacks(ops: seq<Operation>)
      requires Valid() && PublicRun(ops)
      modifies store, store.slots, store.roots
      ensures Valid() && collector.Model() == Uses(old(collector.Model()), ops)
    {
      hide Step;
      var i := 0;
      assert ops[..0] == [];
      while i < |ops|
        invariant i <= |ops| && Valid() && PublicRun(ops[..i]) && collector.Model() == Uses(old(collector.Model()), ops[..i])
      {
        assert ops[..i + 1][..i] == ops[..i];
        Perform(ops[i]);
        i := i + 1;
      }
      assert ops[..|ops|] == ops;
    }

    method CompletePriorCollectionBeforeCallbacks() returns (r: RuntimeResult)
      requires Valid()
      modifies collector, collector.worklist, store, store.slots, store.roots
      ensures Valid() && (collector.Model(), r) == CatchUp(old(collector.Model()))
    {
      if collector.phase.Idle? { return RuntimeResult.Success; }
      var result := collector.CollectFull();
      if result.result != RuntimeResult.Success { return result.result; }
      r := if collector.phase.Idle? then RuntimeResult.Success else RuntimeResult.LifecycleLocked;
    }

    method StartBudgetedCollectionAfterCallbacks()
      requires Valid()
      modifies collector, collector.worklist, store, store.slots, store.roots
      ensures Valid() && collector.Model() == StartSlice(old(collector.Model()), budget)
    {
      if collector.phase.Idle? { var started := collector.RequestCollection(); }
      var result := collector.Advance(budget);
    }

    method Tick(f: Frame) returns (r: TickResult)
      requires Valid() && PublicRun(f.callbacks) && PublicRun(f.late)
      modifies this, collector, collector.worklist, store, store.slots, store.roots
      ensures Valid() && (Model(), r) == EngineFrames.Tick(old(Model()), f)
    {
      hide CatchUp, Uses, StartSlice, Step;
      if f.now < lastTickMilliseconds { return NonMonotonicTime; }
      lastTickMilliseconds := f.now;
      var caughtUp := CompletePriorCollectionBeforeCallbacks();
      if caughtUp != RuntimeResult.Success { return Blocked(caughtUp); }
      RunCallbacks(f.callbacks);
      Perform(ApplyPending(frameReclamationBudget));
      RunCallbacks(f.late);
      StartBudgetedCollectionAfterCallbacks();
      r := Ticked;
    }

    method CancelActiveCollectionBeforeTeardown()
      requires Valid()
      modifies collector, collector.worklist, store, store.slots, store.roots
      ensures Valid() && Model() == CancelBeforeTeardown(old(Model()))
    {
      if !collector.phase.Idle? { var result := collector.CancelCollection(); }
    }
  }
}
