/**
 `FGarbageCollector`: the resumable collector over an ObjectStore and a caller-owned worklist. Its methods
 perform exactly the transitions of CollectorModel, so the theorems of CollectorProofs hold of it.
 */
module GarbageCollector {
  import opened Basics
  import opened ObjectStoreModel
  import opened ObjectStore
  import opened CollectorModel

  datatype CollectionResult = CollectionResult(result: RuntimeResult, phase: Phase, operations: Work, complete: bool)

  class GarbageCollector {
    const id: nat
    const store: ObjectStore
    const worklist: array<Handle>
    var phase: Phase
    var rootCursor: nat
    var worklistCount: nat
    var sweepCursor: nat
    var overflowed: bool
    ghost var base: Store
    ghost var scanned: seq<Handle>
    ghost var reached: set<nat>
    ghost var work: Work

    ghost predicate Valid()
      reads this, store
    {
      store.Valid() && worklistCount <= worklist.Length && worklist != store.roots
    }

    ghost function Model(): Collector
      requires Valid()
      reads this, store, store.slots, store.roots, worklist
    {
      Collector(id, worklist.Length, store.Model(), phase, rootCursor, worklist[..worklistCount], sweepCursor, overflowed,
                base, scanned, reached, work)
    }

    constructor (id: nat, store: ObjectStore, worklist: array<Handle>)
      requires store.Valid() && worklist != store.roots
      ensures Valid() && this.store == store && this.worklist == worklist
      ensures Model().phase == Idle && !Model().overflowed && Model().store == store.Model()
    {
      this.id, this.store, this.worklist := id, store, worklist;
      phase, rootCursor, worklistCount, sweepCursor, overflowed := Idle, 0, 0, 0, false;
      base, scanned, reached, work := Store(false, 0, [], RootTable([], 0), 0, 0, 0, 0, 0, false, false, None, []), [], {}, Work(0, 0, 0);
    }

    /** Why a cycle cannot start, or success with the store acquired. */
    method ClassifyStartFailure() returns (r: RuntimeResult)
      requires Valid()
      modifies store`collector
      ensures Valid() && r == StartFailure(old(Model()))
      ensures store.Model() == if r == RuntimeResult.Success then BeginCollection(old(store.Model()), id) else old(store.Model())
    {
      if !phase.Idle? { return RuntimeResult.LifecycleLocked; }
      if store.mutationLocked || store.dispatchLocked { return RuntimeResult.LifecycleLocked; }
      if !store.configured || worklist.Length < store.slots.Length { return RuntimeResult.CapacityExceeded; }
      var acquired := store.CollectorTryBegin(id);
      if !acquired { return RuntimeResult.LifecycleLocked; }
      return RuntimeResult.Success;
    }

    method RequestCollection() returns (r: RuntimeResult)
      requires Valid()
      modifies this, store`collector
      ensures Valid() && r == StartFailure(old(Model()))
      ensures Model() == CollectorModel.RequestCollection(old(Model()))
    {
      ghost var s := store.Model();
      r := ClassifyStartFailure();
      if r != RuntimeResult.Success { return; }
      rootCursor, worklistCount, sweepCursor, phase := 0, 0, 0, SeedRoots;
      base, scanned, reached, work := s, [], {}, Work(0, 0, 0);
    }

    method ClearMarks()
      modifies store.slots
      ensures store.slots[..] == Unmarked(old(store.slots[..]))
    {
      ghost var was := store.slots[..];
      var i := 0;
      while i < store.slots.Length
        invariant i <= store.slots.Length
        invariant forall k :: 0 <= k < i ==> store.slots[k] == Unmarked(was)[k]
        invariant forall k :: i <= k < store.slots.Length ==> store.slots[k] == was[k]
      {
        store.CollectorSetMarked(i, false);
        i := i + 1;
      }
    }

    method ResetCycle()
      requires Valid()
      modifies this, store`collector, store.slots
      ensures Valid() && Model() == Reset(old(Model()))
    {
      ClearMarks();
      store.CollectorEnd(id);
      rootCursor, worklistCount, sweepCursor, phase, overflowed := 0, 0, 0, Idle, false;
      assert worklist[..worklistCount] == [];
    }

    method CompleteCycle()
      requires Valid()
      modifies this, store`collector
      ensures Valid() && Model() == Complete(old(Model()))
    {
      store.CollectorEnd(id);
      rootCursor, worklistCount, sweepCursor, phase := 0, 0, 0, Idle;
    }

    method CancelCollection() returns (r: RuntimeResult)
      requires Valid()
      modifies this, store`collector, store.slots
      ensures Valid() && Model() == Cancel(old(Model()))
      ensures r == if old(phase).Idle? then RuntimeResult.InvalidLifecycle else RuntimeResult.Success
    {
      if phase.Idle? { return RuntimeResult.InvalidLifecycle; }
      ResetCycle();
      return RuntimeResult.Success;
    }

    /** The live handle of a slot, or the invalid handle. */
    function HandleAt(i: nat): (h: Handle)
      reads store.slots
      ensures h == ObjectStoreModel.HandleAt(store.Model(), i)
    {
      if i >= store.slots.Length || !store.slots[i].state.Live? then NO_HANDLE else Handle(i, store.slots[i].generation)
    }

    method DiscoverReference(h: Handle)
      requires Valid()
      modifies this, worklist, store`collector, store.slots
      ensures Valid() && Model() == Discover(old(Model()), h)
    {
      if !((phase.SeedRoots? || phase.Marking?) && store.collector == Some(id)) || !h.IsValid() || h.index >= store.slots.Length {
        return;
      }
      var slot := store.slots[h.index];
      if IsPending(slot) || HandleAt(h.index) != h || (IsOccupied(slot) && slot.marked) { return; }
      if worklistCount >= worklist.Length {
        ResetCycle();
        overflowed := true;
        return;
      }
      store.CollectorSetMarked(h.index, true);
      worklist[worklistCount] := h;
      worklistCount := worklistCount + 1;
      reached := reached + {h.index};
    }

    /** One object's visitor: reports each of its references in order. */
    method VisitReferences(references: seq<Handle>)
      requires Valid()
      modifies this, worklist, store`collector, store.slots
      ensures Valid() && Model() == DiscoverAll(old(Model()), references)
    {
      var k := 0;
      while k < |references|
        invariant k <= |references| && Valid()
        invariant Model() == DiscoverAll(old(Model()), references[..k])
      {
        assert references[..k + 1][..k] == references[..k];
        DiscoverReference(references[k]);
        k := k + 1;
      }
      assert references[..k] == references;
    }

    /** Scans one root entry. */
    method SeedNextRoot()
      requires Valid() && rootCursor < store.roots.Length
      modifies this, worklist, store`collector, store.slots
      ensures Valid() && Model() == SeedOne(old(Model()))
    {
      var h := store.roots[rootCursor];
      rootCursor := rootCursor + 1;
      scanned, work := scanned + [h], work.(roots := work.roots + 1);
      DiscoverReference(h);
    }

    /** Traces the most recently queued object. */
    method MarkNextObject()
      requires Valid() && worklistCount > 0
      modifies this, worklist, store`collector, store.slots
      ensures Valid() && Model() == MarkOne(old(Model()))
    {
      ghost var was := worklist[..worklistCount];
      worklistCount := worklistCount - 1;
      work := work.(marks := work.marks + 1);
      assert worklist[..worklistCount] == was[..|was| - 1];
      var o := store.Resolve(worklist[worklistCount]);
      if o.Object? { VisitReferences(o.references); }
    }

    /** Inspects one slot: keeps it unmarked if discovered, reclaims it if not. */
    method SweepNextSlot()
      requires Valid() && sweepCursor < store.slots.Length
      modifies this, store, store.slots, store.roots
      ensures Valid() && Model() == SweepOne(old(Model()))
    {
      var i := sweepCursor;
      sweepCursor := sweepCursor + 1;
      work := work.(sweeps := work.sweeps + 1);
      if !IsOccupied(store.slots[i]) || IsPending(store.slots[i]) { return; }
      if store.slots[i].marked {
        store.CollectorSetMarked(i, false);
        return;
      }
      var h := HandleAt(i);
      if h.IsValid() { var _ := store.CollectorReclaim(h); }
    }

    // ---------------------------------------------------------------- budgeted phases

    method AdvanceSeedRootsPhase(budget: Work, done: Work, ghost start: Work) returns (advanced: bool, operations: Work)
      requires Valid() && phase.SeedRoots? && !overflowed && work == start.Plus(done)
      modifies this, worklist, store`collector, store.slots
      ensures Valid() && work == start.Plus(operations)
      ensures Slice(Model(), start.Plus(budget)) == Slice(old(Model()), start.Plus(budget))
      ensures if advanced then phase.Marking? && !overflowed else Blocked(Model(), start.Plus(budget))
    {
      operations := done;
      while !overflowed && rootCursor < store.roots.Length && operations.roots < budget.roots
        invariant Valid() && work == start.Plus(operations)
        invariant if overflowed then phase.Idle? else phase.SeedRoots?
        invariant Slice(Model(), start.Plus(budget)) == Slice(old(Model()), start.Plus(budget))
        decreases budget.roots - operations.roots
      {
        SeedNextRoot();
        operations := operations.(roots := operations.roots + 1);
      }
      if overflowed || rootCursor < store.roots.Length { return false, operations; }
      phase := Marking;
      return true, operations;
    }

    method AdvanceMarkPhase(budget: Work, done: Work, ghost start: Work) returns (advanced: bool, operations: Work)
      requires Valid() && phase.Marking? && !overflowed && work == start.Plus(done)
      modifies this, worklist, store`collector, store.slots
      ensures Valid() && work == start.Plus(operations)
      ensures Slice(Model(), start.Plus(budget)) == Slice(old(Model()), start.Plus(budget))
      ensures if advanced then phase.Sweeping? && !overflowed else Blocked(Model(), start.Plus(budget))
    {
      operations := done;
      while !overflowed && worklistCount > 0 && operations.marks < budget.marks
        invariant Valid() && work == start.Plus(operations)
        invariant if overflowed then phase.Idle? else phase.Marking?
        invariant Slice(Model(), start.Plus(budget)) == Slice(old(Model()), start.Plus(budget))
        decreases budget.marks - operations.marks
      {
        MarkNextObject();
        operations := operations.(marks := operations.marks + 1);
      }
      if overflowed || worklistCount > 0 { return false, operations; }
      phase := Sweeping;
      return true, operations;
    }

    method AdvanceSweepPhase(budget: Work, done: Work, ghost start: Work) returns (advanced: bool, operations: Work)
      requires Valid() && phase.Sweeping? && !overflowed && work == start.Plus(done)
      modifies this, store, store.slots, store.roots
      ensures Valid() && work == start.Plus(operations) && !overflowed
      ensures Slice(Model(), start.Plus(budget)) == Slice(old(Model()), start.Plus(budget))
      ensures if advanced then phase.Idle? else !phase.Idle? && Blocked(Model(), start.Plus(budget))
    {
      operations := done;
      while sweepCursor < store.slots.Length && operations.sweeps < budget.sweeps
        invariant Valid() && work == start.Plus(operations) && phase.Sweeping? && !overflowed
        invariant Slice(Model(), start.Plus(budget)) == Slice(old(Model()), start.Plus(budget))
        decreases budget.sweeps - operations.sweeps
      {
        SweepNextSlot();
        operations := operations.(sweeps := operations.sweeps + 1);
      }
      if sweepCursor < store.slots.Length { return false, operations; }
      CompleteCycle();
      return true, operations;
    }

    method Advance(budget: Work) returns (r: CollectionResult)
      requires Valid()
      modifies this, worklist, store, store.slots, store.roots
      ensures Valid() && Model() == CollectorModel.Advance(old(Model()), budget)
      ensures r.phase == phase
      ensures AdvanceFailure(old(Model())) != RuntimeResult.Success ==> r.result == AdvanceFailure(old(Model()))
      ensures AdvanceFailure(old(Model())) == RuntimeResult.Success ==>
                && work == old(work).Plus(r.operations)
                && r.result == (if overflowed then RuntimeResult.CapacityExceeded else RuntimeResult.Success)
                && r.complete == (phase.Idle? && !overflowed)
    {
      if store.dispatchLocked { return CollectionResult(RuntimeResult.LifecycleLocked, phase, Work(0, 0, 0), false); }
      if phase.Idle? { return CollectionResult(RuntimeResult.InvalidLifecycle, phase, Work(0, 0, 0), false); }
      if store.mutationLocked || store.collector != Some(id) {
        return CollectionResult(RuntimeResult.LifecycleLocked, phase, Work(0, 0, 0), false);
      }
      overflowed := false;
      ghost var start := work;
      ghost var limit := start.Plus(budget);
      ghost var want := Slice(Model(), limit);
      var operations := Work(0, 0, 0);
      var advanced := true;
      while advanced && !phase.Idle?
        invariant Valid() && work == start.Plus(operations) && Slice(Model(), limit) == want
        invariant !advanced ==> Blocked(Model(), limit)
        invariant !overflowed
        invariant PhaseRank(phase) <= 3
        decreases advanced, PhaseRank(phase)
      {
        if phase.SeedRoots? {
          advanced, operations := AdvanceSeedRootsPhase(budget, operations, start);
        } else if phase.Marking? {
          advanced, operations := AdvanceMarkPhase(budget, operations, start);
        } else {
          advanced, operations := AdvanceSweepPhase(budget, operations, start);
        }
        if overflowed {
          return CollectionResult(RuntimeResult.CapacityExceeded, phase, operations, false);
        }
      }
      return CollectionResult(RuntimeResult.Success, phase, operations, phase.Idle?);
    }

    method CollectFull() returns (r: CollectionResult)
      requires Valid()
      modifies this, worklist, store, store.slots, store.roots
      ensures Valid() && Model() == CollectorModel.CollectFull(old(Model()))
      ensures old(phase).Idle? && StartFailure(old(Model())) != RuntimeResult.Success ==> r.result == StartFailure(old(Model()))
      ensures old(phase).Idle? && StartFailure(old(Model())) == RuntimeResult.Success ==>
                r.result == if overflowed then RuntimeResult.CapacityExceeded else RuntimeResult.Success
      ensures !old(phase).Idle? ==>
                r.result == if AdvanceFailure(old(Model())) != RuntimeResult.Success then AdvanceFailure(old(Model()))
                            else if overflowed then RuntimeResult.CapacityExceeded else RuntimeResult.Success
    {
      if phase.Idle? {
        var started := RequestCollection();
        if started != RuntimeResult.Success { return CollectionResult(started, phase, Work(0, 0, 0), false); }
      }
      r := Advance(UNLIMITED);
    }
  }
}
