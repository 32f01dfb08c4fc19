/**
 `TDeferredActorSpawnStorage` over fixed arrays. The queue writes carry no bounds check, as in the original: that
 each of them is in bounds is proved from the ticket invariant. Every method performs one SpawnStorageModel step.
 */
module DeferredActorSpawnStorage {
  import opened Basics
  import opened SpawnStorageModel
  import opened SpawnStorageProofs

  lemma RoomForSlot(s: Storage, ts: seq<Ticket>, state: SlotState, i: nat)
    requires Distinct(ts) && AllIn(s, ts, state) && i < |s.slots| && s.slots[i].state != state
    ensures |ts| < |s.slots|
  {
    DistinctSlots(s, ts, state);
    forall k | 0 <= k < |ts| ensures ts[k].index != i { assert InState(s, ts[k], state); }
    BoundedSetSize(Indices(ts) + {i}, |s.slots|);
  }

  lemma QueueFits(s: Storage, ts: seq<Ticket>, state: SlotState)
    requires Distinct(ts) && AllIn(s, ts, state)
    ensures |ts| <= |s.slots|
  {
    DistinctSlots(s, ts, state);
    BoundedSetSize(Indices(ts), |s.slots|);
  }

  lemma {:induction false} StillGrows(s: Storage, ts: seq<Ticket>, state: SlotState, k: nat)
    requires k <= |ts|
    ensures |Still(s, ts, state, k)| <= |Still(s, ts, state, |ts|)|
    decreases |ts| - k
  {
    if k < |ts| { StillGrows(s, ts, state, k + 1); }
  }

  lemma {:induction false} ReserveFindsRoom(s: Storage, i: nat)
    requires StorageInv(s) && i <= |s.slots|
    ensures Reserve(s, i).1.Some? ==> |s.factory| < |s.slots|
    decreases |s.slots| - i
  {
    hide StorageInv;
    if i < |s.slots| {
      var x := s.slots[i];
      if !IsReusable(x) {
        ReserveFindsRoom(s, i + 1);
      } else if x.generation == UINT32_MAX {
        RetireKeeps(s, i);
        ReserveFindsRoom(s.(slots := s.slots[i := x.(state := Retired)]), i + 1);
      } else {
        LiveLanes(s);
        RoomForSlot(s, s.factory, Queued, i);
      }
    }
  }

  lemma LiveLanes(s: Storage)
    requires StorageInv(s)
    ensures Distinct(s.factory) && AllIn(s, s.factory, Queued) && Distinct(s.publish) && AllIn(s, s.publish, Constructed)
    ensures Distinct(s.sealedPublish)
  {
  }

  class DeferredActorSpawnStorage {
    const slots: array<SpawnSlot>
    const factoryQueue: array<Ticket>
    const publishQueue: array<Ticket>
    const sealedFactoryQueue: array<Ticket>
    const sealedPublishQueue: array<Ticket>
    var factoryCount: nat
    var publishCount: nat
    var sealedFactoryCount: nat
    var sealedPublishCount: nat
    ghost var activated: seq<Ticket>
    ghost var invoked: seq<Ticket>
    ghost var destroyed: seq<Ticket>
    ghost var dropped: seq<Ticket>

    ghost const Repr: set<object>

    ghost predicate Valid()
      reads this
    {
      && Repr == {this, slots, factoryQueue, publishQueue, sealedFactoryQueue, sealedPublishQueue}
      && factoryQueue.Length == slots.Length && publishQueue.Length == slots.Length
      && sealedFactoryQueue.Length == slots.Length && sealedPublishQueue.Length == slots.Length
      && factoryCount <= slots.Length && publishCount <= slots.Length
      && sealedFactoryCount <= slots.Length && sealedPublishCount <= slots.Length
      && factoryQueue != publishQueue && factoryQueue != sealedFactoryQueue && factoryQueue != sealedPublishQueue
      && publishQueue != sealedFactoryQueue && publishQueue != sealedPublishQueue && sealedFactoryQueue != sealedPublishQueue
    }

    ghost function Model(): Storage
      reads this, slots, factoryQueue, publishQueue, sealedFactoryQueue, sealedPublishQueue
      requires Valid()
    {
      Storage(slots[..], factoryQueue[..factoryCount], publishQueue[..publishCount],
              sealedFactoryQueue[..sealedFactoryCount], sealedPublishQueue[..sealedPublishCount],
              activated, invoked, destroyed, dropped)
    }

    constructor (maxRequests: nat)
      ensures Valid() && Model() == Fresh(maxRequests) && fresh(Repr)
    {
      slots := new SpawnSlot[maxRequests](_ => FREE_SLOT);
      factoryQueue := new Ticket[maxRequests](_ => Ticket(0, 0));
      publishQueue := new Ticket[maxRequests](_ => Ticket(0, 0));
      sealedFactoryQueue := new Ticket[maxRequests](_ => Ticket(0, 0));
      sealedPublishQueue := new Ticket[maxRequests](_ => Ticket(0, 0));
      factoryCount, publishCount, sealedFactoryCount, sealedPublishCount := 0, 0, 0, 0;
      activated, invoked, destroyed, dropped := [], [], [], [];
      Repr := {this, slots, factoryQueue, publishQueue, sealedFactoryQueue, sealedPublishQueue};
      new;
      assert slots[..] == seq(maxRequests, _ => FREE_SLOT);
    }

    function IsHandleSlotMatch(t: Ticket): (r: bool)
      reads this, slots, factoryQueue, publishQueue, sealedFactoryQueue, sealedPublishQueue
      requires Valid()
      ensures r == Names(Model(), t)
    {
      t.IsValid() && t.index < slots.Length && slots[t.index].generation == t.generation
    }

    method PendingCount() returns (count: nat)
      requires Valid()
      ensures count == SpawnStorageModel.PendingCount(Model())
    {
      count := 0;
      for i := 0 to slots.Length
        invariant count == Count(slots[..i], IsPending)
      {
        assert slots[..i + 1][..i] == slots[..i];
        if IsPending(slots[i]) { count := count + 1; }
      }
      assert slots[..slots.Length] == slots[..];
    }

    // ---------------------------------------------------------------- requests

    method Reserve() returns (t: Option<Ticket>)
      requires Valid()
      modifies slots
      ensures Valid() && (Model(), t) == SpawnStorageModel.Reserve(old(Model()), 0)
    {
      var i := 0;
      while i < slots.Length
        invariant i <= slots.Length
        invariant SpawnStorageModel.Reserve(old(Model()), 0) == SpawnStorageModel.Reserve(Model(), i)
      {
        if IsReusable(slots[i]) {
          if slots[i].generation == UINT32_MAX {
            ghost var before := slots[..];
            slots[i] := slots[i].(state := Retired);
            assert slots[..] == before[i := before[i].(state := Retired)];
          } else {
            ghost var before := slots[..];
            slots[i] := SpawnSlot(slots[i].generation + 1, Queued, SUCCEEDED, None, false);
            assert slots[..] == before[i := slots[i]];
            return Some(Ticket(i, slots[i].generation));
          }
        }
        i := i + 1;
      }
      t := None;
    }

    method Activate(t: Ticket)
      requires Valid() && factoryCount < slots.Length
      modifies this`factoryCount, this`activated, slots, factoryQueue
      ensures Valid() && Model() == SpawnStorageModel.Activate(old(Model()), t)
    {
      if !IsHandleSlotMatch(t) || !slots[t.index].state.Queued? { return; }
      slots[t.index] := slots[t.index].(active := true);
      factoryQueue[factoryCount] := t;
      factoryCount := factoryCount + 1;
      activated := activated + [t];
      assert factoryQueue[..factoryCount] == old(factoryQueue[..factoryCount]) + [t];
    }

    /** The request path of `SpawnActor`: the queue always has room for a slot that could be reserved. */
    method Submit() returns (t: Option<Ticket>)
      requires Valid() && StorageInv(Model())
      modifies this`factoryCount, this`activated, slots, factoryQueue
      ensures Valid() && StorageInv(Model()) && (Model(), t) == SpawnStorageModel.Submit(old(Model()))
    {
      hide StorageInv;
      ReserveKeeps(Model(), 0);
      ReserveFindsRoom(Model(), 0);
      t := Reserve();
      if t.None? { return; }
      Activate(t.value);
    }

    // ---------------------------------------------------------------- the barrier

    method CopyQueue(source: array<Ticket>, target: array<Ticket>, count: nat)
      requires count <= source.Length && count <= target.Length && source != target
      modifies target
      ensures target[..count] == source[..count]
    {
      for i := 0 to count
        invariant target[..i] == source[..i]
      {
        target[i] := source[i];
      }
    }

    method SealBarrier()
      requires Valid()
      modifies this`factoryCount, this`publishCount, this`sealedFactoryCount, this`sealedPublishCount,
               sealedFactoryQueue, sealedPublishQueue
      ensures Valid() && Model() == SpawnStorageModel.SealBarrier(old(Model()))
    {
      CopyQueue(factoryQueue, sealedFactoryQueue, factoryCount);
      sealedFactoryCount := factoryCount;
      factoryCount := 0;
      CopyQueue(publishQueue, sealedPublishQueue, publishCount);
      sealedPublishCount := publishCount;
      publishCount := 0;
    }

    method DestroyFactory(i: nat)
      requires Valid() && i < slots.Length
      modifies this`destroyed, slots
      ensures Valid() && Model() == SpawnStorageModel.DestroyFactory(old(Model()), i)
    {
      if slots[i].active {
        destroyed := destroyed + [Ticket(i, slots[i].generation)];
        slots[i] := slots[i].(active := false);
        assert slots[..] == old(slots[..])[i := slots[i]];
      }
    }

    method CompleteFailure(i: nat, code: nat)
      requires Valid() && i < slots.Length
      modifies this`destroyed, slots
      ensures Valid() && Model() == SpawnStorageModel.CompleteFailure(old(Model()), i, code)
    {
      DestroyFactory(i);
      ghost var before := slots[..];
      slots[i] := slots[i].(actor := None, result := code, state := Failed);
      assert slots[..] == before[i := slots[i]];
    }

    /** Until publication starts, every sealed publish ticket still waits, so there is room for one more construction. */
    method Construct(t: Ticket, outcome: Outcome)
      requires Valid() && StorageInv(Model()) && AllIn(Model(), Model().sealedPublish, Constructed)
      modifies this`destroyed, this`invoked, this`sealedPublishCount, slots, sealedPublishQueue
      ensures Valid() && Model() == SpawnStorageModel.Construct(old(Model()), t, outcome)
    {
      hide StorageInv;
      if !IsHandleSlotMatch(t) || !slots[t.index].state.Queued? || !slots[t.index].active { return; }
      if outcome.NoDescriptor? {
        CompleteFailure(t.index, if outcome.code == SUCCEEDED then UNKNOWN_CLASS else outcome.code);
        return;
      }
      LiveLanes(Model());
      RoomForSlot(Model(), Model().sealedPublish, Constructed, t.index);
      invoked := invoked + [t];
      DestroyFactory(t.index);
      if outcome.BuildFailed? {
        CompleteFailure(t.index, outcome.code);
        return;
      }
      ghost var before := slots[..];
      slots[t.index] := slots[t.index].(actor := Some(outcome.actor), result := SUCCEEDED, state := Constructed);
      sealedPublishQueue[sealedPublishCount] := t;
      sealedPublishCount := sealedPublishCount + 1;
      assert slots[..] == before[t.index := slots[t.index]];
      assert sealedPublishQueue[..sealedPublishCount] == old(sealedPublishQueue[..sealedPublishCount]) + [t];
    }

    function GetConstructedActor(t: Ticket): (r: Option<nat>)
      reads this, slots, factoryQueue, publishQueue, sealedFactoryQueue, sealedPublishQueue
      requires Valid()
      ensures r == ConstructedActor(Model(), t)
    {
      if IsHandleSlotMatch(t) && slots[t.index].state.Constructed? then slots[t.index].actor else None
    }

    /** The public answer about a ticket; a constructed actor stays hidden behind the answer that it waits. */
    method GetStatus(t: Ticket) returns (r: Status)
      requires Valid()
      ensures r == SpawnStorageModel.GetStatus(Model(), t)
    {
      var found := IsHandleSlotMatch(t);
      if !found { return NoStatus; }
      var x := slots[t.index];
      match x.state {
        case Queued => r := Waiting;
        case Constructed => r := Waiting;
        case Spawned => r := Live(x.actor);
        case Failed => r := Lost(x.result);
        case Released => r := Gone(x.result);
        case _ => r := NoStatus;
      }
    }

    method CompletePublish(t: Ticket)
      requires Valid()
      modifies slots
      ensures Valid() && Model() == SpawnStorageModel.CompletePublish(old(Model()), t)
    {
      if IsHandleSlotMatch(t) && slots[t.index].state.Constructed? {
        slots[t.index] := slots[t.index].(state := Spawned);
        assert slots[..] == old(slots[..])[t.index := slots[t.index]];
      }
    }

    ghost method SkipPublish(t: Ticket)
      requires Valid()
      modifies this`dropped
      ensures Valid() && Model() == SpawnStorageModel.SkipPublish(old(Model()), t)
    {
      dropped := dropped + [t];
    }

    /** Requeues every ticket still in `state` from a sealed queue; the invariant leaves room for all of them. */
    method Requeue(sealed: array<Ticket>, sealedCount: nat, target: array<Ticket>, count: nat, state: SlotState)
      returns (total: nat)
      requires Valid() && sealed != target && sealedCount <= sealed.Length && count <= target.Length
      requires target in {factoryQueue, publishQueue}
      requires count + |Still(Model(), sealed[..sealedCount], state, sealedCount)| <= target.Length
      modifies target
      ensures count <= total <= target.Length
      ensures target[..total] == old(target[..count]) + Still(old(Model()), sealed[..sealedCount], state, sealedCount)
    {
      total := count;
      ghost var s, ts := Model(), sealed[..sealedCount];
      for i := 0 to sealedCount
        invariant count <= total <= target.Length && sealed[..sealedCount] == ts
        invariant target[..total] == old(target[..count]) + Still(s, ts, state, i)
      {
        StillGrows(s, ts, state, i + 1);
        var t := sealed[i];
        assert t == ts[i];
        if t.IsValid() && t.index < slots.Length && slots[t.index].generation == t.generation && slots[t.index].state == state {
          target[total] := t;
          total := total + 1;
          assert target[..total] == target[..total - 1] + [t];
        }
      }
    }

    method RestoreUnconstructed()
      requires Valid() && StorageInv(Model())
      modifies this`factoryCount, this`sealedFactoryCount, factoryQueue
      ensures Valid() && StorageInv(Model()) && Model() == SpawnStorageModel.RestoreUnconstructed(old(Model()))
    {
      hide StorageInv;
      ghost var s := Model();
      RestoreKeeps(s);
      LiveLanes(SpawnStorageModel.RestoreUnconstructed(s));
      QueueFits(SpawnStorageModel.RestoreUnconstructed(s), s.factory + Still(s, s.sealedFactory, Queued, |s.sealedFactory|), Queued);
      factoryCount := Requeue(sealedFactoryQueue, sealedFactoryCount, factoryQueue, factoryCount, Queued);
      sealedFactoryCount := 0;
    }

    method RestoreUnpublished()
      requires Valid() && StorageInv(Model())
      modifies this`publishCount, this`sealedPublishCount, publishQueue
      ensures Valid() && StorageInv(Model()) && Model() == SpawnStorageModel.RestoreUnpublished(old(Model()))
    {
      hide StorageInv;
      ghost var s := Model();
      RestoreKeeps(s);
      LiveLanes(SpawnStorageModel.RestoreUnpublished(s));
      QueueFits(SpawnStorageModel.RestoreUnpublished(s), s.publish + Still(s, s.sealedPublish, Constructed, |s.sealedPublish|), Constructed);
      publishCount := Requeue(sealedPublishQueue, sealedPublishCount, publishQueue, publishCount, Constructed);
      sealedPublishCount := 0;
    }

    method AbortSealedBatch()
      requires Valid()
      modifies this`destroyed, this`factoryCount, this`publishCount, this`sealedFactoryCount, this`sealedPublishCount, slots
      ensures Valid() && Model() == SpawnStorageModel.AbortSealedBatch(old(Model()))
    {
      for i := 0 to slots.Length
        invariant Valid() && Model() == AbortUpTo(old(Model()), i)
      {
        AbortSlot(i);
      }
      factoryCount, publishCount, sealedFactoryCount, sealedPublishCount := 0, 0, 0, 0;
    }

    method AbortSlot(i: nat)
      requires Valid() && i < slots.Length
      modifies this`destroyed, slots
      ensures Valid()
      ensures Model() == if IsPending(old(slots[i])) then SpawnStorageProofs.AbortSlot(old(Model()), i) else old(Model())
    {
      if !IsPending(slots[i]) { return; }
      if slots[i].state.Queued? { DestroyFactory(i); }
      ghost var before := slots[..];
      slots[i] := slots[i].(actor := None, result := LIFECYCLE_LOCKED, state := Failed);
      assert slots[..] == before[i := slots[i]];
    }

    method ReleaseActor(actor: nat)
      requires Valid()
      modifies slots
      ensures Valid() && Model() == SpawnStorageModel.ReleaseActor(old(Model()), actor)
    {
      var i := 0;
      while i < slots.Length
        invariant i <= slots.Length && slots[..] == old(slots[..])
        invariant FindSpawned(slots[..], actor, 0) == FindSpawned(slots[..], actor, i)
      {
        if slots[i].state.Spawned? && slots[i].actor == Some(actor) {
          slots[i] := slots[i].(actor := None, state := Released);
          assert slots[..] == old(slots[..])[i := slots[i]];
          return;
        }
        i := i + 1;
      }
    }
  }
}
