/**
 `FObjectStore` over caller-owned fixed tables. Every method performs exactly one transition of
 ObjectStoreModel, so the run theorems of ObjectStoreProofs hold of this class.
 */
module ObjectStore {
  import opened Basics
  import opened ObjectStoreModel

  /** What one bounded destruction barrier reports. */
  datatype Mutation = Mutation(result: ObjectResult, slotsVisited: nat, objectsDestroyed: nat, pendingRemaining: nat)

  class ObjectStore {
    const configured: bool
    const slotSize: nat
    const slots: array<Slot>
    const roots: array<Handle>
    var occupied: nat
    var pending: nat
    var retired: nat
    var activeRoots: nat
    var payload: nat
    var cursor: nat
    var mutationLocked: bool
    var dispatchLocked: bool
    var collector: Option<nat>
    ghost var log: seq<Event>

    ghost predicate Valid()
      reads this
    {
      slots.Length <= UINT32_MAX && (configured ==> cursor < slots.Length)
    }

    ghost function Model(): Store
      reads this, slots, roots
    {
      Store(configured, slotSize, slots[..], RootTable(roots[..], activeRoots), occupied, pending, retired, payload, cursor,
            mutationLocked, dispatchLocked, collector, log)
    }

    /** Initializes the tables when the storage descriptor is well formed, and otherwise stays unconfigured. */
    constructor (slotCount: nat, rootCapacity: nat, slotSize: nat, descriptorValid: bool)
      requires slotCount <= UINT32_MAX
      requires descriptorValid ==> slotCount > 0
      ensures Valid() && configured == descriptorValid && fresh(slots) && fresh(roots)
      ensures Model() == Fresh(slotCount, rootCapacity, slotSize).(configured := descriptorValid)
    {
      configured := descriptorValid;
      this.slotSize := slotSize;
      slots := new Slot[slotCount](_ => EMPTY_SLOT);
      roots := new Handle[rootCapacity](_ => NO_HANDLE);
      occupied, pending, retired, activeRoots, payload, cursor := 0, 0, 0, 0, 0, 0;
      mutationLocked, dispatchLocked, collector, log := false, false, None, [];
      new;
      assert slots[..] == seq(slotCount, _ => EMPTY_SLOT);
      assert roots[..] == seq(rootCapacity, _ => NO_HANDLE);
    }

    predicate Locked()
      reads this
    {
      mutationLocked || dispatchLocked || collector.Some?
    }

    function FindMatchingSlot(h: Handle, allowPending: bool): (r: Option<nat>)
      reads this, slots, roots
      ensures r == ObjectStoreModel.FindMatchingSlot(Model(), h, allowPending)
    {
      if !configured || !h.IsValid() || h.index >= slots.Length then None
      else if (slots[h.index].state.Live? || (allowPending && slots[h.index].state.PendingDestroy?))
              && slots[h.index].generation == h.generation && slots[h.index].instance.Object?
      then Some(h.index) else None
    }

    function Resolve(h: Handle): (r: Object)
      reads this, slots, roots
      ensures r == ObjectStoreModel.Resolve(Model(), h)
    {
      var found := FindMatchingSlot(h, false);
      if found.Some? then slots[found.value].instance else NoObject
    }

    method FindVacantSlot() returns (r: Option<nat>)
      ensures r == FirstVacant(slots[..], 0)
    {
      var i := 0;
      while i < slots.Length
        invariant i <= slots.Length
        invariant FirstVacant(slots[..], i) == FirstVacant(slots[..], 0)
      {
        if slots[i].state.Vacant? { return Some(i); }
        i := i + 1;
      }
      return None;
    }

    method PublishObjectIntoSlot(i: nat, instance: Object) returns (h: Handle)
      requires Valid() && i < slots.Length && instance.Object?
      modifies this, slots
      ensures Valid() && Model() == Publish(old(Model()), i, instance)
      ensures h == Handle(i, NextPublishGeneration(old(slots[i].generation)))
    {
      var g := NextPublishGeneration(slots[i].generation);
      h := Handle(i, g);
      slots[i] := Slot(g, Live, instance, false);
      occupied := occupied + 1;
      payload := payload + instance.size;
      log := log + [Published(h, Identity(instance))];
    }

    method NewObject(known: bool, instance: Object) returns (result: ObjectResult, h: Handle)
      requires Valid() && instance.Object?
      modifies this, slots
      ensures Valid()
      ensures Creation(Model(), result, h) == ObjectStoreModel.NewObject(old(Model()), known, instance)
    {
      if Locked() { return LifecycleLocked, NO_HANDLE; }
      result := ValidateConstruction(known, instance);
      if result != Success { return result, NO_HANDLE; }
      var vacant := FindVacantSlot();
      if vacant.None? {
        return if retired == slots.Length then GenerationExhausted else CapacityExceeded, NO_HANDLE;
      }
      slots[vacant.value] := slots[vacant.value].(state := Constructing);
      mutationLocked := true;
      h := PublishObjectIntoSlot(vacant.value, instance);
      mutationLocked := false;
      assert slots[..] == old(slots[..])[vacant.value := Slot(h.generation, Live, instance, false)];
    }

    function ValidateConstruction(known: bool, instance: Object): (r: ObjectResult)
      requires instance.Object?
      reads this, slots, roots
      ensures r == ObjectStoreModel.ValidateConstruction(Model(), known, instance)
    {
      if !configured then UnsupportedObjectLayout
      else if !known then UnknownClass
      else if instance.size > slotSize then UnsupportedObjectLayout
      else Success
    }

    // ---------------------------------------------------------------- roots

    method AddRoot(h: Handle) returns (result: ObjectResult)
      requires Valid()
      modifies this, roots
      ensures Valid() && (Model(), result) == ObjectStoreModel.AddRoot(old(Model()), h)
    {
      if Locked() { return LifecycleLocked; }
      var found := FindMatchingSlot(h, true);
      if found.None? { return StaleHandle; }
      if slots[found.value].state.PendingDestroy? { return AlreadyPendingDestroy; }
      var r := 0;
      while r < roots.Length
        invariant r <= roots.Length && Model() == old(Model())
        invariant FirstFreeRoot(roots[..], r) == FirstFreeRoot(roots[..], 0)
      {
        if !roots[r].IsValid() {
          roots[r] := h;
          activeRoots := activeRoots + 1;
          return Success;
        }
        r := r + 1;
      }
      return RootCapacityExceeded;
    }

    method RemoveRoot(h: Handle) returns (result: ObjectResult)
      requires Valid()
      modifies this`activeRoots, roots
      ensures Valid() && (Model(), result) == ObjectStoreModel.RemoveRoot(old(Model()), h)
    {
      if !h.IsValid() || !configured { return StaleHandle; }
      var r := 0;
      while r < roots.Length
        invariant r <= roots.Length && Model() == old(Model())
        invariant FirstRoot(roots[..], h, r) == FirstRoot(roots[..], h, 0)
      {
        if roots[r] == h {
          roots[r] := NO_HANDLE;
          if activeRoots > 0 { activeRoots := activeRoots - 1; }
          return Success;
        }
        r := r + 1;
      }
      return StaleHandle;
    }

    /** Destroying a strong pointer releases its token; an object's destructor does so for each it owns. */
    method ReleaseRoots(handles: seq<Handle>)
      requires Valid()
      modifies this`activeRoots, roots
      ensures Valid() && Model() == ObjectStoreModel.ReleaseRoots(old(Model()), handles)
    {
      var k := 0;
      while k < |handles|
        invariant k <= |handles| && Valid()
        invariant Model() == ObjectStoreModel.ReleaseRoots(old(Model()), handles[..k])
      {
        assert handles[..k + 1][..k] == handles[..k];
        var _ := RemoveRoot(handles[k]);
        k := k + 1;
      }
      assert handles[..|handles|] == handles;
    }

    method RemoveAllRoots(h: Handle)
      requires Valid()
      modifies this`activeRoots, roots
      ensures Valid() && Model() == ObjectStoreModel.RemoveAllRoots(old(Model()), h)
    {
      ghost var was := roots[..];
      ghost var count := activeRoots;
      var r := 0;
      while r < roots.Length
        invariant r <= roots.Length && Valid()
        invariant forall k :: 0 <= k < r ==> roots[k] == if was[k] == h then NO_HANDLE else was[k]
        invariant forall k :: r <= k < roots.Length ==> roots[k] == was[k]
        invariant activeRoots == if count >= multiset(was[..r])[h] then count - multiset(was[..r])[h] else 0
      {
        PrefixOccurrences(was, r, h);
        if roots[r] == h {
          roots[r] := NO_HANDLE;
          if activeRoots > 0 { activeRoots := activeRoots - 1; }
        }
        r := r + 1;
      }
      assert was[..r] == was;
      assert roots[..] == ClearHandle(was, h);
    }

    // ---------------------------------------------------------------- destruction

    method MarkPendingDestroy(h: Handle) returns (result: ObjectResult)
      requires Valid()
      modifies this, slots
      ensures Valid() && (Model(), result) == ObjectStoreModel.MarkPendingDestroy(old(Model()), h)
    {
      if Locked() { return LifecycleLocked; }
      var found := FindMatchingSlot(h, true);
      if found.None? { return StaleHandle; }
      var i := found.value;
      if slots[i].state.PendingDestroy? { return AlreadyPendingDestroy; }
      slots[i] := slots[i].(state := PendingDestroy, marked := false);
      pending := pending + 1;
      return Success;
    }

    /** What an object's own code does to its fields, outside of collections. */
    method Assign(h: Handle, references: seq<Handle>)
      requires Valid()
      modifies slots
      ensures Valid() && Model() == Retarget(old(Model()), h, references)
    {
      var found := FindMatchingSlot(h, true);
      if collector.None? && found.Some? {
        slots[found.value] := slots[found.value].(instance := slots[found.value].instance.(references := references));
      }
    }

    method RunDestructionCallbacks(i: nat, h: Handle)
      requires Valid() && i < slots.Length && slots[i].instance.Object?
      modifies this`activeRoots, slots, roots
      ensures Valid() && Model() == ObjectStoreModel.RunDestructionCallbacks(old(Model()), i, h)
    {
      slots[i] := slots[i].(state := Destroying);
      ReleaseRoots(slots[i].instance.strong);
      RemoveAllRoots(h);
    }

    method RecycleOrRetireSlot(i: nat)
      requires i < slots.Length
      modifies this`retired, slots
      ensures Model() == ObjectStoreModel.RecycleOrRetireSlot(old(Model()), i)
    {
      if slots[i].generation < UINT32_MAX {
        slots[i] := Slot(slots[i].generation + 1, Vacant, NoObject, false);
      } else {
        slots[i] := Slot(slots[i].generation, Retired, NoObject, false);
        retired := retired + 1;
      }
    }

    method UpdateOccupancyCounters(wasPending: bool, size: nat)
      modifies this`occupied, this`pending, this`payload
      ensures Model() == ObjectStoreModel.UpdateOccupancyCounters(old(Model()), wasPending, size)
    {
      if occupied > 0 { occupied := occupied - 1; }
      if wasPending && pending > 0 { pending := pending - 1; }
      if payload >= size { payload := payload - size; }
    }

    method DestroySlot(i: nat) returns (done: bool)
      requires Valid()
      modifies this, slots, roots
      ensures Valid() && Model() == ObjectStoreModel.DestroySlot(old(Model()), i)
      ensures done == (i < slots.Length && Destroyable(old(slots[..])[i]))
    {
      hide ObjectStoreModel.RunDestructionCallbacks, ObjectStoreModel.RecycleOrRetireSlot,
           ObjectStoreModel.UpdateOccupancyCounters;
      if i >= slots.Length || !Destroyable(slots[i]) { return false; }
      var slot := slots[i];
      var h := Handle(i, slot.generation);
      var wasLocked := mutationLocked;
      mutationLocked := true;
      RunDestructionCallbacks(i, h);
      RecycleOrRetireSlot(i);
      UpdateOccupancyCounters(slot.state.PendingDestroy?, slot.instance.size);
      log := log + [Destroyed(h)];
      mutationLocked := wasLocked;
      return true;
    }

    /** One visit of the barrier: the cursor moves on, and what it passes is destroyed if it is pending. */
    method VisitNextSlot() returns (done: bool)
      requires Valid() && configured && cursor < slots.Length
      modifies this, slots, roots
      ensures Valid() && configured && Model() == ScanOne(old(Model()))
      ensures done == old(slots[cursor].state.PendingDestroy?)
    {
      hide ObjectStoreModel.DestroySlot;
      var i := cursor;
      cursor := if cursor + 1 == slots.Length then 0 else cursor + 1;
      done := slots[i].state.PendingDestroy?;
      if done { var _ := DestroySlot(i); }
    }

    method ApplyPendingDestroy(budget: nat) returns (m: Mutation)
      requires Valid()
      modifies this, slots, roots
      ensures Valid() && Model() == ObjectStoreModel.ApplyPendingDestroy(old(Model()), budget)
      ensures m.pendingRemaining == pending
      ensures m.result == if old(Locked()) then LifecycleLocked else if configured then Success else UnsupportedObjectLayout
      ensures m.slotsVisited <= ClippedBudget(old(Model()), budget)
      ensures m.objectsDestroyed == if m.result == Success then ScanDestroys(old(Model()), ClippedBudget(old(Model()), budget)) else 0
      ensures m.result == Success && m.slotsVisited < ClippedBudget(old(Model()), budget) ==> pending == 0
    {
      hide ScanOne;
      if Locked() { return Mutation(LifecycleLocked, 0, 0, pending); }
      if !configured || budget == 0 || pending == 0 {
        return Mutation(if configured then Success else UnsupportedObjectLayout, 0, 0, pending);
      }
      var limit := if budget < slots.Length then budget else slots.Length;
      var visited, destroyed := 0, 0;
      while visited < limit && pending > 0
        invariant visited <= limit && Valid() && limit == ClippedBudget(old(Model()), budget)
        invariant Scan(Model(), limit - visited) == Scan(old(Model()), limit)
        invariant destroyed + ScanDestroys(Model(), limit - visited) == ScanDestroys(old(Model()), limit)
        invariant configured
        decreases limit - visited
      {
        visited := visited + 1;
        var done := VisitNextSlot();
        if done { destroyed := destroyed + 1; }
      }
      return Mutation(Success, visited, destroyed, pending);
    }

    // ---------------------------------------------------------------- locks and collector access

    method TryBeginDispatch() returns (acquired: bool)
      modifies this`dispatchLocked
      ensures Model() == BeginDispatch(old(Model())) && acquired == !old(Locked())
    {
      if Locked() { return false; }
      dispatchLocked := true;
      return true;
    }

    method EndDispatch()
      modifies this`dispatchLocked
      ensures Model() == ObjectStoreModel.EndDispatch(old(Model()))
    {
      dispatchLocked := false;
    }

    method CollectorTryBegin(id: nat) returns (acquired: bool)
      modifies this`collector
      ensures Model() == BeginCollection(old(Model()), id)
      ensures acquired == !(old(mutationLocked) || old(collector).Some?)
    {
      if mutationLocked || collector.Some? { return false; }
      collector := Some(id);
      return true;
    }

    method CollectorEnd(id: nat)
      modifies this`collector
      ensures Model() == EndCollection(old(Model()), id)
    {
      if collector == Some(id) { collector := None; }
    }

    method CollectorSetMarked(i: nat, marked: bool)
      modifies slots
      ensures Model() == SetMarked(old(Model()), i, marked)
    {
      if i < slots.Length && IsOccupied(slots[i]) { slots[i] := slots[i].(marked := marked); }
    }

    method CollectorReclaim(h: Handle) returns (done: bool)
      requires Valid()
      modifies this, slots, roots
      ensures Valid() && Model() == Reclaim(old(Model()), h) && done == ObjectStoreModel.FindMatchingSlot(old(Model()), h, true).Some?
    {
      var found := FindMatchingSlot(h, true);
      if found.None? { return false; }
      done := DestroySlot(h.index);
    }

    // ---------------------------------------------------------------- transactional construction

    /** Undoes one provisional object: its destructor runs and its slot becomes vacant again. */
    method ReleaseReservation(r: Reservation)
      requires Valid() && r.index < slots.Length && r.instance.Object?
      modifies this`activeRoots, slots, roots
      ensures Valid() && Model() == Release(old(Model()), r)
    {
      ReleaseRoots(r.instance.strong);
      slots[r.index] := slots[r.index].(instance := NoObject, marked := false, state := Vacant);
    }

    /** Destroys the provisional actor first and then its components in reverse, hiding nothing any more. */
    method Rollback(reserved: seq<Reservation>)
      requires Valid() && WellReserved(slots.Length, reserved)
      modifies this`activeRoots, slots, roots
      ensures Valid() && Model() == ObjectStoreModel.Rollback(old(Model()), reserved)
    {
      if reserved == [] { return; }
      ReleaseReservation(reserved[0]);
      ghost var base := Model();
      var rest := reserved[1..];
      var k := |rest|;
      assert rest[..k] == rest;
      while k > 0
        invariant 0 <= k <= |rest| && Valid() && WellReserved(slots.Length, rest)
        invariant ReleaseReversed(Model(), rest[..k]) == ReleaseReversed(base, rest)
      {
        ghost var before := Model();
        assert rest[..k][..k - 1] == rest[..k - 1] && rest[..k][|rest[..k]| - 1] == rest[k - 1];
        ReleaseReservation(rest[k - 1]);
        assert ReleaseReversed(before, rest[..k]) == ReleaseReversed(Release(before, rest[k - 1]), rest[..k - 1]);
        k := k - 1;
      }
    }

    /** One reservation: hides the first vacant slot, or retains why there is none. */
    method ReserveSlot(ghost t: Transaction, reserved: seq<Reservation>, instance: Object)
      returns (error: ObjectResult, more: seq<Reservation>)
      requires t == Transaction(Model(), reserved, Success)
      modifies slots
      ensures Transaction(Model(), more, error) == ReserveObject(t, instance)
    {
      var vacant := FindVacantSlot();
      if vacant.None? {
        return if retired == slots.Length then GenerationExhausted else CapacityExceeded, reserved;
      }
      slots[vacant.value] := slots[vacant.value].(state := Constructing);
      return Success, reserved + [Reservation(vacant.value, instance)];
    }

    /** Serves the default subobjects the actor's constructor asks for, keeping the first error. */
    method CreateDefaultSubobjects(ghost t: Transaction, requests: seq<Request>, reserved: seq<Reservation>)
      returns (error: ObjectResult, more: seq<Reservation>)
      requires Valid() && AllObjects(requests) && t == Transaction(Model(), reserved, Success)
      modifies slots
      ensures Valid() && Transaction(Model(), more, error) == ReserveComponents(t, requests)
    {
      error, more := Success, reserved;
      var k := 0;
      while k < |requests|
        invariant k <= |requests| && Valid()
        invariant Transaction(Model(), more, error) == ReserveComponents(t, requests[..k])
      {
        assert requests[..k + 1][..k] == requests[..k];
        if error == Success {
          if |more| > MAX_COMPONENTS {
            error := CapacityExceeded;
          } else {
            error := ValidateConstruction(requests[k].known, requests[k].instance);
            if error == Success {
              error, more := ReserveSlot(ReserveComponents(t, requests[..k]), more, requests[k].instance);
            }
          }
        }
        k := k + 1;
      }
      assert requests[..k] == requests;
    }

    method PublishComponents(reserved: seq<Reservation>)
      requires Valid() && WellReserved(slots.Length, reserved)
      modifies this, slots
      ensures Valid() && Model() == PublishAll(old(Model()), reserved)
    {
      var k := 0;
      while k < |reserved|
        invariant k <= |reserved| && Valid()
        invariant Model() == PublishAll(old(Model()), reserved[..k])
      {
        assert reserved[..k + 1][..k] == reserved[..k];
        var _ := PublishObjectIntoSlot(reserved[k].index, reserved[k].instance);
        k := k + 1;
      }
      assert reserved[..k] == reserved;
    }

    /** The whole transaction: reserve the actor, serve its constructor's requests, then publish all or none. */
    method ConstructActor(known: bool, actor: Object, requests: seq<Request>) returns (result: ObjectResult, h: Handle)
      requires Valid() && actor.Object? && AllObjects(requests)
      modifies this, slots, roots
      ensures Valid() && Creation(Model(), result, h) == ObjectStoreModel.ConstructActor(old(Model()), known, actor, requests)
    {
      if Locked() { return LifecycleLocked, NO_HANDLE; }
      result := ValidateConstruction(known, actor);
      if result != Success { return result, NO_HANDLE; }
      ghost var s := Model();
      var reserved;
      result, reserved := ReserveSlot(Transaction(s, [], Success), [], actor);
      if result != Success { return result, NO_HANDLE; }
      h := Handle(reserved[0].index, NextPublishGeneration(slots[reserved[0].index].generation));
      ghost var started := OpenTransaction(s, actor);
      ReservationsStayInRange(started, requests);
      result, reserved := CreateDefaultSubobjects(started, requests, reserved);
      if result != Success {
        Rollback(reserved);
        return result, NO_HANDLE;
      }
      PublishComponents(reserved[1..]);
      var _ := PublishObjectIntoSlot(reserved[0].index, reserved[0].instance);
    }
  }

  lemma PrefixOccurrences(roots: seq<Handle>, r: nat, h: Handle)
    requires r < |roots|
    ensures multiset(roots[..r + 1])[h] == multiset(roots[..r])[h] + if roots[r] == h then 1 else 0
  {
    assert roots[..r + 1] == roots[..r] + [roots[r]];
  }
}
