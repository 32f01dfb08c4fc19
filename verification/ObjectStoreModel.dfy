/**
 The managed-object store as a state machine: one pure transition per public operation of
 `FObjectStore`, over a snapshot of every field the C++ class keeps. The class in ObjectStore.dfy
 is proved to perform exactly these transitions; ObjectStoreProofs.dfy proves what they keep.
 */
module ObjectStoreModel {
  import opened Basics

  const INVALID_INDEX: int := UINT32_MAX

  datatype Handle = Handle(index: nat, generation: nat) {
    predicate IsValid() { index != INVALID_INDEX && generation != 0 }
  }

  const NO_HANDLE := Handle(INVALID_INDEX, 0)

  /** A managed object: its payload size, the handles its visitor reports (in order) and the root
      tokens its strong pointers own, which its destructor releases. */
  datatype Object = NoObject | Object(id: nat, size: nat, references: seq<Handle>, strong: seq<Handle>)

  datatype SlotState = Vacant | Constructing | Live | PendingDestroy | Destroying | Retired

  datatype Slot = Slot(generation: nat, state: SlotState, instance: Object, marked: bool)

  const EMPTY_SLOT := Slot(0, Vacant, NoObject, false)

  datatype ObjectResult =
    | Success | CapacityExceeded | UnsupportedObjectLayout | UnknownClass | RootCapacityExceeded
    | StaleHandle | AlreadyPendingDestroy | LifecycleLocked | GenerationExhausted

  /** What stays of an object while its references change. */
  function Identity(o: Object): Object { if o.Object? then o.(references := []) else o }

  /** What the outside world can observe of lifetimes; the proofs reason about this history. */
  datatype Event = Published(handle: Handle, identity: Object) | Destroyed(handle: Handle)

  /** The explicit roots: one independently owned token per entry, and how many entries are taken. */
  datatype RootTable = RootTable(entries: seq<Handle>, active: nat)

  datatype Store = Store(
    configured: bool,
    slotSize: nat,
    slots: seq<Slot>,
    roots: RootTable,
    occupied: nat,
    pending: nat,
    retired: nat,
    payload: nat,
    cursor: nat,
    mutationLocked: bool,
    dispatchLocked: bool,
    collector: Option<nat>,
    log: seq<Event>)
  {
    predicate Locked() { mutationLocked || dispatchLocked || collector.Some? }
  }

  predicate IsOccupied(s: Slot) { s.state.Live? || s.state.PendingDestroy? || s.state.Destroying? }

  predicate IsPending(s: Slot) { s.state.PendingDestroy? || s.state.Destroying? }

  predicate IsRetired(s: Slot) { s.state.Retired? }

  predicate IsRoot(h: Handle) { h.IsValid() }

  function PayloadOf(s: Slot): nat { if s.instance.Object? then s.instance.size else 0 }

  function MinusOne(n: nat): nat { if n > 0 then n - 1 else 0 }

  // ------------------------------------------------------------------ lookups

  /** The slot a handle names, if it holds a matching live (or, on request, pending) instance. */
  function FindMatchingSlot(s: Store, h: Handle, allowPending: bool): Option<nat> {
    if !s.configured || !h.IsValid() || h.index >= |s.slots| then None
    else
      var slot := s.slots[h.index];
      if (slot.state.Live? || (allowPending && slot.state.PendingDestroy?))
         && slot.generation == h.generation && slot.instance.Object?
      then Some(h.index) else None
  }

  function Resolve(s: Store, h: Handle): Object {
    match FindMatchingSlot(s, h, false)
    case Some(i) => s.slots[i].instance
    case None => NoObject
  }

  /** The first vacant slot at or after `from`. */
  function FirstVacant(slots: seq<Slot>, from: nat): (r: Option<nat>)
    requires from <= |slots|
    ensures r.Some? ==> from <= r.value < |slots| && slots[r.value].state.Vacant?
    ensures r.Some? ==> forall k :: from <= k < r.value ==> !slots[k].state.Vacant?
    ensures r.None? ==> forall k :: from <= k < |slots| ==> !slots[k].state.Vacant?
    decreases |slots| - from
  {
    if from == |slots| then None
    else if slots[from].state.Vacant? then Some(from)
    else FirstVacant(slots, from + 1)
  }

  /** The first root entry at or after `from` that equals `h`. */
  function FirstRoot(roots: seq<Handle>, h: Handle, from: nat): (r: Option<nat>)
    requires from <= |roots|
    ensures r.Some? ==> from <= r.value < |roots| && roots[r.value] == h
    ensures r.Some? ==> forall k :: from <= k < r.value ==> roots[k] != h
    ensures r.None? ==> forall k :: from <= k < |roots| ==> roots[k] != h
    decreases |roots| - from
  {
    if from == |roots| then None
    else if roots[from] == h then Some(from)
    else FirstRoot(roots, h, from + 1)
  }

  /** The first free root entry at or after `from`. */
  function FirstFreeRoot(roots: seq<Handle>, from: nat): (r: Option<nat>)
    requires from <= |roots|
    ensures r.Some? ==> from <= r.value < |roots| && !roots[r.value].IsValid()
    ensures r.Some? ==> forall k :: from <= k < r.value ==> roots[k].IsValid()
    ensures r.None? ==> forall k :: from <= k < |roots| ==> roots[k].IsValid()
    decreases |roots| - from
  {
    if from == |roots| then None
    else if !roots[from].IsValid() then Some(from)
    else FirstFreeRoot(roots, from + 1)
  }

  // ------------------------------------------------------------------ publication

  /** Generation 0 means "never published", so a slot's first publish jumps to 1. */
  function NextPublishGeneration(g: nat): nat { if g == 0 then 1 else g }

  function Publish(s: Store, i: nat, instance: Object): Store
    requires i < |s.slots| && instance.Object?
  {
    var g := NextPublishGeneration(s.slots[i].generation);
    s.(slots := s.slots[i := Slot(g, Live, instance, false)],
       occupied := s.occupied + 1,
       payload := s.payload + instance.size,
       log := s.log + [Published(Handle(i, g), Identity(instance))])
  }

  function ValidateConstruction(s: Store, known: bool, instance: Object): ObjectResult
    requires instance.Object?
  {
    if !s.configured then UnsupportedObjectLayout
    else if !known then UnknownClass
    else if instance.size > s.slotSize then UnsupportedObjectLayout
    else Success
  }

  function NoSlotError(s: Store): ObjectResult {
    if s.retired == |s.slots| then GenerationExhausted else CapacityExceeded
  }

  datatype Creation = Creation(store: Store, result: ObjectResult, handle: Handle)

  function NewObject(s: Store, known: bool, instance: Object): Creation
    requires instance.Object?
  {
    if s.Locked() then Creation(s, LifecycleLocked, NO_HANDLE)
    else if ValidateConstruction(s, known, instance) != Success then
      Creation(s, ValidateConstruction(s, known, instance), NO_HANDLE)
    else match FirstVacant(s.slots, 0)
      case None => Creation(s, NoSlotError(s), NO_HANDLE)
      case Some(i) =>
        Creation(Publish(s, i, instance), Success, Handle(i, NextPublishGeneration(s.slots[i].generation)))
  }

  // ------------------------------------------------------------------ roots

  function AddRoot(s: Store, h: Handle): (Store, ObjectResult) {
    if s.Locked() then (s, LifecycleLocked)
    else match FindMatchingSlot(s, h, true)
      case None => (s, StaleHandle)
      case Some(i) =>
        if s.slots[i].state.PendingDestroy? then (s, AlreadyPendingDestroy)
        else match FirstFreeRoot(s.roots.entries, 0)
          case None => (s, RootCapacityExceeded)
          case Some(r) =>
            (s.(roots := RootTable(s.roots.entries[r := h], s.roots.active + 1)), Success)
  }

  /** Frees the first entry that holds `h`, if any. */
  function ReleaseOne(t: RootTable, h: Handle): RootTable {
    if !h.IsValid() then t
    else match FirstRoot(t.entries, h, 0)
      case None => t
      case Some(r) => RootTable(t.entries[r := NO_HANDLE], MinusOne(t.active))
  }

  /** Root release is legal under every lock. */
  function RemoveRoot(s: Store, h: Handle): (Store, ObjectResult) {
    if !h.IsValid() || !s.configured || FirstRoot(s.roots.entries, h, 0).None? then (s, StaleHandle)
    else (s.(roots := ReleaseOne(s.roots, h)), Success)
  }

  /** Releases one token for each handle, in order, as a destructor's strong pointers do. */
  function ReleaseEach(t: RootTable, handles: seq<Handle>): RootTable {
    if handles == [] then t
    else ReleaseOne(ReleaseEach(t, handles[..|handles| - 1]), handles[|handles| - 1])
  }

  function ReleaseRoots(s: Store, handles: seq<Handle>): Store {
    if s.configured then s.(roots := ReleaseEach(s.roots, handles)) else s
  }

  function ClearHandle(roots: seq<Handle>, h: Handle): (r: seq<Handle>)
    ensures |r| == |roots|
    ensures forall k :: 0 <= k < |roots| ==> r[k] == if roots[k] == h then NO_HANDLE else roots[k]
  {
    seq(|roots|, k requires 0 <= k < |roots| => if roots[k] == h then NO_HANDLE else roots[k])
  }

  /** Frees every entry that holds `h`. */
  function ReleaseAll(t: RootTable, h: Handle): RootTable {
    var matches := multiset(t.entries)[h];
    RootTable(ClearHandle(t.entries, h), if t.active >= matches then t.active - matches else 0)
  }

  function RemoveAllRoots(s: Store, h: Handle): Store { s.(roots := ReleaseAll(s.roots, h)) }

  // ------------------------------------------------------------------ destruction

  function MarkPendingDestroy(s: Store, h: Handle): (Store, ObjectResult) {
    if s.Locked() then (s, LifecycleLocked)
    else match FindMatchingSlot(s, h, true)
      case None => (s, StaleHandle)
      case Some(i) =>
        if s.slots[i].state.PendingDestroy? then (s, AlreadyPendingDestroy)
        else (s.(slots := s.slots[i := s.slots[i].(state := PendingDestroy, marked := false)],
                 pending := s.pending + 1), Success)
  }

  /**
   An object's own code assigns its references. The store is not asked, so nothing checks it; the model has it happen
   only while no collection is under way.
   */
  function Retarget(s: Store, h: Handle, references: seq<Handle>): Store {
    var found := FindMatchingSlot(s, h, true);
    if s.collector.Some? || found.None? then s
    else s.(slots := s.slots[found.value := s.slots[found.value].(instance := s.slots[found.value].instance.(references := references))])
  }

  predicate Destroyable(s: Slot) { (s.state.Live? || s.state.PendingDestroy?) && s.instance.Object? }

  /** A dead slot moves on to its next generation, or retires when it has none left. */
  function Recycle(s: Slot): Slot {
    if s.generation < UINT32_MAX then Slot(s.generation + 1, Vacant, NoObject, false)
    else Slot(s.generation, Retired, NoObject, false)
  }

  /** The destructor runs, releasing the root tokens it owns, and then every root of the object goes. */
  function RunDestructionCallbacks(s: Store, i: nat, h: Handle): Store
    requires i < |s.slots| && s.slots[i].instance.Object?
  {
    var destroying := s.(slots := s.slots[i := s.slots[i].(state := Destroying)]);
    RemoveAllRoots(ReleaseRoots(destroying, s.slots[i].instance.strong), h)
  }

  function RecycleOrRetireSlot(s: Store, i: nat): Store
    requires i < |s.slots|
  {
    s.(slots := s.slots[i := Recycle(s.slots[i])],
       retired := if s.slots[i].generation < UINT32_MAX then s.retired else s.retired + 1)
  }

  function UpdateOccupancyCounters(s: Store, wasPending: bool, size: nat): Store {
    s.(occupied := MinusOne(s.occupied),
       pending := if wasPending then MinusOne(s.pending) else s.pending,
       payload := if s.payload >= size then s.payload - size else s.payload)
  }

  /** Destroys one live or pending object under the mutation lock, which it then restores. */
  function DestroySlot(s: Store, i: nat): Store {
    if i >= |s.slots| || !Destroyable(s.slots[i]) then s
    else
      var slot := s.slots[i];
      var h := Handle(i, slot.generation);
      var ended := RunDestructionCallbacks(s.(mutationLocked := true), i, h);
      var counted := UpdateOccupancyCounters(RecycleOrRetireSlot(ended, i), slot.state.PendingDestroy?, slot.instance.size);
      counted.(log := s.log + [Destroyed(h)], mutationLocked := s.mutationLocked)
  }

  function AdvanceCursor(s: Store): Store {
    s.(cursor := if s.cursor + 1 == |s.slots| then 0 else s.cursor + 1)
  }

  /** One visit of the round-robin destruction barrier. */
  function ScanOne(s: Store): Store {
    if s.cursor >= |s.slots| then s
    else if s.slots[s.cursor].state.PendingDestroy? then DestroySlot(AdvanceCursor(s), s.cursor)
    else AdvanceCursor(s)
  }

  /** Up to `visits` visits, stopping as soon as nothing is pending. */
  function Scan(s: Store, visits: nat): Store
    decreases visits
  {
    if visits == 0 || s.pending == 0 then s else Scan(ScanOne(s), visits - 1)
  }

  /** How many objects such a scan destroys. */
  function ScanDestroys(s: Store, visits: nat): nat
    decreases visits
  {
    if visits == 0 || s.pending == 0 then 0
    else (if s.cursor < |s.slots| && s.slots[s.cursor].state.PendingDestroy? then 1 else 0) + ScanDestroys(ScanOne(s), visits - 1)
  }

  function ClippedBudget(s: Store, budget: nat): nat {
    if budget < |s.slots| then budget else |s.slots|
  }

  function ApplyPendingDestroy(s: Store, budget: nat): Store {
    if s.Locked() || !s.configured then s else Scan(s, ClippedBudget(s, budget))
  }

  // ------------------------------------------------------------------ locks and collector access

  function BeginDispatch(s: Store): Store { if s.Locked() then s else s.(dispatchLocked := true) }

  function EndDispatch(s: Store): Store { s.(dispatchLocked := false) }

  function BeginCollection(s: Store, id: nat): Store {
    if s.mutationLocked || s.collector.Some? then s else s.(collector := Some(id))
  }

  function EndCollection(s: Store, id: nat): Store {
    if s.collector == Some(id) then s.(collector := None) else s
  }

  /** The live handle of a slot, or the invalid handle. */
  function HandleAt(s: Store, i: nat): Handle {
    if i >= |s.slots| || !s.slots[i].state.Live? then NO_HANDLE else Handle(i, s.slots[i].generation)
  }

  function SetMarked(s: Store, i: nat, marked: bool): Store {
    if i < |s.slots| && IsOccupied(s.slots[i]) then s.(slots := s.slots[i := s.slots[i].(marked := marked)]) else s
  }

  function Reclaim(s: Store, h: Handle): Store {
    if FindMatchingSlot(s, h, true).Some? then DestroySlot(s, h.index) else s
  }

  // ------------------------------------------------------------------ transactional construction

  /** A default subobject the actor's constructor asks for: whether its class resolves, and the object. */
  datatype Request = Request(known: bool, instance: Object)

  const MAX_COMPONENTS: nat := 4

  function Reserve(s: Store, i: nat): Store
    requires i < |s.slots|
  {
    s.(slots := s.slots[i := s.slots[i].(state := Constructing)])
  }

  /** A reserved slot together with the object constructed in it. */
  datatype Reservation = Reservation(index: nat, instance: Object)

  datatype Transaction = Transaction(store: Store, reserved: seq<Reservation>, error: ObjectResult)

  /** One reservation: the first vacant slot is hidden, or the first error is retained. */
  function ReserveObject(t: Transaction, instance: Object): Transaction {
    if t.error != Success then t
    else match FirstVacant(t.store.slots, 0)
      case None => t.(error := NoSlotError(t.store))
      case Some(i) => t.(store := Reserve(t.store, i), reserved := t.reserved + [Reservation(i, instance)])
  }

  /** `CreateDefaultSubobject`: reserved entry 0 is the actor, so the component count is one less. */
  function ReserveComponent(t: Transaction, r: Request): Transaction
    requires r.instance.Object?
  {
    if t.error != Success then t
    else if |t.reserved| > MAX_COMPONENTS then t.(error := CapacityExceeded)
    else if ValidateConstruction(t.store, r.known, r.instance) != Success then
      t.(error := ValidateConstruction(t.store, r.known, r.instance))
    else ReserveObject(t, r.instance)
  }

  predicate AllObjects(requests: seq<Request>) {
    forall k :: 0 <= k < |requests| ==> requests[k].instance.Object?
  }

  function ReserveComponents(t: Transaction, requests: seq<Request>): Transaction
    requires AllObjects(requests)
  {
    if requests == [] then t
    else ReserveComponent(ReserveComponents(t, requests[..|requests| - 1]), requests[|requests| - 1])
  }

  predicate WellReserved(n: nat, reserved: seq<Reservation>) {
    forall k :: 0 <= k < |reserved| ==> reserved[k].index < n && reserved[k].instance.Object?
  }

  function PublishAll(s: Store, reserved: seq<Reservation>): (r: Store)
    requires WellReserved(|s.slots|, reserved)
    ensures |r.slots| == |s.slots|
  {
    if reserved == [] then s
    else
      var last := reserved[|reserved| - 1];
      Publish(PublishAll(s, reserved[..|reserved| - 1]), last.index, last.instance)
  }

  function Release(s: Store, r: Reservation): (t: Store)
    requires r.index < |s.slots| && r.instance.Object?
    ensures |t.slots| == |s.slots|
  {
    var released := ReleaseRoots(s, r.instance.strong);
    released.(slots := s.slots[r.index := s.slots[r.index].(instance := NoObject, marked := false, state := Vacant)])
  }

  /** Destroys what was constructed, newest first. */
  function ReleaseReversed(s: Store, reserved: seq<Reservation>): (t: Store)
    requires WellReserved(|s.slots|, reserved)
    ensures |t.slots| == |s.slots|
    decreases |reserved|
  {
    if reserved == [] then s
    else ReleaseReversed(Release(s, reserved[|reserved| - 1]), reserved[..|reserved| - 1])
  }

  /** The actor (entry 0) goes first, then its components in reverse. */
  function Rollback(s: Store, reserved: seq<Reservation>): Store
    requires WellReserved(|s.slots|, reserved)
  {
    if reserved == [] then s else ReleaseReversed(Release(s, reserved[0]), reserved[1..])
  }

  lemma {:induction false} ReservationsStayInRange(t: Transaction, requests: seq<Request>)
    requires AllObjects(requests) && WellReserved(|t.store.slots|, t.reserved)
    ensures var u := ReserveComponents(t, requests);
            |u.store.slots| == |t.store.slots| && WellReserved(|u.store.slots|, u.reserved) && t.reserved <= u.reserved
  {
    if requests != [] {
      ReservationsStayInRange(t, requests[..|requests| - 1]);
    }
  }

  function OpenTransaction(s: Store, actor: Object): (t: Transaction)
    requires actor.Object?
    ensures |t.store.slots| == |s.slots| && WellReserved(|s.slots|, t.reserved)
    ensures t.error == Success <==> |t.reserved| == 1
  {
    ReserveObject(Transaction(s, [], Success), actor)
  }

  function CloseTransaction(s: Store, t: Transaction): Creation
    requires WellReserved(|t.store.slots|, t.reserved) && |t.reserved| > 0
    requires |s.slots| == |t.store.slots|
  {
    if t.error != Success then Creation(Rollback(t.store, t.reserved), t.error, NO_HANDLE)
    else
      var actor := t.reserved[0];
      Creation(Publish(PublishAll(t.store, t.reserved[1..]), actor.index, actor.instance), Success,
               Handle(actor.index, NextPublishGeneration(s.slots[actor.index].generation)))
  }

  /** The whole transactional construction of an actor whose constructor asks for `requests`. */
  function ConstructActor(s: Store, known: bool, actor: Object, requests: seq<Request>): Creation
    requires actor.Object? && AllObjects(requests)
  {
    if s.Locked() then Creation(s, LifecycleLocked, NO_HANDLE)
    else if ValidateConstruction(s, known, actor) != Success then
      Creation(s, ValidateConstruction(s, known, actor), NO_HANDLE)
    else
      var started := OpenTransaction(s, actor);
      if started.error != Success then Creation(s, started.error, NO_HANDLE)
      else
        ReservationsStayInRange(started, requests);
        CloseTransaction(s, ReserveComponents(started, requests))
  }

  // ------------------------------------------------------------------ runs

  datatype Operation =
    | New(known: bool, instance: Object)
    | Construct(known: bool, instance: Object, requests: seq<Request>)
    | MarkPending(handle: Handle)
    | ApplyPending(budget: nat)
    | Root(handle: Handle)
    | Unroot(handle: Handle)
    | Assign(handle: Handle, references: seq<Handle>)
    | LockDispatch
    | UnlockDispatch
    | StartCollection(id: nat)
    | StopCollection(id: nat)
    | Mark(index: nat, marked: bool)
    | Sweep(handle: Handle)
  {
    predicate WellTyped() {
      match this
      case New(_, o) => o.Object?
      case Construct(_, o, requests) => o.Object? && AllObjects(requests)
      case _ => true
    }

    /** The last four are the collector's private access; everything else is what user code can do. */
    predicate Public() { !StartCollection? && !StopCollection? && !Mark? && !Sweep? }
  }

  function Step(s: Store, op: Operation): Store
    requires op.WellTyped()
  {
    match op
    case New(known, o) => NewObject(s, known, o).store
    case Construct(known, o, requests) => ConstructActor(s, known, o, requests).store
    case MarkPending(h) => MarkPendingDestroy(s, h).0
    case ApplyPending(budget) => ApplyPendingDestroy(s, budget)
    case Root(h) => AddRoot(s, h).0
    case Unroot(h) => RemoveRoot(s, h).0
    case Assign(h, references) => Retarget(s, h, references)
    case LockDispatch => BeginDispatch(s)
    case UnlockDispatch => EndDispatch(s)
    case StartCollection(id) => BeginCollection(s, id)
    case StopCollection(id) => EndCollection(s, id)
    case Mark(i, marked) => SetMarked(s, i, marked)
    case Sweep(h) => Reclaim(s, h)
  }

  predicate WellTypedRun(ops: seq<Operation>) { forall k :: 0 <= k < |ops| ==> ops[k].WellTyped() }

  function Run(s: Store, ops: seq<Operation>): Store
    requires WellTypedRun(ops)
  {
    if ops == [] then s else Step(Run(s, ops[..|ops| - 1]), ops[|ops| - 1])
  }

  /** A freshly configured store over `slotCount` slots and `rootCapacity` root entries. */
  function Fresh(slotCount: nat, rootCapacity: nat, slotSize: nat): Store {
    Store(true, slotSize, seq(slotCount, _ => EMPTY_SLOT), RootTable(seq(rootCapacity, _ => NO_HANDLE), 0),
          0, 0, 0, 0, 0, false, false, None, [])
  }
}
