/**
 The incremental mark/sweep collector as a state machine. One `Next` is one unit of work (a root entry
 scanned, an object traced, a slot swept) or one free phase change; `Slice` is one budgeted `Advance`.
 */
module CollectorModel {
  import opened Basics
  import opened ObjectStoreModel

  datatype Phase = Idle | SeedRoots | Marking | Sweeping

  /** Work done, per phase. */
  datatype Work = Work(roots: nat, marks: nat, sweeps: nat) {
    predicate AtMost(w: Work) { roots <= w.roots && marks <= w.marks && sweeps <= w.sweeps }
    function Plus(w: Work): Work { Work(roots + w.roots, marks + w.marks, sweeps + w.sweeps) }
    function Total(): nat { roots + marks + sweeps }
  }

  /**
   The collector and the store it owns. The last four fields are history kept for the proofs: the store at
   the request, the root handles scanned so far, the slots discovered so far, and the work done this cycle.
   */
  datatype Collector = Collector(
    id: nat,
    capacity: nat,
    store: Store,
    phase: Phase,
    rootCursor: nat,
    worklist: seq<Handle>,
    sweepCursor: nat,
    overflowed: bool,
    base: Store,
    scanned: seq<Handle>,
    reached: set<nat>,
    work: Work)

  datatype RuntimeResult = Success | CapacityExceeded | LifecycleLocked | InvalidLifecycle

  // ------------------------------------------------------------------ starting and ending a cycle

  function StartFailure(c: Collector): RuntimeResult {
    if !c.phase.Idle? then RuntimeResult.LifecycleLocked
    else if c.store.mutationLocked || c.store.dispatchLocked then RuntimeResult.LifecycleLocked
    else if !c.store.configured || c.capacity < |c.store.slots| then RuntimeResult.CapacityExceeded
    else if c.store.collector.Some? then RuntimeResult.LifecycleLocked
    else RuntimeResult.Success
  }

  function RequestCollection(c: Collector): Collector {
    if StartFailure(c) != RuntimeResult.Success then c
    else c.(store := BeginCollection(c.store, c.id), phase := SeedRoots, rootCursor := 0, worklist := [], sweepCursor := 0,
            base := c.store, scanned := [], reached := {}, work := Work(0, 0, 0))
  }

  function Unmarked(slots: seq<Slot>): (r: seq<Slot>)
    ensures |r| == |slots|
    ensures forall i :: 0 <= i < |slots| ==> r[i] == if IsOccupied(slots[i]) then slots[i].(marked := false) else slots[i]
  {
    seq(|slots|, i requires 0 <= i < |slots| => if IsOccupied(slots[i]) then slots[i].(marked := false) else slots[i])
  }

  /** Abandons the cycle: marks are cleared and the store is released. */
  function Reset(c: Collector): Collector {
    c.(store := EndCollection(c.store.(slots := Unmarked(c.store.slots)), c.id),
       phase := Idle, rootCursor := 0, worklist := [], sweepCursor := 0, overflowed := false)
  }

  function Cancel(c: Collector): Collector { if c.phase.Idle? then c else Reset(c) }

  function Complete(c: Collector): Collector {
    c.(store := EndCollection(c.store, c.id), phase := Idle, rootCursor := 0, worklist := [], sweepCursor := 0)
  }

  // ------------------------------------------------------------------ units of work

  predicate Discoverable(c: Collector, h: Handle) {
    && (c.phase.SeedRoots? || c.phase.Marking?) && c.store.collector == Some(c.id)
    && h.IsValid() && h.index < |c.store.slots|
  }

  predicate AlreadyProcessed(s: Store, h: Handle)
    requires h.index < |s.slots|
  {
    IsPending(s.slots[h.index]) || HandleAt(s, h.index) != h || (IsOccupied(s.slots[h.index]) && s.slots[h.index].marked)
  }

  /** Marks and queues a live object once; a full worklist abandons the cycle. */
  function Discover(c: Collector, h: Handle): (d: Collector)
    ensures (d.phase == c.phase && d.overflowed == c.overflowed) || (d.phase.Idle? && d.overflowed)
    ensures d.work == c.work
    ensures |d.store.slots| == |c.store.slots| && d.store.roots == c.store.roots
  {
    if !Discoverable(c, h) || AlreadyProcessed(c.store, h) then c
    else if |c.worklist| >= c.capacity then Reset(c).(overflowed := true)
    else c.(store := SetMarked(c.store, h.index, true), worklist := c.worklist + [h], reached := c.reached + {h.index})
  }

  function DiscoverAll(c: Collector, handles: seq<Handle>): (d: Collector)
    ensures (d.phase == c.phase && d.overflowed == c.overflowed) || (d.phase.Idle? && d.overflowed)
    ensures d.work == c.work
    ensures |d.store.slots| == |c.store.slots| && d.store.roots == c.store.roots
  {
    if handles == [] then c else Discover(DiscoverAll(c, handles[..|handles| - 1]), handles[|handles| - 1])
  }

  function SeedOne(c: Collector): (d: Collector)
    requires c.rootCursor < |c.store.roots.entries|
    ensures (d.phase == c.phase && d.overflowed == c.overflowed) || (d.phase.Idle? && d.overflowed)
    ensures d.work == c.work.(roots := c.work.roots + 1)
  {
    var h := c.store.roots.entries[c.rootCursor];
    Discover(c.(rootCursor := c.rootCursor + 1, scanned := c.scanned + [h], work := c.work.(roots := c.work.roots + 1)), h)
  }

  function MarkOne(c: Collector): (d: Collector)
    requires |c.worklist| > 0
    ensures (d.phase == c.phase && d.overflowed == c.overflowed) || (d.phase.Idle? && d.overflowed)
    ensures d.work == c.work.(marks := c.work.marks + 1)
  {
    var h := c.worklist[|c.worklist| - 1];
    var popped := c.(worklist := c.worklist[..|c.worklist| - 1], work := c.work.(marks := c.work.marks + 1));
    var o := Resolve(c.store, h);
    if o.Object? then DiscoverAll(popped, o.references) else popped
  }

  function SweepOne(c: Collector): (d: Collector)
    requires c.sweepCursor < |c.store.slots|
    ensures d.phase == c.phase && d.overflowed == c.overflowed && d.work == c.work.(sweeps := c.work.sweeps + 1)
  {
    var i := c.sweepCursor;
    var passed := c.(sweepCursor := i + 1, work := c.work.(sweeps := c.work.sweeps + 1));
    if !IsOccupied(c.store.slots[i]) || IsPending(c.store.slots[i]) then passed
    else if c.store.slots[i].marked then passed.(store := SetMarked(c.store, i, false))
    else if HandleAt(c.store, i).IsValid() then passed.(store := Reclaim(c.store, HandleAt(c.store, i)))
    else passed
  }

  /** One unit of work, or one phase change once a phase has nothing left. */
  function Next(c: Collector): Collector {
    match c.phase
    case Idle => c
    case SeedRoots => if c.rootCursor < |c.store.roots.entries| then SeedOne(c) else c.(phase := Marking)
    case Marking => if |c.worklist| > 0 then MarkOne(c) else c.(phase := Sweeping)
    case Sweeping => if c.sweepCursor < |c.store.slots| then SweepOne(c) else Complete(c)
  }

  // ------------------------------------------------------------------ budgeted slices

  /** The next unit of work would exceed the limit of its phase. */
  predicate Blocked(c: Collector, limit: Work) {
    match c.phase
    case Idle => true
    case SeedRoots => c.rootCursor < |c.store.roots.entries| && c.work.roots >= limit.roots
    case Marking => |c.worklist| > 0 && c.work.marks >= limit.marks
    case Sweeping => c.sweepCursor < |c.store.slots| && c.work.sweeps >= limit.sweeps
  }

  function PhaseRank(p: Phase): nat {
    match p case Idle => 0 case Sweeping => 1 case Marking => 2 case SeedRoots => 3
  }

  function Left(work: Work, limit: Work): nat {
    (if limit.roots > work.roots then limit.roots - work.roots else 0)
    + (if limit.marks > work.marks then limit.marks - work.marks else 0)
    + (if limit.sweeps > work.sweeps then limit.sweeps - work.sweeps else 0)
  }

  /** Works until idle or until the phase at hand has used up its limit. */
  function Slice(c: Collector, limit: Work): Collector
    decreases PhaseRank(c.phase), Left(c.work, limit)
  {
    if Blocked(c, limit) then c else Slice(Next(c), limit)
  }

  function AdvanceFailure(c: Collector): RuntimeResult {
    if c.store.dispatchLocked then RuntimeResult.LifecycleLocked
    else if c.phase.Idle? then RuntimeResult.InvalidLifecycle
    else if c.store.mutationLocked then RuntimeResult.LifecycleLocked
    else if c.store.collector != Some(c.id) then RuntimeResult.LifecycleLocked
    else RuntimeResult.Success
  }

  /** One `Advance` with a per-phase budget. */
  function Advance(c: Collector, budget: Work): Collector {
    if AdvanceFailure(c) != RuntimeResult.Success then c else Slice(c.(overflowed := false), c.work.Plus(budget))
  }

  const UNLIMITED := Work(UINT32_MAX, UINT32_MAX, UINT32_MAX)

  function CollectFull(c: Collector): Collector {
    if c.phase.Idle? then
      (if StartFailure(c) != RuntimeResult.Success then c else Advance(RequestCollection(c), UNLIMITED))
    else Advance(c, UNLIMITED)
  }
}
