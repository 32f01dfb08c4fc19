/**
 The frame of `TEngine`: an unfinished collection is completed before any callback runs, pending objects are reclaimed
 after the callbacks, and the next bounded slice is the frame's last act. What callbacks do to the object store is arbitrary.
 */
module EngineFrames {
  import opened Basics
  import opened ObjectStoreModel
  import opened ObjectStoreProofs
  import opened CollectorModel
  import opened CollectorProofs

  datatype TickResult = Ticked | NonMonotonicTime | Blocked(reason: RuntimeResult)

  datatype Engine = Engine(collector: Collector, lastTick: nat, budget: Work, reclamation: nat)

  /** What a frame's callbacks do to the store before the reclamation, and what the outbound systems do after it. */
  datatype Frame = Frame(now: nat, callbacks: seq<Operation>, late: seq<Operation>)

  predicate PublicRun(ops: seq<Operation>) { forall k :: 0 <= k < |ops| ==> ops[k].WellTyped() && ops[k].Public() }

  function Uses(c: Collector, ops: seq<Operation>): Collector
    requires PublicRun(ops)
  {
    if ops == [] then c
    else
      var d := Uses(c, ops[..|ops| - 1]);
      d.(store := Step(d.store, ops[|ops| - 1]))
  }

  /** Frame step 0: finish a cycle that is still under way. */
  function CatchUp(c: Collector): (Collector, RuntimeResult) {
    if c.phase.Idle? then (c, RuntimeResult.Success)
    else if AdvanceFailure(c) != RuntimeResult.Success then (c, AdvanceFailure(c))
    else
      var d := CollectFull(c);
      (d, if d.overflowed then RuntimeResult.CapacityExceeded
          else if d.phase.Idle? then RuntimeResult.Success else RuntimeResult.LifecycleLocked)
  }

  function StartSlice(c: Collector, budget: Work): Collector {
    Advance(if c.phase.Idle? then RequestCollection(c) else c, budget)
  }

  /** The state after the frame's callbacks and the reclamation that follows them. */
  function Reclaimed(e: Engine, f: Frame): Collector
    requires PublicRun(f.callbacks)
  {
    var ran := Uses(CatchUp(e.collector).0, f.callbacks);
    ran.(store := Step(ran.store, ApplyPending(e.reclamation)))
  }

  /** The state before the frame's closing slice. */
  function AfterCallbacks(e: Engine, f: Frame): Collector
    requires PublicRun(f.callbacks) && PublicRun(f.late)
  {
    Uses(Reclaimed(e, f), f.late)
  }

  function Tick(e: Engine, f: Frame): (Engine, TickResult)
    requires PublicRun(f.callbacks) && PublicRun(f.late)
  {
    if f.now < e.lastTick then (e, NonMonotonicTime)
    else
      var (c, r) := CatchUp(e.collector);
      if r != RuntimeResult.Success then (e.(lastTick := f.now, collector := c), Blocked(r))
      else (e.(lastTick := f.now, collector := StartSlice(AfterCallbacks(e, f), e.budget)), Ticked)
  }

  /** Before teardown a cycle is abandoned. */
  function CancelBeforeTeardown(e: Engine): Engine { e.(collector := Cancel(e.collector)) }

  // ------------------------------------------------------------------ callbacks and collections exclude each other

  ghost predicate EngineInv(e: Engine) { Sane(e.collector) && |e.collector.store.roots.entries| <= UINT32_MAX }

  lemma {:induction false} UsesAreSane(c: Collector, ops: seq<Operation>)
    requires Sane(c) && PublicRun(ops)
    ensures Sane(Uses(c, ops)) && Uses(c, ops) == c.(store := Uses(c, ops).store)
  {
    hide Sane, Step;
    if ops != [] {
      UsesAreSane(c, ops[..|ops| - 1]);
      UseIsSane(Uses(c, ops[..|ops| - 1]), ops[|ops| - 1]);
    }
  }

  lemma RootTableStays(s: Store, op: Operation)
    requires Inv(s) && op.WellTyped() && op.Public()
    ensures |Step(s, op).roots.entries| == |s.roots.entries|
  {
    hide HistoryOk, CountersExact;
    match op
    case Construct(known, o, requests) => ConstructActorIsAtomic(s, known, o, requests);
    case ApplyPending(budget) => ScanKeepsRootTable(s, ClippedBudget(s, budget));
    case _ =>
  }

  lemma {:induction false} ScanKeepsRootTable(s: Store, visits: nat)
    requires Inv(s)
    ensures |Scan(s, visits).roots.entries| == |s.roots.entries|
    decreases visits
  {
    hide Inv;
    if visits != 0 && s.pending != 0 {
      ScanOneKeeps(s);
      AdvanceCursorKeeps(s);
      if s.cursor < |s.slots| { DestroySlotKeeps(AdvanceCursor(s), s.cursor); }
      ScanKeepsRootTable(ScanOne(s), visits - 1);
    }
  }

  /** Finishing a cycle never fails and never blocks: its locks are its own, its worklist suffices, its budget covers the tables. */
  lemma CatchUpSucceeds(c: Collector)
    requires Sane(c) && |c.store.roots.entries| <= UINT32_MAX
    ensures var (d, r) := CatchUp(c);
            r == RuntimeResult.Success && d.phase.Idle? && Sane(d) && |d.store.roots.entries| == |c.store.roots.entries|
  {
    hide Inv, CycleInv, Slice, NoMarks;
    if !c.phase.Idle? {
      AdvanceIsSlice(c, UNLIMITED);
      LimitSuffices(c);
      FullSliceFinishes(c, c.work.Plus(UNLIMITED));
      SliceIsSane(c, c.work.Plus(UNLIMITED));
      SliceKeepsRootTable(c, c.work.Plus(UNLIMITED));
    }
  }

  lemma SliceKeepsRootTable(c: Collector, limit: Work)
    requires CycleInv(c)
    ensures |Slice(c, limit).store.roots.entries| == |c.store.roots.entries|
  {
    hide Inv, Reaches, Covers, ClosedBut, NoMarks, Sound, MarkedExactly, SweptTo, Queued, Slice;
    SliceKeeps(c, limit);
  }

  lemma LimitSuffices(c: Collector)
    requires CycleInv(c) && |c.store.roots.entries| <= UINT32_MAX
    ensures Totals(c).AtMost(c.work.Plus(UNLIMITED))
  {
    hide HistoryOk, Reaches, Covers, ClosedBut, NoMarks, Sound, SlotsOk, CountersExact, MarkedExactly, SweptTo, Queued;
  }

  lemma {:induction false} UsesKeepRootTable(c: Collector, ops: seq<Operation>)
    requires Sane(c) && PublicRun(ops)
    ensures |Uses(c, ops).store.roots.entries| == |c.store.roots.entries|
  {
    hide Sane, Step, Inv;
    if ops != [] {
      UsesKeepRootTable(c, ops[..|ops| - 1]);
      UsesAreSane(c, ops[..|ops| - 1]);
      SaneStore(Uses(c, ops[..|ops| - 1]));
      RootTableStays(Uses(c, ops[..|ops| - 1]).store, ops[|ops| - 1]);
    }
  }

  lemma SaneStore(c: Collector)
    requires Sane(c)
    ensures Inv(c.store)
  {
    hide Inv, Reaches, Covers, ClosedBut, NoMarks, Sound, MarkedExactly, SweptTo, Queued, Scanned;
  }

  lemma StartSliceKeeps(c: Collector, budget: Work)
    requires Sane(c)
    ensures Sane(StartSlice(c, budget)) && |StartSlice(c, budget).store.roots.entries| == |c.store.roots.entries|
  {
    hide Inv, CycleInv, NoMarks, Slice;
    StartIsSane(c);
    var r := if c.phase.Idle? then RequestCollection(c) else c;
    if !r.phase.Idle? {
      AdvanceIsSlice(r, budget);
      SliceIsSane(r, r.work.Plus(budget));
      SliceKeepsRootTable(r, r.work.Plus(budget));
    }
  }

  /** What callbacks may rely on: no cycle is under way, no lock of the collector is held, and no object is marked. */
  ghost predicate Clear(c: Collector) {
    c.phase.Idle? && c.store.collector.None? && !c.store.mutationLocked && NoMarks(c.store.slots) && Inv(c.store)
  }

  lemma AfterCallbacksKeeps(e: Engine, f: Frame)
    requires EngineInv(e) && PublicRun(f.callbacks) && PublicRun(f.late)
    ensures Sane(AfterCallbacks(e, f)) && AfterCallbacks(e, f).phase.Idle?
    ensures |AfterCallbacks(e, f).store.roots.entries| == |e.collector.store.roots.entries|
  {
    hide Sane, Step, Inv, CatchUp;
    CatchUpSucceeds(e.collector);
    var c := CatchUp(e.collector).0;
    UsesAreSane(c, f.callbacks);
    UsesKeepRootTable(c, f.callbacks);
    var ran := Uses(c, f.callbacks);
    SaneStore(ran);
    UseIsSane(ran, ApplyPending(e.reclamation));
    RootTableStays(ran.store, ApplyPending(e.reclamation));
    var reclaimed := ran.(store := Step(ran.store, ApplyPending(e.reclamation)));
    UsesAreSane(reclaimed, f.late);
    UsesKeepRootTable(reclaimed, f.late);
  }

  /**
   Every frame that is not refused for its clock runs its callbacks, and they find no collection under way: after
   each of them, after the reclamation, and after each late call up to the closing slice the store is clear.
   */
  lemma CallbacksNeverMeetACollection(e: Engine, f: Frame, k: nat, j: nat)
    requires EngineInv(e) && PublicRun(f.callbacks) && PublicRun(f.late) && k <= |f.callbacks| && j <= |f.late|
    ensures EngineInv(Tick(e, f).0) && (Tick(e, f).1 == Ticked <==> e.lastTick <= f.now)
    ensures PublicRun(f.callbacks[..k]) && Clear(Uses(CatchUp(e.collector).0, f.callbacks[..k]))
    ensures Clear(Reclaimed(e, f))
    ensures PublicRun(f.late[..j]) && Clear(Uses(Reclaimed(e, f), f.late[..j]))
    ensures Tick(e, f).1 != Ticked ==> Tick(e, f).0 == e
  {
    hide Sane, Step, Inv, CatchUp, NoMarks, Uses, StartSlice, Clear;
    CatchUpSucceeds(e.collector);
    AfterCallbacksKeeps(e, f);
    StartSliceKeeps(AfterCallbacks(e, f), e.budget);
    var c := CatchUp(e.collector).0;
    UsesAreSane(c, f.callbacks[..k]);
    IdleIsClear(Uses(c, f.callbacks[..k]));
    UsesAreSane(c, f.callbacks);
    UseIsSane(Uses(c, f.callbacks), ApplyPending(e.reclamation));
    IdleIsClear(Reclaimed(e, f));
    UsesAreSane(Reclaimed(e, f), f.late[..j]);
    IdleIsClear(Uses(Reclaimed(e, f), f.late[..j]));
  }

  lemma IdleIsClear(c: Collector)
    requires Sane(c) && c.phase.Idle?
    ensures Clear(c)
  {
  }

  ghost predicate PublicFrames(fs: seq<Frame>) { forall k :: 0 <= k < |fs| ==> PublicRun(fs[k].callbacks) && PublicRun(fs[k].late) }

  function Frames(e: Engine, fs: seq<Frame>): (r: Engine)
    requires PublicFrames(fs)
  {
    if fs == [] then e else Tick(Frames(e, fs[..|fs| - 1]), fs[|fs| - 1]).0
  }

  /** Over any run of frames: the engine stays sound, and every frame with a legal clock completes. */
  lemma {:induction false} EveryFrameCompletes(e: Engine, fs: seq<Frame>, next: Frame)
    requires EngineInv(e) && PublicFrames(fs) && PublicRun(next.callbacks) && PublicRun(next.late)
    ensures EngineInv(Frames(e, fs)) && (Tick(Frames(e, fs), next).1 == Ticked <==> Frames(e, fs).lastTick <= next.now)
    decreases |fs|
  {
    hide EngineInv, Tick;
    if fs != [] { EveryFrameCompletes(e, fs[..|fs| - 1], fs[|fs| - 1]); CallbacksNeverMeetACollection(Frames(e, fs[..|fs| - 1]), fs[|fs| - 1], 0, 0); }
    CallbacksNeverMeetACollection(Frames(e, fs), next, 0, 0);
  }

  // ------------------------------------------------------------------ garbage lasts one frame

  function StoreTurns(ops: seq<Operation>): seq<Turn> { seq(|ops|, k requires 0 <= k < |ops| => StoreTurn(ops[k])) }

  lemma {:induction false} UsesAreTurns(c: Collector, budget: Work, ops: seq<Operation>)
    requires PublicRun(ops) && !Advance(c, budget).phase.Idle? && !c.phase.Idle?
    ensures var turns := [SliceTurn(budget)] + StoreTurns(ops);
            WellTypedTurns(turns) && RunCycle(c, turns) == Uses(Advance(c, budget), ops)
  {
    hide Step, Advance;
    var turns := [SliceTurn(budget)] + StoreTurns(ops);
    if ops == [] {
      assert turns == [SliceTurn(budget)] && turns[..0] == [];
      assert RunCycle(c, []) == c;
    } else {
      var front := ops[..|ops| - 1];
      UsesAreTurns(c, budget, front);
      assert turns[..|turns| - 1] == [SliceTurn(budget)] + StoreTurns(front);
      UsesKeepPhase(Advance(c, budget), front);
    }
  }

  lemma {:induction false} UsesKeepPhase(c: Collector, ops: seq<Operation>)
    requires PublicRun(ops)
    ensures Uses(c, ops) == c.(store := Uses(c, ops).store)
  {
    hide Step;
    if ops != [] { UsesKeepPhase(c, ops[..|ops| - 1]); }
  }

  /** The collector before the next frame's callbacks, when `between` happens outside of frames. */
  function NextFrameStart(c: Collector, budget: Work, between: seq<Operation>): Collector
    requires PublicRun(between)
  {
    var a := StartSlice(c, budget);
    if a.phase.Idle? then a else CatchUp(Uses(a, between)).0
  }

  /**
   The collection that closes a frame is over before the callbacks of the next one, however small the budget: by
   then every live object that no root held at the end of the frame reaches has been destroyed, and everything the
   remaining roots reach is untouched.
   */
  lemma GarbageLastsOneFrame(c: Collector, budget: Work, between: seq<Operation>, i: nat)
    requires Sane(c) && StartFailure(c) == RuntimeResult.Success && |c.store.roots.entries| <= UINT32_MAX
    requires PublicRun(between) && i < |c.store.slots| && c.store.slots[i].state.Live?
    ensures var d := NextFrameStart(c, budget, between);
            && d.phase.Idle? && |d.store.slots| == |c.store.slots|
            && (d.store.slots[i] == c.store.slots[i] || d.store.slots[i] == Recycle(c.store.slots[i]))
            && (Reaches(c.store.slots, d.store.roots.entries, i) ==> d.store.slots[i] == c.store.slots[i])
            && (!Reaches(c.store.slots, c.store.roots.entries, i) ==> d.store.slots[i] == Recycle(c.store.slots[i]))
  {
    hide Inv, CycleInv, Reaches, Recycle, NoMarks, Advance, RunCycle, CatchUp;
    var turns := CycleTurns(c, budget, between);
    CollectionIsExact(c, turns, i);
  }

  /** The turns of that collection: the closing slice, the calls between the frames, and the completing slice. */
  lemma CycleTurns(c: Collector, budget: Work, between: seq<Operation>) returns (turns: seq<Turn>)
    requires Sane(c) && StartFailure(c) == RuntimeResult.Success && |c.store.roots.entries| <= UINT32_MAX && PublicRun(between)
    ensures WellTypedTurns(turns) && NextFrameStart(c, budget, between).phase.Idle?
    ensures RunCycle(RequestCollection(c), turns) == NextFrameStart(c, budget, between)
  {
    hide Inv, CycleInv, NoMarks, Advance, Step;
    StartIsSane(c);
    var r := RequestCollection(c);
    var a := Advance(r, budget);
    StartSliceKeeps(c, budget);
    if a.phase.Idle? {
      turns := [SliceTurn(budget)];
      assert turns[..0] == [];
      assert RunCycle(r, []) == r;
    } else {
      UsesAreTurns(r, budget, between);
      var calls := [SliceTurn(budget)] + StoreTurns(between);
      var b := Uses(a, between);
      UsesKeepPhase(a, between);
      UsesAreSane(a, between);
      UsesKeepRootTable(a, between);
      CatchUpSucceeds(b);
      turns := calls + [SliceTurn(UNLIMITED)];
      assert turns[..|turns| - 1] == calls;
    }
  }

  /** Teardown never inherits a collection: it is abandoned, its marks are gone and the store is free. */
  lemma TeardownFindsTheStoreClear(e: Engine)
    requires EngineInv(e)
    ensures Clear(CancelBeforeTeardown(e).collector)
  {
    hide Inv, CycleInv, NoMarks, Reset;
    if !e.collector.phase.Idle? {
      CancelIsSane(e.collector);
      CancelClearsMarks(e.collector);
    }
    IdleIsClear(CancelBeforeTeardown(e).collector);
  }
}
