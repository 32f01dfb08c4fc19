/**
 Exact reachability, termination and work bounds of the incremental collector, for every slicing and for
 every public store operation the application may interleave between slices.
 */
module CollectorProofs {
  import opened Basics
  import opened ObjectStoreModel
  import opened ObjectStoreProofs
  import opened CollectorModel

  // ------------------------------------------------------------------ reachability

  /** `h` names the live object in slot `i`. */
  predicate Targets(slots: seq<Slot>, h: Handle, i: nat) {
    h.IsValid() && h.index == i < |slots| && slots[i].state.Live? && slots[i].generation == h.generation
  }

  /** The live object in slot `i` refers to the live object in slot `j`. */
  predicate Edge(slots: seq<Slot>, i: nat, j: nat) {
    && i < |slots| && slots[i].state.Live? && slots[i].instance.Object?
    && exists k :: 0 <= k < |slots[i].instance.references| && Targets(slots, slots[i].instance.references[k], j)
  }

  predicate IsRooted(slots: seq<Slot>, roots: seq<Handle>, i: nat) {
    exists k :: 0 <= k < |roots| && Targets(slots, roots[k], i)
  }

  /** A chain of references that starts at a root and runs through live objects only. */
  predicate Path(slots: seq<Slot>, roots: seq<Handle>, p: seq<nat>) {
    && |p| > 0 && IsRooted(slots, roots, p[0])
    && forall k :: 0 <= k < |p| - 1 ==> Edge(slots, p[k], p[k + 1])
  }

  ghost predicate Reaches(slots: seq<Slot>, roots: seq<Handle>, i: nat) {
    exists p :: Path(slots, roots, p) && p[|p| - 1] == i
  }

  lemma RootsReach(slots: seq<Slot>, roots: seq<Handle>, i: nat)
    requires IsRooted(slots, roots, i)
    ensures Reaches(slots, roots, i)
  {
    assert Path(slots, roots, [i]);
  }

  lemma EdgeExtends(slots: seq<Slot>, roots: seq<Handle>, i: nat, j: nat)
    requires Reaches(slots, roots, i) && Edge(slots, i, j)
    ensures Reaches(slots, roots, j)
  {
    var p :| Path(slots, roots, p) && p[|p| - 1] == i;
    var q := p + [j];
    assert q[0] == p[0] && q[|q| - 1] == j;
    assert Path(slots, roots, q);
  }

  /** More roots reach no less. */
  lemma ReachesMonotone(slots: seq<Slot>, few: seq<Handle>, many: seq<Handle>, i: nat)
    requires Reaches(slots, few, i) && |few| == |many|
    requires forall k :: 0 <= k < |few| ==> few[k] == many[k] || few[k] == NO_HANDLE
    ensures Reaches(slots, many, i)
  {
    var p :| Path(slots, few, p) && p[|p| - 1] == i;
    assert IsRooted(slots, many, p[0]) by {
      var k :| 0 <= k < |few| && Targets(slots, few[k], p[0]);
      assert Targets(slots, many[k], p[0]);
    }
    assert Path(slots, many, p);
  }

  // ------------------------------------------------------------------ what the discovered set satisfies

  ghost predicate Sound(slots: seq<Slot>, roots: seq<Handle>, reached: set<nat>) {
    forall i :: i in reached ==> i < |slots| && slots[i].state.Live? && Reaches(slots, roots, i)
  }

  ghost predicate Covers(slots: seq<Slot>, roots: seq<Handle>, reached: set<nat>) {
    forall i: nat :: IsRooted(slots, roots, i) ==> i in reached
  }

  /** Every reference of a discovered object, save those still `open`, leads to a discovered object. */
  ghost predicate ClosedBut(slots: seq<Slot>, reached: set<nat>, open: set<nat>) {
    forall i: nat, j: nat :: i in reached && i !in open && Edge(slots, i, j) ==> j in reached
  }

  function Indices(worklist: seq<Handle>): set<nat> { set h | h in worklist :: h.index }

  /** A closed, sound set that covers the roots is exactly the reachable set. */
  lemma ClosedIsReachable(slots: seq<Slot>, roots: seq<Handle>, reached: set<nat>, i: nat)
    requires Sound(slots, roots, reached) && Covers(slots, roots, reached) && ClosedBut(slots, reached, {})
    ensures i in reached <==> Reaches(slots, roots, i)
  {
    if p :| Path(slots, roots, p) && p[|p| - 1] == i {
      PathStaysInside(slots, roots, reached, p, |p| - 1);
    }
  }

  lemma {:induction false} PathStaysInside(slots: seq<Slot>, roots: seq<Handle>, reached: set<nat>, p: seq<nat>, k: nat)
    requires Covers(slots, roots, reached) && ClosedBut(slots, reached, {}) && Path(slots, roots, p) && k < |p|
    ensures p[k] in reached
  {
    if k > 0 {
      PathStaysInside(slots, roots, reached, p, k - 1);
      assert Edge(slots, p[k - 1], p[k - 1 + 1]);
    }
  }

  // ------------------------------------------------------------------ the cycle invariant

  /** The slots are those of the request, with marks exactly on the discovered ones. */
  predicate MarkedExactly(base: seq<Slot>, now: seq<Slot>, reached: set<nat>) {
    |now| == |base| && forall i :: 0 <= i < |base| ==> now[i] == base[i].(marked := i in reached)
  }

  function Swept(slot: Slot, keep: bool): Slot { if slot.state.Live? && !keep then Recycle(slot) else slot }

  /** Slots before the cursor are swept: the live ones survive exactly if discovered. The rest wait. */
  predicate SweptTo(base: seq<Slot>, now: seq<Slot>, reached: set<nat>, cursor: nat) {
    && |now| == |base| && cursor <= |base|
    && (forall i :: 0 <= i < cursor ==> now[i] == Swept(base[i], i in reached))
    && (forall i :: cursor <= i < |base| ==> now[i] == base[i].(marked := i in reached))
  }

  /** Root entries still held were scanned as they are; scanned ones were held at the request. */
  predicate Scanned(base: seq<Handle>, now: seq<Handle>, scanned: seq<Handle>) {
    && |now| == |base| && |scanned| <= |base|
    && (forall k :: 0 <= k < |base| ==> now[k] == base[k] || now[k] == NO_HANDLE)
    && (forall k :: 0 <= k < |scanned| ==> scanned[k] == base[k] || scanned[k] == NO_HANDLE)
    && (forall k :: 0 <= k < |scanned| ==> now[k] == scanned[k] || now[k] == NO_HANDLE)
  }

  predicate Queued(slots: seq<Slot>, worklist: seq<Handle>, reached: set<nat>) {
    forall k :: 0 <= k < |worklist| ==> Targets(slots, worklist[k], worklist[k].index) && worklist[k].index in reached
  }

  /** What holds at every unit of work, whatever the phase. */
  ghost predicate Common(c: Collector) {
    && Inv(c.base) && Inv(c.store) && NoMarks(c.base.slots)
    && c.store.collector == Some(c.id) && !c.store.mutationLocked && !c.store.dispatchLocked
    && c.capacity >= |c.base.slots| && !c.overflowed
    && Scanned(c.base.roots.entries, c.store.roots.entries, c.scanned)
    && c.rootCursor == |c.scanned| == c.work.roots
    && Sound(c.base.slots, c.scanned, c.reached)
    && c.work.marks + |c.worklist| == |c.reached|
    && c.work.sweeps == c.sweepCursor
  }

  /** While discovering, with the references of the slots in `open` not yet all followed. */
  ghost predicate Discovering(c: Collector, open: set<nat>) {
    && Common(c) && (c.phase.SeedRoots? || c.phase.Marking?)
    && MarkedExactly(c.base.slots, c.store.slots, c.reached)
    && Queued(c.base.slots, c.worklist, c.reached)
    && ClosedBut(c.base.slots, c.reached, Indices(c.worklist) + open)
    && c.sweepCursor == 0
  }

  /** The invariant of an active cycle. */
  ghost predicate CycleInv(c: Collector) {
    match c.phase
    case Idle => false
    case SeedRoots => Discovering(c, {}) && Covers(c.base.slots, c.scanned, c.reached) && c.work.marks == 0
    case Marking =>
      Discovering(c, {}) && Covers(c.base.slots, c.scanned, c.reached) && c.rootCursor == |c.base.roots.entries|
    case Sweeping =>
      && Common(c) && Covers(c.base.slots, c.scanned, c.reached) && c.rootCursor == |c.base.roots.entries| && c.worklist == []
      && ClosedBut(c.base.slots, c.reached, {})
      && SweptTo(c.base.slots, c.store.slots, c.reached, c.sweepCursor)
  }

  lemma RequestStartsCycle(c: Collector)
    requires StartFailure(c) == RuntimeResult.Success && Inv(c.store) && NoMarks(c.store.slots) && !c.overflowed
    ensures CycleInv(RequestCollection(c))
  {
  }

  // ------------------------------------------------------------------ discovery

  /** The worklist can never overflow: an undiscovered live slot leaves room for itself. */
  lemma RoomForOneMore(slots: seq<Slot>, reached: set<nat>, i: nat)
    requires i < |slots| && i !in reached && forall k :: k in reached ==> k < |slots|
    ensures |reached| < |slots|
  {
    BoundedSetSize(reached + {i}, |slots|);
  }

  predicate Undiscovered(c: Collector, h: Handle) { Targets(c.base.slots, h, h.index) && h.index !in c.reached }

  /** Discovery acts on a live, undiscovered target and on nothing else; it never finds the worklist full. */
  lemma DiscoverCases(c: Collector, h: Handle, open: set<nat>)
    requires Discovering(c, open)
    ensures Discover(c, h) == if !Undiscovered(c, h) then c else
              c.(store := SetMarked(c.store, h.index, true), worklist := c.worklist + [h], reached := c.reached + {h.index})
  {
    hide Inv, Scanned, ClosedBut, Reaches, NoMarks, Queued;
    if h.index < |c.base.slots| {
      assert c.store.slots[h.index] == c.base.slots[h.index].(marked := h.index in c.reached);
    }
    if Undiscovered(c, h) {
      RoomForOneMore(c.base.slots, c.reached, h.index);
      assert |c.base.slots| <= UINT32_MAX by { BaseInRange(c); }
    }
  }

  lemma BaseInRange(c: Collector)
    requires Common(c)
    ensures |c.base.slots| <= UINT32_MAX && c.store.configured
  {
  }

  /** Adding a reachable, queued slot keeps the discovered set sound, covering and closed but for the queue. */
  lemma DiscoveredGrows(slots: seq<Slot>, scanned: seq<Handle>, reached: set<nat>, worklist: seq<Handle>, open: set<nat>, h: Handle)
    requires Sound(slots, scanned, reached) && ClosedBut(slots, reached, Indices(worklist) + open)
    requires Queued(slots, worklist, reached) && Targets(slots, h, h.index) && Reaches(slots, scanned, h.index)
    ensures Sound(slots, scanned, reached + {h.index}) && Queued(slots, worklist + [h], reached + {h.index})
    ensures ClosedBut(slots, reached + {h.index}, Indices(worklist + [h]) + open)
  {
    hide Reaches, Edge;
    assert Indices(worklist + [h]) == Indices(worklist) + {h.index};
  }

  lemma MarkFreshSlot(c: Collector, h: Handle)
    requires Inv(c.store) && MarkedExactly(c.base.slots, c.store.slots, c.reached) && Targets(c.base.slots, h, h.index)
    ensures var s := SetMarked(c.store, h.index, true);
            && Inv(s) && MarkedExactly(c.base.slots, s.slots, c.reached + {h.index})
            && s == c.store.(slots := s.slots)
  {
    SetMarkedKeeps(c.store, h.index, true);
    hide Inv;
  }

  /** Discovering a handle whose target is reachable adds exactly that target, marked and queued. */
  lemma DiscoverKeeps(c: Collector, h: Handle, open: set<nat>)
    requires Discovering(c, open)
    requires forall i: nat :: Targets(c.base.slots, h, i) ==> Reaches(c.base.slots, c.scanned, i)
    ensures var d := Discover(c, h);
            && Discovering(d, open) && c.reached <= d.reached
            && (forall i: nat :: Targets(c.base.slots, h, i) ==> i in d.reached)
            && d == c.(store := d.store, worklist := d.worklist, reached := d.reached)
  {
    hide Discover, Inv, Reaches, MarkedExactly, ClosedBut, Sound, Queued, Scanned, NoMarks, SetMarked, Indices;
    DiscoverCases(c, h, open);
    if Undiscovered(c, h) {
      MarkFreshSlot(c, h);
      DiscoveredGrows(c.base.slots, c.scanned, c.reached, c.worklist, open, h);
    }
  }

  /** Tracing an object discovers the target of each of its references. */
  lemma {:induction false} DiscoverAllKeeps(c: Collector, handles: seq<Handle>, open: set<nat>)
    requires Discovering(c, open)
    requires forall k, i: nat :: 0 <= k < |handles| && Targets(c.base.slots, handles[k], i) ==> Reaches(c.base.slots, c.scanned, i)
    ensures var d := DiscoverAll(c, handles);
            && Discovering(d, open) && c.reached <= d.reached
            && (forall k, i: nat :: 0 <= k < |handles| && Targets(c.base.slots, handles[k], i) ==> i in d.reached)
            && d == c.(store := d.store, worklist := d.worklist, reached := d.reached)
  {
    hide Discovering, Discover, Targets, Reaches;
    if handles != [] {
      var n := |handles| - 1;
      assert forall k, i: nat :: 0 <= k < n && Targets(c.base.slots, handles[..n][k], i) ==> Reaches(c.base.slots, c.scanned, i);
      DiscoverAllKeeps(c, handles[..n], open);
      var d := DiscoverAll(c, handles[..n]);
      DiscoverKeeps(d, handles[n], open);
      assert forall k :: 0 <= k < n ==> handles[k] == handles[..n][k];
    }
  }

  // ------------------------------------------------------------------ every unit of work keeps the invariant

  /** Scanning one more root entry, before its target is discovered. */
  lemma ScanRoot(c: Collector, h: Handle)
    requires Discovering(c, {}) && c.rootCursor < |c.store.roots.entries| && h == c.store.roots.entries[c.rootCursor]
    ensures Discovering(c.(rootCursor := c.rootCursor + 1, scanned := c.scanned + [h],
                           work := c.work.(roots := c.work.roots + 1)), {})
  {
    hide Inv, MarkedExactly, ClosedBut, Reaches, Targets, NoMarks;
    forall i | i in c.reached ensures Reaches(c.base.slots, c.scanned + [h], i) {
      ReachesExtended(c.base.slots, c.scanned, h, i);
    }
  }

  lemma ReachesExtended(slots: seq<Slot>, roots: seq<Handle>, h: Handle, i: nat)
    requires Reaches(slots, roots, i)
    ensures Reaches(slots, roots + [h], i)
  {
    hide Edge, Targets;
    var p :| Path(slots, roots, p) && p[|p| - 1] == i;
    var k :| 0 <= k < |roots| && Targets(slots, roots[k], p[0]);
    assert Targets(slots, (roots + [h])[k], p[0]);
    assert Path(slots, roots + [h], p);
  }

  lemma NewRootReaches(slots: seq<Slot>, roots: seq<Handle>, h: Handle, i: nat)
    requires Targets(slots, h, i)
    ensures Reaches(slots, roots + [h], i)
  {
    assert (roots + [h])[|roots|] == h;
    RootsReach(slots, roots + [h], i);
  }

  lemma CoversExtended(slots: seq<Slot>, roots: seq<Handle>, h: Handle, before: set<nat>, after: set<nat>)
    requires Covers(slots, roots, before) && before <= after
    requires forall i: nat :: Targets(slots, h, i) ==> i in after
    ensures Covers(slots, roots + [h], after)
  {
    hide Targets;
    forall i: nat | IsRooted(slots, roots + [h], i) ensures i in after {
      var k :| 0 <= k < |roots + [h]| && Targets(slots, (roots + [h])[k], i);
      if k < |roots| { assert Targets(slots, roots[k], i); }
    }
  }

  lemma SeedOneKeeps(c: Collector)
    requires CycleInv(c) && c.phase.SeedRoots? && c.rootCursor < |c.store.roots.entries|
    ensures CycleInv(SeedOne(c))
  {
    hide Discovering, Discover, Covers, Reaches, Targets;
    var h := c.store.roots.entries[c.rootCursor];
    var scanned := c.(rootCursor := c.rootCursor + 1, scanned := c.scanned + [h], work := c.work.(roots := c.work.roots + 1));
    ScanRoot(c, h);
    forall i: nat | Targets(c.base.slots, h, i) ensures Reaches(c.base.slots, scanned.scanned, i) {
      NewRootReaches(c.base.slots, c.scanned, h, i);
    }
    DiscoverKeeps(scanned, h, {});
    CoversExtended(c.base.slots, c.scanned, h, c.reached, SeedOne(c).reached);
  }

  /** The last queued handle names a discovered object, which resolves. */
  lemma QueuedResolves(c: Collector)
    requires Discovering(c, {}) && |c.worklist| > 0
    ensures var h := c.worklist[|c.worklist| - 1];
            && h.index in c.reached && Targets(c.base.slots, h, h.index)
            && Resolve(c.store, h) == c.base.slots[h.index].instance && Resolve(c.store, h).Object?
  {
    hide Scanned, Reaches, Edge, NoMarks, CountersExact, HistoryOk, ClosedBut;
    var h := c.worklist[|c.worklist| - 1];
    assert SlotOk(c.base.slots[h.index], c.base.slotSize);
    assert c.store.slots[h.index] == c.base.slots[h.index].(marked := true);
  }

  /** Taking it off the queue leaves its references as the open ones. */
  lemma PopKeeps(c: Collector)
    requires Discovering(c, {}) && |c.worklist| > 0
    ensures var n := |c.worklist| - 1;
            Discovering(c.(worklist := c.worklist[..n], work := c.work.(marks := c.work.marks + 1)), {c.worklist[n].index})
  {
    hide Scanned, Reaches, Edge, NoMarks, Inv, Sound, MarkedExactly, Targets;
    var n := |c.worklist| - 1;
    assert c.worklist == c.worklist[..n] + [c.worklist[n]];
    assert Indices(c.worklist) + {} == Indices(c.worklist[..n]) + {c.worklist[n].index};
  }

  lemma CloseTraced(slots: seq<Slot>, reached: set<nat>, open: set<nat>, i: nat)
    requires ClosedBut(slots, reached, open + {i})
    requires forall j: nat :: Edge(slots, i, j) ==> j in reached
    ensures ClosedBut(slots, reached, open + {})
  {
    hide Edge;
  }

  lemma FinishTracing(c: Collector, i: nat)
    requires Discovering(c, {i})
    requires forall j: nat :: Edge(c.base.slots, i, j) ==> j in c.reached
    ensures Discovering(c, {})
  {
    hide Common, MarkedExactly, Queued, Edge, ClosedBut;
    CloseTraced(c.base.slots, c.reached, Indices(c.worklist), i);
  }

  lemma ReferencesReach(c: Collector, i: nat)
    requires Common(c) && i in c.reached && i < |c.base.slots| && c.base.slots[i].state.Live? && c.base.slots[i].instance.Object?
    ensures var refs := c.base.slots[i].instance.references;
            forall k, j: nat :: 0 <= k < |refs| && Targets(c.base.slots, refs[k], j) ==> Reaches(c.base.slots, c.scanned, j)
  {
    hide Targets, Reaches, Inv, Scanned, NoMarks;
    forall k, j: nat | 0 <= k < |c.base.slots[i].instance.references| && Targets(c.base.slots, c.base.slots[i].instance.references[k], j)
      ensures Reaches(c.base.slots, c.scanned, j)
    {
      assert Edge(c.base.slots, i, j);
      EdgeExtends(c.base.slots, c.scanned, i, j);
    }
  }

  lemma CoversMore(slots: seq<Slot>, roots: seq<Handle>, before: set<nat>, after: set<nat>)
    requires Covers(slots, roots, before) && before <= after
    ensures Covers(slots, roots, after)
  {
  }

  lemma MarkOneKeeps(c: Collector)
    requires CycleInv(c) && c.phase.Marking? && |c.worklist| > 0
    ensures CycleInv(MarkOne(c))
  {
    hide Discovering, DiscoverAll, Covers, Reaches, Resolve;
    var n := |c.worklist| - 1;
    var h := c.worklist[n];
    QueuedResolves(c);
    PopKeeps(c);
    var popped := c.(worklist := c.worklist[..n], work := c.work.(marks := c.work.marks + 1));
    DiscoveringIsCommon(popped, {h.index});
    ReferencesReach(popped, h.index);
    var references := c.base.slots[h.index].instance.references;
    DiscoverAllKeeps(popped, references, {h.index});
    FinishTracing(DiscoverAll(popped, references), h.index);
    CoversMore(c.base.slots, c.scanned, c.reached, MarkOne(c).reached);
  }

  lemma DiscoveringIsCommon(c: Collector, open: set<nat>)
    requires Discovering(c, open)
    ensures Common(c)
  {
  }

  // ------------------------------------------------------------------ sweeping

  lemma ScannedShrinks(base: seq<Handle>, now: RootTable, later: RootTable, scanned: seq<Handle>)
    requires Scanned(base, now.entries, scanned) && RootsShrink(now, later)
    ensures Scanned(base, later.entries, scanned)
  {
  }

  /** Sweeping one slot changes the store as `Swept` says, and keeps its invariant and locks. */
  lemma SweepOneEffect(c: Collector)
    requires CycleInv(c) && c.phase.Sweeping? && c.sweepCursor < |c.store.slots|
    ensures var d := SweepOne(c);
            var i := c.sweepCursor;
            && Inv(d.store) && SameFrame(c.store, d.store) && RootsShrink(c.store.roots, d.store.roots)
            && d.store.slots == c.store.slots[i := Swept(c.base.slots[i], i in c.reached)]
            && d == c.(sweepCursor := i + 1, work := c.work.(sweeps := c.work.sweeps + 1), store := d.store)
  {
    hide CountersExact, HistoryOk, Reaches, Scanned, Covers, ClosedBut, DestroySlot;
    var i := c.sweepCursor;
    assert SlotOk(c.store.slots[i], c.store.slotSize);
    assert c.store.slots[i] == c.base.slots[i].(marked := i in c.reached);
    assert RootsShrink(c.store.roots, c.store.roots);
    if c.store.slots[i].state.Live? && i !in c.reached {
      DestroySlotKeeps(c.store, i);
    } else {
      SetMarkedKeeps(c.store, i, false);
      assert c.store.slots[i := c.store.slots[i]] == c.store.slots;
    }
  }

  lemma SweptOneMore(base: seq<Slot>, now: seq<Slot>, reached: set<nat>, i: nat)
    requires SweptTo(base, now, reached, i) && i < |base|
    ensures SweptTo(base, now[i := Swept(base[i], i in reached)], reached, i + 1)
  {
  }

  lemma SweepOneKeeps(c: Collector)
    requires CycleInv(c) && c.phase.Sweeping? && c.sweepCursor < |c.store.slots|
    ensures CycleInv(SweepOne(c))
  {
    hide Inv, Sound, Covers, ClosedBut, Scanned, RootsShrink, SweepOne, NoMarks;
    SweepOneEffect(c);
    SweptOneMore(c.base.slots, c.store.slots, c.reached, c.sweepCursor);
    ScannedShrinks(c.base.roots.entries, c.store.roots, SweepOne(c).store.roots, c.scanned);
  }

  // ------------------------------------------------------------------ completion

  /** A completed cycle: the discovered set is the set reachable from the scanned roots, every slot is
      swept accordingly, and each unit of work was done exactly once. */
  ghost predicate Completed(c: Collector) {
    && c.phase.Idle? && Inv(c.base) && Inv(c.store) && NoMarks(c.base.slots) && c.store.collector.None? && !c.overflowed
    && !c.store.mutationLocked && !c.store.dispatchLocked
    && |c.scanned| == |c.base.roots.entries| && Scanned(c.base.roots.entries, c.store.roots.entries, c.scanned)
    && Sound(c.base.slots, c.scanned, c.reached) && Covers(c.base.slots, c.scanned, c.reached)
    && ClosedBut(c.base.slots, c.reached, {})
    && SweptTo(c.base.slots, c.store.slots, c.reached, |c.base.slots|)
    && c.work == Work(|c.base.roots.entries|, |c.reached|, |c.base.slots|)
  }

  lemma NextKeeps(c: Collector)
    requires CycleInv(c)
    ensures Next(c).base == c.base && Next(c).id == c.id && Next(c).capacity == c.capacity
    ensures if Next(c).phase.Idle? then Completed(Next(c)) else CycleInv(Next(c))
  {
    hide SeedOne, MarkOne, SweepOne;
    match c.phase
    case SeedRoots =>
      if c.rootCursor < |c.store.roots.entries| { SeedOneKeeps(c); UnitKeepsIdentity(c); } else { SeedsDone(c); }
    case Marking =>
      if |c.worklist| > 0 { MarkOneKeeps(c); UnitKeepsIdentity(c); } else { MarksDone(c); }
    case Sweeping =>
      if c.sweepCursor < |c.store.slots| { SweepOneKeeps(c); UnitKeepsIdentity(c); } else { SweepsDone(c); }
  }

  lemma {:induction false} DiscoverAllKeepsIdentity(c: Collector, handles: seq<Handle>)
    ensures var d := DiscoverAll(c, handles); d.base == c.base && d.id == c.id && d.capacity == c.capacity
  {
    if handles != [] { DiscoverAllKeepsIdentity(c, handles[..|handles| - 1]); }
  }

  lemma UnitKeepsIdentity(c: Collector)
    ensures c.rootCursor < |c.store.roots.entries| ==>
              var d := SeedOne(c); d.base == c.base && d.id == c.id && d.capacity == c.capacity
    ensures |c.worklist| > 0 ==> var d := MarkOne(c); d.base == c.base && d.id == c.id && d.capacity == c.capacity
    ensures c.sweepCursor < |c.store.slots| ==>
              var d := SweepOne(c); d.base == c.base && d.id == c.id && d.capacity == c.capacity
  {
    hide Reclaim, SetMarked, DiscoverAll;
    if |c.worklist| > 0 {
      var o := Resolve(c.store, c.worklist[|c.worklist| - 1]);
      var popped := c.(worklist := c.worklist[..|c.worklist| - 1], work := c.work.(marks := c.work.marks + 1));
      if o.Object? { DiscoverAllKeepsIdentity(popped, o.references); }
    }
  }

  lemma SeedsDone(c: Collector)
    requires CycleInv(c) && c.phase.SeedRoots? && c.rootCursor >= |c.store.roots.entries|
    ensures CycleInv(c.(phase := Marking))
  {
    hide Inv, MarkedExactly, ClosedBut, Sound, Queued, Covers, NoMarks;
  }

  lemma MarksDone(c: Collector)
    requires CycleInv(c) && c.phase.Marking? && c.worklist == []
    ensures CycleInv(c.(phase := Sweeping))
  {
    hide Inv, Sound, Covers, NoMarks, Scanned, Edge;
    assert Indices(c.worklist) + {} == {};
  }

  lemma SweepsDone(c: Collector)
    requires CycleInv(c) && c.phase.Sweeping? && c.sweepCursor >= |c.store.slots|
    ensures Completed(Complete(c))
  {
    hide HistoryOk, Sound, Covers, NoMarks, ClosedBut;
  }

  // ------------------------------------------------------------------ slices

  /** The work of a whole cycle is bounded by the tables. */
  function Totals(c: Collector): Work { Work(|c.base.roots.entries|, |c.base.slots|, |c.base.slots|) }

  lemma WorkIsBounded(c: Collector)
    requires CycleInv(c) || Completed(c)
    ensures c.work.AtMost(Totals(c))
  {
    hide Inv, Reaches, Covers, ClosedBut, NoMarks;
    BoundedSetSize(c.reached, |c.base.slots|);
  }

  /** Budgets as large as the tables never block: the phase at hand always has room for its next unit. */
  lemma NeverBlocked(c: Collector, limit: Work)
    requires CycleInv(c) && Totals(c).AtMost(limit)
    ensures !Blocked(c, limit)
  {
    hide Inv, Reaches, Covers, ClosedBut, NoMarks;
    BoundedSetSize(c.reached, |c.base.slots|);
  }

  lemma NeverIdle(c: Collector)
    requires CycleInv(c)
    ensures !c.phase.Idle?
  {
  }

  lemma {:induction false} SliceKeeps(c: Collector, limit: Work)
    requires CycleInv(c)
    ensures var d := Slice(c, limit);
            && (if d.phase.Idle? then Completed(d) else CycleInv(d))
            && d.base == c.base && d.id == c.id && d.capacity == c.capacity
            && c.work.AtMost(d.work) && (c.work.AtMost(limit) ==> d.work.AtMost(limit))
    decreases PhaseRank(c.phase), Left(c.work, limit)
  {
    hide CycleInv, Completed;
    NeverIdle(c);
    if !Blocked(c, limit) {
      NextKeeps(c);
      NextWorks(c);
      if !Next(c).phase.Idle? { SliceKeeps(Next(c), limit); }
    }
  }

  /** A step either does one unit of work in its own phase, or moves on to the next phase. */
  lemma NextWorks(c: Collector)
    ensures var d := Next(c);
            match c.phase
            case Idle => d == c
            case SeedRoots => if c.rootCursor < |c.store.roots.entries| then d.work == c.work.(roots := c.work.roots + 1)
                              else d.work == c.work && d.phase == Marking
            case Marking => if |c.worklist| > 0 then d.work == c.work.(marks := c.work.marks + 1)
                            else d.work == c.work && d.phase == Sweeping
            case Sweeping => if c.sweepCursor < |c.store.slots| then d.work == c.work.(sweeps := c.work.sweeps + 1)
                             else d.work == c.work && d.phase == Idle
  {
  }

  /** A slice never exceeds the budget of any phase. */
  lemma SliceStaysWithinBudget(c: Collector, budget: Work)
    requires CycleInv(c)
    ensures Advance(c, budget).work.AtMost(c.work.Plus(budget)) && c.work.AtMost(Advance(c, budget).work)
  {
    hide Inv, Reaches, Covers, ClosedBut, NoMarks;
    AdvanceIsSlice(c, budget);
    SliceKeeps(c, c.work.Plus(budget));
  }

  lemma AdvanceIsSlice(c: Collector, budget: Work)
    requires CycleInv(c)
    ensures AdvanceFailure(c) == RuntimeResult.Success && Advance(c, budget) == Slice(c, c.work.Plus(budget))
  {
    hide Inv, Reaches, Covers, ClosedBut, NoMarks, Sound;
    assert c.(overflowed := false) == c;
  }

  /** However a cycle is sliced, finishing it from there is finishing it from the start. */
  lemma {:induction false} SlicingAbsorbed(c: Collector, limit: Work, full: Work)
    requires CycleInv(c) && Totals(c).AtMost(full)
    ensures Slice(Slice(c, limit), full) == Slice(c, full)
    decreases PhaseRank(c.phase), Left(c.work, limit)
  {
    hide CycleInv, Completed;
    if !Blocked(c, limit) {
      NeverBlocked(c, full);
      NextKeeps(c);
      NextWorks(c);
      if !Next(c).phase.Idle? { SlicingAbsorbed(Next(c), limit, full); }
    }
  }

  lemma {:induction false} FullSliceFinishes(c: Collector, full: Work)
    requires CycleInv(c) && Totals(c).AtMost(full)
    ensures Slice(c, full).phase.Idle?
    decreases PhaseRank(c.phase), Left(c.work, full)
  {
    hide CycleInv, Completed;
    NeverBlocked(c, full);
    NextKeeps(c);
    NextWorks(c);
    if !Next(c).phase.Idle? { FullSliceFinishes(Next(c), full); }
  }

  /** With room in every phase a slice that does not finish the cycle does at least one unit of work. */
  lemma {:induction false} SliceProgresses(c: Collector, limit: Work)
    requires CycleInv(c) && c.work.roots < limit.roots && c.work.marks < limit.marks && c.work.sweeps < limit.sweeps
    ensures Slice(c, limit).phase.Idle? || Slice(c, limit).work.Total() > c.work.Total()
    decreases PhaseRank(c.phase)
  {
    hide CycleInv, Completed;
    NeverIdle(c);
    NextKeeps(c);
    NextWorks(c);
    if !Next(c).phase.Idle? {
      if Next(c).work == c.work {
        SliceProgresses(Next(c), limit);
      } else {
        SliceKeeps(Next(c), limit);
      }
    }
  }

  // ------------------------------------------------------------------ interleaving with the application

  /** What may happen during a cycle: a budgeted slice, or any public store operation. */
  datatype Turn = SliceTurn(budget: Work) | StoreTurn(op: Operation)

  predicate WellTypedTurns(turns: seq<Turn>) {
    forall k :: 0 <= k < |turns| ==> turns[k].StoreTurn? ==> turns[k].op.WellTyped() && turns[k].op.Public()
  }

  /** Runs the turns until the cycle is over; turns after that are not part of it. */
  function RunCycle(c: Collector, turns: seq<Turn>): Collector
    requires WellTypedTurns(turns)
  {
    if turns == [] then c
    else
      var d := RunCycle(c, turns[..|turns| - 1]);
      if d.phase.Idle? then d
      else match turns[|turns| - 1]
        case SliceTurn(budget) => Advance(d, budget)
        case StoreTurn(op) => d.(store := Step(d.store, op))
  }

  /** While a collector owns the store every public operation is refused, except releasing a root. */
  lemma CycleFreezesStore(s: Store, op: Operation)
    requires s.collector.Some? && !s.dispatchLocked && op.WellTyped() && op.Public()
    ensures SameButRoots(s, Step(s, op))
  {
  }

  lemma StoreTurnKeeps(c: Collector, op: Operation)
    requires CycleInv(c) && op.WellTyped() && op.Public()
    ensures CycleInv(c.(store := Step(c.store, op)))
  {
    hide Step, SameButRoots, Inv, Sound, Covers, ClosedBut, MarkedExactly, SweptTo, Queued, NoMarks, Scanned;
    CycleFreezesStore(c.store, op);
    StepKeeps(c.store, op);
    StoreTurnShrinks(c.base.roots.entries, c.store, Step(c.store, op), c.scanned);
  }

  lemma StoreTurnShrinks(base: seq<Handle>, s: Store, t: Store, scanned: seq<Handle>)
    requires Scanned(base, s.roots.entries, scanned) && SameButRoots(s, t)
    ensures Scanned(base, t.roots.entries, scanned) && t == s.(roots := t.roots)
  {
    ScannedShrinks(base, s.roots, t.roots, scanned);
  }

  lemma {:induction false} RunCycleKeeps(c: Collector, turns: seq<Turn>)
    requires CycleInv(c) && WellTypedTurns(turns)
    ensures var d := RunCycle(c, turns);
            && (if d.phase.Idle? then Completed(d) else CycleInv(d))
            && d.base == c.base && d.id == c.id && d.capacity == c.capacity
  {
    hide CycleInv, Completed, Slice, Step;
    NeverIdle(c);
    if turns != [] {
      RunCycleKeeps(c, turns[..|turns| - 1]);
      var d := RunCycle(c, turns[..|turns| - 1]);
      if !d.phase.Idle? {
        match turns[|turns| - 1]
        case SliceTurn(budget) => AdvanceIsSlice(d, budget); SliceKeeps(d, d.work.Plus(budget));
        case StoreTurn(op) => StoreTurnKeeps(d, op); NeverIdle(d);
      }
    }
  }

  /**
   Exactness of collection. Whatever the slicing, and whatever the application does to the store meanwhile,
   a cycle that completes has: destroyed no live object that the roots held at completion reach, kept none
   that the roots held at the request do not reach, and left every other slot untouched.
   */
  lemma CollectionIsExact(c: Collector, turns: seq<Turn>, i: nat)
    requires StartFailure(c) == RuntimeResult.Success && Inv(c.store) && NoMarks(c.store.slots) && !c.overflowed
    requires WellTypedTurns(turns) && RunCycle(RequestCollection(c), turns).phase.Idle? && i < |c.store.slots|
    ensures var (base, end) := (c.store, RunCycle(RequestCollection(c), turns).store);
            && |end.slots| == |base.slots|
            && (!base.slots[i].state.Live? ==> end.slots[i] == base.slots[i])
            && (base.slots[i].state.Live? ==> end.slots[i] == base.slots[i] || end.slots[i] == Recycle(base.slots[i]))
            && (base.slots[i].state.Live? && Reaches(base.slots, end.roots.entries, i) ==> end.slots[i] == base.slots[i])
            && (base.slots[i].state.Live? && end.slots[i] == base.slots[i] ==> Reaches(base.slots, base.roots.entries, i))
  {
    hide Inv, Reaches, SlotOk;
    RequestStartsCycle(c);
    RunCycleKeeps(RequestCollection(c), turns);
    var d := RunCycle(RequestCollection(c), turns);
    SurvivorsAreReachable(d, i);
  }

  /** In a completed cycle the survivors are exactly what the scanned roots reach. */
  lemma SurvivorsAreReachable(d: Collector, i: nat)
    requires Completed(d) && i < |d.base.slots|
    ensures d.store.slots[i] == Swept(d.base.slots[i], Reaches(d.base.slots, d.scanned, i))
    ensures d.base.slots[i].state.Live? ==> Recycle(d.base.slots[i]) != d.base.slots[i]
    ensures Reaches(d.base.slots, d.store.roots.entries, i) ==> Reaches(d.base.slots, d.scanned, i)
    ensures Reaches(d.base.slots, d.scanned, i) ==> Reaches(d.base.slots, d.base.roots.entries, i)
  {
    hide Inv, Reaches, Edge, IsRooted;
    ClosedIsReachable(d.base.slots, d.scanned, d.reached, i);
    if Reaches(d.base.slots, d.store.roots.entries, i) {
      ReachesMonotone(d.base.slots, d.store.roots.entries, d.scanned, i);
    }
    if Reaches(d.base.slots, d.scanned, i) {
      ReachesMonotone(d.base.slots, d.scanned, d.base.roots.entries, i);
    }
  }

  /** No survivor is left with a dangling reference: what it refers to resolves exactly as before. */
  lemma SurvivorsKeepTheirReferents(c: Collector, turns: seq<Turn>, i: nat, k: nat)
    requires StartFailure(c) == RuntimeResult.Success && Inv(c.store) && NoMarks(c.store.slots) && !c.overflowed
    requires WellTypedTurns(turns) && RunCycle(RequestCollection(c), turns).phase.Idle?
    requires i < |c.store.slots| && c.store.slots[i].state.Live?
    requires c.store.slots[i].instance.Object? && k < |c.store.slots[i].instance.references|
    ensures var (base, end) := (c.store, RunCycle(RequestCollection(c), turns).store);
            var h := base.slots[i].instance.references[k];
            |end.slots| == |base.slots| && (end.slots[i] == base.slots[i] ==> Resolve(end, h) == Resolve(base, h))
  {
    hide Inv, Reaches, RunCycle;
    RequestStartsCycle(c);
    RunCycleKeeps(RequestCollection(c), turns);
    var d := RunCycle(RequestCollection(c), turns);
    var h := c.store.slots[i].instance.references[k];
    SurvivorsAreReachable(d, i);
    BothConfigured(d);
    if d.store.slots[i] == c.store.slots[i] {
      if Targets(c.store.slots, h, h.index) {
        assert Edge(c.store.slots, i, h.index);
        EdgeExtends(c.store.slots, d.scanned, i, h.index);
      }
      if h.index < |c.store.slots| { SurvivorsAreReachable(d, h.index); }
    }
  }

  lemma BothConfigured(d: Collector)
    requires Completed(d)
    ensures d.base.configured && d.store.configured && |d.store.slots| == |d.base.slots|
  {
    hide Reaches;
  }

  // ------------------------------------------------------------------ slicing is invisible

  /** A sequence of budgeted advances, stopping once the cycle is over. */
  function Advances(c: Collector, budgets: seq<Work>): Collector {
    if budgets == [] then c
    else
      var d := Advances(c, budgets[..|budgets| - 1]);
      if d.phase.Idle? then d else Advance(d, budgets[|budgets| - 1])
  }

  lemma {:induction false} AdvancesAbsorbed(c: Collector, budgets: seq<Work>, full: Work)
    requires CycleInv(c) && Totals(c).AtMost(full)
    ensures var d := Advances(c, budgets);
            && (if d.phase.Idle? then Completed(d) else CycleInv(d))
            && d.base == c.base && Slice(d, full) == Slice(c, full)
  {
    hide CycleInv, Completed;
    NeverIdle(c);
    if budgets != [] {
      var n := |budgets| - 1;
      AdvancesAbsorbed(c, budgets[..n], full);
      var d := Advances(c, budgets[..n]);
      if !d.phase.Idle? {
        AdvanceIsSlice(d, budgets[n]);
        SliceKeeps(d, d.work.Plus(budgets[n]));
        SlicingAbsorbed(d, d.work.Plus(budgets[n]), full);
      }
    }
  }

  /** The whole of a cycle that is not interleaved with anything: slices of any size reach the state that
      one unbounded collection reaches, including its survivors and its operation counts. */
  lemma SlicingIsInvisible(c: Collector, budgets: seq<Work>)
    requires StartFailure(c) == RuntimeResult.Success && Inv(c.store) && NoMarks(c.store.slots) && !c.overflowed && c.phase.Idle?
    requires |c.store.roots.entries| <= UINT32_MAX
    ensures CollectFull(c).phase.Idle?
    ensures Advances(RequestCollection(c), budgets).phase.Idle? ==> Advances(RequestCollection(c), budgets) == CollectFull(c)
  {
    hide Inv, CycleInv, Completed;
    var r := RequestCollection(c);
    RequestStartsCycle(c);
    TablesFit(c);
    AdvanceIsSlice(r, UNLIMITED);
    FullSliceFinishes(r, UNLIMITED);
    AdvancesAbsorbed(r, budgets, UNLIMITED);
  }

  lemma TablesFit(c: Collector)
    requires Inv(c.store) && StartFailure(c) == RuntimeResult.Success && |c.store.roots.entries| <= UINT32_MAX
    ensures Totals(RequestCollection(c)).AtMost(UNLIMITED) && RequestCollection(c).work.Plus(UNLIMITED) == UNLIMITED
  {
  }

  predicate Positive(budgets: seq<Work>) {
    forall k :: 0 <= k < |budgets| ==> budgets[k].roots > 0 && budgets[k].marks > 0 && budgets[k].sweeps > 0
  }

  lemma {:induction false} AdvancesProgress(c: Collector, budgets: seq<Work>)
    requires CycleInv(c) && Positive(budgets)
    ensures Advances(c, budgets).phase.Idle? || Advances(c, budgets).work.Total() >= c.work.Total() + |budgets|
  {
    hide CycleInv, Completed;
    if budgets != [] {
      var n := |budgets| - 1;
      AdvancesProgress(c, budgets[..n]);
      AdvancesAbsorbed(c, budgets[..n], Totals(c));
      var d := Advances(c, budgets[..n]);
      if !d.phase.Idle? {
        AdvanceIsSlice(d, budgets[n]);
        SliceProgresses(d, d.work.Plus(budgets[n]));
      }
    }
  }

  /** Every cycle terminates: positive budgets finish it within as many slices as the tables have entries,
      counting the slot table twice (once to mark, once to sweep), plus one. */
  lemma CycleTerminates(c: Collector, budgets: seq<Work>)
    requires StartFailure(c) == RuntimeResult.Success && Inv(c.store) && NoMarks(c.store.slots) && !c.overflowed
    requires Positive(budgets) && |budgets| > |c.store.roots.entries| + 2 * |c.store.slots|
    ensures Advances(RequestCollection(c), budgets).phase.Idle?
  {
    hide Inv, CycleInv, Completed;
    var r := RequestCollection(c);
    RequestStartsCycle(c);
    AdvancesProgress(r, budgets);
    AdvancesAbsorbed(r, budgets, Totals(r));
    if !Advances(r, budgets).phase.Idle? { WorkIsBounded(Advances(r, budgets)); }
  }

  // ------------------------------------------------------------------ exact counts without interference

  /** Nothing released a root while roots were being scanned. */
  predicate Faithful(c: Collector) {
    && |c.scanned| <= |c.base.roots.entries| && c.scanned == c.base.roots.entries[..|c.scanned|]
    && (c.phase.SeedRoots? || c.phase.Marking? ==> c.store.roots == c.base.roots)
  }

  lemma {:induction false} DiscoverAllKeepsScan(c: Collector, handles: seq<Handle>)
    ensures DiscoverAll(c, handles).scanned == c.scanned
  {
    if handles != [] { DiscoverAllKeepsScan(c, handles[..|handles| - 1]); }
  }

  lemma NextKeepsFaithful(c: Collector)
    requires CycleInv(c) && Faithful(c)
    ensures Faithful(Next(c))
  {
    hide Inv, Sound, Covers, ClosedBut, NoMarks, MarkedExactly, SweptTo, Queued, DiscoverAll, Reclaim, SetMarked;
    NextKeeps(c);
    if c.phase.Marking? && |c.worklist| > 0 {
      var o := Resolve(c.store, c.worklist[|c.worklist| - 1]);
      var popped := c.(worklist := c.worklist[..|c.worklist| - 1], work := c.work.(marks := c.work.marks + 1));
      if o.Object? { DiscoverAllKeepsScan(popped, o.references); }
    }
  }

  lemma {:induction false} SliceKeepsFaithful(c: Collector, limit: Work)
    requires CycleInv(c) && Faithful(c)
    ensures Faithful(Slice(c, limit))
    decreases PhaseRank(c.phase), Left(c.work, limit)
  {
    hide CycleInv, Completed, Faithful;
    if !Blocked(c, limit) {
      NextKeeps(c);
      NextKeepsFaithful(c);
      NextWorks(c);
      if !Next(c).phase.Idle? { SliceKeepsFaithful(Next(c), limit); }
    }
  }

  /** Left alone, a full collection keeps exactly the objects reachable from the roots, and does exactly one
      root operation per root entry, one mark per reachable object and one sweep per slot. */
  lemma FullCollectionIsExact(c: Collector, i: nat)
    requires StartFailure(c) == RuntimeResult.Success && Inv(c.store) && NoMarks(c.store.slots) && !c.overflowed && c.phase.Idle?
    requires |c.store.roots.entries| <= UINT32_MAX && i < |c.store.slots|
    ensures var d := CollectFull(c);
            && |d.store.slots| == |c.store.slots|
            && d.store.slots[i] == Swept(c.store.slots[i], Reaches(c.store.slots, c.store.roots.entries, i))
            && (i in d.reached <==> Reaches(c.store.slots, c.store.roots.entries, i))
            && d.work == Work(|c.store.roots.entries|, |d.reached|, |c.store.slots|)
  {
    hide Inv, CycleInv, Reaches, Sound, Covers, ClosedBut, SweptTo;
    var r := RequestCollection(c);
    RequestStartsCycle(c);
    TablesFit(c);
    AdvanceIsSlice(r, UNLIMITED);
    FullSliceFinishes(r, UNLIMITED);
    SliceKeeps(r, UNLIMITED);
    SliceKeepsFaithful(r, UNLIMITED);
    var d := CollectFull(c);
    assert d.scanned == c.store.roots.entries;
    BothConfigured(d);
    SurvivorsAreReachable(d, i);
    ClosedIsReachable(d.base.slots, d.scanned, d.reached, i);
  }

  // ------------------------------------------------------------------ marks between cycles

  /** Cancelling restores the locks and clears every mark; before the sweep it undoes the cycle entirely. */
  lemma CancelClearsMarks(c: Collector)
    requires CycleInv(c)
    ensures var d := Cancel(c);
            && d.phase.Idle? && NoMarks(d.store.slots) && d.store.collector.None?
            && (!c.phase.Sweeping? ==> d.store.slots == c.base.slots)
  {
    hide CountersExact, HistoryOk, Reaches, Covers, ClosedBut, Scanned;
    forall i | 0 <= i < |c.store.slots| ensures !Cancel(c).store.slots[i].marked {
      assert SlotOk(c.store.slots[i], c.store.slotSize);
    }
    if !c.phase.Sweeping? {
      forall i | 0 <= i < |c.base.slots| ensures Cancel(c).store.slots[i] == c.base.slots[i] {
        assert SlotOk(c.base.slots[i], c.base.slotSize);
        assert i in c.reached ==> c.base.slots[i].state.Live?;
      }
    }
  }

  /** What the owner of a collector and its store can do, in any order. */
  datatype Action = Start | Budgeted(budget: Work) | Full | Abandon | Use(op: Operation)

  predicate WellTypedActions(actions: seq<Action>) {
    forall k :: 0 <= k < |actions| ==> actions[k].Use? ==> actions[k].op.WellTyped() && actions[k].op.Public()
  }

  function Act(c: Collector, a: Action): Collector
    requires a.Use? ==> a.op.WellTyped()
  {
    match a
    case Start => RequestCollection(c)
    case Budgeted(budget) => Advance(c, budget)
    case Full => CollectFull(c)
    case Abandon => Cancel(c)
    case Use(op) => c.(store := Step(c.store, op))
  }

  function ActAll(c: Collector, actions: seq<Action>): Collector
    requires WellTypedActions(actions)
  {
    if actions == [] then c else Act(ActAll(c, actions[..|actions| - 1]), actions[|actions| - 1])
  }

  /** Between cycles no mark is set and the store is released; during a cycle its invariant holds. */
  ghost predicate Sane(c: Collector) {
    if c.phase.Idle? then
      Inv(c.store) && NoMarks(c.store.slots) && c.store.collector.None? && !c.store.mutationLocked && !c.overflowed
    else CycleInv(c)
  }

  lemma CompletedIsSane(c: Collector)
    requires Completed(c)
    ensures Sane(c)
  {
    hide CountersExact, HistoryOk, Reaches;
    forall i | 0 <= i < |c.base.slots| ensures !c.store.slots[i].marked {
      assert SlotOk(c.base.slots[i], c.base.slotSize);
    }
  }

  lemma SliceIsSane(c: Collector, limit: Work)
    requires CycleInv(c)
    ensures Sane(Slice(c, limit))
  {
    hide CycleInv, Completed, Slice, Inv;
    SliceKeeps(c, limit);
    if Slice(c, limit).phase.Idle? { CompletedIsSane(Slice(c, limit)); }
  }

  lemma CancelIsSane(c: Collector)
    requires CycleInv(c)
    ensures Sane(Cancel(c))
  {
    hide HistoryOk, Reaches, Covers, ClosedBut, Scanned, NoMarks, MarkedExactly, SweptTo, Queued, Sound;
    CancelClearsMarks(c);
    UnmarkKeeps(c.store);
  }

  lemma {:induction false} UnmarkPrefix(s: Store, n: nat)
    requires Inv(s) && n <= |s.slots|
    ensures Inv(s.(slots := Unmarked(s.slots)[..n] + s.slots[n..]))
  {
    hide CountersExact, HistoryOk;
    if n == 0 {
      assert Unmarked(s.slots)[..0] + s.slots[0..] == s.slots;
    } else {
      UnmarkPrefix(s, n - 1);
      var t := s.(slots := Unmarked(s.slots)[..n - 1] + s.slots[n - 1..]);
      SetMarkedKeeps(t, n - 1, false);
      assert SetMarked(t, n - 1, false).slots == Unmarked(s.slots)[..n] + s.slots[n..];
    }
  }

  lemma UnmarkKeeps(s: Store)
    requires Inv(s)
    ensures Inv(s.(slots := Unmarked(s.slots)))
  {
    hide Inv;
    UnmarkPrefix(s, |s.slots|);
    assert Unmarked(s.slots)[..|s.slots|] + s.slots[|s.slots|..] == Unmarked(s.slots);
  }

  lemma UseIsSane(c: Collector, op: Operation)
    requires Sane(c) && op.WellTyped() && op.Public()
    ensures Sane(c.(store := Step(c.store, op)))
  {
    hide Inv, CycleInv, Step, NoMarks;
    if c.phase.Idle? {
      StepKeeps(c.store, op);
      PublicKeepsUnmarked(c.store, op);
      PublicKeepsLocks(c.store, op);
    } else {
      StoreTurnKeeps(c, op);
    }
  }

  lemma PublicKeepsLocks(s: Store, op: Operation)
    requires Inv(s) && op.WellTyped() && op.Public()
    ensures Step(s, op).collector == s.collector && Step(s, op).mutationLocked == s.mutationLocked
  {
    hide CountersExact, HistoryOk;
    match op
    case Construct(known, o, requests) => ConstructActorIsAtomic(s, known, o, requests);
    case ApplyPending(budget) => ScanKeepsLocks(s, ClippedBudget(s, budget));
    case _ =>
  }

  lemma {:induction false} ScanKeepsLocks(s: Store, visits: nat)
    requires Inv(s)
    ensures Scan(s, visits).collector == s.collector && Scan(s, visits).mutationLocked == s.mutationLocked
    decreases visits
  {
    hide Inv;
    if visits != 0 && s.pending != 0 {
      ScanOneKeeps(s);
      AdvanceCursorKeeps(s);
      if s.cursor < |s.slots| { DestroySlotKeeps(AdvanceCursor(s), s.cursor); }
      ScanKeepsLocks(ScanOne(s), visits - 1);
    }
  }

  lemma ActKeepsSane(c: Collector, a: Action)
    requires Sane(c) && (a.Use? ==> a.op.WellTyped() && a.op.Public())
    ensures Sane(Act(c, a))
  {
    hide CycleInv, Inv, NoMarks, Slice, Step;
    match a
    case Start => StartIsSane(c);
    case Budgeted(budget) =>
      if !c.phase.Idle? { AdvanceIsSlice(c, budget); SliceIsSane(c, c.work.Plus(budget)); }
    case Full =>
      StartIsSane(c);
      if c.phase.Idle? {
        if StartFailure(c) == RuntimeResult.Success {
          RequestStartsCycle(c);
          AdvanceIsSlice(RequestCollection(c), UNLIMITED);
          SliceIsSane(RequestCollection(c), RequestCollection(c).work.Plus(UNLIMITED));
        }
      } else {
        AdvanceIsSlice(c, UNLIMITED);
        SliceIsSane(c, c.work.Plus(UNLIMITED));
      }
    case Abandon => if !c.phase.Idle? { CancelIsSane(c); }
    case Use(op) => UseIsSane(c, op);
  }

  lemma StartIsSane(c: Collector)
    requires Sane(c)
    ensures Sane(RequestCollection(c))
  {
    hide CycleInv, Inv, NoMarks;
    if c.phase.Idle? && StartFailure(c) == RuntimeResult.Success {
      RequestStartsCycle(c);
      NeverIdle(RequestCollection(c));
    }
  }

  /** Over every run of collections, cancellations and store operations: an idle collector means no slot
      is marked, the worklist never overflowed, and the store invariant holds throughout. */
  lemma {:induction false} IdleMeansUnmarked(c: Collector, actions: seq<Action>)
    requires Sane(c) && WellTypedActions(actions)
    ensures Sane(ActAll(c, actions)) && !ActAll(c, actions).overflowed
    ensures ActAll(c, actions).phase.Idle? ==> NoMarks(ActAll(c, actions).store.slots)
  {
    hide CycleInv, Act, Inv, NoMarks;
    if actions != [] {
      IdleMeansUnmarked(c, actions[..|actions| - 1]);
      ActKeepsSane(ActAll(c, actions[..|actions| - 1]), actions[|actions| - 1]);
    }
    SaneNeverOverflows(ActAll(c, actions));
  }

  lemma SaneNeverOverflows(c: Collector)
    requires Sane(c)
    ensures !c.overflowed
  {
    hide Inv, Reaches, NoMarks;
  }
}
