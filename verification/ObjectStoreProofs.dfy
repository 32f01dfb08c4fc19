/** What every run of store operations keeps: exact counters, handle identity, fair reclamation. */
module ObjectStoreProofs {
  import opened Basics
  import opened ObjectStoreModel

  predicate SlotOk(s: Slot, slotSize: nat) {
    && s.generation <= UINT32_MAX
    && !s.state.Destroying?
    && (if IsOccupied(s) then s.instance.Object? && s.instance.size <= slotSize && s.generation > 0
        else s.instance.NoObject? && !s.marked)
    && (s.state.Retired? ==> s.generation == UINT32_MAX)
  }

  predicate SlotsOk(slots: seq<Slot>, slotSize: nat) {
    forall i :: 0 <= i < |slots| ==> SlotOk(slots[i], slotSize)
  }

  /** Every counter the store keeps equals what a scan of the tables would find. */
  predicate CountersExact(s: Store) {
    && s.occupied == Count(s.slots, IsOccupied)
    && s.pending == Count(s.slots, IsPending)
    && s.retired == Count(s.slots, IsRetired)
    && s.roots.active == Count(s.roots.entries, IsRoot)
    && s.payload == Sum(s.slots, PayloadOf)
  }

  /** A published handle is never ahead of its slot, and its object is either still there or was destroyed;
      a destroyed handle is behind its slot, or the slot retired on it. */
  predicate EventOk(slots: seq<Slot>, log: seq<Event>, e: Event) {
    && e.handle.index < |slots|
    && var slot := slots[e.handle.index];
       && 0 < e.handle.generation <= slot.generation
       && match e
          case Published(h, o) =>
            Destroyed(h) in log || (IsOccupied(slot) && slot.generation == h.generation && Identity(slot.instance) == o)
          case Destroyed(h) =>
            h.generation == slot.generation ==> slot.state.Retired?
  }

  /** No handle is published twice, and none destroyed twice. */
  predicate OncePerHandle(log: seq<Event>) {
    forall a, b :: 0 <= a < b < |log| && log[a].Published? == log[b].Published? ==> log[a].handle != log[b].handle
  }

  predicate HistoryOk(slots: seq<Slot>, log: seq<Event>) {
    && OncePerHandle(log)
    && (forall e :: e in log ==> EventOk(slots, log, e))
    && (forall i :: 0 <= i < |slots| && IsOccupied(slots[i]) ==>
          Published(Handle(i, slots[i].generation), Identity(slots[i].instance)) in log)
  }

  predicate Inv(s: Store) {
    && s.configured
    && s.cursor < |s.slots| <= UINT32_MAX
    && SlotsOk(s.slots, s.slotSize)
    && CountersExact(s)
    && HistoryOk(s.slots, s.log)
  }

  // ------------------------------------------------------------------ one slot changes

  lemma SlotCounts(slots: seq<Slot>, i: nat, x: Slot)
    requires i < |slots|
    ensures var u := slots[i := x];
            && Count(u, IsOccupied) + (if IsOccupied(slots[i]) then 1 else 0) == Count(slots, IsOccupied) + (if IsOccupied(x) then 1 else 0)
            && Count(u, IsPending) + (if IsPending(slots[i]) then 1 else 0) == Count(slots, IsPending) + (if IsPending(x) then 1 else 0)
            && Count(u, IsRetired) + (if IsRetired(slots[i]) then 1 else 0) == Count(slots, IsRetired) + (if IsRetired(x) then 1 else 0)
            && Sum(u, PayloadOf) + PayloadOf(slots[i]) == Sum(slots, PayloadOf) + PayloadOf(x)
  {
    CountUpdate(slots, i, x, IsOccupied);
    CountUpdate(slots, i, x, IsPending);
    CountUpdate(slots, i, x, IsRetired);
    SumUpdate(slots, i, x, PayloadOf);
  }

  lemma PublishHistory(slots: seq<Slot>, log: seq<Event>, i: nat, o: Object)
    requires HistoryOk(slots, log) && i < |slots| && (slots[i].state.Vacant? || slots[i].state.Constructing?) && o.Object?
    ensures var g := NextPublishGeneration(slots[i].generation);
            HistoryOk(slots[i := Slot(g, Live, o, false)], log + [Published(Handle(i, g), Identity(o))])
  {
    var g := NextPublishGeneration(slots[i].generation);
    var e := Published(Handle(i, g), Identity(o));
    forall d | d in log && d.Published? ensures d.handle != e.handle {
      assert EventOk(slots, log, d);
    }
    forall d | d in log ensures EventOk(slots[i := Slot(g, Live, o, false)], log + [e], d) {
      assert EventOk(slots, log, d);
    }
  }

  lemma PublishKeeps(s: Store, i: nat, o: Object)
    requires Inv(s) && i < |s.slots| && (s.slots[i].state.Vacant? || s.slots[i].state.Constructing?)
    requires o.Object? && o.size <= s.slotSize
    ensures Inv(Publish(s, i, o))
  {
    PublishHistory(s.slots, s.log, i, o);
    SlotCounts(s.slots, i, Slot(NextPublishGeneration(s.slots[i].generation), Live, o, false));
  }

  /** A slot may change its lifecycle label without touching identity, payload or history. */
  lemma RelabelHistory(slots: seq<Slot>, log: seq<Event>, i: nat, x: Slot)
    requires HistoryOk(slots, log) && i < |slots|
    requires x.generation == slots[i].generation && Identity(x.instance) == Identity(slots[i].instance)
    requires IsOccupied(x) == IsOccupied(slots[i]) && x.state.Retired? == slots[i].state.Retired?
    ensures HistoryOk(slots[i := x], log)
  {
    forall e | e in log ensures EventOk(slots[i := x], log, e) { assert EventOk(slots, log, e); }
  }

  lemma DestroyHistory(slots: seq<Slot>, log: seq<Event>, i: nat)
    requires HistoryOk(slots, log) && i < |slots| && Destroyable(slots[i])
    ensures HistoryOk(slots[i := Recycle(slots[i])], log + [Destroyed(Handle(i, slots[i].generation))])
  {
    var e := Destroyed(Handle(i, slots[i].generation));
    var u := slots[i := Recycle(slots[i])];
    forall d | d in log && d.Destroyed? ensures d.handle != e.handle { assert EventOk(slots, log, d); }
    assert Published(e.handle, Identity(slots[i].instance)) in log;
    forall d | d in log ensures EventOk(u, log + [e], d) { assert EventOk(slots, log, d); }
  }

  // ------------------------------------------------------------------ roots

  /** `t` differs from `s` in its root table alone, and there entries were only ever cleared. */
  predicate SameButRoots(s: Store, t: Store) { t == s.(roots := t.roots) && RootsShrink(s.roots, t.roots) }

  predicate RootsShrink(before: RootTable, after: RootTable) {
    && |after.entries| == |before.entries|
    && forall k :: 0 <= k < |before.entries| ==> after.entries[k] == before.entries[k] || after.entries[k] == NO_HANDLE
  }

  predicate RootCounterExact(t: RootTable) { t.active == Count(t.entries, IsRoot) }

  lemma ReleaseOneKeeps(t: RootTable, h: Handle)
    requires RootCounterExact(t)
    ensures RootCounterExact(ReleaseOne(t, h)) && RootsShrink(t, ReleaseOne(t, h))
  {
    var r := FirstRoot(t.entries, h, 0);
    if h.IsValid() && r.Some? {
      CountUpdate(t.entries, r.value, NO_HANDLE, IsRoot);
    }
  }

  lemma {:induction false} ReleaseEachKeeps(t: RootTable, handles: seq<Handle>)
    requires RootCounterExact(t)
    ensures RootCounterExact(ReleaseEach(t, handles)) && RootsShrink(t, ReleaseEach(t, handles))
  {
    if handles != [] {
      ReleaseEachKeeps(t, handles[..|handles| - 1]);
      ReleaseOneKeeps(ReleaseEach(t, handles[..|handles| - 1]), handles[|handles| - 1]);
    }
  }

  lemma {:induction false} ClearHandleCount(roots: seq<Handle>, h: Handle)
    requires h.IsValid()
    ensures Count(ClearHandle(roots, h), IsRoot) + multiset(roots)[h] == Count(roots, IsRoot)
  {
    if roots != [] {
      var n := |roots| - 1;
      ClearHandleCount(roots[..n], h);
      assert ClearHandle(roots, h)[..n] == ClearHandle(roots[..n], h);
      assert multiset(roots)[h] == multiset(roots[..n])[h] + (if roots[n] == h then 1 else 0) by {
        assert roots == roots[..n] + [roots[n]];
      }
    }
  }

  lemma ReleaseAllKeeps(t: RootTable, h: Handle)
    requires RootCounterExact(t) && h.IsValid()
    ensures RootCounterExact(ReleaseAll(t, h)) && RootsShrink(t, ReleaseAll(t, h)) && h !in ReleaseAll(t, h).entries
  {
    ClearHandleCount(t.entries, h);
  }

  // ------------------------------------------------------------------ every operation keeps the invariant

  /** The configuration, the table sizes, the cursor and the locks are as before. */
  predicate SameFrame(s: Store, t: Store) {
    && |t.roots.entries| == |s.roots.entries| && t.configured == s.configured && t.slotSize == s.slotSize && t.cursor == s.cursor && |t.slots| == |s.slots|
    && t.mutationLocked == s.mutationLocked && t.dispatchLocked == s.dispatchLocked && t.collector == s.collector
  }

  /** Destruction in one step: the slot recycles, its roots go, the counters drop, the locks are as found. */
  lemma DestroyEffect(s: Store, i: nat)
    requires i < |s.slots| && Destroyable(s.slots[i]) && s.configured
    ensures var slot := s.slots[i];
            var h := Handle(i, slot.generation);
            DestroySlot(s, i) == s.(
              slots := s.slots[i := Recycle(slot)],
              roots := ReleaseAll(ReleaseEach(s.roots, slot.instance.strong), h),
              retired := if slot.generation < UINT32_MAX then s.retired else s.retired + 1,
              occupied := MinusOne(s.occupied),
              pending := if slot.state.PendingDestroy? then MinusOne(s.pending) else s.pending,
              payload := if s.payload >= slot.instance.size then s.payload - slot.instance.size else s.payload,
              log := s.log + [Destroyed(h)])
  {
    var destroying := s.slots[i := s.slots[i].(state := Destroying)];
    assert destroying[i := Recycle(s.slots[i])] == s.slots[i := Recycle(s.slots[i])];
  }

  lemma DestroySlotKeeps(s: Store, i: nat)
    requires Inv(s)
    ensures Inv(DestroySlot(s, i)) && RootsShrink(s.roots, DestroySlot(s, i).roots)
    ensures SameFrame(s, DestroySlot(s, i))
    ensures i < |s.slots| && Destroyable(s.slots[i]) ==>
              var h := Handle(i, s.slots[i].generation);
              && Destroyed(h) in DestroySlot(s, i).log && h !in DestroySlot(s, i).roots.entries
              && DestroySlot(s, i).slots == s.slots[i := Recycle(s.slots[i])]
              && DestroySlot(s, i).log == s.log + [Destroyed(h)]
  {
    if i < |s.slots| && Destroyable(s.slots[i]) {
      DestroyDestroyable(s, i);
    } else {
      assert RootsShrink(s.roots, s.roots);
    }
  }

  lemma DestroyDestroyable(s: Store, i: nat)
    requires Inv(s) && i < |s.slots| && Destroyable(s.slots[i])
    ensures var t, h := DestroySlot(s, i), Handle(i, s.slots[i].generation);
            && Inv(t) && RootsShrink(s.roots, t.roots) && SameFrame(s, t) && h !in t.roots.entries
            && t.slots == s.slots[i := Recycle(s.slots[i])] && t.log == s.log + [Destroyed(h)]
  {
    hide DestroySlot, ReleaseEach, ReleaseAll, HistoryOk;
    var slot := s.slots[i];
    DestroyEffect(s, i);
    ReleaseEachKeeps(s.roots, slot.instance.strong);
    ReleaseAllKeeps(ReleaseEach(s.roots, slot.instance.strong), Handle(i, slot.generation));
    DestroyHistory(s.slots, s.log, i);
    SlotCounts(s.slots, i, Recycle(slot));
  }

  lemma AdvanceCursorKeeps(s: Store)
    requires Inv(s)
    ensures Inv(AdvanceCursor(s))
  {
  }

  lemma ScanOneKeeps(s: Store)
    requires Inv(s)
    ensures Inv(ScanOne(s)) && s.log <= ScanOne(s).log && |ScanOne(s).slots| == |s.slots|
  {
    hide Inv;
    AdvanceCursorKeeps(s);
    if s.cursor < |s.slots| { DestroySlotExtends(AdvanceCursor(s), s.cursor); }
  }

  lemma DestroySlotExtends(s: Store, i: nat)
    requires Inv(s)
    ensures Inv(DestroySlot(s, i)) && s.log <= DestroySlot(s, i).log && |DestroySlot(s, i).slots| == |s.slots|
  {
    hide Inv;
    DestroySlotKeeps(s, i);
  }

  lemma {:induction false} ScanKeeps(s: Store, visits: nat)
    requires Inv(s)
    ensures Inv(Scan(s, visits))
    decreases visits
  {
    if visits != 0 && s.pending != 0 {
      ScanOneKeeps(s);
      ScanKeeps(ScanOne(s), visits - 1);
    }
  }

  lemma MarkPendingKeeps(s: Store, h: Handle)
    requires Inv(s)
    ensures Inv(MarkPendingDestroy(s, h).0)
  {
    var found := FindMatchingSlot(s, h, true);
    if !s.Locked() && found.Some? && !s.slots[found.value].state.PendingDestroy? {
      var x := s.slots[found.value].(state := PendingDestroy, marked := false);
      RelabelHistory(s.slots, s.log, found.value, x);
      SlotCounts(s.slots, found.value, x);
    }
  }

  lemma RetargetKeeps(s: Store, h: Handle, references: seq<Handle>)
    requires Inv(s)
    ensures Inv(Retarget(s, h, references))
  {
    var found := FindMatchingSlot(s, h, true);
    if s.collector.None? && found.Some? {
      var x := s.slots[found.value].(instance := s.slots[found.value].instance.(references := references));
      RelabelHistory(s.slots, s.log, found.value, x);
      SlotCounts(s.slots, found.value, x);
    }
  }

  lemma SetMarkedKeeps(s: Store, i: nat, marked: bool)
    requires Inv(s)
    ensures Inv(SetMarked(s, i, marked))
  {
    if i < |s.slots| && IsOccupied(s.slots[i]) {
      RelabelHistory(s.slots, s.log, i, s.slots[i].(marked := marked));
      SlotCounts(s.slots, i, s.slots[i].(marked := marked));
    }
  }

  lemma AddRootKeeps(s: Store, h: Handle)
    requires Inv(s)
    ensures Inv(AddRoot(s, h).0)
  {
    var free := FirstFreeRoot(s.roots.entries, 0);
    if !s.Locked() && FindMatchingSlot(s, h, true).Some? && free.Some? {
      CountUpdate(s.roots.entries, free.value, h, IsRoot);
    }
  }

  // ------------------------------------------------------------------ transactional construction

  /** `now` is `base` with exactly the reserved slots, all vacant before and all different, hidden. */
  predicate Hidden(base: seq<Slot>, now: seq<Slot>, reserved: seq<Reservation>) {
    && |now| == |base|
    && WellReserved(|base|, reserved)
    && (forall k :: 0 <= k < |reserved| ==>
          base[reserved[k].index].state.Vacant? && now[reserved[k].index] == base[reserved[k].index].(state := Constructing))
    && (forall j, k :: 0 <= j < k < |reserved| ==> reserved[j].index != reserved[k].index)
    && (forall i :: 0 <= i < |base| && now[i] != base[i] ==> exists k :: 0 <= k < |reserved| && reserved[k].index == i)
  }

  predicate Sized(slotSize: nat, reserved: seq<Reservation>) {
    forall k :: 0 <= k < |reserved| ==> reserved[k].instance.Object? && reserved[k].instance.size <= slotSize
  }

  /** While a transaction is open the store satisfies its invariant and only the reserved slots differ. */
  predicate Pending(s: Store, now: Store, reserved: seq<Reservation>) {
    && Inv(now)
    && now == s.(slots := now.slots)
    && Hidden(s.slots, now.slots, reserved)
    && Sized(s.slotSize, reserved)
  }

  lemma ReserveKeeps(s: Store, i: nat)
    requires Inv(s) && i < |s.slots| && s.slots[i].state.Vacant?
    ensures Inv(Reserve(s, i))
  {
    var x := s.slots[i].(state := Constructing);
    RelabelHistory(s.slots, s.log, i, x);
    SlotCounts(s.slots, i, x);
    hide HistoryOk;
  }

  lemma HideOneMore(base: seq<Slot>, now: seq<Slot>, reserved: seq<Reservation>, i: nat, o: Object)
    requires Hidden(base, now, reserved) && i < |now| && now[i].state.Vacant? && o.Object?
    ensures Hidden(base, now[i := now[i].(state := Constructing)], reserved + [Reservation(i, o)])
  {
    var more := reserved + [Reservation(i, o)];
    assert now[i] == base[i] by {
      assert forall k :: 0 <= k < |reserved| ==> now[reserved[k].index].state.Constructing?;
    }
    assert forall k :: 0 <= k < |reserved| ==> reserved[k].index != i;
    var hidden := now[i := now[i].(state := Constructing)];
    forall j | 0 <= j < |base| && hidden[j] != base[j] ensures exists k :: 0 <= k < |more| && more[k].index == j {
      if j == i {
        assert more[|reserved|].index == j;
      } else {
        var k :| 0 <= k < |reserved| && reserved[k].index == j;
        assert more[k].index == j;
      }
    }
  }

  lemma ReserveObjectKeeps(s: Store, t: Transaction, o: Object)
    requires Pending(s, t.store, t.reserved) && o.Object? && o.size <= s.slotSize
    ensures var u := ReserveObject(t, o); Pending(s, u.store, u.reserved)
  {
    var found := FirstVacant(t.store.slots, 0);
    if t.error == Success && found.Some? {
      ReserveKeeps(t.store, found.value);
      HideOneMore(s.slots, t.store.slots, t.reserved, found.value, o);
      hide Inv, Hidden;
    }
  }

  /** Reserving either fails, or holds the actor followed by every requested component, in order. */
  lemma {:induction false} ReserveComponentsKeeps(s: Store, t: Transaction, requests: seq<Request>)
    requires Pending(s, t.store, t.reserved) && AllObjects(requests) && t.error == Success
    ensures var u := ReserveComponents(t, requests);
            && Pending(s, u.store, u.reserved) && t.reserved <= u.reserved
            && (u.error == Success ==>
                  && |u.reserved| == |t.reserved| + |requests|
                  && forall k :: 0 <= k < |requests| ==> u.reserved[|t.reserved| + k].instance == requests[k].instance)
  {
    hide Inv, Hidden;
    if requests != [] {
      var n := |requests| - 1;
      ReserveComponentsKeeps(s, t, requests[..n]);
      var u := ReserveComponents(t, requests[..n]);
      if requests[n].instance.size <= s.slotSize {
        ReserveObjectKeeps(s, u, requests[n].instance);
      }
    }
  }

  lemma ReleaseKeeps(base: Store, s: Store, r: Reservation)
    requires Inv(base) && SameButRoots(base.(slots := s.slots), s) && RootCounterExact(s.roots)
    requires |s.slots| == |base.slots| && r.index < |s.slots| && r.instance.Object?
    requires base.slots[r.index].state.Vacant? && s.slots[r.index] == base.slots[r.index].(state := Constructing)
    ensures var t := Release(s, r);
            && SameButRoots(base.(slots := t.slots), t) && RootCounterExact(t.roots)
            && t.slots == s.slots[r.index := base.slots[r.index]]
  {
    hide HistoryOk, CountersExact, ReleaseEach;
    ReleaseEachKeeps(s.roots, r.instance.strong);
    assert SlotOk(base.slots[r.index], base.slotSize);
  }

  /** Restoring one reserved slot leaves exactly the others hidden. */
  lemma HideOneLess(base: seq<Slot>, now: seq<Slot>, reserved: seq<Reservation>, j: nat, rest: seq<Reservation>)
    requires Hidden(base, now, reserved) && j < |reserved| && rest == reserved[..j] + reserved[j + 1..]
    ensures Hidden(base, now[reserved[j].index := base[reserved[j].index]], rest)
  {
    hide Skip;
    RestIsApart(reserved, j, rest);
    RestHidesTheOthers(base, now, reserved, j, rest);
  }

  lemma RestHidesTheOthers(base: seq<Slot>, now: seq<Slot>, reserved: seq<Reservation>, j: nat, rest: seq<Reservation>)
    requires |now| == |base| && j < |reserved| && reserved[j].index < |base| && rest == reserved[..j] + reserved[j + 1..]
    requires forall i :: 0 <= i < |base| && now[i] != base[i] ==> exists k :: 0 <= k < |reserved| && reserved[k].index == i
    ensures var u := now[reserved[j].index := base[reserved[j].index]];
            forall x :: 0 <= x < |base| && u[x] != base[x] ==> exists k :: 0 <= k < |rest| && rest[k].index == x
  {
    var i := reserved[j].index;
    forall x | 0 <= x < |base| && now[i := base[i]][x] != base[x] ensures exists k :: 0 <= k < |rest| && rest[k].index == x {
      var k :| 0 <= k < |reserved| && reserved[k].index == x;
      assert rest[if k < j then k else k - 1].index == x;
    }
  }

  /** Positions once entry `j` has been left out. */
  function Skip(j: nat, k: nat): nat { if k < j then k else k + 1 }

  lemma RestIsApart(reserved: seq<Reservation>, j: nat, rest: seq<Reservation>)
    requires j < |reserved| && rest == reserved[..j] + reserved[j + 1..]
    requires forall j, k :: 0 <= j < k < |reserved| ==> reserved[j].index != reserved[k].index
    ensures |rest| == |reserved| - 1
    ensures forall k :: 0 <= k < |rest| ==> Skip(j, k) < |reserved| && rest[k] == reserved[Skip(j, k)] && rest[k].index != reserved[j].index
    ensures forall k, m :: 0 <= k < m < |rest| ==> rest[k].index != rest[m].index
  {
    forall k | 0 <= k < |rest| ensures rest[k] == reserved[Skip(j, k)] && rest[k].index != reserved[j].index {}
    forall k, m | 0 <= k < m < |rest| ensures rest[k].index != rest[m].index { assert Skip(j, k) < Skip(j, m); }
  }

  lemma {:induction false} ReleaseReversedKeeps(base: Store, s: Store, reserved: seq<Reservation>)
    requires Inv(base) && SameButRoots(base.(slots := s.slots), s) && RootCounterExact(s.roots)
    requires Hidden(base.slots, s.slots, reserved)
    ensures var t := ReleaseReversed(s, reserved); SameButRoots(base, t) && RootCounterExact(t.roots)
    decreases |reserved|
  {
    hide Inv, RootCounterExact, Release, RootsShrink;
    if reserved == [] {
      assert s.slots == base.slots;
    } else {
      var n := |reserved| - 1;
      ReleaseKeeps(base, s, reserved[n]);
      HideOneLess(base.slots, s.slots, reserved, n, reserved[..n]);
      ReleaseReversedKeeps(base, Release(s, reserved[n]), reserved[..n]);
    }
  }

  /** A failed transaction restores every slot, counter and generation: only root tokens that the
      provisional objects owned are gone. */
  lemma RollbackRestores(base: Store, s: Store, reserved: seq<Reservation>)
    requires Inv(base) && s == base.(slots := s.slots) && Hidden(base.slots, s.slots, reserved)
    ensures var t := Rollback(s, reserved); SameButRoots(base, t) && RootCounterExact(t.roots)
  {
    hide HistoryOk, Release;
    if reserved == [] {
      assert s.slots == base.slots;
    } else {
      ReleaseKeeps(base, s, reserved[0]);
      HideOneLess(base.slots, s.slots, reserved, 0, reserved[1..]);
      ReleaseReversedKeeps(base, Release(s, reserved[0]), reserved[1..]);
    }
  }

  /** The slot and the event that publishing `r` into `s` produces. */
  function PublishedSlot(s: Store, r: Reservation): Slot
    requires r.index < |s.slots|
  {
    Slot(NextPublishGeneration(s.slots[r.index].generation), Live, r.instance, false)
  }

  function PublishedEvent(s: Store, r: Reservation): Event
    requires r.index < |s.slots|
  {
    Published(Handle(r.index, NextPublishGeneration(s.slots[r.index].generation)), Identity(r.instance))
  }

  /** Committing publishes the reserved objects in order, each under the next generation of its slot. */
  lemma {:induction false} PublishAllKeeps(s: Store, reserved: seq<Reservation>)
    requires Inv(s) && WellReserved(|s.slots|, reserved) && Sized(s.slotSize, reserved)
    requires forall k :: 0 <= k < |reserved| ==> s.slots[reserved[k].index].state.Constructing?
    requires forall j, k :: 0 <= j < k < |reserved| ==> reserved[j].index != reserved[k].index
    ensures var t := PublishAll(s, reserved);
            && Inv(t) && SameFrame(s, t)
            && |t.log| == |s.log| + |reserved| && s.log <= t.log
            && (forall k :: |s.log| <= k < |t.log| ==> t.log[k] == PublishedEvent(s, reserved[k - |s.log|]))
            && (forall k :: 0 <= k < |reserved| ==> t.slots[reserved[k].index] == PublishedSlot(s, reserved[k]))
            && (forall i :: 0 <= i < |s.slots| && (forall k :: 0 <= k < |reserved| ==> reserved[k].index != i) ==>
                  t.slots[i] == s.slots[i])
  {
    hide Inv;
    if reserved != [] {
      var n := |reserved| - 1;
      PublishAllKeeps(s, reserved[..n]);
      var t := PublishAll(s, reserved[..n]);
      assert t.slots[reserved[n].index] == s.slots[reserved[n].index];
      PublishKeeps(t, reserved[n].index, reserved[n].instance);
    }
  }

  /** Nothing happened, except that root tokens may have been released. */
  predicate Unpublished(s: Store, t: Store) { Inv(t) && SameButRoots(s, t) }

  /** Exactly the requested components and then the actor were published, in that order, and the
      returned handle resolves to the actor. */
  predicate PublishedGraph(s: Store, c: Creation, actor: Object, requests: seq<Request>) {
    && Inv(c.store) && SameFrame(s, c.store) && KeepsOccupied(s, c.store)
    && s.log <= c.store.log && |c.store.log| == |s.log| + |requests| + 1
    && c.store.log[|s.log| + |requests|] == Published(c.handle, Identity(actor))
    && Resolve(c.store, c.handle) == actor
    && forall k :: |s.log| <= k < |s.log| + |requests| ==>
         c.store.log[k].Published? && c.store.log[k].identity == Identity(requests[k - |s.log|].instance)
         && Resolve(c.store, c.store.log[k].handle) == requests[k - |s.log|].instance
  }

  lemma RollbackKeeps(s: Store, t: Transaction)
    requires Inv(s) && Pending(s, t.store, t.reserved)
    ensures Unpublished(s, Rollback(t.store, t.reserved))
  {
    RollbackRestores(s, t.store, t.reserved);
    hide HistoryOk;
  }

  /** Slots in use are untouched, and no mark appears. */
  predicate KeepsOccupied(s: Store, t: Store) {
    && |t.slots| == |s.slots|
    && forall i :: 0 <= i < |s.slots| ==> t.slots[i] == s.slots[i] || (s.slots[i].state.Vacant? && !t.slots[i].marked)
  }

  lemma VacantIsUnmarked(s: Store)
    requires Inv(s)
    ensures forall i :: 0 <= i < |s.slots| && s.slots[i].state.Vacant? ==> !s.slots[i].marked
  {
    hide CountersExact, HistoryOk;
  }

  /** The components of an open transaction can be published in order, leaving the actor's slot reserved. */
  lemma ComponentsCommit(s: Store, t: Transaction)
    requires Inv(s) && Pending(s, t.store, t.reserved) && |t.reserved| > 0
    ensures var (components, actor) := (t.reserved[1..], t.reserved[0]);
            var u := PublishAll(t.store, components);
            && WellReserved(|s.slots|, t.reserved) && Inv(u) && SameFrame(s, u) && KeepsOccupied(s, u)
            && |u.log| == |s.log| + |components| && s.log <= u.log
            && (forall k :: |s.log| <= k < |u.log| ==> u.log[k] == PublishedEvent(t.store, components[k - |s.log|]))
            && u.slots[actor.index] == s.slots[actor.index].(state := Constructing)
            && s.slots[actor.index].state.Vacant? && actor.instance.Object? && actor.instance.size <= s.slotSize
  {
    hide Inv, PublishAll, KeepsOccupied;
    var components := t.reserved[1..];
    assert forall k :: 0 <= k < |components| ==> components[k] == t.reserved[k + 1];
    PublishAllKeeps(t.store, components);
    var u := PublishAll(t.store, components);
    assert KeepsOccupied(s, u) by { VacantIsUnmarked(s); ComponentsKeepOccupied(s, t, u); }
  }

  lemma ComponentsKeepOccupied(s: Store, t: Transaction, u: Store)
    requires |u.slots| == |s.slots| && Hidden(s.slots, t.store.slots, t.reserved) && |t.reserved| > 0
    requires forall i :: 0 <= i < |s.slots| && s.slots[i].state.Vacant? ==> !s.slots[i].marked
    requires forall k :: 1 <= k < |t.reserved| ==> u.slots[t.reserved[k].index] == PublishedSlot(t.store, t.reserved[k])
    requires forall i :: 0 <= i < |s.slots| && (forall k :: 1 <= k < |t.reserved| ==> t.reserved[k].index != i) ==>
               u.slots[i] == t.store.slots[i]
    ensures KeepsOccupied(s, u)
  {
    forall i | 0 <= i < |s.slots| ensures u.slots[i] == s.slots[i] || (s.slots[i].state.Vacant? && !u.slots[i].marked) {
      if k :| 0 <= k < |t.reserved| && t.reserved[k].index == i { assert s.slots[t.reserved[k].index].state.Vacant?; }
    }
  }

  lemma PublishReserved(s: Store, i: nat, o: Object)
    requires Inv(s) && i < |s.slots| && s.slots[i].state.Constructing? && o.Object? && o.size <= s.slotSize
    ensures var t := Publish(s, i, o);
            var h := Handle(i, NextPublishGeneration(s.slots[i].generation));
            && Inv(t) && SameFrame(s, t) && t.log == s.log + [Published(h, Identity(o))] && Resolve(t, h) == o
            && !t.slots[i].marked && (forall k :: 0 <= k < |s.slots| && k != i ==> t.slots[k] == s.slots[k])
  {
    PublishKeeps(s, i, o);
    hide HistoryOk, CountersExact;
  }

  lemma CommitPublishes(s: Store, t: Transaction, actor: Object, requests: seq<Request>)
    requires Inv(s) && Pending(s, t.store, t.reserved) && t.error == Success
    requires |t.reserved| == 1 + |requests| && t.reserved[0].instance == actor
    requires forall k :: 0 <= k < |requests| ==> t.reserved[1 + k].instance == requests[k].instance
    requires |s.slots| == |t.store.slots| && WellReserved(|t.store.slots|, t.reserved)
    ensures CloseTransaction(s, t).result == Success
    ensures PublishedGraph(s, CloseTransaction(s, t), actor, requests)
  {
    hide Inv, Pending, Hidden, Sized, PublishAll, Publish, Resolve;
    ComponentsCommit(s, t);
    PublishReserved(PublishAll(t.store, t.reserved[1..]), t.reserved[0].index, actor);
    ComponentsResolve(s, t, actor);
  }

  lemma ComponentsResolve(s: Store, t: Transaction, actor: Object)
    requires Inv(s) && Pending(s, t.store, t.reserved) && |t.reserved| > 0 && t.reserved[0].instance == actor && actor.Object?
    ensures var u := PublishAll(t.store, t.reserved[1..]);
            && WellReserved(|s.slots|, t.reserved) && |u.log| == |s.log| + |t.reserved| - 1 && t.reserved[0].index < |u.slots|
            && forall k :: |s.log| <= k < |u.log| ==>
                 Resolve(Publish(u, t.reserved[0].index, actor), u.log[k].handle) == t.reserved[1 + k - |s.log|].instance
  {
    hide Inv, Sized, PublishAll, Publish, Resolve;
    ComponentsCommit(s, t);
    var u := PublishAll(t.store, t.reserved[1..]);
    forall k | |s.log| <= k < |u.log|
      ensures Resolve(Publish(u, t.reserved[0].index, actor), u.log[k].handle) == t.reserved[1 + k - |s.log|].instance
    {
      ComponentResolves(s, t, k - |s.log|);
    }
  }

  /** The handle logged for a component resolves to it once the actor is published too. */
  lemma ComponentResolves(s: Store, t: Transaction, k: nat)
    requires Inv(s) && Pending(s, t.store, t.reserved) && 1 + k < |t.reserved|
    ensures var u := PublishAll(t.store, t.reserved[1..]);
            && WellReserved(|s.slots|, t.reserved) && |s.log| + k < |u.log| && t.reserved[0].index < |u.slots|
            && (t.reserved[0].instance.Object? ==>
                  Resolve(Publish(u, t.reserved[0].index, t.reserved[0].instance), u.log[|s.log| + k].handle)
                    == t.reserved[1 + k].instance)
  {
    hide HistoryOk, CountersExact, PublishAll;
    var components := t.reserved[1..];
    assert components[k] == t.reserved[1 + k];
    PublishAllKeeps(t.store, components);
    var u := PublishAll(t.store, components);
    assert u.slots[components[k].index] == PublishedSlot(t.store, components[k]);
  }

  lemma NothingReserved(s: Store)
    requires Inv(s)
    ensures Pending(s, s, [])
  {
    hide Inv;
  }

  /** Transactional construction is all or nothing. */
  lemma ConstructActorIsAtomic(s: Store, known: bool, actor: Object, requests: seq<Request>)
    requires Inv(s) && actor.Object? && AllObjects(requests)
    ensures var c := ConstructActor(s, known, actor, requests);
            if c.result == Success then PublishedGraph(s, c, actor, requests) else Unpublished(s, c.store)
  {
    hide Inv, Pending, PublishedGraph, Rollback, CloseTransaction;
    if !s.Locked() && ValidateConstruction(s, known, actor) == Success {
      NothingReserved(s);
      ReserveObjectKeeps(s, Transaction(s, [], Success), actor);
      var started := OpenTransaction(s, actor);
      if started.error == Success {
        ReserveComponentsKeeps(s, started, requests);
        ReservationsStayInRange(started, requests);
        var t := ReserveComponents(started, requests);
        if t.error != Success {
          RollbackKeeps(s, t);
          RollbackReports(s, t);
        } else {
          CommitPublishes(s, t, actor, requests);
        }
      }
    }
  }

  lemma RollbackReports(s: Store, t: Transaction)
    requires WellReserved(|t.store.slots|, t.reserved) && |t.reserved| > 0 && |s.slots| == |t.store.slots| && t.error != Success
    ensures CloseTransaction(s, t) == Creation(Rollback(t.store, t.reserved), t.error, NO_HANDLE)
  {
  }

  // ------------------------------------------------------------------ every run

  lemma StepKeeps(s: Store, op: Operation)
    requires Inv(s) && op.WellTyped()
    ensures Inv(Step(s, op))
  {
    match op
    case New(known, o) =>
      var vacant := FirstVacant(s.slots, 0);
      if !s.Locked() && ValidateConstruction(s, known, o) == Success && vacant.Some? {
        PublishKeeps(s, vacant.value, o);
      }
    case Construct(known, o, requests) => ConstructActorIsAtomic(s, known, o, requests);
    case MarkPending(h) => MarkPendingKeeps(s, h);
    case ApplyPending(budget) => ScanKeeps(s, ClippedBudget(s, budget));
    case Root(h) => AddRootKeeps(s, h);
    case Unroot(h) => ReleaseOneKeeps(s.roots, h);
    case Assign(h, references) => RetargetKeeps(s, h, references);
    case Mark(i, marked) => SetMarkedKeeps(s, i, marked);
    case Sweep(h) => DestroySlotKeeps(s, h.index);
    case _ =>
  }

  /** Over every run, counters stay exact and every handle's history stays consistent. */
  lemma {:induction false} RunKeeps(s: Store, ops: seq<Operation>)
    requires Inv(s) && WellTypedRun(ops)
    ensures Inv(Run(s, ops))
  {
    if ops != [] {
      RunKeeps(s, ops[..|ops| - 1]);
      StepKeeps(Run(s, ops[..|ops| - 1]), ops[|ops| - 1]);
    }
    hide Inv;
  }

  lemma {:induction false} CountNone<T>(s: seq<T>, p: T -> bool)
    requires forall k :: 0 <= k < |s| ==> !p(s[k])
    ensures Count(s, p) == 0
  {
    CountPositive(s, p);
  }

  lemma {:induction false} NoPayload(slots: seq<Slot>)
    requires forall k :: 0 <= k < |slots| ==> slots[k] == EMPTY_SLOT
    ensures Sum(slots, PayloadOf) == 0
  {
    if slots != [] { NoPayload(slots[..|slots| - 1]); }
  }

  lemma FreshIsValid(slotCount: nat, rootCapacity: nat, slotSize: nat)
    requires 0 < slotCount <= UINT32_MAX
    ensures Inv(Fresh(slotCount, rootCapacity, slotSize))
  {
    var s := Fresh(slotCount, rootCapacity, slotSize);
    CountNone(s.slots, IsOccupied);
    CountNone(s.slots, IsPending);
    CountNone(s.slots, IsRetired);
    CountNone(s.roots.entries, IsRoot);
    NoPayload(s.slots);
  }

  /** Internal fragmentation is a difference of unsigned numbers: it never underflows. */
  lemma {:induction false} PayloadFits(slots: seq<Slot>, slotSize: nat)
    requires SlotsOk(slots, slotSize)
    ensures Sum(slots, PayloadOf) <= Count(slots, IsOccupied) * slotSize
  {
    if slots != [] {
      var n := |slots| - 1;
      PayloadFits(slots[..n], slotSize);
      assert SlotOk(slots[n], slotSize);
      assert (Count(slots[..n], IsOccupied) + 1) * slotSize == Count(slots[..n], IsOccupied) * slotSize + slotSize;
    }
  }

  lemma FragmentationNeverUnderflows(slotCount: nat, rootCapacity: nat, slotSize: nat, ops: seq<Operation>)
    requires 0 < slotCount <= UINT32_MAX && WellTypedRun(ops)
    ensures var s := Run(Fresh(slotCount, rootCapacity, slotSize), ops); s.payload <= s.occupied * s.slotSize
  {
    FreshIsValid(slotCount, rootCapacity, slotSize);
    RunKeeps(Fresh(slotCount, rootCapacity, slotSize), ops);
    var s := Run(Fresh(slotCount, rootCapacity, slotSize), ops);
    PayloadFits(s.slots, s.slotSize);
  }

  // ------------------------------------------------------------------ handle identity

  predicate PendingAt(s: Store, i: nat) { i < |s.slots| && s.slots[i].state.PendingDestroy? }

  /** In every reachable store, a handle resolves to an object exactly when that object was published
      under it, was not destroyed since, and is not pending destruction. Publication is once per handle,
      so no two objects ever answer to the same handle. */
  lemma HandlesNeverAlias(slotCount: nat, rootCapacity: nat, slotSize: nat, ops: seq<Operation>, h: Handle, o: Object)
    requires 0 < slotCount <= UINT32_MAX && WellTypedRun(ops) && o.Object?
    ensures var s := Run(Fresh(slotCount, rootCapacity, slotSize), ops);
            && (Identity(Resolve(s, h)) == Identity(o) <==>
                  Published(h, Identity(o)) in s.log && Destroyed(h) !in s.log && !PendingAt(s, h.index))
            && (forall a, b :: 0 <= a < b < |s.log| && s.log[a].Published? && s.log[b].Published? ==>
                  s.log[a].handle != s.log[b].handle)
  {
    FreshIsValid(slotCount, rootCapacity, slotSize);
    RunKeeps(Fresh(slotCount, rootCapacity, slotSize), ops);
    var s := Run(Fresh(slotCount, rootCapacity, slotSize), ops);
    var e := Published(h, Identity(o));
    assert e in s.log ==> EventOk(s.slots, s.log, e);
    assert Destroyed(h) in s.log ==> EventOk(s.slots, s.log, Destroyed(h));
    hide Run, CountersExact;
  }

  /** History only grows. */
  lemma {:induction false} ScanExtends(s: Store, visits: nat)
    requires Inv(s)
    ensures s.log <= Scan(s, visits).log && |Scan(s, visits).slots| == |s.slots|
    decreases visits
  {
    hide Inv;
    if visits != 0 && s.pending != 0 {
      ScanOneKeeps(s);
      ScanExtends(ScanOne(s), visits - 1);
    }
  }

  /** The reported number of destroyed objects is the number of destructions the scan adds to the history. */
  lemma {:induction false} ScanReportsDestructions(s: Store, visits: nat)
    requires Inv(s)
    ensures |Scan(s, visits).log| == |s.log| + ScanDestroys(s, visits)
    decreases visits
  {
    hide CountersExact, HistoryOk, DestroySlot;
    if visits != 0 && s.pending != 0 {
      ScanOneKeeps(s);
      AdvanceCursorKeeps(s);
      if s.cursor < |s.slots| {
        assert SlotOk(s.slots[s.cursor], s.slotSize);
        DestroySlotKeeps(AdvanceCursor(s), s.cursor);
      }
      ScanReportsDestructions(ScanOne(s), visits - 1);
    }
  }

  lemma StepExtends(s: Store, op: Operation)
    requires Inv(s) && op.WellTyped()
    ensures s.log <= Step(s, op).log && |Step(s, op).slots| == |s.slots|
  {
    match op
    case Construct(known, o, requests) => ConstructActorIsAtomic(s, known, o, requests);
    case ApplyPending(budget) => ScanExtends(s, ClippedBudget(s, budget));
    case Sweep(h) => DestroySlotKeeps(s, h.index);
    case _ =>
  }

  lemma {:induction false} RunExtends(s: Store, ops: seq<Operation>)
    requires Inv(s) && WellTypedRun(ops)
    ensures Inv(Run(s, ops)) && s.log <= Run(s, ops).log && |Run(s, ops).slots| == |s.slots|
  {
    hide Inv;
    if ops != [] {
      var t := Run(s, ops[..|ops| - 1]);
      RunExtends(s, ops[..|ops| - 1]);
      StepExtends(t, ops[|ops| - 1]);
      StepKeeps(t, ops[|ops| - 1]);
    }
  }

  // ------------------------------------------------------------------ weak owners

  /** A liveness token: the slot whose generation counter it watches, and the generation it expects. */
  datatype WeakOwner = WeakOwner(counter: Option<nat>, expected: nat, hasOwner: bool)

  function MakeWeakOwner(s: Store, h: Handle): WeakOwner {
    WeakOwner(FindMatchingSlot(s, h, false), h.generation, true)
  }

  predicate IsLive(w: WeakOwner, s: Store)
    requires w.counter.Some? ==> w.counter.value < |s.slots|
  {
    !w.hasOwner || (w.counter.Some? && s.slots[w.counter.value].generation == w.expected)
  }

  /** Whatever happens next, a token taken for a live object dies exactly when that object is destroyed,
      save in the one case the counter cannot express: an object of the last generation, whose slot
      retires without advancing, leaves its token live for ever. A token taken for a dead handle never lives. */
  lemma WeakOwnerDiesWithItsObject(s: Store, h: Handle, ops: seq<Operation>)
    requires Inv(s) && WellTypedRun(ops)
    ensures var w, t := MakeWeakOwner(s, h), Run(s, ops);
            && (w.counter.Some? ==> w.counter.value < |t.slots|)
            && (IsLive(w, t) <==> Resolve(s, h).Object? && (Destroyed(h) !in t.log || h.generation == UINT32_MAX))
  {
    var t := Run(s, ops);
    RunExtends(s, ops);
    if Resolve(s, h).Object? {
      var e := Published(h, Identity(s.slots[h.index].instance));
      assert e in s.log;
      assert EventOk(t.slots, t.log, e);
      assert Destroyed(h) in t.log ==> EventOk(t.slots, t.log, Destroyed(h));
      assert SlotOk(t.slots[h.index], t.slotSize);
    }
    hide Run, CountersExact;
  }

  // ------------------------------------------------------------------ fair reclamation

  /** How many slots the round-robin cursor passes before it visits slot `i`. */
  function Distance(s: Store, i: nat): int {
    if i >= s.cursor then i - s.cursor else i - s.cursor + |s.slots|
  }

  /** The object is destroyed already, or is still pending and fewer than `d` visits away. */
  predicate Due(s: Store, h: Handle, d: int) {
    Destroyed(h) in s.log
    || (PendingAt(s, h.index) && s.slots[h.index].generation == h.generation && Distance(s, h.index) < d)
  }

  lemma ScanOneAdvances(s: Store, h: Handle, d: int)
    requires Inv(s) && Due(s, h, d)
    ensures Due(ScanOne(s), h, d - 1)
  {
    hide HistoryOk, CountersExact, DestroySlot;
    var moved := AdvanceCursor(s);
    AdvanceCursorKeeps(s);
    DestroySlotKeeps(moved, s.cursor);
    assert SlotOk(s.slots[s.cursor], s.slotSize);
    if Due(moved, h, d - 1) {
      DestroySlotKeepsOthers(moved, s.cursor, h, d - 1);
    }
  }

  lemma DestroySlotKeepsOthers(s: Store, i: nat, h: Handle, d: int)
    requires Inv(s) && Due(s, h, d)
    ensures Due(DestroySlot(s, i), h, d)
  {
    hide HistoryOk, CountersExact;
    DestroySlotKeeps(s, i);
  }

  lemma {:induction false} ScanAdvances(s: Store, visits: nat, h: Handle, d: int)
    requires Inv(s) && Due(s, h, d)
    ensures Due(Scan(s, visits), h, d - visits)
    decreases visits
  {
    if s.pending == 0 {
      CountPositive(s.slots, IsPending);
      assert forall k :: 0 <= k < |s.slots| ==> !IsPending(s.slots[k]);
    } else if visits != 0 {
      ScanOneAdvances(s, h, d);
      ScanOneKeeps(s);
      ScanAdvances(ScanOne(s), visits - 1, h, d - 1);
    }
    hide Inv;
  }

  /** The visits an operation pays for: a clipped barrier budget when the store is unlocked. */
  function Visits(s: Store, op: Operation): nat {
    if op.ApplyPending? && !s.Locked() then ClippedBudget(s, op.budget) else 0
  }

  function TotalVisits(s: Store, ops: seq<Operation>): nat
    requires WellTypedRun(ops)
  {
    if ops == [] then 0
    else TotalVisits(s, ops[..|ops| - 1]) + Visits(Run(s, ops[..|ops| - 1]), ops[|ops| - 1])
  }

  lemma StepAdvances(s: Store, op: Operation, h: Handle, d: int)
    requires Inv(s) && op.WellTyped() && Due(s, h, d)
    ensures Due(Step(s, op), h, d - Visits(s, op))
  {
    hide Inv, Due, NewObject, ConstructActor, MarkPendingDestroy, Retarget, Scan, SetMarked, DestroySlot;
    match op
    case New(known, o) => NewKeepsDue(s, known, o, h, d);
    case Construct(known, o, requests) => ConstructKeepsDue(s, known, o, requests, h, d);
    case MarkPending(g) => MarkPendingKeepsDue(s, g, h, d);
    case ApplyPending(budget) => ApplyAdvances(s, budget, h, d);
    case Assign(g, references) => RetargetKeepsDue(s, g, references, h, d);
    case Sweep(g) => DestroySlotKeepsOthers(s, g.index, h, d);
    case Mark(i, marked) => SetMarkedKeepsDue(s, i, marked, h, d);
    case _ => TablesKeepDue(s, Step(s, op), h, d);
  }

  lemma ApplyAdvances(s: Store, budget: nat, h: Handle, d: int)
    requires Inv(s) && Due(s, h, d)
    ensures Due(ApplyPendingDestroy(s, budget), h, d - Visits(s, ApplyPending(budget)))
  {
    hide HistoryOk, CountersExact, Due, Scan;
    ScanAdvances(s, ClippedBudget(s, budget), h, d);
  }

  /** Roots and locks have no part in it. */
  lemma TablesKeepDue(s: Store, t: Store, h: Handle, d: int)
    requires Due(s, h, d) && t.slots == s.slots && t.cursor == s.cursor && t.log == s.log
    ensures Due(t, h, d)
  {
  }

  lemma ConstructKeepsDue(s: Store, known: bool, o: Object, requests: seq<Request>, h: Handle, d: int)
    requires Inv(s) && o.Object? && AllObjects(requests) && Due(s, h, d)
    ensures Due(ConstructActor(s, known, o, requests).store, h, d)
  {
    hide HistoryOk, CountersExact, ConstructActor;
    ConstructActorIsAtomic(s, known, o, requests);
  }

  lemma SetMarkedKeepsDue(s: Store, i: nat, marked: bool, h: Handle, d: int)
    requires Inv(s) && Due(s, h, d)
    ensures Due(SetMarked(s, i, marked), h, d)
  {
    hide HistoryOk, CountersExact;
  }

  lemma NewKeepsDue(s: Store, known: bool, o: Object, h: Handle, d: int)
    requires Inv(s) && o.Object? && Due(s, h, d)
    ensures Due(NewObject(s, known, o).store, h, d)
  {
    hide HistoryOk, CountersExact;
  }

  lemma MarkPendingKeepsDue(s: Store, g: Handle, h: Handle, d: int)
    requires Inv(s) && Due(s, h, d)
    ensures Due(MarkPendingDestroy(s, g).0, h, d)
  {
    hide HistoryOk, CountersExact;
  }

  lemma RetargetKeepsDue(s: Store, g: Handle, references: seq<Handle>, h: Handle, d: int)
    requires Inv(s) && Due(s, h, d)
    ensures Due(Retarget(s, g, references), h, d)
  {
    hide HistoryOk, CountersExact;
  }

  lemma {:induction false} RunAdvances(s: Store, ops: seq<Operation>, h: Handle)
    requires Inv(s) && WellTypedRun(ops) && Due(s, h, |s.slots|)
    ensures Due(Run(s, ops), h, |s.slots| - TotalVisits(s, ops))
  {
    hide Inv, Due, Step, Visits;
    if ops != [] {
      var t := Run(s, ops[..|ops| - 1]);
      RunAdvances(s, ops[..|ops| - 1], h);
      RunKeeps(s, ops[..|ops| - 1]);
      StepAdvances(t, ops[|ops| - 1], h, |s.slots| - TotalVisits(s, ops[..|ops| - 1]));
    }
  }

  /** Round-robin reclamation is fair: however requests, constructions and collections interleave, once
      the barrier has been granted as many visits as there are slots, every object that was pending at
      the start has been destroyed, and only once. */
  lemma ReclamationIsFair(s: Store, ops: seq<Operation>, i: nat)
    requires Inv(s) && WellTypedRun(ops)
    requires PendingAt(s, i) && TotalVisits(s, ops) >= |s.slots|
    ensures var h := Handle(i, s.slots[i].generation);
            && multiset(Run(s, ops).log)[Destroyed(h)] == 1
  {
    hide Run, TotalVisits, CountersExact, EventOk, SlotOk;
    var h := Handle(i, s.slots[i].generation);
    RunAdvances(s, ops, h);
    RunExtends(s, ops);
    var log := Run(s, ops).log;
    assert OncePerHandle(log) && Destroyed(h) in log;
    LoggedOnce(log, Destroyed(h));
  }

  lemma {:induction false} LoggedOnce(log: seq<Event>, e: Event)
    requires OncePerHandle(log) && e in log
    ensures multiset(log)[e] == 1
  {
    var n := |log| - 1;
    assert log == log[..n] + [log[n]];
    if log[n] == e {
      assert e !in log[..n];
    } else {
      LoggedOnce(log[..n], e);
    }
  }

  // ------------------------------------------------------------------ marks belong to the collector

  predicate NoMarks(slots: seq<Slot>) { forall i :: 0 <= i < |slots| ==> !slots[i].marked }

  lemma {:induction false} ScanKeepsUnmarked(s: Store, visits: nat)
    requires Inv(s) && NoMarks(s.slots)
    ensures NoMarks(Scan(s, visits).slots)
    decreases visits
  {
    hide Inv;
    if visits != 0 && s.pending != 0 {
      ScanOneKeeps(s);
      AdvanceCursorKeeps(s);
      if s.cursor < |s.slots| { DestroySlotKeeps(AdvanceCursor(s), s.cursor); }
      ScanKeepsUnmarked(ScanOne(s), visits - 1);
    }
  }

  /** No public operation ever sets a mark. */
  lemma PublicKeepsUnmarked(s: Store, op: Operation)
    requires Inv(s) && NoMarks(s.slots) && op.WellTyped() && op.Public()
    ensures NoMarks(Step(s, op).slots)
  {
    hide CountersExact, HistoryOk;
    match op
    case Construct(known, o, requests) => ConstructActorIsAtomic(s, known, o, requests);
    case ApplyPending(budget) => ScanKeepsUnmarked(s, ClippedBudget(s, budget));
    case _ =>
  }
}
