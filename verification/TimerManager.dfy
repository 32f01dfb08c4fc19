/**
 `TTimerManager` over fixed arrays. The append to the insertion order carries no bounds check, as in the original:
 that it is in bounds follows from the order enumerating the active slots. Every method performs one TimerModel step.
 */
module TimerManager {
  import opened Basics
  import opened TimerModel
  import opened TimerProofs

  ghost function Indices(order: seq<TimerHandle>): set<nat> { set k: nat | k < |order| :: order[k].index }

  lemma {:induction false} IndicesAreDistinct(slots: seq<TimerSlot>, order: seq<TimerHandle>, n: nat)
    requires Enumerates(slots, order) && n <= |order|
    ensures |Indices(order[..n])| == n && forall i :: i in Indices(order[..n]) ==> i < |slots| && slots[i].active
  {
    if n > 0 {
      IndicesAreDistinct(slots, order, n - 1);
      forall k | 0 <= k < n - 1 ensures order[k].index != order[n - 1].index { assert order[k] != order[n - 1]; }
      assert Indices(order[..n]) == Indices(order[..n - 1]) + {order[n - 1].index};
    }
  }

  /** A slot that is not active leaves room in the insertion order. */
  lemma OrderHasRoom(slots: seq<TimerSlot>, order: seq<TimerHandle>, i: nat)
    requires Enumerates(slots, order) && i < |slots| && !slots[i].active
    ensures |order| < |slots|
  {
    IndicesAreDistinct(slots, order, |order|);
    BoundedSetSize(Indices(order[..|order|]) + {i}, |slots|);
  }

  /** Firing does not look at the dispatch lock. */
  lemma {:induction false} FiringIgnoresTheLock(m: Manager, snapshot: seq<TimerHandle>, now: nat, k: nat)
    requires k <= |snapshot| && now <= UINT64_MAX
    ensures FireUpTo(m.(dispatching := true), snapshot, now, k) == FireUpTo(m, snapshot, now, k).(dispatching := true)
  {
    hide Fire;
    if k > 0 {
      FiringIgnoresTheLock(m, snapshot, now, k - 1);
      FireIgnoresTheLock(FireUpTo(m, snapshot, now, k - 1), snapshot[k - 1], now);
    }
  }

  lemma FireIgnoresTheLock(m: Manager, h: TimerHandle, now: nat)
    requires now <= UINT64_MAX
    ensures Fire(m.(dispatching := true), h, now) == Fire(m, h, now).(dispatching := true)
  {
    assert IsLive(m.(dispatching := true), h) == IsLive(m, h);
  }

  lemma CompactedNothing(m: Manager)
    ensures Compacted(m, m.order, 0) == []
  {
  }

  /** Removing an entry is closing the gap it leaves. */
  lemma {:induction false} RemoveClosesTheGap(order: seq<TimerHandle>, h: TimerHandle, p: nat)
    requires p <= |order| && h !in order[..p] && (p < |order| ==> order[p] == h)
    ensures Remove(order, h) == if p < |order| then order[..p] + order[p + 1..] else order
  {
    if p > 0 {
      assert order == [order[0]] + order[1..] && order[0] in order[..p];
      assert order[1..][..p - 1] == order[..p][1..];
      RemoveClosesTheGap(order[1..], h, p - 1);
      if p < |order| { assert order[1..][p..] == order[p + 1..]; }
    }
  }

  class TimerManager {
    const slots: array<TimerSlot>
    const insertionOrder: array<TimerHandle>
    const dispatchSnapshot: array<TimerHandle>
    var lastAcceptedNow: nat
    var activeTimerCount: nat
    var dispatchActive: bool
    ghost var issued: seq<TimerHandle>
    ghost var fired: seq<Firing>

    ghost predicate Shape()
      reads this
    {
      && insertionOrder.Length == slots.Length && dispatchSnapshot.Length == slots.Length
      && insertionOrder != dispatchSnapshot && activeTimerCount <= slots.Length
    }

    ghost function Model(): Manager
      reads this, slots, insertionOrder
      requires Shape()
    {
      Manager(slots[..], insertionOrder[..activeTimerCount], lastAcceptedNow, dispatchActive, issued, fired)
    }

    /** Between dispatches the tables agree; a callback running inside a dispatch finds the lock set. */
    ghost predicate Valid()
      reads this, slots, insertionOrder
    {
      Shape() && lastAcceptedNow <= UINT64_MAX && (dispatchActive || Inv(Model()))
    }

    constructor (maxTimers: nat, initialNow: nat)
      requires maxTimers < INVALID_INDEX && initialNow <= UINT64_MAX
      ensures Valid() && Model() == Fresh(maxTimers, initialNow) && fresh(slots) && fresh(insertionOrder) && fresh(dispatchSnapshot)
    {
      slots := new TimerSlot[maxTimers](_ => IDLE_SLOT);
      insertionOrder := new TimerHandle[maxTimers](_ => NO_TIMER);
      dispatchSnapshot := new TimerHandle[maxTimers](_ => NO_TIMER);
      lastAcceptedNow, activeTimerCount, dispatchActive := initialNow, 0, false;
      issued, fired := [], [];
      new;
      assert slots[..] == seq(maxTimers, _ => IDLE_SLOT);
      FreshInv(maxTimers, initialNow);
    }

    method FindAvailableSlot() returns (i: nat)
      ensures i == FindAvailable(slots[..], 0)
    {
      i := 0;
      while i < slots.Length
        invariant i <= slots.Length && FindAvailable(slots[..], 0) == FindAvailable(slots[..], i)
      {
        if !slots[i].active && !slots[i].retired { return; }
        i := i + 1;
      }
    }

    method Schedule(callback: Option<nat>, delay: nat, mode: Mode) returns (result: TimerResult, handle: TimerHandle)
      requires Valid()
      modifies this, slots, insertionOrder
      ensures Valid() && (Model(), result, handle) == TimerModel.Schedule(old(Model()), callback, delay, mode)
    {
      hide Inv;
      handle := NO_TIMER;
      if dispatchActive { return DispatchLocked, handle; }
      if mode.Unset? { return InvalidMode, handle; }
      if callback.None? { return InvalidCallback, handle; }
      var i := FindAvailableSlot();
      if i == slots.Length { return CapacityExceeded, handle; }
      ghost var m := Model();
      RoomToSchedule(m, i);
      ScheduleRefines(m, callback, delay, mode);
      var generation := slots[i].generation;
      slots[i] := TimerSlot(callback, SaturatingAdd(lastAcceptedNow, delay), if mode.Looping? then delay else 0, 0,
                            generation, mode, true, false);
      handle := TimerHandle(i, generation);
      insertionOrder[activeTimerCount] := handle;
      activeTimerCount := activeTimerCount + 1;
      issued := issued + [handle];
      result := Success;
      assert slots[..] == m.slots[i := slots[i]] && insertionOrder[..activeTimerCount] == m.order + [handle];
    }

    method Cancel(handle: TimerHandle) returns (result: TimerResult)
      requires Valid()
      modifies this, slots, insertionOrder
      ensures Valid() && (Model(), result) == TimerModel.Cancel(old(Model()), handle)
    {
      hide Inv;
      if dispatchActive { return DispatchLocked; }
      if !handle.IsValid() || handle.index >= slots.Length { return InvalidHandle; }
      if !slots[handle.index].active || slots[handle.index].generation != handle.generation { return StaleHandle; }
      ghost var m := Model();
      CancelRefines(m, handle);
      CancelledCount(m, handle);
      slots[handle.index] := Vacated(slots[handle.index]);
      assert slots[..] == m.slots[handle.index := Vacated(m.slots[handle.index])];
      RemoveInsertionOrderAt(handle);
      activeTimerCount := activeTimerCount - 1;
      result := Success;
    }

    method RemoveInsertionOrderAt(removed: TimerHandle)
      requires Shape() && removed in insertionOrder[..activeTimerCount]
      modifies insertionOrder
      ensures 0 < activeTimerCount
      ensures insertionOrder[..activeTimerCount - 1] == Remove(old(insertionOrder[..activeTimerCount]), removed)
    {
      ghost var order := insertionOrder[..activeTimerCount];
      var position := 0;
      while insertionOrder[position] != removed
        invariant position < activeTimerCount && removed !in order[..position] && removed in order[position..]
        decreases activeTimerCount - position
      {
        assert order[position..] == [order[position]] + order[position + 1..];
        position := position + 1;
      }
      RemoveClosesTheGap(order, removed, position);
      ShiftDown(position);
    }

    method ShiftDown(position: nat)
      requires Shape() && position < activeTimerCount
      modifies insertionOrder
      ensures insertionOrder[..activeTimerCount - 1]
           == old(insertionOrder[..position]) + old(insertionOrder[position + 1..activeTimerCount])
    {
      ghost var order := insertionOrder[..activeTimerCount];
      var shift := position;
      while shift + 1 < activeTimerCount
        invariant position <= shift < activeTimerCount
        invariant forall k :: 0 <= k < position ==> insertionOrder[k] == order[k]
        invariant forall k :: position <= k < shift ==> insertionOrder[k] == order[k + 1]
        invariant forall k :: shift < k < activeTimerCount ==> insertionOrder[k] == order[k]
      {
        insertionOrder[shift] := insertionOrder[shift + 1];
        shift := shift + 1;
      }
      insertionOrder[activeTimerCount - 1] := NO_TIMER;
    }

    method SnapshotActiveTimers() returns (count: nat)
      requires Shape()
      modifies dispatchSnapshot
      ensures count == activeTimerCount && dispatchSnapshot[..count] == insertionOrder[..activeTimerCount]
    {
      count := activeTimerCount;
      for i := 0 to count
        invariant dispatchSnapshot[..i] == insertionOrder[..i]
      {
        dispatchSnapshot[i] := insertionOrder[i];
      }
    }

    method FireAndRescheduleSlot(handle: TimerHandle, now: nat)
      requires Shape() && now <= UINT64_MAX && handle.IsValid()
      requires handle.index < slots.Length && slots[handle.index].active ==> slots[handle.index].callback.Some?
      modifies slots, `fired
      ensures Shape() && Model() == Fire(old(Model()), handle, now)
    {
      ghost var m := Model();
      if handle.index >= slots.Length { return; }
      var x := slots[handle.index];
      if !x.active || x.generation != handle.generation { return; }
      if now < x.deadline { return; }
      if x.period != 0 && x.lastFired == now { return; }
      fired := fired + [Firing(handle, x.callback.value, x.period, x.mode.Looping?, now)];
      if x.mode.OneShot? {
        x := x.(callback := None, active := false);
        if x.generation < UINT32_MAX { x := x.(generation := x.generation + 1); } else { x := x.(retired := true); }
      } else {
        if x.period != 0 { x := x.(lastFired := now); }
        x := x.(deadline := SaturatingAdd(now, x.period));
      }
      slots[handle.index] := x;
      assert slots[..] == m.slots[handle.index := x];
    }

    method Advance(now: nat) returns (result: TimerResult)
      requires Valid() && now <= UINT64_MAX
      modifies this, slots, insertionOrder, dispatchSnapshot
      ensures Valid() && (Model(), result) == TimerModel.Advance(old(Model()), now)
    {
      hide Inv, Fire, FireUpTo, Compacted;
      if dispatchActive { return DispatchLocked; }
      if now < lastAcceptedNow { return NonMonotonicTime; }
      ghost var m := Model();
      AdvanceRefines(m, now);
      TimeAlone(m, now);
      lastAcceptedNow := now;
      var count := SnapshotActiveTimers();
      dispatchActive := true;
      ghost var locked := Model();
      assert locked == m.(now := now).(dispatching := true) && locked.(dispatching := false) == m.(now := now);
      Dispatch(count, now);
      dispatchActive := false;
      FiringIgnoresTheLock(m.(now := now), m.order, now, |m.order|);
      FireUpToKeepsOrder(m.(now := now), m.order, now, |m.order|);
      assert Model() == FireUpTo(m.(now := now), m.order, now, |m.order|);
      CompactInsertionOrder();
      result := Success;
    }

    method Dispatch(count: nat, now: nat)
      requires Shape() && now <= UINT64_MAX && count == activeTimerCount && now == lastAcceptedNow && dispatchActive
      requires Inv(Model().(dispatching := false)) && dispatchSnapshot[..count] == Model().order
      modifies slots, `fired
      ensures Shape() && Model() == FireUpTo(old(Model()), old(Model().order), now, count)
    {
      hide Inv, Fire, FireUpTo;
      ghost var m := Model();
      FireUpToStart(m, m.order, now);
      for i := 0 to count
        invariant Shape() && Model() == FireUpTo(m, m.order, now, i)
      {
        FiringIgnoresTheLock(m.(dispatching := false), m.order, now, i);
        VisitedIsBound(m.(dispatching := false), now, i);
        assert dispatchSnapshot[i] == dispatchSnapshot[..count][i];
        FireUpToStep(m, m.order, now, i);
        FireAndRescheduleSlot(dispatchSnapshot[i], now);
      }
    }

    method CompactInsertionOrder()
      requires Shape()
      modifies `activeTimerCount, insertionOrder
      ensures Shape() && Model() == old(Model()).(order := Compacted(old(Model()), old(Model().order), |old(Model().order)|))
    {
      hide Compacted;
      ghost var m := Model();
      CompactedNothing(m);
      var write, read := 0, 0;
      while read < activeTimerCount
        modifies insertionOrder
        invariant write <= read <= activeTimerCount && write == |Compacted(m, m.order, read)|
        invariant insertionOrder[..write] == Compacted(m, m.order, read)
        invariant forall k :: read <= k < activeTimerCount ==> insertionOrder[k] == m.order[k]
      {
        var handle := insertionOrder[read];
        CompactSnoc(m, m.order, read);
        if handle.IsValid() && handle.index < slots.Length && slots[handle.index].active && slots[handle.index].generation == handle.generation {
          insertionOrder[write] := handle;
          write := write + 1;
        }
        read := read + 1;
      }
      for clear := write to activeTimerCount
        modifies insertionOrder
        invariant insertionOrder[..write] == Compacted(m, m.order, activeTimerCount)
      {
        insertionOrder[clear] := NO_TIMER;
      }
      activeTimerCount := write;
    }
  }

  lemma RoomToSchedule(m: Manager, i: nat)
    requires Inv(m) && i < |m.slots| && !m.slots[i].active
    ensures |m.order| < |m.slots|
  {
    OrderHasRoom(m.slots, m.order, i);
  }

  lemma CancelledCount(m: Manager, h: TimerHandle)
    requires Inv(m) && IsLive(m, h)
    ensures h in m.order
  {
    LiveIsListed(m, h);
  }

  lemma FireUpToStart(m: Manager, snapshot: seq<TimerHandle>, now: nat)
    requires now <= UINT64_MAX
    ensures FireUpTo(m, snapshot, now, 0) == m
  {
  }

  lemma FireUpToStep(m: Manager, snapshot: seq<TimerHandle>, now: nat, k: nat)
    requires k < |snapshot| && now <= UINT64_MAX
    ensures FireUpTo(m, snapshot, now, k + 1) == Fire(FireUpTo(m, snapshot, now, k), snapshot[k], now)
  {
  }

  lemma {:induction false} FireUpToKeepsOrder(m: Manager, snapshot: seq<TimerHandle>, now: nat, k: nat)
    requires k <= |snapshot| && now <= UINT64_MAX
    ensures var f := FireUpTo(m, snapshot, now, k);
            f.order == m.order && f.dispatching == m.dispatching && |f.slots| == |m.slots|
  {
    if k > 0 { FireUpToKeepsOrder(m, snapshot, now, k - 1); }
  }

  /** The timer a dispatch visits next still owns its callback. */
  lemma VisitedIsBound(m: Manager, now: nat, k: nat)
    requires Inv(m) && k < |m.order| && now <= UINT64_MAX
    ensures var f, h := FireUpTo(m, m.order, now, k), m.order[k];
            h.IsValid() && h.index < |f.slots| && f.slots[h.index].callback.Some?
  {
    hide Issues, FireUpTo;
    FireUpToEffect(m, now, k);
    ListIsActive(m, m.order[k]);
    assert SlotOk(m.slots[m.order[k].index]);
  }
}
