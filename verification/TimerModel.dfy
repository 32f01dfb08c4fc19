/**
 `TTimerManager` as a pure state machine, next to the one ordered list of timers it is meant to be. The manager
 keeps slots and a separate insertion order; `issued` and `fired` are history.
 */
module TimerModel {
  import opened Basics

  const INVALID_INDEX := 0xFFFF

  datatype TimerHandle = TimerHandle(index: nat, generation: nat) {
    predicate IsValid() { index != INVALID_INDEX && generation != 0 }
  }
  const NO_TIMER := TimerHandle(INVALID_INDEX, 0)

  datatype Mode = Unset | OneShot | Looping
  datatype TimerResult = Success | DispatchLocked | InvalidMode | InvalidCallback | CapacityExceeded | InvalidHandle | StaleHandle
                       | NonMonotonicTime

  datatype TimerSlot = TimerSlot(
    callback: Option<nat>, deadline: nat, period: nat, lastFired: nat, generation: nat, mode: Mode, active: bool, retired: bool)
  const IDLE_SLOT := TimerSlot(None, 0, 0, 0, 1, Unset, false, false)

  datatype Firing = Firing(handle: TimerHandle, callback: nat, period: nat, looping: bool, time: nat)

  datatype Manager = Manager(
    slots: seq<TimerSlot>, order: seq<TimerHandle>, now: nat, dispatching: bool, issued: seq<TimerHandle>, fired: seq<Firing>)

  function Fresh(capacity: nat, now: nat): Manager { Manager(seq(capacity, _ => IDLE_SLOT), [], now, false, [], []) }

  function SaturatingAdd(time: nat, delay: nat): (r: nat)
    requires time <= UINT64_MAX
    ensures r <= UINT64_MAX && (r == time + delay || (r == UINT64_MAX && UINT64_MAX < time + delay))
  {
    if UINT64_MAX - time < delay then UINT64_MAX else time + delay
  }

  // ------------------------------------------------------------------ the manager

  function FindAvailable(slots: seq<TimerSlot>, i: nat): (r: nat)
    requires i <= |slots|
    ensures i <= r <= |slots| && (r < |slots| ==> !slots[r].active && !slots[r].retired)
    ensures forall k :: i <= k < r ==> slots[k].active || slots[k].retired
    decreases |slots| - i
  {
    if i == |slots| || (!slots[i].active && !slots[i].retired) then i else FindAvailable(slots, i + 1)
  }

  function Schedule(m: Manager, callback: Option<nat>, delay: nat, mode: Mode): (Manager, TimerResult, TimerHandle)
    requires m.now <= UINT64_MAX
  {
    var i := FindAvailable(m.slots, 0);
    if m.dispatching then (m, DispatchLocked, NO_TIMER)
    else if mode.Unset? then (m, InvalidMode, NO_TIMER)
    else if callback.None? then (m, InvalidCallback, NO_TIMER)
    else if i == |m.slots| then (m, CapacityExceeded, NO_TIMER)
    else
      var g := m.slots[i].generation;
      var x := TimerSlot(callback, SaturatingAdd(m.now, delay), if mode.Looping? then delay else 0, 0, g, mode, true, false);
      var h := TimerHandle(i, g);
      (m.(slots := m.slots[i := x], order := m.order + [h], issued := m.issued + [h]), Success, h)
  }

  /** A slot gives up its timer; its generation moves on, or the slot retires when it cannot. */
  function Vacated(x: TimerSlot): TimerSlot {
    if x.generation < UINT32_MAX then x.(callback := None, active := false, generation := x.generation + 1)
    else x.(callback := None, active := false, retired := true)
  }

  predicate IsLive(m: Manager, h: TimerHandle) {
    h.IsValid() && h.index < |m.slots| && m.slots[h.index].active && m.slots[h.index].generation == h.generation
  }

  function Remove(order: seq<TimerHandle>, h: TimerHandle): seq<TimerHandle> {
    if order == [] then [] else if order[0] == h then order[1..] else [order[0]] + Remove(order[1..], h)
  }

  function Cancel(m: Manager, h: TimerHandle): (Manager, TimerResult) {
    if m.dispatching then (m, DispatchLocked)
    else if !h.IsValid() || h.index >= |m.slots| then (m, InvalidHandle)
    else if !IsLive(m, h) then (m, StaleHandle)
    else (m.(slots := m.slots[h.index := Vacated(m.slots[h.index])], order := Remove(m.order, h)), Success)
  }

  predicate SlotDue(x: TimerSlot, now: nat) { x.deadline <= now && !(x.period != 0 && x.lastFired == now) }

  function AfterFiring(x: TimerSlot, now: nat): TimerSlot
    requires now <= UINT64_MAX
  {
    if x.mode.OneShot? then Vacated(x)
    else x.(lastFired := if x.period != 0 then now else x.lastFired, deadline := SaturatingAdd(now, x.period))
  }

  function Fire(m: Manager, h: TimerHandle, now: nat): Manager
    requires now <= UINT64_MAX
  {
    if !IsLive(m, h) || !SlotDue(m.slots[h.index], now) || m.slots[h.index].callback.None? then m
    else
      var x := m.slots[h.index];
      m.(slots := m.slots[h.index := AfterFiring(x, now)],
         fired := m.fired + [Firing(h, x.callback.value, x.period, x.mode.Looping?, now)])
  }

  /** The first `k` handles of the snapshot have been visited. */
  function FireUpTo(m: Manager, snapshot: seq<TimerHandle>, now: nat, k: nat): Manager
    requires k <= |snapshot| && now <= UINT64_MAX
  {
    if k == 0 then m else Fire(FireUpTo(m, snapshot, now, k - 1), snapshot[k - 1], now)
  }

  /** The handles among the first `k` that are still live, in order. */
  function Compacted(m: Manager, order: seq<TimerHandle>, k: nat): seq<TimerHandle>
    requires k <= |order|
  {
    if k == 0 then [] else Compacted(m, order, k - 1) + (if IsLive(m, order[k - 1]) then [order[k - 1]] else [])
  }

  function Advance(m: Manager, now: nat): (Manager, TimerResult)
    requires now <= UINT64_MAX
  {
    if m.dispatching then (m, DispatchLocked)
    else if now < m.now then (m, NonMonotonicTime)
    else
      var f := FireUpTo(m.(now := now), m.order, now, |m.order|);
      (f.(order := Compacted(f, m.order, |m.order|)), Success)
  }

  // ------------------------------------------------------------------ one ordered list of timers

  datatype Timer = Timer(handle: TimerHandle, callback: nat, deadline: nat, period: nat, lastFired: nat, looping: bool)

  predicate Due(t: Timer, now: nat) { t.deadline <= now && !(t.period != 0 && t.lastFired == now) }

  function Refired(t: Timer, now: nat): Timer
    requires now <= UINT64_MAX
  {
    t.(lastFired := if t.period != 0 then now else t.lastFired, deadline := SaturatingAdd(now, t.period))
  }

  /** What time does to the list: due one-shots leave it, due loops are rearmed, the others stay as they are. */
  function Elapse(ts: seq<Timer>, now: nat): seq<Timer>
    requires now <= UINT64_MAX
  {
    if ts == [] then []
    else
      var u, t := ts[..|ts| - 1], ts[|ts| - 1];
      Elapse(u, now) + (if !Due(t, now) then [t] else if t.looping then [Refired(t, now)] else [])
  }

  /** Who fires, in list order. */
  function Firings(ts: seq<Timer>, now: nat): seq<Firing> {
    if ts == [] then []
    else
      var u, t := ts[..|ts| - 1], ts[|ts| - 1];
      Firings(u, now) + (if Due(t, now) then [Firing(t.handle, t.callback, t.period, t.looping, now)] else [])
  }

  function Dropped(ts: seq<Timer>, h: TimerHandle): seq<Timer> {
    if ts == [] then [] else if ts[0].handle == h then ts[1..] else [ts[0]] + Dropped(ts[1..], h)
  }

  function TimerOf(m: Manager, h: TimerHandle): Timer
    requires h.index < |m.slots|
  {
    var x := m.slots[h.index];
    Timer(h, if x.callback.Some? then x.callback.value else 0, x.deadline, x.period, x.lastFired, x.mode.Looping?)
  }

  /** The list a manager stands for. */
  function Timers(m: Manager, order: seq<TimerHandle>): seq<Timer>
    requires forall k :: 0 <= k < |order| ==> order[k].index < |m.slots|
  {
    seq(|order|, k requires 0 <= k < |order| => TimerOf(m, order[k]))
  }
}
