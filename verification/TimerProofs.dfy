/** The timer manager is one ordered list of timers; handles never revive; loops keep their period. */
module TimerProofs {
  import opened Basics
  import opened TimerModel

  ghost predicate SlotOk(x: TimerSlot) {
    && 0 < x.generation <= UINT32_MAX && (x.retired ==> !x.active && x.generation == UINT32_MAX)
    && (x.active ==> x.callback.Some? && !x.mode.Unset? && x.deadline <= UINT64_MAX && (x.mode.OneShot? ==> x.period == 0))
  }

  /** The insertion order enumerates the active slots, each exactly once. */
  ghost predicate Enumerates(slots: seq<TimerSlot>, order: seq<TimerHandle>) {
    && Distinct(order)
    && (forall k :: 0 <= k < |order| ==> order[k].index < |slots| && slots[order[k].index].active
                                         && slots[order[k].index].generation == order[k].generation)
    && (forall i :: 0 <= i < |slots| && slots[i].active ==> TimerHandle(i, slots[i].generation) in order)
  }

  /** A handle is issued once; a slot that is not armed has never issued its current handle, unless it is retired. */
  ghost predicate Issues(slots: seq<TimerSlot>, issued: seq<TimerHandle>) {
    && Distinct(issued)
    && (forall k :: 0 <= k < |issued| ==> issued[k].index < |slots| && issued[k].generation <= slots[issued[k].index].generation)
    && (forall i :: 0 <= i < |slots| && !slots[i].active && !slots[i].retired ==> TimerHandle(i, slots[i].generation) !in issued)
    && (forall i :: 0 <= i < |slots| && slots[i].active ==> TimerHandle(i, slots[i].generation) in issued)
  }

  ghost predicate Inv(m: Manager) {
    && |m.slots| < INVALID_INDEX && m.now <= UINT64_MAX && !m.dispatching
    && (forall i :: 0 <= i < |m.slots| ==> SlotOk(m.slots[i]))
    && Enumerates(m.slots, m.order) && Issues(m.slots, m.issued)
  }

  /** The list of timers a valid manager stands for. */
  ghost function List(m: Manager): seq<Timer>
    requires Inv(m)
  {
    Timers(m, m.order)
  }

  lemma FreshInv(capacity: nat, now: nat)
    requires capacity < INVALID_INDEX && now <= UINT64_MAX
    ensures Inv(Fresh(capacity, now)) && List(Fresh(capacity, now)) == []
  {
  }

  // ------------------------------------------------------------------ scheduling

  lemma ArmKeepsTables(slots: seq<TimerSlot>, order: seq<TimerHandle>, issued: seq<TimerHandle>, i: nat, x: TimerSlot)
    requires Enumerates(slots, order) && Issues(slots, issued) && i < |slots| && !slots[i].active && !slots[i].retired
    requires x.active && !x.retired && x.generation == slots[i].generation
    ensures var h := TimerHandle(i, x.generation);
            h !in issued && Enumerates(slots[i := x], order + [h]) && Issues(slots[i := x], issued + [h])
  {
    forall k | 0 <= k < |order| ensures order[k].index != i {}
  }

  lemma ArmAppends(m: Manager, r: Manager, i: nat)
    requires Inv(m) && i < |m.slots| && !m.slots[i].active && |r.slots| == |m.slots| && r.slots == m.slots[i := r.slots[i]]
    requires r.order == m.order + [TimerHandle(i, r.slots[i].generation)] && Inv(r)
    ensures List(r) == List(m) + [TimerOf(r, r.order[|m.order|])]
  {
    hide Issues, SlotOk;
    forall k | 0 <= k < |m.order| ensures List(r)[k] == List(m)[k] { assert m.order[k].index != i; }
  }

  /** A schedule appends one timer under a handle that was never issued before, or changes nothing. */
  lemma ScheduleRefines(m: Manager, callback: Option<nat>, delay: nat, mode: Mode)
    requires Inv(m)
    ensures var (r, result, h) := Schedule(m, callback, delay, mode);
            && Inv(r)
            && if result != Success then r == m && h == NO_TIMER
               else h.IsValid() && h !in m.issued && r.issued == m.issued + [h]
                    && List(r) == List(m) + [Timer(h, callback.value, SaturatingAdd(m.now, delay),
                                                   if mode.Looping? then delay else 0, 0, mode.Looping?)]
  {
    hide Enumerates, Issues, List;
    var i := FindAvailable(m.slots, 0);
    var (r, result, h) := Schedule(m, callback, delay, mode);
    if result == Success {
      assert SlotOk(m.slots[i]);
      ArmKeepsTables(m.slots, m.order, m.issued, i, r.slots[i]);
      ArmAppends(m, r, i);
    }
  }

  // ------------------------------------------------------------------ cancelling

  lemma {:induction false} RemoveIsExact(order: seq<TimerHandle>, h: TimerHandle)
    requires Distinct(order)
    ensures var r := Remove(order, h);
            Distinct(r) && forall x :: x in r <==> x in order && x != h
  {
    if order != [] {
      RemoveIsExact(order[1..], h);
      assert order == [order[0]] + order[1..];
      assert order[0] !in order[1..];
    }
  }

  lemma {:induction false} RemoveDrops(m: Manager, order: seq<TimerHandle>, h: TimerHandle)
    requires forall k :: 0 <= k < |order| ==> order[k].index < |m.slots|
    ensures forall k :: 0 <= k < |Remove(order, h)| ==> Remove(order, h)[k].index < |m.slots|
    ensures Timers(m, Remove(order, h)) == Dropped(Timers(m, order), h)
  {
    if order != [] {
      assert Timers(m, order)[1..] == Timers(m, order[1..]);
      if order[0] != h {
        RemoveDrops(m, order[1..], h);
        assert Timers(m, Remove(order, h)) == [TimerOf(m, order[0])] + Timers(m, Remove(order[1..], h));
      }
    }
  }

  lemma OtherTimersStay(m: Manager, r: Manager, order: seq<TimerHandle>, i: nat)
    requires i < |m.slots| && |r.slots| == |m.slots| && forall k :: 0 <= k < |m.slots| && k != i ==> r.slots[k] == m.slots[k]
    requires forall k :: 0 <= k < |order| ==> order[k].index < |m.slots| && order[k].index != i
    ensures Timers(r, order) == Timers(m, order)
  {
  }

  lemma VacateKeepsOrder(slots: seq<TimerSlot>, order: seq<TimerHandle>, h: TimerHandle)
    requires Enumerates(slots, order) && h in order
    ensures Enumerates(slots[h.index := Vacated(slots[h.index])], Remove(order, h))
    ensures forall k :: 0 <= k < |Remove(order, h)| ==> Remove(order, h)[k].index < |slots| && Remove(order, h)[k].index != h.index
  {
    hide Remove;
    RemoveIsExact(order, h);
    VacatedIsIdle(slots[h.index]);
    var r, rest := Remove(order, h), slots[h.index := Vacated(slots[h.index])];
    forall k | 0 <= k < |r|
      ensures r[k].index < |slots| && r[k].index != h.index && rest[r[k].index].active && rest[r[k].index].generation == r[k].generation
    {
      assert r[k] in r;
    }
    forall i | 0 <= i < |rest| && rest[i].active ensures TimerHandle(i, rest[i].generation) in r {
      assert i != h.index && TimerHandle(i, slots[i].generation) in order;
    }
  }

  lemma VacatedIsIdle(x: TimerSlot)
    ensures !Vacated(x).active
  {
  }

  lemma VacateKeepsIssues(slots: seq<TimerSlot>, issued: seq<TimerHandle>, i: nat)
    requires Issues(slots, issued) && i < |slots| && SlotOk(slots[i]) && slots[i].active
    ensures Issues(slots[i := Vacated(slots[i])], issued)
  {
  }

  /** A cancel removes exactly the timer with this handle, which is live exactly when it is in the list. */
  lemma CancelRefines(m: Manager, h: TimerHandle)
    requires Inv(m)
    ensures var (r, result) := Cancel(m, h);
            && Inv(r) && (result == Success <==> h in m.order) && (result != Success ==> r == m)
            && (result == Success ==> List(r) == Dropped(List(m), h) && h !in r.order && r.issued == m.issued)
  {
    var (r, result) := Cancel(m, h);
    if h in m.order { assert SlotOk(m.slots[h.index]); }
    if result == Success { CancelEffect(m, h); }
  }

  lemma CancelEffect(m: Manager, h: TimerHandle)
    requires Inv(m) && h in m.order
    ensures var r := m.(slots := m.slots[h.index := Vacated(m.slots[h.index])], order := Remove(m.order, h));
            Inv(r) && List(r) == Dropped(List(m), h) && h !in r.order
  {
    hide Enumerates, Issues;
    ListIsActive(m, h);
    var r := m.(slots := m.slots[h.index := Vacated(m.slots[h.index])], order := Remove(m.order, h));
    VacateKeepsOrder(m.slots, m.order, h);
    VacateKeepsIssues(m.slots, m.issued, h.index);
    OtherTimersStay(m, r, r.order, h.index);
    RemoveDrops(m, m.order, h);
    assert SlotOk(m.slots[h.index]);
  }

  lemma ListIsActive(m: Manager, h: TimerHandle)
    requires Inv(m) && h in m.order
    ensures h.index < |m.slots| && m.slots[h.index].active && m.slots[h.index].generation == h.generation && IsLive(m, h)
    ensures forall k :: 0 <= k < |m.order| ==> m.order[k].index < |m.slots|
  {
    assert SlotOk(m.slots[h.index]);
  }

  // ------------------------------------------------------------------ advancing

  function Visited(x: TimerSlot, now: nat): TimerSlot
    requires now <= UINT64_MAX
  {
    if SlotDue(x, now) then AfterFiring(x, now) else x
  }

  /** After the first `k` visits: the visited slots have fired if due, the rest of the table is untouched. */
  ghost predicate VisitedUpTo(m: Manager, f: Manager, now: nat, k: nat)
    requires Inv(m) && k <= |m.order| && now <= UINT64_MAX
  {
    && |f.slots| == |m.slots| && f == m.(slots := f.slots, fired := f.fired)
    && (forall j :: 0 <= j < k ==> f.slots[m.order[j].index] == Visited(m.slots[m.order[j].index], now))
    && (forall j :: k <= j < |m.order| ==> f.slots[m.order[j].index] == m.slots[m.order[j].index])
    && (forall i :: 0 <= i < |m.slots| && !m.slots[i].active ==> f.slots[i] == m.slots[i])
    && f.fired == m.fired + Firings(List(m)[..k], now)
  }

  lemma {:induction false} FireUpToEffect(m: Manager, now: nat, k: nat)
    requires Inv(m) && k <= |m.order| && now <= UINT64_MAX
    ensures VisitedUpTo(m, FireUpTo(m, m.order, now, k), now, k)
  {
    hide Issues, Firings;
    if k > 0 {
      FireUpToEffect(m, now, k - 1);
      FireOneMore(m, FireUpTo(m, m.order, now, k - 1), now, k - 1);
    } else {
      NoFirings(now);
    }
  }

  lemma NoFirings(now: nat)
    ensures Firings([], now) == []
  {
  }

  lemma FiringsOneMore(ts: seq<Timer>, now: nat, k: nat)
    requires k < |ts|
    ensures Firings(ts[..k + 1], now)
         == Firings(ts[..k], now) + (if Due(ts[k], now) then [Firing(ts[k].handle, ts[k].callback, ts[k].period, ts[k].looping, now)] else [])
  {
    assert ts[..k + 1][..k] == ts[..k];
  }

  lemma FireOneMore(m: Manager, f: Manager, now: nat, k: nat)
    requires Inv(m) && k < |m.order| && now <= UINT64_MAX && VisitedUpTo(m, f, now, k)
    ensures VisitedUpTo(m, Fire(f, m.order[k], now), now, k + 1)
  {
    hide Issues, Firings, AfterFiring;
    var h := m.order[k];
    ListIsActive(m, h);
    assert SlotOk(m.slots[h.index]);
    FiringsOneMore(List(m), now, k);
    forall j | 0 <= j < |m.order| && j != k ensures m.order[j].index != h.index { assert m.order[j] != m.order[k]; }
    assert List(m)[k] == TimerOf(m, h);
  }

  lemma ElapseSnoc(ts: seq<Timer>, now: nat, k: nat)
    requires k < |ts| && now <= UINT64_MAX
    ensures Elapse(ts[..k + 1], now)
         == Elapse(ts[..k], now) + (if !Due(ts[k], now) then [ts[k]] else if ts[k].looping then [Refired(ts[k], now)] else [])
  {
    assert ts[..k + 1][..k] == ts[..k];
  }

  lemma {:induction false} CompactedElapses(m: Manager, f: Manager, now: nat, k: nat)
    requires Inv(m) && now <= UINT64_MAX && VisitedUpTo(m, f, now, |m.order|) && k <= |m.order|
    ensures var c := Compacted(f, m.order, k);
            && (forall j :: 0 <= j < |c| ==> c[j].index < |f.slots|)
            && Timers(f, c) == Elapse(List(m)[..k], now)
    ensures var c := Compacted(f, m.order, k);
            && Distinct(c) && forall h :: h in c <==> h in m.order[..k] && IsLive(f, h)
  {
    hide Issues, Firings, Enumerates;
    if k > 0 {
      CompactedElapses(m, f, now, k - 1);
      CompactOneMore(m, f, now, k - 1);
    } else {
      assert Elapse([], now) == [];
    }
  }

  /** What a visit did to one timer: nothing, rearmed it, or ended it. */
  lemma VisitedTimer(m: Manager, f: Manager, now: nat, k: nat)
    requires Inv(m) && now <= UINT64_MAX && VisitedUpTo(m, f, now, |m.order|) && k < |m.order|
    ensures var h, t := m.order[k], List(m)[k];
            && h.index < |f.slots| && (IsLive(f, h) <==> !Due(t, now) || t.looping)
            && (IsLive(f, h) ==> TimerOf(f, h) == (if Due(t, now) then Refired(t, now) else t))
  {
    hide Issues, Firings, Enumerates;
    ListIsActive(m, m.order[k]);
    assert SlotOk(m.slots[m.order[k].index]);
  }

  lemma CompactOneMore(m: Manager, f: Manager, now: nat, k: nat)
    requires Inv(m) && now <= UINT64_MAX && VisitedUpTo(m, f, now, |m.order|) && k < |m.order|
    requires var c := Compacted(f, m.order, k);
             && (forall j :: 0 <= j < |c| ==> c[j].index < |f.slots|) && Timers(f, c) == Elapse(List(m)[..k], now)
             && Distinct(c) && forall h :: h in c <==> h in m.order[..k] && IsLive(f, h)
    ensures var c := Compacted(f, m.order, k + 1);
            && (forall j :: 0 <= j < |c| ==> c[j].index < |f.slots|) && Timers(f, c) == Elapse(List(m)[..k + 1], now)
            && Distinct(c) && forall h :: h in c <==> h in m.order[..k + 1] && IsLive(f, h)
  {
    hide Inv, List, VisitedUpTo, Elapse, Compacted, Due, Refired, TimerOf;
    var h, c := m.order[k], Compacted(f, m.order, k);
    ListLength(m);
    VisitedTimer(m, f, now, k);
    ElapseSnoc(List(m), now, k);
    EarlierDiffers(m, k);
    CompactSnoc(f, m.order, k);
  }

  lemma EarlierDiffers(m: Manager, k: nat)
    requires Inv(m) && k < |m.order|
    ensures m.order[k] !in m.order[..k]
  {
  }

  lemma CompactSnoc(f: Manager, order: seq<TimerHandle>, k: nat)
    requires k < |order|
    ensures Compacted(f, order, k + 1) == Compacted(f, order, k) + (if IsLive(f, order[k]) then [order[k]] else [])
    ensures order[..k + 1] == order[..k] + [order[k]]
  {
  }

  // ------------------------------------------------------------------ one advance

  lemma AdvanceKeeps(m: Manager, now: nat)
    requires Inv(m) && m.now <= now <= UINT64_MAX
    ensures Inv(Advance(m, now).0)
  {
    hide Firings, Timers;
    var s := m.(now := now);
    assert Inv(s);
    var f := FireUpTo(s, s.order, now, |s.order|);
    FireUpToEffect(s, now, |s.order|);
    CompactedElapses(s, f, now, |s.order|);
    assert s.order[..|s.order|] == s.order;
    var r := f.(order := Compacted(f, s.order, |s.order|));
    forall i | 0 <= i < |m.slots|
      ensures r.slots[i] == m.slots[i] || (m.slots[i].active && r.slots[i] == Visited(m.slots[i], now))
    {
      if m.slots[i].active { assert TimerHandle(i, m.slots[i].generation) in s.order; }
    }
    VisitedSlotsOk(m, r, now);
    VisitedIssues(m, r, now);
    VisitedOrder(m, r, now);
  }

  ghost predicate SlotsVisited(m: Manager, r: Manager, now: nat)
    requires now <= UINT64_MAX
  {
    |r.slots| == |m.slots|
    && forall i :: 0 <= i < |m.slots| ==>
         r.slots[i] == m.slots[i] || (m.slots[i].active && r.slots[i] == Visited(m.slots[i], now))
  }

  lemma VisitedSlotsOk(m: Manager, r: Manager, now: nat)
    requires Inv(m) && now <= UINT64_MAX && SlotsVisited(m, r, now)
    ensures forall i :: 0 <= i < |r.slots| ==> SlotOk(r.slots[i])
  {
    hide Enumerates, Issues;
    forall i | 0 <= i < |r.slots| ensures SlotOk(r.slots[i]) { assert SlotOk(m.slots[i]); }
  }

  lemma VisitedIssues(m: Manager, r: Manager, now: nat)
    requires Inv(m) && now <= UINT64_MAX && SlotsVisited(m, r, now)
    ensures Issues(r.slots, m.issued)
  {
    hide Enumerates;
    forall i | 0 <= i < |r.slots| ensures m.slots[i].generation <= r.slots[i].generation <= m.slots[i].generation + 1 {}
  }

  lemma VisitedOrder(m: Manager, r: Manager, now: nat)
    requires Inv(m) && now <= UINT64_MAX && SlotsVisited(m, r, now) && Distinct(r.order)
    requires forall h :: h in r.order <==> h in m.order && IsLive(r, h)
    ensures Enumerates(r.slots, r.order)
  {
    hide Issues;
    forall k | 0 <= k < |r.order| ensures IsLive(r, r.order[k]) { assert r.order[k] in r.order; }
    forall i | 0 <= i < |r.slots| && r.slots[i].active ensures TimerHandle(i, r.slots[i].generation) in r.order {
      assert SlotOk(m.slots[i]);
      assert TimerHandle(i, m.slots[i].generation) in m.order;
    }
  }

  /**
   Time passing: exactly the due timers fire, each once and in schedule order; fired one-shots leave the list,
   fired loops are rearmed in place, and the others keep their place untouched.
   */
  lemma AdvanceRefines(m: Manager, now: nat)
    requires Inv(m) && now <= UINT64_MAX
    ensures var (r, result) := Advance(m, now);
            && Inv(r) && (result == Success <==> m.now <= now) && (result != Success ==> r == m)
            && (result == Success ==>
                  && List(r) == Elapse(List(m), now) && r.fired == m.fired + Firings(List(m), now)
                  && r.issued == m.issued && r.now == now && forall h :: h in r.order ==> h in m.order)
  {
    hide Issues, Enumerates, Firings, Elapse;
    if m.now <= now {
      var s := m.(now := now);
      AdvanceKeeps(m, now);
      TimeAlone(m, now);
      FireUpToEffect(s, now, |s.order|);
      CompactedElapses(s, FireUpTo(s, s.order, now, |s.order|), now, |s.order|);
      assert s.order[..|s.order|] == s.order && List(s)[..|s.order|] == List(s);
    }
  }

  lemma TimeAlone(m: Manager, now: nat)
    requires Inv(m) && now <= UINT64_MAX
    ensures Inv(m.(now := now)) && List(m.(now := now)) == List(m)
  {
  }

  // ------------------------------------------------------------------ runs

  datatype Action = Arm(callback: Option<nat>, delay: nat, mode: Mode) | Disarm(handle: TimerHandle) | Pass(now: nat)

  function Step(m: Manager, a: Action): Manager
    requires m.now <= UINT64_MAX && (a.Pass? ==> a.now <= UINT64_MAX)
  {
    match a
    case Arm(callback, delay, mode) => Schedule(m, callback, delay, mode).0
    case Disarm(h) => Cancel(m, h).0
    case Pass(now) => Advance(m, now).0
  }

  ghost predicate InRange(actions: seq<Action>) {
    forall k :: 0 <= k < |actions| && actions[k].Pass? ==> actions[k].now <= UINT64_MAX
  }

  lemma StepKeeps(m: Manager, a: Action)
    requires Inv(m) && (a.Pass? ==> a.now <= UINT64_MAX)
    ensures Inv(Step(m, a)) && m.issued <= Step(m, a).issued
    ensures forall h :: h in m.issued && h !in m.order ==> h !in Step(m, a).order
  {
    hide Inv, List, Firings, Elapse;
    match a
    case Arm(callback, delay, mode) => ScheduleRefines(m, callback, delay, mode);
    case Disarm(h) =>
      CancelRefines(m, h);
      CancelShrinks(m, h);
    case Pass(now) => AdvanceRefines(m, now);
  }

  lemma CancelShrinks(m: Manager, h: TimerHandle)
    requires Inv(m)
    ensures forall x :: x in Cancel(m, h).0.order ==> x in m.order
  {
    hide Issues;
    RemoveIsExact(m.order, h);
  }

  function Run(m: Manager, actions: seq<Action>): (r: Manager)
    requires Inv(m) && InRange(actions)
    ensures Inv(r)
  {
    if actions == [] then m
    else
      var p := Run(m, actions[..|actions| - 1]);
      StepKeeps(p, actions[|actions| - 1]);
      Step(p, actions[|actions| - 1])
  }

  /** A handle that was issued and is no longer in the list never comes back, however the run goes on. */
  lemma {:induction false} HandlesNeverRevive(m: Manager, actions: seq<Action>, h: TimerHandle)
    requires Inv(m) && InRange(actions) && h in m.issued && h !in m.order
    ensures h in Run(m, actions).issued && h !in Run(m, actions).order && !IsLive(Run(m, actions), h)
  {
    hide Inv, Step;
    if actions != [] {
      var p := Run(m, actions[..|actions| - 1]);
      HandlesNeverRevive(m, actions[..|actions| - 1], h);
      StepKeeps(p, actions[|actions| - 1]);
    }
    LiveIsListed(Run(m, actions), h);
  }

  lemma LiveIsListed(m: Manager, h: TimerHandle)
    requires Inv(m)
    ensures IsLive(m, h) <==> h in m.order
  {
    if h in m.order { assert SlotOk(m.slots[h.index]); }
  }

  // ------------------------------------------------------------------ pace

  /** What the firing history says about a live timer. */
  ghost predicate Remembers(m: Manager, f: Firing) {
    && f.handle in m.issued && f.time <= m.now <= UINT64_MAX
    && (IsLive(m, f.handle) ==>
          var x := m.slots[f.handle.index];
          f.looping && x.mode.Looping? && x.period == f.period
          && (f.period > 0 ==> f.time <= x.lastFired <= m.now && x.deadline == SaturatingAdd(x.lastFired, f.period)))
  }

  /** Two firings of one timer: it loops, and with a period it fires strictly later and no earlier than the period says. */
  ghost predicate Spaced(a: Firing, b: Firing) {
    a.handle == b.handle ==>
      a.looping && (a.period > 0 ==> a.time <= UINT64_MAX && a.time < b.time && SaturatingAdd(a.time, a.period) <= b.time)
  }

  ghost predicate Paced(m: Manager) {
    && Inv(m) && (forall k :: 0 <= k < |m.fired| ==> Remembers(m, m.fired[k]))
    && (forall j, k :: 0 <= j < k < |m.fired| ==> Spaced(m.fired[j], m.fired[k]))
  }

  lemma FiringsLast(ts: seq<Timer>, now: nat)
    ensures Firings([], now) == []
    ensures ts != [] ==>
            var t := ts[|ts| - 1];
            Firings(ts, now) == Firings(ts[..|ts| - 1], now)
                                + (if Due(t, now) then [Firing(t.handle, t.callback, t.period, t.looping, now)] else [])
  {
  }

  /** Where in the list each firing comes from: due timers, each once, in list order. */
  lemma {:induction false} FiringsComeFrom(ts: seq<Timer>, now: nat) returns (from: seq<nat>)
    ensures |from| == |Firings(ts, now)| && forall j, k :: 0 <= j < k < |from| ==> from[j] < from[k]
    ensures forall k :: 0 <= k < |from| ==>
              from[k] < |ts| && Due(ts[from[k]], now)
              && Firings(ts, now)[k]
                 == Firing(ts[from[k]].handle, ts[from[k]].callback, ts[from[k]].period, ts[from[k]].looping, now)
  {
    hide Due, Firings;
    FiringsLast(ts, now);
    from := [];
    if ts != [] {
      var n := |ts| - 1;
      var u := ts[..n];
      var earlier := FiringsComeFrom(u, now);
      forall k | 0 <= k < |earlier| ensures u[earlier[k]] == ts[earlier[k]] {}
      from := if Due(ts[n], now) then earlier + [n] else earlier;
    }
  }

  lemma {:induction false} EveryDueTimerFires(ts: seq<Timer>, now: nat, i: nat)
    requires i < |ts| && Due(ts[i], now)
    ensures Firing(ts[i].handle, ts[i].callback, ts[i].period, ts[i].looping, now) in Firings(ts, now)
  {
    hide Due, Firings;
    FiringsLast(ts, now);
    if i < |ts| - 1 {
      assert ts[..|ts| - 1][i] == ts[i];
      EveryDueTimerFires(ts[..|ts| - 1], now, i);
    }
  }

  /** A timer that fires now fires for the first time, or late enough after every earlier firing. */
  lemma NewFiringIsSpaced(m: Manager, j: nat, now: nat, a: Firing, b: Firing)
    requires Paced(m) && m.now <= now <= UINT64_MAX && j < |m.order| && Due(List(m)[j], now) && a in m.fired
    requires b.handle == m.order[j] && b.time == now
    ensures Spaced(a, b)
  {
    hide Enumerates, Issues;
    if a.handle == b.handle {
      ListIsActive(m, m.order[j]);
      assert Remembers(m, a);
    }
  }

  lemma AdvanceSlots(m: Manager, now: nat)
    requires Inv(m) && m.now <= now <= UINT64_MAX
    ensures var r := Advance(m, now).0;
            && |r.slots| == |m.slots| && (forall h :: h in r.order ==> h in m.order)
            && forall j :: 0 <= j < |m.order| ==> r.slots[m.order[j].index] == Visited(m.slots[m.order[j].index], now)
  {
    hide Issues, Enumerates, Firings, Timers, Elapse;
    var s := m.(now := now);
    TimeAlone(m, now);
    AdvanceRefines(m, now);
    FireUpToEffect(s, now, |s.order|);
  }

  lemma OldFiringsRemembered(m: Manager, now: nat, f: Firing)
    requires Paced(m) && m.now <= now <= UINT64_MAX && f in m.fired
    ensures Remembers(Advance(m, now).0, f)
  {
    hide Firings, Elapse, Timers, Issues, Enumerates;
    var r := Advance(m, now).0;
    AdvanceRefines(m, now);
    AdvanceSlots(m, now);
    assert Remembers(m, f);
    if IsLive(r, f.handle) {
      LiveIsListed(r, f.handle);
      LiveIsListed(m, f.handle);
      var j :| 0 <= j < |m.order| && m.order[j] == f.handle;
    }
  }

  lemma NewFiringsRemembered(m: Manager, now: nat, j: nat, f: Firing)
    requires Paced(m) && m.now <= now <= UINT64_MAX && j < |m.order| && Due(List(m)[j], now)
    requires var t := List(m)[j]; f == Firing(t.handle, t.callback, t.period, t.looping, now)
    ensures Remembers(Advance(m, now).0, f)
  {
    hide Firings, Elapse, Issues, Enumerates;
    var r := Advance(m, now).0;
    AdvanceRefines(m, now);
    AdvanceSlots(m, now);
    ListIsActive(m, m.order[j]);
    ListedIsIssued(m, j);
    assert SlotOk(m.slots[m.order[j].index]);
  }

  lemma ListedIsIssued(m: Manager, j: nat)
    requires Inv(m) && j < |m.order|
    ensures m.order[j] in m.issued
  {
    assert m.slots[m.order[j].index].active;
    assert TimerHandle(m.order[j].index, m.slots[m.order[j].index].generation) in m.issued;
  }

  lemma AdvancePaces(m: Manager, now: nat)
    requires Paced(m) && m.now <= now <= UINT64_MAX
    ensures Paced(Advance(m, now).0)
  {
    hide Firings, Elapse, Remembers, Spaced, Due, Inv, Timers;
    var r := Advance(m, now).0;
    AdvanceRefines(m, now);
    var from := FiringsComeFrom(List(m), now);
    var n := |m.fired|;
    ListLength(m);
    forall k | 0 <= k < |r.fired| ensures Remembers(r, r.fired[k]) {
      if k < n { OldFiringsRemembered(m, now, m.fired[k]); } else { NewFiringsRemembered(m, now, from[k - n], r.fired[k]); }
    }
    forall j, k | 0 <= j < k < |r.fired| ensures Spaced(r.fired[j], r.fired[k]) {
      if k >= n {
        ListHandle(m, from[k - n]);
        if j < n {
          NewFiringIsSpaced(m, from[k - n], now, m.fired[j], r.fired[k]);
        } else {
          ListHandle(m, from[j - n]);
          DifferentHandles(m, from[j - n], from[k - n], r.fired[j], r.fired[k]);
        }
      }
    }
  }

  lemma ListLength(m: Manager)
    requires Inv(m)
    ensures |List(m)| == |m.order|
  {
  }

  lemma ListHandle(m: Manager, j: nat)
    requires Inv(m) && j < |m.order|
    ensures |List(m)| == |m.order| && List(m)[j].handle == m.order[j]
  {
  }

  lemma DifferentHandles(m: Manager, i: nat, j: nat, a: Firing, b: Firing)
    requires Inv(m) && i < j < |m.order| && a.handle == m.order[i] && b.handle == m.order[j]
    ensures Spaced(a, b)
  {
  }

  lemma ArmPaces(m: Manager, callback: Option<nat>, delay: nat, mode: Mode)
    requires Paced(m)
    ensures Paced(Schedule(m, callback, delay, mode).0)
  {
    hide Enumerates, Issues, List, Spaced;
    ScheduleRefines(m, callback, delay, mode);
    var r := Schedule(m, callback, delay, mode).0;
    forall k | 0 <= k < |r.fired| ensures Remembers(r, r.fired[k]) { assert Remembers(m, m.fired[k]); }
  }

  lemma DisarmPaces(m: Manager, h: TimerHandle)
    requires Paced(m)
    ensures Paced(Cancel(m, h).0)
  {
    hide Inv, List, Spaced, Remove, Dropped;
    CancelRefines(m, h);
    var r := Cancel(m, h).0;
    forall k | 0 <= k < |r.fired| ensures Remembers(r, r.fired[k]) { assert Remembers(m, m.fired[k]); }
  }

  lemma {:induction false} RunPaces(m: Manager, actions: seq<Action>)
    requires Paced(m) && InRange(actions)
    ensures Paced(Run(m, actions))
  {
    hide Remembers, Spaced, Inv, Schedule, Cancel, Advance;
    if actions != [] {
      var p, a := Run(m, actions[..|actions| - 1]), actions[|actions| - 1];
      RunPaces(m, actions[..|actions| - 1]);
      match a {
        case Arm(callback, delay, mode) => ArmPaces(p, callback, delay, mode);
        case Disarm(h) => DisarmPaces(p, h);
        case Pass(now) =>
          if p.now <= now { AdvancePaces(p, now); } else { AdvanceRefines(p, now); }
      }
    }
  }

  /** A manager as constructed, with the history of a run. */
  function FiredBy(capacity: nat, start: nat, actions: seq<Action>): seq<Firing>
    requires capacity < INVALID_INDEX && start <= UINT64_MAX && InRange(actions)
  {
    FreshInv(capacity, start);
    Run(Fresh(capacity, start), actions).fired
  }

  /**
   Over any run: a one-shot fires at most once, and a loop with a period fires again strictly later and no
   earlier than one period after its last firing, the end of time aside.
   */
  lemma LoopsKeepTheirPeriod(capacity: nat, start: nat, actions: seq<Action>, j: nat, k: nat)
    requires capacity < INVALID_INDEX && start <= UINT64_MAX && InRange(actions)
    requires j < k < |FiredBy(capacity, start, actions)|
    ensures var a, b := FiredBy(capacity, start, actions)[j], FiredBy(capacity, start, actions)[k];
            a.handle == b.handle ==>
              a.looping && (a.period > 0 ==>
                a.time < b.time && b.time >= (if a.time + a.period > UINT64_MAX then UINT64_MAX else a.time + a.period))
  {
    hide Run, Inv, Remembers, Fresh;
    FreshPaced(capacity, start);
    RunPaces(Fresh(capacity, start), actions);
  }

  lemma FreshPaced(capacity: nat, start: nat)
    requires capacity < INVALID_INDEX && start <= UINT64_MAX
    ensures Paced(Fresh(capacity, start))
  {
    FreshInv(capacity, start);
  }
}
