/** The barrier keeps every fixed table in bounds, whatever the hooks queue, and means what it should when they queue nothing. */
module WorldProofs {
  import opened Basics
  import opened SpawnStorageModel
  import opened SpawnStorageProofs
  import opened WorldModel

  predicate HasActor(x: SpawnSlot) { x.state.Constructed? || x.state.Spawned? }

  /**
   Spawned slots pin live actors, constructed slots hold hidden ones (but for the one being published, which is
   already live while its begin hook runs), and no two slots name the same actor.
   */
  ghost predicate Pinned(s: Storage, live: seq<Actor>, pendingSpawn: seq<Actor>, publishing: Option<Actor>) {
    && (forall i :: 0 <= i < |s.slots| && HasActor(s.slots[i]) ==> s.slots[i].actor.Some?)
    && (forall i :: 0 <= i < |s.slots| && s.slots[i].state.Spawned? ==> s.slots[i].actor.value in live)
    && (forall i :: 0 <= i < |s.slots| && s.slots[i].state.Constructed? ==>
          s.slots[i].actor.value !in pendingSpawn && (s.slots[i].actor.value in live ==> s.slots[i].actor == publishing))
    && (forall i, j :: 0 <= i < j < |s.slots| && HasActor(s.slots[i]) && HasActor(s.slots[j]) ==> s.slots[i].actor != s.slots[j].actor)
  }

  /** Everything but the capacity bound; `begun` manual spawns have already entered the live registry. */
  ghost predicate TablesWhile(w: World, begun: nat, publishing: Option<Actor>) {
    && begun <= |w.pendingSpawn| <= w.capacity
    && Distinct(w.live) && Distinct(w.pendingSpawn) && Distinct(w.pendingDestroy)
    && (forall k :: begun <= k < |w.pendingSpawn| ==> w.pendingSpawn[k] !in w.live)
    && (forall k :: 0 <= k < |w.pendingDestroy| ==> w.pendingDestroy[k] in w.live)
    && Pinned(w.spawns, w.live, w.pendingSpawn, publishing)
    && StorageInv(w.spawns)
  }

  ghost predicate Tables(w: World, begun: nat) { TablesWhile(w, begun, None) }

  /** Between barriers: nothing is half done, and every request that was accepted has a place in the world. */
  ghost predicate WorldInv(w: World) { Tables(w, 0) && Committed(w) <= w.capacity && Drained(w.spawns) }

  // ------------------------------------------------------------------ sets of distinct actors

  lemma {:induction false} DistinctSubset(s: seq<Actor>, t: seq<Actor>)
    requires Distinct(s) && forall k :: 0 <= k < |s| ==> s[k] in t
    ensures |s| <= |t|
    decreases |s|
  {
    if s != [] {
      var u, a := s[..|s| - 1], s[|s| - 1];
      var i :| 0 <= i < |t| && t[i] == a;
      var rest := t[..i] + t[i + 1..];
      forall k | 0 <= k < |u| ensures u[k] in rest {
        var j :| 0 <= j < |t| && t[j] == s[k];
        assert if j < i then rest[j] == s[k] else rest[j - 1] == s[k];
      }
      DistinctSubset(u, rest);
    }
  }

  lemma {:induction false} DistinctSubsetOfPart(s: seq<Actor>, t: seq<Actor>, a: Actor)
    requires Distinct(s) && (forall k :: 0 <= k < |s| ==> s[k] in t) && a in t && a !in s
    ensures |s| < |t|
  {
    DistinctSubset(s + [a], t);
  }

  // ------------------------------------------------------------------ pending counts

  lemma PendingUpdate(s: Storage, m: Storage, i: nat)
    requires i < |s.slots| && |m.slots| == |s.slots| && m.slots == s.slots[i := m.slots[i]]
    ensures PendingCount(m) + (if IsPending(s.slots[i]) then 1 else 0) == PendingCount(s) + (if IsPending(m.slots[i]) then 1 else 0)
  {
    CountUpdate(s.slots, i, m.slots[i], IsPending);
  }

  /** A typed request raises the pending count by one, or is refused and leaves it alone; no actor is touched. */
  lemma {:induction false} ReserveCounts(s: Storage, i: nat)
    requires i <= |s.slots| && |s.slots| <= INVALID_TICKET
    ensures var (r, t) := Reserve(s, i);
            && |r.slots| == |s.slots| && PendingCount(r) == PendingCount(s) + (if t.Some? then 1 else 0)
            && (t.Some? ==> t.value.index < |r.slots| && InState(r, t.value, Queued) && IsReusable(s.slots[t.value.index]))
            && (forall k :: 0 <= k < |s.slots| && HasActor(s.slots[k]) ==> r.slots[k] == s.slots[k])
            && (forall k :: 0 <= k < |s.slots| && s.slots[k].state.Queued? ==> r.slots[k] == s.slots[k])
            && (forall k :: 0 <= k < |s.slots| && HasActor(r.slots[k]) ==> r.slots[k] == s.slots[k])
    decreases |s.slots| - i
  {
    hide PendingCount;
    if i < |s.slots| {
      var x := s.slots[i];
      if !IsReusable(x) {
        ReserveCounts(s, i + 1);
      } else if x.generation == UINT32_MAX {
        var m := s.(slots := s.slots[i := x.(state := Retired)]);
        PendingUpdate(s, m, i);
        ReserveCounts(m, i + 1);
        var t := Reserve(m, i + 1).1;
        if t.Some? { assert m.slots[t.value.index] == s.slots[t.value.index]; }
      } else {
        PendingUpdate(s, Reserve(s, i).0, i);
      }
    }
  }

  lemma SubmitCounts(s: Storage)
    requires StorageInv(s)
    ensures var (r, t) := Submit(s);
            && |r.slots| == |s.slots| && PendingCount(r) == PendingCount(s) + (if t.Some? then 1 else 0)
            && StorageInv(r)
            && (forall k :: 0 <= k < |s.slots| && HasActor(s.slots[k]) ==> r.slots[k] == s.slots[k])
            && (forall k :: 0 <= k < |s.slots| && s.slots[k].state.Queued? ==> r.slots[k] == s.slots[k])
            && (forall k :: 0 <= k < |s.slots| && HasActor(r.slots[k]) ==> r.slots[k] == s.slots[k])
            && r == s.(slots := r.slots, factory := r.factory, activated := r.activated)
            && r.factory == (if t.Some? then s.factory + [t.value] else s.factory)
            && (t.Some? ==> t.value !in s.activated && t.value in r.activated) && s.activated <= r.activated
  {
    hide StorageInv, PendingCount, Reserve;
    ReserveKeeps(s, 0);
    StorageSize(s);
    ReserveCounts(s, 0);
    var (r, t) := Reserve(s, 0);
    if t.Some? { PendingUpdate(r, Activate(r, t.value), t.value.index); }
  }

  lemma StorageSize(s: Storage)
    requires StorageInv(s)
    ensures |s.slots| <= INVALID_TICKET
  {
  }

  lemma PinnedFrame(s: Storage, r: Storage, live: seq<Actor>, pendingSpawn: seq<Actor>, publishing: Option<Actor>)
    requires Pinned(s, live, pendingSpawn, publishing) && |r.slots| == |s.slots|
    requires forall k :: 0 <= k < |s.slots| && HasActor(r.slots[k]) ==> r.slots[k] == s.slots[k]
    ensures Pinned(r, live, pendingSpawn, publishing)
  {
  }

  // ------------------------------------------------------------------ requests

  /** Queue growth: what any run of requests may do to a world, and all it may do. */
  ghost predicate Queues(w: World, m: World) {
    && w.pendingSpawn <= m.pendingSpawn && w.pendingDestroy <= m.pendingDestroy
    && m == w.(pendingSpawn := m.pendingSpawn, pendingDestroy := m.pendingDestroy, spawns := m.spawns)
    && m.spawns == w.spawns.(slots := m.spawns.slots, factory := m.spawns.factory, activated := m.spawns.activated)
    && |m.spawns.slots| == |w.spawns.slots|
    && (forall k :: 0 <= k < |w.spawns.slots| && HasActor(w.spawns.slots[k]) ==> m.spawns.slots[k] == w.spawns.slots[k])
    && (forall k :: 0 <= k < |w.spawns.slots| && w.spawns.slots[k].state.Queued? ==> m.spawns.slots[k] == w.spawns.slots[k])
    && (forall k :: 0 <= k < |w.spawns.slots| && HasActor(m.spawns.slots[k]) ==> m.spawns.slots[k] == w.spawns.slots[k])
    && w.spawns.factory <= m.spawns.factory && w.spawns.activated <= m.spawns.activated
    && (forall k :: |w.spawns.factory| <= k < |m.spawns.factory| ==>
          m.spawns.factory[k] !in w.spawns.activated && m.spawns.factory[k] in m.spawns.activated)
    && Committed(m) <= (if Committed(w) > w.capacity then Committed(w) else w.capacity)
  }

  lemma QueuesTransitive(w: World, m: World, r: World)
    requires Queues(w, m) && Queues(m, r)
    ensures Queues(w, r)
  {
    hide PendingCount;
    forall k | |w.spawns.factory| <= k < |r.spawns.factory|
      ensures r.spawns.factory[k] !in w.spawns.activated && r.spawns.factory[k] in r.spawns.activated
    {
      if k < |m.spawns.factory| { assert r.spawns.factory[k] == m.spawns.factory[k]; }
    }
  }

  /** One request keeps the tables and never raises the commitment beyond the capacity. */
  lemma HandleKeeps(w: World, r: Request, begun: nat, publishing: Option<Actor>)
    requires TablesWhile(w, begun, publishing)
    ensures TablesWhile(Handle(w, r), begun, publishing) && Queues(w, Handle(w, r))
  {
    hide PendingCount, StorageInv, Submit;
    match r
    case SpawnManual(a) => ManualKeeps(w, a, begun, publishing);
    case SpawnTyped =>
      SubmitCounts(w.spawns);
      PinnedFrame(w.spawns, Submit(w.spawns).0, w.live, w.pendingSpawn, publishing);
    case Destroy(a) =>
  }

  lemma ManualKeeps(w: World, a: Actor, begun: nat, publishing: Option<Actor>)
    requires TablesWhile(w, begun, publishing)
    ensures TablesWhile(Handle(w, SpawnManual(a)), begun, publishing)
  {
    hide PendingCount, StorageInv;
  }

  lemma {:induction false} RequestsKeep(w: World, rs: seq<Request>, begun: nat, publishing: Option<Actor>)
    requires TablesWhile(w, begun, publishing)
    ensures TablesWhile(HandleAll(w, rs), begun, publishing) && Queues(w, HandleAll(w, rs))
  {
    hide TablesWhile, Handle, PendingCount;
    if rs != [] {
      var u, m := rs[..|rs| - 1], HandleAll(w, rs[..|rs| - 1]);
      RequestsKeep(w, u, begun, publishing);
      HandleKeeps(m, rs[|rs| - 1], begun, publishing);
      QueuesTransitive(w, m, Handle(m, rs[|rs| - 1]));
    }
  }

  lemma HandleAllKeeps(w: World, rs: seq<Request>, begun: nat)
    requires Tables(w, begun)
    ensures Tables(HandleAll(w, rs), begun) && Queues(w, HandleAll(w, rs))
  {
    hide TablesWhile;
    RequestsKeep(w, rs, begun, None);
  }

  // ------------------------------------------------------------------ ending the doomed

  /** The pending-destroy list never outgrows the live registry, so its unchecked appends stay in bounds. */
  lemma DoomedFit(w: World, begun: nat, publishing: Option<Actor>)
    requires TablesWhile(w, begun, publishing)
    ensures |w.pendingDestroy| <= |w.live|
    ensures forall a :: CheckDestroyable(w, a) == Success ==> |w.pendingDestroy| < |w.live|
  {
    hide StorageInv, Pinned;
    DistinctSubset(w.pendingDestroy, w.live);
    forall a | CheckDestroyable(w, a) == Success ensures |w.pendingDestroy| < |w.live| {
      DistinctSubsetOfPart(w.pendingDestroy, w.live, a);
    }
  }

  /** Requests also appear in the hook history's owner; recording a hook touches no table. */
  lemma HookKeeps(w: World, k: Hook, begun: nat)
    requires Tables(w, begun)
    ensures Tables(w.(hooks := w.hooks + [k]), begun)
  {
    hide StorageInv, Pinned;
  }

  /** The world before and after a phase that only runs end hooks. */
  ghost predicate OnlyQueues(w: World, m: World) { Queues(w, m.(hooks := w.hooks)) }

  lemma {:induction false} EndDoomedKeeps(w: World, i: nat, h: Hooks)
    requires Tables(w, 0)
    ensures Tables(EndDoomed(w, i, h), 0) && OnlyQueues(w, EndDoomed(w, i, h))
    decreases |w.live| - i
  {
    hide Tables, HandleAll, PendingCount;
    if i >= |w.pendingDestroy| || i >= |w.live| {
    } else if w.pendingDestroy[i] in w.objects {
      var a := w.pendingDestroy[i];
      var n := w.(hooks := w.hooks + [Finished(a)]);
      HookKeeps(w, Finished(a), 0);
      HandleAllKeeps(n, h.end(a), 0);
      EndDoomedKeeps(End(w, a, h), i + 1, h);
      QueuesTransitive(w, End(w, a, h).(hooks := w.hooks), EndDoomed(w, i, h).(hooks := w.hooks));
    } else {
      EndDoomedKeeps(w, i + 1, h);
    }
  }

  // ------------------------------------------------------------------ unregistering

  /** The actors waiting for publication are the same ones, and resolve as they did. */
  ghost predicate HiddenKept(w: World, m: World) {
    && |m.spawns.slots| == |w.spawns.slots|
    && (forall k :: 0 <= k < |w.spawns.slots| && w.spawns.slots[k].state.Constructed? ==>
          m.spawns.slots[k] == w.spawns.slots[k]
          && (w.spawns.slots[k].actor.Some? ==>
                (w.spawns.slots[k].actor.value in m.objects <==> w.spawns.slots[k].actor.value in w.objects)))
    && (forall k :: 0 <= k < |m.spawns.slots| && m.spawns.slots[k].state.Constructed? ==> m.spawns.slots[k] == w.spawns.slots[k])
  }

  lemma WithoutIsExact(s: seq<Actor>, a: Actor)
    requires Distinct(s)
    ensures var r := Without(s, a);
            Distinct(r) && a !in r && (forall b :: b != a ==> (b in r <==> b in s))
            && |r| == |s| - (if a in s then 1 else 0)
  {
    var i, r := Position(s, a, 0), Without(s, a);
    if i < |s| {
      forall b | b != a && b in s ensures b in r {
        var k :| 0 <= k < |s| && s[k] == b;
        assert if k < i then r[k] == b else r[k - 1] == b;
      }
    }
  }

  /** Releasing the ticket of an actor leaves every other slot alone and no slot naming that actor. */
  lemma ReleaseEffect(s: Storage, a: Actor, live: seq<Actor>, pendingSpawn: seq<Actor>)
    requires StorageInv(s) && Pinned(s, live, pendingSpawn, None) && a in live
    ensures var r := ReleaseActor(s, a);
            && StorageInv(r) && PendingCount(r) == PendingCount(s) && |r.slots| == |s.slots| && r == s.(slots := r.slots)
            && (forall k :: 0 <= k < |s.slots| && HasActor(r.slots[k]) ==> r.slots[k] == s.slots[k] && r.slots[k].actor != Some(a))
            && (forall k :: 0 <= k < |s.slots| && IsPending(s.slots[k]) ==> r.slots[k] == s.slots[k])
  {
    hide StorageInv, PendingCount;
    ReleaseKeeps(s, a);
    var i := FindSpawned(s.slots, a, 0);
    if i < |s.slots| { PendingUpdate(s, ReleaseActor(s, a), i); }
  }

  /** While the doomed are unregistered, those still to come are live and everything else keeps its place. */
  ghost predicate Unregistering(w: World, k: nat) {
    && k <= |w.pendingDestroy| && |w.pendingSpawn| <= w.capacity
    && Distinct(w.live) && Distinct(w.pendingSpawn) && Distinct(w.pendingDestroy)
    && (forall j :: 0 <= j < |w.pendingSpawn| ==> w.pendingSpawn[j] !in w.live)
    && (forall j :: k <= j < |w.pendingDestroy| ==> w.pendingDestroy[j] in w.live)
    && Pinned(w.spawns, w.live, w.pendingSpawn, None) && StorageInv(w.spawns)
  }

  lemma UnregisterKeeps(w: World, k: nat, collecting: bool)
    requires Unregistering(w, k) && k < |w.pendingDestroy|
    ensures var m := Unregister(w, w.pendingDestroy[k], collecting);
            && Unregistering(m, k + 1) && Committed(m) <= Committed(w) && |m.spawns.slots| == |w.spawns.slots|
            && m == w.(live := m.live, spawns := w.spawns.(slots := m.spawns.slots), objects := m.objects) && HiddenKept(w, m)
            && (forall j :: 0 <= j < |w.spawns.slots| && IsPending(w.spawns.slots[j]) ==> m.spawns.slots[j] == w.spawns.slots[j])
  {
    hide StorageInv, PendingCount, ReleaseActor;
    var a := w.pendingDestroy[k];
    WithoutIsExact(w.live, a);
    ReleaseEffect(w.spawns, a, w.live, w.pendingSpawn);
  }

  lemma {:induction false} UnregisterUpToKeeps(w: World, k: nat, collecting: bool)
    requires Unregistering(w, 0) && k <= |w.pendingDestroy|
    ensures var m := UnregisterUpTo(w, collecting, k);
            && Unregistering(m, k) && Committed(m) <= Committed(w) && |m.spawns.slots| == |w.spawns.slots|
            && m == w.(live := m.live, spawns := w.spawns.(slots := m.spawns.slots), objects := m.objects) && HiddenKept(w, m)
            && (forall j :: 0 <= j < |w.spawns.slots| && IsPending(w.spawns.slots[j]) ==> m.spawns.slots[j] == w.spawns.slots[j])
  {
    hide Unregistering, Unregister, PendingCount;
    if k > 0 {
      UnregisterUpToKeeps(w, k - 1, collecting);
      UnregisterKeeps(UnregisterUpTo(w, collecting, k - 1), k - 1, collecting);
    }
  }

  lemma MarkKeeps(w: World, collecting: bool)
    requires Tables(w, 0)
    ensures var m := MarkAndUnregister(w, collecting);
            && Tables(m, 0) && m.pendingDestroy == [] && Committed(m) <= Committed(w) && |m.spawns.slots| == |w.spawns.slots|
            && m == w.(live := m.live, spawns := w.spawns.(slots := m.spawns.slots), objects := m.objects, pendingDestroy := [])
            && HiddenKept(w, m)
            && (forall j :: 0 <= j < |w.spawns.slots| && IsPending(w.spawns.slots[j]) ==> m.spawns.slots[j] == w.spawns.slots[j])
  {
    hide StorageInv, Pinned, PendingCount, UnregisterUpTo;
    UnregisterUpToKeeps(w, |w.pendingDestroy|, collecting);
  }

  // ------------------------------------------------------------------ beginning manual spawns

  /** One manual spawn enters the live registry, which has room for it, and begins. */
  lemma BeginKeeps(w: World, i: nat, h: Hooks)
    requires Tables(w, i) && Committed(w) <= w.capacity + i && i < |w.pendingSpawn|
    ensures |w.live| < w.capacity
    ensures var m := Begin(w, w.pendingSpawn[i], h);
            Tables(m, i + 1) && Committed(m) <= m.capacity + i + 1 && i < |m.pendingSpawn| && m.pendingSpawn[i] == w.pendingSpawn[i]
  {
    hide StorageInv, PendingCount, HandleAll;
    var a := w.pendingSpawn[i];
    var n := w.(live := w.live + [a], owned := w.owned + {a}, hooks := w.hooks + [Began(a)]);
    assert Tables(n, i + 1);
    HandleAllKeeps(n, h.begin(a), i + 1);
  }

  lemma SkipManual(w: World, i: nat)
    requires Tables(w, i) && i < |w.pendingSpawn|
    ensures Tables(w, i + 1)
  {
    hide StorageInv, Pinned;
  }

  /** What the manual phase leaves of the deferred work: sealed tickets untouched, new requests behind the live ones. */
  ghost predicate KeepsSealed(w: World, m: World) {
    && m.capacity == w.capacity && m.lifecycle == w.lifecycle && |m.spawns.slots| == |w.spawns.slots|
    && m.spawns == w.spawns.(slots := m.spawns.slots, factory := m.spawns.factory, activated := m.spawns.activated)
    && (forall k :: 0 <= k < |w.spawns.slots| && IsPending(w.spawns.slots[k]) ==> m.spawns.slots[k] == w.spawns.slots[k])
    && w.spawns.factory <= m.spawns.factory && w.spawns.activated <= m.spawns.activated
    && (forall k :: |w.spawns.factory| <= k < |m.spawns.factory| ==>
          m.spawns.factory[k] !in w.spawns.activated && m.spawns.factory[k] in m.spawns.activated)
    && HiddenKept(w, m)
  }

  lemma QueuesKeepSealed(w: World, m: World)
    requires Queues(w, m)
    ensures KeepsSealed(w, m)
  {
    hide PendingCount;
  }

  lemma KeepsSealedTransitive(w: World, m: World, r: World)
    requires KeepsSealed(w, m) && KeepsSealed(m, r)
    ensures KeepsSealed(w, r)
  {
    forall k | |w.spawns.factory| <= k < |r.spawns.factory|
      ensures r.spawns.factory[k] !in w.spawns.activated && r.spawns.factory[k] in r.spawns.activated
    {
      if k < |m.spawns.factory| { assert r.spawns.factory[k] == m.spawns.factory[k]; }
    }
  }

  lemma BeginQueues(w: World, i: nat, h: Hooks)
    requires Tables(w, i) && i < |w.pendingSpawn|
    ensures KeepsSealed(w, Begin(w, w.pendingSpawn[i], h))
  {
    hide StorageInv, PendingCount, HandleAll;
    var a := w.pendingSpawn[i];
    var n := w.(live := w.live + [a], owned := w.owned + {a}, hooks := w.hooks + [Began(a)]);
    assert Tables(n, i + 1);
    HandleAllKeeps(n, h.begin(a), i + 1);
    QueuesKeepSealed(n, HandleAll(n, h.begin(a)));
  }

  lemma {:induction false} BeginManualKeeps(w: World, i: nat, h: Hooks)
    requires Tables(w, i) && Committed(w) <= w.capacity + i
    ensures var m := BeginManual(w, i, h);
            Tables(m, |m.pendingSpawn|) && Committed(m) <= m.capacity + |m.pendingSpawn| && KeepsSealed(w, m)
    decreases w.capacity - i
  {
    hide Tables, Begin, PendingCount, KeepsSealed;
    PendingFits(w, i);
    if i >= |w.pendingSpawn| || i >= w.capacity {
      KeepsSealedReflexive(w);
    } else if w.pendingSpawn[i] in w.objects {
      BeginKeeps(w, i, h);
      BeginQueues(w, i, h);
      BeginSameCapacity(w, i, h);
      BeginManualKeeps(Begin(w, w.pendingSpawn[i], h), i + 1, h);
      KeepsSealedTransitive(w, Begin(w, w.pendingSpawn[i], h), BeginManual(w, i, h));
    } else {
      SkipManual(w, i);
      BeginManualKeeps(w, i + 1, h);
    }
  }

  lemma PendingFits(w: World, i: nat)
    requires Tables(w, i)
    ensures i <= |w.pendingSpawn| <= w.capacity
  {
  }

  lemma BeginSameCapacity(w: World, i: nat, h: Hooks)
    requires i < |w.pendingSpawn|
    ensures Begin(w, w.pendingSpawn[i], h).capacity == w.capacity
  {
  }

  lemma KeepsSealedReflexive(w: World)
    ensures KeepsSealed(w, w)
  {
  }

  lemma ClearKeeps(w: World)
    requires Tables(w, |w.pendingSpawn|) && Committed(w) <= w.capacity + |w.pendingSpawn|
    ensures var m := w.(pendingSpawn := []); Tables(m, 0) && Committed(m) <= m.capacity
  {
    hide StorageInv, PendingCount;
  }

  // ------------------------------------------------------------------ constructing sealed tickets

  /** An actor nobody knows yet. */
  ghost predicate New(w: World, a: Actor) {
    a !in w.live && a !in w.pendingSpawn
    && forall i :: 0 <= i < |w.spawns.slots| && HasActor(w.spawns.slots[i]) ==> w.spawns.slots[i].actor != Some(a)
  }

  /** Every factory builds an actor of its own. */
  ghost predicate Novel(w: World, outcomes: Ticket -> Outcome) {
    && (forall t :: outcomes(t).Built? ==> New(w, outcomes(t).actor))
    && (forall t, u :: t != u && outcomes(t).Built? && outcomes(u).Built? ==> outcomes(t).actor != outcomes(u).actor)
  }

  ghost predicate OneSlot(s: Storage, m: Storage, i: nat) {
    i < |s.slots| && |m.slots| == |s.slots| && (forall k :: 0 <= k < |s.slots| && k != i ==> m.slots[k] == s.slots[k])
    && m.factory == s.factory && m.publish == s.publish && m.sealedFactory == s.sealedFactory && m.dropped == s.dropped
    && m.activated == s.activated
  }

  lemma ConstructEffect(s: Storage, t: Ticket, o: Outcome)
    requires StorageInv(s) && InState(s, t, Queued) && t !in s.factory
    ensures var m := Construct(s, t, o);
            && StorageInv(m) && OneSlot(s, m, t.index)
            && PendingCount(m) == PendingCount(s) - (if o.Built? then 0 else 1) && m.slots[t.index].generation == t.generation
            && if o.Built? then m.slots[t.index].state.Constructed? && m.slots[t.index].actor == Some(o.actor)
                                && m.sealedPublish == s.sealedPublish + [t]
               else m.slots[t.index].state.Failed? && m.sealedPublish == s.sealedPublish
  {
    hide StorageInv, PendingCount;
    ConstructKeeps(s, t, o);
    QueuedIsActive(s, t);
    PendingUpdate(s, Construct(s, t, o), t.index);
  }

  lemma ConstructTicketKeeps(w: World, t: Ticket, o: Outcome)
    requires Tables(w, 0) && InState(w.spawns, t, Queued) && t !in w.spawns.factory && (o.Built? ==> New(w, o.actor))
    ensures var m := ConstructTicket(w, t, o);
            && Tables(m, 0) && Committed(m) <= Committed(w) && OneSlot(w.spawns, m.spawns, t.index)
            && m == w.(spawns := m.spawns, objects := m.objects)
            && m.objects == (if o.Built? then w.objects + {o.actor} else w.objects)
  {
    hide StorageInv, PendingCount, Construct;
    ConstructEffect(w.spawns, t, o);
    QueuedIsActive(w.spawns, t);
  }

  /** The tickets among the first `k` whose factories deliver an actor, in order. */
  function Successes(ts: seq<Ticket>, outcomes: Ticket -> Outcome, k: nat): seq<Ticket>
    requires k <= |ts|
  {
    if k == 0 then [] else Successes(ts, outcomes, k - 1) + (if outcomes(ts[k - 1]).Built? then [ts[k - 1]] else [])
  }

  /** One waiting ticket has been constructed; its slot is the only one that changed. */
  ghost predicate ConstructStep(m: World, r: World, t: Ticket, o: Outcome) {
    && InState(m.spawns, t, Queued) && OneSlot(m.spawns, r.spawns, t.index) && r == m.(spawns := r.spawns, objects := r.objects)
    && r.objects == (if o.Built? then m.objects + {o.actor} else m.objects)
    && r.spawns.slots[t.index].generation == t.generation
    && if o.Built? then r.spawns.slots[t.index].state.Constructed? && r.spawns.slots[t.index].actor == Some(o.actor)
                        && r.spawns.sealedPublish == m.spawns.sealedPublish + [t]
       else r.spawns.slots[t.index].state.Failed? && r.spawns.sealedPublish == m.spawns.sealedPublish
  }

  /** The first `k` sealed tickets no longer wait for construction, the others do. */
  ghost predicate WaitingFrom(s: Storage, ts: seq<Ticket>, k: nat)
    requires k <= |ts|
  {
    && (forall j :: k <= j < |ts| ==> InState(s, ts[j], Queued))
    && (forall j :: 0 <= j < k ==> !InState(s, ts[j], Queued))
  }

  /** Every ticket of the list waits for publication with an actor that resolves. */
  ghost predicate DeliveredActors(m: World, ts: seq<Ticket>, outcomes: Ticket -> Outcome, k: nat)
    requires k <= |ts|
  {
    forall j :: 0 <= j < k && outcomes(ts[j]).Built? ==>
      ConstructedActor(m.spawns, ts[j]) == Some(outcomes(ts[j]).actor) && outcomes(ts[j]).actor in m.objects
  }

  ghost predicate StillNew(m: World, ts: seq<Ticket>, outcomes: Ticket -> Outcome, k: nat)
    requires k <= |ts|
  {
    forall j :: k <= j < |ts| && outcomes(ts[j]).Built? ==> New(m, outcomes(ts[j]).actor)
  }

  /** Tickets that already wait for publication keep their actors. */
  ghost predicate KeepsConstructed(s: Storage, m: Storage) {
    forall t :: InState(s, t, Constructed) ==> ConstructedActor(m, t) == ConstructedActor(s, t) && InState(m, t, Constructed)
  }

  /** The world after the first `k` sealed tickets have been constructed. */
  ghost predicate ConstructedUpTo(w: World, m: World, outcomes: Ticket -> Outcome, k: nat)
    requires k <= |w.spawns.sealedFactory|
  {
    && Tables(m, 0) && Committed(m) <= Committed(w) && m == w.(spawns := m.spawns, objects := m.objects)
    && w.objects <= m.objects && |m.spawns.slots| == |w.spawns.slots|
    && m.spawns.factory == w.spawns.factory && m.spawns.publish == w.spawns.publish && m.spawns.dropped == w.spawns.dropped
    && m.spawns.sealedFactory == w.spawns.sealedFactory && m.spawns.activated == w.spawns.activated
    && m.spawns.sealedPublish == w.spawns.sealedPublish + Successes(w.spawns.sealedFactory, outcomes, k)
    && WaitingFrom(m.spawns, w.spawns.sealedFactory, k) && AllIn(m.spawns, m.spawns.sealedPublish, Constructed)
    && StillNew(m, w.spawns.sealedFactory, outcomes, k) && DeliveredActors(m, w.spawns.sealedFactory, outcomes, k)
    && KeepsConstructed(w.spawns, m.spawns)
  }

  /** What the seal and the hook phases leave for construction: every sealed ticket waits, and in no live lane. */
  ghost predicate ReadyToConstruct(w: World, outcomes: Ticket -> Outcome) {
    && Tables(w, 0) && AllIn(w.spawns, w.spawns.sealedFactory, Queued) && Distinct(w.spawns.sealedFactory)
    && (forall j :: 0 <= j < |w.spawns.sealedFactory| ==> w.spawns.sealedFactory[j] !in w.spawns.factory)
    && AllIn(w.spawns, w.spawns.sealedPublish, Constructed) && w.spawns.publish == []
    && Novel(w, outcomes)
  }

  lemma StepWaits(m: World, r: World, t: Ticket, o: Outcome, ts: seq<Ticket>, k: nat)
    requires ConstructStep(m, r, t, o) && k < |ts| && t == ts[k] && Distinct(ts) && WaitingFrom(m.spawns, ts, k)
    ensures WaitingFrom(r.spawns, ts, k + 1)
  {
    OtherSlots(m.spawns, r.spawns, t.index);
    forall j | k + 1 <= j < |ts| ensures InState(r.spawns, ts[j], Queued) {
      assert InState(m.spawns, ts[j], Queued) && ts[j] != t;
    }
    forall j | 0 <= j < k ensures !InState(r.spawns, ts[j], Queued) { assert !InState(m.spawns, ts[j], Queued); }
  }

  lemma StepKeepsConstructed(m: World, r: World, t: Ticket, o: Outcome)
    requires ConstructStep(m, r, t, o)
    ensures KeepsConstructed(m.spawns, r.spawns)
  {
    OtherSlots(m.spawns, r.spawns, t.index);
  }

  lemma StepPublishes(m: World, r: World, t: Ticket, o: Outcome)
    requires ConstructStep(m, r, t, o) && AllIn(m.spawns, m.spawns.sealedPublish, Constructed)
    ensures AllIn(r.spawns, r.spawns.sealedPublish, Constructed)
    ensures o.Built? ==> ConstructedActor(r.spawns, t) == Some(o.actor)
  {
    StepKeepsConstructed(m, r, t, o);
    forall j | 0 <= j < |r.spawns.sealedPublish| ensures InState(r.spawns, r.spawns.sealedPublish[j], Constructed) {
      if j < |m.spawns.sealedPublish| { assert InState(m.spawns, m.spawns.sealedPublish[j], Constructed); }
    }
  }

  lemma StepDelivers(m: World, r: World, t: Ticket, o: Outcome, ts: seq<Ticket>, outcomes: Ticket -> Outcome, k: nat)
    requires ConstructStep(m, r, t, o) && k < |ts| && t == ts[k] && o == outcomes(t)
    requires DeliveredActors(m, ts, outcomes, k) && AllIn(m.spawns, m.spawns.sealedPublish, Constructed)
    ensures DeliveredActors(r, ts, outcomes, k + 1)
  {
    StepKeepsConstructed(m, r, t, o);
    StepPublishes(m, r, t, o);
  }

  lemma StepStillNew(m: World, r: World, t: Ticket, o: Outcome, ts: seq<Ticket>, outcomes: Ticket -> Outcome, k: nat)
    requires ConstructStep(m, r, t, o) && k < |ts| && t == ts[k] && o == outcomes(t) && Distinct(ts)
    requires StillNew(m, ts, outcomes, k)
    requires forall t, u :: t != u && outcomes(t).Built? && outcomes(u).Built? ==> outcomes(t).actor != outcomes(u).actor
    ensures StillNew(r, ts, outcomes, k + 1)
  {
    forall j | k + 1 <= j < |ts| && outcomes(ts[j]).Built? ensures New(r, outcomes(ts[j]).actor) {
      assert New(m, outcomes(ts[j]).actor) && ts[j] != t;
    }
  }

  lemma NextWaits(m: World, ts: seq<Ticket>, outcomes: Ticket -> Outcome, k: nat)
    requires k < |ts| && WaitingFrom(m.spawns, ts, k) && StillNew(m, ts, outcomes, k)
    ensures InState(m.spawns, ts[k], Queued) && (outcomes(ts[k]).Built? ==> New(m, outcomes(ts[k]).actor))
  {
  }

  lemma ConstructOneMore(w: World, m: World, outcomes: Ticket -> Outcome, k: nat)
    requires ReadyToConstruct(w, outcomes) && k < |w.spawns.sealedFactory| && ConstructedUpTo(w, m, outcomes, k)
    ensures ConstructedUpTo(w, ConstructTicket(m, w.spawns.sealedFactory[k], outcomes(w.spawns.sealedFactory[k])), outcomes, k + 1)
  {
    hide Tables, PendingCount, Construct, ConstructedActor, New, AllIn, Distinct, WaitingFrom, StillNew, DeliveredActors;
    var ts := w.spawns.sealedFactory;
    var t := ts[k];
    var o := outcomes(t);
    var r := ConstructTicket(m, t, o);
    TablesStorage(m, 0);
    NextWaits(m, ts, outcomes, k);
    ConstructTicketKeeps(m, t, o);
    ConstructEffect(m.spawns, t, o);
    StepWaits(m, r, t, o, ts, k);
    StepKeepsConstructed(m, r, t, o);
    StepPublishes(m, r, t, o);
    StepDelivers(m, r, t, o, ts, outcomes, k);
    StepStillNew(m, r, t, o, ts, outcomes, k);
  }

  lemma TablesStorage(w: World, begun: nat)
    requires Tables(w, begun)
    ensures StorageInv(w.spawns)
  {
    hide StorageInv, Pinned;
  }

  lemma {:induction false} ConstructUpToKeeps(w: World, outcomes: Ticket -> Outcome, k: nat)
    requires ReadyToConstruct(w, outcomes) && k <= |w.spawns.sealedFactory|
    ensures ConstructedUpTo(w, ConstructUpTo(w, outcomes, k), outcomes, k)
  {
    hide Tables, PendingCount, ConstructTicket, ConstructedActor;
    if k > 0 {
      ConstructUpToKeeps(w, outcomes, k - 1);
      ConstructOneMore(w, ConstructUpTo(w, outcomes, k - 1), outcomes, k - 1);
    }
  }

  /** Construction leaves the waiting actors as they were, and the ones it adds resolve. */
  ghost predicate HiddenBuilt(w: World, m: World) {
    && |m.spawns.slots| == |w.spawns.slots|
    && (forall k :: 0 <= k < |w.spawns.slots| && w.spawns.slots[k].state.Constructed? ==>
          m.spawns.slots[k] == w.spawns.slots[k]
          && (w.spawns.slots[k].actor.Some? ==>
                (w.spawns.slots[k].actor.value in m.objects <==> w.spawns.slots[k].actor.value in w.objects)))
    && (forall k :: 0 <= k < |m.spawns.slots| && m.spawns.slots[k].state.Constructed? ==>
          m.spawns.slots[k] == w.spawns.slots[k] || !Unresolved(m, k))
  }

  lemma StepBuilds(m: World, t: Ticket, o: Outcome)
    requires Tables(m, 0) && InState(m.spawns, t, Queued) && t !in m.spawns.factory && (o.Built? ==> New(m, o.actor))
    ensures HiddenBuilt(m, ConstructTicket(m, t, o))
  {
    hide StorageInv, PendingCount, Pinned, Construct;
    ConstructTicketKeeps(m, t, o);
    ConstructEffect(m.spawns, t, o);
  }

  lemma {:induction false} ConstructUpToBuilds(w: World, outcomes: Ticket -> Outcome, k: nat)
    requires ReadyToConstruct(w, outcomes) && k <= |w.spawns.sealedFactory|
    ensures HiddenBuilt(w, ConstructUpTo(w, outcomes, k))
  {
    hide Tables, PendingCount, ConstructTicket, ConstructedActor, AllIn, WaitingFrom, StillNew, DeliveredActors, KeepsConstructed, New;
    if k > 0 {
      var m, t := ConstructUpTo(w, outcomes, k - 1), w.spawns.sealedFactory[k - 1];
      ConstructUpToBuilds(w, outcomes, k - 1);
      ConstructUpToKeeps(w, outcomes, k - 1);
      NextWaits(m, w.spawns.sealedFactory, outcomes, k - 1);
      StepBuilds(m, t, outcomes(t));
    }
  }

  // ------------------------------------------------------------------ publishing

  /** What one publication, hooks included, leaves of the storage. */
  ghost predicate PublishStep(s: Storage, m: Storage, t: Ticket, resolves: bool) {
    && |m.slots| == |s.slots|
    && m == s.(slots := m.slots, factory := m.factory, activated := m.activated, dropped := m.dropped)
    && s.factory <= m.factory && s.activated <= m.activated && s.dropped <= m.dropped
    && (forall k :: |s.factory| <= k < |m.factory| ==> m.factory[k] !in s.activated)
    && (forall k :: 0 <= k < |s.slots| && k != t.index && HasActor(s.slots[k]) ==> m.slots[k] == s.slots[k])
    && (forall k :: 0 <= k < |s.slots| && HasActor(m.slots[k]) && k != t.index ==> m.slots[k] == s.slots[k])
    && if resolves then InState(m, t, Spawned) && m.dropped == s.dropped
       else t in m.dropped && m.slots == s.slots
  }

  lemma ResolvedActor(w: World, t: Ticket)
    requires Tables(w, 0) && InState(w.spawns, t, Constructed)
    ensures ConstructedActor(w.spawns, t).Some?
    ensures ConstructedActor(w.spawns, t).value !in w.live && ConstructedActor(w.spawns, t).value !in w.pendingSpawn
    ensures PendingCount(w.spawns) > 0
  {
    hide StorageInv;
    CountPositive(w.spawns.slots, IsPending);
    assert IsPending(w.spawns.slots[t.index]);
  }

  /** The actor is live and its begin hook runs while its ticket still reads as waiting. */
  lemma PublishBegins(w: World, t: Ticket, h: Hooks)
    requires Tables(w, 0) && Committed(w) <= w.capacity && InState(w.spawns, t, Constructed)
    requires ConstructedActor(w.spawns, t).Some?
    ensures |w.live| < w.capacity
    ensures var a := ConstructedActor(w.spawns, t).value;
            var m := Begin(w, a, h);
            && TablesWhile(m, 0, Some(a)) && Committed(m) <= w.capacity + 1 && m.capacity == w.capacity
            && m.live == w.live + [a] && PublishStep(w.spawns, CompletePublish(m.spawns, t), t, true) && InState(m.spawns, t, Constructed)
            && m.lifecycle == w.lifecycle && m.objects == w.objects
            && m.spawns.publish == w.spawns.publish && m.spawns.slots[t.index] == w.spawns.slots[t.index]
  {
    hide StorageInv, PendingCount, HandleAll;
    var a := ConstructedActor(w.spawns, t).value;
    ResolvedActor(w, t);
    var n := w.(live := w.live + [a], owned := w.owned + {a}, hooks := w.hooks + [Began(a)]);
    assert TablesWhile(n, 0, Some(a));
    RequestsKeep(n, h.begin(a), 0, Some(a));
  }

  lemma CompleteKeeps(w: World, t: Ticket, a: Actor)
    requires TablesWhile(w, 0, Some(a)) && Committed(w) <= w.capacity + 1 && InState(w.spawns, t, Constructed)
    requires w.spawns.slots[t.index].actor == Some(a) && a in w.live && t !in w.spawns.publish
    ensures var m := w.(spawns := CompletePublish(w.spawns, t)); Tables(m, 0) && Committed(m) <= m.capacity
  {
    hide StorageInv, PendingCount;
    CompletePublishKeeps(w.spawns, t);
    PendingUpdate(w.spawns, CompletePublish(w.spawns, t), t.index);
  }

  lemma PublishTicketKeeps(w: World, t: Ticket, h: Hooks)
    requires Tables(w, 0) && Committed(w) <= w.capacity && InState(w.spawns, t, Constructed) && w.spawns.publish == []
    ensures ConstructedActor(w.spawns, t).Some?
    ensures var m := PublishTicket(w, t, h);
            && Tables(m, 0) && Committed(m) <= m.capacity && m.capacity == w.capacity && m.lifecycle == w.lifecycle && m.objects == w.objects
            && PublishStep(w.spawns, m.spawns, t, ConstructedActor(w.spawns, t).value in w.objects)
  {
    hide Tables, TablesWhile, PendingCount, Begin;
    ResolvedActor(w, t);
    var a := ConstructedActor(w.spawns, t);
    if a.value in w.objects {
      PublishBegins(w, t, h);
      CompleteKeeps(Begin(w, a.value, h), t, a.value);
    } else {
      SkipTableKeeps(w, t);
    }
  }

  lemma SkipTableKeeps(w: World, t: Ticket)
    requires Tables(w, 0)
    ensures var m := w.(spawns := SkipPublish(w.spawns, t)); Tables(m, 0) && Committed(m) == Committed(w)
  {
    hide StorageInv, Count;
    SkipKeeps(w.spawns, t);
  }

  /** The world after the first `k` publications. */
  ghost predicate PublishedUpTo(w: World, m: World, k: nat)
    requires k <= |w.spawns.sealedPublish|
  {
    && Tables(m, 0) && Committed(m) <= m.capacity && m.capacity == w.capacity && m.lifecycle == w.lifecycle && m.objects == w.objects
    && |m.spawns.slots| == |w.spawns.slots|
    && m.spawns.sealedPublish == w.spawns.sealedPublish && m.spawns.sealedFactory == w.spawns.sealedFactory
    && m.spawns.publish == [] && m.spawns.destroyed == w.spawns.destroyed && m.spawns.invoked == w.spawns.invoked
    && w.spawns.factory <= m.spawns.factory && w.spawns.activated <= m.spawns.activated
    && (forall j :: |w.spawns.factory| <= j < |m.spawns.factory| ==> m.spawns.factory[j] !in w.spawns.activated)
    && (forall j :: k <= j < |w.spawns.sealedPublish| ==>
          InState(m.spawns, w.spawns.sealedPublish[j], Constructed)
          && ConstructedActor(m.spawns, w.spawns.sealedPublish[j]) == ConstructedActor(w.spawns, w.spawns.sealedPublish[j]))
    && w.spawns.dropped <= m.spawns.dropped && PublishedExactly(w, m, k)
  }

  /** Of the first `k` publications exactly those whose actor resolves succeeded; the others left their slot as it was. */
  ghost predicate PublishedExactly(w: World, m: World, k: nat)
    requires k <= |w.spawns.sealedPublish| && |m.spawns.slots| == |w.spawns.slots|
  {
    && (forall j :: 0 <= j < k ==>
          var t, a := w.spawns.sealedPublish[j], ConstructedActor(w.spawns, w.spawns.sealedPublish[j]);
          a.Some? && if a.value in w.objects then InState(m.spawns, t, Spawned)
                     else t in m.spawns.dropped && InState(m.spawns, t, Constructed))
    && (forall i :: 0 <= i < |m.spawns.slots| && m.spawns.slots[i].state.Constructed? ==> m.spawns.slots[i] == w.spawns.slots[i])
    && (forall i :: 0 <= i < |w.spawns.slots| && Unresolved(w, i) ==> m.spawns.slots[i] == w.spawns.slots[i])
    && ((forall i :: 0 <= i < |w.spawns.slots| ==> !Unresolved(w, i)) ==> m.spawns.dropped == w.spawns.dropped)
  }

  /** A slot that waits for publication with an actor that no longer resolves. */
  predicate Unresolved(w: World, i: nat)
    requires i < |w.spawns.slots|
  {
    w.spawns.slots[i].state.Constructed? && w.spawns.slots[i].actor.Some? && w.spawns.slots[i].actor.value !in w.objects
  }

  lemma PublishOneMore(w: World, m: World, h: Hooks, k: nat)
    requires k < |w.spawns.sealedPublish| && Distinct(w.spawns.sealedPublish) && PublishedUpTo(w, m, k)
    ensures PublishedUpTo(w, PublishTicket(m, w.spawns.sealedPublish[k], h), k + 1)
  {
    hide Tables, PendingCount, PublishTicket;
    var ts := w.spawns.sealedPublish;
    var t := ts[k];
    var r := PublishTicket(m, t, h);
    PublishTicketKeeps(m, t, h);
    assert m.spawns.slots[t.index] == w.spawns.slots[t.index];
    assert ConstructedActor(m.spawns, t).value !in w.objects ==> Unresolved(w, t.index);
    forall j | 0 <= j < |ts| && j != k && HasActorTicket(m.spawns, ts[j])
      ensures ts[j].index != t.index && r.spawns.slots[ts[j].index] == m.spawns.slots[ts[j].index]
    {
      DifferentTickets(m.spawns, ts[j], t);
    }
    forall j | 0 <= j < k ensures InState(r.spawns, ts[j], Spawned) || ts[j] in r.spawns.dropped {
      if InState(m.spawns, ts[j], Spawned) { assert HasActorTicket(m.spawns, ts[j]); }
    }
    forall j | k + 1 <= j < |ts|
      ensures InState(r.spawns, ts[j], Constructed) && ConstructedActor(r.spawns, ts[j]) == ConstructedActor(w.spawns, ts[j])
    {
      assert HasActorTicket(m.spawns, ts[j]);
    }
  }

  lemma DifferentTickets(s: Storage, t: Ticket, u: Ticket)
    requires Names(s, t) && Names(s, u) && t != u
    ensures t.index != u.index
  {
  }

  predicate HasActorTicket(s: Storage, t: Ticket) { Names(s, t) && HasActor(s.slots[t.index]) }

  lemma {:induction false} PublishUpToKeeps(w: World, h: Hooks, k: nat)
    requires Tables(w, 0) && Committed(w) <= w.capacity && w.spawns.publish == []
    requires AllIn(w.spawns, w.spawns.sealedPublish, Constructed) && Distinct(w.spawns.sealedPublish)
    requires k <= |w.spawns.sealedPublish|
    ensures PublishedUpTo(w, PublishUpTo(w, h, k), k)
  {
    hide Tables, PendingCount, PublishTicket, ConstructedActor;
    if k > 0 {
      PublishUpToKeeps(w, h, k - 1);
      PublishOneMore(w, PublishUpTo(w, h, k - 1), h, k - 1);
    }
  }
}
