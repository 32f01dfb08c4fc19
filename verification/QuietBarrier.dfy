/** What a barrier means when its hooks queue nothing: who is live afterwards, in which order, and which hooks ran. */
module QuietBarrier {
  import opened Basics
  import opened SpawnStorageModel
  import opened SpawnStorageProofs
  import opened WorldModel
  import opened WorldProofs
  import opened WorldTheorems

  ghost predicate Quiet(h: Hooks) { forall a :: h.begin(a) == [] && h.end(a) == [] }

  // ------------------------------------------------------------------ lists

  function KeepIn(s: seq<Actor>, these: set<Actor>): seq<Actor> {
    if s == [] then [] else KeepIn(s[..|s| - 1], these) + (if s[|s| - 1] in these then [s[|s| - 1]] else [])
  }

  function KeepOut(s: seq<Actor>, these: set<Actor>): seq<Actor> {
    if s == [] then [] else KeepOut(s[..|s| - 1], these) + (if s[|s| - 1] in these then [] else [s[|s| - 1]])
  }

  lemma {:induction false} KeepOutMembers(s: seq<Actor>, these: set<Actor>)
    ensures forall a :: a in KeepOut(s, these) <==> a in s && a !in these
  {
    if s != [] {
      KeepOutMembers(s[..|s| - 1], these);
      assert s == s[..|s| - 1] + [s[|s| - 1]];
    }
  }

  lemma {:induction false} KeepOutNothing(s: seq<Actor>)
    ensures KeepOut(s, {}) == s
  {
    if s != [] { KeepOutNothing(s[..|s| - 1]); }
  }

  lemma {:induction false} KeepInPrefix(s: seq<Actor>, these: set<Actor>, i: nat)
    requires i < |s|
    ensures KeepIn(s[..i + 1], these) == KeepIn(s[..i], these) + (if s[i] in these then [s[i]] else [])
  {
    assert s[..i + 1][..i] == s[..i];
  }

  lemma WithoutLast(k: seq<Actor>, a: Actor)
    requires a !in k
    ensures Without(k + [a], a) == k
  {
    var p := Position(k + [a], a, 0);
    assert (k + [a])[|k|] == a;
    assert p == |k|;
    assert (k + [a])[..|k|] == k && (k + [a])[|k| + 1..] == [];
  }

  lemma WithoutFront(k: seq<Actor>, x: Actor, a: Actor)
    requires x != a
    ensures Without(k + [x], a) == Without(k, a) + [x]
  {
    var p, q := Position(k, a, 0), Position(k + [x], a, 0);
    assert forall j :: 0 <= j < |k| ==> (k + [x])[j] == k[j];
    if p < |k| {
      assert (k + [x])[p] == a;
      assert q == p;
      assert (k + [x])[..p] == k[..p] && (k + [x])[p + 1..] == k[p + 1..] + [x];
    } else {
      assert q == |k| + 1;
    }
  }

  lemma {:induction false} NotThere(s: seq<Actor>, these: set<Actor>, a: Actor)
    requires a !in s
    ensures KeepOut(s, these + {a}) == KeepOut(s, these)
  {
    if s != [] {
      assert s[|s| - 1] in s;
      NotThere(s[..|s| - 1], these, a);
    }
  }

  /** Removing one more actor from what is kept is keeping out one more actor. */
  lemma {:induction false} WithoutKeepOut(s: seq<Actor>, these: set<Actor>, a: Actor)
    requires Distinct(s)
    ensures Without(KeepOut(s, these), a) == KeepOut(s, these + {a})
  {
    hide Without;
    if s == [] {
      WithoutNothing(a);
    } else {
      var u, x := s[..|s| - 1], s[|s| - 1];
      WithoutKeepOut(u, these, a);
      KeepOutMembers(u, these);
      if x !in these {
        if x == a {
          NotThere(u, these, a);
          WithoutLast(KeepOut(u, these), a);
        } else {
          WithoutFront(KeepOut(u, these), x, a);
        }
      } else {
        assert KeepOut(s, these) == KeepOut(u, these) && KeepOut(s, these + {a}) == KeepOut(u, these + {a});
      }
    }
  }

  lemma WithoutNothing(a: Actor)
    ensures Without([], a) == []
  {
  }

  // ------------------------------------------------------------------ quiet phases

  function Ends(actors: seq<Actor>): seq<Hook> { seq(|actors|, i requires 0 <= i < |actors| => Finished(actors[i])) }

  function Begins(actors: seq<Actor>): seq<Hook> { seq(|actors|, i requires 0 <= i < |actors| => Began(actors[i])) }

  lemma {:induction false} QuietEnds(w: World, i: nat, h: Hooks)
    requires Quiet(h) && |w.pendingDestroy| <= |w.live| && i <= |w.pendingDestroy|
    ensures var m := EndDoomed(w, i, h);
            var all, k := KeepIn(w.pendingDestroy, w.objects), |KeepIn(w.pendingDestroy[..i], w.objects)|;
            k <= |all| && m == w.(hooks := m.hooks) && m.hooks == w.hooks + Ends(all[k..])
    decreases |w.pendingDestroy| - i
  {
    var d, o := w.pendingDestroy, w.objects;
    if i == |d| {
      assert d[..i] == d;
    } else {
      KeepInPrefix(d, o, i);
      if d[i] in o {
        var n := w.(hooks := w.hooks + [Finished(d[i])]);
        assert End(w, d[i], h) == n;
        QuietEnds(n, i + 1, h);
        KeepInGrows(d, o, i + 1);
        var all, k := KeepIn(d, o), |KeepIn(d[..i], o)|;
        assert all[k] == d[i];
        assert Ends(all[k..]) == [Finished(d[i])] + Ends(all[k + 1..]);
      } else {
        QuietEnds(w, i + 1, h);
      }
    }
  }

  lemma {:induction false} KeepInGrows(s: seq<Actor>, these: set<Actor>, i: nat)
    requires i <= |s|
    ensures KeepIn(s[..i], these) <= KeepIn(s, these)
    decreases |s| - i
  {
    if i < |s| {
      KeepInPrefix(s, these, i);
      KeepInGrows(s, these, i + 1);
    } else {
      assert s[..i] == s;
    }
  }

  /** The doomed among the first `k`: those whose reference still resolves. */
  function Doomed(w: World, k: nat): set<Actor>
    requires k <= |w.pendingDestroy|
  {
    set a | a in w.pendingDestroy[..k] && a in w.objects
  }

  lemma UnregisterEffect(w: World, a: Actor, collecting: bool)
    ensures var m := Unregister(w, a, collecting);
            && m == w.(live := m.live, spawns := m.spawns, objects := m.objects)
            && m.live == (if a in w.objects then Without(w.live, a) else w.live)
            && m.objects == (if a in w.objects && !collecting then w.objects - {a} else w.objects)
  {
    hide ReleaseActor, Without;
  }

  lemma DoomedGrows(w: World, k: nat)
    requires Distinct(w.pendingDestroy) && 0 < k <= |w.pendingDestroy|
    ensures var a := w.pendingDestroy[k - 1];
            a !in Doomed(w, k - 1) && Doomed(w, k) == (if a in w.objects then Doomed(w, k - 1) + {a} else Doomed(w, k - 1))
  {
    var d, a := w.pendingDestroy, w.pendingDestroy[k - 1];
    assert d[..k] == d[..k - 1] + [a];
    assert a !in d[..k - 1];
  }

  lemma {:induction false} QuietUnregisters(w: World, collecting: bool, k: nat)
    requires Distinct(w.live) && Distinct(w.pendingDestroy) && k <= |w.pendingDestroy|
    ensures var m := UnregisterUpTo(w, collecting, k);
            && m.live == KeepOut(w.live, Doomed(w, k)) && m == w.(live := m.live, spawns := m.spawns, objects := m.objects)
            && m.objects == (if collecting then w.objects else w.objects - Doomed(w, k))
  {
    hide Unregister, Without, KeepOut, Doomed;
    if k == 0 {
      KeepOutNothing(w.live);
      NobodyDoomed(w);
    } else {
      QuietUnregisters(w, collecting, k - 1);
      DoomedGrows(w, k);
      UnregisterEffect(UnregisterUpTo(w, collecting, k - 1), w.pendingDestroy[k - 1], collecting);
      WithoutKeepOut(w.live, Doomed(w, k - 1), w.pendingDestroy[k - 1]);
    }
  }

  lemma NobodyDoomed(w: World)
    ensures Doomed(w, 0) == {}
  {
  }

  lemma {:induction false} QuietManual(w: World, i: nat, h: Hooks)
    requires Quiet(h) && i <= |w.pendingSpawn| <= w.capacity
    ensures var m, all := BeginManual(w, i, h), KeepIn(w.pendingSpawn, w.objects);
            var k := |KeepIn(w.pendingSpawn[..i], w.objects)|;
            && k <= |all| && m == w.(live := m.live, owned := m.owned, hooks := m.hooks)
            && m.live == w.live + all[k..] && m.hooks == w.hooks + Begins(all[k..])
    decreases |w.pendingSpawn| - i
  {
    var p, o := w.pendingSpawn, w.objects;
    KeepInGrows(p, o, i);
    if i == |p| {
      assert p[..i] == p;
    } else {
      KeepInPrefix(p, o, i);
      if p[i] in o {
        var n := w.(live := w.live + [p[i]], owned := w.owned + {p[i]}, hooks := w.hooks + [Began(p[i])]);
        assert Begin(w, p[i], h) == n;
        QuietManual(n, i + 1, h);
        KeepInGrows(p, o, i + 1);
        var all, k := KeepIn(p, o), |KeepIn(p[..i], o)|;
        assert all[k] == p[i];
        assert all[k..] == [p[i]] + all[k + 1..];
      } else {
        QuietManual(w, i + 1, h);
      }
    }
  }

  /** The actors the first `k` tickets deliver. */
  function TicketActors(s: Storage, ts: seq<Ticket>, k: nat): seq<Actor>
    requires k <= |ts| && AllIn(s, ts, Constructed) && forall j :: 0 <= j < |ts| ==> ConstructedActor(s, ts[j]).Some?
  {
    if k == 0 then [] else TicketActors(s, ts, k - 1) + [ConstructedActor(s, ts[k - 1]).value]
  }

  lemma QuietBegin(w: World, a: Actor, h: Hooks)
    requires Quiet(h)
    ensures Begin(w, a, h) == w.(live := w.live + [a], owned := w.owned + {a}, hooks := w.hooks + [Began(a)])
  {
  }

  lemma QuietPublish(w: World, t: Ticket, h: Hooks)
    requires Quiet(h) && ConstructedActor(w.spawns, t).Some?
    ensures var r, a := PublishTicket(w, t, h), ConstructedActor(w.spawns, t).value;
            && r == w.(live := r.live, owned := r.owned, hooks := r.hooks, spawns := r.spawns)
            && r.live == w.live + (if a in w.objects then [a] else [])
            && r.hooks == w.hooks + (if a in w.objects then [Began(a)] else [])
  {
    hide ConstructedActor, Begin, CompletePublish, Quiet;
    QuietBegin(w, ConstructedActor(w.spawns, t).value, h);
  }

  lemma {:induction false} QuietPublishes(w: World, h: Hooks, k: nat)
    requires Quiet(h) && Tables(w, 0) && Committed(w) <= w.capacity && w.spawns.publish == []
    requires AllIn(w.spawns, w.spawns.sealedPublish, Constructed) && Distinct(w.spawns.sealedPublish)
    requires k <= |w.spawns.sealedPublish|
    requires forall j :: 0 <= j < |w.spawns.sealedPublish| ==> ConstructedActor(w.spawns, w.spawns.sealedPublish[j]).Some?
    ensures var m, all := PublishUpTo(w, h, k), KeepIn(TicketActors(w.spawns, w.spawns.sealedPublish, k), w.objects);
            && m == w.(live := m.live, owned := m.owned, hooks := m.hooks, spawns := m.spawns)
            && m.live == w.live + all && m.hooks == w.hooks + Begins(all)
  {
    hide Tables, PendingCount, ConstructedActor, PublishTicket, AllIn, Distinct, PublishedExactly, Quiet;
    if k > 0 {
      QuietPublishes(w, h, k - 1);
      PublishUpToKeeps(w, h, k - 1);
      var m, t := PublishUpTo(w, h, k - 1), w.spawns.sealedPublish[k - 1];
      var a := ConstructedActor(w.spawns, t).value;
      var before, actors := TicketActors(w.spawns, w.spawns.sealedPublish, k - 1), TicketActors(w.spawns, w.spawns.sealedPublish, k);
      assert ConstructedActor(m.spawns, t) == Some(a);
      QuietPublish(m, t, h);
      assert actors == before + [a];
      KeepInOne(before, a, w.objects);
    }
  }

  lemma KeepInOne(s: seq<Actor>, a: Actor, these: set<Actor>)
    ensures KeepIn(s + [a], these) == KeepIn(s, these) + (if a in these then [a] else [])
    ensures a in these ==> Begins(KeepIn(s + [a], these)) == Begins(KeepIn(s, these)) + [Began(a)]
  {
    assert (s + [a])[..|s|] == s;
  }

  // ------------------------------------------------------------------ the whole quiet barrier

  /** The actors the factories of these tickets build, in ticket order. */
  function BuiltActors(ts: seq<Ticket>, outcomes: Ticket -> Outcome, k: nat): seq<Actor>
    requires k <= |ts|
  {
    if k == 0 then []
    else BuiltActors(ts, outcomes, k - 1) + (if outcomes(ts[k - 1]).Built? then [outcomes(ts[k - 1]).actor] else [])
  }

  /** The actors of the tickets that were already constructed when the barrier started. */
  function WaitingActors(s: Storage): seq<Actor>
    requires StorageInv(s)
  {
    LanesHaveActors(s);
    TicketActors(s, s.publish, |s.publish|)
  }

  lemma LanesHaveActors(s: Storage)
    requires StorageInv(s)
    ensures AllIn(s, s.publish, Constructed) && forall j :: 0 <= j < |s.publish| ==> ConstructedActor(s, s.publish[j]).Some?
  {
    hide Factories, Distinct, Apart, Covered;
    forall j | 0 <= j < |s.publish| ensures ConstructedActor(s, s.publish[j]).Some? {
      assert SlotOk(s, s.publish[j].index);
    }
  }

  lemma {:induction false} TicketActorsSame(s: Storage, m: Storage, ts: seq<Ticket>, us: seq<Ticket>, k: nat)
    requires k <= |ts| && ts <= us && AllIn(s, ts, Constructed) && AllIn(m, us, Constructed)
    requires forall j :: 0 <= j < |ts| ==> ConstructedActor(s, ts[j]).Some? && ConstructedActor(m, ts[j]) == ConstructedActor(s, ts[j])
    requires forall j :: 0 <= j < |us| ==> ConstructedActor(m, us[j]).Some?
    ensures TicketActors(m, us, k) == TicketActors(s, ts, k)
  {
    hide ConstructedActor;
    if k > 0 { TicketActorsSame(s, m, ts, us, k - 1); }
  }

  /** The publish list after construction delivers the waiting actors first and then the newly built ones. */
  lemma {:induction false} TicketActorsBuilt(m: Storage, ts: seq<Ticket>, us: seq<Ticket>, outcomes: Ticket -> Outcome, n: nat, k: nat)
    requires k <= |ts| && n + |Successes(ts, outcomes, k)| <= |us|
    requires us[n..n + |Successes(ts, outcomes, k)|] == Successes(ts, outcomes, k)
    requires AllIn(m, us, Constructed) && forall j :: 0 <= j < |us| ==> ConstructedActor(m, us[j]).Some?
    requires forall j :: 0 <= j < k && outcomes(ts[j]).Built? ==> ConstructedActor(m, ts[j]) == Some(outcomes(ts[j]).actor)
    ensures TicketActors(m, us, n + |Successes(ts, outcomes, k)|) == TicketActors(m, us, n) + BuiltActors(ts, outcomes, k)
  {
    hide ConstructedActor, AllIn;
    if k > 0 {
      var a, b := Successes(ts, outcomes, k - 1), Successes(ts, outcomes, k);
      assert a == b[..|a|];
      assert us[n..n + |a|] == us[n..n + |b|][..|a|];
      TicketActorsBuilt(m, ts, us, outcomes, n, k - 1);
      if outcomes(ts[k - 1]).Built? {
        assert us[n + |a|] == us[n..n + |b|][|a|] == ts[k - 1];
      }
    }
  }

  lemma {:induction false} KeepInAppends(s: seq<Actor>, t: seq<Actor>, these: set<Actor>)
    ensures KeepIn(s + t, these) == KeepIn(s, these) + KeepIn(t, these)
  {
    if t == [] {
      assert s + t == s;
    } else {
      KeepInAppends(s, t[..|t| - 1], these);
      assert (s + t)[..|s + t| - 1] == s + t[..|t| - 1];
    }
  }

  lemma {:induction false} BuiltResolve(ts: seq<Ticket>, outcomes: Ticket -> Outcome, k: nat, these: set<Actor>)
    requires k <= |ts| && forall j :: 0 <= j < k && outcomes(ts[j]).Built? ==> outcomes(ts[j]).actor in these
    ensures KeepIn(BuiltActors(ts, outcomes, k), these) == BuiltActors(ts, outcomes, k)
  {
    if k > 0 {
      BuiltResolve(ts, outcomes, k - 1, these);
      var u := BuiltActors(ts, outcomes, k - 1);
      if outcomes(ts[k - 1]).Built? { assert (u + [outcomes(ts[k - 1]).actor])[..|u|] == u; } else { assert u + [] == u; }
    }
  }

  /** Everything the publish list delivers: waiting actors that still resolve, then the newly built ones, in ticket order. */
  lemma PublishListDelivers(s: Storage, m: Storage, ts: seq<Ticket>, outcomes: Ticket -> Outcome, objects: set<Actor>)
    requires AllIn(s, s.sealedPublish, Constructed) && AllIn(m, m.sealedPublish, Constructed)
    requires m.sealedPublish == s.sealedPublish + Successes(ts, outcomes, |ts|)
    requires forall j :: 0 <= j < |s.sealedPublish| ==>
               ConstructedActor(s, s.sealedPublish[j]).Some?
               && ConstructedActor(m, s.sealedPublish[j]) == ConstructedActor(s, s.sealedPublish[j])
    requires forall j :: 0 <= j < |m.sealedPublish| ==> ConstructedActor(m, m.sealedPublish[j]).Some?
    requires forall j :: 0 <= j < |ts| && outcomes(ts[j]).Built? ==>
               ConstructedActor(m, ts[j]) == Some(outcomes(ts[j]).actor) && outcomes(ts[j]).actor in objects
    ensures KeepIn(TicketActors(m, m.sealedPublish, |m.sealedPublish|), objects)
         == KeepIn(TicketActors(s, s.sealedPublish, |s.sealedPublish|), objects) + BuiltActors(ts, outcomes, |ts|)
  {
    hide ConstructedActor, AllIn, KeepIn, BuiltActors, Successes, TicketActors;
    var us, n := m.sealedPublish, |s.sealedPublish|;
    assert us[n..n + |Successes(ts, outcomes, |ts|)|] == Successes(ts, outcomes, |ts|);
    TicketActorsBuilt(m, ts, us, outcomes, n, |ts|);
    TicketActorsSame(s, m, s.sealedPublish, us, n);
    KeepInAppends(TicketActors(m, us, n), BuiltActors(ts, outcomes, |ts|), objects);
    BuiltResolve(ts, outcomes, |ts|, objects);
  }

  lemma QuietDeferred(b: World, c: World, h: Hooks, outcomes: Ticket -> Outcome)
    requires Quiet(h) && Committed(b) <= b.capacity && b.spawns.publish == []
    requires ConstructedUpTo(b, c, outcomes, |b.spawns.sealedFactory|)
    requires AllIn(b.spawns, b.spawns.sealedPublish, Constructed)
    requires forall j :: 0 <= j < |b.spawns.sealedPublish| ==> ConstructedActor(b.spawns, b.spawns.sealedPublish[j]).Some?
    ensures var m := PublishUpTo(c, h, |c.spawns.sealedPublish|);
            var delivered := KeepIn(TicketActors(b.spawns, b.spawns.sealedPublish, |b.spawns.sealedPublish|), c.objects)
                             + BuiltActors(b.spawns.sealedFactory, outcomes, |b.spawns.sealedFactory|);
            && m.live == b.live + delivered && m.hooks == b.hooks + Begins(delivered)
            && m.pendingSpawn == b.pendingSpawn && m.pendingDestroy == b.pendingDestroy
  {
    hide Tables, PendingCount, WaitingFrom, StillNew, KeepIn, BuiltActors, Successes, TicketActors, PublishUpTo, Quiet, ConstructedActor;
    TablesStorage(c, 0);
    SealedPublishDistinct(c.spawns);
    ConstructedHaveActors(c);
    QuietPublishes(c, h, |c.spawns.sealedPublish|);
    PublishListDelivers(b.spawns, c.spawns, b.spawns.sealedFactory, outcomes, c.objects);
  }

  lemma ConstructedHaveActors(w: World)
    requires Tables(w, 0) && AllIn(w.spawns, w.spawns.sealedPublish, Constructed)
    ensures forall j :: 0 <= j < |w.spawns.sealedPublish| ==> ConstructedActor(w.spawns, w.spawns.sealedPublish[j]).Some?
  {
    hide StorageInv, PendingCount;
    forall j | 0 <= j < |w.spawns.sealedPublish| ensures ConstructedActor(w.spawns, w.spawns.sealedPublish[j]).Some? {
      ResolvedActor(w, w.spawns.sealedPublish[j]);
    }
  }

  /** Up to construction, quiet: the doomed are gone in place, the manual spawns that resolve follow, and nothing is pending. */
  lemma QuietFirstHalf(w: World, h: Hooks, g: Guards)
    requires WorldInv(w) && Quiet(h) && !g.collecting
    ensures var b := BeforeConstruction(w, h, g);
            var doomed := Doomed(w, |w.pendingDestroy|);
            var manual := KeepIn(w.pendingSpawn, w.objects - doomed);
            && b.live == KeepOut(w.live, doomed) + manual && b.objects == w.objects - doomed
            && b.hooks == w.hooks + Ends(KeepIn(w.pendingDestroy, w.objects)) + Begins(manual)
            && b.pendingSpawn == [] && b.pendingDestroy == []
            && b.spawns.publish == [] && b.spawns.sealedPublish == w.spawns.publish
  {
    hide StorageInv, Pinned, PendingCount, KeepOut, KeepIn, EndDoomed, UnregisterUpTo, BeginManual, Doomed;
    var s := w.(spawns := SealBarrier(w.spawns));
    DoomedFit(w, 0, None);
    QuietEnds(s, 0, h);
    var e := EndDoomed(s, 0, h);
    NothingKept(w.pendingDestroy, w.objects);
    QuietUnregisters(e, g.collecting, |e.pendingDestroy|);
    DoomedDependsOn(w, e);
    var u := MarkAndUnregister(e, g.collecting);
    NothingKept(w.pendingSpawn, u.objects);
    QuietManual(u, 0, h);
    BeginPhaseKeeps(w, h, g);
    KeptStorage(s, BeforeConstruction(w, h, g));
  }

  lemma KeptStorage(s: World, b: World)
    requires KeepsSealed(s, b)
    ensures b.spawns.publish == s.spawns.publish && b.spawns.sealedPublish == s.spawns.sealedPublish
  {
  }

  lemma NothingKept(s: seq<Actor>, these: set<Actor>)
    ensures KeepIn(s[..0], these) == []
  {
  }

  lemma DoomedDependsOn(w: World, m: World)
    requires w.pendingDestroy == m.pendingDestroy && w.objects == m.objects
    ensures Doomed(w, |w.pendingDestroy|) == Doomed(m, |m.pendingDestroy|)
  {
  }

  /**
   With hooks that queue nothing, a barrier that gets its guards leaves exactly the old live list without the
   doomed, in order, then the manual spawns that resolve, then the deferred actors in ticket order: first those
   that were waiting for publication, then those built now. The doomed ended first, in the order they were
   doomed; the newcomers began in the order they became live.
   */
  lemma QuietBarrierMeans(w: World, h: Hooks, outcomes: Ticket -> Outcome, g: Guards)
    requires WorldInv(w) && FreshOutcomes(w, outcomes) && w.lifecycle.Playing? && AllGuards(g) && Quiet(h)
    requires HasWork(w.(spawns := SealBarrier(w.spawns)))
    ensures var (m, r) := ApplyPending(w, h, outcomes, g);
            var doomed := Doomed(w, |w.pendingDestroy|);
            var manual := KeepIn(w.pendingSpawn, w.objects - doomed);
            var waiting := KeepIn(WaitingActors(w.spawns), m.objects);
            var built := BuiltActors(w.spawns.factory, outcomes, |w.spawns.factory|);
            && r == Applied && m.live == KeepOut(w.live, doomed) + manual + (waiting + built)
            && m.hooks == w.hooks + Ends(KeepIn(w.pendingDestroy, w.objects)) + Begins(manual) + Begins(waiting + built)
            && m.pendingSpawn == [] && m.pendingDestroy == []
  {
    hide StorageInv, Pinned, PendingCount, KeepOut, KeepIn, BeforeConstruction, ConstructUpTo, PublishUpTo, Doomed, BuiltActors,
      ApplyPending, KeepsSealed, SealBarrier, Quiet, FreshOutcomes, ConstructedActor, TicketActors, Begins, Ends;
    var b := BeforeConstruction(w, h, g);
    var c := ConstructUpTo(b, outcomes, |b.spawns.sealedFactory|);
    var m := PublishUpTo(c, h, |c.spawns.sealedPublish|);
    FullBarrier(w, h, outcomes, g);
    QuietFirstHalf(w, h, g);
    LanesHaveActors(w.spawns);
    BeginPhaseKeeps(w, h, g);
    WaitingSurvives(w, b);
    QuietDeferred(b, c, h, outcomes);
  }

  /** Tickets that waited for publication before the barrier deliver the same actors when construction starts. */
  lemma WaitingSurvives(w: World, b: World)
    requires StorageInv(w.spawns) && KeepsSealed(w.(spawns := SealBarrier(w.spawns)), b)
    ensures AllIn(b.spawns, b.spawns.sealedPublish, Constructed) && b.spawns.sealedPublish == w.spawns.publish
    ensures forall j :: 0 <= j < |w.spawns.publish| ==> ConstructedActor(b.spawns, w.spawns.publish[j]).Some?
    ensures TicketActors(b.spawns, b.spawns.sealedPublish, |b.spawns.sealedPublish|) == WaitingActors(w.spawns)
  {
    hide StorageInv;
    LanesHaveActors(w.spawns);
    var ts := w.spawns.publish;
    forall j | 0 <= j < |ts|
      ensures InState(b.spawns, ts[j], Constructed) && ConstructedActor(b.spawns, ts[j]) == ConstructedActor(w.spawns, ts[j])
    {
      assert InState(w.spawns, ts[j], Constructed);
    }
    TicketActorsSame(w.spawns, b.spawns, ts, ts, |ts|);
  }
}
