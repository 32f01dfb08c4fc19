/** The cascades keep the hook trace well nested, for any pattern of failures. */
module LifecycleProofs {
  import opened Basics
  import opened LifecycleModel

  // ------------------------------------------------------------------ the stack of open parts

  lemma OpenBegan(trace: seq<Event>, p: Part)
    ensures Open(trace + [Began(p)]) == if Open(trace).None? then None else Some(Open(trace).value + [p])
  {
    assert (trace + [Began(p)])[..|trace|] == trace;
  }

  lemma OpenFinished(trace: seq<Event>, base: seq<Part>, p: Part)
    requires Open(trace) == Some(base + [p])
    ensures Open(trace + [Finished(p)]) == Some(base)
  {
    assert (trace + [Finished(p)])[..|trace|] == trace;
    assert (base + [p])[..|base|] == base;
  }

  /** Some parts may be playing before; nothing outside `ps` changes phase. */
  ghost predicate Frame(s: Scene, r: Scene, ps: seq<Part>) { forall p :: p !in ps ==> PhaseOf(r, p) == PhaseOf(s, p) }

  ghost predicate AllIn(s: Scene, ps: seq<Part>, phase: Phase) { forall k :: 0 <= k < |ps| ==> PhaseOf(s, ps[k]) == phase }

  ghost predicate Found(ps: seq<Part>, lost: set<Part>) { forall k :: 0 <= k < |ps| ==> ps[k] !in lost }

  lemma {:induction false} EndLeavesPops(s: Scene, ps: seq<Part>, k: nat, lost: set<Part>, base: seq<Part>)
    requires k <= |ps| && Open(s.trace) == Some(base + ps[..k])
    requires Distinct(ps[..k]) && AllIn(s, ps[..k], Playing) && Found(ps[..k], lost)
    ensures var r := EndLeaves(s, ps, k, lost);
            Open(r.trace) == Some(base) && AllIn(r, ps[..k], Ended) && Frame(s, r, ps[..k])
    decreases k
  {
    hide Open;
    if k == 0 {
      assert base + ps[..0] == base;
    } else {
      var p, u := ps[k - 1], ps[..k - 1];
      assert ps[..k] == u + [p] && p == ps[..k][k - 1];
      assert base + ps[..k] == (base + u) + [p];
      OpenFinished(s.trace, base + u, p);
      var m := EndLeaf(s, p);
      forall j | 0 <= j < |u| ensures PhaseOf(m, u[j]) == Playing && u[j] !in lost { assert u[j] == ps[..k][j]; }
      EndLeavesPops(m, ps, k - 1, lost, base);
      var r := EndLeaves(s, ps, k, lost);
      assert p !in u;
    }
  }

  lemma {:induction false} BeginLeavesPushes(s: Scene, ps: seq<Part>, i: nat, lost: set<Part>, base: seq<Part>)
    requires i <= |ps| && Open(s.trace) == Some(base + ps[..i])
    requires Distinct(ps[..i]) && AllIn(s, ps[..i], Playing) && Found(ps[..i], lost)
    ensures var (r, ok) := BeginLeaves(s, ps, i, lost);
            && (ok ==> Open(r.trace) == Some(base + ps) && Distinct(ps) && AllIn(r, ps, Playing) && Found(ps, lost)
                       && forall k :: i <= k < |ps| ==> PhaseOf(s, ps[k]).Constructed?)
            && (!ok ==> Open(r.trace) == Some(base))
    decreases |ps| - i
  {
    hide Open;
    if i == |ps| {
      assert ps[..i] == ps;
    } else {
      var (b, ok) := if ps[i] in lost then (s, false) else BeginLeaf(s, ps[i]);
      if ok {
        OpenBegan(s.trace, ps[i]);
        assert ps[..i + 1] == ps[..i] + [ps[i]];
        assert (base + ps[..i]) + [ps[i]] == base + ps[..i + 1];
        BeginLeavesPushes(b, ps, i + 1, lost, base);
      } else {
        EndLeavesPops(s, ps, i, lost, base);
      }
    }
  }

  lemma {:induction false} EndLeavesFrame(s: Scene, ps: seq<Part>, k: nat, lost: set<Part>)
    requires k <= |ps|
    ensures var r := EndLeaves(s, ps, k, lost);
            && Frame(s, r, ps) && (forall p :: p in lost ==> PhaseOf(r, p) == PhaseOf(s, p))
            && (forall p :: PhaseOf(r, p) == PhaseOf(s, p) || (PhaseOf(s, p).Playing? && PhaseOf(r, p).Ended?))
            && (forall p :: p in ps[..k] && p !in lost ==> !PhaseOf(r, p).Playing?)
    decreases k
  {
    if k > 0 {
      var m := if ps[k - 1] in lost then s else EndLeaf(s, ps[k - 1]);
      EndLeavesFrame(m, ps, k - 1, lost);
      assert ps[..k] == ps[..k - 1] + [ps[k - 1]];
    }
  }

  /** After a failed cascade nothing plays that did not play before it. */
  lemma {:induction false} BeginLeavesFrame(s: Scene, ps: seq<Part>, i: nat, lost: set<Part>)
    requires i <= |ps| && Found(ps[..i], lost)
    ensures var (r, ok) := BeginLeaves(s, ps, i, lost);
            && Frame(s, r, ps)
            && (!ok ==> forall p :: PhaseOf(r, p).Playing? ==> PhaseOf(s, p).Playing? && p !in ps[..i])
            && (forall p :: PhaseOf(s, p).Playing? ==> PhaseOf(r, p).Playing? || (!ok && p in ps[..i]))
    decreases |ps| - i
  {
    if i < |ps| {
      var (b, ok) := if ps[i] in lost then (s, false) else BeginLeaf(s, ps[i]);
      assert ps[..i + 1] == ps[..i] + [ps[i]];
      if ok { BeginLeavesFrame(b, ps, i + 1, lost); } else { EndLeavesFrame(s, ps, i, lost); EndLeavesTouches(s, ps, i, lost); }
    }
  }

  lemma {:induction false} EndLeavesTouches(s: Scene, ps: seq<Part>, k: nat, lost: set<Part>)
    requires k <= |ps|
    ensures Frame(s, EndLeaves(s, ps, k, lost), ps[..k])
    decreases k
  {
    if k > 0 {
      EndLeavesTouches(if ps[k - 1] in lost then s else EndLeaf(s, ps[k - 1]), ps, k - 1, lost);
      assert ps[..k] == ps[..k - 1] + [ps[k - 1]];
    }
  }

  // ------------------------------------------------------------------ one actor

  /** The hooks of a playing actor, in the order they began. */
  function ActorParts(cast: Cast, a: nat): seq<Part> { Parts(cast, a) + [Actor(a)] }

  lemma BeginActorFrame(s: Scene, cast: Cast, a: nat)
    ensures var (r, ok) := BeginActor(s, cast, a);
            && Frame(s, r, ActorParts(cast, a)) && (forall p :: PhaseOf(s, p).Playing? ==> PhaseOf(r, p).Playing?)
            && (ok ==> Up(r, a)) && (!ok ==> forall p :: PhaseOf(r, p).Playing? ==> PhaseOf(s, p).Playing?)
  {
    hide BeginLeaves;
    if PhaseOf(s, Actor(a)).Constructed? {
      var cs, m := Parts(cast, a), Enter(s, Actor(a), Playing);
      BeginLeavesFrame(m, cs, 0, cast.lost);
      var (b, ok) := BeginLeaves(m, cs, 0, cast.lost);
      var r := BeginActor(s, cast, a).0;
      forall p | PhaseOf(s, p).Playing? ensures PhaseOf(r, p).Playing? { assert PhaseOf(m, p).Playing?; }
      assert PhaseOf(m, Actor(a)).Playing?;
      if !ok {
        forall p | PhaseOf(r, p).Playing? ensures PhaseOf(s, p).Playing? { assert p != Actor(a) && PhaseOf(b, p).Playing?; }
      }
    }
  }

  lemma BeginActorPushes(s: Scene, cast: Cast, a: nat, base: seq<Part>)
    requires Open(s.trace) == Some(base)
    ensures var (r, ok) := BeginActor(s, cast, a);
            && (ok ==> Open(r.trace) == Some(base + ActorParts(cast, a)) && Distinct(ActorParts(cast, a))
                       && AllIn(r, ActorParts(cast, a), Playing) && AllIn(s, ActorParts(cast, a), Constructed) && Found(Parts(cast, a), cast.lost))
            && (!ok ==> Open(r.trace) == Some(base))
  {
    hide Open, BeginLeaves;
    if PhaseOf(s, Actor(a)).Constructed? {
      var cs, m := Parts(cast, a), Enter(s, Actor(a), Playing);
      assert base + cs[..0] == base;
      BeginLeavesPushes(m, cs, 0, cast.lost, base);
      BeginLeavesFrame(m, cs, 0, cast.lost);
      var (b, ok) := BeginLeaves(m, cs, 0, cast.lost);
      if ok {
        OpenBegan(b.trace, Actor(a));
        assert base + cs + [Actor(a)] == base + ActorParts(cast, a);
        BegunParts(s, m, b, cast, a);
      }
    }
  }

  lemma BegunParts(s: Scene, m: Scene, b: Scene, cast: Cast, a: nat)
    requires m == Enter(s, Actor(a), Playing) && PhaseOf(s, Actor(a)).Constructed? && Frame(m, b, Parts(cast, a))
    requires Distinct(Parts(cast, a)) && AllIn(b, Parts(cast, a), Playing) && AllIn(m, Parts(cast, a), Constructed)
    ensures Distinct(ActorParts(cast, a)) && AllIn(b, ActorParts(cast, a), Playing) && AllIn(s, ActorParts(cast, a), Constructed)
  {
    var cs, ps := Parts(cast, a), ActorParts(cast, a);
    assert Actor(a) !in cs;
    forall k | 0 <= k < |ps| ensures PhaseOf(b, ps[k]).Playing? && PhaseOf(s, ps[k]).Constructed? {
      if k < |cs| { assert ps[k] == cs[k] && PhaseOf(m, cs[k]).Constructed?; }
    }
  }

  lemma EndActorPops(s: Scene, cast: Cast, a: nat, base: seq<Part>)
    requires Open(s.trace) == Some(base + ActorParts(cast, a)) && Distinct(ActorParts(cast, a))
    requires AllIn(s, ActorParts(cast, a), Playing) && Found(Parts(cast, a), cast.lost)
    ensures var r := EndActor(s, cast, a);
            Open(r.trace) == Some(base) && AllIn(r, ActorParts(cast, a), Ended) && Frame(s, r, ActorParts(cast, a))
  {
    hide Open, EndLeaves;
    var cs := Parts(cast, a);
    assert ActorParts(cast, a)[|cs|] == Actor(a);
    assert base + ActorParts(cast, a) == (base + cs) + [Actor(a)];
    OpenFinished(s.trace, base + cs, Actor(a));
    var m := Note(Enter(s, Actor(a), Ended), Finished(Actor(a)));
    forall k | 0 <= k < |cs| ensures PhaseOf(m, cs[k]).Playing? { assert cs[k] == ActorParts(cast, a)[k]; }
    assert cs[..|cs|] == cs;
    assert Distinct(cs) by {
      forall j, k | 0 <= j < k < |cs| ensures cs[j] != cs[k] { assert ActorParts(cast, a)[j] != ActorParts(cast, a)[k]; }
    }
    EndLeavesPops(m, cs, |cs|, cast.lost, base);
  }

  // ------------------------------------------------------------------ the cascade over actors

  predicate Up(s: Scene, a: nat) { PhaseOf(s, Actor(a)).Playing? }

  /** The hooks of the playing actors among the first `k`, in order. */
  function Hooked(s: Scene, cast: Cast, actors: seq<nat>, k: nat): seq<Part>
    requires k <= |actors|
  {
    if k == 0 then [] else Hooked(s, cast, actors, k - 1) + (if Up(s, actors[k - 1]) then ActorParts(cast, actors[k - 1]) else [])
  }

  /** An actor that plays has all its parts playing and resolvable. */
  ghost predicate Whole(s: Scene, cast: Cast, a: nat) {
    Up(s, a) ==> AllIn(s, ActorParts(cast, a), Playing) && Found(ActorParts(cast, a), cast.lost)
  }

  ghost predicate Standing(s: Scene, cast: Cast, actors: seq<nat>, k: nat)
    requires k <= |actors|
  {
    (forall j :: 0 <= j < k ==> Whole(s, cast, actors[j])) && Distinct(Hooked(s, cast, actors, k))
  }

  lemma {:induction false} HookedContains(s: Scene, cast: Cast, actors: seq<nat>, k: nat, j: nat, p: Part)
    requires j < k <= |actors| && Up(s, actors[j]) && p in ActorParts(cast, actors[j])
    ensures p in Hooked(s, cast, actors, k)
  {
    hide ActorParts;
    if j < k - 1 { HookedContains(s, cast, actors, k - 1, j, p); }
  }

  lemma {:induction false} HookedPlays(s: Scene, cast: Cast, actors: seq<nat>, k: nat, p: Part)
    requires k <= |actors| && (forall j :: 0 <= j < k ==> Whole(s, cast, actors[j])) && p in Hooked(s, cast, actors, k)
    ensures PhaseOf(s, p).Playing?
  {
    hide ActorParts;
    if p in Hooked(s, cast, actors, k - 1) {
      HookedPlays(s, cast, actors, k - 1, p);
    } else {
      assert Whole(s, cast, actors[k - 1]);
    }
  }

  lemma {:induction false} HookedFrame(s: Scene, m: Scene, cast: Cast, actors: seq<nat>, k: nat)
    requires k <= |actors| && forall j :: 0 <= j < k ==> Up(s, actors[j]) == Up(m, actors[j])
    ensures Hooked(m, cast, actors, k) == Hooked(s, cast, actors, k)
  {
    hide ActorParts;
    if k > 0 { HookedFrame(s, m, cast, actors, k - 1); }
  }

  lemma DistinctParts(front: seq<Part>, back: seq<Part>)
    requires Distinct(front + back)
    ensures Distinct(front) && Distinct(back) && forall p :: p in back ==> p !in front
  {
    var all := front + back;
    forall j, k | 0 <= j < k < |front| ensures front[j] != front[k] { assert all[j] != all[k]; }
    forall j, k | 0 <= j < k < |back| ensures back[j] != back[k] { assert all[|front| + j] != all[|front| + k]; }
    forall p | p in back ensures p !in front {
      var k :| 0 <= k < |back| && back[k] == p;
      forall j | 0 <= j < |front| ensures front[j] != p { assert all[j] != all[|front| + k]; }
    }
  }

  /** Ending the last actor leaves the earlier ones standing. */
  lemma EndOneActor(s: Scene, cast: Cast, actors: seq<nat>, k: nat, base: seq<Part>)
    requires 0 < k <= |actors| && Distinct(actors) && Standing(s, cast, actors, k)
    requires Open(s.trace) == Some(base + Hooked(s, cast, actors, k))
    ensures var m := EndIfFound(s, cast, actors[k - 1]);
            && Standing(m, cast, actors, k - 1) && Open(m.trace) == Some(base + Hooked(m, cast, actors, k - 1)) && !Up(m, actors[k - 1])
            && Frame(s, m, ActorParts(cast, actors[k - 1])) && forall p :: PhaseOf(m, p).Playing? ==> PhaseOf(s, p).Playing?
  {
    hide Open, EndLeaves, Parts, Distinct, Hooked;
    var a := actors[k - 1];
    var front := Hooked(s, cast, actors, k - 1);
    HookedStep(s, cast, actors, k);
    assert Whole(s, cast, a);
    var m := EndIfFound(s, cast, a);
    if Up(s, a) {
      ActorAmongItsParts(cast, a);
      DistinctParts(front, ActorParts(cast, a));
      assert base + (front + ActorParts(cast, a)) == (base + front) + ActorParts(cast, a);
      EndActorPops(s, cast, a, base + front);
      EarlierUnaffected(s, m, cast, actors, k);
    } else {
      assert front + [] == front;
    }
  }

  lemma HookedStep(s: Scene, cast: Cast, actors: seq<nat>, k: nat)
    requires 0 < k <= |actors|
    ensures Hooked(s, cast, actors, k)
         == Hooked(s, cast, actors, k - 1) + (if Up(s, actors[k - 1]) then ActorParts(cast, actors[k - 1]) else [])
  {
  }

  lemma ActorAmongItsParts(cast: Cast, a: nat)
    ensures Actor(a) in ActorParts(cast, a) && ActorParts(cast, a)[|ActorParts(cast, a)| - 1] == Actor(a)
    ensures forall b :: Actor(b) in ActorParts(cast, a) ==> b == a
    ensures forall p :: p in ActorParts(cast, a) ==> !p.Subsystem?
    ensures Found(ActorParts(cast, a), cast.lost) ==> Found(Parts(cast, a), cast.lost) && Actor(a) !in cast.lost
  {
    var ps := ActorParts(cast, a);
    assert ps[|ps| - 1] == Actor(a);
    if Found(ps, cast.lost) {
      forall k | 0 <= k < |Parts(cast, a)| ensures Parts(cast, a)[k] !in cast.lost { assert ps[k] !in cast.lost; }
    }
  }

  lemma EarlierUnaffected(s: Scene, m: Scene, cast: Cast, actors: seq<nat>, k: nat)
    requires 0 < k <= |actors| && Distinct(actors) && Standing(s, cast, actors, k) && Up(s, actors[k - 1])
    requires Frame(s, m, ActorParts(cast, actors[k - 1]))
    ensures Standing(m, cast, actors, k - 1) && Hooked(m, cast, actors, k - 1) == Hooked(s, cast, actors, k - 1)
  {
    hide Hooked, ActorParts, Distinct;
    var a := actors[k - 1];
    HookedStep(s, cast, actors, k);
    DistinctParts(Hooked(s, cast, actors, k - 1), ActorParts(cast, a));
    ActorAmongItsParts(cast, a);
    forall j | 0 <= j < k - 1 ensures Up(m, actors[j]) == Up(s, actors[j]) && Whole(m, cast, actors[j]) {
      DistinctElements(actors, j, k - 1);
      assert Whole(s, cast, actors[j]);
      if Up(s, actors[j]) {
        forall i | 0 <= i < |ActorParts(cast, actors[j])| ensures PhaseOf(m, ActorParts(cast, actors[j])[i]).Playing? {
          HookedContains(s, cast, actors, k - 1, j, ActorParts(cast, actors[j])[i]);
        }
      }
    }
    HookedFrame(s, m, cast, actors, k - 1);
  }

  /** The reverse cascade closes exactly the hooks of the actors that play, innermost first. */
  lemma {:induction false} EndActorsPops(s: Scene, cast: Cast, actors: seq<nat>, k: nat, base: seq<Part>)
    requires k <= |actors| && Distinct(actors) && Standing(s, cast, actors, k)
    requires Open(s.trace) == Some(base + Hooked(s, cast, actors, k))
    ensures var r := EndActors(s, cast, actors, k);
            && Open(r.trace) == Some(base) && (forall p :: PhaseOf(r, p).Playing? ==> PhaseOf(s, p).Playing?)
            && (forall p: Part :: p.Subsystem? ==> PhaseOf(r, p) == PhaseOf(s, p))
            && (forall j :: 0 <= j < k ==> !Up(r, actors[j]))
    decreases k
  {
    hide Open, EndIfFound, ActorParts, Standing;
    if k == 0 {
      assert base + [] == base;
    } else {
      EndOneActor(s, cast, actors, k, base);
      ActorAmongItsParts(cast, actors[k - 1]);
      var m := EndIfFound(s, cast, actors[k - 1]);
      EndActorsPops(m, cast, actors, k - 1, base);
    }
  }

  /** Beginning one more actor on top of the standing ones. */
  lemma BeginOneActor(s: Scene, cast: Cast, actors: seq<nat>, k: nat, base: seq<Part>)
    requires k < |actors| && Distinct(actors) && Standing(s, cast, actors, k) && Actor(actors[k]) !in cast.lost && !Up(s, actors[k])
    requires Open(s.trace) == Some(base + Hooked(s, cast, actors, k))
    ensures var (m, ok) := BeginActor(s, cast, actors[k]);
            && Standing(m, cast, actors, k + 1) && Open(m.trace) == Some(base + Hooked(m, cast, actors, k + 1))
            && Up(m, actors[k]) == ok && Frame(s, m, ActorParts(cast, actors[k])) && Hooked(m, cast, actors, k) == Hooked(s, cast, actors, k)
            && (!ok ==> forall p :: PhaseOf(m, p).Playing? ==> PhaseOf(s, p).Playing?)
            && (forall p :: PhaseOf(s, p).Playing? ==> PhaseOf(m, p).Playing?)
            && Standing(m, cast, actors, k)
  {
    hide Open, BeginActor, Hooked, Distinct, ActorParts;
    var a := actors[k];
    var (m, ok) := BeginActor(s, cast, a);
    var front := Hooked(s, cast, actors, k);
    BeginActorFrame(s, cast, a);
    BeginActorPushes(s, cast, a, base + front);
    ActorAmongItsParts(cast, a);
    forall j | 0 <= j < k ensures Up(m, actors[j]) == Up(s, actors[j]) && Whole(m, cast, actors[j]) {
      DistinctElements(actors, j, k);
      assert Whole(s, cast, actors[j]);
    }
    HookedFrame(s, m, cast, actors, k);
    HookedStep(m, cast, actors, k + 1);
    if ok {
      FoundWithActor(cast, a);
      forall p | p in ActorParts(cast, a) ensures p !in front {
        if p in front { HookedPlays(s, cast, actors, k, p); }
      }
      JoinDistinct(front, ActorParts(cast, a));
      assert (base + front) + ActorParts(cast, a) == base + (front + ActorParts(cast, a));
    } else {
      assert front + [] == front;
    }
  }

  lemma FoundWithActor(cast: Cast, a: nat)
    requires Found(Parts(cast, a), cast.lost) && Actor(a) !in cast.lost
    ensures Found(ActorParts(cast, a), cast.lost)
  {
  }

  lemma JoinDistinct(front: seq<Part>, back: seq<Part>)
    requires Distinct(front) && Distinct(back) && forall p :: p in back ==> p !in front
    ensures Distinct(front + back)
  {
    var all := front + back;
    forall j, k | 0 <= j < k < |all| ensures all[j] != all[k] {
      if j < |front| <= k { assert all[k] in back && all[j] in front; }
    }
  }

  /** A failed cascade leaves nothing open; a completed one leaves every actor standing. */
  lemma {:induction false} BeginActorsPushes(s: Scene, cast: Cast, actors: seq<nat>, i: nat, base: seq<Part>)
    requires i <= |actors| && Distinct(actors) && Standing(s, cast, actors, i)
    requires (forall j :: 0 <= j < i ==> Up(s, actors[j])) && (forall a :: Up(s, a) ==> a in actors[..i])
    requires Open(s.trace) == Some(base + Hooked(s, cast, actors, i))
    ensures var (r, ok) := BeginActors(s, cast, actors, i);
            && (forall p: Part :: p.Subsystem? ==> PhaseOf(r, p) == PhaseOf(s, p))
            && (forall a :: Up(r, a) ==> ok && a in actors)
            && (ok ==> Standing(r, cast, actors, |actors|) && Open(r.trace) == Some(base + Hooked(r, cast, actors, |actors|)))
            && (!ok ==> Open(r.trace) == Some(base))
    decreases |actors| - i
  {
    hide Open, BeginActor, ActorParts, Standing, Hooked, EndActors;
    if i < |actors| {
      var a := actors[i];
      assert a !in actors[..i];
      var (b, ok) := BeginIfFound(s, cast, a);
      if Actor(a) !in cast.lost { BeginOneActor(s, cast, actors, i, base); }
      ActorAmongItsParts(cast, a);
      assert actors[..i + 1] == actors[..i] + [a];
      if ok {
        BeginActorsPushes(b, cast, actors, i + 1, base);
      } else {
        if Actor(a) !in cast.lost { FailedAddsNothing(b, cast, actors, i); }
        EndActorsPops(b, cast, actors, i, base);
        var r := EndActors(b, cast, actors, i);
        forall c ensures !Up(r, c) {
          assert (Up(r, c) ==> Up(b, c)) && (Up(b, c) ==> Up(s, c));
          if c in actors[..i] { var j :| 0 <= j < i && actors[j] == c; }
        }
      }
    }
  }

  lemma FailedAddsNothing(m: Scene, cast: Cast, actors: seq<nat>, k: nat)
    requires k < |actors| && !Up(m, actors[k])
    ensures Hooked(m, cast, actors, k + 1) == Hooked(m, cast, actors, k)
  {
  }
}
