/** Begin and end of play are a balanced bracket sequence, and over any run each part begins and ends at most once. */
module LifecycleTheorems {
  import opened Basics
  import opened LifecycleModel
  import opened LifecycleProofs

  // ------------------------------------------------------------------ begin and end of play

  ghost predicate WellCast(w: PlayWorld) { Distinct(w.live) && forall k :: 0 <= k < |w.subsystems| ==> w.subsystems[k].Subsystem? }

  /** Nothing has begun yet. */
  ghost predicate Unstarted(w: PlayWorld) {
    WellCast(w) && w.phase.Constructed? && Balanced(w.scene.trace) && forall p :: !PhaseOf(w.scene, p).Playing?
  }

  /** All subsystems play; the open hooks are theirs, then those of the playing actors in registration order. */
  ghost predicate InPlay(w: PlayWorld) {
    && WellCast(w) && Standing(w.scene, w.cast, w.live, |w.live|)
    && Distinct(w.subsystems) && AllIn(w.scene, w.subsystems, Playing) && Found(w.subsystems, w.cast.lost)
    && Open(w.scene.trace) == Some(w.subsystems + Hooked(w.scene, w.cast, w.live, |w.live|))
    && forall a :: Up(w.scene, a) ==> a in w.live
  }

  lemma EndAllBalances(w: PlayWorld)
    requires InPlay(w)
    ensures Balanced(EndAll(w).trace)
  {
    hide Open, EndActors, EndLeaves, Standing, Distinct;
    EndActorsPops(w.scene, w.cast, w.live, |w.live|, w.subsystems);
    var m := EndActors(w.scene, w.cast, w.live, |w.live|);
    assert w.subsystems[..|w.subsystems|] == w.subsystems && [] + w.subsystems == w.subsystems;
    EndLeavesPops(m, w.subsystems, |w.subsystems|, w.cast.lost, []);
  }

  /** The registration of a deferred actor on top of a world in play. */
  lemma PublishOne(w: PlayWorld, a: nat)
    requires InPlay(w) && a !in w.live && Actor(a) !in w.cast.lost
    ensures var (s, ok) := BeginActor(w.scene, w.cast, a);
            InPlay(w.(scene := s, live := w.live + [a]))
  {
    hide Open, BeginActor, Hooked, Standing, Distinct;
    var actors := w.live + [a];
    DistinctAppend(w.live, a);
    SameActors(w.scene, w.cast, w.live, a);
    BeginOneActor(w.scene, w.cast, actors, |w.live|, w.subsystems);
    ActorAmongItsParts(w.cast, a);
    var (s, ok) := BeginActor(w.scene, w.cast, a);
    forall b | Up(s, b) ensures b in actors { if b != a { assert Up(w.scene, b); } }
  }

  lemma {:induction false} HookedOfPrefix(s: Scene, cast: Cast, actors: seq<nat>, more: seq<nat>, k: nat)
    requires k <= |actors|
    ensures Hooked(s, cast, actors + more, k) == Hooked(s, cast, actors, k)
  {
    hide ActorParts;
    if k > 0 { HookedOfPrefix(s, cast, actors, more, k - 1); }
  }

  lemma SameActors(s: Scene, cast: Cast, actors: seq<nat>, a: nat)
    requires Standing(s, cast, actors, |actors|)
    ensures Standing(s, cast, actors + [a], |actors|)
    ensures Hooked(s, cast, actors + [a], |actors|) == Hooked(s, cast, actors, |actors|)
  {
    hide Hooked, Whole, Distinct;
    HookedOfPrefix(s, cast, actors, [a], |actors|);
    forall j | 0 <= j < |actors| ensures Whole(s, cast, (actors + [a])[j]) { assert Whole(s, cast, actors[j]); }
  }

  lemma {:induction false} PublishKeepsPlay(w: PlayWorld, deferred: seq<nat>, k: nat)
    requires k <= |deferred| && InPlay(w) && Distinct(w.live + deferred)
    ensures var m := PublishDeferred(w, deferred, k).0;
            InPlay(m) && m.cast == w.cast && m.subsystems == w.subsystems && forall a :: a in m.live ==> a in w.live || a in deferred[..k]
  {
    hide InPlay, BeginActor;
    if k > 0 {
      PublishKeepsPlay(w, deferred, k - 1);
      var m, a := PublishDeferred(w, deferred, k - 1).0, deferred[k - 1];
      assert deferred[..k] == deferred[..k - 1] + [a];
      if Actor(a) !in w.cast.lost {
        NotYetLive(w.live, deferred, k - 1);
        PublishOne(m, a);
      }
    }
  }

  lemma NotYetLive(live: seq<nat>, deferred: seq<nat>, k: nat)
    requires k < |deferred| && Distinct(live + deferred)
    ensures deferred[k] !in live && deferred[k] !in deferred[..k]
  {
    var all := live + deferred;
    assert all[|live| + k] == deferred[k];
    forall j | 0 <= j < |live| ensures live[j] != deferred[k] { assert all[j] != all[|live| + k]; }
    forall j | 0 <= j < k ensures deferred[j] != deferred[k] { assert all[|live| + j] != all[|live| + k]; }
  }

  lemma SubsystemsFirst(w: PlayWorld)
    requires Unstarted(w)
    ensures var (s, ok) := BeginLeaves(w.scene, w.subsystems, 0, w.cast.lost);
            && (!ok ==> Balanced(s.trace))
            && (ok ==> Open(s.trace) == Some(w.subsystems) && Distinct(w.subsystems) && AllIn(s, w.subsystems, Playing)
                       && Found(w.subsystems, w.cast.lost) && forall a :: !Up(s, a))
  {
    hide Open, BeginLeaves;
    assert [] + w.subsystems[..0] == [] && [] + w.subsystems == w.subsystems;
    BeginLeavesPushes(w.scene, w.subsystems, 0, w.cast.lost, []);
    BeginLeavesFrame(w.scene, w.subsystems, 0, w.cast.lost);
    var s := BeginLeaves(w.scene, w.subsystems, 0, w.cast.lost).0;
    forall a ensures !Up(s, a) || !BeginLeaves(w.scene, w.subsystems, 0, w.cast.lost).1 { assert Actor(a) !in w.subsystems; }
  }

  /**
   Whatever fails while play begins, the hooks that ran form a balanced bracket sequence; if nothing fails, the
   open hooks are those of the subsystems and then of the actors, each actor's components before its own.
   */
  lemma BeginPlayIsAtomic(w: PlayWorld, deferred: seq<nat>, gates: Gates)
    requires Unstarted(w) && Distinct(w.live + deferred)
    ensures var (r, result) := BeginPlay(w, deferred, gates);
            if result == Success then InPlay(r) && r.phase.Playing? else Balanced(r.scene.trace) && !r.phase.Playing?
  {
    hide Open, BeginLeaves, BeginActors, EndLeaves, EndActors, PublishDeferred, EndAll, Standing, Distinct;
    SubsystemsFirst(w);
    var (s, subsystemsOk) := BeginLeaves(w.scene, w.subsystems, 0, w.cast.lost);
    if subsystemsOk {
      StandingNone(s, w.cast, w.live);
      assert w.subsystems + [] == w.subsystems;
      BeginActorsPushes(s, w.cast, w.live, 0, w.subsystems);
      var (b, actorsOk) := BeginActors(s, w.cast, w.live, 0);
      if actorsOk {
        var p := w.(scene := b);
        assert InPlay(p);
        PublishKeepsPlay(p, deferred, |deferred|);
        var d := PublishDeferred(p, deferred, |deferred|).0;
        EndAllBalances(d);
      } else {
        assert w.subsystems[..|w.subsystems|] == w.subsystems && [] + w.subsystems == w.subsystems;
        EndLeavesPops(b, w.subsystems, |w.subsystems|, w.cast.lost, []);
      }
    }
  }

  lemma StandingNone(s: Scene, cast: Cast, actors: seq<nat>)
    ensures Standing(s, cast, actors, 0) && Hooked(s, cast, actors, 0) == []
  {
  }

  /** Begin of play followed by end of play is balanced, whether or not the begin succeeded. */
  lemma PlayIsBalanced(w: PlayWorld, deferred: seq<nat>, gates: Gates)
    requires Unstarted(w) && Distinct(w.live + deferred)
    ensures Balanced(EndPlay(BeginPlay(w, deferred, gates).0, true).0.scene.trace)
  {
    hide InPlay, BeginPlay, EndAll;
    BeginPlayIsAtomic(w, deferred, gates);
    var (r, result) := BeginPlay(w, deferred, gates);
    if result == Success { EndAllBalances(r); }
  }

  // ------------------------------------------------------------------ what the end of play reports

  lemma CanEndStays(s: Scene, p: Part)
    ensures forall q :: CanEnd(PhaseOf(EndLeaf(s, p), q)) == CanEnd(PhaseOf(s, q))
  {
  }

  lemma {:induction false} EndLeavesReports(s: Scene, ps: seq<Part>, k: nat, lost: set<Part>, missing: RuntimeResult)
    requires k <= |ps|
    ensures EndLeavesResult(s, ps, k, lost, missing) == Success <==>
            forall j :: 0 <= j < k ==> if ps[j] in lost then missing == Success else CanEnd(PhaseOf(s, ps[j]))
    decreases k
  {
    if k > 0 {
      CanEndStays(s, ps[k - 1]);
      EndLeavesReports(if ps[k - 1] in lost then s else EndLeaf(s, ps[k - 1]), ps, k - 1, lost, missing);
    }
  }

  lemma {:induction false} CanEndThroughLeaves(s: Scene, ps: seq<Part>, k: nat, lost: set<Part>)
    requires k <= |ps|
    ensures forall q :: CanEnd(PhaseOf(EndLeaves(s, ps, k, lost), q)) == CanEnd(PhaseOf(s, q))
    decreases k
  {
    if k > 0 { CanEndThroughLeaves(if ps[k - 1] in lost then s else EndLeaf(s, ps[k - 1]), ps, k - 1, lost); }
  }

  /** An actor ends without an error: it plays or has ended, and if it plays so do its resolvable components. */
  ghost predicate EndsWell(s: Scene, cast: Cast, a: nat) {
    && CanEnd(PhaseOf(s, Actor(a)))
    && (Up(s, a) ==> forall p :: p in Parts(cast, a) && p !in cast.lost ==> CanEnd(PhaseOf(s, p)))
  }

  lemma EndActorReports(s: Scene, cast: Cast, a: nat)
    ensures EndActorResult(s, cast, a) == Success <==> EndsWell(s, cast, a)
    ensures forall q :: CanEnd(PhaseOf(EndActor(s, cast, a), q)) == CanEnd(PhaseOf(s, q))
    ensures forall b :: b != a ==> Up(EndActor(s, cast, a), b) == Up(s, b)
    ensures !Up(EndActor(s, cast, a), a)
  {
    hide EndLeaves, EndLeavesResult;
    if Up(s, a) {
      var m, ps := Note(Enter(s, Actor(a), Ended), Finished(Actor(a))), Parts(cast, a);
      EndLeavesReports(m, ps, |ps|, cast.lost, Success);
      CanEndThroughLeaves(m, ps, |ps|, cast.lost);
      EndLeavesFrame(m, ps, |ps|, cast.lost);
      assert forall q :: CanEnd(PhaseOf(m, q)) == CanEnd(PhaseOf(s, q));
      assert forall j :: 0 <= j < |ps| ==> ps[j] in ps;
    }
  }

  lemma {:induction false} EndActorsReport(s: Scene, cast: Cast, actors: seq<nat>, k: nat)
    requires k <= |actors|
    ensures EndActorsResult(s, cast, actors, k) == Success <==>
            forall j :: 0 <= j < k && Actor(actors[j]) !in cast.lost ==> EndsWell(s, cast, actors[j])
    ensures forall q :: CanEnd(PhaseOf(EndActors(s, cast, actors, k), q)) == CanEnd(PhaseOf(s, q))
    decreases k
  {
    hide EndActor, EndActorResult, Parts;
    if k > 0 {
      var a := actors[k - 1];
      var m := EndIfFound(s, cast, a);
      EndActorReports(s, cast, a);
      EndActorsReport(m, cast, actors, k - 1);
      if EndsWell(s, cast, a) || Actor(a) in cast.lost {
        forall b | b != a || Actor(a) in cast.lost ensures EndsWell(m, cast, b) == EndsWell(s, cast, b) {}
        if Actor(a) !in cast.lost { assert EndsWell(m, cast, a); }
      }
    }
  }

  /**
   The end of play reports no error exactly when every registered actor that resolves ends without one and every
   subsystem resolves and plays or has ended. It ends what it can in any case.
   */
  lemma EndPlaySucceedsIff(w: PlayWorld)
    requires w.phase.Playing?
    ensures EndPlay(w, true).1 == Success <==>
            && (forall j :: 0 <= j < |w.live| && Actor(w.live[j]) !in w.cast.lost ==> EndsWell(w.scene, w.cast, w.live[j]))
            && (forall j :: 0 <= j < |w.subsystems| ==> w.subsystems[j] !in w.cast.lost && CanEnd(PhaseOf(w.scene, w.subsystems[j])))
  {
    hide EndActors, EndActorsResult, EndLeaves, EndLeavesResult, EndsWell;
    EndActorsReport(w.scene, w.cast, w.live, |w.live|);
    EndLeavesReports(EndActors(w.scene, w.cast, w.live, |w.live|), w.subsystems, |w.subsystems|, w.cast.lost, InvalidLifecycle);
  }
}
