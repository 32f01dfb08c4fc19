/**
 Nesting actor by actor. Actors retire in any order, so the trace of a whole run need not be a bracket sequence; the
 events of one actor and its components are one, in every run, until one of them is lost while it plays.
 */
module LifecycleOwners {
  import opened Basics
  import opened LifecycleModel
  import opened LifecycleProofs
  import opened LifecycleTheorems
  import opened LifecycleRuns

  // ------------------------------------------------------------------ the events of one group of parts

  function Own(trace: seq<Event>, group: seq<Part>): seq<Event> {
    if trace == [] then []
    else
      var e := trace[|trace| - 1];
      Own(trace[..|trace| - 1], group) + (if e.part in group then [e] else [])
  }

  /** The scene as this group sees it. */
  function Focus(s: Scene, group: seq<Part>): Scene { s.(trace := Own(s.trace, group)) }

  lemma OwnNote(trace: seq<Event>, e: Event, group: seq<Part>)
    ensures Own(trace + [e], group) == Own(trace, group) + (if e.part in group then [e] else [])
  {
    assert (trace + [e])[..|trace|] == trace;
  }

  lemma {:induction false} OwnOf(trace: seq<Event>, group: seq<Part>, p: Part)
    requires p in group
    ensures Of(Own(trace, group), p) == Of(trace, p)
  {
    if trace != [] {
      var before, e := trace[..|trace| - 1], trace[|trace| - 1];
      OwnOf(before, group, p);
      if e.part in group { OfNote(Own(before, group), e, p); } else { assert Own(trace, group) == Own(before, group); }
    }
  }

  // ------------------------------------------------------------------ cascades inside the group

  lemma {:induction false} FocusEndLeaves(s: Scene, ps: seq<Part>, k: nat, lost: set<Part>, group: seq<Part>)
    requires k <= |ps| && forall p :: p in ps ==> p in group
    ensures EndLeaves(Focus(s, group), ps, k, lost) == Focus(EndLeaves(s, ps, k, lost), group)
    decreases k
  {
    hide Own;
    if k > 0 {
      var p := ps[k - 1];
      OwnNote(s.trace, Finished(p), group);
      FocusEndLeaves(if p in lost then s else EndLeaf(s, p), ps, k - 1, lost, group);
    }
  }

  lemma {:induction false} FocusBeginLeaves(s: Scene, ps: seq<Part>, i: nat, lost: set<Part>, group: seq<Part>)
    requires i <= |ps| && forall p :: p in ps ==> p in group
    ensures BeginLeaves(Focus(s, group), ps, i, lost)
         == (Focus(BeginLeaves(s, ps, i, lost).0, group), BeginLeaves(s, ps, i, lost).1)
    decreases |ps| - i
  {
    hide Own, EndLeaves;
    if i < |ps| {
      OwnNote(s.trace, Began(ps[i]), group);
      var (b, ok) := if ps[i] in lost then (s, false) else BeginLeaf(s, ps[i]);
      if ok { FocusBeginLeaves(b, ps, i + 1, lost, group); } else { FocusEndLeaves(b, ps, i, lost, group); }
    }
  }

  lemma FocusBeginActor(s: Scene, cast: Cast, a: nat)
    ensures var g := ActorParts(cast, a);
            BeginActor(Focus(s, g), cast, a) == (Focus(BeginActor(s, cast, a).0, g), BeginActor(s, cast, a).1)
  {
    hide Own, BeginLeaves;
    var g, m := ActorParts(cast, a), Enter(s, Actor(a), Playing);
    ActorAmongItsParts(cast, a);
    FocusBeginLeaves(m, Parts(cast, a), 0, cast.lost, g);
    OwnNote(BeginLeaves(m, Parts(cast, a), 0, cast.lost).0.trace, Began(Actor(a)), g);
  }

  lemma FocusEndActor(s: Scene, cast: Cast, a: nat)
    ensures var g := ActorParts(cast, a); EndActor(Focus(s, g), cast, a) == Focus(EndActor(s, cast, a), g)
  {
    hide Own, EndLeaves;
    var g := ActorParts(cast, a);
    ActorAmongItsParts(cast, a);
    OwnNote(s.trace, Finished(Actor(a)), g);
    FocusEndLeaves(Note(Enter(s, Actor(a), Ended), Finished(Actor(a))), Parts(cast, a), |Parts(cast, a)|, cast.lost, g);
  }

  // ------------------------------------------------------------------ cascades outside the group

  ghost predicate Outside(ps: seq<Part>, group: seq<Part>) { forall p :: p in ps ==> p !in group }

  lemma {:induction false} EndLeavesOutside(s: Scene, ps: seq<Part>, k: nat, lost: set<Part>, group: seq<Part>)
    requires k <= |ps| && Outside(ps, group)
    ensures Own(EndLeaves(s, ps, k, lost).trace, group) == Own(s.trace, group)
    decreases k
  {
    hide Own;
    if k > 0 {
      OwnNote(s.trace, Finished(ps[k - 1]), group);
      EndLeavesOutside(if ps[k - 1] in lost then s else EndLeaf(s, ps[k - 1]), ps, k - 1, lost, group);
    }
  }

  lemma {:induction false} BeginLeavesOutside(s: Scene, ps: seq<Part>, i: nat, lost: set<Part>, group: seq<Part>)
    requires i <= |ps| && Outside(ps, group)
    ensures Own(BeginLeaves(s, ps, i, lost).0.trace, group) == Own(s.trace, group)
    decreases |ps| - i
  {
    hide Own, EndLeaves;
    if i < |ps| {
      OwnNote(s.trace, Began(ps[i]), group);
      var (b, ok) := if ps[i] in lost then (s, false) else BeginLeaf(s, ps[i]);
      if ok { BeginLeavesOutside(b, ps, i + 1, lost, group); } else { EndLeavesOutside(b, ps, i, lost, group); }
    }
  }

  lemma BeginActorOutside(s: Scene, cast: Cast, b: nat, group: seq<Part>)
    requires Outside(ActorParts(cast, b), group)
    ensures Own(BeginActor(s, cast, b).0.trace, group) == Own(s.trace, group)
  {
    hide Own, BeginLeaves;
    var m := Enter(s, Actor(b), Playing);
    ActorAmongItsParts(cast, b);
    BeginLeavesOutside(m, Parts(cast, b), 0, cast.lost, group);
    OwnNote(BeginLeaves(m, Parts(cast, b), 0, cast.lost).0.trace, Began(Actor(b)), group);
  }

  lemma EndActorOutside(s: Scene, cast: Cast, b: nat, group: seq<Part>)
    requires Outside(ActorParts(cast, b), group)
    ensures Own(EndActor(s, cast, b).trace, group) == Own(s.trace, group)
  {
    hide Own, EndLeaves;
    ActorAmongItsParts(cast, b);
    OwnNote(s.trace, Finished(Actor(b)), group);
    EndLeavesOutside(Note(Enter(s, Actor(b), Ended), Finished(Actor(b))), Parts(cast, b), |Parts(cast, b)|, cast.lost, group);
  }

  // ------------------------------------------------------------------ one actor, at any time

  /** Registration gives a component to one actor only. */
  ghost predicate OwnedOnce(cast: Cast) { forall a, b, p :: a != b && p in Parts(cast, a) ==> p !in Parts(cast, b) }

  /** A part of the actor plays although its reference is lost, so nothing can end it. */
  ghost predicate Stuck(s: Scene, cast: Cast, a: nat) {
    exists p :: p in ActorParts(cast, a) && PhaseOf(s, p).Playing? && p in cast.lost
  }

  /** The events of the actor's parts nest; all of its hooks are open while it plays, and none before and after. */
  ghost predicate Nested(s: Scene, cast: Cast, a: nat) {
    && Open(Own(s.trace, ActorParts(cast, a))) == Some(if Up(s, a) then ActorParts(cast, a) else [])
    && (Up(s, a) ==> Distinct(ActorParts(cast, a)) && AllIn(s, ActorParts(cast, a), Playing))
  }

  ghost predicate NestedOrStuck(s: Scene, cast: Cast, a: nat) { Stuck(s, cast, a) || Nested(s, cast, a) }

  lemma OthersAreOutside(cast: Cast, a: nat, b: nat)
    requires OwnedOnce(cast) && a != b
    ensures Outside(ActorParts(cast, b), ActorParts(cast, a))
  {
  }

  /** Nothing about the group has changed. */
  lemma SameGroup(s: Scene, r: Scene, cast: Cast, a: nat)
    requires NestedOrStuck(s, cast, a) && Own(r.trace, ActorParts(cast, a)) == Own(s.trace, ActorParts(cast, a))
    requires forall p :: p in ActorParts(cast, a) ==> PhaseOf(r, p) == PhaseOf(s, p)
    ensures NestedOrStuck(r, cast, a)
  {
    hide Open, Own, ActorParts, Distinct;
    ActorAmongItsParts(cast, a);
  }

  lemma BeginActorNests(s: Scene, cast: Cast, a: nat, b: nat)
    requires OwnedOnce(cast) && NestedOrStuck(s, cast, a)
    ensures NestedOrStuck(BeginActor(s, cast, b).0, cast, a)
  {
    hide Open, Own, BeginActor, Distinct, OwnedOnce;
    var g, r := ActorParts(cast, a), BeginActor(s, cast, b).0;
    BeginActorFrame(s, cast, b);
    if b != a {
      OthersAreOutside(cast, a, b);
      BeginActorOutside(s, cast, b, g);
      SameGroup(s, r, cast, a);
    } else if Stuck(s, cast, a) {
      var p :| p in g && PhaseOf(s, p).Playing? && p in cast.lost;
      assert PhaseOf(r, p).Playing?;
    } else if Up(s, a) {
      AlreadyBegun(s, cast, a);
    } else {
      FocusBeginActor(s, cast, a);
      BeginActorPushes(Focus(s, g), cast, a, []);
      FocusPhases(s, g);
      FocusPhases(r, g);
      assert [] + g == g;
    }
  }

  lemma AlreadyBegun(s: Scene, cast: Cast, a: nat)
    requires Up(s, a)
    ensures BeginActor(s, cast, a).0 == s
  {
  }

  lemma FocusPhases(s: Scene, g: seq<Part>)
    ensures forall p :: PhaseOf(Focus(s, g), p) == PhaseOf(s, p)
  {
  }

  lemma EndActorNests(s: Scene, cast: Cast, a: nat, b: nat)
    requires OwnedOnce(cast) && NestedOrStuck(s, cast, a) && Actor(b) !in cast.lost
    ensures NestedOrStuck(EndActor(s, cast, b), cast, a)
  {
    hide Open, Own, EndActor, Distinct, OwnedOnce;
    var g, r := ActorParts(cast, a), EndActor(s, cast, b);
    EndActorFrame(s, cast, b);
    if b != a {
      OthersAreOutside(cast, a, b);
      EndActorOutside(s, cast, b, g);
      SameGroup(s, r, cast, a);
    } else if Stuck(s, cast, a) {
      var p :| p in g && PhaseOf(s, p).Playing? && p in cast.lost;
      assert PhaseOf(r, p).Playing?;
    } else if Up(s, a) {
      ActorAmongItsParts(cast, a);
      FocusEndActor(s, cast, a);
      FocusPhases(s, g);
      FocusPhases(r, g);
      assert [] + g == g;
      EndActorPops(Focus(s, g), cast, a, []);
    } else {
      NothingToEnd(s, cast, a);
    }
  }

  lemma NothingToEnd(s: Scene, cast: Cast, a: nat)
    requires !Up(s, a)
    ensures EndActor(s, cast, a) == s
  {
  }

  // ------------------------------------------------------------------ the cascades of the world

  lemma SubsystemsAreOutside(ps: seq<Part>, cast: Cast, a: nat)
    requires forall k :: 0 <= k < |ps| ==> ps[k].Subsystem?
    ensures Outside(ps, ActorParts(cast, a))
  {
    ActorAmongItsParts(cast, a);
  }

  lemma EndSubsystemsNests(s: Scene, ps: seq<Part>, cast: Cast, a: nat)
    requires (forall k :: 0 <= k < |ps| ==> ps[k].Subsystem?) && NestedOrStuck(s, cast, a)
    ensures NestedOrStuck(EndLeaves(s, ps, |ps|, cast.lost), cast, a)
  {
    hide Open, Own, EndLeaves, ActorParts, NestedOrStuck;
    SubsystemsAreOutside(ps, cast, a);
    EndLeavesOutside(s, ps, |ps|, cast.lost, ActorParts(cast, a));
    EndLeavesFrame(s, ps, |ps|, cast.lost);
    SameGroup(s, EndLeaves(s, ps, |ps|, cast.lost), cast, a);
  }

  lemma BeginSubsystemsNests(s: Scene, ps: seq<Part>, cast: Cast, a: nat)
    requires (forall k :: 0 <= k < |ps| ==> ps[k].Subsystem?) && NestedOrStuck(s, cast, a)
    ensures NestedOrStuck(BeginLeaves(s, ps, 0, cast.lost).0, cast, a)
  {
    hide Open, Own, BeginLeaves, ActorParts, NestedOrStuck;
    SubsystemsAreOutside(ps, cast, a);
    BeginLeavesOutside(s, ps, 0, cast.lost, ActorParts(cast, a));
    BeginLeavesFrame(s, ps, 0, cast.lost);
    SameGroup(s, BeginLeaves(s, ps, 0, cast.lost).0, cast, a);
  }

  lemma {:induction false} EndActorsNests(s: Scene, cast: Cast, actors: seq<nat>, k: nat, a: nat)
    requires k <= |actors| && OwnedOnce(cast) && NestedOrStuck(s, cast, a)
    ensures NestedOrStuck(EndActors(s, cast, actors, k), cast, a)
    decreases k
  {
    hide NestedOrStuck, EndActor, OwnedOnce;
    if k > 0 {
      if Actor(actors[k - 1]) !in cast.lost { EndActorNests(s, cast, a, actors[k - 1]); }
      EndActorsNests(EndIfFound(s, cast, actors[k - 1]), cast, actors, k - 1, a);
    }
  }

  lemma {:induction false} BeginActorsNests(s: Scene, cast: Cast, actors: seq<nat>, i: nat, a: nat)
    requires i <= |actors| && OwnedOnce(cast) && NestedOrStuck(s, cast, a)
    ensures NestedOrStuck(BeginActors(s, cast, actors, i).0, cast, a)
    decreases |actors| - i
  {
    hide NestedOrStuck, BeginActor, EndActors, OwnedOnce;
    if i < |actors| {
      BeginActorNests(s, cast, a, actors[i]);
      var (b, ok) := BeginIfFound(s, cast, actors[i]);
      if ok { BeginActorsNests(b, cast, actors, i + 1, a); } else { EndActorsNests(b, cast, actors, i, a); }
    }
  }

  lemma {:induction false} PublishNests(w: PlayWorld, deferred: seq<nat>, k: nat, a: nat)
    requires k <= |deferred| && OwnedOnce(w.cast) && NestedOrStuck(w.scene, w.cast, a)
    ensures var m := PublishDeferred(w, deferred, k).0;
            NestedOrStuck(m.scene, w.cast, a) && m == w.(scene := m.scene, live := m.live)
  {
    hide NestedOrStuck, BeginActor, OwnedOnce;
    if k > 0 {
      PublishNests(w, deferred, k - 1, a);
      BeginActorNests(PublishDeferred(w, deferred, k - 1).0.scene, w.cast, a, deferred[k - 1]);
    }
  }

  lemma EndAllNests(w: PlayWorld, a: nat)
    requires OwnedOnce(w.cast) && NestedOrStuck(w.scene, w.cast, a) && forall k :: 0 <= k < |w.subsystems| ==> w.subsystems[k].Subsystem?
    ensures NestedOrStuck(EndAll(w), w.cast, a)
  {
    hide NestedOrStuck, EndActors, EndLeaves, OwnedOnce;
    EndActorsNests(w.scene, w.cast, w.live, |w.live|, a);
    EndSubsystemsNests(EndActors(w.scene, w.cast, w.live, |w.live|), w.subsystems, w.cast, a);
  }

  lemma BeginPlayNests(w: PlayWorld, deferred: seq<nat>, gates: Gates, a: nat)
    requires OwnedOnce(w.cast) && NestedOrStuck(w.scene, w.cast, a) && forall k :: 0 <= k < |w.subsystems| ==> w.subsystems[k].Subsystem?
    ensures var r := BeginPlay(w, deferred, gates).0;
            NestedOrStuck(r.scene, r.cast, a) && r.cast == w.cast && r.subsystems == w.subsystems
  {
    hide NestedOrStuck, BeginLeaves, BeginActors, EndLeaves, PublishDeferred, EndAll, OwnedOnce;
    BeginSubsystemsNests(w.scene, w.subsystems, w.cast, a);
    var s := BeginLeaves(w.scene, w.subsystems, 0, w.cast.lost).0;
    BeginActorsNests(s, w.cast, w.live, 0, a);
    var b := BeginActors(s, w.cast, w.live, 0).0;
    EndSubsystemsNests(b, w.subsystems, w.cast, a);
    PublishNests(w.(scene := b), deferred, |deferred|, a);
    EndAllNests(PublishDeferred(w.(scene := b), deferred, |deferred|).0, a);
  }

  lemma ActNests(w: PlayWorld, act: PlayAction, a: nat)
    requires OwnedOnce(w.cast) && NestedOrStuck(w.scene, w.cast, a)
    ensures var r := Act(w, act); OwnedOnce(r.cast) && NestedOrStuck(r.scene, r.cast, a) && r.subsystems == w.subsystems
  {
    hide NestedOrStuck, BeginActor, EndActor, Unlisted, Open, Own;
    match act
    case Spawn(b) => BeginActorNests(w.scene, w.cast, a, b);
    case Retire(b) => if Actor(b) !in w.cast.lost { EndActorNests(w.scene, w.cast, a, b); }
    case Lose(p) => LoseNests(w, p, a);
  }

  lemma LoseNests(w: PlayWorld, p: Part, a: nat)
    requires OwnedOnce(w.cast) && NestedOrStuck(w.scene, w.cast, a)
    ensures var r := Act(w, Lose(p)); OwnedOnce(r.cast) && NestedOrStuck(r.scene, r.cast, a)
  {
    hide Open, Own, Distinct;
    var r := Act(w, Lose(p));
    forall b ensures Parts(r.cast, b) == Parts(w.cast, b) {}
    assert ActorParts(r.cast, a) == ActorParts(w.cast, a);
  }

  lemma {:induction false} RunNests(w: PlayWorld, acts: seq<PlayAction>, a: nat)
    requires OwnedOnce(w.cast) && NestedOrStuck(w.scene, w.cast, a)
    ensures var r := RunPlay(w, acts); OwnedOnce(r.cast) && NestedOrStuck(r.scene, r.cast, a) && r.subsystems == w.subsystems
  {
    hide NestedOrStuck, OwnedOnce, Act;
    if acts != [] {
      RunNests(w, acts[..|acts| - 1], a);
      ActNests(RunPlay(w, acts[..|acts| - 1]), acts[|acts| - 1], a);
    }
  }

  lemma NewIsNested(w: PlayWorld, a: nat)
    requires Unstarted(w) && w.scene.trace == []
    ensures NestedOrStuck(w.scene, w.cast, a)
  {
  }

  /**
   Over any begin of play and any play: the events of an actor and its components nest at every moment, with all of
   their hooks open while it plays and none otherwise, unless one of them is lost while it plays.
   */
  lemma OwnersNest(w: PlayWorld, deferred: seq<nat>, gates: Gates, acts: seq<PlayAction>, a: nat)
    requires Unstarted(w) && w.scene.trace == [] && OwnedOnce(w.cast)
    ensures var r := RunPlay(BeginPlay(w, deferred, gates).0, acts); NestedOrStuck(r.scene, r.cast, a)
  {
    hide BeginPlay, RunPlay, NestedOrStuck;
    NewIsNested(w, a);
    BeginPlayNests(w, deferred, gates, a);
    RunNests(BeginPlay(w, deferred, gates).0, acts, a);
  }

  lemma StuckStays(w: PlayWorld, a: nat)
    requires Stuck(w.scene, w.cast, a)
    ensures Stuck(EndAll(w), w.cast, a)
  {
    hide EndAll, ActorParts;
    var p :| p in ActorParts(w.cast, a) && PhaseOf(w.scene, p).Playing? && p in w.cast.lost;
    LostStaysOpen(w, p);
  }

  lemma StuckIsUnbalanced(s: Scene, cast: Cast, a: nat)
    requires Agree(s, {}) && Stuck(s, cast, a)
    ensures !Balanced(Own(s.trace, ActorParts(cast, a)))
  {
    hide Open, Own, Of, Life, ActorParts;
    var p :| p in ActorParts(cast, a) && PhaseOf(s, p).Playing? && p in cast.lost;
    OwnOf(s.trace, ActorParts(cast, a), p);
    if Balanced(Own(s.trace, ActorParts(cast, a))) { OpenMeansAlive(Own(s.trace, ActorParts(cast, a)), p, PhaseOf(s, p)); }
  }

  lemma NestedDownIsBalanced(s: Scene, cast: Cast, a: nat)
    requires Nested(s, cast, a) && !Up(s, a)
    ensures Balanced(Own(s.trace, ActorParts(cast, a)))
  {
  }

  lemma OnlyLostActorsAreAbandoned(cast: Cast, a: nat)
    ensures Abandoned(cast, Actor(a)) ==> Actor(a) in cast.lost
  {
  }

  /** After the end of play an actor that is not stuck has ended. */
  lemma LeftDown(r: PlayWorld, a: nat)
    requires Tethered(r) && !Stuck(r.scene, r.cast, a)
    requires NestedOrStuck(r.scene, r.cast, a) && NestedOrStuck(EndAll(r), r.cast, a)
    ensures var e := EndPlay(r, true).0.scene; Nested(e, r.cast, a) && !Up(e, a)
  {
    hide EndActors, EndLeaves, Nested, Parts, Abandoned, ActorParts, EndAll;
    ActorAmongItsParts(r.cast, a);
    OnlyLostActorsAreAbandoned(r.cast, a);
    EndAllOnlyEnds(r);
    if r.phase.Playing? {
      assert !Stuck(EndAll(r), r.cast, a);
      if Up(EndAll(r), a) { EndAllEndsTethered(r, Actor(a)); }
    } else {
      if Up(r.scene, a) { TetheredOutOfPlay(r, Actor(a)); }
    }
  }

  lemma EndAllOnlyEnds(w: PlayWorld)
    ensures forall p :: PhaseOf(EndAll(w), p).Playing? ==> PhaseOf(w.scene, p).Playing?
  {
    hide EndActors, EndLeaves;
    EndActorsEffect(w.scene, w.cast, w.live, |w.live|);
    EndLeavesFrame(EndActors(w.scene, w.cast, w.live, |w.live|), w.subsystems, |w.subsystems|, w.cast.lost);
  }

  /** At the end of play the events of an actor's parts balance exactly when none of them was lost while it played. */
  lemma OwnersBalanceIffNothingIsLost(w: PlayWorld, deferred: seq<nat>, gates: Gates, acts: seq<PlayAction>, a: nat)
    requires Unstarted(w) && Agree(w.scene, {}) && w.scene.trace == [] && OwnedOnce(w.cast) && Distinct(w.live + deferred)
    ensures var r := RunPlay(BeginPlay(w, deferred, gates).0, acts);
            Balanced(Own(EndPlay(r, true).0.scene.trace, ActorParts(r.cast, a))) <==> !Stuck(r.scene, r.cast, a)
  {
    hide BeginPlay, RunPlay, NestedOrStuck, Nested, Stuck, Balanced, Agree, Abandoned, Own, ActorParts, EndAll, InPlay, OwnedOnce, Tethered;
    var b := BeginPlay(w, deferred, gates).0;
    var r := RunPlay(b, acts);
    NewIsNested(w, a);
    BeginPlayNests(w, deferred, gates, a);
    RunNests(b, acts, a);
    RunEndsTethered(w, deferred, gates, acts);
    BeginPlayAgrees(w, deferred, gates);
    RunAgrees(b, acts);
    EndAllAgrees(r);
    EndAllNests(r, a);
    if Stuck(r.scene, r.cast, a) {
      StuckStays(r, a);
      StuckIsUnbalanced(EndPlay(r, true).0.scene, r.cast, a);
    } else {
      LeftDown(r, a);
      NestedDownIsBalanced(EndPlay(r, true).0.scene, r.cast, a);
    }
  }
}
