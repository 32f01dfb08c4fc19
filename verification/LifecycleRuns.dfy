/** Whole runs: every part's hooks are the life its phase tells, and what end of play leaves open is exactly what was lost. */
module LifecycleRuns {
  import opened Basics
  import opened LifecycleModel
  import opened LifecycleProofs
  import opened LifecycleTheorems

  // ------------------------------------------------------------------ one life per part

  /** Phases and trace agree, except that the parts in `busy` are in the middle of their own begin. */
  ghost predicate Agree(s: Scene, busy: set<Part>) {
    forall p :: p !in busy ==> Of(s.trace, p) == Life(p, PhaseOf(s, p))
  }

  lemma OfNote(trace: seq<Event>, e: Event, p: Part)
    ensures Of(trace + [e], p) == Of(trace, p) + (if e.part == p then [e] else [])
  {
    assert (trace + [e])[..|trace|] == trace;
  }

  lemma BeginLeafAgrees(s: Scene, p: Part, busy: set<Part>)
    requires Agree(s, busy) && p !in busy
    ensures Agree(BeginLeaf(s, p).0, busy)
  {
    hide Of;
    forall q | q !in busy ensures Of(BeginLeaf(s, p).0.trace, q) == Life(q, PhaseOf(BeginLeaf(s, p).0, q)) { OfNote(s.trace, Began(p), q); }
  }

  lemma EndLeafAgrees(s: Scene, p: Part, busy: set<Part>)
    requires Agree(s, busy) && p !in busy
    ensures Agree(EndLeaf(s, p), busy)
  {
    hide Of;
    forall q | q !in busy ensures Of(EndLeaf(s, p).trace, q) == Life(q, PhaseOf(EndLeaf(s, p), q)) { OfNote(s.trace, Finished(p), q); }
  }

  lemma {:induction false} EndLeavesAgree(s: Scene, ps: seq<Part>, k: nat, lost: set<Part>, busy: set<Part>)
    requires k <= |ps| && Agree(s, busy) && forall p :: p in ps ==> p !in busy
    ensures Agree(EndLeaves(s, ps, k, lost), busy)
    decreases k
  {
    hide Agree, EndLeaf;
    if k > 0 {
      EndLeafAgrees(s, ps[k - 1], busy);
      EndLeavesAgree(if ps[k - 1] in lost then s else EndLeaf(s, ps[k - 1]), ps, k - 1, lost, busy);
    }
  }

  lemma {:induction false} BeginLeavesAgree(s: Scene, ps: seq<Part>, i: nat, lost: set<Part>, busy: set<Part>)
    requires i <= |ps| && Agree(s, busy) && forall p :: p in ps ==> p !in busy
    ensures Agree(BeginLeaves(s, ps, i, lost).0, busy)
    decreases |ps| - i
  {
    hide Agree, EndLeaves, BeginLeaf;
    if i < |ps| {
      var (b, ok) := if ps[i] in lost then (s, false) else BeginLeaf(s, ps[i]);
      BeginLeafAgrees(s, ps[i], busy);
      if ok { BeginLeavesAgree(b, ps, i + 1, lost, busy); } else { EndLeavesAgree(b, ps, i, lost, busy); }
    }
  }

  /** A cascade leaves no event of a part outside it. */
  lemma {:induction false} EndLeavesSilent(s: Scene, ps: seq<Part>, k: nat, lost: set<Part>, q: Part)
    requires k <= |ps| && q !in ps
    ensures Of(EndLeaves(s, ps, k, lost).trace, q) == Of(s.trace, q)
    decreases k
  {
    hide Of;
    if k > 0 {
      OfNote(s.trace, Finished(ps[k - 1]), q);
      EndLeavesSilent(if ps[k - 1] in lost then s else EndLeaf(s, ps[k - 1]), ps, k - 1, lost, q);
    }
  }

  lemma {:induction false} BeginLeavesSilent(s: Scene, ps: seq<Part>, i: nat, lost: set<Part>, q: Part)
    requires i <= |ps| && q !in ps
    ensures Of(BeginLeaves(s, ps, i, lost).0.trace, q) == Of(s.trace, q)
    decreases |ps| - i
  {
    hide Of;
    if i < |ps| {
      OfNote(s.trace, Began(ps[i]), q);
      var (b, ok) := if ps[i] in lost then (s, false) else BeginLeaf(s, ps[i]);
      if ok { BeginLeavesSilent(b, ps, i + 1, lost, q); } else { EndLeavesSilent(b, ps, i, lost, q); }
    }
  }

  lemma BeginActorAgrees(s: Scene, cast: Cast, a: nat)
    requires Agree(s, {})
    ensures Agree(BeginActor(s, cast, a).0, {})
  {
    hide Of, BeginLeaves;
    if PhaseOf(s, Actor(a)).Constructed? {
      var m, ps := Enter(s, Actor(a), Playing), Parts(cast, a);
      assert Agree(m, {Actor(a)});
      BeginLeavesAgree(m, ps, 0, cast.lost, {Actor(a)});
      BeginLeavesSilent(m, ps, 0, cast.lost, Actor(a));
      BeginLeavesFrame(m, ps, 0, cast.lost);
      var b := BeginLeaves(m, ps, 0, cast.lost).0;
      var r := BeginActor(s, cast, a).0;
      forall q ensures Of(r.trace, q) == Life(q, PhaseOf(r, q)) { OfNote(b.trace, Began(Actor(a)), q); }
    }
  }

  lemma EndActorAgrees(s: Scene, cast: Cast, a: nat)
    requires Agree(s, {})
    ensures Agree(EndActor(s, cast, a), {})
  {
    hide Of, EndLeaves;
    EndLeafAgrees(s, Actor(a), {});
    if Up(s, a) { EndLeavesAgree(EndLeaf(s, Actor(a)), Parts(cast, a), |Parts(cast, a)|, cast.lost, {}); }
  }

  lemma {:induction false} EndActorsAgree(s: Scene, cast: Cast, actors: seq<nat>, k: nat)
    requires k <= |actors| && Agree(s, {})
    ensures Agree(EndActors(s, cast, actors, k), {})
    decreases k
  {
    hide Agree, EndActor;
    if k > 0 {
      EndActorAgrees(s, cast, actors[k - 1]);
      EndActorsAgree(EndIfFound(s, cast, actors[k - 1]), cast, actors, k - 1);
    }
  }

  lemma {:induction false} BeginActorsAgree(s: Scene, cast: Cast, actors: seq<nat>, i: nat)
    requires i <= |actors| && Agree(s, {})
    ensures Agree(BeginActors(s, cast, actors, i).0, {})
    decreases |actors| - i
  {
    hide Agree, BeginActor, EndActors;
    if i < |actors| {
      BeginActorAgrees(s, cast, actors[i]);
      var (b, ok) := BeginIfFound(s, cast, actors[i]);
      if ok { BeginActorsAgree(b, cast, actors, i + 1); } else { EndActorsAgree(b, cast, actors, i); }
    }
  }

  lemma {:induction false} PublishAgrees(w: PlayWorld, deferred: seq<nat>, k: nat)
    requires k <= |deferred| && Agree(w.scene, {})
    ensures Agree(PublishDeferred(w, deferred, k).0.scene, {})
  {
    hide Agree, BeginActor;
    if k > 0 {
      PublishAgrees(w, deferred, k - 1);
      BeginActorAgrees(PublishDeferred(w, deferred, k - 1).0.scene, w.cast, deferred[k - 1]);
    }
  }

  lemma EndAllAgrees(w: PlayWorld)
    requires Agree(w.scene, {})
    ensures Agree(EndAll(w), {})
  {
    hide Agree;
    EndActorsAgree(w.scene, w.cast, w.live, |w.live|);
    EndLeavesAgree(EndActors(w.scene, w.cast, w.live, |w.live|), w.subsystems, |w.subsystems|, w.cast.lost, {});
  }

  lemma BeginPlayAgrees(w: PlayWorld, deferred: seq<nat>, gates: Gates)
    requires Agree(w.scene, {})
    ensures Agree(BeginPlay(w, deferred, gates).0.scene, {})
  {
    hide Agree, BeginLeaves, BeginActors, EndLeaves, PublishDeferred, EndAll;
    BeginLeavesAgree(w.scene, w.subsystems, 0, w.cast.lost, {});
    var s := BeginLeaves(w.scene, w.subsystems, 0, w.cast.lost).0;
    BeginActorsAgree(s, w.cast, w.live, 0);
    var b := BeginActors(s, w.cast, w.live, 0).0;
    EndLeavesAgree(b, w.subsystems, |w.subsystems|, w.cast.lost, {});
    PublishAgrees(w.(scene := b), deferred, |deferred|);
    EndAllAgrees(PublishDeferred(w.(scene := b), deferred, |deferred|).0);
  }

  // ------------------------------------------------------------------ runs

  /** During play actors are added and retired by the barrier, and references may stop resolving. */
  datatype PlayAction = Spawn(actor: nat) | Retire(actor: nat) | Lose(part: Part)

  function Unlisted(live: seq<nat>, a: nat): seq<nat> {
    if live == [] then [] else if live[0] == a then live[1..] else [live[0]] + Unlisted(live[1..], a)
  }

  function Act(w: PlayWorld, act: PlayAction): PlayWorld {
    match act
    case Spawn(a) => if !w.phase.Playing? || Actor(a) in w.cast.lost then w
                     else w.(scene := BeginActor(w.scene, w.cast, a).0, live := w.live + [a])
    case Retire(a) => if !w.phase.Playing? || Actor(a) in w.cast.lost || a !in w.live then w
                      else w.(scene := EndActor(w.scene, w.cast, a), live := Unlisted(w.live, a))
    case Lose(p) => w.(cast := w.cast.(lost := w.cast.lost + {p}))
  }

  function RunPlay(w: PlayWorld, acts: seq<PlayAction>): PlayWorld {
    if acts == [] then w else Act(RunPlay(w, acts[..|acts| - 1]), acts[|acts| - 1])
  }

  lemma {:induction false} RunAgrees(w: PlayWorld, acts: seq<PlayAction>)
    requires Agree(w.scene, {})
    ensures Agree(RunPlay(w, acts).scene, {})
  {
    hide Agree, BeginActor, EndActor;
    if acts != [] {
      var m := RunPlay(w, acts[..|acts| - 1]);
      RunAgrees(w, acts[..|acts| - 1]);
      match acts[|acts| - 1] {
        case Spawn(a) => BeginActorAgrees(m.scene, m.cast, a);
        case Retire(a) => EndActorAgrees(m.scene, m.cast, a);
        case Lose(p) =>
      }
    }
  }

  /**
   Over any begin of play, any play and any end of it, whatever fails: the hooks of every part are none, one begin,
   or one begin and one end after it, as its phase says.
   */
  lemma EveryPartLivesOnce(w: PlayWorld, deferred: seq<nat>, gates: Gates, acts: seq<PlayAction>, guard: bool, p: Part)
    requires Agree(w.scene, {})
    ensures var s := EndPlay(RunPlay(BeginPlay(w, deferred, gates).0, acts), guard).0.scene;
            Of(s.trace, p) == Life(p, PhaseOf(s, p))
  {
    hide BeginPlay, EndAll, RunPlay;
    BeginPlayAgrees(w, deferred, gates);
    RunAgrees(BeginPlay(w, deferred, gates).0, acts);
    EndAllAgrees(RunPlay(BeginPlay(w, deferred, gates).0, acts));
  }

  // ------------------------------------------------------------------ what is open is what plays

  function Net(trace: seq<Event>, p: Part): int {
    if trace == [] then 0
    else
      var e := trace[|trace| - 1];
      Net(trace[..|trace| - 1], p) + (if e.part != p then 0 else if e.Began? then 1 else -1)
  }

  lemma {:induction false} NetCountsOpen(trace: seq<Event>, p: Part)
    requires Open(trace).Some?
    ensures Net(trace, p) == multiset(Open(trace).value)[p]
  {
    if trace != [] {
      var init, e := trace[..|trace| - 1], trace[|trace| - 1];
      NetCountsOpen(init, p);
      var before := Open(init).value;
      if !e.Began? {
        assert before == before[..|before| - 1] + [e.part];
      }
    }
  }

  lemma {:induction false} NetOfOwnEvents(trace: seq<Event>, p: Part)
    ensures Net(Of(trace, p), p) == Net(trace, p)
  {
    if trace != [] {
      var init, e := trace[..|trace| - 1], trace[|trace| - 1];
      NetOfOwnEvents(init, p);
      var own := Of(init, p);
      if e.part == p { assert (own + [e])[..|own|] == own; } else { assert own + [] == own; }
    }
  }

  lemma NetOfLife(p: Part, phase: Phase)
    ensures Net(Life(p, phase), p) == if phase.Playing? then 1 else 0
  {
    assert [Began(p), Finished(p)][..1] == [Began(p)] && [Began(p)][..0] == [];
    assert Net([Began(p)], p) == 1;
    assert Net([Began(p), Finished(p)], p) == 0;
  }

  /** With phases and trace in agreement, the open hooks are exactly those of the parts that play. */
  lemma OpenMeansPlaying(s: Scene, p: Part)
    requires Agree(s, {}) && Open(s.trace).Some?
    ensures p in Open(s.trace).value <==> PhaseOf(s, p).Playing?
  {
    hide Open, Of, Life;
    OpenMeansAlive(s.trace, p, PhaseOf(s, p));
  }

  lemma OpenMeansAlive(trace: seq<Event>, p: Part, phase: Phase)
    requires Of(trace, p) == Life(p, phase) && Open(trace).Some?
    ensures p in Open(trace).value <==> phase.Playing?
  {
    hide Open, Of, Net, Life;
    NetCountsOpen(trace, p);
    NetOfOwnEvents(trace, p);
    NetOfLife(p, phase);
  }

  // ------------------------------------------------------------------ what ends, ends; what is lost stays open

  lemma EndActorFrame(s: Scene, cast: Cast, a: nat)
    ensures var r := EndActor(s, cast, a);
            && Frame(s, r, ActorParts(cast, a)) && (forall p :: PhaseOf(r, p).Playing? ==> PhaseOf(s, p).Playing?) && !Up(r, a)
            && (forall p :: p in cast.lost && p != Actor(a) ==> PhaseOf(r, p) == PhaseOf(s, p))
            && (Up(s, a) ==> forall p :: p in Parts(cast, a) && p !in cast.lost ==> !PhaseOf(r, p).Playing?)
  {
    hide EndLeaves;
    if Up(s, a) {
      var m, ps := Note(Enter(s, Actor(a), Ended), Finished(Actor(a))), Parts(cast, a);
      assert ps[..|ps|] == ps;
      ActorAmongItsParts(cast, a);
      EndLeavesFrame(m, ps, |ps|, cast.lost);
      var r := EndActor(s, cast, a);
      forall p | PhaseOf(r, p).Playing? ensures PhaseOf(s, p).Playing? { assert PhaseOf(m, p).Playing?; }
      forall p | p in cast.lost && p != Actor(a) ensures PhaseOf(r, p) == PhaseOf(s, p) { assert PhaseOf(m, p) == PhaseOf(s, p); }
      forall p | p !in ActorParts(cast, a) ensures PhaseOf(r, p) == PhaseOf(s, p) {
        assert p !in ps && PhaseOf(m, p) == PhaseOf(s, p);
      }
    }
  }

  lemma {:induction false} EndActorsEffect(s: Scene, cast: Cast, actors: seq<nat>, k: nat)
    requires k <= |actors|
    ensures var r := EndActors(s, cast, actors, k);
            && (forall p :: PhaseOf(r, p).Playing? ==> PhaseOf(s, p).Playing?)
            && (forall p :: p in cast.lost ==> PhaseOf(r, p) == PhaseOf(s, p))
            && (forall j :: 0 <= j < k && Actor(actors[j]) !in cast.lost ==> !Up(r, actors[j]))
    decreases k
  {
    hide EndActor, ActorParts;
    if k > 0 {
      EndActorFrame(s, cast, actors[k - 1]);
      EndActorsEffect(EndIfFound(s, cast, actors[k - 1]), cast, actors, k - 1);
    }
  }

  lemma {:induction false} EndActorsEndsParts(s: Scene, cast: Cast, actors: seq<nat>, k: nat, j: nat, p: Part)
    requires j < k <= |actors| && Actor(actors[j]) !in cast.lost && Up(s, actors[j]) && p in Parts(cast, actors[j]) && p !in cast.lost
    ensures !PhaseOf(EndActors(s, cast, actors, k), p).Playing?
    decreases k
  {
    hide EndActor, Parts;
    var m := EndIfFound(s, cast, actors[k - 1]);
    EndActorFrame(s, cast, actors[k - 1]);
    ActorAmongItsParts(cast, actors[k - 1]);
    EndActorsEffect(m, cast, actors, k - 1);
    if Up(m, actors[j]) { EndActorsEndsParts(m, cast, actors, k - 1, j, p); }
    else { assert actors[j] == actors[k - 1]; }
  }

  /** What end of play cannot reach: lost parts, and the components of lost actors. */
  ghost predicate Abandoned(cast: Cast, p: Part) { p in cast.lost || exists a :: Actor(a) in cast.lost && p in Parts(cast, a) }

  /** Everything that plays is registered with a world in play, unless it is abandoned. */
  ghost predicate Tethered(w: PlayWorld) {
    forall p :: PhaseOf(w.scene, p).Playing? && !Abandoned(w.cast, p) ==>
      && w.phase.Playing? && (p.Subsystem? ==> p in w.subsystems) && (p.Actor? ==> p.id in w.live)
      && (p.Component? ==> exists a :: a in w.live && Up(w.scene, a) && p in Parts(w.cast, a))
  }

  lemma {:induction false} HookedComesFrom(s: Scene, cast: Cast, actors: seq<nat>, k: nat, p: Part) returns (j: nat)
    requires k <= |actors| && p in Hooked(s, cast, actors, k)
    ensures j < k && Up(s, actors[j]) && p in ActorParts(cast, actors[j])
  {
    hide ActorParts;
    if p in Hooked(s, cast, actors, k - 1) { j := HookedComesFrom(s, cast, actors, k - 1, p); } else { j := k - 1; }
  }

  lemma InPlayIsTethered(w: PlayWorld)
    requires InPlay(w) && w.phase.Playing? && Agree(w.scene, {})
    ensures Tethered(w)
  {
    hide Open, Agree, Standing, Hooked, Distinct;
    forall p | PhaseOf(w.scene, p).Playing?
      ensures (p.Subsystem? ==> p in w.subsystems) && (p.Actor? ==> p.id in w.live)
      ensures p.Component? ==> exists a :: a in w.live && Up(w.scene, a) && p in Parts(w.cast, a)
    {
      OpenMeansPlaying(w.scene, p);
      if p !in w.subsystems {
        var j := HookedComesFrom(w.scene, w.cast, w.live, |w.live|, p);
        ActorAmongItsParts(w.cast, w.live[j]);
        assert p != Actor(w.live[j]) ==> p in Parts(w.cast, w.live[j]);
      }
    }
  }

  lemma {:induction false} UnlistedKeeps(live: seq<nat>, a: nat, b: nat)
    requires b in live && b != a
    ensures b in Unlisted(live, a)
  {
    if live[0] != a && live[0] != b { UnlistedKeeps(live[1..], a, b); }
  }

  lemma ActTethers(w: PlayWorld, act: PlayAction)
    requires Tethered(w)
    ensures Tethered(Act(w, act))
  {
    hide BeginActor, EndActor, Parts, Unlisted;
    match act
    case Spawn(a) => SpawnTethers(w, a);
    case Retire(a) => RetireTethers(w, a);
    case Lose(p) => LoseTethers(w, p);
  }

  lemma SpawnTethers(w: PlayWorld, a: nat)
    requires Tethered(w)
    ensures Tethered(Act(w, Spawn(a)))
  {
    hide BeginActor, Parts;
    var r := Act(w, Spawn(a));
    BeginActorFrame(w.scene, w.cast, a);
    ActorAmongItsParts(w.cast, a);
    if r != w {
      forall p | PhaseOf(r.scene, p).Playing? && !Abandoned(r.cast, p)
        ensures (p.Subsystem? ==> p in r.subsystems) && (p.Actor? ==> p.id in r.live)
        ensures p.Component? ==> exists b :: b in r.live && Up(r.scene, b) && p in Parts(r.cast, b)
      {
        if PhaseOf(w.scene, p).Playing? {
          if p.Component? { var b :| b in w.live && Up(w.scene, b) && p in Parts(w.cast, b); assert Up(r.scene, b) && b in r.live; }
        } else {
          assert p in ActorParts(w.cast, a);
          assert a in r.live && Up(r.scene, a);
        }
      }
    }
  }

  lemma RetireTethers(w: PlayWorld, a: nat)
    requires Tethered(w)
    ensures Tethered(Act(w, Retire(a)))
  {
    hide EndActor, Parts, Unlisted;
    var r := Act(w, Retire(a));
    EndActorFrame(w.scene, w.cast, a);
    ActorAmongItsParts(w.cast, a);
    if w.phase.Playing? && Actor(a) !in w.cast.lost && a in w.live {
      forall p | PhaseOf(r.scene, p).Playing? && !Abandoned(r.cast, p)
        ensures (p.Subsystem? ==> p in r.subsystems) && (p.Actor? ==> p.id in r.live)
        ensures p.Component? ==> exists b :: b in r.live && Up(r.scene, b) && p in Parts(r.cast, b)
      {
        assert PhaseOf(w.scene, p).Playing?;
        if p.Actor? { UnlistedKeeps(w.live, a, p.id); }
        if p.Component? {
          var b :| b in w.live && Up(w.scene, b) && p in Parts(w.cast, b);
          assert b != a;
          UnlistedKeeps(w.live, a, b);
          assert Up(r.scene, b);
        }
      }
    }
  }

  lemma LoseTethers(w: PlayWorld, p: Part)
    requires Tethered(w)
    ensures Tethered(Act(w, Lose(p)))
  {
    var r := Act(w, Lose(p));
    forall q | !Abandoned(r.cast, q) ensures !Abandoned(w.cast, q) {
      forall a | q in Parts(w.cast, a) ensures Actor(a) !in w.cast.lost { assert Parts(r.cast, a) == Parts(w.cast, a); }
    }
    forall a ensures Parts(r.cast, a) == Parts(w.cast, a) {}
  }

  lemma {:induction false} RunTethers(w: PlayWorld, acts: seq<PlayAction>)
    requires Tethered(w)
    ensures Tethered(RunPlay(w, acts)) && RunPlay(w, acts).phase == w.phase && RunPlay(w, acts).subsystems == w.subsystems
  {
    hide Tethered, BeginActor, EndActor;
    if acts != [] {
      RunTethers(w, acts[..|acts| - 1]);
      ActTethers(RunPlay(w, acts[..|acts| - 1]), acts[|acts| - 1]);
    }
  }

  lemma EndAllEndsTethered(w: PlayWorld, p: Part)
    requires Tethered(w) && PhaseOf(EndAll(w), p).Playing?
    ensures Abandoned(w.cast, p)
  {
    hide Parts, EndActors, EndLeaves;
    var m := EndActors(w.scene, w.cast, w.live, |w.live|);
    EndActorsEffect(w.scene, w.cast, w.live, |w.live|);
    EndLeavesFrame(m, w.subsystems, |w.subsystems|, w.cast.lost);
    assert w.subsystems[..|w.subsystems|] == w.subsystems;
    if !Abandoned(w.cast, p) {
      assert PhaseOf(m, p).Playing? && PhaseOf(w.scene, p).Playing?;
      if p.Component? {
        var a :| a in w.live && Up(w.scene, a) && p in Parts(w.cast, a);
        var j :| 0 <= j < |w.live| && w.live[j] == a;
        EndActorsEndsParts(w.scene, w.cast, w.live, |w.live|, j, p);
      }
    }
  }

  lemma RunEndsTethered(w: PlayWorld, deferred: seq<nat>, gates: Gates, acts: seq<PlayAction>)
    requires Unstarted(w) && Agree(w.scene, {}) && Distinct(w.live + deferred)
    ensures Tethered(RunPlay(BeginPlay(w, deferred, gates).0, acts))
  {
    hide InPlay, BeginPlay, RunPlay, Tethered, Agree, Open;
    BeginPlayIsAtomic(w, deferred, gates);
    BeginPlayAgrees(w, deferred, gates);
    var (b, result) := BeginPlay(w, deferred, gates);
    if result == Success { InPlayIsTethered(b); } else { ClosedIsTethered(b); }
    RunTethers(b, acts);
  }

  /**
   After begin of play, any play, and end of play, nothing still plays that could be reached: every part that ever
   began has ended, unless its reference, or that of the actor owning it, was lost.
   */
  lemma EndOfPlayReachesEverything(w: PlayWorld, deferred: seq<nat>, gates: Gates, acts: seq<PlayAction>, p: Part)
    requires Unstarted(w) && Agree(w.scene, {}) && Distinct(w.live + deferred)
    ensures var r := EndPlay(RunPlay(BeginPlay(w, deferred, gates).0, acts), true).0;
            PhaseOf(r.scene, p).Playing? ==> Abandoned(r.cast, p)
  {
    hide BeginPlay, EndAll, RunPlay, Tethered, Agree, Abandoned, Unstarted;
    RunEndsTethered(w, deferred, gates, acts);
    var m := RunPlay(BeginPlay(w, deferred, gates).0, acts);
    if PhaseOf(EndPlay(m, true).0.scene, p).Playing? {
      if m.phase.Playing? { EndAllEndsTethered(m, p); } else { TetheredOutOfPlay(m, p); }
    }
  }

  lemma ClosedIsTethered(w: PlayWorld)
    requires Balanced(w.scene.trace) && Agree(w.scene, {})
    ensures Tethered(w)
  {
    hide Open, Agree;
    forall p ensures !PhaseOf(w.scene, p).Playing? { OpenMeansPlaying(w.scene, p); }
  }

  lemma TetheredOutOfPlay(w: PlayWorld, p: Part)
    requires Tethered(w) && !w.phase.Playing? && PhaseOf(w.scene, p).Playing?
    ensures Abandoned(w.cast, p)
  {
  }

  /** A world in play in which `lost` parts stop resolving: its end balances exactly when none of them is open. */
  lemma EndBalancesIffNothingIsLost(w: PlayWorld, lost: set<Part>)
    requires InPlay(w) && Agree(w.scene, {})
    ensures var r := w.(cast := w.cast.(lost := w.cast.lost + lost));
            Balanced(EndAll(r).trace) <==> forall p :: p in lost ==> p !in Open(w.scene.trace).value
  {
    hide InPlay, EndAll, Agree, Open;
    OpenIsKnown(w);
    var r := w.(cast := w.cast.(lost := w.cast.lost + lost));
    if forall p :: p in lost ==> p !in Open(w.scene.trace).value {
      LosingNothing(w, lost);
      EndAllBalances(r);
    } else {
      var p :| p in lost && p in Open(w.scene.trace).value;
      OpenMeansPlaying(w.scene, p);
      EndAllAgrees(r);
      LostStaysOpen(r, p);
      if Balanced(EndAll(r).trace) { OpenMeansPlaying(EndAll(r), p); }
    }
  }

  lemma OpenIsKnown(w: PlayWorld)
    requires InPlay(w)
    ensures Open(w.scene.trace).Some?
  {
  }

  lemma LostStaysOpen(w: PlayWorld, p: Part)
    requires p in w.cast.lost
    ensures PhaseOf(EndAll(w), p) == PhaseOf(w.scene, p)
  {
    hide EndActors, EndLeaves;
    EndActorsEffect(w.scene, w.cast, w.live, |w.live|);
    EndLeavesFrame(EndActors(w.scene, w.cast, w.live, |w.live|), w.subsystems, |w.subsystems|, w.cast.lost);
  }

  /** Losing parts that are not open changes nothing about the hooks that are. */
  lemma LosingNothing(w: PlayWorld, lost: set<Part>)
    requires InPlay(w) && Open(w.scene.trace).Some? && forall p :: p in lost ==> p !in Open(w.scene.trace).value
    ensures InPlay(w.(cast := w.cast.(lost := w.cast.lost + lost)))
  {
    hide Open, Distinct;
    var r := w.(cast := w.cast.(lost := w.cast.lost + lost));
    SameHooks(w.scene, w.cast, r.cast, w.live, |w.live|);
    var open := w.subsystems + Hooked(w.scene, w.cast, w.live, |w.live|);
    forall k | 0 <= k < |w.subsystems| ensures w.subsystems[k] !in r.cast.lost { assert w.subsystems[k] in open; }
    forall j | 0 <= j < |w.live| ensures Whole(w.scene, r.cast, w.live[j]) {
      assert Whole(w.scene, w.cast, w.live[j]) && ActorParts(r.cast, w.live[j]) == ActorParts(w.cast, w.live[j]);
      if Up(w.scene, w.live[j]) {
        forall i | 0 <= i < |ActorParts(w.cast, w.live[j])| ensures ActorParts(w.cast, w.live[j])[i] !in r.cast.lost {
          HookedContains(w.scene, w.cast, w.live, |w.live|, j, ActorParts(w.cast, w.live[j])[i]);
          assert ActorParts(w.cast, w.live[j])[i] in open;
        }
      }
    }
  }

  lemma {:induction false} SameHooks(s: Scene, cast: Cast, other: Cast, actors: seq<nat>, k: nat)
    requires k <= |actors| && other.components == cast.components
    ensures Hooked(s, other, actors, k) == Hooked(s, cast, actors, k)
  {
    if k > 0 {
      SameHooks(s, cast, other, actors, k - 1);
      assert Parts(other, actors[k - 1]) == Parts(cast, actors[k - 1]);
    }
  }
}
