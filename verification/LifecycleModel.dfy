/**
 Begin and end of play over subsystems, components and actors: the cascades with their rollback, and the trace of the
 hooks they run. `states` are the lifecycle guards; a part in `lost` no longer resolves from its reference.
 */
module LifecycleModel {
  import opened Basics

  datatype Part = Subsystem(id: nat) | Actor(id: nat) | Component(id: nat)
  datatype Phase = Constructed | Playing | Ended | Failed
  datatype Event = Began(part: Part) | Finished(part: Part)
  datatype RuntimeResult = Success | InvalidLifecycle | LifecycleLocked | InitializationFailed

  datatype Scene = Scene(states: map<Part, Phase>, trace: seq<Event>)

  function PhaseOf(s: Scene, p: Part): Phase { if p in s.states then s.states[p] else Constructed }

  function Enter(s: Scene, p: Part, phase: Phase): Scene { s.(states := s.states[p := phase]) }

  function Note(s: Scene, e: Event): Scene { s.(trace := s.trace + [e]) }

  // ------------------------------------------------------------------ one component or subsystem

  function BeginLeaf(s: Scene, p: Part): (Scene, bool) {
    if !PhaseOf(s, p).Constructed? then (s, false) else (Note(Enter(s, p, Playing), Began(p)), true)
  }

  function EndLeaf(s: Scene, p: Part): Scene {
    if !PhaseOf(s, p).Playing? then s else Note(Enter(s, p, Ended), Finished(p))
  }

  /** Ends the first `k` parts, last first, passing over those that no longer resolve. */
  function EndLeaves(s: Scene, ps: seq<Part>, k: nat, lost: set<Part>): Scene
    requires k <= |ps|
    decreases k
  {
    if k == 0 then s else EndLeaves(if ps[k - 1] in lost then s else EndLeaf(s, ps[k - 1]), ps, k - 1, lost)
  }

  /** Begins the parts from position `i` on; the first failure ends the ones before it again. */
  function BeginLeaves(s: Scene, ps: seq<Part>, i: nat, lost: set<Part>): (Scene, bool)
    requires i <= |ps|
    decreases |ps| - i
  {
    if i == |ps| then (s, true)
    else
      var (b, ok) := if ps[i] in lost then (s, false) else BeginLeaf(s, ps[i]);
      if ok then BeginLeaves(b, ps, i + 1, lost) else (EndLeaves(b, ps, i, lost), false)
  }

  // ------------------------------------------------------------------ one actor

  /** Which components each actor registered, and what no longer resolves. */
  datatype Cast = Cast(components: map<nat, seq<nat>>, lost: set<Part>)

  function Parts(cast: Cast, a: nat): seq<Part> {
    if a in cast.components then seq(|cast.components[a]|, k requires 0 <= k < |cast.components[a]| => Component(cast.components[a][k])) else []
  }

  /** Components begin before the actor's own hook; if one fails the actor fails without running its hook. */
  function BeginActor(s: Scene, cast: Cast, a: nat): (Scene, bool) {
    if !PhaseOf(s, Actor(a)).Constructed? then (s, false)
    else
      var (b, ok) := BeginLeaves(Enter(s, Actor(a), Playing), Parts(cast, a), 0, cast.lost);
      if ok then (Note(b, Began(Actor(a))), true) else (Enter(b, Actor(a), Failed), false)
  }

  /** The actor's own hook runs before its components end. */
  function EndActor(s: Scene, cast: Cast, a: nat): Scene {
    if !PhaseOf(s, Actor(a)).Playing? then s
    else EndLeaves(Note(Enter(s, Actor(a), Ended), Finished(Actor(a))), Parts(cast, a), |Parts(cast, a)|, cast.lost)
  }

  function EndIfFound(s: Scene, cast: Cast, a: nat): Scene { if Actor(a) in cast.lost then s else EndActor(s, cast, a) }

  function EndActors(s: Scene, cast: Cast, actors: seq<nat>, k: nat): Scene
    requires k <= |actors|
    decreases k
  {
    if k == 0 then s else EndActors(EndIfFound(s, cast, actors[k - 1]), cast, actors, k - 1)
  }

  function BeginIfFound(s: Scene, cast: Cast, a: nat): (Scene, bool) {
    if Actor(a) in cast.lost then (s, false) else BeginActor(s, cast, a)
  }

  function BeginActors(s: Scene, cast: Cast, actors: seq<nat>, i: nat): (Scene, bool)
    requires i <= |actors|
    decreases |actors| - i
  {
    if i == |actors| then (s, true)
    else
      var (b, ok) := BeginIfFound(s, cast, actors[i]);
      if ok then BeginActors(b, cast, actors, i + 1) else (EndActors(b, cast, actors, i), false)
  }

  // ------------------------------------------------------------------ the world

  datatype PlayWorld = PlayWorld(scene: Scene, phase: Phase, subsystems: seq<Part>, live: seq<nat>, cast: Cast)

  /** Publishes the constructed actors one by one; a failing one stays registered and the others still begin. */
  function PublishDeferred(w: PlayWorld, deferred: seq<nat>, k: nat): (PlayWorld, bool)
    requires k <= |deferred|
  {
    if k == 0 then (w, true)
    else
      var (m, fine) := PublishDeferred(w, deferred, k - 1);
      var a := deferred[k - 1];
      if Actor(a) in w.cast.lost then (m, fine)
      else
        var (s, ok) := BeginActor(m.scene, w.cast, a);
        (m.(scene := s, live := m.live + [a]), fine && ok)
  }

  /** What the surroundings decide: collection, guards, and whether every deferred factory succeeded. */
  datatype Gates = Gates(collecting: bool, guard: bool, constructed: bool, startupGuard: bool)

  function EndAll(w: PlayWorld): Scene {
    EndLeaves(EndActors(w.scene, w.cast, w.live, |w.live|), w.subsystems, |w.subsystems|, w.cast.lost)
  }

  // ------------------------------------------------------------------ what the end cascade reports

  function FirstError(r: RuntimeResult, later: RuntimeResult): RuntimeResult { if r != Success then r else later }

  /** A guard ends from play, and again after the end; from any other phase it refuses. */
  predicate CanEnd(phase: Phase) { phase.Playing? || phase.Ended? }

  function EndVerdict(phase: Phase): RuntimeResult { if CanEnd(phase) then Success else InvalidLifecycle }

  /** The first error of ending the first `k` parts, last first; `missing` stands for a part that no longer resolves. */
  function EndLeavesResult(s: Scene, ps: seq<Part>, k: nat, lost: set<Part>, missing: RuntimeResult): RuntimeResult
    requires k <= |ps|
    decreases k
  {
    if k == 0 then Success
    else if ps[k - 1] in lost then FirstError(missing, EndLeavesResult(s, ps, k - 1, lost, missing))
    else FirstError(EndVerdict(PhaseOf(s, ps[k - 1])), EndLeavesResult(EndLeaf(s, ps[k - 1]), ps, k - 1, lost, missing))
  }

  /** An actor reports the first error of its components; one that no longer resolves is passed over. */
  function EndActorResult(s: Scene, cast: Cast, a: nat): RuntimeResult {
    if !PhaseOf(s, Actor(a)).Playing? then EndVerdict(PhaseOf(s, Actor(a)))
    else EndLeavesResult(Note(Enter(s, Actor(a), Ended), Finished(Actor(a))), Parts(cast, a), |Parts(cast, a)|, cast.lost, Success)
  }

  function EndActorsResult(s: Scene, cast: Cast, actors: seq<nat>, k: nat): RuntimeResult
    requires k <= |actors|
    decreases k
  {
    if k == 0 then Success
    else
      var r := if Actor(actors[k - 1]) in cast.lost then Success else EndActorResult(s, cast, actors[k - 1]);
      FirstError(r, EndActorsResult(EndIfFound(s, cast, actors[k - 1]), cast, actors, k - 1))
  }

  /** Actors before subsystems; unlike an actor, a subsystem that no longer resolves is an error. */
  function EndAllResult(w: PlayWorld): RuntimeResult {
    FirstError(EndActorsResult(w.scene, w.cast, w.live, |w.live|),
               EndLeavesResult(EndActors(w.scene, w.cast, w.live, |w.live|), w.subsystems, |w.subsystems|, w.cast.lost, InvalidLifecycle))
  }

  function BeginPlay(w: PlayWorld, deferred: seq<nat>, gates: Gates): (PlayWorld, RuntimeResult) {
    if !w.phase.Constructed? then (w, InvalidLifecycle)
    else if gates.collecting || !gates.guard then (w, LifecycleLocked)
    else if !gates.constructed then (w.(phase := Failed), InitializationFailed)
    else if !gates.startupGuard then (w.(phase := Failed), LifecycleLocked)
    else
      var (s, subsystemsOk) := BeginLeaves(w.scene, w.subsystems, 0, w.cast.lost);
      if !subsystemsOk then (w.(phase := Failed, scene := s), InvalidLifecycle)
      else
        var (b, actorsOk) := BeginActors(s, w.cast, w.live, 0);
        if !actorsOk then (w.(phase := Failed, scene := EndLeaves(b, w.subsystems, |w.subsystems|, w.cast.lost)), InvalidLifecycle)
        else
          var (d, deferredOk) := PublishDeferred(w.(scene := b), deferred, |deferred|);
          if !deferredOk then (d.(phase := Failed, scene := EndAll(d)), InvalidLifecycle) else (d.(phase := Playing), Success)
  }

  function EndPlay(w: PlayWorld, guard: bool): (PlayWorld, RuntimeResult) {
    if w.phase.Ended? then (w, Success)
    else if !w.phase.Playing? then (w, InvalidLifecycle)
    else if !guard then (w, LifecycleLocked)
    else (w.(phase := Ended, scene := EndAll(w)), EndAllResult(w))
  }

  // ------------------------------------------------------------------ reading a trace

  /** The parts still open after a trace, in opening order; none if something ended out of order. */
  function Open(trace: seq<Event>): Option<seq<Part>> {
    if trace == [] then Some([])
    else
      var before, e := Open(trace[..|trace| - 1]), trace[|trace| - 1];
      if before.None? then None
      else if e.Began? then Some(before.value + [e.part])
      else if before.value != [] && before.value[|before.value| - 1] == e.part then Some(before.value[..|before.value| - 1])
      else None
  }

  /** A balanced bracket sequence: everything that begins ends, innermost first. */
  predicate Balanced(trace: seq<Event>) { Open(trace) == Some([]) }

  /** The events of one part. */
  function Of(trace: seq<Event>, p: Part): seq<Event> {
    if trace == [] then []
    else
      var e := trace[|trace| - 1];
      Of(trace[..|trace| - 1], p) + (if e.part == p then [e] else [])
  }

  /** The life of a part, told by its phase. */
  function Life(p: Part, phase: Phase): seq<Event> {
    match phase
    case Constructed => []
    case Failed => []
    case Playing => [Began(p)]
    case Ended => [Began(p), Finished(p)]
  }
}
