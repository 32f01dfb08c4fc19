/**
 `TDeferredActorSpawnStorage` as a pure state machine: request slots, the two live FIFO lanes and their sealed
 snapshots. The last three fields are history: factories activated, invoked and destroyed, and tickets that were
 dropped while their slot was still waiting for publication.
 */
module SpawnStorageModel {
  import opened Basics

  const INVALID_TICKET := 0xFFFF
  const SUCCEEDED := 0
  const UNKNOWN_CLASS := 1
  const LIFECYCLE_LOCKED := 2

  datatype Ticket = Ticket(index: nat, generation: nat) {
    predicate IsValid() { index != INVALID_TICKET && generation != 0 }
  }

  datatype SlotState = Free | Queued | Constructed | Spawned | Failed | Released | Retired

  /** `active` says whether the slot holds a live factory capture. */
  datatype SpawnSlot = SpawnSlot(generation: nat, state: SlotState, result: nat, actor: Option<nat>, active: bool)
  const FREE_SLOT := SpawnSlot(0, Free, SUCCEEDED, None, false)

  /** What resolving the class and running the factory produced. */
  datatype Outcome = NoDescriptor(code: nat) | BuildFailed(code: nat) | Built(actor: nat)

  datatype Storage = Storage(
    slots: seq<SpawnSlot>,
    factory: seq<Ticket>,
    publish: seq<Ticket>,
    sealedFactory: seq<Ticket>,
    sealedPublish: seq<Ticket>,
    activated: seq<Ticket>,
    invoked: seq<Ticket>,
    destroyed: seq<Ticket>,
    dropped: seq<Ticket>)

  function Fresh(maxRequests: nat): Storage {
    Storage(seq(maxRequests, _ => FREE_SLOT), [], [], [], [], [], [], [], [])
  }

  predicate Names(s: Storage, t: Ticket) {
    t.IsValid() && t.index < |s.slots| && s.slots[t.index].generation == t.generation
  }

  predicate InState(s: Storage, t: Ticket, state: SlotState) { Names(s, t) && s.slots[t.index].state == state }

  predicate IsPending(x: SpawnSlot) { x.state.Queued? || x.state.Constructed? }

  predicate IsReusable(x: SpawnSlot) { x.state.Free? || x.state.Failed? || x.state.Released? }

  function PendingCount(s: Storage): nat { Count(s.slots, IsPending) }

  // ------------------------------------------------------------------ requests

  /** The first reusable slot at or after `i` whose generation can still advance; the ones that cannot are retired. */
  function Reserve(s: Storage, i: nat): (Storage, Option<Ticket>)
    requires i <= |s.slots|
    decreases |s.slots| - i
  {
    if i == |s.slots| then (s, None)
    else
      var x := s.slots[i];
      if !IsReusable(x) then Reserve(s, i + 1)
      else if x.generation == UINT32_MAX then Reserve(s.(slots := s.slots[i := x.(state := Retired)]), i + 1)
      else
        (s.(slots := s.slots[i := SpawnSlot(x.generation + 1, Queued, SUCCEEDED, None, false)]),
         Some(Ticket(i, x.generation + 1)))
  }

  function Activate(s: Storage, t: Ticket): Storage {
    if !InState(s, t, Queued) then s
    else s.(slots := s.slots[t.index := s.slots[t.index].(active := true)], factory := s.factory + [t],
            activated := s.activated + [t])
  }

  /** A typed spawn request: reserve a slot, capture the arguments in it, and queue its ticket. */
  function Submit(s: Storage): (Storage, Option<Ticket>) {
    var (r, t) := Reserve(s, 0);
    if t.None? then (r, None) else (Activate(r, t.value), t)
  }

  // ------------------------------------------------------------------ the barrier

  function SealBarrier(s: Storage): Storage {
    s.(sealedFactory := s.factory, factory := [], sealedPublish := s.publish, publish := [])
  }

  function DestroyFactory(s: Storage, i: nat): Storage
    requires i < |s.slots|
  {
    if !s.slots[i].active then s
    else s.(slots := s.slots[i := s.slots[i].(active := false)],
            destroyed := s.destroyed + [Ticket(i, s.slots[i].generation)])
  }

  function CompleteFailure(s: Storage, i: nat, code: nat): Storage
    requires i < |s.slots|
  {
    var d := DestroyFactory(s, i);
    d.(slots := d.slots[i := d.slots[i].(actor := None, result := code, state := Failed)])
  }

  function Construct(s: Storage, t: Ticket, outcome: Outcome): Storage {
    if !InState(s, t, Queued) || !s.slots[t.index].active then s
    else if outcome.NoDescriptor? then
      CompleteFailure(s, t.index, if outcome.code == SUCCEEDED then UNKNOWN_CLASS else outcome.code)
    else
      var d := DestroyFactory(s.(invoked := s.invoked + [t]), t.index);
      if outcome.BuildFailed? then CompleteFailure(d, t.index, outcome.code)
      else d.(slots := d.slots[t.index := d.slots[t.index].(actor := Some(outcome.actor), result := SUCCEEDED, state := Constructed)],
              sealedPublish := d.sealedPublish + [t])
  }

  function ConstructedActor(s: Storage, t: Ticket): Option<nat> {
    if InState(s, t, Constructed) then s.slots[t.index].actor else None
  }

  function CompletePublish(s: Storage, t: Ticket): Storage {
    if InState(s, t, Constructed) then s.(slots := s.slots[t.index := s.slots[t.index].(state := Spawned)]) else s
  }

  /** A ticket whose actor no longer resolves is skipped; its slot keeps waiting in no queue at all. */
  function SkipPublish(s: Storage, t: Ticket): Storage { s.(dropped := s.dropped + [t]) }

  /** The tickets among the first `k` that still name a slot in this state, in order. */
  function Still(s: Storage, ts: seq<Ticket>, state: SlotState, k: nat): seq<Ticket>
    requires k <= |ts|
  {
    if k == 0 then []
    else Still(s, ts, state, k - 1) + (if InState(s, ts[k - 1], state) then [ts[k - 1]] else [])
  }

  function RestoreUnpublished(s: Storage): Storage {
    s.(publish := s.publish + Still(s, s.sealedPublish, Constructed, |s.sealedPublish|), sealedPublish := [])
  }

  function RestoreUnconstructed(s: Storage): Storage {
    s.(factory := s.factory + Still(s, s.sealedFactory, Queued, |s.sealedFactory|), sealedFactory := [])
  }

  /** Ends the first `k` pending requests of a failed startup. */
  function AbortUpTo(s: Storage, k: nat): (r: Storage)
    requires k <= |s.slots|
    ensures |r.slots| == |s.slots|
  {
    if k == 0 then s
    else
      var m := AbortUpTo(s, k - 1);
      if !IsPending(m.slots[k - 1]) then m
      else
        var d := if m.slots[k - 1].state.Queued? then DestroyFactory(m, k - 1) else m;
        d.(slots := d.slots[k - 1 := d.slots[k - 1].(actor := None, result := LIFECYCLE_LOCKED, state := Failed)])
  }

  function AbortSealedBatch(s: Storage): Storage {
    AbortUpTo(s, |s.slots|).(factory := [], publish := [], sealedFactory := [], sealedPublish := [])
  }

  /** The first slot at or after `i` whose live actor is this one, or the table size. */
  function FindSpawned(slots: seq<SpawnSlot>, actor: nat, i: nat): (r: nat)
    requires i <= |slots|
    ensures i <= r <= |slots| && (r < |slots| ==> slots[r].state.Spawned? && slots[r].actor == Some(actor))
    ensures forall k :: i <= k < r ==> !(slots[k].state.Spawned? && slots[k].actor == Some(actor))
    decreases |slots| - i
  {
    if i == |slots| || (slots[i].state.Spawned? && slots[i].actor == Some(actor)) then i else FindSpawned(slots, actor, i + 1)
  }

  function ReleaseActor(s: Storage, actor: nat): Storage {
    var i := FindSpawned(s.slots, actor, 0);
    if i == |s.slots| then s else s.(slots := s.slots[i := s.slots[i].(actor := None, state := Released)])
  }

  /** What the public status of a ticket is; a stale ticket has none. */
  datatype Status = NoStatus | Waiting | Live(actor: Option<nat>) | Lost(result: nat) | Gone(result: nat)

  function GetStatus(s: Storage, t: Ticket): Status {
    if !Names(s, t) then NoStatus
    else match s.slots[t.index].state
      case Queued => Waiting
      case Constructed => Waiting
      case Spawned => Live(s.slots[t.index].actor)
      case Failed => Lost(s.slots[t.index].result)
      case Released => Gone(s.slots[t.index].result)
      case _ => NoStatus
  }
}
