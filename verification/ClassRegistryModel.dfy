/**
 `TClassRegistry` as pure steps: explicit and automatic registration. Addresses below the capacity are the registry's
 own slots, all others are descriptors living elsewhere.
 */
module ClassRegistryModel {
  import opened Basics
  import opened ClassAncestry

  const FIRST_AUTOMATIC_ID: nat := 0x8000_0000

  datatype RegistryResult = Success | InvalidClassDescriptor | DuplicateClass | UnknownClass | CapacityExceeded

  /** A type token of 0 is the null token. */
  datatype Descriptor = Descriptor(typeId: nat, parent: Option<nat>, size: nat, alignment: bv32, destroys: bool, token: nat)
  const NO_CLASS := Descriptor(0, None, 0, 0, false, 0)

  datatype Registry = Registry(classes: seq<Descriptor>, capacity: nat, nextId: nat)

  function NewRegistry(capacity: nat): Registry { Registry([], capacity, FIRST_AUTOMATIC_ID) }

  function ParentsOf(classes: seq<Descriptor>): Links { seq(|classes|, k requires 0 <= k < |classes| => classes[k].parent) }

  /** The position of the first class with this id, or the count. */
  function FindFrom(classes: seq<Descriptor>, id: nat, i: nat): (r: nat)
    requires i <= |classes|
    ensures i <= r <= |classes| && (r < |classes| ==> classes[r].typeId == id)
    ensures forall k :: i <= k < r ==> classes[k].typeId != id
    decreases |classes| - i
  {
    if i == |classes| || classes[i].typeId == id then i else FindFrom(classes, id, i + 1)
  }

  function FindTokenFrom(classes: seq<Descriptor>, token: nat, i: nat): (r: nat)
    requires i <= |classes|
    ensures i <= r <= |classes| && (r < |classes| ==> classes[r].token == token)
    ensures forall k :: i <= k < r ==> classes[k].token != token
    decreases |classes| - i
  {
    if i == |classes| || classes[i].token == token then i else FindTokenFrom(classes, token, i + 1)
  }

  predicate Taken(classes: seq<Descriptor>, id: nat) { FindFrom(classes, id, 0) < |classes| }

  predicate HasValidLayout(d: Descriptor) { d.size > 0 && d.alignment > 0 && d.alignment & (d.alignment - 1) == 0 }

  predicate WellFormed(d: Descriptor) { HasValidLayout(d) && d.destroys && d.token != 0 }

  /** The parent walk of `HasValidParentChain`; `at` is where the candidate itself lives. */
  predicate ChainEndsInside(classes: seq<Descriptor>, at: nat, current: Option<nat>, visited: nat)
    decreases |classes| - visited
  {
    if current.None? then true
    else if current == Some(at) || visited >= |classes| then false
    else ChainEndsInside(classes, at, if current.value < |classes| then classes[current.value].parent else None, visited + 1)
  }

  /** `idAt` reads the type id stored at an address outside the registered classes. */
  predicate HasValidParentChain(r: Registry, d: Descriptor, at: nat, idAt: nat -> nat) {
    d.parent.None?
    || (var p := d.parent.value;
        var id := if p < |r.classes| then r.classes[p].typeId else idAt(p);
        Taken(r.classes, id) && FindFrom(r.classes, id, 0) == p && ChainEndsInside(r.classes, at, d.parent, 0))
  }

  function Register(r: Registry, d: Descriptor, at: nat, idAt: nat -> nat): (Registry, RegistryResult) {
    if !WellFormed(d) || d.typeId == 0 then (r, InvalidClassDescriptor)
    else if Taken(r.classes, d.typeId) then (r, DuplicateClass)
    else if !HasValidParentChain(r, d, at, idAt) then (r, UnknownClass)
    else if |r.classes| >= r.capacity then (r, CapacityExceeded)
    else (r.(classes := r.classes + [d]), Success)
  }

  function NextId(id: nat): (next: nat) { if id == UINT32_MAX then FIRST_AUTOMATIC_ID else id + 1 }

  /** Probes from the cursor on; returns the id, or 0 after `probes` collisions, and the new cursor. */
  function Allocate(classes: seq<Descriptor>, cursor: nat, probes: nat): (nat, nat)
    decreases probes
  {
    if probes == 0 then (0, cursor)
    else if cursor != 0 && !Taken(classes, cursor) then (cursor, NextId(cursor))
    else Allocate(classes, NextId(cursor), probes - 1)
  }

  /** On success the address of the descriptor, existing or new. */
  function RegisterAutomatic(r: Registry, d: Descriptor, at: nat, idAt: nat -> nat): (Registry, RegistryResult, Option<nat>) {
    var found := if d.token == 0 then |r.classes| else FindTokenFrom(r.classes, d.token, 0);
    if found < |r.classes| then (r, Success, Some(found))
    else if !WellFormed(d) || d.typeId != 0 then (r, InvalidClassDescriptor, None)
    else if !HasValidParentChain(r, d, at, idAt) then (r, UnknownClass, None)
    else if |r.classes| >= r.capacity then (r, CapacityExceeded, None)
    else
      var (id, cursor) := Allocate(r.classes, r.nextId, r.capacity);
      if id == 0 then (r.(nextId := cursor), CapacityExceeded, None)
      else (r.(classes := r.classes + [d.(typeId := id)], nextId := cursor), Success, Some(|r.classes|))
  }

  // ------------------------------------------------------------------ what every registration keeps

  ghost predicate Inv(r: Registry) {
    && |r.classes| <= r.capacity && FIRST_AUTOMATIC_ID <= r.nextId <= UINT32_MAX
    && (forall k :: 0 <= k < |r.classes| ==> r.classes[k].typeId != 0 && WellFormed(r.classes[k]))
    && (forall j, k :: 0 <= j < k < |r.classes| ==> r.classes[j].typeId != r.classes[k].typeId)
    && (forall k :: 0 <= k < |r.classes| && r.classes[k].parent.Some? ==> r.classes[k].parent.value < k)
  }

  lemma NewRegistryInv(capacity: nat)
    ensures Inv(NewRegistry(capacity))
  {
  }

  lemma TakenMeans(classes: seq<Descriptor>, id: nat)
    ensures Taken(classes, id) <==> exists k :: 0 <= k < |classes| && classes[k].typeId == id
  {
  }

  lemma {:induction false} ChainFitsInside(r: Registry, at: nat, current: Option<nat>, visited: nat)
    requires Inv(r) && visited <= |r.classes|
    requires current.Some? ==> current.value < |r.classes| - visited && current.value < at
    ensures ChainEndsInside(r.classes, at, current, visited)
    decreases |r.classes| - visited
  {
    if current.Some? { ChainFitsInside(r, at, r.classes[current.value].parent, visited + 1); }
  }

  /** A candidate lives outside the registered classes, or is one of them, offered again. */
  ghost predicate LivesAt(r: Registry, d: Descriptor, at: nat) { at < |r.classes| ==> r.classes[at] == d }

  /** The parent check accepts exactly a null or a registered parent. */
  lemma ParentCheckIsExact(r: Registry, d: Descriptor, at: nat, idAt: nat -> nat)
    requires Inv(r) && LivesAt(r, d, at)
    ensures HasValidParentChain(r, d, at, idAt) <==> d.parent.None? || d.parent.value < |r.classes|
  {
    if d.parent.Some? && d.parent.value < |r.classes| {
      ChainFitsInside(r, at, d.parent, 0);
      var id := r.classes[d.parent.value].typeId;
      TakenMeans(r.classes, id);
    }
  }

  /** A parent that passes the check is a registered class, wherever the candidate lives. */
  lemma AcceptedParentIsRegistered(r: Registry, d: Descriptor, at: nat, idAt: nat -> nat)
    requires HasValidParentChain(r, d, at, idAt) && d.parent.Some?
    ensures d.parent.value < |r.classes|
  {
  }

  lemma {:induction false} AllocateIsFree(classes: seq<Descriptor>, cursor: nat, probes: nat)
    requires FIRST_AUTOMATIC_ID <= cursor <= UINT32_MAX
    ensures var (id, next) := Allocate(classes, cursor, probes);
            FIRST_AUTOMATIC_ID <= next <= UINT32_MAX
            && (id != 0 ==> FIRST_AUTOMATIC_ID <= id <= UINT32_MAX && !Taken(classes, id))
    decreases probes
  {
    if probes > 0 { AllocateIsFree(classes, NextId(cursor), probes - 1); }
  }

  /** Ids stay distinct and nonzero, parents precede their children, and a refused explicit registration changes nothing. */
  lemma RegisterKeeps(r: Registry, d: Descriptor, at: nat, idAt: nat -> nat)
    requires Inv(r)
    ensures var (s, result) := Register(r, d, at, idAt);
            Inv(s) && (result != Success ==> s == r) && (result == Success ==> s.classes == r.classes + [d])
  {
    TakenMeans(r.classes, d.typeId);
    var (s, result) := Register(r, d, at, idAt);
    if result == Success && d.parent.Some? { AcceptedParentIsRegistered(r, d, at, idAt); }
  }

  /** Explicit registration accepts exactly a well-formed class with a fresh id, a registered parent or none, and room. */
  lemma RegisterAcceptsExactly(r: Registry, d: Descriptor, at: nat, idAt: nat -> nat)
    requires Inv(r) && LivesAt(r, d, at)
    ensures Register(r, d, at, idAt).1 == Success <==>
              && WellFormed(d) && d.typeId != 0 && (forall k :: 0 <= k < |r.classes| ==> r.classes[k].typeId != d.typeId)
              && (d.parent.Some? ==> d.parent.value < |r.classes|) && |r.classes| < r.capacity
  {
    hide HasValidParentChain, WellFormed;
    TakenMeans(r.classes, d.typeId);
    ParentCheckIsExact(r, d, at, idAt);
  }

  lemma RegisterAutomaticKeeps(r: Registry, d: Descriptor, at: nat, idAt: nat -> nat)
    requires Inv(r)
    ensures var (s, result, address) := RegisterAutomatic(r, d, at, idAt);
            && Inv(s) && r.classes <= s.classes && (result != Success ==> s.classes == r.classes && address.None?)
            && (result == Success ==> address.Some? && address.value < |s.classes| && s.classes[address.value].token == d.token)
  {
    hide HasValidParentChain, Allocate, Taken;
    AllocateIsFree(r.classes, r.nextId, r.capacity);
    var (id, cursor) := Allocate(r.classes, r.nextId, r.capacity);
    TakenMeans(r.classes, id);
    if HasValidParentChain(r, d, at, idAt) && d.parent.Some? { AcceptedParentIsRegistered(r, d, at, idAt); }
  }

  // ------------------------------------------------------------------ automatic ids run out only with the registry

  /** The cursor after `k` probes. */
  function CursorAfter(cursor: nat, k: nat): (r: nat)
    requires FIRST_AUTOMATIC_ID <= cursor <= UINT32_MAX
    ensures FIRST_AUTOMATIC_ID <= r <= UINT32_MAX
    ensures r == FIRST_AUTOMATIC_ID + (cursor - FIRST_AUTOMATIC_ID + k) % FIRST_AUTOMATIC_ID
  {
    if k == 0 then cursor else NextId(CursorAfter(cursor, k - 1))
  }

  lemma {:induction false} CursorShifts(cursor: nat, k: nat)
    requires FIRST_AUTOMATIC_ID <= cursor <= UINT32_MAX
    ensures CursorAfter(NextId(cursor), k) == CursorAfter(cursor, k + 1)
  {
    if k > 0 { CursorShifts(cursor, k - 1); }
  }

  ghost predicate AllProbesTaken(classes: seq<Descriptor>, cursor: nat, probes: nat)
    requires FIRST_AUTOMATIC_ID <= cursor <= UINT32_MAX
  {
    forall k: nat :: k < probes ==> Taken(classes, CursorAfter(cursor, k))
  }

  lemma ProbesShift(classes: seq<Descriptor>, cursor: nat, probes: nat)
    requires FIRST_AUTOMATIC_ID <= cursor <= UINT32_MAX && 0 < probes
    ensures AllProbesTaken(classes, cursor, probes) <==> Taken(classes, cursor) && AllProbesTaken(classes, NextId(cursor), probes - 1)
  {
    hide Taken, CursorAfter, NextId;
    CursorStarts(cursor);
    if AllProbesTaken(classes, cursor, probes) {
      assert Taken(classes, CursorAfter(cursor, 0));
      forall k: nat | k < probes - 1 ensures Taken(classes, CursorAfter(NextId(cursor), k)) {
        CursorShifts(cursor, k);
        assert Taken(classes, CursorAfter(cursor, k + 1));
      }
    }
    if Taken(classes, cursor) && AllProbesTaken(classes, NextId(cursor), probes - 1) {
      forall k: nat | k < probes ensures Taken(classes, CursorAfter(cursor, k)) {
        if k > 0 {
          CursorShifts(cursor, k - 1);
          assert Taken(classes, CursorAfter(NextId(cursor), k - 1));
        }
      }
    }
  }

  lemma CursorStarts(cursor: nat)
    requires FIRST_AUTOMATIC_ID <= cursor <= UINT32_MAX
    ensures CursorAfter(cursor, 0) == cursor && FIRST_AUTOMATIC_ID <= NextId(cursor) <= UINT32_MAX
  {
  }

  /** Allocation fails exactly when every probed id is taken. */
  lemma {:induction false} AllocateFailsIff(classes: seq<Descriptor>, cursor: nat, probes: nat)
    requires FIRST_AUTOMATIC_ID <= cursor <= UINT32_MAX
    ensures Allocate(classes, cursor, probes).0 == 0 <==> AllProbesTaken(classes, cursor, probes)
    decreases probes
  {
    hide Taken;
    if probes > 0 {
      AllocateFailsIff(classes, NextId(cursor), probes - 1);
      ProbesShift(classes, cursor, probes);
    }
  }

  ghost function Probed(cursor: nat, n: nat): set<nat>
    requires FIRST_AUTOMATIC_ID <= cursor <= UINT32_MAX
  {
    set k: nat | k < n :: CursorAfter(cursor, k)
  }

  /** Up to a full turn of the cursor the probed ids are all different. */
  lemma {:induction false} ProbesAreDistinct(cursor: nat, n: nat)
    requires FIRST_AUTOMATIC_ID <= cursor <= UINT32_MAX && n <= FIRST_AUTOMATIC_ID
    ensures |Probed(cursor, n)| == n
  {
    hide CursorAfter;
    if n > 0 {
      ProbesAreDistinct(cursor, n - 1);
      forall k: nat | k < n - 1 ensures CursorAfter(cursor, k) != CursorAfter(cursor, n - 1) { DifferentCursors(cursor, k, n - 1); }
      assert Probed(cursor, n) == Probed(cursor, n - 1) + {CursorAfter(cursor, n - 1)};
    }
  }

  lemma DifferentCursors(cursor: nat, j: nat, k: nat)
    requires FIRST_AUTOMATIC_ID <= cursor <= UINT32_MAX && j < k < FIRST_AUTOMATIC_ID
    ensures CursorAfter(cursor, j) != CursorAfter(cursor, k)
  {
  }

  /** Every automatic id is met within one turn. */
  lemma CursorReaches(cursor: nat, id: nat) returns (k: nat)
    requires FIRST_AUTOMATIC_ID <= cursor <= UINT32_MAX && FIRST_AUTOMATIC_ID <= id <= UINT32_MAX
    ensures k < FIRST_AUTOMATIC_ID && CursorAfter(cursor, k) == id
  {
    k := if cursor <= id then id - cursor else id + FIRST_AUTOMATIC_ID - cursor;
  }

  ghost function Ids(classes: seq<Descriptor>): set<nat> { set k: nat | k < |classes| :: classes[k].typeId }

  lemma {:induction false} IdsAreFew(classes: seq<Descriptor>)
    ensures |Ids(classes)| <= |classes|
  {
    if classes != [] {
      var n := |classes| - 1;
      IdsAreFew(classes[..n]);
      assert Ids(classes) == Ids(classes[..n]) + {classes[n].typeId};
    }
  }

  lemma SubsetSize(a: set<nat>, b: set<nat>)
    requires a <= b
    ensures |a| <= |b|
  {
    assert b == a + (b - a);
  }

  ghost predicate AllAutomaticIdsTaken(r: Registry) {
    forall id :: FIRST_AUTOMATIC_ID <= id <= UINT32_MAX ==> Taken(r.classes, id)
  }

  /** With room left, allocation fails exactly when the whole automatic range is taken. */
  lemma AllocationFailsIffRangeExhausted(r: Registry)
    requires Inv(r) && |r.classes| < r.capacity
    ensures Allocate(r.classes, r.nextId, r.capacity).0 == 0 <==> AllAutomaticIdsTaken(r)
  {
    hide Taken, Allocate, CursorAfter;
    AllocateFailsIff(r.classes, r.nextId, r.capacity);
    if Allocate(r.classes, r.nextId, r.capacity).0 == 0 {
      var n := if r.capacity < FIRST_AUTOMATIC_ID then r.capacity else FIRST_AUTOMATIC_ID;
      ProbedIdsAreTaken(r.classes, r.nextId, r.capacity, n);
      ProbesAreDistinct(r.nextId, n);
      SubsetSize(Probed(r.nextId, n), Ids(r.classes));
      IdsAreFew(r.classes);
      assert n == FIRST_AUTOMATIC_ID;
      forall id | FIRST_AUTOMATIC_ID <= id <= UINT32_MAX ensures Taken(r.classes, id) {
        var k := CursorReaches(r.nextId, id);
      }
    }
  }

  lemma ProbedIdsAreTaken(classes: seq<Descriptor>, cursor: nat, probes: nat, n: nat)
    requires FIRST_AUTOMATIC_ID <= cursor <= UINT32_MAX && n <= probes && AllProbesTaken(classes, cursor, probes)
    ensures Probed(cursor, n) <= Ids(classes)
  {
    hide CursorAfter;
    forall k: nat | k < n ensures CursorAfter(cursor, k) in Ids(classes) {
      TakenMeans(classes, CursorAfter(cursor, k));
      var c := FindFrom(classes, CursorAfter(cursor, k), 0);
      assert classes[c].typeId in Ids(classes);
    }
  }

  /**
   A well-formed new class with a valid parent is refused for capacity exactly when the registry is full or all
   2^31 automatic ids are taken; a registry of at most 2^31 slots refuses it only when full.
   */
  lemma RefusedOnlyWhenFull(r: Registry, d: Descriptor, at: nat, idAt: nat -> nat)
    requires Inv(r) && WellFormed(d) && d.typeId == 0 && HasValidParentChain(r, d, at, idAt)
    requires forall k :: 0 <= k < |r.classes| ==> r.classes[k].token != d.token
    ensures var result := RegisterAutomatic(r, d, at, idAt).1;
            && (result == CapacityExceeded <==> |r.classes| >= r.capacity || AllAutomaticIdsTaken(r))
            && (result == Success <==> |r.classes| < r.capacity && !AllAutomaticIdsTaken(r))
    ensures r.capacity <= FIRST_AUTOMATIC_ID && |r.classes| < r.capacity ==> !AllAutomaticIdsTaken(r)
  {
    hide Allocate, AllAutomaticIdsTaken, HasValidParentChain;
    if |r.classes| < r.capacity { AllocationFailsIffRangeExhausted(r); }
    if r.capacity <= FIRST_AUTOMATIC_ID && |r.classes| < r.capacity && AllAutomaticIdsTaken(r) { ExhaustedMeansMany(r); }
  }

  lemma ExhaustedMeansMany(r: Registry)
    requires Inv(r) && AllAutomaticIdsTaken(r)
    ensures |r.classes| >= FIRST_AUTOMATIC_ID
  {
    hide Taken, CursorAfter;
    ProbedIdsAreTaken(r.classes, r.nextId, FIRST_AUTOMATIC_ID, FIRST_AUTOMATIC_ID);
    ProbesAreDistinct(r.nextId, FIRST_AUTOMATIC_ID);
    SubsetSize(Probed(r.nextId, FIRST_AUTOMATIC_ID), Ids(r.classes));
    IdsAreFew(r.classes);
  }

  // ------------------------------------------------------------------ ancestry of registered classes

  /** Registered classes have no cyclic ancestry, and being a child is a partial order on them. */
  lemma RegisteredAncestryIsAPartialOrder(r: Registry, a: nat, b: nat, c: nat)
    requires Inv(r) && a < |r.classes| && b < |r.classes| && c < |r.classes|
    ensures var g := ParentsOf(r.classes);
            && Closed(g) && ReachesNull(g, a) && ChildOf(g, a, a)
            && (ChildOf(g, a, b) && ChildOf(g, b, a) ==> a == b)
            && (ChildOf(g, a, b) && ChildOf(g, b, c) ==> ChildOf(g, a, c))
  {
    hide ChildOf, ReachesNull;
    var g := ParentsOf(r.classes);
    DescendingChainsEnd(g, a);
    ChildOfIsReflexive(g, a);
    if ChildOf(g, a, b) && ChildOf(g, b, a) { ChildOfIsAntisymmetric(g, a, b); }
    if ChildOf(g, a, b) && ChildOf(g, b, c) { ChildOfIsTransitive(g, a, b, c); }
  }

  // ------------------------------------------------------------------ whole runs of registrations

  /** One call; `at` is where the descriptor lives and `idAt` reads ids outside the registry. */
  datatype Registration = Registration(automatic: bool, d: Descriptor, at: nat, idAt: nat -> nat)

  function Enter(r: Registry, e: Registration): Registry {
    if e.automatic then RegisterAutomatic(r, e.d, e.at, e.idAt).0 else Register(r, e.d, e.at, e.idAt).0
  }

  function EnterAll(r: Registry, es: seq<Registration>): Registry {
    if es == [] then r else Enter(EnterAll(r, es[..|es| - 1]), es[|es| - 1])
  }

  lemma {:induction false} EveryRegistryKeeps(r: Registry, es: seq<Registration>)
    requires Inv(r)
    ensures Inv(EnterAll(r, es)) && r.classes <= EnterAll(r, es).classes && EnterAll(r, es).capacity == r.capacity
  {
    hide Inv, Register, RegisterAutomatic;
    if es != [] {
      var m, e := EnterAll(r, es[..|es| - 1]), es[|es| - 1];
      EveryRegistryKeeps(r, es[..|es| - 1]);
      if e.automatic { RegisterAutomaticKeeps(m, e.d, e.at, e.idAt); } else { RegisterKeeps(m, e.d, e.at, e.idAt); }
      EnterKeepsCapacity(m, e);
    }
  }

  lemma EnterKeepsCapacity(r: Registry, e: Registration)
    ensures Enter(r, e).capacity == r.capacity
  {
    hide HasValidParentChain, Allocate, Taken, WellFormed;
  }

  /**
   After any run of registrations from an empty registry: the classes fit, their ids are distinct and nonzero, every
   parent was registered before its child, being a child is a partial order, and no class ever moves.
   */
  lemma EveryRegistryIsSound(capacity: nat, before: seq<Registration>, after: seq<Registration>, a: nat, b: nat, c: nat)
    requires var r := EnterAll(NewRegistry(capacity), before); a < |r.classes| && b < |r.classes| && c < |r.classes|
    ensures var r := EnterAll(NewRegistry(capacity), before);
            var g := ParentsOf(r.classes);
            && |r.classes| <= capacity && r.classes[a].typeId != 0 && (a != b ==> r.classes[a].typeId != r.classes[b].typeId)
            && (r.classes[a].parent.Some? ==> r.classes[a].parent.value < a)
            && Closed(g)
            && ChildOf(g, a, a) && (ChildOf(g, a, b) && ChildOf(g, b, a) ==> a == b)
            && (ChildOf(g, a, b) && ChildOf(g, b, c) ==> ChildOf(g, a, c))
            && r.classes <= EnterAll(r, after).classes
  {
    hide Enter, ChildOf;
    var r := EnterAll(NewRegistry(capacity), before);
    NewRegistryInv(capacity);
    EveryRegistryKeeps(NewRegistry(capacity), before);
    EveryRegistryKeeps(r, after);
    RegisteredAncestryIsAPartialOrder(r, a, b, c);
  }
}
