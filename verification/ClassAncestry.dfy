/**
 Class descriptors as a finite graph of parent links, in any shape a corrupted chain may take. The ancestry check is
 the two-probe loop of `FClassDescriptor`; it is proved to end on every graph and to tell chains from cycles exactly.
 */
module ClassAncestry {
  import opened Basics

  /** `g[a]` is the parent of the descriptor at address `a`. */
  type Links = seq<Option<nat>>

  predicate Closed(g: Links) { forall a :: 0 <= a < |g| && g[a].Some? ==> g[a].value < |g| }

  /** Where `k` parent links lead from `p`. */
  function Walk(g: Links, p: Option<nat>, k: nat): (r: Option<nat>)
    requires Closed(g) && (p.Some? ==> p.value < |g|)
    ensures r.Some? ==> r.value < |g|
    decreases k
  {
    if k == 0 || p.None? then p else Walk(g, g[p.value], k - 1)
  }

  ghost predicate ReachesNull(g: Links, start: nat)
    requires Closed(g) && start < |g|
  {
    exists k: nat :: Walk(g, Some(start), k).None?
  }

  /** `b` is `a` itself or an ancestor of it. */
  ghost predicate Ancestor(g: Links, a: nat, b: nat)
    requires Closed(g) && a < |g|
  {
    exists k: nat :: Walk(g, Some(a), k) == Some(b)
  }

  // ------------------------------------------------------------------ walks

  lemma {:induction false} WalkAdds(g: Links, p: Option<nat>, j: nat, k: nat)
    requires Closed(g) && (p.Some? ==> p.value < |g|)
    ensures Walk(g, p, j + k) == Walk(g, Walk(g, p, j), k)
    decreases j
  {
    if j > 0 && p.Some? { WalkAdds(g, g[p.value], j - 1, k); }
  }

  lemma WalkStaysNull(g: Links, p: Option<nat>, j: nat, k: nat)
    requires Closed(g) && (p.Some? ==> p.value < |g|) && j <= k && Walk(g, p, j).None?
    ensures Walk(g, p, k).None?
  {
    WalkAdds(g, p, j, k - j);
  }

  /** A repeated position repeats forever. */
  lemma {:induction false} WalkRepeats(g: Links, p: Option<nat>, i: nat, period: nat, k: nat, times: nat)
    requires Closed(g) && (p.Some? ==> p.value < |g|) && Walk(g, p, i) == Walk(g, p, i + period) && i <= k
    ensures Walk(g, p, k + times * period) == Walk(g, p, k)
    decreases times
  {
    if times > 0 {
      WalkRepeats(g, p, i, period, k, times - 1);
      var far := k + (times - 1) * period;
      assert far + period == k + times * period by { assert times * period == (times - 1) * period + period; }
      WalkAdds(g, p, i + period, far - i);
      WalkAdds(g, p, i, far - i);
    }
  }

  lemma RepetitionNeverEnds(g: Links, p: Option<nat>, i: nat, period: nat, k: nat)
    requires Closed(g) && (p.Some? ==> p.value < |g|) && period > 0
    requires Walk(g, p, i).Some? && Walk(g, p, i) == Walk(g, p, i + period)
    ensures Walk(g, p, k).Some?
  {
    if Walk(g, p, k).None? {
      WalkRepeats(g, p, i, period, i, k);
      Grows(k, period);
      WalkStaysNull(g, p, k, i + k * period);
    }
  }

  lemma Grows(k: nat, period: nat)
    requires period > 0
    ensures k <= k * period
  {
    assert k * period == k + k * (period - 1);
    assert k * (period - 1) >= 0;
  }

  // ------------------------------------------------------------------ long walks repeat

  ghost function Visited(g: Links, p: Option<nat>, n: nat): set<nat>
    requires Closed(g) && (p.Some? ==> p.value < |g|)
  {
    set k: nat | k < n && Walk(g, p, k).Some? :: Walk(g, p, k).value
  }

  lemma {:induction false} DistinctVisits(g: Links, p: Option<nat>, n: nat)
    requires Closed(g) && (p.Some? ==> p.value < |g|)
    requires forall k: nat :: k < n ==> Walk(g, p, k).Some?
    requires forall j: nat, k: nat :: j < k < n ==> Walk(g, p, j) != Walk(g, p, k)
    ensures |Visited(g, p, n)| == n
  {
    if n > 0 {
      DistinctVisits(g, p, n - 1);
      var last := Walk(g, p, n - 1).value;
      assert Visited(g, p, n) == Visited(g, p, n - 1) + {last};
      assert last !in Visited(g, p, n - 1);
    }
  }

  /** More steps than addresses: either null was reached or an address came twice. */
  lemma LongWalkRepeats(g: Links, p: Option<nat>) returns (i: nat, j: nat)
    requires Closed(g) && (p.Some? ==> p.value < |g|) && Walk(g, p, |g|).Some?
    ensures i < j <= |g| && Walk(g, p, i).Some? && Walk(g, p, i) == Walk(g, p, j)
  {
    var n := |g| + 1;
    forall k: nat | k < n ensures Walk(g, p, k).Some? {
      if Walk(g, p, k).None? { WalkStaysNull(g, p, k, |g|); }
    }
    if forall j: nat, k: nat :: j < k < n ==> Walk(g, p, j) != Walk(g, p, k) {
      DistinctVisits(g, p, n);
      BoundedSetSize(Visited(g, p, n), |g|);
      assert false;
    }
    i, j :| i < j < n && Walk(g, p, i) == Walk(g, p, j);
  }

  /** On a cycle the probes meet within as many rounds as there are addresses. */
  lemma ProbesMeet(g: Links, start: nat) returns (k: nat)
    requires Closed(g) && start < |g| && Walk(g, Some(start), |g|).Some?
    ensures 1 <= k <= |g| && Walk(g, Some(start), k).Some? && Walk(g, Some(start), k) == Walk(g, Some(start), 2 * k)
  {
    var i, j := LongWalkRepeats(g, Some(start));
    var period := j - i;
    var rounds := MultipleWithin(i, period);
    k := rounds * period;
    WalkRepeats(g, Some(start), i, period, k, rounds);
    RepetitionNeverEnds(g, Some(start), i, period, k);
  }

  /** A positive multiple of `period` that is at least `i` and at most `i + period`. */
  lemma {:induction false} MultipleWithin(i: nat, period: nat) returns (rounds: nat)
    requires period > 0
    ensures 1 <= rounds && i <= rounds * period <= i + period
    decreases i
  {
    if i <= period {
      rounds := 1;
    } else {
      var r := MultipleWithin(i - period, period);
      rounds := r + 1;
      assert rounds * period == r * period + period;
    }
  }

  lemma NullWithinTheGraph(g: Links, start: nat)
    requires Closed(g) && start < |g| && ReachesNull(g, start)
    ensures Walk(g, Some(start), |g|).None?
  {
    if Walk(g, Some(start), |g|).Some? {
      var i, j := LongWalkRepeats(g, Some(start));
      var k: nat :| Walk(g, Some(start), k).None?;
      RepetitionNeverEnds(g, Some(start), i, j - i, k);
    }
  }

  // ------------------------------------------------------------------ the queries

  /** The two-probe loop ends on every graph and holds exactly when the parent chain reaches null. */
  method HasAcyclicAncestry(g: Links, start: nat) returns (acyclic: bool)
    requires Closed(g) && start < |g|
    ensures acyclic <==> ReachesNull(g, start)
  {
    var ancestry: Option<nat>, detector: Option<nat> := Some(start), Some(start);
    ghost var k: nat := 0;
    while detector.Some? && g[detector.value].Some?
      invariant ancestry == Walk(g, Some(start), k) && detector == Walk(g, Some(start), 2 * k)
      invariant forall m: nat :: 1 <= m <= k ==> Walk(g, Some(start), m) != Walk(g, Some(start), 2 * m)
      invariant k <= |g|
      decreases |g| - k
    {
      ProbesAdvance(g, start, k);
      ancestry := g[ancestry.value];
      detector := g[g[detector.value].value];
      k := k + 1;
      ProbesAreBounded(g, start, k);
      if ancestry == detector {
        CycleNeverEnds(g, start, k);
        return false;
      }
    }
    ChainEnds(g, start, 2 * k);
    return true;
  }

  /** Before the probes move, both are on the chain, and their moves are walks. */
  lemma ProbesAdvance(g: Links, start: nat, k: nat)
    requires Closed(g) && start < |g| && Walk(g, Some(start), 2 * k).Some? && g[Walk(g, Some(start), 2 * k).value].Some?
    ensures Walk(g, Some(start), k).Some? && Walk(g, Some(start), k + 1) == g[Walk(g, Some(start), k).value]
    ensures Walk(g, Some(start), 2 * (k + 1)) == g[g[Walk(g, Some(start), 2 * k).value].value]
    ensures Walk(g, Some(start), 2 * k + 1).Some? && Walk(g, Some(start), k + 1).Some?
  {
    if Walk(g, Some(start), k).None? { WalkStaysNull(g, Some(start), k, 2 * k); }
    WalkAdds(g, Some(start), k, 1);
    WalkAdds(g, Some(start), 2 * k, 2);
    WalkAdds(g, Some(start), 2 * k, 1);
    if Walk(g, Some(start), k + 1).None? { WalkStaysNull(g, Some(start), k + 1, 2 * k + 1); }
  }

  /** The probes never make more rounds than there are addresses without meeting or falling off the chain. */
  lemma ProbesAreBounded(g: Links, start: nat, k: nat)
    requires Closed(g) && start < |g| && 1 <= k && Walk(g, Some(start), 2 * k - 1).Some?
    requires forall m: nat :: 1 <= m < k ==> Walk(g, Some(start), m) != Walk(g, Some(start), 2 * m)
    ensures k <= |g|
  {
    if k > |g| {
      if Walk(g, Some(start), |g|).None? { WalkStaysNull(g, Some(start), |g|, 2 * k - 1); }
      var m := ProbesMeet(g, start);
    }
  }

  lemma CycleNeverEnds(g: Links, start: nat, k: nat)
    requires Closed(g) && start < |g| && 1 <= k && Walk(g, Some(start), k).Some?
    requires Walk(g, Some(start), k) == Walk(g, Some(start), 2 * k)
    ensures !ReachesNull(g, start)
  {
    forall n: nat ensures Walk(g, Some(start), n).Some? { RepetitionNeverEnds(g, Some(start), k, k, n); }
  }

  lemma ChainEnds(g: Links, start: nat, k: nat)
    requires Closed(g) && start < |g|
    requires Walk(g, Some(start), k).Some? ==> g[Walk(g, Some(start), k).value].None?
    ensures ReachesNull(g, start)
  {
    WalkAdds(g, Some(start), k, 1);
    assert Walk(g, Some(start), k + 1).None?;
  }

  method AncestryContains(g: Links, start: nat, candidate: nat) returns (found: bool)
    requires Closed(g) && start < |g| && ReachesNull(g, start)
    ensures found <==> Ancestor(g, start, candidate)
  {
    var current: Option<nat> := Some(start);
    ghost var k: nat := 0;
    NullWithinTheGraph(g, start);
    while current.Some?
      invariant current == Walk(g, Some(start), k)
      invariant forall m: nat :: m < k ==> Walk(g, Some(start), m) != Some(candidate)
      invariant k <= |g|
      decreases |g| - k
    {
      if current == Some(candidate) { return true; }
      if k == |g| { assert false; }
      WalkAdds(g, Some(start), k, 1);
      current := g[current.value];
      k := k + 1;
    }
    forall m: nat ensures Walk(g, Some(start), m) != Some(candidate) {
      if m >= k { WalkStaysNull(g, Some(start), k, m); }
    }
    return false;
  }

  /** A descriptor on a cyclic chain is a child of nothing, not even of itself. */
  method IsChildOf(g: Links, start: nat, candidate: nat) returns (child: bool)
    requires Closed(g) && start < |g|
    ensures child <==> ReachesNull(g, start) && Ancestor(g, start, candidate)
  {
    var acyclic := HasAcyclicAncestry(g, start);
    if !acyclic { return false; }
    child := AncestryContains(g, start, candidate);
  }

  // ------------------------------------------------------------------ ancestry is a partial order

  ghost predicate ChildOf(g: Links, a: nat, b: nat)
    requires Closed(g) && a < |g|
  {
    ReachesNull(g, a) && Ancestor(g, a, b)
  }

  lemma ChildOfIsReflexive(g: Links, a: nat)
    requires Closed(g) && a < |g|
    ensures ChildOf(g, a, a) <==> ReachesNull(g, a)
  {
    assert Walk(g, Some(a), 0) == Some(a);
  }

  lemma ChildOfIsTransitive(g: Links, a: nat, b: nat, c: nat)
    requires Closed(g) && a < |g| && b < |g| && ChildOf(g, a, b) && ChildOf(g, b, c)
    ensures ChildOf(g, a, c)
  {
    var j: nat :| Walk(g, Some(a), j) == Some(b);
    var k: nat :| Walk(g, Some(b), k) == Some(c);
    WalkAdds(g, Some(a), j, k);
    assert Walk(g, Some(a), j + k) == Some(c);
  }

  lemma ChildOfIsAntisymmetric(g: Links, a: nat, b: nat)
    requires Closed(g) && a < |g| && b < |g| && ChildOf(g, a, b) && ChildOf(g, b, a)
    ensures a == b
  {
    var j: nat :| Walk(g, Some(a), j) == Some(b);
    var k: nat :| Walk(g, Some(b), k) == Some(a);
    if j + k > 0 {
      WalkAdds(g, Some(a), j, k);
      var n: nat :| Walk(g, Some(a), n).None?;
      RepetitionNeverEnds(g, Some(a), 0, j + k, n);
      assert false;
    }
  }

  /** Links to smaller addresses only: every chain reaches null. */
  lemma {:induction false} DescendingChainsEnd(g: Links, a: nat)
    requires Closed(g) && a < |g| && forall k :: 0 <= k < |g| && g[k].Some? ==> g[k].value < k
    ensures ReachesNull(g, a)
    decreases a
  {
    if g[a].Some? {
      DescendingChainsEnd(g, g[a].value);
      var k: nat :| Walk(g, g[a], k).None?;
      assert Walk(g, Some(a), k + 1).None?;
    } else {
      assert Walk(g, Some(a), 1).None?;
    }
  }
}
