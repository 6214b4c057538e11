/** Edge statements issued in batches: canonical pairs, and why the batch size does not show. */
module EdgeBatches {
  import opened Options
  import opened Schema
  import opened Queries
  import opened RealFacts

  predicate Before(p: (Id, Id), q: (Id, Id)) {
    p.0 < q.0 || (p.0 == q.0 && p.1 < q.1)
  }

  /** Each pair is (least, greatest), and the pairs ascend strictly. */
  ghost predicate Canonical(pairs: seq<(Id, Id)>) {
    && (forall i :: 0 <= i < |pairs| ==> pairs[i].0 < pairs[i].1)
    && (forall i, j :: 0 <= i < j < |pairs| ==> Before(pairs[i], pairs[j]))
  }

  function AsSet<T>(s: seq<T>): set<T> {
    set x | x in s
  }

  lemma LeastPair(s: set<(Id, Id)>) returns (least: (Id, Id))
    requires s != {}
    ensures least in s && forall p :: p in s && p != least ==> Before(least, p)
  {
    var chosen :| chosen in s;
    var rest := s - {chosen};
    least := chosen;
    if rest != {} {
      var other := LeastPair(rest);
      if Before(other, chosen) {
        least := other;
      }
    }
    forall p | p in s && p != least ensures Before(least, p) {
      assert p == chosen || p in rest;
    }
  }

  /** sorted(unique) */
  method Sorted(unique: set<(Id, Id)>) returns (pairs: seq<(Id, Id)>)
    ensures forall p :: p in pairs <==> p in unique
    ensures forall i, j :: 0 <= i < j < |pairs| ==> Before(pairs[i], pairs[j])
  {
    pairs := [];
    var rest := unique;
    while rest != {}
      invariant forall p :: p in unique <==> p in pairs || p in rest
      invariant forall i, j :: 0 <= i < j < |pairs| ==> Before(pairs[i], pairs[j])
      invariant forall i, p :: 0 <= i < |pairs| && p in rest ==> Before(pairs[i], p)
      decreases rest
    {
      ghost var witness_ := LeastPair(rest);
      var least :| least in rest && forall p :: p in rest && p != least ==> Before(least, p);
      pairs := pairs + [least];
      rest := rest - {least};
    }
  }

  /** canonical_edge_pairs: no loops, no direction, no repeats, in order. */
  method CanonicalEdgePairs(pairs: seq<(Id, Id)>) returns (canonical: seq<(Id, Id)>)
    ensures Canonical(canonical)
    ensures forall a, b :: (a, b) in canonical <==> a < b && ((a, b) in pairs || (b, a) in pairs)
  {
    var unique: set<(Id, Id)> := {};
    for i := 0 to |pairs|
      invariant forall a, b :: (a, b) in unique <==> a < b && ((a, b) in pairs[..i] || (b, a) in pairs[..i])
    {
      var (a, b) := pairs[i];
      assert pairs[..i + 1] == pairs[..i] + [(a, b)];
      if a != b {
        unique := unique + {if a < b then (a, b) else (b, a)};
      }
    }
    assert pairs[..|pairs|] == pairs;
    canonical := Sorted(unique);
    assert forall i :: 0 <= i < |canonical| ==> (canonical[i].0, canonical[i].1) in canonical;
  }

  // --- Batches of prune ids -------------------------------------------

  function NewlyPruned(rels: map<Id, Relation>, ids: set<Id>): set<Id> {
    set k | k in rels && k in ids && rels[k].prunedAt.None?
  }

  lemma PruneInTwo(rels: map<Id, Relation>, a: set<Id>, b: set<Id>, now: Instant)
    ensures PruneEdges(PruneEdges(rels, a, now), b, now) == PruneEdges(rels, a + b, now)
    ensures |NewlyPruned(rels, a)| + |NewlyPruned(PruneEdges(rels, a, now), b)| == |NewlyPruned(rels, a + b)|
  {
    var first, second := NewlyPruned(rels, a), NewlyPruned(PruneEdges(rels, a, now), b);
    assert first !! second;
    assert first + second == NewlyPruned(rels, a + b);
  }

  lemma NextChunk<T>(s: seq<T>, start: nat, stop: nat)
    requires start <= stop <= |s|
    ensures AsSet(s[..start]) + AsSet(s[start..stop]) == AsSet(s[..stop])
  {
    assert s[..stop] == s[..start] + s[start..stop];
  }

  /** One turn of the prune loop. */
  lemma PruneChunk(rels: map<Id, Relation>, ids: seq<Id>, start: nat, stop: nat, now: Instant)
    requires start <= stop <= |ids|
    ensures
      var sofar := PruneEdges(rels, AsSet(ids[..start]), now);
      && PruneEdges(sofar, AsSet(ids[start..stop]), now) == PruneEdges(rels, AsSet(ids[..stop]), now)
      && |NewlyPruned(rels, AsSet(ids[..start]))| + |NewlyPruned(sofar, AsSet(ids[start..stop]))|
         == |NewlyPruned(rels, AsSet(ids[..stop]))|
  {
    NextChunk(ids, start, stop);
    PruneInTwo(rels, AsSet(ids[..start]), AsSet(ids[start..stop]), now);
  }

  // --- Batches of reinforced pairs -------------------------------------

  function Reached(rels: map<Id, Relation>, pairs: set<(Id, Id)>): set<Id> {
    set k | k in rels && Touches(pairs, rels[k])
  }

  /** With canonical pairs an edge is touched by one batch at most. */
  lemma TouchedOnce(r: Relation, a: set<(Id, Id)>, b: set<(Id, Id)>)
    requires a !! b && (forall p :: p in a + b ==> p.0 < p.1)
    ensures !(Touches(a, r) && Touches(b, r))
    ensures Touches(a + b, r) == (Touches(a, r) || Touches(b, r))
  {
    if r.target.Some? {
      var s, t := r.source, r.target.value;
      assert (s, t) in a + b ==> (s, t).0 < (s, t).1;
      assert (t, s) in a + b ==> (t, s).0 < (t, s).1;
    }
  }

  lemma ReinforceInTwo(rels: map<Id, Relation>, a: set<(Id, Id)>, b: set<(Id, Id)>, alpha: real, now: Instant)
    requires a !! b && (forall p :: p in a + b ==> p.0 < p.1)
    ensures ReinforceRelations(ReinforceRelations(rels, a, alpha, now), b, alpha, now) == ReinforceRelations(rels, a + b, alpha, now)
    ensures Reached(ReinforceRelations(rels, a, alpha, now), b) == Reached(rels, b)
    ensures Reached(rels, a) !! Reached(rels, b) && Reached(rels, a) + Reached(rels, b) == Reached(rels, a + b)
  {
    var once := ReinforceRelations(rels, a, alpha, now);
    forall k | k in rels
      ensures Touches(b, once[k]) == Touches(b, rels[k])
      ensures !(Touches(a, rels[k]) && Touches(b, rels[k]))
      ensures Touches(a + b, rels[k]) == (Touches(a, rels[k]) || Touches(b, rels[k]))
    {
      TouchedOnce(rels[k], a, b);
    }
  }

  lemma CanonicalChunks(pairs: seq<(Id, Id)>, start: nat, stop: nat)
    requires Canonical(pairs) && start <= stop <= |pairs|
    ensures AsSet(pairs[..start]) !! AsSet(pairs[start..stop])
    ensures forall p :: p in AsSet(pairs[..start]) + AsSet(pairs[start..stop]) ==> p.0 < p.1
  {
  }

  /** One turn of the reinforce loop. */
  lemma ReinforceChunk(rels: map<Id, Relation>, pairs: seq<(Id, Id)>, start: nat, stop: nat, alpha: real, now: Instant)
    requires Canonical(pairs) && start <= stop <= |pairs|
    ensures
      var sofar := ReinforceRelations(rels, AsSet(pairs[..start]), alpha, now);
      && ReinforceRelations(sofar, AsSet(pairs[start..stop]), alpha, now) == ReinforceRelations(rels, AsSet(pairs[..stop]), alpha, now)
      && |Reached(rels, AsSet(pairs[..start]))| + |Reached(sofar, AsSet(pairs[start..stop]))| == |Reached(rels, AsSet(pairs[..stop]))|
  {
    NextChunk(pairs, start, stop);
    CanonicalChunks(pairs, start, stop);
    ReinforceInTwo(rels, AsSet(pairs[..start]), AsSet(pairs[start..stop]), alpha, now);
    var first, second := Reached(rels, AsSet(pairs[..start])), Reached(rels, AsSet(pairs[start..stop]));
    assert |first + second| == |first| + |second|;
  }

  // --- What a touch is ------------------------------------------------------------------

  /** The pair names the two ends of the live edge, in either order. */
  predicate Names(pairs: set<(Id, Id)>, r: Relation) {
    r.prunedAt.None? && exists p :: p in pairs && ((r.source == p.0 && r.target == Some(p.1)) || (r.source == p.1 && r.target == Some(p.0)))
  }

  /** A touched edge has lost the share alpha of what its weight lacked to 1, and counts one use more. */
  predicate UsedOnce(r: Relation, r': Relation, alpha: real, now: Instant) {
    && 1.0 - r'.weight == (1.0 - r.weight) * (1.0 - alpha)
    && r' == r.(usedCount := r.usedCount + 1, lastUsedAt := Some(now), weight := r'.weight)
  }

  lemma LackAfter(w: real, a: real)
    requires 0.0 <= w <= 1.0 && 0.0 <= a <= 1.0
    ensures 1.0 - Strengthened(w, a) == (1.0 - w) * (1.0 - a)
  {
    NonNegative(1.0 - w, 1.0 - a);
    Distribute(1.0 - w, 1.0, a);
  }

  lemma TouchUsesOnce(r: Relation, alpha: real, now: Instant)
    requires 0.0 <= r.weight <= 1.0 && 0.0 <= alpha <= 1.0
    ensures UsedOnce(r, Touched(r, alpha, now), alpha, now)
  {
    LackAfter(r.weight, alpha);
    hide Strengthened;
  }

  /** Reinforcing touches exactly the live edges whose ends some pair names, and leaves the others as they are. */
  lemma ReinforcedIff(rels: map<Id, Relation>, pairs: set<(Id, Id)>, alpha: real, now: Instant, k: Id)
    requires k in rels && 0.0 <= rels[k].weight <= 1.0 && 0.0 <= alpha <= 1.0
    ensures
      var r, r' := rels[k], ReinforceRelations(rels, pairs, alpha, now)[k];
      && (k in Reached(rels, pairs) <==> Names(pairs, r))
      && (if Names(pairs, r) then UsedOnce(r, r', alpha, now) else r' == r)
  {
    TouchUsesOnce(rels[k], alpha, now);
    hide Touched, UsedOnce;
  }
}
