/**
 The life of an edge: its lazily decayed weight, and the touch, prune and
 restore statements. `fade` stands for x -> exp(-x).
 */
module EdgeLife {
  import opened Options
  import opened Schema
  import opened Queries
  import opened RealFacts

  /** SQL's three-valued logic. */
  datatype Truth = Yes | No | Unknown

  function Either(a: Truth, b: Truth): Truth {
    if a.Yes? || b.Yes? then Yes else if a.No? && b.No? then No else Unknown
  }

  function Known(b: bool): Truth {
    if b then Yes else No
  }

  /** A comparison with a NULL operand is unknown. */
  function Equals(a: Option<string>, b: string): Truth {
    if a.None? then Unknown else Known(a.value == b)
  }

  const L2 := "l2"

  /** Manual, judged, inherited and frozen-incident edges. */
  function Immune(r: Relation, src: Granule, tgt: Granule): Truth {
    Either(Known(r.origin != Some(LINKER)),
      Either(Equals(r.layer, L2),
        Either(Known(r.inheritedFrom.Some?), Either(Known(src.frozen), Known(tgt.frozen)))))
  }

  predicate Bridge(src: Granule, tgt: Granule) {
    src.cluster.Some? && tgt.cluster.Some? && src.cluster != tgt.cluster
  }

  datatype Decay = Decay(lambda: real, lambdaMin: real, minAgeDays: nat, floor: real)

  const DAY := 86400

  function Rate(p: Decay, used: nat): real {
    var own := p.lambda / (1.0 + used as real);
    if own < p.lambdaMin then p.lambdaMin else own
  }

  function Anchor(r: Relation): Instant {
    if r.lastUsedAt.Some? then r.lastUsedAt.value else r.createdAt
  }

  /** The exponent of the decay at instant t. */
  function Elapsed(p: Decay, r: Relation, t: Instant): real {
    Rate(p, r.usedCount) * ((t - Anchor(r)) as real / DAY as real)
  }

  /** The raw decayed weight the prune campaign compares with the floor. */
  function RawWeight(fade: real -> real, p: Decay, r: Relation, t: Instant): real {
    r.weight * fade(Elapsed(p, r, t))
  }

  /** w_eff: an immune edge keeps its weight. */
  function EffectiveWeight(fade: real -> real, p: Decay, r: Relation, src: Granule, tgt: Granule, t: Instant): real {
    if Immune(r, src, tgt).Yes? then r.weight else RawWeight(fade, p, r, t)
  }

  /** The facts about exp(-x) the formulas rest on. */
  ghost predicate Fading(fade: real -> real) {
    && fade(0.0) == 1.0
    && (forall x, y :: 0.0 <= x <= y ==> 0.0 < fade(y) <= fade(x))
  }

  predicate Settings(p: Decay) {
    0.0 <= p.lambda && 0.0 <= p.lambdaMin
  }

  predicate UnitWeight(r: Relation) {
    0.0 <= r.weight <= 1.0
  }

  // --- Touching ---------------------------------------------------------

  lemma StrengthenedBounds(w: real, a: real)
    requires 0.0 <= w <= 1.0 && 0.0 <= a <= 1.0
    ensures w <= Strengthened(w, a) <= 1.0 && a <= Strengthened(w, a)
  {
    NonNegative(1.0 - w, a);
    NonNegative(w, 1.0 - a);
    NonNegative(1.0 - w, 1.0 - a);
  }

  lemma RateShrinks(p: Decay, used: nat)
    requires Settings(p)
    ensures 0.0 <= Rate(p, used + 1) <= Rate(p, used)
  {
    QuotientShrinks(p.lambda, 1.0 + used as real, 1.0 + (used + 1) as real);
  }

  /** A touch postpones decay: the exponent at any later instant is no greater than it would have been. */
  lemma TouchDelaysDecay(p: Decay, r: Relation, a: real, now: Instant, t: Instant)
    requires Settings(p) && Anchor(r) <= now <= t
    ensures 0.0 <= Elapsed(p, Touched(r, a, now), t) <= Elapsed(p, r, t)
  {
    RateShrinks(p, r.usedCount);
    var days, days' := (t - Anchor(r)) as real / DAY as real, (t - now) as real / DAY as real;
    ProductGrows(Rate(p, r.usedCount + 1), days', Rate(p, r.usedCount), days);
  }

  /** Reinforcing never lowers the effective weight, now or at any later instant, and keeps the stored weight in [0,1]. */
  lemma TouchNeverWeakens(fade: real -> real, p: Decay, r: Relation, src: Granule, tgt: Granule, a: real, now: Instant, t: Instant)
    requires Fading(fade) && Settings(p) && UnitWeight(r) && 0.0 <= a <= 1.0 && Anchor(r) <= now <= t
    ensures UnitWeight(Touched(r, a, now))
    ensures EffectiveWeight(fade, p, Touched(r, a, now), src, tgt, t) >= EffectiveWeight(fade, p, r, src, tgt, t)
  {
    StrengthenedBounds(r.weight, a);
    TouchDelaysDecay(p, r, a, now, t);
    ProductGrows(r.weight, fade(Elapsed(p, r, t)), Strengthened(r.weight, a), fade(Elapsed(p, Touched(r, a, now), t)));
  }

  /** At the instant of a touch nothing has decayed yet. */
  lemma FreshTouch(fade: real -> real, p: Decay, r: Relation, a: real, now: Instant)
    requires Fading(fade)
    ensures RawWeight(fade, p, Touched(r, a, now), now) == Strengthened(r.weight, a)
  {
    assert Elapsed(p, Touched(r, a, now), now) == 0.0;
  }

  /** The edge after being touched at the instants given. */
  function Used(r: Relation, a: real, at: seq<Instant>): Relation {
    if |at| == 0 then r else Touched(Used(r, a, at[..|at| - 1]), a, at[|at| - 1])
  }

  /** gap * (1 - a)^k */
  function Remaining(gap: real, a: real, k: nat): real {
    if k == 0 then gap else Remaining(gap, a, k - 1) * (1.0 - a)
  }

  lemma {:induction false} RemainingBounds(gap: real, a: real, k: nat)
    requires 0.0 <= gap <= 1.0 && 0.0 <= a <= 1.0
    ensures 0.0 <= Remaining(gap, a, k) <= gap
  {
    if k > 0 {
      RemainingBounds(gap, a, k - 1);
      ProductGrows(Remaining(gap, a, k - 1), 1.0 - a, gap, 1.0);
    }
  }

  /** Each touch leaves the fraction 1 - a of what the weight lacks to 1. */
  lemma {:induction false} WeightWhenUsed(r: Relation, a: real, at: seq<Instant>)
    requires UnitWeight(r) && 0.0 <= a <= 1.0
    ensures Used(r, a, at).weight == 1.0 - Remaining(1.0 - r.weight, a, |at|)
    ensures Used(r, a, at).usedCount == r.usedCount + |at|
    ensures Used(r, a, at) == r.(weight := Used(r, a, at).weight, usedCount := r.usedCount + |at|, lastUsedAt := Used(r, a, at).lastUsedAt)
  {
    if |at| > 0 {
      WeightWhenUsed(r, a, at[..|at| - 1]);
      RemainingBounds(1.0 - r.weight, a, |at| - 1);
      RemainingBounds(1.0 - r.weight, a, |at|);
    }
  }

  /**
   After a run of touches the effective weight is, at any later instant, at least
   the weight they have built up, faded since the last of them at the rate of an
   edge used that often; exactly that if the edge is not immune.
   */
  lemma WeightAfterTouches(fade: real -> real, p: Decay, r: Relation, src: Granule, tgt: Granule, a: real, at: seq<Instant>, t: Instant)
    requires Fading(fade) && Settings(p) && UnitWeight(r) && 0.0 <= a <= 1.0 && |at| > 0 && at[|at| - 1] <= t
    ensures
      var built := 1.0 - Remaining(1.0 - r.weight, a, |at|);
      var faded := built * fade(Rate(p, r.usedCount + |at|) * ((t - at[|at| - 1]) as real / DAY as real));
      && r.weight <= built <= 1.0
      && EffectiveWeight(fade, p, Used(r, a, at), src, tgt, t) >= faded
      && (!Immune(r, src, tgt).Yes? ==> EffectiveWeight(fade, p, Used(r, a, at), src, tgt, t) == faded)
  {
    WeightWhenUsed(r, a, at);
    RemainingBounds(1.0 - r.weight, a, |at|);
    var u := Used(r, a, at);
    assert Anchor(u) == at[|at| - 1];
    hide Used, Remaining;
    assert Immune(u, src, tgt) == Immune(r, src, tgt);
    hide Immune;
    FadesToPart(fade, p, u, t);
    ProductGrows(u.weight, fade(Elapsed(p, u, t)), u.weight, 1.0);
  }

  lemma FadesToPart(fade: real -> real, p: Decay, r: Relation, t: Instant)
    requires Fading(fade) && Settings(p) && Anchor(r) <= t
    ensures 0.0 < fade(Elapsed(p, r, t)) <= 1.0
  {
    RateNonNegative(p, r.usedCount);
    NonNegative(Rate(p, r.usedCount), (t - Anchor(r)) as real / DAY as real);
    assert fade(Elapsed(p, r, t)) <= fade(0.0);
  }

  lemma RateNonNegative(p: Decay, used: nat)
    requires Settings(p)
    ensures Rate(p, used) >= 0.0
  {
    QuotientShrinks(p.lambda, 1.0, 1.0 + used as real);
  }

  // --- Pruning ----------------------------------------------------------

  /** WHERE clause of PRUNE_EDGES_CANDIDATES. */
  predicate Prunable(fade: real -> real, p: Decay, db: Db, k: Id) {
    && Eligible(p, db, k)
    && RawWeight(fade, p, db.relations[k], db.now) <= p.floor
  }

  /** The part of it that does not look at the weight. */
  predicate Eligible(p: Decay, db: Db, k: Id) {
    && k in db.relations
    && var r := db.relations[k];
    && r.prunedAt.None? && r.target.Some?
    && r.source in db.memories && r.target.value in db.memories
    && r.createdAt <= db.now - p.minAgeDays * DAY
    && Immune(r, db.memories[r.source], db.memories[r.target.value]).No?
    && !Bridge(db.memories[r.source], db.memories[r.target.value])
  }

  function Candidates(fade: real -> real, p: Decay, db: Db): set<Id> {
    set k | k in db.relations && Prunable(fade, p, db, k)
  }

  function Pruned(db: Db, ids: set<Id>): Db {
    db.(relations := PruneEdges(db.relations, ids, db.now))
  }

  /** Made by the linker, in a known layer other than L2, on the granules it was made for, neither of them frozen. */
  predicate Expendable(r: Relation, src: Granule, tgt: Granule) {
    && r.origin == Some(LINKER) && r.layer.Some? && r.layer != Some("l2") && r.inheritedFrom.None?
    && !src.frozen && !tgt.frozen
  }

  /** The two granules are in one cluster, or one of them in none. */
  predicate NoBridge(src: Granule, tgt: Granule) {
    src.cluster == tgt.cluster || src.cluster.None? || tgt.cluster.None?
  }

  /** lambda divided among the uses and one more, but lambdaMin at least. */
  function SharedRate(p: Decay, used: nat): real {
    var shared := p.lambda / (used + 1) as real;
    if shared >= p.lambdaMin then shared else p.lambdaMin
  }

  /** The last use, or the creation of an edge never used. */
  function LastUse(r: Relation): Instant {
    match r.lastUsedAt case Some(used) => used case None => r.createdAt
  }

  /** The rate times the days since the last use. */
  function Exponent(p: Decay, r: Relation, now: Instant): real {
    SharedRate(p, r.usedCount) * ((now - LastUse(r)) as real / 86400.0)
  }

  /** Faded to the floor since its last use. */
  predicate Faded(fade: real -> real, p: Decay, r: Relation, now: Instant) {
    r.weight * fade(Exponent(p, r, now)) <= p.floor
  }

  lemma ElapsedIsExponent(p: Decay, r: Relation, t: Instant)
    ensures Elapsed(p, r, t) == Exponent(p, r, t)
  {
    assert (r.usedCount + 1) as real == 1.0 + r.usedCount as real;
    assert Rate(p, r.usedCount) == SharedRate(p, r.usedCount) && Anchor(r) == LastUse(r);
    hide Rate, SharedRate, Anchor, LastUse;
  }

  lemma RawIsFaded(fade: real -> real, p: Decay, r: Relation, t: Instant)
    ensures RawWeight(fade, p, r, t) <= p.floor <==> Faded(fade, p, r, t)
  {
    ElapsedIsExponent(p, r, t);
    hide Elapsed, Exponent;
  }

  /** A live prune writes pruned_at on its candidates and nothing else: the live resolved edges that are old enough, expendable, no bridge and faded. */
  lemma PruneIsSparing(fade: real -> real, p: Decay, db: Db, k: Id)
    requires k in db.relations
    ensures
      var r, r' := db.relations[k], Pruned(db, Candidates(fade, p, db)).relations[k];
      && r' == r.(prunedAt := r'.prunedAt)
      && (r' != r <==>
            && r.prunedAt.None? && r.source in db.memories && r.target.Some? && r.target.value in db.memories
            && db.now - r.createdAt >= p.minAgeDays * 86400
            && Expendable(r, db.memories[r.source], db.memories[r.target.value])
            && NoBridge(db.memories[r.source], db.memories[r.target.value])
            && Faded(fade, p, r, db.now))
      && (r' != r ==> r'.prunedAt == Some(db.now))
  {
    RawIsFaded(fade, p, db.relations[k], db.now);
    hide RawWeight, Faded;
  }

  /** Manual, judged, inherited and frozen-incident edges keep their weight; every other one has faded since its last use. */
  lemma EffectiveIs(fade: real -> real, p: Decay, r: Relation, src: Granule, tgt: Granule, t: Instant)
    ensures
      var kept := r.origin != Some(LINKER) || r.layer == Some("l2") || r.inheritedFrom.Some? || src.frozen || tgt.frozen;
      && (kept ==> EffectiveWeight(fade, p, r, src, tgt, t) == r.weight)
      && (!kept ==> (EffectiveWeight(fade, p, r, src, tgt, t) <= p.floor <==> Faded(fade, p, r, t)))
  {
    RawIsFaded(fade, p, r, t);
    hide RawWeight, Faded;
  }

  /** An edge the linker is said to have made, without a layer, not inherited and between unfrozen granules. */
  predicate Unlayered(r: Relation, src: Granule, tgt: Granule) {
    r.origin == Some(LINKER) && r.layer.None? && r.inheritedFrom.None? && !src.frozen && !tgt.frozen
  }

  /** The row is live, resolved, old enough and no bridge, and it has faded to the floor. */
  predicate FadedAway(fade: real -> real, p: Decay, db: Db, k: Id) {
    && k in db.relations
    && var r := db.relations[k];
    && r.prunedAt.None? && r.target.Some? && r.source in db.memories && r.target.value in db.memories
    && r.createdAt <= db.now - p.minAgeDays * DAY && !Bridge(db.memories[r.source], db.memories[r.target.value])
    && RawWeight(fade, p, r, db.now) <= p.floor
  }

  /**
   `NOT immune` is NULL exactly for unlayered edges: an edge that has faded away is
   pruned if and only if it is neither immune nor unlayered, and an unlayered one
   has the faded weight all the same.
   */
  lemma UnlayeredDecaysUnpruned(fade: real -> real, p: Decay, db: Db, k: Id)
    requires FadedAway(fade, p, db, k)
    ensures
      var r := db.relations[k];
      var src, tgt := db.memories[r.source], db.memories[r.target.value];
      && (Immune(r, src, tgt).Unknown? <==> Unlayered(r, src, tgt))
      && (k in Candidates(fade, p, db) <==> !Immune(r, src, tgt).Yes? && !Unlayered(r, src, tgt))
      && (Unlayered(r, src, tgt) ==> EffectiveWeight(fade, p, r, src, tgt, db.now) <= p.floor)
  {
  }

  /** A second campaign at the same instant finds nothing. */
  lemma PruneIsIdempotent(fade: real -> real, p: Decay, db: Db)
    ensures Candidates(fade, p, Pruned(db, Candidates(fade, p, db))) == {}
  {
    var db' := Pruned(db, Candidates(fade, p, db));
    forall k | k in db'.relations ensures !Prunable(fade, p, db', k) {
      assert db'.relations[k].prunedAt.None? ==> db'.relations[k] == db.relations[k];
    }
  }

  lemma DecayGrows(p: Decay, r: Relation, t: Instant, t': Instant)
    requires Settings(p) && Anchor(r) <= t <= t'
    ensures 0.0 <= Elapsed(p, r, t) <= Elapsed(p, r, t')
  {
    var rate := Rate(p, r.usedCount);
    assert rate >= 0.0 by {
      QuotientShrinks(p.lambda, 1.0, 1.0 + r.usedCount as real);
    }
    ProductGrows(rate, (t - Anchor(r)) as real / DAY as real, rate, (t' - Anchor(r)) as real / DAY as real);
  }

  /** Left alone, a candidate stays one: postponing a campaign loses no candidate. */
  lemma CandidatesPersist(fade: real -> real, p: Decay, db: Db, later: Instant)
    requires Fading(fade) && Settings(p) && db.now <= later
    requires forall k :: k in db.relations ==> UnitWeight(db.relations[k]) && Anchor(db.relations[k]) <= db.now
    ensures Candidates(fade, p, db) <= Candidates(fade, p, db.(now := later))
  {
    forall k | k in Candidates(fade, p, db) ensures Prunable(fade, p, db.(now := later), k) {
      RawFades(fade, p, db.relations[k], db.now, later);
      hide RawWeight, Immune, Bridge;
    }
  }

  lemma RawFades(fade: real -> real, p: Decay, r: Relation, t: Instant, t': Instant)
    requires Fading(fade) && Settings(p) && UnitWeight(r) && Anchor(r) <= t <= t'
    ensures RawWeight(fade, p, r, t') <= RawWeight(fade, p, r, t)
  {
    DecayGrows(p, r, t, t');
    hide Elapsed;
    ProductGrows(r.weight, fade(Elapsed(p, r, t')), r.weight, fade(Elapsed(p, r, t)));
  }

  /**
   The two statements of edge_prune are not one transaction. An edge touched
   between them is pruned although it is no candidate any more: exactly when
   its strengthened weight is above the floor.
   */
  lemma TouchedEdgeStillPruned(fade: real -> real, p: Decay, db: Db, k: Id, pairs: set<(Id, Id)>, alpha: real)
    requires Fading(fade) && k in Candidates(fade, p, db) && Touches(pairs, db.relations[k])
    ensures
      var touched := db.(relations := ReinforceRelations(db.relations, pairs, alpha, db.now));
      && Pruned(touched, Candidates(fade, p, db)).relations[k].prunedAt == Some(db.now)
      && (k !in Candidates(fade, p, touched) <==> Strengthened(db.relations[k].weight, alpha) > p.floor)
  {
    FreshTouch(fade, p, db.relations[k], alpha, db.now);
    var touched := db.(relations := ReinforceRelations(db.relations, pairs, alpha, db.now));
    assert touched.relations[k] == Touched(db.relations[k], alpha, db.now);
  }

  // --- Restoring --------------------------------------------------------

  const RESTORE_BETA := 0.5

  function Restored(db: Db, k: Id, beta: real): Db {
    db.(relations := RestoreEdge(db.relations, k, beta, db.now))
  }

  /**
   A restored edge is prunable again at that very instant exactly when it is
   otherwise eligible and its strengthened weight is at most the floor.
   */
  lemma RestoredPrunable(fade: real -> real, p: Decay, db: Db, k: Id, beta: real)
    requires Fading(fade) && k in db.relations && db.relations[k].prunedAt.Some?
    ensures Prunable(fade, p, Restored(db, k, beta), k) <==>
            Eligible(p, db.(relations := db.relations[k := db.relations[k].(prunedAt := None)]), k)
            && Strengthened(db.relations[k].weight, beta) <= p.floor
  {
    FreshTouch(fade, p, db.relations[k].(prunedAt := None), beta, db.now);
    var r' := Restored(db, k, beta).relations[k];
    assert r' == Touched(db.relations[k].(prunedAt := None), beta, db.now);
  }

  /** With the service's beta and a floor below 0.5 a restored edge survives; with floor 0.5 only a zero weight does not. */
  lemma RestoredSurvives(fade: real -> real, p: Decay, db: Db, k: Id)
    requires Fading(fade) && k in db.relations && db.relations[k].prunedAt.Some? && UnitWeight(db.relations[k])
    requires p.floor <= 0.5
    requires p.floor < 0.5 || db.relations[k].weight > 0.0
    ensures !Prunable(fade, p, Restored(db, k, RESTORE_BETA), k)
  {
    RestoredPrunable(fade, p, db, k, RESTORE_BETA);
  }

  /**
   Pruning some edges and restoring one of them is pruning the others and
   touching that one; restoring it again changes nothing.
   */
  lemma PruneThenRestore(db: Db, ids: set<Id>, k: Id, beta: real)
    requires k in ids && k in db.relations && db.relations[k].prunedAt.None?
    ensures
      var restored := Restored(Pruned(db, ids), k, beta);
      && restored == Pruned(db.(relations := db.relations[k := Touched(db.relations[k], beta, db.now)]), ids - {k})
      && Restored(restored, k, beta) == restored
  {
    var r := db.relations[k];
    assert r.(prunedAt := Some(db.now)).(prunedAt := None) == r;
    assert Restored(Pruned(db, ids), k, beta).relations
        == Pruned(db.(relations := db.relations[k := Touched(r, beta, db.now)]), ids - {k}).relations;
  }
}
