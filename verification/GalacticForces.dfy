/** What the forces of relax_in_groups do to one member and to two: springs draw together, repulsion parts, anchors bring back. */
module GalacticForces {
  import opened RealFacts
  import opened Vectors
  import opened GalacticRelax

  // --- One spring, one push ---------------------------------------------------------

  /** k / far times gap, far being the gap or 1 if that is more. */
  lemma PerUnit(k: real, gap: real)
    requires k >= 0.0 && gap >= 0.0
    ensures k / AtLeastOne(gap) >= 0.0
    ensures Times(k / AtLeastOne(gap), gap) == if gap < 1.0 then Times(k, gap) else k
  {
  }

  /** A spring draws its first end towards its second, by K_EDGE times its weight; by less if they are less than 1 apart. */
  lemma SpringDraws(norm: Vec -> real, x: seq<Vec>, s: Spring)
    requires Euclidean(norm) && s.li < |x| && s.lj < |x| && s.w >= 0.0
    ensures
      var d := Sub(x[s.lj], x[s.li]);
      Along(norm, Pull(norm, x, s), d, if norm(d) < 1.0 then Times(K_EDGE * s.w, norm(d)) else K_EDGE * s.w)
  {
    hide Euclidean, Times, Scale, Along, AtLeastOne;
    var d := Sub(x[s.lj], x[s.li]);
    NoLengthIsOrigin(norm, d);
    PerUnit(K_EDGE * s.w, norm(d));
    ScaledIsAlong(norm, K_EDGE * s.w / AtLeastOne(norm(d)), d);
  }

  /** Newton's law, tamed below a distance of 1. */
  function Repulsion(gap: real): real {
    if gap < 1.0 then K_REPULSION * gap else K_REPULSION / (gap * gap)
  }

  lemma Cubed(gap: real)
    requires gap >= 0.0
    ensures PushFactor(gap) >= 0.0
    ensures Times(PushFactor(gap), gap) == Repulsion(gap)
  {
    if gap >= 1.0 {
      ProductGrows(1.0, 1.0, gap, gap);
      var sq := gap * gap;
      ProductGrows(1.0, 1.0, sq, gap);
      CancelOne(K_REPULSION, sq, gap);
    }
  }

  lemma CancelOne(k: real, a: real, b: real)
    requires k >= 0.0 && a >= 1.0 && b >= 1.0 && a * b >= 1.0
    ensures k / (a * b) >= 0.0 && Times(k / (a * b), b) == k / a
  {
    var q := k / (a * b);
    assert q * (a * b) == k;
    assert (q * b) * a == q * (a * b);
  }

  /** Repulsion drives the first away from the second, inversely to the square of their distance, if that is at least 1. */
  lemma RepulsionParts(norm: Vec -> real, a: Vec, b: Vec)
    requires Euclidean(norm)
    ensures
      var d := Sub(a, b);
      Along(norm, Push(norm, a, b), d, Repulsion(norm(d)))
  {
    hide Euclidean, Times, Scale, Along, PushFactor, Repulsion;
    var d := Sub(a, b);
    NoLengthIsOrigin(norm, d);
    Cubed(norm(d));
    ScaledIsAlong(norm, PushFactor(norm(d)), d);
  }

  // --- The force on a member -----------------------------------------------------------

  /** What the springs below n give to member i: their pull on a first end, the opposite on a second. */
  ghost function Drawn(norm: Vec -> real, x: seq<Vec>, springs: seq<Spring>, i: nat, n: nat): Vec
    requires n <= |springs| && InGroup(springs, |x|)
  {
    if n == 0 then ORIGIN
    else
      var pull := Pull(norm, x, springs[n - 1]);
      Add(Drawn(norm, x, springs, i, n - 1),
        Add(if springs[n - 1].li == i then pull else ORIGIN, if springs[n - 1].lj == i then Neg(pull) else ORIGIN))
  }

  /** The values an indexed addition brings to place i. */
  ghost function Collected(idx: seq<nat>, vals: seq<Vec>, i: nat, n: nat): Vec
    requires |idx| == |vals| && n <= |idx|
  {
    if n == 0 then ORIGIN else Add(Collected(idx, vals, i, n - 1), if idx[n - 1] == i then vals[n - 1] else ORIGIN)
  }

  lemma {:induction false} CollectedPrefix(idx: seq<nat>, vals: seq<Vec>, i: nat, m: nat, n: nat)
    requires |idx| == |vals| && n <= m <= |idx|
    ensures Collected(idx[..m], vals[..m], i, n) == Collected(idx, vals, i, n)
  {
    if n > 0 {
      CollectedPrefix(idx, vals, i, m, n - 1);
    }
  }

  lemma {:induction false} AddAtCollects(f: seq<Vec>, idx: seq<nat>, vals: seq<Vec>, i: nat)
    requires |idx| == |vals| && (forall k :: 0 <= k < |idx| ==> idx[k] < |f|) && i < |f|
    ensures AddAt(f, idx, vals)[i] == Add(f[i], Collected(idx, vals, i, |idx|))
    decreases |idx|
  {
    hide Add;
    AddAssociates(f[i], ORIGIN, ORIGIN);
    if |idx| > 0 {
      var n := |idx| - 1;
      var g := AddAt(f, idx[..n], vals[..n]);
      AddAtCollects(f, idx[..n], vals[..n], i);
      CollectedPrefix(idx, vals, i, n, n);
      AddAssociates(f[i], Collected(idx, vals, i, n), vals[n]);
      AddAssociates(Collected(idx, vals, i, n), ORIGIN, ORIGIN);
      assert AddAt(f, idx, vals) == g[idx[n] := Add(g[idx[n]], vals[n])];
    }
  }

  lemma {:induction false} DrawnIsCollected(norm: Vec -> real, x: seq<Vec>, springs: seq<Spring>, i: nat, n: nat)
    requires InGroup(springs, |x|) && n <= |springs|
    ensures
      var pulls := Pulls(norm, x, springs);
      Drawn(norm, x, springs, i, n) == Add(Collected(Firsts(springs), pulls, i, n), Collected(Seconds(springs), Opposite(pulls), i, n))
  {
    hide Pull;
    if n > 0 {
      DrawnIsCollected(norm, x, springs, i, n - 1);
    }
  }

  /** Every spring counts, whether or not an end is shared: np.add.at loses nothing. */
  lemma ForceOn(norm: Vec -> real, place: seq<Vec>, x: seq<Vec>, springs: seq<Spring>, i: nat)
    requires |place| == |x| && InGroup(springs, |x|) && i < |x|
    ensures Force(norm, place, x, springs)[i] ==
      Add(Add(Scale(K_PLACE, Sub(place[i], x[i])), Kick(norm, x, i, |x|)), Drawn(norm, x, springs, i, |springs|))
  {
    hide Scale, Kick, Pulls, AddAt, Collected, Drawn, Add, Pull;
    var pulls := Pulls(norm, x, springs);
    var base := Together(Anchored(place, x), Kicks(norm, x));
    AddAtCollects(base, Firsts(springs), pulls, i);
    AddAtCollects(AddAt(base, Firsts(springs), pulls), Seconds(springs), Opposite(pulls), i);
    DrawnIsCollected(norm, x, springs, i, |springs|);
    AddAssociates(base[i], Collected(Firsts(springs), pulls, i, |springs|), Collected(Seconds(springs), Opposite(pulls), i, |springs|));
  }

  lemma {:induction false} NoSpringNoDraw(norm: Vec -> real, x: seq<Vec>, springs: seq<Spring>, i: nat, n: nat)
    requires InGroup(springs, |x|) && n <= |springs|
    requires forall k :: 0 <= k < n ==> springs[k].li != i && springs[k].lj != i
    ensures Drawn(norm, x, springs, i, n) == ORIGIN
  {
    hide Pull;
    if n > 0 {
      NoSpringNoDraw(norm, x, springs, i, n - 1);
    }
  }

  lemma {:induction false} NobodyNearNoKick(norm: Vec -> real, x: seq<Vec>, i: nat, n: nat)
    requires i < |x| && n <= |x| && forall j :: 0 <= j < n ==> !Near(norm, x, i, j)
    ensures Kick(norm, x, i, n) == ORIGIN
  {
    hide Near, Push;
    if n > 0 {
      NobodyNearNoKick(norm, x, i, n - 1);
    }
  }

  /** Where a step takes a member at rest. */
  lemma StepFromRest(norm: Vec -> real, place: seq<Vec>, springs: seq<Spring>, s: Motion, i: nat)
    requires |place| == |s.x| == |s.v| && InGroup(springs, |place|) && i < |place| && s.v[i] == ORIGIN
    ensures Step(norm, place, springs, s).x[i] ==
      Add(s.x[i], Scale(RELAX_DT, Scale(RELAX_DT, Force(norm, place, s.x, springs)[i])))
  {
    hide Scale, Force;
    ScaleAdds(VELOCITY_DAMPING, ORIGIN, ORIGIN);
  }

  lemma SubThenAdd(p: Vec, x: Vec, m: Vec)
    ensures Sub(p, Add(x, m)) == Sub(Sub(p, x), m)
  {
  }

  /** A member at rest that no spring and no neighbour touches is brought back towards its place by dt^2 * K_PLACE of the way. */
  lemma AnchorDrawsBack(norm: Vec -> real, place: seq<Vec>, springs: seq<Spring>, s: Motion, i: nat)
    requires Euclidean(norm) && |place| == |s.x| == |s.v| && InGroup(springs, |place|) && i < |place| && s.v[i] == ORIGIN
    requires forall k :: 0 <= k < |springs| ==> springs[k].li != i && springs[k].lj != i
    requires forall j :: 0 <= j < |place| ==> !Near(norm, s.x, i, j)
    ensures
      var was, now := Sub(place[i], s.x[i]), Sub(place[i], Step(norm, place, springs, s).x[i]);
      Along(norm, now, was, Times(1.0 - RELAX_DT * RELAX_DT * K_PLACE, norm(was)))
  {
    var was := Sub(place[i], s.x[i]);
    hide Euclidean, Times, Scale, Along, Force, Step, Kick, Near, Drawn;
    StepFromRest(norm, place, springs, s, i);
    ForceOn(norm, place, s.x, springs, i);
    NoSpringNoDraw(norm, s.x, springs, i, |springs|);
    NobodyNearNoKick(norm, s.x, i, |place|);
    assert Force(norm, place, s.x, springs)[i] == Scale(K_PLACE, was);
    ScaleTwice(RELAX_DT, K_PLACE, was);
    ScaleTwice(RELAX_DT, Times(RELAX_DT, K_PLACE), was);
    var k := Times(RELAX_DT, Times(RELAX_DT, K_PLACE));
    assert k == RELAX_DT * RELAX_DT * K_PLACE by { AnchorFactor(); }
    SubThenAdd(place[i], s.x[i], Scale(k, was));
    ScaleMinus(k, was);
    ScaledIsAlong(norm, 1.0 - k, was);
  }

  lemma AnchorFactor()
    ensures Times(RELAX_DT, Times(RELAX_DT, K_PLACE)) == RELAX_DT * RELAX_DT * K_PLACE
  {
  }

  // --- Two members -------------------------------------------------------------------------

  /** A pair, joined by a spring in either order, or by none if the weight is 0. */
  predicate Joins(s: Spring, w: real) {
    s.w == w && ((s.li == 0 && s.lj == 1) || (s.li == 1 && s.lj == 0))
  }

  /** What drives two members apart less what draws them together. */
  function Driven(gap: real, w: real): real {
    (if gap < REPULSION_CUTOFF then Repulsion(gap) else 0.0) - K_EDGE * w
  }

  /** The factor of the gap vector in the force on the first. */
  function Rate(gap: real, w: real): real {
    (if gap < REPULSION_CUTOFF then PushFactor(gap) else 0.0) - K_EDGE * w / AtLeastOne(gap)
  }

  lemma PullOnFirst(norm: Vec -> real, place: seq<Vec>, s: Spring, w: real)
    requires Euclidean(norm) && |place| == 2 && Joins(s, w)
    ensures
      var v := Sub(place[0], place[1]);
      && Drawn(norm, place, [s], 0, 1) == Neg(Scale(K_EDGE * w / AtLeastOne(norm(v)), v))
      && Drawn(norm, place, [s], 1, 1) == Scale(K_EDGE * w / AtLeastOne(norm(v)), v)
  {
    hide Euclidean, Scale, AtLeastOne;
    var v := Sub(place[0], place[1]);
    assert Sub(place[1], place[0]) == Neg(v);
    NormOfNeg(norm, v);
    ScaleAdds(K_EDGE * w / AtLeastOne(norm(v)), v, ORIGIN);
    assert Drawn(norm, place, [s], 0, 0) == ORIGIN && Drawn(norm, place, [s], 1, 0) == ORIGIN;
  }

  lemma KickOnPair(norm: Vec -> real, place: seq<Vec>)
    requires Euclidean(norm) && |place| == 2
    ensures
      var v := Sub(place[0], place[1]);
      var k := if norm(v) < REPULSION_CUTOFF then PushFactor(norm(v)) else 0.0;
      Kick(norm, place, 0, 2) == Scale(k, v) && Kick(norm, place, 1, 2) == Neg(Scale(k, v))
  {
    hide Euclidean, Push, PushFactor, Scale;
    var v := Sub(place[0], place[1]);
    PushReaction(norm, place[0], place[1]);
    assert Push(norm, place[0], place[1]) == Scale(PushFactor(norm(v)), v) by { PushAlong(norm, place[0], place[1], v, norm(v)); }
    ScaleZero(v);
    assert !Near(norm, place, 0, 0) && !Near(norm, place, 1, 1);
    assert Near(norm, place, 0, 1) == Near(norm, place, 1, 0) == (norm(v) < REPULSION_CUTOFF);
    hide Near;
    assert Kick(norm, place, 0, 0) == ORIGIN && Kick(norm, place, 1, 0) == ORIGIN;
    assert Kick(norm, place, 0, 1) == ORIGIN;
    assert Kick(norm, place, 1, 1) == if Near(norm, place, 1, 0) then Push(norm, place[1], place[0]) else ORIGIN;
    assert Kick(norm, place, 1, 2) == Kick(norm, place, 1, 1);
  }

  /** Two members at their places: the forces on them are opposite. */
  lemma PairForces(norm: Vec -> real, place: seq<Vec>, s: Spring, w: real)
    requires Euclidean(norm) && |place| == 2 && Joins(s, w)
    ensures
      var v := Sub(place[0], place[1]);
      var f := Force(norm, place, place, [s]);
      f[0] == Scale(Rate(norm(v), w), v) && f[1] == Neg(f[0])
  {
    hide Euclidean, Scale, Force, Kick, Drawn, AtLeastOne, PushFactor, Add, Neg;
    var v := Sub(place[0], place[1]);
    var k := if norm(v) < REPULSION_CUTOFF then PushFactor(norm(v)) else 0.0;
    var c := K_EDGE * w / AtLeastOne(norm(v));
    ForceOn(norm, place, place, [s], 0);
    ForceOn(norm, place, place, [s], 1);
    assert Sub(place[0], place[0]) == ORIGIN && Sub(place[1], place[1]) == ORIGIN;
    ScaleAdds(K_PLACE, ORIGIN, ORIGIN);
    KickOnPair(norm, place);
    PullOnFirst(norm, place, s, w);
    Reversed(Scale(k, v), Scale(c, v));
    ScaleLess(k, c, v);
  }

  lemma Reversed(a: Vec, b: Vec)
    ensures Add(Add(ORIGIN, a), Neg(b)) == Add(a, Neg(b))
    ensures Add(Add(ORIGIN, Neg(a)), b) == Neg(Add(a, Neg(b)))
  {
  }

  lemma PairMoves(norm: Vec -> real, place: seq<Vec>, s: Spring, w: real)
    requires Euclidean(norm) && |place| == 2 && Joins(s, w)
    ensures
      var v, x := Sub(place[0], place[1]), Relaxed(norm, place, [s], 1);
      Sub(x[0], x[1]) == Scale(1.0 + 2.0 * (RELAX_DT * RELAX_DT * Rate(norm(v), w)), v)
  {
    hide Euclidean, Times, Scale, Force, Step, Rate;
    var v := Sub(place[0], place[1]);
    var r := Rate(norm(v), w);
    var start := Motion(place, Still(2));
    var x := Relaxed(norm, place, [s], 1);
    assert x == Step(norm, place, [s], start).x;
    hide Relaxed;
    PairForces(norm, place, s, w);
    StepFromRest(norm, place, [s], start, 0);
    StepFromRest(norm, place, [s], start, 1);
    var f := Scale(r, v);
    ScaleAdds(RELAX_DT, f, ORIGIN);
    ScaleAdds(RELAX_DT, Scale(RELAX_DT, f), ORIGIN);
    ScaleTwice(RELAX_DT, r, v);
    ScaleTwice(RELAX_DT, Times(RELAX_DT, r), v);
    var k := Times(RELAX_DT, Times(RELAX_DT, r));
    assert k == RELAX_DT * RELAX_DT * r by { TimesTwice(r); }
    GapWidens(place[0], place[1], Scale(k, v));
    ScalePlus(k, v);
  }

  lemma TimesTwice(r: real)
    ensures Times(RELAX_DT, Times(RELAX_DT, r)) == RELAX_DT * RELAX_DT * r
  {
  }

  lemma RateTimesGap(gap: real, w: real)
    requires gap >= 1.0
    ensures Times(Rate(gap, w), gap) == Driven(gap, w)
  {
    hide PushFactor;
    Cubed(gap);
    var q := K_EDGE * w / gap;
    assert q * gap == K_EDGE * w;
    if gap < REPULSION_CUTOFF {
      Distribute(gap, PushFactor(gap), q);
    }
  }

  /**
   Two members at rest at their places, 1 or more apart and joined by a spring of
   weight w: one iteration lengthens their gap by exactly twice dt^2 times what
   drives them apart (K_REPULSION over the square of the gap, below the cutoff)
   less what draws them together (K_EDGE times w), unless they would pass each
   other; and it turns neither.
   */
  lemma PairGapAfter(norm: Vec -> real, place: seq<Vec>, s: Spring, w: real)
    requires Euclidean(norm) && |place| == 2 && Joins(s, w) && norm(Sub(place[0], place[1])) >= 1.0
    ensures
      var v, x := Sub(place[0], place[1]), Relaxed(norm, place, [s], 1);
      var gap := norm(v) + 2.0 * RELAX_DT * RELAX_DT * Driven(norm(v), w);
      gap >= 0.0 ==> Along(norm, Sub(x[0], x[1]), v, gap)
  {
    hide Euclidean, Times, Scale, Relaxed, Rate, Driven, Along;
    var v := Sub(place[0], place[1]);
    var gap := norm(v) + 2.0 * RELAX_DT * RELAX_DT * Driven(norm(v), w);
    PairMoves(norm, place, s, w);
    RateTimesGap(norm(v), w);
    var k := 1.0 + 2.0 * (RELAX_DT * RELAX_DT * Rate(norm(v), w));
    FactorTimesGap(Rate(norm(v), w), norm(v));
    assert Times(k, norm(v)) == gap;
    if gap >= 0.0 {
      FactorNonNegative(k, norm(v));
      ScaledIsAlong(norm, k, v);
    }
  }

  lemma FactorTimesGap(r: real, gap: real)
    ensures Times(1.0 + 2.0 * (RELAX_DT * RELAX_DT * r), gap) == gap + 2.0 * RELAX_DT * RELAX_DT * Times(r, gap)
  {
  }

  lemma FactorNonNegative(k: real, gap: real)
    requires gap >= 1.0 && Times(k, gap) >= 0.0
    ensures k >= 0.0
  {
  }

  /** So beyond the cutoff a spring brings two members closer by exactly 2 * dt^2 * K_EDGE * w, until they meet. */
  lemma SpringBringsCloser(norm: Vec -> real, place: seq<Vec>, s: Spring, w: real)
    requires Euclidean(norm) && |place| == 2 && Joins(s, w) && w > 0.0
    requires norm(Sub(place[0], place[1])) >= REPULSION_CUTOFF
    requires 2.0 * RELAX_DT * RELAX_DT * K_EDGE * w <= norm(Sub(place[0], place[1]))
    ensures
      var v, x := Sub(place[0], place[1]), Relaxed(norm, place, [s], 1);
      Along(norm, Sub(x[0], x[1]), v, norm(v) - 2.0 * RELAX_DT * RELAX_DT * K_EDGE * w)
  {
    hide Euclidean, Relaxed, Along;
    PairGapAfter(norm, place, s, w);
  }

  // --- The run ------------------------------------------------------------------------------

  /** A member on which no force acts keeps its course and loses the same share of its speed in each step. */
  lemma CoastingSlows(norm: Vec -> real, place: seq<Vec>, springs: seq<Spring>, s: Motion, i: nat)
    requires Euclidean(norm) && |place| == |s.x| == |s.v| && InGroup(springs, |place|) && i < |place|
    requires Force(norm, place, s.x, springs)[i] == ORIGIN
    ensures
      var s' := Step(norm, place, springs, s);
      && Along(norm, s'.v[i], s.v[i], Times(VELOCITY_DAMPING, norm(s.v[i])))
      && s'.x[i] == Add(s.x[i], Scale(RELAX_DT, s'.v[i]))
  {
    hide Euclidean, Scale, Force, Times, Along;
    ScaleAdds(RELAX_DT, ORIGIN, ORIGIN);
    AddAssociates(Scale(VELOCITY_DAMPING, s.v[i]), ORIGIN, ORIGIN);
    ScaledIsAlong(norm, VELOCITY_DAMPING, s.v[i]);
  }

  /** The motion after n steps, nobody looking whether it has settled. */
  ghost function After(norm: Vec -> real, place: seq<Vec>, springs: seq<Spring>, s: Motion, n: nat): (s': Motion)
    requires |place| == |s.x| == |s.v| && InGroup(springs, |place|)
    ensures |place| == |s'.x| == |s'.v|
  {
    if n == 0 then s else Step(norm, place, springs, After(norm, place, springs, s, n - 1))
  }

  lemma {:induction false} StepFirst(norm: Vec -> real, place: seq<Vec>, springs: seq<Spring>, s: Motion, n: nat)
    requires |place| == |s.x| == |s.v| && InGroup(springs, |place|)
    ensures After(norm, place, springs, Step(norm, place, springs, s), n) == After(norm, place, springs, s, n + 1)
    decreases n
  {
    hide Step;
    if n > 0 {
      StepFirst(norm, place, springs, s, n - 1);
    } else {
      assert After(norm, place, springs, s, 0) == s;
    }
  }

  /** No coordinate of any member moves by as much as a thousandth a time unit. */
  predicate Slow(v: seq<Vec>) {
    forall i :: 0 <= i < |v| ==> -0.001 < v[i].x < 0.001 && -0.001 < v[i].y < 0.001 && -0.001 < v[i].z < 0.001
  }

  lemma SlowIsSettled(v: seq<Vec>)
    ensures Slow(v) <==> Settled(v)
  {
    if Settled(v) {
      forall i | 0 <= i < |v| ensures -0.001 < v[i].x < 0.001 && -0.001 < v[i].y < 0.001 && -0.001 < v[i].z < 0.001 {
        assert Magnitude(v[i].x) < SETTLED;
      }
    }
  }

  /** n is where the loop ends: the first step after which all is slow, or the end of the budget. */
  ghost predicate EndsAt(norm: Vec -> real, place: seq<Vec>, springs: seq<Spring>, s: Motion, budget: nat, n: nat)
    requires |place| == |s.x| == |s.v| && InGroup(springs, |place|)
  {
    && n <= budget && (n < budget ==> n > 0 && Slow(After(norm, place, springs, s, n).v))
    && forall k: nat :: 0 < k < n ==> !Slow(After(norm, place, springs, s, k).v)
  }

  /** The relaxation answers the positions of its last step, and takes as many as the budget and the early exit allow. */
  lemma {:induction false} RunEndsAt(norm: Vec -> real, place: seq<Vec>, springs: seq<Spring>, s: Motion, budget: nat)
    requires |place| == |s.x| == |s.v| && InGroup(springs, |place|)
    ensures exists n: nat :: EndsAt(norm, place, springs, s, budget, n) && Run(norm, place, springs, s, budget) == After(norm, place, springs, s, n).x
    decreases budget
  {
    hide Step, Settled, Slow;
    assert After(norm, place, springs, s, 0) == s;
    if budget == 0 {
      assert EndsAt(norm, place, springs, s, 0, 0);
    } else {
      var s' := Step(norm, place, springs, s);
      SlowIsSettled(s'.v);
      assert After(norm, place, springs, s, 1) == s';
      if Settled(s'.v) {
        assert EndsAt(norm, place, springs, s, budget, 1);
      } else {
        RunEndsAt(norm, place, springs, s', budget - 1);
        var n: nat :| EndsAt(norm, place, springs, s', budget - 1, n)
          && Run(norm, place, springs, s', budget - 1) == After(norm, place, springs, s', n).x;
        EndsLater(norm, place, springs, s, budget, n);
      }
    }
  }

  lemma EndsLater(norm: Vec -> real, place: seq<Vec>, springs: seq<Spring>, s: Motion, budget: nat, n: nat)
    requires |place| == |s.x| == |s.v| && InGroup(springs, |place|) && budget > 0
    requires !Slow(Step(norm, place, springs, s).v)
    requires EndsAt(norm, place, springs, Step(norm, place, springs, s), budget - 1, n)
    ensures EndsAt(norm, place, springs, s, budget, n + 1)
    ensures After(norm, place, springs, Step(norm, place, springs, s), n) == After(norm, place, springs, s, n + 1)
  {
    hide Step, Settled, Slow;
    var s' := Step(norm, place, springs, s);
    StepFirst(norm, place, springs, s, n);
    forall k: nat | 0 < k < n + 1 ensures !Slow(After(norm, place, springs, s, k).v) {
      StepFirst(norm, place, springs, s, k - 1);
      assert k == 1 ==> After(norm, place, springs, s', 0) == s';
    }
  }
}
