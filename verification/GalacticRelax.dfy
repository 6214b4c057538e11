/**
 relax_in_groups of galactic_layout.py: spring-electrical relaxation inside one
 group. Repulsion is added through an indexed `+=`, and where an index repeats
 in such an assignment only the last value arrives.
 */
module GalacticRelax {
  import opened RealFacts
  import opened Vectors

  const K_PLACE := 0.35
  const K_EDGE := 0.05
  const K_REPULSION := 400.0
  const REPULSION_CUTOFF := 30.0
  const VELOCITY_DAMPING := 0.85
  const RELAX_DT := 0.3
  const SETTLED := 0.001

  /** An edge inside a group, by local member index. */
  datatype Spring = Spring(li: nat, lj: nat, w: real)

  ghost predicate InGroup(springs: seq<Spring>, m: nat) {
    forall k :: 0 <= k < |springs| ==> springs[k].li < m && springs[k].lj < m
  }

  function AtLeastOne(d: real): (r: real)
    ensures r >= 1.0
  {
    if d < 1.0 then 1.0 else d
  }

  /** K_REPULSION / max(dist, 1)^3 */
  function PushFactor(d: real): real {
    var far := AtLeastOne(d);
    K_REPULSION / (far * far * far)
  }

  function Push(norm: Vec -> real, a: Vec, b: Vec): Vec {
    Scale(PushFactor(norm(Sub(a, b))), Sub(a, b))
  }

  predicate Near(norm: Vec -> real, x: seq<Vec>, i: nat, j: nat)
    requires i < |x| && j < |x|
  {
    i != j && norm(Sub(x[i], x[j])) < REPULSION_CUTOFF
  }

  /** What row i receives from the columns below n: the push of the last near one, for the others are overwritten. */
  function Kick(norm: Vec -> real, x: seq<Vec>, i: nat, n: nat): Vec
    requires i < |x| && n <= |x|
  {
    if n == 0 then ORIGIN
    else if Near(norm, x, i, n - 1) then Push(norm, x[i], x[n - 1])
    else Kick(norm, x, i, n - 1)
  }

  function Kicks(norm: Vec -> real, x: seq<Vec>): (k: seq<Vec>)
    ensures |k| == |x|
  {
    seq(|x|, i requires 0 <= i < |x| => Kick(norm, x, i, |x|))
  }

  /** The pull of a spring on its first end. */
  function Pull(norm: Vec -> real, x: seq<Vec>, s: Spring): Vec
    requires s.li < |x| && s.lj < |x|
  {
    var d := Sub(x[s.lj], x[s.li]);
    Scale(K_EDGE * s.w / AtLeastOne(norm(d)), d)
  }

  function Pulls(norm: Vec -> real, x: seq<Vec>, springs: seq<Spring>): (p: seq<Vec>)
    requires InGroup(springs, |x|)
    ensures |p| == |springs|
  {
    seq(|springs|, k requires 0 <= k < |springs| => Pull(norm, x, springs[k]))
  }

  /** np.add.at(f, idx, vals): every value arrives, repeated indices included. */
  function AddAt(f: seq<Vec>, idx: seq<nat>, vals: seq<Vec>): (g: seq<Vec>)
    requires |idx| == |vals| && forall k :: 0 <= k < |idx| ==> idx[k] < |f|
    ensures |g| == |f|
  {
    if |idx| == 0 then f
    else
      var n := |idx| - 1;
      var g := AddAt(f, idx[..n], vals[..n]);
      g[idx[n] := Add(g[idx[n]], vals[n])]
  }

  function Firsts(springs: seq<Spring>): (f: seq<nat>)
    ensures |f| == |springs|
  {
    seq(|springs|, k requires 0 <= k < |springs| => springs[k].li)
  }

  function Seconds(springs: seq<Spring>): (f: seq<nat>)
    ensures |f| == |springs|
  {
    seq(|springs|, k requires 0 <= k < |springs| => springs[k].lj)
  }

  function Opposite(v: seq<Vec>): (o: seq<Vec>)
    ensures |o| == |v|
  {
    seq(|v|, k requires 0 <= k < |v| => Neg(v[k]))
  }

  /** The anchor force K_PLACE * (place - x). */
  function Anchored(place: seq<Vec>, x: seq<Vec>): (f: seq<Vec>)
    requires |place| == |x|
    ensures |f| == |x|
  {
    seq(|x|, i requires 0 <= i < |x| => Scale(K_PLACE, Sub(place[i], x[i])))
  }

  function Together(a: seq<Vec>, b: seq<Vec>): (c: seq<Vec>)
    requires |a| == |b|
    ensures |c| == |a|
  {
    seq(|a|, i requires 0 <= i < |a| => Add(a[i], b[i]))
  }

  function Force(norm: Vec -> real, place: seq<Vec>, x: seq<Vec>, springs: seq<Spring>): (f: seq<Vec>)
    requires |place| == |x| && InGroup(springs, |x|)
    ensures |f| == |x|
  {
    var pulls := Pulls(norm, x, springs);
    AddAt(AddAt(Together(Anchored(place, x), Kicks(norm, x)), Firsts(springs), pulls), Seconds(springs), Opposite(pulls))
  }

  datatype Motion = Motion(x: seq<Vec>, v: seq<Vec>)

  function NextVelocity(v: seq<Vec>, force: seq<Vec>): (v': seq<Vec>)
    requires |v| == |force|
    ensures |v'| == |v|
  {
    seq(|v|, i requires 0 <= i < |v| => Add(Scale(VELOCITY_DAMPING, v[i]), Scale(RELAX_DT, force[i])))
  }

  function NextPosition(x: seq<Vec>, v: seq<Vec>): (x': seq<Vec>)
    requires |v| == |x|
    ensures |x'| == |x|
  {
    seq(|x|, i requires 0 <= i < |x| => Add(x[i], Scale(RELAX_DT, v[i])))
  }

  /** Symplectic Euler: velocity first. */
  function Step(norm: Vec -> real, place: seq<Vec>, springs: seq<Spring>, s: Motion): (s': Motion)
    requires |place| == |s.x| == |s.v| && InGroup(springs, |place|)
    ensures |s'.x| == |s'.v| == |place|
  {
    var v := NextVelocity(s.v, Force(norm, place, s.x, springs));
    Motion(NextPosition(s.x, v), v)
  }

  function Magnitude(a: real): real {
    if a < 0.0 then -a else a
  }

  predicate Settled(v: seq<Vec>) {
    forall i :: 0 <= i < |v| ==> Magnitude(v[i].x) < SETTLED && Magnitude(v[i].y) < SETTLED && Magnitude(v[i].z) < SETTLED
  }

  /** The budgeted loop with its early exit. */
  function Run(norm: Vec -> real, place: seq<Vec>, springs: seq<Spring>, s: Motion, budget: nat): (x: seq<Vec>)
    requires |place| == |s.x| == |s.v| && InGroup(springs, |place|)
    ensures |x| == |place|
    decreases budget
  {
    if budget == 0 then s.x
    else
      var s' := Step(norm, place, springs, s);
      if Settled(s'.v) then s'.x else Run(norm, place, springs, s', budget - 1)
  }

  function Still(n: nat): seq<Vec> {
    seq(n, _ => ORIGIN)
  }

  /** The relaxed positions of a group placed at `place`. */
  function Relaxed(norm: Vec -> real, place: seq<Vec>, springs: seq<Spring>, budget: nat): (x: seq<Vec>)
    requires InGroup(springs, |place|)
    ensures |x| == |place|
  {
    Run(norm, place, springs, Motion(place, Still(|place|)), budget)
  }

  // --- What moves the centroid ----------------------------------------------

  lemma {:induction false} SumOfAddAt(f: seq<Vec>, idx: seq<nat>, vals: seq<Vec>)
    requires |idx| == |vals| && forall k :: 0 <= k < |idx| ==> idx[k] < |f|
    ensures SumOf(AddAt(f, idx, vals)) == Add(SumOf(f), SumOf(vals))
  {
    if |idx| > 0 {
      var n := |idx| - 1;
      SumOfAddAt(f, idx[..n], vals[..n]);
      var g := AddAt(f, idx[..n], vals[..n]);
      SumOfUpdate(g, idx[n], Add(g[idx[n]], vals[n]));
    }
  }

  lemma {:induction false} SumOfOpposite(v: seq<Vec>)
    ensures SumOf(Opposite(v)) == Neg(SumOf(v))
  {
    if |v| > 0 {
      var n := |v| - 1;
      SumOfOpposite(v[..n]);
      assert Opposite(v)[..n] == Opposite(v[..n]);
    }
  }

  lemma {:induction false} SumOfAnchored(place: seq<Vec>, x: seq<Vec>)
    requires |place| == |x|
    ensures SumOf(Anchored(place, x)) == Scale(K_PLACE, Sub(SumOf(place), SumOf(x)))
  {
    hide Times;
    if |x| == 0 {
      ScaleAdds(K_PLACE, ORIGIN, ORIGIN);
    } else {
      var n := |x| - 1;
      SumOfAnchored(place[..n], x[..n]);
      assert Anchored(place, x)[..n] == Anchored(place[..n], x[..n]);
      ScaleAdds(K_PLACE, Sub(SumOf(place[..n]), SumOf(x[..n])), Sub(place[n], x[n]));
    }
  }

  /** Springs cancel in pairs; the net force is the anchors' and what the kicks leave over. */
  lemma NetForce(norm: Vec -> real, place: seq<Vec>, x: seq<Vec>, springs: seq<Spring>)
    requires |place| == |x| && InGroup(springs, |x|)
    ensures SumOf(Force(norm, place, x, springs)) == Add(Scale(K_PLACE, Sub(SumOf(place), SumOf(x))), SumOf(Kicks(norm, x)))
  {
    hide Times;
    var pulls := Pulls(norm, x, springs);
    var base := Together(Anchored(place, x), Kicks(norm, x));
    SumOfAddAt(base, Firsts(springs), pulls);
    SumOfAddAt(AddAt(base, Firsts(springs), pulls), Seconds(springs), Opposite(pulls));
    SumOfOpposite(pulls);
    SumOfAnchored(place, x);
    SumOfSums(Anchored(place, x), Kicks(norm, x), base);
  }

  /** At rest overall, and centred where it was placed. */
  ghost predicate Balanced(place: seq<Vec>, s: Motion) {
    |place| == |s.x| == |s.v| && SumOf(s.v) == ORIGIN && SumOf(s.x) == SumOf(place)
  }

  lemma SumOfNextVelocity(v: seq<Vec>, force: seq<Vec>)
    requires |v| == |force|
    ensures SumOf(NextVelocity(v, force)) == Add(Scale(VELOCITY_DAMPING, SumOf(v)), Scale(RELAX_DT, SumOf(force)))
  {
    hide Times;
    var still := seq(|v|, _ => ORIGIN);
    var damped := seq(|v|, i requires 0 <= i < |v| => Scale(VELOCITY_DAMPING, v[i]));
    SumOfZeros(still);
    SumOfMix(still, VELOCITY_DAMPING, v, damped);
    SumOfMix(damped, RELAX_DT, force, NextVelocity(v, force));
  }

  lemma SumOfNextPosition(x: seq<Vec>, v: seq<Vec>)
    requires |v| == |x|
    ensures SumOf(NextPosition(x, v)) == Add(SumOf(x), Scale(RELAX_DT, SumOf(v)))
  {
    hide Times;
    SumOfMix(x, RELAX_DT, v, NextPosition(x, v));
  }

  /** One step of a balanced group shifts its coordinate sum by dt^2 times the sum of the kicks. */
  lemma StepShift(norm: Vec -> real, place: seq<Vec>, springs: seq<Spring>, s: Motion)
    requires Balanced(place, s) && InGroup(springs, |place|)
    ensures
      var s' := Step(norm, place, springs, s);
      var kick := SumOf(Kicks(norm, s.x));
      SumOf(s'.v) == Scale(RELAX_DT, kick) && SumOf(s'.x) == Add(SumOf(place), Scale(RELAX_DT, Scale(RELAX_DT, kick)))
  {
    hide Times, Scale, Force, Kicks, NextVelocity, NextPosition, SumOf;
    var f := Force(norm, place, s.x, springs);
    var kick := SumOf(Kicks(norm, s.x));
    NetForce(norm, place, s.x, springs);
    assert Sub(SumOf(place), SumOf(s.x)) == ORIGIN;
    ScaleAdds(K_PLACE, ORIGIN, ORIGIN);
    assert SumOf(f) == kick;
    ScaleAdds(VELOCITY_DAMPING, ORIGIN, ORIGIN);
    SumOfNextVelocity(s.v, f);
    SumOfNextPosition(s.x, NextVelocity(s.v, f));
  }

  lemma ScaledAway(v: Vec)
    ensures Scale(RELAX_DT, v) == ORIGIN <==> v == ORIGIN
  {
  }

  /** A step keeps the balance exactly when the kicks it applies sum to zero. */
  lemma StepKeepsCentroid(norm: Vec -> real, place: seq<Vec>, springs: seq<Spring>, s: Motion)
    requires Balanced(place, s) && InGroup(springs, |place|)
    ensures SumOf(Step(norm, place, springs, s).x) == SumOf(place) <==> SumOf(Kicks(norm, s.x)) == ORIGIN
    ensures SumOf(Kicks(norm, s.x)) == ORIGIN ==> Balanced(place, Step(norm, place, springs, s))
  {
    hide Times, Step, Kicks, SumOf;
    StepShift(norm, place, springs, s);
    var kick := SumOf(Kicks(norm, s.x));
    ScaledAway(kick);
    ScaledAway(Scale(RELAX_DT, kick));
  }

  // --- Kicks and intended pushes ---------------------------------------------

  /** The push of j on i, nothing when they are not near. */
  function Contribution(norm: Vec -> real, x: seq<Vec>, i: nat, j: nat): Vec
    requires i < |x| && j < |x|
  {
    if Near(norm, x, i, j) then Push(norm, x[i], x[j]) else ORIGIN
  }

  /** All the pushes of the columns below n on row i. */
  ghost function Pushes(norm: Vec -> real, x: seq<Vec>, i: nat, n: nat): Vec
    requires i < |x| && n <= |x|
  {
    if n == 0 then ORIGIN else Add(Pushes(norm, x, i, n - 1), Contribution(norm, x, i, n - 1))
  }

  /** All the pushes on the rows below k by the columns below n. */
  ghost function Total(norm: Vec -> real, x: seq<Vec>, k: nat, n: nat): Vec
    requires k <= |x| && n <= |x|
  {
    if k == 0 then ORIGIN else Add(Total(norm, x, k - 1, n), Pushes(norm, x, k - 1, n))
  }

  lemma PushReaction(norm: Vec -> real, a: Vec, b: Vec)
    requires Euclidean(norm)
    ensures norm(Sub(b, a)) == norm(Sub(a, b))
    ensures Push(norm, a, b) == Neg(Push(norm, b, a))
  {
    hide Times, PushFactor, Scale, Euclidean;
    var d := Sub(a, b);
    assert Sub(b, a) == Neg(d);
    NormOfNeg(norm, d);
    ScaleAdds(PushFactor(norm(d)), d, ORIGIN);
  }

  /** Newton's third law. */
  lemma Reaction(norm: Vec -> real, x: seq<Vec>, i: nat, j: nat)
    requires Euclidean(norm) && i < |x| && j < |x|
    ensures Contribution(norm, x, i, j) == Neg(Contribution(norm, x, j, i))
  {
    hide Push, Euclidean;
    PushReaction(norm, x[i], x[j]);
  }

  /** A further column adds to the rows what its own row loses. */
  lemma {:induction false} FurtherColumn(norm: Vec -> real, x: seq<Vec>, k: nat, n: nat)
    requires Euclidean(norm) && k <= |x| && n < |x|
    ensures Total(norm, x, k, n + 1) == Sub(Total(norm, x, k, n), Pushes(norm, x, n, k))
  {
    hide Contribution;
    if k > 0 {
      FurtherColumn(norm, x, k - 1, n);
      Reaction(norm, x, k - 1, n);
    }
  }

  /** The pushes of all pairs cancel. */
  lemma {:induction false} PushesCancel(norm: Vec -> real, x: seq<Vec>, n: nat)
    requires Euclidean(norm) && n <= |x|
    ensures Total(norm, x, n, n) == ORIGIN
  {
    if n > 0 {
      PushesCancel(norm, x, n - 1);
      FurtherColumn(norm, x, n - 1, n - 1);
      assert Contribution(norm, x, n - 1, n - 1) == ORIGIN;
    }
  }

  /** No member has two others within the cutoff. */
  ghost predicate Sparse(norm: Vec -> real, x: seq<Vec>) {
    forall i, j, k :: 0 <= i < |x| && 0 <= j < k < |x| ==> !(Near(norm, x, i, j) && Near(norm, x, i, k))
  }

  lemma {:induction false} KickIsPushes(norm: Vec -> real, x: seq<Vec>, i: nat, n: nat)
    requires Sparse(norm, x) && i < |x| && n <= |x|
    ensures Kick(norm, x, i, n) == Pushes(norm, x, i, n)
    ensures (forall j :: 0 <= j < n ==> !Near(norm, x, i, j)) ==> Kick(norm, x, i, n) == ORIGIN
  {
    hide Near, Push;
    if n > 0 {
      KickIsPushes(norm, x, i, n - 1);
    }
  }

  lemma {:induction false} TotalOfKicks(norm: Vec -> real, x: seq<Vec>, k: nat)
    requires Sparse(norm, x) && k <= |x|
    ensures SumOf(Kicks(norm, x)[..k]) == Total(norm, x, k, |x|)
  {
    hide Near;
    if k > 0 {
      TotalOfKicks(norm, x, k - 1);
      assert Kicks(norm, x)[..k][..k - 1] == Kicks(norm, x)[..k - 1];
      KickIsPushes(norm, x, k - 1, |x|);
    }
  }

  /** While no member has two near others, the kicks are all the pushes there are, and they cancel. */
  lemma SparseKicksCancel(norm: Vec -> real, x: seq<Vec>)
    requires Euclidean(norm) && Sparse(norm, x)
    ensures SumOf(Kicks(norm, x)) == ORIGIN
  {
    TotalOfKicks(norm, x, |x|);
    assert Kicks(norm, x)[..|x|] == Kicks(norm, x);
    PushesCancel(norm, x, |x|);
  }

  /** Every position the loop passes through is sparse. */
  ghost predicate SparseThroughout(norm: Vec -> real, place: seq<Vec>, springs: seq<Spring>, s: Motion, budget: nat)
    requires |place| == |s.x| == |s.v| && InGroup(springs, |place|)
    decreases budget
  {
    budget == 0 ||
    (Sparse(norm, s.x) && SparseThroughout(norm, place, springs, Step(norm, place, springs, s), budget - 1))
  }

  /** A run through sparse positions keeps the centroid, whatever its springs. */
  lemma {:induction false} SparseRunKeepsCentroid(norm: Vec -> real, place: seq<Vec>, springs: seq<Spring>, s: Motion, budget: nat)
    requires Euclidean(norm) && Balanced(place, s) && InGroup(springs, |place|)
    requires SparseThroughout(norm, place, springs, s, budget)
    ensures SumOf(Run(norm, place, springs, s, budget)) == SumOf(place)
    decreases budget
  {
    hide Times, Step, Kicks, SumOf, Euclidean;
    if budget > 0 {
      SparseKicksCancel(norm, s.x);
      StepKeepsCentroid(norm, place, springs, s);
      SparseRunKeepsCentroid(norm, place, springs, Step(norm, place, springs, s), budget - 1);
    }
  }

  lemma {:induction false} PairsAreSparse(norm: Vec -> real, place: seq<Vec>, springs: seq<Spring>, s: Motion, budget: nat)
    requires |place| == |s.x| == |s.v| <= 2 && InGroup(springs, |place|)
    ensures SparseThroughout(norm, place, springs, s, budget)
    decreases budget
  {
    hide Step;
    if budget > 0 {
      PairsAreSparse(norm, place, springs, Step(norm, place, springs, s), budget - 1);
    }
  }

  // --- Three members are enough to drift ------------------------------------

  /** Three members ten apart on a line, the others far away. */
  function Spot(i: nat): real {
    if i < 3 then 10.0 * i as real else 1000.0 * i as real
  }

  function OnLine(m: nat): (place: seq<Vec>)
    ensures |place| == m
  {
    seq(m, i requires 0 <= i < m => Vec(Spot(i), 0.0, 0.0))
  }

  lemma LineGap(norm: Vec -> real, m: nat, i: nat, j: nat)
    requires Euclidean(norm) && i < m && j < m
    ensures norm(Sub(OnLine(m)[i], OnLine(m)[j])) == if Spot(i) < Spot(j) then Spot(j) - Spot(i) else Spot(i) - Spot(j)
  {
    hide Euclidean;
    NormOnAxis(norm, if Spot(i) < Spot(j) then Spot(j) - Spot(i) else Spot(i) - Spot(j));
  }

  lemma LineNear(norm: Vec -> real, m: nat, i: nat, j: nat)
    requires Euclidean(norm) && i < m && j < m
    ensures Near(norm, OnLine(m), i, j) <==> i != j && i < 3 && j < 3
  {
    hide Euclidean, OnLine;
    LineGap(norm, m, i, j);
  }

  lemma FactorValues()
    ensures PushFactor(10.0) == 0.4 && PushFactor(20.0) == 0.05
    ensures Scale(0.05, Vec(-20.0, 0.0, 0.0)) == Vec(-1.0, 0.0, 0.0)
    ensures Scale(0.4, Vec(-10.0, 0.0, 0.0)) == Vec(-4.0, 0.0, 0.0)
    ensures Scale(0.4, Vec(10.0, 0.0, 0.0)) == Vec(4.0, 0.0, 0.0)
  {
  }

  lemma PushAlong(norm: Vec -> real, a: Vec, b: Vec, d: Vec, far: real)
    requires Sub(a, b) == d && norm(d) == far
    ensures Push(norm, a, b) == Scale(PushFactor(far), d)
  {
    hide PushFactor, Scale;
  }

  lemma LineDiffs(m: nat)
    requires 3 <= m
    ensures Sub(OnLine(m)[0], OnLine(m)[2]) == Vec(-20.0, 0.0, 0.0)
    ensures Sub(OnLine(m)[1], OnLine(m)[2]) == Vec(-10.0, 0.0, 0.0)
    ensures Sub(OnLine(m)[2], OnLine(m)[1]) == Vec(10.0, 0.0, 0.0)
  {
  }

  lemma LinePush(norm: Vec -> real, m: nat)
    requires Euclidean(norm) && 3 <= m
    ensures Push(norm, OnLine(m)[0], OnLine(m)[2]) == Vec(-1.0, 0.0, 0.0)
    ensures Push(norm, OnLine(m)[1], OnLine(m)[2]) == Vec(-4.0, 0.0, 0.0)
    ensures Push(norm, OnLine(m)[2], OnLine(m)[1]) == Vec(4.0, 0.0, 0.0)
  {
    hide Euclidean, PushFactor, Scale, Push, Sub, OnLine;
    FactorValues();
    LineDiffs(m);
    NormOnAxis(norm, 20.0);
    NormOnAxis(norm, 10.0);
    PushAlong(norm, OnLine(m)[0], OnLine(m)[2], Vec(-20.0, 0.0, 0.0), 20.0);
    PushAlong(norm, OnLine(m)[1], OnLine(m)[2], Vec(-10.0, 0.0, 0.0), 10.0);
    PushAlong(norm, OnLine(m)[2], OnLine(m)[1], Vec(10.0, 0.0, 0.0), 10.0);
  }

  lemma {:induction false} LineKick(norm: Vec -> real, m: nat, i: nat, n: nat)
    requires Euclidean(norm) && 3 <= n <= m && i < m
    ensures Kick(norm, OnLine(m), i, n) ==
            if i == 0 then Vec(-1.0, 0.0, 0.0) else if i == 1 then Vec(-4.0, 0.0, 0.0)
            else if i == 2 then Vec(4.0, 0.0, 0.0) else ORIGIN
    decreases n
  {
    hide Euclidean, Push, Near, OnLine;
    LineNear(norm, m, i, n - 1);
    if n == 3 {
      LineNear(norm, m, i, 0);
      LineNear(norm, m, i, 1);
      LinePush(norm, m);
      assert Kick(norm, OnLine(m), i, 1) == Kick(norm, OnLine(m), i, 0) || i == 1 || i == 2;
    } else {
      LineKick(norm, m, i, n - 1);
    }
  }

  lemma FirstThree(k: seq<Vec>)
    requires |k| >= 3 && k[0] == Vec(-1.0, 0.0, 0.0) && k[1] == Vec(-4.0, 0.0, 0.0) && k[2] == Vec(4.0, 0.0, 0.0)
    ensures SumOf(k[..3]) == Vec(-1.0, 0.0, 0.0)
  {
    assert k[..3][..2] == k[..2] && k[..2][..1] == k[..1] && k[..1][..0] == [];
    assert SumOf(k[..1]) == Vec(-1.0, 0.0, 0.0);
    assert SumOf(k[..2]) == Vec(-5.0, 0.0, 0.0);
  }

  lemma {:induction false} LineKicksSum(norm: Vec -> real, m: nat, k: nat)
    requires Euclidean(norm) && 3 <= k <= m
    ensures SumOf(Kicks(norm, OnLine(m))[..k]) == Vec(-1.0, 0.0, 0.0)
    decreases k
  {
    hide Euclidean, Kick, OnLine;
    var kicks := Kicks(norm, OnLine(m));
    LineKick(norm, m, k - 1, m);
    if k == 3 {
      LineKick(norm, m, 0, m);
      LineKick(norm, m, 1, m);
      hide SumOf;
      FirstThree(kicks);
    } else {
      LineKicksSum(norm, m, k - 1);
      assert kicks[..k][..k - 1] == kicks[..k - 1];
    }
  }

  lemma StartsBalanced(place: seq<Vec>)
    ensures Balanced(place, Motion(place, Still(|place|)))
  {
    SumOfZeros(Still(|place|));
  }

  /** From three members on, one iteration already drags the centroid of this placement away. */
  lemma LineDrifts(norm: Vec -> real, m: nat)
    requires Euclidean(norm) && 3 <= m
    ensures SumOf(Relaxed(norm, OnLine(m), [], 1)) != SumOf(OnLine(m))
  {
    hide Euclidean, Step, Kicks, SumOf, OnLine;
    var place := OnLine(m);
    StartsBalanced(place);
    LineKicksSum(norm, m, m);
    assert Kicks(norm, place)[..m] == Kicks(norm, place);
    StepKeepsCentroid(norm, place, [], Motion(place, Still(m)));
  }

  /** The relaxation keeps the centroid of every group of size m, for every placement, springs and budget, exactly when m <= 2. */
  lemma CentroidKeptIff(norm: Vec -> real, m: nat)
    requires Euclidean(norm)
    ensures (forall place, springs, budget: nat :: |place| == m && InGroup(springs, m) ==>
               SumOf(Relaxed(norm, place, springs, budget)) == SumOf(place))
            <==> m <= 2
  {
    hide Euclidean, SumOf, OnLine, Run;
    if m <= 2 {
      forall place: seq<Vec>, springs: seq<Spring>, budget: nat | |place| == m && InGroup(springs, m)
        ensures SumOf(Relaxed(norm, place, springs, budget)) == SumOf(place)
      {
        var s := Motion(place, Still(m));
        StartsBalanced(place);
        PairsAreSparse(norm, place, springs, s, budget);
        SparseRunKeepsCentroid(norm, place, springs, s, budget);
      }
    } else {
      LineDrifts(norm, m);
    }
  }
}
