/**
 The mathematics of activation spreading: a sparse matrix as a list of arcs,
 the power iteration r' = d*M*r + (1-d)*e, its mass and its error.
 */
module PageRank {
  import opened RealFacts
  import opened RealSeqs

  /** One matrix entry M[tgt, src] = w; several arcs may share a place. */
  datatype Arc = Arc(src: nat, tgt: nat, w: real)

  ghost predicate InRange(m: seq<Arc>, n: nat) {
    forall k :: 0 <= k < |m| ==> m[k].src < n && m[k].tgt < n && 0.0 <= m[k].w
  }

  /** M*x, one arc after another. */
  ghost function Scatter(m: seq<Arc>, x: seq<real>): (y: seq<real>)
    requires InRange(m, |x|)
    ensures |y| == |x|
  {
    if |m| == 0 then Zeros(|x|)
    else
      var y := Scatter(m[..|m| - 1], x);
      var a := m[|m| - 1];
      y[a.tgt := y[a.tgt] + Times(a.w, x[a.src])]
  }

  /** The column sums of M. */
  ghost function OutSums(m: seq<Arc>, n: nat): (c: seq<real>)
    requires InRange(m, n)
    ensures |c| == n
  {
    if |m| == 0 then Zeros(n)
    else
      var c := OutSums(m[..|m| - 1], n);
      var a := m[|m| - 1];
      c[a.src := c[a.src] + a.w]
  }

  /** No column of M sums to more than one. */
  ghost predicate Substochastic(m: seq<Arc>, n: nat) {
    InRange(m, n) && forall j :: 0 <= j < n ==> OutSums(m, n)[j] <= 1.0
  }

  /** The mass leaving x is weighted by the column sums. */
  lemma {:induction false} MassOfScatter(m: seq<Arc>, x: seq<real>)
    requires InRange(m, |x|)
    ensures Sum(Scatter(m, x)) == Dot(x, OutSums(m, |x|))
  {
    hide Times;
    if |m| == 0 {
      SumZeros(Scatter(m, x));
      DotZeros(x);
    } else {
      var rest, a := m[..|m| - 1], m[|m| - 1];
      MassOfScatter(rest, x);
      SumUpdate(Scatter(rest, x), a.tgt, Scatter(rest, x)[a.tgt] + Times(a.w, x[a.src]));
      DotUpdate(x, OutSums(rest, |x|), a.src, a.w);
      Commute(a.w, x[a.src]);
    }
  }

  lemma ArcGap(p: real, q: real, w: real, x: real, y: real)
    requires 0.0 <= w
    ensures Abs((p + Times(w, x)) - (q + Times(w, y))) <= Abs(p - q) + Times(w, Abs(x - y))
  {
    hide Times;
    Distribute(w, x, y);
    AbsTimes(w, x - y);
  }

  /** Adding one arc widens the gap at its target only. */
  lemma ArcApart(u: seq<real>, v: seq<real>, a: Arc, x: real, y: real)
    requires |u| == |v| && a.tgt < |u| && 0.0 <= a.w
    ensures Distance(u[a.tgt := u[a.tgt] + Times(a.w, x)], v[a.tgt := v[a.tgt] + Times(a.w, y)])
            <= Distance(u, v) + Times(a.w, Abs(x - y))
  {
    hide Times;
    var before := Gaps(u, v);
    var wider := before[a.tgt] + Times(a.w, Abs(x - y));
    ArcGap(u[a.tgt], v[a.tgt], a.w, x, y);
    SumLe(Gaps(u[a.tgt := u[a.tgt] + Times(a.w, x)], v[a.tgt := v[a.tgt] + Times(a.w, y)]), before[a.tgt := wider]);
    SumUpdate(before, a.tgt, wider);
  }

  /** M moves two vectors no further apart than the column sums allow. */
  lemma {:induction false} ScatterApart(m: seq<Arc>, x: seq<real>, y: seq<real>)
    requires |x| == |y| && InRange(m, |x|)
    ensures Distance(Scatter(m, x), Scatter(m, y)) <= Dot(Gaps(x, y), OutSums(m, |x|))
  {
    hide Times;
    if |m| == 0 {
      assert Scatter(m, x) == Zeros(|x|) && Scatter(m, y) == Zeros(|x|);
      NormOfNonNegative(Zeros(|x|));
      SumZeros(Zeros(|x|));
      DotZeros(Gaps(x, y));
    } else {
      var rest, a := m[..|m| - 1], m[|m| - 1];
      ScatterApart(rest, x, y);
      ArcApart(Scatter(rest, x), Scatter(rest, y), a, x[a.src], y[a.src]);
      DotUpdate(Gaps(x, y), OutSums(rest, |x|), a.src, a.w);
      Commute(a.w, Gaps(x, y)[a.src]);
    }
  }

  lemma ScatterCloser(m: seq<Arc>, x: seq<real>, y: seq<real>)
    requires |x| == |y| && Substochastic(m, |x|)
    ensures Distance(Scatter(m, x), Scatter(m, y)) <= Distance(x, y)
  {
    ScatterApart(m, x, y);
    DotAtMostSum(Gaps(x, y), OutSums(m, |x|));
  }

  /** One iteration. */
  ghost function Step(m: seq<Arc>, d: real, e: seq<real>, r: seq<real>): (r': seq<real>)
    requires |e| == |r| && InRange(m, |r|)
    ensures |r'| == |r|
  {
    Plus(Scaled(d, Scatter(m, r)), Scaled(1.0 - d, e))
  }

  ghost function Iterate(m: seq<Arc>, d: real, e: seq<real>, r: seq<real>, k: nat): (r': seq<real>)
    requires |e| == |r| && InRange(m, |r|)
    ensures |r'| == |r|
  {
    if k == 0 then r else Step(m, d, e, Iterate(m, d, e, r, k - 1))
  }

  ghost function Pow(d: real, k: nat): real {
    if k == 0 then 1.0 else Times(d, Pow(d, k - 1))
  }

  /** One iteration brings any two vectors closer by the damping factor. */
  lemma StepContracts(m: seq<Arc>, d: real, e: seq<real>, x: seq<real>, y: seq<real>)
    requires |e| == |x| == |y| && Substochastic(m, |x|) && 0.0 <= d
    ensures Distance(Step(m, d, e, x), Step(m, d, e, y)) <= Times(d, Distance(x, y))
  {
    hide Times;
    var mx, my := Scatter(m, x), Scatter(m, y);
    DistanceShifted(Scaled(d, mx), Scaled(d, my), Scaled(1.0 - d, e));
    DistanceScaled(d, mx, my);
    ScatterCloser(m, x, y);
    TimesLe(d, Distance(mx, my), Distance(x, y));
  }

  lemma {:induction false} IterateContracts(m: seq<Arc>, d: real, e: seq<real>, x: seq<real>, y: seq<real>, k: nat)
    requires |e| == |x| == |y| && Substochastic(m, |x|) && 0.0 <= d
    ensures Distance(Iterate(m, d, e, x, k), Iterate(m, d, e, y, k)) <= Times(Pow(d, k), Distance(x, y))
  {
    hide Times;
    if k == 0 {
      Units(Distance(x, y));
    } else {
      IterateContracts(m, d, e, x, y, k - 1);
      var u, v := Iterate(m, d, e, x, k - 1), Iterate(m, d, e, y, k - 1);
      StepContracts(m, d, e, u, v);
      TimesLe(d, Distance(u, v), Times(Pow(d, k - 1), Distance(x, y)));
      Associate(d, Pow(d, k - 1), Distance(x, y));
    }
  }

  lemma {:induction false} ScatterZeros(m: seq<Arc>, n: nat)
    requires InRange(m, n)
    ensures Scatter(m, Zeros(n)) == Zeros(n)
  {
    hide Times;
    if |m| > 0 {
      ScatterZeros(m[..|m| - 1], n);
      Units(m[|m| - 1].w);
    }
  }

  lemma StepFromZero(m: seq<Arc>, d: real, e: seq<real>)
    requires InRange(m, |e|) && d < 1.0
    ensures Norm(Step(m, d, e, Zeros(|e|))) == Times(1.0 - d, Norm(e))
  {
    hide Times;
    var zero := Zeros(|e|);
    ScatterZeros(m, |e|);
    Units(d);
    assert Scaled(d, zero) == zero;
    assert Plus(zero, Scaled(1.0 - d, e)) == Scaled(1.0 - d, e);
    NormScaled(1.0 - d, e);
  }

  lemma Balanced(d: real, x: real, b: real)
    requires d < 1.0 && x <= Times(d, x) + Times(1.0 - d, b)
    ensures x <= b
  {
    hide Times;
    if x > b {
      TimesLt(1.0 - d, b, x);
      Distribute(x, 1.0, d);
      Units(x);
      Commute(x, d);
      Commute(x, 1.0 - d);
    }
  }

  /** A fixed point is no larger than the seed vector. */
  lemma FixedPointSmall(m: seq<Arc>, d: real, e: seq<real>, r: seq<real>)
    requires |e| == |r| && Substochastic(m, |r|) && 0.0 < d < 1.0
    requires Step(m, d, e, r) == r
    ensures Norm(r) <= Norm(e)
  {
    hide Times, Step;
    var zero := Zeros(|r|);
    var t := Step(m, d, e, zero);
    StepContracts(m, d, e, r, zero);
    StepFromZero(m, d, e);
    DistanceTriangle(r, t, zero);
    Balanced(d, Norm(r), Norm(e));
  }

  lemma {:induction false} PowPositive(d: real, k: nat)
    requires 0.0 < d
    ensures 0.0 < Pow(d, k)
  {
    hide Times;
    if k > 0 {
      PowPositive(d, k - 1);
      TimesLt(d, 0.0, Pow(d, k - 1));
      Units(d);
    }
  }

  lemma {:induction false} FixedPointStays(m: seq<Arc>, d: real, e: seq<real>, r: seq<real>, k: nat)
    requires |e| == |r| && InRange(m, |r|) && Step(m, d, e, r) == r
    ensures Iterate(m, d, e, r, k) == r
  {
    hide Times, Step;
    if k > 0 {
      FixedPointStays(m, d, e, r, k - 1);
    }
  }

  /** A seed vector: non-negative, of total mass at most one. */
  ghost predicate SeedVector(e: seq<real>) {
    (forall i :: 0 <= i < |e| ==> 0.0 <= e[i]) && Sum(e) <= 1.0
  }

  lemma SeedsClose(e: seq<real>, r: seq<real>, p: real)
    requires |e| == |r| && SeedVector(e) && Norm(r) <= 1.0 && 0.0 < p
    ensures Times(p, Distance(e, r)) <= 2.0 * p
  {
    NormOfNonNegative(e);
    DistanceByNorms(e, r);
    TimesLe(p, Distance(e, r), 2.0);
  }

  /** After k iterations from the seed vector the L1 error is at most 2*d^k, for any fixed point. */
  lemma ErrorBound(m: seq<Arc>, d: real, e: seq<real>, r: seq<real>, k: nat)
    requires |e| == |r| && Substochastic(m, |r|) && 0.0 < d < 1.0 && SeedVector(e)
    requires Step(m, d, e, r) == r
    ensures Distance(Iterate(m, d, e, e, k), r) <= 2.0 * Pow(d, k)
  {
    hide Times, Step, Iterate, Pow;
    FixedPointStays(m, d, e, r, k);
    IterateContracts(m, d, e, e, r, k);
    FixedPointSmall(m, d, e, r);
    NormOfNonNegative(e);
    PowPositive(d, k);
    SeedsClose(e, r, Pow(d, k));
  }

  lemma {:induction false} IterateAdds(m: seq<Arc>, d: real, e: seq<real>, k: nat, j: nat)
    requires InRange(m, |e|)
    ensures Iterate(m, d, e, Iterate(m, d, e, e, j), k) == Iterate(m, d, e, e, k + j)
  {
    hide Times, Step;
    if k > 0 {
      IterateAdds(m, d, e, k - 1, j);
    }
  }

  /** The same bound needs no fixed point: every later iterate is as close. */
  lemma IteratesSettle(m: seq<Arc>, d: real, e: seq<real>, k: nat, j: nat)
    requires Substochastic(m, |e|) && 0.0 < d < 1.0 && SeedVector(e)
    ensures Distance(Iterate(m, d, e, e, k), Iterate(m, d, e, e, k + j)) <= 2.0 * Pow(d, k)
  {
    hide Times, Step, Iterate, Pow;
    var r := Iterate(m, d, e, e, j);
    IterateAdds(m, d, e, k, j);
    IterateContracts(m, d, e, e, r, k);
    RankMass(m, d, e, j);
    NormOfNonNegative(r);
    PowPositive(d, k);
    SeedsClose(e, r, Pow(d, k));
  }

  /** There is at most one fixed point. */
  lemma FixedPointUnique(m: seq<Arc>, d: real, e: seq<real>, r: seq<real>, s: seq<real>)
    requires |e| == |r| == |s| && Substochastic(m, |r|) && 0.0 < d < 1.0
    requires Step(m, d, e, r) == r && Step(m, d, e, s) == s
    ensures r == s
  {
    hide Times, Step;
    StepContracts(m, d, e, r, s);
    Units(1.0 - d);
    Balanced(d, Distance(r, s), 0.0);
    DistanceZero(r, s);
  }

  // --- Mass -------------------------------------------------------------

  lemma {:induction false} ScatterNonNegative(m: seq<Arc>, x: seq<real>)
    requires InRange(m, |x|) && forall i :: 0 <= i < |x| ==> 0.0 <= x[i]
    ensures forall i :: 0 <= i < |x| ==> 0.0 <= Scatter(m, x)[i]
  {
    hide Times;
    if |m| > 0 {
      ScatterNonNegative(m[..|m| - 1], x);
      var a := m[|m| - 1];
      NonNegative(a.w, x[a.src]);
    }
  }

  lemma StepMass(m: seq<Arc>, d: real, e: seq<real>, r: seq<real>)
    requires |e| == |r| && InRange(m, |r|)
    ensures Sum(Step(m, d, e, r)) == Times(d, Dot(r, OutSums(m, |r|))) + Times(1.0 - d, Sum(e))
  {
    hide Times, Scaled, Plus;
    SumPlus(Scaled(d, Scatter(m, r)), Scaled(1.0 - d, e));
    SumScaled(d, Scatter(m, r));
    SumScaled(1.0 - d, e);
    MassOfScatter(m, r);
  }

  lemma Mixed(d: real, a: real, b: real)
    requires 0.0 <= d <= 1.0 && a <= 1.0 && b <= 1.0
    ensures Times(d, a) + Times(1.0 - d, b) <= 1.0
  {
    TimesLe(d, a, 1.0);
    TimesLe(1.0 - d, b, 1.0);
  }

  /** Ranks are never negative and their total never exceeds one. */
  lemma {:induction false} RankMass(m: seq<Arc>, d: real, e: seq<real>, k: nat)
    requires Substochastic(m, |e|) && 0.0 < d < 1.0 && SeedVector(e)
    ensures SeedVector(Iterate(m, d, e, e, k))
  {
    hide Times;
    if k > 0 {
      RankMass(m, d, e, k - 1);
      var r := Iterate(m, d, e, e, k - 1);
      ScatterNonNegative(m, r);
      forall i | 0 <= i < |e| ensures 0.0 <= Step(m, d, e, r)[i] {
        NonNegative(d, Scatter(m, r)[i]);
        NonNegative(1.0 - d, e[i]);
      }
      StepMass(m, d, e, r);
      DotAtMostSum(r, OutSums(m, |e|));
      Mixed(d, Dot(r, OutSums(m, |e|)), Sum(e));
    }
  }

  /** Where no node is dangling and the seeds carry mass one, no iteration loses any. */
  lemma {:induction false} RankMassExact(m: seq<Arc>, d: real, e: seq<real>, k: nat)
    requires InRange(m, |e|) && Sum(e) == 1.0
    requires forall j :: 0 <= j < |e| ==> OutSums(m, |e|)[j] == 1.0
    ensures Sum(Iterate(m, d, e, e, k)) == 1.0
  {
    hide Times;
    if k > 0 {
      RankMassExact(m, d, e, k - 1);
      var r := Iterate(m, d, e, e, k - 1);
      StepMass(m, d, e, r);
      DotOnes(r, OutSums(m, |e|));
      Units(d);
      Units(1.0 - d);
    }
  }
}
