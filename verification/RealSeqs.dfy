/** Finite sequences of reals: sums, inner products, the L1 distance. */
module RealSeqs {
  import opened RealFacts

  function Abs(x: real): real {
    if x < 0.0 then -x else x
  }

  lemma AbsTimes(k: real, x: real)
    requires 0.0 <= k
    ensures Abs(Times(k, x)) == Times(k, Abs(x))
  {
    hide Times;
    Units(k);
    if x < 0.0 {
      TimesLe(k, x, 0.0);
      Distribute(k, 0.0, x);
    } else {
      TimesLe(k, 0.0, x);
    }
  }

  function Sum(s: seq<real>): real {
    if |s| == 0 then 0.0 else Sum(s[..|s| - 1]) + s[|s| - 1]
  }

  function Zeros(n: nat): (z: seq<real>)
    ensures |z| == n
  {
    seq(n, _ => 0.0)
  }

  function Plus(a: seq<real>, b: seq<real>): (c: seq<real>)
    requires |a| == |b|
    ensures |c| == |a|
  {
    seq(|a|, i requires 0 <= i < |a| => a[i] + b[i])
  }

  function Scaled(k: real, a: seq<real>): (c: seq<real>)
    ensures |c| == |a|
  {
    seq(|a|, i requires 0 <= i < |a| => Times(k, a[i]))
  }

  function Products(a: seq<real>, b: seq<real>): (c: seq<real>)
    requires |a| == |b|
    ensures |c| == |a|
  {
    seq(|a|, i requires 0 <= i < |a| => Times(a[i], b[i]))
  }

  function Dot(a: seq<real>, b: seq<real>): real
    requires |a| == |b|
  {
    Sum(Products(a, b))
  }

  function Gaps(x: seq<real>, y: seq<real>): (g: seq<real>)
    requires |x| == |y|
    ensures |g| == |x| && forall i :: 0 <= i < |g| ==> 0.0 <= g[i]
  {
    seq(|x|, i requires 0 <= i < |x| => Abs(x[i] - y[i]))
  }

  function Distance(x: seq<real>, y: seq<real>): real
    requires |x| == |y|
  {
    Sum(Gaps(x, y))
  }

  function Norm(x: seq<real>): real {
    Distance(x, Zeros(|x|))
  }

  // --- Sums ---------------------------------------------------------------

  lemma {:induction false} SumZeros(s: seq<real>)
    requires forall i :: 0 <= i < |s| ==> s[i] == 0.0
    ensures Sum(s) == 0.0
  {
    if |s| > 0 {
      SumZeros(s[..|s| - 1]);
    }
  }

  lemma {:induction false} SumUpdate(s: seq<real>, i: nat, v: real)
    requires i < |s|
    ensures Sum(s[i := v]) == Sum(s) - s[i] + v
  {
    var n := |s| - 1;
    var t := s[i := v];
    if i == n {
      assert t[..n] == s[..n];
    } else {
      assert t[..n] == s[..n][i := v];
      SumUpdate(s[..n], i, v);
    }
  }

  lemma {:induction false} SumLe(a: seq<real>, b: seq<real>)
    requires |a| == |b| && forall i :: 0 <= i < |a| ==> a[i] <= b[i]
    ensures Sum(a) <= Sum(b)
  {
    if |a| > 0 {
      SumLe(a[..|a| - 1], b[..|a| - 1]);
    }
  }

  lemma {:induction false} SumPlus(a: seq<real>, b: seq<real>)
    requires |a| == |b|
    ensures Sum(Plus(a, b)) == Sum(a) + Sum(b)
  {
    if |a| > 0 {
      var n := |a| - 1;
      SumPlus(a[..n], b[..n]);
      assert Plus(a, b)[..n] == Plus(a[..n], b[..n]);
    }
  }

  lemma {:induction false} SumScaled(k: real, a: seq<real>)
    ensures Sum(Scaled(k, a)) == Times(k, Sum(a))
  {
    hide Times;
    if |a| > 0 {
      var n := |a| - 1;
      SumScaled(k, a[..n]);
      assert Scaled(k, a)[..n] == Scaled(k, a[..n]);
      Distribute(k, Sum(a[..n]), a[n]);
    } else {
      Units(k);
    }
  }

  lemma {:induction false} SumNonNegative(s: seq<real>)
    requires forall i :: 0 <= i < |s| ==> 0.0 <= s[i]
    ensures 0.0 <= Sum(s)
  {
    if |s| > 0 {
      SumNonNegative(s[..|s| - 1]);
    }
  }

  /** A member of a non-negative sequence is at most the sum. */
  lemma {:induction false} TermAtMostSum(s: seq<real>, i: nat)
    requires i < |s| && forall j :: 0 <= j < |s| ==> 0.0 <= s[j]
    ensures s[i] <= Sum(s)
  {
    SumNonNegative(s[..|s| - 1]);
    if i < |s| - 1 {
      TermAtMostSum(s[..|s| - 1], i);
    }
  }

  // --- Inner products -------------------------------------------------------

  lemma DotUpdate(a: seq<real>, b: seq<real>, i: nat, v: real)
    requires |a| == |b| && i < |a|
    ensures Dot(a, b[i := b[i] + v]) == Dot(a, b) + Times(a[i], v)
  {
    hide Times;
    Distribute(a[i], b[i], v);
    assert Products(a, b[i := b[i] + v]) == Products(a, b)[i := Times(a[i], b[i] + v)];
    SumUpdate(Products(a, b), i, Times(a[i], b[i] + v));
  }

  /** Weights of at most one shrink a non-negative sum. */
  lemma DotAtMostSum(a: seq<real>, b: seq<real>)
    requires |a| == |b| && forall i :: 0 <= i < |a| ==> 0.0 <= a[i] && b[i] <= 1.0
    ensures Dot(a, b) <= Sum(a)
  {
    hide Times;
    forall i | 0 <= i < |a| ensures Products(a, b)[i] <= a[i] {
      TimesLe(a[i], b[i], 1.0);
      Units(a[i]);
    }
    SumLe(Products(a, b), a);
  }

  lemma DotZeros(a: seq<real>)
    ensures Dot(a, Zeros(|a|)) == 0.0
  {
    hide Times;
    forall i | 0 <= i < |a| ensures Products(a, Zeros(|a|))[i] == 0.0 { Units(a[i]); }
    SumZeros(Products(a, Zeros(|a|)));
  }

  lemma DotOnes(a: seq<real>, b: seq<real>)
    requires |a| == |b| && forall i :: 0 <= i < |b| ==> b[i] == 1.0
    ensures Dot(a, b) == Sum(a)
  {
    hide Times;
    forall i | 0 <= i < |a| ensures Products(a, b)[i] == a[i] { Units(a[i]); }
    assert Products(a, b) == a;
  }

  // --- Distances --------------------------------------------------------------

  lemma DistanceTriangle(x: seq<real>, y: seq<real>, z: seq<real>)
    requires |x| == |y| == |z|
    ensures Distance(x, z) <= Distance(x, y) + Distance(y, z)
  {
    SumPlus(Gaps(x, y), Gaps(y, z));
    SumLe(Gaps(x, z), Plus(Gaps(x, y), Gaps(y, z)));
  }

  lemma DistanceShifted(x: seq<real>, y: seq<real>, c: seq<real>)
    requires |x| == |y| == |c|
    ensures Distance(Plus(x, c), Plus(y, c)) == Distance(x, y)
  {
    assert Gaps(Plus(x, c), Plus(y, c)) == Gaps(x, y);
  }

  lemma DistanceScaled(k: real, x: seq<real>, y: seq<real>)
    requires |x| == |y| && 0.0 <= k
    ensures Distance(Scaled(k, x), Scaled(k, y)) == Times(k, Distance(x, y))
  {
    hide Times;
    forall i | 0 <= i < |x| ensures Gaps(Scaled(k, x), Scaled(k, y))[i] == Scaled(k, Gaps(x, y))[i] {
      Distribute(k, x[i], y[i]);
      AbsTimes(k, x[i] - y[i]);
    }
    assert Gaps(Scaled(k, x), Scaled(k, y)) == Scaled(k, Gaps(x, y));
    SumScaled(k, Gaps(x, y));
  }

  lemma DistanceZero(x: seq<real>, y: seq<real>)
    requires |x| == |y| && Distance(x, y) <= 0.0
    ensures x == y
  {
    forall i | 0 <= i < |x| ensures x[i] == y[i] {
      TermAtMostSum(Gaps(x, y), i);
    }
  }

  lemma NormOfNonNegative(x: seq<real>)
    requires forall i :: 0 <= i < |x| ==> 0.0 <= x[i]
    ensures Norm(x) == Sum(x)
  {
    assert Gaps(x, Zeros(|x|)) == x;
  }

  lemma DistanceByNorms(x: seq<real>, y: seq<real>)
    requires |x| == |y|
    ensures Distance(x, y) <= Norm(x) + Norm(y)
  {
    DistanceTriangle(x, Zeros(|x|), y);
    assert Gaps(Zeros(|x|), y) == Gaps(y, Zeros(|y|));
  }

  lemma NormScaled(k: real, x: seq<real>)
    requires 0.0 <= k
    ensures Norm(Scaled(k, x)) == Times(k, Norm(x))
  {
    hide Times;
    DistanceScaled(k, x, Zeros(|x|));
    Units(k);
    assert Scaled(k, Zeros(|x|)) == Zeros(|x|);
  }
}
