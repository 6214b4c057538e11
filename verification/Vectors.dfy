/** Points and displacements in space, and their sums. */
module Vectors {
  import opened RealFacts

  datatype Vec = Vec(x: real, y: real, z: real)

  const ORIGIN := Vec(0.0, 0.0, 0.0)

  function Add(a: Vec, b: Vec): Vec {
    Vec(a.x + b.x, a.y + b.y, a.z + b.z)
  }

  function Sub(a: Vec, b: Vec): Vec {
    Vec(a.x - b.x, a.y - b.y, a.z - b.z)
  }

  function Neg(a: Vec): Vec {
    Vec(-a.x, -a.y, -a.z)
  }

  function Scale(k: real, a: Vec): Vec {
    Vec(Times(k, a.x), Times(k, a.y), Times(k, a.z))
  }

  function Square(a: Vec): real {
    a.x * a.x + a.y * a.y + a.z * a.z
  }

  /** `norm` is the Euclidean length: non-negative, with the right square. */
  ghost predicate Euclidean(norm: Vec -> real) {
    forall v :: 0.0 <= norm(v) && norm(v) * norm(v) == Square(v)
  }

  lemma SameSquare(a: real, b: real)
    requires 0.0 <= a && 0.0 <= b && a * a == b * b
    ensures a == b
  {
    if a < b {
      TimesLe(a, a, b);
      TimesLt(b, a, b);
    } else if b < a {
      TimesLe(b, b, a);
      TimesLt(a, b, a);
    }
  }

  lemma NormOfNeg(norm: Vec -> real, v: Vec)
    requires Euclidean(norm)
    ensures norm(Neg(v)) == norm(v)
  {
    assert Square(Neg(v)) == Square(v);
    SameSquare(norm(Neg(v)), norm(v));
  }

  lemma NormOnAxis(norm: Vec -> real, d: real)
    requires Euclidean(norm) && 0.0 <= d
    ensures norm(Vec(d, 0.0, 0.0)) == d && norm(Vec(-d, 0.0, 0.0)) == d
  {
    SameSquare(norm(Vec(d, 0.0, 0.0)), d);
    NormOfNeg(norm, Vec(d, 0.0, 0.0));
  }

  lemma ScaleAdds(k: real, a: Vec, b: Vec)
    ensures Scale(k, Add(a, b)) == Add(Scale(k, a), Scale(k, b))
    ensures Scale(k, Sub(a, b)) == Sub(Scale(k, a), Scale(k, b))
    ensures Scale(k, Neg(a)) == Neg(Scale(k, a))
    ensures Scale(k, ORIGIN) == ORIGIN
  {
    Distribute(k, a.x, b.x);
    Distribute(k, a.y, b.y);
    Distribute(k, a.z, b.z);
    Distribute(k, 0.0, a.x);
    Distribute(k, 0.0, a.y);
    Distribute(k, 0.0, a.z);
    Units(k);
  }

  lemma SquareOfProduct(m: real, x: real)
    ensures Times(m, x) * Times(m, x) == Times(m * m, x * x)
  {
    assert (m * x) * (m * x) == (m * m) * (x * x);
  }

  lemma SquareScales(m: real, v: Vec)
    ensures Square(Scale(m, v)) == Times(m * m, Square(v))
  {
    SquareOfProduct(m, v.x);
    SquareOfProduct(m, v.y);
    SquareOfProduct(m, v.z);
    Spread(m * m, v.x * v.x, v.y * v.y, v.z * v.z);
    hide Times;
    var w := Scale(m, v);
    assert w.x == Times(m, v.x) && w.y == Times(m, v.y) && w.z == Times(m, v.z);
    assert w.x * w.x == Times(m * m, v.x * v.x);
    assert w.y * w.y == Times(m * m, v.y * v.y);
    assert w.z * w.z == Times(m * m, v.z * v.z);
    assert Square(w) == w.x * w.x + w.y * w.y + w.z * w.z;
    assert Square(v) == v.x * v.x + v.y * v.y + v.z * v.z;
  }

  lemma Spread(k: real, a: real, b: real, c: real)
    ensures Times(k, a) + Times(k, b) + Times(k, c) == Times(k, a + b + c)
  {
  }

  lemma NormScales(norm: Vec -> real, m: real, v: Vec)
    requires Euclidean(norm) && m >= 0.0
    ensures norm(Scale(m, v)) == Times(m, norm(v))
  {
    NonNegative(m, norm(v));
    SquareScales(m, v);
    SquareOfProduct(m, norm(v));
    hide Times, Square;
    SameSquare(norm(Scale(m, v)), Times(m, norm(v)));
  }

  lemma SquareNonNegative(a: real)
    ensures a * a >= 0.0
  {
  }

  lemma OnlyZeroSquares(x: real)
    requires x * x <= 0.0
    ensures x == 0.0
  {
    if x > 0.0 {
      TimesLt(x, 0.0, x);
    } else if x < 0.0 {
      TimesLt(-x, 0.0, -x);
    }
  }

  lemma NoLengthIsOrigin(norm: Vec -> real, v: Vec)
    requires Euclidean(norm)
    ensures norm(v) >= 0.0 && (norm(v) == 0.0 <==> v == ORIGIN)
  {
    SquareNonNegative(v.x);
    SquareNonNegative(v.y);
    SquareNonNegative(v.z);
    if norm(v) == 0.0 {
      assert Square(v) == 0.0;
      OnlyZeroSquares(v.x);
      OnlyZeroSquares(v.y);
      OnlyZeroSquares(v.z);
    } else if v == ORIGIN {
      SameSquare(norm(v), 0.0);
    }
  }

  /** v points where u points, and is as long as told. */
  ghost predicate Along(norm: Vec -> real, v: Vec, u: Vec, length: real) {
    (exists m :: m >= 0.0 && v == Scale(m, u)) && norm(v) == length
  }

  lemma ScaledIsAlong(norm: Vec -> real, k: real, d: Vec)
    requires Euclidean(norm) && k >= 0.0
    ensures Along(norm, Scale(k, d), d, Times(k, norm(d)))
  {
    NormScales(norm, k, d);
  }

  lemma ScalePlus(k: real, v: Vec)
    ensures Add(v, Add(Scale(k, v), Scale(k, v))) == Scale(1.0 + 2.0 * k, v)
  {
  }

  lemma ScaleMinus(k: real, v: Vec)
    ensures Sub(v, Scale(k, v)) == Scale(1.0 - k, v)
  {
  }

  lemma ScaleLess(a: real, b: real, v: Vec)
    ensures Add(Scale(a, v), Neg(Scale(b, v))) == Scale(a - b, v)
  {
  }

  lemma ScaleTwice(a: real, b: real, u: Vec)
    ensures Scale(a, Scale(b, u)) == Scale(Times(a, b), u)
  {
    Associate(a, b, u.x);
    Associate(a, b, u.y);
    Associate(a, b, u.z);
  }

  lemma ScaleZero(u: Vec)
    ensures Scale(0.0, u) == ORIGIN
  {
  }

  lemma GapWidens(p: Vec, q: Vec, w: Vec)
    ensures Sub(Add(p, w), Add(q, Neg(w))) == Add(Sub(p, q), Add(w, w))
  {
  }

  lemma AddAssociates(a: Vec, b: Vec, c: Vec)
    ensures Add(Add(a, b), c) == Add(a, Add(b, c))
    ensures Add(a, ORIGIN) == a
  {
  }

  function SumOf(s: seq<Vec>): Vec {
    if |s| == 0 then ORIGIN else Add(SumOf(s[..|s| - 1]), s[|s| - 1])
  }

  lemma {:induction false} SumOfUpdate(s: seq<Vec>, i: nat, v: Vec)
    requires i < |s|
    ensures SumOf(s[i := v]) == Add(SumOf(s), Sub(v, s[i]))
  {
    var n := |s| - 1;
    if i == n {
      assert s[i := v][..n] == s[..n];
    } else {
      assert s[i := v][..n] == s[..n][i := v];
      SumOfUpdate(s[..n], i, v);
    }
  }

  /** The sum of c = a + k*b, member by member. */
  lemma {:induction false} SumOfMix(a: seq<Vec>, k: real, b: seq<Vec>, c: seq<Vec>)
    requires |a| == |b| == |c| && forall i :: 0 <= i < |a| ==> c[i] == Add(a[i], Scale(k, b[i]))
    ensures SumOf(c) == Add(SumOf(a), Scale(k, SumOf(b)))
  {
    hide Times;
    if |a| == 0 {
      ScaleAdds(k, ORIGIN, ORIGIN);
    } else {
      var n := |a| - 1;
      SumOfMix(a[..n], k, b[..n], c[..n]);
      ScaleAdds(k, SumOf(b[..n]), b[n]);
    }
  }

  lemma {:induction false} SumOfSums(a: seq<Vec>, b: seq<Vec>, c: seq<Vec>)
    requires |a| == |b| == |c| && forall i :: 0 <= i < |a| ==> c[i] == Add(a[i], b[i])
    ensures SumOf(c) == Add(SumOf(a), SumOf(b))
  {
    if |a| > 0 {
      var n := |a| - 1;
      SumOfSums(a[..n], b[..n], c[..n]);
    }
  }

  lemma {:induction false} SumOfZeros(s: seq<Vec>)
    requires forall i :: 0 <= i < |s| ==> s[i] == ORIGIN
    ensures SumOf(s) == ORIGIN
  {
    if |s| > 0 {
      SumOfZeros(s[..|s| - 1]);
    }
  }
}
