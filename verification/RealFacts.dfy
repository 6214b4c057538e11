/**
 Products and quotients of reals, one fact a lemma. Times is the product
 behind a name, so that a proof can hide it and treat products as atoms.
 */
module RealFacts {
  function Times(x: real, y: real): real {
    x * y
  }

  lemma NonNegative(x: real, y: real)
    requires 0.0 <= x && 0.0 <= y
    ensures 0.0 <= Times(x, y)
  {
  }

  lemma TimesLe(k: real, a: real, b: real)
    requires 0.0 <= k && a <= b
    ensures Times(k, a) <= Times(k, b)
  {
  }

  lemma TimesLt(k: real, a: real, b: real)
    requires 0.0 < k && a < b
    ensures Times(k, a) < Times(k, b)
  {
  }

  lemma Commute(a: real, b: real)
    ensures Times(a, b) == Times(b, a)
  {
  }

  lemma Associate(a: real, b: real, c: real)
    ensures Times(a, Times(b, c)) == Times(Times(a, b), c)
  {
  }

  lemma Distribute(k: real, a: real, b: real)
    ensures Times(k, a + b) == Times(k, a) + Times(k, b)
    ensures Times(k, a - b) == Times(k, a) - Times(k, b)
  {
  }

  lemma Units(k: real)
    ensures Times(k, 1.0) == k == Times(1.0, k)
    ensures Times(k, 0.0) == 0.0 == Times(0.0, k)
  {
  }

  lemma ProductGrows(a: real, b: real, c: real, d: real)
    requires 0.0 <= a <= c && 0.0 <= b <= d
    ensures 0.0 <= a * b <= c * d
  {
    assert a * b <= c * b;
    assert c * b <= c * d;
  }

  lemma QuotientShrinks(x: real, a: real, b: real)
    requires x >= 0.0 && 0.0 < a <= b
    ensures 0.0 <= x / b <= x / a
  {
    var q, s := x / a, x / b;
    assert s * b == q * a;
    assert q >= 0.0 && s >= 0.0;
    assert q * a <= q * b;
  }
}
