/** Arc lists as matrices: what collapsing duplicate arcs and normalising by out-weight keep. */
module MatrixEntries {
  import opened RealFacts
  import opened RealSeqs
  import opened PageRank

  /** M[tgt, src]: the arcs at one place, summed. */
  ghost function Entry(m: seq<Arc>, s: nat, t: nat): real {
    if |m| == 0 then 0.0
    else
      var a := m[|m| - 1];
      Entry(m[..|m| - 1], s, t) + if a.src == s && a.tgt == t then a.w else 0.0
  }

  ghost predicate SameEntries(m: seq<Arc>, m': seq<Arc>, n: nat) {
    forall s, t :: 0 <= s < n && 0 <= t < n ==> Entry(m, s, t) == Entry(m', s, t)
  }

  ghost function Row(m: seq<Arc>, t: nat, n: nat): (r: seq<real>)
    ensures |r| == n
  {
    seq(n, s requires 0 <= s < n => Entry(m, s, t))
  }

  ghost function Column(m: seq<Arc>, s: nat, n: nat): (c: seq<real>)
    ensures |c| == n
  {
    seq(n, t requires 0 <= t < n => Entry(m, s, t))
  }

  /** M*x row by row. */
  lemma {:induction false} ScatterRow(m: seq<Arc>, x: seq<real>, t: nat)
    requires InRange(m, |x|) && t < |x|
    ensures Scatter(m, x)[t] == Dot(x, Row(m, t, |x|))
  {
    hide Times;
    var n := |x|;
    if |m| == 0 {
      assert Row(m, t, n) == Zeros(n);
      DotZeros(x);
    } else {
      var rest, a := m[..|m| - 1], m[|m| - 1];
      ScatterRow(rest, x, t);
      if a.tgt == t {
        assert Row(m, t, n) == Row(rest, t, n)[a.src := Row(rest, t, n)[a.src] + a.w];
        DotUpdate(x, Row(rest, t, n), a.src, a.w);
        Commute(a.w, x[a.src]);
      } else {
        assert Row(m, t, n) == Row(rest, t, n);
      }
    }
  }

  lemma {:induction false} OutSumColumn(m: seq<Arc>, n: nat, s: nat)
    requires InRange(m, n) && s < n
    ensures OutSums(m, n)[s] == Sum(Column(m, s, n))
  {
    if |m| == 0 {
      SumZeros(Column(m, s, n));
    } else {
      var rest, a := m[..|m| - 1], m[|m| - 1];
      OutSumColumn(rest, n, s);
      if a.src == s {
        assert Column(m, s, n) == Column(rest, s, n)[a.tgt := Column(rest, s, n)[a.tgt] + a.w];
        SumUpdate(Column(rest, s, n), a.tgt, Column(rest, s, n)[a.tgt] + a.w);
      } else {
        assert Column(m, s, n) == Column(rest, s, n);
      }
    }
  }

  /** Lists with the same entries are the same matrix: same product, same column sums. */
  lemma SameMatrix(m: seq<Arc>, m': seq<Arc>, x: seq<real>)
    requires InRange(m, |x|) && InRange(m', |x|) && SameEntries(m, m', |x|)
    ensures Scatter(m, x) == Scatter(m', x)
    ensures OutSums(m, |x|) == OutSums(m', |x|)
  {
    var n := |x|;
    forall t | 0 <= t < n ensures Scatter(m, x)[t] == Scatter(m', x)[t] {
      ScatterRow(m, x, t);
      ScatterRow(m', x, t);
      assert Row(m, t, n) == Row(m', t, n);
    }
    forall s | 0 <= s < n ensures OutSums(m, n)[s] == OutSums(m', n)[s] {
      OutSumColumn(m, n, s);
      OutSumColumn(m', n, s);
      assert Column(m, s, n) == Column(m', s, n);
    }
  }

  // --- Collapsing duplicate places ------------------------------------------

  /** rows * n + cols */
  function PairKey(a: Arc, n: nat): nat {
    a.tgt * n + a.src
  }

  lemma {:induction false} RowsApart(p: nat, q: nat, n: nat)
    requires p < q
    ensures p * n + n <= q * n
    decreases q
  {
    var below := q - 1;
    if p < below {
      RowsApart(p, below, n);
    }
    assert q * n == below * n + n;
  }

  /** Dividing a key by n gives back its row and its column. */
  lemma KeySplits(t: nat, s: nat, q: nat, r: nat, n: nat)
    requires s < n && r < n && q * n + r == t * n + s
    ensures q == t && r == s
  {
    if q < t {
      RowsApart(q, t, n);
    } else if t < q {
      RowsApart(t, q, n);
    }
  }

  function KeySrc(key: nat, n: nat): nat
    requires n > 0
  {
    key % n
  }

  function KeyTgt(key: nat, n: nat): nat
    requires n > 0
  {
    key / n
  }

  lemma KeyDecodes(a: Arc, n: nat)
    requires a.src < n
    ensures KeySrc(PairKey(a, n), n) == a.src && KeyTgt(PairKey(a, n), n) == a.tgt
  {
    var key := PairKey(a, n);
    KeySplits(a.tgt, a.src, key / n, key % n, n);
  }

  lemma KeyInjective(a: Arc, b: Arc, n: nat)
    requires a.src < n && b.src < n && PairKey(a, n) == PairKey(b, n)
    ensures a.src == b.src && a.tgt == b.tgt
  {
    KeySplits(a.tgt, a.src, b.tgt, b.src, n);
  }

  ghost predicate DistinctPlaces(m: seq<Arc>) {
    forall i, j :: 0 <= i < j < |m| ==> m[i].src != m[j].src || m[i].tgt != m[j].tgt
  }

  lemma {:induction false} EntryAbsent(m: seq<Arc>, s: nat, t: nat)
    requires forall k :: 0 <= k < |m| ==> m[k].src != s || m[k].tgt != t
    ensures Entry(m, s, t) == 0.0
  {
    if |m| > 0 {
      EntryAbsent(m[..|m| - 1], s, t);
    }
  }

  lemma {:induction false} EntryPresent(m: seq<Arc>, k: nat)
    requires k < |m| && DistinctPlaces(m)
    ensures Entry(m, m[k].src, m[k].tgt) == m[k].w
  {
    var rest := m[..|m| - 1];
    if k == |m| - 1 {
      EntryAbsent(rest, m[k].src, m[k].tgt);
    } else {
      EntryPresent(rest, k);
    }
  }

  lemma {:induction false} EntryNonNegative(m: seq<Arc>, s: nat, t: nat)
    requires forall k :: 0 <= k < |m| ==> 0.0 <= m[k].w
    ensures 0.0 <= Entry(m, s, t)
  {
    if |m| > 0 {
      EntryNonNegative(m[..|m| - 1], s, t);
    }
  }

  // --- Normalising ------------------------------------------------------------

  function Share(w: real, total: real): real
    requires total > 0.0
  {
    w / total
  }

  lemma ShareAdds(a: real, b: real, total: real)
    requires total > 0.0
    ensures Share(a + b, total) == Share(a, total) + Share(b, total)
    ensures Share(0.0, total) == 0.0 && Share(total, total) == 1.0
  {
  }

  lemma SharePositive(w: real, total: real)
    requires 0.0 < w && 0.0 < total
    ensures 0.0 < Share(w, total)
  {
  }

  /** The arcs of m with every weight divided by the out-weight of its source. */
  ghost predicate IsNormalised(m: seq<Arc>, out: seq<real>, norm: seq<Arc>) {
    && |norm| == |m| && InRange(m, |out|)
    && forall k :: 0 <= k < |m| ==>
         && out[m[k].src] > 0.0
         && norm[k] == Arc(m[k].src, m[k].tgt, Share(m[k].w, out[m[k].src]))
  }

  lemma {:induction false} NormalisedEntry(m: seq<Arc>, out: seq<real>, norm: seq<Arc>, s: nat, t: nat)
    requires IsNormalised(m, out, norm) && s < |out|
    ensures out[s] > 0.0 ==> Entry(norm, s, t) == Share(Entry(m, s, t), out[s])
    ensures out[s] <= 0.0 ==> Entry(norm, s, t) == 0.0
  {
    hide Share;
    if |m| == 0 {
      if out[s] > 0.0 {
        ShareAdds(0.0, 0.0, out[s]);
      }
    } else {
      var last := |m| - 1;
      NormalisedEntry(m[..last], out, norm[..last], s, t);
      if out[s] > 0.0 {
        ShareAdds(Entry(m[..last], s, t), m[last].w, out[s]);
      }
    }
  }

  lemma {:induction false} NormalisedOutSum(m: seq<Arc>, out: seq<real>, norm: seq<Arc>, s: nat)
    requires IsNormalised(m, out, norm) && s < |out| && InRange(norm, |out|)
    ensures out[s] > 0.0 ==> OutSums(norm, |out|)[s] == Share(OutSums(m, |out|)[s], out[s])
    ensures out[s] <= 0.0 ==> OutSums(norm, |out|)[s] == 0.0
  {
    hide Share;
    if |m| == 0 {
      if out[s] > 0.0 {
        ShareAdds(0.0, 0.0, out[s]);
      }
    } else {
      var last := |m| - 1;
      NormalisedOutSum(m[..last], out, norm[..last], s);
      if out[s] > 0.0 {
        ShareAdds(OutSums(m[..last], |out|)[s], m[last].w, out[s]);
      }
    }
  }
}
