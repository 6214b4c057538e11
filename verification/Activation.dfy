/** ActivationSpreader of activation.py: the engine built once from the edges, then asked for activations and flows. */
module Activation {
  import opened Options
  import opened Schema
  import opened RealFacts
  import opened RealSeqs
  import opened PageRank
  import opened MatrixEntries
  import opened Sorting

  /** An edge as SELECT_ACTIVATION_EDGES yields it. */
  datatype Edge = Edge(source: Id, target: Id, w: real)

  /** The positive weight leaving a node, and the part of it that goes to one target. */
  ghost function OutWeight(edges: seq<Edge>, a: Id): real {
    if |edges| == 0 then 0.0
    else
      var e := edges[|edges| - 1];
      OutWeight(edges[..|edges| - 1], a) + if e.w > 0.0 && e.source == a then e.w else 0.0
  }

  ghost function Between(edges: seq<Edge>, a: Id, b: Id): real {
    if |edges| == 0 then 0.0
    else
      var e := edges[|edges| - 1];
      Between(edges[..|edges| - 1], a, b) + if e.w > 0.0 && e.source == a && e.target == b then e.w else 0.0
  }

  /** `ids` lists the nodes, `index` finds them. */
  ghost predicate Indexed(ids: seq<Id>, index: map<Id, nat>) {
    && (forall i :: 0 <= i < |ids| ==> ids[i] in index && index[ids[i]] == i)
    && (forall a :: a in index ==> index[a] < |ids| && ids[index[a]] == a)
  }

  /** The positive edges as arcs between indices, in order. */
  ghost predicate IsPositivePart(edges: seq<Edge>, index: map<Id, nat>, m: seq<Arc>)
    requires forall k :: 0 <= k < |edges| ==> edges[k].source in index && edges[k].target in index
  {
    if |edges| == 0 then m == []
    else
      var e := edges[|edges| - 1];
      if e.w > 0.0 then
        |m| > 0 && m[|m| - 1] == Arc(index[e.source], index[e.target], e.w)
        && IsPositivePart(edges[..|edges| - 1], index, m[..|m| - 1])
      else IsPositivePart(edges[..|edges| - 1], index, m)
  }

  lemma {:induction false} PositivePartSums(edges: seq<Edge>, ids: seq<Id>, index: map<Id, nat>, m: seq<Arc>, s: nat, t: nat)
    requires Indexed(ids, index) && s < |ids| && t < |ids|
    requires forall k :: 0 <= k < |edges| ==> edges[k].source in index && edges[k].target in index
    requires IsPositivePart(edges, index, m) && InRange(m, |ids|)
    ensures Entry(m, s, t) == Between(edges, ids[s], ids[t])
    ensures OutSums(m, |ids|)[s] == OutWeight(edges, ids[s])
  {
    if |edges| > 0 {
      var e := edges[|edges| - 1];
      if e.w > 0.0 {
        PositivePartSums(edges[..|edges| - 1], ids, index, m[..|m| - 1], s, t);
      } else {
        PositivePartSums(edges[..|edges| - 1], ids, index, m, s, t);
      }
    }
  }

  /** index: every endpoint gets the next free number, in order of appearance. */
  method BuildIndex(edges: seq<Edge>) returns (ids: seq<Id>, index: map<Id, nat>)
    ensures Indexed(ids, index)
    ensures forall a :: a in index <==> exists k :: 0 <= k < |edges| && (edges[k].source == a || edges[k].target == a)
  {
    ids, index := [], map[];
    for i := 0 to |edges|
      invariant Indexed(ids, index)
      invariant forall a :: a in index <==> exists k :: 0 <= k < i && (edges[k].source == a || edges[k].target == a)
    {
      var e := edges[i];
      ghost var before := index;
      if e.source !in index {
        index := index[e.source := |ids|];
        ids := ids + [e.source];
      }
      if e.target !in index {
        index := index[e.target := |ids|];
        ids := ids + [e.target];
      }
      forall a ensures a in index <==> exists k :: 0 <= k < i + 1 && (edges[k].source == a || edges[k].target == a) {
        if a in index && a !in before {
          assert 0 <= i < i + 1 && (edges[i].source == a || edges[i].target == a);
        }
      }
    }
  }

  /** The edges of positive weight, as arcs. */
  method PositivePart(edges: seq<Edge>, ids: seq<Id>, index: map<Id, nat>) returns (m: seq<Arc>)
    requires Indexed(ids, index)
    requires forall k :: 0 <= k < |edges| ==> edges[k].source in index && edges[k].target in index
    ensures IsPositivePart(edges, index, m)
    ensures forall k :: 0 <= k < |m| ==> m[k].src < |ids| && m[k].tgt < |ids| && 0.0 < m[k].w
  {
    hide IsPositivePart;
    m := [];
    NoPositivePart(edges, index);
    for i := 0 to |edges|
      invariant IsPositivePart(edges[..i], index, m)
      invariant forall k :: 0 <= k < |m| ==> m[k].src < |ids| && m[k].tgt < |ids| && 0.0 < m[k].w
    {
      var e := edges[i];
      PositivePartGrows(edges, i, index, m);
      if e.w > 0.0 {
        m := m + [Arc(index[e.source], index[e.target], e.w)];
      }
    }
    assert edges[..|edges|] == edges;
  }

  lemma NoPositivePart(edges: seq<Edge>, index: map<Id, nat>)
    ensures IsPositivePart(edges[..0], index, [])
  {
  }

  lemma PositivePartGrows(edges: seq<Edge>, i: nat, index: map<Id, nat>, m: seq<Arc>)
    requires forall k :: 0 <= k < |edges| ==> edges[k].source in index && edges[k].target in index
    requires i < |edges| && IsPositivePart(edges[..i], index, m)
    ensures IsPositivePart(edges[..i + 1], index,
      if edges[i].w > 0.0 then m + [Arc(index[edges[i].source], index[edges[i].target], edges[i].w)] else m)
  {
    assert edges[..i + 1][..i] == edges[..i];
    assert forall a: Arc :: (m + [a])[..|m + [a]| - 1] == m;
  }

  /** np.add.at(out_weight, cols, data) */
  method AccumulateOut(m: seq<Arc>, n: nat) returns (out: seq<real>)
    requires InRange(m, n)
    ensures out == OutSums(m, n)
  {
    var acc := new real[n](_ => 0.0);
    assert acc[..] == Zeros(n);
    for i := 0 to |m|
      invariant acc[..] == OutSums(m[..i], n)
    {
      acc[m[i].src] := acc[m[i].src] + m[i].w;
      assert m[..i + 1][..i] == m[..i];
    }
    assert m[..|m|] == m;
    out := acc[..];
  }

  lemma {:induction false} OutSumAtLeast(m: seq<Arc>, n: nat, k: nat)
    requires InRange(m, n) && k < |m|
    ensures OutSums(m, n)[m[k].src] >= m[k].w
  {
    var rest := m[..|m| - 1];
    OutSumsNonNegative(rest, n);
    if k < |m| - 1 {
      OutSumAtLeast(rest, n, k);
    }
  }

  lemma {:induction false} OutSumsNonNegative(m: seq<Arc>, n: nat)
    requires InRange(m, n)
    ensures forall s :: 0 <= s < n ==> 0.0 <= OutSums(m, n)[s]
  {
    if |m| > 0 {
      OutSumsNonNegative(m[..|m| - 1], n);
    }
  }

  /** data / out_weight[cols]; no arc has a zero out-weight behind it. */
  method Normalise(m: seq<Arc>, n: nat) returns (norm: seq<Arc>)
    requires InRange(m, n) && forall k :: 0 <= k < |m| ==> 0.0 < m[k].w
    ensures IsNormalised(m, OutSums(m, n), norm)
    ensures InRange(norm, n) && forall k :: 0 <= k < |norm| ==> 0.0 < norm[k].w
  {
    hide Share;
    var out := AccumulateOut(m, n);
    norm := [];
    for i := 0 to |m|
      invariant |norm| == i
      invariant forall k :: 0 <= k < i ==>
        out[m[k].src] > 0.0 && norm[k] == Arc(m[k].src, m[k].tgt, Share(m[k].w, out[m[k].src])) && 0.0 < norm[k].w
    {
      OutSumAtLeast(m, n, i);
      SharePositive(m[i].w, out[m[i].src]);
      norm := norm + [Arc(m[i].src, m[i].tgt, Share(m[i].w, out[m[i].src]))];
    }
  }

  lemma {:induction false} EntryOfLast(m: seq<Arc>, i: nat, s: nat, t: nat)
    requires i < |m|
    ensures Entry(m[..i + 1], s, t) == Entry(m[..i], s, t) + if m[i].src == s && m[i].tgt == t then m[i].w else 0.0
  {
    assert m[..i + 1][..i] == m[..i];
  }

  /** np.unique(pair_key) with np.add.at: one arc a place, in ascending key order, the duplicates summed. */
  method Collapse(raw: seq<Arc>, n: nat) returns (m: seq<Arc>)
    requires InRange(raw, n)
    ensures InRange(m, n) && DistinctPlaces(m) && SameEntries(raw, m, n)
    ensures forall i, j :: 0 <= i < j < |m| ==> PairKey(m[i], n) < PairKey(m[j], n)
    ensures Positive(raw) ==> Positive(m)
  {
    hide PairKey, KeySrc, KeyTgt;
    if |raw| == 0 {
      return [];
    }
    assert raw[0].src < n;
    var uniq := SortedSet(set a | a in raw :: PairKey(a, n));
    forall key | key in uniq ensures KeySrc(key, n) < n && KeyTgt(key, n) < n && PairKey(Arc(KeySrc(key, n), KeyTgt(key, n), 0.0), n) == key {
      var a :| a in raw && PairKey(a, n) == key;
      KeyDecodes(a, n);
      KeyIgnoresWeight(a, n);
    }
    var summed := AddAt(raw, n, uniq);
    m := seq(|uniq|, p requires 0 <= p < |uniq| => Arc(KeySrc(uniq[p], n), KeyTgt(uniq[p], n), summed[p]));
    forall p | 0 <= p < |uniq| ensures m[p].src < n && m[p].tgt < n && PairKey(m[p], n) == uniq[p] {
      assert uniq[p] in uniq;
      KeyIgnoresWeight(m[p], n);
    }
    CollapsedEntries(raw, m, n, uniq);
  }

  ghost predicate Positive(m: seq<Arc>) {
    forall k :: 0 <= k < |m| ==> m[k].w > 0.0
  }

  lemma {:induction false} EntryPositive(m: seq<Arc>, k: nat)
    requires Positive(m) && k < |m|
    ensures Entry(m, m[k].src, m[k].tgt) > 0.0
  {
    var rest := m[..|m| - 1];
    if k < |m| - 1 {
      EntryPositive(rest, k);
    } else {
      EntryNonNegative(rest, m[k].src, m[k].tgt);
    }
  }

  lemma KeyIgnoresWeight(a: Arc, n: nat)
    ensures PairKey(Arc(a.src, a.tgt, 0.0), n) == PairKey(a, n)
  {
  }

  /** np.add.at(summed, inverse, data), inverse being the position of each key in `uniq`. */
  method AddAt(raw: seq<Arc>, n: nat, uniq: seq<nat>) returns (summed: seq<real>)
    requires InRange(raw, n) && n > 0 && Ascending(uniq)
    requires forall k :: 0 <= k < |raw| ==> PairKey(raw[k], n) in uniq
    ensures |summed| == |uniq|
    ensures forall p :: 0 <= p < |uniq| ==> summed[p] == Entry(raw, KeySrc(uniq[p], n), KeyTgt(uniq[p], n))
  {
    hide PairKey, KeySrc, KeyTgt;
    var acc := new real[|uniq|](_ => 0.0);
    for i := 0 to |raw|
      invariant forall p :: 0 <= p < |uniq| ==> acc[p] == Entry(raw[..i], KeySrc(uniq[p], n), KeyTgt(uniq[p], n))
    {
      var inverse :| 0 <= inverse < |uniq| && uniq[inverse] == PairKey(raw[i], n);
      forall p | 0 <= p < |uniq|
        ensures (raw[i].src == KeySrc(uniq[p], n) && raw[i].tgt == KeyTgt(uniq[p], n)) ==> p == inverse
        ensures Entry(raw[..i + 1], KeySrc(uniq[p], n), KeyTgt(uniq[p], n)) == acc[p] + if p == inverse then raw[i].w else 0.0
      {
        KeyDecodes(raw[i], n);
        EntryOfLast(raw, i, KeySrc(uniq[p], n), KeyTgt(uniq[p], n));
        KeyRebuilds(uniq[p], n);
        KeyRebuilds(uniq[inverse], n);
      }
      acc[inverse] := acc[inverse] + raw[i].w;
    }
    assert raw[..|raw|] == raw;
    summed := acc[..];
  }

  lemma KeyRebuilds(key: nat, n: nat)
    requires n > 0
    ensures KeyTgt(key, n) * n + KeySrc(key, n) == key
  {
  }

  lemma CollapsedEntries(raw: seq<Arc>, m: seq<Arc>, n: nat, uniq: seq<nat>)
    requires InRange(raw, n) && Ascending(uniq) && |m| == |uniq|
    requires forall key :: key in uniq <==> exists a :: a in raw && PairKey(a, n) == key
    requires forall k :: 0 <= k < |m| ==> m[k].src < n && m[k].tgt < n && PairKey(m[k], n) == uniq[k]
    requires forall k :: 0 <= k < |m| ==> m[k].w == Entry(raw, m[k].src, m[k].tgt)
    ensures InRange(m, n) && DistinctPlaces(m) && SameEntries(raw, m, n)
    ensures Positive(raw) ==> Positive(m)
  {
    assert DistinctPlaces(m);
    if Positive(raw) {
      forall k | 0 <= k < |m| ensures m[k].w > 0.0 {
        assert uniq[k] in uniq;
        var a :| a in raw && PairKey(a, n) == uniq[k];
        var j :| 0 <= j < |raw| && raw[j] == a;
        KeyInjective(a, m[k], n);
        EntryPositive(raw, j);
      }
    }
    forall k | 0 <= k < |m| ensures 0.0 <= m[k].w {
      EntryNonNegative(raw, m[k].src, m[k].tgt);
    }
    forall s, t | 0 <= s < n && 0 <= t < n ensures Entry(raw, s, t) == Entry(m, s, t) {
      if k :| 0 <= k < |m| && m[k].src == s && m[k].tgt == t {
        EntryPresent(m, k);
      } else {
        EntryAbsent(m, s, t);
        forall j | 0 <= j < |raw| ensures raw[j].src != s || raw[j].tgt != t {
          var key := PairKey(raw[j], n);
          assert raw[j] in raw && key in uniq;
          var k :| 0 <= k < |uniq| && uniq[k] == key;
          KeyInjective(raw[j], m[k], n);
        }
        EntryAbsent(raw, s, t);
      }
    }
  }

  /** The activation matrix as promised: the share of a source's positive out-weight that goes to each target. */
  ghost predicate IsActivationMatrix(edges: seq<Edge>, ids: seq<Id>, m: seq<Arc>) {
    && InRange(m, |ids|) && DistinctPlaces(m) && Positive(m)
    && (forall s, t :: 0 <= s < |ids| && 0 <= t < |ids| ==>
          var total := OutWeight(edges, ids[s]);
          Entry(m, s, t) == if total > 0.0 then Between(edges, ids[s], ids[t]) / total else 0.0)
    && (forall s :: 0 <= s < |ids| ==> OutSums(m, |ids|)[s] == if OutWeight(edges, ids[s]) > 0.0 then 1.0 else 0.0)
  }

  lemma MatrixBuilt(edges: seq<Edge>, ids: seq<Id>, index: map<Id, nat>, pos: seq<Arc>, norm: seq<Arc>, m: seq<Arc>)
    requires Indexed(ids, index)
    requires forall k :: 0 <= k < |edges| ==> edges[k].source in index && edges[k].target in index
    requires IsPositivePart(edges, index, pos) && InRange(pos, |ids|)
    requires IsNormalised(pos, OutSums(pos, |ids|), norm) && InRange(norm, |ids|)
    requires InRange(m, |ids|) && DistinctPlaces(m) && SameEntries(norm, m, |ids|) && Positive(m)
    ensures IsActivationMatrix(edges, ids, m)
  {
    hide Share;
    var n := |ids|;
    var out := OutSums(pos, n);
    SameMatrix(norm, m, Zeros(n));
    forall s | 0 <= s < n
      ensures OutSums(m, n)[s] == if OutWeight(edges, ids[s]) > 0.0 then 1.0 else 0.0
    {
      PositivePartSums(edges, ids, index, pos, s, s);
      NormalisedOutSum(pos, out, norm, s);
      if out[s] > 0.0 {
        ShareAdds(out[s], 0.0, out[s]);
      }
    }
    forall s, t | 0 <= s < n && 0 <= t < n
      ensures Entry(m, s, t) == if OutWeight(edges, ids[s]) > 0.0 then Between(edges, ids[s], ids[t]) / OutWeight(edges, ids[s]) else 0.0
    {
      PositivePartSums(edges, ids, index, pos, s, t);
      NormalisedEntry(pos, out, norm, s, t);
      ShareIs(Entry(pos, s, t), out[s]);
    }
  }

  lemma ShareIs(w: real, total: real)
    ensures total > 0.0 ==> Share(w, total) == w / total
  {
  }

  /** Whatever the edges, no column of the activation matrix exceeds one. */
  lemma MatrixIsSubstochastic(edges: seq<Edge>, ids: seq<Id>, m: seq<Arc>)
    requires IsActivationMatrix(edges, ids, m)
    ensures Substochastic(m, |ids|)
  {
  }

  // --- Seeds ------------------------------------------------------------

  /** e[seeds] = 1.0 / len(seeds): a repeated seed is assigned twice, not added. */
  ghost function Seeded(seeds: seq<nat>, n: nat): (e: seq<real>)
    requires |seeds| > 0
    ensures |e| == n
  {
    seq(n, i requires 0 <= i < n => if i in seeds then Share(1.0, |seeds| as real) else 0.0)
  }

  ghost function Among(seeds: seq<nat>, n: nat): set<nat> {
    set i | i in seeds && i < n
  }

  lemma {:induction false} SeededSum(seeds: seq<nat>, n: nat)
    requires |seeds| > 0
    ensures Sum(Seeded(seeds, n)) == Times(|Among(seeds, n)| as real, Share(1.0, |seeds| as real))
  {
    hide Share, Times;
    var c := Share(1.0, |seeds| as real);
    if n == 0 {
      assert Among(seeds, 0) == {};
      Units(c);
    } else {
      SeededSum(seeds, n - 1);
      assert Seeded(seeds, n)[..n - 1] == Seeded(seeds, n - 1);
      AmongOneMore(seeds, n);
      if n - 1 in seeds {
        hide Among;
        Distribute(c, |Among(seeds, n - 1)| as real, 1.0);
        Commute(c, |Among(seeds, n)| as real);
        Commute(c, |Among(seeds, n - 1)| as real);
        Units(c);
      }
    }
  }

  lemma AmongOneMore(seeds: seq<nat>, n: nat)
    requires n > 0
    ensures |Among(seeds, n)| == |Among(seeds, n - 1)| + if n - 1 in seeds then 1 else 0
  {
    if n - 1 in seeds {
      assert Among(seeds, n) == Among(seeds, n - 1) + {n - 1};
    } else {
      assert Among(seeds, n) == Among(seeds, n - 1);
    }
  }

  ghost predicate Distinct<T>(s: seq<T>) {
    forall i, j :: 0 <= i < j < |s| ==> s[i] != s[j]
  }

  lemma AmongAppend(rest: seq<nat>, last: nat, n: nat)
    requires last < n
    ensures Among(rest + [last], n) == Among(rest, n) + {last}
  {
    forall i ensures i in Among(rest + [last], n) <==> i in Among(rest, n) + {last} {
      assert i in rest + [last] <==> i in rest || i == last;
    }
  }

  lemma {:induction false} CountDistinct(seeds: seq<nat>, n: nat)
    requires forall s :: s in seeds ==> s < n
    ensures |Among(seeds, n)| <= |seeds|
    ensures |Among(seeds, n)| == |seeds| <==> Distinct(seeds)
  {
    if |seeds| == 0 {
      assert Among(seeds, n) == {};
    } else {
      var rest, last := seeds[..|seeds| - 1], seeds[|seeds| - 1];
      assert seeds == rest + [last];
      assert forall s :: s in rest ==> s in seeds;
      CountDistinct(rest, n);
      assert last in seeds;
      AmongAppend(rest, last, n);
    }
  }

  lemma ShareOfCount(k: nat, n: nat)
    requires k <= n && n > 0
    ensures Times(k as real, Share(1.0, n as real)) <= 1.0
    ensures Times(k as real, Share(1.0, n as real)) == 1.0 <==> k == n
  {
    var c := 1.0 / n as real;
    assert n as real * c == 1.0;
    if k < n {
      TimesLt(c, k as real, n as real);
    }
  }

  /** The seed mass never exceeds one, and is one exactly when the seeds are distinct. */
  lemma SeedMass(seeds: seq<nat>, n: nat)
    requires |seeds| > 0 && forall s :: s in seeds ==> s < n
    ensures SeedVector(Seeded(seeds, n))
    ensures Sum(Seeded(seeds, n)) == 1.0 <==> Distinct(seeds)
  {
    SeededSum(seeds, n);
    CountDistinct(seeds, n);
    ShareOfCount(|Among(seeds, n)|, |seeds|);
    SharePositive(1.0, |seeds| as real);
  }

  // --- Selection of the activated nodes --------------------------------------

  ghost predicate Descending(rank: seq<real>, top: seq<nat>) {
    && (forall p :: 0 <= p < |top| ==> top[p] < |rank|)
    && (forall p, q :: 0 <= p < q < |top| ==> rank[top[p]] >= rank[top[q]])
  }

  lemma InsertDescending(rank: seq<real>, sorted: seq<nat>, x: nat, p: nat)
    requires Descending(rank, sorted) && x < |rank| && p <= |sorted|
    requires forall q :: p <= q < |sorted| ==> rank[sorted[q]] < rank[x]
    requires p > 0 ==> rank[sorted[p - 1]] >= rank[x]
    ensures Descending(rank, sorted[..p] + [x] + sorted[p..])
  {
    forall q | 0 <= q < p ensures rank[sorted[q]] >= rank[x] {
      assert q < p - 1 ==> rank[sorted[q]] >= rank[sorted[p - 1]];
    }
  }

  /** sorted(top, key=lambda i: -rank[i]) */
  method SortByRank(rank: seq<real>, top: seq<nat>) returns (sorted: seq<nat>)
    requires forall p :: 0 <= p < |top| ==> top[p] < |rank|
    ensures Descending(rank, sorted)
    ensures multiset(sorted) == multiset(top)
  {
    sorted := [];
    for i := 0 to |top|
      invariant Descending(rank, sorted)
      invariant multiset(sorted) == multiset(top[..i])
    {
      var p := |sorted|;
      while p > 0 && rank[sorted[p - 1]] < rank[top[i]]
        invariant 0 <= p <= |sorted|
        invariant forall q :: p <= q < |sorted| ==> rank[sorted[q]] < rank[top[i]]
      {
        p := p - 1;
      }
      InsertDescending(rank, sorted, top[i], p);
      MultisetInsert(sorted, p, top[i]);
      MultisetPrefix(top, i);
      sorted := sorted[..p] + [top[i]] + sorted[p..];
    }
    assert top[..|top|] == top;
  }

  /** The nodes outside `top` rank no higher than those inside. */
  ghost predicate IsTop(rank: seq<real>, top: seq<nat>, k: nat) {
    && |top| == k && Distinct(top)
    && (forall p :: 0 <= p < |top| ==> top[p] < |rank|)
    && (forall i, p :: 0 <= i < |rank| && 0 <= p < |top| && i !in top ==> rank[i] <= rank[top[p]])
  }

  /** np.argpartition(rank, -k)[-k:]; the slice [-0:] is the whole array. */
  method ArgPartition(rank: seq<real>, k: nat) returns (top: seq<nat>)
    requires k <= |rank|
    ensures IsTop(rank, top, if k == 0 then |rank| else k)
  {
    var order := Argsort(rank);
    var cut := if k == 0 then 0 else |rank| - k;
    top := order[cut..];
    forall i, p | 0 <= i < |rank| && 0 <= p < |top| && i !in top ensures rank[i] <= rank[top[p]] {
      assert i in order;
      var q :| 0 <= q < |order| && order[q] == i;
      assert Precedes(rank, order[q], order[cut + p]);
    }
  }

  /** The index a node has, if it is in the graph. */
  function Known(index: map<Id, nat>, a: Id): Option<nat> {
    if a in index then Some(index[a]) else None
  }

  /** What the last slot holds after the first n ensured nodes: each one that is known and not in the list takes it. */
  function LastSlot(index: map<Id, nat>, top: seq<nat>, ensured: seq<Id>, n: nat): (slot: nat)
    requires |top| > 0 && n <= |ensured|
  {
    if n == 0 then top[|top| - 1]
    else
      var a := ensured[n - 1];
      if a in index && index[a] !in top[..|top| - 1] then index[a] else LastSlot(index, top, ensured, n - 1)
  }

  /** The list after ensuring: only the last slot is ever given away. */
  function Ensured(index: map<Id, nat>, top: seq<nat>, ensured: seq<Id>): (kept: seq<nat>)
    requires |top| > 0
    ensures |kept| == |top|
  {
    top[..|top| - 1] + [LastSlot(index, top, ensured, |ensured|)]
  }

  /** top[-1] = idx for each ensured node not yet in the list. */
  method EnsureNodes(index: map<Id, nat>, top: seq<nat>, ensured: seq<Id>) returns (kept: seq<nat>)
    requires |top| > 0 && Distinct(top)
    ensures kept == Ensured(index, top, ensured) && Distinct(kept)
  {
    kept := top;
    var last := |top| - 1;
    for i := 0 to |ensured|
      invariant |kept| == |top| && Distinct(kept) && kept[..last] == top[..last]
      invariant kept[last] == LastSlot(index, top, ensured, i)
    {
      var a := ensured[i];
      assert kept == kept[..last] + [kept[last]];
      if a in index && index[a] !in kept {
        assert index[a] !in kept[..last];
        kept := kept[last := index[a]];
      }
    }
    assert kept == kept[..last] + [kept[last]];
  }

  /** The ensured node is in the graph, and not among all but the last of the list. */
  predicate Outside(index: map<Id, nat>, top: seq<nat>, a: Id)
    requires |top| > 0
  {
    a in index && index[a] !in top[..|top| - 1]
  }

  lemma {:induction false} LastSlotHolds(index: map<Id, nat>, top: seq<nat>, ensured: seq<Id>, n: nat)
    requires |top| > 0 && n <= |ensured|
    ensures
      var slot := LastSlot(index, top, ensured, n);
      || (slot == top[|top| - 1] && forall j :: 0 <= j < n ==> !Outside(index, top, ensured[j]))
      || exists i :: 0 <= i < n && Outside(index, top, ensured[i]) && slot == index[ensured[i]]
                     && forall j :: i < j < n ==> !Outside(index, top, ensured[j])
  {
    if n > 0 {
      LastSlotHolds(index, top, ensured, n - 1);
      if Outside(index, top, ensured[n - 1]) {
        assert LastSlot(index, top, ensured, n) == index[ensured[n - 1]];
      }
    }
  }

  /**
   ensure_ids is a promise about one node: all the ensured nodes that are known are
   in the answer if and only if those outside the kept part of the list are one node.
   The last known one always is, and if none is outside nothing changes.
   */
  lemma EnsuredIff(index: map<Id, nat>, top: seq<nat>, ensured: seq<Id>)
    requires |top| > 0 && Distinct(top)
    ensures
      var kept := Ensured(index, top, ensured);
      && ((forall a :: a in ensured && a in index ==> index[a] in kept) <==>
           forall a, b :: a in ensured && b in ensured && Outside(index, top, a) && Outside(index, top, b) ==> index[a] == index[b])
      && (forall i :: 0 <= i < |ensured| && ensured[i] in index && (forall j :: i < j < |ensured| ==> ensured[j] !in index)
            ==> index[ensured[i]] in kept)
      && ((forall a :: a in ensured && a in index ==> index[a] in top) ==> kept == top)
      && (forall p :: 0 <= p < |kept| && kept[p] != top[p] ==> p == |kept| - 1 && exists a :: a in ensured && Outside(index, top, a) && index[a] == kept[p])
  {
    var front, kept := top[..|top| - 1], Ensured(index, top, ensured);
    var slot := kept[|top| - 1];
    LastSlotHolds(index, top, ensured, |ensured|);
    assert top == front + [top[|top| - 1]] && kept == front + [slot];
    forall a | a in ensured && a in index ensures index[a] in kept <==> !Outside(index, top, a) || index[a] == slot {
    }
    forall a | a in ensured && Outside(index, top, a) ensures exists b :: b in ensured && Outside(index, top, b) && slot == index[b] {
      var k :| 0 <= k < |ensured| && ensured[k] == a;
    }
  }

  /** Two ensured nodes that are not in a list of one: only the second is in the answer. */
  lemma EnsuredLosesOne()
    ensures Ensured(map[10 := 0, 11 := 1, 12 := 2], [0], [11, 12]) == [2]
  {
  }

  lemma PermutationKeeps<T>(a: seq<T>, b: seq<T>)
    requires multiset(a) == multiset(b)
    ensures |a| == |b| && forall x :: x in a <==> x in b
    ensures Distinct(a) ==> Distinct(b)
  {
    assert |multiset(a)| == |a| && |multiset(b)| == |b|;
    forall x ensures x in a <==> x in b {
      assert x in multiset(a) <==> x in multiset(b);
    }
    if Distinct(a) && !Distinct(b) {
      var i, j :| 0 <= i < j < |b| && b[i] == b[j];
      TwiceCounts(b, i, j);
      OnceCounts(a, b[i]);
    }
  }

  lemma TwiceCounts<T>(b: seq<T>, i: nat, j: nat)
    requires i < j < |b| && b[i] == b[j]
    ensures multiset(b)[b[i]] >= 2
  {
    assert b == b[..i] + [b[i]] + b[i + 1..j] + [b[j]] + b[j + 1..];
  }

  lemma {:induction false} OnceCounts<T>(a: seq<T>, x: T)
    requires Distinct(a)
    ensures multiset(a)[x] <= 1
  {
    if |a| > 0 {
      var rest := a[..|a| - 1];
      assert a == rest + [a[|a| - 1]];
      OnceCounts(rest, x);
      if a[|a| - 1] == x {
        assert x !in multiset(rest);
      }
    }
  }

  /** The nodes of highest rank, in descending order, before the ensured ones are given the last slot. */
  ghost predicate IsBase(rank: seq<real>, base: seq<nat>, k: nat) {
    IsTop(rank, base, k) && Descending(rank, base)
  }

  /** The nodes spread answers with, given the final rank: the top k with the last slot given away, in descending order. */
  ghost predicate IsAnswer(rank: seq<real>, index: map<Id, nat>, k: nat, ensured: seq<Id>, top: seq<nat>) {
    && Descending(rank, top)
    && exists base :: |base| > 0 && IsBase(rank, base, if k == 0 then |rank| else k) && multiset(top) == multiset(Ensured(index, base, ensured))
  }

  lemma TopRearranged(rank: seq<real>, part: seq<nat>, sorted: seq<nat>, k: nat)
    requires IsTop(rank, part, k) && multiset(part) == multiset(sorted) && Descending(rank, sorted)
    ensures IsBase(rank, sorted, k)
  {
    PermutationKeeps(part, sorted);
    forall i, p | 0 <= i < |rank| && 0 <= p < |sorted| && i !in sorted ensures rank[i] <= rank[sorted[p]] {
      assert sorted[p] in part;
    }
  }

  /** Partition, sort, ensure, sort again. */
  method Select(rank: seq<real>, index: map<Id, nat>, k: nat, ensured: seq<Id>) returns (top: seq<nat>)
    requires 0 < |rank| && k <= |rank| && forall a :: a in index ==> index[a] < |rank|
    ensures IsAnswer(rank, index, k, ensured, top)
  {
    var part := ArgPartition(rank, k);
    var sorted := SortByRank(rank, part);
    TopRearranged(rank, part, sorted, if k == 0 then |rank| else k);
    var kept := EnsureNodes(index, sorted, ensured);
    KeptInRange(|rank|, index, sorted, ensured);
    top := SortByRank(rank, kept);
  }

  lemma {:induction false} SlotInRange(n: nat, index: map<Id, nat>, top: seq<nat>, ensured: seq<Id>, i: nat)
    requires |top| > 0 && i <= |ensured| && (forall a :: a in index ==> index[a] < n) && forall p :: 0 <= p < |top| ==> top[p] < n
    ensures LastSlot(index, top, ensured, i) < n
  {
    if i > 0 {
      SlotInRange(n, index, top, ensured, i - 1);
    }
  }

  lemma KeptInRange(n: nat, index: map<Id, nat>, top: seq<nat>, ensured: seq<Id>)
    requires |top| > 0 && (forall a :: a in index ==> index[a] < n) && forall p :: 0 <= p < |top| ==> top[p] < n
    ensures forall p :: 0 <= p < |top| ==> Ensured(index, top, ensured)[p] < n
  {
    SlotInRange(n, index, top, ensured, |ensured|);
  }

  lemma {:induction false} SlotIsNew(index: map<Id, nat>, top: seq<nat>, ensured: seq<Id>, i: nat)
    requires |top| > 0 && Distinct(top) && i <= |ensured|
    ensures LastSlot(index, top, ensured, i) !in top[..|top| - 1]
  {
    if i > 0 {
      SlotIsNew(index, top, ensured, i - 1);
    }
  }

  /**
   An answer has k different nodes (all of them for k = 0); a listed node that an
   unlisted one outranks is an ensured node; and the last ensured node that is known is listed.
   */
  lemma AnswerHolds(rank: seq<real>, index: map<Id, nat>, k: nat, ensured: seq<Id>, top: seq<nat>)
    requires IsAnswer(rank, index, k, ensured, top)
    ensures |top| == (if k == 0 then |rank| else k) && Distinct(top)
    ensures forall i, p :: 0 <= i < |rank| && 0 <= p < |top| && i !in top ==>
      rank[i] <= rank[top[p]] || exists a :: a in ensured && Known(index, a) == Some(top[p])
    ensures forall i ::
      (0 <= i < |ensured| && ensured[i] in index && forall j :: i < j < |ensured| ==> ensured[j] !in index) ==> index[ensured[i]] in top
  {
    var base :| |base| > 0 && IsBase(rank, base, if k == 0 then |rank| else k) && multiset(top) == multiset(Ensured(index, base, ensured));
    var kept := Ensured(index, base, ensured);
    SlotIsNew(index, base, ensured, |ensured|);
    assert Distinct(kept);
    PermutationKeeps(kept, top);
    EnsuredIff(index, base, ensured);
    forall i, p | 0 <= i < |rank| && 0 <= p < |top| && i !in top
      ensures rank[i] <= rank[top[p]] || exists a :: a in ensured && Known(index, a) == Some(top[p])
    {
      assert top[p] in kept;
      var q :| 0 <= q < |kept| && kept[q] == top[p];
      OutrankedIsEnsured(rank, index, base, ensured, i, q);
    }
  }

  lemma OutrankedIsEnsured(rank: seq<real>, index: map<Id, nat>, base: seq<nat>, ensured: seq<Id>, i: nat, q: nat)
    requires |base| > 0 && IsBase(rank, base, |base|) && i < |rank| && q < |base| && i !in Ensured(index, base, ensured)
    requires Ensured(index, base, ensured)[q] < |rank|
    ensures
      var kept := Ensured(index, base, ensured);
      rank[i] <= rank[kept[q]] || exists a :: a in ensured && Known(index, a) == Some(kept[q])
  {
    var kept := Ensured(index, base, ensured);
    EnsuredIff(index, base, ensured);
    if kept[q] != base[q] {
      var a :| a in ensured && Outside(index, base, a) && index[a] == kept[q];
      assert Known(index, a) == Some(kept[q]);
    } else if i in base {
      var j :| 0 <= j < |base| && base[j] == i;
      assert kept[..|base| - 1] == base[..|base| - 1];
      assert rank[base[q]] >= rank[base[j]];
    }
  }

  /** self._matrix @ x */
  method Multiply(m: seq<Arc>, x: seq<real>) returns (y: seq<real>)
    requires InRange(m, |x|)
    ensures y == Scatter(m, x)
  {
    hide Times;
    var acc := new real[|x|](_ => 0.0);
    assert acc[..] == Zeros(|x|);
    for i := 0 to |m|
      invariant acc[..] == Scatter(m[..i], x)
    {
      assert m[..i + 1][..i] == m[..i];
      acc[m[i].tgt] := acc[m[i].tgt] + Times(m[i].w, x[m[i].src]);
    }
    assert m[..|m|] == m;
    y := acc[..];
  }

  /** e, uniform over the seeds. */
  method SeedVectorOf(seeds: seq<nat>, n: nat) returns (e: seq<real>)
    requires |seeds| > 0 && forall s :: s in seeds ==> s < n
    ensures e == Seeded(seeds, n)
  {
    hide Share;
    var a := new real[n](_ => 0.0);
    for i := 0 to |seeds|
      invariant forall j: nat :: j < n ==> a[j] == if j in seeds[..i] then Share(1.0, |seeds| as real) else 0.0
    {
      assert seeds[i] in seeds && seeds[..i + 1] == seeds[..i] + [seeds[i]];
      a[seeds[i]] := Share(1.0, |seeds| as real);
    }
    assert seeds[..|seeds|] == seeds;
    e := a[..];
  }

  /** The indices of the known seeds, in order, repeats kept. */
  function KnownSeeds(index: map<Id, nat>, seedIds: seq<Id>): seq<nat> {
    if |seedIds| == 0 then []
    else
      var rest := KnownSeeds(index, seedIds[..|seedIds| - 1]);
      var a := seedIds[|seedIds| - 1];
      if a in index then rest + [index[a]] else rest
  }

  lemma {:induction false} KnownSeedsInRange(ids: seq<Id>, index: map<Id, nat>, seedIds: seq<Id>)
    requires Indexed(ids, index)
    ensures forall s :: s in KnownSeeds(index, seedIds) ==> s < |ids|
  {
    if |seedIds| > 0 {
      KnownSeedsInRange(ids, index, seedIds[..|seedIds| - 1]);
    }
  }

  /** How many positions of seedIds are nodes of the graph. */
  ghost function KnownCount(index: map<Id, nat>, seedIds: seq<Id>): nat {
    |set p | 0 <= p < |seedIds| && seedIds[p] in index|
  }

  /** The start vector: spread evenly over the positions that are known, a repeated seed having one share all the same. */
  ghost predicate IsStart(ids: seq<Id>, index: map<Id, nat>, seedIds: seq<Id>, e: seq<real>) {
    && |e| == |ids| && KnownCount(index, seedIds) > 0
    && forall i :: 0 <= i < |ids| ==> e[i] == if ids[i] in seedIds then 1.0 / KnownCount(index, seedIds) as real else 0.0
  }

  lemma {:induction false} KnownSeedsCount(index: map<Id, nat>, seedIds: seq<Id>)
    ensures |KnownSeeds(index, seedIds)| == KnownCount(index, seedIds)
  {
    var known := set p | 0 <= p < |seedIds| && seedIds[p] in index;
    if |seedIds| == 0 {
      assert known == {};
    } else {
      var last := |seedIds| - 1;
      var rest := seedIds[..last];
      KnownSeedsCount(index, rest);
      var before := set p | 0 <= p < |rest| && rest[p] in index;
      assert known == before + (if seedIds[last] in index then {last} else {});
    }
  }

  lemma {:induction false} KnownSeedsAre(ids: seq<Id>, index: map<Id, nat>, seedIds: seq<Id>, i: nat)
    requires Indexed(ids, index) && i < |ids|
    ensures i in KnownSeeds(index, seedIds) <==> ids[i] in seedIds
  {
    if |seedIds| > 0 {
      var last := |seedIds| - 1;
      KnownSeedsAre(ids, index, seedIds[..last], i);
      assert seedIds == seedIds[..last] + [seedIds[last]];
    }
  }

  lemma SeededIsStart(ids: seq<Id>, index: map<Id, nat>, seedIds: seq<Id>)
    requires Indexed(ids, index) && |KnownSeeds(index, seedIds)| > 0
    ensures IsStart(ids, index, seedIds, Seeded(KnownSeeds(index, seedIds), |ids|))
  {
    KnownSeedsCount(index, seedIds);
    forall i | 0 <= i < |ids| { KnownSeedsAre(ids, index, seedIds, i); }
  }

  // --- The iteration, node by node ----------------------------------------------

  /** What the first n nodes pass on to node t: each its rank, in the share of its positive out-weight that goes to t. */
  ghost function Inflow(edges: seq<Edge>, ids: seq<Id>, r: seq<real>, t: nat, n: nat): real
    requires n <= |ids| == |r| && t < |ids|
  {
    if n == 0 then 0.0
    else
      var total := OutWeight(edges, ids[n - 1]);
      Inflow(edges, ids, r, t, n - 1) + if total > 0.0 then Times(r[n - 1], Between(edges, ids[n - 1], ids[t]) / total) else 0.0
  }

  /** Successive ranks from the start vector e. */
  ghost predicate IsIteration(edges: seq<Edge>, ids: seq<Id>, d: real, e: seq<real>, ranks: seq<seq<real>>) {
    && |ranks| > 0 && ranks[0] == e && (forall k :: 0 <= k < |ranks| ==> |ranks[k]| == |ids|) && |e| == |ids|
    && forall k, t :: 0 <= k < |ranks| - 1 && 0 <= t < |ids| ==>
         ranks[k + 1][t] == d * Inflow(edges, ids, ranks[k], t, |ids|) + (1.0 - d) * e[t]
  }

  lemma {:induction false} RowIsInflow(edges: seq<Edge>, ids: seq<Id>, m: seq<Arc>, r: seq<real>, t: nat, n: nat)
    requires IsActivationMatrix(edges, ids, m) && n <= |ids| == |r| && t < |ids|
    ensures Sum(Products(r, Row(m, t, |ids|))[..n]) == Inflow(edges, ids, r, t, n)
  {
    hide Times;
    if n > 0 {
      RowIsInflow(edges, ids, m, r, t, n - 1);
      hide Entry, OutWeight, Between;
      var terms := Products(r, Row(m, t, |ids|));
      assert terms[..n][..n - 1] == terms[..n - 1];
      assert terms[n - 1] == Times(r[n - 1], Entry(m, n - 1, t));
      assert Entry(m, n - 1, t) ==
        if OutWeight(edges, ids[n - 1]) > 0.0 then Between(edges, ids[n - 1], ids[t]) / OutWeight(edges, ids[n - 1]) else 0.0;
      Units(r[n - 1]);
    }
  }

  lemma StepAt(m: seq<Arc>, d: real, e: seq<real>, r: seq<real>, t: nat)
    requires |e| == |r| && InRange(m, |r|) && t < |r|
    ensures Step(m, d, e, r)[t] == d * Scatter(m, r)[t] + (1.0 - d) * e[t]
  {
    hide Scatter;
  }

  lemma StepIsInflow(edges: seq<Edge>, ids: seq<Id>, m: seq<Arc>, d: real, e: seq<real>, r: seq<real>, t: nat)
    requires IsActivationMatrix(edges, ids, m) && |e| == |r| == |ids| && t < |ids|
    ensures Step(m, d, e, r)[t] == d * Inflow(edges, ids, r, t, |ids|) + (1.0 - d) * e[t]
  {
    ScatterRow(m, r, t);
    RowIsInflow(edges, ids, m, r, t, |ids|);
    hide IsActivationMatrix, Inflow, Scatter, Products;
    var terms := Products(r, Row(m, t, |ids|));
    assert terms[..|ids|] == terms;
    StepAt(m, d, e, r, t);
  }

  lemma {:induction false} IterateIsIteration(edges: seq<Edge>, ids: seq<Id>, m: seq<Arc>, d: real, e: seq<real>, n: nat) returns (ranks: seq<seq<real>>)
    requires IsActivationMatrix(edges, ids, m) && |e| == |ids|
    ensures IsIteration(edges, ids, d, e, ranks) && |ranks| == n + 1 && ranks[n] == Iterate(m, d, e, e, n)
  {
    hide IsActivationMatrix, Inflow, Step;
    assert InRange(m, |ids|) by { MatrixIsSubstochastic(edges, ids, m); }
    if n == 0 {
      ranks := [e];
    } else {
      var before := IterateIsIteration(edges, ids, m, d, e, n - 1);
      ranks := before + [Iterate(m, d, e, e, n)];
      forall t | 0 <= t < |ids| { StepIsInflow(edges, ids, m, d, e, before[n - 1], t); }
    }
  }

  /** The stored rank: the last of `iterations` steps from the start vector. */
  ghost predicate IsRank(edges: seq<Edge>, ids: seq<Id>, index: map<Id, nat>, d: real, seedIds: seq<Id>, iterations: nat, rank: seq<real>) {
    exists e, ranks ::
      IsStart(ids, index, seedIds, e) && IsIteration(edges, ids, d, e, ranks) && |ranks| == iterations + 1 && ranks[iterations] == rank
  }

  datatype Flow = Flow(source: Id, target: Id, amount: real)

  /** Every endpoint of an edge is numbered. */
  ghost predicate Covers(edges: seq<Edge>, index: map<Id, nat>) {
    forall k :: 0 <= k < |edges| ==> edges[k].source in index && edges[k].target in index
  }

  class ActivationSpreader {
    ghost const edges: seq<Edge>
    const damping: real
    const index: map<Id, nat>
    const ids: seq<Id>
    const arcs: seq<Arc>
    var rank: Option<seq<real>>

    ghost predicate Valid()
      reads this
    {
      && 0.0 < damping < 1.0 && Indexed(ids, index) && IsActivationMatrix(edges, ids, arcs)
      && (rank.Some? ==> |rank.value| == |ids|) && Covers(edges, index)
    }

    constructor Build(edges: seq<Edge>, damping: real, index: map<Id, nat>, ids: seq<Id>, arcs: seq<Arc>)
      requires 0.0 < damping < 1.0 && Indexed(ids, index) && IsActivationMatrix(edges, ids, arcs) && Covers(edges, index)
      ensures Valid() && this.edges == edges && this.damping == damping && rank.None?
    {
      this.edges := edges;
      this.damping := damping;
      this.index := index;
      this.ids := ids;
      this.arcs := arcs;
      this.rank := None;
    }

    /** __init__; null stands for the ValueError on a damping outside (0, 1). */
    static method Create(edges: seq<Edge>, damping: real) returns (spreader: ActivationSpreader?)
      ensures spreader == null <==> !(0.0 < damping < 1.0)
      ensures spreader != null ==>
        fresh(spreader) && spreader.Valid() && spreader.edges == edges && spreader.damping == damping && spreader.rank.None?
    {
      if !(0.0 < damping < 1.0) {
        return null;
      }
      var ids, index := BuildIndex(edges);
      var pos := PositivePart(edges, ids, index);
      var norm := Normalise(pos, |ids|);
      var arcs := Collapse(norm, |ids|);
      MatrixBuilt(edges, ids, index, pos, norm, arcs);
      spreader := new ActivationSpreader.Build(edges, damping, index, ids, arcs);
    }

    method Spread(seedIds: seq<Id>, iterations: nat, topK: Option<nat>, ensured: seq<Id>) returns (out: seq<(Id, real)>)
      requires Valid()
      modifies this`rank
      ensures Valid()
      ensures KnownCount(index, seedIds) == 0 <==> out == []
      ensures KnownCount(index, seedIds) == 0 ==> rank == old(rank)
      ensures KnownCount(index, seedIds) > 0 ==> rank.Some? && IsRank(edges, ids, index, damping, seedIds, iterations, rank.value)
      ensures KnownCount(index, seedIds) > 0 ==>
        (exists top ::
           && IsAnswer(rank.value, index, if topK.Some? && topK.value < |ids| then topK.value else |ids|, ensured, top)
           && |out| == |top|
           && forall p :: 0 <= p < |top| ==> out[p] == (ids[top[p]], rank.value[top[p]]))
    {
      hide Times, Share, IsAnswer, IsActivationMatrix, IsStart, IsIteration, KnownCount;
      var seeds := KnownSeeds(index, seedIds);
      KnownSeedsInRange(ids, index, seedIds);
      KnownSeedsCount(index, seedIds);
      if |seeds| == 0 {
        return [];
      }
      assert seeds[0] in seeds;
      assert InRange(arcs, |ids|) by { MatrixIsSubstochastic(edges, ids, arcs); }
      var e := SeedVectorOf(seeds, |ids|);
      var r := e;
      for i := 0 to iterations
        invariant |r| == |ids| && r == Iterate(arcs, damping, e, e, i)
      {
        var moved := Multiply(arcs, r);
        r := Plus(Scaled(damping, moved), Scaled(1.0 - damping, e));
      }
      SeededIsStart(ids, index, seedIds);
      ghost var ranks := IterateIsIteration(edges, ids, arcs, damping, e, iterations);
      assert IsRank(edges, ids, index, damping, seedIds, iterations, r);
      rank := Some(r);
      var k := if topK.Some? && topK.value < |ids| then topK.value else |ids|;
      var top := Select(r, index, k, ensured);
      assert Descending(r, top) by { AnswerInRange(r, index, k, ensured, top); }
      AnswerHolds(r, index, k, ensured, top);
      out := seq(|top|, p requires 0 <= p < |top| => (ids[top[p]], r[top[p]]));
    }

    /** The flows rank[src] * M[tgt, src] over the arcs with both ends among the nodes; None before any spread. */
    method EdgeFlows(nodes: set<Id>) returns (flows: Option<seq<Flow>>)
      requires Valid()
      ensures flows.None? <==> rank.None?
      ensures flows.Some? ==> flows.value == FlowsOf(arcs, ids, rank.value, nodes)
      ensures flows.Some? ==> AreFlows(edges, index, rank.value, nodes, flows.value)
    {
      hide Times, IsActivationMatrix;
      if rank.None? {
        return None;
      }
      assert InRange(arcs, |ids|) by { MatrixIsSubstochastic(edges, ids, arcs); }
      var r := rank.value;
      var picked: seq<Flow> := [];
      for i := 0 to |arcs|
        invariant picked == FlowsOf(arcs[..i], ids, r, nodes)
      {
        assert arcs[..i + 1][..i] == arcs[..i];
        var a := arcs[i];
        if ids[a.src] in nodes && ids[a.tgt] in nodes {
          picked := picked + [Flow(ids[a.src], ids[a.tgt], Times(a.w, r[a.src]))];
        }
      }
      assert arcs[..|arcs|] == arcs;
      FlowsAreThose(edges, arcs, ids, index, r, nodes);
      flows := Some(picked);
    }
  }

  lemma AnswerInRange(rank: seq<real>, index: map<Id, nat>, k: nat, ensured: seq<Id>, top: seq<nat>)
    requires IsAnswer(rank, index, k, ensured, top)
    ensures Descending(rank, top)
  {
  }

  ghost function FlowsOf(arcs: seq<Arc>, ids: seq<Id>, rank: seq<real>, nodes: set<Id>): seq<Flow>
    requires InRange(arcs, |ids|) && |rank| == |ids|
  {
    if |arcs| == 0 then []
    else
      var a := arcs[|arcs| - 1];
      var rest := FlowsOf(arcs[..|arcs| - 1], ids, rank, nodes);
      if ids[a.src] in nodes && ids[a.tgt] in nodes then rest + [Flow(ids[a.src], ids[a.tgt], Times(a.w, rank[a.src]))] else rest
  }

  /**
   The flows among `nodes`: x -> y is listed, once, exactly when both are among them and some positive edge goes
   from x to y, and carries the share of x's rank that x's edges to y have of all its edges.
   */
  ghost predicate AreFlows(edges: seq<Edge>, index: map<Id, nat>, rank: seq<real>, nodes: set<Id>, flows: seq<Flow>) {
    && (forall i, j :: 0 <= i < j < |flows| ==> flows[i].source != flows[j].source || flows[i].target != flows[j].target)
    && (forall x, y :: Listed(flows, x, y) <==> x in nodes && y in nodes && Between(edges, x, y) > 0.0)
    && (forall i :: 0 <= i < |flows| ==> CarriesShare(edges, index, rank, flows[i]))
  }

  ghost predicate CarriesShare(edges: seq<Edge>, index: map<Id, nat>, rank: seq<real>, f: Flow) {
    && f.source in index && index[f.source] < |rank| && OutWeight(edges, f.source) > 0.0 && Between(edges, f.source, f.target) > 0.0
    && f.amount == rank[index[f.source]] * (Between(edges, f.source, f.target) / OutWeight(edges, f.source))
  }

  ghost predicate Listed(flows: seq<Flow>, x: Id, y: Id) {
    exists i :: 0 <= i < |flows| && flows[i].source == x && flows[i].target == y
  }

  /** The flow at position i is that of an arc; arcs come before each other as their flows do. */
  ghost predicate FromArcs(arcs: seq<Arc>, ids: seq<Id>, rank: seq<real>, nodes: set<Id>, flows: seq<Flow>, from: seq<nat>)
    requires InRange(arcs, |ids|) && |rank| == |ids|
  {
    && |from| == |flows| && (forall i, j :: 0 <= i < j < |from| ==> from[i] < from[j])
    && (forall i :: 0 <= i < |from| ==>
          && from[i] < |arcs| && ids[arcs[from[i]].src] in nodes && ids[arcs[from[i]].tgt] in nodes
          && flows[i] == Flow(ids[arcs[from[i]].src], ids[arcs[from[i]].tgt], Times(arcs[from[i]].w, rank[arcs[from[i]].src])))
    && (forall k: nat :: k < |arcs| && ids[arcs[k].src] in nodes && ids[arcs[k].tgt] in nodes ==> k in from)
  }

  lemma {:induction false} FlowsFromArcs(arcs: seq<Arc>, ids: seq<Id>, rank: seq<real>, nodes: set<Id>) returns (from: seq<nat>)
    requires InRange(arcs, |ids|) && |rank| == |ids|
    ensures FromArcs(arcs, ids, rank, nodes, FlowsOf(arcs, ids, rank, nodes), from)
  {
    hide Times;
    if |arcs| == 0 {
      from := [];
    } else {
      var last := |arcs| - 1;
      from := FlowsFromArcs(arcs[..last], ids, rank, nodes);
      if ids[arcs[last].src] in nodes && ids[arcs[last].tgt] in nodes {
        var longer := from + [last];
        assert last in longer && forall k :: k in from ==> k in longer;
        from := longer;
      }
    }
  }

  lemma {:induction false} NothingBetween(edges: seq<Edge>, a: Id, b: Id)
    ensures 0.0 <= Between(edges, a, b) <= OutWeight(edges, a)
    ensures Between(edges, a, b) > 0.0 ==> exists k :: 0 <= k < |edges| && edges[k].source == a && edges[k].target == b
  {
    if |edges| > 0 {
      NothingBetween(edges[..|edges| - 1], a, b);
    }
  }

  lemma ArcIsShare(edges: seq<Edge>, arcs: seq<Arc>, ids: seq<Id>, k: nat)
    requires IsActivationMatrix(edges, ids, arcs) && k < |arcs|
    ensures
      var x, y := ids[arcs[k].src], ids[arcs[k].tgt];
      OutWeight(edges, x) > 0.0 && Between(edges, x, y) > 0.0 && arcs[k].w == Between(edges, x, y) / OutWeight(edges, x)
  {
    var x, y := ids[arcs[k].src], ids[arcs[k].tgt];
    EntryPresent(arcs, k);
    NothingBetween(edges, x, y);
    assert OutWeight(edges, x) > 0.0;
    hide IsActivationMatrix, Between, OutWeight;
    SharePart(Between(edges, x, y), OutWeight(edges, x));
  }

  lemma SharePart(w: real, total: real)
    requires 0.0 <= w && total > 0.0 && w / total > 0.0
    ensures w > 0.0
  {
  }

  lemma ArcFor(edges: seq<Edge>, arcs: seq<Arc>, ids: seq<Id>, index: map<Id, nat>, x: Id, y: Id) returns (k: nat)
    requires Indexed(ids, index) && IsActivationMatrix(edges, ids, arcs) && Covers(edges, index) && Between(edges, x, y) > 0.0
    ensures k < |arcs| && ids[arcs[k].src] == x && ids[arcs[k].tgt] == y
  {
    NothingBetween(edges, x, y);
    var s, t := index[x], index[y];
    SharePositive(Between(edges, x, y), OutWeight(edges, x));
    ShareIs(Between(edges, x, y), OutWeight(edges, x));
    assert Entry(arcs, s, t) > 0.0;
    if forall j :: 0 <= j < |arcs| ==> arcs[j].src != s || arcs[j].tgt != t {
      EntryAbsent(arcs, s, t);
    }
    k :| 0 <= k < |arcs| && arcs[k].src == s && arcs[k].tgt == t;
  }

  lemma FlowIsShare(edges: seq<Edge>, arcs: seq<Arc>, ids: seq<Id>, index: map<Id, nat>, rank: seq<real>, k: nat, f: Flow)
    requires Indexed(ids, index) && IsActivationMatrix(edges, ids, arcs) && |rank| == |ids| && k < |arcs|
    requires f == Flow(ids[arcs[k].src], ids[arcs[k].tgt], Times(arcs[k].w, rank[arcs[k].src]))
    ensures CarriesShare(edges, index, rank, f)
  {
    ArcIsShare(edges, arcs, ids, k);
    Commute(arcs[k].w, rank[arcs[k].src]);
    hide IsActivationMatrix, OutWeight, Between;
  }

  lemma FlowListed(edges: seq<Edge>, arcs: seq<Arc>, ids: seq<Id>, index: map<Id, nat>, rank: seq<real>, nodes: set<Id>,
                   flows: seq<Flow>, from: seq<nat>, x: Id, y: Id)
    requires Indexed(ids, index) && IsActivationMatrix(edges, ids, arcs) && Covers(edges, index) && |rank| == |ids|
    requires FromArcs(arcs, ids, rank, nodes, flows, from) && x in nodes && y in nodes && Between(edges, x, y) > 0.0
    ensures Listed(flows, x, y)
  {
    var k := ArcFor(edges, arcs, ids, index, x, y);
    assert k in from;
    var i :| 0 <= i < |from| && from[i] == k;
    assert flows[i].source == x && flows[i].target == y;
  }

  lemma FlowsDiffer(edges: seq<Edge>, arcs: seq<Arc>, ids: seq<Id>, index: map<Id, nat>, rank: seq<real>, nodes: set<Id>,
                    flows: seq<Flow>, from: seq<nat>, i: nat, j: nat)
    requires Indexed(ids, index) && IsActivationMatrix(edges, ids, arcs) && |rank| == |ids|
    requires FromArcs(arcs, ids, rank, nodes, flows, from) && i < j < |flows|
    ensures flows[i].source != flows[j].source || flows[i].target != flows[j].target
  {
    var a, b := arcs[from[i]], arcs[from[j]];
    assert from[i] < from[j];
    assert a.src != b.src || a.tgt != b.tgt;
    assert a.src < |ids| && b.src < |ids| && a.tgt < |ids| && b.tgt < |ids|;
  }

  lemma FlowsAreThose(edges: seq<Edge>, arcs: seq<Arc>, ids: seq<Id>, index: map<Id, nat>, rank: seq<real>, nodes: set<Id>)
    requires Indexed(ids, index) && IsActivationMatrix(edges, ids, arcs) && Covers(edges, index) && |rank| == |ids|
    ensures AreFlows(edges, index, rank, nodes, FlowsOf(arcs, ids, rank, nodes))
  {
    var flows := FlowsOf(arcs, ids, rank, nodes);
    var from := FlowsFromArcs(arcs, ids, rank, nodes);
    forall i | 0 <= i < |flows| ensures CarriesShare(edges, index, rank, flows[i]) && flows[i].source in nodes && flows[i].target in nodes {
      FlowIsShare(edges, arcs, ids, index, rank, from[i], flows[i]);
      hide CarriesShare;
    }
    hide Times, FlowsOf, IsActivationMatrix, OutWeight, Between, Covers, Indexed, FromArcs;
    assert forall i :: 0 <= i < |flows| ==> Between(edges, flows[i].source, flows[i].target) > 0.0;
    hide CarriesShare;
    forall i, j | 0 <= i < j < |flows| ensures flows[i].source != flows[j].source || flows[i].target != flows[j].target {
      FlowsDiffer(edges, arcs, ids, index, rank, nodes, flows, from, i, j);
    }
    forall x, y | x in nodes && y in nodes && Between(edges, x, y) > 0.0 ensures Listed(flows, x, y) {
      FlowListed(edges, arcs, ids, index, rank, nodes, flows, from, x, y);
    }
  }

  /** What the listed flows carry out of one node. */
  ghost function CarriedFrom(flows: seq<Flow>, a: Id): real {
    if |flows| == 0 then 0.0
    else
      var f := flows[|flows| - 1];
      CarriedFrom(flows[..|flows| - 1], a) + if f.source == a then f.amount else 0.0
  }

  lemma {:induction false} CarriedByArcs(arcs: seq<Arc>, ids: seq<Id>, index: map<Id, nat>, rank: seq<real>, nodes: set<Id>, s: nat)
    requires InRange(arcs, |ids|) && |rank| == |ids| && s < |ids| && Indexed(ids, index)
    requires forall i :: 0 <= i < |ids| ==> ids[i] in nodes
    ensures CarriedFrom(FlowsOf(arcs, ids, rank, nodes), ids[s]) == Times(rank[s], OutSums(arcs, |ids|)[s])
  {
    hide Times;
    if |arcs| == 0 {
      Units(rank[s]);
    } else {
      var rest, a := arcs[..|arcs| - 1], arcs[|arcs| - 1];
      CarriedByArcs(rest, ids, index, rank, nodes, s);
      var flows := FlowsOf(arcs, ids, rank, nodes);
      assert flows[..|flows| - 1] == FlowsOf(rest, ids, rank, nodes);
      if a.src == s {
        Distribute(rank[s], OutSums(rest, |ids|)[s], a.w);
        Commute(rank[s], a.w);
      } else {
        assert ids[a.src] != ids[s];
      }
    }
  }

  /** Over all nodes, the flows out of a node that is not dangling sum to its rank; a dangling node passes nothing on. */
  lemma FlowsCarryRank(edges: seq<Edge>, arcs: seq<Arc>, ids: seq<Id>, index: map<Id, nat>, rank: seq<real>, nodes: set<Id>, s: nat)
    requires Indexed(ids, index) && IsActivationMatrix(edges, ids, arcs) && |rank| == |ids| && s < |ids|
    requires forall i :: 0 <= i < |ids| ==> ids[i] in nodes
    ensures CarriedFrom(FlowsOf(arcs, ids, rank, nodes), ids[s]) == if OutWeight(edges, ids[s]) > 0.0 then rank[s] else 0.0
  {
    CarriedByArcs(arcs, ids, index, rank, nodes, s);
    Units(rank[s]);
  }

  /** What spread stores: non-negative ranks of total at most one, within 2*d^n of any fixed point of the equation. */
  lemma SpreadIsAccurate(edges: seq<Edge>, arcs: seq<Arc>, ids: seq<Id>, index: map<Id, nat>, d: real, seeds: seq<nat>, n: nat, r: seq<real>)
    requires Indexed(ids, index) && IsActivationMatrix(edges, ids, arcs) && 0.0 < d < 1.0
    requires |seeds| > 0 && (forall s :: s in seeds ==> s < |ids|) && |r| == |ids|
    ensures
      var e := Seeded(seeds, |ids|);
      var rank := Iterate(arcs, d, e, e, n);
      && SeedVector(rank)
      && (Step(arcs, d, e, r) == r ==> Distance(rank, r) <= 2.0 * Pow(d, n))
      && ((forall s :: 0 <= s < |ids| ==> OutWeight(edges, ids[s]) > 0.0) && Distinct(seeds) ==> Sum(rank) == 1.0)
  {
    hide Times, Share, Step, Iterate, Pow;
    var e := Seeded(seeds, |ids|);
    MatrixIsSubstochastic(edges, ids, arcs);
    SeedMass(seeds, |ids|);
    RankMass(arcs, d, e, n);
    if Step(arcs, d, e, r) == r {
      ErrorBound(arcs, d, e, r, n);
    }
    if (forall s :: 0 <= s < |ids| ==> OutWeight(edges, ids[s]) > 0.0) && Distinct(seeds) {
      RankMassExact(arcs, d, e, n);
    }
  }
}
