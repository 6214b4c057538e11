/**
 search_fusion.py: reciprocal rank fusion of the channels' rankings, and the
 maximal-marginal-relevance selection that search pages are slices of.
 */
module SearchFusion {
  import opened RealFacts
  import opened Sorting

  /** Candidate ids, by their lexicographic order. */
  type Id = nat

  // --- Reciprocal rank fusion --------------------------------------------------------------

  /** What a ranking's first n places give a document: 1/(k + rank) for each place it has. */
  ghost function Share(ranking: seq<Id>, k: nat, n: nat, doc: Id): real
    requires k > 0 && n <= |ranking|
  {
    if n == 0 then 0.0
    else Share(ranking, k, n - 1, doc) + if ranking[n - 1] == doc then 1.0 / (k + n - 1) as real else 0.0
  }

  ghost function Fused(rankings: seq<seq<Id>>, k: nat, doc: Id): real
    requires k > 0
  {
    if |rankings| == 0 then 0.0
    else
      var last := rankings[|rankings| - 1];
      Fused(rankings[..|rankings| - 1], k, doc) + Share(last, k, |last|, doc)
  }

  ghost predicate Ranked(rankings: seq<seq<Id>>, doc: Id) {
    exists i :: 0 <= i < |rankings| && doc in rankings[i]
  }

  function ScoreOf(scores: map<Id, real>, doc: Id): real {
    if doc in scores then scores[doc] else 0.0
  }

  /** rrf_fuse: exactly the documents ranked somewhere, each with the sum of its shares. */
  method RrfFuse(rankings: seq<seq<Id>>, k: nat) returns (scores: map<Id, real>)
    requires k > 0
    ensures forall doc :: doc in scores <==> Ranked(rankings, doc)
    ensures forall doc :: doc in scores ==> scores[doc] == Fused(rankings, k, doc) > 0.0
  {
    scores := map[];
    for i := 0 to |rankings|
      invariant forall doc :: doc in scores <==> Ranked(rankings[..i], doc)
      invariant forall doc {:trigger ScoreOf(scores, doc)} :: ScoreOf(scores, doc) == Fused(rankings[..i], k, doc)
    {
      var ranking := rankings[i];
      assert rankings[..i + 1][..i] == rankings[..i];
      ghost var before := scores;
      for rank := 0 to |ranking|
        invariant forall doc :: doc in scores <==> doc in before || doc in ranking[..rank]
        invariant forall doc {:trigger ScoreOf(scores, doc)} ::
          ScoreOf(scores, doc) == Fused(rankings[..i], k, doc) + Share(ranking, k, rank, doc)
      {
        var doc := ranking[rank];
        assert ranking[..rank + 1] == ranking[..rank] + [doc];
        ghost var was := scores;
        var share := 1.0 / (k + rank) as real;
        scores := scores[doc := ScoreOf(scores, doc) + share];
        forall d ensures ScoreOf(scores, d) == Fused(rankings[..i], k, d) + Share(ranking, k, rank + 1, d) {
          assert ScoreOf(was, d) == Fused(rankings[..i], k, d) + Share(ranking, k, rank, d);
          assert Share(ranking, k, rank + 1, d) == Share(ranking, k, rank, d) + if doc == d then share else 0.0;
        }
      }
      assert ranking[..|ranking|] == ranking;
      forall doc ensures Ranked(rankings[..i + 1], doc) <==> Ranked(rankings[..i], doc) || doc in ranking {
        RankedGrows(rankings, i, doc);
      }
    }
    assert rankings[..|rankings|] == rankings;
    forall doc | doc in scores ensures scores[doc] == Fused(rankings, k, doc) > 0.0 {
      FusedPositive(rankings, k, doc);
      assert ScoreOf(scores, doc) == scores[doc];
    }
  }

  lemma RankedGrows(rankings: seq<seq<Id>>, i: nat, doc: Id)
    requires i < |rankings|
    ensures Ranked(rankings[..i + 1], doc) <==> Ranked(rankings[..i], doc) || doc in rankings[i]
  {
    var more, less := rankings[..i + 1], rankings[..i];
    if Ranked(less, doc) {
      var j :| 0 <= j < |less| && doc in less[j];
      assert more[j] == less[j];
    }
    if doc in rankings[i] {
      assert more[i] == rankings[i];
    }
    if Ranked(more, doc) {
      var j :| 0 <= j < |more| && doc in more[j];
      assert j < i ==> less[j] == more[j];
    }
  }

  lemma {:induction false} ShareSign(ranking: seq<Id>, k: nat, n: nat, doc: Id)
    requires k > 0 && n <= |ranking|
    ensures Share(ranking, k, n, doc) >= 0.0
    ensures doc in ranking[..n] ==> Share(ranking, k, n, doc) > 0.0
  {
    if n > 0 {
      ShareSign(ranking, k, n - 1, doc);
      assert ranking[..n] == ranking[..n - 1] + [ranking[n - 1]];
    }
  }

  lemma {:induction false} FusedPositive(rankings: seq<seq<Id>>, k: nat, doc: Id)
    requires k > 0
    ensures Fused(rankings, k, doc) >= 0.0
    ensures Ranked(rankings, doc) ==> Fused(rankings, k, doc) > 0.0
  {
    if |rankings| > 0 {
      var n := |rankings| - 1;
      FusedPositive(rankings[..n], k, doc);
      ShareSign(rankings[n], k, |rankings[n]|, doc);
      assert rankings[n][..|rankings[n]|] == rankings[n];
      RankedGrows(rankings, n, doc);
      assert rankings[..n + 1] == rankings;
    }
  }

  /** A ranking gives a document 1/(k + its place) where it lists it once, and nothing where it does not list it. */
  lemma {:induction false} ShareOfPlace(ranking: seq<Id>, k: nat, n: nat, doc: Id, place: nat)
    requires k > 0 && n <= |ranking|
    requires forall i :: 0 <= i < n ==> (ranking[i] == doc <==> i == place)
    ensures Share(ranking, k, n, doc) == if place < n then 1.0 / (k + place) as real else 0.0
  {
    if n > 0 {
      ShareOfPlace(ranking, k, n - 1, doc, place);
    }
  }

  // --- Maximal marginal relevance ------------------------------------------------------------

  /** The candidates' relevances and the largest of them, the similarity of their vectors (0 without one), and the balance. */
  datatype Mmr = Mmr(relevance: map<Id, real>, top: real, sim: (Id, Id) -> real, balance: real)

  /** The largest similarity to anything selected; 0 while nothing is. */
  function Penalty(m: Mmr, c: Id, selected: seq<Id>): real {
    if |selected| == 0 then 0.0
    else
      var last := |selected| - 1;
      var s := m.sim(c, selected[last]);
      if last == 0 || s > Penalty(m, c, selected[..last]) then s else Penalty(m, c, selected[..last])
  }

  function Value(m: Mmr, selected: seq<Id>, c: Id): real
    requires c in m.relevance && m.top > 0.0
  {
    Times(m.balance, m.relevance[c] / m.top) - Times(1.0 - m.balance, Penalty(m, c, selected))
  }

  /** c is better than d: by value, then by id. */
  predicate Better(m: Mmr, selected: seq<Id>, c: Id, d: Id)
    requires c in m.relevance && d in m.relevance && m.top > 0.0
  {
    Value(m, selected, c) > Value(m, selected, d) || (Value(m, selected, c) == Value(m, selected, d) && c < d)
  }

  /** c is the best of what is not selected. */
  ghost predicate IsNext(m: Mmr, selected: seq<Id>, c: Id)
    requires m.top > 0.0
  {
    && c in m.relevance && c !in selected
    && forall d :: d in m.relevance && d !in selected && d != c ==> Better(m, selected, c, d)
  }

  ghost predicate ChosenAt(m: Mmr, order: seq<Id>, i: nat)
    requires m.top > 0.0 && i < |order|
  {
    IsNext(m, order[..i], order[i])
  }

  /** Each id was the best of what was left. */
  ghost predicate IsGreedy(m: Mmr, order: seq<Id>)
    requires m.top > 0.0
  {
    forall i: nat :: i < |order| ==> ChosenAt(m, order, i)
  }

  ghost predicate IsTop(relevance: map<Id, real>, top: real) {
    (exists id :: id in relevance && relevance[id] == top) && forall id :: id in relevance ==> relevance[id] <= top
  }

  method MaxRelevance(relevance: map<Id, real>, ids: seq<Id>) returns (top: real)
    requires |ids| > 0 && forall id :: id in ids <==> id in relevance
    ensures IsTop(relevance, top)
  {
    top := relevance[ids[0]];
    for i := 1 to |ids|
      invariant exists id :: id in relevance && relevance[id] == top
      invariant forall j :: 0 <= j < i ==> relevance[ids[j]] <= top
    {
      if relevance[ids[i]] > top {
        top := relevance[ids[i]];
      }
    }
  }

  method BestOf(m: Mmr, selected: seq<Id>, remaining: seq<Id>) returns (at: nat)
    requires |remaining| > 0 && m.top > 0.0 && Ascending(remaining)
    requires forall d :: d in remaining <==> d in m.relevance && d !in selected
    ensures at < |remaining| && IsNext(m, selected, remaining[at])
  {
    hide Value;
    at := 0;
    var value := Value(m, selected, remaining[0]);
    for p := 1 to |remaining|
      invariant at < p && value == Value(m, selected, remaining[at])
      invariant forall q :: 0 <= q < p && q != at ==> Better(m, selected, remaining[at], remaining[q])
    {
      var v := Value(m, selected, remaining[p]);
      if v > value {
        at, value := p, v;
      }
    }
  }

  method MmrRerank(relevance: map<Id, real>, sim: (Id, Id) -> real, topK: int, balance: real) returns (order: seq<Id>, ghost m: Mmr)
    ensures topK <= 0 || (forall id :: id in relevance ==> relevance[id] <= 0.0) ==> order == []
    ensures topK > 0 && (exists id :: id in relevance && relevance[id] > 0.0) ==>
      && m == Mmr(relevance, m.top, sim, balance) && IsTop(relevance, m.top) && m.top > 0.0
      && IsGreedy(m, order) && |order| == if topK < |relevance| then topK else |relevance|
  {
    hide Value, Better;
    order, m := [], Mmr(relevance, 0.0, sim, balance);
    if topK <= 0 || relevance == map[] {
      return;
    }
    var ids := SortedSet(relevance.Keys);
    DistinctLength(ids, relevance.Keys);
    assert |ids| > 0 by {
      var id :| id in relevance;
      assert id in ids;
    }
    var top := MaxRelevance(relevance, ids);
    if top <= 0.0 {
      return;
    }
    var mmr := Mmr(relevance, top, sim, balance);
    m := mmr;
    var remaining := ids;
    while |order| < topK && remaining != []
      invariant |order| <= topK && |order| + |remaining| == |relevance| && Ascending(remaining)
      invariant forall d :: d in remaining <==> d in relevance && d !in order
      invariant IsGreedy(m, order)
      decreases |remaining|
    {
      var at := BestOf(mmr, order, remaining);
      RemoveAt(remaining, at);
      GreedyGrows(m, order, remaining[at]);
      order := order + [remaining[at]];
      remaining := remaining[..at] + remaining[at + 1..];
    }
  }

  lemma RemoveAt(s: seq<Id>, at: nat)
    requires at < |s| && Ascending(s)
    ensures
      var rest := s[..at] + s[at + 1..];
      Ascending(rest) && |rest| == |s| - 1 && forall d :: d in rest <==> d in s && d != s[at]
  {
    var rest := s[..at] + s[at + 1..];
    forall d ensures d in rest <==> d in s && d != s[at] {
      if d in s && d != s[at] {
        var j :| 0 <= j < |s| && s[j] == d;
        assert d == if j < at then rest[j] else rest[j - 1];
      }
    }
  }

  lemma GreedyGrows(m: Mmr, order: seq<Id>, c: Id)
    requires m.top > 0.0 && IsGreedy(m, order) && IsNext(m, order, c)
    ensures IsGreedy(m, order + [c])
  {
    hide IsNext;
    var more := order + [c];
    assert order[..|order|] == order;
    forall i: nat | i < |more| ensures ChosenAt(m, more, i) {
      assert i < |order| ==> ChosenAt(m, order, i);
      assert more[..i] == order[..i];
    }
  }

  // --- What the selection guarantees -----------------------------------------------------------

  /** No id is selected twice, and all are candidates. */
  lemma GreedyDistinct(m: Mmr, order: seq<Id>, i: nat, j: nat)
    requires m.top > 0.0 && IsGreedy(m, order) && i < j < |order|
    ensures order[i] != order[j] && order[i] in m.relevance
  {
    assert ChosenAt(m, order, i) && ChosenAt(m, order, j);
    assert order[..j][i] == order[i];
  }

  lemma GreedyTake(m: Mmr, order: seq<Id>, n: nat)
    requires m.top > 0.0 && IsGreedy(m, order) && n <= |order|
    ensures IsGreedy(m, order[..n])
  {
    hide IsNext;
    forall i: nat | i < n ensures ChosenAt(m, order[..n], i) {
      assert ChosenAt(m, order, i);
      assert order[..n][..i] == order[..i];
    }
  }

  lemma BetterOneWay(m: Mmr, selected: seq<Id>, c: Id, d: Id)
    requires c in m.relevance && d in m.relevance && m.top > 0.0
    ensures !(Better(m, selected, c, d) && Better(m, selected, d, c))
  {
    hide Value;
  }

  lemma OneNext(m: Mmr, selected: seq<Id>, c: Id, d: Id)
    requires m.top > 0.0 && IsNext(m, selected, c) && IsNext(m, selected, d)
    ensures c == d
  {
    hide Better;
    BetterOneWay(m, selected, c, d);
  }

  /** The selection for fewer is the beginning of the selection for more. */
  lemma {:induction false} GreedyPrefix(m: Mmr, short: seq<Id>, long: seq<Id>)
    requires m.top > 0.0 && IsGreedy(m, short) && IsGreedy(m, long) && |short| <= |long|
    ensures short == long[..|short|]
  {
    hide IsNext;
    if |short| > 0 {
      var n := |short| - 1;
      GreedyTake(m, short, n);
      GreedyPrefix(m, short[..n], long);
      assert ChosenAt(m, short, n) && ChosenAt(m, long, n);
      OneNext(m, short[..n], short[n], long[n]);
      assert long[..n + 1] == long[..n] + [long[n]];
    }
  }

  /** A search page is what MMR selects for offset + limit, from offset on. Over one candidate set a page is a slice of the one full order, so that
   pages that do not overlap in position share no id. */
  lemma PagesDisjoint(m: Mmr, full: seq<Id>, first: seq<Id>, second: seq<Id>, o: nat, p: nat, i: nat, j: nat)
    requires m.top > 0.0 && IsGreedy(m, full) && IsGreedy(m, first) && IsGreedy(m, second)
    requires |first| <= |full| && |second| <= |full| && o <= i < |first| <= p <= j < |second|
    ensures first[o..] == full[o..|first|] && second[p..] == full[p..|second|]
    ensures first[i] != second[j]
  {
    GreedyPrefix(m, first, full);
    GreedyPrefix(m, second, full);
    GreedyDistinct(m, full, i, j);
  }

  /** With balance 1 (mmr_lambda) the selection is sorting: by relevance, highest first, then by id. */
  lemma PureRelevanceSorts(m: Mmr, order: seq<Id>, i: nat, j: nat)
    requires m.top > 0.0 && m.balance == 1.0 && IsGreedy(m, order) && i < j < |order|
    ensures order[i] in m.relevance && order[j] in m.relevance
    ensures m.relevance[order[i]] > m.relevance[order[j]] ||
      (m.relevance[order[i]] == m.relevance[order[j]] && order[i] < order[j])
  {
    GreedyDistinct(m, order, i, j);
    assert ChosenAt(m, order, i) && ChosenAt(m, order, j);
    assert order[j] !in order[..i] by {
      assert forall h :: 0 <= h < i ==> order[..j][h] == order[h];
      assert forall h :: 0 <= h < i ==> order[..i][h] == order[h];
    }
    assert Better(m, order[..i], order[i], order[j]);
    PureValue(m, order[..i], order[i]);
    PureValue(m, order[..i], order[j]);
    hide Value;
    QuotientOrder(m.relevance[order[i]], m.relevance[order[j]], m.top);
  }

  /** p is the largest similarity of c to anything selected, or 0 where nothing is. */
  ghost predicate IsPenalty(m: Mmr, c: Id, selected: seq<Id>, p: real) {
    && (selected == [] ==> p == 0.0)
    && (selected != [] ==> exists i :: 0 <= i < |selected| && m.sim(c, selected[i]) == p)
    && forall i :: 0 <= i < |selected| ==> m.sim(c, selected[i]) <= p
  }

  lemma {:induction false} PenaltyIsLargest(m: Mmr, c: Id, selected: seq<Id>)
    ensures IsPenalty(m, c, selected, Penalty(m, c, selected))
  {
    if |selected| > 0 {
      var last := |selected| - 1;
      var rest := selected[..last];
      PenaltyIsLargest(m, c, rest);
      assert forall i :: 0 <= i < last ==> rest[i] == selected[i];
      assert m.sim(c, selected[last]) <= Penalty(m, c, selected);
      if last > 0 && !(m.sim(c, selected[last]) > Penalty(m, c, rest)) {
        var i :| 0 <= i < |rest| && m.sim(c, rest[i]) == Penalty(m, c, rest);
        assert m.sim(c, selected[i]) == Penalty(m, c, selected);
      }
    }
  }

  lemma OnePenalty(m: Mmr, c: Id, selected: seq<Id>, p: real, q: real)
    requires IsPenalty(m, c, selected, p) && IsPenalty(m, c, selected, q)
    ensures p == q
  {
  }

  /** The balance of relevance, as a share of the largest, against the similarity p to what is chosen. */
  function Trade(m: Mmr, c: Id, p: real): real
    requires c in m.relevance && m.top > 0.0
  {
    m.balance * (m.relevance[c] / m.top) - (1.0 - m.balance) * p
  }

  /**
   What the i-th id has over every candidate d it was preferred to: p and q being
   the two's largest similarities to the ids chosen before, its balance of
   relevance against similarity is higher, or equal and its id comes first.
   */
  lemma ChosenTradesBest(m: Mmr, order: seq<Id>, i: nat, d: Id, p: real, q: real)
    requires m.top > 0.0 && IsGreedy(m, order) && i < |order|
    requires d in m.relevance && d !in order[..i] && d != order[i]
    requires IsPenalty(m, order[i], order[..i], p) && IsPenalty(m, d, order[..i], q)
    ensures order[i] in m.relevance
    ensures
      var mine, other := Trade(m, order[i], p), Trade(m, d, q);
      mine > other || (mine == other && order[i] < d)
  {
    hide Trade, Value, IsPenalty;
    assert ChosenAt(m, order, i);
    TradeIsValue(m, order[..i], order[i], p);
    TradeIsValue(m, order[..i], d, q);
  }

  lemma TradeIsValue(m: Mmr, selected: seq<Id>, c: Id, p: real)
    requires c in m.relevance && m.top > 0.0 && IsPenalty(m, c, selected, p)
    ensures Trade(m, c, p) == Value(m, selected, c)
  {
    PenaltyIsLargest(m, c, selected);
    OnePenalty(m, c, selected, p, Penalty(m, c, selected));
    hide Penalty, IsPenalty;
  }

  lemma PureValue(m: Mmr, selected: seq<Id>, c: Id)
    requires c in m.relevance && m.top > 0.0 && m.balance == 1.0
    ensures Value(m, selected, c) == m.relevance[c] / m.top
  {
    Units(m.relevance[c] / m.top);
    Units(Penalty(m, c, selected));
    hide Times;
  }

  lemma QuotientOrder(a: real, b: real, d: real)
    requires d > 0.0
    ensures a / d > b / d <==> a > b
    ensures a / d == b / d <==> a == b
  {
    assert a / d - b / d == (a - b) / d;
    assert (a - b) / d * d == a - b;
  }
}
