/** The two sorts numpy code leans on: the ascending listing of a set, and a stable argsort. */
module Sorting {
  lemma LeastNat(s: set<nat>) returns (least: nat)
    requires s != {}
    ensures least in s && forall x :: x in s ==> least <= x
  {
    var chosen :| chosen in s;
    var rest := s - {chosen};
    least := chosen;
    if rest != {} {
      var other := LeastNat(rest);
      if other < chosen {
        least := other;
      }
    }
    forall x | x in s ensures least <= x {
      assert x == chosen || x in rest;
    }
  }

  ghost predicate Ascending(s: seq<nat>) {
    forall i, j :: 0 <= i < j < |s| ==> s[i] < s[j]
  }

  /** sorted(set) */
  method SortedSet(s: set<nat>) returns (sorted: seq<nat>)
    ensures forall x :: x in sorted <==> x in s
    ensures Ascending(sorted)
  {
    sorted := [];
    var rest := s;
    while rest != {}
      invariant forall x :: x in s <==> x in sorted || x in rest
      invariant Ascending(sorted)
      invariant forall i, x :: 0 <= i < |sorted| && x in rest ==> sorted[i] < x
      decreases rest
    {
      ghost var w := LeastNat(rest);
      var least :| least in rest && forall x :: x in rest ==> least <= x;
      sorted := sorted + [least];
      rest := rest - {least};
    }
  }

  /** Earlier in a stable ascending sort of the indices by key. */
  predicate Precedes(key: seq<real>, i: nat, j: nat)
    requires i < |key| && j < |key|
  {
    key[i] < key[j] || (key[i] == key[j] && i < j)
  }

  /** The indices below n, in stable ascending order of key. */
  ghost predicate IsArgsort(key: seq<real>, n: nat, order: seq<nat>) {
    && n <= |key|
    && (forall i: nat :: i in order <==> i < n)
    && (forall p :: 0 <= p < |order| ==> order[p] < n)
    && (forall p, q :: 0 <= p < q < |order| ==> Precedes(key, order[p], order[q]))
  }

  ghost function Below(n: nat): (s: set<nat>)
    ensures |s| == n && forall i: nat :: i in s <==> i < n
  {
    if n == 0 then {} else Below(n - 1) + {n - 1}
  }

  lemma {:induction false} DistinctLength<T>(a: seq<T>, s: set<T>)
    requires forall i, j :: 0 <= i < j < |a| ==> a[i] != a[j]
    requires forall x :: x in s <==> x in a
    ensures |a| == |s|
  {
    if |a| == 0 {
      assert s == {};
    } else {
      var last := a[|a| - 1];
      DistinctLength(a[..|a| - 1], s - {last});
    }
  }

  lemma ArgsortLength(key: seq<real>, n: nat, order: seq<nat>)
    requires IsArgsort(key, n, order)
    ensures |order| == n
  {
    DistinctLength(order, Below(n));
  }

  lemma InsertKeepsOrder(key: seq<real>, n: nat, order: seq<nat>, p: nat)
    requires IsArgsort(key, n, order) && n < |key| && p <= |order|
    requires forall q :: p <= q < |order| ==> key[n] < key[order[q]]
    requires p > 0 ==> key[order[p - 1]] <= key[n]
    ensures IsArgsort(key, n + 1, order[..p] + [n] + order[p..])
  {
    var longer := order[..p] + [n] + order[p..];
    forall i: nat ensures i in longer <==> i < n + 1 {
      assert order == order[..p] + order[p..];
      assert i in order <==> i in order[..p] || i in order[p..];
    }
    forall q | 0 <= q < p ensures Precedes(key, order[q], n) {
      assert order[q] in order;
      if q < p - 1 {
        assert Precedes(key, order[q], order[p - 1]);
      }
    }
  }

  /** np.argsort(key, kind="stable") */
  method Argsort(key: seq<real>) returns (order: seq<nat>)
    ensures IsArgsort(key, |key|, order)
    ensures |order| == |key|
  {
    order := [];
    for n := 0 to |key|
      invariant IsArgsort(key, n, order)
    {
      var p := |order|;
      while p > 0 && key[n] < key[order[p - 1]]
        invariant 0 <= p <= |order|
        invariant forall q :: p <= q < |order| ==> key[n] < key[order[q]]
      {
        p := p - 1;
      }
      InsertKeepsOrder(key, n, order, p);
      order := order[..p] + [n] + order[p..];
    }
    ArgsortLength(key, |key|, order);
  }

  lemma MultisetInsert<T>(s: seq<T>, p: nat, x: T)
    requires p <= |s|
    ensures multiset(s[..p] + [x] + s[p..]) == multiset(s) + multiset{x}
  {
    assert s == s[..p] + s[p..];
  }

  lemma MultisetPrefix<T>(s: seq<T>, i: nat)
    requires i < |s|
    ensures multiset(s[..i + 1]) == multiset(s[..i]) + multiset{s[i]}
  {
    assert s[..i + 1] == s[..i] + [s[i]];
  }

  ghost predicate Rising(s: seq<nat>) {
    forall i, j :: 0 <= i < j < |s| ==> s[i] <= s[j]
  }

  lemma InsertRises(s: seq<nat>, p: nat, x: nat)
    requires Rising(s) && p <= |s|
    requires forall q :: p <= q < |s| ==> x < s[q]
    requires p > 0 ==> s[p - 1] <= x
    ensures Rising(s[..p] + [x] + s[p..])
  {
    forall q | 0 <= q < p ensures s[q] <= x {
      assert q < p - 1 ==> s[q] <= s[p - 1];
    }
  }

  /** sorted(list): repeats are kept. */
  method SortedList(s: seq<nat>) returns (sorted: seq<nat>)
    ensures multiset(sorted) == multiset(s)
    ensures Rising(sorted)
  {
    sorted := [];
    for i := 0 to |s|
      invariant multiset(sorted) == multiset(s[..i])
      invariant Rising(sorted)
    {
      var p := |sorted|;
      while p > 0 && s[i] < sorted[p - 1]
        invariant 0 <= p <= |sorted|
        invariant forall q :: p <= q < |sorted| ==> s[i] < sorted[q]
      {
        p := p - 1;
      }
      InsertRises(sorted, p, s[i]);
      MultisetInsert(sorted, p, s[i]);
      MultisetPrefix(s, i);
      sorted := sorted[..p] + [s[i]] + sorted[p..];
    }
    assert s[..|s|] == s;
  }
}
