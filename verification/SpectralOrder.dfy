/**
 spectral_order of galactic_layout.py: the vertices that have links, component by
 component, larger components first. Inside a component the order comes from an
 eigenvector, and is here any arrangement of the members.
 */
module SpectralOrder {
  import opened RealSeqs
  import opened Sorting
  import GalacticArms
  import opened GalacticGroups

  /** A square matrix of non-negative weights, symmetric, with nothing on the diagonal. */
  ghost predicate Weights(adj: seq<seq<real>>) {
    && GalacticArms.Matrix(adj)
    && (forall r, c :: 0 <= r < |adj| && 0 <= c < |adj| ==> adj[r][c] == adj[c][r])
    && (forall r :: 0 <= r < |adj| ==> adj[r][r] == 0.0)
  }

  predicate Linked(adj: seq<seq<real>>, a: nat, b: nat) {
    a < |adj| && b < |adj[a]| && adj[a][b] > 0.0
  }

  ghost predicate HasLink(adj: seq<seq<real>>, v: nat) {
    v < |adj| && exists u: nat :: Linked(adj, v, u)
  }

  // --- Connectivity along links ----------------------------------------------------------

  ghost function RowPairs(adj: seq<seq<real>>, r: nat, c: nat): (pairs: seq<(nat, nat)>)
    requires r < |adj| && c <= |adj[r]|
    ensures forall a: nat, b: nat :: (a, b) in pairs <==> a == r && b < c && Linked(adj, a, b)
  {
    if c == 0 then [] else RowPairs(adj, r, c - 1) + if Linked(adj, r, c - 1) then [(r, c - 1)] else []
  }

  ghost function Pairs(adj: seq<seq<real>>, n: nat): (pairs: seq<(nat, nat)>)
    requires n <= |adj|
    ensures forall a: nat, b: nat :: (a, b) in pairs <==> a < n && Linked(adj, a, b)
  {
    if n == 0 then [] else Pairs(adj, n - 1) + RowPairs(adj, n - 1, |adj[n - 1]|)
  }

  /** A path of links joins a and b. */
  ghost predicate Reaches(adj: seq<seq<real>>, a: nat, b: nat) {
    Connected(Below(|adj|), Pairs(adj, |adj|), a, b)
  }

  lemma JoinedIff(adj: seq<seq<real>>, a: nat, b: nat)
    requires Weights(adj)
    ensures Joined(Below(|adj|), Pairs(adj, |adj|), a, b) <==> Linked(adj, a, b)
  {
  }

  lemma ReachesSelf(adj: seq<seq<real>>, a: nat)
    requires a < |adj|
    ensures Reaches(adj, a, a)
  {
    ConnectedSelf(Below(|adj|), Pairs(adj, |adj|), a);
  }

  lemma ReachesOn(adj: seq<seq<real>>, a: nat, b: nat, c: nat)
    requires Weights(adj) && Reaches(adj, a, b) && Linked(adj, b, c)
    ensures Reaches(adj, a, c)
  {
    JoinedIff(adj, b, c);
    ConnectedEdge(Below(|adj|), Pairs(adj, |adj|), b, c);
    ConnectedThrough(Below(|adj|), Pairs(adj, |adj|), a, b, c);
  }

  /** A set that no link leaves holds whatever its members reach. */
  ghost predicate Closed(adj: seq<seq<real>>, s: set<nat>) {
    forall a: nat, b: nat :: a in s && Linked(adj, a, b) ==> b in s
  }

  lemma {:induction false} PathStays(adj: seq<seq<real>>, s: set<nat>, p: seq<nat>)
    requires Weights(adj) && Closed(adj, s) && IsPath(Below(|adj|), Pairs(adj, |adj|), p) && p[0] in s
    ensures p[|p| - 1] in s
  {
    if |p| > 1 {
      var front := p[..|p| - 1];
      assert forall k :: 0 <= k < |front| - 1 ==> Joined(Below(|adj|), Pairs(adj, |adj|), front[k], front[k + 1]) by {
        forall k | 0 <= k < |front| - 1 ensures Joined(Below(|adj|), Pairs(adj, |adj|), front[k], front[k + 1]) {
          assert Joined(Below(|adj|), Pairs(adj, |adj|), p[k], p[k + 1]);
        }
      }
      PathStays(adj, s, front);
      assert Joined(Below(|adj|), Pairs(adj, |adj|), p[|p| - 2], p[|p| - 1]);
      JoinedIff(adj, p[|p| - 2], p[|p| - 1]);
    }
  }

  lemma ReachStays(adj: seq<seq<real>>, s: set<nat>, a: nat, b: nat)
    requires Weights(adj) && Closed(adj, s) && a in s && Reaches(adj, a, b)
    ensures b in s
  {
    var p :| IsPath(Below(|adj|), Pairs(adj, |adj|), p) && p[0] == a && p[|p| - 1] == b;
    PathStays(adj, s, p);
  }

  // --- One component -----------------------------------------------------------------------

  ghost function Marked(visited: seq<bool>): (s: set<nat>)
    ensures forall v: nat :: v in s <==> v < |visited| && visited[v]
  {
    set v: nat | v < |visited| && visited[v]
  }

  ghost predicate DistinctList(s: seq<nat>) {
    forall i, j :: 0 <= i < j < |s| ==> s[i] != s[j]
  }

  lemma DistinctBelowLength(s: seq<nat>, n: nat)
    requires DistinctList(s) && forall v :: v in s ==> v < n
    ensures |s| <= n
  {
    var held := set v | v in s;
    DistinctLength(s, held);
    assert held <= Below(n);
    SubsetSize(held, Below(n));
  }

  lemma {:induction false} SubsetSize(a: set<nat>, b: set<nat>)
    requires a <= b
    ensures |a| <= |b|
  {
    if a != {} {
      var x :| x in a;
      SubsetSize(a - {x}, b - {x});
    }
  }

  /** The walk so far: what it has met is marked and reached, and whatever is off the stack has only marked neighbours. */
  ghost predicate Walking(adj: seq<seq<real>>, was: set<nat>, marked: set<nat>, start: nat, members: seq<nat>, stack: seq<nat>) {
    && DistinctList(members) && start in members
    && (forall v :: v in members ==> v < |adj| && v !in was && Reaches(adj, start, v))
    && (forall v :: v in marked <==> v in was || v in members)
    && (forall v :: v in stack ==> v in members)
    && (forall a: nat, b: nat :: a in members && a !in stack && Linked(adj, a, b) ==> b in marked)
  }

  lemma WalkStarts(adj: seq<seq<real>>, was: set<nat>, start: nat)
    requires start < |adj| && start !in was
    ensures Walking(adj, was, was + {start}, start, [start], [start])
  {
    ReachesSelf(adj, start);
  }

  /** Half way through the neighbours of a vertex just popped. */
  ghost predicate Expanding(adj: seq<seq<real>>, was: set<nat>, marked: set<nat>, start: nat, members: seq<nat>, stack: seq<nat>,
    vertex: nat, n: nat)
  {
    && DistinctList(members) && start in members && vertex in members
    && (forall v :: v in members ==> v < |adj| && v !in was && Reaches(adj, start, v))
    && (forall v :: v in marked <==> v in was || v in members)
    && (forall v :: v in stack ==> v in members)
    && (forall a: nat, b: nat :: a in members && a !in stack && a != vertex && Linked(adj, a, b) ==> b in marked)
    && (forall b: nat :: b < n && Linked(adj, vertex, b) ==> b in marked)
  }

  lemma WalkPops(adj: seq<seq<real>>, was: set<nat>, marked: set<nat>, start: nat, members: seq<nat>, stack: seq<nat>)
    requires |stack| > 0 && Walking(adj, was, marked, start, members, stack)
    ensures Expanding(adj, was, marked, start, members, stack[..|stack| - 1], stack[|stack| - 1], 0)
  {
    assert stack == stack[..|stack| - 1] + [stack[|stack| - 1]];
  }

  lemma WalkMeets(adj: seq<seq<real>>, was: set<nat>, marked: set<nat>, start: nat, members: seq<nat>, stack: seq<nat>, vertex: nat, b: nat)
    requires Weights(adj) && Closed(adj, was) && Expanding(adj, was, marked, start, members, stack, vertex, b)
    ensures !(Linked(adj, vertex, b) && b !in marked) ==> Expanding(adj, was, marked, start, members, stack, vertex, b + 1)
    ensures Linked(adj, vertex, b) && b !in marked ==>
      Expanding(adj, was, marked + {b}, start, members + [b], stack + [b], vertex, b + 1)
  {
    if Linked(adj, vertex, b) && b !in marked {
      ReachesOn(adj, start, vertex, b);
      hide Reaches, Linked;
    }
  }

  lemma WalkExpanded(adj: seq<seq<real>>, was: set<nat>, marked: set<nat>, start: nat, members: seq<nat>, stack: seq<nat>, vertex: nat)
    requires Weights(adj) && Expanding(adj, was, marked, start, members, stack, vertex, |adj|)
    ensures Walking(adj, was, marked, start, members, stack)
  {
    hide Reaches;
  }

  /** A component, and nothing but: exactly what its first vertex reaches. */
  ghost predicate IsWhole(adj: seq<seq<real>>, start: nat, members: seq<nat>) {
    forall v: nat :: v in members <==> Reaches(adj, start, v)
  }

  lemma WalkEnds(adj: seq<seq<real>>, was: set<nat>, marked: set<nat>, start: nat, members: seq<nat>)
    requires Weights(adj) && Closed(adj, was) && Walking(adj, was, marked, start, members, [])
    ensures IsWhole(adj, start, members) && Closed(adj, marked)
  {
    var own := set v | v in members;
    forall a: nat, b: nat | a in own && Linked(adj, a, b) ensures b in own {
      assert b in marked;
      assert Linked(adj, b, a);
      assert b !in was;
    }
    hide Linked;
    forall v: nat | Reaches(adj, start, v) ensures v in members {
      ReachStays(adj, own, start, v);
    }
  }

  method Component(adj: seq<seq<real>>, start: nat, visited: array<bool>) returns (members: seq<nat>)
    requires Weights(adj) && visited.Length == |adj| && start < |adj| && !visited[start]
    requires Closed(adj, Marked(visited[..]))
    modifies visited
    ensures IsWhole(adj, start, members) && DistinctList(members)
    ensures forall v: nat :: v < |adj| ==> visited[v] == (old(visited[v]) || v in members)
    ensures Closed(adj, Marked(visited[..]))
    ensures forall v :: v in members ==> v < |adj| && !old(visited[v])
  {
    hide Walking, Expanding, Closed, IsWhole;
    ghost var was := Marked(visited[..]);
    visited[start] := true;
    var stack: seq<nat> := [start];
    members := [start];
    WalkStarts(adj, was, start);
    assert Marked(visited[..]) == was + {start};
    while stack != []
      invariant Walking(adj, was, Marked(visited[..]), start, members, stack) && |members| <= |adj|
      decreases |adj| - |members|, |stack|
    {
      ghost var before := |members|;
      WalkPops(adj, was, Marked(visited[..]), start, members, stack);
      var vertex := stack[|stack| - 1];
      stack := stack[..|stack| - 1];
      ghost var height := |stack|;
      for b := 0 to |adj|
        invariant Expanding(adj, was, Marked(visited[..]), start, members, stack, vertex, b)
        invariant |members| >= before && |stack| - height == |members| - before
      {
        WalkMeets(adj, was, Marked(visited[..]), start, members, stack, vertex, b);
        if Linked(adj, vertex, b) && !visited[b] {
          ghost var marked := Marked(visited[..]);
          visited[b] := true;
          stack := stack + [b];
          members := members + [b];
          assert Marked(visited[..]) == marked + {b};
        }
      }
      WalkExpanded(adj, was, Marked(visited[..]), start, members, stack, vertex);
      MembersFit(adj, was, Marked(visited[..]), start, members, stack);
    }
    WalkEnds(adj, was, Marked(visited[..]), start, members);
    MembersFit(adj, was, Marked(visited[..]), start, members, stack);
  }

  lemma MembersFit(adj: seq<seq<real>>, was: set<nat>, marked: set<nat>, start: nat, members: seq<nat>, stack: seq<nat>)
    requires Walking(adj, was, marked, start, members, stack)
    ensures |members| <= |adj| && DistinctList(members)
    ensures forall v :: v in members ==> v < |adj| && v !in was
    ensures forall v :: v in marked <==> v in was || v in members
  {
    hide Reaches;
    DistinctBelowLength(members, |adj|);
  }

  // --- All components -------------------------------------------------------------------------

  /** A maximal connected set of vertices, listed ascending. */
  ghost predicate IsComponent(adj: seq<seq<real>>, c: seq<nat>) {
    && |c| > 0 && Ascending(c)
    && forall u: nat, v: nat :: u in c ==> (v in c <==> Reaches(adj, u, v))
  }

  lemma WholeIsComponent(adj: seq<seq<real>>, start: nat, members: seq<nat>, sorted: seq<nat>)
    requires start < |adj| && IsWhole(adj, start, members) && Ascending(sorted) && forall v :: v in sorted <==> v in members
    ensures IsComponent(adj, sorted)
  {
    ReachesSelf(adj, start);
    assert start in sorted;
    forall u: nat, v: nat | u in sorted ensures v in sorted <==> Reaches(adj, u, v) {
      assert Reaches(adj, start, u);
      ConnectedBack(Below(|adj|), Pairs(adj, |adj|), start, u);
      if v in sorted {
        ConnectedThrough(Below(|adj|), Pairs(adj, |adj|), u, start, v);
      }
      if Reaches(adj, u, v) {
        ConnectedThrough(Below(|adj|), Pairs(adj, |adj|), start, u, v);
      }
    }
  }

  /** Whatever a vertex reaches, other than itself, has a link. */
  lemma ReachedHasLink(adj: seq<seq<real>>, a: nat, b: nat)
    requires Weights(adj) && Reaches(adj, a, b) && HasLink(adj, a)
    ensures HasLink(adj, b)
  {
    var p :| IsPath(Below(|adj|), Pairs(adj, |adj|), p) && p[0] == a && p[|p| - 1] == b;
    if |p| > 1 {
      assert Joined(Below(|adj|), Pairs(adj, |adj|), p[|p| - 2], p[|p| - 1]);
      JoinedIff(adj, p[|p| - 2], b);
      assert Linked(adj, b, p[|p| - 2]);
    }
  }

  lemma {:induction false} SumPositiveIff(s: seq<real>)
    requires forall i :: 0 <= i < |s| ==> s[i] >= 0.0
    ensures Sum(s) >= 0.0
    ensures Sum(s) > 0.0 <==> exists i :: 0 <= i < |s| && s[i] > 0.0
  {
    if |s| > 0 {
      var front := s[..|s| - 1];
      SumPositiveIff(front);
      if Sum(front) > 0.0 {
        var i :| 0 <= i < |front| && front[i] > 0.0;
        assert s[i] > 0.0;
      }
      if i :| 0 <= i < |s| && s[i] > 0.0 {
        assert i < |front| ==> front[i] == s[i];
      }
    }
  }

  /** degree > 0 */
  lemma DegreeIff(adj: seq<seq<real>>, v: nat)
    requires Weights(adj) && v < |adj|
    ensures Sum(adj[v]) > 0.0 <==> HasLink(adj, v)
  {
    SumPositiveIff(adj[v]);
    if Sum(adj[v]) > 0.0 {
      var u :| 0 <= u < |adj[v]| && adj[v][u] > 0.0;
      assert Linked(adj, v, u);
    }
  }

  ghost predicate InSome(comps: seq<seq<nat>>, v: nat) {
    exists k :: 0 <= k < |comps| && v in comps[k]
  }

  ghost predicate Apart(comps: seq<seq<nat>>) {
    forall i, j, v :: 0 <= i < j < |comps| && v in comps[i] ==> v !in comps[j]
  }

  /** The components of the linked vertices, each once. */
  ghost predicate AreComponents(adj: seq<seq<real>>, comps: seq<seq<nat>>) {
    && (forall k :: 0 <= k < |comps| ==> IsComponent(adj, comps[k]))
    && Apart(comps)
    && (forall v: nat :: InSome(comps, v) <==> HasLink(adj, v))
  }

  lemma OneMore(adj: seq<seq<real>>, comps: seq<seq<nat>>, c: seq<nat>)
    requires Apart(comps) && forall v :: v in c ==> !InSome(comps, v)
    ensures Apart(comps + [c])
    ensures forall v: nat :: InSome(comps + [c], v) <==> InSome(comps, v) || v in c
  {
    var more := comps + [c];
    forall v: nat ensures InSome(more, v) <==> InSome(comps, v) || v in c {
      if InSome(comps, v) {
        var k :| 0 <= k < |comps| && v in comps[k];
        assert v in more[k];
      }
      if v in c {
        assert v in more[|comps|];
      }
    }
    forall i, j, v | 0 <= i < j < |more| && v in more[i] ensures v !in more[j] {
      assert v in comps[i];
      assert InSome(comps, v);
    }
  }

  method Components(adj: seq<seq<real>>) returns (comps: seq<seq<nat>>)
    requires Weights(adj)
    ensures AreComponents(adj, comps)
  {
    hide IsComponent, IsWhole, Apart, InSome, HasLink, Weights, Reaches;
    var n := |adj|;
    var visited := new bool[n](_ => false);
    comps := [];
    NoComponents(adj, visited[..]);
    for start := 0 to n
      invariant forall k :: 0 <= k < |comps| ==> IsComponent(adj, comps[k])
      invariant Apart(comps) && Closed(adj, Marked(visited[..]))
      invariant forall v: nat :: InSome(comps, v) <==> v < n && visited[v]
      invariant forall v: nat :: v < n && visited[v] ==> HasLink(adj, v)
      invariant forall v: nat :: v < start && HasLink(adj, v) ==> visited[v]
    {
      DegreeIff(adj, start);
      if Sum(adj[start]) > 0.0 && !visited[start] {
        var members := Component(adj, start, visited);
        var sorted := SortedSet(set v | v in members);
        WholeIsComponent(adj, start, members, sorted);
        forall v | v in members ensures HasLink(adj, v) {
          MemberHasLink(adj, start, members, v);
        }
        OneMore(adj, comps, sorted);
        StartInWhole(adj, start, members);
        comps := comps + [sorted];
      }
    }
    forall v: nat | HasLink(adj, v) ensures v < n {
      LinkBelow(adj, v);
    }
  }

  lemma StartInWhole(adj: seq<seq<real>>, start: nat, members: seq<nat>)
    requires start < |adj| && IsWhole(adj, start, members)
    ensures start in members
  {
    ReachesSelf(adj, start);
  }

  lemma LinkBelow(adj: seq<seq<real>>, v: nat)
    requires HasLink(adj, v)
    ensures v < |adj|
  {
  }

  lemma NoComponents(adj: seq<seq<real>>, visited: seq<bool>)
    requires forall v :: 0 <= v < |visited| ==> !visited[v]
    ensures Apart([]) && Closed(adj, Marked(visited)) && forall v: nat :: !InSome([], v)
  {
  }

  lemma MemberHasLink(adj: seq<seq<real>>, start: nat, members: seq<nat>, v: nat)
    requires Weights(adj) && IsWhole(adj, start, members) && HasLink(adj, start) && v in members
    ensures HasLink(adj, v)
  {
    ReachedHasLink(adj, start, v);
  }

  // --- The order ------------------------------------------------------------------------------

  /** key=(-len, first): larger components first, of equal ones the one with the smaller vertex. */
  predicate NotAfter(a: seq<nat>, b: seq<nat>) {
    |a| > |b| || (|a| == |b| && (|a| == 0 || a[0] <= b[0]))
  }

  ghost predicate Ordered(comps: seq<seq<nat>>) {
    forall i, j :: 0 <= i < j < |comps| ==> NotAfter(comps[i], comps[j])
  }

  lemma InsertOrdered(sorted: seq<seq<nat>>, p: nat, c: seq<nat>)
    requires Ordered(sorted) && p <= |sorted|
    requires forall q :: p <= q < |sorted| ==> !NotAfter(sorted[q], c)
    requires p > 0 ==> NotAfter(sorted[p - 1], c)
    ensures Ordered(sorted[..p] + [c] + sorted[p..])
  {
    forall q | 0 <= q < p ensures NotAfter(sorted[q], c) {
      assert q < p - 1 ==> NotAfter(sorted[q], sorted[p - 1]);
    }
  }

  method SortComponents(comps: seq<seq<nat>>) returns (sorted: seq<seq<nat>>)
    ensures multiset(sorted) == multiset(comps) && Ordered(sorted)
  {
    sorted := [];
    for i := 0 to |comps|
      invariant multiset(sorted) == multiset(comps[..i]) && Ordered(sorted)
    {
      hide NotAfter;
      var p := |sorted|;
      while p > 0 && !NotAfter(sorted[p - 1], comps[i])
        invariant 0 <= p <= |sorted|
        invariant forall q :: p <= q < |sorted| ==> !NotAfter(sorted[q], comps[i])
      {
        p := p - 1;
      }
      InsertOrdered(sorted, p, comps[i]);
      MultisetInsert(sorted, p, comps[i]);
      MultisetPrefix(comps, i);
      sorted := sorted[..p] + [comps[i]] + sorted[p..];
    }
    assert comps[..|comps|] == comps;
  }

  lemma SwapApart(comps: seq<seq<nat>>, sorted: seq<seq<nat>>)
    requires multiset(sorted) == multiset(comps) && Apart(comps) && forall k :: 0 <= k < |comps| ==> |comps[k]| > 0
    ensures Apart(sorted)
  {
    forall i, j, v | 0 <= i < j < |sorted| && v in sorted[i] ensures v !in sorted[j] {
      if v in sorted[j] {
        var a, b := sorted[i], sorted[j];
        var k := PositionOf(comps, sorted, i);
        var l := PositionOf(comps, sorted, j);
        if k == l {
          Twice(sorted, i, j);
          OnceIn(comps, a);
        }
      }
    }
  }

  lemma PositionOf(comps: seq<seq<nat>>, sorted: seq<seq<nat>>, i: nat) returns (k: nat)
    requires multiset(sorted) == multiset(comps) && i < |sorted|
    ensures k < |comps| && comps[k] == sorted[i]
  {
    assert sorted[i] in multiset(comps);
    k :| 0 <= k < |comps| && comps[k] == sorted[i];
  }

  lemma Twice<T>(s: seq<T>, i: nat, j: nat)
    requires i < j < |s| && s[i] == s[j]
    ensures multiset(s)[s[i]] >= 2
  {
    assert s == s[..j] + s[j..];
    assert s[i] == s[..j][i] && s[j] == s[j..][0];
    assert s[i] in multiset(s[..j]) && s[j] in multiset(s[j..]);
  }

  lemma {:induction false} OnceIn(comps: seq<seq<nat>>, c: seq<nat>)
    requires Apart(comps) && |c| > 0
    ensures multiset(comps)[c] <= 1
  {
    if |comps| > 0 {
      var last := |comps| - 1;
      assert comps == comps[..last] + [comps[last]];
      OnceIn(comps[..last], c);
      if c in comps[..last] {
        var k :| 0 <= k < last && comps[k] == c;
        assert c[0] in comps[k];
      }
    }
  }

  lemma ComponentsReordered(adj: seq<seq<real>>, comps: seq<seq<nat>>, sorted: seq<seq<nat>>)
    requires AreComponents(adj, comps) && multiset(sorted) == multiset(comps)
    ensures AreComponents(adj, sorted)
  {
    hide Reaches, HasLink, Apart, Ascending;
    forall k | 0 <= k < |comps| ensures |comps[k]| > 0 {
      assert IsComponent(adj, comps[k]);
    }
    SwapApart(comps, sorted);
    forall k | 0 <= k < |sorted| ensures IsComponent(adj, sorted[k]) {
      var i := PositionOf(comps, sorted, k);
    }
    forall v: nat ensures InSome(sorted, v) <==> InSome(comps, v) {
      if InSome(sorted, v) {
        var k :| 0 <= k < |sorted| && v in sorted[k];
        var i := PositionOf(comps, sorted, k);
      }
      if InSome(comps, v) {
        var k :| 0 <= k < |comps| && v in comps[k];
        var i := PositionOf(sorted, comps, k);
      }
    }
  }

  ghost predicate Rearranges(arrange: seq<nat> -> seq<nat>) {
    forall c: seq<nat> :: multiset(arrange(c)) == multiset(c)
  }

  /** The components one after another, each as arranged. */
  function Joining(comps: seq<seq<nat>>, arrange: seq<nat> -> seq<nat>): seq<nat> {
    if |comps| == 0 then []
    else Joining(comps[..|comps| - 1], arrange) + arrange(comps[|comps| - 1])
  }

  /** spectral_order, with `arrange` for fiedler_order. */
  method SpectralOrder(adj: seq<seq<real>>, arrange: seq<nat> -> seq<nat>) returns (order: seq<nat>, comps: seq<seq<nat>>)
    requires Weights(adj) && Rearranges(arrange)
    ensures AreComponents(adj, comps) && Ordered(comps) && order == Joining(comps, arrange)
  {
    hide AreComponents, Ordered, Weights;
    var found := Components(adj);
    var sorted := SortComponents(found);
    ComponentsReordered(adj, found, sorted);
    order := [];
    for k := 0 to |sorted|
      invariant order == Joining(sorted[..k], arrange)
    {
      assert sorted[..k + 1][..k] == sorted[..k];
      order := order + arrange(sorted[k]);
    }
    assert sorted[..|sorted|] == sorted;
    comps := sorted;
  }

  lemma SomeOrLast(comps: seq<seq<nat>>, v: nat)
    requires Apart(comps) && |comps| > 0
    ensures InSome(comps, v) <==> InSome(comps[..|comps| - 1], v) || v in comps[|comps| - 1]
    ensures !(InSome(comps[..|comps| - 1], v) && v in comps[|comps| - 1])
  {
    var last := |comps| - 1;
    var front := comps[..last];
    if InSome(front, v) {
      var k :| 0 <= k < last && v in front[k];
      assert v in comps[k];
    }
    if k :| 0 <= k < |comps| && v in comps[k] {
      assert k == last || v in front[k];
    }
  }

  lemma {:induction false} JoiningCounts(comps: seq<seq<nat>>, arrange: seq<nat> -> seq<nat>, v: nat)
    requires Apart(comps) && Rearranges(arrange) && forall k :: 0 <= k < |comps| ==> Ascending(comps[k])
    ensures multiset(Joining(comps, arrange))[v] == if InSome(comps, v) then 1 else 0
  {
    if |comps| > 0 {
      var last := |comps| - 1;
      SomeOrLast(comps, v);
      assert Apart(comps[..last]);
      JoiningCounts(comps[..last], arrange, v);
      AscendingOnce(comps[last], v);
      hide InSome, Apart, Ascending;
    }
  }

  lemma {:induction false} AscendingOnce(s: seq<nat>, v: nat)
    requires Ascending(s)
    ensures multiset(s)[v] == if v in s then 1 else 0
  {
    if |s| > 0 {
      var last := |s| - 1;
      AscendingOnce(s[..last], v);
      MultisetPrefix(s, last);
      assert s[..last + 1] == s;
      assert v in s <==> v in s[..last] || v == s[last];
      assert s[last] !in s[..last];
    }
  }

  lemma OrderCounts(adj: seq<seq<real>>, comps: seq<seq<nat>>, arrange: seq<nat> -> seq<nat>, v: nat)
    requires Rearranges(arrange) && AreComponents(adj, comps)
    ensures multiset(Joining(comps, arrange))[v] == if HasLink(adj, v) then 1 else 0
  {
    forall k | 0 <= k < |comps| ensures Ascending(comps[k]) {
      assert IsComponent(adj, comps[k]);
    }
    hide Joining, IsComponent, Apart, HasLink, Rearranges;
    JoiningCounts(comps, arrange, v);
  }

  /** The order holds every vertex with a link, once, and nothing else: all that cutting it into arms asks for. */
  lemma OrderServesTheCut(adj: seq<seq<real>>, comps: seq<seq<nat>>, arrange: seq<nat> -> seq<nat>)
    requires Weights(adj) && Rearranges(arrange) && AreComponents(adj, comps)
    ensures
      var order := Joining(comps, arrange);
      && (forall v: nat :: v in order <==> HasLink(adj, v))
      && GalacticArms.DistinctBelow(order, |adj|) && GalacticArms.CoversLinks(adj, order)
  {
    hide Joining, AreComponents, HasLink, Rearranges;
    var order := Joining(comps, arrange);
    forall v: nat ensures v in order <==> HasLink(adj, v) {
      OrderCounts(adj, comps, arrange, v);
      assert v in order <==> v in multiset(order);
    }
    forall i | 0 <= i < |order| ensures order[i] < |adj| {
      LinkBelow(adj, order[i]);
    }
    forall i, j | 0 <= i < j < |order| ensures order[i] != order[j] {
      OrderCounts(adj, comps, arrange, order[i]);
      if order[i] == order[j] {
        Twice(order, i, j);
      }
    }
    forall r: nat, c: nat {:trigger adj[r][c]} | r < c < |adj| && adj[r][c] > 0.0 ensures r in order && c in order {
      LinksBothWays(adj, r, c);
    }
  }

  lemma LinksBothWays(adj: seq<seq<real>>, r: nat, c: nat)
    requires Weights(adj) && r < |adj| && c < |adj| && adj[r][c] > 0.0
    ensures HasLink(adj, r) && HasLink(adj, c)
  {
    assert Linked(adj, r, c) && Linked(adj, c, r);
  }
}
