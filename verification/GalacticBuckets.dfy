/**
 _group_members and _group_edge_indices of galactic_layout.py: one stable sort
 and two binary searches a group, in place of a mask over all nodes or all edges
 for every group.
 */
module GalacticBuckets {
  import opened Sorting
  import opened GalacticRelax
  import opened GalacticRelaxLoops
  import opened Vectors

  function Reals(codes: seq<int>): (keys: seq<real>)
    ensures |keys| == |codes| && forall i :: 0 <= i < |codes| ==> keys[i] == codes[i] as real
  {
    seq(|codes|, i requires 0 <= i < |codes| => codes[i] as real)
  }

  /** np.searchsorted(sorted, g, side="left"): how many come before g. */
  function Left(sorted: seq<int>, g: int): (s: nat)
    ensures s <= |sorted| && (forall p :: 0 <= p < s ==> sorted[p] < g) && (s < |sorted| ==> sorted[s] >= g)
  {
    if |sorted| == 0 then 0
    else
      var s := Left(sorted[..|sorted| - 1], g);
      if s < |sorted| - 1 || sorted[|sorted| - 1] >= g then s else |sorted|
  }

  /** side="right": how many do not come after g. */
  function Right(sorted: seq<int>, g: int): (e: nat)
    ensures e == Left(sorted, g + 1)
  {
    Left(sorted, g + 1)
  }

  /** codes[order] */
  function Picked(codes: seq<int>, order: seq<nat>): (p: seq<int>)
    requires forall k :: 0 <= k < |order| ==> order[k] < |codes|
    ensures |p| == |order| && forall k :: 0 <= k < |order| ==> p[k] == codes[order[k]]
  {
    seq(|order|, k requires 0 <= k < |order| => codes[order[k]])
  }

  /** The indices whose code is g, ascending: np.flatnonzero(codes == g). */
  ghost predicate IsMask(codes: seq<int>, g: int, indices: seq<nat>) {
    Ascending(indices) && forall i: nat :: i in indices <==> i < |codes| && codes[i] == g
  }

  lemma PickedRises(codes: seq<int>, order: seq<nat>, p: nat, q: nat)
    requires IsArgsort(Reals(codes), |codes|, order) && p <= q < |order|
    ensures codes[order[p]] <= codes[order[q]] && (p < q && codes[order[p]] == codes[order[q]] ==> order[p] < order[q])
  {
    assert p < q ==> Precedes(Reals(codes), order[p], order[q]);
  }

  /** The positions of code g are those from Left to Right. */
  lemma BlockOf(codes: seq<int>, order: seq<nat>, g: int, p: nat)
    requires IsArgsort(Reals(codes), |codes|, order) && p < |order|
    ensures
      var sorted := Picked(codes, order);
      Left(sorted, g) <= p < Right(sorted, g) <==> sorted[p] == g
  {
    var sorted := Picked(codes, order);
    hide IsArgsort;
    var s, e := Left(sorted, g), Right(sorted, g);
    if s <= p {
      PickedRises(codes, order, s, p);
    }
    if e <= p {
      PickedRises(codes, order, e, p);
    }
  }

  lemma {:induction false} LeftBeforeRight(sorted: seq<int>, g: int)
    ensures Left(sorted, g) <= Right(sorted, g)
  {
    if |sorted| > 0 {
      LeftBeforeRight(sorted[..|sorted| - 1], g);
    }
  }

  lemma Listed(codes: seq<int>, order: seq<nat>, i: nat) returns (p: nat)
    requires IsArgsort(Reals(codes), |codes|, order) && i < |codes|
    ensures p < |order| && order[p] == i
  {
    assert i in order;
    p :| 0 <= p < |order| && order[p] == i;
  }

  function Block(codes: seq<int>, order: seq<nat>, g: int): seq<nat>
    requires forall k :: 0 <= k < |order| ==> order[k] < |codes|
  {
    var sorted := Picked(codes, order);
    if Left(sorted, g) <= Right(sorted, g) then order[Left(sorted, g)..Right(sorted, g)] else []
  }

  lemma InBlockIff(codes: seq<int>, order: seq<nat>, g: int, i: nat)
    requires IsArgsort(Reals(codes), |codes|, order)
    ensures i in Block(codes, order, g) <==> i < |codes| && codes[i] == g
  {
    var block := Block(codes, order, g);
    var s := Left(Picked(codes, order), g);
    hide Left, Right;
    if i < |codes| && codes[i] == g {
      var p := Listed(codes, order, i);
      BlockOf(codes, order, g, p);
      assert block[p - s] == i;
    }
    if i in block {
      var k :| 0 <= k < |block| && block[k] == i;
      BlockOf(codes, order, g, s + k);
    }
  }

  lemma BlockAscends(codes: seq<int>, order: seq<nat>, g: int)
    requires IsArgsort(Reals(codes), |codes|, order)
    ensures Ascending(Block(codes, order, g))
  {
    var block := Block(codes, order, g);
    var s := Left(Picked(codes, order), g);
    hide Left, Right, IsArgsort;
    forall k, l | 0 <= k < l < |block| ensures block[k] < block[l] {
      BlockOf(codes, order, g, s + k);
      BlockOf(codes, order, g, s + l);
      PickedRises(codes, order, s + k, s + l);
    }
  }

  /** In a stable argsort the indices with code g are one slice, ascending. */
  lemma BlockIsMask(codes: seq<int>, order: seq<nat>, g: int)
    requires IsArgsort(Reals(codes), |codes|, order)
    ensures IsMask(codes, g, Block(codes, order, g))
  {
    BlockAscends(codes, order, g);
    hide Block;
    forall i: nat ensures i in Block(codes, order, g) <==> i < |codes| && codes[i] == g {
      InBlockIff(codes, order, g, i);
    }
  }

  /** _group_members: the members of every group, as its mask would give them. */
  method GroupMembers(groupOf: seq<int>, nGroups: nat) returns (members: seq<seq<nat>>)
    ensures |members| == nGroups && forall g :: 0 <= g < nGroups ==> IsMask(groupOf, g, members[g])
  {
    members := [];
    var order := Argsort(Reals(groupOf));
    var sorted := Picked(groupOf, order);
    for g := 0 to nGroups
      invariant |members| == g && forall h :: 0 <= h < g ==> IsMask(groupOf, h, members[h])
    {
      BlockIsMask(groupOf, order, g);
      LeftBeforeRight(sorted, g);
      members := members + [order[Left(sorted, g)..Right(sorted, g)]];
    }
  }

  // --- Edges, by local index ----------------------------------------------------------------

  datatype Edge = Edge(u: nat, v: nat, w: real)

  ghost predicate EndsBelow(edges: seq<Edge>, n: nat) {
    forall e :: 0 <= e < |edges| ==> edges[e].u < n && edges[e].v < n
  }

  lemma AscendingFront(s: seq<nat>, x: nat)
    requires |s| > 0 && Ascending(s)
    ensures x in s[..|s| - 1] <==> x in s && x < s[|s| - 1]
  {
    if x in s[..|s| - 1] {
      var k :| 0 <= k < |s| - 1 && s[k] == x;
    }
  }

  lemma LastSame(a: seq<nat>, b: seq<nat>)
    requires |a| > 0 && Ascending(a) && Ascending(b) && forall x: nat :: x in a <==> x in b
    ensures |b| > 0 && a[|a| - 1] == b[|b| - 1]
  {
    assert a[0] in b;
    var x, y := a[|a| - 1], b[|b| - 1];
    assert x in b && y in a;
    var i :| 0 <= i < |b| && b[i] == x;
    var j :| 0 <= j < |a| && a[j] == y;
  }

  /** A set has one ascending listing. */
  lemma {:induction false} ListingIsUnique(a: seq<nat>, b: seq<nat>)
    requires Ascending(a) && Ascending(b) && forall x: nat :: x in a <==> x in b
    ensures a == b
  {
    if |a| > 0 {
      LastSame(a, b);
      var fronts, frontOther := a[..|a| - 1], b[..|b| - 1];
      forall x: nat ensures x in fronts <==> x in frontOther {
        AscendingFront(a, x);
        AscendingFront(b, x);
      }
      ListingIsUnique(fronts, frontOther);
    } else if |b| > 0 {
      LastSame(b, a);
    }
  }

  /** local[v] is v's place among the members of its group. */
  ghost predicate AreLocal(groupOf: seq<int>, local: seq<nat>) {
    && |local| == |groupOf|
    && forall v: nat, members: seq<nat> :: v < |groupOf| && IsMask(groupOf, groupOf[v], members) ==>
         local[v] < |members| && members[local[v]] == v
  }

  /** Where the block of position q starts. */
  function Start(sorted: seq<int>, q: nat): nat
    requires q < |sorted|
  {
    Left(sorted, sorted[q])
  }

  ghost predicate HasPlace(sorted: seq<int>, order: seq<nat>, places: seq<nat>, q: nat)
    requires q < |sorted| == |order| && order[q] < |places|
  {
    Start(sorted, q) + places[order[q]] == q
  }

  /** The first p positions have been given their places in their blocks. */
  ghost predicate Placed(sorted: seq<int>, order: seq<nat>, places: seq<nat>, p: nat)
    requires |sorted| == |order| && p <= |order| && forall k :: 0 <= k < |order| ==> order[k] < |places|
  {
    forall q: nat :: q < p ==> HasPlace(sorted, order, places, q)
  }

  lemma OrderDistinct(codes: seq<int>, order: seq<nat>)
    requires IsArgsort(Reals(codes), |codes|, order)
    ensures |order| == |codes|
    ensures forall p :: 0 <= p < |order| ==> order[p] < |codes|
    ensures forall p, q :: 0 <= p < q < |order| ==> order[p] != order[q]
  {
    ArgsortLength(Reals(codes), |codes|, order);
    forall p, q | 0 <= p < q < |order| ensures order[p] != order[q] {
      assert Precedes(Reals(codes), order[p], order[q]);
    }
  }

  lemma PlaceOne(sorted: seq<int>, order: seq<nat>, places: seq<nat>, p: nat, place: nat)
    requires |sorted| == |order| && forall k :: 0 <= k < |order| ==> order[k] < |places|
    requires forall k, q :: 0 <= k < q < |order| ==> order[k] != order[q]
    requires p < |order| && Placed(sorted, order, places, p) && Start(sorted, p) + place == p
    ensures Placed(sorted, order, places[order[p] := place], p + 1)
  {
    hide Start;
    var more := places[order[p] := place];
    forall q: nat | q < p + 1 ensures HasPlace(sorted, order, more, q) {
      assert q < p ==> HasPlace(sorted, order, places, q);
    }
  }

  /** local_idx[order] = arange - the start of each position's block */
  method LocalIndices(groupOf: seq<int>) returns (local: seq<nat>)
    ensures AreLocal(groupOf, local)
  {
    hide Left, Right, Start;
    var order := Argsort(Reals(groupOf));
    OrderDistinct(groupOf, order);
    hide IsArgsort, Placed;
    var sorted := Picked(groupOf, order);
    NothingPlaced(sorted, order, |groupOf|);
    var places := new nat[|groupOf|](_ => 0);
    var start: nat := 0;
    for p := 0 to |order|
      invariant start <= p && (p > 0 ==> start == Start(sorted, p - 1))
      invariant Placed(sorted, order, places[..], p)
    {
      BlockStart(groupOf, order, p);
      if p == 0 || sorted[p] != sorted[p - 1] {
        start := p;
      }
      ghost var was := places[..];
      var place: nat := p - start;
      PlaceOne(sorted, order, was, p, place);
      places[order[p]] := place;
      assert places[..] == was[order[p] := place];
    }
    local := places[..];
    AllPlaced(groupOf, order, local);
  }

  lemma NothingPlaced(sorted: seq<int>, order: seq<nat>, n: nat)
    requires |sorted| == |order| && forall k :: 0 <= k < |order| ==> order[k] < n
    ensures forall places: seq<nat> :: |places| == n ==> Placed(sorted, order, places, 0)
  {
  }

  lemma AllPlaced(groupOf: seq<int>, order: seq<nat>, local: seq<nat>)
    requires IsArgsort(Reals(groupOf), |groupOf|, order) && |local| == |groupOf|
    requires Placed(Picked(groupOf, order), order, local, |order|)
    ensures AreLocal(groupOf, local)
  {
    hide IsMask, Start;
    forall v: nat, members: seq<nat> | v < |groupOf| && IsMask(groupOf, groupOf[v], members)
      ensures local[v] < |members| && members[local[v]] == v
    {
      var p := Listed(groupOf, order, v);
      assert HasPlace(Picked(groupOf, order), order, local, p);
      PlaceInMask(groupOf, order, p, members);
    }
  }

  /** A block starts where the code changes. */
  lemma BlockStart(codes: seq<int>, order: seq<nat>, p: nat)
    requires IsArgsort(Reals(codes), |codes|, order) && p < |order|
    ensures
      var sorted := Picked(codes, order);
      && Start(sorted, p) <= p
      && Start(sorted, p) == if p == 0 || sorted[p] != sorted[p - 1] then p else Start(sorted, p - 1)
  {
    var sorted := Picked(codes, order);
    BlockOf(codes, order, sorted[p], p);
    var s := Left(sorted, sorted[p]);
    if p > 0 && s < p {
      PickedRises(codes, order, s, p - 1);
      PickedRises(codes, order, p - 1, p);
    }
  }

  lemma PlaceInMask(codes: seq<int>, order: seq<nat>, p: nat, members: seq<nat>)
    requires IsArgsort(Reals(codes), |codes|, order) && p < |order| && IsMask(codes, codes[order[p]], members)
    ensures
      var at := p - Start(Picked(codes, order), p);
      0 <= at < |members| && members[at] == order[p]
  {
    var g := codes[order[p]];
    BlockIsMask(codes, order, g);
    ListingIsUnique(Block(codes, order, g), members);
    BlockOf(codes, order, g, p);
  }

  /** The edges with both ends in group g, in order: what a mask over all edges would select. */
  ghost predicate IsInner(groupOf: seq<int>, edges: seq<Edge>, g: int, ids: seq<nat>)
    requires EndsBelow(edges, |groupOf|)
  {
    Ascending(ids) && forall e: nat :: e in ids <==> e < |edges| && groupOf[edges[e].u] == g && groupOf[edges[e].v] == g
  }

  /** The spring is the edge with its ends numbered among the group's members. */
  ghost predicate IsLocalEdge(groupOf: seq<int>, g: int, e: Edge, s: Spring) {
    s.w == e.w && forall members: seq<nat> :: IsMask(groupOf, g, members) ==>
      s.li < |members| && s.lj < |members| && members[s.li] == e.u && members[s.lj] == e.v
  }

  ghost predicate AreSprings(groupOf: seq<int>, edges: seq<Edge>, g: int, ids: seq<nat>, springs: seq<Spring>)
    requires EndsBelow(edges, |groupOf|)
  {
    && IsInner(groupOf, edges, g, ids) && |springs| == |ids|
    && (forall k :: 0 <= k < |ids| ==> ids[k] < |edges| && IsLocalEdge(groupOf, g, edges[ids[k]], springs[k]))
  }

  /** Where a group's springs come from. */
  ghost predicate AreGroupSprings(groupOf: seq<int>, edges: seq<Edge>, g: int, springs: seq<Spring>)
    requires EndsBelow(edges, |groupOf|)
  {
    exists ids :: AreSprings(groupOf, edges, g, ids, springs)
  }

  /** np.flatnonzero((g_u == g_v) & (g_u >= 0)) */
  ghost predicate AreInner(groupOf: seq<int>, edges: seq<Edge>, n: nat, inner: seq<nat>)
    requires EndsBelow(edges, |groupOf|) && n <= |edges|
  {
    && Ascending(inner) && (forall k :: 0 <= k < |inner| ==> inner[k] < n)
    && forall e: nat :: e in inner <==> e < n && groupOf[edges[e].u] == groupOf[edges[e].v] >= 0
  }

  method InnerEdges(groupOf: seq<int>, edges: seq<Edge>) returns (inner: seq<nat>)
    requires EndsBelow(edges, |groupOf|)
    ensures AreInner(groupOf, edges, |edges|, inner)
  {
    inner := [];
    for e := 0 to |edges|
      invariant AreInner(groupOf, edges, e, inner)
    {
      if groupOf[edges[e].u] == groupOf[edges[e].v] >= 0 {
        inner := inner + [e];
      }
    }
  }

  function EdgeGroups(groupOf: seq<int>, edges: seq<Edge>, inner: seq<nat>): (codes: seq<int>)
    requires EndsBelow(edges, |groupOf|) && forall k :: 0 <= k < |inner| ==> inner[k] < |edges|
    ensures |codes| == |inner| && forall k :: 0 <= k < |inner| ==> codes[k] == groupOf[edges[inner[k]].u]
  {
    seq(|inner|, k requires 0 <= k < |inner| => groupOf[edges[inner[k]].u])
  }

  /** inner[block] */
  function Chosen(inner: seq<nat>, block: seq<nat>): (ids: seq<nat>)
    requires forall k :: 0 <= k < |block| ==> block[k] < |inner|
    ensures |ids| == |block| && forall k :: 0 <= k < |block| ==> ids[k] == inner[block[k]]
  {
    seq(|block|, k requires 0 <= k < |block| => inner[block[k]])
  }

  lemma ChosenAreInner(groupOf: seq<int>, edges: seq<Edge>, inner: seq<nat>, g: int, block: seq<nat>)
    requires EndsBelow(edges, |groupOf|) && AreInner(groupOf, edges, |edges|, inner) && g >= 0
    requires IsMask(EdgeGroups(groupOf, edges, inner), g, block) && forall k :: 0 <= k < |block| ==> block[k] < |inner|
    ensures IsInner(groupOf, edges, g, Chosen(inner, block))
  {
    var ids := Chosen(inner, block);
    forall e: nat ensures e in ids <==> e < |edges| && groupOf[edges[e].u] == g && groupOf[edges[e].v] == g {
      if e in ids {
        var k :| 0 <= k < |ids| && ids[k] == e;
        assert block[k] in block && inner[block[k]] in inner;
      }
      if e < |edges| && groupOf[edges[e].u] == g && groupOf[edges[e].v] == g {
        assert e in inner;
        var i :| 0 <= i < |inner| && inner[i] == e;
        assert i in block;
        var k :| 0 <= k < |block| && block[k] == i;
        assert ids[k] == e;
      }
    }
  }

  function SpringsOf(edges: seq<Edge>, ids: seq<nat>, local: seq<nat>): (springs: seq<Spring>)
    requires EndsBelow(edges, |local|) && forall k :: 0 <= k < |ids| ==> ids[k] < |edges|
    ensures |springs| == |ids|
    ensures forall k :: 0 <= k < |ids| ==> springs[k] == Spring(local[edges[ids[k]].u], local[edges[ids[k]].v], edges[ids[k]].w)
  {
    seq(|ids|, k requires 0 <= k < |ids| => Spring(local[edges[ids[k]].u], local[edges[ids[k]].v], edges[ids[k]].w))
  }

  lemma SpringsAreLocal(groupOf: seq<int>, edges: seq<Edge>, g: int, ids: seq<nat>, local: seq<nat>)
    requires EndsBelow(edges, |groupOf|) && IsInner(groupOf, edges, g, ids) && AreLocal(groupOf, local)
    requires forall k :: 0 <= k < |ids| ==> ids[k] < |edges|
    ensures AreGroupSprings(groupOf, edges, g, SpringsOf(edges, ids, local))
  {
    hide IsMask;
    var springs := SpringsOf(edges, ids, local);
    forall k | 0 <= k < |ids| ensures IsLocalEdge(groupOf, g, edges[ids[k]], springs[k]) {
      assert ids[k] in ids;
      var e := edges[ids[k]];
      forall members: seq<nat> | IsMask(groupOf, g, members)
        ensures local[e.u] < |members| && local[e.v] < |members| && members[local[e.u]] == e.u && members[local[e.v]] == e.v
      {
        assert IsMask(groupOf, groupOf[e.u], members) && IsMask(groupOf, groupOf[e.v], members);
      }
    }
    assert AreSprings(groupOf, edges, g, ids, springs);
  }

  lemma InnerPlace(groupOf: seq<int>, edges: seq<Edge>, inner: seq<nat>, e: nat) returns (k: nat)
    requires EndsBelow(edges, |groupOf|) && AreInner(groupOf, edges, |edges|, inner)
    requires e < |edges| && groupOf[edges[e].u] == groupOf[edges[e].v] >= 0
    ensures k < |inner| && EdgeGroups(groupOf, edges, inner)[k] == groupOf[edges[e].u]
  {
    assert e in inner;
    k :| 0 <= k < |inner| && inner[k] == e;
  }

  lemma NoSprings(groupOf: seq<int>, edges: seq<Edge>, inner: seq<nat>, g: int)
    requires EndsBelow(edges, |groupOf|) && AreInner(groupOf, edges, |edges|, inner) && g >= 0
    requires forall k :: 0 <= k < |inner| ==> EdgeGroups(groupOf, edges, inner)[k] != g
    ensures AreGroupSprings(groupOf, edges, g, [])
  {
    forall e: nat | e < |edges| && groupOf[edges[e].v] == g ensures groupOf[edges[e].u] != g {
      if groupOf[edges[e].u] == g {
        var k := InnerPlace(groupOf, edges, inner, e);
      }
    }
    assert AreSprings(groupOf, edges, g, [], []);
  }

  /** The springs of one group, from its slice of the sorted inner edges. */
  lemma SliceSprings(groupOf: seq<int>, edges: seq<Edge>, inner: seq<nat>, byGroup: seq<nat>, local: seq<nat>, g: int)
    requires EndsBelow(edges, |groupOf|) && AreInner(groupOf, edges, |edges|, inner) && AreLocal(groupOf, local) && g >= 0
    requires
      var codes := EdgeGroups(groupOf, edges, inner);
      IsArgsort(Reals(codes), |codes|, byGroup)
    ensures
      var block := Block(EdgeGroups(groupOf, edges, inner), byGroup, g);
      && (forall k :: 0 <= k < |block| ==> block[k] < |inner|)
      && AreGroupSprings(groupOf, edges, g, SpringsOf(edges, Chosen(inner, block), local))
  {
    hide AreGroupSprings;
    var codes := EdgeGroups(groupOf, edges, inner);
    OrderDistinct(codes, byGroup);
    var block := Block(codes, byGroup, g);
    BlockIsMask(codes, byGroup, g);
    ChosenAreInner(groupOf, edges, inner, g, block);
    SpringsAreLocal(groupOf, edges, g, Chosen(inner, block), local);
  }

  lemma UnlistedGroup(groupOf: seq<int>, edges: seq<Edge>, inner: seq<nat>, byGroup: seq<nat>, g: int)
    requires EndsBelow(edges, |groupOf|) && AreInner(groupOf, edges, |edges|, inner) && g >= 0
    requires
      var codes := EdgeGroups(groupOf, edges, inner);
      IsArgsort(Reals(codes), |codes|, byGroup) && forall p :: 0 <= p < |byGroup| ==> Picked(codes, byGroup)[p] != g
    ensures AreGroupSprings(groupOf, edges, g, [])
  {
    var codes := EdgeGroups(groupOf, edges, inner);
    forall k | 0 <= k < |inner| ensures codes[k] != g {
      var p := Listed(codes, byGroup, k);
      assert Picked(codes, byGroup)[p] == codes[k];
    }
    NoSprings(groupOf, edges, inner, g);
  }

  /** _group_edge_indices: every group's inner edges, by local index. */
  method GroupEdgeIndices(groupOf: seq<int>, edges: seq<Edge>, nGroups: nat) returns (springs: seq<seq<Spring>>)
    requires EndsBelow(edges, |groupOf|) && forall v :: 0 <= v < |groupOf| ==> groupOf[v] < nGroups
    ensures |springs| == nGroups && forall g :: 0 <= g < nGroups ==> AreGroupSprings(groupOf, edges, g, springs[g])
  {
    hide AreInner, AreGroupSprings, AreLocal, IsArgsort, IsMask, Block;
    springs := seq(nGroups, _ => []);
    var inner := InnerEdges(groupOf, edges);
    InnerBelow(groupOf, edges, inner);
    var codes := EdgeGroups(groupOf, edges, inner);
    var local := LocalIndices(groupOf);
    LocalLength(groupOf, local);
    var byGroup := Argsort(Reals(codes));
    OrderDistinct(codes, byGroup);
    var grouped := Picked(codes, byGroup);
    var unique := Unique(grouped);
    for t := 0 to |unique|
      invariant |springs| == nGroups
      invariant forall g: nat :: g < nGroups ==>
        if g in unique[..t] then AreGroupSprings(groupOf, edges, g, springs[g]) else springs[g] == []
    {
      var g := unique[t];
      assert unique[..t + 1] == unique[..t] + [g];
      assert g in unique;
      SliceSprings(groupOf, edges, inner, byGroup, local, g);
      var ids := Chosen(inner, Block(codes, byGroup, g));
      springs := springs[g := SpringsOf(edges, ids, local)];
    }
    assert unique[..|unique|] == unique;
    forall g: nat | g < nGroups && g !in unique ensures AreGroupSprings(groupOf, edges, g, []) {
      UnlistedGroup(groupOf, edges, inner, byGroup, g);
    }
  }

  /** np.unique of non-negative codes */
  method Unique(codes: seq<int>) returns (unique: seq<nat>)
    ensures forall g: nat :: g in unique <==> exists p :: 0 <= p < |codes| && codes[p] == g
  {
    unique := SortedSet(set k | 0 <= k < |codes| && codes[k] >= 0 :: codes[k] as nat);
  }

  lemma InnerBelow(groupOf: seq<int>, edges: seq<Edge>, inner: seq<nat>)
    requires EndsBelow(edges, |groupOf|) && AreInner(groupOf, edges, |edges|, inner)
    ensures forall k :: 0 <= k < |inner| ==> inner[k] < |edges|
  {
  }

  lemma LocalLength(groupOf: seq<int>, local: seq<nat>)
    requires AreLocal(groupOf, local)
    ensures |local| == |groupOf|
  {
  }

  /** What the relaxation of a group asks of its springs. */
  lemma SpringsInGroup(groupOf: seq<int>, edges: seq<Edge>, g: int, members: seq<nat>, springs: seq<Spring>)
    requires EndsBelow(edges, |groupOf|) && AreGroupSprings(groupOf, edges, g, springs) && IsMask(groupOf, g, members)
    ensures InGroup(springs, |members|)
  {
    var ids :| AreSprings(groupOf, edges, g, ids, springs);
    forall k | 0 <= k < |springs| ensures springs[k].li < |members| && springs[k].lj < |members| {
      assert IsLocalEdge(groupOf, g, edges[ids[k]], springs[k]);
    }
  }

  /** And what the relaxation of all groups asks of the members. */
  lemma MembersAreGroups(groupOf: seq<int>, members: seq<seq<nat>>)
    requires forall g :: 0 <= g < |members| ==> IsMask(groupOf, g, members[g])
    ensures Groups(members, |groupOf|)
  {
    forall g, p | 0 <= g < |members| && 0 <= p < |members[g]| ensures members[g][p] < |groupOf| && groupOf[members[g][p]] == g {
      assert members[g][p] in members[g];
    }
  }

  // --- relax_in_groups, from group numbers and edges ------------------------------------------

  lemma LocalEdgesSame(groupOf: seq<int>, g: int, members: seq<nat>, e: Edge, s: Spring, t: Spring)
    requires IsMask(groupOf, g, members) && IsLocalEdge(groupOf, g, e, s) && IsLocalEdge(groupOf, g, e, t)
    ensures s == t
  {
    assert members[s.li] == members[t.li] && members[s.lj] == members[t.lj];
  }

  /** The springs of a group are determined by the group numbers and the edges. */
  lemma SpringsUnique(groupOf: seq<int>, edges: seq<Edge>, g: int, members: seq<nat>, a: seq<Spring>, b: seq<Spring>)
    requires EndsBelow(edges, |groupOf|) && IsMask(groupOf, g, members)
    requires AreGroupSprings(groupOf, edges, g, a) && AreGroupSprings(groupOf, edges, g, b)
    ensures a == b
  {
    var i :| AreSprings(groupOf, edges, g, i, a);
    var j :| AreSprings(groupOf, edges, g, j, b);
    ListingIsUnique(i, j);
    forall k | 0 <= k < |a| ensures a[k] == b[k] {
      LocalEdgesSame(groupOf, g, members, edges[i[k]], a[k], b[k]);
    }
  }

  /** The members of group g are where the relaxation of the group alone, from its own places with its own springs, puts them. */
  ghost predicate GroupRelaxed(norm: Vec -> real, coords: seq<Vec>, groupOf: seq<int>, edges: seq<Edge>, g: int, iterations: nat, relaxed: seq<Vec>)
    requires |coords| == |groupOf| == |relaxed| && EndsBelow(edges, |groupOf|)
  {
    && (exists members, springs :: IsMask(groupOf, g, members) && AreGroupSprings(groupOf, edges, g, springs))
    && forall members, springs :: IsMask(groupOf, g, members) && AreGroupSprings(groupOf, edges, g, springs) ==>
      && (forall p :: 0 <= p < |members| ==> members[p] < |coords|) && InGroup(springs, |members|)
      && Gather(relaxed, members) == Target(norm, coords, members, springs, iterations)
  }

  lemma MaskInRange(groupOf: seq<int>, g: int, members: seq<nat>)
    requires IsMask(groupOf, g, members)
    ensures forall p :: 0 <= p < |members| ==> members[p] < |groupOf|
  {
    forall p | 0 <= p < |members| ensures members[p] < |groupOf| {
      assert members[p] in members;
    }
  }

  lemma RelaxedFor(norm: Vec -> real, coords: seq<Vec>, groupOf: seq<int>, edges: seq<Edge>, g: int, iterations: nat, relaxed: seq<Vec>,
                   members: seq<nat>, springs: seq<Spring>)
    requires |coords| == |groupOf| == |relaxed| && EndsBelow(edges, |groupOf|)
    requires IsMask(groupOf, g, members) && AreGroupSprings(groupOf, edges, g, springs)
    requires (forall p :: 0 <= p < |members| ==> members[p] < |coords|) && InGroup(springs, |members|)
    requires Gather(relaxed, members) == Target(norm, coords, members, springs, iterations)
    ensures GroupRelaxed(norm, coords, groupOf, edges, g, iterations, relaxed)
  {
    hide IsMask, AreGroupSprings, Target, InGroup;
    forall others, more | IsMask(groupOf, g, others) && AreGroupSprings(groupOf, edges, g, more)
      ensures others == members && more == springs
    {
      MasksSame(groupOf, g, others, members);
      SpringsUnique(groupOf, edges, g, members, more, springs);
    }
  }

  lemma MasksSame(groupOf: seq<int>, g: int, a: seq<nat>, b: seq<nat>)
    requires IsMask(groupOf, g, a) && IsMask(groupOf, g, b)
    ensures a == b
  {
    ListingIsUnique(a, b);
  }

  /** relax_in_groups: every group is relaxed as if it were alone, and a node in no group stays. */
  method RelaxByGroup(norm: Vec -> real, coords: seq<Vec>, groupOf: seq<int>, edges: seq<Edge>, nGroups: nat, iterations: nat)
    returns (relaxed: seq<Vec>)
    requires |coords| == |groupOf| && EndsBelow(edges, |groupOf|) && forall v :: 0 <= v < |groupOf| ==> groupOf[v] < nGroups
    ensures |relaxed| == |coords|
    ensures forall g: nat :: g < nGroups ==> GroupRelaxed(norm, coords, groupOf, edges, g, iterations, relaxed)
    ensures forall v :: 0 <= v < |coords| && groupOf[v] < 0 ==> relaxed[v] == coords[v]
  {
    hide AreGroupSprings, IsMask, Target, GroupRelaxed;
    var members := GroupMembers(groupOf, nGroups);
    var springs := GroupEdgeIndices(groupOf, edges, nGroups);
    MembersAreGroups(groupOf, members);
    forall g | 0 <= g < nGroups ensures InGroup(springs[g], |members[g]|) {
      SpringsInGroup(groupOf, edges, g, members[g], springs[g]);
    }
    relaxed := RelaxInGroups(norm, coords, members, springs, iterations);
    forall g: nat | g < nGroups ensures GroupRelaxed(norm, coords, groupOf, edges, g, iterations, relaxed) {
      MaskInRange(groupOf, g, members[g]);
      assert Gather(relaxed, members[g]) == Target(norm, coords, members[g], springs[g], iterations);
      RelaxedFor(norm, coords, groupOf, edges, g, iterations, relaxed, members[g], springs[g]);
    }
    forall v | 0 <= v < |coords| && groupOf[v] < 0 ensures !InGroups(v, members) {
      OutsideAll(groupOf, members, v);
    }
  }

  lemma OutsideAll(groupOf: seq<int>, members: seq<seq<nat>>, v: nat)
    requires (forall g :: 0 <= g < |members| ==> IsMask(groupOf, g, members[g])) && v < |groupOf| && groupOf[v] < 0
    ensures !InGroups(v, members)
  {
    forall g, p | 0 <= g < |members| && 0 <= p < |members[g]| ensures members[g][p] != v {
      assert members[g][p] in members[g];
    }
  }

  /** A group of at most two members keeps its centroid, whatever its edges and the budget; a single member does not move. */
  lemma SmallGroupKeepsCentroid(norm: Vec -> real, coords: seq<Vec>, groupOf: seq<int>, edges: seq<Edge>, g: nat, iterations: nat,
                                relaxed: seq<Vec>, members: seq<nat>, springs: seq<Spring>)
    requires Euclidean(norm) && |coords| == |groupOf| == |relaxed| && EndsBelow(edges, |groupOf|)
    requires GroupRelaxed(norm, coords, groupOf, edges, g, iterations, relaxed)
    requires IsMask(groupOf, g, members) && AreGroupSprings(groupOf, edges, g, springs) && |members| <= 2
    requires forall p :: 0 <= p < |members| ==> members[p] < |coords|
    ensures SumOf(Gather(relaxed, members)) == SumOf(Gather(coords, members))
    ensures |members| == 1 ==> relaxed[members[0]] == coords[members[0]]
  {
    hide IsMask, AreGroupSprings;
    var place := Gather(coords, members);
    if |members| == 2 {
      hide Relaxed, SumOf;
      CentroidKeptIff(norm, 2);
    } else if |members| == 1 {
      assert Gather(relaxed, members)[0] == place[0];
    }
  }
}
