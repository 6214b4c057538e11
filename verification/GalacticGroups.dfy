/**
 assign_groups of galactic_layout.py: clusters keep their groups, and the free
 nodes fall into associations, found by union-find with path halving.
 */
module GalacticGroups {
  import opened Options
  import opened Schema
  import opened Sorting

  // --- Connectivity ---------------------------------------------------------

  /** An edge joins a and b, in either direction, both being free. */
  ghost predicate Joined(free: set<nat>, edges: seq<(nat, nat)>, a: nat, b: nat) {
    a in free && b in free && ((a, b) in edges || (b, a) in edges)
  }

  ghost predicate IsPath(free: set<nat>, edges: seq<(nat, nat)>, p: seq<nat>) {
    && |p| > 0 && p[0] in free
    && forall k :: 0 <= k < |p| - 1 ==> Joined(free, edges, p[k], p[k + 1])
  }

  ghost predicate Connected(free: set<nat>, edges: seq<(nat, nat)>, a: nat, b: nat) {
    exists p :: IsPath(free, edges, p) && p[0] == a && p[|p| - 1] == b
  }

  lemma PathTo(free: set<nat>, edges: seq<(nat, nat)>, p: seq<nat>)
    requires IsPath(free, edges, p)
    ensures Connected(free, edges, p[0], p[|p| - 1])
  {
  }

  lemma ConnectedSelf(free: set<nat>, edges: seq<(nat, nat)>, a: nat)
    requires a in free
    ensures Connected(free, edges, a, a)
  {
    PathTo(free, edges, [a]);
  }

  lemma ConnectedEdge(free: set<nat>, edges: seq<(nat, nat)>, a: nat, b: nat)
    requires Joined(free, edges, a, b)
    ensures Connected(free, edges, a, b)
  {
    PathTo(free, edges, [a, b]);
  }

  lemma ConnectedThrough(free: set<nat>, edges: seq<(nat, nat)>, a: nat, b: nat, c: nat)
    requires Connected(free, edges, a, b) && Connected(free, edges, b, c)
    ensures Connected(free, edges, a, c)
  {
    var p :| IsPath(free, edges, p) && p[0] == a && p[|p| - 1] == b;
    var q :| IsPath(free, edges, q) && q[0] == b && q[|q| - 1] == c;
    var r := p + q[1..];
    forall k | 0 <= k < |r| - 1 ensures Joined(free, edges, r[k], r[k + 1]) {
      if k >= |p| - 1 {
        assert r[k] == q[k - |p| + 1] && r[k + 1] == q[k - |p| + 2];
      }
    }
    PathTo(free, edges, r);
  }

  lemma {:induction false} PathBack(free: set<nat>, edges: seq<(nat, nat)>, p: seq<nat>)
    requires IsPath(free, edges, p)
    ensures Connected(free, edges, p[|p| - 1], p[0])
  {
    if |p| == 1 {
      ConnectedSelf(free, edges, p[0]);
    } else {
      PathBack(free, edges, p[..|p| - 1]);
      ConnectedEdge(free, edges, p[|p| - 1], p[|p| - 2]);
      ConnectedThrough(free, edges, p[|p| - 1], p[|p| - 2], p[0]);
    }
  }

  lemma ConnectedBack(free: set<nat>, edges: seq<(nat, nat)>, a: nat, b: nat)
    requires Connected(free, edges, a, b)
    ensures Connected(free, edges, b, a)
  {
    var p :| IsPath(free, edges, p) && p[0] == a && p[|p| - 1] == b;
    PathBack(free, edges, p);
  }

  lemma ConnectedMore(free: set<nat>, edges: seq<(nat, nat)>, more: seq<(nat, nat)>, a: nat, b: nat)
    requires Connected(free, edges, a, b) && forall e :: e in edges ==> e in more
    ensures Connected(free, more, a, b)
  {
    var p :| IsPath(free, edges, p) && p[0] == a && p[|p| - 1] == b;
    assert forall k :: 0 <= k < |p| - 1 ==> Joined(free, edges, p[k], p[k + 1]);
    PathTo(free, more, p);
  }

  /** A labelling constant across every edge is constant along every path. */
  lemma {:induction false} LabelAlongPath(free: set<nat>, edges: seq<(nat, nat)>, mark: map<nat, nat>, p: seq<nat>)
    requires mark.Keys == free && IsPath(free, edges, p)
    requires forall a, b :: Joined(free, edges, a, b) ==> mark[a] == mark[b]
    ensures p[|p| - 1] in free && mark[p[0]] == mark[p[|p| - 1]]
  {
    if |p| > 1 {
      LabelAlongPath(free, edges, mark, p[..|p| - 1]);
      assert Joined(free, edges, p[|p| - 2], p[|p| - 1]);
    }
  }

  // --- Union-find ---------------------------------------------------------------

  /** What the forest keeps of one node: its root `rep`, and a height `up` that grows towards the root. */
  ghost predicate NodeOk(parent: map<nat, nat>, rep: map<nat, nat>, up: map<nat, nat>, top: nat, x: nat) {
    && x in parent && x in rep && x in up && up[x] <= top
    && parent[x] in parent && parent[x] in rep && parent[x] in up && rep[parent[x]] == rep[x]
    && (parent[x] != x ==> up[x] < up[parent[x]])
    && (parent[x] == x ==> rep[x] == x)
    && rep[x] in parent && parent[rep[x]] == rep[x]
  }

  /** A parent forest. */
  ghost predicate Forest(parent: map<nat, nat>, rep: map<nat, nat>, up: map<nat, nat>, top: nat) {
    && rep.Keys == parent.Keys && up.Keys == parent.Keys
    && forall x {:trigger NodeOk(parent, rep, up, top, x)} :: x in parent ==> NodeOk(parent, rep, up, top, x)
  }

  ghost predicate SameRoots(parent: map<nat, nat>, parent': map<nat, nat>) {
    parent'.Keys == parent.Keys && forall x :: x in parent ==> (parent'[x] == x <==> parent[x] == x)
  }

  /** Halving a path keeps the forest and its roots. */
  lemma Halved(parent: map<nat, nat>, rep: map<nat, nat>, up: map<nat, nat>, top: nat, x: nat)
    requires Forest(parent, rep, up, top) && x in parent && parent[x] != x
    ensures parent[x] in parent && parent[parent[x]] in parent
    ensures
      var parent' := parent[x := parent[parent[x]]];
      && Forest(parent', rep, up, top) && SameRoots(parent, parent')
      && up[x] < up[parent'[x]] <= top && rep[parent'[x]] == rep[x]
  {
    assert NodeOk(parent, rep, up, top, x);
    var next := parent[x];
    assert NodeOk(parent, rep, up, top, next);
    var far := parent[next];
    assert NodeOk(parent, rep, up, top, far);
    var parent' := parent[x := far];
    assert NodeOk(parent, rep, up, top, rep[x]);
    forall y | y in parent' ensures NodeOk(parent', rep, up, top, y) {
      assert NodeOk(parent, rep, up, top, y);
    }
  }

  /** The representatives after the tree of `from` joins that of `to`. */
  ghost function Merged(rep: map<nat, nat>, from: nat, to: nat): map<nat, nat> {
    map x | x in rep :: if rep[x] == from then to else rep[x]
  }

  /** Hanging one root under another merges the two trees. */
  lemma Hung(parent: map<nat, nat>, rep: map<nat, nat>, up: map<nat, nat>, top: nat, from: nat, to: nat, height: nat)
    requires Forest(parent, rep, up, top) && from in parent && to in parent && from != to
    requires parent[from] == from && parent[to] == to && up[from] < height && up[to] <= height
    ensures Forest(parent[from := to], Merged(rep, from, to), up[to := height],
                   if top > height then top else height)
  {
    var parent' := parent[from := to];
    var rep' := Merged(rep, from, to);
    var up' := up[to := height];
    var top' := if top > height then top else height;
    assert NodeOk(parent, rep, up, top, from) && NodeOk(parent, rep, up, top, to);
    forall y | y in parent' ensures NodeOk(parent', rep', up', top', y) {
      assert NodeOk(parent, rep, up, top, y);
    }
  }

  class UnionFind {
    var parent: map<nat, nat>
    ghost var rep: map<nat, nat>
    ghost var up: map<nat, nat>
    ghost var top: nat

    ghost predicate Valid()
      reads this
    {
      Forest(parent, rep, up, top)
    }

    constructor (nodes: set<nat>)
      ensures Valid() && parent.Keys == nodes && rep == map x | x in nodes :: x
    {
      parent := map x | x in nodes :: x;
      rep := map x | x in nodes :: x;
      up := map x | x in nodes :: 0;
      top := 0;
    }

    /** The root, with path halving: it ends, no root changes, and every node keeps its own. */
    method Find(x: nat) returns (root: nat)
      requires Valid() && x in parent
      modifies this`parent
      ensures Valid() && SameRoots(old(parent), parent)
      ensures root in parent && root == rep[x] && parent[root] == root
    {
      root := x;
      assert NodeOk(parent, rep, up, top, root);
      while parent[root] != root
        invariant Valid() && SameRoots(old(parent), parent) && root in parent && rep[root] == rep[x]
        decreases top - up[root]
      {
        Halved(parent, rep, up, top, root);
        parent := parent[root := parent[parent[root]]];
        root := parent[root];
      }
      assert NodeOk(parent, rep, up, top, root);
    }

    /** parent[find(u)] = find(v) */
    method Union(u: nat, v: nat)
      requires Valid() && u in parent && v in parent
      modifies this
      ensures Valid() && parent.Keys == old(parent.Keys)
      ensures u in old(rep) && v in old(rep) && rep == Merged(old(rep), old(rep)[u], old(rep)[v])
    {
      var to := Find(v);
      var from := Find(u);
      assert NodeOk(parent, rep, up, top, from) && NodeOk(parent, rep, up, top, to);
      ghost var merged := Merged(rep, from, to);
      if from != to {
        ghost var height := if up[to] > up[from] then up[to] else up[from] + 1;
        Hung(parent, rep, up, top, from, to, height);
        up := up[to := height];
        top := if top > height then top else height;
      } else {
        assert merged == rep;
        assert parent[from := to] == parent;
      }
      assert Forest(parent[from := to], merged, up, top);
      assert parent[from := to].Keys == parent.Keys;
      rep := merged;
      parent := parent[from := to];
    }
  }

  // --- The union loop ---------------------------------------------------------------

  /** Equal representatives exactly for connected nodes, stated in two halves. */
  ghost predicate Sound(free: set<nat>, edges: seq<(nat, nat)>, rep: map<nat, nat>)
    requires rep.Keys == free
  {
    forall a, b :: a in free && b in free && rep[a] == rep[b] ==> Connected(free, edges, a, b)
  }

  ghost predicate Complete(free: set<nat>, edges: seq<(nat, nat)>, rep: map<nat, nat>)
    requires rep.Keys == free
  {
    forall a, b :: Joined(free, edges, a, b) ==> rep[a] == rep[b]
  }

  lemma SoundAndComplete(free: set<nat>, edges: seq<(nat, nat)>, rep: map<nat, nat>, a: nat, b: nat)
    requires rep.Keys == free && Sound(free, edges, rep) && Complete(free, edges, rep)
    requires a in free && b in free
    ensures rep[a] == rep[b] <==> Connected(free, edges, a, b)
  {
    if Connected(free, edges, a, b) {
      var p :| IsPath(free, edges, p) && p[0] == a && p[|p| - 1] == b;
      LabelAlongPath(free, edges, rep, p);
    }
  }

  lemma Bridged(free: set<nat>, edges: seq<(nat, nat)>, rep: map<nat, nat>, u: nat, v: nat, a: nat, b: nat)
    requires rep.Keys == free && Sound(free, edges, rep) && u in free && v in free
    requires a in free && b in free && rep[a] == rep[u] && rep[b] == rep[v]
    ensures Connected(free, edges + [(u, v)], a, b) && Connected(free, edges + [(u, v)], b, a)
  {
    var more := edges + [(u, v)];
    ConnectedMore(free, edges, more, a, u);
    ConnectedMore(free, edges, more, v, b);
    ConnectedEdge(free, more, u, v);
    ConnectedThrough(free, more, a, u, v);
    ConnectedThrough(free, more, a, v, b);
    ConnectedBack(free, more, a, b);
  }

  lemma MergeStaysSound(free: set<nat>, edges: seq<(nat, nat)>, rep: map<nat, nat>, u: nat, v: nat)
    requires rep.Keys == free && Sound(free, edges, rep) && u in free && v in free
    ensures Sound(free, edges + [(u, v)], Merged(rep, rep[u], rep[v]))
  {
    var rep' := Merged(rep, rep[u], rep[v]);
    forall a, b | a in free && b in free && rep'[a] == rep'[b] ensures Connected(free, edges + [(u, v)], a, b) {
      if rep[a] == rep[b] {
        ConnectedMore(free, edges, edges + [(u, v)], a, b);
      } else if rep[a] == rep[u] {
        Bridged(free, edges, rep, u, v, a, b);
      } else {
        Bridged(free, edges, rep, u, v, b, a);
      }
    }
  }

  lemma MergeStaysComplete(free: set<nat>, edges: seq<(nat, nat)>, rep: map<nat, nat>, u: nat, v: nat)
    requires rep.Keys == free && Complete(free, edges, rep) && u in free && v in free
    ensures Complete(free, edges + [(u, v)], Merged(rep, rep[u], rep[v]))
  {
    forall a, b | Joined(free, edges + [(u, v)], a, b)
      ensures Merged(rep, rep[u], rep[v])[a] == Merged(rep, rep[u], rep[v])[b]
    {
      if Joined(free, edges, a, b) {
        assert rep[a] == rep[b];
      }
    }
  }

  lemma ForeignEdge(free: set<nat>, edges: seq<(nat, nat)>, rep: map<nat, nat>, e: (nat, nat))
    requires rep.Keys == free && Sound(free, edges, rep) && Complete(free, edges, rep) && !(e.0 in free && e.1 in free)
    ensures Sound(free, edges + [e], rep) && Complete(free, edges + [e], rep)
  {
    forall a, b | a in free && b in free && rep[a] == rep[b] ensures Connected(free, edges + [e], a, b) {
      ConnectedMore(free, edges, edges + [e], a, b);
    }
    forall a, b | Joined(free, edges + [e], a, b) ensures rep[a] == rep[b] {
      assert Joined(free, edges, a, b);
    }
  }

  ghost predicate RootsConnect(free: set<nat>, edges: seq<(nat, nat)>, root: map<nat, nat>)
    requires root.Keys == free
  {
    forall a, b :: a in free && b in free ==> (root[a] == root[b] <==> Connected(free, edges, a, b))
  }

  /** The union-find pass over the edges: find(a) == find(b) exactly for connected free nodes. */
  method Roots(free: set<nat>, edges: seq<(nat, nat)>) returns (root: map<nat, nat>)
    ensures root.Keys == free && RootsConnect(free, edges, root)
  {
    var uf := new UnionFind(free);
    forall a | a in free ensures Connected(free, edges[..0], a, a) { ConnectedSelf(free, edges[..0], a); }
    for i := 0 to |edges|
      invariant fresh(uf) && uf.Valid() && uf.parent.Keys == free
      invariant Sound(free, edges[..i], uf.rep) && Complete(free, edges[..i], uf.rep)
    {
      assert edges[..i + 1] == edges[..i] + [edges[i]];
      var (u, v) := edges[i];
      if u in free && v in free {
        MergeStaysSound(free, edges[..i], uf.rep, u, v);
        MergeStaysComplete(free, edges[..i], uf.rep, u, v);
        uf.Union(u, v);
      } else {
        ForeignEdge(free, edges[..i], uf.rep, edges[i]);
      }
    }
    assert edges[..|edges|] == edges;
    var nodes := SortedSet(free);
    root := map[];
    for i := 0 to |nodes|
      invariant uf.Valid() && uf.parent.Keys == free && fresh(uf)
      invariant Sound(free, edges, uf.rep) && Complete(free, edges, uf.rep)
      invariant forall a :: a in root <==> a in nodes[..i]
      invariant forall a :: a in root ==> a in free && root[a] == uf.rep[a]
    {
      assert nodes[i] in nodes;
      var r := uf.Find(nodes[i]);
      root := root[nodes[i] := r];
    }
    assert nodes[..|nodes|] == nodes;
    forall a, b | a in free && b in free ensures root[a] == root[b] <==> Connected(free, edges, a, b) {
      SoundAndComplete(free, edges, uf.rep, a, b);
    }
  }

  // --- assign_groups ------------------------------------------------------------------

  /** A group is a cluster, or an association named after its least node id. */
  datatype Key = Cluster(id: nat) | Assoc(least: Id)

  ghost function FreeNodes(clusters: seq<Option<nat>>): set<nat> {
    set i | 0 <= i < |clusters| && clusters[i].None?
  }

  /** A path that ends elsewhere takes a step away from home. */
  lemma {:induction false} LeavesHome(free: set<nat>, edges: seq<(nat, nat)>, p: seq<nat>)
    requires IsPath(free, edges, p) && p[0] != p[|p| - 1]
    ensures exists c :: c != p[0] && Joined(free, edges, p[0], c)
  {
    assert Joined(free, edges, p[0], p[1]);
    if p[1] == p[0] {
      LeavesHome(free, edges, p[1..]);
    }
  }

  lemma NeighbourIff(free: set<nat>, edges: seq<(nat, nat)>, a: nat)
    ensures (exists b :: b != a && Connected(free, edges, a, b)) <==> (exists c :: c != a && Joined(free, edges, a, c))
  {
    if b :| b != a && Connected(free, edges, a, b) {
      var p :| IsPath(free, edges, p) && p[0] == a && p[|p| - 1] == b;
      LeavesHome(free, edges, p);
    }
    if c :| c != a && Joined(free, edges, a, c) {
      ConnectedEdge(free, edges, a, c);
    }
  }

  /** min(node_ids[m] for m in members) */
  function MinId(nodeIds: seq<Id>, members: seq<nat>): (least: Id)
    requires |members| > 0 && forall k :: 0 <= k < |members| ==> members[k] < |nodeIds|
    ensures exists k :: 0 <= k < |members| && least == nodeIds[members[k]]
    ensures forall k :: 0 <= k < |members| ==> least <= nodeIds[members[k]]
  {
    var last := nodeIds[members[|members| - 1]];
    if |members| == 1 then last
    else
      var rest := MinId(nodeIds, members[..|members| - 1]);
      if rest < last then rest else last
  }

  /** `comps` lists, root by root, the nodes of the set that have this root. */
  ghost predicate IsComponents(nodes: set<nat>, root: map<nat, nat>, comps: map<nat, seq<nat>>)
    requires nodes <= root.Keys
  {
    && (forall r :: r in comps ==> |comps[r]| > 0 && Ascending(comps[r]))
    && (forall r, b :: r in comps && b in comps[r] ==> b in nodes && root[b] == r)
    && (forall b :: b in nodes ==> root[b] in comps && b in comps[root[b]])
  }

  lemma ComponentGrows(nodes: set<nat>, root: map<nat, nat>, comps: map<nat, seq<nat>>, a: nat)
    requires nodes <= root.Keys && IsComponents(nodes, root, comps) && a in root && a !in nodes
    requires forall b :: b in nodes ==> b < a
    ensures IsComponents(nodes + {a}, root, comps[root[a] := (if root[a] in comps then comps[root[a]] else []) + [a]])
  {
    var members := if root[a] in comps then comps[root[a]] else [];
    forall k | 0 <= k < |members| ensures members[k] < a {
      var b := members[k];
      assert b in comps[root[a]];
      assert b in nodes;
    }
    var comps' := comps[root[a] := members + [a]];
    forall r, b | r in comps' && b in comps'[r] ensures b in nodes + {a} && root[b] == r {
      if b != a {
        assert b in comps[r];
      }
    }
    forall b | b in nodes + {a} ensures root[b] in comps' && b in comps'[root[b]] {
      if b != a {
        assert b in comps[root[b]];
      }
    }
  }

  /** components.setdefault(find(i), []).append(i), in ascending order of i. */
  method Components(free: set<nat>, root: map<nat, nat>) returns (comps: map<nat, seq<nat>>)
    requires root.Keys == free
    ensures IsComponents(free, root, comps)
  {
    hide IsComponents;
    comps := map[];
    var nodes := SortedSet(free);
    ghost var done: set<nat> := {};
    assert IsComponents({}, root, map[]) by { NoComponents(root); }
    for i := 0 to |nodes|
      invariant forall b :: b in done <==> b in nodes[..i]
      invariant done <= free && IsComponents(done, root, comps)
    {
      var a := nodes[i];
      assert a in nodes;
      assert nodes[..i + 1] == nodes[..i] + [a];
      assert forall b :: b in done ==> b < a;
      ComponentGrows(done, root, comps, a);
      comps := comps[root[a] := (if root[a] in comps then comps[root[a]] else []) + [a]];
      done := done + {a};
    }
    assert nodes[..|nodes|] == nodes;
    assert done == free;
  }

  lemma NoComponents(root: map<nat, nat>)
    ensures IsComponents({}, root, map[])
  {
  }

  ghost predicate DistinctIds(nodeIds: seq<Id>) {
    forall i, j :: 0 <= i < j < |nodeIds| ==> nodeIds[i] != nodeIds[j]
  }

  ghost predicate MembersInRange(comps: map<nat, seq<nat>>, n: nat) {
    forall r :: r in comps ==> |comps[r]| > 0 && forall k :: 0 <= k < |comps[r]| ==> comps[r][k] < n
  }

  /** Different components have different least ids. */
  lemma LeastIdsDiffer(nodeIds: seq<Id>, free: set<nat>, root: map<nat, nat>, comps: map<nat, seq<nat>>, r: nat, q: nat)
    requires DistinctIds(nodeIds) && root.Keys == free && IsComponents(free, root, comps) && MembersInRange(comps, |nodeIds|)
    requires r in comps && q in comps && MinId(nodeIds, comps[r]) == MinId(nodeIds, comps[q])
    ensures r == q
  {
    hide IsComponents, MinId;
    var b := LeastMember(nodeIds, comps[r]);
    var c := LeastMember(nodeIds, comps[q]);
    assert b == c;
    MemberRoot(free, root, comps, r, b);
    MemberRoot(free, root, comps, q, c);
  }

  lemma LeastMember(nodeIds: seq<Id>, members: seq<nat>) returns (b: nat)
    requires |members| > 0 && forall k :: 0 <= k < |members| ==> members[k] < |nodeIds|
    ensures b in members && b < |nodeIds| && nodeIds[b] == MinId(nodeIds, members)
  {
    var k :| 0 <= k < |members| && MinId(nodeIds, members) == nodeIds[members[k]];
    b := members[k];
  }

  lemma MemberRoot(nodes: set<nat>, root: map<nat, nat>, comps: map<nat, seq<nat>>, r: nat, b: nat)
    requires nodes <= root.Keys && IsComponents(nodes, root, comps) && r in comps && b in comps[r]
    ensures b in nodes && root[b] == r
  {
  }

  ghost predicate ListsLeast(nodeIds: seq<Id>, comps: map<nat, seq<nat>>, least: seq<Id>)
    requires MembersInRange(comps, |nodeIds|)
  {
    forall x :: x in least <==> exists r :: r in comps && |comps[r]| >= 2 && MinId(nodeIds, comps[r]) == x
  }

  /** Least ids of the components of two or more, ascending: the associations in their order. */
  method AssociationKeys(nodeIds: seq<Id>, comps: map<nat, seq<nat>>) returns (least: seq<Id>)
    requires MembersInRange(comps, |nodeIds|)
    ensures Ascending(least)
    ensures ListsLeast(nodeIds, comps, least)
  {
    least := SortedSet(set r | r in comps && |comps[r]| >= 2 :: MinId(nodeIds, comps[r]));
  }

  /** Slot p of `least` belongs to the component r. */
  ghost predicate Named(nodeIds: seq<Id>, comps: map<nat, seq<nat>>, r: nat, least: Id)
    requires MembersInRange(comps, |nodeIds|)
  {
    r in comps && |comps[r]| >= 2 && MinId(nodeIds, comps[r]) == least
  }

  /** A free node's group once the first p associations have been handed out. */
  ghost predicate Assigned(nodeIds: seq<Id>, root: map<nat, nat>, comps: map<nat, seq<nat>>, least: seq<Id>, p: nat, base: nat, a: nat, group: int)
    requires MembersInRange(comps, |nodeIds|) && p <= |least| && a in root
  {
    if exists q :: 0 <= q < p && Named(nodeIds, comps, root[a], least[q])
    then base <= group < base + p && Named(nodeIds, comps, root[a], least[group - base])
    else group == -1
  }

  lemma NoneAssigned(nodeIds: seq<Id>, root: map<nat, nat>, comps: map<nat, seq<nat>>, least: seq<Id>, base: nat, a: nat)
    requires MembersInRange(comps, |nodeIds|) && a in root
    ensures Assigned(nodeIds, root, comps, least, 0, base, a, -1)
  {
  }

  /** group_of[members] = offset, association by association. */
  method NumberAssociations(nodeIds: seq<Id>, free: set<nat>, root: map<nat, nat>, comps: map<nat, seq<nat>>,
                            least: seq<Id>, base: nat, groupOf: array<int>)
    requires DistinctIds(nodeIds) && root.Keys == free && IsComponents(free, root, comps) && MembersInRange(comps, |nodeIds|)
    requires Ascending(least) && groupOf.Length == |nodeIds| && (forall a :: a in free ==> a < |nodeIds| && groupOf[a] == -1)
    requires ListsLeast(nodeIds, comps, least)
    modifies groupOf
    ensures forall a :: a in free ==> Assigned(nodeIds, root, comps, least, |least|, base, a, groupOf[a])
    ensures forall i: nat :: i < |nodeIds| && i !in free ==> groupOf[i] == old(groupOf[i])
  {
    hide MinId, IsComponents, Assigned;
    forall a | a in free ensures Assigned(nodeIds, root, comps, least, 0, base, a, groupOf[a]) {
      NoneAssigned(nodeIds, root, comps, least, base, a);
    }
    for p := 0 to |least|
      invariant forall a :: a in free ==> Assigned(nodeIds, root, comps, least, p, base, a, groupOf[a])
      invariant forall i: nat :: i < |nodeIds| && i !in free ==> groupOf[i] == old(groupOf[i])
    {
      assert least[p] in least;
      var r :| r in comps && |comps[r]| >= 2 && MinId(nodeIds, comps[r]) == least[p];
      assert Named(nodeIds, comps, r, least[p]);
      ghost var before := groupOf[..];
      forall b | b in comps[r] ensures b in free {
        MemberRoot(free, root, comps, r, b);
      }
      NumberMembers(comps[r], base + p, groupOf);
      forall a | a in free ensures Assigned(nodeIds, root, comps, least, p + 1, base, a, groupOf[a]) {
        NextAssigned(nodeIds, free, root, comps, least, p, base, r, a, before[a], groupOf[a]);
      }
    }
  }

  /** Numbering one more component settles its members and leaves the others as they were. */
  lemma NextAssigned(nodeIds: seq<Id>, free: set<nat>, root: map<nat, nat>, comps: map<nat, seq<nat>>,
                     least: seq<Id>, p: nat, base: nat, r: nat, a: nat, before: int, after: int)
    requires DistinctIds(nodeIds) && root.Keys == free && IsComponents(free, root, comps) && MembersInRange(comps, |nodeIds|)
    requires p < |least| && Ascending(least) && a in free && Named(nodeIds, comps, r, least[p])
    requires Assigned(nodeIds, root, comps, least, p, base, a, before)
    requires after == if a in comps[r] then base + p else before
    ensures Assigned(nodeIds, root, comps, least, p + 1, base, a, after)
  {
    hide MinId;
    assert a in comps[r] <==> root[a] == r;
    if Named(nodeIds, comps, root[a], least[p]) {
      LeastIdsDiffer(nodeIds, free, root, comps, root[a], r);
    }
  }

  method NumberMembers(members: seq<nat>, offset: nat, groupOf: array<int>)
    requires forall k :: 0 <= k < |members| ==> members[k] < groupOf.Length
    modifies groupOf
    ensures forall i: nat :: i < groupOf.Length ==> groupOf[i] == if i in members then offset else old(groupOf[i])
  {
    for k := 0 to |members|
      invariant forall i: nat :: i < groupOf.Length ==> groupOf[i] == if i in members[..k] then offset else old(groupOf[i])
    {
      groupOf[members[k]] := offset;
    }
    assert members[..|members|] == members;
  }

  /** Two free nodes share an association exactly when a path of free-free edges joins them. */
  ghost predicate PairGrouped(free: set<nat>, edges: seq<(nat, nat)>, a: nat, b: nat, ga: int, gb: int) {
    (ga != -1 && ga == gb) <==> Connected(free, edges, a, b)
  }

  /** A free node stays out exactly when no edge joins it to another free node; otherwise its group bears the least connected id. */
  ghost predicate NodeGrouped(nodeIds: seq<Id>, free: set<nat>, edges: seq<(nat, nat)>, keys: seq<Key>, a: nat, group: int)
    requires forall b :: b in free ==> b < |nodeIds|
  {
    && (group == -1 <==> !exists c :: c != a && Joined(free, edges, a, c))
    && (group != -1 ==>
          && 0 <= group < |keys| && keys[group].Assoc?
          && (exists b :: b in free && Connected(free, edges, a, b) && nodeIds[b] == keys[group].least)
          && (forall b :: b in free && Connected(free, edges, a, b) ==> keys[group].least <= nodeIds[b]))
  }

  /** Group codes as assign_groups returns them; -1 is a satellite. */
  ghost predicate IsGrouping(nodeIds: seq<Id>, clusters: seq<Option<nat>>, edges: seq<(nat, nat)>, groupOf: seq<int>, keys: seq<Key>)
    requires |nodeIds| == |clusters|
  {
    var free := FreeNodes(clusters);
    && |groupOf| == |clusters|
    && (forall i, c :: 0 <= i < |clusters| && clusters[i] == Some(c) ==> 0 <= groupOf[i] < |keys| && keys[groupOf[i]] == Cluster(c))
    && (forall a, b :: a in free && b in free && a != b ==> PairGrouped(free, edges, a, b, groupOf[a], groupOf[b]))
    && (forall a :: a in free ==> NodeGrouped(nodeIds, free, edges, keys, a, groupOf[a]))
  }

  /** Clusters first, then associations, each in ascending order: the numbering does not depend on the order of the input. */
  ghost predicate KeysOrdered(keys: seq<Key>) {
    forall i, j :: 0 <= i < j < |keys| ==>
      match (keys[i], keys[j])
      case (Cluster(a), Cluster(b)) => a < b
      case (Assoc(a), Assoc(b)) => a < b
      case (Cluster(_), Assoc(_)) => true
      case (Assoc(_), Cluster(_)) => false
  }

  /** Position of a value in a sorted listing. */
  method IndexOf(listing: seq<nat>, x: nat) returns (i: nat)
    requires x in listing
    ensures i < |listing| && listing[i] == x
  {
    i := 0;
    while listing[i] != x
      invariant i < |listing| && x in listing[i..]
      decreases |listing| - i
    {
      i := i + 1;
    }
  }

  /** A component has a second member exactly when an edge leaves the node for another free node. */
  lemma CompanyIff(edges: seq<(nat, nat)>, free: set<nat>, root: map<nat, nat>, comps: map<nat, seq<nat>>, a: nat)
    requires root.Keys == free && IsComponents(free, root, comps) && RootsConnect(free, edges, root) && a in free
    ensures root[a] in comps && (|comps[root[a]]| >= 2 <==> exists c :: c != a && Joined(free, edges, a, c))
  {
    hide Connected;
    NeighbourIff(free, edges, a);
    var members := comps[root[a]];
    assert a in members;
    if |members| >= 2 {
      var c := if members[0] == a then members[1] else members[0];
      assert c in members && c != a;
      assert Connected(free, edges, a, c);
    }
    if c :| c != a && Joined(free, edges, a, c) {
      ConnectedEdge(free, edges, a, c);
      assert c in comps[root[c]];
    }
  }

  lemma NumberedIff(nodeIds: seq<Id>, root: map<nat, nat>, comps: map<nat, seq<nat>>, least: seq<Id>, base: nat, a: nat, group: int)
    requires MembersInRange(comps, |nodeIds|) && a in root && root[a] in comps
    requires ListsLeast(nodeIds, comps, least)
    requires Assigned(nodeIds, root, comps, least, |least|, base, a, group)
    ensures group == -1 <==> |comps[root[a]]| < 2
    ensures group != -1 ==> base <= group < base + |least| && Named(nodeIds, comps, root[a], least[group - base])
  {
    hide MinId;
    if |comps[root[a]]| >= 2 {
      var x := MinId(nodeIds, comps[root[a]]);
      assert x in least;
      var q :| 0 <= q < |least| && least[q] == x;
      assert Named(nodeIds, comps, root[a], least[q]);
    }
  }

  /** Two free nodes get the same number exactly when they are connected. */
  lemma SameNumberIff(nodeIds: seq<Id>, edges: seq<(nat, nat)>, free: set<nat>, root: map<nat, nat>, comps: map<nat, seq<nat>>,
                      least: seq<Id>, base: nat, a: nat, b: nat, ga: int, gb: int)
    requires DistinctIds(nodeIds) && root.Keys == free && IsComponents(free, root, comps) && MembersInRange(comps, |nodeIds|)
    requires RootsConnect(free, edges, root) && Ascending(least)
    requires ListsLeast(nodeIds, comps, least)
    requires a in free && b in free && a != b
    requires Assigned(nodeIds, root, comps, least, |least|, base, a, ga) && Assigned(nodeIds, root, comps, least, |least|, base, b, gb)
    ensures PairGrouped(free, edges, a, b, ga, gb)
  {
    hide MinId, Connected, Assigned;
    assert a in comps[root[a]] && b in comps[root[b]];
    NumberedIff(nodeIds, root, comps, least, base, a, ga);
    NumberedIff(nodeIds, root, comps, least, base, b, gb);
    if ga != -1 && ga == gb {
      LeastIdsDiffer(nodeIds, free, root, comps, root[a], root[b]);
    }
    if root[a] == root[b] {
      var members := comps[root[a]];
      TwoMembers(members, a, b);
      assert least[ga - base] == least[gb - base];
    }
  }

  lemma TwoMembers(s: seq<nat>, a: nat, b: nat)
    requires a in s && b in s && a != b
    ensures |s| >= 2
  {
  }

  /** The name of an association is the least node id connected to its members. */
  lemma NameIsLeast(nodeIds: seq<Id>, edges: seq<(nat, nat)>, free: set<nat>, root: map<nat, nat>, comps: map<nat, seq<nat>>, a: nat, x: Id)
    requires root.Keys == free && IsComponents(free, root, comps) && MembersInRange(comps, |nodeIds|)
    requires RootsConnect(free, edges, root) && (forall i :: i in free ==> i < |nodeIds|)
    requires a in free && Named(nodeIds, comps, root[a], x)
    ensures exists b :: b in free && Connected(free, edges, a, b) && nodeIds[b] == x
    ensures forall b :: b in free && Connected(free, edges, a, b) ==> x <= nodeIds[b]
  {
    hide MinId, Connected;
    var b := LeastMember(nodeIds, comps[root[a]]);
    assert b in free && root[b] == root[a];
    forall c | c in free && Connected(free, edges, a, c) ensures x <= nodeIds[c] {
      assert c in comps[root[a]];
    }
  }

  lemma NodeIsGrouped(nodeIds: seq<Id>, edges: seq<(nat, nat)>, free: set<nat>, root: map<nat, nat>, comps: map<nat, seq<nat>>,
                      least: seq<Id>, keys: seq<Key>, base: nat, a: nat, group: int)
    requires root.Keys == free && IsComponents(free, root, comps) && MembersInRange(comps, |nodeIds|)
    requires RootsConnect(free, edges, root) && (forall i :: i in free ==> i < |nodeIds|)
    requires ListsLeast(nodeIds, comps, least)
    requires |keys| == base + |least| && forall k :: 0 <= k < |least| ==> keys[base + k] == Assoc(least[k])
    requires a in free && Assigned(nodeIds, root, comps, least, |least|, base, a, group)
    ensures NodeGrouped(nodeIds, free, edges, keys, a, group)
  {
    hide MinId, Assigned, IsComponents, RootsConnect, Connected, ListsLeast, Joined, Named;
    CompanyIff(edges, free, root, comps, a);
    NumberedIff(nodeIds, root, comps, least, base, a, group);
    if group != -1 {
      NameIsLeast(nodeIds, edges, free, root, comps, a, least[group - base]);
      assert keys[base + (group - base)] == Assoc(least[group - base]);
    }
  }

  lemma NothingToGroup(nodeIds: seq<Id>, free: set<nat>, edges: seq<(nat, nat)>, keys: seq<Key>)
    requires (free == {} || |edges| == 0) && forall i :: i in free ==> i < |nodeIds|
    ensures forall a, b :: a in free && b in free && a != b ==> PairGrouped(free, edges, a, b, -1, -1)
    ensures forall a :: a in free ==> NodeGrouped(nodeIds, free, edges, keys, a, -1)
  {
    hide Connected;
    forall a, b | a in free && b in free && a != b ensures PairGrouped(free, edges, a, b, -1, -1) {
      NeighbourIff(free, edges, a);
    }
  }

  /** The clusters in ascending order, and each node's place among them. */
  method ClusterCodes(clusters: seq<Option<nat>>) returns (names: seq<nat>, codes: array<int>)
    ensures Ascending(names) && fresh(codes) && codes.Length == |clusters|
    ensures forall j :: 0 <= j < |clusters| && clusters[j].Some? ==> 0 <= codes[j] < |names| && names[codes[j]] == clusters[j].value
    ensures forall j :: 0 <= j < |clusters| && clusters[j].None? ==> codes[j] == -1
  {
    var n := |clusters|;
    names := SortedSet(set i | 0 <= i < n && clusters[i].Some? :: clusters[i].value);
    codes := new int[n](_ => -1);
    for i := 0 to n
      invariant forall j :: 0 <= j < i && clusters[j].Some? ==> 0 <= codes[j] < |names| && names[codes[j]] == clusters[j].value
      invariant forall j :: 0 <= j < n && (clusters[j].None? || i <= j) ==> codes[j] == -1
    {
      if clusters[i].Some? {
        codes[i] := IndexOf(names, clusters[i].value);
      }
    }
  }

  /** Clusters and virtual associations. */
  method AssignGroups(nodeIds: seq<Id>, clusters: seq<Option<nat>>, edges: seq<(nat, nat)>) returns (groupOf: seq<int>, keys: seq<Key>)
    requires |nodeIds| == |clusters| && DistinctIds(nodeIds)
    ensures IsGrouping(nodeIds, clusters, edges, groupOf, keys)
    ensures KeysOrdered(keys)
  {
    hide MinId, Assigned, IsComponents, RootsConnect, Connected, ListsLeast, PairGrouped, NodeGrouped;
    var n := |clusters|;
    var names, codes := ClusterCodes(clusters);
    keys := seq(|names|, k requires 0 <= k < |names| => Cluster(names[k]));
    var free := set i | 0 <= i < n && clusters[i].None?;
    assert free == FreeNodes(clusters);
    if free == {} || |edges| == 0 {
      groupOf := codes[..];
      NothingToGroup(nodeIds, free, edges, keys);
      return;
    }
    var root := Roots(free, edges);
    var comps := Components(free, root);
    ComponentsInRange(free, root, comps, n);
    var least := AssociationKeys(nodeIds, comps);
    NumberAssociations(nodeIds, free, root, comps, least, |names|, codes);
    keys := keys + seq(|least|, k requires 0 <= k < |least| => Assoc(least[k]));
    groupOf := codes[..];
    forall a, b | a in free && b in free && a != b
      ensures PairGrouped(free, edges, a, b, groupOf[a], groupOf[b])
    {
      SameNumberIff(nodeIds, edges, free, root, comps, least, |names|, a, b, groupOf[a], groupOf[b]);
    }
    forall a | a in free ensures NodeGrouped(nodeIds, free, edges, keys, a, groupOf[a]) {
      NodeIsGrouped(nodeIds, edges, free, root, comps, least, keys, |names|, a, groupOf[a]);
    }
  }

  lemma ComponentsInRange(free: set<nat>, root: map<nat, nat>, comps: map<nat, seq<nat>>, n: nat)
    requires root.Keys == free && IsComponents(free, root, comps) && forall i :: i in free ==> i < n
    ensures MembersInRange(comps, n)
  {
    forall r, k | r in comps && 0 <= k < |comps[r]| ensures comps[r][k] < n {
      var b := comps[r][k];
      assert b in comps[r];
      assert b in free;
    }
  }
}
