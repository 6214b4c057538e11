/** Supersession chains: what the two link columns mean, and what GET_HISTORY returns. */
module VersionChains {
  import opened Options
  import opened Schema

  /** `supersedes` and `superseded_by` are inverse partial maps, and `version` grows by one along them. */
  ghost predicate Linked(m: map<Id, Granule>) {
    && (forall b {:trigger m[b].supersedes} :: b in m && m[b].supersedes.Some? ==>
          var a := m[b].supersedes.value;
          a in m && m[a].supersededBy == Some(b) && m[b].version == m[a].version + 1)
    && (forall a {:trigger m[a].supersededBy} :: a in m && m[a].supersededBy.Some? ==>
          var b := m[a].supersededBy.value;
          b in m && m[b].supersedes == Some(a))
  }

  /** A superseded row ends where its successor begins; every other row is a tail. */
  ghost predicate Windows(m: map<Id, Granule>, now: Instant) {
    && (forall g {:trigger m[g].validFrom} :: g in m ==>
          m[g].validFrom <= now && (m[g].validTo.Some? ==> m[g].validFrom <= m[g].validTo.value <= now))
    && (forall g {:trigger m[g].status} :: g in m ==>
          && (m[g].status.Superseded? <==> m[g].supersededBy.Some?)
          && (m[g].status.Asserted? ==> m[g].validTo.None?))
    && (forall g {:trigger m[g].supersededBy} :: g in m && m[g].supersededBy.Some? ==>
          var b := m[g].supersededBy.value;
          b in m && m[g].validTo == Some(m[b].validFrom))
  }

  ghost predicate ChainInv(m: map<Id, Granule>, now: Instant) {
    Linked(m) && Windows(m, now) && HashesUnique(m)
  }

  /** The granule n links towards older versions, if the chain is that long. */
  ghost function Ancestor(m: map<Id, Granule>, id: Id, n: nat): Option<Id>
    requires Linked(m) && id in m
    ensures Ancestor(m, id, n).Some? ==> Ancestor(m, id, n).value in m
    decreases n
  {
    if n == 0 then Some(id)
    else if m[id].supersedes.None? then None
    else Ancestor(m, m[id].supersedes.value, n - 1)
  }

  lemma {:induction false} AncestorVersion(m: map<Id, Granule>, id: Id, n: nat)
    requires Linked(m) && id in m && Ancestor(m, id, n).Some?
    ensures m[id].version == m[Ancestor(m, id, n).value].version + n
    decreases n
  {
    if n > 0 {
      AncestorVersion(m, m[id].supersedes.value, n - 1);
    }
  }

  /** No granule is its own ancestor. */
  lemma Acyclic(m: map<Id, Granule>, id: Id, n: nat)
    requires Linked(m) && id in m && n > 0
    ensures Ancestor(m, id, n) != Some(id)
  {
    if Ancestor(m, id, n).Some? {
      AncestorVersion(m, id, n);
    }
  }

  /** No granule gains two successors, and none replaces two. */
  lemma OneSuccessor(m: map<Id, Granule>, a: Id, b: Id, c: Id)
    requires Linked(m) && a in m && b in m && c in m
    requires m[b].supersedes == Some(a) && m[c].supersedes == Some(a)
    ensures b == c
  {
    assert m[a].supersededBy == Some(b);
  }

  // --- GET_HISTORY ----------------------------------------------------

  /** The `backwards` CTE: the rows reached through supersedes, with dist 0, -1, -2, ... */
  ghost function Backwards(m: map<Id, Granule>, id: Id, dist: int): set<(Id, int)>
    requires Linked(m) && id in m
    decreases m[id].version
  {
    {(id, dist)} + if m[id].supersedes.Some? then Backwards(m, m[id].supersedes.value, dist - 1) else {}
  }

  ghost function Newer(m: map<Id, Granule>, id: Id): set<Id>
    requires id in m
  {
    set g | g in m && m[g].version > m[id].version
  }

  lemma NewerShrinks(m: map<Id, Granule>, a: Id)
    requires Linked(m) && a in m && m[a].supersededBy.Some?
    ensures m[a].supersededBy.value in m && Newer(m, m[a].supersededBy.value) < Newer(m, a)
  {
    var b := m[a].supersededBy.value;
    assert b in Newer(m, a) && b !in Newer(m, b);
  }

  /** The `forwards` CTE. */
  ghost function Forwards(m: map<Id, Granule>, id: Id, dist: int): set<(Id, int)>
    requires Linked(m) && id in m
    decreases Newer(m, id)
  {
    {(id, dist)} +
    if m[id].supersededBy.Some? then
      NewerShrinks(m, id);
      Forwards(m, m[id].supersededBy.value, dist + 1)
    else {}
  }

  /** GROUP BY id with min(dist) over both CTEs. */
  ghost predicate MinDist(m: map<Id, Granule>, start: Id, id: Id, dist: int)
    requires Linked(m) && start in m
  {
    var rows := Backwards(m, start, 0) + Forwards(m, start, 0);
    (id, dist) in rows && forall d :: (id, d) in rows ==> dist <= d
  }

  /** A result of GET_HISTORY: each id of the CTEs once, in ascending dist. */
  ghost predicate IsHistory(m: map<Id, Granule>, start: Id, h: seq<Id>)
    requires Linked(m) && start in m
  {
    && (forall id :: id in h <==> exists d :: MinDist(m, start, id, d))
    && (forall i, j :: 0 <= i < j < |h| ==> h[i] != h[j])
    && (forall i, j, c, d :: 0 <= i < j < |h| && MinDist(m, start, h[i], c) && MinDist(m, start, h[j], d) ==> c <= d)
  }

  /** The oldest version of a chain. */
  ghost function Root(m: map<Id, Granule>, id: Id): (root: Id)
    requires Linked(m) && id in m
    ensures root in m && m[root].supersedes.None?
    decreases m[id].version
  {
    if m[id].supersedes.None? then id else Root(m, m[id].supersedes.value)
  }

  /** The versions from `id` on, oldest first. */
  ghost function Line(m: map<Id, Granule>, id: Id): (line: seq<Id>)
    requires Linked(m) && id in m
    ensures |line| > 0 && line[0] == id
    ensures forall i :: 0 <= i < |line| ==> line[i] in m && m[line[i]].version == m[id].version + i
    ensures forall i :: 0 <= i < |line| - 1 ==> m[line[i]].supersededBy == Some(line[i + 1])
    ensures m[line[|line| - 1]].supersededBy.None?
    decreases Newer(m, id)
  {
    if m[id].supersededBy.None? then [id]
    else
      NewerShrinks(m, id);
      [id] + Line(m, m[id].supersededBy.value)
  }

  /** A whole chain, oldest to newest. */
  ghost function Chain(m: map<Id, Granule>, id: Id): seq<Id>
    requires Linked(m) && id in m
  {
    Line(m, Root(m, id))
  }

  /** Position of a version in its chain. */
  ghost function Place(m: map<Id, Granule>, id: Id): int
    requires Linked(m) && id in m
  {
    m[id].version - m[Root(m, id)].version
  }

  lemma {:induction false} PlacedInChain(m: map<Id, Granule>, id: Id)
    requires Linked(m) && id in m
    ensures 0 <= Place(m, id) < |Chain(m, id)|
    ensures Chain(m, id)[Place(m, id)] == id
    ensures Chain(m, id)[Place(m, id)..] == Line(m, id)
    decreases m[id].version
  {
    if m[id].supersedes.Some? {
      var p := m[id].supersedes.value;
      PlacedInChain(m, p);
      var c, k := Chain(m, id), Place(m, id);
      assert c[k - 1..] == [p] + Line(m, id);
      assert c[k..] == c[k - 1..][1..] == Line(m, id);
    }
  }

  lemma {:induction false} BackwardsRows(m: map<Id, Granule>, id: Id, dist: int, x: Id, d: int)
    requires Linked(m) && id in m
    ensures 0 <= Place(m, id) < |Chain(m, id)|
    ensures (x, d) in Backwards(m, id, dist) <==>
            exists j :: 0 <= j <= Place(m, id) && Chain(m, id)[j] == x && d == dist + j - Place(m, id)
    decreases m[id].version
  {
    PlacedInChain(m, id);
    var k := Place(m, id);
    if m[id].supersedes.Some? {
      BackwardsRows(m, m[id].supersedes.value, dist - 1, x, d);
      assert (x, d) == (id, dist) ==> Chain(m, id)[k] == x && d == dist + k - k;
    } else {
      assert k == 0;
    }
  }

  lemma {:induction false} ForwardsRows(m: map<Id, Granule>, id: Id, dist: int, x: Id, d: int)
    requires Linked(m) && id in m
    ensures (x, d) in Forwards(m, id, dist) <==>
            exists j :: 0 <= j < |Line(m, id)| && Line(m, id)[j] == x && d == dist + j
    decreases Newer(m, id)
  {
    var line := Line(m, id);
    assert line[0] == id;
    if m[id].supersededBy.Some? {
      NewerShrinks(m, id);
      var b := m[id].supersededBy.value;
      ForwardsRows(m, b, dist + 1, x, d);
      var rest := Line(m, b);
      assert line == [id] + rest;
      if j :| 0 <= j < |rest| && rest[j] == x && d == dist + 1 + j {
        assert line[j + 1] == x && d == dist + (j + 1);
      }
      if j :| 0 <= j < |line| && line[j] == x && d == dist + j {
        if j > 0 {
          assert rest[j - 1] == x && d == dist + 1 + (j - 1);
        }
      }
    }
  }

  /** The rows of both CTEs: every member of the chain once, at its place relative to the start. */
  lemma HistoryRows(m: map<Id, Granule>, start: Id, x: Id, d: int)
    requires Linked(m) && start in m
    ensures (x, d) in Backwards(m, start, 0) + Forwards(m, start, 0) <==>
            exists j :: 0 <= j < |Chain(m, start)| && Chain(m, start)[j] == x && d == j - Place(m, start)
  {
    var c, k := Chain(m, start), Place(m, start);
    BackwardsRows(m, start, 0, x, d);
    ForwardsInChain(m, start, x, d);
  }

  lemma ForwardsInChain(m: map<Id, Granule>, start: Id, x: Id, d: int)
    requires Linked(m) && start in m
    ensures 0 <= Place(m, start) < |Chain(m, start)|
    ensures (x, d) in Forwards(m, start, 0) <==>
            exists j :: Place(m, start) <= j < |Chain(m, start)| && Chain(m, start)[j] == x && d == j - Place(m, start)
  {
    PlacedInChain(m, start);
    ForwardsRows(m, start, 0, x, d);
    ShiftedSearch(Chain(m, start), Line(m, start), Place(m, start), x, d);
  }

  lemma ShiftedSearch(c: seq<Id>, line: seq<Id>, k: nat, x: Id, d: int)
    requires k <= |c| && line == c[k..]
    ensures (exists j :: 0 <= j < |line| && line[j] == x && d == 0 + j) <==>
            (exists j :: k <= j < |c| && c[j] == x && d == j - k)
  {
    if j :| k <= j < |c| && c[j] == x && d == j - k {
      assert line[j - k] == x && d == 0 + (j - k);
    }
    if j :| 0 <= j < |line| && line[j] == x && d == 0 + j {
      assert c[k + j] == x && d == (k + j) - k;
    }
  }

  /** The dist GET_HISTORY sorts by is the position in the chain, shifted by the start's own. */
  lemma DistIsPlace(m: map<Id, Granule>, start: Id, x: Id, d: int)
    requires Linked(m) && start in m
    ensures MinDist(m, start, x, d) <==>
            exists j :: 0 <= j < |Chain(m, start)| && Chain(m, start)[j] == x && d == j - Place(m, start)
  {
    HistoryRows(m, start, x, d);
    forall e | (x, e) in Backwards(m, start, 0) + Forwards(m, start, 0)
      ensures x in m && m[x].version == m[Root(m, start)].version + Place(m, start) + e
    {
      HistoryRows(m, start, x, e);
    }
  }

  ghost predicate Ascending(m: map<Id, Granule>, s: seq<Id>) {
    && (forall i :: 0 <= i < |s| ==> s[i] in m)
    && (forall i, j :: 0 <= i < j < |s| ==> m[s[i]].version < m[s[j]].version)
  }

  /** Two listings of one set in strictly ascending version order agree. */
  lemma {:induction false} SortedAlike(m: map<Id, Granule>, h: seq<Id>, c: seq<Id>, n: nat)
    requires n <= |h| && n <= |c|
    requires forall id :: id in h <==> id in c
    requires Ascending(m, h) && Ascending(m, c)
    ensures forall i :: 0 <= i < n ==> h[i] == c[i]
  {
    if n > 0 {
      SortedAlike(m, h, c, n - 1);
      var i := n - 1;
      assert h[i] in c && c[i] in h;
      var p :| 0 <= p < |c| && c[p] == h[i];
      var q :| 0 <= q < |h| && h[q] == c[i];
      assert p >= i && q >= i;
    }
  }

  lemma NoLonger(m: map<Id, Granule>, h: seq<Id>, c: seq<Id>)
    requires forall id :: id in h <==> id in c
    requires Ascending(m, h) && Ascending(m, c)
    ensures |h| >= |c|
  {
    if |h| < |c| {
      assert c[|h|] in h;
      var q :| 0 <= q < |h| && h[q] == c[|h|];
      SortedAlike(m, h, c, |h|);
    }
  }

  lemma SortedSame(m: map<Id, Granule>, h: seq<Id>, c: seq<Id>)
    requires forall id :: id in h <==> id in c
    requires Ascending(m, h) && Ascending(m, c)
    ensures h == c
  {
    NoLonger(m, h, c);
    NoLonger(m, c, h);
    SortedAlike(m, h, c, |h|);
  }

  lemma HistoryIsSorted(m: map<Id, Granule>, start: Id, h: seq<Id>)
    requires Linked(m) && start in m && IsHistory(m, start, h)
    ensures forall id :: id in h <==> id in Chain(m, start)
    ensures Ascending(m, h)
  {
    var c, k := Chain(m, start), Place(m, start);
    forall id ensures id in h <==> id in c {
      if d :| MinDist(m, start, id, d) {
        DistIsPlace(m, start, id, d);
      }
      if j :| 0 <= j < |c| && c[j] == id {
        DistIsPlace(m, start, id, j - k);
      }
    }
    assert forall i :: 0 <= i < |h| ==> h[i] in c;
    forall i, j | 0 <= i < j < |h| ensures m[h[i]].version < m[h[j]].version {
      assert h[i] in c && h[j] in c;
      var p :| 0 <= p < |c| && c[p] == h[i];
      var q :| 0 <= q < |c| && c[q] == h[j];
      DistIsPlace(m, start, h[i], p - k);
      DistIsPlace(m, start, h[j], q - k);
      assert p <= q;
    }
  }

  lemma ChainIsHistory(m: map<Id, Granule>, start: Id)
    requires Linked(m) && start in m
    ensures IsHistory(m, start, Chain(m, start))
  {
    var c, k := Chain(m, start), Place(m, start);
    forall id ensures id in c <==> exists d :: MinDist(m, start, id, d) {
      if d :| MinDist(m, start, id, d) {
        DistIsPlace(m, start, id, d);
      }
      if j :| 0 <= j < |c| && c[j] == id {
        DistIsPlace(m, start, id, j - k);
      }
    }
    forall i, j, d, e | 0 <= i < j < |c| && MinDist(m, start, c[i], d) && MinDist(m, start, c[j], e)
      ensures d <= e
    {
      DistIsPlace(m, start, c[i], d);
      DistIsPlace(m, start, c[j], e);
    }
  }

  /** Whatever member GET_HISTORY starts from, it returns the whole chain, oldest to newest, and nothing else. */
  lemma HistoryIsChain(m: map<Id, Granule>, start: Id, h: seq<Id>)
    requires Linked(m) && start in m
    ensures IsHistory(m, start, h) <==> h == Chain(m, start)
  {
    ChainIsHistory(m, start);
    if IsHistory(m, start, h) {
      HistoryIsSorted(m, start, h);
      SortedSame(m, h, Chain(m, start));
    }
  }

  /** Any two members of a chain see the same history. */
  lemma HistoryFromAnyMember(m: map<Id, Granule>, a: Id, b: Id, h: seq<Id>)
    requires Linked(m) && a in m && b in m
    requires b in Chain(m, a)
    ensures IsHistory(m, a, h) <==> IsHistory(m, b, h)
  {
    HistoryIsChain(m, a, h);
    HistoryIsChain(m, b, h);
    var c := Chain(m, a);
    var i :| 0 <= i < |c| && c[i] == b;
    SameRoot(m, Root(m, a), i);
  }

  lemma {:induction false} SameRoot(m: map<Id, Granule>, root: Id, i: nat)
    requires Linked(m) && root in m && m[root].supersedes.None?
    requires i < |Line(m, root)|
    ensures Root(m, Line(m, root)[i]) == root
  {
    if i > 0 {
      SameRoot(m, root, i - 1);
      assert m[Line(m, root)[i]].supersedes == Some(Line(m, root)[i - 1]);
    }
  }

  /** valid_from <= t < valid_to. */
  predicate ValidAt(g: Granule, t: Instant) {
    g.validFrom <= t && (g.validTo.Some? ==> t < g.validTo.value)
  }

  /** The windows of a chain abut: each version ends exactly where the next begins, in order of time. */
  lemma {:induction false} WindowsAbut(m: map<Id, Granule>, now: Instant, id: Id, i: nat, j: nat)
    requires ChainInv(m, now) && id in m && i < j < |Chain(m, id)|
    ensures m[Chain(m, id)[i]].validTo == Some(m[Chain(m, id)[i + 1]].validFrom)
    ensures m[Chain(m, id)[i]].validTo.value <= m[Chain(m, id)[j]].validFrom
  {
    var c := Chain(m, id);
    assert m[c[i]].supersededBy == Some(c[i + 1]);
    if j > i + 1 {
      WindowsAbut(m, now, id, i, j - 1);
      assert m[c[j - 1]].supersededBy == Some(c[j]);
    }
  }

  /** At most one version of a chain is valid at any instant. */
  lemma OneValidVersion(m: map<Id, Granule>, now: Instant, id: Id, a: Id, b: Id, t: Instant)
    requires ChainInv(m, now) && id in m && a in Chain(m, id) && b in Chain(m, id)
    requires ValidAt(m[a], t) && ValidAt(m[b], t)
    ensures a == b
  {
    var c := Chain(m, id);
    var i :| 0 <= i < |c| && c[i] == a;
    var j :| 0 <= j < |c| && c[j] == b;
    if i < j {
      WindowsAbut(m, now, id, i, j);
    } else if j < i {
      WindowsAbut(m, now, id, j, i);
    }
  }
}
