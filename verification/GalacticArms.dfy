/**
 cut_into_arms of galactic_layout.py: the vertex order is cut into four
 contiguous arms where few edges cross and the mass is balanced.
 */
module GalacticArms {
  import opened Options
  import opened RealFacts
  import opened RealSeqs
  import opened Sorting

  const N_ARMS := 4

  /** A nonzero entry above the diagonal of the adjacency matrix. */
  datatype Link = Link(row: nat, col: nat, w: real)

  ghost predicate Matrix(adj: seq<seq<real>>) {
    forall r :: 0 <= r < |adj| ==> |adj[r]| == |adj| && forall c :: 0 <= c < |adj| ==> 0.0 <= adj[r][c]
  }

  ghost predicate IsLink(adj: seq<seq<real>>, l: Link)
    requires Matrix(adj)
  {
    l.row < l.col < |adj| && l.w == adj[l.row][l.col] > 0.0
  }

  /** The links of row r to columns below c, by ascending column. */
  ghost function RowList(adj: seq<seq<real>>, r: nat, c: nat): (links: seq<Link>)
    requires Matrix(adj) && r < c <= |adj|
    ensures forall k :: 0 <= k < |links| ==> IsLink(adj, links[k])
    ensures forall l: Link :: l in links <==> l.row == r && l.col < c && IsLink(adj, l)
  {
    if c == r + 1 then []
    else RowList(adj, r, c - 1) + if adj[r][c - 1] > 0.0 then [Link(r, c - 1, adj[r][c - 1])] else []
  }

  /** The links of the rows below r: np.nonzero(np.triu(adjacency, k=1)) lists each nonzero pair once, by row. */
  ghost function UpperList(adj: seq<seq<real>>, r: nat): (links: seq<Link>)
    requires Matrix(adj) && r <= |adj|
    ensures forall k :: 0 <= k < |links| ==> IsLink(adj, links[k])
    ensures forall l: Link :: l in links <==> l.row < r && IsLink(adj, l)
  {
    if r == 0 then [] else UpperList(adj, r - 1) + RowList(adj, r - 1, |adj|)
  }

  method UpperLinks(adj: seq<seq<real>>) returns (links: seq<Link>)
    requires Matrix(adj)
    ensures links == UpperList(adj, |adj|)
  {
    links := [];
    for r := 0 to |adj|
      invariant links == UpperList(adj, r)
    {
      var row := [];
      for c := r + 1 to |adj|
        invariant row == RowList(adj, r, c)
      {
        if adj[r][c] > 0.0 {
          row := row + [Link(r, c, adj[r][c])];
        }
      }
      links := links + row;
    }
  }

  ghost predicate DistinctBelow(order: seq<nat>, n: nat) {
    && (forall i :: 0 <= i < |order| ==> order[i] < n)
    && (forall i, j :: 0 <= i < j < |order| ==> order[i] != order[j])
  }

  /** ranks[order[i]] == i, and -1 outside the order. */
  ghost predicate IsRanks(order: seq<nat>, n: nat, ranks: seq<int>) {
    && |ranks| == n && (forall i :: 0 <= i < |order| ==> order[i] < n)
    && (forall i :: 0 <= i < |order| ==> ranks[order[i]] == i)
    && (forall v: nat :: v < n && v !in order ==> ranks[v] == -1)
  }

  method RanksOf(order: seq<nat>, n: nat) returns (ranks: seq<int>)
    requires DistinctBelow(order, n)
    ensures IsRanks(order, n, ranks)
  {
    var a := new int[n](_ => -1);
    for i := 0 to |order|
      invariant forall j :: 0 <= j < i ==> a[order[j]] == j
      invariant forall v: nat :: v < n && v !in order[..i] ==> a[v] == -1
    {
      a[order[i]] := i;
    }
    assert order[..|order|] == order;
    ranks := a[..];
  }

  function Lower(a: int, b: int): int {
    if a < b then a else b
  }

  function Upper(a: int, b: int): int {
    if a < b then b else a
  }

  /** The weight of the links that cross between positions p and p+1 of the order. */
  ghost function Crossing(links: seq<Link>, ranks: seq<int>, p: int): real
    requires forall k :: 0 <= k < |links| ==> links[k].row < |ranks| && links[k].col < |ranks|
  {
    if |links| == 0 then 0.0
    else
      var l := links[|links| - 1];
      var a, b := ranks[l.row], ranks[l.col];
      Crossing(links[..|links| - 1], ranks, p) + if Lower(a, b) <= p < Upper(a, b) then l.w else 0.0
  }

  /** diff with the events of every link: +w where it opens, -w where it closes. */
  ghost function Events(links: seq<Link>, ranks: seq<int>, n: nat): (diff: seq<real>)
    requires forall k :: 0 <= k < |links| ==>
      links[k].row < |ranks| && links[k].col < |ranks| && 0 <= ranks[links[k].row] < n && 0 <= ranks[links[k].col] < n
    ensures |diff| == n
  {
    if |links| == 0 then Zeros(n)
    else
      var l := links[|links| - 1];
      var diff := Events(links[..|links| - 1], ranks, n);
      var lo, hi := Lower(ranks[l.row], ranks[l.col]), Upper(ranks[l.row], ranks[l.col]);
      var begun := diff[lo := diff[lo] + l.w];
      begun[hi := begun[hi] - l.w]
  }

  lemma PrefixUpdate(diff: seq<real>, i: nat, w: real, p: nat)
    requires i < |diff| && p < |diff|
    ensures Sum(diff[i := diff[i] + w][..p + 1]) == Sum(diff[..p + 1]) + if i <= p then w else 0.0
  {
    if i <= p {
      assert diff[i := diff[i] + w][..p + 1] == diff[..p + 1][i := diff[i] + w];
      SumUpdate(diff[..p + 1], i, diff[i] + w);
    } else {
      assert diff[i := diff[i] + w][..p + 1] == diff[..p + 1];
    }
  }

  /** The prefix sums of the difference array are the crossing weights. */
  lemma {:induction false} PrefixIsCrossing(links: seq<Link>, ranks: seq<int>, n: nat, p: nat)
    requires forall k :: 0 <= k < |links| ==>
      links[k].row < |ranks| && links[k].col < |ranks| && 0 <= ranks[links[k].row] < n && 0 <= ranks[links[k].col] < n
    requires p < n
    ensures Sum(Events(links, ranks, n)[..p + 1]) == Crossing(links, ranks, p)
  {
    hide Sum;
    if |links| == 0 {
      SumZeros(Zeros(n)[..p + 1]);
    } else {
      var l := links[|links| - 1];
      var rest := links[..|links| - 1];
      PrefixIsCrossing(rest, ranks, n, p);
      var diff := Events(rest, ranks, n);
      var lo, hi := Lower(ranks[l.row], ranks[l.col]), Upper(ranks[l.row], ranks[l.col]);
      PrefixUpdate(diff, lo, l.w, p);
      var begun := diff[lo := diff[lo] + l.w];
      PrefixUpdate(begun, hi, -l.w, p);
    }
  }

  /** np.add.at(diff, lo, w); np.add.at(diff, hi, -w); np.cumsum(diff)[:-1] */
  method CutProfile(links: seq<Link>, ranks: seq<int>, n: nat) returns (cut: seq<real>)
    requires n > 0
    requires forall k :: 0 <= k < |links| ==>
      links[k].row < |ranks| && links[k].col < |ranks| && 0 <= ranks[links[k].row] < n && 0 <= ranks[links[k].col] < n
    ensures |cut| == n - 1
    ensures forall p :: 0 <= p < n - 1 ==> cut[p] == Crossing(links, ranks, p)
  {
    var diff := new real[n](_ => 0.0);
    assert diff[..] == Zeros(n);
    for k := 0 to |links|
      invariant diff[..] == Events(links[..k], ranks, n)
    {
      assert links[..k + 1][..k] == links[..k];
      var lo, hi := Lower(ranks[links[k].row], ranks[links[k].col]), Upper(ranks[links[k].row], ranks[links[k].col]);
      diff[lo] := diff[lo] + links[k].w;
      diff[hi] := diff[hi] - links[k].w;
    }
    assert links[..|links|] == links;
    var d := diff[..];
    cut := [];
    var running := 0.0;
    for p := 0 to n - 1
      invariant |cut| == p && running == Sum(d[..p])
      invariant forall q :: 0 <= q < p ==> cut[q] == Sum(d[..q + 1])
    {
      assert d[..p + 1][..p] == d[..p];
      running := running + d[p];
      cut := cut + [running];
    }
    forall p | 0 <= p < n - 1 ensures cut[p] == Crossing(links, ranks, p) {
      PrefixIsCrossing(links, ranks, n, p);
    }
  }

  // --- Choosing the cuts ------------------------------------------------------

  /** np.searchsorted(cum, t): the first position not below t. */
  function SearchSorted(cum: seq<real>, t: real): (i: nat)
    ensures i <= |cum| && (forall j :: 0 <= j < i ==> cum[j] < t) && (i < |cum| ==> t <= cum[i])
  {
    if |cum| == 0 then 0
    else
      var i := SearchSorted(cum[..|cum| - 1], t);
      if i < |cum| - 1 then i else if cum[|cum| - 1] < t then |cum| else |cum| - 1
  }

  /** What the choice of cuts looks at: the normalised cut profile, the cumulative mass, a quarter of the total. */
  datatype Profile = Profile(cut: seq<real>, cum: seq<real>, quarter: real)

  ghost predicate ProfileOk(f: Profile) {
    |f.cum| > 1 && |f.cut| == |f.cum| - 1 && f.quarter > 0.0
  }

  function Aim(f: Profile, k: nat): real {
    f.quarter * k as real
  }

  /** The positions considered for cut k, as a half-open range: ±5% of a quarter around the target, or its neighbours. */
  function Window(f: Profile, k: nat): (w: (nat, int))
    requires |f.cum| > 1
    ensures w.1 <= |f.cum| - 1
  {
    var n := |f.cum|;
    var slack := 0.05 * f.quarter;
    var lo := SearchSorted(f.cum, Aim(f, k) - slack);
    var hi := Lower(n - 2, SearchSorted(f.cum, Aim(f, k) + slack) - 1);
    if hi < lo then
      var mid := SearchSorted(f.cum, Aim(f, k));
      (if mid > 0 then mid - 1 else 0, Lower(n - 2, mid) + 1)
    else (lo, hi + 1)
  }

  function Score(f: Profile, k: nat, p: nat): real
    requires p < |f.cut| && p < |f.cum| && f.quarter > 0.0
  {
    f.cut[p] + 4.0 * Abs(f.cum[p] - Aim(f, k)) / f.quarter
  }

  function MinGap(n: nat): nat {
    if n / (N_ARMS * 2) > 1 then n / (N_ARMS * 2) else 1
  }

  function Gap(a: nat, b: nat): nat {
    if a < b then b - a else a - b
  }

  predicate Allowed(cuts: seq<nat>, p: nat, gap: nat) {
    forall c :: c in cuts ==> Gap(p, c) >= gap
  }

  predicate InWindow(f: Profile, k: nat, p: nat)
    requires |f.cum| > 1
  {
    Window(f, k).0 <= p < Window(f, k).1
  }

  /** Where a cut goes when the window offers nothing. */
  function Fallback(f: Profile, k: nat): nat
    requires |f.cum| > 1
  {
    Lower(SearchSorted(f.cum, Aim(f, k)), |f.cum| - 2)
  }

  /** The k-th cut: the cheapest allowed position of its window, the leftmost of equals, or the fallback. */
  ghost predicate IsCut(f: Profile, cuts: seq<nat>, k: nat, p: nat)
    requires ProfileOk(f)
  {
    var gap := MinGap(|f.cum|);
    && p <= |f.cum| - 2
    && ((exists q :: InWindow(f, k, q) && Allowed(cuts, q, gap)) ==> InWindow(f, k, p) && Allowed(cuts, p, gap))
    && ((forall q: nat :: InWindow(f, k, q) ==> !Allowed(cuts, q, gap)) ==> p == Fallback(f, k))
    && (forall q: nat :: InWindow(f, k, p) && InWindow(f, k, q) && Allowed(cuts, q, gap) && Allowed(cuts, p, gap) ==>
          Score(f, k, p) < Score(f, k, q) || (Score(f, k, p) == Score(f, k, q) && p <= q))
  }

  method ChooseCut(f: Profile, cuts: seq<nat>, k: nat) returns (p: nat)
    requires ProfileOk(f)
    ensures IsCut(f, cuts, k, p)
  {
    hide Window, Score, Allowed, SearchSorted, Aim;
    var gap := MinGap(|f.cum|);
    var w := Window(f, k);
    var size := if w.1 > w.0 then w.1 - w.0 else 0;
    var scores := seq(size, i requires 0 <= i < size => Score(f, k, w.0 + i));
    var order := Argsort(scores);
    var j := 0;
    while j < |order| && !Allowed(cuts, w.0 + order[j], gap)
      invariant 0 <= j <= |order|
      invariant forall i :: 0 <= i < j ==> !Allowed(cuts, w.0 + order[i], gap)
    {
      j := j + 1;
    }
    forall q: nat | InWindow(f, k, q) && Allowed(cuts, q, gap)
      ensures j < |order| && exists i :: j <= i < |order| && order[i] == q - w.0
    {
      assert q - w.0 in order;
      var i :| 0 <= i < |order| && order[i] == q - w.0;
      assert w.0 + order[i] == q;
    }
    if j < |order| {
      p := w.0 + order[j];
      forall q: nat | InWindow(f, k, q) && Allowed(cuts, q, gap)
        ensures Score(f, k, p) < Score(f, k, q) || (Score(f, k, p) == Score(f, k, q) && p <= q)
      {
        var i :| j <= i < |order| && order[i] == q - w.0;
        assert j < i ==> Precedes(scores, order[j], order[i]);
      }
    } else {
      p := Fallback(f, k);
      assert forall q :: InWindow(f, k, q) ==> !Allowed(cuts, q, gap);
    }
  }

  // --- The arms ---------------------------------------------------------------

  /** The mass of each vertex in order: one apiece when no masses are given. */
  function Masses(order: seq<nat>, mass: Option<seq<real>>): (m: seq<real>)
    requires mass.Some? ==> forall i :: 0 <= i < |order| ==> order[i] < |mass.value|
    ensures |m| == |order|
  {
    seq(|order|, i requires 0 <= i < |order| => if mass.Some? then mass.value[order[i]] else 1.0)
  }

  ghost predicate PositiveMass(order: seq<nat>, mass: Option<seq<real>>) {
    mass.Some? ==> forall i :: 0 <= i < |order| ==> order[i] < |mass.value| && mass.value[order[i]] > 0.0
  }

  ghost predicate IsMax(s: seq<real>, m: real) {
    m in s && forall i :: 0 <= i < |s| ==> s[i] <= m
  }

  ghost predicate RanksFit(adj: seq<seq<real>>, n: nat, ranks: seq<int>)
    requires Matrix(adj)
  {
    && |ranks| == |adj|
    && (forall r, c :: 0 <= r < c < |adj| && adj[r][c] > 0.0 ==> 0 <= ranks[r] < n && 0 <= ranks[c] < n)
  }

  /** The weight crossing position p of the order. */
  ghost function CrossingAt(adj: seq<seq<real>>, ranks: seq<int>, p: int): real
    requires Matrix(adj) && |ranks| == |adj|
  {
    Crossing(UpperList(adj, |adj|), ranks, p)
  }

  /** norm_cut, cumulative and quarter. */
  ghost predicate IsProfile(adj: seq<seq<real>>, order: seq<nat>, mass: Option<seq<real>>, ranks: seq<int>, f: Profile)
    requires Matrix(adj) && PositiveMass(order, mass)
  {
    && IsRanks(order, |adj|, ranks)
    && ProfileOk(f) && |f.cum| == |order|
    && (forall i :: 0 <= i < |order| ==> f.cum[i] == Sum(Masses(order, mass)[..i + 1]))
    && f.quarter == Sum(Masses(order, mass)) / (N_ARMS as real)
    && exists cut, top ::
         IsMax(cut, top) && |cut| == |f.cut| && top >= 0.0
         && (forall p :: 0 <= p < |cut| ==> cut[p] == CrossingAt(adj, ranks, p))
         && (forall p :: 0 <= p < |cut| ==> f.cut[p] == cut[p] / (top + 0.000000001))
  }

  lemma {:induction false} CrossingNonNegative(links: seq<Link>, ranks: seq<int>, p: int)
    requires forall k :: 0 <= k < |links| ==> links[k].row < |ranks| && links[k].col < |ranks| && links[k].w > 0.0
    ensures Crossing(links, ranks, p) >= 0.0
  {
    if |links| > 0 {
      CrossingNonNegative(links[..|links| - 1], ranks, p);
    }
  }

  lemma {:induction false} SumPositive(s: seq<real>)
    requires |s| > 0 && forall i :: 0 <= i < |s| ==> s[i] > 0.0
    ensures Sum(s) > 0.0
  {
    if |s| > 1 {
      SumPositive(s[..|s| - 1]);
    }
  }

  method Maximum(s: seq<real>) returns (m: real)
    requires |s| > 0
    ensures IsMax(s, m)
  {
    m := s[0];
    for i := 1 to |s|
      invariant m in s && forall j :: 0 <= j < i ==> s[j] <= m
    {
      if s[i] > m {
        m := s[i];
      }
    }
  }

  method Cumulative(m: seq<real>) returns (cum: seq<real>)
    ensures |cum| == |m| && forall i :: 0 <= i < |m| ==> cum[i] == Sum(m[..i + 1])
  {
    cum := [];
    var running := 0.0;
    for i := 0 to |m|
      invariant |cum| == i && running == Sum(m[..i])
      invariant forall j :: 0 <= j < i ==> cum[j] == Sum(m[..j + 1])
    {
      assert m[..i + 1][..i] == m[..i];
      running := running + m[i];
      cum := cum + [running];
    }
  }

  /** The three cuts, each chosen against those before it. */
  ghost predicate AreCuts(f: Profile, cuts: seq<nat>)
    requires ProfileOk(f)
  {
    |cuts| == N_ARMS - 1 && forall k: nat :: k < N_ARMS - 1 ==> IsCut(f, cuts[..k], k + 1, cuts[k])
  }

  /** [-1] + sorted(cuts) + [n - 1] */
  ghost predicate AreBounds(n: nat, cuts: seq<nat>, bounds: seq<int>) {
    && |bounds| == N_ARMS + 1 && bounds[0] == -1 && bounds[N_ARMS] == n - 1
    && (forall a :: 0 <= a < N_ARMS ==> bounds[a] <= bounds[a + 1])
    && (forall a :: 1 <= a < N_ARMS ==> 0 <= bounds[a] <= n - 2)
    && multiset(bounds[1..N_ARMS]) == multiset(Ints(cuts))
  }

  function Ints(s: seq<nat>): (t: seq<int>)
    ensures |t| == |s| && forall i :: 0 <= i < |s| ==> t[i] == s[i]
  {
    seq(|s|, i requires 0 <= i < |s| => s[i])
  }

  /** The slot of position i of the segment (lo, hi]: evenly spread over [0, 1], or the middle when alone. */
  function Slot(lo: int, hi: int, i: int): real
    requires lo < i <= hi
  {
    if hi - lo > 1 then (i - lo - 1) as real / (hi - lo - 1) as real else 0.5
  }

  /** Arm a holds exactly the positions in (bounds[a], bounds[a+1]], with their slots. */
  ghost predicate ArmHolds(order: seq<nat>, bounds: seq<int>, a: nat, arm: seq<int>, slot: seq<real>)
    requires a + 1 < |bounds| && bounds[a] >= -1 && bounds[a + 1] < |order|
  {
    forall i :: bounds[a] < i <= bounds[a + 1] ==>
      order[i] < |arm| && order[i] < |slot| && arm[order[i]] == a
      && slot[order[i]] == Slot(bounds[a], bounds[a + 1], i)
  }

  /** Everything that has a link has a place in the order. */
  ghost predicate CoversLinks(adj: seq<seq<real>>, order: seq<nat>)
    requires Matrix(adj)
  {
    forall r: nat, c: nat {:trigger adj[r][c]} :: r < c < |adj| && adj[r][c] > 0.0 ==> r in order && c in order
  }

  lemma CoveredRanks(adj: seq<seq<real>>, order: seq<nat>, ranks: seq<int>)
    requires Matrix(adj) && CoversLinks(adj, order) && IsRanks(order, |adj|, ranks)
    ensures RanksFit(adj, |order|, ranks)
  {
    forall v: nat | v in order ensures v < |adj| && 0 <= ranks[v] < |order| {
      var i :| 0 <= i < |order| && order[i] == v;
      assert ranks[order[i]] == i;
    }
    hide IsRanks;
    forall r, c | 0 <= r < c < |adj| && adj[r][c] > 0.0 ensures 0 <= ranks[r] < |order| && 0 <= ranks[c] < |order| {
      assert r in order && c in order;
    }
  }

  lemma LinkFits(adj: seq<seq<real>>, ranks: seq<int>, n: nat, l: Link)
    requires Matrix(adj) && RanksFit(adj, n, ranks) && IsLink(adj, l)
    ensures l.row < |ranks| && l.col < |ranks| && 0 <= ranks[l.row] < n && 0 <= ranks[l.col] < n
  {
    var r: int, c: int := l.row, l.col;
    assert 0 <= r < c < |adj| && adj[r][c] > 0.0;
    assert 0 <= ranks[c] < n;
    assert 0 <= ranks[r] < n;
  }

  method NormalisedCut(adj: seq<seq<real>>, ranks: seq<int>, n: nat) returns (norm: seq<real>, top: real, cut: seq<real>)
    requires Matrix(adj) && RanksFit(adj, n, ranks) && n > 1
    ensures |norm| == n - 1 == |cut| && IsMax(cut, top) && top >= 0.0
    ensures forall p :: 0 <= p < |cut| ==> cut[p] == CrossingAt(adj, ranks, p)
    ensures forall p :: 0 <= p < |cut| ==> norm[p] == cut[p] / (top + 0.000000001)
  {
    var links := UpperLinks(adj);
    forall k | 0 <= k < |links|
      ensures links[k].row < |ranks| && links[k].col < |ranks|
      ensures 0 <= ranks[links[k].row] < n && 0 <= ranks[links[k].col] < n
    {
      var l := links[k];
      assert l in links;
      LinkFits(adj, ranks, n, l);
    }
    var profile := CutProfile(links, ranks, n);
    forall p | 0 <= p < n - 1 ensures profile[p] >= 0.0 {
      CrossingNonNegative(links, ranks, p);
    }
    var most := Maximum(profile);
    norm := seq(n - 1, p requires 0 <= p < n - 1 => profile[p] / (most + 0.000000001));
    top, cut := most, profile;
  }

  method BuildProfile(adj: seq<seq<real>>, order: seq<nat>, mass: Option<seq<real>>)
    returns (f: Profile, ranks: seq<int>)
    requires Matrix(adj) && DistinctBelow(order, |adj|) && CoversLinks(adj, order) && PositiveMass(order, mass)
    requires |order| > 1
    ensures IsProfile(adj, order, mass, ranks, f)
  {
    var r := RanksOf(order, |adj|);
    CoveredRanks(adj, order, r);
    var norm, top, cut := NormalisedCut(adj, r, |order|);
    var masses := Masses(order, mass);
    SumPositive(masses);
    assert masses[..|masses| - 1 + 1] == masses;
    var cum := Cumulative(masses);
    f := Profile(norm, cum, cum[|cum| - 1] / (N_ARMS as real));
    ranks := r;
  }

  method ChooseCuts(f: Profile) returns (cuts: seq<nat>)
    requires ProfileOk(f)
    ensures AreCuts(f, cuts)
  {
    hide IsCut;
    cuts := [];
    for k := 1 to N_ARMS
      invariant |cuts| == k - 1
      invariant forall j: nat :: j < k - 1 ==> IsCut(f, cuts[..j], j + 1, cuts[j])
    {
      var p := ChooseCut(f, cuts, k);
      ghost var before := cuts;
      cuts := cuts + [p];
      forall j: nat | j < k ensures IsCut(f, cuts[..j], j + 1, cuts[j]) {
        assert cuts[..j] == before[..j];
      }
    }
  }

  /** arm_of[segment] = arm; slot[segment] = np.linspace(0, 1, len(segment)), or 0.5 */
  method LaySegment(order: seq<nat>, lo: int, hi: int, a: nat, arms: array<int>, slots: array<real>)
    requires -1 <= lo <= hi < |order|
    requires arms.Length == slots.Length && DistinctBelow(order, arms.Length)
    modifies arms, slots
    ensures forall i :: lo < i <= hi ==> arms[order[i]] == a && slots[order[i]] == Slot(lo, hi, i)
    ensures forall v: nat :: v < arms.Length && v !in order[lo + 1..hi + 1] ==>
      arms[v] == old(arms[v]) && slots[v] == old(slots[v])
  {
    for i := lo + 1 to hi + 1
      invariant forall j :: lo < j < i ==> arms[order[j]] == a && slots[order[j]] == Slot(lo, hi, j)
      invariant forall v: nat :: v < arms.Length && v !in order[lo + 1..i] ==>
        arms[v] == old(arms[v]) && slots[v] == old(slots[v])
    {
      assert order[lo + 1..i + 1] == order[lo + 1..i] + [order[i]];
      arms[order[i]] := a;
      slots[order[i]] := Slot(lo, hi, i);
    }
  }

  ghost predicate Bounded(bounds: seq<int>, n: nat) {
    && |bounds| == N_ARMS + 1 && bounds[0] == -1 && bounds[N_ARMS] == n - 1
    && forall a, b :: 0 <= a <= b <= N_ARMS ==> bounds[a] <= bounds[b]
  }

  method LayArms(order: seq<nat>, size: nat, bounds: seq<int>) returns (arm: seq<int>, slot: seq<real>)
    requires DistinctBelow(order, size) && Bounded(bounds, |order|)
    ensures |arm| == |slot| == size
    ensures forall a: nat :: a < N_ARMS ==> ArmHolds(order, bounds, a, arm, slot)
    ensures forall v: nat :: v < size && v !in order ==> arm[v] == -1 && slot[v] == 0.0
  {
    var arms, slots := new int[size](_ => -1), new real[size](_ => 0.0);
    for a := 0 to N_ARMS
      invariant forall b: nat :: b < a ==> ArmHolds(order, bounds, b, arms[..], slots[..])
      invariant forall v: nat :: v < size && v !in order ==> arms[v] == -1 && slots[v] == 0.0
    {
      ghost var wasArm, wasSlot := arms[..], slots[..];
      LaySegment(order, bounds[a], bounds[a + 1], a, arms, slots);
      forall b: nat | b < a ensures ArmHolds(order, bounds, b, arms[..], slots[..]) {
        assert ArmHolds(order, bounds, b, wasArm, wasSlot);
        assert bounds[b + 1] <= bounds[a];
      }
    }
    arm, slot := arms[..], slots[..];
  }

  lemma SortedCutsBound(f: Profile, cuts: seq<nat>, sorted: seq<nat>)
    requires ProfileOk(f) && AreCuts(f, cuts) && multiset(sorted) == multiset(cuts) && Rising(sorted)
    ensures |sorted| == N_ARMS - 1 && forall i :: 0 <= i < |sorted| ==> sorted[i] <= |f.cum| - 2
    ensures AreBounds(|f.cum|, cuts, [-1] + Ints(sorted) + [|f.cum| - 1])
    ensures Bounded([-1] + Ints(sorted) + [|f.cum| - 1], |f.cum|)
  {
    assert |sorted| == |multiset(sorted)| == |multiset(cuts)| == |cuts|;
    forall i | 0 <= i < |sorted| ensures sorted[i] <= |f.cum| - 2 {
      assert sorted[i] in multiset(cuts);
      var k :| 0 <= k < |cuts| && cuts[k] == sorted[i];
      assert IsCut(f, cuts[..k], k + 1, cuts[k]);
    }
    var bounds := [-1] + Ints(sorted) + [|f.cum| - 1];
    assert bounds[1..N_ARMS] == Ints(sorted);
    SameInts(sorted, cuts);
  }

  lemma {:induction false} IntsCount(s: seq<nat>, x: int)
    ensures multiset(Ints(s))[x] == if x < 0 then 0 else multiset(s)[x]
  {
    if |s| > 0 {
      var last := |s| - 1;
      IntsCount(s[..last], x);
      assert s == s[..last] + [s[last]];
      assert Ints(s) == Ints(s[..last]) + [s[last] as int];
    } else {
      assert Ints(s) == [];
    }
  }

  lemma SameInts(s: seq<nat>, t: seq<nat>)
    requires multiset(s) == multiset(t)
    ensures multiset(Ints(s)) == multiset(Ints(t))
  {
    forall x: int ensures multiset(Ints(s))[x] == multiset(Ints(t))[x] {
      IntsCount(s, x);
      IntsCount(t, x);
    }
  }

  /** Order i is arm i, in the middle: the case of four vertices or fewer. */
  ghost predicate OneEach(order: seq<nat>, arm: seq<int>, slot: seq<real>)
    requires |arm| == |slot| && DistinctBelow(order, |arm|)
  {
    forall i :: 0 <= i < |order| ==> arm[order[i]] == i && slot[order[i]] == 0.5
  }

  /** The arms cut_into_arms lays out. */
  ghost predicate AreArms(order: seq<nat>, arm: seq<int>, slot: seq<real>, bounds: seq<int>) {
    && |arm| == |slot| && DistinctBelow(order, |arm|) && Bounded(bounds, |order|)
    && (forall a: nat :: a < N_ARMS ==> ArmHolds(order, bounds, a, arm, slot))
  }

  method CutIntoArms(order: seq<nat>, adj: seq<seq<real>>, mass: Option<seq<real>>)
    returns (arm: seq<int>, slot: seq<real>, ghost f: Profile, ghost ranks: seq<int>, ghost cuts: seq<nat>, ghost bounds: seq<int>)
    requires Matrix(adj) && DistinctBelow(order, |adj|) && CoversLinks(adj, order) && PositiveMass(order, mass)
    ensures |arm| == |slot| == |adj|
    ensures forall v: nat :: v < |adj| && v !in order ==> arm[v] == -1 && slot[v] == 0.0
    ensures |order| <= N_ARMS ==> OneEach(order, arm, slot)
    ensures |order| > N_ARMS ==>
      && IsProfile(adj, order, mass, ranks, f) && AreCuts(f, cuts)
      && AreBounds(|order|, cuts, bounds) && AreArms(order, arm, slot, bounds)
  {
    hide IsProfile, AreCuts, AreBounds, ArmHolds, IsCut;
    f, ranks, cuts, bounds := Profile([], [], 0.0), [], [], [];
    if |order| <= N_ARMS {
      var arms, slots := new int[|adj|](_ => -1), new real[|adj|](_ => 0.0);
      for i := 0 to |order|
        invariant forall j :: 0 <= j < i ==> arms[order[j]] == j && slots[order[j]] == 0.5
        invariant forall v: nat :: v < |adj| && v !in order ==> arms[v] == -1 && slots[v] == 0.0
      {
        arms[order[i]] := i;
        slots[order[i]] := 0.5;
      }
      arm, slot := arms[..], slots[..];
      return;
    }
    var profile, placed := BuildProfile(adj, order, mass);
    assert ProfileOk(profile) && |profile.cum| == |order| by {
      ProfileFits(adj, order, mass, placed, profile);
    }
    var chosen := ChooseCuts(profile);
    var sorted := SortedList(chosen);
    SortedCutsBound(profile, chosen, sorted);
    var edges := [-1] + Ints(sorted) + [|order| - 1];
    arm, slot := LayArms(order, |adj|, edges);
    f, ranks, cuts, bounds := profile, placed, chosen, edges;
  }

  lemma ProfileFits(adj: seq<seq<real>>, order: seq<nat>, mass: Option<seq<real>>, ranks: seq<int>, f: Profile)
    requires Matrix(adj) && PositiveMass(order, mass) && IsProfile(adj, order, mass, ranks, f)
    ensures ProfileOk(f) && |f.cum| == |order|
  {
  }

  // --- What the arms guarantee ----------------------------------------------------

  lemma ArmOf(bounds: seq<int>, n: nat, i: nat) returns (a: nat)
    requires Bounded(bounds, n) && i < n
    ensures a < N_ARMS && bounds[a] < i <= bounds[a + 1]
  {
    a := 0;
    while bounds[a + 1] < i
      invariant a < N_ARMS && bounds[a] < i
      decreases N_ARMS - a
    {
      a := a + 1;
    }
  }

  lemma SlotRises(lo: int, hi: int, i: int, j: int)
    requires lo < i <= j <= hi
    ensures 0.0 <= Slot(lo, hi, i) <= Slot(lo, hi, j) <= 1.0
  {
    if hi - lo > 1 {
      var m := (hi - lo - 1) as real;
      QuotientRises((i - lo - 1) as real, (j - lo - 1) as real, m);
      QuotientRises((j - lo - 1) as real, m, m);
      QuotientRises(0.0, (i - lo - 1) as real, m);
      assert m / m == 1.0 && 0.0 / m == 0.0;
    }
  }

  lemma QuotientRises(x: real, y: real, d: real)
    requires x <= y && d > 0.0
    ensures x / d <= y / d
  {
    assert y / d - x / d == (y - x) / d;
  }

  /** Along the order the arm number never falls and, inside an arm, neither does the slot: every vertex of the order
   is in exactly one of four contiguous, possibly empty, arms. */
  lemma ArmsPartition(order: seq<nat>, arm: seq<int>, slot: seq<real>, bounds: seq<int>, i: nat, j: nat)
    requires AreArms(order, arm, slot, bounds) && i <= j < |order|
    ensures 0 <= arm[order[i]] <= arm[order[j]] < N_ARMS
    ensures 0.0 <= slot[order[i]] <= 1.0
    ensures arm[order[i]] == arm[order[j]] ==> slot[order[i]] <= slot[order[j]]
  {
    var a := ArmOf(bounds, |order|, i);
    var b := ArmOf(bounds, |order|, j);
    assert ArmHolds(order, bounds, a, arm, slot) && ArmHolds(order, bounds, b, arm, slot);
    SlotRises(bounds[a], bounds[a + 1], i, i);
    if a == b {
      SlotRises(bounds[a], bounds[a + 1], i, j);
    } else if b < a {
      assert false;
    }
  }

  ghost predicate Climbing(cum: seq<real>) {
    forall i, j :: 0 <= i < j < |cum| ==> cum[i] < cum[j]
  }

  lemma {:induction false} SumSplit(s: seq<real>, i: nat, j: nat)
    requires i <= j <= |s|
    ensures Sum(s[..j]) == Sum(s[..i]) + Sum(s[i..j])
    decreases j
  {
    if i < j {
      SumSplit(s, i, j - 1);
      assert s[..j][..j - 1] == s[..j - 1];
      assert s[i..j][..j - 1 - i] == s[i..j - 1];
    }
  }

  lemma CumulativeClimbs(adj: seq<seq<real>>, order: seq<nat>, mass: Option<seq<real>>, ranks: seq<int>, f: Profile)
    requires Matrix(adj) && PositiveMass(order, mass) && IsProfile(adj, order, mass, ranks, f)
    ensures Climbing(f.cum)
  {
    var m := Masses(order, mass);
    forall i, j | 0 <= i < j < |f.cum| ensures f.cum[i] < f.cum[j] {
      SumSplit(m, i + 1, j + 1);
      var between := m[i + 1..j + 1];
      assert forall k :: 0 <= k < |between| ==> between[k] == m[i + 1 + k];
      SumPositive(between);
    }
  }

  function Slack(f: Profile): real {
    0.05 * f.quarter
  }

  /** Some position's cumulative mass is within 5% of a quarter of the target. */
  predicate Regular(f: Profile, k: nat)
    requires |f.cum| > 1
  {
    Lower(|f.cum| - 2, SearchSorted(f.cum, Aim(f, k) + Slack(f)) - 1) >= SearchSorted(f.cum, Aim(f, k) - Slack(f))
  }

  /** Any position of a regular window has the mass before it within 5% of a quarter of the target. */
  lemma WindowNearTarget(f: Profile, k: nat, p: nat)
    requires ProfileOk(f) && Climbing(f.cum) && Regular(f, k) && InWindow(f, k, p)
    ensures p < |f.cum| - 1 && Aim(f, k) - Slack(f) <= f.cum[p] < Aim(f, k) + Slack(f)
  {
    hide Aim;
    var lo := SearchSorted(f.cum, Aim(f, k) - Slack(f));
    assert lo <= p && p < SearchSorted(f.cum, Aim(f, k) + Slack(f));
    assert f.cum[lo] <= f.cum[p];
  }

  ghost predicate CutsRegular(f: Profile, cuts: seq<nat>)
    requires ProfileOk(f) && |cuts| == N_ARMS - 1
  {
    forall k: nat :: k < N_ARMS - 1 ==> Regular(f, k + 1) && InWindow(f, k + 1, cuts[k])
  }

  lemma RegularCutsClimb(f: Profile, cuts: seq<nat>)
    requires ProfileOk(f) && Climbing(f.cum) && |cuts| == N_ARMS - 1 && CutsRegular(f, cuts)
    ensures cuts[0] < cuts[1] < cuts[2] < |f.cum| - 1
    ensures 0.95 * f.quarter <= f.cum[cuts[0]] < 1.05 * f.quarter
    ensures 1.95 * f.quarter <= f.cum[cuts[1]] < 2.05 * f.quarter
    ensures 2.95 * f.quarter <= f.cum[cuts[2]] < 3.05 * f.quarter
  {
    hide Climbing, InWindow, Regular;
    WindowNearTarget(f, 1, cuts[0]);
    WindowNearTarget(f, 2, cuts[1]);
    WindowNearTarget(f, 3, cuts[2]);
    Separated(f, cuts[0], cuts[1]);
    Separated(f, cuts[1], cuts[2]);
  }

  lemma LeastHead(s: seq<int>, t: seq<int>)
    requires |s| > 0 && |t| > 0 && multiset(s) == multiset(t)
    requires forall i, j :: 0 <= i < j < |t| ==> t[i] <= t[j]
    ensures t[0] <= s[0]
  {
    assert s[0] in multiset(t);
  }

  lemma TailSame(s: seq<int>, t: seq<int>)
    requires |s| > 0 && |t| > 0 && multiset(s) == multiset(t) && s[0] == t[0]
    ensures multiset(s[1..]) == multiset(t[1..])
  {
    assert s == [s[0]] + s[1..] && t == [t[0]] + t[1..];
    assert multiset(s[1..]) == multiset(s) - multiset{s[0]};
    assert multiset(t[1..]) == multiset(t) - multiset{t[0]};
  }

  lemma {:induction false} AscentIsUnique(s: seq<int>, t: seq<int>)
    requires multiset(s) == multiset(t)
    requires forall i, j :: 0 <= i < j < |s| ==> s[i] <= s[j]
    requires forall i, j :: 0 <= i < j < |t| ==> t[i] <= t[j]
    ensures s == t
  {
    assert |s| == |multiset(s)| == |multiset(t)| == |t|;
    if |s| > 0 {
      LeastHead(s, t);
      LeastHead(t, s);
      TailSame(s, t);
      AscentIsUnique(s[1..], t[1..]);
    }
  }

  /** The mass of arm a: what has accumulated at its last vertex less what had before its first. */
  function ArmMass(f: Profile, bounds: seq<int>, a: nat): real
    requires a + 1 < |bounds| && -1 <= bounds[a] < |f.cum| && 0 <= bounds[a + 1] < |f.cum|
  {
    f.cum[bounds[a + 1]] - if bounds[a] < 0 then 0.0 else f.cum[bounds[a]]
  }

  /** When no cut fell outside its window, every arm's share of the mass is within a tenth of a quarter of the total. */
  lemma RegularCutsBalance(f: Profile, cuts: seq<nat>, bounds: seq<int>, a: nat)
    requires ProfileOk(f) && Climbing(f.cum) && |cuts| == N_ARMS - 1 && CutsRegular(f, cuts)
    requires f.cum[|f.cum| - 1] == 4.0 * f.quarter
    requires AreBounds(|f.cum|, cuts, bounds) && a < N_ARMS
    ensures -1 <= bounds[a] < bounds[a + 1] < |f.cum|
    ensures 0.9 * f.quarter <= ArmMass(f, bounds, a) <= 1.1 * f.quarter
  {
    RegularCutsClimb(f, cuts);
    BoundsAreCuts(|f.cum|, cuts, bounds);
    QuarterArms(f, cuts[0], cuts[1], cuts[2], a);
  }

  lemma QuarterArms(f: Profile, p: nat, q: nat, r: nat, a: nat)
    requires ProfileOk(f) && f.cum[|f.cum| - 1] == 4.0 * f.quarter && p < q < r < |f.cum| - 1 && a < N_ARMS
    requires 0.95 * f.quarter <= f.cum[p] < 1.05 * f.quarter
    requires 1.95 * f.quarter <= f.cum[q] < 2.05 * f.quarter
    requires 2.95 * f.quarter <= f.cum[r] < 3.05 * f.quarter
    ensures
      var bounds := [-1, p, q, r, |f.cum| - 1];
      && -1 <= bounds[a] < bounds[a + 1] < |f.cum|
      && 0.9 * f.quarter <= ArmMass(f, bounds, a) <= 1.1 * f.quarter
  {
  }

  lemma BoundsAreCuts(n: nat, cuts: seq<nat>, bounds: seq<int>)
    requires AreBounds(n, cuts, bounds) && |cuts| == N_ARMS - 1 && cuts[0] <= cuts[1] <= cuts[2]
    ensures bounds == [-1, cuts[0], cuts[1], cuts[2], n - 1]
  {
    var inner := bounds[1..N_ARMS];
    assert inner[0] == bounds[1] && inner[1] == bounds[2] && inner[2] == bounds[3];
    AscentIsUnique(inner, Ints(cuts));
  }

  lemma Separated(f: Profile, p: nat, q: nat)
    requires Climbing(f.cum) && p < |f.cum| && q < |f.cum| && f.cum[p] < f.cum[q]
    ensures p < q
  {
  }

  /** What the vertices of arm a among the first n of the order weigh. */
  ghost function ArmWeight(order: seq<nat>, m: seq<real>, arm: seq<int>, a: nat, n: nat): real
    requires |m| == |order| && n <= |order| && forall i :: 0 <= i < |order| ==> order[i] < |arm|
  {
    if n == 0 then 0.0 else ArmWeight(order, m, arm, a, n - 1) + if arm[order[n - 1]] == a then m[n - 1] else 0.0
  }

  lemma InArmIff(order: seq<nat>, arm: seq<int>, slot: seq<real>, bounds: seq<int>, a: nat, i: nat)
    requires AreArms(order, arm, slot, bounds) && a < N_ARMS && i < |order|
    ensures arm[order[i]] == a <==> bounds[a] < i <= bounds[a + 1]
  {
    var b := ArmOf(bounds, |order|, i);
    assert ArmHolds(order, bounds, a, arm, slot) && ArmHolds(order, bounds, b, arm, slot);
  }

  lemma {:induction false} WeightIsSlice(order: seq<nat>, m: seq<real>, arm: seq<int>, slot: seq<real>, bounds: seq<int>, a: nat, n: nat)
    requires AreArms(order, arm, slot, bounds) && a < N_ARMS && n <= |order| && |m| == |order|
    ensures
      var from, to := bounds[a] + 1, Lower(n, bounds[a + 1] + 1);
      ArmWeight(order, m, arm, a, n) == if from < to then Sum(m[from..to]) else 0.0
  {
    if n > 0 {
      WeightIsSlice(order, m, arm, slot, bounds, a, n - 1);
      InArmIff(order, arm, slot, bounds, a, n - 1);
      var from := bounds[a] + 1;
      if from <= n - 1 <= bounds[a + 1] {
        var s := m[from..n];
        assert s[..|s| - 1] == m[from..n - 1] && s[|s| - 1] == m[n - 1];
        assert Sum(s) == Sum(m[from..n - 1]) + m[n - 1];
        assert from == n - 1 ==> m[from..n - 1] == [] && Sum(m[from..n - 1]) == 0.0;
      }
    }
  }

  lemma WeightIsMass(adj: seq<seq<real>>, order: seq<nat>, mass: Option<seq<real>>, ranks: seq<int>, f: Profile,
                     arm: seq<int>, slot: seq<real>, bounds: seq<int>, a: nat)
    requires Matrix(adj) && PositiveMass(order, mass) && IsProfile(adj, order, mass, ranks, f)
    requires AreArms(order, arm, slot, bounds) && a < N_ARMS && bounds[a] < bounds[a + 1]
    ensures ArmWeight(order, Masses(order, mass), arm, a, |order|) == ArmMass(f, bounds, a)
  {
    var m := Masses(order, mass);
    WeightIsSlice(order, m, arm, slot, bounds, a, |order|);
    SumSplit(m, bounds[a] + 1, bounds[a + 1] + 1);
    assert m[..0] == [];
  }

  /**
   The four arms are balanced: when no cut fell outside its window, what the
   vertices of each arm weigh is within a tenth of a quarter of the total.
   */
  lemma ArmsBalance(adj: seq<seq<real>>, order: seq<nat>, mass: Option<seq<real>>, ranks: seq<int>, f: Profile, cuts: seq<nat>,
                    bounds: seq<int>, arm: seq<int>, slot: seq<real>, a: nat)
    requires Matrix(adj) && PositiveMass(order, mass) && IsProfile(adj, order, mass, ranks, f)
    requires AreCuts(f, cuts) && CutsRegular(f, cuts) && AreBounds(|order|, cuts, bounds) && AreArms(order, arm, slot, bounds)
    requires a < N_ARMS
    ensures
      var quarter := Sum(Masses(order, mass)) / 4.0;
      0.9 * quarter <= ArmWeight(order, Masses(order, mass), arm, a, |order|) <= 1.1 * quarter
  {
    var m := Masses(order, mass);
    CumulativeClimbs(adj, order, mass, ranks, f);
    assert m[..|order| - 1 + 1] == m;
    assert f.cum[|f.cum| - 1] == 4.0 * f.quarter;
    RegularCutsBalance(f, cuts, bounds, a);
    WeightIsMass(adj, order, mass, ranks, f, arm, slot, bounds, a);
  }
}
