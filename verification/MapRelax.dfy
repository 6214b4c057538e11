/**
 relax_min_distance of map_layout.py: points closer than a minimum distance are
 pushed apart, all at once. A spatial hash finds the close pairs; here it is
 proved to find them all, once each, so that a pass moves the points exactly as
 comparing all pairs would.
 */
module MapRelax {
  import opened RealFacts
  import opened Sorting
  import opened Vectors

  /** Below this two points count as coincident. */
  const COINCIDENT := 0.000000001

  /** The length of a vector, the direction that parts a coincident pair (made of sines and cosines), and the minimum distance. */
  datatype Space = Space(norm: Vec -> real, away: (nat, nat) -> Vec, min: real)

  ghost predicate UnitBox(v: Vec) {
    -1.0 <= v.x <= 1.0 && -1.0 <= v.y <= 1.0 && -1.0 <= v.z <= 1.0
  }

  ghost predicate Sound(s: Space) {
    Euclidean(s.norm) && s.min > 0.0 && forall i, j :: UnitBox(s.away(i, j))
  }

  function Lesser(a: real, b: real): real {
    if a < b then a else b
  }

  function Apart(s: Space, c: seq<Vec>, i: nat, j: nat): real
    requires i < |c| && j < |c|
  {
    s.norm(Sub(c[i], c[j]))
  }

  predicate Near(s: Space, c: seq<Vec>, i: nat, j: nat)
    requires i < |c| && j < |c|
  {
    Apart(s, c, i, j) < s.min
  }

  predicate Coincide(s: Space, c: seq<Vec>, i: nat, j: nat)
    requires i < |c| && j < |c|
  {
    Apart(s, c, i, j) < COINCIDENT
  }

  /** The length of the substituted direction: `or 1.0` when it is the zero vector. */
  function Reach(s: Space, i: nat, j: nat): real {
    var d := s.norm(s.away(i, j));
    if d == 0.0 then 1.0 else d
  }

  function Heading(s: Space, c: seq<Vec>, i: nat, j: nat): Vec
    requires i < |c| && j < |c|
  {
    if Coincide(s, c, i, j) then s.away(i, j) else Sub(c[i], c[j])
  }

  function Distance(s: Space, c: seq<Vec>, i: nat, j: nat): (d: real)
    requires i < |c| && j < |c|
  {
    if Coincide(s, c, i, j) then Reach(s, i, j) else Apart(s, c, i, j)
  }

  function PushOf(s: Space, c: seq<Vec>, i: nat, j: nat): real
    requires i < |c| && j < |c|
  {
    (s.min - Lesser(Distance(s, c, i, j), s.min)) * 0.5
  }

  /** diff / dist * push */
  function Step(s: Space, c: seq<Vec>, i: nat, j: nat): Vec
    requires i < |c| && j < |c|
  {
    var d := Distance(s, c, i, j);
    if d == 0.0 then ORIGIN else Scale(PushOf(s, c, i, j) / d, Heading(s, c, i, j))
  }

  /** What point k receives because of point j. */
  function Shove(s: Space, c: seq<Vec>, k: nat, j: nat): Vec
    requires k < |c| && j < |c|
  {
    if k == j || !Near(s, c, if k < j then k else j, if k < j then j else k) then ORIGIN
    else if k < j then Step(s, c, k, j)
    else Neg(Step(s, c, j, k))
  }

  /** The displacement of point k by all pairs with a point below n. */
  function Net(s: Space, c: seq<Vec>, k: nat, n: nat): Vec
    requires k < |c| && n <= |c|
  {
    if n == 0 then ORIGIN else Add(Net(s, c, k, n - 1), Shove(s, c, k, n - 1))
  }

  function Nets(s: Space, c: seq<Vec>): (d: seq<Vec>)
    ensures |d| == |c| && forall k :: 0 <= k < |c| ==> d[k] == Net(s, c, k, |c|)
  {
    seq(|c|, k requires 0 <= k < |c| => Net(s, c, k, |c|))
  }

  /** No pair is pushed: the loop stops here. */
  ghost predicate Quiet(s: Space, c: seq<Vec>) {
    forall i: nat, j: nat :: i < j < |c| && Near(s, c, i, j) ==> PushOf(s, c, i, j) == 0.0
  }

  ghost predicate AllApart(s: Space, c: seq<Vec>) {
    forall i: nat, j: nat :: i < j < |c| ==> Apart(s, c, i, j) >= s.min
  }

  // --- A pass, pair by pair -------------------------------------------------------

  ghost function Paired(i: nat, j: nat): (nat, nat) {
    if i < j then (i, j) else (j, i)
  }

  /** What point k has received from the pairs seen so far. */
  ghost function Received(s: Space, c: seq<Vec>, seen: set<(nat, nat)>, k: nat, n: nat): Vec
    requires k < |c| && n <= |c|
  {
    if n == 0 then ORIGIN
    else Add(Received(s, c, seen, k, n - 1), if Paired(k, n - 1) in seen then Shove(s, c, k, n - 1) else ORIGIN)
  }

  ghost function Deltas(s: Space, c: seq<Vec>, seen: set<(nat, nat)>): (d: seq<Vec>)
    ensures |d| == |c| && forall k :: 0 <= k < |c| ==> d[k] == Received(s, c, seen, k, |c|)
  {
    seq(|c|, k requires 0 <= k < |c| => Received(s, c, seen, k, |c|))
  }

  lemma {:induction false} ReceivedGrows(s: Space, c: seq<Vec>, seen: set<(nat, nat)>, i: nat, j: nat, k: nat, n: nat)
    requires i < j < |c| && k < |c| && n <= |c| && (i, j) !in seen
    ensures Received(s, c, seen + {(i, j)}, k, n) == Add(Received(s, c, seen, k, n),
      if k == i && j < n then Shove(s, c, i, j) else if k == j && i < n then Shove(s, c, j, i) else ORIGIN)
  {
    hide Shove;
    if n > 0 {
      ReceivedGrows(s, c, seen, i, j, k, n - 1);
    }
  }

  lemma {:induction false} ReceivedNothing(s: Space, c: seq<Vec>, k: nat, n: nat)
    requires k < |c| && n <= |c|
    ensures Received(s, c, {}, k, n) == ORIGIN
  {
    if n > 0 {
      ReceivedNothing(s, c, k, n - 1);
    }
  }

  lemma DeltasGrow(s: Space, c: seq<Vec>, seen: set<(nat, nat)>, i: nat, j: nat)
    requires i < j < |c| && (i, j) !in seen
    ensures
      var d := Deltas(s, c, seen);
      Deltas(s, c, seen + {(i, j)}) == d[i := Add(d[i], Shove(s, c, i, j))][j := Add(d[j], Shove(s, c, j, i))]
  {
    hide Shove, Received;
    var d := Deltas(s, c, seen);
    var more := Deltas(s, c, seen + {(i, j)});
    forall k | 0 <= k < |c|
      ensures more[k] == d[i := Add(d[i], Shove(s, c, i, j))][j := Add(d[j], Shove(s, c, j, i))][k]
    {
      ReceivedGrows(s, c, seen, i, j, k, |c|);
    }
  }

  ghost predicate SomeNear(s: Space, c: seq<Vec>, seen: set<(nat, nat)>) {
    forall p :: p in seen ==> p.0 < p.1 < |c| && Near(s, c, p.0, p.1)
  }

  ghost predicate AllNear(s: Space, c: seq<Vec>, seen: set<(nat, nat)>) {
    forall p: nat, q: nat :: (p, q) in seen <==> p < q < |c| && Near(s, c, p, q)
  }

  lemma {:induction false} AllReceived(s: Space, c: seq<Vec>, seen: set<(nat, nat)>, k: nat, n: nat)
    requires AllNear(s, c, seen) && k < |c| && n <= |c|
    ensures Received(s, c, seen, k, n) == Net(s, c, k, n)
  {
    hide Near, Step;
    if n > 0 {
      AllReceived(s, c, seen, k, n - 1);
    }
  }

  // --- The spatial hash -----------------------------------------------------------

  datatype Cell = Cell(x: int, y: int, z: int)

  function Key(s: Space, v: Vec): Cell
    requires s.min > 0.0
  {
    Cell((v.x / s.min).Floor, (v.y / s.min).Floor, (v.z / s.min).Floor)
  }

  function Shifted(a: Cell, b: Cell): Cell {
    Cell(a.x + b.x, a.y + b.y, a.z + b.z)
  }

  ghost predicate Adjacent(d: Cell) {
    -1 <= d.x <= 1 && -1 <= d.y <= 1 && -1 <= d.z <= 1
  }

  /** _CELL_OFFSETS: each of the 27 once. */
  ghost predicate AreOffsets(offsets: seq<Cell>) {
    && (forall d :: d in offsets <==> Adjacent(d))
    && (forall i, j :: 0 <= i < j < |offsets| ==> offsets[i] != offsets[j])
  }

  method CellOffsets() returns (offsets: seq<Cell>)
    ensures AreOffsets(offsets)
  {
    offsets := [];
    for x := -1 to 2
      invariant forall d :: d in offsets <==> Adjacent(d) && d.x < x
      invariant forall i, j :: 0 <= i < j < |offsets| ==> offsets[i] != offsets[j]
    {
      for y := -1 to 2
        invariant forall d :: d in offsets <==> Adjacent(d) && (d.x < x || (d.x == x && d.y < y))
        invariant forall i, j :: 0 <= i < j < |offsets| ==> offsets[i] != offsets[j]
      {
        for z := -1 to 2
          invariant forall d :: d in offsets <==>
            Adjacent(d) && (d.x < x || (d.x == x && (d.y < y || (d.y == y && d.z < z))))
          invariant forall i, j :: 0 <= i < j < |offsets| ==> offsets[i] != offsets[j]
        {
          offsets := offsets + [Cell(x, y, z)];
        }
      }
    }
  }

  lemma SquareBounds(a: real, m: real)
    requires 0.0 <= m && a * a <= m * m
    ensures -m <= a <= m
  {
    if a > m {
      TimesLe(m, m, a);
      TimesLt(a, m, a);
      assert false;
    } else if -a > m {
      TimesLe(m, m, -a);
      TimesLt(-a, m, -a);
      assert false;
    }
  }

  lemma ComponentsBounded(norm: Vec -> real, v: Vec)
    requires Euclidean(norm)
    ensures -norm(v) <= v.x <= norm(v) && -norm(v) <= v.y <= norm(v) && -norm(v) <= v.z <= norm(v)
  {
    SquareNonNegative(v.x);
    SquareNonNegative(v.y);
    SquareNonNegative(v.z);
    SquareBounds(v.x, norm(v));
    SquareBounds(v.y, norm(v));
    SquareBounds(v.z, norm(v));
  }

  lemma FloorsAdjacent(a: real, b: real, m: real)
    requires m > 0.0 && -m < a - b < m
    ensures -1 <= (a / m).Floor - (b / m).Floor <= 1
  {
    var p, q := a / m, b / m;
    assert a == p * m && b == q * m;
    assert p - q < 1.0 && q - p < 1.0 by {
      if p - q >= 1.0 {
        TimesLe(m, 1.0, p - q);
      } else if q - p >= 1.0 {
        TimesLe(m, 1.0, q - p);
      }
    }
  }

  ghost function Between(a: Cell, b: Cell): Cell {
    Cell(b.x - a.x, b.y - a.y, b.z - a.z)
  }

  /** A close pair lies in adjacent cells. */
  lemma NearIsAdjacent(s: Space, c: seq<Vec>, i: nat, j: nat)
    requires Sound(s) && i < |c| && j < |c| && Near(s, c, i, j)
    ensures Adjacent(Between(Key(s, c[i]), Key(s, c[j])))
  {
    ComponentsBounded(s.norm, Sub(c[i], c[j]));
    FloorsAdjacent(c[i].x, c[j].x, s.min);
    FloorsAdjacent(c[i].y, c[j].y, s.min);
    FloorsAdjacent(c[i].z, c[j].z, s.min);
  }

  ghost predicate IsBucket(s: Space, c: seq<Vec>, cell: Cell, bucket: seq<nat>, m: nat)
    requires s.min > 0.0 && m <= |c|
  {
    Ascending(bucket) && forall t :: 0 <= t < |bucket| ==> bucket[t] < m && Key(s, c[bucket[t]]) == cell
  }

  lemma BucketGrows(s: Space, c: seq<Vec>, cell: Cell, bucket: seq<nat>, m: nat)
    requires s.min > 0.0 && m < |c| && IsBucket(s, c, cell, bucket, m)
    ensures IsBucket(s, c, cell, bucket, m + 1)
    ensures Key(s, c[m]) == cell ==> IsBucket(s, c, cell, bucket + [m], m + 1)
  {
  }

  /** Every point below m is in the bucket of its cell, buckets being listed in index order. */
  ghost predicate AreBuckets(s: Space, c: seq<Vec>, buckets: map<Cell, seq<nat>>, m: nat)
    requires s.min > 0.0 && m <= |c|
  {
    && (forall cell :: cell in buckets ==> IsBucket(s, c, cell, buckets[cell], m))
    && (forall j: nat :: j < m ==> Key(s, c[j]) in buckets && j in buckets[Key(s, c[j])])
  }

  /** buckets.setdefault(key, []).append(i) */
  method FillBuckets(s: Space, c: seq<Vec>) returns (buckets: map<Cell, seq<nat>>)
    requires s.min > 0.0
    ensures AreBuckets(s, c, buckets, |c|)
  {
    buckets := map[];
    for i := 0 to |c|
      invariant AreBuckets(s, c, buckets, i)
    {
      var key := Key(s, c[i]);
      var before := if key in buckets then buckets[key] else [];
      forall cell | cell in buckets ensures IsBucket(s, c, cell, buckets[cell], i + 1) {
        BucketGrows(s, c, cell, buckets[cell], i);
      }
      BucketGrows(s, c, key, before, i);
      hide IsBucket, Key;
      buckets := buckets[key := before + [i]];
    }
  }

  // --- The pass itself ------------------------------------------------------------

  ghost predicate NoPush(s: Space, c: seq<Vec>, seen: set<(nat, nat)>)
    requires SomeNear(s, c, seen)
  {
    forall p :: p in seen ==> PushOf(s, c, p.0, p.1) == 0.0
  }

  /** delta and max_push after the pairs seen. */
  ghost predicate Tally(s: Space, c: seq<Vec>, seen: set<(nat, nat)>, delta: seq<Vec>, most: real) {
    SomeNear(s, c, seen) && delta == Deltas(s, c, seen) && most >= 0.0 && (most == 0.0 <==> NoPush(s, c, seen))
  }

  lemma PushNonNegative(s: Space, c: seq<Vec>, i: nat, j: nat)
    requires i < |c| && j < |c|
    ensures PushOf(s, c, i, j) >= 0.0
  {
  }

  lemma NoPushGrows(s: Space, c: seq<Vec>, seen: set<(nat, nat)>, i: nat, j: nat)
    requires SomeNear(s, c, seen) && i < j < |c| && Near(s, c, i, j)
    ensures SomeNear(s, c, seen + {(i, j)})
    ensures NoPush(s, c, seen + {(i, j)}) <==> NoPush(s, c, seen) && PushOf(s, c, i, j) == 0.0
  {
    hide Near, PushOf;
    var more := seen + {(i, j)};
    assert (i, j) in more;
    if NoPush(s, c, more) {
      forall p | p in seen ensures PushOf(s, c, p.0, p.1) == 0.0 {
        assert p in more;
      }
    }
  }

  lemma TallyGrows(s: Space, c: seq<Vec>, seen: set<(nat, nat)>, delta: seq<Vec>, most: real, i: nat, j: nat)
    requires Tally(s, c, seen, delta, most) && i < j < |c| && Near(s, c, i, j) && (i, j) !in seen
    ensures
      var step, push := Step(s, c, i, j), PushOf(s, c, i, j);
      Tally(s, c, seen + {(i, j)}, delta[i := Add(delta[i], step)][j := Sub(delta[j], step)], if most < push then push else most)
  {
    DeltasGrow(s, c, seen, i, j);
    NoPushGrows(s, c, seen, i, j);
    PushNonNegative(s, c, i, j);
    assert Shove(s, c, i, j) == Step(s, c, i, j) && Shove(s, c, j, i) == Neg(Step(s, c, i, j));
    hide Near, PushOf, Step, Received, SomeNear, NoPush, Shove, Deltas;
    assert Sub(delta[j], Step(s, c, i, j)) == Add(delta[j], Neg(Step(s, c, i, j)));
  }

  /** The pairs (i, q) with q in the bucket. */
  ghost predicate AddsBucket(s: Space, c: seq<Vec>, was: set<(nat, nat)>, seen: set<(nat, nat)>, i: nat, bucket: seq<nat>)
    requires i < |c| && forall t :: 0 <= t < |bucket| ==> bucket[t] < |c|
  {
    forall p: nat, q: nat :: (p, q) in seen <==> (p, q) in was || (p == i && i < q && q in bucket && Near(s, c, i, q))
  }

  method VisitBucket(s: Space, c: seq<Vec>, i: nat, bucket: seq<nat>, delta: array<Vec>, already: real, ghost was: set<(nat, nat)>)
    returns (most: real, ghost seen: set<(nat, nat)>)
    requires i < |c| && delta.Length == |c| && Tally(s, c, was, delta[..], already)
    requires Ascending(bucket) && forall t :: 0 <= t < |bucket| ==> bucket[t] < |c| && (i, bucket[t]) !in was
    modifies delta
    ensures Tally(s, c, seen, delta[..], most)
    ensures AddsBucket(s, c, was, seen, i, bucket)
  {
    hide Tally, Near, Step, PushOf;
    most, seen := already, was;
    for t := 0 to |bucket|
      invariant Tally(s, c, seen, delta[..], most)
      invariant AddsBucket(s, c, was, seen, i, bucket[..t])
    {
      var j := bucket[t];
      assert bucket[..t + 1] == bucket[..t] + [j];
      assert j !in bucket[..t];
      if i < j && Near(s, c, i, j) {
        TallyGrows(s, c, seen, delta[..], most, i, j);
        var push, step := PushOf(s, c, i, j), Step(s, c, i, j);
        delta[i] := Add(delta[i], step);
        delta[j] := Sub(delta[j], step);
        most := if most < push then push else most;
        seen := seen + {(i, j)};
      }
    }
    assert bucket[..|bucket|] == bucket;
  }

  /** The pairs (i, q) with q in one of the cells around i. */
  ghost predicate AddsCells(s: Space, c: seq<Vec>, was: set<(nat, nat)>, seen: set<(nat, nat)>, i: nat, offsets: seq<Cell>)
    requires i < |c| && s.min > 0.0
  {
    forall p: nat, q: nat :: (p, q) in seen <==>
      (p, q) in was || (p == i && i < q < |c| && Near(s, c, i, q) && Between(Key(s, c[i]), Key(s, c[q])) in offsets)
  }

  lemma CellVisited(s: Space, c: seq<Vec>, buckets: map<Cell, seq<nat>>, was: set<(nat, nat)>, seen: set<(nat, nat)>,
    more: set<(nat, nat)>, i: nat, offsets: seq<Cell>, d: Cell)
    requires s.min > 0.0 && AreBuckets(s, c, buckets, |c|) && i < |c|
    requires AddsCells(s, c, was, seen, i, offsets)
    requires
      var cell := Shifted(Key(s, c[i]), d);
      if cell in buckets then IsBucket(s, c, cell, buckets[cell], |c|) && AddsBucket(s, c, seen, more, i, buckets[cell])
      else more == seen
    ensures AddsCells(s, c, was, more, i, offsets + [d])
  {
    var cell := Shifted(Key(s, c[i]), d);
    forall q: nat | q < |c|
      ensures Between(Key(s, c[i]), Key(s, c[q])) == d <==> cell in buckets && q in buckets[cell]
    {
      assert Between(Key(s, c[i]), Key(s, c[q])) == d <==> Key(s, c[q]) == cell;
      assert cell in buckets && q in buckets[cell] ==> Key(s, c[q]) == cell;
    }
    hide Near, Key, Between, Shifted, AreBuckets;
    forall p: nat, q: nat
      ensures (p, q) in more <==> (p, q) in was || (p == i && i < q < |c| && Near(s, c, i, q) && Between(Key(s, c[i]), Key(s, c[q])) in offsets + [d])
    {
      assert q < |c| ==> (Between(Key(s, c[i]), Key(s, c[q])) in offsets + [d] <==>
        Between(Key(s, c[i]), Key(s, c[q])) in offsets || Between(Key(s, c[i]), Key(s, c[q])) == d);
    }
  }

  ghost predicate AddsRow(s: Space, c: seq<Vec>, was: set<(nat, nat)>, seen: set<(nat, nat)>, i: nat)
    requires i < |c|
  {
    forall p: nat, q: nat :: (p, q) in seen <==> (p, q) in was || (p == i && i < q < |c| && Near(s, c, i, q))
  }

  method VisitRow(s: Space, c: seq<Vec>, offsets: seq<Cell>, buckets: map<Cell, seq<nat>>, i: nat, delta: array<Vec>, already: real,
    ghost was: set<(nat, nat)>) returns (most: real, ghost seen: set<(nat, nat)>)
    requires Sound(s) && AreOffsets(offsets) && AreBuckets(s, c, buckets, |c|)
    requires i < |c| && delta.Length == |c| && Tally(s, c, was, delta[..], already) && forall q: nat :: (i, q) !in was
    modifies delta
    ensures Tally(s, c, seen, delta[..], most)
    ensures AddsRow(s, c, was, seen, i)
  {
    hide Tally, Near, Key, Between, Shifted, Euclidean;
    most, seen := already, was;
    for o := 0 to |offsets|
      invariant Tally(s, c, seen, delta[..], most)
      invariant AddsCells(s, c, was, seen, i, offsets[..o])
    {
      assert offsets[..o + 1] == offsets[..o] + [offsets[o]];
      var cell := Shifted(Key(s, c[i]), offsets[o]);
      ghost var before := seen;
      if cell in buckets {
        FreshBucket(s, c, buckets, was, seen, i, offsets, o);
        most, seen := VisitBucket(s, c, i, buckets[cell], delta, most, seen);
      }
      CellVisited(s, c, buckets, was, before, seen, i, offsets[..o], offsets[o]);
    }
    assert offsets[..|offsets|] == offsets;
    forall q: nat | q < |c| && Near(s, c, i, q) ensures Between(Key(s, c[i]), Key(s, c[q])) in offsets {
      NearIsAdjacent(s, c, i, q);
    }
  }

  lemma FreshBucket(s: Space, c: seq<Vec>, buckets: map<Cell, seq<nat>>, was: set<(nat, nat)>, seen: set<(nat, nat)>, i: nat,
    offsets: seq<Cell>, o: nat)
    requires s.min > 0.0 && AreOffsets(offsets) && AreBuckets(s, c, buckets, |c|) && i < |c| && o < |offsets|
    requires Shifted(Key(s, c[i]), offsets[o]) in buckets
    requires AddsCells(s, c, was, seen, i, offsets[..o]) && forall q: nat :: (i, q) !in was
    ensures
      var bucket := buckets[Shifted(Key(s, c[i]), offsets[o])];
      Ascending(bucket) && forall t :: 0 <= t < |bucket| ==> bucket[t] < |c| && (i, bucket[t]) !in seen
  {
    var bucket := buckets[Shifted(Key(s, c[i]), offsets[o])];
    forall t | 0 <= t < |bucket| ensures (i, bucket[t]) !in seen {
      assert Between(Key(s, c[i]), Key(s, c[bucket[t]])) == offsets[o];
      assert offsets[o] !in offsets[..o];
    }
  }

  /** One Jacobi pass: the same displacements, and the same decision to stop, as comparing all pairs. */
  method Pass(s: Space, c: seq<Vec>) returns (delta: seq<Vec>, most: real)
    requires Sound(s)
    ensures delta == Nets(s, c)
    ensures most == 0.0 <==> Quiet(s, c)
  {
    hide Euclidean, Near, Net, Received, PushOf;
    var offsets := CellOffsets();
    var buckets := FillBuckets(s, c);
    var moved := new Vec[|c|](_ => ORIGIN);
    most := 0.0;
    ghost var seen: set<(nat, nat)> := {};
    forall k | 0 <= k < |c| ensures Received(s, c, {}, k, |c|) == ORIGIN {
      ReceivedNothing(s, c, k, |c|);
    }
    assert moved[..] == Deltas(s, c, {});
    for i := 0 to |c|
      invariant Tally(s, c, seen, moved[..], most)
      invariant forall p: nat, q: nat :: (p, q) in seen <==> p < i && p < q < |c| && Near(s, c, p, q)
    {
      most, seen := VisitRow(s, c, offsets, buckets, i, moved, most, seen);
    }
    forall k | 0 <= k < |c| ensures Received(s, c, seen, k, |c|) == Net(s, c, k, |c|) {
      AllReceived(s, c, seen, k, |c|);
    }
    delta := moved[..];
    QuietWhenAllSeen(s, c, seen);
  }

  lemma QuietWhenAllSeen(s: Space, c: seq<Vec>, seen: set<(nat, nat)>)
    requires SomeNear(s, c, seen) && AllNear(s, c, seen)
    ensures NoPush(s, c, seen) <==> Quiet(s, c)
  {
    hide Near, PushOf;
    if NoPush(s, c, seen) {
      forall i: nat, j: nat | i < j < |c| && Near(s, c, i, j) ensures PushOf(s, c, i, j) == 0.0 {
        assert (i, j) in seen;
      }
    }
  }

  function Moved(c: seq<Vec>, delta: seq<Vec>): (m: seq<Vec>)
    requires |delta| == |c|
    ensures |m| == |c| && forall k :: 0 <= k < |c| ==> m[k] == Add(c[k], delta[k])
  {
    seq(|c|, k requires 0 <= k < |c| => Add(c[k], delta[k]))
  }

  /** The relaxation by all pairs: what the hashed passes are to compute. */
  ghost function Relaxed(s: Space, c: seq<Vec>, budget: nat): (r: seq<Vec>)
    ensures |r| == |c|
    decreases budget
  {
    if budget == 0 || Quiet(s, c) then c else Relaxed(s, Moved(c, Nets(s, c)), budget - 1)
  }

  method RelaxMinDistance(s: Space, coords: seq<Vec>, iterations: nat) returns (r: seq<Vec>)
    requires Sound(s)
    ensures r == Relaxed(s, coords, iterations)
  {
    hide Sound, Quiet;
    r := coords;
    for t := 0 to iterations
      invariant Relaxed(s, r, iterations - t) == Relaxed(s, coords, iterations)
    {
      var delta, most := Pass(s, r);
      if most == 0.0 {
        break;
      }
      r := Moved(r, delta);
    }
  }

  // --- What the relaxation guarantees ---------------------------------------------------

  /** Displacements cancel, whatever pairs have been seen. */
  lemma {:induction false} DeltasCancel(s: Space, c: seq<Vec>, seen: set<(nat, nat)>)
    requires SomeNear(s, c, seen)
    ensures SumOf(Deltas(s, c, seen)) == ORIGIN
  {
    hide Near, Received, Step;
    if seen == {} {
      forall k | 0 <= k < |c| ensures Deltas(s, c, seen)[k] == ORIGIN {
        ReceivedNothing(s, c, k, |c|);
      }
      SumOfZeros(Deltas(s, c, seen));
    } else {
      var pair :| pair in seen;
      var rest := seen - {pair};
      var (i, j) := pair;
      assert seen == rest + {(i, j)};
      DeltasCancel(s, c, rest);
      DeltasGrow(s, c, rest, i, j);
      var d := Deltas(s, c, rest);
      SumOfUpdate(d, i, Add(d[i], Shove(s, c, i, j)));
      SumOfUpdate(d[i := Add(d[i], Shove(s, c, i, j))], j, Add(d[j], Shove(s, c, j, i)));
    }
  }

  ghost function NearPairs(s: Space, c: seq<Vec>, n: nat): (seen: set<(nat, nat)>)
    requires n <= |c|
    ensures forall p: nat, q: nat :: (p, q) in seen <==> p < q < n && Near(s, c, p, q)
  {
    set p: nat, q: nat | p < n && q < n && p < q && Near(s, c, p, q) :: (p, q)
  }

  /** The relaxation moves points but never their centroid. */
  lemma {:induction false} CentroidKept(s: Space, c: seq<Vec>, budget: nat)
    ensures SumOf(Relaxed(s, c, budget)) == SumOf(c)
    decreases budget
  {
    hide Near, Net, Received, Quiet;
    if budget > 0 && !Quiet(s, c) {
      var seen := NearPairs(s, c, |c|);
      DeltasCancel(s, c, seen);
      forall k | 0 <= k < |c| ensures Received(s, c, seen, k, |c|) == Net(s, c, k, |c|) {
        AllReceived(s, c, seen, k, |c|);
      }
      assert Deltas(s, c, seen) == Nets(s, c);
      SumOfSums(c, Nets(s, c), Moved(c, Nets(s, c)));
      CentroidKept(s, Moved(c, Nets(s, c)), budget - 1);
    }
  }

  /** A pass pushes nothing exactly when every pair that is too close coincides and its substituted direction is as long as the minimum distance. */
  lemma QuietIff(s: Space, c: seq<Vec>)
    requires Sound(s)
    ensures Quiet(s, c) <==>
      forall i: nat, j: nat :: i < j < |c| && Near(s, c, i, j) ==> Coincide(s, c, i, j) && s.min <= Reach(s, i, j)
  {
    forall i: nat, j: nat | i < j < |c| && Near(s, c, i, j)
      ensures PushOf(s, c, i, j) == 0.0 <==> Coincide(s, c, i, j) && s.min <= Reach(s, i, j)
    {
      hide Euclidean;
    }
  }

  lemma DirectionsShort(s: Space, i: nat, j: nat)
    requires Sound(s)
    ensures Reach(s, i, j) < 2.0
  {
    var v := s.away(i, j);
    var d := s.norm(v);
    assert UnitBox(v);
    SquareAtMostOne(v.x);
    SquareAtMostOne(v.y);
    SquareAtMostOne(v.z);
    if d >= 2.0 {
      ProductGrows(2.0, 2.0, d, d);
      assert false;
    }
  }

  lemma SquareAtMostOne(x: real)
    requires -1.0 <= x <= 1.0
    ensures x * x <= 1.0
  {
    if x >= 0.0 {
      ProductGrows(x, x, 1.0, 1.0);
    } else {
      ProductGrows(-x, -x, 1.0, 1.0);
    }
  }

  lemma ShortMeansApart(s: Space, c: seq<Vec>)
    requires Sound(s) && Quiet(s, c) && forall i: nat, j: nat :: i < j < |c| ==> Reach(s, i, j) < s.min
    ensures AllApart(s, c)
  {
    QuietIff(s, c);
    hide Sound, Euclidean, Quiet, Reach, Coincide;
    forall i: nat, j: nat | i < j < |c| ensures Apart(s, c, i, j) >= s.min {
      assert !Near(s, c, i, j);
    }
  }

  /** Where a point goes when i and j share a spot and everybody is a multiple of the minimum distance away. */
  function Slot(i: nat, j: nat, k: nat): nat {
    if k == i || k == j then 0 else k + 1
  }

  function Laid(s: Space, n: nat, i: nat, j: nat): (c: seq<Vec>)
    ensures |c| == n
  {
    seq(n, k requires 0 <= k < n => Vec(Times(s.min, Slot(i, j, k) as real), 0.0, 0.0))
  }

  lemma AxisGap(norm: Vec -> real, min: real, p: nat, q: nat)
    requires Euclidean(norm) && min > 0.0
    ensures
      var gap := norm(Sub(Vec(Times(min, p as real), 0.0, 0.0), Vec(Times(min, q as real), 0.0, 0.0)));
      if p == q then gap == 0.0 else gap >= min
  {
    var d := Times(min, p as real) - Times(min, q as real);
    if p == q {
      NormOnAxis(norm, 0.0);
    } else if p > q {
      assert d == min * (p - q) as real;
      TimesLe(min, 1.0, (p - q) as real);
      NormOnAxis(norm, d);
    } else {
      assert -d == min * (q - p) as real;
      TimesLe(min, 1.0, (q - p) as real);
      NormOnAxis(norm, -d);
    }
  }

  lemma StuckLayout(s: Space, n: nat, i: nat, j: nat)
    requires Sound(s) && i < j < n && s.min <= Reach(s, i, j)
    ensures Quiet(s, Laid(s, n, i, j)) && !AllApart(s, Laid(s, n, i, j))
  {
    var c := Laid(s, n, i, j);
    forall p: nat, q: nat | p < q < n ensures if (p, q) == (i, j) then Apart(s, c, p, q) == 0.0 else !Near(s, c, p, q) {
      AxisGap(s.norm, s.min, Slot(i, j, p), Slot(i, j, q));
    }
    QuietIff(s, c);
    hide Sound, Euclidean, Quiet;
    assert Apart(s, c, i, j) < s.min;
  }

  /**
   Stopping early means that all n points are far enough apart if and only if the
   direction made for every pair of them is shorter than the minimum distance. It
   depends on the pair's numbers alone, so that the caller can tell beforehand.
   */
  lemma QuietMeansApartIff(s: Space, n: nat)
    requires Sound(s)
    ensures (forall c: seq<Vec> :: |c| == n && Quiet(s, c) ==> AllApart(s, c))
       <==> forall i: nat, j: nat :: i < j < n ==> Reach(s, i, j) < s.min
  {
    hide Sound, Quiet, AllApart, Reach;
    if forall i: nat, j: nat :: i < j < n ==> Reach(s, i, j) < s.min {
      forall c: seq<Vec> | |c| == n && Quiet(s, c) { ShortMeansApart(s, c); }
    } else {
      var i: nat, j: nat :| i < j < n && !(Reach(s, i, j) < s.min);
      StuckLayout(s, n, i, j);
    }
  }

  /** So it always does for a minimum distance of two or more. */
  lemma QuietMeansApart(s: Space, c: seq<Vec>)
    requires Sound(s) && s.min >= 2.0
    ensures Quiet(s, c) <==> AllApart(s, c)
  {
    forall i: nat, j: nat ensures Reach(s, i, j) < s.min {
      DirectionsShort(s, i, j);
    }
    QuietMeansApartIff(s, |c|);
    if AllApart(s, c) {
      QuietIff(s, c);
    }
  }

  /** If the budget was not used up, nothing was left to push; and then a larger budget changes nothing. */
  lemma {:induction false} EarlyExit(s: Space, c: seq<Vec>, budget: nat, more: nat)
    requires budget <= more && Quiet(s, Relaxed(s, c, budget))
    ensures Relaxed(s, c, more) == Relaxed(s, c, budget)
    decreases budget
  {
    hide Quiet;
    if budget > 0 && !Quiet(s, c) {
      EarlyExit(s, Moved(c, Nets(s, c)), budget - 1, more - 1);
    }
  }

  /** Two points on one spot are never parted when the direction made for them is as long as the minimum distance. */
  lemma StuckPair(s: Space, p: Vec, budget: nat)
    requires Sound(s) && s.min <= Reach(s, 0, 1)
    ensures Relaxed(s, [p, p], budget) == [p, p]
    ensures !AllApart(s, [p, p])
  {
    assert Sub(p, p) == ORIGIN;
    SameSquare(s.norm(ORIGIN), 0.0);
    assert Apart(s, [p, p], 0, 1) == 0.0;
    QuietIff(s, [p, p]);
  }

  lemma PushPositive(s: Space, c: seq<Vec>)
    requires |c| == 2 && Near(s, c, 0, 1) && !Coincide(s, c, 0, 1)
    ensures PushOf(s, c, 0, 1) > 0.0
  {
  }

  lemma PairNets(s: Space, c: seq<Vec>)
    requires |c| == 2 && Near(s, c, 0, 1)
    ensures Nets(s, c) == [Step(s, c, 0, 1), Neg(Step(s, c, 0, 1))]
  {
    hide Step, Near;
    var step := Step(s, c, 0, 1);
    assert Shove(s, c, 0, 1) == step && Shove(s, c, 1, 0) == Neg(step);
    assert Shove(s, c, 0, 0) == ORIGIN && Shove(s, c, 1, 1) == ORIGIN;
    hide Shove;
    assert Net(s, c, 0, 0) == ORIGIN && Net(s, c, 1, 0) == ORIGIN;
    assert Net(s, c, 0, 1) == ORIGIN && Net(s, c, 1, 1) == Neg(step);
    assert Net(s, c, 0, 2) == step && Net(s, c, 1, 2) == Neg(step);
  }

  lemma PairMoves(s: Space, c: seq<Vec>)
    requires |c| == 2 && Near(s, c, 0, 1) && PushOf(s, c, 0, 1) > 0.0
    ensures
      var step := Step(s, c, 0, 1);
      Relaxed(s, c, 1) == [Add(c[0], step), Add(c[1], Neg(step))]
  {
    hide Step, Net;
    PairNets(s, c);
    hide PushOf, Near;
    assert !Quiet(s, c);
    hide Quiet;
    var r := Moved(c, Nets(s, c));
    assert Relaxed(s, c, 1) == Relaxed(s, r, 0) == r;
  }

  lemma StretchedGap(norm: Vec -> real, v: Vec, k: real, d: real, min: real)
    requires Euclidean(norm) && norm(v) == d && k >= 0.0 && Times(k, d) == (min - d) * 0.5
    ensures norm(Add(v, Add(Scale(k, v), Scale(k, v)))) == min
  {
    ScalePlus(k, v);
    NormScales(norm, 1.0 + 2.0 * k, v);
    hide Euclidean, Scale;
    assert Times(1.0 + 2.0 * k, d) == d + 2.0 * Times(k, d);
  }

  /** Two points alone, too close but not coincident, end one pass exactly the minimum distance apart. */
  lemma PairParted(s: Space, p: Vec, q: Vec)
    requires Sound(s) && COINCIDENT <= s.norm(Sub(p, q)) < s.min
    ensures
      var r := Relaxed(s, [p, q], 1);
      s.norm(Sub(r[0], r[1])) == s.min
  {
    var c := [p, q];
    PushPositive(s, c);
    PairMoves(s, c);
    var k := PairStep(s, c);
    var v := Sub(p, q);
    StretchedGap(s.norm, v, k, s.norm(v), s.min);
    hide Times, Euclidean, Relaxed, Scale, Step;
    GapWidens(p, q, Scale(k, v));
  }

  lemma PairStep(s: Space, c: seq<Vec>) returns (k: real)
    requires Sound(s) && |c| == 2 && Near(s, c, 0, 1) && !Coincide(s, c, 0, 1)
    ensures Step(s, c, 0, 1) == Scale(k, Sub(c[0], c[1])) && k >= 0.0
    ensures Times(k, Apart(s, c, 0, 1)) == (s.min - Apart(s, c, 0, 1)) * 0.5
  {
    hide Euclidean;
    var push, d := PushOf(s, c, 0, 1), Apart(s, c, 0, 1);
    k := push / d;
    assert Step(s, c, 0, 1) == Scale(k, Sub(c[0], c[1]));
    QuotientTimes(push, d);
  }

  lemma QuotientTimes(x: real, d: real)
    requires x >= 0.0 && d > 0.0
    ensures Times(x / d, d) == x && x / d >= 0.0
  {
  }

  // --- Where a push goes ----------------------------------------------------------------

  lemma PushIsAlong(norm: Vec -> real, push: real, u: Vec)
    requires Euclidean(norm) && push >= 0.0 && norm(u) > 0.0
    ensures Along(norm, Scale(push / norm(u), u), u, push)
  {
    QuotientTimes(push, norm(u));
    NormScales(norm, push / norm(u), u);
  }

  lemma NegAlong(norm: Vec -> real, v: Vec, u: Vec, length: real)
    requires Euclidean(norm) && Along(norm, v, u, length)
    ensures Along(norm, Neg(v), Neg(u), length)
  {
    var m :| m >= 0.0 && v == Scale(m, u);
    ScaleAdds(m, u, u);
    assert Neg(v) == Scale(m, Neg(u));
    NormOfNeg(norm, v);
  }

  /** The direction made for a coincident pair, as k is parted from j by it: the later point goes the other way. */
  function Parting(s: Space, k: nat, j: nat): Vec {
    if k < j then s.away(k, j) else Neg(s.away(j, k))
  }

  function HalfMissing(s: Space, d: real): real {
    if d < s.min then (s.min - d) / 2.0 else 0.0
  }

  /**
   What a point receives because of another one it lies v away from: nothing if v
   is long enough; else half of what is missing, along v, or along the direction
   u made for the pair if the two coincide.
   */
  ghost predicate PushedApart(s: Space, v: Vec, u: Vec, shove: Vec) {
    var gap := s.norm(v);
    if gap >= s.min then shove == ORIGIN
    else if gap >= COINCIDENT then Along(s.norm, shove, v, HalfMissing(s, gap))
    else if u == ORIGIN then shove == ORIGIN
    else Along(s.norm, shove, u, HalfMissing(s, s.norm(u)))
  }

  lemma StepPushesApart(s: Space, c: seq<Vec>, i: nat, j: nat)
    requires Euclidean(s.norm) && i < j < |c| && Near(s, c, i, j)
    ensures PushedApart(s, Sub(c[i], c[j]), s.away(i, j), Step(s, c, i, j))
  {
    hide Euclidean, Times, Scale, Along, Square;
    var u, push := s.away(i, j), PushOf(s, c, i, j);
    PushNonNegative(s, c, i, j);
    if Coincide(s, c, i, j) {
      NoLengthIsOrigin(s.norm, u);
      if u == ORIGIN {
        ScaleAdds(push, u, u);
      } else {
        PushIsAlong(s.norm, push, u);
      }
    } else {
      PushIsAlong(s.norm, push, Sub(c[i], c[j]));
    }
  }

  lemma NegOrigin(v: Vec)
    ensures Neg(v) == ORIGIN <==> v == ORIGIN
  {
  }

  lemma MirroredPush(s: Space, v: Vec, u: Vec, shove: Vec)
    requires Euclidean(s.norm) && PushedApart(s, v, u, shove)
    ensures PushedApart(s, Neg(v), Neg(u), Neg(shove))
  {
    hide Euclidean, Along, HalfMissing, Neg;
    NegOrigin(u);
    NegOrigin(shove);
    NormOfNeg(s.norm, v);
    NormOfNeg(s.norm, u);
    var gap := s.norm(v);
    if COINCIDENT <= gap < s.min {
      NegAlong(s.norm, shove, v, HalfMissing(s, gap));
    } else if gap < s.min && u != ORIGIN {
      NegAlong(s.norm, shove, u, HalfMissing(s, s.norm(u)));
    }
  }

  /** In any group each point is pushed away from each other point that is too close, by half of what is missing; the two halves are opposite. */
  lemma ShovePushesApart(s: Space, c: seq<Vec>, k: nat, j: nat)
    requires Euclidean(s.norm) && k < |c| && j < |c| && k != j
    ensures PushedApart(s, Sub(c[k], c[j]), Parting(s, k, j), Shove(s, c, k, j))
    ensures Shove(s, c, j, k) == Neg(Shove(s, c, k, j))
  {
    hide Euclidean, Step, Shove, PushedApart;
    if k < j {
      ForwardShove(s, c, k, j);
    } else {
      ForwardShove(s, c, j, k);
      assert Sub(c[k], c[j]) == Neg(Sub(c[j], c[k])) && Parting(s, k, j) == Neg(s.away(j, k));
      MirroredPush(s, Sub(c[j], c[k]), s.away(j, k), Shove(s, c, j, k));
    }
  }

  lemma ForwardShove(s: Space, c: seq<Vec>, i: nat, j: nat)
    requires Euclidean(s.norm) && i < j < |c|
    ensures PushedApart(s, Sub(c[i], c[j]), s.away(i, j), Shove(s, c, i, j))
    ensures Shove(s, c, j, i) == Neg(Shove(s, c, i, j))
  {
    hide Euclidean, Step;
    if Near(s, c, i, j) {
      StepPushesApart(s, c, i, j);
    }
  }

  // --- Two points on one spot -----------------------------------------------------------

  /** The pair is apart, along u. */
  ghost predicate ApartAlong(c: seq<Vec>, u: Vec)
    requires |c| == 2
  {
    exists k :: k > 0.0 && Sub(c[0], c[1]) == Scale(k, u)
  }

  lemma ScaleSums(a: real, b: real, u: Vec)
    ensures Add(Scale(a, u), Add(Scale(b, u), Scale(b, u))) == Scale(a + 2.0 * b, u)
  {
  }

  lemma Positive(a: real, b: real)
    requires a > 0.0 && b > 0.0
    ensures Times(a, b) > 0.0
  {
  }

  /** The gap after a pass over a pair that is pushed. */
  lemma GapAfter(s: Space, c: seq<Vec>)
    requires |c| == 2 && Near(s, c, 0, 1) && PushOf(s, c, 0, 1) > 0.0
    ensures
      var r, step := Relaxed(s, c, 1), Step(s, c, 0, 1);
      |r| == 2 && Sub(r[0], r[1]) == Add(Sub(c[0], c[1]), Add(step, step))
  {
    PairMoves(s, c);
    GapWidens(c[0], c[1], Step(s, c, 0, 1));
  }

  lemma QuietStays(s: Space, c: seq<Vec>, budget: nat)
    requires Quiet(s, c)
    ensures Relaxed(s, c, budget) == c
  {
  }

  /** A pass keeps a pair apart along the direction made for it. */
  lemma StaysAlong(s: Space, c: seq<Vec>)
    requires Sound(s) && |c| == 2 && 0.0 < s.norm(s.away(0, 1)) < s.min && ApartAlong(c, s.away(0, 1))
    ensures ApartAlong(Relaxed(s, c, 1), s.away(0, 1))
  {
    hide Euclidean, Times, Scale, Square, Relaxed, Step;
    var u := s.away(0, 1);
    var k :| k > 0.0 && Sub(c[0], c[1]) == Scale(k, u);
    if !Near(s, c, 0, 1) {
      assert Quiet(s, c);
      QuietStays(s, c, 1);
    } else {
      QuietIff(s, c);
      GapAfter(s, c);
      StepPushesApart(s, c, 0, 1);
      if Coincide(s, c, 0, 1) {
        assert u != ORIGIN by { NoLengthIsOrigin(s.norm, u); }
        var m :| m >= 0.0 && Step(s, c, 0, 1) == Scale(m, u);
        ScaleSums(k, m, u);
        assert k + 2.0 * m > 0.0;
      } else {
        var m :| m >= 0.0 && Step(s, c, 0, 1) == Scale(m, Scale(k, u));
        ScalePlus(m, Scale(k, u));
        ScaleTwice(1.0 + 2.0 * m, k, u);
        Positive(1.0 + 2.0 * m, k);
      }
    }
  }

  lemma PassThenRest(s: Space, c: seq<Vec>, budget: nat)
    requires budget > 0
    ensures Relaxed(s, c, budget) == Relaxed(s, Relaxed(s, c, 1), budget - 1)
  {
    hide Quiet;
    if Quiet(s, c) {
      QuietStays(s, c, budget - 1);
    }
  }

  lemma {:induction false} AlwaysAlong(s: Space, c: seq<Vec>, budget: nat)
    requires Sound(s) && |c| == 2 && 0.0 < s.norm(s.away(0, 1)) < s.min && ApartAlong(c, s.away(0, 1))
    ensures ApartAlong(Relaxed(s, c, budget), s.away(0, 1))
    decreases budget
  {
    hide Sound, Quiet, ApartAlong;
    if budget > 0 {
      PassThenRest(s, c, budget);
      StaysAlong(s, c);
      AlwaysAlong(s, Relaxed(s, c, 1), budget - 1);
    }
  }

  lemma OnOneSpot(s: Space, p: Vec)
    requires Euclidean(s.norm) && s.min > 0.0
    ensures Sub(p, p) == ORIGIN
    ensures Near(s, [p, p], 0, 1) && Coincide(s, [p, p], 0, 1)
  {
    hide Euclidean;
    assert Sub(p, p) == ORIGIN;
    NoLengthIsOrigin(s.norm, ORIGIN);
  }

  /** The first pass leaves them as far apart as the direction is short of the minimum distance. */
  lemma FirstPassParts(s: Space, p: Vec)
    requires Sound(s) && 0.0 < s.norm(s.away(0, 1)) < s.min
    ensures
      var r, u := Relaxed(s, [p, p], 1), s.away(0, 1);
      ApartAlong(r, u) && s.norm(Sub(r[0], r[1])) == s.min - s.norm(u)
  {
    hide Euclidean, Times, Scale, Square, Relaxed;
    var c, u := [p, p], s.away(0, 1);
    var d := s.norm(u);
    OnOneSpot(s, p);
    GapAfter(s, c);
    var m := PushOf(s, c, 0, 1) / d;
    assert PushOf(s, c, 0, 1) == (s.min - d) * 0.5;
    assert Step(s, c, 0, 1) == Scale(m, u);
    QuotientTimes(PushOf(s, c, 0, 1), d);
    ScaleSums(0.0, m, u);
    ScaleZero(u);
    hide Step, PushOf, Near, Coincide;
    NormScales(s.norm, 2.0 * m, u);
    Doubled(m, d);
    PositiveFactor(m, d);
  }

  lemma PositiveFactor(m: real, d: real)
    requires d > 0.0 && Times(m, d) > 0.0
    ensures m > 0.0
  {
  }

  lemma Doubled(m: real, d: real)
    ensures Times(2.0 * m, d) == 2.0 * Times(m, d)
  {
  }

  lemma {:induction false} NoDirectionNoParting(s: Space, p: Vec, budget: nat)
    requires Sound(s) && s.away(0, 1) == ORIGIN
    ensures Relaxed(s, [p, p], budget) == [p, p]
    decreases budget
  {
    hide Euclidean, Square, Step;
    var c := [p, p];
    if budget > 0 {
      NoDirectionNoParting(s, p, budget - 1);
      if !Quiet(s, c) {
        NoDirectionNoPush(s, p);
      }
    }
  }

  lemma NoDirectionNoPush(s: Space, p: Vec)
    requires Euclidean(s.norm) && s.min > 0.0 && s.away(0, 1) == ORIGIN
    ensures Moved([p, p], Nets(s, [p, p])) == [p, p]
  {
    hide Euclidean, Step, Near, Net, Coincide;
    OnOneSpot(s, p);
    NoDirectionNoStep(s, p);
    PairNets(s, [p, p]);
  }

  lemma NoDirectionNoStep(s: Space, p: Vec)
    requires Euclidean(s.norm) && s.min > 0.0 && s.away(0, 1) == ORIGIN
    ensures Step(s, [p, p], 0, 1) == ORIGIN
  {
    hide Euclidean, Step;
    OnOneSpot(s, p);
    StepPushesApart(s, [p, p], 0, 1);
  }

  /**
   Two points on one spot are parted if and only if the direction made for them
   is shorter than the minimum distance (and not null). They then stay apart
   along it, the first along it and the second against it; the first pass
   leaves them short of the minimum distance by the length of the direction.
   */
  lemma OneSpotPartedIff(s: Space, p: Vec, budget: nat)
    requires Sound(s) && budget > 0
    ensures
      var r, u := Relaxed(s, [p, p], budget), s.away(0, 1);
      && (r[0] != r[1] <==> 0.0 < s.norm(u) < s.min)
      && (r[0] != r[1] ==> ApartAlong(r, u))
      && (r[0] != r[1] && budget == 1 ==> s.norm(Sub(r[0], r[1])) == s.min - s.norm(u))
  {
    hide Euclidean, Square, Relaxed, ApartAlong;
    var r, u := Relaxed(s, [p, p], budget), s.away(0, 1);
    NoLengthIsOrigin(s.norm, u);
    if u == ORIGIN {
      NoDirectionNoParting(s, p, budget);
    } else if s.norm(u) >= s.min {
      StuckPair(s, p, budget);
    } else {
      FirstPassParts(s, p);
      PassThenRest(s, [p, p], budget);
      AlwaysAlong(s, Relaxed(s, [p, p], 1), budget - 1);
      AlongMeansApart(s.norm, r, u);
    }
  }

  /** A pass leaves two points on one spot alone for good if and only if the direction is long enough, a null one counting as of length 1. */
  lemma OneSpotQuietIff(s: Space, p: Vec)
    requires Sound(s)
    ensures Quiet(s, [p, p]) <==> s.min <= if s.away(0, 1) == ORIGIN then 1.0 else s.norm(s.away(0, 1))
  {
    hide Euclidean, Square;
    OnOneSpot(s, p);
    NoLengthIsOrigin(s.norm, s.away(0, 1));
    QuietIff(s, [p, p]);
  }

  lemma AlongMeansApart(norm: Vec -> real, c: seq<Vec>, u: Vec)
    requires Euclidean(norm) && |c| == 2 && ApartAlong(c, u) && norm(u) > 0.0
    ensures c[0] != c[1]
  {
    var k :| k > 0.0 && Sub(c[0], c[1]) == Scale(k, u);
    NormScales(norm, k, u);
    Positive(k, norm(u));
    NoLengthIsOrigin(norm, ORIGIN);
  }

  /** A second pass brings them to exactly the minimum distance, unless the first left them all but coincident. */
  lemma SecondPassSettles(s: Space, p: Vec)
    requires Sound(s) && 0.0 < s.norm(s.away(0, 1)) <= s.min - COINCIDENT
    ensures
      var r := Relaxed(s, [p, p], 2);
      s.norm(Sub(r[0], r[1])) == s.min
  {
    FirstPassParts(s, p);
    PassThenRest(s, [p, p], 2);
    var r := Relaxed(s, [p, p], 1);
    assert r == [r[0], r[1]];
    PairParted(s, r[0], r[1]);
  }
}
