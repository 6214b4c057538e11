/** The loops of relax_in_groups: row blocks, spring accumulation, early exit, and the pass over all groups. */
module GalacticRelaxLoops {
  import opened RealFacts
  import opened Vectors
  import opened GalacticRelax

  const RELAX_BLOCK_ELEMS := 1000000
  const RELAX_FULL_ITERS_SIZE := 2048
  const RELAX_MIN_ITERS := 8

  /** Rows per repulsion block. */
  function RowChunk(m: nat): (rows: nat)
    ensures rows > 0 || m == 0
  {
    if m <= 512 then m
    else
      var rows := RELAX_BLOCK_ELEMS / (3 * m);
      if rows < 1 then 1 else rows
  }

  /** The iteration budget, cut for giant groups. */
  function Budget(iterations: nat, m: nat): nat {
    if m > RELAX_FULL_ITERS_SIZE then
      var cut := iterations * RELAX_FULL_ITERS_SIZE / m;
      if cut < RELAX_MIN_ITERS then RELAX_MIN_ITERS else cut
    else iterations
  }

  lemma AddOrigin(a: Vec)
    ensures Add(a, ORIGIN) == a
  {
  }

  /**
   force[start + near_rows] += pushes, over the near pairs of one block of rows
   in row-major order. The right-hand side is computed from the force as it was.
   */
  method RepelBlock(norm: Vec -> real, x: seq<Vec>, force: array<Vec>, start: nat, stop: nat)
    requires start <= stop <= |x| == force.Length
    modifies force
    ensures forall i :: 0 <= i < |x| ==>
      force[i] == if start <= i < stop then Add(old(force[i]), Kick(norm, x, i, |x|)) else old(force[i])
  {
    hide Push, Near;
    var before := force[..];
    for r := start to stop
      invariant forall i :: 0 <= i < |x| ==>
        force[i] == if start <= i < r then Add(before[i], Kick(norm, x, i, |x|)) else before[i]
    {
      AddOrigin(before[r]);
      for c := 0 to |x|
        invariant forall i :: 0 <= i < |x| && i != r ==>
          force[i] == if start <= i < r then Add(before[i], Kick(norm, x, i, |x|)) else before[i]
        invariant force[r] == Add(before[r], Kick(norm, x, r, c))
      {
        if Near(norm, x, r, c) {
          force[r] := Add(before[r], Push(norm, x[r], x[c]));
        }
      }
    }
  }

  /** np.add.at(force, idx, vals) */
  method Accumulate(force: array<Vec>, idx: seq<nat>, vals: seq<Vec>)
    requires |idx| == |vals| && forall k :: 0 <= k < |idx| ==> idx[k] < force.Length
    modifies force
    ensures force[..] == AddAt(old(force[..]), idx, vals)
  {
    for k := 0 to |idx|
      invariant force[..] == AddAt(old(force[..]), idx[..k], vals[..k])
    {
      assert idx[..k + 1][..k] == idx[..k] && vals[..k + 1][..k] == vals[..k];
      force[idx[k]] := Add(force[idx[k]], vals[k]);
    }
    assert idx[..|idx|] == idx && vals[..|vals|] == vals;
  }

  /** The force of one iteration; the size of the row blocks does not show in it. */
  method ForceInBlocks(norm: Vec -> real, place: seq<Vec>, x: seq<Vec>, springs: seq<Spring>, rowChunk: nat) returns (f: seq<Vec>)
    requires |place| == |x| && InGroup(springs, |x|) && (rowChunk > 0 || |x| == 0)
    ensures f == Force(norm, place, x, springs)
  {
    hide Kick, AddAt, Push, Near;
    var m := |x|;
    var anchored := Anchored(place, x);
    var force := new Vec[m](i requires 0 <= i < |anchored| => anchored[i]);
    var start := 0;
    while start < m
      invariant 0 <= start <= m
      invariant forall i :: 0 <= i < m ==>
        force[i] == if i < start then Add(anchored[i], Kick(norm, x, i, m)) else anchored[i]
    {
      var stop := if start + rowChunk < m then start + rowChunk else m;
      RepelBlock(norm, x, force, start, stop);
      start := stop;
    }
    assert force[..] == Together(anchored, Kicks(norm, x));
    var pulls := Pulls(norm, x, springs);
    Accumulate(force, Firsts(springs), pulls);
    Accumulate(force, Seconds(springs), Opposite(pulls));
    f := force[..];
  }

  /** One group, from its places: the same result for every block size. */
  method RelaxGroup(norm: Vec -> real, place: seq<Vec>, springs: seq<Spring>, budget: nat, rowChunk: nat) returns (x: seq<Vec>)
    requires InGroup(springs, |place|) && (rowChunk > 0 || |place| == 0)
    ensures x == Relaxed(norm, place, springs, budget)
  {
    hide Force, Settled;
    x := place;
    var velocity := Still(|place|);
    var left := budget;
    while left > 0
      invariant |x| == |velocity| == |place|
      invariant Run(norm, place, springs, Motion(x, velocity), left) == Relaxed(norm, place, springs, budget)
    {
      var force := ForceInBlocks(norm, place, x, springs, rowChunk);
      velocity := NextVelocity(velocity, force);
      x := NextPosition(x, velocity);
      left := left - 1;
      if Settled(velocity) {
        break;
      }
    }
  }

    /** A large group gets as many iterations as keep its work within that of RELAX_FULL_ITERS_SIZE members, but 8 at least. */
  lemma BudgetFits(iterations: nat, m: nat)
    ensures m <= 2048 ==> Budget(iterations, m) == iterations
    ensures m > 2048 ==>
      var b := Budget(iterations, m);
      && b >= 8 && (b > 8 ==> b * m <= iterations * 2048) && (b + 1) * m > iterations * 2048
  {
    if m > 2048 {
      var cut := iterations * 2048 / m;
      assert cut * m <= iterations * 2048 < (cut + 1) * m;
      if cut < 8 {
        assert (cut + 1) * m <= 9 * m;
      }
    }
  }

/** Members of different groups differ, and no member is listed twice. */
  ghost predicate Groups(members: seq<seq<nat>>, n: nat) {
    && (forall g, p :: 0 <= g < |members| && 0 <= p < |members[g]| ==> members[g][p] < n)
    && (forall g, h, p, q ::
          (0 <= g < |members| && 0 <= h < |members| && 0 <= p < |members[g]| && 0 <= q < |members[h]| && (g != h || p != q))
          ==> members[g][p] != members[h][q])
  }

  function Gather(coords: seq<Vec>, members: seq<nat>): (x: seq<Vec>)
    requires forall p :: 0 <= p < |members| ==> members[p] < |coords|
    ensures |x| == |members|
  {
    seq(|members|, p requires 0 <= p < |members| => coords[members[p]])
  }

  /** Where a member of a group ends up. */
  ghost function Target(norm: Vec -> real, coords: seq<Vec>, members: seq<nat>, springs: seq<Spring>, iterations: nat): (x: seq<Vec>)
    requires forall p :: 0 <= p < |members| ==> members[p] < |coords|
    requires InGroup(springs, |members|)
    ensures |x| == |members|
  {
    if |members| < 2 then Gather(coords, members)
    else Relaxed(norm, Gather(coords, members), springs, Budget(iterations, |members|))
  }

  ghost predicate InGroups(node: nat, members: seq<seq<nat>>) {
    exists g, p :: 0 <= g < |members| && 0 <= p < |members[g]| && members[g][p] == node
  }

  /** coords[members] = x */
  method Place(coords: array<Vec>, members: seq<nat>, x: seq<Vec>)
    requires |x| == |members| && (forall p :: 0 <= p < |members| ==> members[p] < coords.Length)
    requires forall p, q :: 0 <= p < q < |members| ==> members[p] != members[q]
    modifies coords
    ensures forall p :: 0 <= p < |members| ==> coords[members[p]] == x[p]
    ensures forall i :: 0 <= i < coords.Length && i !in members ==> coords[i] == old(coords[i])
  {
    for k := 0 to |members|
      invariant forall p :: 0 <= p < k ==> coords[members[p]] == x[p]
      invariant forall i :: 0 <= i < coords.Length && i !in members[..k] ==> coords[i] == old(coords[i])
    {
      coords[members[k]] := x[k];
    }
  }

  /** Every group is relaxed from its own places; nodes of smaller groups, and of none, stay. */
  method RelaxInGroups(norm: Vec -> real, coords: seq<Vec>, members: seq<seq<nat>>, springs: seq<seq<Spring>>, iterations: nat)
    returns (relaxed: seq<Vec>)
    requires Groups(members, |coords|) && |springs| == |members|
    requires forall g :: 0 <= g < |members| ==> InGroup(springs[g], |members[g]|)
    ensures |relaxed| == |coords|
    ensures forall g, p :: 0 <= g < |members| && 0 <= p < |members[g]| ==>
      relaxed[members[g][p]] == Target(norm, coords, members[g], springs[g], iterations)[p]
    ensures forall i :: 0 <= i < |coords| && !InGroups(i, members) ==> relaxed[i] == coords[i]
  {
    hide Relaxed, Budget, RowChunk;
    var out := new Vec[|coords|](i requires 0 <= i < |coords| => coords[i]);
    for g := 0 to |members|
      invariant forall h, p :: 0 <= h < g && 0 <= p < |members[h]| ==>
        out[members[h][p]] == Target(norm, coords, members[h], springs[h], iterations)[p]
      invariant forall h, p :: g <= h < |members| && 0 <= p < |members[h]| ==> out[members[h][p]] == coords[members[h][p]]
      invariant forall i :: 0 <= i < |coords| && !InGroups(i, members) ==> out[i] == coords[i]
    {
      var m := |members[g]|;
      if m >= 2 {
        var place := Gather(out[..], members[g]);
        assert place == Gather(coords, members[g]);
        var x := RelaxGroup(norm, place, springs[g], Budget(iterations, m), RowChunk(m));
        Place(out, members[g], x);
      }
    }
    relaxed := out[..];
  }
}
