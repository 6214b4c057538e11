/** What the cuts of cut_into_arms come to, in terms of the masses alone: where a cut may fall, which place is chosen, and where a vertex then sits. */
module ArmCuts {
  import opened Options
  import opened RealFacts
  import opened RealSeqs
  import opened GalacticArms

  /** The mass of k arms. */
  function Quarters(f: Profile, k: nat): real {
    f.quarter * k as real
  }

  /** p is not the last vertex, and the mass up to it is within a twentieth of a quarter of k quarters. */
  predicate InReach(f: Profile, k: nat, p: nat) {
    p + 1 < |f.cum| && Quarters(f, k) - f.quarter / 20.0 <= f.cum[p] < Quarters(f, k) + f.quarter / 20.0
  }

  /** p is the first vertex up to which the mass reaches k quarters, or the last but one if only the last does. */
  predicate Reaches(f: Profile, k: nat, p: nat) {
    && p + 1 < |f.cum| && (f.cum[p] >= Quarters(f, k) || p + 2 == |f.cum|)
    && forall q :: 0 <= q < p ==> f.cum[q] < Quarters(f, k)
  }

  lemma AimIs(f: Profile, k: nat)
    ensures Aim(f, k) == Quarters(f, k) && 0.05 * f.quarter == f.quarter / 20.0
  {
  }

  lemma SearchIff(cum: seq<real>, t: real, p: nat)
    requires Climbing(cum) && p < |cum|
    ensures p < SearchSorted(cum, t) <==> cum[p] < t
  {
    var i := SearchSorted(cum, t);
    if i <= p {
      assert cum[i] <= cum[p];
    }
  }

  /** A cut may fall exactly where the mass is near its target, where there is such a place. */
  lemma WindowIff(f: Profile, k: nat, p: nat)
    requires ProfileOk(f) && Climbing(f.cum) && Regular(f, k)
    ensures InWindow(f, k, p) <==> InReach(f, k, p)
  {
    hide Aim, SearchSorted, Climbing, Quarters;
    AimIs(f, k);
    if p < |f.cum| {
      SearchIff(f.cum, Aim(f, k) - 0.05 * f.quarter, p);
      SearchIff(f.cum, Aim(f, k) + 0.05 * f.quarter, p);
    }
  }

  lemma NearMeansRegular(f: Profile, k: nat, p: nat)
    requires ProfileOk(f) && Climbing(f.cum) && InReach(f, k, p)
    ensures Regular(f, k)
  {
    hide Aim, SearchSorted, Climbing, Quarters;
    AimIs(f, k);
    SearchIff(f.cum, Aim(f, k) - 0.05 * f.quarter, p);
    SearchIff(f.cum, Aim(f, k) + 0.05 * f.quarter, p);
  }

  lemma RegularIff(f: Profile, k: nat)
    requires ProfileOk(f) && Climbing(f.cum)
    ensures Regular(f, k) <==> exists p: nat :: InReach(f, k, p)
  {
    hide Aim, SearchSorted, Climbing, InReach;
    if Regular(f, k) {
      var lo := SearchSorted(f.cum, Aim(f, k) - Slack(f));
      assert InWindow(f, k, lo);
      WindowIff(f, k, lo);
    }
    if p: nat :| InReach(f, k, p) {
      NearMeansRegular(f, k, p);
    }
  }

  /** Where no place is near the target, a cut may fall where the target is reached or just before. */
  lemma IrregularWindow(f: Profile, k: nat, at: nat, p: nat)
    requires ProfileOk(f) && Climbing(f.cum) && !Regular(f, k) && Reaches(f, k, at)
    requires f.cum[at] >= Quarters(f, k)
    ensures InWindow(f, k, p) <==> p == at || p + 1 == at
  {
    hide Aim, Climbing;
    AimIs(f, k);
    MidIs(f, k, at);
    hide SearchSorted;
  }

  lemma MidIs(f: Profile, k: nat, at: nat)
    requires ProfileOk(f) && Reaches(f, k, at) && f.cum[at] >= Quarters(f, k)
    ensures SearchSorted(f.cum, Aim(f, k)) == at
  {
    hide Aim;
    AimIs(f, k);
  }

  /** How far the mass up to p is from k quarters. */
  function Off(f: Profile, k: nat, p: nat): real
    requires p < |f.cum|
  {
    if f.cum[p] < Quarters(f, k) then Quarters(f, k) - f.cum[p] else f.cum[p] - Quarters(f, k)
  }

  /** Crossing weight against distance from the target: a whole quarter of the mass counts as much as four times the heaviest crossing. */
  function Cost(f: Profile, k: nat, p: nat): real
    requires p < |f.cum| && p < |f.cut|
  {
    f.quarter * f.cut[p] + 4.0 * Off(f, k, p)
  }

  lemma ScoreIsCost(f: Profile, k: nat, p: nat)
    requires ProfileOk(f) && p < |f.cut|
    ensures Times(f.quarter, Score(f, k, p)) == Cost(f, k, p)
  {
    hide Aim;
    AimIs(f, k);
    var off := Abs(f.cum[p] - Aim(f, k));
    assert off == Off(f, k, p);
    var x := 4.0 * off / f.quarter;
    assert f.quarter * x == 4.0 * off;
    Distribute(f.quarter, f.cut[p], x);
  }

  lemma LessCost(f: Profile, k: nat, p: nat, q: nat)
    requires ProfileOk(f) && p < |f.cut| && q < |f.cut|
    ensures Score(f, k, p) < Score(f, k, q) ==> Cost(f, k, p) < Cost(f, k, q)
    ensures Score(f, k, p) == Score(f, k, q) ==> Cost(f, k, p) == Cost(f, k, q)
  {
    ScoreIsCost(f, k, p);
    ScoreIsCost(f, k, q);
    hide Cost, Score, Times;
    if Score(f, k, p) < Score(f, k, q) {
      TimesLt(f.quarter, Score(f, k, p), Score(f, k, q));
    }
  }

  /** At least an eighth of the vertices, and at least one, away from every cut so far. */
  predicate Clear(n: nat, cuts: seq<nat>, p: nat) {
    forall i :: 0 <= i < |cuts| ==> cuts[i] != p && (cuts[i] < p ==> p - cuts[i] >= n / 8) && (p < cuts[i] ==> cuts[i] - p >= n / 8)
  }

  lemma ClearIff(n: nat, cuts: seq<nat>, p: nat)
    ensures Allowed(cuts, p, MinGap(n)) <==> Clear(n, cuts, p)
  {
    if Allowed(cuts, p, MinGap(n)) {
      forall i | 0 <= i < |cuts| ensures Gap(p, cuts[i]) >= MinGap(n) {
        assert cuts[i] in cuts;
      }
    }
  }

  /**
   The k-th cut costs no more than any other place where it may fall, clear of the
   earlier cuts, and is leftmost among its equals; where there is no such place it
   falls where the mass reaches its target.
   */
  lemma CutIsCheapest(f: Profile, cuts: seq<nat>, k: nat, p: nat, q: nat)
    requires ProfileOk(f) && IsCut(f, cuts, k, p) && InWindow(f, k, q) && Clear(|f.cum|, cuts, q)
    ensures InWindow(f, k, p) && Clear(|f.cum|, cuts, p)
    ensures Cost(f, k, p) < Cost(f, k, q) || (Cost(f, k, p) == Cost(f, k, q) && p <= q)
  {
    ClearIff(|f.cum|, cuts, p);
    ClearIff(|f.cum|, cuts, q);
    hide Window, Score, Cost, Allowed, Clear;
    assert InWindow(f, k, p);
    LessCost(f, k, p, q);
  }

  lemma CutWithoutChoice(f: Profile, cuts: seq<nat>, k: nat, p: nat)
    requires ProfileOk(f) && IsCut(f, cuts, k, p) && Climbing(f.cum)
    requires forall q: nat :: InWindow(f, k, q) ==> !Clear(|f.cum|, cuts, q)
    ensures Reaches(f, k, p)
  {
    forall q: nat | InWindow(f, k, q) ensures !Allowed(cuts, q, MinGap(|f.cum|)) {
      ClearIff(|f.cum|, cuts, q);
    }
    hide Window, Allowed, Clear, Aim;
    AimIs(f, k);
  }

  /** Inside an arm of several vertices the slots run from 0 to 1 in equal steps; a vertex alone sits in the middle. */
  lemma SlotsAreEven(order: seq<nat>, arm: seq<int>, slot: seq<real>, bounds: seq<int>, a: nat, i: int)
    requires AreArms(order, arm, slot, bounds) && a < N_ARMS && bounds[a] < i <= bounds[a + 1]
    ensures
      var size, v := bounds[a + 1] - bounds[a], order[i];
      && (size == 1 ==> slot[v] == 0.5)
      && (size > 1 && i == bounds[a] + 1 ==> slot[v] == 0.0)
      && (size > 1 && i == bounds[a + 1] ==> slot[v] == 1.0)
      && (size > 1 && i < bounds[a + 1] ==> slot[order[i + 1]] - slot[v] == 1.0 / (size - 1) as real)
  {
    assert ArmHolds(order, bounds, a, arm, slot);
    var lo, hi := bounds[a], bounds[a + 1];
    assert slot[order[i]] == Slot(lo, hi, i);
    assert i < hi ==> slot[order[i + 1]] == Slot(lo, hi, i + 1);
    if hi - lo > 1 {
      Steps((i - lo - 1) as real, (hi - lo - 1) as real);
    }
  }

  lemma Steps(x: real, d: real)
    requires d > 0.0
    ensures (x + 1.0) / d - x / d == 1.0 / d && 0.0 / d == 0.0 && d / d == 1.0
  {
    assert (x + 1.0) / d == x / d + 1.0 / d;
  }
}
