/** What the statements that rewrite granules do to each row: how long confidence decays, and whom forget, retract and update reach. */
module GranuleStatements {
  import opened Options
  import opened RealFacts
  import opened Schema
  import opened Queries

  // --- Decay --------------------------------------------------------------------------------

  /** The granules after n daily decays with the same settings. */
  function DecayedDaily(m: map<Id, Granule>, rates: map<nat, real>, rate: real, floor: real, n: nat): map<Id, Granule> {
    if n == 0 then m else DecayConfidence(DecayedDaily(m, rates, rate, floor, n - 1), rates, rate, floor)
  }

  /** c * r^n */
  function Shrunk(c: real, r: real, n: nat): real {
    if n == 0 then c else Times(Shrunk(c, r, n - 1), r)
  }

  function RateOf(rates: map<nat, real>, rate: real, ns: nat): real {
    if ns in rates then rates[ns] else rate
  }

  /** Asserted, not frozen and above the floor. */
  predicate Decays(g: Granule, floor: real) {
    g.status == Asserted && !g.frozen && g.confidence > floor
  }

  function AtLeast(floor: real, c: real): real {
    if c >= floor then c else floor
  }

  lemma DecayOnce(m: map<Id, Granule>, rates: map<nat, real>, rate: real, floor: real, g: Id)
    requires g in m
    ensures
      var was := m[g];
      var c := Times(was.confidence, RateOf(rates, rate, was.ns));
      g in DecayConfidence(m, rates, rate, floor)
      && DecayConfidence(m, rates, rate, floor)[g] == if Decays(was, floor) then was.(confidence := AtLeast(floor, c)) else was
  {
  }

  lemma {:induction false} ShrunkFalls(c: real, r: real, n: nat)
    requires 0.0 <= c && 0.0 <= r <= 1.0
    ensures 0.0 <= Shrunk(c, r, n + 1) <= Shrunk(c, r, n) <= c
    decreases n
  {
    if n > 0 {
      ShrunkFalls(c, r, n - 1);
    }
    ProductGrows(Shrunk(c, r, n), r, Shrunk(c, r, n), 1.0);
    ProductGrows(0.0, r, Shrunk(c, r, n), r);
  }

  /**
   After n days an asserted granule that is not frozen has its confidence times
   its namespace's rate to the n-th, but never less than the floor; one frozen,
   closed or already at the floor has what it had, and nothing but the
   confidence ever changes.
   */
  lemma {:induction false} DecaySettles(m: map<Id, Granule>, rates: map<nat, real>, rate: real, floor: real, n: nat, g: Id)
    requires g in m && 0.0 <= floor && 0.0 <= RateOf(rates, rate, m[g].ns) <= 1.0
    ensures g in DecayedDaily(m, rates, rate, floor, n)
    ensures
      var was := m[g];
      var c := Shrunk(was.confidence, RateOf(rates, rate, was.ns), n);
      DecayedDaily(m, rates, rate, floor, n)[g] == if Decays(was, floor) then was.(confidence := AtLeast(floor, c)) else was
  {
    hide DecayConfidence, RateOf, Times;
    if n > 0 {
      var was, r := m[g], RateOf(rates, rate, m[g].ns);
      DecaySettles(m, rates, rate, floor, n - 1, g);
      DecayOnce(DecayedDaily(m, rates, rate, floor, n - 1), rates, rate, floor, g);
      if Decays(was, floor) {
        ShrunkFalls(was.confidence, r, n - 1);
      }
    }
  }

  // --- Closing --------------------------------------------------------------------------------

  /** Of the user's granules, within the namespace and the project if one is given. */
  predicate InScope(g: Granule, user: nat, ns: Option<nat>, project: Option<nat>) {
    g.user == user && (match ns case None => true case Some(n) => g.ns == n) && (match project case None => true case Some(p) => g.project == Some(p))
  }

  /** Retracted, its window closed now; nothing else changed but, if told, the metadata. */
  predicate ClosedNow(was: Granule, g: Granule, now: Instant) {
    g == was.(status := Retracted, validTo := Some(now), metadata := g.metadata)
  }

  /** Forgetting retracts exactly what is asserted within its scope, deletes nothing, and leaves nothing current there; doing it again changes nothing. */
  lemma ForgetReaches(m: map<Id, Granule>, user: nat, ns: Option<nat>, project: Option<nat>, now: Instant, later: Instant)
    ensures
      var m' := ForgetMemories(m, user, ns, project, now);
      && m'.Keys == m.Keys
      && (forall g :: g in m ==>
            if m[g].status == Asserted && InScope(m[g], user, ns, project)
            then ClosedNow(m[g], m'[g], now) && m'[g].metadata == m[g].metadata
            else m'[g] == m[g])
      && (forall g :: g in m' && InScope(m'[g], user, ns, project) ==> !Alive(m', g))
      && ForgetMemories(m', user, ns, project, later) == m'
  {
  }

  /** Retracting closes one granule if it is asserted, and notes the reason beside the rest of its metadata; doing it again changes nothing. */
  lemma RetractReaches(m: map<Id, Granule>, id: Id, reason: Option<string>, now: Instant, later: Instant)
    ensures
      var m' := RetractMemory(m, id, reason, now);
      && m'.Keys == m.Keys && (forall g :: g in m && g != id ==> m'[g] == m[g])
      && (id in m ==> if m[id].status == Asserted then ClosedNow(m[id], m'[id], now) else m'[id] == m[id])
      && (id in m && m[id].status == Asserted ==>
            && (reason.None? ==> m'[id].metadata == m[id].metadata)
            && (reason.Some? ==> "reason" in m'[id].metadata && m'[id].metadata["reason"] == reason.value)
            && (forall k :: k in m[id].metadata && k != "reason" ==> k in m'[id].metadata && m'[id].metadata[k] == m[id].metadata[k])
            && m'[id].metadata.Keys <= m[id].metadata.Keys + {"reason"})
      && RetractMemory(m', id, reason, later) == m'
  {
  }

  /** An update writes the wrapping of one granule: what is given replaces what was there, metadata key by key; the rest of the row stays. */
  lemma UpdateReaches(m: map<Id, Granule>, id: Id, metadata: Option<Metadata>, importance: Option<int>,
                      confidence: Option<real>, frozen: Option<bool>, project: Option<Option<nat>>)
    requires id in m
    ensures
      var m' := UpdateMemory(m, id, metadata, importance, confidence, frozen, project);
      var was, g := m[id], m'[id];
      && m'.Keys == m.Keys && (forall x :: x in m && x != id ==> m'[x] == m[x])
      && g == was.(metadata := g.metadata, importance := g.importance, confidence := g.confidence, frozen := g.frozen, project := g.project)
      && g.importance == Coalesce(importance, was.importance) && g.confidence == Coalesce(confidence, was.confidence)
      && g.frozen == Coalesce(frozen, was.frozen) && g.project == Coalesce(project, was.project)
      && (metadata.None? ==> g.metadata == was.metadata)
      && (metadata.Some? ==>
            && g.metadata.Keys == was.metadata.Keys + metadata.value.Keys
            && (forall k :: k in metadata.value ==> g.metadata[k] == metadata.value[k])
            && (forall k :: k in was.metadata && k !in metadata.value ==> g.metadata[k] == was.metadata[k]))
  {
  }

  // --- Clusters and pending names ---------------------------------------------------------------

  /** A refresh gives the granules it names their clusters and touches nothing else. */
  lemma RefreshReaches(m: map<Id, Granule>, clusters: map<Id, Option<nat>>, g: Id)
    requires g in m
    ensures g in RefreshClusters(m, clusters)
    ensures RefreshClusters(m, clusters)[g] == if g in clusters then m[g].(cluster := clusters[g]) else m[g]
  {
  }

  /** Another row has the source and the type of row k, and that target. */
  predicate Blocked(rels: map<Id, Relation>, k: Id, target: Id)
    requires k in rels
  {
    exists x :: x in rels && x != k && rels[x].target == Some(target) && rels[x].source == rels[k].source && rels[x].linkType == rels[k].linkType
  }

  /** A pending edge gets the granule found for its name unless another edge is there already; its name and the rest of it stay, and so does every other edge. */
  lemma ResolveReaches(rels: map<Id, Relation>, found: map<Id, Id>, k: Id)
    requires k in rels
    ensures
      var r, r' := rels[k], ResolvePending(rels, found)[k];
      && r' == r.(target := r'.target)
      && (r'.target != r.target <==>
            k in found && r.target == None && r.targetName != None && !Blocked(rels, k, found[k]))
      && (r'.target != r.target ==> r'.target == Some(found[k]))
  {
  }
}
