/** The SQL statements of db/queries.py that change `memories` and `relations`, one function a statement. */
module Queries {
  import opened Options
  import opened Schema

  /** Arguments of create_version; `newId` is the uuid the INSERT generates. */
  datatype NewVersion = NewVersion(
    oldId: Id, newId: Id, content: string, hash: string,
    metadata: Metadata, importance: Option<int>, confidence: real)

  /** The row INSERT_MEMORY_VERSION selects from the granule being superseded. */
  function VersionRow(prev: Granule, v: NewVersion, now: Instant): Granule {
    Granule(
      prev.user, prev.ns, prev.project, v.content, Some(v.hash), v.metadata,
      if v.importance.Some? then v.importance.value else prev.importance,
      v.confidence, false, Asserted, now, None, Some(v.oldId), None, prev.version + 1, prev.cluster)
  }

  /** SUPERSEDE_MEMORY, guarded by status = 'asserted'. */
  function SupersedeMemory(m: map<Id, Granule>, oldId: Id, newId: Id): map<Id, Granule>
    requires newId in m
  {
    if oldId in m && m[oldId].status.Asserted? then
      m[oldId := m[oldId].(
        status := Superseded, validTo := Some(m[newId].validFrom), supersededBy := Some(newId))]
    else m
  }

  /** WHERE clause of REWIRE_RELATIONS_SOURCE for one row, over the tables the statement sees. */
  predicate MovesSource(m: map<Id, Granule>, rels: map<Id, Relation>, r: Relation, oldId: Id, newId: Id) {
    && r.source == oldId
    && r.prunedAt.None?
    && r.linkType != SUPERSEDES
    && (r.target.None? || Alive(m, r.target.value))
    && !exists x :: x in rels && rels[x].source == newId && rels[x].linkType == r.linkType && rels[x].target == r.target
  }

  /** WHERE clause of REWIRE_RELATIONS_TARGET. */
  predicate MovesTarget(m: map<Id, Granule>, rels: map<Id, Relation>, r: Relation, oldId: Id, newId: Id) {
    && r.target == Some(oldId)
    && r.prunedAt.None?
    && r.linkType != SUPERSEDES
    && Alive(m, r.source)
    && !exists x :: x in rels && rels[x].target == Some(newId) && rels[x].source == r.source && rels[x].linkType == r.linkType
  }

  function RewireSource(m: map<Id, Granule>, rels: map<Id, Relation>, oldId: Id, newId: Id): map<Id, Relation> {
    map k | k in rels ::
      if MovesSource(m, rels, rels[k], oldId, newId) then rels[k].(source := newId, inheritedFrom := Some(oldId)) else rels[k]
  }

  function RewireTarget(m: map<Id, Granule>, rels: map<Id, Relation>, oldId: Id, newId: Id): map<Id, Relation> {
    map k | k in rels ::
      if MovesTarget(m, rels, rels[k], oldId, newId) then rels[k].(target := Some(newId), inheritedFrom := Some(oldId)) else rels[k]
  }

  function Closed(g: Granule, now: Instant): Granule {
    g.(status := Retracted, validTo := Some(now))
  }

  /** RETRACT_MEMORY, guarded by status = 'asserted'. */
  function RetractMemory(m: map<Id, Granule>, id: Id, reason: Option<string>, now: Instant): map<Id, Granule> {
    if id in m && m[id].status.Asserted? then
      var g := Closed(m[id], now);
      m[id := if reason.Some? then g.(metadata := g.metadata["reason" := reason.value]) else g]
    else m
  }

  predicate Forgets(g: Granule, user: nat, ns: Option<nat>, project: Option<nat>) {
    g.user == user && g.status.Asserted? && (ns.None? || ns == Some(g.ns)) && (project.None? || project == g.project)
  }

  /** FORGET_MEMORIES: every asserted granule of the user within the optional namespace and project. */
  function ForgetMemories(m: map<Id, Granule>, user: nat, ns: Option<nat>, project: Option<nat>, now: Instant): map<Id, Granule> {
    map id | id in m :: if Forgets(m[id], user, ns, project) then Closed(m[id], now) else m[id]
  }

  /** UPDATE_MEMORY without `supersedes`: the wrapping columns only, content is never rewritten. */
  function UpdateMemory(m: map<Id, Granule>, id: Id, metadata: Option<Metadata>, importance: Option<int>,
                        confidence: Option<real>, frozen: Option<bool>, project: Option<Option<nat>>): map<Id, Granule> {
    if id in m then
      var g := m[id];
      m[id := g.(
        metadata := if metadata.Some? then g.metadata + metadata.value else g.metadata,
        importance := if importance.Some? then importance.value else g.importance,
        confidence := if confidence.Some? then confidence.value else g.confidence,
        frozen := if frozen.Some? then frozen.value else g.frozen,
        project := if project.Some? then project.value else g.project)]
    else m
  }

  /** DECAY_CONFIDENCE: asserted, not frozen, above the floor. */
  function DecayConfidence(m: map<Id, Granule>, rates: map<nat, real>, rate: real, floor: real): map<Id, Granule> {
    map id | id in m ::
      var g := m[id];
      if g.status.Asserted? && !g.frozen && g.confidence > floor then
        var c := g.confidence * (if g.ns in rates then rates[g.ns] else rate);
        g.(confidence := if c > floor then c else floor)
      else g
  }

  /** What a cluster refresh writes: the cluster of each granule it names. */
  function RefreshClusters(m: map<Id, Granule>, clusters: map<Id, Option<nat>>): map<Id, Granule> {
    map id | id in m :: if id in clusters then m[id].(cluster := clusters[id]) else m[id]
  }

  /** least(1.0, w + (1 - w) * a): a touch pulls the weight towards 1. */
  function Strengthened(w: real, a: real): real {
    if w + (1.0 - w) * a < 1.0 then w + (1.0 - w) * a else 1.0
  }

  function Touched(r: Relation, a: real, now: Instant): Relation {
    r.(usedCount := r.usedCount + 1, lastUsedAt := Some(now), weight := Strengthened(r.weight, a))
  }

  /** The pair names both ends of a live resolved edge, in either direction. */
  predicate Touches(pairs: set<(Id, Id)>, r: Relation) {
    && r.prunedAt.None? && r.target.Some?
    && ((r.source, r.target.value) in pairs || (r.target.value, r.source) in pairs)
  }

  /** REINFORCE_RELATIONS over a batch of pairs. */
  function ReinforceRelations(rels: map<Id, Relation>, pairs: set<(Id, Id)>, alpha: real, now: Instant): map<Id, Relation> {
    map k | k in rels :: if Touches(pairs, rels[k]) then Touched(rels[k], alpha, now) else rels[k]
  }

  /** The `reinforced` half of INSERT_COOCCURRENCE_LINKS: the rows it names are touched, pruned ones too. */
  function TouchRelations(rels: map<Id, Relation>, ids: set<Id>, alpha: real, now: Instant): map<Id, Relation> {
    map k | k in rels :: if k in ids then Touched(rels[k], alpha, now) else rels[k]
  }

  /** A row RESOLVE_PENDING_TARGET_NAMES updates: still pending, and no other row has the triple it would get. */
  predicate Resolves(rels: map<Id, Relation>, k: Id, target: Id) {
    && k in rels && rels[k].target.None? && rels[k].targetName.Some?
    && !exists x :: x in rels && x != k && rels[x].source == rels[k].source && rels[x].target == Some(target) && rels[x].linkType == rels[k].linkType
  }

  /** RESOLVE_PENDING_TARGET_NAMES: pending rows get the granules found for their names; the name stays as provenance. */
  function ResolvePending(rels: map<Id, Relation>, found: map<Id, Id>): map<Id, Relation> {
    map k | k in rels :: if k in found && Resolves(rels, k, found[k]) then rels[k].(target := Some(found[k])) else rels[k]
  }

  /** PRUNE_EDGES_APPLY: only pruned_at is written, and only once. */
  function PruneEdges(rels: map<Id, Relation>, ids: set<Id>, now: Instant): map<Id, Relation> {
    map k | k in rels :: if k in ids && rels[k].prunedAt.None? then rels[k].(prunedAt := Some(now)) else rels[k]
  }

  /** RESTORE_EDGE: a pruned edge comes back, touched with beta. */
  function RestoreEdge(rels: map<Id, Relation>, id: Id, beta: real, now: Instant): map<Id, Relation> {
    if id in rels && rels[id].prunedAt.Some? then
      rels[id := Touched(rels[id].(prunedAt := None), beta, now)]
    else rels
  }
}
