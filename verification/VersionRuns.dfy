/**
 Every run of the write path. A create_version call checks first and commits
 later; between the two, any other statement may be committed.
 */
module VersionRuns {
  import opened Options
  import opened Schema
  import opened Queries
  import opened PgRepository
  import opened VersionChains

  datatype Action =
    | Store(rows: map<Id, Granule>)
    | CreateVersion(v: NewVersion)
    | Retract(id: Id, reason: Option<string>)
    | Forget(user: nat, ns: Option<nat>, project: Option<nat>)
    | Update(id: Id, metadata: Option<Metadata>, importance: Option<int>, confidence: Option<real>, frozen: Option<bool>, assign: Option<Option<nat>>)
    | Recluster(clusters: map<Id, Option<nat>>)
    | Decay(rates: map<nat, real>, rate: real, floor: real)
    | Link(id: Id, r: Relation, relabel: bool)
    | AutoLink(id: Id, r: Relation)
    | ResolveNames(found: map<Id, Id>)
    | Unlink(ids: set<Id>)
    | Prune(ids: set<Id>)
    | Restore(id: Id, beta: real)
    | Reinforce(pairs: set<(Id, Id)>, alpha: real)
    | Touch(ids: set<Id>, alpha: real)
    | Tick(to: Instant)

  /** A row INSERT_MEMORY or INSERT_MEMORY_BATCH writes: the column defaults and no links. */
  predicate NewRow(g: Granule, now: Instant) {
    g.status.Asserted? && g.validFrom == now && g.validTo.None? && g.supersedes.None? && g.supersededBy.None?
  }

  /** An edge as any INSERT INTO relations writes it. */
  predicate NewLink(r: Relation, now: Instant) {
    r.createdAt == now && r.lastUsedAt.None? && r.usedCount == 0 && r.prunedAt.None? && r.inheritedFrom.None?
  }

  ghost predicate NewRelation(db: Db, id: Id, r: Relation) {
    && id !in db.relations && NewLink(r, db.now) && r.source in db.memories
    && (r.target.Some? ==> r.target.value in db.memories)
  }

  /** What the database itself guarantees of the arguments: fresh uuids, existing ends, a clock that does not go back. */
  ghost predicate Possible(db: Db, a: Action) {
    match a
    case Store(rows) => rows.Keys !! db.memories.Keys && forall id :: id in rows ==> NewRow(rows[id], db.now)
    case CreateVersion(v) => v.newId !in db.memories
    case Link(id, r, _) => NewRelation(db, id, r)
    case AutoLink(id, r) => NewRelation(db, id, r) && r.origin == Some(LINKER) && r.layer.Some? && r.target.Some?
    case ResolveNames(found) => forall k :: k in found ==> Alive(db.memories, found[k])
    case Tick(to) => db.now <= to
    case _ => true
  }

  ghost predicate Taken(rels: map<Id, Relation>, r: Relation) {
    exists k :: k in rels && SameKey(r, rels[k])
  }

  /**
   INSERT_RELATION, and each row of SYNC_LINKS: ON CONFLICT on a resolved triple
   refreshes the row, its metadata only if `relabel`; a repeated pending name fails.
   */
  ghost function InsertRelation(rels: map<Id, Relation>, id: Id, r: Relation, relabel: bool): map<Id, Relation> {
    if Taken(rels, r) then
      var k :| k in rels && SameKey(r, rels[k]);
      if r.target.None? then rels
      else if relabel then rels[k := rels[k].(weight := r.weight, origin := r.origin, layer := r.layer)]
      else rels[k := rels[k].(weight := r.weight)]
    else rels[id := r]
  }

  /** A link that is new is written as given; one there already has its weight refreshed, its labels if told, and nothing else; a repeated pending name changes nothing. */
  lemma LinkReaches(rels: map<Id, Relation>, id: Id, r: Relation, relabel: bool, k: Id)
    requires LinksUnique(rels) && id !in rels
    ensures
      var rels' := InsertRelation(rels, id, r, relabel);
      && (Taken(rels, r) ==> rels'.Keys == rels.Keys)
      && (!Taken(rels, r) ==> rels' == rels[id := r])
      && (k in rels && (!SameKey(r, rels[k]) || r.target.None?) ==> rels'[k] == rels[k])
      && (k in rels && SameKey(r, rels[k]) && r.target.Some? ==>
            rels'[k] == if relabel then rels[k].(weight := r.weight, origin := r.origin, layer := r.layer) else rels[k].(weight := r.weight))
  {
    if Taken(rels, r) && k in rels && SameKey(r, rels[k]) {
      forall x | x in rels && SameKey(r, rels[x]) ensures x == k {
        assert SameKey(rels[x], rels[k]);
      }
    }
  }

  /** One committed statement or transaction; a failed one leaves the state alone. */
  ghost function Next(db: Db, a: Action): Db {
    match a
    case Store(rows) => if HashesUnique(db.memories + rows) then db.(memories := db.memories + rows) else db
    case CreateVersion(v) => if Verdict(db, v).Created? then Versioned(db, v) else db
    case Retract(id, reason) => db.(memories := RetractMemory(db.memories, id, reason, db.now))
    case Forget(user, ns, project) => db.(memories := ForgetMemories(db.memories, user, ns, project, db.now))
    case Update(id, metadata, importance, confidence, frozen, project) =>
      db.(memories := UpdateMemory(db.memories, id, metadata, importance, confidence, frozen, project))
    case Recluster(clusters) => db.(memories := RefreshClusters(db.memories, clusters))
    case Decay(rates, rate, floor) => db.(memories := DecayConfidence(db.memories, rates, rate, floor))
    case Link(id, r, relabel) => db.(relations := InsertRelation(db.relations, id, r, relabel))
    case AutoLink(id, r) => if Taken(db.relations, r) then db else db.(relations := db.relations[id := r])
    case ResolveNames(found) =>
      var resolved := ResolvePending(db.relations, found);
      if LinksUnique(resolved) then db.(relations := resolved) else db
    case Unlink(ids) => db.(relations := db.relations - ids)
    case Prune(ids) => db.(relations := PruneEdges(db.relations, ids, db.now))
    case Restore(id, beta) => db.(relations := RestoreEdge(db.relations, id, beta, db.now))
    case Reinforce(pairs, alpha) => db.(relations := ReinforceRelations(db.relations, pairs, alpha, db.now))
    case Touch(ids, alpha) => db.(relations := TouchRelations(db.relations, ids, alpha, db.now))
    case Tick(to) => db.(now := to)
  }

  ghost predicate Inv(db: Db) {
    ChainInv(db.memories, db.now) && EndsExist(db) && LinksUnique(db.relations)
  }

  /** The rows keep their owners, texts, hash keys, links, window starts and versions; an asserted row may be closed now. */
  ghost predicate Quiet(m: map<Id, Granule>, m': map<Id, Granule>, now: Instant) {
    && m'.Keys == m.Keys
    && forall g {:trigger m'[g]} :: g in m ==>
         && m'[g].supersedes == m[g].supersedes && m'[g].supersededBy == m[g].supersededBy
         && m'[g].version == m[g].version && m'[g].validFrom == m[g].validFrom
         && m'[g].user == m[g].user && m'[g].ns == m[g].ns && m'[g].content == m[g].content && m'[g].hash == m[g].hash
         && ((m'[g].status == m[g].status && m'[g].validTo == m[g].validTo)
             || (m[g].status.Asserted? && m'[g].status.Retracted? && m'[g].validTo == Some(now)))
  }

  lemma QuietKeepsChains(m: map<Id, Granule>, m': map<Id, Granule>, now: Instant)
    requires ChainInv(m, now) && Quiet(m, m', now)
    ensures ChainInv(m', now)
  {
    assert Linked(m');
    assert Windows(m', now);
    forall a, b | Alive(m', a) && Alive(m', b) && m'[a].hash.Some? && m'[a].ns == m'[b].ns && m'[a].hash == m'[b].hash
      ensures a == b
    {
      assert Alive(m, a) && Alive(m, b);
    }
  }

  lemma StoreKeepsChains(m: map<Id, Granule>, rows: map<Id, Granule>, now: Instant)
    requires ChainInv(m, now) && rows.Keys !! m.Keys
    requires forall id :: id in rows ==> NewRow(rows[id], now)
    requires HashesUnique(m + rows)
    ensures ChainInv(m + rows, now)
  {
  }

  /** The edge hangs on the granule by exactly one end. */
  predicate HangsOn(r: Relation, id: Id) {
    (r.source == id) != (r.target == Some(id))
  }

  /** A row fit to succeed `prev`. */
  predicate HeirRow(row: Granule, prev: Granule, oldId: Id, now: Instant) {
    && row.status.Asserted? && row.validTo.None? && row.supersedes == Some(oldId) && row.supersededBy.None?
    && row.version == prev.version + 1 && row.hash.Some? && prev.validFrom <= row.validFrom <= now
  }

  ghost predicate Installable(db: Db, oldId: Id, newId: Id, row: Granule, moved: set<Id>) {
    && oldId in db.memories && db.memories[oldId].status.Asserted? && newId !in db.memories
    && HeirRow(row, db.memories[oldId], oldId, db.now) && !HashActive(db.memories, row.ns, row.hash.value)
    && forall k :: k in moved ==> k in db.relations && HangsOn(db.relations[k], oldId)
  }

  lemma InstalledKeepsLinked(db: Db, oldId: Id, newId: Id, row: Granule, moved: set<Id>)
    requires ChainInv(db.memories, db.now) && Installable(db, oldId, newId, row, moved)
    ensures Linked(Installed(db, oldId, newId, row, moved).memories)
  {
    assert db.memories[oldId].supersededBy.None?;
  }

  lemma InstalledKeepsWindows(db: Db, oldId: Id, newId: Id, row: Granule, moved: set<Id>)
    requires ChainInv(db.memories, db.now) && Installable(db, oldId, newId, row, moved)
    ensures Windows(Installed(db, oldId, newId, row, moved).memories, db.now)
  {
    var m, m' := db.memories, Installed(db, oldId, newId, row, moved).memories;
    assert m[oldId].supersededBy.None?;
    forall g | g in m && g != oldId ensures m'[g] == m[g] {}
  }

  lemma InstalledKeepsHashes(db: Db, oldId: Id, newId: Id, row: Granule, moved: set<Id>)
    requires HashesUnique(db.memories) && Installable(db, oldId, newId, row, moved)
    ensures HashesUnique(Installed(db, oldId, newId, row, moved).memories)
  {
    var m, m' := db.memories, Installed(db, oldId, newId, row, moved).memories;
    forall g | Alive(m', g) && g != newId ensures Alive(m, g) && m'[g] == m[g] {}
  }

  lemma InstalledKeepsLinks(db: Db, oldId: Id, newId: Id, row: Granule, moved: set<Id>)
    requires EndsExist(db) && LinksUnique(db.relations) && Installable(db, oldId, newId, row, moved)
    ensures LinksUnique(Installed(db, oldId, newId, row, moved).relations)
  {
    var rels, rels' := db.relations, Installed(db, oldId, newId, row, moved).relations;
    forall r, x | r in rels' && x in rels' && SameKey(rels'[r], rels'[x]) ensures r == x {
      assert SameKey(rels[r], rels[x]);
    }
  }

  /** A successor's transaction keeps the invariants whichever of the edges on the old granule it moves. */
  lemma InstalledKeeps(db: Db, oldId: Id, newId: Id, row: Granule, moved: set<Id>)
    requires Inv(db) && Installable(db, oldId, newId, row, moved)
    ensures Inv(Installed(db, oldId, newId, row, moved))
  {
    InstalledKeepsLinked(db, oldId, newId, row, moved);
    InstalledKeepsWindows(db, oldId, newId, row, moved);
    InstalledKeepsHashes(db, oldId, newId, row, moved);
    InstalledKeepsLinks(db, oldId, newId, row, moved);
  }

  lemma VersionedIsInstallable(db: Db, v: NewVersion)
    requires Inv(db) && v.newId !in db.memories && Verdict(db, v).Created?
    ensures Installable(db, v.oldId, v.newId, VersionRow(db.memories[v.oldId], v, db.now), Heirlooms(db, v.oldId))
  {
  }

  lemma NewKeepsLinks(rels: map<Id, Relation>, id: Id, r: Relation)
    requires LinksUnique(rels) && id !in rels && !Taken(rels, r)
    ensures LinksUnique(rels[id := r])
  {
    var rels' := rels[id := r];
    forall a, b | a in rels' && b in rels' && SameKey(rels'[a], rels'[b]) ensures a == b {
      if a != id && b != id {
        assert SameKey(rels[a], rels[b]);
      } else if a != id {
        assert SameKey(r, rels[a]);
      }
    }
  }

  lemma LinkKeepsEdges(db: Db, id: Id, r: Relation, relabel: bool)
    requires EndsExist(db) && LinksUnique(db.relations) && NewRelation(db, id, r)
    ensures EndsExist(db.(relations := InsertRelation(db.relations, id, r, relabel)))
    ensures LinksUnique(InsertRelation(db.relations, id, r, relabel))
  {
    if Taken(db.relations, r) {
      SameEndsKeepEdges(db, InsertRelation(db.relations, id, r, relabel));
    } else {
      NewKeepsLinks(db.relations, id, r);
    }
  }

  lemma RetractIsQuiet(m: map<Id, Granule>, id: Id, reason: Option<string>, now: Instant)
    ensures Quiet(m, RetractMemory(m, id, reason, now), now)
  {
  }

  lemma ForgetIsQuiet(m: map<Id, Granule>, user: nat, ns: Option<nat>, project: Option<nat>, now: Instant)
    ensures Quiet(m, ForgetMemories(m, user, ns, project, now), now)
  {
  }

  lemma UpdateIsQuiet(m: map<Id, Granule>, id: Id, metadata: Option<Metadata>, importance: Option<int>,
                      confidence: Option<real>, frozen: Option<bool>, project: Option<Option<nat>>, now: Instant)
    ensures Quiet(m, UpdateMemory(m, id, metadata, importance, confidence, frozen, project), now)
  {
  }

  lemma DecayIsQuiet(m: map<Id, Granule>, rates: map<nat, real>, rate: real, floor: real, now: Instant)
    ensures Quiet(m, DecayConfidence(m, rates, rate, floor), now)
  {
  }

  lemma ReclusterIsQuiet(m: map<Id, Granule>, clusters: map<Id, Option<nat>>, now: Instant)
    ensures Quiet(m, RefreshClusters(m, clusters), now)
  {
  }

  /** Statements that rewrite rows of `memories` and nothing else. */
  predicate OnRows(a: Action) {
    a.Retract? || a.Forget? || a.Update? || a.Decay? || a.Recluster?
  }

  lemma RowActionsAreQuiet(db: Db, a: Action)
    requires OnRows(a)
    ensures Next(db, a) == db.(memories := Next(db, a).memories)
    ensures Quiet(db.memories, Next(db, a).memories, db.now)
  {
    match a
    case Retract(id, reason) => RetractIsQuiet(db.memories, id, reason, db.now);
    case Forget(user, ns, project) => ForgetIsQuiet(db.memories, user, ns, project, db.now);
    case Update(id, metadata, importance, confidence, frozen, project) =>
      UpdateIsQuiet(db.memories, id, metadata, importance, confidence, frozen, project, db.now);
    case Recluster(clusters) => ReclusterIsQuiet(db.memories, clusters, db.now);
    case Decay(rates, rate, floor) => DecayIsQuiet(db.memories, rates, rate, floor, db.now);
  }

  /** Columns that say where an edge goes are untouched. */
  ghost predicate SameEnds(rels: map<Id, Relation>, rels': map<Id, Relation>) {
    && rels'.Keys == rels.Keys
    && forall k {:trigger rels'[k]} :: k in rels ==>
         && rels'[k].source == rels[k].source && rels'[k].target == rels[k].target
         && rels'[k].linkType == rels[k].linkType && rels'[k].targetName == rels[k].targetName
  }

  lemma SameEndsKeepEdges(db: Db, rels': map<Id, Relation>)
    requires EndsExist(db) && LinksUnique(db.relations) && SameEnds(db.relations, rels')
    ensures EndsExist(db.(relations := rels')) && LinksUnique(rels')
  {
    var rels := db.relations;
    forall a, b | a in rels' && b in rels' && SameKey(rels'[a], rels'[b]) ensures a == b {
      assert SameKey(rels[a], rels[b]);
    }
  }

  /** Statements on `relations` that leave every edge where it is. */
  predicate OnWeights(a: Action) {
    a.Prune? || a.Restore? || a.Reinforce? || a.Touch?
  }

  lemma EdgeLifeKeepsEnds(db: Db, a: Action)
    requires OnWeights(a)
    ensures Next(db, a) == db.(relations := Next(db, a).relations)
    ensures SameEnds(db.relations, Next(db, a).relations)
  {
  }

  lemma ResolveKeepsEnds(db: Db, found: map<Id, Id>)
    requires EndsExist(db) && Possible(db, ResolveNames(found))
    ensures EndsExist(db.(relations := ResolvePending(db.relations, found)))
  {
  }

  /** Every statement keeps the links inverse, the windows, the hash index, the foreign keys and the unique triples. */
  lemma InvKept(db: Db, a: Action)
    requires Inv(db) && Possible(db, a)
    ensures Inv(Next(db, a))
  {
    if a.CreateVersion? {
      if Verdict(db, a.v).Created? {
        var row := VersionRow(db.memories[a.v.oldId], a.v, db.now);
        VersionedIsInstallable(db, a.v);
        InstalledKeeps(db, a.v.oldId, a.v.newId, row, Heirlooms(db, a.v.oldId));
      }
    } else if a.Store? {
      if HashesUnique(db.memories + a.rows) {
        StoreKeepsChains(db.memories, a.rows, db.now);
      }
    } else if OnRows(a) {
      RowActionsAreQuiet(db, a);
      QuietKeepsChains(db.memories, Next(db, a).memories, db.now);
    } else if a.Link? {
      LinkKeepsEdges(db, a.id, a.r, a.relabel);
    } else if a.AutoLink? {
      if !Taken(db.relations, a.r) {
        NewKeepsLinks(db.relations, a.id, a.r);
      }
    } else if a.ResolveNames? {
      ResolveKeepsEnds(db, a.found);
    } else if OnWeights(a) {
      EdgeLifeKeepsEnds(db, a);
      SameEndsKeepEdges(db, Next(db, a).relations);
    }
  }

  /** No granule is lost or rewritten: its text with its hash, its owner, its version number, its predecessor and its beginning stay. */
  ghost predicate TextKept(m: map<Id, Granule>, m': map<Id, Granule>) {
    forall g :: g in m ==>
      && g in m' && m'[g].content == m[g].content && m'[g].hash == m[g].hash
      && m'[g].user == m[g].user && m'[g].ns == m[g].ns
      && m'[g].version == m[g].version && m'[g].supersedes == m[g].supersedes && m'[g].validFrom == m[g].validFrom
  }

  /** A fact is changed by a new version only: no statement rewrites a granule's text. */
  lemma NoStatementRewrites(db: Db, a: Action)
    requires Possible(db, a)
    ensures TextKept(db.memories, Next(db, a).memories)
  {
    if OnRows(a) {
      RowActionsAreQuiet(db, a);
      hide Next;
    }
  }
}
