/**
 The two tables every SQL statement works on: `memories` (granules) and
 `relations` (typed edges), and the server clock that `now()` reads.
 A uuid is a number; columns no statement here reads or writes are left out.
 */
module Schema {
  import opened Options

  type Id = nat
  type Instant = int
  type Metadata = map<string, string>

  datatype Status = Asserted | Superseded | Retracted | Uncertain

  datatype Granule = Granule(
    user: nat,
    ns: nat,
    project: Option<nat>,
    content: string,
    hash: Option<string>,
    metadata: Metadata,
    importance: int,
    confidence: real,
    frozen: bool,
    status: Status,
    validFrom: Instant,
    validTo: Option<Instant>,
    supersedes: Option<Id>,
    supersededBy: Option<Id>,
    version: nat,
    cluster: Option<nat>)

  /** `origin` and `layer` are metadata->>'source' and metadata->>'layer'. */
  datatype Relation = Relation(
    source: Id,
    target: Option<Id>,
    targetName: Option<string>,
    linkType: string,
    weight: real,
    origin: Option<string>,
    layer: Option<string>,
    inheritedFrom: Option<Id>,
    createdAt: Instant,
    lastUsedAt: Option<Instant>,
    usedCount: nat,
    prunedAt: Option<Instant>)

  datatype Db = Db(memories: map<Id, Granule>, relations: map<Id, Relation>, now: Instant)

  const SUPERSEDES := "supersedes"

  /** metadata.source of every edge the linker makes. */
  const LINKER := "linker_v3"

  /** The row is current: status = 'asserted' AND valid_to IS NULL. */
  predicate Alive(m: map<Id, Granule>, id: Id) {
    id in m && m[id].status.Asserted? && m[id].validTo.None?
  }

  /** The rows idx_memories_content_hash_active covers under one key. */
  predicate HashActive(m: map<Id, Granule>, ns: nat, hash: string) {
    exists g :: g in m && Alive(m, g) && m[g].ns == ns && m[g].hash == Some(hash)
  }

  /** idx_memories_content_hash_active: one current granule per (namespace, hash). */
  ghost predicate HashesUnique(m: map<Id, Granule>) {
    forall a, b ::
      (Alive(m, a) && Alive(m, b) && m[a].hash.Some? && m[a].ns == m[b].ns && m[a].hash == m[b].hash)
      ==> a == b
  }

  /** Foreign keys of `relations`. */
  ghost predicate EndsExist(db: Db) {
    forall r :: r in db.relations ==>
      && db.relations[r].source in db.memories
      && (db.relations[r].target.Some? ==> db.relations[r].target.value in db.memories)
  }

  /** The two partial unique indexes of `relations`: by resolved target, and by pending name. */
  predicate SameKey(r: Relation, x: Relation) {
    && r.source == x.source && r.linkType == x.linkType && r.target == x.target
    && (r.target.None? ==> r.targetName.Some? && r.targetName == x.targetName)
  }

  ghost predicate LinksUnique(rels: map<Id, Relation>) {
    forall r, x :: r in rels && x in rels && SameKey(rels[r], rels[x]) ==> r == x
  }
}
