/** pg_repository.py: the methods that write granules, each one a transaction over the statements of Queries. */
module PgRepository {
  import opened Options
  import opened Schema
  import opened Queries
  import opened EdgeBatches

  /** What create_version answers: the record, None, ConflictError or DatabaseError. */
  datatype Outcome = Created | NotFound | HashConflict | NotAsserted

  /** The edge goes to the successor of `oldId`: not pruned, no version link, no self-loop, and its other end current or only a name. */
  predicate Inherits(m: map<Id, Granule>, r: Relation, oldId: Id) {
    && r.prunedAt.None? && r.linkType != SUPERSEDES && !(r.source == oldId && r.target == Some(oldId))
    && ((r.source == oldId && (r.target.None? || Alive(m, r.target.value))) || (r.target == Some(oldId) && Alive(m, r.source)))
  }

  /** The edge with its end `oldId` replaced. */
  function Handed(r: Relation, oldId: Id, newId: Id): Relation {
    if r.source == oldId then r.(source := newId, inheritedFrom := Some(oldId))
    else r.(target := Some(newId), inheritedFrom := Some(oldId))
  }

  function Inherited(m: map<Id, Granule>, r: Relation, oldId: Id, newId: Id): Relation {
    if Inherits(m, r, oldId) then Handed(r, oldId, newId) else r
  }

  /** The tables once the successor `row` has closed `oldId` and taken over the edges `moved`. */
  function Installed(db: Db, oldId: Id, newId: Id, row: Granule, moved: set<Id>): Db
    requires oldId in db.memories
  {
    Db(
      db.memories
        [oldId := db.memories[oldId].(status := Superseded, validTo := Some(row.validFrom), supersededBy := Some(newId))]
        [newId := row],
      map k | k in db.relations :: if k in moved then Handed(db.relations[k], oldId, newId) else db.relations[k],
      db.now)
  }

  function Heirlooms(db: Db, oldId: Id): set<Id> {
    set k | k in db.relations && Inherits(db.memories, db.relations[k], oldId)
  }

  /** The state a create_version leaves when nobody else is at work, stated in one step over the state before it. */
  function Versioned(db: Db, v: NewVersion): Db
    requires v.oldId in db.memories
  {
    Installed(db, v.oldId, v.newId, VersionRow(db.memories[v.oldId], v, db.now), Heirlooms(db, v.oldId))
  }

  /** The columns the caller supplies. */
  predicate HoldsRequest(row: Granule, v: NewVersion) {
    && row.content == v.content && row.hash == Some(v.hash) && row.metadata == v.metadata && row.confidence == v.confidence
    && (v.importance.Some? ==> row.importance == v.importance.value)
  }

  /** The columns taken over from the row superseded. */
  predicate TakesPlaceOf(row: Granule, was: Granule) {
    (row.user, row.ns, row.project, row.cluster, row.version) == (was.user, was.ns, was.project, was.cluster, was.version + 1)
  }

  /** A row that is current from `now` on, and free to decay. */
  predicate BeginsAt(row: Granule, now: Instant) {
    row.validFrom == now && row.validTo.None? && row.status.Asserted? && row.supersededBy.None? && !row.frozen
  }

  /** The successor holds what the caller sent and takes over its predecessor's place, one version on; the predecessor
   changes only in being closed where the successor begins; nobody else changes. */
  lemma SuccessorTakesOver(db: Db, v: NewVersion)
    requires v.oldId in db.memories && v.newId !in db.memories
    ensures
      var m, m' := db.memories, Versioned(db, v).memories;
      var was, old', new' := m[v.oldId], m'[v.oldId], m'[v.newId];
      && HoldsRequest(new', v) && TakesPlaceOf(new', was) && BeginsAt(new', db.now)
      && (v.importance.None? ==> new'.importance == was.importance)
      && new'.supersedes == Some(v.oldId) && old'.supersededBy == Some(v.newId) && old'.validTo == Some(new'.validFrom)
      && old' == was.(status := Superseded, validTo := old'.validTo, supersededBy := old'.supersededBy)
      && m'.Keys == m.Keys + {v.newId} && forall g :: g in m && g != v.oldId ==> m'[g] == m[g]
  {
  }

  /** How create_version ends. The unique index speaks before the status guard. */
  function Verdict(db: Db, v: NewVersion): Outcome {
    if v.oldId !in db.memories then NotFound
    else if HashActive(db.memories, db.memories[v.oldId].ns, v.hash) then HashConflict
    else if !db.memories[v.oldId].status.Asserted? then NotAsserted
    else Created
  }

  /** A current granule of the namespace has the hash. */
  predicate HoldsHash(m: map<Id, Granule>, ns: nat, hash: string) {
    exists g :: g in m && m[g].status == Asserted && m[g].validTo == None && m[g].ns == ns && m[g].hash == Some(hash)
  }

  /** A generated uuid: no row has it and no edge mentions it. */
  ghost predicate Fresh(db: Db, id: Id) {
    id !in db.memories && EndsExist(db)
  }

  /** Asserted rows have an open validity window. */
  ghost predicate WindowsOpen(m: map<Id, Granule>) {
    forall g :: g in m && m[g].status.Asserted? ==> m[g].validTo.None?
  }

  /** REWIRE_SOURCE then REWIRE_TARGET, run after the old row is closed, move exactly the edges Inherited moves. */
  lemma RewireIsInherited(db: Db, v: NewVersion, after: map<Id, Granule>, k: Id)
    requires v.oldId in db.memories && Fresh(db, v.newId) && WindowsOpen(db.memories)
    requires db.memories[v.oldId].status.Asserted?
    requires after == Versioned(db, v).memories
    requires k in db.relations
    ensures
      var moved := RewireSource(after, db.relations, v.oldId, v.newId);
      RewireTarget(after, moved, v.oldId, v.newId)[k] == Inherited(db.memories, db.relations[k], v.oldId, v.newId)
  {
    var moved := RewireSource(after, db.relations, v.oldId, v.newId);
    forall id | id in db.memories && id != v.oldId ensures Alive(after, id) == Alive(db.memories, id) {}
    assert !Alive(after, v.oldId);
    var r := db.relations[k];
    if r.target == Some(v.oldId) && r.source != v.oldId {
      forall x | x in moved && moved[x].target == Some(v.newId) ensures false {}
    }
  }

  lemma RewiresAreVersioned(db: Db, v: NewVersion, after: map<Id, Granule>)
    requires v.oldId in db.memories && Fresh(db, v.newId) && WindowsOpen(db.memories)
    requires db.memories[v.oldId].status.Asserted?
    requires after == Versioned(db, v).memories
    ensures
      var moved := RewireSource(after, db.relations, v.oldId, v.newId);
      RewireTarget(after, moved, v.oldId, v.newId) == Versioned(db, v).relations
  {
    forall k | k in db.relations
      ensures
        var moved := RewireSource(after, db.relations, v.oldId, v.newId);
        RewireTarget(after, moved, v.oldId, v.newId)[k] == Inherited(db.memories, db.relations[k], v.oldId, v.newId)
    {
      RewireIsInherited(db, v, after, k);
    }
    hide Inherited;
  }

  class Repository {
    var memories: map<Id, Granule>
    var relations: map<Id, Relation>
    var now: Instant

    function State(): Db
      reads this
    {
      Db(memories, relations, now)
    }

    /**
     INSERT, SUPERSEDE, REWIRE of sources, REWIRE of targets; a unique
     violation or an old row that is no longer asserted rolls everything back.
     Nobody else writes meanwhile; ConcurrentVersions says what happens if they do.
     */
    method CreateVersion(v: NewVersion) returns (outcome: Outcome)
      requires Fresh(State(), v.newId) && WindowsOpen(memories)
      modifies this`memories, this`relations
      ensures outcome == Verdict(old(State()), v)
      ensures State() == if outcome.Created? then Versioned(old(State()), v) else old(State())
      ensures outcome.Created? ==>
        v.oldId in old(memories) && v.newId in memories
        && var was, row := old(memories)[v.oldId], memories[v.newId];
        && HoldsRequest(row, v) && TakesPlaceOf(row, was) && BeginsAt(row, now)
        && (v.importance.None? ==> row.importance == was.importance)
      ensures outcome.NotFound? <==> v.oldId !in old(memories)
      ensures outcome.HashConflict? <==> v.oldId in old(memories) && HoldsHash(old(memories), old(memories)[v.oldId].ns, v.hash)
      ensures outcome.Created? <==>
        && v.oldId in old(memories) && old(memories)[v.oldId].status.Asserted?
        && !HoldsHash(old(memories), old(memories)[v.oldId].ns, v.hash)
    {
      var savepoint := memories;
      if v.oldId !in memories {
        return NotFound;
      }
      var row := VersionRow(memories[v.oldId], v, now);
      if HashActive(memories, row.ns, v.hash) {
        return HashConflict;
      }
      memories := memories[v.newId := row];
      if !memories[v.oldId].status.Asserted? {
        memories := savepoint;
        assert memories == old(memories);
        return NotAsserted;
      }
      memories := SupersedeMemory(memories, v.oldId, v.newId);
      assert memories == Versioned(old(State()), v).memories;
      relations := RewireSource(memories, relations, v.oldId, v.newId);
      relations := RewireTarget(memories, relations, v.oldId, v.newId);
      RewiresAreVersioned(old(State()), v, memories);
      return Created;
    }

    /** PRUNE_EDGES_APPLY in batches; the total counts each edge that became pruned once. */
    method PruneEdgesApply(ids: seq<Id>, batch: nat) returns (pruned: nat)
      requires batch > 0
      modifies this`relations
      ensures relations == PruneEdges(old(relations), AsSet(ids), now)
      ensures pruned == |NewlyPruned(old(relations), AsSet(ids))|
    {
      pruned := 0;
      var start := 0;
      assert AsSet(ids[..0]) == {};
      while start < |ids|
        invariant 0 <= start <= |ids|
        invariant relations == PruneEdges(old(relations), AsSet(ids[..start]), now)
        invariant pruned == |NewlyPruned(old(relations), AsSet(ids[..start]))|
      {
        var stop := if start + batch < |ids| then start + batch else |ids|;
        PruneChunk(old(relations), ids, start, stop, now);
        pruned := pruned + |NewlyPruned(relations, AsSet(ids[start..stop]))|;
        relations := PruneEdges(relations, AsSet(ids[start..stop]), now);
        start := stop;
      }
      assert ids[..start] == ids;
    }

    /** REINFORCE_RELATIONS in batches over canonical pairs: each edge is touched once, whatever the batch size. */
    method ReinforcePairs(pairs: seq<(Id, Id)>, alpha: real, batch: nat) returns (touched: nat)
      requires batch > 0 && Canonical(pairs)
      modifies this`relations
      ensures relations == ReinforceRelations(old(relations), AsSet(pairs), alpha, now)
      ensures touched == |Reached(old(relations), AsSet(pairs))|
    {
      touched := 0;
      var start := 0;
      assert AsSet(pairs[..0]) == {};
      while start < |pairs|
        invariant 0 <= start <= |pairs|
        invariant relations == ReinforceRelations(old(relations), AsSet(pairs[..start]), alpha, now)
        invariant touched == |Reached(old(relations), AsSet(pairs[..start]))|
      {
        var stop := if start + batch < |pairs| then start + batch else |pairs|;
        ReinforceChunk(old(relations), pairs, start, stop, alpha, now);
        touched := touched + |Reached(relations, AsSet(pairs[start..stop]))|;
        relations := ReinforceRelations(relations, AsSet(pairs[start..stop]), alpha, now);
        start := stop;
      }
      assert pairs[..start] == pairs;
    }
  }
}
