/** What create_version does to the graph when it runs alone: the live edges are renamed, nothing is lost, nothing live stays behind. */
module Rewiring {
  import opened Options
  import opened Schema
  import opened Queries
  import opened PgRepository
  import opened VersionChains
  import opened VersionRuns

  /** An edge of the effective graph: unpruned, resolved, between two current granules, not a version link. */
  predicate LiveEdge(db: Db, k: Id) {
    && k in db.relations
    && var r := db.relations[k];
    r.prunedAt.None? && r.linkType != SUPERSEDES && r.target.Some? && Alive(db.memories, r.source) && Alive(db.memories, r.target.value)
  }

  datatype Edge = Edge(source: Id, target: Id, linkType: string, weight: real)

  /** The effective graph, edge by edge. */
  ghost function LiveGraph(db: Db): map<Id, Edge> {
    map k | k in db.relations && LiveEdge(db, k) ::
      var r := db.relations[k];
      Edge(r.source, r.target.value, r.linkType, r.weight)
  }

  function Renamed(e: Edge, oldId: Id, newId: Id): Edge {
    e.(source := if e.source == oldId then newId else e.source,
       target := if e.target == oldId then newId else e.target)
  }

  ghost predicate Supersedable(db: Db, v: NewVersion) {
    Inv(db) && v.newId !in db.memories && Verdict(db, v).Created?
  }

  lemma AliveAfter(db: Db, v: NewVersion, id: Id)
    requires Supersedable(db, v)
    ensures Alive(Versioned(db, v).memories, id) <==> id == v.newId || (Alive(db.memories, id) && id != v.oldId)
  {
  }

  lemma EdgeAfter(db: Db, v: NewVersion, k: Id)
    requires Supersedable(db, v) && k in db.relations
    ensures
      var db' := Versioned(db, v);
      var r := db.relations[k];
      var loop := r.source == v.oldId && r.target == Some(v.oldId);
      && (LiveEdge(db', k) <==> LiveEdge(db, k) && !loop)
      && (LiveEdge(db', k) ==>
            Edge(db'.relations[k].source, db'.relations[k].target.value, db'.relations[k].linkType, db'.relations[k].weight)
              == Renamed(Edge(r.source, r.target.value, r.linkType, r.weight), v.oldId, v.newId))
  {
    var r, r' := db.relations[k], Versioned(db, v).relations[k];
    assert Alive(db.memories, v.oldId);
    AliveAfter(db, v, r.source);
    AliveAfter(db, v, v.oldId);
    AliveAfter(db, v, r'.source);
    if r.target.Some? {
      AliveAfter(db, v, r.target.value);
      AliveAfter(db, v, r'.target.value);
    }
  }

  lemma GraphEntryAfter(db: Db, v: NewVersion, k: Id)
    requires Supersedable(db, v) && v.oldId in db.memories
    ensures
      var before, after := LiveGraph(db), LiveGraph(Versioned(db, v));
      && (k in after <==> k in before && !(before[k].source == v.oldId && before[k].target == v.oldId))
      && (k in after ==> after[k] == Renamed(before[k], v.oldId, v.newId))
  {
    hide Supersedable, Inherits, Handed, VersionRow, Alive;
    if k in db.relations {
      EdgeAfter(db, v, k);
    }
  }

  /** The effective graph after create_version is the one before with old renamed to new; self-loops on old fall out. */
  lemma LiveGraphRenamed(db: Db, v: NewVersion)
    requires Supersedable(db, v)
    ensures LiveGraph(Versioned(db, v)) ==
            map k | k in LiveGraph(db) && !(LiveGraph(db)[k].source == v.oldId && LiveGraph(db)[k].target == v.oldId) ::
              Renamed(LiveGraph(db)[k], v.oldId, v.newId)
  {
    assert v.oldId in db.memories;
    hide Supersedable, LiveGraph, Versioned, Renamed;
    forall k { GraphEntryAfter(db, v, k); }
  }

  /** No relation is lost, and only the ends and the provenance of one may change. */
  lemma NothingLost(db: Db, v: NewVersion, k: Id)
    requires v.oldId in db.memories && k in db.relations
    ensures Versioned(db, v).relations.Keys == db.relations.Keys
    ensures
      var r, r' := db.relations[k], Versioned(db, v).relations[k];
      && r' == r.(source := r'.source, target := r'.target, inheritedFrom := r'.inheritedFrom)
      && (r' != r ==> r'.inheritedFrom == Some(v.oldId))
      && r.target.None? == r'.target.None?
  {
  }

  /**
   An edge is left as it was if and only if it is pruned, a version link, a
   self-loop, not on old at all, or on old with a dead granule at its other end:
   a pending edge, whose target is only a name, always follows its source.
   */
  lemma LeftBehind(db: Db, v: NewVersion, k: Id)
    requires Supersedable(db, v) && k in db.relations
    ensures
      var r := db.relations[k];
      Versioned(db, v).relations[k] == r <==>
        || r.prunedAt.Some? || r.linkType == SUPERSEDES || !HangsOn(r, v.oldId)
        || (r.source != v.oldId && !Alive(db.memories, r.source))
        || (r.target.Some? && r.target != Some(v.oldId) && !Alive(db.memories, r.target.value))
  {
    var r := db.relations[k];
    assert Inherited(db.memories, r, v.oldId, v.newId) == Versioned(db, v).relations[k];
    assert r.source != v.newId && r.target != Some(v.newId);
  }

  // --- Over whole runs: no edge is stranded on an old version ----------

  /** The newest version of a granule's chain. */
  ghost function Head(m: map<Id, Granule>, id: Id): Id
    requires Linked(m) && id in m
  {
    Line(m, id)[|Line(m, id)| - 1]
  }

  /** Both ends' chains are current, yet the edge hangs on an outdated version. */
  ghost predicate Stranded(m: map<Id, Granule>, r: Relation)
    requires Linked(m)
  {
    && r.prunedAt.None? && r.linkType != SUPERSEDES
    && r.source in m && r.target.Some? && r.target.value in m && r.source != r.target.value
    && Alive(m, Head(m, r.source)) && Alive(m, Head(m, r.target.value))
    && !(Alive(m, r.source) && Alive(m, r.target.value))
  }

  ghost predicate NoneStranded(db: Db)
    requires Linked(db.memories)
  {
    forall k :: k in db.relations ==> !Stranded(db.memories, db.relations[k])
  }

  lemma AliveIsHead(m: map<Id, Granule>, now: Instant, id: Id)
    requires ChainInv(m, now) && Alive(m, id)
    ensures Head(m, id) == id
  {
    assert m[id].supersededBy.None?;
  }

  /** Heads depend on the forward links alone. */
  lemma {:induction false} SameHead(m: map<Id, Granule>, m': map<Id, Granule>, id: Id)
    requires Linked(m) && Linked(m') && id in m
    requires forall g :: g in m ==> g in m' && m'[g].supersededBy == m[g].supersededBy
    ensures Head(m', id) == Head(m, id)
    decreases Newer(m, id)
  {
    if m[id].supersededBy.Some? {
      NewerShrinks(m, id);
      var b := m[id].supersededBy.value;
      SameHead(m, m', b);
      assert Line(m, id) == [id] + Line(m, b) && Line(m', id) == [id] + Line(m', b);
    }
  }

  /** A granule linked behind the last of a chain becomes its head; every other head stays. */
  lemma {:induction false} HeadMoves(m: map<Id, Granule>, m': map<Id, Granule>, oldId: Id, newId: Id, id: Id)
    requires Linked(m) && Linked(m') && id in m && oldId in m && m[oldId].supersededBy.None?
    requires newId in m' && m'[newId].supersededBy.None?
    requires forall g :: g in m ==> g in m' && m'[g].supersededBy == if g == oldId then Some(newId) else m[g].supersededBy
    ensures Head(m', id) == if Head(m, id) == oldId then newId else Head(m, id)
    decreases Newer(m, id)
  {
    if m[id].supersededBy.Some? {
      NewerShrinks(m, id);
      var b := m[id].supersededBy.value;
      HeadMoves(m, m', oldId, newId, b);
      assert Line(m, id) == [id] + Line(m, b) && Line(m', id) == [id] + Line(m', b);
    } else if id == oldId {
      assert Line(m', id) == [id] + Line(m', newId);
    }
  }

  /** After create_version the chain that ended in old ends in new; every other head stays. */
  lemma HeadAfter(db: Db, oldId: Id, newId: Id, row: Granule, moved: set<Id>, id: Id)
    requires Inv(db) && Installable(db, oldId, newId, row, moved) && id in db.memories
    requires Linked(Installed(db, oldId, newId, row, moved).memories)
    ensures Head(Installed(db, oldId, newId, row, moved).memories, id)
         == if Head(db.memories, id) == oldId then newId else Head(db.memories, id)
  {
    assert db.memories[oldId].supersededBy.None?;
    hide Linked, Head, HashesUnique, LinksUnique;
    HeadMoves(db.memories, Installed(db, oldId, newId, row, moved).memories, oldId, newId, id);
  }

  /** Who is current afterwards, and at whose end. */
  lemma CurrentAfter(db: Db, oldId: Id, newId: Id, row: Granule, moved: set<Id>, id: Id)
    requires Inv(db) && Installable(db, oldId, newId, row, moved) && id in db.memories
    requires Linked(Installed(db, oldId, newId, row, moved).memories)
    ensures
      var m, m' := db.memories, Installed(db, oldId, newId, row, moved).memories;
      && Alive(m', newId) && Alive(m, oldId) && Head(m, oldId) == oldId
      && (Alive(m', id) <==> Alive(m, id) && id != oldId)
      && (Alive(m', Head(m', id)) <==> Alive(m, Head(m, id)))
      && (Alive(m, id) ==> Head(m, id) == id)
  {
    AliveIsHead(db.memories, db.now, oldId);
    HeadAfter(db, oldId, newId, row, moved, id);
    if Alive(db.memories, id) {
      AliveIsHead(db.memories, db.now, id);
    }
  }

  /** A live edge on old that goes to another granule and is not among those moved. */
  ghost predicate Missed(db: Db, oldId: Id, moved: set<Id>, k: Id) {
    LiveEdge(db, k) && HangsOn(db.relations[k], oldId) && k !in moved
  }

  lemma EdgeStrandedIff(db: Db, oldId: Id, newId: Id, row: Granule, moved: set<Id>, k: Id)
    requires Inv(db) && Installable(db, oldId, newId, row, moved) && k in db.relations && !Stranded(db.memories, db.relations[k])
    requires Linked(Installed(db, oldId, newId, row, moved).memories)
    ensures
      var db' := Installed(db, oldId, newId, row, moved);
      Stranded(db'.memories, db'.relations[k]) <==> Missed(db, oldId, moved, k)
  {
    var r := db.relations[k];
    CurrentAfter(db, oldId, newId, row, moved, r.source);
    if r.target.Some? {
      CurrentAfter(db, oldId, newId, row, moved, r.target.value);
      var m' := Installed(db, oldId, newId, row, moved).memories;
      assert Head(m', newId) == newId;
    }
  }

  /**
   A successor that takes over the edges `moved` leaves an edge on an outdated
   version if and only if some live edge of the old granule is not among them.
   */
  lemma InstallStrandsIff(db: Db, oldId: Id, newId: Id, row: Granule, moved: set<Id>)
    requires Inv(db) && Installable(db, oldId, newId, row, moved) && NoneStranded(db)
    ensures Inv(Installed(db, oldId, newId, row, moved))
    ensures NoneStranded(Installed(db, oldId, newId, row, moved)) <==> forall k :: !Missed(db, oldId, moved, k)
  {
    InstalledKeeps(db, oldId, newId, row, moved);
    forall k | k in db.relations { EdgeStrandedIff(db, oldId, newId, row, moved, k); }
  }

  /** A create_version at which nobody else is at work strands nothing. */
  lemma VersionStrandsNothing(db: Db, v: NewVersion)
    requires Supersedable(db, v) && NoneStranded(db)
    ensures Inv(Versioned(db, v)) && NoneStranded(Versioned(db, v))
  {
    VersionedIsInstallable(db, v);
    InstallStrandsIff(db, v.oldId, v.newId, VersionRow(db.memories[v.oldId], v, db.now), Heirlooms(db, v.oldId));
  }

  /** Statements that only close rows or edit their wrapping strand nothing. */
  lemma QuietStrandsNothing(m: map<Id, Granule>, m': map<Id, Granule>, now: Instant, r: Relation)
    requires ChainInv(m, now) && ChainInv(m', now) && Quiet(m, m', now)
    requires !Stranded(m, r)
    ensures !Stranded(m', r)
  {
    if Stranded(m', r) {
      SameHead(m, m', r.source);
      SameHead(m, m', r.target.value);
      assert Alive(m, r.source) && Alive(m, r.target.value);
      AliveIsHead(m, now, r.source);
      AliveIsHead(m, now, r.target.value);
    }
  }

  lemma StoreStrandsNothing(m: map<Id, Granule>, m': map<Id, Granule>, r: Relation)
    requires Linked(m) && Linked(m')
    requires forall g :: g in m ==> g in m' && m'[g] == m[g]
    requires r.source in m && (r.target.Some? ==> r.target.value in m)
    ensures Stranded(m', r) == Stranded(m, r)
  {
    SameHead(m, m', r.source);
    if r.target.Some? {
      SameHead(m, m', r.target.value);
    }
  }

  /** The edge hangs on current granules, or on none. */
  predicate WellPlaced(m: map<Id, Granule>, r: Relation) {
    Alive(m, r.source) && (r.target.Some? ==> Alive(m, r.target.value))
  }

  /** Edges are made, resolved and brought back between current granules only. */
  ghost predicate Placing(db: Db, a: Action) {
    match a
    case Link(_, r, _) => WellPlaced(db.memories, r)
    case AutoLink(_, r) => WellPlaced(db.memories, r)
    case ResolveNames(found) => forall k :: k in found && k in db.relations ==> Alive(db.memories, db.relations[k].source)
    case Restore(id, _) => id in db.relations ==> WellPlaced(db.memories, db.relations[id])
    case _ => true
  }

  lemma LinkStrandsNothing(db: Db, a: Action, k: Id)
    requires Linked(db.memories) && NoneStranded(db) && Placing(db, a) && Possible(db, a)
    requires a.Link? || a.AutoLink? || a.ResolveNames? || a.Unlink?
    requires k in Next(db, a).relations
    ensures Next(db, a).memories == db.memories
    ensures !Stranded(db.memories, Next(db, a).relations[k])
  {
    if k in db.relations {
      assert !Stranded(db.memories, db.relations[k]);
    }
  }

  lemma EdgeLifeStrandsNothing(db: Db, a: Action, k: Id)
    requires Linked(db.memories) && NoneStranded(db) && Placing(db, a) && OnWeights(a)
    requires k in db.relations && k in Next(db, a).relations
    ensures !Stranded(db.memories, Next(db, a).relations[k])
  {
    assert !Stranded(db.memories, db.relations[k]);
  }

  lemma StatementStrandsNothing(db: Db, a: Action, k: Id)
    requires Inv(db) && Inv(Next(db, a)) && Possible(db, a) && Placing(db, a) && NoneStranded(db)
    requires !a.CreateVersion? && k in Next(db, a).relations
    ensures !Stranded(Next(db, a).memories, Next(db, a).relations[k])
  {
    hide Stranded, Quiet, LinksUnique, HashesUnique, EndsExist;
    var db' := Next(db, a);
    if a.Store? {
      StoredEdge(db, a.rows, k);
    } else if OnRows(a) {
      RowActionsAreQuiet(db, a);
      QuietStrandsNothing(db.memories, db'.memories, db.now, db.relations[k]);
    } else if OnWeights(a) {
      EdgeLifeKeepsEnds(db, a);
      EdgeLifeStrandsNothing(db, a, k);
    } else if !a.Tick? {
      LinkStrandsNothing(db, a, k);
    }
  }

  lemma StoredEdge(db: Db, rows: map<Id, Granule>, k: Id)
    requires Inv(db) && Inv(Next(db, Store(rows))) && Possible(db, Store(rows)) && NoneStranded(db)
    requires k in db.relations
    ensures !Stranded(Next(db, Store(rows)).memories, db.relations[k])
  {
    StoreStrandsNothing(db.memories, Next(db, Store(rows)).memories, db.relations[k]);
  }

  /** Every statement that places edges well, and every create_version nobody overlaps, strands nothing. */
  lemma NoneStrandedKept(db: Db, a: Action)
    requires Inv(db) && Possible(db, a) && Placing(db, a) && NoneStranded(db)
    ensures Inv(Next(db, a)) && NoneStranded(Next(db, a))
  {
    InvKept(db, a);
    hide Inv, Stranded, Placing, Possible, Next;
    if a.CreateVersion? {
      VersionActionStrandsNothing(db, a.v);
    } else {
      forall k | k in Next(db, a).relations { StatementStrandsNothing(db, a, k); }
    }
  }

  lemma VersionActionStrandsNothing(db: Db, v: NewVersion)
    requires Inv(db) && Possible(db, CreateVersion(v)) && NoneStranded(db)
    ensures Inv(Next(db, CreateVersion(v))) && NoneStranded(Next(db, CreateVersion(v)))
  {
    if Verdict(db, v).Created? {
      VersionStrandsNothing(db, v);
    }
  }

  /** Of two chains that are still current, one has moved on from the version the edge is on. */
  ghost predicate Outdated(m: map<Id, Granule>, r: Relation)
    requires Linked(m)
  {
    && r.linkType != SUPERSEDES && r.target.Some? && r.source != r.target.value && r.source in m && r.target.value in m
    && Alive(m, Head(m, r.source)) && Alive(m, Head(m, r.target.value))
    && (m[r.source].supersededBy.Some? || m[r.target.value].supersededBy.Some?)
  }

  lemma OutdatedStrands(m: map<Id, Granule>, now: Instant, r: Relation)
    requires ChainInv(m, now) && r.source in m && (r.target.Some? ==> r.target.value in m)
    ensures Outdated(m, r) <==> Stranded(m, r.(prunedAt := None))
  {
    forall end | end in m && Alive(m, Head(m, end)) ensures Alive(m, end) <==> m[end].supersededBy.None? {
      assert m[end].supersededBy.None? ==> Line(m, end) == [end];
    }
  }

  /**
   Restoring a pruned edge strands it if and only if it joins two different,
   still current chains and one of them has moved on from the edge's version of it.
   */
  lemma RestoreStrands(db: Db, id: Id, beta: real)
    requires Inv(db) && NoneStranded(db) && id in db.relations && db.relations[id].prunedAt.Some?
    ensures Linked(Next(db, Restore(id, beta)).memories)
    ensures !NoneStranded(Next(db, Restore(id, beta))) <==> Outdated(db.memories, db.relations[id])
  {
    OutdatedStrands(db.memories, db.now, db.relations[id]);
    RestoredAlone(db, id, beta);
  }

  lemma RestoredAlone(db: Db, id: Id, beta: real)
    requires Linked(db.memories) && NoneStranded(db) && id in db.relations && db.relations[id].prunedAt.Some?
    ensures Linked(Next(db, Restore(id, beta)).memories)
    ensures NoneStranded(Next(db, Restore(id, beta))) <==> !Stranded(db.memories, db.relations[id].(prunedAt := None))
  {
    var db' := Next(db, Restore(id, beta));
    assert forall k :: k in db.relations && k != id ==> db'.relations[k] == db.relations[k];
    assert Stranded(db.memories, db'.relations[id]) == Stranded(db.memories, db.relations[id].(prunedAt := None));
  }

  lemma VersionOutdates(db: Db, v: NewVersion, r: Relation)
    requires Supersedable(db, v) && Linked(Versioned(db, v).memories)
    requires r.linkType != SUPERSEDES && r.target.Some? && r.source != r.target.value
    requires Alive(db.memories, r.source) && Alive(db.memories, r.target.value)
    requires r.source == v.oldId || r.target.value == v.oldId
    ensures Outdated(Versioned(db, v).memories, r)
  {
    VersionedIsInstallable(db, v);
    var row := VersionRow(db.memories[v.oldId], v, db.now);
    CurrentAfter(db, v.oldId, v.newId, row, Heirlooms(db, v.oldId), r.source);
    CurrentAfter(db, v.oldId, v.newId, row, Heirlooms(db, v.oldId), r.target.value);
  }

  /**
   The way to strand an edge: prune it, version one end, restore it. REWIRE
   leaves pruned edges behind, and RESTORE_EDGE does not move them.
   */
  lemma RestoreAfterVersionStrands(db: Db, v: NewVersion, k: Id, beta: real)
    requires Supersedable(db, v) && NoneStranded(db) && k in db.relations
    requires
      var r := db.relations[k];
      r.prunedAt.Some? && r.linkType != SUPERSEDES && r.target.Some? && r.source != r.target.value
      && Alive(db.memories, r.source) && Alive(db.memories, r.target.value)
      && (r.source == v.oldId || r.target.value == v.oldId)
    ensures Linked(Next(Versioned(db, v), Restore(k, beta)).memories)
    ensures !NoneStranded(Next(Versioned(db, v), Restore(k, beta)))
  {
    VersionStrandsNothing(db, v);
    VersionOutdates(db, v, db.relations[k]);
    LeftBehind(db, v, k);
    hide Supersedable, Outdated, Stranded, Installed;
    RestoreStrands(Versioned(db, v), k, beta);
  }
}
