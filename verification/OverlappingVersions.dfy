/**
 What overlapping create_version transactions do to the edges. REWIRE judges the
 other end of an edge by the rows that were committed when it began, so an edge
 put where it is after that, or whose other end was, stays on the outdated
 version. This says exactly which edges those are.
 */
module OverlappingVersions {
  import opened Options
  import opened Schema
  import opened Queries
  import opened PgRepository
  import opened VersionChains
  import opened VersionRuns
  import opened Rewiring
  import opened ConcurrentVersions

  // --- What a REWIRE statement finds -------------------------------------------------------

  predicate SelectedSource(r: Reading, t: Txn, k: Id)
    requires !t.Begun?
  {
    k in r.rels && MovesSource(r.m, r.rels, r.rels[k], t.req.oldId, t.newId)
  }

  predicate SelectedTarget(r: Reading, t: Txn, k: Id)
    requires !t.Begun?
  {
    k in r.rels && MovesTarget(r.m, r.rels, r.rels[k], t.req.oldId, t.newId)
  }

  /** When REWIRE of sources began, k was a row for it to move, and the granule now at the other end was there, current. */
  predicate SeenAsSource(t: Txn, row: Relation, k: Id)
    requires t.Closed?
  {
    t.sources.Some? && SelectedSource(t.sources.value, t, k) && (row.target.Some? ==> Alive(t.sources.value.m, row.target.value))
  }

  predicate SeenAsTarget(t: Txn, row: Relation, k: Id)
    requires t.Closed?
  {
    t.targets.Some? && SelectedTarget(t.targets.value, t, k) && Alive(t.targets.value.m, row.source)
  }

  predicate Seen(t: Txn, row: Relation, k: Id)
    requires t.Closed?
  {
    if row.source == t.req.oldId then SeenAsSource(t, row, k) else SeenAsTarget(t, row, k)
  }

  /** Restored after the reading began. */
  predicate RestoredSince(restored: seq<Id>, r: Reading, k: Id) {
    r.mark <= |restored| && k in restored[r.mark..]
  }

  /** A row the statement is not done with, or has nothing to do with. */
  predicate Unaccounted(restored: seq<Id>, t: Txn, r: Reading, row: Relation, k: Id)
    requires t.Closed?
  {
    && k !in t.moved && k !in r.left && row.prunedAt.None? && row.linkType != SUPERSEDES && !RestoredSince(restored, r, k)
  }

  /** What a reading knows: it is of committed rows and the transaction's own, and nothing in it comes back to life or loses its target. */
  ghost predicate ReadingGood(db: Db, restored: seq<Id>, t: Txn, r: Reading)
    requires !t.Begun?
  {
    && r.mark <= |restored|
    && r.m.Keys <= db.memories.Keys + {t.newId}
    && (forall g :: g in r.m && g != t.newId && Alive(db.memories, g) ==> Alive(r.m, g) || g == t.req.oldId)
    && (forall k :: k in r.rels && k in db.relations && r.rels[k].target.Some? ==> db.relations[k].target.Some?)
  }

  ghost predicate SourcesTracked(db: Db, restored: seq<Id>, t: Txn)
    requires t.Closed? && t.sources.Some?
  {
    var r := t.sources.value;
    && ReadingGood(db, restored, t, r)
    && (forall k :: k in r.rels ==> r.rels[k].source != t.newId)
    && (forall k :: k in r.left ==> SelectedSource(r, t, k))
    && (forall k :: k in db.relations && db.relations[k].source == t.req.oldId
          && Unaccounted(restored, t, r, db.relations[k], k) && SelectedSource(r, t, k)
          ==> db.relations[k].target.Some? && !Alive(r.m, db.relations[k].target.value))
  }

  ghost predicate TargetsTracked(db: Db, restored: seq<Id>, t: Txn)
    requires t.Closed? && t.targets.Some?
  {
    var r := t.targets.value;
    && ReadingGood(db, restored, t, r)
    && (forall k :: k in r.rels ==> r.rels[k].target != Some(t.newId))
    && (forall k :: k in r.left ==> SelectedTarget(r, t, k) && k !in t.moved)
    && (forall k :: k in db.relations && db.relations[k].target == Some(t.req.oldId)
          && Unaccounted(restored, t, r, db.relations[k], k) && SelectedTarget(r, t, k)
          ==> !Alive(r.m, db.relations[k].source))
  }

  ghost predicate Tracked(db: Db, restored: seq<Id>, t: Txn) {
    t.Closed? ==>
      && (t.sources.None? ==> t.moved == {} && t.targets.None?)
      && (t.targets.Some? ==> t.sources.Some? && t.sources.value.left == {})
      && (t.targets.None? ==> forall k :: k in t.moved && k in db.relations ==> db.relations[k].source == t.req.oldId)
      && (forall k :: k in t.moved ==> k in db.relations && Seen(t, db.relations[k], k))
      && (t.sources.Some? ==> SourcesTracked(db, restored, t))
      && (t.targets.Some? ==> TargetsTracked(db, restored, t))
  }

  ghost predicate AllTracked(s: Sys) {
    forall c :: c in s.txns ==> Tracked(s.db, s.restored, s.txns[c])
  }

  /** What one step of others may do to a row that t has not moved. */
  ghost predicate RowSteps(db: Db, db': Db, restored: seq<Id>, restored': seq<Id>, t: Txn, k: Id)
    requires t.Closed? && k in db.relations && k in db'.relations
  {
    var row, row' := db.relations[k], db'.relations[k];
    && row'.linkType == row.linkType && (row.target.Some? ==> row'.target.Some?)
    && (row'.prunedAt.None? ==> row.prunedAt.None? || (k in restored' && |restored'| == |restored| + 1 && k == restored'[|restored|]))
    && (row'.source == row.source || (row'.source !in db.memories && row'.source != t.newId))
    && (row'.target == row.target || row.target.None? || (row'.target.value !in db.memories && row'.target.value != t.newId))
  }

  ghost predicate OthersStep(db: Db, db': Db, restored: seq<Id>, restored': seq<Id>, t: Txn)
    requires t.Closed?
  {
    && restored <= restored'
    && (forall g :: g in db.memories ==> g in db'.memories && (Alive(db'.memories, g) ==> Alive(db.memories, g)))
    && (forall k :: k in t.moved ==> k in db.relations && k in db'.relations && db'.relations[k] == db.relations[k])
    && (forall k :: k in db'.relations && k !in t.moved ==>
          if k in db.relations then RowSteps(db, db', restored, restored', t, k)
          else (t.sources.Some? ==> k !in t.sources.value.rels) && (t.targets.Some? ==> k !in t.targets.value.rels))
  }

  lemma ReadingKept(db: Db, db': Db, restored: seq<Id>, restored': seq<Id>, t: Txn, r: Reading)
    requires t.Closed? && ReadingGood(db, restored, t, r) && OthersStep(db, db', restored, restored', t)
    requires t.sources == Some(r) || t.targets == Some(r)
    ensures ReadingGood(db', restored', t, r)
  {
  }

  /** A row unaccounted for after the step was so before, at an end that the reading knows or one it never saw. */
  lemma UnaccountedBefore(db: Db, db': Db, restored: seq<Id>, restored': seq<Id>, t: Txn, r: Reading, k: Id)
    requires t.Closed? && ReadingGood(db, restored, t, r) && OthersStep(db, db', restored, restored', t)
    requires k in db.relations && k in db'.relations && Unaccounted(restored', t, r, db'.relations[k], k)
    ensures Unaccounted(restored, t, r, db.relations[k], k)
  {
    assert RowSteps(db, db', restored, restored', t, k);
    assert restored[r.mark..] <= restored'[r.mark..];
    assert |restored'| == |restored| + 1 ==> restored'[|restored|] == restored'[r.mark..][|restored| - r.mark];
  }

  lemma SourcesKept(db: Db, db': Db, restored: seq<Id>, restored': seq<Id>, t: Txn)
    requires t.Closed? && t.sources.Some? && SourcesTracked(db, restored, t) && OthersStep(db, db', restored, restored', t)
    requires t.req.oldId in db.memories
    ensures SourcesTracked(db', restored', t)
  {
    var r := t.sources.value;
    ReadingKept(db, db', restored, restored', t, r);
    forall k | k in db'.relations && db'.relations[k].source == t.req.oldId
        && Unaccounted(restored', t, r, db'.relations[k], k) && SelectedSource(r, t, k)
      ensures db'.relations[k].target.Some? && !Alive(r.m, db'.relations[k].target.value)
    {
      UnaccountedBefore(db, db', restored, restored', t, r, k);
      assert RowSteps(db, db', restored, restored', t, k);
    }
  }

  lemma TargetsKept(db: Db, db': Db, restored: seq<Id>, restored': seq<Id>, t: Txn)
    requires t.Closed? && t.targets.Some? && TargetsTracked(db, restored, t) && OthersStep(db, db', restored, restored', t)
    requires t.req.oldId in db.memories
    ensures TargetsTracked(db', restored', t)
  {
    var r := t.targets.value;
    ReadingKept(db, db', restored, restored', t, r);
    forall k | k in db'.relations && db'.relations[k].target == Some(t.req.oldId)
        && Unaccounted(restored', t, r, db'.relations[k], k) && SelectedTarget(r, t, k)
      ensures !Alive(r.m, db'.relations[k].source)
    {
      UnaccountedBefore(db, db', restored, restored', t, r, k);
      assert RowSteps(db, db', restored, restored', t, k);
    }
  }

  lemma TrackedKept(db: Db, db': Db, restored: seq<Id>, restored': seq<Id>, t: Txn)
    requires Tracked(db, restored, t) && (t.Closed? ==> OthersStep(db, db', restored, restored', t) && t.req.oldId in db.memories)
    ensures Tracked(db', restored', t)
  {
    if t.Closed? {
      hide SourcesTracked, TargetsTracked, Seen, RowSteps;
      if t.sources.Some? {
        SourcesKept(db, db', restored, restored', t);
      }
      if t.targets.Some? {
        TargetsKept(db, db', restored, restored', t);
      }
    }
  }

  // --- The steps of others -----------------------------------------------------------------

  lemma OtherRows(s: Sys, a: Action, d: nat, k: Id)
    requires Good(s) && Runs(s, a) && IsOpen(s, d) && k in Next(s.db, a).relations && k !in s.txns[d].moved
    ensures
      var restored' := Logged(s.restored, a);
      if k in s.db.relations then RowSteps(s.db, Next(s.db, a), s.restored, restored', s.txns[d], k)
      else
        && (s.txns[d].sources.Some? ==> k !in s.txns[d].sources.value.rels)
        && (s.txns[d].targets.Some? ==> k !in s.txns[d].targets.value.rels)
  {
    hide Inv, TxnsGood, AnswersHold, Waitless;
  }

  lemma OtherOthersStep(s: Sys, a: Action, d: nat)
    requires Good(s) && Runs(s, a) && IsOpen(s, d)
    ensures OthersStep(s.db, Next(s.db, a), s.restored, Logged(s.restored, a), s.txns[d])
  {
    hide Good, Next, RowSteps, Runs;
    NoneRevived(s, a);
    OwnRowsStay(s, a, d);
    forall k | k in Next(s.db, a).relations && k !in s.txns[d].moved { OtherRows(s, a, d, k); }
  }

  lemma NoneRevived(s: Sys, a: Action)
    requires Good(s) && Runs(s, a)
    ensures forall g :: g in s.db.memories ==>
      g in Next(s.db, a).memories && (Alive(Next(s.db, a).memories, g) ==> Alive(s.db.memories, g))
  {
    OtherRemains(s.db, a);
    hide Next, Linked, HashesUnique, EndsExist, LinksUnique, TxnsGood, AnswersHold;
  }

  lemma OwnRowsStay(s: Sys, a: Action, d: nat)
    requires Good(s) && Runs(s, a) && IsOpen(s, d)
    ensures forall k :: k in s.txns[d].moved ==>
      k in s.db.relations && k in Next(s.db, a).relations && Next(s.db, a).relations[k] == s.db.relations[k]
  {
    assert TxnGood(s.db, s.txns[d]);
    hide Inv, AnswersHold, Next, Possible;
  }

  lemma CommitOthersStep(db: Db, restored: seq<Id>, u: Txn, t: Txn)
    requires TxnGood(db, t) && TxnGood(db, u) && t.Closed? && u.Closed? && Apart(t, u)
    ensures OthersStep(db, View(db, u), restored, restored, t)
  {
    assert forall k :: k in u.moved ==> k !in t.moved;
  }

  lemma OtherTracks(s: Sys, e: Event)
    requires Good(s) && AllTracked(s) && Enabled(s, e) && (e.Other? || e.Commit?)
    ensures AllTracked(After(s, e))
  {
    var s' := After(s, e);
    forall d | d in s'.txns ensures Tracked(s'.db, s'.restored, s'.txns[d]) {
      assert s'.txns[d] == s.txns[d] && TxnGood(s.db, s.txns[d]);
      if s.txns[d].Closed? {
        if e.Other? {
          OtherOthersStep(s, e.a, d);
        } else {
          assert TxnGood(s.db, s.txns[e.call]) && Apart(s.txns[d], s.txns[e.call]);
          CommitOthersStep(s.db, s.restored, s.txns[e.call], s.txns[d]);
        }
      }
      assert s.txns[d].req.oldId in s.db.memories;
      hide Inv, TxnsGood, AnswersHold, Tracked, OthersStep, TxnGood;
      TrackedKept(s.db, s'.db, s.restored, s'.restored, s.txns[d]);
    }
  }

  // --- A transaction's own steps -----------------------------------------------------------

  lemma ReadSourcesTracks(db: Db, restored: seq<Id>, t: Txn)
    requires t.Closed? && TxnGood(db, t) && EndsExist(db) && Tracked(db, restored, t) && t.sources.None?
    ensures Tracked(db, restored, t.(sources := Some(SourcesRead(db, |restored|, t))))
  {
    assert View(db, t).relations == db.relations;
  }

  lemma ReadTargetsTracks(db: Db, restored: seq<Id>, t: Txn)
    requires t.Closed? && TxnGood(db, t) && EndsExist(db) && Tracked(db, restored, t) && t.sources.Some? && t.sources.value.left == {} && t.targets.None?
    ensures Tracked(db, restored, t.(targets := Some(TargetsRead(db, |restored|, t))))
  {
    hide HashActive, HeirRow;
  }

  lemma VisitSourceTracks(db: Db, restored: seq<Id>, t: Txn, k: Id)
    requires t.Closed? && TxnGood(db, t) && Tracked(db, restored, t) && t.sources.Some? && k in t.sources.value.left && t.targets.None?
    ensures Tracked(db, restored, SourceVisited(db, t, k))
  {
  }

  lemma VisitTargetTracks(db: Db, restored: seq<Id>, t: Txn, k: Id)
    requires t.Closed? && TxnGood(db, t) && Tracked(db, restored, t) && t.targets.Some? && k in t.targets.value.left
    ensures Tracked(db, restored, TargetVisited(db, t, k))
  {
  }

  lemma StepTracks(s: Sys, e: Event)
    requires Good(s) && AllTracked(s) && Enabled(s, e)
    requires e.ReadSources? || e.ReadTargets? || e.VisitSource? || e.VisitTarget?
    ensures After(s, e) == Changed(s, e.call, After(s, e).txns[e.call])
    ensures Tracked(s.db, s.restored, After(s, e).txns[e.call])
  {
    var t := s.txns[e.call];
    assert TxnGood(s.db, t) && Tracked(s.db, s.restored, t);
    hide ChainInv, LinksUnique, TxnsGood, AnswersHold, TxnGood, Tracked, SourcesRead, TargetsRead, StillMovesSource, StillMovesTarget;
    match e
    case ReadSources(_) => ReadSourcesTracks(s.db, s.restored, t);
    case ReadTargets(_) => ReadTargetsTracks(s.db, s.restored, t);
    case VisitSource(_, k) =>
      assert t.targets.None? by { LateVisit(s.db, s.restored, t); }
      VisitSourceTracks(s.db, s.restored, t, k);
    case VisitTarget(_, k) => VisitTargetTracks(s.db, s.restored, t, k);
  }

  lemma LateVisit(db: Db, restored: seq<Id>, t: Txn)
    requires t.Closed? && Tracked(db, restored, t) && t.sources.Some? && t.sources.value.left != {}
    ensures t.targets.None?
  {
  }

  lemma PlainTracks(s: Sys, e: Event)
    requires AllTracked(s) && Enabled(s, e)
    requires e.Check? || e.Begin? || e.Insert? || e.Supersede? || e.Abort?
    ensures AllTracked(After(s, e))
  {
    hide Passes, Unseen, KeyInDoubt, RowLocked, SourcesTracked, TargetsTracked, Seen;
  }

  lemma TracksKept(s: Sys, e: Event)
    requires Good(s) && AllTracked(s) && Enabled(s, e)
    ensures AllTracked(After(s, e))
  {
    hide Good, Tracked, Enabled, After;
    if e.Other? || e.Commit? {
      OtherTracks(s, e);
    } else if e.ReadSources? || e.ReadTargets? || e.VisitSource? || e.VisitTarget? {
      StepTracks(s, e);
    } else {
      PlainTracks(s, e);
    }
  }

  lemma {:induction false} EveryRunTracked(states: seq<Sys>, events: seq<Event>, n: nat)
    requires IsRun(states, events) && n < |states| && Good(states[0]) && AllTracked(states[0])
    ensures Good(states[n]) && AllTracked(states[n])
  {
    if n > 0 {
      EveryRunTracked(states, events, n - 1);
      GoodKept(states[n - 1], events[n - 1]);
      TracksKept(states[n - 1], events[n - 1]);
    }
  }

  // --- Which edges a transaction takes over -------------------------------------------------

  /** The reading that looked for the row: REWIRE of sources if the old granule is its source, REWIRE of targets otherwise. */
  function ReadingOf(t: Txn, row: Relation): Reading
    requires t.Closed? && t.sources.Some? && t.targets.Some?
  {
    if row.source == t.req.oldId then t.sources.value else t.targets.value
  }

  function OtherEnd(row: Relation, id: Id): Option<Id> {
    if row.source == id then row.target else Some(row.source)
  }

  /**
   When its REWIRE began, the row was there, unpruned, on the old granule with a
   current granule or only a name at the other end, and whoever is at that end now existed.
   */
  predicate InTime(t: Txn, row: Relation, k: Id)
    requires t.Closed? && t.sources.Some? && t.targets.Some?
  {
    var r := ReadingOf(t, row);
    var end := OtherEnd(row, t.req.oldId);
    && k in r.rels && Inherits(r.m, r.rels[k], t.req.oldId)
    && (r.rels[k].source == t.req.oldId <==> row.source == t.req.oldId)
    && (end.Some? ==> end.value in r.m)
  }

  lemma SeenIsInTime(db: Db, restored: seq<Id>, t: Txn, k: Id)
    requires t.Closed? && t.sources.Some? && t.targets.Some? && TxnGood(db, t) && Tracked(db, restored, t)
    requires k in db.relations && HangsOn(db.relations[k], t.req.oldId)
    requires
      var end := OtherEnd(db.relations[k], t.req.oldId);
      end.Some? ==> Alive(db.memories, end.value)
    ensures Seen(t, db.relations[k], k) <==> InTime(t, db.relations[k], k)
  {
    assert SeesItself(t.sources, t) && SeesItself(t.targets, t);
    var r := ReadingOf(t, db.relations[k]);
    assert t.newId !in db.memories;
    assert ReadingGood(db, restored, t, r);
  }

  lemma SeenIsMoved(db: Db, restored: seq<Id>, t: Txn, k: Id)
    requires t.Closed? && t.sources.Some? && t.targets.Some? && t.sources.value.left == {} && t.targets.value.left == {}
    requires TxnGood(db, t) && Tracked(db, restored, t)
    requires k in db.relations && HangsOn(db.relations[k], t.req.oldId)
    requires db.relations[k].prunedAt.None? && db.relations[k].linkType != SUPERSEDES
    requires !RestoredSince(restored, ReadingOf(t, db.relations[k]), k)
    ensures k in t.moved <==> Seen(t, db.relations[k], k)
  {
  }

  /**
   At the end of a transaction: of the unpruned edges on the old granule whose
   other end is current or only a name, it has taken over exactly those that were
   in time for its REWIRE. (One that was pruned and has been restored meanwhile
   may have been either.)
   */
  lemma MovedIff(states: seq<Sys>, events: seq<Event>, n: nat, call: nat, k: Id)
    requires IsRun(states, events) && n < |states| && Good(states[0]) && AllTracked(states[0])
    requires Enabled(states[n], Commit(call))
    requires
      var db, t := states[n].db, states[n].txns[call];
      && k in db.relations && HangsOn(db.relations[k], t.req.oldId)
      && db.relations[k].prunedAt.None? && db.relations[k].linkType != SUPERSEDES
      && (OtherEnd(db.relations[k], t.req.oldId).Some? ==> Alive(db.memories, OtherEnd(db.relations[k], t.req.oldId).value))
    requires
      var t := states[n].txns[call];
      t.sources.Some? && !RestoredSince(states[n].restored, ReadingOf(t, states[n].db.relations[k]), k)
    ensures
      var db, t := states[n].db, states[n].txns[call];
      t.sources.Some? && (k in t.moved <==> InTime(t, db.relations[k], k))
  {
    EveryRunTracked(states, events, n);
    var s := states[n];
    var t := s.txns[call];
    assert TxnGood(s.db, t) && Tracked(s.db, s.restored, t);
    SourcesDone(s.db, s.restored, t);
    hide Good, AllTracked, TxnGood, Tracked, Seen, InTime;
    SeenIsInTime(s.db, s.restored, t, k);
    SeenIsMoved(s.db, s.restored, t, k);
  }

  lemma SourcesDone(db: Db, restored: seq<Id>, t: Txn)
    requires t.Closed? && Tracked(db, restored, t) && t.targets.Some?
    ensures t.sources.Some? && t.sources.value.left == {}
  {
  }

  // --- Which edges are stranded ---------------------------------------------------------------

  lemma CommittedTables(s: Sys, call: nat)
    requires Good(s) && Enabled(s, Commit(call))
    ensures
      var t := s.txns[call];
      && t.Closed? && Inv(s.db) && Installable(s.db, t.req.oldId, t.newId, t.row, t.moved)
      && After(s, Commit(call)).db == Installed(s.db, t.req.oldId, t.newId, t.row, t.moved)
  {
    assert TxnGood(s.db, s.txns[call]);
    hide Inv, TxnsGood, AnswersHold, Installable;
  }

  /** A successor strands exactly the live edges of the old granule that it has not taken over. */
  lemma InstalledStrandsIff(db: Db, oldId: Id, newId: Id, row: Granule, moved: set<Id>, k: Id)
    requires Inv(db) && Installable(db, oldId, newId, row, moved) && LiveEdge(db, k) && HangsOn(db.relations[k], oldId)
    ensures
      var db' := Installed(db, oldId, newId, row, moved);
      Inv(db') && k in db'.relations && (Stranded(db'.memories, db'.relations[k]) <==> k !in moved)
  {
    assert !Stranded(db.memories, db.relations[k]);
    hide Installable, Stranded;
    InstalledKeeps(db, oldId, newId, row, moved);
    EdgeStrandedIff(db, oldId, newId, row, moved, k);
  }

  /** A commit strands exactly the live edges of the old granule that came too late for its REWIRE. */
  lemma LateEdgeStrandedIff(states: seq<Sys>, events: seq<Event>, n: nat, call: nat, k: Id)
    requires IsRun(states, events) && n < |states| && Good(states[0]) && AllTracked(states[0])
    requires Enabled(states[n], Commit(call))
    requires
      var db, t := states[n].db, states[n].txns[call];
      k in db.relations && HangsOn(db.relations[k], t.req.oldId) && LiveEdge(db, k)
    requires
      var t := states[n].txns[call];
      t.sources.Some? && !RestoredSince(states[n].restored, ReadingOf(t, states[n].db.relations[k]), k)
    ensures
      var db', t := After(states[n], Commit(call)).db, states[n].txns[call];
      t.sources.Some? && Inv(db') && k in db'.relations
      && (Stranded(db'.memories, db'.relations[k]) <==> !InTime(t, states[n].db.relations[k], k))
  {
    hide After, Good, InTime, Stranded, AllTracked, IsRun, RestoredSince;
    EveryRun(states, events, n);
    MovedIff(states, events, n, call, k);
    CommittedTables(states[n], call);
    var t := states[n].txns[call];
    InstalledStrandsIff(states[n].db, t.req.oldId, t.newId, t.row, t.moved, k);
  }

  /** The commit leaves a live edge of its old granule behind. */
  ghost predicate Strands(s: Sys, e: Event) {
    Enabled(s, e) && e.Commit? && exists k :: Missed(s.db, s.txns[e.call].req.oldId, s.txns[e.call].moved, k)
  }

  /** Edges are made, resolved and brought back between current granules only. */
  ghost predicate PlacesWell(s: Sys, e: Event) {
    e.Other? ==> Placing(s.db, e.a)
  }

  /** No live edge hangs on an outdated version of two current chains. */
  ghost predicate Unstranded(s: Sys) {
    Linked(s.db.memories) && NoneStranded(s.db)
  }

  lemma StepStrandsIff(s: Sys, e: Event)
    requires Good(s) && Unstranded(s) && Enabled(s, e) && PlacesWell(s, e)
    ensures Unstranded(After(s, e)) <==> !Strands(s, e)
  {
    InvAfter(s, e);
    if e.Commit? {
      var t := s.txns[e.call];
      assert TxnGood(s.db, t);
      InstallStrandsIff(s.db, t.req.oldId, t.newId, t.row, t.moved);
    } else if e.Other? {
      NoneStrandedKept(s.db, e.a);
    } else {
      SameTables(s, e);
      hide After, Enabled;
    }
  }

  /**
   A run in which edges are placed well is free of live edges on outdated versions
   of two current chains, in every state, if and only if no commit in it leaves one behind.
   */
  lemma EveryRunStrandsNothingIff(states: seq<Sys>, events: seq<Event>)
    requires IsRun(states, events) && Good(states[0]) && Unstranded(states[0])
    requires forall i :: 0 <= i < |events| ==> PlacesWell(states[i], events[i])
    ensures (forall n :: 0 <= n < |states| ==> Unstranded(states[n])) <==> forall i :: 0 <= i < |events| ==> !Strands(states[i], events[i])
  {
    hide Good, Unstranded, Strands, PlacesWell, Enabled, After;
    if forall n :: 0 <= n < |states| ==> Unstranded(states[n]) {
      forall i | 0 <= i < |events| ensures !Strands(states[i], events[i]) {
        EveryRun(states, events, i);
        assert Unstranded(states[i]) && Unstranded(states[i + 1]);
        StepStrandsIff(states[i], events[i]);
      }
    }
    if forall i :: 0 <= i < |events| ==> !Strands(states[i], events[i]) {
      forall n | 0 <= n < |states| ensures Unstranded(states[n]) {
        StrandsNothingUpTo(states, events, n);
      }
    }
  }

  lemma {:induction false} StrandsNothingUpTo(states: seq<Sys>, events: seq<Event>, n: nat)
    requires IsRun(states, events) && n < |states| && Good(states[0]) && Unstranded(states[0])
    requires forall i :: 0 <= i < |events| ==> PlacesWell(states[i], events[i]) && !Strands(states[i], events[i])
    ensures Unstranded(states[n])
  {
    hide Good, Unstranded, Strands, PlacesWell, Enabled, After;
    if n > 0 {
      StrandsNothingUpTo(states, events, n - 1);
      EveryRun(states, events, n - 1);
      StepStrandsIff(states[n - 1], events[n - 1]);
    }
  }

  // --- A transaction nobody overlaps ----------------------------------------------------------

  /** The tables are what both REWIRE statements saw when they began. */
  ghost predicate SameSinceRead(db: Db, restored: seq<Id>, t: Txn)
    requires t.Closed? && t.req.oldId in db.memories
  {
    && t.sources.Some? && t.targets.Some?
    && t.sources.value.m == t.targets.value.m == View(db, t).memories
    && t.sources.value.rels == db.relations && t.sources.value.mark == t.targets.value.mark == |restored|
    && forall k :: k in db.relations && db.relations[k].target == Some(t.req.oldId) ==>
         k in t.targets.value.rels && t.targets.value.rels[k] == db.relations[k]
  }

  /** Nothing that matters to it has been committed since the transaction began. */
  ghost predicate Undisturbed(s: Sys, call: nat)
    requires Enabled(s, Commit(call))
  {
    var t := s.txns[call];
    && SameSinceRead(s.db, s.restored, t)
    && t.row == VersionRow(s.db.memories[t.req.oldId], Version(t.req, t.newId), s.db.now)
  }

  lemma SameRowIsSeen(db: Db, restored: seq<Id>, t: Txn, k: Id)
    requires t.Closed? && TxnGood(db, t) && Tracked(db, restored, t) && WindowsOpen(db.memories) && EndsExist(db)
    requires SameSinceRead(db, restored, t) && k in db.relations && HangsOn(db.relations[k], t.req.oldId)
    ensures Seen(t, db.relations[k], k) <==> Inherits(db.memories, db.relations[k], t.req.oldId)
  {
    var m := View(db, t).memories;
    assert forall g :: g in db.memories ==> (Alive(m, g) <==> Alive(db.memories, g) && g != t.req.oldId);
  }

  lemma UndisturbedEdge(db: Db, restored: seq<Id>, t: Txn, k: Id)
    requires t.Closed? && TxnGood(db, t) && Tracked(db, restored, t) && WindowsOpen(db.memories) && EndsExist(db)
    requires SameSinceRead(db, restored, t) && t.sources.value.left == {} && t.targets.value.left == {} && k in db.relations
    ensures k in t.moved <==> Inherits(db.memories, db.relations[k], t.req.oldId)
  {
    var row, id := db.relations[k], t.req.oldId;
    if HangsOn(row, id) {
      SameRowIsSeen(db, restored, t, k);
      if row.prunedAt.None? && row.linkType != SUPERSEDES {
        SeenIsMoved(db, restored, t, k);
      } else if k in t.moved {
        MovedIsSeen(db, restored, t, k);
      }
      hide TxnGood, Tracked, SameSinceRead, Seen;
    }
  }

  lemma MovedIsSeen(db: Db, restored: seq<Id>, t: Txn, k: Id)
    requires t.Closed? && Tracked(db, restored, t) && k in t.moved
    ensures k in db.relations && Seen(t, db.relations[k], k)
  {
  }

  lemma UndisturbedEdges(db: Db, restored: seq<Id>, t: Txn)
    requires t.Closed? && TxnGood(db, t) && Tracked(db, restored, t) && WindowsOpen(db.memories) && EndsExist(db)
    requires SameSinceRead(db, restored, t) && t.targets.value.left == {}
    ensures t.moved == Heirlooms(db, t.req.oldId)
  {
    SourcesDone(db, restored, t);
    assert forall k :: k in t.moved ==> k in db.relations;
    hide TxnGood, Tracked, EndsExist, WindowsOpen, Inherits, SameSinceRead;
    forall k | k in db.relations { UndisturbedEdge(db, restored, t, k); }
  }

  lemma UndisturbedMoves(s: Sys, call: nat)
    requires Good(s) && AllTracked(s) && Enabled(s, Commit(call)) && Undisturbed(s, call)
    ensures s.txns[call].moved == Heirlooms(s.db, s.txns[call].req.oldId)
  {
    hide TxnGood, Tracked, SameSinceRead, Inherits;
    assert WindowsOpen(s.db.memories);
    UndisturbedEdges(s.db, s.restored, s.txns[call]);
  }

  /** A transaction during which nothing else is committed leaves what Versioned says in one step. */
  lemma UndisturbedIsVersioned(states: seq<Sys>, events: seq<Event>, n: nat, call: nat)
    requires IsRun(states, events) && n < |states| && Good(states[0]) && AllTracked(states[0])
    requires Enabled(states[n], Commit(call)) && Undisturbed(states[n], call)
    ensures
      var v := Version(states[n].txns[call].req, states[n].txns[call].newId);
      v.oldId in states[n].db.memories && After(states[n], Commit(call)).db == Versioned(states[n].db, v)
  {
    EveryRunTracked(states, events, n);
    UndisturbedMoves(states[n], call);
  }

  // --- Two overlapping transactions -----------------------------------------------------------

  /** c has moved the edge's source and is about to commit; d supersedes the edge's target, and its REWIRE waits for the edge. */
  ghost predicate Overlap(s: Sys, c: nat, d: nat, k: Id) {
    && c != d && Enabled(s, Commit(c)) && IsOpen(s, d) && LiveEdge(s.db, k)
    && s.db.relations[k].source == s.txns[c].req.oldId && s.db.relations[k].target == Some(s.txns[d].req.oldId)
    && k in s.txns[c].moved && s.txns[d].targets.Some? && k in s.txns[d].targets.value.left
  }

  /** The edge's row once c has committed. */
  lemma OverlapEdge(db: Db, t: Txn, u: Txn, k: Id)
    requires t.Closed? && u.Closed? && TxnGood(db, t) && TxnGood(db, u) && Apart(t, u) && WindowsOpen(db.memories)
    requires LiveEdge(db, k) && k in t.moved && db.relations[k].source == t.req.oldId && db.relations[k].target == Some(u.req.oldId)
    ensures
      var db' := View(db, t);
      && u.req.oldId in db'.memories && LiveEdge(db', k) && HangsOn(db'.relations[k], u.req.oldId)
      && db'.relations[k].source == t.newId && k !in u.moved
  {
  }

  lemma NobodyHolds(s: Sys, c: nat, d: nat, k: Id)
    requires TxnsGood(s) && Working(s, c) && k in s.txns[c].moved
    ensures !EdgeLocked(Committed(s, c), d, k)
  {
    hide TxnGood, View;
    forall e | e in s.txns && e != c ensures !(s.txns[e].Closed? && k in s.txns[e].moved) {
      assert Apart(s.txns[c], s.txns[e]);
    }
  }

  /** After c's commit, d reads the edge again and leaves it. */
  lemma ReadAgain(db: Db, db': Db, restored: seq<Id>, u: Txn, k: Id)
    requires u.Closed? && u.targets.Some? && Tracked(db, restored, u) && k !in u.moved
    requires u.req.oldId in db'.memories && k in db'.relations && db'.relations[k].source !in db.memories && db'.relations[k].source != u.newId
    ensures !StillMovesTarget(db', u, k)
  {
    NotThereYet(db, restored, u, db'.relations[k].source);
    hide Tracked;
  }

  /** c commits, and d then passes over the edge, which is live and now comes from c's new version. */
  ghost predicate PassesOver(s: Sys, c: nat, d: nat, k: Id) {
    && Working(s, c) && IsOpen(s, d)
    && var s', id := Committed(s, c), s.txns[d].req.oldId;
    && s'.txns == s.txns - {c} && Enabled(s', VisitTarget(d, k)) && !StillMovesTarget(s'.db, s.txns[d], k)
    && LiveEdge(s'.db, k) && HangsOn(s'.db.relations[k], id) && k !in s.txns[d].moved
  }

  lemma EdgeOvertaken(db: Db, restored: seq<Id>, t: Txn, u: Txn, k: Id)
    requires t.Closed? && u.Closed? && TxnGood(db, t) && TxnGood(db, u) && Apart(t, u) && WindowsOpen(db.memories)
    requires LiveEdge(db, k) && k in t.moved && db.relations[k].source == t.req.oldId && db.relations[k].target == Some(u.req.oldId)
    requires u.targets.Some? && Tracked(db, restored, u)
    ensures
      var db' := View(db, t);
      && u.req.oldId in db'.memories && LiveEdge(db', k) && HangsOn(db'.relations[k], u.req.oldId) && k !in u.moved
      && !StillMovesTarget(db', u, k)
  {
    hide Tracked, StillMovesTarget;
    OverlapEdge(db, t, u, k);
    FreshSource(db, t, u);
    ReadAgain(db, View(db, t), restored, u, k);
  }

  lemma SecondVisits(s: Sys, c: nat, d: nat, k: Id)
    requires Overlap(s, c, d, k) && TxnsGood(s) && WindowsOpen(s.db.memories) && Tracked(s.db, s.restored, s.txns[d])
    ensures PassesOver(s, c, d, k)
  {
    hide TxnsGood, Tracked, EdgeLocked, TxnGood, Apart, LiveEdge, StillMovesTarget, HangsOn, View, WindowsOpen;
    PairGood(s, c, d);
    NobodyHolds(s, c, d, k);
    EdgeOvertaken(s.db, s.restored, s.txns[c], s.txns[d], k);
  }

  lemma PairGood(s: Sys, c: nat, d: nat)
    requires TxnsGood(s) && c in s.txns && d in s.txns && c != d
    ensures TxnGood(s.db, s.txns[c]) && TxnGood(s.db, s.txns[d]) && Apart(s.txns[c], s.txns[d])
  {
    hide TxnGood, Apart;
  }

  lemma FreshSource(db: Db, t: Txn, u: Txn)
    requires t.Closed? && u.Closed? && TxnGood(db, t) && Apart(t, u)
    ensures t.newId !in db.memories && t.newId != u.newId
  {
  }

  /** d has passed over the edge, and its commit will strand it. */
  ghost predicate WillStrand(s: Sys, d: nat, k: Id) {
    IsOpen(s, d) && Missed(s.db, s.txns[d].req.oldId, s.txns[d].moved, k) && (Enabled(s, Commit(d)) ==> Strands(s, Commit(d)))
  }

  ghost predicate StrandedByOverlap(s: Sys, c: nat, d: nat, k: Id) {
    && Enabled(s, Commit(c)) && Enabled(After(s, Commit(c)), VisitTarget(d, k))
    && WillStrand(After(After(s, Commit(c)), VisitTarget(d, k)), d, k)
  }

  lemma PassedOver(s: Sys, d: nat, k: Id)
    requires Enabled(s, VisitTarget(d, k)) && !StillMovesTarget(s.db, s.txns[d], k)
    requires LiveEdge(s.db, k) && HangsOn(s.db.relations[k], s.txns[d].req.oldId) && k !in s.txns[d].moved
    ensures WillStrand(After(s, VisitTarget(d, k)), d, k)
  {
    hide StillMovesTarget, LiveEdge, HangsOn, EdgeLocked;
    var late := After(s, VisitTarget(d, k));
    assert late == Changed(s, d, TargetVisited(s.db, s.txns[d], k));
    assert Missed(late.db, late.txns[d].req.oldId, late.txns[d].moved, k);
  }

  /**
   When c commits first, d reads the edge again and finds at its source a version
   that did not exist when the statement began: the edge stays, and d's commit strands it.
   */
  lemma OverlapStrands(s: Sys, c: nat, d: nat, k: Id)
    requires Good(s) && AllTracked(s) && Overlap(s, c, d, k)
    ensures StrandedByOverlap(s, c, d, k)
  {
    assert WindowsOpen(s.db.memories);
    hide Inv, AnswersHold, TxnsGood, Tracked, PassesOver, WindowsOpen;
    SecondVisits(s, c, d, k);
    FromPassedOver(s, c, d, k);
  }

  lemma FromPassedOver(s: Sys, c: nat, d: nat, k: Id)
    requires Enabled(s, Commit(c)) && PassesOver(s, c, d, k) && c != d
    ensures StrandedByOverlap(s, c, d, k)
  {
    hide StillMovesTarget, LiveEdge, HangsOn, EdgeLocked, WillStrand, View;
    PassedOver(Committed(s, c), d, k);
  }

  lemma NotThereYet(db: Db, restored: seq<Id>, t: Txn, id: Id)
    requires t.Closed? && t.targets.Some? && Tracked(db, restored, t) && id !in db.memories && id != t.newId
    ensures !Alive(t.targets.value.m, id)
  {
  }
}
