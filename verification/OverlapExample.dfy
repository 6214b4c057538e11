/** Two overlapping calls of create_version, one on each end of an edge, statement by statement: the edge ends on an outdated version. */
module OverlapExample {
  import opened Options
  import opened Schema
  import opened Queries
  import opened PgRepository
  import opened VersionChains
  import opened VersionRuns
  import opened Rewiring
  import opened ConcurrentVersions
  import opened OverlappingVersions

  function Row(hash: string): Granule {
    Granule(0, 0, None, hash, Some(hash), map[], 5, 1.0, false, Asserted, 0, None, None, None, 1, None)
  }

  const EDGE := Relation(0, Some(1), None, "related_to", 0.5, None, None, None, 0, None, 0, None)

  const TABLES := Db(map[0 := Row("a"), 1 := Row("b")], map[0 := EDGE], 0)

  const START := Sys(TABLES, map[], map[], map[], [])

  const FIRST := Request(0, "a2", "a2", map[], None, 1.0)
  const SECOND := Request(1, "b2", "b2", map[], None, 1.0)

  const A2 := VersionRow(Row("a"), Version(FIRST, 2), 0)
  const B2 := VersionRow(Row("b"), Version(SECOND, 3), 0)

  function Both(t: Txn, u: Txn): Sys {
    Sys(TABLES, map[], map[0 := t, 1 := u], map[], [])
  }

  const BEGUN := Both(Begun(FIRST, 0), Begun(SECOND, 0))

  function FirstClosed(sources: Option<Reading>, targets: Option<Reading>, moved: set<Id>): Txn {
    Closed(FIRST, 0, 2, A2, sources, targets, moved)
  }

  function SecondClosed(sources: Option<Reading>, targets: Option<Reading>, moved: set<Id>): Txn {
    Closed(SECOND, 0, 3, B2, sources, targets, moved)
  }

  const CLOSED := Both(FirstClosed(None, None, {}), SecondClosed(None, None, {}))

  /** A run leads from one state to another. */
  ghost predicate Leads(states: seq<Sys>, events: seq<Event>, s: Sys, t: Sys) {
    IsRun(states, events) && states[0] == s && states[|events|] == t
  }

  ghost predicate Reaches(s: Sys, t: Sys) {
    exists states, events :: Leads(states, events, s, t)
  }

  lemma Here(s: Sys)
    ensures Reaches(s, s)
  {
    assert Leads([s], [], s, s);
  }

  lemma Onward(s: Sys, t: Sys, e: Event)
    requires Reaches(s, t) && Enabled(t, e)
    ensures Reaches(s, After(t, e))
  {
    var states, events :| Leads(states, events, s, t);
    hide Enabled, After;
    assert Leads(states + [After(t, e)], events + [e], s, After(t, e));
  }

  const CHECKED := Sys(TABLES, map[0 := FIRST, 1 := SECOND], map[], map[], [])

  lemma ReachesChecked()
    ensures Reaches(START, CHECKED)
  {
    Here(START);
    var e := Check(0, 0, "a2", "a2", map[], None, 1.0);
    var s := After(START, e);
    assert s == START.(pending := map[0 := FIRST]);
    Onward(START, START, e);
    var f := Check(1, 1, "b2", "b2", map[], None, 1.0);
    assert After(s, f) == CHECKED;
    Onward(START, s, f);
  }

  lemma ReachesBegun()
    ensures Reaches(START, BEGUN)
  {
    ReachesChecked();
    hide Reaches;
    var s := After(CHECKED, Begin(0));
    Onward(START, CHECKED, Begin(0));
    assert s == Sys(TABLES, map[1 := SECOND], map[0 := Begun(FIRST, 0)], map[], []);
    assert After(s, Begin(1)) == BEGUN;
    Onward(START, s, Begin(1));
  }

  lemma ReachesClosed()
    ensures Reaches(START, CLOSED)
  {
    ReachesBegun();
    hide Reaches;
    var s := After(BEGUN, Insert(0, 2));
    assert s == Both(Inserted(FIRST, 0, 2, A2), Begun(SECOND, 0));
    Onward(START, BEGUN, Insert(0, 2));
    var t := After(s, Insert(1, 3));
    assert t == Both(Inserted(FIRST, 0, 2, A2), Inserted(SECOND, 0, 3, B2));
    Onward(START, s, Insert(1, 3));
    var u := After(t, Supersede(0));
    assert u == Both(FirstClosed(None, None, {}), Inserted(SECOND, 0, 3, B2));
    Onward(START, t, Supersede(0));
    assert After(u, Supersede(1)) == CLOSED;
    Onward(START, u, Supersede(1));
  }

  const SEEN_FIRST := View(TABLES, FirstClosed(None, None, {}))
  const SEEN_SECOND := View(TABLES, SecondClosed(None, None, {}))

  const FIRST_SOURCES := Reading(SEEN_FIRST.memories, TABLES.relations, {0}, 0)
  const SECOND_SOURCES := Reading(SEEN_SECOND.memories, TABLES.relations, {}, 0)
  const SECOND_TARGETS := Reading(SEEN_SECOND.memories, TABLES.relations, {0}, 0)
  const FIRST_DONE := FIRST_SOURCES.(left := {})
  const FIRST_TARGETS := Reading(SEEN_FIRST.memories, map[0 := Handed(EDGE, 0, 2)], {}, 0)

  const SECOND_WAITS := SecondClosed(Some(SECOND_SOURCES), Some(SECOND_TARGETS), {})
  const OVERLAP := Both(FirstClosed(Some(FIRST_DONE), Some(FIRST_TARGETS), {0}), SECOND_WAITS)

  lemma SecondReads()
    ensures SourcesRead(TABLES, 0, SecondClosed(None, None, {})) == SECOND_SOURCES
    ensures TargetsRead(TABLES, 0, SecondClosed(Some(SECOND_SOURCES), None, {})) == SECOND_TARGETS
  {
    assert SEEN_SECOND.relations == TABLES.relations;
    assert View(TABLES, SecondClosed(Some(SECOND_SOURCES), None, {})) == SEEN_SECOND;
    assert MovesTarget(SEEN_SECOND.memories, TABLES.relations, EDGE, 1, 3);
  }

  lemma FirstReads()
    ensures SourcesRead(TABLES, 0, FirstClosed(None, None, {})) == FIRST_SOURCES
    ensures SourceVisited(TABLES, FirstClosed(Some(FIRST_SOURCES), None, {}), 0) == FirstClosed(Some(FIRST_DONE), None, {0})
    ensures TargetsRead(TABLES, 0, FirstClosed(Some(FIRST_DONE), None, {0})) == FIRST_TARGETS
  {
    assert SEEN_FIRST.relations == TABLES.relations;
    assert View(TABLES, FirstClosed(Some(FIRST_SOURCES), None, {})) == SEEN_FIRST;
    assert MovesSource(SEEN_FIRST.memories, TABLES.relations, EDGE, 0, 2);
    assert FIRST_SOURCES.left - {0} == {};
    var last := View(TABLES, FirstClosed(Some(FIRST_DONE), None, {0}));
    assert last.memories == SEEN_FIRST.memories && last.relations == map[0 := Handed(EDGE, 0, 2)];
  }

  lemma ReachesWaiting()
    ensures Reaches(START, Both(FirstClosed(None, None, {}), SECOND_WAITS))
  {
    ReachesClosed();
    SecondReads();
    hide Reaches, SourcesRead, TargetsRead;
    var s := After(CLOSED, ReadSources(1));
    assert s == Both(FirstClosed(None, None, {}), SecondClosed(Some(SECOND_SOURCES), None, {}));
    Onward(START, CLOSED, ReadSources(1));
    assert After(s, ReadTargets(1)) == Both(FirstClosed(None, None, {}), SECOND_WAITS);
    Onward(START, s, ReadTargets(1));
  }

  lemma ReachesRead()
    ensures Reaches(START, Both(FirstClosed(Some(FIRST_SOURCES), None, {}), SECOND_WAITS))
  {
    ReachesWaiting();
    FirstReads();
    hide Reaches, SourcesRead, TargetsRead, SourceVisited, Handed, View;
    var s := Both(FirstClosed(None, None, {}), SECOND_WAITS);
    assert After(s, ReadSources(0)) == Both(FirstClosed(Some(FIRST_SOURCES), None, {}), SECOND_WAITS);
    Onward(START, s, ReadSources(0));
  }

  lemma ReachesMoved()
    ensures Reaches(START, Both(FirstClosed(Some(FIRST_DONE), None, {0}), SECOND_WAITS))
  {
    ReachesRead();
    FirstReads();
    hide Reaches, SourcesRead, TargetsRead, SourceVisited, Handed, View;
    var t := Both(FirstClosed(Some(FIRST_SOURCES), None, {}), SECOND_WAITS);
    assert !EdgeLocked(t, 0, 0);
    assert After(t, VisitSource(0, 0)) == Both(FirstClosed(Some(FIRST_DONE), None, {0}), SECOND_WAITS);
    Onward(START, t, VisitSource(0, 0));
  }

  lemma ReachesOverlap()
    ensures Reaches(START, OVERLAP)
  {
    ReachesMoved();
    FirstReads();
    hide Reaches, SourcesRead, TargetsRead, SourceVisited, Handed, View;
    var u := Both(FirstClosed(Some(FIRST_DONE), None, {0}), SECOND_WAITS);
    assert After(u, ReadTargets(0)) == OVERLAP;
    Onward(START, u, ReadTargets(0));
  }

  lemma Overlapping()
    ensures Overlap(OVERLAP, 0, 1, 0)
  {
  }

  lemma RowsWell()
    ensures ChainInv(TABLES.memories, 0)
  {
  }

  lemma TablesWell()
    ensures Inv(TABLES) && Linked(TABLES.memories) && NoneStranded(TABLES)
  {
    RowsWell();
    hide ChainInv, Head;
    assert Linked(TABLES.memories) by { LinkedRows(); }
  }

  lemma LinkedRows()
    ensures Linked(TABLES.memories)
  {
  }

  lemma StartsWell()
    ensures Good(START) && AllTracked(START) && Unstranded(START)
  {
    TablesWell();
    hide Inv, NoneStranded, Linked;
  }

  lemma FirstMissesNothing()
    ensures !Strands(OVERLAP, Commit(0)) && Unstranded(OVERLAP)
  {
    TablesWell();
    hide Inv, NoneStranded, Linked;
    assert OVERLAP.db == TABLES;
    forall k ensures !Missed(TABLES, 0, {0}, k) {
    }
    hide Missed;
  }

  lemma FirstCommits()
    requires Reaches(START, OVERLAP) && Good(OVERLAP) && Enabled(OVERLAP, Commit(0))
    ensures Reaches(START, Committed(OVERLAP, 0)) && Good(Committed(OVERLAP, 0))
    ensures Unstranded(Committed(OVERLAP, 0)) && Won(Committed(OVERLAP, 0), 0)
  {
    FirstMissesNothing();
    hide Good, Unstranded, Strands, Reaches, View, AllTracked, Enabled;
    StepStrandsIff(OVERLAP, Commit(0));
    Onward(START, OVERLAP, Commit(0));
    GoodKept(OVERLAP, Commit(0));
    CommitWins(OVERLAP, 0);
    hide Committed;
  }

  lemma CommitWins(s: Sys, call: nat)
    requires Enabled(s, Commit(call))
    ensures After(s, Commit(call)) == Committed(s, call) && Won(Committed(s, call), call)
  {
    hide View;
  }

  lemma SecondPasses(s: Sys)
    requires Reaches(START, s) && Good(s) && Unstranded(s) && Won(s, 0) && Enabled(s, VisitTarget(1, 0))
    ensures
      var t := After(s, VisitTarget(1, 0));
      Reaches(START, t) && Good(t) && Unstranded(t) && Won(t, 0)
  {
    hide Reaches;
    Onward(START, s, VisitTarget(1, 0));
    GoodKept(s, VisitTarget(1, 0));
    hide Good, View, StillMovesTarget, EdgeLocked;
    assert After(s, VisitTarget(1, 0)).db == s.db;
  }

  lemma SecondCommits(t: Sys)
    requires Reaches(START, t) && Good(t) && Unstranded(t) && Won(t, 0) && Enabled(t, Commit(1)) && Strands(t, Commit(1))
    ensures Reaches(START, After(t, Commit(1)))
    ensures
      var u := After(t, Commit(1));
      !Unstranded(u) && Won(u, 0) && Won(u, 1)
  {
    hide Reaches, Good, Unstranded, Strands, Enabled;
    Onward(START, t, Commit(1));
    StepStrandsIff(t, Commit(1));
    CommitWins(t, 1);
    AnswerStays(t, Commit(1), 0);
  }

  lemma GoodOverlap()
    requires Reaches(START, OVERLAP)
    ensures Good(OVERLAP) && AllTracked(OVERLAP)
  {
    StartsWell();
    hide Good, AllTracked, Unstranded, IsRun;
    var states, events :| Leads(states, events, START, OVERLAP);
    assert |states| == |events| + 1 by { RunLength(states, events); }
    EveryRunTracked(states, events, |events|);
  }

  lemma RunLength(states: seq<Sys>, events: seq<Event>)
    requires IsRun(states, events)
    ensures |states| == |events| + 1
  {
  }

  /** From a state without a stranded edge, a run of two overlapping calls that both succeed ends with one. */
  lemma OverlapEndsStranded()
    ensures Good(START) && Unstranded(START)
    ensures exists t :: Reaches(START, t) && Won(t, 0) && Won(t, 1) && !Unstranded(t)
  {
    StartsWell();
    hide Good, AllTracked, Unstranded, Overlap, Reaches, WillStrand, Strands, View;
    ReachesOverlap();
    Overlapping();
    GoodOverlap();
    OverlapStrands(OVERLAP, 0, 1, 0);
    LastCommits();
  }

  lemma LastCommits()
    requires Reaches(START, OVERLAP) && Good(OVERLAP) && StrandedByOverlap(OVERLAP, 0, 1, 0)
    ensures exists t :: Reaches(START, t) && Won(t, 0) && Won(t, 1) && !Unstranded(t)
  {
    hide Good, Unstranded, Reaches, View, Strands, Missed;
    FirstCommits();
    CommitWins(OVERLAP, 0);
    var s := Committed(OVERLAP, 0);
    SecondPasses(s);
    NothingLeft(s);
    SecondCommits(After(s, VisitTarget(1, 0)));
  }

  lemma NothingLeft(s: Sys)
    requires Enabled(s, VisitTarget(1, 0)) && s.txns[1] == SECOND_WAITS
    ensures Enabled(After(s, VisitTarget(1, 0)), Commit(1))
  {
    hide StillMovesTarget, View;
    assert {0} - {0} == {};
  }
}
