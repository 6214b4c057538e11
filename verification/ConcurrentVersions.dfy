/**
 Concurrent create_version calls, statement by statement. service.create_version
 reads and checks, then a READ COMMITTED transaction inserts, supersedes and
 rewires. Each statement sees what was committed when it began and its own
 transaction's rows; it waits for rows another transaction has written, then
 reads them again. Any other statement may be committed in between.
 */
module ConcurrentVersions {
  import opened Options
  import opened Schema
  import opened Queries
  import opened PgRepository
  import opened VersionChains
  import opened VersionRuns

  /** What a checked call carries to its transaction. */
  datatype Request = Request(
    oldId: Id, content: string, hash: string, metadata: Metadata, importance: Option<int>, confidence: real)

  /** How a call ended; Aborted stands for a deadlock, a lost connection or a dead process. */
  datatype Answer = Succeeded(oldId: Id, newId: Id) | Refused(oldId: Id, why: Outcome) | Aborted(oldId: Id)

  /** A REWIRE statement at work: what it saw when it began, the rows it has yet to visit, and how many edges had been restored by then. */
  datatype Reading = Reading(m: map<Id, Granule>, rels: map<Id, Relation>, left: set<Id>, mark: nat)

  /** An open transaction; `began` is its now(). Its rows are its own until it commits. */
  datatype Txn =
    | Begun(req: Request, began: Instant)
    | Inserted(req: Request, began: Instant, newId: Id, row: Granule)
    | Closed(req: Request, began: Instant, newId: Id, row: Granule,
             sources: Option<Reading>, targets: Option<Reading>, moved: set<Id>)

  /** `db` is what is committed; `restored` lists the edges restored since the start. */
  datatype Sys = Sys(db: Db, pending: map<nat, Request>, txns: map<nat, Txn>, answered: map<nat, Answer>, restored: seq<Id>)

  datatype Event =
    | Check(call: nat, id: Id, content: string, hash: string, merge: Metadata, importance: Option<int>, factor: real)
    | Begin(call: nat)
    | Insert(call: nat, newId: Id)
    | Supersede(call: nat)
    | ReadSources(call: nat)
    | VisitSource(call: nat, k: Id)
    | ReadTargets(call: nat)
    | VisitTarget(call: nat, k: Id)
    | Commit(call: nat)
    | Abort(call: nat)
    | Other(a: Action)

  function Clamped(confidence: real, factor: real): real {
    var c := confidence * factor;
    var floored := if c > 0.0 then c else 0.0;
    if floored < 1.0 then floored else 1.0
  }

  /** The checks of service.create_version: asserted, different content, no other current granule with the hash. */
  predicate Passes(m: map<Id, Granule>, id: Id, hash: string) {
    && id in m && m[id].status.Asserted? && m[id].hash != Some(hash)
    && forall g :: g in m && Alive(m, g) && m[g].ns == m[id].ns && m[g].hash == Some(hash) ==> g == id
  }

  function Version(r: Request, newId: Id): NewVersion {
    NewVersion(r.oldId, newId, r.content, r.hash, r.metadata, r.importance, r.confidence)
  }

  predicate IsOpen(s: Sys, c: nat) {
    c in s.txns && s.txns[c].Closed?
  }

  /** Another transaction has superseded the granule and not committed yet. */
  ghost predicate RowLocked(s: Sys, c: nat, id: Id) {
    exists d :: d != c && IsOpen(s, d) && s.txns[d].req.oldId == id
  }

  /** Another transaction has rewired the edge and not committed yet. */
  ghost predicate EdgeLocked(s: Sys, c: nat, k: Id) {
    exists d :: d != c && IsOpen(s, d) && k in s.txns[d].moved
  }

  predicate HasKey(g: Granule, ns: nat, hash: string) {
    g.ns == ns && g.hash == Some(hash)
  }

  /** An open transaction has inserted a row under the key, or is closing the one that has it: the unique index waits for it. */
  ghost predicate KeyInDoubt(s: Sys, ns: nat, hash: string) {
    exists d :: d in s.txns && !s.txns[d].Begun? &&
      (HasKey(s.txns[d].row, ns, hash)
       || (s.txns[d].Closed? && s.txns[d].req.oldId in s.db.memories && HasKey(s.db.memories[s.txns[d].req.oldId], ns, hash)))
  }

  /** What the transaction's own statements see of the tables. */
  function View(db: Db, t: Txn): Db
    requires t.Closed? && t.req.oldId in db.memories
  {
    Installed(db, t.req.oldId, t.newId, t.row, t.moved)
  }

  /** A uuid nobody has seen. */
  ghost predicate Unseen(s: Sys, id: Id) {
    id !in s.db.memories && forall d :: d in s.txns && !s.txns[d].Begun? ==> s.txns[d].newId != id
  }

  ghost predicate EdgeUnseen(s: Sys, id: Id) {
    forall d :: IsOpen(s, d) ==>
      && (s.txns[d].sources.Some? ==> id !in s.txns[d].sources.value.rels)
      && (s.txns[d].targets.Some? ==> id !in s.txns[d].targets.value.rels)
  }

  /** The statement writes no row an open transaction has written. */
  ghost predicate Waitless(s: Sys, db': Db) {
    forall d :: IsOpen(s, d) ==>
      var t := s.txns[d];
      && (t.req.oldId in s.db.memories ==> t.req.oldId in db'.memories && db'.memories[t.req.oldId] == s.db.memories[t.req.oldId])
      && forall k :: k in t.moved && k in s.db.relations ==> k in db'.relations && db'.relations[k] == s.db.relations[k]
  }

  /** The other statements: they wait for written rows and doubtful keys, and generate fresh uuids. */
  ghost predicate Runs(s: Sys, a: Action) {
    && !a.CreateVersion? && Possible(s.db, a) && Waitless(s, Next(s.db, a))
    && (a.Store? ==> forall id :: id in a.rows ==>
          Unseen(s, id) && (a.rows[id].hash.Some? ==> !KeyInDoubt(s, a.rows[id].ns, a.rows[id].hash.value)))
    && (a.Link? || a.AutoLink? ==> EdgeUnseen(s, a.id))
  }

  ghost predicate Enabled(s: Sys, e: Event) {
    match e
    case Check(call, id, _, hash, _, _, _) =>
      call !in s.pending && call !in s.txns && call !in s.answered && Passes(s.db.memories, id, hash)
    case Begin(call) => call in s.pending
    case Insert(call, newId) =>
      && call in s.txns && s.txns[call].Begun? && Unseen(s, newId)
      && (s.txns[call].req.oldId in s.db.memories ==>
            !KeyInDoubt(s, s.db.memories[s.txns[call].req.oldId].ns, s.txns[call].req.hash))
    case Supersede(call) => call in s.txns && s.txns[call].Inserted? && !RowLocked(s, call, s.txns[call].req.oldId)
    case ReadSources(call) => Working(s, call) && s.txns[call].sources.None?
    case VisitSource(call, k) =>
      Working(s, call) && s.txns[call].sources.Some? && k in s.txns[call].sources.value.left && !EdgeLocked(s, call, k)
    case ReadTargets(call) =>
      Working(s, call) && s.txns[call].sources.Some? && s.txns[call].sources.value.left == {} && s.txns[call].targets.None?
    case VisitTarget(call, k) =>
      Working(s, call) && s.txns[call].targets.Some? && k in s.txns[call].targets.value.left && !EdgeLocked(s, call, k)
    case Commit(call) => Working(s, call) && s.txns[call].targets.Some? && s.txns[call].targets.value.left == {}
    case Abort(call) => call in s.txns
    case Other(a) => Runs(s, a)
  }

  predicate Working(s: Sys, call: nat) {
    IsOpen(s, call) && s.txns[call].req.oldId in s.db.memories
  }

  function Ended(s: Sys, call: nat, answer: Answer): Sys {
    s.(txns := s.txns - {call}, answered := s.answered[call := answer])
  }

  function Changed(s: Sys, call: nat, t: Txn): Sys {
    s.(txns := s.txns[call := t])
  }

  /** REWIRE_RELATIONS_SOURCE begins: it reads, and finds the rows its WHERE clause selects. */
  function SourcesRead(db: Db, mark: nat, t: Txn): Reading
    requires t.Closed? && t.req.oldId in db.memories
  {
    var v := View(db, t);
    Reading(v.memories, v.relations,
      (set k | k in v.relations && MovesSource(v.memories, v.relations, v.relations[k], t.req.oldId, t.newId)), mark)
  }

  function TargetsRead(db: Db, mark: nat, t: Txn): Reading
    requires t.Closed? && t.req.oldId in db.memories
  {
    var v := View(db, t);
    Reading(v.memories, v.relations,
      (set k | k in v.relations && MovesTarget(v.memories, v.relations, v.relations[k], t.req.oldId, t.newId)), mark)
  }

  /** The row as it is now still satisfies the WHERE clause, everything else being as the statement first saw it. */
  predicate StillMovesSource(db: Db, t: Txn, k: Id)
    requires t.Closed? && t.req.oldId in db.memories && t.sources.Some?
  {
    var now := View(db, t).relations;
    k in now && MovesSource(t.sources.value.m, t.sources.value.rels, now[k], t.req.oldId, t.newId)
  }

  predicate StillMovesTarget(db: Db, t: Txn, k: Id)
    requires t.Closed? && t.req.oldId in db.memories && t.targets.Some?
  {
    var now := View(db, t).relations;
    k in now && MovesTarget(t.targets.value.m, t.targets.value.rels, now[k], t.req.oldId, t.newId)
  }

  function Visited(r: Reading, k: Id): Option<Reading> {
    Some(r.(left := r.left - {k}))
  }

  function SourceVisited(db: Db, t: Txn, k: Id): Txn
    requires t.Closed? && t.req.oldId in db.memories && t.sources.Some?
  {
    t.(sources := Visited(t.sources.value, k), moved := t.moved + if StillMovesSource(db, t, k) then {k} else {})
  }

  function TargetVisited(db: Db, t: Txn, k: Id): Txn
    requires t.Closed? && t.req.oldId in db.memories && t.targets.Some?
  {
    t.(targets := Visited(t.targets.value, k), moved := t.moved + if StillMovesTarget(db, t, k) then {k} else {})
  }

  function Committed(s: Sys, call: nat): Sys
    requires Working(s, call)
  {
    var t := s.txns[call];
    Ended(s, call, Succeeded(t.req.oldId, t.newId)).(db := View(s.db, t))
  }

  function InsertedBy(s: Sys, call: nat, newId: Id): Sys
    requires call in s.txns
  {
    var t := s.txns[call];
    if t.req.oldId !in s.db.memories then Ended(s, call, Refused(t.req.oldId, NotFound))
    else
      var prev := s.db.memories[t.req.oldId];
      if HashActive(s.db.memories, prev.ns, t.req.hash) then Ended(s, call, Refused(t.req.oldId, HashConflict))
      else Changed(s, call, Inserted(t.req, t.began, newId, VersionRow(prev, Version(t.req, newId), t.began)))
  }

  function SupersededBy(s: Sys, call: nat): Sys
    requires call in s.txns && s.txns[call].Inserted?
  {
    var t := s.txns[call];
    if t.req.oldId in s.db.memories && s.db.memories[t.req.oldId].status.Asserted? then
      Changed(s, call, Closed(t.req, t.began, t.newId, t.row, None, None, {}))
    else Ended(s, call, Refused(t.req.oldId, NotAsserted))
  }

  function Logged(restored: seq<Id>, a: Action): seq<Id> {
    if a.Restore? then restored + [a.id] else restored
  }

  ghost function After(s: Sys, e: Event): Sys
    requires Enabled(s, e)
  {
    match e
    case Check(call, id, content, hash, merge, importance, factor) =>
      var g := s.db.memories[id];
      s.(pending := s.pending[call := Request(id, content, hash, g.metadata + merge, importance, Clamped(g.confidence, factor))])
    case Begin(call) => s.(pending := s.pending - {call}, txns := s.txns[call := Begun(s.pending[call], s.db.now)])
    case Insert(call, newId) => InsertedBy(s, call, newId)
    case Supersede(call) => SupersededBy(s, call)
    case ReadSources(call) => Changed(s, call, s.txns[call].(sources := Some(SourcesRead(s.db, |s.restored|, s.txns[call]))))
    case VisitSource(call, k) => Changed(s, call, SourceVisited(s.db, s.txns[call], k))
    case ReadTargets(call) => Changed(s, call, s.txns[call].(targets := Some(TargetsRead(s.db, |s.restored|, s.txns[call]))))
    case VisitTarget(call, k) => Changed(s, call, TargetVisited(s.db, s.txns[call], k))
    case Commit(call) => Committed(s, call)
    case Abort(call) => Ended(s, call, Aborted(s.txns[call].req.oldId))
    case Other(a) => s.(db := Next(s.db, a), restored := Logged(s.restored, a))
  }

  // --- What every run keeps ---------------------------------------------------------------

  predicate Known(db: Db, r: Request, seen: Instant) {
    r.oldId in db.memories && db.memories[r.oldId].validFrom <= seen <= db.now
  }

  ghost predicate TxnGood(db: Db, t: Txn) {
    && Known(db, t.req, t.began)
    && (!t.Begun? ==>
          && t.newId !in db.memories && HeirRow(t.row, db.memories[t.req.oldId], t.req.oldId, db.now)
          && !HashActive(db.memories, t.row.ns, t.row.hash.value))
    && (t.Closed? ==> Installable(db, t.req.oldId, t.newId, t.row, t.moved) && SeesItself(t.sources, t) && SeesItself(t.targets, t))
  }

  /** The transaction's REWIRE statements see the old granule closed. */
  predicate SeesItself(r: Option<Reading>, t: Txn) {
    r.Some? ==> !Alive(r.value.m, t.req.oldId)
  }

  /** No two open transactions contend for a uuid, a hash key, a granule or an edge. */
  ghost predicate Apart(t: Txn, u: Txn) {
    && (!t.Begun? && !u.Begun? ==> t.newId != u.newId && (t.row.ns, t.row.hash) != (u.row.ns, u.row.hash))
    && (t.Closed? && u.Closed? ==> t.req.oldId != u.req.oldId && t.moved !! u.moved)
  }

  ghost predicate TxnsGood(s: Sys) {
    && (forall c :: c in s.pending ==> Known(s.db, s.pending[c], s.db.now))
    && (forall c :: c in s.txns ==> TxnGood(s.db, s.txns[c]))
    && (forall c, d :: c in s.txns && d in s.txns && c != d ==> Apart(s.txns[c], s.txns[d]))
  }

  ghost predicate Won(s: Sys, call: nat) {
    call in s.answered && s.answered[call].Succeeded?
  }

  /** Every successful call's granule is still superseded by that call's version, and by no other call's. */
  ghost predicate AnswersHold(s: Sys) {
    && s.pending.Keys !! s.txns.Keys && s.answered.Keys !! (s.pending.Keys + s.txns.Keys)
    && (forall c :: Won(s, c) ==>
          var a := s.answered[c];
          a.oldId in s.db.memories && a.newId in s.db.memories && s.db.memories[a.oldId].supersededBy == Some(a.newId))
    && (forall c, d :: Won(s, c) && Won(s, d) && c != d ==> s.answered[c].newId != s.answered[d].newId)
  }

  ghost predicate Good(s: Sys) {
    Inv(s.db) && TxnsGood(s) && AnswersHold(s)
  }

  /** What the steps of others leave of the tables, as transaction t depends on them. */
  ghost predicate Steady(db: Db, db': Db, t: Txn) {
    && db.now <= db'.now && t.req.oldId in db'.memories
    && (t.req.oldId in db.memories ==>
          var g, g' := db.memories[t.req.oldId], db'.memories[t.req.oldId];
          g'.version == g.version && g'.validFrom == g.validFrom && (t.Closed? ==> g' == g))
    && (!t.Begun? ==> t.newId !in db'.memories && !(t.row.hash.Some? && HashActive(db'.memories, t.row.ns, t.row.hash.value)))
    && (t.Closed? ==> forall k :: k in t.moved && k in db.relations ==> k in db'.relations && db'.relations[k] == db.relations[k])
  }

  lemma TxnKept(db: Db, db': Db, t: Txn)
    requires TxnGood(db, t) && Steady(db, db', t)
    ensures TxnGood(db', t)
  {
  }

  /** A granule that is current after another statement was so before, with the same key, or has just been stored. */
  lemma CurrentBefore(db: Db, a: Action, g: Id)
    requires Inv(db) && Possible(db, a) && !a.CreateVersion? && Alive(Next(db, a).memories, g)
    ensures
      var m, g' := db.memories, Next(db, a).memories[g];
      || (Alive(m, g) && g'.ns == m[g].ns && g'.hash == m[g].hash)
      || (a.Store? && g in a.rows && g' == a.rows[g])
  {
    hide Linked, LinksUnique, EndsExist, HashesUnique;
    if OnRows(a) {
      RowActionsAreQuiet(db, a);
      hide Next;
    }
  }

  /** No other statement makes a key active that is in doubt. */
  lemma KeysStayFree(s: Sys, a: Action, d: nat)
    requires Good(s) && Runs(s, a) && d in s.txns && !s.txns[d].Begun?
    ensures !HashActive(Next(s.db, a).memories, s.txns[d].row.ns, s.txns[d].row.hash.value)
  {
    var t := s.txns[d];
    assert TxnGood(s.db, t);
    var m, m' := s.db.memories, Next(s.db, a).memories;
    hide Inv, Next, AnswersHold, TxnsGood, Waitless;
    forall g | Alive(m', g) ensures g in m' && !HasKey(m'[g], t.row.ns, t.row.hash.value) {
      CurrentBefore(s.db, a, g);
    }
  }

  /** The old granule as an open transaction depends on it. */
  lemma OldSteady(s: Sys, a: Action, d: nat)
    requires Good(s) && Runs(s, a) && d in s.txns
    ensures
      var id, t := s.txns[d].req.oldId, s.txns[d];
      && s.db.now <= Next(s.db, a).now && id in s.db.memories && id in Next(s.db, a).memories
      && var g, g' := s.db.memories[id], Next(s.db, a).memories[id];
      g'.version == g.version && g'.validFrom == g.validFrom && (t.Closed? ==> g' == g)
  {
    assert TxnGood(s.db, s.txns[d]);
    hide Inv, AnswersHold, TxnsGood, KeyInDoubt, Unseen, EdgeUnseen;
    if OnRows(a) {
      RowActionsAreQuiet(s.db, a);
    }
    assert s.txns[d].Closed? ==> IsOpen(s, d);
  }

  lemma OtherSteady(s: Sys, a: Action, d: nat)
    requires Good(s) && Runs(s, a) && d in s.txns
    ensures Steady(s.db, Next(s.db, a), s.txns[d])
  {
    var t := s.txns[d];
    OldSteady(s, a, d);
    if !t.Begun? {
      KeysStayFree(s, a, d);
    }
    assert TxnGood(s.db, t);
    assert t.Closed? ==> IsOpen(s, d);
    assert !t.Begun? ==> t.newId !in Next(s.db, a).memories by {
      UuidStaysFree(s, a, d);
    }
    hide Inv, AnswersHold, TxnsGood, Next, Possible;
  }

  lemma UuidStaysFree(s: Sys, a: Action, d: nat)
    requires Good(s) && Runs(s, a) && d in s.txns
    ensures !s.txns[d].Begun? ==> s.txns[d].newId !in Next(s.db, a).memories
  {
    assert TxnGood(s.db, s.txns[d]);
    hide Inv, AnswersHold, TxnsGood, Waitless, KeyInDoubt, EdgeUnseen;
    if OnRows(a) {
      RowActionsAreQuiet(s.db, a);
    }
  }

  lemma CommitSteady(s: Sys, c: nat, d: nat)
    requires Good(s) && Enabled(s, Commit(c)) && d in s.txns && d != c
    ensures Steady(s.db, View(s.db, s.txns[c]), s.txns[d])
  {
    var t, u := s.txns[c], s.txns[d];
    assert TxnGood(s.db, t) && TxnGood(s.db, u) && Apart(t, u) && Apart(u, t);
    var m, m' := s.db.memories, View(s.db, t).memories;
    if !u.Begun? {
      forall g | g in m' && Alive(m', g) ensures !HasKey(m'[g], u.row.ns, u.row.hash.value) {
        assert g == t.newId || Alive(m, g);
      }
    }
  }

  /** Once superseded, always superseded by the same version. */
  lemma SuccessorIsFinal(db: Db, a: Action, g: Id)
    requires Inv(db) && Possible(db, a) && g in db.memories
    ensures g in Next(db, a).memories
    ensures db.memories[g].supersededBy.Some? ==> Next(db, a).memories[g].supersededBy == db.memories[g].supersededBy
  {
    if OnRows(a) {
      RowActionsAreQuiet(db, a);
    } else if a.CreateVersion? && Verdict(db, a.v).Created? {
      assert db.memories[a.v.oldId].supersededBy.None?;
    }
  }

  lemma InvAfter(s: Sys, e: Event)
    requires Good(s) && Enabled(s, e)
    ensures Inv(After(s, e).db)
  {
    hide Inv, AnswersHold;
    if e.Commit? {
      var t := s.txns[e.call];
      assert TxnGood(s.db, t);
      InstalledKeeps(s.db, t.req.oldId, t.newId, t.row, t.moved);
    } else if e.Other? {
      InvKept(s.db, e.a);
    }
  }

  lemma InsertedGood(s: Sys, call: nat, newId: Id)
    requires Good(s) && Enabled(s, Insert(call, newId)) && call in InsertedBy(s, call, newId).txns
    ensures TxnGood(s.db, InsertedBy(s, call, newId).txns[call])
  {
    assert TxnGood(s.db, s.txns[call]);
    hide Inv, AnswersHold, TxnsGood;
  }

  lemma InsertedApart(s: Sys, call: nat, newId: Id, d: nat)
    requires Enabled(s, Insert(call, newId)) && call in InsertedBy(s, call, newId).txns && d in s.txns && d != call
    ensures Apart(InsertedBy(s, call, newId).txns[call], s.txns[d]) && Apart(s.txns[d], InsertedBy(s, call, newId).txns[call])
  {
    hide HashActive;
  }

  lemma ReplacedKeeps(s: Sys, call: nat, t: Txn)
    requires TxnsGood(s) && call in s.txns && TxnGood(s.db, t)
    requires forall d :: d in s.txns && d != call ==> Apart(t, s.txns[d]) && Apart(s.txns[d], t)
    ensures TxnsGood(Changed(s, call, t))
  {
    hide TxnGood, Apart;
  }

  lemma EndedKeeps(s: Sys, call: nat, answer: Answer)
    requires TxnsGood(s)
    ensures TxnsGood(Ended(s, call, answer))
  {
    hide TxnGood, Apart;
  }

  lemma InsertKeeps(s: Sys, call: nat, newId: Id)
    requires Good(s) && Enabled(s, Insert(call, newId))
    ensures TxnsGood(InsertedBy(s, call, newId))
  {
    hide Inv, AnswersHold, TxnsGood, HashActive;
    var s' := InsertedBy(s, call, newId);
    if call in s'.txns {
      InsertedGood(s, call, newId);
      forall d | d in s.txns && d != call { InsertedApart(s, call, newId, d); }
      ReplacedKeeps(s, call, s'.txns[call]);
    } else {
      EndedKeeps(s, call, s'.answered[call]);
    }
  }

  lemma SupersedeKeeps(s: Sys, call: nat)
    requires Good(s) && Enabled(s, Supersede(call))
    ensures TxnsGood(SupersededBy(s, call))
  {
    hide Inv, AnswersHold, HeirRow, HashActive;
    var t := s.txns[call];
    assert TxnGood(s.db, t);
    var s' := SupersededBy(s, call);
    forall c, d | c in s'.txns && d in s'.txns && c != d ensures Apart(s'.txns[c], s'.txns[d]) {
      assert Apart(s.txns[c], s.txns[d]);
      assert c != call && s'.txns[c].Closed? ==> IsOpen(s, c);
      assert d != call && s'.txns[d].Closed? ==> IsOpen(s, d);
    }
  }

  /** The transaction t of a call, a REWIRE statement later. */
  ghost predicate Advanced(s: Sys, call: nat, t': Txn) {
    && IsOpen(s, call) && t'.Closed?
    && var t := s.txns[call];
    && t'.req == t.req && t'.began == t.began && t'.newId == t.newId && t'.row == t.row
    && (forall k :: k in t'.moved ==> k in t.moved || (!EdgeLocked(s, call, k) && k in s.db.relations && HangsOn(s.db.relations[k], t.req.oldId)))
    && SeesItself(t'.sources, t') && SeesItself(t'.targets, t')
  }

  lemma AdvancedApart(s: Sys, call: nat, t': Txn, d: nat)
    requires TxnsGood(s) && Advanced(s, call, t') && d in s.txns && d != call
    ensures Apart(t', s.txns[d]) && Apart(s.txns[d], t')
  {
    assert Apart(s.txns[call], s.txns[d]) && Apart(s.txns[d], s.txns[call]);
    assert s.txns[d].Closed? ==> IsOpen(s, d);
    hide TxnGood;
  }

  lemma AdvanceKeeps(s: Sys, call: nat, t': Txn)
    requires Good(s) && Advanced(s, call, t')
    ensures TxnsGood(Changed(s, call, t'))
  {
    hide Inv, AnswersHold;
    assert TxnGood(s.db, s.txns[call]);
    assert TxnGood(s.db, t');
    hide TxnGood, Apart, TxnsGood;
    forall d | d in s.txns && d != call { AdvancedApart(s, call, t', d); }
    ReplacedKeeps(s, call, t');
  }

  lemma ReadAdvances(s: Sys, call: nat)
    requires Good(s)
    ensures Enabled(s, ReadSources(call)) ==> Advanced(s, call, After(s, ReadSources(call)).txns[call])
    ensures Enabled(s, ReadTargets(call)) ==> Advanced(s, call, After(s, ReadTargets(call)).txns[call])
  {
    hide Inv, AnswersHold, HashActive, HeirRow;
    if IsOpen(s, call) {
      assert TxnGood(s.db, s.txns[call]);
    }
  }

  lemma VisitAdvances(s: Sys, call: nat, k: Id)
    requires Good(s) && IsOpen(s, call)
    ensures Enabled(s, VisitSource(call, k)) ==> Advanced(s, call, SourceVisited(s.db, s.txns[call], k))
    ensures Enabled(s, VisitTarget(call, k)) ==> Advanced(s, call, TargetVisited(s.db, s.txns[call], k))
  {
    hide Inv, AnswersHold, HashActive, HeirRow, EdgeLocked;
    assert TxnGood(s.db, s.txns[call]);
    hide TxnsGood;
  }

  lemma EndKeeps(s: Sys, call: nat, answer: Answer, db': Db)
    requires Good(s) && call in s.txns && db'.now == s.db.now
    requires forall d :: d in s.txns && d != call ==> Steady(s.db, db', s.txns[d])
    requires Remain(s.db.memories, db'.memories)
    ensures TxnsGood(Ended(s, call, answer).(db := db'))
  {
    hide Inv, AnswersHold, TxnGood, Apart, Steady;
    forall d | d in s.txns && d != call { TxnKept(s.db, db', s.txns[d]); }
  }

  /** Granules stay, and begin when they began. */
  ghost predicate Remain(m: map<Id, Granule>, m': map<Id, Granule>) {
    forall g :: g in m ==> g in m' && m'[g].validFrom == m[g].validFrom && (!m[g].status.Asserted? ==> !m'[g].status.Asserted?)
  }

  lemma OtherRemains(db: Db, a: Action)
    requires Inv(db) && Possible(db, a) && !a.CreateVersion?
    ensures Remain(db.memories, Next(db, a).memories) && db.now <= Next(db, a).now
  {
    hide Inv;
    if OnRows(a) {
      RowActionsAreQuiet(db, a);
    }
  }

  lemma OtherKeeps(s: Sys, a: Action)
    requires Good(s) && Runs(s, a)
    ensures TxnsGood(After(s, Other(a)))
  {
    hide Inv, AnswersHold, TxnGood, Apart, Next, Steady;
    var db' := Next(s.db, a);
    OtherRemains(s.db, a);
    hide Runs;
    forall d | d in s.txns ensures TxnGood(db', s.txns[d]) {
      OtherSteady(s, a, d);
      TxnKept(s.db, db', s.txns[d]);
    }
  }

  lemma CommitKeeps(s: Sys, call: nat)
    requires Good(s) && Enabled(s, Commit(call))
    ensures TxnsGood(After(s, Commit(call)))
  {
    CommitRemains(s, call);
    forall d | d in s.txns && d != call { CommitSteady(s, call, d); }
    hide Good, View, Steady, Remain;
    var t := s.txns[call];
    EndKeeps(s, call, Succeeded(t.req.oldId, t.newId), View(s.db, t));
  }

  lemma TxnsKept(s: Sys, e: Event)
    requires Good(s) && Enabled(s, e)
    ensures TxnsGood(After(s, e))
  {
    hide TxnGood, Apart, Runs, Advanced, View, Inv, AnswersHold, SourcesRead, TargetsRead;
    match e
    case Check(call, id, _, _, _, _, _) => CheckKeeps(s, e);
    case Begin(call) => BeginKeeps(s, call);
    case Insert(call, newId) => InsertKeeps(s, call, newId);
    case Supersede(call) => SupersedeKeeps(s, call);
    case ReadSources(call) => ReadAdvances(s, call); AdvanceKeeps(s, call, After(s, e).txns[call]);
    case ReadTargets(call) => ReadAdvances(s, call); AdvanceKeeps(s, call, After(s, e).txns[call]);
    case VisitSource(call, k) => VisitAdvances(s, call, k); AdvanceKeeps(s, call, SourceVisited(s.db, s.txns[call], k));
    case VisitTarget(call, k) => VisitAdvances(s, call, k); AdvanceKeeps(s, call, TargetVisited(s.db, s.txns[call], k));
    case Commit(call) => CommitKeeps(s, call);
    case Abort(call) => AbortKeeps(s, call);
    case Other(a) => OtherKeeps(s, a);
  }

  lemma CheckKeeps(s: Sys, e: Event)
    requires Good(s) && e.Check? && Enabled(s, e)
    ensures TxnsGood(After(s, e))
  {
  }

  lemma BeginKeeps(s: Sys, call: nat)
    requires Good(s) && Enabled(s, Begin(call))
    ensures TxnsGood(After(s, Begin(call)))
  {
    var s' := After(s, Begin(call));
    forall c, d | c in s'.txns && d in s'.txns && c != d ensures Apart(s'.txns[c], s'.txns[d]) {
      assert c != call && d != call ==> Apart(s.txns[c], s.txns[d]);
    }
  }

  lemma AbortKeeps(s: Sys, call: nat)
    requires Good(s) && Enabled(s, Abort(call))
    ensures TxnsGood(After(s, Abort(call)))
  {
    EndKeeps(s, call, Aborted(s.txns[call].req.oldId), s.db);
    assert After(s, Abort(call)) == Ended(s, call, Aborted(s.txns[call].req.oldId)).(db := s.db);
  }

  /** A committing transaction leaves the successors of others alone. */
  lemma CommitIsFinal(s: Sys, call: nat, g: Id)
    requires Good(s) && Enabled(s, Commit(call)) && g in s.db.memories
    ensures g in Committed(s, call).db.memories
    ensures s.db.memories[g].supersededBy.Some? ==> Committed(s, call).db.memories[g].supersededBy == s.db.memories[g].supersededBy
  {
    assert TxnGood(s.db, s.txns[call]);
    assert s.db.memories[s.txns[call].req.oldId].supersededBy.None?;
  }

  lemma AnswerKept(s: Sys, e: Event, c: nat)
    requires Good(s) && Enabled(s, e) && Won(s, c)
    ensures
      var s' := After(s, e);
      var a := s.answered[c];
      && Won(s', c) && s'.answered[c] == a && a.oldId in s'.db.memories && a.newId in s'.db.memories
      && s'.db.memories[a.oldId].supersededBy == Some(a.newId)
  {
    var a := s.answered[c];
    AnswerStays(s, e, c);
    if e.Other? {
      SuccessorIsFinal(s.db, e.a, a.oldId);
      SuccessorIsFinal(s.db, e.a, a.newId);
    } else if e.Commit? {
      CommitIsFinal(s, e.call, a.oldId);
      CommitIsFinal(s, e.call, a.newId);
    } else {
      SameTables(s, e);
    }
    hide Inv, TxnsGood, Next, Runs, View, SourcesRead, TargetsRead, Unseen, KeyInDoubt, RowLocked, EdgeLocked, Passes;
  }

  lemma AnswerStays(s: Sys, e: Event, call: nat)
    requires Good(s) && Enabled(s, e) && call in s.answered
    ensures call in After(s, e).answered && After(s, e).answered[call] == s.answered[call]
  {
    hide Inv, TxnsGood, SourcesRead, TargetsRead, Unseen, KeyInDoubt, RowLocked, EdgeLocked, Passes, StillMovesSource, StillMovesTarget, Runs, View, Next;
  }

  lemma WinnerIsNew(s: Sys, e: Event, c: nat)
    requires Good(s) && Enabled(s, e) && Won(After(s, e), c) && c !in s.answered
    ensures e == Commit(c) && IsOpen(s, c) && After(s, e).answered == s.answered[c := Succeeded(s.txns[c].req.oldId, s.txns[c].newId)]
    ensures
      var a := After(s, e).answered[c];
      var m := After(s, e).db.memories;
      a.newId !in s.db.memories && a.oldId in m && a.newId in m && m[a.oldId].supersededBy == Some(a.newId)
  {
    hide Inv, Next, Runs;
    assert e.Commit?;
    assert TxnGood(s.db, s.txns[c]);
  }

  lemma CallsKept(s: Sys, e: Event)
    requires Good(s) && Enabled(s, e)
    ensures
      var s' := After(s, e);
      s'.pending.Keys !! s'.txns.Keys && s'.answered.Keys !! (s'.pending.Keys + s'.txns.Keys)
  {
    hide Inv, TxnsGood, Next, Runs, View, SourcesRead, TargetsRead;
  }

  lemma AnswersKept(s: Sys, e: Event)
    requires Good(s) && Enabled(s, e)
    ensures AnswersHold(After(s, e))
  {
    var s' := After(s, e);
    CallsKept(s, e);
    hide Inv, TxnsGood, Enabled, After;
    forall c | Won(s', c)
      ensures
        var a := s'.answered[c];
        c in s'.answered && a.Succeeded? && a.oldId in s'.db.memories && a.newId in s'.db.memories
        && s'.db.memories[a.oldId].supersededBy == Some(a.newId)
    {
      AnswerHeld(s, e, c);
    }
    forall c, d | Won(s', c) && Won(s', d) && c != d ensures s'.answered[c].newId != s'.answered[d].newId {
      AnswersDiffer(s, e, c, d);
    }
  }

  lemma AnswerHeld(s: Sys, e: Event, c: nat)
    requires Good(s) && Enabled(s, e) && Won(After(s, e), c)
    ensures
      var a, m := After(s, e).answered[c], After(s, e).db.memories;
      a.oldId in m && a.newId in m && m[a.oldId].supersededBy == Some(a.newId)
  {
    if c in s.answered {
      AnswerStays(s, e, c);
      assert Won(s, c);
      AnswerKept(s, e, c);
    } else {
      WinnerIsNew(s, e, c);
    }
  }

  lemma AnswersDiffer(s: Sys, e: Event, c: nat, d: nat)
    requires Good(s) && Enabled(s, e) && Won(After(s, e), c) && Won(After(s, e), d) && c != d
    ensures After(s, e).answered[c].newId != After(s, e).answered[d].newId
  {
    if c in s.answered {
      AnswerStays(s, e, c);
    } else {
      WinnerIsNew(s, e, c);
    }
    if d in s.answered {
      AnswerStays(s, e, d);
    } else {
      WinnerIsNew(s, e, d);
    }
    hide Inv, TxnsGood, Enabled, After;
  }

  lemma GoodKept(s: Sys, e: Event)
    requires Good(s) && Enabled(s, e)
    ensures Good(After(s, e))
  {
    InvAfter(s, e);
    TxnsKept(s, e);
    AnswersKept(s, e);
  }

  ghost predicate IsRun(states: seq<Sys>, events: seq<Event>) {
    && |states| == |events| + 1
    && forall i :: 0 <= i < |events| ==> Enabled(states[i], events[i]) && states[i + 1] == After(states[i], events[i])
  }

  /**
   Every run, however the statements of its calls interleave: the version links
   stay inverse and acyclic, every superseded row is closed by its one successor,
   no two current granules share a hash, and no call that succeeded is undone.
   */
  lemma {:induction false} EveryRun(states: seq<Sys>, events: seq<Event>, n: nat)
    requires IsRun(states, events) && n < |states| && Good(states[0])
    ensures Good(states[n])
  {
    if n > 0 {
      EveryRun(states, events, n - 1);
      GoodKept(states[n - 1], events[n - 1]);
    }
  }

  /** Of all the calls ever checked for one granule, at most one succeeds. */
  lemma OneWinner(states: seq<Sys>, events: seq<Event>, n: nat, c: nat, d: nat)
    requires IsRun(states, events) && n < |states| && Good(states[0])
    requires Won(states[n], c) && Won(states[n], d) && states[n].answered[c].oldId == states[n].answered[d].oldId
    ensures c == d
  {
    EveryRun(states, events, n);
  }

  /** The call is under way on a granule that is no longer asserted. */
  ghost predicate Stale(s: Sys, call: nat) {
    || (call in s.pending && NotAssertedNow(s.db, s.pending[call].oldId))
    || (call in s.txns && NotAssertedNow(s.db, s.txns[call].req.oldId))
  }

  predicate NotAssertedNow(db: Db, id: Id) {
    id in db.memories && !db.memories[id].status.Asserted?
  }

  lemma SameTables(s: Sys, e: Event)
    requires Enabled(s, e) && !e.Commit? && !e.Other?
    ensures After(s, e).db == s.db
  {
    hide SourcesRead, TargetsRead, Unseen, KeyInDoubt, RowLocked, EdgeLocked, Passes, StillMovesSource, StillMovesTarget;
  }

  lemma CommitRemains(s: Sys, call: nat)
    requires Good(s) && Enabled(s, Commit(call))
    ensures Remain(s.db.memories, After(s, Commit(call)).db.memories)
  {
    hide Inv, AnswersHold;
    assert TxnGood(s.db, s.txns[call]);
  }

  lemma TablesRemain(s: Sys, e: Event)
    requires Good(s) && Enabled(s, e)
    ensures Remain(s.db.memories, After(s, e).db.memories)
  {
    if e.Other? {
      OtherRemains(s.db, e.a);
      hide Inv, TxnsGood, AnswersHold, Next, Remain, Waitless;
    } else if e.Commit? {
      CommitRemains(s, e.call);
    } else {
      SameTables(s, e);
      hide Enabled, After, Inv, TxnsGood, AnswersHold;
    }
  }

  /** What becomes of a call under way in one step: it stays under way, for the same granule, or is answered. */
  lemma CallMovesOn(s: Sys, e: Event, call: nat)
    requires Enabled(s, e) && call !in s.answered && (call in s.pending || call in s.txns) && s.pending.Keys !! s.txns.Keys
    ensures
      var s' := After(s, e);
      var id := if call in s.txns then s.txns[call].req.oldId else s.pending[call].oldId;
      || (call in s'.pending && call !in s.txns && s'.pending[call].oldId == id)
      || (call in s'.txns && s'.txns[call].req.oldId == id)
      || call in s'.answered
  {
    hide SourcesRead, TargetsRead, Unseen, KeyInDoubt, RowLocked, EdgeLocked, Passes, StillMovesSource, StillMovesTarget, Runs, View, Next;
  }

  lemma StaleKept(s: Sys, e: Event, call: nat)
    requires Good(s) && Enabled(s, e) && Stale(s, call)
    ensures Stale(After(s, e), call) || (call in After(s, e).answered && !Won(After(s, e), call))
  {
    TablesRemain(s, e);
    assert call !in s.answered;
    CallMovesOn(s, e, call);
    if call in After(s, e).answered && Won(After(s, e), call) {
      WinnerIsNew(s, e, call);
    }
    hide Inv, Enabled, After, TxnGood, AnswersHold;
  }

  ghost predicate Beaten(s: Sys, call: nat) {
    Stale(s, call) || (call in s.answered && !Won(s, call))
  }

  lemma BeatenKept(s: Sys, e: Event, call: nat)
    requires Good(s) && Enabled(s, e) && Beaten(s, call)
    ensures Beaten(After(s, e), call)
  {
    if Stale(s, call) {
      StaleKept(s, e, call);
    } else {
      AnswerStays(s, e, call);
    }
    hide Good, Stale, Enabled, After;
  }

  /** A call whose granule was closed by somebody else after its check never succeeds, at whatever statement it then was. */
  lemma {:induction false} StaleCallFails(states: seq<Sys>, events: seq<Event>, n: nat, m: nat, call: nat)
    requires IsRun(states, events) && n <= m < |states| && Good(states[0]) && Stale(states[n], call)
    ensures Beaten(states[m], call) && !Won(states[m], call)
    decreases m
  {
    hide Good, Enabled, After, Stale;
    EveryRun(states, events, m);
    if n < m {
      StaleCallFails(states, events, n, m - 1, call);
      EveryRun(states, events, m - 1);
      BeatenKept(states[m - 1], events[m - 1], call);
    }
    BeatenLoses(states[m], call);
  }

  lemma BeatenLoses(s: Sys, call: nat)
    requires Good(s) && Beaten(s, call)
    ensures !Won(s, call)
  {
    hide Inv, TxnsGood;
  }
}
