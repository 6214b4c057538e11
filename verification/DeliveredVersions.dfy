/** What a create_version call that succeeds has written, however it was interleaved: the text it was asked to store, for good. */
module DeliveredVersions {
  import opened Options
  import opened Schema
  import opened Queries
  import opened PgRepository
  import opened VersionChains
  import opened VersionRuns
  import opened ConcurrentVersions

  /** What the check of service.create_version makes of its arguments and of the granule it has read. */
  predicate AsChecked(r: Request, g: Granule, e: Event)
    requires e.Check?
  {
    && r.oldId == e.id && r.content == e.content && r.hash == e.hash && r.importance == e.importance
    && r.metadata == g.metadata + e.merge
    && IsScaled(r.confidence, g.confidence, e.factor)
  }

  /** The product, or the end of [0, 1] it has passed. */
  predicate IsScaled(r: real, confidence: real, factor: real) {
    var c := confidence * factor;
    (0.0 <= c <= 1.0 && r == c) || (c < 0.0 && r == 0.0) || (c > 1.0 && r == 1.0)
  }

  lemma ClampedIsScaled(confidence: real, factor: real)
    ensures IsScaled(Clamped(confidence, factor), confidence, factor)
  {
  }

  /** The row of an open transaction is the one asked for. */
  ghost predicate AsAsked(row: Granule, r: Request) {
    && row.content == r.content && row.hash == Some(r.hash) && row.metadata == r.metadata && row.confidence == r.confidence
    && (r.importance.Some? ==> row.importance == r.importance.value)
  }

  /** The same owner and namespace. */
  predicate SameOwner(m: map<Id, Granule>, row: Granule, id: Id) {
    id in m && row.user == m[id].user && row.ns == m[id].ns
  }

  /** The answer stands: the granule's successor has the text asked for and the granule's owner. */
  ghost predicate Delivered(m: map<Id, Granule>, a: Answer, e: Event)
    requires e.Check?
  {
    && a.Succeeded? && a.oldId == e.id && a.oldId in m && m[a.oldId].supersededBy == Some(a.newId)
    && a.newId in m && m[a.newId].content == e.content && m[a.newId].hash == Some(e.hash)
    && SameOwner(m, m[a.newId], a.oldId)
  }

  predicate Underway(s: Sys, call: nat) {
    call in s.pending || call in s.txns || call in s.answered
  }

  /** A call whose check was `e`, on the granule `g` as it then was: what it carries, and what it has delivered if it won. */
  ghost predicate Carries(s: Sys, call: nat, g: Granule, e: Event)
    requires e.Check?
  {
    && (call in s.pending ==> AsChecked(s.pending[call], g, e))
    && (call in s.txns ==>
          var t := s.txns[call];
          AsChecked(t.req, g, e) && (!t.Begun? ==> AsAsked(t.row, t.req) && SameOwner(s.db.memories, t.row, t.req.oldId)))
    && (Won(s, call) ==> Delivered(s.db.memories, s.answered[call], e))
    && Underway(s, call)
  }

  lemma CheckedCarries(s: Sys, e: Event)
    requires Good(s) && Enabled(s, e) && e.Check?
    ensures Carries(After(s, e), e.call, s.db.memories[e.id], e)
  {
    hide Inv, TxnsGood;
    var s', g := After(s, e), s.db.memories[e.id];
    ClampedIsScaled(g.confidence, e.factor);
    hide Clamped, IsScaled;
    assert AsChecked(s'.pending[e.call], g, e);
    assert e.call !in s'.txns;
    assert !Won(s', e.call);
  }

  /** The COMMIT makes the row of the transaction the granule's successor. */
  lemma CommitInstalls(s: Sys, call: nat)
    requires Good(s) && Enabled(s, Commit(call))
    ensures
      var t, s' := s.txns[call], After(s, Commit(call));
      && s'.pending == s.pending && call !in s'.pending && call !in s'.txns && call in s'.answered
      && s'.answered[call] == Succeeded(t.req.oldId, t.newId)
      && t.req.oldId in s.db.memories && t.newId !in s.db.memories
      && s'.db.memories == s.db.memories
           [t.req.oldId := s.db.memories[t.req.oldId].(status := Superseded, validTo := Some(t.row.validFrom), supersededBy := Some(t.newId))]
           [t.newId := t.row]
  {
    assert TxnGood(s.db, s.txns[call]);
    hide Inv, TxnsGood, AsChecked;
  }

  lemma CommitRewritesNothing(s: Sys, call: nat)
    requires Good(s) && Enabled(s, Commit(call))
    ensures TextKept(s.db.memories, After(s, Commit(call)).db.memories)
  {
    CommitInstalls(s, call);
    hide Good, After;
  }

  /** Committed or not, no step rewrites a granule's text. */
  lemma TextStays(s: Sys, e: Event)
    requires Good(s) && Enabled(s, e)
    ensures TextKept(s.db.memories, After(s, e).db.memories)
  {
    if e.Other? {
      NoStatementRewrites(s.db, e.a);
    } else if e.Commit? {
      CommitRewritesNothing(s, e.call);
    } else {
      SameTables(s, e);
      hide Enabled, After;
    }
    hide Inv, TxnsGood, AnswersHold, Next, Runs, TextKept;
  }

  lemma DeliveredStays(m: map<Id, Granule>, m': map<Id, Granule>, a: Answer, e: Event)
    requires e.Check? && Delivered(m, a, e) && TextKept(m, m')
    requires a.Succeeded? && a.oldId in m' && m'[a.oldId].supersededBy == Some(a.newId)
    ensures Delivered(m', a, e)
  {
  }

  /** An answered call. */
  lemma AnsweredCarries(s: Sys, e: Event, call: nat, g: Granule, ck: Event)
    requires Good(s) && Enabled(s, e) && ck.Check? && Carries(s, call, g, ck) && call in s.answered
    ensures Carries(After(s, e), call, g, ck)
  {
    AnswerStays(s, e, call);
    CallsKept(s, e);
    if Won(s, call) {
      AnswerKept(s, e, call);
      TextStays(s, e);
      hide Enabled, After, Good;
      DeliveredStays(s.db.memories, After(s, e).db.memories, s.answered[call], ck);
    }
    hide Enabled, After, Good, Delivered;
  }

  lemma BeginCarries(s: Sys, call: nat, g: Granule, ck: Event)
    requires Good(s) && Enabled(s, Begin(call)) && ck.Check? && Carries(s, call, g, ck)
    ensures Carries(After(s, Begin(call)), call, g, ck)
  {
    hide Inv, TxnsGood, Delivered, AsChecked;
  }

  /** The INSERT writes what was asked for. */
  lemma InsertCarries(s: Sys, call: nat, newId: Id, g: Granule, ck: Event)
    requires Good(s) && Enabled(s, Insert(call, newId)) && ck.Check? && Carries(s, call, g, ck)
    ensures Carries(After(s, Insert(call, newId)), call, g, ck)
  {
    hide Inv, TxnsGood, Delivered, AsChecked, HashActive, KeyInDoubt, Unseen;
  }

  lemma CommitCarries(s: Sys, call: nat, g: Granule, ck: Event)
    requires Good(s) && Enabled(s, Commit(call)) && ck.Check? && Carries(s, call, g, ck)
    ensures Carries(After(s, Commit(call)), call, g, ck)
  {
    CommitInstalls(s, call);
    hide Good, After;
  }

  /** The other statements of a call: its row and its request stay, or it ends without success. */
  lemma RewireCarries(s: Sys, e: Event, call: nat, g: Granule, ck: Event)
    requires Good(s) && Enabled(s, e) && ck.Check? && Carries(s, call, g, ck) && call !in s.answered
    requires e.Supersede? || e.ReadSources? || e.VisitSource? || e.ReadTargets? || e.VisitTarget? || e.Abort?
    requires e.call == call
    ensures Carries(After(s, e), call, g, ck)
  {
    hide Inv, TxnsGood, RowLocked, EdgeLocked, SourcesRead, TargetsRead, StillMovesSource, StillMovesTarget;
    hide Delivered, AsChecked, AsAsked, SameOwner;
  }

  predicate SameCall(s: Sys, s': Sys, call: nat) {
    && (call in s.pending <==> call in s'.pending) && (call in s.pending ==> s'.pending[call] == s.pending[call])
    && (call in s.txns <==> call in s'.txns) && (call in s.txns ==> s'.txns[call] == s.txns[call])
    && (call in s.answered <==> call in s'.answered) && (call in s.answered ==> s'.answered[call] == s.answered[call])
  }

  lemma SameCallCarries(s: Sys, s': Sys, call: nat, g: Granule, ck: Event)
    requires ck.Check? && Carries(s, call, g, ck) && call !in s.answered && SameCall(s, s', call)
    requires TextKept(s.db.memories, s'.db.memories)
    ensures Carries(s', call, g, ck)
  {
    hide AsChecked, AsAsked, Delivered;
  }

  /** A step of somebody else leaves the call where it is. */
  lemma CallStays(s: Sys, e: Event, call: nat)
    requires Good(s) && Enabled(s, e) && Underway(s, call) && (e.Other? || e.call != call)
    ensures SameCall(s, After(s, e), call)
  {
    hide Inv, TxnsGood, AnswersHold, Unseen, KeyInDoubt, RowLocked, EdgeLocked, SourcesRead, TargetsRead, StillMovesSource, StillMovesTarget;
    hide Next, Runs, View, Passes, Clamped, VersionRow, SourceVisited, TargetVisited;
  }

  lemma OthersStepCarries(s: Sys, e: Event, call: nat, g: Granule, ck: Event)
    requires Good(s) && Enabled(s, e) && ck.Check? && Carries(s, call, g, ck) && call !in s.answered
    requires e.Other? || e.call != call
    ensures Carries(After(s, e), call, g, ck)
  {
    TextStays(s, e);
    CallStays(s, e, call);
    hide Good, Enabled, After, Carries, SameCall, TextKept;
    SameCallCarries(s, After(s, e), call, g, ck);
  }

  lemma CarriesKept(s: Sys, e: Event, call: nat, g: Granule, ck: Event)
    requires Good(s) && Enabled(s, e) && ck.Check? && Carries(s, call, g, ck)
    ensures Carries(After(s, e), call, g, ck)
  {
    if call in s.answered {
      AnsweredCarries(s, e, call, g, ck);
    } else if e.Other? || e.call != call {
      OthersStepCarries(s, e, call, g, ck);
    } else {
      match e
      case Begin(_) => BeginCarries(s, call, g, ck);
      case Insert(_, newId) => InsertCarries(s, call, newId, g, ck);
      case Commit(_) => CommitCarries(s, call, g, ck);
      case _ => RewireCarries(s, e, call, g, ck);
    }
  }

  /** Whatever became of a checked call by state n, it carries what its check was called with; and if it won, its successor has that text. */
  lemma {:induction false} CheckedCallDelivers(states: seq<Sys>, events: seq<Event>, i: nat, n: nat)
    requires IsRun(states, events) && i < n < |states| && Good(states[0]) && events[i].Check? && events[i].id in states[i].db.memories
    ensures Carries(states[n], events[i].call, states[i].db.memories[events[i].id], events[i])
  {
    hide Good, Enabled, After, Carries;
    EveryRun(states, events, n - 1);
    if n == i + 1 {
      CheckedCarries(states[i], events[i]);
    } else {
      CheckedCallDelivers(states, events, i, n - 1);
      CarriesKept(states[n - 1], events[n - 1], events[i].call, states[i].db.memories[events[i].id], events[i]);
    }
  }

  lemma UnderwayBegins(s: Sys, e: Event, call: nat)
    requires Enabled(s, e) && !Underway(s, call) && Underway(After(s, e), call)
    ensures e.Check? && e.call == call && e.id in s.db.memories
  {
    hide Unseen, KeyInDoubt, RowLocked, EdgeLocked, SourcesRead, TargetsRead, StillMovesSource, StillMovesTarget, Next, Runs, View;
  }

  /** Every call under way was checked in the run. */
  lemma {:induction false} CheckedOnce(states: seq<Sys>, events: seq<Event>, n: nat, call: nat) returns (i: nat)
    requires IsRun(states, events) && n < |states| && !Underway(states[0], call) && Underway(states[n], call)
    ensures i < n && events[i].Check? && events[i].call == call && events[i].id in states[i].db.memories
  {
    hide Enabled, After, Underway;
    if Underway(states[n - 1], call) {
      i := CheckedOnce(states, events, n - 1, call);
    } else {
      i := n - 1;
      UnderwayBegins(states[i], events[i], call);
    }
  }

  /**
   In every run that starts without the call: if it has won by state n, it was
   checked before with some text, and the granule it was checked for has, in
   that state and every later one, a successor with this text and its hash under
   the same owner.
   */
  lemma WinnerDelivers(states: seq<Sys>, events: seq<Event>, n: nat, call: nat)
    requires IsRun(states, events) && n < |states| && Good(states[0]) && !Underway(states[0], call) && Won(states[n], call)
    ensures exists i ::
      && 0 <= i < n && events[i].Check? && events[i].call == call
      && forall k :: n <= k < |states| ==>
           Won(states[k], call) && states[k].answered[call] == states[n].answered[call]
           && Delivered(states[k].db.memories, states[n].answered[call], events[i])
  {
    hide Good, Enabled, After, Delivered;
    var i := CheckedOnce(states, events, n, call);
    forall k | n <= k < |states|
      ensures Won(states[k], call) && states[k].answered[call] == states[n].answered[call]
      ensures Delivered(states[k].db.memories, states[n].answered[call], events[i])
    {
      CheckedCallDelivers(states, events, i, k);
      AnswerForGood(states, events, n, k, call);
    }
  }

  lemma {:induction false} AnswerForGood(states: seq<Sys>, events: seq<Event>, n: nat, k: nat, call: nat)
    requires IsRun(states, events) && n <= k < |states| && Good(states[0]) && Won(states[n], call)
    ensures Won(states[k], call) && states[k].answered[call] == states[n].answered[call]
    decreases k
  {
    hide Good, Enabled, After;
    if n < k {
      AnswerForGood(states, events, n, k - 1, call);
      EveryRun(states, events, k - 1);
      AnswerStays(states[k - 1], events[k - 1], call);
    }
  }

  /** Every column the check of a call determines, given the granule as the check read it. */
  predicate RowAsChecked(row: Granule, g: Granule, e: Event)
    requires e.Check?
  {
    && row.content == e.content && row.hash == Some(e.hash) && row.metadata == g.metadata + e.merge
    && (e.importance.Some? ==> row.importance == e.importance.value)
    && IsScaled(row.confidence, g.confidence, e.factor)
  }

  predicate IsSuccessor(row: Granule, was: Granule, oldId: Id) {
    && row.user == was.user && row.ns == was.ns && row.version == was.version + 1 && row.supersedes == Some(oldId)
    && row.status.Asserted? && row.validTo.None? && was.validTo == Some(row.validFrom)
  }

  lemma CommitReads(s: Sys, call: nat, g: Granule, ck: Event)
    requires Good(s) && Enabled(s, Commit(call)) && ck.Check? && Carries(s, call, g, ck)
    ensures
      var s' := After(s, Commit(call));
      && Won(s', call)
      && var a := s'.answered[call];
      && a.oldId == ck.id && a.newId in s'.db.memories && a.oldId in s'.db.memories
      && RowAsChecked(s'.db.memories[a.newId], g, ck)
      && IsSuccessor(s'.db.memories[a.newId], s'.db.memories[ck.id], ck.id)
  {
    CommitInstalls(s, call);
    assert TxnGood(s.db, s.txns[call]);
    hide Inv, TxnsGood, AnswersHold, After, HashActive, Installable;
  }

  /** What is read back when the call commits: every column its check determined. */
  lemma CommittedAsAsked(states: seq<Sys>, events: seq<Event>, i: nat, j: nat)
    requires IsRun(states, events) && i < j < |events| && Good(states[0])
    requires events[i].Check? && events[i].id in states[i].db.memories && events[j] == Commit(events[i].call)
    ensures Won(states[j + 1], events[i].call)
    ensures
      var e, g, s, a := events[i], states[i].db.memories[events[i].id], states[j + 1], states[j + 1].answered[events[i].call];
      && a.oldId == e.id && a.newId in s.db.memories && e.id in s.db.memories
      && RowAsChecked(s.db.memories[a.newId], g, e)
      && IsSuccessor(s.db.memories[a.newId], s.db.memories[e.id], e.id)
  {
    CheckedCallDelivers(states, events, i, j);
    hide Good, Enabled, After, Carries;
    EveryRun(states, events, j);
    CommitReads(states[j], events[i].call, states[i].db.memories[events[i].id], events[i]);
  }
}
