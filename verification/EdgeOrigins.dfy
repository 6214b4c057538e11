/** Where the linker edges without a layer, which no campaign prunes, come from. */
module EdgeOrigins {
  import opened Options
  import opened Schema
  import opened Queries
  import opened PgRepository
  import opened VersionRuns
  import opened ConcurrentVersions

  predicate NoLayer(r: Relation) {
    r.origin == Some(LINKER) && r.layer.None?
  }

  predicate LayersWritten(rels: map<Id, Relation>) {
    forall k :: k in rels ==> !NoLayer(rels[k])
  }

  /** add_relation, which takes any metadata, is given the linker's source and no layer. */
  predicate WritesNoLayer(e: Event) {
    e.Other? && e.a.Link? && NoLayer(e.a.r)
  }

  lemma StatementWritesLayers(db: Db, a: Action)
    requires LayersWritten(db.relations) && Possible(db, a) && !(a.Link? && NoLayer(a.r))
    ensures LayersWritten(Next(db, a).relations)
  {
  }

  /** No other step makes an edge without a layer. */
  lemma StepWritesLayers(s: Sys, e: Event)
    requires LayersWritten(s.db.relations) && Enabled(s, e) && !WritesNoLayer(e)
    ensures LayersWritten(After(s, e).db.relations)
  {
    if e.Other? {
      StatementWritesLayers(s.db, e.a);
    } else if e.Commit? {
      hide Runs, Next;
    } else {
      SameTables(s, e);
      hide Enabled, After;
    }
  }

  /** No run makes a linker edge without a layer unless somebody adds one by hand: the linker itself always writes a layer. */
  lemma {:induction false} UnlayeredOnlyByHand(states: seq<Sys>, events: seq<Event>, n: nat)
    requires IsRun(states, events) && n < |states| && LayersWritten(states[0].db.relations)
    requires forall i :: 0 <= i < |events| ==> !WritesNoLayer(events[i])
    ensures LayersWritten(states[n].db.relations)
  {
    hide Enabled, After, LayersWritten;
    if n > 0 {
      UnlayeredOnlyByHand(states, events, n - 1);
      StepWritesLayers(states[n - 1], events[n - 1]);
    }
  }
}
