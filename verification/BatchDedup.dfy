/**
 check_batch of dedup.py: which entries of a batch are inserted, which are
 duplicates. It works in phases over the whole batch; here each entry's decision
 is stated by itself, and the phases are proved to come to it.
 */
module BatchDedup {
  import opened Options
  import opened Sorting

  type Id = nat

  /** A current row of the memories table, as the active-hash index sees it. */
  datatype Row = Row(ns: string, hash: Option<string>, id: Id)

  /** `entity` is metadata's entity_name, stripped and lower-cased; "" when there is none. */
  datatype Entry = Entry(content: string, ns: string, entity: string)

  datatype Hit = Hit(id: Id, score: real, entity: string)

  /** The outcome of one semantic search. */
  datatype Search = Failed | Found(hits: seq<Hit>)

  datatype Action = Insert | Skip | Update

  datatype Decision = Decision(action: Action, existing: Option<Id>, hash: string)

  /** What the engine consults: the hash function, the namespaces' thresholds, the rows, and each entry's semantic search. */
  datatype World = World(sha: string -> string, threshold: string -> real, rows: seq<Row>, search: nat -> Search)

  type Key = (string, string)

  function KeyOf(w: World, e: Entry): Key {
    (e.ns, w.sha(e.content))
  }

  function ActiveId(rows: seq<Row>, key: Key): (id: Option<Id>)
    ensures id.None? <==> forall i :: 0 <= i < |rows| ==> !(rows[i].ns == key.0 && rows[i].hash == Some(key.1))
    ensures id.Some? ==> exists i :: 0 <= i < |rows| && rows[i].ns == key.0 && rows[i].hash == Some(key.1) && rows[i].id == id.value
  {
    if |rows| == 0 then None
    else
      var r := rows[|rows| - 1];
      if r.ns == key.0 && r.hash == Some(key.1) then Some(r.id) else ActiveId(rows[..|rows| - 1], key)
  }

  /** An exact duplicate is an update in user_facts, a skip elsewhere. */
  function Exact(ns: string): Action {
    if ns == "user_facts" then Update else Skip
  }

  /** _semantic_match: the top hit, if it is over the threshold and does not name another entity. */
  function SemanticMatch(hits: seq<Hit>, threshold: real, entity: string): Option<Hit> {
    if hits == [] || hits[0].score < threshold then None
    else if entity != "" && hits[0].entity != "" && entity != hits[0].entity then None
    else Some(hits[0])
  }

  function Judged(w: World, entries: seq<Entry>, i: nat): Decision
    requires i < |entries|
  {
    var hash := w.sha(entries[i].content);
    match w.search(i)
    case Failed => Decision(Insert, None, hash)
    case Found(hits) =>
      match SemanticMatch(hits, w.threshold(entries[i].ns), entries[i].entity)
      case Some(hit) => Decision(Skip, Some(hit.id), hash)
      case None => Decision(Insert, None, hash)
  }

  ghost predicate Repeats(w: World, entries: seq<Entry>, i: nat)
    requires i < |entries|
  {
    exists j :: 0 <= j < i && KeyOf(w, entries[j]) == KeyOf(w, entries[i])
  }

  /** The decision on entry i: known already, repeated in the batch, or as the semantic search says. */
  ghost function Decided(w: World, entries: seq<Entry>, i: nat): Decision
    requires i < |entries|
  {
    var key := KeyOf(w, entries[i]);
    var known := ActiveId(w.rows, key);
    if known.Some? then Decision(Exact(key.0), known, key.1)
    else if Repeats(w, entries, i) then Decision(Exact(key.0), None, key.1)
    else Judged(w, entries, i)
  }

  // --- What the decisions guarantee -------------------------------------------------------

  ghost predicate AreDecisions(w: World, entries: seq<Entry>, decisions: seq<Decision>) {
    |decisions| == |entries| && forall i :: 0 <= i < |entries| ==> decisions[i] == Decided(w, entries, i)
  }

  /** At most one insert for each namespace and hash, and none for a pair that is active. */
  lemma OneInsertPerKey(w: World, entries: seq<Entry>, decisions: seq<Decision>, i: nat, j: nat)
    requires AreDecisions(w, entries, decisions) && i <= j < |entries|
    requires decisions[i].action.Insert? && decisions[j].action.Insert? && KeyOf(w, entries[i]) == KeyOf(w, entries[j])
    ensures i == j && ActiveId(w.rows, KeyOf(w, entries[i])).None?
  {
    assert decisions[j] == Decided(w, entries, j);
    assert decisions[i] == Decided(w, entries, i);
    assert !Repeats(w, entries, j);
  }

  /** A current row has the entry's namespace and hash. */
  predicate IsActive(rows: seq<Row>, ns: string, hash: string) {
    exists i :: 0 <= i < |rows| && rows[i].ns == ns && rows[i].hash == Some(hash)
  }

  /** The search has found the entry's meaning: its first hit reaches the namespace's threshold and names no other entity. */
  ghost predicate Recognised(w: World, e: Entry, i: nat) {
    exists hits: seq<Hit> :: w.search(i) == Found(hits) && hits != [] && hits[0].score >= w.threshold(e.ns)
      && (e.entity == "" || hits[0].entity == "" || e.entity == hits[0].entity)
  }

  /**
   What becomes of entry i: an exact duplicate, of a row or of an earlier entry, is
   an update in user_facts and a skip elsewhere; one recognised is a skip; anything
   else, a failed search included, is inserted. An id is given for a row known.
   */
  lemma DecidedIff(w: World, entries: seq<Entry>, i: nat)
    requires i < |entries|
    ensures
      var e, d := entries[i], Decided(w, entries, i);
      var exact := IsActive(w.rows, e.ns, w.sha(e.content))
        || exists j :: 0 <= j < i && entries[j].ns == e.ns && w.sha(entries[j].content) == w.sha(e.content);
      && d.hash == w.sha(e.content)
      && (d.action == Update <==> exact && e.ns == "user_facts")
      && (d.action == Skip <==> (exact && e.ns != "user_facts") || (!exact && Recognised(w, e, i)))
      && (d.action == Insert ==> d.existing.None?)
      && (d.existing.Some? && exact ==>
            exists k :: 0 <= k < |w.rows| && w.rows[k] == Row(e.ns, Some(d.hash), d.existing.value))
      && (exact ==> (d.existing.Some? <==> IsActive(w.rows, e.ns, d.hash)))
      && (d.action == Skip && !exact ==> w.search(i).Found? && w.search(i).hits != [] && d.existing == Some(w.search(i).hits[0].id))
  {
    var e := entries[i];
    var key := KeyOf(w, e);
    assert Repeats(w, entries, i) <==>
      exists j :: 0 <= j < i && entries[j].ns == e.ns && w.sha(entries[j].content) == w.sha(e.content) by {
      if j :| 0 <= j < i && entries[j].ns == e.ns && w.sha(entries[j].content) == w.sha(e.content) {
        assert KeyOf(w, entries[j]) == key;
      }
    }
    assert Recognised(w, e, i) <==> Judged(w, entries, i).action == Skip by {
      if w.search(i).Found? {
        assert w.search(i) == Found(w.search(i).hits);
      }
    }
  }

  // --- The engine -------------------------------------------------------------------------

  datatype Ratio = Ratio(skipped: nat, inserted: nat)

  function CountsFor(counts: map<string, Ratio>, ns: string): Ratio {
    if ns in counts then counts[ns] else Ratio(0, 0)
  }

  function Plus(r: Ratio, action: Action): Ratio {
    if action.Insert? then Ratio(r.skipped, r.inserted + 1) else Ratio(r.skipped + 1, r.inserted)
  }

  /** The decisions taken so far in a namespace, counted. */
  function Taken(entries: seq<Entry>, decisions: seq<Option<Decision>>, ns: string): Ratio
    requires |decisions| <= |entries|
  {
    if |decisions| == 0 then Ratio(0, 0)
    else
      var last := |decisions| - 1;
      var r := Taken(entries, decisions[..last], ns);
      if entries[last].ns == ns && decisions[last].Some? then Plus(r, decisions[last].value.action) else r
  }

  lemma {:induction false} TakeOne(entries: seq<Entry>, decisions: seq<Option<Decision>>, i: nat, d: Decision, ns: string)
    requires |decisions| <= |entries| && i < |decisions| && decisions[i].None?
    ensures Taken(entries, decisions[i := Some(d)], ns) ==
      if entries[i].ns == ns then Plus(Taken(entries, decisions, ns), d.action) else Taken(entries, decisions, ns)
  {
    var last := |decisions| - 1;
    if i < last {
      TakeOne(entries, decisions[..last], i, d, ns);
      assert decisions[i := Some(d)][..last] == decisions[..last][i := Some(d)];
    } else {
      assert decisions[i := Some(d)][..last] == decisions[..last];
    }
  }

  lemma {:induction false} NothingTaken(entries: seq<Entry>, decisions: seq<Option<Decision>>, ns: string)
    requires |decisions| <= |entries| && forall i :: 0 <= i < |decisions| ==> decisions[i].None?
    ensures Taken(entries, decisions, ns) == Ratio(0, 0)
  {
    if |decisions| > 0 {
      NothingTaken(entries, decisions[..|decisions| - 1], ns);
    }
  }

  function Both(a: Ratio, b: Ratio): Ratio {
    Ratio(a.skipped + b.skipped, a.inserted + b.inserted)
  }

  /** Every decision taken has been counted, once, in its namespace. */
  ghost predicate Counted(before: map<string, Ratio>, counts: map<string, Ratio>, entries: seq<Entry>, decisions: seq<Option<Decision>>)
    requires |decisions| <= |entries|
  {
    forall ns {:trigger CountsFor(counts, ns)} :: CountsFor(counts, ns) == Both(CountsFor(before, ns), Taken(entries, decisions, ns))
  }

  ghost predicate OneMore(was: map<string, Ratio>, counts: map<string, Ratio>, ns: string, action: Action) {
    forall m {:trigger CountsFor(counts, m)} ::
      CountsFor(counts, m) == if m == ns then Plus(CountsFor(was, ns), action) else CountsFor(was, m)
  }

  lemma CountOne(before: map<string, Ratio>, was: map<string, Ratio>, counts: map<string, Ratio>, entries: seq<Entry>,
    decisions: seq<Option<Decision>>, i: nat, d: Decision)
    requires |decisions| <= |entries| && i < |decisions| && decisions[i].None? && Counted(before, was, entries, decisions)
    requires OneMore(was, counts, entries[i].ns, d.action)
    ensures Counted(before, counts, entries, decisions[i := Some(d)])
  {
    hide Taken, CountsFor;
    forall ns ensures CountsFor(counts, ns) == Both(CountsFor(before, ns), Taken(entries, decisions[i := Some(d)], ns)) {
      TakeOne(entries, decisions, i, d, ns);
      assert CountsFor(was, ns) == Both(CountsFor(before, ns), Taken(entries, decisions, ns));
    }
  }

  ghost predicate IsGroup(entries: seq<Entry>, n: nat, ns: string, group: seq<nat>)
    requires n <= |entries|
  {
    Ascending(group) && forall p :: 0 <= p < |group| ==> group[p] < n && entries[group[p]].ns == ns
  }

  /** Namespaces in the order first met, each with its entries. */
  ghost predicate AreGroups(entries: seq<Entry>, n: nat, names: seq<string>, groups: map<string, seq<nat>>)
    requires n <= |entries|
  {
    && (forall a, b :: 0 <= a < b < |names| ==> names[a] != names[b])
    && (forall ns :: ns in names <==> ns in groups)
    && (forall ns :: ns in groups ==> IsGroup(entries, n, ns, groups[ns]))
    && (forall i :: 0 <= i < n ==> entries[i].ns in groups && i in groups[entries[i].ns])
  }

  lemma GroupGrows(entries: seq<Entry>, n: nat, ns: string, group: seq<nat>)
    requires n < |entries| && IsGroup(entries, n, ns, group)
    ensures IsGroup(entries, n + 1, ns, group)
    ensures entries[n].ns == ns ==> IsGroup(entries, n + 1, ns, group + [n])
  {
  }

  method GroupByNamespace(entries: seq<Entry>) returns (names: seq<string>, groups: map<string, seq<nat>>)
    ensures AreGroups(entries, |entries|, names, groups)
  {
    names, groups := [], map[];
    for i := 0 to |entries|
      invariant AreGroups(entries, i, names, groups)
    {
      var ns := entries[i].ns;
      forall m | m in groups ensures IsGroup(entries, i + 1, m, groups[m]) {
        GroupGrows(entries, i, m, groups[m]);
      }
      GroupGrows(entries, i, ns, if ns in groups then groups[ns] else []);
      hide IsGroup;
      if ns in groups {
        groups := groups[ns := groups[ns] + [i]];
      } else {
        names := names + [ns];
        groups := groups[ns := [i]];
        assert [] + [i] == [i];
      }
    }
  }

  /** find_by_content_hashes: the active rows of the pairs asked for. */
  function FindByHashes(rows: seq<Row>, pairs: seq<Key>): (found: map<Key, Id>)
    ensures forall key :: key in pairs ==> (key in found <==> ActiveId(rows, key).Some?)
    ensures forall key :: key in found ==> ActiveId(rows, key) == Some(found[key])
  {
    map key | key in pairs && ActiveId(rows, key).Some? :: ActiveId(rows, key).value
  }

  method PairsOf(w: World, entries: seq<Entry>, names: seq<string>, groups: map<string, seq<nat>>) returns (pairs: seq<Key>)
    requires AreGroups(entries, |entries|, names, groups)
    ensures forall i :: 0 <= i < |entries| ==> KeyOf(w, entries[i]) in pairs
  {
    pairs := [];
    for a := 0 to |names|
      invariant forall b, p :: 0 <= b < a && 0 <= p < |groups[names[b]]| ==> KeyOf(w, entries[groups[names[b]][p]]) in pairs
    {
      var group := groups[names[a]];
      assert IsGroup(entries, |entries|, names[a], group);
      for p := 0 to |group|
        invariant forall b, q :: 0 <= b < a && 0 <= q < |groups[names[b]]| ==> KeyOf(w, entries[groups[names[b]][q]]) in pairs
        invariant forall q :: 0 <= q < p ==> KeyOf(w, entries[group[q]]) in pairs
      {
        pairs := pairs + [KeyOf(w, entries[group[p]])];
      }
    }
    forall i | 0 <= i < |entries| ensures KeyOf(w, entries[i]) in pairs {
      assert entries[i].ns in groups && i in groups[entries[i].ns];
    }
  }

  function AllTaken(decisions: seq<Decision>): (taken: seq<Option<Decision>>)
    ensures |taken| == |decisions|
  {
    seq(|decisions|, i requires 0 <= i < |decisions| => Some(decisions[i]))
  }

  /** After the look-up: what is known already is decided. */
  ghost function ExactlyDecided(w: World, entries: seq<Entry>, i: nat): Option<Decision>
    requires i < |entries|
  {
    if ActiveId(w.rows, KeyOf(w, entries[i])).Some? then Some(Decided(w, entries, i)) else None
  }

  /** After the search for repeats inside the batch: only what is new is undecided. */
  ghost function NewUndecided(w: World, entries: seq<Entry>, i: nat): Option<Decision>
    requires i < |entries|
  {
    if ActiveId(w.rows, KeyOf(w, entries[i])).Some? || Repeats(w, entries, i) then Some(Decided(w, entries, i)) else None
  }

  class DedupEngine {
    /** _dedup_counts */
    var counts: map<string, Ratio>

    constructor ()
      ensures counts == map[]
    {
      counts := map[];
    }

    method UpdateRatio(ns: string, action: Action)
      modifies this
      ensures OneMore(old(counts), counts, ns, action)
    {
      counts := counts[ns := Plus(CountsFor(counts, ns), action)];
    }

    method Decide(entries: seq<Entry>, decisions: array<Option<Decision>>, i: nat, d: Decision, ghost before: map<string, Ratio>)
      requires decisions.Length == |entries| && i < |entries| && decisions[i].None?
      requires Counted(before, counts, entries, decisions[..])
      modifies this, decisions
      ensures decisions[..] == old(decisions[..])[i := Some(d)]
      ensures Counted(before, counts, entries, decisions[..])
    {
      hide Counted;
      ghost var was := decisions[..];
      UpdateRatio(entries[i].ns, d.action);
      decisions[i] := Some(d);
      assert decisions[..] == was[i := Some(d)];
      CountOne(before, old(counts), counts, entries, was, i, d);
    }

    method ExactPhase(w: World, entries: seq<Entry>, names: seq<string>, groups: map<string, seq<nat>>, found: map<Key, Id>,
        decisions: array<Option<Decision>>, ghost before: map<string, Ratio>)
      requires decisions.Length == |entries| && Counted(before, counts, entries, decisions[..])
      requires AreGroups(entries, |entries|, names, groups)
      requires forall i :: 0 <= i < |entries| ==> decisions[i].None?
      requires forall i :: 0 <= i < |entries| ==>
        var key := KeyOf(w, entries[i]);
        ActiveId(w.rows, key) == if key in found then Some(found[key]) else None
      modifies this, decisions
      ensures Counted(before, counts, entries, decisions[..])
      ensures forall i :: 0 <= i < |entries| ==> decisions[i] == ExactlyDecided(w, entries, i)
    {
      hide ActiveId, Repeats, Judged, Counted;
      for a := 0 to |names|
        invariant Counted(before, counts, entries, decisions[..])
        invariant forall i :: 0 <= i < |entries| ==>
          decisions[i] == if entries[i].ns in names[..a] then ExactlyDecided(w, entries, i) else None
      {
        var ns := names[a];
        var group := groups[ns];
        assert IsGroup(entries, |entries|, ns, group);
        assert ns !in names[..a];
        for p := 0 to |group|
          invariant Counted(before, counts, entries, decisions[..])
          invariant forall i :: 0 <= i < |entries| ==>
            decisions[i] == if entries[i].ns in names[..a] || i in group[..p] then ExactlyDecided(w, entries, i) else None
        {
          var idx := group[p];
          assert group[..p + 1] == group[..p] + [idx];
          assert idx !in group[..p];
          var key := KeyOf(w, entries[idx]);
          if key in found {
            Decide(entries, decisions, idx, Decision(Exact(ns), Some(found[key]), key.1), before);
          }
        }
        assert group[..|group|] == group && names[..a + 1] == names[..a] + [ns];
        assert forall i :: 0 <= i < |entries| ==> (i in group <==> entries[i].ns == ns);
      }
      assert names[..|names|] == names;
    }

    method RepeatPhase(w: World, entries: seq<Entry>, decisions: array<Option<Decision>>, ghost before: map<string, Ratio>)
      requires decisions.Length == |entries| && Counted(before, counts, entries, decisions[..])
      requires forall i :: 0 <= i < |entries| ==> decisions[i] == ExactlyDecided(w, entries, i)
      modifies this, decisions
      ensures Counted(before, counts, entries, decisions[..])
      ensures forall i :: 0 <= i < |entries| ==> decisions[i] == NewUndecided(w, entries, i)
    {
      hide ActiveId, Judged, Counted;
      var seen: map<Key, nat> := map[];
      for i := 0 to |entries|
        invariant Counted(before, counts, entries, decisions[..])
        invariant forall j :: 0 <= j < i ==> decisions[j] == NewUndecided(w, entries, j)
        invariant forall j :: i <= j < |entries| ==> decisions[j] == ExactlyDecided(w, entries, j)
        invariant forall j :: 0 <= j < i && ActiveId(w.rows, KeyOf(w, entries[j])).None? ==> KeyOf(w, entries[j]) in seen
        invariant forall key :: key in seen ==> 0 <= seen[key] < i && KeyOf(w, entries[seen[key]]) == key
      {
        if decisions[i].None? {
          var key := KeyOf(w, entries[i]);
          if key in seen {
            assert Repeats(w, entries, i);
            Decide(entries, decisions, i, Decision(Exact(key.0), None, key.1), before);
          } else {
            assert !Repeats(w, entries, i);
            seen := seen[key := i];
          }
        }
      }
    }

    method SemanticPhase(w: World, entries: seq<Entry>, decisions: array<Option<Decision>>, ghost before: map<string, Ratio>)
      requires decisions.Length == |entries| && Counted(before, counts, entries, decisions[..])
      requires forall i :: 0 <= i < |entries| ==> decisions[i] == NewUndecided(w, entries, i)
      modifies this, decisions
      ensures Counted(before, counts, entries, decisions[..])
      ensures forall i :: 0 <= i < |entries| ==> decisions[i] == Some(Decided(w, entries, i))
    {
      hide ActiveId, Judged, Counted, Repeats;
      for i := 0 to |entries|
        invariant Counted(before, counts, entries, decisions[..])
        invariant forall j :: 0 <= j < i ==> decisions[j] == Some(Decided(w, entries, j))
        invariant forall j :: i <= j < |entries| ==> decisions[j] == NewUndecided(w, entries, j)
      {
        if decisions[i].None? {
          Decide(entries, decisions, i, Judged(w, entries, i), before);
        }
      }
    }

    /** check_batch with deduplication enabled: every entry decided, and counted once in its namespace. */
    method CheckBatch(w: World, entries: seq<Entry>) returns (decisions: seq<Decision>)
      modifies this
      ensures AreDecisions(w, entries, decisions)
      ensures Counted(old(counts), counts, entries, AllTaken(decisions))
    {
      var names, groups := GroupByNamespace(entries);
      var pairs := PairsOf(w, entries, names, groups);
      var found := FindByHashes(w.rows, pairs);
      ghost var before := counts;
      var slots := new Option<Decision>[|entries|](_ => None);
      forall ns ensures Taken(entries, slots[..], ns) == Ratio(0, 0) {
        NothingTaken(entries, slots[..], ns);
      }
      assert Counted(before, counts, entries, slots[..]);
      hide Counted, ActiveId, Judged, Repeats, Decided;
      ExactPhase(w, entries, names, groups, found, slots, before);
      RepeatPhase(w, entries, slots, before);
      SemanticPhase(w, entries, slots, before);
      decisions := seq(|entries|, i requires 0 <= i < slots.Length && slots[i].Some? reads slots => slots[i].value);
      assert slots[..] == AllTaken(decisions);
    }
  }
}
