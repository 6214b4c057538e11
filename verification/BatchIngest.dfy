/**
 ingest_batch of memory_tasks.py: malformed entries set aside, the others put
 through check_batch, what is new inserted in one statement, one result an entry.
 */
module BatchIngest {
  import opened Options
  import opened Sorting
  import opened BatchDedup

  /** An entry as it arrives: a bare string, an object whose content may be missing or no string, or anything else. */
  datatype Raw = Text(s: string) | Object(content: Option<string>, ns: string, entity: string) | Junk

  const DEFAULT_NAMESPACE := "default"

  /** str.isspace() */
  predicate IsSpace(c: char) {
    var u := c as int;
    0x9 <= u <= 0xD || 0x1C <= u <= 0x20 || u == 0x85 || u == 0xA0 || u == 0x1680 || 0x2000 <= u <= 0x200A ||
    u == 0x2028 || u == 0x2029 || u == 0x202F || u == 0x205F || u == 0x3000
  }

  predicate Blank(s: string) {
    forall c :: c in s ==> IsSpace(c)
  }

  /** The entry a raw one stands for, if it has content. */
  function Normalised(raw: Raw): Option<Entry> {
    match raw
    case Text(s) => if Blank(s) then None else Some(Entry(s, DEFAULT_NAMESPACE, ""))
    case Object(Some(s), ns, entity) => if Blank(s) then None else Some(Entry(s, ns, entity))
    case _ => None
  }

  /** The valid entries, in order. */
  function Valids(entries: seq<Raw>): (valid: seq<Entry>)
    ensures |valid| <= |entries|
  {
    if |entries| == 0 then []
    else
      var last := |entries| - 1;
      Valids(entries[..last]) + if Normalised(entries[last]).Some? then [Normalised(entries[last]).value] else []
  }

  method SplitValidEntries(entries: seq<Raw>) returns (valid: seq<Entry>, malformed: seq<nat>)
    ensures valid == Valids(entries)
    ensures Ascending(malformed) && forall i: nat :: i in malformed <==> i < |entries| && Normalised(entries[i]).None?
    ensures |valid| + |malformed| == |entries|
  {
    valid, malformed := [], [];
    for i := 0 to |entries|
      invariant valid == Valids(entries[..i])
      invariant Ascending(malformed) && forall j: nat :: j in malformed <==> j < i && Normalised(entries[j]).None?
      invariant |valid| + |malformed| == i && forall k :: 0 <= k < |malformed| ==> malformed[k] < i
    {
      assert entries[..i + 1][..i] == entries[..i];
      var entry := Normalised(entries[i]);
      if entry.Some? {
        valid := valid + [entry.value];
      } else {
        malformed := malformed + [i];
      }
    }
    assert entries[..|entries|] == entries;
  }

  predicate HasText(s: string) {
    exists k :: 0 <= k < |s| && !IsSpace(s[k])
  }

  /** An entry is valid if and only if it is a text, or an object whose content is one, and not all white space; its text is kept as it is. */
  lemma ValidIff(raw: Raw)
    ensures Normalised(raw).Some? <==> (raw.Text? && HasText(raw.s)) || (raw.Object? && raw.content.Some? && HasText(raw.content.value))
    ensures Normalised(raw).Some? ==>
      Normalised(raw).value == if raw.Text? then Entry(raw.s, "default", "") else Entry(raw.content.value, raw.ns, raw.entity)
  {
    match raw
    case Text(s) => BlankIff(s);
    case Object(Some(s), _, _) => BlankIff(s);
    case _ =>
  }

  lemma BlankIff(s: string)
    ensures Blank(s) <==> !HasText(s)
  {
    if k :| 0 <= k < |s| && !IsSpace(s[k]) {
      assert s[k] in s;
    }
    if c :| c in s && !IsSpace(c) {
      var k :| 0 <= k < |s| && s[k] == c;
      assert !IsSpace(s[k]);
    }
  }

  // --- What is inserted -----------------------------------------------------------------

  /** The entries inserted, or those that are not, in order. */
  function Where(decisions: seq<Decision>, inserted: bool): (indices: seq<nat>)
    ensures Ascending(indices) && forall i: nat :: i in indices <==> i < |decisions| && decisions[i].action.Insert? == inserted
    ensures forall k :: 0 <= k < |indices| ==> indices[k] < |decisions|
  {
    if |decisions| == 0 then []
    else
      var last := |decisions| - 1;
      Where(decisions[..last], inserted) + if decisions[last].action.Insert? == inserted then [last] else []
  }

  lemma {:induction false} EachOnce(decisions: seq<Decision>)
    ensures |Where(decisions, true)| + |Where(decisions, false)| == |decisions|
  {
    if |decisions| > 0 {
      EachOnce(decisions[..|decisions| - 1]);
    }
  }

  /** The row of an inserted entry; without deduplication its hash is null. */
  function NewRow(entry: Entry, decision: Decision, hashed: bool, id: Id): Row {
    Row(entry.ns, if hashed then Some(decision.hash) else None, id)
  }

  function NewRows(valid: seq<Entry>, decisions: seq<Decision>, hashed: bool, ids: nat -> Id): (rows: seq<Row>)
    requires |valid| == |decisions|
    ensures |rows| == |Where(decisions, true)|
    ensures forall k :: 0 <= k < |rows| ==>
      rows[k] == NewRow(valid[Where(decisions, true)[k]], decisions[Where(decisions, true)[k]], hashed, ids(k))
  {
    var indices := Where(decisions, true);
    seq(|indices|, k requires 0 <= k < |indices| => NewRow(valid[indices[k]], decisions[indices[k]], hashed, ids(k)))
  }

  /** Some row committed since the check has the namespace and hash of a row to be inserted. */
  ghost predicate Overtaken(arrived: seq<Row>, rows: seq<Row>) {
    exists a, k :: 0 <= a < |arrived| && 0 <= k < |rows| && SameKey(arrived[a], rows[k])
  }

  predicate SameKey(a: Row, b: Row) {
    a.ns == b.ns && a.hash.Some? && a.hash == b.hash
  }

  /** Rows the unique index takes. */
  predicate IndexHolds(rows: seq<Row>) {
    forall i, j :: 0 <= i < j < |rows| ==> !SameKey(rows[i], rows[j])
  }

  lemma InsertedRow(w: World, valid: seq<Entry>, decisions: seq<Decision>, ids: nat -> Id, k: nat)
    requires AreDecisions(w, valid, decisions) && k < |Where(decisions, true)|
    ensures
      var i := Where(decisions, true)[k];
      && decisions[i].action.Insert? && ActiveId(w.rows, KeyOf(w, valid[i])).None?
      && NewRows(valid, decisions, true, ids)[k] == Row(valid[i].ns, Some(w.sha(valid[i].content)), ids(k))
  {
    hide ActiveId;
    var i := Where(decisions, true)[k];
    assert i in Where(decisions, true);
    assert decisions[i] == Decided(w, valid, i);
    OneInsertPerKey(w, valid, decisions, i, i);
  }

  /** The rows to insert share no namespace and hash among themselves or with the rows there were. */
  lemma NewRowsDistinct(w: World, valid: seq<Entry>, decisions: seq<Decision>, ids: nat -> Id)
    requires AreDecisions(w, valid, decisions)
    ensures
      var rows := NewRows(valid, decisions, true, ids);
      IndexHolds(rows) && forall i, k :: 0 <= i < |w.rows| && 0 <= k < |rows| ==> !SameKey(w.rows[i], rows[k])
  {
    hide ActiveId, NewRows;
    var indices := Where(decisions, true);
    var rows := NewRows(valid, decisions, true, ids);
    hide AreDecisions;
    forall i, j | 0 <= i < j < |rows| ensures !SameKey(rows[i], rows[j]) {
      InsertedRow(w, valid, decisions, ids, i);
      InsertedRow(w, valid, decisions, ids, j);
      if SameKey(rows[i], rows[j]) {
        OneInsertPerKey(w, valid, decisions, indices[i], indices[j]);
      }
    }
    forall i, k | 0 <= i < |w.rows| && 0 <= k < |rows| ensures !SameKey(w.rows[i], rows[k]) {
      InsertedRow(w, valid, decisions, ids, k);
      NotActive(w.rows, KeyOf(w, valid[indices[k]]), i);
    }
  }

  lemma NotActive(rows: seq<Row>, key: Key, i: nat)
    requires ActiveId(rows, key).None? && i < |rows|
    ensures !(rows[i].ns == key.0 && rows[i].hash == Some(key.1))
  {
  }

  /** The batch insert is taken by the unique index if and only if nothing committed since the check has one of its keys. */
  lemma InsertTakenIff(w: World, valid: seq<Entry>, decisions: seq<Decision>, arrived: seq<Row>, ids: nat -> Id)
    requires AreDecisions(w, valid, decisions) && IndexHolds(w.rows + arrived)
    ensures
      var rows := NewRows(valid, decisions, true, ids);
      IndexHolds(w.rows + arrived + rows) <==> !Overtaken(arrived, rows)
  {
    hide Where, NewRows;
    var rows := NewRows(valid, decisions, true, ids);
    NewRowsDistinct(w, valid, decisions, ids);
    JoinedIndex(w.rows, arrived, rows);
  }

  lemma JoinedIndex(a: seq<Row>, b: seq<Row>, c: seq<Row>)
    requires IndexHolds(a + b) && IndexHolds(c)
    requires forall i, k :: 0 <= i < |a| && 0 <= k < |c| ==> !SameKey(a[i], c[k])
    ensures IndexHolds(a + b + c) <==> !Overtaken(b, c)
  {
    hide SameKey;
    var all := a + b + c;
    if IndexHolds(all) {
      forall i, k | 0 <= i < |b| && 0 <= k < |c| ensures !SameKey(b[i], c[k]) {
        assert all[|a| + i] == b[i] && all[|a| + |b| + k] == c[k];
      }
    }
    if !Overtaken(b, c) {
      forall i, j | 0 <= i < j < |all| ensures !SameKey(all[i], all[j]) {
        if j < |a| + |b| {
          assert all[i] == (a + b)[i] && all[j] == (a + b)[j];
        } else if i >= |a| + |b| {
          assert all[i] == c[i - |a| - |b|] && all[j] == c[j - |a| - |b|];
        } else if i < |a| {
          assert all[i] == a[i] && all[j] == c[j - |a| - |b|];
        } else {
          assert all[i] == b[i - |a|] && all[j] == c[j - |a| - |b|];
        }
      }
    }
  }

  lemma UnhashedTaken(valid: seq<Entry>, decisions: seq<Decision>, rows: seq<Row>, ids: nat -> Id)
    requires |valid| == |decisions| && IndexHolds(rows)
    ensures IndexHolds(rows + NewRows(valid, decisions, false, ids))
  {
    var more := NewRows(valid, decisions, false, ids);
    var all := rows + more;
    forall i, j | 0 <= i < j < |all| ensures !SameKey(all[i], all[j]) {
      if j < |rows| {
        assert all[i] == rows[i] && all[j] == rows[j];
      } else {
        assert all[j] == more[j - |rows|];
      }
    }
  }

  // --- The batch -----------------------------------------------------------------------

  datatype Outcome = Inserted | Skipped | Updated | Invalid

  /** One result: the row it is about, if known, and what happened. */
  datatype Answer = Answer(id: Option<Id>, outcome: Outcome)

  datatype Summary = Summary(insert: nat, skip: nat, update: nat, invalid: nat)

  /** What ingest_batch does: refuse an empty batch, fail with the insert, or answer. */
  datatype Ingested = Refused | Conflict | Done(answers: seq<Answer>, summary: Summary, rows: seq<Row>)

  function OutcomeOf(a: Action): Outcome {
    match a
    case Insert => Inserted
    case Skip => Skipped
    case Update => Updated
  }

  function Tally(answers: seq<Answer>, o: Outcome): nat {
    if |answers| == 0 then 0
    else Tally(answers[..|answers| - 1], o) + if answers[|answers| - 1].outcome == o then 1 else 0
  }

  /** The summary counts the answers, by outcome. */
  ghost predicate Summarises(s: Summary, answers: seq<Answer>) {
    && s.insert == Tally(answers, Inserted) && s.skip == Tally(answers, Skipped)
    && s.update == Tally(answers, Updated) && s.invalid == Tally(answers, Invalid)
  }

  lemma TallyOne(answers: seq<Answer>, a: Answer, o: Outcome)
    ensures Tally(answers + [a], o) == Tally(answers, o) + if a.outcome == o then 1 else 0
  {
    assert (answers + [a])[..|answers|] == answers;
  }

  function Counting(s: Summary, o: Outcome): Summary {
    match o
    case Inserted => s.(insert := s.insert + 1)
    case Skipped => s.(skip := s.skip + 1)
    case Updated => s.(update := s.update + 1)
    case Invalid => s.(invalid := s.invalid + 1)
  }

  lemma SummaryGrows(s: Summary, answers: seq<Answer>, a: Answer)
    requires Summarises(s, answers)
    ensures Summarises(Counting(s, a.outcome), answers + [a])
  {
    TallyOne(answers, a, Inserted);
    TallyOne(answers, a, Skipped);
    TallyOne(answers, a, Updated);
    TallyOne(answers, a, Invalid);
  }

  lemma {:induction false} SummaryTotal(answers: seq<Answer>)
    ensures Tally(answers, Inserted) + Tally(answers, Skipped) + Tally(answers, Updated) + Tally(answers, Invalid) == |answers|
  {
    if |answers| > 0 {
      SummaryTotal(answers[..|answers| - 1]);
    }
  }

  /** The answers, in the order ingest_batch gives them: the malformed, the duplicates, the inserted. */
  ghost predicate AreAnswers(answers: seq<Answer>, invalid: nat, decisions: seq<Decision>, ids: nat -> Id) {
    var dups, inserts := Where(decisions, false), Where(decisions, true);
    && |answers| == invalid + |dups| + |inserts|
    && (forall k :: 0 <= k < invalid ==> answers[k] == Answer(None, Invalid))
    && (forall k :: 0 <= k < |dups| ==> IsDupAnswer(answers[invalid + k], decisions, dups[k], ids))
    && (forall k :: 0 <= k < |inserts| ==> answers[invalid + |dups| + k] == Answer(Some(ids(k)), Inserted))
  }

  /** A duplicate's answer names the row it duplicates; one repeated in the batch, a row just inserted with its hash, if any was. */
  ghost predicate IsDupAnswer(a: Answer, decisions: seq<Decision>, i: nat, ids: nat -> Id)
    requires i < |decisions|
  {
    && a.outcome == (if decisions[i].action == Update then Updated else Skipped)
    && (decisions[i].existing.Some? ==> a.id == decisions[i].existing)
    && (decisions[i].existing.None? ==>
          var inserts := Where(decisions, true);
          if a.id.Some? then exists k :: 0 <= k < |inserts| && decisions[inserts[k]].hash == decisions[i].hash && ids(k) == a.id.value
          else forall k :: 0 <= k < |inserts| ==> decisions[inserts[k]].hash != decisions[i].hash)
  }

  lemma {:induction false} SameOutcomes(a: seq<Answer>, b: seq<Answer>, o: Outcome)
    requires |a| == |b| && forall k :: 0 <= k < |a| ==> a[k].outcome == b[k].outcome
    ensures Tally(a, o) == Tally(b, o)
  {
    if |a| > 0 {
      SameOutcomes(a[..|a| - 1], b[..|b| - 1], o);
    }
  }

  /** An item of to_insert. */
  datatype Item = Item(entry: Entry, hash: Option<string>)

  /** What an item is made of. */
  function ItemOf(valid: seq<Entry>, decisions: seq<Decision>, hashed: bool, i: nat): Item
    requires i < |decisions| <= |valid|
  {
    Item(valid[i], if hashed then Some(decisions[i].hash) else None)
  }

  ghost predicate AreItems(items: seq<Item>, valid: seq<Entry>, decisions: seq<Decision>, hashed: bool)
    requires |decisions| <= |valid|
  {
    var inserts := Where(decisions, true);
    && |items| == |inserts|
    && forall k :: 0 <= k < |items| ==> items[k] == ItemOf(valid, decisions, hashed, inserts[k])
  }

  /** The answers given before anything is inserted. */
  ghost predicate AreEarly(answers: seq<Answer>, invalid: nat, decisions: seq<Decision>) {
    var dups := Where(decisions, false);
    && |answers| == invalid + |dups|
    && (forall k :: 0 <= k < invalid ==> answers[k] == Answer(None, Invalid))
    && (forall k :: 0 <= k < |dups| ==>
          answers[invalid + k] == Early(decisions[dups[k]]))
  }

  /** pending_dup_links: the answers of repeats, by position, with their hashes. */
  ghost predicate ArePending(pending: seq<(nat, string)>, invalid: nat, decisions: seq<Decision>) {
    var dups := Where(decisions, false);
    && (forall t :: 0 <= t < |pending| ==> IsPending(pending[t], invalid, decisions))
    && (forall k :: 0 <= k < |dups| && decisions[dups[k]].existing.None? ==> (invalid + k, decisions[dups[k]].hash) in pending)
  }

  ghost predicate IsPending(p: (nat, string), invalid: nat, decisions: seq<Decision>) {
    var dups := Where(decisions, false);
    && invalid <= p.0 < invalid + |dups|
    && decisions[dups[p.0 - invalid]].existing.None? && p.1 == decisions[dups[p.0 - invalid]].hash
  }

  lemma WhereGrows(decisions: seq<Decision>, i: nat, inserted: bool)
    requires i < |decisions|
    ensures Where(decisions[..i + 1], inserted)
      == Where(decisions[..i], inserted) + if decisions[i].action.Insert? == inserted then [i] else []
  {
    assert decisions[..i + 1][..i] == decisions[..i];
  }

  function Early(d: Decision): Answer {
    Answer(d.existing, OutcomeOf(d.action))
  }

  lemma EarlyGrows(answers: seq<Answer>, invalid: nat, decisions: seq<Decision>, i: nat)
    requires i < |decisions| && AreEarly(answers, invalid, decisions[..i])
    ensures AreEarly(if decisions[i].action.Insert? then answers else answers + [Early(decisions[i])], invalid, decisions[..i + 1])
  {
    WhereGrows(decisions, i, false);
    hide Where;
  }

  lemma ItemsGrow(items: seq<Item>, valid: seq<Entry>, decisions: seq<Decision>, hashed: bool, i: nat)
    requires i < |decisions| == |valid| && AreItems(items, valid, decisions[..i], hashed)
    ensures AreItems(
      if decisions[i].action.Insert? then items + [ItemOf(valid, decisions, hashed, i)] else items,
      valid, decisions[..i + 1], hashed)
  {
    WhereGrows(decisions, i, true);
    hide Where;
    var was, inserts := Where(decisions[..i], true), Where(decisions[..i + 1], true);
    var more := if decisions[i].action.Insert? then items + [ItemOf(valid, decisions, hashed, i)] else items;
    forall k | 0 <= k < |more| ensures more[k] == ItemOf(valid, decisions[..i + 1], hashed, inserts[k]) {
      if k < |was| {
        assert items[k] == ItemOf(valid, decisions[..i], hashed, was[k]);
      }
    }
  }

  lemma PendingKept(p: (nat, string), invalid: nat, decisions: seq<Decision>, i: nat)
    requires i < |decisions| && IsPending(p, invalid, decisions[..i])
    ensures IsPending(p, invalid, decisions[..i + 1])
  {
    WhereGrows(decisions, i, false);
    hide Where;
  }

  /** pending_dup_links after entry i. */
  function MorePending(pending: seq<(nat, string)>, at: nat, d: Decision): seq<(nat, string)> {
    if !d.action.Insert? && d.existing.None? then pending + [(at, d.hash)] else pending
  }

  lemma PendingStays(pending: seq<(nat, string)>, invalid: nat, decisions: seq<Decision>, i: nat, t: nat)
    requires i < |decisions| && ArePending(pending, invalid, decisions[..i])
    requires t < |MorePending(pending, invalid + |Where(decisions[..i], false)|, decisions[i])|
    ensures IsPending(MorePending(pending, invalid + |Where(decisions[..i], false)|, decisions[i])[t], invalid, decisions[..i + 1])
  {
    hide Where, IsPending;
    if t < |pending| {
      assert IsPending(pending[t], invalid, decisions[..i]);
      PendingKept(pending[t], invalid, decisions, i);
    } else {
      NewlyPending(invalid, decisions, i);
    }
  }

  lemma NewlyPending(invalid: nat, decisions: seq<Decision>, i: nat)
    requires i < |decisions| && !decisions[i].action.Insert? && decisions[i].existing.None?
    ensures IsPending((invalid + |Where(decisions[..i], false)|, decisions[i].hash), invalid, decisions[..i + 1])
  {
    WhereGrows(decisions, i, false);
    hide Where;
  }

  /** The k-th duplicate, one entry later. */
  lemma DuplicateAt(decisions: seq<Decision>, i: nat, k: nat)
    requires i < |decisions| && k < |Where(decisions[..i + 1], false)|
    ensures
      var was, d := Where(decisions[..i], false), Where(decisions[..i + 1], false)[k];
      if k < |was| then d == was[k] && d < i else k == |was| && d == i && !decisions[i].action.Insert?
  {
    WhereGrows(decisions, i, false);
  }

  lemma PendingComplete(pending: seq<(nat, string)>, invalid: nat, decisions: seq<Decision>, i: nat, k: nat)
    requires i < |decisions| && ArePending(pending, invalid, decisions[..i])
    requires k < |Where(decisions[..i + 1], false)| && decisions[..i + 1][Where(decisions[..i + 1], false)[k]].existing.None?
    ensures
      (invalid + k, decisions[..i + 1][Where(decisions[..i + 1], false)[k]].hash)
        in MorePending(pending, invalid + |Where(decisions[..i], false)|, decisions[i])
  {
    hide Where, ArePending;
    DuplicateAt(decisions, i, k);
    var was, d := Where(decisions[..i], false), Where(decisions[..i + 1], false)[k];
    assert decisions[..i + 1][d] == decisions[d];
    if k < |was| {
      assert decisions[..i][d] == decisions[d];
      PendingHas(pending, invalid, decisions[..i], k);
    }
  }

  lemma PendingHas(pending: seq<(nat, string)>, invalid: nat, decisions: seq<Decision>, k: nat)
    requires ArePending(pending, invalid, decisions)
    requires k < |Where(decisions, false)| && decisions[Where(decisions, false)[k]].existing.None?
    ensures (invalid + k, decisions[Where(decisions, false)[k]].hash) in pending
  {
    hide Where, IsPending;
  }

  lemma PendingGrows(pending: seq<(nat, string)>, answers: seq<Answer>, invalid: nat, decisions: seq<Decision>, i: nat)
    requires i < |decisions| && ArePending(pending, invalid, decisions[..i]) && AreEarly(answers, invalid, decisions[..i])
    ensures ArePending(MorePending(pending, |answers|, decisions[i]), invalid, decisions[..i + 1])
  {
    hide Where, IsPending, MorePending;
    var dups, more := Where(decisions[..i + 1], false), MorePending(pending, |answers|, decisions[i]);
    assert more == MorePending(pending, invalid + |Where(decisions[..i], false)|, decisions[i]);
    hide AreEarly;
    forall t | 0 <= t < |more| ensures IsPending(more[t], invalid, decisions[..i + 1]) {
      PendingStays(pending, invalid, decisions, i, t);
    }
    forall k | 0 <= k < |dups| && decisions[..i + 1][dups[k]].existing.None?
      ensures (invalid + k, decisions[..i + 1][dups[k]].hash) in more
    {
      PendingComplete(pending, invalid, decisions, i, k);
    }
  }

  method AnswerMalformed(invalid: nat) returns (answers: seq<Answer>, summary: Summary)
    ensures |answers| == invalid && Summarises(summary, answers) && forall j :: 0 <= j < invalid ==> answers[j] == Answer(None, Invalid)
  {
    answers, summary := [], Summary(0, 0, 0, 0);
    for k := 0 to invalid
      invariant |answers| == k && Summarises(summary, answers) && forall j :: 0 <= j < k ==> answers[j] == Answer(None, Invalid)
    {
      SummaryGrows(summary, answers, Answer(None, Invalid));
      summary := summary.(invalid := summary.invalid + 1);
      answers := answers + [Answer(None, Invalid)];
    }
  }

  lemma NothingYet(answers: seq<Answer>, valid: seq<Entry>, decisions: seq<Decision>, hashed: bool)
    requires forall j :: 0 <= j < |answers| ==> answers[j] == Answer(None, Invalid)
    ensures AreEarly(answers, |answers|, decisions[..0]) && ArePending([], |answers|, decisions[..0])
    ensures AreItems([], valid, decisions[..0], hashed)
  {
    assert decisions[..0] == [];
  }

  method AnswerDuplicates(valid: seq<Entry>, decisions: seq<Decision>, hashed: bool, invalid: nat)
    returns (answers: seq<Answer>, summary: Summary, pending: seq<(nat, string)>, items: seq<Item>)
    requires |decisions| == |valid|
    ensures AreEarly(answers, invalid, decisions) && Summarises(summary, answers)
    ensures ArePending(pending, invalid, decisions) && AreItems(items, valid, decisions, hashed)
  {
    hide Summarises, Where, OutcomeOf, AreEarly, ArePending, AreItems;
    answers, summary := AnswerMalformed(invalid);
    pending, items := [], [];
    NothingYet(answers, valid, decisions, hashed);
    for i := 0 to |decisions|
      invariant AreEarly(answers, invalid, decisions[..i]) && Summarises(summary, answers)
      invariant ArePending(pending, invalid, decisions[..i]) && AreItems(items, valid, decisions[..i], hashed)
    {
      var d := decisions[i];
      EarlyGrows(answers, invalid, decisions, i);
      PendingGrows(pending, answers, invalid, decisions, i);
      ItemsGrow(items, valid, decisions, hashed, i);
      if d.action.Insert? {
        items := items + [Item(valid[i], if hashed then Some(d.hash) else None)];
      } else {
        if d.existing.None? {
          pending := pending + [(|answers|, d.hash)];
        }
        SummaryGrows(summary, answers, Early(d));
        summary := Counting(summary, Early(d).outcome);
        answers := answers + [Early(d)];
      }
    }
    assert decisions[..|decisions|] == decisions;
  }

  ghost predicate Appends(early: seq<Answer>, answers: seq<Answer>, n: nat, ids: nat -> Id) {
    && |answers| == |early| + n && answers[..|early|] == early
    && forall j :: |early| <= j < |answers| ==> answers[j] == Answer(Some(ids(j - |early|)), Inserted)
  }

  method AnswerInserted(early: seq<Answer>, tallied: Summary, items: seq<Item>, ids: nat -> Id) returns (answers: seq<Answer>, summary: Summary)
    requires Summarises(tallied, early)
    ensures Summarises(summary, answers) && Appends(early, answers, |items|, ids)
  {
    answers, summary := early, tallied;
    for k := 0 to |items|
      invariant Summarises(summary, answers) && Appends(early, answers, k, ids)
    {
      SummaryGrows(summary, answers, Answer(Some(ids(k)), Inserted));
      summary := Counting(summary, Inserted);
      answers := answers + [Answer(Some(ids(k)), Inserted)];
    }
  }

  /** {item["content_hash"]: rid}: of several items with one hash, the last. */
  ghost predicate IsByHash(byHash: map<Option<string>, Id>, items: seq<Item>, ids: nat -> Id) {
    && (forall h :: h in byHash ==> exists k :: 0 <= k < |items| && items[k].hash == h && byHash[h] == ids(k))
    && (forall k :: 0 <= k < |items| ==> items[k].hash in byHash)
  }

  method InsertedByHash(items: seq<Item>, ids: nat -> Id) returns (byHash: map<Option<string>, Id>)
    ensures IsByHash(byHash, items, ids)
  {
    byHash := map[];
    for k := 0 to |items|
      invariant forall h :: h in byHash ==> exists j :: 0 <= j < k && items[j].hash == h && byHash[h] == ids(j)
      invariant forall j :: 0 <= j < k ==> items[j].hash in byHash
    {
      byHash := byHash[items[k].hash := ids(k)];
    }
  }

  function Lookup(byHash: map<Option<string>, Id>, hash: string): Option<Id> {
    if Some(hash) in byHash then Some(byHash[Some(hash)]) else None
  }

  method LinkRepeats(answers: seq<Answer>, pending: seq<(nat, string)>, byHash: map<Option<string>, Id>) returns (linked: seq<Answer>)
    requires forall t :: 0 <= t < |pending| ==> pending[t].0 < |answers|
    requires forall t, u :: 0 <= t < u < |pending| && pending[t].0 == pending[u].0 ==> pending[t].1 == pending[u].1
    ensures |linked| == |answers|
    ensures forall at :: 0 <= at < |answers| ==> linked[at].outcome == answers[at].outcome
    ensures forall t :: 0 <= t < |pending| ==> linked[pending[t].0].id == Lookup(byHash, pending[t].1)
    ensures forall at :: 0 <= at < |answers| && (forall t :: 0 <= t < |pending| ==> pending[t].0 != at) ==> linked[at] == answers[at]
  {
    hide Lookup;
    linked := answers;
    for t := 0 to |pending|
      invariant |linked| == |answers|
      invariant forall at :: 0 <= at < |answers| ==> linked[at].outcome == answers[at].outcome
      invariant forall u :: 0 <= u < t ==> linked[pending[u].0].id == Lookup(byHash, pending[u].1)
      invariant forall at :: 0 <= at < |answers| && (forall u :: 0 <= u < t ==> pending[u].0 != at) ==> linked[at] == answers[at]
    {
      var at := pending[t].0;
      linked := linked[at := linked[at].(id := Lookup(byHash, pending[t].1))];
    }
  }

  /** linked is answers with the repeats' ids looked up. */
  ghost predicate IsLinked(answers: seq<Answer>, linked: seq<Answer>, pending: seq<(nat, string)>, byHash: map<Option<string>, Id>) {
    && |linked| == |answers|
    && (forall at :: 0 <= at < |answers| ==> linked[at].outcome == answers[at].outcome)
    && (forall t :: 0 <= t < |pending| ==> pending[t].0 < |answers| && linked[pending[t].0].id == Lookup(byHash, pending[t].1))
    && (forall at :: 0 <= at < |answers| && (forall t :: 0 <= t < |pending| ==> pending[t].0 != at) ==> linked[at] == answers[at])
  }

  lemma EarlyOutcome(decisions: seq<Decision>, k: nat)
    requires k < |Where(decisions, false)|
    ensures
      var d := decisions[Where(decisions, false)[k]];
      Early(d) == Answer(d.existing, if d.action == Update then Updated else Skipped)
  {
    assert Where(decisions, false)[k] in Where(decisions, false);
  }

  lemma KnownLinked(answers: seq<Answer>, linked: seq<Answer>, invalid: nat, decisions: seq<Decision>, pending: seq<(nat, string)>,
    byHash: map<Option<string>, Id>, k: nat)
    requires k < |Where(decisions, false)| && invalid + k < |answers| && decisions[Where(decisions, false)[k]].existing.Some?
    requires ArePending(pending, invalid, decisions) && IsLinked(answers, linked, pending, byHash)
    ensures linked[invalid + k] == answers[invalid + k]
  {
    hide Where, Lookup;
    forall t | 0 <= t < |pending| ensures pending[t].0 != invalid + k {
      assert IsPending(pending[t], invalid, decisions);
    }
  }

  lemma RepeatLinked(answers: seq<Answer>, linked: seq<Answer>, invalid: nat, decisions: seq<Decision>, pending: seq<(nat, string)>,
    byHash: map<Option<string>, Id>, k: nat)
    requires k < |Where(decisions, false)| && invalid + k < |answers| && decisions[Where(decisions, false)[k]].existing.None?
    requires ArePending(pending, invalid, decisions) && IsLinked(answers, linked, pending, byHash)
    ensures linked[invalid + k].outcome == answers[invalid + k].outcome
    ensures linked[invalid + k].id == Lookup(byHash, decisions[Where(decisions, false)[k]].hash)
  {
    hide Where, Lookup, ArePending;
    var one := (invalid + k, decisions[Where(decisions, false)[k]].hash);
    PendingHas(pending, invalid, decisions, k);
    var t :| 0 <= t < |pending| && pending[t] == one;
    assert linked[pending[t].0].id == Lookup(byHash, pending[t].1);
  }

  lemma DupLinked(answers: seq<Answer>, linked: seq<Answer>, invalid: nat, valid: seq<Entry>, decisions: seq<Decision>,
    items: seq<Item>, pending: seq<(nat, string)>, byHash: map<Option<string>, Id>, ids: nat -> Id, k: nat)
    requires |decisions| == |valid| && k < |Where(decisions, false)| && invalid + |Where(decisions, false)| <= |answers|
    requires answers[invalid + k] == Early(decisions[Where(decisions, false)[k]])
    requires ArePending(pending, invalid, decisions) && AreItems(items, valid, decisions, true)
    requires IsByHash(byHash, items, ids) && IsLinked(answers, linked, pending, byHash)
    ensures IsDupAnswer(linked[invalid + k], decisions, Where(decisions, false)[k], ids)
  {
    hide Where, Early, Lookup, AreItems, IsByHash, ArePending;
    var i := Where(decisions, false)[k];
    EarlyOutcome(decisions, k);
    if decisions[i].existing.Some? {
      KnownLinked(answers, linked, invalid, decisions, pending, byHash, k);
    } else {
      RepeatLinked(answers, linked, invalid, decisions, pending, byHash, k);
      HashLooksUp(valid, decisions, items, byHash, ids, decisions[i].hash);
    }
    hide IsLinked;
  }

  lemma HashLooksUp(valid: seq<Entry>, decisions: seq<Decision>, items: seq<Item>, byHash: map<Option<string>, Id>, ids: nat -> Id, hash: string)
    requires |decisions| == |valid| && AreItems(items, valid, decisions, true) && IsByHash(byHash, items, ids)
    ensures
      var inserts := Where(decisions, true);
      var id := Lookup(byHash, hash);
      if id.Some? then exists k :: 0 <= k < |inserts| && decisions[inserts[k]].hash == hash && ids(k) == id.value
      else forall k :: 0 <= k < |inserts| ==> decisions[inserts[k]].hash != hash
  {
    hide Where;
    var inserts := Where(decisions, true);
    if Some(hash) in byHash {
      var k :| 0 <= k < |items| && items[k].hash == Some(hash) && byHash[Some(hash)] == ids(k);
      assert decisions[inserts[k]].hash == hash;
    } else {
      forall k | 0 <= k < |inserts| ensures decisions[inserts[k]].hash != hash {
        assert items[k].hash in byHash;
      }
    }
  }

  lemma NotRepeats(answers: seq<Answer>, linked: seq<Answer>, invalid: nat, decisions: seq<Decision>, pending: seq<(nat, string)>,
    byHash: map<Option<string>, Id>, at: nat)
    requires ArePending(pending, invalid, decisions) && IsLinked(answers, linked, pending, byHash)
    requires at < |answers| && (at < invalid || at >= invalid + |Where(decisions, false)|)
    ensures linked[at] == answers[at]
  {
    hide Where, Lookup;
    forall t | 0 <= t < |pending| ensures pending[t].0 != at {
      assert IsPending(pending[t], invalid, decisions);
    }
  }

  lemma LinkedAnswers(early: seq<Answer>, answers: seq<Answer>, linked: seq<Answer>, invalid: nat, valid: seq<Entry>,
    decisions: seq<Decision>, items: seq<Item>, pending: seq<(nat, string)>, byHash: map<Option<string>, Id>,
    hashed: bool, ids: nat -> Id)
    requires |decisions| == |valid| && AreEarly(early, invalid, decisions)
    requires ArePending(pending, invalid, decisions) && AreItems(items, valid, decisions, hashed)
    requires Appends(early, answers, |items|, ids) && (hashed || Where(decisions, false) == [])
    requires IsByHash(byHash, items, ids) && IsLinked(answers, linked, pending, byHash) && |linked| == |answers|
    ensures AreAnswers(linked, invalid, decisions, ids)
  {
    hide Where, OutcomeOf, Lookup, ArePending, AreItems, IsByHash, IsLinked, IsDupAnswer, Early;
    var dups := Where(decisions, false);
    forall k | 0 <= k < invalid ensures linked[k] == Answer(None, Invalid) {
      assert answers[k] == early[k];
      NotRepeats(answers, linked, invalid, decisions, pending, byHash, k);
    }
    forall k | 0 <= k < |dups| ensures IsDupAnswer(linked[invalid + k], decisions, dups[k], ids) {
      assert answers[invalid + k] == early[invalid + k];
      DupLinked(answers, linked, invalid, valid, decisions, items, pending, byHash, ids, k);
    }
    forall k | 0 <= k < |items| ensures linked[invalid + |dups| + k] == Answer(Some(ids(k)), Inserted) {
      NotRepeats(answers, linked, invalid, decisions, pending, byHash, invalid + |dups| + k);
    }
    ItemsCount(items, valid, decisions, hashed);
  }

  lemma ItemsCount(items: seq<Item>, valid: seq<Entry>, decisions: seq<Decision>, hashed: bool)
    requires |decisions| == |valid| && AreItems(items, valid, decisions, hashed)
    ensures |items| == |Where(decisions, true)|
  {
  }


  /** With deduplication, check_batch's decisions; without it, everything is inserted. */
  ghost predicate AreVerdicts(w: World, valid: seq<Entry>, decisions: seq<Decision>, enabled: bool) {
    if enabled then AreDecisions(w, valid, decisions)
    else |decisions| == |valid| && forall i :: 0 <= i < |decisions| ==> decisions[i].action.Insert?
  }

  method InsertBatch(before: seq<Row>, items: seq<Item>, ids: nat -> Id) returns (r: Option<seq<Row>>)
    ensures
      var rows := before + RowsOf(items, ids);
      r == if IndexHolds(rows) then Some(rows) else None
  {
    var rows := before + RowsOf(items, ids);
    r := if IndexHolds(rows) then Some(rows) else None;
  }

  function RowsOf(items: seq<Item>, ids: nat -> Id): (rows: seq<Row>)
    ensures |rows| == |items|
  {
    seq(|items|, k requires 0 <= k < |items| => Row(items[k].entry.ns, items[k].hash, ids(k)))
  }

  lemma ItemsAreRows(items: seq<Item>, valid: seq<Entry>, decisions: seq<Decision>, hashed: bool, ids: nat -> Id)
    requires |decisions| == |valid| && AreItems(items, valid, decisions, hashed)
    ensures RowsOf(items, ids) == NewRows(valid, decisions, hashed, ids)
  {
  }

  lemma {:induction false} AllInserted(decisions: seq<Decision>)
    requires forall i :: 0 <= i < |decisions| ==> decisions[i].action.Insert?
    ensures Where(decisions, false) == []
  {
    if |decisions| > 0 {
      AllInserted(decisions[..|decisions| - 1]);
    }
  }

  /** ingest_batch: `w.rows` are the current rows at the check, `arrived` those others commit before the insert, ids(k) the id of the k-th row inserted. */
  method IngestBatch(engine: DedupEngine, w: World, enabled: bool, entries: seq<Raw>, arrived: seq<Row>, ids: nat -> Id)
    returns (r: Ingested, ghost decisions: seq<Decision>)
    requires IndexHolds(w.rows + arrived)
    modifies engine
    ensures r.Refused? <==> entries == []
    ensures entries != [] ==>
      var valid := Valids(entries);
      && AreVerdicts(w, valid, decisions, enabled)
      && (r.Conflict? <==> enabled && Overtaken(arrived, NewRows(valid, decisions, true, ids)))
      && (r.Done? ==>
            && r.rows == w.rows + arrived + NewRows(valid, decisions, enabled, ids) && IndexHolds(r.rows)
            && AreAnswers(r.answers, |entries| - |valid|, decisions, ids)
            && Summarises(r.summary, r.answers)
            && r.summary.insert + r.summary.skip + r.summary.update + r.summary.invalid == |r.answers| == |entries|
            && r.summary.invalid == |entries| - |valid|)
  {
    hide AreDecisions, AreEarly, ArePending, AreItems, AreAnswers, NewRows, Where, Tally, Overtaken, IsByHash;
    decisions := [];
    if entries == [] {
      return Refused, decisions;
    }
    var valid, malformed := SplitValidEntries(entries);
    var verdicts: seq<Decision>;
    if enabled {
      verdicts := engine.CheckBatch(w, valid);
    } else {
      verdicts := seq(|valid|, i requires 0 <= i < |valid| => Decision(Insert, None, w.sha(valid[i].content)));
    }
    assert AreVerdicts(w, valid, verdicts, enabled);
    assert |verdicts| == |valid| by {
      VerdictsLength(w, valid, verdicts, enabled);
    }
    decisions := verdicts;
    var early, tallied, pending, items := AnswerDuplicates(valid, verdicts, enabled, |malformed|);
    ItemsAreRows(items, valid, verdicts, enabled, ids);
    if enabled {
      InsertTakenIff(w, valid, verdicts, arrived, ids);
    } else {
      UnhashedTaken(valid, verdicts, w.rows + arrived, ids);
    }
    var stored := InsertBatch(w.rows + arrived, items, ids);
    if stored.None? {
      return Conflict, decisions;
    }
    var answers, summary := AnswerInserted(early, tallied, items, ids);
    var byHash := InsertedByHash(items, ids);
    PendingFits(pending, |malformed|, verdicts, early);
    var linked := LinkRepeats(answers, pending, byHash);
    if !enabled {
      AllInserted(verdicts);
    }
    LinkedAnswers(early, answers, linked, |malformed|, valid, verdicts, items, pending, byHash, enabled, ids);
    AnswersComplete(answers, linked, summary, early, items, |malformed|, valid, verdicts, enabled, ids);
    r := Done(linked, summary, stored.value);
  }

  lemma VerdictsLength(w: World, valid: seq<Entry>, decisions: seq<Decision>, enabled: bool)
    requires AreVerdicts(w, valid, decisions, enabled)
    ensures |decisions| == |valid|
  {
  }

  lemma PendingAgrees(p: (nat, string), q: (nat, string), invalid: nat, decisions: seq<Decision>)
    requires IsPending(p, invalid, decisions) && IsPending(q, invalid, decisions) && p.0 == q.0
    ensures p.1 == q.1
  {
  }

  lemma PendingFits(pending: seq<(nat, string)>, invalid: nat, decisions: seq<Decision>, early: seq<Answer>)
    requires ArePending(pending, invalid, decisions) && AreEarly(early, invalid, decisions)
    ensures forall t :: 0 <= t < |pending| ==> pending[t].0 < |early|
    ensures forall t, u :: 0 <= t < u < |pending| && pending[t].0 == pending[u].0 ==> pending[t].1 == pending[u].1
  {
    hide Where, Early;
    forall t | 0 <= t < |pending| ensures pending[t].0 < |early| {
      assert IsPending(pending[t], invalid, decisions);
    }
    hide IsPending, AreEarly;
    forall t, u | 0 <= t < u < |pending| && pending[t].0 == pending[u].0 ensures pending[t].1 == pending[u].1 {
      PendingAgrees(pending[t], pending[u], invalid, decisions);
    }
  }

  lemma AnswersComplete(answers: seq<Answer>, linked: seq<Answer>, summary: Summary, early: seq<Answer>, items: seq<Item>, invalid: nat,
    valid: seq<Entry>, decisions: seq<Decision>, hashed: bool, ids: nat -> Id)
    requires |decisions| == |valid| && AreEarly(early, invalid, decisions) && AreItems(items, valid, decisions, hashed)
    requires Appends(early, answers, |items|, ids) && Summarises(summary, answers)
    requires |linked| == |answers| && forall at :: 0 <= at < |answers| ==> linked[at].outcome == answers[at].outcome
    ensures Summarises(summary, linked) && |linked| == invalid + |valid|
    ensures summary.insert + summary.skip + summary.update + summary.invalid == |linked| && summary.invalid == invalid
  {
    hide Where, OutcomeOf;
    SameOutcomes(answers, linked, Inserted);
    SameOutcomes(answers, linked, Skipped);
    SameOutcomes(answers, linked, Updated);
    SameOutcomes(answers, linked, Invalid);
    SummaryTotal(linked);
    EachOnce(decisions);
    forall k | 0 <= k < |answers| ensures answers[k].outcome == Invalid <==> k < invalid {
      InvalidAreFirst(answers, early, invalid, decisions, |items|, ids, k);
    }
    InvalidTally(answers, invalid);
  }

  lemma InvalidAreFirst(answers: seq<Answer>, early: seq<Answer>, invalid: nat, decisions: seq<Decision>, n: nat, ids: nat -> Id, k: nat)
    requires AreEarly(early, invalid, decisions) && Appends(early, answers, n, ids) && k < |answers|
    ensures answers[k].outcome == Invalid <==> k < invalid
  {
    hide Where;
    if k < |early| {
      assert answers[k] == early[k];
      if k >= invalid {
        assert early[invalid + (k - invalid)] == Early(decisions[Where(decisions, false)[k - invalid]]);
      }
    }
  }

  lemma {:induction false} InvalidTally(answers: seq<Answer>, invalid: nat)
    requires invalid <= |answers| && forall k :: 0 <= k < |answers| ==> (answers[k].outcome == Invalid <==> k < invalid)
    ensures Tally(answers, Invalid) == invalid
  {
    if |answers| > 0 {
      InvalidTally(answers[..|answers| - 1], if invalid < |answers| then invalid else invalid - 1);
    }
  }
}
