/**
 The verdict queue with everybody at it at once: workers draining it in batches,
 manual verdicts taking pairs out, and new items arriving. Each Redis command is
 one step; workers and manual verdicts may die at any moment.
 */
module LinkerWorkers {
  import opened Options
  import opened LinkerQueue

  /** run_l2_verdicts: still drawing items, with those that failed so far waiting to go back, or putting these back. */
  datatype Worker =
    | Idle
    | Drawing(held: Option<Item>, waiting: seq<Item>, left: nat)
    | Returning(waiting: seq<Item>)

  /** _consume_l2_pair: the part of its LRANGE not looked at yet, and what it is about to RPUSH. */
  datatype Manual = Manual(source: Id, candidate: Id, todo: seq<Item>, pushing: Option<Item>)

  /** What has become of items, attempts aside: LPUSHed as new, judged, given up, gone with a worker, LREMed, RPUSHed stripped. */
  datatype Ledger = Ledger(
    pushed: multiset<Item>, processed: multiset<Item>, dropped: multiset<Item>, lost: multiset<Item>,
    taken: multiset<Item>, stripped: multiset<Item>)

  /** `most` is linker_l2_max_attempts. */
  datatype Sys = Sys(most: nat, queue: seq<Item>, workers: seq<Worker>, manuals: map<nat, Manual>, ledger: Ledger)

  datatype Event =
    | Push(item: Item)
    | Begin(w: nat, batch: nat)
    | Pop(w: nat)
    | Judge(w: nat, answer: Answer)
    | Stop(w: nat)
    | PutBack(w: nat)
    | Finish(w: nat)
    | Crash(w: nat)
    | Lrange(m: nat, source: Id, candidate: Id)
    | Pass(m: nat)
    | LremNext(m: nat)
    | Rpush(m: nat)
    | PushFails(m: nat)
    | Abandon(m: nat)
    | Sweep(raw: Item)

  function Origin(item: Item): Item {
    item.(attempts := 0)
  }

  function One(item: Item, x: Item): nat {
    if Origin(item) == x then 1 else 0
  }

  /** How often x is among the items, attempts aside. */
  function Count(items: seq<Item>, x: Item): nat {
    if |items| == 0 then 0 else Count(items[..|items| - 1], x) + One(items[|items| - 1], x)
  }

  function InHand(w: Worker, x: Item): nat {
    match w
    case Idle => 0
    case Drawing(held, waiting, _) => (if held.Some? then One(held.value, x) else 0) + Count(waiting, x)
    case Returning(waiting) => Count(waiting, x)
  }

  function Flight(workers: seq<Worker>, x: Item): nat {
    if |workers| == 0 then 0 else Flight(workers[..|workers| - 1], x) + InHand(workers[|workers| - 1], x)
  }

  function Origins(items: seq<Item>): multiset<Item> {
    if |items| == 0 then multiset{} else Origins(items[..|items| - 1]) + multiset{Origin(items[|items| - 1])}
  }

  /** The items a worker takes with it when it dies. */
  function Held(w: Worker): multiset<Item> {
    match w
    case Idle => multiset{}
    case Drawing(held, waiting, _) => Origins(if held.Some? then waiting + [held.value] else waiting)
    case Returning(waiting) => Origins(waiting)
  }

  predicate Holding(s: Sys, w: nat) {
    w < |s.workers| && s.workers[w].Drawing? && s.workers[w].held.Some?
  }

  predicate Free(s: Sys, w: nat) {
    w < |s.workers| && s.workers[w].Drawing? && s.workers[w].held.None?
  }

  predicate Looking(s: Sys, m: nat) {
    m in s.manuals && s.manuals[m].pushing.None? && s.manuals[m].todo != []
  }

  function KeptOf(m: Manual, raw: Item): seq<Spec> {
    Kept(raw.candidates, Other(raw, m.source, m.candidate))
  }

  /** RPOP and LRANGE see the queue as it is; a failing RPOP ends the drawing as an empty queue does; a failing LREM passes the item over. */
  predicate Enabled(s: Sys, e: Event) {
    match e
    case Push(item) => item.attempts == 0
    case Begin(w, _) => w < |s.workers| && s.workers[w].Idle?
    case Pop(w) => Free(s, w) && s.workers[w].left > 0 && s.queue != []
    case Judge(w, _) => Holding(s, w)
    case Stop(w) => Free(s, w)
    case PutBack(w) => w < |s.workers| && s.workers[w].Returning? && s.workers[w].waiting != []
    case Finish(w) => w < |s.workers| && s.workers[w].Returning? && s.workers[w].waiting == []
    case Crash(w) => w < |s.workers|
    case Lrange(m, _, _) => m !in s.manuals
    case Pass(m) => Looking(s, m)
    case LremNext(m) => Looking(s, m) && Touches(s.manuals[m].todo[0], s.manuals[m].source, s.manuals[m].candidate)
    case Rpush(m) => m in s.manuals && s.manuals[m].pushing.Some?
    case PushFails(m) => m in s.manuals && s.manuals[m].pushing.Some?
    case Abandon(m) => m in s.manuals
    case Sweep(_) => true
  }

  function With(s: Sys, w: nat, p: Worker): Sys
    requires w < |s.workers|
  {
    s.(workers := s.workers[w := p])
  }

  function Removed(s: Sys, raw: Item): Sys {
    s.(queue := Lrem(s.queue, raw),
       ledger := s.ledger.(taken := s.ledger.taken + if raw in s.queue then multiset{Origin(raw)} else multiset{}))
  }

  function Judged(s: Sys, w: nat, answer: Answer): Sys
    requires Holding(s, w)
  {
    var p := s.workers[w];
    var item := p.held.value;
    match answer
    case Judged => With(s, w, p.(held := None)).(ledger := s.ledger.(processed := s.ledger.processed + multiset{Origin(item)}))
    case Requeue =>
      if item.attempts < s.most then With(s, w, p.(held := None, waiting := p.waiting + [item]))
      else With(s, w, p.(held := None)).(ledger := s.ledger.(dropped := s.ledger.dropped + multiset{Origin(item)}))
    case Raises => Lost(s, w)
  }

  function Lost(s: Sys, w: nat): Sys
    requires w < |s.workers|
  {
    With(s, w, Idle).(ledger := s.ledger.(lost := s.ledger.lost + Held(s.workers[w])))
  }

  function Taken1(s: Sys, m: nat): Sys
    requires Looking(s, m)
  {
    var manual := s.manuals[m];
    var raw := manual.todo[0];
    var kept := KeptOf(manual, raw);
    Removed(s, raw).(manuals :=
      s.manuals[m := manual.(todo := manual.todo[1..], pushing := if kept == [] then None else Some(raw.(candidates := kept)))])
  }

  function After(s: Sys, e: Event): Sys
    requires Enabled(s, e)
  {
    match e
    case Push(item) => s.(queue := [item] + s.queue, ledger := s.ledger.(pushed := s.ledger.pushed + multiset{item}))
    case Begin(w, batch) => With(s, w, Drawing(None, [], batch))
    case Pop(w) =>
      var p, last := s.workers[w], |s.queue| - 1;
      With(s, w, p.(held := Some(Tried(s.queue[last])), left := p.left - 1)).(queue := s.queue[..last])
    case Judge(w, answer) => Judged(s, w, answer)
    case Stop(w) => With(s, w, Returning(s.workers[w].waiting))
    case PutBack(w) =>
      var waiting := s.workers[w].waiting;
      With(s, w, Returning(waiting[1..])).(queue := [waiting[0]] + s.queue)
    case Finish(w) => With(s, w, Idle)
    case Crash(w) => Lost(s, w)
    case Lrange(m, source, candidate) => s.(manuals := s.manuals[m := Manual(source, candidate, s.queue, None)])
    case Pass(m) => s.(manuals := s.manuals[m := s.manuals[m].(todo := s.manuals[m].todo[1..])])
    case LremNext(m) => Taken1(s, m)
    case Rpush(m) =>
      var item := s.manuals[m].pushing.value;
      s.(queue := s.queue + [item], manuals := s.manuals[m := s.manuals[m].(pushing := None)],
         ledger := s.ledger.(stripped := s.ledger.stripped + multiset{Origin(item)}))
    case PushFails(m) => s.(manuals := s.manuals[m := s.manuals[m].(pushing := None)])
    case Abandon(m) => s.(manuals := s.manuals - {m})
    case Sweep(raw) => Removed(s, raw)
  }

  predicate Possible(s: Sys, run: seq<Event>)
    decreases |run|
  {
    |run| == 0 || (Enabled(s, run[0]) && Possible(After(s, run[0]), run[1..]))
  }

  function End(s: Sys, run: seq<Event>): Sys
    requires Possible(s, run)
    decreases |run|
  {
    if |run| == 0 then s else End(After(s, run[0]), run[1..])
  }

  // --- Nothing is lost unaccounted for -------------------------------------------------------

  /** Everything pushed, new or stripped, is queued, in some worker's hands, judged, dropped, lost with a worker or taken out. */
  ghost predicate Balanced(s: Sys) {
    forall x: Item :: Sides(s, x)
  }

  predicate Sides(s: Sys, x: Item) {
    var l := s.ledger;
    l.pushed[x] + l.stripped[x] == Count(s.queue, x) + Flight(s.workers, x) + l.processed[x] + l.dropped[x] + l.lost[x] + l.taken[x]
  }

  lemma {:induction false} CountOfBoth(a: seq<Item>, b: seq<Item>, x: Item)
    ensures Count(a + b, x) == Count(a, x) + Count(b, x)
  {
    hide One;
    if |b| == 0 {
      assert a + b == a;
    } else {
      assert (a + b)[..|a + b| - 1] == a + b[..|b| - 1];
      CountOfBoth(a, b[..|b| - 1], x);
    }
  }

  lemma CountOfOne(item: Item, x: Item)
    ensures Count([item], x) == One(item, x)
  {
    assert [item][..0] == [];
  }

  lemma CountSplit(items: seq<Item>, x: Item)
    requires |items| > 0
    ensures Count(items, x) == One(items[0], x) + Count(items[1..], x)
  {
    assert items == [items[0]] + items[1..];
    CountOfBoth([items[0]], items[1..], x);
    CountOfOne(items[0], x);
  }

  lemma {:induction false} OriginsCount(items: seq<Item>, x: Item)
    ensures Origins(items)[x] == Count(items, x)
  {
    if |items| > 0 {
      OriginsCount(items[..|items| - 1], x);
    }
  }

  lemma HeldCount(w: Worker, x: Item)
    ensures Held(w)[x] == InHand(w, x)
  {
    match w
    case Idle =>
    case Drawing(held, waiting, _) =>
      OriginsCount(waiting, x);
      if held.Some? {
        OriginsCount(waiting + [held.value], x);
        CountOfBoth(waiting, [held.value], x);
        CountOfOne(held.value, x);
      }
    case Returning(waiting) => OriginsCount(waiting, x);
  }

  lemma {:induction false} FlightUpdate(workers: seq<Worker>, w: nat, p: Worker, x: Item)
    requires w < |workers|
    ensures Flight(workers[w := p], x) + InHand(workers[w], x) == Flight(workers, x) + InHand(p, x)
  {
    hide InHand;
    var last := |workers| - 1;
    if w < last {
      FlightUpdate(workers[..last], w, p, x);
      assert workers[w := p][..last] == workers[..last][w := p];
    } else {
      assert workers[w := p][..last] == workers[..last];
    }
  }

  lemma {:induction false} LremCount(queue: seq<Item>, raw: Item, x: Item)
    ensures Count(queue, x) == Count(Lrem(queue, raw), x) + if raw in queue then One(raw, x) else 0
  {
    hide One;
    if |queue| > 0 {
      CountSplit(queue, x);
      if queue[0] != raw {
        LremCount(queue[1..], raw, x);
        CountSplit(Lrem(queue, raw), x);
        assert Lrem(queue, raw)[1..] == Lrem(queue[1..], raw);
      }
    }
  }

  lemma PopSides(s: Sys, w: nat, x: Item)
    requires Enabled(s, Pop(w)) && Sides(s, x)
    ensures Sides(After(s, Pop(w)), x)
  {
    FlightUpdate(s.workers, w, After(s, Pop(w)).workers[w], x);
    hide Flight;
  }

  lemma JudgeSides(s: Sys, w: nat, answer: Answer, x: Item)
    requires Enabled(s, Judge(w, answer)) && Sides(s, x)
    ensures Sides(After(s, Judge(w, answer)), x)
  {
    var p, p' := s.workers[w], Judged(s, w, answer).workers[w];
    FlightUpdate(s.workers, w, p', x);
    assert Judged(s, w, answer).workers == s.workers[w := p'];
    if answer.Raises? {
      HeldCount(p, x);
    } else {
      CountOfBoth(p.waiting, [p.held.value], x);
      CountOfOne(p.held.value, x);
    }
    hide Flight, Count, Held;
  }

  lemma PutBackSides(s: Sys, w: nat, x: Item)
    requires Enabled(s, PutBack(w)) && Sides(s, x)
    ensures Sides(After(s, PutBack(w)), x)
  {
    var s', p := After(s, PutBack(w)), s.workers[w];
    FlightUpdate(s.workers, w, s'.workers[w], x);
    CountSplit(p.waiting, x);
    CountSplit(s'.queue, x);
    assert s'.queue[1..] == s.queue;
    hide Flight, Count;
  }

  lemma HandSides(s: Sys, e: Event, x: Item)
    requires Enabled(s, e) && (e.Begin? || e.Stop? || e.Finish? || e.Crash?) && Sides(s, x)
    ensures Sides(After(s, e), x)
  {
    FlightUpdate(s.workers, e.w, After(s, e).workers[e.w], x);
    HeldCount(s.workers[e.w], x);
    hide Flight, Held;
  }

  lemma RemovedSides(s: Sys, raw: Item, x: Item)
    requires Sides(s, x)
    ensures Sides(Removed(s, raw), x)
  {
    LremCount(s.queue, raw, x);
    hide Flight, Count, Lrem;
  }

  lemma PushSides(s: Sys, e: Event, x: Item)
    requires Enabled(s, e) && (e.Push? || e.Rpush?) && Sides(s, x)
    ensures Sides(After(s, e), x)
  {
    if e.Push? {
      CountSplit([e.item] + s.queue, x);
      assert ([e.item] + s.queue)[1..] == s.queue;
    } else {
      CountOfBoth(s.queue, [s.manuals[e.m].pushing.value], x);
      CountOfOne(s.manuals[e.m].pushing.value, x);
    }
    hide Flight, Count;
  }

  lemma SidesKept(s: Sys, e: Event, x: Item)
    requires Enabled(s, e) && Sides(s, x)
    ensures Sides(After(s, e), x)
  {
    hide Flight, Count, Lrem, Touches, Kept, One;
    match e
    case Push(_) => PushSides(s, e, x);
    case Rpush(_) => PushSides(s, e, x);
    case LremNext(m) => RemovedSides(s, s.manuals[m].todo[0], x);
    case Sweep(raw) => RemovedSides(s, raw, x);
    case Lrange(_, _, _) =>
    case Pass(_) =>
    case PushFails(_) =>
    case Abandon(_) =>
    case Pop(w) => PopSides(s, w, x);
    case Judge(w, answer) => JudgeSides(s, w, answer, x);
    case PutBack(w) => PutBackSides(s, w, x);
    case _ => HandSides(s, e, x);
  }

  /** Whatever workers, manual verdicts and pushes interleave, fail and die: every item is accounted for. */
  lemma {:induction false} EveryRunBalanced(s: Sys, run: seq<Event>)
    requires Possible(s, run) && Balanced(s)
    ensures Balanced(End(s, run))
    decreases |run|
  {
    if |run| > 0 {
      forall x: Item ensures Sides(After(s, run[0]), x) {
        SidesKept(s, run[0], x);
      }
      hide Sides, Enabled, After;
      EveryRunBalanced(After(s, run[0]), run[1..]);
    }
  }

  /** Nobody has done anything yet. */
  ghost predicate Untroubled(s: Sys) {
    && s.queue == [] && s.manuals == map[] && (forall w :: 0 <= w < |s.workers| ==> s.workers[w].Idle?)
    && s.ledger == Ledger(multiset{}, multiset{}, multiset{}, multiset{}, multiset{}, multiset{})
  }

  lemma {:induction false} NothingInFlight(workers: seq<Worker>, x: Item)
    requires forall w :: 0 <= w < |workers| ==> workers[w].Idle?
    ensures Flight(workers, x) == 0
  {
    if |workers| > 0 {
      NothingInFlight(workers[..|workers| - 1], x);
    }
  }

  lemma UntroubledIsBalanced(s: Sys)
    requires Untroubled(s)
    ensures Balanced(s) && Bounded(s)
  {
    forall x: Item ensures Sides(s, x) {
      NothingInFlight(s.workers, x);
    }
  }

  // --- No item is tried too often ---------------------------------------------------------------

  /** New, or tried fewer times than the most. */
  predicate Young(item: Item, most: nat) {
    item.attempts == 0 || item.attempts < most
  }

  predicate AllYoung(items: seq<Item>, most: nat) {
    forall i :: 0 <= i < |items| ==> Young(items[i], most)
  }

  ghost predicate Bounded(s: Sys) {
    && AllYoung(s.queue, s.most)
    && (forall w: nat :: Holding(s, w) ==> 1 <= s.workers[w].held.value.attempts <= if s.most > 0 then s.most else 1)
    && (forall w :: 0 <= w < |s.workers| && !s.workers[w].Idle? ==> AllYoung(s.workers[w].waiting, s.most))
    && (forall m :: m in s.manuals ==> AllYoung(s.manuals[m].todo, s.most))
    && (forall m :: m in s.manuals && s.manuals[m].pushing.Some? ==> Young(s.manuals[m].pushing.value, s.most))
  }

  lemma {:induction false} LremYoung(queue: seq<Item>, raw: Item, most: nat)
    requires AllYoung(queue, most)
    ensures AllYoung(Lrem(queue, raw), most)
  {
    if |queue| > 0 {
      LremYoung(queue[1..], raw, most);
    }
  }

  lemma BoundedManuals(s: Sys, e: Event)
    requires Enabled(s, e) && Bounded(s)
    requires e.Lrange? || e.Pass? || e.LremNext? || e.Rpush? || e.PushFails? || e.Abandon? || e.Sweep? || e.Push?
    ensures Bounded(After(s, e)) && After(s, e).most == s.most
  {
    if e.LremNext? {
      LremYoung(s.queue, s.manuals[e.m].todo[0], s.most);
    } else if e.Sweep? {
      LremYoung(s.queue, e.raw, s.most);
    }
    hide Lrem, Touches, Kept;
  }

  lemma BoundedWorkers(s: Sys, e: Event)
    requires Enabled(s, e) && Bounded(s)
    requires e.Begin? || e.Pop? || e.Judge? || e.Stop? || e.PutBack? || e.Finish? || e.Crash?
    ensures Bounded(After(s, e)) && After(s, e).most == s.most
  {
    hide Held;
  }

  lemma BoundedKept(s: Sys, e: Event)
    requires Enabled(s, e) && Bounded(s)
    ensures Bounded(After(s, e)) && After(s, e).most == s.most
  {
    hide Bounded, Enabled, After;
    if e.Begin? || e.Pop? || e.Judge? || e.Stop? || e.PutBack? || e.Finish? || e.Crash? {
      BoundedWorkers(s, e);
    } else {
      BoundedManuals(s, e);
    }
  }

  /**
   In no run is an item in a worker's hands for more than its linker_l2_max_attempts-th
   try, whoever else pushes, pops or puts items back meanwhile.
   */
  lemma {:induction false} AttemptsBounded(s: Sys, run: seq<Event>)
    requires Possible(s, run) && Bounded(s)
    ensures Bounded(End(s, run))
    decreases |run|
  {
    if |run| > 0 {
      BoundedKept(s, run[0]);
      AttemptsBounded(After(s, run[0]), run[1..]);
    }
  }

  // --- Whether a pair taken out stays out ---------------------------------------------------------

  /** No queued item holds the pair. */
  predicate Gone(s: Sys, a: Id, b: Id) {
    forall i :: 0 <= i < |s.queue| ==> !Touches(s.queue[i], a, b)
  }

  predicate NoneTouch(items: seq<Item>, a: Id, b: Id) {
    forall i :: 0 <= i < |items| ==> !Touches(items[i], a, b)
  }

  /** Nobody can put an item with the pair back: not a worker, nor a manual verdict on another pair. */
  ghost predicate NobodyReturns(s: Sys, a: Id, b: Id) {
    && (forall w: nat :: Holding(s, w) && s.workers[w].held.value.attempts < s.most ==> !Touches(s.workers[w].held.value, a, b))
    && (forall w :: 0 <= w < |s.workers| && !s.workers[w].Idle? ==> NoneTouch(s.workers[w].waiting, a, b))
    && (forall m :: m in s.manuals && s.manuals[m].pushing.Some? ==> !Touches(s.manuals[m].pushing.value, a, b))
    && (forall m, i :: m in s.manuals && 0 <= i < |s.manuals[m].todo| ==> !ReturnsPair(s.manuals[m], s.manuals[m].todo[i], a, b))
  }

  /** Stripped of its own pair, the item goes back with this one. */
  predicate ReturnsPair(m: Manual, raw: Item, a: Id, b: Id) {
    Touches(raw, m.source, m.candidate) && Touches(raw.(candidates := KeptOf(m, raw)), a, b)
  }

  /** No new item with the pair arrives. */
  predicate NotPushed(run: seq<Event>, a: Id, b: Id) {
    forall i :: 0 <= i < |run| ==> run[i].Push? ==> !Touches(run[i].item, a, b)
  }

  lemma {:induction false} KeptLess(specs: seq<Spec>, other: Id, x: Id)
    ensures |Kept(specs, x)| == |specs| ==> |Kept(Kept(specs, other), x)| == |Kept(specs, other)|
  {
    if |specs| > 0 {
      KeptLess(specs[1..], other, x);
      if specs[0].id != other {
        assert Kept(specs, other)[1..] == Kept(specs[1..], other);
      } else {
        assert Kept(specs, other) == Kept(specs[1..], other);
      }
    }
  }

  /** An item that does not hold the pair does not come to hold it by losing candidates. */
  lemma StrippedTouchesLess(m: Manual, raw: Item, a: Id, b: Id)
    requires !Touches(raw, a, b)
    ensures !ReturnsPair(m, raw, a, b)
  {
    KeptLess(raw.candidates, Other(raw, m.source, m.candidate), Other(raw, a, b));
  }

  lemma {:induction false} LremTouchesNone(queue: seq<Item>, raw: Item, a: Id, b: Id)
    requires NoneTouch(queue, a, b)
    ensures NoneTouch(Lrem(queue, raw), a, b)
  {
    hide Touches;
    if |queue| > 0 {
      LremTouchesNone(queue[1..], raw, a, b);
    }
  }

  ghost predicate Away(s: Sys, a: Id, b: Id) {
    Gone(s, a, b) && NobodyReturns(s, a, b)
  }

  lemma AwayWorkers(s: Sys, e: Event, a: Id, b: Id)
    requires Enabled(s, e) && Away(s, a, b)
    requires e.Begin? || e.Pop? || e.Judge? || e.Stop? || e.PutBack? || e.Finish? || e.Crash?
    ensures Away(After(s, e), a, b)
  {
    hide Kept, ReturnsPair;
    assert e.Pop? ==> Touches(Tried(s.queue[|s.queue| - 1]), a, b) == Touches(s.queue[|s.queue| - 1], a, b);
    hide Touches;
  }

  lemma AwayManuals(s: Sys, e: Event, a: Id, b: Id)
    requires Enabled(s, e) && Away(s, a, b) && (e.Push? ==> !Touches(e.item, a, b))
    requires e.Push? || e.Lrange? || e.Pass? || e.LremNext? || e.Rpush? || e.PushFails? || e.Abandon? || e.Sweep?
    ensures Away(After(s, e), a, b)
  {
    match e
    case Lrange(m, source, candidate) =>
      var manual := Manual(source, candidate, s.queue, None);
      forall i | 0 <= i < |s.queue| { StrippedTouchesLess(manual, s.queue[i], a, b); }
      hide Touches, ReturnsPair;
    case LremNext(m) =>
      assert !ReturnsPair(s.manuals[m], s.manuals[m].todo[0], a, b);
      LremTouchesNone(s.queue, s.manuals[m].todo[0], a, b);
      NextManual(s.manuals[m], a, b);
      hide Touches, ReturnsPair, Lrem;
    case Sweep(raw) =>
      LremTouchesNone(s.queue, raw, a, b);
      hide Touches, ReturnsPair, Lrem;
    case Pass(m) =>
      NextManual(s.manuals[m], a, b);
      hide Touches, ReturnsPair;
    case Rpush(m) =>
      NextManual(s.manuals[m], a, b);
      hide Touches, ReturnsPair;
    case PushFails(m) =>
      NextManual(s.manuals[m], a, b);
      hide Touches, ReturnsPair;
    case _ => hide Touches, ReturnsPair;
  }

  /** What a manual verdict may give back depends on its pair alone. */
  lemma NextManual(m: Manual, a: Id, b: Id)
    ensures forall todo, pushing, raw :: ReturnsPair(m.(todo := todo, pushing := pushing), raw, a, b) == ReturnsPair(m, raw, a, b)
  {
  }

  lemma AwayKept(s: Sys, e: Event, a: Id, b: Id)
    requires Enabled(s, e) && Away(s, a, b) && (e.Push? ==> !Touches(e.item, a, b))
    ensures Away(After(s, e), a, b)
  {
    hide Away, After, Enabled, Touches;
    if e.Begin? || e.Pop? || e.Judge? || e.Stop? || e.PutBack? || e.Finish? || e.Crash? {
      AwayWorkers(s, e, a, b);
    } else {
      AwayManuals(s, e, a, b);
    }
  }

  lemma {:induction false} StaysAway(s: Sys, run: seq<Event>, a: Id, b: Id)
    requires Possible(s, run) && Away(s, a, b) && NotPushed(run, a, b)
    ensures Gone(End(s, run), a, b)
    decreases |run|
  {
    hide Touches, Enabled, After;
    if |run| > 0 {
      assert run[0].Push? ==> !Touches(run[0].item, a, b);
      AwayKept(s, run[0], a, b);
      StaysAway(After(s, run[0]), run[1..], a, b);
    }
  }

  /** Some run, with no new item that has the pair, brings it back into the queue. */
  ghost predicate ComesBack(s: Sys, a: Id, b: Id) {
    exists run :: Possible(s, run) && NotPushed(run, a, b) && !Gone(End(s, run), a, b)
  }

  lemma Here(s: Sys, a: Id, b: Id)
    requires !Gone(s, a, b)
    ensures ComesBack(s, a, b)
  {
    assert Possible(s, []) && NotPushed([], a, b) && !Gone(End(s, []), a, b);
  }

  lemma AfterStep(s: Sys, e: Event, a: Id, b: Id)
    requires Enabled(s, e) && !e.Push? && ComesBack(After(s, e), a, b)
    ensures ComesBack(s, a, b)
  {
    hide Gone, Enabled, After;
    var run :| Possible(After(s, e), run) && NotPushed(run, a, b) && !Gone(End(After(s, e), run), a, b);
    var longer := [e] + run;
    assert longer[1..] == run;
    assert Possible(s, longer) && NotPushed(longer, a, b) && !Gone(End(s, longer), a, b);
  }

  lemma {:induction false} ReturningBrings(s: Sys, w: nat, j: nat, a: Id, b: Id)
    requires w < |s.workers| && s.workers[w].Returning? && j < |s.workers[w].waiting| && Touches(s.workers[w].waiting[j], a, b)
    ensures ComesBack(s, a, b)
    decreases j
  {
    var t := After(s, PutBack(w));
    if j == 0 {
      assert Touches(t.queue[0], a, b);
      Here(t, a, b);
    } else {
      ReturningBrings(t, w, j - 1, a, b);
    }
    AfterStep(s, PutBack(w), a, b);
  }

  lemma FreeBrings(s: Sys, w: nat, j: nat, a: Id, b: Id)
    requires Free(s, w) && j < |s.workers[w].waiting| && Touches(s.workers[w].waiting[j], a, b)
    ensures ComesBack(s, a, b)
  {
    ReturningBrings(After(s, Stop(w)), w, j, a, b);
    AfterStep(s, Stop(w), a, b);
  }

  lemma WorkerBrings(s: Sys, w: nat, j: nat, a: Id, b: Id)
    requires w < |s.workers| && !s.workers[w].Idle? && j < |s.workers[w].waiting| && Touches(s.workers[w].waiting[j], a, b)
    ensures ComesBack(s, a, b)
  {
    hide Touches;
    if s.workers[w].Returning? {
      ReturningBrings(s, w, j, a, b);
    } else if Free(s, w) {
      FreeBrings(s, w, j, a, b);
    } else {
      var e := Judge(w, Answer.Judged);
      FreeBrings(After(s, e), w, j, a, b);
      AfterStep(s, e, a, b);
    }
  }

  lemma HeldBrings(s: Sys, w: nat, a: Id, b: Id)
    requires Holding(s, w) && s.workers[w].held.value.attempts < s.most && Touches(s.workers[w].held.value, a, b)
    ensures ComesBack(s, a, b)
  {
    hide Touches;
    var e := Judge(w, Requeue);
    FreeBrings(After(s, e), w, |s.workers[w].waiting|, a, b);
    AfterStep(s, e, a, b);
  }

  lemma PushingBrings(s: Sys, m: nat, a: Id, b: Id)
    requires m in s.manuals && s.manuals[m].pushing.Some? && Touches(s.manuals[m].pushing.value, a, b)
    ensures ComesBack(s, a, b)
  {
    hide Touches;
    var t := After(s, Rpush(m));
    assert Touches(t.queue[|s.queue|], a, b);
    Here(t, a, b);
    AfterStep(s, Rpush(m), a, b);
  }

  lemma {:induction false} TodoBrings(s: Sys, m: nat, i: nat, a: Id, b: Id)
    requires m in s.manuals && s.manuals[m].pushing.None? && i < |s.manuals[m].todo|
    requires ReturnsPair(s.manuals[m], s.manuals[m].todo[i], a, b)
    ensures ComesBack(s, a, b)
    decreases i
  {
    if i == 0 {
      var t := After(s, LremNext(m));
      assert KeptOf(s.manuals[m], s.manuals[m].todo[0]) != [];
      PushingBrings(t, m, a, b);
      AfterStep(s, LremNext(m), a, b);
    } else {
      NextManual(s.manuals[m], a, b);
      hide ReturnsPair;
      TodoBrings(After(s, Pass(m)), m, i - 1, a, b);
      AfterStep(s, Pass(m), a, b);
    }
  }

  lemma ManualBrings(s: Sys, m: nat, i: nat, a: Id, b: Id)
    requires m in s.manuals && i < |s.manuals[m].todo| && ReturnsPair(s.manuals[m], s.manuals[m].todo[i], a, b)
    ensures ComesBack(s, a, b)
  {
    NextManual(s.manuals[m], a, b);
    hide ReturnsPair;
    if s.manuals[m].pushing.Some? {
      TodoBrings(After(s, PushFails(m)), m, i, a, b);
      AfterStep(s, PushFails(m), a, b);
    } else {
      TodoBrings(s, m, i, a, b);
    }
  }

  /**
   When the queue holds the pair no more, it stays away in every run in which it is
   not pushed anew if and only if nobody has it in hand: no worker an item with it
   that it may put back, and no manual verdict on another pair of such an item.
   */
  lemma PairStaysGoneIff(s: Sys, a: Id, b: Id)
    requires Gone(s, a, b)
    ensures (forall run :: Possible(s, run) && NotPushed(run, a, b) ==> Gone(End(s, run), a, b)) <==> NobodyReturns(s, a, b)
  {
    hide Gone, Touches, ReturnsPair;
    if NobodyReturns(s, a, b) {
      forall run | Possible(s, run) && NotPushed(run, a, b) { StaysAway(s, run, a, b); }
    } else if w: nat :| Holding(s, w) && s.workers[w].held.value.attempts < s.most && Touches(s.workers[w].held.value, a, b) {
      HeldBrings(s, w, a, b);
    } else if w :| 0 <= w < |s.workers| && !s.workers[w].Idle? && !NoneTouch(s.workers[w].waiting, a, b) {
      var j :| 0 <= j < |s.workers[w].waiting| && Touches(s.workers[w].waiting[j], a, b);
      WorkerBrings(s, w, j, a, b);
    } else if m :| m in s.manuals && s.manuals[m].pushing.Some? && Touches(s.manuals[m].pushing.value, a, b) {
      PushingBrings(s, m, a, b);
    } else {
      var m, i :| m in s.manuals && 0 <= i < |s.manuals[m].todo| && ReturnsPair(s.manuals[m], s.manuals[m].todo[i], a, b);
      ManualBrings(s, m, i, a, b);
    }
  }

  lemma ConsumedIsGone(s: Sys, queue: seq<Item>, a: Id, b: Id)
    requires s.queue == Untouched(queue, a, b) + Stripped(queue, a, b)
    ensures Gone(s, a, b)
  {
    StrippedTouchNone(queue, a, b);
    forall i | 0 <= i < |s.queue| ensures !Touches(s.queue[i], a, b) {
      if i < |Untouched(queue, a, b)| {
        assert s.queue[i] in Untouched(queue, a, b);
      }
    }
  }

  lemma {:induction false} KeptTwice(specs: seq<Spec>, other: Id)
    ensures Kept(Kept(specs, other), other) == Kept(specs, other)
  {
    if |specs| > 0 {
      KeptTwice(specs[1..], other);
      if specs[0].id != other {
        assert Kept(specs, other)[1..] == Kept(specs[1..], other);
      } else {
        assert Kept(specs, other) == Kept(specs[1..], other);
      }
    }
  }

  lemma {:induction false} StrippedTouchNone(queue: seq<Item>, a: Id, b: Id)
    ensures NoneTouch(Stripped(queue, a, b), a, b)
  {
    if |queue| > 0 {
      StrippedTouchNone(queue[..|queue| - 1], a, b);
      var last := queue[|queue| - 1];
      KeptTwice(last.candidates, Other(last, a, b));
    }
  }

  // --- A worker alone does what run_l2_verdicts is specified to do --------------------------------

  ghost predicate Reaches(s: Sys, t: Sys) {
    exists run :: Possible(s, run) && End(s, run) == t
  }

  lemma {:induction false} AppendEvent(s: Sys, run: seq<Event>, e: Event)
    requires Possible(s, run) && Enabled(End(s, run), e)
    ensures Possible(s, run + [e]) && End(s, run + [e]) == After(End(s, run), e)
    decreases |run|
  {
    hide Enabled, After;
    if |run| == 0 {
      assert (run + [e])[1..] == [];
    } else {
      AppendEvent(After(s, run[0]), run[1..], e);
      assert (run + [e])[1..] == run[1..] + [e];
    }
  }

  lemma Onward(s: Sys, t: Sys, e: Event)
    requires Reaches(s, t) && Enabled(t, e)
    ensures Reaches(s, After(t, e))
  {
    hide Enabled, After;
    var run :| Possible(s, run) && End(s, run) == t;
    AppendEvent(s, run, e);
  }

  lemma Start(s: Sys)
    ensures Reaches(s, s)
  {
    assert Possible(s, []) && End(s, []) == s;
  }

  /** The others, and whoever gives verdicts by hand, stand still. */
  predicate Beside(s: Sys, t: Sys, w: nat, p: Worker, queue: seq<Item>)
    requires w < |s.workers|
  {
    t.workers == s.workers[w := p] && t.manuals == s.manuals && t.most == s.most && t.queue == queue
  }

  lemma {:induction false} Drawn(s: Sys, w: nat, answers: seq<Answer>, batch: nat, i: nat) returns (t: Sys)
    requires w < |s.workers| && s.workers[w].Idle? && batch <= |answers| && i <= LinkerQueue.Taken(s.queue, batch)
    requires forall j :: 0 <= j < i ==> !answers[j].Raises?
    ensures Reaches(s, t)
    ensures Beside(s, t, w, Drawing(None, Returned(Popped(s.queue, i), answers, s.most), batch - i), s.queue[..|s.queue| - i])
  {
    hide Reaches, Returned, Popped;
    if i == 0 {
      Start(s);
      NothingPopped(s.queue, answers, s.most);
      Onward(s, s, Begin(w, batch));
      t := After(s, Begin(w, batch));
    } else {
      var u := Drawn(s, w, answers, batch, i - 1);
      PopOne(s.queue, answers, s.most, i - 1);
      var before := Returned(Popped(s.queue, i - 1), answers, s.most);
      assert u.queue[..|u.queue| - 1] == s.queue[..|s.queue| - i];
      Onward(s, u, Pop(w));
      var v := After(u, Pop(w));
      var next := Tried(s.queue[|s.queue| - i]);
      assert v.workers == s.workers[w := Drawing(Some(next), before, batch - i)];
      Onward(s, v, Judge(w, answers[i - 1]));
      t := After(v, Judge(w, answers[i - 1]));
      assert before + [] == before;
    }
  }

  lemma {:induction false} PutBackAll(s: Sys, t: Sys, w: nat, waiting: seq<Item>, j: nat) returns (u: Sys)
    requires w < |s.workers| && Reaches(s, t) && Beside(s, t, w, Returning(waiting), t.queue) && j <= |waiting|
    ensures Reaches(s, u) && Beside(s, u, w, Returning(waiting[j..]), Reversed(waiting[..j]) + t.queue)
  {
    hide Reaches;
    if j == 0 {
      u := t;
    } else {
      var v := PutBackAll(s, t, w, waiting, j - 1);
      Onward(s, v, PutBack(w));
      u := After(v, PutBack(w));
      assert waiting[..j][..j - 1] == waiting[..j - 1];
    }
  }

  /** A worker that nobody disturbs takes the queue to where the specification of a batch says. */
  lemma SoloBatch(s: Sys, w: nat, answers: seq<Answer>, batch: nat) returns (t: Sys)
    requires w < |s.workers| && s.workers[w].Idle? && batch <= |answers|
    requires forall j :: 0 <= j < LinkerQueue.Taken(s.queue, batch) ==> !answers[j].Raises?
    ensures Reaches(s, t) && Beside(s, t, w, Idle, AfterBatch(s.queue, answers, batch, s.most))
  {
    hide Reaches, Returned, Popped, Reversed;
    var k := LinkerQueue.Taken(s.queue, batch);
    var waiting := Returned(Popped(s.queue, k), answers, s.most);
    var u := Drawn(s, w, answers, batch, k);
    Onward(s, u, Stop(w));
    var v := PutBackAll(s, After(u, Stop(w)), w, waiting, |waiting|);
    assert waiting[|waiting|..] == [] && waiting[..|waiting|] == waiting;
    Onward(s, v, Finish(w));
    t := After(v, Finish(w));
  }

  lemma {:induction false} Consumed(s: Sys, m: nat, a: Id, b: Id, i: nat) returns (t: Sys)
    requires m !in s.manuals && i <= |s.queue|
    ensures Reaches(s, t) && t.manuals == s.manuals[m := Manual(a, b, s.queue[i..], None)]
    ensures t.queue == Untouched(s.queue[..i], a, b) + s.queue[i..] + Stripped(s.queue[..i], a, b)
  {
    hide Reaches, Touches, Kept, Lrem, Untouched, Stripped;
    if i == 0 {
      Start(s);
      Onward(s, s, Lrange(m, a, b));
      t := After(s, Lrange(m, a, b));
      NothingConsumed(s.queue, a, b);
      assert s.queue[0..] == s.queue;
    } else {
      var u := Consumed(s, m, a, b, i - 1);
      ConsumeTurn(s.queue, i - 1, a, b);
      assert s.queue[i - 1..][1..] == s.queue[i..];
      var raw := s.queue[i - 1];
      if Touches(raw, a, b) {
        Onward(s, u, LremNext(m));
        t := After(u, LremNext(m));
        if t.manuals[m].pushing.Some? {
          Onward(s, t, Rpush(m));
          t := After(t, Rpush(m));
        }
      } else {
        Onward(s, u, Pass(m));
        t := After(u, Pass(m));
      }
    }
  }

  /** A manual verdict that nobody disturbs leaves the queue as specified, and the pair is gone from it. */
  lemma SoloConsume(s: Sys, m: nat, a: Id, b: Id) returns (t: Sys)
    requires m !in s.manuals
    ensures Reaches(s, t) && t.queue == Untouched(s.queue, a, b) + Stripped(s.queue, a, b) && Gone(t, a, b)
    ensures t.manuals == s.manuals[m := Manual(a, b, [], None)]
  {
    hide Reaches, Touches, Untouched, Stripped;
    t := Consumed(s, m, a, b, |s.queue|);
    assert s.queue[..|s.queue|] == s.queue && s.queue[|s.queue|..] == [];
    ConsumedIsGone(t, s.queue, a, b);
  }

  // --- Two manual verdicts at once -------------------------------------------------------------

  const EMPTY := Ledger(multiset{}, multiset{}, multiset{}, multiset{}, multiset{}, multiset{})

  function Queued(queue: seq<Item>): Sys {
    Sys(3, queue, [], map[], EMPTY)
  }

  lemma Consumes(s: Sys, t: Sys, m: nat, raw: Item) returns (u: Sys)
    requires Reaches(s, t) && m in t.manuals && t.manuals[m].todo == [raw] && t.manuals[m].pushing.None?
    requires Touches(raw, t.manuals[m].source, t.manuals[m].candidate) && KeptOf(t.manuals[m], raw) != []
    ensures Reaches(s, u) && u.queue == Lrem(t.queue, raw) + [raw.(candidates := KeptOf(t.manuals[m], raw))]
    ensures u.manuals == t.manuals[m := t.manuals[m].(todo := [])]
  {
    hide Reaches, Touches, Lrem, Kept;
    assert [raw][1..] == [];
    Onward(s, t, LremNext(m));
    var v := After(t, LremNext(m));
    Onward(s, v, Rpush(m));
    u := After(v, Rpush(m));
  }

  lemma BothLook(s: Sys, a: Id, b: Id, c: Id) returns (t: Sys)
    requires s.manuals == map[]
    ensures Reaches(s, t) && t.queue == s.queue
    ensures t.manuals == map[0 := Manual(a, b, s.queue, None), 1 := Manual(a, c, s.queue, None)]
  {
    hide Reaches;
    Start(s);
    Onward(s, s, Lrange(0, a, b));
    var u := After(s, Lrange(0, a, b));
    Onward(s, u, Lrange(1, a, c));
    t := After(u, Lrange(1, a, c));
  }

  lemma TwoCandidates(two: Spec, three: Spec)
    requires two.id != three.id && two.id != 1 && three.id != 1
    ensures
      var raw := Item(1, [two, three], 0);
      && Touches(raw, 1, two.id) && Touches(raw, 1, three.id)
      && Kept(raw.candidates, Other(raw, 1, two.id)) == [three] && Kept(raw.candidates, Other(raw, 1, three.id)) == [two]
      && Lrem([raw], raw) == [] && Lrem([Item(1, [three], 0)], raw) == [Item(1, [three], 0)]
  {
    var raw, rest := Item(1, [two, three], 0), Item(1, [three], 0);
    assert [two, three][1..] == [three] && [three][1..] == [] && [raw][1..] == [];
    assert |rest.candidates| != |raw.candidates|;
    LremMultiset([rest], raw);
  }

  /** On two pairs of one item each puts back what the other took out, and both pairs are queued again. */
  lemma TwoVerdictsUndone(two: Spec, three: Spec) returns (t: Sys)
    requires two.id != three.id && two.id != 1 && three.id != 1
    ensures Reaches(Queued([Item(1, [two, three], 0)]), t) && t.queue == [Item(1, [three], 0), Item(1, [two], 0)]
    ensures t.manuals == map[0 := Manual(1, two.id, [], None), 1 := Manual(1, three.id, [], None)]
  {
    hide Reaches, Touches, Kept, Lrem;
    TwoCandidates(two, three);
    var raw := Item(1, [two, three], 0);
    var u := BothLook(Queued([raw]), 1, two.id, three.id);
    var v := Consumes(Queued([raw]), u, 0, raw);
    assert v.queue == [Item(1, [three], 0)];
    t := Consumes(Queued([raw]), v, 1, raw);
  }
}
