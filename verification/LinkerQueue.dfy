/**
 The queue of pairs awaiting a verdict in linker.py: a Redis list that items enter
 on the left and leave on the right, with the worker that drains it in batches and
 the manual verdict that takes one pair out of it.
 */
module LinkerQueue {
  import opened Options

  type Id = nat

  datatype Spec = Spec(id: Id, score: real)

  /** A queued item: a granule, its candidates, and how often it has been tried. */
  datatype Item = Item(granule: Id, candidates: seq<Spec>, attempts: nat)

  /** How _verdict_one ends: with verdicts, with a transport failure, or with any other exception. */
  datatype Answer = Judged | Requeue | Raises

  datatype Report = Report(ok: bool, processed: nat, requeued: nat, dropped: nat)

  function Reversed<T>(s: seq<T>): (r: seq<T>)
    ensures |r| == |s| && forall i :: 0 <= i < |s| ==> r[i] == s[|s| - 1 - i]
  {
    if |s| == 0 then [] else [s[|s| - 1]] + Reversed(s[..|s| - 1])
  }

  function Tried(item: Item): Item {
    item.(attempts := item.attempts + 1)
  }

  /** What goes back to the queue, in the order popped: the failed items with attempts left. */
  function Returned(popped: seq<Item>, answers: seq<Answer>, most: nat): seq<Item>
    requires |popped| <= |answers|
  {
    if |popped| == 0 then []
    else
      var last := |popped| - 1;
      Returned(popped[..last], answers, most) +
        if answers[last].Requeue? && popped[last].attempts + 1 < most then [Tried(popped[last])] else []
  }

  /** How many failed items had no attempts left. */
  function Dropped(popped: seq<Item>, answers: seq<Answer>, most: nat): nat
    requires |popped| <= |answers|
  {
    if |popped| == 0 then 0
    else
      var last := |popped| - 1;
      Dropped(popped[..last], answers, most) +
        if answers[last].Requeue? && popped[last].attempts + 1 >= most then 1 else 0
  }

  function Judgements(answers: seq<Answer>, k: nat): nat
    requires k <= |answers|
  {
    if k == 0 then 0 else Judgements(answers, k - 1) + if answers[k - 1].Judged? then 1 else 0
  }

  /** Everything popped is processed, goes back, or is dropped: nothing else, and nothing twice. */
  lemma {:induction false} Accounted(popped: seq<Item>, answers: seq<Answer>, most: nat)
    requires |popped| <= |answers| && forall i :: 0 <= i < |popped| ==> !answers[i].Raises?
    ensures Judgements(answers, |popped|) + |Returned(popped, answers, most)| + Dropped(popped, answers, most) == |popped|
  {
    if |popped| > 0 {
      Accounted(popped[..|popped| - 1], answers, most);
    }
  }

  /** The items a batch takes: from the right, until the batch is full or the queue empty. */
  function Taken(queue: seq<Item>, batch: nat): nat {
    if batch < |queue| then batch else |queue|
  }

  function Popped(queue: seq<Item>, k: nat): (p: seq<Item>)
    requires k <= |queue|
    ensures |p| == k && forall i :: 0 <= i < k ==> p[i] == queue[|queue| - 1 - i]
  {
    Reversed(queue[|queue| - k..])
  }

  /** The queue after a batch in which nothing was raised. */
  function AfterBatch(queue: seq<Item>, answers: seq<Answer>, batch: nat, most: nat): seq<Item>
    requires batch <= |answers|
  {
    var k := Taken(queue, batch);
    Reversed(Returned(Popped(queue, k), answers, most)) + queue[..|queue| - k]
  }

  /** The first of the first k items whose judging raises; k when none does. */
  function RaisedAt(answers: seq<Answer>, k: nat): (i: nat)
    requires k <= |answers|
    ensures i <= k && (i < k ==> answers[i].Raises?) && forall j :: 0 <= j < i ==> !answers[j].Raises?
  {
    if k == 0 then 0
    else
      var i := RaisedAt(answers, k - 1);
      if i < k - 1 || answers[k - 1].Raises? then i else k
  }

  lemma PopOne(was: seq<Item>, answers: seq<Answer>, most: nat, i: nat)
    requires i < |was| && i < |answers|
    ensures
      var next := was[|was| - 1 - i];
      && Popped(was, i + 1) == Popped(was, i) + [next]
      && Returned(Popped(was, i + 1), answers, most) == Returned(Popped(was, i), answers, most) +
           (if answers[i].Requeue? && next.attempts + 1 < most then [Tried(next)] else [])
      && Dropped(Popped(was, i + 1), answers, most) == Dropped(Popped(was, i), answers, most) +
           (if answers[i].Requeue? && next.attempts + 1 >= most then 1 else 0)
  {
    assert Popped(was, i + 1)[..i] == Popped(was, i);
  }

  // --- Taking a pair out --------------------------------------------------------------

  /** One verdict wanted: a granule, one of its candidates, and the tries of the item they are in. */
  datatype Want = Want(granule: Id, attempts: nat, spec: Spec)

  ghost function WantsOf(item: Item): multiset<Want>
    decreases |item.candidates|
  {
    if |item.candidates| == 0 then multiset{}
    else WantsOf(item.(candidates := item.candidates[1..])) + multiset{Want(item.granule, item.attempts, item.candidates[0])}
  }

  ghost function Wants(queue: seq<Item>): multiset<Want> {
    if |queue| == 0 then multiset{} else WantsOf(queue[0]) + Wants(queue[1..])
  }

  ghost predicate IsPair(t: Want, source: Id, candidate: Id) {
    (t.granule == source && t.spec.id == candidate) || (t.granule == candidate && t.spec.id == source)
  }

  function Other(item: Item, source: Id, candidate: Id): Id {
    if item.granule == source then candidate else source
  }

  function Kept(specs: seq<Spec>, other: Id): (kept: seq<Spec>)
    ensures |kept| <= |specs|
  {
    if |specs| == 0 then []
    else (if specs[0].id == other then [] else [specs[0]]) + Kept(specs[1..], other)
  }

  /** The item is of one of the two granules and names the other. */
  predicate Touches(item: Item, source: Id, candidate: Id) {
    (item.granule == source || item.granule == candidate)
    && |Kept(item.candidates, Other(item, source, candidate))| != |item.candidates|
  }

  function Touched(queue: seq<Item>, source: Id, candidate: Id): nat {
    if |queue| == 0 then 0 else (if Touches(queue[0], source, candidate) then 1 else 0) + Touched(queue[1..], source, candidate)
  }

  /** LREM key 1 raw: the first from the left, if any. */
  function Lrem(queue: seq<Item>, raw: Item): seq<Item> {
    if |queue| == 0 then [] else if queue[0] == raw then queue[1..] else [queue[0]] + Lrem(queue[1..], raw)
  }

  lemma HeadAndTail(s: seq<Item>)
    requires |s| > 0
    ensures multiset(s) == multiset(s[1..]) + multiset{s[0]}
  {
    assert s == [s[0]] + s[1..];
  }

  lemma {:induction false} LremMultiset(queue: seq<Item>, raw: Item)
    ensures raw !in queue ==> Lrem(queue, raw) == queue
    ensures raw in queue ==> multiset(queue) == multiset(Lrem(queue, raw)) + multiset{raw}
  {
    if |queue| > 0 {
      HeadAndTail(queue);
      if queue[0] != raw {
        LremMultiset(queue[1..], raw);
        HeadAndTail(Lrem(queue, raw));
        assert Lrem(queue, raw)[1..] == Lrem(queue[1..], raw);
      }
    }
  }

  lemma {:induction false} LremWants(queue: seq<Item>, raw: Item)
    requires raw in queue
    ensures Wants(queue) == Wants(Lrem(queue, raw)) + WantsOf(raw)
  {
    hide WantsOf;
    if queue[0] != raw {
      LremWants(queue[1..], raw);
      assert Lrem(queue, raw)[1..] == Lrem(queue[1..], raw);
    }
  }

  lemma LremExact(queue: seq<Item>, raw: Item)
    ensures raw !in queue ==> Lrem(queue, raw) == queue
    ensures raw in queue ==>
      multiset(queue) == multiset(Lrem(queue, raw)) + multiset{raw} && Wants(queue) == Wants(Lrem(queue, raw)) + WantsOf(raw)
  {
    LremMultiset(queue, raw);
    if raw in queue {
      LremWants(queue, raw);
    }
  }

  lemma {:induction false} WantsOfGranule(item: Item, t: Want)
    ensures t in WantsOf(item) ==> t.granule == item.granule
    decreases |item.candidates|
  {
    if |item.candidates| > 0 {
      WantsOfGranule(item.(candidates := item.candidates[1..]), t);
    }
  }

  /** Dropping a candidate drops the wants that name it and no others. */
  lemma {:induction false} KeptWants(item: Item, other: Id, t: Want)
    ensures WantsOf(item.(candidates := Kept(item.candidates, other)))[t] == if t.spec.id == other then 0 else WantsOf(item)[t]
    ensures |Kept(item.candidates, other)| == |item.candidates| && t.spec.id == other ==> WantsOf(item)[t] == 0
    decreases |item.candidates|
  {
    var specs := item.candidates;
    if |specs| > 0 {
      var rest := item.(candidates := specs[1..]);
      KeptWants(rest, other, t);
      if specs[0].id != other {
        assert Kept(specs, other)[1..] == Kept(specs[1..], other);
      } else {
        assert Kept(specs, other) == Kept(specs[1..], other);
      }
    }
  }

  /** What stripping a touched item leaves wanted; an untouched one wants nothing of the pair. */
  lemma PairWants(raw: Item, source: Id, candidate: Id, t: Want)
    ensures !Touches(raw, source, candidate) && IsPair(t, source, candidate) ==> WantsOf(raw)[t] == 0
    ensures Touches(raw, source, candidate) ==>
      WantsOf(raw.(candidates := Kept(raw.candidates, Other(raw, source, candidate))))[t] ==
        if IsPair(t, source, candidate) then 0 else WantsOf(raw)[t]
  {
    WantsOfGranule(raw, t);
    WantsOfGranule(raw.(candidates := Kept(raw.candidates, Other(raw, source, candidate))), t);
    KeptWants(raw, Other(raw, source, candidate), t);
  }

  lemma {:induction false} WantsAppend(queue: seq<Item>, item: Item)
    ensures Wants(queue + [item]) == Wants(queue) + WantsOf(item)
  {
    if |queue| > 0 {
      assert (queue + [item])[1..] == queue[1..] + [item];
      WantsAppend(queue[1..], item);
    } else {
      assert queue + [item] == [item];
    }
  }

  /** What consuming the pair does about one item of its snapshot, whatever the queue now is. */
  function ConsumeOne(queue: seq<Item>, raw: Item, source: Id, candidate: Id): seq<Item> {
    if !Touches(raw, source, candidate) then queue
    else
      var kept := Kept(raw.candidates, Other(raw, source, candidate));
      Lrem(queue, raw) + if kept == [] then [] else [raw.(candidates := kept)]
  }

  /** A touched item's other wants are unchanged by its removal if it was still there, and doubled if it was not. */
  lemma ConsumeOneExact(queue: seq<Item>, raw: Item, source: Id, candidate: Id, t: Want)
    requires Touches(raw, source, candidate)
    ensures
      var after := Wants(ConsumeOne(queue, raw, source, candidate))[t];
      if raw in queue then after + WantsOf(raw)[t] == Wants(queue)[t] + (if IsPair(t, source, candidate) then 0 else WantsOf(raw)[t])
      else after == Wants(queue)[t] + (if IsPair(t, source, candidate) then 0 else WantsOf(raw)[t])
  {
    var kept := Kept(raw.candidates, Other(raw, source, candidate));
    LremExact(queue, raw);
    PairWants(raw, source, candidate, t);
    if kept == [] {
      assert ConsumeOne(queue, raw, source, candidate) == Lrem(queue, raw);
      assert WantsOf(raw.(candidates := kept)) == multiset{};
    } else {
      WantsAppend(Lrem(queue, raw), raw.(candidates := kept));
    }
  }

  /** Between the LRANGE and the LREM another worker may have popped the item; LREM then finds nothing, and what is pushed
   back is pushed all the same. The other wants survive exactly if the item was still queued, or had no others. */
  lemma SiblingsKeptIff(queue: seq<Item>, raw: Item, source: Id, candidate: Id)
    requires Touches(raw, source, candidate)
    ensures (forall t: Want :: !IsPair(t, source, candidate) ==>
               Wants(ConsumeOne(queue, raw, source, candidate))[t] == Wants(queue)[t])
       <==> raw in queue || Kept(raw.candidates, Other(raw, source, candidate)) == []
  {
    hide Touches, IsPair, WantsOf, Lrem, Wants;
    forall t: Want | !IsPair(t, source, candidate)
      ensures Wants(ConsumeOne(queue, raw, source, candidate))[t] == Wants(queue)[t] + (if raw in queue then 0 else WantsOf(raw)[t])
    {
      ConsumeOneExact(queue, raw, source, candidate, t);
    }
    if Kept(raw.candidates, Other(raw, source, candidate)) == [] {
      forall t: Want | !IsPair(t, source, candidate) ensures WantsOf(raw)[t] == 0 {
        NothingKept(raw, source, candidate, t);
      }
    } else {
      var t := Sibling(raw, source, candidate);
    }
  }

  lemma NothingKept(raw: Item, source: Id, candidate: Id, t: Want)
    requires Touches(raw, source, candidate) && Kept(raw.candidates, Other(raw, source, candidate)) == []
    ensures !IsPair(t, source, candidate) ==> WantsOf(raw)[t] == 0
  {
    PairWants(raw, source, candidate, t);
  }

  lemma Sibling(raw: Item, source: Id, candidate: Id) returns (t: Want)
    requires Touches(raw, source, candidate) && Kept(raw.candidates, Other(raw, source, candidate)) != []
    ensures !IsPair(t, source, candidate) && WantsOf(raw)[t] > 0
  {
    var stripped := raw.(candidates := Kept(raw.candidates, Other(raw, source, candidate)));
    t := Want(raw.granule, raw.attempts, stripped.candidates[0]);
    assert WantsOf(stripped)[t] > 0;
    PairWants(raw, source, candidate, t);
  }

  /** The items that do not hold the pair. */
  function Untouched(queue: seq<Item>, source: Id, candidate: Id): (rest: seq<Item>)
    ensures forall item :: item in rest ==> !Touches(item, source, candidate)
  {
    if |queue| == 0 then []
    else
      var last := queue[|queue| - 1];
      Untouched(queue[..|queue| - 1], source, candidate) + if Touches(last, source, candidate) then [] else [last]
  }

  /** The items that do, without it; those left empty are gone. */
  function Stripped(queue: seq<Item>, source: Id, candidate: Id): seq<Item> {
    if |queue| == 0 then []
    else
      var last := queue[|queue| - 1];
      var kept := Kept(last.candidates, Other(last, source, candidate));
      Stripped(queue[..|queue| - 1], source, candidate) +
        if Touches(last, source, candidate) && kept != [] then [last.(candidates := kept)] else []
  }

  lemma {:induction false} LremAfter(front: seq<Item>, raw: Item, back: seq<Item>)
    requires raw !in front
    ensures Lrem(front + [raw] + back, raw) == front + back
  {
    var all := front + [raw] + back;
    if |front| == 0 {
      assert all[1..] == back;
    } else {
      assert all[1..] == front[1..] + [raw] + back;
      LremAfter(front[1..], raw, back);
    }
  }

  lemma TurnParts(whole: seq<Item>, i: nat, source: Id, candidate: Id)
    requires i < |whole|
    ensures
      var raw := whole[i];
      var kept := Kept(raw.candidates, Other(raw, source, candidate));
      && Untouched(whole[..i + 1], source, candidate)
         == Untouched(whole[..i], source, candidate) + (if Touches(raw, source, candidate) then [] else [raw])
      && Stripped(whole[..i + 1], source, candidate)
         == Stripped(whole[..i], source, candidate) +
            (if Touches(raw, source, candidate) && kept != [] then [raw.(candidates := kept)] else [])
      && whole[i..] == [raw] + whole[i + 1..]
  {
    hide Touches, Kept;
    assert whole[..i + 1][..i] == whole[..i];
  }

  lemma Regrouped(u: seq<Item>, raw: Item, rest: seq<Item>, t: seq<Item>, more: seq<Item>)
    ensures u + ([raw] + rest) + t == u + [raw] + (rest + t) == u + [raw] + rest + t
    ensures u + (rest + t) + more == u + [] + rest + (t + more)
  {
  }

  /** One turn of the consuming loop: LREM finds the item where the snapshot has it. */
  lemma ConsumeTurn(whole: seq<Item>, i: nat, source: Id, candidate: Id)
    requires i < |whole|
    ensures
      var queue := Untouched(whole[..i], source, candidate) + whole[i..] + Stripped(whole[..i], source, candidate);
      ConsumeOne(queue, whole[i], source, candidate)
        == Untouched(whole[..i + 1], source, candidate) + whole[i + 1..] + Stripped(whole[..i + 1], source, candidate)
  {
    var raw, rest := whole[i], whole[i + 1..];
    var u, t := Untouched(whole[..i], source, candidate), Stripped(whole[..i], source, candidate);
    var kept := Kept(raw.candidates, Other(raw, source, candidate));
    var more := if kept == [] then [] else [raw.(candidates := kept)];
    TurnParts(whole, i, source, candidate);
    Regrouped(u, raw, rest, t, more);
    hide Untouched, Stripped, Touches, Kept, Lrem;
    if Touches(raw, source, candidate) {
      LremAfter(u, raw, rest + t);
    } else {
      assert t + [] == t;
    }
  }

  lemma UntouchedLast(queue: seq<Item>, source: Id, candidate: Id)
    requires |queue| > 0
    ensures
      var front, last := queue[..|queue| - 1], queue[|queue| - 1];
      Wants(Untouched(queue, source, candidate)) == Wants(Untouched(front, source, candidate)) +
        if Touches(last, source, candidate) then multiset{} else WantsOf(last)
  {
    hide Touches, WantsOf;
    var rest := Untouched(queue[..|queue| - 1], source, candidate);
    assert rest + [] == rest;
    WantsAppend(rest, queue[|queue| - 1]);
  }

  lemma StrippedLast(queue: seq<Item>, source: Id, candidate: Id)
    requires |queue| > 0
    ensures
      var front, last := queue[..|queue| - 1], queue[|queue| - 1];
      var kept := last.(candidates := Kept(last.candidates, Other(last, source, candidate)));
      Wants(Stripped(queue, source, candidate)) == Wants(Stripped(front, source, candidate)) +
        if Touches(last, source, candidate) then WantsOf(kept) else multiset{}
  {
    hide Touches, Kept;
    var last := queue[|queue| - 1];
    var kept := last.(candidates := Kept(last.candidates, Other(last, source, candidate)));
    var rest := Stripped(queue[..|queue| - 1], source, candidate);
    assert rest + [] == rest;
    WantsAppend(rest, kept);
    assert kept.candidates == [] ==> WantsOf(kept) == multiset{};
  }

  lemma {:induction false} PairCount(queue: seq<Item>, source: Id, candidate: Id, t: Want)
    ensures Wants(Untouched(queue, source, candidate))[t] + Wants(Stripped(queue, source, candidate))[t]
      == if IsPair(t, source, candidate) then 0 else Wants(queue)[t]
  {
    if |queue| > 0 {
      var front, last := queue[..|queue| - 1], queue[|queue| - 1];
      PairCount(front, source, candidate, t);
      PairWants(last, source, candidate, t);
      assert queue == front + [last];
      WantsAppend(front, last);
      UntouchedLast(queue, source, candidate);
      StrippedLast(queue, source, candidate);
      hide Touches, Kept, IsPair, WantsOf, Wants, Untouched, Stripped;
    }
  }

  /** Consuming the pair takes its wants, in both directions, and keeps every other as often as before. */
  lemma PairGone(queue: seq<Item>, source: Id, candidate: Id, t: Want)
    ensures Wants(Untouched(queue, source, candidate) + Stripped(queue, source, candidate))[t]
      == if IsPair(t, source, candidate) then 0 else Wants(queue)[t]
  {
    PairCount(queue, source, candidate, t);
    hide Untouched, Stripped, Wants, IsPair;
    WantsOfBoth(Untouched(queue, source, candidate), Stripped(queue, source, candidate));
  }

  lemma {:induction false} WantsOfBoth(a: seq<Item>, b: seq<Item>)
    ensures Wants(a + b) == Wants(a) + Wants(b)
  {
    if |a| == 0 {
      assert a + b == b;
    } else {
      assert (a + b)[1..] == a[1..] + b;
      WantsOfBoth(a[1..], b);
    }
  }

  class L2Queue {
    var items: seq<Item>

    constructor ()
      ensures items == []
    {
      items := [];
    }

    /** _consume_l2_pair, nobody else touching the queue meanwhile: the items without the pair keep their order, those with it
     follow on the right, among the oldest, without it. */
    method ConsumePair(source: Id, candidate: Id) returns (updated: nat)
      modifies this
      ensures items == Untouched(old(items), source, candidate) + Stripped(old(items), source, candidate)
      ensures updated == Touched(old(items), source, candidate)
    {
      hide Lrem, Kept, Touches, Untouched, Stripped;
      var snapshot := items;
      updated := 0;
      assert snapshot[0..] == snapshot;
      NothingConsumed(snapshot, source, candidate);
      for i := 0 to |snapshot|
        invariant items == Untouched(snapshot[..i], source, candidate) + snapshot[i..] + Stripped(snapshot[..i], source, candidate)
        invariant updated + Touched(snapshot[i..], source, candidate) == Touched(snapshot, source, candidate)
      {
        ConsumeTurn(snapshot, i, source, candidate);
        assert snapshot[i..][1..] == snapshot[i + 1..];
        var raw := snapshot[i];
        if Touches(raw, source, candidate) {
          var kept := Kept(raw.candidates, Other(raw, source, candidate));
          items := Lrem(items, raw);
          if kept != [] {
            items := items + [raw.(candidates := kept)];
          }
          updated := updated + 1;
        }
      }
      assert snapshot[..|snapshot|] == snapshot;
    }

    /** The popping loop. An exception leaves it at once. */
    method PopBatch(answers: seq<Answer>, batch: nat, most: nat)
      returns (popped: nat, raised: bool, processed: nat, dropped: nat, requeued: seq<Item>)
      requires batch <= |answers|
      modifies this
      ensures
        var k := Taken(old(items), batch);
        && raised == (RaisedAt(answers, k) < k)
        && popped == (if raised then RaisedAt(answers, k) + 1 else k)
        && items == old(items)[..|old(items)| - popped]
      ensures !raised ==>
        && requeued == Returned(Popped(old(items), popped), answers, most)
        && dropped == Dropped(Popped(old(items), popped), answers, most)
        && processed == Judgements(answers, popped)
    {
      hide Returned, Dropped, Popped;
      popped, raised, processed, dropped, requeued := 0, false, 0, 0, [];
      ghost var was := items;
      ghost var k := Taken(was, batch);
      assert requeued == Returned(Popped(was, 0), answers, most) && dropped == Dropped(Popped(was, 0), answers, most) by {
        NothingPopped(was, answers, most);
      }
      while popped < batch && items != []
        invariant 0 <= popped <= k
        invariant items == was[..|was| - popped]
        invariant forall j :: 0 <= j < popped ==> !answers[j].Raises?
        invariant requeued == Returned(Popped(was, popped), answers, most)
        invariant dropped == Dropped(Popped(was, popped), answers, most)
        invariant processed == Judgements(answers, popped)
      {
        var item := Tried(items[|items| - 1]);
        PopOne(was, answers, most, popped);
        items := items[..|items| - 1];
        var answer := answers[popped];
        popped := popped + 1;
        if answer.Raises? {
          raised := true;
          return;
        } else if answer.Judged? {
          processed := processed + 1;
        } else if item.attempts < most {
          requeued := requeued + [item];
        } else {
          dropped := dropped + 1;
        }
      }
    }

    /** for payload in requeued_items: lpush; the exception of a failing LPUSH, after `pushes` of them, ends it. */
    method PutBack(requeued: seq<Item>, pushes: nat) returns (raised: bool)
      modifies this
      ensures raised == (pushes < |requeued|)
      ensures items == Reversed(requeued[..if raised then pushes else |requeued|]) + old(items)
    {
      ghost var rest := items;
      for j := 0 to |requeued|
        invariant j <= pushes && items == Reversed(requeued[..j]) + rest
      {
        if j == pushes {
          return true;
        }
        assert requeued[..j + 1][..j] == requeued[..j];
        items := [requeued[j]] + items;
      }
      raised := false;
    }

    /** run_l2_verdicts with an LLM configured; answers[i] is how the i-th item popped ends, and the RPOP after `pops` of them and
     the LPUSH after `pushes` of them fail. A failing RPOP ends the batch early. When judging raises, the items popped so far are
     gone, those waiting to go back included; when an LPUSH does, those not yet put back are. */
    method RunL2Verdicts(answers: seq<Answer>, batch: nat, most: nat, pops: nat, pushes: nat) returns (report: Report)
      requires batch <= |answers|
      modifies this
      ensures
        var was := old(items);
        var k := Taken(was, if pops < batch then pops else batch);
        var i := RaisedAt(answers, k);
        var back := Returned(Popped(was, k), answers, most);
        if i < k then !report.ok && items == was[..|was| - i - 1]
        else if pushes < |back| then !report.ok && items == Reversed(back[..pushes]) + was[..|was| - k]
        else
          && report.ok && report.processed + report.requeued + report.dropped == k
          && report.processed == Judgements(answers, k) && report.requeued == |back|
          && items == AfterBatch(was, answers, if pops < batch then pops else batch, most)
    {
      hide Returned, Dropped, Popped, Reversed, Judgements;
      ghost var was := items;
      var limit := if pops < batch then pops else batch;
      var popped, raised, processed, dropped, requeued := PopBatch(answers, limit, most);
      if raised {
        return Report(false, 0, 0, 0);
      }
      Accounted(Popped(was, popped), answers, most);
      raised := PutBack(requeued, pushes);
      if raised {
        return Report(false, 0, 0, 0);
      }
      assert requeued[..|requeued|] == requeued;
      report := Report(true, processed, |requeued|, dropped);
    }
  }

  lemma NothingConsumed(queue: seq<Item>, source: Id, candidate: Id)
    ensures Untouched(queue[..0], source, candidate) == [] && Stripped(queue[..0], source, candidate) == []
  {
  }

  lemma NothingPopped(was: seq<Item>, answers: seq<Answer>, most: nat)
    ensures Returned(Popped(was, 0), answers, most) == [] && Dropped(Popped(was, 0), answers, most) == 0
  {
  }

  // --- A permanently failing LLM drains the queue ----------------------------------------

  /** How many more times an item can be popped before it is dropped. */
  function Left(item: Item, most: nat): nat {
    if item.attempts + 1 < most then most - item.attempts else 1
  }

  function Measure(queue: seq<Item>, most: nat): nat {
    if |queue| == 0 then 0 else Measure(queue[..|queue| - 1], most) + Left(queue[|queue| - 1], most)
  }

  lemma {:induction false} MeasureOfBoth(a: seq<Item>, b: seq<Item>, most: nat)
    ensures Measure(a + b, most) == Measure(a, most) + Measure(b, most)
  {
    if |b| == 0 {
      assert a + b == a;
    } else {
      assert (a + b)[..|a + b| - 1] == a + b[..|b| - 1];
      MeasureOfBoth(a, b[..|b| - 1], most);
    }
  }

  lemma {:induction false} MeasureReversed(s: seq<Item>, most: nat)
    ensures Measure(Reversed(s), most) == Measure(s, most)
  {
    if |s| > 0 {
      MeasureReversed(s[..|s| - 1], most);
      MeasureOfBoth([s[|s| - 1]], Reversed(s[..|s| - 1]), most);
      assert Measure([s[|s| - 1]], most) == Left(s[|s| - 1], most) by {
        assert [s[|s| - 1]][..0] == [];
      }
    }
  }

  lemma MeasureOfOne(item: Item, most: nat)
    ensures Measure([item], most) == Left(item, most)
  {
    assert [item][..0] == [];
  }

  /** Every try of a failing item brings it one nearer to being dropped. */
  lemma {:induction false} FailuresCount(popped: seq<Item>, answers: seq<Answer>, most: nat)
    requires |popped| <= |answers| && forall i :: 0 <= i < |popped| ==> answers[i].Requeue?
    ensures Measure(Returned(popped, answers, most), most) + |popped| == Measure(popped, most)
  {
    if |popped| > 0 {
      var last := |popped| - 1;
      FailuresCount(popped[..last], answers, most);
      var item := Tried(popped[last]);
      var before := Returned(popped[..last], answers, most);
      if popped[last].attempts + 1 < most {
        assert Returned(popped, answers, most) == before + [item];
        MeasureOfBoth(before, [item], most);
        MeasureOfOne(item, most);
      } else {
        assert Returned(popped, answers, most) == before;
      }
    }
  }

  function Failing(batch: nat): (answers: seq<Answer>)
    ensures |answers| == batch && forall i :: 0 <= i < batch ==> answers[i].Requeue?
  {
    seq(batch, _ => Requeue)
  }

  /** A batch in which the LLM answers nothing uses up exactly as many tries as it pops. */
  lemma FailingBatch(queue: seq<Item>, batch: nat, most: nat)
    ensures Measure(AfterBatch(queue, Failing(batch), batch, most), most) + Taken(queue, batch) == Measure(queue, most)
  {
    var k := Taken(queue, batch);
    var popped := Popped(queue, k);
    FailuresCount(popped, Failing(batch), most);
    MeasureReversed(Returned(popped, Failing(batch), most), most);
    MeasureOfBoth(Reversed(Returned(popped, Failing(batch), most)), queue[..|queue| - k], most);
    MeasureReversed(queue[|queue| - k..], most);
    assert queue == queue[..|queue| - k] + queue[|queue| - k..];
    MeasureOfBoth(queue[..|queue| - k], queue[|queue| - k..], most);
  }

  lemma {:induction false} MeasureAtLeastLength(queue: seq<Item>, most: nat)
    ensures |queue| <= Measure(queue, most)
  {
    if |queue| > 0 {
      MeasureAtLeastLength(queue[..|queue| - 1], most);
    }
  }

  function FailingRuns(queue: seq<Item>, batch: nat, most: nat, runs: nat): seq<Item> {
    if runs == 0 then queue else AfterBatch(FailingRuns(queue, batch, most, runs - 1), Failing(batch), batch, most)
  }

  /** With an LLM that always fails and nothing pushed, the queue is empty after at most as many runs as it has tries left. */
  lemma {:induction false} QueueDrains(queue: seq<Item>, batch: nat, most: nat, runs: nat)
    requires batch > 0
    ensures Measure(FailingRuns(queue, batch, most, runs), most) + runs <= Measure(queue, most) || FailingRuns(queue, batch, most, runs) == []
    ensures runs >= Measure(queue, most) ==> FailingRuns(queue, batch, most, runs) == []
  {
    hide AfterBatch;
    if runs > 0 {
      QueueDrains(queue, batch, most, runs - 1);
      FailingBatch(FailingRuns(queue, batch, most, runs - 1), batch, most);
    }
    MeasureAtLeastLength(FailingRuns(queue, batch, most, runs), most);
  }

  // --- The verdict cache --------------------------------------------------------------

  datatype CacheKey = CacheKey(lo: Id, hi: Id, loHash: string, hiHash: string)

  /** content_hash or "-" */
  function HashOrDash(hash: Option<string>): string {
    if hash.None? || hash.value == "" then "-" else hash.value
  }

  /** The pair sorted by id, each hash staying with its id. */
  function VerdictCacheKey(a: Id, b: Id, aHash: Option<string>, bHash: Option<string>): CacheKey {
    if b < a then CacheKey(b, a, HashOrDash(bHash), HashOrDash(aHash)) else CacheKey(a, b, HashOrDash(aHash), HashOrDash(bHash))
  }

  /** The contents count as the same: one hash, or none on either side, an empty one counting as none; a hash "-" is told apart from none by nobody. */
  predicate SameContent(a: Option<string>, b: Option<string>) {
    var known, other := a.Some? && a.value != "" && a.value != "-", b.Some? && b.value != "" && b.value != "-";
    known == other && (known ==> a == b)
  }

  lemma ContentIff(a: Option<string>, b: Option<string>)
    ensures HashOrDash(a) == HashOrDash(b) <==> SameContent(a, b)
  {
  }

  /** Two lookups share an entry exactly when they are of the same two granules with the same contents, in either order. */
  lemma SharedVerdictIff(a: Id, b: Id, aHash: Option<string>, bHash: Option<string>, c: Id, d: Id, cHash: Option<string>, dHash: Option<string>)
    requires a != b
    ensures VerdictCacheKey(a, b, aHash, bHash) == VerdictCacheKey(c, d, cHash, dHash) <==>
      || (a == c && b == d && SameContent(aHash, cHash) && SameContent(bHash, dHash))
      || (a == d && b == c && SameContent(aHash, dHash) && SameContent(bHash, cHash))
  {
    ContentIff(aHash, cHash);
    ContentIff(bHash, dHash);
    ContentIff(aHash, dHash);
    ContentIff(bHash, cHash);
    hide HashOrDash, SameContent;
  }
}
