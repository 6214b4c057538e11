/**
 The rebuild lock of map_service.py: a Redis key set with NX and an expiry, taken
 by hourly workers that yield to it and by forced ones that poll for it, and
 deleted without looking by whoever leaves the rebuild. The Celery jobs have a hard time
 limit below the expiry; any worker may be killed at any moment.
 */
module RebuildLock {
  const TTL := 360.0
  const WAIT := 180.0
  const POLL := 5.0
  /** time_limit of layout_map. */
  const HARD_LIMIT := 300.0

  /** The key as Redis holds it. Its value is always "1": the serial number of the SET that made it is only for us to talk about. */
  datatype Key = Absent | Present(serial: nat, until: real)

  /** Where a worker's job is; `born` is when the job began. */
  datatype Phase =
    | Asked(force: bool, born: real)
    | Queued(born: real, deadline: real, wake: real)
    | Inside(born: real, serial: nat)

  /** Workers not in the map run no rebuild. */
  datatype Sys = Sys(now: real, key: Key, sets: nat, workers: map<nat, Phase>)

  datatype Event =
    | Start(w: nat, force: bool)
    | TrySet(w: nat)
    | Poll(w: nat)
    | Finish(w: nat)
    | Crash(w: nat)
    | Tick(d: real)

  /** Redis drops an expired key: SET NX sees it no longer. */
  predicate Locked(s: Sys) {
    s.key.Present? && s.now < s.key.until
  }

  predicate Holds(s: Sys, w: nat) {
    w in s.workers && s.workers[w].Inside?
  }

  /** Time passes only while every running job is within its hard limit: past it the job is killed. */
  ghost predicate Enabled(s: Sys, e: Event) {
    match e
    case Start(w, _) => w !in s.workers
    case TrySet(w) => w in s.workers && s.workers[w].Asked?
    case Poll(w) => w in s.workers && s.workers[w].Queued? && s.now >= s.workers[w].wake
    case Finish(w) => Holds(s, w)
    case Crash(w) => w in s.workers
    case Tick(d) => d >= 0.0 && forall w :: w in s.workers ==> s.now + d <= s.workers[w].born + HARD_LIMIT
  }

  function Entered(s: Sys, w: nat, born: real): Sys {
    s.(key := Present(s.sets, s.now + TTL), sets := s.sets + 1, workers := s.workers[w := Inside(born, s.sets)])
  }

  function Gone(s: Sys, w: nat): Sys {
    s.(workers := s.workers - {w})
  }

  function After(s: Sys, e: Event): Sys
    requires Enabled(s, e)
  {
    match e
    case Start(w, force) => s.(workers := s.workers[w := Asked(force, s.now)])
    case TrySet(w) =>
      var p := s.workers[w];
      if !Locked(s) then Entered(s, w, p.born)
      else if !p.force then Gone(s, w)
      else s.(workers := s.workers[w := Queued(p.born, s.now + WAIT, s.now + POLL)])
    case Poll(w) =>
      var p := s.workers[w];
      if !Locked(s) then Entered(s, w, p.born)
      else if s.now < p.deadline then s.(workers := s.workers[w := p.(wake := s.now + POLL)])
      else Gone(s, w)
    case Finish(w) => Gone(s, w).(key := Absent)
    case Crash(w) => Gone(s, w)
    case Tick(d) => s.(now := s.now + d)
  }

  ghost predicate Possible(s: Sys, run: seq<Event>)
    decreases |run|, 0
  {
    |run| == 0 || (Possible(s, run[..|run| - 1]) && Enabled(End(s, run[..|run| - 1]), run[|run| - 1]))
  }

  function End(s: Sys, run: seq<Event>): Sys
    requires Possible(s, run)
    decreases |run|, 1
  {
    if |run| == 0 then s else After(End(s, run[..|run| - 1]), run[|run| - 1])
  }

  /** Whoever is inside set the key that is there, which outlives its job. */
  ghost predicate Owned(s: Sys, w: nat)
    requires Holds(s, w)
  {
    && s.key.Present? && s.key.serial == s.workers[w].serial
    && s.workers[w].born + TTL <= s.key.until
  }

  ghost predicate Good(s: Sys) {
    && (forall w :: w in s.workers ==> s.workers[w].born <= s.now <= s.workers[w].born + HARD_LIMIT)
    && (forall w :: Holds(s, w) ==> Owned(s, w))
    && (forall v, w :: Holds(s, v) && Holds(s, w) ==> v == w)
    && (s.key.Present? ==> s.key.serial < s.sets && s.key.until <= s.now + TTL)
  }

  const IDLE := Sys(0.0, Absent, 0, map[])

  lemma HolderLocks(s: Sys, w: nat)
    requires Good(s) && Holds(s, w)
    ensures Locked(s)
  {
    assert Owned(s, w);
  }

  lemma GoodKept(s: Sys, e: Event)
    requires Good(s) && Enabled(s, e)
    ensures Good(After(s, e))
  {
    var t := After(s, e);
    forall w | Holds(s, w) ensures Locked(s) {
      HolderLocks(s, w);
    }
    if e.Finish? {
      assert Holds(s, e.w);
    }
    forall w | Holds(t, w) ensures Owned(t, w) {
      assert Holds(s, w) ==> Owned(s, w);
    }
    forall v, w | Holds(t, v) && Holds(t, w) ensures v == w {
      if Holds(s, v) && Holds(s, w) {
      } else {
        assert Holds(s, v) ==> Locked(s);
        assert Holds(s, w) ==> Locked(s);
        assert e.TrySet? || e.Poll?;
        assert !Locked(s);
      }
    }
  }

  /** In every run, at most one worker is inside the rebuild at any time, and the key is its own. */
  lemma {:induction false} EveryRun(run: seq<Event>)
    requires Possible(IDLE, run)
    ensures Good(End(IDLE, run))
  {
    if |run| > 0 {
      EveryRun(run[..|run| - 1]);
      GoodKept(End(IDLE, run[..|run| - 1]), run[|run| - 1]);
    }
  }

  lemma MutualExclusion(run: seq<Event>, v: nat, w: nat)
    requires Possible(IDLE, run)
    requires Holds(End(IDLE, run), v) && Holds(End(IDLE, run), w)
    ensures v == w
  {
    EveryRun(run);
  }

  /** The blind DELETE on leaving always removes the lock the leaver set: not another's, and not one that had expired. */
  lemma DeletesItsOwn(run: seq<Event>, w: nat)
    requires Possible(IDLE, run) && Enabled(End(IDLE, run), Finish(w))
    ensures
      var s := End(IDLE, run);
      Locked(s) && s.key.serial == s.workers[w].serial
  {
    EveryRun(run);
    HolderLocks(End(IDLE, run), w);
    assert Owned(End(IDLE, run), w);
  }

  /** Leaving frees the lock: whoever asks next, hourly or forced, gets in. */
  lemma LeavingLetsTheNextIn(run: seq<Event>, w: nat, v: nat)
    requires Possible(IDLE, run) && Enabled(End(IDLE, run), Finish(w))
    requires
      var t := After(End(IDLE, run), Finish(w));
      Enabled(t, TrySet(v)) || Enabled(t, Poll(v))
    ensures
      var t := After(End(IDLE, run), Finish(w));
      && (forall u :: !Holds(t, u))
      && Holds(After(t, if t.workers[v].Asked? then TrySet(v) else Poll(v)), v)
  {
    EveryRun(run);
    var s := End(IDLE, run);
    forall u ensures !Holds(After(s, Finish(w)), u) {
      assert Holds(s, u) && Holds(s, w) ==> u == w;
    }
  }

  /** While somebody is inside, an hourly worker leaves at once and a forced one waits, and neither touches the key. */
  lemma OthersStayOut(run: seq<Event>, w: nat, v: nat)
    requires Possible(IDLE, run) && Holds(End(IDLE, run), w) && Enabled(End(IDLE, run), TrySet(v))
    ensures
      var s := End(IDLE, run);
      var t := After(s, TrySet(v));
      t.key == s.key && Holds(t, w) && (v in t.workers <==> s.workers[v].force) && !Holds(t, v)
  {
    EveryRun(run);
    HolderLocks(End(IDLE, run), w);
  }

  /** A lock outlives by at most its expiry: whatever happens, TTL seconds later it is gone, or another SET has made a new one. */
  lemma {:induction false} LockFreesItself(s: Sys, run: seq<Event>)
    requires Good(s) && Possible(s, run)
    ensures
      var t := End(s, run);
      && s.sets <= t.sets && s.now <= t.now
      && (t.key.Present? && t.key.serial < s.sets ==> t.key.until <= s.now + TTL)
      && (t.now >= s.now + TTL && Locked(t) ==> t.key.serial >= s.sets)
  {
    if |run| > 0 {
      LockFreesItself(s, run[..|run| - 1]);
    }
  }

  // --- How long a forced worker waits ----------------------------------------------------

  /** Every forced worker that waits gives itself WAIT seconds from some moment after its job began. */
  ghost predicate Patient(s: Sys) {
    forall w :: w in s.workers && s.workers[w].Queued? ==> s.workers[w].born + WAIT <= s.workers[w].deadline
  }

  lemma {:induction false} EveryRunPatient(run: seq<Event>)
    requires Possible(IDLE, run)
    ensures Patient(End(IDLE, run))
  {
    if |run| > 0 {
      EveryRunPatient(run[..|run| - 1]);
      EveryRun(run[..|run| - 1]);
    }
  }

  /** The key is there, and will be after t. */
  ghost predicate Outlives(key: Key, t: real) {
    key.Present? && key.until > t
  }

  /**
   However a forced worker is scheduled, whenever it gets to poll: it gets in if and
   only if the key is free, and gives up if and only if it finds a key that outlives
   its deadline, with the deadline past; that is at least WAIT seconds after its job
   began. Until then it goes on waiting.
   */
  lemma ForcedGivesUpIff(run: seq<Event>, w: nat)
    requires Possible(IDLE, run) && Enabled(End(IDLE, run), Poll(w))
    ensures
      var s := End(IDLE, run);
      var t, p := After(s, Poll(w)), s.workers[w];
      && (Holds(t, w) <==> !Locked(s))
      && (w !in t.workers <==> s.now >= p.deadline && Locked(s))
      && (w !in t.workers ==> Outlives(s.key, p.deadline) && p.born + WAIT <= p.deadline && t.key == s.key)
      && (w in t.workers && !Holds(t, w) ==> t.workers[w].deadline == p.deadline && s.now < p.deadline)
  {
    EveryRunPatient(run);
  }

  /** A forced worker's job, polling `polls` times as soon as it wakes. */
  function ForcedRun(w: nat, polls: nat): seq<Event> {
    if polls == 0 then [Start(w, true), TrySet(w)] else ForcedRun(w, polls - 1) + [Tick(POLL), Poll(w)]
  }

  /** What a forced worker starting alone in s looks like after the given polls, all of them locked out. */
  function StillQueued(s: Sys, w: nat, polls: nat): Sys {
    var t := s.now + POLL * polls as real;
    s.(now := t, workers := map[w := Queued(s.now, s.now + WAIT, t + POLL)])
  }

  lemma AppendEvent(s: Sys, run: seq<Event>, e: Event)
    requires Possible(s, run) && Enabled(End(s, run), e)
    ensures Possible(s, run + [e]) && End(s, run + [e]) == After(End(s, run), e)
  {
    assert (run + [e])[..|run|] == run;
  }

  lemma TickAndPoll(s: Sys, run: seq<Event>, w: nat)
    requires Possible(s, run) && Enabled(End(s, run), Tick(POLL))
    requires Enabled(After(End(s, run), Tick(POLL)), Poll(w))
    ensures Possible(s, run + [Tick(POLL), Poll(w)])
    ensures End(s, run + [Tick(POLL), Poll(w)]) == After(After(End(s, run), Tick(POLL)), Poll(w))
  {
    AppendEvent(s, run, Tick(POLL));
    AppendEvent(s, run + [Tick(POLL)], Poll(w));
    assert run + [Tick(POLL)] + [Poll(w)] == run + [Tick(POLL), Poll(w)];
  }

  lemma ForcedStarts(s: Sys, w: nat)
    requires s.workers == map[] && Locked(s)
    ensures Possible(s, ForcedRun(w, 0)) && End(s, ForcedRun(w, 0)) == StillQueued(s, w, 0)
  {
    AppendEvent(s, [], Start(w, true));
    AppendEvent(s, [Start(w, true)], TrySet(w));
    assert [] + [Start(w, true)] == [Start(w, true)];
    assert [Start(w, true)] + [TrySet(w)] == ForcedRun(w, 0);
  }

  lemma {:induction false} LockedOut(s: Sys, w: nat, polls: nat)
    requires s.workers == map[] && Locked(s) && polls < 36 && s.now + POLL * polls as real < s.key.until
    ensures Possible(s, ForcedRun(w, polls)) && End(s, ForcedRun(w, polls)) == StillQueued(s, w, polls)
  {
    if polls == 0 {
      ForcedStarts(s, w);
    } else {
      LockedOut(s, w, polls - 1);
      TickAndPoll(s, ForcedRun(w, polls - 1), w);
    }
  }

  /** The poll at which a key expiring within the wait is first seen gone. */
  lemma FirstFreePoll(now: real, until: real, most: nat) returns (polls: nat)
    requires now < until <= now + POLL * most as real
    ensures 1 <= polls <= most && now + POLL * (polls - 1) as real < until <= now + POLL * polls as real
  {
    polls := 1;
    while now + POLL * polls as real < until
      invariant 1 <= polls <= most && now + POLL * (polls - 1) as real < until
      decreases most - polls
    {
      polls := polls + 1;
    }
  }

  /** A forced worker, alone and facing a key that nobody will delete, gets in if and only if the key expires within the wait;
   otherwise its 36th poll is its last and it leaves with the rebuild undone. */
  lemma LoneForceIff(s: Sys, w: nat)
    requires s.workers == map[] && Locked(s)
    ensures s.key.until <= s.now + WAIT ==>
      exists polls: nat :: polls <= 36 && Possible(s, ForcedRun(w, polls)) && Holds(End(s, ForcedRun(w, polls)), w)
    ensures s.key.until > s.now + WAIT ==>
      Possible(s, ForcedRun(w, 36)) && w !in End(s, ForcedRun(w, 36)).workers && Locked(End(s, ForcedRun(w, 36)))
  {
    var polls := 36;
    if s.key.until <= s.now + WAIT {
      polls := FirstFreePoll(s.now, s.key.until, 36);
    }
    LockedOut(s, w, polls - 1);
    TickAndPoll(s, ForcedRun(w, polls - 1), w);
    assert ForcedRun(w, polls) == ForcedRun(w, polls - 1) + [Tick(POLL), Poll(w)];
  }

  /** So a rebuild killed within its first TTL - WAIT seconds costs the next forced run, though nobody is rebuilding. */
  lemma KilledRebuildCostsAForcedRun(age: real, w: nat)
    requires 0.0 <= age < TTL - WAIT
    ensures
      var run := [Start(0, false), TrySet(0), Tick(age), Crash(0)];
      && Possible(IDLE, run) && End(IDLE, run).workers == map[]
      && Possible(End(IDLE, run), ForcedRun(w, 36)) && w !in End(End(IDLE, run), ForcedRun(w, 36)).workers
  {
    AppendEvent(IDLE, [], Start(0, false));
    AppendEvent(IDLE, [Start(0, false)], TrySet(0));
    AppendEvent(IDLE, [Start(0, false), TrySet(0)], Tick(age));
    AppendEvent(IDLE, [Start(0, false), TrySet(0), Tick(age)], Crash(0));
    assert [] + [Start(0, false)] == [Start(0, false)];
    assert [Start(0, false)] + [TrySet(0)] == [Start(0, false), TrySet(0)];
    assert [Start(0, false), TrySet(0)] + [Tick(age)] == [Start(0, false), TrySet(0), Tick(age)];
    assert [Start(0, false), TrySet(0), Tick(age)] + [Crash(0)] == [Start(0, false), TrySet(0), Tick(age), Crash(0)];
    LoneForceIff(End(IDLE, [Start(0, false), TrySet(0), Tick(age), Crash(0)]), w);
  }
}
