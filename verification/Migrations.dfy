/**
 migrations/run.py: any number of workers starting at once, each listing the
 pending files before it has the advisory lock and looking again after, each file
 committed in a transaction of its own. Files fail, connections drop.
 */
module Migrations {
  import opened Options
  import opened Sorting

  /** File names, by their place in the alphabetical order. */
  type File = nat

  datatype Phase =
    | Listed(files: seq<File>)
    | Locked(files: seq<File>)
    | Applying(files: seq<File>)
    | GoingDown(last: File)

  /** `applied` is the _migrations table, `log` every commit since the start, `lock` the session holding the advisory lock. */
  datatype Sys = Sys(dir: set<File>, applied: set<File>, log: seq<File>, lock: Option<nat>, workers: map<nat, Phase>)

  datatype Event =
    | List(w: nat, files: seq<File>)
    | Acquire(w: nat)
    | Recheck(w: nat)
    | Commit(w: nat)
    | Fail(w: nat)
    | Crash(w: nat)
    | ReadLast(w: nat, last: File)
    | RollBack(w: nat)

  /** [f for f in files if f not in applied] */
  function Without(files: seq<File>, applied: set<File>): (rest: seq<File>)
    ensures forall f :: f in rest <==> f in files && f !in applied
  {
    if files == [] then []
    else (if files[0] in applied then [] else [files[0]]) + Without(files[1..], applied)
  }

  lemma {:induction false} WithoutAscends(files: seq<File>, applied: set<File>)
    requires Ascending(files)
    ensures Ascending(Without(files, applied))
  {
    if files != [] {
      WithoutAscends(files[1..], applied);
      var rest := Without(files[1..], applied);
      forall i | 0 <= i < |rest| ensures files[0] < rest[i] {
        assert rest[i] in files[1..];
      }
    }
  }

  /** sorted(f for f in os.listdir(...) if f not in applied) */
  ghost predicate IsPending(s: Sys, files: seq<File>) {
    Ascending(files) && forall f :: f in files <==> f in s.dir && f !in s.applied
  }

  predicate In(s: Sys, w: nat, holding: bool) {
    w in s.workers && !s.workers[w].GoingDown? && (holding <==> !s.workers[w].Listed?)
  }

  ghost predicate Enabled(s: Sys, e: Event) {
    match e
    case List(w, files) => w !in s.workers && IsPending(s, files)
    case Acquire(w) => In(s, w, false) && s.lock.None?
    case Recheck(w) => In(s, w, true) && s.workers[w].Locked?
    case Commit(w) => In(s, w, true) && s.workers[w].Applying? && s.workers[w].files != [] && s.workers[w].files[0] !in s.applied
    case Fail(w) => In(s, w, true) && s.workers[w].Applying?
    case Crash(w) => w in s.workers
    case ReadLast(w, last) => w !in s.workers && last in s.applied && forall f :: f in s.applied ==> f <= last
    case RollBack(w) => w in s.workers && s.workers[w].GoingDown?
  }

  /** The worker's session ends, and with it its lock. */
  function Ended(s: Sys, w: nat): Sys {
    s.(workers := s.workers - {w}, lock := if s.lock == Some(w) then None else s.lock)
  }

  function After(s: Sys, e: Event): Sys
    requires Enabled(s, e)
  {
    match e
    case List(w, files) => if files == [] then s else s.(workers := s.workers[w := Listed(files)])
    case Acquire(w) => s.(lock := Some(w), workers := s.workers[w := Locked(s.workers[w].files)])
    case Recheck(w) =>
      var files := Without(s.workers[w].files, s.applied);
      if files == [] then Ended(s, w) else s.(workers := s.workers[w := Applying(files)])
    case Commit(w) =>
      var files := s.workers[w].files;
      var done := s.(applied := s.applied + {files[0]}, log := s.log + [files[0]]);
      if |files| == 1 then Ended(done, w) else done.(workers := s.workers[w := Applying(files[1..])])
    case Fail(w) => Ended(s, w)
    case Crash(w) => Ended(s, w)
    case ReadLast(w, last) => s.(workers := s.workers[w := GoingDown(last)])
    case RollBack(w) => Ended(s.(applied := s.applied - {s.workers[w].last}), w)
  }

  /** Steps of run_migrations; run_down, which takes no lock, is the other two. */
  predicate Upward(e: Event) {
    !e.ReadLast? && !e.RollBack?
  }

  ghost predicate Possible(s: Sys, run: seq<Event>)
    decreases |run|, 0
  {
    |run| == 0 || (Possible(s, run[..|run| - 1]) && Enabled(End(s, run[..|run| - 1]), run[|run| - 1]))
  }

  function End(s: Sys, run: seq<Event>): Sys
    requires Possible(s, run)
    decreases |run|, 1
  {
    if |run| == 0 then s else After(End(s, run[..|run| - 1]), run[|run| - 1])
  }

  /** No applied file has an unapplied one before it. */
  ghost predicate Prefix(dir: set<File>, applied: set<File>) {
    forall f, g :: f in dir && g in dir && f < g && g in applied ==> f in applied
  }

  ghost predicate Distinct(log: seq<File>) {
    forall i, j :: 0 <= i < j < |log| ==> log[i] != log[j]
  }

  /** What a worker knows: before the re-check, a superset of what is pending; after it, exactly that, while it holds the lock. */
  ghost predicate Informed(s: Sys, w: nat)
    requires w in s.workers
  {
    match s.workers[w]
    case Listed(files) => Ascending(files) && (forall f :: f in files ==> f in s.dir) && forall f :: f in s.dir && f !in s.applied ==> f in files
    case Locked(files) =>
      s.lock == Some(w) && Ascending(files) && (forall f :: f in files ==> f in s.dir) && forall f :: f in s.dir && f !in s.applied ==> f in files
    case Applying(files) => s.lock == Some(w) && files != [] && IsPending(s, files)
    case GoingDown(_) => false
  }

  ghost predicate Good(s: Sys, before: set<File>) {
    && (forall w :: w in s.workers ==> Informed(s, w))
    && Distinct(s.log)
    && (forall f :: f in s.applied <==> f in before || f in s.log)
    && (forall i :: 0 <= i < |s.log| ==> s.log[i] in s.dir && s.log[i] !in before)
  }

  ghost predicate Start(s: Sys) {
    s.log == [] && s.lock.None? && s.workers == map[]
  }

  lemma CommitKeeps(s: Sys, before: set<File>, w: nat)
    requires Good(s, before) && Enabled(s, Commit(w))
    ensures Good(After(s, Commit(w)), before)
    ensures Prefix(s.dir, s.applied) ==> Prefix(s.dir, After(s, Commit(w)).applied)
  {
    var t := After(s, Commit(w));
    var files := s.workers[w].files;
    assert Informed(s, w);
    var head := files[0];
    assert head in files;
    forall h | h in files ensures head <= h {
    }
    forall v | v in t.workers ensures Informed(t, v) {
      assert Informed(s, v);
      if v == w {
        forall f ensures f in files[1..] <==> f in t.dir && f !in t.applied {
          assert files == [files[0]] + files[1..];
          assert f in files[1..] ==> f != files[0];
        }
      }
    }
    forall f, g | f in s.dir && g in s.dir && f < g && g in t.applied && Prefix(s.dir, s.applied) ensures f in t.applied {
      assert f in s.applied || f in files;
    }
  }

  lemma GoodKept(s: Sys, before: set<File>, e: Event)
    requires Good(s, before) && Enabled(s, e) && Upward(e)
    ensures Good(After(s, e), before) && After(s, e).dir == s.dir
    ensures Prefix(s.dir, s.applied) ==> Prefix(s.dir, After(s, e).applied)
  {
    if e.Commit? {
      CommitKeeps(s, before, e.w);
    } else {
      var t := After(s, e);
      if e.Recheck? {
        assert Informed(s, e.w);
        WithoutAscends(s.workers[e.w].files, s.applied);
      }
      forall v | v in t.workers ensures Informed(t, v) {
        assert v in s.workers ==> Informed(s, v);
      }
    }
  }

  /** Whatever workers interleave, fail or crash: no file is committed twice, and files are committed in order, so that
   what is applied stays a prefix of the sorted directory if it was one. */
  lemma {:induction false} EveryRun(s: Sys, run: seq<Event>)
    requires Start(s) && Possible(s, run) && forall i :: 0 <= i < |run| ==> Upward(run[i])
    ensures
      var t := End(s, run);
      && Good(t, s.applied) && t.dir == s.dir
      && (Prefix(s.dir, s.applied) ==> Prefix(s.dir, t.applied))
  {
    if |run| > 0 {
      EveryRun(s, run[..|run| - 1]);
      GoodKept(End(s, run[..|run| - 1]), s.applied, run[|run| - 1]);
    }
  }

  /** At most one worker applies files at a time, and the insert into _migrations never meets the file already there. */
  lemma OneApplier(s: Sys, run: seq<Event>, v: nat, w: nat)
    requires Start(s) && Possible(s, run) && forall i :: 0 <= i < |run| ==> Upward(run[i])
    requires
      var t := End(s, run);
      v in t.workers && t.workers[v].Applying? && w in t.workers && t.workers[w].Applying?
    ensures v == w && forall f :: f in End(s, run).workers[w].files ==> f !in End(s, run).applied
  {
    EveryRun(s, run);
    var t := End(s, run);
    assert Informed(t, v) && Informed(t, w);
  }

  /** The worker found or left nothing to do: it returned instead of failing. */
  ghost predicate Returns(s: Sys, e: Event)
    requires Enabled(s, e)
  {
    || (e.List? && e.files == [])
    || (e.Recheck? && Without(s.workers[e.w].files, s.applied) == [])
    || (e.Commit? && |s.workers[e.w].files| == 1)
  }

  /** A worker that returns leaves every file of the directory applied. */
  lemma ReturnMeansDone(s: Sys, run: seq<Event>, e: Event)
    requires Start(s) && Possible(s, run) && forall i :: 0 <= i < |run| ==> Upward(run[i])
    requires Enabled(End(s, run), e) && Returns(End(s, run), e)
    ensures s.dir <= After(End(s, run), e).applied
  {
    EveryRun(s, run);
    var t := End(s, run);
    if !e.List? {
      assert Informed(t, e.w);
    }
    forall f | f in s.dir ensures f in After(t, e).applied {
      if e.Commit? && f !in t.applied {
        var files := t.workers[e.w].files;
        assert f in files;
        assert files == [files[0]];
      }
    }
  }

  // --- run_down ------------------------------------------------------------------------

  lemma AppendEvent(s: Sys, run: seq<Event>, e: Event)
    requires Possible(s, run) && Enabled(End(s, run), e)
    ensures Possible(s, run + [e]) && End(s, run + [e]) == After(End(s, run), e)
  {
    assert (run + [e])[..|run|] == run;
  }

  function FilesOf(p: Phase): seq<File> {
    if p.GoingDown? then [] else p.files
  }

  ghost predicate Pending(s: Sys, f: File) {
    f in s.dir && f !in s.applied
  }

  /** Every worker going up knows at least what is pending; others may be going down. */
  ghost predicate UpInformed(s: Sys) {
    && (forall w :: w in s.workers && !s.workers[w].GoingDown? ==> Informed(s, w))
    && (s.lock.Some? ==> s.lock.value in s.workers && !s.workers[s.lock.value].GoingDown? && !s.workers[s.lock.value].Listed?)
  }

  lemma ApplyingOn(s: Sys, w: nat)
    requires UpInformed(s) && Enabled(s, Commit(w)) && |s.workers[w].files| > 1
    ensures IsPending(After(s, Commit(w)), s.workers[w].files[1..])
  {
    var files, t := s.workers[w].files, After(s, Commit(w));
    assert Informed(s, w);
    forall f ensures f in files[1..] <==> f in t.dir && f !in t.applied {
      assert files == [files[0]] + files[1..];
      assert f in files[1..] ==> f != files[0];
    }
  }

  /** Until the first rollback they all stay so, whoever reads the last file meanwhile. */
  lemma UpInformedKept(s: Sys, e: Event)
    requires UpInformed(s) && Enabled(s, e) && !e.RollBack?
    ensures UpInformed(After(s, e))
  {
    var t := After(s, e);
    if e.Recheck? {
      assert Informed(s, e.w);
      WithoutAscends(s.workers[e.w].files, s.applied);
    }
    if e.Commit? && |s.workers[e.w].files| > 1 {
      ApplyingOn(s, e.w);
    }
    forall v | v in t.workers && !t.workers[v].GoingDown? ensures Informed(t, v) {
      assert v in s.workers ==> Informed(s, v);
      assert e.Commit? ==> Informed(s, e.w);
    }
  }

  /** A commit keeps the prefix if and only if everything before its file is applied. */
  lemma CommitKeepsPrefixIff(s: Sys, w: nat)
    requires Prefix(s.dir, s.applied) && Enabled(s, Commit(w)) && s.workers[w].files[0] in s.dir
    ensures Prefix(s.dir, After(s, Commit(w)).applied) <==> forall f :: f in s.dir && f < s.workers[w].files[0] ==> f in s.applied
  {
    var t := After(s, Commit(w));
    assert s.workers[w].files[0] in t.applied;
  }

  // --- After a rollback -------------------------------------------------------------------

  /** The worker knows what is pending, or has nothing left to apply. */
  ghost predicate Harmless(s: Sys, w: nat)
    requires w in s.workers
  {
    match s.workers[w]
    case Listed(files) => Ascending(files) && (forall f :: f in files ==> f in s.dir) && KnowsOrIdle(s, files)
    case Locked(files) => s.lock == Some(w) && Ascending(files) && (forall f :: f in files ==> f in s.dir) && KnowsOrIdle(s, files)
    case Applying(files) => s.lock == Some(w) && files != [] && IsPending(s, files)
    case GoingDown(_) => true
  }

  ghost predicate KnowsOrIdle(s: Sys, files: seq<File>) {
    (forall f :: Pending(s, f) ==> f in files) || (forall f :: f in files ==> f in s.applied)
  }

  ghost predicate AllHarmless(s: Sys) {
    Prefix(s.dir, s.applied) && forall w :: w in s.workers ==> Harmless(s, w)
  }

  lemma HarmlessCommit(s: Sys, w: nat, v: nat)
    requires AllHarmless(s) && Enabled(s, Commit(w)) && v in After(s, Commit(w)).workers
    ensures Harmless(After(s, Commit(w)), v)
  {
    var files, t := s.workers[w].files, After(s, Commit(w));
    assert Harmless(s, w) && Harmless(s, v);
    if v == w {
      forall f ensures f in files[1..] <==> f in t.dir && f !in t.applied {
        assert files == [files[0]] + files[1..];
        assert f in files[1..] ==> f != files[0];
      }
    } else if !s.workers[v].GoingDown? {
      assert forall f :: Pending(t, f) ==> Pending(s, f);
    }
  }

  lemma HarmlessRecheck(s: Sys, w: nat)
    requires AllHarmless(s) && Enabled(s, Recheck(w)) && w in After(s, Recheck(w)).workers
    ensures Harmless(After(s, Recheck(w)), w)
  {
    assert Harmless(s, w);
    var files := s.workers[w].files;
    var rest := Without(files, s.applied);
    WithoutAscends(files, s.applied);
    assert rest[0] in rest;
    assert IsPending(s, rest);
  }

  lemma HarmlessOther(s: Sys, e: Event, v: nat)
    requires AllHarmless(s) && Enabled(s, e) && Upward(e) && !e.Commit? && !e.Recheck? && v in After(s, e).workers
    ensures Harmless(After(s, e), v)
  {
    assert v in s.workers ==> Harmless(s, v);
    assert forall f :: Pending(After(s, e), f) <==> Pending(s, f);
    hide Without;
  }

  lemma HarmlessKept(s: Sys, e: Event)
    requires AllHarmless(s) && Enabled(s, e) && Upward(e)
    ensures AllHarmless(After(s, e)) && After(s, e).dir == s.dir
  {
    var t := After(s, e);
    if e.Commit? {
      HarmlessHead(s, e.w);
      CommitKeepsPrefixIff(s, e.w);
      forall v | v in t.workers { HarmlessCommit(s, e.w, v); }
    } else if e.Recheck? {
      forall v | v in t.workers ensures Harmless(t, v) {
        if v == e.w {
          HarmlessRecheck(s, v);
        } else {
          assert Harmless(s, v);
          assert forall f :: Pending(t, f) <==> Pending(s, f);
        }
      }
    } else {
      forall v | v in t.workers { HarmlessOther(s, e, v); }
    }
  }

  lemma HarmlessHead(s: Sys, w: nat)
    requires AllHarmless(s) && Enabled(s, Commit(w))
    ensures s.workers[w].files[0] in s.dir && forall f :: f in s.dir && f < s.workers[w].files[0] ==> f in s.applied
  {
    assert Harmless(s, w);
    var files := s.workers[w].files;
    assert files[0] in files;
    forall f | f in s.dir && f < files[0] ensures f in s.applied {
      assert f !in files;
    }
  }

  ghost predicate UpwardRun(s: Sys, run: seq<Event>) {
    Possible(s, run) && forall i :: 0 <= i < |run| ==> Upward(run[i])
  }

  lemma {:induction false} HarmlessRun(s: Sys, run: seq<Event>)
    requires AllHarmless(s) && UpwardRun(s, run)
    ensures AllHarmless(End(s, run)) && End(s, run).dir == s.dir
  {
    if |run| > 0 {
      HarmlessRun(s, run[..|run| - 1]);
      HarmlessKept(End(s, run[..|run| - 1]), run[|run| - 1]);
    }
  }

  /** Nothing later than the file is applied, and whoever is going up has the file on its list or nothing unapplied. */
  ghost predicate SafeToRollBack(s: Sys, last: File) {
    && (forall g :: g in s.dir && g in s.applied ==> g <= last)
    && forall v :: v in s.workers && !s.workers[v].GoingDown? ==>
         last in FilesOf(s.workers[v]) || forall f :: f in FilesOf(s.workers[v]) ==> f in s.applied
  }

  lemma SafeIsHarmless(s: Sys, w: nat)
    requires UpInformed(s) && Prefix(s.dir, s.applied) && Enabled(s, RollBack(w))
    requires s.workers[w].last in s.applied && SafeToRollBack(s, s.workers[w].last)
    ensures AllHarmless(After(s, RollBack(w)))
  {
    var last, t := s.workers[w].last, After(s, RollBack(w));
    forall v | v in t.workers ensures Harmless(t, v) {
      if !s.workers[v].GoingDown? {
        assert Informed(s, v);
        var files := FilesOf(s.workers[v]);
        if last !in files {
          assert forall f :: f in files ==> f in t.applied;
        } else {
          assert forall f :: Pending(t, f) ==> Pending(s, f) || f == last;
        }
        if s.workers[v].Applying? {
          assert files[0] in files;
        }
      }
    }
  }

  /** The worker is going up with a list that lacks the file and holds another that is not applied. */
  ghost predicate Skips(s: Sys, v: nat, last: File, f: File) {
    v in s.workers && !s.workers[v].GoingDown? && last !in FilesOf(s.workers[v]) && f in FilesOf(s.workers[v]) && f !in s.applied
  }

  lemma ApplyingCommits(t: Sys, v: nat)
    requires In(t, v, true) && t.workers[v].Applying? && t.workers[v].files != [] && t.workers[v].files[0] !in t.applied
    ensures UpwardRun(t, [Commit(v)]) && End(t, [Commit(v)]).applied == t.applied + {t.workers[v].files[0]}
  {
    AppendEvent(t, [], Commit(v));
    assert [] + [Commit(v)] == [Commit(v)];
  }

  lemma LastStep(t: Sys, run: seq<Event>)
    requires UpwardRun(t, run) && |run| > 0
    ensures
      var front, last := run[..|run| - 1], run[|run| - 1];
      UpwardRun(t, front) && Enabled(End(t, front), last) && Upward(last) && End(t, run) == After(End(t, front), last)
  {
    hide Enabled, After;
  }

  lemma Appended(t: Sys, run: seq<Event>, e: Event)
    requires UpwardRun(t, run) && Enabled(End(t, run), e) && Upward(e)
    ensures UpwardRun(t, run + [e]) && End(t, run + [e]) == After(End(t, run), e)
  {
    AppendEvent(t, run, e);
  }

  lemma Prepended(t: Sys, e: Event, run: seq<Event>)
    requires Enabled(t, e) && Upward(e) && UpwardRun(After(t, e), run)
    ensures UpwardRun(t, [e] + run) && End(t, [e] + run) == End(After(t, e), run)
    decreases |run|
  {
    if |run| == 0 {
      Appended(t, [], e);
      assert [] + [e] == [e] + run;
    } else {
      LastStep(After(t, e), run);
      hide Enabled, After, UpwardRun, End;
      var front := run[..|run| - 1];
      Prepended(t, e, front);
      Appended(t, [e] + front, run[|run| - 1]);
      assert [e] + front + [run[|run| - 1]] == [e] + run;
    }
  }

  lemma LockedCommits(t: Sys, v: nat, f: File) returns (run: seq<Event>, h: File)
    requires In(t, v, true) && t.workers[v].Locked? && f in t.workers[v].files && f !in t.applied
    ensures UpwardRun(t, run) && h in t.workers[v].files && h !in t.applied && End(t, run).applied == t.applied + {h}
  {
    var u := After(t, Recheck(v));
    var files := Without(t.workers[v].files, t.applied);
    assert f in files;
    h := files[0];
    assert h in files;
    ApplyingCommits(u, v);
    run := [Recheck(v)] + [Commit(v)];
    Prepended(t, Recheck(v), [Commit(v)]);
  }

  lemma ListedCommits(t: Sys, v: nat, f: File) returns (run: seq<Event>, h: File)
    requires In(t, v, false) && f in t.workers[v].files && f !in t.applied
    requires t.lock.Some? ==> t.lock.value in t.workers && t.lock.value != v
    ensures UpwardRun(t, run) && h in t.workers[v].files && h !in t.applied && End(t, run).applied == t.applied + {h}
  {
    var u := if t.lock.Some? then After(t, Crash(t.lock.value)) else t;
    var rest: seq<Event>;
    rest, h := LockedCommits(After(u, Acquire(v)), v, f);
    Prepended(u, Acquire(v), rest);
    run := [Acquire(v)] + rest;
    if t.lock.Some? {
      Prepended(t, Crash(t.lock.value), run);
      run := [Crash(t.lock.value)] + run;
    }
  }

  /** Such a worker can commit a file the rollback has put behind an unapplied one. */
  lemma SkipHappens(s: Sys, w: nat, v: nat, f: File) returns (run: seq<Event>)
    requires UpInformed(s) && Prefix(s.dir, s.applied) && Enabled(s, RollBack(w)) && s.workers[w].last in s.dir
    requires s.workers[w].last in s.applied && Skips(s, v, s.workers[w].last, f)
    ensures UpwardRun(After(s, RollBack(w)), run) && !Prefix(s.dir, End(After(s, RollBack(w)), run).applied)
  {
    var last, t := s.workers[w].last, After(s, RollBack(w));
    assert Informed(s, v);
    var h: File;
    if s.workers[v].Listed? {
      run, h := ListedCommits(t, v, f);
    } else if s.workers[v].Locked? {
      run, h := LockedCommits(t, v, f);
    } else {
      h := s.workers[v].files[0];
      assert h in s.workers[v].files;
      ApplyingCommits(t, v);
      run := [Commit(v)];
    }
    assert h in FilesOf(s.workers[v]) && h in s.dir && h != last && h !in s.applied;
    assert last < h;
    assert last !in End(t, run).applied && h in End(t, run).applied;
  }

  /**
   run_down takes no lock. Whatever the other workers then do, what is applied stays
   a prefix of the sorted directory if and only if nothing later than the file has
   been applied since it was read, and every worker under way has the file on its
   list or nothing left to apply.
   */
  lemma RollBackKeepsPrefixIff(s: Sys, w: nat)
    requires UpInformed(s) && Prefix(s.dir, s.applied) && Enabled(s, RollBack(w))
    requires s.workers[w].last in s.dir && s.workers[w].last in s.applied
    ensures
      (forall run :: UpwardRun(After(s, RollBack(w)), run) ==> Prefix(s.dir, End(After(s, RollBack(w)), run).applied))
      <==> SafeToRollBack(s, s.workers[w].last)
  {
    var last, t := s.workers[w].last, After(s, RollBack(w));
    if SafeToRollBack(s, last) {
      SafeIsHarmless(s, w);
      forall run | UpwardRun(t, run) ensures Prefix(s.dir, End(t, run).applied) {
        HarmlessRun(t, run);
      }
    } else if g :| g in s.dir && g in s.applied && g > last {
      assert UpwardRun(t, []) && End(t, []) == t;
      assert last !in t.applied && g in t.applied;
    } else {
      var v :| v in s.workers && !s.workers[v].GoingDown? && last !in FilesOf(s.workers[v])
        && !forall f :: f in FilesOf(s.workers[v]) ==> f in s.applied;
      var f :| f in FilesOf(s.workers[v]) && f !in s.applied;
      var run := SkipHappens(s, w, v, f);
    }
  }

  const TWO_OF_THREE := Sys({0, 1, 2}, {0, 1}, [], None, map[])

  const READY_TO_ROLL_BACK := Sys({0, 1, 2}, {0, 1}, [], Some(0), map[0 := Locked([2]), 1 := GoingDown(1)])

  /** One worker has listed what is pending and has the lock; another is about to roll the last applied file back. */
  lemma LockedMeanwhile()
    ensures
      var run := [List(0, [2]), Acquire(0), ReadLast(1, 1)];
      Possible(TWO_OF_THREE, run) && End(TWO_OF_THREE, run) == READY_TO_ROLL_BACK
  {
    var s := TWO_OF_THREE;
    AppendEvent(s, [], List(0, [2]));
    assert [] + [List(0, [2])] == [List(0, [2])];
    AppendEvent(s, [List(0, [2])], Acquire(0));
    assert [List(0, [2])] + [Acquire(0)] == [List(0, [2]), Acquire(0)];
    AppendEvent(s, [List(0, [2]), Acquire(0)], ReadLast(1, 1));
    assert [List(0, [2]), Acquire(0)] + [ReadLast(1, 1)] == [List(0, [2]), Acquire(0), ReadLast(1, 1)];
  }

  lemma OldListApplied()
    ensures
      var run := [RollBack(1), Recheck(0), Commit(0)];
      Possible(READY_TO_ROLL_BACK, run) && End(READY_TO_ROLL_BACK, run).applied == {0, 2}
  {
    var s := READY_TO_ROLL_BACK;
    AppendEvent(s, [], RollBack(1));
    assert [] + [RollBack(1)] == [RollBack(1)];
    assert Without([2], {0}) == [2] by {
      assert [2][1..] == [];
    }
    AppendEvent(s, [RollBack(1)], Recheck(0));
    assert [RollBack(1)] + [Recheck(0)] == [RollBack(1), Recheck(0)];
    AppendEvent(s, [RollBack(1), Recheck(0)], Commit(0));
    assert [RollBack(1), Recheck(0)] + [Commit(0)] == [RollBack(1), Recheck(0), Commit(0)];
  }

  /**
   A rollback takes no lock: it goes through while another worker holds the lock
   with its list; that worker then applies the last file, and the middle one is
   skipped.
   */
  lemma RollBackSkipsAFile()
    ensures Start(TWO_OF_THREE) && Prefix(TWO_OF_THREE.dir, TWO_OF_THREE.applied)
    ensures
      var before, after := [List(0, [2]), Acquire(0), ReadLast(1, 1)], [RollBack(1), Recheck(0), Commit(0)];
      && Possible(TWO_OF_THREE, before) && End(TWO_OF_THREE, before).lock == Some(0)
      && Possible(End(TWO_OF_THREE, before), after)
      && End(End(TWO_OF_THREE, before), after).applied == {0, 2}
    ensures !Prefix(TWO_OF_THREE.dir, {0, 2})
  {
    LockedMeanwhile();
    OldListApplied();
    assert 1 in TWO_OF_THREE.dir && 1 !in {0, 2} && 2 in {0, 2};
  }
}
