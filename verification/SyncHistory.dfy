/** What a run can still do to a month once it passed the quality gate, and once it was confirmed empty. */
module SyncHistory {
  import opened Series
  import opened Months
  import opened SyncModel
  import opened SyncInvariant
  import opened SyncSafety

  // ---- files are never removed, and a gate that was passed stays passed ----

  ghost predicate Grows(s: State, t: State) {
    s.disk <= t.disk && s.passed <= t.passed
  }

  lemma TryGrows(s: State, j: nat, w: nat, result: Attempt)
    requires Enabled(s, Try(j, w, result))
    ensures Grows(s, DoTry(s, j, w, result))
  {}

  lemma StepGrows(s: State, step: Step)
    requires Enabled(s, step)
    ensures Grows(s, Apply(s, step))
  {
    hide DoTry, DoCheck, DoCommit;
    match step
    case Try(j, w, result) => TryGrows(s, j, w, result);
    case Check(j, w, look) => CheckShape(s, j, w, look);
    case Commit(j, w, marked) => CommitShape(s, j, w, marked);
    case _ =>
  }

  lemma {:induction false} RunGrows(run: seq<State>, steps: seq<Step>, i: nat, n: nat)
    requires IsRun(run, steps) && i <= n < |run|
    ensures Grows(run[i], run[n])
  {
    hide Apply, Enabled;
    if i < n {
      RunGrows(run, steps, i, n - 1);
      StepGrows(run[n - 1], steps[n - 1]);
    }
  }

  // ---- who can still fetch a month that is on disk ----

  /** The worker in slot `w` of job `j` is in its retry loop for partition `p`. */
  predicate Fetches(s: State, j: nat, w: nat, p: Partition) {
    Slot(s, j, w) && PcAt(s, j, w).Fetching? && PartitionOf(SectionOf(s, j, w)) == p
  }

  lemma MovedFetch(s: State, t: State, a: nat, b: nat, pc: Pc, j: nat, w: nat, p: Partition)
    requires Moves(s, t, a, b, pc) && Fetches(t, j, w, p)
    requires pc.Fetching? && a == j && b == w ==> PcAt(s, a, b).Fetching? && PcAt(s, a, b).month == pc.month
    ensures Fetches(s, j, w, p)
  {
    Others(s, t, a, b, pc, j, w);
  }

  /** Jobs that change as a whole have nobody in the retry loop afterwards. */
  lemma QuietFetch(s: State, t: State, a: nat, j: nat, w: nat, p: Partition)
    requires Fetches(t, j, w, p) && a < |t.jobs| && Quiet(t.jobs[a])
    requires forall i :: 0 <= i < |t.jobs| && i != a ==> i < |s.jobs| && t.jobs[i] == s.jobs[i]
    ensures Fetches(s, j, w, p)
  {
    assert j != a;
  }

  lemma MonthFetch(s: State, step: Step, j: nat, w: nat, p: Partition)
    requires Enabled(s, step) && (step.Take? || step.Lock?) && Fetches(Apply(s, step), j, w, p)
    ensures Fetches(s, j, w, p)
  {
    MovedFetch(s, Apply(s, step), step.j, step.w, Apply(s, step).jobs[step.j].workers[step.w], j, w, p);
  }

  lemma CheckFetch(s: State, a: nat, b: nat, look: Look, j: nat, w: nat, p: Partition)
    requires Enabled(s, Check(a, b, look)) && p in s.disk && Fetches(DoCheck(s, a, b, look), j, w, p)
    ensures Fetches(s, j, w, p)
  {
    CheckShape(s, a, b, look);
    CheckMisses(s, a, b, look, j, w, p);
    hide DoCheck, Fetches;
    MovedFetch(s, DoCheck(s, a, b, look), a, b, CheckedPc(s, s.jobs[a], PcAt(s, a, b).month, look), j, w, p);
  }

  lemma TryFetch(s: State, a: nat, b: nat, result: Attempt, j: nat, w: nat, p: Partition)
    requires Enabled(s, Try(a, b, result)) && Fetches(DoTry(s, a, b, result), j, w, p)
    ensures Fetches(s, j, w, p)
  {
    TryShape(s, a, b, result);
    hide DoTry, Fetches;
    MovedFetch(s, DoTry(s, a, b, result), a, b, NextPc(PcAt(s, a, b), result), j, w, p);
  }

  lemma CommitFetch(s: State, a: nat, b: nat, marked: bool, j: nat, w: nat, p: Partition)
    requires Enabled(s, Commit(a, b, marked)) && Fetches(DoCommit(s, a, b, marked), j, w, p)
    ensures Fetches(s, j, w, p)
  {
    CommitShape(s, a, b, marked);
    CommitMoves(s.jobs[a], b);
    hide DoCommit, Fetches;
    MovedFetch(s, DoCommit(s, a, b, marked), a, b, Committed(s.jobs[a], b).workers[b], j, w, p);
  }

  lemma CommitMoves(job: Job, b: nat)
    requires b < |job.workers| && job.workers[b].AwaitGlobal?
    ensures var next := Committed(job, b);
      next.key == job.key && |next.workers| == |job.workers| && !next.workers[b].Fetching?
      && next.workers == job.workers[b := next.workers[b]]
  {}

  /** A check never brings a worker to the fetch of a month whose file is there. */
  lemma CheckMisses(s: State, a: nat, b: nat, look: Look, j: nat, w: nat, p: Partition)
    requires Enabled(s, Check(a, b, look)) && p in s.disk && Fetches(DoCheck(s, a, b, look), j, w, p)
    ensures !(a == j && b == w)
  {}

  lemma RestartFetch(s: State, j: nat, w: nat, p: Partition)
    requires Inv(s)
    ensures !Fetches(DoRestart(s), j, w, p)
  {
    if Fetches(DoRestart(s), j, w, p) {
      ReloadedInv(s, j);
      assert Holds(DoRestart(s).jobs[j].workers[w]);
    }
  }

  lemma LaunchFetch(s: State, a: nat, j: nat, w: nat, p: Partition)
    requires Inv(s) && Enabled(s, Launch(a)) && Fetches(DoLaunch(s, a), j, w, p)
    ensures Fetches(s, j, w, p)
  {
    assert JobInv(s.jobs[a], s.crew);
    QuietFetch(s, DoLaunch(s, a), a, j, w, p);
  }

  lemma EndFetch(s: State, step: Step, j: nat, w: nat, p: Partition)
    requires Inv(s) && Enabled(s, step) && (step.Gathered? || step.FinalLanded? || step.Finish?)
    requires Fetches(Apply(s, step), j, w, p)
    ensures Fetches(s, j, w, p)
  {
    assert JobInv(s.jobs[step.j], s.crew);
    QuietFetch(s, Apply(s, step), step.j, j, w, p);
  }

  /** A worker in the retry loop of a month that is on disk was there before the step. */
  lemma FetchWasThere(s: State, step: Step, j: nat, w: nat, p: Partition)
    requires Inv(s) && Enabled(s, step) && p in s.disk && Fetches(Apply(s, step), j, w, p)
    ensures Fetches(s, j, w, p)
  {
    hide Inv, DoTake, DoLock, DoCheck, DoTry, DoCommit, DoLaunch, DoFinish, DoRestart;
    match step
    case Restart => RestartFetch(s, j, w, p);
    case Launch(a) => LaunchFetch(s, a, j, w, p);
    case Gathered(a) => EndFetch(s, step, j, w, p);
    case FinalLanded(a) => EndFetch(s, step, j, w, p);
    case Finish(a) => EndFetch(s, step, j, w, p);
    case StartScanned(r, found) => QuietFetch(s, Apply(s, step), |s.jobs|, j, w, p);
    case Request(key) =>
    case StartLocked(r) =>
    case StartLanded(r) =>
    case StartRaised(r) =>
    case Save(keep) =>
    case Check(a, b, look) => CheckFetch(s, a, b, look, j, w, p);
    case Try(a, b, result) => TryFetch(s, a, b, result, j, w, p);
    case Commit(a, b, marked) => CommitFetch(s, a, b, marked, j, w, p);
    case _ => MonthFetch(s, step, j, w, p);
  }

  lemma {:induction false} FetchedAllAlong(run: seq<State>, steps: seq<Step>, i: nat, n: nat, j: nat, w: nat, p: Partition)
    requires IsRun(run, steps) && i <= n < |run| && p in run[i].disk && Fetches(run[n], j, w, p)
    ensures forall x :: i <= x <= n ==> Fetches(run[x], j, w, p)
    decreases n
  {
    hide Apply, Enabled, Fetches, Inv;
    if i < n {
      RunGrows(run, steps, i, n - 1);
      RunInv(run, steps, n - 1);
      FetchWasThere(run[n - 1], steps[n - 1], j, w, p);
      FetchedAllAlong(run, steps, i, n - 1, j, w, p);
    }
  }

  /** Once the file of a month exists, no check by any job leads to a fetch of it. */
  lemma NoNewFetchOfAFile(run: seq<State>, steps: seq<Step>, i: nat, n: nat)
    requires IsRun(run, steps) && i <= n < |steps| && steps[n].Check?
    requires Partition(run[n].jobs[steps[n].j].key.symbol, PcAt(run[n], steps[n].j, steps[n].w).month) in run[i].disk
    ensures Slot(run[n + 1], steps[n].j, steps[n].w) && !PcAt(run[n + 1], steps[n].j, steps[n].w).Fetching?
  {
    RunGrows(run, steps, i, n);
    var step := steps[n];
    assert Enabled(run[n], step) && run[n + 1] == Apply(run[n], step);
    CheckShape(run[n], step.j, step.w, step.look);
  }

  /** Once a month passed the gate for one timeframe, a worker of any job can attempt to fetch or write
      it exactly when it has been in its retry loop for that month ever since, in a job of another
      timeframe; so no later check brings any worker there. */
  lemma PassedMonthIsFetchedOnlyFromInside(run: seq<State>, steps: seq<Step>, i: nat, n: nat, k: LockKey, j: nat, w: nat)
    requires IsRun(run, steps) && i <= n < |run| && k in run[i].passed
    ensures (Enabled(run[n], Try(j, w, FetchError)) && Fetches(run[n], j, w, PartitionOf(k))) <==>
      forall x :: i <= x <= n ==> Fetches(run[x], j, w, PartitionOf(k)) && run[x].jobs[j].key.tf != k.tf
  {
    hide Inv, Enabled;
    var p := PartitionOf(k);
    RunInv(run, steps, i);
    PassedIsOnDisk(run[i], k);
    RunInv(run, steps, n);
    if Fetches(run[n], j, w, p) {
      FetchingCanTry(run[n], j, w, p);
      FetchedAllAlong(run, steps, i, n, j, w, p);
      forall x | i <= x <= n ensures run[x].jobs[j].key.tf != k.tf {
        RunGrows(run, steps, i, x);
        RunInv(run, steps, x);
        OtherTimeframe(run[x], k, j, w);
      }
    }
  }

  lemma PassedIsOnDisk(s: State, k: LockKey)
    requires Inv(s) && k in s.passed
    ensures PartitionOf(k) in s.disk
  {}

  lemma FetchingCanTry(s: State, j: nat, w: nat, p: Partition)
    requires Inv(s) && Fetches(s, j, w, p)
    ensures Enabled(s, Try(j, w, FetchError))
  {
    assert JobInv(s.jobs[j], s.crew);
  }

  lemma OtherTimeframe(s: State, k: LockKey, j: nat, w: nat)
    requires Inv(s) && k in s.passed && Fetches(s, j, w, PartitionOf(k))
    ensures s.jobs[j].key.tf != k.tf
  {
    assert PcInv(PcAt(s, j, w), SectionOf(s, j, w), s.passed, s.confirmed);
  }

  // ---- months that were confirmed empty ----

  /** The step rewrites the coverage index of this symbol from disk. */
  predicate Rebuilds(s: State, step: Step, symbol: string)
    requires Enabled(s, step)
  {
    || (step.StartLanded? && s.starts[step.r].key.tf == M1 && s.starts[step.r].key.symbol == symbol)
    || (step.FinalLanded? && s.jobs[step.j].key.tf == M1 && s.jobs[step.j].key.symbol == symbol)
  }

  /** The step is an attempt that got no candles for `p` and entered that in the coverage index. */
  predicate Marks(s: State, step: Step, p: Partition)
    requires Enabled(s, step)
  {
    step.Try? && step.result == NoCandles(true) && Fetches(s, step.j, step.w, p)
  }

  lemma TryMarks(s: State, j: nat, w: nat, result: Attempt, p: Partition)
    requires Enabled(s, Try(j, w, result))
    ensures KnownEmpty(DoTry(s, j, w, result), p) <==> Marks(s, Try(j, w, result), p) || KnownEmpty(s, p)
  {}

  lemma CommitMarks(s: State, j: nat, w: nat, marked: bool, p: Partition)
    requires Inv(s) && Enabled(s, Commit(j, w, marked)) && p !in s.disk
    ensures KnownEmpty(DoCommit(s, j, w, marked), p) <==> KnownEmpty(s, p)
  {
    CommitShape(s, j, w, marked);
    if PcAt(s, j, w).update == Tally(true) {
      assert PcInv(PcAt(s, j, w), SectionOf(s, j, w), s.passed, s.confirmed);
      PassedIsOnDisk(s, SectionOf(s, j, w));
    }
  }

  lemma RebuildMarks(s: State, key: Key, p: Partition)
    requires p !in s.disk
    ensures KnownEmpty(Rebuilt(s, key), p) <==> KnownEmpty(s, p) && !(key.tf == M1 && key.symbol == p.symbol)
  {}

  lemma TakeMarks(s: State, j: nat, w: nat)
    ensures Enabled(s, Take(j, w)) ==> DoTake(s, j, w).coverage == s.coverage
    ensures Enabled(s, Lock(j, w)) ==> DoLock(s, j, w).coverage == s.coverage
  {}

  lemma OtherMarks(s: State, step: Step)
    requires Enabled(s, step)
    requires step.Launch? || step.StartLocked? || step.StartScanned? || step.Finish?
    ensures Apply(s, step).coverage == s.coverage
  {}

  /** A month without a file is known to be empty after a step exactly when the step marked it, or it was
      known before and the step did not rebuild the symbol. */
  lemma KnownEmptyStep(s: State, step: Step, p: Partition)
    requires Inv(s) && Enabled(s, step) && p !in s.disk
    ensures KnownEmpty(Apply(s, step), p) <==> Marks(s, step, p) || (KnownEmpty(s, p) && !Rebuilds(s, step, p.symbol))
  {
    hide Inv, DoTry, DoCheck, DoCommit, DoTake, DoLock, DoLaunch, DoStartLocked, DoStartScanned, DoFinish, Rebuilt, Fetches;
    match step
    case Try(j, w, result) => TryMarks(s, j, w, result, p);
    case Check(j, w, look) => CheckShape(s, j, w, look);
    case Commit(j, w, marked) => CommitMarks(s, j, w, marked, p);
    case Take(j, w) => TakeMarks(s, j, w);
    case Lock(j, w) => TakeMarks(s, j, w);
    case Launch(j) => OtherMarks(s, step);
    case StartLocked(r) => OtherMarks(s, step);
    case StartScanned(r, found) => OtherMarks(s, step);
    case Finish(j) => OtherMarks(s, step);
    case StartLanded(r) => RebuildMarks(s.(starts := s.starts[r := Scanning(s.starts[r].key, true)]), s.starts[r].key, p);
    case FinalLanded(j) => RebuildMarks(WithJob(s, j, s.jobs[j].(phase := Rewritten)), s.jobs[j].key, p);
    case _ =>
  }

  /** `p` was marked by the step into state `i`, or in the coverage index the run began with, and no
      rebuild of its symbol landed between state `i` and state `n`. */
  ghost predicate MarkedFrom(run: seq<State>, steps: seq<Step>, i: nat, n: nat, p: Partition)
    requires IsRun(run, steps) && i <= n < |run|
  {
    && (if i == 0 then KnownEmpty(run[0], p) else Marks(run[i - 1], steps[i - 1], p))
    && forall x :: i <= x < n ==> !Rebuilds(run[x], steps[x], p.symbol)
  }

  /** `p` was marked empty, by some job or in the index the run began with, and no rebuild of its symbol
      has landed since. */
  ghost predicate MarkedSince(run: seq<State>, steps: seq<Step>, n: nat, p: Partition)
    requires IsRun(run, steps) && n < |run|
  {
    exists i: nat :: i <= n && MarkedFrom(run, steps, i, n, p)
  }

  lemma {:induction false} KnownEmptyIff(run: seq<State>, steps: seq<Step>, n: nat, p: Partition)
    requires IsRun(run, steps) && n < |run| && p !in run[n].disk
    ensures KnownEmpty(run[n], p) <==> MarkedSince(run, steps, n, p)
  {
    hide Apply, Enabled, Inv, KnownEmpty, Marks, Rebuilds;
    if n == 0 {
      assert MarkedFrom(run, steps, 0, 0, p) <==> KnownEmpty(run[0], p);
    } else {
      RunGrows(run, steps, n - 1, n);
      RunInv(run, steps, n - 1);
      KnownEmptyIff(run, steps, n - 1, p);
      KnownEmptyStep(run[n - 1], steps[n - 1], p);
      forall i: nat | i <= n ensures MarkedFrom(run, steps, i, n, p) <==> MarkedStep(run, steps, i, n, p) {}
      if i: nat :| i <= n && MarkedFrom(run, steps, i, n, p) {
        assert MarkedStep(run, steps, i, n, p);
      }
      if Marks(run[n - 1], steps[n - 1], p) {
        assert MarkedStep(run, steps, n, n, p);
      }
      var before: nat := n - 1;
      if i: nat :| i <= before && MarkedFrom(run, steps, i, before, p) {
        assert !Rebuilds(run[n - 1], steps[n - 1], p.symbol) ==> MarkedStep(run, steps, i, n, p);
      }
    }
  }

  /** `MarkedFrom` one step earlier. */
  ghost predicate MarkedStep(run: seq<State>, steps: seq<Step>, i: nat, n: nat, p: Partition)
    requires IsRun(run, steps) && i <= n < |run| && n > 0
  {
    if i == n then Marks(run[n - 1], steps[n - 1], p)
    else MarkedFrom(run, steps, i, n - 1, p) && !Rebuilds(run[n - 1], steps[n - 1], p.symbol)
  }

  /** A worker that finds no file and can read the coverage index skips its month exactly when the month
      was marked empty and no rebuild of the symbol has landed since; otherwise it goes on to fetch it. */
  lemma EmptyMonthIsSkippedIff(run: seq<State>, steps: seq<Step>, n: nat, j: nat, w: nat)
    requires IsRun(run, steps) && n < |steps| && steps[n] == Check(j, w, Readable)
    requires Partition(run[n].jobs[j].key.symbol, PcAt(run[n], j, w).month) !in run[n].disk
    ensures Slot(run[n + 1], j, w)
    ensures var m := PcAt(run[n], j, w).month;
      PcAt(run[n + 1], j, w) ==
        if MarkedSince(run, steps, n, Partition(run[n].jobs[j].key.symbol, m)) then AwaitGlobal(m, Skip, 0)
        else Fetching(m, 0, 0, false)
  {
    hide MarkedSince, DoCheck;
    KnownEmptyIff(run, steps, n, Partition(run[n].jobs[j].key.symbol, PcAt(run[n], j, w).month));
    assert Enabled(run[n], steps[n]) && run[n + 1] == Apply(run[n], steps[n]);
    CheckShape(run[n], j, w, Readable);
  }

  /** Only a worker that could not read the coverage index fetches a month that was marked empty for its
      timeframe since the last rebuild of the symbol. */
  lemma OnlyTheBlindFetchConfirmed(run: seq<State>, steps: seq<Step>, n: nat, j: nat, w: nat)
    requires IsRun(run, steps) && n < |run| && Slot(run[n], j, w) && PcAt(run[n], j, w).Fetching?
    ensures SectionOf(run[n], j, w) in run[n].confirmed ==> PcAt(run[n], j, w).blind
  {
    RunInv(run, steps, n);
    assert PcInv(PcAt(run[n], j, w), SectionOf(run[n], j, w), run[n].passed, run[n].confirmed);
  }
}
