/** What the invariant means for callers: complete accounting, one running job per key, exclusion
    per month, what the remaining-work figure says, and where each claim stops. */
module SyncTheorems {
  import opened Series
  import opened Months
  import opened SyncModel
  import opened SyncInvariant
  import opened SyncSafety

  ghost predicate Finished(job: Job) {
    job.status == DONE || job.status == FAILED
  }

  // ---- accounting ----

  /** The months a job has counted, under any heading. */
  function CountedMonths(job: Job): seq<Month> {
    job.doneLog + job.emptyLog + job.failedMonths + job.skipLog
  }

  lemma DistinctCounts(s: seq<Month>)
    ensures Distinct(s) <==> forall m :: multiset(s)[m] <= 1
  {
    if Distinct(s) {
      forall m ensures multiset(s)[m] <= 1 { AtMostOnce(s, m); }
    }
    if forall m :: multiset(s)[m] <= 1 {
      forall i, j | 0 <= i < j < |s| ensures s[i] != s[j] {
        assert s == s[..j] + [s[j]] + s[j + 1..];
        assert multiset(s) == multiset(s[..j]) + multiset{s[j]} + multiset(s[j + 1..]);
        assert s[..j][i] == s[i];
        assert multiset(s[..j])[s[i]] >= 1;
        assert multiset(s)[s[j]] >= multiset(s[..j])[s[j]] + 1;
      }
    }
  }

  lemma {:induction false} AtMostOnce(s: seq<Month>, m: Month)
    requires Distinct(s)
    ensures multiset(s)[m] <= 1
  {
    if s != [] {
      assert s == [s[0]] + s[1..];
      AtMostOnce(s[1..], m);
      assert s[0] !in s[1..];
    }
  }

  lemma {:induction false} ExitedHoldNothing(ws: seq<Pc>, m: Month)
    requires AllExited(ws)
    ensures Tickets(ws, HeldBy, m) == 0 && Tickets(ws, BoundForDone, m) == 0
  {
    NoTickets(ws, HeldBy, m);
    NoTickets(ws, BoundForDone, m);
  }

  /** A finished job has counted each planned month exactly once. */
  lemma FinishedCounts(job: Job, crew: int)
    requires JobInv(job, crew) && Finished(job) && crew >= 1
    ensures multiset(CountedMonths(job)) == multiset(job.planned)
    ensures |CountedMonths(job)| == |job.planned|
    ensures Distinct(CountedMonths(job))
  {
    forall m ensures multiset(CountedMonths(job))[m] == multiset(job.planned)[m] {
      ExitedHoldNothing(job.workers, m);
      assert multiset(job.planned)[m]
          == multiset(job.queue)[m] + Tickets(job.workers, HeldBy, m) + Counted(job, m);
    }
    assert |multiset(CountedMonths(job))| == |CountedMonths(job)|;
    assert |multiset(job.planned)| == |job.planned|;
    DistinctCounts(job.planned);
    DistinctCounts(CountedMonths(job));
  }

  /** When a job with at least one worker ends, done + empty + failed + skipped is the number of months
      in its range; each planned month was counted exactly once; `failed_months` has no repeats and
      `failed` entries; suspect months are done months; and the status is DONE exactly when nothing failed. */
  lemma FinishedJobIsAccountedFor(run: seq<State>, steps: seq<Step>, i: nat, j: nat)
    requires IsRun(run, steps) && i < |run| && j < |run[i].jobs|
    requires run[i].crew >= 1 && Finished(run[i].jobs[j])
    ensures var job := run[i].jobs[j];
      && job.done + job.empty + job.failed + job.skipped == |Range(job.key)|
      && Distinct(CountedMonths(job)) && multiset(CountedMonths(job)) == multiset(job.planned)
      && job.done == |job.doneLog| && job.empty == |job.emptyLog|
      && Distinct(job.failedMonths) && |job.failedMonths| == job.failed
      && Distinct(job.suspectMonths) && |job.suspectMonths| == job.suspect
      && (forall m :: m in job.suspectMonths ==> m in job.doneLog)
      && (job.status == DONE <==> job.failed == 0)
  {
    RunInv(run, steps, i);
    var job := run[i].jobs[j];
    FinishedCounts(job, run[i].crew);
    DistinctCounts(CountedMonths(job));
    DistinctCounts(job.failedMonths);
    DistinctCounts(job.suspectMonths);
    assert multiset(CountedMonths(job))
        == multiset(job.doneLog) + multiset(job.emptyLog) + multiset(job.failedMonths) + multiset(job.skipLog);
    forall m
      ensures multiset(job.failedMonths)[m] <= 1
      ensures multiset(job.suspectMonths)[m] <= 1
      ensures m in job.suspectMonths ==> m in job.doneLog
    {
      ExitedHoldNothing(job.workers, m);
      assert multiset(job.suspectMonths)[m] <= multiset(job.doneLog)[m] + Tickets(job.workers, BoundForDone, m);
      assert multiset(CountedMonths(job))[m] <= 1;
      assert m in job.suspectMonths ==> m in multiset(job.suspectMonths);
      assert m in job.doneLog <==> m in multiset(job.doneLog);
    }
  }

  /** The accounting holds exactly when the manager has a worker or the job had nothing to do. With
      `SYNC_WORKERS=0` every job ends DONE with its planned months untouched. */
  lemma AccountingNeedsAWorker(run: seq<State>, steps: seq<Step>, i: nat, j: nat)
    requires IsRun(run, steps) && i < |run| && j < |run[i].jobs|
    requires Finished(run[i].jobs[j])
    ensures var job := run[i].jobs[j];
      (job.done + job.empty + job.failed + job.skipped == |Range(job.key)|) <==> (run[i].crew >= 1 || job.planned == [])
    ensures run[i].crew < 1 ==> run[i].jobs[j].status == DONE && run[i].jobs[j].done == 0
  {
    RunInv(run, steps, i);
    var job := run[i].jobs[j];
    if run[i].crew >= 1 {
      FinishedJobIsAccountedFor(run, steps, i, j);
    } else {
      forall m ensures multiset(CountedMonths(job))[m] == 0 {
        assert multiset(job.planned)[m]
            == multiset(job.queue)[m] + Tickets(job.workers, HeldBy, m) + Counted(job, m);
      }
      assert multiset(CountedMonths(job)) == multiset{};
      assert |multiset(CountedMonths(job))| == |CountedMonths(job)|;
    }
  }

  /** The plan of a new job splits its range exactly into skipped and to-do months, `skipped` counting
      the months of the range found on disk. */
  lemma PlanSplitsRange(key: Key, found: set<Month>)
    requires ValidKey(key)
    ensures var job := NewJob(key, found);
      && Distinct(job.planned)
      && (forall m :: m in job.planned <==> m in Range(key) && m !in found)
      && job.skipped == |Among(Range(key), found)|
      && job.total + job.skipped == |Range(key)|
  {
    SpanIsTheRange(First(key.from), First(key.to));
    WithoutDistinct(Range(key), found);
    WithoutSplits(Range(key), found);
  }

  // ---- one job per key, and finished jobs stay finished ----

  lemma OneRunningJobPerKey(run: seq<State>, steps: seq<Step>, i: nat, a: nat, b: nat)
    requires IsRun(run, steps) && i < |run| && a < |run[i].jobs| && b < |run[i].jobs|
    requires run[i].jobs[a].status == RUNNING && run[i].jobs[b].status == RUNNING
    requires run[i].jobs[a].key == run[i].jobs[b].key
    ensures a == b
  {
    RunInv(run, steps, i);
  }

  /** The job a step of a runner or a worker belongs to. */
  function Target(step: Step): Option<nat> {
    match step
    case Launch(j) => Some(j)
    case Take(j, w) => Some(j)
    case Lock(j, w) => Some(j)
    case Check(j, w, look) => Some(j)
    case Try(j, w, result) => Some(j)
    case Commit(j, w, marked) => Some(j)
    case Gathered(j) => Some(j)
    case FinalLanded(j) => Some(j)
    case Finish(j) => Some(j)
    case _ => None
  }

  lemma TargetRuns(s: State, step: Step)
    requires Inv(s) && Enabled(s, step) && Target(step).Some?
    ensures Target(step).value < |s.jobs| && s.jobs[Target(step).value].status == RUNNING
  {
    assert JobInv(s.jobs[Target(step).value], s.crew);
  }

  lemma OthersUntouched(s: State, step: Step, i: nat)
    requires Enabled(s, step) && i < |s.jobs| && Target(step) != Some(i) && !step.Restart?
    ensures |s.jobs| <= |Apply(s, step).jobs| && Apply(s, step).jobs[i] == s.jobs[i]
  {
    match step
    case Try(j, w, result) => TryShape(s, j, w, result);
    case Commit(j, w, marked) => CommitShape(s, j, w, marked);
    case Check(j, w, look) => CheckShape(s, j, w, look);
    case _ =>
  }

  lemma StepRestartsNoJob(s: State, step: Step, j: nat)
    requires Inv(s) && Enabled(s, step) && j < |s.jobs|
    requires s.jobs[j].status != RUNNING
    ensures j < |Apply(s, step).jobs| && Apply(s, step).jobs[j].status != RUNNING
    ensures !step.Restart? ==> Apply(s, step).jobs[j] == s.jobs[j]
  {
    if step.Restart? {
      ReloadedInv(s, j);
    } else {
      if Target(step).Some? { TargetRuns(s, step); }
      OthersUntouched(s, step, j);
    }
  }

  /** A job that is no longer running never runs again, restarts included. */
  lemma {:induction false} FinishedStaysFinished(run: seq<State>, steps: seq<Step>, i: nat, n: nat, j: nat)
    requires IsRun(run, steps) && i <= n < |run|
    requires j < |run[i].jobs| && run[i].jobs[j].status != RUNNING
    ensures j < |run[n].jobs| && run[n].jobs[j].status != RUNNING
  {
    hide Apply, Enabled, Inv;
    if i < n {
      FinishedStaysFinished(run, steps, i, n - 1, j);
      RunInv(run, steps, n - 1);
      StepRestartsNoJob(run[n - 1], steps[n - 1], j);
    }
  }

  // ---- exclusion per month ----

  /** Two workers inside sections of one partition are the same worker, unless their jobs name
      different timeframes. */
  lemma OneWorkerPerMonth(run: seq<State>, steps: seq<Step>, i: nat, a: WorkerId, b: WorkerId)
    requires IsRun(run, steps) && i < |run|
    requires Slot(run[i], a.job, a.slot) && Holds(PcAt(run[i], a.job, a.slot))
    requires Slot(run[i], b.job, b.slot) && Holds(PcAt(run[i], b.job, b.slot))
    requires PartitionOf(SectionOf(run[i], a.job, a.slot)) == PartitionOf(SectionOf(run[i], b.job, b.slot))
    ensures a == b || run[i].jobs[a.job].key.tf != run[i].jobs[b.job].key.tf
  {
    RunInv(run, steps, i);
    assert SectionOf(run[i], a.job, a.slot) in run[i].monthLocks;
    assert SectionOf(run[i], b.job, b.slot) in run[i].monthLocks;
  }

  /** Every month any job reports as done is on disk, now and after restarts. */
  lemma DoneMonthsAreOnDisk(run: seq<State>, steps: seq<Step>, i: nat, j: nat, m: Month)
    requires IsRun(run, steps) && i < |run| && j < |run[i].jobs| && m in run[i].jobs[j].doneLog
    ensures Partition(run[i].jobs[j].key.symbol, m) in run[i].disk
  {
    RunInv(run, steps, i);
    assert DonePassed(run[i].jobs[j], run[i].passed);
    assert PartitionOf(LockKeyOf(run[i].jobs[j], m)) in run[i].disk;
  }

  // ---- the remaining-work estimate ----

  /** `total - done - skipped - failed`, as the snapshot computes it. */
  function Remaining(job: Job): int {
    job.total - job.done - job.skipped - job.failed
  }

  /** The guard under which the snapshot turns the figure into a time. */
  predicate Estimated(job: Job) {
    job.done > 0 && job.total > 0 && job.done + job.failed < job.total
  }

  /** How many workers have a month in hand. */
  function InHand(ws: seq<Pc>): nat {
    if ws == [] then 0 else (if HeldBy(ws[0]).Some? then 1 else 0) + InHand(ws[1..])
  }

  lemma {:induction false} TicketsTotal(ws: seq<Pc>) returns (held: seq<Month>)
    ensures forall m :: multiset(held)[m] == Tickets(ws, HeldBy, m)
    ensures |held| == InHand(ws)
  {
    if ws == [] {
      held := [];
    } else {
      var rest := TicketsTotal(ws[1..]);
      held := (if HeldBy(ws[0]).Some? then [HeldBy(ws[0]).value] else []) + rest;
    }
  }

  /** The months still to be worked on: queued, or in a worker's hand. */
  function Left(job: Job): nat {
    |job.queue| + InHand(job.workers)
  }

  lemma PlannedMonthsAddUp(job: Job, crew: int)
    requires JobInv(job, crew) && job.status != INTERRUPTED && job.status != LOST
    ensures job.total == Left(job) + |CountedMonths(job)|
  {
    var held := TicketsTotal(job.workers);
    var all := job.queue + held + CountedMonths(job);
    forall m ensures multiset(all)[m] == multiset(job.planned)[m] {
      assert multiset(job.planned)[m]
          == multiset(job.queue)[m] + Tickets(job.workers, HeldBy, m) + Counted(job, m);
    }
    assert multiset(all) == multiset(job.planned);
    assert |multiset(all)| == |all| && |multiset(job.planned)| == |job.planned|;
  }

  /** For any job of a run whose process is alive the figure is off by the empty months, which are over
      but stay in it, and by the months skipped at planning time, which `total_units` never contained but
      are taken out. It is the number of months left exactly when these are equally many, and negative
      exactly when the months skipped at planning time outnumber the months left and the empty ones.
      The snapshot uses it once a month is done and some planned month is neither done nor failed. */
  lemma RemainingIsOffBySkippedAtPlanning(run: seq<State>, steps: seq<Step>, i: nat, j: nat)
    requires IsRun(run, steps) && i < |run| && j < |run[i].jobs|
    requires run[i].jobs[j].status != INTERRUPTED && run[i].jobs[j].status != LOST
    ensures var job := run[i].jobs[j];
      && Remaining(job) == Left(job) + job.empty - job.preskipped
      && (Remaining(job) == Left(job) <==> job.empty == job.preskipped)
      && (Remaining(job) < 0 <==> job.preskipped > Left(job) + job.empty)
      && (Estimated(job) <==> job.done > 0 && Left(job) + job.empty + |job.skipLog| > 0)
  {
    RunInv(run, steps, i);
    PlannedMonthsAddUp(run[i].jobs[j], run[i].crew);
  }
}
