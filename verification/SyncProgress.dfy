/** No deadlock and termination: while anything is unfinished some task can move, and every task
    step uses up a finite budget. */
module SyncProgress {
  import opened Series
  import opened Months
  import opened SyncModel
  import opened SyncInvariant
  import opened SyncSafety

  /** Steps of tasks that already exist, as opposed to new requests, persistence and restarts. */
  predicate TaskStep(step: Step) {
    !step.Request? && !step.Save? && !step.Restart?
  }

  ghost predicate Settled(s: State) {
    && (forall j :: 0 <= j < |s.jobs| ==> s.jobs[j].phase == Ended)
    && (forall r :: 0 <= r < |s.starts| ==> s.starts[r].Returned? || s.starts[r].Raised?)
  }

  // ---- no deadlock ----

  /** A worker inside a month section can always move once the global lock is free. */
  lemma InsiderMoves(s: State, j: nat, w: nat) returns (step: Step)
    requires Inv(s) && s.globalLock.None? && Slot(s, j, w) && s.jobs[j].phase == Draining
    requires Holds(PcAt(s, j, w)) || PcAt(s, j, w).AwaitGlobal?
    ensures TaskStep(step) && Enabled(s, step)
  {
    var pc := PcAt(s, j, w);
    if pc.Checking? {
      step := Check(j, w, Readable);
    } else if pc.Fetching? {
      step := Try(j, w, FetchError);
    } else {
      step := Commit(j, w, false);
    }
  }

  lemma OwnerDrains(s: State, k: LockKey)
    requires Inv(s) && k in s.monthLocks
    ensures var id := s.monthLocks[k];
      Slot(s, id.job, id.slot) && s.jobs[id.job].phase == Draining && Holds(PcAt(s, id.job, id.slot))
  {
    var id := s.monthLocks[k];
    assert Slot(s, id.job, id.slot) && Holds(PcAt(s, id.job, id.slot));
    assert JobInv(s.jobs[id.job], s.crew);
  }

  lemma WorkerMoves(s: State, j: nat, w: nat) returns (step: Step)
    requires Inv(s) && s.globalLock.None? && Working(s, j, w) && !PcAt(s, j, w).Exited?
    ensures TaskStep(step) && Enabled(s, step)
  {
    var pc := PcAt(s, j, w);
    if pc.Idle? {
      step := Take(j, w);
    } else if pc.AwaitMonth? {
      var k := LockKeyOf(s.jobs[j], pc.month);
      if k in s.monthLocks {
        OwnerDrains(s, k);
        step := InsiderMoves(s, s.monthLocks[k].job, s.monthLocks[k].slot);
      } else {
        step := Lock(j, w);
      }
    } else {
      step := InsiderMoves(s, j, w);
    }
  }

  lemma JobMoves(s: State, j: nat) returns (step: Step)
    requires Inv(s) && s.globalLock.None? && j < |s.jobs| && s.jobs[j].phase != Ended
    ensures TaskStep(step) && Enabled(s, step)
  {
    var job := s.jobs[j];
    match job.phase
    case Created => step := Launch(j);
    case Rebuilding => step := Finish(j);
    case Rewritten => step := Finish(j);
    case Draining =>
      if AllExited(job.workers) {
        step := Gathered(j);
      } else {
        var w :| 0 <= w < |job.workers| && job.workers[w] != Exited;
        step := WorkerMoves(s, j, w);
      }
  }

  /** There is no deadlock: in every reachable state where a job or a call is unfinished, some task
      has an enabled step. Month locks are taken before the global lock, never after it. */
  lemma NoDeadlock(run: seq<State>, steps: seq<Step>, i: nat) returns (step: Step)
    requires IsRun(run, steps) && i < |run| && !Settled(run[i])
    ensures TaskStep(step) && Enabled(run[i], step)
  {
    RunInv(run, steps, i);
    var s := run[i];
    if s.globalLock.Some? {
      var r := s.globalLock.value;
      step := if ValidKey(s.starts[r].key) then StartScanned(r, {}) else StartRaised(r);
    } else if r :| 0 <= r < |s.starts| && !s.starts[r].Returned? && !s.starts[r].Raised? {
      step := StartLocked(r);
    } else {
      var j :| 0 <= j < |s.jobs| && s.jobs[j].phase != Ended;
      step := JobMoves(s, j);
    }
  }

  // ---- a budget that every task step uses up ----

  function PcBudget(pc: Pc): nat {
    match pc
    case Exited => 0
    case Idle => 1
    case AwaitGlobal(_, u, _) => if u.Suspect? then 4 else if u.Tally? then 3 else 2
    case Fetching(_, attempt, _, _) => if attempt <= RETRIES then 5 + RETRIES - attempt else 5
    case Checking(_) => 9
    case AwaitMonth(_) => 10
  }

  function CrewBudget(ws: seq<Pc>): nat {
    if ws == [] then 0 else PcBudget(ws[0]) + CrewBudget(ws[1..])
  }

  function JobBudget(job: Job): nat {
    match job.phase
    case Created => 4 + 11 * |job.queue|
    case Draining => 3 + 10 * |job.queue| + CrewBudget(job.workers)
    case Rebuilding => 2
    case Rewritten => 1
    case Ended => 0
  }

  function StartBudget(st: Start): nat {
    match st
    case Waiting(key) => 7 + 11 * |Range(key)|
    case Scanning(key, landed) => (if landed then 5 else 6) + 11 * |Range(key)|
    case _ => 0
  }

  function JobsBudget(jobs: seq<Job>): nat {
    if jobs == [] then 0 else JobBudget(jobs[0]) + JobsBudget(jobs[1..])
  }

  function StartsBudget(starts: seq<Start>): nat {
    if starts == [] then 0 else StartBudget(starts[0]) + StartsBudget(starts[1..])
  }

  function Budget(s: State): nat {
    JobsBudget(s.jobs) + StartsBudget(s.starts)
  }

  lemma {:induction false} CrewUpdate(ws: seq<Pc>, i: nat, pc: Pc)
    requires i < |ws|
    ensures CrewBudget(ws[i := pc]) + PcBudget(ws[i]) == CrewBudget(ws) + PcBudget(pc)
  {
    if i == 0 {
      assert ws[i := pc][1..] == ws[1..];
    } else {
      CrewUpdate(ws[1..], i - 1, pc);
      assert ws[i := pc][1..] == ws[1..][i - 1 := pc];
    }
  }

  lemma {:induction false} IdleCrew(ws: seq<Pc>)
    requires forall i :: 0 <= i < |ws| ==> ws[i] == Idle
    ensures CrewBudget(ws) == |ws|
  {
    if ws != [] { IdleCrew(ws[1..]); }
  }

  lemma {:induction false} JobsUpdate(jobs: seq<Job>, i: nat, job: Job)
    requires i < |jobs|
    ensures JobsBudget(jobs[i := job]) + JobBudget(jobs[i]) == JobsBudget(jobs) + JobBudget(job)
  {
    if i == 0 {
      assert jobs[i := job][1..] == jobs[1..];
    } else {
      JobsUpdate(jobs[1..], i - 1, job);
      assert jobs[i := job][1..] == jobs[1..][i - 1 := job];
    }
  }

  lemma {:induction false} JobsAppend(jobs: seq<Job>, job: Job)
    ensures JobsBudget(jobs + [job]) == JobsBudget(jobs) + JobBudget(job)
  {
    if jobs == [] {
      assert jobs + [job] == [job];
    } else {
      JobsAppend(jobs[1..], job);
      assert (jobs + [job])[1..] == jobs[1..] + [job];
    }
  }

  lemma {:induction false} StartsUpdate(starts: seq<Start>, i: nat, st: Start)
    requires i < |starts|
    ensures StartsBudget(starts[i := st]) + StartBudget(starts[i]) == StartsBudget(starts) + StartBudget(st)
  {
    if i == 0 {
      assert starts[i := st][1..] == starts[1..];
    } else {
      StartsUpdate(starts[1..], i - 1, st);
      assert starts[i := st][1..] == starts[1..][i - 1 := st];
    }
  }

  /** One job moves to a cheaper state and nothing else changes. */
  lemma JobSpends(s: State, t: State, j: nat, job: Job)
    requires j < |s.jobs| && t.jobs == s.jobs[j := job] && t.starts == s.starts
    requires JobBudget(job) < JobBudget(s.jobs[j])
    ensures Budget(t) < Budget(s)
  {
    JobsUpdate(s.jobs, j, job);
  }

  lemma WorkerSpends(s: State, t: State, j: nat, w: nat, pc: Pc)
    requires Working(s, j, w) && t.starts == s.starts
    requires |t.jobs| == |s.jobs| && t.jobs == s.jobs[j := t.jobs[j]]
    requires t.jobs[j].phase == Draining && t.jobs[j].queue == s.jobs[j].queue
    requires t.jobs[j].workers == s.jobs[j].workers[w := pc]
    requires PcBudget(pc) < PcBudget(s.jobs[j].workers[w])
    ensures Budget(t) < Budget(s)
  {
    CrewUpdate(s.jobs[j].workers, w, pc);
    JobSpends(s, t, j, t.jobs[j]);
  }

  lemma TakeSpends(s: State, j: nat, w: nat)
    requires Enabled(s, Take(j, w))
    ensures Budget(DoTake(s, j, w)) < Budget(s)
  {
    var job := s.jobs[j];
    if job.queue == [] {
      WorkerSpends(s, DoTake(s, j, w), j, w, Exited);
    } else {
      CrewUpdate(job.workers, w, AwaitMonth(job.queue[0]));
      JobSpends(s, DoTake(s, j, w), j, DoTake(s, j, w).jobs[j]);
    }
  }

  lemma LaunchSpends(s: State, j: nat)
    requires Inv(s) && Enabled(s, Launch(j))
    ensures Budget(DoLaunch(s, j)) < Budget(s)
  {
    var job := s.jobs[j];
    assert JobInv(job, s.crew);
    if job.planned != [] {
      IdleCrew(seq(CrewSize(s.crew, |job.planned|), _ => Idle));
    }
    JobSpends(s, DoLaunch(s, j), j, DoLaunch(s, j).jobs[j]);
  }

  lemma ScanSpends(s: State, r: nat, found: set<Month>)
    requires Enabled(s, StartScanned(r, found))
    ensures Budget(DoStartScanned(s, r, found)) < Budget(s)
  {
    var key := s.starts[r].key;
    JobsAppend(s.jobs, NewJob(key, found));
    StartsUpdate(s.starts, r, Returned(|s.jobs|, true));
  }

  lemma StartLockedSpends(s: State, r: nat)
    requires Enabled(s, StartLocked(r))
    ensures Budget(DoStartLocked(s, r)) < Budget(s)
  {
    StartsUpdate(s.starts, r, DoStartLocked(s, r).starts[r]);
  }

  lemma LockSpends(s: State, j: nat, w: nat)
    requires Enabled(s, Lock(j, w))
    ensures Budget(DoLock(s, j, w)) < Budget(s)
  {
    WorkerSpends(s, DoLock(s, j, w), j, w, Checking(PcAt(s, j, w).month));
  }

  lemma CheckSpends(s: State, j: nat, w: nat, look: Look)
    requires Enabled(s, Check(j, w, look))
    ensures Budget(DoCheck(s, j, w, look)) < Budget(s)
  {
    CheckShape(s, j, w, look);
    WorkerSpends(s, DoCheck(s, j, w, look), j, w, CheckedPc(s, s.jobs[j], PcAt(s, j, w).month, look));
  }

  lemma TrySpends(s: State, j: nat, w: nat, result: Attempt)
    requires Enabled(s, Try(j, w, result))
    ensures Budget(DoTry(s, j, w, result)) < Budget(s)
  {
    TryShape(s, j, w, result);
    WorkerSpends(s, DoTry(s, j, w, result), j, w, NextPc(PcAt(s, j, w), result));
  }

  lemma CommitSpends(s: State, j: nat, w: nat, marked: bool)
    requires Enabled(s, Commit(j, w, marked))
    ensures Budget(DoCommit(s, j, w, marked)) < Budget(s)
  {
    var was := PcAt(s, j, w);
    CommitShape(s, j, w, marked);
    WorkerSpends(s, DoCommit(s, j, w, marked), j, w, AfterUpdate(was.month, was.update, was.retries));
  }

  lemma FinishSpends(s: State, j: nat)
    requires j < |s.jobs|
    ensures Enabled(s, FinalLanded(j)) ==> Budget(DoFinalLanded(s, j)) < Budget(s)
    ensures Enabled(s, Finish(j)) ==> Budget(DoFinish(s, j)) < Budget(s)
  {
    if Enabled(s, FinalLanded(j)) {
      JobSpends(s, DoFinalLanded(s, j), j, s.jobs[j].(phase := Rewritten));
    }
    if Enabled(s, Finish(j)) {
      JobSpends(s, DoFinish(s, j), j, DoFinish(s, j).jobs[j]);
    }
  }

  lemma StepSpends(s: State, step: Step)
    requires Inv(s) && Enabled(s, step) && TaskStep(step)
    ensures Budget(Apply(s, step)) < Budget(s)
  {
    match step
    case StartLocked(r) => StartLockedSpends(s, r);
    case StartLanded(r) => StartsUpdate(s.starts, r, Scanning(s.starts[r].key, true));
    case StartScanned(r, found) => ScanSpends(s, r, found);
    case StartRaised(r) => StartsUpdate(s.starts, r, Raised);
    case Launch(j) => LaunchSpends(s, j);
    case Take(j, w) => TakeSpends(s, j, w);
    case Lock(j, w) => LockSpends(s, j, w);
    case Check(j, w, look) => CheckSpends(s, j, w, look);
    case Try(j, w, result) => TrySpends(s, j, w, result);
    case Commit(j, w, marked) => CommitSpends(s, j, w, marked);
    case Gathered(j) => JobSpends(s, Apply(s, step), j, s.jobs[j].(phase := Rebuilding));
    case FinalLanded(j) => FinishSpends(s, j);
    case Finish(j) => FinishSpends(s, j);
  }

  /** From any state of a run, at most `Budget` task steps can follow without a new request or a
      restart, and a stretch that cannot be extended ends with every job and every call finished. */
  lemma {:induction false} TasksRunOut(run: seq<State>, steps: seq<Step>, from: nat)
    requires IsRun(run, steps) && from <= |steps|
    requires forall x :: from <= x < |steps| ==> TaskStep(steps[x])
    ensures |steps| - from + Budget(run[|steps|]) <= Budget(run[from])
    ensures (forall step :: TaskStep(step) ==> !Enabled(run[|steps|], step)) ==> Settled(run[|steps|])
    decreases |steps| - from
  {
    if from < |steps| {
      RunInv(run, steps, from);
      StepSpends(run[from], steps[from]);
      TasksRunOut(run, steps, from + 1);
    } else if !Settled(run[|steps|]) {
      var step := NoDeadlock(run, steps, |steps|);
    }
  }
}
