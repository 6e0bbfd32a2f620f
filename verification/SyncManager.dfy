/** The manager object. Each method is the code one task runs between two suspension points; it
    updates the fields in place and is tied to the step it performs. */
module SyncManager {
  import opened Series
  import opened Months
  import opened SyncModel
  import opened SyncInvariant
  import opened SyncSafety

  class Manager {
    const crew: int
    var jobs: seq<Job>
    var jobsByKey: map<Key, nat>
    var monthLocks: map<LockKey, WorkerId>
    var starts: seq<Start>
    var globalLock: Option<nat>
    // files the manager reads and writes
    var disk: set<Partition>
    var coverage: map<Partition, Coverage>
    var savedJobs: map<nat, Job>
    // history
    ghost var passed: set<LockKey>
    ghost var confirmed: set<LockKey>

    ghost function Abs(): State
      reads this
    {
      State(crew, jobs, jobsByKey, monthLocks, starts, globalLock, disk, coverage, savedJobs, passed, confirmed)
    }

    ghost predicate Valid()
      reads this
    {
      Inv(Abs())
    }

    constructor (crew: int, disk: set<Partition>, coverage: map<Partition, Coverage>)
      ensures Valid()
      ensures Abs() == Init(crew, disk, coverage)
    {
      this.crew, this.disk, this.coverage := crew, disk, coverage;
      jobs, jobsByKey, monthLocks, starts, globalLock, savedJobs := [], map[], map[], [], None, map[];
      passed, confirmed := {}, {};
      new;
      InitInv(crew, disk, coverage);
    }

    /** A method that performed an enabled step left the manager valid. */
    lemma StaysValid(before: State, step: Step)
      requires Inv(before) && Enabled(before, step) && Abs() == Apply(before, step)
      ensures Valid()
    {
      StepKeeps(before, step);
    }

    method Request(key: Key)
      modifies this
      ensures Abs() == Apply(old(Abs()), Step.Request(key))
    {
      starts := starts + [Waiting(key)];
    }

    /** `start_job` up to the rebuild: reuse a running job or start scanning under the global lock. */
    method EnterStart(r: nat)
      requires Enabled(Abs(), StartLocked(r))
      modifies this
      ensures Abs() == Apply(old(Abs()), StartLocked(r))
    {
      var key := starts[r].key;
      if key in jobsByKey {
        var existing := jobsByKey[key];
        if existing < |jobs| && jobs[existing].status == RUNNING {
          starts := starts[r := Returned(existing, false)];
          return;
        }
      }
      starts := starts[r := Scanning(key, false)];
      globalLock := Some(r);
    }

    /** The list comprehension `[m for m in all_months if m not in done_set]`. */
    method PlanMonths(all: seq<Month>, doneSet: set<Month>) returns (todo: seq<Month>)
      ensures todo == Without(all, doneSet)
    {
      todo := [];
      var i := |all|;
      while i > 0
        invariant 0 <= i <= |all|
        invariant todo == Without(all[i..], doneSet)
      {
        i := i - 1;
        assert all[i..][1..] == all[i + 1..];
        if all[i] !in doneSet {
          todo := [all[i]] + todo;
        }
      }
    }

    /** Replaces the coverage entries of the rebuilt symbol by what is on disk. */
    method RebuildCoverage(key: Key)
      modifies this`coverage, this`confirmed
      ensures Abs() == Rebuilt(old(Abs()), key)
    {
      if key.tf == M1 {
        var symbol := key.symbol;
        confirmed := set k | k in confirmed && k.symbol != symbol;
        coverage := map p | p in coverage.Keys + disk
                            && (if p.symbol == symbol then p in disk else p in coverage)
                      :: if p.symbol == symbol then CovDone else coverage[p];
      }
    }

    /** The rebuild thread of a waiting `start_job` writes the coverage index. */
    method LandStart(r: nat)
      requires Enabled(Abs(), StartLanded(r))
      modifies this
      ensures Abs() == Apply(old(Abs()), StartLanded(r))
    {
      hide Rebuilt;
      var key := starts[r].key;
      starts := starts[r := Scanning(key, true)];
      RebuildCoverage(key);
    }

    /** `start_job` after the rebuild returned the months it found. */
    method CompleteStart(r: nat, found: set<Month>)
      requires Enabled(Abs(), StartScanned(r, found))
      modifies this
      ensures Abs() == Apply(old(Abs()), StartScanned(r, found))
    {
      hide Rebuilt, Without, Span, DoTry, DoCheck, DoCommit, DoTake, DoLock, DoLaunch, DoFinish, DoRestart, DoStartLocked;
      var key := starts[r].key;
      var all := MonthsInRange(First(key.from), First(key.to));
      var todo := PlanMonths(all, found);
      var skip := |all| - |todo|;
      var id := |jobs|;
      var job := Job(key, RUNNING, |todo|, 0, skip, 0, 0, 0, 0, [], [], todo, skip, [], [], [], Created, todo, []);
      jobs := jobs + [job];
      jobsByKey := jobsByKey[key := id];
      starts := starts[r := Returned(id, true)];
      globalLock := None;
    }

    /** The rebuild or the date parsing raised: the lock is released and no job exists. */
    method AbandonStart(r: nat)
      requires Enabled(Abs(), StartRaised(r))
      modifies this
      ensures Abs() == Apply(old(Abs()), StartRaised(r))
    {
      starts := starts[r := Raised];
      globalLock := None;
    }

    /** `_run_job` up to the point where its workers exist. */
    method LaunchJob(j: nat)
      requires Enabled(Abs(), Launch(j))
      modifies this
      ensures Abs() == Apply(old(Abs()), Launch(j))
    {
      var job := jobs[j];
      if job.planned == [] {
        job := job.(status := DONE, phase := Ended);
      } else {
        var n := CrewSize(crew, |job.planned|);
        var ws: seq<Pc> := [];
        while |ws| < n
          invariant |ws| <= n && forall i :: 0 <= i < |ws| ==> ws[i] == Idle
        {
          ws := ws + [Idle];
        }
        assert ws == seq(n, _ => Idle);
        job := job.(phase := Draining, workers := ws);
      }
      jobs := jobs[j := job];
    }

    /** `queue.get_nowait()`, or the end of the worker. */
    method TakeMonth(j: nat, w: nat)
      requires Enabled(Abs(), Take(j, w))
      modifies this
      ensures Abs() == Apply(old(Abs()), Take(j, w))
    {
      var job := jobs[j];
      if job.queue == [] {
        job := job.(workers := job.workers[w := Exited]);
      } else {
        var month := job.queue[0];
        job := job.(queue := job.queue[1..]);
        job := job.(workers := job.workers[w := AwaitMonth(month)]);
      }
      jobs := jobs[j := job];
    }

    /** `async with lock`, once the month lock is free. */
    method AcquireMonth(j: nat, w: nat)
      requires Enabled(Abs(), Lock(j, w))
      modifies this
      ensures Abs() == Apply(old(Abs()), Lock(j, w))
    {
      var month := jobs[j].workers[w].month;
      monthLocks := monthLocks[LockKey(jobs[j].key.symbol, jobs[j].key.tf, month) := WorkerId(j, w)];
      jobs := jobs[j := jobs[j].(workers := jobs[j].workers[w := Checking(month)])];
    }

    /** `_process_month` from the lock to the first fetch, or to a skip. */
    method CheckMonth(j: nat, w: nat, look: Look)
      requires Enabled(Abs(), Check(j, w, look))
      modifies this
      ensures Abs() == Apply(old(Abs()), Check(j, w, look))
    {
      var job := jobs[j];
      var month := job.workers[w].month;
      var p := Partition(job.key.symbol, month);
      var next := Fetching(month, 0, 0, look == Unreadable);
      if look == Throws {
        monthLocks := monthLocks - {LockKey(job.key.symbol, job.key.tf, month)};
        next := AwaitGlobal(month, Crash, 0);
      } else if p in disk {
        next := AwaitGlobal(month, Skip, 0);
      } else if look == Readable && p in coverage && coverage[p] == CovEmpty {
        next := AwaitGlobal(month, Skip, 0);
      }
      jobs := jobs[j := job.(workers := job.workers[w := next])];
    }

    /** One pass of the retry loop after the fetch returned or raised. */
    method AttemptReturned(j: nat, w: nat, result: Attempt)
      requires Enabled(Abs(), Try(j, w, result))
      modifies this
      ensures Abs() == Apply(old(Abs()), Try(j, w, result))
    {
      var job := jobs[j];
      var pc := job.workers[w];
      var k := LockKey(job.key.symbol, job.key.tf, pc.month);
      var p := Partition(job.key.symbol, pc.month);
      var retries := pc.retries;
      var next;
      match result {
        case FetchError =>
          retries := pc.attempt + 1;
          next := if pc.attempt < RETRIES then Fetching(pc.month, pc.attempt + 1, retries, pc.blind)
                  else AwaitGlobal(pc.month, Tally(false), retries);
        case NoCandles(marked) =>
          if marked {
            coverage := coverage[p := CovEmpty];
            confirmed := confirmed + {k};
          }
          next := AwaitGlobal(pc.month, Empty, retries);
        case WriteError =>
          next := AwaitGlobal(pc.month, Fail, retries);
        case GateFailed =>
          disk := disk + {p};
          next := if pc.attempt < RETRIES then Fetching(pc.month, pc.attempt + 1, retries, pc.blind)
                  else AwaitGlobal(pc.month, Tally(false), retries);
        case GateThrows =>
          disk := disk + {p};
          monthLocks := monthLocks - {k};
          next := AwaitGlobal(pc.month, Crash, retries);
        case Accepted(suspect) =>
          disk := disk + {p};
          passed := passed + {k};
          next := AwaitGlobal(pc.month, if suspect then Suspect else Tally(true), retries);
      }
      jobs := jobs[j := job.(workers := job.workers[w := next])];
    }

    /** A section under the global lock, and the code after it up to the next suspension. */
    method CommitUpdate(j: nat, w: nat, marked: bool)
      requires Enabled(Abs(), Commit(j, w, marked))
      modifies this
      ensures Abs() == Apply(old(Abs()), Commit(j, w, marked))
    {
      var job := jobs[j];
      var pc := job.workers[w];
      var m := pc.month;
      var k := LockKey(job.key.symbol, job.key.tf, m);
      var next := Idle;
      match pc.update {
        case Skip =>
          job := job.(skipped := job.skipped + 1, skipLog := job.skipLog + [m]);
          monthLocks := monthLocks - {k};
        case Empty =>
          job := job.(empty := job.empty + 1, emptyLog := job.emptyLog + [m]);
          monthLocks := monthLocks - {k};
        case Fail =>
          job := job.(failed := job.failed + 1, failedMonths := job.failedMonths + [m]);
          monthLocks := monthLocks - {k};
        case Crash =>
          job := job.(failed := job.failed + 1, failedMonths := job.failedMonths + [m]);
        case Suspect =>
          job := job.(suspect := job.suspect + 1, suspectMonths := job.suspectMonths + [m]);
          next := AwaitGlobal(m, Tally(true), pc.retries);
        case Tally(ok) =>
          job := job.(retries := job.retries + pc.retries);
          if ok && marked {
            coverage := coverage[Partition(job.key.symbol, m) := CovDone];
          }
          next := AwaitGlobal(m, if ok then Success else Fail, pc.retries);
        case Success =>
          job := job.(done := job.done + 1, doneLog := job.doneLog + [m]);
          monthLocks := monthLocks - {k};
      }
      jobs := jobs[j := job.(workers := job.workers[w := next])];
    }

    /** `asyncio.gather` returned. */
    method GatherDone(j: nat)
      requires Enabled(Abs(), Gathered(j))
      modifies this
      ensures Abs() == Apply(old(Abs()), Gathered(j))
    {
      jobs := jobs[j := jobs[j].(phase := Rebuilding)];
    }

    /** The thread of the final rebuild writes the coverage index. */
    method LandFinal(j: nat)
      requires Enabled(Abs(), FinalLanded(j))
      modifies this
      ensures Abs() == Apply(old(Abs()), FinalLanded(j))
    {
      hide Rebuilt;
      var job := jobs[j];
      jobs := jobs[j := job.(phase := Rewritten)];
      RebuildCoverage(job.key);
    }

    /** The end of `_run_job` after the final rebuild, which may have raised. */
    method FinishJob(j: nat)
      requires Enabled(Abs(), Finish(j))
      modifies this
      ensures Abs() == Apply(old(Abs()), Finish(j))
    {
      var job := jobs[j];
      jobs := jobs[j := job.(status := if job.failed == 0 then DONE else FAILED, phase := Ended)];
    }

    /** `_persist_jobs`: a snapshot of at most `MAX_JOBS` jobs. */
    method PersistJobs(keep: set<nat>)
      requires |keep| <= MAX_JOBS
      modifies this
      ensures Abs() == Apply(old(Abs()), Save(keep))
    {
      savedJobs := map i | i in keep && i < |jobs| && jobs[i].status != LOST :: jobs[i];
    }

    /** A new process: `_load_jobs` reads the snapshot, and everything held in memory is gone. */
    method LoadJobs()
      modifies this
      ensures Abs() == Apply(old(Abs()), Restart)
    {
      ghost var before := Abs();
      var loaded: seq<Job> := [];
      while |loaded| < |jobs|
        invariant Abs() == before && |loaded| <= |jobs|
        invariant forall i :: 0 <= i < |loaded| ==> loaded[i] == Reloaded(before, i)
      {
        var i := |loaded|;
        var job := jobs[i].(status := LOST, phase := Ended, queue := [], workers := []);
        if i in savedJobs {
          job := savedJobs[i];
          if job.status == RUNNING {
            job := job.(status := INTERRUPTED, phase := Ended, queue := [], workers := []);
          }
        }
        loaded := loaded + [job];
      }
      var dropped: seq<Start> := [];
      while |dropped| < |starts|
        invariant Abs() == before && |dropped| <= |starts|
        invariant forall i :: 0 <= i < |dropped| ==> dropped[i] == Dropped(starts[i])
      {
        dropped := dropped + [if starts[|dropped|].Returned? then starts[|dropped|] else Raised];
      }
      assert loaded == DoRestart(before).jobs;
      assert dropped == DoRestart(before).starts;
      jobs, starts, jobsByKey, monthLocks, globalLock := loaded, dropped, map[], map[], None;
    }
  }
}
