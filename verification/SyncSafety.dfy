/** Every step keeps the invariant, so every state of every run satisfies it. */
module SyncSafety {
  import opened Series
  import opened Months
  import opened SyncModel
  import opened SyncInvariant

  // ---- one worker moves ----

  /** Between `s` and `t` worker `(j, w)` moved to `pc`; the other workers and all job keys are as before. */
  ghost predicate Moves(s: State, t: State, j: nat, w: nat, pc: Pc) {
    && Slot(s, j, w)
    && |t.jobs| == |s.jobs|
    && t.jobs[j].key == s.jobs[j].key
    && t.jobs[j].workers == s.jobs[j].workers[w := pc]
    && forall i :: 0 <= i < |s.jobs| && i != j ==> t.jobs[i] == s.jobs[i]
  }

  lemma Others(s: State, t: State, j: nat, w: nat, pc: Pc, j': nat, w': nat)
    requires Moves(s, t, j, w, pc)
    ensures Slot(t, j', w') <==> Slot(s, j', w')
    ensures Slot(s, j', w') ==> PcAt(t, j', w') == if j' == j && w' == w then pc else PcAt(s, j', w')
    ensures Slot(s, j', w') ==> t.jobs[j'].key == s.jobs[j'].key
  {}

  /** The worker stays inside, or outside, the same section and the locks do not change. */
  lemma KeepsLocks(s: State, t: State, j: nat, w: nat, pc: Pc)
    requires OwnersInv(s) && LocksInv(s) && Moves(s, t, j, w, pc)
    requires t.monthLocks == s.monthLocks
    requires Holds(pc) == Holds(PcAt(s, j, w))
    requires Holds(pc) ==> pc.month == PcAt(s, j, w).month
    ensures OwnersInv(t) && LocksInv(t)
  {
    forall j': nat, w': nat | Slot(t, j', w') && Holds(PcAt(t, j', w'))
      ensures SectionOf(t, j', w') in t.monthLocks && t.monthLocks[SectionOf(t, j', w')] == WorkerId(j', w')
    {
      Others(s, t, j, w, pc, j', w');
      assert SectionOf(s, j', w') in s.monthLocks;
    }
    forall k | k in t.monthLocks
      ensures var id := t.monthLocks[k];
        Slot(t, id.job, id.slot) && Holds(PcAt(t, id.job, id.slot)) && SectionOf(t, id.job, id.slot) == k
    {
      var id := s.monthLocks[k];
      Others(s, t, j, w, pc, id.job, id.slot);
    }
  }

  /** The worker enters a section whose lock was free. */
  lemma GainsLock(s: State, t: State, j: nat, w: nat, pc: Pc, k: LockKey)
    requires OwnersInv(s) && LocksInv(s) && Moves(s, t, j, w, pc)
    requires !Holds(PcAt(s, j, w)) && Holds(pc) && LockKeyOf(s.jobs[j], pc.month) == k
    requires k !in s.monthLocks && t.monthLocks == s.monthLocks[k := WorkerId(j, w)]
    ensures OwnersInv(t) && LocksInv(t)
  {
    forall j': nat, w': nat | Slot(t, j', w') && Holds(PcAt(t, j', w'))
      ensures SectionOf(t, j', w') in t.monthLocks && t.monthLocks[SectionOf(t, j', w')] == WorkerId(j', w')
    {
      Others(s, t, j, w, pc, j', w');
      if j' != j || w' != w { assert SectionOf(s, j', w') in s.monthLocks; }
    }
    forall k' | k' in t.monthLocks
      ensures var id := t.monthLocks[k'];
        Slot(t, id.job, id.slot) && Holds(PcAt(t, id.job, id.slot)) && SectionOf(t, id.job, id.slot) == k'
    {
      var id := t.monthLocks[k'];
      Others(s, t, j, w, pc, id.job, id.slot);
    }
  }

  /** The worker leaves its section and releases the lock. */
  lemma LosesLock(s: State, t: State, j: nat, w: nat, pc: Pc)
    requires OwnersInv(s) && LocksInv(s) && Moves(s, t, j, w, pc)
    requires Holds(PcAt(s, j, w)) && !Holds(pc)
    requires t.monthLocks == s.monthLocks - {SectionOf(s, j, w)}
    ensures OwnersInv(t) && LocksInv(t)
  {
    forall j': nat, w': nat | Slot(t, j', w') && Holds(PcAt(t, j', w'))
      ensures SectionOf(t, j', w') in t.monthLocks && t.monthLocks[SectionOf(t, j', w')] == WorkerId(j', w')
    {
      Others(s, t, j, w, pc, j', w');
      assert SectionOf(s, j', w') in s.monthLocks;
      assert SectionOf(s, j, w) in s.monthLocks;
    }
    forall k' | k' in t.monthLocks
      ensures var id := t.monthLocks[k'];
        Slot(t, id.job, id.slot) && Holds(PcAt(t, id.job, id.slot)) && SectionOf(t, id.job, id.slot) == k'
    {
      var id := s.monthLocks[k'];
      Others(s, t, j, w, pc, id.job, id.slot);
    }
  }

  /** The histories grow by the section of the moving worker at most, and lose no gate passage. */
  ghost predicate HistoriesFollow(s: State, t: State, j: nat, w: nat, pc: Pc)
    requires Slot(s, j, w)
  {
    && s.passed <= t.passed
    && (forall k :: k in t.passed ==> k in s.passed || (Holds(PcAt(s, j, w)) && k == SectionOf(s, j, w)))
    && (forall k :: k in t.confirmed ==> k in s.confirmed || (Holds(PcAt(s, j, w)) && k == SectionOf(s, j, w)))
    && (Holds(pc) ==> PcInv(pc, LockKeyOf(s.jobs[j], pc.month), t.passed, t.confirmed))
  }

  lemma KeepsFetching(s: State, t: State, j: nat, w: nat, pc: Pc)
    requires FetchInv(s) && OwnersInv(s) && Moves(s, t, j, w, pc) && HistoriesFollow(s, t, j, w, pc)
    ensures FetchInv(t)
  {
    forall j': nat, w': nat | Slot(t, j', w') && Holds(PcAt(t, j', w'))
      ensures PcInv(PcAt(t, j', w'), SectionOf(t, j', w'), t.passed, t.confirmed)
    {
      Others(s, t, j, w, pc, j', w');
      if j' != j || w' != w {
        assert SectionOf(s, j', w') in s.monthLocks;
        if Holds(PcAt(s, j, w)) {
          assert SectionOf(s, j, w) in s.monthLocks;
          assert SectionOf(s, j', w') != SectionOf(s, j, w);
        }
        assert PcInv(PcAt(s, j', w'), SectionOf(s, j', w'), s.passed, s.confirmed);
      }
    }
  }

  /** One job is replaced by another with the same key that satisfies the job invariant and is not
      newly running. */
  lemma KeepsJobs(s: State, t: State, j: nat, job: Job)
    requires JobsInv(s) && Registry(s) && StartsInv(s) && j < |s.jobs|
    requires t.jobs == s.jobs[j := job] && t.byKey == s.byKey && t.crew == s.crew && t.starts == s.starts
    requires JobInv(job, s.crew) && job.key == s.jobs[j].key
    requires job.status == RUNNING ==> s.jobs[j].status == RUNNING
    ensures JobsInv(t) && Registry(t) && StartsInv(t)
  {
    assert forall key :: Reusable(t, key) ==> Reusable(s, key);
  }

  // ---- the worker steps ----

  /** The parts of the state a worker step never touches. */
  ghost predicate SameFrame(s: State, t: State) {
    t.crew == s.crew && t.byKey == s.byKey && t.starts == s.starts && t.globalLock == s.globalLock && t.saved == s.saved
  }

  /** The locks follow the worker: unchanged, taken from free, or released. */
  ghost predicate LocksFollow(s: State, t: State, j: nat, w: nat, pc: Pc)
    requires Slot(s, j, w)
  {
    if Holds(PcAt(s, j, w)) == Holds(pc) then
      t.monthLocks == s.monthLocks && (Holds(pc) ==> pc.month == PcAt(s, j, w).month)
    else if Holds(pc) then
      var k := LockKeyOf(s.jobs[j], pc.month);
      k !in s.monthLocks && t.monthLocks == s.monthLocks[k := WorkerId(j, w)]
    else
      t.monthLocks == s.monthLocks - {SectionOf(s, j, w)}
  }

  lemma WorkerKeeps(s: State, t: State, j: nat, w: nat, pc: Pc)
    requires Inv(s) && Slot(s, j, w) && SameFrame(s, t)
    requires |t.jobs| == |s.jobs| && t.jobs == s.jobs[j := t.jobs[j]]
    requires t.jobs[j].key == s.jobs[j].key && t.jobs[j].workers == s.jobs[j].workers[w := pc]
    requires t.jobs[j].status == s.jobs[j].status
    requires JobInv(t.jobs[j], s.crew)
    requires LocksFollow(s, t, j, w, pc) && HistoriesFollow(s, t, j, w, pc) && HistoryInv(t)
    requires DonePassed(t.jobs[j], t.passed)
    ensures Inv(t)
  {
    KeepsJobs(s, t, j, t.jobs[j]);
    assert Moves(s, t, j, w, pc);
    if Holds(PcAt(s, j, w)) == Holds(pc) {
      KeepsLocks(s, t, j, w, pc);
    } else if Holds(pc) {
      GainsLock(s, t, j, w, pc, LockKeyOf(s.jobs[j], pc.month));
    } else {
      LosesLock(s, t, j, w, pc);
    }
    KeepsFetching(s, t, j, w, pc);
  }

  lemma TakeKeeps(s: State, j: nat, w: nat)
    requires Inv(s) && Enabled(s, Take(j, w))
    ensures Inv(DoTake(s, j, w))
  {
    hide JobInv;
    var job := s.jobs[j];
    TakeBooks(job, s.crew, w);
    WorkerKeeps(s, DoTake(s, j, w), j, w, if job.queue == [] then Exited else AwaitMonth(job.queue[0]));
  }

  lemma LockKeeps(s: State, j: nat, w: nat)
    requires Inv(s) && Enabled(s, Lock(j, w))
    ensures Inv(DoLock(s, j, w))
  {
    var job := s.jobs[j];
    var pc := Checking(job.workers[w].month);
    MoveBooks(job, s.crew, w, pc);
    WorkerKeeps(s, DoLock(s, j, w), j, w, pc);
  }

  /** Where `_process_month` goes once it has looked at the disk and the coverage index. */
  function CheckedPc(s: State, job: Job, m: Month, look: Look): Pc {
    var p := Partition(job.key.symbol, m);
    if look == Throws then AwaitGlobal(m, Crash, 0)
    else if p in s.disk || (look == Readable && KnownEmpty(s, p)) then AwaitGlobal(m, Skip, 0)
    else Fetching(m, 0, 0, look == Unreadable)
  }

  lemma CheckShape(s: State, j: nat, w: nat, look: Look)
    requires Enabled(s, Check(j, w, look))
    ensures var t := DoCheck(s, j, w, look);
      && SameFrame(s, t) && t.disk == s.disk && t.coverage == s.coverage
      && t.passed == s.passed && t.confirmed == s.confirmed
      && t.jobs == s.jobs[j := WithPc(s.jobs[j], w, CheckedPc(s, s.jobs[j], PcAt(s, j, w).month, look))]
      && t.monthLocks == if look == Throws then s.monthLocks - {SectionOf(s, j, w)} else s.monthLocks
  {}

  lemma CheckFollows(s: State, t: State, j: nat, w: nat, look: Look)
    requires Inv(s) && Enabled(s, Check(j, w, look))
    requires t.passed == s.passed && t.confirmed == s.confirmed
    requires t.monthLocks == if look == Throws then s.monthLocks - {SectionOf(s, j, w)} else s.monthLocks
    ensures var pc := CheckedPc(s, s.jobs[j], PcAt(s, j, w).month, look);
      LocksFollow(s, t, j, w, pc) && HistoriesFollow(s, t, j, w, pc)
  {
    var k := SectionOf(s, j, w);
    assert PartitionOf(k) == Partition(s.jobs[j].key.symbol, PcAt(s, j, w).month);
  }

  lemma CheckKeeps(s: State, j: nat, w: nat, look: Look)
    requires Inv(s) && Enabled(s, Check(j, w, look))
    ensures Inv(DoCheck(s, j, w, look))
  {
    var pc := CheckedPc(s, s.jobs[j], PcAt(s, j, w).month, look);
    CheckShape(s, j, w, look);
    MoveBooks(s.jobs[j], s.crew, w, pc);
    CheckFollows(s, DoCheck(s, j, w, look), j, w, look);
    WorkerKeeps(s, DoCheck(s, j, w, look), j, w, pc);
  }

  lemma EffectsKeepHistory(s: State, k: LockKey, result: Attempt)
    requires HistoryInv(s)
    ensures HistoryInv(Effects(s, k, result))
  {
    var t := Effects(s, k, result);
    forall k' | k' in t.passed ensures PartitionOf(k') in t.disk {}
    forall k' | k' in t.confirmed ensures PartitionOf(k') in t.disk || KnownEmpty(t, PartitionOf(k')) {}
  }

  /** An attempt touches its own job's worker, the disk, the coverage index, the lock and the histories. */
  lemma TryShape(s: State, j: nat, w: nat, result: Attempt)
    requires Enabled(s, Try(j, w, result))
    ensures var t := DoTry(s, j, w, result);
      var k := SectionOf(s, j, w);
      && SameFrame(s, t)
      && t.jobs == s.jobs[j := WithPc(s.jobs[j], w, NextPc(PcAt(s, j, w), result))]
      && t.monthLocks == (if result.GateThrows? then s.monthLocks - {k} else s.monthLocks)
      && t.passed == (if result.Accepted? then s.passed + {k} else s.passed)
      && t.confirmed == (if result == NoCandles(true) then s.confirmed + {k} else s.confirmed)
  {}

  lemma TryHistory(s: State, j: nat, w: nat, result: Attempt)
    requires HistoryInv(s) && Enabled(s, Try(j, w, result))
    ensures HistoryInv(DoTry(s, j, w, result))
  {
    EffectsKeepHistory(WithJob(s, j, WithPc(s.jobs[j], w, NextPc(PcAt(s, j, w), result))), SectionOf(s, j, w), result);
  }

  lemma TryFollows(s: State, t: State, j: nat, w: nat, result: Attempt)
    requires Slot(s, j, w) && PcAt(s, j, w).Fetching?
    requires PcInv(PcAt(s, j, w), SectionOf(s, j, w), s.passed, s.confirmed)
    requires t.monthLocks == if result.GateThrows? then s.monthLocks - {SectionOf(s, j, w)} else s.monthLocks
    requires t.passed == if result.Accepted? then s.passed + {SectionOf(s, j, w)} else s.passed
    requires t.confirmed == if result == NoCandles(true) then s.confirmed + {SectionOf(s, j, w)} else s.confirmed
    ensures LocksFollow(s, t, j, w, NextPc(PcAt(s, j, w), result))
    ensures HistoriesFollow(s, t, j, w, NextPc(PcAt(s, j, w), result))
  {}

  lemma TryKeeps(s: State, j: nat, w: nat, result: Attempt)
    requires Inv(s) && Enabled(s, Try(j, w, result))
    ensures Inv(DoTry(s, j, w, result))
  {
    var pc := NextPc(PcAt(s, j, w), result);
    TryShape(s, j, w, result);
    TryHistory(s, j, w, result);
    MoveBooks(s.jobs[j], s.crew, w, pc);
    TryFollows(s, DoTry(s, j, w, result), j, w, result);
    WorkerKeeps(s, DoTry(s, j, w, result), j, w, pc);
  }

  lemma CommitShape(s: State, j: nat, w: nat, marked: bool)
    requires Enabled(s, Commit(j, w, marked))
    ensures var t := DoCommit(s, j, w, marked);
      var was := PcAt(s, j, w);
      && SameFrame(s, t) && t.disk == s.disk
      && t.jobs == s.jobs[j := Committed(s.jobs[j], w)]
      && t.passed == s.passed && t.confirmed == s.confirmed
      && t.monthLocks == (if Releases(was.update) then s.monthLocks - {LockKeyOf(s.jobs[j], was.month)} else s.monthLocks)
      && (t.coverage == s.coverage
          || (was.update == Tally(true)
              && t.coverage == s.coverage[Partition(s.jobs[j].key.symbol, was.month) := CovDone]))
  {}

  /** Marking a month done in the coverage index hides no month that was confirmed empty: the month
      being marked is on disk. */
  lemma CommitHistory(s: State, t: State, j: nat, w: nat)
    requires Inv(s) && Working(s, j, w) && PcAt(s, j, w).AwaitGlobal?
    requires t.disk == s.disk && t.passed == s.passed && t.confirmed == s.confirmed
    requires t.coverage == s.coverage
          || (PcAt(s, j, w).update == Tally(true)
              && t.coverage == s.coverage[Partition(s.jobs[j].key.symbol, PcAt(s, j, w).month) := CovDone])
    ensures HistoryInv(t)
    ensures DonePassed(Committed(s.jobs[j], w), t.passed)
  {
    if Holds(PcAt(s, j, w)) {
      assert PcInv(PcAt(s, j, w), SectionOf(s, j, w), s.passed, s.confirmed);
    }
    forall k | k in t.confirmed ensures PartitionOf(k) in t.disk || KnownEmpty(t, PartitionOf(k)) {
      assert PartitionOf(k) in s.disk || KnownEmpty(s, PartitionOf(k));
    }
    assert DonePassed(s.jobs[j], s.passed);
  }

  lemma CommitFollows(s: State, t: State, j: nat, w: nat)
    requires Slot(s, j, w) && PcAt(s, j, w).AwaitGlobal?
    requires Holds(PcAt(s, j, w)) ==> PcInv(PcAt(s, j, w), SectionOf(s, j, w), s.passed, s.confirmed)
    requires t.passed == s.passed && t.confirmed == s.confirmed
    requires var was := PcAt(s, j, w);
      t.monthLocks == if Releases(was.update) then s.monthLocks - {LockKeyOf(s.jobs[j], was.month)} else s.monthLocks
    ensures var was := PcAt(s, j, w);
      var pc := AfterUpdate(was.month, was.update, was.retries);
      LocksFollow(s, t, j, w, pc) && HistoriesFollow(s, t, j, w, pc)
  {}

  lemma CommitKeeps(s: State, j: nat, w: nat, marked: bool)
    requires Inv(s) && Enabled(s, Commit(j, w, marked))
    ensures Inv(DoCommit(s, j, w, marked))
  {
    hide Conserved, Marked, Planned, Tallied, Staffed, HistoriesFollow, LocksFollow, DoCommit;
    var was := PcAt(s, j, w);
    CommitBooks(s.jobs[j], s.crew, w);
    CommitShape(s, j, w, marked);
    CommitHistory(s, DoCommit(s, j, w, marked), j, w);
    CommitFollows(s, DoCommit(s, j, w, marked), j, w);
    WorkerKeeps(s, DoCommit(s, j, w, marked), j, w, AfterUpdate(was.month, was.update, was.retries));
  }

  // ---- the steps of a job as a whole ----

  /** Nobody in this job is inside a month section. */
  ghost predicate Quiet(job: Job) {
    forall w :: 0 <= w < |job.workers| ==> !Holds(job.workers[w])
  }

  /** A job changes phase while none of its workers, before or after, is inside a section. */
  lemma QuietKeeps(s: State, t: State, j: nat, job: Job)
    requires Inv(s) && SameFrame(s, t) && j < |s.jobs|
    requires t.jobs == s.jobs[j := job] && t.monthLocks == s.monthLocks && t.disk == s.disk
    requires t.coverage == s.coverage && t.passed == s.passed && t.confirmed == s.confirmed
    requires JobInv(job, s.crew) && job.key == s.jobs[j].key && job.doneLog == s.jobs[j].doneLog
    requires job.status == RUNNING ==> s.jobs[j].status == RUNNING
    requires Quiet(s.jobs[j]) && Quiet(job)
    ensures Inv(t)
  {
    KeepsJobs(s, t, j, job);
    assert DonePassed(s.jobs[j], s.passed);
    forall j': nat, w': nat | Slot(t, j', w') && Holds(PcAt(t, j', w'))
      ensures SectionOf(t, j', w') in t.monthLocks && t.monthLocks[SectionOf(t, j', w')] == WorkerId(j', w')
      ensures PcInv(PcAt(t, j', w'), SectionOf(t, j', w'), t.passed, t.confirmed)
    {
      assert j' != j && Slot(s, j', w');
      assert SectionOf(s, j', w') in s.monthLocks;
      assert PcInv(PcAt(s, j', w'), SectionOf(s, j', w'), s.passed, s.confirmed);
    }
    forall k | k in t.monthLocks
      ensures var id := t.monthLocks[k];
        Slot(t, id.job, id.slot) && Holds(PcAt(t, id.job, id.slot)) && SectionOf(t, id.job, id.slot) == k
    {
      var id := s.monthLocks[k];
      assert Slot(s, id.job, id.slot) && Holds(PcAt(s, id.job, id.slot));
    }
  }

  lemma RebuiltHistory(s: State, key: Key)
    requires HistoryInv(s)
    ensures HistoryInv(Rebuilt(s, key))
  {
    var t := Rebuilt(s, key);
    forall k | k in t.confirmed ensures PartitionOf(k) in t.disk || KnownEmpty(t, PartitionOf(k)) {
      assert PartitionOf(k) in s.disk || KnownEmpty(s, PartitionOf(k));
    }
  }

  /** Rewriting the coverage index from disk. */
  lemma RebuiltKeeps(s: State, key: Key)
    requires Inv(s)
    ensures Inv(Rebuilt(s, key))
  {
    hide JobInv, DonePassed;
    RebuiltHistory(s, key);
    FewerConfirmed(s, Rebuilt(s, key));
  }

  /** Locks and fetches depend on the jobs, the locks and the histories only, and confirmed months may
      be forgotten. */
  lemma FewerConfirmed(s: State, t: State)
    requires OwnersInv(s) && LocksInv(s) && FetchInv(s)
    requires t.jobs == s.jobs && t.monthLocks == s.monthLocks && t.passed == s.passed && t.confirmed <= s.confirmed
    ensures OwnersInv(t) && LocksInv(t) && FetchInv(t)
  {
    forall j: nat, w: nat | Slot(t, j, w) && Holds(PcAt(t, j, w))
      ensures SectionOf(t, j, w) in t.monthLocks && t.monthLocks[SectionOf(t, j, w)] == WorkerId(j, w)
      ensures PcInv(PcAt(t, j, w), SectionOf(t, j, w), t.passed, t.confirmed)
    {
      assert Slot(s, j, w) && SectionOf(s, j, w) in s.monthLocks;
      assert PcInv(PcAt(s, j, w), SectionOf(s, j, w), s.passed, s.confirmed);
    }
    forall k | k in t.monthLocks
      ensures var id := t.monthLocks[k];
        Slot(t, id.job, id.slot) && Holds(PcAt(t, id.job, id.slot)) && SectionOf(t, id.job, id.slot) == k
    {
      var id := s.monthLocks[k];
      assert Slot(s, id.job, id.slot);
    }
  }

  lemma LaunchKeeps(s: State, j: nat)
    requires Inv(s) && Enabled(s, Launch(j))
    ensures Inv(DoLaunch(s, j))
  {
    hide Conserved, Marked, Planned, Tallied;
    LaunchBooks(s.jobs[j], s.crew);
    QuietKeeps(s, DoLaunch(s, j), j, DoLaunch(s, j).jobs[j]);
  }

  lemma GatheredKeeps(s: State, j: nat)
    requires Inv(s) && Enabled(s, Gathered(j))
    ensures Inv(Apply(s, Gathered(j)))
  {
    GatheredBooks(s.jobs[j], s.crew);
    QuietKeeps(s, Apply(s, Gathered(j)), j, s.jobs[j].(phase := Rebuilding));
  }

  lemma FinalLandedKeeps(s: State, j: nat)
    requires Inv(s) && Enabled(s, FinalLanded(j))
    ensures Inv(DoFinalLanded(s, j))
  {
    var job := s.jobs[j];
    FinishBooks(job, s.crew);
    var t := WithJob(s, j, job.(phase := Rewritten));
    QuietKeeps(s, t, j, job.(phase := Rewritten));
    RebuiltKeeps(t, job.key);
  }

  lemma FinishKeeps(s: State, j: nat)
    requires Inv(s) && Enabled(s, Finish(j))
    ensures Inv(DoFinish(s, j))
  {
    var job := s.jobs[j];
    FinishBooks(job, s.crew);
    QuietKeeps(s, DoFinish(s, j), j, job.(status := if job.failed == 0 then DONE else FAILED, phase := Ended));
  }

  // ---- the steps of start_job, persistence and restart ----

  /** Jobs, locks, disk and histories unchanged: only starts and the global lock move. */
  lemma StartsKeep(s: State, t: State)
    requires Inv(s) && t == s.(starts := t.starts, globalLock := t.globalLock)
    requires GlobalInv(t) && StartsInv(t)
    ensures Inv(t)
  {
    assert JobsInv(t) && SavedInv(t) && Registry(t) && HistoryInv(t) && DoneInv(t);
    FewerConfirmed(s, t);
  }

  lemma StartLockedKeeps(s: State, r: nat)
    requires Inv(s) && Enabled(s, StartLocked(r))
    ensures Inv(DoStartLocked(s, r))
  {
    StartsKeep(s, DoStartLocked(s, r));
  }

  /** A job is appended; nobody works on it yet. */
  lemma AppendedLocks(s: State, t: State, job: Job)
    requires OwnersInv(s) && LocksInv(s) && FetchInv(s)
    requires t.jobs == s.jobs + [job] && job.workers == []
    requires t.monthLocks == s.monthLocks && t.passed == s.passed && t.confirmed == s.confirmed
    ensures OwnersInv(t) && LocksInv(t) && FetchInv(t)
  {
    forall j: nat, w: nat | Slot(t, j, w)
      ensures Slot(s, j, w) && PcAt(t, j, w) == PcAt(s, j, w) && t.jobs[j] == s.jobs[j]
    {}
    forall j: nat, w: nat | Slot(t, j, w) && Holds(PcAt(t, j, w))
      ensures SectionOf(t, j, w) in t.monthLocks && t.monthLocks[SectionOf(t, j, w)] == WorkerId(j, w)
      ensures PcInv(PcAt(t, j, w), SectionOf(t, j, w), t.passed, t.confirmed)
    {
      assert SectionOf(s, j, w) in s.monthLocks;
      assert PcInv(PcAt(s, j, w), SectionOf(s, j, w), s.passed, s.confirmed);
    }
    forall k | k in t.monthLocks
      ensures var id := t.monthLocks[k];
        Slot(t, id.job, id.slot) && Holds(PcAt(t, id.job, id.slot)) && SectionOf(t, id.job, id.slot) == k
    {
      var id := s.monthLocks[k];
      assert Slot(s, id.job, id.slot) && Holds(PcAt(s, id.job, id.slot));
    }
  }

  /** The new job becomes the registered one of its key; no running job had that key. */
  lemma AppendedRegistry(s: State, t: State, r: nat, job: Job)
    requires Registry(s) && StartsInv(s) && r < |s.starts| && s.starts[r].Scanning? && s.starts[r].key == job.key
    requires t.jobs == s.jobs + [job] && t.byKey == s.byKey[job.key := |s.jobs|]
    ensures Registry(t)
  {
    assert !Reusable(s, job.key);
    forall j | 0 <= j < |s.jobs| && s.jobs[j].status == RUNNING ensures s.jobs[j].key != job.key {
      assert s.byKey[s.jobs[j].key] == j;
    }
  }

  lemma StartLandedKeeps(s: State, r: nat)
    requires Inv(s) && Enabled(s, StartLanded(r))
    ensures Inv(DoStartLanded(s, r))
  {
    var key := s.starts[r].key;
    var t := s.(starts := s.starts[r := Scanning(key, true)]);
    StartsKeep(s, t);
    RebuiltKeeps(t, key);
  }

  lemma StartScannedKeeps(s: State, r: nat, found: set<Month>)
    requires Inv(s) && Enabled(s, StartScanned(r, found))
    ensures Inv(DoStartScanned(s, r, found))
  {
    var key := s.starts[r].key;
    var job := NewJob(key, found);
    NewJobBooks(key, found, s.crew);
    var t := s.(jobs := s.jobs + [job], byKey := s.byKey[key := |s.jobs|],
                starts := s.starts[r := Returned(|s.jobs|, true)], globalLock := None);
    AppendedLocks(s, t, job);
    AppendedRegistry(s, t, r, job);
    assert JobsInv(t) && SavedInv(t) && HistoryInv(t) && DoneInv(t) && GlobalInv(t) && StartsInv(t);
  }

  lemma SaveKeeps(s: State, keep: set<nat>)
    requires Inv(s) && Enabled(s, Save(keep))
    ensures Inv(Apply(s, Save(keep)))
  {
    var t := Apply(s, Save(keep));
    assert JobsInv(t) && SavedInv(t) && Registry(t) && HistoryInv(t) && DoneInv(t) && GlobalInv(t) && StartsInv(t);
    FewerConfirmed(s, t);
  }

  lemma ReloadedInv(s: State, i: nat)
    requires Inv(s) && i < |s.jobs|
    ensures JobInv(Reloaded(s, i), s.crew) && DonePassed(Reloaded(s, i), s.passed)
    ensures Reloaded(s, i).status != RUNNING && Quiet(Reloaded(s, i))
  {
    if i in s.saved {
      assert JobInv(s.saved[i], s.crew) && DonePassed(s.saved[i], s.passed);
    } else {
      assert DonePassed(s.jobs[i], s.passed);
    }
  }

  lemma RestartKeeps(s: State)
    requires Inv(s)
    ensures Inv(DoRestart(s))
  {
    var t := DoRestart(s);
    forall j | 0 <= j < |t.jobs|
      ensures JobInv(t.jobs[j], t.crew) && DonePassed(t.jobs[j], t.passed)
      ensures t.jobs[j].status != RUNNING && Quiet(t.jobs[j])
    {
      ReloadedInv(s, j);
    }
    assert forall j: nat, w: nat :: Slot(t, j, w) ==> !Holds(t.jobs[j].workers[w]);
    assert GlobalInv(t) && StartsInv(t);
  }

  // ---- every step, every run ----

  lemma StepKeeps(s: State, step: Step)
    requires Inv(s) && Enabled(s, step)
    ensures Inv(Apply(s, step))
  {
    match step
    case Request(key) => StartsKeep(s, Apply(s, step));
    case StartLocked(r) => StartLockedKeeps(s, r);
    case StartLanded(r) => StartLandedKeeps(s, r);
    case StartScanned(r, found) => StartScannedKeeps(s, r, found);
    case StartRaised(r) => StartsKeep(s, Apply(s, step));
    case Launch(j) => LaunchKeeps(s, j);
    case Take(j, w) => TakeKeeps(s, j, w);
    case Lock(j, w) => LockKeeps(s, j, w);
    case Check(j, w, look) => CheckKeeps(s, j, w, look);
    case Try(j, w, result) => TryKeeps(s, j, w, result);
    case Commit(j, w, marked) => CommitKeeps(s, j, w, marked);
    case Gathered(j) => GatheredKeeps(s, j);
    case FinalLanded(j) => FinalLandedKeeps(s, j);
    case Finish(j) => FinishKeeps(s, j);
    case Save(keep) => SaveKeeps(s, keep);
    case Restart => RestartKeeps(s);
  }

  lemma InitInv(crew: int, disk: set<Partition>, coverage: map<Partition, Coverage>)
    ensures Inv(Init(crew, disk, coverage))
  {}

  /** The invariant holds in every state of every run, over every interleaving, every pattern of
      fetch, write and gate failures and any number of restarts. */
  lemma {:induction false} RunInv(run: seq<State>, steps: seq<Step>, i: nat)
    requires IsRun(run, steps) && i < |run|
    ensures Inv(run[i])
  {
    hide Apply, Enabled, Inv;
    if i == 0 {
      var disk, coverage :| run[0] == Init(run[0].crew, disk, coverage);
      InitInv(run[0].crew, disk, coverage);
    } else {
      RunInv(run, steps, i - 1);
      StepKeeps(run[i - 1], steps[i - 1]);
    }
  }
}
