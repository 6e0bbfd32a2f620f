/** Concrete runs showing where the claims on exclusion, second fetches, empty months, accounting and
    remaining work stop. */
module SyncLimits {
  import opened Series
  import opened Months
  import opened SyncModel
  import opened SyncInvariant
  import opened SyncHistory
  import opened SyncTheorems

  const JAN := Month(2022, 1)
  const DAY := Date(2022, 1, 1)
  const MINUTES := Key("EURUSD", "1m", DAY, DAY)
  const HOURS := Key("EURUSD", "1h", DAY, DAY)

  ghost predicate Reaches(run: seq<State>, steps: seq<Step>, s: State) {
    IsRun(run, steps) && run[|steps|] == s
  }

  lemma Start(crew: int) returns (run: seq<State>, steps: seq<Step>)
    ensures Reaches(run, steps, Init(crew, {}, map[])) && steps == []
  {
    run, steps := [Init(crew, {}, map[])], [];
    var disk: set<Partition>, coverage: map<Partition, Coverage> := {}, map[];
    assert run[0] == Init(run[0].crew, disk, coverage);
  }

  lemma Next(run: seq<State>, steps: seq<Step>, s: State, step: Step) returns (run': seq<State>, steps': seq<Step>)
    requires Reaches(run, steps, s) && Enabled(s, step)
    ensures Reaches(run', steps', Apply(s, step))
    ensures steps' == steps + [step] && run' == run + [Apply(s, step)]
  {
    run', steps' := run + [Apply(s, step)], steps + [step];
    forall i | 0 <= i < |steps'| ensures Enabled(run'[i], steps'[i]) && run'[i + 1] == Apply(run'[i], steps'[i]) {
      if i < |steps| { assert run'[i] == run[i] && run'[i + 1] == run[i + 1]; }
    }
    assert run'[0] == run[0];
  }

  lemma OneMonth(key: Key)
    requires key.from == DAY && key.to == DAY
    ensures Range(key) == [JAN] && NewJob(key, {}).planned == [JAN] && |Range(key)| == 1
  {
    assert Range(key) == [FromNumber(Number(JAN))];
    assert Without([JAN], {}) == [JAN] + Without([JAN][1..], {});
  }

  /** A job for `[JAN]` whose single worker is at `pc`. */
  function Solo(key: Key, queue: seq<Month>, pc: Pc): Job {
    NewJob(key, {}).(phase := Draining, queue := queue, workers := [pc])
  }

  lemma LaunchSolo(s: State, j: nat, key: Key)
    requires j < |s.jobs| && s.crew == 1 && s.jobs[j] == NewJob(key, {})
    requires key.from == DAY && key.to == DAY
    ensures Enabled(s, Launch(j))
    ensures Apply(s, Launch(j)) == s.(jobs := s.jobs[j := Solo(key, [JAN], Idle)])
  {
    OneMonth(key);
    assert seq(CrewSize(1, 1), _ => Idle) == [Idle];
  }

  lemma MoveSolo(key: Key, queue: seq<Month>, pc: Pc, next: Pc)
    ensures WithPc(Solo(key, queue, pc), 0, next) == Solo(key, queue, next)
  {
    assert [pc][0 := next] == [next];
  }

  lemma TakeSolo(s: State, j: nat, key: Key)
    requires j < |s.jobs| && s.jobs[j] == Solo(key, [JAN], Idle)
    ensures Enabled(s, Take(j, 0))
    ensures Apply(s, Take(j, 0)) == s.(jobs := s.jobs[j := Solo(key, [], AwaitMonth(JAN))])
  {
    MoveSolo(key, [], Idle, AwaitMonth(JAN));
    assert [JAN][1..] == [];
  }

  lemma LockSolo(s: State, j: nat, key: Key)
    requires j < |s.jobs| && s.jobs[j] == Solo(key, [], AwaitMonth(JAN))
    requires LockKey(key.symbol, key.tf, JAN) !in s.monthLocks
    ensures Enabled(s, Lock(j, 0))
    ensures Apply(s, Lock(j, 0)) == s.(jobs := s.jobs[j := Solo(key, [], Checking(JAN))],
      monthLocks := s.monthLocks[LockKey(key.symbol, key.tf, JAN) := WorkerId(j, 0)])
  {
    MoveSolo(key, [], AwaitMonth(JAN), Checking(JAN));
  }

  lemma CheckSolo(s: State, j: nat, key: Key)
    requires j < |s.jobs| && s.jobs[j] == Solo(key, [], Checking(JAN))
    requires Partition(key.symbol, JAN) !in s.disk && !KnownEmpty(s, Partition(key.symbol, JAN))
    ensures Enabled(s, Check(j, 0, Readable))
    ensures Apply(s, Check(j, 0, Readable)) == s.(jobs := s.jobs[j := Solo(key, [], Fetching(JAN, 0, 0, false))])
  {
    MoveSolo(key, [], Checking(JAN), Fetching(JAN, 0, 0, false));
  }

  lemma LockFresh(s: State, s1: State, key: Key)
    requires s1 == s.(starts := s.starts + [Waiting(key)]) && s.globalLock.None? && !Reusable(s, key)
    ensures Enabled(s1, StartLocked(|s.starts|))
    ensures Apply(s1, StartLocked(|s.starts|)) == s.(starts := s.starts + [Scanning(key, false)], globalLock := Some(|s.starts|))
  {
    assert s1.starts[|s.starts| := Scanning(key, false)] == s.starts + [Scanning(key, false)];
  }

  lemma ScanFresh(s: State, s2: State, key: Key)
    requires s2 == s.(starts := s.starts + [Scanning(key, false)], globalLock := Some(|s.starts|)) && s.globalLock.None?
    requires ValidKey(key)
    ensures Enabled(s2, StartScanned(|s.starts|, {}))
    ensures Apply(s2, StartScanned(|s.starts|, {})) ==
      s.(jobs := s.jobs + [NewJob(key, {})], byKey := s.byKey[key := |s.jobs|],
         starts := s.starts + [Returned(|s.jobs|, true)])
  {
    assert s2.starts[|s.starts| := Returned(|s.jobs|, true)] == s.starts + [Returned(|s.jobs|, true)];
  }

  /** A fresh call of `start_job` creates a job. */
  lemma RequestToJob(run: seq<State>, steps: seq<Step>, s: State, key: Key)
    returns (run': seq<State>, steps': seq<Step>, t: State)
    requires Reaches(run, steps, s) && s.globalLock.None?
    requires key.from == DAY && key.to == DAY && !Reusable(s, key)
    ensures Reaches(run', steps', t) && |steps'| == |steps| + 3 && run <= run'
    ensures t == s.(jobs := s.jobs + [NewJob(key, {})], byKey := s.byKey[key := |s.jobs|],
                    starts := s.starts + [Returned(|s.jobs|, true)])
  {
    var r := |s.starts|;
    var s1 := Apply(s, Request(key));
    run', steps' := Next(run, steps, s, Request(key));
    LockFresh(s, s1, key);
    var s2 := Apply(s1, StartLocked(r));
    run', steps' := Next(run', steps', s1, StartLocked(r));
    ScanFresh(s, s2, key);
    t := Apply(s2, StartScanned(r, {}));
    run', steps' := Next(run', steps', s2, StartScanned(r, {}));
  }

  /** From the request to the section: a fresh call of `start_job` brings its worker to the fetch. */
  lemma RequestToFetch(run: seq<State>, steps: seq<Step>, s: State, key: Key)
    returns (run': seq<State>, steps': seq<Step>, t: State)
    requires Reaches(run, steps, s) && s.crew == 1 && s.globalLock.None? && s.disk == {}
    requires key.from == DAY && key.to == DAY && !Reusable(s, key)
    requires LockKey(key.symbol, key.tf, JAN) !in s.monthLocks
    requires !KnownEmpty(s, Partition(key.symbol, JAN))
    ensures Reaches(run', steps', t) && |steps| < |steps'| && run <= run'
    ensures t == s.(jobs := s.jobs + [Solo(key, [], Fetching(JAN, 0, 0, false))],
                    byKey := s.byKey[key := |s.jobs|], starts := s.starts + [Returned(|s.jobs|, true)],
                    monthLocks := s.monthLocks[LockKey(key.symbol, key.tf, JAN) := WorkerId(|s.jobs|, 0)])
  {
    var j := |s.jobs|;
    var s3;
    run', steps', s3 := RequestToJob(run, steps, s, key);
    LaunchSolo(s3, j, key);
    var s4 := Apply(s3, Launch(j));
    run', steps' := Next(run', steps', s3, Launch(j));
    TakeSolo(s4, j, key);
    var s5 := Apply(s4, Take(j, 0));
    run', steps' := Next(run', steps', s4, Take(j, 0));
    LockSolo(s5, j, key);
    var s6 := Apply(s5, Lock(j, 0));
    run', steps' := Next(run', steps', s5, Lock(j, 0));
    CheckSolo(s6, j, key);
    t := Apply(s6, Check(j, 0, Readable));
    run', steps' := Next(run', steps', s6, Check(j, 0, Readable));
    assert t.jobs == s.jobs + [Solo(key, [], Fetching(JAN, 0, 0, false))];
  }

  /** Two jobs that differ only in timeframe, both in the retry loop for the same month. */
  lemma Meet() returns (run: seq<State>, steps: seq<Step>, u: State)
    ensures Reaches(run, steps, u) && u.crew == 1 && u.globalLock.None?
    ensures u.jobs == [Solo(MINUTES, [], Fetching(JAN, 0, 0, false)), Solo(HOURS, [], Fetching(JAN, 0, 0, false))]
  {
    run, steps := Start(1);
    var s := Init(1, {}, map[]);
    var t;
    run, steps, t := RequestToFetch(run, steps, s, MINUTES);
    assert LockKey("EURUSD", "1h", JAN) !in t.monthLocks;
    run, steps, u := RequestToFetch(run, steps, t, HOURS);
    assert u.jobs == [Solo(MINUTES, [], Fetching(JAN, 0, 0, false))] + [Solo(HOURS, [], Fetching(JAN, 0, 0, false))];
  }

  /** Two jobs that differ only in timeframe can be inside the same month at once: the lock names the
      timeframe, the partition does not. */
  lemma TwoTimeframesMeet() returns (run: seq<State>, steps: seq<Step>)
    ensures IsRun(run, steps)
    ensures var s := run[|steps|];
      && |s.jobs| == 2 && |s.jobs[0].workers| == |s.jobs[1].workers| == 1
      && PcAt(s, 0, 0).Fetching? && PcAt(s, 1, 0).Fetching?
      && PartitionOf(SectionOf(s, 0, 0)) == PartitionOf(SectionOf(s, 1, 0))
  {
    var u;
    run, steps, u := Meet();
    assert u.jobs[0] == Solo(MINUTES, [], Fetching(JAN, 0, 0, false));
    assert u.jobs[1] == Solo(HOURS, [], Fetching(JAN, 0, 0, false));
  }

  lemma AcceptFirst(s: State)
    requires s.jobs == [Solo(MINUTES, [], Fetching(JAN, 0, 0, false)), Solo(HOURS, [], Fetching(JAN, 0, 0, false))]
    ensures Enabled(s, Try(0, 0, Accepted(false)))
    ensures var t := Apply(s, Try(0, 0, Accepted(false)));
      && LockKey("EURUSD", "1m", JAN) in t.passed && |t.jobs| == 2 && t.jobs[1] == s.jobs[1]
  {
    TryOf(s);
  }

  lemma TryOf(s: State)
    requires Working(s, 0, 0) && s.jobs[0] == Solo(MINUTES, [], Fetching(JAN, 0, 0, false))
    ensures Enabled(s, Try(0, 0, Accepted(false)))
    ensures var t := Apply(s, Try(0, 0, Accepted(false)));
      LockKey("EURUSD", "1m", JAN) in t.passed && t.jobs == s.jobs[0 := t.jobs[0]]
  {}

  lemma AcceptSecond(s: State)
    requires |s.jobs| == 2 && s.jobs[1] == Solo(HOURS, [], Fetching(JAN, 0, 0, false))
    ensures Enabled(s, Try(1, 0, Accepted(false))) && Fetches(s, 1, 0, Partition("EURUSD", JAN))
  {}

  /** A month that passed the gate for one timeframe is then fetched and written again: the job of the
      other timeframe was already in its retry loop for it. */
  lemma PassedMonthIsWrittenAgain() returns (run: seq<State>, steps: seq<Step>, n: nat)
    ensures IsRun(run, steps) && n < |steps|
    ensures LockKey("EURUSD", "1m", JAN) in run[n].passed
    ensures steps[n] == Try(1, 0, Accepted(false)) && Fetches(run[n], 1, 0, Partition("EURUSD", JAN))
  {
    hide Apply, Enabled, Solo, Fetches;
    var u;
    run, steps, u := Meet();
    AcceptFirst(u);
    var v := Apply(u, Try(0, 0, Accepted(false)));
    run, steps := Next(run, steps, u, Try(0, 0, Accepted(false)));
    n := |steps|;
    AcceptSecond(v);
    run, steps := Next(run, steps, v, Try(1, 0, Accepted(false)));
    assert run[n] == v;
  }

  /** The finished job whose only month was confirmed empty. */
  function EmptyJob(status: Status, phase: Phase, pc: Pc): Job {
    NewJob(MINUTES, {}).(status := status, phase := phase, queue := [], workers := [pc], empty := 1, emptyLog := [JAN])
  }

  lemma TryEmpty(s: State)
    requires s.jobs == [Solo(MINUTES, [], Fetching(JAN, 0, 0, false))]
    ensures Enabled(s, Try(0, 0, NoCandles(true)))
    ensures Apply(s, Try(0, 0, NoCandles(true))) == s.(jobs := [Solo(MINUTES, [], AwaitGlobal(JAN, Empty, 0))],
      coverage := s.coverage[Partition("EURUSD", JAN) := CovEmpty],
      confirmed := s.confirmed + {LockKey("EURUSD", "1m", JAN)})
  {
    MoveSolo(MINUTES, [], Fetching(JAN, 0, 0, false), AwaitGlobal(JAN, Empty, 0));
    assert s.jobs[0 := Solo(MINUTES, [], AwaitGlobal(JAN, Empty, 0))] == [Solo(MINUTES, [], AwaitGlobal(JAN, Empty, 0))];
  }

  lemma CommitEmpty(s: State)
    requires s.jobs == [Solo(MINUTES, [], AwaitGlobal(JAN, Empty, 0))] && s.globalLock.None?
    ensures Enabled(s, Commit(0, 0, false))
    ensures Apply(s, Commit(0, 0, false)) == s.(jobs := [EmptyJob(RUNNING, Draining, Idle)],
      monthLocks := s.monthLocks - {LockKey("EURUSD", "1m", JAN)})
  {
    MoveSolo(MINUTES, [], AwaitGlobal(JAN, Empty, 0), Idle);
    assert [] + [JAN] == [JAN];
    assert Count(Solo(MINUTES, [], Idle), JAN, Empty, 0) == EmptyJob(RUNNING, Draining, Idle);
    assert s.jobs[0 := EmptyJob(RUNNING, Draining, Idle)] == [EmptyJob(RUNNING, Draining, Idle)];
  }

  lemma ExitAndGather(s: State)
    requires s.jobs == [EmptyJob(RUNNING, Draining, Idle)]
    ensures Enabled(s, Take(0, 0))
    ensures var t := Apply(s, Take(0, 0));
      && Enabled(t, Gathered(0))
      && Apply(t, Gathered(0)) == s.(jobs := [EmptyJob(RUNNING, Rebuilding, Exited)])
  {
    assert [Idle][0 := Exited] == [Exited];
    var t := Apply(s, Take(0, 0));
    assert t.jobs[0] == EmptyJob(RUNNING, Draining, Exited);
    assert Apply(t, Gathered(0)).jobs == [EmptyJob(RUNNING, Rebuilding, Exited)];
  }

  lemma FinishErases(s: State)
    requires s.jobs == [EmptyJob(RUNNING, Rebuilding, Exited)] && s.disk == {}
    ensures Enabled(s, FinalLanded(0)) && Enabled(Apply(s, FinalLanded(0)), Finish(0))
    ensures var t := Apply(Apply(s, FinalLanded(0)), Finish(0));
      && t == s.(jobs := [EmptyJob(DONE, Ended, Exited)], coverage := t.coverage, confirmed := t.confirmed)
      && !KnownEmpty(t, Partition("EURUSD", JAN))
  {
    var t := Apply(s, FinalLanded(0));
    assert t.jobs == [EmptyJob(RUNNING, Rewritten, Exited)];
    assert t.jobs[0 := EmptyJob(DONE, Ended, Exited)] == [EmptyJob(DONE, Ended, Exited)];
  }

  /** The rest of a job whose only month is confirmed empty: its final rebuild erases the mark. */
  lemma EmptyToFinish(run: seq<State>, steps: seq<Step>, s: State)
    returns (run': seq<State>, steps': seq<Step>, n: nat, t: State)
    requires Reaches(run, steps, s) && s.globalLock.None? && s.disk == {}
    requires s.jobs == [Solo(MINUTES, [], Fetching(JAN, 0, 0, false))]
    ensures Reaches(run', steps', t) && n == |steps| + 1 && n < |steps'| && run <= run'
    ensures LockKey("EURUSD", "1m", JAN) in run'[n].confirmed
    ensures t == s.(jobs := [EmptyJob(DONE, Ended, Exited)], coverage := t.coverage, confirmed := t.confirmed,
                    monthLocks := s.monthLocks - {LockKey("EURUSD", "1m", JAN)})
    ensures !KnownEmpty(t, Partition("EURUSD", JAN))
  {
    TryEmpty(s);
    var s1 := Apply(s, Try(0, 0, NoCandles(true)));
    run', steps' := Next(run, steps, s, Try(0, 0, NoCandles(true)));
    n := |steps'|;
    assert run'[n] == s1;
    CommitEmpty(s1);
    var s2 := Apply(s1, Commit(0, 0, false));
    run', steps' := Next(run', steps', s1, Commit(0, 0, false));
    ExitAndGather(s2);
    var s3 := Apply(s2, Take(0, 0));
    run', steps' := Next(run', steps', s2, Take(0, 0));
    var s4 := Apply(s3, Gathered(0));
    run', steps' := Next(run', steps', s3, Gathered(0));
    FinishErases(s4);
    var s5 := Apply(s4, FinalLanded(0));
    run', steps' := Next(run', steps', s4, FinalLanded(0));
    t := Apply(s5, Finish(0));
    run', steps' := Next(run', steps', s5, Finish(0));
  }

  /** A month confirmed empty by one job is fetched again by the next: the mark lives only in the
      coverage index, and every rebuild rewrites the index from files that an empty month has not. */
  lemma ConfirmedEmptyIsFetchedByTheNextJob() returns (run: seq<State>, steps: seq<Step>, n: nat)
    ensures IsRun(run, steps) && n < |steps|
    ensures LockKey("EURUSD", "1m", JAN) in run[n].confirmed
    ensures var s := run[|steps|];
      && |s.jobs| == 2 && s.jobs[0].status == DONE && s.jobs[0].empty == 1
      && Slot(s, 1, 0) && PcAt(s, 1, 0) == Fetching(JAN, 0, 0, false)
      && SectionOf(s, 1, 0) == LockKey("EURUSD", "1m", JAN)
  {
    run, steps := Start(1);
    var s := Init(1, {}, map[]);
    var t, u, v;
    run, steps, t := RequestToFetch(run, steps, s, MINUTES);
    run, steps, n, u := EmptyToFinish(run, steps, t);
    var before := run;
    run, steps, v := RequestToFetch(run, steps, u, MINUTES);
    assert run[n] == before[n];
    assert v.jobs[1] == Solo(MINUTES, [], Fetching(JAN, 0, 0, false));
  }

  /** With no worker configured a job with a month to do ends DONE without touching it. */
  lemma NoWorkersNoWork() returns (run: seq<State>, steps: seq<Step>)
    ensures IsRun(run, steps) && run[0].crew == 0
    ensures var s := run[|steps|];
      && |s.jobs| == 1 && s.jobs[0].status == DONE && s.jobs[0].planned == [JAN]
      && s.jobs[0].done + s.jobs[0].empty + s.jobs[0].failed + s.jobs[0].skipped == 0
  {
    run, steps := Start(0);
    var s;
    run, steps, s := RequestToJob(run, steps, Init(0, {}, map[]), MINUTES);
    OneMonth(MINUTES);
    var job := NewJob(MINUTES, {});
    assert s.jobs == [job];
    var s1 := Apply(s, Launch(0));
    run, steps := Next(run, steps, s, Launch(0));
    assert seq(CrewSize(0, 1), _ => Idle) == [];
    assert s1.jobs == [job.(phase := Draining, workers := [])];
    var s2 := Apply(s1, Gathered(0));
    run, steps := Next(run, steps, s1, Gathered(0));
    run, steps := Next(run, steps, s2, Finish(0));
  }

  // ---- a negative estimate ----

  const FEB := Month(2022, 2)
  const MAR := Month(2022, 3)
  const APR := Month(2022, 4)
  const FOUR := Key("EURUSD", "1m", DAY, Date(2022, 4, 30))
  const FOUND := {JAN, FEB}
  const FILES := {Partition("EURUSD", JAN), Partition("EURUSD", FEB)}

  lemma RangeOfFour()
    ensures Range(FOUR) == [JAN, FEB, MAR, APR]
  {
    hide Without;
    var r := Range(FOUR);
    assert |r| == 4;
    assert r[0] == FromNumber(Number(JAN)) && r[1] == FromNumber(Number(JAN) + 1);
    assert r[2] == FromNumber(Number(JAN) + 2) && r[3] == FromNumber(Number(JAN) + 3);
  }

  lemma PlanOfFour()
    ensures Without([JAN, FEB, MAR, APR], FOUND) == [MAR, APR]
  {
    assert [JAN, FEB, MAR, APR][1..] == [FEB, MAR, APR] && [FEB, MAR, APR][1..] == [MAR, APR] && [MAR, APR][1..] == [APR];
    assert Without([APR], FOUND) == [APR] + Without([APR][1..], FOUND) == [APR];
    assert Without([MAR, APR], FOUND) == [MAR] + Without([APR], FOUND) == [MAR, APR];
    assert Without([FEB, MAR, APR], FOUND) == [] + Without([MAR, APR], FOUND);
    assert Without([JAN, FEB, MAR, APR], FOUND) == [] + Without([FEB, MAR, APR], FOUND);
  }

  lemma FourMonths()
    ensures NewJob(FOUR, FOUND).planned == [MAR, APR] && NewJob(FOUR, FOUND).preskipped == 2
  {
    hide Range, Without;
    RangeOfFour();
    PlanOfFour();
  }

  /** The job for the four months, two of them found on disk. */
  function Half(queue: seq<Month>, pc: Pc, done: seq<Month>): Job {
    NewJob(FOUR, FOUND).(phase := Draining, queue := queue, workers := [pc], done := |done|, doneLog := done)
  }

  /** Nothing but the four-month job is going on. */
  ghost predicate Lonely(s: State, job: Job) {
    s.crew == 1 && s.jobs == [job] && s.globalLock.None? && s.disk >= FILES && Partition("EURUSD", MAR) !in s.coverage
  }

  lemma Planning() returns (run: seq<State>, steps: seq<Step>, s: State)
    ensures Reaches(run, steps, s) && Lonely(s, NewJob(FOUR, FOUND)) && s.disk == FILES && s.monthLocks == map[]
  {
    hide Apply, Enabled, NewJob;
    var s0 := Init(1, FILES, map[]);
    run, steps := [s0], [];
    assert run[0] == Init(run[0].crew, FILES, map[]);
    PlanningSteps(s0);
    var s1 := Apply(s0, Request(FOUR));
    run, steps := Next(run, steps, s0, Request(FOUR));
    var s2 := Apply(s1, StartLocked(0));
    run, steps := Next(run, steps, s1, StartLocked(0));
    s := Apply(s2, StartScanned(0, FOUND));
    run, steps := Next(run, steps, s2, StartScanned(0, FOUND));
  }

  lemma PlanningSteps(s0: State)
    requires s0 == Init(1, FILES, map[])
    ensures Enabled(s0, Request(FOUR)) && Enabled(Apply(s0, Request(FOUR)), StartLocked(0))
    ensures var s2 := Apply(Apply(s0, Request(FOUR)), StartLocked(0));
      && Enabled(s2, StartScanned(0, FOUND))
      && var s := Apply(s2, StartScanned(0, FOUND));
        Lonely(s, NewJob(FOUR, FOUND)) && s.disk == FILES && s.monthLocks == map[]
  {
    hide NewJob;
    var s1 := Apply(s0, Request(FOUR));
    assert s1.starts == [Waiting(FOUR)];
    var s2 := Apply(s1, StartLocked(0));
    assert s2.starts == [Scanning(FOUR, false)];
    assert Apply(s2, StartScanned(0, FOUND)).jobs == [NewJob(FOUR, FOUND)];
  }

  lemma Half1(s: State)
    requires Lonely(s, NewJob(FOUR, FOUND))
    ensures Enabled(s, Launch(0)) && Lonely(Apply(s, Launch(0)), Half([MAR, APR], Idle, []))
    ensures Apply(s, Launch(0)).disk == s.disk && Apply(s, Launch(0)).monthLocks == s.monthLocks
  {
    FourMonths();
    assert seq(CrewSize(1, 2), _ => Idle) == [Idle];
    assert Apply(s, Launch(0)).jobs[0] == Half([MAR, APR], Idle, []);
  }

  lemma Half2(s: State)
    requires Lonely(s, Half([MAR, APR], Idle, []))
    ensures Enabled(s, Take(0, 0)) && Lonely(Apply(s, Take(0, 0)), Half([APR], AwaitMonth(MAR), []))
    ensures Apply(s, Take(0, 0)).disk == s.disk && Apply(s, Take(0, 0)).monthLocks == s.monthLocks
  {
    assert [MAR, APR][1..] == [APR] && [Idle][0 := AwaitMonth(MAR)] == [AwaitMonth(MAR)];
    assert Apply(s, Take(0, 0)).jobs[0] == Half([APR], AwaitMonth(MAR), []);
  }

  lemma Half3(s: State)
    requires Lonely(s, Half([APR], AwaitMonth(MAR), [])) && s.monthLocks == map[]
    ensures Enabled(s, Lock(0, 0)) && Lonely(Apply(s, Lock(0, 0)), Half([APR], Checking(MAR), []))
    ensures Apply(s, Lock(0, 0)).disk == s.disk
  {
    assert [AwaitMonth(MAR)][0 := Checking(MAR)] == [Checking(MAR)];
    assert Apply(s, Lock(0, 0)).jobs[0] == Half([APR], Checking(MAR), []);
  }

  lemma Half4(s: State)
    requires Lonely(s, Half([APR], Checking(MAR), [])) && s.disk == FILES
    ensures Enabled(s, Check(0, 0, Readable))
    ensures Lonely(Apply(s, Check(0, 0, Readable)), Half([APR], Fetching(MAR, 0, 0, false), []))
  {
    assert [Checking(MAR)][0 := Fetching(MAR, 0, 0, false)] == [Fetching(MAR, 0, 0, false)];
    assert Apply(s, Check(0, 0, Readable)).jobs[0] == Half([APR], Fetching(MAR, 0, 0, false), []);
  }

  lemma Half5(s: State)
    requires Lonely(s, Half([APR], Fetching(MAR, 0, 0, false), []))
    ensures Enabled(s, Try(0, 0, Accepted(false)))
    ensures Lonely(Apply(s, Try(0, 0, Accepted(false))), Half([APR], AwaitGlobal(MAR, Tally(true), 0), []))
  {
    assert [Fetching(MAR, 0, 0, false)][0 := AwaitGlobal(MAR, Tally(true), 0)] == [AwaitGlobal(MAR, Tally(true), 0)];
    assert Apply(s, Try(0, 0, Accepted(false))).jobs[0] == Half([APR], AwaitGlobal(MAR, Tally(true), 0), []);
  }

  lemma Half6(s: State)
    requires Lonely(s, Half([APR], AwaitGlobal(MAR, Tally(true), 0), []))
    ensures Enabled(s, Commit(0, 0, false))
    ensures Lonely(Apply(s, Commit(0, 0, false)), Half([APR], AwaitGlobal(MAR, Success, 0), []))
  {
    assert [AwaitGlobal(MAR, Tally(true), 0)][0 := AwaitGlobal(MAR, Success, 0)] == [AwaitGlobal(MAR, Success, 0)];
    assert Apply(s, Commit(0, 0, false)).jobs[0] == Half([APR], AwaitGlobal(MAR, Success, 0), []);
  }

  lemma Half7(s: State)
    requires Lonely(s, Half([APR], AwaitGlobal(MAR, Success, 0), []))
    ensures Enabled(s, Commit(0, 0, false)) && Lonely(Apply(s, Commit(0, 0, false)), Half([APR], Idle, [MAR]))
  {
    assert [AwaitGlobal(MAR, Success, 0)][0 := Idle] == [Idle] && [] + [MAR] == [MAR];
    assert Apply(s, Commit(0, 0, false)).jobs[0] == Half([APR], Idle, [MAR]);
  }

  /** Two of four months are on disk at planning time; with one of the others done the snapshot computes
      `2 - 1 - 2 - 0` months remaining while one is left. */
  lemma EstimateGoesNegative() returns (run: seq<State>, steps: seq<Step>)
    ensures IsRun(run, steps)
    ensures var s := run[|steps|];
      && |s.jobs| == 1 && s.jobs[0].status == RUNNING && Estimated(s.jobs[0])
      && Remaining(s.jobs[0]) == -1 && Left(s.jobs[0]) == 1
  {
    hide Apply, Enabled, Half;
    var s;
    run, steps, s := Planning();
    Half1(s);
    run, steps := Next(run, steps, s, Launch(0));
    s := Apply(s, Launch(0));
    Half2(s);
    run, steps := Next(run, steps, s, Take(0, 0));
    s := Apply(s, Take(0, 0));
    Half3(s);
    run, steps := Next(run, steps, s, Lock(0, 0));
    s := Apply(s, Lock(0, 0));
    Half4(s);
    run, steps := Next(run, steps, s, Check(0, 0, Readable));
    s := Apply(s, Check(0, 0, Readable));
    Half5(s);
    run, steps := Next(run, steps, s, Try(0, 0, Accepted(false)));
    s := Apply(s, Try(0, 0, Accepted(false)));
    Half6(s);
    run, steps := Next(run, steps, s, Commit(0, 0, false));
    s := Apply(s, Commit(0, 0, false));
    Half7(s);
    run, steps := Next(run, steps, s, Commit(0, 0, false));
    HalfFigures();
  }

  lemma HalfFigures()
    ensures var job := Half([APR], Idle, [MAR]);
      job.status == RUNNING && Estimated(job) && Remaining(job) == -1 && Left(job) == 1
  {
    FourMonths();
    assert InHand([Idle]) == InHand([Idle][1..]);
  }
}
