/** The sync manager as an interleaved step system. One step is the code a task runs between two
    suspension points of the event loop, or the write of a rebuild thread; which of them moves next,
    what the venue answers and what the disk does are choices of the environment. */
module SyncModel {
  import opened Series
  import opened Months

  const M1 := "1m"
  const RETRIES := 3
  const MAX_JOBS := 20

  datatype Date = Date(year: int, month: int, day: int)

  /** What `_job_key` hashes: symbol, timeframe and the two dates. */
  datatype Key = Key(symbol: string, tf: string, from: Date, to: Date)

  function First(d: Date): Month { Month(d.year, d.month) }

  /** The dates parse; when they do not, `start_job` raises after its rebuild. */
  predicate ValidKey(key: Key) {
    IsMonth(First(key.from)) && IsMonth(First(key.to))
  }

  /** The months of the requested range. */
  function Range(key: Key): seq<Month> {
    Span(First(key.from), First(key.to))
  }

  /** The key of a month lock names the timeframe; the Parquet partition and the coverage entry do not. */
  datatype LockKey = LockKey(symbol: string, tf: string, month: Month)
  datatype Partition = Partition(symbol: string, month: Month)
  datatype Coverage = CovDone | CovEmpty

  datatype Status = RUNNING | DONE | FAILED | INTERRUPTED | LOST
  datatype Phase = Created | Draining | Rebuilding | Rewritten | Ended

  /** A counter update waiting for the global lock. */
  datatype Update = Skip | Empty | Fail | Suspect | Tally(ok: bool) | Success | Crash

  /** Where a worker task is suspended. */
  datatype Pc =
    | Idle
    | Exited
    | AwaitMonth(month: Month)
    | Checking(month: Month)
    | Fetching(month: Month, attempt: nat, retries: nat, blind: bool)
    | AwaitGlobal(month: Month, update: Update, retries: nat)

  /** A job: the persisted record, then the run's own bookkeeping. */
  datatype Job = Job(
    key: Key, status: Status, total: nat, done: nat, skipped: nat, failed: nat, retries: nat, empty: nat,
    suspect: nat, failedMonths: seq<Month>, suspectMonths: seq<Month>,
    planned: seq<Month>, preskipped: nat, doneLog: seq<Month>, emptyLog: seq<Month>, skipLog: seq<Month>,
    phase: Phase, queue: seq<Month>, workers: seq<Pc>)

  /** A call of `start_job`. The rebuild runs in a thread while the call is suspended: `landed` says
      whether it has rewritten the coverage index. */
  datatype Start =
    | Waiting(key: Key)
    | Scanning(key: Key, landed: bool)
    | Returned(job: nat, isNew: bool)
    | Raised

  datatype WorkerId = WorkerId(job: nat, slot: nat)

  /** `passed`: months that went through the gate. `confirmed`: months marked empty since the last
      rebuild of their symbol. Both record history; no step reads them. */
  datatype State = State(
    crew: int, jobs: seq<Job>, byKey: map<Key, nat>, monthLocks: map<LockKey, WorkerId>,
    starts: seq<Start>, globalLock: Option<nat>, disk: set<Partition>, coverage: map<Partition, Coverage>,
    saved: map<nat, Job>, passed: set<LockKey>, confirmed: set<LockKey>)

  /** The coverage lookup of `_process_month`: it may be unreadable, and any call there may raise. */
  datatype Look = Readable | Unreadable | Throws

  /** How one attempt ends: fetch, write and quality gate run without suspension after the fetch. */
  datatype Attempt =
    | FetchError
    | NoCandles(marked: bool)
    | WriteError
    | GateFailed
    | GateThrows
    | Accepted(suspect: bool)

  datatype Step =
    | Request(key: Key)
    | StartLocked(r: nat)
    | StartLanded(r: nat)
    | StartScanned(r: nat, found: set<Month>)
    | StartRaised(r: nat)
    | Launch(j: nat)
    | Take(j: nat, w: nat)
    | Lock(j: nat, w: nat)
    | Check(j: nat, w: nat, look: Look)
    | Try(j: nat, w: nat, result: Attempt)
    | Commit(j: nat, w: nat, marked: bool)
    | Gathered(j: nat)
    | FinalLanded(j: nat)
    | Finish(j: nat)
    | Save(keep: set<nat>)
    | Restart

  function Init(crew: int, disk: set<Partition>, coverage: map<Partition, Coverage>): State {
    State(crew, [], map[], map[], [], None, disk, coverage, map[], {}, {})
  }

  // ---- pieces of a step ----

  function LockKeyOf(job: Job, m: Month): LockKey {
    LockKey(job.key.symbol, job.key.tf, m)
  }

  function PartitionOf(k: LockKey): Partition {
    Partition(k.symbol, k.month)
  }

  function WithJob(s: State, j: nat, job: Job): State
    requires j < |s.jobs|
  {
    s.(jobs := s.jobs[j := job])
  }

  function WithPc(job: Job, w: nat, pc: Pc): Job
    requires w < |job.workers|
  {
    job.(workers := job.workers[w := pc])
  }

  /** The worker in slot `w` of job `j` exists and its job is draining its queue. */
  predicate Working(s: State, j: nat, w: nat) {
    j < |s.jobs| && s.jobs[j].phase == Draining && w < |s.jobs[j].workers|
  }

  /** A rebuild keeps only months whose partition holds rows; entries marked empty without a file go. */
  function Rebuilt(s: State, key: Key): State {
    if key.tf != M1 then s
    else s.(
      coverage := map p | p in s.coverage.Keys + s.disk
                          && (if p.symbol == key.symbol then p in s.disk else p in s.coverage)
                    :: if p.symbol == key.symbol then CovDone else s.coverage[p],
      confirmed := set k | k in s.confirmed && k.symbol != key.symbol)
  }

  function NewJob(key: Key, found: set<Month>): Job {
    var todo := Without(Range(key), found);
    Job(key, RUNNING, |todo|, 0, |Range(key)| - |todo|, 0, 0, 0, 0, [], [],
        todo, |Range(key)| - |todo|, [], [], [], Created, todo, [])
  }

  /** `min(self._workers, len(months_to_do))` tasks; a `range` over a negative number is empty. */
  function CrewSize(crew: int, months: nat): nat {
    if crew <= 0 then 0 else if crew < months then crew else months
  }

  /** The counters an update adds to, with the month entered in the matching log. */
  function Count(job: Job, m: Month, u: Update, retries: nat): Job {
    match u
    case Skip => job.(skipped := job.skipped + 1, skipLog := job.skipLog + [m])
    case Empty => job.(empty := job.empty + 1, emptyLog := job.emptyLog + [m])
    case Fail => job.(failed := job.failed + 1, failedMonths := job.failedMonths + [m])
    case Crash => job.(failed := job.failed + 1, failedMonths := job.failedMonths + [m])
    case Suspect => job.(suspect := job.suspect + 1, suspectMonths := job.suspectMonths + [m])
    case Tally(_) => job.(retries := job.retries + retries)
    case Success => job.(done := job.done + 1, doneLog := job.doneLog + [m])
  }

  function AfterUpdate(m: Month, u: Update, retries: nat): Pc {
    match u
    case Suspect => AwaitGlobal(m, Tally(true), retries)
    case Tally(ok) => AwaitGlobal(m, if ok then Success else Fail, retries)
    case _ => Idle
  }

  /** The updates after which the month lock is released. */
  predicate Releases(u: Update) {
    u.Skip? || u.Empty? || u.Fail? || u.Success?
  }

  // ---- the steps ----

  predicate Reusable(s: State, key: Key) {
    key in s.byKey && s.byKey[key] < |s.jobs| && s.jobs[s.byKey[key]].status == RUNNING
  }

  function DoStartLocked(s: State, r: nat): State
    requires r < |s.starts| && s.starts[r].Waiting?
  {
    var key := s.starts[r].key;
    if Reusable(s, key) then s.(starts := s.starts[r := Returned(s.byKey[key], false)])
    else s.(starts := s.starts[r := Scanning(key, false)], globalLock := Some(r))
  }

  function DoStartLanded(s: State, r: nat): State
    requires r < |s.starts| && s.starts[r].Scanning?
  {
    var key := s.starts[r].key;
    Rebuilt(s.(starts := s.starts[r := Scanning(key, true)]), key)
  }

  function DoStartScanned(s: State, r: nat, found: set<Month>): State
    requires r < |s.starts| && s.starts[r].Scanning?
  {
    var key := s.starts[r].key;
    s.(jobs := s.jobs + [NewJob(key, found)],
       byKey := s.byKey[key := |s.jobs|],
       starts := s.starts[r := Returned(|s.jobs|, true)],
       globalLock := None)
  }

  function DoLaunch(s: State, j: nat): State
    requires j < |s.jobs|
  {
    var job := s.jobs[j];
    if job.planned == [] then WithJob(s, j, job.(status := DONE, phase := Ended))
    else WithJob(s, j, job.(phase := Draining, workers := seq(CrewSize(s.crew, |job.planned|), _ => Idle)))
  }

  function DoTake(s: State, j: nat, w: nat): State
    requires Working(s, j, w)
  {
    var job := s.jobs[j];
    if job.queue == [] then WithJob(s, j, WithPc(job, w, Exited))
    else WithJob(s, j, WithPc(job.(queue := job.queue[1..]), w, AwaitMonth(job.queue[0])))
  }

  function DoLock(s: State, j: nat, w: nat): State
    requires Working(s, j, w) && s.jobs[j].workers[w].AwaitMonth?
  {
    var job := s.jobs[j];
    var m := job.workers[w].month;
    WithJob(s, j, WithPc(job, w, Checking(m))).(
      monthLocks := s.monthLocks[LockKeyOf(job, m) := WorkerId(j, w)])
  }

  function Unlock(s: State, k: LockKey): State {
    s.(monthLocks := s.monthLocks - {k})
  }

  predicate KnownEmpty(s: State, p: Partition) {
    p in s.coverage && s.coverage[p] == CovEmpty
  }

  function DoCheck(s: State, j: nat, w: nat, look: Look): State
    requires Working(s, j, w) && s.jobs[j].workers[w].Checking?
  {
    var job := s.jobs[j];
    var m := job.workers[w].month;
    var p := Partition(job.key.symbol, m);
    if look == Throws then
      Unlock(WithJob(s, j, WithPc(job, w, AwaitGlobal(m, Crash, 0))), LockKeyOf(job, m))
    else if p in s.disk || (look == Readable && KnownEmpty(s, p)) then
      WithJob(s, j, WithPc(job, w, AwaitGlobal(m, Skip, 0)))
    else
      WithJob(s, j, WithPc(job, w, Fetching(m, 0, 0, look == Unreadable)))
  }

  /** Where the retry loop goes after attempt `pc.attempt`. */
  function NextPc(pc: Pc, result: Attempt): Pc
    requires pc.Fetching?
  {
    var m := pc.month;
    match result
    case FetchError =>
      if pc.attempt < RETRIES then Fetching(m, pc.attempt + 1, pc.attempt + 1, pc.blind)
      else AwaitGlobal(m, Tally(false), pc.attempt + 1)
    case NoCandles(_) => AwaitGlobal(m, Empty, pc.retries)
    case WriteError => AwaitGlobal(m, Fail, pc.retries)
    case GateFailed =>
      if pc.attempt < RETRIES then Fetching(m, pc.attempt + 1, pc.retries, pc.blind)
      else AwaitGlobal(m, Tally(false), pc.retries)
    case GateThrows => AwaitGlobal(m, Crash, pc.retries)
    case Accepted(suspect) => AwaitGlobal(m, if suspect then Suspect else Tally(true), pc.retries)
  }

  /** What an attempt leaves on disk, in the coverage index and in the two histories. */
  function Effects(s: State, k: LockKey, result: Attempt): State {
    var p := PartitionOf(k);
    match result
    case FetchError => s
    case WriteError => s
    case NoCandles(marked) =>
      if marked then s.(coverage := s.coverage[p := CovEmpty], confirmed := s.confirmed + {k}) else s
    case GateFailed => s.(disk := s.disk + {p})
    case GateThrows => Unlock(s.(disk := s.disk + {p}), k)
    case Accepted(_) => s.(disk := s.disk + {p}, passed := s.passed + {k})
  }

  function DoTry(s: State, j: nat, w: nat, result: Attempt): State
    requires Working(s, j, w) && s.jobs[j].workers[w].Fetching?
  {
    var job := s.jobs[j];
    var pc := job.workers[w];
    Effects(WithJob(s, j, WithPc(job, w, NextPc(pc, result))), LockKeyOf(job, pc.month), result)
  }

  function DoCommit(s: State, j: nat, w: nat, marked: bool): State
    requires Working(s, j, w) && s.jobs[j].workers[w].AwaitGlobal?
  {
    var job := s.jobs[j];
    var pc := job.workers[w];
    var k := LockKeyOf(job, pc.month);
    var s1 := WithJob(s, j, Count(WithPc(job, w, AfterUpdate(pc.month, pc.update, pc.retries)),
                                  pc.month, pc.update, pc.retries));
    if Releases(pc.update) then Unlock(s1, k)
    else if pc.update == Tally(true) && marked then s1.(coverage := s.coverage[PartitionOf(k) := CovDone])
    else s1
  }

  function DoFinalLanded(s: State, j: nat): State
    requires j < |s.jobs|
  {
    Rebuilt(WithJob(s, j, s.jobs[j].(phase := Rewritten)), s.jobs[j].key)
  }

  function DoFinish(s: State, j: nat): State
    requires j < |s.jobs|
  {
    var job := s.jobs[j];
    WithJob(s, j, job.(status := if job.failed == 0 then DONE else FAILED, phase := Ended))
  }

  /** What `_load_jobs` makes of job `i` after a restart. */
  function Reloaded(s: State, i: nat): Job
    requires i < |s.jobs|
  {
    if i in s.saved then
      if s.saved[i].status == RUNNING
      then s.saved[i].(status := INTERRUPTED, phase := Ended, queue := [], workers := [])
      else s.saved[i]
    else s.jobs[i].(status := LOST, phase := Ended, queue := [], workers := [])
  }

  function Dropped(st: Start): Start {
    if st.Returned? then st else Raised
  }

  function DoRestart(s: State): State {
    s.(jobs := seq(|s.jobs|, i requires 0 <= i < |s.jobs| => Reloaded(s, i)),
       byKey := map[], monthLocks := map[], globalLock := None,
       starts := seq(|s.starts|, i requires 0 <= i < |s.starts| => Dropped(s.starts[i])))
  }

  // ---- which steps can be taken, and what they do ----

  predicate Enabled(s: State, step: Step) {
    match step
    case Request(key) => true
    case StartLocked(r) => r < |s.starts| && s.starts[r].Waiting? && s.globalLock.None?
    case StartLanded(r) => r < |s.starts| && s.starts[r].Scanning? && !s.starts[r].landed
    case StartScanned(r, found) =>
      && r < |s.starts| && s.starts[r].Scanning? && ValidKey(s.starts[r].key)
      && (forall m :: m in found ==> Partition(s.starts[r].key.symbol, m) in s.disk)
      && (s.starts[r].key.tf != M1 ==> found == {})
    case StartRaised(r) => r < |s.starts| && s.starts[r].Scanning?
    case Launch(j) => j < |s.jobs| && s.jobs[j].phase == Created
    case Take(j, w) => Working(s, j, w) && s.jobs[j].workers[w].Idle?
    case Lock(j, w) =>
      && Working(s, j, w) && s.jobs[j].workers[w].AwaitMonth?
      && LockKeyOf(s.jobs[j], s.jobs[j].workers[w].month) !in s.monthLocks
    case Check(j, w, look) => Working(s, j, w) && s.jobs[j].workers[w].Checking?
    case Try(j, w, result) =>
      && Working(s, j, w) && s.jobs[j].workers[w].Fetching?
      && (s.jobs[j].key.tf != M1 ==> !result.GateFailed? && !result.GateThrows? && result != Accepted(true))
    case Commit(j, w, marked) => Working(s, j, w) && s.jobs[j].workers[w].AwaitGlobal? && s.globalLock.None?
    case Gathered(j) => j < |s.jobs| && s.jobs[j].phase == Draining && AllExited(s.jobs[j].workers)
    case FinalLanded(j) => j < |s.jobs| && s.jobs[j].phase == Rebuilding
    case Finish(j) => j < |s.jobs| && (s.jobs[j].phase == Rebuilding || s.jobs[j].phase == Rewritten)
    case Save(keep) => |keep| <= MAX_JOBS
    case Restart => true
  }

  predicate AllExited(ws: seq<Pc>) {
    forall i :: 0 <= i < |ws| ==> ws[i] == Exited
  }

  function Apply(s: State, step: Step): State
    requires Enabled(s, step)
  {
    match step
    case Request(key) => s.(starts := s.starts + [Waiting(key)])
    case StartLocked(r) => DoStartLocked(s, r)
    case StartLanded(r) => DoStartLanded(s, r)
    case StartScanned(r, found) => DoStartScanned(s, r, found)
    case StartRaised(r) => s.(starts := s.starts[r := Raised], globalLock := None)
    case Launch(j) => DoLaunch(s, j)
    case Take(j, w) => DoTake(s, j, w)
    case Lock(j, w) => DoLock(s, j, w)
    case Check(j, w, look) => DoCheck(s, j, w, look)
    case Try(j, w, result) => DoTry(s, j, w, result)
    case Commit(j, w, marked) => DoCommit(s, j, w, marked)
    case Gathered(j) => WithJob(s, j, s.jobs[j].(phase := Rebuilding))
    case FinalLanded(j) => DoFinalLanded(s, j)
    case Finish(j) => DoFinish(s, j)
    case Save(keep) => s.(saved := map i | i in keep && i < |s.jobs| && s.jobs[i].status != LOST :: s.jobs[i])
    case Restart => DoRestart(s)
  }

  // ---- runs ----

  /** `run[0]` is an initial state and each state follows from the one before it by one enabled step. */
  ghost predicate IsRun(run: seq<State>, steps: seq<Step>) {
    && |run| == |steps| + 1
    && (exists disk, coverage :: run[0] == Init(run[0].crew, disk, coverage))
    && forall i :: 0 <= i < |steps| ==> Enabled(run[i], steps[i]) && run[i + 1] == Apply(run[i], steps[i])
  }
}
