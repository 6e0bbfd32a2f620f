/** The invariant of the sync manager: books that balance for every job, a registry that knows
    every running job, locks that match their holders, and histories that match the disk. */
module SyncInvariant {
  import opened Series
  import opened Months
  import opened SyncModel

  // ---- months in the hands of workers ----

  /** The month a worker has taken from the queue and not yet counted. */
  function HeldBy(pc: Pc): Option<Month> {
    if pc.Idle? || pc.Exited? then None else Some(pc.month)
  }

  /** The month of a worker that is past the suspect flag and on its way to being counted as done. */
  function BoundForDone(pc: Pc): Option<Month> {
    if pc.AwaitGlobal? && (pc.update == Tally(true) || pc.update.Success?) then Some(pc.month) else None
  }

  function One(o: Option<Month>, m: Month): nat {
    if o == Some(m) then 1 else 0
  }

  /** How many workers show month `m` under `f`. */
  function Tickets(ws: seq<Pc>, f: Pc -> Option<Month>, m: Month): nat {
    if ws == [] then 0 else One(f(ws[0]), m) + Tickets(ws[1..], f, m)
  }

  lemma {:induction false} TicketsUpdate(ws: seq<Pc>, i: nat, pc: Pc, f: Pc -> Option<Month>, m: Month)
    requires i < |ws|
    ensures Tickets(ws[i := pc], f, m) + One(f(ws[i]), m) == Tickets(ws, f, m) + One(f(pc), m)
  {
    if i == 0 {
      assert ws[i := pc][1..] == ws[1..];
    } else {
      TicketsUpdate(ws[1..], i - 1, pc, f, m);
      assert ws[i := pc][1..] == ws[1..][i - 1 := pc];
    }
  }

  lemma {:induction false} NoTickets(ws: seq<Pc>, f: Pc -> Option<Month>, m: Month)
    requires forall i :: 0 <= i < |ws| ==> f(ws[i]) == None
    ensures Tickets(ws, f, m) == 0
  {
    if ws != [] {
      assert f(ws[0]) == None;
      NoTickets(ws[1..], f, m);
    }
  }

  // ---- the books of one job ----

  /** How often month `m` has been counted so far. */
  function Counted(job: Job, m: Month): nat {
    multiset(job.doneLog)[m] + multiset(job.emptyLog)[m] + multiset(job.failedMonths)[m] + multiset(job.skipLog)[m]
  }

  ghost predicate Planned(job: Job) {
    && job.total == |job.planned|
    && Distinct(job.planned)
    && |job.planned| + job.preskipped == |Range(job.key)|
    && forall m :: m in job.planned ==> m in Range(job.key)
  }

  ghost predicate Tallied(job: Job) {
    && job.done == |job.doneLog|
    && job.empty == |job.emptyLog|
    && job.failed == |job.failedMonths|
    && job.suspect == |job.suspectMonths|
    && job.skipped == job.preskipped + |job.skipLog|
  }

  /** Nothing is lost or counted twice: planned months are queued, held or counted. */
  ghost predicate Conserved(job: Job) {
    forall m :: multiset(job.planned)[m] == multiset(job.queue)[m] + Tickets(job.workers, HeldBy, m) + Counted(job, m)
  }

  ghost predicate Marked(job: Job) {
    forall m :: multiset(job.suspectMonths)[m] <= multiset(job.doneLog)[m] + Tickets(job.workers, BoundForDone, m)
  }

  ghost predicate Books(job: Job) {
    Planned(job) && Tallied(job) && Conserved(job) && Marked(job)
  }

  /** With no worker the queue is never touched. */
  ghost predicate Staffed(job: Job, crew: int) {
    (crew <= 0 ==> job.queue == job.planned) &&
    match job.phase
    case Created => job.workers == [] && job.queue == job.planned
    case Draining =>
      && |job.workers| == CrewSize(crew, |job.planned|)
      && job.planned != []
      && (forall i :: 0 <= i < |job.workers| && job.workers[i].Exited? ==> job.queue == [])
    case _ => AllExited(job.workers) && (crew >= 1 ==> job.queue == [])
  }

  ghost predicate JobInv(job: Job, crew: int) {
    match job.status
    case RUNNING => Books(job) && Staffed(job, crew) && job.phase != Ended
    case DONE => Books(job) && Staffed(job, crew) && job.phase == Ended && job.failed == 0
    case FAILED => Books(job) && Staffed(job, crew) && job.phase == Ended && job.failed > 0
    case _ => job.phase == Ended && job.workers == []
  }

  // ---- the whole state ----

  predicate Holds(pc: Pc) {
    pc.Checking? || pc.Fetching? || (pc.AwaitGlobal? && !pc.update.Crash?)
  }

  predicate Slot(s: State, j: nat, w: nat) {
    j < |s.jobs| && w < |s.jobs[j].workers|
  }

  function PcAt(s: State, j: nat, w: nat): Pc
    requires Slot(s, j, w)
  {
    s.jobs[j].workers[w]
  }

  function SectionOf(s: State, j: nat, w: nat): LockKey
    requires Slot(s, j, w) && Holds(PcAt(s, j, w))
  {
    LockKeyOf(s.jobs[j], PcAt(s, j, w).month)
  }

  ghost predicate JobsInv(s: State) {
    forall j :: 0 <= j < |s.jobs| ==> JobInv(s.jobs[j], s.crew)
  }

  ghost predicate SavedInv(s: State) {
    forall i :: i in s.saved ==> JobInv(s.saved[i], s.crew)
  }

  ghost predicate Registry(s: State) {
    && (forall j :: 0 <= j < |s.jobs| && s.jobs[j].status == RUNNING ==>
          s.jobs[j].key in s.byKey && s.byKey[s.jobs[j].key] == j)
    && forall key :: key in s.byKey ==> s.byKey[key] < |s.jobs|
  }

  /** Whoever is inside a month section is the recorded owner of that month's lock. */
  ghost predicate OwnersInv(s: State) {
    forall j: nat, w: nat :: Slot(s, j, w) && Holds(PcAt(s, j, w)) ==>
      SectionOf(s, j, w) in s.monthLocks && s.monthLocks[SectionOf(s, j, w)] == WorkerId(j, w)
  }

  /** Every recorded owner is inside the section it owns. */
  ghost predicate LocksInv(s: State) {
    forall k :: k in s.monthLocks ==>
      var id := s.monthLocks[k];
      Slot(s, id.job, id.slot) && Holds(PcAt(s, id.job, id.slot)) && SectionOf(s, id.job, id.slot) == k
  }

  ghost predicate GlobalInv(s: State) {
    && (s.globalLock.Some? ==> s.globalLock.value < |s.starts| && s.starts[s.globalLock.value].Scanning?)
    && forall r :: 0 <= r < |s.starts| && s.starts[r].Scanning? ==> s.globalLock == Some(r)
  }

  /** While a call scans the disk under the global lock, no running job can appear for its key. */
  ghost predicate StartsInv(s: State) {
    forall r :: 0 <= r < |s.starts| && s.starts[r].Scanning? ==> !Reusable(s, s.starts[r].key)
  }

  ghost predicate HistoryInv(s: State) {
    && (forall k :: k in s.passed ==> PartitionOf(k) in s.disk)
    && (forall k :: k in s.confirmed ==> PartitionOf(k) in s.disk || KnownEmpty(s, PartitionOf(k)))
  }

  /** A worker whose last attempt was accepted. */
  predicate Succeeding(pc: Pc) {
    pc.AwaitGlobal? && (pc.update.Suspect? || pc.update == Tally(true) || pc.update.Success?)
  }

  /** What the histories say about a worker at `pc` in section `k`: one about to fetch is not fetching
      a month that passed the gate, nor one confirmed empty since the last rebuild unless the coverage
      index could not be read; one on its way to being counted as done did pass the gate. */
  ghost predicate PcInv(pc: Pc, k: LockKey, passed: set<LockKey>, confirmed: set<LockKey>) {
    && (pc.Fetching? ==> pc.attempt <= RETRIES && k !in passed && (!pc.blind ==> k !in confirmed))
    && (Succeeding(pc) ==> k in passed)
  }

  ghost predicate FetchInv(s: State) {
    forall j: nat, w: nat :: Slot(s, j, w) && Holds(PcAt(s, j, w)) ==>
      PcInv(PcAt(s, j, w), SectionOf(s, j, w), s.passed, s.confirmed)
  }

  /** Every month a job counts as done passed the gate. */
  ghost predicate DonePassed(job: Job, passed: set<LockKey>) {
    forall m :: m in job.doneLog ==> LockKeyOf(job, m) in passed
  }

  ghost predicate DoneInv(s: State) {
    && (forall j :: 0 <= j < |s.jobs| ==> DonePassed(s.jobs[j], s.passed))
    && forall i :: i in s.saved ==> DonePassed(s.saved[i], s.passed)
  }

  ghost predicate Inv(s: State) {
    && JobsInv(s) && SavedInv(s) && Registry(s) && OwnersInv(s) && LocksInv(s)
    && GlobalInv(s) && StartsInv(s) && HistoryInv(s) && FetchInv(s) && DoneInv(s)
  }

  // ---- books ----

  lemma NewJobBooks(key: Key, found: set<Month>, crew: int)
    requires ValidKey(key)
    ensures JobInv(NewJob(key, found), crew)
  {
    SpanIsTheRange(First(key.from), First(key.to));
    WithoutDistinct(Range(key), found);
  }

  /** A job without planned months has counted none. */
  lemma NothingPlanned(job: Job)
    requires Conserved(job) && job.planned == []
    ensures job.failedMonths == []
  {
    forall m ensures multiset(job.failedMonths)[m] == 0 {
      assert multiset(job.planned)[m] >= Counted(job, m);
    }
    assert multiset(job.failedMonths) == multiset{};
    assert |multiset(job.failedMonths)| == |job.failedMonths|;
  }

  lemma LaunchBooks(job: Job, crew: int)
    requires JobInv(job, crew) && job.phase == Created
    ensures job.planned == [] ==> JobInv(job.(status := DONE, phase := Ended), crew)
    ensures job.planned != [] ==>
      JobInv(job.(phase := Draining, workers := seq(CrewSize(crew, |job.planned|), _ => Idle)), crew)
  {
    if job.planned == [] {
      NothingPlanned(job);
    } else {
      var ws := seq(CrewSize(crew, |job.planned|), _ => Idle);
      forall m ensures Tickets(ws, HeldBy, m) == 0 && Tickets(ws, BoundForDone, m) == 0 {
        NoTickets(ws, HeldBy, m);
        NoTickets(ws, BoundForDone, m);
      }
    }
  }

  lemma TakeConserved(job: Job, w: nat)
    requires Conserved(job) && w < |job.workers| && job.workers[w].Idle? && job.queue != []
    ensures Conserved(WithPc(job.(queue := job.queue[1..]), w, AwaitMonth(job.queue[0])))
  {
    var pc := AwaitMonth(job.queue[0]);
    assert job.queue == [job.queue[0]] + job.queue[1..];
    forall m ensures multiset(job.planned)[m] ==
        multiset(job.queue[1..])[m] + Tickets(job.workers[w := pc], HeldBy, m) + Counted(job, m)
    {
      TicketsUpdate(job.workers, w, pc, HeldBy, m);
    }
  }

  lemma SwapConserved(job: Job, w: nat, pc: Pc)
    requires Conserved(job) && w < |job.workers|
    requires HeldBy(job.workers[w]) == HeldBy(pc)
    ensures Conserved(WithPc(job, w, pc))
  {
    forall m ensures Tickets(job.workers[w := pc], HeldBy, m) == Tickets(job.workers, HeldBy, m) {
      TicketsUpdate(job.workers, w, pc, HeldBy, m);
    }
  }

  lemma SwapMarked(job: Job, w: nat, pc: Pc)
    requires Marked(job) && w < |job.workers|
    requires BoundForDone(job.workers[w]).None? || BoundForDone(job.workers[w]) == BoundForDone(pc)
    ensures Marked(WithPc(job, w, pc))
  {
    forall m ensures Tickets(job.workers[w := pc], BoundForDone, m) >= Tickets(job.workers, BoundForDone, m) {
      TicketsUpdate(job.workers, w, pc, BoundForDone, m);
    }
  }

  lemma TakeBooks(job: Job, crew: int, w: nat)
    requires JobInv(job, crew) && job.phase == Draining && w < |job.workers| && job.workers[w].Idle?
    ensures job.queue == [] ==> JobInv(WithPc(job, w, Exited), crew)
    ensures job.queue != [] ==>
      JobInv(WithPc(job.(queue := job.queue[1..]), w, AwaitMonth(job.queue[0])), crew)
  {
    if job.queue == [] {
      SwapConserved(job, w, Exited);
      SwapMarked(job, w, Exited);
    } else {
      TakeConserved(job, w);
      SwapMarked(job, w, AwaitMonth(job.queue[0]));
    }
  }

  /** A worker that keeps its month and is not yet bound for done moves without touching the books. */
  lemma MoveBooks(job: Job, crew: int, w: nat, pc: Pc)
    requires JobInv(job, crew) && job.phase == Draining && w < |job.workers|
    requires HeldBy(job.workers[w]) == HeldBy(pc) && !pc.Exited?
    requires BoundForDone(job.workers[w]).None?
    ensures JobInv(WithPc(job, w, pc), crew)
  {
    SwapConserved(job, w, pc);
    SwapMarked(job, w, pc);
  }

  /** The job after worker `w` commits its update. */
  function Committed(job: Job, w: nat): Job
    requires w < |job.workers| && job.workers[w].AwaitGlobal?
  {
    var pc := job.workers[w];
    Count(WithPc(job, w, AfterUpdate(pc.month, pc.update, pc.retries)), pc.month, pc.update, pc.retries)
  }

  /** An update that ends the section counts its month once; the others count nothing. */
  lemma CommitCounts(job: Job, w: nat, m: Month)
    requires w < |job.workers| && job.workers[w].AwaitGlobal?
    ensures var pc := job.workers[w];
      Counted(Committed(job, w), m)
        == Counted(job, m) + (if AfterUpdate(pc.month, pc.update, pc.retries).Idle? then One(Some(pc.month), m) else 0)
  {}

  lemma CommitConserved(job: Job, w: nat)
    requires Conserved(job) && w < |job.workers| && job.workers[w].AwaitGlobal?
    ensures Conserved(Committed(job, w))
  {
    var pc := job.workers[w];
    var next := AfterUpdate(pc.month, pc.update, pc.retries);
    var after := Committed(job, w);
    forall m ensures multiset(after.planned)[m] ==
        multiset(after.queue)[m] + Tickets(after.workers, HeldBy, m) + Counted(after, m)
    {
      TicketsUpdate(job.workers, w, next, HeldBy, m);
      CommitCounts(job, w, m);
    }
  }

  lemma CommitMarked(job: Job, w: nat)
    requires Marked(job) && w < |job.workers| && job.workers[w].AwaitGlobal?
    ensures Marked(Committed(job, w))
  {
    var pc := job.workers[w];
    var next := AfterUpdate(pc.month, pc.update, pc.retries);
    var after := Committed(job, w);
    forall m ensures multiset(after.suspectMonths)[m] <=
        multiset(after.doneLog)[m] + Tickets(after.workers, BoundForDone, m)
    {
      TicketsUpdate(job.workers, w, next, BoundForDone, m);
    }
  }

  lemma CommitTallied(job: Job, w: nat)
    requires Planned(job) && Tallied(job) && w < |job.workers| && job.workers[w].AwaitGlobal?
    ensures Planned(Committed(job, w)) && Tallied(Committed(job, w))
  {
    hide Range, Distinct;
  }

  lemma CommitStaffed(job: Job, crew: int, w: nat)
    requires Staffed(job, crew) && job.phase == Draining && w < |job.workers| && job.workers[w].AwaitGlobal?
    ensures Staffed(Committed(job, w), crew)
    ensures Committed(job, w).status == job.status && Committed(job, w).phase == job.phase
  {}

  lemma CommitBooks(job: Job, crew: int, w: nat)
    requires JobInv(job, crew) && job.phase == Draining && w < |job.workers| && job.workers[w].AwaitGlobal?
    ensures JobInv(Committed(job, w), crew)
  {
    hide Planned, Tallied, Conserved, Marked, Staffed, Committed;
    CommitTallied(job, w);
    CommitConserved(job, w);
    CommitMarked(job, w);
    CommitStaffed(job, crew, w);
  }

  lemma FinishBooks(job: Job, crew: int)
    requires JobInv(job, crew) && (job.phase == Rebuilding || job.phase == Rewritten)
    ensures JobInv(job.(phase := Rewritten), crew)
    ensures JobInv(job.(status := if job.failed == 0 then DONE else FAILED, phase := Ended), crew)
  {}

  lemma GatheredBooks(job: Job, crew: int)
    requires JobInv(job, crew) && job.phase == Draining && AllExited(job.workers)
    ensures JobInv(job.(phase := Rebuilding), crew)
  {
    if crew >= 1 { assert job.workers[0].Exited?; }
  }
}
