/** The test runner's worker threads around their two shared queues. */
module WorkerPool {
  import opened Collections
  import opened Sums

  /**
   * A test job: a stop marker or interrupted when isBreak is set. `exit` is not a field of the
   * program but what the job's process will exit with if it is run; any job may have any code.
   */
  datatype Job = Job(name: string, isBreak: bool, isSkip: bool, returncode: int, exit: int)

  datatype Worker = Waiting | Holding(job: Job) | Running(job: Job) | Exited

  /** Where the main thread stands: each put, get and join is one point. */
  datatype Main = Dispatch(next: nat) | Mark(next: nat) | Collect(next: nat) | Join(next: nat) | Finished

  /**
   * The shared state; `taken` is the history of how often the input queue's get has returned,
   * `launched` the history of the jobs whose process was started.
   */
  datatype Pool = Pool(
    inq: seq<Job>, taken: nat, outq: seq<Job>, workers: seq<Worker>, main: Main, threadExit: bool,
    collected: seq<Job>, launched: seq<Job>)

  const MARKER := Job("", true, false, 0, 0)

  /** The jobs as the dispatcher makes them: no marker, and no return code yet. */
  predicate Fresh(jobs: seq<Job>) {
    forall i :: 0 <= i < |jobs| ==> !jobs[i].isBreak && jobs[i].returncode == 0
  }

  // ----- steps

  function Put(s: Pool, job: Job): Pool {
    s.(inq := s.inq + [job])
  }

  /** Worker i hands over its job and goes back to the input queue. */
  function Deliver(s: Pool, i: nat, job: Job): Pool
    requires i < |s.workers|
  {
    s.(outq := s.outq + [job], workers := s.workers[i := Waiting])
  }

  /** Worker i starts the process of its job. */
  function Launch(s: Pool, i: nat, job: Job): Pool
    requires i < |s.workers|
  {
    s.(workers := s.workers[i := Running(job)], launched := s.launched + [job])
  }

  predicate WorkerStep(s: Pool, t: Pool, i: nat) {
    && i < |s.workers|
    && match s.workers[i]
       case Waiting =>
         && s.inq != []
         && t == s.(inq := s.inq[1..], taken := s.taken + 1,
                   workers := s.workers[i := if s.inq[0].isBreak then Exited else Holding(s.inq[0])])
       case Holding(job) =>
         if s.threadExit then t == Deliver(s, i, job.(isBreak := true))
         else if job.isSkip then t == Deliver(s, i, job)
         else t == Launch(s, i, job)
       case Running(job) => t == Deliver(s, i, job.(returncode := job.exit))
       case Exited => false
  }

  ghost predicate MainStep(jobs: seq<Job>, s: Pool, t: Pool) {
    match s.main
    case Dispatch(k) =>
      t == if k < |jobs| then Put(s, jobs[k]).(main := Dispatch(k + 1)) else s.(main := Mark(0))
    case Mark(k) =>
      t == if k < |s.workers| then Put(s, MARKER).(main := Mark(k + 1)) else s.(main := Collect(0))
    case Collect(k) =>
      if k < |jobs| then
        s.outq != [] && t == s.(outq := s.outq[1..], collected := s.collected + [s.outq[0]], main := Collect(k + 1))
      else t == s.(main := Join(0))
    case Join(k) =>
      if k < |s.workers| then s.workers[k].Exited? && t == s.(main := Join(k + 1)) else t == s.(main := Finished)
    case Finished => false
  }

  /** The interrupt handler may set the flag at any moment. */
  predicate Interrupt(s: Pool, t: Pool) {
    !s.threadExit && t == s.(threadExit := true)
  }

  ghost predicate Step(jobs: seq<Job>, s: Pool, t: Pool) {
    MainStep(jobs, s, t) || Interrupt(s, t) || exists i: nat :: WorkerStep(s, t, i)
  }

  predicate Init(s: Pool) {
    && s.inq == [] && s.taken == 0 && s.outq == [] && s.main == Dispatch(0) && !s.threadExit
    && s.collected == [] && s.launched == []
    && forall i :: 0 <= i < |s.workers| ==> s.workers[i].Waiting?
  }

  ghost predicate Consecutive(jobs: seq<Job>, run: seq<Pool>, i: nat)
    requires i + 1 < |run|
  {
    Step(jobs, run[i], run[i + 1])
  }

  ghost predicate IsRun(jobs: seq<Job>, run: seq<Pool>) {
    run != [] && forall i: nat {:trigger Consecutive(jobs, run, i)} :: i + 1 < |run| ==> Consecutive(jobs, run, i)
  }

  // ----- what is where

  /** The job as it was dispatched. */
  function Origin(job: Job): Job {
    job.(isBreak := false, returncode := 0)
  }

  /** Counts the copies of x among jobs, as they were dispatched. */
  function Same(x: Job): Job -> nat {
    (job: Job) => if Origin(job) == x then 1 else 0
  }

  predicate Busy(w: Worker) {
    w.Holding? || w.Running?
  }

  function Holds(x: Job): Worker -> nat {
    (w: Worker) => if Busy(w) && Origin(w.job) == x then 1 else 0
  }

  const BUSY: Worker -> nat := (w: Worker) => if Busy(w) then 1 else 0
  const GONE: Worker -> nat := (w: Worker) => if w.Exited? then 1 else 0
  const LOAD: Worker -> nat := (w: Worker) => if w.Holding? then 2 else if w.Running? then 1 else 0

  /**
   * Of the input queue's feed, `taken` entries have been taken: each job among them is held by
   * a worker, in the output queue or collected, and each marker among them has ended one worker.
   * The jobs are counted twice, all together and the copies of x.
   */
  ghost predicate Balanced(jobs: seq<Job>, taken: nat, ws: seq<Worker>, outq: seq<Job>, collected: seq<Job>, x: Job) {
    && Total(jobs[..Min(taken, |jobs|)], Same(x))
       == Total(ws, Holds(x)) + Total(outq, Same(x)) + Total(collected, Same(x))
    && Min(taken, |jobs|) == Total(ws, BUSY) + |outq| + |collected|
    && taken - Min(taken, |jobs|) == Total(ws, GONE)
  }

  lemma WorkersUpdate(ws: seq<Worker>, i: nat, w: Worker, x: Job)
    requires i < |ws|
    ensures Total(ws[i := w], Holds(x)) + Holds(x)(ws[i]) == Total(ws, Holds(x)) + Holds(x)(w)
    ensures Total(ws[i := w], BUSY) + BUSY(ws[i]) == Total(ws, BUSY) + BUSY(w)
    ensures Total(ws[i := w], GONE) + GONE(ws[i]) == Total(ws, GONE) + GONE(w)
  {
    TotalUpdate(ws, i, w, Holds(x));
    TotalUpdate(ws, i, w, BUSY);
    TotalUpdate(ws, i, w, GONE);
  }

  lemma BalancedGet(jobs: seq<Job>, taken: nat, ws: seq<Worker>, outq: seq<Job>, collected: seq<Job>, x: Job, i: nat)
    requires Balanced(jobs, taken, ws, outq, collected, x) && taken < |jobs| && i < |ws| && ws[i].Waiting?
    ensures Balanced(jobs, taken + 1, ws[i := Holding(jobs[taken])], outq, collected, x)
  {
    assert jobs[..taken + 1] == jobs[..taken] + [jobs[taken]];
    TotalSnoc(jobs[..taken], jobs[taken], Same(x));
    WorkersUpdate(ws, i, Holding(jobs[taken]), x);
  }

  lemma BalancedExit(jobs: seq<Job>, taken: nat, ws: seq<Worker>, outq: seq<Job>, collected: seq<Job>, x: Job, i: nat)
    requires Balanced(jobs, taken, ws, outq, collected, x) && taken >= |jobs| && i < |ws| && ws[i].Waiting?
    ensures Balanced(jobs, taken + 1, ws[i := Exited], outq, collected, x)
  {
    WorkersUpdate(ws, i, Exited, x);
  }

  lemma BalancedLaunch(jobs: seq<Job>, taken: nat, ws: seq<Worker>, outq: seq<Job>, collected: seq<Job>, x: Job, i: nat)
    requires Balanced(jobs, taken, ws, outq, collected, x) && i < |ws| && ws[i].Holding?
    ensures Balanced(jobs, taken, ws[i := Running(ws[i].job)], outq, collected, x)
  {
    WorkersUpdate(ws, i, Running(ws[i].job), x);
  }

  lemma BalancedDeliver(jobs: seq<Job>, taken: nat, ws: seq<Worker>, outq: seq<Job>, collected: seq<Job>, x: Job,
                        i: nat, job: Job)
    requires Balanced(jobs, taken, ws, outq, collected, x) && i < |ws|
             && Busy(ws[i]) && Origin(job) == Origin(ws[i].job)
    ensures Balanced(jobs, taken, ws[i := Waiting], outq + [job], collected, x)
  {
    WorkersUpdate(ws, i, Waiting, x);
    TotalSnoc(outq, job, Same(x));
  }

  lemma BalancedCollect(jobs: seq<Job>, taken: nat, ws: seq<Worker>, outq: seq<Job>, collected: seq<Job>, x: Job)
    requires Balanced(jobs, taken, ws, outq, collected, x) && outq != []
    ensures Balanced(jobs, taken, ws, outq[1..], collected + [outq[0]], x)
  {
    TotalHead(outq, Same(x));
    TotalSnoc(collected, outq[0], Same(x));
  }

  // ----- the input queue

  /** What is put into the input queue, in order: the jobs, then the markers. */
  function Feed(jobs: seq<Job>, k: nat): Job {
    if k < |jobs| then jobs[k] else MARKER
  }

  /** How much of it has been put so far. */
  function PutCount(jobs: seq<Job>, s: Pool): nat {
    match s.main
    case Dispatch(k) => k
    case Mark(k) => |jobs| + k
    case _ => |jobs| + |s.workers|
  }

  /** The queue holds the entries after the first `taken`. */
  predicate Window(jobs: seq<Job>, inq: seq<Job>, taken: nat) {
    forall i :: 0 <= i < |inq| ==> inq[i] == Feed(jobs, taken + i)
  }

  // ----- the invariant

  predicate MainOk(jobs: seq<Job>, s: Pool) {
    match s.main
    case Dispatch(k) => k <= |jobs| && s.collected == []
    case Mark(k) => k <= |s.workers| && s.collected == []
    case Collect(k) => k == |s.collected| <= |jobs|
    case Join(k) => k <= |s.workers| && |s.collected| == |jobs| && forall i :: 0 <= i < k ==> s.workers[i].Exited?
    case Finished => |s.collected| == |jobs| && forall i :: 0 <= i < |s.workers| ==> s.workers[i].Exited?
  }

  /** A job in the output queue was interrupted only if the flag is set, and has its process's code if it ran. */
  predicate OutputsOk(threadExit: bool, out: seq<Job>) {
    forall i :: 0 <= i < |out| ==>
      && (out[i].isBreak ==> threadExit)
      && out[i].returncode == if out[i].isBreak || out[i].isSkip then 0 else out[i].exit
  }

  predicate WorkersOk(ws: seq<Worker>) {
    forall i :: 0 <= i < |ws| && Busy(ws[i]) ==>
      ws[i].job == Origin(ws[i].job) && (ws[i].Running? ==> !ws[i].job.isSkip)
  }

  predicate Orderly(jobs: seq<Job>, s: Pool) {
    && Fresh(jobs) && MainOk(jobs, s) && WorkersOk(s.workers)
    && OutputsOk(s.threadExit, s.outq) && OutputsOk(s.threadExit, s.collected)
    && Window(jobs, s.inq, s.taken) && s.taken + |s.inq| == PutCount(jobs, s)
    && (s.workers == [] ==> s.taken == 0)
  }

  ghost predicate Accounted(jobs: seq<Job>, s: Pool, x: Job) {
    Balanced(jobs, s.taken, s.workers, s.outq, s.collected, x)
  }

  ghost predicate Inv(jobs: seq<Job>, s: Pool, x: Job) {
    Orderly(jobs, s) && Accounted(jobs, s, x)
  }

  lemma InitInv(jobs: seq<Job>, s: Pool, x: Job)
    requires Fresh(jobs) && Init(s)
    ensures Inv(jobs, s, x)
  {
    TotalZero(s.workers, Holds(x));
    TotalZero(s.workers, BUSY);
    TotalZero(s.workers, GONE);
    assert jobs[..0] == [];
  }

  lemma DispatchKeepsOrder(jobs: seq<Job>, s: Pool, t: Pool)
    requires Orderly(jobs, s) && MainStep(jobs, s, t) && (s.main.Dispatch? || s.main.Mark?)
    ensures Orderly(jobs, t)
  {
  }

  lemma CollectKeepsOrder(jobs: seq<Job>, s: Pool, t: Pool)
    requires Orderly(jobs, s) && MainStep(jobs, s, t) && (s.main.Collect? || s.main.Join?)
    ensures Orderly(jobs, t)
  {
  }

  lemma MainKeepsOrder(jobs: seq<Job>, s: Pool, t: Pool)
    requires Orderly(jobs, s) && MainStep(jobs, s, t)
    ensures Orderly(jobs, t) && |t.workers| == |s.workers|
  {
    if s.main.Dispatch? || s.main.Mark? {
      DispatchKeepsOrder(jobs, s, t);
    } else {
      CollectKeepsOrder(jobs, s, t);
    }
  }

  lemma InterruptKeepsOrder(jobs: seq<Job>, s: Pool, t: Pool)
    requires Orderly(jobs, s) && Interrupt(s, t)
    ensures Orderly(jobs, t)
  {
  }

  lemma MainKeepsAccount(jobs: seq<Job>, s: Pool, t: Pool, x: Job)
    requires Accounted(jobs, s, x) && MainStep(jobs, s, t)
    ensures Accounted(jobs, t, x)
  {
    if s.main.Collect? && s.main.next < |jobs| {
      BalancedCollect(jobs, s.taken, s.workers, s.outq, s.collected, x);
    }
  }

  /** What a worker takes is the next of the jobs, or a marker when all jobs are taken. */
  lemma NextInQueue(jobs: seq<Job>, s: Pool)
    requires Orderly(jobs, s) && s.inq != []
    ensures if s.taken < |jobs| then s.inq[0] == jobs[s.taken] && !s.inq[0].isBreak else s.inq[0] == MARKER
  {
    assert s.inq[0] == Feed(jobs, s.taken + 0);
  }

  lemma GetKeepsOrder(jobs: seq<Job>, s: Pool, t: Pool, i: nat)
    requires Orderly(jobs, s) && WorkerStep(s, t, i) && s.workers[i].Waiting?
    ensures Orderly(jobs, t)
  {
    NextInQueue(jobs, s);
    assert forall k :: 0 <= k < |t.inq| ==> t.inq[k] == s.inq[k + 1];
  }

  lemma WorkerKeepsOrder(jobs: seq<Job>, s: Pool, t: Pool, i: nat)
    requires Orderly(jobs, s) && WorkerStep(s, t, i)
    ensures Orderly(jobs, t) && |t.workers| == |s.workers|
  {
    if s.workers[i].Waiting? {
      GetKeepsOrder(jobs, s, t, i);
    }
  }

  lemma DeliverKeepsAccount(jobs: seq<Job>, s: Pool, x: Job, i: nat, job: Job)
    requires Accounted(jobs, s, x) && i < |s.workers| && Busy(s.workers[i]) && Origin(job) == Origin(s.workers[i].job)
    ensures Accounted(jobs, Deliver(s, i, job), x)
  {
    BalancedDeliver(jobs, s.taken, s.workers, s.outq, s.collected, x, i, job);
  }

  lemma GetKeepsAccount(jobs: seq<Job>, s: Pool, t: Pool, x: Job, i: nat)
    requires Orderly(jobs, s) && Accounted(jobs, s, x) && WorkerStep(s, t, i) && s.workers[i].Waiting?
    ensures Accounted(jobs, t, x)
  {
    NextInQueue(jobs, s);
    assert t.taken == s.taken + 1 && t.outq == s.outq && t.collected == s.collected;
    if s.taken < |jobs| {
      assert t.workers == s.workers[i := Holding(jobs[s.taken])];
      BalancedGet(jobs, s.taken, s.workers, s.outq, s.collected, x, i);
    } else {
      assert t.workers == s.workers[i := Exited];
      BalancedExit(jobs, s.taken, s.workers, s.outq, s.collected, x, i);
    }
  }

  lemma WorkerKeepsAccount(jobs: seq<Job>, s: Pool, t: Pool, x: Job, i: nat)
    requires Orderly(jobs, s) && Accounted(jobs, s, x) && WorkerStep(s, t, i)
    ensures Accounted(jobs, t, x)
  {
    match s.workers[i]
    case Waiting => GetKeepsAccount(jobs, s, t, x, i);
    case Holding(job) =>
      if s.threadExit {
        DeliverKeepsAccount(jobs, s, x, i, job.(isBreak := true));
      } else if job.isSkip {
        DeliverKeepsAccount(jobs, s, x, i, job);
      } else {
        BalancedLaunch(jobs, s.taken, s.workers, s.outq, s.collected, x, i);
      }
    case Running(job) =>
      DeliverKeepsAccount(jobs, s, x, i, job.(returncode := job.exit));
  }

  lemma StepKeepsInv(jobs: seq<Job>, s: Pool, t: Pool, x: Job)
    requires Inv(jobs, s, x) && Step(jobs, s, t)
    ensures Inv(jobs, t, x) && |t.workers| == |s.workers|
  {
    if MainStep(jobs, s, t) {
      MainKeepsOrder(jobs, s, t);
      MainKeepsAccount(jobs, s, t, x);
    } else if Interrupt(s, t) {
      InterruptKeepsOrder(jobs, s, t);
    } else {
      var i: nat :| WorkerStep(s, t, i);
      WorkerKeepsOrder(jobs, s, t, i);
      WorkerKeepsAccount(jobs, s, t, x, i);
    }
  }

  lemma {:induction false} RunKeepsInv(jobs: seq<Job>, run: seq<Pool>, x: Job, i: nat)
    requires Fresh(jobs) && IsRun(jobs, run) && Init(run[0]) && i < |run|
    ensures Inv(jobs, run[i], x) && |run[i].workers| == |run[0].workers|
  {
    if i == 0 {
      InitInv(jobs, run[0], x);
    } else {
      RunKeepsInv(jobs, run, x, i - 1);
      assert Consecutive(jobs, run, i - 1);
      StepKeepsInv(jobs, run[i - 1], run[i], x);
    }
  }

  // ----- conservation

  /** Counts the copies of x among the real jobs of the input queue. */
  function Queued(x: Job): Job -> nat {
    (job: Job) => if !job.isBreak && Origin(job) == x then 1 else 0
  }

  /** How many jobs have been dispatched. */
  function Dispatched(jobs: seq<Job>, s: Pool): nat {
    if s.main.Dispatch? then s.main.next else |jobs|
  }

  /** The copies of x among the jobs that are entries taken to taken + n of the feed. */
  function SliceCount(jobs: seq<Job>, taken: nat, n: nat, x: Job): nat {
    Total(jobs[Min(taken, |jobs|)..Min(taken + n, |jobs|)], Same(x))
  }

  /** One more entry of the feed. */
  lemma QueuedNext(jobs: seq<Job>, taken: nat, n: nat, x: Job)
    requires Fresh(jobs) && n > 0
    ensures SliceCount(jobs, taken, n, x) == SliceCount(jobs, taken, n - 1, x) + Queued(x)(Feed(jobs, taken + n - 1))
  {
    if taken + n - 1 < |jobs| {
      var part := jobs[taken..taken + n - 1];
      assert jobs[taken..taken + n] == part + [jobs[taken + n - 1]];
      TotalSnoc(part, jobs[taken + n - 1], Same(x));
    }
  }

  lemma WindowPrefix(jobs: seq<Job>, inq: seq<Job>, taken: nat)
    requires Window(jobs, inq, taken) && inq != []
    ensures Window(jobs, inq[..|inq| - 1], taken)
    ensures inq[|inq| - 1] == Feed(jobs, taken + |inq| - 1)
  {
  }

  /** The copies of x among n entries of the feed. */
  function FeedCount(jobs: seq<Job>, taken: nat, n: nat, x: Job): nat {
    if n == 0 then 0 else FeedCount(jobs, taken, n - 1, x) + Queued(x)(Feed(jobs, taken + n - 1))
  }

  lemma {:induction false} FeedIsSlice(jobs: seq<Job>, taken: nat, n: nat, x: Job)
    requires Fresh(jobs)
    ensures FeedCount(jobs, taken, n, x) == SliceCount(jobs, taken, n, x)
  {
    if n == 0 {
      NothingBetween(jobs, Min(taken, |jobs|), x);
    } else {
      FeedIsSlice(jobs, taken, n - 1, x);
      QueuedNext(jobs, taken, n, x);
    }
  }

  lemma NothingBetween(jobs: seq<Job>, k: nat, x: Job)
    requires k <= |jobs|
    ensures Total(jobs[k..k], Same(x)) == 0
  {
    assert jobs[k..k] == [];
  }

  lemma {:induction false} QueuedIsFeed(jobs: seq<Job>, inq: seq<Job>, taken: nat, x: Job)
    requires Window(jobs, inq, taken)
    ensures Total(inq, Queued(x)) == FeedCount(jobs, taken, |inq|, x)
  {
    if inq != [] {
      WindowPrefix(jobs, inq, taken);
      QueuedIsFeed(jobs, inq[..|inq| - 1], taken, x);
    }
  }

  /** The real jobs in the queue are the dispatched ones that have not been taken. */
  lemma {:induction false} QueuedJobs(jobs: seq<Job>, inq: seq<Job>, taken: nat, k: nat, d: nat, x: Job)
    requires Fresh(jobs) && Window(jobs, inq, taken) && k == Min(taken, |jobs|) && d == Min(taken + |inq|, |jobs|)
    ensures Total(inq, Queued(x)) == Total(jobs[k..d], Same(x))
  {
    QueuedIsFeed(jobs, inq, taken, x);
    FeedIsSlice(jobs, taken, |inq|, x);
  }

  lemma ThreeParts(jobs: seq<Job>, k: nat, d: nat, x: Job)
    requires k <= d <= |jobs|
    ensures Total(jobs, Same(x)) == Total(jobs[..k], Same(x)) + Total(jobs[k..d], Same(x)) + Total(jobs[d..], Same(x))
  {
    assert jobs[..k] + jobs[k..d] == jobs[..d] && jobs[..d] + jobs[d..] == jobs;
    TotalConcat(jobs[..k], jobs[k..d], Same(x));
    TotalConcat(jobs[..d], jobs[d..], Same(x));
  }

  lemma PlacesAddUp(jobs: seq<Job>, taken: nat, inq: seq<Job>, ws: seq<Worker>, outq: seq<Job>, collected: seq<Job>,
                    d: nat, x: Job)
    requires Fresh(jobs) && Window(jobs, inq, taken) && Balanced(jobs, taken, ws, outq, collected, x)
    requires d == Min(taken + |inq|, |jobs|)
    ensures Total(jobs, Same(x))
            == Total(jobs[d..], Same(x)) + Total(inq, Queued(x))
               + Total(ws, Holds(x)) + Total(outq, Same(x)) + Total(collected, Same(x))
  {
    QueuedJobs(jobs, inq, taken, Min(taken, |jobs|), d, x);
    ThreeParts(jobs, Min(taken, |jobs|), d, x);
  }

  lemma {:induction false} AllPlaces(jobs: seq<Job>, s: Pool, x: Job)
    requires Inv(jobs, s, x)
    ensures Dispatched(jobs, s) <= |jobs|
    ensures Total(jobs, Same(x))
            == Total(jobs[Dispatched(jobs, s)..], Same(x)) + Total(s.inq, Queued(x))
               + Total(s.workers, Holds(x)) + Total(s.outq, Same(x)) + Total(s.collected, Same(x))
  {
    PlacesAddUp(jobs, s.taken, s.inq, s.workers, s.outq, s.collected, Dispatched(jobs, s), x);
  }

  /**
   * In every reachable state each job is in exactly one place: not yet dispatched, queued, held
   * by a worker, in the output queue, or collected.
   */
  lemma {:induction false} Conservation(jobs: seq<Job>, run: seq<Pool>, i: nat, x: Job)
    requires Fresh(jobs) && IsRun(jobs, run) && Init(run[0]) && i < |run|
    ensures Dispatched(jobs, run[i]) <= |jobs|
    ensures Total(jobs, Same(x))
            == Total(jobs[Dispatched(jobs, run[i])..], Same(x)) + Total(run[i].inq, Queued(x))
               + Total(run[i].workers, Holds(x)) + Total(run[i].outq, Same(x)) + Total(run[i].collected, Same(x))
  {
    RunKeepsInv(jobs, run, x, i);
    AllPlaces(jobs, run[i], x);
  }

  /**
   * A worker takes a marker only when no real job is queued and every job has been taken; in
   * every state exactly as many workers have ended as markers were taken.
   */
  lemma MarkersComeLast(jobs: seq<Job>, run: seq<Pool>, i: nat)
    requires Fresh(jobs) && IsRun(jobs, run) && Init(run[0]) && i < |run|
    ensures var s := run[i];
            && (s.inq != [] && s.inq[0].isBreak ==>
                  s.taken >= |jobs| && forall k :: 0 <= k < |s.inq| ==> s.inq[k] == MARKER)
            && Total(s.workers, GONE) == s.taken - Min(s.taken, |jobs|)
            && (s.taken < |jobs| ==> forall k :: 0 <= k < |s.workers| ==> !s.workers[k].Exited?)
  {
    RunKeepsInv(jobs, run, MARKER, i);
    var s := run[i];
    if s.inq != [] {
      NextInQueue(jobs, s);
    }
    TotalZero(s.workers, GONE);
  }

  // ----- launches

  /** Counts the workers that are running the process of x. */
  function Runs(x: Job): Worker -> nat {
    (w: Worker) => if w.Running? && w.job == x then 1 else 0
  }

  /** Counts the outputs of x that are neither interrupted nor skipped. */
  function Ran(x: Job): Job -> nat {
    (job: Job) => if !job.isBreak && !job.isSkip && Origin(job) == x then 1 else 0
  }

  /** The processes of x that were started are those running and those whose output is there. */
  predicate LaunchesMatch(s: Pool, x: Job) {
    Total(s.launched, Same(x)) == Total(s.workers, Runs(x)) + Total(s.outq, Ran(x)) + Total(s.collected, Ran(x))
  }

  lemma DeliverKeepsLaunches(s: Pool, i: nat, job: Job, x: Job)
    requires LaunchesMatch(s, x) && i < |s.workers| && Runs(x)(s.workers[i]) == Ran(x)(job)
    ensures LaunchesMatch(Deliver(s, i, job), x)
  {
    TotalUpdate(s.workers, i, Waiting, Runs(x));
    TotalSnoc(s.outq, job, Ran(x));
  }

  lemma LaunchKeepsLaunches(s: Pool, i: nat, job: Job, x: Job)
    requires LaunchesMatch(s, x) && i < |s.workers| && !s.workers[i].Running? && job == Origin(job)
    ensures LaunchesMatch(Launch(s, i, job), x)
  {
    TotalUpdate(s.workers, i, Running(job), Runs(x));
    TotalSnoc(s.launched, job, Same(x));
  }

  lemma WorkerKeepsLaunches(jobs: seq<Job>, s: Pool, t: Pool, x: Job, i: nat)
    requires Orderly(jobs, s) && LaunchesMatch(s, x) && WorkerStep(s, t, i)
    ensures LaunchesMatch(t, x)
  {
    match s.workers[i]
    case Waiting => TotalUpdate(s.workers, i, t.workers[i], Runs(x));
    case Holding(job) =>
      if s.threadExit {
        DeliverKeepsLaunches(s, i, job.(isBreak := true), x);
      } else if job.isSkip {
        DeliverKeepsLaunches(s, i, job, x);
      } else {
        LaunchKeepsLaunches(s, i, job, x);
      }
    case Running(job) => DeliverKeepsLaunches(s, i, job.(returncode := job.exit), x);
  }

  lemma MainKeepsLaunches(jobs: seq<Job>, s: Pool, t: Pool, x: Job)
    requires LaunchesMatch(s, x) && MainStep(jobs, s, t)
    ensures LaunchesMatch(t, x)
  {
    if s.main.Collect? && s.main.next < |jobs| {
      TotalHead(s.outq, Ran(x));
      TotalSnoc(s.collected, s.outq[0], Ran(x));
    }
  }

  lemma StepKeepsLaunches(jobs: seq<Job>, s: Pool, t: Pool, x: Job)
    requires Orderly(jobs, s) && LaunchesMatch(s, x) && Step(jobs, s, t)
    ensures LaunchesMatch(t, x)
  {
    if MainStep(jobs, s, t) {
      MainKeepsLaunches(jobs, s, t, x);
    } else if !Interrupt(s, t) {
      var i: nat :| WorkerStep(s, t, i);
      WorkerKeepsLaunches(jobs, s, t, x, i);
    }
  }

  lemma {:induction false} RunKeepsLaunches(jobs: seq<Job>, run: seq<Pool>, x: Job, i: nat)
    requires Fresh(jobs) && IsRun(jobs, run) && Init(run[0]) && i < |run|
    ensures LaunchesMatch(run[i], x)
  {
    if i == 0 {
      TotalZero(run[0].workers, Runs(x));
    } else {
      RunKeepsLaunches(jobs, run, x, i - 1);
      RunKeepsInv(jobs, run, x, i - 1);
      assert Consecutive(jobs, run, i - 1);
      StepKeepsLaunches(jobs, run[i - 1], run[i], x);
    }
  }

  /**
   * In every reachable state the process of a job was started once for each of its copies that
   * is running or has an output neither interrupted nor skipped, and never more often than the
   * job was dispatched.
   */
  lemma LaunchedOnce(jobs: seq<Job>, run: seq<Pool>, i: nat, x: Job)
    requires Fresh(jobs) && IsRun(jobs, run) && Init(run[0]) && i < |run|
    ensures Total(run[i].launched, Same(x))
            == Total(run[i].workers, Runs(x)) + Total(run[i].outq, Ran(x)) + Total(run[i].collected, Ran(x))
    ensures Total(run[i].launched, Same(x)) <= Total(jobs, Same(x))
  {
    var s := run[i];
    RunKeepsLaunches(jobs, run, x, i);
    Conservation(jobs, run, i, x);
    RunKeepsInv(jobs, run, x, i);
    RunningIsHolding(s.workers, x);
    TotalMonotone(s.outq, Ran(x), Same(x));
    TotalMonotone(s.collected, Ran(x), Same(x));
  }

  lemma {:induction false} RunningIsHolding(ws: seq<Worker>, x: Job)
    requires WorkersOk(ws)
    ensures Total(ws, Runs(x)) <= Total(ws, Holds(x))
  {
    if ws != [] {
      var n := |ws| - 1;
      assert forall k :: 0 <= k < n ==> ws[..n][k] == ws[k];
      RunningIsHolding(ws[..n], x);
      assert Busy(ws[n]) ==> ws[n].job == Origin(ws[n].job);
    }
  }

  /** An output tells the truth: it is interrupted, or skipped, or carries the code of a process that was started. */
  predicate Truthful(s: Pool, job: Job) {
    || (job.isBreak && s.threadExit)
    || job.isSkip
    || (job.returncode == job.exit && exists m :: 0 <= m < |s.launched| && Origin(s.launched[m]) == Origin(job))
  }

  /** In every reachable state every output, waiting or collected, tells the truth. */
  lemma OutputsAreTruthful(jobs: seq<Job>, run: seq<Pool>, i: nat, job: Job)
    requires Fresh(jobs) && IsRun(jobs, run) && Init(run[0]) && i < |run|
    requires job in run[i].outq || job in run[i].collected
    ensures Truthful(run[i], job)
  {
    var s, x := run[i], Origin(job);
    RunKeepsInv(jobs, run, x, i);
    if !job.isBreak && !job.isSkip {
      RunKeepsLaunches(jobs, run, x, i);
      TotalZero(s.outq, Ran(x));
      TotalZero(s.collected, Ran(x));
      assert Ran(x)(job) == 1;
      TotalZero(s.launched, Same(x));
    }
  }

  // ----- the interrupt

  const RUNNING: Worker -> nat := (w: Worker) => if w.Running? then 1 else 0
  const KEPT: Job -> nat := (job: Job) => if job.isBreak then 0 else 1

  /** The outputs that are not interrupted, and the processes whose output will not be. */
  function Kept(s: Pool): nat {
    Total(s.workers, RUNNING) + Total(s.outq, KEPT) + Total(s.collected, KEPT)
  }

  lemma WorkerStopsWork(s: Pool, t: Pool, i: nat)
    requires WorkersOk(s.workers) && WorkerStep(s, t, i) && s.threadExit
    ensures t.threadExit && t.launched == s.launched && Kept(t) == Kept(s)
  {
    TotalUpdate(s.workers, i, t.workers[i], RUNNING);
    match s.workers[i]
    case Holding(job) => TotalSnoc(s.outq, job.(isBreak := true), KEPT);
    case Running(job) => TotalSnoc(s.outq, job.(returncode := job.exit), KEPT);
    case _ =>
  }

  lemma StepStopsWork(jobs: seq<Job>, s: Pool, t: Pool)
    requires Orderly(jobs, s) && Step(jobs, s, t) && s.threadExit
    ensures t.threadExit && t.launched == s.launched && Kept(t) == Kept(s)
  {
    if MainStep(jobs, s, t) {
      if s.main.Collect? && s.main.next < |jobs| {
        TotalHead(s.outq, KEPT);
        TotalSnoc(s.collected, s.outq[0], KEPT);
      }
    } else {
      var i: nat :| WorkerStep(s, t, i);
      WorkerStopsWork(s, t, i);
    }
  }

  /**
   * Once the flag is set no further process is started, and every job that a worker hands over
   * later is interrupted unless its process was already running, skipped jobs included.
   */
  lemma {:induction false} InterruptStopsWork(jobs: seq<Job>, run: seq<Pool>, i: nat, k: nat)
    requires Fresh(jobs) && IsRun(jobs, run) && Init(run[0]) && i <= k < |run| && run[i].threadExit
    ensures run[k].threadExit && run[k].launched == run[i].launched && Kept(run[k]) == Kept(run[i])
    decreases k - i
  {
    if i < k {
      InterruptStopsWork(jobs, run, i, k - 1);
      RunKeepsInv(jobs, run, MARKER, k - 1);
      assert Consecutive(jobs, run, k - 1);
      StepStopsWork(jobs, run[k - 1], run[k]);
    }
  }

  // ----- no state is stuck

  ghost predicate CanMove(jobs: seq<Job>, s: Pool) {
    exists t :: Step(jobs, s, t)
  }

  lemma WorkerCanMove(jobs: seq<Job>, s: Pool, i: nat)
    requires i < |s.workers| && (Busy(s.workers[i]) || (s.workers[i].Waiting? && s.inq != []))
    ensures CanMove(jobs, s)
  {
    var w := s.workers[i];
    var t := match w
      case Waiting =>
        s.(inq := s.inq[1..], taken := s.taken + 1,
           workers := s.workers[i := if s.inq[0].isBreak then Exited else Holding(s.inq[0])])
      case Holding(job) =>
        if s.threadExit then Deliver(s, i, job.(isBreak := true))
        else if job.isSkip then Deliver(s, i, job)
        else Launch(s, i, job)
      case Running(job) => Deliver(s, i, job.(returncode := job.exit))
      case Exited => s;
    assert WorkerStep(s, t, i);
    assert Step(jobs, s, t);
  }

  lemma MainCanMove(jobs: seq<Job>, s: Pool)
    requires !s.main.Finished?
    requires s.main.Collect? && s.main.next < |jobs| ==> s.outq != []
    requires s.main.Join? && s.main.next < |s.workers| ==> s.workers[s.main.next].Exited?
    ensures CanMove(jobs, s)
  {
    var t := match s.main
      case Dispatch(k) => if k < |jobs| then Put(s, jobs[k]).(main := Dispatch(k + 1)) else s.(main := Mark(0))
      case Mark(k) => if k < |s.workers| then Put(s, MARKER).(main := Mark(k + 1)) else s.(main := Collect(0))
      case Collect(k) =>
        if k < |jobs| then s.(outq := s.outq[1..], collected := s.collected + [s.outq[0]], main := Collect(k + 1))
        else s.(main := Join(0))
      case Join(k) => if k < |s.workers| then s.(main := Join(k + 1)) else s.(main := Finished)
      case Finished => s;
    assert MainStep(jobs, s, t);
    assert Step(jobs, s, t);
  }

  /** Unless there are jobs and no worker, some thread can always go on until the main thread is finished. */
  lemma NoStuckState(jobs: seq<Job>, s: Pool)
    requires Inv(jobs, s, MARKER) && !s.main.Finished? && (jobs == [] || s.workers != [])
    ensures CanMove(jobs, s)
  {
    TotalZero(s.workers, BUSY);
    TotalZero(s.workers, GONE);
    TotalFull(s.workers, GONE);
    if i: nat :| i < |s.workers| && Busy(s.workers[i]) {
      WorkerCanMove(jobs, s, i);
    } else if s.main.Collect? && s.main.next < |jobs| && s.outq == [] {
      assert s.taken == |s.collected| < |jobs| && !s.workers[0].Exited?;
      WorkerCanMove(jobs, s, 0);
    } else if s.main.Join? && s.main.next < |s.workers| && !s.workers[s.main.next].Exited? {
      assert s.taken < |jobs| + |s.workers|;
      WorkerCanMove(jobs, s, s.main.next);
    } else {
      MainCanMove(jobs, s);
    }
  }

  /** How many points the main thread still passes. */
  function MainLeft(jobs: seq<Job>, s: Pool): nat
    requires MainOk(jobs, s)
  {
    match s.main
    case Dispatch(k) => 2 * |jobs| + 2 * |s.workers| + 4 - k
    case Mark(k) => |jobs| + 2 * |s.workers| + 3 - k
    case Collect(k) => |jobs| + |s.workers| + 2 - k
    case Join(k) => |s.workers| + 1 - k
    case Finished => 0
  }

  function PoolLeft(s: Pool): nat {
    3 * |s.inq| + Total(s.workers, LOAD) + (if s.threadExit then 0 else 1)
  }

  lemma WorkerDecreases(s: Pool, t: Pool, i: nat)
    requires WorkerStep(s, t, i)
    ensures t.main == s.main && |t.workers| == |s.workers| && PoolLeft(t) < PoolLeft(s)
  {
    TotalUpdate(s.workers, i, t.workers[i], LOAD);
  }

  lemma MainDecreases(jobs: seq<Job>, s: Pool, t: Pool)
    requires Orderly(jobs, s) && MainStep(jobs, s, t)
    ensures Orderly(jobs, t) && MainLeft(jobs, t) < MainLeft(jobs, s)
  {
    MainKeepsOrder(jobs, s, t);
  }

  lemma StepDecreases(jobs: seq<Job>, s: Pool, t: Pool)
    requires Orderly(jobs, s) && Step(jobs, s, t)
    ensures Orderly(jobs, t)
    ensures MainLeft(jobs, t) < MainLeft(jobs, s)
            || (MainLeft(jobs, t) == MainLeft(jobs, s) && PoolLeft(t) < PoolLeft(s))
  {
    if MainStep(jobs, s, t) {
      MainDecreases(jobs, s, t);
    } else if Interrupt(s, t) {
      InterruptKeepsOrder(jobs, s, t);
    } else {
      var i: nat :| WorkerStep(s, t, i);
      WorkerKeepsOrder(jobs, s, t, i);
      WorkerDecreases(s, t, i);
    }
  }

  lemma NextState(jobs: seq<Job>, s: Pool) returns (t: Pool)
    requires Inv(jobs, s, MARKER) && !s.main.Finished? && (jobs == [] || s.workers != [])
    ensures Step(jobs, s, t) && Inv(jobs, t, MARKER) && |t.workers| == |s.workers|
    ensures MainLeft(jobs, t) < MainLeft(jobs, s)
            || (MainLeft(jobs, t) == MainLeft(jobs, s) && PoolLeft(t) < PoolLeft(s))
  {
    NoStuckState(jobs, s);
    t :| Step(jobs, s, t);
    StepKeepsInv(jobs, s, t, MARKER);
    StepDecreases(jobs, s, t);
  }

  /** Every reachable state can be run on until the main thread is finished; every run is finite. */
  lemma {:induction false} RunsToTheEnd(jobs: seq<Job>, s: Pool) returns (run: seq<Pool>)
    requires Inv(jobs, s, MARKER) && (jobs == [] || s.workers != [])
    ensures IsRun(jobs, run) && run[0] == s && run[|run| - 1].main.Finished?
    decreases MainLeft(jobs, s), PoolLeft(s)
  {
    if s.main.Finished? {
      run := [s];
    } else {
      var t := NextState(jobs, s);
      var tail := RunsToTheEnd(jobs, t);
      run := [s] + tail;
      Prepend(jobs, s, tail);
    }
  }

  lemma Prepend(jobs: seq<Job>, s: Pool, tail: seq<Pool>)
    requires IsRun(jobs, tail) && Step(jobs, s, tail[0])
    ensures IsRun(jobs, [s] + tail)
  {
    var run := [s] + tail;
    forall i: nat | i + 1 < |run| ensures Consecutive(jobs, run, i) {
      if i > 0 {
        assert Consecutive(jobs, tail, i - 1);
      }
    }
  }

  /** With jobs and no worker thread the main thread waits for ever. */
  lemma NoWorkersNoEnd(jobs: seq<Job>, run: seq<Pool>, i: nat)
    requires Fresh(jobs) && IsRun(jobs, run) && Init(run[0]) && i < |run|
    requires jobs != [] && run[0].workers == []
    ensures !run[i].main.Finished?
  {
    RunKeepsInv(jobs, run, MARKER, i);
  }

  // ----- the end

  lemma {:induction false} CountsAreMultiplicities(s: seq<Job>, x: Job)
    ensures Total(s, Same(x)) == multiset(Origins(s))[x]
  {
    if s != [] {
      var n := |s| - 1;
      CountsAreMultiplicities(s[..n], x);
      assert Origins(s) == Origins(s[..n]) + [Origin(s[n])];
    } else {
      assert Origins(s) == [];
    }
  }

  function Origins(s: seq<Job>): seq<Job> {
    seq(|s|, i requires 0 <= i < |s| => Origin(s[i]))
  }

  lemma AllTaken(jobs: seq<Job>, s: Pool, x: Job)
    requires Inv(jobs, s, x) && s.main.Finished?
    ensures s.inq == [] && s.outq == []
    ensures Total(jobs[..|jobs|], Same(x)) == Total(s.collected, Same(x))
  {
    TotalFull(s.workers, GONE);
    TotalZero(s.workers, Holds(x));
  }

  lemma CollectedAll(jobs: seq<Job>, s: Pool, x: Job)
    requires Inv(jobs, s, x) && s.main.Finished?
    ensures s.inq == [] && s.outq == []
    ensures multiset(Origins(s.collected))[x] == multiset(jobs)[x]
  {
    AllTaken(jobs, s, x);
    CountsAreMultiplicities(s.collected, x);
    CountsAreMultiplicities(jobs, x);
    assert Origins(jobs) == jobs && jobs[..|jobs|] == jobs;
  }

  /**
   * When the main thread is finished both queues are empty, every worker has ended, and the
   * collected jobs are the dispatched ones, each once; none is marked as interrupted unless
   * the flag is set.
   */
  lemma EverythingCollected(jobs: seq<Job>, run: seq<Pool>, i: nat)
    requires Fresh(jobs) && IsRun(jobs, run) && Init(run[0]) && i < |run| && run[i].main.Finished?
    ensures run[i].inq == [] && run[i].outq == []
    ensures forall k :: 0 <= k < |run[i].workers| ==> run[i].workers[k].Exited?
    ensures |run[i].collected| == |jobs| && multiset(Origins(run[i].collected)) == multiset(jobs)
    ensures OutputsOk(run[i].threadExit, run[i].collected)
  {
    forall x ensures multiset(Origins(run[i].collected))[x] == multiset(jobs)[x] {
      RunKeepsInv(jobs, run, x, i);
      CollectedAll(jobs, run[i], x);
    }
    RunKeepsInv(jobs, run, MARKER, i);
    CollectedAll(jobs, run[i], MARKER);
  }

  // ----- the summary

  /** What the collector makes of one output. */
  datatype Outcome = Interrupted | Skipped | Passed | Failed | ValgrindError | Crashed

  function OutcomeOf(job: Job): Outcome {
    if job.isBreak then Interrupted
    else if job.isSkip then Skipped
    else match job.returncode
         case 0 => Passed
         case 1 => Failed
         case 2 => ValgrindError
         case _ => Crashed
  }

  function Are(o: Outcome): Job -> nat {
    (job: Job) => if OutcomeOf(job) == o then 1 else 0
  }

  /** The names of the jobs with the given outcome, in the order of their collection. */
  function Names(out: seq<Job>, o: Outcome): seq<string> {
    if out == [] then []
    else Names(out[..|out| - 1], o) + (if OutcomeOf(out[|out| - 1]) == o then [out[|out| - 1].name] else [])
  }

  lemma {:induction false} NamesCount(out: seq<Job>, o: Outcome)
    ensures |Names(out, o)| == Total(out, Are(o))
  {
    if out != [] {
      NamesCount(out[..|out| - 1], o);
    }
  }

  lemma {:induction false} OutcomesPartition(out: seq<Job>)
    ensures |out| == Total(out, Are(Interrupted)) + Total(out, Are(Skipped)) + Total(out, Are(Passed))
                     + Total(out, Are(Failed)) + Total(out, Are(ValgrindError)) + Total(out, Are(Crashed))
  {
    if out != [] {
      OutcomesPartition(out[..|out| - 1]);
    }
  }

  class Summary {
    var total: nat
    var passed: nat
    var failed: nat
    var crashed: nat
    var valgrind: nat
    var skipped: nat
    var failedNames: seq<string>
    var crashedNames: seq<string>
    var valgrindNames: seq<string>
    var skippedNames: seq<string>

    constructor (total: nat)
      ensures this.total == total && Counts([])
    {
      this.total := total;
      passed, failed, crashed, valgrind, skipped := 0, 0, 0, 0, 0;
      failedNames, crashedNames, valgrindNames, skippedNames := [], [], [], [];
    }

    /** The counters and the lists of names agree with the jobs collected so far. */
    ghost predicate Counts(out: seq<Job>)
      reads this
    {
      && passed == Total(out, Are(Passed)) && failed == Total(out, Are(Failed)) && crashed == Total(out, Are(Crashed))
      && valgrind == Total(out, Are(ValgrindError)) && skipped == Total(out, Are(Skipped))
      && failedNames == Names(out, Failed) && crashedNames == Names(out, Crashed)
      && valgrindNames == Names(out, ValgrindError) && skippedNames == Names(out, Skipped)
    }

    /** One turn of the collector's loop. */
    method Take(job: Job, ghost before: seq<Job>)
      requires Counts(before)
      modifies this
      ensures Counts(before + [job]) && total == old(total)
    {
      assert (before + [job])[..|before|] == before;
      if job.isBreak {
        return;
      }
      if job.isSkip {
        skipped := skipped + 1;
        skippedNames := skippedNames + [job.name];
      } else if job.returncode == 0 {
        passed := passed + 1;
      } else if job.returncode == 1 {
        failed := failed + 1;
        failedNames := failedNames + [job.name];
      } else if job.returncode == 2 {
        valgrind := valgrind + 1;
        valgrindNames := valgrindNames + [job.name];
      } else {
        crashed := crashed + 1;
        crashedNames := crashedNames + [job.name];
      }
    }

    function ExitStatus(): int
      reads this
    {
      if passed + skipped == total then 0 else 1
    }
  }

  lemma NamesMatch(out: seq<Job>, sum: Summary)
    requires sum.Counts(out)
    ensures |sum.failedNames| == sum.failed && |sum.crashedNames| == sum.crashed
    ensures |sum.valgrindNames| == sum.valgrind && |sum.skippedNames| == sum.skipped
  {
    NamesCount(out, Failed);
    NamesCount(out, Crashed);
    NamesCount(out, ValgrindError);
    NamesCount(out, Skipped);
  }

  lemma StatusMeans(out: seq<Job>, sum: Summary)
    requires sum.Counts(out) && sum.total == |out|
    ensures sum.ExitStatus() == 0 <==> forall k :: 0 <= k < |out| ==> OutcomeOf(out[k]) in {Passed, Skipped}
    ensures sum.passed + sum.skipped + sum.failed + sum.valgrind + sum.crashed
            == |out| - Total(out, Are(Interrupted))
  {
    OutcomesPartition(out);
    TotalZero(out, Are(Interrupted));
    TotalZero(out, Are(Failed));
    TotalZero(out, Are(ValgrindError));
    TotalZero(out, Are(Crashed));
  }

  // The same in terms of the dispatched jobs and the codes of their processes.

  function ExitsWith(code: int): Job -> nat {
    (job: Job) => if !job.isSkip && job.exit == code then 1 else 0
  }

  const EXITS_OTHERWISE: Job -> nat := (job: Job) => if !job.isSkip && job.exit !in {0, 1, 2} then 1 else 0
  const SKIPS: Job -> nat := (job: Job) => if job.isSkip then 1 else 0

  /** What the outcome o says of a job that was not interrupted. */
  function Meant(o: Outcome): Job -> nat {
    match o
    case Interrupted => (job: Job) => 0
    case Skipped => SKIPS
    case Passed => ExitsWith(0)
    case Failed => ExitsWith(1)
    case ValgrindError => ExitsWith(2)
    case Crashed => EXITS_OTHERWISE
  }

  lemma OutcomeIsMeant(job: Job, o: Outcome)
    requires !job.isBreak && (!job.isSkip ==> job.returncode == job.exit)
    ensures Are(o)(job) == Meant(o)(Origin(job))
  {
  }

  lemma {:induction false} CountsAreMeant(out: seq<Job>, o: Outcome)
    requires OutputsOk(false, out)
    ensures Total(out, Are(o)) == Total(Origins(out), Meant(o))
  {
    if out != [] {
      var n := |out| - 1;
      CountsAreMeant(out[..n], o);
      OutcomeIsMeant(out[n], o);
      assert Origins(out) == Origins(out[..n]) + [Origin(out[n])];
      TotalSnoc(Origins(out[..n]), Origin(out[n]), Meant(o));
    }
  }

  ghost predicate Named(jobs: seq<Job>, f: Job -> nat, name: string) {
    exists k :: 0 <= k < |jobs| && f(jobs[k]) == 1 && jobs[k].name == name
  }

  lemma {:induction false} NamesAreMeant(out: seq<Job>, o: Outcome, name: string)
    requires OutputsOk(false, out)
    ensures name in Names(out, o) <==> Named(Origins(out), Meant(o), name)
  {
    if out != [] {
      var n := |out| - 1;
      NamesAreMeant(out[..n], o, name);
      OutcomeIsMeant(out[n], o);
      NamedSnoc(Origins(out[..n]), Origin(out[n]), Meant(o), name);
      assert Origins(out) == Origins(out[..n]) + [Origin(out[n])];
    }
  }

  lemma NamedSnoc(jobs: seq<Job>, job: Job, f: Job -> nat, name: string)
    ensures Named(jobs + [job], f, name) <==> Named(jobs, f, name) || (f(job) == 1 && job.name == name)
  {
    var more := jobs + [job];
    if k :| 0 <= k < |jobs| && f(jobs[k]) == 1 && jobs[k].name == name {
      assert more[k] == jobs[k];
    }
    assert more[|jobs|] == job;
  }

  lemma NamedPermuted(a: seq<Job>, b: seq<Job>, f: Job -> nat, name: string)
    requires multiset(a) == multiset(b) && Named(a, f, name)
    ensures Named(b, f, name)
  {
    var k :| 0 <= k < |a| && f(a[k]) == 1 && a[k].name == name;
    assert a[k] in multiset(b);
  }

  /** The counter and the names of one outcome, as they come from the dispatched jobs. */
  ghost predicate Reports(jobs: seq<Job>, o: Outcome, count: nat, names: seq<string>) {
    count == |names| == Total(jobs, Meant(o)) && forall name :: name in names <==> Named(jobs, Meant(o), name)
  }

  lemma OutcomeReported(jobs: seq<Job>, out: seq<Job>, o: Outcome)
    requires OutputsOk(false, out) && multiset(Origins(out)) == multiset(jobs)
    ensures Reports(jobs, o, Total(out, Are(o)), Names(out, o))
  {
    NamesCount(out, o);
    CountsAreMeant(out, o);
    TotalPermuted(Origins(out), jobs, Meant(o));
    forall name ensures name in Names(out, o) <==> Named(jobs, Meant(o), name) {
      NamesAreMeant(out, o, name);
      if Named(jobs, Meant(o), name) {
        NamedPermuted(jobs, Origins(out), Meant(o), name);
      } else if Named(Origins(out), Meant(o), name) {
        NamedPermuted(Origins(out), jobs, Meant(o), name);
      }
    }
  }

  /** A run that is not interrupted reports each job by the code that its process exited with. */
  lemma SummaryIsTrue(jobs: seq<Job>, run: seq<Pool>, i: nat, sum: Summary)
    requires Fresh(jobs) && IsRun(jobs, run) && Init(run[0]) && i < |run| && run[i].main.Finished?
    requires sum.Counts(run[i].collected) && !run[i].threadExit
    ensures Reports(jobs, Failed, sum.failed, sum.failedNames)
    ensures Reports(jobs, ValgrindError, sum.valgrind, sum.valgrindNames)
    ensures Reports(jobs, Crashed, sum.crashed, sum.crashedNames)
    ensures Reports(jobs, Skipped, sum.skipped, sum.skippedNames)
    ensures sum.passed == Total(jobs, ExitsWith(0))
  {
    var out := run[i].collected;
    EverythingCollected(jobs, run, i);
    OutcomeReported(jobs, out, Failed);
    OutcomeReported(jobs, out, ValgrindError);
    OutcomeReported(jobs, out, Crashed);
    OutcomeReported(jobs, out, Skipped);
    OutcomeReported(jobs, out, Passed);
  }

  predicate Good(job: Job) {
    job.isSkip || job.exit == 0
  }

  lemma GoodOutcomes(jobs: seq<Job>, out: seq<Job>, flag: bool)
    requires OutputsOk(flag, out) && multiset(Origins(out)) == multiset(jobs)
    ensures (forall k :: 0 <= k < |out| ==> OutcomeOf(out[k]) in {Passed, Skipped})
            <==> (forall k :: 0 <= k < |out| ==> !out[k].isBreak) && (forall k :: 0 <= k < |jobs| ==> Good(jobs[k]))
  {
    GoodPermuted(Origins(out), jobs);
    GoodPermuted(jobs, Origins(out));
    forall k | 0 <= k < |out| ensures Good(out[k]) <==> Good(Origins(out)[k]) {
    }
  }

  lemma GoodPermuted(a: seq<Job>, b: seq<Job>)
    requires multiset(a) == multiset(b)
    ensures (forall k :: 0 <= k < |a| ==> Good(a[k])) ==> forall k :: 0 <= k < |b| ==> Good(b[k])
  {
    if forall k :: 0 <= k < |a| ==> Good(a[k]) {
      forall k | 0 <= k < |b| ensures Good(b[k]) {
        assert b[k] in multiset(a);
      }
    }
  }

  /**
   * At the end of every run the runner reports success if and only if no collected job was
   * interrupted and every dispatched job is skipped or its process exits with 0.
   */
  lemma {:induction false} SuccessMeansAllGood(jobs: seq<Job>, run: seq<Pool>, i: nat, sum: Summary)
    requires Fresh(jobs) && IsRun(jobs, run) && Init(run[0]) && i < |run| && run[i].main.Finished?
    requires sum.Counts(run[i].collected) && sum.total == |jobs|
    ensures sum.ExitStatus() == 0 <==>
              && (forall k :: 0 <= k < |run[i].collected| ==> !run[i].collected[k].isBreak)
              && (forall k :: 0 <= k < |jobs| ==> jobs[k].isSkip || jobs[k].exit == 0)
    ensures sum.passed + sum.skipped + sum.failed + sum.valgrind + sum.crashed <= |jobs|
    ensures !run[i].threadExit ==> sum.passed + sum.skipped + sum.failed + sum.valgrind + sum.crashed == |jobs|
    ensures |sum.failedNames| == sum.failed && |sum.crashedNames| == sum.crashed
    ensures |sum.valgrindNames| == sum.valgrind && |sum.skippedNames| == sum.skipped
  {
    var out := run[i].collected;
    EverythingCollected(jobs, run, i);
    NamesMatch(out, sum);
    StatusMeans(out, sum);
    GoodOutcomes(jobs, out, run[i].threadExit);
    assert forall k :: 0 <= k < |jobs| ==> Good(jobs[k]) == (jobs[k].isSkip || jobs[k].exit == 0);
    TotalZero(out, Are(Interrupted));
  }
}
