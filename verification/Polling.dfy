/** Fetching remote tasks: each job is recorded durably first and only then handed to the queue. */
module Polling {
  import opened Outcomes
  import opened Protocol
  import opened JobQueue
  import opened RemoteStore

  datatype RemoteTask =
    | Print(requestId: string, job: PrintJob)
    | PrintBatch(requestId: string, batchId: string, jobs: seq<PrintJob>)

  function TaskJobs(task: RemoteTask): seq<PrintJob> {
    match task
    case Print(_, job) => [job]
    case PrintBatch(_, _, jobs) => jobs
  }

  function TaskBatch(task: RemoteTask): Option<string> {
    match task
    case Print(_, _) => None
    case PrintBatch(_, batchId, _) => Some(batchId)
  }

  function TotalJobs(tasks: seq<RemoteTask>): nat {
    if tasks == [] then 0 else TotalJobs(tasks[..|tasks| - 1]) + |TaskJobs(tasks[|tasks| - 1])|
  }

  datatype PollOutcome = PollOutcome(received: nat, enqueued: nat, duplicated: nat)

  datatype WorkerError =
    | MissingStore
    | Client(configuration: bool)
    | StoreFailed
    | Queue(refusal: QueueError)
    | InvalidTask(error: JobError)

  // -------------------------------------------------------------------------
  // Specification of one poll
  // -------------------------------------------------------------------------

  /** Recording the jobs of one task: ids known so far, jobs seen for the first time, repeats, first error. */
  datatype Intake = Intake(known: set<string>, newJobs: seq<PrintJob>, duplicated: nat, error: Option<WorkerError>)

  /** Validates and records one job; `broken` are the ids whose insert fails. Nothing happens after an error. */
  function TakeJob(lib: Library, maxMb: nat, broken: set<string>, i: Intake, job: PrintJob): Intake {
    if i.error.Some? then i
    else if !Acceptable(lib, job, maxMb) then
      i.(error := Some(InvalidTask(ValidateForAcceptance(lib, job, maxMb).value)))
    else if job.jobId in broken then i.(error := Some(StoreFailed))
    else if job.jobId in i.known then i.(duplicated := i.duplicated + 1)
    else i.(known := i.known + {job.jobId}, newJobs := i.newJobs + [job])
  }

  function TakeJobs(lib: Library, maxMb: nat, broken: set<string>, known: set<string>, jobs: seq<PrintJob>): Intake {
    if jobs == [] then Intake(known, [], 0, None)
    else TakeJob(lib, maxMb, broken, TakeJobs(lib, maxMb, broken, known, jobs[..|jobs| - 1]), jobs[|jobs| - 1])
  }

  /** A poll in progress; `wakeups` counts the notifications sent to the print worker. */
  datatype Poll = Poll(known: set<string>, outcome: PollOutcome, wakeups: nat, error: Option<WorkerError>)

  function Handover(task: RemoteTask, newJobs: seq<PrintJob>): Submission {
    Submission(task.requestId, TaskBatch(task), newJobs, None, true)
  }

  /** One task against the queue contents `c` found at hand-over time. */
  ghost function PollTask(lib: Library, maxMb: nat, broken: set<string>, p: Poll, task: RemoteTask, c: Contents): Poll {
    if p.error.Some? then p
    else
      var i := TakeJobs(lib, maxMb, broken, p.known, TaskJobs(task));
      if i.error.Some? then p.(known := i.known, error := i.error)
      else if i.newJobs != [] && Refusal(lib, c, Handover(task, i.newJobs)).Some? then
        p.(known := i.known, error := Some(Queue(Refusal(lib, c, Handover(task, i.newJobs)).value)))
      else
        Poll(i.known,
             p.outcome.(enqueued := p.outcome.enqueued + |i.newJobs|, duplicated := p.outcome.duplicated + i.duplicated),
             p.wakeups + if i.newJobs == [] then 0 else 1,
             None)
  }

  /** What one task leaves in the queue. */
  ghost function QueueAfter(lib: Library, maxMb: nat, broken: set<string>, p: Poll, task: RemoteTask, c: Contents): Contents {
    var i := TakeJobs(lib, maxMb, broken, p.known, TaskJobs(task));
    if p.error.Some? || i.error.Some? || i.newJobs == [] then c else Accept(lib, c, Handover(task, i.newJobs))
  }

  /** A whole poll; `seen[n]` is the queue as task `n` finds it, whoever else uses the queue meanwhile. */
  ghost function PollTasks(lib: Library, maxMb: nat, broken: set<string>, known: set<string>,
                           received: nat, tasks: seq<RemoteTask>, seen: seq<Contents>): Poll
    requires |tasks| <= |seen|
  {
    if tasks == [] then Poll(known, PollOutcome(received, 0, 0), 0, None)
    else
      var n := |tasks| - 1;
      PollTask(lib, maxMb, broken, PollTasks(lib, maxMb, broken, known, received, tasks[..n], seen), tasks[n], seen[n])
  }

  /** Without interference each task finds the queue as the one before left it. */
  ghost predicate Undisturbed(lib: Library, maxMb: nat, broken: set<string>, known: set<string>,
                              received: nat, tasks: seq<RemoteTask>, seen: seq<Contents>) {
    && |seen| == |tasks| + 1
    && forall n :: 0 <= n < |tasks| ==>
         seen[n + 1] == QueueAfter(lib, maxMb, broken,
           PollTasks(lib, maxMb, broken, known, received, tasks[..n], seen), tasks[n], seen[n])
  }

  /** Recorded jobs are never changed or removed. */
  ghost predicate KeepsRows(before: map<string, RemoteJob>, after: map<string, RemoteJob>) {
    forall id :: id in before ==> id in after && after[id] == before[id]
  }

  // -------------------------------------------------------------------------
  // The poll itself
  // -------------------------------------------------------------------------

  method RecordRemoteJob(store: Store, job: PrintJob, requestId: string, batchId: Option<string>, now: Time, broken: set<string>)
    returns (r: Result<bool, WorkerError>)
    modifies store
    ensures store.events == old(store.events)
    ensures KeepsRows(old(store.jobs), store.jobs)
    ensures job.jobId in broken ==> r == Err(StoreFailed) && store.jobs == old(store.jobs)
    ensures job.jobId !in broken ==>
      r == Ok(job.jobId !in old(store.jobs)) && store.jobs.Keys == old(store.jobs.Keys) + {job.jobId}
  {
    var inserted := store.RecordJobIfNew(job.jobId, RemoteJob(requestId, batchId, now), job.jobId in broken);
    match inserted
    case Ok(isNew) => r := Ok(isNew);
    case Err(_) => r := Err(StoreFailed);
  }

  /** Validates and records the jobs of one task in order; stops at the first error. */
  method TakeTask(lib: Library, maxMb: nat, store: Store, task: RemoteTask, now: Time, broken: set<string>)
    returns (newJobs: seq<PrintJob>, duplicated: nat, error: Option<WorkerError>)
    modifies store
    ensures store.events == old(store.events)
    ensures KeepsRows(old(store.jobs), store.jobs)
    ensures Intake(store.jobs.Keys, newJobs, duplicated, error) == TakeJobs(lib, maxMb, broken, old(store.jobs.Keys), TaskJobs(task))
  {
    var jobs := TaskJobs(task);
    ghost var known := store.jobs.Keys;
    newJobs, duplicated, error := [], 0, None;
    var n := 0;
    assert jobs[..0] == [];
    while n < |jobs|
      invariant 0 <= n <= |jobs|
      invariant store.events == old(store.events)
      invariant KeepsRows(old(store.jobs), store.jobs)
      invariant error.None? && Intake(store.jobs.Keys, newJobs, duplicated, None) == TakeJobs(lib, maxMb, broken, known, jobs[..n])
    {
      var job := jobs[n];
      assert jobs[..n + 1][..n] == jobs[..n];
      var invalid := ValidateForAcceptance(lib, job, maxMb);
      if invalid.Some? {
        error := Some(InvalidTask(invalid.value));
        StuckAfterError(lib, maxMb, broken, known, jobs, n + 1);
        return;
      }
      var isNew := RecordRemoteJob(store, job, task.requestId, TaskBatch(task), now, broken);
      if isNew.Err? {
        error := Some(isNew.error);
        StuckAfterError(lib, maxMb, broken, known, jobs, n + 1);
        return;
      }
      if isNew.value {
        newJobs := newJobs + [job];
      } else {
        duplicated := duplicated + 1;
        assert job.jobId in TakeJobs(lib, maxMb, broken, known, jobs[..n]).known;
      }
      n := n + 1;
    }
    assert jobs[..n] == jobs;
  }

  lemma {:induction false} StuckAfterError(lib: Library, maxMb: nat, broken: set<string>, known: set<string>, jobs: seq<PrintJob>, n: nat)
    requires n <= |jobs| && TakeJobs(lib, maxMb, broken, known, jobs[..n]).error.Some?
    ensures TakeJobs(lib, maxMb, broken, known, jobs) == TakeJobs(lib, maxMb, broken, known, jobs[..n])
  {
    if n == |jobs| {
      assert jobs[..n] == jobs;
    } else {
      var shorter := jobs[..|jobs| - 1];
      assert shorter[..n] == jobs[..n];
      StuckAfterError(lib, maxMb, broken, known, shorter, n);
    }
  }

  /** One poll: fetch, record, hand over, wake the print worker. */
  method PollOnce(lib: Library, enabled: bool, maxMb: nat, store: Store?, queue: QueueState,
                  fetched: Result<seq<RemoteTask>, WorkerError>, now: Time, broken: set<string>)
    returns (r: Result<PollOutcome, WorkerError>, wakeups: nat, ghost seen: seq<Contents>)
    modifies store, queue
    ensures store != null ==> store.events == old(store.events)
    ensures store != null ==> KeepsRows(old(store.jobs), store.jobs)
    ensures !enabled ==> r == Ok(PollOutcome(0, 0, 0))
    ensures enabled && store == null ==> r == Err(MissingStore)
    ensures enabled && store != null && fetched.Err? ==> r == Err(fetched.error)
    ensures !enabled || store == null || fetched.Err? ==>
      wakeups == 0 && queue.Snapshot() == old(queue.Snapshot()) && (store != null ==> store.jobs == old(store.jobs))
    ensures enabled && store != null && fetched.Ok? ==>
      var tasks, known := fetched.value, old(store.jobs.Keys);
      && Undisturbed(lib, maxMb, broken, known, |tasks|, tasks, seen)
      && seen[0] == old(queue.Snapshot()) && seen[|tasks|] == queue.Snapshot()
      && var p := PollTasks(lib, maxMb, broken, known, |tasks|, tasks, seen);
         && store.jobs.Keys == p.known
         && wakeups == p.wakeups
         && r == if p.error.Some? then Err(p.error.value) else Ok(p.outcome)
  {
    wakeups, seen := 0, [];
    if !enabled {
      r := Ok(PollOutcome(0, 0, 0));
      return;
    }
    if store == null {
      r := Err(MissingStore);
      return;
    }
    if fetched.Err? {
      r := Err(fetched.error);
      return;
    }
    var tasks := fetched.value;
    ghost var known := store.jobs.Keys;
    var outcome := PollOutcome(|tasks|, 0, 0);
    var error: Option<WorkerError> := None;
    seen := [queue.Snapshot()];
    var n := 0;
    while n < |tasks|
      invariant 0 <= n <= |tasks| && |seen| == n + 1
      invariant store.events == old(store.events)
      invariant KeepsRows(old(store.jobs), store.jobs)
      invariant seen[0] == old(queue.Snapshot()) && seen[n] == queue.Snapshot()
      invariant Undisturbed(lib, maxMb, broken, known, |tasks|, tasks[..n], seen)
      invariant Poll(store.jobs.Keys, outcome, wakeups, error)
             == PollTasks(lib, maxMb, broken, known, |tasks|, tasks[..n], seen)
    {
      ghost var before := seen;
      assert tasks[..n + 1][..n] == tasks[..n];
      if error.None? {
        outcome, wakeups, error := ServeTask(lib, maxMb, store, queue, tasks[n], now, broken, outcome, wakeups);
      }
      seen := seen + [queue.Snapshot()];
      ExtendSeen(lib, maxMb, broken, known, |tasks|, tasks[..n + 1], before, queue.Snapshot());
      n := n + 1;
    }
    assert tasks[..n] == tasks;
    r := if error.Some? then Err(error.value) else Ok(outcome);
  }

  /** Takes one task through recording, hand-over and the wake-up of the print worker. */
  method ServeTask(lib: Library, maxMb: nat, store: Store, queue: QueueState, task: RemoteTask, now: Time,
                   broken: set<string>, before: PollOutcome, wakeupsBefore: nat)
    returns (outcome: PollOutcome, wakeups: nat, error: Option<WorkerError>)
    modifies store, queue
    ensures store.events == old(store.events) && KeepsRows(old(store.jobs), store.jobs)
    ensures var p := Poll(old(store.jobs.Keys), before, wakeupsBefore, None);
            && Poll(store.jobs.Keys, outcome, wakeups, error) == PollTask(lib, maxMb, broken, p, task, old(queue.Snapshot()))
            && queue.Snapshot() == QueueAfter(lib, maxMb, broken, p, task, old(queue.Snapshot()))
  {
    outcome, wakeups := before, wakeupsBefore;
    var newJobs, duplicated;
    newJobs, duplicated, error := TakeTask(lib, maxMb, store, task, now, broken);
    if error.Some? {
      return;
    }
    if newJobs != [] {
      SingleTaskJobs(lib, maxMb, broken, old(store.jobs.Keys), task);
      var refused := HandOver(lib, queue, task, newJobs);
      if refused.Some? {
        error := Some(Queue(refused.value));
        return;
      }
      wakeups := wakeups + 1;
    }
    outcome := before.(enqueued := before.enqueued + |newJobs|, duplicated := before.duplicated + duplicated);
  }

  lemma SingleTaskJobs(lib: Library, maxMb: nat, broken: set<string>, known: set<string>, task: RemoteTask)
    requires TakeJobs(lib, maxMb, broken, known, TaskJobs(task)).newJobs != []
    ensures task.Print? ==> TakeJobs(lib, maxMb, broken, known, TaskJobs(task)).newJobs == [task.job]
  {
    if task.Print? {
      assert TaskJobs(task)[..0] == [];
    }
  }

  /** A single task is accepted as a job, a batch as a batch; the two calls differ, the effect is one submission. */
  method HandOver(lib: Library, queue: QueueState, task: RemoteTask, newJobs: seq<PrintJob>) returns (refused: Option<QueueError>)
    requires task.Print? ==> newJobs == [task.job]
    modifies queue
    ensures refused == Refusal(lib, old(queue.Snapshot()), Handover(task, newJobs))
    ensures queue.Snapshot() == Accept(lib, old(queue.Snapshot()), Handover(task, newJobs))
  {
    match task
    case Print(requestId, job) => refused := queue.AcceptRemoteJob(lib, requestId, job);
    case PrintBatch(requestId, batchId, _) =>
      refused := queue.AcceptBatchWithLocalOrigin(lib, requestId, batchId, newJobs, true, None);
  }

  lemma {:induction false} SeenPrefix(lib: Library, maxMb: nat, broken: set<string>, known: set<string>, received: nat,
                                      tasks: seq<RemoteTask>, seen: seq<Contents>, last: Contents)
    requires |tasks| <= |seen|
    ensures PollTasks(lib, maxMb, broken, known, received, tasks, seen + [last])
         == PollTasks(lib, maxMb, broken, known, received, tasks, seen)
  {
    if tasks != [] {
      SeenPrefix(lib, maxMb, broken, known, received, tasks[..|tasks| - 1], seen, last);
    }
  }

  lemma ExtendSeen(lib: Library, maxMb: nat, broken: set<string>, known: set<string>, received: nat,
                   tasks: seq<RemoteTask>, seen: seq<Contents>, last: Contents)
    requires |tasks| > 0 && |seen| == |tasks|
    requires Undisturbed(lib, maxMb, broken, known, received, tasks[..|tasks| - 1], seen)
    requires last == QueueAfter(lib, maxMb, broken,
      PollTasks(lib, maxMb, broken, known, received, tasks[..|tasks| - 1], seen), tasks[|tasks| - 1], seen[|tasks| - 1])
    ensures Undisturbed(lib, maxMb, broken, known, received, tasks, seen + [last])
    ensures PollTasks(lib, maxMb, broken, known, received, tasks, seen + [last])
         == PollTasks(lib, maxMb, broken, known, received, tasks, seen)
  {
    var longer := seen + [last];
    SeenPrefix(lib, maxMb, broken, known, received, tasks, seen, last);
    forall n | 0 <= n < |tasks|
      ensures longer[n + 1] == QueueAfter(lib, maxMb, broken,
        PollTasks(lib, maxMb, broken, known, received, tasks[..n], longer), tasks[n], longer[n])
    {
      UndisturbedUpTo(lib, maxMb, broken, known, received, tasks, seen, last, n);
    }
  }

  lemma UndisturbedUpTo(lib: Library, maxMb: nat, broken: set<string>, known: set<string>, received: nat,
                        tasks: seq<RemoteTask>, seen: seq<Contents>, last: Contents, n: nat)
    requires n < |tasks| == |seen|
    requires Undisturbed(lib, maxMb, broken, known, received, tasks[..|tasks| - 1], seen)
    requires last == QueueAfter(lib, maxMb, broken,
      PollTasks(lib, maxMb, broken, known, received, tasks[..|tasks| - 1], seen), tasks[|tasks| - 1], seen[|tasks| - 1])
    ensures (seen + [last])[n + 1] == QueueAfter(lib, maxMb, broken,
      PollTasks(lib, maxMb, broken, known, received, tasks[..n], seen + [last]), tasks[n], (seen + [last])[n])
  {
    var m := |tasks| - 1;
    SeenPrefix(lib, maxMb, broken, known, received, tasks[..n], seen, last);
    if n < m {
      assert tasks[..m][..n] == tasks[..n] && tasks[..m][n] == tasks[n];
    }
  }
}
