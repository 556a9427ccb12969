/** What polls guarantee, whatever else happens to the queue between their steps. */
module PollingLaws {
  import opened Outcomes
  import opened Protocol
  import opened JobQueue
  import opened Polling
  import QueueHistory

  function AllIds(tasks: seq<RemoteTask>): set<string> {
    if tasks == [] then {} else AllIds(tasks[..|tasks| - 1]) + JobIds(TaskJobs(tasks[|tasks| - 1]))
  }

  ghost predicate AllAcceptable(lib: Library, maxMb: nat, tasks: seq<RemoteTask>) {
    forall n, k :: 0 <= n < |tasks| && 0 <= k < |TaskJobs(tasks[n])| ==> Acceptable(lib, TaskJobs(tasks[n])[k], maxMb)
  }

  /** Recording jobs: each is new or a repeat, and the new ones are distinct and were unknown before. */
  lemma {:induction false} TakeJobsLaw(lib: Library, maxMb: nat, broken: set<string>, known: set<string>, jobs: seq<PrintJob>)
    ensures var i := TakeJobs(lib, maxMb, broken, known, jobs);
            && i.known == known + JobIds(i.newJobs) && JobIds(i.newJobs) !! known
            && DistinctIds(i.newJobs)
            && (i.error.None? ==> |i.newJobs| + i.duplicated == |jobs| && i.known == known + JobIds(jobs))
            && (forall k :: 0 <= k < |i.newJobs| ==> i.newJobs[k] in jobs && Acceptable(lib, i.newJobs[k], maxMb))
  {
    if jobs != [] {
      var n, job := |jobs| - 1, jobs[|jobs| - 1];
      TakeJobsLaw(lib, maxMb, broken, known, jobs[..n]);
      var before, i := TakeJobs(lib, maxMb, broken, known, jobs[..n]), TakeJobs(lib, maxMb, broken, known, jobs);
      assert jobs[..n + 1] == jobs;
      JobIdsStep(jobs, n);
      assert forall j :: j in jobs[..n] ==> j in jobs;
      if i.newJobs != before.newJobs {
        var m := |before.newJobs|;
        assert i.newJobs[..m] == before.newJobs && i.newJobs[..m + 1] == i.newJobs;
        JobIdsStep(i.newJobs, m);
        assert forall k :: 0 <= k < m ==> before.newJobs[k].jobId in JobIds(before.newJobs);
      }
    }
  }

  /** Without a broken insert, recording acceptable jobs does not fail. */
  lemma {:induction false} TakeJobsSucceeds(lib: Library, maxMb: nat, known: set<string>, jobs: seq<PrintJob>)
    requires forall k :: 0 <= k < |jobs| ==> Acceptable(lib, jobs[k], maxMb)
    ensures TakeJobs(lib, maxMb, {}, known, jobs).error.None?
  {
    if jobs != [] {
      TakeJobsSucceeds(lib, maxMb, known, jobs[..|jobs| - 1]);
    }
  }

  /**
   * On every successful poll the enqueued and the duplicated jobs add up to all jobs fetched, and all
   * their ids are known; no poll ever forgets an id or learns one that was not fetched.
   */
  lemma {:induction false} PollAccountsForEveryJob(lib: Library, maxMb: nat, broken: set<string>, known: set<string>,
                                                   received: nat, tasks: seq<RemoteTask>, seen: seq<Contents>)
    requires |tasks| <= |seen|
    ensures var p := PollTasks(lib, maxMb, broken, known, received, tasks, seen);
            && known <= p.known <= known + AllIds(tasks)
            && p.outcome.received == received
            && (p.error.None? ==>
                  p.outcome.enqueued + p.outcome.duplicated == TotalJobs(tasks) && p.known == known + AllIds(tasks))
  {
    if tasks != [] {
      var n := |tasks| - 1;
      var before := PollTasks(lib, maxMb, broken, known, received, tasks[..n], seen);
      PollAccountsForEveryJob(lib, maxMb, broken, known, received, tasks[..n], seen);
      TakeJobsLaw(lib, maxMb, broken, before.known, TaskJobs(tasks[n]));
      NewJobIdsComeFromTask(lib, maxMb, broken, before.known, TaskJobs(tasks[n]));
    }
  }

  lemma NewJobIdsComeFromTask(lib: Library, maxMb: nat, broken: set<string>, known: set<string>, jobs: seq<PrintJob>)
    ensures JobIds(TakeJobs(lib, maxMb, broken, known, jobs).newJobs) <= JobIds(jobs)
  {
    TakeJobsLaw(lib, maxMb, broken, known, jobs);
    var newJobs := TakeJobs(lib, maxMb, broken, known, jobs).newJobs;
    forall id | id in JobIds(newJobs) ensures id in JobIds(jobs) {
      var k :| 0 <= k < |newJobs| && newJobs[k].jobId == id;
      var m :| 0 <= m < |jobs| && jobs[m] == newJobs[k];
    }
  }

  /** Acceptable tasks fail only at hand-over, only for a repeated id, and only after a new id was recorded. */
  lemma {:induction false} FailedPollLearnsAnId(lib: Library, maxMb: nat, known: set<string>, received: nat,
                                                tasks: seq<RemoteTask>, seen: seq<Contents>)
    requires |tasks| <= |seen| && AllAcceptable(lib, maxMb, tasks)
    ensures var p := PollTasks(lib, maxMb, {}, known, received, tasks, seen);
            p.error.Some? ==>
              && p.error.value in {Queue(DuplicateJobId), Queue(DuplicateBatchId)}
              && exists id :: id in AllIds(tasks) && id !in known && id in p.known
  {
    if tasks != [] {
      var n := |tasks| - 1;
      var task, before := tasks[n], PollTasks(lib, maxMb, {}, known, received, tasks[..n], seen);
      assert forall m :: 0 <= m < n ==> tasks[..n][m] == tasks[m];
      FailedPollLearnsAnId(lib, maxMb, known, received, tasks[..n], seen);
      PollAccountsForEveryJob(lib, maxMb, {}, known, received, tasks[..n], seen);
      if before.error.None? {
        TakeJobsSucceeds(lib, maxMb, before.known, TaskJobs(task));
        TakeJobsLaw(lib, maxMb, {}, before.known, TaskJobs(task));
        NewJobIdsComeFromTask(lib, maxMb, {}, before.known, TaskJobs(task));
        var newJobs := TakeJobs(lib, maxMb, {}, before.known, TaskJobs(task)).newJobs;
        if newJobs != [] {
          assert newJobs[0].jobId in JobIds(newJobs);
          forall k | 0 <= k < |newJobs| ensures HtmlSourceOk(lib, newJobs[k]) {
            QueueHistory.AcceptableHasSource(lib, newJobs[k], maxMb);
          }
        }
      }
    }
  }

  /** Polls of the same tasks one after the other; `worlds[n]` is what poll `n` sees of the queue. */
  ghost function KnownAfter(lib: Library, maxMb: nat, known: set<string>, tasks: seq<RemoteTask>, worlds: seq<seq<Contents>>): set<string>
    requires forall n :: 0 <= n < |worlds| ==> |worlds[n]| >= |tasks|
  {
    if worlds == [] then known
    else
      var n := |worlds| - 1;
      PollTasks(lib, maxMb, {}, KnownAfter(lib, maxMb, known, tasks, worlds[..n]), |tasks|, tasks, worlds[n]).known
  }

  ghost function FailedPolls(lib: Library, maxMb: nat, known: set<string>, tasks: seq<RemoteTask>, worlds: seq<seq<Contents>>): nat
    requires forall n :: 0 <= n < |worlds| ==> |worlds[n]| >= |tasks|
  {
    if worlds == [] then 0
    else
      var n := |worlds| - 1;
      var p := PollTasks(lib, maxMb, {}, KnownAfter(lib, maxMb, known, tasks, worlds[..n]), |tasks|, tasks, worlds[n]);
      FailedPolls(lib, maxMb, known, tasks, worlds[..n]) + if p.error.Some? then 1 else 0
  }

  /** Re-polling acceptable tasks fails at most once per id that was unknown at the start. */
  lemma {:induction false} RepollingFailsBoundedly(lib: Library, maxMb: nat, known: set<string>, tasks: seq<RemoteTask>, worlds: seq<seq<Contents>>)
    requires forall n :: 0 <= n < |worlds| ==> |worlds[n]| >= |tasks|
    requires AllAcceptable(lib, maxMb, tasks)
    ensures FailedPolls(lib, maxMb, known, tasks, worlds) + |AllIds(tasks) - KnownAfter(lib, maxMb, known, tasks, worlds)|
         <= |AllIds(tasks) - known|
    ensures FailedPolls(lib, maxMb, known, tasks, worlds) <= |AllIds(tasks) - known|
  {
    if worlds != [] {
      var n := |worlds| - 1;
      RepollingFailsBoundedly(lib, maxMb, known, tasks, worlds[..n]);
      var before := KnownAfter(lib, maxMb, known, tasks, worlds[..n]);
      var p := PollTasks(lib, maxMb, {}, before, |tasks|, tasks, worlds[n]);
      PollAccountsForEveryJob(lib, maxMb, {}, before, |tasks|, tasks, worlds[n]);
      FailedPollLearnsAnId(lib, maxMb, before, |tasks|, tasks, worlds[n]);
      if p.error.Some? {
        var id :| id in AllIds(tasks) && id !in before && id in p.known;
        SubsetSize(AllIds(tasks) - p.known, AllIds(tasks) - before - {id});
      } else {
        SubsetSize(AllIds(tasks) - p.known, AllIds(tasks) - before);
      }
    }
  }

  lemma {:induction false} SubsetSize(a: set<string>, b: set<string>)
    requires a <= b
    ensures |a| <= |b|
  {
    if a != {} {
      var x :| x in a;
      SubsetSize(a - {x}, b - {x});
    }
  }

  /** Jobs whose ids are all known are all repeats. */
  lemma {:induction false} KnownJobsRepeat(lib: Library, maxMb: nat, known: set<string>, jobs: seq<PrintJob>)
    requires forall k :: 0 <= k < |jobs| ==> Acceptable(lib, jobs[k], maxMb)
    requires JobIds(jobs) <= known
    ensures TakeJobs(lib, maxMb, {}, known, jobs) == Intake(known, [], |jobs|, None)
  {
    if jobs != [] {
      var n := |jobs| - 1;
      JobIdsStep(jobs, n);
      assert jobs[..n + 1] == jobs;
      KnownJobsRepeat(lib, maxMb, known, jobs[..n]);
    }
  }

  /** Once every id is known a poll succeeds, hands nothing over and counts every job as a repeat. */
  lemma {:induction false} SettledPollOnlyRepeats(lib: Library, maxMb: nat, known: set<string>, received: nat,
                                                  tasks: seq<RemoteTask>, seen: seq<Contents>)
    requires |tasks| <= |seen| && AllAcceptable(lib, maxMb, tasks) && AllIds(tasks) <= known
    ensures PollTasks(lib, maxMb, {}, known, received, tasks, seen)
         == Poll(known, PollOutcome(received, 0, TotalJobs(tasks)), 0, None)
  {
    if tasks != [] {
      var n := |tasks| - 1;
      assert forall m :: 0 <= m < n ==> tasks[..n][m] == tasks[m];
      SettledPollOnlyRepeats(lib, maxMb, known, received, tasks[..n], seen);
      KnownJobsRepeat(lib, maxMb, known, TaskJobs(tasks[n]));
    }
  }

  // -------------------------------------------------------------------------
  // What a poll hands over, and how often it wakes the print worker
  // -------------------------------------------------------------------------

  /** How often the pending jobs change along a series of queue contents. */
  function Changes(seen: seq<Contents>): nat {
    if |seen| < 2 then 0
    else Changes(seen[..|seen| - 1]) + if seen[|seen| - 1].pending != seen[|seen| - 2].pending then 1 else 0
  }

  /** An entry as a task from the server has it: remote, with the task's own ids, and one of its jobs. */
  ghost predicate ComesFrom(e: QueuedJob, task: RemoteTask) {
    && e.remote && e.localOrigin.None? && e.requestId == task.requestId && e.job in TaskJobs(task)
    && e.batchId == if task.PrintBatch? then Some(task.batchId) else None
  }

  /** One task appends its new jobs, counts them, and wakes the worker once if there are any. */
  lemma TaskAppendsItsJobs(lib: Library, maxMb: nat, broken: set<string>, p: Poll, task: RemoteTask, c: Contents)
    ensures var p', c' := PollTask(lib, maxMb, broken, p, task, c), QueueAfter(lib, maxMb, broken, p, task, c);
            && |c.pending| <= |c'.pending| && c'.pending[..|c.pending|] == c.pending
            && p'.outcome.enqueued == p.outcome.enqueued + |c'.pending| - |c.pending|
            && p'.wakeups == p.wakeups + (if c'.pending != c.pending then 1 else 0)
            && (forall i :: |c.pending| <= i < |c'.pending| ==> ComesFrom(c'.pending[i], task))
  {
    var i, c' := TakeJobs(lib, maxMb, broken, p.known, TaskJobs(task)), QueueAfter(lib, maxMb, broken, p, task, c);
    TakeJobsLaw(lib, maxMb, broken, p.known, TaskJobs(task));
    if c' != c {
      var entries := Entries(lib, Handover(task, i.newJobs));
      assert c'.pending == c.pending + entries;
      forall k | |c.pending| <= k < |c'.pending| ensures ComesFrom(c'.pending[k], task) {
        assert c'.pending[k] == entries[k - |c.pending|] && entries[k - |c.pending|].job == i.newJobs[k - |c.pending|];
      }
    }
  }

  lemma UndisturbedButLast(lib: Library, maxMb: nat, broken: set<string>, known: set<string>, received: nat,
                           tasks: seq<RemoteTask>, seen: seq<Contents>)
    requires tasks != [] && Undisturbed(lib, maxMb, broken, known, received, tasks, seen)
    ensures var n := |tasks| - 1;
            && Undisturbed(lib, maxMb, broken, known, received, tasks[..n], seen[..n + 1])
            && PollTasks(lib, maxMb, broken, known, received, tasks[..n], seen[..n + 1])
               == PollTasks(lib, maxMb, broken, known, received, tasks[..n], seen)
  {
    var n := |tasks| - 1;
    var shorter, last := seen[..n + 1], seen[n + 1];
    assert shorter + [last] == seen;
    SeenPrefix(lib, maxMb, broken, known, received, tasks[..n], shorter, last);
    forall k | 0 <= k < n
      ensures shorter[k + 1] == QueueAfter(lib, maxMb, broken,
        PollTasks(lib, maxMb, broken, known, received, tasks[..n][..k], shorter), tasks[..n][k], shorter[k])
    {
      assert tasks[..n][..k] == tasks[..k];
      SeenPrefix(lib, maxMb, broken, known, received, tasks[..k], shorter, last);
      assert seen[k + 1] == QueueAfter(lib, maxMb, broken,
        PollTasks(lib, maxMb, broken, known, received, tasks[..k], seen), tasks[k], seen[k]);
    }
  }

  ghost predicate ComesFromOneOf(e: QueuedJob, tasks: seq<RemoteTask>) {
    exists n :: 0 <= n < |tasks| && ComesFrom(e, tasks[n])
  }

  /** All that was appended since the first of these contents comes from some of the tasks. */
  ghost predicate OnlyAdds(first: seq<QueuedJob>, last: seq<QueuedJob>, tasks: seq<RemoteTask>) {
    && |first| <= |last| && last[..|first|] == first
    && forall i :: |first| <= i < |last| ==> ComesFromOneOf(last[i], tasks)
  }

  lemma AddsOneTask(first: seq<QueuedJob>, before: seq<QueuedJob>, last: seq<QueuedJob>, tasks: seq<RemoteTask>)
    requires tasks != [] && OnlyAdds(first, before, tasks[..|tasks| - 1])
    requires |before| <= |last| && last[..|before|] == before
    requires forall i :: |before| <= i < |last| ==> ComesFrom(last[i], tasks[|tasks| - 1])
    ensures OnlyAdds(first, last, tasks)
  {
    forall i | |first| <= i < |last| ensures ComesFromOneOf(last[i], tasks) {
      if i < |before| {
        assert last[i] == before[i] && ComesFromOneOf(before[i], tasks[..|tasks| - 1]);
        var n :| 0 <= n < |tasks| - 1 && ComesFrom(before[i], tasks[..|tasks| - 1][n]);
        assert ComesFrom(last[i], tasks[n]);
      }
    }
    assert last[..|first|] == last[..|before|][..|first|];
  }

  /**
   * In a poll that nothing disturbs the worker is woken once for every task that changed the queue, the jobs counted
   * as enqueued are those appended, and every appended entry is a remote one with the ids of its own task.
   */
  lemma {:induction false} PollWakesPerHandover(lib: Library, maxMb: nat, broken: set<string>, known: set<string>, received: nat,
                                                tasks: seq<RemoteTask>, seen: seq<Contents>)
    requires Undisturbed(lib, maxMb, broken, known, received, tasks, seen)
    ensures var p := PollTasks(lib, maxMb, broken, known, received, tasks, seen);
            && p.wakeups == Changes(seen)
            && p.outcome.enqueued == |seen[|tasks|].pending| - |seen[0].pending|
            && OnlyAdds(seen[0].pending, seen[|tasks|].pending, tasks)
  {
    if tasks != [] {
      var n := |tasks| - 1;
      UndisturbedButLast(lib, maxMb, broken, known, received, tasks, seen);
      PollWakesPerHandover(lib, maxMb, broken, known, received, tasks[..n], seen[..n + 1]);
      TaskAppendsItsJobs(lib, maxMb, broken, PollTasks(lib, maxMb, broken, known, received, tasks[..n], seen), tasks[n], seen[n]);
      AddsOneTask(seen[0].pending, seen[n].pending, seen[n + 1].pending, tasks);
    }
  }

  /** Why a job of a task cannot be recorded. */
  ghost predicate StopsAt(lib: Library, maxMb: nat, broken: set<string>, job: PrintJob, error: WorkerError) {
    if ValidateForAcceptance(lib, job, maxMb).Some? then error == InvalidTask(ValidateForAcceptance(lib, job, maxMb).value)
    else job.jobId in broken && error == StoreFailed
  }

  ghost predicate Recordable(lib: Library, maxMb: nat, broken: set<string>, jobs: seq<PrintJob>) {
    forall k :: 0 <= k < |jobs| ==> Acceptable(lib, jobs[k], maxMb) && jobs[k].jobId !in broken
  }

  lemma RecordableStep(lib: Library, maxMb: nat, broken: set<string>, jobs: seq<PrintJob>)
    requires jobs != []
    ensures var n := |jobs| - 1;
            Recordable(lib, maxMb, broken, jobs) <==>
              Recordable(lib, maxMb, broken, jobs[..n]) && Acceptable(lib, jobs[n], maxMb) && jobs[n].jobId !in broken
  {
    var n := |jobs| - 1;
    if Recordable(lib, maxMb, broken, jobs[..n]) {
      assert forall m :: 0 <= m < n ==> jobs[m] == jobs[..n][m];
    }
  }

  /** Job `k` is the first that cannot be recorded; all before it are known by then. */
  ghost predicate StoppedBy(lib: Library, maxMb: nat, broken: set<string>, known: set<string>, jobs: seq<PrintJob>, i: Intake, k: nat) {
    && k < |jobs| && Recordable(lib, maxMb, broken, jobs[..k])
    && i.error.Some? && StopsAt(lib, maxMb, broken, jobs[k], i.error.value) && i.known == known + JobIds(jobs[..k])
  }

  /** Recording stops exactly at the first job that is invalid or cannot be stored, with that job's error. */
  lemma {:induction false} RecordingStopsAtTheFirst(lib: Library, maxMb: nat, broken: set<string>, known: set<string>, jobs: seq<PrintJob>)
    returns (k: nat)
    ensures var i := TakeJobs(lib, maxMb, broken, known, jobs);
            && (Recordable(lib, maxMb, broken, jobs) ==> i.error.None?)
            && (!Recordable(lib, maxMb, broken, jobs) ==> StoppedBy(lib, maxMb, broken, known, jobs, i, k))
  {
    if jobs == [] {
      k := 0;
    } else {
      var n := |jobs| - 1;
      k := RecordingStopsAtTheFirst(lib, maxMb, broken, known, jobs[..n]);
      RecordableStep(lib, maxMb, broken, jobs);
      if Recordable(lib, maxMb, broken, jobs[..n]) {
        TakeJobsLaw(lib, maxMb, broken, known, jobs[..n]);
        k := n;
      } else {
        assert jobs[..n][..k] == jobs[..k];
      }
    }
  }
}
