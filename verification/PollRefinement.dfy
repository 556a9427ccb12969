/** The transition system and the poller's methods agree: an uninterrupted poll or report round does exactly what the method does. */
module PollRefinement {
  import opened Outcomes
  import opened Protocol
  import opened JobQueue
  import opened Polling
  import opened Pipeline
  import opened PipelineRefinement
  import RemoteStore
  import Reporting

  lemma {:induction false} RunFromConcat(lib: Library, s: State, a: seq<Step>, b: seq<Step>)
    ensures RunFrom(lib, s, a + b) == RunFrom(lib, RunFrom(lib, s, a), b)
    decreases |a|
  {
    if a == [] {
      assert a + b == b;
    } else {
      assert (a + b)[0] == a[0] && (a + b)[1..] == a[1..] + b;
      RunFromConcat(lib, Next(lib, s, a[0]), a[1..], b);
    }
  }

  lemma RunFromOne(lib: Library, s: State, step: Step)
    ensures RunFrom(lib, s, [step]) == Next(lib, s, step)
  {
    assert [step][1..] == [] && RunFrom(lib, Next(lib, s, step), []) == Next(lib, s, step);
  }

  lemma RunFromOneMore(lib: Library, s: State, steps: seq<Step>, step: Step)
    ensures RunFrom(lib, s, steps + [step]) == Next(lib, RunFrom(lib, s, steps), step)
  {
    RunFromConcat(lib, s, steps, [step]);
    RunFromOne(lib, RunFrom(lib, s, steps), step);
  }

  // -------------------------------------------------------------------------
  // Recording the jobs of a task
  // -------------------------------------------------------------------------

  /** What all jobs of a poll meet: size limit, time, and the ids whose insert fails. */
  datatype Circumstances = Circumstances(maxFileSizeMb: nat, at: RemoteStore.Time, broken: set<string>)

  function TakeStep(c: Circumstances, job: PrintJob): Step {
    Step.TakeJob(c.maxFileSizeMb, c.at, job.jobId in c.broken)
  }

  function TakeSteps(c: Circumstances, jobs: seq<PrintJob>): seq<Step> {
    if jobs == [] then [] else TakeSteps(c, jobs[..|jobs| - 1]) + [TakeStep(c, jobs[|jobs| - 1])]
  }

  function AfterTakes(lib: Library, c: Circumstances, s: State, jobs: seq<PrintJob>): State {
    if jobs == [] then s
    else
      var job := jobs[|jobs| - 1];
      AfterTakeJob(lib, AfterTakes(lib, c, s, jobs[..|jobs| - 1]), c.maxFileSizeMb, c.at, job.jobId in c.broken)
  }

  lemma {:induction false} TakeStepsRun(lib: Library, c: Circumstances, s: State, jobs: seq<PrintJob>)
    ensures RunFrom(lib, s, TakeSteps(c, jobs)) == AfterTakes(lib, c, s, jobs)
  {
    if jobs != [] {
      var shorter, step := jobs[..|jobs| - 1], TakeStep(c, jobs[|jobs| - 1]);
      TakeStepsRun(lib, c, s, shorter);
      RunFromOneMore(lib, s, TakeSteps(c, shorter), step);
    }
  }

  /** The poller after recording some jobs of a task, as the specification of the recording says. */
  ghost predicate Recorded(s: State, s': State, progress: Progress, task: RemoteTask, rest: seq<PrintJob>, i: Intake) {
    && s' == s.(tables := s'.tables, poller := s'.poller)
    && s'.tables.events == s.tables.events && s'.tables.jobs.Keys == i.known
    && s'.poller == if i.error.None? then Taking(progress, task, rest, i.newJobs, i.duplicated) else Idle
  }

  lemma OneTake(lib: Library, c: Circumstances, s: State, s0: State, progress: Progress, task: RemoteTask,
                job: PrintJob, rest: seq<PrintJob>, i: Intake)
    requires Recorded(s0, s, progress, task, [job] + rest, i)
    ensures Recorded(s0, AfterTakeJob(lib, s, c.maxFileSizeMb, c.at, job.jobId in c.broken), progress, task, rest,
                     Polling.TakeJob(lib, c.maxFileSizeMb, c.broken, i, job))
  {
    if i.error.None? {
      assert s.poller.left[0] == job && s.poller.left[1..] == rest;
    }
  }

  /** Recording job by job is `TakeJobs`. */
  lemma {:induction false} TakesAreIntake(lib: Library, c: Circumstances, s: State, progress: Progress, task: RemoteTask,
                                          jobs: seq<PrintJob>, rest: seq<PrintJob>)
    requires s.poller == Taking(progress, task, jobs + rest, [], 0)
    ensures Recorded(s, AfterTakes(lib, c, s, jobs), progress, task, rest,
                     TakeJobs(lib, c.maxFileSizeMb, c.broken, s.tables.jobs.Keys, jobs))
  {
    if jobs == [] {
      assert jobs + rest == rest;
    } else {
      var shorter, job := jobs[..|jobs| - 1], jobs[|jobs| - 1];
      assert shorter + ([job] + rest) == jobs + rest;
      TakesAreIntake(lib, c, s, progress, task, shorter, [job] + rest);
      OneTake(lib, c, AfterTakes(lib, c, s, shorter), s, progress, task, job, rest,
              TakeJobs(lib, c.maxFileSizeMb, c.broken, s.tables.jobs.Keys, shorter));
    }
  }

  // -------------------------------------------------------------------------
  // One task
  // -------------------------------------------------------------------------

  function TaskSteps(c: Circumstances, task: RemoteTask): seq<Step> {
    [NextTask] + (TakeSteps(c, TaskJobs(task)) + ([HandOver] + [AnnouncePoll]))
  }

  ghost function AfterTask(lib: Library, c: Circumstances, s: State, task: RemoteTask): State {
    AfterAnnouncePoll(AfterHandOver(lib, AfterTakes(lib, c, AfterNextTask(s), TaskJobs(task))))
  }

  lemma TaskStepsRun(lib: Library, c: Circumstances, s: State, task: RemoteTask)
    ensures RunFrom(lib, s, TaskSteps(c, task)) == AfterTask(lib, c, s, task)
  {
    var s1, tail := AfterNextTask(s), [HandOver] + [AnnouncePoll];
    RunFromConcat(lib, s, [NextTask], TakeSteps(c, TaskJobs(task)) + tail);
    RunFromOne(lib, s, NextTask);
    RunFromConcat(lib, s1, TakeSteps(c, TaskJobs(task)), tail);
    TakeStepsRun(lib, c, s1, TaskJobs(task));
    var s2 := AfterTakes(lib, c, s1, TaskJobs(task));
    RunFromConcat(lib, s2, [HandOver], [AnnouncePoll]);
    RunFromOne(lib, s2, HandOver);
    RunFromOne(lib, AfterHandOver(lib, s2), AnnouncePoll);
  }

  /** The print worker after some notifications. */
  function NotifiedTimes(w: Worker, n: nat): Worker {
    if n == 0 then w else Notified(NotifiedTimes(w, n - 1))
  }

  /** How the state stands to a poll: its tables and queue, where the poller is, and how often the worker was notified. */
  ghost predicate Stands(s: State, start: State, p: Poll, queue: Contents, fetched: seq<RemoteTask>, later: seq<RemoteTask>) {
    && s.tables.jobs.Keys == p.known && s.tables.events == start.tables.events && s.queue == queue && s.past.polls == start.past.polls
    && s.worker == NotifiedTimes(start.worker, p.wakeups)
    && s.poller == if p.error.None? then Between(Progress(fetched, later, p.outcome)) else Idle
  }

  lemma {:induction false} IdleTakes(lib: Library, c: Circumstances, s: State, jobs: seq<PrintJob>)
    requires s.poller.Idle?
    ensures AfterTakes(lib, c, s, jobs) == s
  {
    if jobs != [] { IdleTakes(lib, c, s, jobs[..|jobs| - 1]); }
  }

  /** Handing over what was recorded, and waking the worker if there was anything. */
  lemma HandedOver(lib: Library, c: Circumstances, s: State, start: State, s2: State, task: RemoteTask, fetched: seq<RemoteTask>,
                   later: seq<RemoteTask>, p: Poll)
    requires p.error.None? && s.tables.jobs.Keys == p.known && s.worker == NotifiedTimes(start.worker, p.wakeups)
    requires s.tables.events == start.tables.events && s.past.polls == start.past.polls
    requires var i := TakeJobs(lib, c.maxFileSizeMb, c.broken, p.known, TaskJobs(task));
             Recorded(s.(poller := s2.poller), s2, Progress(fetched, later, p.outcome), task, [], i)
    ensures Stands(AfterAnnouncePoll(AfterHandOver(lib, s2)), start, PollTask(lib, c.maxFileSizeMb, c.broken, p, task, s.queue),
                   QueueAfter(lib, c.maxFileSizeMb, c.broken, p, task, s.queue), fetched, later)
  {
  }

  /** One task, step by step, is `PollTask`. */
  lemma TaskIsPollTask(lib: Library, c: Circumstances, s: State, start: State, task: RemoteTask, fetched: seq<RemoteTask>,
                       later: seq<RemoteTask>, p: Poll, queue: Contents)
    requires Stands(s, start, p, queue, fetched, [task] + later)
    ensures Stands(AfterTask(lib, c, s, task), start, PollTask(lib, c.maxFileSizeMb, c.broken, p, task, queue),
                   QueueAfter(lib, c.maxFileSizeMb, c.broken, p, task, queue), fetched, later)
  {
    if p.error.Some? {
      IdleTakes(lib, c, s, TaskJobs(task));
    } else {
      var s1, progress := AfterNextTask(s), Progress(fetched, later, p.outcome);
      assert ([task] + later)[1..] == later;
      assert s1.poller == Taking(progress, task, TaskJobs(task) + [], [], 0) by { assert TaskJobs(task) + [] == TaskJobs(task); }
      TakesAreIntake(lib, c, s1, progress, task, TaskJobs(task), []);
      HandedOver(lib, c, s, start, AfterTakes(lib, c, s1, TaskJobs(task)), task, fetched, later, p);
    }
  }

  // -------------------------------------------------------------------------
  // The whole poll
  // -------------------------------------------------------------------------

  function PollSteps(c: Circumstances, tasks: seq<RemoteTask>): seq<Step> {
    if tasks == [] then [] else PollSteps(c, tasks[..|tasks| - 1]) + TaskSteps(c, tasks[|tasks| - 1])
  }

  /** Task after task: each finds the queue as the one before left it. */
  lemma {:induction false} TasksArePollTasks(lib: Library, c: Circumstances, s: State, fetched: seq<RemoteTask>,
                                             tasks: seq<RemoteTask>, later: seq<RemoteTask>)
    returns (seen: seq<Contents>)
    requires s.poller == Between(Progress(fetched, tasks + later, PollOutcome(|fetched|, 0, 0)))
    ensures Undisturbed(lib, c.maxFileSizeMb, c.broken, s.tables.jobs.Keys, |fetched|, tasks, seen) && seen[0] == s.queue
    ensures Stands(RunFrom(lib, s, PollSteps(c, tasks)), s,
                   PollTasks(lib, c.maxFileSizeMb, c.broken, s.tables.jobs.Keys, |fetched|, tasks, seen), seen[|tasks|], fetched, later)
  {
    if tasks == [] {
      seen := [s.queue];
      assert tasks + later == later;
    } else {
      var n, task, known := |tasks| - 1, tasks[|tasks| - 1], s.tables.jobs.Keys;
      assert tasks[..n] + ([task] + later) == tasks + later;
      var before := TasksArePollTasks(lib, c, s, fetched, tasks[..n], [task] + later);
      var p := PollTasks(lib, c.maxFileSizeMb, c.broken, known, |fetched|, tasks[..n], before);
      var s1 := RunFrom(lib, s, PollSteps(c, tasks[..n]));
      TaskIsPollTask(lib, c, s1, s, task, fetched, later, p, before[n]);
      RunFromConcat(lib, s, PollSteps(c, tasks[..n]), TaskSteps(c, task));
      TaskStepsRun(lib, c, s1, task);
      var last := QueueAfter(lib, c.maxFileSizeMb, c.broken, p, task, before[n]);
      ExtendSeen(lib, c.maxFileSizeMb, c.broken, known, |fetched|, tasks, before, last);
      SeenPrefix(lib, c.maxFileSizeMb, c.broken, known, |fetched|, tasks[..n], before, last);
      seen := before + [last];
    }
  }

  /**
   * An uninterrupted poll leaves recorded ids, queue and outcome exactly as the specification of `PollOnce` says,
   * notifies the worker as often as that counts, and counts as successful exactly when that has no error.
   */
  lemma UninterruptedPollIsPollOnce(lib: Library, c: Circumstances, s: State, tasks: seq<RemoteTask>) returns (seen: seq<Contents>)
    requires s.poller.Idle?
    ensures Undisturbed(lib, c.maxFileSizeMb, c.broken, s.tables.jobs.Keys, |tasks|, tasks, seen) && seen[0] == s.queue
    ensures var s' := RunFrom(lib, s, [StartPoll(tasks)] + (PollSteps(c, tasks) + [NextTask]));
            var p := PollTasks(lib, c.maxFileSizeMb, c.broken, s.tables.jobs.Keys, |tasks|, tasks, seen);
            && s'.tables.jobs.Keys == p.known && s'.tables.events == s.tables.events && s'.queue == seen[|tasks|]
            && s'.poller.Idle? && s'.worker == NotifiedTimes(s.worker, p.wakeups)
            && s'.past.polls == s.past.polls + if p.error.None? then [Progress(tasks, [], p.outcome)] else []
  {
    var s1 := AfterStartPoll(s, tasks);
    assert tasks + [] == tasks;
    seen := TasksArePollTasks(lib, c, s1, tasks, tasks, []);
    WholePollRuns(lib, c, s, tasks);
    LastTaskIsDone(RunFrom(lib, s1, PollSteps(c, tasks)), s1,
      PollTasks(lib, c.maxFileSizeMb, c.broken, s.tables.jobs.Keys, |tasks|, tasks, seen), seen[|tasks|], tasks);
  }

  lemma WholePollRuns(lib: Library, c: Circumstances, s: State, tasks: seq<RemoteTask>)
    ensures RunFrom(lib, s, [StartPoll(tasks)] + (PollSteps(c, tasks) + [NextTask]))
         == AfterNextTask(RunFrom(lib, AfterStartPoll(s, tasks), PollSteps(c, tasks)))
  {
    RunFromConcat(lib, s, [StartPoll(tasks)], PollSteps(c, tasks) + [NextTask]);
    RunFromOne(lib, s, StartPoll(tasks));
    RunFromOneMore(lib, AfterStartPoll(s, tasks), PollSteps(c, tasks), NextTask);
  }

  lemma LastTaskIsDone(s: State, start: State, p: Poll, queue: Contents, tasks: seq<RemoteTask>)
    requires Stands(s, start, p, queue, tasks, [])
    ensures var s' := AfterNextTask(s);
            && s'.tables.jobs.Keys == p.known && s'.tables.events == start.tables.events && s'.queue == queue && s'.poller.Idle?
            && s'.worker == NotifiedTimes(start.worker, p.wakeups)
            && s'.past.polls == start.past.polls + if p.error.None? then [Progress(tasks, [], p.outcome)] else []
  {
  }

  // -------------------------------------------------------------------------
  // A report round
  // -------------------------------------------------------------------------

  /** One delivery step is one attempt. */
  lemma DeliverIsAttempt(s: State, r: Reporting.Round, k: nat, answer: Reporting.Answer, now: RemoteStore.Time, maxRetries: nat)
    requires r.tables == s.tables && r.error.None? && k < |s.tables.events| && s.tables.events[k].delivery == RemoteStore.Pending
    ensures AfterDeliver(s, k, answer, now, maxRetries)
         == s.(tables := Reporting.Attempt(r, s.tables.events[k], answer, now, maxRetries).tables)
  {
  }

  /** The last report of a batch is still pending in its row when its turn comes: one more step delivers it. */
  lemma LastDelivery(t: RemoteStore.Tables, events: seq<RemoteStore.StatusEvent>, answers: nat -> Reporting.Answer,
                     now: RemoteStore.Time, maxRetries: nat, s: State) returns (k: nat)
    requires events != [] && Reporting.Batch(t, events)
    requires var r := Reporting.Attempts(t, events[..|events| - 1], answers, now, maxRetries);
             r.error.None? && s.tables == r.tables
    ensures AfterDeliver(s, k, answers(|events| - 1), now, maxRetries)
         == s.(tables := Reporting.Attempts(t, events, answers, now, maxRetries).tables)
  {
    var n := |events| - 1;
    var r := Reporting.Attempts(t, events[..n], answers, now, maxRetries);
    Reporting.RoundPrefix(t, events, n);
    Reporting.RoundLaw(t, events[..n], answers, now, maxRetries);
    k := Reporting.TargetRow(t, events, n, r.tables);
    assert events[n] in events;
    DeliverIsAttempt(s, r, k, answers(n), now, maxRetries);
  }

  lemma StoppedRound(t: RemoteStore.Tables, events: seq<RemoteStore.StatusEvent>, answers: nat -> Reporting.Answer,
                     now: RemoteStore.Time, maxRetries: nat)
    requires events != [] && Reporting.Attempts(t, events[..|events| - 1], answers, now, maxRetries).error.Some?
    ensures Reporting.Attempts(t, events, answers, now, maxRetries)
         == Reporting.Attempts(t, events[..|events| - 1], answers, now, maxRetries)
  {
  }

  lemma DeliverRuns(lib: Library, s: State, steps: seq<Step>, k: nat, answer: Reporting.Answer, now: RemoteStore.Time, maxRetries: nat)
    ensures RunFrom(lib, s, steps + [Deliver(k, answer, now, maxRetries)])
         == AfterDeliver(RunFrom(lib, s, steps), k, answer, now, maxRetries)
  {
    RunFromOneMore(lib, s, steps, Deliver(k, answer, now, maxRetries));
  }

  lemma DeliversOneMore(lib: Library, s: State, events: seq<RemoteStore.StatusEvent>, answers: nat -> Reporting.Answer,
                        now: RemoteStore.Time, maxRetries: nat, steps: seq<Step>) returns (step: Step)
    requires events != [] && Reporting.Batch(s.tables, events)
    requires var r := Reporting.Attempts(s.tables, events[..|events| - 1], answers, now, maxRetries);
             r.error.None? && RunFrom(lib, s, steps) == s.(tables := r.tables)
    ensures step.Deliver?
    ensures RunFrom(lib, s, steps + [step]) == s.(tables := Reporting.Attempts(s.tables, events, answers, now, maxRetries).tables)
  {
    var k := LastDelivery(s.tables, events, answers, now, maxRetries, RunFrom(lib, s, steps));
    step := Deliver(k, answers(|events| - 1), now, maxRetries);
    DeliverRuns(lib, s, steps, k, answers(|events| - 1), now, maxRetries);
  }

  /** A batch of due reports can be delivered step by step, with the tables that the round leaves. */
  lemma {:induction false} UninterruptedRoundIsItsAttempts(lib: Library, s: State, events: seq<RemoteStore.StatusEvent>,
                                                           answers: nat -> Reporting.Answer, now: RemoteStore.Time, maxRetries: nat)
    returns (steps: seq<Step>)
    requires Reporting.Batch(s.tables, events)
    ensures |steps| <= |events| && forall i :: 0 <= i < |steps| ==> steps[i].Deliver?
    ensures RunFrom(lib, s, steps) == s.(tables := Reporting.Attempts(s.tables, events, answers, now, maxRetries).tables)
  {
    if events == [] {
      steps := [];
    } else {
      var n := |events| - 1;
      Reporting.RoundPrefix(s.tables, events, n);
      steps := UninterruptedRoundIsItsAttempts(lib, s, events[..n], answers, now, maxRetries);
      if Reporting.Attempts(s.tables, events[..n], answers, now, maxRetries).error.Some? {
        StoppedRound(s.tables, events, answers, now, maxRetries);
      } else {
        var step := DeliversOneMore(lib, s, events, answers, now, maxRetries, steps);
        steps := steps + [step];
      }
    }
  }
}
