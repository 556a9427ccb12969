/** Recorded remote jobs that never reach the queue: exactly when one is lost, and that it is lost for good. */
module PipelineLosses {
  import opened Outcomes
  import opened Protocol
  import opened JobQueue
  import opened Pipeline
  import opened PipelineIntake
  import Polling
  import RemoteStore
  import Server

  /** The poller holds the job: recorded in this very task, and not handed over yet. */
  ghost predicate InHand(s: State, id: string) {
    s.poller.Taking? && exists i :: 0 <= i < |s.poller.newJobs| && s.poller.newJobs[i].jobId == id
  }

  /** Recorded, yet neither queued ever nor about to be. */
  ghost predicate Lost(s: State, id: string) {
    id in s.tables.jobs && id !in s.past.entered && !InHand(s, id)
  }

  /** The poll ends with this step: the process ends, the next job cannot be recorded, or the queue refuses the task. */
  ghost predicate EndsPoll(lib: Library, s: State, step: Step)
    requires s.poller.Taking?
  {
    match step
    case Restart => true
    case TakeJob(maxMb, _, fault) => s.poller.left != [] && (fault || !Acceptable(lib, s.poller.left[0], maxMb))
    case HandOver => s.poller.left == [] && s.poller.newJobs != [] && Refusal(lib, s.queue, Polling.Handover(s.poller.task, s.poller.newJobs)).Some?
    case _ => false
  }

  /** The step takes the job out of the poller's hand without queueing it. */
  ghost predicate Drops(lib: Library, s: State, step: Step, id: string) {
    InHand(s, id) && EndsPoll(lib, s, step)
  }

  lemma TakeJobDrops(lib: Library, s: State, maxMb: nat, at: RemoteStore.Time, fault: bool, id: string)
    requires AtMostOnce(s)
    ensures var step := Step.TakeJob(maxMb, at, fault);
            Lost(AfterTakeJob(lib, s, maxMb, at, fault), id) <==> Lost(s, id) || Drops(lib, s, step, id)
  {
    var s' := AfterTakeJob(lib, s, maxMb, at, fault);
    if s.poller.Taking? && s.poller.left != [] && s'.poller.Taking? {
      var held, grown := s.poller.newJobs, s'.poller.newJobs;
      if InHand(s, id) {
        var i :| 0 <= i < |held| && held[i].jobId == id;
        assert grown[i].jobId == id;
      }
      if id == s.poller.left[0].jobId && id !in s.tables.jobs {
        assert grown[|held|].jobId == id;
      }
    }
  }

  lemma HandOverDrops(lib: Library, s: State, id: string)
    requires AtMostOnce(s)
    ensures Lost(AfterHandOver(lib, s), id) <==> Lost(s, id) || Drops(lib, s, HandOver, id)
  {
    if s.poller.Taking? {
      var jobs := s.poller.newJobs;
      if InHand(s, id) {
        var i :| 0 <= i < |jobs| && jobs[i].jobId == id;
        assert IdsOf(jobs)[i] == id;
      } else {
        assert forall i :: 0 <= i < |jobs| ==> IdsOf(jobs)[i] != id;
      }
    }
  }

  lemma OtherPollSteps(lib: Library, s: State, step: Step, id: string)
    requires AtMostOnce(s) && (step.StartPoll? || step.NextTask? || step.AnnouncePoll? || step.Restart?)
    ensures Lost(Next(lib, s, step), id) <==> Lost(s, id) || Drops(lib, s, step, id)
  {
  }

  /**
   * After a step a job is lost exactly when it was lost before, or the poller held it and the step ended the poll:
   * a restart, a later job that is invalid or cannot be stored, or a refusal by the queue.
   */
  lemma LostAfterStep(lib: Library, s: State, step: Step, id: string)
    requires AtMostOnce(s)
    ensures Lost(Next(lib, s, step), id) <==> Lost(s, id) || Drops(lib, s, step, id)
  {
    match step
    case TakeJob(maxMb, at, fault) => TakeJobDrops(lib, s, maxMb, at, fault, id);
    case HandOver => HandOverDrops(lib, s, id);
    case _ =>
      if ChangesPoller(step) {
        OtherPollSteps(lib, s, step, id);
      } else {
        OnlyTheseChangeThePoller(lib, s, step);
      }
  }

  /** Some step of the run dropped the job. */
  ghost predicate Dropped(lib: Library, steps: seq<Step>, id: string) {
    exists i :: 0 <= i < |steps| && Drops(lib, Run(lib, steps[..i]), steps[i], id)
  }

  lemma DroppedOneMore(lib: Library, steps: seq<Step>, step: Step, id: string)
    ensures Dropped(lib, steps + [step], id) <==> Dropped(lib, steps, id) || Drops(lib, Run(lib, steps), step, id)
  {
    var longer := steps + [step];
    if Dropped(lib, longer, id) {
      var i :| 0 <= i < |longer| && Drops(lib, Run(lib, longer[..i]), longer[i], id);
      if i < |steps| {
        assert longer[..i] == steps[..i] && Drops(lib, Run(lib, steps[..i]), steps[i], id);
      } else {
        assert longer[..i] == steps;
      }
    }
    if Dropped(lib, steps, id) {
      var i :| 0 <= i < |steps| && Drops(lib, Run(lib, steps[..i]), steps[i], id);
      assert longer[..i] == steps[..i] && Drops(lib, Run(lib, longer[..i]), longer[i], id);
    }
    if Drops(lib, Run(lib, steps), step, id) {
      assert longer[..|steps|] == steps && Drops(lib, Run(lib, longer[..|steps|]), longer[|steps|], id);
    }
  }

  /**
   * Over every run, restarts included: a job is lost exactly when some step dropped it. Hence a recorded job that no
   * step dropped has entered the queue or is in the poller's hand, and nothing ever brings a lost job back.
   */
  lemma {:induction false} LostIffDropped(lib: Library, steps: seq<Step>, id: string)
    ensures Lost(Run(lib, steps), id) <==> Dropped(lib, steps, id)
  {
    if steps != [] {
      var shorter, step := steps[..|steps| - 1], steps[|steps| - 1];
      assert steps == shorter + [step];
      LostIffDropped(lib, shorter, id);
      AlwaysAtMostOnce(lib, shorter);
      LostAfterStep(lib, Run(lib, shorter), step, id);
      DroppedOneMore(lib, shorter, step, id);
    }
  }

  /** Nothing brings a lost job back: not another poll, not a restart. */
  lemma {:induction false} LostStaysLost(lib: Library, steps: seq<Step>, n: nat, id: string)
    requires n <= |steps| && Lost(Run(lib, steps[..n]), id)
    ensures Lost(Run(lib, steps), id)
  {
    if n == |steps| {
      assert steps[..n] == steps;
    } else {
      var shorter := steps[..|steps| - 1];
      assert shorter[..n] == steps[..n];
      LostStaysLost(lib, shorter, n, id);
      AlwaysAtMostOnce(lib, shorter);
      LostAfterStep(lib, Run(lib, shorter), steps[|steps| - 1], id);
    }
  }

  // -------------------------------------------------------------------------
  // Each kind of loss happens
  // -------------------------------------------------------------------------

  lemma OneMore(lib: Library, steps: seq<Step>, step: Step)
    ensures Run(lib, steps + [step]) == Next(lib, Run(lib, steps), step)
  {
    assert (steps + [step])[..|steps|] == steps;
  }

  /** The worker has not moved yet, and every store has served. */
  ghost predicate Untouched(s: State) {
    s.worker == IDLE_WORKER && s.past.clean
  }

  /** The poller has recorded nothing but the first job of its only task; the queue is as given. */
  ghost predicate JustRecorded(s: State, task: Polling.RemoteTask, job: PrintJob, queue: Contents) {
    && Untouched(s)
    && s.poller.Taking? && s.poller.task == task && s.poller.newJobs == [job]
    && Polling.TaskJobs(task) == [job] + s.poller.left && job.jobId in s.tables.jobs && s.past.entered == [] && s.queue == queue
  }

  /** Nothing was ever fetched. */
  ghost predicate Unpolled(s: State) {
    Untouched(s) && s.poller.Idle? && s.tables.jobs == map[] && s.past.entered == []
  }

  /** The poller is about to record the jobs of its only task. */
  ghost predicate AboutToRecord(s: State, task: Polling.RemoteTask, queue: Contents) {
    && Untouched(s)
    && s.poller.Taking? && s.poller.task == task && s.poller.left == Polling.TaskJobs(task) && s.poller.newJobs == []
    && s.tables.jobs == map[] && s.past.entered == [] && s.queue == queue
  }

  lemma TaskIsTaken(lib: Library, before: seq<Step>, task: Polling.RemoteTask) returns (steps: seq<Step>)
    requires Unpolled(Run(lib, before))
    ensures AboutToRecord(Run(lib, steps), task, Run(lib, before).queue)
  {
    OneMore(lib, before, StartPoll([task]));
    OneMore(lib, before + [StartPoll([task])], NextTask);
    steps := before + [StartPoll([task])] + [NextTask];
  }

  lemma FirstJobIsRecorded(lib: Library, before: seq<Step>, task: Polling.RemoteTask, maxMb: nat) returns (steps: seq<Step>)
    requires Unpolled(Run(lib, before))
    requires Polling.TaskJobs(task) != [] && Acceptable(lib, Polling.TaskJobs(task)[0], maxMb)
    ensures JustRecorded(Run(lib, steps), task, Polling.TaskJobs(task)[0], Run(lib, before).queue)
  {
    var taken := TaskIsTaken(lib, before, task);
    OneMore(lib, taken, Step.TakeJob(maxMb, 0, false));
    RecordsFirst(lib, Run(lib, taken), task, maxMb, Run(lib, before).queue);
    steps := taken + [Step.TakeJob(maxMb, 0, false)];
  }

  lemma RecordsFirst(lib: Library, s: State, task: Polling.RemoteTask, maxMb: nat, queue: Contents)
    requires AboutToRecord(s, task, queue) && s.poller.left != [] && Acceptable(lib, s.poller.left[0], maxMb)
    ensures JustRecorded(AfterTakeJob(lib, s, maxMb, 0, false), task, s.poller.left[0], queue)
  {
  }

  /** The first job of a task is lost by any step that ends the poll right after recording it. */
  lemma LostWith(lib: Library, before: seq<Step>, task: Polling.RemoteTask, maxMb: nat, step: Step) returns (steps: seq<Step>)
    requires Unpolled(Run(lib, before))
    requires Polling.TaskJobs(task) != [] && Acceptable(lib, Polling.TaskJobs(task)[0], maxMb)
    requires forall s | JustRecorded(s, task, Polling.TaskJobs(task)[0], Run(lib, before).queue) :: EndsPoll(lib, s, step)
    ensures Lost(Run(lib, steps), Polling.TaskJobs(task)[0].jobId)
  {
    var recorded := FirstJobIsRecorded(lib, before, task, maxMb);
    var job := Polling.TaskJobs(task)[0];
    assert InHand(Run(lib, recorded), job.jobId) by {
      assert Run(lib, recorded).poller.newJobs[0].jobId == job.jobId;
    }
    AlwaysAtMostOnce(lib, recorded);
    LostAfterStep(lib, Run(lib, recorded), step, job.jobId);
    OneMore(lib, recorded, step);
    steps := recorded + [step];
  }

  /** Any acceptable job is lost when the process ends between recording and queueing it. */
  lemma LostByRestart(lib: Library, requestId: string, job: PrintJob, maxMb: nat) returns (steps: seq<Step>)
    requires Acceptable(lib, job, maxMb)
    ensures Lost(Run(lib, steps), job.jobId)
  {
    steps := LostWith(lib, [], Polling.Print(requestId, job), maxMb, Restart);
  }

  /** An acceptable job is lost when a later job of its batch is invalid. */
  lemma LostByInvalidSibling(lib: Library, requestId: string, batchId: string, job: PrintJob, invalid: PrintJob, maxMb: nat)
    returns (steps: seq<Step>)
    requires Acceptable(lib, job, maxMb) && !Acceptable(lib, invalid, maxMb)
    ensures Lost(Run(lib, steps), job.jobId)
  {
    var task := Polling.PrintBatch(requestId, batchId, [job, invalid]);
    forall s | JustRecorded(s, task, job, EMPTY) ensures EndsPoll(lib, s, Step.TakeJob(maxMb, 0, false)) {
      assert ([job] + s.poller.left)[1] == invalid;
    }
    steps := LostWith(lib, [], task, maxMb, Step.TakeJob(maxMb, 0, false));
  }

  /** An acceptable job is lost when the store fails on a later job of its batch. */
  lemma LostByFailedSibling(lib: Library, requestId: string, batchId: string, job: PrintJob, other: PrintJob, maxMb: nat)
    returns (steps: seq<Step>)
    requires Acceptable(lib, job, maxMb)
    ensures Lost(Run(lib, steps), job.jobId)
  {
    var task := Polling.PrintBatch(requestId, batchId, [job, other]);
    forall s | JustRecorded(s, task, job, EMPTY) ensures EndsPoll(lib, s, Step.TakeJob(maxMb, 0, true)) {
      assert ([job] + s.poller.left)[1] == other;
    }
    steps := LostWith(lib, [], task, maxMb, Step.TakeJob(maxMb, 0, true));
  }

  /** A client uses the batch id: a batch without jobs will do. */
  lemma BatchIdIsTaken(lib: Library, requestId: string, batchId: string) returns (steps: seq<Step>)
    ensures Unpolled(Run(lib, steps)) && batchId in Run(lib, steps).queue.seenBatches
  {
    var connect, submit := Connect(0, None), Step.Submit(0, Server.Limits(1, 1), Server.PrintBatch(requestId, batchId, []));
    OneMore(lib, [], connect);
    assert [] + [connect] == [connect];
    OneMore(lib, [connect], submit);
    steps := [connect] + [submit];
    EmptyBatchIsAccepted(lib, AfterConnect(START, 0, None), requestId, batchId);
  }

  lemma EmptyBatchIsAccepted(lib: Library, s: State, requestId: string, batchId: string)
    requires 0 in s.connections && s.connections[0].duty.Ready? && s.queue == EMPTY && Unpolled(s)
    ensures var s' := AfterSubmit(lib, s, 0, Server.Limits(1, 1), Server.PrintBatch(requestId, batchId, []));
            Unpolled(s') && batchId in s'.queue.seenBatches
  {
    var sub := Submission(requestId, Some(batchId), [], None, false);
    assert Server.Screen(lib, Server.Limits(1, 1), s.connections[0].header, Server.PrintBatch(requestId, batchId, [])) == Ok(sub);
    assert Refusal(lib, EMPTY, sub).None?;
  }

  /** An acceptable job is lost when the queue refuses its batch, here for a batch id that a client used before. */
  lemma LostByRefusal(lib: Library, requestId: string, batchId: string, job: PrintJob, maxMb: nat) returns (steps: seq<Step>)
    requires Acceptable(lib, job, maxMb)
    ensures Lost(Run(lib, steps), job.jobId)
  {
    var before := BatchIdIsTaken(lib, requestId, batchId);
    var task, queue := Polling.PrintBatch(requestId, batchId, [job]), Run(lib, before).queue;
    forall s | JustRecorded(s, task, job, queue) ensures EndsPoll(lib, s, HandOver) {
      assert |[job] + s.poller.left| == 1;
      assert Refusal(lib, queue, Polling.Handover(task, [job])).Some?;
    }
    steps := LostWith(lib, before, task, maxMb, HandOver);
  }
}
