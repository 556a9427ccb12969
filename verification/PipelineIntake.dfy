/** Remote intake over any run: at most once per id, across restarts, with every job of a poll accounted for. */
module PipelineIntake {
  import opened Outcomes
  import opened Protocol
  import opened JobQueue
  import opened Pipeline
  import opened PipelineQueue
  import Polling
  import PollingLaws
  import RemoteStore
  import Server

  ghost predicate Distinct(ids: seq<string>) {
    forall i, j :: 0 <= i < j < |ids| ==> ids[i] != ids[j]
  }

  /** Remote jobs in the queue or in the worker's hands came in through the poller. */
  ghost predicate RemoteJobsEntered(jobs: seq<QueuedJob>, entered: seq<string>) {
    forall i :: 0 <= i < |jobs| && jobs[i].remote ==> jobs[i].job.jobId in entered
  }

  /** The jobs a poll holds in its hands are recorded, distinct, and never entered a queue. */
  ghost predicate HandIsNew(p: Poller, recorded: set<string>, entered: seq<string>) {
    p.Taking? ==>
      && DistinctIds(p.newJobs)
      && forall i :: 0 <= i < |p.newJobs| ==> p.newJobs[i].jobId in recorded && p.newJobs[i].jobId !in entered
  }

  ghost predicate AtMostOnce(s: State) {
    && Distinct(s.past.entered)
    && (forall id :: id in s.past.entered ==> id in s.tables.jobs)
    && HandIsNew(s.poller, s.tables.jobs.Keys, s.past.entered)
    && RemoteJobsEntered(Jobs(s.past.runs) + s.queue.pending, s.past.entered)
  }

  lemma TakeJobAtMostOnce(lib: Library, s: State, maxMb: nat, at: RemoteStore.Time, fault: bool)
    requires AtMostOnce(s)
    ensures AtMostOnce(AfterTakeJob(lib, s, maxMb, at, fault))
  {
    if s.poller.Taking? && s.poller.left != [] {
      var s' := AfterTakeJob(lib, s, maxMb, at, fault);
      var id := s.poller.left[0].jobId;
      assert s'.poller.Taking? ==> s'.tables.jobs.Keys == s.tables.jobs.Keys + {id};
    }
  }

  /** New jobs extend the entered ids without a repeat. */
  lemma EnteredStaysDistinct(entered: seq<string>, jobs: seq<PrintJob>)
    requires Distinct(entered) && DistinctIds(jobs)
    requires forall i :: 0 <= i < |jobs| ==> jobs[i].jobId !in entered
    ensures Distinct(entered + IdsOf(jobs))
  {
    var ids := IdsOf(jobs);
    forall i, j | 0 <= i < j < |entered + ids| ensures (entered + ids)[i] != (entered + ids)[j] {
      if i < |entered| <= j {
        assert entered[i] in entered && ids[j - |entered|] == jobs[j - |entered|].jobId;
      }
    }
  }

  lemma EntriesEntered(lib: Library, jobs: seq<QueuedJob>, entered: seq<string>, sub: Submission)
    requires RemoteJobsEntered(jobs, entered)
    ensures RemoteJobsEntered(jobs + Entries(lib, sub), entered + IdsOf(sub.jobs))
  {
    var all, ids := jobs + Entries(lib, sub), IdsOf(sub.jobs);
    forall i | 0 <= i < |all| && all[i].remote ensures all[i].job.jobId in entered + ids {
      if i >= |jobs| { assert ids[i - |jobs|] in ids; }
    }
  }

  lemma HandedOverAtMostOnce(lib: Library, s: State, s': State)
    requires AtMostOnce(s) && s.poller.Taking? && !s'.poller.Taking?
    requires s'.tables == s.tables && s'.past.runs == s.past.runs && s'.past.entered == s.past.entered + IdsOf(s.poller.newJobs)
    requires s'.queue.pending == s.queue.pending + Entries(lib, Polling.Handover(s.poller.task, s.poller.newJobs))
    ensures AtMostOnce(s')
  {
    var sub := Polling.Handover(s.poller.task, s.poller.newJobs);
    var before := Jobs(s.past.runs) + s.queue.pending;
    EnteredStaysDistinct(s.past.entered, s.poller.newJobs);
    EntriesEntered(lib, before, s.past.entered, sub);
    assert Jobs(s'.past.runs) + s'.queue.pending == before + Entries(lib, sub);
  }

  lemma HandOverAtMostOnce(lib: Library, s: State)
    requires AtMostOnce(s)
    ensures AtMostOnce(AfterHandOver(lib, s))
  {
    var s' := AfterHandOver(lib, s);
    if s'.poller.Waking? && s.poller.Taking? {
      HandedOverAtMostOnce(lib, s, s');
    }
  }

  lemma SubmitAtMostOnce(lib: Library, s: State, id: nat, limits: Server.Limits, m: Server.ClientMessage)
    requires AtMostOnce(s)
    ensures AtMostOnce(AfterSubmit(lib, s, id, limits, m))
  {
    var s' := AfterSubmit(lib, s, id, limits, m);
    var before, after := Jobs(s.past.runs) + s.queue.pending, Jobs(s'.past.runs) + s'.queue.pending;
    assert forall i :: 0 <= i < |before| ==> after[i] == before[i];
    assert forall i :: |before| <= i < |after| ==> !after[i].remote;
  }

  lemma PopAtMostOnce(lib: Library, s: State, step: Step)
    requires AtMostOnce(s) && step.Pop?
    ensures AtMostOnce(Next(lib, s, step))
  {
    if s.worker.phase.Popping? && s.queue.pending != [] {
      var run := Next(lib, s, step).past.runs[|s.past.runs|];
      PopMovesTheFirst(s.queue.pending, s.past.runs, run);
    }
  }

  lemma StepKeepsAtMostOnce(lib: Library, s: State, step: Step)
    requires AtMostOnce(s)
    ensures AtMostOnce(Next(lib, s, step))
  {
    match step
    case Submit(id, limits, m) => SubmitAtMostOnce(lib, s, id, limits, m);
    case TakeJob(maxMb, at, fault) => TakeJobAtMostOnce(lib, s, maxMb, at, fault);
    case HandOver => HandOverAtMostOnce(lib, s);
    case Pop(_, _) => PopAtMostOnce(lib, s, step);
    case StartPoll(_) =>
    case NextTask =>
    case AnnouncePoll =>
    case Restart =>
    case _ =>
      OnlyTheseChangeThePoller(lib, s, step);
      OnlyTheseChangeTheQueue(lib, s, step);
  }

  /** Over any run, restarts included, no job id enters a queue as a remote job twice. */
  lemma {:induction false} AlwaysAtMostOnce(lib: Library, steps: seq<Step>)
    ensures AtMostOnce(Run(lib, steps))
  {
    if steps != [] {
      AlwaysAtMostOnce(lib, steps[..|steps| - 1]);
      StepKeepsAtMostOnce(lib, Run(lib, steps[..|steps| - 1]), steps[|steps| - 1]);
    }
  }

  // -------------------------------------------------------------------------
  // Accounting of polls
  // -------------------------------------------------------------------------

  /** Jobs of a poll that are counted already, and those that still have to be. */
  function Counted(p: Poller): nat {
    match p
    case Idle => 0
    case Taking(progress, _, left, newJobs, duplicated) =>
      progress.outcome.enqueued + progress.outcome.duplicated + |newJobs| + duplicated
        + |left| + Polling.TotalJobs(progress.later)
    case _ => p.progress.outcome.enqueued + p.progress.outcome.duplicated + Polling.TotalJobs(p.progress.later)
  }

  ghost predicate Accounted(s: State) {
    && (!s.poller.Idle? ==>
          && Counted(s.poller) == Polling.TotalJobs(s.poller.progress.fetched)
          && s.poller.progress.outcome.received == |s.poller.progress.fetched|)
    && (forall i :: 0 <= i < |s.past.polls| ==>
          var p := s.past.polls[i];
          && p.outcome.enqueued + p.outcome.duplicated == Polling.TotalJobs(p.fetched)
          && p.outcome.received == |p.fetched|)
  }

  lemma {:induction false} FirstTaskTotal(tasks: seq<Polling.RemoteTask>)
    requires tasks != []
    ensures Polling.TotalJobs(tasks) == |Polling.TaskJobs(tasks[0])| + Polling.TotalJobs(tasks[1..])
  {
    var n := |tasks| - 1;
    if n == 0 {
      assert tasks[..0] == [] && tasks[1..] == [];
    } else {
      FirstTaskTotal(tasks[..n]);
      assert tasks[..n][1..] == tasks[1..][..n - 1];
    }
  }

  lemma NextTaskAccounted(s: State)
    requires Accounted(s)
    ensures Accounted(AfterNextTask(s))
  {
    if s.poller.Between? {
      if s.poller.progress.later == [] {
        assert Polling.TotalJobs(s.poller.progress.later) == 0;
      } else {
        FirstTaskTotal(s.poller.progress.later);
      }
    }
  }

  lemma TakeJobAccounted(lib: Library, s: State, maxMb: nat, at: RemoteStore.Time, fault: bool)
    requires Accounted(s)
    ensures Accounted(AfterTakeJob(lib, s, maxMb, at, fault))
  {
  }

  lemma HandOverAccounted(lib: Library, s: State)
    requires Accounted(s)
    ensures Accounted(AfterHandOver(lib, s))
  {
  }

  lemma StepKeepsAccounted(lib: Library, s: State, step: Step)
    requires Accounted(s)
    ensures Accounted(Next(lib, s, step))
  {
    match step
    case NextTask => NextTaskAccounted(s);
    case TakeJob(maxMb, at, fault) => TakeJobAccounted(lib, s, maxMb, at, fault);
    case HandOver => HandOverAccounted(lib, s);
    case StartPoll(_) =>
    case AnnouncePoll =>
    case Restart =>
    case _ => OnlyTheseChangeThePoller(lib, s, step);
  }

  /** Whatever interleaves with it, a poll that succeeds has enqueued or counted as a repeat each job it fetched. */
  lemma {:induction false} AlwaysAccounted(lib: Library, steps: seq<Step>)
    ensures Accounted(Run(lib, steps))
  {
    if steps != [] {
      AlwaysAccounted(lib, steps[..|steps| - 1]);
      StepKeepsAccounted(lib, Run(lib, steps[..|steps| - 1]), steps[|steps| - 1]);
    }
  }
}
