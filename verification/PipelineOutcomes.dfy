/** What becomes of every remote job that entered the queue: it waits, is reported in full, or a restart cut it short. */
module PipelineOutcomes {
  import opened Outcomes
  import opened Protocol
  import opened JobQueue
  import opened PrintJobs
  import opened RemoteStore
  import opened Pipeline
  import opened PipelineQueue
  import opened PipelineIntake
  import opened PipelineReports
  import opened PipelineLosses
  import Polling
  import PrintWorker
  import QueueHistory
  import Reporting
  import Server

  /** Acceptance and one result are stored for the job. */
  ghost predicate Full(s: State, id: string) {
    FullReport(Reports(s.tables.events, id))
  }

  // -------------------------------------------------------------------------
  // A full report is final
  // -------------------------------------------------------------------------

  lemma {:induction false} SubsequenceIsNoLonger(r: seq<ReportStatus>, e: seq<ReportStatus>)
    requires Subsequence(r, e)
    ensures |r| <= |e|
    decreases |e|
  {
    if r != [] {
      if Subsequence(r, e[..|e| - 1]) {
        SubsequenceIsNoLonger(r, e[..|e| - 1]);
      } else {
        SubsequenceIsNoLonger(r[..|r| - 1], e[..|e| - 1]);
      }
    }
  }

  lemma AtMostTwoReports(r: seq<ReportStatus>, clean: bool)
    requires OneResult(r, clean)
    ensures |r| <= 2
  {
    if Subsequence(r, [Accepted, Success]) {
      SubsequenceIsNoLonger(r, [Accepted, Success]);
    } else {
      SubsequenceIsNoLonger(r, [Accepted, ReportStatus.Failed]);
    }
  }

  /** A persist changes the reports of the current job only, and only by appending one. */
  lemma PersistAppends(s: State, eventId: EventId, at: Time, fault: bool, id: string)
    ensures var f, before := s.worker.phase, Reports(s.tables.events, id);
            var after := Reports(AfterPersist(s, eventId, at, fault).tables.events, id);
            after == before
            || (f.Working? && f.job.remote && f.job.job.jobId == id && |after| == |before| + 1)
  {
    var f, s' := s.worker.phase, AfterPersist(s, eventId, at, fault);
    if s'.tables.events != s.tables.events {
      var row := FreshEvent(eventId, PrintWorker.ReportEvent(f.job, f.left[0], RemoteStatus(f.left[0].status).value, at));
      assert s'.tables.events == s.tables.events + [row];
      AppendedRow(s.tables.events, row, id);
    }
  }

  /** Nothing is ever added to a full report. */
  lemma FullStays(lib: Library, s: State, step: Step, id: string)
    requires Supported(lib, s) && Reported(s) && Full(s, id)
    ensures Reports(Next(lib, s, step).tables.events, id) == Reports(s.tables.events, id)
  {
    match step
    case Persist(eventId, at, fault) => PersistKeepsFull(lib, s, eventId, at, fault, id);
    case Deliver(row, answer, now, maxRetries) => DeliverKeepsReports(s, row, answer, now, maxRetries, id);
    case _ => OnlyTheseChangeReports(lib, s, step);
  }

  /** A third report would be one too many. */
  lemma PersistKeepsFull(lib: Library, s: State, eventId: EventId, at: Time, fault: bool, id: string)
    requires Supported(lib, s) && Reported(s) && Full(s, id)
    ensures Reports(AfterPersist(s, eventId, at, fault).tables.events, id) == Reports(s.tables.events, id)
  {
    var s' := AfterPersist(s, eventId, at, fault);
    PersistReported(lib, s, eventId, at, fault);
    PersistAppends(s, eventId, at, fault, id);
    AtMostTwoReports(Reports(s'.tables.events, id), s'.past.clean);
  }

  lemma DeliverKeepsReports(s: State, row: nat, answer: Reporting.Answer, now: Time, maxRetries: nat, id: string)
    requires KeysUnique(s.tables.events)
    ensures Reports(AfterDeliver(s, row, answer, now, maxRetries).tables.events, id) == Reports(s.tables.events, id)
  {
    var events, s' := s.tables.events, AfterDeliver(s, row, answer, now, maxRetries);
    if row < |events| && events[row].delivery == Pending {
      Reporting.AttemptChangesOneRow(Reporting.Round(s.tables, Reporting.ReportOutcome(0, 0, 0), None), row, answer, now, maxRetries);
      SameRowsSameReports(events, s'.tables.events, id);
    }
  }

  /** Over every continuation, restarts included, a full report stays as it is. */
  lemma {:induction false} FullReportIsFinal(lib: Library, steps: seq<Step>, n: nat, id: string)
    requires n <= |steps| && Full(Run(lib, steps[..n]), id)
    ensures Reports(Run(lib, steps).tables.events, id) == Reports(Run(lib, steps[..n]).tables.events, id)
  {
    if n == |steps| {
      assert steps[..n] == steps;
    } else {
      var shorter := steps[..|steps| - 1];
      assert shorter[..n] == steps[..n];
      FullReportIsFinal(lib, shorter, n, id);
      AlwaysSupported(lib, shorter);
      AlwaysReported(lib, shorter);
      FullStays(lib, Run(lib, shorter), steps[|steps| - 1], id);
    }
  }

  // -------------------------------------------------------------------------
  // Every job that is through is reported
  // -------------------------------------------------------------------------

  /** The jobs of this process that the worker is through with. */
  function DoneCount(s: State): int {
    |s.past.runs| - if s.worker.phase.Working? then 1 else 0
  }

  ghost predicate DoneReported(s: State) {
    s.past.clean ==> forall i :: 0 <= i < |s.past.runs| && i < DoneCount(s) && s.past.runs[i].job.remote ==> Full(s, s.past.runs[i].job.job.jobId)
  }

  lemma AllFullStay(lib: Library, s: State, step: Step)
    requires Supported(lib, s) && Reported(s)
    ensures forall id :: Full(s, id) ==> Full(Next(lib, s, step), id)
  {
    forall id | Full(s, id) ensures Full(Next(lib, s, step), id) {
      FullStays(lib, s, step, id);
    }
  }

  lemma DoneStaysReported(s: State, s': State)
    requires DoneReported(s) && (s'.past.clean ==> s.past.clean)
    requires s.past.runs <= s'.past.runs && DoneCount(s') <= DoneCount(s)
    requires forall id :: Full(s, id) ==> Full(s', id)
    ensures DoneReported(s')
  {
    assert forall i :: 0 <= i < |s.past.runs| ==> s'.past.runs[i] == s.past.runs[i];
  }

  lemma FinishedIsFull(lib: Library, s: State)
    requires Supported(lib, s) && Reported(s) && s.past.clean
    requires s.worker.phase.Working? && s.worker.phase.left == [] && s.worker.phase.job.remote
    ensures Full(s, s.worker.phase.job.job.jobId)
  {
    FinishedJobFits(s.worker.phase, s.past.runs, s.tables.events);
  }

  lemma FinishDoneReported(lib: Library, s: State)
    requires Supported(lib, s) && Reported(s) && DoneReported(s)
    ensures DoneReported(AfterFinishJob(s))
  {
    var f := s.worker.phase;
    if f.Working? && !f.told && f.left == [] {
      if s.past.clean && f.job.remote { FinishedIsFull(lib, s); }
      OneMoreDone(s, AfterFinishJob(s));
    }
  }

  /** The job in work is through as well, and reported in full if it has to be. */
  lemma OneMoreDone(s: State, s': State)
    requires DoneReported(s) && SerialState(s) && s.worker.phase.Working?
    requires s'.past == s.past && s'.tables == s.tables
    requires s.past.clean && s.worker.phase.job.remote ==> Full(s, s.worker.phase.job.job.jobId)
    ensures DoneReported(s')
  {
    assert s.past.runs[|s.past.runs| - 1].job == s.worker.phase.job;
  }

  /** How a step moves the count of jobs that are through. */
  lemma DoneCountStep(lib: Library, s: State, step: Step)
    requires SerialState(s) && !step.FinishJob? && !step.Restart?
    ensures var s' := Next(lib, s, step);
            && s.past.runs <= s'.past.runs && DoneCount(s') <= DoneCount(s) && (s'.past.clean ==> s.past.clean)
  {
    if !ChangesJob(step) { OnlyTheseChangeTheJob(lib, s, step); }
  }

  lemma RestartDoneReported(s: State)
    ensures DoneReported(AfterRestart(s))
  {
  }

  lemma OtherDoneReported(lib: Library, s: State, step: Step)
    requires Supported(lib, s) && Reported(s) && DoneReported(s) && !step.FinishJob? && !step.Restart?
    ensures DoneReported(Next(lib, s, step))
  {
    DoneCountStep(lib, s, step);
    AllFullStay(lib, s, step);
    DoneStaysReported(s, Next(lib, s, step));
  }

  lemma StepKeepsDoneReported(lib: Library, s: State, step: Step)
    requires Supported(lib, s) && Reported(s) && DoneReported(s)
    ensures DoneReported(Next(lib, s, step))
  {
    if step.FinishJob? {
      FinishDoneReported(lib, s);
    } else if step.Restart? {
      RestartDoneReported(s);
    } else {
      OtherDoneReported(lib, s, step);
    }
  }

  lemma {:induction false} AlwaysDoneReported(lib: Library, steps: seq<Step>)
    ensures DoneReported(Run(lib, steps))
  {
    if steps != [] {
      var shorter := steps[..|steps| - 1];
      AlwaysDoneReported(lib, shorter);
      AlwaysSupported(lib, shorter);
      AlwaysReported(lib, shorter);
      StepKeepsDoneReported(lib, Run(lib, shorter), steps[|steps| - 1]);
    }
  }

  /** In every run in which the store served, every remote job the worker is through with is reported in full. */
  lemma EveryDoneJobIsReported(lib: Library, steps: seq<Step>)
    ensures var s := Run(lib, steps);
            s.past.clean ==> forall i: nat :: Through(s.worker.phase, s.past.runs, i) && s.past.runs[i].job.remote ==> Full(s, s.past.runs[i].job.job.jobId)
  {
    AlwaysDoneReported(lib, steps);
    AlwaysSupported(lib, steps);
    AlwaysReported(lib, steps);
    if Run(lib, steps).past.clean { DoneOrSpoken(lib, Run(lib, steps)); }
  }

  lemma DoneOrSpoken(lib: Library, s: State)
    requires Supported(lib, s) && Reported(s) && DoneReported(s) && s.past.clean
    ensures forall i: nat :: Through(s.worker.phase, s.past.runs, i) && s.past.runs[i].job.remote ==> Full(s, s.past.runs[i].job.job.jobId)
  {
    var f := s.worker.phase;
    if f.Working? && f.left == [] && f.job.remote { FinishedIsFull(lib, s); }
  }

  // -------------------------------------------------------------------------
  // What becomes of a job that entered the queue
  // -------------------------------------------------------------------------

  ghost predicate IsPending(pending: seq<QueuedJob>, id: string) {
    exists i :: 0 <= i < |pending| && pending[i].remote && pending[i].job.jobId == id
  }

  ghost predicate InWork(f: Phase, id: string) {
    f.Working? && f.job.remote && f.job.job.jobId == id
  }

  /** The job waits in the queue as a remote job, or the worker has it. */
  ghost predicate Waiting(s: State, id: string) {
    IsPending(s.queue.pending, id) || InWork(s.worker.phase, id)
  }

  /** It entered a queue, is neither waiting nor in work, and has no full report. */
  ghost predicate CutShort(s: State, id: string) {
    id in s.past.entered && !Waiting(s, id) && !Full(s, id)
  }

  /** A restart forgets the job before it is reported in full. */
  ghost predicate Cuts(s: State, step: Step, id: string) {
    step.Restart? && Waiting(s, id) && !Full(s, id)
  }

  lemma WaitingHasEntered(s: State, id: string)
    requires AtMostOnce(s) && SerialState(s) && Waiting(s, id)
    ensures id in s.past.entered
  {
    var all, m := Jobs(s.past.runs) + s.queue.pending, |s.past.runs|;
    if IsPending(s.queue.pending, id) {
      var i :| 0 <= i < |s.queue.pending| && s.queue.pending[i].remote && s.queue.pending[i].job.jobId == id;
      assert all[m + i] == s.queue.pending[i];
    } else {
      assert all[m - 1] == s.worker.phase.job;
    }
  }

  lemma PendingOfConcat(a: seq<QueuedJob>, b: seq<QueuedJob>, id: string)
    ensures IsPending(a + b, id) <==> IsPending(a, id) || IsPending(b, id)
  {
    if IsPending(a, id) {
      var i :| 0 <= i < |a| && a[i].remote && a[i].job.jobId == id;
      assert (a + b)[i] == a[i];
    }
    if IsPending(b, id) {
      var i :| 0 <= i < |b| && b[i].remote && b[i].job.jobId == id;
      assert (a + b)[|a| + i] == b[i];
    }
  }

  /** A hand-over makes exactly the jobs of the hand pending, and they all enter. */
  lemma HandOverWaits(lib: Library, s: State, id: string)
    requires AtMostOnce(s)
    ensures var s' := AfterHandOver(lib, s);
            && (Waiting(s, id) ==> Waiting(s', id))
            && (id in s'.past.entered ==> id in s.past.entered || Waiting(s', id))
            && (id in s.past.entered && Waiting(s', id) ==> Waiting(s, id))
  {
    var s' := AfterHandOver(lib, s);
    if s'.poller.Waking? && s.poller.Taking? {
      var jobs, sub := s.poller.newJobs, Polling.Handover(s.poller.task, s.poller.newJobs);
      PendingOfConcat(s.queue.pending, Entries(lib, sub), id);
      HandedJobsArePending(lib, s, sub, id);
      assert s'.past.entered == s.past.entered + IdsOf(jobs);
    }
  }

  lemma HandedJobsArePending(lib: Library, s: State, sub: Submission, id: string)
    requires AtMostOnce(s) && s.poller.Taking? && sub == Polling.Handover(s.poller.task, s.poller.newJobs)
    ensures IsPending(Entries(lib, sub), id) <==> id in IdsOf(s.poller.newJobs)
    ensures id in IdsOf(s.poller.newJobs) ==> id !in s.past.entered
  {
    var jobs, entries := s.poller.newJobs, Entries(lib, sub);
    if id in IdsOf(jobs) {
      var i :| 0 <= i < |jobs| && IdsOf(jobs)[i] == id;
      assert entries[i].remote && entries[i].job.jobId == id;
    }
    if IsPending(entries, id) {
      var i :| 0 <= i < |entries| && entries[i].remote && entries[i].job.jobId == id;
      assert IdsOf(jobs)[i] == id;
    }
  }

  /** Clients add no remote job. */
  lemma SubmitWaits(lib: Library, s: State, connection: nat, limits: Server.Limits, m: Server.ClientMessage, id: string)
    ensures Waiting(AfterSubmit(lib, s, connection, limits, m), id) <==> Waiting(s, id)
  {
    var s' := AfterSubmit(lib, s, connection, limits, m);
    var added := s'.queue.pending[|s.queue.pending|..];
    assert s'.queue.pending == s.queue.pending + added;
    assert forall i :: 0 <= i < |added| ==> !added[i].remote;
    PendingOfConcat(s.queue.pending, added, id);
  }

  /** Taking a job moves it from the queue to the worker. */
  lemma PopWaits(lib: Library, s: State, cfg: Settings, w: World, id: string)
    ensures Waiting(AfterPop(lib, s, cfg, w), id) <==> Waiting(s, id)
  {
    var pending := s.queue.pending;
    if s.worker.phase.Popping? && pending != [] {
      assert pending == [pending[0]] + pending[1..];
      PendingOfConcat([pending[0]], pending[1..], id);
      assert IsPending([pending[0]], id) <==> pending[0].remote && pending[0].job.jobId == id by {
        if pending[0].remote && pending[0].job.jobId == id { assert [pending[0]][0] == pending[0]; }
      }
    }
  }

  /** The worker lets go of a job only when everything is said. */
  lemma FinishWaits(s: State, id: string)
    ensures Waiting(AfterFinishJob(s), id) ==> Waiting(s, id)
    ensures Waiting(s, id) && !Waiting(AfterFinishJob(s), id) ==> InWork(s.worker.phase, id) && s.worker.phase.left == []
  {
  }

  lemma SideStepWaits(lib: Library, s: State, step: Step, id: string)
    requires !ChangesQueue(step) && !step.FinishJob?
    ensures Waiting(Next(lib, s, step), id) <==> Waiting(s, id)
  {
    OnlyTheseChangeTheQueue(lib, s, step);
    if !ChangesJob(step) { OnlyTheseChangeTheJob(lib, s, step); }
  }

  lemma EnteredStep(lib: Library, s: State, step: Step, id: string)
    requires !step.HandOver?
    ensures Next(lib, s, step).past.entered == s.past.entered
  {
  }

  /** Only a restart and the end of a job make a waiting job wait no more. */
  lemma StaysWaiting(lib: Library, s: State, step: Step, id: string)
    requires AtMostOnce(s) && Waiting(s, id) && !step.Restart? && !step.FinishJob?
    ensures Waiting(Next(lib, s, step), id)
  {
    if ChangesQueue(step) {
      QueueStepStaysWaiting(lib, s, step, id);
    } else {
      SideStepWaits(lib, s, step, id);
    }
  }

  lemma QueueStepStaysWaiting(lib: Library, s: State, step: Step, id: string)
    requires AtMostOnce(s) && Waiting(s, id) && ChangesQueue(step) && !step.Restart?
    ensures Waiting(Next(lib, s, step), id)
  {
    match step
    case HandOver => HandOverWaits(lib, s, id);
    case Submit(connection, limits, m) => SubmitWaits(lib, s, connection, limits, m, id);
    case Pop(cfg, w) => PopWaits(lib, s, cfg, w, id);
  }

  /** Without a restart, what entered waits until it is reported in full. */
  lemma WaitsUntilFull(lib: Library, s: State, step: Step, id: string)
    requires Supported(lib, s) && Reported(s) && s.past.clean && !step.Restart?
    requires Waiting(s, id) && !Waiting(Next(lib, s, step), id)
    ensures Full(s, id)
  {
    if step.FinishJob? {
      FinishWaits(s, id);
      FinishedIsFull(lib, s);
    } else {
      StaysWaiting(lib, s, step, id);
    }
  }

  /** A job cut short never waits again and gets no more reports. */
  lemma CutStaysCut(lib: Library, s: State, step: Step, id: string)
    requires Supported(lib, s) && Reported(s) && CutShort(s, id)
    ensures CutShort(Next(lib, s, step), id)
  {
    CutNeverWaits(lib, s, step, id);
    match step
    case Persist(eventId, at, fault) => PersistAppends(s, eventId, at, fault, id);
    case Deliver(row, answer, now, maxRetries) => DeliverKeepsReports(s, row, answer, now, maxRetries, id);
    case _ => OnlyTheseChangeReports(lib, s, step);
  }

  lemma CutNeverWaits(lib: Library, s: State, step: Step, id: string)
    requires AtMostOnce(s) && id in s.past.entered && !Waiting(s, id)
    ensures id in Next(lib, s, step).past.entered && !Waiting(Next(lib, s, step), id)
  {
    match step
    case HandOver => HandOverWaits(lib, s, id);
    case Submit(connection, limits, m) => SubmitWaits(lib, s, connection, limits, m, id);
    case Pop(cfg, w) => PopWaits(lib, s, cfg, w, id);
    case FinishJob => FinishWaits(s, id);
    case Restart =>
    case _ =>
      SideStepWaits(lib, s, step, id);
      EnteredStep(lib, s, step, id);
  }

  lemma RestartCuts(lib: Library, s: State, id: string)
    requires Supported(lib, s) && Cuts(s, Restart, id)
    ensures CutShort(AfterRestart(s), id)
  {
    WaitingHasEntered(s, id);
  }

  /** While the store serves, nothing but such a restart cuts a job short. */
  lemma OnlyRestartsCut(lib: Library, s: State, step: Step, id: string)
    requires Supported(lib, s) && Reported(s) && s.past.clean
    requires CutShort(Next(lib, s, step), id) && !CutShort(s, id)
    ensures Cuts(s, step, id)
  {
    if step.HandOver? {
      HandOverWaits(lib, s, id);
    } else {
      EnteredStep(lib, s, step, id);
    }
    if Full(s, id) {
      FullStays(lib, s, step, id);
    } else if !step.Restart? {
      WaitsUntilFull(lib, s, step, id);
    }
  }

  /** After a step a job is cut short if it was before or the step cut it; while the store serves, only then. */
  lemma CutAfterStep(lib: Library, s: State, step: Step, id: string)
    requires Supported(lib, s) && Reported(s)
    ensures CutShort(s, id) || Cuts(s, step, id) ==> CutShort(Next(lib, s, step), id)
    ensures s.past.clean && CutShort(Next(lib, s, step), id) ==> CutShort(s, id) || Cuts(s, step, id)
  {
    if CutShort(s, id) {
      CutStaysCut(lib, s, step, id);
    } else if Cuts(s, step, id) {
      RestartCuts(lib, s, id);
    } else if s.past.clean && CutShort(Next(lib, s, step), id) {
      OnlyRestartsCut(lib, s, step, id);
    }
  }

  /** Some restart of the run cut the job. */
  ghost predicate WasCut(lib: Library, steps: seq<Step>, id: string) {
    exists i :: 0 <= i < |steps| && Cuts(Run(lib, steps[..i]), steps[i], id)
  }

  lemma CutOneMore(lib: Library, steps: seq<Step>, step: Step, id: string)
    ensures WasCut(lib, steps + [step], id) <==> WasCut(lib, steps, id) || Cuts(Run(lib, steps), step, id)
  {
    var longer := steps + [step];
    if WasCut(lib, longer, id) {
      var i :| 0 <= i < |longer| && Cuts(Run(lib, longer[..i]), longer[i], id);
      if i < |steps| {
        assert longer[..i] == steps[..i] && Cuts(Run(lib, steps[..i]), steps[i], id);
      } else {
        assert longer[..i] == steps;
      }
    }
    if WasCut(lib, steps, id) {
      var i :| 0 <= i < |steps| && Cuts(Run(lib, steps[..i]), steps[i], id);
      assert longer[..i] == steps[..i] && Cuts(Run(lib, longer[..i]), longer[i], id);
    }
    if Cuts(Run(lib, steps), step, id) {
      assert longer[..|steps|] == steps && Cuts(Run(lib, longer[..|steps|]), longer[|steps|], id);
    }
  }

  lemma CleanBefore(lib: Library, s: State, step: Step)
    requires Next(lib, s, step).past.clean
    ensures s.past.clean
  {
    if !step.Persist? && !step.Deliver? { OnlyTheseChangeReports(lib, s, step); }
  }

  /**
   * Over every run in which the store served, a job that entered the queue waits, is in work or is reported in full,
   * unless a restart cut it short, and exactly then it does not. A job so cut stays cut, whether or not the store serves.
   */
  lemma {:induction false} CutShortExactly(lib: Library, steps: seq<Step>, id: string)
    ensures WasCut(lib, steps, id) ==> CutShort(Run(lib, steps), id)
    ensures Run(lib, steps).past.clean ==> (CutShort(Run(lib, steps), id) <==> WasCut(lib, steps, id))
  {
    if steps != [] {
      var shorter, step := steps[..|steps| - 1], steps[|steps| - 1];
      assert steps == shorter + [step];
      CutShortExactly(lib, shorter, id);
      AlwaysSupported(lib, shorter);
      AlwaysReported(lib, shorter);
      CutAfterStep(lib, Run(lib, shorter), step, id);
      CutOneMore(lib, shorter, step, id);
      if Run(lib, steps).past.clean { CleanBefore(lib, Run(lib, shorter), step); }
    }
  }

  /** Nothing makes up for it later: not another poll, not another print. */
  lemma {:induction false} CutShortIsFinal(lib: Library, steps: seq<Step>, n: nat, id: string)
    requires n <= |steps| && CutShort(Run(lib, steps[..n]), id)
    ensures CutShort(Run(lib, steps), id)
  {
    if n == |steps| {
      assert steps[..n] == steps;
    } else {
      var shorter := steps[..|steps| - 1];
      assert shorter[..n] == steps[..n];
      CutShortIsFinal(lib, shorter, n, id);
      AlwaysSupported(lib, shorter);
      AlwaysReported(lib, shorter);
      CutStaysCut(lib, Run(lib, shorter), steps[|steps| - 1], id);
    }
  }

  // -------------------------------------------------------------------------
  // The fate of every recorded job
  // -------------------------------------------------------------------------

  /** On its way to a full report, or there. */
  ghost predicate TakenCareOf(s: State, id: string) {
    InHand(s, id) || Waiting(s, id) || Full(s, id)
  }

  /** What is recorded is taken care of, lost before the queue, or cut short after it: one of the three. */
  lemma OneOfThree(lib: Library, s: State, id: string)
    requires Supported(lib, s) && Reported(s) && id in s.tables.jobs
    ensures TakenCareOf(s, id) <==> !Lost(s, id) && !CutShort(s, id)
  {
    if Waiting(s, id) { WaitingHasEntered(s, id); }
    if id !in s.past.entered { NoRowsNoReports(s.tables.events, id); }
  }

  /**
   * Over every run in which the store served: a recorded job is in the poller's hand, pending, in work or reported in
   * full, unless a step dropped it before the queue or a restart cut it short after, and exactly then it is not.
   */
  lemma EveryRecordedJobIsAccountedFor(lib: Library, steps: seq<Step>, id: string)
    requires Run(lib, steps).past.clean && id in Run(lib, steps).tables.jobs
    ensures TakenCareOf(Run(lib, steps), id) <==> !Dropped(lib, steps, id) && !WasCut(lib, steps, id)
  {
    AlwaysSupported(lib, steps);
    AlwaysReported(lib, steps);
    OneOfThree(lib, Run(lib, steps), id);
    LostIffDropped(lib, steps, id);
    CutShortExactly(lib, steps, id);
  }

  // -------------------------------------------------------------------------
  // Both kinds of cut happen
  // -------------------------------------------------------------------------

  /** The only pending job is this one, from the server; nothing is reported of it yet, and every store has served. */
  ghost predicate JustQueued(s: State, id: string) {
    && s.worker == IDLE_WORKER && s.past.clean && Reports(s.tables.events, id) == []
    && |s.queue.pending| == 1 && s.queue.pending[0].remote && s.queue.pending[0].job.jobId == id
  }

  lemma HandsOver(lib: Library, s: State, requestId: string, job: PrintJob, maxMb: nat)
    requires JustRecorded(s, Polling.Print(requestId, job), job, EMPTY) && Acceptable(lib, job, maxMb)
    requires Reported(AfterHandOver(lib, s))
    ensures JustQueued(AfterHandOver(lib, s), job.jobId)
  {
    var sub, s' := Polling.Handover(s.poller.task, [job]), AfterHandOver(lib, s);
    QueueHistory.AcceptableHasSource(lib, job, maxMb);
    assert s.poller.left == [] by { assert |[job] + s.poller.left| == 1; }
    assert Refusal(lib, EMPTY, sub).None?;
    assert s'.queue.pending == Entries(lib, sub);
    var entry := s'.queue.pending[0];
    assert entry.remote && entry.job == job && Reports(s'.tables.events, entry.job.jobId) == [];
  }

  lemma JobIsQueued(lib: Library, requestId: string, job: PrintJob, maxMb: nat) returns (steps: seq<Step>)
    requires Acceptable(lib, job, maxMb)
    ensures JustQueued(Run(lib, steps), job.jobId)
  {
    var recorded := FirstJobIsRecorded(lib, [], Polling.Print(requestId, job), maxMb);
    steps := recorded + [HandOver];
    OneMore(lib, recorded, HandOver);
    AlwaysReported(lib, steps);
    HandsOver(lib, Run(lib, recorded), requestId, job, maxMb);
  }

  /** Every store has served, and a restart forgets the job before anything is reported of it. */
  ghost predicate CutUnreported(s: State, id: string) {
    s.past.clean && CutShort(s, id) && Reports(s.tables.events, id) == []
  }

  lemma RestartCutsUnreported(lib: Library, s: State, id: string)
    requires Supported(lib, s) && Waiting(s, id) && s.past.clean && Reports(s.tables.events, id) == []
    ensures CutUnreported(AfterRestart(s), id)
  {
    WaitingHasEntered(s, id);
  }

  lemma RestartFollows(lib: Library, steps: seq<Step>, id: string)
    requires var s := Run(lib, steps); Waiting(s, id) && s.past.clean && Reports(s.tables.events, id) == []
    ensures CutUnreported(Run(lib, steps + [Restart]), id)
  {
    AlwaysSupported(lib, steps);
    RestartCutsUnreported(lib, Run(lib, steps), id);
    EndsWithRestart(lib, steps);
  }

  lemma EndsWithRestart(lib: Library, steps: seq<Step>)
    ensures Run(lib, steps + [Restart]) == AfterRestart(Run(lib, steps))
  {
    OneMore(lib, steps, Restart);
  }

  /** Any acceptable job is cut short when the process ends while it is pending. */
  lemma CutWhilePending(lib: Library, requestId: string, job: PrintJob, maxMb: nat) returns (steps: seq<Step>)
    requires Acceptable(lib, job, maxMb)
    ensures CutUnreported(Run(lib, steps), job.jobId)
    ensures steps != [] && IsPending(Run(lib, steps[..|steps| - 1]).queue.pending, job.jobId)
  {
    var queued := JobIsQueued(lib, requestId, job, maxMb);
    RestartFollows(lib, queued, job.jobId);
    steps := queued + [Restart];
    assert steps[..|steps| - 1] == queued;
  }

  ghost predicate JustTaken(s: State, id: string) {
    s.past.clean && InWork(s.worker.phase, id) && Reports(s.tables.events, id) == []
  }

  lemma PopsTheJob(lib: Library, s: State, cfg: Settings, w: World, id: string)
    requires JustQueued(s, id)
    ensures JustTaken(AfterPop(lib, AfterCheck(s), cfg, w), id)
  {
  }

  lemma EndsWithCheck(lib: Library, steps: seq<Step>)
    ensures Run(lib, steps + [Check]) == AfterCheck(Run(lib, steps))
  {
    OneMore(lib, steps, Check);
  }

  lemma EndsWithPop(lib: Library, steps: seq<Step>, cfg: Settings, w: World)
    ensures Run(lib, steps + [Pop(cfg, w)]) == AfterPop(lib, Run(lib, steps), cfg, w)
  {
    OneMore(lib, steps, Pop(cfg, w));
  }

  /** Any acceptable job is cut short when the process ends while the worker has it, whatever it would have met. */
  lemma CutInWork(lib: Library, requestId: string, job: PrintJob, maxMb: nat, cfg: Settings, w: World) returns (steps: seq<Step>)
    requires Acceptable(lib, job, maxMb)
    ensures CutUnreported(Run(lib, steps), job.jobId)
    ensures steps != [] && InWork(Run(lib, steps[..|steps| - 1]).worker.phase, job.jobId)
  {
    var queued := JobIsQueued(lib, requestId, job, maxMb);
    var taken := queued + [Check] + [Pop(cfg, w)];
    PopsTheJob(lib, Run(lib, queued), cfg, w, job.jobId);
    EndsWithCheck(lib, queued);
    EndsWithPop(lib, queued + [Check], cfg, w);
    RestartFollows(lib, taken, job.jobId);
    steps := taken + [Restart];
    assert steps[..|steps| - 1] == taken;
  }
}
