/** One final report per remote job, over every run of polls, prints, deliveries and restarts. */
module PipelineReports {
  import opened Outcomes
  import opened Protocol
  import opened JobQueue
  import opened PrintJobs
  import opened JobTraces
  import opened RemoteStore
  import opened Pipeline
  import opened PipelineQueue
  import opened PipelineIntake
  import Polling
  import PrintWorker
  import QueueHistory
  import Reporting

  /** The reports stored for a job, in the order of their insertion. */
  function Reports(events: seq<StatusEvent>, jobId: string): seq<ReportStatus> {
    if events == [] then []
    else
      var last := events[|events| - 1];
      Reports(events[..|events| - 1], jobId) + if last.jobId == jobId then [last.status] else []
  }

  ghost predicate Subsequence(r: seq<ReportStatus>, e: seq<ReportStatus>) {
    || r == []
    || (e != [] && (Subsequence(r, e[..|e| - 1])
                    || (r[|r| - 1] == e[|e| - 1] && Subsequence(r[..|r| - 1], e[..|e| - 1]))))
  }

  /** `r` is what was stored of the reports `e`: all of them if no store failed. */
  ghost predicate Fits(r: seq<ReportStatus>, e: seq<ReportStatus>, clean: bool) {
    Subsequence(r, e) && (clean ==> r == e)
  }

  /** The beginning of acceptance and one result; with gaps if a store failed. */
  ghost predicate OneResult(r: seq<ReportStatus>, clean: bool) {
    || (Subsequence(r, [Accepted, Success]) && (clean ==> r <= [Accepted, Success]))
    || (Subsequence(r, [Accepted, ReportStatus.Failed]) && (clean ==> r <= [Accepted, ReportStatus.Failed]))
  }

  // -------------------------------------------------------------------------
  // Reading the table
  // -------------------------------------------------------------------------

  lemma {:induction false} RowsShowInReports(events: seq<StatusEvent>, i: nat)
    requires i < |events|
    ensures events[i].status in Reports(events, events[i].jobId)
  {
    if i < |events| - 1 {
      RowsShowInReports(events[..|events| - 1], i);
    }
  }

  lemma {:induction false} NoRowsNoReports(events: seq<StatusEvent>, jobId: string)
    requires forall i :: 0 <= i < |events| ==> events[i].jobId != jobId
    ensures Reports(events, jobId) == []
  {
    if events != [] { NoRowsNoReports(events[..|events| - 1], jobId); }
  }

  lemma {:induction false} SameRowsSameReports(a: seq<StatusEvent>, b: seq<StatusEvent>, jobId: string)
    requires |a| == |b| && forall i :: 0 <= i < |a| ==> a[i].jobId == b[i].jobId && a[i].status == b[i].status
    ensures Reports(a, jobId) == Reports(b, jobId)
  {
    if a != [] { SameRowsSameReports(a[..|a| - 1], b[..|b| - 1], jobId); }
  }

  lemma AppendedRow(events: seq<StatusEvent>, row: StatusEvent, jobId: string)
    ensures Reports(events + [row], jobId) == Reports(events, jobId) + if row.jobId == jobId then [row.status] else []
  {
    assert (events + [row])[..|events|] == events;
  }

  // -------------------------------------------------------------------------
  // What a job's trace still allows
  // -------------------------------------------------------------------------

  /** The reports due for the first `k` statuses of a trace. */
  ghost function DueReports(trace: seq<Emission>, k: int): seq<ReportStatus>
    requires 0 <= k <= |trace|
  {
    RemoteReports(Marks(trace[..k]))
  }

  lemma NextDue(trace: seq<Emission>, k: nat)
    requires k < |trace|
    ensures DueReports(trace, k + 1)
         == DueReports(trace, k) + if trace[k].reported && RemoteStatus(trace[k].status).Some?
                                   then [RemoteStatus(trace[k].status).value] else []
  {
    assert Marks(trace[..k + 1])[..k] == Marks(trace[..k]);
  }

  ghost predicate FullReport(r: seq<ReportStatus>) {
    r == [Accepted, Success] || r == [Accepted, ReportStatus.Failed]
  }

  /** All the reports of a trace are acceptance and one result. */
  ghost predicate ReportsOnce(trace: seq<Emission>) {
    FullReport(RemoteReports(Marks(trace)))
  }

  ghost predicate AllReportOnce(runs: seq<JobRun>) {
    forall i :: 0 <= i < |runs| ==> ReportsOnce(runs[i].trace)
  }

  lemma TraceReportsOnce(lib: Library, run: JobRun)
    requires IsTraceOf(lib, run)
    ensures ReportsOnce(run.trace)
  {
    var cfg, w :| run.trace == Trace(lib, run.job.job, cfg, w);
    TraceReports(lib, run.job.job, cfg, w);
  }

  lemma GenuineRunsReportOnce(lib: Library, runs: seq<JobRun>)
    requires Genuine(lib, runs)
    ensures AllReportOnce(runs)
  {
    forall i | 0 <= i < |runs| ensures ReportsOnce(runs[i].trace) {
      TraceReportsOnce(lib, runs[i]);
    }
  }

  /** What is due at any point begins an acceptance with one result. */
  lemma DueIsOneResult(trace: seq<Emission>, k: nat)
    requires ReportsOnce(trace) && k <= |trace|
    ensures DueReports(trace, k) <= [Accepted, Success] || DueReports(trace, k) <= [Accepted, ReportStatus.Failed]
  {
    DuePrefix(trace, k);
  }

  lemma DuePrefix(trace: seq<Emission>, k: nat)
    requires k <= |trace|
    ensures DueReports(trace, k) <= RemoteReports(Marks(trace))
  {
    var marks := Marks(trace);
    assert Marks(trace[..k]) == marks[..k] && marks == marks[..k] + marks[k..];
    RemoteReportsConcat(marks[..k], marks[k..]);
  }

  lemma {:induction false} SubsequenceMembers(r: seq<ReportStatus>, e: seq<ReportStatus>, x: ReportStatus)
    requires Subsequence(r, e) && x in r
    ensures x in e
    decreases |e|
  {
    var m := |e| - 1;
    if Subsequence(r, e[..m]) {
      SubsequenceMembers(r, e[..m], x);
    } else if x != r[|r| - 1] {
      SubsequenceMembers(r[..|r| - 1], e[..m], x);
    }
  }

  lemma SubsequenceGrows(r: seq<ReportStatus>, e: seq<ReportStatus>, x: ReportStatus)
    requires Subsequence(r, e)
    ensures Subsequence(r, e + [x]) && Subsequence(r + [x], e + [x])
  {
    assert (e + [x])[..|e|] == e && (r + [x])[..|r|] == r;
  }

  /** Whatever fits a beginning of one result is one. */
  lemma FittingIsOneResult(r: seq<ReportStatus>, e: seq<ReportStatus>, result: ReportStatus, clean: bool)
    requires Fits(r, e, clean) && e <= [Accepted, result] && (result == Success || result == ReportStatus.Failed)
    ensures OneResult(r, clean)
  {
    var full := [Accepted, result];
    if |e| == 0 {
      assert Subsequence([], full);
    } else if |e| == 1 {
      SubsequenceGrows(r, e, result);
      assert e + [result] == full;
    } else {
      assert e == full;
    }
  }

  // -------------------------------------------------------------------------
  // The invariant
  // -------------------------------------------------------------------------

  ghost predicate PendingUnreported(pending: seq<QueuedJob>, events: seq<StatusEvent>) {
    forall i :: 0 <= i < |pending| && pending[i].remote ==> Reports(events, pending[i].job.jobId) == []
  }

  /** The current job's stored reports are those of the statuses it is through with. */
  ghost predicate CurrentFits(f: Phase, runs: seq<JobRun>, events: seq<StatusEvent>, clean: bool) {
    f.Working? && f.job.remote && runs != [] && |f.left| <= |runs[|runs| - 1].trace| ==>
      var trace := runs[|runs| - 1].trace;
      Fits(Reports(events, f.job.job.jobId), DueReports(trace, |trace| - |f.left|), clean)
  }

  /** Every row belongs to a job that entered a queue, and no job has two results. */
  ghost predicate Consistent(events: seq<StatusEvent>, entered: seq<string>, clean: bool) {
    && KeysUnique(events)
    && (forall i :: 0 <= i < |events| ==> events[i].jobId in entered)
    && forall id :: OneResult(Reports(events, id), clean)
  }

  ghost predicate Reported(s: State) {
    && Consistent(s.tables.events, s.past.entered, s.past.clean)
    && PendingUnreported(s.queue.pending, s.tables.events)
    && CurrentFits(s.worker.phase, s.past.runs, s.tables.events, s.past.clean)
  }

  /** What the other invariants contribute. */
  ghost predicate Supported(lib: Library, s: State) {
    QueueLawful(lib, s) && SerialState(s) && AtMostOnce(s) && AllReportOnce(s.past.runs)
  }

  lemma AlwaysSupported(lib: Library, steps: seq<Step>)
    ensures Supported(lib, Run(lib, steps))
  {
    AlwaysQueueLawful(lib, steps);
    AlwaysSerial(lib, steps);
    GenuineRunsReportOnce(lib, Run(lib, steps).past.runs);
    AlwaysAtMostOnce(lib, steps);
  }

  lemma HandOverReported(lib: Library, s: State)
    requires Supported(lib, s) && Reported(s)
    ensures Reported(AfterHandOver(lib, s))
  {
    var s' := AfterHandOver(lib, s);
    if s'.poller.Waking? && s.poller.Taking? {
      var n := |s.queue.pending|;
      forall i | 0 <= i < |s'.queue.pending| && s'.queue.pending[i].remote
        ensures Reports(s.tables.events, s'.queue.pending[i].job.jobId) == []
      {
        if i >= n {
          NoRowsNoReports(s.tables.events, s.poller.newJobs[i - n].jobId);
        }
      }
    }
  }

  lemma SubmitReported(lib: Library, s: State, step: Step)
    requires Reported(s) && step.Submit?
    ensures Reported(Next(lib, s, step))
  {
    var s' := Next(lib, s, step);
    assert forall i :: |s.queue.pending| <= i < |s'.queue.pending| ==> !s'.queue.pending[i].remote;
  }

  lemma TakenReported(s: State, s': State, run: JobRun)
    requires Reported(s) && s.queue.pending != [] && run.job == s.queue.pending[0]
    requires s'.tables == s.tables && s'.past.entered == s.past.entered && s'.past.clean == s.past.clean
    requires s'.past.runs == s.past.runs + [run] && s'.queue.pending == s.queue.pending[1..]
    requires s'.worker.phase == Working(run.job, run.trace, false)
    ensures Reported(s')
  {
    assert run.trace[..0] == [] && Marks(run.trace[..0]) == [] && DueReports(run.trace, 0) == [];
  }

  lemma PopReported(lib: Library, s: State, cfg: Settings, w: World)
    requires Reported(s)
    ensures Reported(AfterPop(lib, s, cfg, w))
  {
    var s' := AfterPop(lib, s, cfg, w);
    if s.worker.phase.Popping? && s.queue.pending != [] {
      TakenReported(s, s', s'.past.runs[|s.past.runs|]);
    }
  }

  lemma DeliverReported(lib: Library, s: State, step: Step)
    requires Reported(s) && step.Deliver?
    ensures Reported(Next(lib, s, step))
  {
    var events, s' := s.tables.events, Next(lib, s, step);
    if step.row < |events| && events[step.row].delivery == Pending {
      var before := Reporting.Round(s.tables, Reporting.ReportOutcome(0, 0, 0), None);
      Reporting.AttemptChangesOneRow(before, step.row, step.answer, step.now, step.maxRetries);
      forall id ensures Reports(s'.tables.events, id) == Reports(events, id) {
        SameRowsSameReports(events, s'.tables.events, id);
      }
    }
  }

  function AfterStore(t: Tables, eventId: EventId, row: NewEvent, fault: bool): Tables {
    if fault then t else InsertEvent(t, eventId, row)
  }

  /** One more report that was not due before: it is appended, unless the store fails. */
  lemma StoredReport(t: Tables, eventId: EventId, row: NewEvent, fault: bool, due: seq<ReportStatus>, clean: bool)
    requires Fits(Reports(t.events, row.jobId), due, clean) && row.status !in due
    ensures var events := AfterStore(t, eventId, row, fault).events;
            && Fits(Reports(events, row.jobId), due + [row.status], clean && !fault && !KnownEventId(t, eventId))
            && (events == t.events || events == t.events + [FreshEvent(eventId, row)])
  {
    SubsequenceGrows(Reports(t.events, row.jobId), due, row.status);
    if row.status in Reports(t.events, row.jobId) {
      SubsequenceMembers(Reports(t.events, row.jobId), due, row.status);
      assert false;
    }
    NoStatusConflict(t.events, eventId, row);
    AppendedRow(t.events, FreshEvent(eventId, row), row.jobId);
  }

  lemma NoStatusConflict(events: seq<StatusEvent>, eventId: EventId, row: NewEvent)
    requires row.status !in Reports(events, row.jobId)
    ensures Conflicts(events, eventId, row) <==> exists i :: 0 <= i < |events| && events[i].eventId == eventId
  {
    forall i | 0 <= i < |events| ensures !(events[i].jobId == row.jobId && events[i].status == row.status) {
      RowsShowInReports(events, i);
    }
  }

  /** A new row of one job leaves the reports of every other job alone. */
  lemma StoreKeepsConsistent(t: Tables, eventId: EventId, row: NewEvent, fault: bool, entered: seq<string>, clean: bool, clean': bool)
    requires Consistent(t.events, entered, clean) && row.jobId in entered && (clean' ==> clean)
    requires OneResult(Reports(AfterStore(t, eventId, row, fault).events, row.jobId), clean')
    ensures var events := AfterStore(t, eventId, row, fault).events;
            && Consistent(events, entered, clean')
            && forall id :: id != row.jobId ==> Reports(events, id) == Reports(t.events, id)
  {
    var events := AfterStore(t, eventId, row, fault).events;
    InsertKeepsKeys(t, eventId, row);
    forall id | id != row.jobId ensures Reports(events, id) == Reports(t.events, id) && OneResult(Reports(events, id), clean') {
      AppendedRow(t.events, FreshEvent(eventId, row), id);
      assert OneResult(Reports(t.events, id), clean);
    }
  }

  /** The status the worker is about to have reported, and what is due with it. */
  lemma NextDueOfCurrent(s: State)
    requires SerialState(s) && AllReportOnce(s.past.runs) && s.worker.phase.Working? && s.worker.phase.left != []
    ensures var f, trace := s.worker.phase, s.past.runs[|s.past.runs| - 1].trace;
            var k, e := |trace| - |f.left|, f.left[0];
            && DueReports(trace, k + 1)
                == DueReports(trace, k) + (if e.reported && RemoteStatus(e.status).Some? then [RemoteStatus(e.status).value] else [])
            && (DueReports(trace, k + 1) <= [Accepted, Success] || DueReports(trace, k + 1) <= [Accepted, ReportStatus.Failed])
  {
    var f, run := s.worker.phase, s.past.runs[|s.past.runs| - 1];
    var k := |run.trace| - |f.left|;
    assert run.trace[k] == f.left[0];
    NextDue(run.trace, k);
    DueIsOneResult(run.trace, k + 1);
  }

  lemma NotDueTwice(due: seq<ReportStatus>, status: ReportStatus)
    requires due + [status] <= [Accepted, Success] || due + [status] <= [Accepted, ReportStatus.Failed]
    ensures status !in due
  {
    assert (due + [status])[|due|] == status;
    if |due| == 1 { assert (due + [status])[0] == due[0]; }
  }

  /** Storing what is newly due keeps the job's reports within one result. */
  lemma StoredIsOneResult(t: Tables, eventId: EventId, row: NewEvent, fault: bool, due: seq<ReportStatus>, clean: bool)
    requires Fits(Reports(t.events, row.jobId), due, clean)
    requires due + [row.status] <= [Accepted, Success] || due + [row.status] <= [Accepted, ReportStatus.Failed]
    ensures var r, clean' := Reports(AfterStore(t, eventId, row, fault).events, row.jobId), clean && !fault && !KnownEventId(t, eventId);
            Fits(r, due + [row.status], clean') && OneResult(r, clean')
  {
    NotDueTwice(due, row.status);
    StoredReport(t, eventId, row, fault, due, clean);
    FittingIsOneResult(Reports(AfterStore(t, eventId, row, fault).events, row.jobId), due + [row.status],
      if due + [row.status] <= [Accepted, Success] then Success else ReportStatus.Failed, clean && !fault && !KnownEventId(t, eventId));
  }

  /** The state after storing, put together: other jobs' reports are as they were, the current job's one further. */
  lemma StoredReported(s: State, s': State, jobId: string)
    requires Reported(s) && s.worker.phase.Working? && s.worker.phase.left != [] && s.worker.phase.job.job.jobId == jobId
    requires s.past.runs != [] && |s.worker.phase.left| <= |s.past.runs[|s.past.runs| - 1].trace|
    requires s'.queue == s.queue && s'.past.runs == s.past.runs && s'.past.entered == s.past.entered
    requires s'.worker.phase == Working(s.worker.phase.job, s.worker.phase.left[1..], false)
    requires Consistent(s'.tables.events, s.past.entered, s'.past.clean)
    requires forall id :: id != jobId ==> Reports(s'.tables.events, id) == Reports(s.tables.events, id)
    requires forall i :: 0 <= i < |s.queue.pending| ==> s.queue.pending[i].job.jobId != jobId
    requires var trace := s.past.runs[|s.past.runs| - 1].trace;
             Fits(Reports(s'.tables.events, jobId), DueReports(trace, |trace| - |s.worker.phase.left| + 1), s'.past.clean)
    ensures Reported(s')
  {
  }

  lemma PersistDueReported(lib: Library, s: State, eventId: EventId, at: Time, fault: bool)
    requires Supported(lib, s) && Reported(s)
    requires s.worker.phase.Working? && s.worker.phase.told && s.worker.phase.left != []
    requires PrintWorker.IsReported(s.worker.phase.job, s.worker.phase.left[0])
    ensures Reported(AfterPersist(s, eventId, at, fault))
  {
    var f, s' := s.worker.phase, AfterPersist(s, eventId, at, fault);
    var trace := s.past.runs[|s.past.runs| - 1].trace;
    var due := DueReports(trace, |trace| - |f.left|);
    var row := PrintWorker.ReportEvent(f.job, f.left[0], RemoteStatus(f.left[0].status).value, at);
    assert s'.tables == AfterStore(s.tables, eventId, row, fault) && s'.past.clean == (s.past.clean && !fault && !KnownEventId(s.tables, eventId));
    NextDueOfCurrent(s);
    StoredIsOneResult(s.tables, eventId, row, fault, due, s.past.clean);
    CurrentJobStandsApart(lib, s);
    StoreKeepsConsistent(s.tables, eventId, row, fault, s.past.entered, s.past.clean, s'.past.clean);
    StoredReported(s, s', row.jobId);
  }

  lemma PersistReported(lib: Library, s: State, eventId: EventId, at: Time, fault: bool)
    requires Supported(lib, s) && Reported(s)
    ensures Reported(AfterPersist(s, eventId, at, fault))
  {
    var f := s.worker.phase;
    if f.Working? && f.told && f.left != [] {
      if PrintWorker.IsReported(f.job, f.left[0]) {
        PersistDueReported(lib, s, eventId, at, fault);
      } else {
        NextDueOfCurrent(s);
        NothingDueReported(s, AfterPersist(s, eventId, at, fault));
      }
    }
  }

  lemma NothingDueReported(s: State, s': State)
    requires Reported(s) && s.worker.phase.Working? && s.worker.phase.left != []
    requires s.past.runs != [] && |s.worker.phase.left| <= |s.past.runs[|s.past.runs| - 1].trace|
    requires s'.queue == s.queue && s'.past == s.past && s'.tables == s.tables
    requires s'.worker.phase == Working(s.worker.phase.job, s.worker.phase.left[1..], false)
    requires s.worker.phase.job.remote ==>
               var trace := s.past.runs[|s.past.runs| - 1].trace;
               DueReports(trace, |trace| - |s.worker.phase.left| + 1) == DueReports(trace, |trace| - |s.worker.phase.left|)
    ensures Reported(s')
  {
  }

  /** The current job entered the queue, and no pending job shares its id. */
  lemma CurrentJobStandsApart(lib: Library, s: State)
    requires QueueLawful(lib, s) && SerialState(s) && AtMostOnce(s) && s.worker.phase.Working?
    ensures s.worker.phase.job.remote ==> s.worker.phase.job.job.jobId in s.past.entered
    ensures forall i :: 0 <= i < |s.queue.pending| ==> s.queue.pending[i].job.jobId != s.worker.phase.job.job.jobId
  {
    var all, m := Jobs(s.past.runs) + s.queue.pending, |s.past.runs|;
    assert all[m - 1] == s.worker.phase.job;
    assert forall i :: 0 <= i < |s.queue.pending| ==> all[m + i] == s.queue.pending[i];
  }

  lemma StepKeepsReported(lib: Library, s: State, step: Step)
    requires Supported(lib, s) && Reported(s)
    ensures Reported(Next(lib, s, step))
  {
    match step
    case Submit(_, _, _) => SubmitReported(lib, s, step);
    case HandOver => HandOverReported(lib, s);
    case Pop(cfg, w) => PopReported(lib, s, cfg, w);
    case Deliver(_, _, _, _) => DeliverReported(lib, s, step);
    case Persist(eventId, at, fault) => PersistReported(lib, s, eventId, at, fault);
    case _ => QuietReported(lib, s, step);
  }

  /** All other steps leave the reports, the pending jobs and the current job's progress as they are, or forget them. */
  lemma QuietReported(lib: Library, s: State, step: Step)
    requires Reported(s)
    requires !step.Submit? && !step.HandOver? && !step.Pop? && !step.Deliver? && !step.Persist?
    ensures Reported(Next(lib, s, step))
  {
    match step
    case Restart =>
    case Broadcast => SameLeftReported(s, AfterBroadcast(s));
    case FinishJob => SameLeftReported(s, AfterFinishJob(s));
    case _ => SideStepReported(lib, s, step);
  }

  lemma SideStepReported(lib: Library, s: State, step: Step)
    requires Reported(s) && !ChangesQueue(step) && !ChangesJob(step) && !step.Deliver?
    ensures Reported(Next(lib, s, step))
  {
    OnlyTheseChangeReports(lib, s, step);
    OnlyTheseChangeTheQueue(lib, s, step);
    OnlyTheseChangeTheJob(lib, s, step);
    SameProgressReported(s, Next(lib, s, step));
  }

  lemma SameLeftReported(s: State, s': State)
    requires Reported(s) && s'.tables == s.tables && s'.past == s.past && s'.queue == s.queue
    requires s'.worker.phase.Working? ==>
               s.worker.phase.Working? && s'.worker.phase.job == s.worker.phase.job && s'.worker.phase.left == s.worker.phase.left
    ensures Reported(s')
  {
  }

  lemma SameProgressReported(s: State, s': State)
    requires Reported(s) && s'.tables.events == s.tables.events && s'.queue == s.queue
    requires s'.past.runs == s.past.runs && s'.past.entered == s.past.entered && s'.past.clean == s.past.clean
    requires s'.worker.phase == s.worker.phase || !s'.worker.phase.Working?
    ensures Reported(s')
  {
  }

  lemma {:induction false} AlwaysReported(lib: Library, steps: seq<Step>)
    ensures Reported(Run(lib, steps))
  {
    if steps != [] {
      AlwaysReported(lib, steps[..|steps| - 1]);
      AlwaysSupported(lib, steps[..|steps| - 1]);
      StepKeepsReported(lib, Run(lib, steps[..|steps| - 1]), steps[|steps| - 1]);
    } else {
      assert Subsequence([], [Accepted, Success]);
    }
  }

  /** Over every run, restarts included: success and failure are never both reported for one job. */
  lemma NeverBothResults(lib: Library, steps: seq<Step>, i: nat, j: nat)
    requires i < |Run(lib, steps).tables.events| && j < |Run(lib, steps).tables.events|
    requires Run(lib, steps).tables.events[i].jobId == Run(lib, steps).tables.events[j].jobId
    ensures !(Run(lib, steps).tables.events[i].status.Success? && Run(lib, steps).tables.events[j].status.Failed?)
  {
    AlwaysReported(lib, steps);
    var events := Run(lib, steps).tables.events;
    RowsShowInReports(events, i);
    RowsShowInReports(events, j);
    var r := Reports(events, events[i].jobId);
    assert OneResult(r, Run(lib, steps).past.clean);
    if events[i].status.Success? && events[j].status.Failed? {
      if Subsequence(r, [Accepted, Success]) {
        SubsequenceMembers(r, [Accepted, Success], events[j].status);
      } else {
        SubsequenceMembers(r, [Accepted, ReportStatus.Failed], events[i].status);
      }
    }
  }

  /** When the worker has said everything about a remote job, its report is complete. */
  lemma FinishedJobFits(f: Phase, runs: seq<JobRun>, events: seq<StatusEvent>)
    requires f.Working? && f.left == [] && f.job.remote
    requires runs != [] && ReportsOnce(runs[|runs| - 1].trace) && CurrentFits(f, runs, events, true)
    ensures FullReport(Reports(events, f.job.job.jobId))
  {
    var trace := runs[|runs| - 1].trace;
    assert trace[..|trace|] == trace;
  }
}
