/** The queue inside the running system: it obeys every law of its own history, and the worker is serial. */
module PipelineQueue {
  import opened Outcomes
  import opened Protocol
  import opened JobQueue
  import opened Activity
  import opened PrintJobs
  import PrintWorker
  import opened Pipeline
  import JobTraces
  import QueueHistory
  import Polling
  import Server

  function Jobs(runs: seq<JobRun>): (jobs: seq<QueuedJob>)
    ensures |jobs| == |runs| && forall i :: 0 <= i < |jobs| ==> jobs[i] == runs[i].job
  {
    seq(|runs|, i requires 0 <= i < |runs| => runs[i].job)
  }

  /** What the queue handed out and still holds, since the process started. */
  function History(queue: Contents, runs: seq<JobRun>): QueueHistory.Trace {
    QueueHistory.Trace(queue, Jobs(runs), Jobs(runs) + queue.pending)
  }

  ghost predicate QueueLawful(lib: Library, s: State) {
    QueueHistory.Lawful(lib, History(s.queue, s.past.runs))
  }

  lemma AcceptLawful(lib: Library, queue: Contents, runs: seq<JobRun>, s: Submission)
    requires QueueHistory.Lawful(lib, History(queue, runs))
    ensures QueueHistory.Lawful(lib, History(Accept(lib, queue, s), runs))
  {
    var t := History(queue, runs);
    QueueHistory.PerformLawful(lib, t, QueueHistory.Submit(s));
    var added := if Refusal(lib, queue, s).Some? then [] else Entries(lib, s);
    assert (Jobs(runs) + queue.pending) + added == Jobs(runs) + (queue.pending + added);
    assert queue.pending + [] == queue.pending;
  }

  lemma PopMovesTheFirst(pending: seq<QueuedJob>, runs: seq<JobRun>, run: JobRun)
    requires pending != [] && run.job == pending[0]
    ensures Jobs(runs + [run]) == Jobs(runs) + [run.job]
    ensures Jobs(runs + [run]) + pending[1..] == Jobs(runs) + pending
  {
    assert pending == [run.job] + pending[1..];
    assert Jobs(runs + [run]) == Jobs(runs) + [run.job];
  }

  lemma PopLawful(lib: Library, queue: Contents, runs: seq<JobRun>, run: JobRun)
    requires QueueHistory.Lawful(lib, History(queue, runs))
    requires queue.pending != [] && run.job == queue.pending[0]
    ensures QueueHistory.Lawful(lib, History(queue.(pending := queue.pending[1..]), runs + [run]))
  {
    QueueHistory.PerformLawful(lib, History(queue, runs), QueueHistory.Pop);
    PopMovesTheFirst(queue.pending, runs, run);
  }

  lemma SubmitLawful(lib: Library, s: State, id: nat, limits: Server.Limits, m: Server.ClientMessage)
    requires QueueLawful(lib, s)
    ensures QueueLawful(lib, AfterSubmit(lib, s, id, limits, m))
  {
    if id in s.connections && s.connections[id].duty.Ready? {
      var screened := Server.Screen(lib, limits, s.connections[id].header, m);
      if screened.Ok? { AcceptLawful(lib, s.queue, s.past.runs, screened.value); }
    }
  }

  lemma HandOverLawful(lib: Library, s: State)
    requires QueueLawful(lib, s)
    ensures QueueLawful(lib, AfterHandOver(lib, s))
  {
    if s.poller.Taking? {
      AcceptLawful(lib, s.queue, s.past.runs, Polling.Handover(s.poller.task, s.poller.newJobs));
    }
  }

  lemma TakenLawful(lib: Library, s: State, cfg: Settings, w: World)
    requires QueueLawful(lib, s)
    ensures QueueLawful(lib, AfterPop(lib, s, cfg, w))
  {
    if s.worker.phase.Popping? && s.queue.pending != [] {
      PopLawful(lib, s.queue, s.past.runs, AfterPop(lib, s, cfg, w).past.runs[|s.past.runs|]);
    }
  }

  lemma QueueStepKeepsLawful(lib: Library, s: State, step: Step)
    requires QueueLawful(lib, s) && ChangesQueue(step)
    ensures QueueLawful(lib, Next(lib, s, step))
  {
    match step
    case Submit(id, limits, m) => SubmitLawful(lib, s, id, limits, m);
    case HandOver => HandOverLawful(lib, s);
    case Pop(cfg, w) => TakenLawful(lib, s, cfg, w);
    case Restart =>
  }

  lemma StepKeepsQueueLawful(lib: Library, s: State, step: Step)
    requires QueueLawful(lib, s)
    ensures QueueLawful(lib, Next(lib, s, step))
  {
    if ChangesQueue(step) {
      QueueStepKeepsLawful(lib, s, step);
    } else {
      OnlyTheseChangeTheQueue(lib, s, step);
      SameQueueLawful(lib, s, Next(lib, s, step));
    }
  }

  lemma SameQueueLawful(lib: Library, s: State, s': State)
    requires QueueLawful(lib, s) && s'.queue == s.queue && s'.past.runs == s.past.runs
    ensures QueueLawful(lib, s')
  {
  }

  /** In every run the queue stays first-in first-out with distinct ids, contiguous batches and its own origins. */
  lemma {:induction false} AlwaysQueueLawful(lib: Library, steps: seq<Step>)
    ensures QueueLawful(lib, Run(lib, steps))
  {
    if steps != [] {
      AlwaysQueueLawful(lib, steps[..|steps| - 1]);
      StepKeepsQueueLawful(lib, Run(lib, steps[..|steps| - 1]), steps[|steps| - 1]);
    }
  }

  // -------------------------------------------------------------------------
  // The broadcast is the whole reports of the jobs taken, one job after the other
  // -------------------------------------------------------------------------

  function LogOf(job: QueuedJob, es: seq<Emission>): (log: seq<LogEntry>)
    ensures |log| == |es| && forall i :: 0 <= i < |log| ==> log[i] == PrintWorker.EntryFor(job, es[i])
  {
    seq(|es|, i requires 0 <= i < |es| => PrintWorker.EntryFor(job, es[i]))
  }

  function LogOfRuns(runs: seq<JobRun>): seq<LogEntry> {
    if runs == [] then []
    else LogOfRuns(runs[..|runs| - 1]) + LogOf(runs[|runs| - 1].job, runs[|runs| - 1].trace)
  }

  ghost predicate IsTraceOf(lib: Library, run: JobRun) {
    exists cfg, w :: run.trace == Trace(lib, run.job.job, cfg, w)
  }

  /** How many statuses of the current job are already broadcast. */
  function Spoken(f: Phase, trace: seq<Emission>): int
    requires f.Working?
  {
    |trace| - |f.left| + if f.told then 1 else 0
  }

  ghost predicate Serial(f: Phase, runs: seq<JobRun>, bus: seq<LogEntry>) {
    if f.Working? then
      && runs != []
      && var n, last := |runs| - 1, runs[|runs| - 1];
         && last.job == f.job && |f.left| <= |last.trace| && f.left == last.trace[|last.trace| - |f.left|..]
         && (f.told ==> f.left != [])
         && bus == LogOfRuns(runs[..n]) + LogOf(f.job, last.trace[..Spoken(f, last.trace)])
    else bus == LogOfRuns(runs)
  }

  ghost predicate SerialState(s: State) {
    Serial(s.worker.phase, s.past.runs, s.bus)
  }

  /** The worker has said all it has to say about the `i`-th job it took in this process. */
  ghost predicate Through(f: Phase, runs: seq<JobRun>, i: nat) {
    i < |runs| && (i < |runs| - 1 || !f.Working? || f.left == [])
  }

  /** Every job taken reports what a job of its kind reports. */
  ghost predicate Genuine(lib: Library, runs: seq<JobRun>) {
    forall i :: 0 <= i < |runs| ==> IsTraceOf(lib, runs[i])
  }

  /** A job just taken has said nothing yet. */
  lemma FreshRunSerial(runs: seq<JobRun>, run: JobRun, bus: seq<LogEntry>)
    requires bus == LogOfRuns(runs)
    ensures Serial(Working(run.job, run.trace, false), runs + [run], bus)
  {
    assert (runs + [run])[..|runs|] == runs;
    assert run.trace[..0] == [] && LogOf(run.job, []) == [];
  }

  lemma TakenSerial(s: State, s': State, run: JobRun)
    requires SerialState(s) && !s.worker.phase.Working?
    requires s'.bus == s.bus && s'.past.runs == s.past.runs + [run] && s'.worker.phase == Working(run.job, run.trace, false)
    ensures SerialState(s')
  {
    FreshRunSerial(s.past.runs, run, s.bus);
  }

  lemma PopSerial(lib: Library, s: State, cfg: Settings, w: World)
    requires SerialState(s) && s.worker.phase.Popping? && s.queue.pending != []
    ensures SerialState(AfterPop(lib, s, cfg, w))
  {
    var s' := AfterPop(lib, s, cfg, w);
    TakenSerial(s, s', s'.past.runs[|s.past.runs|]);
  }

  lemma BroadcastSerial(s: State)
    requires SerialState(s)
    ensures SerialState(AfterBroadcast(s))
  {
    var f := s.worker.phase;
    if f.Working? && !f.told && f.left != [] {
      var last := s.past.runs[|s.past.runs| - 1];
      var k := |last.trace| - |f.left|;
      assert last.trace[k] == f.left[0] && last.trace[..k + 1] == last.trace[..k] + [f.left[0]];
      assert LogOf(f.job, last.trace[..k + 1]) == LogOf(f.job, last.trace[..k]) + [PrintWorker.EntryFor(f.job, f.left[0])];
    }
  }

  lemma FinishSerial(s: State)
    requires SerialState(s)
    ensures SerialState(AfterFinishJob(s))
  {
    var f := s.worker.phase;
    if f.Working? && !f.told && f.left == [] {
      var last := s.past.runs[|s.past.runs| - 1];
      assert last.trace[..|last.trace|] == last.trace;
    }
  }

  lemma JobStepKeepsSerial(lib: Library, s: State, step: Step)
    requires SerialState(s) && ChangesJob(step)
    ensures SerialState(Next(lib, s, step))
  {
    match step
    case Pop(cfg, w) => if s.worker.phase.Popping? && s.queue.pending != [] { PopSerial(lib, s, cfg, w); }
    case Broadcast => BroadcastSerial(s);
    case FinishJob => FinishSerial(s);
    case Persist(eventId, at, fault) => PersistSerial(s, eventId, at, fault);
    case Restart =>
  }

  lemma StepKeepsSerial(lib: Library, s: State, step: Step)
    requires SerialState(s)
    ensures SerialState(Next(lib, s, step))
  {
    if ChangesJob(step) {
      JobStepKeepsSerial(lib, s, step);
    } else {
      OnlyTheseChangeTheJob(lib, s, step);
      SameJobSerial(s, Next(lib, s, step));
    }
  }

  lemma SameJobSerial(s: State, s': State)
    requires SerialState(s) && s'.bus == s.bus && s'.past.runs == s.past.runs
    requires s'.worker.phase == s.worker.phase || (!s'.worker.phase.Working? && !s.worker.phase.Working?)
    ensures SerialState(s')
  {
  }

  lemma PersistSerial(s: State, eventId: nat, at: int, fault: bool)
    requires SerialState(s)
    ensures SerialState(AfterPersist(s, eventId, at, fault))
  {
  }

  lemma PopGenuine(lib: Library, s: State, cfg: Settings, w: World)
    requires Genuine(lib, s.past.runs)
    ensures Genuine(lib, AfterPop(lib, s, cfg, w).past.runs)
  {
    var s' := AfterPop(lib, s, cfg, w);
    if s'.past.runs != s.past.runs {
      assert IsTraceOf(lib, s'.past.runs[|s.past.runs|]);
    }
  }

  lemma StepKeepsGenuine(lib: Library, s: State, step: Step)
    requires Genuine(lib, s.past.runs)
    ensures Genuine(lib, Next(lib, s, step).past.runs)
  {
    match step
    case Pop(cfg, w) => PopGenuine(lib, s, cfg, w);
    case Restart =>
    case Submit(_, _, _) =>
    case HandOver =>
    case _ => OnlyTheseChangeTheQueue(lib, s, step);
  }

  /**
   * In every run the broadcast is the concatenation of the complete reports of the jobs taken, in the order they
   * were taken, then the beginning of the current job's: a taken job runs to its end before the next one starts.
   */
  lemma {:induction false} AlwaysSerial(lib: Library, steps: seq<Step>)
    ensures SerialState(Run(lib, steps)) && Genuine(lib, Run(lib, steps).past.runs)
  {
    if steps != [] {
      AlwaysSerial(lib, steps[..|steps| - 1]);
      StepKeepsSerial(lib, Run(lib, steps[..|steps| - 1]), steps[|steps| - 1]);
      StepKeepsGenuine(lib, Run(lib, steps[..|steps| - 1]), steps[|steps| - 1]);
    }
  }

  // -------------------------------------------------------------------------
  // Wake-ups and cancellation
  // -------------------------------------------------------------------------

  /** Some producer has put jobs into the queue and not yet notified the worker. */
  ghost predicate NotifierOnItsWay(s: State) {
    || s.poller.Waking?
    || exists id :: id in s.connections && s.connections[id].duty.Announcing?
  }

  ghost predicate NoLostWakeUp(s: State) {
    && (s.worker.phase.Parked? ==> !s.worker.permit)
    && ((s.worker.phase.AboutToWait? || s.worker.phase.Parked?) && s.queue.pending != [] ==>
          s.worker.permit || NotifierOnItsWay(s))
  }

  /** A connection other than `id` keeps its duty. */
  lemma OthersKeepTheirDuty(s: State, s': State, id: nat)
    requires NotifierOnItsWay(s) && s'.poller == s.poller
    requires forall other :: other in s.connections && other != id ==> other in s'.connections && s'.connections[other] == s.connections[other]
    requires id in s.connections && s.connections[id].duty.Announcing? ==> id in s'.connections && s'.connections[id].duty.Announcing?
    ensures NotifierOnItsWay(s')
  {
    if !s.poller.Waking? {
      var other :| other in s.connections && s.connections[other].duty.Announcing?;
      assert other in s'.connections && s'.connections[other].duty.Announcing?;
    }
  }

  lemma OneConnectionWakes(s: State, s': State, id: nat)
    requires NoLostWakeUp(s) && s'.poller == s.poller && s'.worker == s.worker && s'.queue.pending == s.queue.pending
    requires forall other :: other in s.connections && other != id ==> other in s'.connections && s'.connections[other] == s.connections[other]
    requires id in s.connections && s.connections[id].duty.Announcing? ==> id in s'.connections && s'.connections[id].duty.Announcing?
    ensures NoLostWakeUp(s')
  {
    if NotifierOnItsWay(s) { OthersKeepTheirDuty(s, s', id); }
  }

  lemma SubmitWakes(lib: Library, s: State, id: nat, limits: Server.Limits, m: Server.ClientMessage)
    requires NoLostWakeUp(s)
    ensures NoLostWakeUp(AfterSubmit(lib, s, id, limits, m))
  {
    var s' := AfterSubmit(lib, s, id, limits, m);
    if id in s.connections && s.connections[id].duty.Ready? {
      if s'.connections[id].duty.Announcing? {
        assert NotifierOnItsWay(s');
      } else {
        OneConnectionWakes(s, s', id);
      }
    }
  }

  lemma HandOverWakes(lib: Library, s: State)
    requires NoLostWakeUp(s)
    ensures NoLostWakeUp(AfterHandOver(lib, s))
  {
    if NotifierOnItsWay(s) { SameNotifiers(s, AfterHandOver(lib, s)); }
  }

  lemma ConnectionStepWakes(lib: Library, s: State, step: Step)
    requires NoLostWakeUp(s) && ChangesConnections(step)
    ensures NoLostWakeUp(Next(lib, s, step))
  {
    match step
    case Submit(id, limits, m) => SubmitWakes(lib, s, id, limits, m);
    case Connect(id, header) => OneConnectionWakes(s, AfterConnect(s, id, header), id);
    case Answer(id) => OneConnectionWakes(s, AfterAnswer(s, id), id);
    case Receive(id) => OneConnectionWakes(s, AfterReceive(s, id), id);
    case Lag(id) => OneConnectionWakes(s, AfterLag(s, id), id);
    case Disconnect(id) => OneConnectionWakes(s, AfterDisconnect(s, id), id);
    case Announce(_) =>
    case Restart =>
  }

  lemma StepKeepsWakeUps(lib: Library, s: State, step: Step)
    requires NoLostWakeUp(s)
    ensures NoLostWakeUp(Next(lib, s, step))
  {
    if ChangesConnections(step) {
      ConnectionStepWakes(lib, s, step);
    } else {
      match step
      case HandOver => HandOverWakes(lib, s);
      case AnnouncePoll =>
      case _ => QuietKeepsWakeUps(lib, s, step);
    }
  }

  lemma SameNotifiers(s: State, s': State)
    requires NotifierOnItsWay(s) && s'.connections == s.connections && (s.poller.Waking? ==> s'.poller.Waking?)
    ensures NotifierOnItsWay(s')
  {
    if !s.poller.Waking? {
      var id :| id in s.connections && s.connections[id].duty.Announcing?;
      assert id in s'.connections && s'.connections[id].duty.Announcing?;
    }
  }

  /** No other step touches producers; the worker goes to wait only beside an empty queue, and parks only without a permit. */
  lemma QuietKeepsWakeUps(lib: Library, s: State, step: Step)
    requires NoLostWakeUp(s) && !ChangesConnections(step) && !step.HandOver? && !step.AnnouncePoll?
    ensures NoLostWakeUp(Next(lib, s, step))
  {
    var s' := Next(lib, s, step);
    OnlyTheseChangeConnections(lib, s, step);
    WaitingWorker(lib, s, step);
    if NotifierOnItsWay(s) { SameNotifiers(s, s'); }
  }

  lemma WaitingWorker(lib: Library, s: State, step: Step)
    requires NoLostWakeUp(s) && !ChangesConnections(step) && !step.HandOver? && !step.AnnouncePoll?
    ensures var s' := Next(lib, s, step);
            && (s'.worker.phase.Parked? ==> !s'.worker.permit)
            && (s.poller.Waking? ==> s'.poller.Waking?)
            && ((s'.worker.phase.AboutToWait? || s'.worker.phase.Parked?) && s'.queue.pending != [] ==>
                  && (s.worker.phase.AboutToWait? || s.worker.phase.Parked?) && s.queue.pending != []
                  && s'.worker.permit == s.worker.permit)
  {
  }

  /** In every run the worker waits beside pending jobs only while a wake-up is stored or on its way. */
  lemma {:induction false} AlwaysWoken(lib: Library, steps: seq<Step>)
    ensures NoLostWakeUp(Run(lib, steps))
  {
    if steps != [] {
      AlwaysWoken(lib, steps[..|steps| - 1]);
      StepKeepsWakeUps(lib, Run(lib, steps[..|steps| - 1]), steps[|steps| - 1]);
    }
  }

  /** Jobs taken after cancellation: at most one, and only by a worker that had already checked. */
  ghost predicate StopsSoon(w: Worker, late: nat) {
    && (!w.cancelled ==> late == 0)
    && late <= 1
    && (late == 1 ==> w.phase.Working? || w.phase.Checking? || w.phase.Stopped?)
    && (w.phase.Stopped? ==> w.cancelled)
  }

  lemma {:induction false} AlwaysStopsSoon(lib: Library, steps: seq<Step>)
    ensures StopsSoon(Run(lib, steps).worker, Run(lib, steps).past.late)
  {
    if steps != [] {
      AlwaysStopsSoon(lib, steps[..|steps| - 1]);
      StepKeepsStopsSoon(lib, Run(lib, steps[..|steps| - 1]), steps[|steps| - 1]);
    }
  }

  lemma StepKeepsStopsSoon(lib: Library, s: State, step: Step)
    requires StopsSoon(s.worker, s.past.late)
    ensures StopsSoon(Next(lib, s, step).worker, Next(lib, s, step).past.late)
  {
  }

  /** Once the worker has stopped, every job it took is reported to its end, and at most one was taken too late. */
  lemma StoppedMeansFinished(lib: Library, steps: seq<Step>)
    requires Run(lib, steps).worker.phase.Stopped?
    ensures var s := Run(lib, steps);
            s.worker.cancelled && s.past.late <= 1 && s.bus == LogOfRuns(s.past.runs)
  {
    AlwaysStopsSoon(lib, steps);
    AlwaysSerial(lib, steps);
  }
}
