/** A pending job gets its turn: no step moves the worker away from it, and some step always moves it closer. */
module PipelineProgress {
  import opened Outcomes
  import opened Protocol
  import opened JobQueue
  import opened Disk
  import opened PrintJobs
  import opened Pipeline
  import opened PipelineQueue
  import Download
  import Office

  /** Worker steps left until the next pop. */
  function Distance(f: Phase): nat {
    match f
    case Stopped => 0
    case Popping => 1
    case Checking => 2
    case Parked => 3
    case AboutToWait => 4
    case Working(_, left, told) => if told && left != [] then 2 + 2 * |left| else 3 + 2 * |left|
  }

  ghost predicate Taken(s: State, job: QueuedJob) {
    s.worker.phase.Working? && s.worker.phase.job == job && s.past.runs != [] && s.past.runs[|s.past.runs| - 1].job == job
  }

  /** The job stays first in line, and the worker is at most so far from it. */
  ghost predicate FirstInLine(s: State, job: QueuedJob, distance: nat) {
    && s.queue.pending != [] && s.queue.pending[0] == job
    && !s.worker.cancelled && Distance(s.worker.phase) <= distance
  }

  /** Whoever steps, the first pending job is taken, or stays first with the worker no farther away. */
  lemma NoStepDelaysTheWorker(lib: Library, s: State, step: Step)
    requires s.queue.pending != [] && !s.worker.cancelled && !step.Cancel? && !step.Restart?
    ensures var s' := Next(lib, s, step);
            || Taken(s', s.queue.pending[0])
            || FirstInLine(s', s.queue.pending[0], Distance(s.worker.phase))
  {
  }

  /** The answers of a world in which nothing goes wrong. */
  const PLAIN_WORLD: World := World("s", Download.NoAnswer, NotWritten(None), Ok(None),
    Office.Script(true, true, true, Wrote(0), Ok(""), {}, None, true), Ok(None), Wrote(0), Ok(()), Wrote(0), "h",
    NotRendered("", None), Spooled(None))

  /** The step brings the worker closer to the first pending job, or takes it. */
  ghost predicate Advances(lib: Library, s: State, step: Step)
    requires s.queue.pending != []
  {
    && !step.Cancel? && !step.Restart?
    && var s' := Next(lib, s, step);
       || Taken(s', s.queue.pending[0])
       || (Distance(s.worker.phase) > 0 && FirstInLine(s', s.queue.pending[0], Distance(s.worker.phase) - 1))
  }

  lemma BusyWorkerCanStep(lib: Library, s: State) returns (step: Step)
    requires SerialState(s) && s.queue.pending != [] && !s.worker.cancelled && s.worker.phase.Working?
    ensures Advances(lib, s, step)
  {
    var f := s.worker.phase;
    step := if f.told then Persist(0, 0, true) else if f.left == [] then FinishJob else Broadcast;
  }

  lemma ParkedWorkerIsWoken(lib: Library, s: State) returns (step: Step)
    requires NoLostWakeUp(s) && s.queue.pending != [] && !s.worker.cancelled && s.worker.phase.Parked?
    ensures Advances(lib, s, step)
  {
    if s.poller.Waking? {
      step := AnnouncePoll;
    } else {
      var id :| id in s.connections && s.connections[id].duty.Announcing?;
      step := Announce(id);
    }
  }

  lemma FreeWorkerCanStep(lib: Library, s: State) returns (step: Step)
    requires s.queue.pending != [] && !s.worker.cancelled
    requires s.worker.phase.Checking? || s.worker.phase.Popping? || s.worker.phase.AboutToWait?
    ensures Advances(lib, s, step)
  {
    step := if s.worker.phase.Checking? then Check
            else if s.worker.phase.Popping? then Pop(Settings(None, None, 1, 1), PLAIN_WORLD) else Wait(false);
  }

  /** In every state that runs reach, somebody can bring the worker closer to the first pending job. */
  lemma SomebodyCanStep(lib: Library, s: State) returns (step: Step)
    requires NoLostWakeUp(s) && StopsSoon(s.worker, s.past.late) && SerialState(s)
    requires s.queue.pending != [] && !s.worker.cancelled
    ensures Advances(lib, s, step)
  {
    match s.worker.phase
    case Working(_, _, _) => step := BusyWorkerCanStep(lib, s);
    case Parked => step := ParkedWorkerIsWoken(lib, s);
    case _ => step := FreeWorkerCanStep(lib, s);
  }

  /** From every reachable state with jobs pending and no cancellation, the run can go on until the first one is taken. */
  lemma {:induction false} PendingJobIsTaken(lib: Library, steps: seq<Step>) returns (more: seq<Step>)
    requires Run(lib, steps).queue.pending != [] && !Run(lib, steps).worker.cancelled
    ensures steps <= more && |more| <= |steps| + Distance(Run(lib, steps).worker.phase)
    ensures Taken(Run(lib, more), Run(lib, steps).queue.pending[0])
    decreases Distance(Run(lib, steps).worker.phase)
  {
    var s := Run(lib, steps);
    AlwaysWoken(lib, steps);
    AlwaysStopsSoon(lib, steps);
    AlwaysSerial(lib, steps);
    var step := SomebodyCanStep(lib, s);
    var longer := steps + [step];
    assert longer[..|steps|] == steps && Run(lib, longer) == Next(lib, s, step);
    if Taken(Run(lib, longer), s.queue.pending[0]) {
      assert Distance(s.worker.phase) > 0;
      more := longer;
    } else {
      more := PendingJobIsTaken(lib, longer);
    }
  }
}
