/** The transition system and the worker's methods agree: a job that nothing interrupts does exactly what `ProcessJob` does. */
module PipelineRefinement {
  import opened Outcomes
  import opened Protocol
  import opened JobQueue
  import opened PrintJobs
  import opened Pipeline
  import PrintWorker
  import TaskHistory

  ghost function RunFrom(lib: Library, s: State, steps: seq<Step>): State
    decreases |steps|
  {
    if steps == [] then s else RunFrom(lib, Next(lib, s, steps[0]), steps[1..])
  }

  /** Reporting one status, with the clocks and faults of the `n`-th broadcast. */
  function StatusSteps(env: PrintWorker.Environment, n: nat): seq<Step> {
    [Broadcast, Persist(env.eventId(n), env.reportTime(n), env.reportFault(n))]
  }

  function JobSteps(env: PrintWorker.Environment, n: nat, count: nat): seq<Step>
    decreases count
  {
    if count == 0 then [] else StatusSteps(env, n) + JobSteps(env, n + 1, count - 1)
  }

  /** The state after the current job's next status. */
  function AfterStatus(env: PrintWorker.Environment, s: State): State {
    var n := |s.bus|;
    AfterPersist(AfterBroadcast(s), env.eventId(n), env.reportTime(n), env.reportFault(n))
  }

  /** Broadcast and persist together are one emission. */
  lemma OneStatusIsOneEmission(env: PrintWorker.Environment, s: State, history: TaskHistory.Tables)
    requires s.worker.phase.Working? && !s.worker.phase.told && s.worker.phase.left != []
    ensures var f, s' := s.worker.phase, AfterStatus(env, s);
            var sinks := PrintWorker.Emit(env, PrintWorker.Sinks(s.bus, s.tables, history), f.job, f.left[0]);
            && s'.bus == sinks.log && s'.tables == sinks.reports
            && s'.worker.phase == Working(f.job, f.left[1..], false)
  {
  }

  function AfterStatuses(env: PrintWorker.Environment, s: State, count: nat): State
    decreases count
  {
    if count == 0 then s else AfterStatuses(env, AfterStatus(env, s), count - 1)
  }

  /** All statuses left, one after the other, are all emissions left. */
  lemma {:induction false} StatusesAreEmissions(env: PrintWorker.Environment, s: State, history: TaskHistory.Tables)
    requires s.worker.phase.Working? && !s.worker.phase.told
    ensures var f := s.worker.phase;
            var s' := AfterStatuses(env, s, |f.left|);
            var sinks := PrintWorker.EmitAll(env, PrintWorker.Sinks(s.bus, s.tables, history), f.job, f.left);
            && s'.bus == sinks.log && s'.tables == sinks.reports && s'.worker.phase == Working(f.job, [], false)
    decreases |s.worker.phase.left|
  {
    var f := s.worker.phase;
    if f.left != [] {
      OneStatusIsOneEmission(env, s, history);
      var sinks := PrintWorker.Emit(env, PrintWorker.Sinks(s.bus, s.tables, history), f.job, f.left[0]);
      StatusesAreEmissions(env, AfterStatus(env, s), sinks.history);
    }
  }

  lemma TwoSteps(lib: Library, s: State, a: Step, b: Step, rest: seq<Step>)
    ensures RunFrom(lib, s, [a, b] + rest) == RunFrom(lib, Next(lib, Next(lib, s, a), b), rest)
  {
    var steps := [a, b] + rest;
    assert steps[1..] == [b] + rest && ([b] + rest)[1..] == rest;
  }

  lemma TwoStepsAreOneStatus(lib: Library, env: PrintWorker.Environment, s: State)
    ensures var n := |s.bus|;
            Next(lib, Next(lib, s, Broadcast), Persist(env.eventId(n), env.reportTime(n), env.reportFault(n))) == AfterStatus(env, s)
  {
  }

  lemma StatusStepsRun(lib: Library, env: PrintWorker.Environment, s: State, rest: seq<Step>)
    ensures RunFrom(lib, s, StatusSteps(env, |s.bus|) + rest) == RunFrom(lib, AfterStatus(env, s), rest)
  {
    var n := |s.bus|;
    TwoSteps(lib, s, Broadcast, Persist(env.eventId(n), env.reportTime(n), env.reportFault(n)), rest);
    TwoStepsAreOneStatus(lib, env, s);
  }

  lemma OneStatusLess(env: PrintWorker.Environment, s: State)
    requires s.worker.phase.Working? && !s.worker.phase.told && s.worker.phase.left != []
    ensures var s' := AfterStatus(env, s);
            |s'.bus| == |s.bus| + 1 && s'.worker.phase == Working(s.worker.phase.job, s.worker.phase.left[1..], false)
  {
  }

  lemma {:induction false} StepsAreStatuses(lib: Library, env: PrintWorker.Environment, s: State, count: nat)
    requires s.worker.phase.Working? && !s.worker.phase.told && count <= |s.worker.phase.left|
    ensures RunFrom(lib, s, JobSteps(env, |s.bus|, count)) == AfterStatuses(env, s, count)
    decreases count
  {
    if count > 0 {
      StatusStepsRun(lib, env, s, JobSteps(env, |s.bus| + 1, count - 1));
      OneStatusLess(env, s);
      StepsAreStatuses(lib, env, AfterStatus(env, s), count - 1);
    }
  }

  /** Without interruption a job leaves broadcast and outbox as its whole emission does, and ends with nothing left to say. */
  lemma UninterruptedJobIsItsEmissions(lib: Library, env: PrintWorker.Environment, s: State, history: TaskHistory.Tables)
    requires s.worker.phase.Working? && !s.worker.phase.told
    ensures var f := s.worker.phase;
            var s' := RunFrom(lib, s, JobSteps(env, |s.bus|, |f.left|));
            var sinks := PrintWorker.EmitAll(env, PrintWorker.Sinks(s.bus, s.tables, history), f.job, f.left);
            && s'.bus == sinks.log && s'.tables == sinks.reports && s'.worker.phase == Working(f.job, [], false)
  {
    StepsAreStatuses(lib, env, s, |s.worker.phase.left|);
    StatusesAreEmissions(env, s, history);
  }
}
