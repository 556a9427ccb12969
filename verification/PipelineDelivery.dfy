/** What a client receives of each job: the serial broadcast and the faithful connections, put together. */
module PipelineDelivery {
  import opened Outcomes
  import opened Protocol
  import opened JobQueue
  import opened Activity
  import opened PrintJobs
  import opened Pipeline
  import opened PipelineQueue
  import opened PipelineConnections
  import PrintWorker
  import Query
  import QueueHistory

  ghost predicate DistinctJobs(runs: seq<JobRun>) {
    forall i, j :: 0 <= i < j < |runs| ==> runs[i].job.job.jobId != runs[j].job.job.jobId
  }

  /** The jobs taken have distinct ids, as the queue admits no id twice. */
  lemma LawfulRunsAreDistinct(lib: Library, queue: Contents, runs: seq<JobRun>)
    requires QueueHistory.Lawful(lib, History(queue, runs))
    ensures DistinctJobs(runs)
  {
    var all := Jobs(runs) + queue.pending;
    forall i, j | 0 <= i < j < |runs| ensures runs[i].job.job.jobId != runs[j].job.job.jobId {
      assert all[i] == runs[i].job && all[j] == runs[j].job;
    }
  }

  function OfJob(log: seq<LogEntry>, id: string): seq<LogEntry> {
    Query.Where(log, (e: LogEntry) => e.jobId == id)
  }

  lemma LogIsOfItsJob(job: QueuedJob, es: seq<Emission>, id: string)
    ensures OfJob(LogOf(job, es), id) == if job.job.jobId == id then LogOf(job, es) else []
  {
    var log, mine := LogOf(job, es), (e: LogEntry) => e.jobId == id;
    if job.job.jobId == id {
      Query.WhereAll(log, mine);
    } else {
      Query.WhereNone(log, mine);
    }
  }

  lemma {:induction false} OthersSayNothing(runs: seq<JobRun>, id: string)
    requires forall i :: 0 <= i < |runs| ==> runs[i].job.job.jobId != id
    ensures OfJob(LogOfRuns(runs), id) == []
  {
    if runs != [] {
      var n := |runs| - 1;
      OthersSayNothing(runs[..n], id);
      LogIsOfItsJob(runs[n].job, runs[n].trace, id);
      Query.WhereConcat(LogOfRuns(runs[..n]), LogOf(runs[n].job, runs[n].trace), (e: LogEntry) => e.jobId == id);
    }
  }

  /** In the reports of a series of distinct jobs, the entries of one job are all it has to say. */
  lemma {:induction false} JobsPartOfTheLog(runs: seq<JobRun>, i: nat)
    requires i < |runs| && DistinctJobs(runs)
    ensures OfJob(LogOfRuns(runs), runs[i].job.job.jobId) == LogOf(runs[i].job, runs[i].trace)
  {
    var n, id := |runs| - 1, runs[i].job.job.jobId;
    if i < n {
      JobsPartOfTheLog(runs[..n], i);
    } else {
      OthersSayNothing(runs[..n], id);
    }
    LogIsOfItsJob(runs[n].job, runs[n].trace, id);
    Query.WhereConcat(LogOfRuns(runs[..n]), LogOf(runs[n].job, runs[n].trace), (e: LogEntry) => e.jobId == id);
  }

  lemma JobsPartOfTheBroadcast(f: Phase, runs: seq<JobRun>, bus: seq<LogEntry>, i: nat)
    requires Serial(f, runs, bus) && Through(f, runs, i) && DistinctJobs(runs)
    ensures OfJob(bus, runs[i].job.job.jobId) == LogOf(runs[i].job, runs[i].trace)
  {
    var n, id := |runs| - 1, runs[i].job.job.jobId;
    if f.Working? && f.left != [] {
      var said := LogOf(f.job, runs[n].trace[..Spoken(f, runs[n].trace)]);
      JobsPartOfTheLog(runs[..n], i);
      LogIsOfItsJob(f.job, runs[n].trace[..Spoken(f, runs[n].trace)], id);
      Query.WhereConcat(LogOfRuns(runs[..n]), said, (e: LogEntry) => e.jobId == id);
    } else {
      if f.Working? { assert runs[n].trace[..|runs[n].trace|] == runs[n].trace; }
      JobsPartOfTheLog(runs, i);
    }
  }

  /** Reading one job out of what several jobs say. */
  lemma {:induction false} OneOfMany(log: seq<LogEntry>, ids: set<string>, id: string)
    requires id in ids
    ensures OfJob(Query.Where(log, (e: LogEntry) => e.jobId in ids), id) == OfJob(log, id)
  {
    if log != [] { OneOfMany(log[1..], ids, id); }
  }

  /** It lost nothing and has read the whole broadcast. */
  ghost predicate UpToDate(s: State, connection: nat) {
    connection in s.connections && NeverLagged(s.connections[connection]) && s.connections[connection].cursor == |s.bus|
  }

  /**
   * Over every run: a connection that never lagged and has read the whole broadcast was sent, of each of its jobs that
   * is through, the complete reports of that job in their order, and nothing else under its id.
   */
  lemma UpToDateClientHasEverything(lib: Library, steps: seq<Step>, connection: nat, i: nat)
    requires var s := Run(lib, steps);
             && UpToDate(s, connection) && Through(s.worker.phase, s.past.runs, i)
             && s.past.runs[i].job.job.jobId in PipelineConnections.Submitted(s.connections[connection])
    ensures var s := Run(lib, steps);
            var run := s.past.runs[i];
            OfJob(StatusesSent(s.connections[connection].sent), run.job.job.jobId) == LogOf(run.job, run.trace)
  {
    var s := Run(lib, steps);
    ConnectionsHearTheirOwnJobs(lib, steps, connection);
    AlwaysQueueLawful(lib, steps);
    AlwaysSerial(lib, steps);
    LawfulRunsAreDistinct(lib, s.queue, s.past.runs);
    JobsPartOfTheBroadcast(s.worker.phase, s.past.runs, s.bus, i);
    assert s.bus[..|s.bus|] == s.bus;
    OneOfMany(s.bus, PipelineConnections.Submitted(s.connections[connection]), s.past.runs[i].job.job.jobId);
  }
}
