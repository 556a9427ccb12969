/** The in-memory print queue with its protection against repeated jobs and batches. */
module JobQueue {
  import opened Outcomes
  import opened Protocol

  datatype QueuedJob = QueuedJob(
    requestId: string,
    batchId: Option<string>,
    job: PrintJob,
    localOrigin: Option<string>,
    remote: bool)

  datatype QueueError = DuplicateJobId | DuplicateBatchId | InvalidMessage

  /** What the queue holds, as a value. */
  datatype Contents = Contents(pending: seq<QueuedJob>, seenJobs: set<string>, seenBatches: set<string>)

  const EMPTY: Contents := Contents([], {}, {})

  /** One submission: a single job (no batch id) or a whole batch. */
  datatype Submission = Submission(
    requestId: string,
    batchId: Option<string>,
    jobs: seq<PrintJob>,
    localOrigin: Option<string>,
    remote: bool)

  // -------------------------------------------------------------------------
  // The two helpers on a job
  // -------------------------------------------------------------------------

  /** Keeps the connection's local origin only for a job whose file URL has exactly that origin. */
  function LocalOriginForJob(lib: Library, job: PrintJob, origin: Option<string>): Option<string> {
    if job.fileUrl.None? || origin.None? then None
    else
      match HtmlPage(lib, job.fileUrl.value)
      case None => None
      case Some(url) => if url.origin == Tuple(origin.value) then origin else None
  }

  /** Only HTML jobs are checked: they need a non-empty, loadable page address. */
  predicate HtmlSourceOk(lib: Library, job: PrintJob) {
    job.format == Html ==>
      NonEmpty(job.fileUrl).Some? && HtmlPage(lib, job.fileUrl.value).Some?
  }

  // -------------------------------------------------------------------------
  // Specification of accepting a submission
  // -------------------------------------------------------------------------

  function JobIds(jobs: seq<PrintJob>): (ids: set<string>) {
    set i | 0 <= i < |jobs| :: jobs[i].jobId
  }

  ghost predicate DistinctIds(jobs: seq<PrintJob>) {
    forall i, j :: 0 <= i < j < |jobs| ==> jobs[i].jobId != jobs[j].jobId
  }

  /** The entries a submission adds, in order. */
  function Entries(lib: Library, s: Submission): (entries: seq<QueuedJob>)
    ensures |entries| == |s.jobs|
  {
    seq(|s.jobs|, i requires 0 <= i < |s.jobs| =>
      QueuedJob(s.requestId, s.batchId, s.jobs[i], LocalOriginForJob(lib, s.jobs[i], s.localOrigin), s.remote))
  }

  /** Why a submission is refused: page addresses first, then the batch id, then the job ids. */
  ghost function Refusal(lib: Library, c: Contents, s: Submission): Option<QueueError> {
    if exists i :: 0 <= i < |s.jobs| && !HtmlSourceOk(lib, s.jobs[i]) then Some(InvalidMessage)
    else if s.batchId.Some? && s.batchId.value in c.seenBatches then Some(DuplicateBatchId)
    else if !DistinctIds(s.jobs) || JobIds(s.jobs) * c.seenJobs != {} then Some(DuplicateJobId)
    else None
  }

  function BatchIds(s: Submission): set<string> {
    if s.batchId.Some? then {s.batchId.value} else {}
  }

  /** The queue after a submission: all of its jobs at the end, or nothing at all. */
  ghost function Accept(lib: Library, c: Contents, s: Submission): Contents {
    if Refusal(lib, c, s).Some? then c
    else Contents(c.pending + Entries(lib, s), c.seenJobs + JobIds(s.jobs), c.seenBatches + BatchIds(s))
  }

  /** The queue class: every method is proved against the functions above. */
  class QueueState {
    var pending: seq<QueuedJob>
    var seenJobIds: set<string>
    var seenBatchIds: set<string>

    ghost function Snapshot(): Contents
      reads this
    {
      Contents(pending, seenJobIds, seenBatchIds)
    }

    constructor ()
      ensures Snapshot() == EMPTY
    {
      pending, seenJobIds, seenBatchIds := [], {}, {};
    }

    method AcceptJob(lib: Library, requestId: string, job: PrintJob) returns (error: Option<QueueError>)
      modifies this
      ensures var s := Submission(requestId, None, [job], None, false);
              error == Refusal(lib, old(Snapshot()), s) && Snapshot() == Accept(lib, old(Snapshot()), s)
    {
      error := AcceptQueuedJob(lib, QueuedJob(requestId, None, job, None, false), None);
    }

    method AcceptRemoteJob(lib: Library, requestId: string, job: PrintJob) returns (error: Option<QueueError>)
      modifies this
      ensures var s := Submission(requestId, None, [job], None, true);
              error == Refusal(lib, old(Snapshot()), s) && Snapshot() == Accept(lib, old(Snapshot()), s)
    {
      error := AcceptQueuedJob(lib, QueuedJob(requestId, None, job, None, true), None);
    }

    method AcceptJobWithLocalOrigin(lib: Library, requestId: string, job: PrintJob, localOrigin: Option<string>)
      returns (error: Option<QueueError>)
      modifies this
      ensures var s := Submission(requestId, None, [job], localOrigin, false);
              error == Refusal(lib, old(Snapshot()), s) && Snapshot() == Accept(lib, old(Snapshot()), s)
    {
      var entry := QueuedJob(requestId, None, job, LocalOriginForJob(lib, job, localOrigin), false);
      error := AcceptQueuedJob(lib, entry, localOrigin);
    }

    /** Accepts one prepared entry; `given` is the origin its `localOrigin` was derived from. */
    method AcceptQueuedJob(lib: Library, entry: QueuedJob, ghost given: Option<string>)
      returns (error: Option<QueueError>)
      requires entry.batchId.None? && entry.localOrigin == LocalOriginForJob(lib, entry.job, given)
      modifies this
      ensures var s := Submission(entry.requestId, None, [entry.job], given, entry.remote);
              error == Refusal(lib, old(Snapshot()), s) && Snapshot() == Accept(lib, old(Snapshot()), s)
    {
      ghost var s := Submission(entry.requestId, None, [entry.job], given, entry.remote);
      assert s.jobs[0] == entry.job;
      assert JobIds(s.jobs) == {entry.job.jobId};
      if !HtmlSourceOk(lib, entry.job) {
        return Some(InvalidMessage);
      }
      if entry.job.jobId in seenJobIds {
        assert entry.job.jobId in JobIds(s.jobs) * seenJobIds;
        return Some(DuplicateJobId);
      }
      assert JobIds(s.jobs) * seenJobIds == {};
      assert Entries(lib, s) == [entry];
      seenJobIds := seenJobIds + {entry.job.jobId};
      pending := pending + [entry];
      return None;
    }

    method AcceptBatchWithLocalOrigin(lib: Library, requestId: string, batchId: string, jobs: seq<PrintJob>,
                                      remote: bool, localOrigin: Option<string>)
      returns (error: Option<QueueError>)
      modifies this
      ensures var s := Submission(requestId, Some(batchId), jobs, localOrigin, remote);
              error == Refusal(lib, old(Snapshot()), s) && Snapshot() == Accept(lib, old(Snapshot()), s)
    {
      ghost var s := Submission(requestId, Some(batchId), jobs, localOrigin, remote);
      for i := 0 to |jobs|
        invariant Snapshot() == old(Snapshot())
        invariant forall k :: 0 <= k < i ==> HtmlSourceOk(lib, jobs[k])
      {
        if !HtmlSourceOk(lib, jobs[i]) {
          return Some(InvalidMessage);
        }
      }
      if batchId in seenBatchIds {
        return Some(DuplicateBatchId);
      }

      var batchJobIds := {};
      for i := 0 to |jobs|
        invariant Snapshot() == old(Snapshot())
        invariant batchJobIds == JobIds(jobs[..i])
        invariant DistinctIds(jobs[..i]) && JobIds(jobs[..i]) * seenJobIds == {}
      {
        var id := jobs[i].jobId;
        if id in seenJobIds || id in batchJobIds {
          if id in batchJobIds {
            var k :| 0 <= k < i && jobs[..i][k].jobId == id;
            assert jobs[k].jobId == jobs[i].jobId && !DistinctIds(jobs);
          } else {
            assert id in JobIds(jobs) * seenJobIds;
          }
          return Some(DuplicateJobId);
        }
        batchJobIds := batchJobIds + {id};
        JobIdsStep(jobs, i);
      }
      assert jobs[..|jobs|] == jobs && Refusal(lib, old(Snapshot()), s).None?;

      seenBatchIds := seenBatchIds + {batchId};
      assert jobs[..0] == [] && Entries(lib, s)[..0] == [];
      for i := 0 to |jobs|
        invariant seenBatchIds == old(seenBatchIds) + {batchId}
        invariant pending == old(pending) + Entries(lib, s)[..i]
        invariant seenJobIds == old(seenJobIds) + JobIds(jobs[..i])
      {
        seenJobIds := seenJobIds + {jobs[i].jobId};
        var entry := QueuedJob(requestId, Some(batchId), jobs[i], LocalOriginForJob(lib, jobs[i], localOrigin), remote);
        pending := pending + [entry];
        JobIdsStep(jobs, i);
        assert Entries(lib, s)[..i + 1] == Entries(lib, s)[..i] + [entry];
      }
      assert Entries(lib, s)[..|jobs|] == Entries(lib, s);
      return None;
    }

    /** Takes the oldest pending job. */
    method PopNext() returns (next: Option<QueuedJob>)
      modifies this
      ensures next.None? <==> old(pending) == []
      ensures next.Some? ==> old(pending) == [next.value] + pending
      ensures next.None? ==> pending == []
      ensures seenJobIds == old(seenJobIds) && seenBatchIds == old(seenBatchIds)
    {
      if pending == [] {
        return None;
      }
      next := Some(pending[0]);
      pending := pending[1..];
    }

    method PendingJobs() returns (jobs: seq<QueuedJob>)
      ensures jobs == pending
    {
      jobs := pending;
    }
  }

  lemma JobIdsStep(jobs: seq<PrintJob>, i: nat)
    requires i < |jobs|
    ensures JobIds(jobs[..i + 1]) == JobIds(jobs[..i]) + {jobs[i].jobId}
  {
    var longer, shorter := jobs[..i + 1], jobs[..i];
    forall id | id in JobIds(longer) ensures id in JobIds(shorter) + {jobs[i].jobId} {
      var k :| 0 <= k < |longer| && longer[k].jobId == id;
      if k < i { assert shorter[k].jobId == id; }
    }
    forall id | id in JobIds(shorter) + {jobs[i].jobId} ensures id in JobIds(longer) {
      if id in JobIds(shorter) {
        var k :| 0 <= k < |shorter| && shorter[k].jobId == id;
        assert longer[k].jobId == id;
      } else {
        assert longer[i].jobId == id;
      }
    }
  }
}
