/** What holds after any sequence of submissions and pops on one queue. */
module QueueHistory {
  import opened Outcomes
  import opened Protocol
  import opened JobQueue

  datatype Op = Submit(submission: Submission) | Pop

  /** The queue together with everything it ever handed out and everything it ever admitted. */
  datatype Trace = Trace(queue: Contents, popped: seq<QueuedJob>, admitted: seq<QueuedJob>)

  ghost function Perform(lib: Library, t: Trace, op: Op): Trace {
    match op
    case Submit(s) =>
      var added := if Refusal(lib, t.queue, s).Some? then [] else Entries(lib, s);
      Trace(Accept(lib, t.queue, s), t.popped, t.admitted + added)
    case Pop =>
      var pending := t.queue.pending;
      if pending == [] then t
      else Trace(t.queue.(pending := pending[1..]), t.popped + [pending[0]], t.admitted)
  }

  ghost function Run(lib: Library, ops: seq<Op>): Trace {
    if ops == [] then Trace(EMPTY, [], [])
    else Perform(lib, Run(lib, ops[..|ops| - 1]), ops[|ops| - 1])
  }

  function EntryIds(entries: seq<QueuedJob>): set<string> {
    set i | 0 <= i < |entries| :: entries[i].job.jobId
  }

  ghost predicate UniqueIds(entries: seq<QueuedJob>) {
    forall i, j :: 0 <= i < j < |entries| ==> entries[i].job.jobId != entries[j].job.jobId
  }

  /** The jobs of one batch stand next to each other. */
  ghost predicate BatchesContiguous(entries: seq<QueuedJob>) {
    forall i, j, k :: 0 <= i < k < j < |entries| && entries[i].batchId.Some? && entries[i].batchId == entries[j].batchId
      ==> entries[k].batchId == entries[i].batchId
  }

  /** A local origin is only ever attached to a job whose file URL has that very origin. */
  ghost predicate OriginMatchesUrl(lib: Library, e: QueuedJob) {
    e.localOrigin.Some? ==>
      && e.job.fileUrl.Some?
      && HtmlPage(lib, e.job.fileUrl.value).Some?
      && HtmlPage(lib, e.job.fileUrl.value).value.origin == Tuple(e.localOrigin.value)
  }

  ghost predicate Lawful(lib: Library, t: Trace) {
    && t.popped + t.queue.pending == t.admitted
    && UniqueIds(t.admitted)
    && BatchesContiguous(t.admitted)
    && t.queue.seenJobs == EntryIds(t.admitted)
    && (forall e :: e in t.admitted ==> OriginMatchesUrl(lib, e) && HtmlSourceOk(lib, e.job))
    && (forall e :: e in t.admitted && e.batchId.Some? ==> e.batchId.value in t.queue.seenBatches)
  }

  /** One submission or pop keeps every law. */
  lemma PerformLawful(lib: Library, t: Trace, op: Op)
    requires Lawful(lib, t)
    ensures Lawful(lib, Perform(lib, t, op))
  {
    match op
    case Submit(s) =>
      if Refusal(lib, t.queue, s).None? {
        SubmitLawful(lib, t, s);
      } else {
        assert t.admitted + [] == t.admitted;
      }
    case Pop =>
      if t.queue.pending != [] {
        assert t.queue.pending == [t.queue.pending[0]] + t.queue.pending[1..];
      }
  }

  lemma SubmitLawful(lib: Library, t: Trace, s: Submission)
    requires Lawful(lib, t) && Refusal(lib, t.queue, s).None?
    ensures Lawful(lib, Perform(lib, t, Submit(s)))
  {
    var entries, t' := Entries(lib, s), Perform(lib, t, Submit(s));
    assert t'.popped + t'.queue.pending == t.admitted + entries;
    forall i, j | 0 <= i < j < |t'.admitted| ensures t'.admitted[i].job.jobId != t'.admitted[j].job.jobId {
      var n := |t.admitted|;
      if i < n <= j {
        assert t.admitted[i].job.jobId in t.queue.seenJobs;
        assert s.jobs[j - n].jobId in JobIds(s.jobs);
        assert t.admitted[i].job.jobId !in JobIds(s.jobs) * t.queue.seenJobs;
      } else if n <= i {
        assert s.jobs[i - n].jobId != s.jobs[j - n].jobId;
      }
    }
    EntryIdsConcat(t.admitted, entries);
    assert EntryIds(entries) == JobIds(s.jobs) by {
      forall id | id in JobIds(s.jobs) ensures id in EntryIds(entries) {
        var i :| 0 <= i < |s.jobs| && s.jobs[i].jobId == id;
        assert entries[i].job.jobId == id;
      }
    }
    NewBatchContiguous(t.admitted, entries, s.batchId);
  }

  lemma EntryIdsConcat(a: seq<QueuedJob>, b: seq<QueuedJob>)
    ensures EntryIds(a + b) == EntryIds(a) + EntryIds(b)
  {
    forall id | id in EntryIds(a) + EntryIds(b) ensures id in EntryIds(a + b) {
      if id in EntryIds(a) {
        var i :| 0 <= i < |a| && a[i].job.jobId == id;
        assert (a + b)[i].job.jobId == id;
      } else {
        var i :| 0 <= i < |b| && b[i].job.jobId == id;
        assert (a + b)[|a| + i].job.jobId == id;
      }
    }
  }

  /** Entries of one new batch (or without a batch) after contiguous ones leave all batches contiguous. */
  lemma NewBatchContiguous(before: seq<QueuedJob>, added: seq<QueuedJob>, batchId: Option<string>)
    requires BatchesContiguous(before)
    requires forall i :: 0 <= i < |added| ==> added[i].batchId == batchId
    requires batchId.Some? ==> forall e :: e in before ==> e.batchId != batchId
    ensures BatchesContiguous(before + added)
  {
    var all := before + added;
    forall i, j, k | 0 <= i < k < j < |all| && all[i].batchId.Some? && all[i].batchId == all[j].batchId
      ensures all[k].batchId == all[i].batchId
    {
      if i < |before| {
        assert all[i] in before;
        assert j < |before|;
      }
    }
  }

  /** After any sequence of operations: first in, first out; unique ids; contiguous batches; exact memory of ids. */
  lemma {:induction false} EveryRunLawful(lib: Library, ops: seq<Op>)
    ensures Lawful(lib, Run(lib, ops))
  {
    if ops != [] {
      EveryRunLawful(lib, ops[..|ops| - 1]);
      PerformLawful(lib, Run(lib, ops[..|ops| - 1]), ops[|ops| - 1]);
    }
  }

  /** After any run a single loadable job is refused exactly when its id was admitted before. */
  lemma RefusedIffAdmittedBefore(lib: Library, ops: seq<Op>, requestId: string, job: PrintJob, origin: Option<string>)
    requires HtmlSourceOk(lib, job)
    ensures var s := Submission(requestId, None, [job], origin, false);
            Refusal(lib, Run(lib, ops).queue, s)
              == if exists e :: e in Run(lib, ops).admitted && e.job.jobId == job.jobId
                 then Some(DuplicateJobId) else None
  {
    EveryRunLawful(lib, ops);
    var t, s := Run(lib, ops), Submission(requestId, None, [job], origin, false);
    assert s.jobs[0] == job;
    assert JobIds(s.jobs) == {job.jobId};
    if job.jobId in t.queue.seenJobs {
      var i :| 0 <= i < |t.admitted| && t.admitted[i].job.jobId == job.jobId;
      assert t.admitted[i] in t.admitted;
      assert job.jobId in JobIds(s.jobs) * t.queue.seenJobs;
    } else {
      assert JobIds(s.jobs) * t.queue.seenJobs == {};
    }
  }

  /** The queue's own page check never refuses a job that passed `validate_for_acceptance`. */
  lemma AcceptableHasSource(lib: Library, job: PrintJob, maxFileSizeMb: nat)
    requires Acceptable(lib, job, maxFileSizeMb)
    ensures HtmlSourceOk(lib, job)
  {
  }

  /** The job's URL is a page of the submission's origin. */
  ghost predicate IsOwnPage(lib: Library, s: Submission, job: PrintJob) {
    && s.localOrigin.Some? && job.fileUrl.Some? && HtmlPage(lib, job.fileUrl.value).Some?
    && HtmlPage(lib, job.fileUrl.value).value.origin == Tuple(s.localOrigin.value)
  }

  /** The entry is the `i`-th job of the submission, under its ids, with its origin only if that is the page's own. */
  ghost predicate EntryOf(lib: Library, s: Submission, i: nat, e: QueuedJob) {
    && i < |s.jobs| && e.job == s.jobs[i]
    && e.requestId == s.requestId && e.batchId == s.batchId && e.remote == s.remote
    && (e.localOrigin == s.localOrigin || e.localOrigin.None?) && OriginMatchesUrl(lib, e)
    && (IsOwnPage(lib, s, e.job) ==> e.localOrigin == s.localOrigin)
  }

  /** What is accepted stands behind what was pending, job by job, under the submission's ids. */
  lemma AcceptedEntriesCarryTheirIds(lib: Library, c: Contents, s: Submission)
    requires Refusal(lib, c, s).None?
    ensures var after := Accept(lib, c, s).pending;
            && |after| == |c.pending| + |s.jobs| && after[..|c.pending|] == c.pending
            && forall k :: |c.pending| <= k < |after| ==> EntryOf(lib, s, k - |c.pending|, after[k])
  {
    var entries := Entries(lib, s);
    assert forall i :: 0 <= i < |entries| ==> EntryOf(lib, s, i, entries[i]);
  }
}
