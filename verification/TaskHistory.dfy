/** The local task history: an event log and a summary table that follows it. */
module TaskHistory {
  import opened Outcomes
  import opened Activity
  import Query
  import Text

  type Time = int

  datatype NewEvent = NewEvent(
    jobId: string, requestId: Option<string>, batchId: Option<string>, source: Source,
    status: JobStatus, message: Option<string>,
    printer: Option<string>, paper: Option<string>, copies: Option<nat>, occurredAt: Time)

  datatype EventRow = EventRow(id: nat, jobId: string, status: JobStatus, message: Option<string>, occurredAt: Time)

  datatype JobRow = JobRow(
    jobId: string, requestId: Option<string>, batchId: Option<string>, source: Source,
    status: JobStatus, message: Option<string>,
    printer: Option<string>, paper: Option<string>, copies: Option<nat>,
    createdAt: Time, updatedAt: Time, finishedAt: Option<Time>)

  datatype Tables = Tables(events: seq<EventRow>, jobs: seq<JobRow>, nextId: nat)

  datatype StoreError = TransactionFailed

  // -------------------------------------------------------------------------
  // What the statements do
  // -------------------------------------------------------------------------

  function FinishTime(e: NewEvent): Option<Time> {
    if IsTerminal(e.status) then Some(e.occurredAt) else None
  }

  function NewRow(e: NewEvent): JobRow {
    JobRow(e.jobId, e.requestId, e.batchId, e.source, e.status, e.message, e.printer, e.paper, e.copies,
           e.occurredAt, e.occurredAt, FinishTime(e))
  }

  /** ON CONFLICT(job_id) DO UPDATE. */
  function Merge(row: JobRow, e: NewEvent): JobRow {
    JobRow(row.jobId, Coalesce(e.requestId, row.requestId), Coalesce(e.batchId, row.batchId), e.source, e.status, e.message,
           Coalesce(e.printer, row.printer), Coalesce(e.paper, row.paper), Coalesce(e.copies, row.copies),
           row.createdAt, e.occurredAt, Coalesce(FinishTime(e), row.finishedAt))
  }

  predicate HasRow(jobs: seq<JobRow>, jobId: string) {
    exists i :: 0 <= i < |jobs| && jobs[i].jobId == jobId
  }

  function Upsert(jobs: seq<JobRow>, e: NewEvent): seq<JobRow> {
    if HasRow(jobs, e.jobId)
    then seq(|jobs|, i requires 0 <= i < |jobs| => if jobs[i].jobId == e.jobId then Merge(jobs[i], e) else jobs[i])
    else jobs + [NewRow(e)]
  }

  function Record(t: Tables, e: NewEvent): Tables {
    Tables(t.events + [EventRow(t.nextId, e.jobId, e.status, e.message, e.occurredAt)], Upsert(t.jobs, e), t.nextId + 1)
  }

  /** ORDER BY updated_at DESC, job_id DESC. */
  predicate MoreRecent(a: JobRow, b: JobRow) {
    a.updatedAt > b.updatedAt || (a.updatedAt == b.updatedAt && Text.NotAfter(b.jobId, a.jobId))
  }

  /** ORDER BY occurred_at ASC, id ASC. */
  predicate Earlier(a: EventRow, b: EventRow) {
    a.occurredAt < b.occurredAt || (a.occurredAt == b.occurredAt && a.id <= b.id)
  }

  class Store {
    var events: seq<EventRow>
    var jobs: seq<JobRow>
    var nextId: nat

    function Rows(): Tables
      reads this
    {
      Tables(events, jobs, nextId)
    }

    constructor ()
      ensures Rows() == Tables([], [], 1)
    {
      events, jobs, nextId := [], [], 1;
    }

    /** Appends the event and updates the summary in one transaction. */
    method RecordEvent(e: NewEvent, fault: bool) returns (r: Result<(), StoreError>)
      modifies this
      ensures fault ==> r == Err(TransactionFailed) && Rows() == old(Rows())
      ensures !fault ==> r == Ok(()) && Rows() == Record(old(Rows()), e)
    {
      if fault {
        return Err(TransactionFailed);
      }
      events := events + [EventRow(nextId, e.jobId, e.status, e.message, e.occurredAt)];
      jobs := Upsert(jobs, e);
      nextId := nextId + 1;
      return Ok(());
    }

    /** Empties both tables in one transaction; identifiers keep counting. */
    method Clear(fault: bool) returns (r: Result<(), StoreError>)
      modifies this
      ensures fault ==> r == Err(TransactionFailed) && Rows() == old(Rows())
      ensures !fault ==> r == Ok(()) && Rows() == Tables([], [], old(nextId))
    {
      if fault {
        return Err(TransactionFailed);
      }
      events, jobs := [], [];
      return Ok(());
    }

    /** The `limit` most recently updated summaries, newest first. */
    method RecentJobs(limit: nat) returns (rows: seq<JobRow>)
      requires UniqueJobs(jobs)
      ensures Query.IsTopRows(rows, jobs, (row: JobRow) => true, MoreRecent, limit)
    {
      rows := Query.Select(jobs, (row: JobRow) => true, MoreRecent, limit);
      MoreRecentIsTotal();
      Query.SelectReturnsTopRows(jobs, (row: JobRow) => true, MoreRecent, limit);
    }

    /** Every event of one job, oldest first. */
    method EventsForJob(jobId: string) returns (rows: seq<EventRow>)
      requires IncreasingIds(events)
      ensures Query.IsTopRows(rows, events, (e: EventRow) => e.jobId == jobId, Earlier, |events|)
      ensures forall e :: e in rows <==> e in events && e.jobId == jobId
    {
      var mine := (e: EventRow) => e.jobId == jobId;
      rows := Query.OrderBy(Query.Where(events, mine), Earlier);
      Query.WhereMembers(events, mine);
      EarlierIsTotal();
      Query.OrderByResult(Query.Where(events, mine), Earlier);
      Query.SelectReturnsTopRows(events, mine, Earlier, |events|);
      SameSize(rows, Query.Where(events, mine));
      forall e ensures e in rows <==> e in events && e.jobId == jobId {
        assert e in rows <==> e in multiset(rows);
      }
    }
  }

  lemma SameSize<T>(a: seq<T>, b: seq<T>)
    requires multiset(a) == multiset(b)
    ensures |a| == |b|
  {
    assert |multiset(a)| == |multiset(b)|;
  }

  lemma MoreRecentIsTotal()
    ensures Query.TotalPreorder(MoreRecent)
  {
    forall a, b ensures MoreRecent(a, b) || MoreRecent(b, a) {
      Text.NotAfterTotal(a.jobId, b.jobId);
    }
    forall a, b, c | MoreRecent(a, b) && MoreRecent(b, c) ensures MoreRecent(a, c) {
      if a.updatedAt == b.updatedAt == c.updatedAt { Text.NotAfterTransitive(c.jobId, b.jobId, a.jobId); }
    }
  }

  lemma EarlierIsTotal()
    ensures Query.TotalPreorder(Earlier)
  {
  }

  // -------------------------------------------------------------------------
  // The summary table is a fold of the log
  // -------------------------------------------------------------------------

  ghost predicate UniqueJobs(jobs: seq<JobRow>) {
    forall i, j :: 0 <= i < j < |jobs| ==> jobs[i].jobId != jobs[j].jobId
  }

  ghost predicate IncreasingIds(events: seq<EventRow>) {
    forall i, j :: 0 <= i < j < |events| ==> events[i].id < events[j].id
  }

  function EventsOf(log: seq<NewEvent>, jobId: string): seq<NewEvent> {
    Query.Where(log, (e: NewEvent) => e.jobId == jobId)
  }

  /** `r` is the last value that any of the events carries, if any carries one. */
  ghost predicate Latest<T(!new)>(events: seq<NewEvent>, value: NewEvent -> Option<T>, r: Option<T>) {
    || (r.None? && forall i :: 0 <= i < |events| ==> value(events[i]).None?)
    || (r.Some? && exists k :: 0 <= k < |events| && value(events[k]) == r
                     && forall m :: k < m < |events| ==> value(events[m]).None?)
  }

  /** A summary says exactly what a job's own events say. */
  ghost predicate Summarises(row: JobRow, own: seq<NewEvent>) {
    && own != []
    && var last := own[|own| - 1];
       && row.status == last.status && row.message == last.message && row.source == last.source
       && row.createdAt == own[0].occurredAt && row.updatedAt == last.occurredAt
       && Latest(own, (e: NewEvent) => e.requestId, row.requestId)
       && Latest(own, (e: NewEvent) => e.batchId, row.batchId)
       && Latest(own, (e: NewEvent) => e.printer, row.printer)
       && Latest(own, (e: NewEvent) => e.paper, row.paper)
       && Latest(own, (e: NewEvent) => e.copies, row.copies)
       && Latest(own, FinishTime, row.finishedAt)
  }

  /** The log records the events, and there is one summary per job that has events. */
  ghost predicate Faithful(t: Tables, log: seq<NewEvent>) {
    && |t.events| == |log| && IncreasingIds(t.events)
    && (forall i :: 0 <= i < |log| ==>
          && t.events[i].id < t.nextId && t.events[i].jobId == log[i].jobId && t.events[i].status == log[i].status
          && t.events[i].message == log[i].message && t.events[i].occurredAt == log[i].occurredAt)
    && UniqueJobs(t.jobs)
    && (forall i :: 0 <= i < |t.jobs| ==> Summarises(t.jobs[i], EventsOf(log, t.jobs[i].jobId)))
    && (forall i :: 0 <= i < |log| ==> HasRow(t.jobs, log[i].jobId))
  }

  datatype Op = RecordOp(event: NewEvent, fault: bool) | ClearOp(fault: bool)

  /** The tables, and the events recorded since they were last cleared. */
  datatype Trace = Trace(tables: Tables, log: seq<NewEvent>)

  function Perform(s: Trace, op: Op): Trace {
    match op
    case RecordOp(e, fault) => if fault then s else Trace(Record(s.tables, e), s.log + [e])
    case ClearOp(fault) => if fault then s else Trace(Tables([], [], s.tables.nextId), [])
  }

  function Run(ops: seq<Op>): Trace {
    if ops == [] then Trace(Tables([], [], 1), []) else Perform(Run(ops[..|ops| - 1]), ops[|ops| - 1])
  }

  lemma LatestStep<T(!new)>(own: seq<NewEvent>, e: NewEvent, value: NewEvent -> Option<T>, r: Option<T>)
    requires Latest(own, value, r)
    ensures Latest(own + [e], value, Coalesce(value(e), r))
  {
    var longer := own + [e];
    if value(e).Some? {
      assert value(longer[|own|]) == value(e);
    } else if r.Some? {
      var k :| 0 <= k < |own| && value(own[k]) == r && forall m :: k < m < |own| ==> value(own[m]).None?;
      assert value(longer[k]) == r;
    }
  }

  /** One more event turns the summary of the old events into the summary of the new ones. */
  lemma MergeSummarises(row: JobRow, own: seq<NewEvent>, e: NewEvent)
    requires Summarises(row, own)
    ensures Summarises(Merge(row, e), own + [e])
  {
    LatestStep(own, e, (e: NewEvent) => e.requestId, row.requestId);
    LatestStep(own, e, (e: NewEvent) => e.batchId, row.batchId);
    LatestStep(own, e, (e: NewEvent) => e.printer, row.printer);
    LatestStep(own, e, (e: NewEvent) => e.paper, row.paper);
    LatestStep(own, e, (e: NewEvent) => e.copies, row.copies);
    LatestStep(own, e, FinishTime, row.finishedAt);
  }

  lemma NewRowSummarises(e: NewEvent)
    ensures Summarises(NewRow(e), [e])
  {
    assert [e][0] == e;
  }

  lemma EventsOfStep(log: seq<NewEvent>, e: NewEvent, jobId: string)
    ensures EventsOf(log + [e], jobId) == EventsOf(log, jobId) + if e.jobId == jobId then [e] else []
  {
    Query.WhereConcat(log, [e], (e: NewEvent) => e.jobId == jobId);
    assert [e][1..] == [];
  }

  lemma NoEventsWithoutRow(t: Tables, log: seq<NewEvent>, jobId: string)
    requires Faithful(t, log) && !HasRow(t.jobs, jobId)
    ensures EventsOf(log, jobId) == []
  {
    Query.WhereNone(log, (e: NewEvent) => e.jobId == jobId);
  }

  lemma UpsertedRow(t: Tables, log: seq<NewEvent>, e: NewEvent, i: nat)
    requires Faithful(t, log) && i < |Upsert(t.jobs, e)|
    ensures var row := Upsert(t.jobs, e)[i];
            && Summarises(row, EventsOf(log + [e], row.jobId))
            && (i < |t.jobs| ==> row.jobId == t.jobs[i].jobId)
            && (i >= |t.jobs| ==> row.jobId == e.jobId && !HasRow(t.jobs, e.jobId))
  {
    EventsOfStep(log, e, Upsert(t.jobs, e)[i].jobId);
    if i < |t.jobs| {
      var own := EventsOf(log, t.jobs[i].jobId);
      assert Summarises(t.jobs[i], own);
      if t.jobs[i].jobId == e.jobId {
        MergeSummarises(t.jobs[i], own, e);
      } else {
        assert own + [] == own;
      }
    } else {
      NoEventsWithoutRow(t, log, e.jobId);
      NewRowSummarises(e);
      assert [] + [e] == [e];
    }
  }

  lemma UpsertKeepsRows(jobs: seq<JobRow>, e: NewEvent, jobId: string)
    requires HasRow(jobs, jobId) || jobId == e.jobId
    ensures HasRow(Upsert(jobs, e), jobId)
  {
    if HasRow(jobs, jobId) {
      var k :| 0 <= k < |jobs| && jobs[k].jobId == jobId;
      assert Upsert(jobs, e)[k].jobId == jobId;
    } else {
      assert Upsert(jobs, e)[|jobs|].jobId == jobId;
    }
  }

  lemma RecordFaithful(t: Tables, log: seq<NewEvent>, e: NewEvent)
    requires Faithful(t, log)
    ensures Faithful(Record(t, e), log + [e])
  {
    var jobs, log' := Upsert(t.jobs, e), log + [e];
    forall i | 0 <= i < |jobs| ensures Summarises(jobs[i], EventsOf(log', jobs[i].jobId)) {
      UpsertedRow(t, log, e, i);
    }
    forall i, j | 0 <= i < j < |jobs| ensures jobs[i].jobId != jobs[j].jobId {
      UpsertedRow(t, log, e, i);
      UpsertedRow(t, log, e, j);
      assert j < |t.jobs| ==> t.jobs[i].jobId != t.jobs[j].jobId;
    }
    forall i | 0 <= i < |log'| ensures HasRow(jobs, log'[i].jobId) {
      assert i < |log| ==> log'[i] == log[i] && HasRow(t.jobs, log[i].jobId);
      UpsertKeepsRows(t.jobs, e, log'[i].jobId);
    }
  }

  /** After any sequence of records and clears, failing or not, the summary table is a fold of the log. */
  lemma {:induction false} SummariesFollowTheLog(ops: seq<Op>)
    ensures Faithful(Run(ops).tables, Run(ops).log)
  {
    if ops != [] {
      SummariesFollowTheLog(ops[..|ops| - 1]);
      var before := Run(ops[..|ops| - 1]);
      match ops[|ops| - 1]
      case RecordOp(e, fault) => RecordFaithful(before.tables, before.log, e);
      case ClearOp(_) =>
    }
  }
}
