/** The durable store of remote jobs (deduplication) and of status reports waiting to be delivered. */
module RemoteStore {
  import opened Outcomes
  import Query

  /** Stored timestamps are only compared, never computed with. */
  type Time = int

  /** A UUID as a number: its fixed-width text compares the same way. */
  type EventId = nat

  const U32_MAX: nat := 0xFFFF_FFFF

  datatype ReportStatus = Accepted | Success | Failed

  datatype Delivery = Pending | Delivered | Abandoned

  datatype DeliveryFailure = WillRetry | GivenUp

  datatype StoreError = StatementFailed | NoSuchRow

  datatype RemoteJob = RemoteJob(requestId: string, batchId: Option<string>, firstSeenAt: Time)

  datatype NewEvent = NewEvent(
    jobId: string, requestId: string, batchId: Option<string>,
    status: ReportStatus, message: Option<string>, occurredAt: Time, nextRetryAt: Time)

  datatype StatusEvent = StatusEvent(
    eventId: EventId, jobId: string, requestId: string, batchId: Option<string>,
    status: ReportStatus, message: Option<string>, occurredAt: Time,
    delivery: Delivery, deliveredAt: Option<Time>,
    retryCount: nat, nextRetryAt: Time, lastError: Option<string>)

  /** Both tables; event rows stand in insertion order. */
  datatype Tables = Tables(jobs: map<string, RemoteJob>, events: seq<StatusEvent>)

  const NO_ROWS: Tables := Tables(map[], [])

  // -------------------------------------------------------------------------
  // What each statement does to the tables
  // -------------------------------------------------------------------------

  function RecordJob(t: Tables, jobId: string, job: RemoteJob): Tables {
    if jobId in t.jobs then t else t.(jobs := t.jobs[jobId := job])
  }

  function FreshEvent(id: EventId, e: NewEvent): StatusEvent {
    StatusEvent(id, e.jobId, e.requestId, e.batchId, e.status, e.message, e.occurredAt,
                Pending, None, 0, e.nextRetryAt, None)
  }

  /** The primary key and the unique index on (job, status) both make an insert a no-op. */
  predicate Conflicts(events: seq<StatusEvent>, id: EventId, e: NewEvent) {
    exists i :: 0 <= i < |events| &&
      (events[i].eventId == id || (events[i].jobId == e.jobId && events[i].status == e.status))
  }

  function InsertEvent(t: Tables, id: EventId, e: NewEvent): Tables {
    if Conflicts(t.events, id, e) then t else t.(events := t.events + [FreshEvent(id, e)])
  }

  /** UPDATE ... WHERE event_id = id. */
  function Update(events: seq<StatusEvent>, id: EventId, change: StatusEvent -> StatusEvent): (r: seq<StatusEvent>)
    ensures |r| == |events|
    ensures forall i :: 0 <= i < |events| ==>
      r[i] == if events[i].eventId == id then change(events[i]) else events[i]
  {
    seq(|events|, i requires 0 <= i < |events| => if events[i].eventId == id then change(events[i]) else events[i])
  }

  function MarkDelivered(t: Tables, id: EventId, at: Time): Tables {
    t.(events := Update(t.events, id, (e: StatusEvent) =>
         e.(delivery := Delivered, deliveredAt := Some(at), lastError := None)))
  }

  /** The counter saturates at 32 bits. */
  function NextRetryCount(count: nat): nat {
    if count >= U32_MAX then U32_MAX else count + 1
  }

  function Verdict(e: StatusEvent, maxRetries: nat): DeliveryFailure {
    if NextRetryCount(e.retryCount) >= maxRetries then GivenUp else WillRetry
  }

  function AfterFailure(e: StatusEvent, retryAt: Time, error: string, maxRetries: nat): StatusEvent {
    var count := NextRetryCount(e.retryCount);
    e.(retryCount := count, nextRetryAt := retryAt, lastError := Some(error),
       delivery := if count >= maxRetries then Abandoned else Pending)
  }

  function MarkFailed(t: Tables, id: EventId, retryAt: Time, error: string, maxRetries: nat): Tables {
    t.(events := Update(t.events, id, (e: StatusEvent) => AfterFailure(e, retryAt, error, maxRetries)))
  }

  /** A counted failure as its row shows it: the report itself stays, the next try waits for `retryAt`. */
  predicate FailureShows(before: StatusEvent, after: StatusEvent, retryAt: Time, error: string, maxRetries: nat) {
    && after == StatusEvent(before.eventId, before.jobId, before.requestId, before.batchId, before.status, before.message,
                            before.occurredAt, after.delivery, before.deliveredAt, after.retryCount, retryAt, Some(error))
    && after.retryCount == (if before.retryCount < U32_MAX then before.retryCount + 1 else U32_MAX)
    && (after.delivery == Abandoned <==> after.retryCount >= maxRetries) && after.delivery != Delivered
  }

  /** A delivery as its row shows it. */
  predicate DeliveryShows(before: StatusEvent, after: StatusEvent, at: Time) {
    after == StatusEvent(before.eventId, before.jobId, before.requestId, before.batchId, before.status, before.message,
                         before.occurredAt, Delivered, Some(at), before.retryCount, before.nextRetryAt, None)
  }

  /** Every row with this id shows the failure; all others are as they were. */
  ghost predicate OnlyFailed(before: seq<StatusEvent>, after: seq<StatusEvent>, id: EventId, retryAt: Time, error: string, maxRetries: nat) {
    && |after| == |before|
    && forall i :: 0 <= i < |before| ==>
         if before[i].eventId == id then FailureShows(before[i], after[i], retryAt, error, maxRetries) else after[i] == before[i]
  }

  ghost predicate OnlyDelivered(before: seq<StatusEvent>, after: seq<StatusEvent>, id: EventId, at: Time) {
    && |after| == |before|
    && forall i :: 0 <= i < |before| ==> if before[i].eventId == id then DeliveryShows(before[i], after[i], at) else after[i] == before[i]
  }

  predicate IsDue(e: StatusEvent, now: Time) {
    e.delivery == Pending && e.nextRetryAt <= now
  }

  /** ORDER BY occurred_at, event_id. */
  predicate Earlier(a: StatusEvent, b: StatusEvent) {
    a.occurredAt < b.occurredAt || (a.occurredAt == b.occurredAt && a.eventId <= b.eventId)
  }

  function DueEvents(t: Tables, now: Time, limit: nat): seq<StatusEvent> {
    Query.Select(t.events, (e: StatusEvent) => IsDue(e, now), Earlier, limit)
  }

  // -------------------------------------------------------------------------
  // The store object
  // -------------------------------------------------------------------------

  class Store {
    var jobs: map<string, RemoteJob>
    var events: seq<StatusEvent>

    function Rows(): Tables
      reads this
    {
      Tables(jobs, events)
    }

    /** A new database has no rows. */
    constructor ()
      ensures Rows() == NO_ROWS
    {
      jobs, events := map[], [];
    }

    /** Records a job unless its id is already known; `fault` is a failing statement. */
    method RecordJobIfNew(jobId: string, job: RemoteJob, fault: bool) returns (r: Result<bool, StoreError>)
      modifies this
      ensures fault ==> r == Err(StatementFailed) && Rows() == old(Rows())
      ensures !fault ==> r == Ok(jobId !in old(jobs)) && Rows() == RecordJob(old(Rows()), jobId, job)
    {
      if fault {
        return Err(StatementFailed);
      }
      if jobId in jobs {
        return Ok(false);
      }
      jobs := jobs[jobId := job];
      return Ok(true);
    }

    method InsertStatusEvent(id: EventId, e: NewEvent, fault: bool) returns (r: Result<Option<StatusEvent>, StoreError>)
      modifies this
      ensures fault ==> r == Err(StatementFailed) && Rows() == old(Rows())
      ensures !fault ==> Rows() == InsertEvent(old(Rows()), id, e)
      ensures !fault ==> r == Ok(if Conflicts(old(events), id, e) then None else Some(FreshEvent(id, e)))
    {
      if fault {
        return Err(StatementFailed);
      }
      if Conflicts(events, id, e) {
        return Ok(None);
      }
      events := events + [FreshEvent(id, e)];
      return Ok(Some(FreshEvent(id, e)));
    }

    method PendingStatusEvents(now: Time, limit: nat, fault: bool) returns (r: Result<seq<StatusEvent>, StoreError>)
      ensures r == if fault then Err(StatementFailed) else Ok(DueEvents(Rows(), now, limit))
    {
      return if fault then Err(StatementFailed) else Ok(DueEvents(Rows(), now, limit));
    }

    method MarkEventDelivered(id: EventId, at: Time, fault: bool) returns (r: Result<(), StoreError>)
      modifies this
      ensures fault ==> r == Err(StatementFailed) && Rows() == old(Rows())
      ensures !fault ==> r == Ok(()) && Rows() == MarkDelivered(old(Rows()), id, at)
      ensures !fault ==> OnlyDelivered(old(events), events, id, at)
    {
      if fault {
        return Err(StatementFailed);
      }
      events := MarkDelivered(Rows(), id, at).events;
      return Ok(());
    }

    /** Counts a failed delivery and decides between another try and giving up. */
    method MarkDeliveryFailed(id: EventId, retryAt: Time, error: string, maxRetries: nat, fault: bool)
      returns (r: Result<DeliveryFailure, StoreError>)
      modifies this
      ensures r.Err? ==> Rows() == old(Rows())
      ensures r.Err? <==> fault || forall e :: e in old(events) ==> e.eventId != id
      ensures r.Ok? ==> Rows() == MarkFailed(old(Rows()), id, retryAt, error, maxRetries)
      ensures r.Ok? ==> OnlyFailed(old(events), events, id, retryAt, error, maxRetries)
      ensures r.Ok? ==> (exists e :: e in old(events) && e.eventId == id && r.value == Verdict(e, maxRetries))
    {
      if fault {
        return Err(StatementFailed);
      }
      var i := 0;
      while i < |events| && events[i].eventId != id
        invariant 0 <= i <= |events|
        invariant Rows() == old(Rows())
        invariant forall k :: 0 <= k < i ==> events[k].eventId != id
      {
        i := i + 1;
      }
      if i == |events| {
        return Err(NoSuchRow);
      }
      var count := NextRetryCount(events[i].retryCount);
      assert events[i] in old(events);
      events := MarkFailed(Rows(), id, retryAt, error, maxRetries).events;
      return Ok(if count >= maxRetries then GivenUp else WillRetry);
    }
  }

  // -------------------------------------------------------------------------
  // What the tables always satisfy
  // -------------------------------------------------------------------------

  /** The two uniqueness constraints of the event table. */
  ghost predicate KeysUnique(events: seq<StatusEvent>) {
    forall i, j :: 0 <= i < j < |events| ==>
      events[i].eventId != events[j].eventId && !(events[i].jobId == events[j].jobId && events[i].status == events[j].status)
  }

  lemma InsertKeepsKeys(t: Tables, id: EventId, e: NewEvent)
    requires KeysUnique(t.events)
    ensures KeysUnique(InsertEvent(t, id, e).events)
  {
  }

  lemma EarlierIsTotal()
    ensures Query.TotalPreorder(Earlier)
  {
  }

  /** The due query returns distinct pending rows, oldest first, and skips none of the older ones. */
  lemma DueEventsMeaning(t: Tables, now: Time, limit: nat)
    requires KeysUnique(t.events)
    ensures Query.IsTopRows(DueEvents(t, now, limit), t.events, (e: StatusEvent) => IsDue(e, now), Earlier, limit)
  {
    EarlierIsTotal();
    Query.SelectReturnsTopRows(t.events, (e: StatusEvent) => IsDue(e, now), Earlier, limit);
  }

  /** A report that failed is not due again before its retry time, and from then on exactly if it was not given up. */
  lemma FailedReportWaits(t: Tables, later: Tables, id: EventId, retryAt: Time, error: string, maxRetries: nat, now: Time, limit: nat)
    requires KeysUnique(t.events) && KeysUnique(later.events) && OnlyFailed(t.events, later.events, id, retryAt, error, maxRetries)
    ensures now < retryAt ==> forall e :: e in DueEvents(later, now, limit) ==> e.eventId != id
    ensures retryAt <= now ==>
      forall e :: e in later.events && e.eventId == id ==> (IsDue(e, now) <==> e.retryCount < maxRetries)
  {
    DueEventsMeaning(later, now, limit);
    forall e | e in later.events && e.eventId == id ensures e.nextRetryAt == retryAt && (e.delivery == Pending <==> e.retryCount < maxRetries) {
      var i :| 0 <= i < |later.events| && later.events[i] == e;
      assert t.events[i].eventId == id;
    }
  }

  /** Counting a failure changes the row as it should. */
  lemma FailureIsShown(t: Tables, id: EventId, retryAt: Time, error: string, maxRetries: nat)
    ensures OnlyFailed(t.events, MarkFailed(t, id, retryAt, error, maxRetries).events, id, retryAt, error, maxRetries)
    ensures MarkFailed(t, id, retryAt, error, maxRetries).jobs == t.jobs
  {
  }

  lemma DeliveryIsShown(t: Tables, id: EventId, at: Time)
    ensures OnlyDelivered(t.events, MarkDelivered(t, id, at).events, id, at) && MarkDelivered(t, id, at).jobs == t.jobs
  {
  }

  /** A report is stored as it is: not yet delivered or tried, and due from its own time on. */
  lemma NewReportIsStoredAsItIs(t: Tables, id: EventId, e: NewEvent, now: Time)
    requires forall i :: 0 <= i < |t.events| ==>
      t.events[i].eventId != id && !(t.events[i].jobId == e.jobId && t.events[i].status == e.status)
    ensures var later := InsertEvent(t, id, e);
            var row := StatusEvent(id, e.jobId, e.requestId, e.batchId, e.status, e.message, e.occurredAt,
                                   Pending, None, 0, e.nextRetryAt, None);
            && later.jobs == t.jobs && later.events == t.events + [row]
            && (IsDue(row, now) <==> e.nextRetryAt <= now)
  {
    assert !Conflicts(t.events, id, e);
  }
}
