/** Delivering stored status reports, with bounded retries. */
module Reporting {
  import opened Outcomes
  import opened RemoteStore
  import opened Polling
  import Query

  const REPORT_BATCH: nat := 20

  datatype ReportOutcome = ReportOutcome(delivered: nat, willRetry: nat, abandoned: nat)

  /** What the server answers to one report, and whether the statement that stores the result fails. */
  datatype Answer =
    | Received(fault: bool)
    | Misconfigured
    | Unreachable(message: string, retryAt: Time, fault: bool)

  function AtLeastOne(n: nat): nat {
    if n == 0 then 1 else n
  }

  // -------------------------------------------------------------------------
  // Specification of one round
  // -------------------------------------------------------------------------

  datatype Round = Round(tables: Tables, outcome: ReportOutcome, error: Option<WorkerError>)

  /** One report and its answer; nothing happens after an error. */
  function Attempt(r: Round, e: StatusEvent, answer: Answer, now: Time, maxRetries: nat): Round {
    if r.error.Some? then r
    else
      match answer
      case Misconfigured => r.(error := Some(Client(true)))
      case Received(fault) =>
        if fault then r.(error := Some(StoreFailed))
        else r.(tables := MarkDelivered(r.tables, e.eventId, now), outcome := r.outcome.(delivered := r.outcome.delivered + 1))
      case Unreachable(message, retryAt, fault) =>
        if fault then r.(error := Some(StoreFailed))
        else
          r.(tables := MarkFailed(r.tables, e.eventId, retryAt, message, maxRetries),
             outcome := if Verdict(e, maxRetries) == GivenUp
                        then r.outcome.(abandoned := r.outcome.abandoned + 1)
                        else r.outcome.(willRetry := r.outcome.willRetry + 1))
  }

  function Attempts(t: Tables, events: seq<StatusEvent>, answers: nat -> Answer, now: Time, maxRetries: nat): Round {
    if events == [] then Round(t, ReportOutcome(0, 0, 0), None)
    else
      var n := |events| - 1;
      Attempt(Attempts(t, events[..n], answers, now, maxRetries), events[n], answers(n), now, maxRetries)
  }

  // -------------------------------------------------------------------------
  // Laws of a round
  // -------------------------------------------------------------------------

  /** The events a round works on: pending rows of the table, each once. */
  ghost predicate Batch(t: Tables, events: seq<StatusEvent>) {
    && KeysUnique(t.events)
    && Query.NoDuplicates(events)
    && forall e :: e in events ==> e in t.events && e.delivery == Pending
  }

  lemma DueEventsAreABatch(t: Tables, now: Time, limit: nat)
    requires KeysUnique(t.events)
    ensures Batch(t, DueEvents(t, now, limit))
  {
    DueEventsMeaning(t, now, limit);
  }

  /** Rows keep their identity and order, and a delivered or abandoned row never changes again. */
  ghost predicate Evolves(before: seq<StatusEvent>, after: seq<StatusEvent>) {
    && |before| <= |after|
    && forall i :: 0 <= i < |before| ==>
         && SameReport(before[i], after[i])
          && (before[i].delivery != Pending ==> after[i] == before[i])
  }

  predicate SameReport(a: StatusEvent, b: StatusEvent) {
    && a.eventId == b.eventId && a.jobId == b.jobId && a.requestId == b.requestId && a.batchId == b.batchId
    && a.status == b.status && a.message == b.message && a.occurredAt == b.occurredAt
  }

  lemma EvolvesTransitive(a: seq<StatusEvent>, b: seq<StatusEvent>, c: seq<StatusEvent>)
    requires Evolves(a, b) && Evolves(b, c)
    ensures Evolves(a, c)
  {
  }

  function Attempted(o: ReportOutcome): nat {
    o.delivered + o.willRetry + o.abandoned
  }

  /** During a round only the rows already attempted change. */
  ghost predicate Untouched(t: Tables, later: Tables, attempted: seq<StatusEvent>) {
    && |later.events| == |t.events| && later.jobs == t.jobs
    && forall i :: 0 <= i < |t.events| && t.events[i] !in attempted ==> later.events[i] == t.events[i]
  }

  /** One attempt on a pending row changes that row only, and counts once unless it fails. */
  lemma AttemptChangesOneRow(r: Round, k: nat, answer: Answer, now: Time, maxRetries: nat)
    requires KeysUnique(r.tables.events) && k < |r.tables.events| && r.tables.events[k].delivery == Pending
    ensures var rows, after := r.tables.events, Attempt(r, r.tables.events[k], answer, now, maxRetries);
            && |after.tables.events| == |rows| && after.tables.jobs == r.tables.jobs
            && (forall i :: 0 <= i < |rows| && i != k ==> after.tables.events[i] == rows[i])
            && SameReport(rows[k], after.tables.events[k])
            && Evolves(rows, after.tables.events) && KeysUnique(after.tables.events)
            && (after.error.None? ==> Attempted(after.outcome) == Attempted(r.outcome) + 1)
  {
    var rows, after := r.tables.events, Attempt(r, r.tables.events[k], answer, now, maxRetries).tables.events;
    forall i | 0 <= i < |rows| && i != k ensures rows[i].eventId != rows[k].eventId {
      if i < k { assert rows[i].eventId != rows[k].eventId; }
    }
    assert forall i :: 0 <= i < |rows| ==> SameReport(rows[i], after[i]);
  }

  lemma {:induction false} RoundLaw(t: Tables, events: seq<StatusEvent>, answers: nat -> Answer, now: Time, maxRetries: nat)
    requires Batch(t, events)
    ensures var r := Attempts(t, events, answers, now, maxRetries);
            && Untouched(t, r.tables, events) && Evolves(t.events, r.tables.events) && KeysUnique(r.tables.events)
            && (r.error.None? ==> Attempted(r.outcome) == |events|)
  {
    if events != [] {
      var n := |events| - 1;
      var before, r := Attempts(t, events[..n], answers, now, maxRetries), Attempts(t, events, answers, now, maxRetries);
      RoundPrefix(t, events, n);
      RoundLaw(t, events[..n], answers, now, maxRetries);
      var k := TargetRow(t, events, n, before.tables);
      AttemptChangesOneRow(before, k, answers(n), now, maxRetries);
      EvolvesTransitive(t.events, before.tables.events, r.tables.events);
    }
  }

  lemma RoundPrefix(t: Tables, events: seq<StatusEvent>, n: nat)
    requires Batch(t, events) && n <= |events|
    ensures Batch(t, events[..n])
    ensures n < |events| ==> events[n] !in events[..n]
  {
  }

  /** The row a report belongs to is still as it was fetched when its turn comes. */
  lemma TargetRow(t: Tables, events: seq<StatusEvent>, n: nat, current: Tables) returns (k: nat)
    requires Batch(t, events) && n < |events| && Untouched(t, current, events[..n])
    ensures k < |t.events| && t.events[k] == events[n] && current.events[k] == events[n]
  {
    assert events[n] in t.events;
    k :| 0 <= k < |t.events| && t.events[k] == events[n];
    RoundPrefix(t, events, n);
  }

  // -------------------------------------------------------------------------
  // The round itself
  // -------------------------------------------------------------------------

  method ReportPendingOnce(enabled: bool, maxReportRetries: nat, store: Store?, now: Time, answers: nat -> Answer, queryFault: bool)
    returns (r: Result<ReportOutcome, WorkerError>)
    requires store != null ==> KeysUnique(store.events)
    modifies store
    ensures !enabled ==> r == Ok(ReportOutcome(0, 0, 0))
    ensures enabled && store == null ==> r == Err(MissingStore)
    ensures enabled && store != null && queryFault ==> r == Err(StoreFailed)
    ensures (!enabled || queryFault) && store != null ==> store.Rows() == old(store.Rows())
    ensures enabled && store != null && !queryFault ==>
      var t := old(store.Rows());
      var round := Attempts(t, DueEvents(t, now, REPORT_BATCH), answers, now, AtLeastOne(maxReportRetries));
      && store.Rows() == round.tables
      && r == if round.error.Some? then Err(round.error.value) else Ok(round.outcome)
    ensures r.Ok? ==> Attempted(r.value) <= 20
  {
    if !enabled {
      return Ok(ReportOutcome(0, 0, 0));
    }
    if store == null {
      return Err(MissingStore);
    }
    var fetched := store.PendingStatusEvents(now, REPORT_BATCH, queryFault);
    if fetched.Err? {
      return Err(StoreFailed);
    }
    var events, maxRetries := fetched.value, AtLeastOne(maxReportRetries);
    ghost var t := store.Rows();
    DueEventsAreABatch(t, now, REPORT_BATCH);
    var outcome := ReportOutcome(0, 0, 0);
    var n := 0;
    while n < |events|
      invariant 0 <= n <= |events|
      invariant Round(store.Rows(), outcome, None) == Attempts(t, events[..n], answers, now, maxRetries)
    {
      assert events[..n + 1][..n] == events[..n];
      RoundPrefix(t, events, n);
      RoundLaw(t, events[..n], answers, now, maxRetries);
      ghost var k := TargetRow(t, events, n, store.Rows());
      var error;
      outcome, error := DeliverOne(store, events[n], answers(n), now, maxRetries, outcome, k);
      if error.Some? {
        RoundStopped(t, events, n + 1, answers, now, maxRetries);
        return Err(error.value);
      }
      n := n + 1;
    }
    assert events[..n] == events;
    RoundLaw(t, events, answers, now, maxRetries);
    DueEventsMeaning(t, now, REPORT_BATCH);
    return Ok(outcome);
  }

  /** Reports one event and stores the result; `k` is the event's row. */
  method DeliverOne(store: Store, event: StatusEvent, answer: Answer, now: Time, maxRetries: nat, before: ReportOutcome, ghost k: nat)
    returns (outcome: ReportOutcome, error: Option<WorkerError>)
    requires KeysUnique(store.events) && k < |store.events| && store.events[k] == event
    modifies store
    ensures Round(store.Rows(), outcome, error)
         == Attempt(Round(old(store.Rows()), before, None), event, answer, now, maxRetries)
  {
    outcome, error := before, None;
    match answer
    case Misconfigured => error := Some(Client(true));
    case Received(fault) =>
      var marked := store.MarkEventDelivered(event.eventId, now, fault);
      if marked.Err? {
        error := Some(StoreFailed);
      } else {
        outcome := before.(delivered := before.delivered + 1);
      }
    case Unreachable(message, retryAt, fault) =>
      ghost var rows := store.events;
      assert rows[k] in rows && rows[k].eventId == event.eventId;
      var verdict := store.MarkDeliveryFailed(event.eventId, retryAt, message, maxRetries, fault);
      if verdict.Err? {
        error := Some(StoreFailed);
      } else {
        ghost var e :| e in rows && e.eventId == event.eventId && verdict.value == Verdict(e, maxRetries);
        OneRowPerId(rows, e, event);
        if verdict.value == GivenUp {
          outcome := before.(abandoned := before.abandoned + 1);
        } else {
          outcome := before.(willRetry := before.willRetry + 1);
        }
      }
  }

  lemma OneRowPerId(rows: seq<StatusEvent>, a: StatusEvent, b: StatusEvent)
    requires KeysUnique(rows) && a in rows && b in rows && a.eventId == b.eventId
    ensures a == b
  {
    var i :| 0 <= i < |rows| && rows[i] == a;
    var j :| 0 <= j < |rows| && rows[j] == b;
    assert !(i < j) && !(j < i);
  }

  lemma {:induction false} RoundStopped(t: Tables, events: seq<StatusEvent>, n: nat, answers: nat -> Answer, now: Time, maxRetries: nat)
    requires n <= |events| && Attempts(t, events[..n], answers, now, maxRetries).error.Some?
    ensures Attempts(t, events, answers, now, maxRetries) == Attempts(t, events[..n], answers, now, maxRetries)
  {
    if n == |events| {
      assert events[..n] == events;
    } else {
      var shorter := events[..|events| - 1];
      assert shorter[..n] == events[..n];
      RoundStopped(t, shorter, n, answers, now, maxRetries);
    }
  }
}
