/** Bounded retries over any history of inserts and delivery rounds under one retry limit. */
module ReportingLaws {
  import opened Outcomes
  import opened RemoteStore
  import opened Reporting
  import Polling
  import Query

  /** The failed attempts of a round that were counted as retries. */
  ghost function Counted(t: Tables, events: seq<StatusEvent>, answers: nat -> Answer, now: Time, limit: nat): seq<EventId> {
    if events == [] then []
    else
      var n := |events| - 1;
      Counted(t, events[..n], answers, now, limit)
        + if answers(n).Unreachable? && Attempts(t, events, answers, now, limit).error.None? then [events[n].eventId] else []
  }

  datatype Op = Insert(id: EventId, event: NewEvent) | DeliverDue(now: Time, answers: nat -> Answer)

  /** The tables and every counted retry so far. */
  datatype Outbox = Outbox(tables: Tables, counted: seq<EventId>)

  ghost function Perform(o: Outbox, op: Op, limit: nat): Outbox {
    match op
    case Insert(id, e) => o.(tables := InsertEvent(o.tables, id, e))
    case DeliverDue(now, answers) =>
      var events := DueEvents(o.tables, now, REPORT_BATCH);
      Outbox(Attempts(o.tables, events, answers, now, limit).tables,
             o.counted + Counted(o.tables, events, answers, now, limit))
  }

  ghost function Run(start: Outbox, ops: seq<Op>, limit: nat): Outbox {
    if ops == [] then start
    else Perform(Run(start, ops[..|ops| - 1], limit), ops[|ops| - 1], limit)
  }

  /** The retries a row may still use. */
  function Remaining(e: StatusEvent, limit: nat): nat {
    if e.delivery == Pending && e.retryCount < limit then limit - e.retryCount else 0
  }

  function Budget(rows: seq<StatusEvent>, limit: nat): nat {
    if rows == [] then 0 else Budget(rows[..|rows| - 1], limit) + Remaining(rows[|rows| - 1], limit)
  }

  /** A row's counter is exactly its number of counted retries, which the limit bounds. */
  ghost predicate RowSound(e: StatusEvent, counted: seq<EventId>, limit: nat) {
    && multiset(counted)[e.eventId] == e.retryCount <= limit
    && (e.delivery == Pending ==> e.retryCount < limit)
    && (e.delivery == Abandoned ==> e.retryCount == limit)
  }

  ghost predicate Sound(o: Outbox, limit: nat) {
    && KeysUnique(o.tables.events)
    && (forall i :: 0 <= i < |o.tables.events| ==> RowSound(o.tables.events[i], o.counted, limit))
    && (forall id :: id in o.counted ==> exists i :: 0 <= i < |o.tables.events| && o.tables.events[i].eventId == id)
  }

  lemma {:induction false} BudgetOfUpdate(rows: seq<StatusEvent>, k: nat, row: StatusEvent, limit: nat)
    requires k < |rows|
    ensures Budget(rows[k := row], limit) == Budget(rows, limit) - Remaining(rows[k], limit) + Remaining(row, limit)
    decreases |rows|
  {
    var n := |rows| - 1;
    if k == n {
      assert rows[k := row][..n] == rows[..n];
    } else {
      assert rows[k := row][..n] == rows[..n][k := row];
      BudgetOfUpdate(rows[..n], k, row, limit);
    }
  }

  /** What one attempt makes of its row. */
  ghost predicate RowOutcome(before: StatusEvent, after: StatusEvent, counts: bool, limit: nat) {
    && after.eventId == before.eventId
    && after.retryCount == before.retryCount + (if counts then 1 else 0)
    && (after.delivery == Pending ==> after.retryCount < limit)
    && (after.delivery == Abandoned ==> after.retryCount == limit)
  }

  lemma AttemptOnRow(r: Round, k: nat, answer: Answer, now: Time, limit: nat)
    requires 1 <= limit <= U32_MAX && r.error.None? && KeysUnique(r.tables.events)
    requires k < |r.tables.events| && r.tables.events[k].delivery == Pending && r.tables.events[k].retryCount < limit
    ensures var e := r.tables.events[k];
            var after := Attempt(r, e, answer, now, limit);
            var counts := after.error.None? && answer.Unreachable?;
            && |after.tables.events| == |r.tables.events|
            && RowOutcome(e, after.tables.events[k], counts, limit)
            && Remaining(after.tables.events[k], limit)
                == (if after.error.Some? then Remaining(e, limit) else if counts then Remaining(e, limit) - 1 else 0)
  {
    AttemptChangesOneRow(r, k, answer, now, limit);
  }

  /** Changing one row by one attempt keeps the outbox sound. */
  lemma OneRowSound(rows: seq<StatusEvent>, after: seq<StatusEvent>, t: Tables, k: nat, counted: seq<EventId>, counts: bool, limit: nat)
    requires Sound(Outbox(t, counted), limit) && t.events == rows && KeysUnique(after) && k < |rows| && |after| == |rows|
    requires forall i :: 0 <= i < |rows| && i != k ==> after[i] == rows[i]
    requires RowOutcome(rows[k], after[k], counts, limit) && (counts ==> rows[k].retryCount < limit)
    ensures Sound(Outbox(t.(events := after), counted + if counts then [rows[k].eventId] else []), limit)
  {
    var log := if counts then [rows[k].eventId] else [];
    forall i | 0 <= i < |rows| ensures RowSound(after[i], counted + log, limit) {
      assert RowSound(rows[i], counted, limit);
      assert i < k ==> rows[i].eventId != rows[k].eventId;
      assert k < i ==> rows[k].eventId != rows[i].eventId;
    }
    forall id | id in counted + log ensures exists i :: 0 <= i < |after| && after[i].eventId == id {
      if id in counted {
        var i :| 0 <= i < |rows| && rows[i].eventId == id;
        assert after[i].eventId == id;
      } else {
        assert after[k].eventId == id;
      }
    }
  }

  /** Each counted attempt takes exactly one from the budget; a delivery takes all that its row had left. */
  lemma AttemptSpendsBudget(r: Round, k: nat, answer: Answer, now: Time, limit: nat, counted: seq<EventId>)
    requires 1 <= limit <= U32_MAX && r.error.None?
    requires k < |r.tables.events| && r.tables.events[k].delivery == Pending && Sound(Outbox(r.tables, counted), limit)
    ensures var e := r.tables.events[k];
            var after := Attempt(r, e, answer, now, limit);
            var spent := if after.error.Some? then 0 else if answer.Unreachable? then 1 else Remaining(e, limit);
            var log := if after.error.None? && answer.Unreachable? then [e.eventId] else [];
            && Budget(after.tables.events, limit) == Budget(r.tables.events, limit) - spent
            && Sound(Outbox(after.tables, counted + log), limit)
            && (after.error.None? && answer.Received? ==> spent >= 1)
  {
    var rows, e := r.tables.events, r.tables.events[k];
    assert RowSound(rows[k], counted, limit);
    var after := Attempt(r, e, answer, now, limit);
    AttemptChangesOneRow(r, k, answer, now, limit);
    AttemptOnRow(r, k, answer, now, limit);
    assert after.tables.events == rows[k := after.tables.events[k]];
    BudgetOfUpdate(rows, k, after.tables.events[k], limit);
    OneRowSound(rows, after.tables.events, r.tables, k, counted, after.error.None? && answer.Unreachable?, limit);
    assert after.tables == r.tables.(events := after.tables.events);
  }

  lemma RoundStepSpends(r: Round, k: nat, answer: Answer, now: Time, limit: nat, counted: seq<EventId>)
    requires 1 <= limit <= U32_MAX && r.error.None?
    requires k < |r.tables.events| && r.tables.events[k].delivery == Pending && Sound(Outbox(r.tables, counted), limit)
    ensures var e := r.tables.events[k];
            var after := Attempt(r, e, answer, now, limit);
            var log := if answer.Unreachable? && after.error.None? then [e.eventId] else [];
            && Budget(after.tables.events, limit) + |log| + after.outcome.delivered
                 <= Budget(r.tables.events, limit) + r.outcome.delivered
            && Sound(Outbox(after.tables, counted + log), limit)
  {
    AttemptSpendsBudget(r, k, answer, now, limit, counted);
    AttemptDelivers(r, r.tables.events[k], answer, now, limit);
  }

  lemma AttemptDelivers(r: Round, e: StatusEvent, answer: Answer, now: Time, limit: nat)
    requires r.error.None?
    ensures var after := Attempt(r, e, answer, now, limit);
            after.outcome.delivered == r.outcome.delivered + if answer.Received? && after.error.None? then 1 else 0
  {
  }

  /** A whole round spends at least one per counted attempt and per delivery. */
  lemma {:induction false} RoundSpendsBudget(o: Outbox, events: seq<StatusEvent>, answers: nat -> Answer, now: Time, limit: nat)
    requires 1 <= limit <= U32_MAX && Sound(o, limit) && Batch(o.tables, events)
    ensures var r, counted := Attempts(o.tables, events, answers, now, limit), Counted(o.tables, events, answers, now, limit);
            && Budget(r.tables.events, limit) + |counted| + r.outcome.delivered <= Budget(o.tables.events, limit)
            && Sound(Outbox(r.tables, o.counted + counted), limit)
  {
    if events == [] {
      assert o.counted + [] == o.counted;
    } else {
      var n := |events| - 1;
      var before, earlier := Attempts(o.tables, events[..n], answers, now, limit), Counted(o.tables, events[..n], answers, now, limit);
      assert Batch(o.tables, events[..n]) by { RoundPrefix(o.tables, events, n); }
      RoundSpendsBudget(o, events[..n], answers, now, limit);
      LastAttemptSpends(o, events, answers, now, limit, before, earlier);
    }
  }

  lemma RowOfNext(t: Tables, events: seq<StatusEvent>, answers: nat -> Answer, now: Time, limit: nat) returns (k: nat)
    requires events != [] && Batch(t, events)
    ensures var n := |events| - 1;
            var rows := Attempts(t, events[..n], answers, now, limit).tables.events;
            k < |rows| && rows[k] == events[n] && rows[k].delivery == Pending
  {
    var n := |events| - 1;
    RoundPrefix(t, events, n);
    RoundLaw(t, events[..n], answers, now, limit);
    k := TargetRow(t, events, n, Attempts(t, events[..n], answers, now, limit).tables);
    assert events[n] in events;
  }

  lemma LastAttemptSpends(o: Outbox, events: seq<StatusEvent>, answers: nat -> Answer, now: Time, limit: nat,
                          before: Round, earlier: seq<EventId>)
    requires 1 <= limit <= U32_MAX && events != [] && Batch(o.tables, events)
    requires before == Attempts(o.tables, events[..|events| - 1], answers, now, limit)
    requires earlier == Counted(o.tables, events[..|events| - 1], answers, now, limit)
    requires Sound(Outbox(before.tables, o.counted + earlier), limit)
    ensures var r, counted := Attempts(o.tables, events, answers, now, limit), Counted(o.tables, events, answers, now, limit);
            && Budget(r.tables.events, limit) + |counted| + r.outcome.delivered
                 <= Budget(before.tables.events, limit) + |earlier| + before.outcome.delivered
            && Sound(Outbox(r.tables, o.counted + counted), limit)
  {
    var n := |events| - 1;
    var r, counted := Attempts(o.tables, events, answers, now, limit), Counted(o.tables, events, answers, now, limit);
    if before.error.Some? {
      assert r == before && counted == earlier;
    } else {
      var k := RowOfNext(o.tables, events, answers, now, limit);
      var log := if answers(n).Unreachable? && r.error.None? then [events[n].eventId] else [];
      assert counted == earlier + log && o.counted + counted == (o.counted + earlier) + log;
      RoundStepSpends(before, k, answers(n), now, limit, o.counted + earlier);
    }
  }

  /** From an empty outbox, any history keeps the counters exact and every report within the limit. */
  lemma {:induction false} RetriesAreBounded(ops: seq<Op>, limit: nat)
    requires 1 <= limit <= U32_MAX
    ensures var o := Run(Outbox(NO_ROWS, []), ops, limit);
            Sound(o, limit) && forall id :: multiset(o.counted)[id] <= limit
  {
    var start := Outbox(NO_ROWS, []);
    var o := Run(start, ops, limit);
    if ops != [] {
      RetriesAreBounded(ops[..|ops| - 1], limit);
      PerformSound(Run(start, ops[..|ops| - 1], limit), ops[|ops| - 1], limit);
    }
    forall id ensures multiset(o.counted)[id] <= limit {
      if id in o.counted {
        var i :| 0 <= i < |o.tables.events| && o.tables.events[i].eventId == id;
        assert RowSound(o.tables.events[i], o.counted, limit);
      }
    }
  }

  lemma PerformSound(o: Outbox, op: Op, limit: nat)
    requires 1 <= limit <= U32_MAX && Sound(o, limit)
    ensures Sound(Perform(o, op, limit), limit)
    ensures Evolves(o.tables.events, Perform(o, op, limit).tables.events)
  {
    match op
    case Insert(id, e) =>
      var rows := InsertEvent(o.tables, id, e).events;
      InsertKeepsKeys(o.tables, id, e);
      assert forall i :: 0 <= i < |o.tables.events| ==> rows[i] == o.tables.events[i];
      if !Conflicts(o.tables.events, id, e) {
        assert forall i :: 0 <= i < |o.tables.events| ==> o.tables.events[i].eventId != id;
        assert id !in o.counted;
      }
    case DeliverDue(now, answers) =>
      var events := DueEvents(o.tables, now, REPORT_BATCH);
      DueEventsAreABatch(o.tables, now, REPORT_BATCH);
      RoundSpendsBudget(o, events, answers, now, limit);
      RoundLaw(o.tables, events, answers, now, limit);
  }

  /** Delivered and abandoned are final: whatever happens later, such a row stays exactly as it is. */
  lemma {:induction false} SettledReportsAreFinal(o: Outbox, ops: seq<Op>, limit: nat)
    requires 1 <= limit <= U32_MAX && Sound(o, limit)
    ensures Sound(Run(o, ops, limit), limit) && Evolves(o.tables.events, Run(o, ops, limit).tables.events)
  {
    if ops != [] {
      var before := Run(o, ops[..|ops| - 1], limit);
      SettledReportsAreFinal(o, ops[..|ops| - 1], limit);
      PerformSound(before, ops[|ops| - 1], limit);
      EvolvesTransitive(o.tables.events, before.tables.events, Perform(before, ops[|ops| - 1], limit).tables.events);
    }
  }

  // -------------------------------------------------------------------------
  // What a round makes of each report
  // -------------------------------------------------------------------------

  /** What the answer to one report leaves in its row. */
  ghost predicate AnswerShows(before: StatusEvent, after: StatusEvent, answer: Answer, now: Time, maxRetries: nat) {
    match answer
    case Misconfigured => false
    case Received(fault) => !fault && DeliveryShows(before, after, now)
    case Unreachable(message, retryAt, fault) => !fault && FailureShows(before, after, retryAt, message, maxRetries)
  }

  lemma AttemptShows(r: Round, k: nat, answer: Answer, now: Time, maxRetries: nat)
    requires r.error.None? && KeysUnique(r.tables.events) && k < |r.tables.events| && r.tables.events[k].delivery == Pending
    ensures var e := r.tables.events[k];
            var after := Attempt(r, e, answer, now, maxRetries);
            && (after.error.None? ==> AnswerShows(e, after.tables.events[k], answer, now, maxRetries))
            && (after.error.Some? ==> after.tables == r.tables && after.outcome == r.outcome)
  {
    var e := r.tables.events[k];
    if answer.Received? {
      DeliveryIsShown(r.tables, e.eventId, now);
    } else if answer.Unreachable? {
      FailureIsShown(r.tables, e.eventId, answer.retryAt, answer.message, maxRetries);
    }
  }

  /** The rows of the fetched reports after a round, by the answers. */
  ghost predicate AllAnswersShow(t: Tables, later: Tables, events: seq<StatusEvent>, answers: nat -> Answer, now: Time, maxRetries: nat) {
    && |later.events| == |t.events|
    && forall n, k :: 0 <= n < |events| && 0 <= k < |t.events| && t.events[k] == events[n] ==>
         AnswerShows(events[n], later.events[k], answers(n), now, maxRetries)
  }

  /** After a round without error every fetched report shows its own answer: delivered, or failed with its retry time. */
  lemma {:induction false} RoundShowsItsAnswers(t: Tables, events: seq<StatusEvent>, answers: nat -> Answer, now: Time, maxRetries: nat)
    requires Batch(t, events) && Attempts(t, events, answers, now, maxRetries).error.None?
    ensures AllAnswersShow(t, Attempts(t, events, answers, now, maxRetries).tables, events, answers, now, maxRetries)
  {
    RoundLaw(t, events, answers, now, maxRetries);
    if events != [] {
      var n := |events| - 1;
      var before := Attempts(t, events[..n], answers, now, maxRetries);
      RoundPrefix(t, events, n);
      RoundShowsItsAnswers(t, events[..n], answers, now, maxRetries);
      RoundLaw(t, events[..n], answers, now, maxRetries);
      var k := TargetRow(t, events, n, before.tables);
      AttemptShows(before, k, answers(n), now, maxRetries);
      AttemptChangesOneRow(before, k, answers(n), now, maxRetries);
      OneMoreAnswer(t, before.tables, Attempts(t, events, answers, now, maxRetries).tables, events, answers, now, maxRetries, k);
    }
  }

  lemma OneMoreAnswer(t: Tables, before: Tables, after: Tables, events: seq<StatusEvent>, answers: nat -> Answer,
                      now: Time, maxRetries: nat, k: nat)
    requires events != [] && Batch(t, events) && AllAnswersShow(t, before, events[..|events| - 1], answers, now, maxRetries)
    requires k < |t.events| == |after.events| && t.events[k] == events[|events| - 1]
    requires forall i :: 0 <= i < |t.events| && i != k ==> after.events[i] == before.events[i]
    requires AnswerShows(t.events[k], after.events[k], answers(|events| - 1), now, maxRetries)
    ensures AllAnswersShow(t, after, events, answers, now, maxRetries)
  {
    var n := |events| - 1;
    forall m, j | 0 <= m < |events| && 0 <= j < |t.events| && t.events[j] == events[m]
      ensures AnswerShows(events[m], after.events[j], answers(m), now, maxRetries)
    {
      if m == n {
        RowOnce(t.events, j, k);
      } else {
        assert events[..n][m] == events[m] && events[m] != events[n];
      }
    }
  }

  lemma RowOnce(rows: seq<StatusEvent>, i: nat, j: nat)
    requires KeysUnique(rows) && i < |rows| && j < |rows| && rows[i] == rows[j]
    ensures i == j
  {
  }

  function HowMany(n: nat, which: nat -> bool): nat {
    if n == 0 then 0 else HowMany(n - 1, which) + if which(n - 1) then 1 else 0
  }

  lemma {:induction false} HowManySame(n: nat, a: nat -> bool, b: nat -> bool)
    requires forall i: nat :: i < n ==> a(i) == b(i)
    ensures HowMany(n, a) == HowMany(n, b)
  {
    if n > 0 { HowManySame(n - 1, a, b); }
  }

  /** One more failure makes the report give up. */
  predicate IsLastTry(e: StatusEvent, maxRetries: nat) {
    (if e.retryCount < U32_MAX then e.retryCount + 1 else U32_MAX) >= maxRetries
  }

  function Delivers(answers: nat -> Answer): nat -> bool {
    (n: nat) => answers(n).Received?
  }

  function GivesUp(events: seq<StatusEvent>, answers: nat -> Answer, maxRetries: nat): nat -> bool {
    (n: nat) => n < |events| && answers(n).Unreachable? && IsLastTry(events[n], maxRetries)
  }

  function TriesAgain(events: seq<StatusEvent>, answers: nat -> Answer, maxRetries: nat): nat -> bool {
    (n: nat) => n < |events| && answers(n).Unreachable? && !IsLastTry(events[n], maxRetries)
  }

  /** The three counters of a round without error count the deliveries, the reports to try again and those given up. */
  lemma {:induction false} RoundCounts(t: Tables, events: seq<StatusEvent>, answers: nat -> Answer, now: Time, maxRetries: nat)
    requires Attempts(t, events, answers, now, maxRetries).error.None?
    ensures var o, n := Attempts(t, events, answers, now, maxRetries).outcome, |events|;
            && o.delivered == HowMany(n, Delivers(answers))
            && o.abandoned == HowMany(n, GivesUp(events, answers, maxRetries))
            && o.willRetry == HowMany(n, TriesAgain(events, answers, maxRetries))
  {
    if events != [] {
      var n := |events| - 1;
      RoundCounts(t, events[..n], answers, now, maxRetries);
      HowManySame(n, GivesUp(events[..n], answers, maxRetries), GivesUp(events, answers, maxRetries));
      HowManySame(n, TriesAgain(events[..n], answers, maxRetries), TriesAgain(events, answers, maxRetries));
    }
  }

  /** An answer that ends the round, and the error it ends with. */
  predicate EndsRound(answer: Answer, error: Polling.WorkerError) {
    match answer
    case Misconfigured => error == Polling.Client(true)
    case Received(fault) => fault && error == Polling.StoreFailed
    case Unreachable(_, _, fault) => fault && error == Polling.StoreFailed
  }

  predicate Continues(answer: Answer) {
    !answer.Misconfigured? && !answer.fault
  }

  /** A round ends early exactly at its first answer that does not continue it, with the tables and counters reached by then. */
  lemma {:induction false} RoundStopsAtTheFirst(t: Tables, events: seq<StatusEvent>, answers: nat -> Answer, now: Time, maxRetries: nat)
    returns (n: nat)
    ensures var r := Attempts(t, events, answers, now, maxRetries);
            && (r.error.None? ==> forall i: nat :: i < |events| ==> Continues(answers(i)))
            && (r.error.Some? ==>
                  && n < |events| && EndsRound(answers(n), r.error.value) && (forall i: nat :: i < n ==> Continues(answers(i)))
                  && r.tables == Attempts(t, events[..n], answers, now, maxRetries).tables
                  && r.outcome == Attempts(t, events[..n], answers, now, maxRetries).outcome)
  {
    n := 0;
    if events != [] {
      var m := |events| - 1;
      n := RoundStopsAtTheFirst(t, events[..m], answers, now, maxRetries);
      if Attempts(t, events[..m], answers, now, maxRetries).error.None? {
        n := m;
      } else {
        assert events[..m][..n] == events[..n];
      }
    }
  }
}
