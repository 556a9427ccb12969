/** What a WebSocket connection is told over any run: its own jobs' statuses, in order, after their answer. */
module PipelineConnections {
  import opened Outcomes
  import opened Protocol
  import opened JobQueue
  import opened Activity
  import opened Pipeline
  import opened PipelineQueue
  import PrintWorker
  import Polling
  import Query
  import QueueHistory
  import Server

  // -------------------------------------------------------------------------
  // Reading what a connection was sent
  // -------------------------------------------------------------------------

  function StatusesSent(sent: seq<Message>): seq<LogEntry> {
    if sent == [] then []
    else
      var last := sent[|sent| - 1];
      StatusesSent(sent[..|sent| - 1]) + if last.Status? then [last.entry] else []
  }

  function AnsweredIds(sent: seq<Message>): set<string> {
    if sent == [] then {}
    else
      var last := sent[|sent| - 1];
      AnsweredIds(sent[..|sent| - 1]) + if last.Reply? then AsSet(last.ids) else {}
  }

  /** The entries at some positions of the broadcast that belong to some jobs. */
  function Picked(bus: seq<LogEntry>, positions: seq<nat>, ids: set<string>): seq<LogEntry>
    requires forall i :: 0 <= i < |positions| ==> positions[i] < |bus|
  {
    if positions == [] then []
    else
      var entry := bus[positions[|positions| - 1]];
      Picked(bus, positions[..|positions| - 1], ids) + if entry.jobId in ids then [entry] else []
  }

  /** Ids accepted for the connection whose answer is still to be sent. */
  function Promised(c: Connection): set<string> {
    if c.duty.Ready? then {} else AsSet(c.duty.ids)
  }

  /** Every job the connection ever got accepted. */
  function Submitted(c: Connection): set<string> {
    c.followed + Promised(c)
  }

  // -------------------------------------------------------------------------
  // The invariant of one connection
  // -------------------------------------------------------------------------

  ghost predicate Increasing(positions: seq<nat>, from: nat, to: nat) {
    && (forall i :: 0 <= i < |positions| ==> from <= positions[i] < to)
    && forall i, j :: 0 <= i < j < |positions| ==> positions[i] < positions[j]
  }

  /** No entry before position `n` belongs to one of the jobs. */
  ghost predicate NotYetHeardOf(bus: seq<LogEntry>, n: nat, ids: set<string>) {
    forall k :: 0 <= k < n && k < |bus| ==> bus[k].jobId !in ids
  }

  ghost predicate AnswerFirst(sent: seq<Message>) {
    forall k :: 0 <= k < |sent| && sent[k].Status? ==> sent[k].entry.jobId in AnsweredIds(sent[..k])
  }

  ghost predicate Faithful(c: Connection, bus: seq<LogEntry>) {
    && c.start <= c.cursor <= |bus| && Increasing(c.heard, c.start, c.cursor)
    && c.followed == AnsweredIds(c.sent) && AnswerFirst(c.sent)
    && NotYetHeardOf(bus, c.start, Submitted(c)) && NotYetHeardOf(bus, c.cursor, Promised(c))
    && StatusesSent(c.sent) == Picked(bus, c.heard, Submitted(c))
  }

  lemma {:induction false} PickedOfLongerBus(bus: seq<LogEntry>, more: seq<LogEntry>, positions: seq<nat>, ids: set<string>)
    requires forall i :: 0 <= i < |positions| ==> positions[i] < |bus|
    ensures Picked(bus + more, positions, ids) == Picked(bus, positions, ids)
  {
    if positions != [] { PickedOfLongerBus(bus, more, positions[..|positions| - 1], ids); }
  }

  lemma {:induction false} PickedOfMoreIds(bus: seq<LogEntry>, positions: seq<nat>, ids: set<string>, more: set<string>)
    requires forall i :: 0 <= i < |positions| ==> positions[i] < |bus| && bus[positions[i]].jobId !in more
    ensures Picked(bus, positions, ids + more) == Picked(bus, positions, ids)
  {
    if positions != [] { PickedOfMoreIds(bus, positions[..|positions| - 1], ids, more); }
  }

  lemma SentOneMore(sent: seq<Message>, m: Message)
    ensures StatusesSent(sent + [m]) == StatusesSent(sent) + if m.Status? then [m.entry] else []
    ensures AnsweredIds(sent + [m]) == AnsweredIds(sent) + if m.Reply? then AsSet(m.ids) else {}
    ensures AnswerFirst(sent) && (m.Status? ==> m.entry.jobId in AnsweredIds(sent)) ==> AnswerFirst(sent + [m])
  {
    var longer := sent + [m];
    assert longer[..|sent|] == sent;
    assert forall k :: 0 <= k < |sent| ==> longer[k] == sent[k] && longer[..k] == sent[..k];
  }

  /** A new entry on the broadcast changes nothing for a connection yet. */
  lemma BroadcastKeepsFaithful(c: Connection, bus: seq<LogEntry>, entry: LogEntry)
    requires Faithful(c, bus)
    ensures Faithful(c, bus + [entry])
  {
    PickedOfLongerBus(bus, [entry], c.heard, Submitted(c));
  }

  lemma SubmitFaithful(c: Connection, bus: seq<LogEntry>, response: Server.Response, ids: seq<string>)
    requires Faithful(c, bus) && c.duty.Ready? && NotYetHeardOf(bus, |bus|, AsSet(ids))
    ensures Faithful(c.(duty := Announcing(response, ids)), bus)
    ensures Faithful(c.(duty := Answering(response, ids)), bus)
  {
    PickedOfMoreIds(bus, c.heard, c.followed, AsSet(ids));
    assert c.followed + {} == c.followed;
  }

  lemma AnswerFaithful(c: Connection, bus: seq<LogEntry>)
    requires Faithful(c, bus) && c.duty.Answering?
    ensures Faithful(c.(followed := c.followed + AsSet(c.duty.ids), sent := c.sent + [Reply(c.duty.response, c.duty.ids)], duty := Ready), bus)
  {
    SentOneMore(c.sent, Reply(c.duty.response, c.duty.ids));
    assert Submitted(c) + {} == Submitted(c);
  }

  function AfterHearing(c: Connection, entry: LogEntry): Connection {
    c.(cursor := c.cursor + 1, heard := c.heard + [c.cursor],
       sent := c.sent + if entry.jobId in c.followed then [Status(entry)] else [])
  }

  /** Hearing the next entry extends what was picked by exactly that entry, if it is the connection's own. */
  lemma PickedOneMore(bus: seq<LogEntry>, positions: seq<nat>, next: nat, ids: set<string>)
    requires next < |bus| && forall i :: 0 <= i < |positions| ==> positions[i] < |bus|
    ensures Picked(bus, positions + [next], ids) == Picked(bus, positions, ids) + if bus[next].jobId in ids then [bus[next]] else []
  {
    assert (positions + [next])[..|positions|] == positions;
  }

  lemma SentAfterHearing(c: Connection, entry: LogEntry)
    requires AnswerFirst(c.sent) && c.followed == AnsweredIds(c.sent)
    ensures var c' := AfterHearing(c, entry);
            && AnswerFirst(c'.sent) && AnsweredIds(c'.sent) == c.followed
            && StatusesSent(c'.sent) == StatusesSent(c.sent) + if entry.jobId in c.followed then [entry] else []
  {
    if entry.jobId in c.followed {
      SentOneMore(c.sent, Status(entry));
    } else {
      assert c.sent + [] == c.sent;
    }
  }

  lemma ReceiveFaithful(c: Connection, bus: seq<LogEntry>)
    requires Faithful(c, bus) && c.duty.Ready? && c.cursor < |bus|
    ensures Faithful(AfterHearing(c, bus[c.cursor]), bus)
  {
    var c' := AfterHearing(c, bus[c.cursor]);
    assert Submitted(c) == c.followed == Submitted(c');
    PickedOneMore(bus, c.heard, c.cursor, c.followed);
    SentAfterHearing(c, bus[c.cursor]);
    HeardOneMore(c.heard, c.start, c.cursor);
  }

  lemma HeardOneMore(heard: seq<nat>, start: nat, cursor: nat)
    requires Increasing(heard, start, cursor) && start <= cursor
    ensures Increasing(heard + [cursor], start, cursor + 1)
  {
  }

  // -------------------------------------------------------------------------
  // All connections together
  // -------------------------------------------------------------------------

  ghost predicate Separate(connections: map<nat, Connection>) {
    forall a, b :: a in connections && b in connections && a != b ==> Submitted(connections[a]) !! Submitted(connections[b])
  }

  ghost predicate Served(s: State) {
    && (forall id :: id in s.connections ==> Faithful(s.connections[id], s.bus) && Submitted(s.connections[id]) <= s.queue.seenJobs)
    && (forall k :: 0 <= k < |s.bus| ==> s.bus[k].jobId in s.queue.seenJobs)
    && Separate(s.connections)
  }

  /** One connection changes: it stays faithful, within the seen ids, and apart from the others. */
  lemma OneConnectionServed(s: State, s': State, id: nat)
    requires Served(s) && s'.bus == s.bus && s.queue.seenJobs <= s'.queue.seenJobs
    requires id in s'.connections && s'.connections == s.connections[id := s'.connections[id]]
    requires Faithful(s'.connections[id], s.bus) && Submitted(s'.connections[id]) <= s'.queue.seenJobs
    requires Submitted(s'.connections[id]) <= (if id in s.connections then Submitted(s.connections[id]) else {}) + (s'.queue.seenJobs - s.queue.seenJobs)
    ensures Served(s')
  {
    forall a, b | a in s'.connections && b in s'.connections && a != b
      ensures Submitted(s'.connections[a]) !! Submitted(s'.connections[b])
    {
      if a == id {
        assert Submitted(s.connections[b]) <= s.queue.seenJobs;
      } else if b == id {
        assert Submitted(s.connections[a]) <= s.queue.seenJobs;
      }
    }
  }

  lemma MessageIdsAsSet(m: Server.ClientMessage)
    ensures AsSet(Server.MessageIds(m)) == JobIds(Server.MessageJobs(m))
  {
    var jobs, ids := Server.MessageJobs(m), Server.MessageIds(m);
    forall id | id in JobIds(jobs) ensures id in AsSet(ids) {
      var i :| 0 <= i < |jobs| && jobs[i].jobId == id;
      assert ids[i] == id;
    }
    forall id | id in AsSet(ids) ensures id in JobIds(jobs) {
      var i :| 0 <= i < |ids| && ids[i] == id;
      assert jobs[i].jobId == id;
    }
  }

  /** The ids of an accepted submission were not seen before. */
  lemma AcceptedIdsUnseen(lib: Library, c: Contents, s: Submission)
    requires Refusal(lib, c, s).None?
    ensures Accept(lib, c, s).seenJobs - c.seenJobs == JobIds(s.jobs)
  {
    forall id | id in JobIds(s.jobs) ensures id !in c.seenJobs {
      assert id !in JobIds(s.jobs) * c.seenJobs;
    }
  }

  /** The ids of an accepted message are new to the queue. */
  lemma AcceptedIdsAreNew(lib: Library, limits: Server.Limits, header: Server.Header, m: Server.ClientMessage, c: Contents)
    ensures var h := Server.Handle(lib, limits, header, m, c);
            && c.seenJobs <= h.queue.seenJobs
            && (h.response.Accepted? ==> AsSet(h.ids) == h.queue.seenJobs - c.seenJobs)
            && (!h.response.Accepted? ==> h.ids == [] && h.queue == c)
  {
    if Server.Handle(lib, limits, header, m, c).response.Accepted? {
      AcceptedIdsUnseen(lib, c, Server.Screen(lib, limits, header, m).value);
      MessageIdsAsSet(m);
    }
  }

  lemma SubmitServed(lib: Library, s: State, id: nat, limits: Server.Limits, m: Server.ClientMessage)
    requires Served(s)
    ensures Served(AfterSubmit(lib, s, id, limits, m))
  {
    if id in s.connections && s.connections[id].duty.Ready? {
      var h := Server.Handle(lib, limits, s.connections[id].header, m, s.queue);
      AcceptedIdsAreNew(lib, limits, s.connections[id].header, m, s.queue);
      SubmittedServed(s, AfterSubmit(lib, s, id, limits, m), id, h);
    }
  }

  lemma SubmittedServed(s: State, s': State, id: nat, h: Server.Handled)
    requires Served(s) && id in s.connections && s.connections[id].duty.Ready?
    requires s.queue.seenJobs <= h.queue.seenJobs && AsSet(h.ids) <= h.queue.seenJobs - s.queue.seenJobs
    requires var duty := if h.response.Accepted? then Announcing(h.response, h.ids) else Answering(h.response, h.ids);
             s' == SetConnection(s, id, s.connections[id].(duty := duty)).(queue := h.queue)
    ensures Served(s')
  {
    SubmitFaithful(s.connections[id], s.bus, h.response, h.ids);
    OneConnectionServed(s, s', id);
  }

  lemma ConnectServed(s: State, id: nat, header: Server.Header)
    requires Served(s)
    ensures Served(AfterConnect(s, id, header))
  {
    if id !in s.connections { OneConnectionServed(s, AfterConnect(s, id, header), id); }
  }

  lemma AnswerServed(s: State, id: nat)
    requires Served(s)
    ensures Served(AfterAnswer(s, id))
  {
    if id in s.connections && s.connections[id].duty.Answering? {
      AnswerFaithful(s.connections[id], s.bus);
      OneConnectionServed(s, AfterAnswer(s, id), id);
    }
  }

  lemma AnnounceServed(s: State, id: nat)
    requires Served(s)
    ensures Served(AfterAnnounce(s, id))
  {
    if id in s.connections && s.connections[id].duty.Announcing? {
      assert Faithful(s.connections[id], s.bus);
      OneConnectionServed(s, AfterAnnounce(s, id), id);
    }
  }

  lemma ReceiveServed(s: State, id: nat)
    requires Served(s)
    ensures Served(AfterReceive(s, id))
  {
    var s' := AfterReceive(s, id);
    if s' != s {
      var c := s.connections[id];
      ReceiveFaithful(c, s.bus);
      assert s'.connections[id] == AfterHearing(c, s.bus[c.cursor]);
      OneConnectionServed(s, s', id);
    }
  }

  lemma LagServed(s: State, id: nat)
    requires Served(s)
    ensures Served(AfterLag(s, id))
  {
    var s' := AfterLag(s, id);
    if s' != s {
      assert Faithful(s.connections[id], s.bus);
      OneConnectionServed(s, s', id);
    }
  }

  lemma BroadcastServed(lib: Library, s: State)
    requires Served(s) && QueueLawful(lib, s) && SerialState(s)
    ensures Served(AfterBroadcast(s))
  {
    var f, s' := s.worker.phase, AfterBroadcast(s);
    if s' != s {
      assert (Jobs(s.past.runs) + s.queue.pending)[|s.past.runs| - 1] == f.job;
      assert f.job.job.jobId in s.queue.seenJobs;
      forall id | id in s.connections ensures Faithful(s.connections[id], s'.bus) {
        BroadcastKeepsFaithful(s.connections[id], s.bus, PrintWorker.EntryFor(f.job, f.left[0]));
      }
    }
  }

  lemma StepKeepsServed(lib: Library, s: State, step: Step)
    requires Served(s) && QueueLawful(lib, s) && SerialState(s)
    ensures Served(Next(lib, s, step))
  {
    match step
    case Connect(id, header) => ConnectServed(s, id, header);
    case Submit(id, limits, m) => SubmitServed(lib, s, id, limits, m);
    case Announce(id) => AnnounceServed(s, id);
    case Answer(id) => AnswerServed(s, id);
    case Receive(id) => ReceiveServed(s, id);
    case Lag(id) => LagServed(s, id);
    case Broadcast => BroadcastServed(lib, s);
    case _ => QuietServed(lib, s, step);
  }

  /** All other steps leave the broadcast alone, and connections too, unless they end them. */
  lemma QuietServed(lib: Library, s: State, step: Step)
    requires Served(s)
    requires !step.Connect? && !step.Submit? && !step.Announce? && !step.Answer? && !step.Receive? && !step.Lag? && !step.Broadcast?
    ensures Served(Next(lib, s, step))
  {
    var s' := Next(lib, s, step);
    if step.Restart? {
      assert s'.connections == map[] && s'.bus == [];
    } else {
      ConnectionsOnlyEnd(lib, s, step);
      FewerConnectionsServed(s, s');
    }
  }

  lemma ConnectionsOnlyEnd(lib: Library, s: State, step: Step)
    requires !step.Connect? && !step.Submit? && !step.Announce? && !step.Answer? && !step.Receive? && !step.Lag? && !step.Broadcast?
    requires !step.Restart?
    ensures var s' := Next(lib, s, step);
            && s'.bus == s.bus && s.queue.seenJobs <= s'.queue.seenJobs
            && forall id :: id in s'.connections ==> id in s.connections && s'.connections[id] == s.connections[id]
  {
  }

  lemma FewerConnectionsServed(s: State, s': State)
    requires Served(s) && s'.bus == s.bus && s.queue.seenJobs <= s'.queue.seenJobs
    requires forall id :: id in s'.connections ==> id in s.connections && s'.connections[id] == s.connections[id]
    ensures Served(s')
  {
    assert forall id :: id in s'.connections ==> Submitted(s'.connections[id]) <= s.queue.seenJobs;
  }

  lemma {:induction false} AlwaysServed(lib: Library, steps: seq<Step>)
    ensures Served(Run(lib, steps))
  {
    if steps != [] {
      var shorter := steps[..|steps| - 1];
      AlwaysServed(lib, shorter);
      AlwaysQueueLawful(lib, shorter);
      AlwaysSerial(lib, shorter);
      StepKeepsServed(lib, Run(lib, shorter), steps[|steps| - 1]);
    }
  }

  // -------------------------------------------------------------------------
  // Remote jobs stay out of it
  // -------------------------------------------------------------------------

  ghost predicate RemoteApart(jobs: seq<QueuedJob>, connections: map<nat, Connection>) {
    forall i, id :: 0 <= i < |jobs| && jobs[i].remote && id in connections ==> jobs[i].job.jobId !in Submitted(connections[id])
  }

  ghost predicate RemoteApartState(s: State) {
    RemoteApart(Jobs(s.past.runs) + s.queue.pending, s.connections)
  }

  lemma SubmitApart(lib: Library, s: State, step: Step)
    requires RemoteApartState(s) && QueueLawful(lib, s) && step.Submit?
    ensures RemoteApartState(Next(lib, s, step))
  {
    var s', id := Next(lib, s, step), step.id;
    if id in s.connections && s.connections[id].duty.Ready? {
      AcceptedIdsAreNew(lib, step.limits, s.connections[id].header, step.message, s.queue);
      var before, after := Jobs(s.past.runs) + s.queue.pending, Jobs(s'.past.runs) + s'.queue.pending;
      forall i | 0 <= i < |before| ensures after[i] == before[i] && before[i].job.jobId in s.queue.seenJobs {
        assert before[i].job.jobId in QueueHistory.EntryIds(before);
      }
      assert forall i :: |before| <= i < |after| ==> !after[i].remote;
      assert Submitted(s'.connections[id]) * s.queue.seenJobs <= Submitted(s.connections[id]);
    }
  }

  lemma HandOverApart(lib: Library, s: State)
    requires RemoteApartState(s) && Served(s)
    ensures RemoteApartState(AfterHandOver(lib, s))
  {
    var s' := AfterHandOver(lib, s);
    if s'.poller.Waking? && s.poller.Taking? {
      var before, after := Jobs(s.past.runs) + s.queue.pending, Jobs(s'.past.runs) + s'.queue.pending;
      var jobs, sub := s.poller.newJobs, Polling.Handover(s.poller.task, s.poller.newJobs);
      assert Refusal(lib, s.queue, sub).None? && after == before + Entries(lib, sub);
      forall i | |before| <= i < |after| ensures after[i].job.jobId !in s.queue.seenJobs {
        assert after[i].job == jobs[i - |before|] && jobs[i - |before|].jobId in JobIds(jobs);
        assert after[i].job.jobId !in JobIds(sub.jobs) * s.queue.seenJobs;
      }
    }
  }

  lemma PopApart(lib: Library, s: State, step: Step)
    requires RemoteApartState(s) && step.Pop?
    ensures RemoteApartState(Next(lib, s, step))
  {
    if s.worker.phase.Popping? && s.queue.pending != [] {
      PopMovesTheFirst(s.queue.pending, s.past.runs, Next(lib, s, step).past.runs[|s.past.runs|]);
    }
  }

  lemma StepKeepsApart(lib: Library, s: State, step: Step)
    requires RemoteApartState(s) && QueueLawful(lib, s) && Served(s)
    ensures RemoteApartState(Next(lib, s, step))
  {
    match step
    case Submit(_, _, _) => SubmitApart(lib, s, step);
    case HandOver => HandOverApart(lib, s);
    case Pop(_, _) => PopApart(lib, s, step);
    case _ => QuietApart(lib, s, step);
  }

  lemma QuietApart(lib: Library, s: State, step: Step)
    requires RemoteApartState(s) && !step.Submit? && !step.HandOver? && !step.Pop?
    ensures RemoteApartState(Next(lib, s, step))
  {
    if !step.Restart? {
      OnlyTheseChangeTheQueue(lib, s, step);
      NothingNewSubmitted(lib, s, step);
      FewerSubmittedApart(s, Next(lib, s, step));
    }
  }

  lemma NothingNewSubmitted(lib: Library, s: State, step: Step)
    requires !step.Submit? && !step.Restart?
    ensures var s' := Next(lib, s, step);
            forall id :: id in s'.connections ==>
              Submitted(s'.connections[id]) == if id in s.connections then Submitted(s.connections[id]) else {}
  {
    if !ChangesConnections(step) { OnlyTheseChangeConnections(lib, s, step); }
  }

  lemma FewerSubmittedApart(s: State, s': State)
    requires RemoteApartState(s) && s'.past.runs == s.past.runs && s'.queue == s.queue
    requires forall id :: id in s'.connections ==>
               Submitted(s'.connections[id]) == if id in s.connections then Submitted(s.connections[id]) else {}
    ensures RemoteApartState(s')
  {
  }

  lemma {:induction false} AlwaysApart(lib: Library, steps: seq<Step>)
    ensures RemoteApartState(Run(lib, steps))
  {
    if steps != [] {
      var shorter := steps[..|steps| - 1];
      AlwaysApart(lib, shorter);
      AlwaysQueueLawful(lib, shorter);
      AlwaysServed(lib, shorter);
      StepKeepsApart(lib, Run(lib, shorter), steps[|steps| - 1]);
    }
  }

  // -------------------------------------------------------------------------
  // What a client can rely on
  // -------------------------------------------------------------------------

  /** A connection that lost nothing received every position from its start on. */
  ghost predicate NeverLagged(c: Connection) {
    |c.heard| == c.cursor - c.start
  }

  lemma {:induction false} DensePositions(positions: seq<nat>, from: nat, to: nat, i: nat)
    requires Increasing(positions, from, to) && |positions| == to - from && i < |positions|
    ensures positions[i] == from + i
    decreases |positions|
  {
    var n := |positions| - 1;
    assert forall k :: 0 <= k < n ==> positions[k] < positions[n];
    assert Increasing(positions[..n], from, to - 1);
    if i < n {
      DensePositions(positions[..n], from, to - 1, i);
    } else if n > 0 {
      DensePositions(positions[..n], from, to - 1, n - 1);
    }
  }

  lemma {:induction false} PickedAll(bus: seq<LogEntry>, start: nat, positions: seq<nat>, ids: set<string>)
    requires start + |positions| <= |bus| && NotYetHeardOf(bus, start, ids)
    requires forall i :: 0 <= i < |positions| ==> positions[i] == start + i
    ensures Picked(bus, positions, ids) == Query.Where(bus[..start + |positions|], (e: LogEntry) => e.jobId in ids)
  {
    var mine := (e: LogEntry) => e.jobId in ids;
    if positions == [] {
      Query.WhereNone(bus[..start], mine);
    } else {
      var n := |positions| - 1;
      PickedAll(bus, start, positions[..n], ids);
      assert bus[..start + n + 1] == bus[..start + n] + [bus[start + n]];
      Query.WhereConcat(bus[..start + n], [bus[start + n]], mine);
      assert Query.Where([bus[start + n]], mine) == if mine(bus[start + n]) then [bus[start + n]] else [] by {
        assert [bus[start + n]][1..] == [];
      }
    }
  }

  /**
   * Over every run: a connection that never lagged was sent exactly the statuses of the jobs it submitted, of all
   * that were broadcast up to its cursor, in their order; each after the answer that accepted its job. Jobs of
   * other connections and remote jobs never appear.
   */
  lemma ConnectionsHearTheirOwnJobs(lib: Library, steps: seq<Step>, id: nat)
    requires id in Run(lib, steps).connections
    ensures var s := Run(lib, steps);
            var c := s.connections[id];
            && AnswerFirst(c.sent)
            && c.cursor <= |s.bus|
            && (NeverLagged(c) ==>
                  StatusesSent(c.sent) == Query.Where(s.bus[..c.cursor], (e: LogEntry) => e.jobId in Submitted(c)))
            && (forall other :: other in s.connections && other != id ==> Submitted(c) !! Submitted(s.connections[other]))
            && (forall i :: 0 <= i < |s.past.runs| && s.past.runs[i].job.remote ==> s.past.runs[i].job.job.jobId !in Submitted(c))
  {
    AlwaysServed(lib, steps);
    AlwaysApart(lib, steps);
    var s := Run(lib, steps);
    assert Faithful(s.connections[id], s.bus);
    if NeverLagged(s.connections[id]) { HeardFromStart(s.connections[id], s.bus); }
    assert forall i :: 0 <= i < |s.past.runs| ==> (Jobs(s.past.runs) + s.queue.pending)[i] == s.past.runs[i].job;
  }

  lemma HeardFromStart(c: Connection, bus: seq<LogEntry>)
    requires Faithful(c, bus) && NeverLagged(c)
    ensures StatusesSent(c.sent) == Query.Where(bus[..c.cursor], (e: LogEntry) => e.jobId in Submitted(c))
  {
    forall i | 0 <= i < |c.heard| ensures c.heard[i] == c.start + i {
      DensePositions(c.heard, c.start, c.cursor, i);
    }
    PickedAll(bus, c.start, c.heard, Submitted(c));
  }
}
