/**
 * The whole agent as one transition system: WebSocket connections and the poller feed the queue, the worker
 * empties it, reports go to the outbox. Steps of different tasks interleave freely; a restart keeps the tables only.
 */
module Pipeline {
  import opened Outcomes
  import opened Protocol
  import opened JobQueue
  import opened Activity
  import opened PrintJobs
  import PrintWorker
  import Polling
  import RemoteStore
  import Reporting
  import Server

  /** Slots of the status broadcast channel. */
  const STATUS_EVENT_CAPACITY: nat := 128

  // -------------------------------------------------------------------------
  // State
  // -------------------------------------------------------------------------

  /** Where the print worker stands; `told` means the first status left is broadcast but not yet reported. */
  datatype Phase =
    | Checking
    | Popping
    | AboutToWait
    | Parked
    | Working(job: QueuedJob, left: seq<Emission>, told: bool)
    | Stopped

  /** `permit` is the wake-up that a notification stores when nobody waits. */
  datatype Worker = Worker(phase: Phase, permit: bool, cancelled: bool)

  datatype Progress = Progress(fetched: seq<Polling.RemoteTask>, later: seq<Polling.RemoteTask>, outcome: Polling.PollOutcome)

  datatype Poller =
    | Idle
    | Between(progress: Progress)
    | Taking(progress: Progress, task: Polling.RemoteTask, left: seq<PrintJob>, newJobs: seq<PrintJob>, duplicated: nat)
    | Waking(progress: Progress)

  datatype Message = Reply(response: Server.Response, ids: seq<string>) | Status(entry: LogEntry)

  /** Between two receives a connection may owe the worker a wake-up, and then its client an answer. */
  datatype Duty =
    | Ready
    | Announcing(response: Server.Response, ids: seq<string>)
    | Answering(response: Server.Response, ids: seq<string>)

  /** A reader of the broadcast from position `start` on; `heard` are the positions it received. */
  datatype Connection = Connection(
    header: Server.Header, start: nat, cursor: nat, heard: seq<nat>,
    followed: set<string>, sent: seq<Message>, duty: Duty)

  /** A job taken by the worker, with everything it is going to report. */
  datatype JobRun = JobRun(job: QueuedJob, trace: seq<Emission>)

  /**
   * Bookkeeping that no step reads: remote ids in the order they entered a queue, whether every report so far
   * was stored, jobs taken since the last restart and how many of them after cancellation, finished polls.
   */
  datatype Past = Past(entered: seq<string>, clean: bool, runs: seq<JobRun>, late: nat, polls: seq<Progress>)

  datatype State = State(
    tables: RemoteStore.Tables,
    queue: Contents,
    bus: seq<LogEntry>,
    worker: Worker,
    poller: Poller,
    connections: map<nat, Connection>,
    past: Past)

  const IDLE_WORKER: Worker := Worker(Checking, false, false)

  const START: State := State(RemoteStore.NO_ROWS, EMPTY, [], IDLE_WORKER, Idle, map[], Past([], true, [], 0, []))

  // -------------------------------------------------------------------------
  // Steps
  // -------------------------------------------------------------------------

  datatype Step =
    | Connect(id: nat, header: Server.Header)
    | Submit(id: nat, limits: Server.Limits, message: Server.ClientMessage)
    | Announce(id: nat)
    | Answer(id: nat)
    | Receive(id: nat)
    | Lag(id: nat)
    | Disconnect(id: nat)
    | StartPoll(tasks: seq<Polling.RemoteTask>)
    | NextTask
    | TakeJob(maxFileSizeMb: nat, at: RemoteStore.Time, fault: bool)
    | HandOver
    | AnnouncePoll
    | Check
    | Pop(settings: Settings, world: World)
    | Wait(preferStop: bool)
    | LeavePark
    | Broadcast
    | Persist(eventId: RemoteStore.EventId, time: RemoteStore.Time, storeFault: bool)
    | FinishJob
    | Cancel
    | Deliver(row: nat, answer: Reporting.Answer, now: RemoteStore.Time, maxRetries: nat)
    | Restart

  // --- connections

  function SetConnection(s: State, id: nat, c: Connection): State {
    s.(connections := s.connections[id := c])
  }

  function AfterConnect(s: State, id: nat, header: Server.Header): State {
    if id in s.connections then s
    else SetConnection(s, id, Connection(header, |s.bus|, |s.bus|, [], {}, [], Ready))
  }

  ghost function AfterSubmit(lib: Library, s: State, id: nat, limits: Server.Limits, m: Server.ClientMessage): State {
    if id !in s.connections || !s.connections[id].duty.Ready? then s
    else
      var c := s.connections[id];
      var h := Server.Handle(lib, limits, c.header, m, s.queue);
      SetConnection(s, id, c.(duty := if h.response.Accepted? then Announcing(h.response, h.ids) else Answering(h.response, [])))
        .(queue := h.queue)
  }

  /** `notify_one`: wakes the waiting worker, or leaves a permit. */
  function Notified(w: Worker): Worker {
    if w.phase.Parked? then w.(phase := Checking) else w.(permit := true)
  }

  function AfterAnnounce(s: State, id: nat): State {
    if id !in s.connections || !s.connections[id].duty.Announcing? then s
    else
      var c := s.connections[id];
      SetConnection(s, id, c.(duty := Answering(c.duty.response, c.duty.ids))).(worker := Notified(s.worker))
  }

  function AsSet(ids: seq<string>): set<string> {
    set i | 0 <= i < |ids| :: ids[i]
  }

  /** The connection follows its new jobs before it looks at the next status. */
  function AfterAnswer(s: State, id: nat): State {
    if id !in s.connections || !s.connections[id].duty.Answering? then s
    else
      var c := s.connections[id];
      SetConnection(s, id, c.(followed := c.followed + AsSet(c.duty.ids),
                              sent := c.sent + [Reply(c.duty.response, c.duty.ids)],
                              duty := Ready))
  }

  function AfterReceive(s: State, id: nat): State {
    if id !in s.connections || !s.connections[id].duty.Ready? then s
    else
      var c := s.connections[id];
      if c.cursor >= |s.bus| || |s.bus| - c.cursor > STATUS_EVENT_CAPACITY then s
      else
        var entry := Server.StatusForConnection(s.bus[c.cursor], c.followed);
        SetConnection(s, id, c.(cursor := c.cursor + 1,
                                heard := c.heard + [c.cursor],
                                sent := c.sent + if entry.Some? then [Status(entry.value)] else []))
  }

  /** A receiver that fell behind continues with the oldest entry still held. */
  function AfterLag(s: State, id: nat): State {
    if id !in s.connections || !s.connections[id].duty.Ready? then s
    else
      var c := s.connections[id];
      if c.cursor + STATUS_EVENT_CAPACITY >= |s.bus| then s
      else
        SetConnection(s, id, c.(cursor := |s.bus| - STATUS_EVENT_CAPACITY))
  }

  /** A connection cannot end between an acceptance and its wake-up. */
  function AfterDisconnect(s: State, id: nat): State {
    if id !in s.connections || s.connections[id].duty.Announcing? then s
    else s.(connections := s.connections - {id})
  }

  // --- poller

  function AfterStartPoll(s: State, tasks: seq<Polling.RemoteTask>): State {
    if !s.poller.Idle? then s
    else s.(poller := Between(Progress(tasks, tasks, Polling.PollOutcome(|tasks|, 0, 0))))
  }

  function AfterNextTask(s: State): State {
    if !s.poller.Between? then s
    else
      var p := s.poller.progress;
      if p.later == [] then s.(poller := Idle, past := s.past.(polls := s.past.polls + [p]))
      else s.(poller := Taking(p.(later := p.later[1..]), p.later[0], Polling.TaskJobs(p.later[0]), [], 0))
  }

  /** Validates and records the next job of the task; an error ends the poll. */
  function AfterTakeJob(lib: Library, s: State, maxMb: nat, at: RemoteStore.Time, fault: bool): State {
    if !s.poller.Taking? || s.poller.left == [] then s
    else
      var p, job := s.poller, s.poller.left[0];
      var i := Polling.TakeJob(lib, maxMb, if fault then {job.jobId} else {},
                               Polling.Intake(s.tables.jobs.Keys, p.newJobs, p.duplicated, None), job);
      if i.error.Some? then s.(poller := Idle)
      else
        var row := RemoteStore.RemoteJob(p.task.requestId, Polling.TaskBatch(p.task), at);
        s.(poller := p.(left := p.left[1..], newJobs := i.newJobs, duplicated := i.duplicated),
           tables := RemoteStore.RecordJob(s.tables, job.jobId, row))
  }

  function IdsOf(jobs: seq<PrintJob>): (ids: seq<string>)
    ensures |ids| == |jobs| && forall i :: 0 <= i < |ids| ==> ids[i] == jobs[i].jobId
  {
    seq(|jobs|, i requires 0 <= i < |jobs| => jobs[i].jobId)
  }

  /** Hands the new jobs of a finished task to the queue; a refusal ends the poll. */
  ghost function AfterHandOver(lib: Library, s: State): State {
    if !s.poller.Taking? || s.poller.left != [] then s
    else
      var p := s.poller;
      var o := p.progress.outcome;
      var after := p.progress.(outcome := o.(enqueued := o.enqueued + |p.newJobs|, duplicated := o.duplicated + p.duplicated));
      if p.newJobs == [] then s.(poller := Between(after))
      else if Refusal(lib, s.queue, Polling.Handover(p.task, p.newJobs)).Some? then s.(poller := Idle)
      else
        s.(poller := Waking(after),
           queue := Accept(lib, s.queue, Polling.Handover(p.task, p.newJobs)),
           past := s.past.(entered := s.past.entered + IdsOf(p.newJobs)))
  }

  function AfterAnnouncePoll(s: State): State {
    if !s.poller.Waking? then s
    else s.(poller := Between(s.poller.progress), worker := Notified(s.worker))
  }

  // --- worker

  function AfterCheck(s: State): State {
    if !s.worker.phase.Checking? then s
    else s.(worker := s.worker.(phase := if s.worker.cancelled then Stopped else Popping))
  }

  function AfterPop(lib: Library, s: State, cfg: Settings, w: World): State {
    if !s.worker.phase.Popping? then s
    else if s.queue.pending == [] then s.(worker := s.worker.(phase := AboutToWait))
    else
      var job := s.queue.pending[0];
      var trace := Trace(lib, job.job, cfg, w);
      s.(worker := s.worker.(phase := Working(job, trace, false)),
         queue := s.queue.(pending := s.queue.pending[1..]),
         past := s.past.(runs := s.past.runs + [JobRun(job, trace)],
                         late := s.past.late + if s.worker.cancelled then 1 else 0))
  }

  /** Waits for cancellation or a notification; when both are there either may win. */
  function AfterWait(s: State, preferStop: bool): State {
    var w := s.worker;
    if !w.phase.AboutToWait? then s
    else if w.cancelled && (preferStop || !w.permit) then s.(worker := w.(phase := Stopped))
    else if w.permit then s.(worker := w.(phase := Checking, permit := false))
    else s.(worker := w.(phase := Parked))
  }

  function AfterLeavePark(s: State): State {
    if s.worker.phase.Parked? && s.worker.cancelled then s.(worker := s.worker.(phase := Stopped)) else s
  }

  function AfterBroadcast(s: State): State {
    var f := s.worker.phase;
    if !f.Working? || f.told || f.left == [] then s
    else s.(bus := s.bus + [PrintWorker.EntryFor(f.job, f.left[0])], worker := s.worker.(phase := f.(told := true)))
  }

  predicate KnownEventId(t: RemoteStore.Tables, id: RemoteStore.EventId) {
    exists i :: 0 <= i < |t.events| && t.events[i].eventId == id
  }

  /** Stores the report of the status just broadcast, if it is one for the server. */
  function AfterPersist(s: State, eventId: RemoteStore.EventId, at: RemoteStore.Time, fault: bool): State {
    var f := s.worker.phase;
    if !f.Working? || !f.told || f.left == [] then s
    else
      var e := f.left[0];
      var due := PrintWorker.IsReported(f.job, e);
      s.(worker := s.worker.(phase := f.(left := f.left[1..], told := false)),
         tables := if due && !fault
                   then RemoteStore.InsertEvent(s.tables, eventId, PrintWorker.ReportEvent(f.job, e, RemoteStatus(e.status).value, at))
                   else s.tables,
         past := s.past.(clean := s.past.clean && (due ==> !fault && !KnownEventId(s.tables, eventId))))
  }

  function AfterFinishJob(s: State): State {
    var f := s.worker.phase;
    if !f.Working? || f.told || f.left != [] then s else s.(worker := s.worker.(phase := Checking))
  }

  // --- the outbox, and the process itself

  function AfterDeliver(s: State, row: nat, answer: Reporting.Answer, now: RemoteStore.Time, maxRetries: nat): State {
    if row >= |s.tables.events| || s.tables.events[row].delivery != RemoteStore.Pending then s
    else
      var before := Reporting.Round(s.tables, Reporting.ReportOutcome(0, 0, 0), None);
      s.(tables := Reporting.Attempt(before, s.tables.events[row], answer, now, maxRetries).tables)
  }

  /** A crash or an orderly end, and a new process: only the tables survive. */
  function AfterRestart(s: State): State {
    State(s.tables, EMPTY, [], IDLE_WORKER, Idle, map[], s.past.(runs := [], late := 0))
  }

  /** One step; a step that is not possible changes nothing. */
  ghost function Next(lib: Library, s: State, step: Step): State {
    match step
    case Connect(id, header) => AfterConnect(s, id, header)
    case Submit(id, limits, message) => AfterSubmit(lib, s, id, limits, message)
    case Announce(id) => AfterAnnounce(s, id)
    case Answer(id) => AfterAnswer(s, id)
    case Receive(id) => AfterReceive(s, id)
    case Lag(id) => AfterLag(s, id)
    case Disconnect(id) => AfterDisconnect(s, id)
    case StartPoll(tasks) => AfterStartPoll(s, tasks)
    case NextTask => AfterNextTask(s)
    case TakeJob(maxMb, at, fault) => AfterTakeJob(lib, s, maxMb, at, fault)
    case HandOver => AfterHandOver(lib, s)
    case AnnouncePoll => AfterAnnouncePoll(s)
    case Check => AfterCheck(s)
    case Pop(cfg, w) => AfterPop(lib, s, cfg, w)
    case Wait(preferStop) => AfterWait(s, preferStop)
    case LeavePark => AfterLeavePark(s)
    case Broadcast => AfterBroadcast(s)
    case Persist(eventId, at, fault) => AfterPersist(s, eventId, at, fault)
    case FinishJob => AfterFinishJob(s)
    case Cancel => s.(worker := s.worker.(cancelled := true))
    case Deliver(row, answer, now, maxRetries) => AfterDeliver(s, row, answer, now, maxRetries)
    case Restart => AfterRestart(s)
  }

  ghost function Run(lib: Library, steps: seq<Step>): State {
    if steps == [] then START
    else Next(lib, Run(lib, steps[..|steps| - 1]), steps[|steps| - 1])
  }

  // -------------------------------------------------------------------------
  // Which step changes which part
  // -------------------------------------------------------------------------

  predicate ChangesPoller(step: Step) {
    step.StartPoll? || step.NextTask? || step.TakeJob? || step.HandOver? || step.AnnouncePoll? || step.Restart?
  }

  predicate ChangesQueue(step: Step) {
    step.Submit? || step.HandOver? || step.Pop? || step.Restart?
  }

  predicate ChangesConnections(step: Step) {
    step.Connect? || step.Submit? || step.Announce? || step.Answer? || step.Receive? || step.Lag? || step.Disconnect? || step.Restart?
  }

  /** Steps that move the worker through a job, or forget it. */
  predicate ChangesJob(step: Step) {
    step.Pop? || step.Broadcast? || step.Persist? || step.FinishJob? || step.Restart?
  }

  lemma OnlyTheseChangeThePoller(lib: Library, s: State, step: Step)
    requires !ChangesPoller(step)
    ensures var s' := Next(lib, s, step);
            s'.poller == s.poller && s'.past.polls == s.past.polls && s'.past.entered == s.past.entered
            && s'.tables.jobs == s.tables.jobs
  {
  }

  lemma OnlyTheseChangeTheQueue(lib: Library, s: State, step: Step)
    requires !ChangesQueue(step)
    ensures var s' := Next(lib, s, step);
            s'.queue == s.queue && s'.past.runs == s.past.runs && s'.past.late == s.past.late && s'.past.entered == s.past.entered
  {
  }

  lemma OnlyTheseChangeConnections(lib: Library, s: State, step: Step)
    requires !ChangesConnections(step)
    ensures Next(lib, s, step).connections == s.connections
  {
  }

  lemma OnlyTheseChangeTheJob(lib: Library, s: State, step: Step)
    requires !ChangesJob(step)
    ensures var s' := Next(lib, s, step);
            && s'.bus == s.bus && s'.past.runs == s.past.runs && s'.past.clean == s.past.clean
            && (s'.worker.phase == s.worker.phase || (!s'.worker.phase.Working? && !s.worker.phase.Working?))
  {
  }

  lemma OnlyTheseChangeReports(lib: Library, s: State, step: Step)
    requires !step.Persist? && !step.Deliver?
    ensures Next(lib, s, step).tables.events == s.tables.events && Next(lib, s, step).past.clean == s.past.clean
  {
  }
}
