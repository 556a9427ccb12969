/** The serial print worker: takes a job through its stages, reports every status, cleans up its files. */
module PrintWorker {
  import opened Outcomes
  import opened Protocol
  import opened JobQueue
  import opened Activity
  import opened Disk
  import opened PrintJobs
  import Download
  import Office
  import RemoteStore
  import TaskHistory

  /** Where statuses go: the broadcast log, the outbox of remote reports, the task history. */
  datatype Sinks = Sinks(log: seq<LogEntry>, reports: RemoteStore.Tables, history: TaskHistory.Tables)

  /** Clocks, identifiers and store faults, by number of statuses broadcast so far. */
  datatype Environment = Environment(
    time: nat -> int,
    reportTime: nat -> int,
    eventId: nat -> nat,
    historyFault: nat -> bool,
    reportFault: nat -> bool)

  function NonEmptyText(text: string): Option<string> {
    if text == "" then None else Some(text)
  }

  function EntryFor(q: QueuedJob, e: Emission): LogEntry {
    LogEntry(q.requestId, q.batchId, q.job.jobId, e.status, e.message)
  }

  function HistoryEvent(q: QueuedJob, e: Emission, at: int): TaskHistory.NewEvent {
    TaskHistory.NewEvent(q.job.jobId, Some(q.requestId), q.batchId, if q.remote then Remote else WebSocket,
      e.status, NonEmptyText(e.message), e.metadata.printer, e.metadata.paper, e.metadata.copies, at)
  }

  function ReportEvent(q: QueuedJob, e: Emission, status: RemoteStore.ReportStatus, at: int): RemoteStore.NewEvent {
    RemoteStore.NewEvent(q.job.jobId, q.requestId, q.batchId, status, NonEmptyText(e.message), at, at)
  }

  predicate IsReported(q: QueuedJob, e: Emission) {
    e.reported && q.remote && RemoteStatus(e.status).Some?
  }

  /** One status: broadcast, recorded in the history, and reported if the job is remote and the status counts. */
  function Emit(env: Environment, s: Sinks, q: QueuedJob, e: Emission): Sinks {
    var n := |s.log|;
    Sinks(
      s.log + [EntryFor(q, e)],
      if IsReported(q, e) && !env.reportFault(n)
      then RemoteStore.InsertEvent(s.reports, env.eventId(n), ReportEvent(q, e, RemoteStatus(e.status).value, env.reportTime(n)))
      else s.reports,
      if env.historyFault(n) then s.history else TaskHistory.Record(s.history, HistoryEvent(q, e, env.time(n))))
  }

  /** What the server hears of a status: acceptance, success or failure. */
  predicate ServerHears(status: JobStatus, report: RemoteStore.ReportStatus) {
    || (status.Queued? && report.Accepted?)
    || (status.Submitted? && report.Success?)
    || ((status.Failed? || status.Cancelled?) && report.Failed?)
  }

  /** The outbox after one status: a report of the job under its own ids, due at once, if the server is to hear of it. */
  ghost predicate ReportReaches(env: Environment, s: Sinks, after: Sinks, q: QueuedJob, e: Emission) {
    var n := |s.log|;
    if q.remote && e.reported && !env.reportFault(n) && !e.status.Downloading? && !e.status.Printing?
       && !e.status.Completed? && !e.status.Unknown?
    then
      exists report :: ServerHears(e.status, report)
        && after.reports == RemoteStore.InsertEvent(s.reports, env.eventId(n), RemoteStore.NewEvent(
             q.job.jobId, q.requestId, q.batchId, report, if e.message == "" then None else Some(e.message),
             env.reportTime(n), env.reportTime(n)))
    else after.reports == s.reports
  }

  /** Each status goes to its three places under the job's own ids, with its message and what it was printed with. */
  lemma StatusReachesItsSinks(env: Environment, s: Sinks, q: QueuedJob, e: Emission)
    ensures var after, n := Emit(env, s, q, e), |s.log|;
            && after.log == s.log + [LogEntry(q.requestId, q.batchId, q.job.jobId, e.status, e.message)]
            && after.history == (if env.historyFault(n) then s.history
                                 else TaskHistory.Record(s.history, TaskHistory.NewEvent(
                                   q.job.jobId, Some(q.requestId), q.batchId, if q.remote then Source.Remote else Source.WebSocket,
                                   e.status, if e.message == "" then None else Some(e.message),
                                   e.metadata.printer, e.metadata.paper, e.metadata.copies, env.time(n))))
            && ReportReaches(env, s, after, q, e)
  {
    if RemoteStatus(e.status).Some? { assert ServerHears(e.status, RemoteStatus(e.status).value); }
  }

  function EmitAll(env: Environment, s: Sinks, q: QueuedJob, es: seq<Emission>): Sinks
    decreases |es|
  {
    if es == [] then s else EmitAll(env, Emit(env, s, q, es[0]), q, es[1..])
  }

  lemma {:induction false} EmitAllConcat(env: Environment, s: Sinks, q: QueuedJob, a: seq<Emission>, b: seq<Emission>)
    ensures EmitAll(env, s, q, a + b) == EmitAll(env, EmitAll(env, s, q, a), q, b)
    decreases |a|
  {
    if a == [] {
      assert a + b == b;
    } else {
      assert (a + b)[0] == a[0] && (a + b)[1..] == a[1..] + b;
      EmitAllConcat(env, Emit(env, s, q, a[0]), q, a[1..], b);
    }
  }

  /** The state of the sinks and the failure after running some stages from a given state. */
  ghost predicate Ran(env: Environment, before: Sinks, after: Sinks, q: QueuedJob, stages: seq<Stage>, failure: Option<JobFailure>) {
    var outcome := Execute(stages);
    after == EmitAll(env, before, q, outcome.emissions) && failure == outcome.failure
  }

  /** A status first, then the rest. */
  lemma RanSay(env: Environment, s0: Sinks, s1: Sinks, q: QueuedJob, e: Emission, rest: seq<Stage>, failure: Option<JobFailure>)
    requires Ran(env, Emit(env, s0, q, e), s1, q, rest, failure)
    ensures Ran(env, s0, s1, q, [Say(e)] + rest, failure)
  {
    assert ([Say(e)] + rest)[1..] == rest;
    var es := Execute(rest).emissions;
    assert ([e] + es)[1..] == es;
  }

  /** The first check that fails ends the fetching without a status. */
  lemma FetchStops(lib: Library, job: PrintJob, cfg: Settings, w: World, i: nat)
    requires i < |FileChecks(lib, job, cfg, w)| && FileChecks(lib, job, cfg, w)[i].Some?
    requires forall k :: 0 <= k < i ==> FileChecks(lib, job, cfg, w)[k].None?
    ensures Execute(FetchStages(lib, job, cfg, w)) == Outcome([], FileChecks(lib, job, cfg, w)[i])
  {
    CheckFails(FileChecks(lib, job, cfg, w), PrintStages(job, w, FileMetadata(OptionsOf(job, cfg))), i);
  }

  class Worker {
    const folder: Folder
    const store: RemoteStore.Store
    const history: TaskHistory.Store
    var log: seq<LogEntry>

    constructor (folder: Folder, store: RemoteStore.Store, history: TaskHistory.Store)
      ensures this.folder == folder && this.store == store && this.history == history && log == []
    {
      this.folder, this.store, this.history := folder, store, history;
      log := [];
    }

    ghost function State(): Sinks
      reads this, store, history
    {
      Sinks(log, store.Rows(), history.Rows())
    }

    /** Broadcasts one status, records it, and queues a report for the remote server. */
    method PushLog(env: Environment, q: QueuedJob, e: Emission)
      modifies this, store, history
      ensures State() == Emit(env, old(State()), q, e)
    {
      var n := |log|;
      log := log + [EntryFor(q, e)];
      var _ := history.RecordEvent(HistoryEvent(q, e, env.time(n)), env.historyFault(n));
      if e.reported {
        EnqueueRemoteStatusEvent(env, n, q, e);
      }
    }

    method EnqueueRemoteStatusEvent(env: Environment, n: nat, q: QueuedJob, e: Emission)
      modifies store
      ensures store.Rows() ==
        if q.remote && RemoteStatus(e.status).Some? && !env.reportFault(n)
        then RemoteStore.InsertEvent(old(store.Rows()), env.eventId(n), ReportEvent(q, e, RemoteStatus(e.status).value, env.reportTime(n)))
        else old(store.Rows())
    {
      if !q.remote {
        return;
      }
      var status := RemoteStatus(e.status);
      if status.None? {
        return;
      }
      var _ := store.InsertStatusEvent(env.eventId(n), ReportEvent(q, e, status.value, env.reportTime(n)), env.reportFault(n));
    }

    /** Takes a job from queued to its last status; leaves no file but a half-written PDF. */
    method ProcessJob(lib: Library, cfg: Settings, env: Environment, q: QueuedJob, w: World)
      requires Unused(folder.files, w)
      modifies this, store, history, folder
      ensures State() == EmitAll(env, old(State()), q, Trace(lib, q.job, cfg, w))
      ensures folder.files == old(folder.files) + Leftover(lib, q.job, cfg, w)
    {
      var queued := Emission(Queued, "queued", NO_METADATA, true);
      PushLog(env, q, queued);
      label started:
      var failure := ProcessJobInner(lib, cfg, env, q, w);
      ghost var inner := Execute(Stages(lib, q.job, cfg, w)).emissions;
      ghost var trace := Trace(lib, q.job, cfg, w);
      if failure.Some? {
        label failed:
        var report := Emission(Failed, Describe(failure.value), NO_METADATA, true);
        PushLog(env, q, report);
        EmitAllConcat(env, old@started(State()), q, inner, [report]);
        assert trace == [queued] + (inner + [report]);
      } else {
        assert trace == [queued] + inner;
      }
      EmitAllConcat(env, old(State()), q, [queued], trace[1..]);
      assert trace == [queued] + trace[1..];
    }

    /** Chooses the way the format is printed. */
    method ProcessJobInner(lib: Library, cfg: Settings, env: Environment, q: QueuedJob, w: World) returns (failure: Option<JobFailure>)
      requires Unused(folder.files, w)
      modifies this, store, history, folder
      ensures Ran(env, old(State()), State(), q, Stages(lib, q.job, cfg, w), failure)
      ensures folder.files == old(folder.files) + Leftover(lib, q.job, cfg, w)
    {
      if q.job.format == Html || q.job.format == RawHtml {
        failure := PrintHtmlJob(lib, cfg, env, q, w);
      } else if q.job.format == Raw {
        failure := PrintRawJob(lib, cfg, env, q, w);
      } else {
        failure := PrintFileJob(lib, cfg, env, q, w);
      }
    }

    method PrintRawJob(lib: Library, cfg: Settings, env: Environment, q: QueuedJob, w: World) returns (failure: Option<JobFailure>)
      modifies this, store, history
      ensures Ran(env, old(State()), State(), q, RawStages(lib, q.job, cfg, w), failure)
    {
      ghost var checks := RawChecks(lib, q.job, cfg);
      var printer := PrinterFor(q.job, cfg);
      ghost var rest := SubmitStages("printing raw", RawMetadata(printer.GetOr("")), w.printed);
      if printer.None? {
        CheckFails(checks, rest, 0);
        return Some(PrinterNotConfigured);
      }
      if q.job.dataBase64.None? {
        CheckFails(checks, rest, 1);
        return Some(JobFailure.InvalidMessage("raw job requires data_base64"));
      }
      var size := lib.decodedLength(q.job.dataBase64.value);
      if size.None? {
        CheckFails(checks, rest, 2);
        return Some(JobFailure.InvalidMessage("invalid raw data_base64"));
      }
      if size.value > MaxBytes(cfg.maxFileSizeMb) {
        CheckFails(checks, rest, 3);
        return Some(JobFailure.FileTooLarge);
      }
      ChecksPass(checks, rest);
      failure := SubmitAndTrack(env, q, "printing raw", RawMetadata(printer.value), w.printed);
    }

    /** Announces the printing, submits, and reports what tracking says; tracking never reaches the server. */
    method SubmitAndTrack(env: Environment, q: QueuedJob, announcement: string, metadata: Metadata, printed: PrintResult)
      returns (failure: Option<JobFailure>)
      modifies this, store, history
      ensures Ran(env, old(State()), State(), q, SubmitStages(announcement, metadata, printed), failure)
    {
      var announced := Emission(Printing, announcement, metadata, true);
      var submitted := Emission(Submitted, "submitted to system print queue", metadata, true);
      ghost var check := [if printed.Refused? then Some(PrintFailed(printed.text)) else None];
      ghost var rest := [Say(submitted)] + TrackingStages(printed, metadata);
      PushLog(env, q, announced);
      ghost var s1 := State();
      if printed.Refused? {
        CheckFails(check, rest, 0);
        RanSay(env, old(State()), s1, q, announced, Checks(check) + rest, Some(PrintFailed(printed.text)));
        return Some(PrintFailed(printed.text));
      }
      PushLog(env, q, submitted);
      ghost var s2 := State();
      failure := Track(env, q, metadata, printed);
      RanSay(env, s1, State(), q, submitted, TrackingStages(printed, metadata), failure);
      ChecksPass(check, rest);
      RanSay(env, old(State()), State(), q, announced, Checks(check) + rest, failure);
    }

    method Track(env: Environment, q: QueuedJob, metadata: Metadata, printed: PrintResult) returns (failure: Option<JobFailure>)
      requires printed.Spooled?
      modifies this, store, history
      ensures Ran(env, old(State()), State(), q, TrackingStages(printed, metadata), failure)
    {
      if printed.tracking.None? {
        return None;
      }
      var tracked :=
        match printed.tracking.value
        case TrackedCompleted(message) => Emission(Completed, message, metadata, false)
        case TrackedFailed(message) => Emission(Failed, message, metadata, false)
        case TrackedUnknown(message) => Emission(Unknown, message, metadata, false);
      PushLog(env, q, tracked);
      assert EmitAll(env, old(State()), q, [tracked]) == State();
      return None;
    }

    /** Renders the page to a PDF, prints it, and removes the PDF wherever the renderer put it. */
    method PrintHtmlJob(lib: Library, cfg: Settings, env: Environment, q: QueuedJob, w: World) returns (failure: Option<JobFailure>)
      requires q.job.format == Html || q.job.format == RawHtml
      requires Unused(folder.files, w)
      modifies this, store, history, folder
      ensures Ran(env, old(State()), State(), q, HtmlStages(lib, q.job, cfg, w), failure)
      ensures folder.files == old(folder.files)
    {
      ghost var metadata, checks := FileMetadata(OptionsOf(q.job, cfg)), HtmlChecks(lib, q.job, cfg, w);
      ghost var rest := RenderedStages(w, metadata);
      var options := ResolveOptions(q.job, cfg);
      if options.Err? {
        CheckFails(checks, rest, 0);
        return Some(options.error);
      }
      var source := HtmlSourceFailure(lib, q.job);
      if source.Some? {
        CheckFails(checks, rest, 1);
        return source;
      }
      NothingUnused(folder.files, w);
      if w.render.NotRendered? {
        var _ := folder.Store(HtmlPath(w), NotWritten(w.render.leftover));
        folder.Remove(HtmlPath(w));
        CheckFails(checks, rest, 2);
        return Some(RenderFailed(w.render.text));
      }
      ChecksPass(checks, rest);
      failure := PrintRenderedPage(env, q, FileMetadata(options.value), w);
    }

    /** The renderer has put the page somewhere: prints it and removes it there and where it was asked for. */
    method PrintRenderedPage(env: Environment, q: QueuedJob, metadata: Metadata, w: World) returns (failure: Option<JobFailure>)
      requires w.render.Rendered? && w.render.path !in folder.files && HtmlPath(w) !in folder.files
      modifies this, store, history, folder
      ensures Ran(env, old(State()), State(), q, RenderedStages(w, metadata), failure)
      ensures folder.files == old(folder.files)
    {
      ghost var s0 := State();
      var _ := folder.Store(w.render.path, Wrote(w.render.size));
      if w.render.path != HtmlPath(w) && w.render.requestedToo.Some? {
        var _ := folder.Store(HtmlPath(w), Wrote(w.render.requestedToo.value));
      }
      var rendering := Emission(Printing, "rendering html with " + w.render.renderer, metadata, true);
      PushLog(env, q, rendering);
      failure := SubmitAndTrack(env, q, "printing", metadata, w.printed);
      RanSay(env, s0, State(), q, rendering, SubmitStages("printing", metadata, w.printed), failure);
      folder.Remove(w.render.path);
      if w.render.path != HtmlPath(w) {
        folder.Remove(HtmlPath(w));
      }
    }

    /** Announces the download and goes on with the file. */
    method PrintFileJob(lib: Library, cfg: Settings, env: Environment, q: QueuedJob, w: World) returns (failure: Option<JobFailure>)
      requires q.job.format !in {Html, RawHtml, Raw}
      requires Unused(folder.files, w)
      modifies this, store, history, folder
      ensures Ran(env, old(State()), State(), q, FileStages(lib, q.job, cfg, w), failure)
      ensures folder.files == old(folder.files) + Leftover(lib, q.job, cfg, w)
    {
      ghost var s0 := State();
      var downloading := Emission(Downloading, "downloading", NO_METADATA, true);
      PushLog(env, q, downloading);
      failure := FetchAndPrint(lib, cfg, env, q, w);
      RanSay(env, s0, State(), q, downloading, FetchStages(lib, q.job, cfg, w), failure);
    }

    /** Downloads the job's file, prints it, and removes the download. */
    method FetchAndPrint(lib: Library, cfg: Settings, env: Environment, q: QueuedJob, w: World) returns (failure: Option<JobFailure>)
      requires q.job.format !in {Html, RawHtml, Raw}
      requires Unused(folder.files, w)
      modifies this, store, history, folder
      ensures Ran(env, old(State()), State(), q, FetchStages(lib, q.job, cfg, w), failure)
      ensures folder.files == old(folder.files) + Leftover(lib, q.job, cfg, w)
    {
      ghost var before := folder.files;
      NothingUnused(before, w);
      var options;
      failure, options := Fetch(lib, cfg, q.job, w);
      if failure.Some? {
        return;
      }
      failure := PrintDownloadedFile(env, q, FileMetadata(options), w, before);
      folder.Remove(DownloadPath(w));
    }

    /** Checks a file job and downloads its file; a failure leaves no file. */
    method Fetch(lib: Library, cfg: Settings, job: PrintJob, w: World) returns (failure: Option<JobFailure>, options: PrintOptions)
      requires job.format !in {Html, RawHtml, Raw} && DownloadPath(w) !in folder.files
      modifies folder
      ensures options == OptionsOf(job, cfg)
      ensures failure.Some? ==> Execute(FetchStages(lib, job, cfg, w)) == Outcome([], failure)
      ensures failure.Some? ==> folder.files == old(folder.files) && Leftover(lib, job, cfg, w) == map[]
      ensures failure.None? ==>
        && Execute(FetchStages(lib, job, cfg, w)) == Execute(PrintStages(job, w, FileMetadata(options)))
        && DownloadPath(w) in folder.files && folder.files - {DownloadPath(w)} == old(folder.files)
        && Leftover(lib, job, cfg, w) == PrepareLeftover(job.format, w)
    {
      options := OptionsOf(job, cfg);
      if job.fileUrl.None? {
        FetchStops(lib, job, cfg, w, 0);
        return Some(JobFailure.InvalidMessage("file job requires file_url")), options;
      }
      var resolved := ResolveOptions(job, cfg);
      if resolved.Err? {
        FetchStops(lib, job, cfg, w, 1);
        return Some(resolved.error), options;
      }
      var downloaded := Download.DownloadToPath(lib, folder, job.fileUrl.value, cfg.maxFileSizeMb, DownloadPath(w), w.response, w.dataUrlWrite);
      if downloaded.Err? {
        FetchStops(lib, job, cfg, w, 2);
        return Some(DownloadFailed(downloaded.error)), options;
      }
      ChecksPass(FileChecks(lib, job, cfg, w), PrintStages(job, w, FileMetadata(options)));
      return None, options;
    }

    /** Converts the download if needed, prints the PDF, and removes the converted copy. */
    method PrintDownloadedFile(env: Environment, q: QueuedJob, metadata: Metadata, w: World, ghost before: Files)
      returns (failure: Option<JobFailure>)
      requires Unused(before, w) && DownloadPath(w) in folder.files && folder.files - {DownloadPath(w)} == before
      modifies this, store, history, folder
      ensures Ran(env, old(State()), State(), q, PrintStages(q.job, w, metadata), failure)
      ensures folder.files - {DownloadPath(w)} == before + PrepareLeftover(q.job.format, w)
    {
      ghost var s0 := State();
      ghost var check, submit := [PrepareFailure(q.job.format, w)], SubmitStages("printing", metadata, w.printed);
      ghost var announce := PrepareStages(q.job.format, w, metadata)[1..];
      assert PrepareStages(q.job.format, w, metadata) + submit == Checks(check) + (announce + submit);
      failure := PreparePrintablePdf(q.job.format, w, before);
      if failure.Some? {
        CheckFails(check, announce + submit, 0);
        return;
      }
      ChecksPass(check, announce + submit);
      if IsOffice(q.job.format) {
        var converted := Emission(Printing, "converted office with " + ConverterName(w), metadata, true);
        PushLog(env, q, converted);
        failure := SubmitAndTrack(env, q, "printing", metadata, w.printed);
        assert announce == [Say(converted)];
        RanSay(env, s0, State(), q, converted, submit, failure);
      } else {
        failure := SubmitAndTrack(env, q, "printing", metadata, w.printed);
        assert announce + submit == submit;
      }
      folder.Remove(PdfPath(w));
      NothingUnused(before, w);
    }

    /** Leaves a printable PDF beside the download, or tells why not. */
    method PreparePrintablePdf(expected: Format, w: World, ghost before: Files) returns (failure: Option<JobFailure>)
      requires Unused(before, w) && DownloadPath(w) in folder.files && folder.files - {DownloadPath(w)} == before
      modifies folder
      ensures failure == PrepareFailure(expected, w)
      ensures DownloadPath(w) in folder.files
      ensures failure.None? ==> folder.files - {DownloadPath(w), PdfPath(w)} == before && PrepareLeftover(expected, w) == map[]
      ensures failure.Some? ==> folder.files - {DownloadPath(w)} == before + PrepareLeftover(expected, w)
    {
      NothingUnused(before, w);
      if IsOffice(expected) {
        if w.officeKind.Err? {
          return Some(ConversionFailed(Office.IoFailed));
        }
        if w.officeKind.value != Some(expected) {
          return OfficeFailure(expected, w);
        }
        NoWorkDirectory(before, folder.files, w);
        var converted := Office.OfficeToPdf(folder, DownloadPath(w), PdfPath(w), w.office);
        return if converted.Ok? then None else Some(ConversionFailed(converted.error));
      }
      if w.documentKind.Err? {
        return Some(DocumentFailed(w.documentKind.error));
      }
      if w.documentKind.value.None? {
        return Some(UnsupportedFormat);
      }
      var kind := w.documentKind.value.value;
      if !FormatMatches(expected, kind) {
        return Some(FormatMismatch(FormatName(expected), KindName(kind)));
      }
      if kind.PdfDocument? {
        var copied := folder.Store(PdfPath(w), w.pdfCopy);
        return if copied then None else Some(CopyFailed);
      }
      if w.imageDecoded.Err? {
        return Some(DocumentFailed(w.imageDecoded.error));
      }
      var written := folder.Store(PdfPath(w), w.imagePdf);
      return if written then None else Some(DocumentFailed("image PDF could not be written"));
    }
  }

  /** The names a job will use are new: they contain fresh UUIDs. */
  ghost predicate Unused(files: Files, w: World) {
    && UnusedStem(files, w.stem)
    && UnusedStem(files, w.htmlStem)
    && (w.render.Rendered? ==> w.render.path !in files)
  }

  lemma NothingUnused(files: Files, w: World)
    requires Unused(files, w)
    ensures DownloadPath(w) !in files && PdfPath(w) !in files && HtmlPath(w) !in files
  {
    assert Root(DownloadPath(w)).stem == w.stem && Root(PdfPath(w)).stem == w.stem && Root(HtmlPath(w)).stem == w.htmlStem;
  }

  lemma NoWorkDirectory(before: Files, files: Files, w: World)
    requires Unused(before, w) && DownloadPath(w) in files && files - {DownloadPath(w)} == before
    ensures forall p :: p in files ==> !Below(p, WithExtension(DownloadPath(w), "office-work"))
  {
    UnusedTree(before, WithExtension(DownloadPath(w), "office-work"));
    assert forall p :: p in files ==> p == DownloadPath(w) || p in before;
  }
}
