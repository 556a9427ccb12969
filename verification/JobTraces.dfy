/** Which status sequences a job can report: the exact language, format by format. */
module JobTraces {
  import opened Outcomes
  import opened Protocol
  import opened Activity
  import opened Disk
  import opened PrintJobs
  import Download
  import Office
  import RemoteStore
  import Text

  /** A status, and whether the remote server may hear of it. */
  datatype Mark = Mark(status: JobStatus, reported: bool)

  function Told(s: JobStatus): Mark {
    Mark(s, true)
  }

  function Marks(es: seq<Emission>): (marks: seq<Mark>)
    ensures |marks| == |es|
    ensures forall i :: 0 <= i < |es| ==> marks[i] == Mark(es[i].status, es[i].reported)
  {
    seq(|es|, i requires 0 <= i < |es| => Mark(es[i].status, es[i].reported))
  }

  predicate DownloadsFile(f: Format) {
    f !in {Html, RawHtml, Raw}
  }

  /** Pages and Office documents announce their conversion before the printing itself. */
  predicate ConvertsFirst(f: Format) {
    f == Html || f == RawHtml || IsOffice(f)
  }

  function Announced(f: Format): seq<Mark> {
    if ConvertsFirst(f) then [Told(Printing), Told(Printing)] else [Told(Printing)]
  }

  /** How a job goes on after being taken up. */
  datatype Course =
    | StoppedEarly
    | NotPrinted
    | Handed
    | Tracked(status: JobStatus)

  predicate IsTracking(s: JobStatus) {
    s == Completed || s == Failed || s == Unknown
  }

  function Ending(f: Format, c: Course): seq<Mark> {
    match c
    case StoppedEarly => [Told(Failed)]
    case NotPrinted => Announced(f) + [Told(Failed)]
    case Handed => Announced(f) + [Told(Submitted)]
    case Tracked(s) => Announced(f) + [Told(Submitted), Mark(s, false)]
  }

  /** What follows the first status. */
  function AfterQueued(f: Format, c: Course): seq<Mark> {
    if DownloadsFile(f) then [Told(Downloading)] + Ending(f, c) else Ending(f, c)
  }

  /** The whole report of a job of format `f` whose course is `c`. */
  function Word(f: Format, c: Course): seq<Mark> {
    [Told(Queued)] + AfterQueued(f, c)
  }

  ghost predicate Possible(c: Course) {
    c.Tracked? ==> IsTracking(c.status)
  }

  /** The course a job takes, read off its checks and the print system's answer. */
  function CourseOf(checksHold: bool, printed: PrintResult): Course {
    if !checksHold then StoppedEarly
    else
      match printed
      case Refused(_) => NotPrinted
      case Spooled(None) => Handed
      case Spooled(Some(TrackedCompleted(_))) => Tracked(Completed)
      case Spooled(Some(TrackedFailed(_))) => Tracked(Failed)
      case Spooled(Some(TrackedUnknown(_))) => Tracked(Unknown)
  }

  predicate AllHold(failures: seq<Option<JobFailure>>) {
    forall i :: 0 <= i < |failures| ==> failures[i].None?
  }

  function AllChecks(lib: Library, job: PrintJob, cfg: Settings, w: World): seq<Option<JobFailure>> {
    match job.format
    case Html => HtmlChecks(lib, job, cfg, w)
    case RawHtml => HtmlChecks(lib, job, cfg, w)
    case Raw => RawChecks(lib, job, cfg)
    case _ => FileChecks(lib, job, cfg, w) + [PrepareFailure(job.format, w)]
  }

  /** Checks either all hold and the rest runs, or stop everything with a failure and no status. */
  lemma ChecksOutcome(failures: seq<Option<JobFailure>>, rest: seq<Stage>)
    ensures AllHold(failures) ==> Execute(Checks(failures) + rest) == Execute(rest)
    ensures !AllHold(failures) ==>
      Execute(Checks(failures) + rest).emissions == [] && Execute(Checks(failures) + rest).failure.Some?
  {
    if AllHold(failures) {
      ChecksPass(failures, rest);
    } else {
      var i := FirstFailure(failures);
      CheckFails(failures, rest, i);
    }
  }

  lemma FirstFailure(failures: seq<Option<JobFailure>>) returns (i: nat)
    requires !AllHold(failures)
    ensures i < |failures| && failures[i].Some? && AllHold(failures[..i])
    ensures forall k :: 0 <= k < i ==> failures[k].None?
  {
    i := 0;
    while failures[i].None?
      invariant i < |failures| && AllHold(failures[..i]) && forall k :: 0 <= k < i ==> failures[k].None?
      decreases |failures| - i
    {
      i := i + 1;
    }
  }

  /** What stages report, the final failure included. */
  function MarksOf(o: Outcome): seq<Mark> {
    Marks(o.emissions) + if o.failure.Some? then [Told(Failed)] else []
  }

  lemma SaidFirst(e: Emission, rest: seq<Stage>)
    ensures MarksOf(Execute([Say(e)] + rest)) == [Mark(e.status, e.reported)] + MarksOf(Execute(rest))
  {
    assert ([Say(e)] + rest)[1..] == rest;
    var es := Execute(rest).emissions;
    assert Marks([e] + es) == [Mark(e.status, e.reported)] + Marks(es);
  }

  lemma TrackingReport(printed: PrintResult, metadata: Metadata)
    requires printed.Spooled?
    ensures MarksOf(Execute(TrackingStages(printed, metadata)))
         == if printed.tracking.None? then [] else [Mark(CourseOf(true, printed).status, false)]
  {
    if printed.tracking.Some? {
      var stages := TrackingStages(printed, metadata);
      assert stages == [stages[0]] + [];
      SaidFirst(stages[0].emission, []);
    }
  }

  lemma SubmittedReport(metadata: Metadata, printed: PrintResult)
    requires printed.Spooled?
    ensures var submitted := Emission(Submitted, "submitted to system print queue", metadata, true);
            MarksOf(Execute([Say(submitted)] + TrackingStages(printed, metadata))) == Ending(Raw, CourseOf(true, printed))[1..]
  {
    SaidFirst(Emission(Submitted, "submitted to system print queue", metadata, true), TrackingStages(printed, metadata));
    TrackingReport(printed, metadata);
  }

  lemma SubmitReport(announcement: string, metadata: Metadata, printed: PrintResult)
    ensures MarksOf(Execute(SubmitStages(announcement, metadata, printed))) == Ending(Raw, CourseOf(true, printed))
  {
    var refusal := [if printed.Refused? then Some(PrintFailed(printed.text)) else None];
    var submitted := Emission(Submitted, "submitted to system print queue", metadata, true);
    var after := [Say(submitted)] + TrackingStages(printed, metadata);
    SaidFirst(Emission(Printing, announcement, metadata, true), Checks(refusal) + after);
    ChecksOutcome(refusal, after);
    if printed.Refused? {
      assert refusal[0].Some?;
    } else {
      SubmittedReport(metadata, printed);
    }
  }

  /** Everything after the checks of a page. */
  lemma RenderedReport(w: World, metadata: Metadata)
    ensures MarksOf(Execute(RenderedStages(w, metadata))) == Ending(Html, CourseOf(true, w.printed))
  {
    var e := RenderedStages(w, metadata)[0].emission;
    SaidFirst(e, SubmitStages("printing", metadata, w.printed));
    SubmitReport("printing", metadata, w.printed);
  }

  /** Everything after the checks of a downloaded file. */
  lemma PreparedReport(f: Format, w: World, metadata: Metadata)
    requires DownloadsFile(f)
    ensures MarksOf(Execute(PrepareStages(f, w, metadata) + SubmitStages("printing", metadata, w.printed)))
         == Ending(f, CourseOf(PrepareFailure(f, w).None?, w.printed))
  {
    var check, submit := [PrepareFailure(f, w)], SubmitStages("printing", metadata, w.printed);
    var announce := PrepareStages(f, w, metadata)[1..];
    assert PrepareStages(f, w, metadata) + submit == Checks(check) + (announce + submit);
    ChecksOutcome(check, announce + submit);
    assert AllHold(check) <==> check[0].None?;
    AnnouncedReport(f, w, metadata);
  }

  /** What follows a successful preparation: Office documents announce their conversion first. */
  lemma AnnouncedReport(f: Format, w: World, metadata: Metadata)
    requires DownloadsFile(f)
    ensures MarksOf(Execute(PrepareStages(f, w, metadata)[1..] + SubmitStages("printing", metadata, w.printed)))
         == Ending(f, CourseOf(true, w.printed))
  {
    var announce, submit := PrepareStages(f, w, metadata)[1..], SubmitStages("printing", metadata, w.printed);
    SubmitReport("printing", metadata, w.printed);
    if IsOffice(f) {
      assert announce == [Say(announce[0].emission)];
      SaidFirst(announce[0].emission, submit);
    } else {
      assert announce + submit == submit;
    }
  }

  lemma StagesReport(lib: Library, job: PrintJob, cfg: Settings, w: World)
    ensures MarksOf(Execute(Stages(lib, job, cfg, w)))
         == AfterQueued(job.format, CourseOf(AllHold(AllChecks(lib, job, cfg, w)), w.printed))
  {
    if job.format == Html || job.format == RawHtml {
      HtmlStagesReport(lib, job, cfg, w);
    } else if job.format == Raw {
      RawStagesReport(lib, job, cfg, w);
    } else {
      FileStagesReport(lib, job, cfg, w);
    }
  }

  lemma HtmlStagesReport(lib: Library, job: PrintJob, cfg: Settings, w: World)
    requires job.format == Html || job.format == RawHtml
    ensures MarksOf(Execute(HtmlStages(lib, job, cfg, w)))
         == Ending(job.format, CourseOf(AllHold(AllChecks(lib, job, cfg, w)), w.printed))
  {
    var metadata := FileMetadata(OptionsOf(job, cfg));
    ChecksOutcome(HtmlChecks(lib, job, cfg, w), RenderedStages(w, metadata));
    RenderedReport(w, metadata);
  }

  lemma RawStagesReport(lib: Library, job: PrintJob, cfg: Settings, w: World)
    requires job.format == Raw
    ensures MarksOf(Execute(RawStages(lib, job, cfg, w)))
         == Ending(job.format, CourseOf(AllHold(AllChecks(lib, job, cfg, w)), w.printed))
  {
    var metadata := RawMetadata(PrinterFor(job, cfg).GetOr(""));
    ChecksOutcome(RawChecks(lib, job, cfg), SubmitStages("printing raw", metadata, w.printed));
    SubmitReport("printing raw", metadata, w.printed);
  }

  lemma FileStagesReport(lib: Library, job: PrintJob, cfg: Settings, w: World)
    requires DownloadsFile(job.format)
    ensures MarksOf(Execute(FileStages(lib, job, cfg, w)))
         == [Told(Downloading)] + Ending(job.format, CourseOf(AllHold(AllChecks(lib, job, cfg, w)), w.printed))
  {
    var metadata, checks := FileMetadata(OptionsOf(job, cfg)), FileChecks(lib, job, cfg, w);
    var rest := PrepareStages(job.format, w, metadata) + SubmitStages("printing", metadata, w.printed);
    SaidFirst(Emission(Downloading, "downloading", NO_METADATA, true), Checks(checks) + rest);
    ChecksOutcome(checks, rest);
    PreparedReport(job.format, w, metadata);
    var all := AllChecks(lib, job, cfg, w);
    assert all == checks + [PrepareFailure(job.format, w)];
    assert all[|checks|] == PrepareFailure(job.format, w);
    assert forall i :: 0 <= i < |checks| ==> all[i] == checks[i];
  }

  /**
   * Every job, under every answer of the outside world, reports exactly the word of its format and course:
   * queued; downloading for files only; then failed, or its one or two printing announcements followed by
   * failed or by submitted with at most one tracking status, which alone is kept from the remote server.
   */
  lemma TraceIsAWord(lib: Library, job: PrintJob, cfg: Settings, w: World)
    ensures Marks(Trace(lib, job, cfg, w))
         == Word(job.format, CourseOf(AllHold(AllChecks(lib, job, cfg, w)), w.printed))
  {
    StagesReport(lib, job, cfg, w);
    TraceMarks(lib, job, cfg, w);
  }

  lemma QueuedInFront(o: Outcome, text: string)
    ensures var report := [Emission(Queued, "queued", NO_METADATA, true)]
              + o.emissions
              + (if o.failure.Some? then [Emission(Failed, text, NO_METADATA, true)] else []);
            Marks(report) == [Told(Queued)] + MarksOf(o)
  {
  }

  lemma TraceMarks(lib: Library, job: PrintJob, cfg: Settings, w: World)
    ensures Marks(Trace(lib, job, cfg, w)) == [Told(Queued)] + MarksOf(Execute(Stages(lib, job, cfg, w)))
  {
    var o := Execute(Stages(lib, job, cfg, w));
    QueuedInFront(o, if o.failure.Some? then Describe(o.failure.value) else "");
  }

  // -------------------------------------------------------------------------
  // The language is exact: every word happens
  // -------------------------------------------------------------------------

  const OBLIGING: Library := Library(_ => Some(Url("http", Some("h"), Opaque)), _ => Some(0))

  function PlainSettings(configured: bool): Settings {
    Settings(if configured then Some("p") else None, Some(Paper(1, 1)), 1, 1)
  }

  function PlainJob(f: Format): PrintJob {
    PrintJob("id", f, None, if f == RawHtml || f == Raw then None else Some("x"),
             if f == Raw then Some("x") else None, if f == RawHtml then Some("x") else None, None, None, None)
  }

  function FittingKind(f: Format): DocumentKind {
    if f == Pdf then PdfDocument else if f == Jpg || f == Jpeg then JpegDocument else PngDocument
  }

  /** Nothing goes wrong before the document reaches the print system. */
  function SmoothWorld(f: Format, printed: PrintResult): World {
    World("s", Download.Body(None, true, [], true), Wrote(0), Ok(Some(f)),
          Office.Script(true, true, true, Wrote(0), Ok("c"), {}, Some(10), true),
          Ok(Some(FittingKind(f))), Wrote(0), Ok(()), Wrote(0), "h", Rendered("r", Named("h", "pdf"), 0, None), printed)
  }

  lemma PlainJobAcceptable(f: Format)
    ensures Acceptable(OBLIGING, PlainJob(f), 1)
  {
    if f == RawHtml {
      assert Text.Utf8Length("x") == 1;
    }
  }

  lemma SmoothDownload(f: Format, configured: bool, printed: PrintResult)
    requires DownloadsFile(f)
    ensures DownloadOutcome(OBLIGING, PlainJob(f), PlainSettings(configured), SmoothWorld(f, printed)).Ok?
  {
    assert !Download.IsPdfDataUrl("x");
    assert Download.ValidFileUrl(OBLIGING, "x");
  }

  lemma SmoothChecks(f: Format, configured: bool, printed: PrintResult)
    ensures AllHold(AllChecks(OBLIGING, PlainJob(f), PlainSettings(configured), SmoothWorld(f, printed))) <==> configured
  {
    var checks := AllChecks(OBLIGING, PlainJob(f), PlainSettings(configured), SmoothWorld(f, printed));
    if DownloadsFile(f) {
      SmoothDownload(f, configured, printed);
      assert checks[1].None? <==> configured;
    } else {
      assert checks[0].None? <==> configured;
    }
  }

  function AnswerFor(c: Course): PrintResult {
    match c
    case Tracked(Completed) => Spooled(Some(TrackedCompleted("")))
    case Tracked(Failed) => Spooled(Some(TrackedFailed("")))
    case Tracked(_) => Spooled(Some(TrackedUnknown("")))
    case Handed => Spooled(None)
    case _ => Refused("")
  }

  /** Conversely an acceptable job of each format can take each course. */
  lemma EveryWordHappens(f: Format, c: Course) returns (lib: Library, job: PrintJob, cfg: Settings, w: World)
    requires Possible(c)
    ensures job.format == f && Acceptable(lib, job, cfg.maxFileSizeMb)
    ensures Marks(Trace(lib, job, cfg, w)) == Word(f, c)
  {
    lib, job, cfg, w := OBLIGING, PlainJob(f), PlainSettings(!c.StoppedEarly?), SmoothWorld(f, AnswerFor(c));
    PlainJobAcceptable(f);
    SmoothChecks(f, !c.StoppedEarly?, AnswerFor(c));
    TraceIsAWord(lib, job, cfg, w);
  }

  // -------------------------------------------------------------------------
  // What follows for every job
  // -------------------------------------------------------------------------

  /** The statuses the remote server is told of a remote job, in order. */
  function RemoteReports(marks: seq<Mark>): seq<RemoteStore.ReportStatus> {
    if marks == [] then []
    else
      var m := marks[|marks| - 1];
      RemoteReports(marks[..|marks| - 1])
        + if m.reported && RemoteStatus(m.status).Some? then [RemoteStatus(m.status).value] else []
  }

  /** The server is told of acceptance first and then of one result; tracking changes nothing. */
  lemma WordReports(f: Format, c: Course)
    ensures RemoteReports(Word(f, c))
         == [RemoteStore.Accepted, if c.StoppedEarly? || c.NotPrinted? then RemoteStore.Failed else RemoteStore.Success]
  {
    RemoteReportsConcat([Told(Queued)], AfterQueued(f, c));
    EndingReports(f, c);
    if DownloadsFile(f) { RemoteReportsConcat([Told(Downloading)], Ending(f, c)); }
  }

  lemma OneReport(m: Mark)
    ensures RemoteReports([m]) == if m.reported && RemoteStatus(m.status).Some? then [RemoteStatus(m.status).value] else []
  {
    assert [m][..0] == [];
  }

  lemma EndingReports(f: Format, c: Course)
    ensures RemoteReports(Ending(f, c))
         == [if c.StoppedEarly? || c.NotPrinted? then RemoteStore.Failed else RemoteStore.Success]
  {
    OneReport(Told(Printing));
    OneReport(Told(Failed));
    OneReport(Told(Submitted));
    RemoteReportsConcat([Told(Printing)], [Told(Printing)]);
    assert [Told(Printing)] + [Told(Printing)] == [Told(Printing), Told(Printing)];
    assert RemoteReports(Announced(f)) == [];
    match c
    case StoppedEarly =>
    case NotPrinted => RemoteReportsConcat(Announced(f), [Told(Failed)]);
    case Handed => RemoteReportsConcat(Announced(f), [Told(Submitted)]);
    case Tracked(s) =>
      OneReport(Mark(s, false));
      RemoteReportsConcat([Told(Submitted)], [Mark(s, false)]);
      assert [Told(Submitted)] + [Mark(s, false)] == [Told(Submitted), Mark(s, false)];
      RemoteReportsConcat(Announced(f), [Told(Submitted), Mark(s, false)]);
  }

  /** The reports of any job: acceptance, then one result. */
  lemma TraceReports(lib: Library, job: PrintJob, cfg: Settings, w: World)
    ensures var reports := RemoteReports(Marks(Trace(lib, job, cfg, w)));
            reports == [RemoteStore.Accepted, RemoteStore.Success] || reports == [RemoteStore.Accepted, RemoteStore.ReportStatus.Failed]
  {
    TraceIsAWord(lib, job, cfg, w);
    WordReports(job.format, CourseOf(AllHold(AllChecks(lib, job, cfg, w)), w.printed));
  }

  lemma {:induction false} RemoteReportsConcat(a: seq<Mark>, b: seq<Mark>)
    ensures RemoteReports(a + b) == RemoteReports(a) + RemoteReports(b)
  {
    if b == [] {
      assert a + b == a;
    } else {
      var n := |b| - 1;
      assert (a + b)[..|a| + n] == a + b[..n];
      RemoteReportsConcat(a, b[..n]);
    }
  }

  /**
   * A job ends terminally; before its last status only a submission can be terminal, it directly follows an
   * announcement, and a status is kept from the server exactly when it follows a submission.
   */
  ghost predicate WellShaped(marks: seq<Mark>) {
    2 <= |marks| <= 6 && marks[0].status == Queued && EndsWell(marks)
  }

  /** What one status says about the next: submission follows an announcement, and hides what comes after it. */
  predicate Follows(a: Mark, b: Mark) {
    (b.status == Submitted ==> a.status == Printing) && (!b.reported <==> a.status == Submitted)
  }

  ghost predicate EndsWell(marks: seq<Mark>) {
    && marks != [] && IsTerminal(marks[|marks| - 1].status)
    && marks[0].reported && marks[0].status != Submitted
    && (forall i :: 0 <= i < |marks| - 1 && IsTerminal(marks[i].status) ==> marks[i].status == Submitted && i == |marks| - 2)
    && (forall i :: 0 <= i < |marks| - 1 ==> Follows(marks[i], marks[i + 1]))
  }

  lemma OneMoreInFront(m: Mark, marks: seq<Mark>)
    requires EndsWell(marks) && m.reported && !IsTerminal(m.status)
    ensures EndsWell([m] + marks)
  {
    var longer := [m] + marks;
    forall i | 0 <= i < |longer| - 1 ensures Follows(longer[i], longer[i + 1]) {
      assert i > 0 ==> Follows(marks[i - 1], marks[i]);
    }
    assert forall i :: 0 < i < |longer| ==> longer[i] == marks[i - 1];
  }

  lemma WordShape(f: Format, c: Course)
    requires Possible(c)
    ensures WellShaped(Word(f, c))
  {
    EndingShape(f, c);
    if DownloadsFile(f) { OneMoreInFront(Told(Downloading), Ending(f, c)); }
    OneMoreInFront(Told(Queued), AfterQueued(f, c));
  }

  lemma EndingShape(f: Format, c: Course)
    requires Possible(c)
    ensures EndsWell(Ending(f, c)) && |Ending(f, c)| <= 4
  {
    var short := Ending(Raw, c);
    assert EndsWell(short) && |short| <= 3;
    if ConvertsFirst(f) && !c.StoppedEarly? {
      OneMoreInFront(Told(Printing), short);
      assert Ending(f, c) == [Told(Printing)] + short;
    }
  }

  lemma TraceShape(lib: Library, job: PrintJob, cfg: Settings, w: World)
    ensures WellShaped(Marks(Trace(lib, job, cfg, w)))
  {
    TraceIsAWord(lib, job, cfg, w);
    WordShape(job.format, CourseOf(AllHold(AllChecks(lib, job, cfg, w)), w.printed));
  }

  // -------------------------------------------------------------------------
  // Files
  // -------------------------------------------------------------------------

  predicate LeavesNothing(w: Write) {
    w.NotWritten? ==> w.leftover.None?
  }

  /** The job gets as far as writing the PDF beside its download. */
  predicate WritesPdf(lib: Library, job: PrintJob, cfg: Settings, w: World) {
    && DownloadsFile(job.format) && !IsOffice(job.format) && AllHold(FileChecks(lib, job, cfg, w))
    && w.documentKind.Ok? && w.documentKind.value.Some? && FormatMatches(job.format, w.documentKind.value.value)
    && (w.documentKind.value.value.PdfDocument? || w.imageDecoded.Ok?)
  }

  /** How that write goes: the copy of a PDF, or the conversion of an image. */
  function PdfWrite(lib: Library, job: PrintJob, cfg: Settings, w: World): Write
    requires WritesPdf(lib, job, cfg, w)
  {
    if w.documentKind.value.value.PdfDocument? then w.pdfCopy else w.imagePdf
  }

  lemma FileChecksAreThree(lib: Library, job: PrintJob, cfg: Settings, w: World)
    ensures var checks := FileChecks(lib, job, cfg, w);
            AllHold(checks) <==> checks[0].None? && checks[1].None? && checks[2].None?
  {
  }

  lemma PartStays(p: Path, w: Write)
    ensures PartOf(p, w) != map[] <==> !LeavesNothing(w)
  {
    if !LeavesNothing(w) { assert p in PartOf(p, w); }
  }

  /**
   * Something stays behind exactly when the job gets as far as writing its PDF and that write fails half-way:
   * the copy of a PDF, or the conversion of an image that could be decoded. What stays is that part.
   */
  lemma LeftoverExactly(lib: Library, job: PrintJob, cfg: Settings, w: World)
    ensures Leftover(lib, job, cfg, w) != map[] <==> WritesPdf(lib, job, cfg, w) && !LeavesNothing(PdfWrite(lib, job, cfg, w))
    ensures Leftover(lib, job, cfg, w) != map[] ==>
      Leftover(lib, job, cfg, w) == map[PdfPath(w) := PdfWrite(lib, job, cfg, w).leftover.value]
  {
    FileChecksAreThree(lib, job, cfg, w);
    PartStays(PdfPath(w), w.pdfCopy);
    PartStays(PdfPath(w), w.imagePdf);
  }

  /** A job that leaves something behind failed before printing; no part left by a write means nothing stays. */
  lemma OnlyHalfWrittenPdfStays(lib: Library, job: PrintJob, cfg: Settings, w: World)
    ensures var left := Leftover(lib, job, cfg, w);
            && (LeavesNothing(w.pdfCopy) && LeavesNothing(w.imagePdf) ==> left == map[])
            && (left != map[] ==> Marks(Trace(lib, job, cfg, w)) == Word(job.format, StoppedEarly))
  {
    TraceIsAWord(lib, job, cfg, w);
    if Leftover(lib, job, cfg, w) != map[] {
      LeftoverExactly(lib, job, cfg, w);
      var all := AllChecks(lib, job, cfg, w);
      assert all[3] == PrepareFailure(job.format, w) && all[3].Some?;
      assert !AllHold(all);
    }
  }

  /** And it does happen: neither a copy nor an image conversion that fails half-way is cleaned up. */
  lemma HalfCopyStays(size: nat)
    ensures var w := SmoothWorld(Pdf, Spooled(None)).(pdfCopy := NotWritten(Some(size)));
            Leftover(OBLIGING, PlainJob(Pdf), PlainSettings(true), w) == map[PdfPath(w) := size]
  {
    SmoothDownload(Pdf, true, Spooled(None));
  }

  lemma HalfImageStays(size: nat)
    ensures var w := SmoothWorld(Png, Spooled(None)).(imagePdf := NotWritten(Some(size)));
            Leftover(OBLIGING, PlainJob(Png), PlainSettings(true), w) == map[PdfPath(w) := size]
  {
    SmoothDownload(Png, true, Spooled(None));
  }
}
