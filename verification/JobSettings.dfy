/** With which printer, paper and copies a job is printed, exactly when it is, and why when it is not. */
module JobSettings {
  import opened Outcomes
  import opened Protocol
  import opened Activity
  import opened Disk
  import opened PrintJobs
  import opened JobTraces
  import Download
  import Office
  import PaperSizes

  // -------------------------------------------------------------------------
  // The settings of a job
  // -------------------------------------------------------------------------

  /** The job's own printer; the default one only for a job that names none. */
  predicate UsesPrinter(job: PrintJob, cfg: Settings, printer: string) {
    job.printerName == Some(printer) || (job.printerName.None? && cfg.defaultPrinter == Some(printer))
  }

  predicate UsesPaper(job: PrintJob, cfg: Settings, paper: Paper) {
    job.paper == Some(paper) || (job.paper.None? && cfg.defaultPaper == Some(paper))
  }

  predicate UsesCopies(job: PrintJob, cfg: Settings, copies: nat) {
    (job.copies == Some(copies) || (job.copies.None? && copies == 1)) && 1 <= copies <= cfg.maxCopies
  }

  /** What is noted of a printed job: its printer, and for files and pages its paper and copies. */
  ghost predicate CarriesSettings(job: PrintJob, cfg: Settings, m: Metadata) {
    && m.printer.Some? && UsesPrinter(job, cfg, m.printer.value)
    && if job.format.Raw? then m.paper.None? && m.copies.None?
       else
         && m.copies.Some? && UsesCopies(job, cfg, m.copies.value)
         && exists paper :: UsesPaper(job, cfg, paper) && m.paper == Some(PaperSizes.PaperName(paper.width, paper.height))
  }

  /** Everything said here is said once the job is being printed, with these settings. */
  ghost predicate SaysWith(stages: seq<Stage>, m: Metadata) {
    forall i :: 0 <= i < |stages| && stages[i].Say? ==>
      stages[i].emission.metadata == m && !stages[i].emission.status.Queued? && !stages[i].emission.status.Downloading?
  }

  ghost predicate SaidWith(es: seq<Emission>, m: Metadata) {
    forall i :: 0 <= i < |es| ==> es[i].metadata == m && !es[i].status.Queued? && !es[i].status.Downloading?
  }

  lemma {:induction false} ExecutedSays(stages: seq<Stage>, m: Metadata)
    requires SaysWith(stages, m)
    ensures SaidWith(Execute(stages).emissions, m)
  {
    if stages != [] {
      assert forall i :: 0 <= i < |stages[1..]| ==> stages[1..][i] == stages[i + 1];
      ExecutedSays(stages[1..], m);
    }
  }

  lemma SaysWithConcat(a: seq<Stage>, b: seq<Stage>, m: Metadata)
    requires SaysWith(a, m) && SaysWith(b, m)
    ensures SaysWith(a + b, m)
  {
  }

  lemma SubmitSays(announcement: string, m: Metadata, printed: PrintResult)
    ensures SaysWith(SubmitStages(announcement, m, printed), m)
  {
    var check := Checks([if printed.Refused? then Some(PrintFailed(printed.text)) else None]);
    var submitted := [Report(Submitted, "submitted to system print queue", m)];
    SaysWithConcat(submitted, TrackingStages(printed, m), m);
    SaysWithConcat(check, submitted + TrackingStages(printed, m), m);
    SaysWithConcat([Report(Printing, announcement, m)], check + (submitted + TrackingStages(printed, m)), m);
  }

  /** Behind checks, something is said only when all of them hold. */
  lemma BehindChecks(checks: seq<Option<JobFailure>>, rest: seq<Stage>, m: Metadata)
    requires SaysWith(rest, m)
    ensures var es := Execute(Checks(checks) + rest).emissions;
            SaidWith(es, m) && (es != [] ==> AllHold(checks))
  {
    ChecksOutcome(checks, rest);
    ExecutedSays(rest, m);
  }

  lemma ResolvedOptionsAreTheJobs(job: PrintJob, cfg: Settings)
    requires ResolveOptions(job, cfg).Ok? && !job.format.Raw?
    ensures CarriesSettings(job, cfg, FileMetadata(OptionsOf(job, cfg)))
  {
    var o := OptionsOf(job, cfg);
    assert UsesPaper(job, cfg, o.paper);
  }

  lemma RawSays(lib: Library, job: PrintJob, cfg: Settings, w: World) returns (m: Metadata)
    requires job.format.Raw?
    ensures var es := Execute(RawStages(lib, job, cfg, w)).emissions;
            SaidWith(es, m) && (es != [] ==> CarriesSettings(job, cfg, m))
  {
    m := RawMetadata(PrinterFor(job, cfg).GetOr(""));
    SubmitSays("printing raw", m, w.printed);
    BehindChecks(RawChecks(lib, job, cfg), SubmitStages("printing raw", m, w.printed), m);
    assert AllHold(RawChecks(lib, job, cfg)) ==> RawChecks(lib, job, cfg)[0].None?;
  }

  lemma HtmlSays(lib: Library, job: PrintJob, cfg: Settings, w: World) returns (m: Metadata)
    requires job.format.Html? || job.format.RawHtml?
    ensures var es := Execute(HtmlStages(lib, job, cfg, w)).emissions;
            SaidWith(es, m) && (es != [] ==> CarriesSettings(job, cfg, m))
  {
    m := FileMetadata(OptionsOf(job, cfg));
    SubmitSays("printing", m, w.printed);
    BehindChecks(HtmlChecks(lib, job, cfg, w), RenderedStages(w, m), m);
    if AllHold(HtmlChecks(lib, job, cfg, w)) {
      assert HtmlChecks(lib, job, cfg, w)[0].None?;
      ResolvedOptionsAreTheJobs(job, cfg);
    }
  }

  lemma FetchSays(lib: Library, job: PrintJob, cfg: Settings, w: World) returns (m: Metadata)
    requires DownloadsFile(job.format)
    ensures var es := Execute(FetchStages(lib, job, cfg, w)).emissions;
            SaidWith(es, m) && (es != [] ==> CarriesSettings(job, cfg, m))
  {
    m := FileMetadata(OptionsOf(job, cfg));
    SubmitSays("printing", m, w.printed);
    SaysWithConcat(PrepareStages(job.format, w, m), SubmitStages("printing", m, w.printed), m);
    BehindChecks(FileChecks(lib, job, cfg, w), PrintStages(job, w, m), m);
    if AllHold(FileChecks(lib, job, cfg, w)) {
      assert FileChecks(lib, job, cfg, w)[1].None?;
      ResolvedOptionsAreTheJobs(job, cfg);
    }
  }

  /** Either it announces work on a job that is not printed yet, without settings, or it carries the job's settings. */
  ghost predicate SaidRightly(job: PrintJob, cfg: Settings, e: Emission) {
    if e.status.Queued? || e.status.Downloading? then e.reported && e.metadata == NO_METADATA
    else if e.status.Failed? && e.reported && e.metadata == NO_METADATA then true
    else CarriesSettings(job, cfg, e.metadata)
  }

  lemma StagesSaySettings(lib: Library, job: PrintJob, cfg: Settings, w: World)
    ensures forall i :: 0 <= i < |Execute(Stages(lib, job, cfg, w)).emissions| ==>
      SaidRightly(job, cfg, Execute(Stages(lib, job, cfg, w)).emissions[i])
  {
    if job.format.Raw? {
      var m := RawSays(lib, job, cfg, w);
    } else if job.format.Html? || job.format.RawHtml? {
      var m := HtmlSays(lib, job, cfg, w);
    } else {
      var m := FetchSays(lib, job, cfg, w);
      var fetch := FetchStages(lib, job, cfg, w);
      assert FileStages(lib, job, cfg, w)[1..] == fetch;
      assert Execute(FileStages(lib, job, cfg, w)).emissions
          == [Emission(Downloading, "downloading", NO_METADATA, true)] + Execute(fetch).emissions;
    }
  }

  /**
   * Every status of every job, under every answer of the outside world: a printing, submission or tracking status
   * carries the job's own printer, paper and copies, the defaults only where the job is silent, and copies in range.
   */
  lemma EveryStatusCarriesTheSettings(lib: Library, job: PrintJob, cfg: Settings, w: World, i: nat)
    requires i < |Trace(lib, job, cfg, w)|
    ensures SaidRightly(job, cfg, Trace(lib, job, cfg, w)[i])
  {
    StagesSaySettings(lib, job, cfg, w);
    var trace, es := Trace(lib, job, cfg, w), Execute(Stages(lib, job, cfg, w)).emissions;
    if 1 <= i <= |es| { assert trace[i] == es[i - 1]; }
  }

  // -------------------------------------------------------------------------
  // Exactly when a job is submitted
  // -------------------------------------------------------------------------

  predicate HasPrinter(job: PrintJob, cfg: Settings) {
    job.printerName.Some? || cfg.defaultPrinter.Some?
  }

  predicate HasPaper(job: PrintJob, cfg: Settings) {
    job.paper.Some? || cfg.defaultPaper.Some?
  }

  predicate CopiesInRange(job: PrintJob, cfg: Settings) {
    if job.copies.Some? then 1 <= job.copies.value <= cfg.maxCopies else 1 <= cfg.maxCopies
  }

  predicate HasAllSettings(job: PrintJob, cfg: Settings) {
    HasPrinter(job, cfg) && HasPaper(job, cfg) && CopiesInRange(job, cfg)
  }

  /** A PDF job prints a PDF, an image job any image, a PNG or JPEG job its own kind. */
  predicate KindFits(f: Format, kind: DocumentKind) {
    || (f.Pdf? && kind.PdfDocument?)
    || ((f.Image? || f.Png?) && kind.PngDocument?)
    || ((f.Image? || f.Jpg? || f.Jpeg?) && kind.JpegDocument?)
  }

  ghost predicate Arrives(lib: Library, job: PrintJob, cfg: Settings, w: World) {
    job.fileUrl.Some? && exists size :: DownloadOutcome(lib, job, cfg, w) == Ok(size)
  }

  /** The download becomes a printable PDF: by conversion, by a copy, or from a decoded image. */
  predicate BecomesPdf(f: Format, w: World) {
    if f.Docx? || f.Xlsx? || f.Pptx? then w.officeKind == Ok(Some(f)) && Office.HasValidPdf(w.office)
    else
      && w.documentKind.Ok? && w.documentKind.value.Some? && KindFits(f, w.documentKind.value.value)
      && if w.documentKind.value.value.PdfDocument? then w.pdfCopy.Wrote? else w.imageDecoded.Ok? && w.imagePdf.Wrote?
  }

  /** All that a job of its format needs before the print system is asked. */
  ghost predicate ReadyToPrint(lib: Library, job: PrintJob, cfg: Settings, w: World) {
    match job.format
    case Raw =>
      && HasPrinter(job, cfg) && job.dataBase64.Some? && lib.decodedLength(job.dataBase64.value).Some?
      && WithinLimit(lib.decodedLength(job.dataBase64.value).value, cfg.maxFileSizeMb)
    case RawHtml => HasAllSettings(job, cfg) && job.html.Some? && w.render.Rendered?
    case Html => HasAllSettings(job, cfg) && job.fileUrl.Some? && IsPageAddress(lib, job.fileUrl.value) && w.render.Rendered?
    case _ => HasAllSettings(job, cfg) && Arrives(lib, job, cfg, w) && BecomesPdf(job.format, w)
  }

  lemma PreparedExactly(f: Format, w: World)
    requires DownloadsFile(f)
    ensures PrepareFailure(f, w).None? <==> BecomesPdf(f, w)
  {
    Office.ConvertedMeansValidPdf(w.office);
  }

  lemma RawReady(lib: Library, job: PrintJob, cfg: Settings, w: World)
    requires job.format.Raw?
    ensures AllHold(RawChecks(lib, job, cfg)) <==> ReadyToPrint(lib, job, cfg, w)
  {
    var checks := RawChecks(lib, job, cfg);
    if job.dataBase64.Some? && lib.decodedLength(job.dataBase64.value).Some? {
      LimitInBytes(lib.decodedLength(job.dataBase64.value).value, cfg.maxFileSizeMb);
    }
    assert AllHold(checks) <==> checks[0].None? && checks[1].None? && checks[2].None? && checks[3].None?;
  }

  lemma HtmlReady(lib: Library, job: PrintJob, cfg: Settings, w: World)
    requires job.format.Html? || job.format.RawHtml?
    ensures AllHold(HtmlChecks(lib, job, cfg, w)) <==> ReadyToPrint(lib, job, cfg, w)
  {
    var checks := HtmlChecks(lib, job, cfg, w);
    assert AllHold(checks) <==> checks[0].None? && checks[1].None? && checks[2].None?;
  }

  lemma FileReady(lib: Library, job: PrintJob, cfg: Settings, w: World)
    requires DownloadsFile(job.format)
    ensures AllHold(AllChecks(lib, job, cfg, w)) <==> ReadyToPrint(lib, job, cfg, w)
  {
    var all, checks := AllChecks(lib, job, cfg, w), FileChecks(lib, job, cfg, w);
    PreparedExactly(job.format, w);
    assert all == [checks[0], checks[1], checks[2], PrepareFailure(job.format, w)];
    assert AllHold(all) <==> all[0].None? && all[1].None? && all[2].None? && all[3].None?;
  }

  lemma ChecksHoldExactly(lib: Library, job: PrintJob, cfg: Settings, w: World)
    ensures AllHold(AllChecks(lib, job, cfg, w)) <==> ReadyToPrint(lib, job, cfg, w)
  {
    if job.format.Raw? {
      RawReady(lib, job, cfg, w);
    } else if job.format.Html? || job.format.RawHtml? {
      HtmlReady(lib, job, cfg, w);
    } else {
      FileReady(lib, job, cfg, w);
    }
  }

  ghost predicate Submits(lib: Library, job: PrintJob, cfg: Settings, w: World) {
    exists i :: 0 <= i < |Trace(lib, job, cfg, w)| && Trace(lib, job, cfg, w)[i].status.Submitted?
  }

  lemma SubmissionInWord(f: Format, c: Course)
    requires Possible(c)
    ensures (exists i :: 0 <= i < |Word(f, c)| && Word(f, c)[i].status.Submitted?) <==> c.Handed? || c.Tracked?
  {
    var word, at := Word(f, c), 1 + (if DownloadsFile(f) then 1 else 0) + |Announced(f)|;
    if c.Handed? || c.Tracked? { assert word[at] == Told(Submitted); }
  }

  /** A job reaches the print queue exactly when it is ready to print and the print system takes it. */
  lemma SubmittedExactly(lib: Library, job: PrintJob, cfg: Settings, w: World)
    ensures Submits(lib, job, cfg, w) <==> ReadyToPrint(lib, job, cfg, w) && w.printed.Spooled?
  {
    var trace, c := Trace(lib, job, cfg, w), CourseOf(AllHold(AllChecks(lib, job, cfg, w)), w.printed);
    TraceIsAWord(lib, job, cfg, w);
    ChecksHoldExactly(lib, job, cfg, w);
    SubmissionInWord(job.format, c);
    assert |trace| == |Word(job.format, c)| && forall i :: 0 <= i < |trace| ==> trace[i].status == Word(job.format, c)[i].status by {
      assert Marks(trace) == Word(job.format, c);
      assert forall i :: 0 <= i < |trace| ==> Marks(trace)[i].status == trace[i].status;
    }
    if c.Handed? || c.Tracked? {
      var i :| 0 <= i < |Word(job.format, c)| && Word(job.format, c)[i].status.Submitted?;
      assert trace[i].status.Submitted?;
    }
  }

  // -------------------------------------------------------------------------
  // Why a job fails
  // -------------------------------------------------------------------------

  /** What a failure says of the job and the outside world. */
  ghost predicate FailureHolds(lib: Library, job: PrintJob, cfg: Settings, w: World, f: JobFailure) {
    match f
    case PrinterNotConfigured => !HasPrinter(job, cfg)
    case PaperNotConfigured => !job.format.Raw? && !HasPaper(job, cfg)
    case CopiesOutOfRange => !job.format.Raw? && !CopiesInRange(job, cfg)
    case UnsupportedFormat => w.documentKind == Ok(None)
    case InvalidMessage(_) =>
      || (job.format.Raw? && (job.dataBase64.None? || lib.decodedLength(job.dataBase64.value).None?))
      || (job.format.RawHtml? && job.html.None?)
      || (job.format.Html? && (job.fileUrl.None? || !IsPageAddress(lib, job.fileUrl.value)))
      || (DownloadsFile(job.format) && job.fileUrl.None?)
    case FileTooLarge =>
      && job.format.Raw? && job.dataBase64.Some? && lib.decodedLength(job.dataBase64.value).Some?
      && !WithinLimit(lib.decodedLength(job.dataBase64.value).value, cfg.maxFileSizeMb)
    case FormatMismatch(_, _) => DownloadsFile(job.format) && !BecomesPdf(job.format, w)
    case DownloadFailed(cause) => DownloadsFile(job.format) && DownloadOutcome(lib, job, cfg, w) == Err(cause)
    case DocumentFailed(_) => DownloadsFile(job.format) && !IsOffice(job.format) && !BecomesPdf(job.format, w)
    case ConversionFailed(_) => IsOffice(job.format) && !BecomesPdf(job.format, w)
    case RenderFailed(text) => (job.format.Html? || job.format.RawHtml?) && w.render.NotRendered? && w.render.text == text
    case CopyFailed => DownloadsFile(job.format) && !IsOffice(job.format) && !w.pdfCopy.Wrote?
    case PrintFailed(text) => w.printed == Refused(text)
  }

  ghost predicate ChecksTell(lib: Library, job: PrintJob, cfg: Settings, w: World, checks: seq<Option<JobFailure>>) {
    forall i :: 0 <= i < |checks| && checks[i].Some? ==> FailureHolds(lib, job, cfg, w, checks[i].value)
  }

  lemma RawChecksTell(lib: Library, job: PrintJob, cfg: Settings, w: World)
    requires job.format.Raw?
    ensures ChecksTell(lib, job, cfg, w, RawChecks(lib, job, cfg))
  {
    if job.dataBase64.Some? && lib.decodedLength(job.dataBase64.value).Some? {
      LimitInBytes(lib.decodedLength(job.dataBase64.value).value, cfg.maxFileSizeMb);
    }
  }

  lemma FileChecksTell(lib: Library, job: PrintJob, cfg: Settings, w: World)
    requires DownloadsFile(job.format)
    ensures ChecksTell(lib, job, cfg, w, FileChecks(lib, job, cfg, w)) && ChecksTell(lib, job, cfg, w, [PrepareFailure(job.format, w)])
  {
    PreparedExactly(job.format, w);
  }

  lemma SubmitFails(announcement: string, m: Metadata, printed: PrintResult)
    ensures Execute(SubmitStages(announcement, m, printed)).failure == if printed.Refused? then Some(PrintFailed(printed.text)) else None
  {
    var refusal := [if printed.Refused? then Some(PrintFailed(printed.text)) else None];
    var submitted := Report(Submitted, "submitted to system print queue", m);
    var after := [submitted] + TrackingStages(printed, m);
    assert SubmitStages(announcement, m, printed)[1..] == Checks(refusal) + after;
    if printed.Refused? {
      CheckFails(refusal, after, 0);
    } else {
      ChecksPass(refusal, after);
      assert after[1..] == TrackingStages(printed, m);
      TrackingFailsNothing(printed, m);
    }
  }

  lemma TrackingFailsNothing(printed: PrintResult, m: Metadata)
    ensures Execute(TrackingStages(printed, m)).failure.None?
  {
    var stages := TrackingStages(printed, m);
    if stages != [] { assert stages[1..] == []; }
  }

  /** Behind checks, a failure is that of a check or of what follows. */
  lemma FailsBehindChecks(lib: Library, job: PrintJob, cfg: Settings, w: World, checks: seq<Option<JobFailure>>, rest: seq<Stage>)
    requires ChecksTell(lib, job, cfg, w, checks)
    requires Execute(rest).failure.Some? ==> FailureHolds(lib, job, cfg, w, Execute(rest).failure.value)
    ensures var f := Execute(Checks(checks) + rest).failure; f.Some? ==> FailureHolds(lib, job, cfg, w, f.value)
  {
    if AllHold(checks) {
      ChecksPass(checks, rest);
    } else {
      var i := FirstFailure(checks);
      CheckFails(checks, rest, i);
    }
  }

  lemma PrintFails(lib: Library, job: PrintJob, cfg: Settings, w: World, m: Metadata)
    requires DownloadsFile(job.format) && ChecksTell(lib, job, cfg, w, [PrepareFailure(job.format, w)])
    ensures var f := Execute(PrintStages(job, w, m)).failure; f.Some? ==> FailureHolds(lib, job, cfg, w, f.value)
  {
    var check, submit := [PrepareFailure(job.format, w)], SubmitStages("printing", m, w.printed);
    var announce := PrepareStages(job.format, w, m)[1..];
    SubmitFails("printing", m, w.printed);
    assert PrintStages(job, w, m) == Checks(check) + (announce + submit);
    assert Execute(announce + submit).failure == Execute(submit).failure by {
      if IsOffice(job.format) {
        assert (announce + submit)[1..] == submit;
      } else {
        assert announce + submit == submit;
      }
    }
    FailsBehindChecks(lib, job, cfg, w, check, announce + submit);
  }

  /** Whatever a job fails for is true of it. */
  lemma FailuresAreTrue(lib: Library, job: PrintJob, cfg: Settings, w: World)
    ensures var f := Execute(Stages(lib, job, cfg, w)).failure; f.Some? ==> FailureHolds(lib, job, cfg, w, f.value)
  {
    if job.format.Raw? {
      RawChecksTell(lib, job, cfg, w);
      var m := RawMetadata(PrinterFor(job, cfg).GetOr(""));
      SubmitFails("printing raw", m, w.printed);
      FailsBehindChecks(lib, job, cfg, w, RawChecks(lib, job, cfg), SubmitStages("printing raw", m, w.printed));
    } else if job.format.Html? || job.format.RawHtml? {
      PageFailuresAreTrue(lib, job, cfg, w);
    } else {
      FileChecksTell(lib, job, cfg, w);
      var m := FileMetadata(OptionsOf(job, cfg));
      PrintFails(lib, job, cfg, w, m);
      FailsBehindChecks(lib, job, cfg, w, FileChecks(lib, job, cfg, w), PrintStages(job, w, m));
      assert FileStages(lib, job, cfg, w)[1..] == FetchStages(lib, job, cfg, w);
    }
  }

  lemma PageFailuresAreTrue(lib: Library, job: PrintJob, cfg: Settings, w: World)
    requires job.format.Html? || job.format.RawHtml?
    ensures var f := Execute(HtmlStages(lib, job, cfg, w)).failure; f.Some? ==> FailureHolds(lib, job, cfg, w, f.value)
  {
    var m := FileMetadata(OptionsOf(job, cfg));
    SubmitFails("printing", m, w.printed);
    assert RenderedStages(w, m)[1..] == SubmitStages("printing", m, w.printed);
    FailsBehindChecks(lib, job, cfg, w, HtmlChecks(lib, job, cfg, w), RenderedStages(w, m));
  }
}
