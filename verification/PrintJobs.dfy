/** What printing one job consists of: the statuses it reports and the checks that can end it. */
module PrintJobs {
  import opened Outcomes
  import opened Protocol
  import opened Activity
  import opened Disk
  import Download
  import Office
  import PaperSizes
  import RemoteStore

  /** The part of the configuration a print job reads. */
  datatype Settings = Settings(defaultPrinter: Option<string>, defaultPaper: Option<Paper>, maxCopies: nat, maxFileSizeMb: nat)

  datatype PrintOptions = PrintOptions(printer: string, paper: Paper, copies: nat)

  /** Printer, paper name and copies that go into the task history. */
  datatype Metadata = Metadata(printer: Option<string>, paper: Option<string>, copies: Option<nat>)

  const NO_METADATA: Metadata := Metadata(None, None, None)

  datatype JobFailure =
    | PrinterNotConfigured
    | PaperNotConfigured
    | CopiesOutOfRange
    | UnsupportedFormat
    | InvalidMessage(text: string)
    | FileTooLarge
    | FormatMismatch(expected: string, actual: string)
    | DownloadFailed(cause: Download.DownloadError)
    | DocumentFailed(text: string)
    | ConversionFailed(error: Office.OfficeError)
    | RenderFailed(text: string)
    | CopyFailed
    | PrintFailed(text: string)

  datatype DocumentKind = PdfDocument | PngDocument | JpegDocument

  datatype TrackingOutcome = TrackedCompleted(message: string) | TrackedFailed(message: string) | TrackedUnknown(message: string)

  /** The print system accepts a job, and may be able to say how it went on; or it refuses. */
  datatype PrintResult = Spooled(tracking: Option<TrackingOutcome>) | Refused(text: string)

  datatype RenderResult =
    | Rendered(renderer: string, path: Path, size: nat, requestedToo: Option<nat>)
    | NotRendered(text: string, leftover: Option<nat>)

  /** Every external answer one job meets. */
  datatype World = World(
    stem: string,
    response: Download.Response,
    dataUrlWrite: Write,
    officeKind: Result<Option<Format>, string>,
    office: Office.Script,
    documentKind: Result<Option<DocumentKind>, string>,
    pdfCopy: Write,
    imageDecoded: Result<(), string>,
    imagePdf: Write,
    htmlStem: string,
    render: RenderResult,
    printed: PrintResult)

  /** One status report of a job; `reported` ones also go to the remote server. */
  datatype Emission = Emission(status: JobStatus, message: string, metadata: Metadata, reported: bool)

  /** The statuses the remote server is told, if the job came from it. */
  function RemoteStatus(status: JobStatus): Option<RemoteStore.ReportStatus> {
    match status
    case Queued => Some(RemoteStore.Accepted)
    case Submitted => Some(RemoteStore.Success)
    case Failed => Some(RemoteStore.Failed)
    case Cancelled => Some(RemoteStore.Failed)
    case _ => None
  }

  /** A step of printing: report something, or check something that may end the job. */
  datatype Stage = Say(emission: Emission) | Need(failure: Option<JobFailure>)

  datatype Outcome = Outcome(emissions: seq<Emission>, failure: Option<JobFailure>)

  /** Runs stages in order up to the first check that fails. */
  function Execute(stages: seq<Stage>): Outcome {
    if stages == [] then Outcome([], None)
    else
      match stages[0]
      case Say(e) => var rest := Execute(stages[1..]); rest.(emissions := [e] + rest.emissions)
      case Need(None) => Execute(stages[1..])
      case Need(Some(f)) => Outcome([], Some(f))
  }

  /** Checks one after the other: the first failure counts. */
  function Checks(failures: seq<Option<JobFailure>>): seq<Stage> {
    seq(|failures|, i requires 0 <= i < |failures| => Need(failures[i]))
  }

  /** Checks that all hold change nothing. */
  lemma {:induction false} ChecksPass(failures: seq<Option<JobFailure>>, rest: seq<Stage>)
    requires forall i :: 0 <= i < |failures| ==> failures[i].None?
    ensures Execute(Checks(failures) + rest) == Execute(rest)
  {
    if failures == [] {
      assert Checks(failures) + rest == rest;
    } else {
      assert (Checks(failures) + rest)[1..] == Checks(failures[1..]) + rest;
      ChecksPass(failures[1..], rest);
    }
  }

  /** The first check that fails ends the stages without a status. */
  lemma {:induction false} CheckFails(failures: seq<Option<JobFailure>>, rest: seq<Stage>, i: nat)
    requires i < |failures| && failures[i].Some? && forall k :: 0 <= k < i ==> failures[k].None?
    ensures Execute(Checks(failures) + rest) == Outcome([], failures[i])
  {
    if i > 0 {
      assert (Checks(failures) + rest)[1..] == Checks(failures[1..]) + rest;
      CheckFails(failures[1..], rest, i - 1);
    }
  }

  // -------------------------------------------------------------------------
  // Settings of one job
  // -------------------------------------------------------------------------

  function PrinterFor(job: PrintJob, cfg: Settings): Option<string> {
    Coalesce(job.printerName, cfg.defaultPrinter)
  }

  /** The job's own printer and paper win over the defaults; one copy unless it asks for more. */
  function ResolveOptions(job: PrintJob, cfg: Settings): Result<PrintOptions, JobFailure> {
    var printer, paper, copies := PrinterFor(job, cfg), Coalesce(job.paper, cfg.defaultPaper), job.copies.GetOr(1);
    if printer.None? then Err(PrinterNotConfigured)
    else if paper.None? then Err(PaperNotConfigured)
    else if copies == 0 || copies > cfg.maxCopies then Err(CopiesOutOfRange)
    else Ok(PrintOptions(printer.value, paper.value, copies))
  }

  /** Stands in for options that a failed check keeps from being used. */
  const UNUSED_OPTIONS: PrintOptions := PrintOptions("", Paper(0, 0), 0)

  function OptionsOf(job: PrintJob, cfg: Settings): PrintOptions {
    match ResolveOptions(job, cfg)
    case Ok(options) => options
    case Err(_) => UNUSED_OPTIONS
  }

  function FileMetadata(o: PrintOptions): Metadata {
    Metadata(Some(o.printer), Some(PaperSizes.PaperName(o.paper.width, o.paper.height)), Some(o.copies))
  }

  function RawMetadata(printer: string): Metadata {
    Metadata(Some(printer), None, None)
  }

  // -------------------------------------------------------------------------
  // The stages of each kind of job
  // -------------------------------------------------------------------------

  function FailureOf<T, E>(r: Result<T, E>, f: E -> JobFailure): Option<JobFailure> {
    match r
    case Ok(_) => None
    case Err(e) => Some(f(e))
  }

  function Report(status: JobStatus, message: string, metadata: Metadata): Stage {
    Say(Emission(status, message, metadata, true))
  }

  function TrackingStages(printed: PrintResult, metadata: Metadata): seq<Stage> {
    if printed.Refused? || printed.tracking.None? then []
    else
      match printed.tracking.value
      case TrackedCompleted(message) => [Say(Emission(Completed, message, metadata, false))]
      case TrackedFailed(message) => [Say(Emission(Failed, message, metadata, false))]
      case TrackedUnknown(message) => [Say(Emission(Unknown, message, metadata, false))]
  }

  /** Handing a document to the print system and following it. */
  function SubmitStages(announcement: string, metadata: Metadata, printed: PrintResult): seq<Stage> {
    [Report(Printing, announcement, metadata)]
      + (Checks([if printed.Refused? then Some(PrintFailed(printed.text)) else None])
      + ([Report(Submitted, "submitted to system print queue", metadata)]
      + TrackingStages(printed, metadata)))
  }

  function RawChecks(lib: Library, job: PrintJob, cfg: Settings): seq<Option<JobFailure>> {
    var size := if job.dataBase64.Some? then lib.decodedLength(job.dataBase64.value) else None;
    [if PrinterFor(job, cfg).None? then Some(PrinterNotConfigured) else None,
     if job.dataBase64.None? then Some(InvalidMessage("raw job requires data_base64")) else None,
     if size.None? then Some(InvalidMessage("invalid raw data_base64")) else None,
     if size.Some? && size.value > MaxBytes(cfg.maxFileSizeMb) then Some(JobFailure.FileTooLarge) else None]
  }

  function RawStages(lib: Library, job: PrintJob, cfg: Settings, w: World): seq<Stage> {
    Checks(RawChecks(lib, job, cfg)) + SubmitStages("printing raw", RawMetadata(PrinterFor(job, cfg).GetOr("")), w.printed)
  }

  function HtmlSourceFailure(lib: Library, job: PrintJob): Option<JobFailure> {
    if job.format == RawHtml then
      if job.html.None? then Some(InvalidMessage("raw-html job requires html")) else None
    else if job.fileUrl.None? then Some(InvalidMessage("html job requires file_url"))
    else if HtmlPage(lib, job.fileUrl.value).None? then Some(InvalidMessage("invalid html file_url"))
    else None
  }

  function HtmlChecks(lib: Library, job: PrintJob, cfg: Settings, w: World): seq<Option<JobFailure>> {
    [FailureOf(ResolveOptions(job, cfg), f => f),
     HtmlSourceFailure(lib, job),
     if w.render.NotRendered? then Some(RenderFailed(w.render.text)) else None]
  }

  function RenderedStages(w: World, metadata: Metadata): seq<Stage> {
    [Report(Printing, "rendering html with " + (if w.render.Rendered? then w.render.renderer else ""), metadata)]
      + SubmitStages("printing", metadata, w.printed)
  }

  function HtmlStages(lib: Library, job: PrintJob, cfg: Settings, w: World): seq<Stage> {
    Checks(HtmlChecks(lib, job, cfg, w)) + RenderedStages(w, FileMetadata(OptionsOf(job, cfg)))
  }

  predicate IsOffice(f: Format) {
    f.Docx? || f.Xlsx? || f.Pptx?
  }

  function FormatName(f: Format): string {
    match f
    case Pdf => "pdf" case Image => "image" case Png => "png" case Jpg => "jpg" case Jpeg => "jpeg"
    case Docx => "docx" case Xlsx => "xlsx" case Pptx => "pptx" case Raw => "raw" case Html => "html" case RawHtml => "raw-html"
  }

  function KindName(k: DocumentKind): string {
    match k case PdfDocument => "pdf" case PngDocument => "png" case JpegDocument => "jpeg"
  }

  predicate FormatMatches(expected: Format, actual: DocumentKind) {
    match expected
    case Pdf => actual.PdfDocument?
    case Image => !actual.PdfDocument?
    case Png => actual.PngDocument?
    case Jpg => actual.JpegDocument?
    case Jpeg => actual.JpegDocument?
    case _ => false
  }

  function OfficeFailure(expected: Format, w: World): Option<JobFailure> {
    match w.officeKind
    case Err(_) => Some(ConversionFailed(Office.IoFailed))
    case Ok(found) =>
      if found != Some(expected) then
        Some(FormatMismatch(FormatName(expected), if found.Some? then FormatName(found.value) else "unsupported"))
      else FailureOf(Office.ConversionResult(w.office), e => ConversionFailed(e))
  }

  function DocumentFailure(expected: Format, w: World): Option<JobFailure> {
    match w.documentKind
    case Err(text) => Some(DocumentFailed(text))
    case Ok(None) => Some(UnsupportedFormat)
    case Ok(Some(kind)) =>
      if !FormatMatches(expected, kind) then Some(FormatMismatch(FormatName(expected), KindName(kind)))
      else if kind.PdfDocument? then if w.pdfCopy.Wrote? then None else Some(CopyFailed)
      else if w.imageDecoded.Err? then Some(DocumentFailed(w.imageDecoded.error))
      else if w.imagePdf.Wrote? then None
      else Some(DocumentFailed("image PDF could not be written"))
  }

  /** Turning the downloaded file into a printable PDF. */
  function PrepareFailure(expected: Format, w: World): Option<JobFailure> {
    if IsOffice(expected) then OfficeFailure(expected, w) else DocumentFailure(expected, w)
  }

  function ConverterName(w: World): string {
    if w.office.converter.Ok? then w.office.converter.value else ""
  }

  function PrepareStages(expected: Format, w: World, metadata: Metadata): seq<Stage> {
    Checks([PrepareFailure(expected, w)])
      + if IsOffice(expected) then [Report(Printing, "converted office with " + ConverterName(w), metadata)] else []
  }

  function DownloadOutcome(lib: Library, job: PrintJob, cfg: Settings, w: World): Result<nat, Download.DownloadError> {
    Download.DownloadResult(lib, job.fileUrl.GetOr(""), MaxBytes(cfg.maxFileSizeMb), w.response, w.dataUrlWrite)
  }

  function FileChecks(lib: Library, job: PrintJob, cfg: Settings, w: World): seq<Option<JobFailure>> {
    [if job.fileUrl.None? then Some(InvalidMessage("file job requires file_url")) else None,
     FailureOf(ResolveOptions(job, cfg), f => f),
     FailureOf(DownloadOutcome(lib, job, cfg, w), e => DownloadFailed(e))]
  }

  /** What is left to do with a downloaded file. */
  function PrintStages(job: PrintJob, w: World, metadata: Metadata): seq<Stage> {
    PrepareStages(job.format, w, metadata) + SubmitStages("printing", metadata, w.printed)
  }

  function FetchStages(lib: Library, job: PrintJob, cfg: Settings, w: World): seq<Stage> {
    Checks(FileChecks(lib, job, cfg, w)) + PrintStages(job, w, FileMetadata(OptionsOf(job, cfg)))
  }

  function FileStages(lib: Library, job: PrintJob, cfg: Settings, w: World): seq<Stage> {
    [Report(Downloading, "downloading", NO_METADATA)] + FetchStages(lib, job, cfg, w)
  }

  function Stages(lib: Library, job: PrintJob, cfg: Settings, w: World): seq<Stage> {
    match job.format
    case Html => HtmlStages(lib, job, cfg, w)
    case RawHtml => HtmlStages(lib, job, cfg, w)
    case Raw => RawStages(lib, job, cfg, w)
    case _ => FileStages(lib, job, cfg, w)
  }

  /** Errors of the operating system and of the HTTP library carry texts of their own, which stand for themselves here. */
  function DownloadCause(e: Download.DownloadError): string {
    match e
    case InvalidFileUrl => "invalid file url"
    case FileTooLarge => "file too large"
    case IoFailed => "i/o error"
    case RequestFailed => "request error"
  }

  function OfficeCause(e: Office.OfficeError): string {
    match e
    case IoFailed => "i/o error"
    case ConverterFailed(message) => message
    case InvalidPdf(converter) => "office converter produced an invalid PDF: " + converter
  }

  /** The text a failure is reported with. */
  function Describe(f: JobFailure): string {
    match f
    case PrinterNotConfigured => "printer not configured"
    case PaperNotConfigured => "paper not configured"
    case CopiesOutOfRange => "copies out of range"
    case UnsupportedFormat => "unsupported document format"
    case InvalidMessage(text) => text
    case FileTooLarge => "file too large"
    case FormatMismatch(expected, actual) => "format mismatch: expected " + expected + ", got " + actual
    case DownloadFailed(cause) => "download failed: " + DownloadCause(cause)
    case DocumentFailed(text) => "document normalization failed: " + text
    case ConversionFailed(error) => OfficeCause(error)
    case RenderFailed(text) => "HTML rendering failed: " + text
    case CopyFailed => "i/o error"
    case PrintFailed(text) => "print failed: " + text
  }

  /** Everything a job reports from the moment the worker takes it. */
  function Trace(lib: Library, job: PrintJob, cfg: Settings, w: World): seq<Emission> {
    var outcome := Execute(Stages(lib, job, cfg, w));
    [Emission(Queued, "queued", NO_METADATA, true)]
      + outcome.emissions
      + if outcome.failure.Some? then [Emission(Failed, Describe(outcome.failure.value), NO_METADATA, true)] else []
  }

  // -------------------------------------------------------------------------
  // Files a job leaves behind
  // -------------------------------------------------------------------------

  function DownloadPath(w: World): Path {
    Named(w.stem, "tmp")
  }

  function PdfPath(w: World): Path {
    Named(w.stem, "pdf")
  }

  function HtmlPath(w: World): Path {
    Named(w.htmlStem, "pdf")
  }

  function PartOf(p: Path, w: Write): Files {
    if w.NotWritten? && w.leftover.Some? then map[p := w.leftover.value] else map[]
  }

  /** What preparing a document may leave behind. */
  function PrepareLeftover(expected: Format, w: World): Files {
    if IsOffice(expected) then map[]
    else
      match w.documentKind
      case Ok(Some(kind)) =>
        if !FormatMatches(expected, kind) then map[]
        else if kind.PdfDocument? then PartOf(PdfPath(w), w.pdfCopy)
        else if w.imageDecoded.Ok? then PartOf(PdfPath(w), w.imagePdf)
        else map[]
      case _ => map[]
  }

  /** Half-written PDFs stay: neither a failed copy nor a failed image conversion is cleaned up. */
  function Leftover(lib: Library, job: PrintJob, cfg: Settings, w: World): Files {
    if job.format in {Html, RawHtml, Raw} then map[]
    else if job.fileUrl.None? || ResolveOptions(job, cfg).Err? || DownloadOutcome(lib, job, cfg, w).Err? then map[]
    else PrepareLeftover(job.format, w)
  }
}
