/** Print jobs as clients submit them, and the field checks a job passes before it may be queued. */
module Protocol {
  import opened Outcomes
  import Text

  const MAX_HTML_WAIT_MS: nat := 30_000
  const BYTES_PER_MB: nat := 1024 * 1024
  const U64_MAX: nat := 0xFFFF_FFFF_FFFF_FFFF

  datatype Format = Pdf | Image | Png | Jpg | Jpeg | Docx | Xlsx | Pptx | Raw | Html | RawHtml

  /** A page size in hundredths of a millimetre. */
  datatype Paper = Paper(width: int, height: int)

  datatype PrintJob = PrintJob(
    jobId: string,
    format: Format,
    printerName: Option<string>,
    fileUrl: Option<string>,
    dataBase64: Option<string>,
    html: Option<string>,
    waitMs: Option<nat>,
    copies: Option<nat>,
    paper: Option<Paper>)

  /** A URL origin; two opaque origins are never the same. */
  datatype Origin = Tuple(text: string) | Opaque

  predicate SameOrigin(a: Origin, b: Origin) {
    a.Tuple? && a == b
  }

  /** `Origin::ascii_serialization`. */
  function Serialized(o: Origin): string {
    if o.Tuple? then o.text else "null"
  }

  datatype Url = Url(scheme: string, host: Option<string>, origin: Origin)

  /** The library functions jobs are checked with: URL parsing and base64 decoding (decoded size). */
  datatype Library = Library(
    parseUrl: string -> Option<Url>,
    decodedLength: string -> Option<nat>)

  datatype JobError =
    | MissingRawData | RawFileUrlNotAllowed | RawPaperNotAllowed | RawCopiesNotAllowed
    | MissingFileUrl | FileRawDataNotAllowed | InvalidRawData | FileTooLarge
    | MissingHtmlFileUrl | InvalidHtmlFileUrl | HtmlInlineNotAllowed
    | MissingRawHtml | RawHtmlFileUrlNotAllowed | HtmlDataBase64NotAllowed
    | NonHtmlHtmlNotAllowed | NonHtmlWaitNotAllowed | HtmlWaitOutOfRange

  predicate IsWebScheme(scheme: string) {
    scheme == "http" || scheme == "https"
  }

  /** An HTML page must be an absolute HTTP(S) address with a host. */
  function HtmlPage(lib: Library, text: string): Option<Url> {
    match lib.parseUrl(text)
    case None => None
    case Some(url) => if IsWebScheme(url.scheme) && url.host.Some? then Some(url) else None
  }

  function NonEmpty(value: Option<string>): Option<string> {
    if value.Some? && value.value != "" then value else None
  }

  /** The size limit in bytes: the multiplication saturates at 64 bits. */
  function MaxBytes(maxFileSizeMb: nat): nat {
    if maxFileSizeMb * BYTES_PER_MB > U64_MAX then U64_MAX else maxFileSizeMb * BYTES_PER_MB
  }

  /** Checks the field combination of a job; `None` means it may be queued. */
  function ValidateForAcceptance(lib: Library, job: PrintJob, maxFileSizeMb: nat): Option<JobError> {
    match job.format
    case Raw => ValidateRaw(lib, job, maxFileSizeMb)
    case Html => ValidateHtmlFile(lib, job)
    case RawHtml => ValidateRawHtml(job, maxFileSizeMb)
    case _ => ValidateFile(job)
  }

  function ValidateRaw(lib: Library, job: PrintJob, maxFileSizeMb: nat): Option<JobError> {
    if job.fileUrl.Some? then Some(RawFileUrlNotAllowed)
    else if job.paper.Some? then Some(RawPaperNotAllowed)
    else if job.copies.Some? then Some(RawCopiesNotAllowed)
    else if ValidateNonHtmlFields(job).Some? then ValidateNonHtmlFields(job)
    else
      match NonEmpty(job.dataBase64)
      case None => Some(MissingRawData)
      case Some(data) =>
        match lib.decodedLength(data)
        case None => Some(InvalidRawData)
        case Some(length) => if length > MaxBytes(maxFileSizeMb) then Some(FileTooLarge) else None
  }

  function ValidateFile(job: PrintJob): Option<JobError> {
    if NonEmpty(job.fileUrl).None? then Some(MissingFileUrl)
    else if job.dataBase64.Some? then Some(FileRawDataNotAllowed)
    else ValidateNonHtmlFields(job)
  }

  function ValidateNonHtmlFields(job: PrintJob): Option<JobError> {
    if job.html.Some? then Some(NonHtmlHtmlNotAllowed)
    else if job.waitMs.Some? then Some(NonHtmlWaitNotAllowed)
    else None
  }

  function ValidateHtmlFile(lib: Library, job: PrintJob): Option<JobError> {
    match NonEmpty(job.fileUrl)
    case None => Some(MissingHtmlFileUrl)
    case Some(text) =>
      if HtmlPage(lib, text).None? then Some(InvalidHtmlFileUrl)
      else if job.html.Some? then Some(HtmlInlineNotAllowed)
      else if job.dataBase64.Some? then Some(HtmlDataBase64NotAllowed)
      else ValidateHtmlWait(job)
  }

  function ValidateRawHtml(job: PrintJob, maxFileSizeMb: nat): Option<JobError> {
    if job.fileUrl.Some? then Some(RawHtmlFileUrlNotAllowed)
    else if job.dataBase64.Some? then Some(HtmlDataBase64NotAllowed)
    else if job.html.None? || Text.IsBlank(job.html.value) then Some(MissingRawHtml)
    else if Text.Utf8Length(job.html.value) > MaxBytes(maxFileSizeMb) then Some(FileTooLarge)
    else ValidateHtmlWait(job)
  }

  function ValidateHtmlWait(job: PrintJob): Option<JobError> {
    if job.waitMs.Some? && job.waitMs.value > MAX_HTML_WAIT_MS then Some(HtmlWaitOutOfRange) else None
  }

  predicate Acceptable(lib: Library, job: PrintJob, maxFileSizeMb: nat) {
    ValidateForAcceptance(lib, job, maxFileSizeMb).None?
  }

  // -------------------------------------------------------------------------
  // Which jobs are accepted, by their fields alone
  // -------------------------------------------------------------------------

  /** Within a limit given in megabytes of 1,048,576 bytes, and within 64 bits. */
  predicate WithinLimit(length: nat, maxFileSizeMb: nat) {
    length <= maxFileSizeMb * 1_048_576 && length <= 18_446_744_073_709_551_615
  }

  ghost predicate HasText(value: Option<string>) {
    value.Some? && exists i :: 0 <= i < |value.value| && !Text.IsWhitespace(value.value[i])
  }

  /** An absolute HTTP(S) address with a host. */
  predicate IsPageAddress(lib: Library, text: string) {
    var url := lib.parseUrl(text);
    url.Some? && (url.value.scheme == "http" || url.value.scheme == "https") && url.value.host.Some?
  }

  predicate WaitsAtMost30Seconds(job: PrintJob) {
    job.waitMs.Some? ==> job.waitMs.value <= 30_000
  }

  /** The fields a job of each format must have, may have and must not have. */
  ghost predicate FieldsAreRight(lib: Library, job: PrintJob, maxFileSizeMb: nat) {
    match job.format
    case Raw =>
      && job.fileUrl.None? && job.paper.None? && job.copies.None? && job.html.None? && job.waitMs.None?
      && job.dataBase64.Some? && job.dataBase64.value != ""
      && lib.decodedLength(job.dataBase64.value).Some? && WithinLimit(lib.decodedLength(job.dataBase64.value).value, maxFileSizeMb)
    case RawHtml =>
      && job.fileUrl.None? && job.dataBase64.None? && HasText(job.html) && WaitsAtMost30Seconds(job)
      && WithinLimit(Text.Utf8Length(job.html.value), maxFileSizeMb)
    case Html =>
      && job.fileUrl.Some? && job.fileUrl.value != "" && IsPageAddress(lib, job.fileUrl.value)
      && job.html.None? && job.dataBase64.None? && WaitsAtMost30Seconds(job)
    case _ =>
      && job.fileUrl.Some? && job.fileUrl.value != ""
      && job.dataBase64.None? && job.html.None? && job.waitMs.None?
  }

  lemma TextIsNotBlank(s: string)
    ensures Text.IsBlank(s) <==> forall i :: 0 <= i < |s| ==> Text.IsWhitespace(s[i])
  {
    var a := Text.TrimStart(s, Text.IsWhitespace);
    Text.TrimStartResult(s, Text.IsWhitespace);
    Text.TrimEndResult(a, Text.IsWhitespace);
    if !Text.IsBlank(s) {
      assert s[|s| - |a|] == a[0];
    }
  }

  lemma LimitInBytes(length: nat, maxFileSizeMb: nat)
    ensures length <= MaxBytes(maxFileSizeMb) <==> WithinLimit(length, maxFileSizeMb)
  {
  }

  /** A job is accepted exactly when the fields of its format are right. */
  lemma AcceptedExactly(lib: Library, job: PrintJob, maxFileSizeMb: nat)
    ensures Acceptable(lib, job, maxFileSizeMb) <==> FieldsAreRight(lib, job, maxFileSizeMb)
  {
    if job.format.RawHtml? && job.html.Some? {
      TextIsNotBlank(job.html.value);
      LimitInBytes(Text.Utf8Length(job.html.value), maxFileSizeMb);
    }
    if job.format.Raw? && job.dataBase64.Some? && lib.decodedLength(job.dataBase64.value).Some? {
      LimitInBytes(lib.decodedLength(job.dataBase64.value).value, maxFileSizeMb);
    }
  }

  /** What each error says of its job. */
  ghost predicate ErrorHolds(lib: Library, job: PrintJob, maxFileSizeMb: nat, error: JobError) {
    var page, plain := job.format.Html? || job.format.RawHtml?, !job.format.Raw? && !job.format.Html? && !job.format.RawHtml?;
    match error
    case MissingRawData => job.format.Raw? && (job.dataBase64.None? || job.dataBase64.value == "")
    case RawFileUrlNotAllowed => job.format.Raw? && job.fileUrl.Some?
    case RawPaperNotAllowed => job.format.Raw? && job.paper.Some?
    case RawCopiesNotAllowed => job.format.Raw? && job.copies.Some?
    case MissingFileUrl => plain && (job.fileUrl.None? || job.fileUrl.value == "")
    case FileRawDataNotAllowed => plain && job.dataBase64.Some?
    case InvalidRawData => job.format.Raw? && job.dataBase64.Some? && lib.decodedLength(job.dataBase64.value).None?
    case FileTooLarge =>
      || (job.format.Raw? && job.dataBase64.Some? && lib.decodedLength(job.dataBase64.value).Some?
          && !WithinLimit(lib.decodedLength(job.dataBase64.value).value, maxFileSizeMb))
      || (job.format.RawHtml? && job.html.Some? && !WithinLimit(Text.Utf8Length(job.html.value), maxFileSizeMb))
    case MissingHtmlFileUrl => job.format.Html? && (job.fileUrl.None? || job.fileUrl.value == "")
    case InvalidHtmlFileUrl => job.format.Html? && job.fileUrl.Some? && !IsPageAddress(lib, job.fileUrl.value)
    case HtmlInlineNotAllowed => job.format.Html? && job.html.Some?
    case MissingRawHtml => job.format.RawHtml? && !HasText(job.html)
    case RawHtmlFileUrlNotAllowed => job.format.RawHtml? && job.fileUrl.Some?
    case HtmlDataBase64NotAllowed => page && job.dataBase64.Some?
    case NonHtmlHtmlNotAllowed => !page && job.html.Some?
    case NonHtmlWaitNotAllowed => !page && job.waitMs.Some?
    case HtmlWaitOutOfRange => page && job.waitMs.Some? && job.waitMs.value > 30_000
  }

  /** Whatever a job is refused for is true of it. */
  lemma RefusalsAreTrue(lib: Library, job: PrintJob, maxFileSizeMb: nat)
    requires !Acceptable(lib, job, maxFileSizeMb)
    ensures ErrorHolds(lib, job, maxFileSizeMb, ValidateForAcceptance(lib, job, maxFileSizeMb).value)
  {
    if job.format.RawHtml? && job.html.Some? { TextIsNotBlank(job.html.value); }
  }
}
