/** Fetching a job's file into a temporary file, within the size limit. */
module Download {
  import opened Outcomes
  import opened Protocol
  import opened Disk
  import Text

  datatype DownloadError = InvalidFileUrl | FileTooLarge | IoFailed | RequestFailed

  /** One piece of a response body, and whether it could be stored. */
  datatype Chunk = Data(size: nat, stored: bool) | Broken

  /** What the server and the disk do during one download. */
  datatype Response =
    | NoAnswer
    | ErrorStatus
    | Body(contentLength: Option<nat>, created: bool, chunks: seq<Chunk>, flushed: bool)

  /** Splits at the first comma. */
  function SplitComma(s: string): Option<(string, string)> {
    var parts := Text.Split(s, ',');
    if |parts| == 1 then None else Some((parts[0], Text.Join(parts[1..], ',')))
  }

  /** A base64 PDF data URL: the scheme, a PDF media type, a base64 marker and non-empty data. */
  predicate IsPdfDataUrl(value: string) {
    && "data:" <= value
    && var split := SplitComma(value[5..]);
       && split.Some? && split.value.1 != ""
       && var parts := Text.Split(split.value.0, ';');
          && Text.ToAsciiLower(parts[0]) == "application/pdf"
          && exists i :: 1 <= i < |parts| && Text.ToAsciiLower(parts[i]) == "base64"
  }

  predicate ValidFileUrl(lib: Library, value: string) {
    var url := lib.parseUrl(value);
    url.Some? && (IsWebScheme(url.value.scheme) || (url.value.scheme == "data" && IsPdfDataUrl(value)))
  }

  /** Bytes received in the first `n` chunks. */
  function Total(chunks: seq<Chunk>, n: nat): nat
    requires n <= |chunks|
  {
    if n == 0 then 0 else Total(chunks, n - 1) + if chunks[n - 1].Data? then chunks[n - 1].size else 0
  }

  /** The 64-bit counter saturates. */
  function Saturated(n: nat): nat {
    if n > U64_MAX then U64_MAX else n
  }

  /** The first problem among the first `n` chunks: a broken transfer, too many bytes, a failing write. */
  function StreamError(chunks: seq<Chunk>, maxBytes: nat, n: nat): Option<DownloadError>
    requires n <= |chunks|
  {
    if n == 0 then None
    else if StreamError(chunks, maxBytes, n - 1).Some? then StreamError(chunks, maxBytes, n - 1)
    else
      match chunks[n - 1]
      case Broken => Some(RequestFailed)
      case Data(_, stored) =>
        if Saturated(Total(chunks, n)) > maxBytes then Some(DownloadError.FileTooLarge) else if stored then None else Some(IoFailed)
  }

  /** The size of the stored file, or why there is none. */
  function HttpResult(lib: Library, fileUrl: string, maxBytes: nat, response: Response): Result<nat, DownloadError> {
    if !ValidFileUrl(lib, fileUrl) then Err(InvalidFileUrl)
    else
      match response
      case NoAnswer => Err(RequestFailed)
      case ErrorStatus => Err(RequestFailed)
      case Body(length, created, chunks, flushed) =>
        if length.Some? && length.value > maxBytes then Err(DownloadError.FileTooLarge)
        else if !created then Err(IoFailed)
        else if StreamError(chunks, maxBytes, |chunks|).Some? then Err(StreamError(chunks, maxBytes, |chunks|).value)
        else if !flushed then Err(IoFailed)
        else Ok(Total(chunks, |chunks|))
  }

  function DataUrlResult(lib: Library, fileUrl: string, maxBytes: nat, written: bool): Result<nat, DownloadError> {
    var size := if SplitComma(fileUrl).Some? then lib.decodedLength(SplitComma(fileUrl).value.1) else None;
    if !ValidFileUrl(lib, fileUrl) || size.None? then Err(InvalidFileUrl)
    else if size.value > maxBytes then Err(DownloadError.FileTooLarge)
    else if !written then Err(IoFailed)
    else Ok(size.value)
  }

  function DownloadResult(lib: Library, fileUrl: string, maxBytes: nat, response: Response, write: Write): Result<nat, DownloadError> {
    if IsPdfDataUrl(fileUrl) then DataUrlResult(lib, fileUrl, maxBytes, write.Wrote?)
    else HttpResult(lib, fileUrl, maxBytes, response)
  }

  /** Receives the body piece by piece into the created file; the first problem removes the file. */
  method ReceiveChunks(folder: Folder, chunks: seq<Chunk>, maxBytes: nat, path: Path, ghost before: Files) returns (error: Option<DownloadError>)
    requires path !in before && folder.files == before[path := 0]
    modifies folder
    ensures error == StreamError(chunks, maxBytes, |chunks|)
    ensures folder.files == if error.None? then before[path := Total(chunks, |chunks|)] else before
  {
    var downloaded, n := 0, 0;
    while n < |chunks|
      invariant 0 <= n <= |chunks|
      invariant downloaded == Saturated(Total(chunks, n))
      invariant StreamError(chunks, maxBytes, n).None?
      invariant folder.files == before[path := Total(chunks, n)]
    {
      var chunk := chunks[n];
      if chunk.Broken? {
        FirstProblemStays(chunks, maxBytes, n + 1);
        var failed := CleanupDownload(folder, path, RequestFailed, before);
        return Some(failed.error);
      }
      downloaded := Saturated(downloaded + chunk.size);
      if downloaded > maxBytes {
        FirstProblemStays(chunks, maxBytes, n + 1);
        var failed := CleanupDownload(folder, path, DownloadError.FileTooLarge, before);
        return Some(failed.error);
      }
      if !chunk.stored {
        FirstProblemStays(chunks, maxBytes, n + 1);
        var failed := CleanupDownload(folder, path, IoFailed, before);
        return Some(failed.error);
      }
      var _ := folder.Store(path, Wrote(folder.files[path] + chunk.size));
      n := n + 1;
    }
    return None;
  }

  /** Leaves exactly the downloaded file, or nothing: no error keeps a partial file. */
  method DownloadToPath(lib: Library, folder: Folder, fileUrl: string, maxFileSizeMb: nat, path: Path, response: Response, write: Write)
    returns (r: Result<Path, DownloadError>)
    requires path !in folder.files
    modifies folder
    ensures var expected := DownloadResult(lib, fileUrl, MaxBytes(maxFileSizeMb), response, write);
            && (expected.Ok? ==> r == Ok(path) && folder.files == old(folder.files)[path := expected.value])
            && (expected.Err? ==> r == Err(expected.error) && folder.files == old(folder.files))
  {
    if IsPdfDataUrl(fileUrl) {
      r := WritePdfDataUrlToPath(lib, folder, fileUrl, maxFileSizeMb, path, write);
      return;
    }
    if !ValidFileUrl(lib, fileUrl) {
      return Err(InvalidFileUrl);
    }
    var maxBytes := MaxBytes(maxFileSizeMb);
    if !response.Body? {
      return Err(RequestFailed);
    }
    if response.contentLength.Some? && response.contentLength.value > maxBytes {
      return Err(DownloadError.FileTooLarge);
    }
    if !response.created {
      return Err(IoFailed);
    }
    ghost var before := folder.files;
    var _ := folder.Store(path, Wrote(0));
    var error := ReceiveChunks(folder, response.chunks, maxBytes, path, before);
    if error.Some? {
      return Err(error.value);
    }
    if !response.flushed {
      r := CleanupDownload(folder, path, IoFailed, before);
      return;
    }
    return Ok(path);
  }

  lemma {:induction false} FirstProblemStays(chunks: seq<Chunk>, maxBytes: nat, n: nat)
    requires n <= |chunks| && StreamError(chunks, maxBytes, n).Some?
    ensures StreamError(chunks, maxBytes, |chunks|) == StreamError(chunks, maxBytes, n)
    decreases |chunks| - n
  {
    if n < |chunks| { FirstProblemStays(chunks, maxBytes, n + 1); }
  }

  method WritePdfDataUrlToPath(lib: Library, folder: Folder, fileUrl: string, maxFileSizeMb: nat, path: Path, write: Write)
    returns (r: Result<Path, DownloadError>)
    requires path !in folder.files
    modifies folder
    ensures var expected := DataUrlResult(lib, fileUrl, MaxBytes(maxFileSizeMb), write.Wrote?);
            && (expected.Ok? ==> r == Ok(path) && folder.files == old(folder.files)[path := expected.value])
            && (expected.Err? ==> r == Err(expected.error) && folder.files == old(folder.files))
  {
    if !ValidFileUrl(lib, fileUrl) {
      return Err(InvalidFileUrl);
    }
    var split := SplitComma(fileUrl);
    if split.None? {
      return Err(InvalidFileUrl);
    }
    var size := lib.decodedLength(split.value.1);
    if size.None? {
      return Err(InvalidFileUrl);
    }
    if size.value > MaxBytes(maxFileSizeMb) {
      return Err(DownloadError.FileTooLarge);
    }
    ghost var before := folder.files;
    var stored := folder.Store(path, if write.Wrote? then Wrote(size.value) else write);
    if !stored {
      r := CleanupDownload(folder, path, IoFailed, before);
      return;
    }
    return Ok(path);
  }

  /** Deletes what was stored of the file and passes the error on. */
  method CleanupDownload(folder: Folder, path: Path, error: DownloadError, ghost before: Files) returns (r: Result<Path, DownloadError>)
    requires path !in before && folder.files - {path} == before - {path}
    modifies folder
    ensures r == Err(error) && folder.files == before
  {
    folder.Remove(path);
    assert before - {path} == before;
    return Err(error);
  }

  /** A download that succeeds is complete and within the limit (as the saturating counter sees it). */
  lemma DownloadedFileFits(lib: Library, fileUrl: string, maxBytes: nat, response: Response, write: Write)
    requires DownloadResult(lib, fileUrl, maxBytes, response, write).Ok?
    ensures Saturated(DownloadResult(lib, fileUrl, maxBytes, response, write).value) <= maxBytes
    ensures !IsPdfDataUrl(fileUrl) ==>
      response.Body? && forall i :: 0 <= i < |response.chunks| ==> response.chunks[i].Data? && response.chunks[i].stored
  {
    if !IsPdfDataUrl(fileUrl) {
      NoProblemMeansAllStored(response.chunks, maxBytes, |response.chunks|);
    }
  }

  lemma {:induction false} NoProblemMeansAllStored(chunks: seq<Chunk>, maxBytes: nat, n: nat)
    requires n <= |chunks| && StreamError(chunks, maxBytes, n).None?
    ensures Saturated(Total(chunks, n)) <= maxBytes
    ensures forall i :: 0 <= i < n ==> chunks[i].Data? && chunks[i].stored
  {
    if n > 0 { NoProblemMeansAllStored(chunks, maxBytes, n - 1); }
  }

  // -------------------------------------------------------------------------
  // What a download needs to succeed
  // -------------------------------------------------------------------------

  /** `data:`, a media type with its parameters between semicolons, a comma, and data. */
  ghost predicate IsDataUrlOf(value: string, parts: seq<string>, data: string) {
    && parts != [] && (forall p :: p in parts ==> ';' !in p && ',' !in p)
    && value == "data:" + (Text.Join(parts, ';') + "," + data)
  }

  /** The media type is PDF, a later parameter is `base64`, both in any ASCII case, and there is data. */
  predicate IsBase64Pdf(parts: seq<string>, data: string) {
    && parts != [] && Text.ToAsciiLower(parts[0]) == "application/pdf" && data != ""
    && exists i :: 1 <= i < |parts| && Text.ToAsciiLower(parts[i]) == "base64"
  }

  /** The first comma ends what has no comma itself. */
  lemma FirstComma(head: string, data: string)
    requires ',' !in head
    ensures SplitComma(head + "," + data) == Some((head, data))
  {
    Text.SplitConcat(head, data, ',');
    Text.SplitWhole(head, ',');
    Text.JoinOfSplit(data, ',');
    assert ([head] + Text.Split(data, ','))[1..] == Text.Split(data, ',');
  }

  lemma CommaSplits(value: string)
    requires SplitComma(value).Some?
    ensures var (head, data) := SplitComma(value).value; value == head + "," + data && ',' !in head
  {
    var parts := Text.Split(value, ',');
    Text.JoinOfSplit(value, ',');
    Text.SplitPieces(value, ',');
    assert parts[0] in parts;
  }

  lemma {:induction false} JoinHasNo(parts: seq<string>, sep: char, c: char)
    requires c != sep && forall p :: p in parts ==> c !in p
    ensures c !in Text.Join(parts, sep)
  {
    if |parts| > 1 {
      JoinHasNo(parts[1..], sep, c);
      assert parts[0] in parts;
    } else if |parts| == 1 {
      assert parts[0] in parts;
    }
  }

  /** The PDF data URLs, in both directions: which texts are one, and what they are made of. */
  lemma PdfDataUrlForward(value: string) returns (parts: seq<string>, data: string)
    requires IsPdfDataUrl(value)
    ensures IsDataUrlOf(value, parts, data) && IsBase64Pdf(parts, data)
  {
    var rest := value[5..];
    CommaSplits(rest);
    var head := SplitComma(rest).value.0;
    parts, data := Text.Split(head, ';'), SplitComma(rest).value.1;
    Text.JoinOfSplit(head, ';');
    Text.SplitPieces(head, ';');
    assert value == "data:" + rest;
  }

  lemma PdfDataUrlBackward(value: string, parts: seq<string>, data: string)
    requires IsDataUrlOf(value, parts, data) && IsBase64Pdf(parts, data)
    ensures IsPdfDataUrl(value)
  {
    var head := Text.Join(parts, ';');
    JoinHasNo(parts, ';', ',');
    FirstComma(head, data);
    Text.SplitOfJoin(parts, ';');
    assert value[5..] == head + "," + data;
  }

  lemma DataBehindComma(value: string, parts: seq<string>, data: string)
    requires IsDataUrlOf(value, parts, data)
    ensures SplitComma(value) == Some(("data:" + Text.Join(parts, ';'), data))
  {
    var head := Text.Join(parts, ';');
    JoinHasNo(parts, ';', ',');
    assert ',' !in "data:" + head;
    FirstComma("data:" + head, data);
    assert value == ("data:" + head) + "," + data;
  }

  /** A body that is received, stored and flushed to its end within the limit. */
  ghost predicate ReceivesAll(response: Response, maxBytes: nat, size: nat) {
    && response.Body? && response.created && response.flushed
    && (response.contentLength.Some? ==> response.contentLength.value <= maxBytes)
    && (forall i :: 0 <= i < |response.chunks| ==> response.chunks[i].Data? && response.chunks[i].stored)
    && size == Total(response.chunks, |response.chunks|)
    && (if size > 0xFFFF_FFFF_FFFF_FFFF then 0xFFFF_FFFF_FFFF_FFFF else size) <= maxBytes
  }

  lemma {:induction false} AllStoredMeansNoProblem(chunks: seq<Chunk>, maxBytes: nat, n: nat)
    requires n <= |chunks| && (forall i :: 0 <= i < n ==> chunks[i].Data? && chunks[i].stored)
    requires n > 0 ==> Saturated(Total(chunks, n)) <= maxBytes
    ensures StreamError(chunks, maxBytes, n).None?
  {
    if n > 0 { AllStoredMeansNoProblem(chunks, maxBytes, n - 1); }
  }

  /** A web download succeeds exactly when its whole body arrives. */
  lemma WebDownloadExactly(lib: Library, fileUrl: string, maxBytes: nat, response: Response, write: Write, size: nat)
    requires !IsPdfDataUrl(fileUrl)
    ensures DownloadResult(lib, fileUrl, maxBytes, response, write) == Ok(size)
      <==> lib.parseUrl(fileUrl).Some? && lib.parseUrl(fileUrl).value.scheme in {"http", "https"} && ReceivesAll(response, maxBytes, size)
  {
    if response.Body? {
      var chunks := response.chunks;
      if StreamError(chunks, maxBytes, |chunks|).None? {
        NoProblemMeansAllStored(chunks, maxBytes, |chunks|);
      } else if ReceivesAll(response, maxBytes, size) {
        AllStoredMeansNoProblem(chunks, maxBytes, |chunks|);
      }
    }
  }

  /** A PDF data URL is stored exactly when it parses and its data decode to no more than the limit. */
  lemma DataUrlDownloadExactly(lib: Library, fileUrl: string, parts: seq<string>, data: string, maxBytes: nat,
                               response: Response, write: Write, size: nat)
    requires IsDataUrlOf(fileUrl, parts, data) && IsBase64Pdf(parts, data)
    ensures DownloadResult(lib, fileUrl, maxBytes, response, write) == Ok(size)
      <==> lib.parseUrl(fileUrl).Some? && lib.parseUrl(fileUrl).value.scheme in {"http", "https", "data"}
           && lib.decodedLength(data) == Some(size) && size <= maxBytes && write.Wrote?
  {
    PdfDataUrlBackward(fileUrl, parts, data);
    DataBehindComma(fileUrl, parts, data);
  }

  /** The data of the URL decode to so many bytes, or to none at all. */
  ghost predicate DataDecodeTo(lib: Library, fileUrl: string, size: Option<nat>) {
    exists parts, data :: IsDataUrlOf(fileUrl, parts, data) && lib.decodedLength(data) == size
  }

  /** What each error says of the server and the disk. */
  ghost predicate ErrorHolds(lib: Library, fileUrl: string, maxBytes: nat, response: Response, write: Write, error: DownloadError) {
    match error
    case InvalidFileUrl => !ValidFileUrl(lib, fileUrl) || (IsPdfDataUrl(fileUrl) && DataDecodeTo(lib, fileUrl, None))
    case FileTooLarge =>
      if IsPdfDataUrl(fileUrl) then
        exists size :: size > maxBytes && DataDecodeTo(lib, fileUrl, Some(size))
      else
        && response.Body?
        && ((response.contentLength.Some? && response.contentLength.value > maxBytes) || Total(response.chunks, |response.chunks|) > maxBytes)
    case IoFailed =>
      if IsPdfDataUrl(fileUrl) then write.NotWritten?
      else
        && response.Body?
        && (!response.created || !response.flushed || exists i :: 0 <= i < |response.chunks| && response.chunks[i].Data? && !response.chunks[i].stored)
    case RequestFailed =>
      !IsPdfDataUrl(fileUrl) && (!response.Body? || exists i :: 0 <= i < |response.chunks| && response.chunks[i].Broken?)
  }

  lemma {:induction false} TotalGrows(chunks: seq<Chunk>, n: nat, m: nat)
    requires n <= m <= |chunks|
    ensures Total(chunks, n) <= Total(chunks, m)
    decreases m
  {
    if n < m { TotalGrows(chunks, n, m - 1); }
  }

  lemma {:induction false} StreamErrorsAreTrue(chunks: seq<Chunk>, maxBytes: nat, n: nat)
    requires n <= |chunks| && StreamError(chunks, maxBytes, n).Some?
    ensures match StreamError(chunks, maxBytes, n).value
            case InvalidFileUrl => false
            case FileTooLarge => Total(chunks, |chunks|) > maxBytes
            case IoFailed => exists i :: 0 <= i < |chunks| && chunks[i].Data? && !chunks[i].stored
            case RequestFailed => exists i :: 0 <= i < |chunks| && chunks[i].Broken?
  {
    if StreamError(chunks, maxBytes, n - 1).Some? {
      StreamErrorsAreTrue(chunks, maxBytes, n - 1);
    } else {
      TotalGrows(chunks, n, |chunks|);
      assert chunks[n - 1].Broken? || chunks[n - 1].Data?;
    }
  }

  /** Whatever a download fails with is true of what it met. */
  lemma DownloadErrorsAreTrue(lib: Library, fileUrl: string, maxBytes: nat, response: Response, write: Write)
    requires DownloadResult(lib, fileUrl, maxBytes, response, write).Err?
    ensures ErrorHolds(lib, fileUrl, maxBytes, response, write, DownloadResult(lib, fileUrl, maxBytes, response, write).error)
  {
    if IsPdfDataUrl(fileUrl) {
      var parts, data := PdfDataUrlForward(fileUrl);
      DataBehindComma(fileUrl, parts, data);
      assert DataDecodeTo(lib, fileUrl, lib.decodedLength(data));
    } else if response.Body? && StreamError(response.chunks, maxBytes, |response.chunks|).Some? {
      StreamErrorsAreTrue(response.chunks, maxBytes, |response.chunks|);
    }
  }
}
