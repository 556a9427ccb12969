/** Converting an Office document in a work directory of its own. */
module Office {
  import opened Outcomes
  import opened Disk

  datatype OfficeError = IoFailed | ConverterFailed(message: string) | InvalidPdf(converter: string)

  /** What the disk and the converter do: the converter may litter its work directory, whatever it reports. */
  datatype Script = Script(
    staleDirectoryGone: bool,
    staleOutputGone: bool,
    directoryCreated: bool,
    staged: Write,
    converter: Result<string, string>,
    litter: set<string>,
    output: Option<nat>,
    headerIsPdf: bool)

  const MIN_PDF_BYTES: nat := 6

  /** The converter that produced a valid PDF, or why there is none. */
  function ConversionResult(s: Script): Result<string, OfficeError> {
    if !s.staleDirectoryGone || !s.staleOutputGone || !s.directoryCreated || !s.staged.Wrote? then Err(IoFailed)
    else if s.converter.Err? then Err(ConverterFailed(s.converter.error))
    else if s.output.None? || s.output.value < MIN_PDF_BYTES || !s.headerIsPdf then Err(InvalidPdf(s.converter.value))
    else Ok(s.converter.value)
  }

  /** Everything was prepared, the converter reported success, and left six bytes or more that begin as a PDF does. */
  predicate HasValidPdf(s: Script) {
    && s.staleDirectoryGone && s.staleOutputGone && s.directoryCreated && s.staged.Wrote?
    && s.converter.Ok? && s.output.Some? && s.output.value >= 6 && s.headerIsPdf
  }

  /** A conversion succeeds exactly with a valid PDF, and names the converter that left it. */
  lemma ConvertedMeansValidPdf(s: Script)
    ensures ConversionResult(s).Ok? <==> HasValidPdf(s)
    ensures HasValidPdf(s) ==> ConversionResult(s) == Ok(s.converter.value)
    ensures ConversionResult(s) == Err(IoFailed) <==>
      !(s.staleDirectoryGone && s.staleOutputGone && s.directoryCreated && s.staged.Wrote?)
    ensures ConversionResult(s).Err? && ConversionResult(s).error.ConverterFailed? ==>
      s.converter == Err(ConversionResult(s).error.message)
    ensures ConversionResult(s).Err? && ConversionResult(s).error.InvalidPdf? ==>
      s.converter == Ok(ConversionResult(s).error.converter)
  {
  }

  /** Leaves the PDF on success and nothing at all on failure. */
  method OfficeToPdf(folder: Folder, input: Path, output: Path, s: Script) returns (r: Result<string, OfficeError>)
    requires input.Named? && output.Named?
    requires output !in folder.files && output != WithExtension(input, "office-work")
    requires forall p :: p in folder.files ==> !Below(p, WithExtension(input, "office-work"))
    modifies folder
    ensures r == ConversionResult(s)
    ensures r.Ok? <==> HasValidPdf(s)
    ensures r.Ok? ==> s.output.Some? && folder.files == old(folder.files)[output := s.output.value]
    ensures r.Err? ==> folder.files == old(folder.files)
  {
    ghost var before := folder.files;
    var workDir := WithExtension(input, "office-work");
    if !s.staleDirectoryGone {
      return Err(IoFailed);
    }
    folder.RemoveTree(workDir);
    if !s.staleOutputGone {
      return Err(IoFailed);
    }
    folder.Remove(output);
    assert folder.files == before;
    var created := folder.Store(workDir, if s.directoryCreated then Wrote(0) else NotWritten(None));
    if !created {
      return Err(IoFailed);
    }
    var staged := folder.Store(Inside(workDir, "staged"), s.staged);
    if !staged {
      folder.RemoveTree(workDir);
      OnlyWorkFilesAdded(before, folder.files, workDir);
      return Err(IoFailed);
    }
    r := Convert(folder, workDir, output, s, before);
  }

  /** Runs the converter on the staged input, then clears the work directory and a useless output. */
  method Convert(folder: Folder, workDir: Path, output: Path, s: Script, ghost before: Files) returns (r: Result<string, OfficeError>)
    requires workDir.Named? && output.Named? && output != workDir && output !in before
    requires forall p :: p in before ==> !Below(p, workDir)
    requires forall p :: !Below(p, workDir) ==> (p in folder.files <==> p in before) && (p in before ==> folder.files[p] == before[p])
    requires s.staleDirectoryGone && s.staleOutputGone && s.directoryCreated && s.staged.Wrote?
    modifies folder
    ensures r == ConversionResult(s)
    ensures r.Ok? ==> s.output.Some? && folder.files == before[output := s.output.value]
    ensures r.Err? ==> folder.files == before
  {
    var left := folder.files + map name | name in s.litter :: Inside(workDir, name) := 1;
    folder.files := if s.output.Some? then left[output := s.output.value] else left;
    assert forall p :: !Below(p, workDir) && p != output ==> (p in folder.files <==> p in before) && (p in before ==> folder.files[p] == before[p]);
    var converted :=
      if s.converter.Err? then Err(ConverterFailed(s.converter.error))
      else if s.output.None? || s.output.value < MIN_PDF_BYTES || !s.headerIsPdf then Err(InvalidPdf(s.converter.value))
      else Ok(s.converter.value);
    folder.RemoveTree(workDir);
    match converted
    case Ok(name) =>
      r := Ok(name);
    case Err(error) =>
      folder.Remove(output);
      r := Err(error);
      assert folder.files == before;
  }

  lemma OnlyWorkFilesAdded(before: Files, after: Files, workDir: Path)
    requires forall p :: p in before ==> !Below(p, workDir)
    requires forall p :: p in after ==> !Below(p, workDir)
    requires forall p :: !Below(p, workDir) ==> (p in after <==> p in before) && (p in before ==> after[p] == before[p])
    ensures after == before
  {
  }
}
