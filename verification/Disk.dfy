/** Temporary files and directories, with their sizes. Removals succeed; writes and copies may fail half-way. */
module Disk {
  import opened Outcomes

  datatype Path =
    | Named(stem: string, extension: string)
    | Inside(directory: Path, name: string)

  /** `Path::with_extension`. */
  function WithExtension(p: Path, extension: string): Path
    requires p.Named?
  {
    p.(extension := extension)
  }

  type Files = map<Path, nat>

  /** No file or directory uses the stem: what a UUID in the name gives. */
  ghost predicate UnusedStem(files: Files, stem: string) {
    forall p :: p in files ==> Root(p).stem != stem
  }

  /** The top-level name a path lies under. */
  function Root(p: Path): (r: Path)
    ensures r.Named?
  {
    match p
    case Named(_, _) => p
    case Inside(directory, _) => Root(directory)
  }

  /** How a write or copy of a whole file ends; a failed one may leave part of the file behind. */
  datatype Write = Wrote(size: nat) | NotWritten(leftover: Option<nat>)

  function AfterWrite(files: Files, p: Path, w: Write): Files {
    match w
    case Wrote(size) => files[p := size]
    case NotWritten(Some(size)) => files[p := size]
    case NotWritten(None) => files
  }

  class Folder {
    var files: Files

    constructor ()
      ensures files == map[]
    {
      files := map[];
    }

    method Store(p: Path, w: Write) returns (ok: bool)
      modifies this
      ensures ok == w.Wrote? && files == AfterWrite(old(files), p, w)
    {
      if w.Wrote? {
        files := files[p := w.size];
      } else if w.leftover.Some? {
        files := files[p := w.leftover.value];
      }
      ok := w.Wrote?;
    }

    method Remove(p: Path)
      modifies this
      ensures files == old(files) - {p}
    {
      files := files - {p};
    }

    /** Removes a directory and everything below it. */
    method RemoveTree(directory: Path)
      modifies this
      ensures files == map p | p in old(files) && !Below(p, directory) :: old(files)[p]
    {
      files := map p | p in files && !Below(p, directory) :: files[p];
    }
  }

  predicate Below(p: Path, directory: Path) {
    p == directory || (p.Inside? && Below(p.directory, directory))
  }

  lemma {:induction false} BelowSameRoot(p: Path, directory: Path)
    requires Below(p, directory)
    ensures Root(p) == Root(directory)
  {
    if p != directory { BelowSameRoot(p.directory, directory); }
  }

  /** Removing a tree of an unused stem removes nothing else. */
  lemma UnusedTree(files: Files, directory: Path)
    requires UnusedStem(files, Root(directory).stem)
    ensures forall p :: p in files ==> !Below(p, directory)
  {
    forall p | p in files ensures !Below(p, directory) {
      if Below(p, directory) { BelowSameRoot(p, directory); }
    }
  }
}
