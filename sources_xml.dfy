// Adding the "Doku-Kanal" file source to Kodi's sources.xml
// (resources/lib/sources_xml.py). The file is only ever extended: existing
// sources stay as they are, and a source of that name is never added twice.

module SourcesXml {
  import opened Text

  const SourceName := "Doku-Kanal"
  const SourceUrl := "https://github.com/benjarogit/Auto-FTP-Sync-Plus-2026/tree/main/repo/output"

  /** A `<path>` element: its `pathversion` attribute and its text. */
  datatype PathEl = PathEl(pathVersion: Option<string>, url: string)

  /** A `<source>` element, seen through its `<name>` child (none, or its
      text, an absent text read as "") and its `<path>` child. */
  datatype SourceEl = SourceEl(name: Option<string>, path: Option<PathEl>)

  /** The parsed sources.xml, seen through its first `<files>` child. */
  datatype Sources = Sources(files: Option<seq<SourceEl>>)

  /** What reading the file gave: the profile path could not be resolved,
      the read or the parse raised with the given text, or the document. */
  datatype Loaded = Unresolved | ReadFailed(err: string) | ParseFailed(err: string) | Parsed

  /** The source this module adds. */
  function DokuSource(): (r: SourceEl)
    ensures r.name == Some(SourceName)
  {
    SourceEl(Some(SourceName), Some(PathEl(Some("1"), SourceUrl)))
  }

  /** A source counts as Doku-Kanal when its trimmed name is exactly that. */
  predicate IsDoku(e: SourceEl)
  {
    e.name.Some? && Strip(e.name.value) == SourceName
  }

  predicate HasDoku(es: seq<SourceEl>)
  {
    exists k :: 0 <= k < |es| && IsDoku(es[k])
  }

  /** The function's answer and what the file holds afterwards. */
  datatype Outcome = Outcome(ok: bool, message: string, saved: Sources)

  /** `ensure_doku_kanal_source` on a file holding `doc`: the failure to
      write, if any, is given as its text. */
  function Ensured(load: Loaded, writeError: Option<string>, doc: Sources): (r: Outcome)
  {
    match load
    case Unresolved => Outcome(false, "special://profile not resolved", doc)
    case ReadFailed(e) => Outcome(false, e, doc)
    case ParseFailed(e) => Outcome(false, "Parse error: " + e, doc)
    case Parsed =>
      var es := if doc.files.Some? then doc.files.value else [];
      if HasDoku(es) then Outcome(true, "already present", doc)
      else if writeError.Some? then Outcome(false, writeError.value, doc)
      else Outcome(true, "added", Sources(Some(es + [DokuSource()])))
  }

  /** Every failure leaves the file as it was. */
  lemma FailureWritesNothing(load: Loaded, writeError: Option<string>, doc: Sources)
    ensures !Ensured(load, writeError, doc).ok ==> Ensured(load, writeError, doc).saved == doc
    ensures !load.Parsed? ==> !Ensured(load, writeError, doc).ok
  {
  }

  /** A document without `<files>` gets one, holding just the new source. */
  lemma MissingFilesCreated(doc: Sources)
    requires doc.files.None?
    ensures Ensured(Parsed, None, doc) == Outcome(true, "added", Sources(Some([DokuSource()])))
  {
    assert !HasDoku([]);
    assert [] + [DokuSource()] == [DokuSource()];
  }

  /** The new source is appended after the existing ones, which are kept,
      exactly when none of them is already Doku-Kanal. */
  lemma AddedAfterExisting(es: seq<SourceEl>)
    ensures !HasDoku(es) ==> Ensured(Parsed, None, Sources(Some(es))) == Outcome(true, "added", Sources(Some(es + [DokuSource()])))
    ensures HasDoku(es) ==> Ensured(Parsed, None, Sources(Some(es))) == Outcome(true, "already present", Sources(Some(es)))
  {
  }

  /** After a successful run the file holds a Doku-Kanal source. */
  lemma SuccessHasDoku(load: Loaded, writeError: Option<string>, doc: Sources)
    requires Ensured(load, writeError, doc).ok
    ensures var s := Ensured(load, writeError, doc).saved;
            s.files.Some? && HasDoku(s.files.value)
  {
    var es := if doc.files.Some? then doc.files.value else [];
    if !HasDoku(es) {
      var n := es + [DokuSource()];
      assert IsDoku(n[|es|]);
    }
  }

  /** A second run after a successful one finds the source and writes
      nothing, whatever the second write would do. */
  lemma {:induction false} Idempotent(writeError: Option<string>, writeError2: Option<string>, doc: Sources)
    requires Ensured(Parsed, writeError, doc).ok
    ensures var s := Ensured(Parsed, writeError, doc).saved;
            Ensured(Parsed, writeError2, s) == Outcome(true, "already present", s)
  {
    SuccessHasDoku(Parsed, writeError, doc);
  }

  /** The parsed document, changed in place before it is written back. */
  class Tree {
    var files: Option<seq<SourceEl>>

    constructor (doc: Sources)
      ensures files == doc.files
    {
      files := doc.files;
    }

    function Doc(): Sources
      reads this
    {
      Sources(files)
    }

    /** `root.find("files")`, with the `SubElement` that creates it when
        missing. */
    method FilesElement() returns (es: seq<SourceEl>)
      modifies this
      ensures files == Some(es)
      ensures es == (if old(files).Some? then old(files).value else [])
    {
      if files.None? {
        files := Some([]);
      }
      es := files.value;
    }

    /** Appends one `<source>` under `<files>`. */
    method AppendSource(e: SourceEl)
      requires files.Some?
      modifies this
      ensures files == Some(old(files).value + [e])
    {
      files := Some(files.value + [e]);
    }
  }

  /** The loop over `files.findall("source")`. */
  method FindDoku(es: seq<SourceEl>) returns (found: bool)
    ensures found <==> HasDoku(es)
  {
    var i := 0;
    while i < |es|
      invariant 0 <= i <= |es|
      invariant forall k :: 0 <= k < i ==> !IsDoku(es[k])
    {
      var name := es[i].name;
      if name.Some? && Strip(name.value) == SourceName {
        return true;
      }
      i := i + 1;
    }
    return false;
  }

  /** The file sources.xml; what a successful write leaves in it is read
      back as the same document. */
  class SourcesFile {
    var saved: Sources

    constructor (doc: Sources)
      ensures saved == doc
    {
      saved := doc;
    }
  }

  /** `ensure_doku_kanal_source`. */
  method EnsureDokuKanalSource(load: Loaded, writeError: Option<string>, file: SourcesFile)
    returns (ok: bool, message: string)
    modifies file
    ensures Outcome(ok, message, file.saved) == Ensured(load, writeError, old(file.saved))
  {
    match load {
      case Unresolved => return false, "special://profile not resolved";
      case ReadFailed(e) => return false, e;
      case ParseFailed(e) => return false, "Parse error: " + e;
      case Parsed =>
    }
    var tree := new Tree(file.saved);
    var es := tree.FilesElement();
    var found := FindDoku(es);
    if found {
      return true, "already present";
    }
    tree.AppendSource(DokuSource());
    if writeError.Some? {
      return false, writeError.value;
    }
    file.saved := tree.Doc();
    return true, "added";
  }
}
