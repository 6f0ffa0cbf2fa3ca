// The state the add-ons read and write: files on the local disk, and the
// directory tree and files of a remote server.  File contents are kept at the
// level the code inspects them: a favourites document as its element tree, an
// add-on data archive as its entries, anything else as opaque text.

module Storage {
  import opened Text

  /** A direct child of the document root: its tag and its text (None when the
      element has no text before its first child). */
  datatype Element = Element(tag: string, text: Option<string>)

  /** A parsed XML document reduced to the root tag and the root's children. */
  datatype XmlDoc = XmlDoc(rootTag: string, children: seq<Element>)

  /** What a file holds. */
  datatype Blob =
    | Xml(doc: XmlDoc)              // a well-formed XML document
    | Malformed                     // text that the XML parser rejects
    | Archive(entries: map<string, string>)   // a zip of add-on data: entry name to content
    | Opaque(data: string)          // any other content

  /** Local files, by path. */
  class Disk {
    var files: map<string, Blob>
    var dirs: set<string>

    constructor (files0: map<string, Blob>, dirs0: set<string>)
      ensures files == files0 && dirs == dirs0
    {
      files := files0;
      dirs := dirs0;
    }
  }

  /** A remote directory path, as the sequence of its non-empty segments. */
  type RPath = seq<string>

  /** The root is a directory and every directory's parent is one. */
  ghost predicate DirsClosed(dirs: set<RPath>)
  {
    [] in dirs && forall d :: d in dirs && d != [] ==> d[..|d| - 1] in dirs
  }

  /** Adding a directory whose parent exists keeps the tree closed. */
  lemma AddChildKeepsClosed(dirs: set<RPath>, d: RPath)
    requires DirsClosed(dirs) && d != [] && d[..|d| - 1] in dirs
    ensures DirsClosed(dirs + {d})
  {
  }

  /** A server's directories and files, and whether it can be reached at all. */
  datatype Server = Server(dirs: set<RPath>, files: map<RPath, Blob>, online: bool)

  /** The server behind a backend, as the state the add-ons change. */
  class Remote {
    var dirs: set<RPath>
    var files: map<RPath, Blob>
    var online: bool

    function State(): Server
      reads this
    {
      Server(dirs, files, online)
    }

    /** The root always exists and every directory's parent exists. */
    ghost predicate Valid()
      reads this
    {
      DirsClosed(dirs)
    }

    constructor (dirs0: set<RPath>, files0: map<RPath, Blob>, online0: bool)
      requires DirsClosed(dirs0)
      ensures Valid()
      ensures dirs == dirs0 && files == files0 && online == online0
    {
      dirs := dirs0;
      files := files0;
      online := online0;
    }
  }
}
