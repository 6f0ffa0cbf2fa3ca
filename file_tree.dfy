// A local directory tree and the traversal `os.walk(top)` performs when the
// caller prunes `dirs[:]` and filters `files` (top-down, files of a directory
// before the contents of its sub-directories, listing order kept).

module FileTree {
  import opened Text

  /** One directory entry: a file, or a directory with its own listing. */
  datatype Node = File(name: string, size: nat, mtime: int) | Dir(name: string, entries: seq<Node>)

  /** Entry names in a directory listing are non-empty and carry no separator. */
  predicate WellNamed(entries: seq<Node>)
    decreases entries
  {
    forall k :: 0 <= k < |entries| ==>
      entries[k].name != "" && '/' !in entries[k].name
      && (entries[k].Dir? ==> WellNamed(entries[k].entries))
  }

  /** The relative paths (as name sequences) of the files `os.walk` reports below a
      directory with the given listing, when sub-directories failing keepDir are
      pruned and files failing keepFile are skipped. */
  function Walk(entries: seq<Node>, keepDir: string -> bool, keepFile: string -> bool): seq<seq<string>>
    decreases entries, 1
  {
    FilesHere(entries, keepFile) + WalkDirs(entries, keepDir, keepFile)
  }

  /** The kept files directly in this directory, in listing order. */
  function FilesHere(entries: seq<Node>, keepFile: string -> bool): seq<seq<string>>
    decreases entries
  {
    if |entries| == 0 then []
    else
      var here := if entries[0].File? && keepFile(entries[0].name) then [[entries[0].name]] else [];
      here + FilesHere(entries[1..], keepFile)
  }

  /** The walks of the kept sub-directories, in listing order. */
  function WalkDirs(entries: seq<Node>, keepDir: string -> bool, keepFile: string -> bool): seq<seq<string>>
    decreases entries, 0
  {
    if |entries| == 0 then []
    else
      var here :=
        if entries[0].Dir? && keepDir(entries[0].name)
        then Under(entries[0].name, Walk(entries[0].entries, keepDir, keepFile))
        else [];
      here + WalkDirs(entries[1..], keepDir, keepFile)
  }

  /** Every path prefixed with one more directory name. */
  function Under(name: string, paths: seq<seq<string>>): (r: seq<seq<string>>)
    ensures |r| == |paths|
    ensures forall k :: 0 <= k < |r| ==> r[k] == [name] + paths[k]
  {
    if |paths| == 0 then [] else [[name] + paths[0]] + Under(name, paths[1..])
  }

  /** A walked path: a non-empty name sequence whose directories all passed keepDir
      and whose file passed keepFile. */
  predicate Admitted(p: seq<string>, keepDir: string -> bool, keepFile: string -> bool)
  {
    |p| >= 1 && keepFile(p[|p| - 1]) && forall i :: 0 <= i < |p| - 1 ==> keepDir(p[i])
  }

  /** No path reported by the walk goes through a pruned directory or ends in a
      skipped file. */
  lemma {:induction false} WalkAdmitted(entries: seq<Node>, keepDir: string -> bool, keepFile: string -> bool)
    ensures forall p :: p in Walk(entries, keepDir, keepFile) ==> Admitted(p, keepDir, keepFile)
    decreases entries, 1
  {
    FilesHereAdmitted(entries, keepDir, keepFile);
    WalkDirsAdmitted(entries, keepDir, keepFile);
  }

  lemma {:induction false} FilesHereAdmitted(entries: seq<Node>, keepDir: string -> bool, keepFile: string -> bool)
    ensures forall p :: p in FilesHere(entries, keepFile) ==> Admitted(p, keepDir, keepFile)
    decreases entries
  {
    if |entries| > 0 {
      FilesHereAdmitted(entries[1..], keepDir, keepFile);
    }
  }

  lemma {:induction false} WalkDirsAdmitted(entries: seq<Node>, keepDir: string -> bool, keepFile: string -> bool)
    ensures forall p :: p in WalkDirs(entries, keepDir, keepFile) ==> Admitted(p, keepDir, keepFile)
    decreases entries, 0
  {
    if |entries| > 0 {
      WalkDirsAdmitted(entries[1..], keepDir, keepFile);
      var e := entries[0];
      if e.Dir? && keepDir(e.name) {
        var inner := Walk(e.entries, keepDir, keepFile);
        WalkAdmitted(e.entries, keepDir, keepFile);
        forall p | p in Under(e.name, inner) ensures Admitted(p, keepDir, keepFile) {
          var k :| 0 <= k < |inner| && Under(e.name, inner)[k] == p;
          assert p == [e.name] + inner[k];
          assert Admitted(inner[k], keepDir, keepFile);
        }
      }
    }
  }

  /** Every walked name is the name of an entry of the tree, so it inherits the
      shape of listing names. */
  lemma {:induction false} WalkWellNamed(entries: seq<Node>, keepDir: string -> bool, keepFile: string -> bool)
    requires WellNamed(entries)
    ensures forall p, i :: p in Walk(entries, keepDir, keepFile) && 0 <= i < |p| ==> p[i] != "" && '/' !in p[i]
    decreases entries, 1
  {
    FilesHereWellNamed(entries, keepFile);
    WalkDirsWellNamed(entries, keepDir, keepFile);
  }

  lemma {:induction false} FilesHereWellNamed(entries: seq<Node>, keepFile: string -> bool)
    requires WellNamed(entries)
    ensures forall p, i :: p in FilesHere(entries, keepFile) && 0 <= i < |p| ==> p[i] != "" && '/' !in p[i]
    decreases entries
  {
    if |entries| > 0 {
      assert WellNamed(entries[1..]) by {
        forall k | 0 <= k < |entries[1..]| ensures entries[1..][k] == entries[k + 1] { }
      }
      FilesHereWellNamed(entries[1..], keepFile);
    }
  }

  lemma {:induction false} WalkDirsWellNamed(entries: seq<Node>, keepDir: string -> bool, keepFile: string -> bool)
    requires WellNamed(entries)
    ensures forall p, i :: p in WalkDirs(entries, keepDir, keepFile) && 0 <= i < |p| ==> p[i] != "" && '/' !in p[i]
    decreases entries, 0
  {
    if |entries| > 0 {
      assert WellNamed(entries[1..]) by {
        forall k | 0 <= k < |entries[1..]| ensures entries[1..][k] == entries[k + 1] { }
      }
      WalkDirsWellNamed(entries[1..], keepDir, keepFile);
      var e := entries[0];
      if e.Dir? && keepDir(e.name) {
        var inner := Walk(e.entries, keepDir, keepFile);
        WalkWellNamed(e.entries, keepDir, keepFile);
        forall p, i | p in Under(e.name, inner) && 0 <= i < |p| ensures p[i] != "" && '/' !in p[i] {
          var k :| 0 <= k < |inner| && Under(e.name, inner)[k] == p;
          assert p == [e.name] + inner[k];
          if i > 0 {
            assert p[i] == inner[k][i - 1];
          }
        }
      }
    }
  }

  /** The entry reached by following a name path from a listing, if any. */
  function Lookup(entries: seq<Node>, path: seq<string>): Option<Node>
    decreases path
  {
    if |path| == 0 then None
    else
      var i := FindEntry(entries, path[0]);
      if i == |entries| then None
      else if |path| == 1 then Some(entries[i])
      else if entries[i].Dir? then Lookup(entries[i].entries, path[1..])
      else None
  }

  /** Index of the first entry with the given name, or |entries|. */
  function FindEntry(entries: seq<Node>, name: string): (i: nat)
    ensures i <= |entries|
    ensures i < |entries| ==> entries[i].name == name
    ensures forall k :: 0 <= k < i ==> entries[k].name != name
  {
    if |entries| == 0 then 0
    else if entries[0].name == name then 0
    else 1 + FindEntry(entries[1..], name)
  }

  /** A relative path string from its name sequence, joined with the POSIX separator. */
  function RelPath(p: seq<string>): string
  {
    Join(p, "/")
  }
}
