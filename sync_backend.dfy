// The three transports of the sync add-on (FTP, SFTP and SMB): how a remote path
// given by the caller becomes a server path or a URL, the factory that picks a
// transport from the connection type, and the operations every transport offers
// (upload, download, folder_exists, ensure_folder, listdir) acting on a
// Storage.Remote server and a Storage.Disk.
//
// The server is addressed by directory paths as sequences of non-empty segments:
// "/a//b/" and "a/b" name the same directory, as FTP servers and the Kodi virtual
// file system treat them.

module SyncBackend {
  import opened Text
  import opened Storage
  import Percent
  import PosixPath

  // ---------------------------------------------------------------- FTP paths

  /** `_norm_ftp_path`: backslashes folded, and a leading '/' added when missing;
      nothing else of the path changes. */
  function NormFtpPath(path: string): (r: string)
    ensures StartsWith(r, "/") && '\\' !in r
    ensures EndsWith(r, FoldSlashes(path)) && |r| <= |path| + 1
  {
    var p := FoldSlashes(path);
    if StartsWith(p, "/") then p else "/" + p
  }

  lemma NormFtpPathIdempotent(path: string)
    ensures NormFtpPath(NormFtpPath(path)) == NormFtpPath(path)
  {
    FoldSlashesNoop(NormFtpPath(path));
  }

  /** `FTPBackend.__init__`: the base path with trailing slashes removed, normalised. */
  function FtpBasePath(basePath: string): (r: string)
    ensures StartsWith(r, "/")
  {
    NormFtpPath(RStripChar(basePath, '/'))
  }

  /** `FTPBackend._remote`: an absolute path is used as it is, a relative one is
      placed under the base path. */
  function FtpRemote(base: string, path: string): (r: string)
    requires StartsWith(base, "/")
    ensures StartsWith(r, "/")
    ensures StartsWith(FoldSlashes(path), "/") ==> r == FoldSlashes(path)
    ensures !StartsWith(FoldSlashes(path), "/") ==> r == base + "/" + FoldSlashes(path)
  {
    var p := FoldSlashes(path);
    if StartsWith(p, "/") then p else base + "/" + LStripChar(p, '/')
  }

  /** An empty base path becomes the root, so a relative path maps to "//x". */
  lemma EmptyBaseDoubleSlash()
    ensures FtpBasePath("") == "/"
    ensures FtpRemote(FtpBasePath(""), "x") == "//x"
  {
    assert FoldSlashes("") == "";
    assert FoldSlashes("x") == "x";
    assert RStripChar("", '/') == "";
    assert !StartsWith("x", "/") && LStripChar("x", '/') == "x";
  }

  // ------------------------------------------------------------ path segments

  lemma {:induction false} NonEmptyConcat(a: seq<string>, b: seq<string>)
    ensures NonEmpty(a + b) == NonEmpty(a) + NonEmpty(b)
    decreases |a|
  {
    if |a| > 0 {
      assert (a + b)[0] == a[0] && (a + b)[1..] == a[1..] + b;
      NonEmptyConcat(a[1..], b);
      if a[0] == "" {
        assert NonEmpty(a + b) == NonEmpty(a[1..] + b);
      } else {
        assert NonEmpty(a + b) == [a[0]] + NonEmpty(a[1..] + b);
      }
    } else {
      assert a + b == b;
    }
  }

  /** Segments of a + "/" + b are those of a followed by those of b. */
  lemma SegmentsConcat(a: string, b: string)
    ensures Segments(a + "/" + b) == Segments(a) + Segments(b)
  {
    PosixPath.SplitConcat(a, '/', b);
    NonEmptyConcat(Split(a, '/'), Split(b, '/'));
  }

  lemma SegmentsOfEmpty()
    ensures Segments("") == []
  {
    assert Split("", '/') == [""];
  }

  lemma {:induction false} SegmentsLStrip(s: string)
    ensures Segments(LStripChar(s, '/')) == Segments(s)
    decreases |s|
  {
    if |s| > 0 && s[0] == '/' {
      assert s == "" + "/" + s[1..];
      SegmentsConcat("", s[1..]);
      SegmentsOfEmpty();
      SegmentsLStrip(s[1..]);
    }
  }

  lemma {:induction false} SegmentsRStrip(s: string)
    ensures Segments(RStripChar(s, '/')) == Segments(s)
    decreases |s|
  {
    if |s| > 0 && s[|s| - 1] == '/' {
      var init := s[..|s| - 1];
      assert s == init + "/" + "";
      SegmentsConcat(init, "");
      SegmentsOfEmpty();
      SegmentsRStrip(init);
    }
  }

  /** Stripping outer slashes loses no segment. */
  lemma SegmentsOfStripped(s: string)
    ensures Segments(StripChar(s, '/')) == Segments(s)
  {
    SegmentsLStrip(s);
    SegmentsRStrip(LStripChar(s, '/'));
  }

  /** A relative FTP path lands under the base directory: its server directory is
      the base's segments followed by its own. */
  lemma FtpTargetUnderBase(basePath: string, path: string)
    requires !StartsWith(FoldSlashes(path), "/")
    ensures Segments(FtpRemote(FtpBasePath(basePath), path))
         == Segments(FoldSlashes(basePath)) + Segments(FoldSlashes(path))
  {
    FtpRemoteSegments(FtpBasePath(basePath), path);
    BasePathSegments(basePath);
  }

  lemma FtpRemoteSegments(base: string, path: string)
    requires StartsWith(base, "/") && !StartsWith(FoldSlashes(path), "/")
    ensures Segments(FtpRemote(base, path)) == Segments(base) + Segments(FoldSlashes(path))
  {
    SegmentsConcat(base, FoldSlashes(path));
  }

  /** The base directory is the one the configured base path names. */
  lemma BasePathSegments(basePath: string)
    ensures Segments(FtpBasePath(basePath)) == Segments(FoldSlashes(basePath))
  {
    NormFtpPathSegments(RStripChar(basePath, '/'));
    FoldedRStrip(basePath);
    SegmentsRStrip(FoldSlashes(basePath));
  }

  lemma NormFtpPathSegments(path: string)
    ensures Segments(NormFtpPath(path)) == Segments(FoldSlashes(path))
  {
    var f := FoldSlashes(path);
    if !StartsWith(f, "/") {
      SegmentsSlashFirst(f);
    }
  }

  /** A leading '/' adds no segment. */
  lemma SegmentsSlashFirst(f: string)
    ensures Segments("/" + f) == Segments(f)
  {
    var e := "";
    assert "/" + f == e + "/" + f;
    SegmentsConcat(e, f);
    SegmentsOfEmpty();
  }

  /** Folding and stripping trailing slashes commute on the segment level. */
  lemma {:induction false} FoldedRStrip(s: string)
    ensures Segments(FoldSlashes(RStripChar(s, '/'))) == Segments(RStripChar(FoldSlashes(s), '/'))
    decreases |s|
  {
    if |s| > 0 && s[|s| - 1] == '/' {
      var init := s[..|s| - 1];
      FoldedRStrip(init);
      FoldDropsLastSlash(s, init);
    } else {
      SegmentsRStrip(FoldSlashes(s));
    }
  }

  /** A trailing '/' is stripped alike before and after folding. */
  lemma FoldDropsLastSlash(s: string, init: string)
    requires |s| > 0 && s[|s| - 1] == '/' && init == s[..|s| - 1]
    ensures RStripChar(s, '/') == RStripChar(init, '/')
    ensures RStripChar(FoldSlashes(s), '/') == RStripChar(FoldSlashes(init), '/')
  {
    var f := FoldSlashes(s);
    assert FoldSlashes(init) == f[..|f| - 1];
    assert f[|f| - 1] == '/';
  }

  // --------------------------------------------------------------- SFTP / SMB

  /** The path part of an SFTP or SMB URL: backslashes folded, outer slashes
      stripped.  (A missing remote path is the empty string.) */
  function UrlPath(remotePath: string): (r: string)
    ensures Segments(r) == Segments(FoldSlashes(remotePath))
  {
    SegmentsOfStripped(FoldSlashes(remotePath));
    StripChar(FoldSlashes(remotePath), '/')
  }

  /** `_remote_url`: the prefix followed by the path, or the prefix with exactly
      one trailing '/' when the path is empty. */
  function RemoteUrl(prefix: string, remotePath: string): (r: string)
    ensures UrlPath(remotePath) != "" ==> r == prefix + UrlPath(remotePath)
    ensures UrlPath(remotePath) == "" ==> EndsWith(r, "/") && StartsWith(r, RStripChar(prefix, '/'))
  {
    var p := UrlPath(remotePath);
    if p != "" then prefix + p else RStripChar(prefix, '/') + "/"
  }

  /** The URL folder_exists, ensure_folder and listdir use: a '/' is appended unless
      one ends it already. */
  function DirUrl(prefix: string, remotePath: string): (r: string)
    ensures EndsWith(r, "/")
  {
    var url := RemoteUrl(prefix, remotePath);
    if EndsWith(url, "/") then url else url + "/"
  }

  /** `f"{scheme}://{user}:{password}@{host}/"` with user and password quoted. */
  function UrlPrefix(scheme: string, user: string, password: string, hostPart: string): string
  {
    scheme + "://" + Percent.Quote(user) + ":" + Percent.Quote(password) + "@" + hostPart + "/"
  }

  /** The SFTP prefix: the host part carries the port. */
  function SftpPrefix(user: string, password: string, host: string, port: int): string
  {
    UrlPrefix("sftp", user, password, host + ":" + IntToString(port))
  }

  function SmbPrefix(user: string, password: string, host: string): string
  {
    UrlPrefix("smb", user, password, host)
  }

  /** The quoted user name is exactly what precedes the first ':' after the
      scheme, and the quoted password what lies between it and the first '@', so
      both can be read back from the URL. */
  lemma CredentialsReadBack(scheme: string, user: string, password: string, hostPart: string)
    ensures var rest := UrlPrefix(scheme, user, password, hostPart)[|scheme| + 3..];
            var u := Percent.Quote(user);
            var p := Percent.Quote(password);
            IndexOf(rest, ':') == |u| && rest[..|u|] == u
            && IndexOf(rest[|u| + 1..], '@') == |p| && rest[|u| + 1..][..|p|] == p
  {
    Percent.QuoteHasNoDelimiters(user);
    Percent.QuoteHasNoDelimiters(password);
    UrlPrefixRest(scheme, user, password, hostPart);
    DelimitedFields(Percent.Quote(user), Percent.Quote(password), "@" + hostPart + "/");
  }

  lemma UrlPrefixRest(scheme: string, user: string, password: string, hostPart: string)
    ensures UrlPrefix(scheme, user, password, hostPart)[|scheme| + 3..]
         == Percent.Quote(user) + ":" + Percent.Quote(password) + ("@" + hostPart + "/")
  {
    var head := scheme + "://";
    var rest := Percent.Quote(user) + ":" + Percent.Quote(password) + ("@" + hostPart + "/");
    assert UrlPrefix(scheme, user, password, hostPart) == head + rest;
    assert (head + rest)[|head|..] == rest;
  }

  /** In `u + ":" + p + tail` with tail starting at '@', the first ':' ends u and
      the first '@' after it ends p, when neither contains its delimiter. */
  lemma DelimitedFields(u: string, p: string, tail: string)
    requires ':' !in u && '@' !in p && |tail| > 0 && tail[0] == '@'
    ensures var rest := u + ":" + p + tail;
            IndexOf(rest, ':') == |u| && rest[..|u|] == u
            && IndexOf(rest[|u| + 1..], '@') == |p| && rest[|u| + 1..][..|p|] == p
  {
    var rest := u + ":" + p + tail;
    assert rest == u + (":" + p + tail);
    IndexOfPrefix(u, ':', ":" + p + tail);
    assert rest[|u| + 1..] == p + tail;
    IndexOfPrefix(p, '@', tail);
  }

  /** With an empty path an SFTP URL is the prefix itself: the port's last digit
      keeps rstrip('/') from eating more than the final slash. */
  lemma SftpEmptyPathIsPrefix(user: string, password: string, host: string, port: int)
    ensures RemoteUrl(SftpPrefix(user, password, host, port), "") == SftpPrefix(user, password, host, port)
  {
    var prefix := SftpPrefix(user, password, host, port);
    var s := IntToString(port);
    assert UrlPath("") == "" by {
      assert FoldSlashes("") == "";
    }
    assert prefix[|prefix| - 2] == s[|s| - 1];
    assert s[|s| - 1] != '/' by {
      if port >= 0 {
        assert IsDigit(s[|s| - 1]);
      } else {
        assert s[1..] == NatToString(-port);
        assert s[|s| - 1] == s[1..][|s| - 2];
      }
    }
    assert RStripChar(prefix[..|prefix| - 1], '/') == prefix[..|prefix| - 1];
  }

  // ----------------------------------------------------------------- backends

  /** The transports, with the fields their constructors set. */
  datatype Backend =
    | Ftp(host: string, user: string, password: string, basePath: string)
    | Sftp(host: string, port: int, prefix: string)
    | Smb(host: string, prefix: string)

  /** `SFTPBackend.__init__`'s port: `int(port) if port else 22`; None when int()
      raises. */
  function SftpPort(port: string): (r: Option<int>)
    ensures port == "" ==> r == Some(22)
  {
    if port == "" then Some(22) else ParseInt(port)
  }

  /** The connection type as `get_backend` compares it. */
  function ConnectionKind(connectionType: string): string
  {
    var ct := if connectionType == "" then "ftp" else connectionType;
    Lower(Strip(ct))
  }

  /** `get_backend`: "sftp" gives SFTP, "smb" gives SMB, anything else FTP.  None
      when the SFTP constructor raises on a non-numeric port. */
  function GetBackend(connectionType: string, host: string, user: string, password: string,
                      basePath: string, sftpPort: string): (r: Option<Backend>)
    ensures ConnectionKind(connectionType) == "sftp" ==>
              (r.None? <==> SftpPort(sftpPort).None?) && (r.Some? ==> r.value.Sftp?)
    ensures ConnectionKind(connectionType) == "smb" ==> r.Some? && r.value.Smb?
    ensures ConnectionKind(connectionType) != "sftp" && ConnectionKind(connectionType) != "smb" ==>
              r.Some? && r.value.Ftp? && StartsWith(r.value.basePath, "/")
  {
    var ct := ConnectionKind(connectionType);
    if ct == "sftp" then
      match SftpPort(sftpPort)
      case None => None
      case Some(port) => Some(Sftp(host, port, SftpPrefix(user, password, host, port)))
    else if ct == "smb" then Some(Smb(host, SmbPrefix(user, password, host)))
    else Some(Ftp(host, user, password, FtpBasePath(basePath)))
  }

  lemma {:induction false} LowerKeepsSpace(s: string)
    ensures forall i :: 0 <= i < |s| ==> (IsSpace(Lower(s)[i]) <==> IsSpace(s[i]))
  {
  }

  /** Normalising the type is idempotent on every type that has a non-blank
      character. */
  lemma ConnectionKindIdempotent(connectionType: string)
    requires ConnectionKind(connectionType) != ""
    ensures ConnectionKind(ConnectionKind(connectionType)) == ConnectionKind(connectionType)
  {
    var ct := if connectionType == "" then "ftp" else connectionType;
    var t := Strip(ct);
    var k := Lower(t);
    StripShape(ct);
    LowerKeepsSpace(t);
    LStripOfTrimmed(k);
    RStripOfTrimmed(k);
    LowerIsLower(t);
    LowerOfLower(k);
  }

  /** The factory ignores case and surrounding blanks: handing it the normalised
      type picks the same backend. */
  lemma GetBackendNormalised(connectionType: string, host: string, user: string, password: string,
                             basePath: string, sftpPort: string)
    ensures GetBackend(ConnectionKind(connectionType), host, user, password, basePath, sftpPort)
         == GetBackend(connectionType, host, user, password, basePath, sftpPort)
  {
    var k := ConnectionKind(connectionType);
    if k == "" {
      assert ConnectionKind(k) == Lower(Strip("ftp"));
      assert Strip("ftp") == "ftp" by {
        LStripOfTrimmed("ftp");
        RStripOfTrimmed("ftp");
      }
      assert Lower("ftp") == "ftp";
    } else {
      ConnectionKindIdempotent(connectionType);
    }
  }

  // ------------------------------------------------------------ server access

  /** The server directory or file a remote path names for a backend. */
  function Target(b: Backend, remotePath: string): RPath
  {
    match b
    case Ftp(_, _, _, base) =>
      if StartsWith(base, "/") then Segments(FtpRemote(base, remotePath)) else Segments(FoldSlashes(remotePath))
    case _ => Segments(UrlPath(remotePath))
  }

  /** folder_exists: FTP's cwd succeeds, or the Kodi listing does not raise; both
      need the server to answer and the directory to exist. */
  predicate FolderExists(b: Backend, sv: Server, remotePath: string)
  {
    sv.online && Target(b, remotePath) in sv.dirs
  }

  /** The names of the direct children of directory t among the given paths. */
  function ChildNames(paths: set<RPath>, t: RPath): set<string>
  {
    set p | p in paths && |p| == |t| + 1 && p[..|t|] == t :: p[|t|]
  }

  predicate Distinct(xs: seq<string>)
  {
    forall i, j :: 0 <= i < j < |xs| ==> xs[i] != xs[j]
  }

  /** xs lists the elements of s, each once. */
  predicate Enumerates(xs: seq<string>, s: set<string>)
  {
    Distinct(xs) && (forall x :: x in xs ==> x in s) && (forall x :: x in s ==> x in xs)
  }

  /** The server's listing order is not specified: any enumeration will do. */
  method Enumerate(s: set<string>) returns (xs: seq<string>)
    ensures Enumerates(xs, s)
  {
    xs := [];
    var rest := s;
    while rest != {}
      invariant Distinct(xs)
      invariant forall x :: x in s <==> x in xs || x in rest
      invariant forall x :: x in xs ==> x !in rest
      decreases |rest|
    {
      var x :| x in rest;
      xs := xs + [x];
      rest := rest - {x};
    }
  }

  /** listdir: never raises; an unreachable server or a missing directory gives
      []; SFTP and SMB list the directories before the files. */
  method ListDir(b: Backend, r: Remote, remotePath: string) returns (names: seq<string>)
    ensures !FolderExists(b, r.State(), remotePath) ==> names == []
    ensures FolderExists(b, r.State(), remotePath) ==>
              forall x :: x in names <==> x in ChildNames(r.dirs, Target(b, remotePath)) + ChildNames(r.files.Keys, Target(b, remotePath))
    ensures FolderExists(b, r.State(), remotePath) && b.Ftp? ==> Distinct(names)
    ensures FolderExists(b, r.State(), remotePath) && !b.Ftp? ==>
              exists k :: 0 <= k <= |names|
                && Enumerates(names[..k], ChildNames(r.dirs, Target(b, remotePath)))
                && Enumerates(names[k..], ChildNames(r.files.Keys, Target(b, remotePath)))
  {
    if !FolderExists(b, r.State(), remotePath) {
      return [];
    }
    var t := Target(b, remotePath);
    var dirNames := ChildNames(r.dirs, t);
    var fileNames := ChildNames(r.files.Keys, t);
    if b.Ftp? {
      names := Enumerate(dirNames + fileNames);
    } else {
      var ds := Enumerate(dirNames);
      var fs := Enumerate(fileNames);
      names := ds + fs;
      assert names[..|ds|] == ds && names[|ds|..] == fs;
    }
  }

  /** upload succeeds when the server answers, the local file can be read, the
      target's parent directory exists and the target is not a directory. */
  predicate CanUpload(b: Backend, local: map<string, Blob>, sv: Server, localPath: string, remotePath: string)
  {
    var t := Target(b, remotePath);
    sv.online && localPath in local && |t| > 0 && t[..|t| - 1] in sv.dirs && t !in sv.dirs
  }

  /** The server after upload: the local file's content replaces the remote one
      when the upload can happen, and nothing changes otherwise. */
  function Uploaded(b: Backend, local: map<string, Blob>, sv: Server, localPath: string, remotePath: string): (r: Server)
    ensures r.dirs == sv.dirs && r.online == sv.online
    ensures CanUpload(b, local, sv, localPath, remotePath) ==>
              r.files.Keys == sv.files.Keys + {Target(b, remotePath)} && r.files[Target(b, remotePath)] == local[localPath]
    ensures !CanUpload(b, local, sv, localPath, remotePath) ==> r == sv
    ensures forall t :: t in sv.files && t != Target(b, remotePath) ==> t in r.files && r.files[t] == sv.files[t]
  {
    if CanUpload(b, local, sv, localPath, remotePath) then sv.(files := sv.files[Target(b, remotePath) := local[localPath]])
    else sv
  }

  method Upload(b: Backend, d: Disk, r: Remote, localPath: string, remotePath: string) returns (ok: bool)
    requires r.Valid()
    modifies r
    ensures ok == CanUpload(b, d.files, old(r.State()), localPath, remotePath)
    ensures r.Valid() && r.State() == Uploaded(b, d.files, old(r.State()), localPath, remotePath)
  {
    ok := CanUpload(b, d.files, r.State(), localPath, remotePath);
    if ok {
      r.files := r.files[Target(b, remotePath) := d.files[localPath]];
    }
  }

  /** download succeeds when the server answers and the file exists. */
  predicate CanDownload(b: Backend, sv: Server, remotePath: string)
  {
    sv.online && Target(b, remotePath) in sv.files
  }

  /** The local files after download.  FTP opens the local file for writing
      before RETR, so a failed transfer from a reachable server leaves an empty
      local file; SFTP and SMB read first and then write. */
  function Downloaded(b: Backend, local: map<string, Blob>, sv: Server, remotePath: string, localPath: string): (r: map<string, Blob>)
    ensures CanDownload(b, sv, remotePath) ==> r == local[localPath := sv.files[Target(b, remotePath)]]
    ensures !CanDownload(b, sv, remotePath) && b.Ftp? && sv.online ==> r == local[localPath := Opaque("")]
    ensures !CanDownload(b, sv, remotePath) && !(b.Ftp? && sv.online) ==> r == local
  {
    if CanDownload(b, sv, remotePath) then local[localPath := sv.files[Target(b, remotePath)]]
    else if b.Ftp? && sv.online then local[localPath := Opaque("")]
    else local
  }

  method Download(b: Backend, d: Disk, r: Remote, remotePath: string, localPath: string) returns (ok: bool)
    modifies d
    ensures ok == CanDownload(b, r.State(), remotePath)
    ensures d.dirs == old(d.dirs) && d.files == Downloaded(b, old(d.files), r.State(), remotePath, localPath)
  {
    ok := CanDownload(b, r.State(), remotePath);
    if ok {
      d.files := d.files[localPath := r.files[Target(b, remotePath)]];
    } else if b.Ftp? && r.online {
      d.files := d.files[localPath := Opaque("")];
    }
  }

  // ------------------------------------------------------------ ensure_folder

  /** The directories FTP ensure_folder leaves, as written: for each cumulative
      prefix of the segments it tries `cwd('/' + prefix)`; on reply 550 it issues
      `mkd(segment)`, which is relative to the session's current directory, and a
      failed cwd leaves that directory where it was.  A refused mkd (the name is
      taken) ends the walk. */
  function FtpWalk(dirs: set<RPath>, files: set<RPath>, cwd: RPath, segs: seq<string>, i: nat): set<RPath>
    requires i <= |segs|
    decreases |segs| - i
  {
    if i == |segs| then dirs
    else if segs[..i + 1] in dirs then FtpWalk(dirs, files, segs[..i + 1], segs, i + 1)
    else
      var made := cwd + [segs[i]];
      if made in dirs || made in files then dirs
      else FtpWalk(dirs + {made}, files, cwd, segs, i + 1)
  }

  /** The walk as evidently intended: the missing prefix itself is created. */
  function FtpWalkFixed(dirs: set<RPath>, files: set<RPath>, segs: seq<string>, i: nat): set<RPath>
    requires i <= |segs|
    decreases |segs| - i
  {
    if i == |segs| then dirs
    else if segs[..i + 1] in dirs then FtpWalkFixed(dirs, files, segs, i + 1)
    else if segs[..i + 1] in files then dirs
    else FtpWalkFixed(dirs + {segs[..i + 1]}, files, segs, i + 1)
  }

  /** Two missing levels under the login directory: the second one is created
      beside the first instead of inside it, and the folder still does not exist. */
  lemma FtpWalkMisplacesNestedFolder()
    ensures FtpWalk({[]}, {}, [], ["x", "y"], 0) == {[], ["x"], ["y"]}
    ensures ["x", "y"] !in FtpWalk({[]}, {}, [], ["x", "y"], 0)
  {
    var segs := ["x", "y"];
    var d0: set<RPath> := {[]};
    var d1: set<RPath> := {[], ["x"]};
    var d2: set<RPath> := {[], ["x"], ["y"]};
    assert segs[..1] == ["x"] && segs[..2] == segs;
    assert [] + [segs[0]] == ["x"] && [] + [segs[1]] == ["y"];
    assert ["x"] !in d0 && d0 + {["x"]} == d1;
    assert FtpWalk(d0, {}, [], segs, 0) == FtpWalk(d1, {}, [], segs, 1);
    assert segs !in d1 && ["y"] !in d1 && d1 + {["y"]} == d2;
    assert FtpWalk(d1, {}, [], segs, 1) == FtpWalk(d2, {}, [], segs, 2);
    assert segs !in d2;
  }

  /** The prefixes of a directory path, the root included. */
  function Prefixes(t: RPath): set<RPath>
  {
    set k | 0 <= k <= |t| :: t[..k]
  }

  lemma AddPrefixesKeepsClosed(dirs: set<RPath>, t: RPath)
    requires DirsClosed(dirs)
    ensures DirsClosed(dirs + Prefixes(t)) && t in Prefixes(t)
  {
    assert t[..|t|] == t;
    forall d | d in Prefixes(t) && d != []
      ensures d[..|d| - 1] in Prefixes(t)
    {
      var k :| 0 <= k <= |t| && d == t[..k];
      assert d[..|d| - 1] == t[..k - 1];
    }
  }

  /** No prefix of the path is taken by a file. */
  predicate NoFileOnPath(files: set<RPath>, t: RPath)
  {
    forall k :: 1 <= k <= |t| ==> t[..k] !in files
  }

  /** The intended walk creates exactly the missing prefixes when no file is in
      the way. */
  lemma {:induction false} FtpWalkFixedCreates(dirs: set<RPath>, files: set<RPath>, segs: seq<string>, i: nat)
    requires i <= |segs| && NoFileOnPath(files, segs)
    ensures FtpWalkFixed(dirs, files, segs, i) == dirs + (set k | i < k <= |segs| :: segs[..k])
    decreases |segs| - i
  {
    if i < |segs| {
      var later := set k | i + 1 < k <= |segs| :: segs[..k];
      var all := set k | i < k <= |segs| :: segs[..k];
      assert all == {segs[..i + 1]} + later;
      if segs[..i + 1] in dirs {
        FtpWalkFixedCreates(dirs, files, segs, i + 1);
      } else {
        FtpWalkFixedCreates(dirs + {segs[..i + 1]}, files, segs, i + 1);
      }
    }
  }

  /** FTP ensure_folder as written.  `login` is the directory the server puts the
      session in.  Whatever happens, the result is folder_exists afterwards. */
  method FtpEnsureFolder(b: Backend, r: Remote, login: RPath, remotePath: string) returns (ok: bool)
    requires b.Ftp? && StartsWith(b.basePath, "/") && r.Valid() && login in r.dirs
    modifies r
    ensures r.Valid() && r.files == old(r.files) && r.online == old(r.online)
    ensures r.dirs == if old(r.online) then FtpWalk(old(r.dirs), old(r.files).Keys, login, Target(b, remotePath), 0)
                      else old(r.dirs)
    ensures ok == FolderExists(b, r.State(), remotePath)
  {
    var remote := StripChar(FtpRemote(b.basePath, remotePath), '/');
    SegmentsOfStripped(FtpRemote(b.basePath, remotePath));
    var segs := Segments(remote);
    if !r.online {
      // the connection raises, and so does folder_exists's
      ok := false;
      return;
    }
    if remote == "" {
      // nothing to create: folder_exists decides
      SegmentsOfEmpty();
      ok := FolderExists(b, r.State(), remotePath);
      return;
    }
    var cwd := login;
    var i := 0;
    while i < |segs|
      invariant 0 <= i <= |segs|
      invariant r.Valid() && cwd in r.dirs
      invariant r.files == old(r.files) && r.online == old(r.online)
      invariant FtpWalk(r.dirs, r.files.Keys, cwd, segs, i) == FtpWalk(old(r.dirs), old(r.files).Keys, login, segs, 0)
    {
      var blocked;
      cwd, blocked := FtpLevel(r, cwd, segs, i);
      if blocked {
        ok := FolderExists(b, r.State(), remotePath);
        return;
      }
      i := i + 1;
    }
    ok := FolderExists(b, r.State(), remotePath);
  }

  /** One level of the walk as written: `cwd` into the prefix when it exists,
      otherwise `mkd(segment)` beside the current directory, refused when the
      name is taken. */
  method FtpLevel(r: Remote, cwd: RPath, segs: RPath, i: nat) returns (cwd': RPath, blocked: bool)
    requires i < |segs| && r.Valid() && cwd in r.dirs
    modifies r
    ensures r.Valid() && r.files == old(r.files) && r.online == old(r.online) && cwd' in r.dirs
    ensures blocked <==> segs[..i + 1] !in old(r.dirs) && (cwd + [segs[i]] in old(r.dirs) || cwd + [segs[i]] in old(r.files))
    ensures blocked ==> r.dirs == old(r.dirs) == FtpWalk(old(r.dirs), old(r.files).Keys, cwd, segs, i)
    ensures !blocked ==> FtpWalk(r.dirs, r.files.Keys, cwd', segs, i + 1) == FtpWalk(old(r.dirs), old(r.files).Keys, cwd, segs, i)
  {
    var sub := segs[..i + 1];
    cwd', blocked := cwd, false;
    if sub in r.dirs {
      cwd' := sub;
    } else {
      var made := cwd + [segs[i]];
      if made in r.dirs || made in r.files {
        blocked := true;
        return;
      }
      assert made[..|made| - 1] == cwd;
      AddChildKeepsClosed(r.dirs, made);
      r.dirs := r.dirs + {made};
    }
  }

  /** FTP ensure_folder with the missing prefix created by its full path
      (`mkd('/' + sub)`): the folder exists afterwards whenever the server answers
      and no file is in the way. */
  method FtpEnsureFolderFixed(b: Backend, r: Remote, remotePath: string) returns (ok: bool)
    requires b.Ftp? && StartsWith(b.basePath, "/") && r.Valid()
    modifies r
    ensures r.Valid() && r.files == old(r.files) && r.online == old(r.online)
    ensures r.dirs == if old(r.online) then FtpWalkFixed(old(r.dirs), old(r.files).Keys, Target(b, remotePath), 0)
                      else old(r.dirs)
    ensures ok == FolderExists(b, r.State(), remotePath)
    ensures old(r.online) && NoFileOnPath(old(r.files).Keys, Target(b, remotePath)) ==> ok
  {
    var remote := StripChar(FtpRemote(b.basePath, remotePath), '/');
    SegmentsOfStripped(FtpRemote(b.basePath, remotePath));
    var segs := Segments(remote);
    assert segs == Target(b, remotePath);
    if !r.online {
      ok := false;
      return;
    }
    if remote == "" {
      SegmentsOfEmpty();
      ok := FolderExists(b, r.State(), remotePath);
      return;
    }
    var i := 0;
    while i < |segs|
      invariant 0 <= i <= |segs|
      invariant r.Valid() && segs[..i] in r.dirs
      invariant r.files == old(r.files) && r.online == old(r.online)
      invariant FtpWalkFixed(r.dirs, r.files.Keys, segs, i) == FtpWalkFixed(old(r.dirs), old(r.files).Keys, segs, 0)
    {
      var blocked := FtpMakeLevel(r, segs, i);
      if blocked {
        ok := FolderExists(b, r.State(), remotePath);
        return;
      }
      i := i + 1;
    }
    assert segs[..|segs|] == segs;
    ok := FolderExists(b, r.State(), remotePath);
  }

  /** One level of the intended walk: `mkd('/' + sub)` when the prefix of
      i + 1 segments is missing, unless a file holds its name. */
  method FtpMakeLevel(r: Remote, segs: RPath, i: nat) returns (blocked: bool)
    requires i < |segs| && r.Valid() && segs[..i] in r.dirs
    modifies r
    ensures r.Valid() && r.files == old(r.files) && r.online == old(r.online)
    ensures blocked <==> segs[..i + 1] !in old(r.dirs) && segs[..i + 1] in old(r.files)
    ensures blocked ==> r.dirs == old(r.dirs) == FtpWalkFixed(old(r.dirs), old(r.files).Keys, segs, i)
    ensures !blocked ==> segs[..i + 1] in r.dirs
    ensures !blocked ==> FtpWalkFixed(r.dirs, r.files.Keys, segs, i + 1) == FtpWalkFixed(old(r.dirs), old(r.files).Keys, segs, i)
  {
    var sub := segs[..i + 1];
    blocked := false;
    if sub !in r.dirs {
      if sub in r.files {
        blocked := true;
        return;
      }
      assert sub[..|sub| - 1] == segs[..i];
      AddChildKeepsClosed(r.dirs, sub);
      r.dirs := r.dirs + {sub};
    }
  }

  /** SFTP and SMB ensure_folder: `xbmcvfs.mkdirs` creates every missing level when
      the server answers and no file is in the way; the result is folder_exists
      afterwards in either case. */
  method VfsEnsureFolder(b: Backend, r: Remote, remotePath: string) returns (ok: bool)
    requires !b.Ftp? && r.Valid()
    modifies r
    ensures r.Valid() && r.files == old(r.files) && r.online == old(r.online)
    ensures r.dirs == if old(r.online) && NoFileOnPath(old(r.files).Keys, Target(b, remotePath))
                      then old(r.dirs) + Prefixes(Target(b, remotePath)) else old(r.dirs)
    ensures ok == FolderExists(b, r.State(), remotePath)
    ensures old(r.online) && NoFileOnPath(old(r.files).Keys, Target(b, remotePath)) ==> ok
  {
    var t := Target(b, remotePath);
    if r.online && NoFileOnPath(r.files.Keys, t) {
      AddPrefixesKeepsClosed(r.dirs, t);
      r.dirs := r.dirs + Prefixes(t);
    }
    ok := FolderExists(b, r.State(), remotePath);
  }

  /** The server after ensure_folder of whichever transport, FTP in its intended
      form. */
  function Ensured(b: Backend, sv: Server, remotePath: string): (r: Server)
    ensures r.files == sv.files && r.online == sv.online && sv.dirs <= r.dirs
  {
    var t := Target(b, remotePath);
    if !sv.online then sv
    else if b.Ftp? then
      FtpWalkFixedGrows(sv.dirs, sv.files.Keys, t, 0);
      sv.(dirs := FtpWalkFixed(sv.dirs, sv.files.Keys, t, 0))
    else if NoFileOnPath(sv.files.Keys, t) then sv.(dirs := sv.dirs + Prefixes(t))
    else sv
  }

  /** ensure_folder's promise: the folder exists afterwards whenever the server
      answers and no file stands on its path. */
  lemma EnsuredCreatesFolder(b: Backend, sv: Server, remotePath: string)
    requires DirsClosed(sv.dirs) && sv.online && NoFileOnPath(sv.files.Keys, Target(b, remotePath))
    ensures FolderExists(b, Ensured(b, sv, remotePath), remotePath)
  {
    var t := Target(b, remotePath);
    assert t[..|t|] == t;
    if b.Ftp? {
      FtpWalkFixedCreates(sv.dirs, sv.files.Keys, t, 0);
      if t != [] {
        assert t in (set k | 0 < k <= |t| :: t[..k]);
      }
    }
  }

  /** ensure_folder of whichever transport, FTP in its intended form; the result
      is folder_exists afterwards. */
  method EnsureFolder(b: Backend, r: Remote, remotePath: string) returns (ok: bool)
    requires (b.Ftp? ==> StartsWith(b.basePath, "/")) && r.Valid()
    modifies r
    ensures r.Valid() && r.State() == Ensured(b, old(r.State()), remotePath)
    ensures ok == FolderExists(b, r.State(), remotePath)
  {
    if b.Ftp? {
      ok := FtpEnsureFolderFixed(b, r, remotePath);
    } else {
      ok := VfsEnsureFolder(b, r, remotePath);
    }
  }

  lemma {:induction false} FtpWalkFixedGrows(dirs: set<RPath>, files: set<RPath>, segs: seq<string>, i: nat)
    requires i <= |segs|
    ensures dirs <= FtpWalkFixed(dirs, files, segs, i)
    decreases |segs| - i
  {
    if i < |segs| {
      if segs[..i + 1] in dirs {
        FtpWalkFixedGrows(dirs, files, segs, i + 1);
      } else if segs[..i + 1] !in files {
        FtpWalkFixedGrows(dirs + {segs[..i + 1]}, files, segs, i + 1);
      }
    }
  }

  lemma {:induction false} FtpWalkFixedKeepsClosed(dirs: set<RPath>, files: set<RPath>, segs: seq<string>, i: nat)
    requires i <= |segs| && DirsClosed(dirs) && segs[..i] in dirs
    ensures DirsClosed(FtpWalkFixed(dirs, files, segs, i))
    decreases |segs| - i
  {
    if i < |segs| {
      var sub := segs[..i + 1];
      if sub in dirs {
        FtpWalkFixedKeepsClosed(dirs, files, segs, i + 1);
      } else if sub !in files {
        assert sub[..|sub| - 1] == segs[..i];
        AddChildKeepsClosed(dirs, sub);
        FtpWalkFixedKeepsClosed(dirs + {sub}, files, segs, i + 1);
      }
    }
  }

  /** ensure_folder keeps the directory tree closed: every folder it creates
      has its parent. */
  lemma EnsuredKeepsClosed(b: Backend, sv: Server, remotePath: string)
    requires DirsClosed(sv.dirs)
    ensures DirsClosed(Ensured(b, sv, remotePath).dirs)
  {
    var t := Target(b, remotePath);
    if sv.online {
      if b.Ftp? {
        assert t[..0] == [];
        FtpWalkFixedKeepsClosed(sv.dirs, sv.files.Keys, t, 0);
      } else if NoFileOnPath(sv.files.Keys, t) {
        AddPrefixesKeepsClosed(sv.dirs, t);
      }
    }
  }

  lemma FoldSlashesChild(p: string, name: string)
    requires '\\' !in name
    ensures FoldSlashes(p + "/" + name) == FoldSlashes(p) + "/" + name
  {
    FoldSlashesNoop(name);
  }

  /** A name without separators appended to an absolute remote path names the
      entry of that name inside the path's directory, on every transport. */
  lemma TargetChild(b: Backend, p: string, name: string)
    requires b.Ftp? ==> StartsWith(b.basePath, "/")
    requires StartsWith(p, "/") && name != "" && '/' !in name && '\\' !in name
    ensures Target(b, p + "/" + name) == Target(b, p) + [name]
  {
    var q := p + "/" + name;
    FoldSlashesChild(p, name);
    assert StartsWith(FoldSlashes(p), "/") && StartsWith(FoldSlashes(q), "/");
    SegmentsConcat(FoldSlashes(p), name);
    assert Split(name, '/') == [name];
    assert [name][1..] == [];
    assert Segments(name) == [name];
  }
}
