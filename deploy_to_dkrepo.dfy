// repo/deploy_to_dkrepo.py: the script that uploads the built repository
// (addons.xml, its checksum and the add-on zips under dist/) to the FTP
// server.  The FTP session is a class over the server's directory tree and
// its current directory; the environment is a map; opening the connection,
// logging in and reading the local files are left out.

module DeployToDkrepo {
  import opened Text
  import opened Storage
  import SyncBackend

  /** The process environment. */
  type Env = map<string, string>

  const HostVar := "DKREPO_FTP_HOST"
  const PortVar := "DKREPO_FTP_PORT"
  const UserVar := "DKREPO_FTP_USER"
  const PassVar := "DKREPO_FTP_PASS"
  const BaseDirVar := "DKREPO_FTP_BASEDIR"

  /** How the script ends early. */
  datatype Stop =
    | Exit(message: string)     // SystemExit with this message
    | BadPort(text: string)     // int() raised ValueError on the port text
    | FtpError(reply: string)   // an ftplib error that nothing caught

  datatype Result<T> = Ok(value: T) | Fail(stop: Stop)

  function MissingMessage(name: string): string
  {
    "Umgebungsvariable " + name + " ist nicht gesetzt."
  }

  function DistMissingMessage(distDir: string): string
  {
    "dist-Verzeichnis nicht gefunden: " + distDir
  }

  // ------------------------------------------------------------ environment

  /** getenv_required: the variable's value; SystemExit when it is unset or empty. */
  function GetenvRequired(env: Env, name: string): (r: Result<string>)
    ensures r.Ok? <==> name in env && env[name] != ""
    ensures r.Ok? ==> r.value == env[name]
    ensures r.Fail? ==> r.stop == Exit(MissingMessage(name))
  {
    if name in env && env[name] != "" then Ok(env[name]) else Fail(Exit(MissingMessage(name)))
  }

  /** `int(os.environ.get("DKREPO_FTP_PORT") or "21")`: 21 when the variable is
      unset or empty, otherwise its value read as a number. */
  function Port(env: Env): (r: Result<int>)
    ensures (PortVar !in env || env[PortVar] == "") ==> r == Ok(21)
    ensures PortVar in env && env[PortVar] != "" ==>
              (r.Ok? <==> ParseInt(env[PortVar]).Some?)
              && (r.Ok? ==> r.value == ParseInt(env[PortVar]).value)
              && (r.Fail? ==> r.stop == BadPort(env[PortVar]))
  {
    DefaultPortParses();
    var text := if PortVar in env && env[PortVar] != "" then env[PortVar] else "21";
    match ParseInt(text)
    case Some(n) => Ok(n)
    case None => Fail(BadPort(text))
  }

  lemma DefaultPortParses()
    ensures ParseInt("21") == Some(21)
  {
    ParseIntOfIntToString(21);
    assert IntToString(21) == "21";
  }

  /** `basedir.rstrip("/") or "/"`: the directory the script changes into. */
  function BaseTarget(basedir: string): (r: string)
    ensures r != "" && (r == "/" || r[|r| - 1] != '/')
    ensures Segments(r) == Segments(basedir)
    ensures StartsWith(basedir, "/") ==> StartsWith(r, "/")
  {
    var t := RStripChar(basedir, '/');
    SyncBackend.SegmentsRStrip(basedir);
    if t == "" then
      assert Split("/", '/') == ["", ""] by {
        assert IndexOf("/", '/') == 0;
        assert Split("", '/') == [""];
      }
      "/"
    else t
  }

  // ------------------------------------------------------------ the FTP server

  /** What the session sees of the server: its directories and files by
      absolute path, and the current directory. */
  datatype Site = Site(dirs: set<RPath>, files: map<RPath, Blob>, cwd: RPath)

  /** One FTP command's effect: the site afterwards and the error reply, if any. */
  datatype Step = Step(site: Site, err: Option<string>)

  /** The server's error replies for a name that already exists, a directory
      that is not there, and a STOR onto a directory. */
  const ExistsReply := "550 File exists"
  const NoSuchReply := "550 No such file or directory"
  const NotFileReply := "550 Not a regular file"

  /** Where a cwd argument leads: an absolute path from the root, anything
      else below the current directory. */
  function CwdTarget(cwd: RPath, path: string): RPath
  {
    if StartsWith(path, "/") then Segments(path) else cwd + Segments(path)
  }

  /** CWD into a directory given by its absolute path. */
  function CwdTo(s: Site, target: RPath): Step
  {
    if target in s.dirs then Step(s.(cwd := target), None) else Step(s, Some(NoSuchReply))
  }

  function CwdOn(s: Site, path: string): Step
  {
    CwdTo(s, CwdTarget(s.cwd, path))
  }

  /** MKD of a name in the current directory: refused with 550 when the name
      is taken, with the server's own reply when it will not create that
      directory, and created otherwise. */
  function MkdOn(s: Site, refusals: map<RPath, string>, name: string): Step
  {
    var p := s.cwd + [name];
    if p in s.dirs || p in s.files then Step(s, Some(ExistsReply))
    else if p in refusals then Step(s, Some(refusals[p]))
    else Step(s.(dirs := s.dirs + {p}), None)
  }

  /** STOR of a name in the current directory. */
  function StorOn(s: Site, name: string, data: Blob): Step
  {
    var p := s.cwd + [name];
    if p in s.dirs then Step(s, Some(NotFileReply)) else Step(s.(files := s.files[p := data]), None)
  }

  /** The session the script holds. */
  class FtpSession {
    var dirs: set<RPath>
    var files: map<RPath, Blob>
    var cwd: RPath
    /** The directories the server will not create, with the reply it gives. */
    const refusals: map<RPath, string>

    function State(): Site
      reads this
    {
      Site(dirs, files, cwd)
    }

    /** The tree is closed under parents and the current directory is in it. */
    ghost predicate Valid()
      reads this
    {
      DirsClosed(dirs) && cwd in dirs
    }

    /** A session logged in at `home`. */
    constructor (dirs0: set<RPath>, files0: map<RPath, Blob>, home: RPath, refusals0: map<RPath, string>)
      requires DirsClosed(dirs0) && home in dirs0
      ensures Valid() && State() == Site(dirs0, files0, home) && refusals == refusals0
    {
      dirs := dirs0;
      files := files0;
      cwd := home;
      refusals := refusals0;
    }

    method Mkd(name: string) returns (err: Option<string>)
      requires Valid()
      modifies this
      ensures Valid() && Step(State(), err) == MkdOn(old(State()), refusals, name)
    {
      var p := cwd + [name];
      if p in dirs || p in files {
        return Some(ExistsReply);
      }
      if p in refusals {
        return Some(refusals[p]);
      }
      assert p[..|p| - 1] == cwd;
      AddChildKeepsClosed(dirs, p);
      dirs := dirs + {p};
      err := None;
    }

    method Cwd(path: string) returns (err: Option<string>)
      requires Valid()
      modifies this
      ensures Valid() && Step(State(), err) == CwdOn(old(State()), path)
    {
      err := CwdDir(CwdTarget(cwd, path));
    }

    method CwdDir(target: RPath) returns (err: Option<string>)
      requires Valid()
      modifies this
      ensures Valid() && Step(State(), err) == CwdTo(old(State()), target)
    {
      if target in dirs {
        cwd := target;
        err := None;
      } else {
        err := Some(NoSuchReply);
      }
    }

    method Stor(name: string, data: Blob) returns (err: Option<string>)
      requires Valid()
      modifies this
      ensures Valid() && Step(State(), err) == StorOn(old(State()), name, data)
    {
      var p := cwd + [name];
      if p in dirs {
        return Some(NotFileReply);
      }
      files := files[p := data];
      err := None;
    }
  }

  // ------------------------------------------------------------ ensure_remote_dirs

  /** `remote_path.split("/")[:-1]`: every component but the last. */
  function DirParts(remotePath: string): (r: seq<string>)
    ensures forall k :: 0 <= k < |r| ==> '/' !in r[k]
  {
    var parts := Split(remotePath, '/');
    parts[..|parts| - 1]
  }

  /** `remote_path.split("/")[-1]`: the file name STOR is given. */
  function LastComponent(remotePath: string): (r: string)
    ensures '/' !in r
  {
    var parts := Split(remotePath, '/');
    parts[|parts| - 1]
  }

  /** The directory parts and the file name put back together with '/' are
      the path itself. */
  lemma DirPartsAndName(remotePath: string)
    ensures Join(DirParts(remotePath) + [LastComponent(remotePath)], "/") == remotePath
  {
    var parts := Split(remotePath, '/');
    assert DirParts(remotePath) + [LastComponent(remotePath)] == parts;
    JoinSplit(remotePath, '/');
  }

  /** The loop of ensure_remote_dirs: skip empty parts; MKD each other part,
      letting only a 550 reply pass, then CWD into it. */
  function EnsureDirsOn(s: Site, refusals: map<RPath, string>, parts: seq<string>): Step
    decreases |parts|
  {
    if parts == [] then Step(s, None)
    else if parts[0] == "" then EnsureDirsOn(s, refusals, parts[1..])
    else
      var m := MkdOn(s, refusals, parts[0]);
      if m.err.Some? && !StartsWith(m.err.value, "550") then m
      else
        var c := CwdOn(m.site, parts[0]);
        if c.err.Some? then c else EnsureDirsOn(c.site, refusals, parts[1..])
  }

  method EnsureRemoteDirs(ftp: FtpSession, remotePath: string) returns (err: Option<string>)
    requires ftp.Valid()
    modifies ftp
    ensures ftp.Valid()
    ensures Step(ftp.State(), err) == EnsureDirsOn(old(ftp.State()), ftp.refusals, DirParts(remotePath))
  {
    var parts := DirParts(remotePath);
    var i := 0;
    while i < |parts|
      invariant 0 <= i <= |parts| && ftp.Valid()
      invariant EnsureDirsOn(ftp.State(), ftp.refusals, parts[i..])
             == EnsureDirsOn(old(ftp.State()), ftp.refusals, parts)
    {
      assert parts[i..][0] == parts[i] && parts[i..][1..] == parts[i + 1..];
      var part := parts[i];
      if part != "" {
        var e := ftp.Mkd(part);
        if e.Some? && !StartsWith(e.value, "550") {
          return e;
        }
        e := ftp.Cwd(part);
        if e.Some? {
          return e;
        }
      }
      i := i + 1;
    }
    assert parts[i..] == [];
    err := None;
  }

  /** A name without '/' is one segment. */
  lemma NameSegments(name: string)
    requires '/' !in name
    ensures Split(name, '/') == [name]
    ensures name != "" ==> Segments(name) == [name]
  {
    assert IndexOf(name, '/') == |name|;
  }

  /** The absolute paths of the directories base/ne[0], base/ne[0]/ne[1], ... */
  function Prefixes(base: RPath, ne: seq<string>): set<RPath>
  {
    set k | 1 <= k <= |ne| :: base + ne[..k]
  }

  lemma PrefixesCons(base: RPath, name: string, ne: seq<string>)
    ensures Prefixes(base, [name] + ne) == {base + [name]} + Prefixes(base + [name], ne)
  {
    var all := [name] + ne;
    forall k | 1 <= k <= |ne|
      ensures (base + [name]) + ne[..k] == base + all[..k + 1]
    {
      assert all[..k + 1] == [name] + ne[..k];
    }
    forall k | 1 <= k <= |all|
      ensures base + all[..k] in {base + [name]} + Prefixes(base + [name], ne)
    {
      if k == 1 {
        assert all[..1] == [name];
      } else {
        assert base + all[..k] == (base + [name]) + ne[..k - 1];
      }
    }
  }

  /** A directory path the loop can pass: no file stands on it, and if it does
      not exist yet, the server will create it. */
  predicate Passable(s: Site, refusals: map<RPath, string>, p: RPath)
  {
    p !in s.files && (p !in s.dirs ==> p !in refusals)
  }

  /** Every directory on the way from base through ne is passable. */
  predicate AllPassable(s: Site, refusals: map<RPath, string>, base: RPath, ne: seq<string>)
  {
    forall k :: 1 <= k <= |ne| ==> Passable(s, refusals, base + ne[..k])
  }

  /** ensure_remote_dirs's promise: when every directory on the way can be
      passed, all of them exist afterwards, the session stands in the last one,
      nothing else changes and nothing is raised. */
  lemma {:induction false} EnsureDirsCreates(s: Site, refusals: map<RPath, string>, parts: seq<string>)
    requires forall k :: 0 <= k < |parts| ==> '/' !in parts[k]
    requires AllPassable(s, refusals, s.cwd, NonEmpty(parts))
    ensures var r := EnsureDirsOn(s, refusals, parts);
            r.err == None && r.site.cwd == s.cwd + NonEmpty(parts) && r.site.files == s.files
            && r.site.dirs == s.dirs + Prefixes(s.cwd, NonEmpty(parts))
    decreases |parts|
  {
    if parts == [] {
      assert Prefixes(s.cwd, []) == {};
    } else if parts[0] == "" {
      EnsureDirsCreates(s, refusals, parts[1..]);
    } else {
      var name := parts[0];
      var rest := NonEmpty(parts[1..]);
      var p := s.cwd + [name];
      var s2 := Site(s.dirs + {p}, s.files, p);
      PassableCons(s, refusals, parts);
      EnsureDirsEnters(s, refusals, parts);
      EnsureDirsCreates(s2, refusals, parts[1..]);
      PathCons(s.cwd, parts);
      PrefixesCons(s.cwd, name, rest);
      assert NonEmpty(parts) == [name] + rest;
    }
  }

  /** Passability of the whole way gives it for the first directory and,
      once that one exists, for the rest of the way from there. */
  lemma PassableCons(s: Site, refusals: map<RPath, string>, parts: seq<string>)
    requires parts != [] && parts[0] != ""
    requires AllPassable(s, refusals, s.cwd, NonEmpty(parts))
    ensures Passable(s, refusals, s.cwd + [parts[0]])
    ensures var p := s.cwd + [parts[0]];
            AllPassable(Site(s.dirs + {p}, s.files, p), refusals, p, NonEmpty(parts[1..]))
  {
    var name := parts[0];
    var rest := NonEmpty(parts[1..]);
    var p := s.cwd + [name];
    NonEmptyCons(parts);
    PrefixCons(s.cwd, name, rest, 0);
    forall k | 1 <= k <= |rest|
      ensures Passable(Site(s.dirs + {p}, s.files, p), refusals, p + rest[..k])
    {
      PrefixCons(s.cwd, name, rest, k);
    }
  }

  lemma NonEmptyCons(parts: seq<string>)
    requires parts != [] && parts[0] != ""
    ensures NonEmpty(parts) == [parts[0]] + NonEmpty(parts[1..])
  {
  }

  /** The k-th prefix below base/name is the (k+1)-th below base. */
  lemma PrefixCons(base: RPath, name: string, rest: seq<string>, k: nat)
    requires k <= |rest|
    ensures (base + [name]) + rest[..k] == base + ([name] + rest)[..k + 1]
  {
    assert ([name] + rest)[..k + 1] == [name] + rest[..k];
  }

  /** A passable first part is created if need be and entered. */
  lemma EnsureDirsEnters(s: Site, refusals: map<RPath, string>, parts: seq<string>)
    requires parts != [] && parts[0] != "" && '/' !in parts[0]
    requires Passable(s, refusals, s.cwd + [parts[0]])
    ensures EnsureDirsOn(s, refusals, parts)
         == EnsureDirsOn(Site(s.dirs + {s.cwd + [parts[0]]}, s.files, s.cwd + [parts[0]]), refusals, parts[1..])
  {
    var name := parts[0];
    var p := s.cwd + [name];
    var s2 := Site(s.dirs + {p}, s.files, p);
    var m := MkdOn(s, refusals, name);
    NameSegments(name);
    RelativeName(s.cwd, name);
    if p in s.dirs {
      assert StartsWith(ExistsReply, "550");
      assert s.dirs + {p} == s.dirs;
      assert CwdOn(m.site, name) == Step(s2, None);
    } else {
      assert CwdOn(m.site, name) == Step(s2, None);
    }
  }

  /** A name without '/' is entered below the current directory. */
  lemma RelativeName(cwd: RPath, name: string)
    requires name != "" && '/' !in name
    ensures CwdTarget(cwd, name) == cwd + [name]
  {
    assert !StartsWith(name, "/") by {
      assert name[0] != '/';
    }
    NameSegments(name);
  }

  /** The 550 rule, both ways: a directory the server refuses with a 550 reply
      is passed over by MKD and then fails at CWD; any other refusal is raised
      as it is.  Nothing changes on the server either way. */
  lemma EnsureDirsRefused(s: Site, refusals: map<RPath, string>, name: string)
    requires name != "" && '/' !in name
    requires s.cwd + [name] !in s.dirs && s.cwd + [name] !in s.files && s.cwd + [name] in refusals
    ensures var reply := refusals[s.cwd + [name]];
            EnsureDirsOn(s, refusals, [name])
            == if StartsWith(reply, "550") then Step(s, Some(NoSuchReply)) else Step(s, Some(reply))
  {
    NameSegments(name);
  }

  /** Running ensure_remote_dirs again from the same directory changes no
      directory: every one it needs exists by then. */
  lemma EnsureDirsIdempotent(s: Site, refusals: map<RPath, string>, parts: seq<string>)
    requires forall k :: 0 <= k < |parts| ==> '/' !in parts[k]
    requires AllPassable(s, refusals, s.cwd, NonEmpty(parts))
    ensures var once := EnsureDirsOn(s, refusals, parts).site;
            EnsureDirsOn(once.(cwd := s.cwd), refusals, parts) == Step(once, None)
  {
    EnsureDirsCreates(s, refusals, parts);
    var once := EnsureDirsOn(s, refusals, parts).site;
    var again := once.(cwd := s.cwd);
    var ne := NonEmpty(parts);
    forall k | 1 <= k <= |ne|
      ensures Passable(again, refusals, s.cwd + ne[..k])
    {
      assert s.cwd + ne[..k] in Prefixes(s.cwd, ne);
    }
    EnsureDirsCreates(again, refusals, parts);
  }

  /** On success the session stands in the last directory of the path,
      whether or not it had to create it. */
  lemma {:induction false} EnsureDirsCwd(s: Site, refusals: map<RPath, string>, parts: seq<string>)
    requires forall k :: 0 <= k < |parts| ==> '/' !in parts[k]
    ensures var r := EnsureDirsOn(s, refusals, parts);
            r.err.None? ==> r.site.cwd == s.cwd + NonEmpty(parts)
    ensures EnsureDirsOn(s, refusals, parts).site.files == s.files
    decreases |parts|
  {
    if parts == [] {
    } else if parts[0] == "" {
      EnsureDirsCwd(s, refusals, parts[1..]);
    } else {
      var name := parts[0];
      NameSegments(name);
      var m := MkdOn(s, refusals, name);
      var c := CwdOn(m.site, name);
      if !(m.err.Some? && !StartsWith(m.err.value, "550")) && c.err.None? {
        assert c.site.cwd == s.cwd + [name];
        EnsureDirsCwd(c.site, refusals, parts[1..]);
        PathCons(s.cwd, parts);
      }
    }
  }

  /** Entering a non-empty first part, then the rest, reaches the same path. */
  lemma PathCons(cwd: RPath, parts: seq<string>)
    requires parts != [] && parts[0] != ""
    ensures cwd + [parts[0]] + NonEmpty(parts[1..]) == cwd + NonEmpty(parts)
  {
    assert NonEmpty(parts) == [parts[0]] + NonEmpty(parts[1..]);
  }

  // ------------------------------------------------------------ deploy

  /** A file under dist/: its path relative to dist/ and its content. */
  datatype DistFile = DistFile(rel: string, data: Blob)

  /** How a run ends: the server afterwards, and why it stopped early, if it did. */
  datatype Outcome = Outcome(site: Site, stop: Option<Stop>)

  /** Where each file's upload starts from: the base directory named again by
      its configured path, or the directory that path led to the first time. */
  datatype Reset = ByPath(path: string) | ToDir(dir: RPath)

  function ResetOn(s: Site, reset: Reset): Step
  {
    match reset
    case ByPath(path) => CwdOn(s, path)
    case ToDir(dir) => CwdTo(s, dir)
  }

  /** One file: back to the base directory, create and enter its directories,
      STOR its last component. */
  function UploadOne(s: Site, refusals: map<RPath, string>, reset: Reset, f: DistFile): Step
  {
    var c := ResetOn(s, reset);
    if c.err.Some? then c
    else
      var e := EnsureDirsOn(c.site, refusals, DirParts(f.rel));
      if e.err.Some? then e
      else StorOn(e.site, LastComponent(f.rel), f.data)
  }

  /** The loop over dist/: the first error ends the run. */
  function UploadAll(s: Site, refusals: map<RPath, string>, reset: Reset, dist: seq<DistFile>): Outcome
    decreases |dist|
  {
    if dist == [] then Outcome(s, None)
    else
      var u := UploadOne(s, refusals, reset, dist[0]);
      if u.err.Some? then Outcome(u.site, Some(FtpError(u.err.value)))
      else UploadAll(u.site, refusals, reset, dist[1..])
  }

  /** Everything before the loop, or how the run ended before it. */
  datatype Ready = Ready(site: Site, base: string) | Stopped(outcome: Outcome)

  /** The variables in the order the script reads them, CWD into the base
      directory, then the check for dist/, which the lazy file listing makes
      only when the loop first asks for a file. */
  function Prepare(env: Env, distDir: string, distExists: bool, s: Site): Ready
  {
    var host := GetenvRequired(env, HostVar);
    var port := Port(env);
    var user := GetenvRequired(env, UserVar);
    var password := GetenvRequired(env, PassVar);
    var basedir := GetenvRequired(env, BaseDirVar);
    if host.Fail? then Stopped(Outcome(s, Some(host.stop)))
    else if port.Fail? then Stopped(Outcome(s, Some(port.stop)))
    else if user.Fail? then Stopped(Outcome(s, Some(user.stop)))
    else if password.Fail? then Stopped(Outcome(s, Some(password.stop)))
    else if basedir.Fail? then Stopped(Outcome(s, Some(basedir.stop)))
    else EnterBase(s, basedir.value, distDir, distExists)
  }

  /** The first CWD into the base directory, then the check for dist/. */
  function EnterBase(s: Site, basedir: string, distDir: string, distExists: bool): Ready
  {
    var base := BaseTarget(basedir);
    var c := CwdOn(s, base);
    if c.err.Some? then Stopped(Outcome(c.site, Some(FtpError(c.err.value))))
    else if !distExists then Stopped(Outcome(c.site, Some(Exit(DistMissingMessage(distDir)))))
    else Ready(c.site, base)
  }

  /** deploy as written: every file starts with a CWD to the configured base
      path, which a relative path resolves against the previous file's
      directory. */
  function DeployedAsWritten(env: Env, distDir: string, distExists: bool, dist: seq<DistFile>,
                             s: Site, refusals: map<RPath, string>): Outcome
  {
    match Prepare(env, distDir, distExists, s)
    case Stopped(o) => o
    case Ready(s1, base) => UploadAll(s1, refusals, ByPath(base), dist)
  }

  /** deploy as intended: every file starts from the directory the first CWD
      reached. */
  function Deployed(env: Env, distDir: string, distExists: bool, dist: seq<DistFile>,
                    s: Site, refusals: map<RPath, string>): Outcome
  {
    match Prepare(env, distDir, distExists, s)
    case Stopped(o) => o
    case Ready(s1, base) => UploadAll(s1, refusals, ToDir(s1.cwd), dist)
  }

  /** One file of the loop on the session. */
  method UploadFile(ftp: FtpSession, home: RPath, f: DistFile) returns (err: Option<string>)
    requires ftp.Valid()
    modifies ftp
    ensures ftp.Valid()
    ensures Step(ftp.State(), err) == UploadOne(old(ftp.State()), ftp.refusals, ToDir(home), f)
  {
    err := ftp.CwdDir(home);
    if err.Some? {
      return;
    }
    err := EnsureRemoteDirs(ftp, f.rel);
    if err.Some? {
      return;
    }
    var name := LastComponent(f.rel);
    err := ftp.Stor(name, f.data);
  }

  method UploadFiles(ftp: FtpSession, home: RPath, dist: seq<DistFile>) returns (stop: Option<Stop>)
    requires ftp.Valid()
    modifies ftp
    ensures ftp.Valid()
    ensures Outcome(ftp.State(), stop) == UploadAll(old(ftp.State()), ftp.refusals, ToDir(home), dist)
  {
    var i := 0;
    while i < |dist|
      invariant 0 <= i <= |dist| && ftp.Valid()
      invariant UploadAll(ftp.State(), ftp.refusals, ToDir(home), dist[i..])
             == UploadAll(old(ftp.State()), ftp.refusals, ToDir(home), dist)
    {
      assert dist[i..][0] == dist[i] && dist[i..][1..] == dist[i + 1..];
      var err := UploadFile(ftp, home, dist[i]);
      if err.Some? {
        return Some(FtpError(err.value));
      }
      i := i + 1;
    }
    assert dist[i..] == [];
    stop := None;
  }

  /** deploy on the session. */
  method Deploy(env: Env, distDir: string, distExists: bool, dist: seq<DistFile>, ftp: FtpSession)
    returns (stop: Option<Stop>)
    requires ftp.Valid()
    modifies ftp
    ensures ftp.Valid()
    ensures Outcome(ftp.State(), stop) == Deployed(env, distDir, distExists, dist, old(ftp.State()), ftp.refusals)
  {
    var host := GetenvRequired(env, HostVar);
    if host.Fail? {
      return Some(host.stop);
    }
    var port := Port(env);
    if port.Fail? {
      return Some(port.stop);
    }
    var user := GetenvRequired(env, UserVar);
    if user.Fail? {
      return Some(user.stop);
    }
    var password := GetenvRequired(env, PassVar);
    if password.Fail? {
      return Some(password.stop);
    }
    var basedir := GetenvRequired(env, BaseDirVar);
    if basedir.Fail? {
      return Some(basedir.stop);
    }
    var base := BaseTarget(basedir.value);
    var err := ftp.Cwd(base);
    if err.Some? {
      return Some(FtpError(err.value));
    }
    if !distExists {
      return Some(Exit(DistMissingMessage(distDir)));
    }
    var home := ftp.cwd;
    stop := UploadFiles(ftp, home, dist);
  }

  // ------------------------------------------------------------ properties of deploy

  /** Without all four required variables the script never touches the server
      and stops with SystemExit or the port's ValueError; a missing host is
      reported first. */
  lemma MissingVariableStops(env: Env, distDir: string, distExists: bool, dist: seq<DistFile>,
                             s: Site, refusals: map<RPath, string>)
    requires exists v :: v in {HostVar, UserVar, PassVar, BaseDirVar} && GetenvRequired(env, v).Fail?
    ensures var r := Deployed(env, distDir, distExists, dist, s, refusals);
            r.site == s && r.stop.Some? && (r.stop.value.Exit? || r.stop.value.BadPort?)
            && (GetenvRequired(env, HostVar).Fail? ==> r.stop == Some(Exit(MissingMessage(HostVar))))
  {
  }

  /** Where a file lands: below the base directory, in its own directories,
      under its last component. */
  function UploadPath(base: RPath, rel: string): RPath
  {
    base + NonEmpty(DirParts(rel)) + [LastComponent(rel)]
  }

  /** Uploads only add: no file is removed and no directory disappears. */
  lemma {:induction false} UploadAllGrows(s: Site, refusals: map<RPath, string>, reset: Reset, dist: seq<DistFile>)
    ensures s.files.Keys <= UploadAll(s, refusals, reset, dist).site.files.Keys
    decreases |dist|
  {
    if dist != [] {
      var u := UploadOne(s, refusals, reset, dist[0]);
      UploadOneGrows(s, refusals, reset, dist[0]);
      if u.err.None? {
        UploadAllGrows(u.site, refusals, reset, dist[1..]);
      }
    }
  }

  lemma UploadOneGrows(s: Site, refusals: map<RPath, string>, reset: Reset, f: DistFile)
    ensures s.files.Keys <= UploadOne(s, refusals, reset, f).site.files.Keys
  {
    var c := ResetOn(s, reset);
    if c.err.None? {
      EnsureDirsCwd(c.site, refusals, DirParts(f.rel));
    }
  }

  /** A file that went up from the base directory is at its upload path. */
  lemma UploadOneLands(s: Site, refusals: map<RPath, string>, home: RPath, f: DistFile)
    requires UploadOne(s, refusals, ToDir(home), f).err.None?
    ensures UploadPath(home, f.rel) in UploadOne(s, refusals, ToDir(home), f).site.files
  {
    var c := CwdTo(s, home);
    EnsureDirsCwd(c.site, refusals, DirParts(f.rel));
  }

  /** When the loop finishes without an error, every file of dist/ is on the
      server at its path below the base directory: each upload starts from the
      base directory whatever the previous one did. */
  lemma {:induction false} UploadsLandUnderBase(s: Site, refusals: map<RPath, string>, home: RPath, dist: seq<DistFile>)
    ensures var r := UploadAll(s, refusals, ToDir(home), dist);
            r.stop.None? ==> forall k :: 0 <= k < |dist| ==> UploadPath(home, dist[k].rel) in r.site.files
    decreases |dist|
  {
    if dist != [] {
      var u := UploadOne(s, refusals, ToDir(home), dist[0]);
      if u.err.None? {
        var r := UploadAll(u.site, refusals, ToDir(home), dist[1..]);
        UploadOneLands(s, refusals, home, dist[0]);
        UploadAllGrows(u.site, refusals, ToDir(home), dist[1..]);
        UploadsLandUnderBase(u.site, refusals, home, dist[1..]);
        forall k | 0 <= k < |dist| && r.stop.None?
          ensures UploadPath(home, dist[k].rel) in r.site.files
        {
          if k > 0 {
            assert dist[k] == dist[1..][k - 1];
          }
        }
      }
    }
  }

  /** A run that completes has uploaded every file below the configured base
      directory. */
  lemma DeployLandsUnderBase(env: Env, distDir: string, distExists: bool, dist: seq<DistFile>,
                             s: Site, refusals: map<RPath, string>)
    ensures var r := Deployed(env, distDir, distExists, dist, s, refusals);
            r.stop.None? ==>
              BaseDirVar in env && distExists
              && forall k :: 0 <= k < |dist| ==>
                   UploadPath(CwdTarget(s.cwd, BaseTarget(env[BaseDirVar])), dist[k].rel) in r.site.files
  {
    match Prepare(env, distDir, distExists, s)
    case Stopped(o) =>
    case Ready(s1, base) =>
      assert BaseDirVar in env && s1.cwd == CwdTarget(s.cwd, BaseTarget(env[BaseDirVar])) by {
        ReadyBase(env, distDir, distExists, s);
      }
      UploadsLandUnderBase(s1, refusals, s1.cwd, dist);
  }

  /** With an absolute base directory, as the script's documentation gives
      it, naming the base path again for each file is the same as returning
      to the directory it led to. */
  lemma {:induction false} AbsoluteResetAgrees(s: Site, refusals: map<RPath, string>, base: string, dist: seq<DistFile>)
    requires StartsWith(base, "/")
    ensures UploadAll(s, refusals, ByPath(base), dist) == UploadAll(s, refusals, ToDir(Segments(base)), dist)
    decreases |dist|
  {
    if dist != [] {
      var u := UploadOne(s, refusals, ByPath(base), dist[0]);
      assert u == UploadOne(s, refusals, ToDir(Segments(base)), dist[0]);
      AbsoluteResetAgrees(u.site, refusals, base, dist[1..]);
    }
  }

  /** The script as written and as intended do the same for an absolute base
      directory. */
  lemma AbsoluteBaseAgrees(env: Env, distDir: string, distExists: bool, dist: seq<DistFile>,
                           s: Site, refusals: map<RPath, string>)
    requires BaseDirVar in env && StartsWith(env[BaseDirVar], "/")
    ensures DeployedAsWritten(env, distDir, distExists, dist, s, refusals)
         == Deployed(env, distDir, distExists, dist, s, refusals)
  {
    match Prepare(env, distDir, distExists, s)
    case Stopped(o) =>
    case Ready(s1, base) =>
      assert StartsWith(base, "/") && s1.cwd == Segments(base) by {
        ReadyBase(env, distDir, distExists, s);
      }
      AbsoluteResetAgrees(s1, refusals, base, dist);
  }

  /** After a successful preparation the session stands in the directory the
      base path names, resolved against the login directory. */
  lemma ReadyBase(env: Env, distDir: string, distExists: bool, s: Site)
    requires Prepare(env, distDir, distExists, s).Ready?
    ensures var p := Prepare(env, distDir, distExists, s);
            BaseDirVar in env && p.base == BaseTarget(env[BaseDirVar])
            && p.site.cwd == CwdTarget(s.cwd, p.base)
  {
    PrepareEnters(env, distDir, distExists, s);
  }

  /** A preparation that gets past the variables is the CWD into the base. */
  lemma PrepareEnters(env: Env, distDir: string, distExists: bool, s: Site)
    requires Prepare(env, distDir, distExists, s).Ready?
    ensures BaseDirVar in env
            && Prepare(env, distDir, distExists, s) == EnterBase(s, env[BaseDirVar], distDir, distExists)
  {
    var host, port := GetenvRequired(env, HostVar), Port(env);
    var user, password := GetenvRequired(env, UserVar), GetenvRequired(env, PassVar);
    assert host.Ok? && port.Ok? && user.Ok? && password.Ok?;
    assert GetenvRequired(env, BaseDirVar).Ok?;
  }

  /** The example of a relative base directory: the four required variables
      set, the base given as "dk-repo", a login directory "/" holding dk-repo,
      and one file to upload. */
  const ExampleEnv: Env := map[HostVar := "h", UserVar := "u", PassVar := "p", BaseDirVar := "dk-repo"]
  const ExampleSite := Site({[], ["dk-repo"]}, map[], [])
  const ExampleDist := [DistFile("addons.xml", Opaque(""))]

  /** A base directory without a trailing '/' is used as it is. */
  lemma BaseTargetPlain(basedir: string)
    requires basedir != "" && basedir[|basedir| - 1] != '/'
    ensures BaseTarget(basedir) == basedir
  {
    var t := RStripChar(basedir, '/');
    assert |t| == |basedir|;
  }

  /** With the variables set and a relative base that is a directory of the
      login directory, the script stands in that directory before the loop. */
  lemma PrepareRelative(env: Env, distDir: string, s: Site, base: string)
    requires GetenvRequired(env, HostVar).Ok? && GetenvRequired(env, UserVar).Ok?
    requires GetenvRequired(env, PassVar).Ok? && PortVar !in env
    requires BaseDirVar in env && env[BaseDirVar] == base
    requires base != "" && '/' !in base && s.cwd + [base] in s.dirs
    ensures Prepare(env, distDir, true, s) == Ready(s.(cwd := s.cwd + [base]), base)
  {
    BaseTargetPlain(base);
    RelativeName(s.cwd, base);
  }

  lemma ExamplePrepared()
    ensures Prepare(ExampleEnv, "dist", true, ExampleSite) == Ready(ExampleSite.(cwd := ["dk-repo"]), "dk-repo")
  {
    var env := ExampleEnv;
    assert PortVar !in env;
    assert env[HostVar] == "h" && env[UserVar] == "u" && env[PassVar] == "p" && env[BaseDirVar] == "dk-repo";
    assert [] + ["dk-repo"] == ["dk-repo"];
    PrepareRelative(env, "dist", ExampleSite, "dk-repo");
  }

  /** As written, a relative base is looked for below the directory it already
      led to, and the first file stops the run there. */
  lemma RelativeResetStops(s: Site, refusals: map<RPath, string>, base: string, dist: seq<DistFile>)
    requires dist != [] && base != "" && '/' !in base && s.cwd + [base] !in s.dirs
    ensures UploadAll(s, refusals, ByPath(base), dist) == Outcome(s, Some(FtpError(NoSuchReply)))
  {
    RelativeName(s.cwd, base);
  }

  /** From a base directory, a file at the top of dist/ goes up into it. */
  lemma TopFileUploads(s: Site, refusals: map<RPath, string>, dir: RPath, name: string, data: Blob)
    requires dir in s.dirs && '/' !in name && dir + [name] !in s.dirs
    ensures UploadAll(s, refusals, ToDir(dir), [DistFile(name, data)])
         == Outcome(s.(cwd := dir, files := s.files[dir + [name] := data]), None)
  {
    NameSegments(name);
    assert DirParts(name) == [] && LastComponent(name) == name;
    assert [DistFile(name, data)][1..] == [];
  }

  /** As written, the file's CWD to "dk-repo" is taken from dk-repo itself. */
  lemma ExampleAsWrittenStops()
    ensures UploadAll(ExampleSite.(cwd := ["dk-repo"]), map[], ByPath("dk-repo"), ExampleDist).stop
         == Some(FtpError(NoSuchReply))
  {
    var s1 := ExampleSite.(cwd := ["dk-repo"]);
    assert ["dk-repo"] + ["dk-repo"] !in s1.dirs;
    RelativeResetStops(s1, map[], "dk-repo", ExampleDist);
  }

  /** As intended, the file goes up into dk-repo. */
  lemma ExampleIntendedUploads()
    ensures var r := UploadAll(ExampleSite.(cwd := ["dk-repo"]), map[], ToDir(["dk-repo"]), ExampleDist);
            r.stop == None && ["dk-repo", "addons.xml"] in r.site.files
  {
    var s1 := ExampleSite.(cwd := ["dk-repo"]);
    assert ["dk-repo"] + ["addons.xml"] == ["dk-repo", "addons.xml"];
    assert ["dk-repo", "addons.xml"] !in s1.dirs;
    TopFileUploads(s1, map[], ["dk-repo"], "addons.xml", Opaque(""));
  }

  /** With the relative base directory "dk-repo" and one file, the script as
      written changes into dk-repo, then for the file tries dk-repo/dk-repo and
      stops with 550; the intended run uploads dk-repo/addons.xml. */
  lemma RelativeBaseBreaks()
    ensures DeployedAsWritten(ExampleEnv, "dist", true, ExampleDist, ExampleSite, map[]).stop == Some(FtpError(NoSuchReply))
    ensures var r := Deployed(ExampleEnv, "dist", true, ExampleDist, ExampleSite, map[]);
            r.stop == None && ["dk-repo", "addons.xml"] in r.site.files
  {
    ExamplePrepared();
    ExampleAsWrittenStops();
    ExampleIntendedUploads();
  }
}
