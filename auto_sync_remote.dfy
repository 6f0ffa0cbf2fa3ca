// The remote side of the new add-on's sync (auto_ftp_sync.py): creating the
// server folder structure, the favourites sync entry point with its result
// codes, and the add-on data exchange through a zip file.

module AutoSyncRemote {
  import opened Text
  import opened Storage
  import opened SyncBackend
  import opened AutoSyncConfig
  import opened AutoSync

  // ------------------------------------------------------------ ensure_remote_structure

  /** The server after ensuring a list of folders, and whether all exist. */
  datatype Ensure = Ensure(server: Server, ok: bool)

  /** One folder of `ensure_remote_structure`'s loop: an existing folder is
      kept; otherwise ensure_folder runs, and the folder must exist afterwards. */
  function EnsureStep(b: Backend, sv: Server, path: string): Ensure
  {
    if FolderExists(b, sv, path) then Ensure(sv, true)
    else
      var sv1 := Ensured(b, sv, path);
      Ensure(sv1, FolderExists(b, sv1, path))
  }

  /** The loop of `ensure_remote_structure`, which stops with False at the
      first folder that still does not exist. */
  function EnsureAll(b: Backend, sv: Server, paths: seq<string>): Ensure
    decreases |paths|
  {
    if |paths| == 0 then Ensure(sv, true)
    else
      var e := EnsureStep(b, sv, paths[0]);
      if e.ok then EnsureAll(b, e.server, paths[1..]) else e
  }

  /** A step only adds directories, and True means the folder exists. */
  lemma EnsureStepGrows(b: Backend, sv: Server, path: string)
    ensures var e := EnsureStep(b, sv, path);
            e.server.files == sv.files && e.server.online == sv.online && sv.dirs <= e.server.dirs
            && (e.ok <==> FolderExists(b, e.server, path))
  {
  }

  /** Ensuring folders never touches the server's files and only adds directories. */
  lemma {:induction false} EnsureAllGrows(b: Backend, sv: Server, paths: seq<string>)
    ensures var e := EnsureAll(b, sv, paths);
            e.server.files == sv.files && e.server.online == sv.online && sv.dirs <= e.server.dirs
    decreases |paths|
  {
    if |paths| > 0 {
      EnsureStepGrows(b, sv, paths[0]);
      var e := EnsureStep(b, sv, paths[0]);
      if e.ok {
        EnsureAllGrows(b, e.server, paths[1..]);
      }
    }
  }

  /** The first folder exists after its step and the rest after theirs, and
      the later steps only add directories. */
  lemma SoundCons(b: Backend, sv1: Server, paths: seq<string>, e: Ensure)
    requires |paths| > 0 && FolderExists(b, sv1, paths[0])
    requires sv1.dirs <= e.server.dirs && e.server.online == sv1.online
    requires e.ok ==> forall k :: 0 <= k < |paths[1..]| ==> FolderExists(b, e.server, paths[1..][k])
    ensures e.ok ==> forall k :: 0 <= k < |paths| ==> FolderExists(b, e.server, paths[k])
  {
    if e.ok {
      AllCons(paths, p => FolderExists(b, e.server, p));
    }
  }

  lemma AllCons(xs: seq<string>, holds: string -> bool)
    requires |xs| > 0 && holds(xs[0])
    requires forall k :: 0 <= k < |xs[1..]| ==> holds(xs[1..][k])
    ensures forall k :: 0 <= k < |xs| ==> holds(xs[k])
  {
    forall k | 0 < k < |xs|
      ensures holds(xs[k])
    {
      assert xs[1..][k - 1] == xs[k];
    }
  }

  /** True means every folder of the list exists on the server afterwards. */
  lemma {:induction false} EnsureAllSound(b: Backend, sv: Server, paths: seq<string>)
    ensures var e := EnsureAll(b, sv, paths);
            e.ok ==> forall k :: 0 <= k < |paths| ==> FolderExists(b, e.server, paths[k])
    decreases |paths|
  {
    if |paths| > 0 {
      var rest := paths[1..];
      EnsureStepGrows(b, sv, paths[0]);
      var e1 := EnsureStep(b, sv, paths[0]);
      if e1.ok {
        EnsureAllSound(b, e1.server, rest);
        EnsureAllGrows(b, e1.server, rest);
        var e := EnsureAll(b, e1.server, rest);
        SoundCons(b, e1.server, paths, e);
      }
    }
  }

  /** On a reachable server whose directory tree is closed and where no file
      stands on any of the folders' paths, every folder gets created. */
  lemma {:induction false} EnsureAllSucceeds(b: Backend, sv: Server, paths: seq<string>)
    requires DirsClosed(sv.dirs) && sv.online
    requires forall k :: 0 <= k < |paths| ==> NoFileOnPath(sv.files.Keys, Target(b, paths[k]))
    ensures EnsureAll(b, sv, paths).ok
    decreases |paths|
  {
    if |paths| > 0 {
      EnsureStepGrows(b, sv, paths[0]);
      var e1 := EnsureStep(b, sv, paths[0]);
      if !FolderExists(b, sv, paths[0]) {
        EnsuredCreatesFolder(b, sv, paths[0]);
        EnsuredKeepsClosed(b, sv, paths[0]);
      }
      assert e1.ok && DirsClosed(e1.server.dirs);
      forall k | 0 <= k < |paths[1..]|
        ensures NoFileOnPath(e1.server.files.Keys, Target(b, paths[1..][k]))
      {
        assert paths[1..][k] == paths[k + 1];
      }
      EnsureAllSucceeds(b, e1.server, paths[1..]);
    }
  }

  /** An unreachable server makes the first folder fail and changes nothing. */
  lemma EnsureAllOffline(b: Backend, sv: Server, paths: seq<string>)
    requires !sv.online && |paths| > 0
    ensures EnsureAll(b, sv, paths) == Ensure(sv, false)
  {
  }

  /** One folder, with ensure_folder on the server. */
  method EnsureOne(b: Backend, r: Remote, path: string) returns (ok: bool)
    requires (b.Ftp? ==> StartsWith(b.basePath, "/")) && r.Valid()
    modifies r
    ensures r.Valid() && Ensure(r.State(), ok) == EnsureStep(b, old(r.State()), path)
  {
    ok := FolderExists(b, r.State(), path);
    if !ok {
      ok := EnsureFolder(b, r, path);
    }
  }

  /** The loop over the folders. */
  method EnsureFolders(b: Backend, r: Remote, paths: seq<string>) returns (ok: bool)
    requires (b.Ftp? ==> StartsWith(b.basePath, "/")) && r.Valid()
    modifies r
    ensures r.Valid() && Ensure(r.State(), ok) == EnsureAll(b, old(r.State()), paths)
  {
    ghost var sv0 := r.State();
    var i := 0;
    while i < |paths|
      invariant 0 <= i <= |paths| && r.Valid()
      invariant EnsureAll(b, r.State(), paths[i..]) == EnsureAll(b, sv0, paths)
    {
      assert paths[i..][1..] == paths[i + 1..];
      ok := EnsureOne(b, r, paths[i]);
      if !ok {
        return;
      }
      i := i + 1;
    }
    ok := true;
  }

  /** The backend of a job is as `get_backend` builds it: an FTP base path
      starts with '/'. */
  predicate Built(j: Job)
  {
    j.backend.Some? && j.backend.value.Ftp? ==> StartsWith(j.backend.value.basePath, "/")
  }

  /** Every job read from the settings is built that way. */
  lemma JobOfBuilt(s: KodiSettings.Store)
    ensures Built(JobOf(s))
  {
  }

  /** `_remote_path(CUSTOM_FOLDER)`. */
  function MainFolder(j: Job): string
  {
    RemotePathOf(j.basePath, [j.custom])
  }

  /** The main folder, then each static folder inside it: `[main_folder] +
      [_remote_path(CUSTOM_FOLDER, f) for f in STATIC_FOLDERS]`. */
  function StructurePaths(j: Job): (ps: seq<string>)
    ensures |ps| == |j.folders| + 1 && ps[0] == MainFolder(j)
    ensures forall k :: 0 <= k < |j.folders| ==> ps[k + 1] == RemotePathOf(j.basePath, [j.custom, j.folders[k]])
  {
    [MainFolder(j)] + seq(|j.folders|, k requires 0 <= k < |j.folders| => RemotePathOf(j.basePath, [j.custom, j.folders[k]]))
  }

  /** The server after a call, and how the call ended. */
  datatype Checked = Checked(server: Server, outcome: Outcome)

  /** `ensure_remote_structure`: True without a custom folder or a connection;
      raises when the backend cannot be built; otherwise the loop's result. */
  function StructureChecked(j: Job, sv: Server): Checked
  {
    if j.custom == "" || !j.connected then Checked(sv, Returned(true))
    else match j.backend
      case None => Checked(sv, Raised)
      case Some(b) =>
        var e := EnsureAll(b, sv, StructurePaths(j));
        Checked(e.server, Returned(e.ok))
  }

  /** When the structure is reported present, the main folder and every static
      folder exist on the server. */
  lemma StructureReportedExists(j: Job, sv: Server)
    requires j.custom != "" && j.connected && j.backend.Some?
    ensures var c := StructureChecked(j, sv);
            c.outcome == Returned(true) ==>
              FolderExists(j.backend.value, c.server, MainFolder(j))
              && forall k :: 0 <= k < |j.folders| ==>
                   FolderExists(j.backend.value, c.server, RemotePathOf(j.basePath, [j.custom, j.folders[k]]))
  {
    var ps := StructurePaths(j);
    EnsureAllSound(j.backend.value, sv, ps);
    var c := StructureChecked(j, sv);
    if c.outcome == Returned(true) {
      assert FolderExists(j.backend.value, c.server, ps[0]);
      forall k | 0 <= k < |j.folders|
        ensures FolderExists(j.backend.value, c.server, RemotePathOf(j.basePath, [j.custom, j.folders[k]]))
      {
        assert FolderExists(j.backend.value, c.server, ps[k + 1]);
      }
    }
  }

  /** On a reachable, well-formed server with no file in the way, the structure
      is created. */
  lemma StructureCreated(j: Job, sv: Server)
    requires j.custom != "" && j.connected && j.backend.Some?
    requires DirsClosed(sv.dirs) && sv.online
    requires forall k :: 0 <= k < |StructurePaths(j)| ==>
               NoFileOnPath(sv.files.Keys, Target(j.backend.value, StructurePaths(j)[k]))
    ensures StructureChecked(j, sv).outcome == Returned(true)
  {
    EnsureAllSucceeds(j.backend.value, sv, StructurePaths(j));
  }

  method EnsureRemoteStructure(j: Job, r: Remote) returns (out: Outcome)
    requires Built(j) && r.Valid()
    modifies r
    ensures r.Valid() && Checked(r.State(), out) == StructureChecked(j, old(r.State()))
  {
    if j.custom == "" || !j.connected {
      return Returned(true);
    }
    var backend := j.backend;
    if backend.None? {
      return Raised;
    }
    var paths := StructurePaths(j);
    var ok := EnsureFolders(backend.value, r, paths);
    out := Returned(ok);
  }

  // ------------------------------------------------------------ connection label

  /** A Python dictionary key: an int or a str never compare equal. */
  datatype PyKey = IntKey(i: int) | StrKey(s: string)

  /** `{0: 'FTP', 1: 'SFTP', 2: 'SMB'}.get(key, 'FTP')`. */
  function CtMapGet(key: PyKey): (name: string)
    ensures key.StrKey? ==> name == "FTP"
    ensures key == IntKey(1) ==> name == "SFTP"
    ensures key == IntKey(2) ==> name == "SMB"
  {
    match key
    case IntKey(i) => if i == 1 then "SFTP" else if i == 2 then "SMB" else "FTP"
    case StrKey(_) => "FTP"
  }

  /** The label `sync_favourites` reports, as written: the profile's type is a
      name such as 'sftp', looked up among int keys. */
  function ConnectionLabelAsWritten(connectionType: string): string
  {
    CtMapGet(StrKey(connectionType))
  }

  /** The index the profile's type name came from. */
  function TypeIndexOf(connectionType: string): (index: int)
    ensures TypeName(index) == connectionType || (connectionType != "sftp" && connectionType != "smb" && index == 0)
  {
    if connectionType == "sftp" then 1 else if connectionType == "smb" then 2 else 0
  }

  /** The label looked up by the type's index, as the int-keyed map intends. */
  function ConnectionLabel(connectionType: string): string
  {
    CtMapGet(IntKey(TypeIndexOf(connectionType)))
  }

  /** As written, an SFTP connection is reported as FTP. */
  lemma LabelAsWrittenMisnamesSftp()
    ensures ConnectionLabelAsWritten("sftp") == "FTP" && ConnectionLabel("sftp") == "SFTP"
  {
  }

  /** The corrected label names the transport the active backend uses. */
  lemma ConnectionLabelNamesBackend(s: KodiSettings.Store)
    requires ActiveBackend(s).Some?
    ensures var name := ConnectionLabel(ActiveProfile(s).connectionType);
            var b := ActiveBackend(s).value;
            (b.Ftp? ==> name == "FTP") && (b.Sftp? ==> name == "SFTP") && (b.Smb? ==> name == "SMB")
  {
    ActiveBackendKind(s);
  }

  // ------------------------------------------------------------ sync_favourites

  /** The extra values of a sync_favourites result. */
  datatype Args = NoArgs | PathArg(path: string) | FolderArg(folder: string)
                | SyncedArgs(connection: string, local: string, remote: string) | ErrorArg

  /** The world after sync_favourites, its success flag, message id and values. */
  datatype Reply = Reply(world: World, ok: bool, code: int, args: Args)

  /** `os.path.dirname(LOCAL_FAVOURITES) or LOCAL_FAVOURITES`. */
  function LocalLabel(l: Layout): string
  {
    if l.userdataDir != "" then l.userdataDir else l.fav
  }

  /** `sync_favourites`, with the corrected connection label.  Without a
      connection only the local backup is made (30220, or 30028 when there is
      no favourites.xml); without a custom folder 30022; a backend that cannot
      be built 30315; a failed structure 30146; a missing main folder 30023;
      otherwise the standard and static syncs run and the result is 30314 when
      either reports success, 30028 otherwise. */
  function FavouritesSynced(j: Job, l: Layout, w: World): Reply
  {
    if !j.connected then
      if l.fav in w.files then Reply(w.(files := BackedUp(l, w.files)), true, 30220, PathArg(l.bak))
      else Reply(w, false, 30028, NoArgs)
    else if j.custom == "" then Reply(w, false, 30022, NoArgs)
    else match j.backend
      case None => Reply(w, false, 30315, ErrorArg)
      case Some(b) => StructuredSync(j, b, l, w, EnsureAll(b, w.server, StructurePaths(j)))
  }

  /** After ensure_remote_structure has answered e. */
  function StructuredSync(j: Job, b: Backend, l: Layout, w: World, e: Ensure): Reply
  {
    var w1 := w.(server := e.server);
    if !e.ok then Reply(w1, false, 30146, NoArgs)
    else if !FolderExists(b, e.server, MainFolder(j)) then Reply(w1, false, 30023, FolderArg(j.custom))
    else FavouritesRounds(j, l, w1)
  }

  /** The standard and the static sync, and the reply they lead to. */
  function FavouritesRounds(j: Job, l: Layout, w: World): (r: Reply)
    ensures r.code == 30314 || r.code == 30028
    ensures r.ok <==> r.code == 30314
  {
    var std := StandardSynced(j, l, w);
    var stat := StaticSynced(j, l, std.world);
    if std.outcome == Returned(true) || stat.outcome == Returned(true) then
      Reply(stat.world, true, 30314, SyncedArgs(ConnectionLabelAsWritten(j.connectionType), LocalLabel(l), MainFolder(j)))
    else Reply(stat.world, false, 30028, NoArgs)
  }

  /** The "main folder missing" reply 30023 is never given: a structure
      reported present includes the main folder. */
  lemma FavouritesNeverMissingFolder(j: Job, l: Layout, w: World)
    ensures FavouritesSynced(j, l, w).code != 30023
  {
    if j.connected && j.custom != "" && j.backend.Some? {
      StructureReportedExists(j, w.server);
    }
  }

  /** Without a connection the server is left alone, and the only change is the
      backup copy of favourites.xml, made exactly when it exists. */
  lemma FavouritesWithoutConnection(j: Job, l: Layout, w: World)
    requires !j.connected
    ensures var r := FavouritesSynced(j, l, w);
            r.world.server == w.server && r.world.dirs == w.dirs
            && (r.ok <==> l.fav in w.files)
            && (r.ok ==> r.world.files == w.files[l.bak := w.files[l.fav]])
            && (!r.ok ==> r.world == w)
  {
  }

  /** Once the structure is in place, configured static folders make the sync
      succeed, whatever the standard favourites' upload does. */
  lemma FavouritesStaticFoldersSucceed(j: Job, l: Layout, w: World)
    requires j.connected && j.custom != "" && j.backend.Some? && |j.folders| > 0
    requires EnsureAll(j.backend.value, w.server, StructurePaths(j)).ok
    ensures FavouritesSynced(j, l, w).ok && FavouritesSynced(j, l, w).code == 30314
  {
    StructureReportedExists(j, w.server);
  }

  /** On a reachable server with a closed tree and no file in the way, a job
      with static folders always succeeds. */
  lemma FavouritesSucceedOnline(j: Job, l: Layout, w: World)
    requires j.connected && j.custom != "" && j.backend.Some? && |j.folders| > 0
    requires DirsClosed(w.server.dirs) && w.server.online
    requires forall k :: 0 <= k < |StructurePaths(j)| ==>
               NoFileOnPath(w.server.files.Keys, Target(j.backend.value, StructurePaths(j)[k]))
    ensures FavouritesSynced(j, l, w).code == 30314
  {
    EnsureAllSucceeds(j.backend.value, w.server, StructurePaths(j));
    FavouritesStaticFoldersSucceed(j, l, w);
  }

  method SyncFavourites(j: Job, l: Layout, d: Disk, r: Remote) returns (ok: bool, code: int, args: Args)
    requires Built(j) && r.Valid()
    modifies d, r
    ensures r.Valid()
    ensures Reply(World(d.files, d.dirs, r.State()), ok, code, args)
         == FavouritesSynced(j, l, World(old(d.files), old(d.dirs), old(r.State())))
  {
    if !j.connected {
      if l.fav in d.files {
        d.files := d.files[l.bak := d.files[l.fav]];
        return true, 30220, PathArg(l.bak);
      }
      return false, 30028, NoArgs;
    }
    if j.custom == "" {
      return false, 30022, NoArgs;
    }
    var structure := EnsureRemoteStructure(j, r);
    if structure.Raised? {
      return false, 30315, ErrorArg;
    }
    if !structure.ok {
      return false, 30146, NoArgs;
    }
    var b := j.backend.value;
    var main := RemotePath(j.basePath, [j.custom]);
    if !FolderExists(b, r.State(), main) {
      return false, 30023, FolderArg(j.custom);
    }
    var std := SyncStandardFavourites(j, l, d, r);
    var stat := SyncStaticFavourites(j, l, d, r);
    if std == Returned(true) || stat == Returned(true) {
      var local := if l.userdataDir != "" then l.userdataDir else l.fav;
      return true, 30314, SyncedArgs(ConnectionLabelAsWritten(j.connectionType), local, main);
    }
    return false, 30028, NoArgs;
  }

  // ------------------------------------------------------------ sync_addon_data

  /** How sync_addon_data ends: it returns False (skipped), returns None, or raises. */
  datatype AddonEnd = Skipped | Done | Failed

  /** The world after sync_addon_data, how it ended and the notifications shown. */
  datatype AddonRun = AddonRun(world: World, end: AddonEnd, notes: seq<int>)

  /** `_remote_path(CUSTOM_FOLDER, 'addon_data.zip')`. */
  function AddonZipRemote(j: Job): string
  {
    RemotePathOf(j.basePath, [j.custom, "addon_data.zip"])
  }

  /** The entry name that a path under base stands for, if any. */
  function EntryOf(base: string, p: string): (r: Option<string>)
    ensures r.Some? ==> p == base + "/" + r.value
  {
    var pre := base + "/";
    if |pre| <= |p| && p[..|pre|] == pre then Some(p[|pre|..]) else None
  }

  lemma EntryOfEntryPath(base: string, n: string)
    ensures EntryOf(base, base + "/" + n) == Some(n)
  {
    var pre := base + "/";
    assert base + "/" + n == pre + n;
    assert (pre + n)[..|pre|] == pre;
    assert (pre + n)[|pre|..] == n;
  }

  /** `zipfile.extractall(base)`: every entry becomes the file `base/name`,
      replacing what was there; every other file stays. */
  function Extracted(files: map<string, Blob>, base: string, entries: map<string, string>): (r: map<string, Blob>)
    ensures forall n :: n in entries ==> base + "/" + n in r && r[base + "/" + n] == Opaque(entries[n])
    ensures forall p :: p in files ==> p in r
    ensures forall p :: p in r && p !in files ==> exists n :: n in entries && p == base + "/" + n
    ensures forall p :: p in files && (forall n :: n in entries ==> p != base + "/" + n) ==> r[p] == files[p]
  {
    forall n | n in entries
      ensures EntryOf(base, base + "/" + n) == Some(n)
    {
      EntryOfEntryPath(base, n);
    }
    var keys := files.Keys + (set n | n in entries :: base + "/" + n);
    map p | p in keys ::
      var e := EntryOf(base, p);
      if e.Some? && e.value in entries then Opaque(entries[e.value])
      else if p in files then files[p]
      else Opaque("")
  }

  /** The main system's branch: zip addon_data (what create_zip leaves at the
      zip path is `made`, None when it fails before creating the file), upload
      the zip and delete it only when the upload succeeded. */
  function AddonUploaded(b: Backend, l: Layout, made: Option<Blob>, w: World, remote: string): AddonRun
  {
    if l.addonData !in w.files && l.addonData !in w.dirs then AddonRun(w, Done, [])
    else
      var files := if made.Some? then w.files[l.localZip := made.value] else w.files;
      if l.localZip !in files then AddonRun(w.(files := files), Done, [])
      else if CanUpload(b, files, w.server, l.localZip, remote) then
        AddonRun(World(files - {l.localZip}, w.dirs, Uploaded(b, files, w.server, l.localZip, remote)), Done, [30020])
      else AddonRun(w.(files := files), Done, [30029])
  }

  /** A secondary system's branch: download the zip, extract it into addon_data
      when it is an archive, delete it; a failed download is only reported. */
  function AddonDownloaded(b: Backend, l: Layout, w: World, remote: string): AddonRun
  {
    var files := Downloaded(b, w.files, w.server, remote, l.localZip);
    if CanDownload(b, w.server, remote) then AddonRun(w.(files := Unpacked(files, l)), Done, [30025])
    else AddonRun(w.(files := files), Done, [30021])
  }

  /** The downloaded zip extracted into addon_data when it is an archive, and
      deleted. */
  function Unpacked(files: map<string, Blob>, l: Layout): map<string, Blob>
    requires l.localZip in files
  {
    var extracted := match files[l.localZip]
      case Archive(entries) => Extracted(files, l.addonData, entries)
      case _ => files;
    extracted - {l.localZip}
  }

  /** `sync_addon_data`. */
  function AddonSynced(j: Job, l: Layout, made: Option<Blob>, w: World): AddonRun
  {
    if !j.addonSync || (j.custom == "" && !j.isMain) then AddonRun(w, Skipped, [])
    else match j.backend
      case None => AddonRun(w, Failed, [])
      case Some(b) => AddonTransferred(j.isMain, b, l, made, w, MainFolder(j), AddonZipRemote(j))
  }

  /** Once a backend is known: a missing server folder is reported, otherwise
      the main system uploads and a secondary system downloads. */
  function AddonTransferred(isMain: bool, b: Backend, l: Layout, made: Option<Blob>, w: World,
                            main: string, remote: string): AddonRun
  {
    if !FolderExists(b, w.server, main) then AddonRun(w, Skipped, [30123])
    else if isMain then AddonUploaded(b, l, made, w, remote)
    else AddonDownloaded(b, l, w, remote)
  }

  /** The upload never changes a local file other than the zip, and the zip
      found before is gone afterwards only when the upload succeeded. */
  lemma AddonUploadKeepsLocalData(b: Backend, l: Layout, made: Option<Blob>, w: World, remote: string)
    ensures var r := AddonUploaded(b, l, made, w, remote);
            r.world.dirs == w.dirs
            && (forall p :: p != l.localZip ==> (p in r.world.files <==> p in w.files))
            && (forall p :: p != l.localZip && p in w.files ==> r.world.files[p] == w.files[p])
            && (l.localZip in w.files && l.localZip !in r.world.files ==> r.notes == [30020])
  {
    var r := AddonUploaded(b, l, made, w, remote);
    var z := l.localZip;
    if l.addonData in w.files || l.addonData in w.dirs {
      var files := if made.Some? then w.files[z := made.value] else w.files;
      SameExceptAfterMake(w.files, made, z);
      if z in files && CanUpload(b, files, w.server, z, remote) {
        assert r.world.files == files - {z} && r.notes == [30020];
        SameExceptRemove(w.files, files, z);
      } else {
        assert r.world.files == files && (z in w.files ==> z in files);
      }
    } else {
      assert r.world == w;
    }
  }

  /** Two local file maps that agree on every path other than z. */
  ghost predicate SameExcept(a: map<string, Blob>, c: map<string, Blob>, z: string)
  {
    (forall p :: p != z ==> (p in c <==> p in a))
    && (forall p :: p != z && p in a ==> c[p] == a[p])
  }

  lemma SameExceptAfterMake(a: map<string, Blob>, made: Option<Blob>, z: string)
    ensures SameExcept(a, if made.Some? then a[z := made.value] else a, z)
  {
  }

  lemma SameExceptRemove(a: map<string, Blob>, c: map<string, Blob>, z: string)
    requires SameExcept(a, c, z)
    ensures SameExcept(a, c - {z}, z)
  {
  }

  /** With addon_data present and a zip made: a successful upload puts the zip
      on the server and deletes it locally; a failed one keeps it and leaves the
      server as it was. */
  lemma AddonUploadEffect(b: Backend, l: Layout, zipped: Blob, w: World, remote: string)
    requires l.addonData in w.files || l.addonData in w.dirs
    ensures var r := AddonUploaded(b, l, Some(zipped), w, remote);
            var files := w.files[l.localZip := zipped];
            r.end == Done
            && (CanUpload(b, files, w.server, l.localZip, remote) ==>
                  r.notes == [30020] && l.localZip !in r.world.files
                  && r.world.server.files[Target(b, remote)] == zipped)
            && (!CanUpload(b, files, w.server, l.localZip, remote) ==>
                  r.notes == [30029] && r.world.files == files && r.world.server == w.server)
  {
  }

  /** A secondary system never writes to the server. */
  lemma AddonSecondaryOnlyReads(j: Job, l: Layout, made: Option<Blob>, w: World)
    requires !j.isMain
    ensures AddonSynced(j, l, made, w).world.server == w.server
  {
  }

  /** A downloaded archive's entries land under addon_data and the zip is
      gone; a failed download leaves every file but the zip path as it was. */
  lemma AddonDownloadEffect(b: Backend, l: Layout, w: World, remote: string)
    ensures var r := AddonDownloaded(b, l, w, remote);
            var t := Target(b, remote);
            r.end == Done && r.world.server == w.server && r.world.dirs == w.dirs
            && (CanDownload(b, w.server, remote) ==>
                  r.notes == [30025] && l.localZip !in r.world.files
                  && (w.server.files[t].Archive? ==>
                        forall n :: n in w.server.files[t].entries && l.addonData + "/" + n != l.localZip ==>
                          l.addonData + "/" + n in r.world.files
                          && r.world.files[l.addonData + "/" + n] == Opaque(w.server.files[t].entries[n])))
            && (!CanDownload(b, w.server, remote) ==>
                  r.notes == [30021]
                  && (forall p :: p != l.localZip ==>
                        (p in r.world.files <==> p in w.files) && (p in w.files ==> r.world.files[p] == w.files[p])))
  {
    var z := l.localZip;
    var files := Downloaded(b, w.files, w.server, remote, z);
    if CanDownload(b, w.server, remote) {
      assert files[z] == w.server.files[Target(b, remote)];
      UnpackedEntries(files, l);
    } else {
      assert SameExcept(w.files, files, z);
    }
  }

  /** An archive's entries land under addon_data, and the zip is gone. */
  lemma UnpackedEntries(files: map<string, Blob>, l: Layout)
    requires l.localZip in files
    ensures var u := Unpacked(files, l);
            l.localZip !in u
            && (files[l.localZip].Archive? ==>
                  forall n :: n in files[l.localZip].entries && l.addonData + "/" + n != l.localZip ==>
                    l.addonData + "/" + n in u && u[l.addonData + "/" + n] == Opaque(files[l.localZip].entries[n]))
  {
  }

  /** The main system's branch on the disk and the server. */
  method UploadAddonData(b: Backend, l: Layout, made: Option<Blob>, d: Disk, r: Remote, remote: string)
    returns (notes: seq<int>)
    requires r.Valid()
    modifies d, r
    ensures r.Valid()
    ensures AddonRun(World(d.files, d.dirs, r.State()), Done, notes)
         == AddonUploaded(b, l, made, World(old(d.files), old(d.dirs), old(r.State())), remote)
  {
    notes := [];
    if l.addonData in d.files || l.addonData in d.dirs {
      if made.Some? {
        d.files := d.files[l.localZip := made.value];
      }
      if l.localZip in d.files {
        var ok := Upload(b, d, r, l.localZip, remote);
        if ok {
          d.files := d.files - {l.localZip};
          notes := [30020];
        } else {
          notes := [30029];
        }
      }
    }
  }

  /** A secondary system's branch on the disk. */
  method DownloadAddonData(b: Backend, l: Layout, d: Disk, r: Remote, remote: string) returns (notes: seq<int>)
    modifies d
    ensures AddonRun(World(d.files, d.dirs, r.State()), Done, notes)
         == AddonDownloaded(b, l, World(old(d.files), old(d.dirs), r.State()), remote)
  {
    var ok := Download(b, d, r, remote, l.localZip);
    if ok {
      Unpack(d, l);
      return [30025];
    }
    return [30021];
  }

  method Unpack(d: Disk, l: Layout)
    requires l.localZip in d.files
    modifies d
    ensures d.dirs == old(d.dirs) && d.files == Unpacked(old(d.files), l)
  {
    match d.files[l.localZip] {
      case Archive(entries) =>
        d.files := Extracted(d.files, l.addonData, entries);
      case _ =>
    }
    d.files := d.files - {l.localZip};
  }

  method SyncAddonData(j: Job, l: Layout, made: Option<Blob>, d: Disk, r: Remote) returns (end: AddonEnd, notes: seq<int>)
    requires r.Valid()
    modifies d, r
    ensures r.Valid()
    ensures AddonRun(World(d.files, d.dirs, r.State()), end, notes)
         == AddonSynced(j, l, made, World(old(d.files), old(d.dirs), old(r.State())))
  {
    if !j.addonSync || (j.custom == "" && !j.isMain) {
      return Skipped, [];
    }
    var remote := RemotePath(j.basePath, [j.custom, "addon_data.zip"]);
    var backend := j.backend;
    if backend.None? {
      return Failed, [];
    }
    var main := RemotePath(j.basePath, [j.custom]);
    end, notes := TransferAddonData(j.isMain, backend.value, l, made, d, r, main, remote);
  }

  method TransferAddonData(isMain: bool, b: Backend, l: Layout, made: Option<Blob>, d: Disk, r: Remote,
                           main: string, remote: string) returns (end: AddonEnd, notes: seq<int>)
    requires r.Valid()
    modifies d, r
    ensures r.Valid()
    ensures AddonRun(World(d.files, d.dirs, r.State()), end, notes)
         == AddonTransferred(isMain, b, l, made, World(old(d.files), old(d.dirs), old(r.State())), main, remote)
  {
    if !FolderExists(b, r.State(), main) {
      return Skipped, [30123];
    }
    end := Done;
    if isMain {
      notes := UploadAddonData(b, l, made, d, r, remote);
    } else {
      notes := DownloadAddonData(b, l, d, r, remote);
    }
  }
}
