// The older add-on plugin.program.auto.ftp.sync (its auto_ftp_sync.py): the
// same server layout without lower-casing, one-way favourites sync (the main
// system uploads, every other system downloads) and the add-on data zip
// without a server folder check.  Its settings are read once, at import.

module LegacySync {
  import opened Text
  import opened Storage
  import PosixPath
  import opened KodiSettings
  import opened SyncBackend
  import opened AutoSyncConfig
  import opened AutoSync
  import opened AutoSyncRemote

  /** The older add-on's id, under which its static favourites live. */
  const LegacyAddonId := "plugin.program.auto.ftp.sync"

  // ------------------------------------------------------------ settings

  /** `int(text or '0')`; None where int() raises. */
  function IntOrZero(text: string): Option<int>
  {
    ParseInt(if text == "" then "0" else text)
  }

  /** The key of one profile field: profile 0 uses the historic unprefixed
      names, profiles 1 and 2 the prefixes `profile_2_` and `profile_3_`. */
  function LegacyKey(index: int, name: string): string
  {
    if index == 1 then "profile_2_" + name
    else if index == 2 then "profile_3_" + name
    else if name == "host" || name == "user" || name == "pass" || name == "base_path" then "ftp_" + name
    else name
  }

  /** The settings of profile 0, 1 or 2; None where the type is not a number. */
  function LegacyProfileAt(s: Store, index: int): (p: Option<Profile>)
    ensures p.Some? <==> IntOrZero(Raw(s, LegacyKey(index, "connection_type"))).Some?
    ensures p.Some? ==> p.value.connectionType == TypeName(IntOrZero(Raw(s, LegacyKey(index, "connection_type"))).value)
  {
    match IntOrZero(Raw(s, LegacyKey(index, "connection_type")))
    case None => None
    case Some(ct) =>
      var port := Raw(s, LegacyKey(index, "sftp_port"));
      Some(Profile(TypeName(ct), Raw(s, LegacyKey(index, "host")), Raw(s, LegacyKey(index, "user")),
                   Raw(s, LegacyKey(index, "pass")), Raw(s, LegacyKey(index, "base_path")),
                   if port == "" then "22" else port))
  }

  /** `_get_active_profile_settings`: profile `active_profile`, with anything
      outside 0..2 read as 0; None where a number setting raises. */
  function LegacyProfile(s: Store): Option<Profile>
  {
    match IntOrZero(Raw(s, "active_profile"))
    case None => None
    case Some(idx) => LegacyProfileAt(s, if 0 <= idx <= 2 then idx else 0)
  }

  /** An active profile outside 0..2 reads profile 0, with the unprefixed keys. */
  lemma LegacyProfileOutOfRange(s: Store, idx: int)
    requires IntOrZero(Raw(s, "active_profile")) == Some(idx) && !(0 <= idx <= 2)
    ensures LegacyProfile(s) == LegacyProfileAt(s, 0)
    ensures LegacyKey(0, "host") == "ftp_host" && LegacyKey(0, "connection_type") == "connection_type"
  {
  }

  /** Profiles 1 and 2 read the prefixed keys. */
  lemma LegacyProfileKeys(name: string)
    ensures LegacyKey(1, name) == "profile_2_" + name && LegacyKey(2, name) == "profile_3_" + name
  {
  }

  /** A stored type index 0/1/2 gives ftp/sftp/smb, any other number ftp. */
  lemma LegacyTypeOfIndex(s: Store, index: int, t: int)
    requires Raw(s, LegacyKey(index, "connection_type")) == IntToString(t)
    ensures LegacyProfileAt(s, index).Some?
    ensures LegacyProfileAt(s, index).value.connectionType == (if t == 1 then "sftp" else if t == 2 then "smb" else "ftp")
  {
    ParseIntOfIntToString(t);
    assert IntToString(t) != "" by {
      assert |IntToString(t)| > 0;
    }
  }

  /** What the older add-on's sync reads at import: the main-system flag, the
      static overwrite flag, the custom and the specific folder, the static
      folders, the add-on data flag, the backend (None where reading the
      profile or building the backend raises) and the base path. */
  datatype LegacyJob = LegacyJob(isMain: bool, overwriteStatic: bool, custom: string, specific: string,
                                 folders: seq<string>, addonSync: bool, backend: Option<Backend>, basePath: string)

  function LegacyJobOf(s: Store): LegacyJob
  {
    var p := LegacyProfile(s);
    LegacyJob(GetBool(s, "is_main_system", false), GetBool(s, "overwrite_static", false),
              Raw(s, "custom_folder"), Raw(s, "specific_custom_folder"), CommaList(Raw(s, "static_folders")),
              GetBool(s, "addon_sync", false),
              match p
              case None => None
              case Some(q) => GetBackend(q.connectionType, q.host, q.user, q.password, q.basePath, q.sftpPort),
              match p
              case None => ""
              case Some(q) => q.basePath)
  }

  // ------------------------------------------------------------ _remote_path

  /** The segment one part contributes: none for an empty part, otherwise the
      part with outer slashes stripped, case kept. */
  function RawSeg(part: string): (r: seq<string>)
    ensures |r| <= 1
  {
    if part == "" then [] else [StripChar(part, '/')]
  }

  function RawSegs(parts: seq<string>): seq<string>
  {
    if |parts| == 0 then [] else RawSegs(parts[..|parts| - 1]) + RawSeg(parts[|parts| - 1])
  }

  /** `_remote_path(*parts)` of the older add-on. */
  function LegacyRemotePathOf(basePath: string, parts: seq<string>): (r: string)
    ensures StartsWith(r, "/")
  {
    "/" + Join(HeadSegs(basePath) + RawSegs(parts), "/")
  }

  /** A part is kept alike by both add-ons when it holds a '.' or has no
      upper-case letter. */
  predicate CaseNeutral(part: string)
  {
    var t := StripChar(part, '/');
    '.' in t || Lower(t) == t
  }

  lemma {:induction false} SegsAgree(parts: seq<string>)
    requires forall k :: 0 <= k < |parts| ==> CaseNeutral(parts[k])
    ensures RawSegs(parts) == PartSegs(parts)
    decreases |parts|
  {
    if |parts| > 0 {
      var init := parts[..|parts| - 1];
      forall k | 0 <= k < |init|
        ensures CaseNeutral(init[k])
      {
        assert init[k] == parts[k];
      }
      SegsAgree(init);
    }
  }

  /** Both add-ons address the same server path exactly when no part needs
      lower-casing: folder names already in lower case, and file names. */
  lemma LegacyRemotePathAgrees(basePath: string, parts: seq<string>)
    requires forall k :: 0 <= k < |parts| ==> CaseNeutral(parts[k])
    ensures LegacyRemotePathOf(basePath, parts) == RemotePathOf(basePath, parts)
  {
    SegsAgree(parts);
  }

  // ------------------------------------------------------------ local paths

  /** The older add-on's local paths: favourites.xml, the add-on data folder
      and its zip are those of the new add-on; the static favourites live
      under the older add-on's id. */
  function LegacyLayoutOf(u: string): Layout
  {
    LayoutOf(u).(staticRoot := PosixPath.PathJoin(PosixPath.PathJoin(PosixPath.PathJoin(u, "addon_data"), LegacyAddonId),
                                                  "Static Favourites"))
  }

  // ------------------------------------------------------------ sync_standard_favourites

  function LegacyStandardRemote(j: LegacyJob): string
  {
    LegacyRemotePathOf(j.basePath, [j.custom, "favourites.xml"])
  }

  /** `sync_standard_favourites`: the main system uploads favourites.xml, any
      other system downloads over it; the result is the transfer's. */
  function LegacyStandardSynced(j: LegacyJob, l: Layout, w: World): After
  {
    match j.backend
    case None => After(w, Raised)
    case Some(b) =>
      var remote := LegacyStandardRemote(j);
      if j.isMain then After(w.(server := Uploaded(b, w.files, w.server, l.fav, remote)),
                             Returned(CanUpload(b, w.files, w.server, l.fav, remote)))
      else After(w.(files := Downloaded(b, w.files, w.server, remote, l.fav)), Returned(CanDownload(b, w.server, remote)))
  }

  /** The main system never writes a local file, and any other system never
      writes to the server; a successful download puts the server's copy in
      favourites.xml. */
  lemma LegacyStandardDirection(j: LegacyJob, l: Layout, w: World)
    requires j.backend.Some?
    ensures var a := LegacyStandardSynced(j, l, w);
            var b := j.backend.value;
            (j.isMain ==> a.world.files == w.files && a.world.dirs == w.dirs)
            && (!j.isMain ==> a.world.server == w.server && a.world.dirs == w.dirs)
            && (!j.isMain && a.outcome == Returned(true) ==>
                  a.world.files[l.fav] == w.server.files[Target(b, LegacyStandardRemote(j))])
            && (j.isMain && a.outcome == Returned(true) ==>
                  a.world.server.files[Target(b, LegacyStandardRemote(j))] == w.files[l.fav])
  {
  }

  method LegacySyncStandard(j: LegacyJob, l: Layout, d: Disk, r: Remote) returns (out: Outcome)
    requires r.Valid()
    modifies d, r
    ensures r.Valid()
    ensures var a := LegacyStandardSynced(j, l, World(old(d.files), old(d.dirs), old(r.State())));
            World(d.files, d.dirs, r.State()) == a.world && out == a.outcome
  {
    var backend := j.backend;
    if backend.None? {
      return Raised;
    }
    var remote := LegacyStandardRemote(j);
    var ok;
    if j.isMain {
      ok := Upload(backend.value, d, r, l.fav, remote);
    } else {
      ok := Download(backend.value, d, r, remote, l.fav);
    }
    out := Returned(ok);
  }

  // ------------------------------------------------------------ sync_static_favourites

  function LegacyStaticRemote(j: LegacyJob, folder: string): string
  {
    LegacyRemotePathOf(j.basePath, [j.custom, folder, "favourites.xml"])
  }

  /** `_remote_path(SPECIFIC_CUSTOM_FOLDER, 'favourites.xml')`. */
  function LegacySpecificRemote(j: LegacyJob): string
  {
    LegacyRemotePathOf(j.basePath, [j.specific, "favourites.xml"])
  }

  /** The main system's step for one static folder: create the folder when
      nothing exists there, then upload its favourites.xml to `remote` when it
      exists. */
  function LegacyStaticUp(b: Backend, l: Layout, w: World, folder: string, remote: string): (r: World)
    ensures r.files == w.files && w.dirs <= r.dirs
  {
    var dirs := WithDir(w.dirs, w.files, StaticDir(l, folder));
    var local := StaticFile(l, folder);
    var sv := if local in w.files || local in dirs then Uploaded(b, w.files, w.server, local, remote) else w.server;
    World(w.files, dirs, sv)
  }

  /** A secondary system's step for one static folder: download its
      favourites.xml from `remote`, and when `overwrite` holds (the specific
      folder with overwriting on) download `specific` over it. */
  function LegacyStaticDown(b: Backend, l: Layout, w: World, folder: string, remote: string, overwrite: bool,
                            specific: string): (r: World)
    ensures r.server == w.server && r.dirs == w.dirs
  {
    var local := StaticFile(l, folder);
    var files := Downloaded(b, w.files, w.server, remote, local);
    var files2 := if overwrite then Downloaded(b, files, w.server, specific, local) else files;
    World(files2, w.dirs, w.server)
  }

  /** One static folder, whose server copy is at `remote`; `specific` is the
      specific folder's server copy. */
  function LegacyStaticRound(j: LegacyJob, b: Backend, l: Layout, w: World, folder: string,
                             remote: string, specific: string): World
  {
    if j.isMain then LegacyStaticUp(b, l, w, folder, remote)
    else LegacyStaticDown(b, l, w, folder, remote, j.overwriteStatic && folder == j.specific, specific)
  }

  /** The round for a folder at its own server path. */
  function LegacyFolderRound(j: LegacyJob, b: Backend, l: Layout, w: World, folder: string): World
  {
    LegacyStaticRound(j, b, l, w, folder, LegacyStaticRemote(j, folder), LegacySpecificRemote(j))
  }

  function LegacyStaticRounds(j: LegacyJob, b: Backend, l: Layout, w: World, folders: seq<string>): World
    decreases |folders|
  {
    if |folders| == 0 then w else LegacyStaticRounds(j, b, l, LegacyFolderRound(j, b, l, w, folders[0]), folders[1..])
  }

  /** `sync_static_favourites`: False without static folders, otherwise every
      folder in turn and True, whatever the transfers did. */
  function LegacyStaticSynced(j: LegacyJob, l: Layout, w: World): After
  {
    if |j.folders| == 0 then After(w, Returned(false))
    else match j.backend
      case None => After(w, Raised)
      case Some(b) => After(LegacyStaticRounds(j, b, l, w, j.folders), Returned(true))
  }

  /** On the main system the static sync never changes a local file. */
  lemma {:induction false} LegacyStaticMainKeepsFiles(j: LegacyJob, b: Backend, l: Layout, w: World, folders: seq<string>)
    requires j.isMain
    ensures LegacyStaticRounds(j, b, l, w, folders).files == w.files
    decreases |folders|
  {
    if |folders| > 0 {
      LegacyStaticMainKeepsFiles(j, b, l, LegacyFolderRound(j, b, l, w, folders[0]), folders[1..]);
    }
  }

  /** On any other system the static sync never writes to the server. */
  lemma {:induction false} LegacyStaticSecondaryKeepsServer(j: LegacyJob, b: Backend, l: Layout, w: World, folders: seq<string>)
    requires !j.isMain
    ensures LegacyStaticRounds(j, b, l, w, folders).server == w.server
    decreases |folders|
  {
    if |folders| > 0 {
      LegacyStaticSecondaryKeepsServer(j, b, l, LegacyFolderRound(j, b, l, w, folders[0]), folders[1..]);
    }
  }

  /** For the specific folder with overwriting on, the specific folder's server
      copy wins when it exists; when it is missing from a reachable FTP server,
      the second download leaves an empty file behind, even where the first
      one succeeded. */
  lemma LegacySpecificOverwrites(j: LegacyJob, b: Backend, l: Layout, w: World)
    requires !j.isMain && j.overwriteStatic
    ensures var local := StaticFile(l, j.specific);
            var r := LegacyFolderRound(j, b, l, w, j.specific);
            (CanDownload(b, w.server, LegacySpecificRemote(j)) ==>
               r.files[local] == w.server.files[Target(b, LegacySpecificRemote(j))])
            && (!CanDownload(b, w.server, LegacySpecificRemote(j)) && b.Ftp? && w.server.online ==>
               r.files[local] == Opaque(""))
  {
    OverwriteWins(b, l, w, j.specific, LegacyStaticRemote(j, j.specific), LegacySpecificRemote(j));
  }

  lemma OverwriteWins(b: Backend, l: Layout, w: World, folder: string, remote: string, specific: string)
    ensures var local := StaticFile(l, folder);
            var r := LegacyStaticDown(b, l, w, folder, remote, true, specific);
            (CanDownload(b, w.server, specific) ==> r.files[local] == w.server.files[Target(b, specific)])
            && (!CanDownload(b, w.server, specific) && b.Ftp? && w.server.online ==> r.files[local] == Opaque(""))
  {
  }

  /** The main system's step, on the disk and the server. */
  method LegacyStaticUpload(b: Backend, l: Layout, d: Disk, r: Remote, folder: string, remote: string)
    requires r.Valid()
    modifies d, r
    ensures r.Valid()
    ensures World(d.files, d.dirs, r.State()) == LegacyStaticUp(b, l, World(old(d.files), old(d.dirs), old(r.State())), folder, remote)
  {
    var local := StaticFile(l, folder);
    d.dirs := WithDir(d.dirs, d.files, StaticDir(l, folder));
    if local in d.files || local in d.dirs {
      var _ := Upload(b, d, r, local, remote);
    }
  }

  /** A secondary system's step, on the disk. */
  method LegacyStaticDownload(b: Backend, l: Layout, d: Disk, r: Remote, folder: string, remote: string,
                              overwrite: bool, specific: string)
    modifies d
    ensures World(d.files, d.dirs, r.State())
         == LegacyStaticDown(b, l, World(old(d.files), old(d.dirs), r.State()), folder, remote, overwrite, specific)
  {
    var local := StaticFile(l, folder);
    var _ := Download(b, d, r, remote, local);
    if overwrite {
      var _ := Download(b, d, r, specific, local);
    }
  }

  /** One static folder, on the disk and the server. */
  method LegacySyncStaticFolder(j: LegacyJob, b: Backend, l: Layout, d: Disk, r: Remote, folder: string)
    requires r.Valid()
    modifies d, r
    ensures r.Valid()
    ensures World(d.files, d.dirs, r.State()) == LegacyFolderRound(j, b, l, World(old(d.files), old(d.dirs), old(r.State())), folder)
  {
    var remote := LegacyStaticRemote(j, folder);
    var specific := LegacySpecificRemote(j);
    LegacySyncStaticFolderAt(j, b, l, d, r, folder, remote, specific);
  }

  /** The same, once the server paths are known. */
  method LegacySyncStaticFolderAt(j: LegacyJob, b: Backend, l: Layout, d: Disk, r: Remote, folder: string,
                                  remote: string, specific: string)
    requires r.Valid()
    modifies d, r
    ensures r.Valid()
    ensures World(d.files, d.dirs, r.State())
         == LegacyStaticRound(j, b, l, World(old(d.files), old(d.dirs), old(r.State())), folder, remote, specific)
  {
    ghost var w0 := World(d.files, d.dirs, r.State());
    if j.isMain {
      LegacyStaticUpload(b, l, d, r, folder, remote);
      assert World(d.files, d.dirs, r.State()) == LegacyStaticUp(b, l, w0, folder, remote);
    } else {
      var overwrite := j.overwriteStatic && folder == j.specific;
      LegacyStaticDownload(b, l, d, r, folder, remote, overwrite, specific);
      assert World(d.files, d.dirs, r.State()) == LegacyStaticDown(b, l, w0, folder, remote, overwrite, specific);
    }
  }

  lemma LegacyRoundsStep(j: LegacyJob, b: Backend, l: Layout, w: World, folders: seq<string>, i: nat)
    requires i < |folders|
    ensures LegacyStaticRounds(j, b, l, w, folders[i..])
         == LegacyStaticRounds(j, b, l, LegacyFolderRound(j, b, l, w, folders[i]), folders[i + 1..])
  {
    assert folders[i..][0] == folders[i] && folders[i..][1..] == folders[i + 1..];
  }

  method LegacySyncStatic(j: LegacyJob, l: Layout, d: Disk, r: Remote) returns (out: Outcome)
    requires r.Valid()
    modifies d, r
    ensures r.Valid()
    ensures var a := LegacyStaticSynced(j, l, World(old(d.files), old(d.dirs), old(r.State())));
            World(d.files, d.dirs, r.State()) == a.world && out == a.outcome
  {
    var folders := j.folders;
    if |folders| == 0 {
      return Returned(false);
    }
    var backend := j.backend;
    if backend.None? {
      return Raised;
    }
    var b := backend.value;
    ghost var w0 := World(d.files, d.dirs, r.State());
    var i := 0;
    while i < |folders|
      invariant 0 <= i <= |folders| && r.Valid()
      invariant LegacyStaticRounds(j, b, l, World(d.files, d.dirs, r.State()), folders[i..])
             == LegacyStaticRounds(j, b, l, w0, folders)
    {
      LegacyRoundsStep(j, b, l, World(d.files, d.dirs, r.State()), folders, i);
      LegacySyncStaticFolder(j, b, l, d, r, folders[i]);
      i := i + 1;
    }
    out := Returned(true);
  }

  // ------------------------------------------------------------ sync_favourites

  /** The world after a call, whether it raised, and the notifications shown. */
  datatype Notified = Notified(world: World, raised: bool, notes: seq<int>)

  /** `sync_favourites` of the older add-on: 30022 without a custom folder,
      30023 when the server folder is missing, otherwise both syncs and 30024
      when either reports success, 30028 when neither does. */
  function LegacyFavouritesSynced(j: LegacyJob, l: Layout, w: World): Notified
  {
    if j.custom == "" then Notified(w, false, [30022])
    else match j.backend
      case None => Notified(w, true, [])
      case Some(b) =>
        if !FolderExists(b, w.server, LegacyRemotePathOf(j.basePath, [j.custom])) then Notified(w, false, [30023])
        else
          var std := LegacyStandardSynced(j, l, w);
          var stat := LegacyStaticSynced(j, l, std.world);
          Notified(stat.world, false, if std.outcome == Returned(true) || stat.outcome == Returned(true) then [30024] else [30028])
  }

  /** Once the server folder exists, configured static folders make the sync
      report success; without them the standard transfer decides. */
  lemma LegacyFavouritesSuccess(j: LegacyJob, l: Layout, w: World)
    requires j.custom != "" && j.backend.Some?
    requires FolderExists(j.backend.value, w.server, LegacyRemotePathOf(j.basePath, [j.custom]))
    ensures var n := LegacyFavouritesSynced(j, l, w);
            !n.raised
            && (|j.folders| > 0 ==> n.notes == [30024])
            && (|j.folders| == 0 ==>
                  (n.notes == [30024] <==> LegacyStandardSynced(j, l, w).outcome == Returned(true)))
  {
  }

  method LegacySyncFavourites(j: LegacyJob, l: Layout, d: Disk, r: Remote) returns (raised: bool, notes: seq<int>)
    requires r.Valid()
    modifies d, r
    ensures r.Valid()
    ensures Notified(World(d.files, d.dirs, r.State()), raised, notes)
         == LegacyFavouritesSynced(j, l, World(old(d.files), old(d.dirs), old(r.State())))
  {
    if j.custom == "" {
      return false, [30022];
    }
    var backend := j.backend;
    if backend.None? {
      return true, [];
    }
    if !FolderExists(backend.value, r.State(), LegacyRemotePathOf(j.basePath, [j.custom])) {
      return false, [30023];
    }
    var std := LegacySyncStandard(j, l, d, r);
    var stat := LegacySyncStatic(j, l, d, r);
    raised := false;
    if std == Returned(true) || stat == Returned(true) {
      notes := [30024];
    } else {
      notes := [30028];
    }
  }

  // ------------------------------------------------------------ sync_addon_data

  function LegacyZipRemote(j: LegacyJob): string
  {
    LegacyRemotePathOf(j.basePath, [j.custom, "addon_data.zip"])
  }

  /** `sync_addon_data` of the older add-on: the branches of the new add-on's,
      with no server folder check. */
  function LegacyAddonSynced(j: LegacyJob, l: Layout, made: Option<Blob>, w: World): AddonRun
  {
    if !j.addonSync || (j.custom == "" && !j.isMain) then AddonRun(w, Skipped, [])
    else match j.backend
      case None => AddonRun(w, Failed, [])
      case Some(b) =>
        if j.isMain then AddonUploaded(b, l, made, w, LegacyZipRemote(j))
        else AddonDownloaded(b, l, w, LegacyZipRemote(j))
  }

  /** A secondary system whose download fails on a reachable FTP server keeps
      an empty zip file behind and reports 30021; addon_data is not touched. */
  lemma LegacyAddonFailedDownload(j: LegacyJob, l: Layout, made: Option<Blob>, w: World)
    requires j.addonSync && !j.isMain && j.custom != "" && j.backend.Some?
    requires !CanDownload(j.backend.value, w.server, LegacyZipRemote(j))
    ensures var r := LegacyAddonSynced(j, l, made, w);
            r.notes == [30021] && r.world.server == w.server
            && (j.backend.value.Ftp? && w.server.online ==> r.world.files == w.files[l.localZip := Opaque("")])
            && (!(j.backend.value.Ftp? && w.server.online) ==> r.world.files == w.files)
  {
  }

  method LegacySyncAddonData(j: LegacyJob, l: Layout, made: Option<Blob>, d: Disk, r: Remote)
    returns (end: AddonEnd, notes: seq<int>)
    requires r.Valid()
    modifies d, r
    ensures r.Valid()
    ensures AddonRun(World(d.files, d.dirs, r.State()), end, notes)
         == LegacyAddonSynced(j, l, made, World(old(d.files), old(d.dirs), old(r.State())))
  {
    if !j.addonSync || (j.custom == "" && !j.isMain) {
      return Skipped, [];
    }
    var backend := j.backend;
    if backend.None? {
      return Failed, [];
    }
    end := Done;
    if j.isMain {
      notes := UploadAddonData(backend.value, l, made, d, r, LegacyZipRemote(j));
    } else {
      notes := DownloadAddonData(backend.value, l, d, r, LegacyZipRemote(j));
    }
  }
}
