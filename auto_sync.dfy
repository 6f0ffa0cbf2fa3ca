// Favourites synchronisation of the new add-on (auto_ftp_sync.py): the
// standard favourites.xml and each static favourites folder are merged with
// (or, in overwrite mode, replaced by) their server copy, written back locally
// and uploaded again.  The local disk and the server are explicit state; the
// add-on's settings are a Store and the userdata directory is a parameter.

module AutoSync {
  import opened Text
  import opened Storage
  import PosixPath
  import opened KodiSettings
  import opened SyncBackend
  import opened FavouritesMerge
  import opened AutoSyncConfig

  /** The add-on's id, under which its static favourites live. */
  const AddonId := "plugin.program.dokukanal.buildsync"

  /** Everything a sync can change: the local files and directories and the server. */
  datatype World = World(files: map<string, Blob>, dirs: set<string>, server: Server)

  /** How a sync function ends: it returns a flag, or an exception escapes. */
  datatype Outcome = Returned(ok: bool) | Raised

  /** The world after a sync function, and how it ended. */
  datatype After = After(world: World, outcome: Outcome)

  /** What the sync functions read from the settings: the sync mode, whether
      a connection is configured, the active connection's type, its backend
      (None where building it raises) and base path, the custom folder, the
      static folders, whether add-on data is synchronised and whether this is
      the main system. */
  datatype Job = Job(mode: SyncMode, connected: bool, connectionType: string, backend: Option<Backend>,
                     basePath: string, custom: string, folders: seq<string>, addonSync: bool, isMain: bool)

  /** The job the settings describe. */
  function JobOf(s: Store): Job
  {
    var c := LoadSettings(s);
    var p := ActiveProfile(s);
    Job(c.mode, HasConnection(s), p.connectionType, ActiveBackend(s), p.basePath, c.customFolder, c.staticFolders,
        c.addonSync, c.isMainSystem)
  }

  // ------------------------------------------------------------ local paths

  /** LOCAL_FAVOURITES for userdata directory u. */
  function FavPath(u: string): (p: string)
    ensures EndsWith(p, "favourites.xml")
  {
    PosixPath.PathJoin(u, "favourites.xml")
  }

  function BakPath(u: string): (p: string)
    ensures EndsWith(p, ".bak")
  {
    EndsWithConcat(FavPath(u), ".bak");
    FavPath(u) + ".bak"
  }

  /** `os.path.dirname(LOCAL_FAVOURITES)`, where the temporary server copies go. */
  function UserdataDir(u: string): string
  {
    PosixPath.Dirname(FavPath(u))
  }

  function ServerTemp(u: string): (p: string)
    ensures EndsWith(p, "favourites_server.xml")
  {
    PosixPath.PathJoin(UserdataDir(u), "favourites_server.xml")
  }

  function StaticTemp(u: string): (p: string)
    ensures EndsWith(p, "favourites_server_static.xml")
  {
    PosixPath.PathJoin(UserdataDir(u), "favourites_server_static.xml")
  }

  /** STATIC_FAVOURITES_PATH. */
  function StaticRoot(u: string): string
  {
    PosixPath.PathJoin(PosixPath.PathJoin(PosixPath.PathJoin(u, "addon_data"), AddonId), "Static Favourites")
  }

  /** The local paths a favourites sync uses. */
  datatype Layout = Layout(fav: string, bak: string, userdataDir: string, serverTemp: string, staticTemp: string,
                           staticRoot: string, addonData: string, localZip: string)

  function LayoutOf(u: string): Layout
  {
    Layout(FavPath(u), BakPath(u), UserdataDir(u), ServerTemp(u), StaticTemp(u), StaticRoot(u),
           PosixPath.PathJoin(u, "addon_data"), PosixPath.PathJoin(u, "addon_data.zip"))
  }

  /** A static folder's directory. */
  function StaticDir(l: Layout, folder: string): string
  {
    PosixPath.PathJoin(l.staticRoot, folder)
  }

  /** A static folder's favourites file. */
  function StaticFile(l: Layout, folder: string): string
  {
    PosixPath.PathJoin(StaticDir(l, folder), "favourites.xml")
  }

  /** The favourites files, the backup and the temporary copies are all
      different files. */
  ghost predicate Separate(l: Layout)
  {
    l.fav != "" && l.fav != l.bak && l.fav != l.serverTemp && l.bak != l.serverTemp
    && forall f :: Apart(l, f)
  }

  /** A static folder's favourites file is a real path other than the temporary copy. */
  ghost predicate Apart(l: Layout, folder: string)
  {
    StaticFile(l, folder) != "" && StaticFile(l, folder) != l.staticTemp
  }

  /** A favourites file is never one of the temporary or backup files: their
      names end differently. */
  lemma FavouritesIsNotScratch(p: string, q: string)
    requires EndsWith(p, "favourites.xml")
    requires EndsWith(q, "favourites_server.xml") || EndsWith(q, "favourites_server_static.xml") || EndsWith(q, ".bak")
    ensures p != q
  {
    assert p[|p| - 14..] == "favourites.xml";
    if EndsWith(q, ".bak") {
      assert q[|q| - 4..] == ".bak";
      assert p[|p| - 1] != q[|q| - 1];
    } else if EndsWith(q, "favourites_server.xml") {
      assert q[|q| - 21..] == "favourites_server.xml";
      assert p[|p| - 5] != q[|q| - 5];
    } else {
      assert q[|q| - 28..] == "favourites_server_static.xml";
      assert p[|p| - 5] != q[|q| - 5];
    }
  }

  /** The backup and the temporary copy of the standard sync are different files. */
  lemma BakIsNotTemp(u: string)
    ensures BakPath(u) != ServerTemp(u)
  {
    var p, q := BakPath(u), ServerTemp(u);
    assert p[|p| - 1] == ".bak"[3];
    assert q[|q| - 1] == "favourites_server.xml"[20];
  }

  /** The paths under any userdata directory are kept apart. */
  lemma LayoutSeparate(u: string)
    ensures Separate(LayoutOf(u))
  {
    var l := LayoutOf(u);
    FavouritesIsNotScratch(l.fav, l.bak);
    FavouritesIsNotScratch(l.fav, l.serverTemp);
    BakIsNotTemp(u);
    forall f ensures Apart(l, f) {
      FavouritesIsNotScratch(StaticFile(l, f), l.staticTemp);
    }
  }

  // ------------------------------------------------------------ one favourites file

  /** What parse_favourites returns for a local path. */
  function LocalList(files: map<string, Blob>, path: string): seq<string>
  {
    ParsedActions(path, if path in files then Some(files[path]) else None)
  }

  /** The server list: what parse_favourites returns for the downloaded copy, or
      [] when the download fails. */
  function ServerList(b: Backend, sv: Server, remote: string, temp: string): seq<string>
  {
    if CanDownload(b, sv, remote) then ParsedActions(temp, Some(sv.files[Target(b, remote)])) else []
  }

  /** The list written back: the server list in overwrite mode, the union merge
      otherwise. */
  function Chosen(mode: SyncMode, local: seq<string>, server: seq<string>): seq<string>
  {
    if mode == Overwrite then server else Merged(local, server)
  }

  /** The local files once the server copy is downloaded to temp and the chosen
      list is written to the local file. */
  function Written(mode: SyncMode, b: Backend, files: map<string, Blob>, sv: Server,
                   local: string, temp: string, remote: string): map<string, Blob>
  {
    var list := Chosen(mode, LocalList(files, local), ServerList(b, sv, remote, temp));
    Downloaded(b, files, sv, remote, temp)[local := Xml(WrittenDoc(Items(list)))]
  }

  /** The result of one round: local files, server, and the upload's result. */
  datatype Round = Round(files: map<string, Blob>, server: Server, uploaded: bool)

  /** One file brought in line with its server copy: download to temp, merge or
      replace, write, upload, and remove temp whatever happened. */
  function SyncRound(mode: SyncMode, b: Backend, files: map<string, Blob>, sv: Server,
                     local: string, temp: string, remote: string): Round
  {
    var written := Written(mode, b, files, sv, local, temp, remote);
    Round(written - {temp}, Uploaded(b, written, sv, local, remote), CanUpload(b, written, sv, local, remote))
  }

  /** The round's local file reads back as exactly the chosen list. */
  lemma RoundReadsBack(mode: SyncMode, b: Backend, files: map<string, Blob>, sv: Server,
                       local: string, temp: string, remote: string)
    requires local != "" && local != temp
    ensures LocalList(SyncRound(mode, b, files, sv, local, temp, remote).files, local)
         == Chosen(mode, LocalList(files, local), ServerList(b, sv, remote, temp))
  {
    var l := LocalList(files, local);
    var s := ServerList(b, sv, remote, temp);
    var list := Chosen(mode, l, s);
    ChosenTrimmed(mode, b, files, sv, local, temp, remote);
    RoundWritesList(mode, b, files, sv, local, temp, remote);
    WrittenReadsBack(local, list);
  }

  /** The local file after the round is the written document of the chosen list. */
  lemma RoundWritesList(mode: SyncMode, b: Backend, files: map<string, Blob>, sv: Server,
                        local: string, temp: string, remote: string)
    requires local != temp
    ensures var list := Chosen(mode, LocalList(files, local), ServerList(b, sv, remote, temp));
            var after := SyncRound(mode, b, files, sv, local, temp, remote).files;
            local in after && after[local] == Xml(WrittenDoc(Items(list)))
  {
  }

  /** Both lists hold only non-blank, stripped actions, and so does the chosen one. */
  lemma ChosenTrimmed(mode: SyncMode, b: Backend, files: map<string, Blob>, sv: Server,
                      local: string, temp: string, remote: string)
    ensures Trimmed(Chosen(mode, LocalList(files, local), ServerList(b, sv, remote, temp)))
  {
    var l := LocalList(files, local);
    var s := ServerList(b, sv, remote, temp);
    ParsedTrimmed(local, if local in files then Some(files[local]) else None);
    if CanDownload(b, sv, remote) {
      ParsedTrimmed(temp, Some(sv.files[Target(b, remote)]));
    }
    MergedTrimmed(l, s);
  }

  /** In merge mode no local favourite is lost and every server key arrives:
      the old local list is a prefix of the new one, and the keys are the union. */
  lemma RoundMergeKeepsLocal(b: Backend, files: map<string, Blob>, sv: Server,
                             local: string, temp: string, remote: string)
    requires local != "" && local != temp
    ensures var after := LocalList(SyncRound(Merge, b, files, sv, local, temp, remote).files, local);
            |LocalList(files, local)| <= |after| && after[..|LocalList(files, local)|] == LocalList(files, local)
            && NonBlankKeys(after) == NonBlankKeys(LocalList(files, local)) + NonBlankKeys(ServerList(b, sv, remote, temp))
  {
    RoundReadsBack(Merge, b, files, sv, local, temp, remote);
    MergedContents(LocalList(files, local), ServerList(b, sv, remote, temp));
  }

  /** In overwrite mode a failed download empties the local file. */
  lemma RoundOverwriteFailedDownload(b: Backend, files: map<string, Blob>, sv: Server,
                                     local: string, temp: string, remote: string)
    requires local != "" && local != temp && !CanDownload(b, sv, remote)
    ensures LocalList(SyncRound(Overwrite, b, files, sv, local, temp, remote).files, local) == []
  {
    RoundReadsBack(Overwrite, b, files, sv, local, temp, remote);
  }

  /** The upload succeeds when the server answers, the remote folder exists and
      the file's name is not a directory there; the server copy is then the new
      local file.  An unreachable server is left alone. */
  lemma RoundUploads(mode: SyncMode, b: Backend, files: map<string, Blob>, sv: Server,
                     local: string, temp: string, remote: string)
    requires local != temp
    ensures var t := Target(b, remote);
            var r := SyncRound(mode, b, files, sv, local, temp, remote);
            (sv.online && |t| > 0 && t[..|t| - 1] in sv.dirs && t !in sv.dirs ==>
               r.uploaded && r.server.files[t] == r.files[local])
            && (!sv.online ==> !r.uploaded && r.server == sv)
  {
    var w := Written(mode, b, files, sv, local, temp, remote);
    assert local in w;
    assert (w - {temp})[local] == w[local];
  }

  /** The temporary copy is gone afterwards and no other local file changes. */
  lemma RoundFrame(mode: SyncMode, b: Backend, files: map<string, Blob>, sv: Server,
                   local: string, temp: string, remote: string)
    requires local != temp
    ensures var r := SyncRound(mode, b, files, sv, local, temp, remote);
            temp !in r.files && local in r.files
            && (forall p :: p != local && p != temp ==> (p in r.files <==> p in files))
            && (forall p :: p != local && p != temp && p in files ==> r.files[p] == files[p])
  {
    var dl := Downloaded(b, files, sv, remote, temp);
    var list := Chosen(mode, LocalList(files, local), ServerList(b, sv, remote, temp));
    assert forall p :: p != temp ==> (p in dl <==> p in files) && (p in files ==> dl[p] == files[p]);
    WriteThenDropTemp(files, dl, local, temp, Xml(WrittenDoc(Items(list))));
  }

  /** Writing one file and removing temp from a map that differs from `files`
      only at temp leaves every other entry of `files` as it was. */
  lemma WriteThenDropTemp(files: map<string, Blob>, dl: map<string, Blob>, local: string, temp: string, x: Blob)
    requires local != temp
    requires forall p :: p != temp ==> (p in dl <==> p in files) && (p in files ==> dl[p] == files[p])
    ensures var after := dl[local := x] - {temp};
            temp !in after && local in after && after[local] == x
            && (forall p :: p != local && p != temp ==> (p in after <==> p in files))
            && (forall p :: p != local && p != temp && p in files ==> after[p] == files[p])
  {
  }

  /** The download to temp and the parse of what arrived. */
  method FetchServerList(b: Backend, d: Disk, r: Remote, remote: string, temp: string) returns (server: seq<string>)
    modifies d
    ensures d.dirs == old(d.dirs) && d.files == Downloaded(b, old(d.files), r.State(), remote, temp)
    ensures server == ServerList(b, r.State(), remote, temp)
  {
    server := [];
    var fetched := Download(b, d, r, remote, temp);
    if fetched {
      server := ParseFavourites(d, temp);
    }
  }

  /** The round as the source performs it, on the disk and the server. */
  method SyncOneFile(mode: SyncMode, b: Backend, d: Disk, r: Remote, local: string, temp: string, remote: string)
    returns (uploaded: bool)
    requires r.Valid()
    modifies d, r
    ensures r.Valid() && d.dirs == old(d.dirs)
    ensures var rd := SyncRound(mode, b, old(d.files), old(r.State()), local, temp, remote);
            d.files == rd.files && r.State() == rd.server && uploaded == rd.uploaded
  {
    ghost var files0, sv0 := d.files, r.State();
    var merged := ChooseList(mode, b, d, r, local, temp, remote);
    var _ := WriteFavourites(d, local, Items(merged));
    ghost var written := d.files;
    assert written == Written(mode, b, files0, sv0, local, temp, remote);
    uploaded := Upload(b, d, r, local, remote);
    RemoveTemp(d, temp);
  }

  /** The local list read, the server copy fetched to temp, and the list to
      write chosen from the two. */
  method ChooseList(mode: SyncMode, b: Backend, d: Disk, r: Remote, local: string, temp: string, remote: string)
    returns (merged: seq<string>)
    modifies d
    ensures d.dirs == old(d.dirs) && d.files == Downloaded(b, old(d.files), r.State(), remote, temp)
    ensures merged == Chosen(mode, LocalList(old(d.files), local), ServerList(b, r.State(), remote, temp))
  {
    var localActions := ParseFavourites(d, local);
    var serverActions := FetchServerList(b, d, r, remote, temp);
    merged := serverActions;
    if mode != Overwrite {
      merged := MergeUnion(localActions, serverActions);
    }
  }

  /** `xbmcvfs.delete(temp)` when the temporary copy exists. */
  method RemoveTemp(d: Disk, temp: string)
    modifies d
    ensures d.dirs == old(d.dirs) && d.files == old(d.files) - {temp}
  {
    if temp in d.files {
      d.files := d.files - {temp};
    }
  }

  // ------------------------------------------------------------ sync_standard_favourites

  /** favourites.xml copied to favourites.xml.bak when it exists. */
  function BackedUp(l: Layout, files: map<string, Blob>): (r: map<string, Blob>)
    ensures l.fav in files ==> r == files[l.bak := files[l.fav]]
    ensures l.fav !in files ==> r == files
  {
    if l.fav in files then files[l.bak := files[l.fav]] else files
  }

  /** The server path of the standard favourites. */
  function StandardRemote(j: Job): string
  {
    RemotePathOf(j.basePath, [j.custom, "favourites.xml"])
  }

  /** `sync_standard_favourites`: back up, then one round on favourites.xml; the
      result is the upload's.  Without a backend the call raises after the
      backup. */
  function StandardSynced(j: Job, l: Layout, w: World): After
  {
    var files := BackedUp(l, w.files);
    match j.backend
    case None => After(w.(files := files), Raised)
    case Some(b) =>
      var rd := SyncRound(j.mode, b, files, w.server, l.fav, l.serverTemp, StandardRemote(j));
      After(World(rd.files, w.dirs, rd.server), Returned(rd.uploaded))
  }

  /** After the standard sync favourites.xml.bak holds the favourites.xml found
      before, and favourites.xml holds the merge (or the server list) of what
      was found locally and on the server. */
  lemma StandardSyncEffect(j: Job, l: Layout, w: World)
    requires j.backend.Some? && Separate(l)
    ensures var r := StandardSynced(j, l, w);
            var b := j.backend.value;
            r.outcome.Returned?
            && (l.fav in w.files ==> l.bak in r.world.files && r.world.files[l.bak] == w.files[l.fav])
            && l.serverTemp !in r.world.files
            && LocalList(r.world.files, l.fav)
               == Chosen(j.mode, LocalList(w.files, l.fav), ServerList(b, w.server, StandardRemote(j), l.serverTemp))
  {
    BackedUpRound(j.mode, j.backend.value, l, w, StandardRemote(j));
  }

  /** The round after the backup, for any server path. */
  lemma BackedUpRound(mode: SyncMode, b: Backend, l: Layout, w: World, remote: string)
    requires Separate(l)
    ensures var rd := SyncRound(mode, b, BackedUp(l, w.files), w.server, l.fav, l.serverTemp, remote);
            (l.fav in w.files ==> l.bak in rd.files && rd.files[l.bak] == w.files[l.fav])
            && l.serverTemp !in rd.files
            && LocalList(rd.files, l.fav) == Chosen(mode, LocalList(w.files, l.fav), ServerList(b, w.server, remote, l.serverTemp))
  {
    var fav, temp := l.fav, l.serverTemp;
    var files := BackedUp(l, w.files);
    assert LocalList(files, fav) == LocalList(w.files, fav);
    RoundReadsBack(mode, b, files, w.server, fav, temp, remote);
    RoundFrame(mode, b, files, w.server, fav, temp, remote);
  }

  method SyncStandardFavourites(j: Job, l: Layout, d: Disk, r: Remote) returns (out: Outcome)
    requires r.Valid()
    modifies d, r
    ensures r.Valid()
    ensures var a := StandardSynced(j, l, World(old(d.files), old(d.dirs), old(r.State())));
            World(d.files, d.dirs, r.State()) == a.world && out == a.outcome
  {
    var fav := l.fav;
    if fav in d.files {
      d.files := d.files[l.bak := d.files[fav]];
    }
    var backend := j.backend;
    if backend.None? {
      return Raised;
    }
    var remote := RemotePath(j.basePath, [j.custom, "favourites.xml"]);
    var ok := SyncOneFile(j.mode, backend.value, d, r, fav, l.serverTemp, remote);
    out := Returned(ok);
  }

  // ------------------------------------------------------------ sync_static_favourites

  /** The server path of a static folder's favourites. */
  function StaticRemote(j: Job, folder: string): string
  {
    RemotePathOf(j.basePath, [j.custom, folder, "favourites.xml"])
  }

  /** `if not xbmcvfs.exists(dir): xbmcvfs.mkdirs(dir)` on the local directories. */
  function WithDir(dirs: set<string>, files: map<string, Blob>, dir: string): (r: set<string>)
    ensures dir in r || dir in files
  {
    if dir in dirs || dir in files then dirs else dirs + {dir}
  }

  /** One static folder: its directory is created when nothing exists there,
      then one round on its favourites.xml; the upload's result is ignored. */
  function StaticRound(j: Job, b: Backend, l: Layout, w: World, folder: string, remote: string): (r: World)
    ensures w.dirs <= r.dirs
  {
    var dirs := WithDir(w.dirs, w.files, StaticDir(l, folder));
    var rd := SyncRound(j.mode, b, w.files, w.server, StaticFile(l, folder), l.staticTemp, remote);
    World(rd.files, dirs, rd.server)
  }

  /** The folders processed in order. */
  function StaticRounds(j: Job, b: Backend, l: Layout, w: World, folders: seq<string>): World
    decreases |folders|
  {
    if |folders| == 0 then w
    else StaticRounds(j, b, l, StaticRound(j, b, l, w, folders[0], StaticRemote(j, folders[0])), folders[1..])
  }

  /** `sync_static_favourites`: False without static folders, otherwise every
      folder in turn and True. */
  function StaticSynced(j: Job, l: Layout, w: World): After
  {
    var folders := j.folders;
    if |folders| == 0 then After(w, Returned(false))
    else match j.backend
      case None => After(w, Raised)
      case Some(b) => After(StaticRounds(j, b, l, w, folders), Returned(true))
  }

  lemma StaticRoundsStep(j: Job, b: Backend, l: Layout, w: World, folders: seq<string>, i: nat)
    requires i < |folders|
    ensures StaticRounds(j, b, l, w, folders[i..])
         == StaticRounds(j, b, l, StaticRound(j, b, l, w, folders[i], StaticRemote(j, folders[i])), folders[i + 1..])
  {
    assert folders[i..][0] == folders[i] && folders[i..][1..] == folders[i + 1..];
  }

  /** One static folder, on the disk and the server. */
  method SyncStaticFolder(j: Job, b: Backend, l: Layout, d: Disk, r: Remote, folder: string)
    requires r.Valid()
    modifies d, r
    ensures r.Valid()
    ensures World(d.files, d.dirs, r.State())
         == StaticRound(j, b, l, World(old(d.files), old(d.dirs), old(r.State())), folder, StaticRemote(j, folder))
  {
    var remote := RemotePath(j.basePath, [j.custom, folder, "favourites.xml"]);
    SyncStaticFolderAt(j, b, l, d, r, folder, remote);
  }

  /** The same, once the folder's server path is known. */
  method SyncStaticFolderAt(j: Job, b: Backend, l: Layout, d: Disk, r: Remote, folder: string, remote: string)
    requires r.Valid()
    modifies d, r
    ensures r.Valid()
    ensures World(d.files, d.dirs, r.State()) == StaticRound(j, b, l, World(old(d.files), old(d.dirs), old(r.State())), folder, remote)
  {
    d.dirs := WithDir(d.dirs, d.files, StaticDir(l, folder));
    var _ := SyncOneFile(j.mode, b, d, r, StaticFile(l, folder), l.staticTemp, remote);
  }

  method SyncStaticFavourites(j: Job, l: Layout, d: Disk, r: Remote) returns (out: Outcome)
    requires r.Valid()
    modifies d, r
    ensures r.Valid()
    ensures var a := StaticSynced(j, l, World(old(d.files), old(d.dirs), old(r.State())));
            World(d.files, d.dirs, r.State()) == a.world && out == a.outcome
  {
    var folders := j.folders;
    if |folders| == 0 {
      return Returned(false);
    }
    var backend := j.backend;
    if backend.None? {
      return Raised;
    }
    var b := backend.value;
    ghost var w0 := World(d.files, d.dirs, r.State());
    var i := 0;
    while i < |folders|
      invariant 0 <= i <= |folders| && r.Valid()
      invariant StaticRounds(j, b, l, World(d.files, d.dirs, r.State()), folders[i..]) == StaticRounds(j, b, l, w0, folders)
    {
      StaticRoundsStep(j, b, l, World(d.files, d.dirs, r.State()), folders, i);
      SyncStaticFolder(j, b, l, d, r, folders[i]);
      i := i + 1;
    }
    out := Returned(true);
  }
}
