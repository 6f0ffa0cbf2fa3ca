// The backup service of the new add-on (services/backup_service.py): build
// the archive with `create_backup_core` and, when the backup is to be kept on
// a connection, upload it there and delete the local copy.

module BackupService {
  import opened Text
  import opened Storage
  import opened KodiSettings
  import opened SyncBackend
  import opened AutoSyncConfig
  import opened PosixPath
  import opened BackupRestore
  import opened AutoSync

  /** Message ids of the service's own answers. */
  const MsgNoConnection := 30043
  const MsgUploadFailed := 30068

  /** os.path.basename: the text after the last '/'. */
  function Basename(p: string): (r: string)
    ensures '/' !in r && EndsWith(p, r)
  {
    var n := HeadLength(p);
    assert p == p[..n] + p[n..];
    p[n..]
  }

  // ------------------------------------------------------------ settings

  function IncludeAddonData(s: Store): bool
  {
    GetBool(s, "backup_include_addon_data", true)
  }

  function SaveToConnection(s: Store): bool
  {
    GetBool(s, "backup_save_to_connection", false)
  }

  /** `target_base`: the upload staging directory under Kodi's temp folder
      when the backup goes to a connection, otherwise none (the core then
      uses the configured backup folder). */
  function TargetBase(s: Store, tempDir: string): (r: Option<string>)
    ensures r.Some? <==> SaveToConnection(s)
  {
    if SaveToConnection(s) then Some(PathJoin(tempDir, "backup_upload")) else None
  }

  /** The connection text as entered: blank means "1". */
  function ConnectionText(s: Store): (r: string)
    ensures r != ""
  {
    var t := Strip(GetString(s, "backup_connection", "1"));
    if t == "" then "1" else t
  }

  /** `int(conn_num) if conn_num in ('1', '2', '3') else 1`. */
  function ConnectionNumber(text: string): (n: int)
    ensures 1 <= n <= 3
    ensures text == "2" <==> n == 2
    ensures text == "3" <==> n == 3
  {
    if text == "2" then 2 else if text == "3" then 3 else 1
  }

  /** The server folder for backups: trimmed, trailing '/' removed, and
      "backups" when nothing is left. */
  function RemoteDir(s: Store): (r: string)
    ensures r != "" && r[|r| - 1] != '/'
  {
    var t := RStripChar(Strip(GetString(s, "backup_remote_path", "backups")), '/');
    if t == "" then "backups" else t
  }

  /** `get_backend_for_connection(n)`: none outside 1..3, none for a blank host,
      otherwise the backend the profile's type builds. */
  function BackendForConnection(s: Store, n: int): (r: Option<Backend>)
    ensures r.Some? ==> 1 <= n <= 3 && Strip(ProfileSettings(s, n).host) != ""
    ensures r.Some? && r.value.Ftp? ==> StartsWith(r.value.basePath, "/")
  {
    if !(1 <= n <= 3) then None
    else
      var p := ProfileSettings(s, n);
      if Strip(p.host) == "" then None
      else GetBackend(p.connectionType, p.host, p.user, p.password, p.basePath, p.sftpPort)
  }

  // ------------------------------------------------------------ create_backup

  /** The service's answer: success, message id and the text filled into it. */
  datatype Reply = Reply(success: bool, message: int, detail: string)

  /** How `create_backup` ends: with an answer, or with an exception that
      escapes to its caller. */
  datatype Served = Answered(world: World, reply: Reply) | Escaped(world: World)

  /** Where the uploaded archive goes. */
  function RemoteFile(s: Store, zipPath: string): string
  {
    RemoteDir(s) + "/" + Basename(zipPath)
  }

  /** The upload branch: ensure the folder, upload, and delete the local
      archive only when the upload succeeded. */
  function Uploading(b: Backend, w: World, zipPath: string, remoteDir: string, remoteFile: string, conn: string): (r: Served)
    ensures r.Answered?
  {
    var sv := Ensured(b, w.server, remoteDir);
    if CanUpload(b, w.files, sv, zipPath, remoteFile) then
      Answered(World(w.files - {zipPath}, w.dirs, Uploaded(b, w.files, sv, zipPath, remoteFile)),
               Reply(true, MsgBackupDone, "Verbindung " + conn + ": " + remoteFile))
    else Answered(w.(server := sv), Reply(false, MsgUploadFailed, ""))
  }

  /** `create_backup` once the core has answered with a triple. */
  function AfterCore(s: Store, success: bool, message: int, zipPath: Option<string>, w: World): (r: Served)
    ensures r.Answered?
  {
    if !success || !SaveToConnection(s) || zipPath.None? || zipPath.value == "" then Answered(w, Reply(success, message, ""))
    else
      var conn := ConnectionText(s);
      match BackendForConnection(s, ConnectionNumber(conn))
      case None => Answered(w.(files := w.files - {zipPath.value}), Reply(false, MsgNoConnection, " (Verbindung " + conn + ")"))
      case Some(b) => Uploading(b, w, zipPath.value, RemoteDir(s), RemoteFile(s, zipPath.value), conn)
  }

  /** `create_backup` as written: the core's answer is unpacked into three
      names, so its two-element answer for an unusable backup folder raises
      ValueError out of the service. */
  function CreateBackupAsWritten(s: Store, core: CoreResult, w: World): Served
  {
    match core
    case Pair(_, _) => Escaped(w)
    case Triple(success, message, zipPath) => AfterCore(s, success, message, zipPath, w)
  }

  /** `create_backup` as intended: a two-element answer is the failure it
      reports, passed on like every other failure of the core. */
  function CreateBackupServed(s: Store, core: CoreResult, w: World): (r: Served)
    ensures r.Answered?
  {
    match core
    case Pair(success, message) => AfterCore(s, success, message, None, w)
    case Triple(success, message, zipPath) => AfterCore(s, success, message, zipPath, w)
  }

  /** The core's own answer comes back unchanged, and nothing is touched,
      unless the backup succeeded, is to be kept on a connection and has a
      path. */
  lemma CoreAnswerPassedOn(s: Store, core: CoreResult, w: World)
    requires !core.success || !SaveToConnection(s) || core.Pair? || core.zipPath.None? || core.zipPath.value == ""
    ensures CreateBackupServed(s, core, w) == Answered(w, Reply(core.success, core.message, ""))
  {
  }

  /** Without a usable connection the local archive is deleted and the
      service fails with 30043; the server is not touched. */
  lemma NoConnectionDeletesArchive(s: Store, zip: string, w: World)
    requires SaveToConnection(s) && zip != ""
    requires BackendForConnection(s, ConnectionNumber(ConnectionText(s))).None?
    ensures var r := CreateBackupServed(s, Triple(true, MsgBackupDone, Some(zip)), w);
            r.world == w.(files := w.files - {zip}) && !r.reply.success && r.reply.message == MsgNoConnection
  {
  }

  /** A successful upload puts the archive under the backup folder on the
      server and deletes it locally; a failed one keeps it and answers 30068.
      Either way the backup folder was ensured first. */
  lemma UploadEffect(s: Store, zip: string, w: World)
    requires SaveToConnection(s) && zip != ""
    requires BackendForConnection(s, ConnectionNumber(ConnectionText(s))).Some?
    ensures var b := BackendForConnection(s, ConnectionNumber(ConnectionText(s))).value;
            var sv := Ensured(b, w.server, RemoteDir(s));
            var r := CreateBackupServed(s, Triple(true, MsgBackupDone, Some(zip)), w);
            (CanUpload(b, w.files, sv, zip, RemoteFile(s, zip)) ==>
               r.reply.success && r.world.files == w.files - {zip}
               && r.world.server.files[Target(b, RemoteFile(s, zip))] == w.files[zip])
            && (!CanUpload(b, w.files, sv, zip, RemoteFile(s, zip)) ==>
               r.reply == Reply(false, MsgUploadFailed, "") && r.world.files == w.files && r.world.server == sv)
  {
    var conn := ConnectionText(s);
    var backend := BackendForConnection(s, ConnectionNumber(conn));
    AfterCoreToConnection(s, MsgBackupDone, zip, w, conn, backend);
    UploadingEffect(backend.value, w, zip, RemoteDir(s), RemoteFile(s, zip), conn);
  }

  /** The upload branch for any folder and file name. */
  lemma UploadingEffect(b: Backend, w: World, zip: string, remoteDir: string, remoteFile: string, conn: string)
    ensures var sv := Ensured(b, w.server, remoteDir);
            var r := Uploading(b, w, zip, remoteDir, remoteFile, conn);
            (CanUpload(b, w.files, sv, zip, remoteFile) ==>
               r.reply.success && r.world.files == w.files - {zip}
               && r.world.server.files[Target(b, remoteFile)] == w.files[zip])
            && (!CanUpload(b, w.files, sv, zip, remoteFile) ==>
               r.reply == Reply(false, MsgUploadFailed, "") && r.world.files == w.files && r.world.server == sv)
  {
  }

  /** The upload target is the archive's own name inside the backup folder. */
  lemma RemoteFileShape(s: Store, zip: string)
    ensures StartsWith(RemoteFile(s, zip), RemoteDir(s) + "/")
    ensures EndsWith(RemoteFile(s, zip), Basename(zip))
  {
    var r := RemoteFile(s, zip);
    assert r[..|RemoteDir(s) + "/"|] == RemoteDir(s) + "/";
    assert r[|r| - |Basename(zip)|..] == Basename(zip);
  }

  /** The answer the core gives for a backup folder it cannot create makes
      the service as written raise, where the intended service reports the
      core's failure 30043. */
  lemma UnusableFolderRaises(s: Store, src: BackupSource, includeAddonData: bool, backupBase: string, t: Stamp,
                             timestamp: string, cancelAt: Option<nat>, openFails: bool, writeFails: set<string>, w: World)
    requires ValidStamp(t)
    ensures var core := CreateOutcome(src, includeAddonData, backupBase, false, t, timestamp, cancelAt, openFails, writeFails).0;
            CreateBackupAsWritten(s, core, w).Escaped?
            && CreateBackupServed(s, core, w) == Answered(w, Reply(false, MsgNoBackupDir, ""))
  {
  }

  /** Every other answer of the core is unpacked alike by both. */
  lemma TripleServedAlike(s: Store, success: bool, message: int, zipPath: Option<string>, w: World)
    ensures CreateBackupAsWritten(s, Triple(success, message, zipPath), w)
         == CreateBackupServed(s, Triple(success, message, zipPath), w)
  {
  }

  /** The upload branch on the disk and the server. */
  method UploadBackup(b: Backend, d: Disk, r: Remote, zipPath: string, remoteDir: string, remoteFile: string, conn: string)
    returns (reply: Reply)
    requires (b.Ftp? ==> StartsWith(b.basePath, "/")) && r.Valid()
    modifies d, r
    ensures r.Valid()
    ensures Answered(World(d.files, d.dirs, r.State()), reply)
         == Uploading(b, World(old(d.files), old(d.dirs), old(r.State())), zipPath, remoteDir, remoteFile, conn)
  {
    var _ := EnsureFolder(b, r, remoteDir);
    reply := UploadAndDelete(b, d, r, zipPath, remoteFile, conn);
  }

  /** Upload into the ensured folder; the archive is deleted only on success. */
  method UploadAndDelete(b: Backend, d: Disk, r: Remote, zipPath: string, remoteFile: string, conn: string)
    returns (reply: Reply)
    requires r.Valid()
    modifies d, r
    ensures r.Valid() && d.dirs == old(d.dirs)
    ensures var sv := old(r.State());
            if CanUpload(b, old(d.files), sv, zipPath, remoteFile) then
              d.files == old(d.files) - {zipPath} && r.State() == Uploaded(b, old(d.files), sv, zipPath, remoteFile)
              && reply == Reply(true, MsgBackupDone, "Verbindung " + conn + ": " + remoteFile)
            else
              d.files == old(d.files) && r.State() == sv && reply == Reply(false, MsgUploadFailed, "")
  {
    var ok := Upload(b, d, r, zipPath, remoteFile);
    if ok {
      d.files := d.files - {zipPath};
      reply := Reply(true, MsgBackupDone, "Verbindung " + conn + ": " + remoteFile);
    } else {
      reply := Reply(false, MsgUploadFailed, "");
    }
  }

  /** `create_backup` after the core ran, as intended. */
  method CreateBackup(s: Store, core: CoreResult, d: Disk, r: Remote) returns (reply: Reply)
    requires r.Valid()
    modifies d, r
    ensures r.Valid()
    ensures Answered(World(d.files, d.dirs, r.State()), reply)
         == CreateBackupServed(s, core, World(old(d.files), old(d.dirs), old(r.State())))
  {
    var zipPath := if core.Triple? then core.zipPath else None;
    reply := ServeAfterCore(s, core.success, core.message, zipPath, d, r);
  }

  /** The service's work once the core's answer is unpacked. */
  method ServeAfterCore(s: Store, success: bool, message: int, zipPath: Option<string>, d: Disk, r: Remote)
    returns (reply: Reply)
    requires r.Valid()
    modifies d, r
    ensures r.Valid()
    ensures Answered(World(d.files, d.dirs, r.State()), reply)
         == AfterCore(s, success, message, zipPath, World(old(d.files), old(d.dirs), old(r.State())))
  {
    if !success || !SaveToConnection(s) || zipPath.None? || zipPath.value == "" {
      return Reply(success, message, "");
    }
    reply := ServeConnection(s, message, zipPath.value, d, r);
  }

  /** The archive exists and goes to a connection: look up its backend and upload. */
  method ServeConnection(s: Store, message: int, zipPath: string, d: Disk, r: Remote) returns (reply: Reply)
    requires SaveToConnection(s) && zipPath != "" && r.Valid()
    modifies d, r
    ensures r.Valid()
    ensures Answered(World(d.files, d.dirs, r.State()), reply)
         == AfterCore(s, true, message, Some(zipPath), World(old(d.files), old(d.dirs), old(r.State())))
  {
    ghost var w0 := World(d.files, d.dirs, r.State());
    var conn := ConnectionText(s);
    var backend := BackendForConnection(s, ConnectionNumber(conn));
    AfterCoreToConnection(s, message, zipPath, w0, conn, backend);
    var remoteDir := RemoteDir(s);
    var remoteFile := RemoteFile(s, zipPath);
    reply := ServeBackend(backend, d, r, zipPath, remoteDir, remoteFile, conn);
  }

  /** No backend for the connection: the archive is deleted; otherwise upload. */
  method ServeBackend(backend: Option<Backend>, d: Disk, r: Remote, zipPath: string,
                      remoteDir: string, remoteFile: string, conn: string) returns (reply: Reply)
    requires (backend.Some? && backend.value.Ftp? ==> StartsWith(backend.value.basePath, "/")) && r.Valid()
    modifies d, r
    ensures r.Valid()
    ensures backend.None? ==>
              World(d.files, d.dirs, r.State()) == World(old(d.files) - {zipPath}, old(d.dirs), old(r.State()))
              && reply == Reply(false, MsgNoConnection, " (Verbindung " + conn + ")")
    ensures backend.Some? ==>
              Answered(World(d.files, d.dirs, r.State()), reply)
              == Uploading(backend.value, World(old(d.files), old(d.dirs), old(r.State())), zipPath, remoteDir, remoteFile, conn)
  {
    if backend.None? {
      d.files := d.files - {zipPath};
      return Reply(false, MsgNoConnection, " (Verbindung " + conn + ")");
    }
    reply := UploadBackup(backend.value, d, r, zipPath, remoteDir, remoteFile, conn);
  }

  /** The two ways AfterCore goes once there is an archive for a connection. */
  lemma AfterCoreToConnection(s: Store, message: int, zipPath: string, w: World,
                              conn: string, backend: Option<Backend>)
    requires SaveToConnection(s) && zipPath != ""
    requires conn == ConnectionText(s) && backend == BackendForConnection(s, ConnectionNumber(conn))
    ensures backend.None? ==>
              AfterCore(s, true, message, Some(zipPath), w)
              == Answered(w.(files := w.files - {zipPath}), Reply(false, MsgNoConnection, " (Verbindung " + conn + ")"))
    ensures backend.Some? ==>
              AfterCore(s, true, message, Some(zipPath), w)
              == Uploading(backend.value, w, zipPath, RemoteDir(s), RemoteFile(s, zipPath), conn)
  {
  }
}
