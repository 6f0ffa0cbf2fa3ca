// The settings side of the sync service of plugin.program.dokukanal.buildsync:
// the service configuration `_load_settings` reads into module globals, the
// three connection profiles, the active profile and the remote path layout
// under `<base>/auto_fav_sync`.

module AutoSyncConfig {
  import opened Text
  import opened KodiSettings
  import opened SyncBackend

  // ------------------------------------------------------------ configuration

  /** How favourites are combined with the server copy. */
  datatype SyncMode = Merge | Overwrite

  /** The globals `_load_settings` assigns (the image settings are not part of
      this model). */
  datatype Config = Config(
    enabled: bool,
    isMainSystem: bool,
    overwriteStatic: bool,
    customFolder: string,
    specificCustomFolder: string,
    staticFolders: seq<string>,
    addonSync: bool,
    intervalMinutes: int,
    mode: SyncMode)

  /** `(text or 'merge').strip().lower()`, then anything but 'merge' and
      'overwrite' becomes 'merge'. */
  function ModeOf(text: string): (m: SyncMode)
    ensures m == Overwrite <==> Lower(Strip(if text == "" then "merge" else text)) == "overwrite"
  {
    if Lower(Strip(if text == "" then "merge" else text)) == "overwrite" then Overwrite else Merge
  }

  /** `_load_settings`. */
  function LoadSettings(s: Store): (c: Config)
    ensures c.staticFolders == CommaList(GetString(s, "static_folders", ""))
    ensures forall k :: 0 <= k < |c.staticFolders| ==> ListEntry(c.staticFolders[k])
  {
    CommaListEntries(GetString(s, "static_folders", ""));
    Config(
      GetBool(s, "enable_sync", false),
      GetBool(s, "is_main_system", true),
      GetBool(s, "overwrite_static", false),
      GetString(s, "custom_folder", ""),
      GetString(s, "specific_custom_folder", ""),
      CommaList(GetString(s, "static_folders", "")),
      GetBool(s, "addon_sync", true),
      IntOr(GetString(s, "favourites_sync_interval_minutes", "20"), 20),
      ModeOf(GetString(s, "favourites_sync_mode", "merge")))
  }

  /** An unset mode means merge. */
  lemma ModeDefault()
    ensures ModeOf("") == Merge
  {
    assert |Lower(Strip("merge"))| <= 5;
  }

  /** 'overwrite' with any surrounding blanks selects overwrite. */
  lemma ModeOverwrite(text: string)
    requires Strip(text) == "overwrite"
    ensures ModeOf(text) == Overwrite
  {
    assert text != "";
    LowerOfLower("overwrite");
  }

  /** The mode ignores case. */
  lemma ModeCaseInsensitive(text: string)
    ensures ModeOf(Lower(text)) == ModeOf(text)
  {
    if text != "" {
      assert Lower(text) != "";
      LowerStripCommute(text);
      LowerIsLower(Strip(text));
      LowerOfLower(Lower(Strip(text)));
    }
  }

  /** Lower-casing commutes with stripping white space. */
  lemma LowerStripCommute(s: string)
    ensures Strip(Lower(s)) == Lower(Strip(s))
  {
    LowerLStrip(s);
    LowerRStrip(LStrip(s));
  }

  lemma {:induction false} LowerLStrip(s: string)
    ensures LStrip(Lower(s)) == Lower(LStrip(s))
    decreases |s|
  {
    if |s| > 0 {
      assert Lower(s)[1..] == Lower(s[1..]);
      LowerLStrip(s[1..]);
    }
  }

  lemma {:induction false} LowerRStrip(s: string)
    ensures RStrip(Lower(s)) == Lower(RStrip(s))
    decreases |s|
  {
    if |s| > 0 {
      assert Lower(s)[..|s| - 1] == Lower(s[..|s| - 1]);
      LowerRStrip(s[..|s| - 1]);
    }
  }

  // ----------------------------------------------------------------- profiles

  /** One connection's settings as `_get_profile_settings` returns them. */
  datatype Profile = Profile(connectionType: string, host: string, user: string, password: string,
                             basePath: string, sftpPort: string)

  /** A connection number outside 1..3 is read as 1. */
  function ClampConnection(n: int): (m: int)
    ensures 1 <= m <= 3
    ensures 1 <= n <= 3 ==> m == n
  {
    if 1 <= n <= 3 then n else 1
  }

  /** The setting key of one field of a connection: `connection_<n>_<name>`. */
  function ProfileKey(n: int, name: string): string
  {
    "connection_" + IntToString(ClampConnection(n)) + "_" + name
  }

  /** The connection type index 0, 1, 2 names ftp, sftp, smb; anything else is ftp. */
  function TypeName(index: int): (t: string)
    ensures t == "ftp" || t == "sftp" || t == "smb"
  {
    if index == 1 then "sftp" else if index == 2 then "smb" else "ftp"
  }

  /** `_get_profile_settings(n)`. */
  function ProfileSettings(s: Store, n: int): (p: Profile)
    ensures p.connectionType == "ftp" || p.connectionType == "sftp" || p.connectionType == "smb"
    ensures p.sftpPort != ""
  {
    Profile(
      TypeName(IntOr(GetString(s, ProfileKey(n, "connection_type"), "0"), 0)),
      GetString(s, ProfileKey(n, "ftp_host"), ""),
      GetString(s, ProfileKey(n, "ftp_user"), ""),
      GetString(s, ProfileKey(n, "ftp_pass"), ""),
      GetString(s, ProfileKey(n, "ftp_base_path"), ""),
      GetString(s, ProfileKey(n, "sftp_port"), "22"))
  }

  /** A stored type index picks the transport: 0/1/2 give ftp/sftp/smb, and
      every other number gives ftp. */
  lemma ProfileTypeOfIndex(s: Store, n: int, index: int)
    requires Raw(s, ProfileKey(n, "connection_type")) == IntToString(index)
    ensures ProfileSettings(s, n).connectionType ==
              (if index == 1 then "sftp" else if index == 2 then "smb" else "ftp")
  {
    ParseIntOfIntToString(index);
  }

  /** A type setting that is not a number gives ftp. */
  lemma ProfileTypeOfGarbage(s: Store, n: int)
    requires ParseInt(Raw(s, ProfileKey(n, "connection_type"))).None?
    ensures ProfileSettings(s, n).connectionType == "ftp"
  {
  }

  /** Connection numbers outside 1..3 read connection 1. */
  lemma ProfileOutOfRange(s: Store, n: int)
    requires !(1 <= n <= 3)
    ensures ProfileSettings(s, n) == ProfileSettings(s, 1)
  {
  }

  /** The active connection number: `int(active_connection or '1')`, 1 when that
      is not a number. */
  function ActiveIndex(s: Store): int
  {
    IntOr(GetString(s, "active_connection", "1"), 1)
  }

  /** `_get_active_profile_settings`: connection 1..3, or for "None" (0) and any
      other number connection 1's settings with the host emptied. */
  function ActiveProfile(s: Store): (p: Profile)
    ensures 1 <= ActiveIndex(s) <= 3 ==> p == ProfileSettings(s, ActiveIndex(s))
    ensures !(1 <= ActiveIndex(s) <= 3) ==> p == ProfileSettings(s, 1).(host := "")
  {
    var active := ActiveIndex(s);
    if 1 <= active <= 3 then ProfileSettings(s, active) else ProfileSettings(s, 1).(host := "")
  }

  /** `_has_connection_configured`: the active host is not blank. */
  predicate HasConnection(s: Store)
  {
    Strip(ActiveProfile(s).host) != ""
  }

  /** Choosing "None" (0) as the active connection switches all remote actions
      off, whatever connection 1 holds. */
  lemma NoneMeansNoConnection(s: Store)
    requires Raw(s, "active_connection") == "0"
    ensures ActiveIndex(s) == 0 && !HasConnection(s)
  {
    ParseIntOfIntToString(0);
    assert IntToString(0) == "0";
    assert Strip("") == "" by {
      StripEmptyIffAllSpace("");
    }
  }

  /** `_get_backend`: the factory applied to the active profile; None where it
      raises (a non-numeric SFTP port). */
  function ActiveBackend(s: Store): (b: Option<Backend>)
    ensures b.Some? && b.value.Ftp? ==> StartsWith(b.value.basePath, "/")
  {
    var p := ActiveProfile(s);
    GetBackend(p.connectionType, p.host, p.user, p.password, p.basePath, p.sftpPort)
  }

  /** The backend is of the profile's type: ftp always builds, smb always
      builds, sftp builds exactly when the port is a number. */
  lemma ActiveBackendKind(s: Store)
    ensures ActiveProfile(s).connectionType == "ftp" ==> ActiveBackend(s).Some? && ActiveBackend(s).value.Ftp?
    ensures ActiveProfile(s).connectionType == "smb" ==> ActiveBackend(s).Some? && ActiveBackend(s).value.Smb?
    ensures ActiveProfile(s).connectionType == "sftp" ==>
              (ActiveBackend(s).Some? <==> ParseInt(ActiveProfile(s).sftpPort).Some?)
              && (ActiveBackend(s).Some? ==> ActiveBackend(s).value.Sftp?)
  {
    var p := ActiveProfile(s);
    KindOfName(p.connectionType);
  }

  lemma KindOfName(t: string)
    requires t == "ftp" || t == "sftp" || t == "smb"
    ensures ConnectionKind(t) == t
  {
    LStripOfTrimmed(t);
    RStripOfTrimmed(t);
    LowerOfLower(t);
  }

  // -------------------------------------------------------------- remote path

  /** The profile's base path with blanks and outer slashes stripped. */
  function SyncBase(basePath: string): string
  {
    StripChar(Strip(basePath), '/')
  }

  /** The leading segments: the base (when there is one) and `auto_fav_sync`. */
  function HeadSegs(basePath: string): (r: seq<string>)
    ensures |r| >= 1 && r[|r| - 1] == "auto_fav_sync"
  {
    if SyncBase(basePath) != "" then [SyncBase(basePath), "auto_fav_sync"] else ["auto_fav_sync"]
  }

  /** The segment one path part contributes: none for an empty part; otherwise
      the part with outer slashes stripped, lower-cased unless it has a '.'. */
  function PartSeg(part: string): (r: seq<string>)
    ensures |r| <= 1
  {
    if part == "" then []
    else
      var t := StripChar(part, '/');
      [if '.' !in t then Lower(t) else t]
  }

  /** The segments of all parts, defined from the last part. */
  function PartSegs(parts: seq<string>): seq<string>
  {
    if |parts| == 0 then [] else PartSegs(parts[..|parts| - 1]) + PartSeg(parts[|parts| - 1])
  }

  /** `_remote_path(*parts)` for a profile base path. */
  function RemotePathOf(basePath: string, parts: seq<string>): (r: string)
    ensures StartsWith(r, "/")
  {
    "/" + Join(HeadSegs(basePath) + PartSegs(parts), "/")
  }

  /** `_remote_path`, with its loop over the parts. */
  method RemotePath(basePath: string, parts: seq<string>) returns (r: string)
    ensures r == RemotePathOf(basePath, parts)
  {
    var segs := AppendPartSegs(HeadSegs(basePath), parts);
    r := "/" + Join(segs, "/");
  }

  /** The loop of `_remote_path`: each part's segment appended in turn. */
  method AppendPartSegs(head: seq<string>, parts: seq<string>) returns (segs: seq<string>)
    ensures segs == head + PartSegs(parts)
  {
    segs := head;
    var i := 0;
    while i < |parts|
      invariant 0 <= i <= |parts|
      invariant segs == head + PartSegs(parts[..i])
    {
      PartSegsStep(head, parts, i);
      segs := segs + PartSeg(parts[i]);
      i := i + 1;
    }
    assert parts[..|parts|] == parts;
  }

  lemma PartSegsStep(head: seq<string>, parts: seq<string>, i: nat)
    requires i < |parts|
    ensures head + PartSegs(parts[..i + 1]) == (head + PartSegs(parts[..i])) + PartSeg(parts[i])
  {
    assert parts[..i + 1][..i] == parts[..i];
  }

  /** One more part adds its segment under the path built so far. */
  lemma RemotePathSnoc(basePath: string, parts: seq<string>, part: string)
    ensures part == "" ==> RemotePathOf(basePath, parts + [part]) == RemotePathOf(basePath, parts)
    ensures part != "" ==> RemotePathOf(basePath, parts + [part]) ==
                             RemotePathOf(basePath, parts) + "/" + PartSeg(part)[0]
  {
    var head := HeadSegs(basePath);
    var h := head + PartSegs(parts);
    SegsSnoc(head, parts, part);
    SlashJoinPart(h, part);
  }

  lemma SegsSnoc(head: seq<string>, parts: seq<string>, part: string)
    ensures head + PartSegs(parts + [part]) == (head + PartSegs(parts)) + PartSeg(part)
  {
    var more := parts + [part];
    PartSegsStep(head, more, |parts|);
    assert more[..|parts|] == parts && more[..|parts| + 1] == more;
  }

  lemma SlashJoinPart(h: seq<string>, part: string)
    requires |h| >= 1
    ensures part == "" ==> "/" + Join(h + PartSeg(part), "/") == "/" + Join(h, "/")
    ensures part != "" ==> "/" + Join(h + PartSeg(part), "/") == ("/" + Join(h, "/")) + "/" + PartSeg(part)[0]
  {
    var ps := PartSeg(part);
    if part != "" {
      assert ps == [ps[0]];
      SlashJoinSnoc(h, ps[0]);
    } else {
      assert h + ps == h;
    }
  }

  lemma SlashJoinSnoc(h: seq<string>, x: string)
    requires |h| >= 1
    ensures "/" + Join(h + [x], "/") == ("/" + Join(h, "/")) + "/" + x
  {
    JoinSnoc(h, x, "/");
  }

  /** A part with a '.' and no slash, such as `favourites.xml`, is kept as it is. */
  lemma FileNameSeg(name: string)
    requires '.' in name && '/' !in name
    ensures PartSeg(name) == [name]
  {
    assert name != "";
    assert LStripChar(name, '/') == name;
    assert RStripChar(name, '/') == name;
  }

  /** The file `name` of a folder sits directly inside that folder's path. */
  lemma RemoteFileInFolder(basePath: string, parts: seq<string>, name: string)
    requires '.' in name && '/' !in name
    ensures RemotePathOf(basePath, parts + [name]) == RemotePathOf(basePath, parts) + "/" + name
  {
    FileNameSeg(name);
    RemotePathSnoc(basePath, parts, name);
  }

  /** The remote path of a file in a folder names, on every transport, the
      entry of that name inside the folder's remote directory. */
  lemma RemoteFileTarget(b: Backend, basePath: string, parts: seq<string>, name: string)
    requires b.Ftp? ==> StartsWith(b.basePath, "/")
    requires '.' in name && '/' !in name && '\\' !in name
    ensures Target(b, RemotePathOf(basePath, parts + [name])) == Target(b, RemotePathOf(basePath, parts)) + [name]
  {
    RemoteFileInFolder(basePath, parts, name);
    TargetChild(b, RemotePathOf(basePath, parts), name);
  }

  lemma {:induction false} LowerLStripSlash(s: string)
    ensures LStripChar(Lower(s), '/') == Lower(LStripChar(s, '/'))
    decreases |s|
  {
    if |s| > 0 {
      assert Lower(s)[1..] == Lower(s[1..]);
      assert Lower(s)[0] == '/' <==> s[0] == '/';
      LowerLStripSlash(s[1..]);
    }
  }

  lemma {:induction false} LowerRStripSlash(s: string)
    ensures RStripChar(Lower(s), '/') == Lower(RStripChar(s, '/'))
    decreases |s|
  {
    if |s| > 0 {
      assert Lower(s)[..|s| - 1] == Lower(s[..|s| - 1]);
      assert Lower(s)[|s| - 1] == '/' <==> s[|s| - 1] == '/';
      LowerRStripSlash(s[..|s| - 1]);
    }
  }

  lemma LowerStripSlash(s: string)
    ensures StripChar(Lower(s), '/') == Lower(StripChar(s, '/'))
  {
    LowerLStripSlash(s);
    LowerRStripSlash(LStripChar(s, '/'));
  }

  lemma LowerKeepsDot(s: string)
    ensures '.' in Lower(s) <==> '.' in s
  {
    if '.' in s {
      var i :| 0 <= i < |s| && s[i] == '.';
      assert Lower(s)[i] == '.';
    }
  }

  /** Folder parts are case-insensitive: a folder given in any case names the
      same remote path as its lower-case form. */
  lemma FolderPartCaseInsensitive(part: string)
    requires '.' !in part
    ensures PartSeg(Lower(part)) == PartSeg(part)
  {
    if part != "" {
      var t := StripChar(part, '/');
      LowerStripSlash(part);
      StripCharChars(part, '/');
      StripCharChars(Lower(part), '/');
      LowerKeepsDot(part);
      assert '.' !in t && '.' !in Lower(t);
      LowerIsLower(t);
      LowerOfLower(Lower(t));
    }
  }
}
