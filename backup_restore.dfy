// Build backups of the Kodi home: which archive names count as a backup of this
// add-on, which entries a restore extracts, which files a backup archives, how
// the archive is named, and how the local backups are listed.

module BackupRestore {
  import opened Text
  import opened FileTree
  import opened PosixPath

  const AddonId: string := "plugin.program.dokukanal.buildsync"
  const ExcludeDirs: seq<string> := ["cache", "temp", "packages", "archive_cache"]
  const AddonsExclude: seq<string> := ["packages"]
  const ExcludeFiles: seq<string> := ["kodi.log", "kodi.old.log", "xbmc.log", "xbmc.old.log", ".DS_Store"]
  const BackupFilenamePrefix: string := "doku_backup_"
  const ManifestName: string := "doku_backup_manifest.json"
  /** The only top-level locations an archive entry may name, in both separator styles. */
  const AllowedPrefixes: seq<string> := ["userdata/", "userdata\\", "addons/", "addons\\"]

  // Localised message ids the operations report.
  const MsgBackupDone := 30041
  const MsgFailed := 30042
  const MsgNoBackupDir := 30043
  const MsgNothingToBackup := 30044
  const MsgRestoreDone := 30141
  const MsgCancelled := 30146

  /** `any(norm.startswith(p.replace('\\', '/')) for p in BACKUP_ALLOWED_PREFIXES)` */
  predicate AllowedPrefix(norm: string)
  {
    exists k :: 0 <= k < |AllowedPrefixes| && StartsWith(norm, FoldSlashes(AllowedPrefixes[k]))
  }

  /** After folding, the four allowed prefixes are just `userdata/` and `addons/`. */
  lemma AllowedPrefixIff(norm: string)
    ensures AllowedPrefix(norm) <==> StartsWith(norm, "userdata/") || StartsWith(norm, "addons/")
  {
    FoldedPrefixes();
  }

  lemma FoldedPrefixes()
    ensures FoldSlashes(AllowedPrefixes[0]) == FoldSlashes(AllowedPrefixes[1]) == "userdata/"
    ensures FoldSlashes(AllowedPrefixes[2]) == FoldSlashes(AllowedPrefixes[3]) == "addons/"
  {
    assert FoldSlashes(AllowedPrefixes[0]) == "userdata/" by {
      assert AllowedPrefixes[0] == "userdata" + "/";
      FoldEnd("userdata");
    }
    assert FoldSlashes(AllowedPrefixes[1]) == "userdata/" by {
      assert AllowedPrefixes[1] == "userdata" + "\\";
      FoldEnd("userdata");
    }
    assert FoldSlashes(AllowedPrefixes[2]) == "addons/" by {
      assert AllowedPrefixes[2] == "addons" + "/";
      FoldEnd("addons");
    }
    assert FoldSlashes(AllowedPrefixes[3]) == "addons/" by {
      assert AllowedPrefixes[3] == "addons" + "\\";
      FoldEnd("addons");
    }
  }

  lemma FoldEnd(base: string)
    requires '\\' !in base
    ensures FoldSlashes(base + "/") == FoldSlashes(base + "\\") == base + "/"
  {
  }

  /** The path check both validation and restore apply to an entry: after
      folding backslashes, no ".." anywhere (a substring test) and an allowed
      top-level prefix. */
  predicate SafeEntry(name: string)
  {
    var norm := FoldSlashes(name);
    !Contains(norm, "..") && AllowedPrefix(norm)
  }

  /** A safe entry is a relative path without "..", however it was spelled. */
  lemma SafeEntryShape(name: string)
    requires SafeEntry(name)
    ensures !StartsWith(name, "/") && !Contains(name, "..")
  {
    AllowedPrefixIff(FoldSlashes(name));
    assert name[0] == FoldSlashes(name)[0];
    if Contains(name, "..") {
      FoldKeepsDots(name);
    }
  }

  lemma {:induction false} FoldKeepsDots(s: string)
    requires Contains(s, "..")
    ensures Contains(FoldSlashes(s), "..")
    decreases |s|
  {
    if StartsWith(s, "..") {
      assert FoldSlashes(s)[..2] == "..";
    } else {
      FoldKeepsDots(s[1..]);
      assert FoldSlashes(s)[1..] == FoldSlashes(s[1..]);
    }
  }

  // ---------------------------------------------------------------------------
  // The archive as the code sees it

  /** A JSON value as `json.loads` returns it. */
  datatype Json =
    | JNull
    | JBool(b: bool)
    | JNumber(n: real)
    | JString(s: string)
    | JArray(items: seq<Json>)
    | JObject(fields: map<string, Json>)

  /** The manifest member's content: text that does not decode as UTF-8 JSON, or the value. */
  datatype Manifest = Undecodable | Decoded(value: Json)

  /** A zip archive: its member names in directory order, and what reading the
      manifest member yields (consulted only when that member is listed). */
  datatype Zip = Zip(names: seq<string>, manifest: Manifest)

  /** What is at a local path: nothing, something zipfile cannot open, or an archive. */
  datatype ZipFile = NoFile | Unreadable | Readable(zip: Zip)

  /** `d.get(key)` with None as JNull. */
  function Field(fields: map<string, Json>, key: string): Json
  {
    if key in fields then fields[key] else JNull
  }

  /** Python's `v == 1` on a decoded JSON value: the integer 1, the float 1.0
      and `true` all compare equal to 1. */
  predicate EqualsOne(v: Json)
  {
    v == JNumber(1.0) || v == JBool(true)
  }

  /** The manifest proves the archive's origin: an object whose creator is this
      add-on and whose version is 1.  Any other decoded value makes `.get`
      raise, which rejects the archive just the same. */
  predicate ManifestAccepted(m: Manifest)
  {
    m.Decoded? && m.value.JObject?
    && Field(m.value.fields, "creator") == JString(AddonId)
    && EqualsOne(Field(m.value.fields, "version"))
  }

  predicate UserdataEntry(name: string)
  {
    StartsWith(name, "userdata/") || StartsWith(name, "userdata\\")
  }

  /** Entries the per-entry path check looks at: not the manifest, not a directory. */
  predicate Checked(name: string)
  {
    name != ManifestName && !EndsWith(name, "/")
  }

  /** The archive shows it was made by this add-on: an accepted manifest, or,
      for archives from before manifests existed, at least one userdata entry. */
  predicate ProvesOrigin(z: Zip)
  {
    if ManifestName in z.names then ManifestAccepted(z.manifest)
    else exists n :: n in z.names && UserdataEntry(n)
  }

  /** Every checked entry of the archive is safe. */
  predicate AllSafe(names: seq<string>)
  {
    forall n :: n in names && Checked(n) ==> SafeEntry(n)
  }

  /** `_is_valid_build_backup(path)`. */
  predicate IsValidBuildBackup(path: string, f: ZipFile)
  {
    path != "" && EndsWith(Lower(path), ".zip") && f.Readable?
    && ProvesOrigin(f.zip) && AllSafe(f.zip.names)
  }

  /** The validation as the code runs it: early rejects, then a scan of the
      names that stops at the first unsafe one. */
  method CheckBuildBackup(path: string, f: ZipFile) returns (ok: bool)
    ensures ok == IsValidBuildBackup(path, f)
    ensures ok ==> EndsWith(Lower(path), ".zip") && f.Readable?
  {
    if path == "" || !EndsWith(Lower(path), ".zip") || f.NoFile? {
      return false;
    }
    if f.Unreadable? {
      return false;
    }
    var names := f.zip.names;
    if ManifestName in names {
      if !ManifestAccepted(f.zip.manifest) {
        return false;
      }
    } else if !(exists n :: n in names && UserdataEntry(n)) {
      return false;
    }
    assert ProvesOrigin(f.zip);
    ok := ScanEntries(names);
  }

  /** The loop over the names that stops at the first unsafe checked entry. */
  method ScanEntries(names: seq<string>) returns (ok: bool)
    ensures ok == AllSafe(names)
  {
    var i := 0;
    while i < |names|
      invariant 0 <= i <= |names|
      invariant forall k :: 0 <= k < i && Checked(names[k]) ==> SafeEntry(names[k])
    {
      var n := names[i];
      if Checked(n) {
        var norm := FoldSlashes(n);
        if Contains(norm, "..") || !AllowedPrefix(norm) {
          assert n in names && Checked(n) && !SafeEntry(n);
          return false;
        }
      }
      i := i + 1;
    }
    forall n | n in names && Checked(n) ensures SafeEntry(n) {
      var k :| 0 <= k < |names| && names[k] == n;
    }
    return true;
  }

  // ---------------------------------------------------------------------------
  // Restore

  /** How a restore ends. */
  datatype RestoreResult =
    | NoPath                  // the path is empty or does not end in ".zip"
    | FileNotFound
    | Cancelled               // the progress callback asked to stop
    | Failed                  // zipfile could not open the archive
    | Restored(errors: nat)   // finished; this many entries failed to extract

  function RestoreMessage(r: RestoreResult): int
  {
    match r
    case Cancelled => MsgCancelled
    case Restored(_) => MsgRestoreDone
    case _ => MsgFailed
  }

  /** The first element of the returned pair. */
  predicate RestoreSucceeded(r: RestoreResult)
  {
    r.Restored?
  }

  /** Names the restore walks through: everything but directory entries. */
  function FileEntries(names: seq<string>): seq<string>
  {
    Filter(names, (n: string) => !EndsWith(n, "/"))
  }

  /** An entry of this add-on's own settings, which a restore never overwrites. */
  predicate OwnAddonData(name: string)
  {
    Contains(name, AddonId) && Contains(name, "addon_data")
  }

  /** The normalised extraction target still lies under the extract root. */
  predicate InsideRoot(root: string, name: string)
  {
    StartsWith(NormPath(PathJoin(root, name)), root)
  }

  /** All guards an entry passes before extraction is attempted. */
  predicate Extractable(root: string, name: string)
  {
    name != ManifestName && SafeEntry(name) && !OwnAddonData(name) && InsideRoot(root, name)
  }

  /** The entries extracted from a sequence of file entries, when `fails` are the
      ones whose extraction raises. */
  function Extracted(root: string, names: seq<string>, fails: set<string>): seq<string>
  {
    Filter(names, (n: string) => Extractable(root, n) && n !in fails)
  }

  /** The entries whose extraction was attempted and raised. */
  function ExtractErrors(root: string, names: seq<string>, fails: set<string>): seq<string>
  {
    Filter(names, (n: string) => Extractable(root, n) && n in fails)
  }

  /** `restore_from_zip_core` as a function of its inputs: the archive at the
      path, the home directory, the index at which the progress callback first
      asks to cancel, and the entries whose extraction raises.  The second
      component lists the entries written, in order.  The `special://`
      translation is taken as already applied to `f`. */
  function RestoreOutcome(zipPath: string, f: ZipFile, home: string, cancelAt: Option<nat>, fails: set<string>)
    : (RestoreResult, seq<string>)
  {
    if zipPath == "" || !EndsWith(zipPath, ".zip") then (NoPath, [])
    else if f.NoFile? then (FileNotFound, [])
    else if f.Unreadable? then (Failed, [])
    else
      var names := FileEntries(f.zip.names);
      var root := NormPath(home);
      if cancelAt.Some? && cancelAt.value < |names|
      then (Cancelled, Extracted(root, names[..cancelAt.value], fails))
      else (Restored(|ExtractErrors(root, names, fails)|), Extracted(root, names, fails))
  }

  method RestoreFromZipCore(zipPath: string, f: ZipFile, home: string, cancelAt: Option<nat>, fails: set<string>)
    returns (r: RestoreResult, extracted: seq<string>)
    ensures (r, extracted) == RestoreOutcome(zipPath, f, home, cancelAt, fails)
  {
    if zipPath == "" || !EndsWith(zipPath, ".zip") {
      return NoPath, [];
    }
    if f.NoFile? {
      return FileNotFound, [];
    }
    if f.Unreadable? {
      return Failed, [];
    }
    var names := FileEntries(f.zip.names);
    var root := NormPath(home);
    extracted := [];
    var errors: seq<string> := [];
    var i := 0;
    while i < |names|
      invariant 0 <= i <= |names|
      invariant cancelAt.Some? ==> cancelAt.value >= i
      invariant extracted == Extracted(root, names[..i], fails)
      invariant errors == ExtractErrors(root, names[..i], fails)
    {
      if cancelAt == Some(i) {
        return Cancelled, extracted;
      }
      var name := names[i];
      assert names[..i + 1] == names[..i] + [name];
      if name != ManifestName {
        var norm := FoldSlashes(name);
        if !Contains(norm, "..") && AllowedPrefix(norm) && !OwnAddonData(name) {
          var target := NormPath(PathJoin(root, name));
          if StartsWith(target, root) {
            if name in fails {
              errors := errors + [name];
            } else {
              extracted := extracted + [name];
            }
          }
        }
      }
      i := i + 1;
    }
    assert names[..i] == names;
    return Restored(|errors|), extracted;
  }

  /** Everything a restore writes is a file entry of the archive that passed
      every guard: not the manifest, a safe path, not this add-on's own data. */
  lemma RestoreWritesOnlySafeEntries(zipPath: string, f: ZipFile, home: string, cancelAt: Option<nat>, fails: set<string>)
    ensures var (r, extracted) := RestoreOutcome(zipPath, f, home, cancelAt, fails);
      forall n :: n in extracted ==>
        f.Readable? && n in f.zip.names && !EndsWith(n, "/") && n != ManifestName
        && SafeEntry(n) && !OwnAddonData(n) && n !in fails
  {
    if f.Readable? {
      var names := FileEntries(f.zip.names);
      FilterMembers(f.zip.names, (n: string) => !EndsWith(n, "/"));
      var root := NormPath(home);
      var keep := (n: string) => Extractable(root, n) && n !in fails;
      FilterMembers(names, keep);
      if cancelAt.Some? && cancelAt.value < |names| {
        FilterMembers(names[..cancelAt.value], keep);
      }
    }
  }

  /** A cancel stops the restore with failure, keeping exactly the entries
      already written, which are a prefix of what the full run writes. */
  lemma RestoreCancelKeepsEarlier(zipPath: string, f: ZipFile, home: string, k: nat, fails: set<string>)
    requires zipPath != "" && EndsWith(zipPath, ".zip") && f.Readable?
    requires k < |FileEntries(f.zip.names)|
    ensures var (r, extracted) := RestoreOutcome(zipPath, f, home, Some(k), fails);
      var (_, full) := RestoreOutcome(zipPath, f, home, None, fails);
      r == Cancelled && !RestoreSucceeded(r) && RestoreMessage(r) == MsgCancelled
      && |extracted| <= |full| && full[..|extracted|] == extracted
  {
    var names := FileEntries(f.zip.names);
    var root := NormPath(home);
    var keep := (n: string) => Extractable(root, n) && n !in fails;
    assert names == names[..k] + names[k..];
    FilterConcat(names[..k], names[k..], keep);
  }

  /** Entries whose extraction raises are counted, and the restore still succeeds. */
  lemma RestoreErrorsStillSucceed(zipPath: string, f: ZipFile, home: string, fails: set<string>)
    requires zipPath != "" && EndsWith(zipPath, ".zip") && f.Readable?
    ensures var (r, _) := RestoreOutcome(zipPath, f, home, None, fails);
      RestoreSucceeded(r) && RestoreMessage(r) == MsgRestoreDone
      && r.errors == |ExtractErrors(NormPath(home), FileEntries(f.zip.names), fails)|
  {
  }

  /** Under a POSIX home of plain components, the normalised-target guard never
      fires: restore extracts exactly the entries that pass the name guards. */
  lemma RestoreTargetGuardRedundant(rs: seq<string>, name: string)
    requires forall k :: 0 <= k < |rs| ==> PlainComponent(rs[k])
    ensures Extractable(NormPath(Root(rs)), name)
      <==> name != ManifestName && SafeEntry(name) && !OwnAddonData(name)
  {
    NormPathOfRoot(rs);
    if SafeEntry(name) {
      SafeEntryShape(name);
      NormalisedTargetInsideRoot(rs, name);
    }
  }

  /** The restore entry point tests the ".zip" suffix case-sensitively while
      validation lowers the path first, so "B.ZIP" validates by name but is
      refused by restore. */
  lemma ZipSuffixCaseDiffers()
    ensures EndsWith(Lower("B.ZIP"), ".zip")
    ensures RestoreOutcome("B.ZIP", NoFile, "/", None, {}).0 == NoPath
  {
    assert Lower("B.ZIP") == "b.zip";
  }

  // ---------------------------------------------------------------------------
  // What a backup archives

  /** An entry of the configurable backup list: its `path` kind ("user_path",
      "data_path" or anything else), `setting_id`, `file` and `folder`, with ""
      for a missing or empty value; or an entry that is not an object. */
  datatype ConfigItem = NotADict | Item(pathType: string, settingId: string, file: string, folder: string)

  predicate KeepConfigDir(d: string)
  {
    d !in ExcludeDirs
  }

  predicate KeepConfigFile(f: string)
  {
    f !in ExcludeFiles && !StartsWith(f, "._")
  }

  /** The file filter of the full userdata walk and the add-ons walk: compiled
      Python files are skipped as well. */
  predicate KeepWalkedFile(f: string)
  {
    KeepConfigFile(f) && !EndsWith(Lower(f), ".pyo")
  }

  /** The directory filter of the full userdata walk: add-on data is pruned
      unless it is included. */
  function KeepUserdataDir(includeAddonData: bool): string -> bool
  {
    (d: string) => d !in ExcludeDirs && (includeAddonData || d != "addon_data")
  }

  predicate KeepAddonsDir(d: string)
  {
    d !in AddonsExclude
  }

  /** Relative path strings of walked files below the directory at `at`. */
  function RelPaths(at: seq<string>, walked: seq<seq<string>>): (r: seq<string>)
    ensures |r| == |walked|
    ensures forall k :: 0 <= k < |r| ==> r[k] == RelPath(at + walked[k])
  {
    if |walked| == 0 then [] else [RelPath(at + walked[0])] + RelPaths(at, walked[1..])
  }

  predicate IsFileAt(userdata: seq<Node>, path: seq<string>)
  {
    Lookup(userdata, path).Some? && Lookup(userdata, path).value.File?
  }

  /** The entry's path kind, "user_path" when missing. */
  function PathKind(item: ConfigItem): string
    requires item.Item?
  {
    if item.pathType != "" then item.pathType else "user_path"
  }

  /** Where a `file` entry is looked up: userdata for "user_path", userdata/addon_data otherwise. */
  function ItemBase(item: ConfigItem): seq<string>
    requires item.Item?
  {
    if PathKind(item) == "user_path" then [] else ["addon_data"]
  }

  /** Where a `folder` entry is looked up: like a file, except that "data_path"
      (sic) looks under userdata itself. */
  function FolderAt(item: ConfigItem): seq<string>
    requires item.Item?
  {
    (if PathKind(item) == "data_path" then [] else ItemBase(item)) + Segments(item.folder)
  }

  /** The setting an entry depends on is off, missing or unreadable. */
  predicate SwitchedOff(item: ConfigItem, settings: map<string, bool>)
    requires item.Item?
  {
    item.settingId != "" && (item.settingId !in settings || !settings[item.settingId])
  }

  /** The userdata-relative paths one configured entry contributes: an existing
      `file`, kept as given (or under addon_data/), or every walked file of an
      existing `folder`. */
  function ConfigItemPaths(item: ConfigItem, settings: map<string, bool>, userdata: seq<Node>): seq<string>
  {
    if item.NotADict? || SwitchedOff(item, settings) then []
    else if item.file != "" then
      if IsFileAt(userdata, ItemBase(item) + Segments(item.file))
      then [if PathKind(item) == "user_path" then item.file else PathJoin("addon_data", item.file)]
      else []
    else if item.folder != "" then
      var found := Lookup(userdata, FolderAt(item));
      if found.Some? && found.value.Dir?
      then RelPaths(FolderAt(item), Walk(found.value.entries, KeepConfigDir, KeepConfigFile))
      else []
    else []
  }

  /** The paths the whole configured list contributes, item after item. */
  function ConfigPaths(config: seq<ConfigItem>, settings: map<string, bool>, userdata: seq<Node>): seq<string>
  {
    if |config| == 0 then []
    else ConfigPaths(config[..|config| - 1], settings, userdata) + ConfigItemPaths(config[|config| - 1], settings, userdata)
  }

  method CollectBackupItemsFromConfig(config: seq<ConfigItem>, settings: map<string, bool>, userdata: seq<Node>)
    returns (rels: seq<string>)
    ensures rels == ConfigPaths(config, settings, userdata)
  {
    rels := [];
    var i := 0;
    while i < |config|
      invariant 0 <= i <= |config|
      invariant rels == ConfigPaths(config[..i], settings, userdata)
    {
      assert config[..i + 1][..i] == config[..i];
      rels := rels + ConfigItemPaths(config[i], settings, userdata);
      i := i + 1;
    }
    assert config[..i] == config;
  }

  /** An item whose setting is off or unreadable contributes nothing. */
  lemma DisabledItemSkipped(item: ConfigItem, settings: map<string, bool>, userdata: seq<Node>)
    requires item.Item? && SwitchedOff(item, settings)
    ensures ConfigItemPaths(item, settings, userdata) == []
  {
  }

  /** Every walked path of a configured folder lies inside that folder and
      avoids the excluded directories and files. */
  lemma {:induction false} ConfigFolderAdmitted(item: ConfigItem, settings: map<string, bool>, userdata: seq<Node>)
    requires item.Item? && item.file == "" && item.folder != ""
    ensures forall rel :: rel in ConfigItemPaths(item, settings, userdata) ==>
      exists p :: Admitted(p, KeepConfigDir, KeepConfigFile) && rel == RelPath(FolderAt(item) + p)
  {
    var found := Lookup(userdata, FolderAt(item));
    if !SwitchedOff(item, settings) && found.Some? && found.value.Dir? {
      var walked := Walk(found.value.entries, KeepConfigDir, KeepConfigFile);
      WalkAdmitted(found.value.entries, KeepConfigDir, KeepConfigFile);
      var rs := RelPaths(FolderAt(item), walked);
      assert ConfigItemPaths(item, settings, userdata) == rs;
      forall rel | rel in rs
        ensures exists p :: Admitted(p, KeepConfigDir, KeepConfigFile) && rel == RelPath(FolderAt(item) + p)
      {
        var k :| 0 <= k < |rs| && rs[k] == rel;
        assert walked[k] in walked;
      }
    }
  }

  /** The userdata-relative paths of the full walk used when no list is configured. */
  function DefaultUserdataPaths(userdata: seq<Node>, includeAddonData: bool): seq<string>
  {
    RelPaths([], Walk(userdata, KeepUserdataDir(includeAddonData), KeepWalkedFile))
  }

  /** The userdata part: the configured list when there is a non-empty one,
      otherwise the full walk. */
  function UserdataPaths(config: Option<seq<ConfigItem>>, settings: map<string, bool>, userdata: seq<Node>, includeAddonData: bool): seq<string>
  {
    if config.Some? && |config.value| > 0 then ConfigPaths(config.value, settings, userdata)
    else DefaultUserdataPaths(userdata, includeAddonData)
  }

  /** `_collect_addons_for_backup`: archive names of the add-ons walk, or none
      when the add-ons directory is missing. */
  function AddonArcNames(addons: Option<seq<Node>>): (r: seq<string>)
  {
    if addons.None? then []
    else
      UnderDir("addons", RelPaths([], Walk(addons.value, KeepAddonsDir, KeepWalkedFile)))
  }

  /** `[os.path.join(top, rel) for rel in rels]` */
  function UnderDir(top: string, rels: seq<string>): (r: seq<string>)
    ensures |r| == |rels| && forall k :: 0 <= k < |rels| ==> r[k] == PathJoin(top, rels[k])
  {
    seq(|rels|, k requires 0 <= k < |rels| => PathJoin(top, rels[k]))
  }

  /** The full list of archive names, userdata first, then add-ons. */
  function ArcNames(config: Option<seq<ConfigItem>>, settings: map<string, bool>, userdata: seq<Node>,
                    addons: Option<seq<Node>>, includeAddonData: bool): seq<string>
  {
    UnderDir("userdata", UserdataPaths(config, settings, userdata, includeAddonData)) + AddonArcNames(addons)
  }

  /** A walked path of a well-named tree joins to a relative path string. */
  lemma RelPathRelative(p: seq<string>)
    requires |p| >= 1 && p[0] != "" && '/' !in p[0]
    ensures !StartsWith(RelPath(p), "/")
  {
    JoinPrefix([p[0]], p[1..], "/");
    assert [p[0]] + p[1..] == p;
    assert RelPath(p)[0] == p[0][0];
  }

  /** A walked path of a well-named tree, joined under a top-level directory. */
  lemma UnderTop(top: string, p: seq<string>)
    requires top != "" && top[|top| - 1] != '/'
    requires |p| >= 1 && p[0] != "" && '/' !in p[0]
    ensures PathJoin(top, RelPath(p)) == top + "/" + RelPath(p)
  {
    RelPathRelative(p);
  }

  /** Every add-on entry of a well-named add-ons tree is archived under
      `addons/`, and no path goes through `packages` or ends in a skipped file. */
  lemma AddonEntriesUnderAddons(addons: seq<Node>)
    requires WellNamed(addons)
    ensures forall a :: a in AddonArcNames(Some(addons)) ==>
      exists p :: Admitted(p, KeepAddonsDir, KeepWalkedFile) && a == "addons/" + RelPath(p)
  {
    var walked := Walk(addons, KeepAddonsDir, KeepWalkedFile);
    var arcs := AddonArcNames(Some(addons));
    WalkAdmitted(addons, KeepAddonsDir, KeepWalkedFile);
    WalkWellNamed(addons, KeepAddonsDir, KeepWalkedFile);
    forall a | a in arcs
      ensures exists p :: Admitted(p, KeepAddonsDir, KeepWalkedFile) && a == "addons/" + RelPath(p)
    {
      var k :| 0 <= k < |arcs| && arcs[k] == a;
      var p := walked[k];
      assert p in walked;
      AddonEntry(walked, k);
    }
  }

  lemma AddonEntry(walked: seq<seq<string>>, k: nat)
    requires k < |walked| && |walked[k]| >= 1 && walked[k][0] != "" && '/' !in walked[k][0]
    ensures UnderDir("addons", RelPaths([], walked))[k] == "addons/" + RelPath(walked[k])
  {
    var p := walked[k];
    assert RelPaths([], walked)[k] == RelPath(p) by {
      assert [] + p == p;
    }
    UnderTop("addons", p);
  }

  /** Without a configured list, every userdata entry is archived under
      `userdata/`, skips the excluded directories (and add-on data unless it is
      included) and is not an excluded file. */
  lemma {:induction false} DefaultEntriesUnderUserdata(userdata: seq<Node>, includeAddonData: bool)
    requires WellNamed(userdata)
    ensures forall rel :: rel in DefaultUserdataPaths(userdata, includeAddonData) ==>
      !StartsWith(rel, "/")
      && exists p :: Admitted(p, KeepUserdataDir(includeAddonData), KeepWalkedFile) && rel == RelPath(p)
  {
    var keepDir := KeepUserdataDir(includeAddonData);
    var walked := Walk(userdata, keepDir, KeepWalkedFile);
    WalkAdmitted(userdata, keepDir, KeepWalkedFile);
    WalkWellNamed(userdata, keepDir, KeepWalkedFile);
    var rels := RelPaths([], walked);
    forall rel | rel in rels
      ensures !StartsWith(rel, "/")
        && exists p :: Admitted(p, keepDir, KeepWalkedFile) && rel == RelPath(p)
    {
      var k :| 0 <= k < |rels| && rel == rels[k];
      var p := walked[k];
      assert p in walked;
      assert [] + p == p;
      RelPathRelative(p);
    }
  }

  // ---------------------------------------------------------------------------
  // Creating the archive

  /** A local time to the minute, as `datetime.now()` supplies it. */
  datatype Stamp = Stamp(day: nat, month: nat, year: nat, hour: nat, minute: nat)

  /** Calendar ranges; four-digit years only, where `%Y` is four digits wide. */
  predicate ValidStamp(t: Stamp)
  {
    1 <= t.day <= 31 && 1 <= t.month <= 12 && 1000 <= t.year <= 9999 && t.hour < 24 && t.minute < 60
  }

  function Pad2(n: nat): (r: string)
    requires n < 100
    ensures |r| == 2 && AllDigits(r)
  {
    [DigitChar(n / 10), DigitChar(n % 10)]
  }

  function Pad4(n: nat): (r: string)
    requires n < 10000
    ensures |r| == 4 && AllDigits(r)
  {
    Pad2(n / 100) + Pad2(n % 100)
  }

  /** `"doku_backup_%s.zip" % now.strftime('%d%m%Y_%H%M')` */
  function BackupFileName(t: Stamp): (r: string)
    requires ValidStamp(t)
    ensures |r| == 29
  {
    BackupFilenamePrefix + Pad2(t.day) + Pad2(t.month) + Pad4(t.year) + "_" + Pad2(t.hour) + Pad2(t.minute) + ".zip"
  }

  function DigitVal(c: char): nat
  {
    if IsDigit(c) then c as int - '0' as int else 0
  }

  function Two(s: string, i: nat): nat
    requires i + 2 <= |s|
  {
    DigitVal(s[i]) * 10 + DigitVal(s[i + 1])
  }

  /** Reads the time back from a backup file name: the inverse of BackupFileName. */
  function ParseStamp(name: string): Option<Stamp>
  {
    if |name| == 29 && StartsWith(name, BackupFilenamePrefix) && EndsWith(name, ".zip") && name[20] == '_'
       && AllDigits(name[12..20]) && AllDigits(name[21..25])
    then Some(Stamp(Two(name, 12), Two(name, 14), Two(name, 16) * 100 + Two(name, 18), Two(name, 21), Two(name, 23)))
    else None
  }

  lemma Pad2Digits(s: string, i: nat, n: nat)
    requires n < 100 && i + 2 <= |s| && s[i..i + 2] == Pad2(n)
    ensures Two(s, i) == n
  {
    assert s[i] == DigitChar(n / 10) && s[i + 1] == DigitChar(n % 10);
  }

  /** The file name determines the time it was made from. */
  lemma ParseBackupFileName(t: Stamp)
    requires ValidStamp(t)
    ensures ParseStamp(BackupFileName(t)) == Some(t)
  {
    var name := BackupFileName(t);
    assert name[..12] == BackupFilenamePrefix;
    assert name[12..14] == Pad2(t.day);
    assert name[14..16] == Pad2(t.month);
    assert name[16..18] == Pad2(t.year / 100);
    assert name[18..20] == Pad2(t.year % 100);
    assert name[20] == '_';
    assert name[21..23] == Pad2(t.hour);
    assert name[23..25] == Pad2(t.minute);
    assert name[25..] == ".zip";
    assert name[12..20] == Pad2(t.day) + Pad2(t.month) + Pad4(t.year);
    assert name[21..25] == Pad2(t.hour) + Pad2(t.minute);
    Pad2Digits(name, 12, t.day);
    Pad2Digits(name, 14, t.month);
    Pad2Digits(name, 16, t.year / 100);
    Pad2Digits(name, 18, t.year % 100);
    Pad2Digits(name, 21, t.hour);
    Pad2Digits(name, 23, t.minute);
  }

  /** How `create_backup_core` returns: the directory failure is a pair, every
      other outcome a triple ending in the archive path or None. */
  datatype CoreResult =
    | Pair(success: bool, message: int)
    | Triple(success: bool, message: int, zipPath: Option<string>)

  /** The manifest written last into every finished archive. */
  function ManifestFor(timestamp: string): Json
  {
    JObject(map["creator" := JString(AddonId), "version" := JNumber(1.0), "timestamp" := JString(timestamp)])
  }

  /** Entries actually written: those whose `zf.write` does not raise. */
  function Written(arcs: seq<string>, writeFails: set<string>): seq<string>
  {
    Filter(arcs, (a: string) => a !in writeFails)
  }

  /** The inputs of one backup run: the configured list (None when missing or
      unreadable), the boolean settings, the userdata and add-ons trees. */
  datatype BackupSource = BackupSource(
    config: Option<seq<ConfigItem>>,
    settings: map<string, bool>,
    userdata: seq<Node>,
    addons: Option<seq<Node>>)

  function SourceArcNames(src: BackupSource, includeAddonData: bool): seq<string>
  {
    ArcNames(src.config, src.settings, src.userdata, src.addons, includeAddonData)
  }

  /** `create_backup_core` as a function: the returned value and the archive
      left at the zip path.  `baseUsable` says whether the backup directory
      exists or could be made, `cancelAt` the index at which the progress
      callback first asks to stop, `openFails` whether creating the archive
      raises, `writeFails` the entries whose write raises. */
  function CreateOutcome(src: BackupSource, includeAddonData: bool, backupBase: string, baseUsable: bool,
                         t: Stamp, timestamp: string, cancelAt: Option<nat>, openFails: bool, writeFails: set<string>)
    : (CoreResult, Option<Zip>)
    requires ValidStamp(t)
  {
    if !baseUsable then (Pair(false, MsgNoBackupDir), None)
    else
      var zipPath := PathJoin(backupBase, BackupFileName(t));
      var arcs := SourceArcNames(src, includeAddonData);
      if |arcs| == 0 then (Triple(false, MsgNothingToBackup, None), None)
      else if openFails then (Triple(false, MsgFailed, None), None)
      else if cancelAt.Some? && cancelAt.value < |arcs| then (Triple(false, MsgCancelled, None), None)
      else (Triple(true, MsgBackupDone, Some(zipPath)),
            Some(Zip(Written(arcs, writeFails) + [ManifestName], Decoded(ManifestFor(timestamp)))))
  }

  method CreateBackupCore(src: BackupSource, includeAddonData: bool, backupBase: string, baseUsable: bool,
                          t: Stamp, timestamp: string, cancelAt: Option<nat>, openFails: bool, writeFails: set<string>)
    returns (r: CoreResult, archive: Option<Zip>)
    requires ValidStamp(t)
    ensures (r, archive) == CreateOutcome(src, includeAddonData, backupBase, baseUsable, t, timestamp, cancelAt, openFails, writeFails)
  {
    if !baseUsable {
      return Pair(false, MsgNoBackupDir), None;
    }
    var name := BackupFileName(t);
    var zipPath := PathJoin(backupBase, name);
    var userdataItems: seq<string>;
    if src.config.Some? && |src.config.value| > 0 {
      userdataItems := CollectBackupItemsFromConfig(src.config.value, src.settings, src.userdata);
    } else {
      userdataItems := DefaultUserdataPaths(src.userdata, includeAddonData);
    }
    var toAdd := UnderDir("userdata", userdataItems) + AddonArcNames(src.addons);
    assert toAdd == SourceArcNames(src, includeAddonData);
    if |toAdd| == 0 {
      return Triple(false, MsgNothingToBackup, None), None;
    }
    if openFails {
      return Triple(false, MsgFailed, None), None;
    }
    var cancelled, written := WriteEntries(toAdd, cancelAt, writeFails);
    if cancelled {
      // the partial archive is removed
      return Triple(false, MsgCancelled, None), None;
    }
    archive := Some(Zip(written + [ManifestName], Decoded(ManifestFor(timestamp))));
    r := Triple(true, MsgBackupDone, Some(zipPath));
  }

  /** The write loop: stops when the progress callback cancels, otherwise
      writes every entry whose write does not raise. */
  method WriteEntries(toAdd: seq<string>, cancelAt: Option<nat>, writeFails: set<string>)
    returns (cancelled: bool, written: seq<string>)
    ensures cancelled <==> cancelAt.Some? && cancelAt.value < |toAdd|
    ensures !cancelled ==> written == Written(toAdd, writeFails)
  {
    written := [];
    var i := 0;
    while i < |toAdd|
      invariant 0 <= i <= |toAdd|
      invariant cancelAt.Some? ==> cancelAt.value >= i
      invariant written == Written(toAdd[..i], writeFails)
    {
      if cancelAt == Some(i) {
        return true, written;
      }
      assert toAdd[..i + 1] == toAdd[..i] + [toAdd[i]];
      if toAdd[i] !in writeFails {
        written := written + [toAdd[i]];
      }
      i := i + 1;
    }
    assert toAdd[..i] == toAdd;
    return false, written;
  }

  /** The manifest and directory entries are never checked. */
  lemma AllSafeWithManifest(written: seq<string>)
    ensures AllSafe(written + [ManifestName]) <==> AllSafe(written)
  {
    assert forall n :: n in written + [ManifestName] <==> n in written || n == ManifestName;
  }

  /** A backup file name has the listing prefix and the ".zip" suffix. */
  lemma BackupFileNameShape(t: Stamp)
    requires ValidStamp(t)
    ensures StartsWith(BackupFileName(t), BackupFilenamePrefix) && EndsWith(BackupFileName(t), ".zip")
  {
    var stem := BackupFilenamePrefix + Pad2(t.day) + Pad2(t.month) + Pad4(t.year) + "_" + Pad2(t.hour) + Pad2(t.minute);
    assert BackupFileName(t) == stem + ".zip";
    EndsWithConcat(stem, ".zip");
    assert BackupFileName(t)[..12] == BackupFilenamePrefix;
  }

  /** The archive path ends in ".zip" in any case. */
  lemma ZipPathSuffix(backupBase: string, t: Stamp)
    requires ValidStamp(t)
    ensures EndsWith(Lower(PathJoin(backupBase, BackupFileName(t))), ".zip")
  {
    var name := BackupFileName(t);
    BackupFileNameShape(t);
    JoinedLowerSuffix(backupBase, name, ".zip");
  }

  /** A lower-case suffix of a name survives joining it to a folder and lower-casing. */
  lemma JoinedLowerSuffix(folder: string, name: string, suffix: string)
    requires EndsWith(name, suffix) && IsLower(suffix)
    ensures EndsWith(Lower(PathJoin(folder, name)), suffix)
  {
    var p := PathJoin(folder, name);
    EndsWithTrans(p, name, suffix);
    LowerKeepsSuffix(p, suffix);
  }

  /** A finished backup is an archive whose entries are the written ones in
      order with the manifest last, stored under the time-stamped name, and it
      passes validation exactly when every written entry is safe. */
  lemma CreatedBackupValidates(src: BackupSource, includeAddonData: bool, backupBase: string,
                               t: Stamp, timestamp: string, writeFails: set<string>)
    requires ValidStamp(t)
    requires |SourceArcNames(src, includeAddonData)| > 0
    ensures var (r, archive) := CreateOutcome(src, includeAddonData, backupBase, true, t, timestamp, None, false, writeFails);
      var written := Written(SourceArcNames(src, includeAddonData), writeFails);
      r.Triple? && r.success && r.zipPath.Some? && archive.Some?
      && EndsWith(r.zipPath.value, BackupFileName(t))
      && archive.value.names == written + [ManifestName]
      && (IsValidBuildBackup(r.zipPath.value, Readable(archive.value)) <==> AllSafe(written))
  {
    var written := Written(SourceArcNames(src, includeAddonData), writeFails);
    var z := Zip(written + [ManifestName], Decoded(ManifestFor(timestamp)));
    var zipPath := PathJoin(backupBase, BackupFileName(t));
    assert CreateOutcome(src, includeAddonData, backupBase, true, t, timestamp, None, false, writeFails)
      == (Triple(true, MsgBackupDone, Some(zipPath)), Some(z));
    ArchiveValidIffSafe(backupBase, t, timestamp, written);
  }

  /** The archive written under the time-stamped name passes validation
      exactly when every written entry is safe. */
  lemma ArchiveValidIffSafe(backupBase: string, t: Stamp, timestamp: string, written: seq<string>)
    requires ValidStamp(t)
    ensures IsValidBuildBackup(PathJoin(backupBase, BackupFileName(t)),
                               Readable(Zip(written + [ManifestName], Decoded(ManifestFor(timestamp)))))
            <==> AllSafe(written)
  {
    var z := Zip(written + [ManifestName], Decoded(ManifestFor(timestamp)));
    ZipPathSuffix(backupBase, t);
    assert ProvesOrigin(z) by {
      assert ManifestName in z.names;
    }
    AllSafeWithManifest(written);
  }

  /** The substring test on ".." rejects a backup this add-on made itself when
      a userdata file name merely contains two dots. */
  lemma DottedFileNameRejectsOwnBackup()
    ensures !SafeEntry("userdata/a..b.xml")
  {
    assert FoldSlashes("userdata/a..b.xml") == "userdata/a..b.xml";
    ContainsAt("userdata/a..b.xml", "..", 10);
  }

  // ---------------------------------------------------------------------------
  // Listing local backups

  /** A directory entry of the backup directory with its modification time and content. */
  datatype Listed = Listed(name: string, mtime: int, file: ZipFile)

  /** The name filter of the listing. */
  predicate ListingCandidate(name: string)
  {
    StartsWith(name, BackupFilenamePrefix) && EndsWith(Lower(name), ".zip")
  }

  /** The listed files whose name and content make them backups, in listing order. */
  function ValidBackups(dir: string, listing: seq<Listed>): seq<Listed>
  {
    Filter(listing, (f: Listed) => ListingCandidate(f.name) && IsValidBuildBackup(PathJoin(dir, f.name), f.file))
  }

  /** Inserts before the first entry that is not newer, so equal times keep
      their listing order as Python's stable sort does. */
  function InsertNewest(x: Listed, s: seq<Listed>): (r: seq<Listed>)
    ensures multiset(r) == multiset(s) + multiset{x}
  {
    if |s| == 0 || x.mtime >= s[0].mtime then [x] + s
    else
      assert s == [s[0]] + s[1..];
      [s[0]] + InsertNewest(x, s[1..])
  }

  /** `sort(key=mtime, reverse=True)` */
  function SortNewestFirst(xs: seq<Listed>): (r: seq<Listed>)
    ensures multiset(r) == multiset(xs)
  {
    if |xs| == 0 then []
    else
      assert xs == [xs[0]] + xs[1..];
      InsertNewest(xs[0], SortNewestFirst(xs[1..]))
  }

  predicate NewestFirst(s: seq<Listed>)
  {
    forall i, j :: 0 <= i < j < |s| ==> s[i].mtime >= s[j].mtime
  }

  lemma {:induction false} InsertKeepsNewestFirst(x: Listed, s: seq<Listed>)
    requires NewestFirst(s)
    ensures NewestFirst(InsertNewest(x, s))
    decreases |s|
  {
    if |s| > 0 && x.mtime < s[0].mtime {
      InsertKeepsNewestFirst(x, s[1..]);
      var r := InsertNewest(x, s[1..]);
      forall y: Listed | y in multiset(r) ensures y.mtime <= s[0].mtime {
        assert y in multiset(s[1..]) + multiset{x};
        if y in multiset(s[1..]) {
          var k :| 0 <= k < |s[1..]| && s[1..][k] == y;
          assert s[k + 1] == y;
        }
      }
      forall i | 0 <= i < |r| ensures r[i].mtime <= s[0].mtime {
        assert r[i] in multiset(r);
      }
    }
  }

  lemma {:induction false} SortIsNewestFirst(xs: seq<Listed>)
    ensures NewestFirst(SortNewestFirst(xs))
    decreases |xs|
  {
    if |xs| > 0 {
      SortIsNewestFirst(xs[1..]);
      InsertKeepsNewestFirst(xs[0], SortNewestFirst(xs[1..]));
    }
  }

  function Paths(dir: string, s: seq<Listed>): (r: seq<string>)
    ensures |r| == |s| && forall k :: 0 <= k < |s| ==> r[k] == PathJoin(dir, s[k].name)
  {
    seq(|s|, k requires 0 <= k < |s| => PathJoin(dir, s[k].name))
  }

  /** `_get_local_backup_zips` over a listing of the backup directory. */
  function LocalBackupZips(dir: string, isDir: bool, listing: seq<Listed>): seq<string>
  {
    if dir == "" || !isDir then [] else Paths(dir, SortNewestFirst(ValidBackups(dir, listing)))
  }

  /** The listing holds exactly the validating `doku_backup_*.zip` files of the
      directory, newest first. */
  lemma LocalBackupListing(dir: string, listing: seq<Listed>)
    requires dir != ""
    ensures var s := SortNewestFirst(ValidBackups(dir, listing));
      LocalBackupZips(dir, true, listing) == Paths(dir, s)
      && NewestFirst(s)
      && (forall f :: f in s <==> f in listing && ListingCandidate(f.name) && IsValidBuildBackup(PathJoin(dir, f.name), f.file))
  {
    var v := ValidBackups(dir, listing);
    var s := SortNewestFirst(v);
    SortIsNewestFirst(v);
    FilterMembers(listing, (f: Listed) => ListingCandidate(f.name) && IsValidBuildBackup(PathJoin(dir, f.name), f.file));
    forall f ensures f in s <==> f in v {
      assert f in s <==> f in multiset(s);
      assert f in v <==> f in multiset(v);
    }
  }

  /** Every file name a backup is written under passes the listing's name filter. */
  lemma BackupFileNameListed(t: Stamp)
    requires ValidStamp(t)
    ensures ListingCandidate(BackupFileName(t))
  {
    var name := BackupFileName(t);
    BackupFileNameShape(t);
    LowerKeepsSuffix(name, ".zip");
  }
}
