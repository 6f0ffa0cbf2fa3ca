// Auto-clean (resources/lib/auto_clean.py): the schedule kept in the add-on's
// settings, and the clean-up of Kodi's cache and temp folders, the packages
// folder, the user-data logs and the cache folders inside add-on data.
// Times are whole seconds since the epoch.

module AutoClean {
  import opened Text
  import opened KodiSettings
  import opened FileTree
  import BackupRestore

  const ExcludeDirs: set<string> := {"archive_cache", "meta_cache"}
  const LogFiles: set<string> := {"kodi.log", "kodi.old.log", "xbmc.log", "xbmc.old.log"}
  const UserdataLogFiles: seq<string> := ["kodi.log", "kodi.old.log"]
  const CacheSubdirNames: set<string> := {"cache", "Cache", "log", "logs", "temp", "tmp", "thumbnails", "Thumbnails"}
  /** PACKAGES_MIN_AGE_MINUTES, in seconds. */
  const PackagesMinAge := 3 * 60
  const MsgNothingCleaned := 30319
  const Day := 24 * 3600

  // ------------------------------------------------------------ schedule

  /** `int(_get_setting('autoclean_freq', '3') or '3')`; None where int()
      raises ValueError. */
  function Frequency(s: Store): (r: Option<int>)
    ensures Raw(s, "autoclean_freq") == "" ==> r == Some(3)
  {
    ParseIntOfIntToString(3);
    ParseInt(GetString(s, "autoclean_freq", "3"))
  }

  /** The wait `set_next_run` adds for a frequency. */
  function Interval(freq: int): (secs: nat)
    ensures secs >= 60
  {
    if freq == 0 then 60
    else if freq == 1 then Day
    else if freq == 2 then 3 * Day
    else if freq == 3 then 7 * Day
    else if freq == 4 then 30 * Day
    else 7 * Day
  }

  /** The frequencies as the settings describe them: every start, daily,
      every three days, weekly, monthly, and weekly for anything else. */
  lemma IntervalTable(freq: int)
    ensures freq == 0 ==> Interval(freq) == 60
    ensures freq == 1 ==> Interval(freq) == 86400
    ensures freq == 2 ==> Interval(freq) == 259200
    ensures freq == 4 ==> Interval(freq) == 2592000
    ensures freq !in {0, 1, 2, 4} ==> Interval(freq) == 604800
  {
  }

  /** `set_next_run`: the settings with the next run stored as whole
      seconds; None where reading the frequency raises. */
  function SetNextRun(s: Store, now: int): (r: Option<Store>)
    ensures r.None? <==> Frequency(s).None?
    ensures r.Some? ==> r.value.bools == s.bools
    ensures r.Some? ==> forall k :: k in s.strings && k != "autoclean_nextrun" ==> k in r.value.strings && r.value.strings[k] == s.strings[k]
  {
    match Frequency(s)
    case None => None
    case Some(f) => Some(s.(strings := s.strings["autoclean_nextrun" := IntToString(now + Interval(f))]))
  }

  /** `get_next_run`: None when unset or not a number. */
  function NextRun(s: Store): (r: Option<int>)
    ensures Raw(s, "autoclean_nextrun") == "" ==> r.None?
    ensures r.Some? ==> ParseInt(Raw(s, "autoclean_nextrun")) == r
  {
    var t := GetString(s, "autoclean_nextrun", "");
    if t == "" then None else ParseInt(t)
  }

  predicate Enabled(s: Store)
  {
    GetString(s, "autoclean_enabled", "false") == "true"
  }

  /** `should_run`: enabled, and either no next run is stored or it is due. */
  function ShouldRun(s: Store, now: int): (r: bool)
    ensures r ==> Enabled(s)
    ensures Enabled(s) && NextRun(s).None? ==> r
  {
    Enabled(s) && (NextRun(s).None? || now >= NextRun(s).value)
  }

  /** What `set_next_run` stores is what `get_next_run` reads back, and the
      clean is due again exactly once the interval has passed. */
  lemma ScheduleRoundTrip(s: Store, now: int, t: int)
    requires Frequency(s).Some?
    ensures var s2 := SetNextRun(s, now).value;
            var next := now + Interval(Frequency(s).value);
            NextRun(s2) == Some(next)
            && (ShouldRun(s2, t) <==> Enabled(s) && t >= next)
            && !ShouldRun(s2, now)
  {
    var s2 := SetNextRun(s, now).value;
    var next := now + Interval(Frequency(s).value);
    ParseIntOfIntToString(next);
    assert Raw(s2, "autoclean_nextrun") == IntToString(next);
    assert Raw(s2, "autoclean_enabled") == Raw(s, "autoclean_enabled");
  }

  /** With no frequency stored the next run is a week away. */
  lemma DefaultIsWeekly(s: Store, now: int)
    requires Raw(s, "autoclean_freq") == ""
    ensures NextRun(SetNextRun(s, now).value) == Some(now + 7 * Day)
  {
    ScheduleRoundTrip(s, now, now);
  }

  // ------------------------------------------------------------ clear_cache

  /** The size of every file below a directory listing. */
  function TreeSize(entries: seq<Node>): nat
    decreases entries
  {
    if |entries| == 0 then 0
    else
      var here := match entries[0]
        case File(_, size, _) => size
        case Dir(_, children) => TreeSize(children);
      here + TreeSize(entries[1..])
  }

  /** What clearing one folder leaves, how many entries it removed and how
      many bytes it counted. */
  datatype Swept = Swept(kept: seq<Node>, count: nat, bytes: nat)

  /** Entries of the folder itself that survive: log files, files whose
      deletion fails, and the excluded directories. */
  predicate Spared(e: Node, locked: set<string>)
  {
    match e
    case File(name, _, _) => name in LogFiles || name in locked
    case Dir(name, _) => name in ExcludeDirs
  }

  /** One entry of the folder: a file other than a log file is counted and
      deleted (its size is counted even when the deletion fails); a
      directory other than the excluded ones is counted with everything in
      it and removed whole. */
  function SweepStep(r: Swept, e: Node, locked: set<string>): Swept
  {
    match e
    case File(name, size, _) =>
      if name in LogFiles then r.(kept := r.kept + [e])
      else if name in locked then Swept(r.kept + [e], r.count, r.bytes + size)
      else Swept(r.kept, r.count + 1, r.bytes + size)
    case Dir(name, children) =>
      if name in ExcludeDirs then r.(kept := r.kept + [e])
      else Swept(r.kept, r.count + 1, r.bytes + TreeSize(children))
  }

  /** One folder of `clear_cache`. The walk goes on into the removed
      sub-directories only to find them gone, so only the folder's own
      listing decides what is left. */
  function Sweep(es: seq<Node>, locked: set<string>): Swept
    decreases |es|
  {
    if |es| == 0 then Swept([], 0, 0)
    else SweepStep(Sweep(es[..|es| - 1], locked), es[|es| - 1], locked)
  }

  /** Exactly the spared entries stay, in order and unchanged, and every
      other entry is counted once. */
  lemma {:induction false} SweepPartition(es: seq<Node>, locked: set<string>)
    ensures var r := Sweep(es, locked);
            (forall k :: 0 <= k < |r.kept| ==> r.kept[k] in es && Spared(r.kept[k], locked))
            && (forall e :: e in es && Spared(e, locked) ==> e in r.kept)
            && r.count + |r.kept| == |es|
  {
    if |es| > 0 {
      var init := es[..|es| - 1];
      SweepPartition(init, locked);
      assert es == init + [es[|es| - 1]];
    }
  }

  /** A log file or an excluded directory inside another sub-directory is
      not spared: it goes with its parent. */
  lemma NestedSparedRemoved(name: string, inner: seq<Node>, locked: set<string>)
    requires name !in ExcludeDirs
    ensures Sweep([Dir(name, inner)], locked) == Swept([], 1, TreeSize(inner))
  {
    assert [Dir(name, inner)][..0] == [];
  }

  /** The loop over the folder's entries. */
  method SweepFolder(es: seq<Node>, locked: set<string>) returns (r: Swept)
    ensures r == Sweep(es, locked)
  {
    r := Swept([], 0, 0);
    var i := 0;
    while i < |es|
      invariant 0 <= i <= |es|
      invariant r == Sweep(es[..i], locked)
    {
      assert es[..i + 1][..i] == es[..i];
      var e := es[i];
      match e {
        case File(name, size, _) =>
          if name in LogFiles {
            r := r.(kept := r.kept + [e]);
          } else if name in locked {
            r := Swept(r.kept + [e], r.count, r.bytes + size);
          } else {
            r := Swept(r.kept, r.count + 1, r.bytes + size);
          }
        case Dir(name, children) =>
          if name in ExcludeDirs {
            r := r.(kept := r.kept + [e]);
          } else {
            r := Swept(r.kept, r.count + 1, r.bytes + TreeSize(children));
          }
      }
      i := i + 1;
    }
    assert es[..|es|] == es;
  }

  // ------------------------------------------------------------ clear_packages_startup

  datatype Kind = RegularFile | Directory | OtherKind

  /** An entry of the packages folder: its name, its modification time
      (None where reading it raises) and what it is. */
  datatype Package = Package(name: string, mtime: Option<int>, kind: Kind)

  /** At least three minutes old. */
  predicate Stale(p: Package, now: int)
  {
    p.mtime.Some? && p.mtime.value <= now - PackagesMinAge
  }

  /** Removed and counted: a stale file whose deletion succeeds, or a stale
      directory. */
  predicate Removable(p: Package, now: int, locked: set<string>)
  {
    Stale(p, now) && ((p.kind == RegularFile && p.name !in locked) || p.kind == Directory)
  }

  datatype Pruned = Pruned(kept: seq<Package>, count: nat)

  function PackagesCleared(es: seq<Package>, now: int, locked: set<string>): Pruned
    decreases |es|
  {
    if |es| == 0 then Pruned([], 0)
    else
      var r := PackagesCleared(es[..|es| - 1], now, locked);
      var p := es[|es| - 1];
      if Removable(p, now, locked) then Pruned(r.kept, r.count + 1) else Pruned(r.kept + [p], r.count)
  }

  /** Only stale entries go, every entry that is not removable stays, and
      the count is the number removed. */
  lemma {:induction false} PackagesPartition(es: seq<Package>, now: int, locked: set<string>)
    ensures var r := PackagesCleared(es, now, locked);
            (forall k :: 0 <= k < |r.kept| ==> r.kept[k] in es && !Removable(r.kept[k], now, locked))
            && (forall p :: p in es && !Removable(p, now, locked) ==> p in r.kept)
            && r.count + |r.kept| == |es|
  {
    if |es| > 0 {
      var init := es[..|es| - 1];
      PackagesPartition(init, now, locked);
      assert es == init + [es[|es| - 1]];
    }
  }

  /** An entry changed within the last three minutes survives. */
  lemma FreshPackageKept(es: seq<Package>, now: int, locked: set<string>, p: Package)
    requires p in es && p.mtime.Some? && p.mtime.value > now - PackagesMinAge
    ensures p in PackagesCleared(es, now, locked).kept
  {
    PackagesPartition(es, now, locked);
  }

  method PrunePackages(es: seq<Package>, now: int, locked: set<string>) returns (r: Pruned)
    ensures r == PackagesCleared(es, now, locked)
  {
    r := Pruned([], 0);
    var cutoff := now - PackagesMinAge;
    var i := 0;
    while i < |es|
      invariant 0 <= i <= |es|
      invariant r == PackagesCleared(es[..i], now, locked)
    {
      assert es[..i + 1][..i] == es[..i];
      var p := es[i];
      if p.mtime.Some? && p.mtime.value <= cutoff && ((p.kind == RegularFile && p.name !in locked) || p.kind == Directory) {
        r := Pruned(r.kept, r.count + 1);
      } else {
        r := Pruned(r.kept + [p], r.count);
      }
      i := i + 1;
    }
    assert es[..|es|] == es;
  }

  // ------------------------------------------------------------ clear_addon_data_caches

  datatype Purged = Purged(kept: seq<Node>, count: nat)

  /** The walk below one add-on's data folder: a sub-directory named in
      CACHE_SUBDIR_NAMES is removed and counted, and the walk does not go
      into it; the walk goes into every other sub-directory. */
  function Purge(entries: seq<Node>): (r: Purged)
    decreases entries
  {
    if |entries| == 0 then Purged([], 0)
    else
      var rest := Purge(entries[1..]);
      match entries[0]
      case File(_, _, _) => Purged([entries[0]] + rest.kept, rest.count)
      case Dir(name, children) =>
        if name in CacheSubdirNames then Purged(rest.kept, rest.count + 1)
        else
          var inner := Purge(children);
          Purged([Dir(name, inner.kept)] + rest.kept, inner.count + rest.count)
  }

  predicate NotCache(name: string)
  {
    name !in CacheSubdirNames
  }

  predicate AnyName(name: string)
  {
    true
  }

  /** No directory named in CACHE_SUBDIR_NAMES is left at any depth. */
  predicate NoCacheDirs(entries: seq<Node>)
    decreases entries
  {
    forall k :: 0 <= k < |entries| ==>
      entries[k].Dir? ==> entries[k].name !in CacheSubdirNames && NoCacheDirs(entries[k].entries)
  }

  lemma {:induction false} PurgeLeavesNoCache(entries: seq<Node>)
    ensures NoCacheDirs(Purge(entries).kept)
    decreases entries
  {
    if |entries| > 0 {
      PurgeLeavesNoCache(entries[1..]);
      var rest := Purge(entries[1..]).kept;
      match entries[0]
      case File(_, _, _) =>
        assert Purge(entries).kept == [entries[0]] + rest;
      case Dir(name, children) =>
        if name !in CacheSubdirNames {
          PurgeLeavesNoCache(children);
          assert Purge(entries).kept == [Dir(name, Purge(children).kept)] + rest;
        }
    }
  }

  /** The files left are exactly the files the walk would reach if it
      skipped the cache directories: nothing else is deleted. */
  lemma {:induction false} PurgeKeepsOtherFiles(entries: seq<Node>)
    ensures Walk(Purge(entries).kept, AnyName, AnyName) == Walk(entries, NotCache, AnyName)
    decreases entries, 1
  {
    PurgeKeepsFilesHere(entries);
    PurgeKeepsSubdirFiles(entries);
  }

  lemma {:induction false} PurgeKeepsFilesHere(entries: seq<Node>)
    ensures FilesHere(Purge(entries).kept, AnyName) == FilesHere(entries, AnyName)
    decreases entries
  {
    if |entries| > 0 {
      PurgeKeepsFilesHere(entries[1..]);
      var rest := Purge(entries[1..]).kept;
      match entries[0]
      case File(_, _, _) =>
        assert ([entries[0]] + rest)[1..] == rest;
      case Dir(name, children) =>
        if name !in CacheSubdirNames {
          assert ([Dir(name, Purge(children).kept)] + rest)[1..] == rest;
        }
    }
  }

  lemma {:induction false} PurgeKeepsSubdirFiles(entries: seq<Node>)
    ensures WalkDirs(Purge(entries).kept, AnyName, AnyName) == WalkDirs(entries, NotCache, AnyName)
    decreases entries, 0
  {
    if |entries| > 0 {
      PurgeKeepsSubdirFiles(entries[1..]);
      var rest := Purge(entries[1..]).kept;
      match entries[0]
      case File(_, _, _) =>
        assert ([entries[0]] + rest)[1..] == rest;
      case Dir(name, children) =>
        if name !in CacheSubdirNames {
          PurgeKeepsOtherFiles(children);
          assert ([Dir(name, Purge(children).kept)] + rest)[1..] == rest;
        }
    }
  }

  /** One add-on's entry of the add-on data folder: excluded ids and
      non-directories are left alone. */
  function AddonStep(r: Purged, e: Node, exclude: set<string>): Purged
  {
    if e.name in exclude || e.File? then Purged(r.kept + [e], r.count)
    else
      var p := Purge(e.entries);
      Purged(r.kept + [Dir(e.name, p.kept)], r.count + p.count)
  }

  function AddonDataCleared(es: seq<Node>, exclude: set<string>): Purged
    decreases |es|
  {
    if |es| == 0 then Purged([], 0)
    else AddonStep(AddonDataCleared(es[..|es| - 1], exclude), es[|es| - 1], exclude)
  }

  /** Entry by entry: an excluded add-on and any plain file stay as they
      were; every other add-on's folder is purged. */
  lemma {:induction false} AddonDataEntries(es: seq<Node>, exclude: set<string>)
    ensures var r := AddonDataCleared(es, exclude);
            |r.kept| == |es|
            && forall k :: 0 <= k < |es| ==>
                 r.kept[k] == (if es[k].name in exclude || es[k].File? then es[k]
                               else Dir(es[k].name, Purge(es[k].entries).kept))
  {
    if |es| > 0 {
      var init := es[..|es| - 1];
      AddonDataEntries(init, exclude);
      assert forall k :: 0 <= k < |init| ==> es[k] == init[k];
    }
  }

  method PurgeAddonData(es: seq<Node>, exclude: set<string>) returns (r: Purged)
    ensures r == AddonDataCleared(es, exclude)
  {
    r := Purged([], 0);
    var i := 0;
    while i < |es|
      invariant 0 <= i <= |es|
      invariant r == AddonDataCleared(es[..i], exclude)
    {
      assert es[..i + 1][..i] == es[..i];
      var e := es[i];
      if e.name in exclude || e.File? {
        r := Purged(r.kept + [e], r.count);
      } else {
        var p := Purge(e.entries);
        r := Purged(r.kept + [Dir(e.name, p.kept)], r.count + p.count);
      }
      i := i + 1;
    }
    assert es[..|es|] == es;
  }

  // ------------------------------------------------------------ clear_userdata_logs

  /** kodi.log and kodi.old.log, where present as files, are emptied; a
      failed open is skipped. */
  function LogsCleared(logs: map<string, nat>, names: seq<string>, unwritable: set<string>): (r: (map<string, nat>, nat))
    ensures r.0.Keys == logs.Keys && r.1 <= |names|
    decreases |names|
  {
    if |names| == 0 then (logs, 0)
    else
      var r := LogsCleared(logs, names[..|names| - 1], unwritable);
      var n := names[|names| - 1];
      if n in r.0 && n !in unwritable then (r.0[n := 0], r.1 + 1) else r
  }

  // ------------------------------------------------------------ run_auto_clean

  /** The folders auto-clean works on; None where the folder is missing. */
  datatype HomeState = HomeState(cache: Option<seq<Node>>, temp: Option<seq<Node>>,
                                 packages: Option<seq<Package>>, logs: map<string, nat>,
                                 addonData: Option<seq<Node>>)

  /** Deletions and writes that fail, by name, and whether the texture
      database exists and was emptied. */
  datatype Failures = Failures(cacheLocked: set<string>, tempLocked: set<string>, packagesLocked: set<string>,
                               logsUnwritable: set<string>, thumbsCleared: bool)

  /** One line of the statistics text. */
  datatype Line = CacheLine(count: nat, bytes: nat) | PackagesLine(count: nat) | ThumbsLine
                | LogsLine(count: nat) | AddonCachesLine(count: nat)

  /** The joined lines, or message 30319 when nothing was cleaned. */
  datatype Report = Lines(lines: seq<Line>) | Message(id: int)

  /** "Eintrag" for one entry, "Einträge" otherwise. */
  function EntryNoun(count: nat): string
  {
    if count != 1 then "Einträge" else "Eintrag"
  }

  function SweptBase(listing: Option<seq<Node>>, locked: set<string>): Swept
  {
    if listing.Some? then Sweep(listing.value, locked) else Swept([], 0, 0)
  }

  function KeptOf(listing: Option<seq<Node>>, r: Swept): Option<seq<Node>>
  {
    if listing.Some? then Some(r.kept) else None
  }

  /** `clear_cache`: the cache folder, then the temp folder. */
  function CacheCleared(h: HomeState, f: Failures): (HomeState, nat, nat)
  {
    var a := SweptBase(h.cache, f.cacheLocked);
    var b := SweptBase(h.temp, f.tempLocked);
    (h.(cache := KeptOf(h.cache, a), temp := KeptOf(h.temp, b)), a.count + b.count, a.bytes + b.bytes)
  }

  datatype Stage = Stage(home: HomeState, lines: seq<Line>)

  predicate Flag(s: Store, key: string, default: string)
  {
    GetString(s, key, default) == "true"
  }

  function CacheStage(s: Store, st: Stage, f: Failures): Stage
  {
    if !Flag(s, "autoclean_clearcache", "true") then st
    else
      var (h, n, b) := CacheCleared(st.home, f);
      Stage(h, st.lines + (if n > 0 then [CacheLine(n, b)] else []))
  }

  function PackagesStage(s: Store, st: Stage, now: int, f: Failures): Stage
  {
    if !Flag(s, "autoclean_clearpackages", "true") || st.home.packages.None? then st
    else
      var r := PackagesCleared(st.home.packages.value, now, f.packagesLocked);
      Stage(st.home.(packages := Some(r.kept)), st.lines + (if r.count > 0 then [PackagesLine(r.count)] else []))
  }

  function ThumbsStage(s: Store, st: Stage, f: Failures): Stage
  {
    if Flag(s, "autoclean_clearthumbs", "false") && f.thumbsCleared then st.(lines := st.lines + [ThumbsLine]) else st
  }

  function LogsStage(s: Store, st: Stage, f: Failures): Stage
  {
    if !Flag(s, "autoclean_clearlogs", "false") then st
    else
      var (logs, n) := LogsCleared(st.home.logs, UserdataLogFiles, f.logsUnwritable);
      Stage(st.home.(logs := logs), st.lines + (if n > 0 then [LogsLine(n)] else []))
  }

  /** The add-on's own data is always excluded. */
  function AddonCachesStage(s: Store, st: Stage): Stage
  {
    if !Flag(s, "autoclean_clearaddoncaches", "false") || st.home.addonData.None? then st
    else
      var r := AddonDataCleared(st.home.addonData.value, {BackupRestore.AddonId});
      Stage(st.home.(addonData := Some(r.kept)), st.lines + (if r.count > 0 then [AddonCachesLine(r.count)] else []))
  }

  /** `run_auto_clean`: the enabled clean-ups in their order, and the
      report. */
  function AutoCleaned(s: Store, h: HomeState, now: int, f: Failures): (r: (HomeState, Report))
    ensures r.1.Lines? ==> |r.1.lines| > 0
    ensures r.1.Message? ==> r.1.id == MsgNothingCleaned
  {
    var st := AddonCachesStage(s, LogsStage(s, ThumbsStage(s, PackagesStage(s, CacheStage(s, Stage(h, []), f), now, f), f), f));
    (st.home, if |st.lines| > 0 then Lines(st.lines) else Message(MsgNothingCleaned))
  }

  /** The add-on's own data folder is never cleaned. */
  lemma OwnDataKept(s: Store, h: HomeState, now: int, f: Failures, k: nat)
    requires h.addonData.Some? && k < |h.addonData.value| && h.addonData.value[k].name == BackupRestore.AddonId
    ensures var h2 := AutoCleaned(s, h, now, f).0;
            h2.addonData.Some? && k < |h2.addonData.value| && h2.addonData.value[k] == h.addonData.value[k]
  {
    AddonDataEntries(h.addonData.value, {BackupRestore.AddonId});
  }

  /** With every clean-up switched off nothing changes and the report is the
      "nothing cleaned" message. */
  lemma AllOffChangesNothing(s: Store, h: HomeState, now: int, f: Failures)
    requires !Flag(s, "autoclean_clearcache", "true") && !Flag(s, "autoclean_clearpackages", "true")
    requires !Flag(s, "autoclean_clearthumbs", "false") && !Flag(s, "autoclean_clearlogs", "false")
    requires !Flag(s, "autoclean_clearaddoncaches", "false")
    ensures AutoCleaned(s, h, now, f) == (h, Message(MsgNothingCleaned))
  {
  }

  /** The folders auto-clean works on. */
  class Home {
    var cache: Option<seq<Node>>
    var temp: Option<seq<Node>>
    var packages: Option<seq<Package>>
    var logs: map<string, nat>
    var addonData: Option<seq<Node>>

    constructor (h: HomeState)
      ensures State() == h
    {
      cache, temp, packages, logs, addonData := h.cache, h.temp, h.packages, h.logs, h.addonData;
    }

    function State(): HomeState
      reads this
    {
      HomeState(cache, temp, packages, logs, addonData)
    }

    /** `clear_cache`. */
    method ClearCache(f: Failures) returns (deleted: nat, bytes: nat)
      modifies this
      ensures (State(), deleted, bytes) == CacheCleared(old(State()), f)
    {
      deleted, bytes := 0, 0;
      if cache.Some? {
        var r := SweepFolder(cache.value, f.cacheLocked);
        cache := Some(r.kept);
        deleted, bytes := r.count, r.bytes;
      }
      if temp.Some? {
        var r := SweepFolder(temp.value, f.tempLocked);
        temp := Some(r.kept);
        deleted, bytes := deleted + r.count, bytes + r.bytes;
      }
    }

    /** `clear_packages_startup`. */
    method ClearPackagesStartup(now: int, locked: set<string>) returns (deleted: nat)
      modifies this
      ensures packages.None? <==> old(packages).None?
      ensures old(packages).None? ==> deleted == 0
      ensures old(packages).Some? ==> Pruned(packages.value, deleted) == PackagesCleared(old(packages).value, now, locked)
      ensures cache == old(cache) && temp == old(temp) && logs == old(logs) && addonData == old(addonData)
    {
      if packages.None? {
        return 0;
      }
      var r := PrunePackages(packages.value, now, locked);
      packages := Some(r.kept);
      deleted := r.count;
    }

    /** `clear_userdata_logs`. */
    method ClearUserdataLogs(unwritable: set<string>) returns (deleted: nat)
      modifies this
      ensures (logs, deleted) == LogsCleared(old(logs), UserdataLogFiles, unwritable)
      ensures cache == old(cache) && temp == old(temp) && packages == old(packages) && addonData == old(addonData)
    {
      deleted := 0;
      var i := 0;
      while i < |UserdataLogFiles|
        invariant 0 <= i <= |UserdataLogFiles|
        invariant (logs, deleted) == LogsCleared(old(logs), UserdataLogFiles[..i], unwritable)
        invariant cache == old(cache) && temp == old(temp) && packages == old(packages) && addonData == old(addonData)
      {
        assert UserdataLogFiles[..i + 1][..i] == UserdataLogFiles[..i];
        var name := UserdataLogFiles[i];
        if name in logs && name !in unwritable {
          logs := logs[name := 0];
          deleted := deleted + 1;
        }
        i := i + 1;
      }
      assert UserdataLogFiles[..|UserdataLogFiles|] == UserdataLogFiles;
    }

    /** `clear_addon_data_caches(exclude_addon_ids)`. */
    method ClearAddonDataCaches(exclude: set<string>) returns (deleted: nat)
      modifies this
      ensures addonData.None? <==> old(addonData).None?
      ensures old(addonData).None? ==> deleted == 0
      ensures old(addonData).Some? ==> Purged(addonData.value, deleted) == AddonDataCleared(old(addonData).value, exclude)
      ensures cache == old(cache) && temp == old(temp) && packages == old(packages) && logs == old(logs)
    {
      if addonData.None? {
        return 0;
      }
      var r := PurgeAddonData(addonData.value, exclude);
      addonData := Some(r.kept);
      deleted := r.count;
    }

    method CacheStageRun(s: Store, f: Failures, lines: seq<Line>) returns (lines2: seq<Line>)
      modifies this
      ensures Stage(State(), lines2) == CacheStage(s, Stage(old(State()), lines), f)
    {
      lines2 := lines;
      if GetString(s, "autoclean_clearcache", "true") == "true" {
        var n, b := ClearCache(f);
        if n > 0 {
          lines2 := lines + [CacheLine(n, b)];
        }
      }
    }

    method PackagesStageRun(s: Store, now: int, f: Failures, lines: seq<Line>) returns (lines2: seq<Line>)
      modifies this
      ensures Stage(State(), lines2) == PackagesStage(s, Stage(old(State()), lines), now, f)
    {
      lines2 := lines;
      if GetString(s, "autoclean_clearpackages", "true") == "true" {
        var n := ClearPackagesStartup(now, f.packagesLocked);
        if n > 0 {
          lines2 := lines + [PackagesLine(n)];
        }
      }
    }

    method LogsStageRun(s: Store, f: Failures, lines: seq<Line>) returns (lines2: seq<Line>)
      modifies this
      ensures Stage(State(), lines2) == LogsStage(s, Stage(old(State()), lines), f)
    {
      lines2 := lines;
      if GetString(s, "autoclean_clearlogs", "false") == "true" {
        var n := ClearUserdataLogs(f.logsUnwritable);
        if n > 0 {
          lines2 := lines + [LogsLine(n)];
        }
      }
    }

    method AddonCachesStageRun(s: Store, lines: seq<Line>) returns (lines2: seq<Line>)
      modifies this
      ensures Stage(State(), lines2) == AddonCachesStage(s, Stage(old(State()), lines))
    {
      lines2 := lines;
      if GetString(s, "autoclean_clearaddoncaches", "false") == "true" {
        var n := ClearAddonDataCaches({BackupRestore.AddonId});
        if n > 0 {
          lines2 := lines + [AddonCachesLine(n)];
        }
      }
    }

    /** `run_auto_clean`. */
    method RunAutoClean(s: Store, now: int, f: Failures) returns (report: Report)
      modifies this
      ensures (State(), report) == AutoCleaned(s, old(State()), now, f)
    {
      var lines := CacheStageRun(s, f, []);
      lines := PackagesStageRun(s, now, f, lines);
      if GetString(s, "autoclean_clearthumbs", "false") == "true" && f.thumbsCleared {
        lines := lines + [ThumbsLine];
      }
      lines := LogsStageRun(s, f, lines);
      lines := AddonCachesStageRun(s, lines);
      if |lines| > 0 {
        report := Lines(lines);
      } else {
        report := Message(MsgNothingCleaned);
      }
    }
  }

  /** The add-on's settings, which `set_next_run` writes. */
  class Settings {
    var store: Store

    constructor (s: Store)
      ensures store == s
    {
      store := s;
    }
  }

  /** `run_if_due`: nothing happens unless the clean is due; then it runs and
      the next run is stored. `raised` is set when reading the frequency
      raises, after the clean ran and before anything is stored. */
  method RunIfDue(settings: Settings, home: Home, now: int, f: Failures) returns (raised: bool)
    modifies settings, home
    ensures !ShouldRun(old(settings.store), now) ==>
      !raised && settings.store == old(settings.store) && home.State() == old(home.State())
    ensures ShouldRun(old(settings.store), now) ==>
      home.State() == AutoCleaned(old(settings.store), old(home.State()), now, f).0
      && raised == SetNextRun(old(settings.store), now).None?
      && settings.store == (if raised then old(settings.store) else SetNextRun(old(settings.store), now).value)
  {
    raised := false;
    var s := settings.store;
    if !(Enabled(s) && (NextRun(s).None? || now >= NextRun(s).value)) {
      return;
    }
    var _ := home.RunAutoClean(s, now, f);
    var next := SetNextRun(s, now);
    if next.None? {
      return true;
    }
    settings.store := next.value;
  }
}
