# dk-backup-sync in Dafny

A model of the sync and backup core of the Kodi add-on
`plugin.program.dokukanal.buildsync`, of its older sibling
`plugin.program.auto.ftp.sync`, and of the two scripts that build and publish
the Kodi repository (`repo/build_repo.py`, `repo/deploy_to_dkrepo.py`), with
proofs of what the code promises.

The add-on keeps a Kodi installation's favourites, static favourites folders
and add-on data in step with a folder on an FTP, SFTP or SMB server, makes and
restores ZIP backups of the Kodi home, cleans caches on a schedule, stops
playback after a set time, and routes plugin URLs and `RunScript` calls to
these actions.  The model states each of these as Dafny functions (the pure
decisions) and methods (the loops and the steps that change the disk, the
server or an object's fields), each method proved against the function that
specifies it, and lemmas for the properties the code is written to keep.

Modules, one per source file or component:

- `Text`, `Percent`, `PosixPath`: string helpers, Python's `int()`/`str()`,
  `urllib.parse.quote`/`unquote` (UTF-8 and the unreserved set of RFC 3986,
  section 2.3) and `posixpath.join`/`normpath`.
- `FileTree`, `Storage`: the local disk (with the `os.walk` traversal the code
  prunes) and the remote server (a directory tree and a file map).
- `KodiSettings`: an add-on's settings as a key/value store with the
  `safe_get_*` defaults.
- `FavouritesMerge`: `favourites_merge.py` (parse, write, union merge).
- `BackupRestore`, `BackupService`: `backup_restore.py` (archive validation,
  restore filter, backup collection and naming, the local listing) and
  `services/backup_service.py` (upload of a finished backup).
- `SyncBackend`: `sync_backend.py` (FTP path building, SFTP/SMB URLs, the
  factory, and `folder_exists`/`ensure_folder`/`listdir`/`upload`/`download`
  of the three transports over `Storage.Remote`).
- `AutoSyncConfig`, `AutoSync`, `AutoSyncRemote`, `AutoSyncStartup`: the new
  add-on's `auto_ftp_sync.py` (settings and profiles, the remote layout,
  standard and static favourites sync, the server structure, `sync_favourites`
  and its reply codes, the add-on data zip, the start-up step sequence).
- `LegacySync`: the old add-on's `auto_ftp_sync.py`.
- `StaticFavourites`: both static favourites readers (`resources/lib` and
  `utils`), with the two regular-expression scans modelled as `re.finditer`
  performs them.
- `SourcesXml`: adding the "Doku-Kanal" source to `sources.xml`.
- `AutoClean`: `auto_clean.py` (schedule and the clean-up walks).
- `Autostop`: `services/autostop_service.py` (play counter, player flags,
  notify check, extension choice).
- `SyncMessages`: `_format_sync_result`, which `addon.py:36-45` and
  `resources/lib/run_actions.py:77-86` carry identically.
- `AddonRouter`, `RunActions`, `RunWizard`: `addon.py` (query parsing, action
  and connection resolution, dispatch, static-folder routing, info topics),
  the pure parts of `run_actions.py`, and `run_wizard.py`.
- `BuildRepo`, `DeployToDkrepo`: the repository build and the FTP upload.

Source paths below are relative to the repository root; `addons/...` paths
name the two add-ons' directories.

## Model

| member | source | states |
|---|---|---|
| FileTree.WalkAdmitted | addons/plugin.program.dokukanal.buildsync/resources/lib/backup_restore.py:217-225 | the pruned walk (`dirs[:] = [...]` plus the file filter) reports no path through a pruned directory and none ending in a skipped file |
| FileTree.WalkWellNamed | addons/plugin.program.dokukanal.buildsync/resources/lib/backup_restore.py:217-225 | every walked path is made of non-empty names without '/', as directory listings give them |
| FileTree.FindEntry | addons/plugin.program.dokukanal.buildsync/resources/lib/backup_restore.py:217 | the first entry with the name, or the listing length when there is none |
| Storage.AddChildKeepsClosed | addons/plugin.program.dokukanal.buildsync/resources/lib/sync_backend.py:64-76 | creating a directory whose parent exists keeps every directory's parent present |
| KodiSettings.Raw | addons/plugin.program.dokukanal.buildsync/auto_ftp_sync.py:33 | getSettingString gives '' for a key that was never stored |
| KodiSettings.GetString | addons/plugin.program.dokukanal.buildsync/resources/lib/common.py:42-52 | a non-empty stored text is returned; the result is empty only when the default is |
| KodiSettings.GetBool | addons/plugin.program.dokukanal.buildsync/resources/lib/common.py:56-66 | a stored flag is returned as it is |
| KodiSettings.IntOr | addons/plugin.program.dokukanal.buildsync/auto_ftp_sync.py:37-40 | `int(text or fallback)` with ValueError caught: the parsed number for a numeric text, the fallback otherwise |
| KodiSettings.CommaListEntries | addons/plugin.program.dokukanal.buildsync/auto_ftp_sync.py:35-36 | every entry of a comma list setting is stripped, non-blank and free of commas |
| KodiSettings.CommaListOfJoin | addons/plugin.program.dokukanal.buildsync/auto_ftp_sync.py:35-36 | a list of such entries written comma-separated reads back as the same list |
| KodiSettings.CommaListOfBlank | addons/plugin.program.dokukanal.buildsync/auto_ftp_sync.py:35-36 | an empty or all-blank setting is the empty list |
| PosixPath.PathJoin | addons/plugin.program.dokukanal.buildsync/resources/lib/backup_restore.py:374 | a join ends with its second part; an absolute second part replaces the first, otherwise the result starts with the first |
| PosixPath.Dirname | addons/plugin.program.dokukanal.buildsync/auto_ftp_sync.py:411 | the directory part is a prefix of the path |
| PosixPath.NormPath | addons/plugin.program.dokukanal.buildsync/resources/lib/backup_restore.py:356 | a normalised path is never empty and stays absolute when it was |
| PosixPath.NormalisedTargetInsideRoot | addons/plugin.program.dokukanal.buildsync/resources/lib/backup_restore.py:374-377 | a relative entry name without "..", joined onto a normalised absolute root and normalised, still starts with the root |
| PosixPath.NormPathOfRoot | addons/plugin.program.dokukanal.buildsync/resources/lib/backup_restore.py:356 | an absolute path of plain components is already normal |
| PosixPath.ResolveKeepsPrefix | addons/plugin.program.dokukanal.buildsync/resources/lib/backup_restore.py:374 | without ".." normalisation never drops a component already resolved |
| Percent.Utf8 | addons/plugin.program.dokukanal.buildsync/resources/lib/sync_backend.py:117-118 | a code point encodes to one to four bytes, and to one byte, itself, exactly when it is ASCII |
| Percent.QuoteHasNoDelimiters | addons/plugin.program.dokukanal.buildsync/resources/lib/sync_backend.py:117-118 | a quoted user name or password holds no ':', '@' or '/', so it cannot end its part of the URL early |
| Percent.UnquoteQuote | addons/plugin.program.dokukanal.buildsync/resources/lib/sync_backend.py:117-118 | percent-decoding a quoted string gives back the UTF-8 bytes of the input |
| Percent.QuoteUnreserved | addons/plugin.program.dokukanal.buildsync/resources/lib/sync_backend.py:117-118 | a string of letters, digits and `_.-~` is left as it is |
| Percent.DecodeUtf8Bytes | addons/plugin.program.dokukanal.buildsync/utils/params.py:26 | UTF-8 decoding undoes UTF-8 encoding on every text |
| Percent.DecodeStrayByte | addons/plugin.program.dokukanal.buildsync/utils/params.py:26 | a byte that cannot start a UTF-8 sequence decodes to one U+FFFD and decoding goes on after it |
| Percent.DecodeSplits | addons/plugin.program.dokukanal.buildsync/utils/params.py:26 | decoding splits before any byte that is no continuation byte: an unfinished sequence never reaches past it |
| Percent.DecodeUnquotedNoLonger | addons/plugin.program.dokukanal.buildsync/utils/params.py:26 | the bytes unquote_to_bytes makes of a text decode to no more characters than the text has |
| FavouritesMerge.NormalizeAction | addons/plugin.program.dokukanal.buildsync/resources/lib/favourites_merge.py:11-15 | None gives ''; any text gives its stripped form |
| FavouritesMerge.ActionsOfShape | addons/plugin.program.dokukanal.buildsync/resources/lib/favourites_merge.py:30-35 | every parsed action is non-empty, already trimmed, and the trimmed text of some `favourite` child |
| FavouritesMerge.ParsedActionsEmptyCases | addons/plugin.program.dokukanal.buildsync/resources/lib/favourites_merge.py:23-29 | an empty path, a missing or unparsable file, and a root other than `favourites` all give the empty list |
| FavouritesMerge.ParseFavourites | addons/plugin.program.dokukanal.buildsync/resources/lib/favourites_merge.py:18-38 | the method reads the disk and returns exactly the specified parse of the file at the path |
| FavouritesMerge.CollectActions | addons/plugin.program.dokukanal.buildsync/resources/lib/favourites_merge.py:30-36 | the loop over the root's children collects exactly ActionsOf(children) |
| FavouritesMerge.WriteFavourites | addons/plugin.program.dokukanal.buildsync/resources/lib/favourites_merge.py:41-60 | the file at the path is replaced by the written document, nothing else on disk changes, and True is returned |
| FavouritesMerge.BuildChildren | addons/plugin.program.dokukanal.buildsync/resources/lib/favourites_merge.py:46-51 | the loop adds one `favourite` element per kept (string, non-blank, stripped) item |
| FavouritesMerge.ReadBackWritten | addons/plugin.program.dokukanal.buildsync/resources/lib/favourites_merge.py:41-51 | the children written read back as the stripped non-blank items, in order |
| FavouritesMerge.ActionsOfConcat | addons/plugin.program.dokukanal.buildsync/resources/lib/favourites_merge.py:31-35 | parsing distributes over concatenated children |
| FavouritesMerge.WriteThenParse | addons/plugin.program.dokukanal.buildsync/resources/lib/favourites_merge.py:18-60 | round trip: parse(write(path, items)) is the stripped non-blank items |
| FavouritesMerge.KeptOfTrimmed | addons/plugin.program.dokukanal.buildsync/resources/lib/favourites_merge.py:47-51 | a list of trimmed non-empty strings is written back unchanged |
| FavouritesMerge.MergeUnion | addons/plugin.program.dokukanal.buildsync/resources/lib/favourites_merge.py:63-75 | the loop with its seen-set returns exactly Merged(local, server) |
| FavouritesMerge.AppendedShape | addons/plugin.program.dokukanal.buildsync/resources/lib/favourites_merge.py:70-74 | appended entries are server entries in server order, kept verbatim, with a non-empty key not seen before and no key twice |
| FavouritesMerge.AppendedCovers | addons/plugin.program.dokukanal.buildsync/resources/lib/favourites_merge.py:68-74 | every server entry with a non-empty key is either already seen or appended |
| FavouritesMerge.AppendedNothingNew | addons/plugin.program.dokukanal.buildsync/resources/lib/favourites_merge.py:70-74 | nothing is appended when every non-empty server key was already seen |
| FavouritesMerge.MergedContents | addons/plugin.program.dokukanal.buildsync/resources/lib/favourites_merge.py:63-75 | the result starts with the local list unchanged, the rest is a subsequence of the server list, and its non-empty keys are the union of both inputs' keys |
| FavouritesMerge.MergeIdentity | addons/plugin.program.dokukanal.buildsync/resources/lib/favourites_merge.py:63-75 | merging a list with itself or with an empty server list returns it unchanged, duplicates and blanks included |
| FavouritesMerge.MergeIdempotent | addons/plugin.program.dokukanal.buildsync/resources/lib/favourites_merge.py:63-75 | merging the result again with the same server list changes nothing |
| FavouritesMerge.MergeSymmetricKeys | addons/plugin.program.dokukanal.buildsync/resources/lib/favourites_merge.py:63-75 | the set of non-empty keys of the union does not depend on which side is local |
| FavouritesMerge.ParsedTrimmed | addons/plugin.program.dokukanal.buildsync/resources/lib/favourites_merge.py:18-38 | every parse result is a list of trimmed non-empty strings |
| FavouritesMerge.MergedTrimmed | addons/plugin.program.dokukanal.buildsync/resources/lib/favourites_merge.py:63-75 | merging two such lists gives such a list |
| FavouritesMerge.WrittenReadsBack | addons/plugin.program.dokukanal.buildsync/resources/lib/favourites_merge.py:18-60 | writing a trimmed list and parsing the file back gives that list |
| StaticFavourites.FavouritesXmlPath | addons/plugin.program.dokukanal.buildsync/resources/lib/static_favourites.py:17-31 | the path of a folder's favourites.xml always ends in favourites.xml |
| StaticFavourites.AbsoluteFolderLeavesBase | addons/plugin.program.dokukanal.buildsync/resources/lib/static_favourites.py:23-31 | the folder name is only stripped, so a name starting with '/' discards the Static Favourites directory in os.path.join |
| StaticFavourites.ElementOfParts | addons/plugin.program.dokukanal.buildsync/resources/lib/static_favourites.py:52 | the element pattern matches `<favourite ATTRS>COMMAND</favourite>` whole at its start when the attribute text starts with a non-blank and holds no '>' and the command holds no '<' |
| StaticFavourites.ElementsFound | addons/plugin.program.dokukanal.buildsync/resources/lib/static_favourites.py:52 | finditer reports a match at i and resumes at its end |
| StaticFavourites.ElementsSkipped | addons/plugin.program.dokukanal.buildsync/resources/lib/static_favourites.py:52 | finditer moves one position on where nothing matches |
| StaticFavourites.DecodeWithoutAmpersand | addons/plugin.program.dokukanal.buildsync/resources/lib/static_favourites.py:59-62 | text without '&' passes both entity decoders unchanged |
| StaticFavourites.CommandDecodesTwice | addons/plugin.program.dokukanal.buildsync/resources/lib/static_favourites.py:59-62 | the command decoder replaces `&amp;` before `&lt;`, so `&amp;lt;` becomes '<'; the attribute decoder turns `&amp;quot;` into `&quot;` only |
| StaticFavourites.ItemOf | addons/plugin.program.dokukanal.buildsync/resources/lib/static_favourites.py:53-64 | an element gives an item only with a name or a command, and the item's name is never empty ('Item' stands in) |
| StaticFavourites.ItemsOf | addons/plugin.program.dokukanal.buildsync/resources/lib/static_favourites.py:51-65 | every item read has a non-empty name |
| StaticFavourites.ReadFavourites | addons/plugin.program.dokukanal.buildsync/resources/lib/static_favourites.py:34-65 | a missing or unreadable file gives no items; every item has a non-empty name |
| StaticFavourites.LastNameWins | addons/plugin.program.dokukanal.buildsync/resources/lib/static_favourites.py:56-59 | the last `name` attribute (compared lower-cased) decides the name |
| StaticFavourites.NoNameKeeps | addons/plugin.program.dokukanal.buildsync/resources/lib/static_favourites.py:54-59 | without a `name` attribute the name stays as it was |
| StaticFavourites.ReadsSingleElement | addons/plugin.program.dokukanal.buildsync/resources/lib/static_favourites.py:51-65 | a text holding exactly one element reads as that element's item |
| StaticFavourites.ReadsOneEntry | addons/plugin.program.dokukanal.buildsync/resources/lib/static_favourites.py:34-65 | one favourite written as Kodi writes it reads back as its name, no thumbnail, and its stripped command |
| StaticFavourites.ReadAttributes | addons/plugin.program.dokukanal.buildsync/resources/lib/static_favourites.py:54-61 | the loop over attribute matches computes the specified (name, thumb) |
| StaticFavourites.ReadItem | addons/plugin.program.dokukanal.buildsync/resources/lib/static_favourites.py:53-64 | one element's item: attribute loop, then the decoded stripped body |
| StaticFavourites.ParseItems | addons/plugin.program.dokukanal.buildsync/resources/lib/static_favourites.py:51-65 | the loop over element matches collects exactly the specified items |
| StaticFavourites.ParseStep | addons/plugin.program.dokukanal.buildsync/resources/lib/static_favourites.py:52-65 | one round of the outer loop moves past the match at i and keeps the items found plus the items still ahead equal to what they were |
| StaticFavourites.ReadFavouritesFile | addons/plugin.program.dokukanal.buildsync/resources/lib/static_favourites.py:34-65 | the method returns exactly ReadFavourites of the file |
| StaticFavourites.ReaderMatchesSync | addons/plugin.program.dokukanal.buildsync/resources/lib/static_favourites.py:17-31 | the reader opens the very favourites.xml the favourites sync writes for a folder (profile = userdata/addon_data/<id>) |
| SourcesXml.DokuSource | addons/plugin.program.dokukanal.buildsync/resources/lib/sources_xml.py:39-44 | the source added is named Doku-Kanal |
| SourcesXml.FailureWritesNothing | addons/plugin.program.dokukanal.buildsync/resources/lib/sources_xml.py:19-31 | every failure leaves the file as it was, and an unreadable or unparsable file is a failure |
| SourcesXml.MissingFilesCreated | addons/plugin.program.dokukanal.buildsync/resources/lib/sources_xml.py:32-50 | a document without `<files>` gets one holding just the new source, with "added" |
| SourcesXml.AddedAfterExisting | addons/plugin.program.dokukanal.buildsync/resources/lib/sources_xml.py:35-50 | when no existing source is Doku-Kanal the new one is appended after the kept ones ("added"); otherwise nothing changes ("already present") |
| SourcesXml.SuccessHasDoku | addons/plugin.program.dokukanal.buildsync/resources/lib/sources_xml.py:13-50 | after a successful run the file holds a Doku-Kanal source |
| SourcesXml.Idempotent | addons/plugin.program.dokukanal.buildsync/resources/lib/sources_xml.py:13-50 | a second run after a successful one writes nothing and answers "already present" |
| SourcesXml.Tree.FilesElement | addons/plugin.program.dokukanal.buildsync/resources/lib/sources_xml.py:32-34 | `<files>` is found, or created empty when missing |
| SourcesXml.Tree.AppendSource | addons/plugin.program.dokukanal.buildsync/resources/lib/sources_xml.py:39-44 | one `<source>` is appended under `<files>` and nothing else changes |
| SourcesXml.FindDoku | addons/plugin.program.dokukanal.buildsync/resources/lib/sources_xml.py:35-38 | the loop finds a source exactly when one has the stripped name Doku-Kanal |
| SourcesXml.EnsureDokuKanalSource | addons/plugin.program.dokukanal.buildsync/resources/lib/sources_xml.py:13-50 | the method's answer and the saved file are exactly Ensured of the load result, the write result and the old file |
| SyncBackend.NormFtpPath | addons/plugin.program.dokukanal.buildsync/resources/lib/sync_backend.py:14-17 | the result starts with '/', holds no backslash, and ends with the folded input (at most one character added) |
| SyncBackend.NormFtpPathIdempotent | addons/plugin.program.dokukanal.buildsync/resources/lib/sync_backend.py:14-17 | normalising twice is normalising once |
| SyncBackend.FtpBasePath | addons/plugin.program.dokukanal.buildsync/resources/lib/sync_backend.py:26 | the stored base path is absolute |
| SyncBackend.FtpRemote | addons/plugin.program.dokukanal.buildsync/resources/lib/sync_backend.py:28-30 | an absolute path is used as it is; a relative one becomes base + '/' + path |
| SyncBackend.EmptyBaseDoubleSlash | addons/plugin.program.dokukanal.buildsync/resources/lib/sync_backend.py:26-30 | an empty base path becomes '/', so the relative path "x" maps to "//x" |
| SyncBackend.SegmentsConcat | addons/plugin.program.dokukanal.buildsync/resources/lib/sync_backend.py:30 | the directories of a + '/' + b are those of a followed by those of b |
| SyncBackend.SegmentsOfStripped | addons/plugin.program.dokukanal.buildsync/resources/lib/sync_backend.py:75-78 | stripping the outer slashes loses no path segment |
| SyncBackend.FtpTargetUnderBase | addons/plugin.program.dokukanal.buildsync/resources/lib/sync_backend.py:26-30 | a relative FTP path names the base directory's segments followed by its own |
| SyncBackend.BasePathSegments | addons/plugin.program.dokukanal.buildsync/resources/lib/sync_backend.py:26 | the base directory is the one the configured base path names |
| SyncBackend.UrlPath | addons/plugin.program.dokukanal.buildsync/resources/lib/sync_backend.py:122 | the path part of an SFTP/SMB URL names the same segments as the folded remote path |
| SyncBackend.RemoteUrl | addons/plugin.program.dokukanal.buildsync/resources/lib/sync_backend.py:121-123 | the prefix followed by the path, or the prefix with exactly one trailing '/' when the path is empty |
| SyncBackend.DirUrl | addons/plugin.program.dokukanal.buildsync/resources/lib/sync_backend.py:153-155 | the directory URL always ends in '/' |
| SyncBackend.CredentialsReadBack | addons/plugin.program.dokukanal.buildsync/resources/lib/sync_backend.py:117-119 | with quote(safe='') the user name is exactly what precedes the first ':' after the scheme and the password what lies between it and the first '@' |
| SyncBackend.SftpEmptyPathIsPrefix | addons/plugin.program.dokukanal.buildsync/resources/lib/sync_backend.py:119-123 | with an empty path the SFTP URL is the prefix itself |
| SyncBackend.SftpPort | addons/plugin.program.dokukanal.buildsync/resources/lib/sync_backend.py:116 | an empty port gives 22 |
| SyncBackend.GetBackend | addons/plugin.program.dokukanal.buildsync/resources/lib/sync_backend.py:259-268 | "sftp" gives SFTP (none when the port is not a number), "smb" gives SMB, anything else FTP with an absolute base path |
| SyncBackend.ConnectionKindIdempotent | addons/plugin.program.dokukanal.buildsync/resources/lib/sync_backend.py:263 | normalising a connection type with a non-blank character is idempotent |
| SyncBackend.GetBackendNormalised | addons/plugin.program.dokukanal.buildsync/resources/lib/sync_backend.py:263-268 | the factory ignores case and surrounding blanks |
| SyncBackend.ListDir | addons/plugin.program.dokukanal.buildsync/resources/lib/sync_backend.py:99-109 | [] when the folder does not exist; otherwise exactly the child names, without repeats for FTP, directories before files for SFTP/SMB |
| SyncBackend.Uploaded | addons/plugin.program.dokukanal.buildsync/resources/lib/sync_backend.py:32-42 | a possible upload replaces the remote file with the local content and keeps every other file; an impossible one changes nothing |
| SyncBackend.Upload | addons/plugin.program.dokukanal.buildsync/resources/lib/sync_backend.py:32-42 | True exactly when the upload can happen, and the server becomes Uploaded(...) |
| SyncBackend.Downloaded | addons/plugin.program.dokukanal.buildsync/resources/lib/sync_backend.py:44-54 | a possible download copies the remote content; a failed FTP RETR from a reachable server leaves an empty local file (opened before RETR); otherwise nothing changes |
| SyncBackend.Download | addons/plugin.program.dokukanal.buildsync/resources/lib/sync_backend.py:138-149 | True exactly when the download can happen; local files become Downloaded(...) and no directory changes |
| SyncBackend.FtpWalkMisplacesNestedFolder | addons/plugin.program.dokukanal.buildsync/resources/lib/sync_backend.py:81-91 | two missing levels: the second one is created beside the first, and the folder still does not exist |
| SyncBackend.FtpEnsureFolder | addons/plugin.program.dokukanal.buildsync/resources/lib/sync_backend.py:72-97 | as written: files unchanged, directories become the as-written walk, the result is folder_exists afterwards |
| SyncBackend.FtpLevel | addons/plugin.program.dokukanal.buildsync/resources/lib/sync_backend.py:82-91 | one level as written: cwd into the prefix, or mkd(segment) in the current directory, stopping when the name is taken |
| SyncBackend.FtpWalkFixedCreates | addons/plugin.program.dokukanal.buildsync/resources/lib/sync_backend.py:72-94 | the intended walk creates exactly the missing prefixes when no file is in the way |
| SyncBackend.FtpEnsureFolderFixed | addons/plugin.program.dokukanal.buildsync/resources/lib/sync_backend.py:72-97 | intended form (mkd of the full path): the folder exists afterwards whenever the server answers and no file is in the way |
| SyncBackend.FtpMakeLevel | addons/plugin.program.dokukanal.buildsync/resources/lib/sync_backend.py:82-91 | one intended level: the prefix exists afterwards unless a file holds its name |
| SyncBackend.VfsEnsureFolder | addons/plugin.program.dokukanal.buildsync/resources/lib/sync_backend.py:161-171 | xbmcvfs.mkdirs creates every missing level when the server answers and no file is in the way; the result is folder_exists afterwards |
| SyncBackend.Ensured | addons/plugin.program.dokukanal.buildsync/resources/lib/sync_backend.py:72-97 | intended, with the corrected FTP ensure_folder walk: ensure_folder never touches files or reachability and never removes a directory |
| SyncBackend.EnsuredCreatesFolder | addons/plugin.program.dokukanal.buildsync/resources/lib/sync_backend.py:73 | intended, with the corrected FTP ensure_folder walk: the docstring's promise: the folder exists afterwards whenever the server answers and no file stands on its path |
| SyncBackend.EnsureFolder | addons/plugin.program.dokukanal.buildsync/resources/lib/sync_backend.py:72-97 | intended, with the corrected FTP ensure_folder walk: the method leaves exactly Ensured(...) and returns folder_exists |
| SyncBackend.EnsuredKeepsClosed | addons/plugin.program.dokukanal.buildsync/resources/lib/sync_backend.py:72-97 | every folder ensure_folder creates has its parent |
| SyncBackend.TargetChild | addons/plugin.program.dokukanal.buildsync/resources/lib/sync_backend.py:28-30 | a separator-free name appended to an absolute remote path names the entry of that name inside its directory, on every transport |
| SyncMessages.Localized | addons/plugin.program.dokukanal.buildsync/resources/lib/run_actions.py:84 | L(msg_id) gives a string exactly for an integer (or bool) id |
| SyncMessages.FieldName | addons/plugin.program.dokukanal.buildsync/resources/lib/run_actions.py:84 | a replacement field's name is the text before any '!' or ':' |
| SyncMessages.FormatPlain | addons/plugin.program.dokukanal.buildsync/resources/lib/run_actions.py:84 | str.format leaves a template without braces unchanged |
| SyncMessages.FormatField | addons/plugin.program.dokukanal.buildsync/resources/lib/run_actions.py:84 | str.format replaces a named field by its value |
| SyncMessages.PlainPrefix | addons/plugin.program.dokukanal.buildsync/resources/lib/run_actions.py:84 | brace-free text in front of a template passes through str.format |
| SyncMessages.MissingFieldKeyError | addons/plugin.program.dokukanal.buildsync/resources/lib/run_actions.py:84-85 | a field the dictionary lacks raises KeyError |
| SyncMessages.FormatSyncResult | addons/plugin.program.dokukanal.buildsync/resources/lib/run_actions.py:77-86 | no message exactly when the result is not a sequence or has fewer than two elements |
| SyncMessages.ArgumentsOnlyFromTriple | addons/plugin.program.dokukanal.buildsync/resources/lib/run_actions.py:82-84 | arguments are used only for exactly three elements with a dictionary last; otherwise the message is the plain string |
| SyncMessages.KeyErrorFallsBack | addons/plugin.program.dokukanal.buildsync/resources/lib/run_actions.py:83-86 | a KeyError falls back to the unformatted string |
| SyncMessages.PathMessage | addons/plugin.program.dokukanal.buildsync/resources/lib/run_actions.py:77-86 | a message with a {path} field gets the path filled in |
| AutoSyncConfig.ModeOf | addons/plugin.program.dokukanal.buildsync/auto_ftp_sync.py:54-55 | overwrite exactly when the stripped, lower-cased mode (default 'merge') is 'overwrite'; anything else is merge |
| AutoSyncConfig.LoadSettings | addons/plugin.program.dokukanal.buildsync/auto_ftp_sync.py:25-55 | the static folder list is the comma list of the setting, each entry stripped and non-blank |
| AutoSyncConfig.ModeDefault | addons/plugin.program.dokukanal.buildsync/auto_ftp_sync.py:54-55 | an unset mode means merge |
| AutoSyncConfig.ModeOverwrite | addons/plugin.program.dokukanal.buildsync/auto_ftp_sync.py:54-55 | 'overwrite' with surrounding blanks selects overwrite |
| AutoSyncConfig.ModeCaseInsensitive | addons/plugin.program.dokukanal.buildsync/auto_ftp_sync.py:54-55 | the mode ignores case |
| AutoSyncConfig.LowerStripCommute | addons/plugin.program.dokukanal.buildsync/auto_ftp_sync.py:54 | lower-casing commutes with stripping white space |
| AutoSyncConfig.ClampConnection | addons/plugin.program.dokukanal.buildsync/auto_ftp_sync.py:93-94 | a connection number outside 1..3 is read as 1; 1..3 are kept |
| AutoSyncConfig.TypeName | addons/plugin.program.dokukanal.buildsync/auto_ftp_sync.py:96-100 | the type is always ftp, sftp or smb |
| AutoSyncConfig.ProfileSettings | addons/plugin.program.dokukanal.buildsync/auto_ftp_sync.py:87-108 | a profile's type is ftp, sftp or smb and its SFTP port is never empty |
| AutoSyncConfig.ProfileTypeOfIndex | addons/plugin.program.dokukanal.buildsync/auto_ftp_sync.py:96-100 | a stored index 1 gives sftp, 2 smb, every other number ftp |
| AutoSyncConfig.ProfileTypeOfGarbage | addons/plugin.program.dokukanal.buildsync/auto_ftp_sync.py:96-99 | a type setting that is not a number gives ftp |
| AutoSyncConfig.ProfileOutOfRange | addons/plugin.program.dokukanal.buildsync/auto_ftp_sync.py:93-94 | connection numbers outside 1..3 read connection 1 |
| AutoSyncConfig.ActiveProfile | addons/plugin.program.dokukanal.buildsync/auto_ftp_sync.py:111-126 | connection 1..3 is read as itself; "None" (0) and any other number give connection 1 with the host emptied |
| AutoSyncConfig.NoneMeansNoConnection | addons/plugin.program.dokukanal.buildsync/auto_ftp_sync.py:111-126 | choosing "None" switches every remote action off, whatever connection 1 holds |
| AutoSyncConfig.ActiveBackend | addons/plugin.program.dokukanal.buildsync/auto_ftp_sync.py:178-185 | an FTP backend from the active profile has an absolute base path |
| AutoSyncConfig.ActiveBackendKind | addons/plugin.program.dokukanal.buildsync/auto_ftp_sync.py:178-185 | the backend has the profile's type; ftp and smb always build, sftp builds exactly when the port is a number |
| AutoSyncConfig.HeadSegs | addons/plugin.program.dokukanal.buildsync/auto_ftp_sync.py:366-367 | the leading segments end with auto_fav_sync |
| AutoSyncConfig.PartSeg | addons/plugin.program.dokukanal.buildsync/auto_ftp_sync.py:368-373 | one part gives at most one segment |
| AutoSyncConfig.RemotePathOf | addons/plugin.program.dokukanal.buildsync/auto_ftp_sync.py:364-374 | the remote path is absolute |
| AutoSyncConfig.RemotePath | addons/plugin.program.dokukanal.buildsync/auto_ftp_sync.py:364-374 | the loop over the parts returns exactly RemotePathOf |
| AutoSyncConfig.AppendPartSegs | addons/plugin.program.dokukanal.buildsync/auto_ftp_sync.py:368-373 | the loop appends each part's segment in turn |
| AutoSyncConfig.RemotePathSnoc | addons/plugin.program.dokukanal.buildsync/auto_ftp_sync.py:368-374 | an empty part adds nothing; any other part adds its segment under the path built so far |
| AutoSyncConfig.FileNameSeg | addons/plugin.program.dokukanal.buildsync/auto_ftp_sync.py:372-373 | a part with a '.' and no slash is kept as it is |
| AutoSyncConfig.RemoteFileInFolder | addons/plugin.program.dokukanal.buildsync/auto_ftp_sync.py:364-374 | a file name part sits directly inside the folder's path |
| AutoSyncConfig.RemoteFileTarget | addons/plugin.program.dokukanal.buildsync/auto_ftp_sync.py:364-374 | on every transport the file's remote path names the entry of that name in the folder's directory |
| AutoSyncConfig.FolderPartCaseInsensitive | addons/plugin.program.dokukanal.buildsync/auto_ftp_sync.py:372-373 | a folder part given in any case names the same segment as its lower-case form |
| AutoSync.FavPath | addons/plugin.program.dokukanal.buildsync/auto_ftp_sync.py:79 | the local favourites file ends in favourites.xml |
| AutoSync.BakPath | addons/plugin.program.dokukanal.buildsync/auto_ftp_sync.py:406 | the backup ends in .bak |
| AutoSync.ServerTemp | addons/plugin.program.dokukanal.buildsync/auto_ftp_sync.py:411-412 | the standard sync's temporary copy ends in favourites_server.xml |
| AutoSync.StaticTemp | addons/plugin.program.dokukanal.buildsync/auto_ftp_sync.py:442-443 | the static sync's temporary copy ends in favourites_server_static.xml |
| AutoSync.FavouritesIsNotScratch | addons/plugin.program.dokukanal.buildsync/auto_ftp_sync.py:404-443 | a favourites file is never one of the temporary or backup files |
| AutoSync.BakIsNotTemp | addons/plugin.program.dokukanal.buildsync/auto_ftp_sync.py:406-412 | the backup and the temporary copy of the standard sync are different files |
| AutoSync.LayoutSeparate | addons/plugin.program.dokukanal.buildsync/auto_ftp_sync.py:79-80 | the local paths under any userdata directory are kept apart |
| AutoSync.RoundReadsBack | addons/plugin.program.dokukanal.buildsync/auto_ftp_sync.py:413-423 | after one round the local file reads back as exactly the chosen list (merge of local and server, or the server list in overwrite mode) |
| AutoSync.RoundWritesList | addons/plugin.program.dokukanal.buildsync/auto_ftp_sync.py:421 | the local file after the round is the written document of the chosen list |
| AutoSync.ChosenTrimmed | addons/plugin.program.dokukanal.buildsync/auto_ftp_sync.py:413-420 | the chosen list holds only stripped non-blank actions |
| AutoSync.RoundMergeKeepsLocal | addons/plugin.program.dokukanal.buildsync/auto_ftp_sync.py:417-420 | in merge mode the old local list is a prefix of the new one and the keys are the union of local and server keys |
| AutoSync.RoundOverwriteFailedDownload | addons/plugin.program.dokukanal.buildsync/auto_ftp_sync.py:415-419 | in overwrite mode a failed download empties the local favourites |
| AutoSync.RoundUploads | addons/plugin.program.dokukanal.buildsync/auto_ftp_sync.py:422 | when the server answers, the remote folder exists and the name is not a directory, the upload succeeds and the server copy is the new local file; an unreachable server is left alone |
| AutoSync.RoundFrame | addons/plugin.program.dokukanal.buildsync/auto_ftp_sync.py:424-429 | the temporary copy is gone afterwards and no other local file changes |
| AutoSync.FetchServerList | addons/plugin.program.dokukanal.buildsync/auto_ftp_sync.py:415-417 | the download to temp and the parse of what arrived |
| AutoSync.SyncOneFile | addons/plugin.program.dokukanal.buildsync/auto_ftp_sync.py:413-429 | the method's disk, server and upload result are exactly those of SyncRound |
| AutoSync.ChooseList | addons/plugin.program.dokukanal.buildsync/auto_ftp_sync.py:414-420 | the list written is Chosen of the local list and the fetched server list |
| AutoSync.RemoveTemp | addons/plugin.program.dokukanal.buildsync/auto_ftp_sync.py:424-429 | the temporary file is removed and nothing else changes |
| AutoSync.BackedUp | addons/plugin.program.dokukanal.buildsync/auto_ftp_sync.py:404-408 | favourites.xml is copied to favourites.xml.bak when it exists; otherwise nothing changes |
| AutoSync.StandardSyncEffect | addons/plugin.program.dokukanal.buildsync/auto_ftp_sync.py:394-429 | afterwards .bak holds the favourites found before, the temp copy is gone, and favourites.xml holds the chosen list of the local and server favourites |
| AutoSync.BackedUpRound | addons/plugin.program.dokukanal.buildsync/auto_ftp_sync.py:404-429 | the round after the backup keeps the backup and writes the chosen list, for any server path |
| AutoSync.SyncStandardFavourites | addons/plugin.program.dokukanal.buildsync/auto_ftp_sync.py:394-429 | the method's disk, server and outcome are exactly StandardSynced of the old state |
| AutoSync.WithDir | addons/plugin.program.dokukanal.buildsync/auto_ftp_sync.py:446-447 | after the check the folder's directory exists, unless a file holds that name |
| AutoSync.StaticRound | addons/plugin.program.dokukanal.buildsync/auto_ftp_sync.py:445-466 | one static folder never removes a local directory |
| AutoSync.StaticRoundsStep | addons/plugin.program.dokukanal.buildsync/auto_ftp_sync.py:445 | the folders are processed in order, one round each |
| AutoSync.SyncStaticFolder | addons/plugin.program.dokukanal.buildsync/auto_ftp_sync.py:445-466 | one static folder on the disk and the server is exactly StaticRound |
| AutoSync.SyncStaticFolderAt | addons/plugin.program.dokukanal.buildsync/auto_ftp_sync.py:445-466 | the same, once the folder's remote path is computed |
| AutoSync.SyncStaticFavourites | addons/plugin.program.dokukanal.buildsync/auto_ftp_sync.py:431-467 | the method's disk, server and outcome are exactly StaticSynced of the old state |
| AutoSyncRemote.EnsureStepGrows | addons/plugin.program.dokukanal.buildsync/auto_ftp_sync.py:629-636 | one folder's step only adds directories, and reports success exactly when the folder exists afterwards |
| AutoSyncRemote.EnsureAllGrows | addons/plugin.program.dokukanal.buildsync/auto_ftp_sync.py:629-637 | ensuring the folders never touches the server's files and only adds directories |
| AutoSyncRemote.EnsureAllSound | addons/plugin.program.dokukanal.buildsync/auto_ftp_sync.py:629-637 | True means every folder of the list exists on the server afterwards |
| AutoSyncRemote.EnsureAllSucceeds | addons/plugin.program.dokukanal.buildsync/auto_ftp_sync.py:629-637 | intended, with the corrected FTP ensure_folder walk: on a reachable server with a closed tree and no file on any folder's path, every folder gets created |
| AutoSyncRemote.EnsureAllOffline | addons/plugin.program.dokukanal.buildsync/auto_ftp_sync.py:629-637 | an unreachable server makes the first folder fail and changes nothing |
| AutoSyncRemote.EnsureOne | addons/plugin.program.dokukanal.buildsync/auto_ftp_sync.py:630-636 | intended, with the corrected FTP ensure_folder walk: the method performs exactly one EnsureStep |
| AutoSyncRemote.EnsureFolders | addons/plugin.program.dokukanal.buildsync/auto_ftp_sync.py:629-637 | intended, with the corrected FTP ensure_folder walk: the loop over the folders performs exactly EnsureAll |
| AutoSyncRemote.JobOfBuilt | addons/plugin.program.dokukanal.buildsync/auto_ftp_sync.py:25-55 | every job read from the settings has the shape the later lemmas assume |
| AutoSyncRemote.StructurePaths | addons/plugin.program.dokukanal.buildsync/auto_ftp_sync.py:627-628 | the main folder, then one folder per static folder, in order |
| AutoSyncRemote.StructureReportedExists | addons/plugin.program.dokukanal.buildsync/auto_ftp_sync.py:613-637 | when the structure is reported present, the main folder and every static folder exist on the server |
| AutoSyncRemote.StructureCreated | addons/plugin.program.dokukanal.buildsync/auto_ftp_sync.py:613-637 | intended, with the corrected FTP ensure_folder walk: on a reachable, closed server with no file in the way, the structure is reported present |
| AutoSyncRemote.EnsureRemoteStructure | addons/plugin.program.dokukanal.buildsync/auto_ftp_sync.py:613-637 | intended, with the corrected FTP ensure_folder walk: the method's server and answer are exactly StructureChecked |
| AutoSyncRemote.CtMapGet | addons/plugin.program.dokukanal.buildsync/auto_ftp_sync.py:700-701 | a string key gives 'FTP'; the integer keys 1 and 2 give 'SFTP' and 'SMB' |
| AutoSyncRemote.TypeIndexOf | addons/plugin.program.dokukanal.buildsync/auto_ftp_sync.py:96-100 | the index a profile's type name came from |
| AutoSyncRemote.LabelAsWrittenMisnamesSftp | addons/plugin.program.dokukanal.buildsync/auto_ftp_sync.py:700-701 | as written the string type 'sftp' is reported as 'FTP'; the corrected label says 'SFTP' |
| AutoSyncRemote.ConnectionLabelNamesBackend | addons/plugin.program.dokukanal.buildsync/auto_ftp_sync.py:700-701 | the corrected label names the transport the active backend uses |
| AutoSyncRemote.FavouritesRounds | addons/plugin.program.dokukanal.buildsync/auto_ftp_sync.py:692-708 | after the two syncs the reply is 30314 (success) or 30028 (failure) |
| AutoSyncRemote.FavouritesNeverMissingFolder | addons/plugin.program.dokukanal.buildsync/auto_ftp_sync.py:683-690 | the "main folder missing" reply 30023 is never given, because a structure reported present includes the main folder |
| AutoSyncRemote.FavouritesWithoutConnection | addons/plugin.program.dokukanal.buildsync/auto_ftp_sync.py:641-676 | without a connection the server is left alone; the only change is the backup of favourites.xml, made (with success) exactly when it exists |
| AutoSyncRemote.FavouritesStaticFoldersSucceed | addons/plugin.program.dokukanal.buildsync/auto_ftp_sync.py:692-706 | once the structure is in place, configured static folders make the sync succeed whatever the standard upload does |
| AutoSyncRemote.FavouritesSucceedOnline | addons/plugin.program.dokukanal.buildsync/auto_ftp_sync.py:653-714 | intended, with the corrected FTP ensure_folder walk: on a reachable closed server with no file in the way, a job with static folders always succeeds |
| AutoSyncRemote.SyncFavourites | addons/plugin.program.dokukanal.buildsync/auto_ftp_sync.py:653-714 | intended, with the corrected FTP ensure_folder walk: the method's disk, server and reply are exactly FavouritesSynced |
| AutoSyncRemote.EntryOf | addons/plugin.program.dokukanal.buildsync/auto_ftp_sync.py:772-775 | the entry name a path under the extract directory stands for |
| AutoSyncRemote.Extracted | addons/plugin.program.dokukanal.buildsync/auto_ftp_sync.py:772-775 | extractall: every entry becomes the file base/name, replacing what was there; every other file stays |
| AutoSyncRemote.AddonUploadKeepsLocalData | addons/plugin.program.dokukanal.buildsync/auto_ftp_sync.py:780-801 | the upload branch changes no local file but the zip, and removes the zip only after a successful upload |
| AutoSyncRemote.AddonUploadEffect | addons/plugin.program.dokukanal.buildsync/auto_ftp_sync.py:788-799 | a successful upload puts the zip on the server, deletes it locally and notes 30020; a failed one notes 30029 and leaves the server alone |
| AutoSyncRemote.AddonSecondaryOnlyReads | addons/plugin.program.dokukanal.buildsync/auto_ftp_sync.py:803-825 | a secondary system never writes to the server |
| AutoSyncRemote.AddonDownloadEffect | addons/plugin.program.dokukanal.buildsync/auto_ftp_sync.py:809-825 | a download unpacks its entries under addon_data, removes the zip and notes 30025; a failed one notes 30021 and changes no file but the zip path |
| AutoSyncRemote.UnpackedEntries | addons/plugin.program.dokukanal.buildsync/auto_ftp_sync.py:815-821 | an archive's entries land under addon_data, and the zip is gone |
| AutoSyncRemote.UploadAddonData | addons/plugin.program.dokukanal.buildsync/auto_ftp_sync.py:780-801 | the main system's branch on the disk and the server is exactly AddonUploaded |
| AutoSyncRemote.DownloadAddonData | addons/plugin.program.dokukanal.buildsync/auto_ftp_sync.py:809-825 | the secondary system's branch is exactly AddonDownloaded |
| AutoSyncRemote.Unpack | addons/plugin.program.dokukanal.buildsync/auto_ftp_sync.py:815-821 | extract then delete the zip: the files become Unpacked and no directory changes |
| AutoSyncRemote.SyncAddonData | addons/plugin.program.dokukanal.buildsync/auto_ftp_sync.py:716-825 | the method's disk, server, end and notifications are exactly AddonSynced |
| AutoSyncRemote.TransferAddonData | addons/plugin.program.dokukanal.buildsync/auto_ftp_sync.py:777-825 | the branch chosen by the main-system flag is exactly AddonTransferred |
| AutoSyncStartup.StepUnless | addons/plugin.program.dokukanal.buildsync/auto_ftp_sync.py:867-870 | a guarded step runs exactly when its skip condition is false |
| AutoSyncStartup.RunPeriodic | addons/plugin.program.dokukanal.buildsync/auto_ftp_sync.py:909-922 | the periodic loop over its rounds produces exactly Periodic(ticks) |
| AutoSyncStartup.RunStartup | addons/plugin.program.dokukanal.buildsync/auto_ftp_sync.py:827-924 | the steps started are exactly StartupTrace of the settings, the abort checks and the rounds |
| AutoSyncStartup.DisabledStartsNothing | addons/plugin.program.dokukanal.buildsync/auto_ftp_sync.py:858-859 | a disabled sync starts nothing |
| AutoSyncStartup.NoRemoteStepsWithoutConnection | addons/plugin.program.dokukanal.buildsync/auto_ftp_sync.py:873-884 | without a connection neither the folder structure nor the add-on data is touched at start |
| AutoSyncStartup.PeriodicOnlyFavourites | addons/plugin.program.dokukanal.buildsync/auto_ftp_sync.py:909-922 | the periodic loop starts nothing but favourites syncs |
| AutoSyncStartup.FullStart | addons/plugin.program.dokukanal.buildsync/auto_ftp_sync.py:866-907 | with no abort and a connection, every one-off step runs in the source's order: auto-clean, structure, add-on data, favourites, random image, thumbnails |
| AutoSyncStartup.PeriodicStopsAtAbort | addons/plugin.program.dokukanal.buildsync/auto_ftp_sync.py:912-914 | at most one sync per round, and none from the first aborted round on |
| AutoSyncStartup.StickyAbortStopsStart | addons/plugin.program.dokukanal.buildsync/auto_ftp_sync.py:866-909 | once the abort flag is set at check k, at most k one-off steps ran and the periodic loop never starts |
| LegacySync.LegacyProfileAt | addons/plugin.program.auto.ftp.sync/auto_ftp_sync.py:62-94 | a profile exists exactly when its type setting is a number (int() raises otherwise), and its type is named from that number |
| LegacySync.LegacyProfileOutOfRange | addons/plugin.program.auto.ftp.sync/auto_ftp_sync.py:65-66 | an active profile outside 0..2 reads profile 0, with the unprefixed keys |
| LegacySync.LegacyProfileKeys | addons/plugin.program.auto.ftp.sync/auto_ftp_sync.py:79-82 | profiles 1 and 2 read the keys prefixed profile_2_ and profile_3_ |
| LegacySync.LegacyTypeOfIndex | addons/plugin.program.auto.ftp.sync/auto_ftp_sync.py:83-84 | a stored type 1 gives sftp, 2 smb, any other number ftp |
| LegacySync.RawSeg | addons/plugin.program.auto.ftp.sync/auto_ftp_sync.py:111 | one part gives at most one segment, case kept |
| LegacySync.LegacyRemotePathOf | addons/plugin.program.auto.ftp.sync/auto_ftp_sync.py:107-112 | the older add-on's remote path is absolute |
| LegacySync.LegacyRemotePathAgrees | addons/plugin.program.auto.ftp.sync/auto_ftp_sync.py:107-112 | both add-ons address the same server path when no part needs lower-casing |
| LegacySync.LegacyStandardDirection | addons/plugin.program.auto.ftp.sync/auto_ftp_sync.py:132-143 | the main system never writes a local file and any other system never writes to the server; a successful transfer copies the file in its direction |
| LegacySync.LegacySyncStandard | addons/plugin.program.auto.ftp.sync/auto_ftp_sync.py:132-143 | the method's disk, server and result are exactly LegacyStandardSynced |
| LegacySync.LegacyStaticUp | addons/plugin.program.auto.ftp.sync/auto_ftp_sync.py:156-165 | the main system's step changes no local file and only adds directories |
| LegacySync.LegacyStaticDown | addons/plugin.program.auto.ftp.sync/auto_ftp_sync.py:166-170 | a secondary system's step changes neither the server nor the local directories |
| LegacySync.LegacyStaticMainKeepsFiles | addons/plugin.program.auto.ftp.sync/auto_ftp_sync.py:145-171 | on the main system the static sync never changes a local file |
| LegacySync.LegacyStaticSecondaryKeepsServer | addons/plugin.program.auto.ftp.sync/auto_ftp_sync.py:145-171 | on any other system the static sync never writes to the server |
| LegacySync.LegacySpecificOverwrites | addons/plugin.program.auto.ftp.sync/auto_ftp_sync.py:166-170 | for the specific folder with overwriting on, its server copy wins when it exists; when it is missing from a reachable FTP server the second download leaves an empty file, even where the first succeeded |
| LegacySync.LegacyStaticUpload | addons/plugin.program.auto.ftp.sync/auto_ftp_sync.py:156-165 | the main system's step on the disk and the server is exactly LegacyStaticUp |
| LegacySync.LegacyStaticDownload | addons/plugin.program.auto.ftp.sync/auto_ftp_sync.py:166-170 | a secondary system's step on the disk is exactly LegacyStaticDown |
| LegacySync.LegacySyncStaticFolder | addons/plugin.program.auto.ftp.sync/auto_ftp_sync.py:154-170 | one folder on the disk and the server is exactly LegacyFolderRound |
| LegacySync.LegacySyncStaticFolderAt | addons/plugin.program.auto.ftp.sync/auto_ftp_sync.py:154-170 | the same, once the server paths are computed |
| LegacySync.LegacyRoundsStep | addons/plugin.program.auto.ftp.sync/auto_ftp_sync.py:154 | the folders are processed in order, one round each |
| LegacySync.LegacySyncStatic | addons/plugin.program.auto.ftp.sync/auto_ftp_sync.py:145-171 | the method's disk, server and result are exactly LegacyStaticSynced |
| LegacySync.LegacyFavouritesSuccess | addons/plugin.program.auto.ftp.sync/auto_ftp_sync.py:297-320 | once the server folder exists nothing raises; configured static folders give 30024, and without them the standard transfer decides between 30024 and 30028 |
| LegacySync.LegacySyncFavourites | addons/plugin.program.auto.ftp.sync/auto_ftp_sync.py:297-320 | the method's disk, server and notifications are exactly LegacyFavouritesSynced |
| LegacySync.LegacyAddonFailedDownload | addons/plugin.program.auto.ftp.sync/auto_ftp_sync.py:322-423 | a secondary system whose download fails notes 30021; on a reachable FTP server an empty zip file is left behind; addon_data is not touched |
| LegacySync.LegacySyncAddonData | addons/plugin.program.auto.ftp.sync/auto_ftp_sync.py:322-423 | the method's disk, server, end and notes are exactly LegacyAddonSynced |
| BackupRestore.AllowedPrefixIff | addons/plugin.program.dokukanal.buildsync/resources/lib/backup_restore.py:34 | once backslashes are folded to slashes, a name has an allowed prefix exactly when it starts with `userdata/` or `addons/` |
| BackupRestore.SafeEntryShape | addons/plugin.program.dokukanal.buildsync/resources/lib/backup_restore.py:477-483 | a name that passes the traversal and prefix checks is relative and holds no ".." |
| BackupRestore.CheckBuildBackup | addons/plugin.program.dokukanal.buildsync/resources/lib/backup_restore.py:445-487 | the validation as written (suffix and existence check, manifest creator and version or a legacy `userdata/` entry, then every checked name safe) agrees with the reference predicate, and accepts only a readable `.zip` path |
| BackupRestore.ScanEntries | addons/plugin.program.dokukanal.buildsync/resources/lib/backup_restore.py:474-484 | the early-exit scan over the names returns true exactly when every entry that is not the manifest or a directory is safe |
| BackupRestore.RestoreFromZipCore | addons/plugin.program.dokukanal.buildsync/resources/lib/backup_restore.py:331-392 | the extraction loop yields the result and the written entries of the reference restore outcome |
| BackupRestore.RestoreWritesOnlySafeEntries | addons/plugin.program.dokukanal.buildsync/resources/lib/backup_restore.py:360-381 | every entry a restore writes is a file entry of the archive, not the manifest, safe, not this add-on's own data, and did not raise |
| BackupRestore.RestoreCancelKeepsEarlier | addons/plugin.program.dokukanal.buildsync/resources/lib/backup_restore.py:362-364 | a cancel at entry k fails with the cancel message and keeps a prefix of what the uncancelled restore writes |
| BackupRestore.RestoreErrorsStillSucceed | addons/plugin.program.dokukanal.buildsync/resources/lib/backup_restore.py:373-386 | entries whose extraction raises are counted in the success message and the restore still succeeds |
| BackupRestore.RestoreTargetGuardRedundant | addons/plugin.program.dokukanal.buildsync/resources/lib/backup_restore.py:371-378 | under a POSIX home of plain components the normalised-target guard never fires: an entry is extracted exactly when it is not the manifest, is safe and is not this add-on's data |
| BackupRestore.ZipSuffixCaseDiffers | addons/plugin.program.dokukanal.buildsync/resources/lib/backup_restore.py:336-337 | "B.ZIP" passes validation's lower-cased suffix test but restore refuses it with the no-path error |
| BackupRestore.RelPaths | addons/plugin.program.dokukanal.buildsync/resources/lib/backup_restore.py:86-87 | one relative path per walked file, each the relative path of that walked file under the start folder |
| BackupRestore.CollectBackupItemsFromConfig | addons/plugin.program.dokukanal.buildsync/resources/lib/backup_restore.py:52-88 | the loop over the configured items yields the reference list of archive paths |
| BackupRestore.DisabledItemSkipped | addons/plugin.program.dokukanal.buildsync/resources/lib/backup_restore.py:62-67 | an item whose setting is off or cannot be read adds nothing |
| BackupRestore.ConfigFolderAdmitted | addons/plugin.program.dokukanal.buildsync/resources/lib/backup_restore.py:76-87 | every path a configured folder adds lies in that folder and avoids the excluded directories and files |
| BackupRestore.AddonEntriesUnderAddons | addons/plugin.program.dokukanal.buildsync/resources/lib/backup_restore.py:146-158 | every add-on entry is archived under `addons/`, never goes through `packages`, and is not an excluded, `._` or `.pyo` file |
| BackupRestore.DefaultEntriesUnderUserdata | addons/plugin.program.dokukanal.buildsync/resources/lib/backup_restore.py:211-227 | without a configured list every userdata entry is relative, avoids the excluded directories (and `addon_data` unless included) and is not an excluded file |
| BackupRestore.BackupFileName | addons/plugin.program.dokukanal.buildsync/resources/lib/backup_restore.py:205 | a backup file name is 29 characters long |
| BackupRestore.ParseBackupFileName | addons/plugin.program.dokukanal.buildsync/resources/lib/backup_restore.py:205 | the file name determines the day, month, year, hour and minute it was made from |
| BackupRestore.CreateBackupCore | addons/plugin.program.dokukanal.buildsync/resources/lib/backup_restore.py:191-260 | the backup run yields the result and the archive of the reference outcome |
| BackupRestore.WriteEntries | addons/plugin.program.dokukanal.buildsync/resources/lib/backup_restore.py:235-248 | the write loop is cancelled exactly when the callback cancels at an existing entry, and otherwise writes every entry whose write does not raise, in order |
| BackupRestore.AllSafeWithManifest | addons/plugin.program.dokukanal.buildsync/resources/lib/backup_restore.py:474-476 | adding the manifest to the written entries does not change whether validation accepts them |
| BackupRestore.BackupFileNameShape | addons/plugin.program.dokukanal.buildsync/resources/lib/backup_restore.py:28-29 | a backup file name starts with `doku_backup_` and ends in `.zip` |
| BackupRestore.ZipPathSuffix | addons/plugin.program.dokukanal.buildsync/resources/lib/backup_restore.py:205-206 | the archive path ends in `.zip` after lower-casing |
| BackupRestore.CreatedBackupValidates | addons/plugin.program.dokukanal.buildsync/resources/lib/backup_restore.py:205-257 | a finished backup stores the written entries in order followed by the manifest under the time-stamped name, and validates exactly when every written entry is safe |
| BackupRestore.DottedFileNameRejectsOwnBackup | addons/plugin.program.dokukanal.buildsync/resources/lib/backup_restore.py:478 | the ".." substring test rejects `userdata/a..b.xml`, so a backup of a file whose name has two dots fails validation |
| BackupRestore.InsertNewest | addons/plugin.program.dokukanal.buildsync/resources/lib/backup_restore.py:503 | insertion keeps the same elements plus the inserted one |
| BackupRestore.SortNewestFirst | addons/plugin.program.dokukanal.buildsync/resources/lib/backup_restore.py:503 | sorting is a permutation of its input |
| BackupRestore.InsertKeepsNewestFirst | addons/plugin.program.dokukanal.buildsync/resources/lib/backup_restore.py:503 | inserting into a newest-first list keeps it newest first |
| BackupRestore.SortIsNewestFirst | addons/plugin.program.dokukanal.buildsync/resources/lib/backup_restore.py:503 | the sorted listing is newest first |
| BackupRestore.LocalBackupListing | addons/plugin.program.dokukanal.buildsync/resources/lib/backup_restore.py:490-507 | the local listing is exactly the validating `doku_backup_*.zip` files of the folder, joined to the folder, newest first |
| BackupRestore.BackupFileNameListed | addons/plugin.program.dokukanal.buildsync/resources/lib/backup_restore.py:499-500 | every name a backup is written under passes the listing's name filter |
| BackupService.TargetBase | addons/plugin.program.dokukanal.buildsync/services/backup_service.py:17-22 | a staging folder under Kodi's temp folder is passed to the core exactly when the backup is to be kept on a connection |
| BackupService.ConnectionNumber | addons/plugin.program.dokukanal.buildsync/services/backup_service.py:30-34 | the connection number is always 1, 2 or 3; it is 2 or 3 exactly when the text is "2" or "3", and 1 for anything else |
| BackupService.RemoteDir | addons/plugin.program.dokukanal.buildsync/services/backup_service.py:35 | the server folder is never empty and never ends in '/' |
| BackupService.BackendForConnection | addons/plugin.program.dokukanal.buildsync/auto_ftp_sync.py:188-206 | a backend exists only for connections 1 to 3 with a non-blank host, and an FTP backend's base path is absolute |
| BackupService.CoreAnswerPassedOn | addons/plugin.program.dokukanal.buildsync/services/backup_service.py:28-29 | the core's answer is returned unchanged and nothing is touched unless the backup succeeded, is to be kept on a connection and has a path |
| BackupService.NoConnectionDeletesArchive | addons/plugin.program.dokukanal.buildsync/services/backup_service.py:39-45 | without a usable backend the local archive is deleted, the server is untouched and the service fails with message 30043 |
| BackupService.UploadEffect | addons/plugin.program.dokukanal.buildsync/services/backup_service.py:46-57 | after the backup folder is ensured, a successful upload puts the archive's bytes under the remote file and deletes it locally; a failed upload keeps it and answers 30068 |
| BackupService.UploadingEffect | addons/plugin.program.dokukanal.buildsync/services/backup_service.py:46-57 | the same upload effect for any folder and file name |
| BackupService.RemoteFileShape | addons/plugin.program.dokukanal.buildsync/services/backup_service.py:47 | the remote file lies inside the backup folder and ends with the archive's own name |
| BackupService.UnusableFolderRaises | addons/plugin.program.dokukanal.buildsync/services/backup_service.py:23 | the two-element answer the core gives for a backup folder it cannot create makes the service as written raise, while the intended service reports failure 30043 |
| BackupService.TripleServedAlike | addons/plugin.program.dokukanal.buildsync/services/backup_service.py:23-29 | every three-element answer of the core is handled the same by the service as written and as intended |
| BackupService.UploadBackup | addons/plugin.program.dokukanal.buildsync/services/backup_service.py:46-57 | intended, with the corrected FTP ensure_folder walk: the upload on the local disk and the server changes exactly what the upload specification says and keeps the server valid |
| BackupService.UploadAndDelete | addons/plugin.program.dokukanal.buildsync/services/backup_service.py:48-57 | the archive is deleted and stored on the server only when the upload can go through; otherwise disk and server are unchanged and the answer is 30068 |
| BackupService.CreateBackup | addons/plugin.program.dokukanal.buildsync/services/backup_service.py:9-61 | intended, with the corrected FTP ensure_folder walk: after the core ran, the service changes disk and server and answers exactly as the intended specification says |
| BackupService.ServeAfterCore | addons/plugin.program.dokukanal.buildsync/services/backup_service.py:28-61 | intended, with the corrected FTP ensure_folder walk: the work after the core's answer agrees with its specification |
| BackupService.ServeConnection | addons/plugin.program.dokukanal.buildsync/services/backup_service.py:30-61 | intended, with the corrected FTP ensure_folder walk: with an archive bound for a connection, the backend lookup and upload agree with the specification |
| BackupService.ServeBackend | addons/plugin.program.dokukanal.buildsync/services/backup_service.py:39-57 | intended, with the corrected FTP ensure_folder walk: without a backend the archive is deleted and the answer is 30043 with the connection text; otherwise the upload branch runs |
| BackupService.AfterCoreToConnection | addons/plugin.program.dokukanal.buildsync/services/backup_service.py:30-57 | the specification splits into the no-backend case and the upload case |
| AutoClean.Frequency | addons/plugin.program.dokukanal.buildsync/resources/lib/auto_clean.py:238 | a missing or empty frequency setting reads as 3 |
| AutoClean.Interval | addons/plugin.program.dokukanal.buildsync/resources/lib/auto_clean.py:236-251 | every frequency waits at least a minute before the next run |
| AutoClean.IntervalTable | addons/plugin.program.dokukanal.buildsync/resources/lib/auto_clean.py:240-251 | frequency 0 waits a minute, 1 a day, 2 three days, 4 thirty days, and every other value a week |
| AutoClean.SetNextRun | addons/plugin.program.dokukanal.buildsync/resources/lib/auto_clean.py:236-252 | storing the next run fails exactly when the frequency is not a number, and changes no other setting |
| AutoClean.NextRun | addons/plugin.program.dokukanal.buildsync/resources/lib/auto_clean.py:225-233 | an unset next run reads as none; a value read is the number the setting holds |
| AutoClean.ShouldRun | addons/plugin.program.dokukanal.buildsync/resources/lib/auto_clean.py:255-262 | the clean is due only when enabled, and always when enabled with no next run stored |
| AutoClean.ScheduleRoundTrip | addons/plugin.program.dokukanal.buildsync/resources/lib/auto_clean.py:236-262 | the next run stored is read back as now plus the interval, and the clean is due again exactly once that time is reached, never at once |
| AutoClean.DefaultIsWeekly | addons/plugin.program.dokukanal.buildsync/resources/lib/auto_clean.py:238-251 | with no frequency stored the next run is a week away |
| AutoClean.SweepPartition | addons/plugin.program.dokukanal.buildsync/resources/lib/auto_clean.py:47-79 | in one cache folder exactly the log files and excluded directories stay, in order and unchanged, and every other entry is removed and counted once |
| AutoClean.NestedSparedRemoved | addons/plugin.program.dokukanal.buildsync/resources/lib/auto_clean.py:62-77 | a log file or excluded directory inside another sub-directory goes with its parent |
| AutoClean.SweepFolder | addons/plugin.program.dokukanal.buildsync/resources/lib/auto_clean.py:47-79 | the loop over a folder's entries computes the sweep specification |
| AutoClean.PackagesPartition | addons/plugin.program.dokukanal.buildsync/resources/lib/auto_clean.py:94-106 | only entries at least three minutes old are removed, every other entry stays, and the count is the number removed |
| AutoClean.FreshPackageKept | addons/plugin.program.dokukanal.buildsync/resources/lib/auto_clean.py:91-98 | a package changed within the last three minutes survives |
| AutoClean.PrunePackages | addons/plugin.program.dokukanal.buildsync/resources/lib/auto_clean.py:94-106 | the loop over the packages folder computes the pruning specification |
| AutoClean.PurgeLeavesNoCache | addons/plugin.program.dokukanal.buildsync/resources/lib/auto_clean.py:148-158 | after purging an add-on's folder no directory named like a cache, log or temp folder is left at any depth |
| AutoClean.PurgeKeepsOtherFiles | addons/plugin.program.dokukanal.buildsync/resources/lib/auto_clean.py:148-158 | the files left are exactly those a walk that skips the cache directories reaches: nothing else is deleted |
| AutoClean.AddonDataEntries | addons/plugin.program.dokukanal.buildsync/resources/lib/auto_clean.py:141-158 | excluded add-ons and plain files stay as they were; every other add-on's folder is purged |
| AutoClean.PurgeAddonData | addons/plugin.program.dokukanal.buildsync/resources/lib/auto_clean.py:141-158 | the loop over the add-on data folders computes the purge specification |
| AutoClean.LogsCleared | addons/plugin.program.dokukanal.buildsync/resources/lib/auto_clean.py:114-129 | emptying the userdata logs keeps the same set of log files and counts at most one per listed name |
| AutoClean.AutoCleaned | addons/plugin.program.dokukanal.buildsync/resources/lib/auto_clean.py:197-222 | the report is a non-empty list of lines, or the "nothing cleaned" message 30319 |
| AutoClean.OwnDataKept | addons/plugin.program.dokukanal.buildsync/resources/lib/auto_clean.py:216-217 | this add-on's own data folder is never cleaned |
| AutoClean.AllOffChangesNothing | addons/plugin.program.dokukanal.buildsync/resources/lib/auto_clean.py:197-222 | with every clean-up switched off the home is unchanged and the report is message 30319 |
| AutoClean.Home.ClearCache | addons/plugin.program.dokukanal.buildsync/resources/lib/auto_clean.py:39-84 | the cache and temp folders change, and the deleted count and bytes are reported, as the cache specification says |
| AutoClean.Home.ClearPackagesStartup | addons/plugin.program.dokukanal.buildsync/resources/lib/auto_clean.py:87-111 | a missing packages folder deletes nothing; otherwise the folder is pruned as specified; no other folder changes |
| AutoClean.Home.ClearUserdataLogs | addons/plugin.program.dokukanal.buildsync/resources/lib/auto_clean.py:114-129 | the logs are emptied as specified; no other folder changes |
| AutoClean.Home.ClearAddonDataCaches | addons/plugin.program.dokukanal.buildsync/resources/lib/auto_clean.py:132-163 | a missing add-on data folder deletes nothing; otherwise it is purged as specified; no other folder changes |
| AutoClean.Home.RunAutoClean | addons/plugin.program.dokukanal.buildsync/resources/lib/auto_clean.py:197-222 | the run changes the home and reports exactly as the run specification says |
| AutoClean.RunIfDue | addons/plugin.program.dokukanal.buildsync/resources/lib/auto_clean.py:265-271 | nothing changes unless the clean is due; then it runs, and the next run is stored unless reading the frequency raises |
| Autostop.PlayCount | addons/plugin.program.dokukanal.buildsync/services/autostop_service.py:28-52 | the new count is zero, the old count or the old count plus one |
| Autostop.StoppedResets | addons/plugin.program.dokukanal.buildsync/services/autostop_service.py:31-33 | neither playing nor paused resets the count to zero |
| Autostop.NoneCountsPauses | addons/plugin.program.dokukanal.buildsync/services/autostop_service.py:34-36 | under 'None' every tick with playback running or paused adds one |
| Autostop.PauseAndResetModes | addons/plugin.program.dokukanal.buildsync/services/autostop_service.py:37-48 | under 'Pause' playing adds one and a pause holds the count; under 'Reset' playing adds one and a pause clears it |
| Autostop.UnknownModeHolds | addons/plugin.program.dokukanal.buildsync/services/autostop_service.py:30-52 | any other adjust mode leaves a running or paused count unchanged |
| Autostop.CountStaysInRange | addons/plugin.program.dokukanal.buildsync/services/autostop_service.py:261 | over any sequence of ticks a count starting at zero or more stays non-negative and grows by at most one per tick |
| Autostop.Player.PlFlag | addons/plugin.program.dokukanal.buildsync/services/autostop_service.py:199-203 | the playing flag is 0 or 1 |
| Autostop.Player.PaFlag | addons/plugin.program.dokukanal.buildsync/services/autostop_service.py:199-203 | the paused flag is 0 or 1 |
| Autostop.Player.constructor | addons/plugin.program.dokukanal.buildsync/services/autostop_service.py:200-203 | a new player has both flags at 0 |
| Autostop.Player.OnPlayBackStarted | addons/plugin.program.dokukanal.buildsync/services/autostop_service.py:205-207 | start sets playing 1 and paused 0, so the two are never both 1 |
| Autostop.Player.OnPlayBackPaused | addons/plugin.program.dokukanal.buildsync/services/autostop_service.py:209-211 | pause sets playing 0 and paused 1 |
| Autostop.Player.OnPlayBackResumed | addons/plugin.program.dokukanal.buildsync/services/autostop_service.py:213-215 | resume sets playing 1 and paused 0 |
| Autostop.Player.OnPlayBackEnded | addons/plugin.program.dokukanal.buildsync/services/autostop_service.py:217-219 | end clears both flags |
| Autostop.Player.OnPlayBackStopped | addons/plugin.program.dokukanal.buildsync/services/autostop_service.py:221-223 | stop clears both flags |
| Autostop.CountWhilePlaying | addons/plugin.program.dokukanal.buildsync/services/autostop_service.py:261 | a tick on the player's flags counts as the counter specification says: while playing it adds one (or holds in an unknown mode), and with the player idle it resets |
| Autostop.SettingInt | addons/plugin.program.dokukanal.buildsync/services/autostop_service.py:189-190 | an empty setting reads as 0 |
| Autostop.CheckNotify | addons/plugin.program.dokukanal.buildsync/services/autostop_service.py:186-196 | the check changes no boolean setting |
| Autostop.CheckNotifyIff | addons/plugin.program.dokukanal.buildsync/services/autostop_service.py:189-192 | the notification time changes exactly when the stop time is positive and the notification time equals it in seconds (and is not already 300), and then it becomes 300 |
| Autostop.CheckNotifyIdempotent | addons/plugin.program.dokukanal.buildsync/services/autostop_service.py:186-196 | a second check changes nothing more |
| Autostop.Choices | addons/plugin.program.dokukanal.buildsync/services/autostop_service.py:109-117 | the dialog lists the seven minute entries first, in order |
| Autostop.VarExtension | addons/plugin.program.dokukanal.buildsync/services/autostop_service.py:119-135 | playback is stopped exactly when the stop entry is chosen |
| Autostop.MinuteChoices | addons/plugin.program.dokukanal.buildsync/services/autostop_service.py:123-126 | each minute entry yields its own number: 10, 20, 30, 40, 50, 60 or 90 |
| Autostop.OtherChoices | addons/plugin.program.dokukanal.buildsync/services/autostop_service.py:121-132 | cancel yields "5", the end-of-file entry the freshly measured remaining time, and the stop entry "0" with playback stopped |
| RunActions.ConnectionTestOf | addons/plugin.program.dokukanal.buildsync/resources/lib/run_actions.py:30 | the numbered test is chosen exactly for the parameters "1", "2" and "3", with that number; anything else, an absent parameter included, tests the current connection |
| RunActions.ConnectionTestOfNumber | addons/plugin.program.dokukanal.buildsync/resources/lib/run_actions.py:30 | the slot number written out selects exactly that slot |
| RunActions.Truncate | addons/plugin.program.dokukanal.buildsync/resources/lib/run_actions.py:108 | a cut text is a prefix of at most n characters, and a short text is kept whole |
| RunActions.FlatMessage | addons/plugin.program.dokukanal.buildsync/resources/lib/run_actions.py:108 | the notification text of a finished sync is at most 200 characters |
| RunActions.FlatMessageClean | addons/plugin.program.dokukanal.buildsync/resources/lib/run_actions.py:108 | the notification text holds no newline, no comma and no "[CR]" |
| RunActions.FlatMessageOfPlain | addons/plugin.program.dokukanal.buildsync/resources/lib/run_actions.py:108 | a text that is already one short comma-free line is only stripped |
| RunActions.FlatMessageOfBreak | addons/plugin.program.dokukanal.buildsync/resources/lib/run_actions.py:108 | a "[CR]" between two plain lines becomes a single space |
| RunActions.ReplaceRemoves | addons/plugin.program.dokukanal.buildsync/resources/lib/run_actions.py:108 | after replacing "[CR]" by a space none is left |
| RunActions.ErrorNotice | addons/plugin.program.dokukanal.buildsync/resources/lib/run_actions.py:123-127 | the notification after a failed sync is at most 200 characters and holds no comma |
| RunActions.ErrorNoticeOrders | addons/plugin.program.dokukanal.buildsync/resources/lib/run_actions.py:123-138 | cutting before replacing commas gives the same notification text as replacing before cutting |
| RunActions.SyncFavouritesDialog | addons/plugin.program.dokukanal.buildsync/resources/lib/run_actions.py:89-129 | after the sync returns, the dialog title is 30202 exactly on success and the add-on's name otherwise, the text is never blank (30146 stands in), and the notification is the flattened text; an exception escaping the formatting yields the error dialog with the exception's text |
| RunActions.SuccessfulSyncDialog | addons/plugin.program.dokukanal.buildsync/resources/lib/run_actions.py:103-115 | a successful sync with a message id shows that message under title 30202 |
| RunActions.FailedSyncDialog | addons/plugin.program.dokukanal.buildsync/resources/lib/run_actions.py:103-107 | a failed or unrecognised return is titled with the add-on's name and shows 30146 |
| RunActions.NonIntegerMessageId | addons/plugin.program.dokukanal.buildsync/resources/lib/run_actions.py:116-124 | a message id that is not an integer escapes the formatting, and the error dialog reports it under the add-on's name |
| AddonRouter.Unquote | addons/plugin.program.dokukanal.buildsync/utils/params.py:26 | decoding never lengthens the text: each escape, ASCII character or other character gives at most one character |
| AddonRouter.UnquotePlain | addons/plugin.program.dokukanal.buildsync/utils/params.py:26 | text without '%' and '+' decodes to itself |
| AddonRouter.UnquotePlusQuote | addons/plugin.program.dokukanal.buildsync/utils/params.py:26 | unquote_plus undoes quote(s, safe='') on every text: percent-decoding gives the UTF-8 bytes back and UTF-8 decoding gives the text |
| AddonRouter.UnquoteStrayByteExample | addons/plugin.program.dokukanal.buildsync/utils/params.py:26 | an escape of a byte that starts no UTF-8 sequence decodes to U+FFFD, as errors='replace' does |
| AddonRouter.PairsOf | addons/plugin.program.dokukanal.buildsync/utils/params.py:9-13 | parsing yields at most one pair per '&'-separated field |
| AddonRouter.ToDict | addons/plugin.program.dokukanal.buildsync/utils/params.py:13 | the parameter map holds exactly the names that occur in the query |
| AddonRouter.Get | addons/plugin.program.dokukanal.buildsync/utils/params.py:22-26 | a parameter is found exactly when its name occurs in the query |
| AddonRouter.OrElse | addons/plugin.program.dokukanal.buildsync/utils/params.py:30 | Python's `a or b`: a non-empty first value wins, otherwise the second |
| AddonRouter.QueryAction | addons/plugin.program.dokukanal.buildsync/addon.py:384-388 | the query `action=<a>` asks for action a and holds nothing else |
| AddonRouter.BareQueryNamesNoAction | addons/plugin.program.dokukanal.buildsync/addon.py:386-388 | a query without '=' and '&' names no action through the parameters |
| AddonRouter.ParamStr | addons/plugin.program.dokukanal.buildsync/addon.py:384-385 | the parameter string is never longer than the raw URL argument |
| AddonRouter.Resolved | addons/plugin.program.dokukanal.buildsync/addon.py:384-421 | an argv[1] of the form test_connection_N always resolves to test_connection with connection N |
| AddonRouter.ConnectionStep | addons/plugin.program.dokukanal.buildsync/addon.py:415-421 | test_connection_N in argv[1] becomes test_connection with connection N; otherwise a known action keeps the `connection` parameter |
| AddonRouter.ResolvedFixed | addons/plugin.program.dokukanal.buildsync/addon.py:384-421 | the corrected resolution never leaves an action of the form test_connection_N |
| AddonRouter.Numbered | addons/plugin.program.dokukanal.buildsync/addon.py:416-421 | test_connection_N becomes test_connection; every other resolution is kept |
| AddonRouter.ArgOneDirectStepIsDead | addons/plugin.program.dokukanal.buildsync/addon.py:408-414 | lines 413-414 never change the action: once line 412 leaves no action, argv[1] is an integer and so no direct action |
| AddonRouter.StepsKeepAction | addons/plugin.program.dokukanal.buildsync/addon.py:396-414 | each step after the first keeps an action once there is one |
| AddonRouter.BareTestConnectionStepIsDead | addons/plugin.program.dokukanal.buildsync/addon.py:396-421 | lines 419-421 never fire: with no action left, the query is empty or no test_connection_N |
| AddonRouter.BareStepTakesTestConnection | addons/plugin.program.dokukanal.buildsync/addon.py:396-399 | a bare test_connection_N query is taken as the action itself |
| AddonRouter.StaticFolder | addons/plugin.program.dokukanal.buildsync/addon.py:357-362 | a folder taken from the path holds no '/' |
| AddonRouter.LastSegment | addons/plugin.program.dokukanal.buildsync/addon.py:361-362 | the last segment of the path holds no '/' |
| AddonRouter.StaticFolderFromPath | addons/plugin.program.dokukanal.buildsync/addon.py:357-362 | without a `folder` parameter the folder is the last component of the decoded `path` parameter |
| AddonRouter.PathPartsRoundTrip | addons/plugin.program.dokukanal.buildsync/addon.py:362 | joining plain components with '/', folding and stripping '/' and splitting gives the components back |
| AddonRouter.InfoText | addons/plugin.program.dokukanal.buildsync/addon.py:188-216 | the default title and text 30073/30074 are shown exactly for an absent or unknown topic |
| AddonRouter.InfoActionTopic | addons/plugin.program.dokukanal.buildsync/addon.py:86-88 | `info_<x>` shows the dialog of topic x |
| AddonRouter.HelpActionTopic | addons/plugin.program.dokukanal.buildsync/addon.py:91-93 | `show_help_<x>` shows the dialog of topic x |
| AddonRouter.DirectTopicsKnown | addons/plugin.program.dokukanal.buildsync/addon.py:389-395 | every info and help action in the direct set names a topic the dialog knows |
| AddonRouter.DirectActionsHandled | addons/plugin.program.dokukanal.buildsync/addon.py:48-185 | every direct action other than test_connection_N has a handler |
| AddonRouter.NumberedTestConnectionUnknown | addons/plugin.program.dokukanal.buildsync/addon.py:48-185 | test_connection_N has no handler of its own |
| AddonRouter.DirectHandlerIff | addons/plugin.program.dokukanal.buildsync/addon.py:48-185 | a direct action has no handler exactly when it is test_connection_N |
| AddonRouter.TestConnectionShape | addons/plugin.program.dokukanal.buildsync/addon.py:389-395 | test_connection_N is seventeen name characters ending in the digit N |
| AddonRouter.HandleIsNoTestConnection | addons/plugin.program.dokukanal.buildsync/addon.py:30-33 | an integer handle is never test_connection_N |
| AddonRouter.ParamStrOfQuery | addons/plugin.program.dokukanal.buildsync/addon.py:384-385 | the parameter string of an argument starting with '?' is what follows it |
| AddonRouter.ActionOfEarly | addons/plugin.program.dokukanal.buildsync/addon.py:388-414 | the action settled on by the first steps stays |
| AddonRouter.BareQueryParts | addons/plugin.program.dokukanal.buildsync/addon.py:396-399 | the query `?test_connection_N` resolves to the action test_connection_N |
| AddonRouter.BareTestConnectionAsWritten | addons/plugin.program.dokukanal.buildsync/addon.py:396-421 | with an integer handle the query `?test_connection_N` resolves to test_connection_N, which no handler takes |
| AddonRouter.BareTestConnectionExample | addons/plugin.program.dokukanal.buildsync/addon.py:396-421 | the plugin's own URL with handle 0 and query `?test_connection_1` reaches no handler |
| AddonRouter.BareTestConnectionDispatched | addons/plugin.program.dokukanal.buildsync/addon.py:396-453 | as written, the query `?test_connection_N` under an integer handle is dispatched to the "Unknown action" branch |
| AddonRouter.BareTestConnectionFixed | addons/plugin.program.dokukanal.buildsync/addon.py:419-421 | corrected: the same query tests connection N |
| AddonRouter.TestConnectionHandler | addons/plugin.program.dokukanal.buildsync/addon.py:96-116 | test_connection tests the connection it is given |
| AddonRouter.FixedDirectHandled | addons/plugin.program.dokukanal.buildsync/addon.py:435-453 | corrected: once test_connection_N is converted wherever it came from, every direct action resolved has a handler |
| AddonRouter.ArgvTestConnection | addons/plugin.program.dokukanal.buildsync/addon.py:416-418 | as written, an argv[1] test_connection_N resolves to test_connection with connection N |
| AddonRouter.ResolveAction | addons/plugin.program.dokukanal.buildsync/addon.py:388-414 | the step-by-step reassignment of `action` computes the action specification |
| AddonRouter.ResolveEntry | addons/plugin.program.dokukanal.buildsync/addon.py:384-421 | the entry block as written computes exactly the resolution specification, and an argv[1] test_connection_N becomes test_connection |
| AddonRouter.ResolveConnection | addons/plugin.program.dokukanal.buildsync/addon.py:415-421 | the reassignment of action and connection computes the connection step |
| AddonRouter.Dispatch | addons/plugin.program.dokukanal.buildsync/addon.py:424-463 | as written: a negative handle never lists a directory, and a run reaches "Unknown action" exactly when the resolved action is test_connection_N |
| AddonRouter.RouteOf | addons/plugin.program.dokukanal.buildsync/addon.py:424-463 | for any resolution: nothing is listed under a negative handle, only direct actions run, and a run reaches no handler exactly for test_connection_N |
| AddonRouter.DirectIsNoRoute | addons/plugin.program.dokukanal.buildsync/addon.py:389-434 | no direct action is one of the routes the dispatch checks before them |
| AddonRouter.ActionQueryResolves | addons/plugin.program.dokukanal.buildsync/addon.py:384-421 | the query `?action=<a>` resolves to action a without a connection |
| AddonRouter.DirectQueryRuns | addons/plugin.program.dokukanal.buildsync/addon.py:384-453 | a plugin URL with query `action=<a>` for a direct action runs its handler, whatever the handle |
| AddonRouter.DirectRoute | addons/plugin.program.dokukanal.buildsync/addon.py:435-453 | a direct action other than info runs with the resolved connection |
| RunWizard.Arg | addons/plugin.program.dokukanal.buildsync/run_wizard.py:49-51 | an argument is read exactly when argv is long enough, and it is stripped |
| RunWizard.FirstScan | addons/plugin.program.dokukanal.buildsync/run_wizard.py:47-57 | the first scan finds a direct-run or known mode, and it is one of the scanned arguments |
| RunWizard.ModeUrl | addons/plugin.program.dokukanal.buildsync/run_wizard.py:60-68 | a known mode dispatches a plugin URL under the add-on's base that names an action |
| RunWizard.QueriesNameActions | addons/plugin.program.dokukanal.buildsync/run_wizard.py:23-42 | every table query names an action |
| RunWizard.QueryUrl | addons/plugin.program.dokukanal.buildsync/run_wizard.py:68 | a query naming an action makes a plugin URL naming one |
| RunWizard.SecondScan | addons/plugin.program.dokukanal.buildsync/run_wizard.py:63-74 | the second scan dispatches only plugin URLs naming an action |
| RunWizard.WizardDispatch | addons/plugin.program.dokukanal.buildsync/run_wizard.py:45-77 | every URL the script runs is a plugin URL naming an action |
| RunWizard.RunScript | addons/plugin.program.dokukanal.buildsync/run_wizard.py:45-77 | the script's two loops end at the dispatch the specification names |
| RunWizard.DirectModesMapped | addons/plugin.program.dokukanal.buildsync/run_wizard.py:18-42 | every direct-run mode has a table entry, so the `action=<mode>` fallback is never taken |
| RunWizard.DirectModeSecondArgument | addons/plugin.program.dokukanal.buildsync/run_wizard.py:48-62 | a direct-run mode as the second argument runs its plugin query whatever the first argument is |
| RunWizard.FirstArgumentWhenSecondUnknown | addons/plugin.program.dokukanal.buildsync/run_wizard.py:63-71 | the first argument counts only when the second is absent or unrecognised |
| RunWizard.SecondArgumentWins | addons/plugin.program.dokukanal.buildsync/run_wizard.py:48-71 | a known mode in the second argument wins over one in the first |
| RunWizard.PluginUrlPassedOn | addons/plugin.program.dokukanal.buildsync/run_wizard.py:72-74 | a plugin URL naming an action is passed on stripped when no known mode precedes it |
| RunWizard.DirectModeBeatsPluginUrl | addons/plugin.program.dokukanal.buildsync/run_wizard.py:48-62 | the first scan stops at any known mode, so a direct-run mode in the first argument beats a plugin URL in the second |
| RunWizard.WizardStarts | addons/plugin.program.dokukanal.buildsync/run_wizard.py:75-77 | without a recognised argument the wizard starts |
| BuildRepo.ShouldExclude | repo/build_repo.py:39-44 | a name is excluded exactly when it is `.git` or `.gitignore`, ends in `.pyc` or contains `__pycache__` |
| BuildRepo.ExcludePatternsCovered | repo/build_repo.py:19-44 | the set's `*.pyc` and `__pycache__` entries are covered by the two tests after it |
| BuildRepo.AddonVersion | repo/build_repo.py:28-36 | no manifest means no version; a version found is non-empty and holds no '"' |
| BuildRepo.NoAddonTagNoVersion | repo/build_repo.py:34-36 | a manifest without an `<addon` tag has no version, whatever the XML declaration or an `<import>` names |
| BuildRepo.VersionOfAddonTag | repo/build_repo.py:35-36 | the version attribute of the first `<addon` tag is found when the tag names it once |
| BuildRepo.SearchVersion | repo/build_repo.py:35 | a match of the pattern yields a non-empty value without '"' |
| BuildRepo.Find | repo/build_repo.py:72 | `find` gives -1 exactly when the pattern is absent, otherwise its first occurrence |
| BuildRepo.ReadAddonXml | repo/build_repo.py:64-74 | a manifest is read exactly when the add-on has one |
| BuildRepo.DeclarationRemoved | repo/build_repo.py:69-74 | an XML declaration and the blank lines after it are removed and the add-on element kept as written |
| BuildRepo.NoDeclarationKept | repo/build_repo.py:69-71 | a manifest without a declaration is only stripped |
| BuildRepo.OpenDeclarationLosesFirstChar | repo/build_repo.py:71-73 | a declaration with no closing `?>` loses only its first character, because `find` gives -1 |
| BuildRepo.ZipLayout | repo/build_repo.py:52 | an add-on archive starts with the add-on's folder entry |
| BuildRepo.ZipAddon | repo/build_repo.py:47-61 | the walk loop writes exactly the archive layout |
| BuildRepo.ZipEntriesAdmitted | repo/build_repo.py:53-61 | every entry after the folder lies in the add-on's folder and comes, in walk order, from a file that is not excluded reached through directories that are not excluded |
| BuildRepo.AddonsXml | repo/build_repo.py:109 | addons.xml starts with the one declaration and `<addons>`, and contains every manifest read |
| BuildRepo.ExitCode | repo/build_repo.py:82-85 | the exit code is 1 exactly when the Kodi add-ons folder is missing |
| BuildRepo.BuildRepository | repo/build_repo.py:77-134 | the loop over the add-on ids produces exactly the build specification |
| BuildRepo.GatherAddon | repo/build_repo.py:89-107 | one loop pass does what the gather step says |
| BuildRepo.WriteIndex | repo/build_repo.py:120-133 | index.html is written as the index specification says |
| BuildRepo.ZipsOfPresentVersioned | repo/build_repo.py:89-103 | a zip is written exactly for the listed add-ons that are present and name a version, each at `dist/<id>/<id>-<version>.zip` with its layout |
| BuildRepo.RepoVersionOfGather | repo/build_repo.py:98-99 | the remembered repository version is the repository add-on's, when it is present |
| BuildRepo.IndexIffRepositoryVersion | repo/build_repo.py:98-133 | index.html is written exactly when the repository add-on is present and names a version, and it links that add-on's zip |
| DeployToDkrepo.GetenvRequired | repo/deploy_to_dkrepo.py:36-40 | a variable is returned exactly when it is set and non-empty, and its value is returned; otherwise the run stops with the message naming it |
| DeployToDkrepo.Port | repo/deploy_to_dkrepo.py:75 | an unset or empty port is 21; otherwise the value is read as a number, and one that is not a number stops the run |
| DeployToDkrepo.BaseTarget | repo/deploy_to_dkrepo.py:78-84 | the base directory changed into is never empty, ends in '/' only when it is "/", names the same path components, and stays absolute when given absolute |
| DeployToDkrepo.FtpSession.constructor | repo/deploy_to_dkrepo.py:81-83 | a session starts logged in at its home directory on the given server |
| DeployToDkrepo.FtpSession.Mkd | repo/deploy_to_dkrepo.py:64 | MKD changes the server as the MKD specification says |
| DeployToDkrepo.FtpSession.Cwd | repo/deploy_to_dkrepo.py:84-89 | CWD changes the session as the CWD specification says |
| DeployToDkrepo.FtpSession.Stor | repo/deploy_to_dkrepo.py:95 | STOR stores the data as the STOR specification says |
| DeployToDkrepo.DirParts | repo/deploy_to_dkrepo.py:59 | the directory parts hold no '/' |
| DeployToDkrepo.LastComponent | repo/deploy_to_dkrepo.py:92 | the file name STOR is given holds no '/' |
| DeployToDkrepo.DirPartsAndName | repo/deploy_to_dkrepo.py:59-92 | the directory parts and the file name joined with '/' give back the path |
| DeployToDkrepo.EnsureRemoteDirs | repo/deploy_to_dkrepo.py:54-70 | the loop over the directory parts does what the directory specification says |
| DeployToDkrepo.EnsureDirsCreates | repo/deploy_to_dkrepo.py:54-70 | when every directory on the way can be passed, all exist afterwards, the session stands in the last one, no file changes and nothing is raised |
| DeployToDkrepo.EnsureDirsRefused | repo/deploy_to_dkrepo.py:63-69 | a directory refused with a 550 reply is passed over by MKD and then fails at CWD; any other refusal is raised; the server is unchanged either way |
| DeployToDkrepo.EnsureDirsIdempotent | repo/deploy_to_dkrepo.py:54-70 | a second run from the same directory changes no directory |
| DeployToDkrepo.EnsureDirsCwd | repo/deploy_to_dkrepo.py:54-70 | on success the session stands in the last directory of the path, and files never change |
| DeployToDkrepo.UploadFile | repo/deploy_to_dkrepo.py:87-95 | one file of the loop does what the upload step says |
| DeployToDkrepo.UploadFiles | repo/deploy_to_dkrepo.py:86-95 | the loop over dist/ does what the upload specification says |
| DeployToDkrepo.Deploy | repo/deploy_to_dkrepo.py:73-97 | the session ends where the corrected deploy specification says, with the same stop |
| DeployToDkrepo.MissingVariableStops | repo/deploy_to_dkrepo.py:74-78 | without all required variables the server is never touched and the run stops, reporting a missing host first |
| DeployToDkrepo.UploadAllGrows | repo/deploy_to_dkrepo.py:86-95 | uploads never remove a file |
| DeployToDkrepo.UploadOneLands | repo/deploy_to_dkrepo.py:89-95 | a file uploaded from the base directory is at its path below it |
| DeployToDkrepo.UploadsLandUnderBase | repo/deploy_to_dkrepo.py:86-95 | when the loop ends without error every file of dist/ is on the server at its path below the base directory |
| DeployToDkrepo.DeployLandsUnderBase | repo/deploy_to_dkrepo.py:73-97 | a run that completes had the base variable and dist/, and uploaded every file below the configured base directory |
| DeployToDkrepo.AbsoluteResetAgrees | repo/deploy_to_dkrepo.py:89 | with an absolute base, changing into the base path again for each file is the same as returning to the directory it named |
| DeployToDkrepo.AbsoluteBaseAgrees | repo/deploy_to_dkrepo.py:84-91 | for an absolute base directory the script as written and as corrected do the same |
| DeployToDkrepo.ReadyBase | repo/deploy_to_dkrepo.py:78-84 | after preparation the session stands in the base directory resolved against the login directory |
| DeployToDkrepo.RelativeResetStops | repo/deploy_to_dkrepo.py:89 | as written, a relative base is looked for below the directory it already led to, and the first file stops the run with 550 |
| DeployToDkrepo.TopFileUploads | repo/deploy_to_dkrepo.py:91-95 | from the base directory a file at the top of dist/ goes up into it |
| DeployToDkrepo.RelativeBaseBreaks | repo/deploy_to_dkrepo.py:84-91 | with the relative base "dk-repo" and one file, the script as written stops with 550 where the corrected run uploads dk-repo/addons.xml |
| DeployToDkrepo.FtpSession.CwdDir | repo/deploy_to_dkrepo.py:69 | changing into a directory of the path changes the session as the CWD specification says |
| DeployToDkrepo.PrepareRelative | repo/deploy_to_dkrepo.py:74-84 | with the variables set and a relative base that is a directory of the login directory, the session stands in that directory before the loop |
| DeployToDkrepo.ExampleAsWrittenStops | repo/deploy_to_dkrepo.py:89 | as written, the per-file CWD to "dk-repo" is taken from dk-repo itself and fails with 550 |
| DeployToDkrepo.ExampleIntendedUploads | repo/deploy_to_dkrepo.py:89-95 | as intended, the file goes up into dk-repo |
## Left out

- User interface: Kodi dialogs, progress bars, notifications and list building (`ui/dialogs.py`, `ui/list_builder.py`, `resources/lib/action_dialog.py`), both `first_run.py` wizards, the old add-on's `plugin.py`, and the dialog halves of `addon.py` and `run_actions.py`; only the decisions they show (titles, message ids, texts) are modelled.
- `get_connection_summary`, `test_connection` and `test_current_connection`: the text layout of the connection summary and the connection test dialogs; only which connection a test addresses is modelled.
- Transport internals (`ftplib`, `paramiko`, `xbmcvfs`): every transport acts on the abstract `Storage.Remote`; connecting and logging in are not modelled, and the FTP server's reply texts ("550 ...") are constants of the model, not of the code.
- `zipfile`, `json` and `ElementTree` internals: an archive is its entry names plus an optional manifest record, an XML document its element tree at the level the code reads it; a document that fails to parse is an explicit case.
- `hashlib`: the MD5 digest written to `addons.xml.md5` is not modelled; the text it is computed over is.
- `sqlite3` (`clear_thumbs`) and the image rotation (`_download_zip_from_url`, `test_image_sources`, `download_random_image`, `random.choice`, copying images and setting the skin string): network downloads and randomness; the start-up model only records that these steps run.
- Settings, localisation and Kodi API wrappers (`common.py`, `core/settings.py`, `settings_init.py`, `core/config.py`, `core/kodi_api.py`, `core/logging_utils.py`, `utils/paths.py`): replaced by `KodiSettings.Store` and explicit path parameters; the Kodi add-ons directory (`KODI_ADDONS`) is a parameter.
- Thin service delegates (`services/__init__.py`, `favorites_service.py`, `network_service.py`, `autoclean_service.py`, `wizard_service.py`, `skin_install_service.py`, `sync_remote_service.py`, `sync_addon_data_service.py`, `image_rotation_service.py`, `service.py`): each only forwards to a modelled function.
- `backup_service.restore_backup`: it returns `restore_from_zip_core`'s result unchanged, so the model states that result once, as `BackupRestore.RestoreFromZipCore`.
- `get_backup_path_display`, `run_backup`, `create_backup`, `restore_from_zip` and `run_restore` in `backup_restore.py`: dialog flows around the modelled core functions.
- The old add-on's own `sync_backend.py` is not part of this model; its calls are modelled with the new add-on's backend model, which has the same interface.
- The old add-on's `copy_custom_startup_file`: a plain file copy outside the sync.
- Floats and timing: `_format_size`, elapsed-time texts, autostop's `check_time` and `sleep_notify`, `time.sleep` and `waitForAbort`; times are whole seconds and periodic loops are sequences of ticks driven by an abort oracle.
- Autostop's threaded `run_loop` and `stop_playback`: concurrency with the Kodi player and monitor; one tick's counter update is modelled (`play_count` and the player flags).
- Host actions: `_restart_kodi`, the `wipe_first` temp deletion, `ReloadSkin`, `Container.Refresh` and the timestamp marker of `route_main`.
- Directory listing order (`os.walk`, `os.listdir`, `Path.rglob`) is an input of the model, and files are closed as soon as they are written.
- Python's `int()` is modelled for optional surrounding whitespace, one sign and decimal digits; digit-group underscores and non-ASCII digits are not modelled.
- `str.format`: only `{name}` fields are substituted; format specifications and conversions are not modelled.
- Exceptions from host calls (permissions, a full disk) are modelled where the code catches them as explicit failure inputs; other exceptions are not modelled.
- SyncBackend.Ensured: states the intended behaviour, built on the corrected FTP walk `SyncBackend.FtpWalkFixed`; as written, FTP's ensure_folder creates a nested missing folder under the wrong parent (`SyncBackend.FtpWalkMisplacesNestedFolder`), so for nested FTP folders this contract is not what the code does.
- SyncBackend.EnsuredCreatesFolder: states the intended behaviour, built on the corrected FTP walk `SyncBackend.FtpWalkFixed`; as written, FTP's ensure_folder creates a nested missing folder under the wrong parent (`SyncBackend.FtpWalkMisplacesNestedFolder`), so for nested FTP folders this contract is not what the code does.
- SyncBackend.EnsureFolder: states the intended behaviour, built on the corrected FTP walk `SyncBackend.FtpWalkFixed`; as written, FTP's ensure_folder creates a nested missing folder under the wrong parent (`SyncBackend.FtpWalkMisplacesNestedFolder`), so for nested FTP folders this contract is not what the code does.
- AutoSyncRemote.EnsureAllSucceeds: states the intended behaviour, built on the corrected FTP walk `SyncBackend.FtpWalkFixed`; as written, FTP's ensure_folder creates a nested missing folder under the wrong parent (`SyncBackend.FtpWalkMisplacesNestedFolder`), so for nested FTP folders this contract is not what the code does.
- AutoSyncRemote.EnsureOne: states the intended behaviour, built on the corrected FTP walk `SyncBackend.FtpWalkFixed`; as written, FTP's ensure_folder creates a nested missing folder under the wrong parent (`SyncBackend.FtpWalkMisplacesNestedFolder`), so for nested FTP folders this contract is not what the code does.
- AutoSyncRemote.EnsureFolders: states the intended behaviour, built on the corrected FTP walk `SyncBackend.FtpWalkFixed`; as written, FTP's ensure_folder creates a nested missing folder under the wrong parent (`SyncBackend.FtpWalkMisplacesNestedFolder`), so for nested FTP folders this contract is not what the code does.
- AutoSyncRemote.StructureCreated: states the intended behaviour, built on the corrected FTP walk `SyncBackend.FtpWalkFixed`; as written, FTP's ensure_folder creates a nested missing folder under the wrong parent (`SyncBackend.FtpWalkMisplacesNestedFolder`), so for nested FTP folders this contract is not what the code does.
- AutoSyncRemote.EnsureRemoteStructure: states the intended behaviour, built on the corrected FTP walk `SyncBackend.FtpWalkFixed`; as written, FTP's ensure_folder creates a nested missing folder under the wrong parent (`SyncBackend.FtpWalkMisplacesNestedFolder`), so for nested FTP folders this contract is not what the code does.
- AutoSyncRemote.FavouritesSucceedOnline: states the intended behaviour, built on the corrected FTP walk `SyncBackend.FtpWalkFixed`; as written, FTP's ensure_folder creates a nested missing folder under the wrong parent (`SyncBackend.FtpWalkMisplacesNestedFolder`), so for nested FTP folders this contract is not what the code does.
- AutoSyncRemote.SyncFavourites: states the intended behaviour, built on the corrected FTP walk `SyncBackend.FtpWalkFixed`; as written, FTP's ensure_folder creates a nested missing folder under the wrong parent (`SyncBackend.FtpWalkMisplacesNestedFolder`), so for nested FTP folders this contract is not what the code does.
- BackupService.UploadBackup: states the intended behaviour, built on the corrected FTP walk `SyncBackend.FtpWalkFixed`; as written, FTP's ensure_folder creates a nested missing folder under the wrong parent (`SyncBackend.FtpWalkMisplacesNestedFolder`), so for nested FTP folders this contract is not what the code does.
- BackupService.CreateBackup: states the intended behaviour, built on the corrected FTP walk `SyncBackend.FtpWalkFixed`; as written, FTP's ensure_folder creates a nested missing folder under the wrong parent (`SyncBackend.FtpWalkMisplacesNestedFolder`), so for nested FTP folders this contract is not what the code does.
- BackupService.ServeAfterCore: states the intended behaviour, built on the corrected FTP walk `SyncBackend.FtpWalkFixed`; as written, FTP's ensure_folder creates a nested missing folder under the wrong parent (`SyncBackend.FtpWalkMisplacesNestedFolder`), so for nested FTP folders this contract is not what the code does.
- BackupService.ServeConnection: states the intended behaviour, built on the corrected FTP walk `SyncBackend.FtpWalkFixed`; as written, FTP's ensure_folder creates a nested missing folder under the wrong parent (`SyncBackend.FtpWalkMisplacesNestedFolder`), so for nested FTP folders this contract is not what the code does.
- BackupService.ServeBackend: states the intended behaviour, built on the corrected FTP walk `SyncBackend.FtpWalkFixed`; as written, FTP's ensure_folder creates a nested missing folder under the wrong parent (`SyncBackend.FtpWalkMisplacesNestedFolder`), so for nested FTP folders this contract is not what the code does.
- AutoSyncConfig.PartSeg: lower-casing (`str.lower`) is modelled for ASCII, the Latin-1 and Latin Extended-A capitals and the basic Cyrillic capitals; any other character (Greek with its final-sigma rule, U+0130 which lowers to two characters, the Kelvin sign, the rest of Unicode) is left unchanged by the model.
- AutoSyncConfig.RemotePathOf: lower-casing (`str.lower`) is modelled for ASCII, the Latin-1 and Latin Extended-A capitals and the basic Cyrillic capitals; any other character (Greek with its final-sigma rule, U+0130 which lowers to two characters, the Kelvin sign, the rest of Unicode) is left unchanged by the model.
- AutoSyncConfig.RemotePath: lower-casing (`str.lower`) is modelled for ASCII, the Latin-1 and Latin Extended-A capitals and the basic Cyrillic capitals; any other character (Greek with its final-sigma rule, U+0130 which lowers to two characters, the Kelvin sign, the rest of Unicode) is left unchanged by the model.
- AutoSyncConfig.AppendPartSegs: lower-casing (`str.lower`) is modelled for ASCII, the Latin-1 and Latin Extended-A capitals and the basic Cyrillic capitals; any other character (Greek with its final-sigma rule, U+0130 which lowers to two characters, the Kelvin sign, the rest of Unicode) is left unchanged by the model.
- AutoSyncConfig.FolderPartCaseInsensitive: lower-casing (`str.lower`) is modelled for ASCII, the Latin-1 and Latin Extended-A capitals and the basic Cyrillic capitals; any other character (Greek with its final-sigma rule, U+0130 which lowers to two characters, the Kelvin sign, the rest of Unicode) is left unchanged by the model.
- LegacySync.LegacyRemotePathAgrees: lower-casing (`str.lower`) is modelled for ASCII, the Latin-1 and Latin Extended-A capitals and the basic Cyrillic capitals; any other character (Greek with its final-sigma rule, U+0130 which lowers to two characters, the Kelvin sign, the rest of Unicode) is left unchanged by the model.
- StaticFavourites.ItemOf: the attribute pattern's `\w` is modelled for ASCII letters, digits and '_', the Latin-1 letters and numerals, Latin Extended-A, the basic Greek letters and Cyrillic; an attribute key with a letter or digit of another script is a word in Python but not in the model.
- SyncBackend.FolderExists: for SFTP and SMB the model answers False for a missing directory; as written, `folder_exists` answers True whenever `xbmcvfs.listdir` does not raise, and xbmcvfs reports failures through return values the code ignores (an empty listing), so that case is not modelled.
- SyncBackend.CanUpload: for SFTP and SMB a write that cannot happen is a failed upload in the model; as written, xbmcvfs reports failures through return values the code ignores (`File.write` answering False), so upload answers True there; not modelled.
- SyncBackend.Upload: the same SFTP/SMB limit as `SyncBackend.CanUpload`.
- SyncBackend.Downloaded: for SFTP and SMB a remote file that cannot be read is a failed download leaving the disk unchanged; as written, xbmcvfs reports failures through return values the code ignores (empty data), so the code writes an empty local file and answers True; not modelled.
- SyncBackend.Download: the same SFTP/SMB limit as `SyncBackend.Downloaded`.
- AutoSyncRemote.StructureReportedExists: rests on `SyncBackend.FolderExists`; with SFTP or SMB as written, the structure can be reported present without its folders, which the model does not capture.

## Findings

| source | as written | input that shows it | evidently intended | confidence | as-written member | corrected member |
|---|---|---|---|---|---|---|
| addons/plugin.program.dokukanal.buildsync/services/backup_service.py:23 | `create_backup_core` returns a 2-tuple when the backup folder cannot be created (`backup_restore.py:203`), and `create_backup` unpacks three values, so a ValueError escapes | a backup folder that cannot be created | the failure is answered with the core's message | not executed | BackupService.UnusableFolderRaises | BackupService.CreateBackupServed |
| addons/plugin.program.dokukanal.buildsync/auto_ftp_sync.py:700-701 | `ct_map` is keyed by the integers 0, 1, 2 while `connection_type` is a string, so the label is always 'FTP' | active profile with connection_type 'sftp' | the label names the transport in use ('SFTP') | not executed | AutoSyncRemote.LabelAsWrittenMisnamesSftp | AutoSyncRemote.ConnectionLabelNamesBackend |
| addons/plugin.program.dokukanal.buildsync/resources/lib/sync_backend.py:81-91 | after a 550 reply the loop calls `mkd(segs[i])` relative to the current directory, which is not the parent once a directory has been created, so nested folders land in the wrong place | ensure_folder('/x/y') on a server holding only '/' creates '/x' and '/y' | each missing prefix is created under its parent ('/x/y') | not executed | SyncBackend.FtpWalkMisplacesNestedFolder | SyncBackend.FtpWalkFixedCreates |
| addons/plugin.program.dokukanal.buildsync/addon.py:396-421 | a bare `?test_connection_N` query makes `test_connection_N` the action, so the later rewrite to `test_connection` never applies and the action has no handler | argv ['plugin://plugin.program.dokukanal.buildsync/', '0', '?test_connection_1'] | the test of connection 1 runs | not executed | AddonRouter.BareTestConnectionExample | AddonRouter.BareTestConnectionFixed |
| repo/deploy_to_dkrepo.py:84-91 | each file's `ftp.cwd(basedir or "/")` resolves a relative base against the session's current directory, which is already the base, so the upload stops with 550 | DKREPO_FTP_BASEDIR='dk-repo', a server holding '/dk-repo', and addons.xml to upload | every file lands under the base directory | not executed | DeployToDkrepo.RelativeBaseBreaks | DeployToDkrepo.DeployLandsUnderBase |
