// The plugin's entry point (addon.py): the query of the plugin URL is parsed
// as urllib.parse.parse_qsl does, the action and the connection are resolved
// from the query and from the raw arguments step by step, and the action is
// dispatched to one route or to one handler of `_run_action`.

module AddonRouter {
  import opened Text
  import Percent

  // ------------------------------------------------------------ unquote_plus

  /** urllib.parse.unquote (errors='replace'): the escapes and the other
      characters are taken as UTF-8 bytes and decoded.  Python decodes only
      the ASCII runs of the text and keeps every other character as it is;
      the UTF-8 form of such a character starts with a lead byte, which ends
      any unfinished sequence before it and decodes to the character itself,
      so both give the same text. */
  function Unquote(s: string): (r: string)
    ensures |r| <= |s|
  {
    Percent.DecodeUnquotedNoLonger([], s);
    assert [] + Percent.UnquoteBytes(s) == Percent.UnquoteBytes(s);
    Percent.Utf8Decode(Percent.UnquoteBytes(s))
  }

  /** urllib.parse.unquote_plus: '+' is a space, then percent escapes. */
  function UnquotePlus(s: string): string
  {
    Unquote(ReplaceChar(s, '+', ' '))
  }

  /** Text without escapes and plus signs is left as it is. */
  lemma UnquotePlain(s: string)
    requires '%' !in s && '+' !in s
    ensures UnquotePlus(s) == s
  {
    assert ReplaceChar(s, '+', ' ') == s;
    UnquoteNoPercent(s);
  }

  lemma UnquoteNoPercent(s: string)
    requires '%' !in s
    ensures Unquote(s) == s
  {
    Percent.UnquoteBytesPlain(s);
    Percent.DecodeUtf8Bytes(s);
  }

  /** Decoding what quote(s, safe='') produced gives s back. */
  lemma UnquotePlusQuote(s: string)
    ensures UnquotePlus(Percent.Quote(s)) == s
  {
    var q := Percent.Quote(s);
    Percent.QuoteBytesAlphabet(Percent.Utf8Bytes(s));
    assert '+' !in q;
    assert ReplaceChar(q, '+', ' ') == q;
    Percent.UnquoteQuote(s);
    Percent.DecodeUtf8Bytes(s);
  }

  /** A stray escaped byte decodes to the replacement character. */
  lemma UnquoteStrayByteExample()
    ensures UnquotePlus("%FF") == [Percent.Replacement]
  {
    assert ReplaceChar("%FF", '+', ' ') == "%FF";
    assert Percent.UnquoteBytes("%FF") == [0xFF];
    Percent.DecodeStrayByte(0xFF, []);
  }

  // ------------------------------------------------------------ parse_qsl

  /** One `name=value` field, both halves decoded; a field without '=' has
      the blank value (keep_blank_values). */
  function PairOf(field: string): (string, string)
  {
    var i := IndexOf(field, '=');
    if i == |field| then (UnquotePlus(field), "")
    else (UnquotePlus(field[..i]), UnquotePlus(field[i + 1..]))
  }

  /** The pairs of the fields between '&', empty fields skipped. */
  function PairsOf(fields: seq<string>): (r: seq<(string, string)>)
    ensures |r| <= |fields|
  {
    if |fields| == 0 then []
    else if fields[0] == "" then PairsOf(fields[1..])
    else [PairOf(fields[0])] + PairsOf(fields[1..])
  }

  /** dict(pairs): a later pair replaces an earlier one of the same name. */
  function ToDict(pairs: seq<(string, string)>): (d: map<string, string>)
    ensures forall k :: k in d <==> exists i :: 0 <= i < |pairs| && pairs[i].0 == k
    decreases |pairs|
  {
    if |pairs| == 0 then map[]
    else
      var init := ToDict(pairs[..|pairs| - 1]);
      var last := pairs[|pairs| - 1];
      assert forall i :: 0 <= i < |pairs| - 1 ==> pairs[..|pairs| - 1][i] == pairs[i];
      init[last.0 := last.1]
  }

  /** `parse_param_string`: dict(parse_qsl(s, keep_blank_values=True)). */
  function ParamsOf(s: string): map<string, string>
  {
    if s == "" then map[] else ToDict(PairsOf(Split(s, '&')))
  }

  /** `Params.get(key)`: the value is decoded a second time. */
  function Get(params: map<string, string>, key: string): (r: Option<string>)
    ensures r.Some? <==> key in params
  {
    if key in params then Some(UnquotePlus(params[key])) else None
  }

  /** Python's `a or b` on optional text: None and "" are false. */
  function OrElse(a: Option<string>, b: Option<string>): (r: Option<string>)
    ensures a.Some? && a.value != "" ==> r == a
    ensures (a.None? || a.value == "") ==> r == b
  {
    if a.Some? && a.value != "" then a else b
  }

  /** `p.get_action() or p.get_mode()`. */
  function InitialAction(params: map<string, string>): Option<string>
  {
    var getAction := OrElse(Get(params, "action"), Get(params, "mode"));
    var getMode := OrElse(Get(params, "mode"), Get(params, "action"));
    OrElse(getAction, getMode)
  }

  lemma SplitAbsent(s: string, c: char)
    requires c !in s
    ensures Split(s, c) == [s]
  {
    assert IndexOf(s, c) == |s|;
  }

  /** A plugin URL query `action=<a>` asks for action a. */
  lemma QueryAction(a: string)
    requires a != "" && '&' !in a && '=' !in a && '%' !in a && '+' !in a
    ensures ParamsOf("action=" + a) == map["action" := a]
    ensures InitialAction(ParamsOf("action=" + a)) == Some(a)
  {
    assert "action=" + a == "action" + "=" + a;
    SinglePair("action", a);
    assert UnquotePlus(a) == a by { UnquotePlain(a); }
  }

  /** A query `k=v` of plain text is the dictionary mapping k to v. */
  lemma SinglePair(k: string, v: string)
    requires k != "" && '&' !in k && '=' !in k && '%' !in k && '+' !in k
    requires '&' !in v && '%' !in v && '+' !in v
    ensures ParamsOf(k + "=" + v) == map[k := v]
  {
    var q := k + "=" + v;
    assert '&' !in q;
    SplitAbsent(q, '&');
    assert q == k + ("=" + v);
    IndexOfPrefix(k, '=', "=" + v);
    assert q[..|k|] == k && q[|k| + 1..] == v;
    assert UnquotePlus(k) == k by { UnquotePlain(k); }
    assert UnquotePlus(v) == v by { UnquotePlain(v); }
    assert PairsOf([q]) == [(k, v)];
    assert ToDict([(k, v)]) == map[k := v];
  }

  /** A query without '=' and without '&' has a single key with the blank
      value, so it names no action. */
  lemma BareQueryNamesNoAction(s: string)
    requires s != "" && '=' !in s && '&' !in s
    requires UnquotePlus(s) != "action" && UnquotePlus(s) != "mode"
    ensures InitialAction(ParamsOf(s)) == None
  {
    SplitAbsent(s, '&');
    assert PairsOf([s]) == [(UnquotePlus(s), "")];
    assert ToDict([(UnquotePlus(s), "")]) == map[UnquotePlus(s) := ""];
  }

  // ------------------------------------------------------------ the entry block

  /** The actions run directly by `_run_action`. */
  const Direct: set<string> := {
    "backup", "restore", "autoclean", "settings", "sync_favourites_now", "info", "info_server", "info_ordner",
    "info_verbindung", "info_backup", "info_empfohlen", "info_dateimanager", "test_connection", "test_image_sources",
    "about", "debug", "install_skin", "wizard", "first_run_again", "test_connection_1", "test_connection_2", "test_connection_3",
    "instructions", "open_plugin",
    "show_help_general", "show_help_favourites", "show_help_connection", "show_help_image", "show_help_backup", "show_help_autoclean"
  }

  const TestConnections: set<string> := {"test_connection_1", "test_connection_2", "test_connection_3"}

  /** The URL argument, `sys.argv[2]` when there is one. */
  function RawUrl(argv: seq<string>): string
  {
    if |argv| > 2 then argv[2] else ""
  }

  /** The query: what follows the first '?', or the whole argument without
      leading '?' when it has none. */
  function ParamStr(argv: seq<string>): (r: string)
    ensures |r| <= |RawUrl(argv)|
  {
    var raw := RawUrl(argv);
    if '?' in raw then raw[IndexOf(raw, '?') + 1..] else LStripChar(raw, '?')
  }

  /** `HANDLE`: int(argv[1]), 0 without it, -1 when it is no integer. */
  function Handle(argv: seq<string>): int
  {
    if |argv| <= 1 then 0
    else match ParseInt(argv[1])
      case Some(v) => v
      case None => -1
  }

  /** Lines 396-399: a bare query naming a direct action. */
  function StepBare(a: Option<string>, ps: string): Option<string>
  {
    if a.None? && ps != "" && '=' !in ps && Strip(ps) in Direct then Some(Strip(ps)) else a
  }

  /** Lines 400-407: argv[2] itself, or decoded, naming a direct action. */
  function StepArg2(a: Option<string>, argv: seq<string>): Option<string>
  {
    if a.None? && |argv| >= 3 then
      var arg2 := Strip(argv[2]);
      if arg2 in Direct then Some(arg2)
      else if arg2 != "" && '=' !in arg2 && UnquotePlus(arg2) in Direct then Some(UnquotePlus(arg2))
      else a
    else a
  }

  /** Lines 408-412: an argv[1] that is no integer is taken as the action. */
  function StepArg1(a: Option<string>, argv: seq<string>): Option<string>
  {
    if a.None? && |argv| >= 2 && ParseInt(argv[1]).None? then
      (if Strip(argv[1]) == "" then None else Some(Strip(argv[1])))
    else a
  }

  /** Lines 413-414: argv[1] naming a direct action. */
  function StepArg1Direct(a: Option<string>, argv: seq<string>): Option<string>
  {
    if a.None? && |argv| >= 2 && Strip(argv[1]) in Direct then Some(Strip(argv[1])) else a
  }

  /** The action after lines 388-414. */
  function ActionOf(argv: seq<string>): Option<string>
  {
    var ps := ParamStr(argv);
    StepArg1Direct(StepArg1(StepArg2(StepBare(InitialAction(ParamsOf(ps)), ps), argv), argv), argv)
  }

  datatype Resolution = Resolution(action: Option<string>, connection: Option<string>)

  /** The entry block as written, lines 384-421. */
  function Resolved(argv: seq<string>): (r: Resolution)
    ensures |argv| >= 2 && argv[1] in TestConnections ==>
      r == Resolution(Some("test_connection"), Some([argv[1][|argv[1]| - 1]]))
  {
    var ps := ParamStr(argv);
    ConnectionStep(argv, ps, ActionOf(argv), Get(ParamsOf(ps), "connection"))
  }

  /** Lines 415-421: the `connection` parameter, then test_connection_N in
      argv[1] or, with no action yet, as the bare query. */
  function ConnectionStep(argv: seq<string>, ps: string, a: Option<string>, connection: Option<string>): (r: Resolution)
    ensures |argv| >= 2 && argv[1] in TestConnections ==>
      r == Resolution(Some("test_connection"), Some([argv[1][|argv[1]| - 1]]))
    ensures !(|argv| >= 2 && argv[1] in TestConnections) && a.Some? ==> r == Resolution(a, connection)
  {
    if |argv| >= 2 && argv[1] in TestConnections then
      Resolution(Some("test_connection"), Some([argv[1][|argv[1]| - 1]]))
    else if a.None? && ps != "" && Strip(ps) in TestConnections then
      Resolution(Some("test_connection"), Some([Strip(ps)[|Strip(ps)| - 1]]))
    else Resolution(a, connection)
  }

  /** The entry block with the test_connection_N conversion applied to the
      resolved action, wherever it came from. */
  function ResolvedFixed(argv: seq<string>): (r: Resolution)
    ensures r.action.Some? ==> r.action.value !in TestConnections
  {
    Numbered(Resolved(argv))
  }

  /** test_connection_N becomes test_connection with connection N. */
  function Numbered(r: Resolution): (q: Resolution)
    ensures q.action.Some? ==> q.action.value !in TestConnections
    ensures r.action.Some? && r.action.value in TestConnections ==> q.action == Some("test_connection")
    ensures r.action.None? || r.action.value !in TestConnections ==> q == r
  {
    if r.action.Some? && r.action.value in TestConnections then
      Resolution(Some("test_connection"), Some([r.action.value[|r.action.value| - 1]]))
    else r
  }

  /** Every direct action starts with a lower-case letter. */
  lemma DirectStartsWithLetter(a: string)
    requires a in Direct
    ensures |a| > 0 && 'a' <= a[0] <= 'z'
  {
  }

  /** What int() accepts begins with a digit or a sign once stripped. */
  lemma ParseIntStart(s: string)
    requires ParseInt(s).Some?
    ensures |Strip(s)| > 0 && (IsDigit(Strip(s)[0]) || Strip(s)[0] == '-' || Strip(s)[0] == '+')
  {
  }

  /** Lines 413-414 never change the action: when no action is known yet
      after line 412, argv[1] is an integer and no direct action. */
  lemma ArgOneDirectStepIsDead(a: Option<string>, argv: seq<string>)
    ensures StepArg1Direct(StepArg1(a, argv), argv) == StepArg1(a, argv)
  {
    var b := StepArg1(a, argv);
    if b.None? && |argv| >= 2 {
      if ParseInt(argv[1]).Some? {
        ParseIntStart(argv[1]);
        if Strip(argv[1]) in Direct {
          DirectStartsWithLetter(Strip(argv[1]));
        }
      } else {
        assert Strip(argv[1]) == "";
      }
    }
  }

  /** Each step after the first keeps an action once there is one. */
  lemma StepsKeepAction(a: Option<string>, ps: string, argv: seq<string>)
    requires a.Some?
    ensures StepArg1Direct(StepArg1(StepArg2(StepBare(a, ps), argv), argv), argv) == a
  {
  }

  /** Lines 419-421 never fire: a bare test_connection_N query is already
      taken as the action by lines 396-399. */
  lemma BareTestConnectionStepIsDead(argv: seq<string>)
    ensures var ps := ParamStr(argv);
      ActionOf(argv).None? ==> ps == "" || Strip(ps) !in TestConnections
  {
    var ps := ParamStr(argv);
    if ps != "" && Strip(ps) in TestConnections {
      BareStepGivesAction(InitialAction(ParamsOf(ps)), ps, argv);
    }
  }

  /** Whatever the query names, a bare test_connection_N query leaves an
      action after lines 396-414. */
  lemma BareStepGivesAction(a0: Option<string>, ps: string, argv: seq<string>)
    requires ps != "" && Strip(ps) in TestConnections
    ensures StepArg1Direct(StepArg1(StepArg2(StepBare(a0, ps), argv), argv), argv).Some?
  {
    if a0.None? {
      BareStepTakesTestConnection(a0, ps);
    }
    StepsKeepAction(StepBare(a0, ps), ps, argv);
  }

  /** Lines 396-399 take a bare test_connection_N query as the action. */
  lemma BareStepTakesTestConnection(a: Option<string>, ps: string)
    requires a.None? && ps != "" && Strip(ps) in TestConnections
    ensures StepBare(a, ps) == Some(Strip(ps))
  {
    if '=' in ps {
      StripKeepsMarks(ps, '=');
    }
  }

  /** A character that is no white space survives strip(). */
  lemma StripKeepsMarks(s: string, x: char)
    requires !IsSpace(x) && x in s
    ensures x in Strip(s)
  {
    LStripKeeps(s, x);
    RStripKeeps(LStrip(s), x);
  }

  lemma {:induction false} LStripKeeps(s: string, x: char)
    requires !IsSpace(x) && x in s
    ensures x in LStrip(s)
    decreases |s|
  {
    if |s| > 0 && IsSpace(s[0]) {
      assert x in s[1..] by {
        var k :| 0 <= k < |s| && s[k] == x;
        assert k > 0 && s[1..][k - 1] == x;
      }
      LStripKeeps(s[1..], x);
    }
  }

  lemma {:induction false} RStripKeeps(s: string, x: char)
    requires !IsSpace(x) && x in s
    ensures x in RStrip(s)
    decreases |s|
  {
    if |s| > 0 && IsSpace(s[|s| - 1]) {
      assert x in s[..|s| - 1] by {
        var k :| 0 <= k < |s| && s[k] == x;
        assert k < |s| - 1 && s[..|s| - 1][k] == x;
      }
      RStripKeeps(s[..|s| - 1], x);
    }
  }

  /** `route_static`'s folder: the `folder` parameter, or else the last
      segment of the `path` parameter. */
  function StaticFolder(params: map<string, string>): (r: string)
    ensures OrElse(Get(params, "folder"), None).None? ==> '/' !in r
  {
    var folder := Get(params, "folder");
    if folder.Some? && folder.value != "" then folder.value
    else
      var path := Get(params, "path");
      if path.Some? && path.value != "" then LastSegment(path.value) else ""
  }

  /** The path decoded once more, separators folded, outer '/' stripped,
      and its last '/'-separated segment. */
  function LastSegment(path: string): (r: string)
    ensures '/' !in r
  {
    var parts := Split(StripChar(FoldSlashes(UnquotePlus(path)), '/'), '/');
    parts[|parts| - 1]
  }

  /** The folder's name is the last segment of the path. */
  lemma StaticFolderFromPath(params: map<string, string>, dirs: seq<string>, name: string)
    requires "folder" !in params && "path" in params
    requires forall k :: 0 <= k < |dirs| ==> dirs[k] != "" && '/' !in dirs[k] && '\\' !in dirs[k]
    requires name != "" && '/' !in name && '\\' !in name
    requires UnquotePlus(UnquotePlus(params["path"])) == Join(dirs + [name], "/")
    ensures StaticFolder(params) == name
  {
    var path := UnquotePlus(params["path"]);
    assert path != "" by {
      if path == "" {
        UnquotePlain(path);
        LastSegmentOfJoin(dirs, name);
      }
    }
    assert LastSegment(path) == name by {
      LastSegmentOfJoin(dirs, name);
    }
  }

  /** Folding, stripping '/' and splitting a joined path gives back its parts. */
  lemma LastSegmentOfJoin(dirs: seq<string>, name: string)
    requires forall k :: 0 <= k < |dirs| ==> dirs[k] != "" && '/' !in dirs[k] && '\\' !in dirs[k]
    requires name != "" && '/' !in name && '\\' !in name
    ensures var p := Join(dirs + [name], "/");
      p != "" && Split(StripChar(FoldSlashes(p), '/'), '/') == dirs + [name]
  {
    PathPartsSnoc(dirs, name);
    PathPartsRoundTrip(dirs + [name]);
  }

  /** Plain path components are still plain with one more appended. */
  lemma PathPartsSnoc(dirs: seq<string>, name: string)
    requires forall k :: 0 <= k < |dirs| ==> dirs[k] != "" && '/' !in dirs[k] && '\\' !in dirs[k]
    requires name != "" && '/' !in name && '\\' !in name
    ensures var parts := dirs + [name];
      forall k :: 0 <= k < |parts| ==> parts[k] != "" && '/' !in parts[k] && '\\' !in parts[k]
  {
    var parts := dirs + [name];
    forall k | 0 <= k < |parts|
      ensures parts[k] != "" && '/' !in parts[k] && '\\' !in parts[k]
    {
      if k < |dirs| {
        assert parts[k] == dirs[k];
      } else {
        assert parts[k] == name;
      }
    }
  }

  /** Joining plain components with '/' and normalising splits back into them. */
  lemma PathPartsRoundTrip(parts: seq<string>)
    requires |parts| > 0
    requires forall k :: 0 <= k < |parts| ==> parts[k] != "" && '/' !in parts[k] && '\\' !in parts[k]
    ensures var p := Join(parts, "/");
      p != "" && Split(StripChar(FoldSlashes(p), '/'), '/') == parts
  {
    var p := Join(parts, "/");
    assert FoldSlashes(p) == p by {
      JoinAvoids(parts, '/', '\\');
      FoldSlashesNoop(p);
    }
    assert p != "" && StripChar(p, '/') == p by {
      JoinEdges(parts, '/');
      StripCharOfEdges(p, '/');
    }
    SplitJoin(parts, '/');
  }

  /** Stripping a character the text neither starts nor ends with changes nothing. */
  lemma StripCharOfEdges(p: string, c: char)
    requires |p| > 0 && p[0] != c && p[|p| - 1] != c
    ensures StripChar(p, c) == p
  {
    assert LStripChar(p, c) == p;
    assert RStripChar(p, c) == p;
  }

  /** A character in none of the parts and not the separator is not in the join. */
  lemma {:induction false} JoinAvoids(parts: seq<string>, sep: char, x: char)
    requires x != sep && forall k :: 0 <= k < |parts| ==> x !in parts[k]
    ensures x !in Join(parts, [sep])
    decreases |parts|
  {
    if |parts| > 1 {
      JoinAvoids(parts[1..], sep, x);
    }
  }

  /** A join of non-empty separator-free parts neither starts nor ends with
      the separator. */
  lemma {:induction false} JoinEdges(parts: seq<string>, sep: char)
    requires |parts| >= 1 && forall k :: 0 <= k < |parts| ==> parts[k] != "" && sep !in parts[k]
    ensures var j := Join(parts, [sep]); |j| > 0 && j[0] != sep && j[|j| - 1] != sep
    decreases |parts|
  {
    if |parts| > 1 {
      JoinEdges(parts[1..], sep);
      var rest := Join(parts[1..], [sep]);
      var j := parts[0] + [sep] + rest;
      assert j[0] == parts[0][0];
      assert j[|j| - 1] == rest[|rest| - 1];
    }
  }

  // ------------------------------------------------------------ _run_action

  /** What `_run_action` starts, by branch. */
  datatype Handler =
    | Backup | Restore | AutoClean | OpenSettings
    | ShowInfo(title: int, text: int)
    | Instructions | OpenPlugin
    | TestConnection(connection: Option<string>)
    | About | Debug | InstallSkin | Wizard | SyncFavouritesNow | TestImageSources
    | Unknown

  const KnownTopics: set<string> := {
    "server", "ordner", "verbindung", "backup", "empfohlen", "dateimanager",
    "general", "favourites", "connection", "image", "autoclean", "skin"
  }

  /** `_show_info_dialog`: title and text ids for a topic; any other topic
      shows the default pair. */
  function InfoText(topic: Option<string>): (r: (int, int))
    ensures r == (30073, 30074) <==> topic.None? || topic.value !in KnownTopics
  {
    if topic == Some("server") then (30150, 30151)
    else if topic == Some("ordner") then (30152, 30153)
    else if topic == Some("verbindung") then (30154, 30155)
    else if topic == Some("backup") then (30156, 30157)
    else if topic == Some("empfohlen") then (30158, 30159)
    else if topic == Some("dateimanager") then (30172, 30171)
    else if topic == Some("general") then (30343, 30344)
    else if topic == Some("favourites") then (30345, 30346)
    else if topic == Some("connection") then (30154, 30155)
    else if topic == Some("image") then (30349, 30350)
    else if topic == Some("autoclean") then (30351, 30352)
    else if topic == Some("skin") then (30353, 30354)
    else (30073, 30074)
  }

  /** `_run_action(action, connection, topic)`. */
  function RunAction(action: string, connection: Option<string>, topic: Option<string>): Handler
  {
    if action == "backup" then Backup
    else if action == "restore" then Restore
    else if action == "autoclean" then AutoClean
    else if action == "settings" then OpenSettings
    else if action == "info" || StartsWith(action, "info_") then
      var t := OrElse(topic, if StartsWith(action, "info_") then Some(action[5..]) else None);
      var (title, text) := InfoText(t);
      ShowInfo(title, text)
    else if action == "instructions" then Instructions
    else if StartsWith(action, "show_help_") then
      var (title, text) := InfoText(Some(action[10..]));
      ShowInfo(title, text)
    else if action == "open_plugin" then OpenPlugin
    else if action == "test_connection" then TestConnection(connection)
    else if action == "about" then About
    else if action == "debug" then Debug
    else if action == "install_skin" then InstallSkin
    else if action == "wizard" || action == "first_run_again" then Wizard
    else if action == "sync_favourites_now" then SyncFavouritesNow
    else if action == "test_image_sources" then TestImageSources
    else Unknown
  }

  /** `info_<x>` shows the dialog of topic x. */
  lemma InfoActionTopic(x: string, connection: Option<string>)
    ensures RunAction("info_" + x, connection, None) == ShowInfo(InfoText(Some(x)).0, InfoText(Some(x)).1)
  {
    var a := "info_" + x;
    assert a[..5] == "info_" && a[5..] == x;
    assert a[0] == 'i' && a[4] == '_';
  }

  /** `show_help_<x>` shows the dialog of topic x. */
  lemma HelpActionTopic(x: string, connection: Option<string>, topic: Option<string>)
    ensures RunAction("show_help_" + x, connection, topic) == ShowInfo(InfoText(Some(x)).0, InfoText(Some(x)).1)
  {
    var a := "show_help_" + x;
    assert a[..10] == "show_help_" && a[10..] == x;
    assert a[0] == 's' && |a| >= 10;
    NotStartsWith(a, "info_");
    assert a[1] == 'h';
  }

  /** The topic actions of the direct set name topics the dialog knows. */
  lemma DirectTopicsKnown(connection: Option<string>)
    ensures forall x | x in ["server", "ordner", "verbindung", "backup", "empfohlen", "dateimanager"] ::
      x in KnownTopics
      && RunAction("info_" + x, connection, None) == ShowInfo(InfoText(Some(x)).0, InfoText(Some(x)).1)
    ensures forall x | x in ["general", "favourites", "connection", "image", "backup", "autoclean"] ::
      x in KnownTopics
      && RunAction("show_help_" + x, connection, None) == ShowInfo(InfoText(Some(x)).0, InfoText(Some(x)).1)
  {
    forall x | x in ["server", "ordner", "verbindung", "backup", "empfohlen", "dateimanager"]
      ensures RunAction("info_" + x, connection, None) == ShowInfo(InfoText(Some(x)).0, InfoText(Some(x)).1)
    {
      InfoActionTopic(x, connection);
    }
    forall x | x in ["general", "favourites", "connection", "image", "backup", "autoclean"]
      ensures RunAction("show_help_" + x, connection, None) == ShowInfo(InfoText(Some(x)).0, InfoText(Some(x)).1)
    {
      HelpActionTopic(x, connection, None);
    }
  }

  /** Every direct action other than test_connection_N has a handler. */
  lemma DirectActionsHandled(a: string, connection: Option<string>, topic: Option<string>)
    requires a in Direct && a !in TestConnections
    ensures RunAction(a, connection, topic) != Unknown
  {
  }

  /** A direct action has a handler exactly when it is no test_connection_N. */
  lemma DirectHandlerIff(a: string, connection: Option<string>, topic: Option<string>)
    requires a in Direct
    ensures RunAction(a, connection, topic) == Unknown <==> a in TestConnections
  {
    if a in TestConnections {
      NumberedTestConnectionUnknown(a, connection, topic);
    } else {
      DirectActionsHandled(a, connection, topic);
    }
  }

  /** test_connection_N reaches `_run_action` only as "Unknown action". */
  lemma NumberedTestConnectionUnknown(a: string, connection: Option<string>, topic: Option<string>)
    requires a in TestConnections
    ensures RunAction(a, connection, topic) == Unknown
  {
    assert |a| == 17 && a[0] == 't';
    NotStartsWith(a, "info_");
    NotStartsWith(a, "show_help_");
  }

  lemma NotStartsWith(s: string, p: string)
    requires |s| > 0 && |p| > 0 && s[0] != p[0]
    ensures !StartsWith(s, p)
  {
    if |p| <= |s| {
      assert s[..|p|][0] == s[0];
    }
  }

  /** The characters of the direct action names. */
  predicate NameChar(c: char)
  {
    'a' <= c <= 'z' || c == '_' || '0' <= c <= '9'
  }

  /** test_connection_N: seventeen name characters, the last the digit N. */
  lemma TestConnectionShape(s: string)
    requires s in TestConnections
    ensures |s| == 17 && s[0] == 't' && '1' <= s[16] <= '3'
    ensures forall i :: 0 <= i < |s| ==> NameChar(s[i])
  {
  }

  /** A name made of name characters needs no decoding and no stripping. */
  lemma NameFacts(s: string)
    requires |s| > 0 && forall i :: 0 <= i < |s| ==> NameChar(s[i])
    ensures '=' !in s && '%' !in s && '+' !in s && '&' !in s
    ensures Strip(s) == s && UnquotePlus(s) == s
  {
    assert !IsSpace(s[0]) && !IsSpace(s[|s| - 1]);
    LStripOfTrimmed(s);
    RStripOfTrimmed(s);
    UnquotePlain(s);
  }

  /** An integer handle is no test_connection_N. */
  lemma HandleIsNoTestConnection(handle: string)
    requires ParseInt(handle).Some?
    ensures handle !in TestConnections
  {
    ParseIntStart(handle);
    if handle in TestConnections {
      TestConnectionShape(handle);
      NameFacts(handle);
    }
  }

  /** The query of a plugin URL whose argument starts with '?'. */
  lemma ParamStrOfQuery(argv: seq<string>, q: string)
    requires |argv| >= 3 && argv[2] == "?" + q
    ensures ParamStr(argv) == q
  {
    assert '?' in argv[2] && IndexOf(argv[2], '?') == 0;
    assert argv[2][1..] == q;
  }

  /** The action the first step of lines 388-399 settles on stays. */
  lemma ActionOfEarly(argv: seq<string>, a: string)
    requires StepBare(InitialAction(ParamsOf(ParamStr(argv))), ParamStr(argv)) == Some(a)
    ensures ActionOf(argv) == Some(a)
  {
    StepsKeepAction(Some(a), ParamStr(argv), argv);
  }

  /** The query `?test_connection_N` is taken as the action test_connection_N. */
  lemma BareQueryParts(argv: seq<string>, ps: string)
    requires |argv| == 3 && argv[2] == "?" + ps && ps in TestConnections
    ensures ParamStr(argv) == ps && ActionOf(argv) == Some(ps)
  {
    ParamStrOfQuery(argv, ps);
    assert StepBare(InitialAction(ParamsOf(ps)), ps) == Some(ps) by {
      TestConnectionShape(ps);
      NameFacts(ps);
      BareQueryNamesNoAction(ps);
      BareStepTakesTestConnection(None, ps);
    }
    ActionOfEarly(argv, ps);
  }

  /** As written: with an integer handle in argv[1], the query
      `?test_connection_N` resolves to the action test_connection_N, which
      no handler takes. */
  lemma BareTestConnectionAsWritten(argv: seq<string>, ps: string)
    requires |argv| == 3 && argv[2] == "?" + ps && ps in TestConnections && ParseInt(argv[1]).Some?
    ensures Resolved(argv).action == Some(ps)
    ensures RunAction(Resolved(argv).action.value, Resolved(argv).connection, None) == Unknown
  {
    BareQueryParts(argv, ps);
    HandleIsNoTestConnection(argv[1]);
    NumberedTestConnectionUnknown(ps, Resolved(argv).connection, None);
  }

  /** The same for the plugin's own URL with handle 0 and connection 1. */
  lemma BareTestConnectionExample()
    ensures var argv := ["plugin://plugin.program.dokukanal.buildsync/", "0", "?" + "test_connection_1"];
      Resolved(argv).action == Some("test_connection_1")
      && RunAction("test_connection_1", Resolved(argv).connection, None) == Unknown
  {
    var argv := ["plugin://plugin.program.dokukanal.buildsync/", "0", "?" + "test_connection_1"];
    assert ParseInt("0").Some? by {
      ParseIntOfIntToString(0);
      assert IntToString(0) == "0";
    }
    BareTestConnectionAsWritten(argv, "test_connection_1");
  }

  /** As written, the plugin's dispatch runs that action and reaches
      "Unknown action". */
  lemma BareTestConnectionDispatched(argv: seq<string>, ps: string)
    requires |argv| == 3 && argv[2] == "?" + ps && ps in TestConnections && ParseInt(argv[1]).Some?
    ensures Dispatch(argv) == Run(Unknown)
  {
    var res := Resolved(argv);
    assert res.action == Some(ps) && RunAction(ps, res.connection, None) == Unknown by {
      BareTestConnectionAsWritten(argv, ps);
    }
    assert ps in Direct && ps != "info" by { TestConnectionShape(ps); }
    RouteOfDirect(res, ParamsOf(ParamStr(argv)), Handle(argv));
  }

  /** Corrected: the same query tests connection N. */
  lemma BareTestConnectionFixed(argv: seq<string>, ps: string)
    requires |argv| == 3 && argv[2] == "?" + ps && ps in TestConnections && ParseInt(argv[1]).Some?
    ensures ResolvedFixed(argv) == Resolution(Some("test_connection"), Some([ps[16]]))
    ensures RunAction("test_connection", Some([ps[16]]), None) == TestConnection(Some([ps[16]]))
  {
    BareTestConnectionAsWritten(argv, ps);
    TestConnectionShape(ps);
    TestConnectionHandler(Some([ps[16]]), None);
  }

  /** test_connection tests the connection it is given. */
  lemma TestConnectionHandler(connection: Option<string>, topic: Option<string>)
    ensures RunAction("test_connection", connection, topic) == TestConnection(connection)
  {
    NotStartsWith("test_connection", "info_");
    NotStartsWith("test_connection", "show_help_");
  }

  /** Corrected: every direct action the entry block resolves has a handler. */
  lemma FixedDirectHandled(argv: seq<string>, topic: Option<string>)
    requires ResolvedFixed(argv).action.Some? && ResolvedFixed(argv).action.value in Direct
    ensures RunAction(ResolvedFixed(argv).action.value, ResolvedFixed(argv).connection, topic) != Unknown
  {
    DirectActionsHandled(ResolvedFixed(argv).action.value, ResolvedFixed(argv).connection, topic);
  }

  /** An argv[1] test_connection_N tests connection N. */
  lemma ArgvTestConnection(argv: seq<string>)
    requires |argv| >= 2 && argv[1] in TestConnections
    ensures Resolved(argv) == Resolution(Some("test_connection"), Some([argv[1][16]]))
  {
    TestConnectionShape(argv[1]);
  }

  /** Lines 388-414, one reassignment of `action` after another. */
  method ResolveAction(argv: seq<string>, ps: string, p: map<string, string>) returns (action: Option<string>)
    requires ps == ParamStr(argv) && p == ParamsOf(ps)
    ensures action == ActionOf(argv)
  {
    action := InitialAction(p);
    if action.None? && ps != "" && '=' !in ps {
      var bare := Strip(ps);
      if bare in Direct {
        action := Some(bare);
      }
    }
    assert action == StepBare(InitialAction(p), ps);
    ghost var a1 := action;
    if action.None? && |argv| >= 3 {
      var arg2 := Strip(argv[2]);
      if arg2 in Direct {
        action := Some(arg2);
      } else if arg2 != "" && '=' !in arg2 {
        var decoded := UnquotePlus(arg2);
        if decoded in Direct {
          action := Some(decoded);
        }
      }
    }
    assert action == StepArg2(a1, argv);
    ghost var a2 := action;
    if action.None? && |argv| >= 2 && ParseInt(argv[1]).None? {
      var a1 := Strip(argv[1]);
      action := if a1 == "" then None else Some(a1);
    }
    assert action == StepArg1(a2, argv);
    if action.None? && |argv| >= 2 && Strip(argv[1]) in Direct {
      action := Some(Strip(argv[1]));
    }
  }

  /** The entry block as the plugin runs it: the action and the connection
      reassigned step by step. */
  method ResolveEntry(argv: seq<string>) returns (action: Option<string>, connection: Option<string>)
    ensures Resolution(action, connection) == Resolved(argv)
    ensures |argv| >= 2 && argv[1] in TestConnections ==> action == Some("test_connection")
  {
    var ps := ParamStr(argv);
    var p := ParamsOf(ps);
    action := ResolveAction(argv, ps, p);
    action, connection := ResolveConnection(argv, ps, action, Get(p, "connection"));
  }

  /** Lines 415-421, reassigning the action and the connection. */
  method ResolveConnection(argv: seq<string>, ps: string, a: Option<string>, param: Option<string>)
    returns (action: Option<string>, connection: Option<string>)
    ensures Resolution(action, connection) == ConnectionStep(argv, ps, a, param)
  {
    action, connection := a, param;
    if |argv| >= 2 && argv[1] in TestConnections {
      action := Some("test_connection");
      connection := Some([argv[1][|argv[1]| - 1]]);
      return;
    }
    if action.None? && ps != "" && Strip(ps) in TestConnections {
      action := Some("test_connection");
      connection := Some([Strip(ps)[|Strip(ps)| - 1]]);
    }
  }

  // ------------------------------------------------------------ dispatch

  /** Where the entry block sends the request. */
  datatype Route =
    | Execute
    | Static(folder: string)
    | SettingsActions
    | Run(handler: Handler)
    | Category(name: string)
    | Main
    | Exit

  /** The dispatch after the entry block (lines 424-463): a run reaches
      "Unknown action" exactly when the resolved action is test_connection_N. */
  function Dispatch(argv: seq<string>): (r: Route)
    ensures Handle(argv) < 0 ==> !r.Static? && !r.SettingsActions? && !r.Category? && !r.Main?
    ensures r.Run? ==> (Resolved(argv).action.Some?
      && (r.handler == Unknown <==> Resolved(argv).action.value in TestConnections))
  {
    RouteOf(Resolved(argv), ParamsOf(ParamStr(argv)), Handle(argv))
  }

  /** The route for a resolved action, the parameters and the handle. */
  function RouteOf(res: Resolution, p: map<string, string>, h: int): (r: Route)
    ensures h < 0 ==> !r.Static? && !r.SettingsActions? && !r.Category? && !r.Main?
    ensures r.Run? ==> (res.action.Some? && res.action.value in Direct
      && (r.handler == Unknown <==> res.action.value in TestConnections))
  {
    var a := res.action;
    if a == Some("execute") then Execute
    else if a == Some("static") then (if h >= 0 then Static(StaticFolder(p)) else Exit)
    else if a == Some("settings_actions") then (if h >= 0 then SettingsActions else Exit)
    else if a.Some? && a.value in Direct then
      var topic := if a.value == "info" then Get(p, "topic") else None;
      DirectHandlerIff(a.value, res.connection, topic);
      Run(RunAction(a.value, res.connection, topic))
    else if a == Some("category") && OrElse(Get(p, "name"), None).Some? then
      (if h >= 0 then Category(Get(p, "name").value) else Exit)
    else if h >= 0 then Main
    else Exit
  }

  /** None of the direct actions is one of the routes the dispatch checks before them. */
  /** A directly run action runs, whatever the handle. */
  lemma RouteOfDirect(res: Resolution, p: map<string, string>, h: int)
    requires res.action.Some? && res.action.value in Direct && res.action.value != "info"
    ensures RouteOf(res, p, h) == Run(RunAction(res.action.value, res.connection, None))
  {
    DirectIsNoRoute(res.action.value);
  }

  lemma DirectIsNoRoute(a: string)
    requires a in Direct
    ensures a != "execute" && a != "static" && a != "settings_actions"
  {
  }

  /** The query `?action=<a>` resolves to action a without a connection. */
  lemma ActionQueryResolves(argv: seq<string>, a: string)
    requires |argv| == 3 && argv[2] == "?action=" + a && argv[1] !in TestConnections
    requires a != "" && a !in TestConnections && '&' !in a && '=' !in a && '%' !in a && '+' !in a
    ensures ParamStr(argv) == "action=" + a
    ensures Resolved(argv) == Resolution(Some(a), None)
  {
    var q := "action=" + a;
    assert argv[2] == "?" + q;
    ParamStrOfQuery(argv, q);
    QueryAction(a);
    ActionOfEarly(argv, a);
  }

  /** A plugin URL with query `action=<a>` for a direct action runs its
      handler, whatever the handle. */
  lemma DirectQueryRuns(argv: seq<string>, a: string)
    requires |argv| == 3 && argv[2] == "?action=" + a && argv[1] !in TestConnections
    requires a in Direct && a !in TestConnections && a != "info"
    requires '&' !in a && '=' !in a && '%' !in a && '+' !in a
    ensures Dispatch(argv) == Run(RunAction(a, None, None))
  {
    ActionQueryResolves(argv, a);
    DirectRoute(Resolution(Some(a), None), ParamsOf(ParamStr(argv)), Handle(argv));
  }

  /** A direct action other than info is run with the resolved connection. */
  lemma DirectRoute(res: Resolution, p: map<string, string>, h: int)
    requires res.action.Some? && res.action.value in Direct && res.action.value !in TestConnections
    requires res.action.value != "info"
    ensures RouteOf(res, p, h) == Run(RunAction(res.action.value, res.connection, None))
  {
    DirectIsNoRoute(res.action.value);
  }
}
