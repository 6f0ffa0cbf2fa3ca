// run_wizard.py: the script entry the settings page starts with
// RunScript(add-on id, MODE). A mode that names a plugin action is handed on
// to the plugin as a RunPlugin URL; a plugin URL given whole is passed on as
// it is; with nothing recognised the set-up wizard starts.

module RunWizard {
  import opened Text

  const PluginBase: string := "plugin://plugin.program.dokukanal.buildsync/"

  /** Modes that run an action straight away (`_DIRECT_RUN_MODES`). */
  const DirectRunModes: set<string> := {
    "sync_favourites_now", "test_connection", "test_connection_1", "test_connection_2", "test_connection_3",
    "test_image_sources", "backup", "restore", "autoclean", "install_skin"
  }

  /** The plugin query for each known mode (`_ACTION_MODES`). */
  const ActionModes: map<string, string> := map[
    "sync_favourites_now" := "action=sync_favourites_now",
    "test_connection" := "action=test_connection",
    "test_connection_1" := "action=test_connection&connection=1",
    "test_connection_2" := "action=test_connection&connection=2",
    "test_connection_3" := "action=test_connection&connection=3",
    "test_image_sources" := "action=test_image_sources",
    "backup" := "action=backup",
    "restore" := "action=restore",
    "autoclean" := "action=autoclean",
    "install_skin" := "action=install_skin",
    "info" := "action=info",
    "info_server" := "action=info&topic=server",
    "info_ordner" := "action=info&topic=ordner",
    "info_verbindung" := "action=info&topic=verbindung",
    "info_backup" := "action=info&topic=backup",
    "info_empfohlen" := "action=info&topic=empfohlen",
    "info_dateimanager" := "action=info&topic=dateimanager",
    "debug" := "action=debug"
  ]

  /** How the script ends: a RunPlugin builtin for a URL, or the wizard. */
  datatype Outcome = RunPlugin(url: string) | StartWizard

  /** Both scans look at the second script argument before the first. */
  const ScanOrder: seq<nat> := [2, 1]

  /** `str(sys.argv[idx]).strip()`, or nothing where argv is too short. */
  function Arg(argv: seq<string>, idx: nat): (r: Option<string>)
    ensures r.Some? <==> idx < |argv|
    ensures r.Some? ==> r.value == Strip(argv[idx])
  {
    if |argv| <= idx then None else Some(Strip(argv[idx]))
  }

  /** The first scan: the first argument, in scan order, that is a
      direct-run mode or a known mode. */
  function FirstScan(argv: seq<string>, order: seq<nat>): (r: Option<string>)
    ensures r.Some? ==> r.value in DirectRunModes || r.value in ActionModes
    ensures r.Some? ==> exists k :: 0 <= k < |order| && Arg(argv, order[k]) == r
  {
    if |order| == 0 then None
    else
      var a := Arg(argv, order[0]);
      if a.Some? && (a.value in DirectRunModes || a.value in ActionModes) then a
      else
        var r := FirstScan(argv, order[1..]);
        assert r.Some? ==> exists k :: 0 <= k < |order| && Arg(argv, order[k]) == r by {
          if r.Some? {
            var k :| 0 <= k < |order[1..]| && Arg(argv, order[1..][k]) == r;
            assert order[k + 1] == order[1..][k];
          }
        }
        r
  }

  /** A whole plugin URL naming an action or a mode. */
  predicate PluginUrl(arg: string)
  {
    Contains(arg, "plugin://") && (Contains(arg, "action=") || Contains(arg, "mode="))
  }

  /** The URL a known mode is dispatched to. */
  function ModeUrl(mode: string): (url: string)
    requires mode in ActionModes
    ensures StartsWith(url, PluginBase + "?") && PluginUrl(url)
  {
    QueriesNameActions();
    QueryUrl(ActionModes[mode]);
    PluginBase + "?" + ActionModes[mode]
  }

  /** Every table query names an action. */
  lemma QueriesNameActions()
    ensures forall m :: m in ActionModes ==> StartsWith(ActionModes[m], "action=")
  {
  }

  /** A plugin query naming an action makes a plugin URL naming one. */
  lemma QueryUrl(query: string)
    requires StartsWith(query, "action=")
    ensures PluginUrl(PluginBase + "?" + query)
  {
    PluginBaseScheme();
    SchemeQueryUrl(PluginBase, query);
  }

  lemma PluginBaseScheme()
    ensures StartsWith(PluginBase, "plugin://")
  {
    assert forall i :: 0 <= i < 9 ==> PluginBase[i] == "plugin://"[i];
  }

  /** A plugin:// base with an action query is a plugin URL. */
  lemma SchemeQueryUrl(base: string, query: string)
    requires StartsWith(base, "plugin://") && StartsWith(query, "action=")
    ensures PluginUrl(base + "?" + query)
  {
    var url := base + "?" + query;
    assert url[..9] == base[..9];
    ContainsAt(url, "plugin://", 0);
    assert url[|base| + 1..|base| + 8] == query[..7];
    ContainsAt(url, "action=", |base| + 1);
  }

  /** The second scan: per argument in scan order, a known mode dispatches
      its URL and a plugin URL is passed on; otherwise the wizard starts. */
  function SecondScan(argv: seq<string>, order: seq<nat>): (r: Outcome)
    ensures r.RunPlugin? ==> PluginUrl(r.url)
  {
    if |order| == 0 then StartWizard
    else
      match Arg(argv, order[0])
      case None => SecondScan(argv, order[1..])
      case Some(mode) =>
        if mode in ActionModes then RunPlugin(ModeUrl(mode))
        else if PluginUrl(mode) then RunPlugin(mode)
        else SecondScan(argv, order[1..])
  }

  /** The script as a whole: a direct-run mode found by the first scan is
      dispatched (with `action=<mode>` for a mode the table lacks); anything
      else goes to the second scan. */
  function WizardDispatch(argv: seq<string>): (r: Outcome)
    ensures r.RunPlugin? ==> PluginUrl(r.url)
  {
    var mode := FirstScan(argv, ScanOrder);
    if mode.Some? && mode.value != "" && mode.value in DirectRunModes then
      var query := if mode.value in ActionModes then ActionModes[mode.value] else "action=" + mode.value;
      QueriesNameActions();
      QueryUrl(query);
      RunPlugin(PluginBase + "?" + query)
    else SecondScan(argv, ScanOrder)
  }

  /** The script's two loops, ending at the first dispatch. */
  method RunScript(argv: seq<string>) returns (outcome: Outcome)
    ensures outcome == WizardDispatch(argv)
  {
    var mode: Option<string> := None;
    var k := 0;
    while k < |ScanOrder|
      invariant 0 <= k <= |ScanOrder|
      invariant FirstScan(argv, ScanOrder) == FirstScan(argv, ScanOrder[k..])
    {
      var idx := ScanOrder[k];
      if |argv| <= idx {
        k := k + 1;
        continue;
      }
      var raw := Strip(argv[idx]);
      if raw in DirectRunModes {
        mode := Some(raw);
        break;
      }
      if raw in ActionModes {
        mode := Some(raw);
        break;
      }
      k := k + 1;
    }
    assert mode == FirstScan(argv, ScanOrder);
    if mode.Some? && mode.value != "" && mode.value in DirectRunModes {
      var query := if mode.value in ActionModes then ActionModes[mode.value] else "action=" + mode.value;
      return RunPlugin(PluginBase + "?" + query);
    }
    k := 0;
    while k < |ScanOrder|
      invariant 0 <= k <= |ScanOrder|
      invariant SecondScan(argv, ScanOrder) == SecondScan(argv, ScanOrder[k..])
    {
      var idx := ScanOrder[k];
      if |argv| <= idx {
        k := k + 1;
        continue;
      }
      var m := Strip(argv[idx]);
      if m in ActionModes {
        return RunPlugin(PluginBase + "?" + ActionModes[m]);
      }
      if PluginUrl(m) {
        return RunPlugin(m);
      }
      k := k + 1;
    }
    return StartWizard;
  }

  // ------------------------------------------------------------ properties

  /** Every direct-run mode has a table entry, so the `action=<mode>`
      fallback is never taken. */
  lemma DirectModesMapped()
    ensures forall m :: m in DirectRunModes ==> m in ActionModes
  {
  }

  /** An argument the first scan stops at. */
  predicate Hit(a: Option<string>)
  {
    a.Some? && (a.value in DirectRunModes || a.value in ActionModes)
  }

  /** The first scan over the two arguments, written out. */
  lemma FirstScanUnrolled(argv: seq<string>)
    ensures FirstScan(argv, ScanOrder)
         == if Hit(Arg(argv, 2)) then Arg(argv, 2) else if Hit(Arg(argv, 1)) then Arg(argv, 1) else None
  {
    assert ScanOrder[0] == 2 && ScanOrder[1..] == [1] && [1][1..] == [];
  }

  /** The second scan over the two arguments, written out. */
  lemma SecondScanUnrolled(argv: seq<string>)
    ensures SecondScan(argv, ScanOrder) == SecondStep(argv, 2, SecondStep(argv, 1, StartWizard))
  {
    assert ScanOrder[0] == 2 && ScanOrder[1..] == [1] && [1][1..] == [];
    assert SecondScan(argv, [1]) == SecondStep(argv, 1, SecondScan(argv, []));
    assert SecondScan(argv, ScanOrder) == SecondStep(argv, 2, SecondScan(argv, [1]));
  }

  /** One argument of the second scan, with where it goes otherwise. */
  function SecondStep(argv: seq<string>, idx: nat, otherwise: Outcome): Outcome
  {
    match Arg(argv, idx)
    case None => otherwise
    case Some(mode) =>
      if mode in ActionModes then RunPlugin(ModeUrl(mode))
      else if PluginUrl(mode) then RunPlugin(mode)
      else otherwise
  }

  /** A direct-run mode as the second argument runs its plugin query,
      whatever the first argument is. */
  lemma DirectModeSecondArgument(argv: seq<string>)
    requires |argv| >= 3 && Strip(argv[2]) in DirectRunModes
    ensures WizardDispatch(argv) == RunPlugin(ModeUrl(Strip(argv[2])))
  {
    DirectModesMapped();
    FirstScanUnrolled(argv);
  }

  /** The first argument is looked at only when the second is absent or
      unrecognised. */
  lemma FirstArgumentWhenSecondUnknown(argv: seq<string>)
    requires |argv| == 2 || (|argv| >= 3 && Strip(argv[2]) !in ActionModes && !PluginUrl(Strip(argv[2])))
    requires |argv| >= 2 && Strip(argv[1]) in ActionModes
    ensures WizardDispatch(argv) == RunPlugin(ModeUrl(Strip(argv[1])))
  {
    DirectModesMapped();
    FirstScanUnrolled(argv);
    SecondScanUnrolled(argv);
  }

  /** A known mode in the second argument wins over one in the first. */
  lemma SecondArgumentWins(argv: seq<string>)
    requires |argv| >= 3 && Strip(argv[2]) in ActionModes && Strip(argv[1]) in ActionModes
    ensures WizardDispatch(argv) == RunPlugin(ModeUrl(Strip(argv[2])))
  {
    DirectModesMapped();
    FirstScanUnrolled(argv);
    SecondScanUnrolled(argv);
  }

  /** A plugin URL naming an action is passed on as it is (stripped) when no
      known mode precedes it. */
  lemma PluginUrlPassedOn(argv: seq<string>)
    requires |argv| >= 3 && PluginUrl(Strip(argv[2])) && Strip(argv[2]) !in ActionModes
    requires Strip(argv[1]) !in ActionModes
    ensures WizardDispatch(argv) == RunPlugin(Strip(argv[2]))
  {
    DirectModesMapped();
    FirstScanUnrolled(argv);
    SecondScanUnrolled(argv);
  }

  /** The first scan stops at any known mode, so a direct-run mode in the
      first argument beats a plugin URL in the second. */
  lemma DirectModeBeatsPluginUrl(argv: seq<string>)
    requires |argv| >= 3 && Strip(argv[2]) !in ActionModes && Strip(argv[1]) in DirectRunModes
    ensures WizardDispatch(argv) == RunPlugin(ModeUrl(Strip(argv[1])))
  {
    DirectModesMapped();
    FirstScanUnrolled(argv);
  }

  /** Without recognised arguments the wizard starts. */
  lemma WizardStarts(argv: seq<string>)
    requires forall idx :: 1 <= idx <= 2 && idx < |argv| ==> Strip(argv[idx]) !in ActionModes && !PluginUrl(Strip(argv[idx]))
    ensures WizardDispatch(argv) == StartWizard
  {
    DirectModesMapped();
    FirstScanUnrolled(argv);
    SecondScanUnrolled(argv);
  }
}
