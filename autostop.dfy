// The autostop service (services/autostop_service.py): the play counter,
// the player's pause/play flags, the check that the notification time is not
// the stop time, and the choice in the extension dialog.

module Autostop {
  import opened Text
  import opened KodiSettings

  // ------------------------------------------------------------ play_count

  /** `play_count`: seconds counted towards the stop time. Stopped playback
      resets the counter; otherwise the adjust mode decides how a pause
      counts. */
  function PlayCount(plcount: int, padjust: string, plflag: int, paflag: int): (r: int)
    ensures r == 0 || r == plcount || r == plcount + 1
  {
    if plflag == 0 && paflag == 0 then 0
    else if padjust == "None" then plcount + 1
    else if padjust == "Pause" && plflag == 1 then plcount + 1
    else if padjust == "Pause" && paflag == 1 then plcount
    else if padjust == "Reset" && plflag == 1 then plcount + 1
    else if padjust == "Reset" && paflag == 1 then 0
    else plcount
  }

  /** Neither playing nor paused: the counter starts again. */
  lemma StoppedResets(plcount: int, padjust: string)
    ensures PlayCount(plcount, padjust, 0, 0) == 0
  {
  }

  /** Under 'None' every second counts, playing or paused. */
  lemma NoneCountsPauses(plcount: int, plflag: int, paflag: int)
    requires plflag != 0 || paflag != 0
    ensures PlayCount(plcount, "None", plflag, paflag) == plcount + 1
  {
  }

  /** Under 'Pause' a pause holds the counter; under 'Reset' it clears it;
      playing counts in both. */
  lemma PauseAndResetModes(plcount: int, player: Player)
    requires player.Valid()
    ensures player.playing ==> PlayCount(plcount, "Pause", player.PlFlag(), player.PaFlag()) == plcount + 1
    ensures player.paused ==> PlayCount(plcount, "Pause", player.PlFlag(), player.PaFlag()) == plcount
    ensures player.playing ==> PlayCount(plcount, "Reset", player.PlFlag(), player.PaFlag()) == plcount + 1
    ensures player.paused ==> PlayCount(plcount, "Reset", player.PlFlag(), player.PaFlag()) == 0
  {
  }

  /** Any other mode leaves a running or paused counter as it is. */
  lemma UnknownModeHolds(plcount: int, padjust: string, plflag: int, paflag: int)
    requires padjust != "None" && padjust != "Pause" && padjust != "Reset"
    requires plflag != 0 || paflag != 0
    ensures PlayCount(plcount, padjust, plflag, paflag) == plcount
  {
  }

  /** A counter that starts at zero never goes negative, and grows by at most
      one per tick. */
  lemma {:induction false} CountStaysInRange(start: int, ticks: seq<(string, int, int)>)
    requires start >= 0
    ensures 0 <= Counted(start, ticks) <= start + |ticks|
    decreases |ticks|
  {
    if |ticks| > 0 {
      CountStaysInRange(start, ticks[..|ticks| - 1]);
    }
  }

  /** The counter after a sequence of ticks, each with the adjust mode and
      the two flags then. */
  function Counted(start: int, ticks: seq<(string, int, int)>): int
    decreases |ticks|
  {
    if |ticks| == 0 then start
    else
      var t := ticks[|ticks| - 1];
      PlayCount(Counted(start, ticks[..|ticks| - 1]), t.0, t.1, t.2)
  }

  // ------------------------------------------------------------ AutostopPlayer

  /** The player's callbacks keep two flags. */
  class Player {
    var playing: bool
    var paused: bool

    /** The two flags are never set together. */
    predicate Valid()
      reads this
    {
      !(playing && paused)
    }

    /** `plflag`. */
    function PlFlag(): (f: int)
      reads this
      ensures f == 0 || f == 1
    {
      if playing then 1 else 0
    }

    /** `paflag`. */
    function PaFlag(): (f: int)
      reads this
      ensures f == 0 || f == 1
    {
      if paused then 1 else 0
    }

    constructor ()
      ensures Valid() && PlFlag() == 0 && PaFlag() == 0
    {
      playing, paused := false, false;
    }

    method OnPlayBackStarted()
      modifies this
      ensures Valid() && PlFlag() == 1 && PaFlag() == 0
    {
      paused, playing := false, true;
    }

    method OnPlayBackPaused()
      modifies this
      ensures Valid() && PlFlag() == 0 && PaFlag() == 1
    {
      paused, playing := true, false;
    }

    method OnPlayBackResumed()
      modifies this
      ensures Valid() && PlFlag() == 1 && PaFlag() == 0
    {
      paused, playing := false, true;
    }

    method OnPlayBackEnded()
      modifies this
      ensures Valid() && PlFlag() == 0 && PaFlag() == 0
    {
      paused, playing := false, false;
    }

    method OnPlayBackStopped()
      modifies this
      ensures Valid() && PlFlag() == 0 && PaFlag() == 0
    {
      paused, playing := false, false;
    }
  }

  /** The counter keeps running while the player plays, whatever the mode. */
  method CountWhilePlaying(plcount: int, padjust: string, player: Player) returns (next: int)
    requires player.Valid()
    ensures next == PlayCount(plcount, padjust, player.PlFlag(), player.PaFlag())
    ensures player.playing ==> next == plcount + 1 || (padjust != "None" && padjust != "Pause" && padjust != "Reset" && next == plcount)
    ensures !player.playing && !player.paused ==> next == 0
  {
    next := PlayCount(plcount, padjust, player.PlFlag(), player.PaFlag());
  }

  // ------------------------------------------------------------ check_notify

  /** `int(_get(key, '0') or '0')`; None where int() raises. */
  function SettingInt(s: Store, key: string): (r: Option<int>)
    ensures Raw(s, key) == "" ==> r == Some(0)
  {
    ParseIntOfIntToString(0);
    ParseInt(GetString(s, key, "0"))
  }

  /** `check_notify`: a notification time equal to the whole stop time is
      moved to 300 seconds; a setting that is not a number leaves everything
      as it is. */
  function CheckNotify(s: Store): (r: Store)
    ensures r.bools == s.bools
  {
    match SettingInt(s, "autostop_plnotify")
    case None => s
    case Some(notify) =>
      match SettingInt(s, "autostop_plstop")
      case None => s
      case Some(stop) =>
        if stop > 0 && notify == stop * 60 then s.(strings := s.strings["autostop_plnotify" := "300"]) else s
  }

  /** The setting changes exactly when the stop time is set and the
      notification would come at the very moment playback stops. */
  lemma CheckNotifyIff(s: Store)
    ensures CheckNotify(s) != s <==>
      SettingInt(s, "autostop_plnotify").Some? && SettingInt(s, "autostop_plstop").Some?
      && SettingInt(s, "autostop_plstop").value > 0
      && SettingInt(s, "autostop_plnotify").value == SettingInt(s, "autostop_plstop").value * 60
      && Raw(s, "autostop_plnotify") != "300"
    ensures CheckNotify(s) != s ==> Raw(CheckNotify(s), "autostop_plnotify") == "300"
  {
    var n := SettingInt(s, "autostop_plnotify");
    var p := SettingInt(s, "autostop_plstop");
    if n.Some? && p.Some? && p.value > 0 && n.value == p.value * 60 {
      var r := CheckNotify(s);
      assert Raw(r, "autostop_plnotify") == "300";
      if Raw(s, "autostop_plnotify") == "300" {
        assert "autostop_plnotify" in s.strings;
        assert r.strings == s.strings;
      }
    }
  }

  /** A second check changes nothing: at most it stores 300 again. */
  lemma CheckNotifyIdempotent(s: Store)
    ensures CheckNotify(CheckNotify(s)) == CheckNotify(s)
  {
    var r := CheckNotify(s);
    if r != s {
      assert "autostop_plnotify" in r.strings && r.strings["autostop_plnotify"] == "300";
      assert r.strings["autostop_plnotify" := "300"] == r.strings;
    }
  }

  // ------------------------------------------------------------ var_extension

  /** An entry of the extension dialog: a "N minutes" label, the end of the
      current file with the remaining minutes, or stopping playback now. */
  datatype Choice = Minutes(caption: string) | EndOfFile(remaining: string) | StopNow

  const MinuteLabels: seq<string> := ["10 minutes", "20 minutes", "30 minutes", "40 minutes", "50 minutes", "60 minutes", "90 minutes"]

  /** The dialog's entries: seven minute counts, the end of the file when time
      remains, and the stop entry when the setting allows it. */
  function Choices(remaining: Option<string>, stopAllowed: bool): (r: seq<Choice>)
    ensures |r| >= 7
    ensures forall k :: 0 <= k < 7 ==> r[k] == Minutes(MinuteLabels[k])
  {
    seq(7, k requires 0 <= k < 7 => Minutes(MinuteLabels[k]))
      + (if remaining.Some? then [EndOfFile(remaining.value)] else [])
      + (if stopAllowed then [StopNow] else [])
  }

  /** `str.isdigit` over ASCII. */
  predicate IsDigitText(s: string)
  {
    s != "" && AllDigits(s)
  }

  /** `var_extension`: the extension in minutes as text, and whether playback
      is stopped. A cancelled dialog (a negative selection) gives five
      minutes; `endAgain` is the remaining time asked for once more. */
  function VarExtension(choices: seq<Choice>, selection: int, endAgain: string): (r: (string, bool))
    requires selection < |choices|
    ensures r.1 <==> selection >= 0 && choices[selection].StopNow?
  {
    if selection < 0 then ("5", false)
    else
      match choices[selection]
      case Minutes(caption) =>
        var e := Strip(caption[..if |caption| < 2 then |caption| else 2]);
        (if IsDigitText(e) then e else "10", false)
      case EndOfFile(_) => (endAgain, false)
      case StopNow => ("0", true)
  }

  /** Each minute entry gives its own number. */
  lemma MinuteChoices(remaining: Option<string>, stopAllowed: bool, k: nat, endAgain: string)
    requires k < 7
    ensures VarExtension(Choices(remaining, stopAllowed), k, endAgain)
         == (["10", "20", "30", "40", "50", "60", "90"][k], false)
  {
    var caption := MinuteLabels[k];
    var e := caption[..2];
    assert e == ["10", "20", "30", "40", "50", "60", "90"][k];
    assert !IsSpace(e[0]) && !IsSpace(e[1]);
    LStripOfTrimmed(e);
    RStripOfTrimmed(e);
  }

  /** Cancel gives five minutes, the stop entry zero and stops playback, and
      the end entry the freshly measured remaining time. */
  lemma OtherChoices(remaining: Option<string>, stopAllowed: bool, endAgain: string)
    ensures VarExtension(Choices(remaining, stopAllowed), -1, endAgain) == ("5", false)
    ensures remaining.Some? ==> VarExtension(Choices(remaining, stopAllowed), 7, endAgain) == (endAgain, false)
    ensures stopAllowed ==>
      var c := Choices(remaining, stopAllowed);
      VarExtension(c, |c| - 1, endAgain) == ("0", true)
  {
  }
}
