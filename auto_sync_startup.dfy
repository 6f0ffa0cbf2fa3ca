// The service start of the new add-on (`run_startup` in auto_ftp_sync.py):
// which steps run, in which order, under the abort checks, and the periodic
// favourites sync that follows.  Each step's own effect is modelled where the
// step is defined; here a run is the trace of steps it starts.

module AutoSyncStartup {

  /** The steps `run_startup` can start. */
  datatype Step = AutoClean | EnsureStructure | AddonData | Favourites | RandomImage | ClearThumbs
                | PeriodicFavourites

  /** What one periodic round sees: whether the wait was ended by an abort,
      and the settings reloaded after it. */
  datatype Tick = Tick(aborted: bool, enabled: bool, custom: string)

  /** The answer of the k-th `abortRequested()` check of the start sequence;
      checks beyond the given answers report no abort. */
  predicate AbortAt(checks: seq<bool>, k: nat)
  {
    k < |checks| && checks[k]
  }

  /** Kodi's abort flag never clears once set. */
  predicate Sticky(checks: seq<bool>)
  {
    forall i, j :: 0 <= i <= j < |checks| && checks[i] ==> checks[j]
  }

  /** A step guarded by `if <skip>: pass else: <step>`. */
  function StepUnless(skip: bool, s: Step): (r: seq<Step>)
    ensures |r| <= 1 && (s in r <==> !skip)
  {
    if skip then [] else [s]
  }

  /** The one-off steps: each runs unless the check before it reports an abort;
      the two remote steps also need a configured connection. */
  function FirstSteps(connected: bool, checks: seq<bool>): seq<Step>
  {
    StepUnless(AbortAt(checks, 0), AutoClean)
    + StepUnless(AbortAt(checks, 1) || !connected, EnsureStructure)
    + StepUnless(AbortAt(checks, 2) || !connected, AddonData)
    + StepUnless(AbortAt(checks, 3), Favourites)
    + StepUnless(AbortAt(checks, 4), RandomImage)
    + StepUnless(AbortAt(checks, 5), ClearThumbs)
  }

  /** The periodic loop: every wait that is not ended by an abort is followed
      by a favourites sync, unless the reloaded settings disable the sync or
      have no custom folder. */
  function Periodic(ticks: seq<Tick>): seq<Step>
    decreases |ticks|
  {
    if |ticks| == 0 || ticks[0].aborted then []
    else (if ticks[0].enabled && ticks[0].custom != "" then [PeriodicFavourites] else []) + Periodic(ticks[1..])
  }

  /** `run_startup`: nothing when the sync is disabled; otherwise the one-off
      steps, then the periodic loop when the sixth check reports no abort and
      the interval is positive. */
  function StartupTrace(enabled: bool, connected: bool, interval: int, checks: seq<bool>, ticks: seq<Tick>): seq<Step>
  {
    if !enabled then []
    else FirstSteps(connected, checks) + (if !AbortAt(checks, 6) && interval > 0 then Periodic(ticks) else [])
  }

  /** The periodic loop on its rounds. */
  method RunPeriodic(ticks: seq<Tick>) returns (trace: seq<Step>)
    ensures trace == Periodic(ticks)
  {
    trace := [];
    var i := 0;
    while i < |ticks| && !ticks[i].aborted
      invariant 0 <= i <= |ticks|
      invariant trace + Periodic(ticks[i..]) == Periodic(ticks)
    {
      assert ticks[i..][1..] == ticks[i + 1..];
      if ticks[i].enabled && ticks[i].custom != "" {
        trace := trace + [PeriodicFavourites];
      }
      i := i + 1;
    }
    assert trace + [] == trace;
  }

  method RunStartup(enabled: bool, connected: bool, interval: int, checks: seq<bool>, ticks: seq<Tick>)
    returns (trace: seq<Step>)
    ensures trace == StartupTrace(enabled, connected, interval, checks, ticks)
  {
    if !enabled {
      return [];
    }
    trace := StepUnless(AbortAt(checks, 0), AutoClean);
    trace := trace + StepUnless(AbortAt(checks, 1) || !connected, EnsureStructure);
    trace := trace + StepUnless(AbortAt(checks, 2) || !connected, AddonData);
    trace := trace + StepUnless(AbortAt(checks, 3), Favourites);
    trace := trace + StepUnless(AbortAt(checks, 4), RandomImage);
    trace := trace + StepUnless(AbortAt(checks, 5), ClearThumbs);
    if !AbortAt(checks, 6) && interval > 0 {
      var periodic := RunPeriodic(ticks);
      trace := trace + periodic;
    } else {
      assert trace + [] == trace;
    }
  }

  /** A disabled sync starts nothing. */
  lemma DisabledStartsNothing(connected: bool, interval: int, checks: seq<bool>, ticks: seq<Tick>)
    ensures StartupTrace(false, connected, interval, checks, ticks) == []
  {
  }

  /** Without a configured connection neither the folder structure nor the
      add-on data is touched at start. */
  lemma NoRemoteStepsWithoutConnection(enabled: bool, interval: int, checks: seq<bool>, ticks: seq<Tick>)
    ensures var t := StartupTrace(enabled, false, interval, checks, ticks);
            EnsureStructure !in t && AddonData !in t
  {
    if enabled {
      var f := FirstSteps(false, checks);
      assert EnsureStructure !in f && AddonData !in f;
      PeriodicOnlyFavourites(ticks);
    }
  }

  /** The periodic loop starts nothing but favourites syncs. */
  lemma {:induction false} PeriodicOnlyFavourites(ticks: seq<Tick>)
    ensures forall k :: 0 <= k < |Periodic(ticks)| ==> Periodic(ticks)[k] == PeriodicFavourites
    decreases |ticks|
  {
    if |ticks| > 0 && !ticks[0].aborted {
      PeriodicOnlyFavourites(ticks[1..]);
    }
  }

  /** With no abort, an enabled service with a connection runs every one-off
      step in the source's order. */
  lemma FullStart(connected: bool, checks: seq<bool>)
    requires connected && forall k :: 0 <= k < |checks| ==> !checks[k]
    ensures FirstSteps(connected, checks) == [AutoClean, EnsureStructure, AddonData, Favourites, RandomImage, ClearThumbs]
  {
  }

  /** The loop starts at most one sync per round, and none from the first
      aborted round on. */
  lemma {:induction false} PeriodicStopsAtAbort(ticks: seq<Tick>, k: nat)
    requires k < |ticks| && ticks[k].aborted
    ensures |Periodic(ticks)| <= k
    decreases k
  {
    if k > 0 && !ticks[0].aborted {
      assert ticks[1..][k - 1] == ticks[k];
      PeriodicStopsAtAbort(ticks[1..], k - 1);
    }
  }

  /** With the sticky abort flag, an abort seen at check k means at most k
      one-off steps ran and the periodic loop never started. */
  lemma StickyAbortStopsStart(enabled: bool, connected: bool, interval: int, checks: seq<bool>, ticks: seq<Tick>, k: nat)
    requires Sticky(checks) && |checks| >= 7 && k <= 6 && checks[k]
    ensures |StartupTrace(enabled, connected, interval, checks, ticks)| <= k
  {
    assert forall i :: k <= i <= 6 ==> AbortAt(checks, i);
  }
}
