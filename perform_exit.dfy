/**
 * The whole countdown run: the time-of-day escalation at entry, the polling
 * loop, and the dispatch of the final mode to one deferred power action.
 *
 * The keyboard, the clock and the process table are inputs: a time of day,
 * the names of the running processes, and the key states of each poll in
 * order.
 */
module Exit {
  import opened ExitModes
  import Wrappers
  import opened Countdown
  import ProcessFilter
  import PowerActions

  const TicksPerDay: nat := 24 * 60 * 60 * 1000 * TicksPerMillisecond

  /** 0:30, the start of the night-time escalation window. */
  const WindowStart: nat := 30 * 60 * 1000 * TicksPerMillisecond

  /** 8:00, the end of the window, itself still inside it. */
  const WindowEnd: nat := 8 * 60 * 60 * 1000 * TicksPerMillisecond

  /** A time of day, counted in ticks since midnight. */
  type TimeOfDay = t: nat | t < TicksPerDay

  predicate InEscalationWindow(t: TimeOfDay)
  {
    WindowStart <= t <= WindowEnd
  }

  /** Some running process is on the block-list. */
  predicate AnyProhibitedRunning(running: seq<string>)
  {
    exists p :: p in running && ProcessFilter.IsProhibited(p, ProcessFilter.ProhibitedProcesses)
  }

  /** The state the loop starts from, and the processes reported when the escalation was blocked. */
  datatype Entry = Entry(state: Countdown, blocked: seq<string>)

  /**
   * The entry rule. The countdown starts in Sleep with a fresh stopwatch.
   * Inside the window, and only when no prohibited process runs, it is
   * escalated to ShutDown and remembers that it was; a blocked escalation
   * reports exactly the prohibited processes.
   */
  function Start(timeOfDay: TimeOfDay, running: seq<string>): (e: Entry)
    ensures e.state.elapsed == 0
    ensures e.state.isAutoSwitch <==> InEscalationWindow(timeOfDay) && !AnyProhibitedRunning(running)
    ensures e.state.mode == (if e.state.isAutoSwitch then ShutDown else Sleep)
    ensures e.blocked != [] <==> InEscalationWindow(timeOfDay) && AnyProhibitedRunning(running)
    ensures e.blocked != [] ==> e.blocked == ProcessFilter.RunningProhibited(running, ProcessFilter.ProhibitedProcesses)
  {
    var initial := Countdown(Sleep, 0, false);
    if InEscalationWindow(timeOfDay) then
      var (found, processes) := ProcessFilter.CheckForProhibitedProcesses(running, ProcessFilter.ProhibitedProcesses);
      if found then Entry(initial, processes) else Entry(Countdown(ShutDown, 0, true), [])
    else
      Entry(initial, [])
  }

  /**
   * What a run comes to: the final mode with the success flag and the
   * deferred action; the fault of the sentinel reaching the dispatch; or a
   * countdown still running when the polls ran out.
   */
  datatype Outcome =
    | Completed(mode: ExitMode, success: bool, onEnd: Wrappers.Option<PowerActions.PendingAction>)
    | Faulted(fault: PowerActions.Fault)
    | StillCounting(state: Countdown)

  /** Did ESC show in one of the first `n` polls? */
  predicate EscWithin(keys: seq<KeySample>, n: nat)
    requires n <= |keys|
  {
    exists i :: 0 <= i < n && IsPressed(keys[i].escape)
  }

  /** The run as a specification: entry rule, loop, then dispatch of the final mode. */
  function ExitSpec(timeOfDay: TimeOfDay, running: seq<string>, keys: seq<KeySample>): Outcome
  {
    var end := Run(Start(timeOfDay, running).state, keys, 0);
    if end.how == SamplesExhausted then
      StillCounting(end.state)
    else
      match PowerActions.Dispatch(end.state.mode)
      case Success(d) => Completed(end.state.mode, d.success, d.onEnd)
      case Failure(f) => Faulted(f)
  }

  /**
   * A run never faults: the sentinel mode never reaches the dispatch. A
   * completed run reports success, ends in Cancel exactly when ESC was seen
   * in a consumed poll, and defers an action exactly when it did not end in
   * Cancel. A run still counting has seen no ESC at all.
   */
  lemma ExitSpecOutcome(timeOfDay: TimeOfDay, running: seq<string>, keys: seq<KeySample>)
    ensures var r := ExitSpec(timeOfDay, running, keys);
      && !r.Faulted?
      && (r.Completed? ==> r.success)
      && (r.Completed? ==> (r.mode == Cancel <==> r.onEnd.None?))
      && (r.Completed? ==> (r.mode == Cancel <==> EscWithin(keys, Run(Start(timeOfDay, running).state, keys, 0).next)))
      && (r.StillCounting? ==> !EscWithin(keys, |keys|))
  {
    var start := Start(timeOfDay, running).state;
    var end := Run(start, keys, 0);
    EscIsLastSample(start, keys, 0);
    if end.how == SamplesExhausted {
      assert !EscWithin(keys, |keys|) by {
        forall i | 0 <= i < |keys| ensures !IsPressed(keys[i].escape) {
          assert i < end.next - 1 || i == end.next - 1;
        }
      }
    } else {
      assert IsWorking(end.state.mode) || end.state.mode == Cancel;
      assert end.state.mode == Cancel <==> EscWithin(keys, end.next);
    }
  }

  /**
   * The program's countdown: escalate or not, poll until the timeout or ESC,
   * then dispatch the final mode.
   */
  method PerformExit(timeOfDay: TimeOfDay, running: seq<string>, keys: seq<KeySample>) returns (r: Outcome)
    ensures r == ExitSpec(timeOfDay, running, keys)
  {
    var mode := Sleep;
    var elapsed: Ticks := 0;
    var isAutoSwitch := false;

    if InEscalationWindow(timeOfDay) {
      var (found, _) := ProcessFilter.CheckForProhibitedProcesses(running, ProcessFilter.ProhibitedProcesses);
      if !found {
        elapsed := 0;
        mode := ShutDown;
        isAutoSwitch := true;
      }
    }

    assert Countdown(mode, elapsed, isAutoSwitch) == Start(timeOfDay, running).state;
    var end := RunCountdown(Countdown(mode, elapsed, isAutoSwitch), keys);
    if end.how == SamplesExhausted {
      return StillCounting(end.state);
    }
    mode := end.state.mode;

    var success := true;
    var onEnd: Wrappers.Option<PowerActions.PendingAction> := Wrappers.None;
    match mode {
      case Cancel =>
      case Sleep =>
        var d := PowerActions.Sleep();
        success, onEnd := d.success, d.onEnd;
      case ShutDown =>
        var d := PowerActions.ShutDown();
        success, onEnd := d.success, d.onEnd;
      case Reboot =>
        var d := PowerActions.Reboot();
        success, onEnd := d.success, d.onEnd;
      case None =>
        assert false;
    }
    r := Completed(mode, success, onEnd);
  }

  /**
   * Polling with nothing pressed until the timeout dispatches the mode the
   * entry rule chose, with success and the matching deferred action.
   */
  lemma IdleRunDispatchesEntryMode(timeOfDay: TimeOfDay, running: seq<string>, keys: seq<KeySample>)
    requires IdleBetween(keys, 0, |keys|)
    requires |keys| * KeyCheckDelay >= Timeout
    ensures var mode := Start(timeOfDay, running).state.mode;
      ExitSpec(timeOfDay, running, keys) == Completed(mode, true, PowerActions.Dispatch(mode).value.onEnd)
  {
    IdleRunsOut(Start(timeOfDay, running).state, keys, 0);
  }

  /** Outside the window, forty quiet polls (two seconds) put the machine to sleep. */
  lemma QuietDaytimeRunSuspends(timeOfDay: TimeOfDay, running: seq<string>, keys: seq<KeySample>)
    requires !InEscalationWindow(timeOfDay)
    requires |keys| == 40 && IdleBetween(keys, 0, 40)
    ensures ExitSpec(timeOfDay, running, keys) == Completed(Sleep, true, Wrappers.Some(PowerActions.SetSuspendState(false, true, true)))
  {
    IdleRunDispatchesEntryMode(timeOfDay, running, keys);
  }

  /** Inside the window with nothing blocking, the same quiet run shuts the machine down. */
  lemma QuietNightRunShutsDown(timeOfDay: TimeOfDay, keys: seq<KeySample>)
    requires InEscalationWindow(timeOfDay)
    requires |keys| == 40 && IdleBetween(keys, 0, 40)
    ensures ExitSpec(timeOfDay, [], keys) == Completed(ShutDown, true, Wrappers.Some(PowerActions.StartProcess("shutdown", "/s /t 0", true, false)))
  {
    IdleRunDispatchesEntryMode(timeOfDay, [], keys);
  }

  /** ESC on the fourth poll, 150 ms in, cancels the run: nothing is deferred. */
  lemma EscOnFourthPollCancels(timeOfDay: TimeOfDay, running: seq<string>, keys: seq<KeySample>)
    requires |keys| > 3 && IdleBetween(keys, 0, 3) && IsPressed(keys[3].escape)
    ensures ExitSpec(timeOfDay, running, keys) == Completed(Cancel, true, Wrappers.None)
  {
    IdleThenEsc(Start(timeOfDay, running).state, keys, 0, 3);
  }

  /**
   * At night with Steam and Rider running, the escalation is blocked: both
   * are reported and the run stays in Sleep without auto-switch.
   */
  lemma BlockedNightEntry(timeOfDay: TimeOfDay)
    requires InEscalationWindow(timeOfDay)
    ensures Start(timeOfDay, ["explorer", "SteamWebHelper", "Rider64"])
         == Entry(Countdown(Sleep, 0, false), ["SteamWebHelper", "Rider64"])
  {
    var running := ["explorer", "SteamWebHelper", "Rider64"];
    ProcessFilter.SteamHelperAndRiderAreProhibited();
    assert running[1] in running;
    assert AnyProhibitedRunning(running);
    ProcessFilter.SteamAndRiderAreBlocked();
  }

  /** The blocked night run, left alone, suspends. */
  lemma BlockedNightRunSuspends(timeOfDay: TimeOfDay, keys: seq<KeySample>)
    requires InEscalationWindow(timeOfDay)
    requires |keys| == 40 && IdleBetween(keys, 0, 40)
    ensures ExitSpec(timeOfDay, ["explorer", "SteamWebHelper", "Rider64"], keys)
         == Completed(Sleep, true, Wrappers.Some(PowerActions.SetSuspendState(false, true, true)))
  {
    BlockedNightEntry(timeOfDay);
    IdleRunDispatchesEntryMode(timeOfDay, ["explorer", "SteamWebHelper", "Rider64"], keys);
  }
}
