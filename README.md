# WinSleeper countdown, modelled in Dafny

WinSleeper is a console utility that counts down two seconds and then puts
the machine to sleep, shuts it down or reboots it, unless the user cancels.
This project models the countdown controller of `Program.cs`:

- the exit modes (`None`, `Cancel`, `Sleep`, `ShutDown`, `Reboot`);
- the entry rule. Between 0:30 and 8:00 the default Sleep is escalated to
  ShutDown and the auto-switch flag is set, unless a process on the
  block-list (`steam`, `rider`) is running;
- the per-poll key rules, checked in this order:
  - ESC cancels and leaves the loop;
  - ADD switches to Reboot;
  - Enter switches between Sleep and ShutDown, in the direction the
    auto-switch flag selects;
  - each real mode change restarts the stopwatch;
- the loop that polls until the stopwatch reaches the timeout;
- the final switch that maps the mode to one deferred power action;
- the block-list filter over the running processes' names.

Files and modules:

| file | module | contents |
|---|---|---|
| `exit_mode.dfy` | `ExitModes` | the mode enumeration |
| `process_filter.dfy` | `ProcessFilter` | case-insensitive substring match, block-list filter |
| `power_actions.dfy` | `PowerActions` | deferred actions as values, the dispatch switch |
| `countdown.dfy` | `Countdown` | key states, the three rules, one poll (`Tick`), the loop (`Run`) |
| `perform_exit.dfy` | `Exit` | the entry rule, `PerformExit` as an imperative loop, end-to-end lemmas |
| `wrappers.dfy` | `Wrappers` | `Option` and `Result` |

The operating system sits at the edges and becomes input:

- the time of day is a parameter;
- the process table is a list of process names;
- the keyboard is a sequence of per-poll samples. Each sample holds the
  16-bit key-state words of ESC, ADD and Enter;
- the suspend call and the `shutdown` launches become a returned
  `PendingAction` value, which the caller runs after all output.

All durations and times of day are counted in TimeSpan ticks of 100 ns.
The timeout is 2 s and the polling delay 50 ms.

`PerformExit` is a method. It runs the entry rule on its local mode,
stopwatch and flag, then the polling loop, then the dispatch switch. The
loop is the method `RunCountdown`, the source's `while` loop over those
locals with the three key rules written out. Each method is proved equal to
a function:

- `RunCountdown` equals `Run`, which folds `Tick` (one poll) over the
  samples;
- `PerformExit` equals `ExitSpec`, which is built from `Start` (the entry
  rule), `Run` and `Dispatch` (the final switch).

The properties are proved about those functions.

The escalation window is closed at both ends (`0:30 <= t <= 8:00`), as the
code's comparison is written. A half-open window `[0:30, 8:00)` would
exclude 8:00 itself; the model follows the code.

## Model

| member | source | states |
|---|---|---|
| `ProcessFilter.RunningProhibited` | Program.cs:293-298 | the result holds only running names that match some block-list entry ignoring case; each matching name is kept as often as it runs, every other name is dropped |
| `ProcessFilter.RunningProhibitedAppend` | Program.cs:295-297 | filtering distributes over concatenation, so the original order is kept |
| `ProcessFilter.RunningProhibitedIdempotent` | Program.cs:295-297 | filtering an already filtered list changes nothing |
| `ProcessFilter.CheckForProhibitedProcesses` | Program.cs:300-304 | reports true exactly when some running process matches the block-list, and returns the filtered list |
| `ProcessFilter.Fold` | Program.cs:296 | folding keeps the length, leaves no upper-case ASCII letter and changes no other character |
| `ProcessFilter.FoldCharAlike` | Program.cs:296 | two characters compare equal ignoring case exactly when they are equal or the two cases of one ASCII letter |
| `ProcessFilter.ContainsIgnoresCase` | Program.cs:296 | the match ignores case: folding the name first gives the same answer |
| `ProcessFilter.SteamHelperAndRiderAreProhibited` | Program.cs:17 | processes named `SteamWebHelper` and `Rider64` match the block-list despite case |
| `ProcessFilter.ExplorerIsAllowed` | Program.cs:17 | a process named `explorer` does not match the block-list |
| `ProcessFilter.SteamAndRiderAreBlocked` | Program.cs:293-298 | filtering `explorer`, `SteamWebHelper`, `Rider64` keeps the last two, in order |
| `PowerActions.Dispatch` | Program.cs:206-229 | only `None` faults; every other mode reports success; an action is deferred exactly for Sleep, ShutDown and Reboot, and that action carries out the same mode |
| `PowerActions.DispatchedCommands` | Program.cs:235-291 | Sleep defers suspend(false, true, true); ShutDown defers `shutdown /s /t 0`; Reboot defers `shutdown /r /t 0`, both without a window and without shell execution; Cancel defers nothing |
| `Countdown.OnAdd` | Program.cs:167-174 | with ADD pressed the mode becomes Reboot, otherwise it is unchanged; the stopwatch restarts exactly when the mode changes; the auto-switch flag is kept |
| `Countdown.OnEnter` | Program.cs:176-197 | Enter acts only on states other than 0 and 1. With auto-switch it only turns ShutDown into Sleep; without it the result is always ShutDown. The stopwatch restarts exactly when the mode changes |
| `Countdown.Tick` | Program.cs:158-199 | a poll cancels exactly when ESC is pressed, changing only the mode; otherwise it keeps the flag, keeps a working mode working, and either advances the stopwatch by one delay or restarts it, the latter only when ADD or Enter fired |
| `Countdown.RunCountdown` | Program.cs:137-200 | the imperative polling loop stops exactly where `Run` says, in the same state and after the same number of samples |
| `Countdown.Run` | Program.cs:137-200 | the loop leaves by timeout only with elapsed at least the timeout, by ESC only in Cancel, and runs out of samples only while still below the timeout; the flag is never changed; from a working mode, a loop not left by ESC ends in a working mode |
| `Countdown.EscIsLastSample` | Program.cs:158-165 | the loop leaves by ESC exactly when the last sample it consumed had ESC pressed; no earlier consumed sample had ESC pressed |
| `Countdown.CancelIffEsc` | Program.cs:137-165 | from a working mode, the loop ends in Cancel exactly when it left by ESC |
| `Countdown.IdleRunsOut` | Program.cs:137-200 | with nothing pressed and enough polls, the loop times out with mode and flag unchanged and elapsed advanced by one delay per poll |
| `Countdown.IdleKeepsCounting` | Program.cs:137-200 | with nothing pressed and too few polls, the countdown is still running in the same mode |
| `Countdown.IdleThenEsc` | Program.cs:158-165 | after any number of idle polls below the timeout, ESC ends the loop at once in Cancel |
| `Countdown.AddThenEnterEndsInShutDown` | Program.cs:167-197 | without auto-switch, ADD and Enter in one poll end in ShutDown with the stopwatch restarted, even from ShutDown |
| `Countdown.AddThenEnterAfterAutoSwitch` | Program.cs:167-188 | with auto-switch, ADD and Enter in one poll end in Reboot |
| `Countdown.AddAndEnterHeldNeverTimesOut` | Program.cs:137-197 | holding ADD and Enter without auto-switch keeps the countdown from ever timing out |
| `Countdown.OvershootBelowOneDelay` | Program.cs:137-199 | the stopwatch never passes the timeout by a whole polling delay |
| `Exit.Start` | Program.cs:108-135 | the stopwatch starts at 0. Auto-switch is set exactly inside the closed 0:30-8:00 window with no prohibited process running, and the mode is then ShutDown, otherwise Sleep. A blocked escalation reports exactly the filtered process list |
| `Exit.ExitSpecOutcome` | Program.cs:102-233 | a run never faults, so the sentinel never reaches the dispatch. A completed run reports success, ends in Cancel exactly when ESC was seen in a consumed poll, and defers an action exactly when not cancelled. A run still counting has seen no ESC |
| `Exit.PerformExit` | Program.cs:102-233 | the imperative countdown (entry rule, loop, dispatch switch) computes exactly `ExitSpec`; its `None` branch is proved unreachable |
| `Exit.IdleRunDispatchesEntryMode` | Program.cs:137-229 | polls with nothing pressed up to the timeout dispatch the mode chosen at entry, with success |
| `Exit.QuietDaytimeRunSuspends` | Program.cs:108-233 | outside the window, forty quiet polls end in Sleep with a deferred suspend(false, true, true) |
| `Exit.QuietNightRunShutsDown` | Program.cs:115-135 | inside the window with nothing prohibited, forty quiet polls end in ShutDown with a deferred `shutdown /s /t 0` |
| `Exit.EscOnFourthPollCancels` | Program.cs:158-165 | ESC on the fourth poll (150 ms in) ends in Cancel with nothing deferred |
| `Exit.BlockedNightEntry` | Program.cs:119-125 | at night with Steam and Rider running, escalation is blocked, both are reported, and the run stays in Sleep without auto-switch |
| `Exit.BlockedNightRunSuspends` | Program.cs:119-233 | that blocked night run, left alone for forty polls, ends in Sleep with a deferred suspend |

## Left out

- Win32 calls (`GetAsyncKeyState`, `SetSuspendState`, `ShowWindow`): foreign code. Key states are inputs, and the suspend call is the `SetSuspendState` action value. The suspend call's own boolean result is not read by the source either.
- `Process.GetProcesses` and `Process.Start`: OS process I/O. The process table is a list of names, and launches are `StartProcess` action values.
- Countdown.Run: models a finite prefix of the key samples. When the samples run out before the timeout or ESC, the outcome is `StillCounting`, not a dispatch. The source can poll forever (`Countdown.AddAndEnterHeldNeverTimesOut`).
- Countdown.Tick: one poll advances the stopwatch by exactly the 50 ms delay. The time the loop body itself takes, and any lateness of `Task.Delay`, is not modelled. The time between starting the stopwatch and entering the loop is not counted either.
- ProcessFilter.ContainsIgnoreCase: folds only ASCII letters. It is not the culture-invariant case folding .NET applies to other scripts.
- Console output: the banners, the progress bar, its `double` arithmetic and colours, and the success/info lines. The model assumes the display code never throws. Two statements can end `PerformExit` before the dispatch, so that nothing is deferred, and the model has no outcome for either:
  - `Console.SetCursorPosition(0, Console.CursorTop - 1)` (Program.cs:128, 169, 182, 191) throws when the process has no console;
  - `new(' ', 50 - progress / 2)` (Program.cs:144) gets a negative count when the stopwatch, read again at Program.cs:139, has already passed 2.04 s although the loop test at Program.cs:137 saw it below 2 s.
- The log file: its records (`TimerStarted`, `ShutdownBlocked`, `AutoSwitch`, `KeyPressed`, `ProgramEnded`), their formatting and swallowed write errors. The blocked-process list that `ShutdownBlocked` records is kept as `Exit.Entry.blocked`.
- `Main`'s `--startup` and `--shutdown` paths: they only toggle the window and write log lines.
- The `#if DEBUG` bodies of the deferred actions: a debug build prints instead of acting.
- `async`/`Task.Delay` scheduling: it has no logical content beyond the fixed delay per poll.
