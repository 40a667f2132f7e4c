/**
 * The terminal dispatch: the final exit mode becomes one deferred power
 * action, which the caller runs only after all output is written.
 */
module PowerActions {
  import ExitModes
  import opened Wrappers

  /** What a deferred action does once invoked. */
  datatype PendingAction =
    | SetSuspendState(hibernate: bool, forceCritical: bool, disableWakeEvent: bool)
    | StartProcess(fileName: string, arguments: string, createNoWindow: bool, useShellExecute: bool)

  /** What the dispatch reports: the success flag it logs and the action it defers. */
  datatype Dispatched = Dispatched(success: bool, onEnd: Option<PendingAction>)

  /** The one fault the dispatch can raise: the sentinel mode reached it. */
  datatype Fault = ArgumentOutOfRange

  /** Suspend, not hibernate, forced, with wake events disabled. */
  const SuspendAction: PendingAction := SetSuspendState(false, true, true)

  /** A detached `shutdown` run without a window. */
  function ShutdownCommand(arguments: string): PendingAction
  {
    StartProcess("shutdown", arguments, true, false)
  }

  function Sleep(): Dispatched
  {
    Dispatched(true, Some(SuspendAction))
  }

  function ShutDown(): Dispatched
  {
    Dispatched(true, Some(ShutdownCommand("/s /t 0")))
  }

  function Reboot(): Dispatched
  {
    Dispatched(true, Some(ShutdownCommand("/r /t 0")))
  }

  /** Cancelling defers nothing and leaves the success flag as it was, true. */
  function Cancel(): Dispatched
  {
    Dispatched(true, None)
  }

  /** The mode that a deferred action carries out: the inverse of the dispatch. */
  function ModeOf(a: PendingAction): ExitModes.ExitMode
  {
    match a
    case SetSuspendState(_, _, _) => ExitModes.Sleep
    case StartProcess(_, args, _, _) => if args == "/r /t 0" then ExitModes.Reboot else ExitModes.ShutDown
  }

  /**
   * The switch over the final mode. Only the sentinel faults; every other
   * mode reports success, and a deferred action exists exactly for the three
   * working modes, an action that carries out that very mode.
   */
  function Dispatch(mode: ExitModes.ExitMode): (r: Result<Dispatched, Fault>)
    ensures r.Failure? <==> mode == ExitModes.None
    ensures r.Success? ==> r.value.success
    ensures r.Success? ==> (r.value.onEnd.Some? <==> ExitModes.IsWorking(mode))
    ensures r.Success? && r.value.onEnd.Some? ==> ModeOf(r.value.onEnd.value) == mode
  {
    match mode
    case Cancel => Success(Cancel())
    case Sleep => Success(Sleep())
    case ShutDown => Success(ShutDown())
    case Reboot => Success(Reboot())
    case None => Failure(ArgumentOutOfRange)
  }

  /** The concrete commands each working mode defers. */
  lemma DispatchedCommands()
    ensures Dispatch(ExitModes.Sleep) == Success(Dispatched(true, Some(SetSuspendState(false, true, true))))
    ensures Dispatch(ExitModes.ShutDown) == Success(Dispatched(true, Some(StartProcess("shutdown", "/s /t 0", true, false))))
    ensures Dispatch(ExitModes.Reboot) == Success(Dispatched(true, Some(StartProcess("shutdown", "/r /t 0", true, false))))
    ensures Dispatch(ExitModes.Cancel) == Success(Dispatched(true, None))
  {
  }
}
