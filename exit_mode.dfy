/** The program's exit intents (the `ExitMode` enumeration of Program.cs). */
module ExitModes {

  /** `None` is the pre-loop sentinel; the other four are the intents a run can end in. */
  datatype ExitMode = None | Cancel | Sleep | ShutDown | Reboot

  /** The three modes that name a power action: the modes the countdown works in. */
  predicate IsWorking(m: ExitMode)
  {
    m == Sleep || m == ShutDown || m == Reboot
  }
}
