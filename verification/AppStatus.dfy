/** The status column of the installed_apps table. */
module AppStatus {

  datatype Status =
    | Unknown
    | InstallationQueued
    | Installing
    | Stopped
    | Running
    | Paused
    | UninstallationQueued
    | Uninstalling
    | ReinstallationQueued
    | Reinstalling
    | Down
    | Error

  /** The statuses a lifecycle revive may act on. */
  predicate Revivable(status: Status) {
    status.Stopped? || status.Running? || status.Down? || status.Paused?
  }

  /** What docker reports for the containers of one app, taken together. */
  datatype StackState = AllRunning | SomePaused | Exited | Missing
}
