/** The statuses of a run, as the run's row stores them. */
module RunStatus {

  datatype Status =
    | Queued | Claimed | Collecting | Compiling | Rendering | Verifying | Completed | Failed

  predicate IsTerminal(status: Status) {
    status == Completed || status == Failed
  }
}
