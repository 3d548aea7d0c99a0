/** Task runs: their status graph and the guarded updates that move them. */
module Runs {
  import opened Options

  datatype RunStatus = Pending | Running | Success | Partial | Failed | Cancelled

  /** validRunTransitions: the moves changeTaskRunStatusWith accepts. */
  predicate TransitionAllowed(from: RunStatus, to: RunStatus) {
    match from
    case Pending => to == Running || to == Cancelled
    case Running => to == Success || to == Partial || to == Failed || to == Cancelled
    case _ => false
  }

  predicate Closed(status: RunStatus) {
    !status.Pending? && !status.Running?
  }

  /** One edge of the life of a run: the checked transitions and the failed dispatch. */
  predicate LifeEdge(from: RunStatus, to: RunStatus) {
    TransitionAllowed(from, to) || (from == Pending && to == Failed)
  }

  /** A task_run row. `lifecyclePasses` counts the committed asset lifecycle passes of the run. */
  datatype Run = Run(status: RunStatus, resultCount: nat, jobId: nat, lifecyclePasses: nat)

  /** What a completed pull of an active run's results reports. */
  datatype Summary = Summary(facts: nat, targets: nat, totalTargets: int, finishedTargets: int)

  /** Every target finished and every target answered. */
  predicate Complete(pulled: Summary) {
    pulled.finishedTargets == pulled.totalTargets == pulled.targets
  }

  /** The compare-and-set UPDATE behind each Mark method: it applies only to a row whose status
      is still `from`. Cancelling keeps the stored count; every other close overwrites it. */
  function MarkRun(run: Run, from: RunStatus, to: RunStatus, count: nat): Option<Run> {
    if run.status != from || !TransitionAllowed(from, to) then None
    else if to == Running || to == Cancelled then Some(run.(status := to))
    else Some(run.(status := to, resultCount := count))
  }
}
