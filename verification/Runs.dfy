/** platform/domain.go's evaluation run and its life cycle, and the store's check that a write is one of its transitions. */
module Runs {
  import opened Collector

  datatype RunStatus = RunPending | RunRunning | RunCompleted | RunFailed | RunCancelled | RunUnrecognized

  /** An instant; zero is Go's zero time and an earlier one is negative. */
  type Time = int

  datatype EvaluationRun = EvaluationRun(
    environment: string, profile: string, status: RunStatus,
    createdAt: Time, startedAt: Time, finishedAt: Time, failureReason: string)

  datatype Transition = Moved(run: EvaluationRun) | NotAllowed

  predicate IsTerminal(s: RunStatus) {
    s.RunCompleted? || s.RunFailed? || s.RunCancelled?
  }

  predicate TransitionAllowed(from: RunStatus, to: RunStatus) {
    match from
    case RunPending => to.RunRunning? || to.RunCancelled?
    case RunRunning => to.RunCompleted? || to.RunFailed? || to.RunCancelled?
    case _ => false
  }

  predicate NotBefore(at: Time, than: Time) {
    at != 0 && at >= than
  }

  function Start(r: EvaluationRun, at: Time): Transition {
    if TransitionAllowed(r.status, RunRunning) && NotBefore(at, r.createdAt) then Moved(r.(status := RunRunning, startedAt := at))
    else NotAllowed
  }

  /** Complete, Fail and Cancel: a run cancelled while pending is ordered against its creation. */
  function Finish(r: EvaluationRun, to: RunStatus, at: Time, reason: string): Transition {
    if !TransitionAllowed(r.status, to) then NotAllowed
    else if reason != "" && !ValidText(reason) then NotAllowed
    else if !NotBefore(at, if r.startedAt == 0 then r.createdAt else r.startedAt) then NotAllowed
    else Moved(r.(status := to, finishedAt := at, failureReason := reason))
  }

  /** The transition the target status names, asked of the domain. */
  function Produced(previous: EvaluationRun, next: EvaluationRun): Transition {
    match next.status
    case RunRunning => Start(previous, next.startedAt)
    case RunCompleted => Finish(previous, RunCompleted, next.finishedAt, "")
    case RunFailed => Finish(previous, RunFailed, next.finishedAt, next.failureReason)
    case RunCancelled => Finish(previous, RunCancelled, next.finishedAt, "")
    case _ => NotAllowed
  }

  predicate ValidTransition(previous: EvaluationRun, next: EvaluationRun) {
    Produced(previous, next) == Moved(next)
  }

  function Rank(s: RunStatus): nat {
    if s.RunPending? then 0 else if s.RunRunning? then 1 else 2
  }

  /** A life cycle only moves forward, and what identifies the run never changes. */
  lemma TransitionMovesForward(previous: EvaluationRun, next: EvaluationRun)
    ensures ValidTransition(previous, next) ==>
              && Rank(previous.status) < Rank(next.status) && !IsTerminal(previous.status)
              && next.environment == previous.environment && next.profile == previous.profile
              && next.createdAt == previous.createdAt
  {
  }

  /** Exactly the writes that are transitions: nothing that identifies the run changes; a pending run starts no earlier than it
      was created; a running one completes, fails or is cancelled, or a pending one is cancelled, no earlier than it began
      or, never having begun, was created; and only a failure carries a reason. */
  lemma TransitionIff(previous: EvaluationRun, next: EvaluationRun)
    ensures ValidTransition(previous, next) <==>
            && next.environment == previous.environment && next.profile == previous.profile && next.createdAt == previous.createdAt
            && (if previous.status == RunPending && next.status == RunRunning
                then next.startedAt != 0 && previous.createdAt <= next.startedAt
                     && next.finishedAt == previous.finishedAt && next.failureReason == previous.failureReason
                else
                  && (|| (previous.status == RunPending && next.status == RunCancelled)
                      || (previous.status == RunRunning && (next.status == RunCompleted || next.status == RunFailed || next.status == RunCancelled)))
                  && next.startedAt == previous.startedAt && next.finishedAt != 0
                  && (if previous.startedAt == 0 then previous.createdAt else previous.startedAt) <= next.finishedAt
                  && (if next.status == RunFailed then next.failureReason == "" || ValidText(next.failureReason)
                      else next.failureReason == ""))
  {
  }
}
