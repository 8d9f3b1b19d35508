/**
 The phase transitions of a tracked pod: what the worker does, compared with the table that the
 simulation's checker allows; and how long a failed attempt keeps a pod waiting.
 */
module Transitions {
  import opened Basics
  import opened Messages
  import opened Lifecycle
  import opened PodSafety
  import opened WorkerState
  import opened WorkerPass
  import opened WorkerEvents
  import opened ShutdownAccounts

  /** The transitions that messages and passes make. */
  predicate Follows(from: Phase, to: Phase) {
    match from
    case ImagePulling => to.ImagePulling? || to.Creating? || to.Stopping? || to.Failed?
    case Creating => to.Creating? || to.Starting? || to.Stopping? || to.Failed?
    case Starting => to.Starting? || to.Creating? || to.Running? || to.Stopping?
    case Running => to.Running? || to.Stopping? || to.Stopped?
    case Stopping => to.Stopping? || to.Stopped? || to.Failed?
    case Stopped(_) | Failed(_) => to == from
  }

  /** The transitions the checker allows. */
  predicate CheckerAllows(from: Phase, to: Phase) {
    || (from.ImagePulling? && (to.Creating? || to.Stopped? || to.Failed?))
    || (from.Creating? && (to.Starting? || to.Stopped? || to.Failed?))
    || (from.Starting? && (to.Creating? || to.Running? || to.Stopped? || to.Failed?))
    || (from.Running? && (to.Stopping? || to.Stopped? || to.Failed?))
    || (from.Stopping? && (to.Stopped? || to.Failed?))
  }

  lemma StartingFollows(r: Step, a: Answers, now: nat)
    requires SaneStep(r) && r.pod.phase.Starting?
    ensures Follows(r.pod.phase, StepStarting(r, a, now).pod.phase)
  {
  }

  lemma RunningFollows(r: Step, a: Answers, now: nat)
    requires SaneStep(r) && r.pod.phase.Running?
    ensures Follows(r.pod.phase, StepRunning(r, a, now).pod.phase)
  {
  }

  lemma StoppingFollows(r: Step, a: Answers, now: nat)
    requires SaneStep(r) && r.pod.phase.Stopping?
    ensures Follows(r.pod.phase, StepStopping(r, a, now).pod.phase)
  {
  }

  lemma StepFollows(r: Step, a: Answers, now: nat)
    requires SaneStep(r)
    ensures Follows(r.pod.phase, PodStep(r, a, now).pod.phase)
  {
    if !Idle(r.pod, now) {
      match r.pod.phase
      case ImagePulling =>
      case Creating =>
      case Starting => StartingFollows(r, a, now);
      case Running => RunningFollows(r, a, now);
      case Stopping => StoppingFollows(r, a, now);
    }
  }

  lemma DriveFollows(s: State, env: Environment, now: nat, id: PodId)
    requires Inv(s) && Ready(s) && id in s.pods && id in Drive(s, env, now).pods
    ensures Follows(s.pods[id].phase, Drive(s, env, now).pods[id].phase)
  {
    assert InvAt(s, id);
    StepFollows(Begin(s, id), env(id), now);
  }

  lemma DeliverFollows(s: State, m: ControlMessage, a: HandlerAnswers, now: nat, id: PodId)
    requires Inv(s) && id in s.pods && id in Deliver(s, m, a, now).pods
    ensures Follows(s.pods[id].phase, Deliver(s, m, a, now).pods[id].phase)
  {
    match m
    case StartPod(cmd) => StartLeavesTracked(s, cmd, a, now, id);
    case StopPod(_, _) =>
    case ProbePod(_) =>
    case RunRequest(_, _, _) =>
  }

  /** Shutdown leaves a pod stopping if it visits and keeps it, and otherwise as it was. */
  lemma {:induction false} ShutdownFollows(s: State, answers: PodId -> ShutdownAnswers, visits: nat, id: PodId)
    requires Inv(s) && id in s.pods && id in Shutdown(s, answers, visits).pods
    ensures Shutdown(s, answers, visits).pods[id].phase == if id in Visited(s, visits) then Stopping else s.pods[id].phase
  {
    VisitedIsOrder(s, visits);
    ShutdownOutcomes(s, Visited(s, visits), answers);
    OutcomePhase(s, Shutdown(s, answers, visits), Visited(s, visits), answers, id);
  }

  lemma {:induction false} OutcomePhase(s: State, t: State, ids: seq<PodId>, answers: PodId -> ShutdownAnswers, id: PodId)
    requires Inv(s) && Outcomes(s, t, ids, answers) && id in s.pods && id in t.pods
    ensures t.pods[id].phase == if id in ids then Stopping else s.pods[id].phase
  {
    if id in ids {
      assert InvAt(s, id);
      AbandonedPhase(Begin(s, id), answers(id));
    }
  }

  lemma AbandonedPhase(r: Step, a: ShutdownAnswers)
    requires SaneStep(r) && !ShutdownStep(r, a).1
    ensures ShutdownStep(r, a).0.pod.phase.Stopping?
  {
  }

  /** Every event takes every pod that stays tracked along one of the worker's transitions; shutdown takes
      the pods it visits and keeps, live or terminal, to stopping and leaves the others where they are. */
  lemma NextFollows(s: State, e: Event, id: PodId)
    requires Inv(s) && id in s.pods
    requires Next(s, e).Some? && id in Next(s, e).value.pods
    ensures !e.ShuttingDown? ==> Follows(s.pods[id].phase, Next(s, e).value.pods[id].phase)
    ensures e.ShuttingDown? ==>
              Next(s, e).value.pods[id].phase == if id in Visited(s, e.visits) then Stopping else s.pods[id].phase
  {
    match e
    case Delivering(m, a, now) => DeliverFollows(s, m, a, now, id);
    case Driving(env, now) => DriveFollows(s, env, now, id);
    case ShuttingDown(answers, visits) => ShutdownFollows(s, answers, visits, id);
    case _ =>
  }

  /** The checker's table lacks exactly the worker's transitions into cleanup from a pod that does not
      run yet. */
  lemma CheckerLacks(from: Phase, to: Phase)
    requires Follows(from, to) && from != to
    ensures CheckerAllows(from, to) <==> !(to.Stopping? && (from.ImagePulling? || from.Creating? || from.Starting?))
  {
  }

  /** A pull that fails while the volume cannot be unmounted is such a transition. */
  lemma LackIsReal(r: Step, a: Answers, now: nat)
    requires SaneStep(r) && r.pod.phase.ImagePulling? && a.pull.Err? && a.unmount.Err?
    ensures PodStep(r, a, now).pod.phase.Stopping? && !CheckerAllows(r.pod.phase, PodStep(r, a, now).pod.phase)
  {
  }

  /** A retried start waits 50 ticks after the first failure and 100 after the second. */
  lemma StartBackoff(r: Step, a: Answers, now: nat, later: nat)
    requires SaneStep(r) && r.pod.phase.Starting? && !Idle(r.pod, now) && a.start.Err? && a.remove.Ok?
    requires r.pod.failures < 2 && now + 100 <= U64_MAX
    ensures PodStep(r, a, now).pod.phase.Creating?
    ensures Idle(PodStep(r, a, now).pod, later) <==> later < now + if r.pod.failures == 0 then 50 else 100
  {
  }

  /** A stop that is not verified waits 25 ticks, and after three attempts it is only polled. */
  lemma StopBackoff(r: Step, a: Answers, now: nat, later: nat)
    requires SaneStep(r) && r.pod.phase.Stopping? && r.pod.handle.Some? && !Idle(r.pod, now) && now + 25 <= U64_MAX
    requires !(a.status.Ok? && a.status.value.StoppedStatus?)
    ensures
      var after := PodStep(r, a, now);
      && after.pod.phase.Stopping? && after.pod.handle == r.pod.handle
      && (Idle(after.pod, later) <==> later < now + 25)
      && after.ledger.spent.stops == r.ledger.spent.stops + (if r.pod.failures < 3 then 1 else 0)
      && after.pod.failures == Min(r.pod.failures + 1, 3)
  {
  }
}
