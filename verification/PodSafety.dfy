/**
 The invariant tying a tracked pod to its ledger: it holds exactly the live containers, it has
 work left in its budget, and once it is terminal nothing is left behind. Every step keeps it,
 whatever the runtime answers.
 */
module PodSafety {
  import opened Basics
  import opened Lifecycle

  /** At most this much work per admission. */
  const WORK_MAX := Work(1, 3, 3, 3)

  /** The last thing done for the pod was a successful unmount. */
  predicate Settled(l: Ledger) {
    l.calls != [] && l.calls[|l.calls| - 1] == UnmountVolume(true)
  }

  /** Nothing is left behind for a pod id that is no longer tracked. */
  predicate Clean(l: Ledger) {
    l.live == {} && !l.mayBeMounted && l.spent.Within(WORK_MAX) && Settled(l)
  }

  predicate Scrubbed(pod: Pod) {
    pod.private == WIPED
  }

  function Held(pod: Pod): set<Text> {
    if pod.handle.Some? then {pod.handle.value.containerId} else {}
  }

  predicate HandleFits(pod: Pod) {
    && (pod.handle.Some? ==> pod.handle.value.podId == pod.id)
    && (pod.phase.ImagePulling? || pod.phase.Creating? || pod.Terminal() ==> pod.handle.None?)
    && (pod.phase.Starting? || pod.phase.Running? ==> pod.handle.Some?)
  }

  predicate WorkFits(pod: Pod, w: Work) {
    && w.Within(WORK_MAX)
    && 0 <= pod.failures <= 3
    && (pod.phase.ImagePulling? ==> w == NO_WORK && pod.failures == 0)
    && (pod.phase.Creating? ==> w.creates == w.starts == pod.failures <= 2 && w.stops == 0)
    && (pod.phase.Starting? ==> w.creates == pod.failures + 1 <= 3 && w.starts == pod.failures && w.stops == 0)
    && (pod.phase.Running? ==> pod.failures == 0 && w.stops == 0)
    && (pod.phase.Stopping? ==> w.stops <= pod.failures)
  }

  /** The invariant of one tracked pod with its pending failure reason and its ledger. */
  predicate Sane(pod: Pod, reason: Option<Text>, l: Ledger) {
    && HandleFits(pod)
    && (reason.Some? ==> pod.phase.Stopping?)
    && l.live == Held(pod)
    && WorkFits(pod, l.spent)
    && (pod.Terminal() ==> Settled(l) && !l.mayBeMounted && Scrubbed(pod))
  }

  predicate SaneStep(r: Step) {
    Sane(r.pod, r.reason, r.ledger)
  }

  /** Failing a pod that still had its whole stop budget. */
  lemma FailKeeps(r: Step, why: Text, a: Answers, now: nat)
    requires r.pod.handle.Some? ==> r.pod.handle.value.podId == r.pod.id
    requires r.ledger.live == Held(r.pod)
    requires r.ledger.spent.Within(WORK_MAX.(stops := 0))
    requires 0 <= r.pod.failures <= 3
    requires r.reason.None?
    ensures SaneStep(Fail(r, why, a, now))
  {
  }

  /** Completing a stop for which at most one attempt is not yet charged to the failure count. */
  lemma CompleteStopKeeps(r: Step, exitCode: I32, a: Answers, now: nat)
    requires r.pod.phase.Stopping?
    requires r.pod.handle.Some? ==> r.pod.handle.value.podId == r.pod.id
    requires r.ledger.live == Held(r.pod)
    requires 0 <= r.pod.failures <= 3
    requires r.ledger.spent.Within(WORK_MAX)
    requires r.ledger.spent.stops <= r.pod.failures + 1
    ensures SaneStep(CompleteStop(r, exitCode, a, now))
  {
  }

  lemma CreateKeeps(r: Step, mounts: seq<Text>, a: Answers, now: nat)
    requires SaneStep(r) && r.pod.phase.Creating?
    ensures SaneStep(Create(r, mounts, a, now))
  {
    if a.create.Err? {
      FailKeeps(r.Called(CreatePod(mounts, None)), a.create.error, a, now);
    }
  }

  lemma StartingKeeps(r: Step, a: Answers, now: nat)
    requires SaneStep(r) && r.pod.phase.Starting?
    ensures SaneStep(StepStarting(r, a, now))
  {
    var id := r.pod.handle.value.containerId;
    if a.start.Err? {
      var started := r.Called(StartPodCall(id, false));
      if !MayRetry(r.pod) {
        FailKeeps(started, a.start.error, a, now);
      } else if a.remove.Err? {
        FailKeeps(started.With(Delayed(r.pod, now)).Called(RemovePod(id, false)),
                  a.start.error + Ascii("; failed start cleanup remains unverified: ") + a.remove.error, a, now);
      }
    }
  }

  lemma RunningKeeps(r: Step, a: Answers, now: nat)
    requires SaneStep(r) && r.pod.phase.Running?
    ensures SaneStep(StepRunning(r, a, now))
  {
    var id := r.pod.handle.value.containerId;
    var asked := r.Called(QueryStatus(id));
    match a.status
    case Ok(RunningStatus) =>
      if ShouldProbe(r.pod, now) {
        var probed := asked.Called(ProbeCall(id)).With(r.pod.(lastProbe := now));
        var worse := probed.With(probed.pod.(probeFailures := SaturatingAdd(r.pod.probeFailures, 1, U8_MAX)));
        FailKeeps(worse, Ascii("liveness probe failed"), a, now);
      }
    case Ok(StoppedStatus(exitCode)) =>
      CompleteStopKeeps(asked.With(r.pod.(phase := Stopping, changedAt := now, graceMs := 0,
                                          failures := STOP_ATTEMPT_MAX, retryAfter := 0)), exitCode, a, now);
    case Ok(_) => FailKeeps(asked, Ascii("runtime no longer proves pod is running"), a, now);
    case Err(e) => FailKeeps(asked, Ascii("runtime status verification failed: ") + e, a, now);
  }

  lemma StoppingKeeps(r: Step, a: Answers, now: nat)
    requires SaneStep(r) && r.pod.phase.Stopping?
    ensures SaneStep(StepStopping(r, a, now))
  {
    if r.pod.handle.None? {
      CompleteStopKeeps(r, 0, a, now);
    } else if a.status.Ok? && a.status.value.StoppedStatus? {
      var id := r.pod.handle.value.containerId;
      var stopped := if r.pod.failures < STOP_ATTEMPT_MAX
                     then r.Called(StopPodCall(id, r.pod.graceMs, a.stop.Ok?)) else r;
      CompleteStopKeeps(stopped.Called(QueryStatus(id)), a.status.value.exitCode, a, now);
    }
  }

  /** Every step keeps the pod's invariant, for every answer the runtime may give. */
  lemma StepKeepsSane(r: Step, a: Answers, now: nat)
    requires SaneStep(r)
    ensures SaneStep(PodStep(r, a, now))
  {
    if !Idle(r.pod, now) {
      match r.pod.phase
      case ImagePulling =>
        if a.pull.Err? {
          FailKeeps(r.Called(PullImage(false)), a.pull.error, a, now);
        }
      case Creating =>
        if r.pod.private.juicefsPath == [] {
          CreateKeeps(r, [], a, now);
        } else {
          var mounted := r.Called(MountVolume(a.mount.Ok?));
          match a.mount
          case Ok(p) => CreateKeeps(mounted, [p], a, now);
          case Err(e) => FailKeeps(mounted, Ascii("juicefs mount failed: ") + e, a, now);
        }
      case Starting => StartingKeeps(r, a, now);
      case Running => RunningKeeps(r, a, now);
      case Stopping => StoppingKeeps(r, a, now);
    }
  }

  /** How far a pod is from rest; retries of a failed start count down within the phase. */
  function Rank(pod: Pod): int {
    match pod.phase
    case ImagePulling => 12
    case Creating => 11 - 2 * pod.failures
    case Starting => 10 - 2 * pod.failures
    case Running => 5
    case Stopping => 4 - pod.failures
    case Stopped(_) | Failed(_) => 0
  }

  /** A pod that only moves when the outside world does: it runs, or its stop is polled. */
  predicate Resting(pod: Pod) {
    pod.phase.Running? || (pod.phase.Stopping? && pod.failures == STOP_ATTEMPT_MAX)
  }

  lemma RankBounds(r: Step)
    requires SaneStep(r)
    ensures 0 <= Rank(r.pod) <= 12
  {
  }

  /** Failing or completing a stop leaves a pod stopping or terminal. */
  lemma FailRank(r: Step, why: Text, a: Answers, now: nat)
    ensures Rank(Fail(r, why, a, now).pod) <= 4
  {
  }

  lemma CompleteStopRank(r: Step, exitCode: I32, a: Answers, now: nat)
    requires r.pod.phase.Stopping? && 0 <= r.pod.failures <= 3
    ensures Rank(CompleteStop(r, exitCode, a, now).pod) <= 4 - Min(r.pod.failures + 1, 3)
  {
  }

  lemma CreatingRank(r: Step, a: Answers, now: nat)
    requires SaneStep(r) && r.pod.phase.Creating?
    ensures Rank(StepCreating(r, a, now).pod) < Rank(r.pod)
  {
    if r.pod.private.juicefsPath == [] {
      if a.create.Err? {
        FailRank(r.Called(CreatePod([], None)), a.create.error, a, now);
      }
    } else {
      var mounted := r.Called(MountVolume(a.mount.Ok?));
      if a.mount.Err? {
        FailRank(mounted, Ascii("juicefs mount failed: ") + a.mount.error, a, now);
      } else if a.create.Err? {
        FailRank(mounted.Called(CreatePod([a.mount.value], None)), a.create.error, a, now);
      }
    }
  }

  lemma StartingRank(r: Step, a: Answers, now: nat)
    requires SaneStep(r) && r.pod.phase.Starting?
    ensures Rank(StepStarting(r, a, now).pod) < Rank(r.pod)
  {
    var id := r.pod.handle.value.containerId;
    if a.start.Err? {
      var started := r.Called(StartPodCall(id, false));
      if !MayRetry(r.pod) {
        FailRank(started, a.start.error, a, now);
      } else if a.remove.Err? {
        FailRank(started.With(Delayed(r.pod, now)).Called(RemovePod(id, false)),
                 a.start.error + Ascii("; failed start cleanup remains unverified: ") + a.remove.error, a, now);
      }
    }
  }

  lemma RunningRank(r: Step, a: Answers, now: nat)
    requires SaneStep(r) && r.pod.phase.Running?
    ensures Rank(StepRunning(r, a, now).pod) <= Rank(r.pod)
  {
    var asked := r.Called(QueryStatus(r.pod.handle.value.containerId));
    if a.status.Ok? && a.status.value.StoppedStatus? {
      CompleteStopRank(asked.With(r.pod.(phase := Stopping, changedAt := now, graceMs := 0,
                                         failures := STOP_ATTEMPT_MAX, retryAfter := 0)), a.status.value.exitCode, a, now);
    }
  }

  lemma StoppingRank(r: Step, a: Answers, now: nat)
    requires SaneStep(r) && r.pod.phase.Stopping?
    ensures Rank(StepStopping(r, a, now).pod) <= Rank(r.pod)
    ensures !Resting(r.pod) ==> Rank(StepStopping(r, a, now).pod) < Rank(r.pod)
  {
    if r.pod.handle.None? {
      CompleteStopRank(r, 0, a, now);
    } else if a.status.Ok? && a.status.value.StoppedStatus? {
      var id := r.pod.handle.value.containerId;
      var stopped := if r.pod.failures < STOP_ATTEMPT_MAX
                     then r.Called(StopPodCall(id, r.pod.graceMs, a.stop.Ok?)) else r;
      CompleteStopRank(stopped.Called(QueryStatus(id)), a.status.value.exitCode, a, now);
    }
  }

  /** A step never moves a pod away from rest, and moves every pod that is neither idle nor
      resting strictly closer. */
  lemma StepLowersRank(r: Step, a: Answers, now: nat)
    requires SaneStep(r)
    ensures Rank(PodStep(r, a, now).pod) <= Rank(r.pod)
    ensures !Idle(r.pod, now) && !Resting(r.pod) ==> Rank(PodStep(r, a, now).pod) < Rank(r.pod)
  {
    if !Idle(r.pod, now) {
      match r.pod.phase
      case ImagePulling =>
        if a.pull.Err? {
          FailRank(r.Called(PullImage(false)), a.pull.error, a, now);
        }
      case Creating => CreatingRank(r, a, now);
      case Starting => StartingRank(r, a, now);
      case Running => RunningRank(r, a, now);
      case Stopping => StoppingRank(r, a, now);
    }
  }
}
