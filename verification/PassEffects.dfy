/**
 What a lifecycle pass does to each pod, phase by phase, as the outside sees it: the phase it is in
 afterwards, the container it holds, its pending failure reason, the calls made for it and the reports
 sent about it, for every answer the runtime and the volume helpers may give.
 */
module PassEffects {
  import opened Basics
  import opened Messages
  import opened Ordering
  import opened Lifecycle
  import opened PodSafety
  import opened Tombstones
  import opened WorkerState
  import opened WorkerPass
  import opened PodReports

  /** What is seen of one pod after a pass; calls and reports are those of the pass. */
  datatype Sight = Sight(
    phase: Phase,
    handle: Option<Handle>,
    reason: Option<Text>,
    calls: seq<Call>,
    reports: seq<PodStatusReport>)

  /** A live pod is tracked as seen; a tombstone may have been pruned already. */
  ghost predicate Shows(s: State, t: State, id: PodId, v: Sight)
    requires id in s.pods
  {
    && (id in t.pods || v.phase.Terminal())
    && (id in t.pods ==> t.pods[id].phase == v.phase && t.pods[id].handle == v.handle && t.pods[id].demand == s.pods[id].demand)
    && Reason(t, id) == v.reason
    && LedgerOf(t, id).calls == LedgerOf(s, id).calls + v.calls
    && About(t.sent, id) == About(s.sent, id) + v.reports
  }

  /** What a step shows. */
  predicate StepShows(r: Step, u: Step, v: Sight) {
    && u.pod.phase == v.phase && u.pod.handle == v.handle && u.reason == v.reason
    && u.ledger.calls == r.ledger.calls + v.calls && u.reports == r.reports + v.reports
  }

  lemma {:induction false} Unpruned(s: State, env: Environment, now: nat, id: PodId)
    requires Ready(s) && id in s.pods && !Idle(s.pods[id], now)
    ensures
      var t := Drive(s, env, now);
      var r := StepOf(s, id, env, now);
      && (id in t.pods || r.pod.Terminal())
      && (id in t.pods ==> t.pods[id] == r.pod)
  {
  }

  lemma {:induction false} DriveRecords(s: State, env: Environment, now: nat, id: PodId)
    requires Ready(s) && id in s.pods && id in s.ledgers && !Idle(s.pods[id], now)
    ensures
      var t := Drive(s, env, now);
      var r := StepOf(s, id, env, now);
      Reason(t, id) == r.reason && LedgerOf(t, id) == r.ledger
  {
  }

  lemma {:induction false} DriveTold(s: State, env: Environment, now: nat, id: PodId)
    requires Inv(s) && Ready(s) && id in s.pods
    ensures About(Drive(s, env, now).sent, id) == About(s.sent, id) + StepOf(s, id, env, now).reports
  {
    PassReports(s, env, now, id);
  }

  lemma DriveDemand(s: State, env: Environment, now: nat, id: PodId)
    requires Ready(s) && id in s.pods
    ensures StepOf(s, id, env, now).pod.demand == s.pods[id].demand
  {
    StepFrame(Begin(s, id), env(id), now);
  }

  lemma StepAsShown(s: State, t: State, id: PodId, u: Step, v: Sight)
    requires id in s.pods && StepShows(Begin(s, id), u, v)
    requires id in t.pods || u.pod.Terminal()
    requires id in t.pods ==> t.pods[id] == u.pod
    requires u.pod.demand == s.pods[id].demand && Reason(t, id) == u.reason && LedgerOf(t, id) == u.ledger
    requires About(t.sent, id) == About(s.sent, id) + u.reports
    ensures Shows(s, t, id, v)
  {
    assert [] + v.reports == v.reports;
  }

  /** A pass shows of a pod what its own step shows. */
  lemma {:induction false} DriveShows(s: State, env: Environment, now: nat, id: PodId, v: Sight)
    requires Inv(s) && Ready(s) && id in s.pods && !Idle(s.pods[id], now)
    requires StepShows(Begin(s, id), StepOf(s, id, env, now), v)
    ensures Shows(s, Drive(s, env, now), id, v)
    ensures id in Drive(s, env, now).pods ==> Drive(s, env, now).pods[id] == StepOf(s, id, env, now).pod
  {
    assert InvAt(s, id);
    Unpruned(s, env, now, id);
    DriveRecords(s, env, now, id);
    DriveTold(s, env, now, id);
    DriveDemand(s, env, now, id);
    StepAsShown(s, Drive(s, env, now), id, StepOf(s, id, env, now), v);
  }

  lemma {:induction false} DriveSkips(s: State, env: Environment, now: nat, id: PodId)
    requires Ready(s) && id in s.pods && id in s.ledgers && Idle(s.pods[id], now)
    ensures
      var t := Drive(s, env, now);
      && (id in t.pods || s.pods[id].Terminal())
      && (id in t.pods ==> t.pods[id] == s.pods[id])
      && Reason(t, id) == Reason(s, id) && LedgerOf(t, id) == LedgerOf(s, id)
  {
    assert id !in PassSteps(s, env, now);
  }

  lemma NothingShown(r: Step)
    requires r.reports == []
    ensures StepShows(r, r, Sight(r.pod.phase, r.pod.handle, r.reason, [], []))
  {
    assert r.ledger.calls + [] == r.ledger.calls;
  }

  /** A pod that a pass leaves alone. */
  lemma {:induction false} IdlePod(s: State, env: Environment, now: nat, id: PodId)
    requires Inv(s) && id in s.pods && Idle(s.pods[id], now)
    ensures Ready(s)
    ensures Shows(s, Drive(s, env, now), id, Sight(s.pods[id].phase, s.pods[id].handle, Reason(s, id), [], []))
    ensures id in Drive(s, env, now).pods ==> Drive(s, env, now).pods[id] == s.pods[id]
  {
    InvReady(s);
    assert InvAt(s, id);
    DriveSkips(s, env, now, id);
    DriveTold(s, env, now, id);
    NothingShown(Begin(s, id));
    StepAsShown(s, Drive(s, env, now), id, Begin(s, id), Sight(s.pods[id].phase, s.pods[id].handle, Reason(s, id), [], []));
  }

  // -- Pulling and creating --

  /** A pod without a container fails: for good once its volume is unmounted, and until then it is stopping
      with the reason kept. */
  function Lost(why: Text, calls: seq<Call>, a: Answers): Sight {
    match a.unmount
    case Ok(_) => Sight(Failed(why), None, None, calls + [UnmountVolume(true)], [ReportFailed(why)])
    case Err(_) => Sight(Stopping, None, Some(why), calls + [UnmountVolume(false)], [])
  }

  lemma FailShowsLost(r: Step, u: Step, why: Text, calls: seq<Call>, a: Answers, now: nat)
    requires r.pod.handle.None? && r.reason.None? && r.reports == []
    requires u.pod == r.pod && u.reason.None? && u.reports == [] && u.ledger.calls == r.ledger.calls + calls
    ensures StepShows(r, Fail(u, why, a, now), Lost(why, calls, a))
  {
    var c := UnmountVolume(a.unmount.Ok?);
    assert (r.ledger.calls + calls) + [c] == r.ledger.calls + (calls + [c]);
  }

  /** One pull: on success the pod is to be created, and otherwise it fails with the runtime's reason. */
  lemma {:induction false} PullingPod(s: State, env: Environment, now: nat, id: PodId)
    requires Inv(s) && id in s.pods && s.pods[id].phase.ImagePulling?
    ensures Ready(s)
    ensures
      var t := Drive(s, env, now);
      match env(id).pull
      case Ok(_) => Shows(s, t, id, Sight(Creating, None, None, [PullImage(true)], [ReportCreating]))
      case Err(e) => Shows(s, t, id, Lost(e, [PullImage(false)], env(id)))
  {
    InvReady(s);
    assert InvAt(s, id);
    var r := Begin(s, id);
    match env(id).pull
    case Ok(_) => DriveShows(s, env, now, id, Sight(Creating, None, None, [PullImage(true)], [ReportCreating]));
    case Err(e) =>
      FailShowsLost(r, r.Called(PullImage(false)), e, [PullImage(false)], env(id), now);
      DriveShows(s, env, now, id, Lost(e, [PullImage(false)], env(id)));
  }

  /** A created container is held as the pod's own. */
  function Made(id: PodId, calls: seq<Call>, mounts: seq<Text>, a: Answers): Sight {
    match a.create
    case Ok(container) =>
      Sight(Starting, Some(Handle(id, container)), None, calls + [CreatePod(mounts, Some(container))], [])
    case Err(e) => Lost(e, calls + [CreatePod(mounts, None)], a)
  }

  lemma CreateShowsMade(r: Step, u: Step, calls: seq<Call>, mounts: seq<Text>, a: Answers, now: nat)
    requires r.pod.handle.None? && r.reason.None? && r.reports == []
    requires u.pod == r.pod && u.reason.None? && u.reports == [] && u.ledger.calls == r.ledger.calls + calls
    ensures StepShows(r, Create(u, mounts, a, now), Made(r.pod.id, calls, mounts, a))
  {
    match a.create
    case Ok(container) =>
      var c := CreatePod(mounts, Some(container));
      assert (r.ledger.calls + calls) + [c] == r.ledger.calls + (calls + [c]);
    case Err(e) =>
      var c := CreatePod(mounts, None);
      assert (r.ledger.calls + calls) + [c] == r.ledger.calls + (calls + [c]);
      FailShowsLost(r, u.Called(c), e, calls + [c], a, now);
  }

  /** A pod without a volume is created at once; a pod with one is created with the path that mounting gave,
      and fails without a create if mounting failed. */
  lemma {:induction false} CreatingPod(s: State, env: Environment, now: nat, id: PodId)
    requires Inv(s) && id in s.pods && s.pods[id].phase.Creating? && s.pods[id].retryAfter <= now
    ensures Ready(s)
    ensures
      var t := Drive(s, env, now);
      var a := env(id);
      if s.pods[id].private.juicefsPath == [] then Shows(s, t, id, Made(id, [], [], a))
      else
        match a.mount
        case Ok(path) => Shows(s, t, id, Made(id, [MountVolume(true)], [path], a))
        case Err(e) => Shows(s, t, id, Lost(Ascii("juicefs mount failed: ") + e, [MountVolume(false)], a))
  {
    InvReady(s);
    assert InvAt(s, id);
    var r := Begin(s, id);
    var a := env(id);
    if s.pods[id].private.juicefsPath == [] {
      assert r.ledger.calls + [] == r.ledger.calls;
      CreateShowsMade(r, r, [], [], a, now);
      DriveShows(s, env, now, id, Made(id, [], [], a));
    } else {
      match a.mount
      case Ok(path) =>
        CreateShowsMade(r, r.Called(MountVolume(true)), [MountVolume(true)], [path], a, now);
        DriveShows(s, env, now, id, Made(id, [MountVolume(true)], [path], a));
      case Err(e) =>
        var why := Ascii("juicefs mount failed: ") + e;
        FailShowsLost(r, r.Called(MountVolume(false)), why, [MountVolume(false)], a, now);
        DriveShows(s, env, now, id, Lost(why, [MountVolume(false)], a));
    }
  }

  // -- Starting --

  /** What a start attempt shows: the pod runs; or the failed container is removed and the pod is created
      anew, at most twice; or the pod is stopping, with its container kept and the reason pending. */
  function Launched(pod: Pod, container: Text, a: Answers): Sight {
    match a.start
    case Ok(_) => Sight(Running, pod.handle, None, [StartPodCall(container, true)], [ReportRunning])
    case Err(e) =>
      if pod.failures >= 2 then Sight(Stopping, pod.handle, Some(e), [StartPodCall(container, false)], [])
      else
        match a.remove
        case Ok(_) => Sight(Creating, None, None, [StartPodCall(container, false), RemovePod(container, true)], [])
        case Err(x) =>
          Sight(Stopping, pod.handle, Some(e + Ascii("; failed start cleanup remains unverified: ") + x),
                [StartPodCall(container, false), RemovePod(container, false)], [])
  }

  lemma StartingShows(r: Step, a: Answers, now: nat)
    requires SaneStep(r) && r.pod.phase.Starting? && r.reports == []
    ensures StepShows(r, StepStarting(r, a, now), Launched(r.pod, r.pod.handle.value.containerId, a))
  {
    var c := r.pod.handle.value.containerId;
    var ok := StartPodCall(c, false);
    var gone := RemovePod(c, a.remove.Ok?);
    assert (r.ledger.calls + [ok]) + [gone] == r.ledger.calls + [ok, gone];
  }

  lemma {:induction false} StartingPod(s: State, env: Environment, now: nat, id: PodId)
    requires Inv(s) && id in s.pods && s.pods[id].phase.Starting? && s.pods[id].retryAfter <= now
    ensures Ready(s) && s.pods[id].handle.Some?
    ensures
      var t := Drive(s, env, now);
      var pod := s.pods[id];
      && Shows(s, t, id, Launched(pod, pod.handle.value.containerId, env(id)))
      && (id in t.pods && !t.pods[id].phase.Stopping? ==>
            t.pods[id].failures == if env(id).start.Ok? then 0 else pod.failures + 1)
  {
    InvReady(s);
    assert InvAt(s, id);
    StartingShows(Begin(s, id), env(id), now);
    DriveShows(s, env, now, id, Launched(s.pods[id], s.pods[id].handle.value.containerId, env(id)));
  }

  // -- The end of a pod --

  /** A stop that was verified: the container is removed and the volume unmounted before the pod ends, as
      failed with the pending reason if there is one and otherwise as stopped with the exit code; until
      then it is stopping, holds what is left and keeps the reason. */
  function Finished(handle: Option<Handle>, reason: Option<Text>, exitCode: I32, calls: seq<Call>,
                    remove: Outcome<()>, unmount: Outcome<()>): Sight
  {
    if handle.Some? && remove.Err? then
      Sight(Stopping, handle, reason, calls + [RemovePod(handle.value.containerId, false)], [])
    else
      var removed := calls + if handle.Some? then [RemovePod(handle.value.containerId, true)] else [];
      match unmount
      case Err(_) => Sight(Stopping, None, reason, removed + [UnmountVolume(false)], [])
      case Ok(_) =>
        match reason
        case Some(why) => Sight(Failed(why), None, None, removed + [UnmountVolume(true)], [ReportFailed(why)])
        case None => Sight(Stopped(exitCode), None, None, removed + [UnmountVolume(true)], [ReportStopped(exitCode)])
  }

  lemma FinishedStopsRunning(handle: Option<Handle>, reason: Option<Text>, exitCode: I32, calls: seq<Call>,
                             remove: Outcome<()>, unmount: Outcome<()>)
    ensures !Finished(handle, reason, exitCode, calls, remove, unmount).phase.Running?
  {
  }

  lemma CallsJoin(before: seq<Call>, calls: seq<Call>, removed: seq<Call>, c: Call)
    ensures (before + calls) + [c] == before + (calls + [c])
    ensures ((before + calls) + removed) + [c] == before + ((calls + removed) + [c])
    ensures before + (calls + []) == before + calls
  {
    assert calls + [] == calls;
  }

  lemma CompleteShows(r: Step, u: Step, exitCode: I32, calls: seq<Call>, a: Answers, now: nat)
    requires r.reports == [] && u.reports == [] && u.pod.phase.Stopping?
    requires u.pod.handle == r.pod.handle && u.reason == r.reason && u.ledger.calls == r.ledger.calls + calls
    ensures StepShows(r, CompleteStop(u, exitCode, a, now), Finished(r.pod.handle, r.reason, exitCode, calls, a.remove, a.unmount))
  {
    if r.pod.handle.Some? {
      var gone := RemovePod(r.pod.handle.value.containerId, a.remove.Ok?);
      CallsJoin(r.ledger.calls, calls, [gone], gone);
      CallsJoin(r.ledger.calls, calls, [gone], UnmountVolume(a.unmount.Ok?));
    } else {
      CallsJoin(r.ledger.calls, calls, [], UnmountVolume(a.unmount.Ok?));
    }
  }

  // -- Running --

  /** A liveness probe is due: the pod has a path and a port, and the last one was 10000 ticks ago. */
  predicate ProbeDue(pod: Pod, now: nat) {
    pod.service.livenessPath != [] && pod.service.port > 0 && now - pod.lastProbe >= 10_000
  }

  /** A third probe in a row is due and fails. */
  predicate ThirdMiss(pod: Pod, a: Answers, now: nat) {
    ProbeDue(pod, now) && a.probe != Ok(true) && pod.probeFailures >= 2
  }

  function RunningCalls(pod: Pod, container: Text, a: Answers, now: nat): seq<Call> {
    if a.status == Ok(RunningStatus) && ProbeDue(pod, now) then [QueryStatus(container), ProbeCall(container)]
    else [QueryStatus(container)]
  }

  lemma TwoCalls(before: seq<Call>, c: Call, d: Call)
    ensures (before + [c]) + [d] == before + [c, d]
  {
  }

  lemma StaysShows(r: Step, a: Answers, now: nat)
    requires SaneStep(r) && r.pod.phase.Running? && r.reports == []
    requires a.status == Ok(RunningStatus) && !ThirdMiss(r.pod, a, now)
    ensures
      var u := StepRunning(r, a, now);
      && StepShows(r, u, Sight(Running, r.pod.handle, None, RunningCalls(r.pod, r.pod.handle.value.containerId, a, now), []))
      && (!ProbeDue(r.pod, now) ==> u.pod == r.pod)
      && (ProbeDue(r.pod, now) ==>
            u.pod == r.pod.(lastProbe := now, probeFailures := if a.probe == Ok(true) then 0 else r.pod.probeFailures + 1))
  {
    var c := r.pod.handle.value.containerId;
    TwoCalls(r.ledger.calls, QueryStatus(c), ProbeCall(c));
  }

  /** A running pod whose container is seen running, and that does not miss its third probe, runs on: a probe
      that is due counts its misses, and nothing else changes. */
  lemma {:induction false} RunningStays(s: State, env: Environment, now: nat, id: PodId)
    requires Inv(s) && id in s.pods && s.pods[id].phase.Running?
    requires env(id).status == Ok(RunningStatus) && !ThirdMiss(s.pods[id], env(id), now)
    ensures Ready(s) && s.pods[id].handle.Some?
    ensures
      var t := Drive(s, env, now);
      var pod := s.pods[id];
      && Shows(s, t, id, Sight(Running, pod.handle, None, RunningCalls(pod, pod.handle.value.containerId, env(id), now), []))
      && t.pods[id] == (if !ProbeDue(pod, now) then pod
                        else pod.(lastProbe := now, probeFailures := if env(id).probe == Ok(true) then 0 else pod.probeFailures + 1))
  {
    InvReady(s);
    assert InvAt(s, id);
    var pod := s.pods[id];
    StaysShows(Begin(s, id), env(id), now);
    DriveShows(s, env, now, id,
               Sight(Running, pod.handle, None, RunningCalls(pod, pod.handle.value.containerId, env(id), now), []));
  }

  /** The runtime does not prove that the container runs, and does not say that it stopped; or the third
      probe failed. */
  predicate Unproven(pod: Pod, a: Answers, now: nat) {
    match a.status
    case Ok(RunningStatus) => ThirdMiss(pod, a, now)
    case Ok(StoppedStatus(_)) => false
    case Ok(CreatedStatus) => true
    case Ok(UnknownStatus) => true
    case Err(_) => true
  }

  function UnprovenReason(a: Answers): Text {
    match a.status
    case Ok(RunningStatus) => Ascii("liveness probe failed")
    case Ok(_) => Ascii("runtime no longer proves pod is running")
    case Err(e) => Ascii("runtime status verification failed: ") + e
  }

  lemma UnprovenShows(r: Step, a: Answers, now: nat)
    requires SaneStep(r) && r.pod.phase.Running? && r.reports == [] && Unproven(r.pod, a, now)
    ensures StepShows(r, StepRunning(r, a, now),
                      Sight(Stopping, r.pod.handle, Some(UnprovenReason(a)),
                            RunningCalls(r.pod, r.pod.handle.value.containerId, a, now), []))
  {
    var c := r.pod.handle.value.containerId;
    TwoCalls(r.ledger.calls, QueryStatus(c), ProbeCall(c));
  }

  /** A running pod that is not proven to run is stopping: its container stays owned, the reason is pending, no
      request is routed to it, and its end is not reported yet. */
  lemma {:induction false} RunningFails(s: State, env: Environment, now: nat, id: PodId)
    requires Inv(s) && id in s.pods && s.pods[id].phase.Running? && Unproven(s.pods[id], env(id), now)
    ensures Ready(s) && s.pods[id].handle.Some?
    ensures
      var t := Drive(s, env, now);
      var pod := s.pods[id];
      && Shows(s, t, id, Sight(Stopping, pod.handle, Some(UnprovenReason(env(id))),
                               RunningCalls(pod, pod.handle.value.containerId, env(id), now), []))
      && forall deploymentId :: id !in Routable(t, deploymentId)
  {
    InvReady(s);
    assert InvAt(s, id);
    var pod := s.pods[id];
    UnprovenShows(Begin(s, id), env(id), now);
    DriveShows(s, env, now, id, Sight(Stopping, pod.handle, Some(UnprovenReason(env(id))),
                                      RunningCalls(pod, pod.handle.value.containerId, env(id), now), []));
  }

  lemma ExitShows(r: Step, exitCode: I32, a: Answers, now: nat)
    requires SaneStep(r) && r.pod.phase.Running? && r.reports == [] && a.status == Ok(StoppedStatus(exitCode))
    ensures StepShows(r, StepRunning(r, a, now),
                      Finished(r.pod.handle, None, exitCode, [QueryStatus(r.pod.handle.value.containerId)],
                               a.remove, a.unmount))
  {
    var c := r.pod.handle.value.containerId;
    var u := r.Called(QueryStatus(c)).With(r.pod.(phase := Stopping, changedAt := now, graceMs := 0,
                                                  failures := STOP_ATTEMPT_MAX, retryAfter := 0));
    CompleteShows(r, u, exitCode, [QueryStatus(c)], a, now);
  }

  /** A running pod whose container is seen stopped ends with its exit code, once it is cleaned up. */
  lemma {:induction false} RunningEnds(s: State, env: Environment, now: nat, id: PodId, exitCode: I32)
    requires Inv(s) && id in s.pods && s.pods[id].phase.Running? && env(id).status == Ok(StoppedStatus(exitCode))
    ensures Ready(s) && s.pods[id].handle.Some?
    ensures
      var pod := s.pods[id];
      Shows(s, Drive(s, env, now), id,
            Finished(pod.handle, None, exitCode, [QueryStatus(pod.handle.value.containerId)],
                     env(id).remove, env(id).unmount))
  {
    InvReady(s);
    assert InvAt(s, id);
    var pod := s.pods[id];
    ExitShows(Begin(s, id), exitCode, env(id), now);
    DriveShows(s, env, now, id,
               Finished(pod.handle, None, exitCode, [QueryStatus(pod.handle.value.containerId)],
                     env(id).remove, env(id).unmount));
  }

  /** A running pod runs on if and only if its container is seen running and it does not miss its third
      probe in a row. */
  lemma {:induction false} RunsOnIff(s: State, env: Environment, now: nat, id: PodId)
    requires Inv(s) && id in s.pods && s.pods[id].phase.Running?
    ensures Ready(s)
    ensures
      var t := Drive(s, env, now);
      id in t.pods && t.pods[id].phase.Running? <==>
        env(id).status == Ok(RunningStatus) && !ThirdMiss(s.pods[id], env(id), now)
  {
    var a := env(id);
    if a.status.Ok? && a.status.value.StoppedStatus? {
      RunningEnds(s, env, now, id, a.status.value.exitCode);
      var pod := s.pods[id];
      FinishedStopsRunning(pod.handle, None, a.status.value.exitCode, [QueryStatus(pod.handle.value.containerId)],
                           a.remove, a.unmount);
    } else if Unproven(s.pods[id], a, now) {
      RunningFails(s, env, now, id);
    } else {
      RunningStays(s, env, now, id);
    }
  }

  // -- Stopping --

  /** The calls of a stop attempt; after three attempts only the status is asked for. */
  function StopCalls(pod: Pod, container: Text, a: Answers): seq<Call> {
    if pod.failures < 3 then [StopPodCall(container, pod.graceMs, a.stop.Ok?), QueryStatus(container)]
    else [QueryStatus(container)]
  }

  /** A stopping pod: without a container only its volume is left to unmount; with one, it ends only if it is
      seen stopped. */
  function StopSight(pod: Pod, reason: Option<Text>, a: Answers): Sight {
    match pod.handle
    case None => Finished(None, reason, 0, [], a.remove, a.unmount)
    case Some(handle) =>
      match a.status
      case Ok(StoppedStatus(exitCode)) =>
        Finished(pod.handle, reason, exitCode, StopCalls(pod, handle.containerId, a), a.remove, a.unmount)
      case _ => Sight(Stopping, pod.handle, reason, StopCalls(pod, handle.containerId, a), [])
  }

  lemma StopAsked(r: Step, a: Answers) returns (u: Step)
    requires SaneStep(r) && r.pod.phase.Stopping? && r.reports == [] && r.pod.handle.Some?
    ensures u.pod == r.pod && u.reason == r.reason && u.reports == []
    ensures u.ledger.calls == r.ledger.calls + StopCalls(r.pod, r.pod.handle.value.containerId, a)
    ensures
      var c := r.pod.handle.value.containerId;
      u == (if r.pod.failures < 3 then r.Called(StopPodCall(c, r.pod.graceMs, a.stop.Ok?)) else r).Called(QueryStatus(c))
  {
    var c := r.pod.handle.value.containerId;
    u := (if r.pod.failures < 3 then r.Called(StopPodCall(c, r.pod.graceMs, a.stop.Ok?)) else r).Called(QueryStatus(c));
    TwoCalls(r.ledger.calls, StopPodCall(c, r.pod.graceMs, a.stop.Ok?), QueryStatus(c));
  }

  lemma StoppingShows(r: Step, a: Answers, now: nat)
    requires SaneStep(r) && r.pod.phase.Stopping? && r.reports == []
    ensures StepShows(r, StepStopping(r, a, now), StopSight(r.pod, r.reason, a))
  {
    if r.pod.handle.None? {
      CallsJoin(r.ledger.calls, [], [], UnmountVolume(true));
      assert r.ledger.calls + [] == r.ledger.calls;
      CompleteShows(r, r, 0, [], a, now);
    } else {
      var u := StopAsked(r, a);
      if a.status.Ok? && a.status.value.StoppedStatus? {
        CompleteShows(r, u, a.status.value.exitCode, StopCalls(r.pod, r.pod.handle.value.containerId, a), a, now);
      }
    }
  }

  lemma {:induction false} StoppingPod(s: State, env: Environment, now: nat, id: PodId)
    requires Inv(s) && id in s.pods && s.pods[id].phase.Stopping? && s.pods[id].retryAfter <= now
    ensures Ready(s)
    ensures Shows(s, Drive(s, env, now), id, StopSight(s.pods[id], Reason(s, id), env(id)))
  {
    InvReady(s);
    assert InvAt(s, id);
    StoppingShows(Begin(s, id), env(id), now);
    DriveShows(s, env, now, id, StopSight(s.pods[id], Reason(s, id), env(id)));
  }

  // -- Pods that begin to stop --

  lemma StepCondemns(r: Step, a: Answers, now: nat)
    requires SaneStep(r) && !r.pod.Terminal() && !r.pod.phase.Stopping? && !Idle(r.pod, now)
    requires PodStep(r, a, now).pod.phase.Stopping?
    ensures
      var pod := PodStep(r, a, now).pod;
      && pod.graceMs == 0
      && (if r.pod.phase.Running? && a.status.Ok? && a.status.value.StoppedStatus? then pod.failures == 3
          else pod.failures == 0 && pod.retryAfter == 0)
  {
  }

  /** A pod that a pass lets stop is stopped without grace, with a fresh budget of three attempts from the next
      pass on; only a pod whose container has ended already is just polled. */
  lemma {:induction false} StopsAfresh(s: State, env: Environment, now: nat, id: PodId)
    requires Inv(s) && Ready(s) && id in s.pods && !s.pods[id].Terminal() && !s.pods[id].phase.Stopping?
    requires id in Drive(s, env, now).pods && Drive(s, env, now).pods[id].phase.Stopping?
    ensures
      var pod := Drive(s, env, now).pods[id];
      && pod.graceMs == 0
      && (if s.pods[id].phase.Running? && env(id).status.Ok? && env(id).status.value.StoppedStatus? then pod.failures == 3
          else pod.failures == 0 && pod.retryAfter == 0)
  {
    assert InvAt(s, id);
    if Idle(s.pods[id], now) {
      DriveSkips(s, env, now, id);
    } else {
      Unpruned(s, env, now, id);
      StepCondemns(Begin(s, id), env(id), now);
    }
  }

  // -- The order of the pods --

  /** Settled while operations are collected: a running pod, and one whose volume cannot be mounted. */
  predicate SettledFirst(pod: Pod, a: Answers) {
    pod.phase.Running? || (pod.phase.Creating? && pod.private.juicefsPath != [] && a.mount.Err?)
  }

  /** The order in which a pass reports its pods: first those settled while operations are collected, then
      those that are started, then the others, each by id. */
  lemma {:induction false} ReportOrder(s: State, env: Environment, now: nat, i: nat, j: nat)
    requires i < j < |PassOrder(s, env, now)|
    ensures
      var a, b := PassOrder(s, env, now)[i], PassOrder(s, env, now)[j];
      && a in s.pods && b in s.pods
      && var early := SettledFirst(s.pods[a], env(a));
         var late := SettledFirst(s.pods[b], env(b));
         var starts := s.pods[a].phase.Starting?;
         var startsLater := s.pods[b].phase.Starting?;
         && (late ==> early) && (early && late ==> a < b)
         && (!early && startsLater ==> starts)
         && (!early && !late && (starts <==> startsLater) ==> a < b)
  {
    var keys := Enumerate(PassKeys(s, env, now));
    assert keys[i] in keys && keys[j] in keys;
    assert Less(keys[i], keys[j]);
  }

  // -- Reservations --

  /** The pods that were live and are not any more. */
  function Over(s: State, t: State): Pods {
    map id | id in s.pods && !s.pods[id].Terminal() && !(id in t.pods && !t.pods[id].Terminal()) :: s.pods[id]
  }

  lemma {:induction false} LiveAfter(s: State, env: Environment, now: nat, id: PodId)
    requires Ready(s) && id in s.pods && !s.pods[id].Terminal()
    ensures
      var t := Drive(s, env, now);
      var steps := PassSteps(s, env, now);
      (id in t.pods && !t.pods[id].Terminal()) <==> !(id in steps && steps[id].pod.Terminal())
  {
  }

  lemma OverIsEnding(s: State, t: State, steps: Steps)
    requires forall id: PodId | id in s.pods && !s.pods[id].Terminal() ::
               (id in t.pods && !t.pods[id].Terminal()) <==> !(id in steps && steps[id].pod.Terminal())
    ensures Over(s, t) == Ending(s.pods, steps)
  {
  }

  /** A pass gives back exactly what the pods that ended in it had reserved. */
  lemma {:induction false} PassReleases(s: State, env: Environment, now: nat)
    requires Inv(s)
    ensures Ready(s)
    ensures Drive(s, env, now).alloc == SaturatingMinus(s.alloc, Reserved(Over(s, Drive(s, env, now))))
  {
    InvReady(s);
    var t := Drive(s, env, now);
    var steps := PassSteps(s, env, now);
    forall id: PodId | id in s.pods && !s.pods[id].Terminal()
      ensures (id in t.pods && !t.pods[id].Terminal()) <==> !(id in steps && steps[id].pod.Terminal())
    {
      LiveAfter(s, env, now, id);
    }
    OverIsEnding(s, t, steps);
  }
}
