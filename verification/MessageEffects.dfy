/**
 What each control message does, in terms of what is seen from outside: which pods change and how, what is
 sent back, and which runtime calls are made; and what a stop command means for the rest of a run.
 */
module MessageEffects {
  import opened Basics
  import opened Messages
  import opened Lifecycle
  import opened Tombstones
  import opened WorkerState
  import opened WorkerPass
  import opened WorkerEvents
  import opened WorkerRuns
  import opened Transitions
  import opened PassEffects

  // -- Stop commands --

  /** A pod that is not stopping yet and has not ended. */
  predicate Stoppable(pod: Pod) {
    !pod.phase.Stopping? && !pod.phase.Stopped? && !pod.phase.Failed?
  }

  /** A stop command makes a tracked pod that has not ended stop, with its container, its reservation and its
      pending reason kept and a fresh budget of three attempts; nothing else changes, and every other stop
      command changes nothing. */
  lemma {:induction false} StopDelivered(s: State, id: PodId, graceMs: U64, a: HandlerAnswers, now: nat)
    ensures
      var t := Deliver(s, StopPod(id, graceMs), a, now);
      if id in s.pods && Stoppable(s.pods[id]) then
        && t.pods.Keys == s.pods.Keys && t.pods[id].phase == Stopping
        && t.pods[id].handle == s.pods[id].handle && t.pods[id].demand == s.pods[id].demand
        && t.pods[id].graceMs == (if graceMs <= 30_000 then graceMs else 30_000)
        && t.pods[id].failures == 0 && t.pods[id].retryAfter == 0
        && (forall j | j in s.pods && j != id :: t.pods[j] == s.pods[j])
        && t == s.(pods := t.pods)
      else t == s
  {
  }

  /** What the pass after a stop command shows of a pod with a container. */
  function StoppedBy(container: Text, handle: Option<Handle>, reason: Option<Text>, graceMs: U64, a: Answers): Sight {
    var calls := [StopPodCall(container, if graceMs <= 30_000 then graceMs else 30_000, a.stop.Ok?), QueryStatus(container)];
    match a.status
    case Ok(StoppedStatus(exitCode)) => Finished(handle, reason, exitCode, calls, a.remove, a.unmount)
    case _ => Sight(Stopping, handle, reason, calls, [])
  }

  lemma StoppedByShows(pod: Pod, reason: Option<Text>, graceMs: U64, a: Answers)
    requires pod.handle.Some? && pod.failures == 0 && pod.graceMs == if graceMs <= 30_000 then graceMs else 30_000
    ensures StopSight(pod, reason, a) == StoppedBy(pod.handle.value.containerId, pod.handle, reason, graceMs, a)
  {
  }

  /** The pass after a stop command stops the pod's container once, with the grace the command asked for up to
      30 seconds, and asks for its status; only if it is seen stopped is it removed and the pod ended. */
  lemma {:induction false} StopThenPass(s: State, id: PodId, graceMs: U64, h: HandlerAnswers, now: nat, env: Environment, later: nat)
    requires Inv(s) && id in s.pods && Stoppable(s.pods[id]) && s.pods[id].handle.Some?
    ensures
      var t := Deliver(s, StopPod(id, graceMs), h, now);
      && Inv(t) && Ready(t) && id in t.pods
      && Shows(t, Drive(t, env, later), id,
               StoppedBy(s.pods[id].handle.value.containerId, s.pods[id].handle, Reason(s, id), graceMs, env(id)))
  {
    var t := Deliver(s, StopPod(id, graceMs), h, now);
    StopDelivered(s, id, graceMs, h, now);
    StopKeepsInv(s, id, graceMs, now);
    StoppedByShows(t.pods[id], Reason(t, id), graceMs, env(id));
    StoppingPod(t, env, later, id);
  }

  lemma StoppedByEnds(container: Text, handle: Option<Handle>, graceMs: U64, a: Answers, exitCode: I32)
    requires a.status == Ok(StoppedStatus(exitCode)) && a.remove.Ok? && a.unmount.Ok?
    ensures
      var v := StoppedBy(container, handle, None, graceMs, a);
      v.phase == Stopped(exitCode) && v.handle.None? && v.reports == [ReportStopped(exitCode)]
  {
  }

  lemma EndedIsOver(t: State, u: State, id: PodId)
    requires id in t.pods && !t.pods[id].Terminal() && (id in u.pods ==> u.pods[id].Terminal())
    ensures id in Over(t, u) && Over(t, u)[id] == t.pods[id]
  {
  }

  /** So if the container is seen stopped and everything is cleaned up, the pod has ended with that exit code,
      this was reported once, and its reservation was given back. */
  lemma {:induction false} StopEnds(s: State, id: PodId, graceMs: U64, h: HandlerAnswers, now: nat, env: Environment, later: nat, exitCode: I32)
    requires Inv(s) && id in s.pods && Stoppable(s.pods[id]) && s.pods[id].handle.Some? && Reason(s, id).None?
    requires env(id).status == Ok(StoppedStatus(exitCode)) && env(id).remove.Ok? && env(id).unmount.Ok?
    ensures Ready(Deliver(s, StopPod(id, graceMs), h, now))
    ensures
      var t := Deliver(s, StopPod(id, graceMs), h, now);
      var u := Drive(t, env, later);
      && (id in u.pods ==> u.pods[id].phase == Stopped(exitCode) && u.pods[id].handle.None?)
      && PodReports.About(u.sent, id) == PodReports.About(s.sent, id) + [ReportStopped(exitCode)]
      && id in Over(t, u) && Over(t, u)[id].demand == s.pods[id].demand
      && u.alloc == SaturatingMinus(s.alloc, Reserved(Over(t, u)))
  {
    var t := Deliver(s, StopPod(id, graceMs), h, now);
    StopDelivered(s, id, graceMs, h, now);
    StopThenPass(s, id, graceMs, h, now, env, later);
    StoppedByEnds(s.pods[id].handle.value.containerId, s.pods[id].handle, graceMs, env(id), exitCode);
    EndedIsOver(t, Drive(t, env, later), id);
    PassReleases(t, env, later);
  }

  // -- What a stop command means for the rest of the run --

  /** Stopping, or ended. */
  predicate Winding(pod: Pod) {
    pod.phase.Stopping? || pod.phase.Stopped? || pod.phase.Failed?
  }

  lemma WindsOn(s: State, e: Event, id: PodId)
    requires Inv(s) && id in s.pods && Winding(s.pods[id])
    requires Next(s, e).Some? && id in Next(s, e).value.pods
    ensures Winding(Next(s, e).value.pods[id])
  {
    NextFollows(s, e, id);
  }

  lemma {:induction false} WindsDown(start: State, events: seq<Event>, id: PodId)
    requires Inv(start) && Tracked(start, events, id) && id in start.pods && Winding(start.pods[id])
    ensures Winding(Run(start, events).value.pods[id])
  {
    if events != [] {
      var front := events[..|events| - 1];
      var before := Run(start, front).value;
      WindsDown(start, front, id);
      RunKeepsInv(start, front, before);
      WindsOn(before, events[|events| - 1], id);
    }
  }

  /** Once a stop command was delivered to a tracked pod, the pod never runs again while it stays tracked,
      whatever else happens: it is stopping or has ended. */
  lemma {:induction false} NeverRunsAgain(s: State, id: PodId, graceMs: U64, h: HandlerAnswers, now: nat, events: seq<Event>)
    requires Inv(s) && id in s.pods
    requires Tracked(Deliver(s, StopPod(id, graceMs), h, now), events, id)
    ensures
      var last := Run(Deliver(s, StopPod(id, graceMs), h, now), events).value;
      && !last.pods[id].phase.Running? && Winding(last.pods[id])
      && forall deploymentId :: id !in Routable(last, deploymentId)
  {
    StopDelivered(s, id, graceMs, h, now);
    StopKeepsInv(s, id, graceMs, now);
    WindsDown(Deliver(s, StopPod(id, graceMs), h, now), events, id);
  }

  // -- Run requests --

  /** A pod that can serve a deployment: it runs, has a port and holds a container. */
  predicate Serves(s: State, deploymentId: U64, id: PodId) {
    && id in s.pods && s.pods[id].phase.Running? && s.pods[id].service.deploymentId == deploymentId
    && s.pods[id].service.port > 0 && s.pods[id].handle.Some?
  }

  /** With no pod to serve it, a run request is answered with status 7 and nothing is called. */
  lemma {:induction false} RunUnserved(s: State, requestId: U64, deploymentId: U64, payload: Bytes, a: HandlerAnswers, now: nat)
    requires forall id: PodId :: !Serves(s, deploymentId, id)
    ensures
      var t := Deliver(s, RunRequest(requestId, deploymentId, payload), a, now);
      t == s.(sent := s.sent + [RunResponse(requestId, 7, Ascii("no running pod for deployment ") + Decimal(deploymentId))])
  {
    forall id: PodId
      ensures id !in Routable(s, deploymentId)
    {
      assert !Serves(s, deploymentId, id);
    }
    assert Routable(s, deploymentId) == {};
  }

  /** The answer to a forwarded request: status 0 with the body that came back, 4 if it was too large and 6 if
      forwarding failed, with the error. */
  function Answered(requestId: U64, f: ForwardAnswer): WorkerMessage {
    match f
    case Forwarded(body) => RunResponse(requestId, 0, body)
    case TooLarge(e) => RunResponse(requestId, 4, e)
    case ForwardError(e) => RunResponse(requestId, 6, e)
  }

  /** Otherwise it is forwarded once, to the container of the serving pod with the smallest id, and answered
      with what came of that; nothing else changes. */
  lemma {:induction false} RunServed(s: State, requestId: U64, deploymentId: U64, payload: Bytes, a: HandlerAnswers, now: nat, id: PodId)
    requires Serves(s, deploymentId, id) && forall j: PodId | Serves(s, deploymentId, j) :: id <= j
    ensures
      var t := Deliver(s, RunRequest(requestId, deploymentId, payload), a, now);
      && t == s.(ledgers := t.ledgers, sent := s.sent + [Answered(requestId, a.forward)])
      && LedgerOf(t, id).calls == LedgerOf(s, id).calls + [ForwardRun(s.pods[id].handle.value.containerId)]
      && LedgerOf(t, id) == LedgerOf(s, id).(calls := LedgerOf(t, id).calls)
      && forall j: PodId | j != id :: LedgerOf(t, j) == LedgerOf(s, j)
  {
    var routable := Routable(s, deploymentId);
    assert id in routable;
    forall j: PodId | j in routable
      ensures id <= j
    {
      assert Serves(s, deploymentId, j);
    }
    assert Serves(s, deploymentId, LeastId(routable));
    assert LeastId(routable) == id;
  }

  /** The response has status 7 if and only if no pod can serve the deployment. */
  lemma {:induction false} NoPodIff(s: State, requestId: U64, deploymentId: U64, payload: Bytes, a: HandlerAnswers, now: nat)
    ensures
      var t := Deliver(s, RunRequest(requestId, deploymentId, payload), a, now);
      && |t.sent| == |s.sent| + 1 && t.sent[|s.sent|].RunResponse? && t.sent[|s.sent|].requestId == requestId
      && (t.sent[|s.sent|].status == 7 <==> forall id: PodId :: !Serves(s, deploymentId, id))
  {
    if forall id: PodId :: !Serves(s, deploymentId, id) {
      RunUnserved(s, requestId, deploymentId, payload, a, now);
    } else {
      var routable := Routable(s, deploymentId);
      var id: PodId :| Serves(s, deploymentId, id);
      assert id in routable;
      var least := LeastId(routable);
      forall j: PodId | Serves(s, deploymentId, j)
        ensures least <= j
      {
        assert j in routable;
      }
      RunServed(s, requestId, deploymentId, payload, a, now, least);
    }
  }

  // -- Probes and status --

  /** How a phase is reported: a pod that is being stopped still counts as running. */
  predicate Reported(phase: Phase, r: PodStatusReport) {
    match phase
    case ImagePulling => r == ReportImagePulling
    case Creating => r == ReportCreating
    case Starting => r == ReportCreating
    case Running => r == ReportRunning
    case Stopping => r == ReportRunning
    case Stopped(exitCode) => r == ReportStopped(exitCode)
    case Failed(reason) => r == ReportFailed(reason)
  }

  /** A probe command for a tracked pod is answered with its phase; any other one is ignored. */
  lemma ProbeDelivered(s: State, id: PodId, a: HandlerAnswers, now: nat)
    ensures
      var t := Deliver(s, ProbePod(id), a, now);
      if id in s.pods then
        && t == s.(sent := t.sent) && |t.sent| == |s.sent| + 1 && t.sent[..|s.sent|] == s.sent
        && t.sent[|s.sent|].PodStatusEvent? && t.sent[|s.sent|].podId == id
        && Reported(s.pods[id].phase, t.sent[|s.sent|].report)
      else t == s
  {
  }

  // -- Start commands --

  /** There is room for a demand of one resource: it fits the total, or the total is the largest value there is. */
  predicate RoomFor(alloc: int, demand: int, total: int, max: int) {
    alloc + demand <= total || total == max
  }

  predicate HasRoom(s: State, cmd: StartPodCmd) {
    && |s.pods| < 4096
    && (cmd.gpuCount == 0 || cmd.gpuType == s.gpuType)
    && RoomFor(s.alloc.gpu, cmd.gpuCount, s.total.gpu, 255)
    && RoomFor(s.alloc.cpu, cmd.cpuMillicores, s.total.cpu, 0xFFFF_FFFF)
    && RoomFor(s.alloc.memory, cmd.memoryMegabytes, s.total.memory, 0xFFFF_FFFF)
  }

  /** What is recorded of an admitted pod. */
  predicate Recorded(pod: Pod, cmd: StartPodCmd, a: HandlerAnswers, now: nat) {
    && pod.id == cmd.podId && pod.phase == ImagePulling && pod.handle.None?
    && pod.service.deploymentId == cmd.deploymentId && pod.service.image == cmd.image && pod.service.port == cmd.port
    && pod.service.livenessPath == cmd.livenessPath && pod.service.readinessPath == cmd.readinessPath
    && pod.private.entrypoint == cmd.entrypoint && pod.private.envVars == a.envVars && pod.private.juicefsPath == cmd.juicefsPath
    && pod.demand.gpu == cmd.gpuCount && pod.demand.cpu == cmd.cpuMillicores && pod.demand.memory == cmd.memoryMegabytes
    && (pod.private.auth.None? <==> cmd.pullUsername == [] && a.password == [])
    && (pod.private.auth.Some? ==>
          pod.private.auth.value == PullAuth(cmd.pullRegistry, cmd.pullUsername, a.password))
    && pod.failures == 0 && pod.probeFailures == 0 && pod.lastProbe == now && pod.retryAfter == 0
  }

  lemma FitsIffRoom(s: State, cmd: StartPodCmd)
    requires Prune(s.pods, MAX_TERMINAL_TOMBSTONES) == s.pods && cmd.podId !in s.pods
    ensures Admits(s, cmd) <==> HasRoom(s, cmd)
  {
  }

  lemma NewIsRecorded(cmd: StartPodCmd, a: HandlerAnswers, now: nat)
    ensures Recorded(NewPod(cmd, a, now), cmd, a, now)
  {
  }

  lemma {:induction false} AdmitIs(s: State, cmd: StartPodCmd, a: HandlerAnswers, now: nat)
    ensures
      var t := Admit(s, cmd, a, now);
      && t.pods == s.pods[cmd.podId := NewPod(cmd, a, now)]
      && t.sent == s.sent + [PodStatusEvent(cmd.podId, ReportImagePulling)]
      && t == s.(pods := t.pods, alloc := t.alloc, ledgers := t.ledgers, sent := t.sent)
  {
  }

  lemma {:induction false} StartIsAdmit(s: State, cmd: StartPodCmd, a: HandlerAnswers, now: nat)
    requires Inv(s) && cmd.podId !in s.pods && HasRoom(s, cmd)
    ensures Deliver(s, StartPod(cmd), a, now) == Admit(s, cmd, a, now)
  {
    PruneNothing(s.pods, MAX_TERMINAL_TOMBSTONES);
    FitsIffRoom(s, cmd);
    StartOutcome(s, cmd, a, now);
  }

  /** What admitting a pod changes. */
  ghost predicate TakenOn(s: State, t: State, cmd: StartPodCmd, a: HandlerAnswers, now: nat) {
    && t.pods.Keys == s.pods.Keys + {cmd.podId} && Recorded(t.pods[cmd.podId], cmd, a, now)
    && (forall id | id in s.pods :: t.pods[id] == s.pods[id])
    && t.sent == s.sent + [PodStatusEvent(cmd.podId, ReportImagePulling)]
    && t == s.(pods := t.pods, alloc := t.alloc, ledgers := t.ledgers, sent := t.sent)
  }

  lemma {:induction false} AdmitAdmits(s: State, cmd: StartPodCmd, a: HandlerAnswers, now: nat)
    requires cmd.podId !in s.pods
    ensures TakenOn(s, Admit(s, cmd, a, now), cmd, a, now)
  {
    AdmitIs(s, cmd, a, now);
    NewIsRecorded(cmd, a, now);
  }

  /** A start command for an untracked pod is admitted if there is room for it; then the pod is recorded as the
      command says and is to be pulled, and nothing else changes but the counters. */
  lemma {:induction false} StartAdmitted(s: State, cmd: StartPodCmd, a: HandlerAnswers, now: nat)
    requires Inv(s) && cmd.podId !in s.pods && HasRoom(s, cmd)
    ensures TakenOn(s, Deliver(s, StartPod(cmd), a, now), cmd, a, now)
  {
    StartIsAdmit(s, cmd, a, now);
    AdmitAdmits(s, cmd, a, now);
  }

  /** Why it is refused: the first of the tests that fails, in this order. */
  predicate RefusedFor(s: State, cmd: StartPodCmd, why: Text) {
    if |s.pods| >= 4096 then why == Ascii("worker tracked-pod capacity exhausted")
    else if cmd.gpuCount != 0 && cmd.gpuType != s.gpuType then why == Ascii("requested GPU type does not match worker GPU type")
    else if !RoomFor(s.alloc.gpu, cmd.gpuCount, s.total.gpu, 255) then why == Ascii("insufficient GPU capacity")
    else if !RoomFor(s.alloc.cpu, cmd.cpuMillicores, s.total.cpu, 0xFFFF_FFFF) then why == Ascii("insufficient CPU capacity")
    else why == Ascii("insufficient memory capacity")
  }

  /** Otherwise it is reported as failed, with the reason, and nothing changes. */
  lemma {:induction false} StartRefused(s: State, cmd: StartPodCmd, a: HandlerAnswers, now: nat) returns (why: Text)
    requires Inv(s) && cmd.podId !in s.pods && !HasRoom(s, cmd)
    ensures RefusedFor(s, cmd, why)
    ensures Deliver(s, StartPod(cmd), a, now) == s.(sent := s.sent + [PodStatusEvent(cmd.podId, ReportFailed(why))])
  {
    PruneNothing(s.pods, MAX_TERMINAL_TOMBSTONES);
    FitsIffRoom(s, cmd);
    why := RejectReason(s, cmd);
  }

  /** A start command for a tracked pod only reports its phase. */
  lemma StartRepeated(s: State, cmd: StartPodCmd, a: HandlerAnswers, now: nat)
    requires cmd.podId in s.pods
    ensures
      var t := Deliver(s, StartPod(cmd), a, now);
      && t == s.(sent := t.sent) && |t.sent| == |s.sent| + 1 && t.sent[..|s.sent|] == s.sent
      && t.sent[|s.sent|].PodStatusEvent? && t.sent[|s.sent|].podId == cmd.podId
      && Reported(s.pods[cmd.podId].phase, t.sent[|s.sent|].report)
  {
  }

  // -- Registration and heartbeats --

  /** A worker that is not registered sends one registration with its name and its totals, and one that is
      sends none. */
  lemma Registers(s: State, now: nat)
    ensures
      var t := Register(s, now);
      if s.registered then t == s
      else
        && t == s.(sent := t.sent, registered := true, lastHeartbeat := now)
        && |t.sent| == |s.sent| + 1 && t.sent[..|s.sent|] == s.sent && t.sent[|s.sent|].NodeRegister?
        && t.sent[|s.sent|].nodeName == s.nodeName && t.sent[|s.sent|].gpuType == s.gpuType
        && t.sent[|s.sent|].gpuCount == s.total.gpu && t.sent[|s.sent|].cpuMillicores == s.total.cpu
        && t.sent[|s.sent|].memoryMegabytes == s.total.memory
  {
  }

  lemma {:induction false} ShutdownKeepsRegistered(s: State, ids: seq<PodId>, answers: PodId -> ShutdownAnswers)
    ensures ShutdownAll(s, ids, answers).registered == s.registered
  {
    if ids != [] {
      ShutdownKeepsRegistered(s, ids[..|ids| - 1], answers);
    }
  }

  /** Registration ends exactly with the session and begins only with a registration. */
  lemma {:induction false} RegisteredAfter(s: State, e: Event)
    requires Next(s, e).Some?
    ensures Next(s, e).value.registered == (if e.SessionLost? then false else if e.Registering? then true else s.registered)
  {
    match e
    case ShuttingDown(answers, visits) =>
      var ids := Snapshot(s.pods);
      ShutdownKeepsRegistered(s, ids[..Min(visits, |ids|)], answers);
    case _ =>
  }

  /** A heartbeat is sent every 100 ticks, with the number of pods that run; with exact accounts the free GPUs
      and those reserved by live pods make up the node's. */
  lemma {:induction false} Beats(s: State, now: nat, running: set<PodId>)
    requires forall id: PodId :: id in running <==> id in s.pods && s.pods[id].phase == Running
    ensures
      var t := Heartbeat(s, now);
      if now - s.lastHeartbeat < 100 then t == s
      else
        && t == s.(sent := t.sent, lastHeartbeat := now)
        && |t.sent| == |s.sent| + 1 && t.sent[..|s.sent|] == s.sent && t.sent[|s.sent|].NodeHeartbeat?
        && t.sent[|s.sent|].tick == now && t.sent[|s.sent|].activePods == |running|
        && (Exact(s) ==> t.sent[|s.sent|].gpuFree + Reserved(s.pods).gpu == s.total.gpu)
  {
    assert RunningPods(s.pods) == running;
  }
}
