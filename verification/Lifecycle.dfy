/**
 One tracked pod: its record, the runtime calls made for it, and what one pass of the worker
 does to it as a function of that pod and of the runtime's answers alone.

 The runtime and the volume helpers may answer anything. `Answers` holds what they answer for one
 pod during one pass; a pass makes each of these calls at most once per pod.
 */
module Lifecycle {
  import opened Basics
  import opened Messages

  type PodId = U64

  const RETRY_MAX: nat := 3
  const RETRY_DELAY_TICKS: nat := 25
  const STOP_ATTEMPT_MAX: nat := 3
  const STOP_RETRY_DELAY_TICKS: nat := 25
  const MAX_STOP_GRACE_MS: nat := 30_000
  const PROBE_INTERVAL_MS: nat := 10_000

  datatype Resources = Resources(gpu: int, cpu: int, memory: int)
  {
    function Plus(r: Resources): Resources {
      Resources(gpu + r.gpu, cpu + r.cpu, memory + r.memory)
    }
    predicate Within(r: Resources) {
      gpu <= r.gpu && cpu <= r.cpu && memory <= r.memory
    }
  }
  const NOTHING := Resources(0, 0, 0)
  const MACHINE_MAX := Resources(U8_MAX, U32_MAX, U32_MAX)

  /** Amounts held in the source's `u8` and `u32` fields. */
  type Amounts = r: Resources | NOTHING.Within(r) && r.Within(MACHINE_MAX) witness Resources(0, 0, 0)

  datatype Phase =
    | ImagePulling
    | Creating
    | Starting
    | Running
    | Stopping
    | Stopped(exitCode: I32)
    | Failed(reason: Text)
  {
    predicate Terminal() { Stopped? || Failed? }

    function Report(): PodStatusReport {
      match this
      case Running => ReportRunning
      case Stopped(exitCode) => ReportStopped(exitCode)
      case Failed(reason) => ReportFailed(reason)
      case ImagePulling => ReportImagePulling
      case Creating | Starting => ReportCreating
      case Stopping => ReportRunning
    }
  }

  datatype Handle = Handle(podId: PodId, containerId: Text)
  datatype PullAuth = PullAuth(registry: Text, username: Text, password: Text)

  /** The part of a pod's record that never changes. */
  datatype Service = Service(deploymentId: U64, image: Text, port: U16, livenessPath: Text, readinessPath: Text)

  /** The part that is wiped once the pod is terminal. */
  datatype Private = Private(entrypoint: Text, envVars: seq<(Text, Text)>, juicefsPath: Text, auth: Option<PullAuth>)
  const WIPED := Private([], [], [], None)

  datatype Pod = Pod(
    id: PodId,
    service: Service,
    private: Private,
    phase: Phase,
    handle: Option<Handle>,
    changedAt: int,
    demand: Amounts,
    graceMs: int,
    lastProbe: int,
    probeFailures: int,
    failures: int,
    retryAfter: int)
  {
    predicate Terminal() { phase.Terminal() }
  }

  datatype RuntimeStatus = CreatedStatus | RunningStatus | StoppedStatus(exitCode: I32) | UnknownStatus

  /** What was asked of the runtime and the volume helpers for one pod, with the answer. */
  datatype Call =
    | Admitted
    | PullImage(ok: bool)
    | MountVolume(ok: bool)
    | CreatePod(mounts: seq<Text>, container: Option<Text>)
    | StartPodCall(containerId: Text, ok: bool)
    | QueryStatus(containerId: Text)
    | ProbeCall(containerId: Text)
    | ForwardRun(containerId: Text)
    | StopPodCall(containerId: Text, graceMs: int, ok: bool)
    | RemovePod(containerId: Text, ok: bool)
    | UnmountVolume(ok: bool)

  datatype Answers = Answers(
    pull: Outcome<()>,
    mount: Outcome<Text>,
    create: Outcome<Text>,
    start: Outcome<()>,
    status: Outcome<RuntimeStatus>,
    probe: Outcome<bool>,
    stop: Outcome<()>,
    remove: Outcome<()>,
    unmount: Outcome<()>)

  /** Expensive runtime calls. */
  datatype Work = Work(pulls: int, creates: int, starts: int, stops: int)
  {
    predicate Within(w: Work) {
      pulls <= w.pulls && creates <= w.creates && starts <= w.starts && stops <= w.stops
    }
  }
  const NO_WORK := Work(0, 0, 0, 0)

  /** What the calls made for one pod id have done outside the worker: the containers created and
      not yet successfully removed, whether a mount was tried since the last successful unmount,
      the work spent since the id was last admitted, and the calls themselves in order. */
  datatype Ledger = Ledger(live: set<Text>, mayBeMounted: bool, spent: Work, calls: seq<Call>)

  const BLANK := Ledger({}, false, NO_WORK, [])

  function Record(l: Ledger, c: Call): Ledger {
    var w := l.spent;
    var noted := l.(calls := l.calls + [c]);
    match c
    case Admitted => noted.(spent := NO_WORK)
    case PullImage(_) => noted.(spent := w.(pulls := w.pulls + 1))
    case MountVolume(_) => noted.(mayBeMounted := true)
    case CreatePod(_, container) =>
      noted.(spent := w.(creates := w.creates + 1),
             live := if container.Some? then l.live + {container.value} else l.live)
    case StartPodCall(_, _) => noted.(spent := w.(starts := w.starts + 1))
    case StopPodCall(_, _, _) => noted.(spent := w.(stops := w.stops + 1))
    case RemovePod(containerId, ok) => noted.(live := if ok then l.live - {containerId} else l.live)
    case UnmountVolume(ok) => noted.(mayBeMounted := l.mayBeMounted && !ok)
    case _ => noted
  }

  /** A pod in the middle of a step: its record, its pending failure reason, its ledger, and the
      status reports sent about it so far. */
  datatype Step = Step(pod: Pod, reason: Option<Text>, ledger: Ledger, reports: seq<PodStatusReport>)
  {
    function Called(c: Call): Step { this.(ledger := Record(ledger, c)) }
    function Told(r: PodStatusReport): Step { this.(reports := reports + [r]) }
    function With(p: Pod): Step { this.(pod := p) }
  }

  /** Secrets and paths are dropped once a pod is terminal. */
  function Scrub(pod: Pod): Pod {
    pod.(private := WIPED)
  }

  /** Ownership is retained and cleanup starts, with a fresh budget of stop attempts. */
  function Condemn(pod: Pod, now: nat): Pod {
    pod.(phase := Stopping, changedAt := now, graceMs := 0, failures := 0, retryAfter := 0)
  }

  function StopRetry(pod: Pod, now: nat): Pod {
    pod.(failures := Min(SaturatingAdd(pod.failures, 1, U8_MAX), STOP_ATTEMPT_MAX),
         retryAfter := SaturatingAdd(now, STOP_RETRY_DELAY_TICKS, U64_MAX))
  }

  /** A failed pod stays owned while a container or a volume may be left behind. */
  function Fail(r: Step, why: Text, a: Answers, now: nat): Step {
    if r.pod.handle.Some? then
      r.With(Condemn(r.pod, now)).(reason := Some(why))
    else
      var unmounted := r.Called(UnmountVolume(a.unmount.Ok?));
      if a.unmount.Err? then
        unmounted.With(Condemn(r.pod, now)).(reason := Some(why))
      else
        unmounted.With(Scrub(r.pod.(phase := Failed(why), changedAt := now))).Told(ReportFailed(why))
  }

  /** A verified stop becomes terminal only after removal and unmount both succeeded. */
  function CompleteStop(r: Step, exitCode: I32, a: Answers, now: nat): Step {
    var removed := if r.pod.handle.Some? then r.Called(RemovePod(r.pod.handle.value.containerId, a.remove.Ok?)) else r;
    if r.pod.handle.Some? && a.remove.Err? then
      removed.With(StopRetry(r.pod, now))
    else
      var bare := r.pod.(handle := None);
      var unmounted := removed.With(bare).Called(UnmountVolume(a.unmount.Ok?));
      if a.unmount.Err? then
        unmounted.With(StopRetry(bare, now))
      else
        var phase := if r.reason.Some? then Failed(r.reason.value) else Stopped(exitCode);
        unmounted.With(Scrub(bare.(phase := phase, changedAt := now, retryAfter := 0)))
                 .(reason := None).Told(phase.Report())
  }

  function StepPulling(r: Step, a: Answers, now: nat): Step {
    var pulled := r.Called(PullImage(a.pull.Ok?));
    match a.pull
    case Ok(_) => pulled.With(r.pod.(phase := Creating, changedAt := now)).Told(ReportCreating)
    case Err(e) => Fail(pulled, e, a, now)
  }

  /** A requested volume is mounted before the container is created, or the pod fails. */
  function StepCreating(r: Step, a: Answers, now: nat): Step {
    if r.pod.private.juicefsPath == [] then
      Create(r, [], a, now)
    else
      var mounted := r.Called(MountVolume(a.mount.Ok?));
      match a.mount
      case Ok(hostPath) => Create(mounted, [hostPath], a, now)
      case Err(e) => Fail(mounted, Ascii("juicefs mount failed: ") + e, a, now)
  }

  function Create(r: Step, mounts: seq<Text>, a: Answers, now: nat): Step {
    match a.create
    case Ok(containerId) =>
      r.Called(CreatePod(mounts, Some(containerId)))
       .With(r.pod.(handle := Some(Handle(r.pod.id, containerId)), phase := Starting, changedAt := now, retryAfter := 0))
    case Err(e) =>
      Fail(r.Called(CreatePod(mounts, None)), e, a, now)
  }

  /** The base delay shifted left by the failure count, which is 1 or 2 here. */
  function RetryDelay(failures: int): int {
    RETRY_DELAY_TICKS * (if failures <= 0 then 1 else if failures == 1 then 2 else 4)
  }

  predicate MayRetry(pod: Pod) {
    SaturatingAdd(pod.failures, 1, U8_MAX) < RETRY_MAX
  }

  function Delayed(pod: Pod, now: nat): Pod {
    pod.(failures := pod.failures + 1,
         retryAfter := SaturatingAdd(now, RetryDelay(pod.failures + 1), U64_MAX))
  }

  /** A failed start is retried from a new container, but only after the old one is gone. */
  function StepStarting(r: Step, a: Answers, now: nat): Step
    requires r.pod.handle.Some?
  {
    var containerId := r.pod.handle.value.containerId;
    var started := r.Called(StartPodCall(containerId, a.start.Ok?));
    match a.start
    case Ok(_) =>
      started.With(r.pod.(phase := Running, changedAt := now, failures := 0, retryAfter := 0)).Told(ReportRunning)
    case Err(e) =>
      if MayRetry(r.pod) then
        var delayed := Delayed(r.pod, now);
        var removed := started.With(delayed).Called(RemovePod(containerId, a.remove.Ok?));
        match a.remove
        case Ok(_) => removed.With(delayed.(handle := None, phase := Creating, changedAt := now))
        case Err(cleanup) =>
          Fail(removed, e + Ascii("; failed start cleanup remains unverified: ") + cleanup, a, now)
      else
        Fail(started, e, a, now)
  }

  predicate ShouldProbe(pod: Pod, now: nat) {
    pod.service.livenessPath != [] && pod.service.port > 0 && now >= pod.lastProbe + PROBE_INTERVAL_MS
  }

  /** A running pod stays routable only while the runtime proves that it runs. */
  function StepRunning(r: Step, a: Answers, now: nat): Step
    requires r.pod.handle.Some?
  {
    var containerId := r.pod.handle.value.containerId;
    var asked := r.Called(QueryStatus(containerId));
    match a.status
    case Ok(RunningStatus) =>
      if ShouldProbe(r.pod, now) then
        var probed := asked.Called(ProbeCall(containerId)).With(r.pod.(lastProbe := now));
        if a.probe == Ok(true) then
          probed.With(probed.pod.(probeFailures := 0))
        else
          var worse := probed.With(probed.pod.(probeFailures := SaturatingAdd(r.pod.probeFailures, 1, U8_MAX)));
          if worse.pod.probeFailures >= 3 then Fail(worse, Ascii("liveness probe failed"), a, now) else worse
      else
        asked
    case Ok(StoppedStatus(exitCode)) =>
      CompleteStop(asked.With(r.pod.(phase := Stopping, changedAt := now, graceMs := 0,
                                     failures := STOP_ATTEMPT_MAX, retryAfter := 0)), exitCode, a, now)
    case Ok(_) => Fail(asked, Ascii("runtime no longer proves pod is running"), a, now)
    case Err(e) => Fail(asked, Ascii("runtime status verification failed: ") + e, a, now)
  }

  /** After three attempts only the status is polled. */
  function StepStopping(r: Step, a: Answers, now: nat): Step {
    if r.pod.handle.None? then
      CompleteStop(r, 0, a, now)
    else
      var containerId := r.pod.handle.value.containerId;
      var stopped := if r.pod.failures < STOP_ATTEMPT_MAX
                     then r.Called(StopPodCall(containerId, r.pod.graceMs, a.stop.Ok?)) else r;
      var asked := stopped.Called(QueryStatus(containerId));
      if a.status.Ok? && a.status.value.StoppedStatus? then
        CompleteStop(asked, a.status.value.exitCode, a, now)
      else
        asked.With(StopRetry(r.pod, now))
  }

  /** Whether a pass leaves the pod alone: it is terminal, or it waits for its retry tick. */
  predicate Idle(pod: Pod, now: nat) {
    match pod.phase
    case ImagePulling | Running => false
    case Creating | Stopping => pod.retryAfter > now
    case Starting => pod.retryAfter > now || pod.handle.None?
    case Stopped(_) | Failed(_) => true
  }

  /** What one pass does to one pod. */
  function PodStep(r: Step, a: Answers, now: nat): Step
    requires r.pod.phase.Running? ==> r.pod.handle.Some?
  {
    if Idle(r.pod, now) then r
    else
      match r.pod.phase
      case ImagePulling => StepPulling(r, a, now)
      case Creating => StepCreating(r, a, now)
      case Starting => StepStarting(r, a, now)
      case Running => StepRunning(r, a, now)
      case Stopping => StepStopping(r, a, now)
  }
}
