/**
 The worker as a state machine over values: its record of pods, pending failure reasons and
 reservation counters, a ledger per pod of what the runtime calls have done, and the messages it has sent, and the
 effect of every event on them. A lifecycle pass is given in closed form: every pod takes its own
 step, independently of the others, and surplus tombstones are pruned once.
 */
module WorkerState {
  import opened Basics
  import opened Messages
  import opened Ordering
  import opened Lifecycle
  import opened Tombstones

  const HEARTBEAT_INTERVAL_TICKS: nat := 100
  const DEFAULT_SHUTDOWN_GRACE_MS: nat := 15_000

  const STATUS_OK: U8 := 0
  const STATUS_RESPONSE_TOO_LARGE: U8 := 4
  const STATUS_FORWARDING_FAILED: U8 := 6
  const STATUS_NO_RUNNING_POD: U8 := 7

  type Ledgers = map<PodId, Ledger>
  type Environment = PodId -> Answers

  datatype State = State(
    pods: Pods,
    pending: map<PodId, Text>,
    alloc: Amounts,
    total: Amounts,
    gpuType: GpuType,
    nodeName: Text,
    registered: bool,
    lastHeartbeat: int,
    ledgers: Ledgers,
    sent: seq<WorkerMessage>)

  function LedgerOf(s: State, id: PodId): Ledger {
    if id in s.ledgers then s.ledgers[id] else BLANK
  }

  function Reason(s: State, id: PodId): Option<Text> {
    if id in s.pending then Some(s.pending[id]) else None
  }

  function Send(s: State, m: WorkerMessage): State {
    s.(sent := s.sent + [m])
  }

  function Tell(id: PodId, reports: seq<PodStatusReport>): (ms: seq<WorkerMessage>)
    ensures |ms| == |reports|
  {
    seq(|reports|, i requires 0 <= i < |reports| => PodStatusEvent(id, reports[i]))
  }

  function SaturatingMinus(a: Amounts, r: Resources): Amounts
    requires NOTHING.Within(r)
  {
    Resources(SaturatingSub(a.gpu, r.gpu), SaturatingSub(a.cpu, r.cpu), SaturatingSub(a.memory, r.memory))
  }

  // -- Reservations --

  function Share(pod: Pod): Resources {
    if pod.Terminal() then NOTHING else pod.demand
  }

  /** The sum of the demands of all pods that are not terminal. */
  ghost function Reserved(pods: Pods): (sum: Resources)
    ensures NOTHING.Within(sum)
  {
    if pods == map[] then NOTHING
    else
      var id :| id in pods;
      Share(pods[id]).Plus(Reserved(pods - {id}))
  }

  /** The counters are exactly the reservations, and the reservations fit the node. */
  ghost predicate Exact(s: State) {
    s.alloc == Reserved(s.pods) && s.alloc.Within(s.total)
  }

  // -- One pod at a time --

  function Begin(s: State, id: PodId): Step
    requires id in s.pods
  {
    Step(s.pods[id], Reason(s, id), LedgerOf(s, id), [])
  }

  /** Records a step's pod, reason, ledger and reports. */
  function Put(s: State, id: PodId, r: Step): State {
    s.(pods := s.pods[id := r.pod],
       pending := if r.reason.Some? then s.pending[id := r.reason.value] else s.pending - {id},
       ledgers := s.ledgers[id := r.ledger],
       sent := s.sent + Tell(id, r.reports))
  }

  function Freed(s: State, pod: Pod): Amounts {
    if pod.Terminal() then s.alloc else SaturatingMinus(s.alloc, pod.demand)
  }

  /** Records a step; a pod that became terminal gives its reservation back and is pruned with
      the other tombstones. */
  function Install(s: State, id: PodId, r: Step): State
    requires id in s.pods
  {
    var t := Put(s, id, r);
    if r.pod.Terminal() then
      t.(pods := Prune(t.pods, MAX_TERMINAL_TOMBSTONES), alloc := Freed(s, s.pods[id]))
    else t
  }

  // -- The lifecycle pass --

  /** A running pod always has the handle the source expects. */
  predicate Ready(s: State) {
    forall id | id in s.pods :: s.pods[id].phase.Running? ==> s.pods[id].handle.Some?
  }

  function StepOf(s: State, id: PodId, env: Environment, now: nat): Step
    requires Ready(s) && id in s.pods
  {
    PodStep(Begin(s, id), env(id), now)
  }

  /** Settled while operations are still being collected, before any operation runs. */
  predicate Early(pod: Pod, a: Answers, now: nat) {
    pod.phase.Running? ||
    (pod.phase.Creating? && !Idle(pod, now) && pod.private.juicefsPath != [] && a.mount.Err?)
  }

  /** The place of a pod in a pass: settled early, then starts, then every other operation. */
  function Class(pod: Pod, a: Answers, now: nat): int {
    if Early(pod, a, now) then 0 else if pod.phase.Starting? then 1 else 2
  }

  type Steps = map<PodId, Step>

  /** The steps the pods take in a pass. */
  function PassSteps(s: State, env: Environment, now: nat): Steps
    requires Ready(s)
  {
    map id | id in s.pods && !Idle(s.pods[id], now) :: StepOf(s, id, env, now)
  }

  function PassKeys(s: State, env: Environment, now: nat): set<Key> {
    set id | id in s.pods && !Idle(s.pods[id], now) :: (Class(s.pods[id], env(id), now), id)
  }

  function Ids(keys: seq<Key>): (ids: seq<PodId>)
    requires forall k | k in keys :: 0 <= k.1 <= U64_MAX
    ensures |ids| == |keys|
  {
    seq(|keys|, i requires 0 <= i < |keys| => assert keys[i] in keys; keys[i].1)
  }

  ghost function PassOrder(s: State, env: Environment, now: nat): seq<PodId> {
    Ids(Enumerate(PassKeys(s, env, now)))
  }

  /** The reports of the given steps, pod after pod. */
  function Reports(steps: Steps, order: seq<PodId>): seq<WorkerMessage> {
    if order == [] then []
    else
      var last := order[|order| - 1];
      Reports(steps, order[..|order| - 1]) + if last in steps then Tell(last, steps[last].reports) else []
  }

  function Moved(pods: Pods, steps: Steps): Pods {
    map id | id in pods :: if id in steps then steps[id].pod else pods[id]
  }

  /** The pods whose reservation ends with the given steps. */
  function Ending(pods: Pods, steps: Steps): Pods {
    map id | id in pods && id in steps && !pods[id].Terminal() && steps[id].pod.Terminal() :: pods[id]
  }

  function Pending(pending: map<PodId, Text>, steps: Steps): map<PodId, Text> {
    (map id | id in pending && id !in steps :: pending[id]) +
    (map id | id in steps && steps[id].reason.Some? :: steps[id].reason.value)
  }

  function Extended(ledgers: Ledgers, steps: Steps): Ledgers {
    map id | id in ledgers :: if id in steps then steps[id].ledger else ledgers[id]
  }

  /** Independent steps of different pods, taken together: each pod moves on its own, the
      reservations that end are released, and surplus tombstones are pruned once. */
  ghost function Applied(s: State, steps: Steps, order: seq<PodId>): State {
    s.(pods := Prune(Moved(s.pods, steps), MAX_TERMINAL_TOMBSTONES),
       pending := Pending(s.pending, steps),
       alloc := SaturatingMinus(s.alloc, Reserved(Ending(s.pods, steps))),
       ledgers := Extended(s.ledgers, steps),
       sent := s.sent + Reports(steps, order))
  }

  ghost function Drive(s: State, env: Environment, now: nat): State
    requires Ready(s)
  {
    Applied(s, PassSteps(s, env, now), PassOrder(s, env, now))
  }

  /** The steps already taken when the collection loop reaches `id`. */
  function StepsBefore(s: State, id: PodId, env: Environment, now: nat): Steps
    requires Ready(s)
  {
    map j | j in s.pods && j < id && Early(s.pods[j], env(j), now) :: StepOf(s, j, env, now)
  }

  /** When the collection loop reaches this tombstone, 1024 newer ones have pushed it out. */
  predicate PanicsAt(s: State, id: PodId, env: Environment, now: nat)
    requires Ready(s) && id in s.pods
  {
    s.pods[id].Terminal() && |Newer(Moved(s.pods, StepsBefore(s, id, env, now)), id)| >= MAX_TERMINAL_TOMBSTONES
  }

  /** The collection loop indexes every id of its snapshot; it panics when one has been pruned. */
  ghost predicate DrivePanics(s: State, env: Environment, now: nat)
    requires Ready(s)
  {
    exists id :: id in s.pods && PanicsAt(s, id, env, now)
  }

  // -- Messages --

  datatype ForwardAnswer = Forwarded(body: Bytes) | TooLarge(error: Text) | ForwardError(error: Text)

  /** Secrets fetched for a start and the reply of a forwarded request. */
  datatype HandlerAnswers = HandlerAnswers(envVars: seq<(Text, Text)>, password: Text, forward: ForwardAnswer)

  function Demand(cmd: StartPodCmd): Amounts {
    Resources(cmd.gpuCount, cmd.cpuMillicores, cmd.memoryMegabytes)
  }

  /** The admission test, with the source's saturating additions. */
  predicate FitsSaturating(alloc: Amounts, demand: Amounts, total: Amounts) {
    && SaturatingAdd(alloc.gpu, demand.gpu, U8_MAX) <= total.gpu
    && SaturatingAdd(alloc.cpu, demand.cpu, U32_MAX) <= total.cpu
    && SaturatingAdd(alloc.memory, demand.memory, U32_MAX) <= total.memory
  }

  /** The plain additions that follow it, which wrap in the counters' own types. */
  function WrappingPlus(a: Amounts, b: Amounts): Amounts {
    Resources((a.gpu + b.gpu) % (U8_MAX + 1), (a.cpu + b.cpu) % (U32_MAX + 1), (a.memory + b.memory) % (U32_MAX + 1))
  }

  function NewPod(cmd: StartPodCmd, a: HandlerAnswers, now: nat): Pod {
    var auth := if cmd.pullUsername != [] || a.password != []
                then Some(PullAuth(cmd.pullRegistry, cmd.pullUsername, a.password)) else None;
    Pod(cmd.podId,
        Service(cmd.deploymentId, cmd.image, cmd.port, cmd.livenessPath, cmd.readinessPath),
        Private(cmd.entrypoint, a.envVars, cmd.juicefsPath, auth),
        ImagePulling, None, now, Demand(cmd), 0, now, 0, 0, 0)
  }

  /** Whether a start command for an untracked id is admitted. */
  predicate Admits(s: State, cmd: StartPodCmd) {
    && cmd.podId !in s.pods
    && |Prune(s.pods, MAX_TERMINAL_TOMBSTONES)| < MAX_TRACKED_PODS
    && !(cmd.gpuCount > 0 && cmd.gpuType != s.gpuType)
    && FitsSaturating(s.alloc, Demand(cmd), s.total)
  }

  function Admit(s: State, cmd: StartPodCmd, a: HandlerAnswers, now: nat): State {
    Send(s.(alloc := WrappingPlus(s.alloc, Demand(cmd)),
            pods := s.pods[cmd.podId := NewPod(cmd, a, now)],
            ledgers := s.ledgers[cmd.podId := Record(LedgerOf(s, cmd.podId), Admitted)]),
         PodStatusEvent(cmd.podId, ReportImagePulling))
  }

  /** Why a start command for an untracked id is refused: the first test that fails. */
  function RejectReason(s: State, cmd: StartPodCmd): Text {
    if |s.pods| >= MAX_TRACKED_PODS then Ascii("worker tracked-pod capacity exhausted")
    else if cmd.gpuCount > 0 && cmd.gpuType != s.gpuType then Ascii("requested GPU type does not match worker GPU type")
    else if SaturatingAdd(s.alloc.gpu, cmd.gpuCount, U8_MAX) > s.total.gpu then Ascii("insufficient GPU capacity")
    else if SaturatingAdd(s.alloc.cpu, cmd.cpuMillicores, U32_MAX) > s.total.cpu then Ascii("insufficient CPU capacity")
    else Ascii("insufficient memory capacity")
  }

  function HandleStart(s: State, cmd: StartPodCmd, a: HandlerAnswers, now: nat): State {
    if cmd.podId in s.pods then
      Send(s, PodStatusEvent(cmd.podId, s.pods[cmd.podId].phase.Report()))
    else
      var p := s.(pods := Prune(s.pods, MAX_TERMINAL_TOMBSTONES));
      if Admits(s, cmd) then Admit(p, cmd, a, now)
      else Send(p, PodStatusEvent(cmd.podId, ReportFailed(RejectReason(p, cmd))))
  }

  function HandleStop(s: State, id: PodId, graceMs: nat, now: nat): State {
    if id in s.pods && (s.pods[id].phase.ImagePulling? || s.pods[id].phase.Creating?
                        || s.pods[id].phase.Starting? || s.pods[id].phase.Running?) then
      s.(pods := s.pods[id := Condemn(s.pods[id], now).(graceMs := Min(graceMs, MAX_STOP_GRACE_MS))])
    else s
  }

  function HandleProbe(s: State, id: PodId): State {
    if id in s.pods then Send(s, PodStatusEvent(id, s.pods[id].phase.Report())) else s
  }

  function Routable(s: State, deploymentId: U64): set<PodId> {
    set id | id in s.pods && s.pods[id].service.deploymentId == deploymentId && s.pods[id].phase.Running?
             && s.pods[id].service.port > 0 && s.pods[id].handle.Some?
  }

  ghost function LeastId(ids: set<PodId>): (least: PodId)
    requires ids != {}
    ensures least in ids && forall j | j in ids :: least <= j
  {
    var keys := set id | id in ids :: (0, id);
    var one :| one in ids;
    assert (0, one) in keys;
    LeastExists(keys);
    var m :| IsLeast(m, keys);
    assert forall j | j in ids :: (0, j) in keys;
    m.1
  }

  function Decimal(n: nat): Text {
    (if n < 10 then [] else Decimal(n / 10)) + [48 + n % 10]
  }

  function NoRunningPod(deploymentId: U64): Text {
    Ascii("no running pod for deployment ") + Decimal(deploymentId)
  }

  /** One response per request, answered by the running pod with the smallest id. */
  ghost function HandleRun(s: State, requestId: U64, deploymentId: U64, a: HandlerAnswers): State {
    var routable := Routable(s, deploymentId);
    if routable == {} then Send(s, RunResponse(requestId, STATUS_NO_RUNNING_POD, NoRunningPod(deploymentId)))
    else
      var id := LeastId(routable);
      var called := s.(ledgers := s.ledgers[id := Record(LedgerOf(s, id), ForwardRun(s.pods[id].handle.value.containerId))]);
      match a.forward
      case Forwarded(body) => Send(called, RunResponse(requestId, STATUS_OK, body))
      case TooLarge(e) => Send(called, RunResponse(requestId, STATUS_RESPONSE_TOO_LARGE, e))
      case ForwardError(e) => Send(called, RunResponse(requestId, STATUS_FORWARDING_FAILED, e))
  }

  ghost function Deliver(s: State, m: ControlMessage, a: HandlerAnswers, now: nat): State {
    match m
    case StartPod(cmd) => HandleStart(s, cmd, a, now)
    case StopPod(id, graceMs) => HandleStop(s, id, graceMs, now)
    case ProbePod(id) => HandleProbe(s, id)
    case RunRequest(requestId, deploymentId, _) =>
      HandleRun(s, requestId, deploymentId, a)
  }

  // -- Registration and heartbeat --

  function Register(s: State, now: nat): State {
    if s.registered then s
    else Send(s, NodeRegister(s.nodeName, s.total.cpu, s.total.memory, s.gpuType, s.total.gpu))
         .(registered := true, lastHeartbeat := now)
  }

  function RunningPods(pods: Pods): set<PodId> {
    set id | id in pods && pods[id].phase.Running?
  }

  function Heartbeat(s: State, now: nat): State {
    if now >= s.lastHeartbeat + HEARTBEAT_INTERVAL_TICKS then
      Send(s, NodeHeartbeat(now, |RunningPods(s.pods)|, SaturatingSub(s.total.gpu, s.alloc.gpu)))
      .(lastHeartbeat := now)
    else s
  }

  // -- Shutdown --

  /** One bounded stop attempt; no time left ends the attempts. */
  datatype StopAttempt = StopAttempt(remainingMs: int, stop: Outcome<()>, status: Outcome<RuntimeStatus>)

  datatype ShutdownAnswers = ShutdownAnswers(
    attempts: seq<StopAttempt>,
    poll: Outcome<RuntimeStatus>,
    remove: Outcome<()>,
    unmount: Outcome<()>)

  function Verified(status: Outcome<RuntimeStatus>): Option<I32> {
    if status.Ok? && status.value.StoppedStatus? then Some(status.value.exitCode) else None
  }

  function TryStops(r: Step, attempts: seq<StopAttempt>, budget: int, graceMs: int): (Step, Option<I32>)
    requires r.pod.handle.Some?
    decreases budget
  {
    if budget <= 0 || attempts == [] || attempts[0].remainingMs == 0 then (r, None)
    else
      var a := attempts[0];
      var containerId := r.pod.handle.value.containerId;
      var tried := r.Called(StopPodCall(containerId, Min(graceMs, a.remainingMs), a.stop.Ok?))
                    .Called(QueryStatus(containerId));
      if Verified(a.status).Some? then (tried, Verified(a.status))
      else TryStops(tried, attempts[1..], budget - 1, graceMs)
  }

  function ShutdownStop(r: Step, a: ShutdownAnswers): (Step, Option<I32>)
    requires r.pod.handle.Some?
  {
    var graceMs := if r.pod.graceMs > 0 then r.pod.graceMs else DEFAULT_SHUTDOWN_GRACE_MS;
    var budget := SaturatingSub(STOP_ATTEMPT_MAX, r.pod.failures);
    if budget > 0 then TryStops(r, a.attempts, budget, graceMs)
    else (r.Called(QueryStatus(r.pod.handle.value.containerId)), Verified(a.poll))
  }

  function VerifyExit(r: Step, a: ShutdownAnswers): (Step, Option<I32>) {
    if r.pod.phase.Stopped? then (r, Some(r.pod.phase.exitCode))
    else if r.pod.handle.None? then (r, Some(0))
    else ShutdownStop(r, a)
  }

  /** Ownership and reservation are kept; only the status may be polled from here on. */
  function Abandon(pod: Pod): Pod {
    pod.(phase := Stopping, failures := STOP_ATTEMPT_MAX, retryAfter := U64_MAX)
  }

  /** How the end of a live pod is reported. */
  function EndReport(reason: Option<Text>, exitCode: I32): PodStatusReport {
    if reason.Some? then ReportFailed(reason.value) else ReportStopped(exitCode)
  }

  /** What shutdown does to one pod, and whether the pod is gone afterwards. */
  function ShutdownStep(r: Step, a: ShutdownAnswers): (Step, bool) {
    var (tried, exit) := VerifyExit(r, a);
    if exit.None? then
      (if r.pod.Terminal() then tried else tried.With(Abandon(r.pod)), false)
    else
      var removed := if r.pod.handle.Some? then tried.Called(RemovePod(r.pod.handle.value.containerId, a.remove.Ok?))
                     else tried;
      if r.pod.handle.Some? && a.remove.Err? then (removed.With(Abandon(r.pod)), false)
      else
        var bare := r.pod.(handle := None);
        var unmounted := removed.With(bare).Called(UnmountVolume(a.unmount.Ok?));
        if a.unmount.Err? then (unmounted.With(Abandon(bare)), false)
        else
          var done := unmounted.(reason := None);
          (if r.pod.Terminal() then done
           else done.Told(EndReport(r.reason, exit.value)), true)
  }

  function ShutdownOne(s: State, id: PodId, a: ShutdownAnswers): State {
    if id !in s.pods then s
    else
      var (r, gone) := ShutdownStep(Begin(s, id), a);
      var t := Put(s, id, r);
      if gone then t.(pods := t.pods - {id}, alloc := Freed(s, s.pods[id])) else t
  }

  function ShutdownAll(s: State, ids: seq<PodId>, answers: PodId -> ShutdownAnswers): State {
    if ids == [] then s
    else
      var last := ids[|ids| - 1];
      ShutdownOne(ShutdownAll(s, ids[..|ids| - 1], answers), last, answers(last))
  }

  ghost function Snapshot(pods: Pods): seq<PodId> {
    Ids(Enumerate(set id | id in pods :: (0, id)))
  }

  /** Shutdown visits the snapshot in id order until the deadline, here after `visits` pods. */
  ghost function Shutdown(s: State, answers: PodId -> ShutdownAnswers, visits: nat): State {
    var ids := Snapshot(s.pods);
    ShutdownAll(s, ids[..Min(visits, |ids|)], answers)
  }

  // -- Runs --

  datatype Event =
    | SessionLost
    | Registering(now: nat)
    | Delivering(message: ControlMessage, handler: HandlerAnswers, now: nat)
    | Driving(env: Environment, now: nat)
    | Beating(now: nat)
    | ShuttingDown(answers: PodId -> ShutdownAnswers, visits: nat)

  /** The state after one event; `None` when the process has panicked. */
  ghost function Next(s: State, e: Event): Option<State> {
    match e
    case SessionLost => Some(s.(registered := false))
    case Registering(now) => Some(Register(s, now))
    case Delivering(m, a, now) => Some(Deliver(s, m, a, now))
    case Driving(env, now) => if !Ready(s) || DrivePanics(s, env, now) then None else Some(Drive(s, env, now))
    case Beating(now) => Some(Heartbeat(s, now))
    case ShuttingDown(answers, visits) => Some(Shutdown(s, answers, visits))
  }

  ghost function Run(s: State, events: seq<Event>): Option<State> {
    if events == [] then Some(s)
    else
      var before := Run(s, events[..|events| - 1]);
      if before.None? then None else Next(before.value, events[|events| - 1])
  }

  function Initial(nodeName: Text, gpuType: GpuType, total: Amounts): State {
    State(map[], map[], NOTHING, total, gpuType, nodeName, false, 0, map[], [])
  }
}
