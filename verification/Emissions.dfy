/**
 What a worker sends over a whole run: every message can be encoded, no heartbeat count is cut to
 fit its field, and the responses are exactly one per run request, in order.
 */
module Emissions {
  import opened Basics
  import opened Messages
  import opened Wire
  import opened AgentCodec
  import opened Lifecycle
  import opened Tombstones
  import opened WorkerState
  import opened WorkerPass
  import opened WorkerRuns

  /** The request ids of the responses among the messages. */
  function ResponseIds(sent: seq<WorkerMessage>): seq<U64> {
    if sent == [] then []
    else
      var m := sent[|sent| - 1];
      ResponseIds(sent[..|sent| - 1]) + if m.RunResponse? then [m.requestId] else []
  }

  /** The request ids delivered by an event. */
  function RequestIds(e: Event): seq<U64> {
    if e.Delivering? && e.message.RunRequest? then [e.message.requestId] else []
  }

  function AllRequestIds(events: seq<Event>): seq<U64> {
    if events == [] then [] else AllRequestIds(events[..|events| - 1]) + RequestIds(events[|events| - 1])
  }

  lemma {:induction false} ResponsesBoth(a: seq<WorkerMessage>, b: seq<WorkerMessage>)
    ensures ResponseIds(a + b) == ResponseIds(a) + ResponseIds(b)
  {
    if b == [] {
      assert a + b == a;
    } else {
      var front := b[..|b| - 1];
      assert (a + b)[..|a + b| - 1] == a + front;
      ResponsesBoth(a, front);
    }
  }

  lemma {:induction false} NoResponses(sent: seq<WorkerMessage>)
    requires forall i | 0 <= i < |sent| :: !sent[i].RunResponse?
    ensures ResponseIds(sent) == []
  {
    if sent != [] {
      NoResponses(sent[..|sent| - 1]);
    }
  }

  lemma ResponsesOne(m: WorkerMessage)
    ensures ResponseIds([m]) == if m.RunResponse? then [m.requestId] else []
  {
    assert [m][..0] == [];
  }

  /** A message the encoder takes as it is. */
  predicate Fine(m: WorkerMessage) {
    && Typed(m) && Encodable(m, MAX_FRAME_PAYLOAD)
    && (m.NodeHeartbeat? ==> 0 <= m.activePods <= MAX_TRACKED_PODS)
  }

  ghost predicate AllFine(sent: seq<WorkerMessage>) {
    forall i | 0 <= i < |sent| :: Fine(sent[i])
  }

  /** Only status reports. */
  predicate OnlyReports(sent: seq<WorkerMessage>) {
    forall i | 0 <= i < |sent| :: sent[i].PodStatusEvent?
  }

  /** An event appended these messages. */
  ghost predicate Appends(s: State, t: State, e: Event, more: seq<WorkerMessage>) {
    t.sent == s.sent + more && AllFine(more) && ResponseIds(more) == RequestIds(e)
  }

  lemma {:induction false} ReportsOnly(steps: Steps, order: seq<PodId>)
    ensures OnlyReports(Reports(steps, order))
  {
    if order != [] {
      ReportsOnly(steps, order[..|order| - 1]);
    }
  }

  lemma ReportsAreFine(sent: seq<WorkerMessage>)
    requires OnlyReports(sent)
    ensures AllFine(sent) && ResponseIds(sent) == []
  {
    NoResponses(sent);
  }

  lemma {:induction false} ShutdownTells(s: State, ids: seq<PodId>, answers: PodId -> ShutdownAnswers)
    returns (more: seq<WorkerMessage>)
    ensures ShutdownAll(s, ids, answers).sent == s.sent + more && OnlyReports(more)
  {
    if ids == [] {
      more := [];
    } else {
      var last := ids[|ids| - 1];
      var before := ShutdownTells(s, ids[..|ids| - 1], answers);
      var t := ShutdownAll(s, ids[..|ids| - 1], answers);
      var told := ShutdownOneTells(t, last, answers(last));
      more := before + told;
      assert s.sent + before + told == s.sent + (before + told);
    }
  }

  lemma ShutdownOneTells(s: State, id: PodId, a: ShutdownAnswers) returns (more: seq<WorkerMessage>)
    ensures ShutdownOne(s, id, a).sent == s.sent + more && OnlyReports(more)
  {
    more := if id in s.pods then Tell(id, ShutdownStep(Begin(s, id), a).0.reports) else [];
  }

  lemma {:induction false} StartTells(s: State, cmd: StartPodCmd, a: HandlerAnswers, now: nat) returns (more: seq<WorkerMessage>)
    ensures HandleStart(s, cmd, a, now).sent == s.sent + more && OnlyReports(more)
  {
    var p := s.(pods := Prune(s.pods, MAX_TERMINAL_TOMBSTONES));
    var report := if cmd.podId in s.pods then s.pods[cmd.podId].phase.Report()
                  else if Admits(s, cmd) then ReportImagePulling
                  else ReportFailed(RejectReason(p, cmd));
    more := [PodStatusEvent(cmd.podId, report)];
  }

  /** One response to the request that asked for it: status 7 without a pod to route it to, and otherwise what
      came of forwarding it. */
  lemma {:induction false} RunTells(s: State, requestId: U64, deploymentId: U64, a: HandlerAnswers) returns (m: WorkerMessage)
    ensures HandleRun(s, requestId, deploymentId, a).sent == s.sent + [m]
    ensures m.RunResponse? && m.requestId == requestId && (m.status == 7 <==> Routable(s, deploymentId) == {})
    ensures m.status != 7 ==>
      match a.forward
      case Forwarded(body) => m.status == 0 && m.payload == body
      case TooLarge(e) => m.status == 4 && m.payload == e
      case ForwardError(e) => m.status == 6 && m.payload == e
  {
    if Routable(s, deploymentId) == {} {
      m := RunResponse(requestId, STATUS_NO_RUNNING_POD, NoRunningPod(deploymentId));
    } else {
      match a.forward
      case Forwarded(body) => m := RunResponse(requestId, STATUS_OK, body);
      case TooLarge(e) => m := RunResponse(requestId, STATUS_RESPONSE_TOO_LARGE, e);
      case ForwardError(e) => m := RunResponse(requestId, STATUS_FORWARDING_FAILED, e);
    }
  }

  lemma DeliverTells(s: State, e: Event) returns (more: seq<WorkerMessage>)
    requires e.Delivering?
    ensures Appends(s, Deliver(s, e.message, e.handler, e.now), e, more)
  {
    match e.message
    case StartPod(cmd) =>
      more := StartTells(s, cmd, e.handler, e.now);
      ReportsAreFine(more);
    case StopPod(id, graceMs) => more := [];
    case ProbePod(id) =>
      more := if id in s.pods then [PodStatusEvent(id, s.pods[id].phase.Report())] else [];
      ReportsAreFine(more);
    case RunRequest(requestId, deploymentId, _) =>
      var m := RunTells(s, requestId, deploymentId, e.handler);
      more := [m];
      ResponsesOne(m);
  }

  lemma RunningAreTracked(pods: Pods)
    ensures |RunningPods(pods)| <= |pods|
  {
    CardSubset(RunningPods(pods), pods.Keys);
  }

  lemma HeartbeatTells(s: State, now: nat) returns (more: seq<WorkerMessage>)
    requires Inv(s) && now <= U64_MAX
    ensures Appends(s, Heartbeat(s, now), Beating(now), more)
  {
    var t := Heartbeat(s, now);
    more := t.sent[|s.sent|..];
    RunningAreTracked(s.pods);
    NoResponses(more);
  }

  lemma RegisterTells(s: State, now: nat) returns (more: seq<WorkerMessage>)
    ensures Appends(s, Register(s, now), Registering(now), more)
  {
    var t := Register(s, now);
    more := t.sent[|s.sent|..];
    NoResponses(more);
  }

  /** A heartbeat's tick is a 64-bit number. */
  predicate TickFits(e: Event) {
    e.Beating? ==> e.now <= U64_MAX
  }

  lemma {:induction false} NextTells(s: State, e: Event) returns (more: seq<WorkerMessage>)
    requires Inv(s) && Next(s, e).Some? && TickFits(e)
    ensures Appends(s, Next(s, e).value, e, more)
  {
    match e
    case SessionLost => more := [];
    case Registering(now) => more := RegisterTells(s, now);
    case Delivering(_, _, _) => more := DeliverTells(s, e);
    case Driving(env, now) =>
      more := Reports(PassSteps(s, env, now), PassOrder(s, env, now));
      ReportsOnly(PassSteps(s, env, now), PassOrder(s, env, now));
      ReportsAreFine(more);
    case Beating(now) => more := HeartbeatTells(s, now);
    case ShuttingDown(answers, visits) =>
      var ids := Snapshot(s.pods);
      more := ShutdownTells(s, ids[..Min(visits, |ids|)], answers);
      ReportsAreFine(more);
  }

  /** Over every run: each message sent is what the encoder takes and can be encoded into a frame, heartbeat
      counts fit their field, and the responses answer the delivered run requests one for one, in order. */
  lemma {:induction false} RunTellsTruly(start: State, events: seq<Event>, s: State)
    requires Inv(start) && start.sent == [] && Reaches(start, events, s)
    requires forall i | 0 <= i < |events| :: TickFits(events[i])
    ensures AllFine(s.sent) && ResponseIds(s.sent) == AllRequestIds(events)
  {
    if events != [] {
      var front := events[..|events| - 1];
      var e := events[|events| - 1];
      var before := Run(start, front).value;
      RunTellsTruly(start, front, before);
      RunKeepsInv(start, front, before);
      var more := NextTells(before, e);
      ResponsesBoth(before.sent, more);
    }
  }
}
