/** Every event keeps the worker's invariant: message handlers, lifecycle passes and shutdown. */
module WorkerEvents {
  import opened Basics
  import opened Messages
  import opened Lifecycle
  import opened PodSafety
  import opened Tombstones
  import opened WorkerState
  import opened WorkerPass

  /** Only one pod's record, reason and ledger differ. */
  ghost predicate OnlyAt(s: State, t: State, id: PodId) {
    && (forall j: PodId | j != id :: (j in t.pods <==> j in s.pods) && (j in t.pods ==> t.pods[j] == s.pods[j]))
    && (forall j: PodId | j != id :: Reason(t, j) == Reason(s, j))
    && (forall j: PodId | j != id :: (j in t.ledgers <==> j in s.ledgers) && (j in s.ledgers ==> t.ledgers[j] == s.ledgers[j]))
  }

  lemma ElsewhereKeeps(s: State, t: State, id: PodId)
    requires Inv(s) && OnlyAt(s, t, id) && InvAt(t, id)
    ensures forall j: PodId :: InvAt(t, j)
  {
    forall j: PodId
      ensures InvAt(t, j)
    {
      if j != id {
        assert InvAt(s, j);
        assert Reason(t, j) == Reason(s, j);
      }
    }
  }

  // -- Start --

  lemma NewPodSane(cmd: StartPodCmd, a: HandlerAnswers, now: nat, l: Ledger)
    requires l.live == {}
    ensures Sane(NewPod(cmd, a, now), None, Record(l, Admitted))
  {
  }

  lemma OneMorePod(pods: Pods, id: PodId, pod: Pod)
    requires id !in pods && !pod.Terminal()
    ensures TombstonesOf(pods[id := pod]) == TombstonesOf(pods)
    ensures |pods[id := pod]| == |pods| + 1
  {
    assert pods[id := pod].Keys == pods.Keys + {id};
  }

  lemma AdmitKeepsInv(s: State, cmd: StartPodCmd, a: HandlerAnswers, now: nat)
    requires Inv(s) && cmd.podId !in s.pods && |s.pods| < MAX_TRACKED_PODS
    ensures Inv(Admit(s, cmd, a, now))
  {
    var id := cmd.podId;
    var t := Admit(s, cmd, a, now);
    assert InvAt(t, id) by {
      assert InvAt(s, id);
      NewPodSane(cmd, a, now, LedgerOf(s, id));
      assert Reason(t, id) == None;
    }
    ElsewhereKeeps(s, t, id);
    OneMorePod(s.pods, id, NewPod(cmd, a, now));
  }

  /** A start command is admitted, or only answered. */
  lemma StartOutcome(s: State, cmd: StartPodCmd, a: HandlerAnswers, now: nat)
    requires Prune(s.pods, MAX_TERMINAL_TOMBSTONES) == s.pods
    ensures if Admits(s, cmd) then HandleStart(s, cmd, a, now) == Admit(s, cmd, a, now)
            else exists m :: HandleStart(s, cmd, a, now) == Send(s, m)
  {
    if !Admits(s, cmd) && cmd.podId !in s.pods {
      var why := RejectReason(s, cmd);
      assert HandleStart(s, cmd, a, now) == Send(s, PodStatusEvent(cmd.podId, ReportFailed(why)));
    } else if cmd.podId in s.pods {
      assert HandleStart(s, cmd, a, now) == Send(s, PodStatusEvent(cmd.podId, s.pods[cmd.podId].phase.Report()));
    }
  }

  lemma StartKeepsInv(s: State, cmd: StartPodCmd, a: HandlerAnswers, now: nat)
    requires Inv(s)
    ensures Inv(HandleStart(s, cmd, a, now))
  {
    PruneNothing(s.pods, MAX_TERMINAL_TOMBSTONES);
    StartOutcome(s, cmd, a, now);
    if Admits(s, cmd) {
      AdmitKeepsInv(s, cmd, a, now);
    } else {
      var m :| HandleStart(s, cmd, a, now) == Send(s, m);
      SameRecords(s, Send(s, m));
    }
  }

  /** A start command leaves every tracked pod as it is. */
  lemma StartLeavesTracked(s: State, cmd: StartPodCmd, a: HandlerAnswers, now: nat, id: PodId)
    requires Inv(s) && id in s.pods
    ensures id in HandleStart(s, cmd, a, now).pods && HandleStart(s, cmd, a, now).pods[id] == s.pods[id]
  {
    PruneNothing(s.pods, MAX_TERMINAL_TOMBSTONES);
    StartOutcome(s, cmd, a, now);
  }

  /** Messages and registration do not touch the pods. */
  lemma SameRecords(s: State, t: State)
    requires Inv(s) && t.pods == s.pods && t.pending == s.pending && t.ledgers == s.ledgers
    ensures Inv(t)
  {
    forall j: PodId
      ensures InvAt(t, j)
    {
      assert InvAt(s, j);
      assert Reason(t, j) == Reason(s, j);
    }
  }

  // -- Stop, probe and run --

  lemma StopKeepsInv(s: State, id: PodId, graceMs: nat, now: nat)
    requires Inv(s)
    ensures Inv(HandleStop(s, id, graceMs, now))
  {
    var t := HandleStop(s, id, graceMs, now);
    if t != s {
      assert InvAt(s, id);
      assert InvAt(t, id) by { assert Reason(t, id) == Reason(s, id); }
      ElsewhereKeeps(s, t, id);
      assert TombstonesOf(t.pods) == TombstonesOf(s.pods);
      assert t.pods.Keys == s.pods.Keys;
    } else {
      SameRecords(s, t);
    }
  }

  lemma ForwardKeepsInv(s: State, id: PodId, c: Text, m: WorkerMessage)
    requires Inv(s) && id in s.pods
    requires !s.pods[id].Terminal()
    ensures Inv(Send(s.(ledgers := s.ledgers[id := Record(LedgerOf(s, id), ForwardRun(c))]), m))
  {
    var t := Send(s.(ledgers := s.ledgers[id := Record(LedgerOf(s, id), ForwardRun(c))]), m);
    assert InvAt(s, id);
    assert Reason(t, id) == Reason(s, id);
    assert InvAt(t, id);
    ElsewhereKeeps(s, t, id);
  }

  lemma RunRequestKeepsInv(s: State, requestId: U64, deploymentId: U64, a: HandlerAnswers)
    requires Inv(s)
    ensures Inv(HandleRun(s, requestId, deploymentId, a))
  {
    if Routable(s, deploymentId) == {} {
      SameRecords(s, HandleRun(s, requestId, deploymentId, a));
    } else {
      var id := LeastId(Routable(s, deploymentId));
      var c := s.pods[id].handle.value.containerId;
      match a.forward
      case Forwarded(body) => ForwardKeepsInv(s, id, c, RunResponse(requestId, STATUS_OK, body));
      case TooLarge(e) => ForwardKeepsInv(s, id, c, RunResponse(requestId, STATUS_RESPONSE_TOO_LARGE, e));
      case ForwardError(e) => ForwardKeepsInv(s, id, c, RunResponse(requestId, STATUS_FORWARDING_FAILED, e));
    }
  }

  // -- Shutdown --

  /** Stop attempts keep the container held and are charged against the remaining budget. */
  lemma {:induction false} TryStopsKeeps(r: Step, attempts: seq<StopAttempt>, budget: int, graceMs: int)
    requires 0 <= budget && r.pod.handle.Some?
    ensures
      var (tried, exit) := TryStops(r, attempts, budget, graceMs);
      && tried.pod == r.pod && tried.reason == r.reason && tried.reports == r.reports
      && tried.ledger.live == r.ledger.live
      && tried.ledger.spent.(stops := 0) == r.ledger.spent.(stops := 0)
      && tried.ledger.spent.stops <= r.ledger.spent.stops + budget
    decreases budget
  {
    if budget <= 0 || attempts == [] || attempts[0].remainingMs == 0 {
    } else {
      var a := attempts[0];
      var c := r.pod.handle.value.containerId;
      var tried := r.Called(StopPodCall(c, Min(graceMs, a.remainingMs), a.stop.Ok?)).Called(QueryStatus(c));
      if Verified(a.status).None? {
        TryStopsKeeps(tried, attempts[1..], budget - 1, graceMs);
      }
    }
  }

  lemma VerifyExitKeeps(r: Step, a: ShutdownAnswers)
    requires SaneStep(r)
    ensures
      var (tried, exit) := VerifyExit(r, a);
      && tried.pod == r.pod && tried.reason == r.reason && tried.reports == r.reports
      && tried.ledger.live == r.ledger.live
      && tried.ledger.spent.Within(WORK_MAX)
      && (r.pod.Terminal() ==> exit.Some?)
  {
    if !r.pod.phase.Stopped? && r.pod.handle.Some? {
      var graceMs := if r.pod.graceMs > 0 then r.pod.graceMs else DEFAULT_SHUTDOWN_GRACE_MS;
      var budget := SaturatingSub(STOP_ATTEMPT_MAX, r.pod.failures);
      if budget > 0 {
        TryStopsKeeps(r, a.attempts, budget, graceMs);
        StopBudget(r.ledger.spent, r.pod, TryStops(r, a.attempts, budget, graceMs).0.ledger.spent);
      }
    }
  }

  lemma StopBudget(w: Work, pod: Pod, v: Work)
    requires WorkFits(pod, w) && !pod.Terminal()
    requires v.(stops := 0) == w.(stops := 0) && v.stops <= w.stops + SaturatingSub(STOP_ATTEMPT_MAX, pod.failures)
    ensures v.Within(WORK_MAX)
  {
    assert v.pulls == v.(stops := 0).pulls && v.creates == v.(stops := 0).creates && v.starts == v.(stops := 0).starts;
  }

  /** Shutdown leaves a pod in good order, or leaves nothing of it. */
  lemma ShutdownStepKeeps(r: Step, a: ShutdownAnswers)
    requires SaneStep(r)
    ensures
      var (done, gone) := ShutdownStep(r, a);
      && (gone ==> done.reason.None? && Clean(done.ledger))
      && (!gone ==> SaneStep(done) && !done.pod.Terminal())
  {
    VerifyExitKeeps(r, a);
  }

  lemma ShutdownFrame(r: Step, a: ShutdownAnswers)
    requires 0 <= r.pod.failures
    ensures ShutdownStep(r, a).0.pod.id == r.pod.id
    ensures ShutdownStep(r, a).0.pod.demand == r.pod.demand
  {
    if r.pod.handle.Some? && !r.pod.phase.Stopped? {
      var graceMs := if r.pod.graceMs > 0 then r.pod.graceMs else DEFAULT_SHUTDOWN_GRACE_MS;
      TryStopsKeeps(r, a.attempts, SaturatingSub(STOP_ATTEMPT_MAX, r.pod.failures), graceMs);
    }
  }

  lemma FewerPods(pods: Pods, less: Pods)
    requires less.Keys <= pods.Keys && TombstonesOf(less) <= TombstonesOf(pods)
    ensures |less| <= |pods| && |TombstonesOf(less)| <= |TombstonesOf(pods)|
  {
    CardSubset(less.Keys, pods.Keys);
    CardSubset(TombstonesOf(less), TombstonesOf(pods));
  }

  /** A pod's record is replaced by a live one. */
  lemma PutKeepsInv(s: State, id: PodId, r: Step)
    requires Inv(s) && id in s.pods && id in s.ledgers && r.pod.id == id
    requires SaneStep(r) && !r.pod.Terminal()
    ensures Inv(Put(s, id, r))
  {
    var t := Put(s, id, r);
    assert InvAt(t, id);
    ElsewhereKeeps(s, t, id);
    FewerPods(s.pods, t.pods);
  }

  function Dropped(s: State, id: PodId, r: Step, alloc: Amounts): State {
    Put(s, id, r).(pods := Put(s, id, r).pods - {id}, alloc := alloc)
  }

  lemma DroppedElsewhere(s: State, id: PodId, r: Step, alloc: Amounts)
    ensures OnlyAt(s, Dropped(s, id, r, alloc), id)
    ensures Dropped(s, id, r, alloc).pods == s.pods - {id}
  {
  }

  /** A pod's record is dropped with nothing left behind. */
  lemma DropKeepsInv(s: State, id: PodId, r: Step, alloc: Amounts)
    requires Inv(s) && id in s.pods && id in s.ledgers
    requires Clean(r.ledger) && r.reason.None?
    ensures Inv(Dropped(s, id, r, alloc))
  {
    var t := Dropped(s, id, r, alloc);
    assert InvAt(t, id);
    DroppedElsewhere(s, id, r, alloc);
    ElsewhereKeeps(s, t, id);
    FewerPods(s.pods, t.pods);
  }

  lemma ShutdownOneKeepsInv(s: State, id: PodId, a: ShutdownAnswers)
    requires Inv(s)
    ensures Inv(ShutdownOne(s, id, a))
  {
    if id in s.pods {
      assert InvAt(s, id);
      var (r, gone) := ShutdownStep(Begin(s, id), a);
      ShutdownStepKeeps(Begin(s, id), a);
      ShutdownFrame(Begin(s, id), a);
      if gone {
        DropKeepsInv(s, id, r, Freed(s, s.pods[id]));
      } else {
        PutKeepsInv(s, id, r);
      }
    }
  }

  lemma {:induction false} ShutdownAllKeepsInv(s: State, ids: seq<PodId>, answers: PodId -> ShutdownAnswers)
    requires Inv(s)
    ensures Inv(ShutdownAll(s, ids, answers))
  {
    if ids != [] {
      var front := ids[..|ids| - 1];
      var last := ids[|ids| - 1];
      ShutdownAllKeepsInv(s, front, answers);
      ShutdownOneKeepsInv(ShutdownAll(s, front, answers), last, answers(last));
    }
  }

  // -- All events --

  lemma DeliverKeepsInv(s: State, m: ControlMessage, a: HandlerAnswers, now: nat)
    requires Inv(s)
    ensures Inv(Deliver(s, m, a, now))
  {
    match m
    case StartPod(cmd) => StartKeepsInv(s, cmd, a, now);
    case StopPod(id, graceMs) => StopKeepsInv(s, id, graceMs, now);
    case ProbePod(id) => SameRecords(s, HandleProbe(s, id));
    case RunRequest(requestId, deploymentId, _) => RunRequestKeepsInv(s, requestId, deploymentId, a);
  }

  lemma ShutdownKeepsInv(s: State, answers: PodId -> ShutdownAnswers, visits: nat)
    requires Inv(s)
    ensures Inv(Shutdown(s, answers, visits))
  {
    var ids := Snapshot(s.pods);
    ShutdownAllKeepsInv(s, ids[..Min(visits, |ids|)], answers);
  }

  lemma DriveKeepsInv(s: State, env: Environment, now: nat)
    requires Inv(s) && Ready(s)
    ensures Inv(Drive(s, env, now))
  {
    DriveIsSequential(s, env, now);
  }

  lemma RegisterKeepsInv(s: State, now: nat)
    requires Inv(s)
    ensures Inv(Register(s, now)) && Inv(Heartbeat(s, now)) && Inv(s.(registered := false))
  {
    SameRecords(s, Register(s, now));
    SameRecords(s, Heartbeat(s, now));
    SameRecords(s, s.(registered := false));
  }

  lemma {:induction false} PassKeepsInv(s: State, env: Environment, now: nat)
    requires Inv(s)
    ensures Next(s, Driving(env, now)).Some? ==> Inv(Next(s, Driving(env, now)).value)
  {
    InvReady(s);
    DriveKeepsInv(s, env, now);
  }

  lemma {:induction false} NextKeepsInv(s: State, e: Event)
    requires Inv(s)
    ensures Next(s, e).Some? ==> Inv(Next(s, e).value)
  {
    match e
    case SessionLost => RegisterKeepsInv(s, 0);
    case Registering(now) => RegisterKeepsInv(s, now);
    case Delivering(m, a, now) => DeliverKeepsInv(s, m, a, now);
    case Driving(env, now) => PassKeepsInv(s, env, now);
    case Beating(now) => RegisterKeepsInv(s, now);
    case ShuttingDown(answers, visits) => ShutdownKeepsInv(s, answers, visits);
  }
}
