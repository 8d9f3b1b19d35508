/**
 The counters never exceed the reservations, in any run whatsoever: an overflowing admission and a
 tombstone that is brought back by a failing unmount only make them fall short.
 */
module Coverage {
  import opened Basics
  import opened Messages
  import opened Lifecycle
  import opened Tombstones
  import opened WorkerState
  import opened Accounting
  import opened WorkerPass
  import opened WorkerEvents
  import opened ShutdownAccounts
  import opened WorkerRuns

  /** What the counters hold is reserved by live pods. */
  ghost predicate Covered(s: State) {
    s.alloc.Within(Reserved(s.pods))
  }

  lemma {:induction false} SameCover(s: State, t: State)
    requires Covered(s) && t.pods == s.pods && t.alloc == s.alloc
    ensures Covered(t)
  {
  }

  lemma {:induction false} CoveredByNothing(t: State)
    requires Covered(t) && t.pods == map[]
    ensures t.alloc == NOTHING
  {
  }

  // -- Admission --

  lemma WrapsDown(alloc: Amounts, demand: Amounts, reserved: Resources)
    requires alloc.Within(reserved)
    ensures WrappingPlus(alloc, demand).Within(reserved.Plus(demand))
  {
    Remainder(alloc.gpu + demand.gpu, U8_MAX + 1);
    Remainder(alloc.cpu + demand.cpu, U32_MAX + 1);
    Remainder(alloc.memory + demand.memory, U32_MAX + 1);
  }

  lemma Remainder(v: int, m: int)
    requires 0 <= v && 0 < m
    ensures v % m <= v
  {
    assert v == m * (v / m) + v % m;
    assert v / m >= 0;
    assert m * (v / m) >= 0;
  }

  lemma {:induction false} StartKeepsCovered(s: State, cmd: StartPodCmd, a: HandlerAnswers, now: nat)
    requires Inv(s) && Covered(s)
    ensures Covered(HandleStart(s, cmd, a, now))
  {
    PruneNothing(s.pods, MAX_TERMINAL_TOMBSTONES);
    StartOutcome(s, cmd, a, now);
    if Admits(s, cmd) {
      ReservedPut(s.pods, cmd.podId, NewPod(cmd, a, now));
      WrapsDown(s.alloc, Demand(cmd), Reserved(s.pods));
    } else {
      var m :| HandleStart(s, cmd, a, now) == Send(s, m);
      SameCover(s, Send(s, m));
    }
  }

  lemma {:induction false} StopKeepsCovered(s: State, id: PodId, graceMs: nat, now: nat)
    requires Covered(s)
    ensures Covered(HandleStop(s, id, graceMs, now))
  {
    if HandleStop(s, id, graceMs, now) != s {
      var pod := Condemn(s.pods[id], now).(graceMs := Min(graceMs, MAX_STOP_GRACE_MS));
      ReservedPut(s.pods, id, pod);
      PlusCancels(Reserved(s.pods[id := pod]), Reserved(s.pods), pod.demand);
    }
  }

  lemma {:induction false} RunKeepsCoverage(s: State, requestId: U64, deploymentId: U64, a: HandlerAnswers)
    requires Covered(s)
    ensures Covered(HandleRun(s, requestId, deploymentId, a))
  {
    SameCover(s, HandleRun(s, requestId, deploymentId, a));
  }

  lemma {:induction false} DeliverKeepsCovered(s: State, m: ControlMessage, a: HandlerAnswers, now: nat)
    requires Inv(s) && Covered(s)
    ensures Covered(Deliver(s, m, a, now))
  {
    match m
    case StartPod(cmd) => StartKeepsCovered(s, cmd, a, now);
    case StopPod(id, graceMs) => StopKeepsCovered(s, id, graceMs, now);
    case ProbePod(id) => SameCover(s, HandleProbe(s, id));
    case RunRequest(requestId, deploymentId, _) => RunKeepsCoverage(s, requestId, deploymentId, a);
  }

  // -- Passes --

  lemma MinusWithin(alloc: Amounts, demand: Amounts, rest: Resources)
    requires NOTHING.Within(rest) && alloc.Within(rest.Plus(demand))
    ensures SaturatingMinus(alloc, demand).Within(rest)
  {
  }

  lemma {:induction false} InstallKeepsCovered(s: State, id: PodId, r: Step)
    requires Covered(s) && id in s.pods && !s.pods[id].Terminal() && r.pod.demand == s.pods[id].demand
    ensures Covered(Install(s, id, r))
  {
    var put := s.pods[id := r.pod];
    ReservedPut(s.pods, id, r.pod);
    if r.pod.Terminal() {
      ReservedIgnoresTombstones(put, Prune(put, MAX_TERMINAL_TOMBSTONES));
      AddsNothing(Reserved(s.pods), NOTHING);
      MinusWithin(s.alloc, s.pods[id].demand, Reserved(put));
    } else {
      PlusCancels(Reserved(put), Reserved(s.pods), r.pod.demand);
    }
  }

  lemma {:induction false} SequentialKeepsCovered(s: State, ids: seq<PodId>, env: Environment, now: nat)
    requires Inv(s) && Ready(s) && Order(s, ids, now) && Covered(s)
    ensures Covered(Sequential(s, ids, env, now))
  {
    if ids != [] {
      var front := ids[..|ids| - 1];
      var last := ids[|ids| - 1];
      assert ids == front + [last];
      OrderPrefix(s, ids, env, now);
      SequentialKeepsCovered(s, front, env, now);
      SequentialExtends(s, front, last, env, now);
      var t := Sequential(s, front, env, now);
      StepFrame(Begin(t, last), env(last), now);
      InstallKeepsCovered(t, last, PodStep(Begin(t, last), env(last), now));
    }
  }

  lemma {:induction false} DriveKeepsCovered(s: State, env: Environment, now: nat)
    requires Inv(s) && Ready(s) && Covered(s)
    ensures Covered(Drive(s, env, now))
  {
    PassOrderIsOrder(s, env, now);
    SequentialKeepsCovered(s, PassOrder(s, env, now), env, now);
    DriveIsSequential(s, env, now);
  }

  // -- Shutdown --

  lemma {:induction false} RetainKeepsCovered(s: State, id: PodId, r: Step)
    requires Covered(s) && id in s.pods && r.pod.demand == s.pods[id].demand && !r.pod.Terminal()
    ensures Covered(Put(s, id, r))
  {
    ReservedPut(s.pods, id, r.pod);
  }

  lemma {:induction false} DropKeepsCovered(s: State, id: PodId, r: Step)
    requires Covered(s) && id in s.pods
    ensures Covered(Dropped(s, id, r, Freed(s, s.pods[id])))
  {
    assert Put(s, id, r).pods - {id} == s.pods - {id};
    ReservedSplit(s.pods, id);
    if !s.pods[id].Terminal() {
      MinusWithin(s.alloc, s.pods[id].demand, Reserved(s.pods - {id}));
    }
  }

  lemma {:induction false} ShutdownOneKeepsCovered(s: State, id: PodId, a: ShutdownAnswers)
    requires Inv(s) && Covered(s)
    ensures Covered(ShutdownOne(s, id, a))
  {
    if id in s.pods {
      assert InvAt(s, id);
      var (r, gone) := ShutdownStep(Begin(s, id), a);
      ShutdownFrame(Begin(s, id), a);
      ShutdownLiveness(Begin(s, id), a);
      if gone {
        DropKeepsCovered(s, id, r);
      } else {
        RetainKeepsCovered(s, id, r);
      }
    }
  }

  lemma {:induction false} ShutdownAllKeepsCovered(s: State, ids: seq<PodId>, answers: PodId -> ShutdownAnswers)
    requires Inv(s) && Covered(s)
    ensures Covered(ShutdownAll(s, ids, answers))
  {
    if ids != [] {
      var front := ids[..|ids| - 1];
      var last := ids[|ids| - 1];
      ShutdownAllKeepsCovered(s, front, answers);
      ShutdownAllKeepsInv(s, front, answers);
      ShutdownOneKeepsCovered(ShutdownAll(s, front, answers), last, answers(last));
    }
  }

  lemma {:induction false} ShutdownKeepsCovered(s: State, answers: PodId -> ShutdownAnswers, visits: nat)
    requires Inv(s) && Covered(s)
    ensures Covered(Shutdown(s, answers, visits))
  {
    var ids := Snapshot(s.pods);
    ShutdownAllKeepsCovered(s, ids[..Min(visits, |ids|)], answers);
  }

  // -- Runs --

  lemma {:induction false} NextKeepsCovered(s: State, e: Event)
    requires Inv(s) && Covered(s)
    ensures Next(s, e).Some? ==> Covered(Next(s, e).value)
  {
    if Quiet(e) {
      var t := QuietIs(s, e);
      SameCover(s, t);
    } else {
      match e
      case Delivering(m, a, now) => DeliverKeepsCovered(s, m, a, now);
      case Driving(env, now) =>
        InvReady(s);
        DriveKeepsCovered(s, env, now);
      case ShuttingDown(answers, visits) => ShutdownKeepsCovered(s, answers, visits);
    }
  }

  lemma {:induction false} RunKeepsCovered(start: State, events: seq<Event>, s: State)
    requires Inv(start) && Covered(start) && Reaches(start, events, s)
    ensures Covered(s)
  {
    if events != [] {
      var front := events[..|events| - 1];
      var before := Run(start, front).value;
      RunKeepsCovered(start, front, before);
      RunKeepsInv(start, front, before);
      NextKeepsCovered(before, events[|events| - 1]);
    }
  }

  /** In every reachable state, whatever the totals and however shutdowns went, the counters hold
      nothing that no live pod reserves. */
  lemma {:induction false} ReachableCovered(s: State)
    requires Reachable(s)
    ensures s.alloc.Within(Reserved(s.pods))
  {
    var name, gpuType, total, events :| Reaches(Initial(name, gpuType, total), events, s);
    InitialInv(name, gpuType, total);
    RunKeepsCovered(Initial(name, gpuType, total), events, s);
  }

  // -- A node without resources --

  /** No tracked pod reserves anything. */
  predicate NoDemands(s: State) {
    forall id: PodId | id in s.pods :: s.pods[id].demand == NOTHING
  }

  lemma {:induction false} NothingReserved(pods: Pods)
    requires forall id: PodId | id in pods :: pods[id].demand == NOTHING
    ensures Reserved(pods) == NOTHING
    decreases |pods|
  {
    if pods != map[] {
      var id :| id in pods;
      ReservedSplit(pods, id);
      NothingReserved(pods - {id});
    }
  }

  /** Nothing is reserved, and so nothing is counted. */
  lemma {:induction false} NothingIsExact(s: State)
    requires Covered(s) && NoDemands(s) && s.total == NOTHING
    ensures s.alloc == NOTHING && Exact(s)
  {
    NothingReserved(s.pods);
  }

  lemma {:induction false} StartKeepsNothing(s: State, cmd: StartPodCmd, a: HandlerAnswers, now: nat)
    requires Inv(s) && NoDemands(s) && s.total == NOTHING
    ensures NoDemands(HandleStart(s, cmd, a, now))
  {
    PruneNothing(s.pods, MAX_TERMINAL_TOMBSTONES);
    StartOutcome(s, cmd, a, now);
    if Admits(s, cmd) {
      assert Demand(cmd) == NOTHING;
    } else {
      var m :| HandleStart(s, cmd, a, now) == Send(s, m);
    }
  }

  lemma {:induction false} DeliverKeepsNothing(s: State, m: ControlMessage, a: HandlerAnswers, now: nat)
    requires Inv(s) && NoDemands(s) && s.total == NOTHING
    ensures NoDemands(Deliver(s, m, a, now))
  {
    match m
    case StartPod(cmd) => StartKeepsNothing(s, cmd, a, now);
    case StopPod(_, _) =>
    case ProbePod(_) =>
    case RunRequest(_, _, _) =>
  }

  lemma {:induction false} DriveKeepsNothing(s: State, env: Environment, now: nat)
    requires Ready(s) && NoDemands(s)
    ensures NoDemands(Drive(s, env, now))
  {
    forall id: PodId | id in Drive(s, env, now).pods
      ensures Drive(s, env, now).pods[id].demand == NOTHING
    {
      StepFrame(Begin(s, id), env(id), now);
    }
  }

  lemma {:induction false} ShutdownAllKeepsNothing(s: State, ids: seq<PodId>, answers: PodId -> ShutdownAnswers)
    requires Inv(s) && NoDemands(s)
    ensures NoDemands(ShutdownAll(s, ids, answers))
  {
    if ids != [] {
      var front := ids[..|ids| - 1];
      var last := ids[|ids| - 1];
      ShutdownAllKeepsNothing(s, front, answers);
      ShutdownAllKeepsInv(s, front, answers);
      ShutdownOneKeepsNothing(ShutdownAll(s, front, answers), last, answers(last));
    }
  }

  lemma {:induction false} ShutdownOneKeepsNothing(s: State, id: PodId, a: ShutdownAnswers)
    requires Inv(s) && NoDemands(s)
    ensures NoDemands(ShutdownOne(s, id, a))
  {
    if id in s.pods {
      assert InvAt(s, id);
      ShutdownFrame(Begin(s, id), a);
    }
  }

  lemma {:induction false} NextKeepsNothing(s: State, e: Event)
    requires Inv(s) && NoDemands(s) && s.total == NOTHING
    ensures Next(s, e).Some? ==> NoDemands(Next(s, e).value)
  {
    if Quiet(e) {
      var t := QuietIs(s, e);
    } else {
      match e
      case Delivering(m, a, now) => DeliverKeepsNothing(s, m, a, now);
      case Driving(env, now) =>
        InvReady(s);
        DriveKeepsNothing(s, env, now);
      case ShuttingDown(answers, visits) => ShutdownAllKeepsNothing(s, Visited(s, visits), answers);
    }
  }

  /** On a node without resources only pods that ask for none are admitted, so every run is exact. */
  lemma {:induction false} RunOnNothing(start: State, events: seq<Event>, s: State)
    requires Inv(start) && Covered(start) && NoDemands(start) && start.total == NOTHING && Reaches(start, events, s)
    ensures NoDemands(s) && s.total == NOTHING && Exact(s)
  {
    if events != [] {
      var front := events[..|events| - 1];
      var before := Run(start, front).value;
      RunOnNothing(start, front, before);
      RunKeepsInv(start, front, before);
      NextKeepsNothing(before, events[|events| - 1]);
      NextKeepsTotal(before, events[|events| - 1]);
    }
    RunKeepsCovered(start, events, s);
    NothingIsExact(s);
  }
}
