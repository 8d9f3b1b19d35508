/**
 Safety of the worker over whole runs: any sequence of messages, ticks, session losses and
 shutdowns, with any answers from the runtime and the volume helpers.
 */
module WorkerRuns {
  import opened Basics
  import opened Messages
  import opened Lifecycle
  import opened PodSafety
  import opened Tombstones
  import opened WorkerState
  import opened Accounting
  import opened WorkerPass
  import opened WorkerEvents
  import opened ShutdownAccounts

  // -- Reachable states --

  ghost predicate Reaches(start: State, events: seq<Event>, s: State) {
    Run(start, events) == Some(s)
  }

  ghost predicate Reachable(s: State) {
    exists name, gpuType, total, events :: Reaches(Initial(name, gpuType, total), events, s)
  }

  lemma {:induction false} RunThen(s: State, events: seq<Event>, e: Event)
    requires Run(s, events).Some?
    ensures Run(s, events + [e]) == Next(Run(s, events).value, e)
  {
    assert (events + [e])[..|events|] == events;
  }

  lemma {:induction false} RunThenPanicked(s: State, events: seq<Event>, e: Event)
    requires Run(s, events).None?
    ensures Run(s, events + [e]).None?
  {
    assert (events + [e])[..|events|] == events;
  }

  lemma {:induction false} RunOn(s: State, first: seq<Event>, more: seq<Event>)
    requires Run(s, first).Some?
    ensures Run(s, first + more) == Run(Run(s, first).value, more)
  {
    if more == [] {
      assert first + more == first;
    } else {
      var front := more[..|more| - 1];
      assert (first + more)[..|first + more| - 1] == first + front;
      RunOn(s, first, front);
    }
  }

  lemma {:induction false} RunAfter(s: State, first: Event, rest: seq<Event>)
    requires Next(s, first).Some?
    ensures Run(s, [first] + rest) == Run(Next(s, first).value, rest)
  {
    RunThen(s, [], first);
    assert [] + [first] == [first];
    RunOn(s, [first], rest);
  }

  /** Running on from a reachable state leads to reachable states. */
  lemma {:induction false} ReachableAfter(s: State, events: seq<Event>, t: State)
    requires Reachable(s) && Run(s, events) == Some(t)
    ensures Reachable(t)
  {
    var name, gpuType, total, before :| Reaches(Initial(name, gpuType, total), before, s);
    RunOn(Initial(name, gpuType, total), before, events);
    assert Reaches(Initial(name, gpuType, total), before + events, t);
  }

  lemma {:induction false} InitialReachable(name: Text, gpuType: GpuType, total: Amounts)
    ensures Reachable(Initial(name, gpuType, total))
  {
    assert Reaches(Initial(name, gpuType, total), [], Initial(name, gpuType, total));
  }

  lemma {:induction false} ReachableNext(s: State, e: Event, t: State)
    requires Reachable(s) && Next(s, e) == Some(t)
    ensures Reachable(t)
  {
    RunThen(s, [], e);
    assert [] + [e] == [e];
    ReachableAfter(s, [e], t);
  }

  lemma InitialInv(name: Text, gpuType: GpuType, total: Amounts)
    ensures Inv(Initial(name, gpuType, total)) && Exact(Initial(name, gpuType, total))
  {
    var s := Initial(name, gpuType, total);
    assert TombstonesOf(s.pods) == {};
  }

  lemma {:induction false} RunKeepsInv(start: State, events: seq<Event>, s: State)
    requires Inv(start) && Reaches(start, events, s)
    ensures Inv(s)
  {
    if events != [] {
      var before := Run(start, events[..|events| - 1]).value;
      RunKeepsInv(start, events[..|events| - 1], before);
      NextKeepsInv(before, events[|events| - 1]);
    }
  }

  lemma ReachableInv(s: State)
    requires Reachable(s)
    ensures Inv(s)
  {
    var name, gpuType, total, events :| Reaches(Initial(name, gpuType, total), events, s);
    InitialInv(name, gpuType, total);
    RunKeepsInv(Initial(name, gpuType, total), events, s);
  }

  // -- Ownership, work and structure --

  predicate Owns(s: State, id: PodId, containerId: Text) {
    && id in s.pods && s.pods[id].handle == Some(Handle(id, containerId))
    && (s.pods[id].phase.Starting? || s.pods[id].phase.Running? || s.pods[id].phase.Stopping?)
  }

  predicate Reserves(s: State, id: PodId) {
    id in s.pods && !s.pods[id].Terminal()
  }

  /** A container created for a pod and not yet successfully removed is held by that pod's record,
      and a record holds nothing else. */
  lemma ContainersAreOwned(s: State, id: PodId, containerId: Text)
    requires Reachable(s)
    ensures containerId in LedgerOf(s, id).live <==> Owns(s, id, containerId)
  {
    ReachableInv(s);
    assert InvAt(s, id);
  }

  /** An id that reserves nothing has no live container and no volume that may be mounted, and if
      it was ever admitted the last call made for it was a successful unmount. */
  lemma ReleasedMeansCleaned(s: State, id: PodId)
    requires Reachable(s) && !Reserves(s, id)
    ensures LedgerOf(s, id).live == {} && !LedgerOf(s, id).mayBeMounted
    ensures id in s.ledgers ==> Settled(s.ledgers[id])
  {
    ReachableInv(s);
    assert InvAt(s, id);
  }

  /** One admission costs at most 1 pull, 3 creates, 3 starts and 3 stops. */
  lemma WorkIsBounded(s: State, id: PodId)
    requires Reachable(s)
    ensures LedgerOf(s, id).spent.Within(WORK_MAX)
  {
    ReachableInv(s);
    assert InvAt(s, id);
  }

  /** Handles, pending reasons, secrets and capacities are where the source's assertions want them. */
  lemma StructureHolds(s: State, id: PodId)
    requires Reachable(s)
    ensures |s.pods| <= MAX_TRACKED_PODS && |TombstonesOf(s.pods)| <= MAX_TERMINAL_TOMBSTONES
    ensures id in s.pending ==> id in s.pods && s.pods[id].phase.Stopping?
    ensures id in s.pods ==> HandleFits(s.pods[id])
    ensures id in s.pods && s.pods[id].Terminal() ==> Scrubbed(s.pods[id])
  {
    ReachableInv(s);
    assert InvAt(s, id);
  }

  // -- Progress --

  /** How often a pass moved a pod that was neither idle nor at rest. */
  ghost function Moves(start: State, events: seq<Event>, id: PodId): int {
    if events == [] then 0
    else
      var front := events[..|events| - 1];
      var e := events[|events| - 1];
      Moves(start, front, id) +
      if e.Driving? && Run(start, front).Some? && id in Run(start, front).value.pods
         && !Idle(Run(start, front).value.pods[id], e.now) && !Resting(Run(start, front).value.pods[id])
      then 1 else 0
  }

  /** The pod stays tracked throughout. */
  ghost predicate Tracked(start: State, events: seq<Event>, id: PodId) {
    && Run(start, events).Some? && id in Run(start, events).value.pods
    && (events != [] ==> Tracked(start, events[..|events| - 1], id))
  }

  /** The moves a pod has left, and one more. A tombstone and a stop that is only polled have none: shutdown
      turns the one into the other. */
  function Budget(pod: Pod): int {
    if Rank(pod) < 1 then 1 else Rank(pod)
  }

  lemma MovingRank(r: Step, now: nat)
    requires SaneStep(r) && !Idle(r.pod, now) && !Resting(r.pod)
    ensures Rank(r.pod) >= 2
  {
  }

  lemma DriveLowersBudget(s: State, env: Environment, now: nat, id: PodId)
    requires Inv(s) && Ready(s) && id in s.pods && id in Drive(s, env, now).pods
    ensures Budget(Drive(s, env, now).pods[id]) <= Budget(s.pods[id])
    ensures !Idle(s.pods[id], now) && !Resting(s.pods[id]) ==>
              Budget(Drive(s, env, now).pods[id]) < Budget(s.pods[id])
  {
    assert InvAt(s, id);
    StepLowersRank(Begin(s, id), env(id), now);
    if !Idle(s.pods[id], now) && !Resting(s.pods[id]) {
      MovingRank(Begin(s, id), now);
    }
  }

  lemma DeliverLowersRank(s: State, m: ControlMessage, a: HandlerAnswers, now: nat, id: PodId)
    requires Inv(s) && id in s.pods && id in Deliver(s, m, a, now).pods
    ensures Rank(Deliver(s, m, a, now).pods[id]) <= Rank(s.pods[id])
  {
    assert InvAt(s, id);
    RankBounds(Begin(s, id));
    match m
    case StartPod(cmd) => StartLeavesTracked(s, cmd, a, now, id);
    case StopPod(_, _) =>
    case ProbePod(_) =>
    case RunRequest(_, _, _) =>
  }

  /** A pod that shutdown keeps is as it was, or is stopping with its attempts used up. */
  lemma {:induction false} ShutdownLowersBudget(s: State, answers: PodId -> ShutdownAnswers, visits: nat, id: PodId)
    requires Inv(s) && id in s.pods && id in Shutdown(s, answers, visits).pods
    ensures Budget(Shutdown(s, answers, visits).pods[id]) <= Budget(s.pods[id])
  {
    VisitedIsOrder(s, visits);
    ShutdownOutcomes(s, Visited(s, visits), answers);
    OutcomeBudget(s, Shutdown(s, answers, visits), Visited(s, visits), answers, id);
  }

  lemma {:induction false} OutcomeBudget(s: State, t: State, ids: seq<PodId>, answers: PodId -> ShutdownAnswers, id: PodId)
    requires Inv(s) && Outcomes(s, t, ids, answers) && id in s.pods && id in t.pods
    ensures Budget(t.pods[id]) <= Budget(s.pods[id])
  {
    if id in ids {
      assert InvAt(s, id);
      AbandonedBudget(Begin(s, id), answers(id));
    }
  }

  lemma AbandonedBudget(r: Step, a: ShutdownAnswers)
    requires SaneStep(r) && !ShutdownStep(r, a).1
    ensures Budget(ShutdownStep(r, a).0.pod) == 1
  {
  }

  /** Along any run whatsoever, each move of a tracked pod uses up some of its budget and nothing refills it,
      so it takes at most 11: then it runs, is terminal, or is only polled. */
  lemma {:induction false} MovesAreBounded(start: State, events: seq<Event>, id: PodId)
    requires Inv(start) && Tracked(start, events, id)
    ensures id in start.pods
    ensures Moves(start, events, id) <= Budget(start.pods[id]) - Budget(Run(start, events).value.pods[id])
    ensures Moves(start, events, id) <= 11
  {
    if events != [] {
      var front := events[..|events| - 1];
      var before := Run(start, front).value;
      MovesAreBounded(start, front, id);
      RunKeepsInv(start, front, before);
      MoveStep(before, events[|events| - 1], id);
    }
    assert InvAt(start, id);
    RankBounds(Begin(start, id));
  }

  lemma MoveStep(s: State, e: Event, id: PodId)
    requires Inv(s) && id in s.pods
    requires Next(s, e).Some? && id in Next(s, e).value.pods
    ensures Budget(Next(s, e).value.pods[id]) <= Budget(s.pods[id])
    ensures e.Driving? && !Idle(s.pods[id], e.now) && !Resting(s.pods[id]) ==>
              Budget(Next(s, e).value.pods[id]) < Budget(s.pods[id])
  {
    match e
    case Delivering(m, a, now) => DeliverLowersRank(s, m, a, now, id);
    case Driving(env, now) => DriveLowersBudget(s, env, now, id);
    case ShuttingDown(answers, visits) => ShutdownLowersBudget(s, answers, visits, id);
    case _ =>
  }

  // -- Exact accounts --

  /** Counters cannot overflow on a node whose totals are below the largest machine values. */
  predicate BelowMachineMax(total: Amounts) {
    total.gpu < MACHINE_MAX.gpu && total.cpu < MACHINE_MAX.cpu && total.memory < MACHINE_MAX.memory
  }

  /** Admission keeps exact accounts if and only if its plain additions do not overflow. */
  lemma {:induction false} AdmissionExactIff(s: State, cmd: StartPodCmd, a: HandlerAnswers, now: nat)
    requires Inv(s) && Exact(s) && Admits(s, cmd)
    ensures Exact(HandleStart(s, cmd, a, now)) <==> s.alloc.Plus(Demand(cmd)).Within(MACHINE_MAX)
  {
    PruneNothing(s.pods, MAX_TERMINAL_TOMBSTONES);
    StartOutcome(s, cmd, a, now);
    ReservedPut(s.pods, cmd.podId, NewPod(cmd, a, now));
    WrappingIff(s.alloc, Demand(cmd), s.total);
  }

  lemma WrappingIff(alloc: Amounts, demand: Amounts, total: Amounts)
    requires FitsSaturating(alloc, demand, total)
    ensures WrappingPlus(alloc, demand) == alloc.Plus(demand) && WrappingPlus(alloc, demand).Within(total)
            <==> alloc.Plus(demand).Within(MACHINE_MAX)
  {
    if alloc.Plus(demand).Within(MACHINE_MAX) {
      assert WrappingPlus(alloc, demand) == alloc.Plus(demand);
    } else {
      assert !alloc.Plus(demand).Within(MACHINE_MAX);
      assert WrappingPlus(alloc, demand).Within(MACHINE_MAX);
    }
  }

  /** Shutdowns in which every visited tombstone can be unmounted. */
  ghost predicate TidyEvent(s: State, e: Event) {
    e.ShuttingDown? ==>
      var ids := Snapshot(s.pods);
      forall id :: !Revived(s, ids[..Min(e.visits, |ids|)], e.answers, id)
  }

  ghost predicate TidyRun(start: State, events: seq<Event>) {
    events != [] ==>
      var front := events[..|events| - 1];
      TidyRun(start, front) && (Run(start, front).Some? ==> TidyEvent(Run(start, front).value, events[|events| - 1]))
  }

  lemma {:induction false} ShutdownKeepsExact(s: State, answers: PodId -> ShutdownAnswers, visits: nat)
    requires Inv(s) && Exact(s) && TidyEvent(s, ShuttingDown(answers, visits))
    ensures Exact(Shutdown(s, answers, visits))
  {
    SnapshotIsOrder(s.pods);
    var ids := Snapshot(s.pods);
    ShutdownExactIff(s, ids[..Min(visits, |ids|)], answers);
  }

  lemma {:induction false} StartKeepsExact(s: State, cmd: StartPodCmd, a: HandlerAnswers, now: nat)
    requires Inv(s) && Exact(s) && BelowMachineMax(s.total)
    ensures Exact(HandleStart(s, cmd, a, now))
  {
    if Admits(s, cmd) {
      AdmissionExactIff(s, cmd, a, now);
    } else {
      PruneNothing(s.pods, MAX_TERMINAL_TOMBSTONES);
      StartOutcome(s, cmd, a, now);
    }
  }

  lemma {:induction false} StopKeepsExact(s: State, id: PodId, graceMs: nat, now: nat)
    requires Exact(s)
    ensures Exact(HandleStop(s, id, graceMs, now))
  {
    if HandleStop(s, id, graceMs, now) != s {
      var pod := Condemn(s.pods[id], now).(graceMs := Min(graceMs, MAX_STOP_GRACE_MS));
      ReservedPut(s.pods, id, pod);
      PlusCancels(Reserved(s.pods[id := pod]), Reserved(s.pods), pod.demand);
    }
  }

  /** Messages and registration do not touch the accounts. */
  lemma {:induction false} SameAccounts(s: State, t: State)
    requires Exact(s) && t.pods == s.pods && t.alloc == s.alloc && t.total == s.total
    ensures Exact(t)
  {
  }

  lemma {:induction false} RunSameAccounts(s: State, requestId: U64, deploymentId: U64, a: HandlerAnswers)
    requires Exact(s)
    ensures Exact(HandleRun(s, requestId, deploymentId, a))
  {
    SameAccounts(s, HandleRun(s, requestId, deploymentId, a));
  }

  lemma {:induction false} DeliverKeepsExact(s: State, m: ControlMessage, a: HandlerAnswers, now: nat)
    requires Inv(s) && Exact(s) && BelowMachineMax(s.total)
    ensures Exact(Deliver(s, m, a, now))
  {
    match m
    case StartPod(cmd) => StartKeepsExact(s, cmd, a, now);
    case StopPod(id, graceMs) => StopKeepsExact(s, id, graceMs, now);
    case ProbePod(id) => SameAccounts(s, HandleProbe(s, id));
    case RunRequest(requestId, deploymentId, _) => RunSameAccounts(s, requestId, deploymentId, a);
  }

  lemma {:induction false} DriveKeepsExact(s: State, env: Environment, now: nat)
    requires Inv(s) && Exact(s) && Ready(s)
    ensures Exact(Drive(s, env, now))
  {
    DriveIsSequential(s, env, now);
  }

  predicate Quiet(e: Event) {
    e.SessionLost? || e.Registering? || e.Beating?
  }

  lemma {:induction false} QuietIs(s: State, e: Event) returns (t: State)
    requires Quiet(e)
    ensures Next(s, e) == Some(t) && t.pods == s.pods && t.alloc == s.alloc && t.total == s.total
  {
    t := Next(s, e).value;
  }

  lemma {:induction false} NextKeepsExact(s: State, e: Event)
    requires Inv(s) && Exact(s) && BelowMachineMax(s.total) && TidyEvent(s, e)
    ensures Next(s, e).Some? ==> Exact(Next(s, e).value)
  {
    if Quiet(e) {
      var t := QuietIs(s, e);
      SameAccounts(s, t);
    } else {
      match e
      case Delivering(m, a, now) => DeliverKeepsExact(s, m, a, now);
      case Driving(env, now) =>
        InvReady(s);
        DriveKeepsExact(s, env, now);
      case ShuttingDown(answers, visits) => ShutdownKeepsExact(s, answers, visits);
    }
  }

  lemma {:induction false} ShutdownKeepsTotal(s: State, ids: seq<PodId>, answers: PodId -> ShutdownAnswers)
    ensures ShutdownAll(s, ids, answers).total == s.total
  {
    if ids != [] {
      ShutdownKeepsTotal(s, ids[..|ids| - 1], answers);
    }
  }

  lemma {:induction false} NextKeepsTotal(s: State, e: Event)
    ensures Next(s, e).Some? ==> Next(s, e).value.total == s.total
  {
    match e
    case ShuttingDown(answers, visits) =>
      var ids := Snapshot(s.pods);
      ShutdownKeepsTotal(s, ids[..Min(visits, |ids|)], answers);
    case _ =>
  }

  /** On a node below the machine maxima every tidy run keeps the counters equal to the sum of the
      reservations and within the node's totals. */
  lemma {:induction false} RunKeepsExact(start: State, events: seq<Event>, s: State)
    requires Inv(start) && Exact(start) && BelowMachineMax(start.total)
    requires TidyRun(start, events) && Reaches(start, events, s)
    ensures Exact(s) && s.total == start.total
  {
    if events != [] {
      var front := events[..|events| - 1];
      var before := Run(start, front).value;
      RunKeepsExact(start, front, before);
      RunKeepsInv(start, front, before);
      NextKeepsExact(before, events[|events| - 1]);
      NextKeepsTotal(before, events[|events| - 1]);
    }
  }

  ghost predicate AlwaysExact(total: Amounts) {
    forall name, gpuType, events, s ::
      TidyRun(Initial(name, gpuType, total), events) && Reaches(Initial(name, gpuType, total), events, s) ==> Exact(s)
  }

  // Two pods that overflow a counter on a node whose total is a machine maximum.

  function Sized(id: U64, demand: Amounts): Event {
    Delivering(StartPod(StartPodCmd(id, 0, [], [], 0, demand.gpu, NoGpu, demand.cpu, demand.memory, [], [], [], [],
                                    [], [], [], false)),
               HandlerAnswers([], [], ForwardError([])), 0)
  }

  lemma {:induction false} RunTwo(s: State, a: Event, b: Event)
    requires Next(s, a).Some? && !a.ShuttingDown? && !b.ShuttingDown?
    ensures Run(s, [a, b]) == Next(Next(s, a).value, b)
    ensures TidyRun(s, [a, b])
  {
    assert [a, b][..1] == [a] && [a][..0] == [];
    assert Run(s, [a]) == Next(s, a) by { assert Run(s, [a][..0]) == Some(s); }
    assert TidyRun(s, []);
    assert TidyRun(s, [a]) by { assert [a][..|[a]| - 1] == []; }
  }

  /** A pod that fits a node without GPUs is admitted; the accounts stay exact unless they overflow. */
  lemma {:induction false} SizedAdmitted(s: State, id: U64, demand: Amounts) returns (t: State)
    requires Inv(s) && Exact(s) && s.gpuType == NoGpu && id !in s.pods && |s.pods| < MAX_TRACKED_PODS
    requires FitsSaturating(s.alloc, demand, s.total)
    ensures Next(s, Sized(id, demand)) == Some(t) && Inv(t) && t.total == s.total && t.gpuType == NoGpu
    ensures t.pods.Keys == s.pods.Keys + {id} && t.alloc == WrappingPlus(s.alloc, demand)
    ensures t.pods[id].phase.ImagePulling? && t.pods[id].handle.None? && t.pods[id].demand == demand
    ensures Exact(t) <==> s.alloc.Plus(demand).Within(MACHINE_MAX)
  {
    var e := Sized(id, demand);
    PruneNothing(s.pods, MAX_TERMINAL_TOMBSTONES);
    assert Admits(s, e.message.start);
    StartOutcome(s, e.message.start, e.handler, 0);
    t := Admit(s, e.message.start, e.handler, 0);
    AdmitKeepsInv(s, e.message.start, e.handler, 0);
    AdmissionExactIff(s, e.message.start, e.handler, 0);
  }

  lemma NoWrap(a: Amounts)
    ensures WrappingPlus(NOTHING, a) == a
  {
  }

  /** Two demands that pass admission one after the other, but whose sum no counter can hold. */
  lemma {:induction false} Overflows(total: Amounts, whole: Amounts, unit: Amounts)
    requires FitsSaturating(NOTHING, whole, total) && FitsSaturating(whole, unit, total)
    requires !whole.Plus(unit).Within(MACHINE_MAX)
    ensures !AlwaysExact(total)
  {
    var start := Initial([], NoGpu, total);
    NoWrap(whole);
    assert NOTHING.Plus(whole) == whole;
    InitialInv([], NoGpu, total);
    var s := SizedAdmitted(start, 1, whole);
    assert |s.pods.Keys| == 1;
    var t := SizedAdmitted(s, 2, unit);
    InexactRun(total, Sized(1, whole), Sized(2, unit), s, t);
  }

  lemma {:induction false} InexactRun(total: Amounts, a: Event, b: Event, s: State, t: State)
    requires Next(Initial([], NoGpu, total), a) == Some(s) && Next(s, b) == Some(t) && !Exact(t)
    requires !a.ShuttingDown? && !b.ShuttingDown?
    ensures !AlwaysExact(total)
  {
    RunTwo(Initial([], NoGpu, total), a, b);
    assert Reaches(Initial([], NoGpu, total), [a, b], t);
  }

  lemma {:induction false} BelowIsExact(total: Amounts)
    requires BelowMachineMax(total)
    ensures AlwaysExact(total)
  {
    forall name, gpuType, events, s |
      TidyRun(Initial(name, gpuType, total), events) && Reaches(Initial(name, gpuType, total), events, s)
      ensures Exact(s)
    {
      InitialInv(name, gpuType, total);
      RunKeepsExact(Initial(name, gpuType, total), events, s);
    }
  }

  // Everything there is of one resource, and one unit of it more.

  lemma {:induction false} GpuOverflows(total: Amounts)
    requires total.gpu == MACHINE_MAX.gpu
    ensures !AlwaysExact(total)
  {
    Overflows(total, Resources(MACHINE_MAX.gpu, 0, 0), Resources(1, 0, 0));
  }

  lemma {:induction false} CpuOverflows(total: Amounts)
    requires total.cpu == MACHINE_MAX.cpu
    ensures !AlwaysExact(total)
  {
    Overflows(total, Resources(0, MACHINE_MAX.cpu, 0), Resources(0, 1, 0));
  }

  lemma {:induction false} MemoryOverflows(total: Amounts)
    requires total.memory == MACHINE_MAX.memory
    ensures !AlwaysExact(total)
  {
    Overflows(total, Resources(0, 0, MACHINE_MAX.memory), Resources(0, 0, 1));
  }

  /** Exact accounts over every tidy run: if and only if all three totals are below the maxima of
      their machine types. */
  lemma {:induction false} AlwaysExactIff(total: Amounts)
    ensures AlwaysExact(total) <==> BelowMachineMax(total)
  {
    if BelowMachineMax(total) {
      BelowIsExact(total);
    } else if total.gpu == MACHINE_MAX.gpu {
      GpuOverflows(total);
    } else if total.cpu == MACHINE_MAX.cpu {
      CpuOverflows(total);
    } else {
      MemoryOverflows(total);
    }
  }
}
