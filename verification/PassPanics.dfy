/**
 The one way a lifecycle pass can panic: the collection loop settles running pods while it walks a
 snapshot of ids, and a pod that ends in the middle of the walk may push out a tombstone that the
 walk has yet to reach. The states in which that can happen are characterised exactly, and one of
 them is reached from a fresh worker.
 */
module PassPanics {
  import opened Basics
  import opened Messages
  import opened Lifecycle
  import opened PodSafety
  import opened Tombstones
  import opened WorkerState
  import opened WorkerPass
  import opened WorkerEvents
  import opened WorkerRuns

  /** A pod that can end while operations are still being collected. */
  predicate MayEndEarly(pod: Pod, now: nat) {
    pod.phase.Running? || (pod.phase.Creating? && !Idle(pod, now) && pod.private.juicefsPath != [])
  }

  function Endable(s: State, now: nat): set<PodId> {
    set j | j in s.pods && MayEndEarly(s.pods[j], now)
  }

  function EndableBelow(s: State, id: PodId, now: nat): set<PodId> {
    set j | j in s.pods && j < id && MayEndEarly(s.pods[j], now)
  }

  /** Some tombstone has so many newer ones, and so many endable pods before it in the walk, that
      together they fill the tombstone limit. */
  predicate AtRisk(s: State, id: PodId, now: nat) {
    && id in s.pods && s.pods[id].Terminal() && s.pods[id].changedAt < now
    && |Newer(s.pods, id)| + |EndableBelow(s, id, now)| >= MAX_TERMINAL_TOMBSTONES
  }

  // -- Only states at risk panic --

  lemma FewNewer(pods: Pods, id: PodId)
    requires id in pods && pods[id].Terminal()
    ensures |Newer(pods, id)| < |TombstonesOf(pods)|
  {
    CardSubset(Newer(pods, id), TombstonesOf(pods) - {id});
  }

  lemma CardUnion(a: set<PodId>, b: set<PodId>)
    requires a !! b
    ensures |a + b| == |a| + |b|
  {
  }

  lemma EarlyMayEnd(pod: Pod, a: Answers, now: nat)
    requires Early(pod, a, now)
    ensures MayEndEarly(pod, now) && !pod.Terminal()
  {
  }

  /** The tombstones newer than a pod, part way through a walk, were newer before it or have just
      been made by a pod with a smaller id. */
  lemma NewerGrows(s: State, id: PodId, env: Environment, now: nat, k: PodId)
    requires Inv(s) && Ready(s) && id in s.pods && s.pods[id].Terminal()
    requires k in Newer(Moved(s.pods, StepsBefore(s, id, env, now)), id)
    ensures k in Newer(s.pods, id) || (k in EndableBelow(s, id, now) && s.pods[id].changedAt < now)
  {
    var steps := StepsBefore(s, id, env, now);
    if k in steps {
      EarlyMayEnd(s.pods[k], env(k), now);
      StepFrame(Begin(s, k), env(k), now);
    }
  }

  lemma PanicMeansRisk(s: State, env: Environment, now: nat, id: PodId)
    requires Inv(s) && Ready(s) && id in s.pods && PanicsAt(s, id, env, now)
    ensures AtRisk(s, id, now)
  {
    var newer := Newer(Moved(s.pods, StepsBefore(s, id, env, now)), id);
    var before := Newer(s.pods, id);
    forall k | k in newer
      ensures k in before || (k in EndableBelow(s, id, now) && s.pods[id].changedAt < now)
    {
      NewerGrows(s, id, env, now, k);
    }
    FewNewer(s.pods, id);
    if s.pods[id].changedAt >= now {
      CardSubset(newer, before);
      assert false;
    }
    assert before !! EndableBelow(s, id, now);
    CardUnion(before, EndableBelow(s, id, now));
    CardSubset(newer, before + EndableBelow(s, id, now));
  }

  // -- Every state at risk can panic --

  /** Every container is found stopped, every mount fails, and all cleanup succeeds. */
  const ALL_END := Answers(Ok(()), Err([]), Ok([]), Ok(()), Ok(StoppedStatus(0)), Ok(true), Ok(()), Ok(()), Ok(()))
  const EVERYTHING_ENDS: Environment := _ => ALL_END

  lemma EndsEarly(r: Step, now: nat)
    requires SaneStep(r) && MayEndEarly(r.pod, now)
    ensures Early(r.pod, ALL_END, now)
    ensures PodStep(r, ALL_END, now).pod.Terminal() && PodStep(r, ALL_END, now).pod.changedAt == now
  {
  }

  lemma EndedIsNewer(s: State, now: nat, id: PodId, j: PodId)
    requires Inv(s) && Ready(s) && id in s.pods && s.pods[id].Terminal() && s.pods[id].changedAt < now
    requires j in EndableBelow(s, id, now)
    ensures j in Newer(Moved(s.pods, StepsBefore(s, id, EVERYTHING_ENDS, now)), id)
  {
    assert InvAt(s, j);
    EndsEarly(Begin(s, j), now);
  }

  lemma TombstoneStaysNewer(s: State, now: nat, id: PodId, j: PodId)
    requires Inv(s) && Ready(s) && id in s.pods && s.pods[id].Terminal() && j in Newer(s.pods, id)
    ensures j in Newer(Moved(s.pods, StepsBefore(s, id, EVERYTHING_ENDS, now)), id)
  {
  }

  lemma RiskMayPanic(s: State, now: nat, id: PodId)
    requires Inv(s) && Ready(s) && AtRisk(s, id, now)
    ensures PanicsAt(s, id, EVERYTHING_ENDS, now)
  {
    var after := Newer(Moved(s.pods, StepsBefore(s, id, EVERYTHING_ENDS, now)), id);
    var before := Newer(s.pods, id);
    var ending := EndableBelow(s, id, now);
    forall j | j in before + ending
      ensures j in after
    {
      if j in before { TombstoneStaysNewer(s, now, id, j); } else { EndedIsNewer(s, now, id, j); }
    }
    CardUnion(before, ending);
    CardSubset(before + ending, after);
  }

  /** A pass can panic if and only if some tombstone is at risk before it starts. */
  lemma PanicIff(s: State, now: nat)
    requires Inv(s) && Ready(s)
    ensures (exists env :: DrivePanics(s, env, now)) <==> (exists id :: AtRisk(s, id, now))
  {
    if env :| DrivePanics(s, env, now) {
      var id :| id in s.pods && PanicsAt(s, id, env, now);
      PanicMeansRisk(s, env, now, id);
    }
    if id :| AtRisk(s, id, now) {
      RiskMayPanic(s, now, id);
      assert DrivePanics(s, EVERYTHING_ENDS, now);
    }
  }

  /** No pass panics while tombstones and endable pods together fit the tombstone limit. */
  lemma RoomMeansNoPanic(s: State, env: Environment, now: nat)
    requires Inv(s) && Ready(s)
    requires |TombstonesOf(s.pods)| + |Endable(s, now)| <= MAX_TERMINAL_TOMBSTONES
    ensures !DrivePanics(s, env, now)
  {
    forall id | id in s.pods
      ensures !PanicsAt(s, id, env, now)
    {
      if PanicsAt(s, id, env, now) {
        PanicMeansRisk(s, env, now, id);
        FewNewer(s.pods, id);
        CardSubset(EndableBelow(s, id, now), Endable(s, now));
        assert false;
      }
    }
  }

  // -- A run that panics --

  // 1025 pods are started. All but the first fail to pull their image, which leaves 1024
  // tombstones; the first one gets to run. When it ends, its tombstone pushes out that of pod 1,
  // which the same walk then asks for.

  const CROWD: nat := MAX_TERMINAL_TOMBSTONES + 1
  const NO_SECRETS := HandlerAnswers([], [], ForwardError([]))

  function Small(id: PodId): StartPodCmd {
    StartPodCmd(id, 0, [], [], 0, 0, NoGpu, 0, 0, [], [], [], [], [], [], [], false)
  }

  function StartSmall(id: PodId): Event {
    Delivering(StartPod(Small(id)), NO_SECRETS, 0)
  }

  /** Starts the pods 0, 1, ..., n - 1. */
  function Crowd(n: nat): seq<Event>
    requires n <= CROWD
  {
    seq(n, i requires 0 <= i < n => StartSmall(i))
  }

  const LUCKY := Answers(Ok(()), Ok([]), Ok([]), Ok(()), Ok(RunningStatus), Ok(true), Ok(()), Ok(()), Ok(()))
  const ONE_SUCCEEDS: Environment := id => if id == 0 then LUCKY else LUCKY.(pull := Err([]))

  ghost predicate Crowded(s: State, n: nat) {
    && Inv(s) && s.alloc == NOTHING && |s.pods| == n
    && (forall id: PodId :: id in s.pods <==> id < n)
    && (forall id | id in s.pods :: s.pods[id] == NewPod(Small(id), NO_SECRETS, 0))
  }

  lemma {:induction false} SmallAdmitted(s: State, n: nat)
    requires Crowded(s, n) && n < CROWD
    ensures Next(s, StartSmall(n)) == Some(Admit(s, Small(n), NO_SECRETS, 0))
  {
    PruneNothing(s.pods, MAX_TERMINAL_TOMBSTONES);
    assert Admits(s, Small(n));
    StartOutcome(s, Small(n), NO_SECRETS, 0);
  }

  lemma {:induction false} CrowdPlusOne(s: State, n: nat)
    requires Crowded(s, n) && n < CROWD
    ensures Crowded(Admit(s, Small(n), NO_SECRETS, 0), n + 1)
  {
    AdmitKeepsInv(s, Small(n), NO_SECRETS, 0);
    OneMorePod(s.pods, n, NewPod(Small(n), NO_SECRETS, 0));
    assert WrappingPlus(NOTHING, NOTHING) == NOTHING;
  }

  lemma {:induction false} CrowdGrows(s: State, n: nat) returns (t: State)
    requires Crowded(s, n) && n < CROWD
    ensures Next(s, StartSmall(n)) == Some(t) && Crowded(t, n + 1)
  {
    t := Admit(s, Small(n), NO_SECRETS, 0);
    SmallAdmitted(s, n);
    CrowdPlusOne(s, n);
  }

  lemma CrowdIs(n: nat)
    requires 0 < n <= CROWD
    ensures Crowd(n) == Crowd(n - 1) + [StartSmall(n - 1)]
  {
  }

  lemma {:induction false} CrowdArrives(start: State, n: nat) returns (s: State)
    requires Crowded(start, 0) && n <= CROWD
    ensures Run(start, Crowd(n)) == Some(s) && Crowded(s, n)
  {
    if n == 0 {
      s := start;
    } else {
      var t := CrowdArrives(start, n - 1);
      s := CrowdGrows(t, n - 1);
      CrowdIs(n);
      RunThen(start, Crowd(n - 1), StartSmall(n - 1));
    }
  }

  /** Pod 0 in the given phase, amid 1024 tombstones of tick 0. */
  ghost predicate OneLeft(pods: Pods, phase: Phase) {
    && |pods| == CROWD
    && (forall id: PodId :: id in pods <==> id < CROWD)
    && (forall id: PodId | id in pods && id > 0 :: pods[id].Terminal() && pods[id].changedAt == 0)
    && pods[0].phase == phase && pods[0].private.juicefsPath == [] && pods[0].retryAfter == 0
    && (phase.Starting? || phase.Running? ==> pods[0].handle.Some?)
  }

  lemma TombstonesAre(pods: Pods)
    requires 0 in pods && !pods[0].Terminal() && forall id | id in pods && id > 0 :: pods[id].Terminal()
    ensures |TombstonesOf(pods)| == |pods| - 1
  {
    assert TombstonesOf(pods) == pods.Keys - {0};
  }

  lemma {:induction false} DriveSucceeds(s: State, env: Environment, now: nat)
    requires Ready(s) && !DrivePanics(s, env, now)
    ensures Next(s, Driving(env, now)) == Some(Drive(s, env, now))
  {
  }

  lemma {:induction false} DrivePods(s: State, env: Environment, now: nat)
    requires Ready(s) && |TombstonesOf(Moved(s.pods, PassSteps(s, env, now)))| <= MAX_TERMINAL_TOMBSTONES
    ensures Drive(s, env, now).pods == Moved(s.pods, PassSteps(s, env, now))
  {
    PruneNothing(Moved(s.pods, PassSteps(s, env, now)), MAX_TERMINAL_TOMBSTONES);
  }

  lemma {:induction false} DriveIsMove(s: State, env: Environment, now: nat) returns (t: State)
    requires Inv(s) && Ready(s) && !DrivePanics(s, env, now)
    requires |TombstonesOf(Moved(s.pods, PassSteps(s, env, now)))| <= MAX_TERMINAL_TOMBSTONES
    ensures Next(s, Driving(env, now)) == Some(t) && t == Drive(s, env, now)
    ensures Inv(t) && t.pods == Moved(s.pods, PassSteps(s, env, now))
  {
    t := Drive(s, env, now);
    DriveSucceeds(s, env, now);
    DrivePods(s, env, now);
    NextKeepsInv(s, Driving(env, now));
  }

  /** The next pass does not panic and brings pod 0 to the given phase. */
  ghost predicate Poised(s: State, phase: Phase) {
    && Inv(s) && Ready(s) && !DrivePanics(s, ONE_SUCCEEDS, 0)
    && OneLeft(Moved(s.pods, PassSteps(s, ONE_SUCCEEDS, 0)), phase)
  }

  lemma {:induction false} DriveLeaves(s: State, phase: Phase) returns (t: State)
    requires Poised(s, phase) && !phase.Terminal()
    ensures Next(s, Driving(ONE_SUCCEEDS, 0)) == Some(t) && Inv(t) && OneLeft(t.pods, phase)
  {
    TombstonesAre(Moved(s.pods, PassSteps(s, ONE_SUCCEEDS, 0)));
    t := DriveIsMove(s, ONE_SUCCEEDS, 0);
  }

  lemma DrivePanicked(s: State, env: Environment, now: nat)
    requires Ready(s) && DrivePanics(s, env, now)
    ensures Next(s, Driving(env, now)).None?
  {
  }

  lemma PullOutcome(r: Step)
    requires r.pod.phase.ImagePulling? && r.pod.handle.None?
    ensures
      var ok := PodStep(r, LUCKY, 0).pod;
      ok.phase.Creating? && ok.private == r.pod.private && ok.retryAfter == r.pod.retryAfter
    ensures
      var failed := PodStep(r, LUCKY.(pull := Err([])), 0).pod;
      failed.Terminal() && failed.changedAt == 0
  {
  }

  lemma {:induction false} CrowdMoveAt(s: State, id: PodId)
    requires Crowded(s, CROWD) && Ready(s) && id in s.pods
    ensures
      var moved := Moved(s.pods, PassSteps(s, ONE_SUCCEEDS, 0))[id];
      && (id == 0 ==> moved.phase.Creating? && moved.private.juicefsPath == [] && moved.retryAfter == 0)
      && (id > 0 ==> moved.Terminal() && moved.changedAt == 0)
  {
    PullOutcome(Begin(s, id));
  }

  lemma OneLeftIs(pods: Pods, phase: Phase)
    requires |pods| == CROWD && forall id: PodId :: id in pods <==> id < CROWD
    requires forall id: PodId | id in pods && id > 0 :: pods[id].Terminal() && pods[id].changedAt == 0
    requires pods[0].phase == phase && pods[0].private.juicefsPath == [] && pods[0].retryAfter == 0
    requires phase.Starting? || phase.Running? ==> pods[0].handle.Some?
    ensures OneLeft(pods, phase)
  {
  }

  lemma MovedKeys(pods: Pods, steps: Steps)
    ensures Moved(pods, steps).Keys == pods.Keys && |Moved(pods, steps)| == |pods|
  {
  }

  lemma {:induction false} CrowdMoves(s: State)
    requires Crowded(s, CROWD) && Ready(s)
    ensures OneLeft(Moved(s.pods, PassSteps(s, ONE_SUCCEEDS, 0)), Creating)
  {
    var moved := Moved(s.pods, PassSteps(s, ONE_SUCCEEDS, 0));
    MovedKeys(s.pods, PassSteps(s, ONE_SUCCEEDS, 0));
    CrowdMoveAt(s, 0);
    forall id: PodId | id in moved && id > 0
      ensures moved[id].Terminal() && moved[id].changedAt == 0
    {
      CrowdMoveAt(s, id);
    }
    OneLeftIs(moved, Creating);
  }

  lemma {:induction false} CrowdIsSafe(s: State)
    requires Crowded(s, CROWD)
    ensures Ready(s) && !DrivePanics(s, ONE_SUCCEEDS, 0)
  {
    InvReady(s);
    forall id | id in s.pods
      ensures !PanicsAt(s, id, ONE_SUCCEEDS, 0)
    {
    }
  }

  lemma {:induction false} CrowdFails(s: State)
    requires Crowded(s, CROWD)
    ensures Poised(s, Creating)
  {
    CrowdIsSafe(s);
    CrowdMoves(s);
  }

  /** Nothing ends while pod 0 is not yet running. */
  lemma {:induction false} WalkIsQuiet(s: State, phase: Phase)
    requires Inv(s) && OneLeft(s.pods, phase) && (phase.Creating? || phase.Starting?)
    ensures Ready(s) && !DrivePanics(s, ONE_SUCCEEDS, 0)
  {
    InvReady(s);
    TombstonesAre(s.pods);
    assert Endable(s, 0) == {};
    RoomMeansNoPanic(s, ONE_SUCCEEDS, 0);
  }

  lemma LuckyOutcome(r: Step)
    requires r.pod.private.juicefsPath == [] && r.pod.retryAfter == 0
    requires r.pod.phase.Creating? || (r.pod.phase.Starting? && r.pod.handle.Some?)
    ensures
      var p := PodStep(r, LUCKY, 0).pod;
      && p.handle.Some? && p.private == r.pod.private && p.retryAfter == 0
      && p.phase == if r.pod.phase.Creating? then Starting else Running
  {
  }

  lemma {:induction false} FirstMoves(s: State, phase: Phase)
    requires Ready(s) && OneLeft(s.pods, phase) && (phase.Creating? || phase.Starting?)
    ensures OneLeft(Moved(s.pods, PassSteps(s, ONE_SUCCEEDS, 0)), if phase.Creating? then Starting else Running)
  {
    var steps := PassSteps(s, ONE_SUCCEEDS, 0);
    var moved := Moved(s.pods, steps);
    assert moved.Keys == s.pods.Keys;
    forall id: PodId | id in s.pods && id > 0
      ensures id !in steps && moved[id] == s.pods[id]
    {
    }
    LuckyOutcome(Begin(s, 0));
  }

  lemma {:induction false} FirstAdvances(s: State, phase: Phase)
    requires Inv(s) && OneLeft(s.pods, phase) && (phase.Creating? || phase.Starting?)
    ensures Poised(s, if phase.Creating? then Starting else Running)
  {
    WalkIsQuiet(s, phase);
    FirstMoves(s, phase);
  }

  lemma {:induction false} LastStraw(s: State)
    requires OneLeft(s.pods, Running)
    ensures AtRisk(s, 1, 1)
  {
    assert Newer(s.pods, 1) == s.pods.Keys - {0, 1};
    assert EndableBelow(s, 1, 1) == {0};
  }

  function Doomed(n: nat): seq<Event>
    requires n <= CROWD
  {
    Crowd(n) + [Driving(ONE_SUCCEEDS, 0)] + [Driving(ONE_SUCCEEDS, 0)] + [Driving(ONE_SUCCEEDS, 0)]
  }

  lemma {:induction false} RunPoised(start: State, events: seq<Event>, s: State, phase: Phase) returns (t: State)
    requires Run(start, events) == Some(s) && Poised(s, phase) && !phase.Terminal()
    ensures Run(start, events + [Driving(ONE_SUCCEEDS, 0)]) == Some(t) && Inv(t) && OneLeft(t.pods, phase)
  {
    t := DriveLeaves(s, phase);
    RunThen(start, events, Driving(ONE_SUCCEEDS, 0));
  }

  lemma {:induction false} CrowdPoised(start: State, n: nat) returns (s: State)
    requires Crowded(start, 0) && n == CROWD
    ensures Run(start, Crowd(n)) == Some(s) && Poised(s, Creating)
  {
    s := CrowdArrives(start, n);
    CrowdFails(s);
  }

  lemma {:induction false} RunCreating(start: State, events: seq<Event>, s: State) returns (t: State)
    requires Run(start, events) == Some(s) && Inv(s) && OneLeft(s.pods, Creating)
    ensures Run(start, events + [Driving(ONE_SUCCEEDS, 0)]) == Some(t) && Inv(t) && OneLeft(t.pods, Starting)
  {
    FirstAdvances(s, Creating);
    t := RunPoised(start, events, s, Starting);
  }

  lemma {:induction false} RunStarting(start: State, events: seq<Event>, s: State) returns (t: State)
    requires Run(start, events) == Some(s) && Inv(s) && OneLeft(s.pods, Starting)
    ensures Run(start, events + [Driving(ONE_SUCCEEDS, 0)]) == Some(t) && Inv(t) && OneLeft(t.pods, Running)
  {
    FirstAdvances(s, Starting);
    t := RunPoised(start, events, s, Running);
  }

  lemma {:induction false} DoomedStarts(start: State, n: nat) returns (s: State)
    requires Crowded(start, 0) && n == CROWD
    ensures Run(start, Crowd(n) + [Driving(ONE_SUCCEEDS, 0)]) == Some(s) && Inv(s) && OneLeft(s.pods, Creating)
  {
    s := CrowdPoised(start, n);
    s := RunPoised(start, Crowd(n), s, Creating);
  }

  lemma {:induction false} DoomedRuns(start: State, n: nat) returns (s: State)
    requires Crowded(start, 0) && n == CROWD
    ensures Run(start, Doomed(n)) == Some(s) && Inv(s) && OneLeft(s.pods, Running)
  {
    var e := Driving(ONE_SUCCEEDS, 0);
    s := DoomedStarts(start, n);
    s := RunCreating(start, Crowd(n) + [e], s);
    s := RunStarting(start, Crowd(n) + [e] + [e], s);
  }

  lemma {:induction false} DoomedPanics(start: State, n: nat)
    requires Crowded(start, 0) && n == CROWD
    ensures Run(start, Doomed(n) + [Driving(EVERYTHING_ENDS, 1)]).None?
  {
    var s := DoomedRuns(start, n);
    LastStraw(s);
    InvReady(s);
    RiskMayPanic(s, 1, 1);
    DrivePanicked(s, EVERYTHING_ENDS, 1);
    RunThen(start, Doomed(n), Driving(EVERYTHING_ENDS, 1));
  }

  /** A fresh worker of any size can be driven into the panic. */
  lemma {:induction false} PanicIsReachable(name: Text, gpuType: GpuType, total: Amounts)
    ensures exists events :: Run(Initial(name, gpuType, total), events).None?
  {
    InitialInv(name, gpuType, total);
    var n := CROWD;
    DoomedPanics(Initial(name, gpuType, total), n);
  }
}
