/**
 What the control plane is told about each pod: a lifecycle pass and a shutdown report the end of a
 pod exactly once, when its reservation is released; and shutdown, when it finishes, leaves nothing.
 */
module PodReports {
  import opened Basics
  import opened Messages
  import opened Lifecycle
  import opened PodSafety
  import opened Tombstones
  import opened WorkerState
  import opened WorkerPass
  import opened WorkerEvents
  import opened ShutdownAccounts
  import opened WorkerRuns
  import opened PassPanics
  import opened Coverage

  /** The status reports about one pod, in the order they were sent. */
  function About(sent: seq<WorkerMessage>, id: PodId): seq<PodStatusReport> {
    if sent == [] then []
    else
      var m := sent[|sent| - 1];
      About(sent[..|sent| - 1], id) + if m.PodStatusEvent? && m.podId == id then [m.report] else []
  }

  lemma {:induction false} AboutBoth(a: seq<WorkerMessage>, b: seq<WorkerMessage>, id: PodId)
    ensures About(a + b, id) == About(a, id) + About(b, id)
  {
    if b == [] {
      assert a + b == a;
    } else {
      var front := b[..|b| - 1];
      assert (a + b)[..|a + b| - 1] == a + front;
      AboutBoth(a, front, id);
    }
  }

  lemma {:induction false} AboutTold(id: PodId, reports: seq<PodStatusReport>, j: PodId)
    ensures About(Tell(id, reports), j) == if j == id then reports else []
  {
    if reports != [] {
      var front := reports[..|reports| - 1];
      assert Tell(id, reports)[..|reports| - 1] == Tell(id, front);
      AboutTold(id, front, j);
      assert reports == front + [reports[|reports| - 1]];
    }
  }

  // -- A lifecycle pass --

  lemma {:induction false} AboutReports(steps: Steps, order: seq<PodId>, id: PodId)
    requires Distinct(order)
    ensures About(Reports(steps, order), id) == if id in order && id in steps then steps[id].reports else []
  {
    if order != [] {
      var front := order[..|order| - 1];
      var last := order[|order| - 1];
      assert order == front + [last];
      AboutReports(steps, front, id);
      AboutMore(steps, front, last, id);
    }
  }

  lemma {:induction false} AboutMore(steps: Steps, front: seq<PodId>, last: PodId, id: PodId)
    ensures About(Reports(steps, front + [last]), id) ==
            About(Reports(steps, front), id) + if last in steps && id == last then steps[last].reports else []
  {
    assert (front + [last])[..|front|] == front;
    var more := if last in steps then Tell(last, steps[last].reports) else [];
    AboutBoth(Reports(steps, front), more, id);
    if last in steps {
      AboutTold(last, steps[last].reports, id);
    }
  }

  /** At most one report, and a terminal one exactly when the pod has just become terminal. */
  predicate OneReport(before: Pod, after: Pod, reports: seq<PodStatusReport>) {
    && |reports| <= 1
    && (after.Terminal() && !before.Terminal() <==> |reports| == 1 && reports[0].Terminal())
    && (reports != [] ==> reports[0] == after.phase.Report())
  }

  lemma FailReports(r: Step, why: Text, a: Answers, now: nat)
    requires r.reports == [] && !r.pod.Terminal()
    ensures OneReport(r.pod, Fail(r, why, a, now).pod, Fail(r, why, a, now).reports)
  {
  }

  lemma StartingReports(r: Step, a: Answers, now: nat)
    requires r.reports == [] && r.pod.phase.Starting? && r.pod.handle.Some?
    ensures OneReport(r.pod, StepStarting(r, a, now).pod, StepStarting(r, a, now).reports)
  {
  }

  lemma RunningReports(r: Step, a: Answers, now: nat)
    requires r.reports == [] && r.pod.phase.Running? && r.pod.handle.Some?
    ensures OneReport(r.pod, StepRunning(r, a, now).pod, StepRunning(r, a, now).reports)
  {
  }

  lemma StoppingReports(r: Step, a: Answers, now: nat)
    requires r.reports == [] && r.pod.phase.Stopping?
    ensures OneReport(r.pod, StepStopping(r, a, now).pod, StepStopping(r, a, now).reports)
  {
  }

  lemma StepReports(r: Step, a: Answers, now: nat)
    requires r.reports == [] && (r.pod.phase.Running? ==> r.pod.handle.Some?)
    ensures OneReport(r.pod, PodStep(r, a, now).pod, PodStep(r, a, now).reports)
  {
    if !Idle(r.pod, now) {
      match r.pod.phase
      case ImagePulling =>
        if a.pull.Err? {
          FailReports(r.Called(PullImage(false)), a.pull.error, a, now);
        }
      case Creating =>
        var mounted := r.Called(MountVolume(a.mount.Ok?));
        if r.pod.private.juicefsPath != [] && a.mount.Err? {
          FailReports(mounted, Ascii("juicefs mount failed: ") + a.mount.error, a, now);
        } else if a.create.Err? {
          var from := if r.pod.private.juicefsPath == [] then r else mounted;
          var mounts := if r.pod.private.juicefsPath == [] then [] else [a.mount.value];
          FailReports(from.Called(CreatePod(mounts, None)), a.create.error, a, now);
        }
      case Starting => StartingReports(r, a, now);
      case Running => RunningReports(r, a, now);
      case Stopping => StoppingReports(r, a, now);
    }
  }

  /** A pass tells the control plane of a pod's end exactly once, and exactly when its reservation
      is released. */
  lemma {:induction false} PassReports(s: State, env: Environment, now: nat, id: PodId)
    requires Inv(s) && Ready(s) && id in s.pods
    ensures
      var reports := if Idle(s.pods[id], now) then [] else StepOf(s, id, env, now).reports;
      && About(Drive(s, env, now).sent, id) == About(s.sent, id) + reports
      && OneReport(s.pods[id], StepOf(s, id, env, now).pod, reports)
  {
    var order := PassOrder(s, env, now);
    var steps := PassSteps(s, env, now);
    PassOrderDistinct(s, env, now);
    PassOrderElements(s, env, now, id);
    AboutReports(steps, order, id);
    AboutBoth(s.sent, Reports(steps, order), id);
    StepReports(Begin(s, id), env(id), now);
  }

  // -- Shutdown --

  /** A pod that shutdown removes is reported once if it was live; nothing else is reported. */
  lemma ShutdownStepReports(r: Step, a: ShutdownAnswers)
    requires SaneStep(r) && r.reports == []
    ensures
      var (done, gone) := ShutdownStep(r, a);
      if gone && !r.pod.Terminal() then |done.reports| == 1 && done.reports[0].Terminal() else done.reports == []
  {
    VerifyExitKeeps(r, a);
  }

  lemma {:induction false} ShutdownOneSent(s: State, id: PodId, a: ShutdownAnswers, j: PodId)
    requires id in s.pods
    ensures About(ShutdownOne(s, id, a).sent, j) ==
            About(s.sent, j) + if j == id then ShutdownStep(Begin(s, id), a).0.reports else []
  {
    var reports := ShutdownStep(Begin(s, id), a).0.reports;
    AboutBoth(s.sent, Tell(id, reports), j);
    AboutTold(id, reports, j);
  }

  /** The reports that shutdown sends about one pod. */
  function ShutdownReports(s: State, ids: seq<PodId>, answers: PodId -> ShutdownAnswers, j: PodId): seq<PodStatusReport> {
    if j in ids && j in s.pods then ShutdownStep(Begin(s, j), answers(j)).0.reports else []
  }

  lemma {:induction false} SentStep(s: State, t: State, front: seq<PodId>, last: PodId,
                                    answers: PodId -> ShutdownAnswers, j: PodId)
    requires last !in front && last in s.pods && last in t.pods && Begin(t, last) == Begin(s, last)
    requires About(t.sent, j) == About(s.sent, j) + ShutdownReports(s, front, answers, j)
    ensures About(ShutdownOne(t, last, answers(last)).sent, j) ==
            About(s.sent, j) + ShutdownReports(s, front + [last], answers, j)
  {
    ShutdownOneSent(t, last, answers(last), j);
  }

  lemma {:induction false} ShutdownSent(s: State, ids: seq<PodId>, answers: PodId -> ShutdownAnswers, j: PodId)
    requires Distinct(ids) && forall id | id in ids :: id in s.pods
    ensures About(ShutdownAll(s, ids, answers).sent, j) == About(s.sent, j) + ShutdownReports(s, ids, answers, j)
  {
    if ids != [] {
      var front := ids[..|ids| - 1];
      var last := ids[|ids| - 1];
      assert ids == front + [last];
      StillAsBefore(s, front, last, answers);
      ShutdownSent(s, front, answers, j);
      SentStep(s, ShutdownAll(s, front, answers), front, last, answers, j);
    }
  }

  /** What shutdown has done for one pod: it is gone, and its end was reported once if it was live;
      or it is still tracked and nothing was reported. */
  ghost predicate SettledBy(s: State, t: State, id: PodId)
    requires id in s.pods
  {
    if id in t.pods then
      && About(t.sent, id) == About(s.sent, id)
      && (!s.pods[id].Terminal() ==> !t.pods[id].Terminal() && t.pods[id].demand == s.pods[id].demand)
    else if s.pods[id].Terminal() then About(t.sent, id) == About(s.sent, id)
    else exists report: PodStatusReport :: report.Terminal() && About(t.sent, id) == About(s.sent, id) + [report]
  }

  lemma {:induction false} OutcomeSettles(s: State, t: State, ids: seq<PodId>, answers: PodId -> ShutdownAnswers, id: PodId)
    requires Inv(s) && Outcomes(s, t, ids, answers) && id in s.pods
    requires About(t.sent, id) == About(s.sent, id) + ShutdownReports(s, ids, answers, id)
    ensures SettledBy(s, t, id)
  {
    if id in ids {
      assert InvAt(s, id);
      ShutdownFrame(Begin(s, id), answers(id));
      ShutdownLiveness(Begin(s, id), answers(id));
      ShutdownStepReports(Begin(s, id), answers(id));
      var reports := ShutdownReports(s, ids, answers, id);
      if id !in t.pods && !s.pods[id].Terminal() {
        assert reports == [reports[0]];
      }
    }
  }

  lemma {:induction false} ShutdownSettles(s: State, answers: PodId -> ShutdownAnswers, visits: nat, id: PodId)
    requires Inv(s) && id in s.pods
    ensures SettledBy(s, Shutdown(s, answers, visits), id)
  {
    var ids := Visited(s, visits);
    VisitedIsOrder(s, visits);
    ShutdownOutcomes(s, ids, answers);
    ShutdownSent(s, ids, answers, id);
    OutcomeSettles(s, Shutdown(s, answers, visits), ids, answers, id);
  }

  /** Nothing is owned, pending or reserved. */
  ghost predicate AllGone(t: State) {
    && t.pods == map[] && t.pending == map[] && t.alloc == NOTHING
    && forall id :: LedgerOf(t, id).live == {} && !LedgerOf(t, id).mayBeMounted
  }

  lemma {:induction false} NothingLeft(t: State)
    requires Inv(t) && t.pods == map[]
    ensures t.pending == map[] && forall id :: LedgerOf(t, id).live == {} && !LedgerOf(t, id).mayBeMounted
  {
    forall id: PodId
      ensures id !in t.pending && LedgerOf(t, id).live == {} && !LedgerOf(t, id).mayBeMounted
    {
      assert InvAt(t, id);
    }
  }

  /** A shutdown that starts from exact accounts releases exactly what it removes: the counters are the
      sum over the pods that were live and are still tracked. */
  lemma {:induction false} ShutdownReleases(s: State, answers: PodId -> ShutdownAnswers, visits: nat)
    requires Inv(s) && Exact(s)
    ensures Shutdown(s, answers, visits).alloc == Reserved(StillLive(s, Shutdown(s, answers, visits)))
  {
    VisitedIsOrder(s, visits);
    ShutdownMidway(s, Visited(s, visits), answers);
  }

  /** From every reachable state: shutdown settles each pod, and when it finishes it leaves nothing
      tracked, pending, reserved, owned or mounted. */
  lemma {:induction false} ShutdownSound(s: State, answers: PodId -> ShutdownAnswers, visits: nat)
    requires Reachable(s)
    ensures
      var t := Shutdown(s, answers, visits);
      && (forall id | id in s.pods :: SettledBy(s, t, id))
      && (t.pods == map[] ==> AllGone(t))
  {
    var t := Shutdown(s, answers, visits);
    ReachableInv(s);
    forall id | id in s.pods
      ensures SettledBy(s, t, id)
    {
      ShutdownSettles(s, answers, visits, id);
    }
    if t.pods == map[] {
      ShutdownKeepsInv(s, answers, visits);
      NothingLeft(t);
      ReachableCovered(s);
      ShutdownKeepsCovered(s, answers, visits);
      CoveredByNothing(t);
    }
  }

  // -- A shutdown that breaks the accounts --

  // A pod that reserved something fails to pull its image and becomes a tombstone; then its unmount
  // fails during shutdown, and it counts as live again although its reservation was released.

  const PULL_FAILS: Environment := _ => LUCKY.(pull := Err([]))
  const UNMOUNT_FAILS: PodId -> ShutdownAnswers := _ => ShutdownAnswers([], Err([]), Ok(()), Err([]))

  lemma {:induction false} OnePod(total: Amounts, demand: Amounts) returns (s: State)
    requires demand.Within(total)
    ensures Next(Initial([], NoGpu, total), Sized(1, demand)) == Some(s) && Inv(s) && Exact(s)
    ensures s.pods.Keys == {1} && s.pods[1].phase.ImagePulling? && s.pods[1].handle.None? && s.pods[1].demand == demand
  {
    InitialInv([], NoGpu, total);
    s := SizedAdmitted(Initial([], NoGpu, total), 1, demand);
  }

  lemma {:induction false} OneFails(s: State)
    requires Ready(s) && s.pods.Keys == {1} && s.pods[1].phase.ImagePulling? && s.pods[1].handle.None?
    ensures
      var moved := Moved(s.pods, PassSteps(s, PULL_FAILS, 0));
      && moved.Keys == {1} && moved[1].Terminal() && moved[1].demand == s.pods[1].demand
      && |TombstonesOf(moved)| <= 1
  {
    PullOutcome(Begin(s, 1));
    StepFrame(Begin(s, 1), PULL_FAILS(1), 0);
    CardSubset(TombstonesOf(Moved(s.pods, PassSteps(s, PULL_FAILS, 0))), {1});
  }

  lemma {:induction false} OneIsSafe(s: State)
    requires Inv(s) && Ready(s) && s.pods.Keys == {1} && s.pods[1].phase.ImagePulling?
    ensures !DrivePanics(s, PULL_FAILS, 0)
  {
    assert TombstonesOf(s.pods) == {} && Endable(s, 0) == {};
    RoomMeansNoPanic(s, PULL_FAILS, 0);
  }

  lemma {:induction false} OneTombstone(s: State) returns (t: State)
    requires Inv(s) && Exact(s) && s.pods.Keys == {1} && s.pods[1].phase.ImagePulling? && s.pods[1].handle.None?
    ensures Next(s, Driving(PULL_FAILS, 0)) == Some(t) && Inv(t) && Exact(t)
    ensures t.pods.Keys == {1} && t.pods[1].Terminal() && t.pods[1].demand == s.pods[1].demand
  {
    InvReady(s);
    OneIsSafe(s);
    OneFails(s);
    t := DriveIsMove(s, PULL_FAILS, 0);
    DriveKeepsExact(s, PULL_FAILS, 0);
  }

  lemma {:induction false} RevivalBreaks(t: State)
    requires Inv(t) && Exact(t) && t.pods.Keys == {1} && t.pods[1].Terminal() && t.pods[1].demand != NOTHING
    ensures !Exact(Shutdown(t, UNMOUNT_FAILS, 1))
  {
    SnapshotIsOrder(t.pods);
    var ids := Snapshot(t.pods);
    assert 1 in ids;
    assert |ids| == |t.pods.Keys| by {
      assert (set id | id in t.pods :: (0, id)) == {(0, 1)};
    }
    assert ids[..Min(1, |ids|)] == ids;
    assert Revived(t, ids, UNMOUNT_FAILS, 1);
    ShutdownExactIff(t, ids, UNMOUNT_FAILS);
  }

  lemma NextShutdown(t: State, answers: PodId -> ShutdownAnswers, visits: nat)
    ensures Next(t, ShuttingDown(answers, visits)) == Some(Shutdown(t, answers, visits))
  {
  }

  lemma {:induction false} RunThree(s: State, a: Event, b: Event, c: Event, t: State, u: State, v: State)
    requires Next(s, a) == Some(t) && Next(t, b) == Some(u) && Next(u, c) == Some(v)
    ensures Reaches(s, [a] + [b] + [c], v)
  {
    RunThen(s, [], a);
    assert [] + [a] == [a];
    RunThen(s, [a], b);
    RunThen(s, [a] + [b], c);
  }

  lemma {:induction false} UntidyRun(total: Amounts, demand: Amounts) returns (events: seq<Event>, u: State)
    requires demand.Within(total) && demand != NOTHING
    ensures Reaches(Initial([], NoGpu, total), events, u) && !Exact(u)
  {
    var a, b, c := Sized(1, demand), Driving(PULL_FAILS, 0), ShuttingDown(UNMOUNT_FAILS, 1);
    var s := OnePod(total, demand);
    var t := OneTombstone(s);
    RevivalBreaks(t);
    u := Shutdown(t, UNMOUNT_FAILS, 1);
    NextShutdown(t, UNMOUNT_FAILS, 1);
    RunThree(Initial([], NoGpu, total), a, b, c, s, t, u);
    events := [a] + [b] + [c];
  }

  /** Every run, with whatever shutdowns, ends with exact accounts. */
  ghost predicate EveryRunExact(total: Amounts) {
    forall name, gpuType, events, s :: Reaches(Initial(name, gpuType, total), events, s) ==> Exact(s)
  }

  lemma {:induction false} NothingEveryRunExact(total: Amounts)
    requires total == NOTHING
    ensures EveryRunExact(total)
  {
    forall name, gpuType, events, s | Reaches(Initial(name, gpuType, total), events, s)
      ensures Exact(s)
    {
      InitialInv(name, gpuType, total);
      RunOnNothing(Initial(name, gpuType, total), events, s);
    }
  }

  /** When shutdowns may fail to unmount, the counters stay the sum of the reservations in every run only on
      a node that has nothing: on any other node some run ends with a revived tombstone that they miss. */
  lemma {:induction false} EveryRunExactIff(total: Amounts)
    ensures EveryRunExact(total) <==> total == NOTHING
  {
    if total == NOTHING {
      NothingEveryRunExact(total);
    } else {
      var events, s := UntidyRun(total, total);
      assert Reaches(Initial([], NoGpu, total), events, s) && !Exact(s);
    }
  }
}
