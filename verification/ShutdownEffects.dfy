/**
 What a shutdown does to each pod it visits, as the outside sees it: a container is forgotten only after it
 was seen stopped, removed and unmounted, and the end that is reported is the one that was seen.
 */
module ShutdownEffects {
  import opened Basics
  import opened Messages
  import opened Lifecycle
  import opened PodSafety
  import opened WorkerState
  import opened WorkerPass
  import opened WorkerEvents
  import opened ShutdownAccounts
  import opened PodReports
  import opened PassEffects

  // -- Stop attempts --

  predicate SaysStopped(status: Outcome<RuntimeStatus>) {
    status.Ok? && status.value.StoppedStatus?
  }

  /** Of at most `budget` attempts, the `i`-th is the first after which the container is seen stopped, and
      there was time left for it. */
  predicate FirstStop(attempts: seq<StopAttempt>, budget: int, i: nat, exitCode: I32) {
    && i < budget && i < |attempts| && attempts[i].status == Ok(StoppedStatus(exitCode))
    && (forall j | 0 <= j <= i :: attempts[j].remainingMs != 0)
    && (forall j | 0 <= j < i :: !SaysStopped(attempts[j].status))
  }

  /** All `n` attempts for which there was budget and time were made, and the container was never seen
      stopped. */
  predicate AllTried(attempts: seq<StopAttempt>, budget: int, n: nat) {
    && n <= budget && n <= |attempts|
    && (forall j | 0 <= j < n :: attempts[j].remainingMs != 0 && !SaysStopped(attempts[j].status))
    && (n == budget || n == |attempts| || attempts[n].remainingMs == 0)
  }

  /** The calls of the first `n` attempts: each stops the container with the grace, cut to the time left, and
      asks for its status. */
  function Trail(container: Text, attempts: seq<StopAttempt>, n: nat, graceMs: int): seq<Call>
    requires n <= |attempts|
  {
    if n == 0 then []
    else
      var a := attempts[0];
      [StopPodCall(container, if graceMs <= a.remainingMs then graceMs else a.remainingMs, a.stop.Ok?), QueryStatus(container)]
      + Trail(container, attempts[1..], n - 1, graceMs)
  }

  lemma TrailStep(before: seq<Call>, c: Call, d: Call, rest: seq<Call>)
    ensures ((before + [c]) + [d]) + rest == before + ([c, d] + rest)
  {
  }

  lemma FirstStopLater(attempts: seq<StopAttempt>, budget: int, i: nat, exitCode: I32)
    requires attempts != [] && i > 0 && FirstStop(attempts, budget, i, exitCode)
    ensures attempts[0].remainingMs != 0 && !SaysStopped(attempts[0].status)
    ensures FirstStop(attempts[1..], budget - 1, i - 1, exitCode)
  {
    var rest := attempts[1..];
    assert forall j | 0 <= j < |rest| :: rest[j] == attempts[j + 1];
  }

  /** The attempts end with the first one after which the container is seen stopped. */
  lemma {:induction false} StopsSeen(r: Step, attempts: seq<StopAttempt>, budget: int, graceMs: int, i: nat, exitCode: I32)
    requires r.pod.handle.Some? && FirstStop(attempts, budget, i, exitCode)
    ensures
      var (tried, exit) := TryStops(r, attempts, budget, graceMs);
      && exit == Some(exitCode)
      && tried.ledger.calls == r.ledger.calls + Trail(r.pod.handle.value.containerId, attempts, i + 1, graceMs)
    decreases i
  {
    var a := attempts[0];
    var c := r.pod.handle.value.containerId;
    var stop := StopPodCall(c, Min(graceMs, a.remainingMs), a.stop.Ok?);
    var tried := r.Called(stop).Called(QueryStatus(c));
    var n: nat := i;
    TrailStep(r.ledger.calls, stop, QueryStatus(c), Trail(c, attempts[1..], n, graceMs));
    if i == 0 {
      assert Trail(c, attempts[1..], 0, graceMs) == [];
    } else {
      FirstStopLater(attempts, budget, i, exitCode);
      StopsSeen(tried, attempts[1..], budget - 1, graceMs, i - 1, exitCode);
    }
  }

  /** Without such an attempt there is no exit. */
  lemma {:induction false} StopsUnseen(r: Step, attempts: seq<StopAttempt>, budget: int, graceMs: int, n: nat)
    requires r.pod.handle.Some? && AllTried(attempts, budget, n)
    ensures
      var (tried, exit) := TryStops(r, attempts, budget, graceMs);
      && exit.None?
      && tried.ledger.calls == r.ledger.calls + Trail(r.pod.handle.value.containerId, attempts, n, graceMs)
    decreases n
  {
    if n == 0 {
      assert r.ledger.calls + [] == r.ledger.calls;
    } else {
      var a := attempts[0];
      var c := r.pod.handle.value.containerId;
      var stop := StopPodCall(c, Min(graceMs, a.remainingMs), a.stop.Ok?);
      var rest := attempts[1..];
      assert forall j | 0 <= j < |rest| :: rest[j] == attempts[j + 1];
      var m: nat := n - 1;
      StopsUnseen(r.Called(stop).Called(QueryStatus(c)), rest, budget - 1, graceMs, m);
      TrailStep(r.ledger.calls, stop, QueryStatus(c), Trail(c, rest, m, graceMs));
    }
  }

  /** One of the two is the case. */
  lemma {:induction false} SeenOrTried(attempts: seq<StopAttempt>, budget: nat) returns (n: nat, exit: Option<I32>)
    ensures exit.Some? ==> FirstStop(attempts, budget, n, exit.value)
    ensures exit.None? ==> AllTried(attempts, budget, n)
  {
    n := 0;
    while n < budget && n < |attempts| && attempts[n].remainingMs != 0
      invariant n <= budget && n <= |attempts|
      invariant forall j | 0 <= j < n :: attempts[j].remainingMs != 0 && !SaysStopped(attempts[j].status)
    {
      if SaysStopped(attempts[n].status) {
        return n, Some(attempts[n].status.value.exitCode);
      }
      n := n + 1;
    }
    exit := None;
  }

  lemma NotBoth(attempts: seq<StopAttempt>, budget: int, n: nat, i: nat, exitCode: I32)
    requires AllTried(attempts, budget, n)
    ensures !FirstStop(attempts, budget, i, exitCode)
  {
  }

  lemma OneFirstStop(attempts: seq<StopAttempt>, budget: int, i: nat, c: I32, j: nat, d: I32)
    requires FirstStop(attempts, budget, i, c) && FirstStop(attempts, budget, j, d)
    ensures i == j && c == d
  {
  }

  // -- One pod --

  function AttemptsLeft(pod: Pod): int {
    3 - pod.failures
  }

  /** The grace of a shutdown's stop attempts. */
  function Grace(pod: Pod): int {
    if pod.graceMs > 0 then pod.graceMs else 15_000
  }

  /** The exit that was seen of a pod's container, with the calls it took: after one of the stop attempts that
      the pod has left, or, if it has none left, when it was asked for its status once. */
  ghost predicate ExitSeen(pod: Pod, container: Text, a: ShutdownAnswers, exitCode: I32, calls: seq<Call>) {
    if pod.failures < 3 then
      exists i: nat :: FirstStop(a.attempts, AttemptsLeft(pod), i, exitCode) && calls == Trail(container, a.attempts, i + 1, Grace(pod))
    else a.poll == Ok(StoppedStatus(exitCode)) && calls == [QueryStatus(container)]
  }

  ghost predicate NoExitSeen(pod: Pod, container: Text, a: ShutdownAnswers, calls: seq<Call>) {
    if pod.failures < 3 then
      exists n: nat :: AllTried(a.attempts, AttemptsLeft(pod), n) && calls == Trail(container, a.attempts, n, Grace(pod))
    else !SaysStopped(a.poll) && calls == [QueryStatus(container)]
  }

  lemma {:induction false} VerifySeen(r: Step, a: ShutdownAnswers, exitCode: I32, calls: seq<Call>)
    requires SaneStep(r) && !r.pod.Terminal() && r.pod.handle.Some?
    requires ExitSeen(r.pod, r.pod.handle.value.containerId, a, exitCode, calls)
    ensures VerifyExit(r, a).1 == Some(exitCode) && VerifyExit(r, a).0.ledger.calls == r.ledger.calls + calls
  {
    if r.pod.failures < 3 {
      var i: nat :| FirstStop(a.attempts, AttemptsLeft(r.pod), i, exitCode)
                    && calls == Trail(r.pod.handle.value.containerId, a.attempts, i + 1, Grace(r.pod));
      StopsSeen(r, a.attempts, AttemptsLeft(r.pod), Grace(r.pod), i, exitCode);
    }
  }

  lemma {:induction false} VerifyUnseen(r: Step, a: ShutdownAnswers, calls: seq<Call>)
    requires SaneStep(r) && !r.pod.Terminal() && r.pod.handle.Some?
    requires NoExitSeen(r.pod, r.pod.handle.value.containerId, a, calls)
    ensures VerifyExit(r, a).1.None? && VerifyExit(r, a).0.ledger.calls == r.ledger.calls + calls
  {
    if r.pod.failures < 3 {
      var n: nat :| AllTried(a.attempts, AttemptsLeft(r.pod), n)
                    && calls == Trail(r.pod.handle.value.containerId, a.attempts, n, Grace(r.pod));
      StopsUnseen(r, a.attempts, AttemptsLeft(r.pod), Grace(r.pod), n);
    }
  }

  /** The step of a live pod whose end was verified. */
  lemma {:induction false} ShutdownFinishes(r: Step, a: ShutdownAnswers, exitCode: I32, calls: seq<Call>)
    requires SaneStep(r) && !r.pod.Terminal() && r.reports == []
    requires VerifyExit(r, a).1 == Some(exitCode) && VerifyExit(r, a).0.ledger.calls == r.ledger.calls + calls
    ensures
      var (u, gone) := ShutdownStep(r, a);
      var v := Finished(r.pod.handle, r.reason, exitCode, calls, a.remove, a.unmount);
      && (gone <==> !v.phase.Stopping?)
      && u.reason == v.reason && u.ledger.calls == r.ledger.calls + v.calls && u.reports == v.reports
      && (!gone ==> u.pod.phase == v.phase && u.pod.handle == v.handle)
  {
    VerifyExitKeeps(r, a);
    if r.pod.handle.Some? {
      var removed := RemovePod(r.pod.handle.value.containerId, a.remove.Ok?);
      CallsJoin(r.ledger.calls, calls, [removed], removed);
      CallsJoin(r.ledger.calls, calls, [removed], UnmountVolume(a.unmount.Ok?));
    } else {
      CallsJoin(r.ledger.calls, calls, [], UnmountVolume(a.unmount.Ok?));
    }
  }

  lemma {:induction false} ShutdownAbandons(r: Step, a: ShutdownAnswers)
    requires SaneStep(r) && !r.pod.Terminal() && r.reports == [] && VerifyExit(r, a).1.None?
    ensures
      var (u, gone) := ShutdownStep(r, a);
      && !gone && u.pod.phase.Stopping? && u.pod.handle == r.pod.handle && u.reason == r.reason && u.reports == []
      && u.ledger == VerifyExit(r, a).0.ledger
  {
    VerifyExitKeeps(r, a);
  }

  // -- Shutdown --

  /** What shutdown shows of a pod: it is tracked and stopping, or gone. */
  ghost predicate LeavesAs(s: State, t: State, id: PodId, v: Sight)
    requires id in s.pods
  {
    Shows(s, t, id, v) && (id in t.pods <==> v.phase.Stopping?)
  }

  lemma {:induction false} VisitLeaves(s: State, answers: PodId -> ShutdownAnswers, visits: nat, id: PodId, v: Sight)
    requires Inv(s) && id in Visited(s, visits) && id in s.pods
    requires
      var (u, gone) := ShutdownStep(Begin(s, id), answers(id));
      && (gone <==> !v.phase.Stopping?) && (gone ==> v.phase.Terminal())
      && u.reason == v.reason && u.ledger.calls == LedgerOf(s, id).calls + v.calls && u.reports == v.reports
      && (!gone ==> u.pod.phase == v.phase && u.pod.handle == v.handle)
    ensures LeavesAs(s, Shutdown(s, answers, visits), id, v)
  {
    var ids := Visited(s, visits);
    VisitedIsOrder(s, visits);
    ShutdownOutcomes(s, ids, answers);
    ShutdownSent(s, ids, answers, id);
    assert InvAt(s, id);
    ShutdownFrame(Begin(s, id), answers(id));
    assert VisitedOnce(s, Shutdown(s, answers, visits), id, answers(id));
  }

  /** A pod that is visited while it is live. */
  ghost predicate LiveVisit(s: State, visits: nat, id: PodId) {
    Inv(s) && id in Visited(s, visits) && id in s.pods && !s.pods[id].Terminal()
  }

  lemma FinishedEnds(handle: Option<Handle>, reason: Option<Text>, exitCode: I32, calls: seq<Call>,
                     remove: Outcome<()>, unmount: Outcome<()>)
    ensures
      var v := Finished(handle, reason, exitCode, calls, remove, unmount);
      && (v.phase.Stopping? || v.phase.Terminal())
      && (v.phase.Stopping? <==> unmount.Err? || (handle.Some? && remove.Err?))
      && (v.phase.Terminal() ==> v.reports == [if reason.Some? then ReportFailed(reason.value) else ReportStopped(exitCode)])
      && (v.phase.Stopping? ==> v.reports == [] && v.reason == reason)
  {
  }

  /** A pod whose container was seen stopped ends, with the exit code that was seen, once it is cleaned up. */
  lemma {:induction false} SeenPod(s: State, answers: PodId -> ShutdownAnswers, visits: nat, id: PodId, exitCode: I32, calls: seq<Call>)
    requires LiveVisit(s, visits, id) && s.pods[id].handle.Some?
    requires ExitSeen(s.pods[id], s.pods[id].handle.value.containerId, answers(id), exitCode, calls)
    ensures LeavesAs(s, Shutdown(s, answers, visits), id,
                     Finished(s.pods[id].handle, Reason(s, id), exitCode, calls, answers(id).remove, answers(id).unmount))
  {
    assert InvAt(s, id);
    var a := answers(id);
    VerifySeen(Begin(s, id), a, exitCode, calls);
    ShutdownFinishes(Begin(s, id), a, exitCode, calls);
    FinishedEnds(s.pods[id].handle, Reason(s, id), exitCode, calls, a.remove, a.unmount);
    VisitLeaves(s, answers, visits, id, Finished(s.pods[id].handle, Reason(s, id), exitCode, calls, a.remove, a.unmount));
  }

  /** A pod whose container was not seen stopped is stopping, keeps it and its reason, and is not reported. */
  lemma {:induction false} UnseenPod(s: State, answers: PodId -> ShutdownAnswers, visits: nat, id: PodId, calls: seq<Call>)
    requires LiveVisit(s, visits, id) && s.pods[id].handle.Some?
    requires NoExitSeen(s.pods[id], s.pods[id].handle.value.containerId, answers(id), calls)
    ensures LeavesAs(s, Shutdown(s, answers, visits), id, Sight(Stopping, s.pods[id].handle, Reason(s, id), calls, []))
  {
    assert InvAt(s, id);
    VerifyUnseen(Begin(s, id), answers(id), calls);
    ShutdownAbandons(Begin(s, id), answers(id));
    VisitLeaves(s, answers, visits, id, Sight(Stopping, s.pods[id].handle, Reason(s, id), calls, []));
  }

  /** A pod without a container ends once its volume is unmounted. */
  lemma {:induction false} BarePod(s: State, answers: PodId -> ShutdownAnswers, visits: nat, id: PodId)
    requires LiveVisit(s, visits, id) && s.pods[id].handle.None?
    ensures LeavesAs(s, Shutdown(s, answers, visits), id,
                     Finished(None, Reason(s, id), 0, [], answers(id).remove, answers(id).unmount))
  {
    assert InvAt(s, id);
    var a := answers(id);
    assert LedgerOf(s, id).calls + [] == LedgerOf(s, id).calls;
    ShutdownFinishes(Begin(s, id), a, 0, []);
    FinishedEnds(None, Reason(s, id), 0, [], a.remove, a.unmount);
    VisitLeaves(s, answers, visits, id, Finished(None, Reason(s, id), 0, [], a.remove, a.unmount));
  }

  lemma {:induction false} SeenOrNot(pod: Pod, container: Text, a: ShutdownAnswers) returns (exit: Option<I32>, calls: seq<Call>)
    requires pod.failures >= 0
    ensures exit.Some? ==> ExitSeen(pod, container, a, exit.value, calls)
    ensures exit.None? ==> NoExitSeen(pod, container, a, calls)
  {
    if pod.failures < 3 {
      var n;
      n, exit := SeenOrTried(a.attempts, AttemptsLeft(pod));
      calls := Trail(container, a.attempts, if exit.Some? then n + 1 else n, Grace(pod));
    } else {
      calls := [QueryStatus(container)];
      exit := if SaysStopped(a.poll) then Some(a.poll.value.exitCode) else None;
    }
  }

  /** The container was seen stopped: after an attempt that there was budget and time for, or when polled. */
  ghost predicate WasStopped(pod: Pod, a: ShutdownAnswers, exitCode: I32) {
    || (exists i: nat :: FirstStop(a.attempts, AttemptsLeft(pod), i, exitCode))
    || (pod.failures == 3 && a.poll == Ok(StoppedStatus(exitCode)))
  }

  lemma {:induction false} SeenIsStopped(pod: Pod, container: Text, a: ShutdownAnswers, exitCode: I32)
    requires 0 <= pod.failures <= 3
    ensures WasStopped(pod, a, exitCode) <==> exists calls :: ExitSeen(pod, container, a, exitCode, calls)
  {
    if pod.failures < 3 {
      if i: nat :| FirstStop(a.attempts, AttemptsLeft(pod), i, exitCode) {
        assert ExitSeen(pod, container, a, exitCode, Trail(container, a.attempts, i + 1, Grace(pod)));
      }
    } else if a.poll == Ok(StoppedStatus(exitCode)) {
      assert ExitSeen(pod, container, a, exitCode, [QueryStatus(container)]);
    }
  }

  lemma {:induction false} UnseenIsNotStopped(pod: Pod, container: Text, a: ShutdownAnswers, calls: seq<Call>, exitCode: I32)
    requires 0 <= pod.failures <= 3 && NoExitSeen(pod, container, a, calls)
    ensures !WasStopped(pod, a, exitCode)
  {
    if pod.failures < 3 {
      var n: nat :| AllTried(a.attempts, AttemptsLeft(pod), n) && calls == Trail(container, a.attempts, n, Grace(pod));
      forall i: nat
        ensures !FirstStop(a.attempts, AttemptsLeft(pod), i, exitCode)
      {
        NotBoth(a.attempts, AttemptsLeft(pod), n, i, exitCode);
      }
    }
  }

  /** A live pod with a container is gone after a shutdown that visited it if and only if its container was seen
      stopped, removed and its volume unmounted. */
  lemma {:induction false} RemovedIff(s: State, answers: PodId -> ShutdownAnswers, visits: nat, id: PodId)
    requires LiveVisit(s, visits, id) && s.pods[id].handle.Some?
    ensures id !in Shutdown(s, answers, visits).pods <==>
            answers(id).remove.Ok? && answers(id).unmount.Ok? && exists exitCode :: WasStopped(s.pods[id], answers(id), exitCode)
  {
    assert InvAt(s, id);
    var pod, a := s.pods[id], answers(id);
    var container := pod.handle.value.containerId;
    var exit, calls := SeenOrNot(pod, container, a);
    if exit.Some? {
      SeenPod(s, answers, visits, id, exit.value, calls);
      FinishedEnds(pod.handle, Reason(s, id), exit.value, calls, a.remove, a.unmount);
      SeenIsStopped(pod, container, a, exit.value);
    } else {
      UnseenPod(s, answers, visits, id, calls);
      forall exitCode: I32
        ensures !WasStopped(pod, a, exitCode)
      {
        UnseenIsNotStopped(pod, container, a, calls, exitCode);
      }
    }
  }

  /** Its end is then reported once: as failed with the pending reason if there is one, and otherwise as stopped
      with the exit code that was seen. */
  lemma {:induction false} RemovedReport(s: State, answers: PodId -> ShutdownAnswers, visits: nat, id: PodId, exitCode: I32)
    requires LiveVisit(s, visits, id) && s.pods[id].handle.Some?
    requires answers(id).remove.Ok? && answers(id).unmount.Ok? && WasStopped(s.pods[id], answers(id), exitCode)
    ensures
      var t := Shutdown(s, answers, visits);
      && id !in t.pods && id !in t.pending
      && About(t.sent, id) == About(s.sent, id) +
                              [match Reason(s, id) case Some(why) => ReportFailed(why) case None => ReportStopped(exitCode)]
  {
    assert InvAt(s, id);
    var pod, a := s.pods[id], answers(id);
    var container := pod.handle.value.containerId;
    SeenIsStopped(pod, container, a, exitCode);
    var calls :| ExitSeen(pod, container, a, exitCode, calls);
    SeenPod(s, answers, visits, id, exitCode, calls);
    FinishedEnds(pod.handle, Reason(s, id), exitCode, calls, a.remove, a.unmount);
  }

  /** A pod that was visited and kept, live or not, has no stop attempts left and waits for the last tick. */
  lemma {:induction false} KeptWaits(s: State, answers: PodId -> ShutdownAnswers, visits: nat, id: PodId)
    requires Inv(s) && id in Visited(s, visits) && id in s.pods && id in Shutdown(s, answers, visits).pods
    ensures
      var pod := Shutdown(s, answers, visits).pods[id];
      pod.phase.Stopping? && pod.failures == 3 && pod.retryAfter == 0xFFFF_FFFF_FFFF_FFFF
  {
    var ids := Visited(s, visits);
    VisitedIsOrder(s, visits);
    ShutdownOutcomes(s, ids, answers);
    assert InvAt(s, id);
    KeptIsAbandoned(Begin(s, id), answers(id));
    assert VisitedOnce(s, Shutdown(s, answers, visits), id, answers(id));
  }

  lemma KeptIsAbandoned(r: Step, a: ShutdownAnswers)
    requires SaneStep(r) && !ShutdownStep(r, a).1
    ensures
      var pod := ShutdownStep(r, a).0.pod;
      pod.phase.Stopping? && pod.failures == 3 && pod.retryAfter == 0xFFFF_FFFF_FFFF_FFFF
  {
  }

  /** So no pass before that tick makes a call for it or reports it. */
  lemma {:induction false} KeptIsLeftAlone(s: State, answers: PodId -> ShutdownAnswers, visits: nat, id: PodId, env: Environment, now: nat)
    requires Inv(s) && id in Visited(s, visits) && id in s.pods && id in Shutdown(s, answers, visits).pods
    requires now < 0xFFFF_FFFF_FFFF_FFFF
    ensures
      var t := Shutdown(s, answers, visits);
      && Inv(t) && Ready(t)
      && Shows(t, Drive(t, env, now), id, Sight(Stopping, t.pods[id].handle, Reason(t, id), [], []))
  {
    var t := Shutdown(s, answers, visits);
    ShutdownKeepsInv(s, answers, visits);
    KeptWaits(s, answers, visits, id);
    IdlePod(t, env, now, id);
  }
}
