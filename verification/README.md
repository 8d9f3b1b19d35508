# Verified model of the hivemind worker and API client

hivemind runs GPU and CPU workloads on worker nodes. A worker takes commands from a control plane over
a framed and optionally encrypted session, drives each pod through pull, create, start, run and stop
against a container runtime that may fail at any call, and reserves node capacity for it. An API client
sends commands and run requests to the replica that leads.

This Dafny 4.11 project models that logic and proves what it keeps. `dafny verify dfyconfig.toml` checks
the whole project.

## How it is organised

- **One pod.** `Lifecycle` gives what one pass does to one pod as a function of the pod and of whatever the
  runtime and volume helpers answer, with a ledger of the effects of the calls. `PodSafety` and
  `Transitions` hold its invariant, its progress measure and its phase transitions.
- **The worker as a state machine.** `WorkerState` defines every event: messages, passes, heartbeats, session
  loss, shutdown. `Tombstones`, `Accounting`, `WorkerPass`, `WorkerEvents` and `ShutdownAccounts` prove what
  each keeps; `WorkerRuns`, `Coverage`, `PassPanics`, `PodReports` and `Emissions` state the results over whole
  runs.
- **What is seen from outside.** `PassEffects`, `MessageEffects` and `ShutdownEffects` say what a pass, a message
  and a shutdown do to each pod in terms of phases, containers, pending reasons, the calls made and the reports
  sent, for every answer of the runtime, without reference to how the state machine computes it.
- **The worker itself.** `WorkerAgent` is the class with the source's fields, maps and loops, including the
  collect, execute and apply phases (`LifecycleOps`). Each method is proved to have exactly the effect that
  the state machine gives the event, so the results over runs hold of it.
- **The session.** `Wire`, `FrameIo`, `MessageCodec` and `AgentCodec` are the frame format, its writer and two
  readers, and the payloads; `Reassembly` is the fixed-buffer receiver.
- **The client.** `ClientWire` is its side of the wire. `ClientSpec` gives what a call returns and does to the
  connection as a function of what the replicas and the network do, and holds the results about executions;
  `ApiClient` is the class, whose methods are proved to do exactly that; `ClientRetries` holds two concrete
  runs. `ClusterStateParser` reads the cluster state and `ClusterStateWriter` is the writer it inverts.
- **The simulation.** `SimNetwork`; `SimRuntime` and `PullRaces`. **Identity.** `WorkloadIdentity`.

The runtime, the volume helpers, secrets, sockets, the clock, deadlines and random choices are parameters
that range over every possible behaviour. The runtime is assumed to leave no container behind when a
create fails. A replica is assumed not to execute a run request of which no byte reached it, nor one that it
answers with not_leader. The cipher is abstract with two laws: opening what was sealed under the same key and
associated data gives the plaintext, and sealing adds 24 + 16 bytes.

## Where the source does not keep what it is meant to keep

- Admission compares saturating sums with the totals and then adds plainly, so a node whose total is the
  largest value of its machine type overflows (`WorkerRuns.AlwaysExactIff` gives the exact condition). The
  additions are modelled as wrapping, as in a release build.
- The collection loop indexes ids from a snapshot although it can prune tombstones on the way
  (`PassPanics.PanicIff` gives the exact condition, `PassPanics.PanicIsReachable` a run).
- A failing unmount of a tombstone during shutdown turns it back into a stopping pod after its reservation
  was released (`ShutdownAccounts.ShutdownExactIff` per shutdown, `PodReports.EveryRunExactIff` over
  runs). The counters then fall short of the reservations; they never exceed them (`Coverage.ReachableCovered`).
- The simulation's transition table lacks edges that the worker takes (`Transitions.CheckerLacks`).
- The client documents its unavailable error as meaning that no request bytes were sent. The code also returns it
  after a request that went out whole, exactly when the replica answered that with not_leader and then either
  no leader was found or the second write failed before its first byte (`ClientSpec.WentOutUnavailableIff`;
  `ClientRetries` has a run of each kind). What holds is that the request was not executed
  (`ClientSpec.AtMostOnce`).
- The simulated runtime's results can depend on how the threads of a chunk interleave, when several of them pull
  one image (`PullRaces.OutcomesFixedIff` gives the exact condition); its state does not.

## Model

| member | source | states |
|---|---|---|
| `WorkerRuns.ContainersAreOwned` | worker/src/worker.rs:884-904 | In every reachable state, whatever the runtime answered, a container created and not yet successfully removed is held by its own pod's record in Starting, Running or Stopping, and a record holds no other container (both directions) |
| `WorkerRuns.ReleasedMeansCleaned` | worker/src/worker.rs:1001-1051 | In every reachable state, an id without a reservation has no live container and no volume that may still be mounted, and the last call made for it was a successful unmount |
| `WorkerRuns.WorkIsBounded` | worker/src/worker.rs:1053-1075 | Over any run, ticks and shutdowns together, one admission costs at most 1 pull, 3 creates, 3 starts and 3 stops |
| `WorkerRuns.MovesAreBounded` | worker/src/worker.rs:908-975 | Along any run whatsoever, shutdowns included, each move of a tracked pod uses up some of its budget (its rank, at least 1) and nothing refills it, so it makes at most 11 moves before it runs, is terminal, or is only polled |
| `WorkerRuns.ShutdownLowersBudget` | worker/src/worker.rs:1146-1272 | A shutdown never raises the budget of a pod it keeps, not even of a tombstone that it brings back |
| `Coverage.ReachableCovered` | worker/src/worker.rs:303-441 | In every reachable state, whatever the totals and however admissions overflowed or unmounts failed, the counters hold nothing that no live pod reserves |
| `Coverage.RunKeepsCovered` | worker/src/worker.rs:303-441 | No event of any run makes the counters exceed the reservations |
| `WorkerRuns.StructureHolds` | worker/src/worker.rs:382-418 | In every reachable state: at most 4096 pods and 1024 tombstones, pending reasons only for stopping pods, handles exactly where the phase needs them, secrets wiped from tombstones |
| `WorkerRuns.ReachableInv` | worker/src/worker.rs:165-200 | Every state reached from a fresh worker by any events satisfies the invariant |
| `WorkerRuns.ReachableAfter` | worker/src/worker.rs:165-200 | Running on from a reachable state leads to reachable states, so the results over runs apply after any sequence of the class's operations |
| `WorkerRuns.RunKeepsInv` | worker/src/worker.rs:165-200 | The invariant is preserved along every run |
| `WorkerRuns.RunKeepsExact` | worker/src/sim/checker.rs:35-115 | On a node below the machine maxima, every run whose shutdowns can unmount their tombstones keeps all three counters equal to the sums over live pods and within the totals |
| `WorkerRuns.AlwaysExactIff` | worker/src/worker.rs:303-326 | Exact accounts on all such runs hold if and only if each total is below the maximum of its machine type; otherwise two admissions overflow a counter |
| `WorkerRuns.AdmissionExactIff` | worker/src/worker.rs:303-326 | An admission keeps the accounts exact if and only if its plain additions do not overflow |
| `WorkerRuns.Overflows` | worker/src/worker.rs:324-326 | Two demands that pass the saturating tests one after the other but do not fit the counter give a run with inexact accounts |
| `WorkerRuns.ShutdownKeepsExact` | worker/src/worker.rs:1260-1272 | A shutdown that can unmount every visited tombstone keeps the accounts exact |
| `ShutdownAccounts.ShutdownExactIff` | worker/src/worker.rs:1260-1272 | Shutdown keeps the accounts exact if and only if every visited tombstone whose unmount fails had reserved nothing |
| `ShutdownAccounts.RevivedIffLive` | worker/src/worker.rs:1260-1272 | A tombstone is live again after shutdown exactly when its unmount was tried and failed |
| `PodReports.EveryRunExactIff` | worker/src/worker.rs:1260-1272 | With shutdowns of any kind allowed, every run keeps the accounts exact if and only if the node's totals are all zero |
| `PodReports.UntidyRun` | worker/src/worker.rs:1260-1272 | For any demand that fits and is not zero, a concrete run, ending in a shutdown with a failing unmount, after which the counters are not the sums |
| `Coverage.RunOnNothing` | worker/src/worker.rs:303-326 | On a node without resources only pods that ask for nothing are admitted, so every run keeps the accounts exact |
| `ShutdownAccounts.ShutdownOutcomes` | worker/src/worker.rs:1146-1288 | From any state, each pod that shutdown visits is gone or has taken its own shutdown step once, and each other pod is as it was |
| `ShutdownAccounts.StillAsBefore` | worker/src/worker.rs:1146-1160 | Shutdown finds the next pod of its snapshot as it was when shutdown began, from any state |
| `ShutdownAccounts.ShutdownMidway` | worker/src/worker.rs:1146-1288 | At every point of a shutdown that began with exact accounts the counters are the sum over the pods that were live and are still tracked, within the totals |
| `PodReports.ShutdownReleases` | worker/src/worker.rs:1273-1288 | A shutdown that began with exact accounts releases exactly what it removes |
| `PodReports.ShutdownSound` | worker/src/worker.rs:1127-1301 | From every reachable state: shutdown settles each pod, and if it leaves no pod then nothing is pending, reserved, owned or mounted |
| `PodReports.ShutdownSettles` | worker/src/worker.rs:1273-1288 | Each live pod that shutdown removes is reported terminal exactly once; a pod that is kept keeps its reservation and is not reported |
| `PodReports.PassReports` | worker/src/worker.rs:1033-1050 | A lifecycle pass reports a pod's end exactly once, and exactly when the pod becomes terminal and its reservation is released |
| `PodReports.StepReports` | worker/src/worker.rs:847-997 | One step sends at most one report, of the new phase, and a terminal one exactly when the pod has just ended |
| `PodReports.ShutdownSent` | worker/src/worker.rs:1273-1288 | From any state, the reports a shutdown sends about a pod are those of that pod's own shutdown step, for any visited pods |
| `Emissions.RunTellsTruly` | worker/src/worker.rs:217-266 | Over every run with 64-bit heartbeat ticks: each message sent meets what the encoder asks of it and fits its buffer, heartbeat counts are at most 4096, and the run responses answer the delivered run requests one for one, in order |
| `Emissions.RunTells` | worker/src/worker.rs:217-266 | A run request is answered by exactly one response with its own id: status 7 exactly when no pod can be routed to, and otherwise 0 with the body, 4 or 6 with the error, as forwarding went |
| `PassEffects.RunsOnIff` | worker/src/worker.rs:610-686 | After a pass a running pod runs on if and only if its container was seen running and it did not miss its third probe in a row |
| `PassEffects.RunningStays` | worker/src/worker.rs:651-686 | It then keeps its container, has no reason pending and is not reported; a due probe sets the count of misses to 0 or adds 1, and one that is not due leaves it |
| `PassEffects.RunningFails` | worker/src/worker.rs:629-684 | On a created or unknown status, a failed status call or the third missed probe it is stopping with its container kept and the reason pending, and no request is routed to it |
| `PassEffects.RunningEnds` | worker/src/worker.rs:619-628 | If its container was seen stopped it ends with that exit code once it is removed and unmounted, and is stopping until then |
| `PassEffects.PullingPod` | worker/src/worker.rs:849-873 | One pull is made; on success the pod is to be created, and otherwise it fails with the runtime's reason, for good once its volume is unmounted |
| `PassEffects.CreatingPod` | worker/src/worker.rs:546-596 | The volume is mounted before the container is created with the path that gave, or the pod fails without a create; a created container is held by the pod |
| `PassEffects.StartingPod` | worker/src/worker.rs:917-978 | The pod runs and is reported; or the failed container is removed and the pod created anew at most twice; or it is stopping with its container kept and the exact reason pending |
| `PassEffects.StoppingPod` | worker/src/worker.rs:979-1051 | At most three stop calls with the pod's grace, then only polls; the pod ends only after its container was seen stopped, removed and unmounted, as failed with the pending reason and otherwise as stopped with the exit code |
| `PassEffects.IdlePod` | worker/src/worker.rs:528-533 | A pod that waits or has ended is left alone: no call, no report, no change |
| `PassEffects.StopsAfresh` | worker/src/worker.rs:1077-1121 | A pod that a pass lets stop is stopped without grace and with a fresh budget; only one whose container has ended already is just polled |
| `PassEffects.ReportOrder` | worker/src/worker.rs:705-710 | Pods settled during collection come first, then those started, then the others, each by id |
| `PassEffects.PassReleases` | worker/src/worker.rs:430-441 | A pass gives back exactly what the pods that ended in it had reserved |
| `PassEffects.DriveShows` | worker/src/worker.rs:487-998 | What a pass shows of a pod, in phase, container, reason, calls and reports, is what that pod's own step shows |
| `MessageEffects.StopDelivered` | worker/src/worker.rs:443-459 | A stop command makes a tracked pod that has not ended stop, with container, reservation and reason kept, the grace cut to 30 seconds and three attempts ahead; otherwise, and elsewhere, nothing changes |
| `MessageEffects.StopThenPass` | worker/src/worker.rs:979-996 | The pass after it stops the container exactly once with that grace and asks for its status, and ends the pod only if it was seen stopped |
| `MessageEffects.StopEnds` | worker/src/worker.rs:1001-1051 | If it was seen stopped and cleaned up, the pod has ended with that exit code, this was reported once and its reservation was given back |
| `MessageEffects.NeverRunsAgain` | worker/src/worker.rs:443-459 | Once a stop command was delivered to a tracked pod, in no continuation of the run is it running or routed to again while it stays tracked |
| `MessageEffects.NoPodIff` | worker/src/worker.rs:218-264 | The one response has status 7 if and only if no running pod of the deployment has a port and a container |
| `MessageEffects.RunServed` | worker/src/worker.rs:229-256 | Otherwise the request is forwarded once, to the container of the smallest such id, and answered with 0 and the body, 4 or 6 and the error; nothing else changes |
| `MessageEffects.RunUnserved` | worker/src/worker.rs:257-264 | Without such a pod nothing is called and the response names the deployment |
| `MessageEffects.ProbeDelivered` | worker/src/worker.rs:461-485 | A probe of a tracked pod is answered with its phase, one of an untracked pod is ignored |
| `MessageEffects.StartAdmitted` | worker/src/worker.rs:303-380 | A start command with room for it records the pod with every field of the command, to be pulled, and reports that; no other pod changes |
| `MessageEffects.StartRefused` | worker/src/worker.rs:277-322 | Without room it is reported as failed with the first test that fails, and nothing changes |
| `MessageEffects.StartRepeated` | worker/src/worker.rs:269-275 | A start command for a tracked pod only reports its phase |
| `MessageEffects.Registers` | worker/src/worker.rs:168-178 | An unregistered worker sends one registration with its name, GPU type and totals; a registered one sends none |
| `MessageEffects.RegisteredAfter` | worker/src/worker.rs:161-178 | Registration ends exactly with the session and begins only with a registration |
| `MessageEffects.Beats` | worker/src/worker.rs:186-199 | A heartbeat every 100 ticks with the number of running pods; with exact accounts, free and reserved GPUs make up the node's |
| `ShutdownEffects.RemovedIff` | worker/src/worker.rs:1160-1288 | A visited live pod with a container is gone if and only if its container was seen stopped, after an attempt there was budget and time for or when polled with none left, and was removed and unmounted |
| `ShutdownEffects.RemovedReport` | worker/src/worker.rs:1273-1288 | Its end is then reported once, as failed with the pending reason and otherwise as stopped with the exit code that was seen |
| `ShutdownEffects.SeenPod` | worker/src/worker.rs:1225-1288 | A pod seen stopped, with the exact calls made for it, ends or is kept according to removal and unmount |
| `ShutdownEffects.UnseenPod` | worker/src/worker.rs:1225-1238 | A pod not seen stopped is stopping, keeps its container and its reason, and is not reported |
| `ShutdownEffects.BarePod` | worker/src/worker.rs:1166-1166 | A live pod without a container ends, with exit code 0 or its pending reason, if and only if its volume is unmounted |
| `ShutdownEffects.KeptWaits` | worker/src/worker.rs:1225-1272 | A visited pod that is kept, live or not, has no stop attempts left and waits for the last tick |
| `ShutdownEffects.KeptIsLeftAlone` | worker/src/worker.rs:1225-1272 | No pass before that tick makes a call for it or reports it |
| `ShutdownEffects.StopsSeen` | worker/src/worker.rs:1178-1197 | The attempts end with the first one after which the container is seen stopped, with its exit code, and each stops with the grace cut to the time left |
| `ShutdownEffects.StopsUnseen` | worker/src/worker.rs:1178-1213 | Without such an attempt all that budget and time allow are made and there is no exit |
| `PassPanics.PanicIff` | worker/src/worker.rs:528-533 | A pass can panic, for some runtime answers, if and only if before it some tombstone older than this tick has at least 1024 newer tombstones and smaller-id pods that may end early |
| `PassPanics.PanicMeansRisk` | worker/src/worker.rs:528-533 | If the collection loop reaches a pruned id then that tombstone was at risk before the pass |
| `PassPanics.RiskMayPanic` | worker/src/worker.rs:617-648 | If a tombstone is at risk and every container is found stopped and cleaned up, the loop panics at it |
| `PassPanics.RoomMeansNoPanic` | worker/src/worker.rs:1042-1042 | While tombstones and pods that may end early together fit 1024, no pass panics |
| `PassPanics.PanicIsReachable` | worker/src/worker.rs:528-533 | From a fresh worker of any size there is a concrete run that panics in a pass |
| `WorkerPass.SequentialIsApplied` | worker/src/worker.rs:487-999 | Stepping pods one after the other in any order gives the closed form in which each pod steps on its own and tombstones are pruned once, and keeps the invariant and exact accounts |
| `WorkerPass.PassOrderIrrelevant` | worker/src/worker.rs:705-710 | Two orders of the same pods give the same state except for the order of messages |
| `WorkerPass.DriveIsSequential` | worker/src/worker.rs:487-999 | A lifecycle pass is the sequential pass in the order: settled early, starts, everything else, by id; it keeps the invariant and exact accounts |
| `WorkerPass.AppliedStep` | worker/src/worker.rs:837-998 | Installing one more pod's step into a pass is applying the steps with that one added |
| `WorkerPass.SequentialExtends` | worker/src/worker.rs:837-848 | A pod whose turn has not come is as it was collected, and its step extends the pass |
| `WorkerPass.InstallKeepsInv` | worker/src/worker.rs:1033-1042 | Recording a step, with release and pruning when the pod ended, keeps the invariant |
| `WorkerPass.InstallKeepsExact` | worker/src/worker.rs:430-441 | Releasing never saturates: the counters stay exactly the sum of the reservations |
| `WorkerPass.StepFrame` | worker/src/worker.rs:837-998 | A step never changes whose pod it is or what it reserved, ends a pod only at the current tick, and leaves an idle pod alone |
| `PodSafety.StepKeepsSane` | worker/src/worker.rs:837-998 | For every runtime answer, one step keeps a pod's invariant: handle, live containers, work spent, pending reason, scrubbing |
| `PodSafety.StepLowersRank` | worker/src/worker.rs:908-975 | A step never moves a pod away from rest and strictly lowers the rank of a pod that is neither idle nor at rest |
| `PodSafety.FailKeeps` | worker/src/worker.rs:1077-1121 | Failing a pod leaves it owned and stopping while a container or volume may be left, and otherwise terminal and clean |
| `PodSafety.CompleteStopKeeps` | worker/src/worker.rs:1001-1051 | Completing a stop ends the pod only after removal and unmount both succeeded, and otherwise charges a failure |
| `PodSafety.StartingKeeps` | worker/src/worker.rs:908-978 | A start attempt, with its retry, cleanup and failure paths, keeps the pod's invariant |
| `PodSafety.RunningKeeps` | worker/src/worker.rs:610-686 | Status verification and probing of a running pod keep the pod's invariant |
| `PodSafety.StoppingKeeps` | worker/src/worker.rs:979-996 | A stop attempt or poll keeps the pod's invariant |
| `Transitions.NextFollows` | worker/src/worker.rs:443-459 | Every event takes every pod that stays tracked along one of the worker's phase transitions; a shutdown takes each pod it visits and keeps, live or terminal, to Stopping and leaves the others in their phase |
| `Transitions.ShutdownFollows` | worker/src/worker.rs:1146-1272 | A pod that shutdown visits and keeps is stopping, and any other is in the phase it was in |
| `Transitions.StepFollows` | worker/src/worker.rs:837-998 | One step takes a pod along one of the worker's phase transitions |
| `Transitions.CheckerLacks` | worker/src/sim/checker.rs:176-201 | Of the worker's transitions, the checker's table lacks exactly those into Stopping from ImagePulling, Creating and Starting |
| `Transitions.LackIsReal` | worker/src/worker.rs:1094-1107 | A failing pull whose unmount also fails takes a transition that the checker's table lacks |
| `Transitions.StartBackoff` | worker/src/worker.rs:1064-1075 | After a failed start the pod is left alone for 50 ticks, after the second for 100, and not longer |
| `Transitions.StopBackoff` | worker/src/worker.rs:1053-1062 | After an unverified stop the pod is left alone for 25 ticks; three attempts are charged and then the stop is only polled |
| `WorkerEvents.NextKeepsInv` | worker/src/worker.rs:165-215 | Every event keeps the worker's invariant |
| `WorkerEvents.StartKeepsInv` | worker/src/worker.rs:268-380 | A start command keeps the invariant, admitted or refused |
| `WorkerEvents.StartLeavesTracked` | worker/src/worker.rs:268-276 | A start command leaves every tracked pod as it is |
| `WorkerEvents.StopKeepsInv` | worker/src/worker.rs:443-459 | A stop command keeps the invariant |
| `WorkerEvents.RunRequestKeepsInv` | worker/src/worker.rs:217-266 | Forwarding a run request keeps the invariant |
| `WorkerEvents.ShutdownStepKeeps` | worker/src/worker.rs:1154-1288 | Shutdown leaves a pod in good order and live, or leaves nothing of it |
| `WorkerEvents.TryStopsKeeps` | worker/src/worker.rs:1186-1225 | Shutdown's stop attempts keep the container held and spend at most the remaining budget |
| `Tombstones.PruneBounds` | worker/src/worker.rs:382-405 | Pruning leaves at most the limit of tombstones |
| `Tombstones.PruneDropsOldest` | worker/src/worker.rs:382-405 | Pruning drops only tombstones, and only ones older, by change tick and id, than every tombstone kept |
| `Tombstones.PruneNothing` | worker/src/worker.rs:382-405 | Pruning changes nothing while the tombstones fit the limit |
| `Tombstones.PruneStream` | worker/src/worker.rs:382-405 | Pruning after each new tombstone is pruning once at the end |
| `Accounting.ReservedSplit` | worker/src/sim/checker.rs:47-60 | The sum of reservations can be taken apart at any pod, so it does not depend on an order of the pods |
| `Accounting.ReservedIgnoresTombstones` | worker/src/sim/checker.rs:47-60 | Dropping tombstones leaves the sum of reservations unchanged |
| `WorkerAgent.Worker.constructor` | worker/src/worker.rs:116-157 | A new worker is in the initial, reachable state, with lifecycle concurrency clamped to 1..32 |
| `WorkerAgent.Worker.DrivePods` | worker/src/worker.rs:487-999 | Collect, execute in chunks, apply: panics exactly when the pass does, and otherwise leaves exactly the state of the pass and keeps the invariant |
| `WorkerAgent.Worker.CollectOps` | worker/src/worker.rs:528-703 | The collection loop panics exactly when it reaches a pruned id; otherwise the early pods have stepped and there is one operation for each pod that must run one |
| `WorkerAgent.Worker.CollectPod` | worker/src/worker.rs:532-703 | One pod is settled at once, skipped, or given its operation |
| `WorkerAgent.Worker.CollectRunning` | worker/src/worker.rs:610-686 | Verifying and probing a running pod has exactly the effect of its step, which PassEffects.RunsOnIff and its companions characterise |
| `WorkerAgent.Worker.FailMount` | worker/src/worker.rs:553-594 | A volume that cannot be mounted fails the pod before anything is created |
| `WorkerAgent.Worker.ApplyCompletions` | worker/src/worker.rs:837-998 | All completions are applied, and the pods have stepped in the order of the operations |
| `WorkerAgent.Worker.ApplyCompletion` | worker/src/worker.rs:837-848 | A completion finds its pod in the state it was collected in: the discard guard never fires and the result is applied |
| `WorkerAgent.Worker.ApplyPull` | worker/src/worker.rs:849-873 | The result of a pull has exactly the effect of the pod's step |
| `WorkerAgent.Worker.ApplyCreate` | worker/src/worker.rs:884-906 | The result of a create has exactly the effect of the pod's step |
| `WorkerAgent.Worker.ApplyStart` | worker/src/worker.rs:917-978 | The result of a start has exactly the effect of the pod's step |
| `WorkerAgent.Worker.CleanFailedStart` | worker/src/worker.rs:948-970 | A start that may be retried removes its container first, or fails the pod |
| `WorkerAgent.Worker.ApplyStop` | worker/src/worker.rs:984-995 | The result of a stop has exactly the effect of the pod's step |
| `WorkerAgent.Worker.CompletePodStop` | worker/src/worker.rs:1001-1051 | Exactly the effect of completing a stop, including release, scrub, prune and report |
| `WorkerAgent.Worker.FailPod` | worker/src/worker.rs:1077-1121 | Exactly the effect of failing a pod; cleanup begins once and reasons never outnumber pods |
| `WorkerAgent.Worker.ScheduleStopRetry` | worker/src/worker.rs:1053-1062 | One more failure, capped at three, and a 25-tick delay |
| `WorkerAgent.Worker.RetryLifecyclePod` | worker/src/worker.rs:1064-1075 | Whether another start attempt is allowed, and the delayed pod if so; nothing for a missing pod |
| `WorkerAgent.Worker.PruneTerminalPodsTo` | worker/src/worker.rs:382-405 | Sorting and dropping the oldest surplus is pruning; no dropped pod owns a runtime or a reason |
| `WorkerAgent.Worker.ReleasePodResources` | worker/src/worker.rs:430-441 | The pod's demand goes back to the counters; nothing happens for a missing pod |
| `WorkerAgent.Worker.ScrubTerminalPodData` | worker/src/worker.rs:407-418 | Secrets and paths of a terminal pod are wiped |
| `WorkerAgent.Worker.Refusal` | worker/src/worker.rs:277-322 | The first admission test that fails, with its reason, or none exactly when all pass |
| `WorkerAgent.Worker.HandleStartPod` | worker/src/worker.rs:268-380 | Exactly the effect of a start command: re-report, refuse or admit |
| `WorkerAgent.Worker.HandleStopPod` | worker/src/worker.rs:443-459 | Exactly the effect of a stop command, which MessageEffects.StopDelivered characterises |
| `WorkerAgent.Worker.HandleProbePod` | worker/src/worker.rs:461-470 | Exactly one status report for a tracked pod, none otherwise |
| `WorkerAgent.Worker.FindRoutable` | worker/src/worker.rs:219-228 | The running, port-bearing pod of the deployment with the smallest id, or none exactly when there is none |
| `WorkerAgent.Worker.HandleRunRequest` | worker/src/worker.rs:217-266 | Exactly the effect of a run request, which MessageEffects.NoPodIff and RunServed characterise |
| `WorkerAgent.Worker.HandleMessage` | worker/src/worker.rs:202-215 | Exactly the effect of the delivered message |
| `WorkerAgent.Worker.OnConnectionLost` | worker/src/worker.rs:161-163 | The worker will register again and nothing else changes |
| `WorkerAgent.Worker.Tick` | worker/src/worker.rs:165-200 | A tick is the run of its events: register, messages in order, pass, heartbeat; it panics exactly when that run does, and otherwise keeps the state reachable |
| `WorkerAgent.Worker.SendHeartbeat` | worker/src/worker.rs:184-199 | A heartbeat when due, with the number of running pods |
| `WorkerAgent.Worker.AttemptStops` | worker/src/worker.rs:1186-1225 | The stop loop equals its recursive specification, which ShutdownEffects.StopsSeen and StopsUnseen characterise |
| `WorkerAgent.Worker.ShutdownPod` | worker/src/worker.rs:1146-1288 | Exactly the effect of shutdown on one pod, which ShutdownEffects.RemovedIff and its companions characterise |
| `WorkerAgent.Worker.ShutdownWithDeadline` | worker/src/worker.rs:1127-1301 | Exactly the effect of a shutdown that reaches its deadline after some visits; succeeds exactly when no pod is left; keeps the state reachable |
| `LifecycleOps.ExecuteInChunks` | worker/src/worker.rs:711-835 | Every operation runs exactly once and in order, in chunks of at most 32 with at most lifecycle concurrency starts |
| `LifecycleOps.CollectedOrder` | worker/src/worker.rs:705-710 | The early pods followed by the sorted operations are exactly the order of the pass |
| `LifecycleOps.NextChunk` | worker/src/worker.rs:711-725 | The next chunk is non-empty, within both bounds, and as long as the first operation's concurrency allows |
| `Ordering.Sort` | worker/src/worker.rs:705-710 | The same items in ascending order of distinct keys |
| `Wire.DecodeIff` | worker/src/protocol.rs:187-233 | A frame is decoded if and only if the data begins with a well-formed frame that fits the buffer, and then with its tag, payload and length |
| `Wire.DecodeStable` | worker/src/protocol.rs:187-233 | Once there are enough bytes to decide, further bytes do not change the result |
| `Wire.IncompleteIsShort` | worker/src/protocol.rs:64-107 | Data that is still an incomplete frame is shorter than 16432 bytes |
| `Wire.FrameRoundTrip` | worker/src/protocol.rs:130-181 | Whatever is written, up to 16384 bytes of payload and with or without a key, is read back whatever follows it |
| `Wire.WritesFrame` | worker/src/protocol.rs:130-181 | The writer produces a well-formed frame |
| `Wire.DecodedIsBounded` | worker/src/protocol.rs:64-107 | Under a lawful key no decoded payload exceeds 16384 bytes |
| `Wire.LeRoundTrip` | worker/src/protocol.rs:43-45 | Every integer that fits its width is read back from its little-endian bytes |
| `Wire.LeInverse` | worker/src/protocol.rs:43-45 | Every byte string is the little-endian encoding of what it is read as |
| `Wire.LawfulExists` | worker/src/crypto.rs:45-68 | The two laws assumed of the cipher can be met together |
| `FrameIo.ValidateFrameDeclaration` | worker/src/protocol.rs:64-107 | Accepts exactly the declarations that may begin a frame |
| `FrameIo.ValidateProtocolVersion` | worker/src/protocol.rs:109-124 | Accepts exactly plaintexts of at least three bytes with the current version |
| `FrameIo.WriteFrameEncrypted` | worker/src/protocol.rs:130-181 | Refuses exactly oversize payloads, writing nothing; otherwise appends as much of exactly one frame as the sink takes, and succeeds exactly when that is all of it and the flush succeeds |
| `FrameIo.TryDecodeFrame` | worker/src/protocol.rs:187-233 | The buffered reader: nothing yet, an error, or the frame copied out, with the rest of the buffer unchanged |
| `FrameIo.ReadFrameEncrypted` | worker/src/protocol.rs:235-292 | The streaming reader succeeds exactly when the stream continues with a frame that fits, and takes just that frame |
| `FrameIo.ReadersAgree` | worker/src/protocol.rs:187-292 | On any bytes, key and buffer size both readers succeed together with the same tag, payload and bytes consumed, exactly when a frame is there |
| `MessageCodec.StartRoundTrip` | worker/src/protocol.rs:368-487 | A start command laid out in fixed fields is accepted and read back, for zero-free texts that fit |
| `MessageCodec.ControlRoundTrip` | worker/src/protocol.rs:368-547 | Every control message that fits its layout is read back |
| `MessageCodec.DecodeStartPod` | worker/src/protocol.rs:370-487 | Accepts exactly payloads of 797 + 321 per entry bytes, optionally with a 450-byte trailer marked 1, with canonical GPU and boolean bytes; the whole payload is consumed |
| `MessageCodec.DecodeEnvs` | worker/src/protocol.rs:410-437 | Reads the entries in place, refusing exactly a non-canonical flag |
| `MessageCodec.DecodeTrailer` | worker/src/protocol.rs:444-466 | Accepts exactly nothing or one trailer, and ends at the end of the payload |
| `MessageCodec.DecodeControlMessage` | worker/src/protocol.rs:368-547 | Accepts exactly the well-formed payloads of the four tags, and says what they say |
| `MessageCodec.DecodeBool` | worker/src/protocol.rs:578-587 | Accepts exactly 0 and 1 |
| `MessageCodec.GpuRoundTrip` | worker/src/protocol.rs:589-605 | Every GPU type is read back from its code, and codes are at most 8 |
| `MessageCodec.FixedRoundTrip` | worker/src/protocol.rs:566-576 | A zero-free text is read back from its fixed field, cut to the field's width |
| `AgentCodec.EncodeAgentMessage` | worker/src/protocol.rs:296-364 | Accepts exactly the messages that fit the buffer with a status below 9, and writes exactly their payload |
| `AgentCodec.EncodeRegister` | worker/src/protocol.rs:298-307 | Writes exactly the registration layout and leaves the rest of the buffer alone |
| `AgentCodec.EncodeHeartbeat` | worker/src/protocol.rs:309-314 | Writes exactly the heartbeat layout and leaves the rest of the buffer alone |
| `AgentCodec.EncodeStatus` | worker/src/protocol.rs:316-331 | Writes exactly the status layout and leaves the rest of the buffer alone |
| `AgentCodec.EncodeRunResponse` | worker/src/protocol.rs:333-362 | Writes exactly the response, or for an oversize body the explicit error |
| `AgentCodec.RegisterReadBack` | worker/src/protocol.rs:298-307 | The control plane reads back name (cut to 64 bytes), sizes, GPU type and count |
| `AgentCodec.HeartbeatReadBack` | worker/src/protocol.rs:309-314 | The control plane reads back the tick and the pod count modulo 2^16 |
| `AgentCodec.StatusReadBack` | worker/src/protocol.rs:316-331 | The control plane reads back pod, phase, exit code and text (cut to 128 bytes) |
| `AgentCodec.ReportReadBack` | worker/src/protocol.rs:316-331 | Every status report is read back from its phase byte, exit code and text |
| `AgentCodec.ResponseReadBack` | worker/src/protocol.rs:333-362 | The control plane reads back the request id, and either status and whole body or status 4 and no body |
| `AgentCodec.PayloadFitsFrame` | worker/src/protocol.rs:20-22 | No payload is longer than a frame allows |
| `Reassembly.RealIo.Recv` | worker/src/real_io.rs:134-171 | However the stream is split, messages handed on are a prefix of what the received bytes say, all of it when none is returned; no byte is lost; nothing comes after a malformed frame; a live session returns nothing only when the socket has nothing |
| `Reassembly.EndToEnd` | worker/src/real_io.rs:134-171 | While any part of a control plane's stream has arrived, in whatever pieces, the worker has handed on a prefix of the messages sent and found nothing malformed; once everything has arrived and it is drained, exactly the messages sent |
| `Reassembly.StreamMeant` | worker/src/protocol.rs:130-181 | The frames of any list of control messages that fit say exactly that list |
| `Reassembly.MeantGrows` | worker/src/real_io.rs:75-101 | More bytes only add messages and cannot repair a malformed stream |
| `Reassembly.RealIo.ReadMore` | worker/src/real_io.rs:145-169 | One read: its bytes are appended in order, and the session ends only at the end of the stream; the full-buffer branch is unreachable |
| `Reassembly.RealIo.DecodeBufferedFrame` | worker/src/real_io.rs:75-101 | Cuts exactly the next message out of the buffer, waits, or ends the session, with everything said so far handed on |
| `Reassembly.RealIo.Faithful` | worker/src/real_io.rs:75-101 | The messages handed on are always a prefix of what the received bytes say |
| `Reassembly.RealIo.Shift` | worker/src/real_io.rs:82-83 | The unconsumed bytes move to the front of the buffer unchanged |
| `Reassembly.RealIo.Send` | worker/src/real_io.rs:112-132 | Writes the message as exactly one frame and stays connected, or ends the session, after nothing if it cannot be encoded and otherwise after the prefix of the frame that the socket took |
| `Reassembly.SplitInvariance` | worker/src/real_io.rs:134-171 | Of two sessions that received the same bytes in different pieces, one has handed on a prefix of what the other has; if both are drained, the same |
| `Reassembly.SpelledThenMeant` | worker/src/real_io.rs:75-101 | Frames already consumed do not change what the rest of the stream says |
| `Reassembly.SentIsReadBack` | worker/src/real_io.rs:112-132 | A message that was sent is read back by the peer as its tag and payload, whatever follows |
| `ApiClient.HivemindClient.SendRunRequest` | api/client.go:378-455 | Over the client's life each request is executed at most once; unavailable means no execution; the result, the requests sent and the connection afterwards are those of ClientSpec.SendRun on the exact request bytes; only invalid input is refused as such; the connection is nil or in step; the request counter wraps |
| `ClientSpec.AtMostOnce` | api/client.go:378-455 | Whatever the network does, a call is executed at most once although it may be sent twice, and not at all if it ends unavailable |
| `ClientSpec.NextCall` | api/client.go:378-455 | Over a client's whole log no call is ever executed twice |
| `ClientSpec.WentOutUnavailableIff` | api/client.go:363-455 | A call ends unavailable although a request went out whole if and only if the first one was answered by a well-formed not_leader with its id and then no leader was found or the second write failed before its first byte |
| `ClientRetries.NoLeaderLeft` | api/client.go:441-447 | A concrete replica that turns the request away with no other to be found: the request went out and the call ends unavailable |
| `ClientRetries.NothingWrittenAgain` | api/client.go:418-425 | Two concrete replicas, of which the second cannot be written to: the request went out once, was handed to two connections and the call ends unavailable |
| `ClientSpec.SecondSendingIff` | api/client.go:441-447 | At most two requests are sent, and two if and only if the first was answered with not_leader and a leader was found afterwards |
| `ClientSpec.NotExecuted` | api/client.go:416-453 | Without a result, or with an unavailable one, the request was not executed: nothing of it went out, or it was answered with not_leader |
| `ClientSpec.ConnectsIff` | api/client.go:161-184 | A leader is found if and only if one of the next connection attempts, one to each address, reaches a replica that says it leads |
| `ClientSpec.RunRequestReadBack` | api/client.go:395-400 | Id, name and body of a valid run request can be read back from its bytes |
| `ClientSpec.NextRequestId` | api/client.go:393-393 | The request id of the next call is the current one plus one, wrapping at 2^64 |
| `ClientSpec.CallMeans` | api/client.go:415-454 | The result is that of the last sending: a matching reply is returned plainly, as ambiguous exactly for status 5, and with status 9 only from the second sending; ambiguous exactly when something was written and no matching reply came; otherwise unavailable |
| `ClientSpec.ConnectionAfter` | api/client.go:416-453 | The connection is kept exactly when a reply is returned, and is then the one the request went over; every sending carries the call's own bytes |
| `ClientSpec.FirstLeaderFound` | api/client.go:161-184 | The first attempt, in the order of the addresses, that reaches a leader is taken with its address, and uses up the attempts before it |
| `ClientSpec.NoLeaderFound` | api/client.go:161-184 | Without one, no connection results and one attempt per address is used up |
| `ClientSpec.NothingSentIff` | api/client.go:402-413 | Nothing is sent if and only if there is no connection and none of the next attempts, up to two per address, reaches a leader |
| `ClientWire.ProbeReadBack` | api/client.go:602-639 | A replica counts as leader exactly when it says so, is in normal operation and names itself |
| `ClientWire.ProbeIff` | api/client.go:602-620 | Nothing but a well-formed probe answer is accepted |
| `ApiClient.HivemindClient.Submit` | api/client.go:402-454 | Finds a connection in up to two attempts and sends, with the outcome that the specification gives |
| `ApiClient.HivemindClient.SendAttempts` | api/client.go:415-454 | The retry loop has the specified outcome, and the final panic is unreachable |
| `ApiClient.HivemindClient.Attempt` | api/client.go:416-453 | One sending has exactly the result that the fate of the frame and its own reply give, and keeps the connection exactly when a reply is returned |
| `ApiClient.HivemindClient.ConnectLocked` | api/client.go:146-159 | Afterwards there is no connection, or one in step to the first replica, in the order of the addresses, that answered its probe as leader |
| `ApiClient.HivemindClient.DialLeader` | api/client.go:161-184 | The first replica, in the order of the addresses, that answers the probe as leader in normal operation |
| `ApiClient.HivemindClient.Refresh` | api/client.go:229-243 | Keeps the connection exactly when its replica still answers the probe as leader, and otherwise replaces it |
| `ApiClient.HivemindClient.SendClusterStateRequest` | api/client.go:845-883 | A payload is the reply to the request just written, and the connection is nil exactly when there is none, else in step |
| `ApiClient.ReadFrameGeneric` | api/client.go:641-707 | Succeeds exactly when one frame that fits can be read, and then takes exactly one frame from the stream |
| `ApiClient.WriteFrame` | api/client.go:544-592 | Writes the next frame through the frame writer; not attempted means that no byte went out |
| `ApiClient.ExchangeRun` | api/client.go:416-431 | Exactly the run response to this very frame, if the exchange gets as far as one, and then the connection stays in step |
| `ApiClient.ExchangeState` | api/client.go:858-876 | Exactly the cluster state reply to this very frame, and then the connection stays in step |
| `ApiClient.ProbeIsLeader` | api/client.go:622-639 | Exactly the answer to this very probe, and then the connection stays in step |
| `ClientWire.FrameWriteMeans` | api/client.go:544-592 | A frame is reported as written only if all of it went out and as not attempted exactly when nothing was tried, in which case none of it did; otherwise some prefix of it went out |
| `ClientWire.WriteFrameEncrypted` | api/client.go:544-592 | The code has exactly the fate and puts out exactly the bytes that the specification gives, with the same guarantees |
| `ClientWire.WriteAll` | api/client.go:521-538 | What goes out, the answers used and success are those of the specification; it is a prefix of the data, and all of it on success, whatever the connection answers |
| `ClientWire.ClientRoundTrip` | api/client.go:641-707 | A frame that was written is read back by the client, whatever follows it, if it fits the buffer |
| `ClientWire.ReadFrameIff` | api/client.go:641-707 | A frame is read if and only if the data begins with one that fits the buffer |
| `ClientWire.ParseRunReplyIff` | api/client.go:460-494 | A run response is accepted if and only if it has one of the two layouts, and is read as what it says |
| `ClusterStateParser.ParseClusterState` | api/client.go:885-1041 | Accepts exactly inputs of length 75 + 148n + 215d + 25p + 83a with embedded counts within their maxima, reads each record from its place, and never reads out of bounds |
| `ClusterStateParser.FindShape` | api/client.go:915-930 | Finds the counts exactly when the length and the embedded counts agree |
| `ClusterStateParser.ShapeUnique` | api/client.go:885-1041 | An input fits at most one set of counts |
| `ClusterStateParser.ReadCount` | api/client.go:915-930 | Accepts exactly a count within its maximum whose records are all there |
| `ClusterStateWriter.RoundTrip` | api/client.go:885-1041 | Every snapshot whose fields fit is read back by the parser from its bytes |
| `ClusterStateWriter.StateReadBack` | api/client.go:885-1041 | Header, all four lists and the statistics are read back from their places |
| `ClusterStateWriter.CountsReadBack` | api/client.go:915-930 | The bytes of a snapshot have the shape of its own counts |
| `ClusterStateWriter.NodeReadBack` | api/client.go:932-958 | Every field of a node is read back |
| `ClusterStateWriter.DeploymentReadBack` | api/client.go:960-986 | Every field of a deployment is read back |
| `ClusterStateWriter.PodReadBack` | api/client.go:988-1003 | Every field of a pod is read back |
| `ClusterStateWriter.AgentReadBack` | api/client.go:1005-1024 | Every field of an agent is read back, with a signed tick |
| `SimNetwork.DeliveredSafely` | worker/src/sim/network.rs:172-234 | Every delivery happened in the session that accepted the message, not before it was due, at most twice, and originals in the order of acceptance |
| `SimNetwork.Pop` | worker/src/sim/network.rs:172-201 | Delivers the due front and perhaps queues it once more; the stale-session loop never drops anything; the channel stays good |
| `SimNetwork.PoppedKeepsGood` | worker/src/sim/network.rs:172-201 | Delivering the due front, with or without its replay, keeps the channel good |
| `SimNetwork.AcceptKeepsGood` | worker/src/sim/network.rs:106-126 | Accepting a message keeps the channel good |
| `SimNetwork.DeliverKeepsGood` | worker/src/sim/network.rs:187-200 | Delivering the due front keeps the channel good |
| `SimNetwork.ReplayKeepsGood` | worker/src/sim/network.rs:189-199 | Queueing a delivered original once more keeps the channel good |
| `SimNetwork.DiscardKeepsGood` | worker/src/sim/network.rs:257-265 | A new session keeps the channel good |
| `SimNetwork.SimulatedNetwork.SendToAgent` | worker/src/sim/network.rs:106-126 | Accepted into the current session with its delay exactly when not dropped and there is room; queues stay within capacity |
| `SimNetwork.SimulatedNetwork.SendFromAgent` | worker/src/sim/network.rs:128-170 | Every attempt is counted exactly once as sent, dropped or failed by partition |
| `SimNetwork.SimulatedNetwork.PopInbound` | worker/src/sim/network.rs:172-201 | Returns exactly the due front when not partitioned, and changes nothing else |
| `SimNetwork.SimulatedNetwork.PopOutbound` | worker/src/sim/network.rs:203-234 | Returns exactly the due front when not partitioned, and changes nothing else |
| `SimNetwork.SimulatedNetwork.DiscardSessionQueues` | worker/src/sim/network.rs:257-265 | Both queues are emptied and the session number grows |
| `SimNetwork.SimulatedNetwork.PartitionAgent` | worker/src/sim/network.rs:244-250 | Partitions the worker unless a heal is too recent |
| `SimNetwork.SimulatedNetwork.HealAll` | worker/src/sim/network.rs:267-275 | Heals everything exactly when no partition is too recent |
| `SimNetwork.SimulatedNetwork.HealOne` | worker/src/sim/network.rs:284-289 | Heals the worker unless its partition is too recent |
| `SimNetwork.QueuedAsEncoded` | worker/src/sim/network.rs:151-160 | What is queued is encoded as what was sent |
| `PullRaces.FinalStateFixed` | worker/src/sim/runtime.rs:248-332 | Operations on different pods, whatever images they pull: every completing interleaving of their locked sections leaves the same state |
| `PullRaces.OutcomesFixedIff` | worker/src/sim/runtime.rs:248-332 | The outcomes do not depend on the interleaving if and only if no image is pulled more than once with its fault armed and its wrapping counter at zero at one of those pulls |
| `PullRaces.ContestedIsRacy` | worker/src/sim/runtime.rs:248-268 | For such an image there are two completing interleavings with different outcomes |
| `PullRaces.AlwaysTallied` | worker/src/sim/runtime.rs:211-219 | After any schedule an image's counter has moved on by the number of its pulls so far, wrapping |
| `PullRaces.OwnTargetOutcome` | worker/src/sim/runtime.rs:248-332 | An operation whose pod or image no other one touches has the outcome it has on its own, in every completing interleaving |
| `SimRuntime.ThreadAlone` | worker/src/sim/runtime.rs:248-332 | Whatever the others do, such an operation goes through what it does on its own |
| `SimRuntime.SectionElsewhere` | worker/src/sim/runtime.rs:211-219 | A locked section changes nothing that belongs to another target |
| `SimRuntime.SectionHere` | worker/src/sim/runtime.rs:392-428 | A locked section depends only on what belongs to its own target |
| `PullRaces.SameImageRaces` | worker/src/sim/runtime.rs:248-268 | Two pulls of one image on a fresh counter do depend on the order when its fault is armed |
| `SimRuntime.DecimalInjective` | worker/src/sim/runtime.rs:290-290 | Different pod ids give different container names |
| `SimRuntime.PullDoes` | worker/src/sim/runtime.rs:248-268 | A pull fails exactly with the first armed fault |
| `SimRuntime.CreateDoes` | worker/src/sim/runtime.rs:270-300 | A create that meets no fault keeps a container that runs and otherwise leaves a created one |
| `SimRuntime.StartDoes` | worker/src/sim/runtime.rs:302-332 | A start that meets no fault makes the container run |
| `SimRuntime.StopDoes` | worker/src/sim/runtime.rs:392-428 | A stop that meets no fault stops an existing container; the outcome is the exit code exactly when the container is then stopped |
| `SimRuntime.PollDoes` | worker/src/sim/runtime.rs:416-424 | A poll changes no container and returns an exit code exactly for a stopped one |
| `WorkloadIdentity.IdentityInjective` | worker/src/runtime/containerd.rs:68-98 | Workloads that feed the same bytes to the hash agree in every hashed field, list and name |
| `WorkloadIdentity.FeedIdentity` | worker/src/runtime/containerd.rs:73-98 | The hasher is fed exactly those bytes |
| `WorkloadIdentity.Hasher.HashIdentityBytes` | worker/src/runtime/containerd.rs:68-71 | A text is fed behind its 64-bit length |

## Left out

- The control plane (consensus, scheduler, journal), the HTTP handlers, dashboard, metrics and command-line programs.
- XChaCha20-Poly1305, HKDF (RFC 5869) and SHA-256 internals: only the cipher's two laws are used, and the hash is not applied.
- The real runtimes, volume mounts and secret fetches: they answer anything.
- Logging, latency spans and wording of runtime error texts: errors are texts that the runtime supplies.
- UTF-8: texts are byte sequences, so lossy conversion and cutting inside a character are not modelled.
- Ticks near 2^64: a tick is a natural number, so the overflow of `last_heartbeat_tick + 100` and `last_probe_tick + 10000` is not modelled.
- The client's consensus commands (`SendCommandTimed`) and its command slots.
- Scripted outcomes, crashes, probes and forwarding of the simulated runtime, and its pseudo-random faults, which are a fixed function here.
- Byte counters of the simulated network, and changes of its delay or capacity settings during a run.
- WorkerAgent.Worker.ApplyCreate: the effects of runtime calls made on worker threads are recorded in the ledger when the completion is applied; the ledger is kept per pod, so no order between pods is lost.
- WorkerAgent.Worker.ShutdownWithDeadline: the deadline is the number of pods visited before it, and no time left during stop attempts is a remaining time of zero.
- Lifecycle.Create: the handle carries the pod's own id, while the source stores whatever handle the runtime returns.
- PullRaces.FinalStateFixed: the runtime's locked sections are modelled on values, because the result quantifies over their interleavings.
- ClusterStateParser.ParseClusterState: the counts are all checked before the records are read, while the source alternates; no record can be refused, so the result is the same.
