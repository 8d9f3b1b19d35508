/**
 The worker itself: the record of pods, reasons and counters that its methods update in place, the
 collect, execute and apply phases of a lifecycle pass, the tick and the shutdown loop. Each method
 is proved to have exactly the effect the state machine gives the event.
 */
module WorkerAgent {
  import opened Basics
  import opened Messages
  import opened Ordering
  import opened Lifecycle
  import opened Tombstones
  import opened WorkerState
  import opened WorkerPass
  import opened WorkerEvents
  import opened LifecycleOps
  import opened WorkerRuns

  predicate IsTombstoneKey(pods: Pods, k: Key) {
    0 <= k.1 <= U64_MAX && k.1 in pods && pods[k.1].Terminal() && k.0 == pods[k.1].changedAt
  }

  /** All tombstones, oldest first. */
  ghost predicate OldestFirst(pods: Pods, sorted: seq<Key>) {
    Ascending(sorted) && forall k :: k in sorted <==> IsTombstoneKey(pods, k)
  }

  lemma OldestFirstAt(pods: Pods, sorted: seq<Key>, i: nat, j: nat)
    requires OldestFirst(pods, sorted) && i < j < |sorted|
    ensures IsTombstoneKey(pods, sorted[i]) && IsTombstoneKey(pods, sorted[j])
    ensures sorted[i].1 != sorted[j].1 && Less(sorted[i], sorted[j])
  {
    assert sorted[i] in sorted && sorted[j] in sorted;
    assert Less(sorted[i], sorted[j]);
  }

  function From(ids: seq<PodId>, i: nat): set<PodId> {
    set j | i <= j < |ids| :: ids[j]
  }

  lemma {:induction false} SuffixSize(ids: seq<PodId>, i: nat)
    requires Distinct(ids) && i <= |ids|
    ensures |From(ids, i)| == |ids| - i
    decreases |ids| - i
  {
    if i == |ids| {
      assert From(ids, i) == {};
    } else {
      SuffixSize(ids, i + 1);
      assert From(ids, i) == From(ids, i + 1) + {ids[i]};
      assert ids[i] !in From(ids, i + 1);
    }
  }

  lemma TombstoneIds(pods: Pods, sorted: seq<Key>)
    requires OldestFirst(pods, sorted)
    ensures forall k | k in sorted :: 0 <= k.1 <= U64_MAX
    ensures Distinct(Ids(sorted))
  {
    forall a, b | 0 <= a < b < |sorted|
      ensures sorted[a].1 != sorted[b].1
    {
      OldestFirstAt(pods, sorted, a, b);
    }
  }

  lemma NewerAre(pods: Pods, sorted: seq<Key>, i: nat)
    requires OldestFirst(pods, sorted) && i < |sorted|
    requires forall k | k in sorted :: 0 <= k.1 <= U64_MAX
    ensures IsTombstoneKey(pods, sorted[i])
    ensures Newer(pods, sorted[i].1) == From(Ids(sorted), i + 1)
  {
    assert sorted[i] in sorted;
    var id := sorted[i].1;
    forall k: PodId
      ensures k in Newer(pods, id) <==> k in From(Ids(sorted), i + 1)
    {
      if k in Newer(pods, id) {
        assert IsTombstoneKey(pods, Age(pods, k));
        var j :| 0 <= j < |sorted| && sorted[j] == Age(pods, k);
        assert Less(sorted[i], sorted[j]);
        assert Ids(sorted)[j] == k;
      }
      if k in From(Ids(sorted), i + 1) {
        var j :| i + 1 <= j < |sorted| && Ids(sorted)[j] == k;
        OldestFirstAt(pods, sorted, i, j);
      }
    }
  }

  /** Dropping the oldest surplus of the sorted tombstones is pruning. */
  lemma PruneBySorting(pods: Pods, sorted: seq<Key>, limit: nat, i: nat)
    requires OldestFirst(pods, sorted) && i < |sorted|
    ensures IsTombstoneKey(pods, sorted[i])
    ensures Kept(pods, limit, sorted[i].1) <==> i >= |sorted| - limit
  {
    TombstoneIds(pods, sorted);
    NewerAre(pods, sorted, i);
    SuffixSize(Ids(sorted), i + 1);
  }

  /** What is left after the first `removeCount` tombstones are gone. */
  lemma PrunedBySorting(pods: Pods, sorted: seq<Key>, limit: nat, left: Pods)
    requires OldestFirst(pods, sorted)
    requires forall id :: id in left <==> id in pods && forall j | 0 <= j < |sorted| - limit :: sorted[j].1 != id
    requires forall id | id in left :: left[id] == pods[id]
    ensures left == Prune(pods, limit)
  {
    forall id: PodId | id in pods
      ensures id in left <==> Kept(pods, limit, id)
    {
      if pods[id].Terminal() {
        assert IsTombstoneKey(pods, Age(pods, id));
        var i :| 0 <= i < |sorted| && sorted[i] == Age(pods, id);
        PruneBySorting(pods, sorted, limit, i);
        forall j | 0 <= j < |sorted| && j != i
          ensures sorted[j].1 != id
        {
          if j < i { OldestFirstAt(pods, sorted, j, i); } else { OldestFirstAt(pods, sorted, i, j); }
        }
      } else {
        forall j | 0 <= j < |sorted| - limit
          ensures sorted[j].1 != id
        {
          PruneBySorting(pods, sorted, limit, j);
        }
      }
    }
    SameMap(left, Prune(pods, limit), pods);
  }

  lemma PutTwice(pods: Pods, id: PodId, first: Pod, second: Pod)
    ensures pods[id := first][id := second] == pods[id := second]
  {
  }

  /** Recording a step that reports nothing and keeps the reason. */
  lemma Unreported(s: State, t: State, id: PodId)
    requires id in t.pods && id in t.ledgers
    requires t == s.(pods := s.pods[id := t.pods[id]], ledgers := s.ledgers[id := t.ledgers[id]])
    ensures t == Put(s, id, Step(t.pods[id], Reason(s, id), t.ledgers[id], []))
  {
    assert Tell(id, []) == [];
    assert id !in s.pending ==> s.pending - {id} == s.pending;
  }

  /** Recording a step that sends one report and keeps the reason. */
  lemma Reported(s: State, t: State, id: PodId, report: PodStatusReport)
    requires id in t.pods && id in t.ledgers
    requires t == s.(pods := s.pods[id := t.pods[id]], ledgers := s.ledgers[id := t.ledgers[id]],
                     sent := s.sent + [PodStatusEvent(id, report)])
    ensures t == Put(s, id, Step(t.pods[id], Reason(s, id), t.ledgers[id], [report]))
  {
    assert Tell(id, [report]) == [PodStatusEvent(id, report)];
    assert id !in s.pending ==> s.pending - {id} == s.pending;
  }

  /** Recording a step that ends in a tombstone. */
  lemma Entombed(s: State, t: State, id: PodId, r: Step)
    requires id in s.pods && !s.pods[id].Terminal() && r.pod.Terminal() && r.reason.None? && |r.reports| == 1
    requires t.pods == Prune(s.pods[id := r.pod], MAX_TERMINAL_TOMBSTONES)
    requires t.pending == s.pending - {id}
    requires t.alloc == SaturatingMinus(s.alloc, s.pods[id].demand)
    requires t.ledgers == s.ledgers[id := r.ledger]
    requires t.sent == s.sent + [PodStatusEvent(id, r.reports[0])]
    requires t == s.(pods := t.pods, pending := t.pending, alloc := t.alloc, ledgers := t.ledgers, sent := t.sent)
    ensures t == Install(s, id, r)
  {
    assert Tell(id, r.reports) == [PodStatusEvent(id, r.reports[0])];
  }

  /** A record changed on the way, but not its reservation, makes no difference to what is
      installed in the end. */
  lemma InstallOver(s: State, t: State, id: PodId, r: Step)
    requires id in s.pods && id in t.pods
    requires t == s.(pods := s.pods[id := t.pods[id]], ledgers := t.ledgers)
    requires t.ledgers == s.ledgers[id := LedgerOf(t, id)]
    requires t.pods[id].demand == s.pods[id].demand && !s.pods[id].Terminal() && !t.pods[id].Terminal()
    ensures Install(t, id, r) == Install(s, id, r)
  {
    assert Put(t, id, r).pods == Put(s, id, r).pods;
    assert Put(t, id, r).ledgers == Put(s, id, r).ledgers;
  }

  /** Tombstones own no container and have no pending reason. */
  predicate TombstonesTidy(pods: Pods, pending: map<PodId, Text>) {
    forall id | id in pods && pods[id].Terminal() :: pods[id].handle.None? && id !in pending
  }

  lemma PrefixBelow(ids: seq<PodId>, k: nat, j: PodId)
    requires Increasing(ids) && k < |ids|
    ensures j in ids[..k] <==> j in ids && j < ids[k]
  {
    if j in ids && j < ids[k] {
      var i :| 0 <= i < |ids| && ids[i] == j;
      assert i < k;
    }
  }

  lemma PrefixIncreasing(ids: seq<PodId>, k: nat)
    requires Increasing(ids) && k < |ids|
    ensures ids[..k + 1] == ids[..k] + [ids[k]]
    ensures Increasing(ids[..k] + [ids[k]]) && ids[k] !in ids[..k]
  {
  }

  /** All smaller early pods have stepped when the loop reaches an id. */
  lemma Reaching(s: State, before: seq<PodId>, id: PodId, early: seq<PodId>, env: Environment, now: nat)
    requires Ready(s) && EarlyAmong(s, before, early, env, now)
    requires forall j :: j in before <==> j in s.pods && j < id
    ensures StepsFor(s, early, env, now) == StepsBefore(s, id, env, now)
  {
    var a := StepsFor(s, early, env, now);
    var b := StepsBefore(s, id, env, now);
    assert a.Keys == b.Keys;
  }

  lemma SnapshotPrefix(s: State, ids: seq<PodId>, k: nat, early: seq<PodId>, env: Environment, now: nat)
    requires Ready(s) && ids == Snapshot(s.pods) && k < |ids| && EarlyAmong(s, ids[..k], early, env, now)
    ensures ids[k] in s.pods && ids[k] !in early
    ensures StepsFor(s, early, env, now) == StepsBefore(s, ids[k], env, now)
  {
    SnapshotIsOrder(s.pods);
    assert ids[k] in ids;
    forall j
      ensures j in ids[..k] <==> j in s.pods && j < ids[k]
    {
      PrefixBelow(ids, k, j);
    }
    Reaching(s, ids[..k], ids[k], early, env, now);
  }

  /** A pod that has not stepped is missing part way through a pass exactly when it was pruned. */
  lemma {:induction false} PrunedOnTheWay(s: State, early: seq<PodId>, id: PodId, env: Environment, now: nat)
    requires Inv(s) && Ready(s) && Order(s, early, now) && id in s.pods && id !in early
    requires StepsFor(s, early, env, now) == StepsBefore(s, id, env, now)
    ensures
      var t := Sequential(s, early, env, now);
      && (id in t.pods <==> !PanicsAt(s, id, env, now))
      && (id in t.pods ==> t.pods[id] == s.pods[id])
  {
    SequentialIsApplied(s, early, env, now);
    var moved := Moved(s.pods, StepsBefore(s, id, env, now));
    assert Sequential(s, early, env, now).pods == Prune(moved, MAX_TERMINAL_TOMBSTONES);
    assert moved[id] == s.pods[id];
  }

  lemma SnapshotBySorting(pods: Pods, sorted: seq<PodId>)
    requires Increasing(sorted) && forall id :: id in sorted <==> id in pods
    ensures sorted == Snapshot(pods)
  {
    var key := (id: PodId) => (0, id);
    var keys := KeysOf(sorted, key);
    var all := Enumerate(set id | id in pods :: (0, id));
    forall k
      ensures k in keys <==> k in all
    {
      if k in keys {
        var i :| 0 <= i < |keys| && keys[i] == k;
        assert sorted[i] in sorted;
      }
      if k in all {
        var id: PodId :| id in pods && k == (0, id);
        assert id in sorted;
        var i :| 0 <= i < |sorted| && sorted[i] == id;
        assert keys[i] == k;
      }
    }
    AscendingUnique(keys, all);
    assert Ids(keys) == sorted;
  }

  /** The collection loop does not panic at any of the first `k` ids. */
  ghost predicate CalmUpTo(s: State, ids: seq<PodId>, k: int, env: Environment, now: nat)
    requires Ready(s) && 0 <= k <= |ids|
  {
    forall i | 0 <= i < k :: ids[i] in s.pods && !PanicsAt(s, ids[i], env, now)
  }

  lemma CalmMore(s: State, ids: seq<PodId>, k: nat, env: Environment, now: nat)
    requires Ready(s) && k < |ids| && CalmUpTo(s, ids, k, env, now) && ids[k] in s.pods
    ensures PanicsAt(s, ids[k], env, now) ==> DrivePanics(s, env, now)
    ensures !PanicsAt(s, ids[k], env, now) ==> CalmUpTo(s, ids, k + 1, env, now)
  {
  }

  lemma NeverPanics(s: State, env: Environment, now: nat)
    requires Ready(s) && CalmUpTo(s, Snapshot(s.pods), |Snapshot(s.pods)|, env, now)
    ensures !DrivePanics(s, env, now)
  {
    SnapshotIsOrder(s.pods);
    var ids := Snapshot(s.pods);
    forall id | id in s.pods
      ensures !PanicsAt(s, id, env, now)
    {
      assert id in ids;
      var i :| 0 <= i < |ids| && ids[i] == id;
    }
  }

  lemma OneMoreOp(early: seq<PodId>, ops: seq<Op>, i: nat)
    requires i < |ops|
    ensures early + OpIds(ops[..i]) + [ops[i].id] == early + OpIds(ops[..i + 1])
  {
    assert ops[..i + 1] == ops[..i] + [ops[i]];
    OpIdsExtend(ops[..i], ops[i]);
  }

  lemma NotApplied(s: State, ops: seq<Op>, early: seq<PodId>, i: nat, env: Environment, now: nat)
    requires EarlyAmong(s, Snapshot(s.pods), early, env, now) && OpsAmong(s, Snapshot(s.pods), ops, env, now)
    requires i < |ops|
    ensures ops[i].id !in early + OpIds(ops[..i])
  {
    assert ops[i] in ops;
    forall j | 0 <= j < i
      ensures ops[j].id != ops[i].id
    {
      assert OpIds(ops)[j] != OpIds(ops)[i];
    }
  }

  lemma DistinctKeys(ops: seq<Op>)
    requires Distinct(OpIds(ops))
    ensures forall i, j | 0 <= i < j < |ops| :: OpKey(ops[i]) != OpKey(ops[j])
  {
    forall i, j | 0 <= i < j < |ops|
      ensures OpKey(ops[i]) != OpKey(ops[j])
    {
      assert OpIds(ops)[i] != OpIds(ops)[j];
    }
  }

  /** Sorting the operations does not change which pods they are for. */
  lemma SortedOps(s: State, ops: seq<Op>, sorted: seq<Op>, env: Environment, now: nat)
    requires OpsAmong(s, Snapshot(s.pods), ops, env, now)
    requires forall op :: op in sorted <==> op in ops
    requires Ascending(KeysOf(sorted, OpKey))
    ensures OpsAmong(s, Snapshot(s.pods), sorted, env, now)
  {
    forall i, j | 0 <= i < j < |sorted|
      ensures sorted[i].id != sorted[j].id
    {
      assert sorted[i] in ops && sorted[j] in ops;
      assert Less(KeysOf(sorted, OpKey)[i], KeysOf(sorted, OpKey)[j]);
    }
    forall id
      ensures id in OpIds(sorted) <==> id in OpIds(ops)
    {
      if id in OpIds(sorted) {
        var i :| 0 <= i < |sorted| && sorted[i].id == id;
        assert sorted[i] in ops;
        var j :| 0 <= j < |ops| && ops[j] == sorted[i];
        assert OpIds(ops)[j] == id;
      }
      if id in OpIds(ops) {
        var i :| 0 <= i < |ops| && OpIds(ops)[i] == id;
        assert ops[i] in sorted;
        var j :| 0 <= j < |sorted| && sorted[j] == ops[i];
        assert OpIds(sorted)[j] == id;
      }
    }
  }

  // -- Ticks --

  function Deliveries(messages: seq<(ControlMessage, HandlerAnswers)>, now: nat): (events: seq<Event>)
    ensures |events| == |messages|
    ensures forall i | 0 <= i < |messages| :: events[i] == Delivering(messages[i].0, messages[i].1, now)
  {
    seq(|messages|, i requires 0 <= i < |messages| => Delivering(messages[i].0, messages[i].1, now))
  }

  function TickEvents(messages: seq<(ControlMessage, HandlerAnswers)>, env: Environment, now: nat): seq<Event> {
    [Registering(now)] + Deliveries(messages, now) + [Driving(env, now)] + [Beating(now)]
  }

  lemma {:induction false} OneMoreDelivery(s: State, messages: seq<(ControlMessage, HandlerAnswers)>, i: nat,
                                           t: State, now: nat)
    requires i < |messages| && Run(s, Deliveries(messages[..i], now)) == Some(t)
    ensures Run(s, Deliveries(messages[..i + 1], now)) == Some(Deliver(t, messages[i].0, messages[i].1, now))
  {
    var e := Delivering(messages[i].0, messages[i].1, now);
    assert Deliveries(messages[..i + 1], now) == Deliveries(messages[..i], now) + [e];
    RunThen(s, Deliveries(messages[..i], now), e);
  }

  /** The events of a tick, from the state `u` that registration and the messages lead to. */
  lemma {:induction false} TickRuns(s: State, messages: seq<(ControlMessage, HandlerAnswers)>, env: Environment,
                                    now: nat, u: State)
    requires Run(Register(s, now), Deliveries(messages, now)) == Some(u) && Ready(u)
    ensures DrivePanics(u, env, now) ==> Run(s, TickEvents(messages, env, now)).None?
    ensures !DrivePanics(u, env, now) ==>
              Run(s, TickEvents(messages, env, now)) == Some(Heartbeat(Drive(u, env, now), now))
  {
    var front := [Registering(now)] + Deliveries(messages, now);
    RunAfter(s, Registering(now), Deliveries(messages, now));
    RunThen(s, front, Driving(env, now));
    if DrivePanics(u, env, now) {
      RunThenPanicked(s, front + [Driving(env, now)], Beating(now));
    } else {
      RunThen(s, front + [Driving(env, now)], Beating(now));
    }
  }

  lemma {:induction false} OneMoreVisit(s: State, ids: seq<PodId>, k: nat, answers: PodId -> ShutdownAnswers)
    requires k < |ids|
    ensures ShutdownAll(s, ids[..k + 1], answers) == ShutdownOne(ShutdownAll(s, ids[..k], answers), ids[k], answers(ids[k]))
  {
    assert ids[..k + 1][..k] == ids[..k];
  }

  class Worker {
    var pods: Pods
    var pending: map<PodId, Text>
    var alloc: Amounts
    const total: Amounts
    const gpuType: GpuType
    const nodeName: Text
    const lifecycleConcurrency: int
    var registered: bool
    var lastHeartbeat: int
    var sent: seq<WorkerMessage>
    ghost var ledgers: Ledgers

    ghost function View(): State
      reads this
    {
      State(pods, pending, alloc, total, gpuType, nodeName, registered, lastHeartbeat, ledgers, sent)
    }

    ghost predicate Valid()
      reads this
    {
      Inv(View()) && Ready(View()) && 1 <= lifecycleConcurrency <= 32
    }

    constructor (nodeName: Text, gpuType: GpuType, total: Amounts, lifecycleConcurrency: int)
      ensures View() == Initial(nodeName, gpuType, total)
      ensures Valid() && Reachable(View())
    {
      this.nodeName := nodeName;
      this.gpuType := gpuType;
      this.total := total;
      this.lifecycleConcurrency := if lifecycleConcurrency < 1 then 1 else Min(lifecycleConcurrency, 32);
      pods, pending, alloc := map[], map[], NOTHING;
      registered, lastHeartbeat, sent, ledgers := false, 0, [], map[];
      new;
      assert TombstonesOf(pods) == {};
      InitialReachable(nodeName, gpuType, total);
    }

    /** `Io::send`. */
    method Transmit(m: WorkerMessage)
      modifies this`sent
      ensures sent == old(sent) + [m]
    {
      sent := sent + [m];
    }

    method SortedTombstones() returns (sorted: seq<Key>)
      ensures OldestFirst(pods, sorted)
    {
      var terminal: seq<Key> := [];
      var left := pods.Keys;
      while left != {}
        invariant left <= pods.Keys
        invariant forall k :: k in terminal <==> IsTombstoneKey(pods, k) && k.1 !in left
        invariant forall i, j | 0 <= i < j < |terminal| :: terminal[i] != terminal[j]
      {
        var id: PodId :| id in left;
        left := left - {id};
        if pods[id].Terminal() {
          assert (pods[id].changedAt, id) !in terminal;
          terminal := terminal + [(pods[id].changedAt, id)];
        }
      }
      var key := (k: Key) => k;
      sorted := Sort(terminal, key);
      assert KeysOf(sorted, key) == sorted;
    }

    method PruneTerminalPodsTo(limit: nat)
      requires limit <= MAX_TERMINAL_TOMBSTONES
      requires TombstonesTidy(pods, pending)
      modifies this`pods
      ensures pods == Prune(old(pods), limit)
    {
      ghost var before := pods;
      var sorted := SortedTombstones();
      var removeCount := SaturatingSub(|sorted|, limit);
      for i := 0 to removeCount
        invariant forall id :: id in pods <==> id in before && forall j | 0 <= j < i :: sorted[j].1 != id
        invariant forall id | id in pods :: pods[id] == before[id]
      {
        PruneBySorting(before, sorted, limit, i);
        var id: PodId := sorted[i].1;
        forall j | 0 <= j < i
          ensures sorted[j].1 != id
        {
          OldestFirstAt(before, sorted, j, i);
        }
        // A tombstone owns no runtime and has no pending reason.
        assert pods[id].handle.None?;
        assert id !in pending;
        pods := pods - {id};
      }
      PrunedBySorting(before, sorted, limit, pods);
    }

    /** The reservation of a tracked pod goes back to the counters. */
    method ReleasePodResources(id: PodId)
      modifies this`alloc
      ensures alloc == if id in pods then SaturatingMinus(old(alloc), pods[id].demand) else old(alloc)
    {
      if id in pods {
        var pod := pods[id];
        alloc := Resources(SaturatingSub(alloc.gpu, pod.demand.gpu), SaturatingSub(alloc.cpu, pod.demand.cpu),
                           SaturatingSub(alloc.memory, pod.demand.memory));
      }
    }

    method ScrubTerminalPodData(id: PodId)
      requires id in pods && pods[id].Terminal() && pods[id].handle.None?
      modifies this`pods
      ensures pods == old(pods)[id := Scrub(old(pods)[id])]
    {
      var pod := pods[id];
      pods := pods[id := pod.(private := WIPED)];
    }

    /** The common end of a pod: release, scrub, prune and report. `s` is the state before the step
        `r`, of which all but this end has been carried out. */
    method Entomb(id: PodId, report: PodStatusReport, ghost s: State, ghost r: Step)
      requires id in s.pods && !s.pods[id].Terminal()
      requires id in pods && pods[id].Terminal() && pods[id].handle.None? && pods[id].demand == s.pods[id].demand
      requires r.pod == Scrub(pods[id]) && r.reason.None? && r.reports == [report]
      requires View() == s.(pods := s.pods[id := pods[id]], pending := s.pending - {id}, ledgers := s.ledgers[id := r.ledger])
      requires TombstonesTidy(s.pods, s.pending)
      modifies this`pods, this`alloc, this`sent
      ensures View() == Install(s, id, r)
    {
      PutTwice(s.pods, id, pods[id], r.pod);
      ReleasePodResources(id);
      ScrubTerminalPodData(id);
      PruneTerminalPodsTo(MAX_TERMINAL_TOMBSTONES);
      Transmit(PodStatusEvent(id, report));
      Entombed(s, View(), id, r);
    }

    /** Keeps a failed pod's record and reservation until its cleanup is verified. */
    method RetainFailed(id: PodId, why: Text, now: nat, ghost s: State, ghost r: Step)
      requires id in pods && id in ledgers && id !in pending && pending.Keys <= pods.Keys
      requires View() == s.(ledgers := s.ledgers[id := r.ledger])
      requires r == Step(Condemn(pods[id], now), Some(why), r.ledger, [])
      modifies this`pods, this`pending
      ensures View() == Put(s, id, r)
    {
      var pod := pods[id];
      pods := pods[id := pod.(phase := Stopping, changedAt := now, graceMs := 0, failures := 0, retryAfter := 0)];
      // Failure cleanup begins only once, and reasons never outnumber pods.
      assert id !in pending;
      pending := pending[id := why];
      CardSubset(pending.Keys, pods.Keys);
      assert |pending| <= |pods|;
      assert Tell(id, []) == [];
    }

    /** A pod whose cleanup is not verified keeps its record and its reservation. */
    method FailPod(id: PodId, why: Text, a: Answers, now: nat)
      requires id in pods && id in ledgers && !pods[id].Terminal() && id !in pending
      requires pending.Keys <= pods.Keys && TombstonesTidy(pods, pending)
      modifies this`pods, this`pending, this`alloc, this`sent, this`ledgers
      ensures View() == Install(old(View()), id, Fail(old(Begin(View(), id)), why, a, now))
    {
      ghost var s := View();
      ghost var r := Fail(Begin(s, id), why, a, now);
      var needsRuntimeCleanup := pods[id].handle.Some?;
      var volumeCleanup: Outcome<()> := Ok(());
      if !needsRuntimeCleanup {
        volumeCleanup := a.unmount;
        ledgers := ledgers[id := Record(ledgers[id], UnmountVolume(a.unmount.Ok?))];
      }
      assert ledgers == s.ledgers[id := r.ledger];
      if needsRuntimeCleanup || volumeCleanup.Err? {
        RetainFailed(id, why, now, s, r);
        return;
      }
      assert s.pending - {id} == s.pending;
      pods := pods[id := pods[id].(phase := Failed(why), changedAt := now)];
      Entomb(id, ReportFailed(why), s, r);
    }

    /** Fails a pod whose record and ledger, but nothing else, have changed since `s`. */
    method FailSince(id: PodId, why: Text, a: Answers, now: nat, ghost s: State)
      requires Calm(id) && id !in pending && id in s.pods && !s.pods[id].Terminal() && pods[id].demand == s.pods[id].demand
      requires View() == s.(pods := s.pods[id := pods[id]], ledgers := s.ledgers[id := ledgers[id]])
      modifies this`pods, this`pending, this`alloc, this`sent, this`ledgers
      ensures View() == Install(s, id, Fail(old(Begin(View(), id)), why, a, now))
    {
      ghost var t := View();
      FailPod(id, why, a, now);
      InstallOver(s, t, id, Fail(Begin(t, id), why, a, now));
    }

    method ScheduleStopRetry(id: PodId, now: nat)
      requires id in pods && pods[id].phase.Stopping?
      modifies this`pods
      ensures pods == old(pods)[id := StopRetry(old(pods)[id], now)]
    {
      var pod := pods[id];
      var failures := SaturatingAdd(pod.failures, 1, U8_MAX);
      failures := Min(failures, STOP_ATTEMPT_MAX);
      pods := pods[id := pod.(failures := failures,
                              retryAfter := SaturatingAdd(now, STOP_RETRY_DELAY_TICKS, U64_MAX))];
    }

    /** Another start attempt is allowed while fewer than three have failed. */
    method RetryLifecyclePod(id: PodId, now: nat) returns (retry: bool)
      requires id in pods ==> 0 <= pods[id].failures
      modifies this`pods
      ensures retry == (id in old(pods) && MayRetry(old(pods)[id]))
      ensures pods == if retry then old(pods)[id := Delayed(old(pods)[id], now)] else old(pods)
    {
      if id !in pods {
        return false;
      }
      var pod := pods[id];
      if SaturatingAdd(pod.failures, 1, U8_MAX) >= RETRY_MAX {
        return false;
      }
      var failures := pod.failures + 1;
      pods := pods[id := pod.(failures := failures, retryAfter := SaturatingAdd(now, RetryDelay(failures), U64_MAX))];
      return true;
    }

    /** Removes the container of a stopping pod, if it has one. */
    method RemoveContainer(id: PodId, a: Answers) returns (removed: bool)
      requires id in pods && id in ledgers
      modifies this`pods, this`ledgers
      ensures removed == (old(pods[id].handle).None? || a.remove.Ok?)
      ensures pods == if removed then old(pods)[id := old(pods)[id].(handle := None)] else old(pods)
      ensures ledgers == old(ledgers)[id := if old(pods[id].handle).Some?
                                            then Record(old(ledgers)[id], RemovePod(old(pods[id].handle).value.containerId, a.remove.Ok?))
                                            else old(ledgers)[id]]
    {
      removed := true;
      if pods[id].handle.Some? {
        ledgers := ledgers[id := Record(ledgers[id], RemovePod(pods[id].handle.value.containerId, a.remove.Ok?))];
        if a.remove.Err? {
          return false;
        }
        pods := pods[id := pods[id].(handle := None)];
      }
    }

    /** Takes the pending reason of a pod whose cleanup is complete and ends the pod. */
    method FinishStop(id: PodId, exitCode: I32, now: nat, ghost s: State, ghost r: Step)
      requires id in s.pods && !s.pods[id].Terminal() && id in pods && pods[id].handle.None?
      requires pods[id].demand == s.pods[id].demand
      requires View() == s.(pods := s.pods[id := pods[id]], ledgers := s.ledgers[id := r.ledger])
      requires TombstonesTidy(s.pods, s.pending)
      requires
        var phase := if Reason(s, id).Some? then Failed(Reason(s, id).value) else Stopped(exitCode);
        r == Step(Scrub(pods[id].(phase := phase, changedAt := now, retryAfter := 0)), None, r.ledger, [phase.Report()])
      modifies this`pods, this`pending, this`alloc, this`sent
      ensures View() == Install(s, id, r)
    {
      var reason: Option<Text> := None;
      if id in pending {
        reason := Some(pending[id]);
        pending := pending - {id};
      }
      assert pending == s.pending - {id};
      var phase := if reason.Some? then Failed(reason.value) else Stopped(exitCode);
      PutTwice(s.pods, id, pods[id], pods[id].(phase := phase, changedAt := now, retryAfter := 0));
      pods := pods[id := pods[id].(phase := phase, changedAt := now, retryAfter := 0)];
      Entomb(id, phase.Report(), s, r);
    }

    /** A verified stop ends the reservation only after removal and unmount both succeeded. */
    method CompletePodStop(id: PodId, exitCode: I32, a: Answers, now: nat)
      requires id in pods && id in ledgers && pods[id].phase.Stopping?
      requires TombstonesTidy(pods, pending)
      modifies this`pods, this`pending, this`alloc, this`sent, this`ledgers
      ensures View() == Install(old(View()), id, CompleteStop(old(Begin(View(), id)), exitCode, a, now))
    {
      ghost var s := View();
      var removed := RemoveContainer(id, a);
      if !removed {
        ScheduleStopRetry(id, now);
        Unreported(s, View(), id);
        return;
      }
      ledgers := ledgers[id := Record(ledgers[id], UnmountVolume(a.unmount.Ok?))];
      ghost var r := CompleteStop(Begin(s, id), exitCode, a, now);
      assert ledgers == s.ledgers[id := r.ledger];
      assert pods == s.pods[id := s.pods[id].(handle := None)];
      if a.unmount.Err? {
        ScheduleStopRetry(id, now);
        PutTwice(s.pods, id, s.pods[id].(handle := None), pods[id]);
        Unreported(s, View(), id);
        return;
      }
      FinishStop(id, exitCode, now, s, r);
    }

    // -- Message handlers --

    /** The first admission test that fails, for a pod that is not tracked. */
    method Refusal(cmd: StartPodCmd) returns (refusal: Option<Text>)
      ensures refusal.None? <==> |pods| < MAX_TRACKED_PODS && !(cmd.gpuCount > 0 && cmd.gpuType != gpuType)
                                 && FitsSaturating(alloc, Demand(cmd), total)
      ensures refusal.Some? ==> refusal.value == RejectReason(View(), cmd)
    {
      if |pods| >= MAX_TRACKED_PODS {
        return Some(Ascii("worker tracked-pod capacity exhausted"));
      }
      if cmd.gpuCount > 0 && cmd.gpuType != gpuType {
        return Some(Ascii("requested GPU type does not match worker GPU type"));
      }
      if SaturatingAdd(alloc.gpu, cmd.gpuCount, U8_MAX) > total.gpu {
        return Some(Ascii("insufficient GPU capacity"));
      }
      if SaturatingAdd(alloc.cpu, cmd.cpuMillicores, U32_MAX) > total.cpu {
        return Some(Ascii("insufficient CPU capacity"));
      }
      if SaturatingAdd(alloc.memory, cmd.memoryMegabytes, U32_MAX) > total.memory {
        return Some(Ascii("insufficient memory capacity"));
      }
      return None;
    }

    method HandleStartPod(cmd: StartPodCmd, a: HandlerAnswers, now: nat)
      requires TombstonesTidy(pods, pending)
      modifies this`pods, this`alloc, this`sent, this`ledgers
      ensures View() == HandleStart(old(View()), cmd, a, now)
    {
      if cmd.podId in pods {
        Transmit(PodStatusEvent(cmd.podId, pods[cmd.podId].phase.Report()));
        return;
      }
      PruneTerminalPodsTo(MAX_TERMINAL_TOMBSTONES);
      var refusal := Refusal(cmd);
      if refusal.Some? {
        Transmit(PodStatusEvent(cmd.podId, ReportFailed(refusal.value)));
        return;
      }
      AdmitPod(cmd, a, now);
    }

    method AdmitPod(cmd: StartPodCmd, a: HandlerAnswers, now: nat)
      modifies this`pods, this`alloc, this`sent, this`ledgers
      ensures View() == Admit(old(View()), cmd, a, now)
    {
      alloc := WrappingPlus(alloc, Demand(cmd));
      var auth := if cmd.pullUsername != [] || a.password != []
                  then Some(PullAuth(cmd.pullRegistry, cmd.pullUsername, a.password)) else None;
      var service := Service(cmd.deploymentId, cmd.image, cmd.port, cmd.livenessPath, cmd.readinessPath);
      var private := Private(cmd.entrypoint, a.envVars, cmd.juicefsPath, auth);
      pods := pods[cmd.podId := Pod(cmd.podId, service, private, ImagePulling, None, now, Demand(cmd), 0, now, 0, 0, 0)];
      ledgers := ledgers[cmd.podId := Record(if cmd.podId in ledgers then ledgers[cmd.podId] else BLANK, Admitted)];
      Transmit(PodStatusEvent(cmd.podId, ReportImagePulling));
    }

    method HandleStopPod(id: PodId, graceMs: nat, now: nat)
      modifies this`pods
      ensures View() == HandleStop(old(View()), id, graceMs, now)
    {
      if id in pods {
        var pod := pods[id];
        if pod.phase.ImagePulling? || pod.phase.Creating? || pod.phase.Starting? || pod.phase.Running? {
          pods := pods[id := pod.(phase := Stopping, changedAt := now, graceMs := Min(graceMs, MAX_STOP_GRACE_MS),
                                  failures := 0, retryAfter := 0)];
        }
      }
    }

    method HandleProbePod(id: PodId)
      modifies this`sent
      ensures View() == HandleProbe(old(View()), id)
    {
      if id in pods {
        Transmit(PodStatusEvent(id, pods[id].phase.Report()));
      }
    }

    /** The routable pod with the smallest id. */
    method FindRoutable(deploymentId: U64) returns (found: Option<PodId>)
      ensures found.None? <==> Routable(View(), deploymentId) == {}
      ensures found.Some? ==> found.value == LeastId(Routable(View(), deploymentId))
    {
      found := None;
      var left := pods.Keys;
      while left != {}
        invariant left <= pods.Keys
        invariant found.None? ==> forall id | id in Routable(View(), deploymentId) :: id in left
        invariant found.Some? ==> found.value in Routable(View(), deploymentId)
        invariant found.Some? ==> forall id | id in Routable(View(), deploymentId) :: id in left || found.value <= id
      {
        var id: PodId :| id in left;
        left := left - {id};
        var pod := pods[id];
        if pod.service.deploymentId == deploymentId && pod.phase.Running? && pod.service.port > 0 && pod.handle.Some? {
          if found.None? || id < found.value {
            found := Some(id);
          }
        }
      }
    }

    method HandleRunRequest(requestId: U64, deploymentId: U64, a: HandlerAnswers)
      modifies this`sent, this`ledgers
      ensures View() == HandleRun(old(View()), requestId, deploymentId, a)
    {
      var found := FindRoutable(deploymentId);
      match found
      case None => Transmit(RunResponse(requestId, STATUS_NO_RUNNING_POD, NoRunningPod(deploymentId)));
      case Some(id) =>
        ledgers := ledgers[id := Record(if id in ledgers then ledgers[id] else BLANK,
                                        ForwardRun(pods[id].handle.value.containerId))];
        match a.forward {
          case Forwarded(body) => Transmit(RunResponse(requestId, STATUS_OK, body));
          case TooLarge(e) => Transmit(RunResponse(requestId, STATUS_RESPONSE_TOO_LARGE, e));
          case ForwardError(e) => Transmit(RunResponse(requestId, STATUS_FORWARDING_FAILED, e));
        }
    }

    method HandleMessage(m: ControlMessage, a: HandlerAnswers, now: nat)
      requires TombstonesTidy(pods, pending)
      modifies this`pods, this`alloc, this`sent, this`ledgers
      ensures View() == Deliver(old(View()), m, a, now)
    {
      match m
      case StartPod(cmd) => HandleStartPod(cmd, a, now);
      case StopPod(id, graceMs) => HandleStopPod(id, graceMs, now);
      case ProbePod(id) => HandleProbePod(id);
      case RunRequest(requestId, deploymentId, _) => HandleRunRequest(requestId, deploymentId, a);
    }

    method OnConnectionLost()
      modifies this`registered
      ensures View() == old(View()).(registered := false)
      ensures old(Reachable(View())) ==> Reachable(View())
    {
      ghost var s := View();
      registered := false;
      if Reachable(s) {
        ReachableNext(s, SessionLost, View());
      }
    }

    // -- The lifecycle pass --

    /** The state in which a step may be taken for a pod. */
    ghost predicate Calm(id: PodId)
      reads this
    {
      && id in pods && id in ledgers && !pods[id].Terminal()
      && (id in pending ==> pods[id].phase.Stopping?)
      && pending.Keys <= pods.Keys
      && TombstonesTidy(pods, pending)
      && 0 <= pods[id].failures
    }

    method ApplyPull(id: PodId, result: Outcome<()>, a: Answers, now: nat)
      requires Calm(id) && pods[id].phase.ImagePulling? && result == a.pull
      modifies this`pods, this`pending, this`alloc, this`sent, this`ledgers
      ensures View() == Install(old(View()), id, StepPulling(old(Begin(View(), id)), a, now))
    {
      ghost var s := View();
      ledgers := ledgers[id := Record(ledgers[id], PullImage(result.Ok?))];
      match result
      case Ok(_) =>
        pods := pods[id := pods[id].(phase := Creating, changedAt := now)];
        Transmit(PodStatusEvent(id, ReportCreating));
        Reported(s, View(), id, ReportCreating);
      case Err(e) =>
        assert pods == s.pods[id := pods[id]];
        FailSince(id, e, a, now, s);
    }

    method ApplyCreate(id: PodId, mounts: seq<Text>, result: Outcome<Text>, a: Answers, now: nat)
      requires Calm(id) && pods[id].phase.Creating? && result == a.create && pods[id].id == id
      requires mounts == if pods[id].private.juicefsPath == [] then [] else [if a.mount.Ok? then a.mount.value else []]
      requires pods[id].private.juicefsPath != [] ==> a.mount.Ok?
      modifies this`pods, this`pending, this`alloc, this`sent, this`ledgers
      ensures View() == Install(old(View()), id, StepCreating(old(Begin(View(), id)), a, now))
    {
      ghost var s := View();
      if pods[id].private.juicefsPath != [] {
        ledgers := ledgers[id := Record(ledgers[id], MountVolume(true))];
      }
      match result
      case Ok(containerId) =>
        ledgers := ledgers[id := Record(ledgers[id], CreatePod(mounts, Some(containerId)))];
        pods := pods[id := pods[id].(handle := Some(Handle(id, containerId)), phase := Starting, changedAt := now, retryAfter := 0)];
        Unreported(s, View(), id);
      case Err(e) =>
        ledgers := ledgers[id := Record(ledgers[id], CreatePod(mounts, None))];
        assert pods == s.pods[id := pods[id]];
        FailSince(id, e, a, now, s);
    }

    method ApplyStart(id: PodId, result: Outcome<()>, a: Answers, now: nat)
      requires Calm(id) && pods[id].phase.Starting? && pods[id].handle.Some? && result == a.start
      modifies this`pods, this`pending, this`alloc, this`sent, this`ledgers
      ensures View() == Install(old(View()), id, StepStarting(old(Begin(View(), id)), a, now))
    {
      ghost var s := View();
      var containerId := pods[id].handle.value.containerId;
      ledgers := ledgers[id := Record(ledgers[id], StartPodCall(containerId, result.Ok?))];
      match result
      case Ok(_) =>
        pods := pods[id := pods[id].(phase := Running, changedAt := now, failures := 0, retryAfter := 0)];
        Transmit(PodStatusEvent(id, ReportRunning));
        Reported(s, View(), id, ReportRunning);
      case Err(e) =>
        var retry := RetryLifecyclePod(id, now);
        if retry {
          CleanFailedStart(id, e, a, now, s);
        } else {
          assert pods == s.pods[id := pods[id]];
          FailSince(id, e, a, now, s);
        }
    }

    /** A start that failed and may be retried: the container goes first. */
    method CleanFailedStart(id: PodId, e: Text, a: Answers, now: nat, ghost s: State)
      requires Calm(id) && pods[id].phase.Starting? && pods[id].handle.Some?
      requires id in s.pods && s.pods[id].phase.Starting? && s.pods[id].handle.Some? && MayRetry(s.pods[id])
      requires pods[id] == Delayed(s.pods[id], now) && a.start == Err(e)
      requires View() == s.(pods := s.pods[id := pods[id]],
                            ledgers := s.ledgers[id := Record(LedgerOf(s, id), StartPodCall(s.pods[id].handle.value.containerId, false))])
      modifies this`pods, this`pending, this`alloc, this`sent, this`ledgers
      ensures View() == Install(s, id, StepStarting(Begin(s, id), a, now))
    {
      var containerId := pods[id].handle.value.containerId;
      ledgers := ledgers[id := Record(ledgers[id], RemovePod(containerId, a.remove.Ok?))];
      match a.remove
      case Ok(_) =>
        PutTwice(s.pods, id, pods[id], pods[id].(handle := None, phase := Creating, changedAt := now));
        pods := pods[id := pods[id].(handle := None, phase := Creating, changedAt := now)];
        Unreported(s, View(), id);
      case Err(cleanup) =>
        FailSince(id, e + Ascii("; failed start cleanup remains unverified: ") + cleanup, a, now, s);
    }

    method ApplyStop(id: PodId, result: Outcome<I32>, a: Answers, now: nat)
      requires Calm(id) && pods[id].phase.Stopping?
      requires StopDone(result) == Execute(Stop(id, pods[id].handle, pods[id].graceMs, pods[id].failures < STOP_ATTEMPT_MAX), a)
      modifies this`pods, this`pending, this`alloc, this`sent, this`ledgers
      ensures View() == Install(old(View()), id, StepStopping(old(Begin(View(), id)), a, now))
    {
      ghost var s := View();
      if pods[id].handle.None? {
        CompletePodStop(id, result.value, a, now);
        return;
      }
      ghost var containerId := pods[id].handle.value.containerId;
      if pods[id].failures < STOP_ATTEMPT_MAX {
        ledgers := ledgers[id := Record(ledgers[id], StopPodCall(containerId, pods[id].graceMs, a.stop.Ok?))];
      }
      ledgers := ledgers[id := Record(ledgers[id], QueryStatus(containerId))];
      match result
      case Ok(exitCode) => EndStop(id, exitCode, a, now, s);
      case Err(_) =>
        ScheduleStopRetry(id, now);
        Unreported(s, View(), id);
    }

    /** The exit of a stopping pod is verified. */
    method EndStop(id: PodId, exitCode: I32, a: Answers, now: nat, ghost s: State)
      requires Calm(id) && pods[id].phase.Stopping?
      requires View() == s.(ledgers := s.ledgers[id := ledgers[id]])
      modifies this`pods, this`pending, this`alloc, this`sent, this`ledgers
      ensures View() == Install(s, id, CompleteStop(old(Begin(View(), id)), exitCode, a, now))
    {
      ghost var t := View();
      assert t.pods == s.pods[id := t.pods[id]];
      CompletePodStop(id, exitCode, a, now);
      InstallOver(s, t, id, CompleteStop(Begin(t, id), exitCode, a, now));
    }

    /** The status of a running pod is verified, and a due probe is made. */
    method CollectRunning(id: PodId, a: Answers, now: nat)
      requires Calm(id) && pods[id].phase.Running? && pods[id].handle.Some?
      modifies this`pods, this`pending, this`alloc, this`sent, this`ledgers
      ensures View() == Install(old(View()), id, StepRunning(old(Begin(View(), id)), a, now))
    {
      ghost var s := View();
      var containerId := pods[id].handle.value.containerId;
      ledgers := ledgers[id := Record(ledgers[id], QueryStatus(containerId))];
      match a.status
      case Ok(RunningStatus) => ProbeRunning(id, a, now, s);
      case Ok(StoppedStatus(exitCode)) => EndRunning(id, exitCode, a, now, s);
      case Ok(_) => FailRunning(id, Ascii("runtime no longer proves pod is running"), a, now, s);
      case Err(e) => FailRunning(id, Ascii("runtime status verification failed: ") + e, a, now, s);
    }

    ghost predicate Asked(s: State, id: PodId)
      reads this
    {
      && Calm(id) && pods[id].phase.Running? && pods[id].handle.Some?
      && View() == s.(ledgers := s.ledgers[id := Record(LedgerOf(s, id), QueryStatus(pods[id].handle.value.containerId))])
    }

    method FailRunning(id: PodId, why: Text, a: Answers, now: nat, ghost s: State)
      requires Asked(s, id)
      modifies this`pods, this`pending, this`alloc, this`sent, this`ledgers
      ensures View() == Install(s, id, Fail(old(Begin(View(), id)), why, a, now))
    {
      ghost var t := View();
      FailPod(id, why, a, now);
      assert t.pods == s.pods[id := t.pods[id]];
      InstallOver(s, t, id, Fail(Begin(t, id), why, a, now));
    }

    method EndRunning(id: PodId, exitCode: I32, a: Answers, now: nat, ghost s: State)
      requires Asked(s, id)
      modifies this`pods, this`pending, this`alloc, this`sent, this`ledgers
      ensures
        var r := old(Begin(View(), id));
        View() == Install(s, id, CompleteStop(r.With(r.pod.(phase := Stopping, changedAt := now, graceMs := 0,
                                                            failures := STOP_ATTEMPT_MAX, retryAfter := 0)), exitCode, a, now))
    {
      pods := pods[id := pods[id].(phase := Stopping, changedAt := now, graceMs := 0,
                                   failures := STOP_ATTEMPT_MAX, retryAfter := 0)];
      ghost var t := View();
      CompletePodStop(id, exitCode, a, now);
      InstallOver(s, t, id, CompleteStop(Begin(t, id), exitCode, a, now));
    }

    method ProbeRunning(id: PodId, a: Answers, now: nat, ghost s: State)
      requires Asked(s, id) && a.status == Ok(RunningStatus)
      modifies this`pods, this`pending, this`alloc, this`sent, this`ledgers
      ensures View() == Install(s, id, StepRunning(Begin(s, id), a, now))
    {
      var pod := pods[id];
      if pod.service.livenessPath != [] && pod.service.port > 0 && now >= pod.lastProbe + PROBE_INTERVAL_MS {
        ledgers := ledgers[id := Record(ledgers[id], ProbeCall(pod.handle.value.containerId))];
        ScoreProbe(id, a, now, s);
      } else {
        assert pods == s.pods[id := pods[id]];
        Unreported(s, View(), id);
      }
    }

    method ScoreProbe(id: PodId, a: Answers, now: nat, ghost s: State)
      requires Calm(id) && pods[id].phase.Running? && pods[id].handle.Some? && a.status == Ok(RunningStatus)
      requires ShouldProbe(pods[id], now)
      requires
        var c := pods[id].handle.value.containerId;
        View() == s.(ledgers := s.ledgers[id := Record(Record(LedgerOf(s, id), QueryStatus(c)), ProbeCall(c))])
      modifies this`pods, this`pending, this`alloc, this`sent, this`ledgers
      ensures View() == Install(s, id, StepRunning(Begin(s, id), a, now))
    {
      if a.probe == Ok(true) {
        pods := pods[id := pods[id].(lastProbe := now, probeFailures := 0)];
        Unreported(s, View(), id);
        return;
      }
      var probeFailures := SaturatingAdd(pods[id].probeFailures, 1, U8_MAX);
      pods := pods[id := pods[id].(lastProbe := now, probeFailures := probeFailures)];
      if probeFailures < 3 {
        Unreported(s, View(), id);
      } else {
        var why := Ascii("liveness probe failed");
        ghost var t := View();
        FailPod(id, why, a, now);
        InstallOver(s, t, id, Fail(Begin(t, id), why, a, now));
      }
    }

    /** A volume that cannot be mounted fails the pod before anything is created. */
    method FailMount(id: PodId, a: Answers, now: nat)
      requires Calm(id) && pods[id].phase.Creating? && pods[id].private.juicefsPath != [] && a.mount.Err?
      modifies this`pods, this`pending, this`alloc, this`sent, this`ledgers
      ensures View() == Install(old(View()), id, StepCreating(old(Begin(View(), id)), a, now))
    {
      ghost var s := View();
      ledgers := ledgers[id := Record(ledgers[id], MountVolume(false))];
      ghost var t := View();
      var why := Ascii("juicefs mount failed: ") + a.mount.error;
      FailPod(id, why, a, now);
      assert t.pods == s.pods[id := t.pods[id]];
      InstallOver(s, t, id, Fail(Begin(t, id), why, a, now));
    }

    lemma InvCalm(id: PodId)
      requires Inv(View()) && id in pods && !pods[id].Terminal()
      ensures Calm(id) && pods[id].id == id
      ensures pods[id].phase.Running? || pods[id].phase.Starting? ==> pods[id].handle.Some?
    {
      assert InvAt(View(), id);
      forall j | j in pending
        ensures j in pods
      {
        assert InvAt(View(), j);
      }
      forall j | j in pods && pods[j].Terminal()
        ensures pods[j].handle.None? && j !in pending
      {
        assert InvAt(View(), j);
      }
    }

    /** The worker has taken the steps of `done`, in that order, since it was in state `s`. */
    ghost predicate Passed(s: State, done: seq<PodId>, env: Environment, now: nat)
      reads this
    {
      Inv(s) && Ready(s) && Order(s, done, now) && View() == Sequential(s, done, env, now)
    }

    /** A pod whose turn has not come is as it was, and stepping it extends the pass. */
    lemma {:induction false} BeforeStep(s: State, done: seq<PodId>, id: PodId, env: Environment, now: nat)
      requires Passed(s, done, env, now)
      requires id in s.pods && !Idle(s.pods[id], now) && id !in done
      ensures Calm(id) && pods[id] == s.pods[id] && pods[id].id == id
      ensures pods[id].phase.Running? || pods[id].phase.Starting? ==> pods[id].handle.Some?
      ensures Order(s, done + [id], now)
      ensures Sequential(s, done + [id], env, now) == Install(View(), id, PodStep(Begin(View(), id), env(id), now))
    {
      SequentialExtends(s, done, id, env, now);
      InvCalm(id);
    }

    /** One pod of the collection loop: settled at once, skipped, or given an operation. */
    method CollectPod(id: PodId, env: Environment, now: nat, ghost s: State, ghost done: seq<PodId>)
      returns (op: Option<Op>)
      requires Passed(s, done, env, now) && id in s.pods && id !in done
      requires id in pods && pods[id] == s.pods[id]
      modifies this`pods, this`pending, this`alloc, this`sent, this`ledgers
      ensures Early(s.pods[id], env(id), now) ==> op.None? && Passed(s, done + [id], env, now)
      ensures !Early(s.pods[id], env(id), now) ==> Passed(s, done, env, now)
      ensures op.Some? <==> Collected(s.pods[id], env(id), now)
      ensures op.Some? ==> IsOpOf(op.value, s.pods[id], env(id)) && op.value.id == id
    {
      op := None;
      if !Idle(s.pods[id], now) {
        BeforeStep(s, done, id, env, now);
      }
      var pod := pods[id];
      match pod.phase
      case ImagePulling =>
        op := Some(Pull(id, pod.service.image, pod.private.auth));
      case Creating =>
        if pod.retryAfter <= now {
          if pod.private.juicefsPath == [] {
            op := Some(LifecycleOps.Create(id, []));
          } else {
            var mounted := env(id).mount;
            match mounted
            case Ok(hostPath) => op := Some(LifecycleOps.Create(id, [hostPath]));
            case Err(_) => FailMount(id, env(id), now);
          }
        }
      case Starting =>
        if pod.retryAfter <= now && pod.handle.Some? {
          op := Some(Start(id, pod.handle.value));
        }
      case Running =>
        CollectRunning(id, env(id), now);
      case Stopping =>
        if pod.retryAfter <= now {
          op := Some(Stop(id, pod.handle, pod.graceMs, pod.failures < STOP_ATTEMPT_MAX));
        }
      case _ =>
    }

    /** One completion: the pod is still in the state it was collected in, so its discard guard
        does not fire and the result is applied. */
    method ApplyCompletion(c: Completion, env: Environment, now: nat, ghost s: State, ghost done: seq<PodId>)
      returns (discarded: bool)
      requires Passed(s, done, env, now)
      requires c.op.id in s.pods && c.op.id !in done && Collected(s.pods[c.op.id], env(c.op.id), now)
      requires IsOpOf(c.op, s.pods[c.op.id], env(c.op.id))
      requires c.result == Execute(c.op, env(c.op.id))
      modifies this`pods, this`pending, this`alloc, this`sent, this`ledgers
      ensures !discarded && Passed(s, done + [c.op.id], env, now)
    {
      discarded := false;
      var id := c.op.id;
      BeforeStep(s, done, id, env, now);
      match c.op
      case Pull(_, _, _) =>
        if id !in pods || !pods[id].phase.ImagePulling? {
          return true;
        }
        ApplyPull(id, c.result.pull, env(id), now);
      case Create(_, mounts) =>
        if id !in pods || !pods[id].phase.Creating? {
          return true;
        }
        ApplyCreate(id, mounts, c.result.create, env(id), now);
      case Start(_, _) =>
        if id !in pods || !pods[id].phase.Starting? {
          return true;
        }
        ApplyStart(id, c.result.start, env(id), now);
      case Stop(_, _, _, _) =>
        if id !in pods || !pods[id].phase.Stopping? {
          return true;
        }
        ApplyStop(id, c.result.stop, env(id), now);
    }

    /** Every tracked id, in order. */
    method SnapshotIds() returns (ids: seq<PodId>)
      ensures ids == Snapshot(pods)
    {
      ids := [];
      var left := pods.Keys;
      while left != {}
        invariant left <= pods.Keys
        invariant forall id :: id in ids <==> id in pods && id !in left
        invariant Distinct(ids)
      {
        var id: PodId :| id in left;
        left := left - {id};
        ids := ids + [id];
      }
      var key := (id: PodId) => (0, id);
      var sorted := Sort(ids, key);
      forall i, j | 0 <= i < j < |sorted|
        ensures sorted[i] < sorted[j]
      {
        assert Less(KeysOf(sorted, key)[i], KeysOf(sorted, key)[j]);
      }
      SnapshotBySorting(pods, sorted);
      ids := sorted;
    }

    /** The collection loop at position `k` of the snapshot. */
    ghost predicate Collecting(s: State, ids: seq<PodId>, k: int, ops: seq<Op>, early: seq<PodId>,
                               env: Environment, now: nat)
      requires 0 <= k <= |ids|
      reads this
    {
      && Passed(s, early, env, now)
      && EarlyAmong(s, ids[..k], early, env, now)
      && OpsAmong(s, ids[..k], ops, env, now)
    }

    method CollectNext(ids: seq<PodId>, k: nat, ops: seq<Op>, env: Environment, now: nat,
                       ghost s: State, ghost early: seq<PodId>)
      returns (panicked: bool, moreOps: seq<Op>, ghost moreEarly: seq<PodId>)
      requires ids == Snapshot(s.pods) && k < |ids| && Collecting(s, ids, k, ops, early, env, now)
      modifies this`pods, this`pending, this`alloc, this`sent, this`ledgers
      ensures ids[k] in s.pods && (panicked <==> PanicsAt(s, ids[k], env, now))
      ensures !panicked ==> Collecting(s, ids, k + 1, moreOps, moreEarly, env, now)
    {
      panicked, moreOps, moreEarly := false, ops, early;
      var id := ids[k];
      SnapshotIsOrder(s.pods);
      PrefixIncreasing(ids, k);
      ReachedPod(s, ids, k, early, env, now);
      if id !in pods {
        panicked := true;
        return;
      }
      var op := CollectPod(id, env, now, s, early);
      EarlyExtends(s, ids[..k], early, id, env, now);
      OpsExtend(s, ids[..k], ops, id, op, env, now);
      if Early(s.pods[id], env(id), now) {
        moreEarly := early + [id];
      }
      if op.Some? {
        moreOps := ops + [op.value];
      }
    }

    /** Phase one: running pods are verified, volumes mounted, and the operations collected. */
    method CollectOps(ids: seq<PodId>, env: Environment, now: nat, ghost s: State)
      returns (panicked: bool, ops: seq<Op>, ghost early: seq<PodId>)
      requires Passed(s, [], env, now) && ids == Snapshot(s.pods)
      modifies this`pods, this`pending, this`alloc, this`sent, this`ledgers
      ensures panicked <==> DrivePanics(s, env, now)
      ensures !panicked ==> Collecting(s, ids, |ids|, ops, early, env, now)
    {
      panicked, ops, early := false, [], [];
      for k := 0 to |ids|
        invariant Collecting(s, ids, k, ops, early, env, now) && CalmUpTo(s, ids, k, env, now)
      {
        panicked, ops, early := CollectNext(ids, k, ops, env, now, s, early);
        CalmMore(s, ids, k, env, now);
        if panicked {
          return;
        }
      }
      NeverPanics(s, env, now);
    }

    /** The snapshot's next id is missing exactly when this is the pass that panics. */
    lemma {:induction false} ReachedPod(s: State, ids: seq<PodId>, k: nat, early: seq<PodId>, env: Environment, now: nat)
      requires Passed(s, early, env, now) && ids == Snapshot(s.pods) && k < |ids|
      requires EarlyAmong(s, ids[..k], early, env, now)
      ensures ids[k] in s.pods && ids[k] !in early
      ensures ids[k] in pods <==> !PanicsAt(s, ids[k], env, now)
      ensures ids[k] in pods ==> pods[ids[k]] == s.pods[ids[k]]
    {
      SnapshotPrefix(s, ids, k, early, env, now);
      PrunedOnTheWay(s, early, ids[k], env, now);
    }

    /** Phase three: every completion is applied. */
    method ApplyCompletions(completions: seq<Completion>, ops: seq<Op>, env: Environment, now: nat,
                            ghost s: State, ghost early: seq<PodId>)
      requires Passed(s, early, env, now)
      requires EarlyAmong(s, Snapshot(s.pods), early, env, now) && OpsAmong(s, Snapshot(s.pods), ops, env, now)
      requires completions == Completed(ops, env)
      modifies this`pods, this`pending, this`alloc, this`sent, this`ledgers
      ensures Passed(s, early + OpIds(ops), env, now)
    {
      assert early + OpIds(ops[..0]) == early;
      for i := 0 to |completions|
        invariant Passed(s, early + OpIds(ops[..i]), env, now)
      {
        var c := completions[i];
        assert ops[i] in ops;
        NotApplied(s, ops, early, i, env, now);
        var discarded := ApplyCompletion(c, env, now, s, early + OpIds(ops[..i]));
        OneMoreOp(early, ops, i);
      }
      assert ops[..|ops|] == ops;
    }

    /** One lifecycle pass: collect, run in bounded chunks, apply. It panics exactly when the
        snapshot outlives a tombstone, and otherwise every pod has taken exactly its own step. */
    method DrivePods(env: Environment, now: nat) returns (panicked: bool)
      requires Valid()
      modifies this`pods, this`pending, this`alloc, this`sent, this`ledgers
      ensures panicked <==> DrivePanics(old(View()), env, now)
      ensures !panicked ==> View() == Drive(old(View()), env, now) && Valid()
    {
      ghost var s := View();
      var ids := SnapshotIds();
      var ops: seq<Op>;
      ghost var early: seq<PodId>;
      panicked, ops, early := CollectOps(ids, env, now, s);
      if panicked {
        return;
      }
      assert ids[..|ids|] == ids;
      DistinctKeys(ops);
      var sorted := Sort(ops, OpKey);
      SortedOps(s, ops, sorted, env, now);
      SortedStartsFirst(sorted);
      var completions, _ := ExecuteInChunks(sorted, env, lifecycleConcurrency);
      ApplyCompletions(completions, sorted, env, now, s, early);
      CollectedOrder(s, early, sorted, env, now);
      DriveIsSequential(s, env, now);
      InvReady(View());
    }

    // -- Registration, heartbeat and the tick --

    method RegisterNode(now: nat)
      modifies this`registered, this`lastHeartbeat, this`sent
      ensures View() == Register(old(View()), now)
    {
      if !registered {
        Transmit(NodeRegister(nodeName, total.cpu, total.memory, gpuType, total.gpu));
        registered := true;
        lastHeartbeat := now;
      }
    }

    method CountRunning() returns (count: nat)
      ensures count == |RunningPods(pods)|
    {
      count := 0;
      var left := pods.Keys;
      ghost var seen: set<PodId> := {};
      while left != {}
        invariant left <= pods.Keys
        invariant seen == set id | id in RunningPods(pods) && id !in left
        invariant count == |seen|
      {
        var id: PodId :| id in left;
        left := left - {id};
        if pods[id].phase.Running? {
          count := count + 1;
          seen := seen + {id};
        }
      }
      assert seen == RunningPods(pods);
    }

    method SendHeartbeat(now: nat)
      modifies this`lastHeartbeat, this`sent
      ensures View() == Heartbeat(old(View()), now)
    {
      if now >= lastHeartbeat + HEARTBEAT_INTERVAL_TICKS {
        var activePods := CountRunning();
        Transmit(NodeHeartbeat(now, activePods, SaturatingSub(total.gpu, alloc.gpu)));
        lastHeartbeat := now;
      }
    }

    /** Handles the messages the session has ready, in order. */
    method HandleMessages(messages: seq<(ControlMessage, HandlerAnswers)>, now: nat)
      requires Valid()
      modifies this`pods, this`alloc, this`sent, this`ledgers
      ensures Valid()
      ensures Run(old(View()), Deliveries(messages, now)) == Some(View())
    {
      ghost var s := View();
      for i := 0 to |messages|
        invariant Valid()
        invariant Run(s, Deliveries(messages[..i], now)) == Some(View())
      {
        ghost var before := View();
        InvTidy();
        HandleMessage(messages[i].0, messages[i].1, now);
        OneMoreDelivery(s, messages, i, before, now);
        DeliverKeepsInv(before, messages[i].0, messages[i].1, now);
        InvReady(View());
      }
      assert messages[..|messages|] == messages;
    }

    /** A tick is the run of its events, and panics exactly when that run does. */
    method Tick(messages: seq<(ControlMessage, HandlerAnswers)>, env: Environment, now: nat) returns (panicked: bool)
      requires Valid()
      modifies this
      ensures panicked <==> Run(old(View()), TickEvents(messages, env, now)).None?
      ensures !panicked ==> Run(old(View()), TickEvents(messages, env, now)) == Some(View()) && Valid()
      ensures !panicked && old(Reachable(View())) ==> Reachable(View())
    {
      ghost var s := View();
      RegisterNode(now);
      ghost var t := View();
      RegisterKeepsInv(s, now);
      InvReady(t);
      HandleMessages(messages, now);
      ghost var u := View();
      panicked := DrivePods(env, now);
      TickRuns(s, messages, env, now, u);
      if !panicked {
        ghost var v := View();
        SendHeartbeat(now);
        RegisterKeepsInv(v, now);
        InvReady(View());
        if Reachable(s) {
          ReachableAfter(s, TickEvents(messages, env, now), View());
        }
      }
    }

    // -- Shutdown --

    lemma InvTidy()
      requires Inv(View())
      ensures TombstonesTidy(pods, pending) && pending.Keys <= pods.Keys
    {
      forall j | j in pending
        ensures j in pods
      {
        assert InvAt(View(), j);
      }
      forall j | j in pods && pods[j].Terminal()
        ensures pods[j].handle.None? && j !in pending
      {
        assert InvAt(View(), j);
      }
    }

    /** Stop attempts until the exit is verified, the budget is spent or no time is left. */
    method AttemptStops(attempts: seq<StopAttempt>, budget: nat, graceMs: int, ghost r: Step)
      returns (exit: Option<I32>, ghost tried: Step)
      requires r.pod.handle.Some?
      ensures exit == TryStops(r, attempts, budget, graceMs).1 && tried == TryStops(r, attempts, budget, graceMs).0
    {
      exit, tried := None, r;
      var n := 0;
      while n < budget && n < |attempts| && attempts[n].remainingMs != 0
        invariant n <= budget && n <= |attempts| && tried.pod == r.pod && exit == None
        invariant TryStops(r, attempts, budget, graceMs) == TryStops(tried, attempts[n..], budget - n, graceMs)
      {
        assert attempts[n..][0] == attempts[n] && attempts[n..][1..] == attempts[n + 1..];
        var a := attempts[n];
        ghost var containerId := r.pod.handle.value.containerId;
        tried := tried.Called(StopPodCall(containerId, Min(graceMs, a.remainingMs), a.stop.Ok?))
                      .Called(QueryStatus(containerId));
        if a.status.Ok? && a.status.value.StoppedStatus? {
          exit := Some(a.status.value.exitCode);
          return;
        }
        n := n + 1;
      }
    }

    method VerifyExitOf(pod: Pod, a: ShutdownAnswers, ghost r: Step) returns (exit: Option<I32>, ghost tried: Step)
      requires r.pod == pod && 0 <= pod.failures
      ensures exit == VerifyExit(r, a).1 && tried == VerifyExit(r, a).0
      ensures tried == r.(ledger := tried.ledger)
    {
      if pod.phase.Stopped? {
        return Some(pod.phase.exitCode), r;
      }
      if pod.handle.None? {
        return Some(0), r;
      }
      var requestedGrace := if pod.graceMs > 0 then pod.graceMs else DEFAULT_SHUTDOWN_GRACE_MS;
      var stopAttempts := SaturatingSub(STOP_ATTEMPT_MAX, pod.failures);
      exit, tried := AttemptStops(a.attempts, stopAttempts, requestedGrace, r);
      TryStopsKeeps(r, a.attempts, stopAttempts, requestedGrace);
      if stopAttempts == 0 {
        tried := r.Called(QueryStatus(pod.handle.value.containerId));
        exit := if a.poll.Ok? && a.poll.value.StoppedStatus? then Some(a.poll.value.exitCode) else None;
      }
    }

    /** One pod of the shutdown loop. */
    method ShutdownPod(id: PodId, a: ShutdownAnswers)
      requires Inv(View())
      modifies this`pods, this`pending, this`alloc, this`sent, this`ledgers
      ensures View() == ShutdownOne(old(View()), id, a)
    {
      if id !in pods {
        return;
      }
      ghost var s := View();
      assert InvAt(s, id);
      var pod := pods[id];
      var exit: Option<I32>;
      ghost var tried: Step;
      exit, tried := VerifyExitOf(pod, a, Begin(s, id));
      ledgers := ledgers[id := tried.ledger];
      if exit.None? {
        if !pod.Terminal() {
          pods := pods[id := pod.(phase := Stopping, failures := STOP_ATTEMPT_MAX, retryAfter := U64_MAX)];
        }
        assert pods == s.pods[id := pods[id]];
        Unreported(s, View(), id);
        return;
      }
      ShutdownCleanup(id, exit.value, a, s, tried);
    }

    /** The exit is verified: remove, unmount, and only then release, report and forget. */
    method ShutdownCleanup(id: PodId, exitCode: I32, a: ShutdownAnswers, ghost s: State, ghost tried: Step)
      requires Inv(s) && id in s.pods && id in s.ledgers
      requires VerifyExit(Begin(s, id), a) == (tried, Some(exitCode)) && tried == Begin(s, id).(ledger := tried.ledger)
      requires View() == s.(ledgers := s.ledgers[id := tried.ledger])
      modifies this`pods, this`pending, this`alloc, this`sent, this`ledgers
      ensures View() == ShutdownOne(s, id, a)
    {
      var pod := pods[id];
      if pod.handle.Some? {
        ledgers := ledgers[id := Record(ledgers[id], RemovePod(pod.handle.value.containerId, a.remove.Ok?))];
        if a.remove.Err? {
          pods := pods[id := pod.(phase := Stopping, failures := STOP_ATTEMPT_MAX, retryAfter := U64_MAX)];
          Unreported(s, View(), id);
          return;
        }
        pods := pods[id := pod.(handle := None)];
      }
      assert pods == s.pods[id := s.pods[id].(handle := None)];
      ShutdownUnmount(id, exitCode, a, s, ShutdownStep(Begin(s, id), a).0);
    }

    /** The container is gone: unmount the volume, or keep the pod. */
    method ShutdownUnmount(id: PodId, exitCode: I32, a: ShutdownAnswers, ghost s: State, ghost r: Step)
      requires Inv(s) && id in s.pods && id in pods && id in ledgers && pods[id] == s.pods[id].(handle := None)
      requires View() == s.(pods := s.pods[id := pods[id]], ledgers := s.ledgers[id := ledgers[id]])
      requires r.ledger == Record(ledgers[id], UnmountVolume(a.unmount.Ok?))
      requires a.unmount.Err? ==> r == Step(Abandon(pods[id]), Reason(s, id), r.ledger, [])
      requires a.unmount.Ok? ==> r.reason.None?
      requires a.unmount.Ok? && s.pods[id].Terminal() ==> r.reports == []
      requires a.unmount.Ok? && !s.pods[id].Terminal() ==> r.reports == [EndReport(Reason(s, id), exitCode)]
      modifies this`pods, this`pending, this`alloc, this`sent, this`ledgers
      ensures View() == if a.unmount.Err? then Put(s, id, r) else Dropped(s, id, r, Freed(s, s.pods[id]))
    {
      ledgers := ledgers[id := Record(ledgers[id], UnmountVolume(a.unmount.Ok?))];
      if a.unmount.Err? {
        PutTwice(s.pods, id, pods[id], Abandon(pods[id]));
        pods := pods[id := pods[id].(phase := Stopping, failures := STOP_ATTEMPT_MAX, retryAfter := U64_MAX)];
        Unreported(s, View(), id);
        return;
      }
      ForgetPod(id, exitCode, s, r);
    }

    method ForgetPod(id: PodId, exitCode: I32, ghost s: State, ghost r: Step)
      requires Inv(s) && id in s.pods && id in pods && r.reason.None?
      requires View() == s.(pods := s.pods[id := pods[id]], ledgers := s.ledgers[id := r.ledger])
      requires pods[id] == s.pods[id].(handle := None)
      requires r.reports == if s.pods[id].Terminal() then [] else [EndReport(Reason(s, id), exitCode)]
      modifies this`pods, this`pending, this`alloc, this`sent
      ensures View() == Dropped(s, id, r, Freed(s, s.pods[id]))
    {
      var wasTerminal := pods[id].Terminal();
      var reason: Option<Text> := None;
      if id in pending {
        reason := Some(pending[id]);
        pending := pending - {id};
      }
      assert pending == s.pending - {id};
      if !wasTerminal {
        ReleasePodResources(id);
        var report := EndReport(reason, exitCode);
        Transmit(PodStatusEvent(id, report));
        assert Tell(id, r.reports) == [PodStatusEvent(id, report)];
      } else {
        assert InvAt(s, id);
        // A tombstone has no pending reason.
        assert reason.None?;
        assert Tell(id, r.reports) == [];
      }
      assert pods - {id} == s.pods[id := r.pod] - {id};
      pods := pods - {id};
    }

    /** The shutdown loop. */
    method VisitPods(ids: seq<PodId>, answers: PodId -> ShutdownAnswers, visits: nat)
      requires Inv(View())
      modifies this`pods, this`pending, this`alloc, this`sent, this`ledgers
      ensures View() == ShutdownAll(old(View()), ids[..Min(visits, |ids|)], answers) && Inv(View())
    {
      ghost var s := View();
      var k := 0;
      while k < |ids| && k < visits
        invariant 0 <= k <= Min(visits, |ids|)
        invariant View() == ShutdownAll(s, ids[..k], answers) && Inv(View())
      {
        ghost var before := View();
        ShutdownPod(ids[k], answers(ids[k]));
        OneMoreVisit(s, ids, k, answers);
        ShutdownOneKeepsInv(before, ids[k], answers(ids[k]));
        k := k + 1;
      }
      assert k == Min(visits, |ids|);
    }

    /** Shutdown visits the pods in id order until the deadline, here reached after `visits` pods. It
        succeeds exactly when no pod is left. */
    method ShutdownWithDeadline(answers: PodId -> ShutdownAnswers, visits: nat) returns (finished: bool)
      requires Valid()
      modifies this`pods, this`pending, this`alloc, this`sent, this`ledgers
      ensures View() == Shutdown(old(View()), answers, visits) && Valid()
      ensures finished <==> pods == map[]
      ensures old(Reachable(View())) ==> Reachable(View())
    {
      ghost var s := View();
      var ids := SnapshotIds();
      VisitPods(ids, answers, visits);
      InvReady(View());
      if Reachable(s) {
        ReachableNext(s, ShuttingDown(answers, visits), View());
      }
      finished := |pods| == 0;
      if finished {
        InvTidy();
        // Nothing is tracked, so nothing is pending.
        assert |pending| == 0;
      }
    }
  }
}
