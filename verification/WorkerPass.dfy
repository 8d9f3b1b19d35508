/**
 The invariant of the worker's state, its preservation by installing one step, and the lifecycle
 pass: installing the steps of the pods one after the other, in whatever order, gives the closed
 form in which every pod steps on its own.
 */
module WorkerPass {
  import opened Basics
  import opened Ordering
  import opened Lifecycle
  import opened PodSafety
  import opened Tombstones
  import opened WorkerState
  import opened Accounting

  // -- The invariant --

  /** A tracked pod fits its ledger; an untracked id has left nothing behind. */
  ghost predicate InvAt(s: State, id: PodId) {
    && (id in s.pending ==> id in s.pods)
    && (id in s.pods ==> id in s.ledgers && s.pods[id].id == id && Sane(s.pods[id], Reason(s, id), s.ledgers[id]))
    && (id in s.ledgers && id !in s.pods ==> Clean(s.ledgers[id]))
  }

  ghost predicate Inv(s: State) {
    && (forall id: PodId :: InvAt(s, id))
    && |TombstonesOf(s.pods)| <= MAX_TERMINAL_TOMBSTONES
    && |s.pods| <= MAX_TRACKED_PODS
  }

  lemma InvReady(s: State)
    requires Inv(s)
    ensures Ready(s)
  {
    forall id | id in s.pods
      ensures s.pods[id].phase.Running? ==> s.pods[id].handle.Some?
    {
      assert InvAt(s, id);
    }
  }

  /** What a step leaves alone: whose pod it is and what the pod reserved. */
  ghost predicate Framed(before: Pod, after: Pod, now: nat) {
    && after.id == before.id
    && after.demand == before.demand
    && (after.Terminal() && !before.Terminal() ==> after.changedAt == now)
  }

  lemma FailFrame(r: Step, why: Text, a: Answers, now: nat)
    ensures Framed(r.pod, Fail(r, why, a, now).pod, now)
  {
  }

  lemma CreateFrame(r: Step, mounts: seq<Text>, a: Answers, now: nat)
    ensures Framed(r.pod, Create(r, mounts, a, now).pod, now)
  {
    if a.create.Err? {
      FailFrame(r.Called(CreatePod(mounts, None)), a.create.error, a, now);
    }
  }

  lemma StartingFrame(r: Step, a: Answers, now: nat)
    requires r.pod.phase.Starting? && r.pod.handle.Some?
    ensures Framed(r.pod, StepStarting(r, a, now).pod, now)
  {
  }

  lemma RunningFrame(r: Step, a: Answers, now: nat)
    requires r.pod.phase.Running? && r.pod.handle.Some?
    ensures Framed(r.pod, StepRunning(r, a, now).pod, now)
  {
  }

  lemma StoppingFrame(r: Step, a: Answers, now: nat)
    requires r.pod.phase.Stopping?
    ensures Framed(r.pod, StepStopping(r, a, now).pod, now)
  {
  }

  /** A step never changes whose pod it is or what the pod reserved, and an idle pod never moves. */
  lemma StepFrame(r: Step, a: Answers, now: nat)
    requires r.pod.phase.Running? ==> r.pod.handle.Some?
    ensures Framed(r.pod, PodStep(r, a, now).pod, now)
    ensures Idle(r.pod, now) ==> PodStep(r, a, now) == r
  {
    if !Idle(r.pod, now) {
      match r.pod.phase
      case ImagePulling =>
      case Creating =>
        if r.pod.private.juicefsPath == [] {
          CreateFrame(r, [], a, now);
        } else if a.mount.Ok? {
          CreateFrame(r.Called(MountVolume(true)), [a.mount.value], a, now);
        }
      case Starting => StartingFrame(r, a, now);
      case Running => RunningFrame(r, a, now);
      case Stopping => StoppingFrame(r, a, now);
    }
  }

  /** What a step must provide to be installed for a live pod. */
  ghost predicate Installable(s: State, id: PodId, r: Step) {
    && id in s.pods && id in s.ledgers
    && !s.pods[id].Terminal()
    && r.pod.id == id
    && r.pod.demand == s.pods[id].demand
    && SaneStep(r)
  }

  lemma InstallKeepsInvAt(s: State, id: PodId, r: Step, j: PodId)
    requires InvAt(s, id) && InvAt(s, j) && Installable(s, id, r)
    ensures InvAt(Install(s, id, r), j)
  {
    var t := Install(s, id, r);
    var put := s.pods[id := r.pod];
    if j in put && j !in t.pods {
      assert put[j].Terminal();
    }
  }

  lemma InstallKeepsInv(s: State, id: PodId, r: Step)
    requires Inv(s) && Installable(s, id, r)
    ensures Inv(Install(s, id, r))
  {
    var t := Install(s, id, r);
    var put := s.pods[id := r.pod];
    assert InvAt(s, id);
    forall j: PodId
      ensures InvAt(t, j)
    {
      assert InvAt(s, j);
      InstallKeepsInvAt(s, id, r, j);
    }
    assert put.Keys == s.pods.Keys;
    CardSubset(t.pods.Keys, s.pods.Keys);
    if r.pod.Terminal() {
      PruneBounds(put, MAX_TERMINAL_TOMBSTONES);
    } else {
      assert TombstonesOf(put) == TombstonesOf(s.pods);
    }
  }

  /** Releasing never saturates: the counter stays exactly the sum of the reservations. */
  lemma InstallKeepsExact(s: State, id: PodId, r: Step)
    requires Exact(s) && id in s.pods && !s.pods[id].Terminal() && r.pod.demand == s.pods[id].demand
    ensures Exact(Install(s, id, r))
  {
    var put := s.pods[id := r.pod];
    ReservedPut(s.pods, id, r.pod);
    ShareWithinReserved(s.pods, id);
    if r.pod.Terminal() {
      ReservedIgnoresTombstones(put, Prune(put, MAX_TERMINAL_TOMBSTONES));
      ReleaseExact(s.alloc, s.pods[id].demand, Reserved(put));
    } else {
      PlusCancels(Reserved(put), Reserved(s.pods), r.pod.demand);
    }
  }

  lemma ReleaseExact(alloc: Amounts, demand: Amounts, rest: Resources)
    requires demand.Within(alloc)
    requires rest.Plus(demand) == alloc.Plus(NOTHING)
    ensures SaturatingMinus(alloc, demand) == rest
  {
  }

  lemma PlusCancels(a: Resources, b: Resources, c: Resources)
    requires a.Plus(c) == b.Plus(c)
    ensures a == b
  {
  }

  // -- A pass, one pod after the other --

  predicate Distinct(ids: seq<PodId>) {
    forall i, j | 0 <= i < j < |ids| :: ids[i] != ids[j]
  }

  lemma PruneKeepsLive(pods: Pods, limit: nat, id: PodId)
    requires id in pods && !pods[id].Terminal()
    ensures id in Prune(pods, limit)
  {
  }

  /** Replacing a live pod by a live pod commutes with pruning. */
  lemma PruneIgnoresLive(pods: Pods, limit: nat, id: PodId, pod: Pod)
    requires id in pods && !pods[id].Terminal() && !pod.Terminal()
    ensures Prune(pods, limit)[id := pod] == Prune(pods[id := pod], limit)
  {
    var put := pods[id := pod];
    forall j | j in pods
      ensures j in Prune(pods, limit)[id := pod] <==> j in Prune(put, limit)
    {
      if j != id {
        assert Newer(pods, j) == Newer(put, j);
      }
    }
    SameMap(Prune(pods, limit)[id := pod], Prune(put, limit), put);
  }

  lemma MovePods(pods: Pods, steps: Steps, id: PodId, r: Step)
    requires id in pods && id !in steps && !pods[id].Terminal()
    ensures
      var before := Prune(Moved(pods, steps), MAX_TERMINAL_TOMBSTONES);
      Prune(Moved(pods, steps[id := r]), MAX_TERMINAL_TOMBSTONES) ==
      (if r.pod.Terminal() then Prune(before[id := r.pod], MAX_TERMINAL_TOMBSTONES) else before[id := r.pod])
  {
    var all := Moved(pods, steps);
    assert Moved(pods, steps[id := r]) == all[id := r.pod];
    if r.pod.Terminal() {
      PruneStream(all, MAX_TERMINAL_TOMBSTONES, id, r.pod);
    } else {
      PruneIgnoresLive(all, MAX_TERMINAL_TOMBSTONES, id, r.pod);
    }
  }

  lemma {:induction false} MoveAlloc(alloc: Amounts, pods: Pods, steps: Steps, id: PodId, r: Step)
    requires id in pods && id !in steps && !pods[id].Terminal()
    ensures
      var before := SaturatingMinus(alloc, Reserved(Ending(pods, steps)));
      SaturatingMinus(alloc, Reserved(Ending(pods, steps[id := r]))) ==
      (if r.pod.Terminal() then SaturatingMinus(before, pods[id].demand) else before)
  {
    var ending := Ending(pods, steps);
    if r.pod.Terminal() {
      assert Ending(pods, steps[id := r]) == ending[id := pods[id]];
      ReservedPut(ending, id, pods[id]);
      MinusTwice(alloc, Reserved(ending), pods[id].demand);
    } else {
      assert Ending(pods, steps[id := r]) == ending;
    }
  }

  lemma MinusTwice(a: Amounts, b: Resources, c: Resources)
    requires NOTHING.Within(b) && NOTHING.Within(c)
    ensures SaturatingMinus(SaturatingMinus(a, b), c) == SaturatingMinus(a, b.Plus(c))
  {
  }

  lemma {:induction false} ReportsLocal(order: seq<PodId>, steps: Steps, id: PodId, r: Step)
    requires id !in order
    ensures Reports(steps[id := r], order) == Reports(steps, order)
  {
    if order != [] {
      ReportsLocal(order[..|order| - 1], steps, id, r);
    }
  }

  lemma MoveReports(steps: Steps, order: seq<PodId>, id: PodId, r: Step)
    requires id !in order
    ensures Reports(steps[id := r], order + [id]) == Reports(steps, order) + Tell(id, r.reports)
  {
    var more := order + [id];
    assert more[..|more| - 1] == order && more[|more| - 1] == id;
    ReportsLocal(order, steps, id, r);
  }

  /** A live pod that has not stepped yet is still tracked, unchanged, with its reason. */
  lemma {:induction false} NotYet(s: State, steps: Steps, order: seq<PodId>, id: PodId)
    requires id in s.pods && id in s.ledgers && id !in steps && !s.pods[id].Terminal()
    ensures id in Applied(s, steps, order).pods
    ensures Begin(Applied(s, steps, order), id) == Begin(s, id)
  {
    PruneKeepsLive(Moved(s.pods, steps), MAX_TERMINAL_TOMBSTONES, id);
  }

  lemma MovePending(pending: map<PodId, Text>, steps: Steps, id: PodId, r: Step)
    requires id !in steps
    ensures
      var before := Pending(pending, steps);
      Pending(pending, steps[id := r]) ==
      (if r.reason.Some? then before[id := r.reason.value] else before - {id})
  {
  }

  lemma MoveLedgers(ledgers: Ledgers, steps: Steps, id: PodId, r: Step)
    requires id in ledgers && id !in steps
    ensures Extended(ledgers, steps[id := r]) == Extended(ledgers, steps)[id := r.ledger]
  {
  }

  // Installing one more step, field by field.

  lemma {:induction false} AppliedPods(s: State, steps: Steps, order: seq<PodId>, id: PodId, r: Step)
    requires id in s.pods && id in s.ledgers && id !in steps && id !in order && !s.pods[id].Terminal()
    requires id in Applied(s, steps, order).pods
    ensures Install(Applied(s, steps, order), id, r).pods == Applied(s, steps[id := r], order + [id]).pods
  {
    MovePods(s.pods, steps, id, r);
  }

  lemma {:induction false} AppliedAlloc(s: State, steps: Steps, order: seq<PodId>, id: PodId, r: Step)
    requires id in s.pods && id in s.ledgers && id !in steps && id !in order && !s.pods[id].Terminal()
    requires id in Applied(s, steps, order).pods
    ensures Install(Applied(s, steps, order), id, r).alloc == Applied(s, steps[id := r], order + [id]).alloc
  {
    MoveAlloc(s.alloc, s.pods, steps, id, r);
    NotYet(s, steps, order, id);
  }

  lemma {:induction false} AppliedPending(s: State, steps: Steps, order: seq<PodId>, id: PodId, r: Step)
    requires id in s.pods && id in s.ledgers && id !in steps && id !in order && !s.pods[id].Terminal()
    requires id in Applied(s, steps, order).pods
    ensures Install(Applied(s, steps, order), id, r).pending == Applied(s, steps[id := r], order + [id]).pending
  {
    MovePending(s.pending, steps, id, r);
  }

  lemma {:induction false} AppliedLedgers(s: State, steps: Steps, order: seq<PodId>, id: PodId, r: Step)
    requires id in s.pods && id in s.ledgers && id !in steps && id !in order && !s.pods[id].Terminal()
    requires id in Applied(s, steps, order).pods
    ensures Install(Applied(s, steps, order), id, r).ledgers == Applied(s, steps[id := r], order + [id]).ledgers
  {
    MoveLedgers(s.ledgers, steps, id, r);
  }

  lemma {:induction false} AppliedSent(s: State, steps: Steps, order: seq<PodId>, id: PodId, r: Step)
    requires id in s.pods && id in s.ledgers && id !in steps && id !in order && !s.pods[id].Terminal()
    requires id in Applied(s, steps, order).pods
    ensures Install(Applied(s, steps, order), id, r).sent == Applied(s, steps[id := r], order + [id]).sent
  {
    MoveReports(steps, order, id, r);
    assert s.sent + Reports(steps, order) + Tell(id, r.reports) == s.sent + (Reports(steps, order) + Tell(id, r.reports));
  }

  /** Installing one more step is applying one more step. */
  lemma {:induction false} AppliedStep(s: State, steps: Steps, order: seq<PodId>, id: PodId, r: Step)
    requires id in s.pods && id in s.ledgers && id !in steps && id !in order && !s.pods[id].Terminal()
    ensures id in Applied(s, steps, order).pods
    ensures Install(Applied(s, steps, order), id, r) == Applied(s, steps[id := r], order + [id])
  {
    NotYet(s, steps, order, id);
    AppliedPods(s, steps, order, id, r);
    AppliedAlloc(s, steps, order, id, r);
    AppliedPending(s, steps, order, id, r);
    AppliedLedgers(s, steps, order, id, r);
    AppliedSent(s, steps, order, id, r);
  }

  // -- Every order of a pass --

  /** Pods of a pass, in some order. */
  ghost predicate Order(s: State, ids: seq<PodId>, now: nat) {
    Distinct(ids) && forall id | id in ids :: id in s.pods && !Idle(s.pods[id], now)
  }

  function StepsFor(s: State, ids: seq<PodId>, env: Environment, now: nat): Steps
    requires Ready(s)
  {
    map id | id in ids && id in s.pods :: StepOf(s, id, env, now)
  }

  /** A sequential pass: each pod steps from the state the previous one left. */
  ghost function Sequential(s: State, ids: seq<PodId>, env: Environment, now: nat): State {
    if ids == [] then s
    else
      var t := Sequential(s, ids[..|ids| - 1], env, now);
      var last := ids[|ids| - 1];
      if last in t.pods && Ready(t) then Install(t, last, StepOf(t, last, env, now)) else t
  }

  lemma NoSteps(pods: Pods, pending: map<PodId, Text>, ledgers: Ledgers)
    ensures Moved(pods, map[]) == pods
    ensures Ending(pods, map[]) == map[]
    ensures Pending(pending, map[]) == pending
    ensures Extended(ledgers, map[]) == ledgers
  {
  }

  lemma {:induction false} AppliedNothing(s: State)
    requires |TombstonesOf(s.pods)| <= MAX_TERMINAL_TOMBSTONES
    ensures Applied(s, map[], []) == s
  {
    NoSteps(s.pods, s.pending, s.ledgers);
    PruneNothing(s.pods, MAX_TERMINAL_TOMBSTONES);
  }

  lemma OrderPrefix(s: State, ids: seq<PodId>, env: Environment, now: nat)
    requires Ready(s) && Order(s, ids, now) && ids != []
    ensures
      var front := ids[..|ids| - 1];
      var last := ids[|ids| - 1];
      && Order(s, front, now) && last !in front
      && last in s.pods && !s.pods[last].Terminal() && last !in StepsFor(s, front, env, now)
      && StepsFor(s, ids, env, now) == StepsFor(s, front, env, now)[last := StepOf(s, last, env, now)]
  {
    var front := ids[..|ids| - 1];
    var last := ids[|ids| - 1];
    assert ids == front + [last];
    assert last in ids;
  }

  lemma StepInstallable(s: State, id: PodId, env: Environment, now: nat)
    requires Inv(s) && Ready(s) && id in s.pods && !s.pods[id].Terminal()
    ensures Installable(s, id, StepOf(s, id, env, now))
  {
    assert InvAt(s, id);
    StepKeepsSane(Begin(s, id), env(id), now);
    StepFrame(Begin(s, id), env(id), now);
  }

  /** A sequential pass in any order is the closed form, and keeps the invariant and the accounts. */
  lemma {:induction false} SequentialIsApplied(s: State, ids: seq<PodId>, env: Environment, now: nat)
    requires Inv(s) && Ready(s) && Order(s, ids, now)
    ensures Sequential(s, ids, env, now) == Applied(s, StepsFor(s, ids, env, now), ids)
    ensures Inv(Sequential(s, ids, env, now))
    ensures Exact(s) ==> Exact(Sequential(s, ids, env, now))
  {
    if ids == [] {
      AppliedNothing(s);
      assert StepsFor(s, ids, env, now) == map[];
    } else {
      var front := ids[..|ids| - 1];
      var last := ids[|ids| - 1];
      assert ids == front + [last];
      OrderPrefix(s, ids, env, now);
      SequentialIsApplied(s, front, env, now);
      SequentialStep(s, front, last, env, now);
    }
  }

  lemma {:induction false} SequentialStep(s: State, front: seq<PodId>, last: PodId, env: Environment, now: nat)
    requires Inv(s) && Ready(s)
    requires last in s.pods && last !in front && !s.pods[last].Terminal()
    requires last !in StepsFor(s, front, env, now)
    requires Sequential(s, front, env, now) == Applied(s, StepsFor(s, front, env, now), front)
    requires Inv(Sequential(s, front, env, now))
    ensures
      var t := Sequential(s, front, env, now);
      && last in t.pods && Ready(t)
      && Install(t, last, StepOf(t, last, env, now)) ==
         Applied(s, StepsFor(s, front, env, now)[last := StepOf(s, last, env, now)], front + [last])
      && Inv(Install(t, last, StepOf(t, last, env, now)))
      && (Exact(t) ==> Exact(Install(t, last, StepOf(t, last, env, now))))
  {
    var t := Sequential(s, front, env, now);
    var steps := StepsFor(s, front, env, now);
    assert InvAt(s, last);
    NotYet(s, steps, front, last);
    InvReady(t);
    AppliedStep(s, steps, front, last, StepOf(s, last, env, now));
    StepInstallable(t, last, env, now);
    InstallKeepsInv(t, last, StepOf(t, last, env, now));
    if Exact(t) {
      InstallKeepsExact(t, last, StepOf(t, last, env, now));
    }
  }

  /** Apart from the order of the messages, the order of a pass does not matter. */
  lemma {:induction false} PassOrderIrrelevant(s: State, a: seq<PodId>, b: seq<PodId>, env: Environment, now: nat)
    requires Inv(s) && Ready(s) && Order(s, a, now) && Order(s, b, now)
    requires forall id :: id in a <==> id in b
    ensures Sequential(s, a, env, now).(sent := []) == Sequential(s, b, env, now).(sent := [])
  {
    assert StepsFor(s, a, env, now) == StepsFor(s, b, env, now);
    SequentialIsApplied(s, a, env, now);
    SequentialIsApplied(s, b, env, now);
  }

  lemma PassOrderElements(s: State, env: Environment, now: nat, id: PodId)
    ensures id in PassOrder(s, env, now) <==> id in s.pods && !Idle(s.pods[id], now)
  {
    var keys := Enumerate(PassKeys(s, env, now));
    var ids := PassOrder(s, env, now);
    if id in ids {
      var i :| 0 <= i < |ids| && ids[i] == id;
      assert keys[i] in keys;
    }
    if id in s.pods && !Idle(s.pods[id], now) {
      var k := (Class(s.pods[id], env(id), now), id);
      assert k in PassKeys(s, env, now);
      var i :| 0 <= i < |keys| && keys[i] == k;
      assert ids[i] == id;
    }
  }

  /** Each pod has at most one place in a pass. */
  lemma PassOrderDistinct(s: State, env: Environment, now: nat)
    ensures Distinct(PassOrder(s, env, now))
  {
    var keys := Enumerate(PassKeys(s, env, now));
    forall i, j | 0 <= i < j < |keys|
      ensures keys[i].1 != keys[j].1
    {
      assert Less(keys[i], keys[j]);
      assert keys[i] in keys && keys[j] in keys;
    }
  }

  lemma PassOrderIsOrder(s: State, env: Environment, now: nat)
    requires Ready(s)
    ensures Order(s, PassOrder(s, env, now), now)
    ensures StepsFor(s, PassOrder(s, env, now), env, now) == PassSteps(s, env, now)
  {
    PassOrderDistinct(s, env, now);
    forall id: PodId
      ensures id in PassOrder(s, env, now) <==> id in s.pods && !Idle(s.pods[id], now)
    {
      PassOrderElements(s, env, now, id);
    }
  }

  /** The lifecycle pass is a sequential pass, and keeps the invariant and the accounts. */
  lemma DriveIsSequential(s: State, env: Environment, now: nat)
    requires Inv(s) && Ready(s)
    ensures Drive(s, env, now) == Sequential(s, PassOrder(s, env, now), env, now)
    ensures Inv(Drive(s, env, now))
    ensures Exact(s) ==> Exact(Drive(s, env, now))
  {
    PassOrderIsOrder(s, env, now);
    SequentialIsApplied(s, PassOrder(s, env, now), env, now);
  }

  lemma OrderExtends(s: State, done: seq<PodId>, id: PodId, now: nat)
    requires Order(s, done, now) && id in s.pods && !Idle(s.pods[id], now) && id !in done
    ensures Order(s, done + [id], now)
  {
  }

  /** A pod that has not stepped is as it was before the pass. */
  lemma {:induction false} StillToStep(s: State, done: seq<PodId>, id: PodId, env: Environment, now: nat)
    requires Inv(s) && Ready(s) && Order(s, done, now)
    requires id in s.pods && !s.pods[id].Terminal() && id !in done
    ensures id in Sequential(s, done, env, now).pods && Sequential(s, done, env, now).pods[id] == s.pods[id]
    ensures Inv(Sequential(s, done, env, now))
  {
    SequentialIsApplied(s, done, env, now);
    assert InvAt(s, id);
    NotYet(s, StepsFor(s, done, env, now), done, id);
    assert Begin(Sequential(s, done, env, now), id).pod == Begin(s, id).pod;
  }

  /** One more pod of a pass: it is still as it was, and its step extends the pass. */
  lemma {:induction false} SequentialExtends(s: State, done: seq<PodId>, id: PodId, env: Environment, now: nat)
    requires Inv(s) && Ready(s) && Order(s, done, now)
    requires id in s.pods && !Idle(s.pods[id], now) && id !in done
    ensures Order(s, done + [id], now)
    ensures
      var t := Sequential(s, done, env, now);
      && id in t.pods && Inv(t) && Ready(t) && t.pods[id] == s.pods[id]
      && Sequential(s, done + [id], env, now) == Install(t, id, PodStep(Begin(t, id), env(id), now))
  {
    var more := done + [id];
    assert more[..|more| - 1] == done;
    OrderExtends(s, done, id, now);
    StillToStep(s, done, id, env, now);
    InvReady(Sequential(s, done, env, now));
  }

  /** A snapshot lists every pod once, in id order. */
  lemma SnapshotIsOrder(pods: Pods)
    ensures Distinct(Snapshot(pods)) && forall id :: id in Snapshot(pods) <==> id in pods
    ensures forall i, j | 0 <= i < j < |Snapshot(pods)| :: Snapshot(pods)[i] < Snapshot(pods)[j]
  {
    var keys := Enumerate(set id | id in pods :: (0, id));
    var ids := Snapshot(pods);
    forall id: PodId
      ensures id in ids <==> id in pods
    {
      if id in ids {
        var i :| 0 <= i < |ids| && ids[i] == id;
        assert keys[i] in keys;
      }
      if id in pods {
        assert (0, id) in keys;
        var i :| 0 <= i < |keys| && keys[i] == (0, id);
        assert ids[i] == id;
      }
    }
    forall i, j | 0 <= i < j < |ids|
      ensures ids[i] < ids[j]
    {
      assert Less(keys[i], keys[j]);
      assert keys[i] in keys && keys[j] in keys;
    }
  }
}
