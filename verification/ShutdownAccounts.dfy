/**
 What shutdown does to the reservation counters. Releases are exact, one per removed live pod; but
 a tombstone whose unmount fails is turned back into a stopping pod after its reservation was
 released, so the accounts stay exact if and only if every such tombstone had reserved nothing.
 */
module ShutdownAccounts {
  import opened Basics
  import opened Lifecycle
  import opened Tombstones
  import opened WorkerState
  import opened Accounting
  import opened WorkerPass
  import opened WorkerEvents

  /** Tracked pods of `t` that were live in `s`. */
  function StillLive(s: State, t: State): Pods {
    map id | id in t.pods && id in s.pods && !s.pods[id].Terminal() :: t.pods[id]
  }

  /** Tracked pods of `t` that were tombstones in `s`. */
  function WereTombstones(s: State, t: State): Pods {
    map id | id in t.pods && id in s.pods && s.pods[id].Terminal() :: t.pods[id]
  }

  function Inside(pods: Pods, part: set<PodId>): Pods {
    map id | id in pods && id in part :: pods[id]
  }

  function Outside(pods: Pods, part: set<PodId>): Pods {
    map id | id in pods && id !in part :: pods[id]
  }

  lemma InsideOutside(pods: Pods, part: set<PodId>, id: PodId)
    requires id in pods
    ensures id in part ==> id in Inside(pods, part) && Inside(pods, part)[id] == pods[id]
    ensures id in part ==> Inside(pods - {id}, part) == Inside(pods, part) - {id}
    ensures id in part ==> Outside(pods - {id}, part) == Outside(pods, part)
    ensures id !in part ==> id in Outside(pods, part) && Outside(pods, part)[id] == pods[id]
    ensures id !in part ==> Outside(pods - {id}, part) == Outside(pods, part) - {id}
    ensures id !in part ==> Inside(pods - {id}, part) == Inside(pods, part)
  {
  }

  lemma {:induction false} ReservedPartition(pods: Pods, part: set<PodId>)
    ensures Reserved(pods) == Reserved(Inside(pods, part)).Plus(Reserved(Outside(pods, part)))
    decreases |pods|
  {
    if pods == map[] {
      assert Inside(pods, part) == map[] && Outside(pods, part) == map[];
      PlusNothing(NOTHING, NOTHING);
    } else {
      var id :| id in pods;
      InsideOutside(pods, part, id);
      ReservedPartition(pods - {id}, part);
      PartitionStep(pods, part, id);
    }
  }

  lemma {:induction false} PartitionStep(pods: Pods, part: set<PodId>, id: PodId)
    requires id in pods
    requires Reserved(pods - {id}) ==
             Reserved(Inside(pods - {id}, part)).Plus(Reserved(Outside(pods - {id}, part)))
    ensures Reserved(pods) == Reserved(Inside(pods, part)).Plus(Reserved(Outside(pods, part)))
  {
    InsideOutside(pods, part, id);
    ReservedSplit(pods, id);
    var l := Reserved(Inside(pods - {id}, part));
    var r := Reserved(Outside(pods - {id}, part));
    if id in part {
      ReservedSplit(Inside(pods, part), id);
      PlusRegroup(Share(pods[id]), l, r);
    } else {
      ReservedSplit(Outside(pods, part), id);
      PlusSwap(Share(pods[id]), l, r);
    }
  }

  lemma PlusRegroup(a: Resources, b: Resources, c: Resources)
    ensures a.Plus(b.Plus(c)) == a.Plus(b).Plus(c)
  {
  }

  lemma {:induction false} ReservedNothing(pods: Pods)
    requires forall id | id in pods :: Share(pods[id]) == NOTHING
    ensures Reserved(pods) == NOTHING
    decreases |pods|
  {
    if pods != map[] {
      var id :| id in pods;
      ReservedSplit(pods, id);
      ReservedNothing(pods - {id});
      PlusNothing(Share(pods[id]), Reserved(pods - {id}));
    }
  }

  lemma {:induction false} ReservedSomething(pods: Pods, id: PodId)
    requires id in pods && Share(pods[id]) != NOTHING
    ensures Reserved(pods) != NOTHING
  {
    ReservedSplit(pods, id);
    PlusIsNothing(Share(pods[id]), Reserved(pods - {id}));
  }

  lemma PlusIsNothing(a: Resources, b: Resources)
    requires NOTHING.Within(a) && NOTHING.Within(b)
    ensures a.Plus(b) == NOTHING <==> a == NOTHING && b == NOTHING
  {
    if a == NOTHING && b == NOTHING {
      assert a.Plus(b) == NOTHING;
    } else {
      assert a.gpu + b.gpu + a.cpu + b.cpu + a.memory + b.memory > 0;
      assert a.Plus(b).gpu + a.Plus(b).cpu + a.Plus(b).memory > 0;
    }
  }

  /** Midway through a shutdown that started in `s`: live pods keep their demand and stay live,
      and the counters are the sum over the live pods that are still tracked. */
  ghost predicate Midway(s: State, t: State) {
    && t.total == s.total
    && t.pods.Keys <= s.pods.Keys
    && (forall id | id in t.pods :: t.pods[id].demand == s.pods[id].demand)
    && (forall id | id in t.pods :: !s.pods[id].Terminal() ==> !t.pods[id].Terminal())
    && t.alloc == Reserved(StillLive(s, t))
    && t.alloc.Within(s.total)
  }

  lemma {:induction false} MidwayStart(s: State)
    requires Exact(s)
    ensures Midway(s, s)
  {
    ReservedIgnoresTombstones(s.pods, StillLive(s, s));
  }

  lemma ShutdownLiveness(r: Step, a: ShutdownAnswers)
    requires r.pod.Terminal() ==> r.pod.handle.None?
    ensures !ShutdownStep(r, a).1 ==> !ShutdownStep(r, a).0.pod.Terminal()
    ensures r.pod.Terminal() ==> ShutdownStep(r, a).1 == a.unmount.Ok?
  {
  }

  lemma {:induction false} MidwayRetain(s: State, t: State, id: PodId, r: Step)
    requires Midway(s, t) && id in t.pods
    requires r.pod.demand == t.pods[id].demand && !r.pod.Terminal()
    ensures Midway(s, Put(t, id, r))
  {
    var u := Put(t, id, r);
    var live := StillLive(s, t);
    if s.pods[id].Terminal() {
      assert StillLive(s, u) == live;
    } else {
      assert StillLive(s, u) == live[id := r.pod];
      ReservedPut(live, id, r.pod);
      PlusCancels(Reserved(live[id := r.pod]), Reserved(live), r.pod.demand);
    }
  }

  lemma {:induction false} StillLiveDrop(s: State, t: State, id: PodId, r: Step)
    requires id in t.pods && id in s.pods
    ensures
      var u := Dropped(t, id, r, Freed(t, t.pods[id]));
      && u.pods == t.pods - {id}
      && StillLive(s, u) == StillLive(s, t) - {id}
  {
    assert Put(t, id, r).pods - {id} == t.pods - {id};
  }

  lemma {:induction false} MidwayDrop(s: State, t: State, id: PodId, r: Step)
    requires Midway(s, t) && id in t.pods
    requires s.pods[id].Terminal() ==> t.pods[id].Terminal()
    ensures Midway(s, Dropped(t, id, r, Freed(t, t.pods[id])))
  {
    var live := StillLive(s, t);
    StillLiveDrop(s, t, id, r);
    if s.pods[id].Terminal() {
      assert live - {id} == live;
    } else {
      ReservedSplit(live, id);
      MinusShare(t.alloc, t.pods[id].demand, Reserved(live - {id}));
    }
  }

  lemma MinusShare(alloc: Amounts, demand: Amounts, rest: Resources)
    requires NOTHING.Within(rest)
    requires alloc == demand.Plus(rest)
    ensures SaturatingMinus(alloc, demand) == rest
    ensures rest.Within(alloc)
  {
  }

  /** A pod that shutdown has not visited is as it was. */
  predicate Unvisited(s: State, t: State, id: PodId)
    requires id in s.pods
  {
    id in t.pods && t.pods[id] == s.pods[id] && Reason(t, id) == Reason(s, id) && LedgerOf(t, id) == LedgerOf(s, id)
  }

  /** A pod that shutdown has visited is gone, or has taken its shutdown step. */
  predicate VisitedOnce(s: State, t: State, id: PodId, a: ShutdownAnswers)
    requires id in s.pods
  {
    && (id in t.pods <==> !ShutdownStep(Begin(s, id), a).1)
    && (id in t.pods ==> t.pods[id] == ShutdownStep(Begin(s, id), a).0.pod)
    && Reason(t, id) == ShutdownStep(Begin(s, id), a).0.reason
    && LedgerOf(t, id) == ShutdownStep(Begin(s, id), a).0.ledger
  }

  /** What becomes of each pod depends on that pod alone. */
  ghost predicate Outcomes(s: State, t: State, ids: seq<PodId>, answers: PodId -> ShutdownAnswers) {
    forall id | id in s.pods :: if id in ids then VisitedOnce(s, t, id, answers(id)) else Unvisited(s, t, id)
  }

  lemma {:induction false} VisitHere(s: State, t: State, id: PodId, a: ShutdownAnswers)
    requires id in s.pods && Unvisited(s, t, id)
    ensures VisitedOnce(s, ShutdownOne(t, id, a), id, a) && Begin(t, id) == Begin(s, id)
  {
    assert Begin(t, id) == Begin(s, id);
  }

  lemma {:induction false} VisitElsewhere(s: State, t: State, id: PodId, a: ShutdownAnswers, j: PodId, b: ShutdownAnswers)
    requires j in s.pods && j != id
    ensures Unvisited(s, t, j) ==> Unvisited(s, ShutdownOne(t, id, a), j)
    ensures VisitedOnce(s, t, j, b) ==> VisitedOnce(s, ShutdownOne(t, id, a), j, b)
  {
  }

  lemma {:induction false} OutcomesStep(s: State, t: State, front: seq<PodId>, last: PodId, answers: PodId -> ShutdownAnswers)
    requires Outcomes(s, t, front, answers) && last !in front && last in s.pods
    ensures Outcomes(s, ShutdownOne(t, last, answers(last)), front + [last], answers)
    ensures last in t.pods && Begin(t, last) == Begin(s, last)
  {
    var u := ShutdownOne(t, last, answers(last));
    assert Unvisited(s, t, last);
    VisitHere(s, t, last, answers(last));
    forall id | id in s.pods
      ensures if id in front + [last] then VisitedOnce(s, u, id, answers(id)) else Unvisited(s, u, id)
    {
      if id != last {
        VisitElsewhere(s, t, last, answers(last), id, answers(id));
      }
    }
  }

  /** From any state, shutdown finds each pod as it was and gives it its own shutdown step, once. */
  lemma {:induction false} ShutdownOutcomes(s: State, ids: seq<PodId>, answers: PodId -> ShutdownAnswers)
    requires Distinct(ids) && forall id | id in ids :: id in s.pods
    ensures Outcomes(s, ShutdownAll(s, ids, answers), ids, answers)
  {
    if ids != [] {
      var front := ids[..|ids| - 1];
      var last := ids[|ids| - 1];
      assert ids == front + [last];
      assert last in ids && last !in front;
      ShutdownOutcomes(s, front, answers);
      OutcomesStep(s, ShutdownAll(s, front, answers), front, last, answers);
    }
  }

  /** The visited part of the snapshot. */
  ghost function Visited(s: State, visits: nat): seq<PodId> {
    var ids := Snapshot(s.pods);
    ids[..Min(visits, |ids|)]
  }

  lemma VisitedIsOrder(s: State, visits: nat)
    ensures Distinct(Visited(s, visits)) && forall id | id in Visited(s, visits) :: id in s.pods
  {
    SnapshotIsOrder(s.pods);
  }

  /** Shutdown finds the next pod as it was when shutdown began. */
  lemma {:induction false} StillAsBefore(s: State, front: seq<PodId>, last: PodId, answers: PodId -> ShutdownAnswers)
    requires Distinct(front + [last]) && forall id | id in front + [last] :: id in s.pods
    ensures Distinct(front) && last !in front && last in ShutdownAll(s, front, answers).pods
    ensures Begin(ShutdownAll(s, front, answers), last) == Begin(s, last)
  {
    var ids := front + [last];
    assert ids[|front|] == last && last in ids;
    forall i | 0 <= i < |front|
      ensures front[i] != last && front[i] in s.pods
    {
      assert ids[i] == front[i] && ids[i] in ids;
    }
    assert Distinct(front) by {
      forall i, j | 0 <= i < j < |front|
        ensures front[i] != front[j]
      {
        assert ids[i] == front[i] && ids[j] == front[j];
      }
    }
    ShutdownOutcomes(s, front, answers);
    OutcomesStep(s, ShutdownAll(s, front, answers), front, last, answers);
  }

  lemma {:induction false} ShutdownMidway(s: State, ids: seq<PodId>, answers: PodId -> ShutdownAnswers)
    requires Inv(s) && Exact(s) && Distinct(ids) && forall id | id in ids :: id in s.pods
    ensures Midway(s, ShutdownAll(s, ids, answers))
  {
    if ids == [] {
      MidwayStart(s);
    } else {
      var front := ids[..|ids| - 1];
      var last := ids[|ids| - 1];
      assert ids == front + [last];
      assert last in ids;
      StillAsBefore(s, front, last, answers);
      ShutdownMidway(s, front, answers);
      MidwayOne(s, ShutdownAll(s, front, answers), last, answers(last));
    }
  }

  lemma {:induction false} MidwayOne(s: State, t: State, id: PodId, a: ShutdownAnswers)
    requires Inv(s) && Midway(s, t) && id in s.pods && id in t.pods && Begin(t, id) == Begin(s, id)
    ensures Midway(s, ShutdownOne(t, id, a))
  {
    var r := Begin(t, id);
    assert InvAt(s, id);
    ShutdownFrame(r, a);
    ShutdownLiveness(r, a);
    if ShutdownStep(r, a).1 {
      MidwayDrop(s, t, id, ShutdownStep(r, a).0);
    } else {
      MidwayRetain(s, t, id, ShutdownStep(r, a).0);
    }
  }

  /** The visited tombstones whose unmount fails. */
  predicate Revived(s: State, ids: seq<PodId>, answers: PodId -> ShutdownAnswers, id: PodId) {
    id in ids && id in s.pods && s.pods[id].Terminal() && answers(id).unmount.Err?
  }

  /** Shutdown keeps exact accounts if and only if no tombstone that had reserved something is
      brought back by a failing unmount. */
  lemma {:induction false} ShutdownExactIff(s: State, ids: seq<PodId>, answers: PodId -> ShutdownAnswers)
    requires Inv(s) && Exact(s) && Distinct(ids) && forall id | id in ids :: id in s.pods
    ensures Exact(ShutdownAll(s, ids, answers)) <==>
            forall id | Revived(s, ids, answers, id) :: s.pods[id].demand == NOTHING
  {
    var t := ShutdownAll(s, ids, answers);
    ShutdownMidway(s, ids, answers);
    ShutdownOutcomes(s, ids, answers);
    var back := WereTombstones(s, t);
    ExactSplit(s, t);
    if forall id | Revived(s, ids, answers, id) :: s.pods[id].demand == NOTHING {
      forall id | id in back
        ensures Share(back[id]) == NOTHING
      {
        RevivedIffLive(s, t, ids, answers, id);
      }
      ReservedNothing(back);
    } else {
      var id :| Revived(s, ids, answers, id) && s.pods[id].demand != NOTHING;
      RevivedIffLive(s, t, ids, answers, id);
      ReservedSomething(back, id);
    }
  }

  /** A tombstone is live again after shutdown exactly when its unmount was tried and failed. */
  lemma {:induction false} RevivedIffLive(s: State, t: State, ids: seq<PodId>, answers: PodId -> ShutdownAnswers, id: PodId)
    requires Inv(s) && Outcomes(s, t, ids, answers)
    requires id in s.pods && s.pods[id].Terminal()
    ensures Revived(s, ids, answers, id) <==> id in t.pods && !t.pods[id].Terminal()
  {
    assert InvAt(s, id);
    ShutdownLiveness(Begin(s, id), answers(id));
  }

  lemma {:induction false} ExactSplit(s: State, t: State)
    requires Midway(s, t)
    ensures Exact(t) <==> Reserved(WereTombstones(s, t)) == NOTHING
  {
    ReservedTwoParts(s, t);
    AddsNothing(Reserved(StillLive(s, t)), Reserved(WereTombstones(s, t)));
  }

  lemma {:induction false} ReservedTwoParts(s: State, t: State)
    requires t.pods.Keys <= s.pods.Keys
    ensures Reserved(t.pods) == Reserved(StillLive(s, t)).Plus(Reserved(WereTombstones(s, t)))
  {
    var part := set id | id in s.pods && !s.pods[id].Terminal();
    assert Inside(t.pods, part) == StillLive(s, t);
    assert Outside(t.pods, part) == WereTombstones(s, t);
    ReservedPartition(t.pods, part);
  }

  lemma AddsNothing(a: Resources, b: Resources)
    requires NOTHING.Within(b)
    ensures a.Plus(b) == a <==> b == NOTHING
  {
    if b == NOTHING {
      assert a.Plus(b) == a;
    } else {
      assert b.gpu + b.cpu + b.memory > 0;
      assert a.Plus(b).gpu + a.Plus(b).cpu + a.Plus(b).memory > a.gpu + a.cpu + a.memory;
    }
  }
}
