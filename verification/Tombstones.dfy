/**
 Pruning of terminal pods. The source sorts the tombstones by (change tick, id) and drops the
 oldest surplus; here a tombstone goes exactly when at least `limit` tombstones are newer.
 */
module Tombstones {
  import opened Ordering
  import opened Lifecycle

  const MAX_TRACKED_PODS: nat := 4096
  const MAX_TERMINAL_TOMBSTONES: nat := 1024

  type Pods = map<PodId, Pod>

  function Age(pods: Pods, id: PodId): Key
    requires id in pods
  {
    (pods[id].changedAt, id)
  }

  function TombstonesOf(pods: Pods): set<PodId> {
    set id | id in pods && pods[id].Terminal()
  }

  /** The tombstones younger than the given pod. */
  function Newer(pods: Pods, id: PodId): set<PodId>
    requires id in pods
  {
    set j | j in pods && pods[j].Terminal() && Less(Age(pods, id), Age(pods, j))
  }

  predicate Kept(pods: Pods, limit: nat, id: PodId)
    requires id in pods
  {
    pods[id].Terminal() ==> |Newer(pods, id)| < limit
  }

  function Prune(pods: Pods, limit: nat): (kept: Pods)
    ensures kept.Keys <= pods.Keys
    ensures forall id | id in kept :: kept[id] == pods[id]
  {
    map id | id in pods && Kept(pods, limit, id) :: pods[id]
  }

  lemma CardSubset<T>(a: set<T>, b: set<T>)
    requires a <= b
    ensures |a| <= |b|
  {
    assert b == a + (b - a);
  }

  /** The oldest of a nonempty set of tracked ids. */
  lemma OldestExists(pods: Pods, ids: set<PodId>) returns (oldest: PodId)
    requires ids != {} && ids <= pods.Keys
    ensures oldest in ids
    ensures forall j | j in ids && j != oldest :: Less(Age(pods, oldest), Age(pods, j))
  {
    var keys := set j | j in ids :: Age(pods, j);
    var one :| one in ids;
    assert Age(pods, one) in keys;
    LeastExists(keys);
    var m :| IsLeast(m, keys);
    oldest :| oldest in ids && Age(pods, oldest) == m;
    forall j | j in ids && j != oldest
      ensures Less(Age(pods, oldest), Age(pods, j))
    {
      assert Age(pods, j) in keys;
    }
  }

  /** At most `limit` tombstones survive. */
  lemma PruneBounds(pods: Pods, limit: nat)
    ensures |TombstonesOf(Prune(pods, limit))| <= limit
  {
    var left := TombstonesOf(Prune(pods, limit));
    if left != {} {
      var oldest := OldestExists(pods, left);
      assert left - {oldest} <= Newer(pods, oldest);
      CardSubset(left - {oldest}, Newer(pods, oldest));
    }
  }

  /** Nothing is dropped while the tombstones fit. */
  lemma PruneNothing(pods: Pods, limit: nat)
    requires |TombstonesOf(pods)| <= limit
    ensures Prune(pods, limit) == pods
  {
    forall id | id in pods && pods[id].Terminal()
      ensures |Newer(pods, id)| < limit
    {
      assert Newer(pods, id) <= TombstonesOf(pods) - {id};
      CardSubset(Newer(pods, id), TombstonesOf(pods) - {id});
    }
  }

  /** Exactly the oldest tombstones go: whatever is dropped is older than whatever is kept. */
  lemma PruneDropsOldest(pods: Pods, limit: nat, gone: PodId, left: PodId)
    requires gone in pods && gone !in Prune(pods, limit)
    requires left in Prune(pods, limit) && pods[left].Terminal()
    ensures pods[gone].Terminal() && Less(Age(pods, gone), Age(pods, left))
  {
    if !Less(Age(pods, gone), Age(pods, left)) {
      assert Newer(pods, gone) <= Newer(pods, left);
      CardSubset(Newer(pods, gone), Newer(pods, left));
    }
  }

  /** Pruning early loses nothing: adding a tombstone to a pruned map and pruning again gives
      what pruning once at the end gives. */
  lemma PruneStream(pods: Pods, limit: nat, id: PodId, pod: Pod)
    requires pod.Terminal()
    requires id in pods ==> !pods[id].Terminal()
    ensures Prune(Prune(pods, limit)[id := pod], limit) == Prune(pods[id := pod], limit)
  {
    var early := Prune(pods, limit)[id := pod];
    var all := pods[id := pod];
    forall j
      ensures j in Prune(early, limit) <==> j in Prune(all, limit)
    {
      if j in early {
        SurvivorsSeeTheSame(pods, limit, id, pod, j);
      } else if j in all {
        DroppedStayDropped(pods, limit, id, pod, j);
      }
    }
    SameMap(Prune(early, limit), Prune(all, limit), all);
  }

  lemma SameMap(a: Pods, b: Pods, c: Pods)
    requires forall j :: j in a <==> j in b
    requires forall j | j in a :: j in c && a[j] == c[j]
    requires forall j | j in b :: j in c && b[j] == c[j]
    ensures a == b
  {
  }

  lemma DroppedStayDropped(pods: Pods, limit: nat, id: PodId, pod: Pod, j: PodId)
    requires pod.Terminal()
    requires id in pods ==> !pods[id].Terminal()
    requires j in pods && j != id && j !in Prune(pods, limit)
    ensures j !in Prune(pods[id := pod], limit)
  {
    var all := pods[id := pod];
    assert Newer(pods, j) <= Newer(all, j);
    CardSubset(Newer(pods, j), Newer(all, j));
  }

  /** A pod that survived the first pruning has the same newer tombstones either way. */
  lemma SurvivorsSeeTheSame(pods: Pods, limit: nat, id: PodId, pod: Pod, j: PodId)
    requires pod.Terminal()
    requires id in pods ==> !pods[id].Terminal()
    requires j in Prune(pods, limit)[id := pod]
    ensures Kept(Prune(pods, limit)[id := pod], limit, j) <==> Kept(pods[id := pod], limit, j)
  {
    var early := Prune(pods, limit)[id := pod];
    var all := pods[id := pod];
    if all[j].Terminal() {
      assert Newer(early, j) <= Newer(all, j);
      if j != id {
        forall k | k in Newer(all, j)
          ensures k in Newer(early, j)
        {
          if k != id && k !in Prune(pods, limit) {
            PruneDropsOldest(pods, limit, k, j);
          }
        }
        assert Newer(early, j) == Newer(all, j);
      } else if |Newer(all, j)| < limit {
        CardSubset(Newer(early, j), Newer(all, j));
      } else {
        NewcomerOutranked(pods, limit, id, pod);
      }
    }
  }

  /** If `limit` tombstones are newer than the newcomer, the first pruning kept `limit` of them. */
  lemma NewcomerOutranked(pods: Pods, limit: nat, id: PodId, pod: Pod)
    requires pod.Terminal()
    requires id in pods ==> !pods[id].Terminal()
    requires |Newer(pods[id := pod], id)| >= limit
    ensures |Newer(Prune(pods, limit)[id := pod], id)| >= limit
  {
    var left := Newer(Prune(pods, limit)[id := pod], id);
    var wanted := Newer(pods[id := pod], id);
    if |left| < limit {
      var dropped := wanted - left;
      assert dropped != {} by {
        if dropped == {} {
          assert forall k | k in wanted :: k in left || k in dropped;
          CardSubset(wanted, left);
        }
      }
      var top := YoungestExists(pods, dropped);
      OnlySurvivorsAbove(pods, limit, id, pod, top);
      CardSubset(Newer(pods, top), left);
    }
  }

  /** The youngest dropped tombstone had only survivors above it. */
  lemma OnlySurvivorsAbove(pods: Pods, limit: nat, id: PodId, pod: Pod, top: PodId)
    requires pod.Terminal()
    requires id in pods ==> !pods[id].Terminal()
    requires top in pods && top in Newer(pods[id := pod], id)
    requires forall j | j in Newer(pods[id := pod], id) && j !in Newer(Prune(pods, limit)[id := pod], id) && j != top ::
               j in pods && Less(Age(pods, j), Age(pods, top))
    ensures Newer(pods, top) <= Newer(Prune(pods, limit)[id := pod], id)
  {
    forall k | k in Newer(pods, top)
      ensures k in Newer(Prune(pods, limit)[id := pod], id)
    {
      assert k in Newer(pods[id := pod], id);
    }
  }

  lemma {:induction false} YoungestExists(pods: Pods, ids: set<PodId>) returns (youngest: PodId)
    requires ids != {} && ids <= pods.Keys
    ensures youngest in ids
    ensures forall j | j in ids && j != youngest :: Less(Age(pods, j), Age(pods, youngest))
    decreases |ids|
  {
    var one :| one in ids;
    var rest := ids - {one};
    if rest == {} {
      youngest := one;
      assert ids == {one};
    } else {
      var y := YoungestExists(pods, rest);
      assert ids == rest + {one};
      youngest := if Less(Age(pods, y), Age(pods, one)) then one else y;
    }
  }
}
