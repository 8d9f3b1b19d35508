/** Sums of reservations over the tracked pods. */
module Accounting {
  import opened Lifecycle
  import opened Tombstones
  import opened WorkerState

  lemma {:induction false} PlusSwap(a: Resources, b: Resources, c: Resources)
    ensures a.Plus(b.Plus(c)) == b.Plus(a.Plus(c))
  {
  }

  lemma PlusNothing(a: Resources, b: Resources)
    requires a == NOTHING
    ensures a.Plus(b) == b
  {
  }

  /** The sum can be taken apart at any pod. */
  lemma {:induction false} ReservedSplit(pods: Pods, id: PodId)
    requires id in pods
    ensures Reserved(pods) == Share(pods[id]).Plus(Reserved(pods - {id}))
    decreases |pods|
  {
    var first :| first in pods && Reserved(pods) == Share(pods[first]).Plus(Reserved(pods - {first}));
    if first != id {
      var rest := pods - {first} - {id};
      ReservedSplit(pods - {first}, id);
      ReservedSplit(pods - {id}, first);
      assert pods - {id} - {first} == rest;
      assert Reserved(pods - {first}) == Share(pods[id]).Plus(Reserved(rest));
      assert Reserved(pods - {id}) == Share(pods[first]).Plus(Reserved(rest));
      PlusSwap(Share(pods[first]), Share(pods[id]), Reserved(rest));
    }
  }

  lemma {:induction false} ReservedPut(pods: Pods, id: PodId, pod: Pod)
    ensures id in pods ==>
              Reserved(pods[id := pod]).Plus(Share(pods[id])) == Reserved(pods).Plus(Share(pod))
    ensures id !in pods ==> Reserved(pods[id := pod]) == Reserved(pods).Plus(Share(pod))
  {
    ReservedSplit(pods[id := pod], id);
    assert pods[id := pod] - {id} == pods - {id};
    if id in pods {
      ReservedSplit(pods, id);
    } else {
      assert pods - {id} == pods;
    }
  }

  lemma {:induction false} DropTombstone(pods: Pods, id: PodId)
    requires id in pods && pods[id].Terminal()
    ensures Reserved(pods - {id}) == Reserved(pods)
  {
    ReservedSplit(pods, id);
    PlusNothing(Share(pods[id]), Reserved(pods - {id}));
  }

  /** Tombstones reserve nothing, so dropping some of them leaves the sum unchanged. */
  lemma {:induction false} ReservedIgnoresTombstones(pods: Pods, left: Pods)
    requires forall id | id in left :: id in pods && left[id] == pods[id]
    requires forall id | id in pods && id !in left :: pods[id].Terminal()
    ensures Reserved(left) == Reserved(pods)
    decreases |pods|
  {
    var gone := pods.Keys - left.Keys;
    if gone == {} {
      SameKeys(pods, left);
    } else {
      var id :| id in gone;
      DropTombstone(pods, id);
      ReservedIgnoresTombstones(pods - {id}, left);
    }
  }

  lemma {:induction false} SameKeys(pods: Pods, left: Pods)
    requires forall id | id in left :: id in pods && left[id] == pods[id]
    requires pods.Keys - left.Keys == {}
    ensures left == pods
  {
    forall id | id in pods
      ensures id in left
    {
      assert id !in pods.Keys - left.Keys;
    }
  }

  /** A reservation is part of the sum, so releasing it from an exact counter cannot saturate. */
  lemma {:induction false} ShareWithinReserved(pods: Pods, id: PodId)
    requires id in pods
    ensures Share(pods[id]).Within(Reserved(pods))
  {
    ReservedSplit(pods, id);
  }
}
