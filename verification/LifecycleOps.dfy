/**
 The operations a lifecycle pass collects, runs on worker threads in bounded chunks, and applies.
 An operation and its result depend on one pod and on that pod's answers only.
 */
module LifecycleOps {
  import opened Basics
  import opened Ordering
  import opened Lifecycle
  import opened WorkerState
  import opened WorkerPass

  datatype Op =
    | Pull(id: PodId, image: Text, auth: Option<PullAuth>)
    | Create(id: PodId, mounts: seq<Text>)
    | Start(id: PodId, handle: Handle)
    | Stop(id: PodId, stopHandle: Option<Handle>, graceMs: int, attemptStop: bool)

  datatype OpResult =
    | PullDone(pull: Outcome<()>)
    | CreateDone(create: Outcome<Text>)
    | StartDone(start: Outcome<()>)
    | StopDone(stop: Outcome<I32>)

  datatype Completion = Completion(op: Op, result: OpResult)

  /** Starts go first, then everything else, by pod id. */
  function OpKey(op: Op): Key {
    (if op.Start? then 1 else 2, op.id)
  }

  /** What a worker thread does with an operation. */
  function Execute(op: Op, a: Answers): OpResult {
    match op
    case Pull(_, _, _) => PullDone(a.pull)
    case Create(_, _) => CreateDone(a.create)
    case Start(_, _) => StartDone(a.start)
    case Stop(_, handle, _, attemptStop) =>
      if handle.None? then StopDone(Ok(0))
      else
        match a.status
        case Ok(StoppedStatus(exitCode)) => StopDone(Ok(exitCode))
        case Ok(_) => StopDone(Err(if attemptStop && a.stop.Err? then a.stop.error
                                   else Ascii("container stop failed: runtime status is not terminal")))
        case Err(e) => StopDone(Err(if attemptStop && a.stop.Err? then a.stop.error else e))
  }

  /** The operation collected for a pod that does not settle early. */
  function OpOf(pod: Pod, a: Answers): Op
    requires !pod.Terminal() && !pod.phase.Running?
    requires pod.phase.Starting? ==> pod.handle.Some?
    requires pod.phase.Creating? && pod.private.juicefsPath != [] ==> a.mount.Ok?
  {
    match pod.phase
    case ImagePulling => Pull(pod.id, pod.service.image, pod.private.auth)
    case Creating => Create(pod.id, if pod.private.juicefsPath == [] then [] else [a.mount.value])
    case Starting => Start(pod.id, pod.handle.value)
    case Stopping => Stop(pod.id, pod.handle, pod.graceMs, pod.failures < STOP_ATTEMPT_MAX)
  }

  predicate Collected(pod: Pod, a: Answers, now: nat) {
    !Idle(pod, now) && !Early(pod, a, now)
  }

  /** The operation collected for a pod. */
  predicate IsOpOf(op: Op, pod: Pod, a: Answers) {
    && !pod.Terminal() && !pod.phase.Running?
    && (pod.phase.Starting? ==> pod.handle.Some?)
    && (pod.phase.Creating? && pod.private.juicefsPath != [] ==> a.mount.Ok?)
    && op == OpOf(pod, a)
  }

  /** At most this many operations run at once, given the first of a chunk. */
  function PhaseConcurrency(op: Op, concurrency: int): int {
    if op.Start? then (if concurrency < 1 then 1 else concurrency)
    else Min(if concurrency * 4 < 1 then 1 else concurrency * 4, 32)
  }

  function Flatten(chunks: seq<seq<Op>>): seq<Op> {
    if chunks == [] then [] else Flatten(chunks[..|chunks| - 1]) + chunks[|chunks| - 1]
  }

  function Starts(ops: seq<Op>): int {
    if ops == [] then 0 else Starts(ops[..|ops| - 1]) + if ops[|ops| - 1].Start? then 1 else 0
  }

  predicate StartsFirst(ops: seq<Op>) {
    forall i, j | 0 <= i < j < |ops| :: ops[j].Start? ==> ops[i].Start?
  }

  lemma {:induction false} StartsAtMost(ops: seq<Op>)
    ensures 0 <= Starts(ops) <= |ops|
    ensures (forall i | 0 <= i < |ops| :: !ops[i].Start?) ==> Starts(ops) == 0
  {
    if ops != [] {
      StartsAtMost(ops[..|ops| - 1]);
    }
  }

  predicate BoundedChunk(chunk: seq<Op>, concurrency: int) {
    1 <= |chunk| <= 32 && Starts(chunk) <= concurrency
  }

  /** Every operation with its result. */
  function Completed(ops: seq<Op>, env: Environment): (completions: seq<Completion>)
    ensures |completions| == |ops|
    ensures forall i | 0 <= i < |ops| :: completions[i] == Completion(ops[i], Execute(ops[i], env(ops[i].id)))
  {
    seq(|ops|, i requires 0 <= i < |ops| => Completion(ops[i], Execute(ops[i], env(ops[i].id))))
  }

  lemma CompletedBoth(a: seq<Op>, b: seq<Op>, env: Environment)
    ensures Completed(a + b, env) == Completed(a, env) + Completed(b, env)
  {
  }

  lemma {:induction false} FlattenMore(chunks: seq<seq<Op>>, chunk: seq<Op>)
    ensures Flatten(chunks + [chunk]) == Flatten(chunks) + chunk
  {
    assert (chunks + [chunk])[..|chunks|] == chunks;
  }

  /** The threads of one chunk are joined in order. */
  method RunChunk(chunk: seq<Op>, env: Environment) returns (completions: seq<Completion>)
    ensures completions == Completed(chunk, env)
  {
    completions := [];
    for i := 0 to |chunk|
      invariant completions == Completed(chunk[..i], env)
    {
      assert chunk[..i + 1] == chunk[..i] + [chunk[i]];
      CompletedBoth(chunk[..i], [chunk[i]], env);
      completions := completions + [Completion(chunk[i], Execute(chunk[i], env(chunk[i].id)))];
    }
    assert chunk[..|chunk|] == chunk;
  }

  /** The operations from `offset` on that run together. */
  method NextChunk(ops: seq<Op>, offset: nat, concurrency: int) returns (end: nat)
    requires 1 <= concurrency <= 32 && StartsFirst(ops) && offset < |ops|
    ensures offset < end <= |ops| && BoundedChunk(ops[offset..end], concurrency)
    ensures end == Min(offset + PhaseConcurrency(ops[offset], concurrency), |ops|)
  {
    end := Min(offset + PhaseConcurrency(ops[offset], concurrency), |ops|);
    var chunk := ops[offset..end];
    StartsAtMost(chunk);
    if !ops[offset].Start? {
      forall i | 0 <= i < |chunk|
        ensures !chunk[i].Start?
      {
        assert chunk[i] == ops[offset + i];
      }
    }
  }

  /** Runs every operation exactly once, in order, in chunks of at most 32 operations of which at
      most `concurrency` are starts. */
  method ExecuteInChunks(ops: seq<Op>, env: Environment, concurrency: int)
    returns (completions: seq<Completion>, chunks: seq<seq<Op>>)
    requires 1 <= concurrency <= 32 && StartsFirst(ops)
    ensures completions == Completed(ops, env)
    ensures Flatten(chunks) == ops
    ensures forall k | 0 <= k < |chunks| :: BoundedChunk(chunks[k], concurrency)
  {
    completions, chunks := [], [];
    var offset := 0;
    while offset < |ops|
      invariant 0 <= offset <= |ops|
      invariant completions == Completed(ops[..offset], env)
      invariant Flatten(chunks) == ops[..offset]
      invariant forall k | 0 <= k < |chunks| :: BoundedChunk(chunks[k], concurrency)
    {
      var end := NextChunk(ops, offset, concurrency);
      var chunk := ops[offset..end];
      var joined := RunChunk(chunk, env);
      assert ops[..end] == ops[..offset] + chunk;
      CompletedBoth(ops[..offset], chunk, env);
      FlattenMore(chunks, chunk);
      completions := completions + joined;
      chunks := chunks + [chunk];
      offset := end;
    }
    assert ops[..offset] == ops;
  }

  // -- What the collection loop gathers --

  function OpIds(ops: seq<Op>): (ids: seq<PodId>)
    ensures |ids| == |ops|
    ensures forall i | 0 <= i < |ops| :: ids[i] == ops[i].id
  {
    seq(|ops|, i requires 0 <= i < |ops| => ops[i].id)
  }

  predicate Increasing(ids: seq<PodId>) {
    forall i, j | 0 <= i < j < |ids| :: ids[i] < ids[j]
  }

  /** The pods of `ids` that settle early, in id order. */
  ghost predicate EarlyAmong(s: State, ids: seq<PodId>, early: seq<PodId>, env: Environment, now: nat) {
    && Increasing(early)
    && forall id :: id in early <==> id in ids && id in s.pods && Early(s.pods[id], env(id), now)
  }

  /** One operation for each pod of `ids` that must run one. */
  ghost predicate OpsAmong(s: State, ids: seq<PodId>, ops: seq<Op>, env: Environment, now: nat) {
    && Distinct(OpIds(ops))
    && (forall op | op in ops :: op.id in s.pods && Collected(s.pods[op.id], env(op.id), now)
                                 && IsOpOf(op, s.pods[op.id], env(op.id)))
    && (forall id :: id in OpIds(ops) <==> id in ids && id in s.pods && Collected(s.pods[id], env(id), now))
  }

  lemma OpIdsExtend(ops: seq<Op>, op: Op)
    ensures OpIds(ops + [op]) == OpIds(ops) + [op.id]
  {
  }

  lemma EarlyExtends(s: State, ids: seq<PodId>, early: seq<PodId>, id: PodId, env: Environment, now: nat)
    requires EarlyAmong(s, ids, early, env, now) && Increasing(ids + [id]) && id in s.pods
    ensures EarlyAmong(s, ids + [id], if Early(s.pods[id], env(id), now) then early + [id] else early, env, now)
  {
    forall j | j in ids
      ensures j < id
    {
      var i :| 0 <= i < |ids| && ids[i] == j;
      assert (ids + [id])[i] == j && (ids + [id])[|ids|] == id;
    }
    forall i | 0 <= i < |early|
      ensures early[i] < id
    {
      assert early[i] in early;
    }
  }

  lemma OpsExtend(s: State, ids: seq<PodId>, ops: seq<Op>, id: PodId, op: Option<Op>, env: Environment, now: nat)
    requires OpsAmong(s, ids, ops, env, now) && id !in ids && id in s.pods
    requires op.Some? <==> Collected(s.pods[id], env(id), now)
    requires op.Some? ==> IsOpOf(op.value, s.pods[id], env(id)) && op.value.id == id
    ensures OpsAmong(s, ids + [id], if op.Some? then ops + [op.value] else ops, env, now)
  {
    if op.Some? {
      OpIdsExtend(ops, op.value);
      assert id !in OpIds(ops);
    }
  }

  // -- The order of a pass --

  function PlaceKeys(s: State, order: seq<PodId>, env: Environment, now: nat): (keys: seq<Key>)
    requires forall id | id in order :: id in s.pods
    ensures |keys| == |order|
  {
    seq(|order|, i requires 0 <= i < |order| => (Class(s.pods[order[i]], env(order[i]), now), order[i]))
  }

  lemma OpClass(op: Op, s: State, env: Environment, now: nat)
    requires op.id in s.pods && Collected(s.pods[op.id], env(op.id), now) && IsOpOf(op, s.pods[op.id], env(op.id))
    ensures OpKey(op) == (Class(s.pods[op.id], env(op.id), now), op.id)
  {
  }

  /** Settling the early pods and then running the sorted operations follows the order of a pass. */
  lemma PlacesAscend(s: State, early: seq<PodId>, ops: seq<Op>, env: Environment, now: nat)
    requires EarlyAmong(s, Snapshot(s.pods), early, env, now) && OpsAmong(s, Snapshot(s.pods), ops, env, now)
    requires Ascending(KeysOf(ops, OpKey))
    ensures forall id | id in early + OpIds(ops) :: id in s.pods
    ensures Ascending(PlaceKeys(s, early + OpIds(ops), env, now))
  {
    var order := early + OpIds(ops);
    var keys := PlaceKeys(s, order, env, now);
    forall i | 0 <= i < |order|
      ensures i < |early| ==> keys[i] == (0, order[i])
      ensures i >= |early| ==> keys[i] == KeysOf(ops, OpKey)[i - |early|] && keys[i].0 > 0
    {
      if i < |early| {
        assert order[i] == early[i] && early[i] in early;
      } else {
        assert ops[i - |early|] in ops;
        OpClass(ops[i - |early|], s, env, now);
      }
    }
    forall i, j | 0 <= i < j < |keys|
      ensures Less(keys[i], keys[j])
    {
      if j < |early| {
        assert early[i] < early[j];
      } else if i >= |early| {
        assert Less(KeysOf(ops, OpKey)[i - |early|], KeysOf(ops, OpKey)[j - |early|]);
      }
    }
  }

  lemma PlaceKeyOf(s: State, order: seq<PodId>, env: Environment, now: nat, id: PodId)
    requires (forall j | j in order :: j in s.pods) && id in order
    ensures (Class(s.pods[id], env(id), now), id) in PlaceKeys(s, order, env, now)
  {
    var i :| 0 <= i < |order| && order[i] == id;
    assert PlaceKeys(s, order, env, now)[i] == (Class(s.pods[id], env(id), now), id);
  }

  lemma EveryoneHasAPlace(s: State, early: seq<PodId>, ops: seq<Op>, env: Environment, now: nat, id: PodId)
    requires EarlyAmong(s, Snapshot(s.pods), early, env, now) && OpsAmong(s, Snapshot(s.pods), ops, env, now)
    ensures id in early + OpIds(ops) <==> id in s.pods && !Idle(s.pods[id], now)
  {
    SnapshotIsOrder(s.pods);
  }

  lemma PlaceIsKey(s: State, order: seq<PodId>, env: Environment, now: nat, k: Key)
    requires forall id | id in order :: id in s.pods && !Idle(s.pods[id], now)
    requires k in PlaceKeys(s, order, env, now)
    ensures k in PassKeys(s, env, now)
  {
    var i :| 0 <= i < |order| && PlaceKeys(s, order, env, now)[i] == k;
    assert order[i] in order;
  }

  lemma KeyHasPlace(s: State, order: seq<PodId>, env: Environment, now: nat, k: Key)
    requires (forall id | id in order :: id in s.pods) && forall id | id in s.pods && !Idle(s.pods[id], now) :: id in order
    requires k in PassKeys(s, env, now)
    ensures k in PlaceKeys(s, order, env, now)
  {
    var id: PodId :| id in s.pods && !Idle(s.pods[id], now) && k == (Class(s.pods[id], env(id), now), id);
    PlaceKeyOf(s, order, env, now, id);
  }

  lemma PlacesCover(s: State, early: seq<PodId>, ops: seq<Op>, env: Environment, now: nat, k: Key)
    requires EarlyAmong(s, Snapshot(s.pods), early, env, now) && OpsAmong(s, Snapshot(s.pods), ops, env, now)
    requires forall id | id in early + OpIds(ops) :: id in s.pods
    ensures k in PlaceKeys(s, early + OpIds(ops), env, now) <==> k in PassKeys(s, env, now)
  {
    var order := early + OpIds(ops);
    forall id
      ensures id in order <==> id in s.pods && !Idle(s.pods[id], now)
    {
      EveryoneHasAPlace(s, early, ops, env, now, id);
    }
    if k in PlaceKeys(s, order, env, now) {
      PlaceIsKey(s, order, env, now, k);
    }
    if k in PassKeys(s, env, now) {
      KeyHasPlace(s, order, env, now, k);
    }
  }

  lemma CollectedOrder(s: State, early: seq<PodId>, ops: seq<Op>, env: Environment, now: nat)
    requires EarlyAmong(s, Snapshot(s.pods), early, env, now) && OpsAmong(s, Snapshot(s.pods), ops, env, now)
    requires Ascending(KeysOf(ops, OpKey))
    ensures early + OpIds(ops) == PassOrder(s, env, now)
  {
    PlacesAscend(s, early, ops, env, now);
    var order := early + OpIds(ops);
    var keys := PlaceKeys(s, order, env, now);
    forall k
      ensures k in keys <==> k in Enumerate(PassKeys(s, env, now))
    {
      PlacesCover(s, early, ops, env, now, k);
    }
    AscendingUnique(keys, Enumerate(PassKeys(s, env, now)));
    PlaceIds(s, order, env, now);
  }

  lemma PlaceIds(s: State, order: seq<PodId>, env: Environment, now: nat)
    requires forall id | id in order :: id in s.pods
    ensures forall k | k in PlaceKeys(s, order, env, now) :: 0 <= k.1 <= U64_MAX
    ensures Ids(PlaceKeys(s, order, env, now)) == order
  {
  }

  lemma SortedStartsFirst(ops: seq<Op>)
    requires Ascending(KeysOf(ops, OpKey))
    ensures StartsFirst(ops)
  {
    forall i, j | 0 <= i < j < |ops|
      ensures ops[j].Start? ==> ops[i].Start?
    {
      assert Less(KeysOf(ops, OpKey)[i], KeysOf(ops, OpKey)[j]);
    }
  }
}
