/**
 The simulated network between a control plane and its workers: per worker two queues that belong to
 the current session, delivery in order after a delay, at most one replay of a message, partitions,
 and message counters. Random choices are parameters.
 */
module SimNetwork {
  import opened Basics
  import opened Messages
  import opened Wire
  import opened MessageCodec
  import opened AgentCodec

  const QUEUE_CAPACITY: nat := 256

  /** A queued message. The tag numbers the messages a queue has accepted, to tell them apart. */
  datatype Pending<T> = Pending(tag: nat, msg: T, due: nat, epoch: nat, replayed: bool)

  /** A message handed over, with the session and tick at that moment. */
  datatype Delivery<T> = Delivery(pending: Pending<T>, epoch: nat, tick: nat)

  /** One direction between the control plane and one worker. */
  datatype Channel<T> = Channel(queue: seq<Pending<T>>, accepted: nat, epoch: nat, delivered: seq<Delivery<T>>)

  function Capacity(pathMax: nat): nat {
    if pathMax == 0 then QUEUE_CAPACITY else Min(pathMax, QUEUE_CAPACITY)
  }

  // -- What holds of a channel in every run --

  /** How often the message with a tag was delivered. */
  function Count<T>(delivered: seq<Delivery<T>>, tag: nat): nat {
    if delivered == [] then 0
    else
      Count(delivered[..|delivered| - 1], tag) + if delivered[|delivered| - 1].pending.tag == tag then 1 else 0
  }

  /** The tags of the originals in a queue, front to back. */
  function Waiting<T>(queue: seq<Pending<T>>): seq<nat> {
    if queue == [] then []
    else (if queue[0].replayed then [] else [queue[0].tag]) + Waiting(queue[1..])
  }

  /** The tags of the originals delivered, in order. */
  function Arrived<T>(delivered: seq<Delivery<T>>): seq<nat> {
    if delivered == [] then []
    else
      var last := delivered[|delivered| - 1].pending;
      Arrived(delivered[..|delivered| - 1]) + if last.replayed then [] else [last.tag]
  }

  predicate Ascends(tags: seq<nat>) {
    forall i, j | 0 <= i < j < |tags| :: tags[i] < tags[j]
  }

  ghost predicate Tagged<T>(c: Channel<T>) {
    && (forall i | 0 <= i < |c.queue| :: c.queue[i].epoch == c.epoch && c.queue[i].tag < c.accepted)
    && (forall i, j | 0 <= i < j < |c.queue| :: c.queue[i].tag != c.queue[j].tag)
  }

  /** An original in the queue was never delivered, a replay was delivered once, and nothing was
      delivered more than twice. */
  ghost predicate AtMostTwice<T>(c: Channel<T>) {
    && (forall i | 0 <= i < |c.queue| :: Count(c.delivered, c.queue[i].tag) == if c.queue[i].replayed then 1 else 0)
    && (forall tag: nat :: Count(c.delivered, tag) <= 2)
    && (forall tag: nat :: tag >= c.accepted ==> Count(c.delivered, tag) == 0)
  }

  /** Originals arrive in the order in which they were accepted. */
  ghost predicate Fifo<T>(c: Channel<T>) {
    && Ascends(Arrived(c.delivered) + Waiting(c.queue))
    && (forall tag | tag in Arrived(c.delivered) + Waiting(c.queue) :: tag < c.accepted)
  }

  /** Everything was delivered in the session that accepted it, and not before it was due. */
  ghost predicate Timely<T>(c: Channel<T>) {
    forall i | 0 <= i < |c.delivered| ::
      c.delivered[i].pending.epoch == c.delivered[i].epoch && c.delivered[i].pending.due <= c.delivered[i].tick
  }

  ghost predicate Good<T>(c: Channel<T>, capacity: nat) {
    Tagged(c) && AtMostTwice(c) && Fifo(c) && Timely(c) && |c.queue| <= capacity
  }

  // -- What can happen to a channel --

  function Accept<T>(c: Channel<T>, msg: T, due: nat): Channel<T> {
    c.(queue := c.queue + [Pending(c.accepted, msg, due, c.epoch, false)], accepted := c.accepted + 1)
  }

  function Discard<T>(c: Channel<T>): Channel<T> {
    c.(queue := [], epoch := c.epoch + 1)
  }

  function Deliver<T>(c: Channel<T>, now: nat): Channel<T>
    requires c.queue != []
  {
    c.(queue := c.queue[1..], delivered := c.delivered + [Delivery(c.queue[0], c.epoch, now)])
  }

  function Replay<T>(c: Channel<T>, p: Pending<T>, due: nat): Channel<T> {
    c.(queue := c.queue + [Pending(p.tag, p.msg, due, p.epoch, true)])
  }

  /** The channel after its front was delivered and perhaps queued once more. */
  function Popped<T>(c: Channel<T>, now: nat, replay: bool, minDelay: nat, capacity: nat): Channel<T>
    requires c.queue != []
  {
    var after := Deliver(c, now);
    if !c.queue[0].replayed && replay && |after.queue| < capacity
    then Replay(after, c.queue[0], now + if minDelay > 1 then minDelay else 1)
    else after
  }

  lemma CountMore<T>(delivered: seq<Delivery<T>>, d: Delivery<T>, tag: nat)
    ensures Count(delivered + [d], tag) == Count(delivered, tag) + if d.pending.tag == tag then 1 else 0
  {
    assert (delivered + [d])[..|delivered|] == delivered;
  }

  lemma {:induction false} WaitingMore<T>(queue: seq<Pending<T>>, p: Pending<T>)
    ensures Waiting(queue + [p]) == Waiting(queue) + if p.replayed then [] else [p.tag]
  {
    if queue == [] {
      assert queue + [p] == [p];
      assert [p][1..] == [];
    } else {
      assert (queue + [p])[1..] == queue[1..] + [p];
      WaitingMore(queue[1..], p);
    }
  }

  lemma ArrivedMore<T>(delivered: seq<Delivery<T>>, d: Delivery<T>)
    ensures Arrived(delivered + [d]) == Arrived(delivered) + if d.pending.replayed then [] else [d.pending.tag]
  {
    assert (delivered + [d])[..|delivered|] == delivered;
  }

  lemma {:induction false} AcceptKeepsOrder<T>(c: Channel<T>, msg: T, due: nat)
    requires Fifo(c)
    ensures Fifo(Accept(c, msg, due))
  {
    WaitingMore(c.queue, Pending(c.accepted, msg, due, c.epoch, false));
    var tags := Arrived(c.delivered) + Waiting(c.queue);
    assert Arrived(c.delivered) + (Waiting(c.queue) + [c.accepted]) == tags + [c.accepted];
    AscendsMore(tags, c.accepted);
    assert forall t | t in tags + [c.accepted] :: t in tags || t == c.accepted;
  }

  lemma {:induction false} AcceptKeepsGood<T>(c: Channel<T>, msg: T, due: nat, capacity: nat)
    requires Good(c, capacity) && |c.queue| < capacity
    ensures Good(Accept(c, msg, due), capacity)
  {
    AcceptKeepsOrder(c, msg, due);
  }

  lemma AscendsMore(tags: seq<nat>, tag: nat)
    requires Ascends(tags) && forall t | t in tags :: t < tag
    ensures Ascends(tags + [tag])
  {
    forall i, j | 0 <= i < j < |tags + [tag]|
      ensures (tags + [tag])[i] < (tags + [tag])[j]
    {
      if j == |tags| {
        assert tags[i] in tags;
      }
    }
  }

  lemma {:induction false} DiscardKeepsGood<T>(c: Channel<T>, capacity: nat)
    requires Good(c, capacity)
    ensures Good(Discard(c), capacity)
  {
    var done := Arrived(c.delivered);
    var tags := done + Waiting(c.queue);
    assert forall i | 0 <= i < |done| :: done[i] == tags[i];
    assert forall t | t in done :: t in tags;
    assert done + Waiting(Discard(c).queue) == done;
  }

  lemma {:induction false} DeliverKeepsOrder<T>(c: Channel<T>, now: nat)
    requires Fifo(c) && c.queue != []
    ensures Fifo(Deliver(c, now))
  {
    var d := Delivery(c.queue[0], c.epoch, now);
    ArrivedMore(c.delivered, d);
    assert Arrived(c.delivered + [d]) + Waiting(c.queue[1..]) == Arrived(c.delivered) + Waiting(c.queue);
  }

  lemma {:induction false} DeliverKeepsCounts<T>(c: Channel<T>, now: nat)
    requires Tagged(c) && AtMostTwice(c) && c.queue != []
    ensures AtMostTwice(Deliver(c, now))
    ensures Count(Deliver(c, now).delivered, c.queue[0].tag) == if c.queue[0].replayed then 2 else 1
  {
    var d := Delivery(c.queue[0], c.epoch, now);
    var t := Deliver(c, now);
    forall tag: nat
      ensures Count(t.delivered, tag) == Count(c.delivered, tag) + if c.queue[0].tag == tag then 1 else 0
    {
      CountMore(c.delivered, d, tag);
    }
    forall i | 0 <= i < |t.queue|
      ensures Count(t.delivered, t.queue[i].tag) == if t.queue[i].replayed then 1 else 0
    {
      assert t.queue[i] == c.queue[i + 1];
    }
  }

  lemma {:induction false} DeliverKeepsGood<T>(c: Channel<T>, now: nat, capacity: nat)
    requires Good(c, capacity) && c.queue != [] && c.queue[0].due <= now
    ensures Good(Deliver(c, now), capacity)
  {
    DeliverKeepsOrder(c, now);
    DeliverKeepsCounts(c, now);
  }

  lemma {:induction false} ReplayKeepsGood<T>(c: Channel<T>, p: Pending<T>, due: nat, capacity: nat)
    requires Good(c, capacity) && |c.queue| < capacity
    requires p.epoch == c.epoch && p.tag < c.accepted && Count(c.delivered, p.tag) == 1
    requires forall i | 0 <= i < |c.queue| :: c.queue[i].tag != p.tag
    ensures Good(Replay(c, p, due), capacity)
  {
    WaitingMore(c.queue, Pending(p.tag, p.msg, due, p.epoch, true));
    assert Waiting(c.queue) + [] == Waiting(c.queue);
  }

  lemma {:induction false} PoppedIsReplayable<T>(c: Channel<T>, now: nat, capacity: nat)
    requires Good(c, capacity) && c.queue != [] && !c.queue[0].replayed
    ensures
      var t := Deliver(c, now);
      var p := c.queue[0];
      && p.epoch == t.epoch && p.tag < t.accepted && Count(t.delivered, p.tag) == 1
      && (forall i | 0 <= i < |t.queue| :: t.queue[i].tag != p.tag)
  {
    DeliverKeepsCounts(c, now);
    assert forall i | 0 <= i < |c.queue| - 1 :: Deliver(c, now).queue[i] == c.queue[i + 1];
  }

  lemma {:induction false} PoppedKeepsGood<T>(c: Channel<T>, now: nat, replay: bool, minDelay: nat, capacity: nat)
    requires Good(c, capacity) && c.queue != [] && c.queue[0].due <= now
    ensures Good(Popped(c, now, replay, minDelay, capacity), capacity)
  {
    DeliverKeepsGood(c, now, capacity);
    if !c.queue[0].replayed && replay && |c.queue[1..]| < capacity {
      PoppedIsReplayable(c, now, capacity);
      ReplayKeepsGood(Deliver(c, now), c.queue[0], now + if minDelay > 1 then minDelay else 1, capacity);
    }
  }

  // -- The network --

  datatype Stats = Stats(controlSent: nat, workerSent: nat, workerFailedPartition: nat, workerDropped: nat)

  class SimulatedNetwork {
    var inbound: seq<Channel<ControlMessage>>
    var outbound: seq<Channel<WorkerMessage>>
    var partitioned: seq<bool>
    var partitionStableUntil: seq<nat>
    var healStableUntil: nat
    const minDelay: nat
    const maxDelay: nat
    const pathMax: nat
    const partitionStability: nat
    const healStability: nat
    var stats: Stats

    // How many messages workers have tried to send.
    ghost var workerAttempts: nat

    ghost predicate Valid()
      reads this
    {
      && |inbound| == |outbound| == |partitioned| == |partitionStableUntil|
      && minDelay <= maxDelay
      && (forall a | 0 <= a < |inbound| :: Good(inbound[a], Capacity(pathMax)) && inbound[a].epoch == outbound[a].epoch)
      && (forall a | 0 <= a < |outbound| :: Good(outbound[a], Capacity(pathMax)))
      && workerAttempts == stats.workerSent + stats.workerDropped + stats.workerFailedPartition
    }

    constructor (agents: nat, minDelay: nat, maxDelay: nat, pathMax: nat, partitionStability: nat, healStability: nat)
      requires minDelay <= maxDelay
      ensures Valid() && |inbound| == agents && forall a | 0 <= a < agents :: !partitioned[a]
      ensures this.minDelay == minDelay && this.maxDelay == maxDelay && this.pathMax == pathMax
      ensures forall a | 0 <= a < agents :: inbound[a].queue == [] && outbound[a].queue == []
    {
      inbound := seq(agents, _ => Channel([], 0, 0, []));
      outbound := seq(agents, _ => Channel([], 0, 0, []));
      partitioned := seq(agents, _ => false);
      partitionStableUntil := seq(agents, _ => 0);
      healStableUntil := 0;
      this.minDelay, this.maxDelay, this.pathMax := minDelay, maxDelay, pathMax;
      this.partitionStability, this.healStability := partitionStability, healStability;
      stats := Stats(0, 0, 0, 0);
      workerAttempts := 0;
    }

    /** Accepted into the current session with a delay, or lost: dropped, or no room. */
    method SendToAgent(agent: nat, msg: ControlMessage, tick: nat, drop: bool, jitter: nat) returns (accepted: bool)
      requires Valid() && agent < |inbound| && jitter <= maxDelay - minDelay
      modifies this`inbound, this`stats
      ensures Valid()
      ensures accepted <==> !drop && |old(inbound)[agent].queue| < Capacity(pathMax)
      ensures inbound == if accepted then old(inbound)[agent := Accept(old(inbound)[agent], msg, tick + minDelay + jitter)]
                         else old(inbound)
      ensures stats == if accepted then old(stats).(controlSent := old(stats).controlSent + 1) else old(stats)
    {
      if drop {
        return false;
      }
      var c := inbound[agent];
      if |c.queue| >= Capacity(pathMax) {
        return false;
      }
      AcceptKeepsGood(c, msg, tick + minDelay + jitter, Capacity(pathMax));
      inbound := inbound[agent := Accept(c, msg, tick + minDelay + jitter)];
      stats := stats.(controlSent := stats.controlSent + 1);
      return true;
    }

    /** Counted exactly once: failed by a partition, dropped, or sent. An oversize response is queued as
        the explicit error that the encoder makes of it. */
    method SendFromAgent(agent: nat, msg: WorkerMessage, tick: nat, drop: bool, jitter: nat) returns (sent: bool)
      requires Valid() && agent < |outbound| && jitter <= maxDelay - minDelay
      requires Typed(msg) && Encodable(msg, MAX_FRAME_PAYLOAD)
      modifies this`outbound, this`stats, this`workerAttempts
      ensures Valid() && workerAttempts == old(workerAttempts) + 1
      ensures sent <==> stats.workerSent == old(stats.workerSent) + 1
      ensures sent <==> !partitioned[agent] && !drop && |old(outbound)[agent].queue| < Capacity(pathMax)
      ensures stats.workerFailedPartition == old(stats.workerFailedPartition) + if partitioned[agent] then 1 else 0
      ensures outbound == if sent
                          then old(outbound)[agent := Accept(old(outbound)[agent], AsEncoded(msg), tick + minDelay + jitter)]
                          else old(outbound)
    {
      if partitioned[agent] {
        CountLost(true);
        return false;
      }
      if drop || |outbound[agent].queue| >= Capacity(pathMax) {
        CountLost(false);
        return false;
      }
      Enqueue(agent, AsEncoded(msg), tick + minDelay + jitter);
      return true;
    }

    method CountLost(byPartition: bool)
      requires Valid()
      modifies this`stats, this`workerAttempts
      ensures Valid() && workerAttempts == old(workerAttempts) + 1 && stats.workerSent == old(stats.workerSent)
      ensures stats.workerFailedPartition == old(stats.workerFailedPartition) + if byPartition then 1 else 0
    {
      workerAttempts := workerAttempts + 1;
      stats := if byPartition then stats.(workerFailedPartition := stats.workerFailedPartition + 1)
               else stats.(workerDropped := stats.workerDropped + 1);
    }

    method Enqueue(agent: nat, msg: WorkerMessage, due: nat)
      requires Valid() && agent < |outbound| && |outbound[agent].queue| < Capacity(pathMax)
      modifies this`outbound, this`stats, this`workerAttempts
      ensures Valid() && workerAttempts == old(workerAttempts) + 1
      ensures stats == old(stats).(workerSent := old(stats).workerSent + 1)
      ensures outbound == old(outbound)[agent := Accept(old(outbound)[agent], msg, due)]
    {
      AcceptKeepsGood(outbound[agent], msg, due, Capacity(pathMax));
      outbound := outbound[agent := Accept(outbound[agent], msg, due)];
      workerAttempts := workerAttempts + 1;
      stats := stats.(workerSent := stats.workerSent + 1);
    }

    method PopInbound(agent: nat, now: nat, replay: bool) returns (r: Option<ControlMessage>)
      requires Valid() && agent < |inbound|
      modifies this`inbound
      ensures Valid()
      ensures r.Some? <==> !partitioned[agent] && old(inbound)[agent].queue != [] && old(inbound)[agent].queue[0].due <= now
      ensures r.Some? ==> r.value == old(inbound)[agent].queue[0].msg
      ensures r.Some? ==> inbound == old(inbound)[agent := Popped(old(inbound)[agent], now, replay, minDelay, Capacity(pathMax))]
      ensures r.None? ==> inbound == old(inbound)
    {
      if partitioned[agent] {
        return None;
      }
      var popped, c := Pop(inbound[agent], now, replay, minDelay, Capacity(pathMax));
      if popped.None? {
        return None;
      }
      inbound := inbound[agent := c];
      return popped;
    }

    method PopOutbound(agent: nat, now: nat, replay: bool) returns (r: Option<WorkerMessage>)
      requires Valid() && agent < |outbound|
      modifies this`outbound
      ensures Valid()
      ensures r.Some? <==> !partitioned[agent] && old(outbound)[agent].queue != [] && old(outbound)[agent].queue[0].due <= now
      ensures r.Some? ==> r.value == old(outbound)[agent].queue[0].msg
      ensures r.Some? ==> outbound == old(outbound)[agent := Popped(old(outbound)[agent], now, replay, minDelay, Capacity(pathMax))]
      ensures r.None? ==> outbound == old(outbound)
    {
      if partitioned[agent] {
        return None;
      }
      var popped, c := Pop(outbound[agent], now, replay, minDelay, Capacity(pathMax));
      if popped.None? {
        return None;
      }
      outbound := outbound[agent := c];
      return popped;
    }

    method PartitionAgent(agent: nat, tick: nat)
      requires Valid() && agent < |partitioned|
      modifies this`partitioned, this`partitionStableUntil
      ensures Valid()
      ensures partitioned == if tick < healStableUntil then old(partitioned) else old(partitioned)[agent := true]
      ensures partitionStableUntil == if tick < healStableUntil then old(partitionStableUntil)
                                      else old(partitionStableUntil)[agent := tick + partitionStability]
    {
      if tick < healStableUntil {
        return;
      }
      partitioned := partitioned[agent := true];
      partitionStableUntil := partitionStableUntil[agent := tick + partitionStability];
    }

    /** A new session: nothing of the old one can be delivered any more. */
    method DiscardSessionQueues(agent: nat)
      requires Valid() && agent < |inbound|
      modifies this`inbound, this`outbound
      ensures Valid()
      ensures inbound == old(inbound)[agent := Discard(old(inbound)[agent])]
      ensures outbound == old(outbound)[agent := Discard(old(outbound)[agent])]
    {
      DiscardKeepsGood(inbound[agent], Capacity(pathMax));
      DiscardKeepsGood(outbound[agent], Capacity(pathMax));
      inbound := inbound[agent := Discard(inbound[agent])];
      outbound := outbound[agent := Discard(outbound[agent])];
    }

    method ForceHealAll(tick: nat)
      requires Valid()
      modifies this`partitioned, this`healStableUntil
      ensures Valid() && |partitioned| == |old(partitioned)| && forall a | 0 <= a < |partitioned| :: !partitioned[a]
      ensures healStableUntil == tick + healStability
    {
      partitioned := seq(|partitioned|, _ => false);
      healStableUntil := tick + healStability;
    }

    /** Heals every partition, unless some partition is too recent. */
    method HealAll(tick: nat)
      requires Valid()
      modifies this`partitioned, this`healStableUntil
      ensures Valid()
      ensures (exists a | 0 <= a < |partitionStableUntil| :: tick < partitionStableUntil[a]) ==>
                partitioned == old(partitioned) && healStableUntil == old(healStableUntil)
      ensures (forall a | 0 <= a < |partitionStableUntil| :: tick >= partitionStableUntil[a]) ==>
                (forall a | 0 <= a < |partitioned| :: !partitioned[a]) && healStableUntil == tick + healStability
    {
      for a := 0 to |partitionStableUntil|
        invariant partitioned == old(partitioned) && healStableUntil == old(healStableUntil) && Valid()
        invariant forall b | 0 <= b < a :: tick >= partitionStableUntil[b]
      {
        if tick < partitionStableUntil[a] {
          return;
        }
      }
      ForceHealAll(tick);
    }

    method HealOne(agent: nat, tick: nat)
      requires Valid() && agent < |partitioned|
      modifies this`partitioned
      ensures Valid()
      ensures partitioned == if tick < partitionStableUntil[agent] then old(partitioned) else old(partitioned)[agent := false]
    {
      if tick >= partitionStableUntil[agent] {
        partitioned := partitioned[agent := false];
      }
    }
  }

  function AsEncoded(msg: WorkerMessage): WorkerMessage {
    if msg.RunResponse? && |msg.payload| > MAX_RUN_RESPONSE_BODY then RunResponse(msg.requestId, STATUS_TOO_LARGE, [])
    else msg
  }

  /** What is queued is encoded as what was sent. */
  lemma QueuedAsEncoded(msg: WorkerMessage)
    requires Typed(msg)
    ensures Typed(AsEncoded(msg)) && AgentPayload(AsEncoded(msg)) == AgentPayload(msg)
  {
    if msg.RunResponse? && |msg.payload| > MAX_RUN_RESPONSE_BODY {
      assert ToLe(msg.requestId, 8) + ([STATUS_TOO_LARGE] + []) == ToLe(msg.requestId, 8) + [STATUS_TOO_LARGE];
    }
  }

  /** Drops messages of other sessions from the front of a queue. */
  method DropStale<T>(queue: seq<Pending<T>>, epoch: nat) returns (rest: seq<Pending<T>>, stale: nat)
    ensures stale <= |queue| && rest == queue[stale..]
    ensures forall i | 0 <= i < stale :: queue[i].epoch != epoch
    ensures rest != [] ==> rest[0].epoch == epoch
  {
    rest, stale := queue, 0;
    while rest != [] && rest[0].epoch != epoch
      invariant stale <= |queue| && rest == queue[stale..]
      invariant forall i | 0 <= i < stale :: queue[i].epoch != epoch
      decreases |rest|
    {
      rest, stale := rest[1..], stale + 1;
    }
  }

  /** Takes the front of a queue if it is due, and perhaps queues it once more. */
  method Pop<T>(c: Channel<T>, now: nat, replay: bool, minDelay: nat, capacity: nat)
    returns (r: Option<T>, after: Channel<T>)
    requires Good(c, capacity)
    ensures Good(after, capacity) && after.epoch == c.epoch
    ensures r.Some? <==> c.queue != [] && c.queue[0].due <= now
    ensures r.Some? ==> r.value == c.queue[0].msg && after == Popped(c, now, replay, minDelay, capacity)
    ensures r.None? ==> after == c
  {
    after := c;
    var queue, stale := DropStale(c.queue, c.epoch);
    // Queues hold messages of the current session only, so nothing is dropped.
    assert stale == 0 && queue == c.queue;
    if queue == [] || queue[0].due > now {
      return None, c;
    }
    var pending := queue[0];
    PoppedKeepsGood(c, now, replay, minDelay, capacity);
    after := Deliver(c, now);
    if !pending.replayed && replay && |after.queue| < capacity {
      after := Replay(after, pending, now + if minDelay > 1 then minDelay else 1);
    }
    return Some(pending.msg), after;
  }

  /** What the invariant means for a delivery: it happened in the session that accepted the message,
      not before it was due, at most twice, and in order. */
  lemma DeliveredSafely<T>(c: Channel<T>, capacity: nat, i: nat)
    requires Good(c, capacity) && i < |c.delivered|
    ensures c.delivered[i].pending.epoch == c.delivered[i].epoch && c.delivered[i].pending.due <= c.delivered[i].tick
    ensures 1 <= Count(c.delivered, c.delivered[i].pending.tag) <= 2
    ensures Ascends(Arrived(c.delivered))
  {
    Counted(c.delivered, i);
    var tags := Arrived(c.delivered) + Waiting(c.queue);
    assert Arrived(c.delivered) == tags[..|Arrived(c.delivered)|];
  }

  lemma {:induction false} Counted<T>(delivered: seq<Delivery<T>>, i: nat)
    requires i < |delivered|
    ensures Count(delivered, delivered[i].pending.tag) >= 1
  {
    if i < |delivered| - 1 {
      Counted(delivered[..|delivered| - 1], i);
    }
  }
}
