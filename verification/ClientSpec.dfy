/**
 What the API client's calls do to its connection and what they return, as functions of what the
 replicas and the network do; and what a run request's result says about its execution.
 */
module ClientSpec {
  import opened Basics
  import opened Wire
  import opened ClientWire
  import MessageCodec

  const MAX_NAME: nat := 64
  const MAX_RUN_PAYLOAD: nat := 512
  const RUN_BUFFER: nat := 65536
  const STATE_BUFFER: nat := 131072
  const PROBE_BUFFER: nat := 60

  // -- Replicas and connections --

  /** A replica as seen over one connection: all the bytes it will send, what happens while the `k`-th frame
      is written to it, whether waiting for its `k`-th reply fails, and whether it executed the `k`-th
      request, given the bytes of it that arrived. */
  datatype Peer = Peer(stream: Bytes, writes: nat -> Script, stalls: nat -> bool, executed: (nat, Bytes) -> bool)

  /** An open connection: the frames written, and the replies and bytes read. */
  datatype Link = Link(peer: Peer, written: nat, replies: nat, pos: nat)

  /** Every frame written has had its whole reply read. */
  predicate InSync(l: Link) {
    l.replies == l.written && l.pos == Boundary(l.peer.stream, l.replies) && l.pos <= |l.peer.stream|
  }

  function Dialed(peer: Peer): Link {
    Link(peer, 0, 0, 0)
  }

  /** The connection after one more frame and its reply. */
  function Answered(l: Link): Link {
    Link(l.peer, l.written + 1, l.replies + 1, Boundary(l.peer.stream, l.replies + 1))
  }

  /** The plaintext of the `k`-th frame that the replica sends, read into a buffer of `room` bytes. */
  function FrameAt(peer: Peer, k: nat, room: nat, key: SessionKey): (plain: Option<Bytes>)
    ensures plain.Some? ==> |plain.value| >= 3
  {
    var b := Boundary(peer.stream, k);
    if b > |peer.stream| then None
    else
      var frame := ReadFrame(peer.stream[b..], room, key);
      if frame.None? then None else Some(frame.value.0)
  }

  /** The `k`-th reply on a connection, if it is a run response. */
  function RunReplyAt(peer: Peer, k: nat, key: SessionKey): Option<RunReply> {
    var frame := FrameAt(peer, k, RUN_BUFFER, key);
    if frame.None? || frame.value[2] != TAG_RUN_RESPONSE then None else ParseRunReply(frame.value[3..])
  }

  /** The answer to a leader probe as the `k`-th reply, if it is one. */
  function ProbeReplyAt(peer: Peer, k: nat, key: SessionKey): Option<bool> {
    var frame := FrameAt(peer, k, PROBE_BUFFER, key);
    if frame.None? || |frame.value| != 15 || frame.value[2] != TAG_LEADER_PROBE_RESPONSE then None
    else ParseLeaderProbe(frame.value[3..])
  }

  /** The payload of a cluster state response as the `k`-th reply, if it is one. */
  function StateReplyAt(peer: Peer, k: nat, key: SessionKey): Option<Bytes> {
    var frame := FrameAt(peer, k, STATE_BUFFER, key);
    if frame.None? || frame.value[2] != TAG_CLUSTER_STATE_RESPONSE then None else Some(frame.value[3..])
  }

  function Fate(peer: Peer, k: nat, tag: Byte, payload: Bytes, key: SessionKey): WriteFate {
    FrameWrite(tag, payload, key, peer.writes(k)).0
  }

  /** Whether the `k`-th exchange on a connection gets as far as a reply. */
  predicate Exchanged(peer: Peer, k: nat, tag: Byte, payload: Bytes, key: SessionKey) {
    Fate(peer, k, tag, payload, key) == Written && !peer.stalls(k)
  }

  function Probed(l: Link, key: SessionKey): Option<bool> {
    if Exchanged(l.peer, l.written, TAG_LEADER_PROBE_REQUEST, [], key) then ProbeReplyAt(l.peer, l.written, key) else None
  }

  // -- Finding the leader --

  /** The connection, the leader's address as far as it is known, and what the next connection attempts
      will reach, in order. */
  datatype Net = Net(conn: Option<Link>, leader: Text, upcoming: seq<Option<Peer>>)

  function Rest(upcoming: seq<Option<Peer>>): seq<Option<Peer>> {
    if upcoming == [] then [] else upcoming[1..]
  }

  predicate FirstLeads(upcoming: seq<Option<Peer>>, key: SessionKey) {
    upcoming != [] && upcoming[0].Some? && Probed(Dialed(upcoming[0].value), key) == Some(true)
  }

  /** The first replica, in the order of the addresses, that says it leads. */
  function FindLeader(addrs: seq<Text>, upcoming: seq<Option<Peer>>, key: SessionKey): (Option<Link>, Text, seq<Option<Peer>>) {
    if addrs == [] then (None, [], upcoming)
    else if FirstLeads(upcoming, key) then (Some(Answered(Dialed(upcoming[0].value))), addrs[0], Rest(upcoming))
    else FindLeader(addrs[1..], Rest(upcoming), key)
  }

  function Connect(n: Net, addrs: seq<Text>, key: SessionKey): Net {
    var (l, addr, rest) := FindLeader(addrs, n.upcoming, key);
    Net(l, if l.Some? then addr else n.leader, rest)
  }

  function ConnectIfNone(n: Net, addrs: seq<Text>, key: SessionKey): Net {
    if n.conn.Some? then n else Connect(n, addrs, key)
  }

  function Close(n: Net): Net {
    n.(conn := None, leader := [])
  }

  /** A leader is found if and only if one of the next attempts, one to each address, reaches one. */
  lemma {:induction false} ConnectsIff(addrs: seq<Text>, upcoming: seq<Option<Peer>>, key: SessionKey)
    ensures FindLeader(addrs, upcoming, key).0.Some? <==>
            exists i :: 0 <= i < |addrs| && i < |upcoming| && FirstLeads(upcoming[i..], key)
  {
    if addrs != [] {
      if FirstLeads(upcoming, key) {
        assert upcoming[0..] == upcoming;
      } else {
        ConnectsIff(addrs[1..], Rest(upcoming), key);
        if FindLeader(addrs[1..], Rest(upcoming), key).0.Some? {
          var i :| 0 <= i < |addrs[1..]| && i < |Rest(upcoming)| && FirstLeads(Rest(upcoming)[i..], key);
          assert Rest(upcoming)[i..] == upcoming[i + 1..];
        }
        if i :| 0 <= i < |addrs| && i < |upcoming| && FirstLeads(upcoming[i..], key) {
          assert upcoming[0..] == upcoming;
          assert Rest(upcoming)[i - 1..] == upcoming[i..];
        }
      }
    }
  }

  // -- Run requests --

  datatype RunError = Invalid | Unavailable | Ambiguous
  datatype RunResult = Replied(reply: RunReply) | RepliedAmbiguous(ambiguous: RunReply) | Refused(error: RunError)

  /** A run request that is handed to a connection: its call's number, its payload and its place on the
      connection. */
  datatype Sending = Sending(call: nat, payload: Bytes, peer: Peer, index: nat)

  /** The request id of a call; the counter wraps. */
  function RequestId(call: nat): U64 {
    call % (U64_MAX + 1)
  }

  lemma NextRequestId(call: nat)
    ensures RequestId(call + 1) == (RequestId(call) + 1) % (U64_MAX + 1)
  {
    var m := U64_MAX + 1;
    var q := call / m;
    assert call == q * m + call % m;
    if call % m + 1 < m {
      assert call + 1 == q * m + (call % m + 1);
      RemainderIs(call + 1, q, call % m + 1);
    } else {
      assert call + 1 == (q + 1) * m + 0;
      RemainderIs(call + 1, q + 1, 0);
    }
  }

  lemma RemainderIs(v: nat, q: nat, r: nat)
    requires r <= U64_MAX && v == q * (U64_MAX + 1) + r
    ensures v % (U64_MAX + 1) == r
  {
  }

  /** The id, the deployment's name, and the body with its length. */
  function RunRequestBytes(id: U64, name: Text, body: Bytes): Bytes {
    ToLe(id, 8) + MessageCodec.Fixed(name, MAX_NAME) + ToLe(|body|, 4) + body
  }

  /** A valid request can be read back from its payload. */
  lemma RunRequestReadBack(id: U64, name: Text, body: Bytes)
    requires MessageCodec.Fits(name, MAX_NAME) && |body| <= MAX_RUN_PAYLOAD
    ensures
      var p := RunRequestBytes(id, name, body);
      && |p| == 76 + |body|
      && FromLe(MessageCodec.Field(p, 0, 8)) == id && MessageCodec.CString(MessageCodec.Field(p, 8, 64)) == name
      && FromLe(MessageCodec.Field(p, 72, 4)) == |body| && p[76..] == body
  {
    var p := RunRequestBytes(id, name, body);
    var t2 := ToLe(|body|, 4) + body;
    var t1 := MessageCodec.Fixed(name, MAX_NAME) + t2;
    assert p[0..] == ToLe(id, 8) + t1;
    MessageCodec.Advance(p, 0, ToLe(id, 8), t1);
    MessageCodec.Advance(p, 8, MessageCodec.Fixed(name, MAX_NAME), t2);
    MessageCodec.Advance(p, 72, ToLe(|body|, 4), body);
    assert Pow256(8) == U64_MAX + 1 && Pow256(4) == U32_MAX + 1;
    LeRoundTrip(id, 8);
    LeRoundTrip(|body|, 4);
    MessageCodec.FixedRoundTrip(name, MAX_NAME);
  }

  function FateOf(s: Sending, key: SessionKey): WriteFate {
    Fate(s.peer, s.index, TAG_RUN_REQUEST, s.payload, key)
  }

  /** The bytes of the request that went out. */
  function SentOf(s: Sending, key: SessionKey): Bytes {
    FrameWrite(TAG_RUN_REQUEST, s.payload, key, s.peer.writes(s.index)).1
  }

  predicate Executed(s: Sending, key: SessionKey) {
    s.peer.executed(s.index, SentOf(s, key))
  }

  /** A well-formed not_leader reply that answers this very request. */
  predicate TurnedAway(s: Sending, key: SessionKey) {
    && Exchanged(s.peer, s.index, TAG_RUN_REQUEST, s.payload, key)
    && RunReplyAt(s.peer, s.index, key).Some?
    && RunReplyAt(s.peer, s.index, key).value.requestId == RequestId(s.call)
    && RunReplyAt(s.peer, s.index, key).value.status == STATUS_NOT_LEADER
  }

  /** What one sending leads to; nothing means that the request is to be sent once more. */
  function SendingResult(s: Sending, key: SessionKey, first: bool): (r: Option<RunResult>)
    ensures (!first ==> r.Some?) && (r.Some? ==> r.value != Refused(Invalid))
  {
    var reply := RunReplyAt(s.peer, s.index, key);
    if FateOf(s, key) == NotAttempted then Some(Refused(Unavailable))
    else if !Exchanged(s.peer, s.index, TAG_RUN_REQUEST, s.payload, key) || reply.None?
            || reply.value.requestId != RequestId(s.call) then Some(Refused(Ambiguous))
    else if reply.value.status == STATUS_NOT_LEADER && first then None
    else if reply.value.status == STATUS_OUTCOME_AMBIGUOUS then Some(RepliedAmbiguous(reply.value))
    else Some(Replied(reply.value))
  }

  function SendingOn(l: Link, call: nat, payload: Bytes): Sending {
    Sending(call, payload, l.peer, l.written)
  }

  /** After one sending the connection is kept exactly when a reply is returned. */
  function AfterSending(n: Net, s: Sending, key: SessionKey, first: bool): Net
    requires n.conn.Some?
  {
    var r := SendingResult(s, key, first);
    if r.Some? && !r.value.Refused? then n.(conn := Some(Answered(n.conn.value))) else Close(n)
  }

  /** What a call returns, how it leaves the connection, and the requests it handed to connections. */
  datatype CallOutcome = CallOutcome(result: RunResult, net: Net, sendings: seq<Sending>)

  /** Up to two attempts to have a connection. */
  function Prepared(n: Net, addrs: seq<Text>, key: SessionKey): Net {
    ConnectIfNone(ConnectIfNone(n, addrs, key), addrs, key)
  }

  /** The second request decides. */
  function Resent(n: Net, s: Sending, key: SessionKey): CallOutcome
    requires n.conn.Some?
  {
    var second := SendingOn(n.conn.value, s.call, s.payload);
    CallOutcome(SendingResult(second, key, false).value, AfterSending(n, second, key, false), [s, second])
  }

  /** After a first request that was turned away: once more, over a new connection. */
  function Retried(n: Net, s: Sending, addrs: seq<Text>, key: SessionKey): CallOutcome {
    var again := Connect(n, addrs, key);
    if again.conn.None? then CallOutcome(Refused(Unavailable), again, [s]) else Resent(again, s, key)
  }

  /** Once, and once more if the first reply was not_leader. */
  function SendOnceOrTwice(n: Net, call: nat, payload: Bytes, addrs: seq<Text>, key: SessionKey): CallOutcome
    requires n.conn.Some?
  {
    var s := SendingOn(n.conn.value, call, payload);
    var r := SendingResult(s, key, true);
    var after := AfterSending(n, s, key, true);
    if r.Some? then CallOutcome(r.value, after, [s]) else Retried(after, s, addrs, key)
  }

  function SendRun(n: Net, call: nat, payload: Bytes, addrs: seq<Text>, key: SessionKey): CallOutcome {
    var ready := Prepared(n, addrs, key);
    if ready.conn.None? then CallOutcome(Refused(Unavailable), ready, [])
    else SendOnceOrTwice(ready, call, payload, addrs, key)
  }

  // -- Executions --

  /** The replica executes nothing of which no byte arrived, and nothing that it answers with not_leader. */
  ghost predicate HonestAt(peer: Peer, k: nat, key: SessionKey) {
    && !peer.executed(k, [])
    && (RunReplyAt(peer, k, key).Some? && RunReplyAt(peer, k, key).value.status == STATUS_NOT_LEADER ==>
          forall sent: Bytes :: !peer.executed(k, sent))
  }

  ghost predicate Honest(peer: Peer, key: SessionKey) {
    forall k: nat :: HonestAt(peer, k, key)
  }

  ghost predicate HonestNet(n: Net, key: SessionKey) {
    && (n.conn.Some? ==> Honest(n.conn.value.peer, key))
    && (forall p | p in n.upcoming && p.Some? :: Honest(p.value, key))
  }

  /** How often a call's request was executed. */
  function Executions(log: seq<Sending>, call: nat, key: SessionKey): nat {
    if log == [] then 0
    else
      var last := log[|log| - 1];
      Executions(log[..|log| - 1], call, key) + if last.call == call && Executed(last, key) then 1 else 0
  }

  lemma ExecutionsMore(log: seq<Sending>, s: Sending, call: nat, key: SessionKey)
    ensures Executions(log + [s], call, key) == Executions(log, call, key) + if s.call == call && Executed(s, key) then 1 else 0
  {
    assert (log + [s])[..|log|] == log;
  }

  lemma {:induction false} ExecutionsTogether(log: seq<Sending>, more: seq<Sending>, call: nat, key: SessionKey)
    ensures Executions(log + more, call, key) == Executions(log, call, key) + Executions(more, call, key)
  {
    if more == [] {
      assert log + more == log;
    } else {
      var front := more[..|more| - 1];
      var last := more[|more| - 1];
      assert log + more == (log + front) + [last] && more == front + [last];
      ExecutionsTogether(log, front, call, key);
      ExecutionsMore(log + front, last, call, key);
      ExecutionsMore(front, last, call, key);
    }
  }

  lemma {:induction false} NeverSent(log: seq<Sending>, call: nat, key: SessionKey)
    requires forall i | 0 <= i < |log| :: log[i].call != call
    ensures Executions(log, call, key) == 0
  {
    if log != [] {
      NeverSent(log[..|log| - 1], call, key);
    }
  }

  /** Logging one more call, executed at most once, after calls that were. */
  lemma {:induction false} CallLogged(log: seq<Sending>, more: seq<Sending>, call: nat, key: SessionKey)
    requires forall i | 0 <= i < |log| :: log[i].call < call
    requires forall i | 0 <= i < |more| :: more[i].call == call
    requires (forall c: nat :: Executions(log, c, key) <= 1) && Executions(more, call, key) <= 1
    ensures forall c: nat :: Executions(log + more, c, key) <= 1
    ensures Executions(log + more, call, key) == Executions(more, call, key)
  {
    forall c: nat
      ensures Executions(log + more, c, key) <= 1
      ensures c == call ==> Executions(log + more, c, key) == Executions(more, call, key)
    {
      ExecutionsTogether(log, more, c, key);
      if c == call {
        NeverSent(log, c, key);
      } else {
        NeverSent(more, c, key);
      }
    }
  }

  /** The result is a valid one, and every request is of the given call. */
  predicate IsOfCall(o: CallOutcome, call: nat) {
    o.result != Refused(Invalid) && forall i | 0 <= i < |o.sendings| :: o.sendings[i].call == call
  }

  lemma {:induction false} RetriedIsOfCall(n: Net, s: Sending, addrs: seq<Text>, key: SessionKey)
    ensures IsOfCall(Retried(n, s, addrs, key), s.call)
  {
    var again := Connect(n, addrs, key);
    if again.conn.Some? {
      assert IsOfCall(Resent(again, s, key), s.call);
    }
  }

  lemma {:induction false} RunIsOfCall(n: Net, call: nat, payload: Bytes, addrs: seq<Text>, key: SessionKey)
    ensures IsOfCall(SendRun(n, call, payload, addrs, key), call)
  {
    var ready := Prepared(n, addrs, key);
    if ready.conn.Some? {
      var s := SendingOn(ready.conn.value, call, payload);
      RetriedIsOfCall(AfterSending(ready, s, key, true), s, addrs, key);
    }
  }

  /** Without a result, or with an unavailable one, an honest replica has not executed the request. */
  lemma NotExecuted(s: Sending, key: SessionKey, first: bool)
    requires HonestAt(s.peer, s.index, key)
    requires SendingResult(s, key, first).None? || SendingResult(s, key, first) == Some(Refused(Unavailable))
    ensures !Executed(s, key)
  {
    FrameWriteMeans(TAG_RUN_REQUEST, s.payload, key, s.peer.writes(s.index));
  }

  lemma {:induction false} FindLeaderHonest(addrs: seq<Text>, upcoming: seq<Option<Peer>>, key: SessionKey)
    requires forall p | p in upcoming && p.Some? :: Honest(p.value, key)
    ensures
      var (l, _, rest) := FindLeader(addrs, upcoming, key);
      && (l.Some? ==> Honest(l.value.peer, key))
      && (forall p | p in rest && p.Some? :: Honest(p.value, key))
  {
    if addrs != [] {
      if FirstLeads(upcoming, key) {
        assert upcoming[0] in upcoming;
      } else {
        FindLeaderHonest(addrs[1..], Rest(upcoming), key);
      }
    }
  }

  lemma {:induction false} ConnectHonest(n: Net, addrs: seq<Text>, key: SessionKey)
    requires HonestNet(n, key)
    ensures HonestNet(Connect(n, addrs, key), key)
  {
    FindLeaderHonest(addrs, n.upcoming, key);
  }

  lemma {:induction false} PreparedHonest(n: Net, addrs: seq<Text>, key: SessionKey)
    requires HonestNet(n, key)
    ensures HonestNet(Prepared(n, addrs, key), key)
  {
    ConnectHonest(n, addrs, key);
    ConnectHonest(ConnectIfNone(n, addrs, key), addrs, key);
  }

  lemma {:induction false} OneSending(s: Sending, key: SessionKey)
    ensures Executions([s], s.call, key) == if Executed(s, key) then 1 else 0
  {
    assert [s] == [] + [s];
    ExecutionsMore([], s, s.call, key);
  }

  lemma {:induction false} TwoSendings(s: Sending, t: Sending, key: SessionKey)
    requires s.call == t.call
    ensures Executions([s, t], s.call, key) == (if Executed(s, key) then 1 else 0) + if Executed(t, key) then 1 else 0
  {
    assert [s, t] == [s] + [t];
    OneSending(s, key);
    ExecutionsMore([s], t, s.call, key);
  }

  /** The call was executed at most once, and not at all if it ends unavailable; the replicas stay honest. */
  ghost predicate Safe(o: CallOutcome, call: nat, key: SessionKey) {
    && Executions(o.sendings, call, key) <= 1
    && (o.result == Refused(Unavailable) ==> Executions(o.sendings, call, key) == 0)
    && HonestNet(o.net, key)
  }

  lemma {:induction false} ResentSafe(n: Net, s: Sending, key: SessionKey)
    requires n.conn.Some? && HonestNet(n, key) && !Executed(s, key)
    ensures Safe(Resent(n, s, key), s.call, key)
  {
    var second := SendingOn(n.conn.value, s.call, s.payload);
    assert HonestAt(second.peer, second.index, key);
    TwoSendings(s, second, key);
    if SendingResult(second, key, false) == Some(Refused(Unavailable)) {
      NotExecuted(second, key, false);
    }
  }

  lemma {:induction false} RetriedSafe(n: Net, s: Sending, addrs: seq<Text>, key: SessionKey)
    requires HonestNet(n, key) && !Executed(s, key)
    ensures Safe(Retried(n, s, addrs, key), s.call, key)
  {
    ConnectHonest(n, addrs, key);
    var again := Connect(n, addrs, key);
    if again.conn.None? {
      OneSending(s, key);
    } else {
      ResentSafe(again, s, key);
    }
  }

  lemma {:induction false} SentSafe(n: Net, call: nat, payload: Bytes, addrs: seq<Text>, key: SessionKey)
    requires n.conn.Some? && HonestNet(n, key)
    ensures Safe(SendOnceOrTwice(n, call, payload, addrs, key), call, key)
  {
    var s := SendingOn(n.conn.value, call, payload);
    assert HonestAt(s.peer, s.index, key);
    OneSending(s, key);
    if SendingResult(s, key, true).None? || SendingResult(s, key, true) == Some(Refused(Unavailable)) {
      NotExecuted(s, key, true);
      RetriedSafe(AfterSending(n, s, key, true), s, addrs, key);
    }
  }

  /** Whatever the network does, a call is executed at most once, although it may be sent twice; and not at
      all if it ends unavailable. */
  lemma {:induction false} AtMostOnce(n: Net, call: nat, payload: Bytes, addrs: seq<Text>, key: SessionKey)
    requires HonestNet(n, key)
    ensures Safe(SendRun(n, call, payload, addrs, key), call, key)
  {
    PreparedHonest(n, addrs, key);
    var ready := Prepared(n, addrs, key);
    if ready.conn.Some? {
      SentSafe(ready, call, payload, addrs, key);
    }
  }

  /** What a client has logged stays free of second executions when the next call is made. */
  ghost predicate SafeLog(log: seq<Sending>, calls: nat, key: SessionKey) {
    && (forall i | 0 <= i < |log| :: log[i].call <= calls)
    && (forall call: nat :: Executions(log, call, key) <= 1)
  }

  lemma {:induction false} NextCall(log: seq<Sending>, n: Net, call: nat, payload: Bytes, addrs: seq<Text>, key: SessionKey)
    requires call > 0 && SafeLog(log, call - 1, key) && HonestNet(n, key)
    ensures
      var o := SendRun(n, call, payload, addrs, key);
      && SafeLog(log + o.sendings, call, key) && HonestNet(o.net, key) && o.result != Refused(Invalid)
      && (o.result == Refused(Unavailable) ==> Executions(log + o.sendings, call, key) == 0)
  {
    AtMostOnce(n, call, payload, addrs, key);
    RunIsOfCall(n, call, payload, addrs, key);
    CallLogged(log, SendRun(n, call, payload, addrs, key).sendings, call, key);
  }

  // -- Unavailable although a request went out --

  /** Some request of the call went out whole. */
  predicate WentOut(o: CallOutcome, key: SessionKey) {
    exists i | 0 <= i < |o.sendings| :: FateOf(o.sendings[i], key) == Written
  }

  /** No leader is found for a second request, or nothing of it can be written. */
  predicate SecondGetsNowhere(n: Net, s: Sending, addrs: seq<Text>, key: SessionKey) {
    var again := Connect(n, addrs, key);
    again.conn.None? || FateOf(SendingOn(again.conn.value, s.call, s.payload), key) == NotAttempted
  }

  /** The first request is answered with not_leader, and the second gets nowhere. */
  predicate Bounced(n: Net, call: nat, payload: Bytes, addrs: seq<Text>, key: SessionKey) {
    var ready := Prepared(n, addrs, key);
    && ready.conn.Some?
    && var s := SendingOn(ready.conn.value, call, payload);
       TurnedAway(s, key) && SecondGetsNowhere(Close(ready), s, addrs, key)
  }

  predicate WentOutYetUnavailable(o: CallOutcome, key: SessionKey) {
    o.result == Refused(Unavailable) && WentOut(o, key)
  }

  lemma TurnedAwayIff(n: Net, s: Sending, key: SessionKey)
    requires n.conn.Some?
    ensures SendingResult(s, key, true).None? <==> TurnedAway(s, key)
    ensures TurnedAway(s, key) ==> AfterSending(n, s, key, true) == Close(n)
  {
  }

  lemma UnavailableIff(s: Sending, key: SessionKey, first: bool)
    ensures SendingResult(s, key, first) == Some(Refused(Unavailable)) <==> FateOf(s, key) == NotAttempted
  {
  }

  lemma WentOutOnce(o: CallOutcome, s: Sending, key: SessionKey)
    requires o.sendings == [s]
    ensures WentOut(o, key) <==> FateOf(s, key) == Written
  {
    assert o.sendings[0] == s;
  }

  lemma {:induction false} RetriedIff(n: Net, s: Sending, addrs: seq<Text>, key: SessionKey)
    requires FateOf(s, key) == Written
    ensures WentOutYetUnavailable(Retried(n, s, addrs, key), key) <==> SecondGetsNowhere(n, s, addrs, key)
  {
    var o := Retried(n, s, addrs, key);
    var again := Connect(n, addrs, key);
    assert o.sendings[0] == s;
    if again.conn.Some? {
      UnavailableIff(SendingOn(again.conn.value, s.call, s.payload), key, false);
    }
  }

  lemma {:induction false} SentIff(n: Net, call: nat, payload: Bytes, addrs: seq<Text>, key: SessionKey)
    requires n.conn.Some?
    ensures
      var s := SendingOn(n.conn.value, call, payload);
      WentOutYetUnavailable(SendOnceOrTwice(n, call, payload, addrs, key), key) <==>
        TurnedAway(s, key) && SecondGetsNowhere(Close(n), s, addrs, key)
  {
    var s := SendingOn(n.conn.value, call, payload);
    TurnedAwayIff(n, s, key);
    if TurnedAway(s, key) {
      RetriedIff(Close(n), s, addrs, key);
    } else {
      UnavailableIff(s, key, true);
      WentOutOnce(SendOnceOrTwice(n, call, payload, addrs, key), s, key);
    }
  }

  /** An unavailable result means that no request went out, except in one case: exactly when the first one
      was answered with not_leader and the second attempt got nowhere. */
  lemma {:induction false} WentOutUnavailableIff(n: Net, call: nat, payload: Bytes, addrs: seq<Text>, key: SessionKey)
    ensures WentOutYetUnavailable(SendRun(n, call, payload, addrs, key), key) <==> Bounced(n, call, payload, addrs, key)
  {
    var ready := Prepared(n, addrs, key);
    if ready.conn.Some? {
      SentIff(ready, call, payload, addrs, key);
    }
  }

  /** A second request is sent if and only if the first was answered with not_leader and a leader was found. */
  lemma {:induction false} SecondSendingIff(n: Net, call: nat, payload: Bytes, addrs: seq<Text>, key: SessionKey)
    ensures
      var o := SendRun(n, call, payload, addrs, key);
      var ready := Prepared(n, addrs, key);
      && |o.sendings| <= 2
      && (|o.sendings| == 2 <==>
            && ready.conn.Some? && TurnedAway(SendingOn(ready.conn.value, call, payload), key)
            && Connect(Close(ready), addrs, key).conn.Some?)
  {
    var ready := Prepared(n, addrs, key);
    if ready.conn.Some? {
      TurnedAwayIff(ready, SendingOn(ready.conn.value, call, payload), key);
    }
  }

  // -- What a result means --

  /** A run response that answers this very request came back. */
  predicate AnsweredBy(s: Sending, key: SessionKey, x: RunReply) {
    && Exchanged(s.peer, s.index, TAG_RUN_REQUEST, s.payload, key)
    && RunReplyAt(s.peer, s.index, key) == Some(x) && x.requestId == RequestId(s.call)
  }

  ghost predicate Unanswered(s: Sending, key: SessionKey) {
    forall x: RunReply :: !AnsweredBy(s, key, x)
  }

  /** What a result says about a sending: a reply is returned plainly, unless it has status 5, for an ambiguous
      outcome; status 9, for a replica that does not lead, is returned only for the second sending. Without a
      reply the outcome is ambiguous if anything was written, and otherwise the call is unavailable. */
  ghost predicate Means(r: RunResult, s: Sending, key: SessionKey, first: bool) {
    && (forall x: RunReply :: r == Replied(x) <==> AnsweredBy(s, key, x) && x.status != 5 && (x.status == 9 ==> !first))
    && (forall x: RunReply :: r == RepliedAmbiguous(x) <==> AnsweredBy(s, key, x) && x.status == 5)
    && (r == Refused(Ambiguous) <==> FateOf(s, key) != NotAttempted && Unanswered(s, key))
    && (r == Refused(Unavailable) <==>
          FateOf(s, key) == NotAttempted || (first && exists x: RunReply :: AnsweredBy(s, key, x) && x.status == 9))
  }

  lemma ReplyIsAnswer(s: Sending, key: SessionKey)
    requires Exchanged(s.peer, s.index, TAG_RUN_REQUEST, s.payload, key)
    ensures
      var reply := RunReplyAt(s.peer, s.index, key);
      if reply.Some? && reply.value.requestId == RequestId(s.call) then AnsweredBy(s, key, reply.value)
      else Unanswered(s, key)
  {
  }

  /** The result of a sending; a request that is to be sent once more is unavailable so far. */
  function ResultSoFar(s: Sending, key: SessionKey, first: bool): RunResult {
    var r := SendingResult(s, key, first);
    if r.Some? then r.value else Refused(Unavailable)
  }

  lemma UnansweredMeans(s: Sending, key: SessionKey, first: bool)
    requires Unanswered(s, key)
    ensures ResultSoFar(s, key, first) == Refused(if FateOf(s, key) == NotAttempted then Unavailable else Ambiguous)
  {
    if Exchanged(s.peer, s.index, TAG_RUN_REQUEST, s.payload, key) {
      ReplyIsAnswer(s, key);
    }
  }

  lemma AnsweredMeans(s: Sending, key: SessionKey, first: bool, x: RunReply)
    requires AnsweredBy(s, key, x)
    ensures FateOf(s, key) != NotAttempted
    ensures ResultSoFar(s, key, first) ==
            if x.status == 9 && first then Refused(Unavailable) else if x.status == 5 then RepliedAmbiguous(x) else Replied(x)
  {
  }

  lemma {:induction false} ResultMeans(s: Sending, key: SessionKey, first: bool)
    ensures Means(ResultSoFar(s, key, first), s, key, first)
  {
    if Unanswered(s, key) {
      UnansweredMeans(s, key, first);
    } else {
      var x: RunReply :| AnsweredBy(s, key, x);
      AnsweredMeans(s, key, first, x);
    }
  }

  /** The result of a call is that of its last sending, and without any sending it is unavailable. */
  lemma {:induction false} CallMeans(n: Net, call: nat, payload: Bytes, addrs: seq<Text>, key: SessionKey)
    ensures
      var o := SendRun(n, call, payload, addrs, key);
      if o.sendings == [] then o.result == Refused(Unavailable)
      else Means(o.result, o.sendings[|o.sendings| - 1], key, |o.sendings| == 1)
  {
    var ready := Prepared(n, addrs, key);
    if ready.conn.Some? {
      var s := SendingOn(ready.conn.value, call, payload);
      ResultMeans(s, key, true);
      if SendingResult(s, key, true).None? {
        RetriedMeans(AfterSending(ready, s, key, true), s, addrs, key);
      }
    }
  }

  lemma {:induction false} RetriedMeans(n: Net, s: Sending, addrs: seq<Text>, key: SessionKey)
    requires SendingResult(s, key, true).None?
    ensures
      var o := Retried(n, s, addrs, key);
      o.sendings != [] && Means(o.result, o.sendings[|o.sendings| - 1], key, |o.sendings| == 1)
  {
    var again := Connect(n, addrs, key);
    if again.conn.None? {
      ResultMeans(s, key, true);
    } else {
      ResultMeans(SendingOn(again.conn.value, s.call, s.payload), key, false);
    }
  }

  /** Every sending of a call is of its request, over the connection that the call had or found. */
  lemma {:induction false} ConnectionAfter(n: Net, call: nat, payload: Bytes, addrs: seq<Text>, key: SessionKey)
    ensures
      var o := SendRun(n, call, payload, addrs, key);
      && (o.net.conn.Some? <==> o.result.Replied? || o.result.RepliedAmbiguous?)
      && (o.net.conn.Some? ==>
            o.sendings != [] &&
            var s := o.sendings[|o.sendings| - 1];
            o.net.conn.value.peer == s.peer && o.net.conn.value.written == s.index + 1)
      && (forall i | 0 <= i < |o.sendings| :: o.sendings[i].payload == payload && o.sendings[i].call == call)
  {
    var ready := Prepared(n, addrs, key);
    if ready.conn.Some? {
      var s := SendingOn(ready.conn.value, call, payload);
      if SendingResult(s, key, true).None? {
        RetriedConnection(AfterSending(ready, s, key, true), s, addrs, key);
      }
    }
  }

  lemma {:induction false} RetriedConnection(n: Net, s: Sending, addrs: seq<Text>, key: SessionKey)
    ensures
      var o := Retried(n, s, addrs, key);
      && (o.net.conn.Some? <==> o.result.Replied? || o.result.RepliedAmbiguous?)
      && (o.net.conn.Some? ==>
            |o.sendings| == 2 && o.net.conn.value.peer == o.sendings[1].peer && o.net.conn.value.written == o.sendings[1].index + 1)
      && (forall i | 0 <= i < |o.sendings| :: o.sendings[i].payload == s.payload && o.sendings[i].call == s.call)
  {
  }

  // -- Which replica is found --

  /** The first of the next attempts that reaches a replica that says it leads is taken, with its address; the
      attempts up to it are used up, and all of them if there is none. */
  lemma {:induction false} FirstLeaderFound(addrs: seq<Text>, upcoming: seq<Option<Peer>>, key: SessionKey, i: nat)
    requires i < |addrs| && i < |upcoming| && FirstLeads(upcoming[i..], key)
    requires forall j | 0 <= j < i :: !FirstLeads(upcoming[j..], key)
    ensures FindLeader(addrs, upcoming, key) == (Some(Answered(Dialed(upcoming[i].value))), addrs[i], upcoming[i + 1..])
  {
    if i == 0 {
      assert upcoming[0..] == upcoming;
    } else {
      assert upcoming[0..] == upcoming;
      var rest := upcoming[1..];
      assert rest[i - 1..] == upcoming[i..];
      assert forall j | 0 <= j < i - 1 :: rest[j..] == upcoming[j + 1..];
      FirstLeaderFound(addrs[1..], rest, key, i - 1);
      assert rest[i..] == upcoming[i + 1..];
    }
  }

  lemma {:induction false} NoLeaderFound(addrs: seq<Text>, upcoming: seq<Option<Peer>>, key: SessionKey)
    requires forall j | 0 <= j < |addrs| && j < |upcoming| :: !FirstLeads(upcoming[j..], key)
    ensures FindLeader(addrs, upcoming, key).0.None?
    ensures FindLeader(addrs, upcoming, key).2 == upcoming[Min(|addrs|, |upcoming|)..]
  {
    if addrs != [] {
      assert upcoming[0..] == upcoming;
      if upcoming == [] {
        NoLeaderFound(addrs[1..], [], key);
      } else {
        var rest := upcoming[1..];
        forall j | 0 <= j < |addrs[1..]| && j < |rest|
          ensures !FirstLeads(rest[j..], key)
        {
          assert rest[j..] == upcoming[j + 1..];
        }
        NoLeaderFound(addrs[1..], rest, key);
        assert rest[Min(|addrs| - 1, |rest|)..] == upcoming[Min(|addrs|, |upcoming|)..];
      }
    }
  }

  /** A call sends nothing if and only if it has no connection and none of the next attempts, up to two to each
      address, reaches a replica that says it leads. */
  lemma {:induction false} NothingSentIff(n: Net, call: nat, payload: Bytes, addrs: seq<Text>, key: SessionKey)
    ensures SendRun(n, call, payload, addrs, key).sendings == [] <==>
            n.conn.None? && forall j | 0 <= j < 2 * |addrs| && j < |n.upcoming| :: !FirstLeads(n.upcoming[j..], key)
  {
    var once := ConnectIfNone(n, addrs, key);
    var ready := Prepared(n, addrs, key);
    assert SendRun(n, call, payload, addrs, key).sendings == [] <==> ready.conn.None?;
    if n.conn.None? {
      ConnectsIff(addrs, n.upcoming, key);
      if once.conn.None? {
        NoLeaderFound(addrs, n.upcoming, key);
        ConnectsIff(addrs, once.upcoming, key);
        LaterAttempts(n.upcoming, once.upcoming, |addrs|, key);
      }
    }
  }

  /** Attempts that are left after some were used up. */
  lemma LaterAttempt(all: seq<Option<Peer>>, rest: seq<Option<Peer>>, used: nat, i: nat)
    requires rest == all[Min(used, |all|)..]
    ensures i < |rest| <==> used + i < |all|
    ensures i < |rest| ==> rest[i..] == all[used + i..]
  {
  }

  lemma LaterAttempts(all: seq<Option<Peer>>, rest: seq<Option<Peer>>, used: nat, key: SessionKey)
    requires rest == all[Min(used, |all|)..]
    ensures (exists i :: 0 <= i < used && i < |rest| && FirstLeads(rest[i..], key)) <==>
            (exists j :: used <= j < 2 * used && j < |all| && FirstLeads(all[j..], key))
  {
    if i :| 0 <= i < used && i < |rest| && FirstLeads(rest[i..], key) {
      LaterAttempt(all, rest, used, i);
      var j := used + i;
      assert FirstLeads(all[j..], key);
    }
    if j :| used <= j < 2 * used && j < |all| && FirstLeads(all[j..], key) {
      LaterAttempt(all, rest, used, j - used);
    }
  }
}
