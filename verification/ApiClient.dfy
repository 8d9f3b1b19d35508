/**
 The API client: one connection kept across calls, and a run request that is executed at most once
 although it may be sent twice.
 */
module ApiClient {
  import opened Basics
  import opened Wire
  import opened ClientWire
  import opened ClientSpec

  /** Reads one frame; on success exactly one more frame has been taken from the stream. */
  method ReadFrameGeneric(l: Link, room: nat, key: SessionKey) returns (r: Option<Bytes>, after: Link)
    requires l.pos == Boundary(l.peer.stream, l.replies) && l.pos <= |l.peer.stream|
    ensures r == if l.peer.stalls(l.replies) then None else FrameAt(l.peer, l.replies, room, key)
    ensures r.Some? ==> after == l.(replies := l.replies + 1, pos := Boundary(l.peer.stream, l.replies + 1))
    ensures r.Some? ==> after.pos <= |l.peer.stream|
  {
    after := l;
    if l.peer.stalls(l.replies) {
      return None, l;
    }
    var data := l.peer.stream[l.pos..];
    if room < 4 || |data| < 4 {
      return None, l;
    }
    var lenBytes := data[..4];
    assert lenBytes == l.peer.stream[l.pos..l.pos + 4];
    var frameLen := FromLe(lenBytes);
    if frameLen < 1 || frameLen > room - 4 || |data| < 4 + frameLen {
      return None, l;
    }
    var flags := data[4];
    if flags != 0 && flags != 1 {
      return None, l;
    }
    if (flags == 1) != key.Some? {
      return None, l;
    }
    var plain: Bytes;
    if flags == 1 {
      if frameLen < 1 + NONCE_LEN + 3 + TAG_LEN {
        return None, l;
      }
      var unsealed := key.value.open(data[5..4 + frameLen], data[..5]);
      if unsealed.None? {
        return None, l;
      }
      plain := unsealed.value;
    } else {
      if frameLen < 1 + 3 {
        return None, l;
      }
      plain := data[5..4 + frameLen];
    }
    if |plain| < 3 {
      return None, l;
    }
    var version := FromLe(plain[..2]);
    if version != PROTOCOL_VERSION {
      return None, l;
    }
    return Some(plain), l.(replies := l.replies + 1, pos := l.pos + 4 + frameLen);
  }

  /** Writes the next frame on a connection, which answers as the peer's script for it says. */
  method WriteFrame(l: Link, tag: Byte, payload: Bytes, key: SessionKey) returns (fate: WriteFate, sent: Bytes, after: Link)
    ensures (fate, sent) == FrameWrite(tag, payload, key, l.peer.writes(l.written))
    ensures fate == NotAttempted ==> sent == []
    ensures after == l.(written := l.written + 1)
  {
    fate, sent := WriteFrameEncrypted(tag, payload, key, l.peer.writes(l.written));
    after := l.(written := l.written + 1);
  }

  /** One frame and the frame that comes back, if one does; an answer leaves the connection in step. */
  method Exchange(l: Link, tag: Byte, payload: Bytes, room: nat, key: SessionKey)
    returns (fate: WriteFate, frame: Option<Bytes>, after: Link)
    requires InSync(l)
    ensures fate == Fate(l.peer, l.written, tag, payload, key)
    ensures frame == if Exchanged(l.peer, l.written, tag, payload, key) then FrameAt(l.peer, l.written, room, key) else None
    ensures frame.Some? ==> after == Answered(l) && InSync(after)
  {
    var asked: Link;
    var sent: Bytes;
    fate, sent, asked := WriteFrame(l, tag, payload, key);
    if fate != Written {
      return fate, None, asked;
    }
    frame, after := ReadFrameGeneric(asked, room, key);
  }

  /** Asks a replica whether it leads. */
  method ProbeIsLeader(l: Link, key: SessionKey) returns (leads: Option<bool>, after: Link)
    requires InSync(l)
    ensures leads == Probed(l, key)
    ensures leads.Some? ==> after == Answered(l) && InSync(after)
  {
    var _, frame, answered := Exchange(l, TAG_LEADER_PROBE_REQUEST, [], PROBE_BUFFER, key);
    if frame.None? || |frame.value| != 15 || frame.value[2] != TAG_LEADER_PROBE_RESPONSE {
      return None, answered;
    }
    return ParseLeaderProbe(frame.value[3..]), answered;
  }

  /** The cluster state that comes back, if one does. */
  method ExchangeState(l: Link, key: SessionKey) returns (payload: Option<Bytes>, after: Link)
    requires InSync(l)
    ensures payload == if Exchanged(l.peer, l.written, TAG_CLUSTER_STATE_REQUEST, [1], key)
                       then StateReplyAt(l.peer, l.written, key) else None
    ensures payload.Some? ==> after == Answered(l) && InSync(after)
  {
    var _, frame, answered := Exchange(l, TAG_CLUSTER_STATE_REQUEST, [1], STATE_BUFFER, key);
    if frame.None? || frame.value[2] != TAG_CLUSTER_STATE_RESPONSE {
      return None, answered;
    }
    return Some(frame.value[3..]), answered;
  }

  /** The fate of a run request's frame, and its reply if a well-formed run response comes back. */
  method ExchangeRun(l: Link, payload: Bytes, key: SessionKey) returns (fate: WriteFate, reply: Option<RunReply>, after: Link)
    requires InSync(l)
    ensures fate == Fate(l.peer, l.written, TAG_RUN_REQUEST, payload, key)
    ensures reply == if Exchanged(l.peer, l.written, TAG_RUN_REQUEST, payload, key)
                     then RunReplyAt(l.peer, l.written, key) else None
    ensures reply.Some? ==> after == Answered(l) && InSync(after)
  {
    var frame: Option<Bytes>;
    fate, frame, after := Exchange(l, TAG_RUN_REQUEST, payload, RUN_BUFFER, key);
    if frame.None? || frame.value[2] != TAG_RUN_RESPONSE {
      return fate, None, after;
    }
    reply := ParseRunReply(frame.value[3..]);
  }

  class HivemindClient {
    const addrs: seq<Text>
    const key: SessionKey
    var conn: Option<Link>
    var leader: Text
    var requestId: U64

    // What the next connection attempts will reach, in order.
    var upcoming: seq<Option<Peer>>

    // The run requests so far, and every one that was handed to a connection.
    ghost var calls: nat
    ghost var log: seq<Sending>

    ghost function View(): Net
      reads this
    {
      Net(conn, leader, upcoming)
    }

    predicate InStep()
      reads this
    {
      conn.Some? ==> InSync(conn.value)
    }

    /** The connection is in step, the replicas are honest, and no call was executed twice. */
    ghost predicate Valid()
      reads this
    {
      && InStep() && HonestNet(View(), key)
      && requestId == RequestId(calls) && SafeLog(log, calls, key)
    }

    constructor (addrs: seq<Text>, key: SessionKey, upcoming: seq<Option<Peer>>)
      requires forall p | p in upcoming && p.Some? :: Honest(p.value, key)
      ensures Valid() && View() == Net(None, [], upcoming) && requestId == 0 && calls == 0 && log == []
      ensures this.addrs == addrs && this.key == key
    {
      this.addrs, this.key, this.upcoming := addrs, key, upcoming;
      conn, leader, requestId, calls, log := None, [], 0, 0, [];
    }

    method Dial() returns (l: Option<Link>)
      modifies this`upcoming
      ensures upcoming == Rest(old(upcoming))
      ensures l == if old(upcoming) == [] || old(upcoming)[0].None? then None else Some(Dialed(old(upcoming)[0].value))
    {
      if upcoming == [] {
        return None;
      }
      var next := upcoming[0];
      upcoming := upcoming[1..];
      return if next.None? then None else Some(Link(next.value, 0, 0, 0));
    }

    /** The first replica, in the order of the addresses, that says it leads. */
    method DialLeader() returns (l: Option<Link>, addr: Text)
      modifies this`upcoming
      ensures (l, addr, upcoming) == FindLeader(addrs, old(upcoming), key)
      ensures l.Some? ==> InSync(l.value) && addr in addrs
    {
      l, addr := None, [];
      assert addrs[0..] == addrs;
      for i := 0 to |addrs|
        invariant FindLeader(addrs, old(upcoming), key) == FindLeader(addrs[i..], upcoming, key)
      {
        assert addrs[i..][1..] == addrs[i + 1..];
        var dialed := Dial();
        if dialed.Some? {
          var leads, after := ProbeIsLeader(dialed.value, key);
          if leads == Some(true) {
            return Some(after), addrs[i];
          }
        }
      }
    }

    /** Replaces the connection by one to the leader, or leaves none. */
    method ConnectLocked() returns (ok: bool)
      modifies this`conn, this`leader, this`upcoming
      ensures InStep() && View() == Connect(old(View()), addrs, key) && ok == conn.Some?
      ensures old(Valid()) ==> Valid()
    {
      if Valid() {
        ConnectHonest(View(), addrs, key);
      }
      conn := None;
      var l, addr := DialLeader();
      if l.None? {
        return false;
      }
      conn, leader := l, addr;
      return true;
    }

    method CloseLocked()
      modifies this`conn, this`leader
      ensures View() == Close(old(View()))
    {
      conn, leader := None, [];
    }

    /** Keeps a connection whose replica still says it leads, and otherwise replaces it. */
    method Refresh() returns (ok: bool)
      requires Valid()
      modifies this`conn, this`leader, this`upcoming
      ensures Valid() && ok == conn.Some?
      ensures View() ==
        if old(conn).Some? && Probed(old(conn).value, key) == Some(true)
        then old(View()).(conn := Some(Answered(old(conn).value)))
        else Connect(old(View()), addrs, key)
    {
      if conn.Some? {
        var leads, after := ProbeIsLeader(conn.value, key);
        if leads == Some(true) {
          conn := Some(after);
          return true;
        }
      }
      ok := ConnectLocked();
    }

    /** One attempt to get a cluster state; a failed attempt leaves no connection. */
    method AttemptClusterState() returns (payload: Option<Bytes>)
      requires Valid()
      modifies this`conn, this`leader, this`upcoming
      ensures Valid() && (payload.None? <==> conn.None?)
      ensures payload.Some? ==>
        var ready := ConnectIfNone(old(View()), addrs, key);
        && ready.conn.Some? && conn == Some(Answered(ready.conn.value))
        && payload == StateReplyAt(ready.conn.value.peer, ready.conn.value.written, key)
    {
      if conn.None? {
        var ok := ConnectLocked();
        if !ok {
          return None;
        }
      }
      var answered: Link;
      payload, answered := ExchangeState(conn.value, key);
      if payload.None? {
        CloseLocked();
        return None;
      }
      conn := Some(answered);
    }

    /** The payload of a cluster state response, from at most two attempts. */
    method SendClusterStateRequest() returns (payload: Option<Bytes>)
      requires Valid()
      modifies this`conn, this`leader, this`upcoming
      ensures Valid() && (payload.None? <==> conn.None?)
      ensures payload.Some? ==> conn.value.written > 0 && payload == StateReplyAt(conn.value.peer, conn.value.written - 1, key)
    {
      payload := AttemptClusterState();
      if payload.None? {
        payload := AttemptClusterState();
      }
    }

    /** Sends the request once, with the result that the fate of the frame and its own reply give; the
        connection is kept exactly when a reply is returned. */
    method Attempt(payload: Bytes, first: bool) returns (r: Option<RunResult>)
      requires conn.Some? && InStep() && requestId == RequestId(calls)
      modifies this`conn, this`leader, this`log
      ensures InStep()
      ensures
        var s := SendingOn(old(conn).value, calls, payload);
        && log == old(log) + [s] && r == SendingResult(s, key, first)
        && View() == AfterSending(old(View()), s, key, first)
    {
      var link := conn.value;
      log := log + [SendingOn(link, calls, payload)];
      var fate, reply, answered := ExchangeRun(link, payload, key);
      if fate != Written {
        CloseLocked();
        return Some(Refused(if fate == Interrupted then Ambiguous else Unavailable));
      }
      if reply.None? || reply.value.requestId != requestId {
        CloseLocked();
        return Some(Refused(Ambiguous));
      }
      if reply.value.status == STATUS_NOT_LEADER && first {
        CloseLocked();
        return None;
      }
      conn := Some(answered);
      if reply.value.status == STATUS_OUTCOME_AMBIGUOUS {
        return Some(RepliedAmbiguous(reply.value));
      }
      return Some(Replied(reply.value));
    }

    /** Sends the request, and once more if the first reply was not_leader. */
    method SendAttempts(payload: Bytes) returns (r: RunResult)
      requires conn.Some? && InStep() && requestId == RequestId(calls)
      modifies this`conn, this`leader, this`upcoming, this`log
      ensures InStep()
      ensures
        var o := SendOnceOrTwice(old(View()), calls, payload, addrs, key);
        r == o.result && View() == o.net && log == old(log) + o.sendings
    {
      ghost var start := View();
      ghost var s := SendingOn(conn.value, calls, payload);
      var attempt := 0;
      while attempt < 2
        invariant 0 <= attempt <= 1 && conn.Some? && InStep() && requestId == RequestId(calls)
        invariant attempt == 0 ==> View() == start && log == old(log)
        invariant attempt == 1 ==> SendingResult(s, key, true).None? && log == old(log) + [s]
        invariant attempt == 1 ==> View() == Connect(AfterSending(start, s, key, true), addrs, key)
      {
        var result := Attempt(payload, attempt == 0);
        if result.Some? {
          return result.value;
        }
        var ok := ConnectLocked();
        if !ok {
          return Refused(Unavailable);
        }
        attempt := attempt + 1;
      }
      // The retry budget is never exhausted here.
      assert false;
      r := Refused(Ambiguous);
    }

    /** Finds a connection if there is none, and sends the request. */
    method Submit(payload: Bytes) returns (r: RunResult)
      requires InStep() && requestId == RequestId(calls)
      modifies this`conn, this`leader, this`upcoming, this`log
      ensures InStep()
      ensures
        var o := SendRun(old(View()), calls, payload, addrs, key);
        r == o.result && View() == o.net && log == old(log) + o.sendings
    {
      var attempt := 0;
      while attempt < 2 && conn.None?
        invariant 0 <= attempt <= 2 && InStep() && log == old(log)
        invariant attempt == 0 ==> View() == old(View())
        invariant attempt == 1 ==> View() == ConnectIfNone(old(View()), addrs, key)
        invariant attempt == 2 ==> View() == Prepared(old(View()), addrs, key)
      {
        var _ := ConnectLocked();
        attempt := attempt + 1;
      }
      if conn.None? {
        return Refused(Unavailable);
      }
      r := SendAttempts(payload);
    }

    /** A run request is executed at most once, although it may be sent twice: a second sending happens
        only after a well-formed not_leader reply to the first. An unavailable result means that it was not
        executed at all. */
    method SendRunRequest(name: Text, payload: Bytes) returns (r: RunResult)
      requires Valid()
      modifies this`conn, this`leader, this`upcoming, this`requestId, this`calls, this`log
      ensures Valid() && Executions(log, calls, key) <= 1
      ensures r == Refused(Unavailable) ==> Executions(log, calls, key) == 0
      ensures r == Refused(Invalid) <==> |name| > MAX_NAME || 0 in name || |payload| > MAX_RUN_PAYLOAD
      ensures r == Refused(Invalid) ==> View() == old(View()) && calls == old(calls) && log == old(log)
      ensures r != Refused(Invalid) ==>
        var o := SendRun(old(View()), calls, RunRequestBytes(requestId, name, payload), addrs, key);
        calls == old(calls) + 1 && r == o.result && View() == o.net && log == old(log) + o.sendings
    {
      if |name| > MAX_NAME || 0 in name {
        return Refused(Invalid);
      }
      if |payload| > MAX_RUN_PAYLOAD {
        return Refused(Invalid);
      }
      NextRequestId(calls);
      requestId, calls := (requestId + 1) % (U64_MAX + 1), calls + 1;
      var data := RunRequestBytes(requestId, name, payload);
      NextCall(log, View(), calls, data, addrs, key);
      r := Submit(data);
    }
  }
}
