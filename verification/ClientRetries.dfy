/**
 Two ways in which a run request ends unavailable although it went out: a replica that led a moment ago
 answers not_leader, and then there is no leader to be found, or nothing can be written to the new one.
 */
module ClientRetries {
  import opened Basics
  import opened Wire
  import opened ClientWire
  import opened ClientSpec

  function Nonce(): (nonce: Bytes)
    ensures |nonce| == NONCE_LEN
  {
    seq(NONCE_LEN, _ => 0)
  }

  /** A write that goes out at once, in two parts. */
  function Smooth(payload: Bytes, key: SessionKey): Script {
    Script(Nonce(), true, true, [WriteAnswer(5, false), WriteAnswer(Overhead(key) + 3 + |payload|, false)], true)
  }

  const MUTE: Script := Script(Nonce(), false, true, [], true)

  lemma {:induction false} WholeWrite(data: Bytes, answers: seq<WriteAnswer>)
    requires data != [] && answers != [] && answers[0] == WriteAnswer(|data|, false)
    ensures WriteRun(data, answers) == (true, data, answers[1..])
  {
    assert data[|data|..] == [];
    assert data[..|data|] + [] == data;
  }

  lemma FrameLength(tag: Byte, payload: Bytes, key: SessionKey)
    requires LawfulKey(key)
    ensures |FrameBytes(tag, payload, key, Nonce())| == 5 + Overhead(key) + 3 + |payload|
  {
  }

  lemma {:induction false} SmoothWrites(tag: Byte, payload: Bytes, key: SessionKey)
    requires LawfulKey(key)
    ensures FrameWrite(tag, payload, key, Smooth(payload, key)).0 == Written
  {
    var frame := FrameBytes(tag, payload, key, Nonce());
    FrameLength(tag, payload, key);
    var answers := Smooth(payload, key).answers;
    WholeWrite(frame[..5], answers);
    WholeWrite(frame[5..], answers[1..]);
  }

  // -- A replica that leads, and then does not --

  const LEADS: Bytes := [0, 1, 0, 0, 0, 0, 0, 0, 0, 0, 0, 0]

  function NotLeader(call: nat): Bytes {
    ToLe(RequestId(call), 8) + [STATUS_NOT_LEADER]
  }

  function ProbeFrame(key: SessionKey): Bytes {
    FrameBytes(TAG_LEADER_PROBE_RESPONSE, LEADS, key, Nonce())
  }

  function RunFrame(call: nat, key: SessionKey): Bytes {
    FrameBytes(TAG_RUN_RESPONSE, NotLeader(call), key, Nonce())
  }

  /** Says that it leads, then answers not_leader; `last` is what happens while its second frame is written. */
  function Replica(call: nat, key: SessionKey, last: Script): Peer {
    Peer(ProbeFrame(key) + RunFrame(call, key), (k: nat) => if k == 0 then Smooth([], key) else last, (k: nat) => false, (k: nat, sent: Bytes) => false)
  }

  lemma ReplicaIsHonest(call: nat, key: SessionKey, last: Script)
    ensures Honest(Replica(call, key, last), key)
  {
  }

  lemma {:induction false} FirstFrame(call: nat, key: SessionKey, last: Script)
    requires LawfulKey(key)
    ensures FrameAt(Replica(call, key, last), 0, PROBE_BUFFER, key) == Some(Inner(TAG_LEADER_PROBE_RESPONSE, LEADS))
    ensures Boundary(Replica(call, key, last).stream, 1) == |ProbeFrame(key)|
  {
    var stream := Replica(call, key, last).stream;
    FrameLength(TAG_LEADER_PROBE_RESPONSE, LEADS, key);
    ClientRoundTrip(TAG_LEADER_PROBE_RESPONSE, LEADS, key, Nonce(), RunFrame(call, key), PROBE_BUFFER);
    assert stream[0..] == ProbeFrame(key) + RunFrame(call, key);
    BoundaryOne(stream, PROBE_BUFFER, key);
  }

  lemma {:induction false} BoundaryOne(stream: Bytes, room: nat, key: SessionKey)
    requires ReadFrame(stream, room, key).Some?
    ensures Boundary(stream, 1) == ReadFrame(stream, room, key).value.1
  {
    assert Boundary(stream, 0) == 0;
    assert stream[0..0 + 4] == stream[..4];
  }

  lemma {:induction false} SecondFrame(call: nat, key: SessionKey, last: Script)
    requires LawfulKey(key)
    ensures FrameAt(Replica(call, key, last), 1, RUN_BUFFER, key) == Some(Inner(TAG_RUN_RESPONSE, NotLeader(call)))
  {
    FirstFrame(call, key, last);
    var stream := Replica(call, key, last).stream;
    FrameLength(TAG_RUN_RESPONSE, NotLeader(call), key);
    ClientRoundTrip(TAG_RUN_RESPONSE, NotLeader(call), key, Nonce(), [], RUN_BUFFER);
    assert stream[|ProbeFrame(key)|..] == RunFrame(call, key) + [];
  }

  lemma LeadsIsRead()
    ensures ParseLeaderProbe(LEADS) == Some(true)
    ensures |Inner(TAG_LEADER_PROBE_RESPONSE, LEADS)| == 15
  {
  }

  lemma {:induction false} ProbeIsAnswered(call: nat, key: SessionKey, last: Script)
    requires LawfulKey(key)
    ensures ProbeReplyAt(Replica(call, key, last), 0, key) == Some(true)
  {
    FirstFrame(call, key, last);
    InnerParts(TAG_LEADER_PROBE_RESPONSE, LEADS);
    LeadsIsRead();
  }

  lemma {:induction false} SaysItLeads(call: nat, key: SessionKey, last: Script)
    requires LawfulKey(key)
    ensures Probed(Dialed(Replica(call, key, last)), key) == Some(true)
  {
    ProbeIsAnswered(call, key, last);
    SmoothWrites(TAG_LEADER_PROBE_REQUEST, [], key);
  }

  lemma {:induction false} AnswersNotLeader(call: nat, key: SessionKey, last: Script)
    requires LawfulKey(key)
    ensures RunReplyAt(Replica(call, key, last), 1, key) == Some(RunReply(RequestId(call), STATUS_NOT_LEADER, []))
  {
    SecondFrame(call, key, last);
    InnerParts(TAG_RUN_RESPONSE, NotLeader(call));
    ParseRunReplyIff(NotLeader(call), RunReply(RequestId(call), STATUS_NOT_LEADER, []));
  }

  lemma {:induction false} TurnsAway(call: nat, payload: Bytes, key: SessionKey)
    requires LawfulKey(key)
    ensures TurnedAway(Sending(call, payload, Replica(call, key, Smooth(payload, key)), 1), key)
  {
    AnswersNotLeader(call, key, Smooth(payload, key));
    SmoothWrites(TAG_RUN_REQUEST, payload, key);
  }

  // -- The two runs --

  /** A replica that turns the request away, and nothing else to connect to. */
  function Alone(call: nat, payload: Bytes, key: SessionKey): Net {
    Net(None, [], [Some(Replica(call, key, Smooth(payload, key)))])
  }

  /** The same, and then a leader to which the request cannot be written. */
  function Followed(call: nat, payload: Bytes, key: SessionKey): Net {
    Net(None, [], [Some(Replica(call, key, Smooth(payload, key))), Some(Replica(call, key, MUTE))])
  }

  lemma {:induction false} ConnectsFirst(n: Net, call: nat, key: SessionKey, last: Script, addr: Text)
    requires LawfulKey(key) && n.upcoming != [] && n.upcoming[0] == Some(Replica(call, key, last))
    ensures Connect(n, [addr], key) == Net(Some(Answered(Dialed(n.upcoming[0].value))), addr, n.upcoming[1..])
  {
    SaysItLeads(call, key, last);
    assert FirstLeads(n.upcoming, key);
  }

  lemma {:induction false} ConnectsNowhere(n: Net, key: SessionKey, addr: Text)
    requires n.upcoming == []
    ensures Connect(n, [addr], key).conn.None?
  {
    assert [addr][1..] == [];
    assert FindLeader([], [], key).0.None?;
  }

  /** No leader is left: the request went out once, and the call ends unavailable. */
  lemma {:induction false} NoLeaderLeft(call: nat, payload: Bytes, key: SessionKey, addr: Text)
    requires LawfulKey(key)
    ensures
      var o := SendRun(Alone(call, payload, key), call, payload, [addr], key);
      o.result == Refused(Unavailable) && WentOut(o, key) && HonestNet(Alone(call, payload, key), key)
  {
    var n := Alone(call, payload, key);
    ConnectsFirst(n, call, key, Smooth(payload, key), addr);
    TurnsAway(call, payload, key);
    var ready := Prepared(n, [addr], key);
    ConnectsNowhere(Close(ready), key, addr);
    assert Bounced(n, call, payload, [addr], key);
    WentOutUnavailableIff(n, call, payload, [addr], key);
    ReplicaIsHonest(call, key, Smooth(payload, key));
  }

  /** Another leader is found, but nothing can be written to it: the request went out once, was handed to
      two connections, and the call ends unavailable. */
  lemma {:induction false} NothingWrittenAgain(call: nat, payload: Bytes, key: SessionKey, addr: Text)
    requires LawfulKey(key)
    ensures
      var o := SendRun(Followed(call, payload, key), call, payload, [addr], key);
      && o.result == Refused(Unavailable) && WentOut(o, key) && |o.sendings| == 2
      && HonestNet(Followed(call, payload, key), key)
  {
    var n := Followed(call, payload, key);
    ConnectsFirst(n, call, key, Smooth(payload, key), addr);
    TurnsAway(call, payload, key);
    var ready := Prepared(n, [addr], key);
    ConnectsFirst(Close(ready), call, key, MUTE, addr);
    assert Bounced(n, call, payload, [addr], key);
    WentOutUnavailableIff(n, call, payload, [addr], key);
    SecondSendingIff(n, call, payload, [addr], key);
    ReplicaIsHonest(call, key, Smooth(payload, key));
    ReplicaIsHonest(call, key, MUTE);
  }
}
