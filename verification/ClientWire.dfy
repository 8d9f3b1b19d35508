/**
 The API client's side of the wire: reading exactly one frame from a connection, and the replies it
 understands. The limits differ from the worker's: a frame need only fit the caller's buffer.
 */
module ClientWire {
  import opened Basics
  import opened Wire

  const TAG_RUN_REQUEST: Byte := 0x22
  const TAG_RUN_RESPONSE: Byte := 0x23
  const TAG_CLUSTER_STATE_REQUEST: Byte := 0x24
  const TAG_CLUSTER_STATE_RESPONSE: Byte := 0x25
  const TAG_LEADER_PROBE_REQUEST: Byte := 0x26
  const TAG_LEADER_PROBE_RESPONSE: Byte := 0x27
  const MAX_RUN_RESPONSE_BODY: nat := 16384 - 9

  // -- Frames --

  /** The bytes are exactly one frame whose plaintext is a version, a tag and a payload. */
  predicate IsClientFrame(frame: Bytes, key: SessionKey, plain: Bytes) {
    && |frame| >= 5
    && FromLe(frame[..4]) == |frame| - 4
    && frame[4] == Flag(key)
    && |frame| >= 5 + Overhead(key) + 3
    && Opened(frame[5..], frame[..5], key) == Some(plain)
    && ValidVersion(plain)
  }

  /** Reads one frame into a buffer of `room` bytes: its plaintext and the bytes it took. */
  function ReadFrame(data: Bytes, room: nat, key: SessionKey): Option<(Bytes, nat)> {
    if |data| < 4 || room < 4 then None
    else
      var len := FromLe(data[..4]);
      if len < 1 || len > room - 4 || |data| < 4 + len || data[4] != Flag(key) || len < 1 + Overhead(key) + 3 then None
      else
        var plain := Opened(data[5..4 + len], data[..5], key);
        if plain.None? || !ValidVersion(plain.value) then None else Some((plain.value, 4 + len))
  }

  lemma ReadFrameIff(data: Bytes, room: nat, key: SessionKey, plain: Bytes, n: nat)
    ensures ReadFrame(data, room, key) == Some((plain, n)) <==>
            n <= |data| && n <= room && IsClientFrame(data[..n], key, plain)
  {
    if n <= |data| && 5 <= n {
      var frame := data[..n];
      assert frame[..4] == data[..4] && frame[5..] == data[5..n] && frame[..5] == data[..5];
    }
  }

  /** Where the `k`-th frame of a stream begins, by the lengths the frames declare. */
  function Boundary(stream: Bytes, k: nat): nat {
    if k == 0 then 0
    else
      var b := Boundary(stream, k - 1);
      b + 4 + if b + 4 <= |stream| then FromLe(stream[b..b + 4]) else 0
  }

  // -- Run responses --

  datatype RunReply = RunReply(requestId: U64, status: Byte, body: Bytes)

  const STATUS_OK: Byte := 0
  const STATUS_OUTCOME_AMBIGUOUS: Byte := 5
  const STATUS_NOT_LEADER: Byte := 9

  /** The two layouts of a run response: a bare error, or a declared length and a body. */
  predicate IsRunReply(raw: Bytes, r: RunReply) {
    && r.status <= STATUS_NOT_LEADER
    && ((raw == ToLe(r.requestId, 8) + [r.status] && r.status != STATUS_OK && r.body == []) ||
        (|r.body| <= MAX_RUN_RESPONSE_BODY && raw == ToLe(r.requestId, 8) + [r.status] + ToLe(|r.body|, 4) + r.body))
  }

  function ParseRunReply(raw: Bytes): Option<RunReply> {
    assert Pow256(8) == U64_MAX + 1;
    if |raw| < 9 || raw[8] > STATUS_NOT_LEADER then None
    else
      FromLeBound(raw[..8]);
      if |raw| == 9 then
        if raw[8] == STATUS_OK then None else Some(RunReply(FromLe(raw[..8]), raw[8], []))
      else if |raw| < 13 then None
      else if FromLe(raw[9..13]) > MAX_RUN_RESPONSE_BODY || |raw| - 13 != FromLe(raw[9..13]) then None
      else Some(RunReply(FromLe(raw[..8]), raw[8], raw[13..]))
  }

  lemma ParsedIsReply(raw: Bytes, r: RunReply)
    requires ParseRunReply(raw) == Some(r)
    ensures IsRunReply(raw, r)
  {
    LeInverse(raw[..8]);
    if |raw| == 9 {
      assert raw == raw[..8] + [raw[8]];
    } else {
      LeInverse(raw[9..13]);
      assert raw == raw[..8] + [raw[8]] + raw[9..13] + raw[13..];
    }
  }

  lemma ReplyIsParsed(raw: Bytes, r: RunReply)
    requires IsRunReply(raw, r)
    ensures ParseRunReply(raw) == Some(r)
  {
    assert Pow256(8) == U64_MAX + 1 && Pow256(4) == U32_MAX + 1;
    LeRoundTrip(r.requestId, 8);
    assert raw[..8] == ToLe(r.requestId, 8) && raw[8] == r.status;
    if |raw| > 9 {
      LeRoundTrip(|r.body|, 4);
      assert raw[9..13] == ToLe(|r.body|, 4) && raw[13..] == r.body;
    }
  }

  /** A reply is accepted exactly when it has one of the two layouts, and is read as what it says. */
  lemma ParseRunReplyIff(raw: Bytes, r: RunReply)
    ensures ParseRunReply(raw) == Some(r) <==> IsRunReply(raw, r)
  {
    if ParseRunReply(raw) == Some(r) {
      ParsedIsReply(raw, r);
    }
    if IsRunReply(raw, r) {
      ReplyIsParsed(raw, r);
    }
  }

  // -- Leader probes --

  /** The answer to a probe: whether the replica leads, or an error. */
  function ParseLeaderProbe(payload: Bytes): Option<bool> {
    if |payload| != 12 || payload[0] > 2 || payload[1] > 1 || payload[2] >= 11 || payload[3] >= 11 then None
    else Some(payload[1] == 1 && payload[0] == 0 && payload[2] == payload[3])
  }

  /** The bytes of a probe's answer: status, whether it leads, its own id and the leader's, and the view. */
  function ProbeBytes(status: Byte, leads: bool, replica: Byte, leader: Byte, view: U64): Bytes {
    [status, if leads then 1 else 0, replica, leader] + ToLe(view, 8)
  }

  /** A replica leads if it says so, is in normal operation and names itself. */
  lemma ProbeReadBack(status: Byte, leads: bool, replica: Byte, leader: Byte, view: U64)
    requires status <= 2 && replica < 11 && leader < 11
    ensures ParseLeaderProbe(ProbeBytes(status, leads, replica, leader, view)) == Some(leads && status == 0 && replica == leader)
  {
  }

  /** Nothing else is accepted as an answer. */
  lemma ProbeIff(payload: Bytes)
    ensures ParseLeaderProbe(payload).Some? <==>
            exists status, leads, replica, leader, view ::
              status <= 2 && replica < 11 && leader < 11 && payload == ProbeBytes(status, leads, replica, leader, view)
  {
    if ParseLeaderProbe(payload).Some? {
      assert Pow256(8) == U64_MAX + 1;
      FromLeBound(payload[4..]);
      LeInverse(payload[4..]);
      assert payload == ProbeBytes(payload[0], payload[1] == 1, payload[2], payload[3], FromLe(payload[4..]));
    }
  }

  // -- Writing --

  /** What becomes of a frame that is to be written: it goes out, nothing of it goes out, or an
      unknown part of it does. */
  datatype WriteFate = Written | NotAttempted | Interrupted

  /** What one call of the connection's `Write` answers: a byte count, and whether it failed. */
  datatype WriteAnswer = WriteAnswer(n: int, failed: bool)

  /** What the connection does while one frame is written: the nonce drawn for it, whether the deadline can
      be set, whether sealing succeeds, the answers of `Write`, and whether the deadline can be cleared. */
  datatype Script = Script(nonce: Bytes, deadlineSet: bool, sealed: bool, answers: seq<WriteAnswer>, deadlineCleared: bool)

  /** Writing until everything is written or a call fails, makes no progress or lies about its count:
      whether all was written, what went out, and the answers left. */
  function WriteRun(data: Bytes, answers: seq<WriteAnswer>): (r: (bool, Bytes, seq<WriteAnswer>))
    ensures r.1 <= data && (r.0 ==> r.1 == data)
    decreases |answers|
  {
    if data == [] then (true, [], answers)
    else if answers == [] then (false, [], [])
    else
      var a := answers[0];
      if a.n < 0 || a.n > |data| then (false, [], answers[1..])
      else if a.failed || a.n == 0 then (false, data[..a.n], answers[1..])
      else
        var (ok, sent, left) := WriteRun(data[a.n..], answers[1..]);
        (ok, data[..a.n] + sent, left)
  }

  /** What becomes of a frame, and the bytes of it that went out. */
  function FrameWrite(tag: Byte, payload: Bytes, key: SessionKey, w: Script): (WriteFate, Bytes) {
    if !w.deadlineSet || (key.Some? && !w.sealed) then (NotAttempted, [])
    else
      var frame := FrameBytes(tag, payload, key, w.nonce);
      var (begun, first, left) := WriteRun(frame[..5], w.answers);
      if !begun then (Interrupted, first)
      else
        var (ended, rest, _) := WriteRun(frame[5..], left);
        (if ended && w.deadlineCleared then Written else Interrupted, frame[..5] + rest)
  }

  /** A frame is reported as written only if all of it went out, and as not attempted only if none of it
      did; in every other case an unknown part of it may have gone out. */
  lemma {:induction false} FrameWriteMeans(tag: Byte, payload: Bytes, key: SessionKey, w: Script)
    ensures
      var (fate, sent) := FrameWrite(tag, payload, key, w);
      && sent <= FrameBytes(tag, payload, key, w.nonce)
      && (fate == Written ==> sent == FrameBytes(tag, payload, key, w.nonce))
      && (fate == NotAttempted <==> !w.deadlineSet || (key.Some? && !w.sealed))
      && (fate == NotAttempted ==> sent == [])
  {
    var frame := FrameBytes(tag, payload, key, w.nonce);
    var (begun, first, left) := WriteRun(frame[..5], w.answers);
    var rest := WriteRun(frame[5..], left).1;
    assert frame == frame[..5] + frame[5..];
    assert first == frame[..|first|];
    assert frame[..5] + rest == frame[..5 + |rest|];
  }

  /** What writing comes to after some bytes went out already. */
  function Continued(sent: Bytes, r: (bool, Bytes, seq<WriteAnswer>)): (bool, Bytes, seq<WriteAnswer>) {
    (r.0, sent + r.1, r.2)
  }

  lemma {:induction false} WriteRunOne(tail: Bytes, answers: seq<WriteAnswer>)
    requires tail != [] && answers != [] && 0 < answers[0].n <= |tail| && !answers[0].failed
    ensures WriteRun(tail, answers) == Continued(tail[..answers[0].n], WriteRun(tail[answers[0].n..], answers[1..]))
  {
  }

  lemma ContinuedTwice(a: Bytes, b: Bytes, r: (bool, Bytes, seq<WriteAnswer>))
    ensures Continued(a, Continued(b, r)) == Continued(a + b, r)
  {
    assert a + (b + r.1) == (a + b) + r.1;
  }

  lemma {:induction false} WriteRunStep(data: Bytes, sent: Bytes, answers: seq<WriteAnswer>)
    requires sent <= data && |sent| < |data| && answers != [] && 0 < answers[0].n <= |data| - |sent| && !answers[0].failed
    ensures
      var more := data[..|sent| + answers[0].n];
      Continued(sent, WriteRun(data[|sent|..], answers)) == Continued(more, WriteRun(data[|more|..], answers[1..]))
  {
    var n := answers[0].n;
    var tail := data[|sent|..];
    WriteRunOne(tail, answers);
    ContinuedTwice(sent, tail[..n], WriteRun(tail[n..], answers[1..]));
    TwoCuts(data, sent, n);
  }

  lemma TwoCuts(data: Bytes, sent: Bytes, n: nat)
    requires sent <= data && |sent| + n <= |data|
    ensures data[|sent|..][n..] == data[|sent| + n..]
    ensures data[..|sent| + n] == sent + data[|sent|..][..n]
  {
  }

  lemma {:induction false} WriteRunStops(data: Bytes, sent: Bytes, answers: seq<WriteAnswer>)
    requires sent <= data && |sent| < |data|
    requires answers == [] || answers[0].n < 0 || answers[0].n > |data| - |sent|
    ensures Continued(sent, WriteRun(data[|sent|..], answers)) == (false, sent, if answers == [] then [] else answers[1..])
  {
    assert sent + [] == sent;
  }

  lemma {:induction false} WriteRunFails(data: Bytes, sent: Bytes, answers: seq<WriteAnswer>)
    requires sent <= data && |sent| < |data| && answers != [] && 0 <= answers[0].n <= |data| - |sent|
    requires answers[0].failed || answers[0].n == 0
    ensures Continued(sent, WriteRun(data[|sent|..], answers)) == (false, data[..|sent| + answers[0].n], answers[1..])
  {
    assert data[..|sent| + answers[0].n] == sent + data[|sent|..][..answers[0].n];
  }

  lemma {:induction false} WriteRunEnds(data: Bytes, answers: seq<WriteAnswer>)
    ensures Continued([], WriteRun(data[0..], answers)) == WriteRun(data, answers)
    ensures Continued(data, WriteRun(data[|data|..], answers)) == (true, data, answers)
  {
    assert data[0..] == data && [] + WriteRun(data, answers).1 == WriteRun(data, answers).1;
    assert data + [] == data;
  }

  method WriteAll(data: Bytes, answers: seq<WriteAnswer>) returns (ok: bool, sent: Bytes, left: seq<WriteAnswer>)
    ensures (ok, sent, left) == WriteRun(data, answers)
    ensures sent <= data && (ok ==> sent == data)
  {
    sent, left := [], answers;
    WriteRunEnds(data, answers);
    while |sent| < |data|
      invariant sent <= data
      invariant WriteRun(data, answers) == Continued(sent, WriteRun(data[|sent|..], left))
      decreases |left|
    {
      if left == [] {
        WriteRunStops(data, sent, left);
        return false, sent, left;
      }
      var a := left[0];
      if a.n < 0 || a.n > |data| - |sent| {
        WriteRunStops(data, sent, left);
        return false, sent, left[1..];
      }
      if a.failed || a.n == 0 {
        WriteRunFails(data, sent, left);
        return false, data[..|sent| + a.n], left[1..];
      }
      WriteRunStep(data, sent, left);
      sent, left := data[..|sent| + a.n], left[1..];
    }
    WriteRunEnds(data, left);
    return true, sent, left;
  }

  method WriteFrameEncrypted(tag: Byte, payload: Bytes, key: SessionKey, w: Script) returns (fate: WriteFate, sent: Bytes)
    ensures (fate, sent) == FrameWrite(tag, payload, key, w)
    ensures sent <= FrameBytes(tag, payload, key, w.nonce)
    ensures fate == Written ==> sent == FrameBytes(tag, payload, key, w.nonce)
    ensures fate == NotAttempted <==> !w.deadlineSet || (key.Some? && !w.sealed)
    ensures fate == NotAttempted ==> sent == []
  {
    FrameWriteMeans(tag, payload, key, w);
    if !w.deadlineSet || (key.Some? && !w.sealed) {
      return NotAttempted, [];
    }
    var inner := ToLe(PROTOCOL_VERSION, 2) + [tag] + payload;
    var header := ToLe(1 + Overhead(key) + |inner|, 4) + [Flag(key)];
    assert header == Header(key, payload);
    var body := if key.Some? then key.value.seal(w.nonce, inner, header) else inner;
    assert FrameBytes(tag, payload, key, w.nonce) == header + body;
    assert (header + body)[..5] == header && (header + body)[5..] == body;
    var ok, first, left := WriteAll(header, w.answers);
    if !ok {
      return Interrupted, first;
    }
    var rest: Bytes;
    ok, rest, left := WriteAll(body, left);
    return if ok && w.deadlineCleared then Written else Interrupted, header + rest;
  }

  // -- Reading what a writer wrote --

  lemma WrittenIsClientFrame(tag: Byte, payload: Bytes, key: SessionKey, nonce: Bytes)
    requires LawfulKey(key) && |nonce| == NONCE_LEN && |payload| <= MAX_FRAME_PAYLOAD
    ensures IsClientFrame(FrameBytes(tag, payload, key, nonce), key, Inner(tag, payload))
  {
    WritesFrame(tag, payload, key, nonce);
    InnerParts(tag, payload);
  }

  /** What one side writes the client reads back, whatever follows it, if its buffer has the room. */
  lemma ClientRoundTrip(tag: Byte, payload: Bytes, key: SessionKey, nonce: Bytes, rest: Bytes, room: nat)
    requires LawfulKey(key) && |nonce| == NONCE_LEN && |payload| <= MAX_FRAME_PAYLOAD
    requires |FrameBytes(tag, payload, key, nonce)| <= room
    ensures
      var frame := FrameBytes(tag, payload, key, nonce);
      ReadFrame(frame + rest, room, key) == Some((Inner(tag, payload), |frame|))
  {
    var frame := FrameBytes(tag, payload, key, nonce);
    WrittenIsClientFrame(tag, payload, key, nonce);
    assert (frame + rest)[..|frame|] == frame;
    ReadFrameIff(frame + rest, room, key, Inner(tag, payload), |frame|);
  }
}
