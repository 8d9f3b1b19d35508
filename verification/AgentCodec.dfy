/**
 The payloads a worker sends: their layout, an encoder that writes them into a buffer in place, and
 what the control plane reads back from them.
 */
module AgentCodec {
  import opened Basics
  import opened Messages
  import opened Wire
  import opened MessageCodec

  const NODE_REGISTER_LEN: nat := 138
  const NODE_HEARTBEAT_LEN: nat := 23
  const POD_STATUS_EVENT_LEN: nat := 150
  const RUN_RESPONSE_HEADER: nat := 9

  /** The fields hold values of their wire types. */
  predicate Typed(m: WorkerMessage) {
    match m
    case NodeHeartbeat(tick, activePods, gpuFree) =>
      0 <= tick <= U64_MAX && 0 <= activePods <= U32_MAX && 0 <= gpuFree <= U8_MAX
    case _ => true
  }

  function PhaseCode(r: PodStatusReport): Byte {
    match r
    case ReportImagePulling => 0
    case ReportCreating => 1
    case ReportRunning => 2
    case ReportStopped(_) => 3
    case ReportFailed(_) => 4
  }

  function ExitCode(r: PodStatusReport): int {
    match r
    case ReportStopped(exitCode) => exitCode
    case ReportFailed(_) => 1
    case _ => 0
  }

  function StatusText(r: PodStatusReport): Text {
    match r
    case ReportImagePulling => Ascii("pulling")
    case ReportCreating => Ascii("creating")
    case ReportRunning => Ascii("running")
    case ReportStopped(_) => Ascii("stopped")
    case ReportFailed(reason) => reason
  }

  /** A signed 32-bit value as the unsigned value with the same bits. */
  function Unsigned32(v: int): (u: int)
    requires -0x8000_0000 <= v < 0x8000_0000
    ensures 0 <= u <= U32_MAX
  {
    if v < 0 then v + 0x1_0000_0000 else v
  }

  function TagOf(m: WorkerMessage): Byte {
    match m
    case NodeRegister(_, _, _, _, _) => MSG_NODE_REGISTER
    case NodeHeartbeat(_, _, _) => MSG_NODE_HEARTBEAT
    case PodStatusEvent(_, _) => MSG_POD_STATUS_EVENT
    case RunResponse(_, _, _) => MSG_RUN_RESPONSE
  }

  function AgentPayload(m: WorkerMessage): Bytes
    requires Typed(m)
  {
    match m
    case NodeRegister(name, cpu, memory, gpuType, gpuCount) =>
      Fixed(name, 64) + (ToLe(cpu, 4) + (ToLe(memory, 4) + ([GpuCode(gpuType)] + ([gpuCount] + Zeros(64)))))
    case NodeHeartbeat(tick, activePods, _) =>
      ToLe(tick, 8) + (Zeros(13) + ToLe(activePods % 0x1_0000, 2))
    case PodStatusEvent(id, report) =>
      ToLe(id, 8) + ([0] + ([PhaseCode(report)] + (Zeros(8) + (ToLe(Unsigned32(ExitCode(report)), 4) +
                                                             Fixed(StatusText(report), 128)))))
    case RunResponse(requestId, status, payload) =>
      if |payload| > MAX_RUN_RESPONSE_BODY then ToLe(requestId, 8) + [STATUS_TOO_LARGE]
      else ToLe(requestId, 8) + ([status] + payload)
  }

  /** Whether the encoder accepts a message, given the size of its buffer. */
  predicate Encodable(m: WorkerMessage, room: nat) {
    match m
    case NodeRegister(_, _, _, _, _) => NODE_REGISTER_LEN <= room
    case NodeHeartbeat(_, _, _) => NODE_HEARTBEAT_LEN <= room
    case PodStatusEvent(_, _) => POD_STATUS_EVENT_LEN <= room
    case RunResponse(_, status, payload) =>
      RUN_RESPONSE_HEADER <= room && status < STATUS_NOT_LEADER &&
      (|payload| > MAX_RUN_RESPONSE_BODY || RUN_RESPONSE_HEADER + |payload| <= room)
  }

  // -- What the control plane reads back --

  lemma RegisterReadBack(m: WorkerMessage)
    requires m.NodeRegister? && NulFree(m.nodeName)
    ensures
      var p := AgentPayload(m);
      && |p| == NODE_REGISTER_LEN
      && CString(Field(p, 0, 64)) == m.nodeName[..Min(|m.nodeName|, 64)]
      && FromLe(Field(p, 64, 4)) == m.cpuMillicores && FromLe(Field(p, 68, 4)) == m.memoryMegabytes
      && GpuOf(p[72]) == Ok(m.gpuType) && p[73] == m.gpuCount
  {
    var p := AgentPayload(m);
    var t4 := [m.gpuCount] + Zeros(64);
    var t3 := [GpuCode(m.gpuType)] + t4;
    var t2 := ToLe(m.memoryMegabytes, 4) + t3;
    var t1 := ToLe(m.cpuMillicores, 4) + t2;
    assert p[0..] == p;
    Advance(p, 0, Fixed(m.nodeName, 64), t1);
    Advance(p, 64, ToLe(m.cpuMillicores, 4), t2);
    Advance(p, 68, ToLe(m.memoryMegabytes, 4), t3);
    Advance(p, 72, [GpuCode(m.gpuType)], t4);
    assert p[72] == Field(p, 72, 1)[0];
    assert p[73] == p[73..][0];
    FixedRoundTrip(m.nodeName, 64);
    assert Pow256(4) == U32_MAX + 1;
    LeRoundTrip(m.cpuMillicores, 4);
    LeRoundTrip(m.memoryMegabytes, 4);
    GpuRoundTrip(m.gpuType);
  }

  lemma HeartbeatReadBack(m: WorkerMessage)
    requires m.NodeHeartbeat? && Typed(m)
    ensures
      var p := AgentPayload(m);
      && |p| == NODE_HEARTBEAT_LEN && FromLe(Field(p, 0, 8)) == m.tick
      && FromLe(Field(p, 21, 2)) == m.activePods % 0x1_0000
  {
    var p := AgentPayload(m);
    var count := ToLe(m.activePods % 0x1_0000, 2);
    assert p[0..] == p;
    Advance(p, 0, ToLe(m.tick, 8), Zeros(13) + count);
    Advance(p, 8, Zeros(13), count);
    assert Field(p, 21, 2) == p[21..];
    assert Pow256(8) == U64_MAX + 1 && Pow256(2) == 0x1_0000;
    LeRoundTrip(m.tick, 8);
    LeRoundTrip(m.activePods % 0x1_0000, 2);
  }

  lemma StatusReadBack(m: WorkerMessage)
    requires m.PodStatusEvent? && Typed(m) && NulFree(StatusText(m.report))
    ensures
      var p := AgentPayload(m);
      && |p| == POD_STATUS_EVENT_LEN && FromLe(Field(p, 0, 8)) == m.podId && p[9] == PhaseCode(m.report)
      && FromLe(Field(p, 18, 4)) == Unsigned32(ExitCode(m.report))
      && CString(Field(p, 22, 128)) == StatusText(m.report)[..Min(|StatusText(m.report)|, 128)]
  {
    var p := AgentPayload(m);
    var t5 := Fixed(StatusText(m.report), 128);
    var t4 := ToLe(Unsigned32(ExitCode(m.report)), 4) + t5;
    var t3 := Zeros(8) + t4;
    var t2 := [PhaseCode(m.report)] + t3;
    assert p[0..] == p;
    Advance(p, 0, ToLe(m.podId, 8), [0] + t2);
    Advance(p, 8, [0], t2);
    Advance(p, 9, [PhaseCode(m.report)], t3);
    assert p[9] == Field(p, 9, 1)[0];
    Advance(p, 10, Zeros(8), t4);
    Advance(p, 18, ToLe(Unsigned32(ExitCode(m.report)), 4), t5);
    assert t5 == Field(p, 22, 128);
    assert Pow256(8) == U64_MAX + 1 && Pow256(4) == U32_MAX + 1;
    LeRoundTrip(m.podId, 8);
    LeRoundTrip(Unsigned32(ExitCode(m.report)), 4);
    FixedRoundTrip(StatusText(m.report), 128);
  }

  /** The control plane's reading of a status event: the phase byte says which of the texts and the exit code
      belong to it. */
  function ReadReport(p: Bytes): Option<PodStatusReport>
    requires |p| == POD_STATUS_EVENT_LEN
  {
    FromLeBound(Field(p, 18, 4));
    assert Pow256(4) == 0x1_0000_0000;
    var code := FromLe(Field(p, 18, 4));
    match p[9]
    case 0 => Some(ReportImagePulling)
    case 1 => Some(ReportCreating)
    case 2 => Some(ReportRunning)
    case 3 => Some(ReportStopped(if code < 0x8000_0000 then code else code - 0x1_0000_0000))
    case 4 => Some(ReportFailed(CString(Field(p, 22, 128))))
    case _ => None
  }

  /** Every report is read back, with its exit code or its reason if that fits. */
  lemma ReportReadBack(m: WorkerMessage)
    requires m.PodStatusEvent? && (m.report.ReportFailed? ==> Fits(m.report.reason, 128))
    ensures |AgentPayload(m)| == POD_STATUS_EVENT_LEN && ReadReport(AgentPayload(m)) == Some(m.report)
  {
    TextsAreNulFree(m.report);
    StatusReadBack(m);
    if m.report.ReportFailed? {
      assert m.report.reason[..|m.report.reason|] == m.report.reason;
    }
  }

  lemma TextsAreNulFree(r: PodStatusReport)
    requires r.ReportFailed? ==> NulFree(r.reason)
    ensures NulFree(StatusText(r))
  {
  }

  /** An oversize body is answered by an explicit error for the same request, never cut. */
  lemma ResponseReadBack(m: WorkerMessage)
    requires m.RunResponse?
    ensures
      var p := AgentPayload(m);
      && |p| >= RUN_RESPONSE_HEADER && |p| <= MAX_FRAME_PAYLOAD && FromLe(Field(p, 0, 8)) == m.requestId
      && (|m.payload| <= MAX_RUN_RESPONSE_BODY ==> p[8] == m.status && p[9..] == m.payload)
      && (|m.payload| > MAX_RUN_RESPONSE_BODY ==> p[8] == STATUS_TOO_LARGE && p[9..] == [])
  {
    var p := AgentPayload(m);
    assert p[0..] == p;
    Advance(p, 0, ToLe(m.requestId, 8), p[8..]);
    assert Pow256(8) == U64_MAX + 1;
    LeRoundTrip(m.requestId, 8);
  }

  /** No payload is longer than a frame allows. */
  lemma PayloadFitsFrame(m: WorkerMessage)
    requires Typed(m)
    ensures |AgentPayload(m)| <= MAX_FRAME_PAYLOAD
  {
  }

  // -- The encoder --

  function Overwritten(b: Bytes, at: nat, piece: Bytes): Bytes
    requires at + |piece| <= |b|
  {
    b[..at] + piece + b[at + |piece|..]
  }

  method Put(buf: array<Byte>, at: nat, piece: Bytes)
    requires at + |piece| <= buf.Length
    modifies buf
    ensures buf[..] == Overwritten(old(buf[..]), at, piece)
  {
    ghost var before := buf[..];
    for i := 0 to |piece|
      invariant buf[..at] == before[..at]
      invariant buf[at..at + i] == piece[..i]
      invariant buf[at + i..] == before[at + i..]
    {
      buf[at + i] := piece[i];
    }
    assert buf[..] == buf[..at] + buf[at..at + |piece|] + buf[at + |piece|..];
  }

  /** Clears the payload's part of the buffer, if it is large enough. */
  method FixedPayload(buf: array<Byte>, len: nat) returns (ok: bool)
    modifies buf
    ensures ok <==> len <= buf.Length
    ensures buf[..] == if ok then Zeros(len) + old(buf[..])[len..] else old(buf[..])
  {
    if len > buf.Length {
      return false;
    }
    Put(buf, 0, Zeros(len));
    return true;
  }

  /** Writing a field where zeros begin moves them along. */
  lemma FieldOverZeros(done: Bytes, n: nat, rest: Bytes, piece: Bytes)
    requires |piece| <= n
    ensures Overwritten(done + Zeros(n) + rest, |done|, piece) == (done + piece) + Zeros(n - |piece|) + rest
  {
    var b := done + Zeros(n) + rest;
    assert b[..|done|] == done;
    assert b[|done| + |piece|..] == Zeros(n - |piece|) + rest;
  }

  /** Skipping a gap leaves zeros in it. */
  lemma GapOfZeros(done: Bytes, n: nat, rest: Bytes, gap: nat)
    requires gap <= n
    ensures done + Zeros(n) + rest == (done + Zeros(gap)) + Zeros(n - gap) + rest
  {
    assert Zeros(n) == Zeros(gap) + Zeros(n - gap);
  }

  lemma Regroup(a: Bytes, b: Bytes, c: Bytes)
    ensures a + b + c == a + (b + c)
  {
  }

  /** Fields written one after the other are the nested layout. */
  lemma SixFields(a: Bytes, b: Bytes, c: Bytes, d: Bytes, e: Bytes, f: Bytes)
    ensures [] + a + b + c + d + e + f == a + (b + (c + (d + (e + f))))
  {
    assert [] + a == a;
    Regroup(a + b + c + d, e, f);
    Regroup(a + b + c, d, e + f);
    Regroup(a + b, c, d + (e + f));
    Regroup(a, b, c + (d + (e + f)));
  }

  lemma RegisterWritten(rest: Bytes, name: Bytes, cpu: Bytes, memory: Bytes, gpuType: Bytes, gpuCount: Bytes)
    requires |name| == 64 && |cpu| == 4 && |memory| == 4 && |gpuType| == 1 && |gpuCount| == 1
    ensures
      var b1 := Overwritten(Zeros(138) + rest, 0, name);
      var b2 := Overwritten(b1, 64, cpu);
      var b3 := Overwritten(b2, 68, memory);
      var b4 := Overwritten(b3, 72, gpuType);
      Overwritten(b4, 73, gpuCount) == name + (cpu + (memory + (gpuType + (gpuCount + Zeros(64))))) + rest
  {
    assert Zeros(138) + rest == [] + Zeros(138) + rest;
    FieldOverZeros([], 138, rest, name);
    FieldOverZeros([] + name, 74, rest, cpu);
    FieldOverZeros([] + name + cpu, 70, rest, memory);
    FieldOverZeros([] + name + cpu + memory, 66, rest, gpuType);
    FieldOverZeros([] + name + cpu + memory + gpuType, 65, rest, gpuCount);
    SixFields(name, cpu, memory, gpuType, gpuCount, Zeros(64));
  }

  lemma HeartbeatWritten(rest: Bytes, tick: Bytes, count: Bytes)
    requires |tick| == 8 && |count| == 2
    ensures Overwritten(Overwritten(Zeros(23) + rest, 0, tick), 21, count) == tick + (Zeros(13) + count) + rest
  {
    assert Zeros(23) + rest == [] + Zeros(23) + rest;
    FieldOverZeros([], 23, rest, tick);
    GapOfZeros([] + tick, 15, rest, 13);
    FieldOverZeros([] + tick + Zeros(13), 2, rest, count);
    assert [] + tick + Zeros(13) + count + Zeros(0) == tick + (Zeros(13) + count);
  }

  lemma StatusWritten(rest: Bytes, id: Bytes, phase: Bytes, exitCode: Bytes, text: Bytes)
    requires |id| == 8 && |phase| == 1 && |exitCode| == 4 && |text| == 128
    ensures
      var b1 := Overwritten(Zeros(150) + rest, 0, id);
      var b2 := Overwritten(b1, 9, phase);
      var b3 := Overwritten(b2, 18, exitCode);
      Overwritten(b3, 22, text) == id + ([0] + (phase + (Zeros(8) + (exitCode + text)))) + rest
  {
    assert Zeros(150) + rest == [] + Zeros(150) + rest;
    assert Zeros(1) == [0];
    FieldOverZeros([], 150, rest, id);
    GapOfZeros([] + id, 142, rest, 1);
    var w1 := [] + id + [0];
    FieldOverZeros(w1, 141, rest, phase);
    var w2 := w1 + phase;
    GapOfZeros(w2, 140, rest, 8);
    var w3 := w2 + Zeros(8);
    FieldOverZeros(w3, 132, rest, exitCode);
    var w4 := w3 + exitCode;
    FieldOverZeros(w4, 128, rest, text);
    assert w4 + text + Zeros(0) == w4 + text;
    SixFields(id, [0], phase, Zeros(8), exitCode, text);
  }

  method EncodeRegister(m: WorkerMessage, buf: array<Byte>) returns (r: Outcome<(Byte, nat)>)
    requires m.NodeRegister?
    modifies buf
    ensures r.Ok? <==> Encodable(m, buf.Length)
    ensures r.Ok? ==> r.value == (TagOf(m), |AgentPayload(m)|)
    ensures r.Ok? ==> buf[..] == AgentPayload(m) + old(buf[..])[NODE_REGISTER_LEN..]
  {
    ghost var before := buf[..];
    var ok := FixedPayload(buf, NODE_REGISTER_LEN);
    if !ok {
      return Err(Ascii("NodeRegister buffer too small"));
    }
    RegisterWritten(before[NODE_REGISTER_LEN..], Fixed(m.nodeName, 64), ToLe(m.cpuMillicores, 4),
                    ToLe(m.memoryMegabytes, 4), [GpuCode(m.gpuType)], [m.gpuCount]);
    Put(buf, 0, Fixed(m.nodeName, 64));
    Put(buf, 64, ToLe(m.cpuMillicores, 4));
    Put(buf, 68, ToLe(m.memoryMegabytes, 4));
    Put(buf, 72, [GpuCode(m.gpuType)]);
    Put(buf, 73, [m.gpuCount]);
    return Ok((MSG_NODE_REGISTER, NODE_REGISTER_LEN));
  }

  method EncodeHeartbeat(m: WorkerMessage, buf: array<Byte>) returns (r: Outcome<(Byte, nat)>)
    requires m.NodeHeartbeat? && Typed(m)
    modifies buf
    ensures r.Ok? <==> Encodable(m, buf.Length)
    ensures r.Ok? ==> r.value == (TagOf(m), |AgentPayload(m)|)
    ensures r.Ok? ==> buf[..] == AgentPayload(m) + old(buf[..])[NODE_HEARTBEAT_LEN..]
  {
    ghost var before := buf[..];
    var ok := FixedPayload(buf, NODE_HEARTBEAT_LEN);
    if !ok {
      return Err(Ascii("NodeHeartbeat buffer too small"));
    }
    HeartbeatWritten(before[NODE_HEARTBEAT_LEN..], ToLe(m.tick, 8), ToLe(m.activePods % 0x1_0000, 2));
    Put(buf, 0, ToLe(m.tick, 8));
    Put(buf, 21, ToLe(m.activePods % 0x1_0000, 2));
    return Ok((MSG_NODE_HEARTBEAT, NODE_HEARTBEAT_LEN));
  }

  method EncodeStatus(m: WorkerMessage, buf: array<Byte>) returns (r: Outcome<(Byte, nat)>)
    requires m.PodStatusEvent? && Typed(m)
    modifies buf
    ensures r.Ok? <==> Encodable(m, buf.Length)
    ensures r.Ok? ==> r.value == (TagOf(m), |AgentPayload(m)|)
    ensures r.Ok? ==> buf[..] == AgentPayload(m) + old(buf[..])[POD_STATUS_EVENT_LEN..]
  {
    ghost var before := buf[..];
    var ok := FixedPayload(buf, POD_STATUS_EVENT_LEN);
    if !ok {
      return Err(Ascii("PodStatusEvent buffer too small"));
    }
    var exitCode := ToLe(Unsigned32(ExitCode(m.report)), 4);
    var text := Fixed(StatusText(m.report), 128);
    StatusWritten(before[POD_STATUS_EVENT_LEN..], ToLe(m.podId, 8), [PhaseCode(m.report)], exitCode, text);
    Put(buf, 0, ToLe(m.podId, 8));
    Put(buf, 9, [PhaseCode(m.report)]);
    Put(buf, 18, exitCode);
    Put(buf, 22, text);
    return Ok((MSG_POD_STATUS_EVENT, POD_STATUS_EVENT_LEN));
  }

  lemma StatusNext(id: Bytes, before: Bytes, status: Byte)
    requires |id| == 8 && |before| >= 9
    ensures Overwritten(id + before[8..], 8, [status]) == id + [status] + before[9..]
  {
    assert (id + before[8..])[..8] == id;
    assert (id + before[8..])[9..] == before[9..];
  }

  lemma BodyNext(head: Bytes, before: Bytes, body: Bytes)
    requires |head| == 9 && |before| >= 9 + |body|
    ensures Overwritten(head + before[9..], 9, body) == head + body + before[9 + |body|..]
  {
    assert (head + before[9..])[..9] == head;
    assert (head + before[9..])[9 + |body|..] == before[9 + |body|..];
  }

  /** The request id is written before the status is checked, so a refused response may have
      changed the buffer. */
  method EncodeRunResponse(m: WorkerMessage, buf: array<Byte>) returns (r: Outcome<(Byte, nat)>)
    requires m.RunResponse?
    modifies buf
    ensures r.Ok? <==> Encodable(m, buf.Length)
    ensures r.Ok? ==> r.value == (TagOf(m), |AgentPayload(m)|)
    ensures r.Ok? ==> |AgentPayload(m)| <= buf.Length && buf[..] == AgentPayload(m) + old(buf[..])[|AgentPayload(m)|..]
  {
    ghost var before := buf[..];
    if buf.Length < RUN_RESPONSE_HEADER {
      return Err(Ascii("RunResponse buffer too small"));
    }
    Put(buf, 0, ToLe(m.requestId, 8));
    assert buf[..] == ToLe(m.requestId, 8) + before[8..];
    if m.status >= STATUS_NOT_LEADER {
      return Err(Ascii("worker RunResponse status must be in 0..=8"));
    }
    if |m.payload| > MAX_RUN_RESPONSE_BODY {
      StatusNext(ToLe(m.requestId, 8), before, STATUS_TOO_LARGE);
      Put(buf, 8, [STATUS_TOO_LARGE]);
      return Ok((MSG_RUN_RESPONSE, RUN_RESPONSE_HEADER));
    }
    if |m.payload| > buf.Length - RUN_RESPONSE_HEADER {
      return Err(Ascii("RunResponse buffer too small"));
    }
    StatusNext(ToLe(m.requestId, 8), before, m.status);
    Put(buf, 8, [m.status]);
    BodyNext(ToLe(m.requestId, 8) + [m.status], before, m.payload);
    Put(buf, 9, m.payload);
    Regroup(ToLe(m.requestId, 8), [m.status], m.payload);
    return Ok((MSG_RUN_RESPONSE, RUN_RESPONSE_HEADER + |m.payload|));
  }

  /** The encoder accepts exactly the encodable messages and writes exactly their payload. */
  method EncodeAgentMessage(m: WorkerMessage, buf: array<Byte>) returns (r: Outcome<(Byte, nat)>)
    requires Typed(m)
    modifies buf
    ensures r.Ok? <==> Encodable(m, buf.Length)
    ensures r.Ok? ==> r.value == (TagOf(m), |AgentPayload(m)|) && |AgentPayload(m)| <= buf.Length
    ensures r.Ok? ==> buf[..|AgentPayload(m)|] == AgentPayload(m)
  {
    match m
    case NodeRegister(_, _, _, _, _) => r := EncodeRegister(m, buf);
    case NodeHeartbeat(_, _, _) => r := EncodeHeartbeat(m, buf);
    case PodStatusEvent(_, _) => r := EncodeStatus(m, buf);
    case RunResponse(_, _, _) => r := EncodeRunResponse(m, buf);
    if r.Ok? {
      assert buf[..][..|AgentPayload(m)|] == AgentPayload(m);
    }
  }
}
