/**
 The payloads inside frames: the fixed layouts a worker sends, and the control messages it accepts.
 Text fields have a fixed width, are cut when too long, and end at the first zero byte.
 */
module MessageCodec {
  import opened Basics
  import opened Messages
  import opened Wire

  const MSG_START_POD: Byte := 2
  const MSG_STOP_POD: Byte := 3
  const MSG_RUN_REQUEST: Byte := 4
  const MSG_PROBE_POD: Byte := 5
  const MSG_NODE_REGISTER: Byte := 0x10
  const MSG_NODE_HEARTBEAT: Byte := 0x11
  const MSG_POD_STATUS_EVENT: Byte := 0x12
  const MSG_RUN_RESPONSE: Byte := 0x13

  const MAX_RUN_PAYLOAD: nat := 512
  const MAX_RUN_RESPONSE_BODY: nat := MAX_FRAME_PAYLOAD - 9
  const STATUS_TOO_LARGE: Byte := 4
  const STATUS_NOT_LEADER: Byte := 9

  // -- Fixed-width text --

  function Zeros(n: nat): (z: Bytes)
    ensures |z| == n && forall i | 0 <= i < n :: z[i] == 0
  {
    seq(n, _ => 0)
  }

  function Fixed(s: Text, width: nat): (b: Bytes)
    ensures |b| == width
  {
    var len := Min(|s|, width);
    s[..len] + Zeros(width - len)
  }

  /** The bytes before the first zero. */
  function CString(b: Bytes): Text {
    if b == [] || b[0] == 0 then [] else [b[0]] + CString(b[1..])
  }

  predicate NulFree(s: Text) {
    forall i | 0 <= i < |s| :: s[i] != 0
  }

  predicate Fits(s: Text, width: nat) {
    NulFree(s) && |s| <= width
  }

  lemma {:induction false} CStringOfPadded(s: Text, pad: nat)
    requires NulFree(s)
    ensures CString(s + Zeros(pad)) == s
  {
    var b := s + Zeros(pad);
    if s == [] {
      assert b == Zeros(pad);
    } else {
      assert b[1..] == s[1..] + Zeros(pad);
      CStringOfPadded(s[1..], pad);
      assert s == [s[0]] + s[1..];
    }
  }

  /** A text without zero bytes is read back, cut to the width of its field. */
  lemma FixedRoundTrip(s: Text, width: nat)
    requires NulFree(s)
    ensures CString(Fixed(s, width)) == s[..Min(|s|, width)]
  {
    var len := Min(|s|, width);
    CStringOfPadded(s[..len], width - len);
  }

  // -- Fields at fixed places --

  /** The field of the given width at the given place. */
  function Field(p: Bytes, at: nat, width: nat): (f: Bytes)
    requires at + width <= |p|
    ensures |f| == width
  {
    p[at..at + width]
  }

  /** One step along a payload laid out field after field. */
  lemma Advance(p: Bytes, at: nat, f: Bytes, rest: Bytes)
    requires at <= |p| && p[at..] == f + rest
    ensures |p| == at + |f| + |rest|
    ensures Field(p, at, |f|) == f && p[at + |f|..] == rest
  {
    assert |p[at..]| == |p| - at;
    assert p[at..][..|f|] == f && p[at..][|f|..] == rest;
    assert p[at..at + |f|] == p[at..][..|f|];
    assert p[at + |f|..] == p[at..][|f|..];
  }

  function GpuCode(g: GpuType): Byte {
    match g
    case NoGpu => 0
    case A100_40 => 1
    case A100_80 => 2
    case H100Sxm => 3
    case H100Pcie => 4
    case H200 => 5
    case L40s => 6
    case A10g => 7
    case T4 => 8
  }

  function GpuOf(code: Byte): Outcome<GpuType> {
    match code
    case 0 => Ok(NoGpu)
    case 1 => Ok(A100_40)
    case 2 => Ok(A100_80)
    case 3 => Ok(H100Sxm)
    case 4 => Ok(H100Pcie)
    case 5 => Ok(H200)
    case 6 => Ok(L40s)
    case 7 => Ok(A10g)
    case 8 => Ok(T4)
    case _ => Err(Ascii("invalid StartPod GPU type"))
  }

  function BoolCode(b: bool): Byte {
    if b then 1 else 0
  }

  // -- StartPod --

  const START_FIXED: nat := 797
  const ENV_ENTRY: nat := 321
  const AUTH_TRAILER: nat := 450

  function EnvAt(p: Bytes, at: nat): EnvEntry
    requires at + ENV_ENTRY <= |p|
  {
    EnvEntry(CString(Field(p, at, 64)), CString(Field(p, at + 64, 256)), p[at + 320] == 1)
  }

  function EnvsOf(p: Bytes, count: nat): seq<EnvEntry>
    requires START_FIXED + ENV_ENTRY * count <= |p|
  {
    seq(count, i requires 0 <= i < count => EnvAt(p, START_FIXED + ENV_ENTRY * i))
  }

  predicate CanonicalEnvs(p: Bytes, count: nat)
    requires START_FIXED + ENV_ENTRY * count <= |p|
  {
    forall i | 0 <= i < count :: p[START_FIXED + ENV_ENTRY * i + 320] <= 1
  }

  /** The payloads a start command may have: the fixed part, as many entries as it declares, and
      either nothing or one registry trailer; enumerations and booleans are canonical. */
  predicate WellFormedStart(p: Bytes) {
    && |p| >= START_FIXED
    && p[531] <= 8
    && var end := START_FIXED + ENV_ENTRY * p[796];
       && (|p| == end || (|p| == end + AUTH_TRAILER && p[end] == 1 && p[end + 449] <= 1))
       && CanonicalEnvs(p, p[796])
  }

  /** What a well-formed payload says. */
  function StartOf(p: Bytes): StartPodCmd
    requires WellFormedStart(p)
  {
    var end := START_FIXED + ENV_ENTRY * p[796];
    var auth := |p| > end;
    assert Pow256(8) == U64_MAX + 1 && Pow256(4) == U32_MAX + 1 && Pow256(2) == 0x1_0000;
    FromLeBound(Field(p, 0, 8));
    FromLeBound(Field(p, 8, 8));
    FromLeBound(Field(p, 528, 2));
    FromLeBound(Field(p, 532, 4));
    FromLeBound(Field(p, 536, 4));
    StartPodCmd(
      FromLe(Field(p, 0, 8)), FromLe(Field(p, 8, 8)),
      CString(Field(p, 16, 256)), CString(Field(p, 272, 256)),
      FromLe(Field(p, 528, 2)), p[530], GpuOf(p[531]).value,
      FromLe(Field(p, 532, 4)), FromLe(Field(p, 536, 4)),
      CString(Field(p, 540, 128)), CString(Field(p, 668, 64)), CString(Field(p, 732, 64)),
      EnvsOf(p, p[796]),
      if auth then CString(Field(p, end + 1, 128)) else [],
      if auth then CString(Field(p, end + 129, 64)) else [],
      if auth then CString(Field(p, end + 193, 256)) else [],
      auth && p[end + 449] == 1)
  }

  // -- The layout the control plane sends --

  function EnvBytes(e: EnvEntry): (b: Bytes)
    ensures |b| == ENV_ENTRY
  {
    Fixed(e.name, 64) + (Fixed(e.value, 256) + [BoolCode(e.isSecretRef)])
  }

  function EnvList(es: seq<EnvEntry>): (b: Bytes)
    ensures |b| == ENV_ENTRY * |es|
  {
    if es == [] then [] else EnvBytes(es[0]) + EnvList(es[1..])
  }

  /** A trailer with registry credentials, or nothing. */
  function Trailer(cmd: StartPodCmd, auth: bool): (b: Bytes)
    ensures |b| == if auth then AUTH_TRAILER else 0
  {
    if !auth then []
    else [1] + (Fixed(cmd.pullRegistry, 128) + (Fixed(cmd.pullUsername, 64) +
         (Fixed(cmd.pullPassword, 256) + [BoolCode(cmd.pullPasswordIsSecret)])))
  }

  function Tail(cmd: StartPodCmd, auth: bool): Bytes {
    EnvList(cmd.envVars) + Trailer(cmd, auth)
  }

  /** The second half of the fixed part, from the port on. */
  function FromPort(cmd: StartPodCmd, rest: Bytes): Bytes
    requires |cmd.envVars| <= 255
  {
    ToLe(cmd.port, 2) + ([cmd.gpuCount] + ([GpuCode(cmd.gpuType)] +
    (ToLe(cmd.cpuMillicores, 4) + (ToLe(cmd.memoryMegabytes, 4) + Paths(cmd, rest)))))
  }

  function Paths(cmd: StartPodCmd, rest: Bytes): Bytes
    requires |cmd.envVars| <= 255
  {
    Fixed(cmd.juicefsPath, 128) + (Fixed(cmd.livenessPath, 64) + (Fixed(cmd.readinessPath, 64) +
    ([|cmd.envVars|] + rest)))
  }

  function StartPayload(cmd: StartPodCmd, auth: bool): Bytes
    requires |cmd.envVars| <= 255
  {
    ToLe(cmd.podId, 8) + (ToLe(cmd.deploymentId, 8) + (Fixed(cmd.image, 256) + (Fixed(cmd.entrypoint, 256) +
    FromPort(cmd, Tail(cmd, auth)))))
  }

  /** Every text fits its field, and without a trailer there are no credentials. */
  predicate Sendable(cmd: StartPodCmd, auth: bool) {
    && |cmd.envVars| <= 255
    && Fits(cmd.image, 256) && Fits(cmd.entrypoint, 256)
    && Fits(cmd.juicefsPath, 128) && Fits(cmd.livenessPath, 64) && Fits(cmd.readinessPath, 64)
    && (forall e | e in cmd.envVars :: Fits(e.name, 64) && Fits(e.value, 256))
    && Fits(cmd.pullRegistry, 128) && Fits(cmd.pullUsername, 64) && Fits(cmd.pullPassword, 256)
    && (!auth ==> cmd.pullRegistry == [] && cmd.pullUsername == [] && cmd.pullPassword == [] && !cmd.pullPasswordIsSecret)
  }

  lemma NamesAt(cmd: StartPodCmd, auth: bool)
    requires |cmd.envVars| <= 255
    ensures
      var p := StartPayload(cmd, auth);
      && |p| >= 528
      && Field(p, 0, 8) == ToLe(cmd.podId, 8) && Field(p, 8, 8) == ToLe(cmd.deploymentId, 8)
      && Field(p, 16, 256) == Fixed(cmd.image, 256) && Field(p, 272, 256) == Fixed(cmd.entrypoint, 256)
      && p[528..] == FromPort(cmd, Tail(cmd, auth))
  {
    var p := StartPayload(cmd, auth);
    var t4 := FromPort(cmd, Tail(cmd, auth));
    var t3 := Fixed(cmd.entrypoint, 256) + t4;
    var t2 := Fixed(cmd.image, 256) + t3;
    var t1 := ToLe(cmd.deploymentId, 8) + t2;
    assert p[0..] == p;
    Advance(p, 0, ToLe(cmd.podId, 8), t1);
    Advance(p, 8, ToLe(cmd.deploymentId, 8), t2);
    Advance(p, 16, Fixed(cmd.image, 256), t3);
    Advance(p, 272, Fixed(cmd.entrypoint, 256), t4);
  }

  lemma FromPortAt(p: Bytes, cmd: StartPodCmd, rest: Bytes)
    requires |cmd.envVars| <= 255 && |p| >= 528 && p[528..] == FromPort(cmd, rest)
    ensures
      && |p| >= 540
      && Field(p, 528, 2) == ToLe(cmd.port, 2) && p[530] == cmd.gpuCount && p[531] == GpuCode(cmd.gpuType)
      && Field(p, 532, 4) == ToLe(cmd.cpuMillicores, 4) && Field(p, 536, 4) == ToLe(cmd.memoryMegabytes, 4)
      && p[540..] == Paths(cmd, rest)
  {
    var t5 := Paths(cmd, rest);
    var t4 := ToLe(cmd.memoryMegabytes, 4) + t5;
    var t3 := ToLe(cmd.cpuMillicores, 4) + t4;
    var t2 := [GpuCode(cmd.gpuType)] + t3;
    var t1 := [cmd.gpuCount] + t2;
    Advance(p, 528, ToLe(cmd.port, 2), t1);
    Advance(p, 530, [cmd.gpuCount], t2);
    assert p[530] == Field(p, 530, 1)[0];
    Advance(p, 531, [GpuCode(cmd.gpuType)], t3);
    assert p[531] == Field(p, 531, 1)[0];
    Advance(p, 532, ToLe(cmd.cpuMillicores, 4), t4);
    Advance(p, 536, ToLe(cmd.memoryMegabytes, 4), t5);
  }

  lemma PathsAt(p: Bytes, cmd: StartPodCmd, rest: Bytes)
    requires |cmd.envVars| <= 255 && |p| >= 540 && p[540..] == Paths(cmd, rest)
    ensures
      && |p| >= 797
      && Field(p, 540, 128) == Fixed(cmd.juicefsPath, 128) && Field(p, 668, 64) == Fixed(cmd.livenessPath, 64)
      && Field(p, 732, 64) == Fixed(cmd.readinessPath, 64) && p[796] == |cmd.envVars|
      && p[797..] == rest
  {
    var t3 := [|cmd.envVars|] + rest;
    var t2 := Fixed(cmd.readinessPath, 64) + t3;
    var t1 := Fixed(cmd.livenessPath, 64) + t2;
    Advance(p, 540, Fixed(cmd.juicefsPath, 128), t1);
    Advance(p, 668, Fixed(cmd.livenessPath, 64), t2);
    Advance(p, 732, Fixed(cmd.readinessPath, 64), t3);
    Advance(p, 796, [|cmd.envVars|], rest);
    assert p[796] == Field(p, 796, 1)[0];
  }

  lemma {:induction false} EnvEntryAt(p: Bytes, at: nat, e: EnvEntry, rest: Bytes)
    requires at <= |p| && p[at..] == EnvBytes(e) + rest && Fits(e.name, 64) && Fits(e.value, 256)
    ensures at + ENV_ENTRY <= |p| && EnvAt(p, at) == e && p[at + 320] <= 1
    ensures p[at + ENV_ENTRY..] == rest
  {
    var flag := [BoolCode(e.isSecretRef)];
    assert EnvBytes(e) + rest == Fixed(e.name, 64) + (Fixed(e.value, 256) + (flag + rest));
    Advance(p, at, Fixed(e.name, 64), Fixed(e.value, 256) + (flag + rest));
    Advance(p, at + 64, Fixed(e.value, 256), flag + rest);
    Advance(p, at + 320, flag, rest);
    assert p[at + 320] == Field(p, at + 320, 1)[0];
    FixedRoundTrip(e.name, 64);
    FixedRoundTrip(e.value, 256);
  }

  predicate EntryAt(p: Bytes, at: nat, e: EnvEntry) {
    at + ENV_ENTRY <= |p| && EnvAt(p, at) == e && p[at + 320] <= 1
  }

  lemma {:induction false} EnvListStep(p: Bytes, at: nat, es: seq<EnvEntry>, rest: Bytes)
    requires at <= |p| && es != [] && p[at..] == EnvList(es) + rest
    requires forall e | e in es :: Fits(e.name, 64) && Fits(e.value, 256)
    ensures EntryAt(p, at, es[0]) && p[at + ENV_ENTRY..] == EnvList(es[1..]) + rest
  {
    assert es[0] in es;
    assert EnvList(es) + rest == EnvBytes(es[0]) + (EnvList(es[1..]) + rest);
    EnvEntryAt(p, at, es[0], EnvList(es[1..]) + rest);
  }

  lemma {:induction false} EnvListEnds(p: Bytes, at: nat, es: seq<EnvEntry>, rest: Bytes)
    requires at <= |p| && p[at..] == EnvList(es) + rest
    requires forall e | e in es :: Fits(e.name, 64) && Fits(e.value, 256)
    ensures |p| == at + ENV_ENTRY * |es| + |rest| && p[at + ENV_ENTRY * |es|..] == rest
    decreases |es|
  {
    if es == [] {
      assert p[at..] == rest;
    } else {
      EnvListStep(p, at, es, rest);
      EnvListEnds(p, at + ENV_ENTRY, es[1..], rest);
    }
  }

  /** Entries laid out one after the other are each found in their place. */
  lemma {:induction false} EnvsAt(p: Bytes, at: nat, es: seq<EnvEntry>, rest: Bytes, j: nat)
    requires at <= |p| && p[at..] == EnvList(es) + rest && j < |es|
    requires forall e | e in es :: Fits(e.name, 64) && Fits(e.value, 256)
    ensures EntryAt(p, at + ENV_ENTRY * j, es[j])
    decreases |es|
  {
    EnvListStep(p, at, es, rest);
    if j > 0 {
      EnvsAt(p, at + ENV_ENTRY, es[1..], rest, j - 1);
      assert at + ENV_ENTRY + ENV_ENTRY * (j - 1) == at + ENV_ENTRY * j;
    }
  }

  lemma TrailerAt(p: Bytes, end: nat, cmd: StartPodCmd)
    requires end <= |p| && p[end..] == Trailer(cmd, true)
    requires Fits(cmd.pullRegistry, 128) && Fits(cmd.pullUsername, 64) && Fits(cmd.pullPassword, 256)
    ensures |p| == end + AUTH_TRAILER && p[end] == 1 && p[end + 449] == BoolCode(cmd.pullPasswordIsSecret)
    ensures CString(Field(p, end + 1, 128)) == cmd.pullRegistry
    ensures CString(Field(p, end + 129, 64)) == cmd.pullUsername
    ensures CString(Field(p, end + 193, 256)) == cmd.pullPassword
  {
    var t4 := [BoolCode(cmd.pullPasswordIsSecret)];
    var t3 := Fixed(cmd.pullPassword, 256) + t4;
    var t2 := Fixed(cmd.pullUsername, 64) + t3;
    var t1 := Fixed(cmd.pullRegistry, 128) + t2;
    Advance(p, end, [1], t1);
    assert p[end] == Field(p, end, 1)[0];
    Advance(p, end + 1, Fixed(cmd.pullRegistry, 128), t2);
    Advance(p, end + 129, Fixed(cmd.pullUsername, 64), t3);
    Advance(p, end + 193, Fixed(cmd.pullPassword, 256), t4);
    assert p[end + 449] == p[end + 449..][0];
    FixedRoundTrip(cmd.pullRegistry, 128);
    FixedRoundTrip(cmd.pullUsername, 64);
    FixedRoundTrip(cmd.pullPassword, 256);
  }

  lemma GpuRoundTrip(g: GpuType)
    ensures GpuCode(g) <= 8 && GpuOf(GpuCode(g)) == Ok(g)
  {
  }

  lemma {:induction false} TailEnvs(p: Bytes, cmd: StartPodCmd, auth: bool)
    requires Sendable(cmd, auth) && |p| >= START_FIXED && p[START_FIXED..] == Tail(cmd, auth)
    ensures
      var end := START_FIXED + ENV_ENTRY * |cmd.envVars|;
      && |p| == end + (if auth then AUTH_TRAILER else 0)
      && EnvsOf(p, |cmd.envVars|) == cmd.envVars && CanonicalEnvs(p, |cmd.envVars|)
      && p[end..] == Trailer(cmd, auth)
  {
    var es := cmd.envVars;
    EnvListEnds(p, START_FIXED, es, Trailer(cmd, auth));
    forall j | 0 <= j < |es|
      ensures EntryAt(p, START_FIXED + ENV_ENTRY * j, es[j])
    {
      EnvsAt(p, START_FIXED, es, Trailer(cmd, auth), j);
    }
    EnvsWhole(p, es);
  }

  lemma {:induction false} EnvsWhole(p: Bytes, es: seq<EnvEntry>)
    requires START_FIXED + ENV_ENTRY * |es| <= |p|
    requires forall j | 0 <= j < |es| :: EntryAt(p, START_FIXED + ENV_ENTRY * j, es[j])
    ensures EnvsOf(p, |es|) == es && CanonicalEnvs(p, |es|)
  {
    forall j | 0 <= j < |es|
      ensures EnvsOf(p, |es|)[j] == es[j] && p[START_FIXED + ENV_ENTRY * j + 320] <= 1
    {
      assert EntryAt(p, START_FIXED + ENV_ENTRY * j, es[j]);
    }
  }

  /** The last fields of a command, as read from the end of the payload. */
  predicate EndsWith(p: Bytes, end: nat, cmd: StartPodCmd, auth: bool)
    requires end <= |p|
  {
    && |p| == end + (if auth then AUTH_TRAILER else 0)
    && (auth ==> && p[end] == 1 && p[end + 449] == BoolCode(cmd.pullPasswordIsSecret)
                 && CString(Field(p, end + 1, 128)) == cmd.pullRegistry
                 && CString(Field(p, end + 129, 64)) == cmd.pullUsername
                 && CString(Field(p, end + 193, 256)) == cmd.pullPassword)
  }

  lemma TailAt(p: Bytes, cmd: StartPodCmd, auth: bool)
    requires Sendable(cmd, auth) && |p| >= START_FIXED && p[START_FIXED..] == Tail(cmd, auth)
    ensures
      var end := START_FIXED + ENV_ENTRY * |cmd.envVars|;
      end <= |p| && EndsWith(p, end, cmd, auth)
  {
    TailEnvs(p, cmd, auth);
    if auth {
      TrailerAt(p, START_FIXED + ENV_ENTRY * |cmd.envVars|, cmd);
    }
  }

  /** The first fields of a command, as read from the fixed part. */
  predicate FixedFields(p: Bytes, cmd: StartPodCmd) {
    && |p| >= START_FIXED
    && FromLe(Field(p, 0, 8)) == cmd.podId && FromLe(Field(p, 8, 8)) == cmd.deploymentId
    && CString(Field(p, 16, 256)) == cmd.image && CString(Field(p, 272, 256)) == cmd.entrypoint
    && FromLe(Field(p, 528, 2)) == cmd.port && p[530] == cmd.gpuCount && p[531] == GpuCode(cmd.gpuType)
    && FromLe(Field(p, 532, 4)) == cmd.cpuMillicores && FromLe(Field(p, 536, 4)) == cmd.memoryMegabytes
    && CString(Field(p, 540, 128)) == cmd.juicefsPath && CString(Field(p, 668, 64)) == cmd.livenessPath
    && CString(Field(p, 732, 64)) == cmd.readinessPath
  }

  predicate BeginsWith(p: Bytes, cmd: StartPodCmd) {
    FixedFields(p, cmd) && p[796] == |cmd.envVars|
  }

  lemma IntsRoundTrip(cmd: StartPodCmd)
    ensures FromLe(ToLe(cmd.podId, 8)) == cmd.podId && FromLe(ToLe(cmd.deploymentId, 8)) == cmd.deploymentId
    ensures FromLe(ToLe(cmd.port, 2)) == cmd.port
    ensures FromLe(ToLe(cmd.cpuMillicores, 4)) == cmd.cpuMillicores
    ensures FromLe(ToLe(cmd.memoryMegabytes, 4)) == cmd.memoryMegabytes
  {
    assert Pow256(8) == U64_MAX + 1 && Pow256(4) == U32_MAX + 1 && Pow256(2) == 0x1_0000;
    LeRoundTrip(cmd.podId, 8);
    LeRoundTrip(cmd.deploymentId, 8);
    LeRoundTrip(cmd.port, 2);
    LeRoundTrip(cmd.cpuMillicores, 4);
    LeRoundTrip(cmd.memoryMegabytes, 4);
  }

  lemma TextsRoundTrip(cmd: StartPodCmd, auth: bool)
    requires Sendable(cmd, auth)
    ensures CString(Fixed(cmd.image, 256)) == cmd.image && CString(Fixed(cmd.entrypoint, 256)) == cmd.entrypoint
    ensures CString(Fixed(cmd.juicefsPath, 128)) == cmd.juicefsPath
    ensures CString(Fixed(cmd.livenessPath, 64)) == cmd.livenessPath
    ensures CString(Fixed(cmd.readinessPath, 64)) == cmd.readinessPath
  {
    FixedRoundTrip(cmd.image, 256);
    FixedRoundTrip(cmd.entrypoint, 256);
    FixedRoundTrip(cmd.juicefsPath, 128);
    FixedRoundTrip(cmd.livenessPath, 64);
    FixedRoundTrip(cmd.readinessPath, 64);
  }

  lemma HeadAt(cmd: StartPodCmd, auth: bool)
    requires Sendable(cmd, auth)
    ensures BeginsWith(StartPayload(cmd, auth), cmd) && StartPayload(cmd, auth)[START_FIXED..] == Tail(cmd, auth)
  {
    var p := StartPayload(cmd, auth);
    NamesAt(cmd, auth);
    FromPortAt(p, cmd, Tail(cmd, auth));
    PathsAt(p, cmd, Tail(cmd, auth));
    IntsRoundTrip(cmd);
    TextsRoundTrip(cmd, auth);
  }

  datatype Auth = Auth(registry: Text, username: Text, password: Text, isSecret: bool)

  /** Reading every field of a well-formed payload gives what it says. */
  lemma Assembled(p: Bytes, cmd: StartPodCmd, auth: Auth)
    requires WellFormedStart(p) && BeginsWith(p, cmd) && cmd.envVars == EnvsOf(p, p[796])
    requires auth == Auth(cmd.pullRegistry, cmd.pullUsername, cmd.pullPassword, cmd.pullPasswordIsSecret)
    requires
      var end := START_FIXED + ENV_ENTRY * p[796];
      auth == if |p| == end then Auth([], [], [], false)
              else Auth(CString(Field(p, end + 1, 128)), CString(Field(p, end + 129, 64)),
                        CString(Field(p, end + 193, 256)), p[end + 449] == 1)
    ensures StartOf(p) == cmd
  {
    GpuRoundTrip(cmd.gpuType);
  }

  lemma StartWellFormed(p: Bytes, cmd: StartPodCmd, auth: bool)
    requires BeginsWith(p, cmd) && START_FIXED + ENV_ENTRY * |cmd.envVars| <= |p|
    requires EndsWith(p, START_FIXED + ENV_ENTRY * |cmd.envVars|, cmd, auth)
    requires CanonicalEnvs(p, |cmd.envVars|)
    ensures WellFormedStart(p)
  {
    GpuRoundTrip(cmd.gpuType);
  }

  lemma StartReads(p: Bytes, cmd: StartPodCmd, auth: bool)
    requires Sendable(cmd, auth) && BeginsWith(p, cmd)
    requires START_FIXED + ENV_ENTRY * |cmd.envVars| <= |p|
    requires EndsWith(p, START_FIXED + ENV_ENTRY * |cmd.envVars|, cmd, auth)
    requires EnvsOf(p, |cmd.envVars|) == cmd.envVars && CanonicalEnvs(p, |cmd.envVars|)
    ensures WellFormedStart(p) && StartOf(p) == cmd
  {
    StartWellFormed(p, cmd, auth);
    Assembled(p, cmd, Auth(cmd.pullRegistry, cmd.pullUsername, cmd.pullPassword, cmd.pullPasswordIsSecret));
  }

  /** A start command laid out by the control plane is accepted and read back. */
  lemma StartRoundTrip(cmd: StartPodCmd, auth: bool)
    requires Sendable(cmd, auth)
    ensures WellFormedStart(StartPayload(cmd, auth)) && StartOf(StartPayload(cmd, auth)) == cmd
  {
    var p := StartPayload(cmd, auth);
    HeadAt(cmd, auth);
    TailEnvs(p, cmd, auth);
    TailAt(p, cmd, auth);
    StartReads(p, cmd, auth);
  }

  // -- The other control messages --

  /** What a control payload says, if the worker accepts it. */
  function DecodeControl(tag: Byte, p: Bytes): Option<ControlMessage> {
    assert Pow256(8) == U64_MAX + 1;
    if tag == MSG_START_POD then
      if WellFormedStart(p) then Some(StartPod(StartOf(p))) else None
    else if tag == MSG_STOP_POD && |p| == 16 then
      FromLeBound(Field(p, 0, 8));
      FromLeBound(Field(p, 8, 8));
      Some(StopPod(FromLe(Field(p, 0, 8)), FromLe(Field(p, 8, 8))))
    else if tag == MSG_PROBE_POD && |p| == 8 then
      FromLeBound(p);
      Some(ProbePod(FromLe(p)))
    else if tag == MSG_RUN_REQUEST && |p| >= 20 && FromLe(Field(p, 16, 4)) == |p| - 20 && |p| - 20 <= MAX_RUN_PAYLOAD then
      FromLeBound(Field(p, 0, 8));
      FromLeBound(Field(p, 8, 8));
      Some(RunRequest(FromLe(Field(p, 0, 8)), FromLe(Field(p, 8, 8)), p[20..]))
    else None
  }

  function ControlTag(m: ControlMessage): Byte {
    match m
    case StartPod(_) => MSG_START_POD
    case StopPod(_, _) => MSG_STOP_POD
    case ProbePod(_) => MSG_PROBE_POD
    case RunRequest(_, _, _) => MSG_RUN_REQUEST
  }

  predicate SendableMessage(m: ControlMessage, auth: bool) {
    match m
    case StartPod(cmd) => Sendable(cmd, auth)
    case RunRequest(_, _, payload) => |payload| <= MAX_RUN_PAYLOAD
    case _ => true
  }

  function ControlPayload(m: ControlMessage, auth: bool): Bytes
    requires SendableMessage(m, auth)
  {
    match m
    case StartPod(cmd) => StartPayload(cmd, auth)
    case StopPod(id, graceMs) => ToLe(id, 8) + ToLe(graceMs, 8)
    case ProbePod(id) => ToLe(id, 8)
    case RunRequest(requestId, deploymentId, payload) =>
      ToLe(requestId, 8) + (ToLe(deploymentId, 8) + (ToLe(|payload|, 4) + payload))
  }

  lemma StopRoundTrip(id: U64, graceMs: U64)
    ensures DecodeControl(MSG_STOP_POD, ToLe(id, 8) + ToLe(graceMs, 8)) == Some(StopPod(id, graceMs))
  {
    var p := ToLe(id, 8) + ToLe(graceMs, 8);
    assert Pow256(8) == U64_MAX + 1;
    assert Field(p, 0, 8) == ToLe(id, 8) && Field(p, 8, 8) == ToLe(graceMs, 8);
    LeRoundTrip(id, 8);
    LeRoundTrip(graceMs, 8);
  }

  lemma RunRoundTrip(requestId: U64, deploymentId: U64, payload: Bytes)
    requires |payload| <= MAX_RUN_PAYLOAD
    ensures DecodeControl(MSG_RUN_REQUEST, ToLe(requestId, 8) + (ToLe(deploymentId, 8) + (ToLe(|payload|, 4) + payload)))
            == Some(RunRequest(requestId, deploymentId, payload))
  {
    var p := ToLe(requestId, 8) + (ToLe(deploymentId, 8) + (ToLe(|payload|, 4) + payload));
    assert Pow256(8) == U64_MAX + 1 && Pow256(4) == U32_MAX + 1;
    assert p[0..] == p;
    Advance(p, 0, ToLe(requestId, 8), ToLe(deploymentId, 8) + (ToLe(|payload|, 4) + payload));
    Advance(p, 8, ToLe(deploymentId, 8), ToLe(|payload|, 4) + payload);
    Advance(p, 16, ToLe(|payload|, 4), payload);
    LeRoundTrip(requestId, 8);
    LeRoundTrip(deploymentId, 8);
    LeRoundTrip(|payload|, 4);
  }

  /** Every control message that fits its layout is read back. */
  lemma ControlRoundTrip(m: ControlMessage, auth: bool)
    requires SendableMessage(m, auth)
    ensures DecodeControl(ControlTag(m), ControlPayload(m, auth)) == Some(m)
  {
    match m
    case StartPod(cmd) => StartRoundTrip(cmd, auth);
    case StopPod(id, graceMs) => StopRoundTrip(id, graceMs);
    case ProbePod(id) =>
      assert Pow256(8) == U64_MAX + 1;
      LeRoundTrip(id, 8);
    case RunRequest(requestId, deploymentId, payload) => RunRoundTrip(requestId, deploymentId, payload);
  }

  // -- The decoder --

  method DecodeBool(value: Byte) returns (r: Outcome<bool>)
    ensures r.Ok? <==> value <= 1
    ensures r.Ok? ==> r.value == (value == 1)
  {
    if value == 0 {
      return Ok(false);
    } else if value == 1 {
      return Ok(true);
    }
    return Err(Ascii("must be 0 or 1"));
  }

  /** The environment entries, read one after the other from where the fixed part ends. */
  method DecodeEnvs(payload: Bytes, count: nat) returns (r: Outcome<seq<EnvEntry>>, pos: nat)
    requires START_FIXED + ENV_ENTRY * count <= |payload|
    ensures r.Ok? <==> CanonicalEnvs(payload, count)
    ensures r.Ok? ==> r.value == EnvsOf(payload, count) && pos == START_FIXED + ENV_ENTRY * count
  {
    pos := START_FIXED;
    var envVars: seq<EnvEntry> := [];
    for i := 0 to count
      invariant pos == START_FIXED + ENV_ENTRY * i
      invariant CanonicalEnvs(payload, i) && envVars == EnvsOf(payload, i)
    {
      var name := CString(payload[pos..pos + 64]);
      pos := pos + 64;
      var value := CString(payload[pos..pos + 256]);
      pos := pos + 256;
      var isSecretRef := DecodeBool(payload[pos]);
      if isSecretRef.Err? {
        r := Err(isSecretRef.error);
        return;
      }
      pos := pos + 1;
      envVars := envVars + [EnvEntry(name, value, isSecretRef.value)];
    }
    r := Ok(envVars);
  }

  /** What is left after the entries: nothing, or exactly one trailer. */
  method DecodeTrailer(payload: Bytes, end: nat) returns (r: Outcome<Auth>, pos: nat)
    requires end <= |payload|
    ensures r.Ok? <==> |payload| == end ||
                       (|payload| == end + AUTH_TRAILER && payload[end] == 1 && payload[end + 449] <= 1)
    ensures r.Ok? ==> pos == |payload|
    ensures r.Ok? && |payload| == end ==> r.value == Auth([], [], [], false)
    ensures r.Ok? && |payload| > end ==>
              r.value == Auth(CString(Field(payload, end + 1, 128)), CString(Field(payload, end + 129, 64)),
                              CString(Field(payload, end + 193, 256)), payload[end + 449] == 1)
  {
    pos := end;
    var auth := Auth([], [], [], false);
    var remaining := |payload| - pos;
    if remaining != 0 {
      if remaining != AUTH_TRAILER || payload[pos] != 1 {
        r := Err(Ascii("StartPod registry auth trailer invalid"));
        return;
      }
      pos := pos + 1;
      var registry := CString(payload[pos..pos + 128]);
      pos := pos + 128;
      var username := CString(payload[pos..pos + 64]);
      pos := pos + 64;
      var password := CString(payload[pos..pos + 256]);
      pos := pos + 256;
      var isSecret := DecodeBool(payload[pos]);
      if isSecret.Err? {
        r := Err(isSecret.error);
        return;
      }
      pos := pos + 1;
      auth := Auth(registry, username, password, isSecret.value);
    }
    r := Ok(auth);
  }

  /** The fixed part, field by field; only the GPU type can be refused. */
  method DecodeFixedPart(payload: Bytes) returns (r: Outcome<StartPodCmd>, pos: nat)
    requires |payload| >= START_FIXED
    ensures r.Ok? <==> payload[531] <= 8
    ensures r.Ok? ==> FixedFields(payload, r.value) && pos == START_FIXED - 1
  {
    assert Pow256(8) == U64_MAX + 1 && Pow256(4) == U32_MAX + 1 && Pow256(2) == 0x1_0000;
    pos := 0;
    FromLeBound(payload[pos..pos + 8]);
    var podId := FromLe(payload[pos..pos + 8]);
    pos := pos + 8;
    FromLeBound(payload[pos..pos + 8]);
    var deploymentId := FromLe(payload[pos..pos + 8]);
    pos := pos + 8;
    var image := CString(payload[pos..pos + 256]);
    pos := pos + 256;
    var entrypoint := CString(payload[pos..pos + 256]);
    pos := pos + 256;
    FromLeBound(payload[pos..pos + 2]);
    var port := FromLe(payload[pos..pos + 2]);
    pos := pos + 2;
    var gpuCount := payload[pos];
    pos := pos + 1;
    var gpuType := GpuOf(payload[pos]);
    if gpuType.Err? {
      r := Err(gpuType.error);
      return;
    }
    pos := pos + 1;
    FromLeBound(payload[pos..pos + 4]);
    var cpuMillicores := FromLe(payload[pos..pos + 4]);
    pos := pos + 4;
    FromLeBound(payload[pos..pos + 4]);
    var memoryMegabytes := FromLe(payload[pos..pos + 4]);
    pos := pos + 4;
    var juicefsPath := CString(payload[pos..pos + 128]);
    pos := pos + 128;
    var livenessPath := CString(payload[pos..pos + 64]);
    pos := pos + 64;
    var readinessPath := CString(payload[pos..pos + 64]);
    pos := pos + 64;
    r := Ok(StartPodCmd(podId, deploymentId, image, entrypoint, port, gpuCount, gpuType.value, cpuMillicores,
                        memoryMegabytes, juicefsPath, livenessPath, readinessPath, [], [], [], [], false));
  }

  /** Accepts exactly the well-formed payloads; the whole payload is consumed, so the check for
      trailing bytes at the end never fails. */
  method DecodeStartPod(payload: Bytes) returns (r: Outcome<StartPodCmd>)
    ensures r.Ok? <==> WellFormedStart(payload)
    ensures r.Ok? ==> r.value == StartOf(payload)
  {
    if |payload| < START_FIXED {
      return Err(Ascii("StartPod payload too short"));
    }
    var fixedPart, pos := DecodeFixedPart(payload);
    if fixedPart.Err? {
      return fixedPart;
    }
    var envCount := payload[pos];
    pos := pos + 1;
    var envEnd := pos + envCount * ENV_ENTRY;
    if envEnd > |payload| {
      return Err(Ascii("StartPod env entries truncated"));
    }
    var envVars, afterEnvs := DecodeEnvs(payload, envCount);
    if envVars.Err? {
      return Err(envVars.error);
    }
    var auth, end := DecodeTrailer(payload, afterEnvs);
    if auth.Err? {
      return Err(auth.error);
    }
    // The trailing-bytes check of the source cannot fail here.
    assert end == |payload|;
    var cmd := fixedPart.value.(envVars := envVars.value, pullRegistry := auth.value.registry,
                                pullUsername := auth.value.username, pullPassword := auth.value.password,
                                pullPasswordIsSecret := auth.value.isSecret);
    Assembled(payload, cmd, auth.value);
    return Ok(cmd);
  }

  method DecodeControlMessage(tag: Byte, payload: Bytes) returns (r: Outcome<ControlMessage>)
    ensures r.Ok? <==> DecodeControl(tag, payload).Some?
    ensures r.Ok? ==> r.value == DecodeControl(tag, payload).value
  {
    assert Pow256(8) == U64_MAX + 1;
    if tag == MSG_START_POD {
      var start := DecodeStartPod(payload);
      if start.Err? {
        return Err(start.error);
      }
      return Ok(StartPod(start.value));
    } else if tag == MSG_STOP_POD {
      if |payload| != 16 {
        return Err(Ascii("StopPod payload length invalid"));
      }
      FromLeBound(payload[0..8]);
      FromLeBound(payload[8..16]);
      return Ok(StopPod(FromLe(payload[0..8]), FromLe(payload[8..16])));
    } else if tag == MSG_PROBE_POD {
      if |payload| != 8 {
        return Err(Ascii("ProbePod payload length invalid"));
      }
      assert payload[0..8] == payload;
      FromLeBound(payload[0..8]);
      return Ok(ProbePod(FromLe(payload[0..8])));
    } else if tag == MSG_RUN_REQUEST {
      if |payload| < 20 {
        return Err(Ascii("RunRequest payload too short"));
      }
      FromLeBound(payload[0..8]);
      FromLeBound(payload[8..16]);
      var requestId := FromLe(payload[0..8]);
      var deploymentId := FromLe(payload[8..16]);
      var declaredLen := FromLe(payload[16..20]);
      var body := payload[20..];
      if declaredLen > MAX_RUN_PAYLOAD || |body| != declaredLen {
        return Err(Ascii("RunRequest payload length mismatch"));
      }
      return Ok(RunRequest(requestId, deploymentId, body));
    }
    return Err(Ascii("unknown message type"));
  }
}
