/**
 The other end of the cluster state snapshot: its bytes, written field after field. The parser reads back
 every snapshot whose fields fit.
 */
module ClusterStateWriter {
  import opened Basics
  import opened Wire
  import opened MessageCodec
  import opened ClusterStateParser

  // -- Records --

  function NodeBytes(n: NodeInfo): Bytes {
    ToLe(n.id, 8) + (Fixed(n.name, 64) + ([n.status, n.gpuType, n.gpuCount, n.allocatableGpu]
    + (ToLe(n.cpu, 4) + (ToLe(n.memory, 4) + (Fixed(n.region, 32) + Fixed(n.provider, 32))))))
  }

  function DeploymentBytes(d: DeploymentInfo): Bytes {
    ToLe(d.id, 8) + (Fixed(d.name, 64) + (Fixed(d.image, 128) + (ToLe(d.replicas, 4) + (ToLe(d.readyReplicas, 4)
    + ([if d.paused then 1 else 0] + (ToLe(d.version, 4) + [d.gpuType, d.gpuCount]))))))
  }

  function PodBytes(p: PodInfo): Bytes {
    ToLe(p.id, 8) + (ToLe(p.deploymentId, 8) + (ToLe(p.nodeId, 8) + [p.phase]))
  }

  /** A signed number in 64-bit two's complement. */
  function Unsigned64(v: int): nat
    requires -0x8000_0000_0000_0000 <= v < 0x8000_0000_0000_0000
  {
    if v >= 0 then v else v + 0x1_0000_0000_0000_0000
  }

  function AgentBytes(w: WorkerInfo): Bytes
    requires AgentFits(w)
  {
    Fixed(w.hostname, 64) + (ToLe(w.nodeId, 8) + ([if w.connected then 1 else 0] + (ToLe(Unsigned64(w.lastHeartbeat), 8)
    + [w.gpuType, w.gpuCount])))
  }

  predicate NodeFits(n: NodeInfo) {
    n.id <= U64_MAX && Fits(n.name, 64) && n.cpu <= U32_MAX && n.memory <= U32_MAX && Fits(n.region, 32) && Fits(n.provider, 32)
  }

  predicate DeploymentFits(d: DeploymentInfo) {
    && d.id <= U64_MAX && Fits(d.name, 64) && Fits(d.image, 128)
    && d.replicas <= U32_MAX && d.readyReplicas <= U32_MAX && d.version <= U32_MAX
  }

  predicate PodFits(p: PodInfo) {
    p.id <= U64_MAX && p.deploymentId <= U64_MAX && p.nodeId <= U64_MAX
  }

  predicate AgentFits(w: WorkerInfo) {
    Fits(w.hostname, 64) && w.nodeId <= U64_MAX && -0x8000_0000_0000_0000 <= w.lastHeartbeat < 0x8000_0000_0000_0000
  }

  lemma Widths()
    ensures Pow256(8) == U64_MAX + 1 && Pow256(4) == U32_MAX + 1 && Pow256(2) == 0x1_0000
  {
  }

  /** A number in a field is read back. */
  lemma {:induction false} NumberAt(p: Bytes, at: nat, width: nat, v: nat)
    requires at + width <= |p| && Field(p, at, width) == ToLe(v, width) && v < Pow256(width)
    ensures Int(p, at, width) == v
  {
    LeRoundTrip(v, width);
  }

  lemma {:induction false} TextAt(p: Bytes, at: nat, width: nat, t: Text)
    requires at + width <= |p| && Field(p, at, width) == Fixed(t, width) && Fits(t, width)
    ensures CString(Field(p, at, width)) == t
  {
    FixedRoundTrip(t, width);
  }

  lemma {:induction false} NodeFields(n: NodeInfo)
    ensures
      var p := NodeBytes(n);
      && |p| == 148 && Field(p, 0, 8) == ToLe(n.id, 8) && Field(p, 8, 64) == Fixed(n.name, 64)
      && Field(p, 72, 4) == [n.status, n.gpuType, n.gpuCount, n.allocatableGpu]
      && Field(p, 76, 4) == ToLe(n.cpu, 4) && Field(p, 80, 4) == ToLe(n.memory, 4)
      && Field(p, 84, 32) == Fixed(n.region, 32) && Field(p, 116, 32) == Fixed(n.provider, 32)
  {
    var p := NodeBytes(n);
    var t6 := Fixed(n.region, 32) + Fixed(n.provider, 32);
    var t5 := ToLe(n.memory, 4) + t6;
    var t4 := ToLe(n.cpu, 4) + t5;
    var bytes := [n.status, n.gpuType, n.gpuCount, n.allocatableGpu];
    var t2 := Fixed(n.name, 64) + (bytes + t4);
    assert p[0..] == ToLe(n.id, 8) + t2;
    Advance(p, 0, ToLe(n.id, 8), t2);
    Advance(p, 8, Fixed(n.name, 64), bytes + t4);
    Advance(p, 72, bytes, t4);
    Advance(p, 76, ToLe(n.cpu, 4), t5);
    Advance(p, 80, ToLe(n.memory, 4), t6);
    Advance(p, 84, Fixed(n.region, 32), Fixed(n.provider, 32));
    assert Field(p, 116, 32) == p[116..];
  }

  lemma {:induction false} NodeReadBack(n: NodeInfo)
    requires NodeFits(n)
    ensures |NodeBytes(n)| == NODE && NodeAt(NodeBytes(n), 0) == n
  {
    var p := NodeBytes(n);
    NodeFields(n);
    Widths();
    NumberAt(p, 0, 8, n.id);
    TextAt(p, 8, 64, n.name);
    BytesAt(p, 72, [n.status, n.gpuType, n.gpuCount, n.allocatableGpu]);
    NumberAt(p, 76, 4, n.cpu);
    NumberAt(p, 80, 4, n.memory);
    TextAt(p, 84, 32, n.region);
    TextAt(p, 116, 32, n.provider);
    assert p[72 + 0] == n.status && p[72 + 1] == n.gpuType && p[72 + 2] == n.gpuCount && p[72 + 3] == n.allocatableGpu;
  }

  lemma BytesAt(p: Bytes, at: nat, bytes: Bytes)
    requires at + |bytes| <= |p| && Field(p, at, |bytes|) == bytes
    ensures forall i | 0 <= i < |bytes| :: p[at + i] == bytes[i]
  {
    forall i | 0 <= i < |bytes|
      ensures p[at + i] == bytes[i]
    {
      assert Field(p, at, |bytes|)[i] == p[at + i];
    }
  }

  lemma {:induction false} DeploymentFields(d: DeploymentInfo)
    ensures
      var p := DeploymentBytes(d);
      && |p| == 215 && Field(p, 0, 8) == ToLe(d.id, 8) && Field(p, 8, 64) == Fixed(d.name, 64)
      && Field(p, 72, 128) == Fixed(d.image, 128) && Field(p, 200, 4) == ToLe(d.replicas, 4)
      && Field(p, 204, 4) == ToLe(d.readyReplicas, 4) && Field(p, 208, 1) == [if d.paused then 1 else 0]
      && Field(p, 209, 4) == ToLe(d.version, 4) && Field(p, 213, 2) == [d.gpuType, d.gpuCount]
  {
    var p := DeploymentBytes(d);
    var gpu := [d.gpuType, d.gpuCount];
    var t7 := ToLe(d.version, 4) + gpu;
    var paused: Bytes := [if d.paused then 1 else 0];
    var t5 := ToLe(d.readyReplicas, 4) + (paused + t7);
    var t4 := ToLe(d.replicas, 4) + t5;
    var t3 := Fixed(d.image, 128) + t4;
    var t2 := Fixed(d.name, 64) + t3;
    assert p[0..] == ToLe(d.id, 8) + t2;
    Advance(p, 0, ToLe(d.id, 8), t2);
    Advance(p, 8, Fixed(d.name, 64), t3);
    Advance(p, 72, Fixed(d.image, 128), t4);
    Advance(p, 200, ToLe(d.replicas, 4), t5);
    Advance(p, 204, ToLe(d.readyReplicas, 4), paused + t7);
    Advance(p, 208, paused, t7);
    Advance(p, 209, ToLe(d.version, 4), gpu);
    assert Field(p, 213, 2) == p[213..];
  }

  lemma {:induction false} DeploymentReadBack(d: DeploymentInfo)
    requires DeploymentFits(d)
    ensures |DeploymentBytes(d)| == DEPLOYMENT && DeploymentAt(DeploymentBytes(d), 0) == d
  {
    var p := DeploymentBytes(d);
    DeploymentFields(d);
    Widths();
    NumberAt(p, 0, 8, d.id);
    TextAt(p, 8, 64, d.name);
    TextAt(p, 72, 128, d.image);
    NumberAt(p, 200, 4, d.replicas);
    NumberAt(p, 204, 4, d.readyReplicas);
    BytesAt(p, 208, [if d.paused then 1 else 0]);
    NumberAt(p, 209, 4, d.version);
    BytesAt(p, 213, [d.gpuType, d.gpuCount]);
    assert p[208 + 0] == (if d.paused then 1 else 0) && p[213 + 0] == d.gpuType && p[213 + 1] == d.gpuCount;
  }

  lemma {:induction false} PodReadBack(pod: PodInfo)
    requires PodFits(pod)
    ensures |PodBytes(pod)| == POD && PodAt(PodBytes(pod), 0) == pod
  {
    var p := PodBytes(pod);
    var phase := [pod.phase];
    var t3 := ToLe(pod.nodeId, 8) + phase;
    var t2 := ToLe(pod.deploymentId, 8) + t3;
    assert p[0..] == ToLe(pod.id, 8) + t2;
    Advance(p, 0, ToLe(pod.id, 8), t2);
    Advance(p, 8, ToLe(pod.deploymentId, 8), t3);
    Advance(p, 16, ToLe(pod.nodeId, 8), phase);
    assert p[24] == p[24..][0];
    Widths();
    LeRoundTrip(pod.id, 8);
    LeRoundTrip(pod.deploymentId, 8);
    LeRoundTrip(pod.nodeId, 8);
  }

  lemma {:induction false} AgentFields(w: WorkerInfo)
    requires AgentFits(w)
    ensures
      var p := AgentBytes(w);
      && |p| == 83 && Field(p, 0, 64) == Fixed(w.hostname, 64) && Field(p, 64, 8) == ToLe(w.nodeId, 8)
      && Field(p, 72, 1) == [if w.connected then 1 else 0] && Field(p, 73, 8) == ToLe(Unsigned64(w.lastHeartbeat), 8)
      && Field(p, 81, 2) == [w.gpuType, w.gpuCount]
  {
    var p := AgentBytes(w);
    var gpu := [w.gpuType, w.gpuCount];
    var beat := ToLe(Unsigned64(w.lastHeartbeat), 8);
    var connected: Bytes := [if w.connected then 1 else 0];
    var t2 := ToLe(w.nodeId, 8) + (connected + (beat + gpu));
    assert p[0..] == Fixed(w.hostname, 64) + t2;
    Advance(p, 0, Fixed(w.hostname, 64), t2);
    Advance(p, 64, ToLe(w.nodeId, 8), connected + (beat + gpu));
    Advance(p, 72, connected, beat + gpu);
    Advance(p, 73, beat, gpu);
    assert Field(p, 81, 2) == p[81..];
  }

  lemma {:induction false} AgentReadBack(w: WorkerInfo)
    requires AgentFits(w)
    ensures |AgentBytes(w)| == AGENT && AgentAt(AgentBytes(w), 0) == w
  {
    var p := AgentBytes(w);
    AgentFields(w);
    Widths();
    TextAt(p, 0, 64, w.hostname);
    NumberAt(p, 64, 8, w.nodeId);
    BytesAt(p, 72, [if w.connected then 1 else 0]);
    NumberAt(p, 73, 8, Unsigned64(w.lastHeartbeat));
    BytesAt(p, 81, [w.gpuType, w.gpuCount]);
    assert p[72 + 0] == (if w.connected then 1 else 0) && p[81 + 0] == w.gpuType && p[81 + 1] == w.gpuCount;
  }

  // -- Lists of records --

  function Cat(parts: seq<Bytes>): Bytes {
    if parts == [] then [] else parts[0] + Cat(parts[1..])
  }

  predicate Even(parts: seq<Bytes>, size: nat) {
    forall i | 0 <= i < |parts| :: |parts[i]| == size
  }

  lemma {:induction false} CatLength(parts: seq<Bytes>, size: nat)
    requires Even(parts, size)
    ensures |Cat(parts)| == size * |parts|
  {
    if parts != [] {
      CatLength(parts[1..], size);
      assert size * |parts| == size + size * |parts[1..]|;
    }
  }

  /** The `i`-th of equally long parts. */
  lemma {:induction false} CatAt(parts: seq<Bytes>, size: nat, i: nat)
    requires Even(parts, size) && i < |parts|
    ensures 0 <= size * i && size * i + size <= |Cat(parts)|
    ensures Cat(parts)[size * i..size * i + size] == parts[i]
  {
    CatLength(parts, size);
    var rest := parts[1..];
    if i == 0 {
      assert size * i == 0;
      assert Cat(parts)[..size] == parts[0];
    } else {
      CatLength(rest, size);
      CatAt(rest, size, i - 1);
      assert size * i == size + size * (i - 1);
      assert Cat(parts)[size + size * (i - 1)..size + size * (i - 1) + size] == Cat(rest)[size * (i - 1)..size * (i - 1) + size];
    }
  }

  /** A part of a part. */
  lemma Slice(data: Bytes, at: nat, part: Bytes, off: nat, width: nat)
    requires at + |part| <= |data| && data[at..at + |part|] == part && off + width <= |part|
    ensures data[at + off..at + off + width] == part[off..off + width]
  {
    var left, right := data[at + off..at + off + width], part[off..off + width];
    forall i | 0 <= i < width
      ensures left[i] == right[i]
    {
      assert left[i] == data[at + (off + i)] == data[at..at + |part|][off + i];
    }
  }

  lemma {:induction false} PartAt(data: Bytes, start: nat, parts: seq<Bytes>, size: nat, i: nat)
    requires Even(parts, size) && i < |parts| && start + |Cat(parts)| <= |data|
    requires data[start..start + |Cat(parts)|] == Cat(parts)
    ensures 0 <= size * i && start + size * i + size <= |data|
    ensures data[start + size * i..start + size * i + size] == parts[i]
  {
    CatAt(parts, size, i);
    Slice(data, start, Cat(parts), size * i, size);
  }

  // -- Reading depends on the record's own bytes --

  lemma NodeLocal(data: Bytes, at: nat, p: Bytes)
    requires at + NODE <= |data| && |p| == NODE && data[at..at + NODE] == p
    ensures NodeAt(data, at) == NodeAt(p, 0)
  {
    Slice(data, at, p, 0, 8);
    Slice(data, at, p, 8, 64);
    Slice(data, at, p, 76, 4);
    Slice(data, at, p, 80, 4);
    Slice(data, at, p, 84, 32);
    Slice(data, at, p, 116, 32);
    BytesAt(data, at, p);
    assert data[at + 72] == p[72] && data[at + 73] == p[73] && data[at + 74] == p[74] && data[at + 75] == p[75];
  }

  lemma DeploymentLocal(data: Bytes, at: nat, p: Bytes)
    requires at + DEPLOYMENT <= |data| && |p| == DEPLOYMENT && data[at..at + DEPLOYMENT] == p
    ensures DeploymentAt(data, at) == DeploymentAt(p, 0)
  {
    Slice(data, at, p, 0, 8);
    Slice(data, at, p, 8, 64);
    Slice(data, at, p, 72, 128);
    Slice(data, at, p, 200, 4);
    Slice(data, at, p, 204, 4);
    Slice(data, at, p, 209, 4);
  }

  lemma PodLocal(data: Bytes, at: nat, p: Bytes)
    requires at + POD <= |data| && |p| == POD && data[at..at + POD] == p
    ensures PodAt(data, at) == PodAt(p, 0)
  {
    Slice(data, at, p, 0, 8);
    Slice(data, at, p, 8, 8);
    Slice(data, at, p, 16, 8);
  }

  lemma AgentLocal(data: Bytes, at: nat, p: Bytes)
    requires at + AGENT <= |data| && |p| == AGENT && data[at..at + AGENT] == p
    ensures AgentAt(data, at) == AgentAt(p, 0)
  {
    Slice(data, at, p, 0, 64);
    Slice(data, at, p, 64, 8);
    Slice(data, at, p, 73, 8);
  }

  // -- The four lists --

  function NodeParts(nodes: seq<NodeInfo>): seq<Bytes> {
    seq(|nodes|, i requires 0 <= i < |nodes| => NodeBytes(nodes[i]))
  }

  function DeploymentParts(deployments: seq<DeploymentInfo>): seq<Bytes> {
    seq(|deployments|, i requires 0 <= i < |deployments| => DeploymentBytes(deployments[i]))
  }

  function PodParts(pods: seq<PodInfo>): seq<Bytes> {
    seq(|pods|, i requires 0 <= i < |pods| => PodBytes(pods[i]))
  }

  function AgentParts(agents: seq<WorkerInfo>): seq<Bytes>
    requires forall i | 0 <= i < |agents| :: AgentFits(agents[i])
  {
    seq(|agents|, i requires 0 <= i < |agents| => AgentBytes(agents[i]))
  }

  lemma {:induction false} NodePartAt(data: Bytes, start: nat, nodes: seq<NodeInfo>, i: nat)
    requires (forall j | 0 <= j < |nodes| :: NodeFits(nodes[j])) && i < |nodes|
    requires start + |Cat(NodeParts(nodes))| <= |data|
    requires data[start..start + |Cat(NodeParts(nodes))|] == Cat(NodeParts(nodes))
    ensures start + NODE * i + NODE <= |data| && NodeAt(data, start + NODE * i) == nodes[i]
  {
    var parts := NodeParts(nodes);
    NodePartsEven(nodes);
    PartAt(data, start, parts, NODE, i);
    NodeReadBack(nodes[i]);
    NodeLocal(data, start + NODE * i, parts[i]);
  }

  lemma {:induction false} NodePartsEven(nodes: seq<NodeInfo>)
    requires forall i | 0 <= i < |nodes| :: NodeFits(nodes[i])
    ensures Even(NodeParts(nodes), NODE) && |Cat(NodeParts(nodes))| == NODE * |nodes|
  {
    var parts := NodeParts(nodes);
    forall i | 0 <= i < |nodes|
      ensures |parts[i]| == NODE
    {
      NodeReadBack(nodes[i]);
    }
    CatLength(parts, NODE);
  }

  lemma {:induction false} NodesReadBack(data: Bytes, start: nat, nodes: seq<NodeInfo>)
    requires forall i | 0 <= i < |nodes| :: NodeFits(nodes[i])
    requires start + |Cat(NodeParts(nodes))| <= |data|
    requires data[start..start + |Cat(NodeParts(nodes))|] == Cat(NodeParts(nodes))
    ensures start + NODE * |nodes| <= |data| && NodesFrom(data, start, |nodes|) == nodes
  {
    NodePartsEven(nodes);
    forall i | 0 <= i < |nodes|
      ensures NodeAt(data, start + NODE * i) == nodes[i]
    {
      NodePartAt(data, start, nodes, i);
    }
  }

  lemma {:induction false} DeploymentPartAt(data: Bytes, start: nat, deployments: seq<DeploymentInfo>, i: nat)
    requires (forall j | 0 <= j < |deployments| :: DeploymentFits(deployments[j])) && i < |deployments|
    requires start + |Cat(DeploymentParts(deployments))| <= |data|
    requires data[start..start + |Cat(DeploymentParts(deployments))|] == Cat(DeploymentParts(deployments))
    ensures start + DEPLOYMENT * i + DEPLOYMENT <= |data| && DeploymentAt(data, start + DEPLOYMENT * i) == deployments[i]
  {
    var parts := DeploymentParts(deployments);
    DeploymentPartsEven(deployments);
    PartAt(data, start, parts, DEPLOYMENT, i);
    DeploymentReadBack(deployments[i]);
    DeploymentLocal(data, start + DEPLOYMENT * i, parts[i]);
  }

  lemma {:induction false} DeploymentPartsEven(deployments: seq<DeploymentInfo>)
    requires forall i | 0 <= i < |deployments| :: DeploymentFits(deployments[i])
    ensures Even(DeploymentParts(deployments), DEPLOYMENT) && |Cat(DeploymentParts(deployments))| == DEPLOYMENT * |deployments|
  {
    var parts := DeploymentParts(deployments);
    forall i | 0 <= i < |deployments|
      ensures |parts[i]| == DEPLOYMENT
    {
      DeploymentReadBack(deployments[i]);
    }
    CatLength(parts, DEPLOYMENT);
  }

  lemma {:induction false} DeploymentsReadBack(data: Bytes, start: nat, deployments: seq<DeploymentInfo>)
    requires forall i | 0 <= i < |deployments| :: DeploymentFits(deployments[i])
    requires start + |Cat(DeploymentParts(deployments))| <= |data|
    requires data[start..start + |Cat(DeploymentParts(deployments))|] == Cat(DeploymentParts(deployments))
    ensures start + DEPLOYMENT * |deployments| <= |data| && DeploymentsFrom(data, start, |deployments|) == deployments
  {
    DeploymentPartsEven(deployments);
    forall i | 0 <= i < |deployments|
      ensures DeploymentAt(data, start + DEPLOYMENT * i) == deployments[i]
    {
      DeploymentPartAt(data, start, deployments, i);
    }
  }

  lemma {:induction false} PodPartAt(data: Bytes, start: nat, pods: seq<PodInfo>, i: nat)
    requires (forall j | 0 <= j < |pods| :: PodFits(pods[j])) && i < |pods|
    requires start + |Cat(PodParts(pods))| <= |data|
    requires data[start..start + |Cat(PodParts(pods))|] == Cat(PodParts(pods))
    ensures start + POD * i + POD <= |data| && PodAt(data, start + POD * i) == pods[i]
  {
    var parts := PodParts(pods);
    PodPartsEven(pods);
    PartAt(data, start, parts, POD, i);
    PodReadBack(pods[i]);
    PodLocal(data, start + POD * i, parts[i]);
  }

  lemma {:induction false} PodPartsEven(pods: seq<PodInfo>)
    requires forall i | 0 <= i < |pods| :: PodFits(pods[i])
    ensures Even(PodParts(pods), POD) && |Cat(PodParts(pods))| == POD * |pods|
  {
    var parts := PodParts(pods);
    forall i | 0 <= i < |pods|
      ensures |parts[i]| == POD
    {
      PodReadBack(pods[i]);
    }
    CatLength(parts, POD);
  }

  lemma {:induction false} PodsReadBack(data: Bytes, start: nat, pods: seq<PodInfo>)
    requires forall i | 0 <= i < |pods| :: PodFits(pods[i])
    requires start + |Cat(PodParts(pods))| <= |data|
    requires data[start..start + |Cat(PodParts(pods))|] == Cat(PodParts(pods))
    ensures start + POD * |pods| <= |data| && PodsFrom(data, start, |pods|) == pods
  {
    PodPartsEven(pods);
    forall i | 0 <= i < |pods|
      ensures PodAt(data, start + POD * i) == pods[i]
    {
      PodPartAt(data, start, pods, i);
    }
  }

  lemma {:induction false} AgentPartAt(data: Bytes, start: nat, agents: seq<WorkerInfo>, i: nat)
    requires (forall j | 0 <= j < |agents| :: AgentFits(agents[j])) && i < |agents|
    requires start + |Cat(AgentParts(agents))| <= |data|
    requires data[start..start + |Cat(AgentParts(agents))|] == Cat(AgentParts(agents))
    ensures start + AGENT * i + AGENT <= |data| && AgentAt(data, start + AGENT * i) == agents[i]
  {
    var parts := AgentParts(agents);
    AgentPartsEven(agents);
    PartAt(data, start, parts, AGENT, i);
    AgentReadBack(agents[i]);
    AgentLocal(data, start + AGENT * i, parts[i]);
  }

  lemma {:induction false} AgentPartsEven(agents: seq<WorkerInfo>)
    requires forall i | 0 <= i < |agents| :: AgentFits(agents[i])
    ensures Even(AgentParts(agents), AGENT) && |Cat(AgentParts(agents))| == AGENT * |agents|
  {
    var parts := AgentParts(agents);
    forall i | 0 <= i < |agents|
      ensures |parts[i]| == AGENT
    {
      AgentReadBack(agents[i]);
    }
    CatLength(parts, AGENT);
  }

  lemma {:induction false} AgentsReadBack(data: Bytes, start: nat, agents: seq<WorkerInfo>)
    requires forall i | 0 <= i < |agents| :: AgentFits(agents[i])
    requires start + |Cat(AgentParts(agents))| <= |data|
    requires data[start..start + |Cat(AgentParts(agents))|] == Cat(AgentParts(agents))
    ensures start + AGENT * |agents| <= |data| && AgentsFrom(data, start, |agents|) == agents
  {
    AgentPartsEven(agents);
    forall i | 0 <= i < |agents|
      ensures AgentAt(data, start + AGENT * i) == agents[i]
    {
      AgentPartAt(data, start, agents, i);
    }
  }

  function QueueParts(queue: seq<nat>): seq<Bytes> {
    seq(|queue|, i requires 0 <= i < |queue| => ToLe(queue[i], 8))
  }

  lemma {:induction false} QueueReadBack(data: Bytes, start: nat, queue: seq<nat>)
    requires |queue| == 5 && forall i | 0 <= i < 5 :: queue[i] <= U64_MAX
    requires start + |Cat(QueueParts(queue))| <= |data| && data[start..start + |Cat(QueueParts(queue))|] == Cat(QueueParts(queue))
    ensures |Cat(QueueParts(queue))| == QUEUE && QueueFrom(data, start) == queue
  {
    var parts := QueueParts(queue);
    CatLength(parts, 8);
    Widths();
    forall i | 0 <= i < 5
      ensures Int(data, start + 8 * i, 8) == queue[i]
    {
      PartAt(data, start, parts, 8, i);
      LeRoundTrip(queue[i], 8);
    }
  }

  // -- The snapshot --

  predicate StateFits(c: ClusterState) {
    && c.viewNumber <= U64_MAX && c.commitMin <= U64_MAX && c.opNumber <= U64_MAX
    && |c.nodes| <= MAX_NODES && |c.deployments| <= MAX_DEPLOYMENTS && |c.pods| <= MAX_PODS && |c.agents| <= MAX_AGENTS
    && (forall i | 0 <= i < |c.nodes| :: NodeFits(c.nodes[i]))
    && (forall i | 0 <= i < |c.deployments| :: DeploymentFits(c.deployments[i]))
    && (forall i | 0 <= i < |c.pods| :: PodFits(c.pods[i]))
    && (forall i | 0 <= i < |c.agents| :: AgentFits(c.agents[i]))
    && |c.queue| == 5 && (forall i | 0 <= i < 5 :: c.queue[i] <= U64_MAX)
  }

  function HeaderBytes(kind: Byte, c: ClusterState): Bytes {
    [kind] + (ToLe(c.viewNumber, 8) + (ToLe(c.commitMin, 8) + (ToLe(c.opNumber, 8) + [c.status, if c.isLeader then 1 else 0])))
  }

  /** The parts of a snapshot in order: the header, four counts each followed by its records, and the queue. */
  function Sections(kind: Byte, c: ClusterState): seq<Bytes>
    requires StateFits(c)
  {
    [HeaderBytes(kind, c),
     ToLe(|c.nodes|, 2), Cat(NodeParts(c.nodes)),
     ToLe(|c.deployments|, 2), Cat(DeploymentParts(c.deployments)),
     ToLe(|c.pods|, 2), Cat(PodParts(c.pods)),
     ToLe(|c.agents|, 2), Cat(AgentParts(c.agents)),
     Cat(QueueParts(c.queue))]
  }

  function StateBytes(kind: Byte, c: ClusterState): Bytes
    requires StateFits(c)
  {
    Cat(Sections(kind, c))
  }

  /** Where the `i`-th part begins. */
  function Offset(parts: seq<Bytes>, i: nat): nat
    requires i <= |parts|
  {
    if i == 0 then 0 else Offset(parts, i - 1) + |parts[i - 1]|
  }

  lemma {:induction false} CatSplit(front: seq<Bytes>, back: seq<Bytes>)
    ensures Cat(front + back) == Cat(front) + Cat(back)
  {
    if front == [] {
      assert front + back == back;
    } else {
      assert (front + back)[1..] == front[1..] + back;
      CatSplit(front[1..], back);
    }
  }

  lemma {:induction false} CatOffset(parts: seq<Bytes>, i: nat)
    requires i <= |parts|
    ensures |Cat(parts[..i])| == Offset(parts, i)
  {
    if i > 0 {
      assert parts[..i] == parts[..i - 1] + [parts[i - 1]];
      CatSplit(parts[..i - 1], [parts[i - 1]]);
      assert Cat([parts[i - 1]]) == parts[i - 1];
      CatOffset(parts, i - 1);
    }
  }

  /** Each part is found at its offset. */
  lemma {:induction false} PartFound(parts: seq<Bytes>, i: nat)
    requires i < |parts|
    ensures Offset(parts, i) + |parts[i]| <= |Cat(parts)|
    ensures Cat(parts)[Offset(parts, i)..Offset(parts, i) + |parts[i]|] == parts[i]
  {
    CatOffset(parts, i);
    assert parts == parts[..i] + parts[i..];
    CatSplit(parts[..i], parts[i..]);
    assert parts[i..][0] == parts[i];
  }

  function CountsOf(c: ClusterState): Counts {
    Counts(|c.nodes|, |c.deployments|, |c.pods|, |c.agents|)
  }

  lemma {:induction false} ListLengths(c: ClusterState)
    requires StateFits(c)
    ensures |Cat(NodeParts(c.nodes))| == NODE * |c.nodes| && |Cat(DeploymentParts(c.deployments))| == DEPLOYMENT * |c.deployments|
    ensures |Cat(PodParts(c.pods))| == POD * |c.pods| && |Cat(AgentParts(c.agents))| == AGENT * |c.agents|
    ensures |Cat(QueueParts(c.queue))| == QUEUE
  {
    NodePartsEven(c.nodes);
    DeploymentPartsEven(c.deployments);
    PodPartsEven(c.pods);
    AgentPartsEven(c.agents);
    CatLength(QueueParts(c.queue), 8);
  }

  lemma {:induction false} Offsets(kind: Byte, c: ClusterState)
    requires StateFits(c)
    ensures
      var parts := Sections(kind, c);
      var k := CountsOf(c);
      && Offset(parts, 0) == 0 && Offset(parts, 1) == k.NodesAt() && Offset(parts, 2) == k.NodesAt() + 2
      && Offset(parts, 3) == k.DeploymentsAt() && Offset(parts, 4) == k.DeploymentsAt() + 2
      && Offset(parts, 5) == k.PodsAt() && Offset(parts, 6) == k.PodsAt() + 2
      && Offset(parts, 7) == k.AgentsAt() && Offset(parts, 8) == k.AgentsAt() + 2
      && Offset(parts, 9) == k.QueueAt() && Offset(parts, 10) == k.QueueAt() + QUEUE
  {
    ListLengths(c);
    var parts := Sections(kind, c);
    assert |HeaderBytes(kind, c)| == HEADER;
    assert Offset(parts, 1) == Offset(parts, 0) + |parts[0]|;
    assert Offset(parts, 2) == Offset(parts, 1) + |parts[1]|;
    assert Offset(parts, 3) == Offset(parts, 2) + |parts[2]|;
    assert Offset(parts, 4) == Offset(parts, 3) + |parts[3]|;
    assert Offset(parts, 5) == Offset(parts, 4) + |parts[4]|;
    assert Offset(parts, 6) == Offset(parts, 5) + |parts[5]|;
    assert Offset(parts, 7) == Offset(parts, 6) + |parts[6]|;
    assert Offset(parts, 8) == Offset(parts, 7) + |parts[7]|;
    assert Offset(parts, 9) == Offset(parts, 8) + |parts[8]|;
    assert Offset(parts, 10) == Offset(parts, 9) + |parts[9]|;
  }

  lemma {:induction false} StateLength(kind: Byte, c: ClusterState)
    requires StateFits(c)
    ensures |StateBytes(kind, c)| == CountsOf(c).QueueAt() + QUEUE
  {
    var parts := Sections(kind, c);
    CatOffset(parts, 10);
    assert parts[..10] == parts;
    Offsets(kind, c);
  }

  /** A count is found at its offset. */
  lemma {:induction false} CountFound(parts: seq<Bytes>, i: nat, n: nat)
    requires i < |parts| && parts[i] == ToLe(n, 2) && n < 0x1_0000
    ensures Offset(parts, i) + 2 <= |Cat(parts)| && Int(Cat(parts), Offset(parts, i), 2) == n
  {
    PartFound(parts, i);
    Widths();
    LeRoundTrip(n, 2);
  }

  lemma {:induction false} CountsReadBack(kind: Byte, c: ClusterState)
    requires StateFits(c)
    ensures Shaped(StateBytes(kind, c), CountsOf(c))
  {
    var parts := Sections(kind, c);
    Offsets(kind, c);
    StateLength(kind, c);
    CountFound(parts, 1, |c.nodes|);
    CountFound(parts, 3, |c.deployments|);
    CountFound(parts, 5, |c.pods|);
    CountFound(parts, 7, |c.agents|);
  }

  lemma {:induction false} HeaderReadBack(kind: Byte, c: ClusterState)
    requires StateFits(c)
    ensures
      var h := HeaderBytes(kind, c);
      && |h| == HEADER && Int(h, 1, 8) == c.viewNumber && Int(h, 9, 8) == c.commitMin && Int(h, 17, 8) == c.opNumber
      && h[25] == c.status && (h[26] == 1 <==> c.isLeader)
  {
    var h := HeaderBytes(kind, c);
    var flags := [c.status, if c.isLeader then 1 else 0];
    var t3 := ToLe(c.opNumber, 8) + flags;
    var t2 := ToLe(c.commitMin, 8) + t3;
    var t1 := ToLe(c.viewNumber, 8) + t2;
    assert h[0..] == [kind] + t1;
    Advance(h, 0, [kind], t1);
    Advance(h, 1, ToLe(c.viewNumber, 8), t2);
    Advance(h, 9, ToLe(c.commitMin, 8), t3);
    Advance(h, 17, ToLe(c.opNumber, 8), flags);
    assert h[25] == h[25..][0] && h[26] == h[25..][1];
    Widths();
    LeRoundTrip(c.viewNumber, 8);
    LeRoundTrip(c.commitMin, 8);
    LeRoundTrip(c.opNumber, 8);
  }

  lemma {:induction false} HeaderFound(kind: Byte, c: ClusterState)
    requires StateFits(c)
    ensures
      var data := StateBytes(kind, c);
      && |data| >= HEADER && Int(data, 1, 8) == c.viewNumber && Int(data, 9, 8) == c.commitMin && Int(data, 17, 8) == c.opNumber
      && data[25] == c.status && (data[26] == 1 <==> c.isLeader)
  {
    var data := StateBytes(kind, c);
    var h := HeaderBytes(kind, c);
    HeaderReadBack(kind, c);
    PartFound(Sections(kind, c), 0);
    assert data[0..0 + |h|] == h;
    Slice(data, 0, h, 1, 8);
    Slice(data, 0, h, 9, 8);
    Slice(data, 0, h, 17, 8);
    assert data[..|h|][25] == h[25] && data[..|h|][26] == h[26];
  }

  lemma {:induction false} NodesFound(kind: Byte, c: ClusterState)
    requires StateFits(c)
    ensures
      var at := CountsOf(c).NodesAt() + 2;
      at + NODE * |c.nodes| <= |StateBytes(kind, c)| && NodesFrom(StateBytes(kind, c), at, |c.nodes|) == c.nodes
  {
    Offsets(kind, c);
    PartFound(Sections(kind, c), 2);
    NodesReadBack(StateBytes(kind, c), CountsOf(c).NodesAt() + 2, c.nodes);
  }

  lemma {:induction false} DeploymentsFound(kind: Byte, c: ClusterState)
    requires StateFits(c)
    ensures
      var at := CountsOf(c).DeploymentsAt() + 2;
      && at + DEPLOYMENT * |c.deployments| <= |StateBytes(kind, c)|
      && DeploymentsFrom(StateBytes(kind, c), at, |c.deployments|) == c.deployments
  {
    Offsets(kind, c);
    PartFound(Sections(kind, c), 4);
    DeploymentsReadBack(StateBytes(kind, c), CountsOf(c).DeploymentsAt() + 2, c.deployments);
  }

  lemma {:induction false} PodsFound(kind: Byte, c: ClusterState)
    requires StateFits(c)
    ensures
      var at := CountsOf(c).PodsAt() + 2;
      at + POD * |c.pods| <= |StateBytes(kind, c)| && PodsFrom(StateBytes(kind, c), at, |c.pods|) == c.pods
  {
    Offsets(kind, c);
    PartFound(Sections(kind, c), 6);
    PodsReadBack(StateBytes(kind, c), CountsOf(c).PodsAt() + 2, c.pods);
  }

  lemma {:induction false} AgentsFound(kind: Byte, c: ClusterState)
    requires StateFits(c)
    ensures
      var at := CountsOf(c).AgentsAt() + 2;
      at + AGENT * |c.agents| <= |StateBytes(kind, c)| && AgentsFrom(StateBytes(kind, c), at, |c.agents|) == c.agents
  {
    Offsets(kind, c);
    PartFound(Sections(kind, c), 8);
    AgentsReadBack(StateBytes(kind, c), CountsOf(c).AgentsAt() + 2, c.agents);
  }

  lemma {:induction false} QueueFound(kind: Byte, c: ClusterState)
    requires StateFits(c)
    ensures
      var at := CountsOf(c).QueueAt();
      at + QUEUE <= |StateBytes(kind, c)| && QueueFrom(StateBytes(kind, c), at) == c.queue
  {
    Offsets(kind, c);
    ListLengths(c);
    PartFound(Sections(kind, c), 9);
    QueueReadBack(StateBytes(kind, c), CountsOf(c).QueueAt(), c.queue);
  }

  lemma {:induction false} StateReadBack(kind: Byte, c: ClusterState)
    requires StateFits(c) && Shaped(StateBytes(kind, c), CountsOf(c))
    ensures StateOf(StateBytes(kind, c), CountsOf(c)) == c
  {
    HeaderFound(kind, c);
    NodesFound(kind, c);
    DeploymentsFound(kind, c);
    PodsFound(kind, c);
    AgentsFound(kind, c);
    QueueFound(kind, c);
  }

  /** Every snapshot whose fields fit is read back from its bytes. */
  method RoundTrip(kind: Byte, c: ClusterState) returns (r: Option<ClusterState>)
    requires StateFits(c)
    ensures r == Some(c)
  {
    CountsReadBack(kind, c);
    StateReadBack(kind, c);
    r := ParseClusterState(StateBytes(kind, c));
  }
}
