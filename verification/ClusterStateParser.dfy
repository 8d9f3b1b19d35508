/**
 The cluster state snapshot: a fixed header, four counted lists of fixed-size records, and the queue
 statistics. The parser accepts exactly the byte strings whose length their own counts account for.
 */
module ClusterStateParser {
  import opened Basics
  import opened Wire
  import opened MessageCodec

  const HEADER: nat := 27
  const NODE: nat := 148
  const DEPLOYMENT: nat := 215
  const POD: nat := 25
  const AGENT: nat := 83
  const QUEUE: nat := 40

  const MAX_NODES: nat := 128
  const MAX_DEPLOYMENTS: nat := 64
  const MAX_PODS: nat := 512
  const MAX_AGENTS: nat := 128

  datatype NodeInfo = NodeInfo(id: nat, name: Text, status: Byte, gpuType: Byte, gpuCount: Byte, allocatableGpu: Byte,
                               cpu: nat, memory: nat, region: Text, provider: Text)
  datatype DeploymentInfo = DeploymentInfo(id: nat, name: Text, image: Text, replicas: nat, readyReplicas: nat,
                                           paused: bool, version: nat, gpuType: Byte, gpuCount: Byte)
  datatype PodInfo = PodInfo(id: nat, deploymentId: nat, nodeId: nat, phase: Byte)
  datatype WorkerInfo = WorkerInfo(hostname: Text, nodeId: nat, connected: bool, lastHeartbeat: int, gpuType: Byte,
                                   gpuCount: Byte)

  datatype ClusterState = ClusterState(
    viewNumber: nat, commitMin: nat, opNumber: nat, status: Byte, isLeader: bool,
    nodes: seq<NodeInfo>, deployments: seq<DeploymentInfo>, pods: seq<PodInfo>, agents: seq<WorkerInfo>,
    queue: seq<nat>)

  /** How many records of each kind there are. */
  datatype Counts = Counts(nodes: nat, deployments: nat, pods: nat, agents: nat)
  {
    predicate Bounded() {
      nodes <= MAX_NODES && deployments <= MAX_DEPLOYMENTS && pods <= MAX_PODS && agents <= MAX_AGENTS
    }
    // Where each list's count is.
    function NodesAt(): nat { HEADER }
    function DeploymentsAt(): nat { NodesAt() + 2 + NODE * nodes }
    function PodsAt(): nat { DeploymentsAt() + 2 + DEPLOYMENT * deployments }
    function AgentsAt(): nat { PodsAt() + 2 + POD * pods }
    function QueueAt(): nat { AgentsAt() + 2 + AGENT * agents }
  }

  function Int(data: Bytes, at: nat, width: nat): nat
    requires at + width <= |data|
  {
    FromLe(data[at..at + width])
  }

  /** The length and the embedded counts agree. */
  predicate Shaped(data: Bytes, c: Counts) {
    && c.Bounded()
    && |data| == 75 + NODE * c.nodes + DEPLOYMENT * c.deployments + POD * c.pods + AGENT * c.agents
    && Int(data, c.NodesAt(), 2) == c.nodes
    && Int(data, c.DeploymentsAt(), 2) == c.deployments
    && Int(data, c.PodsAt(), 2) == c.pods
    && Int(data, c.AgentsAt(), 2) == c.agents
  }

  /** A byte string fits at most one set of counts. */
  lemma ShapeUnique(data: Bytes, c: Counts, d: Counts)
    requires Shaped(data, c) && Shaped(data, d)
    ensures c == d
  {
    assert c.nodes == d.nodes;
    assert c.deployments == d.deployments;
    assert c.pods == d.pods;
  }

  function Signed64(v: nat): int {
    if v < 0x8000_0000_0000_0000 then v else v - 0x1_0000_0000_0000_0000
  }

  function NodeAt(data: Bytes, at: nat): NodeInfo
    requires at + NODE <= |data|
  {
    NodeInfo(Int(data, at, 8), CString(Field(data, at + 8, 64)), data[at + 72], data[at + 73], data[at + 74], data[at + 75],
             Int(data, at + 76, 4), Int(data, at + 80, 4), CString(Field(data, at + 84, 32)), CString(Field(data, at + 116, 32)))
  }

  function DeploymentAt(data: Bytes, at: nat): DeploymentInfo
    requires at + DEPLOYMENT <= |data|
  {
    DeploymentInfo(Int(data, at, 8), CString(Field(data, at + 8, 64)), CString(Field(data, at + 72, 128)),
                   Int(data, at + 200, 4), Int(data, at + 204, 4), data[at + 208] == 1, Int(data, at + 209, 4),
                   data[at + 213], data[at + 214])
  }

  function PodAt(data: Bytes, at: nat): PodInfo
    requires at + POD <= |data|
  {
    PodInfo(Int(data, at, 8), Int(data, at + 8, 8), Int(data, at + 16, 8), data[at + 24])
  }

  function AgentAt(data: Bytes, at: nat): WorkerInfo
    requires at + AGENT <= |data|
  {
    WorkerInfo(CString(Field(data, at, 64)), Int(data, at + 64, 8), data[at + 72] == 1, Signed64(Int(data, at + 73, 8)),
               data[at + 81], data[at + 82])
  }

  function NodesFrom(data: Bytes, start: nat, count: nat): seq<NodeInfo>
    requires start + NODE * count <= |data|
  {
    seq(count, i requires 0 <= i < count => NodeAt(data, start + NODE * i))
  }

  function DeploymentsFrom(data: Bytes, start: nat, count: nat): seq<DeploymentInfo>
    requires start + DEPLOYMENT * count <= |data|
  {
    seq(count, i requires 0 <= i < count => DeploymentAt(data, start + DEPLOYMENT * i))
  }

  function PodsFrom(data: Bytes, start: nat, count: nat): seq<PodInfo>
    requires start + POD * count <= |data|
  {
    seq(count, i requires 0 <= i < count => PodAt(data, start + POD * i))
  }

  function AgentsFrom(data: Bytes, start: nat, count: nat): seq<WorkerInfo>
    requires start + AGENT * count <= |data|
  {
    seq(count, i requires 0 <= i < count => AgentAt(data, start + AGENT * i))
  }

  function QueueFrom(data: Bytes, start: nat): seq<nat>
    requires start + QUEUE <= |data|
  {
    seq(5, i requires 0 <= i < 5 => Int(data, start + 8 * i, 8))
  }

  function StateOf(data: Bytes, c: Counts): ClusterState
    requires Shaped(data, c)
  {
    ClusterState(
      Int(data, 1, 8), Int(data, 9, 8), Int(data, 17, 8), data[25], data[26] == 1,
      NodesFrom(data, c.NodesAt() + 2, c.nodes), DeploymentsFrom(data, c.DeploymentsAt() + 2, c.deployments),
      PodsFrom(data, c.PodsAt() + 2, c.pods), AgentsFrom(data, c.AgentsAt() + 2, c.agents),
      QueueFrom(data, c.QueueAt()))
  }

  /** Reads a count and checks that its records are there. */
  method ReadCount(data: Bytes, pos: nat, max: nat, size: nat) returns (r: Option<nat>)
    requires size > 0
    ensures r.Some? <==> pos + 2 <= |data| && Int(data, pos, 2) <= max && pos + 2 + size * Int(data, pos, 2) <= |data|
    ensures r.Some? ==> r.value == Int(data, pos, 2)
  {
    if pos + 2 > |data| {
      return None;
    }
    var count := FromLe(data[pos..pos + 2]);
    if count > max {
      return None;
    }
    Quotient(count, |data| - (pos + 2), size);
    if count > (|data| - (pos + 2)) / size {
      return None;
    }
    return Some(count);
  }

  lemma Quotient(count: nat, room: nat, size: nat)
    requires size > 0
    ensures count <= room / size <==> size * count <= room
  {
    var q := room / size;
    assert room == size * q + room % size;
    if count <= q {
      assert size * count <= size * q;
    } else {
      assert size * (q + 1) <= size * count;
    }
  }

  method ReadNodes(data: Bytes, start: nat, count: nat) returns (nodes: seq<NodeInfo>, pos: nat)
    requires start + NODE * count <= |data|
    ensures nodes == NodesFrom(data, start, count) && pos == start + NODE * count
  {
    nodes, pos := [], start;
    for i := 0 to count
      invariant pos == start + NODE * i && |nodes| == i
      invariant forall j | 0 <= j < i :: nodes[j] == NodeAt(data, start + NODE * j)
    {
      nodes := nodes + [NodeAt(data, pos)];
      pos := pos + NODE;
    }
  }

  method ReadDeployments(data: Bytes, start: nat, count: nat) returns (deployments: seq<DeploymentInfo>, pos: nat)
    requires start + DEPLOYMENT * count <= |data|
    ensures deployments == DeploymentsFrom(data, start, count) && pos == start + DEPLOYMENT * count
  {
    deployments, pos := [], start;
    for i := 0 to count
      invariant pos == start + DEPLOYMENT * i && |deployments| == i
      invariant forall j | 0 <= j < i :: deployments[j] == DeploymentAt(data, start + DEPLOYMENT * j)
    {
      deployments := deployments + [DeploymentAt(data, pos)];
      pos := pos + DEPLOYMENT;
    }
  }

  method ReadPods(data: Bytes, start: nat, count: nat) returns (pods: seq<PodInfo>, pos: nat)
    requires start + POD * count <= |data|
    ensures pods == PodsFrom(data, start, count) && pos == start + POD * count
  {
    pods, pos := [], start;
    for i := 0 to count
      invariant pos == start + POD * i && |pods| == i
      invariant forall j | 0 <= j < i :: pods[j] == PodAt(data, start + POD * j)
    {
      pods := pods + [PodAt(data, pos)];
      pos := pos + POD;
    }
  }

  method ReadAgents(data: Bytes, start: nat, count: nat) returns (agents: seq<WorkerInfo>, pos: nat)
    requires start + AGENT * count <= |data|
    ensures agents == AgentsFrom(data, start, count) && pos == start + AGENT * count
  {
    agents, pos := [], start;
    for i := 0 to count
      invariant pos == start + AGENT * i && |agents| == i
      invariant forall j | 0 <= j < i :: agents[j] == AgentAt(data, start + AGENT * j)
    {
      agents := agents + [AgentAt(data, pos)];
      pos := pos + AGENT;
    }
  }

  method ReadQueue(data: Bytes, start: nat) returns (queue: seq<nat>, pos: nat)
    requires start + QUEUE <= |data|
    ensures queue == QueueFrom(data, start) && pos == start + QUEUE
  {
    queue, pos := [], start;
    for i := 0 to 5
      invariant pos == start + 8 * i && |queue| == i
      invariant forall j | 0 <= j < i :: queue[j] == Int(data, start + 8 * j, 8)
    {
      queue := queue + [FromLe(data[pos..pos + 8])];
      pos := pos + 8;
    }
  }

  /** The counts the parser finds, if every list and the statistics are where they should be. */
  method FindShape(data: Bytes) returns (r: Option<Counts>)
    ensures r.Some? <==> exists c :: Shaped(data, c)
    ensures r.Some? ==> Shaped(data, r.value)
  {
    if |data| < 29 {
      return None;
    }
    var nodes := ReadCount(data, HEADER, MAX_NODES, NODE);
    if nodes.None? {
      return None;
    }
    var pos := HEADER + 2 + NODE * nodes.value;
    var deployments := ReadCount(data, pos, MAX_DEPLOYMENTS, DEPLOYMENT);
    if deployments.None? {
      return None;
    }
    pos := pos + 2 + DEPLOYMENT * deployments.value;
    var pods := ReadCount(data, pos, MAX_PODS, POD);
    if pods.None? {
      return None;
    }
    pos := pos + 2 + POD * pods.value;
    var agents := ReadCount(data, pos, MAX_AGENTS, AGENT);
    if agents.None? {
      return None;
    }
    pos := pos + 2 + AGENT * agents.value;
    if |data| - pos != QUEUE {
      return None;
    }
    var c := Counts(nodes.value, deployments.value, pods.value, agents.value);
    assert Shaped(data, c);
    return Some(c);
  }

  /** Accepts exactly the shaped byte strings and reads every record from its place; the whole input is
      consumed, so the final length check never fails. */
  method ParseClusterState(data: Bytes) returns (r: Option<ClusterState>)
    ensures r.Some? <==> exists c :: Shaped(data, c)
    ensures forall c | Shaped(data, c) :: r == Some(StateOf(data, c))
  {
    var found := FindShape(data);
    if found.None? {
      return None;
    }
    var c := found.value;
    var nodes, nodesEnd := ReadNodes(data, HEADER + 2, c.nodes);
    var deployments, deploymentsEnd := ReadDeployments(data, nodesEnd + 2, c.deployments);
    var pods, podsEnd := ReadPods(data, deploymentsEnd + 2, c.pods);
    var agents, agentsEnd := ReadAgents(data, podsEnd + 2, c.agents);
    var queue, pos := ReadQueue(data, agentsEnd);
    // The length invariant of the source.
    assert pos == |data|;
    r := Some(ClusterState(Int(data, 1, 8), Int(data, 9, 8), Int(data, 17, 8), data[25], data[26] == 1,
                           nodes, deployments, pods, agents, queue));
    forall d | Shaped(data, d)
      ensures d == c
    {
      ShapeUnique(data, c, d);
    }
  }
}
