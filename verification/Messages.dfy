/** The messages exchanged between the control plane and a worker. */
module Messages {
  import opened Basics

  datatype GpuType = NoGpu | A100_40 | A100_80 | H100Sxm | H100Pcie | H200 | L40s | A10g | T4

  datatype EnvEntry = EnvEntry(name: Text, value: Text, isSecretRef: bool)

  datatype StartPodCmd = StartPodCmd(
    podId: U64,
    deploymentId: U64,
    image: Text,
    entrypoint: Text,
    port: U16,
    gpuCount: U8,
    gpuType: GpuType,
    cpuMillicores: U32,
    memoryMegabytes: U32,
    juicefsPath: Text,
    livenessPath: Text,
    readinessPath: Text,
    envVars: seq<EnvEntry>,
    pullRegistry: Text,
    pullUsername: Text,
    pullPassword: Text,
    pullPasswordIsSecret: bool)

  datatype ControlMessage =
    | StartPod(start: StartPodCmd)
    | StopPod(podId: U64, gracePeriodMs: U64)
    | ProbePod(podId: U64)
    | RunRequest(requestId: U64, deploymentId: U64, payload: Bytes)

  datatype PodStatusReport =
    | ReportImagePulling
    | ReportCreating
    | ReportRunning
    | ReportStopped(exitCode: I32)
    | ReportFailed(reason: Text)
  {
    predicate Terminal() { ReportStopped? || ReportFailed? }
  }

  datatype WorkerMessage =
    | NodeRegister(nodeName: Text, cpuMillicores: U32, memoryMegabytes: U32, gpuType: GpuType, gpuCount: U8)
    | NodeHeartbeat(tick: int, activePods: int, gpuFree: int)
    | PodStatusEvent(podId: U64, report: PodStatusReport)
    | RunResponse(requestId: U64, status: U8, payload: Bytes)
}
