/**
 The simulated container runtime under concurrent operations. Each operation runs as a few locked
 sections; the operations of one chunk touch different pods, and then every interleaving of their
 sections gives the same final state. It also gives the same results, unless several of them pull an
 image while the fault for its first pull is armed.
 */
module SimRuntime {
  import opened Basics
  import opened Lifecycle
  import opened WorkerState

  /** The state behind the runtime's lock. */
  datatype Inner = Inner(
    pods: map<Text, RuntimeStatus>,
    pullAttempts: map<Text, U64>,
    createAttempts: map<PodId, U64>,
    startAttempts: map<PodId, U64>,
    stopAttempts: map<PodId, U64>,
    statusAttempts: map<PodId, U64>)

  datatype Op = PullOp(image: Text) | CreateOp(id: PodId) | StartOp(id: PodId) | StopOp(id: PodId, attemptStop: bool)

  /** What an operation depends on and changes. */
  datatype Target = ImageTarget(name: Text) | PodTarget(id: PodId)

  function TargetOf(op: Op): Target {
    match op
    case PullOp(image) => ImageTarget(image)
    case CreateOp(id) => PodTarget(id)
    case StartOp(id) => PodTarget(id)
    case StopOp(id, _) => PodTarget(id)
  }

  datatype OpOutcome = Succeeded | StoppedWith(exitCode: I32) | Faulted | NotFound | NotTerminal

  /** How far a thread is: before its first section, between its two, or done. */
  datatype Progress = Begun | Halfway(stopError: Option<OpOutcome>) | Done(outcome: OpOutcome)

  /** Injected faults, as a fixed function of the kind of operation and its target. */
  datatype Kind = PullKind | CreateKind | StartKind | StopKind
  type Faults = (Kind, Target) -> bool

  function ContainerName(id: PodId): Text {
    Ascii("sim-pod-") + Decimal(id)
  }

  function Attempts<K>(attempts: map<K, U64>, key: K): U64 {
    if key in attempts then attempts[key] else 0
  }

  /** `next_attempt`: the counter wraps. */
  function Counted<K>(attempts: map<K, U64>, key: K): map<K, U64> {
    attempts[key := (Attempts(attempts, key) + 1) % (U64_MAX + 1)]
  }

  /** One locked section of a thread. */
  function Section(op: Op, p: Progress, s: Inner, faults: Faults): (Inner, Progress) {
    if p.Done? then (s, p)
    else
      match op
      case PullOp(image) =>
        (s.(pullAttempts := Counted(s.pullAttempts, image)),
         Done(if Attempts(s.pullAttempts, image) == 0 && faults(PullKind, ImageTarget(image)) then Faulted else Succeeded))
      case CreateOp(id) =>
        if p.Begun? then
          (s.(createAttempts := Counted(s.createAttempts, id)),
           if Attempts(s.createAttempts, id) == 0 && faults(CreateKind, PodTarget(id)) then Done(Faulted) else Halfway(None))
        else
          (s.(pods := s.pods[ContainerName(id) := Created(s.pods, ContainerName(id))]), Done(Succeeded))
      case StartOp(id) =>
        if p.Begun? then
          (s.(startAttempts := Counted(s.startAttempts, id)),
           if Attempts(s.startAttempts, id) == 0 && faults(StartKind, PodTarget(id)) then Done(Faulted) else Halfway(None))
        else
          (s.(pods := s.pods[ContainerName(id) := RunningStatus]), Done(Succeeded))
      case StopOp(id, attemptStop) =>
        if p.Begun? then
          if !attemptStop then (s, Halfway(None)) else StopSection(id, s, faults)
        else
          (s.(statusAttempts := Counted(s.statusAttempts, id)), Done(Verdict(s.pods, ContainerName(id), p.stopError)))
  }

  /** A container that exists and has not ended is left as it is. */
  function Created(pods: map<Text, RuntimeStatus>, name: Text): RuntimeStatus {
    if name in pods && (pods[name].RunningStatus? || pods[name].CreatedStatus?) then pods[name] else CreatedStatus
  }

  function StopSection(id: PodId, s: Inner, faults: Faults): (Inner, Progress) {
    var counted := s.(stopAttempts := Counted(s.stopAttempts, id));
    if Attempts(s.stopAttempts, id) == 0 && faults(StopKind, PodTarget(id)) then (counted, Halfway(Some(Faulted)))
    else if ContainerName(id) !in s.pods then (counted, Halfway(Some(NotFound)))
    else (counted.(pods := s.pods[ContainerName(id) := StoppedStatus(0)]), Halfway(None))
  }

  /** What a stop reports after it asked for the status. */
  function Verdict(pods: map<Text, RuntimeStatus>, name: Text, stopError: Option<OpOutcome>): OpOutcome {
    if name !in pods then (if stopError.Some? then stopError.value else NotFound)
    else if pods[name].StoppedStatus? then StoppedWith(pods[name].exitCode)
    else if stopError.Some? then stopError.value
    else NotTerminal
  }

  // -- Names --

  lemma {:induction false} DecimalNonEmpty(n: nat)
    ensures |Decimal(n)| >= 1
  {
  }

  lemma {:induction false} DecimalInjective(a: nat, b: nat)
    requires Decimal(a) == Decimal(b)
    ensures a == b
  {
    var x, y := Decimal(a), Decimal(b);
    assert x[|x| - 1] == 48 + a % 10 && y[|y| - 1] == 48 + b % 10;
    assert x[..|x| - 1] == (if a < 10 then [] else Decimal(a / 10));
    assert y[..|y| - 1] == (if b < 10 then [] else Decimal(b / 10));
    DecimalNonEmpty(a / 10);
    DecimalNonEmpty(b / 10);
    if a >= 10 && b >= 10 {
      DecimalInjective(a / 10, b / 10);
    }
  }

  lemma NamesDiffer(a: PodId, b: PodId)
    requires ContainerName(a) == ContainerName(b)
    ensures a == b
  {
    var prefix := Ascii("sim-pod-");
    assert ContainerName(a)[|prefix|..] == Decimal(a) && ContainerName(b)[|prefix|..] == Decimal(b);
    DecimalInjective(a, b);
  }

  // -- What one target sees --

  /** The part of the state that belongs to one target. */
  datatype Cell =
    | ImageCell(pulls: Option<U64>)
    | PodCell(container: Option<RuntimeStatus>, creates: Option<U64>, starts: Option<U64>, stops: Option<U64>, statuses: Option<U64>)

  function Lookup<K, V>(m: map<K, V>, k: K): Option<V> {
    if k in m then Some(m[k]) else None
  }

  function CellOf(s: Inner, t: Target): Cell {
    match t
    case ImageTarget(name) => ImageCell(Lookup(s.pullAttempts, name))
    case PodTarget(id) => PodCell(Lookup(s.pods, ContainerName(id)), Lookup(s.createAttempts, id), Lookup(s.startAttempts, id),
                            Lookup(s.stopAttempts, id), Lookup(s.statusAttempts, id))
  }

  /** A section reads and changes only what belongs to its own target. */
  lemma SectionElsewhere(op: Op, p: Progress, s: Inner, faults: Faults, t: Target)
    requires t != TargetOf(op)
    ensures CellOf(Section(op, p, s, faults).0, t) == CellOf(s, t)
  {
    if t.PodTarget? && !op.PullOp? {
      if ContainerName(t.id) == ContainerName(op.id) {
        NamesDiffer(t.id, op.id);
      }
    }
  }

  /** Two states look the same to an operation. */
  predicate Alike(op: Op, s: Inner, u: Inner) {
    CellOf(s, TargetOf(op)) == CellOf(u, TargetOf(op))
  }

  /** A section makes of states that look the same to it states that look the same to it. */
  predicate AlikeAfter(op: Op, p: Progress, s: Inner, u: Inner, faults: Faults) {
    && Section(op, p, s, faults).1 == Section(op, p, u, faults).1
    && Alike(op, Section(op, p, s, faults).0, Section(op, p, u, faults).0)
  }

  lemma PullHere(image: Text, p: Progress, s: Inner, u: Inner, faults: Faults)
    requires Alike(PullOp(image), s, u)
    ensures AlikeAfter(PullOp(image), p, s, u, faults)
  {
  }

  lemma CreateHere(id: PodId, p: Progress, s: Inner, u: Inner, faults: Faults)
    requires Alike(CreateOp(id), s, u)
    ensures AlikeAfter(CreateOp(id), p, s, u, faults)
  {
  }

  lemma StartHere(id: PodId, p: Progress, s: Inner, u: Inner, faults: Faults)
    requires Alike(StartOp(id), s, u)
    ensures AlikeAfter(StartOp(id), p, s, u, faults)
  {
  }

  lemma PodCellParts(id: PodId, s: Inner, u: Inner)
    ensures CellOf(s, PodTarget(id)) == CellOf(u, PodTarget(id)) <==>
            && Lookup(s.pods, ContainerName(id)) == Lookup(u.pods, ContainerName(id))
            && Lookup(s.createAttempts, id) == Lookup(u.createAttempts, id)
            && Lookup(s.startAttempts, id) == Lookup(u.startAttempts, id)
            && Lookup(s.stopAttempts, id) == Lookup(u.stopAttempts, id)
            && Lookup(s.statusAttempts, id) == Lookup(u.statusAttempts, id)
  {
  }

  lemma StopAttemptOutcome(id: PodId, s: Inner, u: Inner, faults: Faults)
    requires CellOf(s, PodTarget(id)) == CellOf(u, PodTarget(id))
    ensures StopSection(id, s, faults).1 == StopSection(id, u, faults).1
    ensures Lookup(StopSection(id, s, faults).0.pods, ContainerName(id)) == Lookup(StopSection(id, u, faults).0.pods, ContainerName(id))
  {
    PodCellParts(id, s, u);
  }

  lemma StopAttemptCounts(id: PodId, s: Inner, faults: Faults)
    ensures
      var t := StopSection(id, s, faults).0;
      && t.createAttempts == s.createAttempts && t.startAttempts == s.startAttempts
      && t.statusAttempts == s.statusAttempts && t.stopAttempts == Counted(s.stopAttempts, id)
  {
  }

  lemma StopAttemptHere(id: PodId, s: Inner, u: Inner, faults: Faults)
    requires CellOf(s, PodTarget(id)) == CellOf(u, PodTarget(id))
    ensures StopSection(id, s, faults).1 == StopSection(id, u, faults).1
    ensures CellOf(StopSection(id, s, faults).0, PodTarget(id)) == CellOf(StopSection(id, u, faults).0, PodTarget(id))
  {
    PodCellParts(id, s, u);
    StopAttemptOutcome(id, s, u, faults);
    StopAttemptCounts(id, s, faults);
    StopAttemptCounts(id, u, faults);
    PodCellParts(id, StopSection(id, s, faults).0, StopSection(id, u, faults).0);
  }

  lemma StatusHere(id: PodId, s: Inner, u: Inner, stopError: Option<OpOutcome>)
    requires CellOf(s, PodTarget(id)) == CellOf(u, PodTarget(id))
    ensures Verdict(s.pods, ContainerName(id), stopError) == Verdict(u.pods, ContainerName(id), stopError)
    ensures CellOf(s.(statusAttempts := Counted(s.statusAttempts, id)), PodTarget(id)) ==
            CellOf(u.(statusAttempts := Counted(u.statusAttempts, id)), PodTarget(id))
  {
    PodCellParts(id, s, u);
  }

  lemma StopHere(id: PodId, attemptStop: bool, p: Progress, s: Inner, u: Inner, faults: Faults)
    requires Alike(StopOp(id, attemptStop), s, u)
    ensures AlikeAfter(StopOp(id, attemptStop), p, s, u, faults)
  {
    if p.Begun? && attemptStop {
      StopAttemptHere(id, s, u, faults);
    } else if p.Halfway? {
      StatusHere(id, s, u, p.stopError);
    }
  }

  lemma SectionHere(op: Op, p: Progress, s: Inner, u: Inner, faults: Faults)
    requires Alike(op, s, u)
    ensures AlikeAfter(op, p, s, u, faults)
  {
    match op
    case PullOp(image) => PullHere(image, p, s, u, faults);
    case CreateOp(id) => CreateHere(id, p, s, u, faults);
    case StartOp(id) => StartHere(id, p, s, u, faults);
    case StopOp(id, attemptStop) => StopHere(id, attemptStop, p, s, u, faults);
  }

  // -- Interleavings --

  /** The shared state and how far each thread is. */
  datatype Config = Config(inner: Inner, threads: seq<Progress>)

  function StepThread(ops: seq<Op>, c: Config, i: nat, faults: Faults): Config
    requires |c.threads| == |ops|
  {
    if i >= |ops| then c
    else
      var (s, p) := Section(ops[i], c.threads[i], c.inner, faults);
      Config(s, c.threads[i := p])
  }

  /** Runs locked sections in the given order of threads. */
  function Execute(ops: seq<Op>, c: Config, schedule: seq<nat>, faults: Faults): (r: Config)
    requires |c.threads| == |ops|
    ensures |r.threads| == |ops|
  {
    if schedule == [] then c
    else StepThread(ops, Execute(ops, c, schedule[..|schedule| - 1], faults), schedule[|schedule| - 1], faults)
  }

  function Start(ops: seq<Op>, s: Inner): Config {
    Config(s, seq(|ops|, _ => Begun))
  }

  predicate Complete(c: Config) {
    forall i | 0 <= i < |c.threads| :: c.threads[i].Done?
  }

  /** No other operation is about the same target. */
  predicate Alone(ops: seq<Op>, i: nat)
    requires i < |ops|
  {
    forall j | 0 <= j < |ops| && j != i :: TargetOf(ops[j]) != TargetOf(ops[i])
  }

  /** No two operations are about the same pod; any of them may pull the same image. */
  predicate DistinctPods(ops: seq<Op>) {
    forall i | 0 <= i < |ops| && !ops[i].PullOp? :: Alone(ops, i)
  }

  /** One operation on its own, for a number of sections. */
  function Solo(op: Op, s: Inner, n: nat, faults: Faults): (Inner, Progress) {
    if n == 0 then (s, Begun)
    else
      var (t, p) := Solo(op, s, n - 1, faults);
      Section(op, p, t, faults)
  }

  function Turns(schedule: seq<nat>, i: nat): nat {
    if schedule == [] then 0
    else Turns(schedule[..|schedule| - 1], i) + if schedule[|schedule| - 1] == i then 1 else 0
  }

  /** Two sections finish any operation. */
  lemma {:induction false} SoloFinishes(op: Op, s: Inner, n: nat, faults: Faults)
    requires n >= 2
    ensures Solo(op, s, n, faults) == Solo(op, s, 2, faults) && Solo(op, s, n, faults).1.Done?
  {
    var (t, p) := Solo(op, s, 1, faults);
    assert Solo(op, s, 1, faults) == Section(op, Begun, s, faults);
    assert Solo(op, s, 2, faults) == Section(op, p, t, faults);
    if n > 2 {
      SoloFinishes(op, s, n - 1, faults);
    }
  }

  lemma {:induction false} DoneIsFinal(op: Op, s: Inner, n: nat, faults: Faults)
    requires Solo(op, s, n, faults).1.Done?
    ensures Solo(op, s, n, faults) == Solo(op, s, 2, faults)
  {
    if n >= 2 {
      SoloFinishes(op, s, n, faults);
    } else {
      assert n == 1;
      assert Solo(op, s, 2, faults) == Solo(op, s, 1, faults);
    }
  }

  /** Whatever the others do, a thread and its target go through what the operation does on its own. */
  lemma {:induction false} ThreadAlone(ops: seq<Op>, s: Inner, schedule: seq<nat>, faults: Faults, i: nat)
    requires i < |ops| && Alone(ops, i)
    ensures
      var c := Execute(ops, Start(ops, s), schedule, faults);
      var alone := Solo(ops[i], s, Turns(schedule, i), faults);
      c.threads[i] == alone.1 && CellOf(c.inner, TargetOf(ops[i])) == CellOf(alone.0, TargetOf(ops[i]))
  {
    if schedule != [] {
      var front := schedule[..|schedule| - 1];
      var j := schedule[|schedule| - 1];
      ThreadAlone(ops, s, front, faults, i);
      var c := Execute(ops, Start(ops, s), front, faults);
      var alone := Solo(ops[i], s, Turns(front, i), faults);
      if j == i {
        SectionHere(ops[i], c.threads[i], c.inner, alone.0, faults);
      } else if j < |ops| {
        assert TargetOf(ops[i]) != TargetOf(ops[j]);
        SectionElsewhere(ops[j], c.threads[j], c.inner, faults, TargetOf(ops[i]));
      }
    }
  }

  /** What no operation is about stays as it was. */
  lemma {:induction false} OthersUntouched(ops: seq<Op>, s: Inner, schedule: seq<nat>, faults: Faults, t: Target)
    requires forall i | 0 <= i < |ops| :: TargetOf(ops[i]) != t
    ensures CellOf(Execute(ops, Start(ops, s), schedule, faults).inner, t) == CellOf(s, t)
  {
    if schedule != [] {
      var front := schedule[..|schedule| - 1];
      var j := schedule[|schedule| - 1];
      OthersUntouched(ops, s, front, faults, t);
      if j < |ops| {
        var c := Execute(ops, Start(ops, s), front, faults);
        SectionElsewhere(ops[j], c.threads[j], c.inner, faults, t);
      }
    }
  }

  ghost predicate Named(name: Text) {
    exists id: PodId :: name == ContainerName(id)
  }

  lemma SectionUnnamed(op: Op, p: Progress, s: Inner, faults: Faults, name: Text)
    requires !Named(name)
    ensures Lookup(Section(op, p, s, faults).0.pods, name) == Lookup(s.pods, name)
  {
    if !op.PullOp? {
      assert name != ContainerName(op.id);
    }
  }

  lemma {:induction false} UnnamedUntouched(ops: seq<Op>, s: Inner, schedule: seq<nat>, faults: Faults, name: Text)
    requires !Named(name)
    ensures Lookup(Execute(ops, Start(ops, s), schedule, faults).inner.pods, name) == Lookup(s.pods, name)
  {
    if schedule != [] {
      var front := schedule[..|schedule| - 1];
      var j := schedule[|schedule| - 1];
      UnnamedUntouched(ops, s, front, faults, name);
      if j < |ops| {
        var c := Execute(ops, Start(ops, s), front, faults);
        SectionUnnamed(ops[j], c.threads[j], c.inner, faults, name);
      }
    }
  }

  /** States that agree on every target and on every other container name are the same. */
  lemma SameInner(a: Inner, b: Inner)
    requires forall t: Target :: CellOf(a, t) == CellOf(b, t)
    requires forall name: Text :: !Named(name) ==> Lookup(a.pods, name) == Lookup(b.pods, name)
    ensures a == b
  {
    forall name: Text
      ensures Lookup(a.pods, name) == Lookup(b.pods, name)
      ensures Lookup(a.pullAttempts, name) == Lookup(b.pullAttempts, name)
    {
      assert CellOf(a, ImageTarget(name)) == CellOf(b, ImageTarget(name));
      if Named(name) {
        var id: PodId :| name == ContainerName(id);
        assert CellOf(a, PodTarget(id)) == CellOf(b, PodTarget(id));
      }
    }
    forall id: PodId
      ensures Lookup(a.createAttempts, id) == Lookup(b.createAttempts, id)
      ensures Lookup(a.startAttempts, id) == Lookup(b.startAttempts, id)
      ensures Lookup(a.stopAttempts, id) == Lookup(b.stopAttempts, id)
      ensures Lookup(a.statusAttempts, id) == Lookup(b.statusAttempts, id)
    {
      assert CellOf(a, PodTarget(id)) == CellOf(b, PodTarget(id));
    }
    SameLookups(a.pods, b.pods);
    SameLookups(a.pullAttempts, b.pullAttempts);
    SameLookups(a.createAttempts, b.createAttempts);
    SameLookups(a.startAttempts, b.startAttempts);
    SameLookups(a.stopAttempts, b.stopAttempts);
    SameLookups(a.statusAttempts, b.statusAttempts);
  }

  lemma SameLookups<K, V>(a: map<K, V>, b: map<K, V>)
    requires forall k: K :: Lookup(a, k) == Lookup(b, k)
    ensures a == b
  {
    forall k | k in a
      ensures k in b && a[k] == b[k]
    {
      assert Lookup(a, k) == Lookup(b, k);
    }
    forall k | k in b
      ensures k in a
    {
      assert Lookup(a, k) == Lookup(b, k);
    }
  }

  // -- What the operations do --

  /** The fault of a kind of operation is armed and this is its first attempt. */
  predicate FirstFaults<K>(attempts: map<K, U64>, key: K, faults: Faults, kind: Kind, t: Target) {
    (key !in attempts || attempts[key] == 0) && faults(kind, t)
  }

  lemma {:induction false} SoloTwo(op: Op, s: Inner, faults: Faults)
    ensures
      var (t, p) := Section(op, Begun, s, faults);
      Solo(op, s, 2, faults) == Section(op, p, t, faults)
  {
    assert Solo(op, s, 0, faults) == (s, Begun);
    assert Solo(op, s, 1, faults) == Section(op, Begun, s, faults);
  }

  /** A pull fails exactly with the first fault. */
  lemma {:induction false} PullDoes(image: Text, s: Inner, faults: Faults)
    ensures
      var (t, p) := Solo(PullOp(image), s, 2, faults);
      && t.pods == s.pods
      && p == Done(if FirstFaults(s.pullAttempts, image, faults, PullKind, ImageTarget(image)) then Faulted else Succeeded)
  {
    SoloTwo(PullOp(image), s, faults);
  }

  /** A create that does not meet the fault leaves a container that exists and has not ended, and otherwise
      makes a new one. */
  lemma {:induction false} CreateDoes(id: PodId, s: Inner, faults: Faults)
    ensures
      var (t, p) := Solo(CreateOp(id), s, 2, faults);
      var name := ContainerName(id);
      if FirstFaults(s.createAttempts, id, faults, CreateKind, PodTarget(id)) then p == Done(Faulted) && t.pods == s.pods
      else
        && p == Done(Succeeded) && name in t.pods
        && t.pods[name] == (if name in s.pods && s.pods[name] == RunningStatus then RunningStatus else CreatedStatus)
        && t.pods == s.pods[name := t.pods[name]]
  {
    SoloTwo(CreateOp(id), s, faults);
  }

  /** A start that does not meet the fault makes the container run. */
  lemma {:induction false} StartDoes(id: PodId, s: Inner, faults: Faults)
    ensures
      var (t, p) := Solo(StartOp(id), s, 2, faults);
      if FirstFaults(s.startAttempts, id, faults, StartKind, PodTarget(id)) then p == Done(Faulted) && t.pods == s.pods
      else p == Done(Succeeded) && t.pods == s.pods[ContainerName(id) := RunningStatus]
  {
    SoloTwo(StartOp(id), s, faults);
  }

  /** A stop that does not meet the fault stops a container that exists; the outcome is the exit code if the
      container is then stopped, and otherwise says why not. */
  lemma {:induction false} StopDoes(id: PodId, s: Inner, faults: Faults)
    ensures
      var (t, p) := Solo(StopOp(id, true), s, 2, faults);
      var name := ContainerName(id);
      var faulted := FirstFaults(s.stopAttempts, id, faults, StopKind, PodTarget(id));
      && t.pods == (if name in s.pods && !faulted then s.pods[name := StoppedStatus(0)] else s.pods)
      && p == Done(if name in t.pods && t.pods[name].StoppedStatus? then StoppedWith(t.pods[name].exitCode)
                   else if faulted then Faulted else NotFound)
  {
    SoloTwo(StopOp(id, true), s, faults);
  }

  /** A poll changes no container. */
  lemma {:induction false} PollDoes(id: PodId, s: Inner, faults: Faults)
    ensures
      var (t, p) := Solo(StopOp(id, false), s, 2, faults);
      var name := ContainerName(id);
      && t.pods == s.pods
      && p == Done(if name !in s.pods then NotFound
                   else if s.pods[name].StoppedStatus? then StoppedWith(s.pods[name].exitCode) else NotTerminal)
  {
    SoloTwo(StopOp(id, false), s, faults);
  }
}
