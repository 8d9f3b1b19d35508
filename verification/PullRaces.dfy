/**
 Concurrent pulls. Operations on different pods commute whatever images they pull: every interleaving
 that completes leaves the same state. Which of them meets an armed pull fault may depend on the
 interleaving, and does so exactly when an image is pulled more than once and one of its pulls finds the
 image's counter at zero.
 */
module PullRaces {
  import opened Basics
  import opened SimRuntime

  const MODULUS: nat := U64_MAX + 1

  // -- Schedules --

  lemma {:induction false} OneStep(ops: seq<Op>, c: Config, schedule: seq<nat>, i: nat, faults: Faults)
    requires |c.threads| == |ops|
    ensures Execute(ops, c, schedule + [i], faults) == StepThread(ops, Execute(ops, c, schedule, faults), i, faults)
  {
    assert (schedule + [i])[..|schedule|] == schedule;
  }

  /** What the chunk comes to under a schedule. */
  function After(ops: seq<Op>, s: Inner, schedule: seq<nat>, faults: Faults): (c: Config)
    ensures |c.threads| == |ops|
  {
    Execute(ops, Start(ops, s), schedule, faults)
  }

  lemma {:induction false} AfterMore(ops: seq<Op>, s: Inner, schedule: seq<nat>, i: nat, faults: Faults)
    ensures After(ops, s, schedule + [i], faults) == StepThread(ops, After(ops, s, schedule, faults), i, faults)
  {
    OneStep(ops, Start(ops, s), schedule, i, faults);
  }

  // -- Counting the pulls of an image --

  predicate Pulls(ops: seq<Op>, image: Text, i: nat) {
    i < |ops| && ops[i] == PullOp(image)
  }

  function PullersOf(ops: seq<Op>, image: Text): set<nat> {
    set i: nat | i < |ops| && Pulls(ops, image, i)
  }

  function PulledBy(ops: seq<Op>, c: Config, image: Text): set<nat>
    requires |c.threads| == |ops|
  {
    set i: nat | i < |ops| && Pulls(ops, image, i) && c.threads[i].Done?
  }

  /** The counter after a number of pulls that began at the given entry. */
  function CountedTo(entry: Option<U64>, n: nat): Option<U64> {
    if n == 0 then entry else Some(((if entry.Some? then entry.value else 0) + n) % MODULUS)
  }

  function Reading(s: Inner, image: Text, n: nat): nat {
    (Attempts(s.pullAttempts, image) + n) % MODULUS
  }

  lemma Remainder(v: nat, q: nat, r: nat)
    requires r < MODULUS && v == q * MODULUS + r
    ensures v % MODULUS == r
  {
  }

  lemma OneMore(a: nat)
    ensures (a % MODULUS + 1) % MODULUS == (a + 1) % MODULUS
  {
    var q := a / MODULUS;
    assert a == q * MODULUS + a % MODULUS;
    if a % MODULUS + 1 < MODULUS {
      Remainder(a + 1, q, a % MODULUS + 1);
    } else {
      Remainder(a + 1, q + 1, 0);
    }
  }

  lemma Neighbours(a: nat)
    requires a % MODULUS == 0
    ensures (a + 1) % MODULUS != 0
    ensures a > 0 ==> (a - 1) % MODULUS != 0
  {
    var q := a / MODULUS;
    assert a == q * MODULUS;
    Remainder(a + 1, q, 1);
    if a > 0 {
      assert q >= 1;
      Remainder(a - 1, q - 1, MODULUS - 1);
    }
  }

  /** What one pull does to the counter and what it returns. */
  lemma PullSection(image: Text, s: Inner, faults: Faults)
    ensures
      var (t, p) := Section(PullOp(image), Begun, s, faults);
      && Lookup(t.pullAttempts, image) == Some((Attempts(s.pullAttempts, image) + 1) % MODULUS)
      && p == Done(if Attempts(s.pullAttempts, image) == 0 && faults(PullKind, ImageTarget(image)) then Faulted else Succeeded)
  {
  }

  lemma AttemptsOf(s: Inner, t: Inner, image: Text, n: nat)
    requires Lookup(t.pullAttempts, image) == CountedTo(Lookup(s.pullAttempts, image), n)
    ensures Attempts(t.pullAttempts, image) == Reading(s, image, n)
  {
  }

  lemma CountsOn(s: Inner, t: Inner, image: Text, n: nat)
    requires Lookup(t.pullAttempts, image) == CountedTo(Lookup(s.pullAttempts, image), n)
    ensures Some((Attempts(t.pullAttempts, image) + 1) % MODULUS) == CountedTo(Lookup(s.pullAttempts, image), n + 1)
  {
    AttemptsOf(s, t, image, n);
    OneMore(Attempts(s.pullAttempts, image) + n);
  }

  /** A pull that has not had its turn is at the beginning. */
  lemma {:induction false} PullsAreWhole(ops: seq<Op>, s: Inner, schedule: seq<nat>, faults: Faults, i: nat)
    requires i < |ops| && ops[i].PullOp?
    ensures !After(ops, s, schedule, faults).threads[i].Halfway?
  {
    if schedule != [] {
      PullsAreWhole(ops, s, schedule[..|schedule| - 1], faults, i);
    }
  }

  /** After any schedule the counter of an image has moved on by the number of its pulls so far. */
  ghost predicate Tallied(ops: seq<Op>, s: Inner, c: Config, image: Text)
    requires |c.threads| == |ops|
  {
    Lookup(c.inner.pullAttempts, image) == CountedTo(Lookup(s.pullAttempts, image), |PulledBy(ops, c, image)|)
  }

  lemma {:induction false} TallyHere(ops: seq<Op>, s: Inner, c: Config, image: Text, i: nat, faults: Faults)
    requires |c.threads| == |ops| && Tallied(ops, s, c, image) && Pulls(ops, image, i) && c.threads[i].Begun?
    ensures Tallied(ops, s, StepThread(ops, c, i, faults), image)
    ensures PulledBy(ops, StepThread(ops, c, i, faults), image) == PulledBy(ops, c, image) + {i} && i !in PulledBy(ops, c, image)
  {
    PullSection(image, c.inner, faults);
    CountsOn(s, c.inner, image, |PulledBy(ops, c, image)|);
    assert PulledBy(ops, StepThread(ops, c, i, faults), image) == PulledBy(ops, c, image) + {i};
  }

  lemma {:induction false} TallyElsewhere(ops: seq<Op>, s: Inner, c: Config, image: Text, i: nat, faults: Faults)
    requires |c.threads| == |ops| && Tallied(ops, s, c, image)
    requires i < |ops| ==> c.threads[i].Done? || !Pulls(ops, image, i)
    ensures Tallied(ops, s, StepThread(ops, c, i, faults), image)
    ensures PulledBy(ops, StepThread(ops, c, i, faults), image) == PulledBy(ops, c, image)
  {
    var d := StepThread(ops, c, i, faults);
    if i < |ops| && !c.threads[i].Done? {
      SectionElsewhere(ops[i], c.threads[i], c.inner, faults, ImageTarget(image));
      assert CellOf(d.inner, ImageTarget(image)) == CellOf(c.inner, ImageTarget(image));
    }
    assert PulledBy(ops, d, image) == PulledBy(ops, c, image);
  }

  lemma {:induction false} AlwaysTallied(ops: seq<Op>, s: Inner, schedule: seq<nat>, faults: Faults, image: Text)
    ensures Tallied(ops, s, After(ops, s, schedule, faults), image)
  {
    if schedule == [] {
      assert PulledBy(ops, Start(ops, s), image) == {};
    } else {
      var front := schedule[..|schedule| - 1];
      var i := schedule[|schedule| - 1];
      var c := After(ops, s, front, faults);
      AlwaysTallied(ops, s, front, faults, image);
      if Pulls(ops, image, i) && !c.threads[i].Done? {
        PullsAreWhole(ops, s, front, faults, i);
        TallyHere(ops, s, c, image, i, faults);
      } else {
        TallyElsewhere(ops, s, c, image, i, faults);
      }
    }
  }

  // -- The final state --

  lemma {:induction false} AllPulled(ops: seq<Op>, c: Config, image: Text)
    requires |c.threads| == |ops| && Complete(c)
    ensures PulledBy(ops, c, image) == PullersOf(ops, image)
  {
  }

  lemma {:induction false} SameCells(ops: seq<Op>, s: Inner, a: seq<nat>, b: seq<nat>, faults: Faults, t: Target)
    requires DistinctPods(ops) && Complete(After(ops, s, a, faults)) && Complete(After(ops, s, b, faults))
    ensures CellOf(After(ops, s, a, faults).inner, t) == CellOf(After(ops, s, b, faults).inner, t)
  {
    match t
    case ImageTarget(image) =>
      AlwaysTallied(ops, s, a, faults, image);
      AlwaysTallied(ops, s, b, faults, image);
      AllPulled(ops, After(ops, s, a, faults), image);
      AllPulled(ops, After(ops, s, b, faults), image);
    case PodTarget(id) =>
      if i :| 0 <= i < |ops| && TargetOf(ops[i]) == t {
        assert Alone(ops, i);
        ThreadAlone(ops, s, a, faults, i);
        ThreadAlone(ops, s, b, faults, i);
        DoneIsFinal(ops[i], s, Turns(a, i), faults);
        DoneIsFinal(ops[i], s, Turns(b, i), faults);
      } else {
        OthersUntouched(ops, s, a, faults, t);
        OthersUntouched(ops, s, b, faults, t);
      }
  }

  /** Every interleaving that completes leaves the same state, whatever images are pulled. */
  lemma {:induction false} FinalStateFixed(ops: seq<Op>, s: Inner, a: seq<nat>, b: seq<nat>, faults: Faults)
    requires DistinctPods(ops) && Complete(After(ops, s, a, faults)) && Complete(After(ops, s, b, faults))
    ensures After(ops, s, a, faults).inner == After(ops, s, b, faults).inner
  {
    var x := After(ops, s, a, faults).inner;
    var y := After(ops, s, b, faults).inner;
    forall t: Target
      ensures CellOf(x, t) == CellOf(y, t)
    {
      SameCells(ops, s, a, b, faults, t);
    }
    forall name: Text | !Named(name)
      ensures Lookup(x.pods, name) == Lookup(y.pods, name)
    {
      UnnamedUntouched(ops, s, a, faults, name);
      UnnamedUntouched(ops, s, b, faults, name);
    }
    SameInner(x, y);
  }

  // -- The outcomes --

  /** An image that is pulled more than once while its fault is armed, and one of whose pulls finds the
      counter at zero. */
  ghost predicate Contested(ops: seq<Op>, s: Inner, faults: Faults, image: Text) {
    && |PullersOf(ops, image)| >= 2 && faults(PullKind, ImageTarget(image))
    && exists n: nat :: n < |PullersOf(ops, image)| && Reading(s, image, n) == 0
  }

  /** Every interleaving that completes gives each operation the same outcome. */
  ghost predicate OutcomesFixed(ops: seq<Op>, s: Inner, faults: Faults) {
    forall a, b | Complete(After(ops, s, a, faults)) && Complete(After(ops, s, b, faults)) ::
      After(ops, s, a, faults).threads == After(ops, s, b, faults).threads
  }

  /** The outcome of a pull of an image that is not contested. */
  function Undisputed(ops: seq<Op>, s: Inner, faults: Faults, image: Text): OpOutcome {
    if faults(PullKind, ImageTarget(image)) && |PullersOf(ops, image)| == 1 && Attempts(s.pullAttempts, image) == 0
    then Faulted else Succeeded
  }

  lemma {:induction false} FewerPulled(ops: seq<Op>, c: Config, image: Text, i: nat)
    requires |c.threads| == |ops| && Pulls(ops, image, i) && !c.threads[i].Done?
    ensures |PulledBy(ops, c, image)| < |PullersOf(ops, image)|
  {
    var pulled := PulledBy(ops, c, image);
    assert pulled <= PullersOf(ops, image) - {i};
    SubsetIsSmaller(pulled, PullersOf(ops, image) - {i});
  }

  lemma {:induction false} SubsetIsSmaller(a: set<nat>, b: set<nat>)
    requires a <= b
    ensures |a| <= |b|
  {
    if a != {} {
      var x :| x in a;
      SubsetIsSmaller(a - {x}, b - {x});
    }
  }

  lemma {:induction false} UndisputedPull(ops: seq<Op>, s: Inner, faults: Faults, image: Text, n: nat)
    requires !Contested(ops, s, faults, image) && n < |PullersOf(ops, image)|
    ensures (if Reading(s, image, n) == 0 && faults(PullKind, ImageTarget(image)) then Faulted else Succeeded) ==
            Undisputed(ops, s, faults, image)
  {
    if |PullersOf(ops, image)| == 1 {
      assert n == 0;
    }
  }

  lemma {:induction false} UndisputedOutcome(ops: seq<Op>, s: Inner, schedule: seq<nat>, faults: Faults, image: Text, i: nat)
    requires Pulls(ops, image, i) && !Contested(ops, s, faults, image)
    ensures After(ops, s, schedule, faults).threads[i] in {Begun, Done(Undisputed(ops, s, faults, image))}
  {
    if schedule != [] {
      var front := schedule[..|schedule| - 1];
      var c := After(ops, s, front, faults);
      UndisputedOutcome(ops, s, front, faults, image, i);
      if schedule[|schedule| - 1] == i && c.threads[i].Begun? {
        AlwaysTallied(ops, s, front, faults, image);
        AttemptsOf(s, c.inner, image, |PulledBy(ops, c, image)|);
        FewerPulled(ops, c, image, i);
        UndisputedPull(ops, s, faults, image, |PulledBy(ops, c, image)|);
        PullSection(image, c.inner, faults);
      }
    }
  }

  lemma {:induction false} SameOutcome(ops: seq<Op>, s: Inner, a: seq<nat>, b: seq<nat>, faults: Faults, i: nat)
    requires DistinctPods(ops) && i < |ops| && forall image :: !Contested(ops, s, faults, image)
    requires Complete(After(ops, s, a, faults)) && Complete(After(ops, s, b, faults))
    ensures After(ops, s, a, faults).threads[i] == After(ops, s, b, faults).threads[i]
  {
    if ops[i].PullOp? {
      UndisputedOutcome(ops, s, a, faults, ops[i].image, i);
      UndisputedOutcome(ops, s, b, faults, ops[i].image, i);
    } else {
      assert Alone(ops, i);
      ThreadAlone(ops, s, a, faults, i);
      ThreadAlone(ops, s, b, faults, i);
      DoneIsFinal(ops[i], s, Turns(a, i), faults);
      DoneIsFinal(ops[i], s, Turns(b, i), faults);
    }
  }

  lemma {:induction false} UncontestedIsFixed(ops: seq<Op>, s: Inner, faults: Faults)
    requires DistinctPods(ops) && forall image :: !Contested(ops, s, faults, image)
    ensures OutcomesFixed(ops, s, faults)
  {
    forall a, b | Complete(After(ops, s, a, faults)) && Complete(After(ops, s, b, faults))
      ensures After(ops, s, a, faults).threads == After(ops, s, b, faults).threads
    {
      forall i | 0 <= i < |ops|
        ensures After(ops, s, a, faults).threads[i] == After(ops, s, b, faults).threads[i]
      {
        SameOutcome(ops, s, a, b, faults, i);
      }
    }
  }

  // -- Two interleavings that differ --

  /** A list of a set's members, each once. */
  lemma {:induction false} Listed(members: set<nat>) returns (list: seq<nat>)
    ensures |list| == |members| && (forall i | 0 <= i < |list| :: list[i] in members)
    ensures forall i, j | 0 <= i < j < |list| :: list[i] != list[j]
  {
    if members == {} {
      list := [];
    } else {
      var x :| x in members;
      var rest := Listed(members - {x});
      list := rest + [x];
    }
  }

  /** Each thread in turn, twice. */
  function Rounds(n: nat): seq<nat> {
    if n == 0 then [] else Rounds(n - 1) + [n - 1] + [n - 1]
  }

  /** The first `n` threads are done. */
  predicate Finished(c: Config, n: nat) {
    n <= |c.threads| && forall i | 0 <= i < n :: c.threads[i].Done?
  }

  /** What is done in `c` is done the same way in `d`. */
  predicate Keeps(c: Config, d: Config) {
    |c.threads| == |d.threads| && forall i | 0 <= i < |c.threads| && c.threads[i].Done? :: d.threads[i] == c.threads[i]
  }

  lemma KeepsOn(c: Config, d: Config, e: Config, n: nat)
    requires Keeps(c, d) && Keeps(d, e)
    ensures Keeps(c, e)
    ensures Finished(d, n) && n < |e.threads| && e.threads[n].Done? ==> Finished(e, n + 1)
  {
  }

  /** Whatever went before, two turns finish a thread, and what is done stays done. */
  lemma TwoTurns(ops: seq<Op>, c: Config, i: nat, faults: Faults)
    requires |c.threads| == |ops| && i < |ops|
    ensures
      var d := StepThread(ops, StepThread(ops, c, i, faults), i, faults);
      d.threads[i].Done? && Keeps(c, d)
  {
  }

  lemma {:induction false} LastRound(schedule: seq<nat>, n: nat)
    ensures schedule + Rounds(n + 1) == ((schedule + Rounds(n)) + [n]) + [n]
    ensures schedule + Rounds(0) == schedule
  {
    var rounds := Rounds(n);
    assert Rounds(n + 1) == rounds + [n] + [n];
    assert schedule + (rounds + [n] + [n]) == ((schedule + rounds) + [n]) + [n];
    assert Rounds(0) == [];
  }

  lemma {:induction false} OneRound(ops: seq<Op>, s: Inner, before: seq<nat>, n: nat, faults: Faults)
    requires n < |ops| && Finished(After(ops, s, before, faults), n)
    ensures
      var d := After(ops, s, (before + [n]) + [n], faults);
      Finished(d, n + 1) && Keeps(After(ops, s, before, faults), d)
  {
    AfterMore(ops, s, before, n, faults);
    AfterMore(ops, s, before + [n], n, faults);
    var c := After(ops, s, before, faults);
    TwoTurns(ops, c, n, faults);
    KeepsOn(c, c, After(ops, s, (before + [n]) + [n], faults), n);
  }

  lemma {:induction false} RoundsFinish(ops: seq<Op>, s: Inner, schedule: seq<nat>, n: nat, faults: Faults)
    requires n <= |ops|
    ensures Finished(After(ops, s, schedule + Rounds(n), faults), n)
    ensures Keeps(After(ops, s, schedule, faults), After(ops, s, schedule + Rounds(n), faults))
  {
    if n == 0 {
      LastRound(schedule, n);
    } else {
      var k: nat := n - 1;
      var before := schedule + Rounds(k);
      RoundsFinish(ops, s, schedule, k, faults);
      OneRound(ops, s, before, k, faults);
      LastRound(schedule, k);
      KeepsOn(After(ops, s, schedule, faults), After(ops, s, before, faults), After(ops, s, (before + [k]) + [k], faults), k);
    }
  }

  /** Different pulls of one image, one after the other. */
  predicate Queue(ops: seq<Op>, image: Text, queue: seq<nat>) {
    && (forall i | 0 <= i < |queue| :: Pulls(ops, image, queue[i]))
    && (forall i, j | 0 <= i < j < |queue| :: queue[i] != queue[j])
  }

  lemma {:induction false} QueueFront(ops: seq<Op>, image: Text, queue: seq<nat>)
    requires Queue(ops, image, queue) && queue != []
    ensures Queue(ops, image, queue[..|queue| - 1]) && queue[|queue| - 1] !in queue[..|queue| - 1]
  {
  }

  /** Who is not in the schedule has not begun. */
  lemma {:induction false} NotYetBegun(ops: seq<Op>, s: Inner, schedule: seq<nat>, faults: Faults, i: nat)
    requires i < |ops| && i !in schedule
    ensures After(ops, s, schedule, faults).threads[i].Begun?
  {
    if schedule != [] {
      NotYetBegun(ops, s, schedule[..|schedule| - 1], faults, i);
    }
  }

  lemma {:induction false} QueueCount(ops: seq<Op>, s: Inner, queue: seq<nat>, faults: Faults, image: Text)
    requires Queue(ops, image, queue)
    ensures |PulledBy(ops, After(ops, s, queue, faults), image)| == |queue|
  {
    if queue == [] {
      assert PulledBy(ops, Start(ops, s), image) == {};
    } else {
      var front := queue[..|queue| - 1];
      var last := queue[|queue| - 1];
      QueueFront(ops, image, queue);
      QueueCount(ops, s, front, faults, image);
      NotYetBegun(ops, s, front, faults, last);
      AlwaysTallied(ops, s, front, faults, image);
      TallyHere(ops, s, After(ops, s, front, faults), image, last, faults);
    }
  }

  /** The last of a queue of pulls reads the counter moved on by the length of the queue before it. */
  lemma {:induction false} LastOfQueue(ops: seq<Op>, s: Inner, queue: seq<nat>, faults: Faults, image: Text)
    requires Queue(ops, image, queue) && queue != [] && faults(PullKind, ImageTarget(image))
    ensures After(ops, s, queue, faults).threads[queue[|queue| - 1]] ==
            Done(if Reading(s, image, |queue| - 1) == 0 then Faulted else Succeeded)
  {
    var front := queue[..|queue| - 1];
    var last := queue[|queue| - 1];
    QueueFront(ops, image, queue);
    QueueCount(ops, s, front, faults, image);
    NotYetBegun(ops, s, front, faults, last);
    AlwaysTallied(ops, s, front, faults, image);
    var c := After(ops, s, front, faults);
    AttemptsOf(s, c.inner, image, |front|);
    PullSection(image, c.inner, faults);
  }

  /** A completed interleaving in which the last of a queue of pulls has the outcome of its place. */
  lemma {:induction false} QueueThenAll(ops: seq<Op>, s: Inner, queue: seq<nat>, faults: Faults, image: Text) returns (schedule: seq<nat>)
    requires Queue(ops, image, queue) && queue != [] && faults(PullKind, ImageTarget(image))
    ensures Complete(After(ops, s, schedule, faults))
    ensures After(ops, s, schedule, faults).threads[queue[|queue| - 1]] ==
            Done(if Reading(s, image, |queue| - 1) == 0 then Faulted else Succeeded)
  {
    schedule := queue + Rounds(|ops|);
    LastOfQueue(ops, s, queue, faults, image);
    RoundsFinish(ops, s, queue, |ops|, faults);
  }

  /** The same thread at two places of a queue. */
  lemma {:induction false} TwoPlaces(ops: seq<Op>, image: Text, list: seq<nat>, n: nat, m: nat) returns (a: seq<nat>, b: seq<nat>)
    requires Queue(ops, image, list) && n < |list| && m < |list|
    ensures Queue(ops, image, a) && |a| == n + 1 && Queue(ops, image, b) && |b| == m + 1
    ensures a[n] == b[m]
  {
    a := list[..n + 1];
    if m <= n {
      b := list[..m] + [list[n]];
    } else {
      b := list[..n] + [list[m]] + list[n + 1..m] + [list[n]];
    }
  }

  lemma {:induction false} ContestedIsRacy(ops: seq<Op>, s: Inner, faults: Faults, image: Text)
    requires Contested(ops, s, faults, image)
    ensures !OutcomesFixed(ops, s, faults)
  {
    var n: nat :| n < |PullersOf(ops, image)| && Reading(s, image, n) == 0;
    var m := if n == 0 then 1 else n - 1;
    Neighbours(Attempts(s.pullAttempts, image) + n);
    var list := Listed(PullersOf(ops, image));
    assert Queue(ops, image, list);
    var first, second := TwoPlaces(ops, image, list, n, m);
    var a := QueueThenAll(ops, s, first, faults, image);
    var b := QueueThenAll(ops, s, second, faults, image);
    assert After(ops, s, a, faults).threads[first[n]] != After(ops, s, b, faults).threads[first[n]];
  }

  /** Operations on different pods have outcomes that do not depend on the interleaving if and only if no
      image is contested: pulled more than once with its fault armed and a pull that reads zero. */
  lemma {:induction false} OutcomesFixedIff(ops: seq<Op>, s: Inner, faults: Faults)
    requires DistinctPods(ops)
    ensures OutcomesFixed(ops, s, faults) <==> forall image :: !Contested(ops, s, faults, image)
  {
    if forall image :: !Contested(ops, s, faults, image) {
      UncontestedIsFixed(ops, s, faults);
    } else {
      var image :| Contested(ops, s, faults, image);
      ContestedIsRacy(ops, s, faults, image);
    }
  }

  /** Two pulls of one image on a fresh counter, as for two replicas of a deployment, race for its fault. */
  lemma {:induction false} SameImageRaces(image: Text, s: Inner, faults: Faults)
    requires Attempts(s.pullAttempts, image) == 0 && faults(PullKind, ImageTarget(image))
    ensures !OutcomesFixed([PullOp(image), PullOp(image)], s, faults)
  {
    var ops := [PullOp(image), PullOp(image)];
    assert PullersOf(ops, image) == {0, 1};
    assert Reading(s, image, 0) == 0;
    ContestedIsRacy(ops, s, faults, image);
  }

  /** An operation whose target is its own does what it does alone. */
  lemma {:induction false} OwnTargetOutcome(ops: seq<Op>, s: Inner, schedule: seq<nat>, faults: Faults, i: nat)
    requires i < |ops| && Alone(ops, i) && Complete(After(ops, s, schedule, faults))
    ensures After(ops, s, schedule, faults).threads[i] == Solo(ops[i], s, 2, faults).1
  {
    ThreadAlone(ops, s, schedule, faults, i);
    DoneIsFinal(ops[i], s, Turns(schedule, i), faults);
  }
}
