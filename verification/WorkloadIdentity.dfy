/**
 The bytes that identify a workload: every field is hashed with a fixed width or behind its length,
 and every list behind its number of entries, so different workloads feed different bytes to the hash.
 */
module WorkloadIdentity {
  import opened Basics
  import opened Messages
  import opened Wire
  import opened MessageCodec

  datatype Mount = Mount(hostPath: Text, containerPath: Text)

  datatype PodSpec = PodSpec(
    podId: U64, deploymentId: U64, image: Text, entrypoint: Text, port: U16, gpuCount: U8, gpuType: GpuType,
    cpuMillicores: U32, memoryMegabytes: U32, envVars: seq<(Text, Text)>, mounts: seq<Mount>)

  /** A text or list length that a 64-bit count can hold. */
  predicate Short(n: nat) {
    n <= U64_MAX
  }

  predicate ShortPairs(ps: seq<(Text, Text)>) {
    Short(|ps|) && forall p | p in ps :: Short(|p.0|) && Short(|p.1|)
  }

  function Pairs(ms: seq<Mount>): (ps: seq<(Text, Text)>)
    ensures |ps| == |ms|
  {
    seq(|ms|, i requires 0 <= i < |ms| => (ms[i].hostPath, ms[i].containerPath))
  }

  /** No text or list is longer than its length field can say. */
  predicate Hashable(spec: PodSpec, runtimeName: Text, snapshotter: Text) {
    && Short(|spec.image|) && Short(|spec.entrypoint|) && Short(|runtimeName|) && Short(|snapshotter|)
    && ShortPairs(spec.envVars) && ShortPairs(Pairs(spec.mounts))
  }

  // -- The encoding --

  function ToBe(v: nat, width: nat): (b: Bytes)
    ensures |b| == width
  {
    if width == 0 then [] else ToBe(v / 256, width - 1) + [v % 256]
  }

  /** A text behind its length. */
  function Sized(t: Text): (b: Bytes)
    ensures |b| == 8 + |t|
  {
    ToBe(|t|, 8) + t
  }

  function SizedPairs(ps: seq<(Text, Text)>): Bytes {
    if ps == [] then [] else Sized(ps[0].0) + (Sized(ps[0].1) + SizedPairs(ps[1..]))
  }

  /** A list behind its number of entries. */
  function Listed(ps: seq<(Text, Text)>, rest: Bytes): Bytes {
    ToBe(|ps|, 8) + (SizedPairs(ps) + rest)
  }

  function Label(): Text {
    Ascii("hivemind-containerd-workload-v1")
  }

  function Lists(spec: PodSpec, runtimeName: Text, snapshotter: Text): Bytes {
    Listed(spec.envVars, Listed(Pairs(spec.mounts), Sized(runtimeName) + Sized(snapshotter)))
  }

  function Sizes(spec: PodSpec, rest: Bytes): Bytes {
    ToBe(spec.port, 2) + ([spec.gpuCount] + ([GpuCode(spec.gpuType)] + (ToBe(spec.cpuMillicores, 4) +
    (ToBe(spec.memoryMegabytes, 4) + rest))))
  }

  /** Everything fed to the hash. */
  function Identity(spec: PodSpec, runtimeName: Text, snapshotter: Text): Bytes {
    Sized(Label()) + (ToBe(spec.podId, 8) + (ToBe(spec.deploymentId, 8) + (Sized(spec.image) + (Sized(spec.entrypoint) +
    Sizes(spec, Lists(spec, runtimeName, snapshotter))))))
  }

  // -- Fields can be told apart --

  lemma {:induction false} BeInjective(v: nat, w: nat, width: nat)
    requires v < Pow256(width) && w < Pow256(width) && ToBe(v, width) == ToBe(w, width)
    ensures v == w
  {
    if width > 0 {
      var x, y := ToBe(v, width), ToBe(w, width);
      assert x[..width - 1] == ToBe(v / 256, width - 1) && y[..width - 1] == ToBe(w / 256, width - 1);
      assert x[width - 1] == v % 256 && y[width - 1] == w % 256;
      BeInjective(v / 256, w / 256, width - 1);
    }
  }

  /** Fields of the same width come apart. */
  lemma SplitSame(a: Bytes, x: Bytes, b: Bytes, y: Bytes)
    requires |a| == |b| && a + x == b + y
    ensures a == b && x == y
  {
    assert (a + x)[..|a|] == a && (b + y)[..|b|] == b;
    assert (a + x)[|a|..] == x && (b + y)[|b|..] == y;
  }

  lemma SplitInt(v: nat, x: Bytes, w: nat, y: Bytes, width: nat)
    requires v < Pow256(width) && w < Pow256(width) && ToBe(v, width) + x == ToBe(w, width) + y
    ensures v == w && x == y
  {
    SplitSame(ToBe(v, width), x, ToBe(w, width), y);
    BeInjective(v, w, width);
  }

  lemma SplitSized(a: Text, x: Bytes, b: Text, y: Bytes)
    requires Short(|a|) && Short(|b|) && Sized(a) + x == Sized(b) + y
    ensures a == b && x == y
  {
    assert Pow256(8) == U64_MAX + 1;
    assert Sized(a) + x == ToBe(|a|, 8) + (a + x) && Sized(b) + y == ToBe(|b|, 8) + (b + y);
    SplitInt(|a|, a + x, |b|, b + y, 8);
    SplitSame(a, x, b, y);
  }

  lemma Regrouped(a: Bytes, b: Bytes, c: Bytes, x: Bytes)
    ensures a + (b + c) + x == a + (b + (c + x))
    ensures a + b + c + x == a + (b + (c + x))
  {
    assert b + c + x == b + (c + x);
  }

  lemma {:induction false} SplitPairs(ps: seq<(Text, Text)>, x: Bytes, qs: seq<(Text, Text)>, y: Bytes)
    requires |ps| == |qs| && ShortPairs(ps) && ShortPairs(qs) && SizedPairs(ps) + x == SizedPairs(qs) + y
    ensures ps == qs && x == y
    decreases |ps|
  {
    if ps == [] {
      assert SizedPairs(ps) + x == x && SizedPairs(qs) + y == y;
    } else {
      assert ps[0] in ps && qs[0] in qs;
      var pr, qr := SizedPairs(ps[1..]), SizedPairs(qs[1..]);
      Regrouped(Sized(ps[0].0), Sized(ps[0].1), pr, x);
      Regrouped(Sized(qs[0].0), Sized(qs[0].1), qr, y);
      SplitSized(ps[0].0, Sized(ps[0].1) + (pr + x), qs[0].0, Sized(qs[0].1) + (qr + y));
      SplitSized(ps[0].1, pr + x, qs[0].1, qr + y);
      SplitPairs(ps[1..], x, qs[1..], y);
      assert ps == [ps[0]] + ps[1..] && qs == [qs[0]] + qs[1..];
    }
  }

  lemma SplitListed(ps: seq<(Text, Text)>, x: Bytes, qs: seq<(Text, Text)>, y: Bytes)
    requires ShortPairs(ps) && ShortPairs(qs) && Listed(ps, x) == Listed(qs, y)
    ensures ps == qs && x == y
  {
    assert Pow256(8) == U64_MAX + 1;
    SplitInt(|ps|, SizedPairs(ps) + x, |qs|, SizedPairs(qs) + y, 8);
    SplitPairs(ps, x, qs, y);
  }

  lemma PairsInjective(a: seq<Mount>, b: seq<Mount>)
    requires Pairs(a) == Pairs(b)
    ensures a == b
  {
    forall i | 0 <= i < |a|
      ensures a[i] == b[i]
    {
      assert Pairs(a)[i] == Pairs(b)[i];
    }
  }

  lemma SplitLists(a: PodSpec, ra: Text, sa: Text, b: PodSpec, rb: Text, sb: Text)
    requires Hashable(a, ra, sa) && Hashable(b, rb, sb) && Lists(a, ra, sa) == Lists(b, rb, sb)
    ensures a.envVars == b.envVars && a.mounts == b.mounts && ra == rb && sa == sb
  {
    var x, y := Sized(ra) + Sized(sa), Sized(rb) + Sized(sb);
    SplitListed(a.envVars, Listed(Pairs(a.mounts), x), b.envVars, Listed(Pairs(b.mounts), y));
    SplitListed(Pairs(a.mounts), x, Pairs(b.mounts), y);
    PairsInjective(a.mounts, b.mounts);
    SplitSized(ra, Sized(sa), rb, Sized(sb));
    assert Sized(sa) + [] == Sized(sa) && Sized(sb) + [] == Sized(sb);
    SplitSized(sa, [], sb, []);
  }

  lemma SplitSizes(a: PodSpec, x: Bytes, b: PodSpec, y: Bytes)
    requires Sizes(a, x) == Sizes(b, y)
    ensures a.port == b.port && a.gpuCount == b.gpuCount && a.gpuType == b.gpuType
    ensures a.cpuMillicores == b.cpuMillicores && a.memoryMegabytes == b.memoryMegabytes && x == y
  {
    assert Pow256(4) == U32_MAX + 1 && Pow256(2) == 0x1_0000;
    var a4, b4 := ToBe(a.memoryMegabytes, 4) + x, ToBe(b.memoryMegabytes, 4) + y;
    var a3, b3 := ToBe(a.cpuMillicores, 4) + a4, ToBe(b.cpuMillicores, 4) + b4;
    var a2, b2 := [GpuCode(a.gpuType)] + a3, [GpuCode(b.gpuType)] + b3;
    SplitInt(a.port, [a.gpuCount] + a2, b.port, [b.gpuCount] + b2, 2);
    SplitSame([a.gpuCount], a2, [b.gpuCount], b2);
    SplitSame([GpuCode(a.gpuType)], a3, [GpuCode(b.gpuType)], b3);
    assert [GpuCode(a.gpuType)][0] == [GpuCode(b.gpuType)][0];
    GpuRoundTrip(a.gpuType);
    GpuRoundTrip(b.gpuType);
    assert [a.gpuCount][0] == [b.gpuCount][0];
    SplitInt(a.cpuMillicores, a4, b.cpuMillicores, b4, 4);
    SplitInt(a.memoryMegabytes, x, b.memoryMegabytes, y, 4);
  }

  lemma SplitNames(a: PodSpec, x: Bytes, b: PodSpec, y: Bytes)
    requires Short(|a.image|) && Short(|a.entrypoint|) && Short(|b.image|) && Short(|b.entrypoint|)
    requires ToBe(a.podId, 8) + (ToBe(a.deploymentId, 8) + (Sized(a.image) + (Sized(a.entrypoint) + x))) ==
             ToBe(b.podId, 8) + (ToBe(b.deploymentId, 8) + (Sized(b.image) + (Sized(b.entrypoint) + y)))
    ensures a.podId == b.podId && a.deploymentId == b.deploymentId && a.image == b.image
    ensures a.entrypoint == b.entrypoint && x == y
  {
    assert Pow256(8) == U64_MAX + 1;
    var a3, b3 := Sized(a.entrypoint) + x, Sized(b.entrypoint) + y;
    var a2, b2 := Sized(a.image) + a3, Sized(b.image) + b3;
    SplitInt(a.podId, ToBe(a.deploymentId, 8) + a2, b.podId, ToBe(b.deploymentId, 8) + b2, 8);
    SplitInt(a.deploymentId, a2, b.deploymentId, b2, 8);
    SplitSized(a.image, a3, b.image, b3);
    SplitSized(a.entrypoint, x, b.entrypoint, y);
  }

  /** Workloads that feed the same bytes to the hash are the same in every hashed field. */
  lemma IdentityInjective(a: PodSpec, ra: Text, sa: Text, b: PodSpec, rb: Text, sb: Text)
    requires Hashable(a, ra, sa) && Hashable(b, rb, sb) && Identity(a, ra, sa) == Identity(b, rb, sb)
    ensures a == b && ra == rb && sa == sb
  {
    var x, y := Sizes(a, Lists(a, ra, sa)), Sizes(b, Lists(b, rb, sb));
    SplitSame(Sized(Label()), ToBe(a.podId, 8) + (ToBe(a.deploymentId, 8) + (Sized(a.image) + (Sized(a.entrypoint) + x))),
              Sized(Label()), ToBe(b.podId, 8) + (ToBe(b.deploymentId, 8) + (Sized(b.image) + (Sized(b.entrypoint) + y))));
    SplitNames(a, x, b, y);
    SplitSizes(a, Lists(a, ra, sa), b, Lists(b, rb, sb));
    SplitLists(a, ra, sa, b, rb, sb);
  }

  // -- Feeding the hash --

  lemma {:induction false} PairNext(ps: seq<(Text, Text)>, i: nat)
    requires i < |ps|
    ensures SizedPairs(ps[i..]) == Sized(ps[i].0) + (Sized(ps[i].1) + SizedPairs(ps[i + 1..]))
  {
    assert ps[i..][0] == ps[i] && ps[i..][1..] == ps[i + 1..];
  }

  class Hasher {
    var fed: Bytes

    constructor ()
      ensures fed == []
    {
      fed := [];
    }

    method Update(bytes: Bytes)
      modifies this
      ensures fed == old(fed) + bytes
    {
      fed := fed + bytes;
    }

    method HashIdentityBytes(bytes: Bytes)
      modifies this
      ensures fed == old(fed) + Sized(bytes)
    {
      Update(ToBe(|bytes|, 8));
      Update(bytes);
    }

    method HashPairs(ps: seq<(Text, Text)>)
      modifies this
      ensures fed == old(fed) + ToBe(|ps|, 8) + SizedPairs(ps)
    {
      Update(ToBe(|ps|, 8));
      ghost var start := fed;
      for i := 0 to |ps|
        invariant fed + SizedPairs(ps[i..]) == start + SizedPairs(ps)
      {
        PairNext(ps, i);
        Regrouped(fed, Sized(ps[i].0), Sized(ps[i].1), SizedPairs(ps[i + 1..]));
        HashIdentityBytes(ps[i].0);
        HashIdentityBytes(ps[i].1);
      }
      assert ps[|ps|..] == [];
    }
  }

  /** What `workload_identity` feeds to the hash. */
  method FeedIdentity(spec: PodSpec, runtimeName: Text, snapshotter: Text) returns (hasher: Hasher)
    ensures fresh(hasher) && hasher.fed == Identity(spec, runtimeName, snapshotter)
  {
    hasher := new Hasher();
    hasher.HashIdentityBytes(Label());
    hasher.Update(ToBe(spec.podId, 8));
    hasher.Update(ToBe(spec.deploymentId, 8));
    hasher.HashIdentityBytes(spec.image);
    hasher.HashIdentityBytes(spec.entrypoint);
    hasher.Update(ToBe(spec.port, 2));
    hasher.Update([spec.gpuCount]);
    hasher.Update([GpuCode(spec.gpuType)]);
    hasher.Update(ToBe(spec.cpuMillicores, 4));
    hasher.Update(ToBe(spec.memoryMegabytes, 4));
    ghost var head := hasher.fed;
    hasher.HashPairs(spec.envVars);
    hasher.HashPairs(Pairs(spec.mounts));
    hasher.HashIdentityBytes(runtimeName);
    hasher.HashIdentityBytes(snapshotter);
    TailFed(head, spec, runtimeName, snapshotter);
    HeadFed(spec, Lists(spec, runtimeName, snapshotter));
  }

  lemma TailFed(head: Bytes, spec: PodSpec, runtimeName: Text, snapshotter: Text)
    ensures
      var ms := Pairs(spec.mounts);
      head + ToBe(|spec.envVars|, 8) + SizedPairs(spec.envVars) + ToBe(|ms|, 8) + SizedPairs(ms) + Sized(runtimeName) +
      Sized(snapshotter) == head + Lists(spec, runtimeName, snapshotter)
  {
    var ms := Pairs(spec.mounts);
    Six(head, ToBe(|spec.envVars|, 8), SizedPairs(spec.envVars), ToBe(|ms|, 8), SizedPairs(ms), Sized(runtimeName), Sized(snapshotter));
  }

  lemma Six(h: Bytes, a: Bytes, b: Bytes, c: Bytes, d: Bytes, e: Bytes, f: Bytes)
    ensures h + a + b + c + d + e + f == h + (a + (b + (c + (d + (e + f)))))
  {
    assert h + a + b + c + d + e + f == h + a + b + c + d + (e + f);
    assert h + a + b + c + d + (e + f) == h + a + b + c + (d + (e + f));
    assert h + a + b + c + (d + (e + f)) == h + a + b + (c + (d + (e + f)));
    assert h + a + b + (c + (d + (e + f))) == h + a + (b + (c + (d + (e + f))));
  }

  lemma HeadFed(spec: PodSpec, rest: Bytes)
    ensures [] + Sized(Label()) + ToBe(spec.podId, 8) + ToBe(spec.deploymentId, 8) + Sized(spec.image) + Sized(spec.entrypoint) +
            ToBe(spec.port, 2) + [spec.gpuCount] + [GpuCode(spec.gpuType)] + ToBe(spec.cpuMillicores, 4) +
            ToBe(spec.memoryMegabytes, 4) + rest ==
            Sized(Label()) + (ToBe(spec.podId, 8) + (ToBe(spec.deploymentId, 8) + (Sized(spec.image) + (Sized(spec.entrypoint) +
            Sizes(spec, rest)))))
  {
    var w := Sized(Label()) + ToBe(spec.podId, 8) + ToBe(spec.deploymentId, 8) + Sized(spec.image) + Sized(spec.entrypoint);
    assert [] + Sized(Label()) == Sized(Label());
    Six(w, ToBe(spec.port, 2), [spec.gpuCount], [GpuCode(spec.gpuType)], ToBe(spec.cpuMillicores, 4),
        ToBe(spec.memoryMegabytes, 4), rest);
    Six([], Sized(Label()), ToBe(spec.podId, 8), ToBe(spec.deploymentId, 8), Sized(spec.image), Sized(spec.entrypoint),
        Sizes(spec, rest));
  }
}
