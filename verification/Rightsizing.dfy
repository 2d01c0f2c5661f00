/** Rightsizing: utilization from samples, and recommendations with their savings. */
module Rightsizing {
  import opened Wrappers
  import opened Costs
  import opened Sorting

  // ----- utilization -----

  datatype Sample = Sample(cpuPercent: real, memUsage: nat, memLimit: nat)

  datatype Utilization = Utilization(
    samples: nat,
    avgCPU: real,
    peakCPU: real,
    avgMem: real,
    peakMem: real)

  function Cores(vcpus: int): int {
    if vcpus < 1 then 1 else vcpus
  }

  /** CPU use of one sample, in percent of all the VM's cores. */
  function CpuOf(s: Sample, vcpus: int): real {
    var cpu := s.cpuPercent / Cores(vcpus) as real;
    if cpu < 0.0 then 0.0 else cpu
  }

  /** Memory use of one sample in percent of its limit; a sample without limit has none. */
  function MemOf(s: Sample): Option<real> {
    if s.memLimit == 0 then None else Some(s.memUsage as real / s.memLimit as real * 100.0)
  }

  function MemReadings(samples: seq<Sample>): seq<real> {
    if |samples| == 0 then []
    else
      var front, m := MemReadings(samples[..|samples| - 1]), MemOf(samples[|samples| - 1]);
      if m.Some? then front + [m.value] else front
  }

  function CpuReadings(samples: seq<Sample>, vcpus: int): (readings: seq<real>)
    ensures |readings| == |samples|
  {
    if |samples| == 0 then []
    else CpuReadings(samples[..|samples| - 1], vcpus) + [CpuOf(samples[|samples| - 1], vcpus)]
  }

  /** The largest reading, or zero. */
  ghost predicate IsPeak(peak: real, readings: seq<real>) {
    (forall r :: r in readings ==> r <= peak) && (peak == 0.0 || peak in readings) && peak >= 0.0
  }

  function Identity(x: real): real {
    x
  }

  function Mean(sum: real, n: nat): real {
    if n == 0 then 0.0 else sum / n as real
  }

  function Average(readings: seq<real>): real {
    Mean(Sum(readings, Identity), |readings|)
  }

  /** A running sum, count and peak of readings. */
  datatype Tally = Tally(sum: real, count: nat, peak: real)

  ghost predicate Tallies(t: Tally, readings: seq<real>) {
    t.sum == Sum(readings, Identity) && t.count == |readings| && IsPeak(t.peak, readings)
  }

  method Observe(t: Tally, x: real, ghost readings: seq<real>) returns (t': Tally)
    requires Tallies(t, readings) && x >= 0.0
    ensures Tallies(t', readings + [x])
  {
    assert (readings + [x])[..|readings|] == readings;
    t' := Tally(t.sum + x, t.count + 1, if x > t.peak then x else t.peak);
  }

  lemma OneMoreCpu(samples: seq<Sample>, vcpus: int, i: nat)
    requires i < |samples|
    ensures CpuReadings(samples[..i + 1], vcpus) == CpuReadings(samples[..i], vcpus) + [CpuOf(samples[i], vcpus)]
  {
    assert samples[..i + 1][..i] == samples[..i];
  }

  lemma OneMoreMem(samples: seq<Sample>, i: nat)
    requires i < |samples|
    ensures MemReadings(samples[..i + 1]) ==
      if MemOf(samples[i]).Some? then MemReadings(samples[..i]) + [MemOf(samples[i]).value]
      else MemReadings(samples[..i])
  {
    assert samples[..i + 1][..i] == samples[..i];
  }

  lemma MemIsNonNegative(s: Sample)
    requires s.memLimit > 0
    ensures MemOf(s).value >= 0.0
  {
    Product(s.memUsage as real, 1.0 / s.memLimit as real);
  }

  /** One round of the loop over the samples. */
  method ObserveSample(samples: seq<Sample>, vcpus: int, i: nat, cpus: Tally, mems: Tally)
      returns (cpus': Tally, mems': Tally)
    requires i < |samples|
    requires Tallies(cpus, CpuReadings(samples[..i], vcpus)) && Tallies(mems, MemReadings(samples[..i]))
    ensures Tallies(cpus', CpuReadings(samples[..i + 1], vcpus)) && Tallies(mems', MemReadings(samples[..i + 1]))
  {
    OneMoreCpu(samples, vcpus, i);
    OneMoreMem(samples, i);
    var cpu := CpuOf(samples[i], vcpus);
    cpus' := Observe(cpus, cpu, CpuReadings(samples[..i], vcpus));
    mems' := mems;
    var mem := MemOf(samples[i]);
    if mem.Some? {
      MemIsNonNegative(samples[i]);
      mems' := Observe(mems, mem.value, MemReadings(samples[..i]));
    }
  }

  method ComputeUtilization(samples: seq<Sample>, vcpus: int) returns (u: Utilization)
    ensures u.samples == |samples|
    ensures IsPeak(u.peakCPU, CpuReadings(samples, vcpus)) && IsPeak(u.peakMem, MemReadings(samples))
    ensures u.avgCPU == Average(CpuReadings(samples, vcpus)) && u.avgMem == Average(MemReadings(samples))
  {
    if |samples| == 0 {
      return Utilization(0, 0.0, 0.0, 0.0, 0.0);
    }
    var cpus, mems := Tally(0.0, 0, 0.0), Tally(0.0, 0, 0.0);
    for i := 0 to |samples|
      invariant Tallies(cpus, CpuReadings(samples[..i], vcpus))
      invariant Tallies(mems, MemReadings(samples[..i]))
    {
      cpus, mems := ObserveSample(samples, vcpus, i, cpus, mems);
    }
    assert samples[..|samples|] == samples;
    u := Utilization(|samples|, Mean(cpus.sum, cpus.count), cpus.peak, Mean(mems.sum, mems.count), mems.peak);
  }

  /** The same absolute amount, measured against n and against m. */
  predicate SameLoad(x: real, n: real, y: real, m: real) {
    x * n == y * m
  }

  lemma ScaleUp(x: real, y: real, n: real)
    requires n > 0.0
    ensures x <= y <==> x * n <= y * n
    ensures x == y <==> x * n == y * n
  {
    if x < y {
      assert (y - x) * n > 0.0;
    } else if y < x {
      assert (x - y) * n > 0.0;
    }
  }

  ghost predicate SameLoads(a: seq<real>, n: real, b: seq<real>, m: real) {
    |a| == |b| && forall i :: 0 <= i < |a| ==> SameLoad(a[i], n, b[i], m)
  }

  lemma ScaledBelow(a: seq<real>, n: real, b: seq<real>, m: real, p: real, q: real)
    requires n > 0.0 && m > 0.0 && SameLoads(a, n, b, m)
    requires IsPeak(p, a) && IsPeak(q, b)
    ensures p * n <= q * m
  {
    if p == 0.0 {
      Product(q, m);
    } else {
      var i :| 0 <= i < |a| && a[i] == p;
      assert b[i] in b;
      ScaleUp(b[i], q, m);
      assert SameLoad(a[i], n, b[i], m);
    }
  }

  lemma ScaledPeak(a: seq<real>, n: real, b: seq<real>, m: real, p: real, q: real)
    requires n > 0.0 && m > 0.0 && SameLoads(a, n, b, m)
    requires IsPeak(p, a) && IsPeak(q, b)
    ensures SameLoad(p, n, q, m)
  {
    ScaledBelow(a, n, b, m, p, q);
    forall i | 0 <= i < |a|
      ensures SameLoad(b[i], m, a[i], n)
    {
      assert SameLoad(a[i], n, b[i], m);
    }
    ScaledBelow(b, m, a, n, q, p);
  }

  lemma CpuScales(x: real, n: real, m: real)
    requires n > 0.0 && m > 0.0
    ensures SameLoad(if x / n < 0.0 then 0.0 else x / n, n, if x / m < 0.0 then 0.0 else x / m, m)
  {
    assert x / n * n == x && x / m * m == x;
    assert x / n < 0.0 <==> x < 0.0;
    assert x / m < 0.0 <==> x < 0.0;
  }

  /** The same samples measured against another core count: the peak scales so that the
      absolute load, peak times cores, is the same. */
  lemma RemeasuredCpu(samples: seq<Sample>, vcpus: int, other: int, p: real, q: real)
    requires IsPeak(p, CpuReadings(samples, vcpus)) && IsPeak(q, CpuReadings(samples, other))
    ensures SameLoad(p, Cores(vcpus) as real, q, Cores(other) as real)
  {
    CpuReadingsScale(samples, vcpus, other);
    ScaledPeak(CpuReadings(samples, vcpus), Cores(vcpus) as real, CpuReadings(samples, other), Cores(other) as real, p, q);
  }

  lemma {:induction false} CpuReadingsScale(samples: seq<Sample>, vcpus: int, other: int)
    ensures SameLoads(CpuReadings(samples, vcpus), Cores(vcpus) as real, CpuReadings(samples, other), Cores(other) as real)
  {
    if |samples| > 0 {
      CpuReadingsScale(samples[..|samples| - 1], vcpus, other);
      CpuScales(samples[|samples| - 1].cpuPercent, Cores(vcpus) as real, Cores(other) as real);
    }
  }

  /** The same samples after the allocation changed from mem to other: the same use, and
      each limit scaled along. */
  ghost predicate Remeasured(samples: seq<Sample>, again: seq<Sample>, mem: real, other: real) {
    |samples| == |again| && forall i :: 0 <= i < |samples| ==> Rescaled(samples[i], again[i], mem, other)
  }

  predicate Rescaled(s: Sample, t: Sample, mem: real, other: real) {
    s.memUsage == t.memUsage && (s.memLimit == 0 <==> t.memLimit == 0) &&
    SameLoad(t.memLimit as real, mem, s.memLimit as real, other)
  }

  lemma MemScales(use: real, limit: real, limit': real, mem: real, other: real)
    requires limit > 0.0 && limit' > 0.0 && SameLoad(limit', mem, limit, other)
    ensures SameLoad(use / limit * 100.0, mem, use / limit' * 100.0, other)
  {
    var x, y := use / limit, use / limit';
    assert x * limit == use && y * limit' == use;
    Cancel(x, limit, y, limit', mem, other, use);
    assert x * 100.0 * mem == 100.0 * (x * mem);
    assert y * 100.0 * other == 100.0 * (y * other);
  }

  lemma Cancel(x: real, limit: real, y: real, limit': real, mem: real, other: real, use: real)
    requires limit > 0.0 && limit' > 0.0 && limit' * mem == limit * other
    requires x * limit == use && y * limit' == use
    ensures x * mem == y * other
  {
    var both := limit * limit';
    assert both > 0.0;
    assert (x * mem) * both == (x * limit) * (limit' * mem);
    assert (y * other) * both == (y * limit') * (limit * other);
    ScaleUp(x * mem, y * other, both);
  }

  lemma MemOfScales(s: Sample, t: Sample, mem: real, other: real)
    requires Rescaled(s, t, mem, other)
    ensures MemOf(s).Some? <==> MemOf(t).Some?
    ensures MemOf(s).Some? ==> SameLoad(MemOf(s).value, mem, MemOf(t).value, other)
  {
    if s.memLimit > 0 {
      MemScales(s.memUsage as real, s.memLimit as real, t.memLimit as real, mem, other);
    }
  }

  lemma {:induction false} MemReadingsScale(samples: seq<Sample>, again: seq<Sample>, mem: real, other: real)
    requires Remeasured(samples, again, mem, other)
    ensures SameLoads(MemReadings(samples), mem, MemReadings(again), other)
  {
    if |samples| > 0 {
      var k := |samples| - 1;
      MemReadingsScale(samples[..k], again[..k], mem, other);
      MemOfScales(samples[k], again[k], mem, other);
    }
  }

  lemma RemeasuredMem(samples: seq<Sample>, again: seq<Sample>, mem: real, other: real, p: real, q: real)
    requires mem > 0.0 && other > 0.0 && Remeasured(samples, again, mem, other)
    requires IsPeak(p, MemReadings(samples)) && IsPeak(q, MemReadings(again))
    ensures SameLoad(p, mem, q, other)
  {
    MemReadingsScale(samples, again, mem, other);
    ScaledPeak(MemReadings(samples), mem, MemReadings(again), other, p, q);
  }

  /** What a reading says: the use in percent of the limit, or of all cores, where a VM
      without a core count has one. */
  lemma ReadingsMean(s: Sample, vcpus: int)
    ensures CpuOf(s, vcpus) * (if vcpus > 1 then vcpus as real else 1.0) == if s.cpuPercent > 0.0 then s.cpuPercent else 0.0
    ensures MemOf(s).Some? <==> s.memLimit > 0
    ensures MemOf(s).Some? ==> MemOf(s).value * s.memLimit as real == 100.0 * s.memUsage as real
  {
    var n := Cores(vcpus) as real;
    assert s.cpuPercent / n * n == s.cpuPercent;
    assert s.cpuPercent / n < 0.0 <==> s.cpuPercent < 0.0;
    if s.memLimit > 0 {
      ShareOf(s.memUsage as real, s.memLimit as real);
    }
  }

  /** An average of no readings is zero, and otherwise times their number it is their sum. */
  lemma AverageMeans(readings: seq<real>)
    ensures readings == [] ==> Average(readings) == 0.0
    ensures Average(readings) * |readings| as real == Sum(readings, Identity)
  {}

  lemma ShareOf(use: real, limit: real)
    requires limit > 0.0
    ensures use / limit * 100.0 * limit == 100.0 * use
  {
    assert use / limit * limit == use;
    assert use / limit * 100.0 * limit == 100.0 * (use / limit * limit);
  }
}
