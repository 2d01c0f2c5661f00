/** Rightsizing recommendations: which entities are idle or oversized, what to shrink
    them to, and what that saves. */
module Recommendations {
  import opened Wrappers
  import opened Costs
  import opened Rightsizing
  import opened Sorting

  datatype Thresholds = Thresholds(
    idleCPU: real,
    idleMem: real,
    oversizedCPU: real,
    oversizedMem: real,
    minSamples: int)
  {
    function Normalize(): Thresholds {
      Thresholds(
        Percent(idleCPU, 5.0),
        Percent(idleMem, 10.0),
        Percent(oversizedCPU, 30.0),
        Percent(oversizedMem, 40.0),
        if minSamples < 1 then 3 else minSamples)
    }
  }

  function Percent(v: real, standard: real): real {
    if v <= 0.0 || v > 100.0 then standard else v
  }

  datatype Kind = Idle | Oversized

  datatype Input = Input(cost: EntityCost, util: Utilization)

  datatype Recommendation = Recommendation(
    cost: EntityCost,
    kind: Kind,
    suggestedVCPUs: int,
    suggestedMemGB: real,
    util: Utilization,
    currentMonthly: real,
    projectedMonthly: real,
    monthlySavings: real)

  function Ceil(x: real): (n: int)
    ensures (n as real) - 1.0 < x <= n as real
  {
    -((-x).Floor)
  }

  /** What the peak amounts to in cores or in GiB. */
  function Load(peak: real, allocation: real): real {
    peak / 100.0 * allocation
  }

  /** Twice the peak load, in whole cores, at least one. */
  function NeededVCPUs(load: real): int {
    var n := Ceil(load * 2.0);
    if n < 1 then 1 else n
  }

  /** Twice the peak load, up to the next half GiB, at least one half. */
  function NeededMem(load: real): real {
    var n := load * 2.0;
    Ceil((if n < 0.5 then 0.5 else n) * 2.0) as real / 2.0
  }

  predicate IsIdle(th: Thresholds, u: Utilization) {
    u.peakCPU <= th.idleCPU && (u.peakMem == 0.0 || u.peakMem <= th.idleMem)
  }

  function NewVCPUs(th: Thresholds, vcpus: int, u: Utilization): int {
    if u.peakCPU <= th.oversizedCPU && vcpus > 1 then
      var needed := NeededVCPUs(Load(u.peakCPU, vcpus as real));
      if needed < vcpus then needed else vcpus
    else vcpus
  }

  function NewMem(th: Thresholds, mem: real, u: Utilization): real {
    if 0.0 < u.peakMem <= th.oversizedMem && mem > 0.5 then
      var needed := NeededMem(Load(u.peakMem, mem));
      if needed < mem then needed else mem
    else mem
  }

  /** The entity priced for a projection: only what enters a price is filled in. */
  function Resized(e: Entity, vcpus: int, mem: real): Entity {
    Entity("", "", e.domain, "", "", "", "", true, vcpus, mem, e.storageGB)
  }

  /** The verdict on one entity. */
  function Advise(rc: RateCard, th: Thresholds, input: Input): Option<Recommendation> {
    var c, u := input.cost, input.util;
    var e := c.entity;
    if !e.running || u.samples < th.minSamples then None
    else if IsIdle(th, u) then
      var projected := c.breakdown.storageHour * HOURS_PER_MONTH;
      Some(Recommendation(c, Idle, 0, 0.0, u, c.monthlyCost, projected, c.monthlyCost - projected))
    else
      var vcpus, mem := NewVCPUs(th, e.vcpus, u), NewMem(th, e.memoryGB, u);
      if vcpus >= e.vcpus && mem >= e.memoryGB then None
      else
        var projected := EstimateCost(rc, Resized(e, vcpus, mem)).monthlyCost;
        Some(Recommendation(c, Oversized, vcpus, mem, u, c.monthlyCost, projected, c.monthlyCost - projected))
  }

  function Advised(rc: RateCard, th: Thresholds, inputs: seq<Input>): seq<Recommendation> {
    if |inputs| == 0 then []
    else
      var front := Advised(rc, th, inputs[..|inputs| - 1]);
      var last := Advise(rc, th, inputs[|inputs| - 1]);
      if last.Some? then front + [last.value] else front
  }

  function RankOf(r: Recommendation): Rank {
    Rank(r.monthlySavings, r.cost.entity.id)
  }

  /** Recommendations of equal rank come in the same order in both lists. */
  ghost predicate SameTies(a: seq<Recommendation>, b: seq<Recommendation>) {
    forall k :: OfRank(a, RankOf, k) == OfRank(b, RankOf, k)
  }

  /** Exactly the verdicts on the inputs, the largest savings first. */
  method Recommend(card: RateCard, thresholds: Thresholds, inputs: seq<Input>) returns (recs: seq<Recommendation>)
    ensures multiset(recs) == multiset(Advised(card.Normalize(), thresholds.Normalize(), inputs))
    ensures Ordered(recs, RankOf)
    ensures SameTies(recs, Advised(card.Normalize(), thresholds.Normalize(), inputs))
  {
    var rc, th := card.Normalize(), thresholds.Normalize();
    var found: seq<Recommendation> := [];
    for i := 0 to |inputs|
      invariant found == Advised(rc, th, inputs[..i])
    {
      assert inputs[..i + 1][..i] == inputs[..i];
      var verdict := Advise(rc, th, inputs[i]);
      if verdict.None? {
        continue;
      }
      found := found + [verdict.value];
    }
    assert inputs[..|inputs|] == inputs;
    recs := SortBy(found, RankOf);
    SortOrders(found, RankOf);
    forall k
      ensures OfRank(recs, RankOf, k) == OfRank(found, RankOf, k)
    {
      SortIsStable(found, RankOf, k);
    }
  }

  function Savings(r: Recommendation): real {
    r.monthlySavings
  }

  method TotalSavings(recs: seq<Recommendation>) returns (t: real)
    ensures t == Sum(recs, Savings)
  {
    t := 0.0;
    for i := 0 to |recs|
      invariant t == Sum(recs[..i], Savings)
    {
      assert recs[..i + 1][..i] == recs[..i];
      t := t + recs[i].monthlySavings;
    }
    assert recs[..|recs|] == recs;
  }

  // ----- what a recommendation asks for -----

  /** A percentage above zero and up to a hundred, or the standard one. */
  function InPercent(v: real, standard: real): (p: real)
    ensures 0.0 < v <= 100.0 ==> p == v
    ensures v <= 0.0 || 100.0 < v ==> p == standard
  {
    if 0.0 < v && v <= 100.0 then v else standard
  }

  /** Thresholds end up between 0 and 100 percent, with at least one sample asked for: those
      given where they make sense, and else the standard ones. Normalizing again changes
      nothing. */
  lemma NormalizedThresholds(th: Thresholds)
    ensures
      var n := th.Normalize();
      n.idleCPU == InPercent(th.idleCPU, 5.0) && n.idleMem == InPercent(th.idleMem, 10.0) &&
      n.oversizedCPU == InPercent(th.oversizedCPU, 30.0) && n.oversizedMem == InPercent(th.oversizedMem, 40.0) &&
      n.minSamples == (if th.minSamples > 0 then th.minSamples else 3) &&
      0.0 < n.idleCPU <= 100.0 && 0.0 < n.idleMem <= 100.0 && 0.0 < n.oversizedCPU <= 100.0 &&
      0.0 < n.oversizedMem <= 100.0 && n.minSamples >= 1 && n.Normalize() == n
  {}

  lemma NeededIsTwice(load: real)
    ensures NeededVCPUs(load) as real >= load * 2.0 && NeededVCPUs(load) >= 1
    ensures NeededMem(load) >= load * 2.0 && NeededMem(load) >= 0.5
  {}

  /** An oversized recommendation shrinks at least one dimension and grows none, and what
      it shrinks still holds at least twice the observed peak, and at least one core or
      half a GiB. */
  lemma OversizedLeavesHeadroom(rc: RateCard, th: Thresholds, input: Input)
    requires Advise(rc, th, input).Some? && Advise(rc, th, input).value.kind == Oversized
    ensures
      var r, e, u := Advise(rc, th, input).value, input.cost.entity, input.util;
      r.suggestedVCPUs <= e.vcpus && r.suggestedMemGB <= e.memoryGB &&
      (r.suggestedVCPUs < e.vcpus || r.suggestedMemGB < e.memoryGB) &&
      (r.suggestedVCPUs < e.vcpus ==>
         r.suggestedVCPUs >= 1 && r.suggestedVCPUs as real >= 2.0 * Load(u.peakCPU, e.vcpus as real)) &&
      (r.suggestedMemGB < e.memoryGB ==>
         r.suggestedMemGB >= 0.5 && r.suggestedMemGB >= 2.0 * Load(u.peakMem, e.memoryGB))
  {
    var e, u := input.cost.entity, input.util;
    NeededIsTwice(Load(u.peakCPU, e.vcpus as real));
    NeededIsTwice(Load(u.peakMem, e.memoryGB));
  }

  // ----- what it saves -----

  ghost predicate Priced(card: RateCard, c: EntityCost) {
    Sane(c.entity) && c == EstimateCost(card, c.entity)
  }

  /** Savings never exceed what the entity costs and are never negative, when it was
      priced with the same card. */
  lemma SavingsBounded(card: RateCard, th: Thresholds, input: Input)
    requires Priced(card, input.cost)
    ensures
      var r := Advise(card.Normalize(), th, input);
      r.Some? ==> 0.0 <= r.value.monthlySavings <= r.value.currentMonthly == input.cost.monthlyCost
  {
    var r := Advise(card.Normalize(), th, input);
    if r.Some? {
      var e := input.cost.entity;
      PricesAreNonNegative(card, e);
      if r.value.kind == Oversized {
        OversizedLeavesHeadroom(card.Normalize(), th, input);
        var smaller := e.(vcpus := r.value.suggestedVCPUs, memoryGB := r.value.suggestedMemGB);
        NormalizeOnce(card, smaller);
        PriceDependsOnAllocation(card.Normalize(), Resized(e, r.value.suggestedVCPUs, r.value.suggestedMemGB), smaller);
        SmallerIsNotDearer(card, e, r.value.suggestedVCPUs, r.value.suggestedMemGB);
        MemNeverNegative(th, e.memoryGB, input.util);
        PricesAreNonNegative(card, smaller);
      }
    }
  }

  lemma MemNeverNegative(th: Thresholds, mem: real, u: Utilization)
    requires mem >= 0.0
    ensures NewMem(th, mem, u) >= 0.0
  {
    NeededIsTwice(Load(u.peakMem, mem));
  }

  function CostsOf(inputs: seq<Input>): seq<EntityCost> {
    if |inputs| == 0 then [] else CostsOf(inputs[..|inputs| - 1]) + [inputs[|inputs| - 1].cost]
  }

  lemma {:induction false} AdvisedWithinInputs(card: RateCard, th: Thresholds, inputs: seq<Input>)
    requires forall i :: 0 <= i < |inputs| ==> Priced(card, inputs[i].cost)
    ensures 0.0 <= Sum(Advised(card.Normalize(), th, inputs), Savings) <= Sum(CostsOf(inputs), Monthly)
  {
    if |inputs| > 0 {
      var front, last := inputs[..|inputs| - 1], inputs[|inputs| - 1];
      AdvisedWithinInputs(card, th, front);
      SavingsBounded(card, th, last);
      PricesAreNonNegative(card, last.cost.entity);
      SumLast(Advised(card.Normalize(), th, front), Advise(card.Normalize(), th, last), Savings);
      SumLast(CostsOf(front), Some(last.cost), Monthly);
    }
  }

  lemma SumLast<T>(s: seq<T>, x: Option<T>, f: T -> real)
    ensures x.Some? ==> Sum(s + [x.value], f) == Sum(s, f) + f(x.value)
  {
    if x.Some? {
      assert (s + [x.value])[..|s|] == s;
    }
  }

  lemma {:induction false} DrawnFrom(inputs: seq<Input>, costs: seq<EntityCost>)
    requires multiset(CostsOf(inputs)) <= multiset(costs)
    ensures forall i :: 0 <= i < |inputs| ==> inputs[i].cost in costs
  {
    if |inputs| > 0 {
      var front, last := CostsOf(inputs[..|inputs| - 1]), inputs[|inputs| - 1].cost;
      assert multiset(CostsOf(inputs)) == multiset(front) + multiset{last};
      assert last in multiset(CostsOf(inputs));
      assert last in multiset(costs);
      DrawnFrom(inputs[..|inputs| - 1], costs);
    }
  }

  /** Over inputs drawn once each from a cost list, the recommendations together never
      promise to save more than the whole list costs. */
  lemma TotalWithinSpend(card: RateCard, th: Thresholds, inputs: seq<Input>, costs: seq<EntityCost>, recs: seq<Recommendation>)
    requires multiset(CostsOf(inputs)) <= multiset(costs)
    requires forall c :: c in costs ==> Priced(card, c)
    requires multiset(recs) == multiset(Advised(card.Normalize(), th, inputs))
    ensures 0.0 <= Sum(recs, Savings) <= Sum(costs, Monthly)
  {
    DrawnFrom(inputs, costs);
    AdvisedWithinInputs(card, th, inputs);
    SumOfPermutation(recs, Advised(card.Normalize(), th, inputs), Savings);
    forall c | c in costs
      ensures Monthly(c) >= 0.0
    {
      PricesAreNonNegative(card, c.entity);
    }
    SumOfPart(CostsOf(inputs), costs, Monthly);
  }

  // ----- the fixed point -----

  lemma LoadIsKept(p: real, n: real, q: real, m: real)
    requires SameLoad(p, n, q, m)
    ensures Load(p, n) == Load(q, m)
  {
    assert p / 100.0 * n == (p * n) / 100.0;
    assert q / 100.0 * m == (q * m) / 100.0;
  }

  lemma PeakRises(p: real, n: real, q: real, m: real)
    requires SameLoad(p, n, q, m) && 0.0 < m <= n && p >= 0.0
    ensures q >= p && (q == 0.0 <==> p == 0.0)
  {
    ProductMonotone(m, n, p);
    ScaleUp(p, q, m);
    if p == 0.0 {
      ScaleUp(q, 0.0, m);
    }
    if q == 0.0 {
      ScaleUp(p, 0.0, n);
    }
  }

  /** One step down settles the core count. */
  lemma VCPUsSettle(th: Thresholds, vcpus: int, u: Utilization, v: Utilization)
    requires vcpus >= 0 && u.peakCPU >= 0.0
    requires SameLoad(u.peakCPU, Cores(vcpus) as real, v.peakCPU, Cores(NewVCPUs(th, vcpus, u)) as real)
    ensures v.peakCPU >= u.peakCPU
    ensures NewVCPUs(th, NewVCPUs(th, vcpus, u), v) == NewVCPUs(th, vcpus, u)
  {
    var n := NewVCPUs(th, vcpus, u);
    NeededIsTwice(Load(u.peakCPU, vcpus as real));
    PeakRises(u.peakCPU, Cores(vcpus) as real, v.peakCPU, Cores(n) as real);
    if n > 1 {
      LoadIsKept(u.peakCPU, vcpus as real, v.peakCPU, n as real);
      if n == vcpus {
        ScaleUp(u.peakCPU, v.peakCPU, n as real);
      }
    }
  }

  /** One step down settles the memory size. */
  lemma MemSettles(th: Thresholds, mem: real, u: Utilization, v: Utilization)
    requires mem >= 0.0 && u.peakMem >= 0.0
    requires
      if NewMem(th, mem, u) == mem then v.peakMem == u.peakMem
      else SameLoad(u.peakMem, mem, v.peakMem, NewMem(th, mem, u))
    ensures v.peakMem >= u.peakMem && (v.peakMem == 0.0 <==> u.peakMem == 0.0)
    ensures NewMem(th, NewMem(th, mem, u), v) == NewMem(th, mem, u)
  {
    var m := NewMem(th, mem, u);
    NeededIsTwice(Load(u.peakMem, mem));
    if m != mem {
      PeakRises(u.peakMem, mem, v.peakMem, m);
      LoadIsKept(u.peakMem, mem, v.peakMem, m);
    }
  }

  /** Rightsizing reaches its fixed point in one step: apply an oversized recommendation,
      measure the same absolute peak load against the new allocation, and there is
      nothing left to recommend, neither a smaller size nor reclaiming it as idle. */
  lemma OneStepIsEnough(rc: RateCard, card: RateCard, th: Thresholds, input: Input, again: Input)
    requires Sane(input.cost.entity) && input.util.peakCPU >= 0.0 && input.util.peakMem >= 0.0
    requires Advise(rc, th, input).Some? && Advise(rc, th, input).value.kind == Oversized
    requires
      var r, e := Advise(rc, th, input).value, input.cost.entity;
      again.cost.entity.vcpus == r.suggestedVCPUs && again.cost.entity.memoryGB == r.suggestedMemGB &&
      SameLoad(input.util.peakCPU, Cores(e.vcpus) as real, again.util.peakCPU, Cores(r.suggestedVCPUs) as real) &&
      if r.suggestedMemGB == e.memoryGB then again.util.peakMem == input.util.peakMem
      else SameLoad(input.util.peakMem, e.memoryGB, again.util.peakMem, r.suggestedMemGB)
    ensures Advise(card, th, again) == None
  {
    VCPUsSettle(th, input.cost.entity.vcpus, input.util, again.util);
    MemSettles(th, input.cost.entity.memoryGB, input.util, again.util);
  }

  /** The same from the samples themselves: the same readings, taken against the new core
      count and with the memory limit scaled to the new size. */
  lemma OneStepIsEnoughForSamples(rc: RateCard, card: RateCard, th: Thresholds, input: Input, again: Input,
      samples: seq<Sample>, retaken: seq<Sample>)
    requires Sane(input.cost.entity) && input.cost.entity.memoryGB > 0.0
    requires Advise(rc, th, input).Some? && Advise(rc, th, input).value.kind == Oversized
    requires IsPeak(input.util.peakCPU, CpuReadings(samples, input.cost.entity.vcpus))
    requires IsPeak(input.util.peakMem, MemReadings(samples))
    requires
      var r := Advise(rc, th, input).value;
      again.cost.entity.vcpus == r.suggestedVCPUs && again.cost.entity.memoryGB == r.suggestedMemGB &&
      Remeasured(samples, retaken, input.cost.entity.memoryGB, r.suggestedMemGB) &&
      (forall i :: 0 <= i < |samples| ==> retaken[i].cpuPercent == samples[i].cpuPercent) &&
      IsPeak(again.util.peakCPU, CpuReadings(retaken, r.suggestedVCPUs)) &&
      IsPeak(again.util.peakMem, MemReadings(retaken))
    ensures Advise(card, th, again) == None
  {
    var r, e := Advise(rc, th, input).value, input.cost.entity;
    SuggestsSomeMemory(rc, th, input);
    LoadsAreKept(samples, retaken, e.vcpus, r.suggestedVCPUs, e.memoryGB, r.suggestedMemGB, input.util, again.util);
    PeakIsNonNegative(input.util.peakCPU, CpuReadings(samples, e.vcpus));
    PeakIsNonNegative(input.util.peakMem, MemReadings(samples));
    OneStepIsEnough(rc, card, th, input, again);
  }

  lemma PeakIsNonNegative(p: real, readings: seq<real>)
    requires IsPeak(p, readings)
    ensures p >= 0.0
  {}

  lemma SuggestsSomeMemory(rc: RateCard, th: Thresholds, input: Input)
    requires input.cost.entity.memoryGB > 0.0
    requires Advise(rc, th, input).Some? && Advise(rc, th, input).value.kind == Oversized
    ensures Advise(rc, th, input).value.suggestedMemGB > 0.0
  {
    NeededIsTwice(Load(input.util.peakMem, input.cost.entity.memoryGB));
  }

  lemma LoadsAreKept(samples: seq<Sample>, retaken: seq<Sample>, vcpus: int, vcpus': int, mem: real, mem': real,
      u: Utilization, v: Utilization)
    requires mem > 0.0 && mem' > 0.0 && Remeasured(samples, retaken, mem, mem')
    requires forall i :: 0 <= i < |samples| ==> retaken[i].cpuPercent == samples[i].cpuPercent
    requires IsPeak(u.peakCPU, CpuReadings(samples, vcpus)) && IsPeak(u.peakMem, MemReadings(samples))
    requires IsPeak(v.peakCPU, CpuReadings(retaken, vcpus')) && IsPeak(v.peakMem, MemReadings(retaken))
    ensures SameLoad(u.peakCPU, Cores(vcpus) as real, v.peakCPU, Cores(vcpus') as real)
    ensures SameLoad(u.peakMem, mem, v.peakMem, mem') && (mem == mem' ==> u.peakMem == v.peakMem)
  {
    SameCpu(samples, retaken, vcpus');
    RemeasuredCpu(samples, vcpus, vcpus', u.peakCPU, v.peakCPU);
    RemeasuredMem(samples, retaken, mem, mem', u.peakMem, v.peakMem);
    SameSize(u.peakMem, mem, v.peakMem, mem');
  }

  lemma SameSize(p: real, n: real, q: real, m: real)
    requires SameLoad(p, n, q, m) && n > 0.0
    ensures n == m ==> p == q
  {
    ScaleUp(p, q, n);
  }

  lemma {:induction false} SameCpu(samples: seq<Sample>, retaken: seq<Sample>, vcpus: int)
    requires |samples| == |retaken|
    requires forall i :: 0 <= i < |samples| ==> retaken[i].cpuPercent == samples[i].cpuPercent
    ensures CpuReadings(retaken, vcpus) == CpuReadings(samples, vcpus)
  {
    if |samples| > 0 {
      SameCpu(samples[..|samples| - 1], retaken[..|samples| - 1], vcpus);
    }
  }
}
