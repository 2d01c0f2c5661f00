/** When an entity is reported, how small the suggested size is, and what exactly it saves. */
module RecommendationLaws {
  import opened Wrappers
  import opened Costs
  import opened Rightsizing
  import opened Recommendations
  import opened Sorting
  import opened Strings

  /** c whole cores are at least one and hold twice the peak use. */
  predicate HoldsCores(c: int, vcpus: int, u: Utilization) {
    c >= 1 && c as real >= 2.0 * (u.peakCPU / 100.0 * vcpus as real)
  }

  /** k half GiB are at least one half and hold twice the peak use. */
  predicate HoldsHalves(k: int, mem: real, u: Utilization) {
    k >= 1 && k as real / 2.0 >= 2.0 * (u.peakMem / 100.0 * mem)
  }

  /** Some smaller whole number of cores would do. */
  ghost predicate SparesCores(vcpus: int, u: Utilization) {
    exists c :: HoldsCores(c, vcpus, u) && c < vcpus
  }

  ghost predicate SparesHalves(mem: real, u: Utilization) {
    exists k :: HoldsHalves(k, mem, u) && k as real / 2.0 < mem
  }

  lemma CeilIsLeast(x: real, n: int)
    ensures x <= n as real <==> Ceil(x) <= n
  {}

  lemma NeededVCPUsIsLeast(vcpus: int, u: Utilization, c: int)
    ensures HoldsCores(c, vcpus, u) <==> NeededVCPUs(Load(u.peakCPU, vcpus as real)) <= c
  {
    CeilIsLeast(Load(u.peakCPU, vcpus as real) * 2.0, c);
  }

  /** The half GiB steps needed. */
  function NeededHalves(mem: real, u: Utilization): int {
    var n := Load(u.peakMem, mem) * 2.0;
    Ceil((if n < 0.5 then 0.5 else n) * 2.0)
  }

  lemma NeededMemIsLeast(mem: real, u: Utilization, k: int)
    ensures HoldsHalves(k, mem, u) <==> NeededHalves(mem, u) <= k
    ensures NeededMem(Load(u.peakMem, mem)) == NeededHalves(mem, u) as real / 2.0
  {
    var n := Load(u.peakMem, mem) * 2.0;
    CeilIsLeast((if n < 0.5 then 0.5 else n) * 2.0, k);
  }

  /** Cores shrink exactly when the peak is within the threshold and fewer would do; then to
      the least number that does. */
  lemma CoresShrinkExactly(th: Thresholds, vcpus: int, u: Utilization)
    ensures NewVCPUs(th, vcpus, u) <= vcpus
    ensures NewVCPUs(th, vcpus, u) < vcpus <==> u.peakCPU <= th.oversizedCPU && SparesCores(vcpus, u)
    ensures NewVCPUs(th, vcpus, u) < vcpus ==>
      HoldsCores(NewVCPUs(th, vcpus, u), vcpus, u) &&
      forall c :: 1 <= c < NewVCPUs(th, vcpus, u) ==> !HoldsCores(c, vcpus, u)
  {
    forall c
      ensures HoldsCores(c, vcpus, u) <==> NeededVCPUs(Load(u.peakCPU, vcpus as real)) <= c
    {
      NeededVCPUsIsLeast(vcpus, u, c);
    }
    var needed := NeededVCPUs(Load(u.peakCPU, vcpus as real));
    assert HoldsCores(needed, vcpus, u);
  }

  /** Memory shrinks exactly when it was measured, the peak is within the threshold and a
      smaller number of half GiB would do; then to the least that does. */
  lemma MemShrinksExactly(th: Thresholds, mem: real, u: Utilization)
    ensures NewMem(th, mem, u) <= mem
    ensures NewMem(th, mem, u) < mem <==> 0.0 < u.peakMem <= th.oversizedMem && SparesHalves(mem, u)
    ensures NewMem(th, mem, u) < mem ==> exists k ::
      NewMem(th, mem, u) == k as real / 2.0 && HoldsHalves(k, mem, u) && forall j :: 1 <= j < k ==> !HoldsHalves(j, mem, u)
  {
    forall k
      ensures HoldsHalves(k, mem, u) <==> NeededHalves(mem, u) <= k
    {
      NeededMemIsLeast(mem, u, k);
    }
    var needed := NeededHalves(mem, u);
    NeededMemIsLeast(mem, u, needed);
    assert HoldsHalves(needed, mem, u);
    if NewMem(th, mem, u) < mem {
      assert NewMem(th, mem, u) == needed as real / 2.0;
    }
  }

  /** A dimension is slack when its peak is within the oversized threshold and a smaller size
      would do. */
  ghost predicate SlackCores(th: Thresholds, e: Entity, u: Utilization) {
    u.peakCPU <= th.oversizedCPU && SparesCores(e.vcpus, u)
  }

  ghost predicate SlackMem(th: Thresholds, e: Entity, u: Utilization) {
    0.0 < u.peakMem <= th.oversizedMem && SparesHalves(e.memoryGB, u)
  }

  predicate Measured(th: Thresholds, input: Input) {
    input.cost.entity.running && input.util.samples >= th.minSamples
  }

  predicate AllIdle(th: Thresholds, u: Utilization) {
    u.peakCPU <= th.idleCPU && u.peakMem <= th.idleMem
  }

  /** Which verdict an entity gets: idle exactly when both peaks are within the idle
      thresholds, oversized exactly when it is not idle and some dimension is slack, and none
      otherwise; too few samples or a stopped entity never give one. */
  lemma VerdictExactly(rc: RateCard, raw: Thresholds, input: Input)
    ensures
      var th, e, u := raw.Normalize(), input.cost.entity, input.util;
      var verdict := Advise(rc, th, input);
      (verdict.Some? && verdict.value.kind == Idle <==> Measured(th, input) && AllIdle(th, u)) &&
      (verdict.Some? && verdict.value.kind == Oversized <==>
         Measured(th, input) && !AllIdle(th, u) && (SlackCores(th, e, u) || SlackMem(th, e, u)))
  {
    var th := raw.Normalize();
    NormalizedThresholds(raw);
    CoresShrinkExactly(th, input.cost.entity.vcpus, input.util);
    MemShrinksExactly(th, input.cost.entity.memoryGB, input.util);
  }

  /** The sizes an oversized verdict suggests: each slack dimension at the least size that
      holds twice its peak, and the others as they are. */
  lemma SuggestedSizeIsLeast(rc: RateCard, th: Thresholds, input: Input)
    requires Advise(rc, th, input).Some? && Advise(rc, th, input).value.kind == Oversized
    ensures
      var r, e, u := Advise(rc, th, input).value, input.cost.entity, input.util;
      (if SlackCores(th, e, u)
       then HoldsCores(r.suggestedVCPUs, e.vcpus, u) && forall c :: 1 <= c < r.suggestedVCPUs ==> !HoldsCores(c, e.vcpus, u)
       else r.suggestedVCPUs == e.vcpus) &&
      (if SlackMem(th, e, u)
       then exists k :: r.suggestedMemGB == k as real / 2.0 && LeastHalves(k, e.memoryGB, u)
       else r.suggestedMemGB == e.memoryGB)
  {
    var e, u := input.cost.entity, input.util;
    CoresShrinkExactly(th, e.vcpus, u);
    MemShrinksExactly(th, e.memoryGB, u);
    if NewMem(th, e.memoryGB, u) < e.memoryGB {
      var k :| NewMem(th, e.memoryGB, u) == k as real / 2.0 && HoldsHalves(k, e.memoryGB, u) &&
        forall j :: 1 <= j < k ==> !HoldsHalves(j, e.memoryGB, u);
      assert LeastHalves(k, e.memoryGB, u);
    }
  }

  ghost predicate LeastHalves(k: int, mem: real, u: Utilization) {
    HoldsHalves(k, mem, u) && forall j :: 1 <= j < k ==> !HoldsHalves(j, mem, u)
  }

  /** The savings are the price of the entity as it is less its price in the suggested size,
      or less its price when stopped if it is idle; the verdict is about that entity. */
  lemma SavingsAreThePriceDifference(card: RateCard, th: Thresholds, input: Input)
    requires Priced(card, input.cost) && Advise(card.Normalize(), th, input).Some?
    ensures
      var r, e := Advise(card.Normalize(), th, input).value, input.cost.entity;
      var after := if r.kind == Idle then e.(running := false) else e.(vcpus := r.suggestedVCPUs, memoryGB := r.suggestedMemGB);
      r.cost == input.cost && r.util == input.util && r.currentMonthly == EstimateCost(card, e).monthlyCost &&
      r.projectedMonthly == EstimateCost(card, after).monthlyCost &&
      r.monthlySavings == r.currentMonthly - r.projectedMonthly
  {
    var r, e := Advise(card.Normalize(), th, input).value, input.cost.entity;
    PricesAreNonNegative(card, e);
    var smaller := e.(vcpus := r.suggestedVCPUs, memoryGB := r.suggestedMemGB);
    NormalizeOnce(card, smaller);
    PriceDependsOnAllocation(card.Normalize(), Resized(e, r.suggestedVCPUs, r.suggestedMemGB), smaller);
  }

  /** Recommendations come with the largest savings first, and equal ones by entity id. */
  lemma SavingsDescend(recs: seq<Recommendation>, i: nat, j: nat)
    requires Ordered(recs, RankOf) && i < j < |recs|
    ensures recs[i].monthlySavings >= recs[j].monthlySavings
    ensures recs[i].monthlySavings == recs[j].monthlySavings && recs[i].cost.entity.id != recs[j].cost.entity.id ==>
      Less(recs[i].cost.entity.id, recs[j].cost.entity.id)
  {
    OrderedMeans(recs, RankOf, i, j);
  }

  /** Every entity with a verdict is listed, and nothing else. */
  lemma {:induction false} AdvisedExactly(rc: RateCard, th: Thresholds, inputs: seq<Input>, r: Recommendation)
    ensures r in Advised(rc, th, inputs) <==> exists i :: 0 <= i < |inputs| && Advise(rc, th, inputs[i]) == Some(r)
  {
    if |inputs| > 0 {
      var front := inputs[..|inputs| - 1];
      AdvisedExactly(rc, th, front, r);
      assert forall i :: 0 <= i < |front| ==> front[i] == inputs[i];
      if i :| 0 <= i < |inputs| && Advise(rc, th, inputs[i]) == Some(r) {
        if i < |front| {
          assert Advise(rc, th, front[i]) == Some(r);
        }
      }
    }
  }

  /** An idle entity is to be reclaimed as a whole. */
  lemma IdleSuggestsNothing(rc: RateCard, th: Thresholds, input: Input)
    requires Advise(rc, th, input).Some? && Advise(rc, th, input).value.kind == Idle
    ensures Advise(rc, th, input).value.suggestedVCPUs == 0 && Advise(rc, th, input).value.suggestedMemGB == 0.0
  {}
}
