/** Prices: the rate card and the cost of one entity. Floating point is modelled by reals. */
module Costs {
  const HOURS_PER_MONTH: real := 730.0

  datatype RateCard = RateCard(
    currency: string,
    vcpuHour: real,
    gbRamHour: real,
    gbStorageMonth: real,
    containerVcpuHour: real,
    containerGbRamHour: real)
  {
    /** Negative rates count as zero, and an empty container rate falls back on the VM's. */
    function Normalize(): RateCard {
      var vcpu, ram := Clamp(vcpuHour), Clamp(gbRamHour);
      RateCard(
        if currency == "" then "USD" else currency,
        vcpu,
        ram,
        Clamp(gbStorageMonth),
        if Clamp(containerVcpuHour) == 0.0 then vcpu else Clamp(containerVcpuHour),
        if Clamp(containerGbRamHour) == 0.0 then ram else Clamp(containerGbRamHour))
    }

    function StorageHour(): real {
      gbStorageMonth / HOURS_PER_MONTH
    }
  }

  function Clamp(rate: real): real {
    if rate < 0.0 then 0.0 else rate
  }

  datatype Breakdown = Breakdown(cpuHour: real, ramHour: real, storageHour: real) {
    function Total(): real {
      cpuHour + ramHour + storageHour
    }
  }

  datatype Entity = Entity(
    id: string,
    name: string,
    domain: string,
    kind: string,
    provider: string,
    host: string,
    cluster: string,
    running: bool,
    vcpus: int,
    memoryGB: real,
    storageGB: real)

  datatype EntityCost = EntityCost(entity: Entity, breakdown: Breakdown, hourlyCost: real, monthlyCost: real)

  function Monthly(c: EntityCost): real {
    c.monthlyCost
  }

  function CpuRate(rc: RateCard, domain: string): real {
    if domain == "container" then rc.containerVcpuHour else rc.vcpuHour
  }

  function RamRate(rc: RateCard, domain: string): real {
    if domain == "container" then rc.containerGbRamHour else rc.gbRamHour
  }

  function Price(rc: RateCard, e: Entity): Breakdown {
    Breakdown(
      if e.running then e.vcpus as real * CpuRate(rc, e.domain) else 0.0,
      if e.running then e.memoryGB * RamRate(rc, e.domain) else 0.0,
      e.storageGB * rc.StorageHour())
  }

  function EstimateCost(card: RateCard, e: Entity): EntityCost {
    var bd := Price(card.Normalize(), e);
    EntityCost(e, bd, bd.Total(), bd.Total() * HOURS_PER_MONTH)
  }

  predicate Sane(e: Entity) {
    e.vcpus >= 0 && e.memoryGB >= 0.0 && e.storageGB >= 0.0
  }

  lemma NormalizeTwice(card: RateCard)
    ensures card.Normalize().Normalize() == card.Normalize()
  {}

  /** Normalizing twice changes nothing, so a price does not depend on whether the card
      handed over was normalized already. */
  lemma NormalizeOnce(card: RateCard, e: Entity)
    ensures card.Normalize().Normalize() == card.Normalize()
    ensures EstimateCost(card.Normalize(), e) == EstimateCost(card, e)
  {
    NormalizeTwice(card);
  }

  lemma RatesAreNonNegative(card: RateCard, domain: string)
    ensures
      var rc := card.Normalize();
      CpuRate(rc, domain) >= 0.0 && RamRate(rc, domain) >= 0.0 && rc.gbStorageMonth >= 0.0 && rc.StorageHour() >= 0.0
  {}

  lemma Product(x: real, y: real)
    requires x >= 0.0 && y >= 0.0
    ensures x * y >= 0.0
  {}

  lemma ProductMonotone(x: real, y: real, rate: real)
    requires x <= y && rate >= 0.0
    ensures x * rate <= y * rate
  {
    Product(y - x, rate);
    assert (y - x) * rate == y * rate - x * rate;
  }

  lemma SharesAreNonNegative(card: RateCard, e: Entity)
    requires Sane(e)
    ensures
      var bd := Price(card.Normalize(), e);
      bd.cpuHour >= 0.0 && bd.ramHour >= 0.0 && bd.storageHour >= 0.0
  {
    var rc := card.Normalize();
    RatesAreNonNegative(card, e.domain);
    Product(e.vcpus as real, CpuRate(rc, e.domain));
    Product(e.memoryGB, RamRate(rc, e.domain));
    Product(e.storageGB, rc.StorageHour());
  }

  /** No price is negative, whatever the card says; the storage share alone is what a
      stopped entity still costs. */
  lemma PricesAreNonNegative(card: RateCard, e: Entity)
    requires Sane(e)
    ensures
      var c := EstimateCost(card, e);
      c.monthlyCost >= c.breakdown.storageHour * HOURS_PER_MONTH >= 0.0 &&
      EstimateCost(card, e.(running := false)).monthlyCost == c.breakdown.storageHour * HOURS_PER_MONTH
  {
    SharesAreNonNegative(card, e);
    var bd := Price(card.Normalize(), e);
    Product(bd.storageHour, HOURS_PER_MONTH);
    ProductMonotone(bd.storageHour, bd.Total(), HOURS_PER_MONTH);
  }

  /** Giving an entity less never makes it dearer. */
  lemma SmallerIsNotDearer(card: RateCard, e: Entity, vcpus: int, memoryGB: real)
    requires vcpus <= e.vcpus && memoryGB <= e.memoryGB
    ensures EstimateCost(card, e.(vcpus := vcpus, memoryGB := memoryGB)).monthlyCost <= EstimateCost(card, e).monthlyCost
  {
    var rc := card.Normalize();
    RatesAreNonNegative(card, e.domain);
    ProductMonotone(vcpus as real, e.vcpus as real, CpuRate(rc, e.domain));
    ProductMonotone(memoryGB, e.memoryGB, RamRate(rc, e.domain));
    var small, large := Price(rc, e.(vcpus := vcpus, memoryGB := memoryGB)), Price(rc, e);
    assert small.cpuHour <= large.cpuHour;
    assert small.ramHour <= large.ramHour;
    assert small.storageHour == large.storageHour;
    TotalMonotone(small, large);
    ProductMonotone(small.Total(), large.Total(), HOURS_PER_MONTH);
  }

  lemma TotalMonotone(small: Breakdown, large: Breakdown)
    requires small.cpuHour <= large.cpuHour && small.ramHour <= large.ramHour && small.storageHour <= large.storageHour
    ensures small.Total() <= large.Total()
  {}

  /** Only the domain, the running state and the allocation enter a price. */
  lemma PriceDependsOnAllocation(card: RateCard, e: Entity, f: Entity)
    requires e.domain == f.domain && e.running == f.running && e.vcpus == f.vcpus
    requires e.memoryGB == f.memoryGB && e.storageGB == f.storageGB
    ensures EstimateCost(card, e) == EstimateCost(card, f).(entity := e)
  {}
  /** The hourly rate for a core or a GiB that a card grants an entity: containers have
      their own where it is positive, everything else pays the VM's; never less than zero. */
  function RateFor(domain: string, rate: real, containerRate: real): real {
    if domain == "container" && containerRate > 0.0 then containerRate else if rate > 0.0 then rate else 0.0
  }

  /** What an entity costs a month: 730 hours of its cores and memory while it runs, and its
      storage at the monthly rate whether it runs or not. */
  lemma MonthlyPrice(card: RateCard, e: Entity)
    ensures
      var cores := e.vcpus as real * RateFor(e.domain, card.vcpuHour, card.containerVcpuHour);
      var memory := e.memoryGB * RateFor(e.domain, card.gbRamHour, card.containerGbRamHour);
      var storage := e.storageGB * if card.gbStorageMonth > 0.0 then card.gbStorageMonth else 0.0;
      var c := EstimateCost(card, e);
      c.entity == e && c.monthlyCost == c.hourlyCost * 730.0 &&
      (e.running ==> c.breakdown.cpuHour == cores && c.breakdown.ramHour == memory) &&
      c.monthlyCost == (if e.running then 730.0 * (cores + memory) else 0.0) + storage
  {
    var rc := card.Normalize();
    RatesPaid(card, e.domain);
    StorageMonth(e.storageGB, rc.gbStorageMonth);
    var cpu := if e.running then e.vcpus as real * CpuRate(rc, e.domain) else 0.0;
    var ram := if e.running then e.memoryGB * RamRate(rc, e.domain) else 0.0;
    AddUp(cpu, ram, e.storageGB * (rc.gbStorageMonth / HOURS_PER_MONTH));
  }

  lemma RatesPaid(card: RateCard, domain: string)
    ensures CpuRate(card.Normalize(), domain) == RateFor(domain, card.vcpuHour, card.containerVcpuHour)
    ensures RamRate(card.Normalize(), domain) == RateFor(domain, card.gbRamHour, card.containerGbRamHour)
    ensures card.Normalize().gbStorageMonth == if card.gbStorageMonth > 0.0 then card.gbStorageMonth else 0.0
  {}

  lemma AddUp(cpu: real, ram: real, storage: real)
    ensures (cpu + ram + storage) * 730.0 == 730.0 * (cpu + ram) + storage * 730.0
  {}

  lemma StorageMonth(gb: real, rate: real)
    ensures gb * (rate / HOURS_PER_MONTH) * 730.0 == gb * rate
  {
    assert rate / HOURS_PER_MONTH * 730.0 == rate;
    assert gb * (rate / HOURS_PER_MONTH) * 730.0 == gb * (rate / HOURS_PER_MONTH * 730.0);
  }
}
