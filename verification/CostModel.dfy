/**
 Simulated compute cost (cpp/src/cost_model.cpp) in 64-bit arithmetic: the newtype makes every
 intermediate value an overflow obligation.
 */
module CostModel {
  import opened Arithmetic

  newtype int64 = x: int | -0x8000_0000_0000_0000 <= x < 0x8000_0000_0000_0000

  const MAX: int64 := 0x7FFF_FFFF_FFFF_FFFF

  type Cost = c: int64 | c >= 0

  type Units = n: int | 0 <= n <= 0xFFFF_FFFF_FFFF_FFFF

  datatype CostModelConfig = CostModelConfig(
    prefillFixed: int64,
    prefillPerToken: int64,
    decodeFixed: int64,
    decodePerSequence: int64,
    jitterBasisPoints: nat)

  /** What the constructor accepts; anything else throws. */
  predicate ConfigOk(c: CostModelConfig) {
    && c.prefillFixed >= 0 && c.prefillPerToken >= 0 && c.decodeFixed >= 0 && c.decodePerSequence >= 0
    && c.jitterBasisPoints <= 10_000
  }

  lemma ProductFits(room: nat, perUnit: nat, units: nat)
    requires perUnit > 0
    ensures units <= room / perUnit <==> perUnit * units <= room
    ensures units <= perUnit * units
  {
    var q := room / perUnit;
    QuotientBounds(room, perUnit);
    MulMonotone(units, 1, perUnit);
    if units <= q {
      MulMonotone(perUnit, units, q);
    } else {
      MulMonotone(perUnit, q + 1, units);
    }
  }

  /** static_cast<int64_t> of an unsigned count. */
  function Wrap(units: Units): int64 {
    if units <= MAX as int then units as int64 else (units - 0x1_0000_0000_0000_0000) as int64
  }

  /** The guarded product: no intermediate value leaves the 64-bit range. */
  function SaturatingCost(fixed: Cost, perUnit: Cost, units: Units): Cost {
    if perUnit > 0 && units > ((MAX - fixed) / perUnit) as int then MAX
    else
      assert perUnit > 0 ==> 0 <= perUnit as int * Wrap(units) as int <= (MAX - fixed) as int by {
        if perUnit > 0 {
          ProductFits((MAX - fixed) as int, perUnit as int, units);
        }
      }
      fixed + perUnit * Wrap(units)
  }

  /** SaturatingCost is the mathematical cost, capped at the largest duration. */
  lemma SaturatingCostIs(fixed: Cost, perUnit: Cost, units: Units)
    ensures SaturatingCost(fixed, perUnit, units) as int == Min(MAX as int, fixed as int + perUnit as int * units)
  {
    if perUnit > 0 {
      ProductFits((MAX - fixed) as int, perUnit as int, units);
    }
  }

  /** Scaling quotient and remainder apart is scaling the whole, and no intermediate value is large. */
  lemma SplitScaling(base: nat, m: nat)
    requires m <= 10_000
    ensures (base / 10_000) * m + ((base % 10_000) * m) / 10_000 == (base * m) / 10_000
    ensures 0 <= (base / 10_000) * m <= (base * m) / 10_000 <= base
    ensures 0 <= (base % 10_000) * m <= 100_000_000
  {
    var q, r := base / 10_000, base % 10_000;
    var x, y := q * m, r * m;
    assert base * m == 10_000 * x + y by {
      assert base == 10_000 * q + r;
      assert (10_000 * q + r) * m == 10_000 * (q * m) + r * m;
    }
    ShiftQuotient(x, y);
    MulMonotone(base, m, 10_000);
    MulMonotone(r, m, 10_000);
    MulMonotone(10_000, r, 10_000);
  }

  lemma ShiftQuotient(x: nat, y: nat)
    ensures (10_000 * x + y) / 10_000 == x + y / 10_000
  {
  }

  /** floor(base * m / 10000) from the split quotient and remainder. */
  function Delta(base: Cost, m: int64): Cost
    requires 0 <= m <= 10_000
  {
    SplitScaling(base as int, m as int);
    (base / 10_000) * m + (base % 10_000) * m / 10_000
  }

  lemma DeltaIs(base: Cost, m: int64)
    requires 0 <= m <= 10_000
    ensures Delta(base, m) as int == base as int * m as int / 10_000
    ensures Delta(base, m) <= base
  {
    SplitScaling(base as int, m as int);
  }

  /** The cost for one draw of the generator. */
  function Jittered(base: Cost, jitterBasisPoints: nat, draw: int64): Cost
    requires jitterBasisPoints <= 10_000 && draw as int <= jitterBasisPoints && -(draw as int) <= jitterBasisPoints
  {
    if jitterBasisPoints == 0 || base == MAX then base
    else
      var delta := Delta(base, if draw < 0 then -draw else draw);
      DeltaIs(base, if draw < 0 then -draw else draw);
      if draw < 0 then base - delta
      else if delta > MAX - base then MAX
      else base + delta
  }

  /** Jitter moves a finite cost by exactly floor(base * |draw| / 10000), capped at the largest duration. */
  lemma JitteredIs(base: Cost, jitterBasisPoints: nat, draw: int64)
    requires jitterBasisPoints <= 10_000 && draw as int <= jitterBasisPoints && -(draw as int) <= jitterBasisPoints
    ensures base == MAX ==> Jittered(base, jitterBasisPoints, draw) == MAX
    ensures base < MAX && draw < 0 ==>
      Jittered(base, jitterBasisPoints, draw) as int == base as int - base as int * -(draw as int) / 10_000
    ensures base < MAX && draw >= 0 ==>
      Jittered(base, jitterBasisPoints, draw) as int == Min(MAX as int, base as int + base as int * draw as int / 10_000)
  {
    DeltaIs(base, if draw < 0 then -draw else draw);
  }

  lemma ShareMonotone(base: nat, x: nat, m: nat)
    requires x <= m
    ensures 0 <= base * x / 10_000 <= base * m / 10_000
  {
    MulMonotone(base, x, m);
    QuotientMonotone(base * x, base * m);
  }

  lemma QuotientMonotone(a: nat, b: nat)
    requires a <= b
    ensures a / 10_000 <= b / 10_000
  {
  }

  class DeterministicCostModel {
    const config: CostModelConfig

    constructor (config: CostModelConfig)
      requires ConfigOk(config)
      ensures this.config == config
    {
      this.config := config;
    }

    ghost predicate InBand(base: Cost, cost: Cost)
      requires ConfigOk(config)
    {
      exists draw: int64 | draw as int <= config.jitterBasisPoints && -(draw as int) <= config.jitterBasisPoints ::
        cost == Jittered(base, config.jitterBasisPoints, draw)
    }

    /** Every cost in the band is within floor(base * jitter / 10000) of its base. */
    lemma BandBounds(base: Cost, cost: Cost)
      requires ConfigOk(config) && InBand(base, cost)
      ensures var d := base as int * config.jitterBasisPoints / 10_000;
        base as int - d <= cost as int <= base as int + d
    {
      hide Jittered;
      var m := config.jitterBasisPoints;
      var draw: int64 :| draw as int <= m && -(draw as int) <= m && cost == Jittered(base, m, draw);
      JitteredIs(base, m, draw);
      ShareMonotone(base as int, if draw < 0 then -(draw as int) else draw as int, m);
    }

    method ApplyJitter(base: Cost) returns (cost: Cost)
      requires ConfigOk(config)
      ensures InBand(base, cost)
    {
      hide Jittered;
      var m := config.jitterBasisPoints;
      var draw: int :| -10_000 <= draw <= 10_000 && draw <= m && 0 <= draw + m;
      cost := Jittered(base, m, draw as int64);
    }

    method Prefill(uncachedPromptTokens: Units) returns (cost: Cost)
      requires ConfigOk(config)
      ensures InBand(SaturatingCost(config.prefillFixed, config.prefillPerToken, uncachedPromptTokens), cost)
    {
      hide SaturatingCost, Jittered;
      cost := ApplyJitter(SaturatingCost(config.prefillFixed, config.prefillPerToken, uncachedPromptTokens));
    }

    method DecodeStep(activeSequences: Units) returns (cost: Cost)
      requires ConfigOk(config)
      ensures InBand(SaturatingCost(config.decodeFixed, config.decodePerSequence, activeSequences), cost)
    {
      hide SaturatingCost, Jittered;
      cost := ApplyJitter(SaturatingCost(config.decodeFixed, config.decodePerSequence, activeSequences));
    }
  }
}
