/** `optimizeModel`: the single-constraint reduction that shrinks a model's
    volume down to the minimum-volume constraint and reports the weight and
    cost that this saves. */
module Optimizer {
  import opened Wrappers
  import opened Three
  import opened Types
  import opened Metrics
  import opened VectorLaws

  /** `Math.max` on reals. */
  function Max(a: real, b: real): (m: real)
    ensures a <= m && b <= m && (m == a || m == b)
  {
    if a < b then b else a
  }

  /** The volume removed: whatever lies above the minimum volume. */
  function VolumeReduction(volume: real, minVolume: real): (dv: real)
    ensures 0.0 <= dv && (volume <= minVolume ==> dv == 0.0) && (minVolume < volume ==> volume - dv == minVolume)
  {
    Max(0.0, volume - minVolume)
  }

  /** The weight of the removed volume of material. */
  function WeightSavings(volumeReduction: real, material: Material): real {
    volumeReduction * material.density
  }

  /** The cost of the removed volume of material, computed as the source
      does: reduction × density × unit cost. */
  function CostSavings(volumeReduction: real, material: Material): real {
    volumeReduction * material.density * material.cost
  }

  /** `optimizeModel`: the volume drops by max(0, V - minVolume), the weight
      by that much material and the cost by that much weight; `maxCost`,
      `maxWeight` and the material constraints are never read, and the
      returned trace is empty. The savings percentage divides by the
      original cost without a guard; for a zero cost the result is not a
      finite number, which `None` stands for. */
  function OptimizeModel(metrics: ModelMetrics, constraints: OptimizationConstraints, material: Material)
    : (r: OptimizationResult)
    ensures r.originalMetrics == metrics
    ensures r.optimizedMetrics.volume == if metrics.volume <= constraints.minVolume then metrics.volume else constraints.minVolume
    ensures 0.0 <= r.savings.material == metrics.volume - r.optimizedMetrics.volume
    ensures r.optimizedMetrics.weight == metrics.weight - r.savings.material * material.density
    ensures r.savings.cost == (r.savings.material * material.density) * material.cost
    ensures r.optimizedMetrics.cost == metrics.cost - r.savings.cost
    ensures r.savings.percentage.None? <==> metrics.cost == 0.0
    ensures r.savings.percentage.Some? ==> r.savings.percentage.value * metrics.cost == r.savings.cost * 100.0
    ensures r.optimizedMetrics.surfaceArea == metrics.surfaceArea
    ensures r.optimizedMetrics.dimensions == metrics.dimensions
    ensures r.recommendations == [ReduceVolume(r.savings.material),
                                  PotentialCostSavings(r.savings.cost),
                                  WeightReduction(r.savings.material * material.density, material.unit)]
    ensures r.steps == []
  {
    var volumeReduction := VolumeReduction(metrics.volume, constraints.minVolume);
    var costSavings := CostSavings(volumeReduction, material);
    var weightSavings := WeightSavings(volumeReduction, material);
    var optimizedMetrics := metrics.(
      volume := metrics.volume - volumeReduction,
      weight := metrics.weight - weightSavings,
      cost := metrics.cost - costSavings);
    var savingsPercentage := if metrics.cost == 0.0 then None else Some((costSavings / metrics.cost) * 100.0);
    OptimizationResult(
      metrics,
      optimizedMetrics,
      Savings(costSavings, volumeReduction, savingsPercentage),
      [ReduceVolume(volumeReduction),
       PotentialCostSavings(costSavings),
       WeightReduction(weightSavings, material.unit)],
      [])
  }

  /** Already at or below the minimum volume: nothing changes and every
      saving is zero (the percentage too, unless the cost is zero). */
  lemma AlreadyOptimal(metrics: ModelMetrics, constraints: OptimizationConstraints, material: Material)
    requires metrics.volume <= constraints.minVolume
    ensures OptimizeModel(metrics, constraints, material).optimizedMetrics == metrics
    ensures var s := OptimizeModel(metrics, constraints, material).savings;
      s.cost == 0.0 && s.material == 0.0 && (metrics.cost != 0.0 ==> s.percentage == Some(0.0))
  {
  }

  /** Above the minimum volume: the optimized volume is exactly the minimum. */
  lemma ReducesToMinimum(metrics: ModelMetrics, constraints: OptimizationConstraints, material: Material)
    requires constraints.minVolume < metrics.volume
    ensures OptimizeModel(metrics, constraints, material).optimizedMetrics.volume == constraints.minVolume
    ensures OptimizeModel(metrics, constraints, material).savings.material == metrics.volume - constraints.minVolume > 0.0
  {
  }

  /** Only `minVolume` of the constraints is read. */
  lemma OnlyMinVolumeMatters(metrics: ModelMetrics, c1: OptimizationConstraints, c2: OptimizationConstraints, material: Material)
    requires c1.minVolume == c2.minVolume
    ensures OptimizeModel(metrics, c1, material) == OptimizeModel(metrics, c2, material)
  {
  }

  /** With a non-negative density and unit cost, nothing grows: volume,
      weight and cost of the optimized model are at most the originals and
      the cost saving is non-negative. */
  lemma NothingGrows(metrics: ModelMetrics, constraints: OptimizationConstraints, material: Material)
    requires 0.0 <= material.density && 0.0 <= material.cost
    ensures var r := OptimizeModel(metrics, constraints, material);
      0.0 <= r.savings.cost &&
      r.optimizedMetrics.volume <= metrics.volume &&
      r.optimizedMetrics.weight <= metrics.weight &&
      r.optimizedMetrics.cost <= metrics.cost
  {
    var r := OptimizeModel(metrics, constraints, material);
    ProductNonNegative(r.savings.material, material.density);
    ProductNonNegative(r.savings.material * material.density, material.cost);
  }

  /** Metrics priced with the material stay priced with it after optimization:
      the weight and cost removed are exactly those of the volume removed. */
  lemma KeepsPricing(metrics: ModelMetrics, constraints: OptimizationConstraints, material: Material)
    requires PricedWith(metrics, material)
    ensures PricedWith(OptimizeModel(metrics, constraints, material).optimizedMetrics, material)
  {
    var r := OptimizeModel(metrics, constraints, material);
    var v, d, c := metrics.volume, material.density, material.cost;
    var dv := r.savings.material;
    SubFactor(v, dv, d);
    SubFactor(v * d, dv * d, c);
  }

  /** Optimizing an optimized model again saves nothing. */
  lemma OptimizeTwice(metrics: ModelMetrics, constraints: OptimizationConstraints, material: Material)
    ensures var once := OptimizeModel(metrics, constraints, material).optimizedMetrics;
      OptimizeModel(once, constraints, material).optimizedMetrics == once &&
      OptimizeModel(once, constraints, material).savings.cost == 0.0 &&
      OptimizeModel(once, constraints, material).savings.material == 0.0
  {
    var once := OptimizeModel(metrics, constraints, material).optimizedMetrics;
    AlreadyOptimal(once, constraints, material);
  }

  /** For priced metrics of non-zero cost the savings percentage is the
      share of the volume removed. */
  lemma PercentageIsVolumeShare(metrics: ModelMetrics, constraints: OptimizationConstraints, material: Material)
    requires metrics.cost != 0.0 && PricedWith(metrics, material)
    ensures metrics.volume != 0.0
    ensures var r := OptimizeModel(metrics, constraints, material);
      r.savings.percentage == Some(r.savings.material / metrics.volume * 100.0)
  {
    var r := OptimizeModel(metrics, constraints, material);
    var v, d, c, dv := metrics.volume, material.density, material.cost, r.savings.material;
    assert metrics.cost == (v * d) * c && r.savings.cost == (dv * d) * c;
    ShareFromProduct(r.savings.percentage.value, dv, v, d, c);
  }

  /** Helper: p × (v·d·c) = (dv·d·c) × 100 with v and d·c non-zero gives p = dv / v × 100. */
  lemma ShareFromProduct(p: real, dv: real, v: real, d: real, c: real)
    requires v != 0.0 && d * c != 0.0 && p * ((v * d) * c) == ((dv * d) * c) * 100.0
    ensures p == dv / v * 100.0
  {
    var k := d * c;
    assert (v * d) * c == v * k && (dv * d) * c == dv * k;
    assert (p * v) * k == (dv * 100.0) * k;
    assert p * v == dv * 100.0;
  }

  /** Priced metrics of zero cost (an empty model, a free or weightless
      material): no cost is saved and the percentage is not a finite number. */
  lemma ZeroCostReport(metrics: ModelMetrics, constraints: OptimizationConstraints, material: Material)
    requires PricedWith(metrics, material) && metrics.cost == 0.0 && 0.0 <= constraints.minVolume
    ensures var r := OptimizeModel(metrics, constraints, material);
      r.savings.cost == 0.0 && r.savings.percentage.None?
  {
    var r := OptimizeModel(metrics, constraints, material);
    var v, d, c, dv := metrics.volume, material.density, material.cost, r.savings.material;
    assert (v * d) * c == 0.0;
    assert v == 0.0 || d == 0.0 || c == 0.0;
    assert v == 0.0 ==> dv == 0.0;
  }
}
