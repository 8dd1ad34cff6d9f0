/** The application's records: materials, metrics, constraints, calculation
    steps and optimization results. */
module Types {
  import opened Wrappers
  import opened Three

  datatype Unit = Kg | Lb

  datatype Material = Material(name: string, cost: real, density: real, unit: Unit)

  datatype ModelMetrics = ModelMetrics(
    volume: real,
    surfaceArea: real,
    weight: real,
    cost: real,
    dimensions: Vector3)

  datatype OptimizationConstraints = OptimizationConstraints(
    maxCost: real,
    minVolume: real,
    maxWeight: real,
    materialConstraints: seq<Material>)

  /** An entry of a step's optional `intermediateSteps` list. */
  datatype SubStep = SubStep(formula: string, description: string, result: real)

  datatype CalculationStep = CalculationStep(
    formula: string,
    description: string,
    result: real,
    intermediateSteps: seq<SubStep>)

  /** `percentage` is `None` where the source's division by a zero original
      cost yields a non-finite number (NaN or an infinity). */
  datatype Savings = Savings(cost: real, material: real, percentage: Option<real>)

  /** The three recommendation lines, kept as the amounts they print. */
  datatype Recommendation =
    | ReduceVolume(cubicUnits: real)
    | PotentialCostSavings(units: real)
    | WeightReduction(amount: real, unit: Unit)

  datatype OptimizationResult = OptimizationResult(
    originalMetrics: ModelMetrics,
    optimizedMetrics: ModelMetrics,
    savings: Savings,
    recommendations: seq<Recommendation>,
    steps: seq<CalculationStep>)

  /** The material both the store and the dashboard start from ("Baja"). */
  const DefaultMaterial := Material("Baja", 5.0, 7.85, Kg)

  /** The constraints both the store and the dashboard start from. */
  const DefaultConstraints := OptimizationConstraints(1000.0, 100.0, 500.0, [])
}
