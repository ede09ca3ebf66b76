/** The engine's input and output records (types.ts). The figures that the
    source passes through Math.round carry their unrounded values here. */
module Types {

  /** An optional value. */
  datatype Option<T> = None | Some(value: T)

  /** The plan parameters: ages in whole years, the monthly expense in
      today's currency, and the two annual rates as percentages (3.0 is 3%). */
  datatype FinancialParams = FinancialParams(
    currentAge: int,
    retirementAge: int,
    deathAge: int,
    monthlyExpense: real,
    inflationRate: real,
    investmentReturnRate: real)

  /** The geometric monthly equivalents (1 + annual/100)^(1/12) - 1 of the
      inflation rate and of the investment return rate. The fractional power
      is computed by the caller; the engine only compounds them. */
  datatype MonthlyRates = MonthlyRates(inflation: real, ret: real)

  /** One year of the drawdown (retirement) phase. */
  datatype SimulationYear = SimulationYear(
    age: int,
    expenses: real,
    portfolioStart: real,
    portfolioEnd: real,
    isRetired: bool)

  /** One year of the accumulation (working) phase. */
  datatype AccumulationPoint = AccumulationPoint(
    age: int,
    totalWealth: real,
    totalPrincipal: real,
    totalInterest: real,
    monthlySavings: real,
    salaryGrowthRate: real)

  /** One sample of the retirement-age sensitivity curve. */
  datatype TrendPoint = TrendPoint(
    retirementAge: int,
    requiredWealthPV: real,
    requiredWealthNominal: real,
    savingsPressure: real)

  /** The bundle handed to the presentation layer. */
  datatype CalculationResult = CalculationResult(
    requiredWealth: real,
    requiredWealthPV: real,
    firstYearSavingsMonthly: real,
    simulationData: seq<SimulationYear>,
    accumulationData: seq<AccumulationPoint>,
    trendData: seq<TrendPoint>,
    fireSuccess: bool)
}
