/** The top-level plan: the drawdown solver fixes the capital needed at
    retirement, the accumulation solver finds the savings that reach it,
    and the optional sensitivity curve samples other retirement ages. */
module Fire {
  import opened Types
  import opened RetirementNeeds
  import opened Accumulation
  import opened Trend

  /** The options argument: `includeTrend` may be absent. */
  datatype Options = Options(includeTrend: Option<bool>)

  /** The options used when the caller passes none. */
  function DefaultOptions(): Options
  {
    Options(Some(true))
  }

  /** The curve is computed only when `includeTrend` is present and true. */
  function TrendRequested(options: Options): (b: bool)
    ensures b <==> options.includeTrend == Some(true)
  {
    match options.includeTrend
    case Some(flag) => flag
    case None => false
  }

  /** calculateFIRE as a function of its inputs. The monthly rates are the
      monthly equivalents of params.inflationRate and
      params.investmentReturnRate. */
  function FirePlan(params: FinancialParams, rates: MonthlyRates, options: Options): CalculationResult
    requires 1.0 + params.inflationRate / 100.0 != 0.0
  {
    var needs := RequiredCapital(params.currentAge, params.retirementAge, params.deathAge, params.monthlyExpense,
                                 params.inflationRate, rates);
    var path := AccumulationSpec(params.currentAge, params.retirementAge, needs.nominal, params.inflationRate, rates.ret);
    var trend := if TrendRequested(options)
                 then TrendAnalysis(params.currentAge, params.deathAge, params.monthlyExpense, params.inflationRate, rates)
                 else [];
    CalculationResult(needs.nominal, needs.pv, path.initialMonthlySavings, needs.simulation,
                      path.accumulationData, trend, path.success)
  }

  /** calculateFIRE: the drawdown solver, then the accumulation solver aimed at
      its capital, then the curve when requested. */
  method CalculateFire(params: FinancialParams, rates: MonthlyRates, options: Options) returns (r: CalculationResult)
    requires 1.0 + params.inflationRate / 100.0 != 0.0
    ensures r == FirePlan(params, rates, options)
  {
    var needs := CalculateRetirementNeeds(params.currentAge, params.retirementAge, params.deathAge,
                                          params.monthlyExpense, params.inflationRate, rates);
    var path := CalculateAccumulationPath(params.currentAge, params.retirementAge, needs.nominal,
                                          params.inflationRate, rates.ret);
    var trendData: seq<TrendPoint> := [];
    if TrendRequested(options) {
      trendData := CalculateTrendAnalysis(params.currentAge, params.deathAge, params.monthlyExpense,
                                          params.inflationRate, rates);
    }
    r := CalculationResult(needs.nominal, needs.pv, path.initialMonthlySavings, needs.simulation,
                           path.accumulationData, trendData, path.success);
  }

  /** Without options the curve is computed; with an options object that
      leaves includeTrend out, or sets it false, it is not. */
  lemma TrendOptionDefaults()
    ensures TrendRequested(DefaultOptions())
    ensures !TrendRequested(Options(None))
    ensures !TrendRequested(Options(Some(false)))
  {
  }

  /** The curve is empty unless requested, and is the full sensitivity curve
      when it is; requesting it changes nothing else in the plan. */
  lemma TrendIsOptional(params: FinancialParams, rates: MonthlyRates, options: Options)
    requires 1.0 + params.inflationRate / 100.0 != 0.0
    ensures var r := FirePlan(params, rates, options);
            && (!TrendRequested(options) ==> r.trendData == [])
            && (TrendRequested(options) ==>
                  r.trendData == TrendAnalysis(params.currentAge, params.deathAge, params.monthlyExpense,
                                               params.inflationRate, rates))
            && r.(trendData := []) == FirePlan(params, rates, Options(None)).(trendData := [])
  {
  }

  /** The two phases meet: with retirement in the future and a positive
      monthly growth factor the plan succeeds, the accumulation trace runs
      from the current age to the retirement age starting from nothing, and
      it ends with exactly the capital the drawdown trace starts from. */
  lemma PhasesMeet(params: FinancialParams, rates: MonthlyRates, options: Options)
    requires 1.0 + params.inflationRate / 100.0 > 0.0
    requires 1.0 + rates.ret > 0.0
    requires params.currentAge < params.retirementAge <= params.deathAge
    ensures var r := FirePlan(params, rates, options);
            var years := params.retirementAge - params.currentAge;
            && r.fireSuccess
            && |r.accumulationData| == years + 1
            && r.accumulationData[0].age == params.currentAge
            && r.accumulationData[0].totalWealth == 0.0
            && r.accumulationData[years].age == params.retirementAge
            && |r.simulationData| == params.deathAge - params.retirementAge + 1
            && r.simulationData[0].age == params.retirementAge
            && r.accumulationData[years].totalWealth == r.requiredWealth == r.simulationData[0].portfolioStart
  {
    var needs := RequiredCapital(params.currentAge, params.retirementAge, params.deathAge, params.monthlyExpense,
                                 params.inflationRate, rates);
    AccumulationSucceeds(params.currentAge, params.retirementAge, needs.nominal, params.inflationRate, rates.ret);
    AccumulationPathShape(params.currentAge, params.retirementAge, needs.nominal, params.inflationRate, rates.ret);
    DrawdownTraceShape(needs.nominal,
                       RetirementStartExpense(params.currentAge, params.retirementAge, params.monthlyExpense, rates.inflation),
                       params.retirementAge, params.deathAge, rates.inflation, rates.ret);
  }
}
