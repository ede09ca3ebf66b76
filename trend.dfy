/** The retirement-age sensitivity curve: for every candidate retirement age
    from 30 to 65 that still lies in the future, the capital needed (nominal
    and in today's money) and the initial monthly savings that reach it. */
module Trend {
  import opened Numeric
  import opened Types
  import opened RetirementNeeds
  import opened Accumulation

  /** The first and last retirement ages sampled (the range of the age slider). */
  const FirstAge: int := 30
  const LastAge: int := 65

  /** The earliest sampled age that is still after the current age. */
  function FirstSampledAge(currentAge: int): int
  {
    Max(FirstAge, currentAge + 1)
  }

  /** The sample for one retirement age: both solvers run with the same
      inputs, the accumulation solver aiming at the capital just found. */
  function TrendPointAt(currentAge: int, retirementAge: int, deathAge: int, monthlyExpense: real,
                        inflationRate: real, rates: MonthlyRates): TrendPoint
    requires 1.0 + inflationRate / 100.0 != 0.0
  {
    var needs := RequiredCapital(currentAge, retirementAge, deathAge, monthlyExpense, inflationRate, rates);
    var path := AccumulationSpec(currentAge, retirementAge, needs.nominal, inflationRate, rates.ret);
    TrendPoint(retirementAge, needs.pv, needs.nominal, path.initialMonthlySavings)
  }

  /** How many ages the curve samples: from FirstSampledAge to LastAge. */
  function SampleCount(currentAge: int): nat
  {
    if currentAge >= LastAge then 0 else LastAge + 1 - FirstSampledAge(currentAge)
  }

  /** The first n samples: sample k is for the retirement age
      FirstSampledAge + k. */
  function TrendPrefix(currentAge: int, n: nat, deathAge: int, monthlyExpense: real,
                       inflationRate: real, rates: MonthlyRates): seq<TrendPoint>
    requires 1.0 + inflationRate / 100.0 != 0.0
  {
    seq(n, k => TrendPointAt(currentAge, FirstSampledAge(currentAge) + k, deathAge, monthlyExpense, inflationRate, rates))
  }

  /** calculateTrendAnalysis as a function of its inputs. */
  function TrendAnalysis(currentAge: int, deathAge: int, monthlyExpense: real,
                         inflationRate: real, rates: MonthlyRates): seq<TrendPoint>
    requires 1.0 + inflationRate / 100.0 != 0.0
  {
    TrendPrefix(currentAge, SampleCount(currentAge), deathAge, monthlyExpense, inflationRate, rates)
  }

  /** calculateTrendAnalysis: the loop over the candidate retirement ages
      30 .. 65, skipping those not after the current age. */
  method CalculateTrendAnalysis(currentAge: int, deathAge: int, monthlyExpense: real,
                                inflationRate: real, rates: MonthlyRates) returns (points: seq<TrendPoint>)
    requires 1.0 + inflationRate / 100.0 != 0.0
    ensures points == TrendAnalysis(currentAge, deathAge, monthlyExpense, inflationRate, rates)
  {
    ghost var lo := FirstSampledAge(currentAge);
    ghost var count: nat := 0;
    points := [];
    var rAge := FirstAge;
    while rAge <= LastAge
      invariant FirstAge <= rAge <= LastAge + 1
      invariant count == (if rAge <= lo then 0 else rAge - lo)
      invariant points == TrendPrefix(currentAge, count, deathAge, monthlyExpense, inflationRate, rates)
    {
      if rAge > currentAge {
        var needs := CalculateRetirementNeeds(currentAge, rAge, deathAge, monthlyExpense, inflationRate, rates);
        var path := CalculateAccumulationPath(currentAge, rAge, needs.nominal, inflationRate, rates.ret);
        var sample := TrendPoint(rAge, needs.pv, needs.nominal, path.initialMonthlySavings);
        assert sample == TrendPointAt(currentAge, lo + count, deathAge, monthlyExpense, inflationRate, rates);
        TrendPrefixStep(currentAge, count, count + 1, deathAge, monthlyExpense, inflationRate, rates);
        points := points + [sample];
        count := count + 1;
      }
      rAge := rAge + 1;
    }
  }

  /** One more sample extends the curve by the sample for the next age. */
  lemma TrendPrefixStep(currentAge: int, n: nat, m: nat, deathAge: int, monthlyExpense: real,
                        inflationRate: real, rates: MonthlyRates)
    requires 1.0 + inflationRate / 100.0 != 0.0
    requires m == n + 1
    ensures TrendPrefix(currentAge, m, deathAge, monthlyExpense, inflationRate, rates)
         == TrendPrefix(currentAge, n, deathAge, monthlyExpense, inflationRate, rates)
            + [TrendPointAt(currentAge, FirstSampledAge(currentAge) + n, deathAge, monthlyExpense, inflationRate, rates)]
  {
    var longer := TrendPrefix(currentAge, m, deathAge, monthlyExpense, inflationRate, rates);
    var shorter := TrendPrefix(currentAge, n, deathAge, monthlyExpense, inflationRate, rates);
    forall k | 0 <= k < n
      ensures longer[k] == shorter[k]
    {
      assert longer[k] == TrendPointAt(currentAge, FirstSampledAge(currentAge) + k, deathAge, monthlyExpense, inflationRate, rates);
    }
  }

  /** Whether the curve has a sample for retirement age `a`. */
  ghost predicate Sampled(t: seq<TrendPoint>, a: int)
  {
    exists i :: 0 <= i < |t| && t[i].retirementAge == a
  }

  /** The sampled retirement ages are strictly increasing, lie within
      30 .. 65 and are all later than the current age, and every such age is
      sampled: the curve is empty once the current age is 65 or more and has
      36 samples for anyone younger than 30. */
  lemma TrendAges(currentAge: int, deathAge: int, monthlyExpense: real,
                  inflationRate: real, rates: MonthlyRates)
    requires 1.0 + inflationRate / 100.0 != 0.0
    ensures var t := TrendAnalysis(currentAge, deathAge, monthlyExpense, inflationRate, rates);
            && (forall i, j :: 0 <= i < j < |t| ==> t[i].retirementAge < t[j].retirementAge)
            && (forall i :: 0 <= i < |t| ==>
                  FirstAge <= t[i].retirementAge <= LastAge && t[i].retirementAge > currentAge)
            && (forall a :: FirstAge <= a <= LastAge && a > currentAge <==> Sampled(t, a))
            && (currentAge >= LastAge ==> t == [])
            && (currentAge < FirstAge ==> |t| == 36)
  {
    var t := TrendAnalysis(currentAge, deathAge, monthlyExpense, inflationRate, rates);
    var lo := FirstSampledAge(currentAge);
    forall i | 0 <= i < |t|
      ensures t[i].retirementAge == lo + i
    {
      assert t[i] == TrendPointAt(currentAge, lo + i, deathAge, monthlyExpense, inflationRate, rates);
    }
    forall a | FirstAge <= a <= LastAge && a > currentAge
      ensures Sampled(t, a)
    {
      assert t[a - lo].retirementAge == a;
    }
  }

  /** Each sample's nominal figure is the drawdown solver's capital for its
      retirement age, its present value is that capital deflated by annual
      inflation over the years to that age, and its savings pressure is the
      initial monthly savings the accumulation solver finds for that capital. */
  lemma TrendPointValues(currentAge: int, deathAge: int, monthlyExpense: real,
                         inflationRate: real, rates: MonthlyRates, k: int)
    requires 1.0 + inflationRate / 100.0 != 0.0
    requires 0 <= k < SampleCount(currentAge)
    ensures var p := TrendAnalysis(currentAge, deathAge, monthlyExpense, inflationRate, rates)[k];
            var a := FirstSampledAge(currentAge) + k;
            var needs := RequiredCapital(currentAge, a, deathAge, monthlyExpense, inflationRate, rates);
            && p.retirementAge == a
            && p.requiredWealthNominal == needs.nominal
            && p.requiredWealthPV == needs.pv
            && p.savingsPressure
               == AccumulationSpec(currentAge, a, needs.nominal, inflationRate, rates.ret).initialMonthlySavings
  {
    var a := FirstSampledAge(currentAge) + k;
    assert TrendAnalysis(currentAge, deathAge, monthlyExpense, inflationRate, rates)[k]
        == TrendPointAt(currentAge, a, deathAge, monthlyExpense, inflationRate, rates);
  }
}
