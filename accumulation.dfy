/** The accumulation solver: the initial monthly savings that, growing with
    the wage curve each year and compounding monthly at the investment
    return, reach the target capital at retirement; then a month-by-month
    replay that produces a year-by-year trace.

    The specification functions take the monthly growth factor
    (1 + monthlyReturn) as `growth`, and the wage multiplier of every month
    as a sequence `wages`. */
module Accumulation {
  import opened Numeric
  import opened Types
  import opened WageGrowth

  /** The solver's output: initial monthly savings, the yearly trace and
      whether a finite savings rate was found. */
  datatype AccumulationPath = AccumulationPath(initialMonthlySavings: real,
                                               accumulationData: seq<AccumulationPoint>,
                                               success: bool)

  /** One year's nominal wage growth factor at a given age: real growth
      compounded with annual inflation (a percentage). */
  function YearFactor(age: int, inflationRate: real): real
  {
    1.0 + ((1.0 + RealWageGrowthRate(age)) * (1.0 + inflationRate / 100.0) - 1.0)
  }

  /** The wage multiplier in force during year k of the working phase (months
      12k .. 12k+11): the growth factors of the ages currentAge+1 .. currentAge+k. */
  function WageMultiplier(currentAge: int, inflationRate: real, k: nat): real
    decreases k
  {
    if k == 0 then 1.0
    else WageMultiplier(currentAge, inflationRate, k - 1) * YearFactor(currentAge + k, inflationRate)
  }

  /** The wage multiplier in force in each of the first totalMonths months:
      month m falls in working year m / 12. */
  function MonthlyWages(currentAge: int, inflationRate: real, totalMonths: nat): seq<real>
  {
    seq(totalMonths, m requires 0 <= m < totalMonths => WageMultiplier(currentAge, inflationRate, m / 12))
  }

  /** The sum of the discount factors of the first n months of a horizon of
      totalMonths. Month m's factor is its wage multiplier times the growth
      over the totalMonths - 1 - m months after its end-of-month contribution. */
  function DiscountSum(wages: seq<real>, growth: real, totalMonths: nat, n: nat): real
    requires n <= totalMonths <= |wages|
    decreases n
  {
    if n == 0 then 0.0
    else DiscountSum(wages, growth, totalMonths, n - 1) + wages[n - 1] * Pow(growth, totalMonths - n)
  }

  /** One month of growth at the monthly growth factor. */
  function Grow(balance: real, growth: real): real
  {
    balance * growth
  }

  /** A month's contribution: the initial savings rate scaled by the wage multiplier. */
  function Contribution(savings: real, wageMultiplier: real): real
  {
    savings * wageMultiplier
  }

  /** The replayed balance after n months: grow, then add the month's
      contribution, the savings rate times that month's wage multiplier. */
  function ReplayWealth(wages: seq<real>, growth: real, savings: real, n: nat): real
    requires n <= |wages|
    decreases n
  {
    if n == 0 then 0.0
    else Grow(ReplayWealth(wages, growth, savings, n - 1), growth) + Contribution(savings, wages[n - 1])
  }

  /** The contributions paid in over the first n months. */
  function ReplayPrincipal(wages: seq<real>, savings: real, n: nat): real
    requires n <= |wages|
    decreases n
  {
    if n == 0 then 0.0
    else ReplayPrincipal(wages, savings, n - 1) + Contribution(savings, wages[n - 1])
  }

  /** The record pushed for a year: wealth, principal, the interest as
      wealth minus principal, and the real wage growth of that age in percent. */
  function YearRecord(age: int, wealth: real, principal: real, monthlySavings: real): AccumulationPoint
  {
    AccumulationPoint(age, wealth, principal, wealth - principal, monthlySavings,
                      RealWageGrowthRate(age) * 100.0)
  }

  /** The record of year y, taken after 12y months of the replay; its savings
      figure uses the multiplier already stepped up for age currentAge + y. */
  function PointAt(currentAge: int, inflationRate: real, wages: seq<real>, growth: real, savings: real,
                   y: nat): AccumulationPoint
    requires 12 * y <= |wages|
  {
    YearRecord(currentAge + y, ReplayWealth(wages, growth, savings, 12 * y),
               ReplayPrincipal(wages, savings, 12 * y),
               Contribution(savings, WageMultiplier(currentAge, inflationRate, y)))
  }

  /** The records of years 0 .. count - 1. */
  function Points(currentAge: int, inflationRate: real, wages: seq<real>, growth: real, savings: real,
                  count: nat): seq<AccumulationPoint>
    requires 12 * (count - 1) <= |wages|
    decreases count
  {
    if count == 0 then []
    else Points(currentAge, inflationRate, wages, growth, savings, count - 1)
         + [PointAt(currentAge, inflationRate, wages, growth, savings, count - 1)]
  }

  /** calculateAccumulationPath as a function of its inputs. When the
      discount-factor sum is 0 the quotient has no real value; the savings
      rate is then reported as 0 and the path as unsuccessful. */
  function AccumulationSpec(currentAge: int, retirementAge: int, targetWealth: real, inflationRate: real,
                            monthlyReturn: real): AccumulationPath
  {
    var yearsToGrow := retirementAge - currentAge;
    if yearsToGrow <= 0 then AccumulationPath(0.0, [], true)
    else
      var totalMonths := yearsToGrow * 12;
      var wages := MonthlyWages(currentAge, inflationRate, totalMonths);
      var sum := DiscountSum(wages, 1.0 + monthlyReturn, totalMonths, totalMonths);
      var savings := if sum != 0.0 then targetWealth / sum else 0.0;
      AccumulationPath(savings, Points(currentAge, inflationRate, wages, 1.0 + monthlyReturn, savings, yearsToGrow + 1),
                       sum != 0.0)
  }

  /** The solver loop: the discount-factor sum over yearsToGrow * 12 months,
      with the wage multiplier stepped up at every twelfth month. */
  method ComputeDiscountFactorSum(currentAge: int, yearsToGrow: nat, inflationRate: real, monthlyReturn: real)
    returns (discountFactorSum: real)
    ensures discountFactorSum == DiscountSum(MonthlyWages(currentAge, inflationRate, yearsToGrow * 12),
                                             1.0 + monthlyReturn, yearsToGrow * 12, yearsToGrow * 12)
  {
    discountFactorSum := 0.0;
    var currentWageMultiplier := 1.0;
    var totalMonths := yearsToGrow * 12;
    ghost var wages := MonthlyWages(currentAge, inflationRate, totalMonths);
    for m := 0 to totalMonths
      invariant currentWageMultiplier == WageMultiplier(currentAge, inflationRate, if m == 0 then 0 else (m - 1) / 12)
      invariant discountFactorSum == DiscountSum(wages, 1.0 + monthlyReturn, totalMonths, m)
    {
      currentWageMultiplier := UpdateWageMultiplier(currentAge, inflationRate, m, currentWageMultiplier);
      var monthsUntilRetirement := totalMonths - 1 - m;
      var growthFactor := Pow(1.0 + monthlyReturn, monthsUntilRetirement);
      MonthlyWageAt(currentAge, inflationRate, totalMonths, m, currentWageMultiplier);
      DiscountSumStep(wages, 1.0 + monthlyReturn, totalMonths, m, currentWageMultiplier, growthFactor);
      discountFactorSum := discountFactorSum + currentWageMultiplier * growthFactor;
    }
  }

  /** The solver's yearly step: at every twelfth month m > 0 the multiplier
      grows by the nominal wage growth of age currentAge + m / 12; in other
      months it is kept. */
  method UpdateWageMultiplier(currentAge: int, inflationRate: real, m: nat, currentWageMultiplier: real)
    returns (w: real)
    requires currentWageMultiplier == WageMultiplier(currentAge, inflationRate, if m == 0 then 0 else (m - 1) / 12)
    ensures w == WageMultiplier(currentAge, inflationRate, m / 12)
  {
    w := currentWageMultiplier;
    if m > 0 && m % 12 == 0 {
      var currentYearAge := currentAge + m / 12;
      var realGrowth := RealWageGrowthRate(currentYearAge);
      var annualNominalGrowth := (1.0 + realGrowth) * (1.0 + inflationRate / 100.0) - 1.0;
      assert (m - 1) / 12 == m / 12 - 1;
      WageMultiplierStep(currentAge, inflationRate, m / 12, w, annualNominalGrowth);
      w := w * (1.0 + annualNominalGrowth);
    } else if m > 0 {
      assert (m - 1) / 12 == m / 12;
    }
  }

  /** Stepping the wage multiplier up by the nominal growth of age currentAge + k. */
  lemma {:induction false} WageMultiplierStep(currentAge: int, inflationRate: real, k: nat, w: real,
                                              annualNominalGrowth: real)
    requires k > 0
    requires w == WageMultiplier(currentAge, inflationRate, k - 1)
    requires annualNominalGrowth == (1.0 + RealWageGrowthRate(currentAge + k)) * (1.0 + inflationRate / 100.0) - 1.0
    ensures w * (1.0 + annualNominalGrowth) == WageMultiplier(currentAge, inflationRate, k)
  {
  }

  /** Month m's entry in the monthly wages is its year's multiplier. */
  lemma {:induction false} MonthlyWageAt(currentAge: int, inflationRate: real, totalMonths: nat, m: nat, w: real)
    requires m < totalMonths
    requires w == WageMultiplier(currentAge, inflationRate, m / 12)
    ensures |MonthlyWages(currentAge, inflationRate, totalMonths)| == totalMonths
    ensures MonthlyWages(currentAge, inflationRate, totalMonths)[m] == w
  {
  }

  /** The sum of the first m + 1 factors, from month m's two parts as the loop computes them. */
  lemma {:induction false} DiscountSumStep(wages: seq<real>, growth: real, totalMonths: nat, m: nat,
                                           w: real, growthFactor: real)
    requires m < totalMonths <= |wages|
    requires w == wages[m]
    requires growthFactor == Pow(growth, totalMonths - 1 - m)
    ensures DiscountSum(wages, growth, totalMonths, m + 1) == DiscountSum(wages, growth, totalMonths, m) + w * growthFactor
  {
    assert totalMonths - (m + 1) == totalMonths - 1 - m;
  }

  /** One more month of the replay (month k, reaching k1 = k + 1 months), contributing at multiplier w. */
  lemma {:induction false} ReplayStep(wages: seq<real>, growth: real, savings: real, k: nat, k1: nat, w: real)
    requires k1 == k + 1 <= |wages|
    requires w == wages[k]
    ensures ReplayWealth(wages, growth, savings, k1)
         == Grow(ReplayWealth(wages, growth, savings, k), growth) + Contribution(savings, w)
    ensures ReplayPrincipal(wages, savings, k1) == ReplayPrincipal(wages, savings, k) + Contribution(savings, w)
  {
  }

  /** Every month of year y - 1 is paid at the wage multiplier of that year. */
  lemma {:induction false} YearWages(currentAge: int, inflationRate: real, wages: seq<real>, y: nat)
    requires wages == MonthlyWages(currentAge, inflationRate, |wages|)
    requires y > 0 && 12 * y <= |wages|
    ensures forall k :: 12 * (y - 1) <= k < 12 * y ==> wages[k] == WageMultiplier(currentAge, inflationRate, y - 1)
  {
    forall k | 12 * (y - 1) <= k < 12 * y
      ensures wages[k] == WageMultiplier(currentAge, inflationRate, y - 1)
    {
      assert k / 12 == y - 1;
    }
  }

  /** The inner loop of a replay year: `months` months (twelve at the call
      site) from month `first` on, each growing the balance and then paying
      in the savings rate times the wage multiplier w of that year. */
  method ContributeMonths(ghost wages: seq<real>, growth: real, savings: real, ghost first: nat, months: nat, w: real,
                          startBalance: real, startPrincipal: real)
    returns (currentBalance: real, totalPrincipal: real)
    requires first + months <= |wages|
    requires forall k :: first <= k < first + months ==> wages[k] == w
    requires startBalance == ReplayWealth(wages, growth, savings, first)
    requires startPrincipal == ReplayPrincipal(wages, savings, first)
    ensures currentBalance == ReplayWealth(wages, growth, savings, first + months)
    ensures totalPrincipal == ReplayPrincipal(wages, savings, first + months)
  {
    currentBalance, totalPrincipal := startBalance, startPrincipal;
    for m := 0 to months
      invariant currentBalance == ReplayWealth(wages, growth, savings, first + m)
      invariant totalPrincipal == ReplayPrincipal(wages, savings, first + m)
    {
      ghost var k: nat := first + m;
      ghost var k1: nat := k + 1;
      assert wages[k] == w;
      ReplayStep(wages, growth, savings, k, k1, w);
      var monthlyContribution := Contribution(savings, w);
      currentBalance := Grow(currentBalance, growth);
      currentBalance := currentBalance + monthlyContribution;
      totalPrincipal := totalPrincipal + monthlyContribution;
    }
  }

  /** The body of a replay year y >= 1: the twelve months of year y - 1 at
      that year's wage multiplier, then the multiplier stepped up for age
      currentAge + y. */
  method ReplayYear(currentAge: int, inflationRate: real, monthlyReturn: real, savings: real, y: nat,
                    ghost wages: seq<real>, startBalance: real, startPrincipal: real, startWageMult: real)
    returns (currentBalance: real, totalPrincipal: real, wageMult: real)
    requires y > 0 && 12 * y <= |wages|
    requires forall k :: 12 * (y - 1) <= k < 12 * y ==> wages[k] == startWageMult
    requires startBalance == ReplayWealth(wages, 1.0 + monthlyReturn, savings, 12 * (y - 1))
    requires startPrincipal == ReplayPrincipal(wages, savings, 12 * (y - 1))
    requires startWageMult == WageMultiplier(currentAge, inflationRate, y - 1)
    ensures currentBalance == ReplayWealth(wages, 1.0 + monthlyReturn, savings, 12 * y)
    ensures totalPrincipal == ReplayPrincipal(wages, savings, 12 * y)
    ensures wageMult == WageMultiplier(currentAge, inflationRate, y)
  {
    ghost var first: nat := 12 * (y - 1);
    assert first + 12 == 12 * y;
    currentBalance, totalPrincipal := ContributeMonths(wages, 1.0 + monthlyReturn, savings, first, 12, startWageMult,
                                                       startBalance, startPrincipal);
    var realGrowth := RealWageGrowthRate(currentAge + y);
    var annualNominalGrowth := (1.0 + realGrowth) * (1.0 + inflationRate / 100.0) - 1.0;
    WageMultiplierStep(currentAge, inflationRate, y, startWageMult, annualNominalGrowth);
    wageMult := startWageMult * (1.0 + annualNominalGrowth);
  }

  /** The number of completed years before the replay reaches iteration y
      (0 at y = 0 and at y = 1). */
  function YearsBefore(y: nat): nat
  {
    if y == 0 then 0 else y - 1
  }

  /** Year y's record from the replay's running figures after 12y months. */
  lemma {:induction false} PointAtParts(currentAge: int, inflationRate: real, wages: seq<real>, growth: real,
                                        savings: real, y: nat, wealth: real, principal: real, w: real)
    requires 12 * y <= |wages|
    requires wealth == ReplayWealth(wages, growth, savings, 12 * y)
    requires principal == ReplayPrincipal(wages, savings, 12 * y)
    requires w == WageMultiplier(currentAge, inflationRate, y)
    ensures YearRecord(currentAge + y, wealth, principal, Contribution(savings, w))
         == PointAt(currentAge, inflationRate, wages, growth, savings, y)
  {
  }

  lemma {:induction false} PointsStep(currentAge: int, inflationRate: real, wages: seq<real>, growth: real,
                                      savings: real, count: nat)
    requires 12 * count <= |wages|
    ensures Points(currentAge, inflationRate, wages, growth, savings, count + 1)
         == Points(currentAge, inflationRate, wages, growth, savings, count)
            + [PointAt(currentAge, inflationRate, wages, growth, savings, count)]
  {
  }

  /** The replay loop: year 0 is the starting snapshot; each later year runs
      twelve months at that year's wage multiplier, then steps the multiplier
      up for the age reached. */
  method ReplayAccumulation(currentAge: int, yearsToGrow: nat, savings: real, inflationRate: real, monthlyReturn: real)
    returns (accumulationData: seq<AccumulationPoint>)
    ensures accumulationData == Points(currentAge, inflationRate, MonthlyWages(currentAge, inflationRate, yearsToGrow * 12),
                                       1.0 + monthlyReturn, savings, yearsToGrow + 1)
  {
    ghost var wages := MonthlyWages(currentAge, inflationRate, yearsToGrow * 12);
    assert |wages| == yearsToGrow * 12;
    accumulationData := [];
    var totalPrincipal := 0.0;
    var currentBalance := 0.0;
    var wageMult := 1.0;
    for y := 0 to yearsToGrow + 1
      invariant wageMult == WageMultiplier(currentAge, inflationRate, YearsBefore(y))
      invariant currentBalance == ReplayWealth(wages, 1.0 + monthlyReturn, savings, 12 * YearsBefore(y))
      invariant totalPrincipal == ReplayPrincipal(wages, savings, 12 * YearsBefore(y))
      invariant accumulationData == Points(currentAge, inflationRate, wages, 1.0 + monthlyReturn, savings, y)
    {
      var age := currentAge + y;
      if y > 0 {
        YearWages(currentAge, inflationRate, wages, y);
        currentBalance, totalPrincipal, wageMult := ReplayYear(currentAge, inflationRate, monthlyReturn, savings, y,
                                                               wages, currentBalance, totalPrincipal, wageMult);
      }
      var point := YearRecord(age, currentBalance, totalPrincipal, Contribution(savings, wageMult));
      PointAtParts(currentAge, inflationRate, wages, 1.0 + monthlyReturn, savings, y, currentBalance, totalPrincipal, wageMult);
      PointsStep(currentAge, inflationRate, wages, 1.0 + monthlyReturn, savings, y);
      accumulationData := accumulationData + [point];
    }
  }

  /** calculateAccumulationPath: solver, savings rate, replay. */
  method CalculateAccumulationPath(currentAge: int, retirementAge: int, targetWealth: real, inflationRate: real,
                                   monthlyReturn: real) returns (r: AccumulationPath)
    ensures r == AccumulationSpec(currentAge, retirementAge, targetWealth, inflationRate, monthlyReturn)
  {
    var yearsToGrow := retirementAge - currentAge;
    if yearsToGrow <= 0 {
      return AccumulationPath(0.0, [], true);
    }
    var discountFactorSum := ComputeDiscountFactorSum(currentAge, yearsToGrow, inflationRate, monthlyReturn);
    var initialMonthlySavings := if discountFactorSum != 0.0 then targetWealth / discountFactorSum else 0.0;
    var accumulationData := ReplayAccumulation(currentAge, yearsToGrow, initialMonthlySavings, inflationRate, monthlyReturn);
    r := AccumulationPath(initialMonthlySavings, accumulationData, discountFactorSum != 0.0);
  }

  /** The records: one per year, in order. */
  lemma {:induction false} PointsAt(currentAge: int, inflationRate: real, wages: seq<real>, growth: real, savings: real,
                                    count: nat, k: nat)
    requires 12 * (count - 1) <= |wages|
    requires k < count
    ensures |Points(currentAge, inflationRate, wages, growth, savings, count)| == count
    ensures Points(currentAge, inflationRate, wages, growth, savings, count)[k]
         == PointAt(currentAge, inflationRate, wages, growth, savings, k)
    decreases count
  {
    PointsLength(currentAge, inflationRate, wages, growth, savings, count - 1);
    if k < count - 1 {
      PointsAt(currentAge, inflationRate, wages, growth, savings, count - 1, k);
    }
  }

  lemma {:induction false} PointsLength(currentAge: int, inflationRate: real, wages: seq<real>, growth: real,
                                        savings: real, count: nat)
    requires 12 * (count - 1) <= |wages|
    ensures |Points(currentAge, inflationRate, wages, growth, savings, count)| == count
    decreases count
  {
    if count > 0 {
      PointsLength(currentAge, inflationRate, wages, growth, savings, count - 1);
    }
  }

  /** The replay is the solver's sum scaled: after n of the totalMonths
      months, the savings rate times the partial discount sum equals the
      replayed balance grown over the totalMonths - n months still to come. */
  lemma {:induction false} ReplayScalesDiscountSum(wages: seq<real>, growth: real, savings: real,
                                                   totalMonths: nat, n: nat)
    requires n <= totalMonths <= |wages|
    ensures savings * DiscountSum(wages, growth, totalMonths, n)
         == ReplayWealth(wages, growth, savings, n) * Pow(growth, totalMonths - n)
    decreases n
  {
    if n > 0 {
      var m: nat := n - 1;
      ReplayScalesDiscountSum(wages, growth, savings, totalMonths, m);
      ReplayScalesStep(wages, growth, savings, totalMonths, m, n);
    }
  }

  /** Month m of ReplayScalesDiscountSum, with n = m + 1. */
  lemma {:induction false} ReplayScalesStep(wages: seq<real>, growth: real, savings: real, totalMonths: nat,
                                            m: nat, n: nat)
    requires n == m + 1 <= totalMonths <= |wages|
    requires savings * DiscountSum(wages, growth, totalMonths, m)
          == ReplayWealth(wages, growth, savings, m) * Pow(growth, totalMonths - m)
    ensures savings * DiscountSum(wages, growth, totalMonths, n)
         == ReplayWealth(wages, growth, savings, n) * Pow(growth, totalMonths - n)
  {
    DiscountSumUnfold(wages, growth, totalMonths, m, n);
    ReplayWealthUnfold(wages, growth, savings, m, n);
    PowLastMonth(growth, totalMonths, m, n);
    calc {
      savings * DiscountSum(wages, growth, totalMonths, n);
      savings * DiscountSum(wages, growth, totalMonths, m) + savings * (wages[m] * Pow(growth, totalMonths - n));
      ReplayWealth(wages, growth, savings, m) * Pow(growth, totalMonths - m)
        + savings * (wages[m] * Pow(growth, totalMonths - n));
      ReplayWealth(wages, growth, savings, m) * (growth * Pow(growth, totalMonths - n))
        + savings * (wages[m] * Pow(growth, totalMonths - n));
      (ReplayWealth(wages, growth, savings, m) * growth + savings * wages[m]) * Pow(growth, totalMonths - n);
      ReplayWealth(wages, growth, savings, n) * Pow(growth, totalMonths - n);
    }
  }

  lemma {:induction false} DiscountSumUnfold(wages: seq<real>, growth: real, totalMonths: nat, m: nat, n: nat)
    requires n == m + 1 <= totalMonths <= |wages|
    ensures DiscountSum(wages, growth, totalMonths, n)
         == DiscountSum(wages, growth, totalMonths, m) + wages[m] * Pow(growth, totalMonths - n)
  {
  }

  lemma {:induction false} ReplayWealthUnfold(wages: seq<real>, growth: real, savings: real, m: nat, n: nat)
    requires n == m + 1 <= |wages|
    ensures ReplayWealth(wages, growth, savings, n) == ReplayWealth(wages, growth, savings, m) * growth + savings * wages[m]
  {
  }

  /** Growth from month m is one month's growth times the growth from month n = m + 1. */
  lemma {:induction false} PowLastMonth(x: real, totalMonths: nat, m: nat, n: nat)
    requires n == m + 1 <= totalMonths
    ensures Pow(x, totalMonths - m) == x * Pow(x, totalMonths - n)
  {
    PowStep(x, totalMonths - n);
  }

  /** The replay reaches the target: with the savings rate target / sum, the
      balance after all totalMonths months is the target itself. */
  lemma {:induction false} ReplayReachesTarget(wages: seq<real>, growth: real, savings: real, targetWealth: real,
                                               totalMonths: nat)
    requires totalMonths <= |wages|
    requires DiscountSum(wages, growth, totalMonths, totalMonths) != 0.0
    requires savings == targetWealth / DiscountSum(wages, growth, totalMonths, totalMonths)
    ensures ReplayWealth(wages, growth, savings, totalMonths) == targetWealth
  {
    ReplayScalesDiscountSum(wages, growth, savings, totalMonths, totalMonths);
    assert Pow(growth, totalMonths - totalMonths) == 1.0;
  }

  /** With a positive nominal inflation factor, every wage multiplier is
      positive, and at least 1 when inflation is not negative. */
  lemma {:induction false} WageMultiplierPositive(currentAge: int, inflationRate: real, k: nat)
    requires 1.0 + inflationRate / 100.0 > 0.0
    ensures WageMultiplier(currentAge, inflationRate, k) > 0.0
    ensures inflationRate >= 0.0 ==> WageMultiplier(currentAge, inflationRate, k) >= 1.0
    decreases k
  {
    if k > 0 {
      WageMultiplierPositive(currentAge, inflationRate, k - 1);
      var g := RealWageGrowthRate(currentAge + k);
      var f := 1.0 + inflationRate / 100.0;
      assert YearFactor(currentAge + k, inflationRate) == (1.0 + g) * f;
      assert (1.0 + g) * f > 0.0;
      if inflationRate >= 0.0 {
        assert (1.0 + g) * f >= 1.0;
        assert WageMultiplier(currentAge, inflationRate, k - 1) * ((1.0 + g) * f)
            >= WageMultiplier(currentAge, inflationRate, k - 1);
      }
    }
  }

  /** Under non-negative inflation the wage multiplier never falls from one year to the next. */
  lemma {:induction false} WageMultiplierNonDecreasing(currentAge: int, inflationRate: real, k: nat)
    requires inflationRate >= 0.0
    ensures WageMultiplier(currentAge, inflationRate, k + 1) >= WageMultiplier(currentAge, inflationRate, k)
  {
    WageMultiplierPositive(currentAge, inflationRate, k);
    var g := RealWageGrowthRate(currentAge + k + 1);
    assert (1.0 + g) * (1.0 + inflationRate / 100.0) >= 1.0;
  }

  /** With a positive nominal inflation factor every month's wage multiplier is positive. */
  lemma {:induction false} MonthlyWagesPositive(currentAge: int, inflationRate: real, totalMonths: nat)
    requires 1.0 + inflationRate / 100.0 > 0.0
    ensures forall m :: 0 <= m < totalMonths ==> MonthlyWages(currentAge, inflationRate, totalMonths)[m] > 0.0
  {
    forall m | 0 <= m < totalMonths
      ensures MonthlyWages(currentAge, inflationRate, totalMonths)[m] > 0.0
    {
      WageMultiplierPositive(currentAge, inflationRate, m / 12);
    }
  }

  /** With a positive growth factor and positive monthly wages every
      month's discount factor is positive, so any non-empty horizon has a
      positive sum. */
  lemma {:induction false} DiscountSumPositive(wages: seq<real>, growth: real, totalMonths: nat, n: nat)
    requires n <= totalMonths <= |wages|
    requires growth > 0.0
    requires forall m :: 0 <= m < |wages| ==> wages[m] > 0.0
    ensures n > 0 ==> DiscountSum(wages, growth, totalMonths, n) > 0.0
    decreases n
  {
    if n > 0 {
      var m: nat := n - 1;
      DiscountSumPositive(wages, growth, totalMonths, m);
      DiscountSumUnfold(wages, growth, totalMonths, m, n);
      PowPositive(growth, totalMonths - n);
      MulPositive(wages[m], Pow(growth, totalMonths - n));
    }
  }

  /** Contributions only add up, and a growth factor of at least 1 only adds
      to them: 0 <= principal <= wealth for a non-negative savings rate. */
  lemma {:induction false} WealthCoversPrincipal(wages: seq<real>, growth: real, savings: real, n: nat)
    requires n <= |wages|
    requires savings >= 0.0 && growth >= 1.0
    requires forall m :: 0 <= m < |wages| ==> wages[m] >= 0.0
    ensures 0.0 <= ReplayPrincipal(wages, savings, n) <= ReplayWealth(wages, growth, savings, n)
    decreases n
  {
    if n > 0 {
      var m: nat := n - 1;
      WealthCoversPrincipal(wages, growth, savings, m);
      ReplayStep(wages, growth, savings, m, n, wages[m]);
      var r := ReplayWealth(wages, growth, savings, m);
      assert Contribution(savings, wages[m]) >= 0.0;
      assert Grow(r, growth) >= r by {
        assert r * (growth - 1.0) >= 0.0;
      }
    }
  }

  /** At a zero return (growth factor 1) nothing is earned: wealth is the principal paid in. */
  lemma {:induction false} ZeroReturnNoInterest(wages: seq<real>, savings: real, n: nat)
    requires n <= |wages|
    ensures ReplayWealth(wages, 1.0, savings, n) == ReplayPrincipal(wages, savings, n)
    decreases n
  {
    if n > 0 {
      ZeroReturnNoInterest(wages, savings, n - 1);
    }
  }

  /** The accumulation path: an empty path and success with no years to
      grow; otherwise one record per age from currentAge to retirementAge,
      the first a zero snapshot, each with interest = wealth - principal and
      the age's real wage growth in percent; success exactly when the sum is
      not 0, and then the last record's wealth is the target. */
  lemma {:induction false} AccumulationPathShape(currentAge: int, retirementAge: int, targetWealth: real,
                                                 inflationRate: real, monthlyReturn: real)
    ensures var r := AccumulationSpec(currentAge, retirementAge, targetWealth, inflationRate, monthlyReturn);
            var years := retirementAge - currentAge;
            && (years <= 0 ==> r == AccumulationPath(0.0, [], true))
            && (years > 0 ==>
                  && |r.accumulationData| == years + 1
                  && (forall k :: 0 <= k < |r.accumulationData| ==>
                        && r.accumulationData[k].age == currentAge + k
                        && r.accumulationData[k].totalInterest
                           == r.accumulationData[k].totalWealth - r.accumulationData[k].totalPrincipal
                        && r.accumulationData[k].salaryGrowthRate == RealWageGrowthRate(currentAge + k) * 100.0)
                  && r.accumulationData[0].totalWealth == 0.0
                  && r.accumulationData[0].totalPrincipal == 0.0
                  && r.accumulationData[0].monthlySavings == r.initialMonthlySavings
                  && (!r.success ==> r.initialMonthlySavings == 0.0)
                  && (r.success ==> r.accumulationData[years].totalWealth == targetWealth))
  {
    var years := retirementAge - currentAge;
    if years > 0 {
      var r := AccumulationSpec(currentAge, retirementAge, targetWealth, inflationRate, monthlyReturn);
      var totalMonths := years * 12;
      var growth := 1.0 + monthlyReturn;
      var wages := MonthlyWages(currentAge, inflationRate, totalMonths);
      var sum := DiscountSum(wages, growth, totalMonths, totalMonths);
      var savings := if sum != 0.0 then targetWealth / sum else 0.0;
      var data := Points(currentAge, inflationRate, wages, growth, savings, years + 1);
      assert r == AccumulationPath(savings, data, sum != 0.0);
      assert |wages| == totalMonths;
      PointsLength(currentAge, inflationRate, wages, growth, savings, years + 1);
      forall k | 0 <= k < years + 1
        ensures data[k] == PointAt(currentAge, inflationRate, wages, growth, savings, k)
      {
        PointsAt(currentAge, inflationRate, wages, growth, savings, years + 1, k);
      }
      assert ReplayWealth(wages, growth, savings, 0) == 0.0;
      if sum != 0.0 {
        ReplayReachesTarget(wages, growth, savings, targetWealth, totalMonths);
        assert 12 * years == totalMonths;
      }
    }
  }

  /** Under positive monthly growth and inflation factors the solver always
      finds a savings rate for a horizon of at least a year. */
  lemma {:induction false} AccumulationSucceeds(currentAge: int, retirementAge: int, targetWealth: real,
                                                inflationRate: real, monthlyReturn: real)
    requires 1.0 + monthlyReturn > 0.0 && 1.0 + inflationRate / 100.0 > 0.0
    ensures AccumulationSpec(currentAge, retirementAge, targetWealth, inflationRate, monthlyReturn).success
  {
    var years := retirementAge - currentAge;
    if years > 0 {
      var totalMonths := years * 12;
      MonthlyWagesPositive(currentAge, inflationRate, totalMonths);
      DiscountSumPositive(MonthlyWages(currentAge, inflationRate, totalMonths), 1.0 + monthlyReturn, totalMonths, totalMonths);
    }
  }
}
