/** The retirement-needs solver: the capital that must be in hand at
    retirement for the monthly depletion simulation to last until death,
    found by a 40-step bisection, then replayed into a year-by-year drawdown
    trace and discounted to today's money by inflation.

    Bisect is called with the constant Iterations as its step count. Its
    `decreases` clause names `months` as a second component, which never
    changes, so that the verifier does not unfold all forty probes when the
    count is that constant. */
module RetirementNeeds {
  import opened Numeric
  import opened Types
  import opened Depletion

  /** Number of halvings of the search interval. */
  const Iterations: nat := 40

  /** Months in a year. */
  const MonthsPerYear: nat := 12

  /** The search starts from [0, this many years of first-month expenses]. */
  const CapitalYears: real := 1000.0

  /** The solver's output: nominal capital at retirement, its present value,
      and the drawdown trace. */
  datatype Needs = Needs(nominal: real, pv: real, simulation: seq<SimulationYear>)

  /** The search state: the interval [low, high] and the last capital that survived. */
  datatype Search = Search(low: real, high: real, requiredWealth: real)

  function UpperBound(startExpense: real): real
  {
    startExpense * 12.0 * CapitalYears
  }

  /** The width of the interval after all the halvings. */
  function Resolution(startExpense: real): real
  {
    PowPositive(2.0, Iterations);
    UpperBound(startExpense) / Pow(2.0, Iterations)
  }

  /** The nominal monthly expense in the first month of retirement: today's
      expense inflated over the (non-negative) number of months until retirement. */
  function RetirementStartExpense(currentAge: int, retirementAge: int, currentMonthlyExpense: real,
                                  monthlyInflation: real): real
  {
    currentMonthlyExpense * Pow(1.0 + monthlyInflation, Max(0, (retirementAge - currentAge) * 12))
  }

  /** One halving: a surviving midpoint becomes the new upper end and the
      candidate answer; a failing one becomes the new lower end. */
  function Probe(s: Search, startExpense: real, months: int, monthlyInflation: real, monthlyReturn: real): Search
  {
    var mid := (s.low + s.high) / 2.0;
    if Survives(Drawdown(mid, startExpense), months, monthlyInflation, monthlyReturn)
    then Search(s.low, mid, mid)
    else Search(mid, s.high, s.requiredWealth)
  }

  function Bisect(s: Search, steps: nat, startExpense: real, months: int, monthlyInflation: real, monthlyReturn: real): Search
    decreases steps, months
  {
    if steps == 0 then s
    else Bisect(Probe(s, startExpense, months, monthlyInflation, monthlyReturn), steps - 1,
                startExpense, months, monthlyInflation, monthlyReturn)
  }

  function InitialSearch(startExpense: real): Search
  {
    Search(0.0, UpperBound(startExpense), 0.0)
  }

  /** The capital the bisection settles on. */
  function SolvedCapital(startExpense: real, months: int, monthlyInflation: real, monthlyReturn: real): real
  {
    Bisect(InitialSearch(startExpense), Iterations, startExpense, months, monthlyInflation, monthlyReturn).requiredWealth
  }

  /** What the bisection keeps true: the interval is ordered and inside the
      initial one and has the given width; `low` is 0 or a capital that fails;
      the candidate either equals `high` and survives, or was never set (0)
      and `high` is still the initial upper end. */
  ghost predicate SearchInvariant(s: Search, width: real, startExpense: real, months: int,
                                  monthlyInflation: real, monthlyReturn: real)
  {
    && 0.0 <= s.low <= s.high <= UpperBound(startExpense)
    && s.high - s.low == width
    && (s.low == 0.0 || !Survives(Drawdown(s.low, startExpense), months, monthlyInflation, monthlyReturn))
    && ((s.requiredWealth == s.high && Survives(Drawdown(s.high, startExpense), months, monthlyInflation, monthlyReturn))
        || (s.requiredWealth == 0.0 && s.high == UpperBound(startExpense)))
  }

  /** The bisection loop: 40 probes of the depletion simulation. */
  method FindRequiredWealth(startExpense: real, monthsInRetirement: int, monthlyInflation: real, monthlyReturn: real)
    returns (requiredWealth: real)
    ensures requiredWealth == SolvedCapital(startExpense, monthsInRetirement, monthlyInflation, monthlyReturn)
  {
    var low := 0.0;
    var high := UpperBound(startExpense);
    requiredWealth := 0.0;
    for i := 0 to Iterations
      invariant Bisect(Search(low, high, requiredWealth), Iterations - i, startExpense, monthsInRetirement, monthlyInflation, monthlyReturn)
             == Bisect(InitialSearch(startExpense), Iterations, startExpense, monthsInRetirement, monthlyInflation, monthlyReturn)
    {
      ghost var probed := Probe(Search(low, high, requiredWealth), startExpense, monthsInRetirement, monthlyInflation, monthlyReturn);
      var mid := (low + high) / 2.0;
      var survived := SimulateDepletionMonthly(mid, startExpense, monthsInRetirement, monthlyInflation, monthlyReturn);
      if survived {
        requiredWealth := mid;
        high := mid;
      } else {
        low := mid;
      }
      assert Search(low, high, requiredWealth) == probed;
    }
  }

  /** One probe halves the width and keeps the invariant. */
  lemma ProbeKeepsInvariant(s: Search, width: real, startExpense: real, months: int,
                            monthlyInflation: real, monthlyReturn: real)
    requires SearchInvariant(s, width, startExpense, months, monthlyInflation, monthlyReturn)
    ensures SearchInvariant(Probe(s, startExpense, months, monthlyInflation, monthlyReturn), width / 2.0,
                            startExpense, months, monthlyInflation, monthlyReturn)
  {
  }

  /** The invariant holds throughout the loop, with the width halved at every step. */
  lemma {:induction false} BisectKeepsInvariant(s: Search, steps: nat, width: real, startExpense: real, months: int,
                                                monthlyInflation: real, monthlyReturn: real)
    requires SearchInvariant(s, width, startExpense, months, monthlyInflation, monthlyReturn)
    ensures Pow(2.0, steps) > 0.0
    ensures SearchInvariant(Bisect(s, steps, startExpense, months, monthlyInflation, monthlyReturn),
                            width / Pow(2.0, steps), startExpense, months, monthlyInflation, monthlyReturn)
    decreases steps
  {
    PowPositive(2.0, steps);
    if steps > 0 {
      var probed := Probe(s, startExpense, months, monthlyInflation, monthlyReturn);
      var half := width / 2.0;
      var rest: nat := steps - 1;
      ProbeKeepsInvariant(s, width, startExpense, months, monthlyInflation, monthlyReturn);
      BisectKeepsInvariant(probed, rest, half, startExpense, months, monthlyInflation, monthlyReturn);
      PowPositive(2.0, rest);
      HalvedWidth(width, half, Pow(2.0, rest), Pow(2.0, steps));
    }
  }

  lemma HalvedWidth(width: real, half: real, p: real, q: real)
    requires half == width / 2.0 && p > 0.0 && q == 2.0 * p
    ensures half / p == width / q
  {
  }

  lemma PowTwoForty()
    ensures Pow(2.0, Iterations) == 1099511627776.0
  {
    assert Pow(2.0, 5) == 32.0;
    assert Pow(2.0, 10) == 1024.0 by { PowAdd(2.0, 5, 5); }
    assert Pow(2.0, 20) == 1048576.0 by { PowAdd(2.0, 10, 10); }
    PowAdd(2.0, 20, 20);
  }

  /** What the bisection delivers, for a non-negative expense: an answer in
      [0, upper bound] that either survives with `answer - Resolution` being 0
      or failing, or is 0 because no probe survived, in which case
      `upper bound - Resolution` is the last failing probe. */
  lemma SolvedCapitalBracket(startExpense: real, months: int, monthlyInflation: real, monthlyReturn: real)
    requires startExpense >= 0.0
    ensures var rw := SolvedCapital(startExpense, months, monthlyInflation, monthlyReturn);
            var step := Resolution(startExpense);
            && 0.0 <= rw <= UpperBound(startExpense)
            && ((Survives(Drawdown(rw, startExpense), months, monthlyInflation, monthlyReturn)
                 && (rw == step || !Survives(Drawdown(rw - step, startExpense), months, monthlyInflation, monthlyReturn)))
                || (rw == 0.0
                    && (UpperBound(startExpense) == step
                        || !Survives(Drawdown(UpperBound(startExpense) - step, startExpense), months, monthlyInflation, monthlyReturn))))
  {
    assert SearchInvariant(InitialSearch(startExpense), UpperBound(startExpense), startExpense, months, monthlyInflation, monthlyReturn);
    BisectKeepsInvariant(InitialSearch(startExpense), Iterations, UpperBound(startExpense),
                         startExpense, months, monthlyInflation, monthlyReturn);
  }

  /** With no months to fund every probe survives, so `low` never moves and
      the answer is the width of the final interval, not exactly 0. */
  lemma {:induction false} BisectNoHorizon(s: Search, steps: nat, startExpense: real, months: int,
                                           monthlyInflation: real, monthlyReturn: real)
    requires months <= 0 && s.low == 0.0
    ensures Pow(2.0, steps) > 0.0
    ensures var r := Bisect(s, steps, startExpense, months, monthlyInflation, monthlyReturn);
            r.low == 0.0 && r.high == s.high / Pow(2.0, steps)
            && r.requiredWealth == (if steps == 0 then s.requiredWealth else r.high)
    decreases steps
  {
    PowPositive(2.0, steps);
    if steps > 0 {
      var p := Probe(s, startExpense, months, monthlyInflation, monthlyReturn);
      assert p == Search(0.0, s.high / 2.0, s.high / 2.0);
      BisectNoHorizon(p, steps - 1, startExpense, months, monthlyInflation, monthlyReturn);
      PowPositive(2.0, steps - 1);
      assert s.high / 2.0 / Pow(2.0, steps - 1) == s.high / Pow(2.0, steps);
    }
  }

  /** A zero-month retirement yields the bisection's resolution, upper bound / 2^40. */
  lemma NoRetirementMonths(startExpense: real, months: int, monthlyInflation: real, monthlyReturn: real)
    requires months <= 0
    ensures SolvedCapital(startExpense, months, monthlyInflation, monthlyReturn) == Resolution(startExpense)
  {
    BisectNoHorizon(InitialSearch(startExpense), Iterations, startExpense, months, monthlyInflation, monthlyReturn);
  }

  /** Under the monotonicity of the depletion check (1 + monthlyReturn >= 0)
      and a positive expense, the answer is tight: every capital at or above
      it survives and every capital a resolution step below it fails; an
      answer that does not survive is 0, reported when not even
      upper bound - resolution survives. */
  lemma SolvedCapitalIsTight(startExpense: real, months: int, monthlyInflation: real, monthlyReturn: real)
    requires startExpense > 0.0
    requires 1.0 + monthlyReturn >= 0.0
    ensures var rw := SolvedCapital(startExpense, months, monthlyInflation, monthlyReturn);
            var step := Resolution(startExpense);
            && (Survives(Drawdown(rw, startExpense), months, monthlyInflation, monthlyReturn) ==>
                  (forall x :: rw <= x ==> Survives(Drawdown(x, startExpense), months, monthlyInflation, monthlyReturn))
                  && (rw > step ==> forall x :: x <= rw - step ==> !Survives(Drawdown(x, startExpense), months, monthlyInflation, monthlyReturn)))
            && (!Survives(Drawdown(rw, startExpense), months, monthlyInflation, monthlyReturn) ==>
                  rw == 0.0
                  && forall x :: x <= UpperBound(startExpense) - step ==> !Survives(Drawdown(x, startExpense), months, monthlyInflation, monthlyReturn))
  {
    var rw := SolvedCapital(startExpense, months, monthlyInflation, monthlyReturn);
    var step := Resolution(startExpense);
    var top := UpperBound(startExpense);
    SolvedCapitalBracket(startExpense, months, monthlyInflation, monthlyReturn);
    PowTwoForty();
    assert step < top;
    if Survives(Drawdown(rw, startExpense), months, monthlyInflation, monthlyReturn) {
      forall x | rw <= x
        ensures Survives(Drawdown(x, startExpense), months, monthlyInflation, monthlyReturn)
      {
        SurvivesMonotone(rw, x, startExpense, months, monthlyInflation, monthlyReturn);
      }
      if rw > step {
        forall x | x <= rw - step
          ensures !Survives(Drawdown(x, startExpense), months, monthlyInflation, monthlyReturn)
        {
          if Survives(Drawdown(x, startExpense), months, monthlyInflation, monthlyReturn) {
            SurvivesMonotone(x, rw - step, startExpense, months, monthlyInflation, monthlyReturn);
          }
        }
      }
    } else {
      forall x | x <= top - step
        ensures !Survives(Drawdown(x, startExpense), months, monthlyInflation, monthlyReturn)
      {
        if Survives(Drawdown(x, startExpense), months, monthlyInflation, monthlyReturn) {
          SurvivesMonotone(x, top - step, startExpense, months, monthlyInflation, monthlyReturn);
        }
      }
    }
  }

  /** The resolution step is below one month's expense. */
  lemma ResolutionBelowExpense(startExpense: real)
    requires startExpense > 0.0
    ensures 0.0 < Resolution(startExpense) < startExpense
  {
    PowTwoForty();
    assert UpperBound(startExpense) == startExpense * 12000.0;
  }

  /** At zero rates the last probe below the initial upper end survives any
      horizon of fewer than 12000 months. */
  lemma ZeroRateTopSurvives(startExpense: real, months: int)
    requires startExpense > 0.0
    requires 0 < months <= 11999
    ensures Survives(Drawdown(UpperBound(startExpense) - Resolution(startExpense), startExpense), months, 0.0, 0.0)
  {
    var top := UpperBound(startExpense);
    var step := Resolution(startExpense);
    ResolutionBelowExpense(startExpense);
    assert top == 12000.0 * startExpense;
    assert months as real * startExpense <= 11999.0 * startExpense;
    assert top - step >= 11999.0 * startExpense;
    assert top - step - months as real * startExpense >= Tolerance;
    SurvivesAtZeroRates(top - step, startExpense, months);
  }

  /** With zero inflation and zero return the answer is the exact need
      n * expense - 1 (the depletion tolerance), to within one resolution step. */
  lemma ZeroRateCapital(startExpense: real, months: int)
    requires startExpense > 0.0
    requires 0 < months <= 11999
    ensures var rw := SolvedCapital(startExpense, months, 0.0, 0.0);
            && rw >= months as real * startExpense + Tolerance
            && (rw > Resolution(startExpense) ==> rw - Resolution(startExpense) < months as real * startExpense + Tolerance)
  {
    var rw := SolvedCapital(startExpense, months, 0.0, 0.0);
    var step := Resolution(startExpense);
    SolvedCapitalIsTight(startExpense, months, 0.0, 0.0);
    ZeroRateTopSurvives(startExpense, months);
    assert Survives(Drawdown(rw, startExpense), months, 0.0, 0.0);
    SurvivesAtZeroRates(rw, startExpense, months);
    if rw > step {
      assert !Survives(Drawdown(rw - step, startExpense), months, 0.0, 0.0);
      SurvivesAtZeroRates(rw - step, startExpense, months);
    }
  }

  /** The state a year later. */
  function YearEnd(s: Drawdown, monthlyInflation: real, monthlyReturn: real): Drawdown
  {
    After(s, MonthsPerYear, monthlyInflation, monthlyReturn)
  }

  /** The state k years later. */
  function AfterYears(s: Drawdown, k: nat, monthlyInflation: real, monthlyReturn: real): Drawdown
    decreases k
  {
    if k == 0 then s else YearEnd(AfterYears(s, k - 1, monthlyInflation, monthlyReturn), monthlyInflation, monthlyReturn)
  }

  /** The drawdown record of one year that starts in state s. */
  function YearOf(age: int, s: Drawdown, monthlyInflation: real, monthlyReturn: real): SimulationYear
  {
    SimulationYear(age, Withdrawn(s, MonthsPerYear, monthlyInflation, monthlyReturn), s.balance,
                   YearEnd(s, monthlyInflation, monthlyReturn).balance, true)
  }

  /** `count` consecutive yearly records from `age` on, starting in state s. */
  function Years(age: int, s: Drawdown, count: nat, monthlyInflation: real, monthlyReturn: real): seq<SimulationYear>
    decreases count
  {
    if count == 0 then []
    else [YearOf(age, s, monthlyInflation, monthlyReturn)]
         + Years(age + 1, YearEnd(s, monthlyInflation, monthlyReturn), count - 1, monthlyInflation, monthlyReturn)
  }

  /** The trace of the drawdown from retirementAge to deathAge inclusive. */
  function DrawdownTrace(requiredWealth: real, startExpense: real, retirementAge: int, deathAge: int,
                         monthlyInflation: real, monthlyReturn: real): seq<SimulationYear>
  {
    Years(retirementAge, Drawdown(requiredWealth, startExpense), Max(0, deathAge - retirementAge + 1),
          monthlyInflation, monthlyReturn)
  }

  /** The inner loop of the yearly replay: `months` months of the drawdown
      (twelve at the call site), returning the state afterwards and the total
      expense withdrawn. */
  method ReplayMonths(startBalance: real, startExpense: real, months: nat, monthlyInflation: real, monthlyReturn: real)
    returns (balance: real, currentMonthlyExp: real, yearTotalExp: real)
    ensures Drawdown(balance, currentMonthlyExp) == After(Drawdown(startBalance, startExpense), months, monthlyInflation, monthlyReturn)
    ensures yearTotalExp == Withdrawn(Drawdown(startBalance, startExpense), months, monthlyInflation, monthlyReturn)
  {
    ghost var start := Drawdown(startBalance, startExpense);
    balance, currentMonthlyExp, yearTotalExp := startBalance, startExpense, 0.0;
    for m := 0 to months
      invariant After(Drawdown(balance, currentMonthlyExp), months - m, monthlyInflation, monthlyReturn)
             == After(start, months, monthlyInflation, monthlyReturn)
      invariant yearTotalExp + Withdrawn(Drawdown(balance, currentMonthlyExp), months - m, monthlyInflation, monthlyReturn)
             == Withdrawn(start, months, monthlyInflation, monthlyReturn)
    {
      ghost var next := Month(Drawdown(balance, currentMonthlyExp), monthlyInflation, monthlyReturn);
      balance := balance - currentMonthlyExp;
      yearTotalExp := yearTotalExp + currentMonthlyExp;
      balance := balance * (1.0 + monthlyReturn);
      currentMonthlyExp := currentMonthlyExp * (1.0 + monthlyInflation);
      assert Drawdown(balance, currentMonthlyExp) == next;
    }
  }

  /** The yearly replay loop: twelve months per year, one record per year. */
  method BuildDrawdownTrace(requiredWealth: real, startExpense: real, retirementAge: int, deathAge: int,
                            monthlyInflation: real, monthlyReturn: real) returns (simulation: seq<SimulationYear>)
    ensures simulation == DrawdownTrace(requiredWealth, startExpense, retirementAge, deathAge, monthlyInflation, monthlyReturn)
  {
    simulation := [];
    var balance := requiredWealth;
    var currentMonthlyExp := startExpense;
    var year := retirementAge;
    ghost var remaining: nat := Max(0, deathAge - retirementAge + 1);
    while year <= deathAge
      invariant remaining == Max(0, deathAge - year + 1)
      invariant simulation + Years(year, Drawdown(balance, currentMonthlyExp), remaining, monthlyInflation, monthlyReturn)
             == DrawdownTrace(requiredWealth, startExpense, retirementAge, deathAge, monthlyInflation, monthlyReturn)
      decreases deathAge - year
    {
      ghost var start := Drawdown(balance, currentMonthlyExp);
      var yearStartBalance := balance;
      var yearTotalExp;
      balance, currentMonthlyExp, yearTotalExp := ReplayMonths(balance, currentMonthlyExp, MonthsPerYear, monthlyInflation, monthlyReturn);
      var record := SimulationYear(year, yearTotalExp, yearStartBalance, balance, true);
      ghost var next := Drawdown(balance, currentMonthlyExp);
      assert record == YearOf(year, start, monthlyInflation, monthlyReturn);
      assert next == YearEnd(start, monthlyInflation, monthlyReturn);
      ghost var rest: nat := remaining - 1;
      YearsUnfold(year, start, remaining, monthlyInflation, monthlyReturn);
      ghost var tail := Years(year + 1, next, rest, monthlyInflation, monthlyReturn);
      assert simulation + [record] + tail == simulation + ([record] + tail);
      simulation := simulation + [record];
      year := year + 1;
      remaining := rest;
    }
  }

  lemma YearsUnfold(age: int, s: Drawdown, count: nat, monthlyInflation: real, monthlyReturn: real)
    requires count > 0
    ensures Years(age, s, count, monthlyInflation, monthlyReturn)
         == [YearOf(age, s, monthlyInflation, monthlyReturn)]
            + Years(age + 1, YearEnd(s, monthlyInflation, monthlyReturn), count - 1, monthlyInflation, monthlyReturn)
  {
  }

  /** The k-th yearly record: its age, and its figures read off the
      simulation k years in. */
  lemma {:induction false} YearsAt(age: int, s: Drawdown, count: nat, k: nat, monthlyInflation: real, monthlyReturn: real)
    requires k < count
    ensures |Years(age, s, count, monthlyInflation, monthlyReturn)| == count
    ensures Years(age, s, count, monthlyInflation, monthlyReturn)[k]
         == YearOf(age + k, AfterYears(s, k, monthlyInflation, monthlyReturn), monthlyInflation, monthlyReturn)
    decreases count
  {
    YearsLength(age, s, count, monthlyInflation, monthlyReturn);
    if k > 0 {
      YearsAt(age + 1, YearEnd(s, monthlyInflation, monthlyReturn), count - 1, k - 1, monthlyInflation, monthlyReturn);
      AfterYearsShift(s, k - 1, monthlyInflation, monthlyReturn);
    }
  }

  lemma {:induction false} AfterYearsShift(s: Drawdown, k: nat, monthlyInflation: real, monthlyReturn: real)
    ensures AfterYears(s, k + 1, monthlyInflation, monthlyReturn)
         == AfterYears(YearEnd(s, monthlyInflation, monthlyReturn), k, monthlyInflation, monthlyReturn)
    decreases k
  {
    if k > 0 {
      AfterYearsShift(s, k - 1, monthlyInflation, monthlyReturn);
    }
  }

  lemma {:induction false} YearsLength(age: int, s: Drawdown, count: nat, monthlyInflation: real, monthlyReturn: real)
    ensures |Years(age, s, count, monthlyInflation, monthlyReturn)| == count
    decreases count
  {
    if count > 0 {
      YearsLength(age + 1, YearEnd(s, monthlyInflation, monthlyReturn), count - 1, monthlyInflation, monthlyReturn);
    }
  }

  /** The drawdown trace has one record per age from retirementAge to
      deathAge inclusive, every one retired; the first starts with the
      required capital, and each year starts with the previous year's end. */
  lemma DrawdownTraceShape(requiredWealth: real, startExpense: real, retirementAge: int, deathAge: int,
                           monthlyInflation: real, monthlyReturn: real)
    ensures var t := DrawdownTrace(requiredWealth, startExpense, retirementAge, deathAge, monthlyInflation, monthlyReturn);
            && |t| == Max(0, deathAge - retirementAge + 1)
            && (forall k :: 0 <= k < |t| ==> t[k].age == retirementAge + k && t[k].isRetired)
            && (|t| > 0 ==> t[0].portfolioStart == requiredWealth)
            && (forall k :: 0 <= k < |t| - 1 ==> t[k + 1].portfolioStart == t[k].portfolioEnd)
  {
    var s := Drawdown(requiredWealth, startExpense);
    var n := Max(0, deathAge - retirementAge + 1);
    var t := DrawdownTrace(requiredWealth, startExpense, retirementAge, deathAge, monthlyInflation, monthlyReturn);
    YearsLength(retirementAge, s, n, monthlyInflation, monthlyReturn);
    forall k | 0 <= k < n
      ensures t[k].age == retirementAge + k && t[k].isRetired
    {
      YearsAt(retirementAge, s, n, k, monthlyInflation, monthlyReturn);
    }
    if n > 0 {
      YearsAt(retirementAge, s, n, 0, monthlyInflation, monthlyReturn);
    }
    forall k | 0 <= k < n - 1
      ensures t[k + 1].portfolioStart == t[k].portfolioEnd
    {
      YearsAt(retirementAge, s, n, k, monthlyInflation, monthlyReturn);
      YearsAt(retirementAge, s, n, k + 1, monthlyInflation, monthlyReturn);
    }
  }

  /** calculateRetirementNeeds as a function of its inputs. */
  function RequiredCapital(currentAge: int, retirementAge: int, deathAge: int, currentMonthlyExpense: real,
                           inflationRate: real, rates: MonthlyRates): Needs
    requires 1.0 + inflationRate / 100.0 != 0.0
  {
    var startExpense := RetirementStartExpense(currentAge, retirementAge, currentMonthlyExpense, rates.inflation);
    var monthsInRetirement := (deathAge - retirementAge) * 12;
    var requiredWealth := SolvedCapital(startExpense, monthsInRetirement, rates.inflation, rates.ret);
    Needs(requiredWealth,
          requiredWealth / PowInt(1.0 + inflationRate / 100.0, retirementAge - currentAge),
          DrawdownTrace(requiredWealth, startExpense, retirementAge, deathAge, rates.inflation, rates.ret))
  }

  /** calculateRetirementNeeds: bisection, drawdown trace, present value. */
  method CalculateRetirementNeeds(currentAge: int, retirementAge: int, deathAge: int, currentMonthlyExpense: real,
                                  inflationRate: real, rates: MonthlyRates) returns (r: Needs)
    requires 1.0 + inflationRate / 100.0 != 0.0
    ensures r == RequiredCapital(currentAge, retirementAge, deathAge, currentMonthlyExpense, inflationRate, rates)
  {
    var monthsToRetire := Max(0, (retirementAge - currentAge) * 12);
    var monthsInRetirement := (deathAge - retirementAge) * 12;
    var initialRetirementMonthlyExpense := currentMonthlyExpense * Pow(1.0 + rates.inflation, monthsToRetire);
    assert initialRetirementMonthlyExpense == RetirementStartExpense(currentAge, retirementAge, currentMonthlyExpense, rates.inflation);
    var requiredWealth := FindRequiredWealth(initialRetirementMonthlyExpense, monthsInRetirement, rates.inflation, rates.ret);
    var simulation := BuildDrawdownTrace(requiredWealth, initialRetirementMonthlyExpense, retirementAge, deathAge,
                                         rates.inflation, rates.ret);
    var pv := requiredWealth / PowInt(1.0 + inflationRate / 100.0, retirementAge - currentAge);
    r := Needs(requiredWealth, pv, simulation);
  }

  /** The present value is the nominal capital deflated by annual inflation
      over the years to retirement; it is the nominal capital itself when
      inflation is 0 or retirement is now. */
  lemma PresentValueDeflatesByInflation(currentAge: int, retirementAge: int, deathAge: int, currentMonthlyExpense: real,
                                        inflationRate: real, rates: MonthlyRates)
    requires 1.0 + inflationRate / 100.0 != 0.0
    ensures var n := RequiredCapital(currentAge, retirementAge, deathAge, currentMonthlyExpense, inflationRate, rates);
            && n.pv * PowInt(1.0 + inflationRate / 100.0, retirementAge - currentAge) == n.nominal
            && (inflationRate == 0.0 || retirementAge == currentAge ==> n.pv == n.nominal)
  {
    var k := retirementAge - currentAge;
    PowOfOne(if k >= 0 then k else -k);
  }

  /** The months to retirement are clamped at 0: with retirement now or in
      the past the first retirement expense is today's expense. */
  lemma NoAccumulationKeepsTodaysExpense(currentAge: int, retirementAge: int, currentMonthlyExpense: real,
                                         monthlyInflation: real)
    requires retirementAge <= currentAge
    ensures RetirementStartExpense(currentAge, retirementAge, currentMonthlyExpense, monthlyInflation) == currentMonthlyExpense
  {
  }

  /** The capital found is the bisection's answer for the inflated first
      expense over (deathAge - retirementAge) * 12 months, so everything proved
      about SolvedCapital applies; with retirement at death it is the
      resolution step. */
  lemma NeedsAtDeathAge(currentAge: int, retirementAge: int, currentMonthlyExpense: real,
                        inflationRate: real, rates: MonthlyRates)
    requires 1.0 + inflationRate / 100.0 != 0.0
    ensures RequiredCapital(currentAge, retirementAge, retirementAge, currentMonthlyExpense, inflationRate, rates).nominal
         == Resolution(RetirementStartExpense(currentAge, retirementAge, currentMonthlyExpense, rates.inflation))
  {
    NoRetirementMonths(RetirementStartExpense(currentAge, retirementAge, currentMonthlyExpense, rates.inflation),
                       0, rates.inflation, rates.ret);
  }
}
