# FIRE calculator engine, modelled in Dafny

This project models the projection engine of a "Financial Independence /
Retire Early" calculator (utils/finance.ts), together with its currency
formatter (utils/format.ts). Given the current age, the retirement age, the
age at death, today's monthly expense and the annual inflation and return
rates, the engine does four things:

- **Drawdown solver** (`RetirementNeeds`, with `Depletion`). It bisects 40
  times over a monthly depletion simulation to find the capital needed at
  retirement. It then replays that capital into a year-by-year drawdown
  trace and deflates it to today's money.
- **Accumulation solver** (`Accumulation`, with `WageGrowth`). It finds the
  initial monthly savings that reach that capital. Savings grow each year
  with an age-banded real wage-growth curve plus inflation, and compound
  monthly. A replay then produces a year-by-year accumulation trace.
- **Sensitivity curve** (`Trend`). It runs both solvers for every
  retirement age from 30 to 65 that lies after the current age.
- **Plan** (`Fire`). It composes the three, with the curve optional.

The `Format` module models the currency formatter: an optional minus sign,
the currency symbol, and the magnitude in a unit chosen by thresholds
(亿/万, or b/m/k). The locale picks the variant.

Every loop of the source is a Dafny `method` with that loop. Each method is
proved equal to a recursive or closed-form specification function. The
properties are lemmas about those functions:

- the bisection's invariant and what its answer means;
- the shape and continuity of the drawdown trace;
- the replayed balance is the solver's sum scaled by the savings rate, so
  the replay ends exactly on the target;
- the shape of the accumulation trace;
- the ages the curve samples;
- the two phases meet at the same capital;
- the formatter's tier table, sign rule and locale dispatch.

All arithmetic is exact arithmetic over `real`. The monthly rates
(1 + annual/100)^(1/12) - 1 are inputs (`Types.MonthlyRates`). The
accumulation solver's spec functions take the monthly growth factor and
the per-month wage multipliers as a sequence (`Accumulation.MonthlyWages`).

At the edges the code behaves as follows, and so does the model:

- **Zero-month retirement.** With retirement at death the capital is not 0
  but the bisection's resolution, upper bound / 2^40. Every probe survives
  a zero-month horizon, so the last midpoint is reported
  (`RetirementNeeds.NeedsAtDeathAge`).
- **Zero rates.** The capital is not exactly n months × expense. The
  depletion check allows a balance down to -1, so the answer is at least
  n × expense - 1 and, unless it is the resolution step itself, less than
  one step above it (`RetirementNeeds.ZeroRateCapital`).
- **No probe survives.** The capital stays at its initial value 0
  (`RetirementNeeds.SolvedCapitalIsTight`).
- **Retirement not in the future.** Only the months to retirement are
  clamped at 0. The present-value exponent `retirementAge - currentAge` is
  not clamped.

## Model

| member | source | states |
|---|---|---|
| WageGrowth.RealWageGrowthRate | utils/finance.ts:8-14 | real wage growth is always between 0 and 8% |
| WageGrowth.WageGrowthBands | utils/finance.ts:8-14 | the five age bands <25, 25-29, 30-34, 35-44, 45+ give 8%, 6%, 4%, 1%, 0%; a boundary age belongs to the older band |
| WageGrowth.WageGrowthNonIncreasing | utils/finance.ts:8-14 | wage growth never rises with age |
| Depletion.SimulateDepletionMonthly | utils/finance.ts:143-160 | the loop returns true exactly when the portfolio survives the horizon (specification predicate `Survives`); a horizon of 0 or fewer months always survives |
| Depletion.SurvivesMonotone | utils/finance.ts:150-158 | if 1 + monthlyReturn >= 0, a larger starting capital survives whenever a smaller one does |
| Depletion.SurvivesIffEveryMonthSolvent | utils/finance.ts:153-159 | surviving n months means every one of the first n withdrawals leaves at least -1 |
| Depletion.ExpenseAfter | utils/finance.ts:157 | after n months the expense is the first expense times (1 + monthlyInflation)^n |
| Depletion.ZeroReturnConservesCapital | utils/finance.ts:154-156 | at zero return the balance is the start minus everything withdrawn |
| Depletion.SurvivesAtZeroRates | utils/finance.ts:153-159 | for an expense >= 0 at zero rates, a capital p survives n months exactly when n <= 0 or p - n·expense >= -1 |
| RetirementNeeds.FindRequiredWealth | utils/finance.ts:89-104 | the 40-step bisection loop computes the specification function SolvedCapital |
| RetirementNeeds.ProbeKeepsInvariant | utils/finance.ts:97-103 | one probe keeps the search invariant (ordered interval inside the initial one; low is 0 or fails; the candidate is high and survives, or is still 0) and halves the width |
| RetirementNeeds.BisectKeepsInvariant | utils/finance.ts:96-104 | after k probes the invariant holds with the width divided by 2^k |
| RetirementNeeds.SolvedCapitalBracket | utils/finance.ts:89-104 | for an expense >= 0 the answer lies in [0, upper bound], and either it survives and is the step itself or one resolution step below it fails, or it is 0 and upper bound is the step or upper bound - step fails |
| RetirementNeeds.SolvedCapitalIsTight | utils/finance.ts:89-104 | if 1 + r >= 0 and the expense is positive: a surviving answer has every larger capital surviving and, when the answer exceeds the step, every capital a step or more below failing; a failing answer is 0, and then no capital up to upper bound - step survives |
| RetirementNeeds.NoRetirementMonths | utils/finance.ts:96-104 | with 0 or fewer months to fund, the answer is upper bound / 2^40 |
| RetirementNeeds.ResolutionBelowExpense | utils/finance.ts:93 | for a positive expense, the resolution 12000·expense / 2^40 is positive and below one month's expense |
| RetirementNeeds.ZeroRateTopSurvives | utils/finance.ts:93 | for a positive expense at zero rates, upper bound - step survives any horizon of 1 to 11999 months |
| RetirementNeeds.ZeroRateCapital | utils/finance.ts:89-104 | for a positive expense at zero rates and 0 < n <= 11999 months, the answer is at least n·expense - 1, and when it exceeds the step it is within one resolution step of n·expense - 1 |
| RetirementNeeds.ReplayMonths | utils/finance.ts:116-126 | the inner loop ends in the drawdown state months later and totals the expenses withdrawn |
| RetirementNeeds.BuildDrawdownTrace | utils/finance.ts:107-135 | the yearly loop builds exactly the specification trace DrawdownTrace |
| RetirementNeeds.YearsAt | utils/finance.ts:111-135 | record k is for age retirementAge + k; its figures are those of the simulation k years in |
| RetirementNeeds.DrawdownTraceShape | utils/finance.ts:111-135 | one record per age from retirementAge to deathAge (none if deathAge < retirementAge); every record is retired; the first starts at the capital; each year starts where the previous one ended |
| RetirementNeeds.CalculateRetirementNeeds | utils/finance.ts:71-141 | with 1 + inflation/100 ≠ 0, it computes RequiredCapital: the bisection's capital for the inflated first expense over (deathAge - retirementAge)·12 months, its trace, and its present value |
| RetirementNeeds.PresentValueDeflatesByInflation | utils/finance.ts:138 | with 1 + inflation/100 ≠ 0: pv × (1 + inflation/100)^(retirementAge - currentAge) = nominal; pv = nominal when inflation is 0 or retirement is now |
| RetirementNeeds.NoAccumulationKeepsTodaysExpense | utils/finance.ts:82-86 | with retirement now or past, the months to retirement are clamped at 0 and the first expense is today's |
| RetirementNeeds.NeedsAtDeathAge | utils/finance.ts:83-104 | with 1 + inflation/100 ≠ 0 and retirement at death, the capital is the resolution step of the inflated first expense |
| Accumulation.ComputeDiscountFactorSum | utils/finance.ts:182-201 | the solver loop computes DiscountSum: month m's wage multiplier times the growth over the months after it |
| Accumulation.UpdateWageMultiplier | utils/finance.ts:187-193 | every twelfth month the multiplier steps up by the nominal wage growth of age currentAge + m/12; otherwise it is kept |
| Accumulation.ContributeMonths | utils/finance.ts:221-234 | the twelve-month inner loop of the replay: from month `first` on, each month grows the balance then pays in savings × that year's multiplier, ending in the replayed balance and principal `months` later |
| Accumulation.ReplayYear | utils/finance.ts:219-243 | twelve months of growth then contribution take the replayed balance and principal from month 12(y-1) to 12y, and step the multiplier to year y |
| Accumulation.ReplayAccumulation | utils/finance.ts:205-253 | the replay loop produces exactly the records Points, one for each year 0..yearsToGrow |
| Accumulation.CalculateAccumulationPath | utils/finance.ts:166-260 | it computes AccumulationSpec: savings = target / sum, the replayed records, success = (sum ≠ 0) |
| Accumulation.ReplayScalesDiscountSum | utils/finance.ts:186-234 | savings × (partial sum over n months) = (balance after n months) × growth^(totalMonths - n) |
| Accumulation.ReplayReachesTarget | utils/finance.ts:203-234 | with savings = target / sum ≠ 0, the replayed balance after all months is the target |
| Accumulation.WageMultiplierPositive | utils/finance.ts:187-193 | with 1 + inflation/100 > 0 every wage multiplier is positive, and at least 1 when inflation >= 0 |
| Accumulation.WageMultiplierNonDecreasing | utils/finance.ts:187-193 | with inflation >= 0 the multiplier never falls from one year to the next |
| Accumulation.MonthlyWagesPositive | utils/finance.ts:187-193 | with 1 + inflation/100 > 0, every month's multiplier is positive |
| Accumulation.DiscountSumPositive | utils/finance.ts:186-201 | with a positive growth factor and positive wages, any non-empty sum is positive |
| Accumulation.WealthCoversPrincipal | utils/finance.ts:227-233 | with savings >= 0, growth >= 1 and non-negative wage multipliers: 0 <= principal <= wealth |
| Accumulation.ZeroReturnNoInterest | utils/finance.ts:227-233 | at zero return the wealth equals the principal (no interest) |
| Accumulation.AccumulationPathShape | utils/finance.ts:173-258 | no years to grow gives (0, [], true); otherwise yearsToGrow+1 records for ages currentAge..retirementAge; interest = wealth - principal; salary growth is the age's rate in percent; the first record is 0/0 with the initial savings; failure only with savings 0; on success the last wealth is the target |
| Accumulation.AccumulationSucceeds | utils/finance.ts:203-258 | with 1 + monthlyReturn > 0 and 1 + inflation/100 > 0 the solver always succeeds |
| Trend.CalculateTrendAnalysis | utils/finance.ts:267-307 | with 1 + inflation/100 ≠ 0, the loop over ages 30..65 builds TrendAnalysis: sample k is both solvers' answer for age max(30, currentAge+1) + k |
| Trend.TrendPrefixStep | utils/finance.ts:299-304 | with 1 + inflation/100 ≠ 0, each push extends the curve by the sample for the next age |
| Trend.TrendAges | utils/finance.ts:277-278 | with 1 + inflation/100 ≠ 0: the sampled ages are strictly increasing, lie in 30..65 and after the current age; every such age is sampled; the curve is empty from age 65 and has 36 samples before 30 |
| Trend.TrendPointValues | utils/finance.ts:281-304 | with 1 + inflation/100 ≠ 0, sample k holds the nominal capital and present value for its age, and the savings the accumulation solver needs to reach that capital |
| Fire.TrendRequested | utils/finance.ts:48 | the curve is computed exactly when includeTrend is present and true |
| Fire.CalculateFire | utils/finance.ts:16-65 | with 1 + inflation/100 ≠ 0, it computes FirePlan: the capital, then savings aimed at that capital, then the curve if requested |
| Fire.TrendOptionDefaults | utils/finance.ts:16 | with no options the curve is computed; an options object without includeTrend, or with it false, skips it |
| Fire.TrendIsOptional | utils/finance.ts:47-54 | with 1 + inflation/100 ≠ 0: not requested, no curve; requested, the full curve; nothing else changes |
| Fire.PhasesMeet | utils/finance.ts:26-44 | with currentAge < retirementAge <= deathAge, 1 + r > 0 and 1 + inflation/100 > 0: the plan succeeds; the accumulation trace runs currentAge..retirementAge from 0; its last wealth is the required capital, which is where the drawdown trace (retirementAge..deathAge) starts |
| Format.WithSign | utils/format.ts:3 | a negative value's text is "-" followed by the formatted text; any other value's text is the formatted text unchanged |
| Format.FormatChineseLong | utils/format.ts:5-14 | the text is the sign, the symbol, then the piece the unit table 亿 = 1e8, 万 = 1e4 gives for the magnitude, with 2 and 0 decimals, and zh-CN grouping when no unit is reached |
| Format.FormatChineseShort | utils/format.ts:16-25 | the same table with 1 and 0 decimals, and a whole number when no unit is reached |
| Format.FormatEnglishLong | utils/format.ts:27-39 | the text is the sign, the symbol, then the piece the unit table b = 1e9, m = 1e6, k = 1e3 gives, with 2, 2 and 0 decimals, and en-US grouping when no unit is reached |
| Format.FormatEnglishShort | utils/format.ts:41-53 | the same table with 1, 1 and 0 decimals, and a whole number when no unit is reached |
| Format.FormatCurrencyLong | utils/format.ts:55-59 | the text is that of the locale's unit table with its long-form decimals and grouping (Chinese for zh, English for en); the region does not enter it |
| Format.FormatCurrencyCompact | utils/format.ts:61-65 | the text is that of the locale's unit table with its short-form decimals and a whole number below the smallest unit; the region does not enter it |
| Format.FirstFit | utils/format.ts:5-53 | the unit found by the table lookup is a valid position in the table |
| Format.FirstFitIsFirst | utils/format.ts:5-53 | the unit found is reached by the magnitude and no larger unit is; no unit is found only when none is reached |
| Format.ScaledMagnitudeInRange | utils/format.ts:5-53 | for positive unit scales: the magnitude scaled by the unit found is at least 1, and below the ratio to the next larger unit when there is one; when no unit is found the magnitude is below the smallest unit |
| Format.ChineseTiers | utils/format.ts:5-25 | the Chinese formatters are the table 亿 = 1e8, 万 = 1e4 (>= picks the larger unit). Long: 2 and 0 decimals, zh-CN grouping below 1e4. Short: 1 and 0 decimals, whole number below 1e4 |
| Format.EnglishTiers | utils/format.ts:27-53 | the English formatters are the table b = 1e9, m = 1e6, k = 1e3. Long: 2/2/0 decimals, en-US grouping below 1e3. Short: 1/1/0 decimals, whole number below 1e3 |
| Format.LongSign | utils/format.ts:3-39 | a negative amount is "-" then the text of its magnitude; any other amount starts with the symbol |
| Format.CompactSign | utils/format.ts:3-53 | the same sign rule for the compact formatters |
| Format.LocaleDispatch | utils/format.ts:55-65 | locale zh selects the Chinese formatter and en the English one; the region never changes the text |
| Format.CompactAgreesOnMiddleTiers | utils/format.ts:5-53 | long and compact print the same text for 1e4 <= |v| < 1e8 in Chinese and 1e3 <= |v| < 1e6 in English |

## Left out

- Floating point: all arithmetic is exact over `real`, so IEEE rounding, overflow to Infinity and NaN are not modelled.
- The fractional power (1 + rate/100)^(1/12) (utils/finance.ts:79-80, 178-179): Dafny has no real root, so the two monthly rates are inputs (`Types.MonthlyRates`). The monthly inflation computed at utils/finance.ts:178 is never used there.
- Math.round on the output figures (utils/finance.ts:57-59, 130-132, 247-250, 301-303): every record carries the unrounded value.
- Accumulation.CalculateAccumulationPath: when the discount-factor sum is 0, the source divides by it and gets a savings rate of +Infinity, -Infinity or NaN, and records built from it. The model reports savings 0 and success = false instead. Its success test at utils/finance.ts:258 is `savings < Infinity && !isNaN(savings)`, which rejects +Infinity and NaN but accepts -Infinity. So for a negative target with a zero sum the source reports success = true where the model reports false; calculateAccumulationPath(50, 52, -5, -200, 0) is such an input. A zero sum needs 1 + inflationRate/100 <= 0 or 1 + monthlyReturn <= 0 (Accumulation.AccumulationSucceeds).
- RetirementNeeds.CalculateRetirementNeeds: requires 1 + inflationRate/100 ≠ 0. The present-value exponent `retirementAge - currentAge` is an integer, so any non-zero base, negative ones included, has a real power (Numeric.PowInt). A zero base (inflationRate = -100) is excluded. There the source gives NaN for retirement in the future: the monthly inflation is -1, the first retirement expense is 0, every probe survives, the capital is 0, and 0 / 0^n is NaN. It gives the nominal value for retirement now, because 0^0 = 1, and 0 for retirement in the past, because the nominal value is divided by Infinity. Trend.CalculateTrendAnalysis and Fire.CalculateFire inherit this requirement.
- Format: toFixed and toLocaleString are uninterpreted (the `render` parameter), so digit strings, rounding at a unit boundary (9999.6 printing as "10000") and grouping separators are not modelled. Negative zero and NaN inputs are not modelled either.
- The presentation layer outside the two core files (App.tsx, components/, contexts/, locales/, workers/, services/geminiService.ts) is not part of this model.
