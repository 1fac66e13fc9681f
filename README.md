# Million Dollar Journey — projection engine in Dafny

This project models the financial projection engine of Million Dollar
Journey, a personal-finance tracker. The user's goal is a net worth of one
million US dollars by a target date. The engine does four things:

- it converts every account balance into US dollars, using a snapshot of
  exchange rates or a built-in fallback table;
- it splits the portfolio into investments and cash;
- it projects each account's growth with compound interest;
- it derives the monthly contribution still needed, the projected net
  worth, the progress percentage and an "on track" verdict. It also produces
  a year-by-year projection timeline and a bisection estimate of the years
  until the target is reached.

Files:

- `jsmath.dfy` (module `JsMath`): the JavaScript number operations the
  engine uses (`Math.max`, `Math.min`, `Math.floor`, `Math.ceil`) and an
  `Option` type. `None` represents a NaN or infinite result.
  `Math.pow` with a fractional exponent has no exact counterpart over the
  reals. Every operation that needs it therefore takes a parameter
  `pow: PowFn`. `PowFn` is any function satisfying three laws: a positive
  base gives a positive power; a base above 1 with a positive exponent gives
  more than 1; and for a base above 1 the power grows with the exponent.
- `constants.dfy` (module `Constants`): the default target amount, target
  date and investment return.
- `currency.dfy` (module `CurrencyService`): the supported currencies, the
  fallback rate table, `convertCurrency`, `toUSD` and `getExchangeRate`.
- `database.dfy` (module `Database`): the four account fields the engine
  reads.
- `calculator.dfy` (module `Calculator`): every function of the calculator
  service. Its loops (the portfolio totals, the projection timeline, the
  bisection) are methods with loop invariants. Each is proved against a
  recursive specification function over the account sequence, or against
  the bisection's bracketing property.
- `scenarios.dfy` (module `Scenarios`): concrete portfolios passed to
  `CalculateMonthlyContribution`. They cover an empty portfolio, a
  zero-rate investment account and a target date in the past.

Dates are milliseconds since the Unix epoch, as reals. The current time is
a parameter `now` instead of `new Date()`. Arithmetic is exact real
arithmetic, not IEEE doubles.

Behaviour of the source worth knowing:

- An investment account whose `interest_rate_pa` is 0 grows at the default
  investment rate, not at 0%. `account.interest_rate_pa ||
  defaultInvestmentRate` treats 0 as missing (calculator.ts:206). This is
  `Calculator.ZeroRateInvestmentGrows`, stated for an account in any
  currency, and the scenario
  `Scenarios.ZeroRateInvestmentAccount` shows a 500 000 USD account at 0%
  reducing the gap by more than its balance.
- A zero monthly contribution does not imply "on track". When the target
  date has passed (calculator.ts:176-193), the contribution is 0 and
  `onTrack` is only `total >= targetAmount`.
- The timeline's year-0 value is `Math.max(investments, 0) + cash`, not the
  net worth. `calculateFutureValue` returns 0 for a non-positive present
  value, so a negative investment subtotal is dropped.
- The fallback rate for CZK is 20.63 (currency.ts:11).

## Model

| member | source | states |
|---|---|---|
| JsMath.Max | src/lib/services/calculator.ts:222 | `Math.max`: the result is at least both arguments and is one of them |
| JsMath.Min | src/lib/services/calculator.ts:302 | `Math.min`: the result is at most both arguments and is one of them |
| JsMath.Floor | src/lib/services/calculator.ts:148 | `Math.floor`: the greatest integer not above the argument |
| JsMath.Ceil | src/lib/services/calculator.ts:380 | `Math.ceil`: the least integer not below the argument |
| CurrencyService.FallbackRatesComplete | src/lib/services/currency.ts:9-18 | the fallback table quotes all eight currencies with positive rates and the dollar at 1, so every currency converts to USD with it |
| CurrencyService.FallbackRatesUsed | src/lib/services/currency.ts:119-124 | `convertCurrency` without a table gives the same result as with the fallback table |
| CurrencyService.FallbackRatesUsedToUSD | src/lib/services/currency.ts:136-139 | `toUSD` without a table uses the fallback rates, so a euro amount becomes amount / 0.85 dollars |
| CurrencyService.SuppliedTableUsed | src/lib/services/currency.ts:122-130 | a supplied table replaces the fallback: its own EUR rate is used, and a currency it lacks is returned unconverted |
| CurrencyService.ConvertCurrency | src/lib/services/currency.ts:113-131 | the amount is returned unchanged when the currencies are equal or either rate is missing or zero; otherwise the result is worth as many dollars as the amount (result × rate(from) = amount × rate(to)) |
| CurrencyService.ToUSD | src/lib/services/currency.ts:136-139 | a USD amount is returned as is; a missing or zero USD or source rate returns the raw amount; with the dollar at 1 the amount is divided by the source rate |
| CurrencyService.GetExchangeRate | src/lib/services/currency.ts:144-148 | 1 for the same currency; otherwise defined exactly when both rates are present and rate(from) ≠ 0, and then rate × rate(from) = rate(to) |
| CurrencyService.ConvertIsRateProduct | src/lib/services/currency.ts:119-148 | wherever a conversion happens, it is multiplication by `getExchangeRate` |
| CurrencyService.ConvertRoundTrip | src/lib/services/currency.ts:129-130 | converting there and back with usable rates returns the original amount |
| CurrencyService.ConvertPreservesSign | src/lib/services/currency.ts:124-130 | with no negative rate, a conversion keeps an amount positive, zero or negative (each in both directions) |
| Calculator.GrowthFactor | src/lib/services/calculator.ts:67-71 | the compound factor (1 + r/n)^(n·t) exceeds 1 for a positive rate and a positive time |
| Calculator.CalculateFutureValue | src/lib/services/calculator.ts:57-72 | 0 for a non-positive present value; the present value unchanged when the rate or the time is not positive |
| Calculator.FutureValueGrowth | src/lib/services/calculator.ts:57-72 | the future value is never negative, never below the present value, and strictly above it when value, rate and time are all positive |
| Calculator.CalculateRequiredMonthlyPayment | src/lib/services/calculator.ts:85-107 | 0 for a non-positive goal; the whole goal when no time is left; goal / (12·years) at a non-positive rate; positive for any positive goal |
| Calculator.CalculateFutureValueOfPayments | src/lib/services/calculator.ts:114-134 | 0 for a non-positive payment or time; payment × 12 × years at a non-positive rate; positive for a positive payment and time; never negative |
| Calculator.PaymentRoundTrip | src/lib/services/calculator.ts:85-134 | paying the required monthly payment for the given years accumulates exactly the goal |
| Calculator.PaymentRoundTripInverse | src/lib/services/calculator.ts:85-134 | the payment required to reach what a payment accumulates is that payment |
| Calculator.GetTimeRemaining | src/lib/services/calculator.ts:139-151 | months and years are never negative and are both 0 once the target date is reached; otherwise years × (365.25 days in ms) = the time left, and months is the floor of 12 × years |
| Calculator.GrowthRate | src/lib/services/calculator.ts:204-219 | an investment grows at its own nonzero rate or, at rate 0, at the default; any other account grows only at a positive own rate; no growth exactly for a non-investment with rate ≤ 0 |
| Calculator.AccountFutureValue | src/lib/services/calculator.ts:201-219 | an account that does not grow keeps its raw balance; a growing account with a non-positive dollar balance contributes 0 |
| Calculator.ZeroRateInvestmentGrows | src/lib/services/calculator.ts:202-207 | an investment account at 0%, in any currency, grows at the default rate; with a positive default rate, time and dollar balance it ends above its dollar balance |
| Calculator.HoldingsNotBelowNetWorth | src/lib/services/calculator.ts:196-219 | the projected value of the holdings is never below their net worth |
| Calculator.BucketsPartition | src/lib/services/calculator.ts:274-282 | the investment and cash buckets split the accounts (as multisets) by the `is_investment` flag |
| Calculator.BucketSumsAddUp | src/lib/services/calculator.ts:271-288 | the investment subtotal plus the cash subtotal is the total net worth |
| Calculator.CalculateTotalInUSD | src/lib/services/calculator.ts:263-289 | the loop's investments and cash are the dollar sums of the two buckets, and total = investments + cash = net worth |
| Calculator.ProgressPercentage | src/lib/services/calculator.ts:239 | undefined (NaN or infinite) exactly for a zero target; otherwise percentage × target = total × 100 |
| Calculator.CalculateMonthlyContribution | src/lib/services/calculator.ts:166-258 | totals, echoed inputs and progress; gap = max(0, target − future holdings); past target date: no time, contribution 0, projection = net worth, on track iff net worth ≥ target; otherwise the future holdings are at least the net worth, the contribution is 0 exactly when the gap is 0 and is the required payment otherwise, the projected net worth is max(target, future holdings), and the on-track rule |
| Calculator.CalculateMilestoneProgress | src/lib/services/calculator.ts:298-307 | achieved iff current ≥ milestone; remaining ≥ 0, 0 exactly when achieved, and closes the gap otherwise; percentage ≤ 100, 100 exactly when achieved for a positive milestone, current/milestone × 100 below it; a finite percentage for every nonzero milestone; for a zero milestone a finite percentage exactly when current is positive, and then it is 100 |
| Calculator.FutureValueMonotone | src/lib/services/calculator.ts:57-72 | for a fixed present value and rate, more years never give a smaller future value |
| Calculator.PaymentsMonotone | src/lib/services/calculator.ts:114-134 | for a fixed payment and rate, more years never accumulate less |
| Calculator.TrajectoryMonotone | src/lib/services/calculator.ts:367-371 | holdings plus contributions grow with the number of years, which the bisection relies on |
| Calculator.GenerateProjectionTimeline | src/lib/services/calculator.ts:312-349 | one point per whole year 0 … ⌊years⌋ (none for negative years), point k has year k and the projected value for k years, values never decrease, and year 0 is max(investments, 0) + cash |
| Calculator.CalculateYearsToTarget | src/lib/services/calculator.ts:354-381 | 0 when already at the target; none when there is neither contribution nor growth; otherwise the bisection brackets the crossing: everything up to `low` falls short, everything from `high` (below 100) reaches it, high − low ≤ 0.01, the answer is `high` rounded up to one decimal, and an unreachable target within 100 years gives 100 |
| Scenarios.EmptyPortfolio | src/lib/services/calculator.ts:196-241 | with no accounts and a future date, the net worth is 0, the gap the whole million, the contribution positive and the projection exactly the million |
| Scenarios.ZeroRateInvestmentAccount | src/lib/services/calculator.ts:201-222 | a single 500 000 USD investment at 0% grows beyond its balance and leaves a gap below 500 000 |
| Scenarios.PastTargetDate | src/lib/services/calculator.ts:175-193 | a target date in the past gives no time left, a contribution of 0 and on track iff the net worth has reached the target |

## Left out

- Fetching and caching exchange rates (`getLatestRates`, `getLiveRates`,
  currency.ts:34-108): the fallback copy returned on the server, the `fetch`
  call with its `revalidate` hint of one hour, and the browser
  `localStorage` cache with its 24-hour age check. These are network and
  browser-storage I/O. The snapshot they would produce is the `rates`
  parameter.
- The `console.warn` that `convertCurrency` issues on a missing or zero rate
  (currency.ts:125): logging only. The model keeps the returned amount.
- Currency formatting (currency.ts:150-195): display only.
- The `date` field of each timeline point, made with `setFullYear`: calendar
  arithmetic on the local clock. The model keeps `year` and `projectedValue`.
- The clock: `new Date()` is the parameter `now`.
- `Math.pow`: a parameter constrained by three laws instead of IEEE
  exponentiation. Floating-point rounding is not modelled; the model
  computes over exact reals.
- NaN rates and balances, and currency codes outside the eight supported
  ones (`account.currency as Currency` on an unknown string): the rate
  type is a map over the eight currencies with real values.
- The `async` wrappers: the calculator functions that are `async` have no
  awaits on I/O, so they behave as synchronous functions.
- The server actions, React contexts (`CurrencyProvider.convert`) and UI
  components that call the engine: outside the engine.
- Default arguments (`getTimeRemaining(targetDate = TARGET_DATE)`,
  `compoundingPerYear = 12`, the default investment rate): every argument is
  explicit, and `Constants` holds the default values.
- Calculator.CalculateFutureValue: requires `compoundingPerYear > 0`; the
  source accepts 0 or a negative value, which would divide by zero or flip
  the compounding, but every caller passes 12.
- Calculator.GrowthFactor: has the same `periodsPerYear > 0` requirement.
- Calculator.ProgressPercentage: an infinite or NaN percentage (a zero
  target) is `None` rather than a JavaScript number.
- Calculator.CalculateYearsToTarget: `low` and `high` are ghost outputs that
  expose the bracket; the source returns only the rounded `high`.
