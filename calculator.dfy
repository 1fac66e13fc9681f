/** The financial projection engine: compound growth, the annuity formulas,
    the time left until the target date, the dashboard's projection and the
    auxiliary milestone, timeline and years-to-target calculations.

    Money and rates are exact reals; rates are yearly percentages. `Math.pow`
    is the parameter `pow` (see JsMath.PowFn), and the clock reading is the
    parameter `now`, in milliseconds since the Unix epoch like `targetDate`. */
module Calculator {
  import opened JsMath
  import opened CurrencyService
  import opened Database

  /** Monthly payments. */
  const PaymentsPerYear: real := 12.0
  /** The compounding frequency every caller of `CalculateFutureValue` uses. */
  const MonthlyCompounding: real := 12.0
  const MsPerDay: real := 86400000.0
  const DaysPerYear: real := 365.25
  /** The "on track" heuristic's threshold: a needed contribution below this
      share of the current net worth still counts as on track. */
  const OnTrackShare: real := 0.1
  /** The years-to-target search looks no further than this many years ... */
  const SearchHorizonYears: real := 100.0
  /** ... and stops once its interval is no wider than this. */
  const SearchTolerance: real := 0.01

  // ---------------------------------------------------------------------
  // Time-value primitives
  // ---------------------------------------------------------------------

  /** `Math.pow(1 + r/n, n*t)` with `r = annualRate / 100`, `n` periods a
      year and `t` years: the factor by which one unit grows. */
  function GrowthFactor(pow: PowFn, annualRate: real, periodsPerYear: real, years: real): (g: real)
    requires periodsPerYear > 0.0
    ensures g > 0.0 || annualRate / 100.0 / periodsPerYear <= -1.0
    ensures annualRate > 0.0 && years > 0.0 ==> g > 1.0
  {
    var periods := periodsPerYear * years;
    assert annualRate > 0.0 && years > 0.0 ==> periods > 0.0;
    pow(1.0 + annualRate / 100.0 / periodsPerYear, periods)
  }

  /** Future value of a present amount under compound interest. A
      non-positive amount is worth 0; without a positive rate or a positive
      duration the amount is unchanged (see FutureValueGrowth for the rest). */
  function CalculateFutureValue(pow: PowFn, presentValue: real, annualRate: real, years: real,
                                compoundingPerYear: real): (fv: real)
    requires compoundingPerYear > 0.0
    ensures presentValue <= 0.0 ==> fv == 0.0
    ensures presentValue > 0.0 && (annualRate <= 0.0 || years <= 0.0) ==> fv == presentValue
  {
    if presentValue <= 0.0 then 0.0
    else if annualRate <= 0.0 then presentValue // no growth
    else if years <= 0.0 then presentValue
    else presentValue * GrowthFactor(pow, annualRate, compoundingPerYear, years)
  }

  /** Compounding never loses money: the future value is never negative and
      never below the present value, and with a positive amount, rate and
      duration it is strictly more. */
  lemma FutureValueGrowth(pow: PowFn, presentValue: real, annualRate: real, years: real,
                          compoundingPerYear: real)
    requires compoundingPerYear > 0.0
    ensures CalculateFutureValue(pow, presentValue, annualRate, years, compoundingPerYear) >= 0.0
    ensures CalculateFutureValue(pow, presentValue, annualRate, years, compoundingPerYear) >= presentValue
    ensures presentValue > 0.0 && annualRate > 0.0 && years > 0.0 ==>
      CalculateFutureValue(pow, presentValue, annualRate, years, compoundingPerYear) > presentValue
  {
    if presentValue > 0.0 && annualRate > 0.0 && years > 0.0 {
      var g := GrowthFactor(pow, annualRate, compoundingPerYear, years);
      var fv := CalculateFutureValue(pow, presentValue, annualRate, years, compoundingPerYear);
      MulAboveOne(presentValue, g, fv);
    } else if presentValue <= 0.0 {
      assert CalculateFutureValue(pow, presentValue, annualRate, years, compoundingPerYear) == 0.0;
    } else {
      assert CalculateFutureValue(pow, presentValue, annualRate, years, compoundingPerYear) == presentValue;
    }
  }

  /** The level monthly payment that accumulates to `futureValueNeeded`: the
      future value of an annuity solved for the payment. Nothing is needed
      for a non-positive goal; with no time left the whole goal is due now;
      without interest the goal is split evenly over the months. Any positive
      goal needs a positive payment. */
  function CalculateRequiredMonthlyPayment(pow: PowFn, futureValueNeeded: real, annualRate: real,
                                           years: real): (pmt: real)
    ensures futureValueNeeded <= 0.0 ==> pmt == 0.0
    ensures futureValueNeeded > 0.0 && years <= 0.0 ==> pmt == futureValueNeeded
    ensures futureValueNeeded > 0.0 && years > 0.0 && annualRate <= 0.0 ==>
      pmt * (PaymentsPerYear * years) == futureValueNeeded
    ensures futureValueNeeded > 0.0 ==> pmt > 0.0
  {
    if futureValueNeeded <= 0.0 then 0.0
    else if years <= 0.0 then futureValueNeeded // need it all now
    else
      var totalPeriods := PaymentsPerYear * years;
      if annualRate <= 0.0 then futureValueNeeded / totalPeriods
      else
        var monthlyRate := annualRate / 100.0 / PaymentsPerYear;
        var growthFactor := GrowthFactor(pow, annualRate, PaymentsPerYear, years) - 1.0;
        assert futureValueNeeded * monthlyRate > 0.0;
        futureValueNeeded * monthlyRate / growthFactor
  }

  /** Future value of a level monthly payment stream. No payment or no time
      accumulates nothing; without interest the payments simply add up; any
      positive payment over a positive time accumulates a positive amount. */
  function CalculateFutureValueOfPayments(pow: PowFn, monthlyPayment: real, annualRate: real,
                                          years: real): (fv: real)
    ensures monthlyPayment <= 0.0 || years <= 0.0 ==> fv == 0.0
    ensures monthlyPayment > 0.0 && years > 0.0 && annualRate <= 0.0 ==>
      fv == monthlyPayment * PaymentsPerYear * years
    ensures monthlyPayment > 0.0 && years > 0.0 ==> fv > 0.0
    ensures fv >= 0.0
  {
    if monthlyPayment <= 0.0 then 0.0
    else if years <= 0.0 then 0.0
    else if annualRate <= 0.0 then monthlyPayment * PaymentsPerYear * years
    else
      var monthlyRate := annualRate / 100.0 / PaymentsPerYear;
      var growthFactor := GrowthFactor(pow, annualRate, PaymentsPerYear, years) - 1.0;
      assert growthFactor / monthlyRate > 0.0;
      monthlyPayment * (growthFactor / monthlyRate)
  }

  lemma MulAboveOne(k: real, g: real, product: real)
    requires k > 0.0 && g > 1.0 && product == k * g
    ensures product > k
  {
    assert product - k == k * (g - 1.0);
  }

  /** Multiplying by `m / g` and by `g / m`, in either order, cancels. */
  lemma CancelFactor(x: real, m: real, g: real, step: real, back: real)
    requires m > 0.0 && g > 0.0
    requires (step == x * m / g && back == step * (g / m)) || (step == x * (g / m) && back == step * m / g)
    ensures back == x
  {
    var q := g / m;
    assert q * m == g;
    if step == x * m / g && back == step * q {
      assert back == x * (m * q) / g;
    } else {
      assert back == x * (q * m) / g;
    }
  }

  /** Paying the required monthly payment accumulates exactly the goal. */
  lemma PaymentRoundTrip(pow: PowFn, futureValueNeeded: real, annualRate: real, years: real)
    requires futureValueNeeded > 0.0 && years > 0.0
    ensures CalculateFutureValueOfPayments(pow,
              CalculateRequiredMonthlyPayment(pow, futureValueNeeded, annualRate, years),
              annualRate, years) == futureValueNeeded
  {
    var pmt := CalculateRequiredMonthlyPayment(pow, futureValueNeeded, annualRate, years);
    var fv := CalculateFutureValueOfPayments(pow, pmt, annualRate, years);
    if annualRate <= 0.0 {
      assert pmt * (PaymentsPerYear * years) == futureValueNeeded;
      assert fv == pmt * PaymentsPerYear * years;
    } else {
      var m := annualRate / 100.0 / PaymentsPerYear;
      var g := GrowthFactor(pow, annualRate, PaymentsPerYear, years) - 1.0;
      assert pmt == futureValueNeeded * m / g;
      assert fv == pmt * (g / m);
      CancelFactor(futureValueNeeded, m, g, pmt, fv);
    }
  }

  /** The payment that accumulates to a stream's future value is the
      stream's own payment. */
  lemma PaymentRoundTripInverse(pow: PowFn, monthlyPayment: real, annualRate: real, years: real)
    requires monthlyPayment > 0.0 && years > 0.0
    ensures CalculateRequiredMonthlyPayment(pow,
              CalculateFutureValueOfPayments(pow, monthlyPayment, annualRate, years),
              annualRate, years) == monthlyPayment
  {
    var fv := CalculateFutureValueOfPayments(pow, monthlyPayment, annualRate, years);
    var pmt := CalculateRequiredMonthlyPayment(pow, fv, annualRate, years);
    if annualRate <= 0.0 {
      assert fv == monthlyPayment * PaymentsPerYear * years;
      assert pmt * (PaymentsPerYear * years) == fv;
    } else {
      var m := annualRate / 100.0 / PaymentsPerYear;
      var g := GrowthFactor(pow, annualRate, PaymentsPerYear, years) - 1.0;
      assert fv == monthlyPayment * (g / m);
      assert pmt == fv * m / g;
      CancelFactor(monthlyPayment, m, g, fv, pmt);
    }
  }

  /** Months and years left until a date. */
  datatype TimeLeft = TimeLeft(months: int, years: real)

  /** `getTimeRemaining(targetDate)` read at the instant `now`: years are
      Julian years (365.25 days) and may be fractional; months are whole
      months, rounded down; a target at or before `now` leaves nothing. */
  function GetTimeRemaining(targetDate: real, now: real): (t: TimeLeft)
    ensures t.months >= 0 && t.years >= 0.0
    ensures targetDate <= now ==> t.months == 0 && t.years == 0.0
    ensures targetDate > now ==> t.years > 0.0 && t.years * (DaysPerYear * MsPerDay) == targetDate - now
    ensures targetDate > now ==> t.months as real <= 12.0 * t.years < t.months as real + 1.0
  {
    var diffMs := targetDate - now;
    var diffDays := diffMs / MsPerDay;
    var years := diffDays / DaysPerYear;
    var months := years * 12.0;
    var wholeMonths := Floor(months);
    TimeLeft(if wholeMonths < 0 then 0 else wholeMonths, Max(0.0, years))
  }

  // ---------------------------------------------------------------------
  // Per-account growth and the sums over accounts
  // ---------------------------------------------------------------------

  /** The rate an account's balance compounds at until the target date, or
      `None` when its balance is carried over without growth. An investment
      account uses `interest_rate_pa || defaultInvestmentRate`, so a rate of
      exactly 0 is replaced by the default; another account grows only at a
      positive rate of its own. */
  function GrowthRate(account: Account, defaultInvestmentRate: real): (rate: Option<real>)
    ensures account.isInvestment && account.interestRatePa == 0.0 ==> rate == Some(defaultInvestmentRate)
    ensures account.interestRatePa != 0.0 && (account.isInvestment || account.interestRatePa > 0.0) ==>
      rate == Some(account.interestRatePa)
    ensures rate.None? <==> !account.isInvestment && account.interestRatePa <= 0.0
  {
    if account.isInvestment then
      Some(if account.interestRatePa != 0.0 then account.interestRatePa else defaultInvestmentRate)
    else if account.interestRatePa > 0.0 then Some(account.interestRatePa)
    else None
  }

  /** An account's balance in dollars. */
  function BalanceUSD(account: Account, rates: Option<Rates>): real
  {
    ToUSD(account.balance, account.currency, rates)
  }

  /** What one account's current balance is worth, in dollars, at the target
      date. A balance that does not grow is carried over as it is, negative
      or not; a growing account with a non-positive balance is worth 0; a
      growing account is never worth less than today. */
  function AccountFutureValue(pow: PowFn, account: Account, defaultInvestmentRate: real, years: real,
                              rates: Option<Rates>): (v: real)
    ensures GrowthRate(account, defaultInvestmentRate).None? ==> v == BalanceUSD(account, rates)
    ensures GrowthRate(account, defaultInvestmentRate).Some? && BalanceUSD(account, rates) <= 0.0 ==> v == 0.0
  {
    var balanceUSD := BalanceUSD(account, rates);
    match GrowthRate(account, defaultInvestmentRate)
    case Some(rate) => CalculateFutureValue(pow, balanceUSD, rate, years, MonthlyCompounding)
    case None => balanceUSD
  }

  /** An investment account whose own rate is 0 is not left flat: in any
      currency, it compounds at the default rate, and with a positive default
      rate, time and dollar balance it ends above its dollar balance. */
  lemma ZeroRateInvestmentGrows(pow: PowFn, balance: real, currency: Currency, defaultInvestmentRate: real,
                                years: real, rates: Option<Rates>)
    requires BalanceUSD(Account(balance, currency, true, 0.0), rates) > 0.0
    requires defaultInvestmentRate > 0.0 && years > 0.0
    ensures GrowthRate(Account(balance, currency, true, 0.0), defaultInvestmentRate) == Some(defaultInvestmentRate)
    ensures AccountFutureValue(pow, Account(balance, currency, true, 0.0), defaultInvestmentRate, years, rates)
            > BalanceUSD(Account(balance, currency, true, 0.0), rates)
  {
    var balanceUSD := BalanceUSD(Account(balance, currency, true, 0.0), rates);
    FutureValueGrowth(pow, balanceUSD, defaultInvestmentRate, years, MonthlyCompounding);
  }

  /** The dollar balances of `accounts`, summed from the first to the last. */
  function BalanceSum(accounts: seq<Account>, rates: Option<Rates>): real
    decreases |accounts|
  {
    if accounts == [] then 0.0
    else BalanceSum(accounts[..|accounts| - 1], rates) + BalanceUSD(accounts[|accounts| - 1], rates)
  }

  /** The accounts whose investment flag is `investments`, in order. */
  function Bucket(accounts: seq<Account>, investments: bool): (b: seq<Account>)
    decreases |accounts|
  {
    if accounts == [] then []
    else
      var last := accounts[|accounts| - 1];
      Bucket(accounts[..|accounts| - 1], investments) + (if last.isInvestment == investments then [last] else [])
  }

  /** The value of all current holdings at the target date. */
  function HoldingsFutureValue(pow: PowFn, accounts: seq<Account>, defaultInvestmentRate: real, years: real,
                               rates: Option<Rates>): real
    decreases |accounts|
  {
    if accounts == [] then 0.0
    else
      HoldingsFutureValue(pow, accounts[..|accounts| - 1], defaultInvestmentRate, years, rates)
      + AccountFutureValue(pow, accounts[|accounts| - 1], defaultInvestmentRate, years, rates)
  }

  lemma BalanceSumSnoc(accounts: seq<Account>, a: Account, rates: Option<Rates>)
    ensures BalanceSum(accounts + [a], rates) == BalanceSum(accounts, rates) + BalanceUSD(a, rates)
  {
    assert (accounts + [a])[..|accounts|] == accounts;
  }

  lemma BucketStep(accounts: seq<Account>, a: Account, investments: bool)
    ensures a.isInvestment == investments ==>
      Bucket(accounts + [a], investments) == Bucket(accounts, investments) + [a]
    ensures a.isInvestment != investments ==>
      Bucket(accounts + [a], investments) == Bucket(accounts, investments)
  {
    assert (accounts + [a])[..|accounts|] == accounts;
    assert Bucket(accounts, investments) + [] == Bucket(accounts, investments);
  }

  /** Every account lands in exactly one of the two buckets, and the
      investment bucket holds exactly the investment accounts. */
  lemma {:induction false} BucketsPartition(accounts: seq<Account>)
    ensures multiset(Bucket(accounts, true)) + multiset(Bucket(accounts, false)) == multiset(accounts)
    ensures forall a :: a in Bucket(accounts, true) ==> a.isInvestment
    ensures forall a :: a in Bucket(accounts, false) ==> !a.isInvestment
    decreases |accounts|
  {
    if accounts != [] {
      var prefix, last := accounts[..|accounts| - 1], accounts[|accounts| - 1];
      BucketsPartition(prefix);
      assert accounts == prefix + [last];
      BucketStep(prefix, last, true);
      BucketStep(prefix, last, false);
    }
  }

  /** The two subtotals add up to the whole. */
  lemma {:induction false} BucketSumsAddUp(accounts: seq<Account>, rates: Option<Rates>)
    ensures BalanceSum(Bucket(accounts, true), rates) + BalanceSum(Bucket(accounts, false), rates)
            == BalanceSum(accounts, rates)
    decreases |accounts|
  {
    if accounts != [] {
      var prefix, last := accounts[..|accounts| - 1], accounts[|accounts| - 1];
      BucketSumsAddUp(prefix, rates);
      assert accounts == prefix + [last];
      BucketStep(prefix, last, true);
      BucketStep(prefix, last, false);
      BalanceSumSnoc(Bucket(prefix, last.isInvestment), last, rates);
    }
  }

  /** Growth never lowers the projection: the holdings' value at the target
      date is at least today's net worth. */
  lemma {:induction false} HoldingsNotBelowNetWorth(pow: PowFn, accounts: seq<Account>,
                                                   defaultInvestmentRate: real, years: real,
                                                   rates: Option<Rates>)
    ensures HoldingsFutureValue(pow, accounts, defaultInvestmentRate, years, rates) >= BalanceSum(accounts, rates)
    decreases |accounts|
  {
    if accounts != [] {
      var last := accounts[|accounts| - 1];
      HoldingsNotBelowNetWorth(pow, accounts[..|accounts| - 1], defaultInvestmentRate, years, rates);
      match GrowthRate(last, defaultInvestmentRate)
      case Some(rate) =>
        FutureValueGrowth(pow, BalanceUSD(last, rates), rate, years, MonthlyCompounding);
      case None =>
    }
  }

  // ---------------------------------------------------------------------
  // The aggregator and the projection orchestrator
  // ---------------------------------------------------------------------

  datatype Totals = Totals(total: real, investments: real, cash: real)

  /** `calculateTotalInUSD`: the dollar subtotals of investment and other
      ("cash") accounts and their sum. */
  method CalculateTotalInUSD(accounts: seq<Account>, rates: Option<Rates>) returns (totals: Totals)
    ensures totals.investments == BalanceSum(Bucket(accounts, true), rates)
    ensures totals.cash == BalanceSum(Bucket(accounts, false), rates)
    ensures totals.total == totals.investments + totals.cash
    ensures totals.total == BalanceSum(accounts, rates)
  {
    var investments, cash := 0.0, 0.0;
    for i := 0 to |accounts|
      invariant investments == BalanceSum(Bucket(accounts[..i], true), rates)
      invariant cash == BalanceSum(Bucket(accounts[..i], false), rates)
    {
      var account := accounts[i];
      var balanceUSD := ToUSD(account.balance, account.currency, rates);
      assert accounts[..i + 1] == accounts[..i] + [account];
      BucketStep(accounts[..i], account, true);
      BucketStep(accounts[..i], account, false);
      if account.isInvestment {
        BalanceSumSnoc(Bucket(accounts[..i], true), account, rates);
        investments := investments + balanceUSD;
      } else {
        BalanceSumSnoc(Bucket(accounts[..i], false), account, rates);
        cash := cash + balanceUSD;
      }
    }
    assert accounts[..|accounts|] == accounts;
    BucketSumsAddUp(accounts, rates);
    totals := Totals(investments + cash, investments, cash);
  }

  /** `(total / targetAmount) * 100`; a target of 0 gives JavaScript's NaN or
      an infinity, here `None`. */
  function ProgressPercentage(total: real, targetAmount: real): (p: Option<real>)
    ensures p.None? <==> targetAmount == 0.0
    ensures p.Some? ==> p.value * targetAmount == total * 100.0
  {
    if targetAmount == 0.0 then None else Some(total / targetAmount * 100.0)
  }

  datatype CalculationResult = CalculationResult(
    currentNetWorthUSD: real,
    currentInvestmentsUSD: real,
    currentCashUSD: real,
    projectedNetWorthUSD: real,
    futureValueOfCurrentHoldings: real,
    gapToTarget: real,
    monthlyContributionNeeded: real,
    monthsRemaining: int,
    yearsRemaining: real,
    targetDate: real,
    targetAmount: real,
    progressPercentage: Option<real>,
    onTrack: bool
  )

  /** `calculateMonthlyContribution`, evaluated at the instant `now`.

      Once the target date has passed nothing more is projected or needed
      and the holdings are judged as they are. Otherwise each account is
      grown at its own rate, the shortfall is what that leaves to the target,
      and the contribution needed is the monthly payment, invested at the
      default rate, that closes the shortfall exactly: the projected net
      worth then meets the target, or exceeds it when there is no shortfall. */
  method CalculateMonthlyContribution(pow: PowFn, accounts: seq<Account>, targetAmount: real, targetDate: real,
                                      defaultInvestmentRate: real, rates: Option<Rates>, now: real)
    returns (res: CalculationResult)
    ensures res.currentNetWorthUSD == BalanceSum(accounts, rates)
    ensures res.currentInvestmentsUSD == BalanceSum(Bucket(accounts, true), rates)
    ensures res.currentCashUSD == BalanceSum(Bucket(accounts, false), rates)
    ensures res.currentNetWorthUSD == res.currentInvestmentsUSD + res.currentCashUSD
    ensures res.targetDate == targetDate && res.targetAmount == targetAmount
    ensures res.progressPercentage == ProgressPercentage(res.currentNetWorthUSD, targetAmount)
    ensures res.gapToTarget >= 0.0
    ensures res.gapToTarget == Max(0.0, targetAmount - res.futureValueOfCurrentHoldings)
    // the target date has passed
    ensures targetDate <= now ==>
      && res.monthsRemaining == 0 && res.yearsRemaining == 0.0
      && res.monthlyContributionNeeded == 0.0
      && res.futureValueOfCurrentHoldings == res.currentNetWorthUSD
      && res.projectedNetWorthUSD == res.currentNetWorthUSD
      && (res.onTrack <==> res.currentNetWorthUSD >= targetAmount)
    // the target date lies ahead
    ensures targetDate > now ==>
      && res.monthsRemaining == GetTimeRemaining(targetDate, now).months
      && res.yearsRemaining == GetTimeRemaining(targetDate, now).years
      && res.futureValueOfCurrentHoldings
         == HoldingsFutureValue(pow, accounts, defaultInvestmentRate, res.yearsRemaining, rates)
      && res.futureValueOfCurrentHoldings >= res.currentNetWorthUSD
      && (res.monthlyContributionNeeded == 0.0 <==> res.gapToTarget == 0.0)
      && (res.gapToTarget > 0.0 ==>
            res.monthlyContributionNeeded ==
            CalculateRequiredMonthlyPayment(pow, res.gapToTarget, defaultInvestmentRate, res.yearsRemaining))
      && res.projectedNetWorthUSD == res.futureValueOfCurrentHoldings
         + CalculateFutureValueOfPayments(pow, res.monthlyContributionNeeded, defaultInvestmentRate, res.yearsRemaining)
      && res.projectedNetWorthUSD == Max(targetAmount, res.futureValueOfCurrentHoldings)
      && (res.onTrack <==>
            (res.monthlyContributionNeeded <= 0.0 ||
             (res.currentNetWorthUSD > 0.0 &&
              res.monthlyContributionNeeded < res.currentNetWorthUSD * OnTrackShare)))
  {
    var remaining := GetTimeRemaining(targetDate, now);
    var monthsRemaining, yearsRemaining := remaining.months, remaining.years;

    // the target date has passed
    if yearsRemaining <= 0.0 {
      var currentTotal := CalculateTotalInUSD(accounts, rates);
      res := CalculationResult(
        currentNetWorthUSD := currentTotal.total,
        currentInvestmentsUSD := currentTotal.investments,
        currentCashUSD := currentTotal.cash,
        projectedNetWorthUSD := currentTotal.total,
        futureValueOfCurrentHoldings := currentTotal.total,
        gapToTarget := Max(0.0, targetAmount - currentTotal.total),
        monthlyContributionNeeded := 0.0,
        monthsRemaining := 0,
        yearsRemaining := 0.0,
        targetDate := targetDate,
        targetAmount := targetAmount,
        progressPercentage := ProgressPercentage(currentTotal.total, targetAmount),
        onTrack := currentTotal.total >= targetAmount);
      return;
    }

    var currentHoldings := CalculateTotalInUSD(accounts, rates);

    var futureValueOfCurrentHoldings := 0.0;
    for i := 0 to |accounts|
      invariant futureValueOfCurrentHoldings
                == HoldingsFutureValue(pow, accounts[..i], defaultInvestmentRate, yearsRemaining, rates)
    {
      var account := accounts[i];
      var balanceUSD := ToUSD(account.balance, account.currency, rates);
      if account.isInvestment {
        var rate := if account.interestRatePa != 0.0 then account.interestRatePa else defaultInvestmentRate;
        futureValueOfCurrentHoldings := futureValueOfCurrentHoldings
          + CalculateFutureValue(pow, balanceUSD, rate, yearsRemaining, MonthlyCompounding);
      } else if account.interestRatePa > 0.0 {
        futureValueOfCurrentHoldings := futureValueOfCurrentHoldings
          + CalculateFutureValue(pow, balanceUSD, account.interestRatePa, yearsRemaining, MonthlyCompounding);
      } else {
        futureValueOfCurrentHoldings := futureValueOfCurrentHoldings + balanceUSD;
      }
      assert accounts[..i + 1][..i] == accounts[..i];
    }
    assert accounts[..|accounts|] == accounts;
    HoldingsNotBelowNetWorth(pow, accounts, defaultInvestmentRate, yearsRemaining, rates);

    var gapToTarget := Max(0.0, targetAmount - futureValueOfCurrentHoldings);
    var monthlyContributionNeeded := if gapToTarget > 0.0
      then CalculateRequiredMonthlyPayment(pow, gapToTarget, defaultInvestmentRate, yearsRemaining)
      else 0.0;
    var futureValueOfContributions :=
      CalculateFutureValueOfPayments(pow, monthlyContributionNeeded, defaultInvestmentRate, yearsRemaining);
    var projectedNetWorthUSD := futureValueOfCurrentHoldings + futureValueOfContributions;
    if gapToTarget > 0.0 {
      PaymentRoundTrip(pow, gapToTarget, defaultInvestmentRate, yearsRemaining);
    }

    var progressPercentage := ProgressPercentage(currentHoldings.total, targetAmount);
    var onTrack := monthlyContributionNeeded <= 0.0 ||
      (currentHoldings.total > 0.0 && monthlyContributionNeeded < currentHoldings.total * OnTrackShare);

    res := CalculationResult(
      currentNetWorthUSD := currentHoldings.total,
      currentInvestmentsUSD := currentHoldings.investments,
      currentCashUSD := currentHoldings.cash,
      projectedNetWorthUSD := projectedNetWorthUSD,
      futureValueOfCurrentHoldings := futureValueOfCurrentHoldings,
      gapToTarget := gapToTarget,
      monthlyContributionNeeded := monthlyContributionNeeded,
      monthsRemaining := monthsRemaining,
      yearsRemaining := yearsRemaining,
      targetDate := targetDate,
      targetAmount := targetAmount,
      progressPercentage := progressPercentage,
      onTrack := onTrack);
  }

  // ---------------------------------------------------------------------
  // Utilities
  // ---------------------------------------------------------------------

  datatype MilestoneProgress = MilestoneProgress(percentage: Option<real>, remaining: real, achieved: bool)

  /** `calculateMilestoneProgress`: the share of a milestone reached, capped
      at 100 percent, what is left to reach it and whether it is reached. A
      milestone of 0 gives JavaScript's `Math.min(100, ±Infinity or NaN)`:
      100 for a positive amount, otherwise no finite percentage (`None`). */
  function CalculateMilestoneProgress(currentAmount: real, milestoneAmount: real): (p: MilestoneProgress)
    ensures p.achieved <==> currentAmount >= milestoneAmount
    ensures p.remaining >= 0.0 && (p.remaining == 0.0 <==> p.achieved)
    ensures !p.achieved ==> currentAmount + p.remaining == milestoneAmount
    ensures p.percentage.Some? ==> p.percentage.value <= 100.0
    ensures milestoneAmount == 0.0 ==> (p.percentage.Some? <==> currentAmount > 0.0)
    ensures milestoneAmount == 0.0 && currentAmount > 0.0 ==> p.percentage == Some(100.0)
    ensures milestoneAmount != 0.0 ==> p.percentage.Some?
    ensures milestoneAmount > 0.0 ==> p.percentage.Some? && (p.percentage.value == 100.0 <==> p.achieved)
    ensures milestoneAmount > 0.0 && !p.achieved ==> p.percentage.value * milestoneAmount == currentAmount * 100.0
  {
    var percentage :=
      if milestoneAmount != 0.0 then Some(Min(100.0, currentAmount / milestoneAmount * 100.0))
      else if currentAmount > 0.0 then Some(100.0) // Math.min(100, Infinity)
      else None;                                   // -Infinity or NaN
    var remaining := Max(0.0, milestoneAmount - currentAmount);
    var achieved := currentAmount >= milestoneAmount;
    MilestoneProgress(percentage, remaining, achieved)
  }

  /** What an amount invested at `annualRate` plus a monthly contribution
      invested at the same rate are worth after `years`. */
  function TrajectoryValue(pow: PowFn, currentAmount: real, monthlyContribution: real, annualRate: real,
                           years: real): real
  {
    CalculateFutureValue(pow, currentAmount, annualRate, years, MonthlyCompounding)
    + CalculateFutureValueOfPayments(pow, monthlyContribution, annualRate, years)
  }

  lemma FutureValueMonotone(pow: PowFn, presentValue: real, annualRate: real, y1: real, y2: real)
    requires y1 <= y2
    ensures CalculateFutureValue(pow, presentValue, annualRate, y1, MonthlyCompounding)
            <= CalculateFutureValue(pow, presentValue, annualRate, y2, MonthlyCompounding)
  {
    var v1 := CalculateFutureValue(pow, presentValue, annualRate, y1, MonthlyCompounding);
    var v2 := CalculateFutureValue(pow, presentValue, annualRate, y2, MonthlyCompounding);
    FutureValueGrowth(pow, presentValue, annualRate, y2, MonthlyCompounding);
    if presentValue > 0.0 && annualRate > 0.0 && y1 > 0.0 {
      var b := 1.0 + annualRate / 100.0 / MonthlyCompounding;
      var e1, e2 := MonthlyCompounding * y1, MonthlyCompounding * y2;
      assert e1 <= e2;
      MulLeftMonotone(presentValue, pow(b, e1), pow(b, e2), v1, v2);
    }
  }

  lemma PaymentsMonotone(pow: PowFn, monthlyPayment: real, annualRate: real, y1: real, y2: real)
    requires y1 <= y2
    ensures CalculateFutureValueOfPayments(pow, monthlyPayment, annualRate, y1)
            <= CalculateFutureValueOfPayments(pow, monthlyPayment, annualRate, y2)
  {
    var v1 := CalculateFutureValueOfPayments(pow, monthlyPayment, annualRate, y1);
    var v2 := CalculateFutureValueOfPayments(pow, monthlyPayment, annualRate, y2);
    if monthlyPayment > 0.0 && y1 > 0.0 {
      if annualRate <= 0.0 {
        MulLeftMonotone(monthlyPayment * PaymentsPerYear, y1, y2, v1, v2);
      } else {
        var m := annualRate / 100.0 / PaymentsPerYear;
        var b := 1.0 + m;
        var e1, e2 := PaymentsPerYear * y1, PaymentsPerYear * y2;
        assert e1 <= e2;
        var g1, g2 := pow(b, e1) - 1.0, pow(b, e2) - 1.0;
        assert g1 <= g2;
        DivPositiveMonotone(g1, g2, m, g1 / m, g2 / m);
        MulLeftMonotone(monthlyPayment, g1 / m, g2 / m, v1, v2);
      }
    }
  }

  lemma MulLeftMonotone(k: real, a: real, b: real, ka: real, kb: real)
    requires k >= 0.0 && a <= b && ka == k * a && kb == k * b
    ensures ka <= kb
  {
    assert kb - ka == k * (b - a);
  }

  lemma DivPositiveMonotone(a: real, b: real, m: real, qa: real, qb: real)
    requires m > 0.0 && a <= b && qa == a / m && qb == b / m
    ensures qa <= qb
  {
    assert qb - qa == (b - a) / m;
  }

  /** Waiting longer never lowers the value of holdings plus contributions. */
  lemma TrajectoryMonotone(pow: PowFn, currentAmount: real, monthlyContribution: real, annualRate: real,
                           y1: real, y2: real)
    requires y1 <= y2
    ensures TrajectoryValue(pow, currentAmount, monthlyContribution, annualRate, y1)
            <= TrajectoryValue(pow, currentAmount, monthlyContribution, annualRate, y2)
  {
    FutureValueMonotone(pow, currentAmount, annualRate, y1, y2);
    PaymentsMonotone(pow, monthlyContribution, annualRate, y1, y2);
  }

  datatype TimelinePoint = TimelinePoint(year: nat, projectedValue: real)

  /** The timeline's value in a given year: the investments compounding at
      `investmentRate`, the cash unchanged, and the contributions. */
  function TimelineValue(pow: PowFn, totals: Totals, monthlyContribution: real, investmentRate: real,
                         year: nat): real
  {
    TrajectoryValue(pow, totals.investments, monthlyContribution, investmentRate, year as real) + totals.cash
  }

  /** `generateProjectionTimeline` without the calendar dates: one point for
      each whole year 0, 1, ... up to `years`, in order. The projection never
      falls from one year to the next, and year 0 is today's cash plus the
      investments, a negative investment subtotal counting as 0. */
  method GenerateProjectionTimeline(pow: PowFn, accounts: seq<Account>, monthlyContribution: real, years: real,
                                    investmentRate: real, rates: Option<Rates>)
    returns (timeline: seq<TimelinePoint>)
    ensures |timeline| == if years < 0.0 then 0 else Floor(years) + 1
    ensures forall k :: 0 <= k < |timeline| ==> timeline[k].year == k
    ensures forall k :: 0 <= k < |timeline| ==>
      timeline[k].projectedValue == TimelineValue(pow,
        Totals(BalanceSum(accounts, rates), BalanceSum(Bucket(accounts, true), rates),
               BalanceSum(Bucket(accounts, false), rates)),
        monthlyContribution, investmentRate, k)
    ensures forall i, j :: 0 <= i <= j < |timeline| ==> timeline[i].projectedValue <= timeline[j].projectedValue
    ensures |timeline| > 0 ==>
      (timeline[0].projectedValue ==
       Max(BalanceSum(Bucket(accounts, true), rates), 0.0) + BalanceSum(Bucket(accounts, false), rates))
  {
    timeline := [];
    var currentHoldings := CalculateTotalInUSD(accounts, rates);
    var year: nat := 0;
    while year as real <= years
      invariant |timeline| == year
      invariant year == 0 || (year - 1) as real <= years
      invariant forall k :: 0 <= k < year ==>
        timeline[k] == TimelinePoint(k, TimelineValue(pow, currentHoldings, monthlyContribution, investmentRate, k))
      decreases Floor(years) + 1 - year
    {
      var fvHoldings := CalculateFutureValue(pow, currentHoldings.investments, investmentRate, year as real,
                                             MonthlyCompounding) + currentHoldings.cash;
      var fvContributions := CalculateFutureValueOfPayments(pow, monthlyContribution, investmentRate, year as real);
      timeline := timeline + [TimelinePoint(year, fvHoldings + fvContributions)];
      year := year + 1;
    }
    forall i, j | 0 <= i <= j < |timeline|
      ensures timeline[i].projectedValue <= timeline[j].projectedValue
    {
      TrajectoryMonotone(pow, currentHoldings.investments, monthlyContribution, investmentRate, i as real, j as real);
    }
  }

  lemma HalvingDecreases(low: real, high: real)
    requires high - low > SearchTolerance
    ensures 0 <= Floor((high - (low + high) / 2.0) / SearchTolerance) < Floor((high - low) / SearchTolerance)
    ensures Floor(((low + high) / 2.0 - low) / SearchTolerance) < Floor((high - low) / SearchTolerance)
  {
    var x := (high - low) / SearchTolerance;
    assert (high - (low + high) / 2.0) / SearchTolerance == x / 2.0;
    assert ((low + high) / 2.0 - low) / SearchTolerance == x / 2.0;
    assert x > 1.0;
  }

  /** `calculateYearsToTarget`: 0 when the target is already met, `None`
      (JavaScript's `null`) when neither growth nor contributions can ever
      close the gap, and otherwise the bisection's upper end rounded up to a
      tenth of a year. The bisection keeps, in `low` and `high`, a year that
      falls short (or 0) and a year that reaches the target (or the 100-year
      horizon), and ends with them at most 0.01 apart; so every year up to a
      positive `low` falls short, every year from a `high` below the horizon
      reaches the target, and a target out of reach within the horizon gives
      100, not `None`. */
  method CalculateYearsToTarget(pow: PowFn, currentAmount: real, monthlyContribution: real, targetAmount: real,
                                annualRate: real)
    returns (result: Option<real>, ghost low: real, ghost high: real)
    ensures currentAmount >= targetAmount ==> result == Some(0.0)
    ensures currentAmount < targetAmount && monthlyContribution <= 0.0 && annualRate <= 0.0 ==> result == None
    ensures currentAmount < targetAmount && (monthlyContribution > 0.0 || annualRate > 0.0) ==>
      && result.Some?
      && 0.0 <= low < high <= SearchHorizonYears && high - low <= SearchTolerance
      && result.value == Ceil(high * 10.0) as real / 10.0
      && high <= result.value < high + 0.1 && result.value <= SearchHorizonYears
      && (low > 0.0 ==> forall y :: y <= low ==>
            TrajectoryValue(pow, currentAmount, monthlyContribution, annualRate, y) < targetAmount)
      && (high < SearchHorizonYears ==> forall y :: high <= y ==>
            TrajectoryValue(pow, currentAmount, monthlyContribution, annualRate, y) >= targetAmount)
    ensures currentAmount < targetAmount && (monthlyContribution > 0.0 || annualRate > 0.0) &&
            (forall y :: 0.0 <= y <= SearchHorizonYears ==>
               TrajectoryValue(pow, currentAmount, monthlyContribution, annualRate, y) < targetAmount)
            ==> result == Some(SearchHorizonYears)
  {
    low, high := 0.0, 0.0;
    if currentAmount >= targetAmount {
      return Some(0.0), low, high;
    }
    if monthlyContribution <= 0.0 && annualRate <= 0.0 {
      return None, low, high; // will never reach
    }

    var lo, hi := 0.0, SearchHorizonYears;
    while hi - lo > SearchTolerance
      invariant 0.0 <= lo < hi <= SearchHorizonYears
      invariant lo == 0.0 || TrajectoryValue(pow, currentAmount, monthlyContribution, annualRate, lo) < targetAmount
      invariant hi == SearchHorizonYears ||
                TrajectoryValue(pow, currentAmount, monthlyContribution, annualRate, hi) >= targetAmount
      decreases Floor((hi - lo) / SearchTolerance)
    {
      var mid := (lo + hi) / 2.0;
      var fvHoldings := CalculateFutureValue(pow, currentAmount, annualRate, mid, MonthlyCompounding);
      var fvContributions := CalculateFutureValueOfPayments(pow, monthlyContribution, annualRate, mid);
      var total := fvHoldings + fvContributions;
      HalvingDecreases(lo, hi);
      if total < targetAmount {
        lo := mid;
      } else {
        hi := mid;
      }
    }
    low, high := lo, hi;
    result := Some(Ceil(hi * 10.0) as real / 10.0);

    if lo > 0.0 {
      forall y | y <= lo
        ensures TrajectoryValue(pow, currentAmount, monthlyContribution, annualRate, y) < targetAmount
      {
        TrajectoryMonotone(pow, currentAmount, monthlyContribution, annualRate, y, lo);
      }
    }
    if hi < SearchHorizonYears {
      forall y | hi <= y
        ensures TrajectoryValue(pow, currentAmount, monthlyContribution, annualRate, y) >= targetAmount
      {
        TrajectoryMonotone(pow, currentAmount, monthlyContribution, annualRate, hi, y);
      }
    }
  }
}
