/** The projection on the application's default goal: one million dollars,
    with new money invested at the default 8 percent. */
module Scenarios {
  import opened JsMath
  import opened CurrencyService
  import opened Database
  import Constants
  import opened Calculator

  /** With no accounts and a target date ahead, nothing is held, the whole
      million is the gap, a positive monthly contribution is needed, and
      paying it reaches exactly the million. */
  method EmptyPortfolio(pow: PowFn, targetDate: real, rates: Option<Rates>, now: real)
    returns (res: CalculationResult)
    requires targetDate > now
    ensures res.currentNetWorthUSD == 0.0 && res.futureValueOfCurrentHoldings == 0.0
    ensures res.gapToTarget == Constants.TargetAmountUSD
    ensures res.monthlyContributionNeeded > 0.0
    ensures res.projectedNetWorthUSD == Constants.TargetAmountUSD
  {
    res := CalculateMonthlyContribution(pow, [], Constants.TargetAmountUSD, targetDate,
                                        Constants.DefaultInvestmentInterestRate, rates, now);
  }

  /** A single 500000-dollar investment account at 0 percent, with the target
      date ahead: the account compounds at the default rate, so its value at
      the target date exceeds 500000 and the gap is less than 500000. */
  method ZeroRateInvestmentAccount(pow: PowFn, targetDate: real, rates: Option<Rates>, now: real)
    returns (res: CalculationResult)
    requires targetDate > now
    ensures res.currentNetWorthUSD == 500000.0
    ensures res.futureValueOfCurrentHoldings > 500000.0
    ensures res.gapToTarget < Constants.TargetAmountUSD - 500000.0
  {
    var account := Account(500000.0, USD, true, 0.0);
    var years := GetTimeRemaining(targetDate, now).years;
    ZeroRateInvestmentGrows(pow, 500000.0, USD, Constants.DefaultInvestmentInterestRate, years, rates);
    assert [account][..0] == [];
    res := CalculateMonthlyContribution(pow, [account], Constants.TargetAmountUSD, targetDate,
                                        Constants.DefaultInvestmentInterestRate, rates, now);
  }

  /** Once the target date has passed, no contribution is asked for, whatever
      is held, and being on track means already holding the target. */
  method PastTargetDate(pow: PowFn, accounts: seq<Account>, targetDate: real, rates: Option<Rates>, now: real)
    returns (res: CalculationResult)
    requires targetDate <= now
    ensures res.monthlyContributionNeeded == 0.0
    ensures res.monthsRemaining == 0 && res.yearsRemaining == 0.0
    ensures res.onTrack <==> BalanceSum(accounts, rates) >= Constants.TargetAmountUSD
  {
    res := CalculateMonthlyContribution(pow, accounts, Constants.TargetAmountUSD, targetDate,
                                        Constants.DefaultInvestmentInterestRate, rates, now);
  }
}
