/** Application-wide defaults of the projection. */
module Constants {

  /** The goal: one million US dollars. */
  const TargetAmountUSD: real := 1000000.0

  /** The default target date, 2035-01-01T00:00:00Z, in milliseconds since
      the Unix epoch (23741 days of 86400000 ms). */
  const TargetDate: real := 2051222400000.0

  /** The default yearly return of an investment, in percent. */
  const DefaultInvestmentInterestRate: real := 8.0
}
