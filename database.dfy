/** The account record as the projection engine reads it. The stored record
    has more fields (identifiers, name, institution, notes, timestamps, the
    active flag); the engine reads only these four. */
module Database {
  import opened CurrencyService

  datatype Account = Account(
    balance: real,          // signed, in units of `currency`
    currency: Currency,
    isInvestment: bool,     // `is_investment`
    interestRatePa: real    // `interest_rate_pa`, yearly percent
  )
}
