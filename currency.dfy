/** Conversion of amounts between the supported currencies, given a snapshot
    of exchange rates quoted against the US dollar ("units of the currency
    per 1 USD"). Fetching and caching the snapshot is not modelled: the table
    is an input, and an absent table (`None`) means the built-in fallback. */
module CurrencyService {
  import opened JsMath

  datatype Currency = USD | CZK | EUR | GBP | JPY | CHF | CAD | AUD

  /** An exchange-rate table. Keys that the table lacks are "undefined". */
  type Rates = map<Currency, real>

  /** The last-resort rates used when no table is supplied. */
  const FallbackRates: Rates := map[
    USD := 1.0,
    CZK := 20.63,
    EUR := 0.85,
    GBP := 0.79,
    JPY := 149.5,
    CHF := 0.88,
    CAD := 1.36,
    AUD := 1.53
  ]

  /** `rates || FALLBACK_RATES`: an absent table becomes the fallback; a
      supplied table, even an empty one, is used as it is. */
  function ActiveRates(rates: Option<Rates>): Rates
  {
    match rates
    case None => FallbackRates
    case Some(table) => table
  }

  /** The negation of JavaScript's `!table[c]`: `c` is present and its rate
      is not 0. */
  predicate HasRate(table: Rates, c: Currency)
  {
    c in table && table[c] != 0.0
  }

  /** The case in which `convertCurrency` really converts: the currencies
      differ and the active table has a usable rate for both. */
  predicate Converts(table: Rates, from: Currency, to: Currency)
  {
    from != to && HasRate(table, from) && HasRate(table, to)
  }

  /** The fallback table quotes every supported currency, positively, with
      the dollar at 1. */
  lemma FallbackRatesComplete(c: Currency)
    ensures c in FallbackRates && FallbackRates[c] > 0.0
    ensures FallbackRates[USD] == 1.0
    ensures c != USD ==> Converts(FallbackRates, c, USD)
  {
  }

  /** Without a table, `convertCurrency` uses the fallback rates ... */
  lemma FallbackRatesUsed(amount: real, from: Currency, to: Currency)
    ensures ConvertCurrency(amount, from, to, None) == ConvertCurrency(amount, from, to, Some(FallbackRates))
  {
    SameTableSameConversion(amount, from, to, None, Some(FallbackRates));
  }

  /** `convertCurrency` depends on its `rates` argument only through the
      table that is active. */
  lemma SameTableSameConversion(amount: real, from: Currency, to: Currency, r1: Option<Rates>, r2: Option<Rates>)
    requires ActiveRates(r1) == ActiveRates(r2)
    ensures ConvertCurrency(amount, from, to, r1) == ConvertCurrency(amount, from, to, r2)
  {
  }

  /** ... and so does `toUSD`, which turns a euro amount into dollars at 0.85
      euro per dollar. */
  lemma FallbackRatesUsedToUSD(amount: real, from: Currency)
    ensures ToUSD(amount, from, None) == ToUSD(amount, from, Some(FallbackRates))
    ensures ToUSD(amount, EUR, None) == amount / 0.85
  {
    assert FallbackRates[EUR] == 0.85 && FallbackRates[USD] == 1.0;
  }

  /** A supplied table replaces the fallback entirely: its own rates are
      used, and a currency it lacks is passed through unconverted. */
  lemma SuppliedTableUsed(amount: real, table: Rates)
    ensures ToUSD(amount, EUR, Some(map[USD := 1.0, EUR := 0.92])) == amount / 0.92
    ensures EUR !in table ==> ToUSD(amount, EUR, Some(table)) == amount
  {
    var t := map[USD := 1.0, EUR := 0.92];
    assert HasRate(t, EUR) && HasRate(t, USD) && t[USD] == 1.0;
  }

  /** `convertCurrency(amount, from, to, rates)`. The same currency returns
      the amount before any table is looked at; a missing or zero rate for
      either side also returns the amount unconverted; otherwise the result
      is worth as many dollars as the amount. */
  function ConvertCurrency(amount: real, from: Currency, to: Currency, rates: Option<Rates>): (r: real)
    ensures !Converts(ActiveRates(rates), from, to) ==> r == amount
    ensures Converts(ActiveRates(rates), from, to) ==>
      r * ActiveRates(rates)[from] == amount * ActiveRates(rates)[to]
  {
    if from == to then amount
    else
      var active := ActiveRates(rates);
      if !HasRate(active, from) || !HasRate(active, to) then amount
      else
        var amountInUSD := amount / active[from];
        amountInUSD * active[to]
  }

  /** `toUSD(amount, from, rates)`: a dollar amount is returned as it is; a
      table lacking a usable dollar rate or a usable rate for `from` returns
      the amount raw; with the dollar quoted at 1 the amount is divided by the
      rate of `from`. */
  function ToUSD(amount: real, from: Currency, rates: Option<Rates>): (r: real)
    ensures from == USD ==> r == amount
    ensures !HasRate(ActiveRates(rates), USD) || !HasRate(ActiveRates(rates), from) ==> r == amount
    ensures (from != USD && HasRate(ActiveRates(rates), from) && USD in ActiveRates(rates) &&
             ActiveRates(rates)[USD] == 1.0) ==> r == amount / ActiveRates(rates)[from]
  {
    var active := ActiveRates(rates);
    ConvertCurrency(amount, from, USD, Some(active))
  }

  /** `getExchangeRate(from, to, rates)`: 1 for the same currency; otherwise
      `table[to] / table[from]`, which JavaScript computes as NaN or an
      infinity (here `None`) when either rate is missing or the rate of
      `from` is 0. */
  function GetExchangeRate(from: Currency, to: Currency, rates: Option<Rates>): (r: Option<real>)
    ensures from == to ==> r == Some(1.0)
    ensures from != to ==>
      (r.Some? <==> from in ActiveRates(rates) && to in ActiveRates(rates) && ActiveRates(rates)[from] != 0.0)
    ensures from != to && r.Some? ==> r.value * ActiveRates(rates)[from] == ActiveRates(rates)[to]
  {
    if from == to then Some(1.0)
    else
      var active := ActiveRates(rates);
      if from in active && to in active && active[from] != 0.0 then Some(active[to] / active[from])
      else None
  }

  /** Where a conversion happens, it is multiplication by the exchange rate. */
  lemma ConvertIsRateProduct(amount: real, from: Currency, to: Currency, rates: Option<Rates>)
    requires from == to || Converts(ActiveRates(rates), from, to)
    ensures GetExchangeRate(from, to, rates).Some?
    ensures ConvertCurrency(amount, from, to, rates) == amount * GetExchangeRate(from, to, rates).value
  {
    if from != to {
      var active := ActiveRates(rates);
      var f, t := active[from], active[to];
      calc {
        ConvertCurrency(amount, from, to, rates);
        (amount / f) * t;
        { DivMulSwap(amount, f, t); }
        amount * (t / f);
      }
    }
  }

  lemma DivMulSwap(a: real, f: real, t: real)
    requires f != 0.0
    ensures (a / f) * t == a * (t / f)
  {
    assert (a / f) * t == (a * t) / f;
  }

  /** Converting there and back, both rates usable, returns the amount. */
  lemma ConvertRoundTrip(amount: real, x: Currency, y: Currency, rates: Option<Rates>)
    requires HasRate(ActiveRates(rates), x) && HasRate(ActiveRates(rates), y)
    ensures ConvertCurrency(ConvertCurrency(amount, x, y, rates), y, x, rates) == amount
  {
    if x != y {
      var active := ActiveRates(rates);
      var fx, fy := active[x], active[y];
      var there := ConvertCurrency(amount, x, y, rates);
      var back := ConvertCurrency(there, y, x, rates);
      assert there == (amount / fx) * fy by { assert Converts(active, x, y); }
      assert back == (there / fy) * fx by { assert Converts(active, y, x); }
      ScaleThereAndBack(amount, fx, fy, there, back);
    }
  }

  lemma ScaleThereAndBack(a: real, fx: real, fy: real, there: real, back: real)
    requires fx != 0.0 && fy != 0.0
    requires there == (a / fx) * fy && back == (there / fy) * fx
    ensures back == a
  {
    var u := a / fx;
    assert there / fy == u;
    assert u * fx == a;
  }

  /** With no negative rate in the active table, a conversion keeps the sign
      of the amount: assets stay assets, debts stay debts, 0 stays 0. */
  lemma ConvertPreservesSign(amount: real, from: Currency, to: Currency, rates: Option<Rates>)
    requires forall c :: c in ActiveRates(rates) ==> ActiveRates(rates)[c] >= 0.0
    ensures ConvertCurrency(amount, from, to, rates) > 0.0 <==> amount > 0.0
    ensures ConvertCurrency(amount, from, to, rates) == 0.0 <==> amount == 0.0
    ensures ConvertCurrency(amount, from, to, rates) < 0.0 <==> amount < 0.0
  {
    var active := ActiveRates(rates);
    if Converts(active, from, to) {
      var f, t := active[from], active[to];
      assert f > 0.0 && t > 0.0;
      var usd := amount / f;
      assert usd > 0.0 <==> amount > 0.0;
      assert usd < 0.0 <==> amount < 0.0;
      assert usd * t > 0.0 <==> usd > 0.0;
      assert usd * t < 0.0 <==> usd < 0.0;
    }
  }
}
