/** The journal item (account_move_line.py): the residual amounts a line offers
    to reconciliation in each currency, the line's `currency_rate`, and the
    company-currency copies of its prices.
 */
module MoveLine {
  import opened Wrappers
  import opened Dates
  import opened Currency
  import opened Move

  /** `res.currency._get_conversion_rate(from, to, company, date)` of the
      accounting library, which the model does not interpret; a missing date is
      passed as `None`. */
  type LibraryRate = (CurrencyId, CurrencyId, Option<Day>) -> real

  datatype AccountType = Receivable | Payable | OtherAccount

  /** A journal item as reconciliation sees it, with any shadowed values
      already substituted: its amounts, the residuals handed in with it, and
      the few facts about its move that the rate choice reads. */
  datatype AmlView = AmlView(
    companyCurrency: CurrencyId,
    currency: CurrencyId,
    accountType: AccountType,
    balance: real,
    amountCurrency: real,
    amountResidual: real,
    amountResidualCurrency: real,
    date: Day,
    isPayment: bool,
    fxInverseRate: Option<real>,
    isInvoice: bool,
    invoiceDate: Option<Day>)

  /** One value of the mapping currency -> {residual, rate}; an absent rate is
      the `None` that `get_accounting_rate` falls through to. */
  datatype ResidualEntry = ResidualEntry(residual: real, rate: Option<real>)

  type Residuals = map<CurrencyId, ResidualEntry>

  /** The context's `forced_rate_from_register_payment` when it is truthy. */
  function Forced(ctx: Option<real>): (f: Option<real>)
    ensures f.Some? <==> ctx.Some? && ctx.value != 0.0
    ensures f.Some? ==> f == ctx
  {
    if ctx.Some? && ctx.value != 0.0 then ctx else None
  }

  /** The magnitude of a quotient times the magnitude of its divisor is the
      magnitude of its dividend. */
  lemma AbsQuotient(a: real, b: real)
    requires b != 0.0
    ensures Abs(Quotient(a, b)) * Abs(b) == Abs(a)
  {
    var q := Quotient(a, b);
    if q < 0.0 {
      assert Abs(q) * Abs(b) == if b < 0.0 then q * b else -(q * b);
    } else {
      assert Abs(q) * Abs(b) == if b < 0.0 then -(q * b) else q * b;
    }
  }

  /** `get_accounting_rate`: the forced rate when there is one; otherwise the
      line's own rate `|amount_currency / balance|` when neither amount is zero
      for its currency, and nothing when one is. A balance that is exactly 0
      but not zero for the company currency divides by zero. */
  function AccountingRate(ctx: Option<real>, aml: AmlView, currency: CurrencyId, isZero: ZeroTest): (r: Result<Option<real>>)
    ensures Forced(ctx).Some? ==> r == Ok(Forced(ctx))
    ensures Forced(ctx).None? && (isZero(Some(aml.companyCurrency), aml.balance) || isZero(Some(currency), aml.amountCurrency))
            ==> r == Ok(None)
    ensures r.Err? <==> Forced(ctx).None? && !isZero(Some(aml.companyCurrency), aml.balance)
                        && !isZero(Some(currency), aml.amountCurrency) && aml.balance == 0.0
    ensures Forced(ctx).None? && r.Ok? && r.value.Some? ==>
      r.value.value >= 0.0 && r.value.value * Abs(aml.balance) == Abs(aml.amountCurrency)
  {
    if Forced(ctx).Some? then Ok(Forced(ctx))
    else if isZero(Some(aml.companyCurrency), aml.balance) || isZero(Some(currency), aml.amountCurrency) then Ok(None)
    else if aml.balance == 0.0 then Err("float division by zero")
    else
      AbsQuotient(aml.amountCurrency, aml.balance);
      Ok(Some(Abs(Quotient(aml.amountCurrency, aml.balance))))
  }

  /** The date `get_sdwot_rate` converts at: the invoice date for an invoice
      (possibly empty), the line's date otherwise. */
  function SdwotDate(aml: AmlView): Option<Day> {
    if aml.isInvoice then aml.invoiceDate else Some(aml.date)
  }

  /** `get_sdwot_rate`: the rate at which a company-currency line is valued in
      the counterpart's currency. The first rule that applies wins: the forced
      rate; the accounting rate of the other line when it is a payment and
      this one is not; the inverse rate of this line's FX payment; the
      library's conversion rate at the invoice or line date. */
  function SdwotRate(
    ctx: Option<real>, aml: AmlView, other: Option<AmlView>, currency: CurrencyId,
    isZero: ZeroTest, libRate: LibraryRate): (r: Result<Option<real>>)
    ensures Forced(ctx).Some? ==> r == Ok(Forced(ctx))
    ensures Forced(ctx).None? && other.Some? && !aml.isPayment && other.value.isPayment ==>
      r == AccountingRate(ctx, other.value, currency, isZero)
    ensures Forced(ctx).None? && !(other.Some? && !aml.isPayment && other.value.isPayment) ==>
      r == Ok(Some(if aml.fxInverseRate.Some? then aml.fxInverseRate.value
                   else libRate(aml.companyCurrency, currency, SdwotDate(aml))))
  {
    if Forced(ctx).Some? then Ok(Forced(ctx))
    else if other.Some? && !aml.isPayment && other.value.isPayment then AccountingRate(ctx, other.value, currency, isZero)
    else if aml.fxInverseRate.Some? then Ok(aml.fxInverseRate)
    else Ok(Some(libRate(aml.companyCurrency, currency, SdwotDate(aml))))
  }

  predicate IsReceivableOrPayable(t: AccountType) {
    t == Receivable || t == Payable
  }

  /** The line's currency differs from company currency and has a residual left in it. */
  predicate HasForeignResidual(aml: AmlView, isZero: ZeroTest) {
    aml.currency != aml.companyCurrency && !isZero(Some(aml.currency), aml.amountResidualCurrency)
  }

  /** A company-currency receivable or payable line with a residual left,
      matched against a line in another currency. */
  predicate ValuesInCounterpart(aml: AmlView, counterpart: CurrencyId, isZero: ZeroTest) {
    && aml.currency == aml.companyCurrency
    && IsReceivableOrPayable(aml.accountType)
    && !isZero(Some(aml.companyCurrency), aml.amountResidual)
    && counterpart != aml.companyCurrency
  }

  /** `_prepare_move_line_residual_amounts`: the residual the line offers in
      each currency, with the rate that relates it to company currency. */
  function ResidualAmounts(
    ctx: Option<real>, aml: AmlView, counterpart: CurrencyId, other: Option<AmlView>,
    isZero: ZeroTest, libRate: LibraryRate): (r: Result<Residuals>)
    // The entry in company currency.
    ensures r.Ok? ==>
      && (aml.companyCurrency in r.value <==> !isZero(Some(aml.companyCurrency), aml.amountResidual))
      && (aml.companyCurrency in r.value ==>
            r.value[aml.companyCurrency] == ResidualEntry(aml.amountResidual, Some(1.0)))
    // No other currency appears.
    ensures r.Ok? ==> forall c :: c in r.value ==> c == aml.companyCurrency || c == aml.currency || c == counterpart
    // The entry in the line's own foreign currency.
    ensures r.Ok? && aml.currency != aml.companyCurrency ==>
      && (aml.currency in r.value <==> HasForeignResidual(aml, isZero))
      && (aml.currency in r.value ==>
            && AccountingRate(ctx, aml, aml.currency, isZero).Ok?
            && r.value[aml.currency] == ResidualEntry(aml.amountResidualCurrency, AccountingRate(ctx, aml, aml.currency, isZero).value))
    // A foreign line offers nothing in a third currency.
    ensures r.Ok? && aml.currency != aml.companyCurrency && counterpart != aml.currency && counterpart != aml.companyCurrency ==>
      counterpart !in r.value
    // The entry in the counterpart's currency for a company-currency line.
    ensures r.Ok? && aml.currency == aml.companyCurrency && counterpart != aml.companyCurrency ==>
      && (counterpart in r.value ==> ValuesInCounterpart(aml, counterpart, isZero))
      && (ValuesInCounterpart(aml, counterpart, isZero) ==>
            && SdwotRate(ctx, aml, other, counterpart, isZero, libRate).Ok?
            && SdwotRate(ctx, aml, other, counterpart, isZero, libRate).value.Some?
            && var rate := SdwotRate(ctx, aml, other, counterpart, isZero, libRate).value.value;
            && (counterpart in r.value <==> !isZero(Some(counterpart), Scaled(aml.amountResidual, rate)))
            && (counterpart in r.value ==> r.value[counterpart] == ResidualEntry(Scaled(aml.amountResidual, rate), Some(rate))))
    // The two ways it raises: dividing by a zero balance, or a missing rate.
    ensures r.Err? <==>
      || (HasForeignResidual(aml, isZero) && AccountingRate(ctx, aml, aml.currency, isZero).Err?)
      || (ValuesInCounterpart(aml, counterpart, isZero)
          && (SdwotRate(ctx, aml, other, counterpart, isZero, libRate).Err?
              || SdwotRate(ctx, aml, other, counterpart, isZero, libRate).value.None?))
  {
    var cc := aml.companyCurrency;
    var cur := aml.currency;
    var m0: Residuals :=
      if isZero(Some(cc), aml.amountResidual) then map[]
      else map[cc := ResidualEntry(aml.amountResidual, Some(1.0))];
    var ar := AccountingRate(ctx, aml, cur, isZero);
    if HasForeignResidual(aml, isZero) && ar.Err? then Err(ar.message)
    else
      var m1 := if HasForeignResidual(aml, isZero) then m0[cur := ResidualEntry(aml.amountResidualCurrency, ar.value)] else m0;
      if ValuesInCounterpart(aml, counterpart, isZero) then
        var rate := SdwotRate(ctx, aml, other, counterpart, isZero, libRate);
        if rate.Err? then Err(rate.message)
        else if rate.value.None? then Result<Residuals>.Err("unsupported operand type(s) for *: 'float' and 'NoneType'")
        else
          var x := Scaled(aml.amountResidual, rate.value.value);
          if isZero(Some(counterpart), x) then Ok(m1)
          else Ok(m1[counterpart := ResidualEntry(x, rate.value)])
      else if cur == counterpart && HasForeignResidual(aml, isZero) then
        Ok(m1[counterpart := ResidualEntry(aml.amountResidualCurrency, ar.value)])
      else Ok(m1)
  }

  /** The counterpart-currency residual of a company-currency line, divided by
      its rate, is the line's company residual again. */
  lemma CounterpartResidualRoundTrip(
    ctx: Option<real>, aml: AmlView, counterpart: CurrencyId, other: Option<AmlView>,
    isZero: ZeroTest, libRate: LibraryRate)
    requires aml.currency == aml.companyCurrency && counterpart != aml.companyCurrency
    requires ResidualAmounts(ctx, aml, counterpart, other, isZero, libRate).Ok?
    requires counterpart in ResidualAmounts(ctx, aml, counterpart, other, isZero, libRate).value
    ensures var r := ResidualAmounts(ctx, aml, counterpart, other, isZero, libRate).value;
      && aml.companyCurrency in r
      && r[counterpart].rate.Some?
      && (r[counterpart].rate.value != 0.0 ==>
            Scaled(r[counterpart].residual, Reciprocal(r[counterpart].rate.value)) == r[aml.companyCurrency].residual)
  {
    var r := ResidualAmounts(ctx, aml, counterpart, other, isZero, libRate).value;
    var rate := r[counterpart].rate.value;
    if rate != 0.0 {
      ScaledRoundTrip(aml.amountResidual, rate, Reciprocal(rate));
    }
  }

  /** A forced rate from the payment wizard is the rate of every entry except
      the company-currency one. */
  lemma ForcedRateWins(
    ctx: Option<real>, aml: AmlView, counterpart: CurrencyId, other: Option<AmlView>,
    isZero: ZeroTest, libRate: LibraryRate)
    requires Forced(ctx).Some?
    ensures ResidualAmounts(ctx, aml, counterpart, other, isZero, libRate).Ok?
    ensures forall c :: c in ResidualAmounts(ctx, aml, counterpart, other, isZero, libRate).value && c != aml.companyCurrency ==>
      ResidualAmounts(ctx, aml, counterpart, other, isZero, libRate).value[c].rate == ctx
  {
  }

  /** `invoice_date or date or today`: the date a line's rate is read at. */
  function LineDate(m: Move, today: Day): Day {
    AccountingDate(m).GetOr(today)
  }

  /** `_compute_currency_rate`: the reciprocal of the move's rate from the line
      currency to company currency, 1 when that rate is 0, and 1 for a line
      without a currency. */
  function ComputeCurrencyRate(m: Move, currency: Option<CurrencyId>, today: Day): (r: Result<real>)
    ensures currency.None? ==> r == Ok(1.0)
    ensures currency.Some? ==>
      var rate := GetConversionRate(m, currency.value, m.companyCurrency, Some(LineDate(m, today)));
      && (r.Err? <==> rate.Err?)
      && (rate.Ok? && rate.value != 0.0 ==> r == Ok(Reciprocal(rate.value)))
      && (rate == Ok(0.0) ==> r == Ok(1.0))
  {
    if currency.None? then Ok(1.0)
    else
      var rate := GetConversionRate(m, currency.value, m.companyCurrency, Some(LineDate(m, today)));
      if rate.Err? then Err(rate.message)
      else if rate.value != 0.0 then Ok(Reciprocal(rate.value))
      else Ok(1.0)
  }

  /** After `onchange_exchange_rate` sets a rate other than 0 and 1, the
      currency rate a foreign line computes is the move's inverse rate. */
  lemma CurrencyRateFollowsOnchange(m: Move, c: CurrencyId, today: Day)
    requires !IsZeroOrOne(m.exchangeRate) && !IsFxPayment(m)
    requires c != m.companyCurrency
    ensures ComputeCurrencyRate(OnchangeExchangeRate(m), Some(c), today) == Ok(OnchangeExchangeRate(m).inverseExchangeRate)
  {
    var m' := OnchangeExchangeRate(m);
    OnchangeExchangeRateIsHonoured(m, c, Some(LineDate(m', today)));
    var r := ComputeCurrencyRate(m', Some(c), today).value;
    ReciprocalUnique(r, m'.inverseExchangeRate, m.exchangeRate);
  }

  /** The company-currency copies of a line's three prices. */
  datatype CompanyValues = CompanyValues(priceUnit: real, priceSubtotal: real, priceTotal: real)

  /** `set_company_currency_values`: each price converted to company currency
      at the move's invoice date or date, rounded. A move with neither date
      calls `datetime.datetime.now()` on the imported class, which raises. */
  function SetCompanyCurrencyValues(m: Move, line: Line, roundFn: RoundFn): (r: Result<CompanyValues>)
    ensures AccountingDate(m).None? || m.company.None? ==> r.Err?
    ensures AccountingDate(m).Some? && m.company.Some? && (line.currency.None? || line.currency == Some(m.companyCurrency)) ==>
      r == Ok(CompanyValues(
        roundFn(m.companyCurrency, line.priceUnit),
        roundFn(m.companyCurrency, line.priceSubtotal),
        roundFn(m.companyCurrency, line.priceTotal)))
    ensures AccountingDate(m).Some? && m.company.Some? && line.currency.Some? && line.currency.value != m.companyCurrency ==>
      var rate := GetConversionRate(m, line.currency.value, m.companyCurrency, AccountingDate(m));
      && (r.Ok? <==> rate.Ok?)
      && (r.Ok? ==> r.value == CompanyValues(
            roundFn(m.companyCurrency, Scaled(line.priceUnit, rate.value)),
            roundFn(m.companyCurrency, Scaled(line.priceSubtotal, rate.value)),
            roundFn(m.companyCurrency, Scaled(line.priceTotal, rate.value))))
  {
    if AccountingDate(m).None? then Err("type object 'datetime.datetime' has no attribute 'datetime'")
    else
      var cc := Some(m.companyCurrency);
      var unit :- Convert(m, line.priceUnit, line.currency, cc, m.company, AccountingDate(m), true, roundFn);
      var subtotal :- Convert(m, line.priceSubtotal, line.currency, cc, m.company, AccountingDate(m), true, roundFn);
      var total :- Convert(m, line.priceTotal, line.currency, cc, m.company, AccountingDate(m), true, roundFn);
      Ok(CompanyValues(unit, subtotal, total))
  }

  /** For a foreign line on a dated move, each company-currency price is the
      price divided by the line's currency rate, rounded. */
  lemma CompanyValuesUseCurrencyRate(m: Move, line: Line, today: Day, roundFn: RoundFn)
    requires AccountingDate(m).Some? && m.company.Some?
    requires line.currency.Some? && line.currency.value != m.companyCurrency
    requires SetCompanyCurrencyValues(m, line, roundFn).Ok?
    requires ComputeCurrencyRate(m, line.currency, today).value != 1.0
    ensures var cr := ComputeCurrencyRate(m, line.currency, today).value;
      && cr != 0.0
      && SetCompanyCurrencyValues(m, line, roundFn).value.priceUnit == roundFn(m.companyCurrency, Scaled(line.priceUnit, Reciprocal(cr)))
  {
    var c := line.currency.value;
    var rate := GetConversionRate(m, c, m.companyCurrency, AccountingDate(m));
    assert Some(LineDate(m, today)) == AccountingDate(m);
    assert rate.Ok? && rate.value != 0.0;
    assert ComputeCurrencyRate(m, line.currency, today) == Ok(Reciprocal(rate.value));
    ReciprocalInvolutive(rate.value);
  }

  lemma ReciprocalInvolutive(x: real)
    requires x != 0.0
    ensures Reciprocal(Reciprocal(x)) == x
  {
    ReciprocalUnique(Reciprocal(Reciprocal(x)), x, Reciprocal(x));
  }

  /** What `onchange_exchange_rate` writes on each line: the move's new
      inverse rate as `currency_rate`, and the recomputed company values. */
  datatype LineRates = LineRates(currencyRate: real, companyValues: CompanyValues)

  /** The line writes of `onchange_exchange_rate` for the move `m` as the
      onchange left it; the first line whose values cannot be computed raises. */
  function RewriteLines(m: Move, lines: seq<Line>, roundFn: RoundFn): (r: Result<seq<LineRates>>)
    ensures r.Err? <==> exists i :: 0 <= i < |lines| && SetCompanyCurrencyValues(m, lines[i], roundFn).Err?
    ensures r.Ok? ==> |r.value| == |lines|
    ensures r.Ok? ==> forall i :: 0 <= i < |lines| ==>
      && r.value[i].currencyRate == m.inverseExchangeRate
      && SetCompanyCurrencyValues(m, lines[i], roundFn) == Ok(r.value[i].companyValues)
  {
    if |lines| == 0 then Ok([])
    else
      var head := SetCompanyCurrencyValues(m, lines[0], roundFn);
      if head.Err? then Err(head.message)
      else
        var tail := RewriteLines(m, lines[1..], roundFn);
        if tail.Err? then
          assert exists i :: 0 <= i < |lines[1..]| && SetCompanyCurrencyValues(m, lines[1..][i], roundFn).Err?;
          Err(tail.message)
        else Ok([LineRates(m.inverseExchangeRate, head.value)] + tail.value)
  }

  /** `onchange_exchange_rate` on a move and its lines. */
  function OnchangeExchangeRateLines(m: Move, lines: seq<Line>, roundFn: RoundFn): (r: Result<(Move, seq<LineRates>)>)
    ensures r.Ok? ==> r.value.0 == OnchangeExchangeRate(m)
    ensures r.Ok? <==> RewriteLines(OnchangeExchangeRate(m), lines, roundFn).Ok?
  {
    var m' := OnchangeExchangeRate(m);
    var written :- RewriteLines(m', lines, roundFn);
    Ok((m', written))
  }

  /** The `currency_rate` the onchange writes on a foreign line is the one the
      line would compute for itself, once a rate other than 0 and 1 is set.
      Lines in company currency are left out on purpose: the onchange writes
      the inverse rate on every line, while `_compute_currency_rate` gives 1
      for a company-currency line, so the two differ there. */
  lemma WrittenRateMatchesCompute(m: Move, lines: seq<Line>, roundFn: RoundFn, i: int, today: Day)
    requires !IsZeroOrOne(m.exchangeRate) && !IsFxPayment(m)
    requires OnchangeExchangeRateLines(m, lines, roundFn).Ok?
    requires 0 <= i < |lines| && lines[i].currency.Some? && lines[i].currency.value != m.companyCurrency
    ensures ComputeCurrencyRate(OnchangeExchangeRate(m), lines[i].currency, today)
            == Ok(OnchangeExchangeRateLines(m, lines, roundFn).value.1[i].currencyRate)
  {
    CurrencyRateFollowsOnchange(m, lines[i].currency.value, today);
  }
}
