/** The journal entry (account_move.py) as far as its exchange rate goes: how
    a rate is resolved for a pair of currencies, how an amount is converted
    with it, and the two onchanges that set the per-document rates.
 */
module Move {
  import opened Wrappers
  import opened Dates
  import opened Currency

  type CompanyId = nat

  /** `currency.round`, library code the model does not interpret. */
  type RoundFn = (CurrencyId, real) -> real

  /** `currency.is_zero`, library code the model does not interpret; an empty
      currency is passed as `None`. */
  type ZeroTest = (Option<CurrencyId>, real) -> bool

  function Abs(x: real): real {
    if x < 0.0 then -x else x
  }

  datatype MoveType = Entry | OutInvoice | OutRefund | InInvoice | InRefund | OutReceipt | InReceipt

  datatype PartnerType = Customer | Supplier

  /** The fields of the move's `payment_id` the rate logic reads. */
  datatype PaymentLink = PaymentLink(
    isFxTransaction: bool,
    fxExchangeRate: real,
    partnerType: PartnerType)

  /** An `account.move` reduced to what the rate logic reads; `rates` are the
      `rate_ids` of the move's currency. */
  datatype Move = Move(
    moveType: MoveType,
    currency: Option<CurrencyId>,
    companyCurrency: CurrencyId,
    company: Option<CompanyId>,
    exchangeRate: real,
    inverseExchangeRate: real,
    rates: seq<RateEntry>,
    payment: Option<PaymentLink>,
    invoiceDate: Option<Day>,
    date: Option<Day>)

  datatype DisplayType = Product | Cogs | Tax | Discount | Rounding | PaymentTerm | LineSection | LineNote | Epd

  /** An `account.move.line` reduced to the fields this add-on reads. */
  datatype Line = Line(
    displayType: DisplayType,
    hasTaxRepartition: bool,
    currency: Option<CurrencyId>,
    balance: real,
    debit: real,
    amountCurrency: real,
    amountResidual: real,
    amountResidualCurrency: real,
    priceUnit: real,
    priceSubtotal: real,
    priceTotal: real)

  /** `is_invoice(include_receipts=True)`: every move type except a plain entry. */
  predicate IsInvoice(t: MoveType) {
    t != Entry
  }

  predicate IsZeroOrOne(x: real) {
    x == 0.0 || x == 1.0
  }

  /** Neither per-document rate is set (both are 0 or 1), so the rate table decides. */
  predicate UsesRateTable(m: Move) {
    IsZeroOrOne(m.exchangeRate) && IsZeroOrOne(m.inverseExchangeRate)
  }

  predicate IsFxPayment(m: Move) {
    m.payment.Some? && m.payment.value.isFxTransaction
  }

  /** `invoice_date or date`. */
  function AccountingDate(m: Move): Option<Day> {
    if m.invoiceDate.Some? then m.invoiceDate else m.date
  }

  /** The column of a rate record a move reads: the buy inverse rate for every
      move type but a customer invoice (the source tests the type against the
      tuple ('out_invoice', 'out_invoice')), the sell inverse rate otherwise. */
  function SideRate(t: MoveType, e: RateEntry): real {
    if t != OutInvoice then e.buyInverseCompanyRate else e.inverseCompanyRate
  }

  /** Rate-table branch: the latest rate dated on or before `date`, or 1. */
  function TableRate(m: Move, date: Day): (r: real)
    ensures (forall j :: 0 <= j < |m.rates| ==> m.rates[j].name > date) ==> r == 1.0
    ensures forall k :: IsLatest(m.rates, date, k) ==> r == SideRate(m.moveType, m.rates[k])
  {
    match LatestRateIndex(m.rates, date)
    case None => 1.0
    case Some(k) =>
      assert forall k' :: IsLatest(m.rates, date, k') ==> k' == k by {
        forall k' | IsLatest(m.rates, date, k') {
          LatestIsUnique(m.rates, date, k, k');
        }
      }
      SideRate(m.moveType, m.rates[k])
  }

  /** The per-document rate written into a dictionary keyed by currency, as the
      source does: 1 for the company currency, the inverse rate for the other
      side, and 1 for any key left missing or zero. */
  function DocumentRateTable(m: Move, from: CurrencyId, to: CurrencyId): (t: map<CurrencyId, real>)
    ensures from in t && to in t && t[from] != 0.0 && t[to] != 0.0
  {
    var cc := m.companyCurrency;
    var t0 :=
      if from == cc then map[from := 1.0][to := m.inverseExchangeRate]
      else if to == cc then map[to := 1.0][from := m.inverseExchangeRate]
      else map[];
    var t1 := if to !in t0 || t0[to] == 0.0 then t0[to := 1.0] else t0;
    if from !in t1 || t1[from] == 0.0 then t1[from := 1.0] else t1
  }

  /** The inverse rate with 0 read as 1, the way the dictionary above treats it. */
  function EffectiveInverse(m: Move): (r: real)
    ensures r != 0.0
  {
    if m.inverseExchangeRate == 0.0 then 1.0 else m.inverseExchangeRate
  }

  /** Per-document branch: `rates[to] / rates[from]`. */
  function DocumentRate(m: Move, from: CurrencyId, to: CurrencyId): (r: real)
    ensures from == to ==> r == 1.0
    ensures from != to && from == m.companyCurrency ==> r == EffectiveInverse(m)
    ensures from != to && to == m.companyCurrency ==> r * EffectiveInverse(m) == 1.0
    ensures from != m.companyCurrency && to != m.companyCurrency ==> r == 1.0
  {
    var t := DocumentRateTable(m, from, to);
    t[to] / t[from]
  }

  /** FX-payment branch: the dictionary rebuilt from the payment's rate. A zero
      rate divides by zero, and a pair without the company currency leaves both
      keys missing (`None / None`); both raise. */
  function FxRate(m: Move, from: CurrencyId, to: CurrencyId): (r: Result<real>)
    requires IsFxPayment(m)
    ensures r.Err? <==> m.payment.value.fxExchangeRate == 0.0
                        || (from != m.companyCurrency && to != m.companyCurrency)
    ensures r.Ok? && from == to ==> r.value == 1.0
    ensures r.Ok? && from != to && from == m.companyCurrency ==> r.value * m.payment.value.fxExchangeRate == 1.0
    ensures r.Ok? && from != to && to == m.companyCurrency ==> r.value == m.payment.value.fxExchangeRate
  {
    var fx := m.payment.value.fxExchangeRate;
    var cc := m.companyCurrency;
    if from != cc && to != cc then Err("unsupported operand type(s) for /: 'NoneType' and 'NoneType'")
    else if fx == 0.0 then Err("float division by zero")
    else
      var t :=
        if from == cc then map[from := 1.0][to := Reciprocal(fx)]
        else map[to := 1.0][from := Reciprocal(fx)];
      Ok(t[to] / t[from])
  }

  /** `_get_conversion_rate`: the rate a move applies to convert from `from` to `to`. */
  function GetConversionRate(m: Move, from: CurrencyId, to: CurrencyId, date: Option<Day>): (r: Result<real>)
    ensures UsesRateTable(m) ==>
      (r.Err? <==> date.None? && |m.rates| > 0)
    ensures UsesRateTable(m) && date.None? && |m.rates| == 0 ==> r == Ok(1.0)
    ensures UsesRateTable(m) && date.Some? ==> r == Ok(TableRate(m, date.value))
    ensures !UsesRateTable(m) && !IsFxPayment(m) ==> r == Ok(DocumentRate(m, from, to))
    ensures !UsesRateTable(m) && IsFxPayment(m) ==> r == FxRate(m, from, to)
  {
    if UsesRateTable(m) then
      if date.None? then
        // filtering on `x.name <= False` compares a date with a bool
        if |m.rates| == 0 then Ok(1.0) else Err("'<=' not supported between 'date' and 'bool'")
      else Ok(TableRate(m, date.value))
    else if IsFxPayment(m) then FxRate(m, from, to)
    else Ok(DocumentRate(m, from, to))
  }

  /** Without a per-document rate the resolved rate does not depend on the
      direction of the conversion. */
  lemma TableRateIgnoresDirection(m: Move, a: CurrencyId, b: CurrencyId, date: Option<Day>)
    requires UsesRateTable(m)
    ensures GetConversionRate(m, a, b, date) == GetConversionRate(m, b, a, date)
  {
  }

  /** With a per-document or FX rate, the rates resolved for the two directions
      between two different currencies are reciprocal. */
  lemma RateReciprocity(m: Move, a: CurrencyId, b: CurrencyId, date: Option<Day>)
    requires a != b
    requires !UsesRateTable(m)
    requires GetConversionRate(m, a, b, date).Ok?
    ensures GetConversionRate(m, b, a, date).Ok?
    ensures Reciprocals(GetConversionRate(m, a, b, date).value, GetConversionRate(m, b, a, date).value)
  {
    if IsFxPayment(m) {
      assert GetConversionRate(m, a, b, date) == FxRate(m, a, b);
      assert GetConversionRate(m, b, a, date) == FxRate(m, b, a);
      FxRateReciprocity(m, a, b);
    } else {
      assert GetConversionRate(m, a, b, date) == Ok(DocumentRate(m, a, b));
      assert GetConversionRate(m, b, a, date) == Ok(DocumentRate(m, b, a));
      DocumentRateReciprocity(m, a, b);
    }
  }

  lemma FxRateReciprocity(m: Move, a: CurrencyId, b: CurrencyId)
    requires a != b && IsFxPayment(m)
    requires FxRate(m, a, b).Ok?
    ensures FxRate(m, b, a).Ok?
    ensures Reciprocals(FxRate(m, a, b).value, FxRate(m, b, a).value)
  {
    var fx := m.payment.value.fxExchangeRate;
    if a == m.companyCurrency {
      assert FxRate(m, a, b).value * fx == 1.0;
      assert FxRate(m, b, a).value == fx;
    } else {
      assert FxRate(m, a, b).value == fx;
      assert FxRate(m, b, a).value * fx == 1.0;
    }
  }

  lemma DocumentRateReciprocity(m: Move, a: CurrencyId, b: CurrencyId)
    requires a != b
    ensures Reciprocals(DocumentRate(m, a, b), DocumentRate(m, b, a))
  {
    var e := EffectiveInverse(m);
    if a == m.companyCurrency {
      assert DocumentRate(m, b, a) * e == 1.0;
    } else if b == m.companyCurrency {
      assert DocumentRate(m, a, b) * e == 1.0;
    }
  }

  /** `a or b` for two possibly empty currencies. */
  function Either(a: Option<CurrencyId>, b: Option<CurrencyId>): Option<CurrencyId> {
    if a.Some? then a else b
  }

  /** Two rates whose product is 1. */
  predicate Reciprocals(p: real, q: real) {
    p * q == 1.0
  }

  /** `amount` multiplied by `rate`: the one product every conversion applies. */
  function Scaled(amount: real, rate: real): real {
    amount * rate
  }

  /** Scaling by two reciprocal rates in turn gives the amount back. */
  lemma ScaledRoundTrip(x: real, p: real, q: real)
    requires Reciprocals(p, q)
    ensures Scaled(Scaled(x, p), q) == x
  {
    assert (x * p) * q == x * (p * q);
  }

  /** The unrounded conversion between two resolved currencies: the amount
      itself when they are equal, the amount times the resolved rate otherwise. */
  function ConvertUnrounded(m: Move, amount: real, src: CurrencyId, dst: CurrencyId, date: Option<Day>): (r: Result<real>)
    ensures src == dst ==> r == Ok(amount)
    ensures src != dst ==> (r.Ok? <==> GetConversionRate(m, src, dst, date).Ok?)
    ensures src != dst && r.Ok? ==> r.value == Scaled(amount, GetConversionRate(m, src, dst, date).value)
  {
    if src == dst then Ok(amount)
    else
      var rate := GetConversionRate(m, src, dst, date);
      if rate.Err? then Err(rate.message) else Ok(Scaled(amount, rate.value))
  }

  /** `_convert`: a missing currency is replaced by the other one; a missing
      currency pair, company or date fails the source's assertions; equal
      currencies keep the amount, different ones multiply it by the resolved
      rate; the result is rounded in the target currency when asked. */
  function Convert(
    m: Move, amount: real, from: Option<CurrencyId>, to: Option<CurrencyId>,
    company: Option<CompanyId>, date: Option<Day>, round: bool, roundFn: RoundFn): (r: Result<real>)
    ensures from.None? && to.None? ==> r.Err?
    ensures company.None? || date.None? ==> r.Err?
    ensures (from.Some? || to.Some?) && company.Some? && date.Some? ==>
      var u := ConvertUnrounded(m, amount, Either(from, to).value, Either(to, from).value, date);
      && (r.Ok? <==> u.Ok?)
      && (r.Ok? ==> r.value == if round then roundFn(Either(to, from).value, u.value) else u.value)
  {
    if from.None? && to.None? then Err("convert amount from unknown currency")
    else if company.None? then Err("convert amount from unknown company")
    else if date.None? then Err("convert amount from unknown date")
    else
      var dst := Either(to, from).value;
      var u := ConvertUnrounded(m, amount, Either(from, to).value, dst, date);
      if u.Err? then u
      else Ok(if round then roundFn(dst, u.value) else u.value)
  }

  /** Converting between equal currencies (or from and to the same single known
      currency) keeps the amount, rounded in that currency when asked. */
  lemma ConvertSameCurrency(
    m: Move, amount: real, c: CurrencyId, other: Option<CurrencyId>, company: CompanyId, date: Day, round: bool, roundFn: RoundFn)
    requires other.None? || other == Some(c)
    ensures Convert(m, amount, Some(c), other, Some(company), Some(date), round, roundFn)
            == Ok(if round then roundFn(c, amount) else amount)
    ensures Convert(m, amount, other, Some(c), Some(company), Some(date), round, roundFn)
            == Ok(if round then roundFn(c, amount) else amount)
  {
  }

  /** Without rounding, converting between two different currencies scales
      the amount by the resolved rate. */
  lemma ConvertForeign(
    m: Move, x: real, a: CurrencyId, b: CurrencyId, company: Option<CompanyId>, date: Option<Day>, roundFn: RoundFn)
    requires a != b && company.Some? && date.Some?
    requires GetConversionRate(m, a, b, date).Ok?
    ensures Convert(m, x, Some(a), Some(b), company, date, false, roundFn) == Ok(Scaled(x, GetConversionRate(m, a, b, date).value))
  {
  }

  /** Scaling by the rate from `a` to `b` and then by the rate back restores
      the amount. */
  lemma RateRoundTrip(m: Move, x: real, a: CurrencyId, b: CurrencyId, date: Option<Day>)
    requires a != b && !UsesRateTable(m)
    requires GetConversionRate(m, a, b, date).Ok?
    ensures GetConversionRate(m, b, a, date).Ok?
    ensures Scaled(Scaled(x, GetConversionRate(m, a, b, date).value), GetConversionRate(m, b, a, date).value) == x
  {
    RateReciprocity(m, a, b, date);
    ScaledRoundTrip(x, GetConversionRate(m, a, b, date).value, GetConversionRate(m, b, a, date).value);
  }

  /** Converting with a per-document (or FX) rate and converting the result
      back, both without rounding, gives the original amount. */
  lemma ConvertRoundTrip(
    m: Move, x: real, a: CurrencyId, b: CurrencyId, company: Option<CompanyId>, date: Option<Day>, roundFn: RoundFn)
    requires a != b && !UsesRateTable(m)
    requires Convert(m, x, Some(a), Some(b), company, date, false, roundFn).Ok?
    ensures Convert(m, Convert(m, x, Some(a), Some(b), company, date, false, roundFn).value,
                    Some(b), Some(a), company, date, false, roundFn) == Ok(x)
  {
    assert company.Some? && date.Some? && GetConversionRate(m, a, b, date).Ok?;
    RateRoundTrip(m, x, a, b, date);
    ConvertForeign(m, x, a, b, company, date, roundFn);
    ConvertForeign(m, Scaled(x, GetConversionRate(m, a, b, date).value), b, a, company, date, roundFn);
  }

  /** `onchange_exchange_rate` on the move: the inverse rate becomes the
      reciprocal of the entered rate, or 0 when the rate is 0. */
  function OnchangeExchangeRate(m: Move): (m': Move)
    ensures m'.(inverseExchangeRate := m.inverseExchangeRate) == m
    ensures m.exchangeRate != 0.0 ==> m'.exchangeRate * m'.inverseExchangeRate == 1.0
    ensures m.exchangeRate == 0.0 ==> m'.inverseExchangeRate == 0.0
  {
    m.(inverseExchangeRate := if m.exchangeRate != 0.0 then Reciprocal(m.exchangeRate) else 0.0)
  }

  /** Two numbers with the same non-zero reciprocal are equal. */
  lemma ReciprocalUnique(a: real, b: real, i: real)
    requires a * i == 1.0 && b * i == 1.0
    ensures a == b
  {
    assert (a - b) * i == 0.0;
  }

  /** After the onchange, a rate other than 0 and 1 is the rate converting the
      move's foreign currency into company currency (for a move that is not an
      FX payment). */
  lemma OnchangeExchangeRateIsHonoured(m: Move, c: CurrencyId, date: Option<Day>)
    requires !IsZeroOrOne(m.exchangeRate) && !IsFxPayment(m)
    requires c != m.companyCurrency
    ensures GetConversionRate(OnchangeExchangeRate(m), c, m.companyCurrency, date) == Ok(m.exchangeRate)
  {
    var m' := OnchangeExchangeRate(m);
    var i := m'.inverseExchangeRate;
    assert m.exchangeRate * i == 1.0;
    assert i != 0.0;
    assert !UsesRateTable(m');
    var rate := DocumentRate(m', c, m.companyCurrency);
    assert rate * i == 1.0;
    ReciprocalUnique(rate, m.exchangeRate, i);
  }

  /** The parties `_inverse_currency_id` recomputes the rates for: customer
      invoices and customer payments, supplier bills and supplier payments. */
  predicate ResetsRates(m: Move) {
    || m.moveType == OutInvoice
    || (m.payment.Some? && m.payment.value.partnerType == Customer)
    || m.moveType == InInvoice
    || (m.payment.Some? && m.payment.value.partnerType == Supplier)
  }

  /** `_inverse_currency_id`: for a foreign-currency move of one of the parties
      above, store the rate resolved at the accounting date as `exchange_rate`
      and its reciprocal as `inverse_exchange_rate`. A failed lookup or a zero
      rate raises. */
  function InverseCurrencyId(m: Move): (r: Result<Move>)
    ensures r.Ok? ==> r.value == m.(exchangeRate := r.value.exchangeRate, inverseExchangeRate := r.value.inverseExchangeRate)
    ensures r.Ok? && r.value != m ==>
      r.value.exchangeRate != 0.0 && r.value.inverseExchangeRate == Reciprocal(r.value.exchangeRate)
    ensures m.currency.None? || m.currency == Some(m.companyCurrency) || !ResetsRates(m) ==> r == Ok(m)
    ensures m.currency.Some? && m.currency.value != m.companyCurrency && ResetsRates(m) ==>
      var rate := GetConversionRate(m, m.currency.value, m.companyCurrency, AccountingDate(m));
      && (r.Err? <==> rate.Err? || rate.value == 0.0)
      && (r.Ok? ==> r.value.exchangeRate == rate.value && r.value.inverseExchangeRate == Reciprocal(rate.value))
  {
    if m.currency.Some? && m.currency.value != m.companyCurrency && ResetsRates(m) then
      var rate := GetConversionRate(m, m.currency.value, m.companyCurrency, AccountingDate(m));
      if rate.Err? then Err(rate.message)
      else if rate.value == 0.0 then Err("float division by zero")
      else Ok(m.(exchangeRate := rate.value, inverseExchangeRate := Reciprocal(rate.value)))
    else Ok(m)
  }

  /** A move whose per-document rates are already reciprocal (and not 0 or 1)
      is left as it is by `_inverse_currency_id` unless it is an FX payment. */
  lemma InverseCurrencyIdFixpoint(m: Move)
    requires !IsZeroOrOne(m.exchangeRate) && m.exchangeRate * m.inverseExchangeRate == 1.0
    requires !IsFxPayment(m)
    ensures InverseCurrencyId(m) == Ok(m)
  {
    if m.currency.Some? && m.currency.value != m.companyCurrency && ResetsRates(m) {
      var x := m.exchangeRate;
      var i := m.inverseExchangeRate;
      assert EffectiveInverse(m) == i;
      var rate := DocumentRate(m, m.currency.value, m.companyCurrency);
      assert rate * i == 1.0;
      ReciprocalUnique(rate, x, i);
      ReciprocalUnique(Reciprocal(rate), i, rate);
    }
  }
}
