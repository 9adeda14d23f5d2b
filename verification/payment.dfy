/** The payment (`AccountPayment` in account_payment.py): the amount shown in
    the FX currency, the journal items a payment creates, and how a changed
    payment rewrites the items of its entry.
 */
module Payment {
  import opened Wrappers
  import opened Dates
  import opened Currency
  import opened M = Move

  type AccountId = nat
  type LineId = nat

  datatype PaymentType = Inbound | Outbound | NoType

  /** An `account.payment` reduced to what its journal items are built from;
      `move` is its `move_id`. */
  datatype Payment = Payment(
    paymentType: PaymentType,
    amount: real,
    currency: Option<CurrencyId>,
    companyCurrency: CurrencyId,
    company: Option<CompanyId>,
    date: Option<Day>,
    fxExchangeRate: real,
    charges: real,
    bankCharge: real,
    chargeAccount: Option<AccountId>,
    outstandingAccount: Option<AccountId>,
    destinationAccount: Option<AccountId>,
    move: Move)

  /** `fx_exchange_rate` with 0 read as 1. */
  function FxDivisor(p: Payment): (d: real)
    ensures d != 0.0
    ensures p.fxExchangeRate != 0.0 ==> d == p.fxExchangeRate
  {
    if p.fxExchangeRate == 0.0 then 1.0 else p.fxExchangeRate
  }

  /** `_compute_amount_in_currency`: the amount net of charges, in the FX
      currency. */
  function AmountInCurrency(p: Payment): (r: real)
    ensures r * FxDivisor(p) == p.amount - p.charges
  {
    Quotient(p.amount - p.charges, FxDivisor(p))
  }

  /** With no FX rate (0) or a rate of 1 the FX amount is the net amount. */
  lemma AmountInCurrencyWithoutRate(p: Payment)
    requires p.fxExchangeRate == 0.0 || p.fxExchangeRate == 1.0
    ensures AmountInCurrency(p) == p.amount - p.charges
  {
  }

  /** `set_exchange_rate_values`: an FX payment gives its entry the FX
      currency and the FX rate; any other payment gives its entry the
      payment's currency and a rate of 0. Nothing else of the entry changes. */
  function SetExchangeRateValues(p: Payment, isFx: bool, fxCurrency: Option<CurrencyId>): (m: Move)
    ensures m.(currency := p.move.currency, exchangeRate := p.move.exchangeRate) == p.move
    ensures isFx ==> m.currency == fxCurrency && m.exchangeRate == p.fxExchangeRate
    ensures !isFx ==> m.currency == p.currency && m.exchangeRate == 0.0
  {
    if isFx then p.move.(currency := fxCurrency, exchangeRate := p.fxExchangeRate)
    else p.move.(currency := p.currency, exchangeRate := 0.0)
  }

  /** Once a payment that is not FX has cleared its entry's rate and the
      rate onchange has run, the entry takes its rates from the rate table. */
  lemma ClearedRateUsesTable(p: Payment, fxCurrency: Option<CurrencyId>, a: CurrencyId, b: CurrencyId, d: Day)
    ensures var m := OnchangeExchangeRate(SetExchangeRateValues(p, false, fxCurrency));
      && m.exchangeRate == 0.0 && m.inverseExchangeRate == 0.0
      && GetConversionRate(m, a, b, Some(d)) == Ok(TableRate(m, d))
  {
  }

  /** Once an FX payment has set its rate on the entry and the rate onchange
      has run, the entry converts any other currency into company currency
      at the FX rate, whether the entry reads it as a per-document rate or
      from its FX payment. */
  lemma FxRateIsHonoured(p: Payment, fxCurrency: Option<CurrencyId>, c: CurrencyId, date: Option<Day>)
    requires !IsZeroOrOne(p.fxExchangeRate)
    requires c != p.move.companyCurrency
    requires IsFxPayment(p.move) ==> p.move.payment.value.fxExchangeRate == p.fxExchangeRate
    ensures GetConversionRate(OnchangeExchangeRate(SetExchangeRateValues(p, true, fxCurrency)), c, p.move.companyCurrency, date)
            == Ok(p.fxExchangeRate)
  {
    var m := SetExchangeRateValues(p, true, fxCurrency);
    if !IsFxPayment(m) {
      OnchangeExchangeRateIsHonoured(m, c, date);
    } else {
      var m' := OnchangeExchangeRate(m);
      assert !UsesRateTable(m');
      assert GetConversionRate(m', c, m'.companyCurrency, date) == FxRate(m', c, m'.companyCurrency);
    }
  }

  /** One of the `write_off_line_vals` dictionaries. */
  datatype WriteOff = WriteOff(name: string, account: Option<AccountId>, amountCurrency: real, balance: real)

  const BankChargesLabel := "Bank Charges"

  /** The loop that rewrites every write-off labelled "Bank Charges" to carry
      minus the payment's bank charge, on the charge account. */
  function ApplyBankCharges(ws: seq<WriteOff>, bankCharge: real, chargeAccount: Option<AccountId>): (r: seq<WriteOff>)
    ensures |r| == |ws|
    ensures forall i :: 0 <= i < |ws| && ws[i].name != BankChargesLabel ==> r[i] == ws[i]
    ensures forall i :: 0 <= i < |ws| && ws[i].name == BankChargesLabel ==>
      r[i] == WriteOff(BankChargesLabel, chargeAccount, -bankCharge, -bankCharge)
  {
    seq(|ws|, i requires 0 <= i < |ws| =>
      if ws[i].name == BankChargesLabel
      then ws[i].(account := chargeAccount, amountCurrency := -bankCharge, balance := -bankCharge)
      else ws[i])
  }

  /** Rewriting the bank-charge write-offs a second time changes nothing. */
  lemma ApplyBankChargesIdempotent(ws: seq<WriteOff>, bankCharge: real, chargeAccount: Option<AccountId>)
    ensures ApplyBankCharges(ApplyBankCharges(ws, bankCharge, chargeAccount), bankCharge, chargeAccount)
            == ApplyBankCharges(ws, bankCharge, chargeAccount)
  {
  }

  datatype LineKind = Liquidity | Counterpart | BankCharges

  /** One returned line dictionary: the three lines the payment builds carry
      debit and credit; the write-offs are passed through with a balance. */
  datatype JournalItem =
    | Item(kind: LineKind, account: Option<AccountId>, amountCurrency: real, debit: real, credit: real)
    | WriteOffItem(writeOff: WriteOff)

  function Balance(j: JournalItem): real {
    match j
    case Item(_, _, _, debit, credit) => debit - credit
    case WriteOffItem(w) => w.balance
  }

  function AmountCurrencyOf(j: JournalItem): real {
    match j
    case Item(_, _, amountCurrency, _, _) => amountCurrency
    case WriteOffItem(w) => w.amountCurrency
  }

  function SumBalance(items: seq<JournalItem>): real {
    if |items| == 0 then 0.0 else Balance(items[0]) + SumBalance(items[1..])
  }

  function SumAmountCurrency(items: seq<JournalItem>): real {
    if |items| == 0 then 0.0 else AmountCurrencyOf(items[0]) + SumAmountCurrency(items[1..])
  }

  /** `sum(x['balance'] for x in write_off_line_vals)`. */
  function WriteOffBalance(ws: seq<WriteOff>): real {
    if |ws| == 0 then 0.0 else ws[0].balance + WriteOffBalance(ws[1..])
  }

  /** `sum(x['amount_currency'] for x in write_off_line_vals)`. */
  function WriteOffAmountCurrency(ws: seq<WriteOff>): real {
    if |ws| == 0 then 0.0 else ws[0].amountCurrency + WriteOffAmountCurrency(ws[1..])
  }

  function WriteOffItems(ws: seq<WriteOff>): (r: seq<JournalItem>)
    ensures |r| == |ws| && forall i :: 0 <= i < |ws| ==> r[i] == WriteOffItem(ws[i])
  {
    seq(|ws|, i requires 0 <= i < |ws| => WriteOffItem(ws[i]))
  }

  lemma {:induction false} SumsConcat(a: seq<JournalItem>, b: seq<JournalItem>)
    ensures SumBalance(a + b) == SumBalance(a) + SumBalance(b)
    ensures SumAmountCurrency(a + b) == SumAmountCurrency(a) + SumAmountCurrency(b)
    decreases |a|
  {
    if |a| == 0 {
      assert a + b == b;
    } else {
      assert (a + b)[1..] == a[1..] + b;
      SumsConcat(a[1..], b);
    }
  }

  /** The write-offs returned as lines carry the write-off sums. */
  lemma {:induction false} WriteOffItemsSums(ws: seq<WriteOff>)
    ensures SumBalance(WriteOffItems(ws)) == WriteOffBalance(ws)
    ensures SumAmountCurrency(WriteOffItems(ws)) == WriteOffAmountCurrency(ws)
    decreases |ws|
  {
    if |ws| > 0 {
      assert WriteOffItems(ws)[1..] == WriteOffItems(ws[1..]);
      WriteOffItemsSums(ws[1..]);
    }
  }

  /** The liquidity line's foreign amount: the amount received, minus the
      amount sent, 0 for a payment of neither type. */
  function LiquidityAmountCurrency(p: Payment): (r: real)
    ensures p.paymentType == Inbound ==> r == p.amount
    ensures p.paymentType == Outbound ==> r == -p.amount
    ensures p.paymentType == NoType ==> r == 0.0
  {
    match p.paymentType
    case Inbound => p.amount
    case Outbound => -p.amount
    case NoType => 0.0
  }

  /** `sign * abs(force_balance)`, the sign being that of the liquidity amount
      (a zero amount counts as negative). */
  function ForcedBalance(liquidityAmountCurrency: real, forceBalance: real): (r: real)
    ensures Abs(r) == Abs(forceBalance)
    ensures liquidityAmountCurrency > 0.0 ==> r >= 0.0
    ensures liquidityAmountCurrency <= 0.0 ==> r <= 0.0
  {
    if liquidityAmountCurrency > 0.0 then Abs(forceBalance) else -Abs(forceBalance)
  }

  /** The liquidity line's company-currency balance: the forced balance when one
      is given and there are no write-offs, else the liquidity amount converted
      with the payment's move at the payment date. */
  function LiquidityBalance(p: Payment, ws: seq<WriteOff>, forceBalance: Option<real>, roundFn: RoundFn): (r: Result<real>)
    ensures |ws| == 0 && forceBalance.Some? ==> r == Ok(ForcedBalance(LiquidityAmountCurrency(p), forceBalance.value))
    ensures !(|ws| == 0 && forceBalance.Some?) ==>
      r == Convert(p.move, LiquidityAmountCurrency(p), p.currency, Some(p.companyCurrency), p.company, p.date, true, roundFn)
  {
    if |ws| == 0 && forceBalance.Some? then Ok(ForcedBalance(LiquidityAmountCurrency(p), forceBalance.value))
    else Convert(p.move, LiquidityAmountCurrency(p), p.currency, Some(p.companyCurrency), p.company, p.date, true, roundFn)
  }

  function Debit(balance: real): real {
    if balance > 0.0 then balance else 0.0
  }

  function Credit(balance: real): real {
    if balance < 0.0 then -balance else 0.0
  }

  /** Which side of the counterpart line the bank charge is taken off: as the
      source is written, it is taken off when there ARE write-offs; the
      corrected version takes it off when there are none, the case in which the
      separate bank-charge line is added. */
  datatype Variant = AsWritten | Corrected

  function CounterpartItem(p: Payment, hasWriteOffs: bool, counterpartAmountCurrency: real, counterpartBalance: real, v: Variant): JournalItem {
    var bc := p.bankCharge;
    var reduce := if v == AsWritten then hasWriteOffs else !hasWriteOffs;
    var cb := counterpartBalance;
    Item(Counterpart, p.destinationAccount,
      if !hasWriteOffs then counterpartAmountCurrency + bc else counterpartAmountCurrency,
      if cb > 0.0 then (if reduce then cb - bc else cb) else 0.0,
      if cb < 0.0 then (if reduce then -cb - bc else -cb) else 0.0)
  }

  /** The separate "Bank Charges" line, on the counterpart's side. */
  function BankChargeItems(p: Payment, hasWriteOffs: bool, counterpartBalance: real): (r: seq<JournalItem>)
    ensures |r| <= 1
  {
    if !hasWriteOffs && p.bankCharge != 0.0 then
      [Item(BankCharges, p.chargeAccount, -p.bankCharge,
            if counterpartBalance > 0.0 then p.bankCharge else 0.0,
            if counterpartBalance < 0.0 then p.bankCharge else 0.0)]
    else []
  }

  /** `_prepare_move_line_default_vals` in either variant: the liquidity line,
      the receivable/payable counterpart, the bank-charge line when there are no
      write-offs, then the write-offs. A payment without an outstanding account
      is refused. */
  function PrepareLines(p: Payment, ws: seq<WriteOff>, forceBalance: Option<real>, roundFn: RoundFn, v: Variant): (r: Result<seq<JournalItem>>)
    ensures p.outstandingAccount.None? ==> r.Err?
    ensures p.outstandingAccount.Some? ==> (r.Ok? <==> LiquidityBalance(p, ws, forceBalance, roundFn).Ok?)
    ensures r.Ok? ==>
      var n := if |ws| == 0 && p.bankCharge != 0.0 then 3 else 2;
      && |r.value| == n + |ws|
      && r.value[0].Item? && r.value[0].kind == Liquidity && r.value[0].account == p.outstandingAccount
      && r.value[1].Item? && r.value[1].kind == Counterpart && r.value[1].account == p.destinationAccount
      && (n == 3 ==> r.value[2].Item? && r.value[2].kind == BankCharges && r.value[2].amountCurrency == -p.bankCharge)
      && r.value[n..] == WriteOffItems(ApplyBankCharges(ws, p.bankCharge, p.chargeAccount))
    ensures r.Ok? ==>
      && r.value[0].amountCurrency == LiquidityAmountCurrency(p)
      && r.value[0].debit - r.value[0].credit == LiquidityBalance(p, ws, forceBalance, roundFn).value
  {
    if p.outstandingAccount.None? then
      Err("You can't create a new payment without an outstanding payments/receipts account set")
    else
      var lb :- LiquidityBalance(p, ws, forceBalance, roundFn);
      Ok(PreparedItems(p, ws, lb, v))
  }

  /** The returned lines once the liquidity balance `lb` is known. */
  function PreparedItems(p: Payment, ws: seq<WriteOff>, lb: real, v: Variant): seq<JournalItem> {
    var ws' := ApplyBankCharges(ws, p.bankCharge, p.chargeAccount);
    var lac := LiquidityAmountCurrency(p);
    var cac := -lac - WriteOffAmountCurrency(ws');
    var cb := -lb - WriteOffBalance(ws');
    var hasWriteOffs := |ws| > 0;
    [Item(Liquidity, p.outstandingAccount, lac, Debit(lb), Credit(lb)),
     CounterpartItem(p, hasWriteOffs, cac, cb, v)]
    + BankChargeItems(p, hasWriteOffs, cb)
    + WriteOffItems(ws')
  }

  /** The method as written. */
  function PrepareMoveLineDefaultValsAsWritten(p: Payment, ws: seq<WriteOff>, forceBalance: Option<real>, roundFn: RoundFn): (r: Result<seq<JournalItem>>)
    ensures r == PrepareLines(p, ws, forceBalance, roundFn, AsWritten)
    ensures r.Ok? ==> SumAmountCurrency(r.value) == 0.0
  {
    var r := PrepareLines(p, ws, forceBalance, roundFn, AsWritten);
    if r.Ok? then
      AmountCurrencyBalances(p, ws, forceBalance, roundFn, AsWritten);
      r
    else r
  }

  /** The method with the bank charge taken off the counterpart when the
      separate bank-charge line is added, so that the entry balances. */
  function PrepareMoveLineDefaultVals(p: Payment, ws: seq<WriteOff>, forceBalance: Option<real>, roundFn: RoundFn): (r: Result<seq<JournalItem>>)
    ensures r == PrepareLines(p, ws, forceBalance, roundFn, Corrected)
    ensures r.Ok? ==> SumAmountCurrency(r.value) == 0.0 && SumBalance(r.value) == 0.0
  {
    var r := PrepareLines(p, ws, forceBalance, roundFn, Corrected);
    if r.Ok? then
      AmountCurrencyBalances(p, ws, forceBalance, roundFn, Corrected);
      CorrectedBalances(p, ws, forceBalance, roundFn);
      r
    else r
  }

  /** The sums of two or three lines, written out. */
  lemma ShortSums(r: seq<JournalItem>)
    requires 2 <= |r| <= 3
    ensures |r| == 2 ==>
      && SumBalance(r) == Balance(r[0]) + Balance(r[1])
      && SumAmountCurrency(r) == AmountCurrencyOf(r[0]) + AmountCurrencyOf(r[1])
    ensures |r| == 3 ==>
      && SumBalance(r) == Balance(r[0]) + Balance(r[1]) + Balance(r[2])
      && SumAmountCurrency(r) == AmountCurrencyOf(r[0]) + AmountCurrencyOf(r[1]) + AmountCurrencyOf(r[2])
  {
    assert r[1..][1..] == r[2..];
    if |r| == 3 {
      assert r[2..][1..] == [];
    }
  }

  /** The foreign amounts of the returned lines sum to zero, in both variants. */
  lemma AmountCurrencyBalances(p: Payment, ws: seq<WriteOff>, forceBalance: Option<real>, roundFn: RoundFn, v: Variant)
    requires PrepareLines(p, ws, forceBalance, roundFn, v).Ok?
    ensures SumAmountCurrency(PrepareLines(p, ws, forceBalance, roundFn, v).value) == 0.0
  {
    ItemsBalance(p, ws, LiquidityBalance(p, ws, forceBalance, roundFn).value, v);
  }

  /** With the correction, the company-currency balances of the returned lines
      sum to zero: the entry balances. */
  lemma CorrectedBalances(p: Payment, ws: seq<WriteOff>, forceBalance: Option<real>, roundFn: RoundFn)
    requires PrepareLines(p, ws, forceBalance, roundFn, Corrected).Ok?
    ensures SumBalance(PrepareLines(p, ws, forceBalance, roundFn, Corrected).value) == 0.0
  {
    ItemsBalance(p, ws, LiquidityBalance(p, ws, forceBalance, roundFn).value, Corrected);
  }

  /** The sums behind the two lemmas above, for any liquidity balance. */
  lemma ItemsBalance(p: Payment, ws: seq<WriteOff>, lb: real, v: Variant)
    ensures SumAmountCurrency(PreparedItems(p, ws, lb, v)) == 0.0
    ensures v == Corrected ==> SumBalance(PreparedItems(p, ws, lb, v)) == 0.0
  {
    var r := PreparedItems(p, ws, lb, v);
    var ws' := ApplyBankCharges(ws, p.bankCharge, p.chargeAccount);
    var n := if |ws| == 0 && p.bankCharge != 0.0 then 3 else 2;
    assert r[n..] == WriteOffItems(ws');
    assert r == r[..n] + r[n..];
    SumsConcat(r[..n], r[n..]);
    WriteOffItemsSums(ws');
    ShortSums(r[..n]);
  }

  /** The liquidity line never has a negative side and never both sides. */
  lemma LiquiditySides(p: Payment, ws: seq<WriteOff>, forceBalance: Option<real>, roundFn: RoundFn, v: Variant)
    requires PrepareLines(p, ws, forceBalance, roundFn, v).Ok?
    ensures var l := PrepareLines(p, ws, forceBalance, roundFn, v).value[0];
      l.debit >= 0.0 && l.credit >= 0.0 && (l.debit == 0.0 || l.credit == 0.0)
  {
    var lb := LiquidityBalance(p, ws, forceBalance, roundFn).value;
    assert PrepareLines(p, ws, forceBalance, roundFn, v).value == PreparedItems(p, ws, lb, v);
    PreparedLiquidity(p, ws, lb, v);
  }

  lemma PreparedLiquidity(p: Payment, ws: seq<WriteOff>, lb: real, v: Variant)
    ensures |PreparedItems(p, ws, lb, v)| > 0
    ensures PreparedItems(p, ws, lb, v)[0] == Item(Liquidity, p.outstandingAccount, LiquidityAmountCurrency(p), Debit(lb), Credit(lb))
  {
  }

  /** As written, a same-currency inbound payment of 100 with a bank charge of 5
      and no write-off yields lines whose balances sum to -5: the bank-charge
      line is added on the counterpart's side while the counterpart keeps the
      full amount. */
  lemma AsWrittenUnbalanced()
    ensures var p := Payment(Inbound, 100.0, Some(0), 0, Some(0), Some(0), 1.0, 0.0, 5.0, Some(3), Some(1), Some(2),
                             M.Move(Entry, None, 0, Some(0), 0.0, 0.0, [], None, None, None));
      var r := PrepareMoveLineDefaultValsAsWritten(p, [], None, (c: CurrencyId, x: real) => x);
      r.Ok? && SumBalance(r.value) == -5.0
  {
    var m := M.Move(Entry, None, 0, Some(0), 0.0, 0.0, [], None, None, None);
    var p := Payment(Inbound, 100.0, Some(0), 0, Some(0), Some(0), 1.0, 0.0, 5.0, Some(3), Some(1), Some(2), m);
    var roundFn := (c: CurrencyId, x: real) => x;
    ConvertSameCurrency(m, 100.0, 0, Some(0), 0, 0, true, roundFn);
    var r := PrepareMoveLineDefaultValsAsWritten(p, [], None, roundFn).value;
    assert r == [Item(Liquidity, Some(1), 100.0, 100.0, 0.0),
                 Item(Counterpart, Some(2), -95.0, 0.0, 100.0),
                 Item(BankCharges, Some(3), -5.0, 0.0, 5.0)];
    assert SumBalance(r[2..]) == -5.0;
    assert SumBalance(r[1..]) == -105.0;
  }

  /** As written, the balances of the returned lines miss zero by the bank
      charge whenever the counterpart balance is not zero: without write-offs
      the bank-charge line is added while the counterpart keeps its full
      balance; with write-offs the counterpart is reduced by the charge
      although the write-offs already balance the entry. */
  lemma AsWrittenImbalance(p: Payment, ws: seq<WriteOff>, lb: real)
    ensures var cb := -lb - WriteOffBalance(ApplyBankCharges(ws, p.bankCharge, p.chargeAccount));
      var sum := SumBalance(PreparedItems(p, ws, lb, AsWritten));
      && (cb == 0.0 ==> sum == 0.0)
      && (cb > 0.0 ==> sum == if |ws| == 0 then p.bankCharge else -p.bankCharge)
      && (cb < 0.0 ==> sum == if |ws| == 0 then -p.bankCharge else p.bankCharge)
  {
    var r := PreparedItems(p, ws, lb, AsWritten);
    var ws' := ApplyBankCharges(ws, p.bankCharge, p.chargeAccount);
    var n := if |ws| == 0 && p.bankCharge != 0.0 then 3 else 2;
    assert r[n..] == WriteOffItems(ws');
    assert r == r[..n] + r[n..];
    SumsConcat(r[..n], r[n..]);
    WriteOffItemsSums(ws');
    ShortSums(r[..n]);
  }

  /** The trigger fields of `_get_trigger_fields_to_synchronize`. */
  const TriggerFields: set<string> := {
    "date", "amount", "payment_type", "partner_type", "payment_reference", "is_internal_transfer",
    "currency_id", "fx_currency_id", "partner_id", "destination_account_id", "partner_bank_id", "journal_id",
    "exchange_rate", "inverse_exchange_rate", "bank_charge", "charge_account_id"}

  /** An existing journal item of the payment's entry, as `_seek_for_lines` sorts them. */
  datatype ExistingLine = ExistingLine(id: LineId, name: string, account: Option<AccountId>, amountCurrency: real, balance: real)

  /** The lines `_seek_for_lines` finds: liquidity, counterpart and write-off items. */
  datatype SeekResult = SeekResult(liquidity: seq<ExistingLine>, counterpart: seq<ExistingLine>, writeOffs: seq<ExistingLine>)

  /** One `line_ids` command: update, create or delete. */
  datatype LineCommand = Update(id: LineId, vals: JournalItem) | Create(vals: JournalItem) | Delete(id: LineId)

  datatype SyncOutcome = Skipped | Synced(currency: Option<CurrencyId>, commands: seq<LineCommand>)

  function ExistingBalance(ls: seq<ExistingLine>): real {
    if |ls| == 0 then 0.0 else ls[0].balance + ExistingBalance(ls[1..])
  }

  function ExistingAmountCurrency(ls: seq<ExistingLine>): real {
    if |ls| == 0 then 0.0 else ls[0].amountCurrency + ExistingAmountCurrency(ls[1..])
  }

  /** The write-off to preserve: when the entry has liquidity, counterpart and
      write-off items, one write-off labelled and booked like the first and
      carrying the summed amounts of all of them. */
  function PreservedWriteOffs(s: SeekResult): (r: seq<WriteOff>)
    ensures |r| <= 1
    ensures |r| == 1 <==> |s.liquidity| > 0 && |s.counterpart| > 0 && |s.writeOffs| > 0
  {
    if |s.liquidity| > 0 && |s.counterpart| > 0 && |s.writeOffs| > 0 then
      [WriteOff(s.writeOffs[0].name, s.writeOffs[0].account,
                ExistingAmountCurrency(s.writeOffs), ExistingBalance(s.writeOffs))]
    else []
  }

  /** Update the one existing item, or create it when there is none; more than
      one raises the ORM's "Expected singleton". */
  function UpdateOrCreate(existing: seq<ExistingLine>, vals: JournalItem): (r: Result<LineCommand>)
    ensures r.Err? <==> |existing| > 1
    ensures |existing| == 0 ==> r == Ok(Create(vals))
    ensures |existing| == 1 ==> r == Ok(Update(existing[0].id, vals))
  {
    if |existing| == 0 then Ok(Create(vals))
    else if |existing| == 1 then Ok(Update(existing[0].id, vals))
    else Err("Expected singleton")
  }

  function DeleteAll(ls: seq<ExistingLine>): (r: seq<LineCommand>)
    ensures |r| == |ls| && forall i :: 0 <= i < |ls| ==> r[i] == Delete(ls[i].id)
  {
    seq(|ls|, i requires 0 <= i < |ls| => Delete(ls[i].id))
  }

  function CreateAll(items: seq<JournalItem>): (r: seq<LineCommand>)
    ensures |r| == |items| && forall i :: 0 <= i < |items| ==> r[i] == Create(items[i])
  {
    seq(|items|, i requires 0 <= i < |items| => Create(items[i]))
  }

  /** `_synchronize_to_moves` for one payment, preparing the lines in variant
      `v` (`AsWritten` is the code as it stands): nothing happens when the
      context skips synchronisation or no trigger field changed; otherwise the
      liquidity and counterpart items are updated (or created), the old
      write-offs deleted and the remaining prepared lines created. */
  function SynchronizeToMoves(
    p: Payment, skip: bool, changed: set<string>, s: SeekResult, roundFn: RoundFn, v: Variant): (r: Result<SyncOutcome>)
    ensures skip || changed * TriggerFields == {} ==> r == Ok(Skipped)
    ensures !skip && changed * TriggerFields != {} ==>
      var vals := PrepareLines(p, PreservedWriteOffs(s), None, roundFn, v);
      && (r.Err? <==> vals.Err? || |s.liquidity| > 1 || |s.counterpart| > 1)
      && (r.Ok? ==>
            && r.value.Synced? && r.value.currency == p.currency
            && |r.value.commands| == 2 + |s.writeOffs| + |vals.value| - 2
            && r.value.commands[0] == UpdateOrCreate(s.liquidity, vals.value[0]).value
            && r.value.commands[1] == UpdateOrCreate(s.counterpart, vals.value[1]).value
            && r.value.commands[2..2 + |s.writeOffs|] == DeleteAll(s.writeOffs)
            && r.value.commands[2 + |s.writeOffs|..] == CreateAll(vals.value[2..]))
  {
    if skip || changed * TriggerFields == {} then Ok(Skipped)
    else
      var vals :- PrepareLines(p, PreservedWriteOffs(s), None, roundFn, v);
      var liquidity :- UpdateOrCreate(s.liquidity, vals[0]);
      var counterpart :- UpdateOrCreate(s.counterpart, vals[1]);
      Ok(Synced(p.currency, [liquidity, counterpart] + DeleteAll(s.writeOffs) + CreateAll(vals[2..])))
  }

  /** The line values one command writes: none for a deletion. */
  function WrittenBy(c: LineCommand): seq<JournalItem> {
    match c
    case Update(_, j) => [j]
    case Create(j) => [j]
    case Delete(_) => []
  }

  /** The line values a list of commands writes, in order. */
  function Written(cs: seq<LineCommand>): seq<JournalItem> {
    if |cs| == 0 then [] else WrittenBy(cs[0]) + Written(cs[1..])
  }

  lemma {:induction false} WrittenConcat(a: seq<LineCommand>, b: seq<LineCommand>)
    ensures Written(a + b) == Written(a) + Written(b)
    decreases |a|
  {
    if |a| == 0 {
      assert a + b == b;
    } else {
      var ab := a + b;
      assert ab[0] == a[0] && ab[1..] == a[1..] + b;
      WrittenConcat(a[1..], b);
      assert Written(ab) == WrittenBy(a[0]) + (Written(a[1..]) + Written(b));
      assert Written(a) == WrittenBy(a[0]) + Written(a[1..]);
    }
  }

  lemma {:induction false} WrittenDeleteAll(ls: seq<ExistingLine>)
    ensures Written(DeleteAll(ls)) == []
    decreases |ls|
  {
    if |ls| > 0 {
      assert DeleteAll(ls)[1..] == DeleteAll(ls[1..]);
      WrittenDeleteAll(ls[1..]);
    }
  }

  lemma {:induction false} WrittenCreateAll(items: seq<JournalItem>)
    ensures Written(CreateAll(items)) == items
    decreases |items|
  {
    if |items| > 0 {
      assert CreateAll(items)[1..] == CreateAll(items[1..]);
      WrittenCreateAll(items[1..]);
    }
  }

  /** The commands of a synchronisation write the two main items and the created lines. */
  lemma WrittenSync(x: LineCommand, y: LineCommand, ls: seq<ExistingLine>, items: seq<JournalItem>)
    requires !x.Delete? && !y.Delete?
    ensures Written([x, y] + DeleteAll(ls) + CreateAll(items)) == [x.vals, y.vals] + items
  {
    WrittenConcat([x, y] + DeleteAll(ls), CreateAll(items));
    WrittenConcat([x, y], DeleteAll(ls));
    WrittenDeleteAll(ls);
    WrittenCreateAll(items);
    assert [x, y][1..][1..] == [];
  }

  /** A synchronisation writes exactly the prepared lines. */
  lemma SynchronizedWritesPrepared(p: Payment, skip: bool, changed: set<string>, s: SeekResult, roundFn: RoundFn, v: Variant)
    requires SynchronizeToMoves(p, skip, changed, s, roundFn, v).Ok?
    requires SynchronizeToMoves(p, skip, changed, s, roundFn, v).value.Synced?
    ensures PrepareLines(p, PreservedWriteOffs(s), None, roundFn, v).Ok?
    ensures Written(SynchronizeToMoves(p, skip, changed, s, roundFn, v).value.commands)
            == PrepareLines(p, PreservedWriteOffs(s), None, roundFn, v).value
  {
    var vals := PrepareLines(p, PreservedWriteOffs(s), None, roundFn, v).value;
    var x := UpdateOrCreate(s.liquidity, vals[0]).value;
    var y := UpdateOrCreate(s.counterpart, vals[1]).value;
    assert SynchronizeToMoves(p, skip, changed, s, roundFn, v).value.commands
           == [x, y] + DeleteAll(s.writeOffs) + CreateAll(vals[2..]);
    WrittenSync(x, y, s.writeOffs, vals[2..]);
    assert vals == [vals[0], vals[1]] + vals[2..];
  }

  /** The lines a synchronisation writes have foreign amounts summing to zero
      in either variant; with the correction their balances sum to zero too,
      so the entry stays balanced. */
  lemma SynchronizedLinesBalance(p: Payment, skip: bool, changed: set<string>, s: SeekResult, roundFn: RoundFn, v: Variant)
    requires SynchronizeToMoves(p, skip, changed, s, roundFn, v).Ok?
    requires SynchronizeToMoves(p, skip, changed, s, roundFn, v).value.Synced?
    ensures var w := Written(SynchronizeToMoves(p, skip, changed, s, roundFn, v).value.commands);
      && SumAmountCurrency(w) == 0.0
      && (v == Corrected ==> SumBalance(w) == 0.0)
  {
    SynchronizedWritesPrepared(p, skip, changed, s, roundFn, v);
    AmountCurrencyBalances(p, PreservedWriteOffs(s), None, roundFn, v);
    if v == Corrected {
      CorrectedBalances(p, PreservedWriteOffs(s), None, roundFn);
    }
  }

  /** As written, changing the bank charge of the payment above (inbound 100,
      charge 5) on an entry with one liquidity and one counterpart item writes
      a counterpart credit of 100 beside a bank-charge credit of 5: the
      written lines sum to -5. The corrected variant writes a credit of 95. */
  lemma SynchronizeAsWrittenUnbalanced()
    ensures var p := Payment(Inbound, 100.0, Some(0), 0, Some(0), Some(0), 1.0, 0.0, 5.0, Some(3), Some(1), Some(2),
                             M.Move(Entry, None, 0, Some(0), 0.0, 0.0, [], None, None, None));
      var s := SeekResult([ExistingLine(10, "", Some(1), 100.0, 100.0)], [ExistingLine(11, "", Some(2), -100.0, -100.0)], []);
      var roundFn := (c: CurrencyId, x: real) => x;
      var w := SynchronizeToMoves(p, false, {"bank_charge"}, s, roundFn, AsWritten);
      var c := SynchronizeToMoves(p, false, {"bank_charge"}, s, roundFn, Corrected);
      && w.Ok? && w.value.Synced? && c.Ok? && c.value.Synced?
      && w.value.commands[1] == Update(11, Item(Counterpart, Some(2), -95.0, 0.0, 100.0))
      && c.value.commands[1] == Update(11, Item(Counterpart, Some(2), -95.0, 0.0, 95.0))
      && SumBalance(Written(w.value.commands)) == -5.0
  {
    var m := M.Move(Entry, None, 0, Some(0), 0.0, 0.0, [], None, None, None);
    var p := Payment(Inbound, 100.0, Some(0), 0, Some(0), Some(0), 1.0, 0.0, 5.0, Some(3), Some(1), Some(2), m);
    var s := SeekResult([ExistingLine(10, "", Some(1), 100.0, 100.0)], [ExistingLine(11, "", Some(2), -100.0, -100.0)], []);
    var roundFn := (c: CurrencyId, x: real) => x;
    ConvertSameCurrency(m, 100.0, 0, Some(0), 0, 0, true, roundFn);
    assert PreservedWriteOffs(s) == [];
    var r := PrepareLines(p, [], None, roundFn, AsWritten).value;
    assert r == [Item(Liquidity, Some(1), 100.0, 100.0, 0.0),
                 Item(Counterpart, Some(2), -95.0, 0.0, 100.0),
                 Item(BankCharges, Some(3), -5.0, 0.0, 5.0)];
    var rc := PrepareLines(p, [], None, roundFn, Corrected).value;
    assert rc[1] == Item(Counterpart, Some(2), -95.0, 0.0, 95.0);
    assert "bank_charge" in {"bank_charge"} * TriggerFields;
    var w := SynchronizeToMoves(p, false, {"bank_charge"}, s, roundFn, AsWritten);
    assert w == Ok(Synced(Some(0), [Update(10, r[0]), Update(11, r[1])] + DeleteAll([]) + CreateAll(r[2..])));
    WrittenSync(Update(10, r[0]), Update(11, r[1]), [], r[2..]);
    assert r == [r[0], r[1]] + r[2..];
    assert SumBalance(r[2..]) == -5.0;
    assert SumBalance(r[1..]) == -105.0;
  }

  /** A preserved write-off not labelled "Bank Charges" comes back with the
      summed amounts of the write-offs it replaces, in either variant. */
  lemma WriteOffAmountPreserved(p: Payment, skip: bool, changed: set<string>, s: SeekResult, roundFn: RoundFn, v: Variant)
    requires SynchronizeToMoves(p, skip, changed, s, roundFn, v).Ok?
    requires SynchronizeToMoves(p, skip, changed, s, roundFn, v).value.Synced?
    requires |s.liquidity| > 0 && |s.counterpart| > 0 && |s.writeOffs| > 0
    requires s.writeOffs[0].name != BankChargesLabel
    ensures var c := SynchronizeToMoves(p, skip, changed, s, roundFn, v).value.commands;
      && |c| == 3 + |s.writeOffs|
      && c[|c| - 1] == Create(WriteOffItem(WriteOff(s.writeOffs[0].name, s.writeOffs[0].account,
                                                    ExistingAmountCurrency(s.writeOffs), ExistingBalance(s.writeOffs))))
  {
    var ws := PreservedWriteOffs(s);
    var vals := PrepareLines(p, ws, None, roundFn, v).value;
    assert vals[2..] == WriteOffItems(ApplyBankCharges(ws, p.bankCharge, p.chargeAccount));
    assert vals[2] == WriteOffItem(ws[0]);
    var c := SynchronizeToMoves(p, skip, changed, s, roundFn, v).value.commands;
    assert c[2 + |s.writeOffs|..] == CreateAll(vals[2..]);
  }
}
