/** The bank statement line (`AccountBankStatementLine` in
    account_payment.py): the two journal items a statement line books, one on
    the bank account and its mirror image on the counterpart account.
 */
module StatementLine {
  import opened Wrappers
  import opened Dates
  import opened Currency
  import opened Move
  import opened Payment

  /** An `account.bank.statement.line` with what it reads from its journal.
      `reconcileMove` is the move of its `reconcile_payment_id`; an empty
      recordset reads as a move without rates. */
  datatype StatementLine = StatementLine(
    amount: real,
    amountCurrency: real,
    foreignCurrency: Option<CurrencyId>,
    journalCurrency: Option<CurrencyId>,
    companyCurrency: CurrencyId,
    company: Option<CompanyId>,
    date: Option<Day>,
    bankAccount: Option<AccountId>,
    suspenseAccount: Option<AccountId>,
    reconcileMove: Move)

  /** One returned line dictionary. */
  datatype StatementItem = StatementItem(
    account: Option<AccountId>, currency: CurrencyId, amountCurrency: real, debit: real, credit: real)

  /** The journal currency, or company currency when the journal has none. */
  function JournalCurrency(st: StatementLine): CurrencyId {
    st.journalCurrency.GetOr(st.companyCurrency)
  }

  /** The currency of the transaction: the statement's foreign currency, or the
      journal currency. */
  function ForeignCurrency(st: StatementLine): CurrencyId {
    st.foreignCurrency.GetOr(JournalCurrency(st))
  }

  /** The amount in the transaction currency. */
  function TransactionAmount(st: StatementLine): (r: real)
    ensures ForeignCurrency(st) == JournalCurrency(st) ==> r == st.amount
    ensures ForeignCurrency(st) != JournalCurrency(st) ==> r == st.amountCurrency
  {
    if ForeignCurrency(st) == JournalCurrency(st) then st.amount else st.amountCurrency
  }

  /** The amount in company currency: the journal amount when the journal is in
      company currency, the transaction amount when the transaction is, and
      otherwise the journal amount converted at the statement date. */
  function CompanyAmount(st: StatementLine, roundFn: RoundFn): (r: Result<real>)
    ensures JournalCurrency(st) == st.companyCurrency ==> r == Ok(st.amount)
    ensures JournalCurrency(st) != st.companyCurrency && ForeignCurrency(st) == st.companyCurrency ==>
      r == Ok(st.amountCurrency)
    ensures JournalCurrency(st) != st.companyCurrency && ForeignCurrency(st) != st.companyCurrency ==>
      && (r.Ok? <==> st.company.Some? && st.date.Some?
                     && GetConversionRate(st.reconcileMove, JournalCurrency(st), st.companyCurrency, st.date).Ok?)
      && (r.Ok? ==> r.value == roundFn(st.companyCurrency,
                                       Scaled(st.amount, GetConversionRate(st.reconcileMove, JournalCurrency(st), st.companyCurrency, st.date).value)))
  {
    if JournalCurrency(st) == st.companyCurrency then Ok(st.amount)
    else if ForeignCurrency(st) == st.companyCurrency then Ok(TransactionAmount(st))
    else Convert(st.reconcileMove, st.amount, Some(JournalCurrency(st)), Some(st.companyCurrency), st.company, st.date, true, roundFn)
  }

  /** `_prepare_move_line_default_vals`: the liquidity line on the journal's
      bank account and the counterpart line on the given account (the
      journal's suspense account by default). Without either account it raises. */
  function PrepareStatementLines(st: StatementLine, counterpartAccount: Option<AccountId>, roundFn: RoundFn): (r: Result<seq<StatementItem>>)
    ensures counterpartAccount.None? && st.suspenseAccount.None? ==> r.Err?
    ensures counterpartAccount.Some? || st.suspenseAccount.Some? ==> (r.Ok? <==> CompanyAmount(st, roundFn).Ok?)
    ensures r.Ok? ==>
      && |r.value| == 2
      && r.value[0].account == st.bankAccount
      && r.value[0].currency == JournalCurrency(st) && r.value[0].amountCurrency == st.amount
      && r.value[1].account == (if counterpartAccount.Some? then counterpartAccount else st.suspenseAccount)
      && r.value[1].currency == ForeignCurrency(st) && r.value[1].amountCurrency == -TransactionAmount(st)
      && r.value[0].debit - r.value[0].credit == CompanyAmount(st, roundFn).value
  {
    var account := if counterpartAccount.Some? then counterpartAccount else st.suspenseAccount;
    if account.None? then Err("You can't create a new statement line without a suspense account set")
    else
      var ca :- CompanyAmount(st, roundFn);
      Ok([StatementItem(st.bankAccount, JournalCurrency(st), st.amount, Debit(ca), Credit(ca)),
          StatementItem(account, ForeignCurrency(st), -TransactionAmount(st), Credit(ca), Debit(ca))])
  }

  /** The two lines mirror each other: each one's debit is the other's credit,
      neither side is negative, at most one side of a line is non-zero, and the
      entry balances. */
  lemma StatementLinesMirror(st: StatementLine, counterpartAccount: Option<AccountId>, roundFn: RoundFn)
    requires PrepareStatementLines(st, counterpartAccount, roundFn).Ok?
    ensures var r := PrepareStatementLines(st, counterpartAccount, roundFn).value;
      && r[0].debit == r[1].credit && r[0].credit == r[1].debit
      && r[0].debit >= 0.0 && r[0].credit >= 0.0 && (r[0].debit == 0.0 || r[0].credit == 0.0)
      && (r[0].debit - r[0].credit) + (r[1].debit - r[1].credit) == 0.0
  {
  }

  /** A statement in company currency books its own amount on both sides, in
      its own currency as well. */
  lemma CompanyCurrencyStatement(st: StatementLine, counterpartAccount: Option<AccountId>, roundFn: RoundFn)
    requires st.journalCurrency.None? && st.foreignCurrency.None?
    requires counterpartAccount.Some? || st.suspenseAccount.Some?
    ensures var r := PrepareStatementLines(st, counterpartAccount, roundFn);
      && r.Ok?
      && r.value[0].debit - r.value[0].credit == st.amount
      && r.value[1].amountCurrency == -st.amount
  {
  }
}
