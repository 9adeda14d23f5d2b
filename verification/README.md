# Dual exchange rates and timesheet capacity, in Dafny

This project models two ERP add-ons: the exchange-rate extension of the
accounting module and the timesheet-capacity extension of the project module.

**Accounting.** A journal entry (`account.move`) may carry its own exchange
rate and inverse exchange rate. The model covers:

- how a rate is resolved for a pair of currencies, choosing between the rate
  table, the document's own rate and an FX payment's rate;
- how an amount is converted with that rate;
- the onchanges that keep the two document rates reciprocal;
- the move totals;
- the residual amounts a journal item offers to reconciliation in each currency;
- the journal items a payment and a bank statement line book;
- the buy/sell rate pair on currency rate records.

**Project.** The model covers:

- an employee's yearly capacity: working days times hours per day, split 80/20
  into billable and non-billable hours;
- the onchanges that keep that split adding up;
- the constraint that decides who may log which type of time on a task, and
  caps the hours logged.

The model is functional: immutable datatypes for records and pure functions
for the computations. A Python exception becomes an `Err` result. Library code
the add-ons call becomes a function-typed parameter:

- `currency.round` becomes `RoundFn`;
- `currency.is_zero` becomes `ZeroTest`;
- `res.currency._get_conversion_rate` becomes `LibraryRate`.

The parameters are uninterpreted. Amounts are `real`.

| file | module | models |
|---|---|---|
| wrappers.dfy | Wrappers | `Option`, `Result`, `Outcome` |
| dates.dfy | Dates | proleptic Gregorian dates as day ordinals |
| currency.dfy | Currency | rate records, the buy-rate onchanges, the latest-rate lookup |
| move.dfy | Move | `_get_conversion_rate`, `_convert`, `_inverse_currency_id`, `onchange_exchange_rate` |
| move_totals.dfy | MoveTotals | `_compute_amount`, `_inverse_amount_total` |
| move_line.dfy | MoveLine | `_prepare_move_line_residual_amounts`, `_compute_currency_rate`, `set_company_currency_values`, the line writes of `onchange_exchange_rate` |
| payment.dfy | Payment | `_compute_amount_in_currency`, `_prepare_move_line_default_vals`, `_synchronize_to_moves` |
| statement_line.dfy | StatementLine | the bank statement line's `_prepare_move_line_default_vals` |
| employee.dfy | Employee | `compute_total_working_hours` and its helpers, the two hour onchanges |
| timesheet.dfy | Timesheet | `_check_timesheet_type_role` |

Where the code and a natural reading of it part ways, the model follows the code:

- **FX payment rate.** An FX payment's rate applies as `1 / fx_exchange_rate`
  when converting from company currency. It applies as `fx_exchange_rate` when
  converting to company currency (account_move.py lines 94-102).
- **FX override scope.** The FX override is reached only when a per-document
  rate is set. The rate-table branch returns first.
- **Direction of the table rate.** The rate-table branch returns the same rate
  in both directions (`Move.TableRateIgnoresDirection`).
- **Which moves use the buy rate.** Line 71 tests the move type against
  `('out_invoice', 'out_invoice')`. So every move type except a customer
  invoice reads the buy inverse rate (`Move.SideRate`).

## Model

| member | source | states |
|---|---|---|
| Currency.OnchangeBuyCompanyRate | odoo/addons_extension/account_exchange_rate/models/res_currency.py:45-51 | A positive buy rate sets the inverse to its reciprocal (their product is 1); a non-positive one sets it to 0. Nothing else changes. The record then passes the positivity check exactly when the buy rate was positive. |
| Currency.OnchangeBuyInverseCompanyRate | odoo/addons_extension/account_exchange_rate/models/res_currency.py:53-59 | The mirror image: the buy rate becomes the reciprocal of a positive inverse, else 0. It comes out positive exactly when the record satisfies the positivity check. |
| Currency.BuyRateRoundTrip | odoo/addons_extension/account_exchange_rate/models/res_currency.py:45-59 | Entering a positive buy rate and then firing the inverse's onchange in turn gives back the same record. |
| Currency.BuyInverseRateRoundTrip | odoo/addons_extension/account_exchange_rate/models/res_currency.py:45-59 | The same round trip starting from a positive inverse rate. |
| Currency.LatestRateIndex | odoo/addons_extension/account_exchange_rate/models/account_move.py:72-73 | No index exactly when every rate is dated after the date. Otherwise the index is an eligible rate with the greatest date, the last such one in order, as the stable sort's `[-1]` picks. |
| Currency.LatestIsUnique | odoo/addons_extension/account_exchange_rate/models/account_move.py:72-73 | At most one index is the latest, so the lookup is determined. |
| Move.TableRate | odoo/addons_extension/account_exchange_rate/models/account_move.py:70-76 | 1 when no rate is dated on or before the date. Otherwise the buy inverse rate (or the sell inverse rate for a customer invoice) of the latest eligible rate. |
| Move.DocumentRate | odoo/addons_extension/account_exchange_rate/models/account_move.py:77-88 | The per-document rate is resolved from a dictionary: 1 for equal currencies; the inverse rate (0 read as 1) from company currency; its reciprocal to company currency; 1 for a pair without company currency. |
| Move.FxRate | odoo/addons_extension/account_exchange_rate/models/account_move.py:94-102 | Fails exactly when the FX rate is 0 or the pair has no company currency. Gives 1/fx from company currency and fx to it. |
| Move.GetConversionRate | odoo/addons_extension/account_exchange_rate/models/account_move.py:67-104 | With both document rates 0 or 1, the table rate is used: 1 without a date when there are no rates, a failure without a date when rates exist. Otherwise the FX rate is used for an FX payment, and the per-document rate for anything else. |
| Move.TableRateIgnoresDirection | odoo/addons_extension/account_exchange_rate/models/account_move.py:70-76 | Without a document rate, the resolved rate is the same in both directions. |
| Move.RateReciprocity | odoo/addons_extension/account_exchange_rate/models/account_move.py:77-104 | With a document or FX rate, the rates resolved for the two directions between different currencies multiply to 1. |
| Move.Convert | odoo/addons_extension/account_exchange_rate/models/account_move.py:106-126 | A missing currency is replaced by the other. No currency at all, no company or no date fails. Otherwise the result is the amount (equal currencies) or the amount times the resolved rate, rounded in the target currency when asked. It fails exactly when the rate does. |
| Move.ConvertSameCurrency | odoo/addons_extension/account_exchange_rate/models/account_move.py:115-126 | Converting between equal currencies, or with one side missing, returns the amount, rounded when asked. |
| Move.ConvertForeign | odoo/addons_extension/account_exchange_rate/models/account_move.py:106-126 | Unrounded, converting between two different currencies scales the amount by the rate resolved for that pair. |
| Move.RateRoundTrip | odoo/addons_extension/account_exchange_rate/models/account_move.py:67-104 | With a document or FX rate, scaling by the rate from a to b and then by the rate back restores the amount. |
| Move.ConvertRoundTrip | odoo/addons_extension/account_exchange_rate/models/account_move.py:77-126 | With a document or FX rate, converting unrounded from a to b and back gives the original amount. |
| Move.OnchangeExchangeRate | odoo/addons_extension/account_exchange_rate/models/account_move.py:153-158 | Only the inverse rate changes. It is the reciprocal of a non-zero rate (product 1), and 0 for a zero rate. |
| Move.OnchangeExchangeRateIsHonoured | odoo/addons_extension/account_exchange_rate/models/account_move.py:153-158 | After the onchange, a rate other than 0 and 1 is the rate a non-FX move resolves from any foreign currency to company currency. |
| Move.InverseCurrencyId | odoo/addons_extension/account_exchange_rate/models/account_move.py:133-151 | A move in company currency, without a currency, or of another party is left as it is. Otherwise it fails exactly when the rate lookup at the accounting date fails or gives 0; else `exchange_rate` becomes that rate and `inverse_exchange_rate` its reciprocal, and nothing else changes. |
| Move.InverseCurrencyIdFixpoint | odoo/addons_extension/account_exchange_rate/models/account_move.py:133-151 | A non-FX move whose rates are already reciprocal (and not 0 or 1) is a fixpoint. |
| MoveTotals.Accumulate | odoo/addons_extension/account_exchange_rate/models/account_move.py:200-224 | On invoices, total = untaxed + tax in both currencies. On other moves, the untaxed, tax and residual sums stay 0. |
| MoveTotals.AccumulateConcat | odoo/addons_extension/account_exchange_rate/models/account_move.py:200-224 | The sums of two runs of lines add up. |
| MoveTotals.AccumulateMatchesBuckets | odoo/addons_extension/account_exchange_rate/models/account_move.py:200-224 | All eight running sums equal independent per-bucket sums: untaxed and tax (balance and currency) over the untaxed and tax lines, residuals over the payment-term lines, and totals over those lines plus the debit lines of non-invoices. |
| MoveTotals.PaymentTermOnlyMovesResidual | odoo/addons_extension/account_exchange_rate/models/account_move.py:215-218 | On an invoice, a payment-term line changes the two residual sums and nothing else. |
| MoveTotals.CreditLinesDoNotCount | odoo/addons_extension/account_exchange_rate/models/account_move.py:219-223 | On a move that is not an invoice, a line without debit changes nothing. |
| MoveTotals.ComputeAmount | odoo/addons_extension/account_exchange_rate/models/account_move.py:193-239 | Each stored amount is the matching per-bucket sum of the lines, signed as the source signs it: untaxed, tax, total and residual in currency times the direction sign (residual negated), the signed company amounts negated (residual kept), the total abs for an entry. Every unsigned amount is the absolute value of its signed one. Invoices have total = untaxed + tax; other moves have zero untaxed, tax and residual. |
| MoveTotals.InverseAmountTotal | odoo/addons_extension/account_exchange_rate/models/account_move.py:428-447 | Only a non-invoice move with exactly two lines is rewritten. It fails exactly when converting \|amount_total\| at the accounting date fails. Line i is rewritten exactly when the converted balance minus \|balance\| is not zero in the line's currency, and then gets the converted balance on the side of its current balance and \|amount_total\| with that side's sign, in line order. |
| MoveTotals.RewriteBoth | odoo/addons_extension/account_exchange_rate/models/account_move.py:439-445 | For the two lines of an entry: each update is the one for its line, has one zero side and an amount in currency of the total's magnitude, and line i gets one exactly when it does not already match. |
| MoveTotals.InverseAmountTotalBalanced | odoo/addons_extension/account_exchange_rate/models/account_move.py:428-447 | When both lines of a debit/credit pair are rewritten, debits equal credits and the amounts in currency sum to 0. |
| MoveLine.AccountingRate | odoo/addons_extension/account_exchange_rate/models/account_move_line.py:43-49 | The forced rate wins. Otherwise there is nothing when either amount is zero for its currency. It fails exactly when the balance is 0.0 without being zero for the company currency. Otherwise it returns a non-negative rate r with r·\|balance\| = \|amount_currency\|. |
| MoveLine.SdwotRate | odoo/addons_extension/account_exchange_rate/models/account_move_line.py:30-41 | The first rule that applies wins: the forced rate; the other line's accounting rate when it is a payment and this line is not; the FX payment's inverse rate; the library rate from company currency at the invoice date (invoices) or line date. |
| MoveLine.ResidualAmounts | odoo/addons_extension/account_exchange_rate/models/account_move_line.py:14-94 | The company entry is present iff the company residual is non-zero, with rate 1. The foreign entry is present iff the foreign residual is non-zero, with the accounting rate. A company-currency receivable/payable line gets a counterpart entry of residual × rate iff that is non-zero. No other currency appears. It fails exactly on a zero division or a missing rate. |
| MoveLine.CounterpartResidualRoundTrip | odoo/addons_extension/account_exchange_rate/models/account_move_line.py:75-86 | The counterpart residual divided by its (non-zero) rate is the company residual again. |
| MoveLine.ForcedRateWins | odoo/addons_extension/account_exchange_rate/models/account_move_line.py:30-94 | With a forced rate, the computation succeeds and every entry other than the company one carries that rate. |
| MoveLine.ComputeCurrencyRate | odoo/addons_extension/account_exchange_rate/models/account_move_line.py:118-130 | 1 for a line without currency. Otherwise the reciprocal of the move's rate to company currency at invoice date, date or today; 1 when that rate is 0. It fails exactly when the rate lookup does. |
| MoveLine.CurrencyRateFollowsOnchange | odoo/addons_extension/account_exchange_rate/models/account_move_line.py:118-130 | After the move's rate onchange (rate not 0 or 1, not FX), a foreign line's computed currency rate is the move's new inverse rate. |
| MoveLine.SetCompanyCurrencyValues | odoo/addons_extension/account_exchange_rate/models/account_move_line.py:97-116 | It fails without a date or company. Company-currency lines keep their prices, rounded. Foreign lines get each price times the move's rate at the accounting date, rounded, and fail exactly when that rate does. |
| MoveLine.CompanyValuesUseCurrencyRate | odoo/addons_extension/account_exchange_rate/models/account_move_line.py:97-130 | On a dated foreign line, the company unit price is the price divided by the line's currency rate, rounded. |
| MoveLine.RewriteLines | odoo/addons_extension/account_exchange_rate/models/account_move.py:159-160 | It fails exactly when some line's company values cannot be computed. Otherwise every line gets the move's inverse rate and its own company values. |
| MoveLine.OnchangeExchangeRateLines | odoo/addons_extension/account_exchange_rate/models/account_move.py:153-160 | The move becomes the onchanged move. It succeeds exactly when every line's rewrite does. |
| MoveLine.WrittenRateMatchesCompute | odoo/addons_extension/account_exchange_rate/models/account_move.py:153-160 | The currency rate written on a foreign line equals the one `_compute_currency_rate` yields for it. |
| Payment.AmountInCurrency | odoo/addons_extension/account_exchange_rate/models/account_payment.py:12-18 | The FX amount times the FX rate (0 read as 1) is the amount net of charges. |
| Payment.AmountInCurrencyWithoutRate | odoo/addons_extension/account_exchange_rate/models/account_payment.py:15-18 | With an FX rate of 0 or 1, the FX amount is the net amount. |
| Payment.SetExchangeRateValues | odoo/addons_extension/account_exchange_rate/models/account_payment.py:31-38 | An FX payment gives its entry the FX currency and the FX rate; any other payment gives it the payment's currency and a rate of 0. Nothing else of the entry changes. |
| Payment.ClearedRateUsesTable | odoo/addons_extension/account_exchange_rate/models/account_payment.py:31-42 | After a non-FX payment clears the rate and the rate onchange runs, both entry rates are 0 and every conversion uses the rate table. |
| Payment.FxRateIsHonoured | odoo/addons_extension/account_exchange_rate/models/account_payment.py:31-42 | After an FX payment sets its rate (not 0 or 1) and the rate onchange runs, the entry converts any other currency into company currency at the FX rate. |
| Payment.ApplyBankCharges | odoo/addons_extension/account_exchange_rate/models/account_payment.py:67-72 | Write-offs labelled "Bank Charges" carry −bank_charge in both amounts, on the charge account. Others are untouched. The length is kept. |
| Payment.ApplyBankChargesIdempotent | odoo/addons_extension/account_exchange_rate/models/account_payment.py:67-72 | Applying the rewrite twice changes nothing more. |
| Payment.WriteOffItemsSums | odoo/addons_extension/account_exchange_rate/models/account_payment.py:74-76 | The returned write-off lines carry exactly the write-off sums. |
| Payment.ForcedBalance | odoo/addons_extension/account_exchange_rate/models/account_payment.py:92-94 | Its magnitude is \|force_balance\|. It is non-negative for a positive liquidity amount and non-positive otherwise. |
| Payment.LiquidityBalance | odoo/addons_extension/account_exchange_rate/models/account_payment.py:92-98 | A forced balance is honoured only without write-offs. Otherwise the balance is the liquidity amount converted at the payment date. |
| Payment.PrepareLines | odoo/addons_extension/account_exchange_rate/models/account_payment.py:49-144 | It fails without an outstanding account or when the conversion fails. The lines are: liquidity on the outstanding account with the liquidity amount and balance; counterpart on the destination account; a bank-charge line exactly when there are no write-offs and a charge; then the rewritten write-offs. |
| Payment.PrepareMoveLineDefaultValsAsWritten | odoo/addons_extension/account_exchange_rate/models/account_payment.py:49-144 | The method as written. Its foreign amounts sum to 0. |
| Payment.PrepareMoveLineDefaultVals | odoo/addons_extension/account_exchange_rate/models/account_payment.py:49-144 | The corrected method. Both its foreign amounts and its balances sum to 0. |
| Payment.AmountCurrencyBalances | odoo/addons_extension/account_exchange_rate/models/account_payment.py:99-144 | In both variants, the amounts in currency of all returned lines sum to 0. |
| Payment.CorrectedBalances | odoo/addons_extension/account_exchange_rate/models/account_payment.py:99-144 | With the correction, the balances of all returned lines sum to 0. |
| Payment.ItemsBalance | odoo/addons_extension/account_exchange_rate/models/account_payment.py:99-144 | Both sums hold for any liquidity balance. |
| Payment.LiquiditySides | odoo/addons_extension/account_exchange_rate/models/account_payment.py:114-115 | The liquidity line's debit and credit are non-negative and at most one is non-zero. |
| Payment.AsWrittenUnbalanced | odoo/addons_extension/account_exchange_rate/models/account_payment.py:123-142 | As written, an inbound payment of 100 with a bank charge of 5 and no write-off books lines whose balances sum to −5. |
| Payment.AsWrittenImbalance | odoo/addons_extension/account_exchange_rate/models/account_payment.py:99-142 | As written, the balances miss 0 by the bank charge whenever the counterpart balance is non-zero: +charge on the counterpart's side without write-offs, −charge with write-offs. |
| Payment.PreservedWriteOffs | odoo/addons_extension/account_exchange_rate/models/account_payment.py:170-179 | One preserved write-off exactly when liquidity, counterpart and write-off items all exist; none otherwise. |
| Payment.UpdateOrCreate | odoo/addons_extension/account_exchange_rate/models/account_payment.py:183-188 | An update of the one existing item or a create when there is none. More than one item fails. |
| Payment.SynchronizeToMoves | odoo/addons_extension/account_exchange_rate/models/account_payment.py:154-207 | For either variant of the preparation (`AsWritten` is the code as it stands): nothing happens when skipped or no trigger field changed. Otherwise it fails exactly when preparation fails or an item is not single. The commands update or create the two main items, delete the old write-offs and create the remaining prepared lines, with the payment's currency. |
| Payment.SynchronizedWritesPrepared | odoo/addons_extension/account_exchange_rate/models/account_payment.py:181-200 | The line values the commands write are exactly the prepared lines, in order. |
| Payment.SynchronizedLinesBalance | odoo/addons_extension/account_exchange_rate/models/account_payment.py:181-207 | The foreign amounts of the lines a synchronisation writes sum to 0 in either variant; their balances sum to 0 only with the corrected preparation. |
| Payment.SynchronizeAsWrittenUnbalanced | odoo/addons_extension/account_exchange_rate/models/account_payment.py:154-207 | As written, changing the bank charge of an inbound payment of 100 (charge 5) on an entry with one liquidity and one counterpart item writes counterpart credit 100 and lines summing to −5; the corrected variant writes credit 95. |
| Payment.WriteOffAmountPreserved | odoo/addons_extension/account_exchange_rate/models/account_payment.py:167-194 | In either variant, a preserved write-off not labelled "Bank Charges" is created again with the summed amounts of the items it replaces. |
| StatementLine.CompanyAmount | odoo/addons_extension/account_exchange_rate/models/account_payment.py:237-243 | The journal amount when the journal is in company currency. Otherwise the transaction amount when the transaction is. Otherwise the journal amount converted with the reconciled payment's move at the statement date. |
| StatementLine.PrepareStatementLines | odoo/addons_extension/account_exchange_rate/models/account_payment.py:212-267 | It fails without any counterpart or suspense account. The liquidity line is in journal currency with the journal amount and the company amount as balance. The counterpart line is on the given (or suspense) account, in the transaction currency, with minus the transaction amount. |
| StatementLine.StatementLinesMirror | odoo/addons_extension/account_exchange_rate/models/account_payment.py:245-267 | Each line's debit is the other's credit. Sides are non-negative, one of them zero. The two balances cancel. |
| StatementLine.CompanyCurrencyStatement | odoo/addons_extension/account_exchange_rate/models/account_payment.py:228-267 | A statement in company currency books its own amount as balance and minus it in currency. |
| Dates.YearLength | odoo/addons_extension/project_extension/models/hr_employee.py:24-38 | Jan 1 to Dec 31, both included, is 366 days in a leap year and 365 otherwise. |
| Employee.WorkSlotsExactly | odoo/addons_extension/project_extension/models/hr_employee.py:56-58 | A slot is kept iff it is in the calendar and is a morning or afternoon slot on days 0 to 6, and each kept slot appears as many times as in the calendar (multiset equality), so the count and the sum see duplicates. |
| Employee.WorkHoursPerDayNonNegative | odoo/addons_extension/project_extension/models/hr_employee.py:55-65 | Slots of non-negative total length give non-negative hours per day. |
| Employee.WorkHoursPerDayTimesDays | odoo/addons_extension/project_extension/models/hr_employee.py:59-65 | Hours per day times half the slot count gives back the slots' summed hours. |
| Employee.UniformDay | odoo/addons_extension/project_extension/models/hr_employee.py:55-65 | If every work slot lasts h hours, a day has 2h hours. |
| Employee.ClippedDays | odoo/addons_extension/project_extension/models/hr_employee.py:86-90 | An overlapping holiday counts between 1 and the period's length, never more than its own length. One inside the period counts its full length. |
| Employee.HolidayDaysBounds | odoo/addons_extension/project_extension/models/hr_employee.py:77-91 | The holiday count lies between 0 and the number of holidays times the period's length. |
| Employee.HolidayDaysOutside | odoo/addons_extension/project_extension/models/hr_employee.py:77-91 | Holidays that do not touch the period count for nothing. |
| Employee.PeriodDays | odoo/addons_extension/project_extension/models/hr_employee.py:17-38 | The period has between 1 and 365/366 days, and the whole year when the employee joined in another year. |
| Employee.WorkingDays | odoo/addons_extension/project_extension/models/hr_employee.py:41-43 | max(0, days − holidays). |
| Employee.ComputeTotalWorkingHours | odoo/addons_extension/project_extension/models/hr_employee.py:13-53 | No join date gives a total of 0. Otherwise it fails exactly without a calendar, stores the year's hours, and splits them 0.8/0.2 so that they add up to the total. |
| Employee.FullYearDays | odoo/addons_extension/project_extension/models/hr_employee.py:21-43 | Joining in an earlier year, with no company holiday touching the year, gives 365/366 working days. |
| Employee.YearDaysAtMostPeriod | odoo/addons_extension/project_extension/models/hr_employee.py:21-43 | With holidays that do not run backwards, the working days lie between 0 and the period's days, so never above 365/366. |
| Employee.FullYearHours | odoo/addons_extension/project_extension/models/hr_employee.py:13-46 | Joining in an earlier year, with no holiday in the year, the stored total is 365/366 days of hours per day. |
| Employee.TotalAtMostFullYear | odoo/addons_extension/project_extension/models/hr_employee.py:13-46 | Whatever the join date and holidays, the stored total never exceeds 365/366 days of hours per day. |
| Employee.OnchangeBillable | odoo/addons_extension/project_extension/models/hr_employee.py:93-100 | With a non-zero total, the two sides add up to the total. A negative remainder is clamped to 0 and the billable side becomes the total. |
| Employee.OnchangeNonBillable | odoo/addons_extension/project_extension/models/hr_employee.py:102-109 | The mirror image for the non-billable side. |
| Employee.OnchangesIdempotent | odoo/addons_extension/project_extension/models/hr_employee.py:93-109 | Each onchange fired twice changes nothing more. |
| Employee.OnchangesAgree | odoo/addons_extension/project_extension/models/hr_employee.py:93-109 | With a positive total, the split one onchange leaves is stable under the other. |
| Employee.ComputedSplitIsStable | odoo/addons_extension/project_extension/models/hr_employee.py:46-109 | The computed 80/20 split is left unchanged by both onchanges. |
| Timesheet.Contains | odoo/addons_extension/project_extension/models/project_timesheet.py:30-32 | Python's substring test: true iff the text occurs at some position. |
| Timesheet.ContainsThenIlike | odoo/addons_extension/project_extension/models/project_timesheet.py:28-32 | A case-sensitive match is also an `ilike` match, so every line the task sums skip is skipped by the search as well. |
| Timesheet.RoleCheck | odoo/addons_extension/project_extension/models/project_timesheet.py:16-27 | The only outcomes are a pass or one of the three role errors. |
| Timesheet.CheckTimesheetTypeRole | odoo/addons_extension/project_extension/models/project_timesheet.py:13-47 | The rules are tried in order: role, billable cap, non-billable cap, yearly quota. Each error is reported only when the earlier rules hold, and carries the sum and the limit it compared, the sum exceeding the limit. |
| Timesheet.CheckCharacterization | odoo/addons_extension/project_extension/models/project_timesheet.py:16-47 | A record passes iff its role allows its type and the billable cap, the non-billable cap (tasks not named "Time Off") and the yearly quota all hold. |
| Timesheet.ShadowAssigneeNeverPasses | odoo/addons_extension/project_extension/models/project_timesheet.py:21-24 | Someone who is both shadow and assignee can log no type of time on the task. |
| Timesheet.EmployeeNonBillableAppend | odoo/addons_extension/project_extension/models/project_timesheet.py:28-39 | A further line adds its hours to the quota sum exactly when it counts. |
| Timesheet.TimeOffLinesIgnored | odoo/addons_extension/project_extension/models/project_timesheet.py:28-47 | A line whose name matches "Time Off" in any case never changes the verdict. |
| Timesheet.CheckAll | odoo/addons_extension/project_extension/models/project_timesheet.py:14-15 | The records pass iff each passes. A failure is the failure of the first failing record: every record before it passes. |

## Left out

- ORM plumbing is left out: record lookup, `search` domains, `write`/`create`
  commands, views (`_get_view`), labels, partners and `date_maturity`. The
  search results are inputs, given as sequences; the commands are returned values.
- `currency.round`, `currency.is_zero` and the library's
  `res.currency._get_conversion_rate` are uninterpreted parameters. Floating
  point and decimal-precision rounding are not modelled; amounts are `real`.
- `fields.Date.today`, `context_timestamp` and the time zone are left out. The
  current date is a parameter, and holiday bounds are given as local days.
- `datetime.datetime.now()` is modelled as the error it raises under the
  file's import, not as a clock.
- The attendance search's `dayofweek in [0..6]` is modelled as a range test on
  an integer day.
- An empty `reconcile_payment_id` is modelled as a move with no rates and no
  per-document rate.
- `_get_employee_leaves` is not modelled: it is not called.
- `write` with `message_post` is not modelled: it is chatter only.
- `ResourceCalendar.write` is not modelled: it writes records.
- `_compute_payments_widget_to_reconcile_info` and
  `_recompute_cash_rounding_lines` are not modelled: they are driven by
  searches and by foreign rounding code.
- The payment's `onchange_exchange_rates` and `_onchange_date`, and the
  move's `_onchange_date`, are not modelled as members of their own. They only
  call the modelled `onchange_exchange_rate` and `_inverse_currency_id`.
- `Payment.SetExchangeRateValues` models the two field assignments of
  `set_exchange_rate_values`. Whatever the base accounting module runs when
  the entry's `currency_id` is written is not part of this model.
- The call to the base class's `_inverse_currency_id` at the end of the
  override (account_move.py line 150) is not modelled. That method is not
  part of this model.
- `Payment.SynchronizeToMoves` takes the preparation variant as a parameter.
  `AsWritten` is the code as it stands, and with a non-zero bank charge its
  entry does not balance (see Findings). `Payment.SynchronizedLinesBalance`
  promises balanced lines only for `Corrected`.
- `_synchronize_to_moves` is modelled for one payment. Looping over several
  payments repeats it.
- `_seek_for_lines` is given as input; the model does not classify items itself.
- `Timesheet.CheckTimesheetTypeRole` models `ilike` as a substring test that
  ignores ASCII case only. The database's own collation and case folding are
  not modelled.

## Findings

| source | as written | input that shows it | evidently intended | confidence | as-written member | corrected member |
|---|---|---|---|---|---|---|
| odoo/addons_extension/account_exchange_rate/models/account_payment.py:125-126 | The counterpart's debit/credit is reduced by the bank charge when there ARE write-offs. But the separate bank-charge line is added only when there are none (line 131), and the amount in currency (line 123) is adjusted in that case. | An inbound payment of 100, same currency, with a bank charge of 5 and no write-offs. The lines are liquidity debit 100, counterpart credit 100 and bank charge credit 5, so the balances sum to −5. With write-offs the counterpart is reduced although the write-offs already balance the entry, so that case misses 0 by the charge as well. `_synchronize_to_moves` writes these lines. | Take the charge off the counterpart when there are no write-offs, as line 123 does, so that the entry balances. | not executed | Payment.AsWrittenUnbalanced, Payment.AsWrittenImbalance, Payment.SynchronizeAsWrittenUnbalanced | Payment.PrepareMoveLineDefaultVals, Payment.CorrectedBalances, Payment.SynchronizedLinesBalance |
