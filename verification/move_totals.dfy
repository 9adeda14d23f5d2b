/** The totals of a journal entry (`AccountMove._compute_amount`) and the
    rewrite of a two-line entry from its total (`_inverse_amount_total`).
 */
module MoveTotals {
  import opened Wrappers
  import opened Currency
  import opened Move

  /** The eight running sums of `_compute_amount`, company and transaction currency. */
  datatype Sums = Sums(
    untaxed: real, untaxedCurrency: real,
    tax: real, taxCurrency: real,
    residual: real, residualCurrency: real,
    total: real, totalCurrency: real)

  const NoSums := Sums(0.0, 0.0, 0.0, 0.0, 0.0, 0.0, 0.0, 0.0)

  /** Where a line lands: for invoices, tax lines (and tax-bearing rounding
      lines) and untaxed lines both also feed the total, payment-term lines feed
      the residual; for other moves, every line with a debit feeds the total. */
  datatype Bucket = TaxAmount | UntaxedAmount | ResidualAmount | DebitAmount | NotCounted

  function BucketOf(invoice: bool, l: Line): Bucket {
    if invoice then
      if l.displayType == Tax || (l.displayType == Rounding && l.hasTaxRepartition) then TaxAmount
      else if l.displayType == Product || l.displayType == Rounding then UntaxedAmount
      else if l.displayType == PaymentTerm then ResidualAmount
      else NotCounted
    else if l.debit != 0.0 then DebitAmount
    else NotCounted
  }

  function AddLine(s: Sums, invoice: bool, l: Line): Sums {
    match BucketOf(invoice, l)
    case TaxAmount =>
      s.(tax := s.tax + l.balance, taxCurrency := s.taxCurrency + l.amountCurrency,
         total := s.total + l.balance, totalCurrency := s.totalCurrency + l.amountCurrency)
    case UntaxedAmount =>
      s.(untaxed := s.untaxed + l.balance, untaxedCurrency := s.untaxedCurrency + l.amountCurrency,
         total := s.total + l.balance, totalCurrency := s.totalCurrency + l.amountCurrency)
    case ResidualAmount =>
      s.(residual := s.residual + l.amountResidual, residualCurrency := s.residualCurrency + l.amountResidualCurrency)
    case DebitAmount =>
      s.(total := s.total + l.balance, totalCurrency := s.totalCurrency + l.amountCurrency)
    case NotCounted => s
  }

  /** The loop over `line_ids`, line by line in order. */
  function Accumulate(invoice: bool, lines: seq<Line>): (s: Sums)
    ensures invoice ==> s.total == s.untaxed + s.tax && s.totalCurrency == s.untaxedCurrency + s.taxCurrency
    ensures !invoice ==>
      && s.untaxed == 0.0 && s.untaxedCurrency == 0.0
      && s.tax == 0.0 && s.taxCurrency == 0.0
      && s.residual == 0.0 && s.residualCurrency == 0.0
  {
    if |lines| == 0 then NoSums
    else AddLine(Accumulate(invoice, lines[..|lines| - 1]), invoice, lines[|lines| - 1])
  }

  function Combine(a: Sums, b: Sums): Sums {
    Sums(a.untaxed + b.untaxed, a.untaxedCurrency + b.untaxedCurrency,
         a.tax + b.tax, a.taxCurrency + b.taxCurrency,
         a.residual + b.residual, a.residualCurrency + b.residualCurrency,
         a.total + b.total, a.totalCurrency + b.totalCurrency)
  }

  /** The sums of two runs of lines add up: the totals depend on which lines
      a move has, not on how they are split. */
  lemma {:induction false} AccumulateConcat(invoice: bool, a: seq<Line>, b: seq<Line>)
    ensures Accumulate(invoice, a + b) == Combine(Accumulate(invoice, a), Accumulate(invoice, b))
    decreases |b|
  {
    if |b| == 0 {
      assert a + b == a;
      CombineNoSums(Accumulate(invoice, a));
    } else {
      var b' := b[..|b| - 1];
      var l := b[|b| - 1];
      AccumulateConcat(invoice, a, b');
      assert Accumulate(invoice, a + b) == AddLine(Accumulate(invoice, a + b'), invoice, l) by {
        assert (a + b)[..|a + b| - 1] == a + b';
        assert (a + b)[|a + b| - 1] == l;
      }
      AddLineCombine(Accumulate(invoice, a), Accumulate(invoice, b'), invoice, l);
    }
  }

  lemma CombineNoSums(x: Sums)
    ensures Combine(x, NoSums) == x
  {
  }

  lemma AddLineCombine(x: Sums, y: Sums, invoice: bool, l: Line)
    ensures AddLine(Combine(x, y), invoice, l) == Combine(x, AddLine(y, invoice, l))
  {
  }

  /** Which amount of a line a sum reads. */
  datatype Measure = BalanceOf | CurrencyOf | ResidualOf | ResidualCurrencyOf

  function Amount(l: Line, f: Measure): real {
    match f
    case BalanceOf => l.balance
    case CurrencyOf => l.amountCurrency
    case ResidualOf => l.amountResidual
    case ResidualCurrencyOf => l.amountResidualCurrency
  }

  /** Measure `f` of a line when it lands in bucket `k`, else 0. */
  function Part(invoice: bool, l: Line, k: Bucket, f: Measure): real {
    if BucketOf(invoice, l) == k then Amount(l, f) else 0.0
  }

  /** Reference definition: measure `f` summed over the lines in bucket `k`. */
  function BucketSum(invoice: bool, lines: seq<Line>, k: Bucket, f: Measure): real {
    if |lines| == 0 then 0.0
    else Part(invoice, lines[0], k, f) + BucketSum(invoice, lines[1..], k, f)
  }

  /** Measure `f` summed over the lines that feed the total. */
  function TotalSum(invoice: bool, lines: seq<Line>, f: Measure): real {
    BucketSum(invoice, lines, UntaxedAmount, f) + BucketSum(invoice, lines, TaxAmount, f)
    + BucketSum(invoice, lines, DebitAmount, f)
  }

  /** The running sums agree with the per-bucket reference sums: untaxed and
      tax amounts are the balances (and amounts in currency) of the untaxed and
      tax lines, the residuals those of the payment-term lines, and the totals
      the untaxed and tax lines plus the debit lines of non-invoices. */
  lemma {:induction false} AccumulateMatchesBuckets(invoice: bool, lines: seq<Line>)
    ensures Accumulate(invoice, lines).untaxed == BucketSum(invoice, lines, UntaxedAmount, BalanceOf)
    ensures Accumulate(invoice, lines).untaxedCurrency == BucketSum(invoice, lines, UntaxedAmount, CurrencyOf)
    ensures Accumulate(invoice, lines).tax == BucketSum(invoice, lines, TaxAmount, BalanceOf)
    ensures Accumulate(invoice, lines).taxCurrency == BucketSum(invoice, lines, TaxAmount, CurrencyOf)
    ensures Accumulate(invoice, lines).residual == BucketSum(invoice, lines, ResidualAmount, ResidualOf)
    ensures Accumulate(invoice, lines).residualCurrency == BucketSum(invoice, lines, ResidualAmount, ResidualCurrencyOf)
    ensures Accumulate(invoice, lines).total == TotalSum(invoice, lines, BalanceOf)
    ensures Accumulate(invoice, lines).totalCurrency == TotalSum(invoice, lines, CurrencyOf)
  {
    if |lines| > 0 {
      AccumulateMatchesBuckets(invoice, lines[1..]);
      AccumulateConcat(invoice, [lines[0]], lines[1..]);
      assert [lines[0]] + lines[1..] == lines;
      AccumulateOne(invoice, lines[0]);
    }
  }

  /** The sums of a single line. */
  lemma AccumulateOne(invoice: bool, l: Line)
    ensures var s := Accumulate(invoice, [l]);
      && s.untaxed == Part(invoice, l, UntaxedAmount, BalanceOf)
      && s.untaxedCurrency == Part(invoice, l, UntaxedAmount, CurrencyOf)
      && s.tax == Part(invoice, l, TaxAmount, BalanceOf)
      && s.taxCurrency == Part(invoice, l, TaxAmount, CurrencyOf)
      && s.residual == Part(invoice, l, ResidualAmount, ResidualOf)
      && s.residualCurrency == Part(invoice, l, ResidualAmount, ResidualCurrencyOf)
      && s.total == Part(invoice, l, UntaxedAmount, BalanceOf) + Part(invoice, l, TaxAmount, BalanceOf)
                    + Part(invoice, l, DebitAmount, BalanceOf)
      && s.totalCurrency == Part(invoice, l, UntaxedAmount, CurrencyOf) + Part(invoice, l, TaxAmount, CurrencyOf)
                            + Part(invoice, l, DebitAmount, CurrencyOf)
  {
    assert [l][..0] == [];
  }

  /** On an invoice a payment-term line changes the residual and nothing else. */
  lemma PaymentTermOnlyMovesResidual(lines: seq<Line>, l: Line)
    requires l.displayType == PaymentTerm
    ensures Accumulate(true, lines + [l])
            == Accumulate(true, lines).(residual := Accumulate(true, lines).residual + l.amountResidual,
                                        residualCurrency := Accumulate(true, lines).residualCurrency + l.amountResidualCurrency)
  {
    assert (lines + [l])[..|lines + [l]| - 1] == lines;
  }

  /** On a move that is not an invoice, a line without debit changes nothing. */
  lemma CreditLinesDoNotCount(lines: seq<Line>, l: Line)
    requires l.debit == 0.0
    ensures Accumulate(false, lines + [l]) == Accumulate(false, lines)
  {
    assert (lines + [l])[..|lines + [l]| - 1] == lines;
  }

  /** The amounts `_compute_amount` stores on the move. */
  datatype Totals = Totals(
    amountUntaxed: real, amountTax: real, amountTotal: real, amountResidual: real,
    amountUntaxedSigned: real, amountTaxSigned: real, amountTotalSigned: real, amountResidualSigned: real,
    amountUntaxedUnsigned: real, amountTaxUnsigned: real, amountTotalUnsigned: real, amountResidualUnsigned: real,
    amountTotalInCurrencySigned: real)

  /** The amounts stored for a move with direction sign `sign`, from its sums. */
  function TotalsOf(m: Move, sign: real, s: Sums): (t: Totals)
    ensures t.amountUntaxed == Scaled(s.untaxedCurrency, sign) && t.amountTax == Scaled(s.taxCurrency, sign)
    ensures t.amountTotal == Scaled(s.totalCurrency, sign) && t.amountResidual == -Scaled(s.residualCurrency, sign)
    ensures t.amountUntaxedSigned == -s.untaxed && t.amountTaxSigned == -s.tax && t.amountResidualSigned == s.residual
    ensures t.amountTotalSigned == if m.moveType == Entry then Abs(s.total) else -s.total
    ensures t.amountUntaxedUnsigned == Abs(s.untaxed) && t.amountTaxUnsigned == Abs(s.tax)
    ensures t.amountTotalUnsigned == Abs(s.total) && t.amountResidualUnsigned == Abs(s.residual)
    ensures t.amountTotalInCurrencySigned == if m.moveType == Entry then Abs(t.amountTotal) else -Scaled(t.amountTotal, sign)
  {
    var amountTotal := Scaled(s.totalCurrency, sign);
    Totals(
      Scaled(s.untaxedCurrency, sign), Scaled(s.taxCurrency, sign), amountTotal, -Scaled(s.residualCurrency, sign),
      -s.untaxed, -s.tax, if m.moveType == Entry then Abs(s.total) else -s.total, s.residual,
      Abs(s.untaxed), Abs(s.tax), Abs(s.total), Abs(s.residual),
      if m.moveType == Entry then Abs(amountTotal) else -Scaled(amountTotal, sign))
  }

  /** `_compute_amount` for a move with direction sign `sign`. */
  function ComputeAmount(m: Move, sign: real, lines: seq<Line>): (t: Totals)
    ensures var inv := IsInvoice(m.moveType);
      && t.amountUntaxed == Scaled(BucketSum(inv, lines, UntaxedAmount, CurrencyOf), sign)
      && t.amountTax == Scaled(BucketSum(inv, lines, TaxAmount, CurrencyOf), sign)
      && t.amountTotal == Scaled(TotalSum(inv, lines, CurrencyOf), sign)
      && t.amountResidual == -Scaled(BucketSum(inv, lines, ResidualAmount, ResidualCurrencyOf), sign)
      && t.amountUntaxedSigned == -BucketSum(inv, lines, UntaxedAmount, BalanceOf)
      && t.amountTaxSigned == -BucketSum(inv, lines, TaxAmount, BalanceOf)
      && t.amountResidualSigned == BucketSum(inv, lines, ResidualAmount, ResidualOf)
      && t.amountTotalUnsigned == Abs(TotalSum(inv, lines, BalanceOf))
    ensures m.moveType != Entry ==> t.amountTotalSigned == -TotalSum(IsInvoice(m.moveType), lines, BalanceOf)
    ensures t.amountUntaxedUnsigned == Abs(t.amountUntaxedSigned)
    ensures t.amountTaxUnsigned == Abs(t.amountTaxSigned)
    ensures t.amountTotalUnsigned == Abs(t.amountTotalSigned)
    ensures t.amountResidualUnsigned == Abs(t.amountResidualSigned)
    ensures m.moveType == Entry ==> t.amountTotalSigned == t.amountTotalUnsigned
    ensures m.moveType == Entry ==> t.amountTotalInCurrencySigned == Abs(t.amountTotal)
    ensures m.moveType != Entry ==> t.amountTotalInCurrencySigned == -Scaled(t.amountTotal, sign)
    ensures IsInvoice(m.moveType) ==>
      && t.amountTotal == t.amountUntaxed + t.amountTax
      && t.amountTotalSigned == t.amountUntaxedSigned + t.amountTaxSigned
      && t.amountTotalUnsigned == Abs(t.amountUntaxedSigned + t.amountTaxSigned)
    ensures !IsInvoice(m.moveType) ==>
      && t.amountUntaxed == 0.0 && t.amountTax == 0.0 && t.amountResidual == 0.0
      && t.amountUntaxedSigned == 0.0 && t.amountTaxSigned == 0.0 && t.amountResidualSigned == 0.0
  {
    var s := Accumulate(IsInvoice(m.moveType), lines);
    AccumulateMatchesBuckets(IsInvoice(m.moveType), lines);
    var t := TotalsOf(m, sign, s);
    assert IsInvoice(m.moveType) ==> t.amountTotal == t.amountUntaxed + t.amountTax by {
      if IsInvoice(m.moveType) {
        DistributeSign(sign, s.untaxedCurrency, s.taxCurrency);
      }
    }
    t
  }

  lemma DistributeSign(sign: real, a: real, b: real)
    ensures Scaled(a + b, sign) == Scaled(a, sign) + Scaled(b, sign)
  {
  }

  /** One `(1, id, {...})` command of `_inverse_amount_total`. */
  datatype LineUpdate = LineUpdate(index: nat, debit: real, credit: real, amountCurrency: real)

  /** The new values for a line: the converted total on the side of its
      current balance, and the total in currency with the same sign. */
  function UpdateFor(i: nat, l: Line, balance: real, amountCurrency: real): (u: LineUpdate)
    ensures u.index == i && (u.debit == 0.0 || u.credit == 0.0)
    ensures l.balance > 0.0 ==> u.debit == balance && u.credit == 0.0 && u.amountCurrency == amountCurrency
    ensures l.balance < 0.0 ==> u.debit == 0.0 && u.credit == balance && u.amountCurrency == -amountCurrency
    ensures l.balance == 0.0 ==> u.debit == 0.0 && u.credit == 0.0 && u.amountCurrency == -amountCurrency
  {
    LineUpdate(i,
      if l.balance > 0.0 then balance else 0.0,
      if l.balance < 0.0 then balance else 0.0,
      if l.balance > 0.0 then amountCurrency else -amountCurrency)
  }

  /** Some update of `us` rewrites line `i`. */
  predicate Rewrites(us: seq<LineUpdate>, i: nat) {
    exists k :: 0 <= k < |us| && us[k].index == i
  }

  /** `_inverse_amount_total`: a non-invoice move with exactly two lines gets
      both lines rewritten from `|amount_total|` converted at the accounting
      date, skipping a line whose balance already matches. */
  function InverseAmountTotal(m: Move, lines: seq<Line>, amountTotal: real, isZero: ZeroTest, roundFn: RoundFn)
    : (r: Result<seq<LineUpdate>>)
    ensures |lines| != 2 || IsInvoice(m.moveType) ==> r == Ok([])
    ensures |lines| == 2 && !IsInvoice(m.moveType) ==>
      var c := Convert(m, Abs(amountTotal), m.currency, Some(m.companyCurrency), m.company, AccountingDate(m), true, roundFn);
      && (r.Err? <==> c.Err?)
      && (r.Ok? ==> forall k :: 0 <= k < |r.value| ==>
            r.value[k].index < 2 && r.value[k] == UpdateFor(r.value[k].index, lines[r.value[k].index], c.value, Abs(amountTotal)))
      && (r.Ok? ==> forall i :: 0 <= i < 2 ==>
            (Rewrites(r.value, i) <==> !isZero(lines[i].currency, c.value - Abs(lines[i].balance))))
    ensures r.Ok? ==> |r.value| <= 2
    ensures r.Ok? ==> forall u :: u in r.value ==> u.index < |lines| && (u.debit == 0.0 || u.credit == 0.0)
    ensures r.Ok? && |r.value| == 2 ==> r.value[0].index == 0 && r.value[1].index == 1
    ensures r.Ok? ==> forall u :: u in r.value ==> Abs(u.amountCurrency) == Abs(amountTotal)
  {
    if |lines| != 2 || IsInvoice(m.moveType) then Ok([])
    else
      var amountCurrency := Abs(amountTotal);
      var converted := Convert(m, amountCurrency, m.currency, Some(m.companyCurrency), m.company,
                               AccountingDate(m), true, roundFn);
      if converted.Err? then Err(converted.message)
      else
        Ok(RewriteBoth(lines, converted.value, amountCurrency, isZero))
  }

  /** The updates of the two lines of an entry from the converted `balance`:
      in line order, each line that does not already match. */
  function RewriteBoth(lines: seq<Line>, balance: real, amountCurrency: real, isZero: ZeroTest): (us: seq<LineUpdate>)
    requires |lines| == 2
    ensures |us| <= 2
    ensures |us| == 2 ==> us[0].index == 0 && us[1].index == 1
    ensures forall k :: 0 <= k < |us| ==>
      us[k].index < 2 && us[k] == UpdateFor(us[k].index, lines[us[k].index], balance, amountCurrency)
    ensures forall k :: 0 <= k < |us| ==>
      (us[k].debit == 0.0 || us[k].credit == 0.0) && Abs(us[k].amountCurrency) == Abs(amountCurrency)
    ensures forall i :: 0 <= i < 2 ==>
      (Rewrites(us, i) <==> !isZero(lines[i].currency, balance - Abs(lines[i].balance)))
  {
    var first := RewriteOne(0, lines[0], balance, amountCurrency, isZero);
    var second := RewriteOne(1, lines[1], balance, amountCurrency, isZero);
    assert forall i :: 0 <= i < 2 ==>
      (Rewrites(first + second, i) <==> !isZero(lines[i].currency, balance - Abs(lines[i].balance))) by {
      forall i | 0 <= i < 2 {
        RewritesOfPair(first, second, i);
      }
    }
    first + second
  }

  /** An update for line 0 or none, then one for line 1 or none: line `i` is
      rewritten exactly when its part holds an update. */
  lemma RewritesOfPair(a: seq<LineUpdate>, b: seq<LineUpdate>, i: nat)
    requires |a| <= 1 && |b| <= 1
    requires |a| == 1 ==> a[0].index == 0
    requires |b| == 1 ==> b[0].index == 1
    ensures Rewrites(a + b, i) <==> (i == 0 && |a| == 1) || (i == 1 && |b| == 1)
  {
    if i == 0 && |a| == 1 {
      assert (a + b)[0].index == 0;
    } else if i == 1 && |b| == 1 {
      assert (a + b)[|a|].index == 1;
    }
  }

  /** The update for line `i`, or none when its balance already matches. */
  function RewriteOne(i: nat, l: Line, balance: real, amountCurrency: real, isZero: ZeroTest): (us: seq<LineUpdate>)
    ensures |us| <= 1
    ensures |us| == 1 <==> !isZero(l.currency, balance - Abs(l.balance))
    ensures |us| == 1 ==> us[0] == UpdateFor(i, l, balance, amountCurrency)
  {
    if isZero(l.currency, balance - Abs(l.balance)) then [] else [UpdateFor(i, l, balance, amountCurrency)]
  }

  /** When both lines of a debit/credit pair are rewritten, the entry stays
      balanced: equal debit and credit, and amounts in currency summing to 0. */
  lemma InverseAmountTotalBalanced(m: Move, lines: seq<Line>, amountTotal: real, isZero: ZeroTest, roundFn: RoundFn)
    requires |lines| == 2
    requires (lines[0].balance > 0.0 && lines[1].balance < 0.0) || (lines[0].balance < 0.0 && lines[1].balance > 0.0)
    requires InverseAmountTotal(m, lines, amountTotal, isZero, roundFn).Ok?
    requires |InverseAmountTotal(m, lines, amountTotal, isZero, roundFn).value| == 2
    ensures var u := InverseAmountTotal(m, lines, amountTotal, isZero, roundFn).value;
      && u[0].debit + u[1].debit == u[0].credit + u[1].credit
      && u[0].amountCurrency + u[1].amountCurrency == 0.0
  {
  }
}
