/** Currency rate records (res_currency.py): the buy rate and its inverse kept
    reciprocal by two onchanges, the positivity constraint on stored records,
    and the "latest rate on or before a date" lookup the move rate uses.
 */
module Currency {
  import opened Wrappers
  import opened Dates

  type CurrencyId = nat

  /** One `res.currency.rate` record: its date (`name`), the sell inverse rate
      and the buy rate pair this add-on introduces. */
  datatype RateEntry = RateEntry(
    name: Day,
    inverseCompanyRate: real,
    buyCompanyRate: real,
    buyInverseCompanyRate: real)

  /** `1 / x`, for a non-zero `x`. */
  function Reciprocal(x: real): (r: real)
    requires x != 0.0
    ensures r * x == 1.0 && r != 0.0
  {
    1.0 / x
  }

  /** `a / b`, for a non-zero `b`. */
  function Quotient(a: real, b: real): (q: real)
    requires b != 0.0
    ensures q * b == a
  {
    a / b
  }

  /** The SQL check `buy_inverse_company_rate > 0` every stored record satisfies. */
  predicate SatisfiesRateCheck(r: RateEntry) {
    r.buyInverseCompanyRate > 0.0
  }

  /** Onchange of `buy_company_rate`: a positive rate sets the inverse to its
      reciprocal, anything else sets the inverse to 0. */
  function OnchangeBuyCompanyRate(r: RateEntry): (r': RateEntry)
    ensures r'.(buyInverseCompanyRate := r.buyInverseCompanyRate) == r
    ensures r.buyCompanyRate > 0.0 ==> r'.buyInverseCompanyRate * r.buyCompanyRate == 1.0
    ensures r.buyCompanyRate <= 0.0 ==> r'.buyInverseCompanyRate == 0.0
    ensures SatisfiesRateCheck(r') <==> r.buyCompanyRate > 0.0
  {
    if r.buyCompanyRate > 0.0 then r.(buyInverseCompanyRate := Reciprocal(r.buyCompanyRate))
    else r.(buyInverseCompanyRate := 0.0)
  }

  /** Onchange of `buy_inverse_company_rate`, the mirror image of the above. */
  function OnchangeBuyInverseCompanyRate(r: RateEntry): (r': RateEntry)
    ensures r'.(buyCompanyRate := r.buyCompanyRate) == r
    ensures r.buyInverseCompanyRate > 0.0 ==> r'.buyCompanyRate * r.buyInverseCompanyRate == 1.0
    ensures r.buyInverseCompanyRate <= 0.0 ==> r'.buyCompanyRate == 0.0
    ensures r'.buyCompanyRate > 0.0 <==> SatisfiesRateCheck(r)
  {
    if r.buyInverseCompanyRate > 0.0 then r.(buyCompanyRate := Reciprocal(r.buyInverseCompanyRate))
    else r.(buyCompanyRate := 0.0)
  }

  /** Entering a positive buy rate fires the inverse's onchange in turn; that
      second onchange gives back the rate that was entered, so the pair is stable. */
  lemma BuyRateRoundTrip(r: RateEntry)
    requires r.buyCompanyRate > 0.0
    ensures OnchangeBuyInverseCompanyRate(OnchangeBuyCompanyRate(r)) == OnchangeBuyCompanyRate(r)
  {
    var x := r.buyCompanyRate;
    assert Reciprocal(Reciprocal(x)) == x;
  }

  /** The same round trip starting from the inverse rate. */
  lemma BuyInverseRateRoundTrip(r: RateEntry)
    requires r.buyInverseCompanyRate > 0.0
    ensures OnchangeBuyCompanyRate(OnchangeBuyInverseCompanyRate(r)) == OnchangeBuyInverseCompanyRate(r)
  {
    var x := r.buyInverseCompanyRate;
    assert Reciprocal(Reciprocal(x)) == x;
  }

  /** `k` is the entry that `sorted(rates filtered by name <= date, key=name)[-1]`
      selects: an eligible entry with the greatest date, and, Python's sort being
      stable, the last such entry in the original order. */
  ghost predicate IsLatest(rates: seq<RateEntry>, date: Day, k: int) {
    && 0 <= k < |rates|
    && rates[k].name <= date
    && (forall j :: 0 <= j < |rates| && rates[j].name <= date ==> rates[j].name <= rates[k].name)
    && (forall j :: k < j < |rates| && rates[j].name <= date ==> rates[j].name < rates[k].name)
  }

  /** Index of the latest rate dated on or before `date`, if any. */
  function LatestRateIndex(rates: seq<RateEntry>, date: Day): (k: Option<nat>)
    ensures k.None? <==> forall j :: 0 <= j < |rates| ==> rates[j].name > date
    ensures k.Some? ==> IsLatest(rates, date, k.value)
  {
    if |rates| == 0 then None
    else
      var prev := LatestRateIndex(rates[..|rates| - 1], date);
      var last := rates[|rates| - 1];
      if last.name <= date && (prev.None? || rates[prev.value].name <= last.name)
      then Some(|rates| - 1)
      else prev
  }

  /** At most one index is the latest, so the lookup is fully determined by `IsLatest`. */
  lemma LatestIsUnique(rates: seq<RateEntry>, date: Day, k1: int, k2: int)
    requires IsLatest(rates, date, k1) && IsLatest(rates, date, k2)
    ensures k1 == k2
  {
  }
}
