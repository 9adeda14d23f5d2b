/** Calendar dates as Python's `datetime.date` counts them: the proleptic
    Gregorian calendar, years 1 to 9999, and `(b - a).days` as the difference
    of day ordinals.
 */
module Dates {

  /** A day number, used where the model only compares or subtracts dates. */
  type Day = int

  datatype Date = Date(year: int, month: int, day: int)

  predicate IsLeapYear(y: int) {
    y % 4 == 0 && (y % 100 != 0 || y % 400 == 0)
  }

  /** 366 in a leap year, else 365. */
  function DaysInYear(y: int): int {
    if IsLeapYear(y) then 366 else 365
  }

  function DaysInMonth(y: int, m: int): int {
    if m == 2 then (if IsLeapYear(y) then 29 else 28)
    else if m == 4 || m == 6 || m == 9 || m == 11 then 30
    else 31
  }

  predicate Valid(d: Date) {
    && 1 <= d.year <= 9999
    && 1 <= d.month <= 12
    && 1 <= d.day <= DaysInMonth(d.year, d.month)
  }

  /** The dates a Python `date` object can hold. */
  type ValidDate = d: Date | Valid(d) witness Date(1, 1, 1)

  function DaysBeforeYear(y: int): int
    requires y >= 1
  {
    var p := y - 1;
    p * 365 + p / 4 - p / 100 + p / 400
  }

  /** Days of year `y` before the first of month `m` (month 13 = the whole year). */
  function DaysBeforeMonth(y: int, m: int): int
    requires 1 <= m <= 13
  {
    if m == 1 then 0 else DaysBeforeMonth(y, m - 1) + DaysInMonth(y, m - 1)
  }

  /** Python's `date.toordinal()`: 1 for 0001-01-01. */
  function Ordinal(d: ValidDate): Day {
    DaysBeforeYear(d.year) + DaysBeforeMonth(d.year, d.month) + d.day
  }

  /** `(to - from).days + 1`: the number of days from `from` to `to`, both included. */
  function InclusiveDays(from: ValidDate, to: ValidDate): int {
    Ordinal(to) - Ordinal(from) + 1
  }

  function FirstOfYear(y: int): ValidDate
    requires 1 <= y <= 9999
  {
    Date(y, 1, 1)
  }

  function LastOfYear(y: int): ValidDate
    requires 1 <= y <= 9999
  {
    Date(y, 12, 31)
  }

  lemma {:induction false} DaysBeforeMonthMonotone(y: int, m: int, n: int)
    requires 1 <= m <= n <= 13
    ensures DaysBeforeMonth(y, m) <= DaysBeforeMonth(y, n)
    decreases n - m
  {
    if m < n {
      DaysBeforeMonthMonotone(y, m, n - 1);
    }
  }

  /** A year has 366 days when it is a leap year and 365 otherwise. */
  lemma YearLength(y: int)
    requires 1 <= y <= 9999
    ensures InclusiveDays(FirstOfYear(y), LastOfYear(y)) == DaysInYear(y)
  {
    WholeYear(y);
  }

  /** The twelve months of year `y` add up to 365 or 366 days. */
  lemma WholeYear(y: int)
    ensures DaysBeforeMonth(y, 13) == DaysBeforeMonth(y, 12) + 31
    ensures DaysBeforeMonth(y, 13) == DaysInYear(y)
  {
    var feb := if IsLeapYear(y) then 29 else 28;
    assert DaysBeforeMonth(y, 2) == 31;
    assert DaysBeforeMonth(y, 3) == 31 + feb;
    assert DaysBeforeMonth(y, 4) == 62 + feb;
    assert DaysBeforeMonth(y, 5) == 92 + feb;
    assert DaysBeforeMonth(y, 6) == 123 + feb;
    assert DaysBeforeMonth(y, 7) == 153 + feb;
    assert DaysBeforeMonth(y, 8) == 184 + feb;
    assert DaysBeforeMonth(y, 9) == 215 + feb;
    assert DaysBeforeMonth(y, 10) == 245 + feb;
    assert DaysBeforeMonth(y, 11) == 276 + feb;
    assert DaysBeforeMonth(y, 12) == 306 + feb;
  }

  /** Every date of a year lies between its first and its last day. */
  lemma {:induction false} WithinYear(d: ValidDate)
    ensures Ordinal(FirstOfYear(d.year)) <= Ordinal(d) <= Ordinal(LastOfYear(d.year))
  {
    DaysBeforeMonthMonotone(d.year, 1, d.month);
    DaysBeforeMonthMonotone(d.year, d.month + 1, 13);
    WholeYear(d.year);
  }
}
