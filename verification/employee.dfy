/** The employee's yearly capacity (hr_employee.py): hours per working day
    from the calendar, company holidays in the counting period, the yearly
    total split 80/20 into billable and non-billable hours, and the two
    onchanges that keep that split adding up.
 */
module Employee {
  import opened Wrappers
  import opened Dates

  datatype DayPeriod = Morning | Lunch | Afternoon

  /** A `resource.calendar.attendance`: one half-day slot of the week. */
  datatype Attendance = Attendance(dayOfWeek: int, period: DayPeriod, hourFrom: real, hourTo: real)

  /** A `resource.calendar.leaves` record of the calendar, its bounds already
      turned into local day numbers; `companyWide` is "no resource set". */
  datatype Holiday = Holiday(dateFrom: Day, dateTo: Day, companyWide: bool)

  datatype Calendar = Calendar(attendances: seq<Attendance>, leaves: seq<Holiday>)

  /** An `hr.employee` with the fields the capacity rules read and write. */
  datatype Employee = Employee(
    joinDate: Option<ValidDate>,
    calendar: Option<Calendar>,
    totalWorkingHours: real,
    billableHours: real,
    nonBillableHours: real)

  /** A morning or afternoon slot on a day of the week (0 to 6). */
  predicate IsWorkSlot(a: Attendance) {
    0 <= a.dayOfWeek <= 6 && (a.period == Morning || a.period == Afternoon)
  }

  function WorkSlots(atts: seq<Attendance>): (r: seq<Attendance>)
    ensures |r| <= |atts|
  {
    if |atts| == 0 then []
    else if IsWorkSlot(atts[0]) then [atts[0]] + WorkSlots(atts[1..])
    else WorkSlots(atts[1..])
  }

  /** The kept slots are exactly the calendar's morning and afternoon slots on
      days 0 to 6, each as often as the calendar has it (so the slot count and
      the hour sum see duplicates). */
  lemma {:induction false} WorkSlotsExactly(atts: seq<Attendance>)
    ensures forall a :: multiset(WorkSlots(atts))[a] == if IsWorkSlot(a) then multiset(atts)[a] else 0
    ensures forall a :: a in WorkSlots(atts) <==> a in atts && IsWorkSlot(a)
    decreases |atts|
  {
    if |atts| > 0 {
      WorkSlotsExactly(atts[1..]);
      assert atts == [atts[0]] + atts[1..];
      assert multiset(atts) == multiset([atts[0]]) + multiset(atts[1..]);
      if IsWorkSlot(atts[0]) {
        assert WorkSlots(atts) == [atts[0]] + WorkSlots(atts[1..]);
        assert multiset(WorkSlots(atts)) == multiset([atts[0]]) + multiset(WorkSlots(atts[1..]));
      }
    }
  }

  /** The summed `hour_to - hour_from` of some slots. */
  function SlotHours(atts: seq<Attendance>): real {
    if |atts| == 0 then 0.0 else (atts[0].hourTo - atts[0].hourFrom) + SlotHours(atts[1..])
  }

  /** `_get_work_hours_per_day`: the hours of all work slots over half their
      number (two slots make a day), or 0 without any slot. */
  function WorkHoursPerDay(c: Calendar): (r: real)
    ensures |WorkSlots(c.attendances)| == 0 ==> r == 0.0
  {
    var slots := WorkSlots(c.attendances);
    if |slots| == 0 then 0.0
    else SlotHours(slots) / (|slots| as real / 2.0)
  }

  /** Slots of non-negative total length give a non-negative day. */
  lemma WorkHoursPerDayNonNegative(c: Calendar)
    requires SlotHours(WorkSlots(c.attendances)) >= 0.0
    ensures WorkHoursPerDay(c) >= 0.0
  {
    var slots := WorkSlots(c.attendances);
    if |slots| > 0 {
      QuotientNonNegative(SlotHours(slots), |slots| as real / 2.0);
    }
  }

  lemma QuotientNonNegative(a: real, d: real)
    requires a >= 0.0 && d > 0.0
    ensures a / d >= 0.0
  {
  }

  /** Hours per day times the number of days (half the slots) gives back the
      hours of all slots. */
  lemma WorkHoursPerDayTimesDays(c: Calendar)
    requires |WorkSlots(c.attendances)| > 0
    ensures WorkHoursPerDay(c) * (|WorkSlots(c.attendances)| as real / 2.0) == SlotHours(WorkSlots(c.attendances))
  {
    var slots := WorkSlots(c.attendances);
    var d := |slots| as real / 2.0;
    assert WorkHoursPerDay(c) == SlotHours(slots) / d;
    QuotientTimes(WorkHoursPerDay(c), SlotHours(slots), d);
  }

  lemma QuotientTimes(q: real, a: real, d: real)
    requires d != 0.0 && q == a / d
    ensures q * d == a
  {
  }

  /** Slots that all last `h` hours add up to `h` times their number. */
  lemma {:induction false} UniformSlotHours(atts: seq<Attendance>, h: real)
    requires forall i :: 0 <= i < |atts| ==> atts[i].hourTo - atts[i].hourFrom == h
    ensures SlotHours(atts) == (|atts| as real) * h
    decreases |atts|
  {
    if |atts| > 0 {
      var rest := atts[1..];
      assert forall i :: 0 <= i < |rest| ==> rest[i] == atts[i + 1];
      UniformSlotHours(rest, h);
      assert SlotHours(atts) == h + SlotHours(rest);
      Distribute(|rest|, h);
    }
  }

  /** A calendar whose every work slot lasts `h` hours gives days of `2h`:
      a morning and an afternoon. */
  lemma UniformDay(c: Calendar, h: real)
    requires |WorkSlots(c.attendances)| > 0
    requires forall a :: a in c.attendances && IsWorkSlot(a) ==> a.hourTo - a.hourFrom == h
    ensures WorkHoursPerDay(c) == 2.0 * h
  {
    var slots := WorkSlots(c.attendances);
    var total := SlotHours(slots);
    var n := |slots| as real;
    assert total == n * h by {
      WorkSlotsLast(c.attendances, h);
      UniformSlotHours(slots, h);
    }
    assert WorkHoursPerDay(c) == total / (n / 2.0);
    UniformQuotient(total, n, h);
  }

  /** The kept slots inherit a common length of the calendar's work slots. */
  lemma WorkSlotsLast(atts: seq<Attendance>, h: real)
    requires forall a :: a in atts && IsWorkSlot(a) ==> a.hourTo - a.hourFrom == h
    ensures forall i :: 0 <= i < |WorkSlots(atts)| ==> WorkSlots(atts)[i].hourTo - WorkSlots(atts)[i].hourFrom == h
  {
    var slots := WorkSlots(atts);
    WorkSlotsExactly(atts);
    forall i | 0 <= i < |slots|
      ensures slots[i].hourTo - slots[i].hourFrom == h
    {
      assert slots[i] in slots;
    }
  }

  lemma Distribute(k: nat, h: real)
    ensures ((k + 1) as real) * h == h + (k as real) * h
  {
  }

  lemma ScaleMonotone(a: real, b: real, w: real)
    requires a <= b && w >= 0.0
    ensures a * w <= b * w
  {
    assert (b - a) * w >= 0.0;
  }

  lemma UniformQuotient(total: real, n: real, h: real)
    requires n > 0.0 && total == n * h
    ensures total / (n / 2.0) == 2.0 * h
  {
    assert (2.0 * h) * (n / 2.0) == total;
  }

  /** The holidays the search returns: company-wide ones overlapping the period. */
  predicate Overlaps(h: Holiday, from: Day, to: Day) {
    h.companyWide && h.dateFrom <= to && h.dateTo >= from
  }

  /** No holiday touches the period. */
  predicate NoneOverlap(hs: seq<Holiday>, from: Day, to: Day) {
    forall h :: h in hs ==> !Overlaps(h, from, to)
  }

  function Max(a: int, b: int): int {
    if a >= b then a else b
  }

  function Min(a: int, b: int): int {
    if a <= b then a else b
  }

  /** The days of one holiday within the period, both ends included. */
  function ClippedDays(h: Holiday, from: Day, to: Day): (r: int)
    ensures from <= to && Overlaps(h, from, to) && h.dateFrom <= h.dateTo ==>
      && 1 <= r <= to - from + 1
      && r <= h.dateTo - h.dateFrom + 1
    ensures from <= h.dateFrom && h.dateTo <= to ==> r == h.dateTo - h.dateFrom + 1
  {
    Min(h.dateTo, to) - Max(h.dateFrom, from) + 1
  }

  /** `_get_company_holiday_days`: the clipped lengths of the overlapping
      company-wide holidays, added up. */
  function HolidayDays(hs: seq<Holiday>, from: Day, to: Day): int {
    if |hs| == 0 then 0
    else (if Overlaps(hs[0], from, to) then ClippedDays(hs[0], from, to) else 0) + HolidayDays(hs[1..], from, to)
  }

  /** Holidays that do not run backwards count between 0 and one full period
      each. */
  lemma {:induction false} HolidayDaysBounds(hs: seq<Holiday>, from: Day, to: Day)
    requires from <= to
    requires forall h :: h in hs ==> h.dateFrom <= h.dateTo
    ensures 0 <= HolidayDays(hs, from, to) <= |hs| * (to - from + 1)
    decreases |hs|
  {
    if |hs| > 0 {
      assert hs[0] in hs;
      assert forall h :: h in hs[1..] ==> h in hs;
      HolidayDaysBounds(hs[1..], from, to);
      MultipleStep(|hs[1..]|, to - from + 1);
    }
  }

  lemma MultipleStep(k: nat, n: int)
    ensures (k + 1) * n == n + k * n
  {
  }

  /** Holidays that do not touch the period count for nothing. */
  lemma {:induction false} HolidayDaysOutside(hs: seq<Holiday>, from: Day, to: Day)
    requires NoneOverlap(hs, from, to)
    ensures HolidayDays(hs, from, to) == 0
    decreases |hs|
  {
    if |hs| > 0 {
      assert hs[0] in hs;
      assert forall h :: h in hs[1..] ==> h in hs;
      HolidayDaysOutside(hs[1..], from, to);
    }
  }

  /** The first day counted: the join date when the employee joined this
      year, else the first of January. */
  function PeriodStart(join: ValidDate, today: ValidDate): ValidDate {
    if join.year == today.year then join else FirstOfYear(today.year)
  }

  /** The days of the counting period, both ends included: from the start to
      the last of December of the current year. */
  function PeriodDays(join: ValidDate, today: ValidDate): (r: int)
    ensures 1 <= r <= DaysInYear(today.year)
    ensures join.year != today.year ==> r == DaysInYear(today.year)
  {
    WithinYear(PeriodStart(join, today));
    YearLength(today.year);
    InclusiveDays(PeriodStart(join, today), LastOfYear(today.year))
  }

  /** `working_days`: the period's days less the holidays, never below 0. */
  function WorkingDays(totalDays: int, holidayDays: int): (r: int)
    ensures r >= 0
    ensures r >= totalDays - holidayDays
    ensures r == 0 || r == totalDays - holidayDays
  {
    if totalDays - holidayDays < 0 then 0 else totalDays - holidayDays
  }

  /** The working days of the counting period. */
  function YearDays(join: ValidDate, today: ValidDate, leaves: seq<Holiday>): int {
    var from := Ordinal(PeriodStart(join, today));
    var to := Ordinal(LastOfYear(today.year));
    WorkingDays(PeriodDays(join, today), HolidayDays(leaves, from, to))
  }

  /** The yearly hours, before the split: working days times hours per day. */
  /** `days` working days of `perDay` hours each. */
  function Hours(days: int, perDay: real): real {
    (days as real) * perDay
  }

  lemma HoursMonotone(a: int, b: int, perDay: real)
    requires a <= b && perDay >= 0.0
    ensures Hours(a, perDay) <= Hours(b, perDay)
  {
    ScaleMonotone(a as real, b as real, perDay);
  }

  /** The yearly hours, before the split: working days times hours per day. */
  function YearHours(join: ValidDate, today: ValidDate, leaves: seq<Holiday>, perDay: real): real {
    Hours(YearDays(join, today, leaves), perDay)
  }

  /** Joining in an earlier year, with no holiday touching the year, counts
      every day of the year. */
  lemma FullYearDays(join: ValidDate, today: ValidDate, leaves: seq<Holiday>)
    requires join.year != today.year
    requires NoneOverlap(leaves, Ordinal(FirstOfYear(today.year)), Ordinal(LastOfYear(today.year)))
    ensures YearDays(join, today, leaves) == DaysInYear(today.year)
  {
    HolidayDaysOutside(leaves, Ordinal(FirstOfYear(today.year)), Ordinal(LastOfYear(today.year)));
    assert PeriodStart(join, today) == FirstOfYear(today.year);
  }

  /** Holidays never add days: with holidays that do not run backwards, the
      working days lie between 0 and the period's days, so never above a
      whole year. */
  lemma YearDaysAtMostPeriod(join: ValidDate, today: ValidDate, leaves: seq<Holiday>)
    requires forall h :: h in leaves ==> h.dateFrom <= h.dateTo
    ensures 0 <= YearDays(join, today, leaves) <= PeriodDays(join, today)
    ensures YearDays(join, today, leaves) <= DaysInYear(today.year)
  {
    var from := Ordinal(PeriodStart(join, today));
    var to := Ordinal(LastOfYear(today.year));
    WithinYear(PeriodStart(join, today));
    HolidayDaysBounds(leaves, from, to);
  }

  /** `compute_total_working_hours` for one employee: no join date gives a
      total of 0 and leaves the split as it was; otherwise a missing calendar
      raises, and the yearly hours are stored and split 80/20. */
  function ComputeTotalWorkingHours(e: Employee, today: ValidDate): (r: Result<Employee>)
    ensures e.joinDate.None? ==> r == Ok(e.(totalWorkingHours := 0.0))
    ensures e.joinDate.Some? ==> (r.Err? <==> e.calendar.None?)
    ensures r.Ok? ==> r.value.joinDate == e.joinDate && r.value.calendar == e.calendar
    ensures r.Ok? && e.joinDate.Some? ==>
      && r.value.totalWorkingHours == YearHours(e.joinDate.value, today, e.calendar.value.leaves, WorkHoursPerDay(e.calendar.value))
      && r.value.billableHours == 0.8 * r.value.totalWorkingHours
      && r.value.nonBillableHours == 0.2 * r.value.totalWorkingHours
      && r.value.billableHours + r.value.nonBillableHours == r.value.totalWorkingHours
  {
    if e.joinDate.None? then Ok(e.(totalWorkingHours := 0.0))
    else if e.calendar.None? then Err("Employee does not have a calendar assigned")
    else
      var total := YearHours(e.joinDate.value, today, e.calendar.value.leaves, WorkHoursPerDay(e.calendar.value));
      Ok(e.(totalWorkingHours := total, billableHours := total * 0.8, nonBillableHours := total * 0.2))
  }

  /** Joining in an earlier year, with no holiday in the year, gives a whole
      year of hours. */
  lemma YearHoursFullYear(join: ValidDate, today: ValidDate, leaves: seq<Holiday>, perDay: real)
    requires join.year != today.year
    requires NoneOverlap(leaves, Ordinal(FirstOfYear(today.year)), Ordinal(LastOfYear(today.year)))
    ensures YearHours(join, today, leaves, perDay) == Hours(DaysInYear(today.year), perDay)
  {
    FullYearDays(join, today, leaves);
  }

  /** The yearly hours never exceed a whole year of days. */
  lemma YearHoursAtMostFullYear(join: ValidDate, today: ValidDate, leaves: seq<Holiday>, perDay: real)
    requires forall h :: h in leaves ==> h.dateFrom <= h.dateTo
    requires perDay >= 0.0
    ensures YearHours(join, today, leaves, perDay) <= Hours(DaysInYear(today.year), perDay)
  {
    YearDaysAtMostPeriod(join, today, leaves);
    HoursMonotone(YearDays(join, today, leaves), DaysInYear(today.year), perDay);
  }

  /** An employee who joined before this year, on a calendar without holidays
      in the year, is counted for all 365 or 366 days. */
  lemma FullYearHours(e: Employee, today: ValidDate)
    requires e.joinDate.Some? && e.joinDate.value.year != today.year && e.calendar.Some?
    requires NoneOverlap(e.calendar.value.leaves, Ordinal(FirstOfYear(today.year)), Ordinal(LastOfYear(today.year)))
    ensures ComputeTotalWorkingHours(e, today).Ok?
    ensures ComputeTotalWorkingHours(e, today).value.totalWorkingHours ==
      Hours(DaysInYear(today.year), WorkHoursPerDay(e.calendar.value))
  {
    YearHoursFullYear(e.joinDate.value, today, e.calendar.value.leaves, WorkHoursPerDay(e.calendar.value));
  }

  /** However the join date and the holidays fall, the total never exceeds a
      whole year of working days. */
  lemma TotalAtMostFullYear(e: Employee, today: ValidDate)
    requires e.joinDate.Some? && e.calendar.Some?
    requires forall h :: h in e.calendar.value.leaves ==> h.dateFrom <= h.dateTo
    requires WorkHoursPerDay(e.calendar.value) >= 0.0
    ensures ComputeTotalWorkingHours(e, today).Ok?
    ensures ComputeTotalWorkingHours(e, today).value.totalWorkingHours <=
      Hours(DaysInYear(today.year), WorkHoursPerDay(e.calendar.value))
  {
    YearHoursAtMostFullYear(e.joinDate.value, today, e.calendar.value.leaves, WorkHoursPerDay(e.calendar.value));
  }

  /** `_onchange_billable_hrs`: with a non-zero total, the non-billable hours
      become the rest of the total; a negative rest is clamped to 0 and the
      billable hours to the total. */
  function OnchangeBillable(e: Employee): (e': Employee)
    ensures e'.joinDate == e.joinDate && e'.calendar == e.calendar && e'.totalWorkingHours == e.totalWorkingHours
    ensures e.totalWorkingHours == 0.0 ==> e' == e
    ensures e.totalWorkingHours != 0.0 ==>
      && e'.billableHours + e'.nonBillableHours == e.totalWorkingHours
      && e'.nonBillableHours >= 0.0
      && (e.billableHours <= e.totalWorkingHours ==> e'.billableHours == e.billableHours)
      && (e.billableHours > e.totalWorkingHours ==> e'.billableHours == e.totalWorkingHours && e'.nonBillableHours == 0.0)
  {
    if e.totalWorkingHours == 0.0 then e
    else
      var rest := e.totalWorkingHours - e.billableHours;
      if rest < 0.0 then e.(nonBillableHours := 0.0, billableHours := e.totalWorkingHours)
      else e.(nonBillableHours := rest)
  }

  /** `_onchange_non_billable_hrs`, the mirror image. */
  function OnchangeNonBillable(e: Employee): (e': Employee)
    ensures e'.joinDate == e.joinDate && e'.calendar == e.calendar && e'.totalWorkingHours == e.totalWorkingHours
    ensures e.totalWorkingHours == 0.0 ==> e' == e
    ensures e.totalWorkingHours != 0.0 ==>
      && e'.billableHours + e'.nonBillableHours == e.totalWorkingHours
      && e'.billableHours >= 0.0
      && (e.nonBillableHours <= e.totalWorkingHours ==> e'.nonBillableHours == e.nonBillableHours)
      && (e.nonBillableHours > e.totalWorkingHours ==> e'.nonBillableHours == e.totalWorkingHours && e'.billableHours == 0.0)
  {
    if e.totalWorkingHours == 0.0 then e
    else
      var rest := e.totalWorkingHours - e.nonBillableHours;
      if rest < 0.0 then e.(billableHours := 0.0, nonBillableHours := e.totalWorkingHours)
      else e.(billableHours := rest)
  }

  /** Firing an onchange a second time changes nothing. */
  lemma OnchangesIdempotent(e: Employee)
    ensures OnchangeBillable(OnchangeBillable(e)) == OnchangeBillable(e)
    ensures OnchangeNonBillable(OnchangeNonBillable(e)) == OnchangeNonBillable(e)
  {
  }

  /** With a positive total and no negative entry, the split one onchange
      leaves is kept by the other. */
  lemma OnchangesAgree(e: Employee)
    requires e.totalWorkingHours > 0.0
    ensures e.billableHours >= 0.0 ==> OnchangeNonBillable(OnchangeBillable(e)) == OnchangeBillable(e)
    ensures e.nonBillableHours >= 0.0 ==> OnchangeBillable(OnchangeNonBillable(e)) == OnchangeNonBillable(e)
  {
  }

  /** The 80/20 split the compute stores is left alone by both onchanges. */
  lemma ComputedSplitIsStable(e: Employee, today: ValidDate)
    requires ComputeTotalWorkingHours(e, today).Ok?
    ensures var e' := ComputeTotalWorkingHours(e, today).value;
      e.joinDate.Some? && e'.totalWorkingHours >= 0.0 ==> OnchangeBillable(e') == e' && OnchangeNonBillable(e') == e'
  {
  }
}
