/**
 The Gregorian calendar, as far as the working-hours table needs it: which
 (month, day) a day number falls on.  Day 0 is 1 January 1970.  `DateOf` walks
 one day at a time from the epoch, forwards or backwards; `DayNumber` is the
 closed formula with the leap years of the four-hundred-year cycle, and the two
 are proved to be inverse to each other.
 */
module Calendar {

  datatype Date = Date(year: int, month: int, day: int)

  const EPOCH := Date(1970, 1, 1)

  predicate IsLeap(year: int) {
    year % 4 == 0 && (year % 100 != 0 || year % 400 == 0)
  }

  function DaysInMonth(year: int, month: int): int {
    if month == 2 then
      if IsLeap(year) then 29 else 28
    else if month == 4 || month == 6 || month == 9 || month == 11 then
      30
    else
      31
  }

  predicate IsDate(d: Date) {
    1 <= d.month <= 12 && 1 <= d.day <= DaysInMonth(d.year, d.month)
  }

  function NextDate(d: Date): (next: Date)
    requires IsDate(d)
    ensures IsDate(next)
  {
    if d.day < DaysInMonth(d.year, d.month) then d.(day := d.day + 1)
    else if d.month < 12 then Date(d.year, d.month + 1, 1)
    else Date(d.year + 1, 1, 1)
  }

  function PreviousDate(d: Date): (previous: Date)
    requires IsDate(d)
    ensures IsDate(previous) && NextDate(previous) == d
  {
    if 1 < d.day then d.(day := d.day - 1)
    else if 1 < d.month then Date(d.year, d.month - 1, DaysInMonth(d.year, d.month - 1))
    else Date(d.year - 1, 12, 31)
  }

  function DateOf(n: int): (d: Date)
    ensures IsDate(d)
    decreases if n < 0 then -n else n
  {
    if n == 0 then EPOCH
    else if 0 < n then NextDate(DateOf(n - 1))
    else PreviousDate(DateOf(n + 1))
  }

  lemma {:induction false} DateOfSuccessor(n: int)
    ensures DateOf(n + 1) == NextDate(DateOf(n))
  {
    if n < 0 {
      assert DateOf(n) == PreviousDate(DateOf(n + 1));
    }
  }

  // ---- The closed formula ----

  /** Days before 1 January of `year`, counted from 1 January of year 1. */
  function DaysBeforeYear(year: int): int {
    365 * (year - 1) + (year - 1) / 4 - (year - 1) / 100 + (year - 1) / 400
  }

  function DaysBeforeMonth(year: int, month: int): int
    requires 1 <= month <= 12
  {
    if month == 1 then 0 else DaysBeforeMonth(year, month - 1) + DaysInMonth(year, month - 1)
  }

  function DayNumber(d: Date): int
    requires IsDate(d)
  {
    DaysBeforeYear(d.year) + DaysBeforeMonth(d.year, d.month) + d.day - 719163
  }

  lemma {:induction false} QuotientStep4(x: int)
    ensures x / 4 == (x - 1) / 4 + if x % 4 == 0 then 1 else 0
  {
  }

  lemma {:induction false} QuotientStep100(x: int)
    ensures x / 100 == (x - 1) / 100 + if x % 100 == 0 then 1 else 0
  {
  }

  lemma {:induction false} QuotientStep400(x: int)
    ensures x / 400 == (x - 1) / 400 + if x % 400 == 0 then 1 else 0
  {
  }

  lemma {:induction false} FourTimes(q: int)
    ensures (4 * q) % 4 == 0
  {
  }

  lemma {:induction false} HundredTimes(q: int)
    ensures (100 * q) % 100 == 0
  {
  }

  lemma {:induction false} CenturiesAreFourYears(x: int)
    ensures x % 100 == 0 ==> x % 4 == 0
    ensures x % 400 == 0 ==> x % 100 == 0
  {
    if x % 100 == 0 {
      var q := x / 100;
      assert x == 100 * q == 4 * (25 * q);
      FourTimes(25 * q);
    }
    if x % 400 == 0 {
      var q := x / 400;
      assert x == 400 * q == 100 * (4 * q);
      HundredTimes(4 * q);
    }
  }

  lemma {:induction false} YearLength(year: int)
    ensures DaysBeforeYear(year + 1) == DaysBeforeYear(year) + if IsLeap(year) then 366 else 365
  {
    QuotientStep4(year);
    QuotientStep100(year);
    QuotientStep400(year);
    CenturiesAreFourYears(year);
  }

  lemma {:induction false} DaysBeforeDecember(year: int)
    ensures DaysBeforeMonth(year, 12) == if IsLeap(year) then 335 else 334
  {
    assert DaysBeforeMonth(year, 2) == 31;
    assert DaysBeforeMonth(year, 3) == if IsLeap(year) then 60 else 59;
    assert DaysBeforeMonth(year, 5) == if IsLeap(year) then 121 else 120;
    assert DaysBeforeMonth(year, 7) == if IsLeap(year) then 182 else 181;
    assert DaysBeforeMonth(year, 9) == if IsLeap(year) then 244 else 243;
    assert DaysBeforeMonth(year, 11) == if IsLeap(year) then 305 else 304;
  }

  lemma {:induction false} DayNumberOfNext(d: Date)
    requires IsDate(d)
    ensures DayNumber(NextDate(d)) == DayNumber(d) + 1
  {
    if d.day == DaysInMonth(d.year, d.month) && d.month == 12 {
      YearLength(d.year);
      DaysBeforeDecember(d.year);
    }
  }

  lemma {:induction false} DayNumberOfDateOf(n: int)
    ensures DayNumber(DateOf(n)) == n
    decreases if n < 0 then -n else n
  {
    if 0 < n {
      DayNumberOfDateOf(n - 1);
      DayNumberOfNext(DateOf(n - 1));
    } else if n < 0 {
      DayNumberOfDateOf(n + 1);
      DayNumberOfNext(DateOf(n));
    } else {
      assert DaysBeforeYear(1970) == 719162;
    }
  }

  /** Months never overlap: a later month starts after an earlier one has ended. */
  lemma {:induction false} MonthsOrdered(year: int, m: int, k: int)
    requires 1 <= m < k <= 12
    ensures DaysBeforeMonth(year, m) + DaysInMonth(year, m) <= DaysBeforeMonth(year, k)
  {
    if m + 1 < k {
      MonthsOrdered(year, m, k - 1);
    }
  }

  lemma {:induction false} YearsOrdered(y: int, z: int)
    requires y < z
    ensures DaysBeforeYear(y) + (if IsLeap(y) then 366 else 365) <= DaysBeforeYear(z)
    decreases z - y
  {
    YearLength(y);
    if y + 1 < z {
      YearsOrdered(y + 1, z);
    }
  }

  lemma {:induction false} DayOfYearBounds(d: Date)
    requires IsDate(d)
    ensures 1 <= DaysBeforeMonth(d.year, d.month) + d.day <= if IsLeap(d.year) then 366 else 365
  {
    DaysBeforeDecember(d.year);
    if d.month < 12 {
      MonthsOrdered(d.year, d.month, 12);
    }
    if 1 < d.month {
      MonthsOrdered(d.year, 1, d.month);
    }
  }

  lemma {:induction false} DayNumberOrdered(d: Date, e: Date)
    requires IsDate(d) && IsDate(e)
    requires d.year < e.year || (d.year == e.year && d.month < e.month)
    ensures DayNumber(d) < DayNumber(e)
  {
    if d.year < e.year {
      YearsOrdered(d.year, e.year);
      DayOfYearBounds(d);
      DayOfYearBounds(e);
    } else {
      MonthsOrdered(d.year, d.month, e.month);
    }
  }

  lemma {:induction false} DayNumberInjective(d: Date, e: Date)
    requires IsDate(d) && IsDate(e) && DayNumber(d) == DayNumber(e)
    ensures d == e
  {
    if d.year < e.year || (d.year == e.year && d.month < e.month) {
      DayNumberOrdered(d, e);
    } else if e.year < d.year || (d.year == e.year && e.month < d.month) {
      DayNumberOrdered(e, d);
    }
  }

  /** The day-by-day walk and the closed formula are inverse to each other. */
  lemma {:induction false} DateOfDayNumber(d: Date)
    requires IsDate(d)
    ensures DateOf(DayNumber(d)) == d
  {
    DayNumberOfDateOf(DayNumber(d));
    DayNumberInjective(DateOf(DayNumber(d)), d);
  }

  /** The first days of the months of a year that is no leap year. */
  function FirstDays(): seq<int> {
    [0, 31, 59, 90, 120, 151, 181, 212, 243, 273, 304, 334]
  }

  lemma {:induction false} MonthsOf(year: int, month: int)
    requires 1 <= month <= 12
    ensures DaysBeforeMonth(year, month) == FirstDays()[month - 1] + if 2 < month && IsLeap(year) then 1 else 0
  {
    if 1 < month {
      MonthsOf(year, month - 1);
    }
  }

  /** Known distances from the epoch: the months of the holiday table's year, and leap years by century. */
  lemma {:induction false} KnownDays(month: int)
    requires 1 <= month <= 12
    ensures DayNumber(Date(2026, month, 1)) == 20454 + FirstDays()[month - 1]
    ensures DayNumber(Date(2000, 3, 1)) == 11017 && DayNumber(Date(2024, 3, 1)) == 19783
    ensures DayNumber(Date(2100, 3, 1)) == 47541 && DayNumber(Date(1900, 3, 1)) == -25508
  {
    MonthsOf(2026, month);
    MonthsOf(2000, 3);
    MonthsOf(2024, 3);
    MonthsOf(2100, 3);
    MonthsOf(1900, 3);
  }
}
