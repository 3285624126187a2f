/**
 * Gregorian calendar arithmetic, and the normalisation that the JavaScript
 * `Date` constructor and `setDate` perform on out-of-range day numbers.
 * Months are numbered 1..12 here; JavaScript's 0-based month index is
 * `month - 1`.
 */
module Calendar {

  datatype Date = Date(year: int, month: int, day: int)

  predicate IsLeapYear(y: int) {
    (y % 4 == 0 && y % 100 != 0) || y % 400 == 0
  }

  /** Number of days of month `m` of year `y`. */
  function DaysInMonth(y: int, m: int): (n: int)
    requires 1 <= m <= 12
    ensures 28 <= n <= 31
    ensures n == 28 <==> m == 2 && !IsLeapYear(y)
    ensures n == 29 <==> m == 2 && IsLeapYear(y)
    ensures n == 30 <==> m in {4, 6, 9, 11}
  {
    if m == 2 then (if IsLeapYear(y) then 29 else 28)
    else if m == 4 || m == 6 || m == 9 || m == 11 then 30
    else 31
  }

  ghost predicate ValidDate(d: Date) {
    1 <= d.month <= 12 && 1 <= d.day <= DaysInMonth(d.year, d.month)
  }

  /** Months counted from year 0, so that month arithmetic is integer arithmetic. */
  function MonthIndex(y: int, m: int): int {
    y * 12 + (m - 1)
  }

  /** The (year, month) that lies `k` months after (y, m); `k` may be negative. */
  function ShiftMonth(y: int, m: int, k: int): (r: (int, int))
    ensures 1 <= r.1 <= 12
    ensures MonthIndex(r.0, r.1) == MonthIndex(y, m) + k
  {
    var i := MonthIndex(y, m) + k;
    (i / 12, i % 12 + 1)
  }

  /** The two components of a month are determined by its index. */
  lemma MonthIndexInjective(y1: int, m1: int, y2: int, m2: int)
    requires 1 <= m1 <= 12 && 1 <= m2 <= 12
    requires MonthIndex(y1, m1) == MonthIndex(y2, m2)
    ensures y1 == y2 && m1 == m2
  {
  }

  function NextMonth(y: int, m: int): (r: (int, int))
    requires 1 <= m <= 12
    ensures 1 <= r.1 <= 12 && MonthIndex(r.0, r.1) == MonthIndex(y, m) + 1
  {
    if m == 12 then (y + 1, 1) else (y, m + 1)
  }

  function PrevMonth(y: int, m: int): (r: (int, int))
    requires 1 <= m <= 12
    ensures 1 <= r.1 <= 12 && MonthIndex(r.0, r.1) == MonthIndex(y, m) - 1
  {
    if m == 1 then (y - 1, 12) else (y, m - 1)
  }

  // ---------------------------------------------------------------------
  // A linear day count, against which the normalisation is stated
  // ---------------------------------------------------------------------

  /** Days from 1 January of year 0 to 1 January of year `y` (negative before year 0). */
  function YearStart(y: int): int {
    365 * y + (y + 3) / 4 - (y + 99) / 100 + (y + 399) / 400
  }

  /** Days of year `y` before the first of month `m`. */
  function MonthStart(y: int, m: int): (n: int)
    requires 1 <= m <= 12
    ensures 0 <= n
  {
    if m == 1 then 0 else MonthStart(y, m - 1) + DaysInMonth(y, m - 1)
  }

  /** The position of a day on a single line of days; consecutive days have consecutive numbers. */
  function DayNumber(date: Date): int
    requires 1 <= date.month <= 12
  {
    YearStart(date.year) + MonthStart(date.year, date.month) + date.day - 1
  }

  /** `ceil(y / k)` grows by one exactly at the multiples of `k`, for the three divisors of the leap-year rule. */
  lemma CeilStep(y: int, k: int)
    requires k == 4 || k == 100 || k == 400
    ensures (y + k) / k - (y + k - 1) / k == (if y % k == 0 then 1 else 0)
  {
    if k == 4 {
      assert (y + 4) / 4 == y / 4 + 1;
    } else if k == 100 {
      assert (y + 100) / 100 == y / 100 + 1;
    } else {
      assert (y + 400) / 400 == y / 400 + 1;
    }
  }

  /** A multiple of 100 is a multiple of 4. */
  lemma Hundreds(y: int)
    requires y % 100 == 0
    ensures y % 4 == 0
  {
    assert y == 4 * (25 * (y / 100));
  }

  /** A multiple of 400 is a multiple of 100. */
  lemma FourHundreds(y: int)
    requires y % 400 == 0
    ensures y % 100 == 0
  {
    assert y == 100 * (4 * (y / 400));
  }

  /** A year has 366 days when it is a leap year and 365 otherwise. */
  lemma YearStep(y: int)
    ensures YearStart(y + 1) == YearStart(y) + (if IsLeapYear(y) then 366 else 365)
  {
    CeilStep(y, 4);
    CeilStep(y, 100);
    CeilStep(y, 400);
    if y % 400 == 0 {
      FourHundreds(y);
      Hundreds(y);
    } else if y % 100 == 0 {
      Hundreds(y);
    }
  }

  /** The first of the next month comes exactly the length of the month after the first of this one. */
  lemma NextMonthStart(y: int, m: int)
    requires 1 <= m <= 12
    ensures DayNumber(Date(NextMonth(y, m).0, NextMonth(y, m).1, 1)) == DayNumber(Date(y, m, 1)) + DaysInMonth(y, m)
  {
    if m == 12 {
      YearStep(y);
      YearLength(y);
    }
  }

  /** The first eleven months take 334 days, one more in a leap year. */
  lemma YearLength(y: int)
    ensures MonthStart(y, 12) == (if IsLeapYear(y) then 335 else 334)
  {
    var f := if IsLeapYear(y) then 29 else 28;
    assert MonthStart(y, 2) == 31;
    assert MonthStart(y, 3) == 31 + f;
    assert MonthStart(y, 4) == 62 + f;
    assert MonthStart(y, 5) == 92 + f;
    assert MonthStart(y, 6) == 123 + f;
    assert MonthStart(y, 7) == 153 + f;
    assert MonthStart(y, 8) == 184 + f;
    assert MonthStart(y, 9) == 215 + f;
    assert MonthStart(y, 10) == 245 + f;
    assert MonthStart(y, 11) == 276 + f;
  }

  /**
   * Day `d` of month (y, m), where `d` may lie outside the month: days past
   * the end run on into the following months, and days below 1 count back
   * into the preceding ones, as JavaScript's `Date` does. AddDaysDayNumber
   * states which date results.
   */
  function AddDays(y: int, m: int, d: int): (r: Date)
    requires 1 <= m <= 12
    ensures ValidDate(r)
    decreases if d > 0 then 0 else 1, if d > 0 then d else -d
  {
    if d < 1 then
      var p := PrevMonth(y, m);
      AddDays(p.0, p.1, d + DaysInMonth(p.0, p.1))
    else if d <= DaysInMonth(y, m) then
      Date(y, m, d)
    else
      var n := NextMonth(y, m);
      AddDays(n.0, n.1, d - DaysInMonth(y, m))
  }

  /**
   * The normalised date is the valid date `d - 1` days after the first of
   * (y, m), for every `d`; by DayNumberInjective it is the only one.
   */
  lemma {:induction false} AddDaysDayNumber(y: int, m: int, d: int)
    requires 1 <= m <= 12
    ensures DayNumber(AddDays(y, m, d)) == DayNumber(Date(y, m, 1)) + d - 1
    decreases if d > 0 then 0 else 1, if d > 0 then d else -d
  {
    if d < 1 {
      var p := PrevMonth(y, m);
      assert NextMonth(p.0, p.1) == (y, m);
      NextMonthStart(p.0, p.1);
      AddDaysDayNumber(p.0, p.1, d + DaysInMonth(p.0, p.1));
    } else if d > DaysInMonth(y, m) {
      var n := NextMonth(y, m);
      NextMonthStart(y, m);
      AddDaysDayNumber(n.0, n.1, d - DaysInMonth(y, m));
    }
  }

  /** `new Date(y, m0, d)` in local time: `m0` is a 0-based month index of any size. */
  function JsDate(y: int, m0: int, d: int): (r: Date)
    ensures ValidDate(r)
  {
    AddDays(y + m0 / 12, m0 % 12 + 1, d)
  }

  /** `date.setDate(n)`: keeps year and month of `date` and normalises day `n` from there. */
  function SetDate(date: Date, n: int): (r: Date)
    requires 1 <= date.month <= 12
    ensures ValidDate(r)
  {
    AddDays(date.year, date.month, n)
  }

  /** Calendar order on dates, as SQL compares DATE columns. */
  predicate DateLeq(a: Date, b: Date) {
    a.year < b.year
    || (a.year == b.year && a.month < b.month)
    || (a.year == b.year && a.month == b.month && a.day <= b.day)
  }

  /** `new Date(y, m0 + 1, 0).getDate()` is the length of month m0: day 0 is the last day of the month before. */
  lemma {:induction false} DayZeroOfNextMonth(y: int, m: int)
    requires 1 <= m <= 12
    ensures JsDate(y, m, 0) == Date(y, m, DaysInMonth(y, m))
  {
    var n := (y + m / 12, m % 12 + 1);
    assert n == NextMonth(y, m);
    assert PrevMonth(n.0, n.1) == (y, m);
  }

  /** An in-range day is left alone by the normalisation. */
  lemma InRangeDayUnchanged(y: int, m0: int, d: int)
    requires 0 <= m0 < 12 && 1 <= d <= DaysInMonth(y, m0 + 1)
    ensures JsDate(y, m0, d) == Date(y, m0 + 1, d)
  {
  }

  /** A day just past the end of a month that is shorter than the next lands in the next month. */
  lemma {:induction false} OverflowLandsInNextMonth(y: int, m: int, d: int)
    requires 1 <= m <= 12
    requires DaysInMonth(y, m) < d <= DaysInMonth(y, m) + DaysInMonth(NextMonth(y, m).0, NextMonth(y, m).1)
    ensures AddDays(y, m, d) == Date(NextMonth(y, m).0, NextMonth(y, m).1, d - DaysInMonth(y, m))
  {
  }

  /** DateLeq is a total preorder on dates (total and transitive); on valid dates it is antisymmetric. */
  lemma DateLeqTotal(a: Date, b: Date)
    ensures DateLeq(a, b) || DateLeq(b, a)
  {
  }

  lemma DateLeqTransitive(a: Date, b: Date, c: Date)
    requires DateLeq(a, b) && DateLeq(b, c)
    ensures DateLeq(a, c)
  {
  }

  /** Within a year, a later month starts after every day of an earlier one. */
  lemma {:induction false} MonthStartsApart(y: int, m1: int, m2: int)
    requires 1 <= m1 < m2 <= 12
    ensures MonthStart(y, m1) + DaysInMonth(y, m1) <= MonthStart(y, m2)
  {
    if m1 < m2 - 1 {
      MonthStartsApart(y, m1, m2 - 1);
    }
  }

  /** Every day of a year comes before the first day of any later year. */
  lemma {:induction false} YearsApart(y1: int, y2: int)
    requires y1 < y2
    ensures YearStart(y1 + 1) <= YearStart(y2)
    decreases y2 - y1
  {
    if y1 + 1 < y2 {
      YearsApart(y1 + 1, y2);
      YearStep(y1 + 1);
    }
  }

  /** A valid date's number lies inside its year. */
  lemma DayNumberInYear(a: Date)
    requires ValidDate(a)
    ensures YearStart(a.year) <= DayNumber(a) < YearStart(a.year + 1)
  {
    YearStep(a.year);
    YearLength(a.year);
    if a.month < 12 {
      MonthStartsApart(a.year, a.month, 12);
      assert MonthStart(a.year, a.month) + a.day <= MonthStart(a.year, 12);
    }
  }

  /** Different valid dates have different numbers, so a day number names one date. */
  lemma DayNumberInjective(a: Date, b: Date)
    requires ValidDate(a) && ValidDate(b)
    requires DayNumber(a) == DayNumber(b)
    ensures a == b
  {
    DayNumberInYear(a);
    DayNumberInYear(b);
    if a.year < b.year {
      YearsApart(a.year, b.year);
    } else if b.year < a.year {
      YearsApart(b.year, a.year);
    } else if a.month < b.month {
      MonthStartsApart(a.year, a.month, b.month);
    } else if b.month < a.month {
      MonthStartsApart(a.year, b.month, a.month);
    }
  }
}
