/** Calendar dates as Joda's `LocalDate` holds them: year, month and day in
    the proleptic Gregorian calendar of ISO 8601 (which has a year 0), with
    a day ordinal that turns `Days.daysBetween` into a subtraction. */
module Calendar {
  import opened Results
  import opened JavaText

  /** The year range of Joda's GregorianChronology. */
  const MinYear: int := -292275054
  const MaxYear: int := 292278993

  datatype Date = Date(year: int, month: int, day: int)

  predicate IsLeapYear(y: int) {
    y % 4 == 0 && (y % 100 != 0 || y % 400 == 0)
  }

  function DaysInMonth(y: int, m: int): (n: int)
    requires 1 <= m <= 12
    ensures 28 <= n <= 31
    ensures m == 2 ==> (n == 29 <==> IsLeapYear(y))
  {
    if m == 2 then (if IsLeapYear(y) then 29 else 28)
    else if m == 4 || m == 6 || m == 9 || m == 11 then 30
    else 31
  }

  function YearLength(y: int): int {
    if IsLeapYear(y) then 366 else 365
  }

  /** What `new LocalDate(year, month, day)` accepts; anything else throws
      IllegalFieldValueException. */
  predicate ValidDate(d: Date) {
    && MinYear <= d.year <= MaxYear
    && 1 <= d.month <= 12
    && 1 <= d.day <= DaysInMonth(d.year, d.month)
  }

  type LocalDate = d: Date | ValidDate(d) witness Date(1970, 1, 1)

  /** Days in the years before year `y`, counted from 0001-01-01. */
  function DaysBeforeYear(y: int): int {
    var q := y - 1;
    365 * q + q / 4 - q / 100 + q / 400
  }

  /** Days in the months of year `y` before month `m`. */
  function DaysBeforeMonth(y: int, m: int): (n: int)
    requires 1 <= m <= 12
    ensures 0 <= n <= 335
  {
    var leap := if m > 2 && IsLeapYear(y) then 1 else 0;
    leap + (
      if m == 1 then 0 else if m == 2 then 31 else if m == 3 then 59
      else if m == 4 then 90 else if m == 5 then 120 else if m == 6 then 151
      else if m == 7 then 181 else if m == 8 then 212 else if m == 9 then 243
      else if m == 10 then 273 else if m == 11 then 304 else 334)
  }

  /** The day number of a date; 0001-01-01 is day 1. */
  function DayOrdinal(d: Date): int
    requires 1 <= d.month <= 12
  {
    DaysBeforeYear(d.year) + DaysBeforeMonth(d.year, d.month) + d.day
  }

  /** Calendar order (year, then month, then day). */
  predicate Before(a: Date, b: Date) {
    || a.year < b.year
    || (a.year == b.year && a.month < b.month)
    || (a.year == b.year && a.month == b.month && a.day < b.day)
  }

  /** Joda's `Days.daysBetween(start, end).getDays()`: the number of days from
      `start` to `end`, negative when `end` comes first. The difference is
      narrowed to an int and throws ArithmeticException when it does not fit. */
  function DaysBetween(start: LocalDate, end: LocalDate): (r: Result<int32>)
    ensures r.Success? ==> r.value == DayOrdinal(end) - DayOrdinal(start)
    ensures r.Failure? ==> r.error == Arithmetic
    ensures r == Success(0) <==> start == end
    ensures r.Success? ==> (r.value > 0 <==> Before(start, end))
    ensures r.Success? ==> (r.value < 0 <==> Before(end, start))
  {
    OrdinalOrder(start, end);
    OrdinalOrder(end, start);
    var gap := DayOrdinal(end) - DayOrdinal(start);
    if MinInt <= gap <= MaxInt then Success(gap) else Failure(Arithmetic)
  }

  /** The calendar day after `d`. */
  function NextDay(d: Date): (r: Date)
    requires 1 <= d.month <= 12
  {
    if d.day < DaysInMonth(d.year, d.month) then Date(d.year, d.month, d.day + 1)
    else if d.month < 12 then Date(d.year, d.month + 1, 1)
    else Date(d.year + 1, 1, 1)
  }

  /** The last date Joda can represent. */
  const LastDate: Date := Date(MaxYear, 12, 31)

  /** `d` plus `n` days, as the tests' `withFieldAdded(days(), n)` does. */
  function AddDays(d: LocalDate, n: nat): (r: LocalDate)
    requires DayOrdinal(d) + n <= DayOrdinal(LastDate)
    ensures DayOrdinal(r) == DayOrdinal(d) + n
    decreases n
  {
    if n == 0 then d
    else
      var e := AddDays(d, n - 1);
      assert e != LastDate;
      NextDayStep(e);
      NextDay(e)
  }

  // ----- lemmas ---------------------------------------------------------------

  /** y/k - (y-1)/k is 1 exactly when k divides y, for the three divisors
      of the Gregorian leap rule. */
  lemma DivStep(y: int)
    ensures y / 4 - (y - 1) / 4 == if y % 4 == 0 then 1 else 0
    ensures y / 100 - (y - 1) / 100 == if y % 100 == 0 then 1 else 0
    ensures y / 400 - (y - 1) / 400 == if y % 400 == 0 then 1 else 0
  {
  }

  lemma {:induction false} CenturyDivides(y: int)
    ensures y % 400 == 0 ==> y % 100 == 0
    ensures y % 100 == 0 ==> y % 4 == 0
  {
    if y % 400 == 0 {
      var q := y / 400;
      assert y == 100 * (4 * q);
    }
    if y % 100 == 0 {
      var q := y / 100;
      assert y == 4 * (25 * q);
    }
  }

  /** A year has YearLength(y) days. */
  lemma {:induction false} DaysBeforeYearStep(y: int)
    ensures DaysBeforeYear(y + 1) == DaysBeforeYear(y) + YearLength(y)
  {
    DivStep(y);
    CenturyDivides(y);
  }

  lemma {:induction false} DaysBeforeYearMonotone(y1: int, y2: int)
    requires y1 < y2
    ensures DaysBeforeYear(y1) + YearLength(y1) <= DaysBeforeYear(y2)
    decreases y2 - y1
  {
    DaysBeforeYearStep(y1);
    if y1 + 1 < y2 {
      DaysBeforeYearMonotone(y1 + 1, y2);
    }
  }

  lemma DaysBeforeMonthStep(y: int, m: int)
    requires 1 <= m <= 12
    ensures m < 12 ==> DaysBeforeMonth(y, m + 1) == DaysBeforeMonth(y, m) + DaysInMonth(y, m)
    ensures m == 12 ==> DaysBeforeMonth(y, m) + DaysInMonth(y, m) == YearLength(y)
  {
  }

  lemma {:induction false} DaysBeforeMonthMonotone(y: int, m1: int, m2: int)
    requires 1 <= m1 < m2 <= 12
    ensures DaysBeforeMonth(y, m1) + DaysInMonth(y, m1) <= DaysBeforeMonth(y, m2)
    decreases m2 - m1
  {
    DaysBeforeMonthStep(y, m1);
    if m1 + 1 < m2 {
      DaysBeforeMonthMonotone(y, m1 + 1, m2);
    }
  }

  /** The day ordinal is strictly increasing in calendar order. */
  lemma {:induction false} OrdinalIncreasing(a: LocalDate, b: LocalDate)
    requires Before(a, b)
    ensures DayOrdinal(a) < DayOrdinal(b)
  {
    if a.year < b.year {
      DaysBeforeMonthStep(a.year, 12);
      if a.month < 12 { DaysBeforeMonthMonotone(a.year, a.month, 12); }
      DaysBeforeYearMonotone(a.year, b.year);
    } else if a.month < b.month {
      DaysBeforeMonthMonotone(a.year, a.month, b.month);
    }
  }

  /** The ordinal orders dates exactly as the calendar does; in particular
      two dates share an ordinal only when they are the same date. */
  lemma OrdinalOrder(a: LocalDate, b: LocalDate)
    ensures DayOrdinal(a) < DayOrdinal(b) <==> Before(a, b)
    ensures DayOrdinal(a) == DayOrdinal(b) <==> a == b
  {
    if Before(a, b) { OrdinalIncreasing(a, b); }
    if Before(b, a) { OrdinalIncreasing(b, a); }
  }

  /** The next day is one ordinal further and, except after the last date
      Joda represents, again a valid date. */
  lemma NextDayStep(d: LocalDate)
    requires d != LastDate
    ensures ValidDate(NextDay(d))
    ensures DayOrdinal(NextDay(d)) == DayOrdinal(d) + 1
  {
    DaysBeforeMonthStep(d.year, d.month);
    if d.day == DaysInMonth(d.year, d.month) && d.month == 12 {
      DaysBeforeYearStep(d.year);
    }
  }

  /** `n` days after `d` lies `n` days away from `d`, as Joda counts them. */
  lemma DaysBetweenAddDays(d: LocalDate, n: nat)
    requires DayOrdinal(d) + n <= DayOrdinal(LastDate)
    requires n <= MaxInt
    ensures DaysBetween(d, AddDays(d, n)) == Success(n)
    ensures DaysBetween(AddDays(d, n), d) == Success(-(n as int))
  {
  }
}
