/** Calendar dates of the proleptic Gregorian calendar, in the shape the
    leave-accounting code gets them from java.time: a LocalDate is a
    (year, month, day) triple, dates are ordered lexicographically, days
    are added through the epoch-day number, and the day of the week is
    derived from that number. */
module Dates {

  datatype Option<+T> = None | Some(value: T)

  /** The Gregorian leap-year rule that the calendar itself obeys. */
  predicate IsLeapYear(y: int)
  {
    y % 4 == 0 && (y % 100 != 0 || y % 400 == 0)
  }

  function DaysInMonth(y: int, m: int): (n: int)
    requires 1 <= m <= 12
    ensures 28 <= n <= 31
    ensures n == 29 <==> m == 2 && IsLeapYear(y)
  {
    if m == 2 then (if IsLeapYear(y) then 29 else 28)
    else if m == 4 || m == 6 || m == 9 || m == 11 then 30
    else 31
  }

  datatype LocalDate = LocalDate(year: int, month: int, day: int)

  predicate IsValid(d: LocalDate)
  {
    1 <= d.month <= 12 && 1 <= d.day <= DaysInMonth(d.year, d.month)
  }

  /** A date that exists in the calendar. */
  type Date = d: LocalDate | IsValid(d) witness LocalDate(1970, 1, 1)

  /** Days from 0000-01-01 to January 1 of year y: 365 per year plus one
      per leap year. */
  function DaysBeforeYear(y: int): int
  {
    365 * y + (y + 3) / 4 - (y + 99) / 100 + (y + 399) / 400
  }

  function YearDays(y: int): (n: int)
    ensures n == 365 || n == 366
  {
    if IsLeapYear(y) then 366 else 365
  }

  /** Days of a common year before the first of month m. */
  function CommonDaysBeforeMonth(m: int): int
    requires 1 <= m <= 12
  {
    match m
    case 1 => 0
    case 2 => 31
    case 3 => 59
    case 4 => 90
    case 5 => 120
    case 6 => 151
    case 7 => 181
    case 8 => 212
    case 9 => 243
    case 10 => 273
    case 11 => 304
    case _ => 334
  }

  function DaysBeforeMonth(y: int, m: int): int
    requires 1 <= m <= 12
  {
    CommonDaysBeforeMonth(m) + (if m > 2 && IsLeapYear(y) then 1 else 0)
  }

  const DaysFromYearZeroToEpoch: int := 719528

  /** The epoch-day number: days since 1970-01-01 (java.time's toEpochDay). */
  function ToEpoch(d: Date): int
  {
    DaysBeforeYear(d.year) + DaysBeforeMonth(d.year, d.month) + d.day - 1 - DaysFromYearZeroToEpoch
  }

  /** ISO day of the week, 1 = Monday ... 7 = Sunday; 1970-01-01 was a Thursday. */
  function DayOfWeek(d: Date): (r: int)
    ensures 1 <= r <= 7
  {
    (ToEpoch(d) + 3) % 7 + 1
  }

  const MONDAY: int := 1
  const TUESDAY: int := 2
  const WEDNESDAY: int := 3
  const THURSDAY: int := 4
  const FRIDAY: int := 5
  const SATURDAY: int := 6
  const SUNDAY: int := 7

  /** a.isBefore(b): the lexicographic order on (year, month, day). */
  predicate Before(a: Date, b: Date)
    ensures Before(a, b) ==> a != b && a.year <= b.year
    ensures a.year < b.year ==> Before(a, b)
  {
    a.year < b.year
    || (a.year == b.year && (a.month < b.month || (a.month == b.month && a.day < b.day)))
  }

  /** a.isAfter(b). */
  predicate After(a: Date, b: Date)
    ensures After(a, b) ==> !Before(a, b) && a != b
  {
    Before(b, a)
  }

  /** The later of two dates. */
  function Latest(a: Date, b: Date): (r: Date)
    ensures r == a || r == b
    ensures !Before(r, a) && !Before(r, b)
  {
    if Before(a, b) then b else a
  }

  function FirstOfNextMonth(d: Date): Date
  {
    if d.month < 12 then LocalDate(d.year, d.month + 1, 1) else LocalDate(d.year + 1, 1, 1)
  }

  function LastOfPreviousMonth(d: Date): Date
  {
    if d.month > 1 then LocalDate(d.year, d.month - 1, DaysInMonth(d.year, d.month - 1))
    else LocalDate(d.year - 1, 12, 31)
  }

  /** Consecutive years start YearDays apart: each of the three counts in
      DaysBeforeYear steps up exactly at the years its divisor divides. */
  lemma YearLength(y: int)
    ensures DaysBeforeYear(y + 1) - DaysBeforeYear(y) == YearDays(y)
  {
    StepOfFour(y);
    StepOfHundred(y);
    StepOfFourHundred(y);
    DivisorChain(y);
    YearLengthArithmetic(y, (y + 3) / 4, (y + 4) / 4, (y + 99) / 100, (y + 100) / 100,
                         (y + 399) / 400, (y + 400) / 400, y % 4 == 0, y % 100 == 0, y % 400 == 0,
                         IsLeapYear(y), DaysBeforeYear(y), DaysBeforeYear(y + 1));
  }

  /** The year-length sum with the quotients taken as plain numbers. */
  lemma YearLengthArithmetic(y: int, q4: int, q4': int, q100: int, q100': int, q400: int, q400': int,
                             by4: bool, by100: bool, by400: bool, leap: bool, before: int, after: int)
    requires q4' - q4 == (if by4 then 1 else 0)
    requires q100' - q100 == (if by100 then 1 else 0)
    requires q400' - q400 == (if by400 then 1 else 0)
    requires by100 ==> by4
    requires by400 ==> by100
    requires leap == (by4 && (!by100 || by400))
    requires before == 365 * y + q4 - q100 + q400
    requires after == 365 * (y + 1) + q4' - q100' + q400'
    ensures after - before == if leap then 366 else 365
  {
  }

  lemma DivisorChain(y: int)
    ensures y % 100 == 0 ==> y % 4 == 0
    ensures y % 400 == 0 ==> y % 100 == 0
  {
  }

  lemma StepOfFour(y: int)
    ensures (y + 4) / 4 - (y + 3) / 4 == if y % 4 == 0 then 1 else 0
  {
  }

  lemma StepOfHundred(y: int)
    ensures (y + 100) / 100 - (y + 99) / 100 == if y % 100 == 0 then 1 else 0
  {
  }

  lemma StepOfFourHundred(y: int)
    ensures (y + 400) / 400 - (y + 399) / 400 == if y % 400 == 0 then 1 else 0
  {
  }

  lemma {:induction false} DaysBeforeYearMonotone(y1: int, y2: int)
    requires y1 <= y2
    ensures DaysBeforeYear(y1) <= DaysBeforeYear(y2)
    decreases y2 - y1
  {
    if y1 < y2 {
      YearLength(y1);
      DaysBeforeYearMonotone(y1 + 1, y2);
    }
  }

  lemma NextMonthEpoch(d: Date)
    ensures ToEpoch(FirstOfNextMonth(d)) == ToEpoch(d) + DaysInMonth(d.year, d.month) - d.day + 1
  {
    if d.month == 12 {
      YearLength(d.year);
    }
  }

  lemma PreviousMonthEpoch(d: Date)
    ensures ToEpoch(LastOfPreviousMonth(d)) == ToEpoch(d) - d.day
  {
    if d.month == 1 {
      YearLength(d.year - 1);
    }
  }

  /** d.plusDays(n) (d.minusDays(-n) for negative n): the date n days away. */
  function PlusDays(d: Date, n: int): (r: Date)
    ensures ToEpoch(r) == ToEpoch(d) + n
    decreases if n < 0 then -n else n
  {
    if n >= 0 then
      var rest := DaysInMonth(d.year, d.month) - d.day + 1;
      if n < rest then LocalDate(d.year, d.month, d.day + n)
      else NextMonthEpoch(d); PlusDays(FirstOfNextMonth(d), n - rest)
    else
      if d.day + n >= 1 then LocalDate(d.year, d.month, d.day + n)
      else PreviousMonthEpoch(d); PlusDays(LastOfPreviousMonth(d), n + d.day)
  }

  /** Every day of a year lies before the first day of the next one. */
  lemma DayOfYearBound(d: Date)
    ensures DaysBeforeMonth(d.year, d.month) + d.day <= DaysBeforeYear(d.year + 1) - DaysBeforeYear(d.year)
  {
    YearLength(d.year);
  }

  lemma MonthBound(y: int, m1: int, m2: int)
    requires 1 <= m1 < m2 <= 12
    ensures DaysBeforeMonth(y, m1) + DaysInMonth(y, m1) <= DaysBeforeMonth(y, m2)
  {
  }

  lemma EpochMonotone(a: Date, b: Date)
    requires Before(a, b)
    ensures ToEpoch(a) < ToEpoch(b)
  {
    if a.year < b.year {
      DayOfYearBound(a);
      DaysBeforeYearMonotone(a.year + 1, b.year);
    } else if a.month < b.month {
      MonthBound(a.year, a.month, b.month);
    }
  }

  /** The epoch-day number is an order isomorphism: the calendar order of
      two dates is the order of their day numbers, and distinct dates have
      distinct numbers. */
  lemma {:induction false} EpochOrder(a: Date, b: Date)
    ensures Before(a, b) <==> ToEpoch(a) < ToEpoch(b)
    ensures a == b <==> ToEpoch(a) == ToEpoch(b)
  {
    if Before(a, b) {
      EpochMonotone(a, b);
    } else if Before(b, a) {
      EpochMonotone(b, a);
    }
  }

  /** Adding n days moves the day of the week n steps forward. */
  lemma DayOfWeekPlusDays(d: Date, n: int)
    ensures DayOfWeek(PlusDays(d, n)) == (DayOfWeek(d) - 1 + n) % 7 + 1
  {
    WeekdayShift(ToEpoch(d) + 3, n, DayOfWeek(d), DayOfWeek(PlusDays(d, n)));
  }

  lemma WeekdayShift(a: int, n: int, w: int, w': int)
    requires w == a % 7 + 1 && w' == (a + n) % 7 + 1
    ensures w' == (w - 1 + n) % 7 + 1
  {
    var q := a / 7;
    assert a == 7 * q + a % 7;
    ModSevenShift(q, a % 7 + n);
  }

  lemma ModSevenShift(q: int, x: int)
    ensures (7 * q + x) % 7 == x % 7
  {
  }

  /** The position of a date within its year, January 1 being day 1. */
  function DayOfYear(d: Date): (n: int)
    ensures 1 <= n <= 366
  {
    DaysBeforeMonth(d.year, d.month) + d.day
  }

  /** Moving a date by n days without leaving a 365-day window of its year
      moves its day of the year by n and keeps its year. */
  lemma {:induction false} PlusDaysWithinYear(d: Date, n: int)
    requires 1 <= DayOfYear(d) + n <= 365
    ensures PlusDays(d, n).year == d.year
    ensures DayOfYear(PlusDays(d, n)) == DayOfYear(d) + n
    decreases if n < 0 then -n else n
  {
    if n >= 0 {
      var rest := DaysInMonth(d.year, d.month) - d.day + 1;
      if n >= rest {
        MonthBound(d.year, d.month, d.month + 1);
        PlusDaysWithinYear(FirstOfNextMonth(d), n - rest);
      }
    } else if d.day + n < 1 {
      MonthBound(d.year, d.month - 1, d.month);
      PlusDaysWithinYear(LastOfPreviousMonth(d), n + d.day);
    }
  }

  /** No date lies strictly between a day and the next one. */
  lemma NextDayIsSuccessor(d: Date, x: Date)
    ensures Before(d, x) <==> !Before(x, PlusDays(d, 1))
  {
    EpochOrder(d, x);
    EpochOrder(x, PlusDays(d, 1));
  }
}
