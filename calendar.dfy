/**
  Proleptic Gregorian calendar dates, as java.time.LocalDate represents them:
  a (year, month, day) triple, a day count relative to 1970-01-01 (the
  "epoch day"), the ISO day of the week, and stepping a date by whole days.
 */
module Calendar {

  /** A calendar date; only the triples satisfying ValidDate denote a day. */
  datatype Date = Date(year: int, month: int, day: int)

  /** Gregorian leap-year rule, applied to every year (proleptic). */
  predicate IsLeapYear(y: int)
  {
    y % 4 == 0 && (y % 100 != 0 || y % 400 == 0)
  }

  function DaysInMonth(y: int, m: int): (n: int)
    requires 1 <= m <= 12
    ensures 28 <= n <= 31
    ensures n == 29 <==> m == 2 && IsLeapYear(y)
  {
    if m == 2 then (if IsLeapYear(y) then 29 else 28)
    else if m == 4 || m == 6 || m == 9 || m == 11 then 30
    else 31
  }

  function DaysInYear(y: int): int
  {
    if IsLeapYear(y) then 366 else 365
  }

  predicate ValidDate(d: Date)
  {
    1 <= d.month <= 12 && 1 <= d.day <= DaysInMonth(d.year, d.month)
  }

  /**
    Number of days from 0001-01-01 to January 1 of year y. Dafny's division
    rounds down for a positive divisor, so this also counts (negatively)
    for years before 1.
   */
  function DaysBeforeYear(y: int): int
  {
    var p := y - 1;
    365 * p + p / 4 - p / 100 + p / 400
  }

  /** Number of days from January 1 to the first day of month m of year y. */
  function DaysBeforeMonth(y: int, m: int): int
    requires 1 <= m <= 12
  {
    var common := [0, 31, 59, 90, 120, 151, 181, 212, 243, 273, 304, 334];
    common[m - 1] + (if m > 2 && IsLeapYear(y) then 1 else 0)
  }

  /** Days from 0001-01-01 to 1970-01-01. */
  const EpochOffset := 719162

  /** The day count of d with 1970-01-01 as day 0 (LocalDate.toEpochDay). */
  function EpochDay(d: Date): int
    requires ValidDate(d)
  {
    DaysBeforeYear(d.year) + DaysBeforeMonth(d.year, d.month) + d.day - 1 - EpochOffset
  }

  /**
    ISO 8601 day of the week of an epoch day, 1 = Monday .. 7 = Sunday:
    floorMod(epochDay + 3, 7) + 1, since 1970-01-01 was a Thursday.
   */
  function WeekdayOf(epochDay: int): (w: int)
    ensures 1 <= w <= 7
  {
    (epochDay + 3) % 7 + 1
  }

  /** getDayOfWeek().getValue() of a date. */
  function DayOfWeek(d: Date): (w: int)
    requires ValidDate(d)
    ensures 1 <= w <= 7
  {
    WeekdayOf(EpochDay(d))
  }

  /** Strict calendar order: earlier year, or same year and earlier month, or same month and earlier day. */
  predicate Before(a: Date, b: Date)
  {
    a.year < b.year
    || (a.year == b.year && a.month < b.month)
    || (a.year == b.year && a.month == b.month && a.day < b.day)
  }

  predicate AtOrBefore(a: Date, b: Date)
  {
    a == b || Before(a, b)
  }

  // ---------------------------------------------------------------------
  // Day counting

  /** p / k steps up by one exactly when p is a multiple of k, for the divisors of the leap rule. */
  lemma FloorDivStep(p: int)
    ensures p / 4 - (p - 1) / 4 == (if p % 4 == 0 then 1 else 0)
    ensures p / 100 - (p - 1) / 100 == (if p % 100 == 0 then 1 else 0)
    ensures p / 400 - (p - 1) / 400 == (if p % 400 == 0 then 1 else 0)
  {
  }

  /** Consecutive New Year's days are a year's length apart. */
  lemma {:induction false} YearLength(y: int)
    ensures DaysBeforeYear(y + 1) == DaysBeforeYear(y) + DaysInYear(y)
  {
    FloorDivStep(y);
  }

  /** New Year's day never moves backwards as the year grows. */
  lemma {:induction false} DaysBeforeYearMonotone(x: int, y: int)
    requires x <= y
    ensures DaysBeforeYear(x) + 365 * (y - x) <= DaysBeforeYear(y)
    decreases y - x
  {
    if x < y {
      YearLength(x);
      DaysBeforeYearMonotone(x + 1, y);
    }
  }

  /** Month m ends where month m + 1 begins, and December ends the year. */
  lemma MonthLength(y: int, m: int)
    requires 1 <= m <= 12
    ensures m < 12 ==> DaysBeforeMonth(y, m + 1) == DaysBeforeMonth(y, m) + DaysInMonth(y, m)
    ensures m == 12 ==> DaysBeforeMonth(y, m) + DaysInMonth(y, m) == DaysInYear(y)
  {
  }

  /** Every day of month m precedes every day of a later month of the same year. */
  lemma {:induction false} MonthsAscend(y: int, m: int, n: int)
    requires 1 <= m < n <= 12
    ensures DaysBeforeMonth(y, m) + DaysInMonth(y, m) <= DaysBeforeMonth(y, n)
    decreases n - m
  {
    MonthLength(y, m);
    if m + 1 < n {
      MonthsAscend(y, m + 1, n);
      MonthLength(y, m + 1);
    }
  }

  /** A valid date lies within its own year. */
  lemma WithinYear(d: Date)
    requires ValidDate(d)
    ensures DaysBeforeYear(d.year) - EpochOffset <= EpochDay(d)
    ensures EpochDay(d) < DaysBeforeYear(d.year) + DaysInYear(d.year) - EpochOffset
  {
    if d.month < 12 {
      MonthsAscend(d.year, d.month, 12);
    }
    MonthLength(d.year, 12);
  }

  /** Calendar order and epoch-day order agree. */
  lemma {:induction false} BeforeMeansEarlier(a: Date, b: Date)
    requires ValidDate(a) && ValidDate(b)
    ensures Before(a, b) <==> EpochDay(a) < EpochDay(b)
  {
    if Before(a, b) {
      EarlierDay(a, b);
    } else if a != b {
      EarlierDay(b, a);
    }
  }

  lemma {:induction false} EarlierDay(a: Date, b: Date)
    requires ValidDate(a) && ValidDate(b) && Before(a, b)
    ensures EpochDay(a) < EpochDay(b)
  {
    if a.year < b.year {
      WithinYear(a);
      WithinYear(b);
      YearLength(a.year);
      DaysBeforeYearMonotone(a.year + 1, b.year);
    } else if a.month < b.month {
      MonthsAscend(a.year, a.month, b.month);
    }
  }

  /** Distinct valid dates have distinct epoch days. */
  lemma EpochDayInjective(a: Date, b: Date)
    requires ValidDate(a) && ValidDate(b)
    requires EpochDay(a) == EpochDay(b)
    ensures a == b
  {
    BeforeMeansEarlier(a, b);
    BeforeMeansEarlier(b, a);
  }

  // ---------------------------------------------------------------------
  // Stepping by days

  /** The following day, crossing month and year ends. */
  function NextDay(d: Date): (r: Date)
    requires ValidDate(d)
    ensures ValidDate(r)
  {
    if d.day < DaysInMonth(d.year, d.month) then Date(d.year, d.month, d.day + 1)
    else if d.month < 12 then Date(d.year, d.month + 1, 1)
    else Date(d.year + 1, 1, 1)
  }

  /** The preceding day, crossing month and year starts. */
  function PrevDay(d: Date): (r: Date)
    requires ValidDate(d)
    ensures ValidDate(r)
  {
    if d.day > 1 then Date(d.year, d.month, d.day - 1)
    else if d.month > 1 then Date(d.year, d.month - 1, DaysInMonth(d.year, d.month - 1))
    else Date(d.year - 1, 12, 31)
  }

  /** The next day is one epoch day later, across month, year and leap-day boundaries. */
  lemma NextDayCounts(d: Date)
    requires ValidDate(d)
    ensures EpochDay(NextDay(d)) == EpochDay(d) + 1
  {
    MonthLength(d.year, d.month);
    YearLength(d.year);
  }

  /** The previous day is one epoch day earlier. */
  lemma PrevDayCounts(d: Date)
    requires ValidDate(d)
    ensures EpochDay(PrevDay(d)) == EpochDay(d) - 1
  {
    if d.day == 1 {
      if d.month > 1 {
        MonthLength(d.year, d.month - 1);
      } else {
        MonthLength(d.year - 1, 12);
        YearLength(d.year - 1);
      }
    }
  }

  /** LocalDate.plusDays(n) for n >= 0, stepping one day at a time. */
  function PlusDays(d: Date, n: nat): (r: Date)
    requires ValidDate(d)
    ensures ValidDate(r)
    decreases n
  {
    if n == 0 then d else PlusDays(NextDay(d), n - 1)
  }

  /** LocalDate.minusDays(n) for n >= 0, stepping one day at a time. */
  function MinusDays(d: Date, n: nat): (r: Date)
    requires ValidDate(d)
    ensures ValidDate(r)
    decreases n
  {
    if n == 0 then d else MinusDays(PrevDay(d), n - 1)
  }

  /** plusDays(n) is the date whose epoch day is n more (LocalDate.ofEpochDay(toEpochDay() + n)). */
  lemma {:induction false} PlusDaysCounts(d: Date, n: nat)
    requires ValidDate(d)
    ensures EpochDay(PlusDays(d, n)) == EpochDay(d) + n
    decreases n
  {
    if n > 0 {
      NextDayCounts(d);
      PlusDaysCounts(NextDay(d), n - 1);
    }
  }

  /** minusDays(n) is the date whose epoch day is n less. */
  lemma {:induction false} MinusDaysCounts(d: Date, n: nat)
    requires ValidDate(d)
    ensures EpochDay(MinusDays(d, n)) == EpochDay(d) - n
    decreases n
  {
    if n > 0 {
      PrevDayCounts(d);
      MinusDaysCounts(PrevDay(d), n - 1);
    }
  }

  /** Going back n days and then forward n days returns to the same date, and vice versa. */
  lemma PlusMinusRoundTrip(d: Date, n: nat)
    requires ValidDate(d)
    ensures PlusDays(MinusDays(d, n), n) == d
    ensures MinusDays(PlusDays(d, n), n) == d
  {
    MinusDaysCounts(d, n);
    PlusDaysCounts(MinusDays(d, n), n);
    EpochDayInjective(PlusDays(MinusDays(d, n), n), d);
    PlusDaysCounts(d, n);
    MinusDaysCounts(PlusDays(d, n), n);
    EpochDayInjective(MinusDays(PlusDays(d, n), n), d);
  }

  /** Adding days in two steps is adding their sum. */
  lemma PlusDaysAdditive(d: Date, a: nat, b: nat)
    requires ValidDate(d)
    ensures PlusDays(PlusDays(d, a), b) == PlusDays(d, a + b)
  {
    PlusDaysCounts(d, a);
    PlusDaysCounts(PlusDays(d, a), b);
    PlusDaysCounts(d, a + b);
    EpochDayInjective(PlusDays(PlusDays(d, a), b), PlusDays(d, a + b));
  }

  /** Moving n days forward moves the ISO day of the week n places round the cycle. */
  lemma DayOfWeekAfter(d: Date, n: nat)
    requires ValidDate(d)
    ensures DayOfWeek(PlusDays(d, n)) == (DayOfWeek(d) - 1 + n) % 7 + 1
  {
    PlusDaysCounts(d, n);
    WeekdayShift(EpochDay(d), n);
  }

  /** n days later the weekday has moved n places round the cycle. */
  lemma WeekdayShift(e: int, n: int)
    ensures WeekdayOf(e + n) == (WeekdayOf(e) - 1 + n) % 7 + 1
  {
    var q, r := (e + 3) / 7, (e + 3) % 7;
    assert e + 3 + n == 7 * q + (r + n);
  }

  /** 1 January 1970 was a Thursday, and 1 January of year 1 (proleptic) a Monday. */
  lemma WeekdayAnchors()
    ensures EpochDay(Date(1970, 1, 1)) == 0 && DayOfWeek(Date(1970, 1, 1)) == 4
    ensures DayOfWeek(Date(1, 1, 1)) == 1
  {
    assert EpochDay(Date(1, 1, 1)) == -EpochOffset;
  }
}
