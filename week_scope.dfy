/**
  The week scope of Engine.calcWeekScope: the Monday and the Sunday of the
  ISO week that contains "today", and the text "dd.MM.-dd.MM.yyyy" naming it.
  "Today" is a parameter here; the source reads it from the system clock.
 */
module WeekScope {
  import opened Calendar
  import opened DateFormat

  /** The Monday of today's week: today moved back by (weekday - 1) days. */
  function WeekStart(today: Date): (r: Date)
    requires ValidDate(today)
    ensures ValidDate(r)
  {
    MinusDays(today, DayOfWeek(today) - 1)
  }

  /** The Sunday of today's week: today moved forward by (7 - weekday) days. */
  function WeekEnd(today: Date): (r: Date)
    requires ValidDate(today)
    ensures ValidDate(r)
  {
    PlusDays(today, 7 - DayOfWeek(today))
  }

  /**
    The week's Sunday falls in a year that "yyyy" prints as four digits
    (the start date's year is not printed).
   */
  predicate PrintableWeek(today: Date)
  {
    ValidDate(today) && 1 <= WeekEnd(today).year <= 9999
  }

  /** The text calcWeekScope returns for today. */
  function WeekScopeText(today: Date): (s: string)
    requires PrintableWeek(today)
  {
    FormatWeekScope(WeekStart(today), WeekEnd(today))
  }

  /**
    The date-shifting part of calcWeekScope: both dates start at today and
    the seven-way branch on the ISO weekday moves the first back to Monday
    and the second forward to Sunday.
   */
  method ShiftToWeek(today: Date) returns (currentWeekDate: Date, lastWeekDate: Date)
    requires ValidDate(today)
    ensures currentWeekDate == WeekStart(today) && lastWeekDate == WeekEnd(today)
  {
    currentWeekDate := today;
    lastWeekDate := currentWeekDate;
    var dayOfWeek := DayOfWeek(currentWeekDate);

    if dayOfWeek == 1 {
      lastWeekDate := PlusDays(currentWeekDate, 6);
    } else if dayOfWeek == 2 {
      lastWeekDate := PlusDays(currentWeekDate, 5);
      currentWeekDate := MinusDays(currentWeekDate, 1);
    } else if dayOfWeek == 3 {
      lastWeekDate := PlusDays(currentWeekDate, 4);
      currentWeekDate := MinusDays(currentWeekDate, 2);
    } else if dayOfWeek == 4 {
      lastWeekDate := PlusDays(currentWeekDate, 3);
      currentWeekDate := MinusDays(currentWeekDate, 3);
    } else if dayOfWeek == 5 {
      lastWeekDate := PlusDays(currentWeekDate, 2);
      currentWeekDate := MinusDays(currentWeekDate, 4);
    } else if dayOfWeek == 6 {
      lastWeekDate := PlusDays(currentWeekDate, 1);
      currentWeekDate := MinusDays(currentWeekDate, 5);
    } else if dayOfWeek == 7 {
      currentWeekDate := MinusDays(currentWeekDate, 6);
    }
  }

  /** calcWeekScope: the week's two dates, formatted "dd.MM." and "dd.MM.yyyy" and joined by a dash. */
  method CalcWeekScope(today: Date) returns (scope: string)
    requires PrintableWeek(today)
    ensures scope == WeekScopeText(today)
    ensures |scope| == 17 && scope[6] == '-' && '/' !in scope
  {
    var currentWeekDate, lastWeekDate := ShiftToWeek(today);
    var formatCurrentWeekDate := FormatDayMonth(currentWeekDate);
    var formatLastWeekDate := FormatDayMonthYear(lastWeekDate);
    scope := formatCurrentWeekDate + "-" + formatLastWeekDate;
    WeekScopeShape(currentWeekDate, lastWeekDate);
  }

  // ---------------------------------------------------------------------
  // What the week scope is

  /** Week start and end, counted in epoch days: today less (weekday - 1), today plus (7 - weekday). */
  lemma WeekEpochDays(today: Date)
    requires ValidDate(today)
    ensures EpochDay(WeekStart(today)) == EpochDay(today) - (DayOfWeek(today) - 1)
    ensures EpochDay(WeekEnd(today)) == EpochDay(today) + (7 - DayOfWeek(today))
  {
    MinusDaysCounts(today, DayOfWeek(today) - 1);
    PlusDaysCounts(today, 7 - DayOfWeek(today));
  }

  /** Moving back (weekday - 1) days lands on a Monday; forward (7 - weekday) days on a Sunday. */
  lemma WeekdayBounds(e: int)
    ensures WeekdayOf(e - (WeekdayOf(e) - 1)) == 1
    ensures WeekdayOf(e + (7 - WeekdayOf(e))) == 7
  {
    assert e + 3 - (e + 3) % 7 == 7 * ((e + 3) / 7);
  }

  /** The week starts on a Monday and ends on a Sunday. */
  lemma WeekRunsMondayToSunday(today: Date)
    requires ValidDate(today)
    ensures DayOfWeek(WeekStart(today)) == 1
    ensures DayOfWeek(WeekEnd(today)) == 7
  {
    var e := EpochDay(today);
    WeekEpochDays(today);
    WeekdayBounds(e);
    assert EpochDay(WeekStart(today)) == e - (WeekdayOf(e) - 1);
    assert EpochDay(WeekEnd(today)) == e + (7 - WeekdayOf(e));
  }

  /** The end is exactly six days after the start, and today lies between them in calendar order. */
  lemma WeekSpansToday(today: Date)
    requires ValidDate(today)
    ensures PlusDays(WeekStart(today), 6) == WeekEnd(today)
    ensures AtOrBefore(WeekStart(today), today) && AtOrBefore(today, WeekEnd(today))
  {
    var start, end := WeekStart(today), WeekEnd(today);
    WeekEpochDays(today);
    PlusDaysCounts(start, 6);
    EpochDayInjective(PlusDays(start, 6), end);
    BeforeMeansEarlier(start, today);
    BeforeMeansEarlier(today, end);
    if EpochDay(start) == EpochDay(today) {
      EpochDayInjective(start, today);
    }
    if EpochDay(today) == EpochDay(end) {
      EpochDayInjective(today, end);
    }
  }

  /** A Monday starts its own week; a Sunday ends its own week. */
  lemma WeekBoundaries(today: Date)
    requires ValidDate(today)
    ensures DayOfWeek(today) == 1 <==> WeekStart(today) == today
    ensures DayOfWeek(today) == 7 <==> WeekEnd(today) == today
  {
    WeekEpochDays(today);
  }

  /** The day k days after the week's Monday (k <= 6) has weekday k + 1. */
  lemma DayInWeek(today: Date, k: nat)
    requires ValidDate(today) && k <= 6
    ensures DayOfWeek(PlusDays(WeekStart(today), k)) == k + 1
    ensures EpochDay(PlusDays(WeekStart(today), k)) == EpochDay(WeekStart(today)) + k
  {
    var start := WeekStart(today);
    var e := EpochDay(start);
    WeekRunsMondayToSunday(today);
    assert WeekdayOf(e) == 1;
    PlusDaysCounts(start, k);
    MondayPlus(e, k);
    assert EpochDay(PlusDays(start, k)) == e + k;
  }

  /** k days after a Monday (k <= 6) is weekday k + 1. */
  lemma MondayPlus(e: int, k: int)
    requires WeekdayOf(e) == 1 && 0 <= k <= 6
    ensures WeekdayOf(e + k) == k + 1
  {
    WeekdayShift(e, k);
  }

  /**
    Every day from the week's Monday to six days later has that Monday as
    its week start and the same Sunday as its week end: all seven days
    name the same week.
   */
  lemma SameWeek(today: Date, k: nat)
    requires ValidDate(today) && k <= 6
    ensures WeekStart(PlusDays(WeekStart(today), k)) == WeekStart(today)
    ensures WeekEnd(PlusDays(WeekStart(today), k)) == WeekEnd(today)
  {
    var start := WeekStart(today);
    var u := PlusDays(start, k);
    DayInWeek(today, k);
    WeekEpochDays(u);
    WeekEpochDays(today);
    assert EpochDay(WeekStart(u)) == EpochDay(start);
    EpochDayInjective(WeekStart(u), start);
    assert EpochDay(WeekEnd(u)) == EpochDay(WeekEnd(today));
    EpochDayInjective(WeekEnd(u), WeekEnd(today));
  }

  /** The week scope text names the week's Sunday in full. */
  lemma TextGivesEnd(a: Date, b: Date)
    requires PrintableWeek(a) && PrintableWeek(b)
    ensures WeekScopeText(a) == WeekScopeText(b) ==> WeekEnd(a) == WeekEnd(b)
  {
    ParseFormatRoundTrip(WeekStart(a), WeekEnd(a));
    ParseFormatRoundTrip(WeekStart(b), WeekEnd(b));
  }

  /** A week is determined by its Sunday. */
  lemma EndGivesStart(a: Date, b: Date)
    requires ValidDate(a) && ValidDate(b)
    ensures WeekStart(a) == WeekStart(b) <==> WeekEnd(a) == WeekEnd(b)
  {
    WeekEpochDays(a);
    WeekEpochDays(b);
    if EpochDay(WeekStart(a)) == EpochDay(WeekStart(b)) {
      EpochDayInjective(WeekStart(a), WeekStart(b));
      EpochDayInjective(WeekEnd(a), WeekEnd(b));
    }
    if EpochDay(WeekEnd(a)) == EpochDay(WeekEnd(b)) {
      EpochDayInjective(WeekStart(a), WeekStart(b));
      EpochDayInjective(WeekEnd(a), WeekEnd(b));
    }
  }

  /** Two days give the same week scope text exactly when they lie in the same week. */
  lemma TextIdentifiesWeek(a: Date, b: Date)
    requires PrintableWeek(a) && PrintableWeek(b)
    ensures WeekScopeText(a) == WeekScopeText(b) <==> WeekStart(a) == WeekStart(b)
  {
    EndGivesStart(a, b);
    TextGivesEnd(a, b);
  }

  /** The week of a day whose weekday and week ends are known by their epoch days. */
  lemma WeekOfExample(today: Date, start: Date, end: Date)
    requires ValidDate(today) && ValidDate(start) && ValidDate(end)
    ensures EpochDay(start) == EpochDay(today) - (DayOfWeek(today) - 1) ==> WeekStart(today) == start
    ensures EpochDay(end) == EpochDay(today) + (7 - DayOfWeek(today)) ==> WeekEnd(today) == end
  {
    WeekEpochDays(today);
    if EpochDay(start) == EpochDay(today) - (DayOfWeek(today) - 1) {
      EpochDayInjective(WeekStart(today), start);
    }
    if EpochDay(end) == EpochDay(today) + (7 - DayOfWeek(today)) {
      EpochDayInjective(WeekEnd(today), end);
    }
  }

  /** Wednesday 13 March 2024 lies in the week "11.03.-17.03.2024". */
  lemma ExampleMidweek()
    ensures WeekStart(Date(2024, 3, 13)) == Date(2024, 3, 11)
    ensures WeekEnd(Date(2024, 3, 13)) == Date(2024, 3, 17)
    ensures WeekScopeText(Date(2024, 3, 13)) == "11.03.-17.03.2024"
  {
    assert EpochDay(Date(2024, 3, 13)) == 19795;
    assert EpochDay(Date(2024, 3, 11)) == 19793;
    assert EpochDay(Date(2024, 3, 17)) == 19799;
    assert DayOfWeek(Date(2024, 3, 13)) == 3;
    WeekOfExample(Date(2024, 3, 13), Date(2024, 3, 11), Date(2024, 3, 17));
    FormattedMarchWeek();
  }

  /** Monday 11 March 2024 starts its own week. */
  lemma ExampleMonday()
    ensures WeekStart(Date(2024, 3, 11)) == Date(2024, 3, 11)
    ensures WeekScopeText(Date(2024, 3, 11)) == "11.03.-17.03.2024"
  {
    assert EpochDay(Date(2024, 3, 11)) == 19793;
    assert EpochDay(Date(2024, 3, 17)) == 19799;
    assert DayOfWeek(Date(2024, 3, 11)) == 1;
    WeekOfExample(Date(2024, 3, 11), Date(2024, 3, 11), Date(2024, 3, 17));
    FormattedMarchWeek();
  }

  /** Sunday 17 March 2024 ends its own week. */
  lemma ExampleSunday()
    ensures WeekEnd(Date(2024, 3, 17)) == Date(2024, 3, 17)
    ensures WeekScopeText(Date(2024, 3, 17)) == "11.03.-17.03.2024"
  {
    assert EpochDay(Date(2024, 3, 11)) == 19793;
    assert EpochDay(Date(2024, 3, 17)) == 19799;
    assert DayOfWeek(Date(2024, 3, 17)) == 7;
    WeekOfExample(Date(2024, 3, 17), Date(2024, 3, 11), Date(2024, 3, 17));
    FormattedMarchWeek();
  }

  lemma FormattedMarchWeek()
    ensures FormatWeekScope(Date(2024, 3, 11), Date(2024, 3, 17)) == "11.03.-17.03.2024"
  {
    assert FormatDayMonth(Date(2024, 3, 11)) == "11.03.";
    assert FormatDayMonthYear(Date(2024, 3, 17)) == "17.03.2024";
  }

  /**
    Monday 30 December 2024: the start keeps its own day and month from
    2024, and the year printed is the end date's, 2025.
   */
  lemma ExampleYearChange()
    ensures WeekStart(Date(2024, 12, 30)) == Date(2024, 12, 30)
    ensures WeekEnd(Date(2024, 12, 30)) == Date(2025, 1, 5)
    ensures WeekScopeText(Date(2024, 12, 30)) == "30.12.-05.01.2025"
  {
    assert EpochDay(Date(2024, 12, 30)) == 20087;
    assert EpochDay(Date(2025, 1, 5)) == 20093;
    assert DayOfWeek(Date(2024, 12, 30)) == 1;
    WeekOfExample(Date(2024, 12, 30), Date(2024, 12, 30), Date(2025, 1, 5));
    FormattedYearChangeWeek();
  }

  lemma FormattedYearChangeWeek()
    ensures FormatWeekScope(Date(2024, 12, 30), Date(2025, 1, 5)) == "30.12.-05.01.2025"
  {
    assert FormatDayMonth(Date(2024, 12, 30)) == "30.12.";
    assert FormatDayMonthYear(Date(2025, 1, 5)) == "05.01.2025";
  }

  /** Thursday 29 February 2024: the week runs from February into March across the leap day. */
  lemma ExampleLeapDay()
    ensures WeekStart(Date(2024, 2, 29)) == Date(2024, 2, 26)
    ensures WeekEnd(Date(2024, 2, 29)) == Date(2024, 3, 3)
    ensures WeekScopeText(Date(2024, 2, 29)) == "26.02.-03.03.2024"
  {
    assert EpochDay(Date(2024, 2, 29)) == 19782;
    assert EpochDay(Date(2024, 2, 26)) == 19779;
    assert EpochDay(Date(2024, 3, 3)) == 19785;
    assert DayOfWeek(Date(2024, 2, 29)) == 4;
    WeekOfExample(Date(2024, 2, 29), Date(2024, 2, 26), Date(2024, 3, 3));
    FormattedLeapWeek();
  }

  lemma FormattedLeapWeek()
    ensures FormatWeekScope(Date(2024, 2, 26), Date(2024, 3, 3)) == "26.02.-03.03.2024"
  {
    assert FormatDayMonth(Date(2024, 2, 26)) == "26.02.";
    assert FormatDayMonthYear(Date(2024, 3, 3)) == "03.03.2024";
  }
}
