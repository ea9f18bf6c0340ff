# LectureHunter week scope, verified model

LectureHunter downloads two lecture timetables from a university server. Each
timetable lives at a URL of the form `BASE_URL + weekScope + "/inf_4.pdf"` or
`… + "/inf_2.pdf"`, where the week scope names the current Monday-to-Sunday
week as `dd.MM.-dd.MM.yyyy`. The program saves each PDF to a fixed local file
and then opens a local HTML page. This project is a Dafny model of the one
piece of real logic, `Engine.calcWeekScope`. It also models the URL
concatenation, the choice of destination file in `fetchByUrl`, and the order
of the steps of `run`.

Modules (one file each):

- `Calendar` (`calendar.dfy`): proleptic Gregorian dates as `java.time`
  holds them. It has the epoch day (1970-01-01 = 0, as `toEpochDay`) and the
  ISO weekday `floorMod(epochDay + 3, 7) + 1`, as `getDayOfWeek().getValue()`.
  `plusDays` and `minusDays` step one day at a time across month, year and
  leap-day boundaries. Lemmas tie these to the epoch day, and show that the
  epoch day is injective on valid dates.
- `DateFormat` (`format.dfy`): the patterns `dd.MM.` and `dd.MM.yyyy`, the
  joined `dd.MM.-dd.MM.yyyy` text, and a reader that takes the numbers back
  out of that text.
- `WeekScope` (`week_scope.dfy`): `calcWeekScope` as two methods. The first,
  `ShiftToWeek`, is the seven-way branch on the weekday. The second,
  `CalcWeekScope`, formats the two dates. Both are proved against the closed
  forms `start = today − (d − 1)` and `end = today + (7 − d)`, and lemmas
  state what those closed forms mean.
- `Engine` (`engine.dfy`): the constants, `String.contains`, the
  destination-file choice, `fetchFourthCourse`, `fetchSecondCourse` and `run`.
- `Wrappers` (`wrappers.dfy`): `Option`.

`ShiftToWeek` keeps the seven-way `switch` of src/Engine.java:64-91, case by
case, and is proved equal to the closed forms. The week runs Monday to Sunday
inclusive, so the end is six days after the start.

## Model

| member | source | states |
|---|---|---|
| `Calendar.WeekdayOf` | src/Engine.java:62 | the day of the week is numbered 1 (Monday) to 7 (Sunday) |
| `Calendar.WeekdayAnchors` | src/Engine.java:62 | the weekday function gives Thursday for 1970-01-01 and Monday for 0001-01-01, as ISO 8601 and java.time do |
| `Calendar.DayOfWeek` | src/Engine.java:62 | `getDayOfWeek().getValue()` of a valid date is a weekday number from 1 to 7; how it moves is stated by `DayOfWeekAfter` |
| `Calendar.PlusDays` | src/Engine.java:66-85 | `plusDays(n)` of a valid date is a valid date; `PlusDaysCounts` states that it lies n days later |
| `Calendar.MinusDays` | src/Engine.java:70-89 | `minusDays(n)` of a valid date is a valid date; `MinusDaysCounts` states that it lies n days earlier |
| `Calendar.DayOfWeekAfter` | src/Engine.java:62-91 | n days after a date, the weekday has moved n places round the 7-day cycle |
| `Calendar.NextDayCounts` | src/Engine.java:66-85 | the next day, which can be the first of a new month or year or follow a leap day, is exactly one epoch day later |
| `Calendar.PrevDayCounts` | src/Engine.java:70-89 | the previous day, which can cross a month or year start, is exactly one epoch day earlier |
| `Calendar.PlusDaysCounts` | src/Engine.java:66-85 | `plusDays(n)` gives a valid date whose epoch day is n more |
| `Calendar.MinusDaysCounts` | src/Engine.java:70-89 | `minusDays(n)` gives a valid date whose epoch day is n less |
| `Calendar.BeforeMeansEarlier` | src/Engine.java:64-91 | calendar order (year, then month, then day) is the same as epoch-day order, in both directions |
| `Calendar.EpochDayInjective` | src/Engine.java:64-91 | two valid dates with the same epoch day are equal, so a shifted date is determined by its day count |
| `Calendar.PlusMinusRoundTrip` | src/Engine.java:64-91 | going back n days and then forward n days returns to the starting date, and so does the reverse |
| `Calendar.PlusDaysAdditive` | src/Engine.java:64-91 | adding a days and then b days is the same as adding a + b days |
| `DateFormat.Pad2` | src/Engine.java:93-94 | `dd` and `MM` print two decimal digits whose value is the number, zero-padded |
| `DateFormat.Pad4` | src/Engine.java:94 | `yyyy` prints four decimal digits whose value is the year, zero-padded |
| `DateFormat.FormatDayMonth` | src/Engine.java:93 | `dd.MM.` is 6 characters: the day's digits, a dot, the month's digits, a dot |
| `DateFormat.FormatDayMonthYear` | src/Engine.java:94 | `dd.MM.yyyy` is `dd.MM.` followed by the four digits of the year |
| `DateFormat.FormatWeekScope` | src/Engine.java:96 | `String.format("%s-%s", …)` gives 17 characters: the start's `dd.MM.` text, a `-` at index 6, then the end's `dd.MM.yyyy` text |
| `DateFormat.WeekScopeShape` | src/Engine.java:93-96 | the week scope text is 17 characters with `-` at index 6, and holds only digits, `.` and `-` (never `/`) |
| `DateFormat.ParseFormatRoundTrip` | src/Engine.java:93-96 | reading the text back gives exactly the start's day and month and the end's day, month and year |
| `WeekScope.ShiftToWeek` | src/Engine.java:60-91 | the seven `switch` cases move `currentWeekDate` to today − (d − 1) and `lastWeekDate` to today + (7 − d); on Sunday `lastWeekDate` keeps its initial value |
| `WeekScope.CalcWeekScope` | src/Engine.java:59-97 | the returned string is the week's start as `dd.MM.`, a dash and the week's end as `dd.MM.yyyy`; it is 17 characters with no `/` |
| `WeekScope.WeekEpochDays` | src/Engine.java:64-91 | counted in days, the start is today − (d − 1) and the end is today + (7 − d), for every weekday d |
| `WeekScope.WeekRunsMondayToSunday` | src/Engine.java:64-91 | the start date is always a Monday and the end date always a Sunday |
| `WeekScope.WeekSpansToday` | src/Engine.java:64-91 | the end is exactly 6 days after the start, and start ≤ today ≤ end in calendar order |
| `WeekScope.WeekBoundaries` | src/Engine.java:61-90 | today is a Monday exactly when the start is today, and a Sunday exactly when the end is today |
| `WeekScope.DayInWeek` | src/Engine.java:64-91 | the day k days after the week's Monday (k ≤ 6) has weekday k + 1 |
| `WeekScope.SameWeek` | src/Engine.java:59-97 | all seven days from the Monday to the Sunday have the same start and end, so they give the same week scope |
| `WeekScope.EndGivesStart` | src/Engine.java:64-91 | two days have the same week start exactly when they have the same week end |
| `WeekScope.TextIdentifiesWeek` | src/Engine.java:59-97 | two days give the same week scope text exactly when they lie in the same week |
| `WeekScope.ExampleMidweek` | src/Engine.java:59-97 | Wednesday 2024-03-13 gives start 2024-03-11, end 2024-03-17 and `11.03.-17.03.2024` |
| `WeekScope.ExampleMonday` | src/Engine.java:65-67 | Monday 2024-03-11 is its own week start and gives `11.03.-17.03.2024` |
| `WeekScope.ExampleSunday` | src/Engine.java:88-90 | Sunday 2024-03-17 is its own week end and gives `11.03.-17.03.2024` |
| `WeekScope.ExampleYearChange` | src/Engine.java:93-94 | Monday 2024-12-30 gives `30.12.-05.01.2025`: the start's day and month come from 2024, and the year printed is the end's |
| `WeekScope.ExampleLeapDay` | src/Engine.java:72-75 | Thursday 2024-02-29 gives `26.02.-03.03.2024`, a week that crosses the leap day |
| `Engine.Contains` | src/Engine.java:113 | `String.contains` is true exactly when the substring occurs at some index |
| `Engine.DestinationFile` | src/Engine.java:113-119 | a URL containing `/inf_2.pdf` goes to `lectures_2nd_course.pdf`; otherwise one containing `/inf_4.pdf` goes to `lectures_4th_course.pdf`; otherwise no file |
| `Engine.CourseUrl` | src/Engine.java:43 | a course URL is `BASE_URL`, then the week scope, then the course document, each at its own offset and nothing else |
| `Engine.FetchFourthCourse` | src/Engine.java:42-45 | the URL is `BASE_URL + weekScope + "/inf_4.pdf"` and the download is saved to `lectures_4th_course.pdf` |
| `Engine.FetchSecondCourse` | src/Engine.java:50-53 | the URL is `BASE_URL + weekScope + "/inf_2.pdf"` and the download is saved to `lectures_2nd_course.pdf` |
| `Engine.Run` | src/Engine.java:33-37 | a run downloads the fourth course, then the second course, then opens the lectures page |
| `Engine.FourthCourseUrlChoosesFourthFile` | src/Engine.java:113-119 | a fourth-course URL never takes the second-course branch, because neither the base URL nor a week scope text contains `/inf_2.pdf` |
| `Engine.SecondCourseUrlChoosesSecondFile` | src/Engine.java:113-115 | a second-course URL is saved to the second-course file |
| `Engine.SharedWeekSegment` | src/Engine.java:43-51 | the two course URLs of one day are equal up to the end of the week scope, which is the day's week scope text, and differ only in the course document |

## Left out

- The clock: `LocalDateTime.now()` becomes the parameter `today`. The time of day is not modelled, because the patterns do not print it. Each fetch reads the clock separately, so a run that crosses midnight can build the two URLs from different days. The model uses one date for both.
- Years the formatter cannot print as four digits. `CalcWeekScope` requires the week's Sunday to fall in years 1 to 9999 (`PrintableWeek`). For years ≤ 0, `yyyy` in `DateTimeFormatter` prints the year of the era (1 − year) with no era marker. Above 9999 it prints `+` and more digits. Neither is modelled. `Locale.ENGLISH` does not affect these numeric patterns.
- The range limits of `java.time` (years ±999,999,999) are not modelled: years are unbounded integers.
- `Calendar.PlusDays` and `Calendar.MinusDays` take only non-negative counts, because the source only passes the constants 1 to 6.
- URL parsing (`new URL`) and its `MalformedURLException` path, `openStream`, `Files.copy` and its `IOException`: these are network and file I/O. `DestinationFile` models only which file would be written.
- `renderHtml`'s `Desktop.browse` is I/O, so a run only records a `Browse` action for the page.
- The diagnostic `System.out.println` calls and the `Runnable` thread framing of `run`.
