/**
  The two DateTimeFormatter patterns of the week scope, "dd.MM." and
  "dd.MM.yyyy", with fixed-width zero-padded decimal fields, the joined
  "dd.MM.-dd.MM.yyyy" text, and a reader that recovers the numbers from it.
 */
module DateFormat {
  import opened Calendar
  import opened Wrappers

  predicate IsDigit(c: char)
  {
    '0' <= c <= '9'
  }

  function DigitChar(n: int): (c: char)
    requires 0 <= n <= 9
    ensures IsDigit(c) && c as int - '0' as int == n
  {
    ('0' as int + n) as char
  }

  predicate AllDigits(s: string)
  {
    forall i | 0 <= i < |s| :: IsDigit(s[i])
  }

  /** The number a string of decimal digits denotes, most significant digit first. */
  function DigitsValue(s: string): nat
    requires AllDigits(s)
  {
    if s == [] then 0
    else DigitsValue(s[..|s| - 1]) * 10 + (s[|s| - 1] as int - '0' as int)
  }

  /** Two-digit zero-padded decimal ("dd", "MM"). */
  function Pad2(n: int): (s: string)
    requires 0 <= n <= 99
    ensures |s| == 2 && AllDigits(s) && DigitsValue(s) == n
  {
    var s := [DigitChar(n / 10), DigitChar(n % 10)];
    assert DigitsValue(s[..1]) == n / 10 by { assert s[..1][..0] == []; }
    s
  }

  /** Four-digit zero-padded decimal ("yyyy"). */
  function Pad4(n: int): (s: string)
    requires 0 <= n <= 9999
    ensures |s| == 4 && AllDigits(s) && DigitsValue(s) == n
  {
    var s := [DigitChar(n / 1000), DigitChar(n / 100 % 10), DigitChar(n / 10 % 10), DigitChar(n % 10)];
    assert DigitsValue(s[..1]) == n / 1000 by { assert s[..1][..0] == []; }
    assert DigitsValue(s[..2]) == n / 100 by {
      assert s[..2][..1] == s[..1];
      assert n / 100 == n / 1000 * 10 + n / 100 % 10;
    }
    assert DigitsValue(s[..3]) == n / 10 by {
      assert s[..3][..2] == s[..2];
      assert n / 10 == n / 100 * 10 + n / 10 % 10;
    }
    assert s[..4][..3] == s[..3];
    s
  }

  /** Characters that may appear in a formatted week scope. */
  predicate ScopeChar(c: char)
  {
    IsDigit(c) || c == '.' || c == '-'
  }

  /** A text that could be a week scope: digits, dots and dashes only. */
  predicate ScopeText(s: string)
  {
    forall i | 0 <= i < |s| :: ScopeChar(s[i])
  }

  /** Pattern "dd.MM.": day and month, each two digits, each followed by a dot. */
  function FormatDayMonth(d: Date): (s: string)
    requires ValidDate(d)
    ensures |s| == 6 && s[2] == '.' && s[5] == '.'
    ensures AllDigits(s[0..2]) && DigitsValue(s[0..2]) == d.day
    ensures AllDigits(s[3..5]) && DigitsValue(s[3..5]) == d.month
  {
    var s := Pad2(d.day) + "." + Pad2(d.month) + ".";
    assert s[0..2] == Pad2(d.day);
    assert s[3..5] == Pad2(d.month);
    s
  }

  /**
    Pattern "dd.MM.yyyy"; "yyyy" is the year of the era padded to four
    digits, which is the year itself for years 1 to 9999.
   */
  function FormatDayMonthYear(d: Date): (s: string)
    requires ValidDate(d) && 1 <= d.year <= 9999
    ensures |s| == 10 && s[..6] == FormatDayMonth(d)
    ensures AllDigits(s[6..]) && DigitsValue(s[6..]) == d.year
  {
    var s := FormatDayMonth(d) + Pad4(d.year);
    assert s[6..] == Pad4(d.year);
    s
  }

  /** The week scope text: "<start as dd.MM.>-<end as dd.MM.yyyy>". */
  function FormatWeekScope(start: Date, end: Date): (s: string)
    requires ValidDate(start) && ValidDate(end) && 1 <= end.year <= 9999
    ensures |s| == 17 && s[..6] == FormatDayMonth(start) && s[6] == '-' && s[7..] == FormatDayMonthYear(end)
  {
    FormatDayMonth(start) + "-" + FormatDayMonthYear(end)
  }

  /**
    A week scope text is 17 characters long, has the dash at index 6, and
    holds only digits, dots and that dash (so never a path separator).
   */
  lemma WeekScopeShape(start: Date, end: Date)
    requires ValidDate(start) && ValidDate(end) && 1 <= end.year <= 9999
    ensures var s := FormatWeekScope(start, end);
      |s| == 17 && s[6] == '-' && ScopeText(s) && '/' !in s
  {
    var a, b := FormatDayMonth(start), FormatDayMonthYear(end);
    var s := FormatWeekScope(start, end);
    DayMonthChars(start);
    DayMonthChars(end);
    assert forall i | 0 <= i < 10 :: ScopeChar(b[i]) by {
      forall i | 0 <= i < 10 ensures ScopeChar(b[i]) {
        if i < 6 { assert b[i] == b[..6][i]; }
        else { assert b[i] == b[6..][i - 6]; }
      }
    }
    assert forall i | 0 <= i < |s| :: s[i] == if i < 6 then a[i] else if i == 6 then '-' else b[i - 7];
  }

  /** Every character of a "dd.MM." text is a digit or a dot. */
  lemma DayMonthChars(d: Date)
    requires ValidDate(d)
    ensures forall i | 0 <= i < 6 :: ScopeChar(FormatDayMonth(d)[i])
  {
    var a := FormatDayMonth(d);
    forall i | 0 <= i < 6 ensures ScopeChar(a[i]) {
      if i < 2 { assert a[i] == a[0..2][i]; }
      else if 2 < i < 5 { assert a[i] == a[3..5][i - 3]; }
    }
  }

  /** The numbers read back from a week scope text: start day and month, end day, month and year. */
  datatype ScopeFields = ScopeFields(startDay: nat, startMonth: nat, endDay: nat, endMonth: nat, endYear: nat)

  /** Reads "dd.MM.-dd.MM.yyyy" back; None for any text not of that shape. */
  function ParseWeekScope(s: string): (r: Option<ScopeFields>)
    ensures r.Some? ==> |s| == 17 && s[2] == '.' && s[5] == '.' && s[6] == '-' && s[9] == '.' && s[12] == '.'
  {
    if |s| == 17 && s[2] == '.' && s[5] == '.' && s[6] == '-' && s[9] == '.' && s[12] == '.'
      && AllDigits(s[0..2]) && AllDigits(s[3..5]) && AllDigits(s[7..9]) && AllDigits(s[10..12])
      && AllDigits(s[13..17])
    then Some(ScopeFields(DigitsValue(s[0..2]), DigitsValue(s[3..5]),
                          DigitsValue(s[7..9]), DigitsValue(s[10..12]), DigitsValue(s[13..17])))
    else None
  }

  /** Reading a formatted week scope gives back exactly the numbers that were printed. */
  lemma ParseFormatRoundTrip(start: Date, end: Date)
    requires ValidDate(start) && ValidDate(end) && 1 <= end.year <= 9999
    ensures ParseWeekScope(FormatWeekScope(start, end))
            == Some(ScopeFields(start.day, start.month, end.day, end.month, end.year))
  {
    var a, b := FormatDayMonth(start), FormatDayMonthYear(end);
    var s := FormatWeekScope(start, end);
    assert s == a + "-" + b;
    assert s[0..2] == a[0..2] && s[3..5] == a[3..5];
    assert s[2] == a[2] && s[5] == a[5];
    assert b[..6] == FormatDayMonth(end);
    assert s[7..9] == b[..6][0..2] && s[10..12] == b[..6][3..5];
    assert s[9] == b[..6][2] && s[12] == b[..6][5];
    assert s[13..17] == b[6..];
  }
}
