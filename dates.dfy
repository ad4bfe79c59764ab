/**
 * Calendar dates as Python's `datetime.date` has them: the proleptic
 * Gregorian calendar from year 1 to year 9999, parsing with
 * `datetime.strptime(s, '%Y-%m-%d')`, printing with `strftime('%Y-%m-%d')`,
 * comparison, and the day count behind `(b - a).days`.
 */
module Dates {
  import opened Wrappers
  import opened Text

  datatype Date = Date(year: int, month: int, day: int)

  predicate IsLeap(y: int) {
    y % 4 == 0 && (y % 100 != 0 || y % 400 == 0)
  }

  function DaysInMonth(y: int, m: int): int
    requires 1 <= m <= 12
  {
    if m == 2 then (if IsLeap(y) then 29 else 28)
    else if m == 4 || m == 6 || m == 9 || m == 11 then 30
    else 31
  }

  function DaysInYear(y: int): int {
    if IsLeap(y) then 366 else 365
  }

  /** The dates `datetime.date` accepts: years 1 to 9999, and a day that exists in its month. */
  predicate ValidDate(d: Date) {
    1 <= d.year <= 9999 && 1 <= d.month <= 12 && 1 <= d.day <= DaysInMonth(d.year, d.month)
  }

  /** `a < b` on dates. */
  predicate Before(a: Date, b: Date) {
    a.year < b.year ||
    (a.year == b.year && (a.month < b.month || (a.month == b.month && a.day < b.day)))
  }

  function DigitAt(c: char): int {
    c as int - '0' as int
  }

  /**
   * The month directive of `strptime`, the regular expression
   * `1[0-2]|0[1-9]|[1-9]`: the value and the number of characters taken.
   * Where the first alternative applies, falling back to the third could
   * never be followed by the '-' the format needs, so the first applicable
   * alternative is the only one that can succeed.
   */
  function MonthToken(s: string): (r: Option<(int, nat)>)
    ensures r.Some? ==> 1 <= r.value.0 <= 12 && 1 <= r.value.1 <= 2 && r.value.1 <= |s|
  {
    if |s| >= 2 && s[0] == '1' && '0' <= s[1] <= '2' then Some((10 + DigitAt(s[1]), 2))
    else if |s| >= 2 && s[0] == '0' && '1' <= s[1] <= '9' then Some((DigitAt(s[1]), 2))
    else if |s| >= 1 && '1' <= s[0] <= '9' then Some((DigitAt(s[0]), 1))
    else None
  }

  /**
   * The day directive, `3[01]|[12]\d|0[1-9]|[1-9]| [1-9]`, with the
   * first alternative that matches winning (it is the last group of the
   * pattern, so the regular-expression match ends right after it).
   */
  function DayToken(s: string): (r: Option<(int, nat)>)
    ensures r.Some? ==> 1 <= r.value.0 <= 31 && 1 <= r.value.1 <= 2 && r.value.1 <= |s|
  {
    if |s| >= 2 && s[0] == '3' && '0' <= s[1] <= '1' then Some((30 + DigitAt(s[1]), 2))
    else if |s| >= 2 && '1' <= s[0] <= '2' && IsDigit(s[1]) then Some((10 * DigitAt(s[0]) + DigitAt(s[1]), 2))
    else if |s| >= 2 && s[0] == '0' && '1' <= s[1] <= '9' then Some((DigitAt(s[1]), 2))
    else if |s| >= 1 && '1' <= s[0] <= '9' then Some((DigitAt(s[0]), 1))
    else if |s| >= 2 && s[0] == ' ' && '1' <= s[1] <= '9' then Some((DigitAt(s[1]), 2))
    else None
  }

  /**
   * `datetime.strptime(s, '%Y-%m-%d').date()`, with `None` where Python
   * raises `ValueError`: four year digits, '-', the month, '-', the day, no
   * characters left over, and a date that exists.
   */
  function ParseDate(s: string): (r: Option<Date>)
    ensures r.Some? ==> ValidDate(r.value)
  {
    if |s| < 5 || !AllDigits(s[..4]) || s[4] != '-' then None
    else
      var year := DigitsValue(s[..4]);
      var rest := s[5..];
      match MonthToken(rest)
      case None => None
      case Some((month, ml)) =>
        if ml >= |rest| || rest[ml] != '-' then None
        else
          var tail := rest[ml + 1..];
          match DayToken(tail)
          case None => None
          case Some((day, dl)) =>
            if dl != |tail| then None
            else if ValidDate(Date(year, month, day)) then Some(Date(year, month, day))
            else None
  }

  /** Python's `is_valid_date`: whether `strptime` accepts the text. */
  predicate IsValidDate(s: string) {
    ParseDate(s).Some?
  }

  /** `%02d`: two decimal digits. */
  function TwoDigits(n: nat): string
    requires n < 100
  {
    [('0' as int + n / 10) as char, ('0' as int + n % 10) as char]
  }

  /** `%04d`: four decimal digits. */
  function FourDigits(n: nat): string
    requires n < 10000
  {
    TwoDigits(n / 100) + TwoDigits(n % 100)
  }

  lemma TwoDigitsValue(n: nat)
    requires n < 100
    ensures |TwoDigits(n)| == 2 && AllDigits(TwoDigits(n)) && DigitsValue(TwoDigits(n)) == n
  {
    var ds := TwoDigits(n);
    assert ds[..1] == [ds[0]] && [ds[0]][..0] == [];
    assert DigitsValue([ds[0]]) == n / 10;
  }

  lemma FourDigitsValue(n: nat)
    requires n < 10000
    ensures |FourDigits(n)| == 4 && AllDigits(FourDigits(n)) && DigitsValue(FourDigits(n)) == n
  {
    var hi, lo := TwoDigits(n / 100), TwoDigits(n % 100);
    TwoDigitsValue(n / 100);
    TwoDigitsValue(n % 100);
    DigitsValueAppend(hi, lo);
    assert Pow10(2) == 100 by { assert Pow10(1) == 10; }
  }

  /** `d.strftime('%Y-%m-%d')` for a year of four digits. */
  function FormatDate(d: Date): string
    requires ValidDate(d) && d.year >= 1000
  {
    FourDigits(d.year) + "-" + TwoDigits(d.month) + "-" + TwoDigits(d.day)
  }

  /** Printing a date and parsing it back gives the same date. */
  lemma FormatParse(d: Date)
    requires ValidDate(d) && d.year >= 1000
    ensures ParseDate(FormatDate(d)) == Some(d)
  {
    var s := FormatDate(d);
    var y, m, dd := FourDigits(d.year), TwoDigits(d.month), TwoDigits(d.day);
    FourDigitsValue(d.year);
    assert s[..4] == y;
    assert s[4] == '-';
    var rest := s[5..];
    assert rest == m + "-" + dd;
    assert m[0] == ('0' as int + d.month / 10) as char && m[1] == ('0' as int + d.month % 10) as char;
    assert MonthToken(rest) == Some((d.month, 2));
    assert rest[3..] == dd;
    assert dd[0] == ('0' as int + d.day / 10) as char && dd[1] == ('0' as int + d.day % 10) as char;
    assert DayToken(dd) == Some((d.day, 2));
  }

  function DaysBeforeYear(y: int): int
    requires y >= 1
  {
    if y == 1 then 0 else DaysBeforeYear(y - 1) + DaysInYear(y - 1)
  }

  function DaysBeforeMonth(y: int, m: int): (n: int)
    requires 1 <= m <= 13
    ensures n >= 0
  {
    if m == 1 then 0 else DaysBeforeMonth(y, m - 1) + DaysInMonth(y, m - 1)
  }

  /** `d.toordinal()`: 1 for 1 January of year 1, one more for each following day. */
  function Ordinal(d: Date): int
    requires ValidDate(d)
  {
    DaysBeforeYear(d.year) + DaysBeforeMonth(d.year, d.month) + d.day
  }

  lemma {:induction false} DaysBeforeMonthGrows(y: int, m: int, m': int)
    requires 1 <= m < m' <= 13
    ensures DaysBeforeMonth(y, m) + DaysInMonth(y, m) <= DaysBeforeMonth(y, m')
    decreases m'
  {
    if m + 1 < m' {
      DaysBeforeMonthGrows(y, m, m' - 1);
    }
  }

  lemma YearLength(y: int)
    ensures DaysBeforeMonth(y, 13) == DaysInYear(y)
  {
    assert DaysBeforeMonth(y, 2) == 31;
    assert DaysBeforeMonth(y, 3) == 31 + DaysInMonth(y, 2);
    assert DaysBeforeMonth(y, 4) == 62 + DaysInMonth(y, 2);
    assert DaysBeforeMonth(y, 5) == 92 + DaysInMonth(y, 2);
    assert DaysBeforeMonth(y, 6) == 123 + DaysInMonth(y, 2);
    assert DaysBeforeMonth(y, 7) == 153 + DaysInMonth(y, 2);
    assert DaysBeforeMonth(y, 8) == 184 + DaysInMonth(y, 2);
    assert DaysBeforeMonth(y, 9) == 215 + DaysInMonth(y, 2);
    assert DaysBeforeMonth(y, 10) == 245 + DaysInMonth(y, 2);
    assert DaysBeforeMonth(y, 11) == 276 + DaysInMonth(y, 2);
    assert DaysBeforeMonth(y, 12) == 306 + DaysInMonth(y, 2);
  }

  lemma {:induction false} DaysBeforeYearGrows(y: int, y': int)
    requires 1 <= y < y'
    ensures DaysBeforeYear(y) + DaysInYear(y) <= DaysBeforeYear(y')
    decreases y'
  {
    if y + 1 < y' {
      DaysBeforeYearGrows(y, y' - 1);
    }
  }

  /** A valid date's ordinal lies inside its year. */
  lemma WithinYear(d: Date)
    requires ValidDate(d)
    ensures DaysBeforeYear(d.year) < Ordinal(d) <= DaysBeforeYear(d.year) + DaysInYear(d.year)
  {
    YearLength(d.year);
    DaysBeforeMonthGrows(d.year, d.month, 13);
  }

  /** The ordinal orders dates exactly as date comparison does. */
  lemma OrdinalOrder(a: Date, b: Date)
    requires ValidDate(a) && ValidDate(b)
    ensures Before(a, b) <==> Ordinal(a) < Ordinal(b)
    ensures a == b <==> Ordinal(a) == Ordinal(b)
  {
    if Before(a, b) {
      OrdinalBefore(a, b);
    } else if a != b {
      OrdinalBefore(b, a);
    }
  }

  lemma OrdinalBefore(a: Date, b: Date)
    requires ValidDate(a) && ValidDate(b) && Before(a, b)
    ensures Ordinal(a) < Ordinal(b)
  {
    if a.year < b.year {
      WithinYear(a);
      WithinYear(b);
      DaysBeforeYearGrows(a.year, b.year);
    } else if a.month < b.month {
      DaysBeforeMonthGrows(a.year, a.month, b.month);
    }
  }
}
