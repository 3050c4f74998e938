/**
 The Gregorian calendar in UTC, as `Intl.DateTimeFormat` shows it to the cron search.

 `DateOf` is the definition: 1 January 1970 is day 0, and every other day is reached from it by
 going one day forward or back. `DayNumber` is the closed form. The two are proved inverse to
 each other, so a statement about "the first 29 February after a day" can be made by arithmetic
 and used on the dates the search actually sees.
 */
module Calendar {

  datatype Date = Date(year: int, month: int, day: int)

  predicate IsLeap(year: int) {
    year % 4 == 0 && (year % 100 != 0 || year % 400 == 0)
  }

  /** The length of a month in a year that is not a leap year. */
  function CommonLength(month: int): int
    requires 1 <= month <= 12
  {
    if month == 2 then 28
    else if month == 4 || month == 6 || month == 9 || month == 11 then 30
    else 31
  }

  function MonthLength(year: int, month: int): int
    requires 1 <= month <= 12
  {
    if month == 2 && IsLeap(year) then 29 else CommonLength(month)
  }

  predicate IsDate(d: Date) {
    1 <= d.month <= 12 && 1 <= d.day <= MonthLength(d.year, d.month)
  }

  function Tomorrow(d: Date): (r: Date)
    requires IsDate(d)
    ensures IsDate(r)
  {
    if d.day < MonthLength(d.year, d.month) then d.(day := d.day + 1)
    else if d.month < 12 then Date(d.year, d.month + 1, 1)
    else Date(d.year + 1, 1, 1)
  }

  function Yesterday(d: Date): (r: Date)
    requires IsDate(d)
    ensures IsDate(r) && Tomorrow(r) == d
  {
    if d.day > 1 then d.(day := d.day - 1)
    else if d.month > 1 then Date(d.year, d.month - 1, MonthLength(d.year, d.month - 1))
    else Date(d.year - 1, 12, 31)
  }

  /** The date `n` days after 1 January 1970. */
  function DateOf(n: int): (d: Date)
    ensures IsDate(d)
    decreases if n < 0 then -n else n
  {
    if n == 0 then Date(1970, 1, 1)
    else if n > 0 then Tomorrow(DateOf(n - 1))
    else Yesterday(DateOf(n + 1))
  }

  /** 0 is Sunday; 1 January 1970 was a Thursday. */
  function Weekday(n: int): (w: int)
    ensures 0 <= w <= 6
  {
    (n + 4) % 7
  }

  /** 1 January 1970 was a Thursday, and the weekdays follow each other. */
  lemma WeekdaysFollow(n: int)
    ensures Weekday(0) == 4
    ensures Weekday(n + 1) == if Weekday(n) == 6 then 0 else Weekday(n) + 1
  {
  }

  // ---------- the closed form ----------

  /** How many leap years precede `year`, counted from an arbitrary origin. */
  function LeapsBefore(year: int): int {
    (year - 1) / 4 - (year - 1) / 100 + (year - 1) / 400
  }

  /** The day number of 1 January. */
  function YearStart(year: int): int {
    365 * (year - 1970) + LeapsBefore(year) - LeapsBefore(1970)
  }

  /** How many days of the year precede the first of `month`. */
  function MonthStart(leap: bool, month: int): int
    requires 1 <= month <= 12
  {
    (if month <= 2 || !leap then 0 else 1) +
    [0, 31, 59, 90, 120, 151, 181, 212, 243, 273, 304, 334][month - 1]
  }

  function DayNumber(d: Date): int
    requires IsDate(d)
  {
    YearStart(d.year) + MonthStart(IsLeap(d.year), d.month) + d.day - 1
  }

  function YearLength(year: int): int {
    if IsLeap(year) then 366 else 365
  }

  lemma Quarters(year: int)
    ensures year / 4 == (year - 1) / 4 + if year % 4 == 0 then 1 else 0
  {
  }

  lemma Centuries(year: int)
    ensures year / 100 == (year - 1) / 100 + if year % 100 == 0 then 1 else 0
    ensures year % 100 == 0 ==> year % 4 == 0
  {
    if year % 100 == 0 {
      assert year == 4 * (25 * (year / 100));
    }
  }

  lemma FourCenturies(year: int)
    ensures year / 400 == (year - 1) / 400 + if year % 400 == 0 then 1 else 0
    ensures year % 400 == 0 ==> year % 100 == 0
  {
    if year % 400 == 0 {
      assert year == 100 * (4 * (year / 400));
    }
  }

  lemma LeapStep(year: int)
    ensures LeapsBefore(year + 1) == LeapsBefore(year) + if IsLeap(year) then 1 else 0
  {
    Quarters(year);
    Centuries(year);
    FourCenturies(year);
  }

  lemma YearStep(year: int)
    ensures YearStart(year + 1) == YearStart(year) + YearLength(year)
  {
    LeapStep(year);
  }

  lemma {:induction false} YearsApart(y: int, z: int)
    requires y < z
    ensures YearStart(y) + YearLength(y) <= YearStart(z)
    decreases z - y
  {
    YearStep(y);
    if y + 1 < z {
      YearsApart(y + 1, z);
    }
  }

  lemma MonthStep(leap: bool, month: int)
    requires 1 <= month < 12
    ensures MonthStart(leap, month + 1) ==
            MonthStart(leap, month) + if month == 2 && leap then 29 else CommonLength(month)
  {
  }

  lemma DayInYear(d: Date)
    requires IsDate(d)
    ensures YearStart(d.year) <= DayNumber(d) < YearStart(d.year) + YearLength(d.year)
  {
  }

  lemma TomorrowIsNext(d: Date)
    requires IsDate(d)
    ensures DayNumber(Tomorrow(d)) == DayNumber(d) + 1
  {
    if d.day == MonthLength(d.year, d.month) {
      if d.month < 12 {
        MonthStep(IsLeap(d.year), d.month);
      } else {
        YearStep(d.year);
      }
    }
  }

  /** In both directions from 1970, the next day number is the next date. */
  lemma Succession(n: int)
    ensures DateOf(n + 1) == Tomorrow(DateOf(n))
  {
  }

  /** The closed form counts the days that `DateOf` walks. */
  lemma {:induction false} DayNumberOfDateOf(n: int)
    ensures DayNumber(DateOf(n)) == n
    decreases if n < 0 then -n else n
  {
    if n == 0 {
      assert DateOf(n) == Date(1970, 1, 1);
    } else {
      var nearer := if n > 0 then n - 1 else n;
      Succession(nearer);
      TomorrowIsNext(DateOf(nearer));
      DayNumberOfDateOf(if n > 0 then n - 1 else n + 1);
    }
  }

  /** No two dates share a day number. */
  lemma DayNumberInjective(d: Date, e: Date)
    requires IsDate(d) && IsDate(e) && DayNumber(d) == DayNumber(e)
    ensures d == e
  {
    DayInYear(d);
    DayInYear(e);
    if d.year < e.year { YearsApart(d.year, e.year); }
    if e.year < d.year { YearsApart(e.year, d.year); }
    if d.month < e.month { MonthsApart(d, e); }
    if e.month < d.month { MonthsApart(e, d); }
  }

  lemma MonthsApart(d: Date, e: Date)
    requires IsDate(d) && IsDate(e) && d.year == e.year && d.month < e.month
    ensures DayNumber(d) < DayNumber(e)
  {
  }

  lemma DateOfDayNumber(d: Date)
    requires IsDate(d)
    ensures DateOf(DayNumber(d)) == d
  {
    DayNumberOfDateOf(DayNumber(d));
    DayNumberInjective(DateOf(DayNumber(d)), d);
  }

  // ---------- recurrence ----------

  lemma YearOfDay(n: int)
    ensures var y := DateOf(n).year; YearStart(y) <= n < YearStart(y) + YearLength(y)
  {
    DayNumberOfDateOf(n);
    DayInYear(DateOf(n));
  }

  /** The minute number of a clock time on a date. */
  function MinuteOf(d: Date, hour: int, minute: int): int
    requires IsDate(d)
  {
    DayNumber(d) * 1440 + hour * 60 + minute
  }

  /** A date that exists in every year comes round within 366 days of any minute. */
  lemma YearlyRecurrence(month: int, day: int, hour: int, minute: int, start: int) returns (year: int)
    requires 1 <= month <= 12 && 1 <= day <= CommonLength(month)
    requires 0 <= hour < 24 && 0 <= minute < 60
    ensures start <= MinuteOf(Date(year, month, day), hour, minute) < start + 366 * 1440
  {
    var today := start / 1440;
    var y := DateOf(today).year;
    YearOfDay(today);
    YearStep(y);
    var anniversary := Date(y, month, day);
    var next := Date(y + 1, month, day);
    DayInYear(anniversary);
    DayInYear(next);
    assert DayNumber(next) <= DayNumber(anniversary) + 366;
    if start <= MinuteOf(anniversary, hour, minute) {
      year := y;
    } else {
      year := y + 1;
    }
  }
}
