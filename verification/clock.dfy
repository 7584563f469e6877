/**
 * Time as the application sees it: instants are whole seconds since
 * 1970-01-01 00:00:00 UTC, projected onto civil days, months and years.
 * The real clock never appears; the current instant is always a parameter.
 */
module Clock {

  /** Seconds since the epoch. */
  type Timestamp = nat

  /** Days since the epoch; day 0 is 1970-01-01. */
  type Day = nat

  const SecondsPerDay: nat := 86400

  /** The civil day an instant falls on (SQL `DATE(t)`). */
  function DayOf(t: Timestamp): Day {
    t / SecondsPerDay
  }

  /** Midnight at the start of day `d`: how a bare date string reads as a datetime. */
  function StartOfDay(d: Day): (t: Timestamp)
    ensures DayOf(t) == d
    ensures forall u: Timestamp :: DayOf(u) == d ==> t <= u
  {
    d * SecondsPerDay
  }

  /** Every instant lies in the day between its own midnight and the next one. */
  lemma DayBounds(t: Timestamp)
    ensures StartOfDay(DayOf(t)) <= t < StartOfDay(DayOf(t) + 1)
  {
  }

  /** The calendar (proleptic Gregorian) date of a day. */
  datatype CivilDate = CivilDate(year: int, month: int, day: int)

  predicate IsLeapYear(y: int) {
    y % 4 == 0 && (y % 100 != 0 || y % 400 == 0)
  }

  function DaysInYear(y: int): nat {
    if IsLeapYear(y) then 366 else 365
  }

  function DaysInMonth(y: int, m: int): (n: nat)
    requires 1 <= m <= 12
    ensures 28 <= n <= 31
  {
    if m == 2 then (if IsLeapYear(y) then 29 else 28)
    else if m in {4, 6, 9, 11} then 30
    else 31
  }

  /** The days of year `y` from the first of month `m` to the end of December. */
  function DaysFromMonth(y: int, m: int): nat
    requires 1 <= m <= 12
    decreases 12 - m
  {
    if m == 12 then DaysInMonth(y, 12) else DaysInMonth(y, m) + DaysFromMonth(y, m + 1)
  }

  lemma {:induction false} YearIsItsMonths(y: int)
    ensures DaysFromMonth(y, 1) == DaysInYear(y)
  {
    assert DaysFromMonth(y, 10) == 92;
    assert DaysFromMonth(y, 3) == 306;
  }

  /** The date `d` days after the first of month `m` of year `y`, within that year. */
  function DateInYear(y: int, m: int, d: nat): (c: CivilDate)
    requires 1 <= m <= 12 && d < DaysFromMonth(y, m)
    ensures c.year == y && m <= c.month <= 12
    ensures 1 <= c.day <= DaysInMonth(y, c.month)
    decreases 12 - m
  {
    if d < DaysInMonth(y, m) then CivilDate(y, m, d + 1)
    else DateInYear(y, m + 1, d - DaysInMonth(y, m))
  }

  /** The date `d` days after January 1st of year `y`. */
  function DateFromYear(y: int, d: nat): (c: CivilDate)
    ensures c.year >= y && 1 <= c.month <= 12
    ensures 1 <= c.day <= DaysInMonth(c.year, c.month)
    decreases d
  {
    if d < DaysInYear(y) then (YearIsItsMonths(y); DateInYear(y, 1, d))
    else DateFromYear(y + 1, d - DaysInYear(y))
  }

  /** The calendar date of day `d`, counting whole years and then whole months from 1970-01-01. */
  function CivilFromDays(d: Day): (c: CivilDate)
    ensures 1 <= c.month <= 12
    ensures 1 <= c.day <= 31
    ensures 1970 <= c.year
  {
    DateFromYear(1970, d)
  }

  /**
   * The date after `c`: the next day of the month, or the first of the next
   * month after a month's last day, or January 1st after December 31st.
   */
  function NextDate(c: CivilDate): CivilDate
    requires 1 <= c.month <= 12
  {
    if c.day < DaysInMonth(c.year, c.month) then c.(day := c.day + 1)
    else if c.month < 12 then CivilDate(c.year, c.month + 1, 1)
    else CivilDate(c.year + 1, 1, 1)
  }

  /** The calendar starts on January 1st of the starting year, and each day count is the date after the one before. */
  lemma {:induction false} CalendarSteps(y: int, d: nat)
    ensures DateFromYear(y, 0) == CivilDate(y, 1, 1)
    ensures DateFromYear(y, d + 1) == NextDate(DateFromYear(y, d))
    decreases d
  {
    YearIsItsMonths(y);
    if d < DaysInYear(y) {
      StepWithinYear(y, d);
    } else {
      CalendarSteps(y + 1, d - DaysInYear(y));
    }
  }

  /** One day's step from a day count inside year `y`, including the step from December 31st into the next year. */
  lemma StepWithinYear(y: int, d: nat)
    requires d < DaysInYear(y)
    ensures DateFromYear(y, d + 1) == NextDate(DateFromYear(y, d))
  {
    YearIsItsMonths(y);
    DayStepInYear(y, 1, d);
    var c := DateInYear(y, 1, d);
    assert DateFromYear(y, d) == c;
    if d + 1 < DaysInYear(y) {
      assert DateFromYear(y, d + 1) == DateInYear(y, 1, d + 1);
    } else {
      assert c.day == DaysInMonth(y, 12) && c.month == 12;
      assert DateFromYear(y, d + 1) == DateFromYear(y + 1, 0);
      assert DateFromYear(y + 1, 0) == DateInYear(y + 1, 1, 0) == CivilDate(y + 1, 1, 1);
    }
  }

  /** Within a year, the next day count is the next date, unless the count is December 31st, the year's last. */
  lemma {:induction false} DayStepInYear(y: int, m: int, d: nat)
    requires 1 <= m <= 12 && d < DaysFromMonth(y, m)
    ensures var c := DateInYear(y, m, d);
      if c.day < DaysInMonth(y, c.month) || c.month < 12
      then d + 1 < DaysFromMonth(y, m) && DateInYear(y, m, d + 1) == NextDate(c)
      else d + 1 == DaysFromMonth(y, m)
    decreases 12 - m
  {
    if d >= DaysInMonth(y, m) {
      DayStepInYear(y, m + 1, d - DaysInMonth(y, m));
    } else if d + 1 == DaysInMonth(y, m) && m < 12 {
      assert DateInYear(y, m, d + 1) == DateInYear(y, m + 1, 0) == CivilDate(y, m + 1, 1);
    }
  }

  /** The calendar date of an instant. */
  function DateOf(t: Timestamp): CivilDate {
    CivilFromDays(DayOf(t))
  }

  /** Same calendar month of the same year (`whereMonth` and `whereYear` together). */
  predicate SameMonth(a: Timestamp, b: Timestamp) {
    DateOf(a).year == DateOf(b).year && DateOf(a).month == DateOf(b).month
  }

  /** The quota month changes overnight exactly when the day is the last of its month. */
  lemma MonthRollsOver(t: Timestamp)
    ensures SameMonth(t, t + SecondsPerDay) <==> DateOf(t).day < DaysInMonth(DateOf(t).year, DateOf(t).month)
  {
    assert DayOf(t + SecondsPerDay) == DayOf(t) + 1;
    CalendarSteps(1970, DayOf(t));
  }

  /** The value of a decimal digit character. */
  function DigitValue(c: char): int {
    c as int - '0' as int
  }

  /** The number written by the two characters of `s` from position `i`. */
  function ReadTwo(s: string, i: nat): int
    requires i + 2 <= |s|
  {
    10 * DigitValue(s[i]) + DigitValue(s[i + 1])
  }

  /** `n` as exactly two decimal digits, zero-padded. */
  function TwoDigits(n: nat): (s: string)
    requires n < 100
    ensures |s| == 2 && '0' <= s[0] <= '9' && '0' <= s[1] <= '9'
    ensures ReadTwo(s, 0) == n
  {
    [('0' as int + n / 10) as char, ('0' as int + n % 10) as char]
  }

  /** Decimal digits of `n`, most significant first, without leading zeros. */
  function Digits(n: nat): (s: string)
    ensures 1 <= |s|
    ensures forall i :: 0 <= i < |s| ==> '0' <= s[i] <= '9'
  {
    if n < 10 then [('0' as int + n) as char]
    else Digits(n / 10) + [('0' as int + n % 10) as char]
  }

  /** `s` left-padded with zeros to at least `width` characters. */
  function PadZero(s: string, width: nat): (r: string)
    ensures |r| == if |s| < width then width else |s|
    decreases width - |s|
  {
    if |s| < width then PadZero("0" + s, width) else s
  }

  /** The ` H:i:s` tail of a formatted instant: the time of day as hours, minutes and seconds. */
  function ClockTime(secs: nat): (s: string)
    requires secs < SecondsPerDay
    ensures |s| == 9 && s[0] == ' ' && s[3] == ':' && s[6] == ':'
    ensures 3600 * ReadTwo(s, 1) + 60 * ReadTwo(s, 4) + ReadTwo(s, 7) == secs
    ensures ReadTwo(s, 1) < 24 && ReadTwo(s, 4) < 60 && ReadTwo(s, 7) < 60
  {
    var hours, rest := secs / 3600, secs % 3600;
    var minutes, seconds := rest / 60, rest % 60;
    assert secs == 3600 * hours + rest && rest == 60 * minutes + seconds;
    var h, m, sec := TwoDigits(hours), TwoDigits(minutes), TwoDigits(seconds);
    [' ', h[0], h[1], ':', m[0], m[1], ':', sec[0], sec[1]]
  }

  /** The `d-m-` head of a formatted instant: day and month of the date. */
  function DayMonth(c: CivilDate): (s: string)
    requires 1 <= c.day <= 31 && 1 <= c.month <= 12
    ensures |s| == 6 && s[2] == '-' && s[5] == '-'
    ensures ReadTwo(s, 0) == c.day && ReadTwo(s, 3) == c.month
  {
    var d := TwoDigits(c.day);
    var m := TwoDigits(c.month);
    [d[0], d[1], '-', m[0], m[1], '-']
  }

  /**
   * `d-m-Y H:i:s`: two-digit day and month, a year of at least four
   * digits, then two-digit hour, minute and second. The day, month and
   * time of day read back from the text.
   */
  function FormatTs(t: Timestamp): (s: string)
    ensures 19 <= |s|
    ensures s[2] == '-' && s[5] == '-'
    ensures ReadTwo(s, 0) == DateOf(t).day && ReadTwo(s, 3) == DateOf(t).month
    ensures s[|s| - 9] == ' ' && s[|s| - 6] == ':' && s[|s| - 3] == ':'
    ensures 3600 * ReadTwo(s, |s| - 8) + 60 * ReadTwo(s, |s| - 5) + ReadTwo(s, |s| - 2) == t % SecondsPerDay
  {
    var head := DayMonth(DateOf(t));
    var year := PadZero(Digits(DateOf(t).year), 4);
    var tail := ClockTime(t % SecondsPerDay);
    var s := head + year + tail;
    assert s[..6] == head;
    assert s[|s| - 9..] == tail;
    s
  }
}
